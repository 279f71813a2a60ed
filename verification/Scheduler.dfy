/** The request life cycle in the scheduler: queue, gang reservation, bounded retry, completion. */
module Scheduler {
  import opened Wrappers
  import opened N = NodeResource
  import Sorting

  type NodeId = string

  /** parameters, estimate and configured stand for parameter_count, estimated_memory_per_gpu_bytes
      and model_config["estimated_memory"]; ticket is the counter in the request's queue entry. */
  datatype Request = Request(
    id: RequestId, priority: int, createdAt: real, parameters: int, estimate: nat, configured: nat,
    retries: int, ticket: nat
  )

  /** The GPUs chosen on one node; a plan lists each node once. */
  datatype Assignment = Assignment(node: NodeId, gpus: seq<GpuId>)

  type Plan = seq<Assignment>

  /** What the strategy does with a request. */
  datatype Choice = Raises | Refuses | Chooses(plan: Plan)

  datatype End = Succeeded | WorkersFailed | GaveUp

  datatype Terminal = Terminal(id: RequestId, end: End)

  /** The scheduler's fields. batch holds the popped requests not yet attempted. The last four
      fields are history: ids in order of submission, ends in order, attempts made, and how often
      closing the client raised after the workers' results had been counted. */
  datatype Sched = Sched(
    queue: seq<Request>,
    batch: seq<Request>,
    running: map<RequestId, Request>,
    nodes: map<NodeId, Node>,
    counter: nat,
    total: int,
    successful: int,
    failed: int,
    pending: int,
    submitted: seq<RequestId>,
    done: seq<Terminal>,
    attempts: multiset<RequestId>,
    closeErrors: nat
  )

  const FALLBACK_BYTES: int := 17179869184

  /** Bytes reserved on each GPU of a request: its estimate, or what its configuration says, or 16 GiB. */
  function PerGpu(r: Request): (bytes: int)
    ensures bytes > 0
    ensures r.estimate > 0 && (r.parameters > 0 || r.configured == 0) ==> bytes == r.estimate
    ensures r.parameters <= 0 && r.configured > 0 ==> bytes == r.configured
    ensures r.estimate == 0 && (r.parameters > 0 || r.configured == 0) ==> bytes == 17179869184
  {
    var first := if r.parameters > 0 then r.estimate else r.configured;
    var second := if first == 0 then r.estimate else first;
    if second == 0 then FALLBACK_BYTES else second
  }

  // ---------------------------------------------------------------- the queue

  predicate KeyLe(a: Request, b: Request) {
    a.priority < b.priority ||
    (a.priority == b.priority && (a.createdAt < b.createdAt || (a.createdAt == b.createdAt && a.ticket <= b.ticket)))
  }

  function LeastIndex(q: seq<Request>): (i: nat)
    requires q != []
    ensures i < |q| && forall r <- q :: KeyLe(q[i], r)
  {
    if |q| == 1 then 0
    else
      var i := LeastIndex(q[..|q| - 1]);
      assert q == q[..|q| - 1] + [q[|q| - 1]];
      if KeyLe(q[i], q[|q| - 1]) then i else |q| - 1
  }

  /** k times get_nowait. */
  function PopMany(s: Sched, k: nat): Sched
    requires k <= |s.queue|
    ensures |PopMany(s, k).queue| == |s.queue| - k && |PopMany(s, k).batch| == |s.batch| + k
  {
    if k == 0 then s
    else
      var t := PopMany(s, k - 1);
      Moved(t, LeastIndex(t.queue))
  }

  function Moved(s: Sched, i: nat): Sched
    requires i < |s.queue|
    ensures |Moved(s, i).queue| == |s.queue| - 1 && |Moved(s, i).batch| == |s.batch| + 1
  {
    s.(queue := Sorting.Without(s.queue, i), batch := s.batch + [s.queue[i]])
  }

  lemma WithoutHolds(q: seq<Request>, i: nat)
    requires i < |q|
    ensures multiset(q) == multiset(Sorting.Without(q, i)) + multiset{q[i]}
    ensures forall r <- Sorting.Without(q, i) :: r in q
  {
    Sorting.WithoutMultiset(q, i);
  }

  /** The batch is in order, and nothing still queued belongs before any of it. */
  ghost predicate BatchFirst(batch: seq<Request>, queue: seq<Request>) {
    && (forall i, j :: 0 <= i < j < |batch| ==> KeyLe(batch[i], batch[j]))
    && (forall b <- batch, r <- queue :: KeyLe(b, r))
  }

  lemma BatchFirstMore(batch: seq<Request>, queue: seq<Request>, i: nat)
    requires BatchFirst(batch, queue) && i < |queue| && forall r <- queue :: KeyLe(queue[i], r)
    ensures BatchFirst(batch + [queue[i]], Sorting.Without(queue, i))
  {
    hide KeyLe, Sorting.Without;
    WithoutHolds(queue, i);
  }

  lemma MovedHolds(s: Sched, i: nat)
    requires i < |s.queue|
    ensures
      var t := Moved(s, i);
      multiset(t.batch) + multiset(t.queue) == multiset(s.batch) + multiset(s.queue)
  {
    WithoutHolds(s.queue, i);
    hide Sorting.Without;
    assert multiset(s.batch + [s.queue[i]]) == multiset(s.batch) + multiset{s.queue[i]};
  }

  /** A batch is, in order, the k least requests of the queue; the others stay. */
  lemma {:induction false} BatchIsLeast(s: Sched, k: nat)
    requires s.batch == [] && k <= |s.queue|
    ensures
      var t := PopMany(s, k);
      |t.batch| == k && multiset(s.queue) == multiset(t.batch) + multiset(t.queue) && BatchFirst(t.batch, t.queue)
  {
    hide KeyLe, Moved, BatchFirst;
    if k == 0 {
      Nothing(s.queue);
    } else {
      var t := PopMany(s, k - 1);
      BatchIsLeast(s, k - 1);
      var i := LeastIndex(t.queue);
      MovedHolds(t, i);
      MovedFirst(t, i);
    }
  }

  lemma MovedFirst(s: Sched, i: nat)
    requires BatchFirst(s.batch, s.queue) && i < |s.queue| && forall r <- s.queue :: KeyLe(s.queue[i], r)
    ensures BatchFirst(Moved(s, i).batch, Moved(s, i).queue)
  {
    hide BatchFirst;
    BatchFirstMore(s.batch, s.queue, i);
  }

  lemma Nothing(queue: seq<Request>)
    ensures BatchFirst([], queue)
  {
  }

  /** So nothing taken comes after something left or taken later: its priority number is no higher; at
      the same priority it was created no later; created at the same time, it was queued no later. */
  lemma BatchOrder(s: Sched, k: nat)
    requires s.batch == [] && k <= |s.queue|
    ensures
      var t := PopMany(s, k);
      && (forall b <- t.batch, r <- t.queue ::
            && b.priority <= r.priority
            && (b.priority == r.priority ==> b.createdAt <= r.createdAt)
            && (b.priority == r.priority && b.createdAt == r.createdAt ==> b.ticket <= r.ticket))
      && (forall i, j :: 0 <= i < j < |t.batch| ==>
            && t.batch[i].priority <= t.batch[j].priority
            && (t.batch[i].priority == t.batch[j].priority ==> t.batch[i].createdAt <= t.batch[j].createdAt)
            && (t.batch[i].priority == t.batch[j].priority && t.batch[i].createdAt == t.batch[j].createdAt ==>
                  t.batch[i].ticket <= t.batch[j].ticket))
  {
    hide *;
    BatchIsLeast(s, k);
    var t := PopMany(s, k);
    forall b, r | b in t.batch && r in t.queue
      ensures
        && b.priority <= r.priority
        && (b.priority == r.priority ==> b.createdAt <= r.createdAt)
        && (b.priority == r.priority && b.createdAt == r.createdAt ==> b.ticket <= r.ticket)
    {
      LeftComesLater(t.batch, t.queue, b, r);
    }
    forall i, j | 0 <= i < j < |t.batch|
      ensures
        && t.batch[i].priority <= t.batch[j].priority
        && (t.batch[i].priority == t.batch[j].priority ==> t.batch[i].createdAt <= t.batch[j].createdAt)
        && (t.batch[i].priority == t.batch[j].priority && t.batch[i].createdAt == t.batch[j].createdAt ==>
              t.batch[i].ticket <= t.batch[j].ticket)
    {
      TakenComesLater(t.batch, t.queue, i, j);
    }
  }

  lemma LeftComesLater(batch: seq<Request>, queue: seq<Request>, b: Request, r: Request)
    requires BatchFirst(batch, queue) && b in batch && r in queue
    ensures
      && b.priority <= r.priority
      && (b.priority == r.priority ==> b.createdAt <= r.createdAt)
      && (b.priority == r.priority && b.createdAt == r.createdAt ==> b.ticket <= r.ticket)
  {
    assert KeyLe(b, r);
  }

  lemma TakenComesLater(batch: seq<Request>, queue: seq<Request>, i: nat, j: nat)
    requires BatchFirst(batch, queue) && i < j < |batch|
    ensures
      var b, r := batch[i], batch[j];
      && b.priority <= r.priority
      && (b.priority == r.priority ==> b.createdAt <= r.createdAt)
      && (b.priority == r.priority && b.createdAt == r.createdAt ==> b.ticket <= r.ticket)
  {
    assert KeyLe(batch[i], batch[j]);
  }

  /** The queue lists its requests by ticket, none of which is used twice. */
  ghost predicate Ticketed(s: Sched) {
    && (forall i, j :: 0 <= i < j < |s.queue| ==> s.queue[i].ticket < s.queue[j].ticket)
    && (forall r <- s.queue :: r.ticket <= s.counter)
  }

  lemma {:induction false} PopKeepsTickets(s: Sched, k: nat)
    requires Ticketed(s) && k <= |s.queue|
    ensures Ticketed(PopMany(s, k))
  {
    hide Moved;
    if k > 0 {
      PopKeepsTickets(s, k - 1);
      MovedKeepsTickets(PopMany(s, k - 1), LeastIndex(PopMany(s, k - 1).queue));
    }
  }

  lemma MovedKeepsTickets(s: Sched, i: nat)
    requires Ticketed(s) && i < |s.queue|
    ensures Ticketed(Moved(s, i))
  {
    WithoutHolds(s.queue, i);
  }

  // ---------------------------------------------------------------- reserving and releasing

  /** The pairs (node, GPU) of a plan, in order. */
  function Pairs(plan: Plan): seq<(NodeId, GpuId)> {
    if plan == [] then []
    else Pairs(plan[..|plan| - 1]) + PairsOn(plan[|plan| - 1].node, plan[|plan| - 1].gpus)
  }

  function PairsOn(n: NodeId, gpus: seq<GpuId>): seq<(NodeId, GpuId)> {
    seq(|gpus|, i requires 0 <= i < |gpus| => (n, gpus[i]))
  }

  /** Every node of the plan is there and every GPU of the plan has room. */
  predicate Fits(nodes: map<NodeId, Node>, plan: Plan, bytes: int) {
    forall a <- plan :: a.node in nodes && Checked(nodes[a.node], a.gpus, bytes)
  }

  function GpusOn(pairs: seq<(NodeId, GpuId)>, n: NodeId): seq<GpuId> {
    if pairs == [] then []
    else
      var last := pairs[|pairs| - 1];
      GpusOn(pairs[..|pairs| - 1], n) + (if last.0 == n then [last.1] else [])
  }

  function ReservePairs(nodes: map<NodeId, Node>, r: RequestId, pairs: seq<(NodeId, GpuId)>, bytes: int): map<NodeId, Node> {
    map n <- nodes :: ReserveAll(nodes[n], r, GpusOn(pairs, n), bytes)
  }

  function ReleaseAll(nodes: map<NodeId, Node>, r: RequestId): map<NodeId, Node> {
    map n <- nodes :: Release(nodes[n], r)
  }

  // ---------------------------------------------------------------- steps

  datatype Action =
    | Submit(r: Request)
    | StartBatch
    | Attempt(choice: Choice)
    | Finish(id: RequestId, ok: bool)
    | CloseRaises(id: RequestId)
    | Register(n: NodeId, node: Node)
    | Unregister(n: NodeId)

  const INITIAL := Sched([], [], map[], map[], 0, 0, 0, 0, 0, [], [], multiset{}, 0)

  /** Distinct ids, first attempt ahead; a batch is finished before the next one starts. */
  predicate Enabled(s: Sched, a: Action) {
    match a
    case Submit(r) => r.id !in s.submitted && r.retries == 0
    case StartBatch => s.batch == []
    case Attempt(_) => s.batch != []
    case Finish(id, _) => id in s.running
    case CloseRaises(id) => exists t <- s.done :: t.id == id && t.end != GaveUp
    case Register(_, _) => true
    case Unregister(_) => true
  }

  /** _notify_completion, and what _mark_failure releases. */
  function Forget(s: Sched, id: RequestId): Sched {
    s.(nodes := ReleaseAll(s.nodes, id), running := s.running - {id})
  }

  function Enqueue(s: Sched, r: Request): Sched {
    s.(queue := s.queue + [r.(ticket := s.counter + 1)], counter := s.counter + 1)
  }

  /** A failed attempt: back into the queue, or the end. Only a refusal is reported. */
  function Retry(s: Sched, r: Request, reported: bool, maxRetries: int): Sched {
    var r' := r.(retries := r.retries + 1);
    if r'.retries < maxRetries then Enqueue(s, r')
    else
      var s' := s.(failed := s.failed + 1, pending := s.pending - 1, done := s.done + [Terminal(r.id, GaveUp)]);
      if reported then Forget(s', r.id) else s'
  }

  function Dispatched(s: Sched, r: Request, plan: Plan): Sched {
    s.(nodes := ReservePairs(s.nodes, r.id, Pairs(plan), PerGpu(r)), running := s.running[r.id := r],
       pending := s.pending - 1)
  }

  function AttemptOne(s: Sched, choice: Choice, maxRetries: int): Sched
    requires s.batch != []
  {
    var r := s.batch[0];
    var s' := s.(batch := s.batch[1..], attempts := s.attempts + multiset{r.id});
    match choice
    case Raises => Retry(s', r, false, maxRetries)
    case Refuses => Retry(s', r, true, maxRetries)
    case Chooses(plan) =>
      if Fits(s.nodes, plan, PerGpu(r)) then Dispatched(s', r, plan) else Retry(s', r, true, maxRetries)
  }

  function Finished(s: Sched, id: RequestId, ok: bool): Sched {
    Forget(s.(successful := s.successful + (if ok then 1 else 0), failed := s.failed + (if ok then 0 else 1),
              done := s.done + [Terminal(id, if ok then Succeeded else WorkersFailed)]), id)
  }

  function Submitted(s: Sched, r: Request): Sched {
    Enqueue(s.(total := s.total + 1, pending := s.pending + 1, submitted := s.submitted + [r.id]), r)
  }

  function Apply(s: Sched, a: Action, maxRetries: int): Sched
    requires Enabled(s, a)
  {
    match a
    case Submit(r) => Submitted(s, r)
    case StartBatch => if s.nodes == map[] then s else PopMany(s, Min(|s.queue|, 10))
    case Attempt(choice) => AttemptOne(s, choice, maxRetries)
    case Finish(id, ok) => Finished(s, id, ok)
    case CloseRaises(id) => Forget(s.(failed := s.failed + 1, closeErrors := s.closeErrors + 1), id)
    case Register(n, node) => s.(nodes := s.nodes[n := node])
    case Unregister(n) => s.(nodes := s.nodes - {n})
  }

  // ---------------------------------------------------------------- accounting

  function Total(rs: seq<Request>, f: Request -> nat): nat {
    if rs == [] then 0 else Total(rs[..|rs| - 1], f) + f(rs[|rs| - 1])
  }

  function Is(id: RequestId): Request -> nat {
    (r: Request) => if r.id == id then 1 else 0
  }

  function Count(rs: seq<Request>, id: RequestId): nat {
    Total(rs, Is(id))
  }

  function Ends(ts: seq<Terminal>, id: RequestId): nat {
    if ts == [] then 0 else Ends(ts[..|ts| - 1], id) + (if ts[|ts| - 1].id == id then 1 else 0)
  }

  function Successes(ts: seq<Terminal>): nat {
    if ts == [] then 0 else Successes(ts[..|ts| - 1]) + (if ts[|ts| - 1].end.Succeeded? then 1 else 0)
  }

  /** How often a request occurs in all the places where it can be. */
  function Places(s: Sched, id: RequestId): nat {
    Count(s.queue, id) + Count(s.batch, id) + (if id in s.running then 1 else 0) + Ends(s.done, id)
  }

  ghost predicate OnePlace(s: Sched) {
    forall id :: Places(s, id) == if id in s.submitted then 1 else 0
  }

  function Limit(maxRetries: int): nat {
    Max(1, maxRetries)
  }

  /** A waiting request has been attempted retries times, and may be attempted again. */
  predicate Waiting(s: Sched, r: Request, maxRetries: int) {
    s.attempts[r.id] == r.retries && 0 <= r.retries < Limit(maxRetries)
  }

  ghost predicate Attempted(s: Sched, maxRetries: int) {
    && (forall r <- s.queue :: Waiting(s, r, maxRetries))
    && (forall r <- s.batch :: Waiting(s, r, maxRetries))
    && (forall id :: s.attempts[id] <= Limit(maxRetries) && (id in s.attempts ==> id in s.submitted))
    && (forall t <- s.done :: t.end == GaveUp ==> s.attempts[t.id] == Limit(maxRetries))
  }

  /** The four counters, and where the submitted requests are. */
  predicate Counted(s: Sched) {
    && s.total == |s.submitted| == |s.queue| + |s.batch| + |s.running| + |s.done|
    && s.pending == |s.queue| + |s.batch|
    && s.successful == Successes(s.done) && s.failed == |s.done| - Successes(s.done) + s.closeErrors
  }

  ghost predicate Accounts(s: Sched, maxRetries: int) {
    OnePlace(s) && Counted(s) && Attempted(s, maxRetries)
  }

  // ---------------------------------------------------------------- about the lists

  lemma {:induction false} TotalConcat(a: seq<Request>, b: seq<Request>, f: Request -> nat)
    ensures Total(a + b, f) == Total(a, f) + Total(b, f)
  {
    if b == [] {
      assert a + b == a;
    } else {
      assert (a + b)[..|a + b| - 1] == a + b[..|b| - 1];
      TotalConcat(a, b[..|b| - 1], f);
    }
  }

  lemma TotalOne(r: Request, f: Request -> nat)
    ensures Total([r], f) == f(r)
  {
    assert [r][..0] == [];
  }

  lemma TotalFirst(q: seq<Request>, f: Request -> nat)
    requires q != []
    ensures Total(q, f) == f(q[0]) + Total(q[1..], f)
  {
    assert q == [q[0]] + q[1..];
    TotalConcat([q[0]], q[1..], f);
    TotalOne(q[0], f);
  }

  lemma TotalAppend(q: seq<Request>, r: Request, f: Request -> nat)
    ensures Total(q + [r], f) == Total(q, f) + f(r)
  {
    assert (q + [r])[..|q|] == q;
  }

  lemma TotalWithout(q: seq<Request>, i: nat, f: Request -> nat)
    requires i < |q|
    ensures Total(q, f) == Total(Sorting.Without(q, i), f) + f(q[i])
  {
    var after := q[i..];
    assert q == q[..i] + after && q[i + 1..] == after[1..];
    TotalFirst(after, f);
    TotalConcat(q[..i], after, f);
    TotalConcat(q[..i], after[1..], f);
  }

  lemma {:induction false} TotalHas(rs: seq<Request>, r: Request, f: Request -> nat)
    requires r in rs
    ensures Total(rs, f) >= f(r)
  {
    if r != rs[|rs| - 1] {
      assert r in rs[..|rs| - 1];
      TotalHas(rs[..|rs| - 1], r, f);
    }
  }

  lemma CountAppend(q: seq<Request>, r: Request)
    ensures forall id :: Count(q + [r], id) == Count(q, id) + (if r.id == id then 1 else 0)
  {
    forall id ensures Count(q + [r], id) == Count(q, id) + (if r.id == id then 1 else 0) {
      TotalAppend(q, r, Is(id));
    }
  }

  lemma CountFirst(q: seq<Request>)
    requires q != []
    ensures forall id :: Count(q, id) == Count(q[1..], id) + (if q[0].id == id then 1 else 0)
  {
    forall id ensures Count(q, id) == Count(q[1..], id) + (if q[0].id == id then 1 else 0) {
      TotalFirst(q, Is(id));
    }
  }

  lemma CountWithout(q: seq<Request>, i: nat)
    requires i < |q|
    ensures forall id :: Count(q, id) == Count(Sorting.Without(q, i), id) + (if q[i].id == id then 1 else 0)
  {
    forall id ensures Count(q, id) == Count(Sorting.Without(q, i), id) + (if q[i].id == id then 1 else 0) {
      TotalWithout(q, i, Is(id));
    }
  }

  lemma CountHas(rs: seq<Request>, r: Request)
    requires r in rs
    ensures Count(rs, r.id) > 0
  {
    TotalHas(rs, r, Is(r.id));
  }

  lemma {:induction false} EndsHas(ts: seq<Terminal>, t: Terminal)
    requires t in ts
    ensures Ends(ts, t.id) > 0
  {
    if t != ts[|ts| - 1] {
      assert t in ts[..|ts| - 1];
      EndsHas(ts[..|ts| - 1], t);
    }
  }

  lemma AddEnd(ts: seq<Terminal>, t: Terminal)
    ensures forall id :: Ends(ts + [t], id) == Ends(ts, id) + (if t.id == id then 1 else 0)
    ensures Successes(ts + [t]) == Successes(ts) + (if t.end.Succeeded? then 1 else 0)
  {
    assert (ts + [t])[..|ts|] == ts;
  }

  /** One more of id among the places, and everything else as before. */
  ghost predicate Gains(s: Sched, s': Sched, x: RequestId) {
    forall id :: Places(s', id) == Places(s, id) + (if id == x then 1 else 0)
  }

  // ---------------------------------------------------------------- every step keeps the accounts

  /** Taking the next request out of the batch to attempt it leaves it in no place, and counts
      nobody else's attempt. */
  function Taken(s: Sched): Sched
    requires s.batch != []
  {
    s.(batch := s.batch[1..], attempts := s.attempts + multiset{s.batch[0].id})
  }

  lemma Alone(s: Sched)
    requires OnePlace(s) && s.batch != []
    ensures
      var r := s.batch[0];
      && Gains(Taken(s), s, r.id) && Places(Taken(s), r.id) == 0 && r.id in s.submitted
      && (forall x <- s.queue :: x.id != r.id) && (forall x <- s.batch[1..] :: x.id != r.id)
      && r.id !in s.running && (forall t <- s.done :: t.id != r.id)
  {
    var r, s' := s.batch[0], Taken(s);
    CountFirst(s.batch);
    hide Count, Ends;
    assert Gains(s', s, r.id);
    assert Places(s, r.id) <= 1;
    forall x | x in s.queue ensures x.id != r.id {
      CountHas(s.queue, x);
    }
    forall x | x in s.batch[1..] ensures x.id != r.id {
      CountHas(s.batch[1..], x);
    }
    forall t | t in s.done ensures t.id != r.id {
      EndsHas(s.done, t);
    }
  }

  lemma TakenCounts(s: Sched)
    requires Counted(s) && s.batch != []
    ensures Counted(Taken(s).(queue := s.queue + [s.batch[0]]))
  {
    hide Successes;
  }

  lemma TakenAttempts(s: Sched, maxRetries: int)
    requires OnePlace(s) && Attempted(s, maxRetries) && s.batch != []
    ensures
      var r, s' := s.batch[0], Taken(s);
      Attempted(s', maxRetries) && s'.attempts[r.id] == r.retries + 1 <= Limit(maxRetries) && r.retries >= 0
  {
    var r, s' := s.batch[0], Taken(s);
    Alone(s);
    hide OnePlace, Places, Gains;
    assert r in s.batch && Waiting(s, r, maxRetries);
    assert forall x <- s.batch[1..] :: x in s.batch;
    assert s'.attempts[r.id] == s.attempts[r.id] + 1;
    assert forall id :: id != r.id ==> s'.attempts[id] == s.attempts[id];
  }

  lemma EnqueueKeeps(s: Sched, r: Request, maxRetries: int)
    requires Attempted(s, maxRetries) && Waiting(s, r, maxRetries)
    ensures Attempted(Enqueue(s, r), maxRetries) && Gains(s, Enqueue(s, r), r.id)
  {
    CountAppend(s.queue, r.(ticket := s.counter + 1));
    hide Count, Ends, Successes;
  }

  lemma ForgetNothing(s: Sched, id: RequestId)
    requires id !in s.running
    ensures Forget(s, id).running == s.running
  {
  }

  lemma EndKeeps(s: Sched, t: Terminal, maxRetries: int)
    requires Attempted(s, maxRetries) && (t.end == GaveUp ==> s.attempts[t.id] == Limit(maxRetries))
    ensures
      var s' := s.(done := s.done + [t]);
      Attempted(s', maxRetries) && Gains(s, s', t.id)
  {
    AddEnd(s.done, t);
    hide Count, Ends, Successes;
  }

  lemma SameLists(s: Sched, s': Sched, maxRetries: int)
    requires s'.queue == s.queue && s'.batch == s.batch && s'.running == s.running && s'.done == s.done
    requires s'.attempts == s.attempts && s'.submitted == s.submitted
    ensures forall id :: Places(s', id) == Places(s, id)
    ensures OnePlace(s) ==> OnePlace(s')
    ensures Attempted(s, maxRetries) ==> Attempted(s', maxRetries)
  {
    hide Count, Ends;
  }

  lemma RetryCounts(s: Sched, r: Request, reported: bool, maxRetries: int)
    requires r.id !in s.running && Counted(s.(queue := s.queue + [r]))
    ensures Counted(Retry(s, r, reported, maxRetries)) && Retry(s, r, reported, maxRetries).submitted == s.submitted
  {
    AddEnd(s.done, Terminal(r.id, GaveUp));
    ForgetNothing(s, r.id);
    hide Successes, Ends, ReleaseAll;
  }

  lemma RetryKeeps(s: Sched, r: Request, reported: bool, maxRetries: int)
    requires Attempted(s, maxRetries) && s.attempts[r.id] == r.retries + 1 <= Limit(maxRetries) && r.retries >= 0
    requires r.id !in s.running
    ensures
      var s' := Retry(s, r, reported, maxRetries);
      Attempted(s', maxRetries) && Gains(s, s', r.id)
  {
    var r' := r.(retries := r.retries + 1);
    var s' := Retry(s, r, reported, maxRetries);
    if r'.retries < maxRetries {
      EnqueueKeeps(s, r', maxRetries);
    } else {
      var t := Terminal(r.id, GaveUp);
      EndKeeps(s, t, maxRetries);
      ForgetNothing(s, r.id);
      hide Attempted, Places, Ends, ReleaseAll;
      SameLists(s.(done := s.done + [t]), s', maxRetries);
    }
  }

  lemma DispatchKeeps(s: Sched, r: Request, plan: Plan, maxRetries: int)
    requires Attempted(s, maxRetries) && r.id !in s.running && Counted(s.(queue := s.queue + [r]))
    ensures
      var s' := Dispatched(s, r, plan);
      Attempted(s', maxRetries) && Gains(s, s', r.id) && Counted(s') && s'.submitted == s.submitted
  {
    hide Count, Ends, Successes, ReservePairs, PerGpu;
    var s' := Dispatched(s, r, plan);
    assert s'.running.Keys == s.running.Keys + {r.id};
    assert |s'.running| == |s'.running.Keys| && |s.running| == |s.running.Keys|;
  }

  lemma BackToOne(s: Sched, s': Sched, s'': Sched, x: RequestId)
    requires OnePlace(s) && Gains(s', s, x) && Gains(s', s'', x) && s''.submitted == s.submitted
    ensures OnePlace(s'')
  {
    hide Places;
    forall id ensures Places(s'', id) == if id in s''.submitted then 1 else 0 {
      assert Places(s, id) == Places(s', id) + (if id == x then 1 else 0);
    }
  }

  lemma AttemptKeeps(s: Sched, choice: Choice, maxRetries: int)
    requires Accounts(s, maxRetries) && s.batch != []
    ensures Accounts(AttemptOne(s, choice, maxRetries), maxRetries)
  {
    var r, s' := s.batch[0], Taken(s);
    TakenCounts(s);
    TakenAttempts(s, maxRetries);
    Alone(s);
    hide Attempted, Places, Counted, Retry, Dispatched, Waiting, OnePlace, Gains;
    if choice == Raises {
      RetryKeeps(s', r, false, maxRetries);
      RetryCounts(s', r, false, maxRetries);
    } else if choice.Chooses? && Fits(s.nodes, choice.plan, PerGpu(r)) {
      DispatchKeeps(s', r, choice.plan, maxRetries);
    } else {
      RetryKeeps(s', r, true, maxRetries);
      RetryCounts(s', r, true, maxRetries);
    }
    BackToOne(s, s', AttemptOne(s, choice, maxRetries), r.id);
  }

  lemma MovedKeepsPlaces(s: Sched, i: nat)
    requires OnePlace(s) && i < |s.queue|
    ensures OnePlace(Moved(s, i))
  {
    CountWithout(s.queue, i);
    CountAppend(s.batch, s.queue[i]);
    hide Count, Ends, Sorting.Without;
    assert forall id :: Places(Moved(s, i), id) == Places(s, id);
  }

  lemma MovedKeepsAttempted(s: Sched, i: nat, maxRetries: int)
    requires Attempted(s, maxRetries) && i < |s.queue|
    ensures Attempted(Moved(s, i), maxRetries)
  {
    hide Limit;
    var s' := Moved(s, i);
    assert forall r <- s'.queue :: r in s.queue;
    assert forall r <- s'.batch :: r in s.queue || r in s.batch;
  }

  lemma MovedKeepsCounted(s: Sched, i: nat)
    requires Counted(s) && i < |s.queue|
    ensures Counted(Moved(s, i))
  {
    hide Successes;
  }

  lemma {:induction false} PopKeeps(s: Sched, k: nat, maxRetries: int)
    requires Accounts(s, maxRetries) && k <= |s.queue|
    ensures Accounts(PopMany(s, k), maxRetries)
  {
    hide OnePlace, Attempted, Counted, Moved;
    if k > 0 {
      var t := PopMany(s, k - 1);
      PopKeeps(s, k - 1, maxRetries);
      var i := LeastIndex(t.queue);
      MovedKeepsPlaces(t, i);
      MovedKeepsAttempted(t, i, maxRetries);
      MovedKeepsCounted(t, i);
    }
  }

  lemma SubmitKeepsAttempted(s: Sched, r: Request, maxRetries: int)
    requires Attempted(s, maxRetries) && Enabled(s, Submit(r))
    ensures
      var s' := s.(submitted := s.submitted + [r.id]);
      Attempted(s', maxRetries) && Waiting(s', r, maxRetries)
  {
    assert r.id !in s.attempts;
  }

  lemma SubmitKeepsPlaces(s: Sched, r: Request)
    requires OnePlace(s) && r.id !in s.submitted
    ensures
      var s' := s.(submitted := s.submitted + [r.id], queue := s.queue + [r.(ticket := s.counter + 1)]);
      OnePlace(s')
  {
    var s' := s.(submitted := s.submitted + [r.id], queue := s.queue + [r.(ticket := s.counter + 1)]);
    CountAppend(s.queue, r.(ticket := s.counter + 1));
    hide Count, Ends;
    assert forall id :: Places(s', id) == Places(s, id) + (if r.id == id then 1 else 0);
  }

  lemma SubmitKeeps(s: Sched, r: Request, maxRetries: int)
    requires Accounts(s, maxRetries) && Enabled(s, Submit(r))
    ensures Accounts(Apply(s, Submit(r), maxRetries), maxRetries)
  {
    SubmitKeepsAttempted(s, r, maxRetries);
    SubmitKeepsPlaces(s, r);
    var s1 := s.(submitted := s.submitted + [r.id]);
    EnqueueKeeps(s1, r, maxRetries);
    var s' := Apply(s, Submit(r), maxRetries);
    hide OnePlace, Successes, Attempted;
    SameLists(Enqueue(s1, r), s', maxRetries);
    SameLists(s.(submitted := s.submitted + [r.id], queue := s.queue + [r.(ticket := s.counter + 1)]), s', maxRetries);
  }

  lemma FinishCounts(s: Sched, id: RequestId, ok: bool)
    requires Counted(s) && id in s.running
    ensures Counted(Finished(s, id, ok))
  {
    AddEnd(s.done, Terminal(id, if ok then Succeeded else WorkersFailed));
    OneLess(s.running, id);
    hide Successes, Ends, ReleaseAll;
  }

  lemma FinishKeeps(s: Sched, id: RequestId, ok: bool, maxRetries: int)
    requires Accounts(s, maxRetries) && id in s.running
    ensures Accounts(Finished(s, id, ok), maxRetries)
  {
    var t := Terminal(id, if ok then Succeeded else WorkersFailed);
    var s1, s2 := s.(done := s.done + [t]), Finished(s, id, ok);
    hide Counted, OnePlace, ReleaseAll, Count, Ends;
    FinishCounts(s, id, ok);
    EndKeeps(s, t, maxRetries);
    assert Gains(s2, s1, id);
    BackToOneLess(s, s1, s2, id);
  }

  lemma OneLess(m: map<RequestId, Request>, id: RequestId)
    requires id in m
    ensures |m - {id}| == |m| - 1
  {
    assert m.Keys == (m - {id}).Keys + {id};
    assert |m| == |m.Keys| && |m - {id}| == |(m - {id}).Keys|;
  }

  lemma BackToOneLess(s: Sched, s1: Sched, s2: Sched, x: RequestId)
    requires OnePlace(s) && Gains(s, s1, x) && Gains(s2, s1, x) && s2.submitted == s.submitted
    ensures OnePlace(s2)
  {
    hide Places;
    forall id ensures Places(s2, id) == if id in s2.submitted then 1 else 0 {
      assert Places(s1, id) == Places(s, id) + (if id == x then 1 else 0);
    }
  }

  lemma EndedIsNotRunning(s: Sched, t: Terminal)
    requires OnePlace(s) && t in s.done
    ensures t.id !in s.running
  {
    EndsHas(s.done, t);
    assert Places(s, t.id) <= 1;
  }

  /** The second count for one request finds nothing left to forget. */
  lemma CloseKeeps(s: Sched, id: RequestId, maxRetries: int)
    requires Accounts(s, maxRetries) && Enabled(s, CloseRaises(id))
    ensures id !in s.running
    ensures Accounts(Apply(s, CloseRaises(id), maxRetries), maxRetries)
  {
    var t :| t in s.done && t.id == id;
    hide OnePlace, Attempted, Successes, ReleaseAll;
    EndedIsNotRunning(s, t);
    ForgetNothing(s, id);
    SameLists(s, Apply(s, CloseRaises(id), maxRetries), maxRetries) by {
      hide Counted;
    }
  }

  lemma StepKeepsAccounts(s: Sched, a: Action, maxRetries: int)
    requires Accounts(s, maxRetries) && Enabled(s, a)
    ensures Accounts(Apply(s, a, maxRetries), maxRetries)
  {
    hide Accounts, PopMany;
    match a
    case Submit(r) => SubmitKeeps(s, r, maxRetries);
    case StartBatch => PopKeeps(s, Min(|s.queue|, 10), maxRetries);
    case Attempt(choice) => AttemptKeeps(s, choice, maxRetries);
    case Finish(id, ok) => FinishKeeps(s, id, ok, maxRetries);
    case CloseRaises(id) => CloseKeeps(s, id, maxRetries);
    case Register(n, node) => NodesKeep(s, s.nodes[n := node], maxRetries);
    case Unregister(n) => NodesKeep(s, s.nodes - {n}, maxRetries);
  }

  lemma NodesKeep(s: Sched, nodes: map<NodeId, Node>, maxRetries: int)
    requires Accounts(s, maxRetries)
    ensures Accounts(s.(nodes := nodes), maxRetries)
  {
    hide Places, Attempted, Successes;
    SameLists(s, s.(nodes := nodes), maxRetries);
  }

  ghost predicate IsRun(ss: seq<Sched>, actions: seq<Action>, maxRetries: int) {
    && |ss| == |actions| + 1 && ss[0] == INITIAL
    && forall k :: 0 <= k < |actions| ==> Enabled(ss[k], actions[k]) && ss[k + 1] == Apply(ss[k], actions[k], maxRetries)
  }

  lemma {:induction false} RunKeepsAccounts(ss: seq<Sched>, actions: seq<Action>, maxRetries: int, k: nat)
    requires IsRun(ss, actions, maxRetries) && k < |ss|
    ensures Accounts(ss[k], maxRetries)
  {
    hide Apply, Enabled;
    if k > 0 {
      hide Accounts;
      RunKeepsAccounts(ss, actions, maxRetries, k - 1);
      assert Enabled(ss[k - 1], actions[k - 1]) && ss[k - 1 + 1] == Apply(ss[k - 1], actions[k - 1], maxRetries);
      StepKeepsAccounts(ss[k - 1], actions[k - 1], maxRetries);
    }
  }

  /** Conservation, exactly-once and the retry bound, in every state of every run with distinct ids. */
  lemma Conservation(ss: seq<Sched>, actions: seq<Action>, maxRetries: int, k: nat)
    requires IsRun(ss, actions, maxRetries) && k < |ss|
    ensures
      var s := ss[k];
      && s.total + s.closeErrors == s.successful + s.failed + s.pending + |s.running|
      && s.total == |s.submitted|
      && (s.batch == [] ==> s.pending == |s.queue|)
      && (s.total == s.successful + s.failed + s.pending + |s.running| <==> s.closeErrors == 0)
  {
    RunKeepsAccounts(ss, actions, maxRetries, k);
  }

  lemma StepKeepsTickets(s: Sched, a: Action, maxRetries: int)
    requires Ticketed(s) && Enabled(s, a)
    ensures Ticketed(Apply(s, a, maxRetries))
  {
    hide PopMany, ReleaseAll, ReservePairs, PerGpu, Fits;
    match a
    case StartBatch => PopKeepsTickets(s, Min(|s.queue|, 10));
    case _ =>
  }

  /** In every state of every run the queued requests have different tickets, in the order in which they
      were queued; so the tuples in the queue are never compared beyond them. */
  lemma {:induction false} TicketsDecide(ss: seq<Sched>, actions: seq<Action>, maxRetries: int, k: nat)
    requires IsRun(ss, actions, maxRetries) && k < |ss|
    ensures forall i, j :: 0 <= i < j < |ss[k].queue| ==> ss[k].queue[i].ticket < ss[k].queue[j].ticket
    ensures Ticketed(ss[k])
  {
    hide Apply, Enabled;
    if k > 0 {
      hide Ticketed;
      TicketsDecide(ss, actions, maxRetries, k - 1);
      assert Enabled(ss[k - 1], actions[k - 1]) && ss[k - 1 + 1] == Apply(ss[k - 1], actions[k - 1], maxRetries);
      StepKeepsTickets(ss[k - 1], actions[k - 1], maxRetries);
      Decides(ss[k]);
    }
  }

  lemma Decides(s: Sched)
    requires Ticketed(s)
    ensures forall i, j :: 0 <= i < j < |s.queue| ==> s.queue[i].ticket < s.queue[j].ticket
  {
  }

  lemma Extend(ss: seq<Sched>, actions: seq<Action>, a: Action, maxRetries: int)
    requires IsRun(ss, actions, maxRetries) && Enabled(ss[|actions|], a)
    ensures IsRun(ss + [Apply(ss[|actions|], a, maxRetries)], actions + [a], maxRetries)
  {
    hide Apply, Enabled;
  }

  /** One request in a fresh scheduler with one node, popped into a batch. */
  lemma OnePoppedRun(r: Request, n: NodeId, node: Node, maxRetries: int) returns (ss: seq<Sched>, actions: seq<Action>)
    requires r.retries == 0
    ensures IsRun(ss, actions, maxRetries)
    ensures ss[|actions|] == Sched([], [r.(ticket := 1)], map[], map[n := node], 1, 1, 0, 0, 1, [r.id], [], multiset{}, 0)
    ensures actions == [Submit(r), Register(n, node), StartBatch]
  {
    var q := r.(ticket := 1);
    hide IsRun;
    Start(maxRetries);
    var s1 := Sched([q], [], map[], map[], 1, 1, 0, 0, 1, [r.id], [], multiset{}, 0);
    assert Apply(INITIAL, Submit(r), maxRetries) == s1;
    Extend([INITIAL], [], Submit(r), maxRetries);
    ss, actions := [INITIAL] + [s1], [] + [Submit(r)];
    assert ss[|actions|] == s1;
    var s2 := s1.(nodes := map[n := node]);
    assert Apply(s1, Register(n, node), maxRetries) == s2;
    Extend(ss, actions, Register(n, node), maxRetries);
    ss, actions := ss + [s2], actions + [Register(n, node)];
    OnePopped(s2);
    assert n in s2.nodes;
    var s3 := s2.(queue := [], batch := [q]);
    assert Apply(s2, StartBatch, maxRetries) == s3;
    Extend(ss, actions, StartBatch, maxRetries);
    ss, actions := ss + [s3], actions + [StartBatch];
  }

  /** The same request dispatched on a plan that fits. */
  lemma OneDispatched(r: Request, n: NodeId, node: Node, plan: Plan, maxRetries: int) returns (ss: seq<Sched>, actions: seq<Action>)
    requires r.retries == 0 && Fits(map[n := node], plan, PerGpu(r))
    ensures IsRun(ss, actions, maxRetries)
    ensures ss[|actions|] ==
      Sched([], [], map[r.id := r.(ticket := 1)], ReservePairs(map[n := node], r.id, Pairs(plan), PerGpu(r)),
            1, 1, 0, 0, 0, [r.id], [], multiset{r.id}, 0)
    ensures actions == [Submit(r), Register(n, node), StartBatch, Attempt(Chooses(plan))]
  {
    ss, actions := OnePoppedRun(r, n, node, maxRetries);
    var s3 := ss[|actions|];
    assert PerGpu(r.(ticket := 1)) == PerGpu(r);
    hide IsRun, ReservePairs, ReleaseAll, PerGpu, Pairs, Fits;
    var s4 := AttemptOne(s3, Chooses(plan), maxRetries);
    Extend(ss, actions, Attempt(Chooses(plan)), maxRetries);
    ss, actions := ss + [s4], actions + [Attempt(Chooses(plan))];
  }

  lemma Start(maxRetries: int)
    ensures IsRun([INITIAL], [], maxRetries)
  {
  }

  /** What success and then an error from closing the client leave of a single running request. */
  lemma SucceedsThenCloses(s: Sched, id: RequestId, maxRetries: int) returns (s1: Sched, s2: Sched)
    requires id in s.running && |s.running| == 1 && s.total == 1 && s.successful == s.failed == s.pending == 0
    ensures s1 == Apply(s, Finish(id, true), maxRetries) && Enabled(s1, CloseRaises(id))
    ensures s2 == Apply(s1, CloseRaises(id), maxRetries)
    ensures s2.total == s2.successful == s2.failed == 1 && s2.pending == 0 && s2.running == map[]
  {
    hide ReleaseAll;
    OneLess(s.running, id);
    s1 := Finished(s, id, true);
    assert Terminal(id, Succeeded) in s1.done;
    assert |s1.running| == 0;
    s2 := Apply(s1, CloseRaises(id), maxRetries);
  }

  /** Counting one request twice does happen: it runs on one GPU, succeeds, and then closing the
      client raises. */
  lemma CountedTwice(r: Request, n: NodeId, g: GpuId, maxRetries: int) returns (ss: seq<Sched>, actions: seq<Action>)
    requires r.retries == 0
    ensures IsRun(ss, actions, maxRetries) && Attempt(Chooses([Assignment(n, [g])])) in actions
    ensures
      var s := ss[|actions|];
      s.total == s.successful == s.failed == 1 && s.pending == 0 && s.running == map[]
  {
    var node, plan := Tight([g], PerGpu(r)), [Assignment(n, [g])];
    TightFits(n, [g], PerGpu(r));
    hide IsRun, ReservePairs, Apply, PerGpu, Pairs, Fits, Enabled, Tight;
    ss, actions := OneDispatched(r, n, node, plan, maxRetries);
    var s := ss[|actions|];
    var s1, s2 := SucceedsThenCloses(s, r.id, maxRetries);
    assert Enabled(s, Finish(r.id, true)) by {
      MayFinish(s, r.id);
    }
    Extend(ss, actions, Finish(r.id, true), maxRetries);
    var ss1, actions1 := ss + [s1], actions + [Finish(r.id, true)];
    assert actions1[3] == Attempt(Chooses(plan));
    Extend(ss1, actions1, CloseRaises(r.id), maxRetries);
    ss, actions := ss1 + [s2], actions1 + [CloseRaises(r.id)];
  }

  lemma MayFinish(s: Sched, id: RequestId)
    requires id in s.running
    ensures Enabled(s, Finish(id, true))
  {
  }

  /** A plan for one node with just the room the check asks for. */
  lemma TightFits(n: NodeId, gs: seq<GpuId>, bytes: int)
    requires bytes > 0
    ensures Fits(map[n := Tight(gs, bytes)], [Assignment(n, gs)], bytes)
  {
  }

  lemma {:induction false} GpusOnAll(n: NodeId, gs: seq<GpuId>)
    ensures GpusOn(PairsOn(n, gs), n) == gs
  {
    if gs != [] {
      GpusOnAll(n, gs[..|gs| - 1]);
      assert PairsOn(n, gs)[..|gs| - 1] == PairsOn(n, gs[..|gs| - 1]);
    }
  }

  lemma OnePlan(n: NodeId, gs: seq<GpuId>)
    ensures GpusOn(Pairs([Assignment(n, gs)]), n) == gs
  {
    GpusOnAll(n, gs);
    var plan := [Assignment(n, gs)];
    assert plan[..0] == [];
    assert Pairs(plan) == PairsOn(n, gs);
  }

  /** Overselling does happen: a run of one request whose plan names a GPU twice, and which then holds
      twice the memory that the GPU has. */
  lemma OversoldByRepeat(r: Request, n: NodeId, g: GpuId, maxRetries: int) returns (ss: seq<Sched>, actions: seq<Action>)
    requires r.retries == 0
    ensures IsRun(ss, actions, maxRetries) && forall a <- actions :: Sound(a, false)
    ensures
      var s := ss[|actions|];
      && n in s.nodes && s.nodes[n].gpus == map[g := Gpu(PerGpu(r), 0)]
      && Promised(s.nodes[n].reservations, Shares(s.running), g) == 2 * PerGpu(r)
  {
    var gs, b := [g, g], PerGpu(r);
    var node, plan := Tight(gs, b), [Assignment(n, gs)];
    hide *;
    TightFits(n, gs, b);
    ss, actions := OneDispatched(r, n, node, plan, maxRetries);
    OversoldAfter(r, n, g);
    SoundStart(r, n, gs, b, plan);
  }

  lemma SoundStart(r: Request, n: NodeId, gs: seq<GpuId>, b: int, plan: Plan)
    ensures forall a <- [Submit(r), Register(n, Tight(gs, b)), StartBatch, Attempt(Chooses(plan))] :: Sound(a, false)
  {
  }

  lemma OversoldAfter(r: Request, n: NodeId, g: GpuId)
    ensures
      var nodes := ReservePairs(map[n := Tight([g, g], PerGpu(r))], r.id, Pairs([Assignment(n, [g, g])]), PerGpu(r));
      && n in nodes && nodes[n].gpus == map[g := Gpu(PerGpu(r), 0)]
      && Promised(nodes[n].reservations, Shares(map[r.id := r.(ticket := 1)]), g) == 2 * PerGpu(r)
  {
    assert Tight([g, g], PerGpu(r)).gpus == map[g := Gpu(PerGpu(r), 0)];
    assert Shares(map[r.id := r.(ticket := 1)]) == map[r.id := PerGpu(r)];
    OnePlan(n, [g, g]);
    TwiceIsOversold(g, r.id, PerGpu(r));
    hide Pairs, GpusOn, ReserveAll, Promised, PerGpu, Tight;
  }

  lemma OnePopped(s: Sched)
    requires |s.queue| == 1
    ensures PopMany(s, 1) == s.(queue := [], batch := s.batch + s.queue)
  {
    assert PopMany(s, 0) == s;
    assert s.queue == [s.queue[0]];
  }

  lemma ExactlyOnce(ss: seq<Sched>, actions: seq<Action>, maxRetries: int, k: nat, id: RequestId)
    requires IsRun(ss, actions, maxRetries) && k < |ss|
    ensures
      var s := ss[k];
      && Places(s, id) == (if id in s.submitted then 1 else 0)
      && Ends(s.done, id) <= 1
      && s.attempts[id] <= Max(1, maxRetries)
      && (Terminal(id, GaveUp) in s.done ==> s.attempts[id] == Max(1, maxRetries))
  {
    RunKeepsAccounts(ss, actions, maxRetries, k);
    assert Places(ss[k], id) <= 1;
  }

  // ---------------------------------------------------------------- the GPUs

  function Shares(running: map<RequestId, Request>): N.Shares {
    map id <- running :: PerGpu(running[id])
  }

  /** On every available node all reservations belong to running requests and, if all plans so far
      named each GPU once, no GPU is promised beyond its free memory. */
  ghost predicate Booked(s: Sched, careful: bool) {
    forall n <- s.nodes :: Valid(s.nodes[n], Shares(s.running), careful)
  }

  predicate NoRepeats(pairs: seq<(NodeId, GpuId)>) {
    forall i, j :: 0 <= i < j < |pairs| ==> pairs[i] != pairs[j]
  }

  /** A node arrives with nothing reserved and, in a careful run, a plan names no GPU twice. */
  predicate Sound(a: Action, careful: bool) {
    && (careful && a.Attempt? && a.choice.Chooses? ==> NoRepeats(Pairs(a.choice.plan)))
    && (a.Register? ==> a.node.reservations == [])
  }

  lemma {:induction false} GpusOnIs(pairs: seq<(NodeId, GpuId)>, n: NodeId)
    ensures forall g :: g in GpusOn(pairs, n) <==> (n, g) in pairs
    ensures NoRepeats(pairs) ==> N.Distinct(GpusOn(pairs, n))
  {
    if pairs != [] {
      var init, last := pairs[..|pairs| - 1], pairs[|pairs| - 1];
      assert pairs == init + [last];
      GpusOnIs(init, n);
      assert NoRepeats(pairs) ==> last !in init;
    }
  }

  lemma {:induction false} PairsFit(nodes: map<NodeId, Node>, plan: Plan, bytes: int, n: NodeId, g: GpuId)
    requires Fits(nodes, plan, bytes) && (n, g) in Pairs(plan)
    ensures n in nodes && Effective(nodes[n], g) >= bytes
  {
    var a, init := plan[|plan| - 1], plan[..|plan| - 1];
    assert plan == init + [a];
    if (n, g) in PairsOn(a.node, a.gpus) {
      assert g in a.gpus;
    } else {
      PairsFit(nodes, init, bytes, n, g);
    }
  }

  lemma DispatchKeepsBooked(s: Sched, r: Request, plan: Plan, careful: bool)
    requires Booked(s, careful) && r.id !in s.running && Fits(s.nodes, plan, PerGpu(r))
    requires careful ==> NoRepeats(Pairs(plan))
    ensures Booked(Dispatched(s, r, plan), careful)
  {
    var pairs, shares := Pairs(plan), Shares(s.running);
    assert Shares(s.running[r.id := r]) == shares[r.id := PerGpu(r)];
    hide Valid, Shares, Pairs, PerGpu, N.Distinct, Effective, ReserveAll, Fits, NoRepeats;
    forall n | n in s.nodes
      ensures Valid(ReserveAll(s.nodes[n], r.id, GpusOn(pairs, n), PerGpu(r)), shares[r.id := PerGpu(r)], careful)
    {
      GpusOnIs(pairs, n);
      forall g | g in GpusOn(pairs, n) ensures Effective(s.nodes[n], g) >= PerGpu(r) {
        PairsFit(s.nodes, plan, PerGpu(r), n, g);
      }
      SharesHave(s.running, r.id);
      ReserveKeepsValid(s.nodes[n], shares, r.id, GpusOn(pairs, n), PerGpu(r), careful);
    }
  }

  lemma SharesHave(running: map<RequestId, Request>, id: RequestId)
    ensures id in Shares(running) <==> id in running
  {
  }

  lemma ForgetKeepsBooked(s: Sched, id: RequestId, careful: bool)
    requires Booked(s, careful)
    ensures Booked(Forget(s, id), careful)
  {
    assert Shares(s.running - {id}) == Shares(s.running) - {id};
    hide Valid, Shares, Release;
    forall n | n in s.nodes ensures Valid(Release(s.nodes[n], id), Shares(s.running) - {id}, careful) {
      ReleaseKeepsValid(s.nodes[n], Shares(s.running), id, careful);
    }
  }

  lemma RetryKeepsBooked(s: Sched, r: Request, reported: bool, maxRetries: int, careful: bool)
    requires Booked(s, careful)
    ensures Booked(Retry(s, r, reported, maxRetries), careful)
  {
    hide Valid, Shares;
    if r.retries + 1 >= maxRetries && reported {
      var s' := s.(failed := s.failed + 1, pending := s.pending - 1, done := s.done + [Terminal(r.id, GaveUp)]);
      ForgetKeepsBooked(s', r.id, careful);
    }
  }

  lemma AttemptKeepsBooked(s: Sched, choice: Choice, maxRetries: int, careful: bool)
    requires Accounts(s, maxRetries) && s.batch != [] && Booked(s, careful) && Sound(Attempt(choice), careful)
    ensures Booked(AttemptOne(s, choice, maxRetries), careful)
  {
    var r, s' := s.batch[0], Taken(s);
    Alone(s);
    hide Valid, Shares, Retry, Dispatched, Fits, Accounts, Places;
    if choice == Raises {
      RetryKeepsBooked(s', r, false, maxRetries, careful);
    } else if choice.Chooses? && Fits(s.nodes, choice.plan, PerGpu(r)) {
      DispatchKeepsBooked(s', r, choice.plan, careful);
    } else {
      RetryKeepsBooked(s', r, true, maxRetries, careful);
    }
  }

  lemma {:induction false} PopKeepsNodes(s: Sched, k: nat)
    requires k <= |s.queue|
    ensures
      var t := PopMany(s, k);
      t.nodes == s.nodes && t.running == s.running && t.submitted == s.submitted
  {
    if k > 0 {
      PopKeepsNodes(s, k - 1);
    }
  }

  lemma StepKeepsBooked(s: Sched, a: Action, maxRetries: int, careful: bool)
    requires Accounts(s, maxRetries) && Booked(s, careful) && Enabled(s, a) && Sound(a, careful)
    ensures Booked(Apply(s, a, maxRetries), careful)
  {
    hide Accounts, Shares, PopMany, Forget;
    match a
    case Submit(_) =>
    case StartBatch => PopKeepsNodes(s, Min(|s.queue|, 10));
    case Attempt(choice) => AttemptKeepsBooked(s, choice, maxRetries, careful);
    case Finish(id, ok) =>
      ForgetKeepsBooked(s.(successful := s.successful + (if ok then 1 else 0), failed := s.failed + (if ok then 0 else 1),
                           done := s.done + [Terminal(id, if ok then Succeeded else WorkersFailed)]), id, careful);
    case CloseRaises(id) =>
      ForgetKeepsBooked(s.(failed := s.failed + 1, closeErrors := s.closeErrors + 1), id, careful);
    case Register(n, node) =>
    case Unregister(_) =>
  }

  lemma {:induction false} RunKeepsBooked(ss: seq<Sched>, actions: seq<Action>, maxRetries: int, k: nat, careful: bool)
    requires IsRun(ss, actions, maxRetries) && k < |ss| && forall a <- actions :: Sound(a, careful)
    ensures Booked(ss[k], careful)
  {
    hide Apply, Enabled, Accounts, Sound;
    if k > 0 {
      hide Booked;
      RunKeepsBooked(ss, actions, maxRetries, k - 1, careful);
      RunKeepsAccounts(ss, actions, maxRetries, k - 1);
      assert Enabled(ss[k - 1], actions[k - 1]) && ss[k - 1 + 1] == Apply(ss[k - 1], actions[k - 1], maxRetries);
      StepKeepsBooked(ss[k - 1], actions[k - 1], maxRetries, careful);
    }
  }

  /** In every state of every run nothing is reserved for a request that is not running; and if its
      plans name no GPU twice, nothing is oversold. */
  lemma NeverOversold(ss: seq<Sched>, actions: seq<Action>, maxRetries: int, k: nat, n: NodeId, careful: bool)
    requires IsRun(ss, actions, maxRetries) && k < |ss| && n in ss[k].nodes
    requires forall a <- actions :: Sound(a, careful)
    ensures
      var s, node := ss[k], ss[k].nodes[n];
      && (forall x <- node.reservations :: x.request in s.running)
      && (s.running == map[] ==> node.reservations == [])
      && (careful ==> forall g: GpuId <- node.gpus ::
            Promised(node.reservations, Shares(s.running), g) <= Max(0, node.gpus[g].total - node.gpus[g].used))
  {
    RunKeepsBooked(ss, actions, maxRetries, k, careful);
    var s, node := ss[k], ss[k].nodes[n];
    hide Promised, DistinctRequests;
    assert Valid(node, Shares(s.running), careful);
    forall x | x in node.reservations ensures x.request in s.running {
      assert Fair(x, Shares(s.running));
    }
    assert node.reservations != [] ==> node.reservations[0] in node.reservations;
  }

  /** Gang reservation is all or nothing: a plan that fits is booked GPU by GPU on every node, and
      one that does not, or any other refusal, leaves every reservation as it was. */
  lemma AllOrNothing(s: Sched, choice: Choice, maxRetries: int, n: NodeId)
    requires Accounts(s, maxRetries) && Booked(s, false) && s.batch != [] && n in s.nodes
    ensures
      var r, s' := s.batch[0], AttemptOne(s, choice, maxRetries);
      if choice.Chooses? && Fits(s.nodes, choice.plan, PerGpu(r)) then
        n in s'.nodes && s'.nodes[n] == WithNew(s.nodes[n], r.id, GpusOn(Pairs(choice.plan), n), PerGpu(r))
      else
        s'.nodes == s.nodes
  {
    var r := s.batch[0];
    Alone(s);
    hide Accounts, Places, Gains, Fits, PerGpu, Pairs, Shares, Promised, Reserve, AddTo, WithNew, Drop, BytesOf;
    forall m | m in s.nodes ensures !Has(s.nodes[m].reservations, r.id) {
      NotHeld(s.nodes[m], s.running, r.id);
    }
    hide Valid, Has, ReserveAll;
    if choice.Chooses? && Fits(s.nodes, choice.plan, PerGpu(r)) {
      ReserveAllIs(s.nodes[n], r.id, GpusOn(Pairs(choice.plan), n), PerGpu(r));
    } else {
      NothingToRelease(s.nodes, r.id);
    }
  }

  predicate DistinctNodes(plan: Plan) {
    forall i, j :: 0 <= i < j < |plan| ==> plan[i].node != plan[j].node
  }

  lemma {:induction false} GpusOnConcat(a: seq<(NodeId, GpuId)>, b: seq<(NodeId, GpuId)>, n: NodeId)
    ensures GpusOn(a + b, n) == GpusOn(a, n) + GpusOn(b, n)
  {
    if b == [] {
      assert a + b == a;
    } else {
      var init := b[..|b| - 1];
      assert (a + b)[..|a + b| - 1] == a + init;
      GpusOnConcat(a, init, n);
    }
  }

  lemma {:induction false} GpusElsewhere(m: NodeId, gs: seq<GpuId>, n: NodeId)
    requires m != n
    ensures GpusOn(PairsOn(m, gs), n) == []
  {
    if gs != [] {
      GpusElsewhere(m, gs[..|gs| - 1], n);
      assert PairsOn(m, gs)[..|gs| - 1] == PairsOn(m, gs[..|gs| - 1]);
    }
  }

  /** On each node the pairs of a plan name the GPUs that the plan names there. */
  lemma {:induction false} PlanOnNode(plan: Plan, n: NodeId)
    requires DistinctNodes(plan)
    ensures forall a <- plan :: a.node == n ==> GpusOn(Pairs(plan), n) == a.gpus
    ensures (forall a <- plan :: a.node != n) ==> GpusOn(Pairs(plan), n) == []
  {
    if plan != [] {
      var init, last := plan[..|plan| - 1], plan[|plan| - 1];
      assert plan == init + [last];
      PlanOnNode(init, n);
      GpusOnConcat(Pairs(init), PairsOn(last.node, last.gpus), n);
      hide Pairs, GpusOn;
      assert last in plan;
      if last.node == n {
        GpusOnAll(n, last.gpus);
      } else {
        GpusElsewhere(last.node, last.gpus, n);
      }
    }
  }

  /** What a dispatched plan leaves: on each of its nodes one more reservation, of that node's GPUs and as
      many shares as GPUs; on every other node nothing new. */
  lemma PlanIsBooked(s: Sched, plan: Plan, maxRetries: int)
    requires Accounts(s, maxRetries) && Booked(s, false) && s.batch != [] && DistinctNodes(plan)
    requires Fits(s.nodes, plan, PerGpu(s.batch[0]))
    ensures
      var r, s' := s.batch[0], AttemptOne(s, Chooses(plan), maxRetries);
      && s'.running == s.running[r.id := r] && s'.nodes.Keys == s.nodes.Keys
      && (forall a <- plan :: a.node in s.nodes && (a.gpus != [] ==>
            s'.nodes[a.node].reservations == s.nodes[a.node].reservations
              + [Reservation(r.id, set g | g in a.gpus, |a.gpus| * PerGpu(r), a.gpus)]))
      && (forall n <- s.nodes :: (forall a <- plan :: a.node != n) ==> s'.nodes[n] == s.nodes[n])
  {
    var r, s' := s.batch[0], AttemptOne(s, Chooses(plan), maxRetries);
    hide Accounts, Booked, PerGpu, Pairs, GpusOn, ReserveAll, DistinctNodes, Effective;
    forall n | n in s.nodes && (forall a <- plan :: a.node != n) ensures s'.nodes[n] == s.nodes[n] {
      AllOrNothing(s, Chooses(plan), maxRetries, n);
      PlanOnNode(plan, n);
      BookedNothing(s.nodes[n], r.id, PerGpu(r));
    }
    forall a | a in plan && a.gpus != []
      ensures s'.nodes[a.node].reservations == s.nodes[a.node].reservations
                + [Reservation(r.id, set g | g in a.gpus, |a.gpus| * PerGpu(r), a.gpus)]
    {
      AllOrNothing(s, Chooses(plan), maxRetries, a.node);
      PlanOnNode(plan, a.node);
      BookedOnce(s.nodes[a.node], r.id, a.gpus, PerGpu(r));
    }
  }

  lemma BookedNothing(n: Node, id: RequestId, bytes: int)
    ensures WithNew(n, id, [], bytes) == n
  {
    assert Times(0, bytes) == 0;
  }

  lemma BookedOnce(n: Node, id: RequestId, gs: seq<GpuId>, bytes: int)
    requires gs != []
    ensures WithNew(n, id, gs, bytes).reservations
      == n.reservations + [Reservation(id, set g | g in gs, |gs| * bytes, gs)]
  {
  }

  lemma NotHeld(n: Node, running: map<RequestId, Request>, id: RequestId)
    requires Valid(n, Shares(running), false) && id !in running
    ensures !Has(n.reservations, id)
  {
    hide Promised, DistinctRequests;
    forall x | x in n.reservations ensures x.request != id {
      assert Fair(x, Shares(running));
    }
  }

  lemma NothingToRelease(nodes: map<NodeId, Node>, id: RequestId)
    requires forall n <- nodes :: !Has(nodes[n].reservations, id)
    ensures ReleaseAll(nodes, id) == nodes
  {
  }

  // ---------------------------------------------------------------- draining

  function Left(maxRetries: int): Request -> nat {
    (r: Request) => Max(0, Limit(maxRetries) - r.retries)
  }

  /** Attempts that the waiting requests may still use. */
  function Measure(s: Sched, maxRetries: int): nat {
    Total(s.queue, Left(maxRetries)) + Total(s.batch, Left(maxRetries))
  }

  lemma MovedKeepsMeasure(s: Sched, i: nat, maxRetries: int)
    requires i < |s.queue|
    ensures Measure(Moved(s, i), maxRetries) == Measure(s, maxRetries)
  {
    hide Left, Total, Sorting.Without;
    TotalWithout(s.queue, i, Left(maxRetries));
    TotalAppend(s.batch, s.queue[i], Left(maxRetries));
  }

  lemma {:induction false} PopKeepsMeasure(s: Sched, k: nat, maxRetries: int)
    requires k <= |s.queue|
    ensures Measure(PopMany(s, k), maxRetries) == Measure(s, maxRetries)
  {
    hide Measure, Moved;
    if k > 0 {
      PopKeepsMeasure(s, k - 1, maxRetries);
      var t := PopMany(s, k - 1);
      MovedKeepsMeasure(t, LeastIndex(t.queue), maxRetries);
    }
  }

  /** What an attempt leaves waiting: the rest of the batch, and the queue with at most r added. */
  lemma AttemptWaits(s: Sched, choice: Choice, maxRetries: int)
    requires s.batch != []
    ensures
      var r, s' := s.batch[0], AttemptOne(s, choice, maxRetries);
      var again := r.(retries := r.retries + 1, ticket := s.counter + 1);
      s'.batch == s.batch[1..] && (s'.queue == s.queue || (again.retries < maxRetries && s'.queue == s.queue + [again]))
  {
    hide Fits, ReservePairs, ReleaseAll, PerGpu;
  }

  lemma NextMayTry(s: Sched, maxRetries: int)
    requires Accounts(s, maxRetries) && s.batch != []
    ensures 0 <= s.batch[0].retries < Limit(maxRetries)
  {
    hide OnePlace, Counted;
    assert s.batch[0] in s.batch && Waiting(s, s.batch[0], maxRetries);
  }

  /** Every attempt brings the measure down, whatever the strategy does. */
  lemma AttemptPays(s: Sched, choice: Choice, maxRetries: int)
    requires Accounts(s, maxRetries) && s.batch != []
    ensures Measure(AttemptOne(s, choice, maxRetries), maxRetries) < Measure(s, maxRetries)
  {
    hide Accounts, Total, AttemptOne, Left;
    var r, f, s' := s.batch[0], Left(maxRetries), AttemptOne(s, choice, maxRetries);
    var again := r.(retries := r.retries + 1, ticket := s.counter + 1);
    NextMayTry(s, maxRetries);
    LeftDrops(r, again.ticket, maxRetries);
    AttemptWaits(s, choice, maxRetries);
    TotalFirst(s.batch, f);
    TotalAppend(s.queue, again, f);
    assert s'.queue == s.queue || (again.retries < maxRetries && s'.queue == s.queue + [again]);
  }

  lemma LeftDrops(r: Request, ticket: nat, maxRetries: int)
    requires 0 <= r.retries < Limit(maxRetries)
    ensures Left(maxRetries)(r) >= 1
    ensures
      var again := r.(retries := r.retries + 1, ticket := ticket);
      again.retries < maxRetries ==> Left(maxRetries)(again) == Left(maxRetries)(r) - 1
  {
  }

  /** The scheduling loop with nothing else going on: batch after batch, each request attempted with
      whatever the strategy answers in that state. That this ends is the termination argument;
      it ends with nothing waiting. */
  ghost function Drain(s: Sched, strategy: Sched -> Choice, maxRetries: int): (t: Sched)
    requires Accounts(s, maxRetries) && s.nodes != map[]
    ensures t.queue == [] && t.batch == [] && t.pending == 0 && t.submitted == s.submitted
    ensures Accounts(t, maxRetries)
    decreases Measure(s, maxRetries), if s.batch == [] then 1 else 0
  {
    if s.batch != [] then
      AttemptPays(s, strategy(s), maxRetries);
      AttemptKeeps(s, strategy(s), maxRetries);
      AttemptSame(s, strategy(s), maxRetries);
      Drain(AttemptOne(s, strategy(s), maxRetries), strategy, maxRetries)
    else if s.queue != [] then
      PopKeepsMeasure(s, Min(|s.queue|, 10), maxRetries);
      PopKeeps(s, Min(|s.queue|, 10), maxRetries);
      PopKeepsNodes(s, Min(|s.queue|, 10));
      Drain(Apply(s, StartBatch, maxRetries), strategy, maxRetries)
    else s
  }

  lemma AttemptSame(s: Sched, choice: Choice, maxRetries: int)
    requires s.batch != []
    ensures
      var s' := AttemptOne(s, choice, maxRetries);
      s'.submitted == s.submitted && s'.nodes.Keys == s.nodes.Keys
  {
  }

  // ---------------------------------------------------------------- the object

  datatype Reply = Threw | Success | Failure

  /** Any worker succeeded. */
  predicate AnySuccess(replies: seq<Reply>) {
    Success in replies
  }

  lemma ReservePairsMore(nodes: map<NodeId, Node>, r: RequestId, pairs: seq<(NodeId, GpuId)>, k: nat, bytes: int)
    requires k < |pairs| && pairs[k].0 in nodes
    ensures
      var before, n := ReservePairs(nodes, r, pairs[..k], bytes), pairs[k].0;
      ReservePairs(nodes, r, pairs[..k + 1], bytes) == before[n := Reserve(before[n], r, pairs[k].1, bytes)]
  {
    var more, before, n := pairs[..k + 1], ReservePairs(nodes, r, pairs[..k], bytes), pairs[k].0;
    GpusOnMore(pairs, k, n);
    forall m | m in nodes && m != n ensures GpusOn(more, m) == GpusOn(pairs[..k], m) {
      GpusOnMore(pairs, k, m);
    }
    hide GpusOn, Reserve;
    var gs := GpusOn(pairs[..k], n);
    ReserveOneMore(nodes[n], r, gs, pairs[k].1, bytes);
    hide ReserveAll;
  }

  lemma GpusOnMore(pairs: seq<(NodeId, GpuId)>, k: nat, n: NodeId)
    requires k < |pairs|
    ensures GpusOn(pairs[..k + 1], n) == GpusOn(pairs[..k], n) + (if pairs[k].0 == n then [pairs[k].1] else [])
  {
    var more := pairs[..k + 1];
    assert more[..k] == pairs[..k] && more[k] == pairs[k];
  }

  lemma ReserveOneMore(n: Node, r: RequestId, gs: seq<GpuId>, g: GpuId, bytes: int)
    ensures ReserveAll(n, r, gs + [g], bytes) == Reserve(ReserveAll(n, r, gs, bytes), r, g, bytes)
  {
    assert (gs + [g])[..|gs|] == gs;
  }

  lemma PairsAppend(plan: Plan, k: nat)
    requires k < |plan|
    ensures Pairs(plan[..k + 1]) == Pairs(plan[..k]) + PairsOn(plan[k].node, plan[k].gpus)
  {
    assert plan[..k + 1][..k] == plan[..k];
  }

  lemma NoPairs()
    ensures Pairs([]) == []
  {
  }

  lemma MovedBatch(s: Sched, i: nat)
    requires i < |s.queue|
    ensures Moved(s, i).batch == s.batch + [s.queue[i]]
  {
  }

  /** quarantine, callbacks and the workers' endpoints are not part of this object. */
  class Scheduler {
    const maxRetries: int
    var queue: seq<Request>
    var running: map<RequestId, Request>
    var nodes: map<NodeId, Node>
    var counter: nat
    var total: int
    var successful: int
    var failed: int
    var pending: int
    ghost var batch: seq<Request>
    ghost var submitted: seq<RequestId>
    ghost var done: seq<Terminal>
    ghost var attempts: multiset<RequestId>
    ghost var closeErrors: nat

    ghost function Now(): Sched
      reads this
    {
      Sched(queue, batch, running, nodes, counter, total, successful, failed, pending, submitted, done, attempts, closeErrors)
    }

    constructor (maxRetries: int)
      ensures Now() == INITIAL && this.maxRetries == maxRetries
    {
      this.maxRetries := maxRetries;
      queue, running, nodes, counter := [], map[], map[], 0;
      total, successful, failed, pending := 0, 0, 0, 0;
      batch, submitted, done, attempts, closeErrors := [], [], [], multiset{}, 0;
    }

    method SubmitRequest(r: Request) returns (id: RequestId)
      modifies this
      ensures Now() == Submitted(old(Now()), r) && id == r.id
      ensures total == old(total) + 1 && pending == old(pending) + 1 && counter == old(counter) + 1
      ensures queue == old(queue) + [r.(ticket := old(counter) + 1)]
    {
      total := total + 1;
      pending := pending + 1;
      submitted := submitted + [r.id];
      Put(r);
      return r.id;
    }

    method Put(r: Request)
      modifies this
      ensures Now() == Enqueue(old(Now()), r)
    {
      counter := counter + 1;
      queue := queue + [r.(ticket := counter)];
    }

    method GetNowait() returns (r: Request)
      requires queue != []
      modifies this
      ensures Now() == Moved(old(Now()), LeastIndex(old(queue)))
      ensures r == old(queue)[LeastIndex(old(queue))]
    {
      var i := LeastIndex(queue);
      r := queue[i];
      queue := queue[..i] + queue[i + 1..];
      batch := batch + [r];
    }

    /** The first half of _process_batch. */
    method TakeBatch() returns (requests: seq<Request>)
      requires batch == []
      modifies this
      ensures Now() == PopMany(old(Now()), Min(|old(queue)|, 10)) && requests == batch
      ensures old(nodes) != map[] ==> Now() == Apply(old(Now()), StartBatch, maxRetries)
      ensures |requests| == (if |old(queue)| < 10 then |old(queue)| else 10)
      ensures multiset(requests) + multiset(queue) == multiset(old(queue))
      ensures forall b <- requests, r <- queue ::
        && b.priority <= r.priority
        && (b.priority == r.priority ==> b.createdAt <= r.createdAt)
        && (b.priority == r.priority && b.createdAt == r.createdAt ==> b.ticket <= r.ticket)
      ensures forall i, j :: 0 <= i < j < |requests| ==>
        && requests[i].priority <= requests[j].priority
        && (requests[i].priority == requests[j].priority ==> requests[i].createdAt <= requests[j].createdAt)
        && (requests[i].priority == requests[j].priority && requests[i].createdAt == requests[j].createdAt ==>
              requests[i].ticket <= requests[j].ticket)
    {
      hide Moved, KeyLe, BatchFirst;
      BatchIsLeast(Now(), Min(|queue|, 10));
      BatchOrder(Now(), Min(|queue|, 10));
      var size := if |queue| < 10 then |queue| else 10;
      requests := [];
      var k := 0;
      while k < size
        invariant 0 <= k <= size <= |old(queue)| && requests == batch
        invariant Now() == PopMany(old(Now()), k)
      {
        ghost var before := Now();
        var r := GetNowait();
        MovedBatch(before, LeastIndex(before.queue));
        requests := requests + [r];
        k := k + 1;
      }
    }

    method CheckNode(n: NodeId, gpus: seq<GpuId>, bytes: int) returns (ok: bool)
      requires n in nodes
      ensures ok <==> Checked(nodes[n], gpus, bytes)
    {
      hide Effective;
      for j := 0 to |gpus|
        invariant Checked(nodes[n], gpus[..j], bytes)
      {
        if Effective(nodes[n], gpus[j]) < bytes {
          return false;
        }
        assert gpus[..j + 1] == gpus[..j] + [gpus[j]];
      }
      assert gpus[..|gpus|] == gpus;
      return true;
    }

    /** First pass over the plan: check, and collect what to reserve. */
    method CheckPlan(plan: Plan, bytes: int) returns (ok: bool, found: seq<(NodeId, GpuId)>)
      ensures ok <==> Fits(nodes, plan, bytes)
      ensures ok ==> found == Pairs(plan)
    {
      hide Effective, Checked, Pairs;
      found := [];
      assert [] == Pairs(plan[..0]) by {
        NoPairs();
      }
      for i := 0 to |plan|
        invariant Fits(nodes, plan[..i], bytes) && found == Pairs(plan[..i])
      {
        var a := plan[i];
        if a.node !in nodes {
          return false, [];
        }
        var room := CheckNode(a.node, a.gpus, bytes);
        if !room {
          return false, [];
        }
        assert plan[..i + 1] == plan[..i] + [a];
        PairsAppend(plan, i);
        found := found + PairsOn(a.node, a.gpus);
      }
      assert plan[..|plan|] == plan;
      return true, found;
    }

    /** All or nothing. */
    method ReserveForRequest(r: Request, plan: Plan) returns (ok: bool)
      modifies this`nodes
      ensures ok == Fits(old(nodes), plan, PerGpu(r))
      ensures ok <==> forall a <- plan ::
        a.node in old(nodes) && forall g <- a.gpus :: Effective(old(nodes)[a.node], g) >= PerGpu(r)
      ensures nodes == if ok then ReservePairs(old(nodes), r.id, Pairs(plan), PerGpu(r)) else old(nodes)
    {
      var bytes := if r.parameters > 0 then r.estimate else r.configured;
      if bytes == 0 {
        bytes := r.estimate;
      }
      if bytes == 0 {
        bytes := FALLBACK_BYTES;
      }
      var pairs;
      ok, pairs := CheckPlan(plan, bytes);
      if ok {
        ReserveFound(r.id, pairs, bytes) by {
          forall p | p in pairs ensures p.0 in nodes {
            PairsFit(nodes, plan, bytes, p.0, p.1);
          }
        }
      }
    }

    /** Second pass. */
    method ReserveFound(r: RequestId, pairs: seq<(NodeId, GpuId)>, bytes: int)
      requires forall p <- pairs :: p.0 in nodes
      modifies this`nodes
      ensures nodes == ReservePairs(old(nodes), r, pairs, bytes)
    {
      ghost var start := nodes;
      var k := 0;
      assert nodes == ReservePairs(start, r, pairs[..0], bytes);
      while k < |pairs|
        invariant 0 <= k <= |pairs| && nodes == ReservePairs(start, r, pairs[..k], bytes)
      {
        var n := pairs[k].0;
        assert pairs[k] in pairs;
        ReservePairsMore(start, r, pairs, k, bytes);
        nodes := nodes[n := Reserve(nodes[n], r, pairs[k].1, bytes)];
        k := k + 1;
      }
      assert pairs[..k] == pairs;
    }

    method ReleaseForRequest(r: RequestId)
      modifies this`nodes
      ensures nodes == ReleaseAll(old(nodes), r)
      ensures nodes.Keys == old(nodes).Keys
      ensures forall n <- nodes :: DistinctRequests(old(nodes)[n].reservations) ==>
        forall x :: x in nodes[n].reservations <==> x in old(nodes)[n].reservations && x.request != r
    {
      ghost var start := nodes;
      ReleasedEverywhere(nodes, r);
      hide Release;
      var left := nodes.Keys;
      while left != {}
        invariant nodes.Keys == start.Keys && left <= nodes.Keys
        invariant forall n <- nodes :: nodes[n] == if n in left then start[n] else Release(start[n], r)
        decreases left
      {
        var n :| n in left;
        nodes := nodes[n := Release(nodes[n], r)];
        left := left - {n};
      }
    }

    method NotifyCompletion(id: RequestId)
      modifies this
      ensures Now() == Forget(old(Now()), id)
      ensures running == old(running) - {id} && nodes.Keys == old(nodes).Keys
      ensures forall n <- nodes :: DistinctRequests(old(nodes)[n].reservations) ==>
        forall x :: x in nodes[n].reservations <==> x in old(nodes)[n].reservations && x.request != id
    {
      ReleaseForRequest(id);
      running := running - {id};
    }

    /** Releases twice: here and in the notification. The second time there is nothing left. */
    method MarkFailure(id: RequestId)
      requires forall n <- nodes :: DistinctRequests(nodes[n].reservations)
      modifies this
      ensures Now() == Forget(old(Now()).(failed := old(failed) + 1), id)
      ensures failed == old(failed) + 1 && running == old(running) - {id} && pending == old(pending)
      ensures forall n <- nodes, x <- nodes[n].reservations :: x.request != id
    {
      failed := failed + 1;
      ReleaseForRequest(id);
      running := running - {id};
      ghost var once := nodes;
      NotifyCompletion(id);
      ReleaseTwice(old(nodes), id);
    }

    method HandleSchedulingFailure(r: Request)
      modifies this
      ensures Now() == Retry(old(Now()), r, true, maxRetries)
      ensures r.retries + 1 < maxRetries ==>
        && queue == old(queue) + [r.(retries := r.retries + 1, ticket := old(counter) + 1)]
        && (pending, failed, nodes, running) == old((pending, failed, nodes, running))
      ensures r.retries + 1 >= maxRetries ==>
        && queue == old(queue) && pending == old(pending) - 1 && failed == old(failed) + 1
        && running == old(running) - {r.id}
    {
      var again := r.(retries := r.retries + 1);
      if again.retries < maxRetries {
        Put(again);
      } else {
        failed := failed + 1;
        pending := pending - 1;
        done := done + [Terminal(r.id, GaveUp)];
        NotifyCompletion(r.id);
      }
    }

    /** The exception handler of _process_batch. */
    method HandleException(r: Request)
      modifies this
      ensures Now() == Retry(old(Now()), r, false, maxRetries)
      ensures r.retries + 1 < maxRetries ==>
        && queue == old(queue) + [r.(retries := r.retries + 1, ticket := old(counter) + 1)]
        && (pending, failed) == old((pending, failed))
      ensures r.retries + 1 >= maxRetries ==>
        queue == old(queue) && pending == old(pending) - 1 && failed == old(failed) + 1
      ensures nodes == old(nodes) && running == old(running)
    {
      var again := r.(retries := r.retries + 1);
      if again.retries < maxRetries {
        Put(again);
      } else {
        failed := failed + 1;
        pending := pending - 1;
        done := done + [Terminal(r.id, GaveUp)];
      }
    }

    method Dispatch(r: Request, plan: Plan)
      modifies this
      ensures Now() ==
        if Fits(old(nodes), plan, PerGpu(r)) then Dispatched(old(Now()), r, plan) else Retry(old(Now()), r, true, maxRetries)
      ensures Fits(old(nodes), plan, PerGpu(r)) ==>
        && running == old(running)[r.id := r] && pending == old(pending) - 1 && queue == old(queue)
        && (successful, failed) == old((successful, failed))
    {
      var reserved := ReserveForRequest(r, plan);
      if !reserved {
        HandleSchedulingFailure(r);
        return;
      }
      running := running[r.id := r];
      pending := pending - 1;
    }

    /** One turn of the loop in _process_batch. */
    method Process(r: Request, choice: Choice)
      requires batch != [] && r == batch[0]
      modifies this
      ensures Now() == AttemptOne(old(Now()), choice, maxRetries)
    {
      attempts := attempts + multiset{r.id};
      batch := batch[1..];
      match choice
      case Raises => HandleException(r);
      case Refuses => HandleSchedulingFailure(r);
      case Chooses(plan) => Dispatch(r, plan);
    }

    /** A whole batch, the strategy answering choices[i] to the i-th request. */
    method ProcessBatch(choices: seq<Choice>)
      requires batch == [] && |choices| == 10
      modifies this
      ensures
        var taken := PopMany(old(Now()), Min(|old(queue)|, 10));
        Now() == AttemptMany(taken, choices, |taken.batch|, maxRetries) && batch == []
    {
      hide AttemptOne, PopMany, Min;
      var requests := TakeBatch();
      ghost var taken := Now();
      var i := 0;
      while i < |requests|
        invariant 0 <= i <= |requests| && batch == requests[i..]
        invariant Now() == AttemptMany(taken, choices, i, maxRetries)
      {
        AttemptWaits(Now(), choices[i], maxRetries);
        Process(requests[i], choices[i]);
        i := i + 1;
      }
    }

    method HandleWorkerResults(id: RequestId, replies: seq<Reply>)
      requires id in running && forall n <- nodes :: DistinctRequests(nodes[n].reservations)
      modifies this
      ensures Now() == Finished(old(Now()), id, AnySuccess(replies))
      ensures
        var any := exists i :: 0 <= i < |replies| && replies[i] == Success;
        && successful == old(successful) + (if any then 1 else 0) && failed == old(failed) + (if any then 0 else 1)
        && running == old(running) - {id} && pending == old(pending)
      ensures forall n <- nodes, x <- nodes[n].reservations :: x.request != id
    {
      var any := false;
      var i := 0;
      while i < |replies|
        invariant 0 <= i <= |replies| && any == AnySuccess(replies[..i])
        invariant Now() == old(Now())
      {
        if replies[i].Success? {
          any := true;
        }
        assert replies[..i + 1] == replies[..i] + [replies[i]];
        i := i + 1;
      }
      assert replies[..i] == replies;
      done := done + [Terminal(id, if any then Succeeded else WorkersFailed)];
      if any {
        successful := successful + 1;
        NotifyCompletion(id);
      } else {
        MarkFailure(id);
      }
    }

    /** Closing the client raised: the handler around it marks the request failed once more. */
    method DispatchError(id: RequestId)
      requires Enabled(Now(), CloseRaises(id)) && forall n <- nodes :: DistinctRequests(nodes[n].reservations)
      modifies this
      ensures Now() == Apply(old(Now()), CloseRaises(id), maxRetries)
      ensures failed == old(failed) + 1 && (successful, pending, queue) == old((successful, pending, queue))
    {
      closeErrors := closeErrors + 1;
      MarkFailure(id);
    }

    method RegisterNode(n: NodeId, node: Node)
      modifies this`nodes
      ensures Now() == Apply(old(Now()), Register(n, node), maxRetries) && nodes == old(nodes)[n := node]
    {
      nodes := nodes[n := node];
    }

    method UnregisterNode(n: NodeId)
      modifies this`nodes
      ensures Now() == Apply(old(Now()), Unregister(n), maxRetries) && nodes == old(nodes) - {n}
    {
      if n in nodes {
        nodes := nodes - {n};
      }
    }
  }

  /** The first k requests of the batch attempted, with these answers. */
  ghost function AttemptMany(s: Sched, choices: seq<Choice>, k: nat, maxRetries: int): (t: Sched)
    requires k <= |s.batch| && k <= |choices|
    ensures t.batch == s.batch[k..]
  {
    if k == 0 then s
    else
      var t := AttemptMany(s, choices, k - 1, maxRetries);
      AttemptWaits(t, choices[k - 1], maxRetries);
      AttemptOne(t, choices[k - 1], maxRetries)
  }

  /** After a batch every request of it has been attempted exactly once, and none has been lost. */
  lemma {:induction false} BatchLosesNothing(s: Sched, choices: seq<Choice>, k: nat, maxRetries: int)
    requires Accounts(s, maxRetries) && k <= |s.batch| && k <= |choices|
    ensures
      var t := AttemptMany(s, choices, k, maxRetries);
      && Accounts(t, maxRetries) && t.submitted == s.submitted
      && forall id :: t.attempts[id] == s.attempts[id] + Count(s.batch[..k], id)
  {
    hide AttemptOne, Accounts, Count;
    if k == 0 {
      NothingCounted();
    } else {
      BatchLosesNothing(s, choices, k - 1, maxRetries);
      var before := AttemptMany(s, choices, k - 1, maxRetries);
      var t := AttemptMany(s, choices, k, maxRetries);
      assert t == AttemptOne(before, choices[k - 1], maxRetries);
      AttemptKeeps(before, choices[k - 1], maxRetries);
      AttemptSame(before, choices[k - 1], maxRetries);
      AttemptCounts(before, choices[k - 1], maxRetries);
      CountAppend(s.batch[..k - 1], s.batch[k - 1]);
      assert s.batch[..k] == s.batch[..k - 1] + [s.batch[k - 1]];
    }
  }

  lemma NothingCounted()
    ensures forall id :: Count([], id) == 0
  {
  }

  lemma AttemptCounts(s: Sched, choice: Choice, maxRetries: int)
    requires s.batch != []
    ensures AttemptOne(s, choice, maxRetries).attempts == s.attempts + multiset{s.batch[0].id}
  {
  }

  lemma ReleasedEverywhere(nodes: map<NodeId, Node>, id: RequestId)
    ensures ReleaseAll(nodes, id).Keys == nodes.Keys
    ensures forall n <- nodes :: DistinctRequests(nodes[n].reservations) ==>
      forall x :: x in ReleaseAll(nodes, id)[n].reservations <==> x in nodes[n].reservations && x.request != id
  {
    forall n | n in nodes && DistinctRequests(nodes[n].reservations)
      ensures forall x :: x in Release(nodes[n], id).reservations <==> x in nodes[n].reservations && x.request != id
    {
      DropIs(nodes[n].reservations, id);
    }
  }

  lemma ReleaseTwice(nodes: map<NodeId, Node>, id: RequestId)
    requires forall n <- nodes :: DistinctRequests(nodes[n].reservations)
    ensures ReleaseAll(ReleaseAll(nodes, id), id) == ReleaseAll(nodes, id)
  {
    forall n | n in nodes ensures Release(Release(nodes[n], id), id) == Release(nodes[n], id) {
      DropIs(nodes[n].reservations, id);
    }
  }
}
