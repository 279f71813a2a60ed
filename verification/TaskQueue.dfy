/** One Redis queue and any number of task fetchers (RedisQueue and TaskFetcher).

    Redis keeps every key: no record expires while its request is under way. */
module TaskQueue {
  import opened Wrappers
  import opened Strings

  type Id = string
  type Worker = string

  /** The stored request. retries is the retry_count in its metadata. */
  datatype Job = Job(priority: int, created: real, retries: int)

  datatype Result = Success | MaxRetriesExceeded

  const PRIORITY_WEIGHT: real := 1000000000000.0

  function Score(j: Job): real {
    -(j.priority as real * PRIORITY_WEIGHT + j.created)
  }

  /** Order in the sorted set: by score, then by member. */
  predicate Before(a: Id, sa: real, b: Id, sb: real) {
    sa < sb || (sa == sb && StringLe(a, b))
  }

  /** With creation times in range, higher priority goes first, and within a priority the request
      created last. */
  lemma ScoreOrder(a: Job, b: Job)
    requires 0.0 <= a.created < PRIORITY_WEIGHT && 0.0 <= b.created < PRIORITY_WEIGHT
    ensures Score(a) < Score(b) <==> a.priority > b.priority || (a.priority == b.priority && a.created > b.created)
  {
    if a.priority > b.priority {
      assert a.priority as real >= b.priority as real + 1.0;
    } else if a.priority < b.priority {
      assert b.priority as real >= a.priority as real + 1.0;
    }
  }

  // ---------------------------------------------------------------- the system as a whole

  /** queue: the sorted set. store: the request records. running: who executes what.
      results: the stored results. submitted and runs are history: the ids in order of submission,
      and how often each was executed. */
  datatype System = System(
    queue: map<Id, real>,
    store: map<Id, Job>,
    running: map<Id, Worker>,
    results: map<Id, Result>,
    submitted: seq<Id>,
    runs: map<Id, nat>
  )

  datatype Action =
    | Submit(id: Id, priority: int, created: real)
    | Fetch(w: Worker, id: Id)
    | Succeed(id: Id)
    | Fail(id: Id)

  const EMPTY := System(map[], map[], map[], map[], [], map[])

  predicate IsLeast(queue: map<Id, real>, id: Id) {
    id in queue && forall o <- queue :: Before(id, queue[id], o, queue[o])
  }

  predicate Enabled(s: System, a: Action) {
    match a
    case Submit(id, _, _) => id !in s.store
    case Fetch(_, id) => IsLeast(s.queue, id)
    case Succeed(id) => id in s.running
    case Fail(id) => id in s.running
  }

  function RunsOf(s: System, id: Id): nat {
    if id in s.runs then s.runs[id] else 0
  }

  function Apply(s: System, a: Action, maxRetries: int): System {
    match a
    case Submit(id, priority, created) =>
      var j := Job(priority, created, 0);
      s.(queue := s.queue[id := Score(j)], store := s.store[id := j], submitted := s.submitted + [id],
         runs := s.runs[id := 0])
    case Fetch(w, id) =>
      s.(queue := s.queue - {id}, running := s.running[id := w], runs := s.runs[id := RunsOf(s, id) + 1])
    case Succeed(id) =>
      s.(running := s.running - {id}, results := s.results[id := Success])
    case Fail(id) =>
      if id !in s.store then s
      else
        var j := s.store[id];
        if j.retries < maxRetries then
          s.(running := s.running - {id}, store := s.store[id := j.(retries := j.retries + 1)],
             queue := s.queue[id := Score(j)])
        else
          s.(running := s.running - {id}, results := s.results[id := MaxRetriesExceeded])
  }

  /** How often a request may be executed. */
  function Budget(maxRetries: int): nat {
    Max(0, maxRetries) + 1
  }

  /** Where a submitted request is, and how often it has been executed there. */
  predicate Placed(s: System, id: Id, maxRetries: int) {
    && id in s.store && id in s.runs
    && var j := s.store[id];
    && 0 <= j.retries < Budget(maxRetries)
    && (if id in s.queue then
          id !in s.running && id !in s.results && s.runs[id] == j.retries && s.queue[id] == Score(j)
        else if id in s.running then id !in s.results && s.runs[id] == j.retries + 1
        else
          && id in s.results && s.runs[id] == j.retries + 1
          && (s.results[id] == MaxRetriesExceeded ==> s.runs[id] == Budget(maxRetries)))
  }

  predicate Distinct(ids: seq<Id>) {
    forall i, j :: 0 <= i < j < |ids| ==> ids[i] != ids[j]
  }

  ghost predicate Inv(s: System, maxRetries: int) {
    && Distinct(s.submitted)
    && (forall id <- s.submitted :: Placed(s, id, maxRetries))
    && OnlySubmitted(s)
  }

  /** Nothing anywhere that was not submitted. */
  ghost predicate OnlySubmitted(s: System) {
    && (forall id <- s.store :: id in s.submitted) && (forall id <- s.queue :: id in s.submitted)
    && (forall id <- s.running :: id in s.submitted) && (forall id <- s.results :: id in s.submitted)
  }

  lemma StillOnlySubmitted(s: System, a: Action, maxRetries: int)
    requires OnlySubmitted(s) && Enabled(s, a)
    ensures OnlySubmitted(Apply(s, a, maxRetries))
  {
  }

  /** The two maps agree about a key. */
  predicate Agree<V(==)>(a: map<Id, V>, b: map<Id, V>, id: Id) {
    (id in a <==> id in b) && (id in a && id in b ==> a[id] == b[id])
  }

  predicate SameAt(s: System, s': System, id: Id) {
    && Agree(s.queue, s'.queue, id) && Agree(s.store, s'.store, id) && Agree(s.running, s'.running, id)
    && Agree(s.results, s'.results, id) && Agree(s.runs, s'.runs, id)
  }

  /** A step touches only the request it names. */
  lemma OthersSame(s: System, a: Action, maxRetries: int, id: Id)
    requires id != a.id
    ensures SameAt(s, Apply(s, a, maxRetries), id)
  {
  }

  lemma OwnPlaced(s: System, a: Action, maxRetries: int)
    requires Enabled(s, a) && (a.Submit? ==> a.id !in s.running && a.id !in s.results)
    requires !a.Submit? ==> Placed(s, a.id, maxRetries)
    ensures Placed(Apply(s, a, maxRetries), a.id, maxRetries)
  {
  }

  lemma StepKeepsInv(s: System, a: Action, maxRetries: int)
    requires Inv(s, maxRetries) && Enabled(s, a)
    ensures Inv(Apply(s, a, maxRetries), maxRetries)
  {
    var s' := Apply(s, a, maxRetries);
    SubmittedIffKnown(s, a, maxRetries);
    OwnPlaced(s, a, maxRetries);
    StillOnlySubmitted(s, a, maxRetries);
    assert s'.submitted == if a.Submit? then s.submitted + [a.id] else s.submitted;
    hide Apply, Placed, OnlySubmitted, SameAt;
    forall id | id in s'.submitted ensures Placed(s', id, maxRetries) {
      if id != a.id {
        OthersSame(s, a, maxRetries, id);
        SamePlaced(s, s', id, maxRetries);
      }
    }
  }

  /** A submission is of a new id; every other step is of a submitted one. */
  lemma SubmittedIffKnown(s: System, a: Action, maxRetries: int)
    requires Inv(s, maxRetries) && Enabled(s, a)
    ensures a.Submit? <==> a.id !in s.submitted
    ensures !a.Submit? ==> Placed(s, a.id, maxRetries)
    ensures a.Submit? ==> a.id !in s.running && a.id !in s.results
  {
    if a.id in s.submitted {
      assert Placed(s, a.id, maxRetries);
    }
  }

  lemma SamePlaced(s: System, s': System, id: Id, maxRetries: int)
    requires Placed(s, id, maxRetries) && SameAt(s, s', id)
    ensures Placed(s', id, maxRetries)
  {
  }

  ghost predicate IsRun(ss: seq<System>, actions: seq<Action>, maxRetries: int) {
    && |ss| == |actions| + 1 && ss[0] == EMPTY
    && forall k :: 0 <= k < |actions| ==> Enabled(ss[k], actions[k]) && ss[k + 1] == Apply(ss[k], actions[k], maxRetries)
  }

  lemma {:induction false} RunKeepsInv(ss: seq<System>, actions: seq<Action>, maxRetries: int, k: nat)
    requires IsRun(ss, actions, maxRetries) && k < |ss|
    ensures Inv(ss[k], maxRetries)
  {
    if k > 0 {
      RunKeepsInv(ss, actions, maxRetries, k - 1);
      assert Enabled(ss[k - 1], actions[k - 1]) && ss[k - 1 + 1] == Apply(ss[k - 1], actions[k - 1], maxRetries);
      StepKeepsInv(ss[k - 1], actions[k - 1], maxRetries);
    }
  }

  /** In every state of every run each submitted request is queued, or executing at one worker, or
      finished with a stored result, and has been executed at most max_retries + 1 times. */
  lemma ExactlyOnePlace(ss: seq<System>, actions: seq<Action>, maxRetries: int, k: nat, id: Id)
    requires IsRun(ss, actions, maxRetries) && k < |ss| && id in ss[k].submitted
    ensures
      var s := ss[k];
      && (id in s.queue || id in s.running || id in s.results)
      && !(id in s.queue && id in s.running) && !(id in s.queue && id in s.results) && !(id in s.running && id in s.results)
      && id in s.runs && s.runs[id] <= Max(0, maxRetries) + 1
      && (id in s.results ==> s.runs[id] >= 1)
      && (id in s.results && s.results[id] == MaxRetriesExceeded ==> s.runs[id] == Max(0, maxRetries) + 1)
  {
    RunKeepsInv(ss, actions, maxRetries, k);
    assert Placed(ss[k], id, maxRetries);
  }

  /** Whoever fetches gets a request of the highest priority queued, and of those the one that was
      created last. */
  lemma FetchedInOrder(ss: seq<System>, actions: seq<Action>, maxRetries: int, k: nat, w: Worker, id: Id, o: Id)
    requires IsRun(ss, actions, maxRetries) && k < |actions| && actions[k] == Fetch(w, id) && o in ss[k].queue
    ensures id in ss[k].queue && id in ss[k].store && o in ss[k].store
    ensures
      var a, b := ss[k].store[id], ss[k].store[o];
      0.0 <= a.created < 1000000000000.0 && 0.0 <= b.created < 1000000000000.0 ==>
        a.priority >= b.priority && (a.priority == b.priority ==> a.created >= b.created)
  {
    var s := ss[k];
    RunKeepsInv(ss, actions, maxRetries, k);
    assert Enabled(s, actions[k]);
    assert Before(id, s.queue[id], o, s.queue[o]);
    assert Placed(s, id, maxRetries) && Placed(s, o, maxRetries);
    if 0.0 <= s.store[id].created < PRIORITY_WEIGHT && 0.0 <= s.store[o].created < PRIORITY_WEIGHT {
      ScoreOrder(s.store[o], s.store[id]);
    }
  }

  // ---------------------------------------------------------------- termination

  /** Executions a request may still need. */
  function Remaining(s: System, id: Id, maxRetries: int): int {
    if id in s.results || id !in s.store then 0 else Budget(maxRetries) - s.store[id].retries
  }

  function Measure(s: System, ids: seq<Id>, maxRetries: int): int {
    if ids == [] then 0
    else Measure(s, ids[..|ids| - 1], maxRetries) + Remaining(s, ids[|ids| - 1], maxRetries)
  }

  lemma {:induction false} MeasureSame(s: System, s': System, ids: seq<Id>, maxRetries: int)
    requires forall id <- ids :: Remaining(s', id, maxRetries) == Remaining(s, id, maxRetries)
    ensures Measure(s', ids, maxRetries) == Measure(s, ids, maxRetries)
  {
    if ids != [] {
      var last, init := ids[|ids| - 1], ids[..|ids| - 1];
      assert last in ids;
      MeasureSame(s, s', init, maxRetries);
    }
  }

  lemma {:induction false} MeasureDrops(s: System, s': System, ids: seq<Id>, x: Id, maxRetries: int)
    requires x in ids && forall i, j :: 0 <= i < j < |ids| ==> ids[i] != ids[j]
    requires forall id <- ids :: id != x ==> Remaining(s', id, maxRetries) == Remaining(s, id, maxRetries)
    ensures Measure(s', ids, maxRetries) - Measure(s, ids, maxRetries)
            == Remaining(s', x, maxRetries) - Remaining(s, x, maxRetries)
  {
    var last, init := ids[|ids| - 1], ids[..|ids| - 1];
    assert ids == init + [last];
    if last == x {
      assert x !in init;
      MeasureSame(s, s', init, maxRetries);
    } else {
      assert last in ids;
      MeasureDrops(s, s', init, x, maxRetries);
    }
  }

  /** Every end of an execution brings the measure down, a fetch leaves it alone, and it is zero
      exactly when everything submitted has a result. */
  lemma MeasureStep(s: System, a: Action, maxRetries: int)
    requires Inv(s, maxRetries) && Enabled(s, a) && !a.Submit?
    ensures
      var s' := Apply(s, a, maxRetries);
      && s'.submitted == s.submitted
      && (a.Fetch? ==> Measure(s', s.submitted, maxRetries) == Measure(s, s.submitted, maxRetries))
      && (!a.Fetch? ==> Measure(s', s.submitted, maxRetries) < Measure(s, s.submitted, maxRetries))
  {
    var s' := Apply(s, a, maxRetries);
    SubmittedIffKnown(s, a, maxRetries);
    OwnRemaining(s, a, maxRetries);
    forall id | id in s.submitted && id != a.id ensures Remaining(s', id, maxRetries) == Remaining(s, id, maxRetries) {
      OthersSame(s, a, maxRetries, id);
    }
    hide Apply, Remaining;
    if a.Fetch? {
      MeasureSame(s, s', s.submitted, maxRetries);
    } else {
      MeasureDrops(s, s', s.submitted, a.id, maxRetries);
    }
  }

  lemma OwnRemaining(s: System, a: Action, maxRetries: int)
    requires Enabled(s, a) && !a.Submit? && Placed(s, a.id, maxRetries)
    ensures
      var s' := Apply(s, a, maxRetries);
      && s'.submitted == s.submitted
      && (a.Fetch? ==> Remaining(s', a.id, maxRetries) == Remaining(s, a.id, maxRetries))
      && (!a.Fetch? ==> Remaining(s', a.id, maxRetries) < Remaining(s, a.id, maxRetries))
  {
  }

  lemma {:induction false} MeasureNonNegative(s: System, ids: seq<Id>, maxRetries: int)
    requires forall id <- ids :: Placed(s, id, maxRetries)
    ensures Measure(s, ids, maxRetries) >= 0
    ensures Measure(s, ids, maxRetries) == 0 <==> forall id <- ids :: id in s.results
  {
    if ids != [] {
      var last, init := ids[|ids| - 1], ids[..|ids| - 1];
      assert ids == init + [last];
      assert Placed(s, last, maxRetries);
      MeasureNonNegative(s, init, maxRetries);
    }
  }

  /** Ends of executions among the actions a to b. */
  function Ends(actions: seq<Action>, a: nat, b: nat): nat
    requires a <= b <= |actions|
  {
    if a == b then 0
    else Ends(actions, a, b - 1) + (if actions[b - 1].Succeed? || actions[b - 1].Fail? then 1 else 0)
  }

  /** Once nothing more is submitted, no more than Measure executions end. */
  lemma {:induction false} MeasurePays(ss: seq<System>, actions: seq<Action>, maxRetries: int, a: nat, b: nat)
    requires IsRun(ss, actions, maxRetries) && a <= b < |ss|
    requires forall k :: a <= k < b ==> !actions[k].Submit?
    ensures ss[b].submitted == ss[a].submitted
    ensures Ends(actions, a, b) <= Measure(ss[a], ss[a].submitted, maxRetries) - Measure(ss[b], ss[a].submitted, maxRetries)
    decreases b
  {
    hide Apply, Measure, Inv, Enabled;
    if a < b {
      MeasurePays(ss, actions, maxRetries, a, b - 1);
      RunKeepsInv(ss, actions, maxRetries, b - 1);
      assert Enabled(ss[b - 1], actions[b - 1]) && ss[b - 1 + 1] == Apply(ss[b - 1], actions[b - 1], maxRetries);
      MeasureStep(ss[b - 1], actions[b - 1], maxRetries);
    }
  }

  /** When that many have ended, everything submitted has its result. */
  lemma Terminates(ss: seq<System>, actions: seq<Action>, maxRetries: int, a: nat, b: nat)
    requires IsRun(ss, actions, maxRetries) && a <= b < |ss|
    requires forall k :: a <= k < b ==> !actions[k].Submit?
    ensures Ends(actions, a, b) <= Measure(ss[a], ss[a].submitted, maxRetries)
    ensures Ends(actions, a, b) == Measure(ss[a], ss[a].submitted, maxRetries) ==>
      forall id <- ss[b].submitted :: id in ss[b].results
  {
    MeasurePays(ss, actions, maxRetries, a, b);
    RunKeepsInv(ss, actions, maxRetries, b);
    MeasureNonNegative(ss[b], ss[b].submitted, maxRetries);
  }

  lemma {:induction false} LeastExists(queue: map<Id, real>, ids: set<Id>) returns (least: Id)
    requires ids != {} && ids <= queue.Keys
    ensures least in ids && forall o <- ids :: Before(least, queue[least], o, queue[o])
    decreases |ids|
  {
    var x :| x in ids;
    var rest := ids - {x};
    StringTotal(x, x);
    if rest == {} {
      assert ids == {x};
      least := x;
    } else {
      least := LeastExists(queue, rest);
      StringTotal(x, least);
      if !Before(least, queue[least], x, queue[x]) {
        forall o | o in ids ensures Before(x, queue[x], o, queue[o]) {
          if o != x {
            BeforeTransitive(x, queue[x], least, queue[least], o, queue[o]);
          }
        }
        least := x;
      }
    }
  }

  predicate AllDone(s: System) {
    forall id <- s.submitted :: id in s.results
  }

  /** Work can always go on: while some submitted request has no result, an execution can end or
      any worker can fetch. */
  lemma CanGoOn(s: System, maxRetries: int, w: Worker) returns (a: Action)
    requires Inv(s, maxRetries) && !AllDone(s)
    ensures Enabled(s, a) && (a.Succeed? || a.Fail? || (a.Fetch? && a.w == w))
  {
    var id :| id in s.submitted && id !in s.results;
    assert Placed(s, id, maxRetries);
    if id in s.running {
      a := Succeed(id);
    } else {
      var least := LeastExists(s.queue, s.queue.Keys);
      a := Fetch(w, least);
    }
  }

  /** Whatever the workers and handlers do, they do something while work is left, and submit nothing. */
  ghost predicate KeepsWorking(next: System -> Action, maxRetries: int) {
    forall s :: Inv(s, maxRetries) && !AllDone(s) ==> Enabled(s, next(s)) && !next(s).Submit?
  }

  lemma FetchShrinks(s: System, w: Worker, id: Id, maxRetries: int)
    requires Enabled(s, Fetch(w, id))
    ensures |Apply(s, Fetch(w, id), maxRetries).queue| < |s.queue|
  {
    var queue' := s.queue - {id};
    assert s.queue.Keys == queue'.Keys + {id};
    assert |s.queue| == |s.queue.Keys| && |queue'| == |queue'.Keys|;
  }

  /** A step of such work: fewer executions remain, or as many and one less is queued. */
  lemma WorkStep(s: System, a: Action, maxRetries: int)
    requires Inv(s, maxRetries) && Enabled(s, a) && !a.Submit?
    ensures
      var t := Apply(s, a, maxRetries);
      && Inv(t, maxRetries) && t.submitted == s.submitted
      && 0 <= Measure(t, t.submitted, maxRetries) <= Measure(s, s.submitted, maxRetries)
      && (Measure(t, t.submitted, maxRetries) == Measure(s, s.submitted, maxRetries) ==> |t.queue| < |s.queue|)
  {
    MeasureStep(s, a, maxRetries);
    StepKeepsInv(s, a, maxRetries);
    var t := Apply(s, a, maxRetries);
    MeasureNonNegative(t, t.submitted, maxRetries);
    if a.Fetch? {
      FetchShrinks(s, a.w, a.id, maxRetries);
    }
  }

  lemma NextStep(s: System, next: System -> Action, maxRetries: int)
    requires Inv(s, maxRetries) && KeepsWorking(next, maxRetries) && !AllDone(s)
    ensures Enabled(s, next(s)) && !next(s).Submit?
  {
  }

  /** Then it comes to an end, and at the end everything submitted has its result. */
  ghost function Work(s: System, next: System -> Action, maxRetries: int): (t: System)
    requires Inv(s, maxRetries) && KeepsWorking(next, maxRetries)
    ensures Inv(t, maxRetries) && t.submitted == s.submitted && AllDone(t)
    decreases Max(0, Measure(s, s.submitted, maxRetries)), |s.queue|
  {
    if AllDone(s) then s
    else
      hide Apply, Inv, Measure, KeepsWorking, AllDone;
      NextStep(s, next, maxRetries);
      WorkStep(s, next(s), maxRetries);
      Work(Apply(s, next(s), maxRetries), next, maxRetries)
  }

  // ---------------------------------------------------------------- the objects

  class RedisQueue {
    const maxRetries: int
    var queue: map<Id, real>
    var store: map<Id, Job>
    var results: map<Id, Result>

    constructor (maxRetries: int)
      ensures queue == map[] && store == map[] && results == map[] && this.maxRetries == maxRetries
    {
      this.maxRetries := maxRetries;
      queue, store, results := map[], map[], map[];
    }

    method Enqueue(id: Id, j: Job)
      modifies this`queue, this`store
      ensures store == old(store)[id := j] && queue == old(queue)[id := Score(j)]
      ensures queue[id] == -(j.priority as real * 1000000000000.0 + j.created)
    {
      store := store[id := j];
      queue := queue[id := -(j.priority as real * PRIORITY_WEIGHT + j.created)];
    }

    /** ZPOPMIN, then the record of the popped request. */
    method Dequeue() returns (r: Option<(Id, Job)>)
      requires forall id <- queue :: id in store
      modifies this`queue
      ensures old(queue) == map[] ==> r == None && queue == old(queue)
      ensures old(queue) != map[] ==>
        && r.Some? && IsLeast(old(queue), r.value.0) && r.value.1 == store[r.value.0]
        && queue == old(queue) - {r.value.0}
        && forall o <- old(queue) ::
             && old(queue)[r.value.0] <= old(queue)[o]
             && (old(queue)[r.value.0] == old(queue)[o] ==> StringLe(r.value.0, o))
    {
      if queue == map[] {
        return None;
      }
      var id := LeastMember();
      queue := queue - {id};
      return Some((id, store[id]));
    }

    method LeastMember() returns (least: Id)
      requires queue != map[]
      ensures IsLeast(queue, least)
    {
      assert queue.Keys != {};
      least :| least in queue;
      StringTotal(least, least);
      var left := queue.Keys - {least};
      while left != {}
        invariant least in queue && least !in left && left <= queue.Keys
        invariant forall o <- queue :: o in left || Before(least, queue[least], o, queue[o])
        decreases left
      {
        var o :| o in left;
        StringTotal(least, o);
        StringTotal(o, o);
        if !Before(least, queue[least], o, queue[o]) {
          forall p | p in queue && p !in left ensures Before(o, queue[o], p, queue[p]) {
            BeforeTransitive(o, queue[o], least, queue[least], p, queue[p]);
          }
          least := o;
        }
        left := left - {o};
      }
    }

    method Requeue(id: Id, j: Job, increment: bool) returns (ok: bool)
      modifies this`queue, this`store
      ensures ok == (!increment || j.retries + 1 <= maxRetries)
      ensures ok ==>
        var j' := if increment then j.(retries := j.retries + 1) else j;
        store == old(store)[id := j'] && queue == old(queue)[id := Score(j')]
      ensures !ok ==> store == old(store) && queue == old(queue)
    {
      var j' := j;
      if increment {
        j' := j'.(retries := j.retries + 1);
        if j'.retries > maxRetries {
          return false;
        }
      }
      Enqueue(id, j');
      return true;
    }

    method StoreResult(id: Id, r: Result)
      modifies this`results
      ensures results == old(results)[id := r]
    {
      results := results[id := r];
    }
  }

  lemma BeforeTransitive(a: Id, sa: real, b: Id, sb: real, c: Id, sc: real)
    requires Before(a, sa, b, sb) && Before(b, sb, c, sc)
    ensures Before(a, sa, c, sc)
  {
    if sa == sb == sc {
      StringTransitive(a, b, c);
    }
  }

  class TaskFetcher {
    const worker: Worker
    const maxRetries: int
    const slots: int
    const redis: RedisQueue
    var active: map<Id, Job>
    var pulled: nat
    var completed: nat
    var failed: nat
    var retried: nat

    constructor (worker: Worker, maxRetries: int, slots: int, redis: RedisQueue)
      ensures active == map[] && this.maxRetries == maxRetries && this.redis == redis
    {
      this.worker, this.maxRetries, this.slots, this.redis := worker, maxRetries, slots, redis;
      active, pulled, completed, failed, retried := map[], 0, 0, 0, 0;
    }

    /** One turn of the fetch loop: nothing when every slot is taken or the queue is empty. */
    method FetchOne() returns (id: Option<Id>)
      requires forall i <- redis.queue :: i in redis.store
      modifies this`active, this`pulled, redis`queue
      ensures id.Some? <==> |old(active)| < slots && old(redis.queue) != map[]
      ensures id.None? ==> active == old(active) && redis.queue == old(redis.queue)
      ensures id.Some? ==>
        && IsLeast(old(redis.queue), id.value) && redis.queue == old(redis.queue) - {id.value}
        && active == old(active)[id.value := redis.store[id.value]] && pulled == old(pulled) + 1
        && forall o <- old(redis.queue) ::
             && old(redis.queue)[id.value] <= old(redis.queue)[o]
             && (old(redis.queue)[id.value] == old(redis.queue)[o] ==> StringLe(id.value, o))
    {
      if |active| >= slots {
        return None;
      }
      var r := redis.Dequeue();
      if r.None? {
        return None;
      }
      pulled := pulled + 1;
      active := active[r.value.0 := r.value.1];
      return Some(r.value.0);
    }

    /** The end of _execute_task: a handler that raises counts as one that returned false. */
    method FinishTask(id: Id, success: bool, ghost s: System) returns (ghost s': System)
      requires id in active && id in s.store && active[id] == s.store[id]
      requires Enabled(s, if success then Succeed(id) else Fail(id))
      requires s.queue == redis.queue && s.store == redis.store && s.results == redis.results
      modifies this, redis
      ensures s' == Apply(s, if success then Succeed(id) else Fail(id), maxRetries)
      ensures s'.queue == redis.queue && s'.store == redis.store && s'.results == redis.results
      ensures success ==>
        redis.results == old(redis.results)[id := Success] && redis.queue == old(redis.queue) && redis.store == old(redis.store)
      ensures !success && old(active)[id].retries < maxRetries ==>
        var again := old(active)[id].(retries := old(active)[id].retries + 1);
        && redis.store == old(redis.store)[id := again] && redis.queue.Keys == old(redis.queue).Keys + {id}
        && redis.results == old(redis.results)
      ensures !success && old(active)[id].retries >= maxRetries ==>
        && redis.results == old(redis.results)[id := MaxRetriesExceeded]
        && redis.queue == old(redis.queue) && redis.store == old(redis.store)
      ensures active == old(active) - {id}
      ensures completed == old(completed) + (if success then 1 else 0)
      ensures failed == old(failed) + (if success then 0 else 1)
    {
      s' := Apply(s, if success then Succeed(id) else Fail(id), maxRetries);
      var j := active[id];
      if success {
        completed := completed + 1;
        redis.StoreResult(id, Success);
      } else {
        failed := failed + 1;
        RetryTask(id, j);
      }
      active := active - {id};
    }

    method RetryTask(id: Id, j: Job)
      modifies this`retried, redis
      ensures j.retries < maxRetries ==>
        var j' := j.(retries := j.retries + 1);
        && redis.store == old(redis.store)[id := j'] && redis.queue == old(redis.queue)[id := Score(j')]
        && redis.results == old(redis.results) && retried == old(retried) + 1
      ensures j.retries >= maxRetries ==>
        && redis.store == old(redis.store) && redis.queue == old(redis.queue)
        && redis.results == old(redis.results)[id := MaxRetriesExceeded] && retried == old(retried)
    {
      if j.retries < maxRetries {
        var _ := redis.Requeue(id, j.(retries := j.retries + 1), false);
        retried := retried + 1;
      } else {
        redis.StoreResult(id, MaxRetriesExceeded);
      }
    }
  }
}
