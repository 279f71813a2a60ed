/** Merging requests into one batch and routing the results back (BatchAccumulator). */
module BatchFlush {
  import opened Sorting

  datatype Request = Request(id: string, priority: int, submitTime: real, prompt: string)

  datatype Failure = InferenceError(message: string) | IndexError(index: int, results: int)

  /** A future: set once, by a result or by an exception (a cancelled caller counts as set). */
  datatype Future<V> = Pending | Done(value: V) | Failed(error: Failure)

  /** What the inference function gives for a list of prompts. */
  datatype Outcome<V> = Results(values: seq<V>) | Raised(message: string)

  type Futures<V> = map<string, Future<V>>

  predicate ByPriority(a: Request, b: Request) {
    a.priority < b.priority || (a.priority == b.priority && a.submitTime <= b.submitTime)
  }

  predicate ByTime(a: Request, b: Request) {
    a.submitTime <= b.submitTime
  }

  ghost predicate DistinctIds(requests: seq<Request>) {
    forall i, j :: 0 <= i < j < |requests| ==> requests[i].id != requests[j].id
  }

  /** What the request at position i of the batch is told. */
  function Answer<V>(i: nat, outcome: Outcome<V>): Future<V> {
    match outcome
    case Raised(message) => Failed(InferenceError(message))
    case Results(values) =>
      if i < |values| then Done(values[i]) else Failed(IndexError(i, |values|))
  }

  /** Every pending future of the batch is set to the answer for its own position; nothing else changes. */
  ghost predicate Delivered<V>(was: Futures<V>, batch: seq<Request>, outcome: Outcome<V>, now: Futures<V>) {
    && now.Keys == was.Keys
    && (forall i: nat :: i < |batch| && batch[i].id in was ==>
          now[batch[i].id] == if was[batch[i].id].Pending? then Answer(i, outcome) else was[batch[i].id])
    && (forall id <- was :: (forall i :: 0 <= i < |batch| ==> batch[i].id != id) ==> now[id] == was[id])
  }

  class Accumulator<V(==)> {
    const enablePriority: bool
    var buffer: seq<Request>
    var futures: Futures<V>
    var totalBatches: nat
    var totalRequests: nat
    var highProcessed: nat
    var lowStarved: nat

    ghost predicate Valid()
      reads this
    {
      DistinctIds(buffer) && forall r <- buffer :: r.id in futures
    }

    constructor (enablePriority: bool)
      ensures Valid() && buffer == [] && futures == map[] && this.enablePriority == enablePriority
    {
      this.enablePriority := enablePriority;
      buffer, futures := [], map[];
      totalBatches, totalRequests, highProcessed, lowStarved := 0, 0, 0, 0;
    }

    /** submit up to the wait for the future; the id is freshly drawn. */
    method Submit(r: Request)
      requires Valid() && r.id !in futures
      modifies this`buffer, this`futures
      ensures Valid() && buffer == old(buffer) + [r] && futures == old(futures)[r.id := Pending]
    {
      buffer := buffer + [r];
      futures := futures[r.id := Pending];
    }

    /** The first half of _do_flush: swap the buffer out and sort what was in it. */
    method TakeBatch() returns (batch: seq<Request>)
      requires Valid()
      modifies this`buffer
      ensures Valid() && buffer == []
      ensures multiset(batch) == multiset(old(buffer)) && DistinctIds(batch)
      ensures if enablePriority then IsSorted(batch, ByPriority) else batch == old(buffer)
      ensures enablePriority ==> forall i, j :: 0 <= i < j < |batch| ==>
        && batch[i].priority <= batch[j].priority
        && (batch[i].priority == batch[j].priority ==> batch[i].submitTime <= batch[j].submitTime)
      ensures forall r <- batch :: r.id in futures
    {
      batch := buffer;
      buffer := [];
      if enablePriority {
        SortSorts(batch, ByPriority);
        KeepsDistinct(batch, Sort(batch, ByPriority));
        batch := Sort(batch, ByPriority);
        forall r | r in batch ensures r.id in futures {
          assert r in multiset(batch);
        }
      }
    }

    /** The second half of _do_flush, after the inference function has returned or raised. Other
        requests may have been submitted, and callers cancelled, in between. */
    method Deliver(batch: seq<Request>, outcome: Outcome<V>)
      requires Valid() && DistinctIds(batch) && forall r <- batch :: r.id in futures
      modifies this
      ensures Valid() && buffer == old(buffer)
      ensures Delivered(old(futures), batch, outcome, futures)
      ensures forall i: nat :: i < |batch| && old(futures)[batch[i].id].Pending? ==>
        && (outcome.Raised? ==> futures[batch[i].id] == Failed(InferenceError(outcome.message)))
        && (outcome.Results? && i < |outcome.values| ==> futures[batch[i].id] == Done(outcome.values[i]))
        && (outcome.Results? && i >= |outcome.values| ==> futures[batch[i].id] == Failed(IndexError(i, |outcome.values|)))
      ensures forall id <- futures :: !old(futures)[id].Pending? ==> futures[id] == old(futures)[id]
      ensures outcome.Results? ==>
        && highProcessed == old(highProcessed) + |set i: nat | i < |batch| && batch[i].priority < 5|
        && lowStarved == old(lowStarved) + |set i: nat | i < |batch| && batch[i].priority >= 7|
      ensures outcome.Results? ==> totalBatches == old(totalBatches) + 1 && totalRequests == old(totalRequests) + |batch|
      ensures outcome.Raised? ==> totalBatches == old(totalBatches) && totalRequests == old(totalRequests)
    {
      ghost var was := futures;
      match outcome
      case Raised(message) =>
        DeliverError(batch, message);
        SetExactlyOnce(was, batch, outcome, futures);
      case Results(values) =>
        CountPriorities(batch);
        HighAre(batch);
        LowAre(batch);
        DeliverResults(batch, values);
        totalBatches := totalBatches + 1;
        totalRequests := totalRequests + |batch|;
        SetExactlyOnce(was, batch, outcome, futures);
    }

    method DeliverError(batch: seq<Request>, message: string)
      requires DistinctIds(batch) && forall r <- batch :: r.id in futures
      modifies this`futures
      ensures Delivered(old(futures), batch, Raised(message), futures)
    {
      ghost var was := futures;
      hide DeliveredTo, Delivered, DistinctIds;
      NothingTold(was, batch, Raised(message));
      for i := 0 to |batch|
        invariant futures.Keys == was.Keys && DeliveredTo(was, batch, Raised(message), futures, batch[..i])
      {
        NextIsNew(batch, batch, i);
        ToldOneMore(was, batch, Raised(message), futures, batch[..i], i);
        SetOne(batch[i].id, Failed(InferenceError(message)));
        assert batch[..i + 1] == batch[..i] + [batch[i]];
      }
      assert batch[..|batch|] == batch;
      AllDelivered(was, batch, Raised(message), futures, batch);
    }

    /** Results are looked up by id, in order of submission. */
    method DeliverResults(batch: seq<Request>, values: seq<V>)
      requires DistinctIds(batch) && forall r <- batch :: r.id in futures
      modifies this`futures
      ensures Delivered(old(futures), batch, Results(values), futures)
    {
      ghost var was := futures;
      hide *;
      var byId := ResultsById(batch, values);
      TimeOrder(batch);
      var order := Sort(batch, ByTime);
      NothingTold(was, batch, Results(values));
      for k := 0 to |order|
        invariant futures.Keys == was.Keys && DeliveredTo(was, batch, Results(values), futures, order[..k])
      {
        NextIsNew(batch, order, k);
        var idx := IndexOf(batch, order[k]);
        ToldOneMore(was, batch, Results(values), futures, order[..k], idx);
        TellOne(batch, values, byId, idx);
        assert order[..k + 1] == order[..k] + [order[k]];
      }
      assert order[..|order|] == order;
      AllDelivered(was, batch, Results(values), futures, order);
    }

    method TellOne(batch: seq<Request>, values: seq<V>, byId: map<string, V>, idx: nat)
      requires idx < |batch| && batch[idx].id in futures && ByValue(batch, values, byId)
      modifies this`futures
      ensures
        var id := batch[idx].id;
        futures == old(futures)[id := if old(futures)[id].Pending? then Answer(idx, Results(values)) else old(futures)[id]]
    {
      var r := batch[idx];
      if r.id in byId {
        SetOne(r.id, Done(byId[r.id]));
      } else {
        // the source looks at the position once more; with distinct ids it is past the results
        assert idx >= |values|;
        SetOne(r.id, Failed(IndexError(idx, |values|)));
      }
    }

    /** Set a future that is not done. */
    method SetOne(id: string, f: Future<V>)
      requires id in futures && !f.Pending?
      modifies this`futures
      ensures futures == old(futures)[id := if old(futures)[id].Pending? then f else old(futures)[id]]
    {
      if futures[id].Pending? {
        futures := futures[id := f];
      }
    }

    method CountPriorities(batch: seq<Request>)
      modifies this`highProcessed, this`lowStarved
      ensures highProcessed == old(highProcessed) + CountHigh(batch)
      ensures lowStarved == old(lowStarved) + CountLow(batch)
    {
      for i := 0 to |batch|
        invariant highProcessed == old(highProcessed) + CountHigh(batch[..i])
        invariant lowStarved == old(lowStarved) + CountLow(batch[..i])
      {
        assert batch[..i + 1][..i] == batch[..i];
        if batch[i].priority < 5 {
          highProcessed := highProcessed + 1;
        } else if batch[i].priority >= 7 {
          lowStarved := lowStarved + 1;
        }
      }
      assert batch[..|batch|] == batch;
    }
  }

  function CountHigh(batch: seq<Request>): nat {
    if batch == [] then 0
    else CountHigh(batch[..|batch| - 1]) + (if batch[|batch| - 1].priority < 5 then 1 else 0)
  }

  function CountLow(batch: seq<Request>): nat {
    if batch == [] then 0
    else CountLow(batch[..|batch| - 1]) + (if batch[|batch| - 1].priority >= 7 then 1 else 0)
  }

  /** The two counts are numbers of positions. */
  lemma {:induction false} HighAre(batch: seq<Request>)
    ensures CountHigh(batch) == |set i: nat | i < |batch| && batch[i].priority < 5|
  {
    if batch != [] {
      var n: nat := |batch| - 1;
      var init := batch[..n];
      HighAre(init);
      var before := set i: nat | i < |init| && init[i].priority < 5;
      hide CountHigh;
      assert (set i: nat | i < |batch| && batch[i].priority < 5) == before + (if batch[n].priority < 5 then {n} else {});
    }
  }

  lemma {:induction false} LowAre(batch: seq<Request>)
    ensures CountLow(batch) == |set i: nat | i < |batch| && batch[i].priority >= 7|
  {
    if batch != [] {
      var n: nat := |batch| - 1;
      var init := batch[..n];
      LowAre(init);
      var before := set i: nat | i < |init| && init[i].priority >= 7;
      hide CountLow;
      assert (set i: nat | i < |batch| && batch[i].priority >= 7) == before + (if batch[n].priority >= 7 then {n} else {});
    }
  }

  method IndexOf(batch: seq<Request>, r: Request) returns (i: nat)
    requires r in batch
    ensures i < |batch| && batch[i] == r && r !in batch[..i]
  {
    i := 0;
    while batch[i] != r
      invariant i < |batch| && r !in batch[..i]
      invariant r in batch[i..]
      decreases |batch| - i
    {
      i := i + 1;
    }
  }

  /** Position i's result is found under position i's id, and nothing else is found. */
  ghost predicate ByValue<V>(batch: seq<Request>, values: seq<V>, byId: map<string, V>) {
    forall i: nat :: i < |batch| ==>
      if i < |values| then batch[i].id in byId && byId[batch[i].id] == values[i] else batch[i].id !in byId
  }

  lemma TimeOrder(batch: seq<Request>)
    requires DistinctIds(batch)
    ensures multiset(Sort(batch, ByTime)) == multiset(batch) && DistinctIds(Sort(batch, ByTime))
  {
    SortSorts(batch, ByTime);
    KeepsDistinct(batch, Sort(batch, ByTime));
  }

  /** The dictionary of results: position i's result under position i's id. */
  method ResultsById<V>(batch: seq<Request>, values: seq<V>) returns (byId: map<string, V>)
    requires DistinctIds(batch)
    ensures ByValue(batch, values, byId)
  {
    byId := map[];
    for i := 0 to |batch|
      invariant forall j: nat :: j < i && j < |values| ==> batch[j].id in byId && byId[batch[j].id] == values[j]
      invariant forall id <- byId :: exists j: nat :: j < i && j < |values| && batch[j].id == id
    {
      if i < |values| {
        byId := byId[batch[i].id := values[i]];
      }
    }
  }

  lemma KeepsDistinct(xs: seq<Request>, ys: seq<Request>)
    requires multiset(xs) == multiset(ys) && DistinctIds(xs)
    ensures DistinctIds(ys)
  {
    OnlyOnce(xs);
    forall i, j | 0 <= i < j < |ys| ensures ys[i].id != ys[j].id {
      assert ys[i] in multiset(xs) && ys[j] in multiset(xs);
      TwoPlaces(ys, i, j);
    }
  }

  lemma TwoPlaces(ys: seq<Request>, i: nat, j: nat)
    requires i < j < |ys|
    ensures ys[i] == ys[j] ==> multiset(ys)[ys[i]] >= 2
  {
    assert ys == ys[..i] + [ys[i]] + ys[i + 1..j] + [ys[j]] + ys[j + 1..];
  }

  lemma {:induction false} OnlyOnce(xs: seq<Request>)
    requires DistinctIds(xs)
    ensures forall r :: multiset(xs)[r] <= 1
  {
    if xs != [] {
      var last, init := xs[|xs| - 1], xs[..|xs| - 1];
      OnlyOnce(init);
      assert xs == init + [last];
      assert last !in init;
    }
  }

  /** The requests in told have been answered, the others have not. */
  ghost predicate DeliveredTo<V>(was: Futures<V>, batch: seq<Request>, outcome: Outcome<V>, now: Futures<V>, told: seq<Request>) {
    && (forall i: nat :: i < |batch| && batch[i] in told && batch[i].id in was && batch[i].id in now ==>
          now[batch[i].id] == if was[batch[i].id].Pending? then Answer(i, outcome) else was[batch[i].id])
    && (forall id <- was :: id in now && (forall r <- told :: r.id != id) ==> now[id] == was[id])
  }

  lemma NothingTold<V>(was: Futures<V>, batch: seq<Request>, outcome: Outcome<V>)
    ensures DeliveredTo(was, batch, outcome, was, [])
  {
  }

  lemma NextIsNew(batch: seq<Request>, order: seq<Request>, k: nat)
    requires multiset(batch) == multiset(order) && DistinctIds(order) && k < |order|
    ensures order[k] in batch && order[k] !in order[..k] && forall r <- order[..k] :: r in batch
  {
    assert order[k] in multiset(batch);
    forall r | r in order[..k] ensures r in batch && r != order[k] {
      assert r in multiset(order);
      assert r in multiset(batch);
    }
  }

  lemma ToldOneMore<V>(was: Futures<V>, batch: seq<Request>, outcome: Outcome<V>, now: Futures<V>, told: seq<Request>, k: nat)
    requires DeliveredTo(was, batch, outcome, now, told) && now.Keys == was.Keys
    requires k < |batch| && batch[k].id in was && DistinctIds(batch)
    requires batch[k] !in told && forall r <- told :: r in batch
    ensures now[batch[k].id] == was[batch[k].id]
    ensures
      var id := batch[k].id;
      DeliveredTo(was, batch, outcome, now[id := if was[id].Pending? then Answer(k, outcome) else was[id]], told + [batch[k]])
  {
    forall r | r in told ensures r.id != batch[k].id {
      var i :| 0 <= i < |batch| && batch[i] == r;
    }
  }

  lemma AllDelivered<V>(was: Futures<V>, batch: seq<Request>, outcome: Outcome<V>, now: Futures<V>, told: seq<Request>)
    requires DeliveredTo(was, batch, outcome, now, told) && now.Keys == was.Keys
    requires multiset(told) == multiset(batch)
    ensures Delivered(was, batch, outcome, now)
  {
    forall r ensures r in batch <==> r in told {
      assert r in multiset(told) <==> r in multiset(batch);
    }
  }

  // ---------------------------------------------------------------- what delivery means

  /** The outcome of an inference function that treats each prompt by itself. */
  ghost predicate PromptByPrompt<V>(f: string -> V, batch: seq<Request>, outcome: Outcome<V>) {
    outcome.Results? && |outcome.values| == |batch| && forall i :: 0 <= i < |batch| ==> outcome.values[i] == f(batch[i].prompt)
  }

  /** Every waiting request of the batch gets the result for its own prompt, wherever sorting put it;
      one that was set before keeps what it had. */
  lemma OwnResult<V>(f: string -> V, was: Futures<V>, batch: seq<Request>, outcome: Outcome<V>, now: Futures<V>, r: Request)
    requires Delivered(was, batch, outcome, now) && PromptByPrompt(f, batch, outcome)
    requires r in batch && r.id in was
    ensures now[r.id] == if was[r.id].Pending? then Done(f(r.prompt)) else was[r.id]
  {
    var i :| 0 <= i < |batch| && batch[i] == r;
    assert batch[i].id in was;
  }

  ghost predicate Asks(batch: seq<Request>, id: string, prompt: string) {
    exists r <- batch :: r.id == id && r.prompt == prompt
  }

  /** Priorities, submit times and order do not matter: two batches in which the same ids ask the same
      prompts end the same. */
  lemma OrderDoesNotMatter<V>(f: string -> V, was: Futures<V>, batch: seq<Request>, other: seq<Request>,
                              outcome: Outcome<V>, outcome': Outcome<V>, now: Futures<V>, now': Futures<V>)
    requires Delivered(was, batch, outcome, now) && PromptByPrompt(f, batch, outcome)
    requires Delivered(was, other, outcome', now') && PromptByPrompt(f, other, outcome')
    requires forall id, prompt :: Asks(batch, id, prompt) <==> Asks(other, id, prompt)
    ensures now == now'
  {
    forall id | id in was ensures now[id] == now'[id] {
      if r :| r in batch && r.id == id {
        assert Asks(batch, id, r.prompt) && Asks(other, id, r.prompt);
        var o :| o in other && o.id == id && o.prompt == r.prompt;
        OwnResult(f, was, batch, outcome, now, r);
        OwnResult(f, was, other, outcome', now', o);
      } else {
        forall j | 0 <= j < |other| ensures other[j].id != id {
          assert other[j] in other;
          assert Asks(other, other[j].id, other[j].prompt);
        }
        forall i | 0 <= i < |batch| ensures batch[i].id != id {
          assert batch[i] in batch;
        }
      }
    }
  }

  /** Every future of the batch ends set, whether results are short or inference raised; a future
      that was set before keeps what it had, so none is set twice. */
  lemma SetExactlyOnce<V>(was: Futures<V>, batch: seq<Request>, outcome: Outcome<V>, now: Futures<V>)
    requires Delivered(was, batch, outcome, now) && forall r <- batch :: r.id in was
    ensures forall r <- batch :: !now[r.id].Pending?
    ensures forall id <- was :: !was[id].Pending? ==> now[id] == was[id]
  {
    forall r | r in batch ensures !now[r.id].Pending? {
      var i :| 0 <= i < |batch| && batch[i] == r;
      assert batch[i].id in was;
    }
    forall id | id in was && !was[id].Pending? ensures now[id] == was[id] {
      if i :| 0 <= i < |batch| && batch[i].id == id {
        assert batch[i].id in was;
      }
    }
  }
}
