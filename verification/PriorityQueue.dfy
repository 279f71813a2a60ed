/** The request queue with anti-starvation: a heap of (priority, submit time, request id) keys. */
module PriorityQueue {
  import opened BinaryHeap
  import opened Orders
  import opened Strings

  datatype Request = Request(id: string, priority: int, submitTime: real, prompt: string)

  /** The tuple stored in the heap. Its priority may override the request's own. */
  datatype Entry = Entry(priority: int, time: real, id: string, request: Request)

  /** Tuple comparison; ids are unique, so the request itself is never compared. */
  predicate EntryLe(a: Entry, b: Entry) {
    a.priority < b.priority ||
    (a.priority == b.priority && (a.time < b.time || (a.time == b.time && StringLe(a.id, b.id))))
  }

  lemma EntriesOrdered()
    ensures TotalPreorder(EntryLe)
  {
    forall a, b ensures EntryLe(a, b) || EntryLe(b, a) {
      StringTotal(a.id, b.id);
    }
    forall a, b, c | EntryLe(a, b) && EntryLe(b, c) ensures EntryLe(a, c) {
      if a.priority == b.priority == c.priority && a.time == b.time == c.time {
        StringTransitive(a.id, b.id, c.id);
      }
    }
  }

  predicate TimedOut(e: Entry, now: real, timeout: real) {
    now - e.request.submitTime > timeout
  }

  ghost predicate Least(contents: multiset<Entry>, e: Entry) {
    forall f <- contents :: EntryLe(e, f)
  }

  /** When get takes the least entry: high priority work is queued, or the counter has reached the
      threshold, or nothing has waited too long, or the least entry itself has. */
  ghost predicate TakesLeast(contents: multiset<Entry>, now: real, timeout: real, threshold: int, processed: int) {
    || (exists f <- contents :: f.priority < 5)
    || processed >= threshold
    || (forall f <- contents :: !TimedOut(f, now, timeout))
    || (exists f <- contents :: Least(contents, f) && TimedOut(f, now, timeout))
  }

  /** What get may take. */
  ghost predicate Takes(contents: multiset<Entry>, now: real, timeout: real, threshold: int, processed: int, e: Entry) {
    && e in contents
    && (if TakesLeast(contents, now, timeout, threshold, processed) then Least(contents, e)
        else TimedOut(e, now, timeout))
  }

  /** Which index get takes: past the root only if no high priority work is queued, the counter is below
      the threshold, and some entry has timed out but not the root; and then the first that has. */
  predicate Picks(heap: seq<Entry>, now: real, timeout: real, threshold: int, processed: int, k: nat)
    requires k < |heap|
  {
    && (k != 0 <==>
          && heap[0].priority >= 5 && processed < threshold
          && !TimedOut(heap[0], now, timeout) && exists f <- heap :: TimedOut(f, now, timeout))
    && (k != 0 ==> TimedOut(heap[k], now, timeout) && forall j :: 0 <= j < k ==> !TimedOut(heap[j], now, timeout))
  }

  function CountAfter(processed: int, priority: int): int {
    if priority < 5 then processed + 1
    else if priority >= 7 then 0
    else processed
  }

  class RequestQueue {
    const threshold: int
    const timeout: real
    var heap: seq<Entry>
    var totalPut: nat
    var totalGet: nat
    var processed: int
    var starved: nat
    /** Everything ever put, everything ever taken or removed, and the gets so far. */
    ghost var arrived: multiset<Entry>
    ghost var departed: multiset<Entry>
    ghost var turns: seq<Turn>

    ghost predicate Valid()
      reads this
    {
      && IsHeap(heap, EntryLe) && Own(heap)
      && Balanced(heap, arrived, departed, totalPut, totalGet)
      && IsRun(turns, timeout, threshold) && Follows(turns, multiset(heap), processed)
    }

    constructor (threshold: int, timeout: real)
      ensures Valid() && heap == [] && arrived == multiset{} && processed == 0 && turns == []
      ensures this.threshold == threshold && this.timeout == timeout
    {
      this.threshold, this.timeout := threshold, timeout;
      heap, totalPut, totalGet, processed, starved := [], 0, 0, 0, 0;
      arrived, departed, turns := multiset{}, multiset{}, [];
    }

    method Put(request: Request, priority: int)
      requires Valid()
      modifies this
      ensures Valid() && departed == old(departed) && totalPut == old(totalPut) + 1
      ensures multiset(heap) == old(multiset(heap)) + multiset{Entry(priority, request.submitTime, request.id, request)}
      ensures arrived == old(arrived) + multiset{Entry(priority, request.submitTime, request.id, request)}
      ensures (processed, starved, totalGet) == old((processed, starved, totalGet))
      ensures turns == WithAdded(old(turns), Entry(priority, request.submitTime, request.id, request))
    {
      EntriesOrdered();
      hide EntryLe, IsHeap, TotalPreorder, IsRun, Follows, Own, WithAdded, Balanced;
      var e := Entry(priority, request.submitTime, request.id, request);
      ghost var was := heap;
      heap := Push(heap, e, EntryLe);
      OwnMore(was, heap, e);
      BalancePut(was, heap, arrived, departed, totalPut, totalGet, e);
      totalPut := totalPut + 1;
      arrived := arrived + multiset{e};
      AddedKeepsRun(turns, multiset(was), processed, timeout, threshold, e);
      turns := WithAdded(turns, e);
    }

    /** _get_next_item_index_unlocked. */
    method NextIndex(now: real) returns (k: nat)
      requires Valid() && heap != []
      ensures k < |heap|
      ensures Takes(multiset(heap), now, timeout, threshold, processed, heap[k])
      ensures Picks(heap, now, timeout, threshold, processed, k)
      ensures k != 0 <==>
        && heap[0].priority >= 5 && processed < threshold
        && now - heap[0].request.submitTime <= timeout && exists f <- heap :: now - f.request.submitTime > timeout
      ensures k != 0 ==>
        && now - heap[k].request.submitTime > timeout
        && forall j :: 0 <= j < k ==> now - heap[j].request.submitTime <= timeout
    {
      RootFirst(heap);
      hide IsHeap, Own, IsRun, Follows, Least, Takes, EntryLe;
      k := Pick(now);
      PickTakes(heap, now, timeout, threshold, processed, k);
    }

    method Pick(now: real) returns (k: nat)
      requires heap != [] && forall f <- heap :: f.priority >= heap[0].priority
      ensures k < |heap| && Picks(heap, now, timeout, threshold, processed, k)
    {
      if heap[0].priority < 5 {
        return 0;
      }
      if heap[0].priority >= 7 {
        if now - heap[0].request.submitTime > timeout {
          return 0;
        }
        if processed >= threshold {
          return 0;
        }
      }
      for i := 0 to |heap|
        invariant processed >= threshold ==> i == 0
        invariant forall j :: 0 <= j < i ==> !TimedOut(heap[j], now, timeout)
      {
        if heap[i].priority >= 5 {
          if now - heap[i].request.submitTime > timeout {
            assert heap[i] in heap && TimedOut(heap[i], now, timeout);
            return i;
          }
          if processed >= threshold {
            return i;
          }
        }
      }
      return 0;
    }

    /** Remove the entry at k: heappop at the front, otherwise delete and heapify. */
    method TakeAt(k: nat)
      requires k < |heap| && IsHeap(heap, EntryLe)
      modifies this`heap
      ensures IsHeap(heap, EntryLe) && multiset(heap) + multiset{old(heap)[k]} == multiset(old(heap))
    {
      EntriesOrdered();
      if k == 0 {
        var _, rest := Pop(heap, EntryLe);
        heap := rest;
      } else {
        heap := DeleteAt(heap, k, EntryLe);
      }
    }

    /** get, from the moment the queue is not empty. */
    method Get(now: real) returns (request: Request, ghost e: Entry)
      requires Valid() && heap != []
      modifies this
      ensures Valid() && arrived == old(arrived)
      ensures Takes(old(multiset(heap)), now, timeout, threshold, old(processed), e)
      ensures departed == old(departed) + multiset{e} && request == e.request
      ensures e in old(heap) && multiset(heap) + multiset{e} == old(multiset(heap))
      ensures e.time == request.submitTime && e.id == request.id
      ensures
        || (forall f <- old(heap) ::
              && e.priority <= f.priority
              && (e.priority == f.priority ==> e.time <= f.time)
              && (e.priority == f.priority && e.time == f.time ==> StringLe(e.id, f.id)))
        || (now - e.request.submitTime > timeout && old(processed) < threshold
            && forall f <- old(heap) :: f.priority >= 5)
      ensures
        (exists f <- old(heap) :: now - f.request.submitTime > timeout)
        && old(processed) < threshold && (forall f <- old(heap) :: f.priority >= 5) ==>
          now - e.request.submitTime > timeout
      ensures processed == CountAfter(old(processed), request.priority)
      ensures processed ==
        if request.priority < 5 then old(processed) + 1 else if request.priority >= 7 then 0 else old(processed)
      ensures totalGet == old(totalGet) + 1
      ensures starved == old(starved) + (if request.priority >= 7 then 1 else 0)
      ensures turns == old(turns) + [Turn(old(multiset(heap)), now, old(processed), e, multiset{}, multiset{})]
    {
      hide EntryLe, IsHeap, Takes, TotalPreorder, IsRun, Follows, Own, Balanced, Picks, CountAfter, After;
      var k := NextIndex(now);
      ghost var was := heap;
      e := heap[k];
      request := heap[k].request;
      TakeAt(k);
      OwnFewer(was, heap, e);
      BalanceTake(was, heap, arrived, departed, totalPut, totalGet, e);
      TakesMeans(was, now, timeout, threshold, processed, e);
      ghost var t := Turn(multiset(was), now, processed, e, multiset{}, multiset{});
      TurnKeepsRun(turns, t, timeout, threshold, multiset(heap));
      turns := turns + [t];
      departed := departed + multiset{e};
      totalGet := totalGet + 1;
      CountTaken(request.priority);
    }

    method CountTaken(priority: int)
      modifies this`processed, this`starved
      ensures processed == CountAfter(old(processed), priority)
      ensures processed == if priority < 5 then old(processed) + 1 else if priority >= 7 then 0 else old(processed)
      ensures starved == old(starved) + (if priority >= 7 then 1 else 0)
    {
      if priority < 5 {
        processed := processed + 1;
      } else if priority >= 7 {
        processed := 0;
        starved := starved + 1;
      }
    }

    method RemoveByRequestId(id: string) returns (found: bool)
      requires Valid()
      modifies this
      ensures Valid() && arrived == old(arrived)
      ensures found <==> exists e <- old(heap) :: e.id == id
      ensures !found ==> departed == old(departed) && heap == old(heap) && turns == old(turns)
      ensures found ==> exists e <- old(heap) ::
        e.id == id && departed == old(departed) + multiset{e} && turns == WithRemoved(old(turns), e)
      ensures found ==> exists e <- old(heap) :: e.id == id && multiset(heap) + multiset{e} == old(multiset(heap))
      ensures (processed, starved, totalGet) == old((processed, starved, totalGet))
    {
      for i := 0 to |heap|
        invariant forall j :: 0 <= j < i ==> heap[j].id != id
      {
        if heap[i].id == id {
          RemoveAt(i);
          return true;
        }
      }
      return false;
    }

    method RemoveAt(i: nat)
      requires Valid() && i < |heap|
      modifies this`heap, this`departed, this`turns
      ensures Valid() && departed == old(departed) + multiset{old(heap)[i]}
      ensures turns == WithRemoved(old(turns), old(heap)[i])
      ensures multiset(heap) + multiset{old(heap)[i]} == old(multiset(heap))
    {
      EntriesOrdered();
      hide EntryLe, IsHeap, TotalPreorder, IsRun, Follows, Own, Balanced;
      ghost var was, e := heap, heap[i];
      heap := DeleteAt(heap, i, EntryLe);
      OwnFewer(was, heap, e);
      BalanceTake(was, heap, arrived, departed, totalPut, totalGet, e);
      RemovedKeepsRun(turns, multiset(was), processed, timeout, threshold, e, multiset(heap));
      turns := WithRemoved(turns, e);
      departed := departed + multiset{e};
    }
  }

  /** Every entry carries its request's own time and id. */
  ghost predicate Own(heap: seq<Entry>) {
    forall e <- heap :: e.time == e.request.submitTime && e.id == e.request.id
  }

  /** What was put is queued or gone, and the counters count it. */
  ghost predicate Balanced(heap: seq<Entry>, arrived: multiset<Entry>, departed: multiset<Entry>, puts: nat, gets: nat) {
    multiset(heap) + departed == arrived && puts == |arrived| && gets <= |departed|
  }

  lemma BalancePut(was: seq<Entry>, heap: seq<Entry>, arrived: multiset<Entry>, departed: multiset<Entry>, puts: nat, gets: nat, e: Entry)
    requires Balanced(was, arrived, departed, puts, gets) && multiset(heap) == multiset(was) + multiset{e}
    ensures Balanced(heap, arrived + multiset{e}, departed, puts + 1, gets)
  {
    assert |arrived + multiset{e}| == |arrived| + 1;
  }

  lemma BalanceTake(was: seq<Entry>, heap: seq<Entry>, arrived: multiset<Entry>, departed: multiset<Entry>, puts: nat, gets: nat, e: Entry)
    requires Balanced(was, arrived, departed, puts, gets) && multiset(heap) + multiset{e} == multiset(was)
    ensures Balanced(heap, arrived, departed + multiset{e}, puts, gets)
    ensures Balanced(heap, arrived, departed + multiset{e}, puts, gets + 1)
  {
    assert |departed + multiset{e}| == |departed| + 1;
  }

  lemma OwnFewer(was: seq<Entry>, heap: seq<Entry>, e: Entry)
    requires multiset(heap) + multiset{e} == multiset(was) && Own(was)
    ensures Own(heap)
  {
    forall x | x in heap ensures x.time == x.request.submitTime && x.id == x.request.id {
      assert x in multiset(heap);
      assert x in multiset(was);
    }
  }

  lemma OwnMore(was: seq<Entry>, heap: seq<Entry>, e: Entry)
    requires multiset(heap) == multiset(was) + multiset{e} && Own(was)
    requires e.time == e.request.submitTime && e.id == e.request.id
    ensures Own(heap)
  {
    forall x | x in heap ensures x.time == x.request.submitTime && x.id == x.request.id {
      assert x in multiset(heap);
      assert x in was || x == e;
    }
  }

  lemma RootFirst(heap: seq<Entry>)
    requires IsHeap(heap, EntryLe) && heap != []
    ensures heap[0] in multiset(heap) && Least(multiset(heap), heap[0])
    ensures forall f <- multiset(heap) :: f in heap
    ensures forall f <- heap :: f in multiset(heap) && f.priority >= heap[0].priority
  {
    EntriesOrdered();
    RootIsLeastOfAll(heap, EntryLe);
  }

  /** Some least entry has timed out exactly if the root has: ties have the same time. */
  lemma RootDecides(heap: seq<Entry>, now: real, timeout: real)
    requires IsHeap(heap, EntryLe) && Own(heap) && heap != []
    ensures (exists f <- multiset(heap) :: Least(multiset(heap), f) && TimedOut(f, now, timeout)) <==> TimedOut(heap[0], now, timeout)
  {
    RootFirst(heap);
    forall f | f in multiset(heap) && Least(multiset(heap), f) ensures TimedOut(f, now, timeout) == TimedOut(heap[0], now, timeout) {
      assert f in heap && EntryLe(f, heap[0]) && EntryLe(heap[0], f);
      assert f.time == heap[0].time;
    }
  }

  lemma PickTakes(heap: seq<Entry>, now: real, timeout: real, threshold: int, processed: int, k: nat)
    requires IsHeap(heap, EntryLe) && Own(heap) && k < |heap| && Picks(heap, now, timeout, threshold, processed, k)
    ensures Takes(multiset(heap), now, timeout, threshold, processed, heap[k])
  {
    RootFirst(heap);
    RootDecides(heap, now, timeout);
    hide IsHeap, Own, Least, EntryLe;
    assert heap[k] in multiset(heap);
    if k == 0 && !TimedOut(heap[0], now, timeout) && heap[0].priority >= 5 && processed < threshold {
      assert forall f <- multiset(heap) :: !TimedOut(f, now, timeout);
    }
  }

  /** A least entry comes before every other: the lower priority number first, among equals the one
      submitted earlier, and of those the one with the smaller id. */
  lemma LeastComesFirst(contents: multiset<Entry>, e: Entry)
    requires Least(contents, e)
    ensures forall f <- contents ::
      && e.priority <= f.priority
      && (e.priority == f.priority ==> e.time <= f.time)
      && (e.priority == f.priority && e.time == f.time ==> StringLe(e.id, f.id))
  {
    forall f | f in contents
      ensures
        && e.priority <= f.priority
        && (e.priority == f.priority ==> e.time <= f.time)
        && (e.priority == f.priority && e.time == f.time ==> StringLe(e.id, f.id))
    {
      assert EntryLe(e, f);
    }
  }

  /** What a get takes comes first, or has waited too long where only such work is queued. */
  lemma TakesMeans(heap: seq<Entry>, now: real, timeout: real, threshold: int, processed: int, e: Entry)
    requires IsHeap(heap, EntryLe) && Own(heap) && heap != []
    requires Takes(multiset(heap), now, timeout, threshold, processed, e)
    ensures e.time == e.request.submitTime && e.id == e.request.id
    ensures
      || (forall f <- heap ::
            && e.priority <= f.priority
            && (e.priority == f.priority ==> e.time <= f.time)
            && (e.priority == f.priority && e.time == f.time ==> StringLe(e.id, f.id)))
      || (now - e.request.submitTime > timeout && processed < threshold && forall f <- heap :: f.priority >= 5)
    ensures
      (exists f <- heap :: now - f.request.submitTime > timeout)
      && processed < threshold && (forall f <- heap :: f.priority >= 5) ==>
        now - e.request.submitTime > timeout
  {
    assert forall f <- heap :: f in multiset(heap);
    assert forall f <- multiset(heap) :: f in heap;
    assert e in heap;
    hide EntryLe, Own;
    if TakesLeast(multiset(heap), now, timeout, threshold, processed) {
      LeastComesFirst(multiset(heap), e);
      if f :| f in multiset(heap) && Least(multiset(heap), f) && TimedOut(f, now, timeout) {
        assert TimedOut(e, now, timeout) by {
          BothTimedOut(heap, e, f);
        }
      }
    }
  }

  lemma BothTimedOut(heap: seq<Entry>, e: Entry, f: Entry)
    requires Own(heap) && e in heap && f in heap
    requires Least(multiset(heap), e) && Least(multiset(heap), f)
    ensures e.request.submitTime == f.request.submitTime
  {
    assert e in multiset(heap) && f in multiset(heap);
    assert EntryLe(e, f) && EntryLe(f, e);
  }

  // ---------------------------------------------------------------- runs

  /** One get of a run: the queue before it, the clock, the counter, the entry taken, and what is
      put and what is removed before the next get. */
  datatype Turn = Turn(
    contents: multiset<Entry>, now: real, processed: int, taken: Entry, added: multiset<Entry>, removed: multiset<Entry>
  )

  /** The queue after a turn and what followed it. */
  function After(t: Turn): multiset<Entry> {
    t.contents - multiset{t.taken} + t.added - t.removed
  }

  function CounterAfter(t: Turn): int {
    CountAfter(t.processed, t.taken.request.priority)
  }

  ghost predicate IsRun(turns: seq<Turn>, timeout: real, threshold: int) {
    && (forall i :: 0 <= i < |turns| ==>
          Takes(turns[i].contents, turns[i].now, timeout, threshold, turns[i].processed, turns[i].taken))
    && (forall i :: 0 < i < |turns| ==>
          turns[i].contents == After(turns[i - 1]) && turns[i].processed == CounterAfter(turns[i - 1]))
  }

  /** The queue and the counter are where the last turn and what followed it left them. */
  ghost predicate Follows(turns: seq<Turn>, contents: multiset<Entry>, processed: int) {
    turns != [] ==>
      var t := turns[|turns| - 1];
      && After(t) == contents && CounterAfter(t) == processed
      && t.removed <= t.contents - multiset{t.taken} + t.added
  }

  function WithAdded(turns: seq<Turn>, e: Entry): seq<Turn> {
    if turns == [] then []
    else
      var n := |turns| - 1;
      turns[n := turns[n].(added := turns[n].added + multiset{e})]
  }

  function WithRemoved(turns: seq<Turn>, e: Entry): seq<Turn> {
    if turns == [] then []
    else
      var n := |turns| - 1;
      turns[n := turns[n].(removed := turns[n].removed + multiset{e})]
  }

  /** What follows the last turn does not matter to the run so far. */
  lemma LastMayChange(turns: seq<Turn>, t: Turn, timeout: real, threshold: int)
    requires turns != [] && IsRun(turns, timeout, threshold)
    requires var last := turns[|turns| - 1]; t == last.(added := t.added, removed := t.removed)
    ensures IsRun(turns[|turns| - 1 := t], timeout, threshold)
  {
    hide Takes;
  }

  lemma AddedKeepsRun(turns: seq<Turn>, contents: multiset<Entry>, processed: int, timeout: real, threshold: int, e: Entry)
    requires IsRun(turns, timeout, threshold) && Follows(turns, contents, processed)
    ensures IsRun(WithAdded(turns, e), timeout, threshold)
    ensures Follows(WithAdded(turns, e), contents + multiset{e}, processed)
  {
    if turns != [] {
      var last := turns[|turns| - 1];
      LastMayChange(turns, last.(added := last.added + multiset{e}), timeout, threshold);
    }
  }

  lemma RemovedKeepsRun(turns: seq<Turn>, contents: multiset<Entry>, processed: int, timeout: real, threshold: int,
                        e: Entry, left: multiset<Entry>)
    requires IsRun(turns, timeout, threshold) && Follows(turns, contents, processed)
    requires left + multiset{e} == contents
    ensures IsRun(WithRemoved(turns, e), timeout, threshold)
    ensures Follows(WithRemoved(turns, e), left, processed)
  {
    if turns != [] {
      var last := turns[|turns| - 1];
      LastMayChange(turns, last.(removed := last.removed + multiset{e}), timeout, threshold);
      hide IsRun;
      TakeOneMore(last.contents - multiset{last.taken} + last.added, last.removed, e, left);
    }
  }

  lemma TakeOneMore(whole: multiset<Entry>, gone: multiset<Entry>, e: Entry, left: multiset<Entry>)
    requires gone <= whole && whole - gone == left + multiset{e}
    ensures gone + multiset{e} <= whole && whole - (gone + multiset{e}) == left
  {
    forall x
      ensures (gone + multiset{e})[x] <= whole[x] && (whole - (gone + multiset{e}))[x] == left[x]
    {
      assert gone[x] <= whole[x] && (whole - gone)[x] == (left + multiset{e})[x];
    }
  }

  lemma NothingFollows(t: Turn, left: multiset<Entry>)
    requires t.added == t.removed == multiset{} && left + multiset{t.taken} == t.contents
    ensures After(t) == left
  {
    assert t.contents - multiset{t.taken} == left;
    assert left + multiset{} - multiset{} == left;
  }

  lemma TurnKeepsRun(turns: seq<Turn>, t: Turn, timeout: real, threshold: int, left: multiset<Entry>)
    requires IsRun(turns, timeout, threshold) && Follows(turns, t.contents, t.processed)
    requires Takes(t.contents, t.now, timeout, threshold, t.processed, t.taken)
    requires t.added == t.removed == multiset{} && left + multiset{t.taken} == t.contents
    ensures IsRun(turns + [t], timeout, threshold) && Follows(turns + [t], left, CounterAfter(t))
  {
    hide Takes, After, CounterAfter;
    NothingFollows(t, left);
    var more := turns + [t];
    assert more[|turns|] == t && more[..|turns|] == turns;
    forall i | 0 < i < |more|
      ensures more[i].contents == After(more[i - 1]) && more[i].processed == CounterAfter(more[i - 1])
    {
      assert more[i - 1] == turns[i - 1];
    }
  }

  function TakenIn(turns: seq<Turn>): seq<Entry> {
    seq(|turns|, i requires 0 <= i < |turns| => turns[i].taken)
  }

  lemma TailIsRun(turns: seq<Turn>, timeout: real, threshold: int)
    requires |turns| > 1 && IsRun(turns, timeout, threshold)
    ensures IsRun(turns[1..], timeout, threshold) && turns[1].contents == After(turns[0])
    ensures turns[0].taken in turns[0].contents
  {
    var rest := turns[1..];
    forall i | 0 < i < |rest|
      ensures rest[i].contents == After(rest[i - 1]) && rest[i].processed == CounterAfter(rest[i - 1])
    {
      assert rest[i] == turns[i + 1] && rest[i - 1] == turns[i];
    }
  }

  /** Nothing is put or removed between the gets. */
  ghost predicate Quiet(turns: seq<Turn>) {
    forall k :: 0 <= k < |turns| ==> turns[k].added == multiset{} && turns[k].removed == multiset{}
  }

  lemma QuietStep(turns: seq<Turn>, timeout: real, threshold: int, k: nat)
    requires IsRun(turns, timeout, threshold) && Quiet(turns) && k + 1 < |turns|
    ensures turns[k].taken in turns[k].contents && turns[k + 1].taken in turns[k + 1].contents
    ensures turns[k + 1].contents == turns[k].contents - multiset{turns[k].taken}
  {
    assert turns[k + 1].contents == After(turns[k + 1 - 1]);
    assert Takes(turns[k].contents, turns[k].now, timeout, threshold, turns[k].processed, turns[k].taken);
    assert turns[k].added == multiset{} && turns[k].removed == multiset{};
  }

  /** Then what a later get takes was there all along. */
  lemma {:induction false} TakenWasThere(turns: seq<Turn>, timeout: real, threshold: int, i: nat, j: nat)
    requires IsRun(turns, timeout, threshold) && Quiet(turns) && i <= j < |turns|
    ensures turns[j].contents <= turns[i].contents
    decreases j
  {
    hide IsRun, Quiet;
    if i < j {
      TakenWasThere(turns, timeout, threshold, i, j - 1);
      QuietStep(turns, timeout, threshold, j - 1);
    }
  }

  lemma {:induction false} DrainTakes(turns: seq<Turn>, timeout: real, threshold: int, n: nat)
    requires IsRun(turns, timeout, threshold) && Quiet(turns) && 0 < n <= |turns|
    ensures turns[n - 1].taken in turns[n - 1].contents
    ensures multiset(TakenIn(turns[..n])) + (turns[n - 1].contents - multiset{turns[n - 1].taken}) == turns[0].contents
  {
    var last := turns[n - 1];
    assert Takes(last.contents, last.now, timeout, threshold, last.processed, last.taken);
    assert TakenIn(turns[..n]) == TakenIn(turns[..n - 1]) + [last.taken];
    hide IsRun, Quiet, TakenIn, TakesLeast;
    if n > 1 {
      DrainTakes(turns, timeout, threshold, n - 1);
      QuietStep(turns, timeout, threshold, n - 2);
      MoveOne(TakenIn(turns[..n - 1]), last.taken, last.contents);
    } else {
      assert TakenIn(turns[..0]) == [] by {
        NothingTaken();
      }
      MoveOne([], last.taken, last.contents);
    }
  }

  lemma MoveOne(taken: seq<Entry>, e: Entry, contents: multiset<Entry>)
    requires e in contents
    ensures multiset(taken + [e]) + (contents - multiset{e}) == multiset(taken) + contents
  {
    assert multiset(taken + [e]) == multiset(taken) + multiset{e};
    assert multiset{e} + (contents - multiset{e}) == contents;
  }

  lemma NothingTaken()
    ensures TakenIn([]) == []
  {
  }

  /** A part as large as the whole is the whole. */
  lemma AllOfIt(part: multiset<Entry>, rest: multiset<Entry>, whole: multiset<Entry>)
    requires part + rest == whole && |part| == |whole|
    ensures part == whole
  {
    assert |part + rest| == |part| + |rest|;
    assert |rest| == 0;
    assert rest == multiset{};
  }

  lemma DrainTakesAll(turns: seq<Turn>, timeout: real, threshold: int)
    requires turns != [] && IsRun(turns, timeout, threshold) && Quiet(turns)
    requires |turns| == |turns[0].contents|
    ensures multiset(TakenIn(turns)) == turns[0].contents
  {
    hide IsRun, Quiet;
    assert turns[..|turns|] == turns;
    var last, taken := turns[|turns| - 1], TakenIn(turns);
    assert |multiset(taken)| == |taken| == |turns|;
    hide TakenIn;
    DrainTakes(turns, timeout, threshold, |turns|);
    AllOfIt(multiset(taken), last.contents - multiset{last.taken}, turns[0].contents);
  }

  lemma TakesTheLeast(t: Turn, timeout: real, threshold: int)
    requires Takes(t.contents, t.now, timeout, threshold, t.processed, t.taken)
    requires forall f <- t.contents :: !TimedOut(f, t.now, timeout)
    ensures t.taken in t.contents && Least(t.contents, t.taken)
  {
  }

  /** Draining a queue in which nothing times out yields every entry in ascending key order,
      whatever the counter says. */
  lemma DrainIsSorted(turns: seq<Turn>, timeout: real, threshold: int)
    requires turns != [] && IsRun(turns, timeout, threshold) && Quiet(turns)
    requires forall i :: 0 <= i < |turns| ==> forall f <- turns[i].contents :: !TimedOut(f, turns[i].now, timeout)
    requires |turns| == |turns[0].contents|
    ensures multiset(TakenIn(turns)) == turns[0].contents
    ensures forall i, j :: 0 <= i < j < |turns| ==> EntryLe(turns[i].taken, turns[j].taken)
    ensures forall i, j :: 0 <= i < j < |turns| ==>
      && turns[i].taken.priority <= turns[j].taken.priority
      && (turns[i].taken.priority == turns[j].taken.priority ==> turns[i].taken.time <= turns[j].taken.time)
  {
    DrainTakesAll(turns, timeout, threshold);
    hide TakenIn, EntryLe;
    forall i, j | 0 <= i < j < |turns|
      ensures
        && EntryLe(turns[i].taken, turns[j].taken)
        && turns[i].taken.priority <= turns[j].taken.priority
        && (turns[i].taken.priority == turns[j].taken.priority ==> turns[i].taken.time <= turns[j].taken.time)
    {
      TakesTheLeast(turns[i], timeout, threshold);
      TakesTheLeast(turns[j], timeout, threshold);
      hide IsRun, Quiet, Takes;
      TakenWasThere(turns, timeout, threshold, i, j);
      LeastComesFirst(turns[i].contents, turns[i].taken);
    }
  }

  /** A get takes work of priority 5 or more exactly when no other work is queued, however long that
      work has waited and whatever the counter says. */
  lemma LowTakenOnlyAlone(contents: multiset<Entry>, now: real, timeout: real, threshold: int, processed: int, e: Entry)
    requires Takes(contents, now, timeout, threshold, processed, e)
    ensures e.priority >= 5 <==> forall f <- contents :: f.priority >= 5
  {
    if f :| f in contents && f.priority < 5 {
      assert EntryLe(e, f);
    }
  }

  /** So while high priority work is always queued, other work is never taken; it stays unless it is
      removed by id. The class comment promises otherwise. */
  lemma {:induction false} LowPriorityStarves(turns: seq<Turn>, timeout: real, threshold: int, low: Entry)
    requires turns != [] && IsRun(turns, timeout, threshold)
    requires forall i :: 0 <= i < |turns| ==> exists f <- turns[i].contents :: f.priority < 5
    requires low in turns[0].contents && low.priority >= 5
    requires forall i :: 0 <= i < |turns| ==> low !in turns[i].removed
    ensures forall i :: 0 <= i < |turns| ==> turns[i].taken.priority < 5
    ensures low in turns[|turns| - 1].contents
  {
    var t := turns[0];
    assert exists f <- t.contents :: f.priority < 5;
    LowTakenOnlyAlone(t.contents, t.now, timeout, threshold, t.processed, t.taken);
    if |turns| > 1 {
      var rest := turns[1..];
      TailIsRun(turns, timeout, threshold);
      hide IsRun, After;
      StaysQueued(t, low);
      LowPriorityStarves(rest, timeout, threshold, low);
      forall i | 0 < i < |turns| ensures turns[i].taken.priority < 5 {
        assert turns[i] == rest[i - 1];
      }
    }
  }

  lemma StaysQueued(t: Turn, x: Entry)
    requires x in t.contents && x != t.taken && x !in t.removed
    ensures x in After(t)
  {
  }

  /** Exactly when a get passes over the least entry: no high priority work, the counter below the
      threshold, and some entry timed out while the least did not. Reaching the threshold switches
      the rescue of timed-out entries off. */
  lemma OvertakingCondition(contents: multiset<Entry>, now: real, timeout: real, threshold: int, processed: int,
                            least: Entry, e: Entry)
    requires least in contents && Least(contents, least)
    requires forall f <- contents :: EntryLe(f, least) ==> f == least
    requires Takes(contents, now, timeout, threshold, processed, e)
    ensures
      e != least <==>
      && least.priority >= 5 && processed < threshold
      && !TimedOut(least, now, timeout) && exists f <- contents :: TimedOut(f, now, timeout)
  {
  }
}
