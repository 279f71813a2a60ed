/** Isolation of nodes that fail too often (Scheduler._record_node_failure). */
module Quarantine {
  import opened Wrappers

  type NodeId = string

  const WINDOW: real := 60.0

  /** The entries at cutoff or later, in order. */
  function Since(times: seq<real>, cutoff: real): seq<real> {
    if times == [] then []
    else
      var rest, x := Since(times[..|times| - 1], cutoff), times[|times| - 1];
      if x >= cutoff then rest + [x] else rest
  }

  predicate InOrder(times: seq<real>) {
    forall i, j :: 0 <= i < j < |times| ==> times[i] <= times[j]
  }

  predicate EndsBy(times: seq<real>, now: real) {
    times != [] ==> times[|times| - 1] <= now
  }

  /** When the last failure came that was at least the third within the window ending at it. */
  datatype Trip = Never | At(time: real)

  function LastTrip(times: seq<real>): Trip {
    if times == [] then Never
    else
      var x := times[|times| - 1];
      if |Since(times, x - WINDOW)| >= 3 then At(x) else LastTrip(times[..|times| - 1])
  }

  /** Some failure and the second one after it lie at most 60 s apart. */
  ghost predicate ThreeClose(times: seq<real>) {
    exists i :: 0 <= i < |times| - 2 && CloseAt(times, i)
  }

  predicate CloseAt(times: seq<real>, i: nat)
    requires i + 2 < |times|
  {
    times[i + 2] - times[i] <= 60.0
  }

  lemma {:induction false} SinceIsSuffix(times: seq<real>, cutoff: real) returns (k: nat)
    requires InOrder(times)
    ensures k <= |times| && Since(times, cutoff) == times[k..]
    ensures (forall i :: 0 <= i < k ==> times[i] < cutoff) && (forall i :: k <= i < |times| ==> times[i] >= cutoff)
  {
    if times == [] {
      k := 0;
    } else {
      var n := |times| - 1;
      var init := times[..n];
      assert Since(times, cutoff) == if times[n] >= cutoff then Since(init, cutoff) + [times[n]] else Since(init, cutoff);
      hide Since;
      k := SinceIsSuffix(init, cutoff);
      if times[n] >= cutoff {
        assert times[k..] == init[k..] + [times[n]];
      } else {
        assert forall i :: 0 <= i < n ==> init[i] < cutoff;
        assert k == n;
        k := |times|;
      }
    }
  }

  /** The window at the last failure holds three exactly when the last three failures are close. */
  lemma LastThree(times: seq<real>)
    requires times != [] && InOrder(times)
    ensures
      |Since(times, times[|times| - 1] - WINDOW)| >= 3 <==>
      |times| >= 3 && times[|times| - 1] - times[|times| - 3] <= WINDOW
  {
    var n := |times| - 1;
    var k := SinceIsSuffix(times, times[n] - WINDOW);
    if |times| >= 3 {
      assert k <= n - 2 <==> times[n - 2] >= times[n] - WINDOW;
    }
  }

  lemma ThreeCloseMore(times: seq<real>)
    requires times != []
    ensures
      var n := |times| - 1;
      ThreeClose(times) <==> ThreeClose(times[..n]) || (n >= 2 && times[n] - times[n - 2] <= WINDOW)
  {
    var n := |times| - 1;
    var init := times[..n];
    if ThreeClose(init) {
      var i :| 0 <= i < |init| - 2 && CloseAt(init, i);
      assert CloseAt(times, i);
    }
    if n >= 2 && times[n] - times[n - 2] <= WINDOW {
      assert CloseAt(times, n - 2);
    }
    if ThreeClose(times) {
      var i :| 0 <= i < |times| - 2 && CloseAt(times, i);
      assert i < n - 2 ==> CloseAt(init, i);
    }
  }

  /** Isolation means three failures within 60 s, wherever they lie and whatever succeeded between
      them; a node that fails more slowly is never isolated, however often it fails. */
  lemma {:induction false} TrippedIffThreeClose(times: seq<real>)
    requires InOrder(times)
    ensures LastTrip(times) != Never <==> ThreeClose(times)
  {
    if times != [] {
      TrippedIffThreeClose(times[..|times| - 1]);
      LastThree(times);
      ThreeCloseMore(times);
      hide ThreeClose, Since;
    }
  }

  /** What a worker's reply says about its node, and when. */
  datatype Reply = Reply(ok: bool, time: real)

  /** Only failures are recorded. */
  function Failures(replies: seq<Reply>): seq<real> {
    if replies == [] then []
    else
      var last := replies[|replies| - 1];
      Failures(replies[..|replies| - 1]) + (if last.ok then [] else [last.time])
  }

  predicate ThreeInARow(replies: seq<Reply>) {
    exists i :: 0 <= i < |replies| - 2 && !replies[i].ok && !replies[i + 1].ok && !replies[i + 2].ok
  }

  /** Failing three times in a row is not needed: a node whose every other request succeeds is
      isolated if it fails often, even with 60 s from the first to the third failure. */
  lemma InARowIsNotNeeded() returns (replies: seq<Reply>)
    ensures !ThreeInARow(replies) && LastTrip(Failures(replies)) != Never
  {
    var a, b, c := Reply(false, 0.0), Reply(false, 30.0), Reply(false, 60.0);
    var s, t := Reply(true, 10.0), Reply(true, 40.0);
    replies := [] + [a] + [s] + [b] + [t] + [c];
    FailuresMore([], a);
    FailuresMore([] + [a], s);
    FailuresMore([] + [a] + [s], b);
    FailuresMore([] + [a] + [s] + [b], t);
    FailuresMore([] + [a] + [s] + [b] + [t], c);
    hide Failures, LastTrip;
    assert Failures(replies) == [0.0, 30.0, 60.0];
    assert CloseAt(Failures(replies), 0);
    TrippedIffThreeClose(Failures(replies));
  }

  /** Nor is it enough: a node that fails every time, but with more than 30 s between, is not. */
  lemma InARowIsNotEnough(gap: real) returns (replies: seq<Reply>)
    requires gap > 30.0
    ensures ThreeInARow(replies) && LastTrip(Failures(replies)) == Never
  {
    var a, b, c := Reply(false, 0.0), Reply(false, gap), Reply(false, 2.0 * gap);
    replies := [] + [a] + [b] + [c];
    FailuresMore([], a);
    FailuresMore([] + [a], b);
    FailuresMore([] + [a] + [b], c);
    hide Failures, LastTrip;
    assert Failures(replies) == [0.0, gap, 2.0 * gap];
    assert !CloseAt(Failures(replies), 0);
    TrippedIffThreeClose(Failures(replies));
    assert !replies[0].ok && !replies[0 + 1].ok && !replies[0 + 2].ok;
  }

  /** The third last failure decides, within 60 s of the last. */
  lemma ThirdLast(times: seq<real>)
    requires times != [] && InOrder(times)
    ensures
      |Since(times, times[|times| - 1] - WINDOW)| >= 3 <==>
      |times| >= 3 && times[|times| - 1] - times[|times| - 3] <= 60.0
  {
    LastThree(times);
  }

  lemma FailuresMore(replies: seq<Reply>, r: Reply)
    ensures Failures(replies + [r]) == Failures(replies) + (if r.ok then [] else [r.time])
    ensures Failures([]) == []
  {
    assert (replies + [r])[..|replies|] == replies;
  }

  lemma {:induction false} SinceAgain(times: seq<real>, earlier: real, cutoff: real)
    requires earlier <= cutoff
    ensures Since(Since(times, earlier), cutoff) == Since(times, cutoff)
  {
    if times != [] {
      var n := |times| - 1;
      var before := Since(times[..n], earlier);
      SinceAgain(times[..n], earlier, cutoff);
      if times[n] >= earlier {
        assert (before + [times[n]])[..|before|] == before;
      }
    }
  }

  /** What is left of the pruned list and of the whole one is the same from the cutoff on. */
  ghost predicate Agree(kept: seq<real>, times: seq<real>, from: real) {
    forall cutoff :: cutoff >= from ==> Since(kept, cutoff) == Since(times, cutoff)
  }

  lemma AgreeAppend(kept: seq<real>, times: seq<real>, from: real, now: real)
    requires Agree(kept, times, from)
    ensures Agree(kept + [now], times + [now], from)
  {
    assert (kept + [now])[..|kept|] == kept && (times + [now])[..|times|] == times;
  }

  lemma AgreePruned(kept: seq<real>, times: seq<real>, from: real, cutoff: real)
    requires Agree(kept, times, from) && from <= cutoff
    ensures Agree(Since(kept, cutoff), times, cutoff)
  {
    forall c | c >= cutoff ensures Since(Since(kept, cutoff), c) == Since(times, c) {
      SinceAgain(kept, cutoff, c);
    }
  }

  function Get<V>(m: map<NodeId, V>, n: NodeId): Option<V> {
    if n in m then Some(m[n]) else None
  }

  function OrEmpty(times: Option<seq<real>>): seq<real> {
    if times.Some? then times.value else []
  }

  /** What is recorded of one node fits its failures: enough of them kept, isolated exactly if it
      tripped, and until the right time. */
  ghost predicate Fits(kept: Option<seq<real>>, times: Option<seq<real>>, until: Option<real>, clock: real, seconds: real) {
    && kept.Some? == times.Some?
    && InOrder(OrEmpty(times)) && EndsBy(OrEmpty(times), clock)
    && Agree(OrEmpty(kept), OrEmpty(times), clock - WINDOW)
    && until == match LastTrip(OrEmpty(times))
                case Never => None
                case At(t) => Some(t + seconds)
  }

  lemma StillFits(kept: Option<seq<real>>, times: Option<seq<real>>, until: Option<real>, clock: real, now: real, seconds: real)
    requires Fits(kept, times, until, clock, seconds) && clock <= now
    ensures Fits(kept, times, until, now, seconds)
  {
  }

  lemma FitsRecorded(kept: Option<seq<real>>, times: Option<seq<real>>, until: Option<real>, clock: real, now: real, seconds: real)
    requires Fits(kept, times, until, clock, seconds) && clock <= now
    ensures
      var times', kept' := OrEmpty(times) + [now], Since(OrEmpty(kept) + [now], now - WINDOW);
      && kept' == Since(times', now - WINDOW)
      && Fits(Some(kept'), Some(times'), if |kept'| >= 3 then Some(now + seconds) else until, now, seconds)
  {
    hide Agree, InOrder, EndsBy, Since, LastTrip;
    var before, times' := OrEmpty(times), OrEmpty(times) + [now];
    KeptRecorded(OrEmpty(kept), before, clock, now);
    OrderRecorded(before, clock, now);
    LastTripIs(times');
    assert times'[..|times'| - 1] == before;
  }

  lemma OrderFits(kept: Option<seq<real>>, times: Option<seq<real>>, until: Option<real>, clock: real, now: real, seconds: real)
    requires Fits(kept, times, until, clock, seconds) && clock <= now
    ensures InOrder(OrEmpty(times) + [now])
  {
    OrderRecorded(OrEmpty(times), clock, now);
  }

  lemma OrderRecorded(times: seq<real>, clock: real, now: real)
    requires InOrder(times) && EndsBy(times, clock) && clock <= now
    ensures InOrder(times + [now]) && EndsBy(times + [now], now)
  {
  }

  lemma KeptRecorded(kept: seq<real>, times: seq<real>, clock: real, now: real)
    requires Agree(kept, times, clock - WINDOW) && clock <= now
    ensures
      var kept' := Since(kept + [now], now - WINDOW);
      kept' == Since(times + [now], now - WINDOW) && Agree(kept', times + [now], now - WINDOW)
  {
    AgreeAppend(kept, times, clock - WINDOW, now);
    AgreePruned(kept + [now], times + [now], clock - WINDOW, now - WINDOW);
  }

  lemma LastTripIs(times: seq<real>)
    requires times != []
    ensures
      var x := times[|times| - 1];
      LastTrip(times) == if |Since(times, x - WINDOW)| >= 3 then At(x) else LastTrip(times[..|times| - 1])
  {
  }

  lemma GetUpdated<V>(m: map<NodeId, V>, n: NodeId, v: V)
    ensures forall o :: Get(m[n := v], o) == if o == n then Some(v) else Get(m, o)
  {
    var m' := m[n := v];
    forall o ensures Get(m', o) == if o == n then Some(v) else Get(m, o) {
      assert o in m' <==> o in m || o == n;
    }
  }

  lemma GetDropped<V>(m: map<NodeId, V>, ns: set<NodeId>)
    ensures forall o :: Get(m - ns, o) == if o in ns then None else Get(m, o)
  {
  }

  class NodeFailures {
    const seconds: real
    var timestamps: map<NodeId, seq<real>>
    var quarantined: map<NodeId, real>
    /** All failures of a node since it was last released or unregistered, and the latest clock reading. */
    ghost var history: map<NodeId, seq<real>>
    ghost var clock: real

    ghost predicate ValidAt(n: NodeId)
      reads this
    {
      Fits(Get(timestamps, n), Get(history, n), Get(quarantined, n), clock, seconds)
    }

    ghost predicate Valid()
      reads this
    {
      forall n :: ValidAt(n)
    }

    constructor (seconds: real, now: real)
      ensures Valid() && history == map[] && this.seconds == seconds && clock == now
    {
      this.seconds := seconds;
      timestamps, quarantined, history, clock := map[], map[], map[], now;
    }

    method Record(n: NodeId, now: real) returns (isolate: bool)
      requires Valid() && clock <= now
      modifies this
      ensures Valid() && clock == now
      ensures history == old(history)[n := OrEmpty(Get(old(history), n)) + [now]]
      ensures isolate <==> |Since(history[n], now - WINDOW)| >= 3
      ensures isolate <==> |history[n]| >= 3 && now - history[n][|history[n]| - 3] <= 60.0
      ensures quarantined == if isolate then old(quarantined)[n := now + seconds] else old(quarantined)
    {
      hide Fits, Since;
      ghost var times' := OrEmpty(Get(history, n)) + [now];
      assert ValidAt(n);
      FitsRecorded(Get(timestamps, n), Get(history, n), Get(quarantined, n), clock, now, seconds);
      OrderFits(Get(timestamps, n), Get(history, n), Get(quarantined, n), clock, now, seconds);
      ThirdLast(times');
      var kept := if n in timestamps then timestamps[n] else [];
      kept := Prune(kept + [now], now - WINDOW);
      GetUpdated(timestamps, n, kept);
      GetUpdated(history, n, times');
      GetUpdated(quarantined, n, now + seconds);
      hide Get, OrEmpty;
      timestamps := timestamps[n := kept];
      history := history[n := times'];
      clock := now;
      isolate := |kept| >= 3;
      if isolate {
        quarantined := quarantined[n := now + seconds];
      }
      forall m ensures ValidAt(m) {
        if m != n {
          assert old(ValidAt(m));
          StillFits(Get(timestamps, m), Get(history, m), Get(quarantined, m), old(clock), now, seconds);
        }
      }
    }

    /** What _handle_worker_results does for one reply: a success leaves every record alone. */
    method Observe(n: NodeId, ok: bool, now: real) returns (isolate: bool)
      requires Valid() && clock <= now
      modifies this
      ensures Valid()
      ensures ok ==> !isolate && history == old(history) && quarantined == old(quarantined) && timestamps == old(timestamps)
      ensures !ok ==> history == old(history)[n := OrEmpty(Get(old(history), n)) + [now]]
      ensures !ok ==> (isolate <==> |Since(history[n], now - WINDOW)| >= 3)
      ensures forall replies ::
        OrEmpty(Get(old(history), n)) == Failures(replies) ==> OrEmpty(Get(history, n)) == Failures(replies + [Reply(ok, now)])
    {
      isolate := false;
      if !ok {
        isolate := Record(n, now);
      }
      forall replies | OrEmpty(Get(old(history), n)) == Failures(replies)
        ensures OrEmpty(Get(history, n)) == Failures(replies + [Reply(ok, now)])
      {
        FailuresMore(replies, Reply(ok, now));
      }
    }

    /** _release_expired_quarantines. */
    method ReleaseExpired(now: real)
      requires Valid() && clock <= now
      modifies this
      ensures Valid() && clock == now
      ensures quarantined == map n <- old(quarantined) | now < old(quarantined)[n] :: old(quarantined)[n]
      ensures history == old(history) - (old(quarantined).Keys - quarantined.Keys)
    {
      var expired := set n <- quarantined | now >= quarantined[n];
      GetDropped(quarantined, expired);
      GetDropped(timestamps, expired);
      GetDropped(history, expired);
      quarantined := quarantined - expired;
      timestamps := timestamps - expired;
      history := history - expired;
      clock := now;
      assert old(quarantined).Keys - quarantined.Keys == expired;
      hide Get;
      forall n ensures ValidAt(n) {
        assert old(ValidAt(n));
      }
    }

    /** unregister_node. */
    method Remove(n: NodeId)
      requires Valid()
      modifies this
      ensures Valid() && clock == old(clock)
      ensures quarantined == old(quarantined) - {n} && history == old(history) - {n}
    {
      quarantined := quarantined - {n};
      timestamps := timestamps - {n};
      history := history - {n};
      forall m ensures ValidAt(m) {
        assert old(ValidAt(m));
      }
    }

    /** _filter_quarantined_nodes: in order, the nodes with no three close failures on record. */
    method Filter(nodes: seq<NodeId>) returns (usable: seq<NodeId>)
      requires Valid()
      ensures usable == Usable(nodes)
      ensures (forall n <- nodes :: n !in quarantined) ==> usable == nodes
      ensures forall n <- nodes :: n in usable <==> n !in history || !ThreeClose(history[n])
    {
      usable := [];
      for i := 0 to |nodes|
        invariant usable == Usable(nodes[..i])
      {
        assert nodes[..i + 1][..i] == nodes[..i];
        if nodes[i] !in quarantined {
          usable := usable + [nodes[i]];
        }
      }
      assert nodes[..|nodes|] == nodes;
      UsableAll(nodes);
      forall n | n in nodes ensures n in usable <==> n !in history || !ThreeClose(history[n]) {
        UsableHas(nodes, n);
        assert ValidAt(n);
        if n in history {
          TrippedIffThreeClose(history[n]);
        }
      }
    }

    function Usable(nodes: seq<NodeId>): seq<NodeId>
      reads this
    {
      if nodes == [] then []
      else
        Usable(nodes[..|nodes| - 1])
        + (if nodes[|nodes| - 1] in quarantined then [] else [nodes[|nodes| - 1]])
    }

    lemma {:induction false} UsableAll(nodes: seq<NodeId>)
      ensures (forall n <- nodes :: n !in quarantined) ==> Usable(nodes) == nodes
    {
      if nodes != [] && forall n <- nodes :: n !in quarantined {
        assert forall n <- nodes[..|nodes| - 1] :: n in nodes;
        UsableAll(nodes[..|nodes| - 1]);
      }
    }

    /** Usable nodes keep their order: the list is filtered piece by piece. */
    lemma {:induction false} UsableConcat(a: seq<NodeId>, b: seq<NodeId>)
      ensures Usable(a + b) == Usable(a) + Usable(b)
    {
      if b == [] {
        assert a + b == a;
      } else {
        assert (a + b)[..|a + b| - 1] == a + b[..|b| - 1];
        UsableConcat(a, b[..|b| - 1]);
      }
    }

    lemma {:induction false} UsableHas(nodes: seq<NodeId>, n: NodeId)
      ensures n in Usable(nodes) <==> n in nodes && n !in quarantined
    {
      if nodes != [] {
        UsableHas(nodes[..|nodes| - 1], n);
        assert nodes == nodes[..|nodes| - 1] + [nodes[|nodes| - 1]];
      }
    }
  }

  method Prune(times: seq<real>, cutoff: real) returns (kept: seq<real>)
    ensures kept == Since(times, cutoff)
  {
    kept := [];
    for i := 0 to |times|
      invariant kept == Since(times[..i], cutoff)
    {
      assert times[..i + 1][..i] == times[..i];
      if times[i] >= cutoff {
        kept := kept + [times[i]];
      }
    }
    assert times[..|times|] == times;
  }
}
