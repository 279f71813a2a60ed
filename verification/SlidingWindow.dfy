/** The sliding window limiter of the gRPC interceptor. */
module SlidingWindow {
  import opened Wrappers

  /** The entries of history later than cutoff, in order. */
  function Later(history: seq<real>, cutoff: real): seq<real> {
    if history == [] then []
    else
      var rest := Later(history[..|history| - 1], cutoff);
      var x := history[|history| - 1];
      if x > cutoff then rest + [x] else rest
  }

  /** How many entries of history lie in the half-open interval (a, b]. */
  function CountIn(history: seq<real>, a: real, b: real): nat {
    if history == [] then 0
    else
      var x := history[|history| - 1];
      CountIn(history[..|history| - 1], a, b) + (if a < x <= b then 1 else 0)
  }

  /** The count is a number of positions. */
  lemma {:induction false} CountIs(history: seq<real>, a: real, b: real)
    ensures CountIn(history, a, b) == |set i: nat | i < |history| && a < history[i] <= b|
  {
    if history != [] {
      var n: nat := |history| - 1;
      var init := history[..n];
      CountIs(init, a, b);
      var before := set i: nat | i < |init| && a < init[i] <= b;
      assert CountIn(history, a, b) == CountIn(init, a, b) + (if a < history[n] <= b then 1 else 0);
      hide CountIn;
      assert (set i: nat | i < |history| && a < history[i] <= b) == before + (if a < history[n] <= b then {n} else {});
    }
  }

  /** Every admission found fewer than max admissions in the window that ended at it. */
  predicate Admissible(history: seq<real>, max: int, window: real) {
    history == [] ||
    var before := history[..|history| - 1];
    Admissible(before, max, window) && |Later(before, history[|history| - 1] - window)| < max
  }

  /** Admissions of a run: the history is in time order and ends no later than now. */
  predicate Ordered(history: seq<real>, now: real) {
    history == [] ||
    var x := history[|history| - 1];
    x <= now && Ordered(history[..|history| - 1], x)
  }

  /** The two lists hold the same entries later than any cutoff from the given one on. */
  ghost predicate Agree(a: seq<real>, b: seq<real>, from: real) {
    forall cutoff :: cutoff >= from ==> Later(a, cutoff) == Later(b, cutoff)
  }

  /** An admission, or a reset. */
  datatype Entry = Admitted(time: real) | WasReset(time: real)

  /** The admissions since the last reset. */
  function Era(log: seq<Entry>): seq<real> {
    if log == [] then []
    else
      var e := log[|log| - 1];
      if e.WasReset? then [] else Era(log[..|log| - 1]) + [e.time]
  }

  predicate LogOrdered(log: seq<Entry>, now: real) {
    log == [] ||
    var e := log[|log| - 1];
    e.time <= now && LogOrdered(log[..|log| - 1], e.time)
  }

  /** Every admission found fewer than max admissions since the last reset in the window ending at it. */
  predicate LogAdmissible(log: seq<Entry>, max: int, window: real) {
    log == [] ||
    var before, e := log[..|log| - 1], log[|log| - 1];
    LogAdmissible(before, max, window) && (e.Admitted? ==> |Later(Era(before), e.time - window)| < max)
  }

  /** The log of a limiter whose current history is this one. */
  predicate Logged(log: seq<Entry>, history: seq<real>, max: int, window: real, now: real) {
    history == Era(log) && LogOrdered(log, now) && LogAdmissible(log, max, window)
  }

  /** Admissions, and resets, in the half-open interval (a, b]. */
  function AdmittedIn(log: seq<Entry>, a: real, b: real): nat {
    if log == [] then 0
    else
      var e := log[|log| - 1];
      AdmittedIn(log[..|log| - 1], a, b) + (if e.Admitted? && a < e.time <= b then 1 else 0)
  }

  function ResetsIn(log: seq<Entry>, a: real, b: real): nat {
    if log == [] then 0
    else
      var e := log[|log| - 1];
      ResetsIn(log[..|log| - 1], a, b) + (if e.WasReset? && a < e.time <= b then 1 else 0)
  }

  class Limiter {
    const max: int
    const window: real
    var requests: seq<real>
    /** Every admission since the limiter was made or reset, everything since it was made, and the
        latest clock reading. */
    ghost var history: seq<real>
    ghost var log: seq<Entry>
    ghost var clock: real

    ghost predicate Valid()
      reads this
    {
      && Ordered(history, clock) && Admissible(history, max, window)
      && Agree(requests, history, clock - window)
      && Logged(log, history, max, window, clock)
    }

    constructor (max: int, window: real, now: real)
      ensures Valid() && history == [] && log == [] && clock == now && this.max == max && this.window == window
    {
      this.max, this.window := max, window;
      requests, history, log, clock := [], [], [], now;
    }

    method TryAcquire(now: real) returns (ok: bool)
      requires Valid() && clock <= now
      modifies this
      ensures Valid() && clock == now
      ensures window > 0.0 ==> requests == Later(history, now - window)
      ensures ok <==> CountIn(old(history), now - window, now) < max
      ensures !ok ==> CountIn(old(history), now - window, now) == Max(0, max)
      ensures ok <==> |set i: nat | i < |old(history)| && now - window < old(history)[i] <= now| < max
      ensures history == if ok then old(history) + [now] else old(history)
      ensures log == if ok then old(log) + [Admitted(now)] else old(log)
    {
      hide Logged, Ordered, Admissible, Later, CountIn, Agree;
      CountIs(history, now - window, now);
      LoggedLater(log, history, max, window, clock, now);
      var cutoff := now - window;
      var kept := Prune(requests, cutoff);
      PrunedAgrees(requests, kept, history, clock - window, cutoff);
      OrderedLater(history, clock, now);
      CountIsLength(history, cutoff, now);
      BoundAtEnd(history, max, window, now);
      requests, clock := kept, now;
      if |requests| < max {
        AppendBoth(requests, history, now, cutoff);
        StillAdmissible(history, max, window, now);
        LoggedMore(log, history, max, window, now);
        requests := requests + [now];
        history := history + [now];
        log := log + [Admitted(now)];
        return true;
      }
      return false;
    }

    method CurrentCount(now: real) returns (n: nat)
      requires Valid() && clock <= now
      ensures n == CountIn(history, now - window, now)
      ensures n == |set i: nat | i < |history| && now - window < history[i] <= now|
    {
      CountIs(history, now - window, now);
      var kept := Prune(requests, now - window);
      OrderedLater(history, clock, now);
      CountIsLength(history, now - window, now);
      n := |kept|;
    }

    method ResetLimiter(now: real)
      requires Valid() && clock <= now
      modifies this
      ensures Valid() && history == [] && requests == [] && clock == now && log == old(log) + [WasReset(now)]
    {
      LoggedLater(log, history, max, window, clock, now);
      LoggedReset(log, history, max, window, now);
      requests, history, log, clock := [], [], log + [WasReset(now)], now;
    }
  }

  method Prune(times: seq<real>, cutoff: real) returns (kept: seq<real>)
    ensures kept == Later(times, cutoff)
  {
    kept := [];
    for i := 0 to |times|
      invariant kept == Later(times[..i], cutoff)
    {
      assert times[..i + 1][..i] == times[..i];
      if times[i] > cutoff {
        kept := kept + [times[i]];
      }
    }
    assert times[..|times|] == times;
  }

  /** Pruning what was already pruned at an earlier cutoff loses nothing. */
  lemma {:induction false} PruneAgain(history: seq<real>, earlier: real, cutoff: real)
    requires earlier <= cutoff
    ensures Later(Later(history, earlier), cutoff) == Later(history, cutoff)
  {
    if history != [] {
      var x := history[|history| - 1];
      var before := Later(history[..|history| - 1], earlier);
      PruneAgain(history[..|history| - 1], earlier, cutoff);
      if x > earlier {
        assert (before + [x])[..|before|] == before;
      }
    }
  }

  lemma OrderedLater(history: seq<real>, a: real, b: real)
    requires Ordered(history, a) && a <= b
    ensures Ordered(history, b)
  {
  }

  /** With every entry at most b, the entries later than a are those in (a, b]. */
  lemma {:induction false} CountIsLength(history: seq<real>, a: real, b: real)
    requires Ordered(history, b)
    ensures |Later(history, a)| == CountIn(history, a, b)
  {
    if history != [] {
      OrderedLater(history[..|history| - 1], history[|history| - 1], b);
      CountIsLength(history[..|history| - 1], a, b);
    }
  }

  lemma PrunedAgrees(requests: seq<real>, kept: seq<real>, history: seq<real>, from: real, cutoff: real)
    requires Agree(requests, history, from) && from <= cutoff && kept == Later(requests, cutoff)
    ensures Agree(kept, history, cutoff) && kept == Later(history, cutoff)
  {
    forall c | c >= cutoff ensures Later(kept, c) == Later(history, c) {
      PruneAgain(requests, cutoff, c);
    }
  }

  lemma AppendBoth(requests: seq<real>, history: seq<real>, now: real, from: real)
    requires Agree(requests, history, from)
    ensures Agree(requests + [now], history + [now], from)
    ensures from < now ==> Later(history + [now], from) == Later(history, from) + [now]
  {
    assert (requests + [now])[..|requests|] == requests;
    assert (history + [now])[..|history|] == history;
  }

  lemma StillAdmissible(history: seq<real>, max: int, window: real, now: real)
    requires Admissible(history, max, window) && |Later(history, now - window)| < max
    requires Ordered(history, now)
    ensures Admissible(history + [now], max, window) && Ordered(history + [now], now)
  {
    assert (history + [now])[..|history|] == history;
  }

  /** A window that starts no earlier contains no more. */
  lemma {:induction false} CountMonotone(history: seq<real>, a: real, b: real, cutoff: real)
    requires cutoff <= a
    ensures CountIn(history, a, b) <= |Later(history, cutoff)|
  {
    if history != [] {
      CountMonotone(history[..|history| - 1], a, b, cutoff);
    }
  }

  /** Of the whole run, no half-open interval of window length holds more than max admissions. */
  lemma {:induction false} EveryWindowBounded(history: seq<real>, max: int, window: real, a: real)
    requires Admissible(history, max, window)
    ensures CountIn(history, a, a + window) <= Max(0, max)
  {
    if history != [] {
      var n := |history| - 1;
      var x := history[n];
      EveryWindowBounded(history[..n], max, window, a);
      if a < x <= a + window {
        CountMonotone(history[..n], a, a + window, x - window);
      }
    }
  }

  lemma BoundAtEnd(history: seq<real>, max: int, window: real, now: real)
    requires Admissible(history, max, window)
    ensures CountIn(history, now - window, now) <= Max(0, max)
  {
    EveryWindowBounded(history, max, window, now - window);
    assert now - window + window == now;
  }

  // ---------------------------------------------------------------- across resets

  lemma LogLater(log: seq<Entry>, a: real, b: real)
    requires LogOrdered(log, a) && a <= b
    ensures LogOrdered(log, b)
  {
  }

  lemma LoggedLater(log: seq<Entry>, history: seq<real>, max: int, window: real, a: real, b: real)
    requires Logged(log, history, max, window, a) && a <= b
    ensures Logged(log, history, max, window, b)
  {
  }

  lemma LoggedMore(log: seq<Entry>, history: seq<real>, max: int, window: real, now: real)
    requires Logged(log, history, max, window, now) && |Later(history, now - window)| < max
    ensures Logged(log + [Admitted(now)], history + [now], max, window, now)
  {
    assert (log + [Admitted(now)])[..|log|] == log;
  }

  lemma LoggedReset(log: seq<Entry>, history: seq<real>, max: int, window: real, now: real)
    requires Logged(log, history, max, window, now)
    ensures Logged(log + [WasReset(now)], [], max, window, now)
  {
    assert (log + [WasReset(now)])[..|log|] == log;
  }

  /** Everything after the log's end. */
  lemma {:induction false} NothingLater(log: seq<Entry>, a: real, b: real)
    requires LogOrdered(log, a)
    ensures AdmittedIn(log, a, b) == 0
  {
    if log != [] {
      var e := log[|log| - 1];
      LogLater(log[..|log| - 1], e.time, a);
      NothingLater(log[..|log| - 1], a, b);
    }
  }

  lemma {:induction false} EraAdmissible(log: seq<Entry>, max: int, window: real)
    requires LogAdmissible(log, max, window)
    ensures Admissible(Era(log), max, window)
  {
    if log != [] && log[|log| - 1].Admitted? {
      var before := log[..|log| - 1];
      EraAdmissible(before, max, window);
      assert Era(log)[..|Era(before)|] == Era(before);
    }
  }

  lemma {:induction false} PrefixOfLog(log: seq<Entry>, k: nat, max: int, window: real, now: real)
    requires LogOrdered(log, now) && LogAdmissible(log, max, window) && k < |log|
    ensures LogOrdered(log[..k], log[k].time) && LogAdmissible(log[..k], max, window) && log[k].time <= now
  {
    var n := |log| - 1;
    if k < n {
      PrefixOfLog(log[..n], k, max, window, log[n].time);
      assert log[..n][..k] == log[..k];
    }
  }

  /** What the current era adds to what came before the reset that began it. */
  lemma {:induction false} SplitAtReset(log: seq<Entry>, max: int, window: real, now: real, a: real, b: real) returns (k: nat)
    requires LogOrdered(log, now) && LogAdmissible(log, max, window) && exists e <- log :: e.WasReset?
    ensures k < |log| && log[k].WasReset?
    ensures AdmittedIn(log, a, b) == AdmittedIn(log[..k], a, b) + CountIn(Era(log), a, b)
    ensures ResetsIn(log, a, b) == ResetsIn(log[..k], a, b) + (if a < log[k].time <= b then 1 else 0)
    ensures log[k].time > b ==> CountIn(Era(log), a, b) == 0
  {
    var n := |log| - 1;
    var before := log[..n];
    if log[n].WasReset? {
      k := n;
    } else {
      assert log == before + [log[n]];
      k := SplitAtReset(before, max, window, log[n].time, a, b);
      PrefixOfLog(before, k, max, window, log[n].time);
      assert before[..k] == log[..k] && before[k] == log[k];
      assert Era(log)[..|Era(before)|] == Era(before);
    }
  }

  lemma {:induction false} NoReset(log: seq<Entry>, a: real, b: real)
    requires forall e <- log :: e.Admitted?
    ensures AdmittedIn(log, a, b) == CountIn(Era(log), a, b)
  {
    if log != [] {
      var before, last := log[..|log| - 1], log[|log| - 1];
      assert log == before + [last];
      assert last in log;
      NoReset(before, a, b);
      assert Era(log)[..|Era(before)|] == Era(before);
    }
  }

  function Shares(max: int, eras: nat): int {
    Max(0, max) * eras
  }

  lemma OneMoreEra(max: int, eras: nat)
    ensures Shares(max, eras + 1) == Shares(max, eras) + Max(0, max) && Shares(max, eras) >= 0
  {
  }

  /** Over the limiter's whole life: no half-open interval of window length holds more than max
      admissions, and max more for every reset in it. */
  lemma {:induction false} EveryWindowOfLog(log: seq<Entry>, max: int, window: real, now: real, a: real)
    requires LogOrdered(log, now) && LogAdmissible(log, max, window)
    ensures AdmittedIn(log, a, a + window) <= Shares(max, 1 + ResetsIn(log, a, a + window))
    decreases |log|
  {
    var b := a + window;
    EraAdmissible(log, max, window);
    EveryWindowBounded(Era(log), max, window, a);
    hide Shares;
    OneMoreEra(max, 0);
    if forall e <- log :: e.Admitted? {
      NoReset(log, a, b);
      OneMoreEra(max, ResetsIn(log, a, b));
      NoneReset(log, a, b);
    } else {
      var k := SplitAtReset(log, max, window, now, a, b);
      PrefixOfLog(log, k, max, window, now);
      EveryWindowOfLog(log[..k], max, window, log[k].time, a);
      OneMoreEra(max, 1 + ResetsIn(log[..k], a, b));
      OneMoreEra(max, ResetsIn(log[..k], a, b));
      if log[k].time <= a {
        LogLater(log[..k], log[k].time, a);
        NothingLater(log[..k], a, b);
      }
    }
  }

  lemma {:induction false} NoneReset(log: seq<Entry>, a: real, b: real)
    requires forall e <- log :: e.Admitted?
    ensures ResetsIn(log, a, b) == 0
  {
    if log != [] {
      assert log == log[..|log| - 1] + [log[|log| - 1]];
      assert log[|log| - 1] in log;
      NoneReset(log[..|log| - 1], a, b);
    }
  }

  /** A reset lets max more through at once. */
  lemma ResetLetsMoreThrough(t: real, window: real) returns (log: seq<Entry>)
    requires window > 0.0
    ensures LogOrdered(log, t) && LogAdmissible(log, 1, window) && AdmittedIn(log, t - window, t) == 2
  {
    var first := [] + [Admitted(t)];
    var second := first + [WasReset(t)];
    log := second + [Admitted(t)];
    NothingLogged(window, t);
    hide *;
    LoggedMore([], [], 1, window, t);
    LoggedReset(first, [] + [t], 1, window, t);
    LoggedMore(second, [], 1, window, t);
    AdmittedMore([], Admitted(t), t - window, t);
    AdmittedMore(first, WasReset(t), t - window, t);
    AdmittedMore(second, Admitted(t), t - window, t);
    LoggedMeans(log, [] + [t], 1, window, t);
  }

  lemma NothingLogged(window: real, t: real)
    ensures Logged([], [], 1, window, t) && |Later([], t - window)| == 0 && AdmittedIn([], t - window, t) == 0
  {
  }

  lemma LoggedMeans(log: seq<Entry>, history: seq<real>, max: int, window: real, now: real)
    requires Logged(log, history, max, window, now)
    ensures LogOrdered(log, now) && LogAdmissible(log, max, window)
  {
  }

  lemma AdmittedMore(log: seq<Entry>, e: Entry, a: real, b: real)
    ensures AdmittedIn(log + [e], a, b) == AdmittedIn(log, a, b) + (if e.Admitted? && a < e.time <= b then 1 else 0)
  {
    assert (log + [e])[..|log|] == log;
  }
}
