/** Which idle models to unload so that another one fits (VRAMManager.can_load). */
module EvictionPlan {
  import opened Sorting
  import opened Orders

  datatype Loaded = Loaded(name: string, vram: real, lastUsed: real, inUse: bool)

  function Idle(models: seq<Loaded>): seq<Loaded> {
    if models == [] then []
    else (if models[0].inUse then [] else [models[0]]) + Idle(models[1..])
  }

  function Greatest(xs: seq<real>): real
    requires xs != []
  {
    if |xs| == 1 then xs[0]
    else
      var rest := Greatest(xs[1..]);
      if xs[0] < rest then rest else xs[0]
  }

  /** `x or 1.0`. */
  function OrOne(x: real): (r: real)
    ensures r != 0.0
  {
    if x == 0.0 then 1.0 else x
  }

  function Score(m: Loaded, now: real, maxAge: real, maxVram: real): real
    requires maxAge != 0.0 && maxVram != 0.0
  {
    (now - m.lastUsed) / maxAge * 0.7 + m.vram / maxVram * 0.3
  }

  /** Score order over a list of candidates, highest first. */
  function ByScore(candidates: seq<Loaded>, now: real): (Loaded, Loaded) -> bool {
    if candidates == [] then (a, b) => true
    else
      var maxAge := OrOne(Greatest(seq(|candidates|, i requires 0 <= i < |candidates| => now - candidates[i].lastUsed)));
      var maxVram := OrOne(Greatest(seq(|candidates|, i requires 0 <= i < |candidates| => candidates[i].vram)));
      (a: Loaded, b: Loaded) => Score(a, now, maxAge, maxVram) >= Score(b, now, maxAge, maxVram)
  }

  /** _get_eviction_candidates. */
  function Candidates(models: seq<Loaded>, now: real): seq<Loaded> {
    var idle := Idle(models);
    Sort(idle, ByScore(idle, now))
  }

  function Vram(): Loaded -> real {
    (m: Loaded) => m.vram
  }

  function Names(models: seq<Loaded>): seq<string> {
    seq(|models|, i requires 0 <= i < |models| => models[i].name)
  }

  lemma ScoresOrdered(models: seq<Loaded>, now: real)
    ensures
      var idle := Idle(models);
      && TotalPreorder(ByScore(idle, now))
      && IsSorted(Candidates(models, now), ByScore(idle, now))
      && multiset(Candidates(models, now)) == multiset(idle)
  {
    SortSorts(Idle(models), ByScore(Idle(models), now));
  }

  lemma {:induction false} GreatestIs(xs: seq<real>, i: nat)
    requires i < |xs|
    ensures Greatest(xs) in xs && xs[i] <= Greatest(xs)
  {
    if |xs| > 1 {
      GreatestIs(xs[1..], if i > 0 then i - 1 else 0);
    }
  }

  /** The largest age and the largest size among the candidates, as divisors. */
  lemma Divisors(candidates: seq<Loaded>, now: real) returns (maxAge: real, maxVram: real)
    requires candidates != [] && forall m <- candidates :: m.lastUsed <= now && m.vram >= 0.0
    ensures maxAge > 0.0 && maxVram > 0.0
    ensures maxAge == OrOne(Greatest(seq(|candidates|, i requires 0 <= i < |candidates| => now - candidates[i].lastUsed)))
    ensures forall m <- candidates :: now - m.lastUsed <= maxAge && m.vram <= maxVram
    ensures forall a, b :: ByScore(candidates, now)(a, b) <==> Score(a, now, maxAge, maxVram) >= Score(b, now, maxAge, maxVram)
  {
    var ages := seq(|candidates|, i requires 0 <= i < |candidates| => now - candidates[i].lastUsed);
    var sizes := seq(|candidates|, i requires 0 <= i < |candidates| => candidates[i].vram);
    maxAge, maxVram := OrOne(Greatest(ages)), OrOne(Greatest(sizes));
    forall i: nat | i < |candidates|
      ensures 0.0 <= now - candidates[i].lastUsed <= Greatest(ages) && 0.0 <= candidates[i].vram <= Greatest(sizes)
    {
      assert candidates[i] in candidates;
      GreatestIs(ages, i);
      GreatestIs(sizes, i);
    }
    var first := candidates[0];
    assert 0.0 <= now - first.lastUsed <= Greatest(ages) && 0.0 <= first.vram <= Greatest(sizes);
  }

  lemma ScoreMonotone(a: Loaded, b: Loaded, now: real, maxAge: real, maxVram: real)
    requires maxAge > 0.0 && maxVram > 0.0 && a.lastUsed <= b.lastUsed && a.vram >= b.vram
    ensures Score(a, now, maxAge, maxVram) >= Score(b, now, maxAge, maxVram)
  {
    DivideMonotone(now - b.lastUsed, now - a.lastUsed, maxAge);
    DivideMonotone(b.vram, a.vram, maxVram);
  }

  lemma DivideMonotone(x: real, y: real, d: real)
    requires x <= y && d > 0.0
    ensures x / d <= y / d
  {
  }

  /** Of two idle models, the one unused for longer that is no smaller is unloaded first. */
  lemma OlderAndLargerFirst(models: seq<Loaded>, now: real, a: Loaded, b: Loaded)
    requires forall m <- Idle(models) :: m.lastUsed <= now && m.vram >= 0.0
    requires a in Idle(models) && b in Idle(models) && a.lastUsed <= b.lastUsed && a.vram >= b.vram
    ensures ByScore(Idle(models), now)(a, b)
  {
    var maxAge, maxVram := Divisors(Idle(models), now);
    ScoreMonotone(a, b, now, maxAge, maxVram);
  }

  lemma OldestIsDivisor(candidates: seq<Loaded>, now: real, k: nat)
    requires k < |candidates| && candidates[k].lastUsed < now
    requires forall m <- candidates :: candidates[k].lastUsed <= m.lastUsed
    ensures
      var ages := seq(|candidates|, i requires 0 <= i < |candidates| => now - candidates[i].lastUsed);
      OrOne(Greatest(ages)) == now - candidates[k].lastUsed
  {
    var ages := seq(|candidates|, i requires 0 <= i < |candidates| => now - candidates[i].lastUsed);
    GreatestIs(ages, k);
    var g :| 0 <= g < |ages| && ages[g] == Greatest(ages);
    assert candidates[g] in candidates;
  }

  lemma OldVersusNew(a: Loaded, b: Loaded, now: real, maxAge: real, maxVram: real)
    requires maxAge > 0.0 && maxVram > 0.0 && a.vram >= 0.0 && b.vram <= maxVram
    requires now - a.lastUsed == maxAge && b.lastUsed == now
    ensures Score(a, now, maxAge, maxVram) > Score(b, now, maxAge, maxVram)
  {
    assert (now - a.lastUsed) / maxAge == 1.0 && (now - b.lastUsed) / maxAge == 0.0;
    DivideMonotone(0.0, a.vram, maxVram);
    DivideMonotone(b.vram, maxVram, maxVram);
    assert maxVram / maxVram == 1.0;
  }

  /** Age outweighs size: the model unused for longest goes before any used just now, whatever their sizes. */
  lemma AgeOutweighsSize(models: seq<Loaded>, now: real, a: Loaded, b: Loaded)
    requires forall m <- Idle(models) :: m.lastUsed <= now && m.vram >= 0.0
    requires a in Idle(models) && b in Idle(models) && b.lastUsed == now && a.lastUsed < now
    requires forall m <- Idle(models) :: a.lastUsed <= m.lastUsed
    ensures !ByScore(Idle(models), now)(b, a)
  {
    var maxAge, maxVram := Divisors(Idle(models), now);
    var k :| 0 <= k < |Idle(models)| && Idle(models)[k] == a;
    OldestIsDivisor(Idle(models), now, k);
    hide Score, Idle;
    OldVersusNew(a, b, now, maxAge, maxVram);
  }

  lemma LargestIsDivisor(candidates: seq<Loaded>, k: nat)
    requires k < |candidates| && candidates[k].vram > 0.0
    requires forall m <- candidates :: m.vram <= candidates[k].vram
    ensures
      var sizes := seq(|candidates|, i requires 0 <= i < |candidates| => candidates[i].vram);
      OrOne(Greatest(sizes)) == candidates[k].vram
  {
    var sizes := seq(|candidates|, i requires 0 <= i < |candidates| => candidates[i].vram);
    GreatestIs(sizes, k);
    var g :| 0 <= g < |sizes| && sizes[g] == Greatest(sizes);
    assert candidates[g] in candidates;
  }

  lemma SameSign(d: real, p: real)
    requires p > 0.0
    ensures d >= 0.0 <==> d * p >= 0.0
  {
  }

  lemma TradeOff(x: real, y: real, x': real, y': real, a: real, v: real, lead: real, lack: real)
    requires a > 0.0 && v > 0.0 && lead == x - x' && lack == y' - y
    ensures x / a * 0.7 + y / v * 0.3 >= x' / a * 0.7 + y' / v * 0.3 <==> 7.0 * lead * v >= 3.0 * lack * a
  {
    var p, q, p', q' := x / a, y / v, x' / a, y' / v;
    assert p * a == x && q * v == y && p' * a == x' && q' * v == y';
    var d := 7.0 * (p - p') + 3.0 * (q - q');
    SameSign(d, a);
    SameSign(d * a, v);
    assert d * a == 7.0 * (x - x') + 3.0 * ((q - q') * a);
    assert (q - q') * a * v == (y - y') * a by {
      Reorder(q - q', a, v);
    }
    Distribute(7.0 * (x - x'), (q - q') * a, v);
  }

  lemma Reorder(q: real, a: real, v: real)
    ensures q * a * v == q * v * a
  {
  }

  lemma Distribute(x: real, y: real, v: real)
    ensures (x + 3.0 * y) * v == x * v + 3.0 * (y * v)
  {
  }

  /** The exact trade-off: a is unloaded before b, or as soon, if and only if 7 times its lead in age, measured
      by the largest age, makes up for 3 times its lack of size, measured by the largest size. */
  lemma ScoreTradesOff(models: seq<Loaded>, now: real, a: Loaded, b: Loaded, oldest: Loaded, largest: Loaded,
                       maxAge: real, maxVram: real)
    requires oldest in Idle(models) && now - oldest.lastUsed == maxAge > 0.0
    requires largest in Idle(models) && largest.vram == maxVram > 0.0
    requires forall m <- Idle(models) :: now - m.lastUsed <= maxAge && m.vram <= maxVram
    ensures ByScore(Idle(models), now)(a, b) <==>
      7.0 * (b.lastUsed - a.lastUsed) * maxVram >= 3.0 * (b.vram - a.vram) * maxAge
  {
    assert forall m <- Idle(models) :: oldest.lastUsed <= m.lastUsed;
    DivisorsAre(Idle(models), now, oldest, largest);
    hide *;
    Compares(Idle(models), now, a, b, maxAge, maxVram);
  }

  lemma DivisorsAre(candidates: seq<Loaded>, now: real, oldest: Loaded, largest: Loaded)
    requires oldest in candidates && largest in candidates && oldest.lastUsed < now && largest.vram > 0.0
    requires forall m <- candidates :: oldest.lastUsed <= m.lastUsed && m.vram <= largest.vram
    ensures now - oldest.lastUsed == OrOne(Greatest(seq(|candidates|, i requires 0 <= i < |candidates| => now - candidates[i].lastUsed)))
    ensures largest.vram == OrOne(Greatest(seq(|candidates|, i requires 0 <= i < |candidates| => candidates[i].vram)))
  {
    var k :| 0 <= k < |candidates| && candidates[k] == oldest;
    var l :| 0 <= l < |candidates| && candidates[l] == largest;
    OldestIsDivisor(candidates, now, k);
    LargestIsDivisor(candidates, l);
  }

  lemma Compares(candidates: seq<Loaded>, now: real, a: Loaded, b: Loaded, maxAge: real, maxVram: real)
    requires candidates != [] && maxAge > 0.0 && maxVram > 0.0
    requires maxAge == OrOne(Greatest(seq(|candidates|, i requires 0 <= i < |candidates| => now - candidates[i].lastUsed)))
    requires maxVram == OrOne(Greatest(seq(|candidates|, i requires 0 <= i < |candidates| => candidates[i].vram)))
    ensures ByScore(candidates, now)(a, b) <==>
      7.0 * (b.lastUsed - a.lastUsed) * maxVram >= 3.0 * (b.vram - a.vram) * maxAge
  {
    hide *;
    ScoreIs(candidates, now, a, b, maxAge, maxVram);
    TradeOff(now - a.lastUsed, a.vram, now - b.lastUsed, b.vram, maxAge, maxVram, b.lastUsed - a.lastUsed, b.vram - a.vram);
  }

  lemma ScoreIs(candidates: seq<Loaded>, now: real, a: Loaded, b: Loaded, maxAge: real, maxVram: real)
    requires candidates != [] && maxAge != 0.0 && maxVram != 0.0
    requires maxAge == OrOne(Greatest(seq(|candidates|, i requires 0 <= i < |candidates| => now - candidates[i].lastUsed)))
    requires maxVram == OrOne(Greatest(seq(|candidates|, i requires 0 <= i < |candidates| => candidates[i].vram)))
    ensures ByScore(candidates, now)(a, b) <==>
      (now - a.lastUsed) / maxAge * 0.7 + a.vram / maxVram * 0.3 >= (now - b.lastUsed) / maxAge * 0.7 + b.vram / maxVram * 0.3
  {
  }

  lemma {:induction false} IdleAre(models: seq<Loaded>, m: Loaded)
    ensures m in Idle(models) <==> m in models && !m.inUse
  {
    if models != [] {
      IdleAre(models[1..], m);
      assert models == [models[0]] + models[1..];
    }
  }

  /** What unloading a list of models frees. */
  lemma FreedByOneMore(models: seq<Loaded>, m: Loaded)
    ensures Sum([], Vram()) == 0.0 && Sum(models + [m], Vram()) == Sum(models, Vram()) + m.vram
  {
    assert (models + [m])[..|models|] == models;
  }

  datatype Verdict = Verdict(canLoad: bool, evict: seq<string>)

  method CanLoad(models: seq<Loaded>, available: real, safety: real, required: real, now: real) returns (v: Verdict)
    ensures required <= 0.0 ==> v == Verdict(false, [])
    ensures 0.0 < required <= available * safety ==> v == Verdict(true, [])
    ensures 0.0 < required && available * safety < required ==>
      var shortage := required - available * safety;
      var candidates := Candidates(models, now);
      if v.canLoad then
        && 0 < |v.evict| <= |candidates| && (forall i :: 0 <= i < |v.evict| ==> v.evict[i] == candidates[i].name)
        && Sum(candidates[..|v.evict|], Vram()) >= shortage && Sum(candidates[..|v.evict| - 1], Vram()) < shortage
      else v.evict == [] && Sum(candidates, Vram()) < shortage
  {
    var usable := available * safety;
    if required <= 0.0 {
      return Verdict(false, []);
    }
    if required <= usable {
      return Verdict(true, []);
    }
    var shortage := required - usable;
    var evictable := Candidates(models, now);
    var freed := 0.0;
    var names: seq<string> := [];
    var i: nat := 0;
    while i < |evictable|
      invariant 0 <= i <= |evictable|
      invariant freed == Sum(evictable[..i], Vram()) && names == Names(evictable[..i])
      invariant freed < shortage
    {
      assert evictable[..i + 1] == evictable[..i] + [evictable[i]];
      FreedByOneMore(evictable[..i], evictable[i]);
      freed := freed + evictable[i].vram;
      names := names + [evictable[i].name];
      assert names == Names(evictable[..i + 1]);
      i := i + 1;
      if freed >= shortage {
        break;
      }
    }
    if freed >= shortage {
      assert |names| == i;
      return Verdict(true, names);
    }
    assert evictable[..|evictable|] == evictable;
    return Verdict(false, []);
  }

  /** A plan unloads distinct idle models, highest scores first: every idle model left alone scores
      no higher than any model on the list. */
  lemma PlanIsOrdered(models: seq<Loaded>, now: real, k: nat)
    requires k <= |Candidates(models, now)|
    requires forall i, j :: 0 <= i < j < |models| ==> models[i].name != models[j].name
    ensures
      var candidates := Candidates(models, now);
      var plan := candidates[..k];
      && (forall m <- plan :: m in models && !m.inUse)
      && (forall i, j :: 0 <= i < j < k ==> plan[i].name != plan[j].name)
      && (forall i, j :: 0 <= i < k <= j < |candidates| ==> ByScore(Idle(models), now)(candidates[i], candidates[j]))
      && (forall m <- models :: !m.inUse ==> m in candidates)
  {
    var candidates := Candidates(models, now);
    ScoresOrdered(models, now);
    forall m ensures m in candidates <==> m in models && !m.inUse {
      IdleAre(models, m);
      assert m in candidates <==> m in multiset(candidates);
      assert m in Idle(models) <==> m in multiset(Idle(models));
    }
    IdleDistinct(models);
    forall i, j | 0 <= i < j < k ensures candidates[i].name != candidates[j].name {
      assert candidates[i] in models && candidates[j] in models;
      if candidates[i] == candidates[j] {
        TwiceInMultiset(candidates, i, j);
      }
    }
  }

  lemma TwiceInMultiset<T>(xs: seq<T>, i: nat, j: nat)
    requires i < j < |xs| && xs[i] == xs[j]
    ensures multiset(xs)[xs[i]] >= 2
  {
    assert xs == xs[..i] + [xs[i]] + xs[i + 1..j] + [xs[j]] + xs[j + 1..];
  }

  lemma {:induction false} IdleDistinct(models: seq<Loaded>)
    requires forall i, j :: 0 <= i < j < |models| ==> models[i].name != models[j].name
    ensures forall m :: multiset(Idle(models))[m] <= 1
  {
    if models != [] {
      var rest := models[1..];
      IdleDistinct(rest);
      IdleAre(rest, models[0]);
      assert models[0] !in rest;
      assert multiset(Idle(models)) == (if models[0].inUse then multiset{} else multiset{models[0]}) + multiset(Idle(rest));
    }
  }

  /** A refusal is never wrong: no choice of idle models makes up the shortage. */
  lemma RefusalIsRight(models: seq<Loaded>, now: real, shortage: real, chosen: seq<Loaded>)
    requires forall m <- models :: m.vram >= 0.0
    requires Sum(Candidates(models, now), Vram()) < shortage
    requires multiset(chosen) <= multiset(Idle(models))
    ensures Sum(chosen, Vram()) < shortage
  {
    ScoresOrdered(models, now);
    forall m | m in Candidates(models, now) ensures Vram()(m) >= 0.0 {
      assert m in multiset(Idle(models));
      IdleAre(models, m);
    }
    PartWeighsLess(chosen, Candidates(models, now), Vram());
  }
}
