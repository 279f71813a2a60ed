/** Choosing nodes for a number of GPUs (ClusterManager.find_best_nodes). */
module NodeSelection {
  import opened Sorting

  datatype Gpu = Gpu(total: int, used: int, utilization: real)

  datatype Node = Node(id: string, healthy: bool, labels: map<string, string>, gpus: seq<Gpu>, currentLoad: real)

  /** More than a tenth of the memory is free. */
  predicate HasRoom(g: Gpu) {
    g.total > 0 && (g.total - g.used) as real / g.total as real > 0.1
  }

  function Available(gpus: seq<Gpu>): nat {
    if gpus == [] then 0 else Available(gpus[..|gpus| - 1]) + (if HasRoom(gpus[|gpus| - 1]) then 1 else 0)
  }

  function SumUsed(gpus: seq<Gpu>): int {
    if gpus == [] then 0 else SumUsed(gpus[..|gpus| - 1]) + gpus[|gpus| - 1].used
  }

  function SumTotal(gpus: seq<Gpu>): int {
    if gpus == [] then 0 else SumTotal(gpus[..|gpus| - 1]) + gpus[|gpus| - 1].total
  }

  function SumUtilization(gpus: seq<Gpu>): real {
    if gpus == [] then 0.0 else SumUtilization(gpus[..|gpus| - 1]) + gpus[|gpus| - 1].utilization
  }

  function Clamp(x: real): real {
    if x < 0.0 then 0.0 else if x > 1.0 then 1.0 else x
  }

  /** _compute_load. */
  function Load(n: Node): real {
    if n.gpus == [] then n.currentLoad
    else
      var total := if SumTotal(n.gpus) == 0 then 1 else SumTotal(n.gpus);
      Clamp(0.6 * (SumUsed(n.gpus) as real / total as real)
            + 0.4 * (SumUtilization(n.gpus) / |n.gpus| as real))
  }

  predicate Eligible(n: Node, labels: map<string, string>) {
    && n.healthy
    && (forall k <- labels :: k in n.labels && n.labels[k] == labels[k])
    && (exists g <- n.gpus :: HasRoom(g))
  }

  function EligibleOf(nodes: seq<Node>, labels: map<string, string>): seq<Node> {
    if nodes == [] then []
    else (if Eligible(nodes[0], labels) then [nodes[0]] else []) + EligibleOf(nodes[1..], labels)
  }

  /** More available GPUs first; among equals, lower load first. */
  predicate Better(a: Node, b: Node) {
    Available(a.gpus) > Available(b.gpus) ||
    (Available(a.gpus) == Available(b.gpus) && Load(a) <= Load(b))
  }

  function Gpus(): Node -> real {
    (n: Node) => Available(n.gpus) as real
  }

  lemma RoomMeans(g: Gpu)
    ensures HasRoom(g) <==> g.total > 0 && 10 * (g.total - g.used) > g.total
  {
    if g.total > 0 {
      var free, total := (g.total - g.used) as real, g.total as real;
      TenthOf(free, total);
      assert 10.0 * free > total <==> 10 * (g.total - g.used) > g.total;
    }
  }

  lemma TenthOf(free: real, total: real)
    requires total > 0.0
    ensures free / total > 0.1 <==> 10.0 * free > total
  {
    var share := free / total;
    assert share * total == free;
  }

  lemma {:induction false} AvailableHaveRoom(gpus: seq<Gpu>)
    ensures Available(gpus) == |set i: nat | i < |gpus| && HasRoom(gpus[i])|
  {
    hide HasRoom;
    if gpus != [] {
      var n: nat := |gpus| - 1;
      var init := gpus[..n];
      AvailableHaveRoom(init);
      var before := set i: nat | i < |init| && HasRoom(init[i]);
      hide Available;
      assert (set i: nat | i < |gpus| && HasRoom(gpus[i])) == before + (if HasRoom(gpus[n]) then {n} else {});
    }
  }

  /** The positions of the GPUs with more than a tenth of their memory free. */
  function RoomIn(gpus: seq<Gpu>): set<nat> {
    set i: nat | i < |gpus| && gpus[i].total > 0 && 10 * (gpus[i].total - gpus[i].used) > gpus[i].total
  }

  /** The count is a number of positions. */
  lemma AvailableIs(gpus: seq<Gpu>)
    ensures Available(gpus) == |RoomIn(gpus)|
  {
    AvailableHaveRoom(gpus);
    hide Available, HasRoom;
    var now := RoomIn(gpus);
    forall i: nat | i < |gpus| ensures HasRoom(gpus[i]) <==> i in now {
      RoomMeans(gpus[i]);
    }
    assert now == set i: nat | i < |gpus| && HasRoom(gpus[i]);
  }

  method CountAvailable(gpus: seq<Gpu>) returns (count: nat)
    ensures count == Available(gpus) == |RoomIn(gpus)|
  {
    count := 0;
    for i := 0 to |gpus|
      invariant count == Available(gpus[..i])
    {
      assert gpus[..i + 1][..i] == gpus[..i];
      if HasRoom(gpus[i]) {
        count := count + 1;
      }
    }
    assert gpus[..|gpus|] == gpus;
    AvailableIs(gpus);
  }

  function Tagged(i: nat, js: set<nat>): set<(nat, nat)> {
    set j <- js :: (i, j)
  }

  lemma {:induction false} PairUp(i: nat, js: set<nat>)
    ensures |Tagged(i, js)| == |js|
    decreases |js|
  {
    if js == {} {
      assert Tagged(i, js) == {};
    } else {
      var x: nat :| x in js;
      var rest := js - {x};
      PairUp(i, rest);
      assert Tagged(i, js) == Tagged(i, rest) + {(i, x)};
      assert (i, x) !in Tagged(i, rest);
    }
  }

  /** Those GPUs of a list of nodes, by node and position. */
  function Roomy(nodes: seq<Node>): set<(nat, nat)> {
    set i: nat, j: nat | i < |nodes| && j < |nodes[i].gpus| && j in RoomIn(nodes[i].gpus) :: (i, j)
  }

  lemma RoomyMore(nodes: seq<Node>, i: nat)
    requires i + 1 == |nodes|
    ensures |Roomy(nodes)| == |Roomy(nodes[..i])| + |RoomIn(nodes[i].gpus)|
  {
    var init, pairs := nodes[..i], Tagged(i, RoomIn(nodes[i].gpus));
    PairUp(i, RoomIn(nodes[i].gpus));
    assert Roomy(nodes) == Roomy(init) + pairs by {
      forall p ensures p in Roomy(nodes) <==> p in Roomy(init) + pairs {
        assert p.0 < i ==> nodes[p.0] == init[p.0];
      }
    }
    assert Roomy(init) !! pairs;
    assert |Roomy(init) + pairs| == |Roomy(init)| + |pairs|;
  }

  /** What a list of nodes weighs is the number of such GPUs. */
  lemma {:induction false} WeightIsCount(nodes: seq<Node>)
    ensures Sum(nodes, Gpus()) == |Roomy(nodes)| as real
  {
    if nodes == [] {
      assert Roomy(nodes) == {};
    } else {
      var n: nat := |nodes| - 1;
      WeightIsCount(nodes[..n]);
      RoomyMore(nodes, n);
      AvailableIs(nodes[n].gpus);
      hide Roomy, Available;
    }
  }

  lemma {:induction false} EligibleHasGpu(nodes: seq<Node>, labels: map<string, string>)
    ensures forall n <- EligibleOf(nodes, labels) :: n in nodes && Eligible(n, labels) && Available(n.gpus) > 0
  {
    if nodes != [] {
      EligibleHasGpu(nodes[1..], labels);
      if Eligible(nodes[0], labels) {
        var g :| g in nodes[0].gpus && HasRoom(g);
        AvailablePositive(nodes[0].gpus, g);
      }
    }
  }

  /** Exactly the healthy nodes that carry the labels and have a GPU with more than a tenth of its memory
      free, as often as they are listed. */
  lemma {:induction false} EligibleAre(nodes: seq<Node>, labels: map<string, string>, n: Node)
    ensures multiset(EligibleOf(nodes, labels))[n] ==
      if n.healthy && (forall k <- labels :: k in n.labels && n.labels[k] == labels[k])
         && (exists g <- n.gpus :: g.total > 0 && 10 * (g.total - g.used) > g.total)
      then multiset(nodes)[n] else 0
  {
    if nodes != [] {
      var rest := nodes[1..];
      EligibleAre(rest, labels, n);
      EligibleMeans(n, labels);
      var tail := EligibleOf(rest, labels);
      assert EligibleOf(nodes, labels) == (if Eligible(nodes[0], labels) then [nodes[0]] else []) + tail;
      hide Eligible, EligibleOf;
      assert nodes == [nodes[0]] + rest;
      assert multiset(nodes) == multiset{nodes[0]} + multiset(rest);
      assert multiset([nodes[0]] + tail) == multiset{nodes[0]} + multiset(tail);
      assert [] + tail == tail;
    }
  }

  lemma EligibleMeans(n: Node, labels: map<string, string>)
    ensures Eligible(n, labels) <==>
      && n.healthy && (forall k <- labels :: k in n.labels && n.labels[k] == labels[k])
      && (exists g <- n.gpus :: g.total > 0 && 10 * (g.total - g.used) > g.total)
  {
    forall g ensures HasRoom(g) <==> g.total > 0 && 10 * (g.total - g.used) > g.total {
      RoomMeans(g);
    }
  }

  lemma {:induction false} AvailablePositive(gpus: seq<Gpu>, g: Gpu)
    requires g in gpus && HasRoom(g)
    ensures Available(gpus) > 0
  {
    var last, init := gpus[|gpus| - 1], gpus[..|gpus| - 1];
    assert gpus == init + [last];
    if g != last {
      AvailablePositive(init, g);
    }
  }

  /** The nodes in sorted order. */
  function Ranked(nodes: seq<Node>, labels: map<string, string>): seq<Node> {
    Sort(EligibleOf(nodes, labels), Better)
  }

  lemma RankedAre(nodes: seq<Node>, labels: map<string, string>)
    ensures
      var ranked := Ranked(nodes, labels);
      && multiset(ranked) == multiset(EligibleOf(nodes, labels)) && Descending(ranked, Gpus())
      && (forall n <- ranked :: Available(n.gpus) > 0)
  {
    SortSorts(EligibleOf(nodes, labels), Better);
    EligibleHasGpu(nodes, labels);
    forall n | n in Ranked(nodes, labels) ensures Available(n.gpus) > 0 {
      assert n in multiset(Ranked(nodes, labels));
    }
    BestFirst(Ranked(nodes, labels));
  }

  /** Whatever is selected is listed, healthy, carries the labels and has a GPU with more than a tenth of
      its memory free. */
  lemma RankedEligible(nodes: seq<Node>, labels: map<string, string>)
    ensures forall n <- Ranked(nodes, labels) ::
      && n in nodes && n.healthy && (forall k <- labels :: k in n.labels && n.labels[k] == labels[k])
      && (exists g <- n.gpus :: g.total > 0 && 10 * (g.total - g.used) > g.total)
  {
    SortSorts(EligibleOf(nodes, labels), Better);
    hide EligibleOf;
    forall n | n in Ranked(nodes, labels)
      ensures
        && n in nodes && n.healthy && (forall k <- labels :: k in n.labels && n.labels[k] == labels[k])
        && (exists g <- n.gpus :: g.total > 0 && 10 * (g.total - g.used) > g.total)
    {
      assert n in multiset(EligibleOf(nodes, labels));
      EligibleAre(nodes, labels, n);
    }
  }

  // ---------------------------------------------------------------- the load

  /** What one GPU of a node of n GPUs of this size adds to the load. */
  function Part(size: real, n: real): Gpu -> real
    requires size > 0.0 && n > 0.0
  {
    (g: Gpu) => (0.6 * (g.used as real / size) + 0.4 * g.utilization) / n
  }

  function Times(k: nat, size: int): int {
    k * size
  }

  lemma OneMore(k: nat, size: int)
    ensures Times(k + 1, size) == Times(k, size) + size && Times(0, size) == 0
  {
  }

  lemma {:induction false} TimesReal(k: nat, size: int)
    requires size > 0
    ensures Times(k, size) as real == k as real * size as real && (k > 0 ==> Times(k, size) > 0)
  {
    OneMore(if k > 0 then k - 1 else 0, size);
    hide Times;
    if k > 0 {
      TimesReal(k - 1, size);
    }
  }

  lemma {:induction false} SumTotalIs(gpus: seq<Gpu>, size: int)
    requires forall g <- gpus :: g.total == size
    ensures SumTotal(gpus) == Times(|gpus|, size)
  {
    OneMore(if gpus != [] then |gpus| - 1 else 0, size);
    hide Times;
    if gpus != [] {
      var init, last := gpus[..|gpus| - 1], gpus[|gpus| - 1];
      assert last in gpus && forall g <- init :: g in gpus;
      SumTotalIs(init, size);
    }
  }

  lemma {:induction false} PartsAddUp(gpus: seq<Gpu>, size: real, n: real, total: real)
    requires size > 0.0 && n > 0.0 && total == n * size && total > 0.0
    ensures Sum(gpus, Part(size, n)) == 0.6 * (SumUsed(gpus) as real / total) + 0.4 * (SumUtilization(gpus) / n)
  {
    if gpus == [] {
      assert 0.0 / total == 0.0 && 0.0 / n == 0.0;
    } else {
      var init, last := gpus[..|gpus| - 1], gpus[|gpus| - 1];
      PartsAddUp(init, size, n, total);
      Spread(SumUsed(init) as real, last.used as real, total);
      Spread(SumUtilization(init), last.utilization, n);
      PartIs(last.used as real, last.utilization, size, n);
    }
  }

  lemma Spread(a: real, b: real, d: real)
    requires d > 0.0
    ensures (a + b) / d == a / d + b / d
  {
  }

  lemma PartIs(used: real, utilization: real, size: real, n: real)
    requires size > 0.0 && n > 0.0
    ensures (0.6 * (used / size) + 0.4 * utilization) / n == 0.6 * (used / (n * size)) + 0.4 * (utilization / n)
  {
    var x := used / size;
    assert x * size == used;
    assert (x / n) * (n * size) == used;
    assert used / (n * size) == x / n;
  }

  /** On a node with GPUs of one size, none of them overfull or overbusy, the load is the mean over its
      GPUs of 0.6 times the used share of the memory and 0.4 times the utilization. */
  lemma LoadIsMean(n: Node, size: int)
    requires n.gpus != [] && size > 0
    requires forall g <- n.gpus :: g.total == size && 0 <= g.used <= size && 0.0 <= g.utilization <= 1.0
    ensures Load(n) == Sum(n.gpus, Part(size as real, |n.gpus| as real))
  {
    var gpus, total := n.gpus, Times(|n.gpus|, size);
    TimesReal(|gpus|, size);
    LoadIsShares(n, size);
    hide *;
    PartsAddUp(gpus, size as real, |gpus| as real, total as real);
  }

  lemma LoadIsShares(n: Node, size: int)
    requires n.gpus != [] && size > 0
    requires forall g <- n.gpus :: g.total == size && 0 <= g.used <= size && 0.0 <= g.utilization <= 1.0
    ensures Times(|n.gpus|, size) > 0
    ensures Load(n) == 0.6 * (SumUsed(n.gpus) as real / Times(|n.gpus|, size) as real) + 0.4 * (SumUtilization(n.gpus) / |n.gpus| as real)
  {
    var gpus, total := n.gpus, Times(|n.gpus|, size);
    SumTotalIs(gpus, size);
    SumsInRange(gpus, size);
    TimesReal(|gpus|, size);
    hide *;
    ShareInRange(SumUsed(gpus) as real, total as real);
    ShareInRange(SumUtilization(gpus), |gpus| as real);
    NoClamp(SumUsed(gpus) as real / total as real, SumUtilization(gpus) / |gpus| as real);
    LoadOf(n, total);
  }

  lemma LoadOf(n: Node, total: int)
    requires n.gpus != [] && SumTotal(n.gpus) == total > 0
    ensures Load(n) == Clamp(0.6 * (SumUsed(n.gpus) as real / total as real) + 0.4 * (SumUtilization(n.gpus) / |n.gpus| as real))
  {
    hide Clamp, SumTotal, SumUsed, SumUtilization;
  }

  lemma NoClamp(x: real, y: real)
    requires 0.0 <= x <= 1.0 && 0.0 <= y <= 1.0
    ensures Clamp(0.6 * x + 0.4 * y) == 0.6 * x + 0.4 * y
  {
  }

  lemma ShareInRange(a: real, b: real)
    requires b > 0.0 && 0.0 <= a <= b
    ensures 0.0 <= a / b <= 1.0
  {
  }

  lemma {:induction false} SumsInRange(gpus: seq<Gpu>, size: int)
    requires forall g <- gpus :: 0 <= g.used <= size && 0.0 <= g.utilization <= 1.0
    ensures 0 <= SumUsed(gpus) <= Times(|gpus|, size) && 0.0 <= SumUtilization(gpus) <= |gpus| as real
  {
    OneMore(if gpus != [] then |gpus| - 1 else 0, size);
    hide Times;
    if gpus != [] {
      var init, last := gpus[..|gpus| - 1], gpus[|gpus| - 1];
      assert last in gpus && forall g <- init :: g in gpus;
      SumsInRange(init, size);
    }
  }

  lemma BestFirst(ranked: seq<Node>)
    requires IsSorted(ranked, Better)
    ensures Descending(ranked, Gpus())
  {
    hide Available, Load;
    forall i, j | 0 <= i < j < |ranked| ensures Gpus()(ranked[i]) >= Gpus()(ranked[j]) {
      assert Better(ranked[i], ranked[j]);
    }
  }

  /** The shortest prefix of the ranked nodes that has the GPUs, or all of them. */
  ghost predicate ShortestPrefix(ranked: seq<Node>, required: int, k: nat) {
    && k <= |ranked|
    && (k < |ranked| ==> Sum(ranked[..k], Gpus()) >= required as real)
    && (forall j :: 0 <= j < k ==> Sum(ranked[..j], Gpus()) < required as real)
  }

  method FindBestNodes(nodes: seq<Node>, required: int, labels: map<string, string>) returns (selected: seq<Node>)
    ensures selected <= Ranked(nodes, labels) && ShortestPrefix(Ranked(nodes, labels), required, |selected|)
    ensures required <= 0 ==> selected == []
  {
    var sorted := Ranked(nodes, labels);
    RankedAre(nodes, labels);
    hide Ranked, Descending, EligibleOf, Available, Better, IsSorted, HasRoom, Load, RoomIn;
    assert Sum(sorted[..0], Gpus()) == 0.0;
    hide Sum;
    selected := [];
    var remaining := required;
    for i := 0 to |sorted|
      invariant selected == sorted[..i] && i <= |sorted|
      invariant remaining as real == required as real - Sum(sorted[..i], Gpus())
      invariant forall j :: 0 <= j < i ==> Sum(sorted[..j], Gpus()) < required as real
    {
      if remaining <= 0 {
        break;
      }
      var available := CountAvailable(sorted[i].gpus);
      SumOfFirst(sorted, i, Gpus());
      if available > 0 {
        selected := selected + [sorted[i]];
        remaining := remaining - available;
      }
    }
    assert |selected| == |sorted| ==> selected == sorted;
  }

  /** If the eligible nodes have the GPUs at all, the selection has them with the fewest nodes of
      any selection that does; otherwise it is every eligible node. */
  lemma SelectionIsOptimal(nodes: seq<Node>, required: int, labels: map<string, string>, selected: seq<Node>, chosen: seq<Node>)
    requires selected <= Ranked(nodes, labels) && ShortestPrefix(Ranked(nodes, labels), required, |selected|)
    requires multiset(chosen) <= multiset(EligibleOf(nodes, labels))
    ensures
      var eligible := EligibleOf(nodes, labels);
      if |Roomy(eligible)| >= required then
        |Roomy(selected)| >= required && (|Roomy(chosen)| >= required ==> |selected| <= |chosen|)
      else multiset(selected) == multiset(eligible)
  {
    WeightIsCount(EligibleOf(nodes, labels));
    WeightIsCount(selected);
    WeightIsCount(chosen);
    hide Sum, EligibleOf, Ranked, Available, Descending, Gpus, Roomy;
    var eligible, ranked := EligibleOf(nodes, labels), Ranked(nodes, labels);
    var k := |selected|;
    RankedAre(nodes, labels);
    assert forall n <- eligible :: n in multiset(ranked);
    NoNegative(eligible);
    assert ranked[..|ranked|] == ranked && selected == ranked[..k];
    SameSum(eligible, ranked, Gpus());
    if Sum(eligible, Gpus()) >= required as real {
      FirstWeighMost(chosen, ranked, Gpus());
    } else if k < |ranked| {
      PrefixWeighsLess(ranked, k);
    }
  }

  /** The selection prefers GPUs, and among equals lower load: no eligible node left out has more GPUs
      than a selected one, nor as many at a lower load. */
  lemma SelectedAreBetter(nodes: seq<Node>, labels: map<string, string>, k: nat, i: nat, j: nat)
    requires i < k <= j < |Ranked(nodes, labels)|
    ensures
      var inside, outside := Ranked(nodes, labels)[i], Ranked(nodes, labels)[j];
      && Available(inside.gpus) >= Available(outside.gpus)
      && (Available(inside.gpus) == Available(outside.gpus) ==> Load(inside) <= Load(outside))
  {
    SortSorts(EligibleOf(nodes, labels), Better);
    hide Load, Available, EligibleOf, Sort;
    assert Better(Ranked(nodes, labels)[i], Ranked(nodes, labels)[j]);
  }

  lemma NoNegative(nodes: seq<Node>)
    ensures forall n <- nodes :: Gpus()(n) >= 0.0
  {
  }

  lemma PrefixWeighsLess(ranked: seq<Node>, k: nat)
    requires k <= |ranked|
    ensures Sum(ranked[..k], Gpus()) <= Sum(ranked, Gpus())
  {
    assert ranked == ranked[..k] + ranked[k..];
    PartWeighsLess(ranked[..k], ranked, Gpus());
  }
}
