/** Promotion of replicas when a node fails (ReplicaManager and FailoverController). */
module Failover {
  import opened Wrappers

  type NodeId = string
  type Model = string

  /** Where a model lives. An empty primary means that there is none. */
  datatype Placement = Placement(primary: NodeId, secondaries: seq<NodeId>) {
    function NodeSet(): set<NodeId> {
      (if primary == "" then {} else {primary}) + set n | n in secondaries
    }

    ghost predicate Good() {
      && primary !in secondaries && "" !in secondaries
      && forall i, j :: 0 <= i < j < |secondaries| ==> secondaries[i] != secondaries[j]
    }
  }

  datatype Node = Node(healthy: bool, failures: int, loadedModels: seq<Model>, role: string)

  type Index = map<Model, Placement>
  type Nodes = map<NodeId, Node>

  // ---------------------------------------------------------------- one model

  /** list.remove: drop the first occurrence. */
  function RemoveFirst(xs: seq<NodeId>, x: NodeId): seq<NodeId> {
    if xs == [] then []
    else if xs[0] == x then xs[1..]
    else [xs[0]] + RemoveFirst(xs[1..], x)
  }

  /** The placement after set_primary_node. */
  function Promoted(p: Placement, n: NodeId): Placement {
    var grown := if p.primary != "" && p.primary != n && p.primary !in p.secondaries
                 then p.secondaries + [p.primary] else p.secondaries;
    Placement(n, if n in grown then RemoveFirst(grown, n) else grown)
  }

  function WithRole(nodes: Nodes, n: NodeId, role: string): Nodes {
    if n in nodes then nodes[n := nodes[n].(role := role)] else nodes
  }

  function WithSecondaries(nodes: Nodes, secondaries: seq<NodeId>): Nodes {
    if secondaries == [] then nodes
    else WithRole(WithSecondaries(nodes, secondaries[..|secondaries| - 1]), secondaries[|secondaries| - 1], "secondary")
  }

  predicate Candidate(nodes: Nodes, n: NodeId) {
    n in nodes && nodes[n].healthy
  }

  /** n is the first of the healthy secondaries with the fewest consecutive failures. */
  ghost predicate Best(nodes: Nodes, secondaries: seq<NodeId>, best: Option<NodeId>) {
    match best
    case None => forall n <- secondaries :: !Candidate(nodes, n)
    case Some(b) =>
      exists k :: 0 <= k < |secondaries| && secondaries[k] == b && Candidate(nodes, b)
        && (forall j :: 0 <= j < |secondaries| && Candidate(nodes, secondaries[j]) ==>
              nodes[b].failures <= nodes[secondaries[j]].failures
              && (j < k ==> nodes[b].failures < nodes[secondaries[j]].failures))
  }

  /** The nodes differ at most in their roles. */
  ghost predicate SameHealth(a: Nodes, b: Nodes) {
    a.Keys == b.Keys && forall n <- a :: a[n].(role := "") == b[n].(role := "")
  }

  /** After set_primary_node's loop the listed nodes are secondaries; nothing else changes. */
  lemma {:induction false} RolesMean(nodes: Nodes, secondaries: seq<NodeId>)
    ensures
      var after := WithSecondaries(nodes, secondaries);
      && after.Keys == nodes.Keys
      && forall x <- nodes :: after[x] == if x in secondaries then nodes[x].(role := "secondary") else nodes[x]
  {
    if secondaries != [] {
      var init, last := secondaries[..|secondaries| - 1], secondaries[|secondaries| - 1];
      assert secondaries == init + [last];
      RolesMean(nodes, init);
      assert (WithRole(WithSecondaries(nodes, init), last, "secondary")).Keys == nodes.Keys;
    }
  }

  class ReplicaManager {
    var index: Index
    var nodes: Nodes

    method SetPrimaryNode(model: Model, n: NodeId) returns (ok: bool)
      modifies this
      ensures ok == (model in old(index))
      ensures !ok ==> index == old(index) && nodes == old(nodes)
      ensures ok ==> index == old(index)[model := Promoted(old(index)[model], n)]
      ensures ok ==> nodes == WithSecondaries(WithRole(old(nodes), n, "primary"), index[model].secondaries)
      ensures ok ==> nodes.Keys == old(nodes).Keys && forall x <- nodes ::
        nodes[x] == old(nodes)[x].(
          role := if x in index[model].secondaries then "secondary" else if x == n then "primary" else old(nodes)[x].role)
      ensures SameHealth(old(nodes), nodes)
    {
      if model !in index {
        return false;
      }
      var p := index[model];
      var secondaries := p.secondaries;
      if p.primary != "" && p.primary != n {
        if p.primary !in secondaries {
          secondaries := secondaries + [p.primary];
        }
      }
      if n in secondaries {
        secondaries := RemoveFirst(secondaries, n);
      }
      RolesMean(WithRole(nodes, n, "primary"), secondaries);
      nodes := WithRole(nodes, n, "primary");
      SetSecondaryRoles(secondaries);
      index := index[model := Placement(n, secondaries)];
      return true;
    }

    method SetSecondaryRoles(secondaries: seq<NodeId>)
      modifies this`nodes
      ensures nodes == WithSecondaries(old(nodes), secondaries) && SameHealth(old(nodes), nodes)
    {
      for i := 0 to |secondaries|
        invariant nodes == WithSecondaries(old(nodes), secondaries[..i])
        invariant SameHealth(old(nodes), nodes)
      {
        assert secondaries[..i + 1][..i] == secondaries[..i];
        nodes := WithRole(nodes, secondaries[i], "secondary");
      }
      assert secondaries[..|secondaries|] == secondaries;
    }

    method ElectNewPrimary(model: Model) returns (elected: Option<NodeId>)
      modifies this
      ensures model !in old(index) ==> elected == None
      ensures elected == None ==> index == old(index) && nodes == old(nodes)
      ensures model in old(index) && "" !in old(index)[model].secondaries ==>
        Best(old(nodes), old(index)[model].secondaries, elected)
        && (elected.Some? <==>
              exists n <- old(index)[model].secondaries :: n in old(nodes) && old(nodes)[n].healthy)
      ensures elected.Some? && model in old(index) ==>
        && elected.value in old(nodes) && old(nodes)[elected.value].healthy
        && (forall n <- old(index)[model].secondaries :: n in old(nodes) && old(nodes)[n].healthy ==>
              old(nodes)[elected.value].failures <= old(nodes)[n].failures)
        && exists k :: 0 <= k < |old(index)[model].secondaries|
             && old(index)[model].secondaries[k] == elected.value
             && forall j :: 0 <= j < k && old(index)[model].secondaries[j] in old(nodes)
                            && old(nodes)[old(index)[model].secondaries[j]].healthy ==>
                  old(nodes)[elected.value].failures < old(nodes)[old(index)[model].secondaries[j]].failures
      ensures elected.Some? ==> model in old(index) && index == old(index)[model := Promoted(old(index)[model], elected.value)]
      ensures SameHealth(old(nodes), nodes)
    {
      if model !in index {
        return None;
      }
      var secondaries := index[model].secondaries;
      var best: Option<NodeId> := None;
      ghost var at := 0;
      for i := 0 to |secondaries|
        invariant best.None? ==> forall j :: 0 <= j < i ==> !Candidate(nodes, secondaries[j])
        invariant best.Some? ==> 0 <= at < i && secondaries[at] == best.value && Candidate(nodes, best.value)
        invariant best.Some? ==> forall j :: 0 <= j < i && Candidate(nodes, secondaries[j]) ==>
          nodes[best.value].failures <= nodes[secondaries[j]].failures
          && (j < at ==> nodes[best.value].failures < nodes[secondaries[j]].failures)
      {
        var id := secondaries[i];
        if id in nodes && nodes[id].healthy {
          if best.None? || nodes[id].failures < nodes[best.value].failures {
            best, at := Some(id), i;
          }
        }
      }
      // an empty id would read as no candidate
      if best.Some? && best.value != "" {
        var _ := SetPrimaryNode(model, best.value);
        return best;
      }
      return None;
    }
  }

  // ---------------------------------------------------------------- the controller

  datatype Event = Event(source: NodeId, target: Option<NodeId>, targets: map<Model, NodeId>, models: seq<Model>)

  class FailoverController {
    const manager: ReplicaManager
    var inProgress: bool
    var events: seq<Event>

    constructor (manager: ReplicaManager)
      ensures this.manager == manager && !inProgress && events == []
    {
      this.manager, inProgress, events := manager, false, [];
    }

    /** _failover_model; copying the model to its new primary does not move any replica. */
    method FailoverModel(model: Model) returns (target: Option<NodeId>)
      modifies manager
      ensures target == None ==> manager.index == old(manager.index)
      ensures target.Some? ==>
        && model in old(manager.index)
        && manager.index == old(manager.index)[model := Promoted(Promoted(old(manager.index)[model], target.value), target.value)]
      ensures model in old(manager.index) && "" !in old(manager.index)[model].secondaries ==>
        Best(old(manager.nodes), old(manager.index)[model].secondaries, target)
      ensures SameHealth(old(manager.nodes), manager.nodes)
    {
      hide Best, Promoted, WithSecondaries, WithRole;
      var elected := manager.ElectNewPrimary(model);
      if elected.None? {
        return None;
      }
      var ok := manager.SetPrimaryNode(model, elected.value);
      return if ok then elected else None;
    }

    method InitiateFailover(failed: NodeId) returns (ok: bool)
      modifies this, manager
      ensures old(inProgress) ==> !ok && inProgress && events == old(events) && manager.index == old(manager.index)
      ensures !old(inProgress) ==> !inProgress
      ensures !old(inProgress) && !ok ==> events == old(events) && manager.index == old(manager.index)
      ensures ok <==>
        && !old(inProgress) && failed in old(manager.nodes)
        && (old(manager.nodes)[failed].role == "primary" || old(manager.nodes)[failed].loadedModels != [])
      ensures ok && DistinctModels(old(manager.nodes)[failed].loadedModels) && AllGood(old(manager.index)) ==>
        && |events| == |old(events)| + 1 && events[..|old(events)|] == old(events)
        && events[|old(events)|].source == failed
        && FailedOver(old(manager.index), old(manager.nodes), old(manager.nodes)[failed].loadedModels,
                      manager.index, events[|old(events)|].targets)
    {
      if inProgress {
        return false;
      }
      inProgress := true;
      if failed !in manager.nodes {
        inProgress := false;
        return false;
      }
      var models := manager.nodes[failed].loadedModels;
      var isPrimary := manager.nodes[failed].role == "primary";
      if !isPrimary && |models| == 0 {
        inProgress := false;
        return false;
      }
      var event := Event(failed, None, map[], models);
      for i := 0 to |models|
        invariant SameHealth(old(manager.nodes), manager.nodes)
        invariant event.source == failed && events == old(events)
        invariant DistinctModels(models) && AllGood(old(manager.index)) ==>
          FailedOver(old(manager.index), old(manager.nodes), models[..i], manager.index, event.targets)
      {
        label L:
        var target := FailoverModel(models[i]);
        ghost var before := event.targets;
        if target.Some? {
          event := event.(target := target, targets := event.targets[models[i] := target.value]);
        }
        if DistinctModels(models) && AllGood(old(manager.index)) {
          OneMoreModel(old(manager.index), old(manager.nodes), models, i, old@L(manager.index), before,
                       old@L(manager.nodes), target, manager.index, event.targets);
        }
      }
      assert models[..|models|] == models;
      events := events + [event];
      inProgress := false;
      return true;
    }
  }

  ghost predicate DistinctModels(models: seq<Model>) {
    forall i, j :: 0 <= i < j < |models| ==> models[i] != models[j]
  }

  ghost predicate AllGood(index: Index) {
    forall m <- index :: index[m].Good()
  }

  /** One model after failover: promoted to a best healthy secondary, recorded as its target; or,
      without one, left alone and not recorded. */
  ghost predicate ModelFailedOver(was: Placement, nodes: Nodes, now: Placement, recorded: Option<NodeId>) {
    Best(nodes, was.secondaries, recorded) && now == if recorded.None? then was else Promoted(was, recorded.value)
  }

  function Lookup(targets: map<Model, NodeId>, m: Model): Option<NodeId> {
    if m in targets then Some(targets[m]) else None
  }

  /** The models of the list have failed over, the others are where they were. */
  ghost predicate FailedOver(was: Index, nodes: Nodes, models: seq<Model>, now: Index, targets: map<Model, NodeId>) {
    && now.Keys == was.Keys
    && (forall m <- was :: if m in models then ModelFailedOver(was[m], nodes, now[m], Lookup(targets, m)) else now[m] == was[m])
    && (forall m <- targets :: m in models && m in was)
  }

  lemma {:induction false} RemoveFirstOf(xs: seq<NodeId>, x: NodeId)
    requires x in xs && forall i, j :: 0 <= i < j < |xs| ==> xs[i] != xs[j]
    ensures var ys := RemoveFirst(xs, x);
      && (forall y :: y in ys <==> y in xs && y != x)
      && (forall i, j :: 0 <= i < j < |ys| ==> ys[i] != ys[j])
  {
    if xs[0] != x {
      RemoveFirstOf(xs[1..], x);
      var rest := RemoveFirst(xs[1..], x);
      assert xs == [xs[0]] + xs[1..];
      forall y ensures y in RemoveFirst(xs, x) <==> y in xs && y != x {
        assert y in RemoveFirst(xs, x) <==> y == xs[0] || y in rest;
      }
      forall j | 0 <= j < |rest| ensures rest[j] != xs[0] {
        assert rest[j] in xs[1..];
      }
    } else {
      assert xs == [x] + xs[1..];
      forall y | y in xs[1..] ensures y != x {
        var k :| 0 <= k < |xs| - 1 && xs[1..][k] == y;
        assert xs[k + 1] == y;
      }
    }
  }

  /** Promoting a secondary keeps the node set and adds no duplicates; promoting it again changes nothing. */
  lemma PromotionKeepsNodes(p: Placement, n: NodeId)
    requires p.Good() && n in p.secondaries
    ensures var q := Promoted(p, n);
      && q.Good() && q.primary == n && q.NodeSet() == p.NodeSet()
      && (p.primary != "" ==> p.primary in q.secondaries)
      && Promoted(q, n) == q
  {
    var grown := if p.primary != "" then p.secondaries + [p.primary] else p.secondaries;
    RemoveFirstOf(grown, n);
  }

  lemma {:induction false} RemoveAt(xs: seq<NodeId>, k: nat)
    requires k < |xs| && xs[k] !in xs[..k]
    ensures RemoveFirst(xs, xs[k]) == xs[..k] + xs[k + 1..]
  {
    if k > 0 {
      assert xs[..k][0] == xs[0];
      assert xs[1..][..k - 1] == xs[..k][1..];
      RemoveAt(xs[1..], k - 1);
      assert xs[..k] == [xs[0]] + xs[1..][..k - 1];
    }
  }

  /** What promotion makes of a placement: the secondary at k becomes the primary, the others keep their
      order, and the old primary, if there was one, comes last. */
  lemma PromotedIs(p: Placement, k: nat)
    requires p.Good() && k < |p.secondaries|
    ensures Promoted(p, p.secondaries[k]) == Placement(
      p.secondaries[k],
      p.secondaries[..k] + p.secondaries[k + 1..] + (if p.primary == "" then [] else [p.primary]))
  {
    var grown := if p.primary != "" then p.secondaries + [p.primary] else p.secondaries;
    var last := if p.primary == "" then [] else [p.primary];
    assert grown == p.secondaries + last;
    assert grown[k] == p.secondaries[k] && grown[..k] == p.secondaries[..k];
    assert grown[k + 1..] == p.secondaries[k + 1..] + last;
    assert p.primary != p.secondaries[k] && p.primary !in p.secondaries;
    hide RemoveFirst;
    RemoveAt(grown, k);
    assert grown[..k] + grown[k + 1..] == p.secondaries[..k] + p.secondaries[k + 1..] + last;
  }

  lemma OneMoreModel(was: Index, nodes: Nodes, models: seq<Model>, i: nat, before: Index, targetsBefore: map<Model, NodeId>,
                     nodesBefore: Nodes, target: Option<NodeId>, now: Index, targets: map<Model, NodeId>)
    requires i < |models| && DistinctModels(models) && AllGood(was) && SameHealth(nodes, nodesBefore)
    requires FailedOver(was, nodes, models[..i], before, targetsBefore)
    requires models[i] in before ==> ("" !in before[models[i]].secondaries ==> Best(nodesBefore, before[models[i]].secondaries, target))
    requires target == None ==> now == before && targets == targetsBefore
    requires target.Some? ==>
      && models[i] in before
      && now == before[models[i] := Promoted(Promoted(before[models[i]], target.value), target.value)]
      && targets == targetsBefore[models[i] := target.value]
    ensures FailedOver(was, nodes, models[..i + 1], now, targets)
  {
    var m := models[i];
    assert models[..i + 1] == models[..i] + [m];
    assert m !in models[..i];
    if m in was {
      assert before[m] == was[m] && m !in targetsBefore;
      HealthDecidesBest(nodes, nodesBefore, was[m].secondaries, target);
      if target.Some? {
        PromotionKeepsNodes(was[m], target.value);
      }
      assert ModelFailedOver(was[m], nodes, now[m], Lookup(targets, m));
    }
    forall k | k in was && k != m && k in models[..i] ensures ModelFailedOver(was[k], nodes, now[k], Lookup(targets, k)) {
      assert ModelFailedOver(was[k], nodes, before[k], Lookup(targetsBefore, k));
    }
  }

  lemma HealthDecidesBest(a: Nodes, b: Nodes, secondaries: seq<NodeId>, best: Option<NodeId>)
    requires SameHealth(a, b) && Best(b, secondaries, best)
    ensures Best(a, secondaries, best)
  {
    forall n ensures Candidate(a, n) <==> Candidate(b, n) {
    }
    if best.Some? {
      var k :| 0 <= k < |secondaries| && secondaries[k] == best.value && Candidate(b, best.value)
        && (forall j :: 0 <= j < |secondaries| && Candidate(b, secondaries[j]) ==>
              b[best.value].failures <= b[secondaries[j]].failures
              && (j < k ==> b[best.value].failures < b[secondaries[j]].failures));
      assert secondaries[k] == best.value && Candidate(a, best.value);
    }
  }

  /** After failover of a node that is not healthy, each of its models has a healthy primary with
      the fewest failures among its healthy secondaries, on the same nodes and recorded as target,
      if there is a healthy secondary; otherwise it stays where it was. */
  lemma FailoverResult(was: Index, nodes: Nodes, models: seq<Model>, now: Index, targets: map<Model, NodeId>,
                       failed: NodeId, m: Model)
    requires FailedOver(was, nodes, models, now, targets) && AllGood(was)
    requires m in was && m in models && !(failed in nodes && nodes[failed].healthy)
    ensures now[m].Good() && now[m].NodeSet() == was[m].NodeSet()
    ensures m in targets <==> exists n <- was[m].secondaries :: n in nodes && nodes[n].healthy
    ensures m !in targets ==> now[m] == was[m]
    ensures m in targets ==>
      var chosen := now[m].primary;
      && chosen == targets[m] != failed && chosen in was[m].secondaries && chosen in nodes && nodes[chosen].healthy
      && (forall n <- was[m].secondaries :: n in nodes && nodes[n].healthy ==> nodes[chosen].failures <= nodes[n].failures)
      && exists k :: 0 <= k < |was[m].secondaries| && was[m].secondaries[k] == chosen
           && forall j :: 0 <= j < k && was[m].secondaries[j] in nodes && nodes[was[m].secondaries[j]].healthy ==>
                nodes[chosen].failures < nodes[was[m].secondaries[j]].failures
  {
    assert ModelFailedOver(was[m], nodes, now[m], Lookup(targets, m));
    if m in targets {
      PromotionKeepsNodes(was[m], targets[m]);
    }
    forall n | n in was[m].secondaries && n in nodes && nodes[n].healthy ensures m in targets {
      assert Candidate(nodes, n);
    }
  }

  /** The primary moves whenever some secondary is healthy, even if it is healthy itself and the
      failed node was only another secondary: then a healthy primary becomes a secondary. */
  lemma PrimaryMovesRegardless(was: Index, nodes: Nodes, models: seq<Model>, now: Index, targets: map<Model, NodeId>, m: Model)
    requires FailedOver(was, nodes, models, now, targets) && AllGood(was) && m in was && m in models
    ensures now[m].primary != was[m].primary <==> exists n <- was[m].secondaries :: n in nodes && nodes[n].healthy
    ensures now[m].primary != was[m].primary && was[m].primary != "" ==> was[m].primary in now[m].secondaries
  {
    assert ModelFailedOver(was[m], nodes, now[m], Lookup(targets, m));
    if m in targets {
      PromotionKeepsNodes(was[m], targets[m]);
    }
  }
}
