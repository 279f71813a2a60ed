/** Any number of electors over one store: every interleaving of their steps.

    The voting half follows section 5.2 of the Raft paper (Ongaro and Ousterhout, 2014). */
module LeaderLease {
  import opened Wrappers
  import opened StateStore
  import LE = LeaderElection

  /** A granted vote: who gave it, the term the request named, the term the answer carried. */
  datatype Grant = Grant(voter: NodeId, asked: int, term: int, candidate: NodeId)

  datatype Cluster = Cluster(now: Time, store: Store, nodes: map<NodeId, LE.Node>, grants: set<Grant>)

  datatype Action =
    | Tick(dt: real)
    | StartElection(n: NodeId)
    | FailElection(n: NodeId)
    | BecomeLeader(n: NodeId)
    | Beat(n: NodeId, own: bool, healthy: bool)
    | Unwind(n: NodeId)
    | Renew(n: NodeId)
    | VoteArrives(n: NodeId, term: int)
    | VoteDecides(n: NodeId, candidate: NodeId, asked: int)
    | Check(n: NodeId)
    | StopBeat(n: NodeId)
    | StopRelease(n: NodeId)

  function Init(ids: set<NodeId>, now: Time): Cluster {
    Cluster(now, Store(None, None), map n | n in ids :: LE.Fresh(n), {})
  }

  /** The store and the acting node after a node's step; a step that is not enabled changes nothing.
      The second half of stop comes after the tracked loop has ended, and stop has ended the election
      loop before that, so no new loop has started. */
  function NodeStep(s: Store, x: LE.Node, now: Time, a: Action, ttl: Ttl): (Store, LE.Node)
    requires x.WellFormed()
  {
    match a
    case Tick(_) => (s, x)
    case StartElection(_) => (s, LE.StartElection(x))
    case FailElection(_) => (s, LE.FailElection(x))
    case BecomeLeader(_) => LE.BecomeLeader(s, x, ttl, now)
    case Beat(_, own, healthy) =>
      if x.CanBeat(own) then LE.Beat(s, x, ttl, now, own, healthy) else (s, x)
    case Unwind(_) => (s, LE.Unwind(x))
    case Renew(_) => var (s', x', _) := LE.Renew(s, x, ttl, now); (s', x')
    case VoteArrives(_, term) => LE.StepDown(s, x, term, now)
    case VoteDecides(_, candidate, asked) =>
      if asked <= x.term then (s, LE.DecideVote(x, candidate).0) else (s, x)
    case Check(_) => var (s', x', _) := LE.CheckIsLeader(s, x, now); (s', x')
    case StopBeat(_) => (s, LE.StopBeat(x))
    case StopRelease(_) => if x.tracked then (s, x) else LE.StopRelease(s, x, now)
  }

  /** The votes a step grants. A candidate votes for itself. */
  function NewGrants(x: LE.Node, a: Action): set<Grant> {
    match a
    case StartElection(_) =>
      if x.isCandidate then {} else {Grant(x.id, x.term + 1, x.term + 1, x.id)}
    case VoteDecides(_, candidate, asked) =>
      if asked <= x.term && LE.DecideVote(x, candidate).1
      then {Grant(x.id, asked, x.term, candidate)} else {}
    case _ => {}
  }

  predicate WellFormed(c: Cluster) {
    forall n <- c.nodes :: c.nodes[n].WellFormed() && c.nodes[n].id == n
  }

  function Apply(c: Cluster, a: Action, ttl: Ttl): Cluster
    requires WellFormed(c)
  {
    if a.Tick? then
      if a.dt >= 0.0 then c.(now := c.now + a.dt) else c
    else if a.n !in c.nodes then c
    else
      var x := c.nodes[a.n];
      var (s, x') := NodeStep(c.store, x, c.now, a, ttl);
      Cluster(c.now, s, c.nodes[a.n := x'], c.grants + NewGrants(x, a))
  }

  function Run(c: Cluster, actions: seq<Action>, ttl: Ttl): (r: Cluster)
    requires WellFormed(c)
    ensures WellFormed(r)
    decreases |actions|
  {
    if actions == [] then c
    else
      StaysWellFormed(c, actions[0], ttl);
      Run(Apply(c, actions[0], ttl), actions[1..], ttl)
  }

  /** The step leaves identity, term and vote alone. */
  predicate SameVoter(x: LE.Node, x': LE.Node) {
    x'.WellFormed() && x'.id == x.id && x'.term == x.term && x'.votedFor == x.votedFor
  }

  lemma BeatSameVoter(s: Store, x: LE.Node, ttl: Ttl, now: Time, own: bool, healthy: bool)
    requires x.WellFormed() && x.CanBeat(own)
    ensures SameVoter(x, LE.Beat(s, x, ttl, now, own, healthy).1)
  {
    assert SameVoter(x, LE.LoseInBeat(s, x, now, own).1);
  }

  predicate Votes(a: Action) {
    a.StartElection? || a.VoteArrives? || a.VoteDecides?
  }

  /** Only three kinds of step touch a node's term or vote. */
  lemma OtherStepsKeepVote(s: Store, x: LE.Node, now: Time, a: Action, ttl: Ttl)
    requires x.WellFormed() && !Votes(a)
    ensures SameVoter(x, NodeStep(s, x, now, a, ttl).1) && NewGrants(x, a) == {}
  {
    if a.Beat? && x.CanBeat(a.own) {
      BeatSameVoter(s, x, ttl, now, a.own, a.healthy);
    }
  }

  lemma StaysWellFormed(c: Cluster, a: Action, ttl: Ttl)
    requires WellFormed(c)
    ensures WellFormed(Apply(c, a, ttl))
  {
    if !a.Tick? && a.n in c.nodes && !Votes(a) {
      OtherStepsKeepVote(c.store, c.nodes[a.n], c.now, a, ttl);
    }
  }

  /** The history of grants: a step records the vote that it grants, under the term asked and the term
      of the answer, and nothing else. Becoming a candidate grants the node's own vote in its next term. */
  lemma GrantsRecorded(c: Cluster, a: Action, ttl: Ttl, g: Grant)
    requires WellFormed(c)
    ensures g in Apply(c, a, ttl).grants <==>
      || g in c.grants
      || (a.StartElection? && a.n in c.nodes && !c.nodes[a.n].isCandidate
          && g == Grant(a.n, c.nodes[a.n].term + 1, c.nodes[a.n].term + 1, a.n))
      || (a.VoteDecides? && a.n in c.nodes && a.asked <= c.nodes[a.n].term
          && (c.nodes[a.n].votedFor == None || c.nodes[a.n].votedFor == Some(a.candidate))
          && g == Grant(a.n, a.asked, c.nodes[a.n].term, a.candidate))
  {
    if a.Tick? || a.n !in c.nodes {
      assert Apply(c, a, ttl).grants == c.grants;
    } else {
      assert Apply(c, a, ttl).grants == c.grants + NewGrants(c.nodes[a.n], a);
    }
  }

  lemma RunCons(c: Cluster, a: Action, rest: seq<Action>, ttl: Ttl)
    requires WellFormed(c)
    ensures WellFormed(Apply(c, a, ttl)) && Run(c, [a] + rest, ttl) == Run(Apply(c, a, ttl), rest, ttl)
  {
    StaysWellFormed(c, a, ttl);
    assert ([a] + rest)[1..] == rest;
  }

  function Campaign(n: NodeId, rest: seq<Action>): seq<Action> {
    [StartElection(n)] + ([BecomeLeader(n)] + rest)
  }

  /** From c to r only node a and the store have changed: a has taken the lock in its next term. */
  predicate LeadsAfter(c: Cluster, r: Cluster, a: NodeId, ttl: Ttl)
    requires a in c.nodes
  {
    var x := c.nodes[a];
    && r.now == c.now && r.nodes.Keys == c.nodes.Keys
    && (forall n <- c.nodes :: n != a ==> r.nodes[n] == c.nodes[n])
    && r.nodes[a] == LE.Node(a, x.term + 1, Some(a), true, false, true, Some(c.now + ttl), x.beats + 1, true, x.unwinding)
    && r.store.lock == Some(LockEntry(a, c.now + ttl))
  }

  /** Node a may run, and the lock is free. */
  predicate MayLead(c: Cluster, a: NodeId) {
    a in c.nodes && c.store.lock.None? && !c.nodes[a].isLeader && !c.nodes[a].isCandidate
  }

  /** Node a is elected while the lock is free. */
  lemma Elected(c: Cluster, a: NodeId, ttl: Ttl, rest: seq<Action>) returns (r: Cluster)
    requires WellFormed(c) && MayLead(c, a)
    ensures WellFormed(r) && LeadsAfter(c, r, a, ttl)
    ensures Run(c, Campaign(a, rest), ttl) == Run(r, rest, ttl)
  {
    var a1, a2 := StartElection(a), BecomeLeader(a);
    var c1 := Apply(c, a1, ttl);
    RunCons(c, a1, [a2] + rest, ttl);
    r := Apply(c1, a2, ttl);
    RunCons(c1, a2, rest, ttl);
  }

  // ---------------------------------------------------------------- lease

  /** A lease the node believes live is backed by the lock in the store, for at least as long. */
  predicate Backed(s: Store, now: Time, x: LE.Node) {
    && (x.locked ==> x.isLeader && x.expires.Some?)
    && (x.LeaseLive(now) ==>
          s.lock.Some? && s.lock.value.owner == x.id && x.expires.value <= s.lock.value.expiry)
  }

  /** The node's votes agree with its term: none from the future, and this term's is votedFor. */
  predicate VotesAgree(grants: set<Grant>, x: LE.Node) {
    forall g <- grants :: g.voter == x.id ==>
      && g.asked <= g.term <= x.term
      && (g.term == x.term ==> x.votedFor == Some(g.candidate))
  }

  predicate OneVotePerTerm(grants: set<Grant>) {
    forall g <- grants, h <- grants ::
      g.voter == h.voter && g.term == h.term ==> g.candidate == h.candidate
  }

  predicate Inv(c: Cluster) {
    && WellFormed(c)
    && (forall n <- c.nodes :: Backed(c.store, c.now, c.nodes[n]))
    && (forall n <- c.nodes :: VotesAgree(c.grants, c.nodes[n]))
    && (forall g <- c.grants :: g.voter in c.nodes)
    && OneVotePerTerm(c.grants)
  }

  /** What a node's step does to the lease: it stays backed, and another owner's live lock is untouched. */
  predicate Sound(s: Store, x: LE.Node, now: Time, r: (Store, LE.Node)) {
    && r.1.WellFormed() && r.1.id == x.id && x.term <= r.1.term
    && Backed(r.0, now, r.1)
    && (r.0.lock == s.lock || !s.Live(now) || s.lock.value.owner == x.id)
  }

  lemma LoseSound(s: Store, x: LE.Node, now: Time)
    requires x.WellFormed() && Backed(s, now, x)
    ensures Sound(s, x, now, LE.Lose(s, x, now))
  {
  }

  lemma LoseInBeatSound(s: Store, x: LE.Node, now: Time, own: bool)
    requires x.WellFormed() && Backed(s, now, x) && x.CanBeat(own)
    ensures Sound(s, x, now, LE.LoseInBeat(s, x, now, own))
  {
    if own {
      LoseSound(s, LE.EndBeat(x, true), now);
    } else {
      LoseSound(s, x, now);
    }
  }

  lemma BeatWriteSound(s: Store, x: LE.Node, now: Time, own: bool, healthy: bool)
    requires x.WellFormed() && Backed(s, now, x) && x.CanBeat(own)
    ensures Sound(s, x, now, LE.BeatWrite(s, x, now, own, healthy))
  {
    LoseInBeatSound(s.SetLeader(x.id, x.term), x, now, own);
  }

  lemma ExtendSound(s: Store, x: LE.Node, ttl: Ttl, now: Time)
    requires x.WellFormed() && Backed(s, now, x) && s.HeldBy(x.id, now)
    ensures Sound(s, x, now, (s.Extend(x.id, ttl, now).0, x.(expires := Some(now + ttl))))
  {
  }

  lemma BeatSound(s: Store, x: LE.Node, ttl: Ttl, now: Time, own: bool, healthy: bool)
    requires x.WellFormed() && Backed(s, now, x) && x.CanBeat(own)
    ensures Sound(s, x, now, LE.Beat(s, x, ttl, now, own, healthy))
  {
    if !x.NeedsRenewal(ttl, now) {
      BeatWriteSound(s, x, now, own, healthy);
    } else if s.HeldBy(x.id, now) {
      ExtendSound(s, x, ttl, now);
      BeatWriteSound(s.Extend(x.id, ttl, now).0, x.(expires := Some(now + ttl)), now, own, healthy);
    } else {
      LoseInBeatSound(s, x, now, own);
    }
  }

  /** A node's step keeps that node's lease backed and never touches another owner's live lock. */
  lemma NodeStepBacked(s: Store, x: LE.Node, now: Time, a: Action, ttl: Ttl)
    requires x.WellFormed() && Backed(s, now, x)
    ensures Sound(s, x, now, NodeStep(s, x, now, a, ttl))
  {
    match a
    case Beat(_, own, healthy) =>
      if x.CanBeat(own) {
        BeatSound(s, x, ttl, now, own, healthy);
      }
    case Renew(_) =>
      if s.HeldBy(x.id, now) {
        ExtendSound(s, x, ttl, now);
      }
    case VoteArrives(_, term) =>
      if term > x.term {
        LoseSound(s, x.(term := term, votedFor := None, isCandidate := false), now);
      }
    case Check(_) =>
      LoseSound(s, x, now);
    case _ =>
  }

  lemma NodeStepVotes(s: Store, x: LE.Node, now: Time, a: Action, ttl: Ttl, grants: set<Grant>)
    requires x.WellFormed() && VotesAgree(grants, x) && OneVotePerTerm(grants)
    ensures
      var x' := NodeStep(s, x, now, a, ttl).1;
      var grants' := grants + NewGrants(x, a);
      VotesAgree(grants', x') && OneVotePerTerm(grants')
      && forall g <- NewGrants(x, a) :: g.voter == x.id
  {
    if !Votes(a) {
      OtherStepsKeepVote(s, x, now, a, ttl);
      assert grants + {} == grants;
    }
  }

  /** Another node's step leaves y's lease backed and its votes in order. */
  lemma OthersKeep(s: Store, x: LE.Node, now: Time, r: (Store, LE.Node), grants: set<Grant>, more: set<Grant>, y: LE.Node)
    requires x.id != y.id && Sound(s, x, now, r) && Backed(s, now, y) && VotesAgree(grants, y)
    requires forall g <- more :: g.voter == x.id
    ensures Backed(r.0, now, y) && VotesAgree(grants + more, y)
  {
  }

  lemma TickKeepsInv(c: Cluster, dt: real)
    requires Inv(c) && dt >= 0.0
    ensures Inv(c.(now := c.now + dt))
  {
  }

  lemma StepKeepsInv(c: Cluster, a: Action, ttl: Ttl)
    requires Inv(c)
    ensures Inv(Apply(c, a, ttl))
    ensures forall n <- c.nodes :: n in Apply(c, a, ttl).nodes && c.nodes[n].term <= Apply(c, a, ttl).nodes[n].term
    ensures c.grants <= Apply(c, a, ttl).grants
  {
    hide NodeStep, NewGrants, Backed, VotesAgree, OneVotePerTerm;
    if a.Tick? {
      if a.dt >= 0.0 {
        TickKeepsInv(c, a.dt);
      }
    } else if a.n in c.nodes {
      var x := c.nodes[a.n];
      var r, more := NodeStep(c.store, x, c.now, a, ttl), NewGrants(x, a);
      NodeStepBacked(c.store, x, c.now, a, ttl);
      NodeStepVotes(c.store, x, c.now, a, ttl, c.grants);
      forall n | n in c.nodes && n != a.n ensures Backed(r.0, c.now, c.nodes[n]) && VotesAgree(c.grants + more, c.nodes[n]) {
        OthersKeep(c.store, x, c.now, r, c.grants, more, c.nodes[n]);
      }
    }
  }

  lemma {:induction false} RunKeepsInv(c: Cluster, actions: seq<Action>, ttl: Ttl)
    requires Inv(c)
    ensures Inv(Run(c, actions, ttl))
    decreases |actions|
  {
    if actions != [] {
      StepKeepsInv(c, actions[0], ttl);
      RunKeepsInv(Apply(c, actions[0], ttl), actions[1..], ttl);
    }
  }

  /** At any time of any run, a node that would pass check_is_leader owns the live lock, so at
      most one node passes. */
  lemma AtMostOneLeader(ids: set<NodeId>, start: Time, actions: seq<Action>, ttl: Ttl, x: NodeId, y: NodeId)
    ensures
      var c := Run(Init(ids, start), actions, ttl);
      && (x in c.nodes && c.nodes[x].PassesCheck(c.now) ==>
            && c.store.HeldBy(x, c.now)
            && c.nodes[x].expires.Some? && c.nodes[x].expires.value <= c.store.lock.value.expiry)
      && (x in c.nodes && c.nodes[x].PassesCheck(c.now) && y in c.nodes && c.nodes[y].PassesCheck(c.now) ==> x == y)
  {
    RunKeepsInv(Init(ids, start), actions, ttl);
    var c := Run(Init(ids, start), actions, ttl);
    if x in c.nodes && c.nodes[x].PassesCheck(c.now) {
      assert Backed(c.store, c.now, c.nodes[x]);
    }
    if y in c.nodes && c.nodes[y].PassesCheck(c.now) {
      assert Backed(c.store, c.now, c.nodes[y]);
    }
  }

  /** The answer check_is_leader gives node x. */
  predicate Told(c: Cluster, x: NodeId)
    requires WellFormed(c) && x in c.nodes
  {
    LE.CheckIsLeader(c.store, c.nodes[x], c.now).2
  }

  /** So check_is_leader tells the truth: at any time of any run a node it answers true owns the lock,
      which has not expired, and no other node is answered true; and it answers false only a node that
      does not lead, holds no lease, or whose lease has run out, and that node does not lead with a
      lease afterwards. */
  lemma AnswerIsTrue(ids: set<NodeId>, start: Time, actions: seq<Action>, ttl: Ttl, x: NodeId, y: NodeId)
    ensures
      var c := Run(Init(ids, start), actions, ttl);
      && (x in c.nodes && Told(c, x) ==>
            c.store.lock.Some? && c.store.lock.value.owner == x && c.now <= c.store.lock.value.expiry)
      && (x in c.nodes && y in c.nodes && Told(c, x) && Told(c, y) ==> x == y)
      && (x in c.nodes ==>
            var n := c.nodes[x];
            (Told(c, x) <==> n.isLeader && n.locked && n.expires.Some? && c.now <= n.expires.value))
      && (x in c.nodes && !Told(c, x) ==>
            var n' := LE.CheckIsLeader(c.store, c.nodes[x], c.now).1;
            !(n'.isLeader && n'.locked))
  {
    AtMostOneLeader(ids, start, actions, ttl, x, y);
  }

  /** What may happen to node n while it tends its lease: it is not made to release it, no later term reaches
      it, and it is healthy when a heartbeat loop looks. Others may do anything. */
  predicate Undisturbed(c: Cluster, a: Action, n: NodeId)
    requires n in c.nodes
  {
    a.Tick? || a.n != n ||
    match a
    case StopRelease(_) => false
    case VoteArrives(_, term) => term <= c.nodes[n].term
    case Beat(_, _, healthy) => healthy
    case _ => true
  }

  predicate TakesTurn(c: Cluster, a: Action, n: NodeId)
    requires n in c.nodes
  {
    a.Beat? && a.n == n && c.nodes[n].CanBeat(a.own)
  }

  /** Node n's heartbeat loops take a turn at least every half lifetime; the next is due by due. */
  predicate Tended(c: Cluster, actions: seq<Action>, n: NodeId, ttl: Ttl, due: Time)
    requires WellFormed(c)
    decreases |actions|
  {
    n in c.nodes && c.now <= due &&
    (actions == [] ||
     var a := actions[0];
     StaysWellFormed(c, a, ttl);
     && Undisturbed(c, a, n)
     && Tended(Apply(c, a, ttl), actions[1..], n, ttl, if TakesTurn(c, a, n) then c.now + ttl / 2.0 else due))
  }

  /** The node holds a lease that reaches at least to due, which is at most a lifetime away. */
  predicate Holds(c: Cluster, n: NodeId, due: Time, ttl: Ttl) {
    due <= c.now + ttl && n in c.nodes && c.nodes[n].isLeader && c.nodes[n].locked
    && c.nodes[n].expires.Some? && due <= c.nodes[n].expires.value
  }

  lemma BeatHolds(s: Store, x: LE.Node, ttl: Ttl, now: Time, own: bool)
    requires x.WellFormed() && x.CanBeat(own) && Backed(s, now, x)
    requires x.isLeader && x.LeaseLive(now)
    ensures
      var x' := LE.Beat(s, x, ttl, now, own, true).1;
      x'.isLeader && x'.locked && x'.expires.Some? && now + ttl / 2.0 <= x'.expires.value
  {
  }

  lemma StepHolds(c: Cluster, a: Action, n: NodeId, ttl: Ttl, due: Time)
    requires Inv(c) && Holds(c, n, due, ttl) && c.now <= due && Undisturbed(c, a, n)
    ensures Holds(Apply(c, a, ttl), n, if TakesTurn(c, a, n) then c.now + ttl / 2.0 else due, ttl)
  {
    assert Backed(c.store, c.now, c.nodes[n]);
    if TakesTurn(c, a, n) {
      BeatHolds(c.store, c.nodes[n], ttl, c.now, a.own);
    }
  }

  /** A tended lease never lapses: from any state in which n holds one, n passes check_is_leader
      throughout, and so nobody else does, whatever the other nodes do. */
  lemma {:induction false} TendedLeaseHolds(c: Cluster, actions: seq<Action>, n: NodeId, ttl: Ttl, due: Time)
    requires Inv(c) && Holds(c, n, due, ttl) && Tended(c, actions, n, ttl, due)
    ensures var r := Run(c, actions, ttl); n in r.nodes && r.nodes[n].PassesCheck(r.now)
    decreases |actions|
  {
    if actions != [] {
      var a := actions[0];
      StepHolds(c, a, n, ttl, due);
      StepKeepsInv(c, a, ttl);
      hide Undisturbed, TakesTurn, Apply, Backed, VotesAgree, OneVotePerTerm;
      TendedLeaseHolds(Apply(c, a, ttl), actions[1..], n, ttl, if TakesTurn(c, a, n) then c.now + ttl / 2.0 else due);
    }
  }

  lemma {:induction false} PrefixTended(c: Cluster, actions: seq<Action>, n: NodeId, ttl: Ttl, due: Time, k: nat)
    requires WellFormed(c) && Tended(c, actions, n, ttl, due) && k <= |actions|
    ensures Tended(c, actions[..k], n, ttl, due)
    decreases k
  {
    if k > 0 {
      var a := actions[0];
      StaysWellFormed(c, a, ttl);
      assert actions[..k][1..] == actions[1..][..k - 1];
      hide Apply, Undisturbed, TakesTurn;
      PrefixTended(Apply(c, a, ttl), actions[1..], n, ttl, if TakesTurn(c, a, n) then c.now + ttl / 2.0 else due, k - 1);
    }
  }

  /** So n passes in every state on the way, and nobody else does. */
  lemma TendedThroughout(c: Cluster, actions: seq<Action>, n: NodeId, ttl: Ttl, due: Time, k: nat)
    requires Inv(c) && Holds(c, n, due, ttl) && Tended(c, actions, n, ttl, due) && k <= |actions|
    ensures
      var r := Run(c, actions[..k], ttl);
      && n in r.nodes && r.nodes[n].PassesCheck(r.now) && Told(r, n)
      && forall m <- r.nodes :: m != n ==> !r.nodes[m].PassesCheck(r.now) && !Told(r, m)
  {
    PrefixTended(c, actions, n, ttl, due, k);
    TendedLeaseHolds(c, actions[..k], n, ttl, due);
    RunKeepsInv(c, actions[..k], ttl);
    var r := Run(c, actions[..k], ttl);
    hide Tended, Run, VotesAgree, OneVotePerTerm;
    forall m | m in r.nodes && m != n ensures !r.nodes[m].PassesCheck(r.now) && !Told(r, m) {
      assert Backed(r.store, r.now, r.nodes[m]) && Backed(r.store, r.now, r.nodes[n]);
    }
  }

  // ---------------------------------------------------------------- votes

  /** Terms never decrease and no granted vote is taken back. */
  lemma {:induction false} TermsNeverDecrease(c: Cluster, actions: seq<Action>, ttl: Ttl, n: NodeId)
    requires Inv(c) && n in c.nodes
    ensures n in Run(c, actions, ttl).nodes && c.nodes[n].term <= Run(c, actions, ttl).nodes[n].term
    ensures c.grants <= Run(c, actions, ttl).grants
    decreases |actions|
  {
    if actions != [] {
      StepKeepsInv(c, actions[0], ttl);
      TermsNeverDecrease(Apply(c, actions[0], ttl), actions[1..], ttl, n);
    }
  }

  /** In every run a node backs one candidate per term of its answers; and it can seem to back two
      candidates in one requested term only if an answer carries a later term than was asked. */
  lemma OneVote(ids: set<NodeId>, start: Time, actions: seq<Action>, ttl: Ttl, g: Grant, h: Grant)
    requires var grants := Run(Init(ids, start), actions, ttl).grants; g in grants && h in grants
    requires g.voter == h.voter
    ensures g.term == h.term ==> g.candidate == h.candidate
    ensures g.asked == h.asked && g.candidate != h.candidate ==> g.term > g.asked || h.term > h.asked
  {
    RunKeepsInv(Init(ids, start), actions, ttl);
  }

  function Voters(grants: set<Grant>, term: int, candidate: NodeId): set<NodeId> {
    set g <- grants | g.term == term && g.candidate == candidate :: g.voter
  }

  lemma QuorumsMeet(all: set<NodeId>, a: set<NodeId>, b: set<NodeId>)
    requires a <= all && b <= all && 2 * |a| > |all| && 2 * |b| > |all|
    ensures a * b != {}
  {
    if a * b == {} {
      assert |a + b| == |a| + |b|;
      SubsetIsSmaller(a + b, all);
    }
  }

  lemma SubsetIsSmaller<T>(a: set<T>, b: set<T>)
    requires a <= b
    ensures |a| <= |b|
  {
    assert b == a + (b - a);
  }

  /** Election safety: two candidates with a majority of the same nodes in one term are one. */
  lemma OneWinnerPerTerm(ids: set<NodeId>, start: Time, actions: seq<Action>, ttl: Ttl,
                         all: set<NodeId>, term: int, a: NodeId, b: NodeId)
    requires
      var grants := Run(Init(ids, start), actions, ttl).grants;
      && 2 * |Voters(grants, term, a) * all| > |all|
      && 2 * |Voters(grants, term, b) * all| > |all|
    ensures a == b
  {
    RunKeepsInv(Init(ids, start), actions, ttl);
    var grants := Run(Init(ids, start), actions, ttl).grants;
    var va, vb := Voters(grants, term, a) * all, Voters(grants, term, b) * all;
    QuorumsMeet(all, va, vb);
    var v :| v in va * vb;
  }

  /** An answer can carry a later term: a request for term 5 waits while node a gives up leadership; meanwhile
      another candidate gets its vote in term 5 and b in term 6; then b's waiting request is granted. */
  lemma AnswerCanCarryLaterTerm(a: NodeId, b: NodeId, d: NodeId) returns (actions: seq<Action>, grants: set<Grant>)
    ensures grants == Run(Init({a}, 0.0), actions, 30.0).grants
    ensures Grant(a, 5, 5, d) in grants && Grant(a, 5, 6, b) in grants
  {
    hide Run;
    var ttl: Ttl := 30.0;
    var c0 := Init({a}, 0.0);
    var v5, d5 := VoteArrives(a, 5), VoteDecides(a, d, 5);
    var late := LateVotes(a, b);
    var votes := [v5] + ([d5] + late);
    actions := Campaign(a, votes);
    var lead := Elected(c0, a, ttl, votes);
    RunCons(lead, v5, [d5] + late, ttl);
    var c1 := Apply(lead, v5, ttl);
    assert c1.nodes[a].term == 5 && c1.nodes[a].votedFor == None;
    RunCons(c1, d5, late, ttl);
    var c2 := Apply(c1, d5, ttl);
    assert c2.nodes[a].term == 5 && Grant(a, 5, 5, d) in c2.grants;
    LateGrant(c2, a, b, ttl);
    grants := Run(c2, late, ttl).grants;
  }

  /** A request for term 6 arrives and is granted to b; then b's request for term 5 is answered. */
  function LateVotes(a: NodeId, b: NodeId): seq<Action> {
    [VoteArrives(a, 6)] + ([VoteDecides(a, b, 6)] + ([VoteDecides(a, b, 5)] + []))
  }

  lemma LateGrant(c: Cluster, a: NodeId, b: NodeId, ttl: Ttl)
    requires WellFormed(c) && a in c.nodes && c.nodes[a].term == 5
    ensures
      var r := Run(c, LateVotes(a, b), ttl);
      c.grants <= r.grants && Grant(a, 5, 6, b) in r.grants
  {
    var v6, b6, b5 := VoteArrives(a, 6), VoteDecides(a, b, 6), VoteDecides(a, b, 5);
    RunCons(c, v6, [b6] + ([b5] + []), ttl);
    var c1 := Apply(c, v6, ttl);
    assert c1.nodes[a].term == 6 && c1.nodes[a].votedFor == None;
    RunCons(c1, b6, [b5] + [], ttl);
    var c2 := Apply(c1, b6, ttl);
    assert c2.nodes[a].term == 6 && c2.nodes[a].votedFor == Some(b);
    RunCons(c2, b5, [], ttl);
  }

  // ---------------------------------------------------------------- leader record

  /** While the lock is live, the stored leader record names its owner. */
  predicate RecordOk(s: Store, now: Time) {
    s.Live(now) ==> s.leader.Some? && s.leader.value.node == s.lock.value.owner
  }

  /** The step is a heartbeat turn that writes the leader record while another node's lock is live. */
  predicate StrayWrite(s: Store, x: LE.Node, now: Time, a: Action, ttl: Ttl) {
    && a.Beat? && x.CanBeat(a.own)
    && !x.NeedsRenewal(ttl, now)
    && s.Live(now) && s.lock.value.owner != x.id
  }

  /** Exactly one kind of step can make the record wrong. */
  lemma RecordStep(s: Store, x: LE.Node, now: Time, a: Action, ttl: Ttl)
    requires x.WellFormed() && Backed(s, now, x) && RecordOk(s, now)
    ensures RecordOk(NodeStep(s, x, now, a, ttl).0, now) <==> !StrayWrite(s, x, now, a, ttl)
  {
  }

  /** No node takes leadership while its own _lose_leadership is still waiting. */
  predicate NoEarlyReelection(c: Cluster, actions: seq<Action>, ttl: Ttl)
    requires WellFormed(c)
    decreases |actions|
  {
    if actions == [] then true
    else
      var a := actions[0];
      StaysWellFormed(c, a, ttl);
      && (a.BecomeLeader? && a.n in c.nodes ==> c.nodes[a.n].unwinding == 0)
      && NoEarlyReelection(Apply(c, a, ttl), actions[1..], ttl)
  }

  /** Only a lease holder has a heartbeat loop, and _heartbeat_task knows that loop. */
  predicate BeatsTracked(x: LE.Node) {
    && (x.beats > 0 ==> x.tracked && x.locked && x.unwinding == 0)
    && x.beats <= 1
  }

  lemma NodeStepTracked(s: Store, x: LE.Node, now: Time, a: Action, ttl: Ttl)
    requires x.WellFormed() && Backed(s, now, x) && BeatsTracked(x)
    requires a.BecomeLeader? ==> x.unwinding == 0
    ensures BeatsTracked(NodeStep(s, x, now, a, ttl).1)
  {
  }

  /** In every state of every such run the record is right. */
  lemma {:induction false} RecordHolds(c: Cluster, actions: seq<Action>, ttl: Ttl)
    requires Inv(c) && RecordOk(c.store, c.now) && NoEarlyReelection(c, actions, ttl)
    requires forall n <- c.nodes :: BeatsTracked(c.nodes[n])
    ensures var r := Run(c, actions, ttl); RecordOk(r.store, r.now)
    decreases |actions|
  {
    if actions != [] {
      var a := actions[0];
      StepKeepsInv(c, a, ttl);
      if !a.Tick? && a.n in c.nodes {
        NodeStepTracked(c.store, c.nodes[a.n], c.now, a, ttl);
        RecordStep(c.store, c.nodes[a.n], c.now, a, ttl);
        assert Backed(c.store, c.now, c.nodes[a.n]);
      }
      RecordHolds(Apply(c, a, ttl), actions[1..], ttl);
    }
  }

  /** a leads and is asked to step down. */
  function LeadAndLose(a: NodeId, rest: seq<Action>): seq<Action> {
    Campaign(a, [VoteArrives(a, 2)] + rest)
  }

  /** a leads again, and its earlier loss of leadership comes to its end. */
  function LeadAndForget(a: NodeId, rest: seq<Action>): seq<Action> {
    Campaign(a, [Unwind(a)] + rest)
  }

  /** a steps down, b leads, and later one of a's heartbeat loops takes a turn. */
  function LostTurn(a: NodeId, b: NodeId): seq<Action> {
    [VoteArrives(a, 4)] + Campaign(b, [Tick(10.0)] + ([Beat(a, false, true)] + []))
  }

  /** a has led and lost the lock in term 2, and still waits for its loop to end; b has done nothing. */
  predicate LostOnce(c: Cluster, a: NodeId, b: NodeId, ttl: Ttl) {
    && c.now == 0.0 && c.nodes.Keys == {a, b} && c.store.lock.None? && c.nodes[b] == LE.Fresh(b)
    && c.nodes[a] == LE.Node(a, 2, None, false, false, false, Some(ttl), 0, false, 1)
  }

  /** a leads in term 3 with a heartbeat loop it has lost track of. */
  predicate LostTrack(c: Cluster, a: NodeId, b: NodeId, ttl: Ttl) {
    && c.now == 0.0 && c.nodes.Keys == {a, b} && c.nodes[b] == LE.Fresh(b)
    && c.store.lock == Some(LockEntry(a, ttl))
    && c.nodes[a] == LE.Node(a, 3, Some(a), true, false, true, Some(ttl), 1, false, 0)
  }

  /** a leads, is asked to step down, and waits for its heartbeat loop to end. */
  lemma FirstLoss(a: NodeId, b: NodeId, ttl: Ttl, rest: seq<Action>) returns (r: Cluster)
    requires a != b
    ensures WellFormed(r) && LostOnce(r, a, b, ttl)
    ensures Run(Init({a, b}, 0.0), LeadAndLose(a, rest), ttl) == Run(r, rest, ttl)
  {
    hide Run;
    var c := Elected(Init({a, b}, 0.0), a, ttl, [VoteArrives(a, 2)] + rest);
    RunCons(c, VoteArrives(a, 2), rest, ttl);
    r := Apply(c, VoteArrives(a, 2), ttl);
  }

  /** Elected again while its first loss of leadership still waits, a loses track of its new loop. */
  lemma LosesTrack(c: Cluster, a: NodeId, b: NodeId, ttl: Ttl, rest: seq<Action>) returns (r: Cluster)
    requires a != b && WellFormed(c) && LostOnce(c, a, b, ttl)
    ensures WellFormed(r) && LostTrack(r, a, b, ttl)
    ensures Run(c, LeadAndForget(a, rest), ttl) == Run(r, rest, ttl)
  {
    var c1 := Elected(c, a, ttl, [Unwind(a)] + rest);
    RunCons(c1, Unwind(a), rest, ttl);
    r := Apply(c1, Unwind(a), ttl);
  }

  /** a steps down for good and b is elected; then a's lost loop wakes up. */
  lemma LostLoopWrites(c: Cluster, a: NodeId, b: NodeId, ttl: Ttl)
    requires a != b && WellFormed(c) && LostTrack(c, a, b, ttl) && ttl == 30.0
    ensures
      var r := Run(c, LostTurn(a, b), ttl);
      r.store.HeldBy(b, r.now) && r.store.leader == Some(LeaderRecord(a, 4))
  {
    var t, w := Tick(10.0), Beat(a, false, true);
    RunCons(c, VoteArrives(a, 4), Campaign(b, [t] + ([w] + [])), ttl);
    var c1 := Apply(c, VoteArrives(a, 4), ttl);
    assert c1.nodes[a] == LE.Node(a, 4, None, false, false, false, Some(ttl), 1, false, 0) && c1.store.lock == None;
    var c2 := Elected(c1, b, ttl, [t] + ([w] + []));
    RunCons(c2, t, [w] + [], ttl);
    RunCons(Apply(c2, t, ttl), w, [], ttl);
  }

  /** Without that condition the record can go wrong. Node a steps down, is elected again before
      its old heartbeat loop has ended, and so loses track of the new loop; that loop outlives
      a's second stepping down and overwrites the record of the new leader b. */
  lemma RecordCanGoWrong(a: NodeId, b: NodeId) returns (actions: seq<Action>, r: Cluster)
    requires a != b
    ensures r == Run(Init({a, b}, 0.0), actions, 30.0)
    ensures r.store.HeldBy(b, r.now) && r.store.leader == Some(LeaderRecord(a, 4))
  {
    hide Run;
    var tail := LostTurn(a, b);
    var middle := LeadAndForget(a, tail);
    actions := LeadAndLose(a, middle);
    var c1 := FirstLoss(a, b, 30.0, middle);
    var c2 := LosesTrack(c1, a, b, 30.0, tail);
    LostLoopWrites(c2, a, b, 30.0);
    r := Run(c2, tail, 30.0);
  }

  /** a leads, finds itself unhealthy at a turn of its own loop, and hears of term 2. */
  function LeadAndSicken(a: NodeId, rest: seq<Action>): seq<Action> {
    Campaign(a, [Beat(a, true, false)] + ([VoteArrives(a, 2)] + rest))
  }

  /** An unhealthy turn of the tracked loop of a fresh leader. */
  lemma GivesUp(s: Store, x: LE.Node, ttl: Ttl, now: Time)
    requires x.WellFormed() && x.isLeader && x.tracked && x.beats == 1 && x.unwinding == 0
    requires x.expires == Some(now + ttl) && s.lock == Some(LockEntry(x.id, now + ttl))
    ensures
      var r := LE.Beat(s, x, ttl, now, true, false);
      && r.0.lock == None
      && r.1 == x.(isLeader := false, locked := false, beats := 0, tracked := false, unwinding := 1)
  {
    var s' := s.SetLeader(x.id, x.term);
    assert s'.HeldBy(x.id, now);
    assert LE.Beat(s, x, ttl, now, true, false) == LE.LoseInBeat(s', x, now, true);
  }

  /** Once such a turn is over and term 2 has arrived, a is where another caller would have left it. */
  lemma SickAndOutvoted(c: Cluster, a: NodeId, b: NodeId, ttl: Ttl) returns (r: Cluster)
    requires a != b && WellFormed(c) && LeadsAfter(Init({a, b}, 0.0), c, a, ttl)
    ensures WellFormed(Apply(c, Beat(a, true, false), ttl))
    ensures r == Apply(Apply(c, Beat(a, true, false), ttl), VoteArrives(a, 2), ttl)
    ensures WellFormed(r) && LostOnce(r, a, b, ttl)
  {
    var beat := Beat(a, true, false);
    StaysWellFormed(c, beat, ttl);
    GivesUp(c.store, c.nodes[a], ttl, c.now);
    assert c.nodes[b] == LE.Fresh(b);
    hide LE.Beat;
    var c1 := Apply(c, beat, ttl);
    assert c1.nodes[a] == LE.Node(a, 1, Some(a), false, false, false, Some(ttl), 0, false, 1);
    StaysWellFormed(c1, VoteArrives(a, 2), ttl);
    r := Apply(c1, VoteArrives(a, 2), ttl);
  }

  /** The loop that gives up leadership itself leaves the same wait behind. */
  lemma FirstLossBySelf(a: NodeId, b: NodeId, ttl: Ttl, rest: seq<Action>) returns (r: Cluster)
    requires a != b
    ensures WellFormed(r) && LostOnce(r, a, b, ttl)
    ensures Run(Init({a, b}, 0.0), LeadAndSicken(a, rest), ttl) == Run(r, rest, ttl)
  {
    hide Run, NodeStep, LeadsAfter, LostOnce;
    var beat, arrives := Beat(a, true, false), VoteArrives(a, 2);
    var c := Elected(Init({a, b}, 0.0), a, ttl, [beat] + ([arrives] + rest));
    r := SickAndOutvoted(c, a, b, ttl);
    RunCons(c, beat, [arrives] + rest, ttl);
    RunCons(Apply(c, beat, ttl), arrives, rest, ttl);
  }

  /** Nor does it take another caller: a loop that gives up leadership itself loses track the same way. */
  lemma RecordCanGoWrongBySelf(a: NodeId, b: NodeId) returns (actions: seq<Action>, r: Cluster)
    requires a != b
    ensures r == Run(Init({a, b}, 0.0), actions, 30.0)
    ensures r.store.HeldBy(b, r.now) && r.store.leader == Some(LeaderRecord(a, 4))
  {
    hide Run;
    var tail := LostTurn(a, b);
    var middle := LeadAndForget(a, tail);
    actions := LeadAndSicken(a, middle);
    var c1 := FirstLossBySelf(a, b, 30.0, middle);
    var c2 := LosesTrack(c1, a, b, 30.0, tail);
    LostLoopWrites(c2, a, b, 30.0);
    r := Run(c2, tail, 30.0);
  }
}
