/** One node of leader election: terms, votes, the lease and its heartbeat loops.

    Each function gives the store and the node after one uninterrupted stretch of the source's
    coroutine; the class methods below change their fields step by step and are proved equal to
    these functions. The clock does not move inside a stretch. */
module LeaderElection {
  import opened Wrappers
  import opened StateStore

  /** beats: live heartbeat loops. tracked: _heartbeat_task refers to one of them.
      unwinding: calls of _lose_leadership that wait for the loop they cancelled and will then
      clear _heartbeat_task. */
  datatype Node = Node(
    id: NodeId,
    term: int,
    votedFor: Option<NodeId>,
    isLeader: bool,
    isCandidate: bool,
    locked: bool,
    expires: Option<Time>,
    beats: nat,
    tracked: bool,
    unwinding: nat
  ) {
    predicate WellFormed() {
      tracked ==> beats > 0
    }

    predicate LeaseLive(now: Time) {
      locked && expires.Some? && now <= expires.value
    }

    /** The answer check_is_leader gives. */
    predicate PassesCheck(now: Time) {
      isLeader && locked && !(expires.Some? && now > expires.value)
    }

    predicate NeedsRenewal(ttl: Ttl, now: Time) {
      expires.Some? && expires.value - now < ttl / 2.0
    }

    /** A heartbeat loop that may run: the tracked one, or one that was lost track of. */
    predicate CanBeat(own: bool) {
      if own then tracked && beats > 0 else beats > (if tracked then 1 else 0)
    }
  }

  function Fresh(id: NodeId): Node {
    Node(id, 0, None, false, false, false, None, 0, false, 0)
  }

  function StartElection(n: Node): Node {
    if n.isCandidate then n
    else n.(isCandidate := true, term := n.term + 1, votedFor := Some(n.id))
  }

  function FailElection(n: Node): Node {
    n.(isCandidate := false)
  }

  function BecomeLeader(s: Store, n: Node, ttl: Ttl, now: Time): (Store, Node) {
    if n.isLeader then (s, n)
    else
      var (s', ok) := s.Acquire(n.id, ttl, now);
      if !ok then (s, n.(isCandidate := false, isLeader := false))
      else
        (s'.SetLeader(n.id, n.term),
         n.(locked := true, expires := Some(now + ttl), isLeader := true, isCandidate := false,
            beats := n.beats + 1, tracked := true))
  }

  /** _lose_leadership up to the point where it waits for the loop it cancelled. */
  function Lose(s: Store, n: Node, now: Time): (Store, Node)
    requires n.WellFormed()
  {
    if !n.isLeader then (s, n)
    else
      var n' := n.(isLeader := false, locked := false);
      (s.Release(n.id, now).0,
       if n.tracked then n'.(beats := n.beats - 1, tracked := false, unwinding := n.unwinding + 1) else n')
  }

  /** The end of _lose_leadership: the reference to the heartbeat task is dropped. */
  function Unwind(n: Node): Node {
    if n.unwinding == 0 then n else n.(unwinding := n.unwinding - 1, tracked := false)
  }

  function EndBeat(n: Node, own: bool): Node
    requires n.beats > 0
  {
    n.(beats := n.beats - 1, tracked := !own && n.tracked)
  }

  /** _lose_leadership called by a heartbeat loop, which then ends. The tracked loop cancels and awaits
      itself: asyncio resumes it one turn of the event loop later, and only then does it drop the
      reference. */
  function LoseInBeat(s: Store, n: Node, now: Time, own: bool): (Store, Node)
    requires n.WellFormed() && n.CanBeat(own)
  {
    if own then
      var (s', n') := Lose(s, EndBeat(n, true), now);
      (s', if n.isLeader then n'.(unwinding := n'.unwinding + 1) else n')
    else
      var (s', n') := Lose(s, n, now);
      (s', EndBeat(n', false))
  }

  function BeatWrite(s: Store, n: Node, now: Time, own: bool, healthy: bool): (Store, Node)
    requires n.WellFormed() && n.CanBeat(own)
  {
    var s' := s.SetLeader(n.id, n.term);
    if !healthy then LoseInBeat(s', n, now, own)
    else if !n.isLeader then (s', EndBeat(n, own))
    else (s', n)
  }

  /** One turn of the heartbeat loop after its sleep. */
  function Beat(s: Store, n: Node, ttl: Ttl, now: Time, own: bool, healthy: bool): (Store, Node)
    requires n.WellFormed() && n.CanBeat(own)
  {
    if !n.NeedsRenewal(ttl, now) then BeatWrite(s, n, now, own, healthy)
    else
      var (s', ok) := s.Extend(n.id, ttl, now);
      if ok then BeatWrite(s', n.(expires := Some(now + ttl)), now, own, healthy)
      else LoseInBeat(s, n, now, own)
  }

  function Renew(s: Store, n: Node, ttl: Ttl, now: Time): (Store, Node, bool) {
    if !n.isLeader then (s, n, false)
    else
      var (s', ok) := s.Extend(n.id, ttl, now);
      (s', if ok then n.(expires := Some(now + ttl)) else n, ok)
  }

  function StepDown(s: Store, n: Node, newTerm: int, now: Time): (Store, Node)
    requires n.WellFormed()
  {
    if newTerm <= n.term then (s, n)
    else Lose(s, n.(term := newTerm, votedFor := None, isCandidate := false), now)
  }

  /** The last part of vote_for_candidate, after any stepping down. */
  function DecideVote(n: Node, candidate: NodeId): (Node, bool) {
    if n.votedFor == None || n.votedFor == Some(candidate)
    then (n.(votedFor := Some(candidate)), true)
    else (n, false)
  }

  function CheckIsLeader(s: Store, n: Node, now: Time): (Store, Node, bool)
    requires n.WellFormed()
  {
    if n.PassesCheck(now) then (s, n, true)
    else if n.isLeader && n.locked then
      var (s', n') := Lose(s, n, now);
      (s', n', false)
    else (s, n, false)
  }

  /** The first half of stop: the tracked heartbeat loop is cancelled, and waited for. */
  function StopBeat(n: Node): Node
    requires n.WellFormed()
  {
    if n.tracked then n.(beats := n.beats - 1, tracked := false) else n
  }

  /** The second half of stop, after the wait. */
  function StopRelease(s: Store, n: Node, now: Time): (Store, Node) {
    if n.locked then (s.Release(n.id, now).0, n.(locked := false)) else (s, n)
  }

  /** The elector with its fields changed in place. Reentrancy is modelled at the coroutine's
      own suspension points: LoseLeadership ends where the source waits for the cancelled
      heartbeat, and FinishLosing is what runs after that wait. */
  class LeaderElector {
    const id: NodeId
    const ttl: Ttl
    const store: NodeStateStore
    var term: int
    var votedFor: Option<NodeId>
    var isLeader: bool
    var isCandidate: bool
    var locked: bool
    var expires: Option<Time>
    var beats: nat
    var tracked: bool
    var unwinding: nat

    constructor (id: NodeId, ttl: Ttl, store: NodeStateStore)
      ensures View() == Fresh(id) && this.ttl == ttl && this.store == store
    {
      this.id, this.ttl, this.store := id, ttl, store;
      term, votedFor := 0, None;
      isLeader, isCandidate, locked, expires := false, false, false, None;
      beats, tracked, unwinding := 0, false, 0;
    }

    function View(): Node
      reads this
    {
      Node(id, term, votedFor, isLeader, isCandidate, locked, expires, beats, tracked, unwinding)
    }

    function Both(): (Store, Node)
      reads this, store
    {
      (store.View(), View())
    }

    method RunForElection()
      modifies this`isCandidate, this`term, this`votedFor
      ensures View() == StartElection(old(View()))
      ensures isCandidate
      ensures old(isCandidate) ==> term == old(term) && votedFor == old(votedFor)
      ensures !old(isCandidate) ==> term == old(term) + 1 && votedFor == Some(id)
    {
      if isCandidate {
        return;
      }
      isCandidate := true;
      term := term + 1;
      votedFor := Some(id);
    }

    /** The end of _start_election without a majority. */
    method EndElection()
      modifies this`isCandidate
      ensures View() == FailElection(old(View())) && !isCandidate
    {
      isCandidate := false;
    }

    method TakeLeadership(now: Time)
      modifies this, store
      ensures term == old(term) && votedFor == old(votedFor)
      ensures old(isLeader) ==> Both() == old(Both())
      ensures !old(isLeader) ==> !isCandidate && (isLeader <==> old(store.lock).None? || old(store.lock).value.expiry < now)
      ensures !old(isLeader) && isLeader ==>
        && locked && expires == Some(now + ttl) && store.lock == Some(LockEntry(id, now + ttl))
        && store.leader == Some(LeaderRecord(id, term)) && tracked && beats == old(beats) + 1
      ensures !isLeader ==> store.View() == old(store.View()) && locked == old(locked) && expires == old(expires)
      ensures Both() == BecomeLeader(old(store.View()), old(View()), ttl, now)
    {
      if isLeader {
        return;
      }
      var ok := store.AcquireLock(id, ttl, now);
      if !ok {
        isCandidate, isLeader := false, false;
        return;
      }
      locked := true;
      expires := Some(now + ttl);
      isLeader := true;
      isCandidate := false;
      store.SetLeader(id, term);
      beats, tracked := beats + 1, true;
    }

    method LoseLeadership(now: Time)
      requires View().WellFormed()
      modifies this, store
      ensures Both() == Lose(old(store.View()), old(View()), now)
      ensures !old(isLeader) ==> Both() == old(Both())
      ensures old(isLeader) ==>
        && !isLeader && !locked && !tracked
        && (store.lock.None? || store.lock.value.owner != id || store.lock.value.expiry < now)
        && beats == old(beats) - (if old(tracked) then 1 else 0)
      ensures store.lock == old(store.lock) || (old(store.lock).Some? && old(store.lock).value.owner == id)
      ensures store.leader == old(store.leader) && (term, votedFor, isCandidate) == old((term, votedFor, isCandidate))
    {
      if !isLeader {
        return;
      }
      isLeader := false;
      locked := false;
      var _ := store.ReleaseLock(id, now);
      if tracked {
        beats, tracked, unwinding := beats - 1, false, unwinding + 1;
      }
    }

    method FinishLosing()
      modifies this`unwinding, this`tracked
      ensures View() == Unwind(old(View()))
      ensures old(unwinding) > 0 ==> !tracked && unwinding == old(unwinding) - 1
    {
      if unwinding > 0 {
        unwinding, tracked := unwinding - 1, false;
      }
    }

    method LoseFromHeartbeat(now: Time, own: bool)
      requires View().WellFormed() && View().CanBeat(own)
      modifies this, store
      ensures Both() == LoseInBeat(old(store.View()), old(View()), now, own)
      ensures !isLeader && beats < old(beats)
      ensures old(isLeader) ==> !locked && (store.lock.None? || store.lock.value.owner != id || store.lock.value.expiry < now)
      ensures store.leader == old(store.leader)
    {
      if own {
        var waits := isLeader;
        beats, tracked := beats - 1, false;
        LoseLeadership(now);
        if waits {
          unwinding := unwinding + 1;
        }
      } else {
        LoseLeadership(now);
        beats := beats - 1;
      }
    }

    method Heartbeat(now: Time, own: bool, healthy: bool)
      requires View().WellFormed() && View().CanBeat(own)
      modifies this, store
      ensures Both() == Beat(old(store.View()), old(View()), ttl, now, own, healthy)
      ensures
        var due := old(expires).Some? && old(expires).value - now < ttl / 2.0;
        var mine := old(store.lock).Some? && old(store.lock).value.owner == id && now <= old(store.lock).value.expiry;
        && (store.leader == if due && !mine then old(store.leader) else Some(LeaderRecord(id, old(term))))
        && (old(isLeader) ==> (isLeader <==> healthy && (due ==> mine)))
        && (isLeader ==>
              && beats == old(beats) && locked == old(locked)
              && expires == (if due then Some(now + ttl) else old(expires))
              && store.lock == (if due then Some(LockEntry(id, now + ttl)) else old(store.lock)))
      ensures old(isLeader) && !isLeader ==>
        && !locked && beats < old(beats)
        && (store.lock.None? || store.lock.value.owner != id || store.lock.value.expiry < now)
    {
      hide LoseInBeat, BeatWrite;
      if expires.Some? {
        var remaining := expires.value - now;
        if remaining < ttl / 2.0 {
          var renewed := store.ExtendLock(id, ttl, now);
          if renewed {
            expires := Some(now + ttl);
          } else {
            LoseFromHeartbeat(now, own);
            return;
          }
        }
      }
      WriteRecord(now, own, healthy);
    }

    /** The part of a turn after any renewal. */
    method WriteRecord(now: Time, own: bool, healthy: bool)
      requires View().WellFormed() && View().CanBeat(own)
      modifies this, store
      ensures Both() == BeatWrite(old(store.View()), old(View()), now, own, healthy)
      ensures store.leader == Some(LeaderRecord(id, old(term)))
      ensures old(isLeader) ==> (isLeader <==> healthy)
      ensures isLeader ==>
        beats == old(beats) && locked == old(locked) && expires == old(expires) && store.lock == old(store.lock)
      ensures old(isLeader) && !isLeader ==>
        && !locked && beats < old(beats)
        && (store.lock.None? || store.lock.value.owner != id || store.lock.value.expiry < now)
    {
      store.SetLeader(id, term);
      if !healthy {
        LoseFromHeartbeat(now, own);
        return;
      }
      if !isLeader {
        beats := beats - 1;
        tracked := !own && tracked;
      }
    }

    method RenewLeadership(now: Time) returns (renewed: bool)
      modifies this, store
      ensures (store.View(), View(), renewed) == Renew(old(store.View()), old(View()), ttl, now)
      ensures renewed <==>
        && old(isLeader) && old(store.lock).Some?
        && old(store.lock).value.owner == id && now <= old(store.lock).value.expiry
      ensures expires == if renewed then Some(now + ttl) else old(expires)
      ensures store.lock == if renewed then Some(LockEntry(id, now + ttl)) else old(store.lock)
    {
      if !isLeader {
        return false;
      }
      renewed := store.ExtendLock(id, ttl, now);
      if renewed {
        expires := Some(now + ttl);
      }
    }

    method MoveToTerm(newTerm: int, now: Time)
      requires View().WellFormed()
      modifies this, store
      ensures Both() == StepDown(old(store.View()), old(View()), newTerm, now)
      ensures newTerm <= old(term) ==> Both() == old(Both())
      ensures newTerm > old(term) ==>
        && term == newTerm && votedFor == None && !isCandidate && !isLeader
        && (old(isLeader) ==> !locked && (store.lock.None? || store.lock.value.owner != id || store.lock.value.expiry < now))
    {
      if newTerm <= term {
        return;
      }
      term := newTerm;
      votedFor := None;
      isCandidate := false;
      if isLeader {
        LoseLeadership(now);
      }
    }

    /** vote_for_candidate when nothing else runs while it steps down. */
    method VoteForCandidate(candidate: NodeId, candidateTerm: int, now: Time) returns (granted: bool, answer: int)
      requires View().WellFormed()
      modifies this, store
      ensures answer == term
      ensures candidateTerm < old(term) ==> !granted && Both() == old(Both())
      ensures candidateTerm >= old(term) ==>
        var (s, n) := StepDown(old(store.View()), old(View()), candidateTerm, now);
        store.View() == s && (View(), granted) == DecideVote(n, candidate)
      ensures granted <==>
        || candidateTerm > old(term)
        || (candidateTerm == old(term) && (old(votedFor) == None || old(votedFor) == Some(candidate)))
      ensures granted ==> votedFor == Some(candidate) && term == candidateTerm
    {
      if candidateTerm < term {
        return false, term;
      }
      if candidateTerm > term {
        MoveToTerm(candidateTerm, now);
      }
      granted, answer := CastVote(candidate);
    }

    /** What vote_for_candidate does after stepping down, whatever ran while it waited: the answer
        carries the term of that later moment. */
    method CastVote(candidate: NodeId) returns (granted: bool, answer: int)
      modifies this`votedFor
      ensures (View(), granted) == DecideVote(old(View()), candidate) && answer == term
      ensures granted <==> old(votedFor) == None || old(votedFor) == Some(candidate)
      ensures votedFor == if granted then Some(candidate) else old(votedFor)
    {
      if votedFor == None || votedFor == Some(candidate) {
        votedFor := Some(candidate);
        return true, term;
      }
      return false, term;
    }

    method Check(now: Time) returns (leading: bool)
      requires View().WellFormed()
      modifies this, store
      ensures (store.View(), View(), leading) == CheckIsLeader(old(store.View()), old(View()), now)
      ensures leading <==> old(isLeader) && old(locked) && (old(expires).None? || now <= old(expires).value)
      ensures leading ==> Both() == old(Both())
      ensures !leading && old(isLeader) && old(locked) ==>
        !isLeader && !locked && (store.lock.None? || store.lock.value.owner != id || store.lock.value.expiry < now)
    {
      if !isLeader {
        return false;
      }
      if !locked {
        return false;
      }
      if expires.Some? && now > expires.value {
        LoseLeadership(now);
        return false;
      }
      return true;
    }

    /** stop up to the wait for the cancelled loop. */
    method HaltHeartbeat()
      requires View().WellFormed()
      modifies this`beats, this`tracked
      ensures View() == StopBeat(old(View()))
      ensures !tracked && beats == old(beats) - (if old(tracked) then 1 else 0)
    {
      if tracked {
        beats, tracked := beats - 1, false;
      }
    }

    /** stop after that wait. */
    method HaltRelease(now: Time)
      modifies this, store
      ensures Both() == StopRelease(old(store.View()), old(View()), now)
      ensures !locked && isLeader == old(isLeader)
      ensures old(locked) ==> store.lock.None? || store.lock.value.owner != id || store.lock.value.expiry < now
      ensures !old(locked) ==> store.View() == old(store.View())
    {
      if locked {
        var _ := store.ReleaseLock(id, now);
        locked := false;
      }
    }
  }
}
