/** The Redis side of leader election: one lock slot with an expiry, and the leader record.

    Every operation is one Redis command or one Lua script, hence atomic. A key is live while
    the clock has not passed its expiry. Redis refuses a non-positive expiry, so lifetimes are
    positive. */
module StateStore {
  import opened Wrappers

  type NodeId = string

  /** Seconds on the clock shared by every node and by Redis. */
  type Time = real

  type Ttl = t: real | t > 0.0 witness 1.0

  datatype LockEntry = LockEntry(owner: NodeId, expiry: Time)

  datatype LeaderRecord = LeaderRecord(node: NodeId, term: int)

  datatype Store = Store(lock: Option<LockEntry>, leader: Option<LeaderRecord>) {
    predicate Live(now: Time) {
      lock.Some? && now <= lock.value.expiry
    }

    predicate HeldBy(n: NodeId, now: Time) {
      Live(now) && lock.value.owner == n
    }

    /** SET key NX EX ttl. */
    function Acquire(owner: NodeId, ttl: Ttl, now: Time): (Store, bool) {
      if Live(now) then (this, false)
      else (this.(lock := Some(LockEntry(owner, now + ttl))), true)
    }

    /** Delete the key if the caller owns it. */
    function Release(owner: NodeId, now: Time): (Store, bool) {
      if HeldBy(owner, now) then (this.(lock := None), true) else (this, false)
    }

    /** EXPIRE the key if the caller owns it. */
    function Extend(owner: NodeId, ttl: Ttl, now: Time): (Store, bool) {
      if HeldBy(owner, now) then (this.(lock := Some(LockEntry(owner, now + ttl))), true)
      else (this, false)
    }

    function SetLeader(n: NodeId, term: int): Store {
      this.(leader := Some(LeaderRecord(n, term)))
    }
  }

  class NodeStateStore {
    var lock: Option<LockEntry>
    var leader: Option<LeaderRecord>

    constructor ()
      ensures View() == Store(None, None)
    {
      lock, leader := None, None;
    }

    function View(): Store
      reads this
    {
      Store(lock, leader)
    }

    method AcquireLock(owner: NodeId, ttl: Ttl, now: Time) returns (ok: bool)
      modifies this
      ensures (View(), ok) == old(View()).Acquire(owner, ttl, now)
      ensures ok <==> old(lock).None? || old(lock).value.expiry < now
      ensures lock == (if ok then Some(LockEntry(owner, now + ttl)) else old(lock)) && leader == old(leader)
    {
      if lock.Some? && now <= lock.value.expiry {
        return false;
      }
      lock := Some(LockEntry(owner, now + ttl));
      return true;
    }

    method ReleaseLock(owner: NodeId, now: Time) returns (ok: bool)
      modifies this
      ensures (View(), ok) == old(View()).Release(owner, now)
      ensures ok <==> old(lock).Some? && old(lock).value.owner == owner && now <= old(lock).value.expiry
      ensures lock == (if ok then None else old(lock)) && leader == old(leader)
    {
      if lock.Some? && now <= lock.value.expiry {
        if lock.value.owner == owner {
          lock := None;
          return true;
        }
      }
      return false;
    }

    method ExtendLock(owner: NodeId, ttl: Ttl, now: Time) returns (ok: bool)
      modifies this
      ensures (View(), ok) == old(View()).Extend(owner, ttl, now)
      ensures ok <==> old(lock).Some? && old(lock).value.owner == owner && now <= old(lock).value.expiry
      ensures lock == (if ok then Some(LockEntry(owner, now + ttl)) else old(lock)) && leader == old(leader)
    {
      if lock.Some? && now <= lock.value.expiry {
        if lock.value.owner == owner {
          lock := Some(LockEntry(owner, now + ttl));
          return true;
        }
      }
      return false;
    }

    method SetLeader(n: NodeId, term: int)
      modifies this
      ensures View() == old(View()).SetLeader(n, term)
      ensures leader == Some(LeaderRecord(n, term)) && lock == old(lock)
    {
      leader := Some(LeaderRecord(n, term));
    }

    method GetLeader() returns (r: (Option<NodeId>, int))
      ensures leader.None? ==> r == (None, 0)
      ensures leader.Some? ==> r == (Some(leader.value.node), leader.value.term)
    {
      match leader
      case None => return (None, 0);
      case Some(rec) => return (Some(rec.node), rec.term);
    }
  }
}
