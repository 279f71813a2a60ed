/** The fixed pool of KV cache blocks of one loaded model. */
module BlockPool {
  import opened Wrappers

  type RequestId = string

  /** A block size; division by zero would raise in the source. */
  type Size = n: int | n > 0 witness 1

  datatype Block = Block(tokens: int, owner: RequestId, isFree: bool)

  /** The pool's redundant state: the flag and owner of every block, the free set, the counters. */
  datatype Pool = Pool(
    blockSize: Size,
    blocks: seq<Block>,
    free: set<nat>,
    inUse: int,
    peak: int,
    requests: int,
    rejected: int
  ) {
    predicate Consistent() {
      && (forall i <- free :: 0 <= i < |blocks|)
      && (forall i :: 0 <= i < |blocks| ==> (blocks[i].isFree <==> i in free))
      && (forall i :: 0 <= i < |blocks| && blocks[i].isFree ==> blocks[i].owner == "")
      && inUse == |blocks| - |free|
    }

    /** Every block in use names the request that uses it. */
    predicate Owned() {
      forall i :: 0 <= i < |blocks| && !blocks[i].isFree ==> blocks[i].owner != ""
    }

    predicate HeldBy(i: int, r: RequestId) {
      0 <= i < |blocks| && !blocks[i].isFree && blocks[i].owner == r
    }
  }

  function UpTo(n: nat): set<nat> {
    if n == 0 then {} else UpTo(n - 1) + {n - 1}
  }

  function NewPool(maxBlocks: nat, blockSize: Size): Pool {
    Pool(blockSize, seq(maxBlocks, _ => Block(blockSize, "", true)), UpTo(maxBlocks), 0, 0, 0, 0)
  }

  /** Python's floor division by the positive block size. */
  function Needed(n: int, blockSize: Size): int
  {
    (n + blockSize - 1) / blockSize
  }

  // ---------------------------------------------------------------- eviction

  predicate Evictable(b: Block) {
    !b.isFree && b.owner == ""
  }

  /** The blocks the eviction pass frees: in use without an owner, in order, at most k of them. */
  function EvictedFrom(blocks: seq<Block>, i: nat, k: int): set<nat>
    requires i <= |blocks|
    decreases |blocks| - i
  {
    if i == |blocks| then {}
    else if Evictable(blocks[i]) && k > 0 then {i} + EvictedFrom(blocks, i + 1, k - 1)
    else EvictedFrom(blocks, i + 1, k)
  }

  function Freed(blocks: seq<Block>, ids: set<nat>): seq<Block> {
    seq(|blocks|, i requires 0 <= i < |blocks| =>
      if i in ids then blocks[i].(isFree := true, owner := "") else blocks[i])
  }

  function AfterFreeing(p: Pool, ids: set<nat>): Pool {
    p.(blocks := Freed(p.blocks, ids), free := p.free + ids, inUse := p.inUse - |ids|)
  }

  function AfterEviction(p: Pool, needed: int): Pool {
    if |p.free| < needed then AfterFreeing(p, EvictedFrom(p.blocks, 0, needed)) else p
  }

  lemma {:induction false} EvictedAre(blocks: seq<Block>, i: nat, k: int)
    requires i <= |blocks|
    ensures forall j <- EvictedFrom(blocks, i, k) :: i <= j < |blocks| && Evictable(blocks[j])
    ensures EvictedFrom(blocks, i, k) == {} <==> k <= 0 || forall j :: i <= j < |blocks| ==> !Evictable(blocks[j])
    decreases |blocks| - i
  {
    if i < |blocks| {
      EvictedAre(blocks, i + 1, k - 1);
      EvictedAre(blocks, i + 1, k);
    }
  }

  lemma EvictStep(blocks: seq<Block>, i: nat, k: int)
    requires i < |blocks|
    ensures EvictedFrom(blocks, i, k)
            == if Evictable(blocks[i]) && k > 0 then {i} + EvictedFrom(blocks, i + 1, k - 1)
               else EvictedFrom(blocks, i + 1, k)
  {
  }

  lemma EvictStop(blocks: seq<Block>, i: nat, k: int)
    requires i <= |blocks| && (i == |blocks| || k <= 0)
    ensures EvictedFrom(blocks, i, k) == {}
  {
    EvictedAre(blocks, i, k);
  }

  lemma FreeingKeepsConsistent(p: Pool, ids: set<nat>)
    requires p.Consistent() && forall i <- ids :: 0 <= i < |p.blocks| && !p.blocks[i].isFree
    ensures AfterFreeing(p, ids).Consistent()
  {
    assert p.free !! ids;
    assert |p.free + ids| == |p.free| + |ids|;
  }

  /** The eviction pass takes no more blocks than it may, and leaves none that it could take unless it
      has all that it needs. */
  lemma {:induction false} EvictedEnough(blocks: seq<Block>, i: nat, k: int)
    requires i <= |blocks|
    ensures |EvictedFrom(blocks, i, k)| <= Max(0, k)
    ensures |EvictedFrom(blocks, i, k)| < k ==>
      forall j: nat :: i <= j < |blocks| && Evictable(blocks[j]) ==> j in EvictedFrom(blocks, i, k)
    decreases |blocks| - i
  {
    if i < |blocks| {
      EvictStep(blocks, i, k);
      EvictedAre(blocks, i + 1, k - 1);
      EvictedEnough(blocks, i + 1, k - 1);
      EvictedEnough(blocks, i + 1, k);
      hide EvictedFrom, Evictable;
    }
  }

  /** It takes them from the front. */
  lemma {:induction false} EvictedFirst(blocks: seq<Block>, i: nat, k: int, l: nat, j: nat)
    requires i <= l < j < |blocks| && j in EvictedFrom(blocks, i, k) && Evictable(blocks[l])
    ensures l in EvictedFrom(blocks, i, k)
    decreases |blocks| - i
  {
    EvictStep(blocks, i, k);
    EvictedAre(blocks, i, k);
    if l > i {
      EvictedFirst(blocks, i + 1, if Evictable(blocks[i]) && k > 0 then k - 1 else k, l, j);
    }
  }

  /** The blocks in use that name no request. */
  function Ownerless(blocks: seq<Block>): set<nat> {
    set i: nat | i < |blocks| && !blocks[i].isFree && blocks[i].owner == ""
  }

  /** After the pass the free blocks are enough exactly if they are together with all that it may take. */
  lemma EvictionSuffices(p: Pool, needed: int)
    requires p.Consistent()
    ensures |AfterEviction(p, needed).free| >= needed <==> |p.free| + |Ownerless(p.blocks)| >= needed
    ensures |AfterEviction(p, needed).blocks| == |p.blocks|
    ensures |p.free| >= needed ==> AfterEviction(p, needed) == p
    ensures AfterEviction(p, needed).Consistent()
  {
    if |p.free| < needed {
      var ids, all := EvictedFrom(p.blocks, 0, needed), Ownerless(p.blocks);
      EvictedAre(p.blocks, 0, needed);
      EvictedEnough(p.blocks, 0, needed);
      FreeingKeepsConsistent(p, ids);
      assert p.free !! ids;
      assert |p.free + ids| == |p.free| + |ids|;
      hide EvictedFrom;
      assert ids <= all;
      assert all == ids + (all - ids);
      if |ids| < needed {
        assert all <= ids;
      }
    }
  }

  lemma EvictedMeans(p: Pool, needed: int)
    requires p.Consistent() && needed > 0
    ensures
      var q := AfterFreeing(p, EvictedFrom(p.blocks, 0, needed));
      && |q.blocks| == |p.blocks|
      && (forall i :: 0 <= i < |p.blocks| ==>
            if p.blocks[i].isFree || p.blocks[i].owner != "" then q.blocks[i] == p.blocks[i]
            else q.blocks[i].isFree || q.blocks[i] == p.blocks[i])
      && |q.free| <= |p.free| + needed
      && (|q.free| < |p.free| + needed ==> forall b <- q.blocks :: b.isFree || b.owner != "")
      && (forall i, j :: 0 <= i < j < |p.blocks| && q.blocks[j] != p.blocks[j] ==> q.blocks[i].isFree || q.blocks[i].owner != "")
  {
    var ids := EvictedFrom(p.blocks, 0, needed);
    EvictedAre(p.blocks, 0, needed);
    EvictedEnough(p.blocks, 0, needed);
    assert p.free !! ids;
    assert |p.free + ids| == |p.free| + |ids|;
    hide EvictedFrom;
    var q := AfterFreeing(p, ids);
    forall i, j | 0 <= i < j < |p.blocks| && q.blocks[j] != p.blocks[j] ensures q.blocks[i].isFree || q.blocks[i].owner != "" {
      if Evictable(p.blocks[i]) {
        EvictedFirst(p.blocks, 0, needed, i, j);
      }
    }
  }

  lemma FreeNone(p: Pool)
    ensures AfterFreeing(p, {}) == p
  {
    assert Freed(p.blocks, {}) == p.blocks;
    assert p.free + {} == p.free;
  }

  lemma FreeOneMore(p: Pool, ids: set<nat>, i: nat)
    requires i < |p.blocks| && i !in ids
    ensures AfterFreeing(AfterFreeing(p, ids), {i}) == AfterFreeing(p, ids + {i})
    ensures
      var q := AfterFreeing(p, ids + {i});
      && |q.blocks| == |p.blocks| && q.blocks[i].isFree
      && forall j :: 0 <= j < |p.blocks| && j != i ==> q.blocks[j] == AfterFreeing(p, ids).blocks[j]
  {
    assert Freed(Freed(p.blocks, ids), {i}) == Freed(p.blocks, ids + {i});
    assert p.free + ids + {i} == p.free + (ids + {i});
  }

  /** The eviction pass takes a block exactly when some block in use has an empty request id. */
  lemma EvictionTakesNothing(p: Pool, needed: int)
    requires p.Consistent() && |p.free| < needed
    ensures AfterEviction(p, needed).Consistent()
    ensures AfterEviction(p, needed) == p <==> p.Owned()
  {
    EvictedAre(p.blocks, 0, needed);
    var ids := EvictedFrom(p.blocks, 0, needed);
    FreeingKeepsConsistent(p, ids);
    if ids == {} {
      assert Freed(p.blocks, ids) == p.blocks;
    } else {
      var i :| i in ids;
      assert Freed(p.blocks, ids)[i].isFree && !p.blocks[i].isFree;
    }
  }

  // ---------------------------------------------------------------- allocation and release

  /** The k-th block of a grant of n tokens carries this many of them. */
  function Share(n: int, blockSize: Size, k: int): int {
    Min(blockSize, n - k * blockSize)
  }

  function SetOf(ids: seq<nat>): set<nat> {
    set i | i in ids
  }

  predicate Distinct(ids: seq<nat>) {
    forall j, k :: 0 <= j < k < |ids| ==> ids[j] != ids[k]
  }

  /** The blocks after ids were handed to r, in this order, for n tokens. */
  predicate Handed(was: seq<Block>, blockSize: Size, n: int, r: RequestId, ids: seq<nat>, blocks: seq<Block>) {
    && |blocks| == |was|
    && (forall k :: 0 <= k < |ids| ==> ids[k] < |was| && blocks[ids[k]] == Block(Share(n, blockSize, k), r, false))
    && (forall i: nat :: i < |was| && i !in ids ==> blocks[i] == was[i])
  }

  /** The blocks ids are distinct free blocks of p, and p' is p with them handed to r. */
  predicate Given(p: Pool, n: int, r: RequestId, ids: seq<nat>, p': Pool) {
    && Distinct(ids) && SetOf(ids) <= p.free && p'.free == p.free - SetOf(ids)
    && p'.blockSize == p.blockSize
    && Handed(p.blocks, p.blockSize, n, r, ids, p'.blocks)
  }

  /** A whole grant of n tokens. */
  ghost predicate Granted(p: Pool, n: int, r: RequestId, ids: seq<nat>, p': Pool)
  {
    && |ids| == Max(0, Needed(n, p.blockSize)) && Given(p, n, r, ids, p')
    && p'.inUse == p.inUse + |ids| && p'.peak == Max(p.peak, p'.inUse)
    && p'.requests == p.requests + 1 && p'.rejected == p.rejected
  }

  /** What allocate may do and answer. */
  ghost predicate Allocates(p: Pool, n: int, r: RequestId, answer: Option<seq<nat>>, p': Pool)
  {
    var needed := Needed(n, p.blockSize);
    if needed > |p.blocks| then answer == None && p' == p.(rejected := p.rejected + 1)
    else
      var q := AfterEviction(p, needed);
      if |q.free| < needed then answer == None && p' == q.(rejected := q.rejected + 1)
      else answer.Some? && Granted(q, n, r, answer.value, p')
  }

  /** The blocks among ids that r holds. */
  function HeldAmong(p: Pool, ids: seq<int>, r: RequestId): set<nat> {
    set i: nat | i in ids && p.HeldBy(i, r)
  }

  function Released(p: Pool, ids: seq<int>, r: RequestId): Pool {
    AfterFreeing(p, HeldAmong(p, ids, r))
  }

  lemma FreedBlock(p: Pool, ids: set<nat>, i: int)
    ensures
      var q := AfterFreeing(p, ids);
      && |q.blocks| == |p.blocks|
      && (0 <= i < |p.blocks| ==>
            if i in ids then q.blocks[i].isFree else q.blocks[i] == p.blocks[i])
  {
  }

  /** Releasing frees the blocks among ids that r holds, and touches no other. */
  lemma ReleaseMeans(p: Pool, ids: seq<int>, r: RequestId)
    requires p.Consistent()
    ensures
      var q := Released(p, ids, r);
      && |q.blocks| == |p.blocks|
      && (forall i :: 0 <= i < |p.blocks| ==>
            if i in ids && !p.blocks[i].isFree && p.blocks[i].owner == r
            then q.blocks[i] == p.blocks[i].(isFree := true, owner := "") && i in q.free
            else q.blocks[i] == p.blocks[i] && (i in q.free <==> i in p.free))
      && |q.free| + q.inUse == |p.free| + p.inUse
  {
    FreeingKeepsConsistent(p, HeldAmong(p, ids, r));
  }

  lemma ReleasedOwned(p: Pool, ids: seq<int>, r: RequestId)
    ensures p.Owned() ==> Released(p, ids, r).Owned()
  {
  }

  lemma HeldAmongStep(p: Pool, ids: seq<int>, k: nat, r: RequestId)
    requires k < |ids|
    ensures HeldAmong(p, ids[..k + 1], r)
            == HeldAmong(p, ids[..k], r) + (if p.HeldBy(ids[k], r) then {ids[k]} else {})
  {
    assert ids[..k + 1] == ids[..k] + [ids[k]];
  }

  class Blocks {
    const blockSize: Size
    const maxBlocks: nat
    var blocks: seq<Block>
    var free: set<nat>
    var inUse: int
    var peak: int
    var requests: int
    var rejected: int

    function View(): Pool
      reads this
    {
      Pool(blockSize, blocks, free, inUse, peak, requests, rejected)
    }

    ghost predicate Valid()
      reads this
    {
      View().Consistent() && |blocks| == maxBlocks
    }

    constructor (maxBlocks: nat, blockSize: Size)
      ensures Valid() && View() == NewPool(maxBlocks, blockSize) && View().Owned()
      ensures this.blockSize == blockSize && |blocks| == maxBlocks && |free| == maxBlocks
    {
      this.maxBlocks, this.blockSize := maxBlocks, blockSize;
      blocks := seq(maxBlocks, _ => Block(blockSize, "", true));
      free := UpTo(maxBlocks);
      inUse, peak, requests, rejected := 0, 0, 0, 0;
      new;
      NewPoolConsistent(maxBlocks, blockSize);
      UpToHas(maxBlocks);
    }

    method FreeBlock(i: nat)
      requires Valid() && i < |blocks| && !blocks[i].isFree
      modifies this
      ensures Valid() && View() == AfterFreeing(old(View()), {i})
    {
      FreeingKeepsConsistent(View(), {i});
      ghost var was := View();
      blocks := blocks[i := blocks[i].(isFree := true, owner := "")];
      free := free + {i};
      inUse := inUse - 1;
      assert blocks == Freed(was.blocks, {i});
    }

    method ActiveRequests() returns (active: set<RequestId>)
      ensures forall b <- blocks :: !b.isFree && b.owner != "" ==> b.owner in active
    {
      active := {};
      for i := 0 to |blocks|
        invariant forall j :: 0 <= j < i && !blocks[j].isFree && blocks[j].owner != "" ==> blocks[j].owner in active
      {
        if !blocks[i].isFree && blocks[i].owner != "" {
          active := active + {blocks[i].owner};
        }
      }
    }

    /** _evict_idle_blocks: blocks of requests that still hold some block are skipped. */
    method EvictIdle(needed: int)
      requires Valid() && needed > 0
      modifies this
      ensures Valid() && View() == AfterFreeing(old(View()), EvictedFrom(old(blocks), 0, needed))
    {
      hide AfterFreeing, Pool.Consistent, EvictedFrom;
      ghost var was := View();
      var active := ActiveRequests();
      var evicted := 0;
      ghost var ids: set<nat> := {};
      var i := 0;
      FreeNone(was);
      while i < |blocks|
        invariant 0 <= i <= |blocks| == |was.blocks| && 0 <= evicted <= needed
        invariant View() == AfterFreeing(was, ids) && Valid()
        invariant ids + EvictedFrom(was.blocks, i, needed - evicted) == EvictedFrom(was.blocks, 0, needed)
        invariant forall j <- ids :: 0 <= j < i
        decreases |blocks| - i
      {
        FreedBlock(was, ids, i);
        EvictStep(was.blocks, i, needed - evicted);
        var b := blocks[i];
        assert b in was.blocks;
        if b.isFree || (b.owner != "" && b.owner in active) {
          i := i + 1;
          continue;
        }
        if evicted >= needed {
          break;
        }
        FreeOneMore(was, ids, i);
        FreeBlock(i);
        ids := ids + {i};
        evicted := evicted + 1;
        i := i + 1;
      }
      EvictStop(was.blocks, i, needed - evicted);
    }

    /** One turn of the loop of allocate: pop some free block and hand it to r. */
    method TakeOne(ghost q: Pool, n: int, r: RequestId, left: int, ghost ids: seq<nat>) returns (id: nat, left': int)
      requires q.blockSize == blockSize && q.Consistent() && Given(q, n, r, ids, View())
      requires free != {} && |ids| < Needed(n, blockSize) && left == n - TokensBefore(n, blockSize, |ids|)
      modifies this`blocks, this`free
      ensures Given(q, n, r, ids + [id], View()) && |free| == old(|free|) - 1
      ensures left' == n - TokensBefore(n, blockSize, |ids| + 1)
    {
      hide Given, Pool.Consistent, TokensBefore, Needed, Share;
      ShareStep(n, blockSize, |ids|);
      ghost var before := View();
      id :| id in free;
      GivenOneMore(q, n, r, ids, before, id);
      var share := Min(blockSize, left);
      free := free - {id};
      blocks := blocks[id := Block(share, r, false)];
      left' := left - share;
    }

    method TakeBlocks(needed: int, n: int, r: RequestId) returns (ids: seq<nat>)
      requires Valid() && needed == Needed(n, blockSize) && needed <= |free|
      modifies this`blocks, this`free
      ensures |ids| == Max(0, needed) && Given(old(View()), n, r, ids, View())
    {
      ghost var q := View();
      ids := [];
      var left := n;
      NothingGiven(q, n, r);
      hide Given, Pool.Consistent, TokensBefore, Needed, Share;
      while |ids| < needed
        invariant |ids| <= Max(0, needed) && left == n - TokensBefore(n, blockSize, |ids|)
        invariant Given(q, n, r, ids, View())
        invariant |free| == |q.free| - |ids|
      {
        var id, left' := TakeOne(q, n, r, left, ids);
        left := left';
        ids := ids + [id];
      }
    }

    method Grant(needed: int, n: int, r: RequestId) returns (ids: seq<nat>)
      requires Valid() && needed == Needed(n, blockSize) && needed <= |free|
      modifies this
      ensures Valid() && Granted(old(View()), n, r, ids, View())
    {
      hide Given;
      ghost var q := View();
      ids := TakeBlocks(needed, n, r);
      inUse := inUse + |ids|;
      requests := requests + 1;
      peak := Max(peak, inUse);
      CountersDoNotMatterToGrant(q, n, r, ids, View());
      GrantKeepsConsistent(q, n, r, ids, View());
    }

    method Reject()
      requires Valid()
      modifies this`rejected
      ensures Valid() && View() == old(View()).(rejected := old(rejected) + 1)
    {
      rejected := rejected + 1;
    }

    method Allocate(n: int, r: RequestId) returns (answer: Option<seq<nat>>)
      requires Valid()
      modifies this
      ensures Valid() && Allocates(old(View()), n, r, answer, View())
      ensures old(View()).Owned() && r != "" ==> View().Owned()
      ensures answer.Some? <==> n <= (|old(free)| + |Ownerless(old(blocks))|) * blockSize
      ensures old(View()).Owned() ==>
        && (answer.Some? <==> n <= |old(free)| * blockSize)
        && (answer.None? ==> blocks == old(blocks) && free == old(free) && inUse == old(inUse) && requests == old(requests))
        && (answer.Some? ==>
              var ids := answer.value;
              && (n > 0 ==> (|ids| - 1) * blockSize < n <= |ids| * blockSize) && (n <= 0 ==> ids == [])
              && (forall j, k :: 0 <= j < k < |ids| ==> ids[j] != ids[k])
              && (forall i <- ids :: i in old(free) && i < |blocks| && !blocks[i].isFree && blocks[i].owner == r)
              && |blocks| == |old(blocks)|
              && (forall i: nat :: i < |blocks| && i !in ids ==> blocks[i] == old(blocks)[i])
              && (forall i: nat :: i in free <==> i in old(free) && i !in ids)
              && inUse == old(inUse) + |ids| && peak == Max(old(peak), inUse) && requests == old(requests) + 1)
      ensures rejected == old(rejected) + (if answer.None? then 1 else 0)
    {
      ghost var was := View();
      var needed := Needed(n, blockSize);
      hide Granted, AfterFreeing, Pool.Consistent, Pool.Owned, EvictedFrom, Needed, Ownerless;
      if needed > maxBlocks {
        Reject();
        Explain(was, n, r, None, View());
        return None;
      }
      if |free| < needed {
        EvictIdle(needed);
        if |free| < needed {
          Reject();
          Explain(was, n, r, None, View());
          return None;
        }
      }
      var ids := Grant(needed, n, r);
      Explain(was, n, r, Some(ids), View());
      return Some(ids);
    }

    method Release(ids: seq<int>, r: RequestId)
      requires Valid()
      modifies this
      ensures Valid() && View() == Released(old(View()), ids, r)
      ensures old(View()).Owned() ==> View().Owned()
    {
      hide Freed, Pool.Consistent, Pool.Owned;
      ghost var was := View();
      ghost var done: set<nat> := {};
      FreeNone(was);
      for k := 0 to |ids|
        invariant done == HeldAmong(was, ids[..k], r)
        invariant View() == AfterFreeing(was, done) && Valid()
      {
        HeldAmongStep(was, ids, k, r);
        var id := ids[k];
        FreedBlock(was, done, id);
        if 0 <= id < |blocks| && !blocks[id].isFree {
          if blocks[id].owner == r {
            FreeOneMore(was, done, id);
            FreeBlock(id);
            done := done + {id};
          }
        }
      }
      assert ids[..|ids|] == ids;
      ReleasedOwned(was, ids, r);
    }

    /** get_allocatable_blocks. */
    method Allocatable(n: int) returns (count: nat)
      requires Valid()
      ensures count == AllocatableCount(View(), n)
    {
      var needed := (n + blockSize - 1) / blockSize;
      if needed <= 0 {
        return 0;
      }
      return |free| / needed;
    }
  }

  lemma NewPoolConsistent(maxBlocks: nat, blockSize: Size)
    ensures NewPool(maxBlocks, blockSize).Consistent() && NewPool(maxBlocks, blockSize).Owned()
  {
    UpToHas(maxBlocks);
  }

  lemma {:induction false} UpToHas(n: nat)
    ensures |UpTo(n)| == n && forall i :: i in UpTo(n) <==> 0 <= i < n
  {
    if n > 0 {
      UpToHas(n - 1);
    }
  }

  /** Tokens carried by the first k blocks of a grant of n. */
  function TokensBefore(n: int, blockSize: Size, k: nat): int {
    if k == 0 then 0 else TokensBefore(n, blockSize, k - 1) + Share(n, blockSize, k - 1)
  }

  /** A number of blocks is enough for n tokens exactly if they carry n. */
  lemma EnoughMeans(n: int, blockSize: Size, f: nat)
    ensures Needed(n, blockSize) <= f <==> n <= f * blockSize
  {
    NeededMeans(n, blockSize);
    if Needed(n, blockSize) <= f {
      MulLe(Needed(n, blockSize), f, blockSize);
    } else {
      MulLe(f, Needed(n, blockSize) - 1, blockSize);
    }
  }

  /** What r has after a grant of n tokens from p: enough blocks and not one more, all free before, and
      nobody else's block is touched. */
  ghost predicate HandedOut(p: Pool, n: int, r: RequestId, ids: seq<nat>, p': Pool) {
    && (n > 0 ==> (|ids| - 1) * p.blockSize < n <= |ids| * p.blockSize) && (n <= 0 ==> ids == [])
    && (forall j, k :: 0 <= j < k < |ids| ==> ids[j] != ids[k])
    && (forall i <- ids :: i in p.free && i < |p'.blocks| && !p'.blocks[i].isFree && p'.blocks[i].owner == r)
    && |p'.blocks| == |p.blocks|
    && (forall i: nat :: i < |p'.blocks| && i !in ids ==> p'.blocks[i] == p.blocks[i])
    && (forall i: nat :: i in p'.free <==> i in p.free && i !in ids)
    && p'.inUse == p.inUse + |ids| && p'.peak == Max(p.peak, p'.inUse) && p'.requests == p.requests + 1
  }

  lemma GrantHandsOut(p: Pool, n: int, r: RequestId, ids: seq<nat>, p': Pool)
    requires p.Consistent() && Granted(p, n, r, ids, p')
    ensures HandedOut(p, n, r, ids, p')
  {
    NeededMeans(n, p.blockSize);
    NeededPositive(n, p.blockSize);
    GrantKeepsConsistent(p, n, r, ids, p');
  }

  /** Where every block in use has an owner, an allocation succeeds exactly if the free blocks carry n
      tokens; otherwise no block and no counter but that of the rejections changes. */
  lemma AllocationMeans(p: Pool, n: int, r: RequestId, answer: Option<seq<nat>>, p': Pool)
    requires p.Consistent() && p.Owned() && Allocates(p, n, r, answer, p')
    ensures answer.Some? <==> n <= |p.free| * p.blockSize
    ensures answer.Some? ==> HandedOut(p, n, r, answer.value, p')
    ensures answer.None? ==> p' == p.(rejected := p.rejected + 1)
  {
    var needed := Needed(n, p.blockSize);
    FreeWithin(p);
    EnoughMeans(n, p.blockSize, |p.free|);
    KeepsWhenOwned(p, needed);
    hide Granted, AfterEviction, HandedOut, Needed;
    if answer.Some? {
      GrantHandsOut(p, n, r, answer.value, p');
    }
  }

  lemma OwnerlessWithin(p: Pool)
    requires p.Consistent()
    ensures |p.free| + |Ownerless(p.blocks)| <= |p.blocks|
  {
    UpToHas(|p.blocks|);
    var all, used := UpTo(|p.blocks|), Ownerless(p.blocks);
    assert p.free !! used;
    assert |p.free + used| == |p.free| + |used|;
    assert all == p.free + used + (all - (p.free + used));
  }

  lemma EnoughBlocks(p: Pool, n: int, r: RequestId, answer: Option<seq<nat>>, p': Pool)
    requires p.Consistent() && Allocates(p, n, r, answer, p')
    ensures answer.Some? <==> Needed(n, p.blockSize) <= |p.free| + |Ownerless(p.blocks)|
  {
    EvictionSuffices(p, Needed(n, p.blockSize));
    OwnerlessWithin(p);
    hide Granted, AfterEviction, Needed, Ownerless, Pool.Consistent;
  }

  /** In any pool: granted exactly if the free blocks and those in use without an owner carry n tokens. */
  lemma GrantedWhen(p: Pool, n: int, r: RequestId, answer: Option<seq<nat>>, p': Pool)
    requires p.Consistent() && Allocates(p, n, r, answer, p')
    ensures answer.Some? <==> n <= (|p.free| + |Ownerless(p.blocks)|) * p.blockSize
  {
    hide *;
    EnoughBlocks(p, n, r, answer, p');
    EnoughMeans(n, p.blockSize, |p.free| + |Ownerless(p.blocks)|);
  }

  /** The same for any pool: what happens if every block in use has an owner, and the count of rejections. */
  lemma Explain(p: Pool, n: int, r: RequestId, answer: Option<seq<nat>>, p': Pool)
    requires p.Consistent() && Allocates(p, n, r, answer, p')
    ensures p'.rejected == p.rejected + (if answer.None? then 1 else 0)
    ensures answer.Some? <==> n <= (|p.free| + |Ownerless(p.blocks)|) * p.blockSize
    ensures p.Owned() && r != "" ==> p'.Owned()
    ensures p.Owned() ==>
      && (answer.Some? <==> n <= |p.free| * p.blockSize)
      && (answer.Some? ==> HandedOut(p, n, r, answer.value, p'))
      && (answer.None? ==> p' == p.(rejected := p.rejected + 1))
  {
    GrantedWhen(p, n, r, answer, p');
    hide HandedOut, EvictedFrom, Needed, Ownerless;
    if p.Owned() {
      AllocationMeans(p, n, r, answer, p');
      if r != "" {
        StepKeepsInv(p, Alloc(n, r, answer), p');
      }
    }
  }

  /** All blocks of a grant but the last are full. */
  lemma {:induction false} TokensStep(n: int, blockSize: Size, k: nat)
    requires k < Needed(n, blockSize)
    ensures TokensBefore(n, blockSize, k) == k * blockSize
    ensures n - k * blockSize > 0
    ensures Share(n, blockSize, k) == Min(blockSize, n - TokensBefore(n, blockSize, k))
  {
    NeededMeans(n, blockSize);
    MulLe(k, Needed(n, blockSize) - 1, blockSize);
    if k > 0 {
      TokensStep(n, blockSize, k - 1);
      MulNext(k - 1, blockSize);
      MulLe(k, Needed(n, blockSize) - 1, blockSize);
      FullShare(n, blockSize, k - 1);
    }
  }

  lemma MulNext(k: int, c: int)
    ensures (k + 1) * c == k * c + c
  {
  }

  /** A block with another one after it is full. */
  lemma FullShare(n: int, blockSize: Size, k: nat)
    requires k + 1 < Needed(n, blockSize)
    ensures Share(n, blockSize, k) == blockSize
  {
    NeededMeans(n, blockSize);
    MulLe(k + 1, Needed(n, blockSize) - 1, blockSize);
    MulNext(k, blockSize);
  }

  lemma ShareStep(n: int, blockSize: Size, k: nat)
    requires k < Needed(n, blockSize)
    ensures Share(n, blockSize, k) == Min(blockSize, n - TokensBefore(n, blockSize, k))
    ensures TokensBefore(n, blockSize, k + 1) == TokensBefore(n, blockSize, k) + Share(n, blockSize, k)
  {
    TokensStep(n, blockSize, k);
  }

  lemma NeededMeans(n: int, blockSize: Size)
    ensures (Needed(n, blockSize) - 1) * blockSize < n <= Needed(n, blockSize) * blockSize
  {
  }

  /** Tokens in the first k of the blocks ids. */
  function TokenSum(p: Pool, ids: seq<nat>, k: nat): int
    requires k <= |ids| && forall j :: 0 <= j < k ==> 0 <= ids[j] < |p.blocks|
  {
    if k == 0 then 0 else TokenSum(p, ids, k - 1) + p.blocks[ids[k - 1]].tokens
  }

  lemma {:induction false} SumOfShares(p: Pool, n: int, ids: seq<nat>, k: nat)
    requires k <= |ids| && forall j :: 0 <= j < k ==> 0 <= ids[j] < |p.blocks|
    requires forall j :: 0 <= j < k ==> p.blocks[ids[j]].tokens == Share(n, p.blockSize, j)
    ensures TokenSum(p, ids, k) == TokensBefore(n, p.blockSize, k)
  {
    if k > 0 {
      SumOfShares(p, n, ids, k - 1);
    }
  }

  /** A grant for n > 0 tokens has ceil(n / blockSize) blocks, each carrying 1 to blockSize tokens,
      and together they carry exactly n. */
  lemma GrantCarriesAll(p: Pool, n: int, r: RequestId, ids: seq<nat>, p': Pool)
    requires p.Consistent() && n > 0 && Granted(p, n, r, ids, p')
    ensures (|ids| - 1) * p.blockSize < n <= |ids| * p.blockSize
    ensures forall k :: 0 <= k < |ids| ==> 0 <= ids[k] < |p'.blocks| && 0 < p'.blocks[ids[k]].tokens <= p.blockSize
    ensures TokenSum(p', ids, |ids|) == n
  {
    NeededMeans(n, p.blockSize);
    var last := |ids| - 1;
    NeededPositive(n, p.blockSize);
    TokensStep(n, p.blockSize, last);
    forall k | 0 <= k < |ids| ensures 0 < p'.blocks[ids[k]].tokens <= p.blockSize {
      TokensStep(n, p.blockSize, k);
    }
    SumOfShares(p', n, ids, |ids|);
  }

  lemma NeededPositive(n: int, blockSize: Size)
    ensures n > 0 <==> Needed(n, blockSize) > 0
  {
  }

  lemma {:induction false} DistinctSize(ids: seq<nat>)
    requires Distinct(ids)
    ensures |SetOf(ids)| == |ids|
  {
    if ids != [] {
      var init := ids[..|ids| - 1];
      DistinctSize(init);
      assert SetOf(ids) == SetOf(init) + {ids[|ids| - 1]};
    }
  }

  lemma NothingGiven(q: Pool, n: int, r: RequestId)
    ensures Given(q, n, r, [], q) && TokensBefore(n, q.blockSize, 0) == 0
  {
  }

  lemma HandedOneMore(was: seq<Block>, blockSize: Size, n: int, r: RequestId, ids: seq<nat>, blocks: seq<Block>, id: nat)
    requires Handed(was, blockSize, n, r, ids, blocks) && id < |was| && id !in ids
    ensures Handed(was, blockSize, n, r, ids + [id], blocks[id := Block(Share(n, blockSize, |ids|), r, false)])
  {
    var ids', blocks' := ids + [id], blocks[id := Block(Share(n, blockSize, |ids|), r, false)];
    forall k | 0 <= k < |ids'|
      ensures ids'[k] < |was| && blocks'[ids'[k]] == Block(Share(n, blockSize, k), r, false)
    {
      if k < |ids| {
        assert ids'[k] == ids[k] && ids[k] in ids;
      }
    }
    forall i: nat | i < |was| && i !in ids' ensures blocks'[i] == was[i] {
      assert ids'[|ids|] == id;
      assert i !in ids;
    }
  }

  lemma GivenOneMore(q: Pool, n: int, r: RequestId, ids: seq<nat>, p: Pool, id: nat)
    requires q.Consistent() && Given(q, n, r, ids, p) && id in p.free
    ensures id < |p.blocks| && |p.free - {id}| == |p.free| - 1
    ensures Given(q, n, r, ids + [id],
                  p.(blocks := p.blocks[id := Block(Share(n, q.blockSize, |ids|), r, false)], free := p.free - {id}))
  {
    assert id < |q.blocks| && |p.blocks| == |q.blocks|;
    hide Pool.Consistent, Share;
    assert id !in SetOf(ids);
    assert SetOf(ids + [id]) == SetOf(ids) + {id};
    HandedOneMore(q.blocks, q.blockSize, n, r, ids, p.blocks, id);
    hide Handed;
    DistinctOneMore(ids, id);
  }

  lemma DistinctOneMore(ids: seq<nat>, id: nat)
    requires Distinct(ids) && id !in ids
    ensures Distinct(ids + [id])
  {
    var ids' := ids + [id];
    forall j, k | 0 <= j < k < |ids'| ensures ids'[j] != ids'[k] {
      assert ids'[j] in ids;
    }
  }

  lemma CountersDoNotMatter(p: Pool, p': Pool)
    requires p.Consistent() && p' == p.(rejected := p'.rejected)
    ensures p'.Consistent()
  {
  }

  lemma CountersDoNotMatterToGrant(q: Pool, n: int, r: RequestId, ids: seq<nat>, p: Pool)
    requires Given(q, n, r, ids, p.(inUse := q.inUse, peak := q.peak, requests := q.requests))
    ensures Given(q, n, r, ids, p)
  {
  }

  lemma GrantKeepsConsistent(p: Pool, n: int, r: RequestId, ids: seq<nat>, p': Pool)
    requires p.Consistent() && Granted(p, n, r, ids, p')
    ensures p'.Consistent() && |p'.free| == |p.free| - |ids| && |p'.blocks| == |p.blocks|
    ensures p.Owned() && r != "" ==> p'.Owned()
    ensures forall i <- ids :: i in p.free && p'.HeldBy(i, r)
    ensures forall i :: 0 <= i < |p.blocks| && i !in ids ==> p'.blocks[i] == p.blocks[i]
  {
    DistinctSize(ids);
    assert |p.free - SetOf(ids)| == |p.free| - |SetOf(ids)|;
    forall i | i in ids ensures i in p.free && p'.HeldBy(i, r) {
      var k :| 0 <= k < |ids| && ids[k] == i;
    }
  }

  /** Releasing a grant gives every block back and touches no other request's blocks. */
  lemma ReleaseUndoesGrant(p: Pool, n: int, r: RequestId, ids: seq<nat>, p': Pool)
    requires p.Consistent() && Granted(p, n, r, ids, p')
    ensures
      var q := Released(p', ids, r);
      && q.Consistent() && q.free == p.free && q.inUse == p.inUse
      && forall i, o :: p.HeldBy(i, o) <==> q.HeldBy(i, o)
  {
    GrantKeepsConsistent(p, n, r, ids, p');
    var held := HeldAmong(p', ids, r);
    assert held == SetOf(ids);
    DistinctSize(ids);
    FreeingKeepsConsistent(p', held);
    assert p.free - SetOf(ids) + SetOf(ids) == p.free;
    forall i, o ensures p.HeldBy(i, o) <==> Released(p', ids, r).HeldBy(i, o) {
      FreedBlock(p', held, i);
    }
  }

  function AllocatableCount(p: Pool, n: int): nat
  {
    var needed := Needed(n, p.blockSize);
    if needed <= 0 then 0 else |p.free| / needed
  }

  // ---------------------------------------------------------------- runs

  datatype Op =
    | Alloc(n: int, r: RequestId, answer: Option<seq<nat>>)
    | Rel(ids: seq<int>, r: RequestId)

  ghost predicate Step(p: Pool, op: Op, p': Pool)
  {
    match op
    case Alloc(n, r, answer) => Allocates(p, n, r, answer, p')
    case Rel(ids, r) => p' == Released(p, ids, r)
  }

  /** Any sequence of calls with non-empty request ids. */
  ghost predicate IsRun(ps: seq<Pool>, ops: seq<Op>) {
    && |ps| == |ops| + 1
    && (forall i :: 0 <= i < |ops| ==> ops[i].r != "" && Step(ps[i], ops[i], ps[i + 1]))
  }

  lemma StepKeepsInv(p: Pool, op: Op, p': Pool)
    requires p.Consistent() && p.Owned() && op.r != "" && Step(p, op, p')
    ensures p'.Consistent() && p'.Owned() && |p'.blocks| == |p.blocks| && p'.blockSize == p.blockSize
    ensures forall i, o :: p.HeldBy(i, o) && !(op.Rel? && op.r == o && i in op.ids) ==> p'.HeldBy(i, o)
    ensures op.Alloc? && op.answer.Some? ==>
      forall i <- op.answer.value :: p'.HeldBy(i, op.r) && forall o :: !p.HeldBy(i, o)
  {
    match op
    case Alloc(n, r, answer) =>
      var needed := Needed(n, p.blockSize);
      hide Given, AfterEviction, Needed;
      KeepsWhenOwned(p, needed);
      if answer.Some? {
        GrantKeepsConsistent(p, n, r, answer.value, p');
      } else {
        CountersDoNotMatter(p, p');
      }
    case Rel(ids, r) =>
      FreeingKeepsConsistent(p, HeldAmong(p, ids, r));
  }

  lemma KeepsWhenOwned(p: Pool, needed: int)
    requires p.Consistent() && p.Owned()
    ensures AfterEviction(p, needed) == p
  {
    if |p.free| < needed {
      EvictionTakesNothing(p, needed);
    }
  }

  lemma {:induction false} RunKeepsInv(ps: seq<Pool>, ops: seq<Op>, k: nat)
    requires IsRun(ps, ops) && ps[0].Consistent() && ps[0].Owned() && k < |ps|
    ensures ps[k].Consistent() && ps[k].Owned() && |ps[k].blocks| == |ps[0].blocks|
    ensures ps[k].blockSize == ps[0].blockSize
  {
    if k > 0 {
      RunKeepsInv(ps, ops, k - 1);
      assert Step(ps[k - 1], ops[k - 1], ps[k - 1 + 1]);
      StepKeepsInv(ps[k - 1], ops[k - 1], ps[k]);
    }
  }

  /** A granted block stays with its request until that request releases it. */
  lemma {:induction false} GrantLasts(ps: seq<Pool>, ops: seq<Op>, a: nat, b: nat, i: int, o: RequestId)
    requires IsRun(ps, ops) && ps[0].Consistent() && ps[0].Owned()
    requires a <= b < |ps| && ps[a].HeldBy(i, o)
    requires forall k :: a <= k < b ==> !(ops[k].Rel? && ops[k].r == o && i in ops[k].ids)
    ensures ps[b].HeldBy(i, o)
    decreases b
  {
    hide Allocates, Released, Pool.Consistent, Pool.Owned;
    if a < b {
      GrantLasts(ps, ops, a, b - 1, i, o);
      RunKeepsInv(ps, ops, b - 1);
      assert Step(ps[b - 1], ops[b - 1], ps[b - 1 + 1]);
      StepKeepsInv(ps[b - 1], ops[b - 1], ps[b]);
    }
  }

  /** Two grants of a run share no block that the first has not released in between. */
  lemma GrantsDisjoint(ps: seq<Pool>, ops: seq<Op>, a: nat, b: nat, i: int)
    requires IsRun(ps, ops) && ps[0].Consistent() && ps[0].Owned()
    requires a < b < |ops| && ops[a].Alloc? && ops[a].answer.Some? && ops[b].Alloc? && ops[b].answer.Some?
    requires i in ops[a].answer.value
    requires forall k :: a < k < b ==> !(ops[k].Rel? && ops[k].r == ops[a].r && i in ops[k].ids)
    ensures i !in ops[b].answer.value
  {
    hide Allocates, Released, Pool.Consistent, Pool.Owned;
    RunKeepsInv(ps, ops, a);
    assert Step(ps[a], ops[a], ps[a + 1]);
    StepKeepsInv(ps[a], ops[a], ps[a + 1]);
    GrantLasts(ps, ops, a + 1, b, i, ops[a].r);
    RunKeepsInv(ps, ops, b);
    assert Step(ps[b], ops[b], ps[b + 1]);
    StepKeepsInv(ps[b], ops[b], ps[b + 1]);
  }

  /** For n <= 0 it answers 0, although every allocation succeeds, with no blocks. */
  lemma AllocatableUnderstatesNothing(p: Pool, op: Op, p': Pool)
    requires p.Consistent() && op.Alloc? && op.n <= 0 && Step(p, op, p')
    ensures AllocatableCount(p, op.n) == 0 && op.answer == Some([]) && p'.free == p.free
  {
    NeededPositive(op.n, p.blockSize);
    EvictedAre(p.blocks, 0, Needed(op.n, p.blockSize) - |p.free|);
    FreeNone(p);
  }

  /** If get_allocatable_blocks(n) answers k, then of further n-token allocations exactly the first
      k succeed. */
  lemma {:induction false} AllocatableIsExact(ps: seq<Pool>, ops: seq<Op>, n: int, j: nat)
    requires IsRun(ps, ops) && ps[0].Consistent() && ps[0].Owned() && j < |ops|
    requires forall i :: 0 <= i < |ops| ==> ops[i].Alloc? && ops[i].n == n
    requires n > 0
    ensures ops[j].answer.Some? <==> j < AllocatableCount(ps[0], n)
    ensures |ps[j + 1].free| == Left(|ps[0].free|, Needed(n, ps[0].blockSize), j + 1)
  {
    var needed := Needed(n, ps[0].blockSize);
    NeededPositive(n, ps[0].blockSize);
    LeftStep(|ps[0].free|, needed, j);
    RunKeepsInv(ps, ops, j);
    assert Step(ps[j], ops[j], ps[j + 1]);
    AllocCount(ps[j], ops[j], ps[j + 1]);
    hide Step, Pool.Consistent, Needed, Left;
    if j > 0 {
      AllocatableIsExact(ps, ops, n, j - 1);
      assert ps[j - 1 + 1] == ps[j];
    }
  }

  /** Free blocks left after j attempts that need this many each. */
  function Left(free: nat, needed: int, j: nat): int {
    if needed <= 0 then free else free - Min(j, free / needed) * needed
  }

  lemma LeftStep(free: nat, needed: int, j: nat)
    requires needed > 0
    ensures Left(free, needed, 0) == free
    ensures needed <= Left(free, needed, j) <==> j < free / needed
    ensures Left(free, needed, j + 1) == Left(free, needed, j) - (if j < free / needed then needed else 0)
  {
    var q := free / needed;
    DivBounds(free, needed);
    if j < q {
      MulLe(j + 1, q, needed);
      assert (j + 1) * needed == j * needed + needed;
    }
  }

  lemma DivBounds(f: nat, needed: int)
    requires needed > 0
    ensures (f / needed) * needed <= f < (f / needed) * needed + needed
  {
  }

  lemma MulLe(a: int, b: int, c: int)
    requires a <= b && c > 0
    ensures a * c <= b * c
  {
  }

  lemma FreeWithin(p: Pool)
    requires p.Consistent()
    ensures |p.free| <= |p.blocks|
  {
    UpToHas(|p.blocks|);
    var all := UpTo(|p.blocks|);
    assert all == p.free + (all - p.free);
  }

  /** An allocation in a pool whose blocks all have owners succeeds exactly when the free set is
      large enough, and then shrinks it by the blocks needed. */
  lemma AllocCount(p: Pool, op: Op, p': Pool)
    requires p.Consistent() && p.Owned() && op.Alloc? && op.n > 0 && Step(p, op, p')
    ensures var needed := Needed(op.n, p.blockSize);
      && (op.answer.Some? <==> needed <= |p.free|)
      && |p'.free| == |p.free| - (if op.answer.Some? then needed else 0)
  {
    var needed := Needed(op.n, p.blockSize);
    NeededMeans(op.n, p.blockSize);
    FreeWithin(p);
    if |p.free| < needed {
      EvictionTakesNothing(p, needed);
    }
    if op.answer.Some? {
      GrantKeepsConsistent(p, op.n, op.r, op.answer.value, p');
    }
  }
}
