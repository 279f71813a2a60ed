/** Generations, loads, reloads and unloads interleaved over the block pools of the loaded models.

    A generation is two steps: up to the wait for the engine, and the finally block after it. */
module EngineManager {
  import opened Wrappers
  import opened BlockPool

  const BLOCK_SIZE: Size := 16

  /** A running generation: its model, and the blocks it was granted, if any. */
  datatype Generation = Generation(model: string, blocks: Option<seq<nat>>)

  datatype System = System(
    pools: map<string, Pool>,
    inflight: map<RequestId, Generation>,
    used: set<RequestId>
  )

  datatype Action =
    | Load(model: string, vramGb: real)
    | Unload(model: string)
    | Begin(model: string, tokens: int, r: RequestId)
    | Finish(r: RequestId)

  /** _estimate_max_blocks. */
  function MaxBlocks(vramGb: real): (n: nat)
    ensures n == 2048 <==> vramGb >= 0.4096
    ensures n == 16 <==> vramGb < 0.0034
    ensures 0.0034 <= vramGb < 0.4096 ==> n as real <= vramGb * 5000.0 < n as real + 1.0
  {
    Max(16, Min((vramGb * 0.5 * 10000.0).Floor, 2048))
  }

  /** What an action may do. An id is drawn fresh for every generation, and is never empty.
      Actions on models that are not loaded and ends of generations that do not run do nothing. */
  ghost predicate SystemStep(s: System, a: Action, s': System)
  {
    match a
    case Load(m, vramGb) => s' == s.(pools := s.pools[m := NewPool(MaxBlocks(vramGb), BLOCK_SIZE)])
    case Unload(m) => s' == s.(pools := s.pools - {m})
    case Begin(m, tokens, r) =>
      if m !in s.pools then s' == s
      else
        && r != "" && r !in s.used && r in s'.inflight && m in s'.pools
        && s'.inflight[r].model == m
        && Allocates(s.pools[m], tokens, r, s'.inflight[r].blocks, s'.pools[m])
        && s' == System(s.pools[m := s'.pools[m]], s.inflight[r := s'.inflight[r]], s.used + {r})
    case Finish(r) =>
      if r !in s.inflight then s' == s
      else
        var g := s.inflight[r];
        s' == System(
          if g.blocks.Some? && g.model in s.pools
          then s.pools[g.model := Released(s.pools[g.model], g.blocks.value, r)] else s.pools,
          s.inflight - {r}, s.used)
  }

  /** The block is free, or some running generation of model m was granted it. */
  predicate Accounted(p: Pool, m: string, inflight: map<RequestId, Generation>, i: int) {
    0 <= i < |p.blocks| && !p.blocks[i].isFree ==>
      && p.blocks[i].owner in inflight
      && var g := inflight[p.blocks[i].owner];
      && g.model == m && g.blocks.Some? && i in g.blocks.value
  }

  ghost predicate PoolInv(p: Pool, m: string, inflight: map<RequestId, Generation>) {
    p.Consistent() && p.Owned() && p.blockSize == 16 && forall i :: Accounted(p, m, inflight, i)
  }

  ghost predicate Inv(s: System) {
    && (forall m <- s.pools :: PoolInv(s.pools[m], m, s.inflight))
    && (forall r <- s.inflight :: r in s.used) && "" !in s.used
  }

  lemma FreshPool(m: string, vramGb: real, inflight: map<RequestId, Generation>)
    ensures PoolInv(NewPool(MaxBlocks(vramGb), BLOCK_SIZE), m, inflight)
  {
    NewPoolConsistent(MaxBlocks(vramGb), BLOCK_SIZE);
  }

  lemma BeginKeepsPool(p: Pool, m: string, inflight: map<RequestId, Generation>, tokens: int, r: RequestId, p': Pool, g: Generation)
    requires PoolInv(p, m, inflight) && r != "" && r !in inflight && g.model == m
    requires Allocates(p, tokens, r, g.blocks, p')
    ensures PoolInv(p', m, inflight[r := g])
  {
    var op := Alloc(tokens, r, g.blocks);
    assert Step(p, op, p');
    StepKeepsInv(p, op, p');
    BlocksAfterAlloc(p, op, p');
    hide Pool.Consistent, Allocates;
    var inflight' := inflight[r := g];
    forall i ensures Accounted(p', m, inflight', i) {
      if 0 <= i < |p'.blocks| && !p'.blocks[i].isFree {
        assert Accounted(p, m, inflight, i);
      }
    }
  }

  /** A block in use after an allocation was granted by it, or was in use before with the same owner. */
  lemma BlocksAfterAlloc(p: Pool, op: Op, p': Pool)
    requires p.Consistent() && p.Owned() && op.Alloc? && op.r != "" && Step(p, op, p')
    ensures forall i :: 0 <= i < |p'.blocks| && !p'.blocks[i].isFree ==>
      || (op.answer.Some? && i in op.answer.value && p'.blocks[i].owner == op.r)
      || (i < |p.blocks| && p'.blocks[i] == p.blocks[i])
  {
    hide Given, AfterEviction, Needed;
    KeepsWhenOwned(p, Needed(op.n, p.blockSize));
    if op.answer.Some? {
      GrantKeepsConsistent(p, op.n, op.r, op.answer.value, p');
    }
  }

  /** The end of generation r in the pool its blocks came from, or in one that replaced it. */
  lemma FinishKeepsPool(p: Pool, m: string, inflight: map<RequestId, Generation>, r: RequestId)
    requires PoolInv(p, m, inflight) && r in inflight && r != ""
    requires inflight[r].model == m && inflight[r].blocks.Some?
    ensures PoolInv(Released(p, inflight[r].blocks.value, r), m, inflight - {r})
  {
    var ids := inflight[r].blocks.value;
    var q := Released(p, ids, r);
    var op := Rel(ids, r);
    assert Step(p, op, q);
    StepKeepsInv(p, op, q);
    forall i ensures Accounted(q, m, inflight - {r}, i) {
      FreedBlock(p, HeldAmong(p, ids, r), i);
      assert Accounted(p, m, inflight, i);
    }
  }

  /** A generation without blocks here leaves the accounts of a pool as they are. */
  lemma OthersKeepPool(p: Pool, m: string, inflight: map<RequestId, Generation>, r: RequestId)
    requires PoolInv(p, m, inflight) && r in inflight
    requires inflight[r].model != m || inflight[r].blocks.None?
    ensures PoolInv(p, m, inflight - {r})
  {
    forall i ensures Accounted(p, m, inflight - {r}, i) {
      assert Accounted(p, m, inflight, i);
    }
  }

  lemma NewcomerKeepsPool(p: Pool, m: string, inflight: map<RequestId, Generation>, r: RequestId, g: Generation)
    requires PoolInv(p, m, inflight) && r !in inflight
    ensures PoolInv(p, m, inflight[r := g])
  {
    var inflight' := inflight[r := g];
    forall i ensures Accounted(p, m, inflight', i) {
      assert Accounted(p, m, inflight, i);
    }
  }

  lemma SystemStepKeepsInv(s: System, a: Action, s': System)
    requires Inv(s) && SystemStep(s, a, s')
    ensures Inv(s') && s.used <= s'.used
  {
    hide PoolInv, Allocates, Released, NewPool;
    forall m | m in s'.pools ensures PoolInv(s'.pools[m], m, s'.inflight) {
      match a
      case Load(m', vramGb) =>
        FreshPool(m', vramGb, s.inflight);
      case Unload(_) =>
      case Begin(m', tokens, r) =>
        if m' in s.pools {
          if m == m' {
            BeginKeepsPool(s.pools[m], m, s.inflight, tokens, r, s'.pools[m], s'.inflight[r]);
          } else {
            NewcomerKeepsPool(s.pools[m], m, s.inflight, r, s'.inflight[r]);
          }
        }
      case Finish(r) =>
        if r in s.inflight {
          if m == s.inflight[r].model && s.inflight[r].blocks.Some? {
            FinishKeepsPool(s.pools[m], m, s.inflight, r);
          } else {
            OthersKeepPool(s.pools[m], m, s.inflight, r);
          }
        }
    }
  }

  // ---------------------------------------------------------------- runs

  ghost predicate IsSystemRun(ss: seq<System>, actions: seq<Action>) {
    && |ss| == |actions| + 1
    && ss[0] == System(map[], map[], {})
    && (forall k :: 0 <= k < |actions| ==> SystemStep(ss[k], actions[k], ss[k + 1]))
  }

  lemma {:induction false} SystemRunKeepsInv(ss: seq<System>, actions: seq<Action>, k: nat)
    requires IsSystemRun(ss, actions) && k < |ss|
    ensures Inv(ss[k])
  {
    if k > 0 {
      SystemRunKeepsInv(ss, actions, k - 1);
      assert SystemStep(ss[k - 1], actions[k - 1], ss[k - 1 + 1]);
      SystemStepKeepsInv(ss[k - 1], actions[k - 1], ss[k]);
    }
  }

  /** In every state of every run, a block in use belongs to a running generation of its model. */
  lemma OccupiedBlocksBelong(ss: seq<System>, actions: seq<Action>, k: nat, m: string, i: int)
    requires IsSystemRun(ss, actions) && k < |ss| && m in ss[k].pools
    requires 0 <= i < |ss[k].pools[m].blocks| && !ss[k].pools[m].blocks[i].isFree
    ensures
      var owner := ss[k].pools[m].blocks[i].owner;
      owner in ss[k].inflight && ss[k].inflight[owner].model == m
  {
    SystemRunKeepsInv(ss, actions, k);
    assert PoolInv(ss[k].pools[m], m, ss[k].inflight);
    assert Accounted(ss[k].pools[m], m, ss[k].inflight, i);
  }

  // ---------------------------------------------------------------- what a generation gets

  /** The action ends generation r or replaces the pool of model m. */
  predicate Parts(a: Action, m: string, r: RequestId) {
    a == Finish(r) || (a.Load? && a.model == m) || a == Unload(m)
  }

  /** Generation r runs on model m with these blocks, and holds exactly them. */
  ghost predicate Has(s: System, m: string, r: RequestId, blocks: Option<seq<nat>>) {
    && m in s.pools && r in s.inflight && s.inflight[r] == Generation(m, blocks)
    && forall i :: s.pools[m].HeldBy(i, r) <==> blocks.Some? && i in blocks.value
  }

  lemma BeginHas(s: System, m: string, tokens: int, r: RequestId, s': System)
    requires Inv(s) && SystemStep(s, Begin(m, tokens, r), s') && m in s.pools
    ensures r in s'.inflight && Has(s', m, r, s'.inflight[r].blocks)
    ensures
      var blocks := s'.inflight[r].blocks;
      && (blocks.Some? <==> tokens <= |s.pools[m].free| * 16)
      && (blocks.Some? ==>
            var ids := blocks.value;
            && (tokens > 0 ==> (|ids| - 1) * 16 < tokens <= |ids| * 16) && (tokens <= 0 ==> ids == [])
            && forall i, j :: 0 <= i < j < |ids| ==> ids[i] != ids[j])
  {
    var p, p', blocks := s.pools[m], s'.pools[m], s'.inflight[r].blocks;
    assert PoolInv(p, m, s.inflight);
    AllocationMeans(p, tokens, r, blocks, p');
    forall i ensures !p.HeldBy(i, r) {
      assert Accounted(p, m, s.inflight, i);
    }
    hide Pool.Consistent, Allocates, PoolInv, Accounted;
    forall i ensures p'.HeldBy(i, r) <==> blocks.Some? && i in blocks.value {
      assert !p.HeldBy(i, r);
    }
  }

  /** A block stays with its generation through every step that does not part them. */
  lemma HeldStays(s: System, a: Action, s': System, m: string, r: RequestId, i: int)
    requires Inv(s) && SystemStep(s, a, s') && !Parts(a, m, r)
    requires m in s.pools && r in s.inflight && s.pools[m].HeldBy(i, r)
    ensures m in s'.pools && s'.pools[m].HeldBy(i, r)
  {
    assert PoolInv(s.pools[m], m, s.inflight);
    hide Allocates, Released, Pool.Consistent, Pool.Owned, Accounted;
    match a
    case Begin(m', tokens, r') =>
      if m' == m {
        StepKeepsInv(s.pools[m], Alloc(tokens, r', s'.inflight[r'].blocks), s'.pools[m]);
      }
    case Finish(r') =>
      if r' in s.inflight && s.inflight[r'].model == m && s.inflight[r'].blocks.Some? {
        StepKeepsInv(s.pools[m], Rel(s.inflight[r'].blocks.value, r'), s'.pools[m]);
      }
    case _ =>
  }

  lemma StillRuns(s: System, a: Action, s': System, m: string, r: RequestId)
    requires Inv(s) && SystemStep(s, a, s') && !Parts(a, m, r)
    requires m in s.pools && r in s.inflight
    ensures m in s'.pools && r in s'.inflight && s'.inflight[r] == s.inflight[r]
  {
  }

  /** So does everything that a generation has. */
  lemma HasStep(s: System, a: Action, s': System, m: string, r: RequestId, blocks: Option<seq<nat>>)
    requires Inv(s) && Inv(s') && SystemStep(s, a, s') && Has(s, m, r, blocks) && !Parts(a, m, r)
    ensures Has(s', m, r, blocks)
  {
    StillRuns(s, a, s', m, r);
    assert PoolInv(s'.pools[m], m, s'.inflight);
    hide SystemStep, Parts, Pool.Consistent, Pool.Owned;
    forall i ensures s'.pools[m].HeldBy(i, r) <==> blocks.Some? && i in blocks.value {
      assert s.pools[m].HeldBy(i, r) <==> blocks.Some? && i in blocks.value;
      assert Accounted(s'.pools[m], m, s'.inflight, i);
      if s.pools[m].HeldBy(i, r) {
        HeldStays(s, a, s', m, r, i);
      }
    }
  }

  lemma {:induction false} KeepsWhatItHas(ss: seq<System>, actions: seq<Action>, a: nat, b: nat, m: string, r: RequestId, blocks: Option<seq<nat>>)
    requires IsSystemRun(ss, actions) && a <= b < |ss| && Has(ss[a], m, r, blocks)
    requires forall j :: a <= j < b ==> !Parts(actions[j], m, r)
    ensures Has(ss[b], m, r, blocks)
    decreases b
  {
    hide *;
    if a < b {
      var before := RunStep(ss, actions, b);
      KeepsWhatItHas(ss, actions, a, b - 1, m, r, blocks);
      SystemRunKeepsInv(ss, actions, b - 1);
      SystemRunKeepsInv(ss, actions, b);
      HasStep(before, actions[b - 1], ss[b], m, r, blocks);
    }
  }

  /** In every run a generation that begins on a loaded model gets blocks exactly if the free ones can
      carry its tokens, at 16 to a block; then it gets as many as its tokens need and not one more, and
      until it ends or its model's pool is replaced or dropped it holds those blocks and no others. */
  lemma GenerationHolds(ss: seq<System>, actions: seq<Action>, k: nat, b: nat, m: string, tokens: int, r: RequestId)
    requires IsSystemRun(ss, actions) && k < b < |ss| == |actions| + 1 && actions[k] == Begin(m, tokens, r) && m in ss[k].pools
    requires forall j :: k < j < b ==>
      actions[j] != Finish(r) && actions[j] != Unload(m) && !(actions[j].Load? && actions[j].model == m)
    ensures m in ss[b].pools && r in ss[b].inflight && ss[b].inflight[r].model == m
    ensures
      var blocks := ss[b].inflight[r].blocks;
      && (blocks.Some? <==> tokens <= |ss[k].pools[m].free| * 16)
      && (blocks.Some? ==>
            var ids := blocks.value;
            && (tokens > 0 ==> (|ids| - 1) * 16 < tokens <= |ids| * 16) && (tokens <= 0 ==> ids == [])
            && forall i, j :: 0 <= i < j < |ids| ==> ids[i] != ids[j])
    ensures
      var blocks, pool := ss[b].inflight[r].blocks, ss[b].pools[m].blocks;
      && (blocks.Some? ==>
            && (forall i <- blocks.value :: i < |pool|)
            && forall i: nat :: i < |pool| ==> (i in blocks.value <==> !pool[i].isFree && pool[i].owner == r))
      && (blocks.None? ==> forall i: nat :: i < |pool| ==> pool[i].isFree || pool[i].owner != r)
  {
    assert forall j :: k < j < b ==> !Parts(actions[j], m, r);
    hide *;
    var blocks := BeginsWith(ss, actions, k, m, tokens, r);
    KeepsWhatItHas(ss, actions, k + 1, b, m, r, blocks);
    HasMeans(ss[b], m, r, blocks);
  }

  lemma BeginsWith(ss: seq<System>, actions: seq<Action>, k: nat, m: string, tokens: int, r: RequestId) returns (blocks: Option<seq<nat>>)
    requires IsSystemRun(ss, actions) && k + 1 < |ss| && k < |actions| && actions[k] == Begin(m, tokens, r) && m in ss[k].pools
    ensures Has(ss[k + 1], m, r, blocks)
    ensures blocks.Some? <==> tokens <= |ss[k].pools[m].free| * 16
    ensures blocks.Some? ==>
      var ids := blocks.value;
      && (tokens > 0 ==> (|ids| - 1) * 16 < tokens <= |ids| * 16) && (tokens <= 0 ==> ids == [])
      && forall i, j :: 0 <= i < j < |ids| ==> ids[i] != ids[j]
  {
    hide *;
    var before := RunStep(ss, actions, k + 1);
    SystemRunKeepsInv(ss, actions, k);
    BeginHas(ss[k], m, tokens, r, ss[k + 1]);
    blocks := ss[k + 1].inflight[r].blocks;
  }

  lemma HasMeans(s: System, m: string, r: RequestId, blocks: Option<seq<nat>>)
    requires Has(s, m, r, blocks)
    ensures m in s.pools && r in s.inflight && s.inflight[r] == Generation(m, blocks)
    ensures
      var pool := s.pools[m].blocks;
      && (blocks.Some? ==>
            && (forall i <- blocks.value :: i < |pool|)
            && forall i: nat :: i < |pool| ==> (i in blocks.value <==> !pool[i].isFree && pool[i].owner == r))
      && (blocks.None? ==> forall i: nat :: i < |pool| ==> pool[i].isFree || pool[i].owner != r)
  {
    var p := s.pools[m];
    forall i: nat | i < |p.blocks|
      ensures blocks.Some? && i in blocks.value <==> !p.blocks[i].isFree && p.blocks[i].owner == r
    {
      assert p.HeldBy(i, r) <==> blocks.Some? && i in blocks.value;
    }
    if blocks.Some? {
      forall i | i in blocks.value ensures i < |p.blocks| {
        assert p.HeldBy(i, r);
      }
    }
  }

  /** When nothing runs, every block of every pool is free. */
  lemma QuiescentMeansFree(ss: seq<System>, actions: seq<Action>, k: nat, m: string)
    requires IsSystemRun(ss, actions) && k < |ss| && m in ss[k].pools && ss[k].inflight == map[]
    ensures |ss[k].pools[m].free| == |ss[k].pools[m].blocks| && ss[k].pools[m].inUse == 0
  {
    SystemRunKeepsInv(ss, actions, k);
    var p := ss[k].pools[m];
    assert PoolInv(p, m, ss[k].inflight);
    forall i: nat | i < |p.blocks| ensures i in p.free {
      assert Accounted(p, m, ss[k].inflight, i);
    }
    UpToHas(|p.blocks|);
    assert p.free == UpTo(|p.blocks|);
  }

  /** The generation has no block in the current pool of model m, and its id is spent. */
  ghost predicate Stale(s: System, m: string, r: RequestId) {
    r in s.used && (m in s.pools ==> forall i :: !s.pools[m].HeldBy(i, r))
  }

  lemma StaleStep(s: System, a: Action, s': System, m: string, r: RequestId)
    requires Inv(s) && SystemStep(s, a, s') && Stale(s, m, r)
    ensures Stale(s', m, r)
  {
    if m in s'.pools {
      match a
      case Load(_, vramGb) =>
      case Unload(_) =>
      case Begin(m', tokens, r') =>
        if m == m' && m in s.pools {
          assert PoolInv(s.pools[m], m, s.inflight);
          BlocksAfterAlloc(s.pools[m], Alloc(tokens, r', s'.inflight[r'].blocks), s'.pools[m]);
          forall i ensures !s'.pools[m].HeldBy(i, r) {
            assert !s.pools[m].HeldBy(i, r);
          }
        }
      case Finish(r') =>
        if r' in s.inflight && s.inflight[r'].model == m && s.inflight[r'].blocks.Some? {
          assert PoolInv(s.pools[m], m, s.inflight) && r != "";
          forall i ensures !s'.pools[m].HeldBy(i, r) {
            FreedBlock(s.pools[m], HeldAmong(s.pools[m], s.inflight[r'].blocks.value, r'), i);
            assert !s.pools[m].HeldBy(i, r);
          }
        }
    }
  }

  lemma {:induction false} StaysStale(ss: seq<System>, actions: seq<Action>, a: nat, b: nat, m: string, r: RequestId)
    requires IsSystemRun(ss, actions) && a <= b < |ss| && Stale(ss[a], m, r)
    ensures Stale(ss[b], m, r)
    decreases b
  {
    hide *;
    if a < b {
      StaysStale(ss, actions, a, b - 1, m, r);
      SystemRunKeepsInv(ss, actions, b - 1);
      var before := RunStep(ss, actions, b);
      StaleStep(before, actions[b - 1], ss[b], m, r);
    }
  }

  /** The step into state k, and the state it starts from. */
  lemma RunStep(ss: seq<System>, actions: seq<Action>, k: nat) returns (before: System)
    requires IsSystemRun(ss, actions) && 0 < k < |ss|
    ensures k <= |actions| && before == ss[k - 1] && SystemStep(before, actions[k - 1], ss[k])
  {
    before := ss[k - 1];
    assert SystemStep(ss[k - 1], actions[k - 1], ss[k - 1 + 1]);
  }

  /** A generation that outlives a reload or an unload of its model releases nothing of the pools
      that exist when it ends, whatever happened in between. */
  lemma StaleReleaseHarmless(ss: seq<System>, actions: seq<Action>, a: nat, b: nat, r: RequestId)
    requires IsSystemRun(ss, actions) && a < b < |actions|
    requires actions[b] == Finish(r) && r in ss[a].inflight && r in ss[b].inflight
    requires actions[a].Load? || actions[a].Unload?
    requires ss[b].inflight[r].model == actions[a].model
    ensures ss[b + 1].pools == ss[b].pools
  {
    var m := actions[a].model;
    SystemRunKeepsInv(ss, actions, a);
    assert SystemStep(ss[a], actions[a], ss[a + 1]);
    assert Stale(ss[a + 1], m, r);
    StaysStale(ss, actions, a + 1, b, m, r);
    assert SystemStep(ss[b], actions[b], ss[b + 1]);
    var g := ss[b].inflight[r];
    if m in ss[b].pools && g.blocks.Some? {
      NothingToRelease(ss[b].pools[m], g.blocks.value, r);
      assert ss[b].pools[m := ss[b].pools[m]] == ss[b].pools;
    }
  }

  lemma NothingToRelease(p: Pool, ids: seq<int>, r: RequestId)
    requires forall i :: !p.HeldBy(i, r)
    ensures Released(p, ids, r) == p
  {
    assert HeldAmong(p, ids, r) == {};
    FreeNone(p);
  }

  // ---------------------------------------------------------------- the manager object

  datatype Outcome = Started | ModelNotFound

  class Manager {
    var pools: map<string, Blocks>
    var inflight: map<RequestId, Generation>
    /** Ids drawn so far. */
    ghost var used: set<RequestId>

    ghost predicate Valid()
      reads this, pools.Values
    {
      && (forall m <- pools :: pools[m].Valid() && pools[m].View().Owned() && pools[m].blockSize == 16)
      && (forall m <- pools, n <- pools :: m != n ==> pools[m] != pools[n])
      && (forall r <- inflight :: r in used)
    }

    ghost function View(): System
      reads this, pools.Values
    {
      System(map m | m in pools :: pools[m].View(), inflight, used)
    }

    constructor ()
      ensures Valid() && View() == System(map[], map[], {})
    {
      pools, inflight, used := map[], map[], {};
    }

    /** load_model after the engine has loaded it. */
    method RecordLoaded(model: string, vramGb: real)
      requires Valid()
      modifies this
      ensures Valid() && SystemStep(old(View()), Load(model, vramGb), View())
      ensures model in pools && fresh(pools[model]) && pools == old(pools)[model := pools[model]] && inflight == old(inflight)
      ensures |pools[model].free| == |pools[model].blocks| == MaxBlocks(vramGb) && pools[model].blockSize == 16
    {
      hide MaxBlocks, Pool.Consistent, Pool.Owned, Allocates, Released, NewPool, Blocks.Valid, Blocks.View;
      ghost var was := View();
      var pool := new Blocks(MaxBlocks(vramGb), BLOCK_SIZE);
      pools := pools[model := pool];
      assert View().pools == was.pools[model := pool.View()];
    }

    /** unload_model after the engine has unloaded it. */
    method RecordUnloaded(model: string)
      requires Valid()
      modifies this
      ensures Valid() && SystemStep(old(View()), Unload(model), View())
      ensures pools == old(pools) - {model} && inflight == old(inflight)
    {
      hide Pool.Consistent, Pool.Owned, Allocates, Released, NewPool;
      ghost var was := View();
      pools := pools - {model};
      assert View().pools == was.pools - {model};
    }

    /** generate up to the wait for the engine; r is freshly drawn. */
    method BeginGenerate(model: string, tokens: int, r: RequestId) returns (out: Outcome)
      requires Valid() && r != "" && r !in used
      modifies this, pools.Values
      ensures Valid() && SystemStep(old(View()), Begin(model, tokens, r), View())
      ensures out == if model in old(pools) then Started else ModelNotFound
      ensures model !in old(pools) ==> View() == old(View())
      ensures model in old(pools) ==>
        var blocks, free := inflight[r].blocks, old(pools[model].free);
        && pools == old(pools) && inflight == old(inflight)[r := Generation(model, blocks)]
        && (blocks.Some? <==> tokens <= |free| * 16)
        && (blocks.Some? ==>
              var ids := blocks.value;
              && (tokens > 0 ==> (|ids| - 1) * 16 < tokens <= |ids| * 16) && (tokens <= 0 ==> ids == [])
              && (forall j, k :: 0 <= j < k < |ids| ==> ids[j] != ids[k])
              && forall i <- ids :: i in free && i < |pools[model].blocks|
                                    && !pools[model].blocks[i].isFree && pools[model].blocks[i].owner == r)
    {
      hide Pool.Consistent, Pool.Owned, Allocates, Released, NewPool;
      ghost var was := View();
      if model !in pools {
        return ModelNotFound;
      }
      var pool := pools[model];
      var ids := pool.Allocate(tokens, r);
      inflight := inflight[r := Generation(model, ids)];
      used := used + {r};
      assert View().pools == was.pools[model := pool.View()];
      return Started;
    }

    /** The finally block of generate. */
    method EndGenerate(r: RequestId)
      requires Valid() && r in inflight
      modifies this, pools.Values
      ensures Valid() && SystemStep(old(View()), Finish(r), View())
      ensures pools == old(pools) && inflight == old(inflight) - {r}
    {
      hide Pool.Consistent, Pool.Owned, Allocates, Released, NewPool, Blocks.Valid, Blocks.View;
      var g := inflight[r];
      if g.blocks.Some? {
        ReleaseBlocks(g.model, g.blocks.value, r);
      }
      inflight := inflight - {r};
    }

    /** release_blocks of the VRAM manager: nothing happens for a model that is not loaded. */
    method ReleaseBlocks(model: string, ids: seq<int>, r: RequestId)
      requires Valid()
      modifies pools.Values
      ensures Valid()
      ensures View() ==
        if model in pools then old(View()).(pools := old(View()).pools[model := Released(old(View()).pools[model], ids, r)])
        else old(View())
    {
      hide Pool.Consistent, Pool.Owned, Released;
      ghost var was := View();
      if model in pools {
        pools[model].Release(ids, r);
        assert View().pools == was.pools[model := pools[model].View()];
      }
    }
  }
}
