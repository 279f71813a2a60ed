/** GPU memory of one node and the reservations on it. */
module NodeResource {
  import opened Wrappers

  type RequestId = string
  type GpuId = nat

  datatype Gpu = Gpu(total: int, used: int)

  /** What one request has reserved on the node: its GPUs, and its bytes over all of them. asked is
      history that the source does not keep: the GPU of every reservation call, in order. */
  datatype Reservation = Reservation(request: RequestId, gpus: set<GpuId>, bytes: int, asked: seq<GpuId>)

  /** The reservation dictionary in insertion order, and the running total. */
  datatype Node = Node(gpus: map<GpuId, Gpu>, reservations: seq<Reservation>, reservedBytes: int)

  /** _reserved_bytes_for_gpu: the whole bytes of every request that holds the GPU. */
  function ReservedOn(rs: seq<Reservation>, g: GpuId): int {
    if rs == [] then 0
    else ReservedOn(rs[1..], g) + (if g in rs[0].gpus then rs[0].bytes else 0)
  }

  function Effective(n: Node, g: GpuId): (free: int)
    ensures free >= 0
    ensures free > 0 ==> g in n.gpus && free == n.gpus[g].total - n.gpus[g].used - ReservedOn(n.reservations, g)
    ensures g in n.gpus ==> free >= n.gpus[g].total - n.gpus[g].used - ReservedOn(n.reservations, g)
  {
    if g !in n.gpus then 0
    else Max(0, n.gpus[g].total - n.gpus[g].used - ReservedOn(n.reservations, g))
  }

  predicate Has(rs: seq<Reservation>, r: RequestId) {
    exists x <- rs :: x.request == r
  }

  function AddTo(rs: seq<Reservation>, r: RequestId, g: GpuId, bytes: int): seq<Reservation> {
    if rs == [] then [Reservation(r, {g}, bytes, [g])]
    else if rs[0].request == r then
      [Reservation(r, rs[0].gpus + {g}, rs[0].bytes + bytes, rs[0].asked + [g])] + rs[1..]
    else [rs[0]] + AddTo(rs[1..], r, g, bytes)
  }

  /** reserve_gpu. */
  function Reserve(n: Node, r: RequestId, g: GpuId, bytes: int): Node {
    n.(reservations := AddTo(n.reservations, r, g, bytes), reservedBytes := n.reservedBytes + bytes)
  }

  /** Reserve the GPUs of a list one after the other. */
  function ReserveAll(n: Node, r: RequestId, gs: seq<GpuId>, bytes: int): Node {
    if gs == [] then n else Reserve(ReserveAll(n, r, gs[..|gs| - 1], bytes), r, gs[|gs| - 1], bytes)
  }

  function Drop(rs: seq<Reservation>, r: RequestId): seq<Reservation> {
    if rs == [] then []
    else if rs[0].request == r then rs[1..]
    else [rs[0]] + Drop(rs[1..], r)
  }

  function BytesOf(rs: seq<Reservation>, r: RequestId): int {
    if rs == [] then 0 else if rs[0].request == r then rs[0].bytes else BytesOf(rs[1..], r)
  }

  /** release_reservation. */
  function Release(n: Node, r: RequestId): Node {
    if !Has(n.reservations, r) then n
    else n.(reservations := Drop(n.reservations, r),
            reservedBytes := Max(0, n.reservedBytes - BytesOf(n.reservations, r)))
  }

  // ---------------------------------------------------------------- what reservations mean

  /** Bytes that each request reserves in one call. */
  type Shares = map<RequestId, int>

  function Times(k: nat, bytes: int): int {
    k * bytes
  }

  function Occurrences(gs: seq<GpuId>, g: GpuId): nat {
    if gs == [] then 0 else Occurrences(gs[..|gs| - 1], g) + (if gs[|gs| - 1] == g then 1 else 0)
  }

  /** Bytes of the GPU that a reservation really takes: a share for every call that named it. */
  function Takes(x: Reservation, shares: Shares, g: GpuId): int {
    if x.request in shares then Times(Occurrences(x.asked, g), shares[x.request]) else 0
  }

  function Promised(rs: seq<Reservation>, shares: Shares, g: GpuId): int {
    if rs == [] then 0 else Promised(rs[1..], shares, g) + Takes(rs[0], shares, g)
  }

  predicate Distinct(gs: seq<GpuId>) {
    forall i, j :: 0 <= i < j < |gs| ==> gs[i] != gs[j]
  }

  function SetOf(gs: seq<GpuId>): set<GpuId> {
    set g | g in gs
  }

  ghost predicate DistinctRequests(rs: seq<Reservation>) {
    forall i, j :: 0 <= i < j < |rs| ==> rs[i].request != rs[j].request
  }

  /** A reservation holds what was asked for, a positive share per call. */
  predicate Fair(x: Reservation, shares: Shares) {
    && x.request in shares && shares[x.request] > 0 && x.asked != []
    && x.gpus == SetOf(x.asked) && x.bytes == Times(|x.asked|, shares[x.request])
  }

  ghost predicate Kept(n: Node, shares: Shares) {
    DistinctRequests(n.reservations) && forall x <- n.reservations :: Fair(x, shares)
  }

  function Free(n: Node, g: GpuId): int
    requires g in n.gpus
  {
    n.gpus[g].total - n.gpus[g].used
  }

  /** No GPU is promised beyond its free memory. */
  predicate WithinFree(n: Node, shares: Shares) {
    forall g: GpuId <- n.gpus :: Promised(n.reservations, shares, g) <= Max(0, Free(n, g))
  }

  /** careful: every list reserved so far named each GPU once. */
  ghost predicate Valid(n: Node, shares: Shares, careful: bool) {
    Kept(n, shares) && (careful ==> WithinFree(n, shares))
  }

  lemma {:induction false} OccursAtMost(gs: seq<GpuId>, g: GpuId)
    ensures Occurrences(gs, g) <= |gs| && (Occurrences(gs, g) == |gs| <==> SetOf(gs) <= {g})
    ensures Occurrences(gs, g) > 0 <==> g in gs
    ensures Distinct(gs) ==> Occurrences(gs, g) <= 1
  {
    if gs != [] {
      var init, last := gs[..|gs| - 1], gs[|gs| - 1];
      assert gs == init + [last];
      SetOfGrows(gs);
      OccursAtMost(init, g);
      assert Distinct(gs) ==> last !in init;
    }
  }

  lemma TimesMonotone(j: nat, k: nat, s: int)
    requires s > 0 && j <= k
    ensures 0 <= Times(j, s) <= Times(k, s) && (Times(j, s) == Times(k, s) <==> j == k)
  {
  }

  /** The books never show less than was promised; they show exactly that just when every request
      on the GPU holds no other GPU of the node. */
  lemma {:induction false} BooksOverstate(rs: seq<Reservation>, shares: Shares, g: GpuId)
    requires forall x <- rs :: Fair(x, shares)
    ensures 0 <= Promised(rs, shares, g) <= ReservedOn(rs, g)
    ensures Promised(rs, shares, g) == ReservedOn(rs, g) <==> forall x <- rs :: g in x.gpus ==> x.gpus == {g}
  {
    if rs != [] {
      var x := rs[0];
      assert rs == [x] + rs[1..];
      TakesAtMost(x, shares, g);
      hide Takes, Fair;
      BooksOverstate(rs[1..], shares, g);
    }
  }

  lemma TakesAtMost(x: Reservation, shares: Shares, g: GpuId)
    requires Fair(x, shares)
    ensures g !in x.gpus ==> Takes(x, shares, g) == 0
    ensures g in x.gpus ==> 0 <= Takes(x, shares, g) <= x.bytes && (Takes(x, shares, g) == x.bytes <==> x.gpus == {g})
  {
    OccursAtMost(x.asked, g);
    TimesMonotone(Occurrences(x.asked, g), |x.asked|, shares[x.request]);
    OneMore(0, shares[x.request]);
    hide Times, Occurrences;
  }

  /** Exactly when the check sees the memory that is really left: nothing is left, or every request on
      the GPU holds no other GPU of the node. */
  lemma EffectiveIsFree(n: Node, shares: Shares, g: GpuId)
    requires Valid(n, shares, true) && g in n.gpus
    ensures
      var left := Free(n, g) - Promised(n.reservations, shares, g);
      Effective(n, g) == Max(0, left) <==> left <= 0 || forall x <- n.reservations :: g in x.gpus ==> x.gpus == {g}
  {
    BooksOverstate(n.reservations, shares, g);
    hide Promised, ReservedOn, Fair;
  }

  /** Two GPUs of 2b bytes each, and one request that reserved b bytes on each of them. Although b
      bytes of either GPU are promised to nobody, the check on them fails: the request is booked
      with 2b bytes on both. */
  lemma RefusesWhatFits(r: RequestId, b: int)
    requires b > 0
    ensures
      var gs: seq<GpuId> := [0, 1];
      var n := ReserveAll(Node(map[0 := Gpu(2 * b, 0), 1 := Gpu(2 * b, 0)], [], 0), r, gs, b);
      Promised(n.reservations, map[r := b], 0) == b && Effective(n, 0) == 0
  {
    hide ReserveAll;
    var gpus := map[0 := Gpu(2 * b, 0), 1 := Gpu(2 * b, 0)];
    var empty := Node(gpus, [], 0);
    var gs: seq<GpuId> := [0, 1];
    assert !Has(empty.reservations, r);
    ReserveAllIs(empty, r, gs, b);
    var rs := WithNew(empty, r, gs, b).reservations;
    assert rs == [Reservation(r, SetOf(gs), 2 * b, gs)] && rs[1..] == [];
    assert gs[0] in SetOf(gs) && gs[..1][..0] == [];
    assert Occurrences(gs[..1], 0) == 1 && Occurrences(gs, 0) == 1;
    assert Promised(rs, map[r := b], 0) == b;
    assert ReservedOn(rs, 0) == 2 * b;
    assert ReserveAll(empty, r, gs, b).gpus[0] == Gpu(2 * b, 0);
  }

  // ---------------------------------------------------------------- reserving

  lemma {:induction false} AddToNew(rs: seq<Reservation>, r: RequestId, g: GpuId, bytes: int)
    requires !Has(rs, r)
    ensures AddTo(rs, r, g, bytes) == rs + [Reservation(r, {g}, bytes, [g])]
  {
    if rs != [] {
      assert rs[0] in rs;
      forall x | x in rs[1..] ensures x.request != r {
        assert x in rs;
      }
      AddToNew(rs[1..], r, g, bytes);
    }
  }

  lemma {:induction false} AddToLast(rs: seq<Reservation>, r: RequestId, x: Reservation, g: GpuId, bytes: int)
    requires !Has(rs, r) && x.request == r
    ensures AddTo(rs + [x], r, g, bytes) == rs + [Reservation(r, x.gpus + {g}, x.bytes + bytes, x.asked + [g])]
  {
    if rs != [] {
      assert rs[0] in rs;
      forall y | y in rs[1..] ensures y.request != r {
        assert y in rs;
      }
      AddToLast(rs[1..], r, x, g, bytes);
      assert (rs + [x])[1..] == rs[1..] + [x];
    } else {
      assert [x][1..] == [];
    }
  }

  lemma SetOfGrows(gs: seq<GpuId>)
    requires gs != []
    ensures SetOf(gs) == SetOf(gs[..|gs| - 1]) + {gs[|gs| - 1]}
  {
    assert gs == gs[..|gs| - 1] + [gs[|gs| - 1]];
  }

  /** What ReserveAll leaves on a node that holds nothing of the request. */
  function WithNew(n: Node, r: RequestId, gs: seq<GpuId>, bytes: int): Node {
    n.(reservations := if gs == [] then n.reservations
                       else n.reservations + [Reservation(r, SetOf(gs), Times(|gs|, bytes), gs)],
       reservedBytes := n.reservedBytes + Times(|gs|, bytes))
  }

  lemma OneMore(k: nat, bytes: int)
    ensures Times(k + 1, bytes) == Times(k, bytes) + bytes && Times(0, bytes) == 0
  {
  }

  /** Reserving a list of GPUs for a new request appends one reservation for all of them. */
  lemma {:induction false} ReserveAllIs(n: Node, r: RequestId, gs: seq<GpuId>, bytes: int)
    requires !Has(n.reservations, r)
    ensures ReserveAll(n, r, gs, bytes) == WithNew(n, r, gs, bytes)
  {
    hide Has, AddTo, SetOf, Times;
    OneMore(0, bytes);
    if gs != [] {
      var last, init := gs[|gs| - 1], gs[..|gs| - 1];
      ReserveAllIs(n, r, init, bytes);
      SetOfGrows(gs);
      OneMore(|init|, bytes);
      if init == [] {
        AddToNew(n.reservations, r, last, bytes);
        assert SetOf(gs) == {last} by { SetOfNone(); }
        assert gs == [last];
      } else {
        AddToLast(n.reservations, r, Reservation(r, SetOf(init), Times(|init|, bytes), init), last, bytes);
        assert gs == init + [last];
      }
    }
  }

  lemma SetOfNone()
    ensures SetOf([]) == {}
  {
  }

  lemma {:induction false} PromisedAppend(rs: seq<Reservation>, x: Reservation, shares: Shares, g: GpuId)
    ensures Promised(rs + [x], shares, g) == Promised(rs, shares, g) + Takes(x, shares, g)
  {
    hide Takes;
    if rs == [] {
      assert [x][1..] == [];
    } else {
      PromisedAppend(rs[1..], x, shares, g);
      assert (rs + [x])[1..] == rs[1..] + [x];
    }
  }

  lemma {:induction false} PromisedSame(rs: seq<Reservation>, shares: Shares, shares': Shares, g: GpuId)
    requires forall x <- rs :: x.request in shares && x.request in shares' && shares'[x.request] == shares[x.request]
    ensures Promised(rs, shares', g) == Promised(rs, shares, g)
  {
    if rs != [] {
      assert rs[0] in rs;
      PromisedSame(rs[1..], shares, shares', g);
    }
  }

  /** The check before reserving: bytes free on every GPU of the list. */
  predicate Checked(n: Node, gs: seq<GpuId>, bytes: int) {
    forall g <- gs :: Effective(n, g) >= bytes
  }

  /** Reserving a list adds a share to a GPU for every time the list names it. */
  lemma NewPromise(n: Node, shares: Shares, r: RequestId, gs: seq<GpuId>, bytes: int, g: GpuId)
    requires Kept(n, shares) && r !in shares
    ensures Promised(ReserveAll(n, r, gs, bytes).reservations, shares[r := bytes], g)
            == Promised(n.reservations, shares, g) + Times(Occurrences(gs, g), bytes)
  {
    var shares' := shares[r := bytes];
    forall x | x in n.reservations ensures x.request in shares {
      assert Fair(x, shares);
    }
    assert !Has(n.reservations, r);
    hide ReserveAll, Has, Times, Promised, DistinctRequests, Fair;
    ReserveAllIs(n, r, gs, bytes);
    PromisedSame(n.reservations, shares, shares', g);
    if gs == [] {
      OneMore(0, bytes);
    } else {
      PromisedAppend(n.reservations, Reservation(r, SetOf(gs), Times(|gs|, bytes), gs), shares', g);
    }
  }

  /** Any list reserved for a new request leaves the books in order. */
  lemma ReserveKeepsKept(n: Node, shares: Shares, r: RequestId, gs: seq<GpuId>, bytes: int)
    requires Kept(n, shares) && r !in shares && bytes > 0
    ensures Kept(ReserveAll(n, r, gs, bytes), shares[r := bytes]) && ReserveAll(n, r, gs, bytes).gpus == n.gpus
    ensures forall x <- ReserveAll(n, r, gs, bytes).reservations :: x.request == r || x in n.reservations
  {
    forall x | x in n.reservations ensures x.request != r && Fair(x, shares[r := bytes]) {
      assert Fair(x, shares);
    }
    assert !Has(n.reservations, r);
    ReserveAllIs(n, r, gs, bytes);
    hide ReserveAll, Has, Times;
  }

  /** When the check passed on every GPU of the list, reserving them all keeps the node's promises, if
      the list names each GPU once. */
  lemma ReserveKeepsValid(n: Node, shares: Shares, r: RequestId, gs: seq<GpuId>, bytes: int, careful: bool)
    requires Valid(n, shares, careful) && r !in shares && bytes > 0
    requires careful ==> Distinct(gs) && Checked(n, gs, bytes)
    ensures Valid(ReserveAll(n, r, gs, bytes), shares[r := bytes], careful)
    ensures forall x <- ReserveAll(n, r, gs, bytes).reservations :: x.request == r || x in n.reservations
  {
    ReserveKeepsKept(n, shares, r, gs, bytes);
    if careful {
      hide ReserveAll, Kept, Promised, Times, Occurrences, Distinct;
      forall g: GpuId | g in n.gpus
        ensures Promised(ReserveAll(n, r, gs, bytes).reservations, shares[r := bytes], g) <= Max(0, Free(n, g))
      {
        NewPromiseFits(n, shares, r, gs, bytes, g);
      }
    }
  }

  lemma NewPromiseFits(n: Node, shares: Shares, r: RequestId, gs: seq<GpuId>, bytes: int, g: GpuId)
    requires Valid(n, shares, true) && r !in shares && g in n.gpus && bytes > 0
    requires Distinct(gs) && Checked(n, gs, bytes)
    ensures Promised(ReserveAll(n, r, gs, bytes).reservations, shares[r := bytes], g) <= Max(0, Free(n, g))
  {
    NewPromise(n, shares, r, gs, bytes, g);
    BooksOverstate(n.reservations, shares, g);
    OccursAtMost(gs, g);
    OneMore(0, bytes);
    hide Promised, ReservedOn, ReserveAll, Occurrences, Times, DistinctRequests, Fair;
    assert g in gs ==> Effective(n, g) >= bytes;
  }

  lemma {:induction false} DropIs(rs: seq<Reservation>, r: RequestId)
    requires DistinctRequests(rs)
    ensures forall x :: x in Drop(rs, r) <==> x in rs && x.request != r
    ensures DistinctRequests(Drop(rs, r))
  {
    if rs != [] {
      var first, rest := rs[0], rs[1..];
      assert rs == [first] + rest;
      if first.request == r {
        forall x | x in rest ensures x.request != r {
          var k :| 0 <= k < |rest| && rest[k] == x;
          assert rs[k + 1] == x;
        }
      } else {
        DropIs(rest, r);
        var dropped := Drop(rest, r);
        assert Drop(rs, r) == [first] + dropped;
        forall k | 0 <= k < |dropped| ensures dropped[k].request != first.request {
          assert dropped[k] in dropped && dropped[k] in rest;
        }
      }
    }
  }

  lemma {:induction false} DropPromises(rs: seq<Reservation>, r: RequestId, shares: Shares, g: GpuId)
    requires forall x <- rs :: Fair(x, shares)
    ensures Promised(Drop(rs, r), shares, g) <= Promised(rs, shares, g)
  {
    if rs != [] {
      assert Fair(rs[0], shares);
      TakesAtMost(rs[0], shares, g);
      hide Takes, Fair;
      if rs[0].request != r {
        DropPromises(rs[1..], r, shares, g);
        assert Drop(rs, r)[1..] == Drop(rs[1..], r);
      }
    }
  }

  /** Releasing a request keeps the node valid and leaves no trace of the request. */
  lemma ReleaseKeepsValid(n: Node, shares: Shares, r: RequestId, careful: bool)
    requires Valid(n, shares, careful)
    ensures Valid(Release(n, r), shares - {r}, careful)
    ensures forall x :: x in Release(n, r).reservations <==> x in n.reservations && x.request != r
  {
    hide Times, Promised, DistinctRequests, Drop, BytesOf;
    var n' := Release(n, r);
    DropIs(n.reservations, r);
    forall x | x in n'.reservations ensures Fair(x, shares - {r}) {
      assert Fair(x, shares);
    }
    if careful {
      forall g: GpuId | g in n.gpus
        ensures Promised(n'.reservations, shares - {r}, g) <= Max(0, Free(n, g))
      {
        DropPromises(n.reservations, r, shares, g);
        PromisedSame(n'.reservations, shares, shares - {r}, g);
      }
    }
  }

  /** The bytes of all reservations. */
  function TotalBytes(rs: seq<Reservation>): int {
    if rs == [] then 0 else rs[0].bytes + TotalBytes(rs[1..])
  }

  lemma {:induction false} AddToAdds(rs: seq<Reservation>, r: RequestId, g: GpuId, bytes: int)
    ensures TotalBytes(AddTo(rs, r, g, bytes)) == TotalBytes(rs) + bytes
  {
    if rs == [] {
      assert AddTo(rs, r, g, bytes)[1..] == [];
    } else if rs[0].request != r {
      AddToAdds(rs[1..], r, g, bytes);
    }
  }

  lemma {:induction false} DropTakes(rs: seq<Reservation>, r: RequestId)
    requires forall x <- rs :: x.bytes >= 0
    ensures TotalBytes(Drop(rs, r)) == TotalBytes(rs) - BytesOf(rs, r)
    ensures 0 <= BytesOf(rs, r) <= TotalBytes(rs)
  {
    if rs != [] {
      assert rs[0] in rs && forall x <- rs[1..] :: x in rs;
      DropTakes(rs[1..], r);
    }
  }

  /** The running total is the sum over the reservations, however they come and go. */
  lemma TotalAddsUp(n: Node, r: RequestId, g: GpuId, bytes: int)
    requires n.reservedBytes == TotalBytes(n.reservations) && forall x <- n.reservations :: x.bytes >= 0
    ensures Reserve(n, r, g, bytes).reservedBytes == TotalBytes(Reserve(n, r, g, bytes).reservations) == n.reservedBytes + bytes
    ensures Release(n, r).reservedBytes == TotalBytes(Release(n, r).reservations)
  {
    AddToAdds(n.reservations, r, g, bytes);
    DropTakes(n.reservations, r);
  }

  // ---------------------------------------------------------------- when the check is enough

  /** Checking the list first and then reserving it on this node does not oversell. */
  ghost predicate StaysWithin(n: Node, shares: Shares, r: RequestId, gs: seq<GpuId>, bytes: int) {
    Valid(n, shares, true) && r !in shares && Checked(n, gs, bytes)
    ==> WithinFree(ReserveAll(n, r, gs, bytes), shares[r := bytes])
  }

  /** A node with just bytes free on every GPU of the list. */
  function Tight(gs: seq<GpuId>, bytes: int): Node {
    Node(map g <- gs :: Gpu(bytes, 0), [], 0)
  }

  lemma {:induction false} RepeatedTwice(gs: seq<GpuId>) returns (g: GpuId)
    requires !Distinct(gs)
    ensures g in gs && Occurrences(gs, g) >= 2
  {
    var init, last := gs[..|gs| - 1], gs[|gs| - 1];
    assert gs == init + [last];
    if last in init {
      g := last;
      OccursAtMost(init, g);
    } else {
      assert !Distinct(init);
      g := RepeatedTwice(init);
    }
  }

  /** On the tight node the check passes, and every GPU is then promised as often as it was named. */
  lemma TightPromises(gs: seq<GpuId>, r: RequestId, bytes: int, g: GpuId)
    requires bytes > 0 && g in gs
    ensures
      var n, n' := Tight(gs, bytes), ReserveAll(Tight(gs, bytes), r, gs, bytes);
      && Valid(n, map[], true) && Checked(n, gs, bytes) && n'.gpus == n.gpus && Free(n', g) == bytes
      && Promised(n'.reservations, map[r := bytes], g) == Times(Occurrences(gs, g), bytes)
  {
    var n: Node, shares: Shares := Tight(gs, bytes), map[];
    assert forall x <- gs :: Effective(n, x) == bytes;
    assert shares[r := bytes] == map[r := bytes];
    NewPromise(n, shares, r, gs, bytes, g);
    ReserveKeepsKept(n, shares, r, gs, bytes);
    hide ReserveAll;
    assert Promised(n.reservations, shares, g) == 0;
  }

  /** Named twice, a GPU with b bytes free passes the check and is promised for 2b. */
  lemma TwiceIsOversold(g: GpuId, r: RequestId, b: int)
    requires b > 0
    ensures
      var n, n' := Tight([g, g], b), ReserveAll(Tight([g, g], b), r, [g, g], b);
      Checked(n, [g, g], b) && n'.gpus == n.gpus && n'.gpus[g] == Gpu(b, 0) && Promised(n'.reservations, map[r := b], g) == 2 * b
  {
    var gs := [g, g];
    TightPromises(gs, r, b, g);
    hide ReserveAll, Promised, Checked;
    assert gs[..1] == [g] && gs[..1][..0] == [];
    assert Occurrences(gs[..1], g) == 1;
    assert Times(2, b) == 2 * b;
  }

  /** Checking first and reserving afterwards never oversells, on any node, precisely for the lists
      that name no GPU twice. */
  lemma CheckSuffices(gs: seq<GpuId>, r: RequestId, bytes: int)
    requires bytes > 0
    ensures Distinct(gs) <==> forall n, shares :: StaysWithin(n, shares, r, gs, bytes)
  {
    if Distinct(gs) {
      forall n, shares ensures StaysWithin(n, shares, r, gs, bytes) {
        if Valid(n, shares, true) && r !in shares && Checked(n, gs, bytes) {
          ReserveKeepsValid(n, shares, r, gs, bytes, true);
        }
      }
    } else {
      var g := RepeatedTwice(gs);
      TightPromises(gs, r, bytes, g);
      TimesMonotone(2, Occurrences(gs, g), bytes);
      assert Times(2, bytes) == 2 * bytes;
      hide ReserveAll, Promised, Times, Kept, Distinct;
      assert !StaysWithin(Tight(gs, bytes), map[], r, gs, bytes);
    }
  }
}
