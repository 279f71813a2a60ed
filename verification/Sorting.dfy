/** Python's list.sort, and sums over what a list or a part of it holds. */
module Sorting {
  import opened Orders

  ghost predicate IsSorted<T>(xs: seq<T>, le: (T, T) -> bool) {
    forall i, j :: 0 <= i < j < |xs| ==> le(xs[i], xs[j])
  }

  /** Before the first entry it may precede, so that equal entries keep their order. */
  function Insert<T>(x: T, xs: seq<T>, le: (T, T) -> bool): seq<T> {
    if xs == [] || le(x, xs[0]) then [x] + xs else [xs[0]] + Insert(x, xs[1..], le)
  }

  function Sort<T>(xs: seq<T>, le: (T, T) -> bool): seq<T> {
    if xs == [] then [] else Insert(xs[0], Sort(xs[1..], le), le)
  }

  lemma {:induction false} InsertAdds<T>(x: T, xs: seq<T>, le: (T, T) -> bool)
    ensures multiset(Insert(x, xs, le)) == multiset(xs) + multiset{x}
  {
    if xs != [] && !le(x, xs[0]) {
      InsertAdds(x, xs[1..], le);
      assert xs == [xs[0]] + xs[1..];
    }
  }

  lemma {:induction false} InsertSorted<T(!new)>(x: T, xs: seq<T>, le: (T, T) -> bool)
    requires TotalPreorder(le) && IsSorted(xs, le)
    ensures IsSorted(Insert(x, xs, le), le)
  {
    if xs != [] && !le(x, xs[0]) {
      var rest := Insert(x, xs[1..], le);
      InsertSorted(x, xs[1..], le);
      InsertAdds(x, xs[1..], le);
      forall j | 0 <= j < |rest| ensures le(xs[0], rest[j]) {
        assert rest[j] in multiset(rest);
        assert rest[j] == x || rest[j] in xs[1..];
      }
    }
  }

  /** Sorting permutes and orders. */
  lemma {:induction false} SortSorts<T(!new)>(xs: seq<T>, le: (T, T) -> bool)
    requires TotalPreorder(le)
    ensures multiset(Sort(xs, le)) == multiset(xs) && IsSorted(Sort(xs, le), le)
    ensures |Sort(xs, le)| == |xs|
  {
    hide Insert, IsSorted, TotalPreorder;
    if xs == [] {
      assert IsSorted(Sort(xs, le), le) by {
        NothingSorted(le);
      }
    } else {
      SortSorts(xs[1..], le);
      InsertAdds(xs[0], Sort(xs[1..], le), le);
      InsertSorted(xs[0], Sort(xs[1..], le), le);
      assert xs == [xs[0]] + xs[1..];
    }
    assert |multiset(Sort(xs, le))| == |multiset(xs)|;
  }

  lemma NothingSorted<T>(le: (T, T) -> bool)
    ensures IsSorted([], le)
  {
  }

  function Kept<T>(xs: seq<T>, p: T -> bool): seq<T> {
    if xs == [] then [] else (if p(xs[0]) then [xs[0]] else []) + Kept(xs[1..], p)
  }

  /** Entries that are all equal to one another keep their order. */
  ghost predicate AllEqual<T(!new)>(p: T -> bool, le: (T, T) -> bool) {
    forall a, b :: p(a) && p(b) ==> le(a, b)
  }

  lemma KeptFirst<T>(x: T, xs: seq<T>, p: T -> bool)
    ensures Kept([x] + xs, p) == (if p(x) then [x] else []) + Kept(xs, p)
  {
    assert ([x] + xs)[1..] == xs;
  }

  lemma {:induction false} InsertStable<T(!new)>(x: T, xs: seq<T>, le: (T, T) -> bool, p: T -> bool)
    requires AllEqual(p, le)
    ensures Kept(Insert(x, xs, le), p) == (if p(x) then [x] else []) + Kept(xs, p)
  {
    if xs == [] || le(x, xs[0]) {
      KeptFirst(x, xs, p);
    } else {
      var first, rest := xs[0], xs[1..];
      assert Insert(x, xs, le) == [first] + Insert(x, rest, le) && xs == [first] + rest;
      assert !(p(x) && p(first));
      hide Insert, Kept, AllEqual;
      InsertStable(x, rest, le, p);
      KeptFirst(first, Insert(x, rest, le), p);
      KeptFirst(first, rest, p);
    }
  }

  /** The sort is stable. */
  lemma {:induction false} SortIsStable<T(!new)>(xs: seq<T>, le: (T, T) -> bool, p: T -> bool)
    requires AllEqual(p, le)
    ensures Kept(Sort(xs, le), p) == Kept(xs, p)
  {
    if xs != [] {
      SortIsStable(xs[1..], le, p);
      InsertStable(xs[0], Sort(xs[1..], le), le, p);
    }
  }

  // ---------------------------------------------------------------- sums

  function Sum<T>(xs: seq<T>, weight: T -> real): real {
    if xs == [] then 0.0 else Sum(xs[..|xs| - 1], weight) + weight(xs[|xs| - 1])
  }

  lemma {:induction false} SumConcat<T>(xs: seq<T>, ys: seq<T>, weight: T -> real)
    ensures Sum(xs + ys, weight) == Sum(xs, weight) + Sum(ys, weight)
  {
    if ys == [] {
      assert xs + ys == xs;
    } else {
      var init := ys[..|ys| - 1];
      assert (xs + ys)[..|xs + ys| - 1] == xs + init;
      SumConcat(xs, init, weight);
    }
  }

  function Without<T>(xs: seq<T>, i: nat): seq<T>
    requires i < |xs|
  {
    xs[..i] + xs[i + 1..]
  }

  lemma WithoutMultiset<T>(xs: seq<T>, i: nat)
    requires i < |xs|
    ensures multiset(xs) == multiset(Without(xs, i)) + multiset{xs[i]} && |Without(xs, i)| == |xs| - 1
  {
    assert xs == xs[..i] + [xs[i]] + xs[i + 1..];
  }

  lemma SumWithout<T>(xs: seq<T>, i: nat, weight: T -> real)
    requires i < |xs|
    ensures Sum(xs, weight) == Sum(Without(xs, i), weight) + weight(xs[i])
  {
    var before, x, after := xs[..i], [xs[i]], xs[i + 1..];
    assert Sum(x, weight) == weight(xs[i]) by {
      assert x[..0] == [];
    }
    hide Sum;
    assert xs == before + (x + after);
    SumConcat(before, x + after, weight);
    SumConcat(x, after, weight);
    SumConcat(before, after, weight);
  }

  /** A part of a list loses its own copy of the last entry, if it has one, when the list does. */
  lemma PartOfInit<T>(chosen: seq<T>, xs: seq<T>) returns (fewer: seq<T>, i: nat)
    requires xs != [] && multiset(chosen) <= multiset(xs)
    ensures multiset(fewer) <= multiset(xs[..|xs| - 1])
    ensures fewer == chosen || (i < |chosen| && chosen[i] == xs[|xs| - 1] && fewer == Without(chosen, i))
  {
    var n := |xs| - 1;
    WithoutMultiset(xs, n);
    assert Without(xs, n) == xs[..n];
    i, fewer := 0, chosen;
    if xs[n] in chosen {
      i :| 0 <= i < |chosen| && chosen[i] == xs[n];
      WithoutMultiset(chosen, i);
      fewer := Without(chosen, i);
    }
    forall y | y in multiset(fewer) ensures multiset(fewer)[y] <= multiset(xs[..n])[y] {
      assert multiset(chosen)[y] <= multiset(xs)[y];
    }
  }

  /** Whatever is chosen from a list weighs at most the whole list, if no weight is negative. */
  lemma {:induction false} PartWeighsLess<T>(chosen: seq<T>, xs: seq<T>, weight: T -> real)
    requires multiset(chosen) <= multiset(xs) && forall x <- xs :: weight(x) >= 0.0
    ensures Sum(chosen, weight) <= Sum(xs, weight)
    decreases |xs|
  {
    if xs == [] {
      assert |multiset(chosen)| == 0;
    } else {
      var fewer, i := PartOfInit(chosen, xs);
      PartWeighsLess(fewer, xs[..|xs| - 1], weight);
      if fewer != chosen {
        SumWithout(chosen, i, weight);
      }
      assert xs[|xs| - 1] in xs;
    }
  }

  ghost predicate Descending<T>(xs: seq<T>, weight: T -> real) {
    forall i, j :: 0 <= i < j < |xs| ==> weight(xs[i]) >= weight(xs[j])
  }

  lemma SumOfFirst<T>(xs: seq<T>, k: nat, weight: T -> real)
    requires k < |xs|
    ensures Sum(xs[..k + 1], weight) == Sum(xs[..k], weight) + weight(xs[k])
  {
    assert xs[..k + 1][..k] == xs[..k];
  }

  /** Of a list in descending weight, no choice of k entries outweighs the first k. */
  lemma {:induction false} FirstWeighMost<T>(chosen: seq<T>, xs: seq<T>, weight: T -> real)
    requires multiset(chosen) <= multiset(xs) && Descending(xs, weight)
    ensures |chosen| <= |xs| && Sum(chosen, weight) <= Sum(xs[..|chosen|], weight)
    decreases |xs|
  {
    if xs == [] {
      assert |multiset(chosen)| == 0;
    } else {
      var n := |xs| - 1;
      var fewer, i := PartOfInit(chosen, xs);
      hide Sum;
      FirstWeighMost(fewer, xs[..n], weight);
      assert xs[..n][..|fewer|] == xs[..|fewer|];
      if fewer != chosen {
        WithoutMultiset(chosen, i);
        SumWithout(chosen, i, weight);
        SumOfFirst(xs, |fewer|, weight);
        assert weight(xs[n]) <= weight(xs[|fewer|]);
      }
    }
  }

  lemma SameSum<T>(xs: seq<T>, ys: seq<T>, weight: T -> real)
    requires multiset(xs) == multiset(ys) && forall x <- xs :: weight(x) >= 0.0
    ensures Sum(xs, weight) == Sum(ys, weight)
  {
    forall y | y in ys ensures weight(y) >= 0.0 {
      assert y in multiset(xs);
    }
    PartWeighsLess(xs, ys, weight);
    PartWeighsLess(ys, xs, weight);
  }
}
