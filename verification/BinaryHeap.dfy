/** The operations of Python's heapq on a list, for any total preorder le.
    `a < b` in the original is `!le(b, a)` here. */
module BinaryHeap {
  import opened Orders

  function Parent(i: int): int {
    (i - 1) / 2
  }

  /** Heap order for every pair whose parent is at lo or later. */
  ghost predicate HeapFrom<T>(h: seq<T>, lo: int, le: (T, T) -> bool) {
    forall c :: 0 < c < |h| && lo <= Parent(c) ==> le(h[Parent(c)], h[c])
  }

  ghost predicate IsHeap<T>(h: seq<T>, le: (T, T) -> bool) {
    HeapFrom(h, 0, le)
  }

  /** Node p lies in the subtree rooted at root. */
  predicate Below(root: nat, p: nat) {
    p == root || (p > root && Below(root, Parent(p)))
  }

  /** Heap order from root on, except between p and its parent. */
  ghost predicate HeapExceptAt<T>(h: seq<T>, root: nat, p: nat, le: (T, T) -> bool) {
    && (forall c :: 0 < c < |h| && root <= Parent(c) && c != p ==> le(h[Parent(c)], h[c]))
    && (p > root ==> forall c :: 0 < c < |h| && Parent(c) == p ==> le(h[Parent(p)], h[c]))
  }

  /** Heap order from root on, except between p and its neighbours on either side. */
  ghost predicate HeapExceptAround<T>(h: seq<T>, root: nat, p: nat, le: (T, T) -> bool) {
    && (forall c :: 0 < c < |h| && root <= Parent(c) && c != p && Parent(c) != p ==> le(h[Parent(c)], h[c]))
    && (p > root ==> forall c :: 0 < c < |h| && Parent(c) == p ==> le(h[Parent(p)], h[c]))
  }

  lemma SwapKeepsMultiset<T>(h: seq<T>, i: nat, j: nat)
    requires i < |h| && j < |h|
    ensures multiset(h[i := h[j]][j := h[i]]) == multiset(h)
  {
  }

  /** The first entry of a heap is least. */
  lemma {:induction false} RootIsLeast<T(!new)>(h: seq<T>, i: nat, le: (T, T) -> bool)
    requires TotalPreorder(le) && IsHeap(h, le) && i < |h|
    ensures le(h[0], h[i])
  {
    if i > 0 {
      RootIsLeast(h, Parent(i), le);
      assert le(h[Parent(i)], h[i]);
    }
  }

  lemma RootIsLeastOfAll<T(!new)>(h: seq<T>, le: (T, T) -> bool)
    requires TotalPreorder(le) && IsHeap(h, le) && h != []
    ensures forall x <- h :: le(h[0], x)
  {
    forall x | x in h ensures le(h[0], x) {
      var i :| 0 <= i < |h| && h[i] == x;
      RootIsLeast(h, i, le);
    }
  }

  lemma PopReplace<T>(h: seq<T>, last: T)
    requires h != []
    ensures multiset(h[0 := last]) + multiset{h[0]} == multiset(h + [last])
  {
    assert h == [h[0]] + h[1..];
    assert h[0 := last] == [last] + h[1..];
  }

  /** _siftdown: move the entry at pos towards root until its parent is no larger. */
  method SiftDown<T(!new)>(heap: seq<T>, root: nat, pos: nat, le: (T, T) -> bool) returns (h: seq<T>)
    requires TotalPreorder(le) && pos < |heap| && Below(root, pos)
    requires HeapExceptAt(heap, root, pos, le)
    ensures HeapFrom(h, root, le) && |h| == |heap| && multiset(h) == multiset(heap)
  {
    h := heap;
    var p: nat := pos;
    while p > root
      invariant p < |h| == |heap| && Below(root, p)
      invariant HeapExceptAt(h, root, p, le)
      invariant multiset(h) == multiset(heap)
    {
      var q := Parent(p);
      if le(h[q], h[p]) {
        return;
      }
      ghost var before := h;
      SwapKeepsMultiset(h, p, q);
      h := h[p := h[q]][q := h[p]];
      MoveEntryUp(before, h, root, p, q, le);
      p := q;
    }
  }

  lemma MoveEntryUp<T(!new)>(h: seq<T>, h': seq<T>, root: nat, p: nat, q: nat, le: (T, T) -> bool)
    requires TotalPreorder(le) && HeapExceptAt(h, root, p, le)
    requires root <= q < p < |h| && q == Parent(p) && Below(root, q)
    requires !le(h[q], h[p])
    requires h' == h[p := h[q]][q := h[p]]
    ensures HeapExceptAt(h', root, q, le)
  {
    if q > root {
      assert root <= Parent(q) && le(h[Parent(q)], h[q]);
      forall c | 0 < c < |h'| && Parent(c) == q ensures le(h'[Parent(q)], h'[c]) {
      }
    }
  }

  /** The child of p that is no larger than the other one. */
  method SmallerChild<T(!new)>(h: seq<T>, p: nat, le: (T, T) -> bool) returns (m: nat)
    requires TotalPreorder(le) && 2 * p + 1 < |h|
    ensures p < m < |h| && Parent(m) == p
    ensures forall c :: 0 < c < |h| && Parent(c) == p ==> le(h[m], h[c])
  {
    m := 2 * p + 1;
    if m + 1 < |h| && le(h[m + 1], h[m]) {
      m := m + 1;
    }
  }

  lemma LeafHole<T>(h: seq<T>, root: nat, p: nat, le: (T, T) -> bool)
    requires HeapExceptAround(h, root, p, le) && 2 * p + 1 >= |h|
    ensures HeapExceptAt(h, root, p, le)
  {
  }

  /** _siftup: move the smaller child up until the hole is a leaf, then sift the entry down from there. */
  method SiftUp<T(!new)>(heap: seq<T>, pos: nat, le: (T, T) -> bool) returns (h: seq<T>)
    requires TotalPreorder(le) && pos < |heap|
    requires HeapFrom(heap, pos + 1, le)
    ensures HeapFrom(h, pos, le) && |h| == |heap| && multiset(h) == multiset(heap)
  {
    h := heap;
    var p: nat := pos;
    while 2 * p + 1 < |h|
      invariant p < |h| == |heap| && Below(pos, p)
      invariant HeapExceptAround(h, pos, p, le)
      invariant multiset(h) == multiset(heap)
      decreases |h| - p
    {
      var child := SmallerChild(h, p, le);
      ghost var before := h;
      SwapKeepsMultiset(h, p, child);
      h := h[p := h[child]][child := h[p]];
      MoveChildUp(before, h, pos, p, child, le);
      p := child;
    }
    LeafHole(h, pos, p, le);
    h := SiftDown(h, pos, p, le);
  }

  lemma MoveChildUp<T(!new)>(h: seq<T>, h': seq<T>, root: nat, p: nat, m: nat, le: (T, T) -> bool)
    requires TotalPreorder(le) && HeapExceptAround(h, root, p, le)
    requires p < m < |h| && Parent(m) == p && root <= p
    requires forall c :: 0 < c < |h| && Parent(c) == p ==> le(h[m], h[c])
    requires h' == h[p := h[m]][m := h[p]] && Below(root, p)
    ensures HeapExceptAround(h', root, m, le) && Below(root, m)
  {
  }

  method Heapify<T(!new)>(list: seq<T>, le: (T, T) -> bool) returns (h: seq<T>)
    requires TotalPreorder(le)
    ensures IsHeap(h, le) && multiset(h) == multiset(list)
  {
    h := list;
    var i := |h| / 2;
    while i > 0
      invariant 0 <= i <= |h| / 2
      invariant HeapFrom(h, i, le) && |h| == |list| && multiset(h) == multiset(list)
    {
      i := i - 1;
      h := SiftUp(h, i, le);
    }
  }

  method Push<T(!new)>(heap: seq<T>, item: T, le: (T, T) -> bool) returns (h: seq<T>)
    requires TotalPreorder(le) && IsHeap(heap, le)
    ensures IsHeap(h, le) && multiset(h) == multiset(heap) + multiset{item}
  {
    h := heap + [item];
    AllBelowZero(|heap|);
    h := SiftDown(h, 0, |heap|, le);
  }

  lemma {:induction false} AllBelowZero(p: nat)
    ensures Below(0, p)
  {
    if p > 0 {
      AllBelowZero(Parent(p));
    }
  }

  method Pop<T(!new)>(heap: seq<T>, le: (T, T) -> bool) returns (item: T, h: seq<T>)
    requires TotalPreorder(le) && IsHeap(heap, le) && heap != []
    ensures IsHeap(h, le) && multiset(h) + multiset{item} == multiset(heap)
    ensures item == heap[0] && forall x <- heap :: le(item, x)
  {
    var last := heap[|heap| - 1];
    h := heap[..|heap| - 1];
    assert heap == h + [last];
    RootIsLeastOfAll(heap, le);
    item := heap[0];
    if h != [] {
      PopReplace(h, last);
      h := SiftUp(h[0 := last], 0, le);
    }
  }

  /** Delete the entry at k and heapify what is left. */
  method DeleteAt<T(!new)>(heap: seq<T>, k: nat, le: (T, T) -> bool) returns (h: seq<T>)
    requires TotalPreorder(le) && k < |heap|
    ensures IsHeap(h, le) && multiset(h) + multiset{heap[k]} == multiset(heap)
  {
    assert heap == heap[..k] + [heap[k]] + heap[k + 1..];
    h := Heapify(heap[..k] + heap[k + 1..], le);
  }
}
