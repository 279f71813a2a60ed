/** Lexicographic order of strings. */
module Strings {
  predicate StringLe(a: string, b: string) {
    a == [] || (b != [] && (a[0] < b[0] || (a[0] == b[0] && StringLe(a[1..], b[1..]))))
  }

  lemma {:induction false} StringTotal(a: string, b: string)
    ensures StringLe(a, b) || StringLe(b, a)
  {
    if a != [] && b != [] && a[0] == b[0] {
      StringTotal(a[1..], b[1..]);
    }
  }

  lemma {:induction false} StringTransitive(a: string, b: string, c: string)
    requires StringLe(a, b) && StringLe(b, c)
    ensures StringLe(a, c)
  {
    if a != [] && a[0] == b[0] && b[0] == c[0] {
      StringTransitive(a[1..], b[1..], c[1..]);
    }
  }

  /** The strings agree before k, and a has the smaller character there. */
  predicate SmallerAt(a: string, b: string, k: nat) {
    k < |a| && k < |b| && a[..k] == b[..k] && a[k] < b[k]
  }

  lemma SmallerLater(a: string, b: string, k: nat)
    requires a != [] && b != [] && a[0] == b[0]
    ensures SmallerAt(a, b, k + 1) <==> SmallerAt(a[1..], b[1..], k)
  {
    if k + 1 < |a| && k + 1 < |b| {
      assert a[..k + 1] == [a[0]] + a[1..][..k] && b[..k + 1] == [b[0]] + b[1..][..k];
      assert a[1..][..k] == a[..k + 1][1..] && b[1..][..k] == b[..k + 1][1..];
    }
  }

  /** a comes no later than b exactly if it is a prefix of b or has the smaller character at the first
      difference. */
  lemma {:induction false} StringLeIsLexicographic(a: string, b: string)
    ensures StringLe(a, b) <==> a <= b || exists k: nat :: SmallerAt(a, b, k)
  {
    if a != [] && b != [] {
      if a[0] == b[0] {
        var a', b' := a[1..], b[1..];
        StringLeIsLexicographic(a', b');
        assert a <= b <==> a' <= b' by {
          assert a == [a[0]] + a' && b == [b[0]] + b';
        }
        if k: nat :| SmallerAt(a', b', k) {
          SmallerLater(a, b, k);
        }
        if k: nat :| SmallerAt(a, b, k) {
          SmallerLater(a, b, k - 1);
        }
      } else if a[0] < b[0] {
        assert SmallerAt(a, b, 0);
      }
    }
  }
}
