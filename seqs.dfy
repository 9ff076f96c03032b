/**
 * Sequence operations the source builds on: `Array.prototype.filter`,
 * the toggle that removes an element or appends it, and the
 * order-preserving subsequence relation used to state what a filter keeps.
 */
module Seqs {

  /** `xs.filter(p)`: the elements satisfying `p`, in their original order. */
  function Select<T>(xs: seq<T>, p: T -> bool): (r: seq<T>)
    ensures |r| <= |xs|
    ensures forall i :: 0 <= i < |r| ==> p(r[i])
  {
    if xs == [] then [] else (if p(xs[0]) then [xs[0]] else []) + Select(xs[1..], p)
  }

  /** `a` is obtained from `b` by deleting elements, keeping the rest in order. */
  predicate IsSubsequence<T(==)>(a: seq<T>, b: seq<T>)
    decreases |b|
  {
    if a == [] then true
    else if b == [] then false
    else if a[0] == b[0] then IsSubsequence(a[1..], b[1..])
    else IsSubsequence(a, b[1..])
  }

  /** No element occurs twice. */
  predicate Distinct<T(==)>(xs: seq<T>)
  {
    forall i, j :: 0 <= i < j < |xs| ==> xs[i] != xs[j]
  }

  lemma {:induction false} SelectMembership<T>(xs: seq<T>, p: T -> bool, x: T)
    ensures x in Select(xs, p) <==> x in xs && p(x)
  {
    if xs != [] {
      SelectMembership(xs[1..], p, x);
      assert xs == [xs[0]] + xs[1..];
    }
  }

  lemma {:induction false} SelectIsSubsequence<T>(xs: seq<T>, p: T -> bool)
    ensures IsSubsequence(Select(xs, p), xs)
  {
    if xs != [] {
      SelectIsSubsequence(xs[1..], p);
      if p(xs[0]) {
        assert Select(xs, p) == [xs[0]] + Select(xs[1..], p);
        assert Select(xs, p)[1..] == Select(xs[1..], p);
      } else {
        assert Select(xs, p) == Select(xs[1..], p);
        SubsequenceDropHead(Select(xs[1..], p), xs);
      }
    }
  }

  /** A subsequence of the tail is a subsequence of the whole. */
  lemma {:induction false} SubsequenceDropHead<T>(a: seq<T>, b: seq<T>)
    requires b != [] && IsSubsequence(a, b[1..])
    ensures IsSubsequence(a, b)
    decreases |b|, 1
  {
    if a != [] && a[0] == b[0] {
      SubsequenceTail(a, b[1..]);
    }
  }

  /** Dropping the head of a subsequence keeps it a subsequence. */
  lemma {:induction false} SubsequenceTail<T>(a: seq<T>, b: seq<T>)
    requires a != [] && IsSubsequence(a, b)
    ensures IsSubsequence(a[1..], b)
    decreases |b|, 2
  {
    if a[0] == b[0] {
      if a[1..] != [] {
        SubsequenceDropHead(a[1..], b);
      }
    } else {
      SubsequenceTail(a, b[1..]);
      if a[1..] != [] {
        SubsequenceDropHead(a[1..], b);
      }
    }
  }

  lemma {:induction false} SelectIdempotent<T>(xs: seq<T>, p: T -> bool)
    ensures Select(Select(xs, p), p) == Select(xs, p)
  {
    SelectAllPass(Select(xs, p), p);
  }

  /** When every element passes, the filter is the identity. */
  lemma {:induction false} SelectAllPass<T>(xs: seq<T>, p: T -> bool)
    requires forall i :: 0 <= i < |xs| ==> p(xs[i])
    ensures Select(xs, p) == xs
  {
    if xs != [] {
      SelectAllPass(xs[1..], p);
    }
  }

  /** When no element passes, the filter is empty. */
  lemma {:induction false} SelectNonePass<T>(xs: seq<T>, p: T -> bool)
    requires forall i :: 0 <= i < |xs| ==> !p(xs[i])
    ensures Select(xs, p) == []
  {
    if xs != [] {
      SelectNonePass(xs[1..], p);
    }
  }

  lemma {:induction false} SelectAppend<T>(a: seq<T>, b: seq<T>, p: T -> bool)
    ensures Select(a + b, p) == Select(a, p) + Select(b, p)
  {
    if a == [] {
      assert a + b == b;
    } else {
      assert (a + b)[1..] == a[1..] + b;
      SelectAppend(a[1..], b, p);
    }
  }

  /** Two predicates that agree on the elements select the same elements. */
  lemma {:induction false} SelectCongruent<T>(xs: seq<T>, p: T -> bool, q: T -> bool)
    requires forall i :: 0 <= i < |xs| ==> p(xs[i]) == q(xs[i])
    ensures Select(xs, p) == Select(xs, q)
  {
    if xs != [] {
      SelectCongruent(xs[1..], p, q);
    }
  }

  /** Filtering twice by different predicates is filtering once by both. */
  lemma {:induction false} SelectSelect<T>(xs: seq<T>, p: T -> bool, q: T -> bool, pq: T -> bool)
    requires forall x :: pq(x) == (p(x) && q(x))
    ensures Select(Select(xs, p), q) == Select(xs, pq)
  {
    if xs != [] {
      SelectSelect(xs[1..], p, q, pq);
      var s := Select(xs, p);
      if p(xs[0]) {
        assert s == [xs[0]] + Select(xs[1..], p);
        assert s[0] == xs[0] && s[1..] == Select(xs[1..], p);
        assert Select(s, q) == (if q(xs[0]) then [xs[0]] else []) + Select(Select(xs[1..], p), q);
      } else {
        assert s == Select(xs[1..], p);
        assert !pq(xs[0]);
      }
    }
  }

  /**
   * The updater `prev.includes(x) ? prev.filter(y => y !== x) : [...prev, x]`
   * used for category, format and destination selections.
   */
  function Toggle<T(==)>(xs: seq<T>, x: T): (r: seq<T>)
  {
    if x in xs then Select(xs, y => y != x) else xs + [x]
  }

  lemma ToggleMembership<T>(xs: seq<T>, x: T, y: T)
    ensures y in Toggle(xs, x) <==> if y == x then x !in xs else y in xs
  {
    if x in xs {
      SelectMembership(xs, z => z != x, y);
    }
  }

  lemma {:induction false} SelectPreservesDistinct<T>(xs: seq<T>, p: T -> bool)
    requires Distinct(xs)
    ensures Distinct(Select(xs, p))
  {
    if xs != [] {
      SelectPreservesDistinct(xs[1..], p);
      if p(xs[0]) {
        var r := Select(xs[1..], p);
        forall y | y in r ensures y != xs[0] {
          SelectMembership(xs[1..], p, y);
        }
        var s := [xs[0]] + r;
        assert Select(xs, p) == s;
        forall i, j | 0 <= i < j < |s| ensures s[i] != s[j] {
          if i == 0 {
            assert s[j] == r[j - 1] && r[j - 1] in r;
          } else {
            assert s[i] == r[i - 1] && s[j] == r[j - 1];
          }
        }
      }
    }
  }

  /** Toggling never creates a duplicate. */
  lemma ToggleDistinct<T>(xs: seq<T>, x: T)
    requires Distinct(xs)
    ensures Distinct(Toggle(xs, x))
  {
    if x in xs {
      SelectPreservesDistinct(xs, y => y != x);
    }
  }

  /** Toggling the same element twice restores which elements are selected. */
  lemma ToggleTwice<T>(xs: seq<T>, x: T, y: T)
    ensures y in Toggle(Toggle(xs, x), x) <==> y in xs
  {
    ToggleMembership(xs, x, y);
    ToggleMembership(Toggle(xs, x), x, y);
    ToggleMembership(xs, x, x);
  }

  /** `xs.slice(0, n)`: the first min(n, |xs|) elements. */
  function Take<T>(xs: seq<T>, n: nat): (r: seq<T>)
    ensures |r| == if |xs| < n then |xs| else n
    ensures forall i :: 0 <= i < |r| ==> r[i] == xs[i]
  {
    if |xs| <= n then xs else xs[..n]
  }
}
