/**
 * JavaScript's `Array.prototype.filter`, and the facts about it that the
 * booking filter and the calendar's per-day lookup rest on.
 */
module Seqs {

  /** `xs.filter(p)`: the elements satisfying `p`, in their original order. */
  function Select<T(==)>(xs: seq<T>, p: T -> bool): (r: seq<T>)
    ensures |r| <= |xs|
  {
    if xs == [] then []
    else if p(xs[0]) then [xs[0]] + Select(xs[1..], p)
    else Select(xs[1..], p)
  }

  /** An element is selected iff it is in the input and passes the test. */
  lemma {:induction false} SelectMembers<T>(xs: seq<T>, p: T -> bool)
    ensures forall x :: x in Select(xs, p) <==> x in xs && p(x)
  {
    if xs != [] {
      SelectMembers(xs[1..], p);
      assert xs == [xs[0]] + xs[1..];
    }
  }

  /** `a` is `b` with some elements removed and the rest kept in order. */
  predicate Subsequence<T(==)>(a: seq<T>, b: seq<T>)
    decreases |b|
  {
    a == [] ||
    (b != [] && ((a[0] == b[0] && Subsequence(a[1..], b[1..])) || Subsequence(a, b[1..])))
  }

  /** Every sequence is a subsequence of itself. */
  lemma {:induction false} SubsequenceReflexive<T>(a: seq<T>)
    ensures Subsequence(a, a)
  {
    if a != [] {
      SubsequenceReflexive(a[1..]);
    }
  }

  /** Filtering keeps order: the result is a subsequence of the input. */
  lemma {:induction false} SelectIsSubsequence<T>(xs: seq<T>, p: T -> bool)
    ensures Subsequence(Select(xs, p), xs)
  {
    if xs != [] {
      SelectIsSubsequence(xs[1..], p);
    }
  }

  /** When every element passes, filtering returns the input unchanged. */
  lemma {:induction false} SelectAll<T>(xs: seq<T>, p: T -> bool)
    requires forall x :: x in xs ==> p(x)
    ensures Select(xs, p) == xs
  {
    if xs != [] {
      SelectAll(xs[1..], p);
    }
  }

  /** Filtering by `p` and then by `q` is filtering once by their conjunction `r`. */
  lemma {:induction false} SelectSelect<T>(xs: seq<T>, p: T -> bool, q: T -> bool, r: T -> bool)
    requires forall x :: r(x) == (p(x) && q(x))
    ensures Select(Select(xs, p), q) == Select(xs, r)
  {
    if xs != [] {
      SelectSelect(xs[1..], p, q, r);
    }
  }

  /** Filtering a list one element longer appends that element iff it passes. */
  lemma {:induction false} SelectAppend<T>(xs: seq<T>, x: T, p: T -> bool)
    ensures Select(xs + [x], p) == Select(xs, p) + (if p(x) then [x] else [])
  {
    if xs != [] {
      assert (xs + [x])[0] == xs[0];
      assert (xs + [x])[1..] == xs[1..] + [x];
      SelectAppend(xs[1..], x, p);
    }
  }

  /** Two tests that agree on every element select the same elements. */
  lemma {:induction false} SelectSame<T>(xs: seq<T>, p: T -> bool, q: T -> bool)
    requires forall x :: x in xs ==> p(x) == q(x)
    ensures Select(xs, p) == Select(xs, q)
  {
    if xs != [] {
      SelectSame(xs[1..], p, q);
    }
  }
}
