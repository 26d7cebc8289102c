/**
 * The default order of JavaScript's `Array.prototype.sort` on strings (character
 * by character, a proper prefix first), and `[...new Set(xs)].sort()`: the
 * distinct values of a list in that order.
 */
module Ordering {

  /** `a` sorts strictly before `b`. */
  predicate Less(a: string, b: string) {
    if a == [] then b != []
    else if b == [] then false
    else if a[0] != b[0] then a[0] < b[0]
    else Less(a[1..], b[1..])
  }

  lemma {:induction false} LessIrreflexive(a: string)
    ensures !Less(a, a)
  {
    if a != [] {
      LessIrreflexive(a[1..]);
    }
  }

  lemma {:induction false} LessTransitive(a: string, b: string, c: string)
    requires Less(a, b) && Less(b, c)
    ensures Less(a, c)
  {
    if a != [] && b != [] && c != [] && a[0] == b[0] == c[0] {
      LessTransitive(a[1..], b[1..], c[1..]);
    }
  }

  /** Any two different strings are ordered one way or the other. */
  lemma {:induction false} LessTotal(a: string, b: string)
    requires a != b
    ensures Less(a, b) || Less(b, a)
  {
    if a != [] && b != [] && a[0] == b[0] {
      assert a == [a[0]] + a[1..] && b == [b[0]] + b[1..];
      LessTotal(a[1..], b[1..]);
    }
  }

  lemma {:induction false} LessAsymmetric(a: string, b: string)
    requires Less(a, b)
    ensures !Less(b, a)
  {
    if a != [] && b != [] && a[0] == b[0] {
      LessAsymmetric(a[1..], b[1..]);
    }
  }

  /** Ascending without repeats. */
  predicate StrictlySorted(r: seq<string>) {
    forall i, j :: 0 <= i < j < |r| ==> Less(r[i], r[j])
  }

  /** `x` placed into the sorted list `r` where the order puts it. */
  function InsertSorted(r: seq<string>, x: string): (t: seq<string>)
    requires StrictlySorted(r) && x !in r
    ensures StrictlySorted(t)
    ensures |t| == |r| + 1
    ensures forall y :: y in t <==> y in r || y == x
  {
    if r == [] then [x]
    else if Less(x, r[0]) then
      assert forall j :: 0 < j < |r| ==> Less(x, r[j]) by {
        forall j | 0 < j < |r| ensures Less(x, r[j]) {
          LessTransitive(x, r[0], r[j]);
        }
      }
      [x] + r
    else
      var t' := InsertSorted(r[1..], x);
      assert Less(r[0], x) by {
        LessTotal(x, r[0]);
      }
      assert forall k :: 0 <= k < |t'| ==> Less(r[0], t'[k]) by {
        forall k | 0 <= k < |t'| ensures Less(r[0], t'[k]) {
          if t'[k] != x {
            assert t'[k] in t' && t'[k] in r[1..];
            var j :| 0 <= j < |r[1..]| && r[1..][j] == t'[k];
            assert r[j + 1] == t'[k];
          }
        }
      }
      [r[0]] + t'
  }

  /**
   * `[...new Set(xs)].sort()`: first the distinct values in order of first
   * appearance (a `Set` keeps insertion order), then that list sorted.
   */
  method UniqueSorted(xs: seq<string>) returns (r: seq<string>)
    ensures StrictlySorted(r)
    ensures forall y :: y in r <==> y in xs
  {
    var distinct: seq<string> := [];
    var i := 0;
    while i < |xs|
      invariant 0 <= i <= |xs|
      invariant forall a, b :: 0 <= a < b < |distinct| ==> distinct[a] != distinct[b]
      invariant forall y :: y in distinct <==> y in xs[..i]
    {
      if xs[i] !in distinct {
        distinct := distinct + [xs[i]];
      }
      i := i + 1;
    }
    assert xs[..i] == xs;
    r := [];
    var k := 0;
    while k < |distinct|
      invariant 0 <= k <= |distinct|
      invariant StrictlySorted(r)
      invariant forall y :: y in r <==> y in distinct[..k]
    {
      assert distinct[k] !in distinct[..k];
      r := InsertSorted(r, distinct[k]);
      assert distinct[..k + 1] == distinct[..k] + [distinct[k]];
      k := k + 1;
    }
    assert distinct[..k] == distinct;
  }

  lemma HeadIsMember(s: seq<string>)
    ensures s != [] ==> s[0] in s
  {
  }

  /** A strictly sorted list is determined by its set of values. */
  lemma {:induction false} StrictlySortedUnique(a: seq<string>, b: seq<string>)
    requires StrictlySorted(a) && StrictlySorted(b)
    requires forall y :: y in a <==> y in b
    ensures a == b
  {
    // when one side is empty, so is the other: its first element would be a member
    HeadIsMember(a);
    HeadIsMember(b);
    if a != [] && b != [] {
      assert a[0] in a && b[0] in b;
      var j :| 0 <= j < |b| && b[j] == a[0];
      var i :| 0 <= i < |a| && a[i] == b[0];
      if j > 0 && i > 0 {
        // then b[0] < a[0] and a[0] < b[0]
        LessAsymmetric(b[0], b[j]);
        assert false;
      }
      assert a == [a[0]] + a[1..] && b == [b[0]] + b[1..];
      forall y ensures y in a[1..] <==> y in b[1..] {
        LessIrreflexive(a[0]);
        if y in a[1..] {
          var j :| 0 <= j < |a[1..]| && a[1..][j] == y;
          assert Less(a[0], a[j + 1]);
          assert y in b && y != b[0];
        }
        if y in b[1..] {
          var j :| 0 <= j < |b[1..]| && b[1..][j] == y;
          assert Less(b[0], b[j + 1]);
          assert y in a && y != a[0];
        }
      }
      StrictlySortedUnique(a[1..], b[1..]);
    }
  }
}
