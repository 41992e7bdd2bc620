/** Swift's `sorted()` on a set of string keys, in the lexicographic order of `Text.Less`. */
module Sorting {
  import opened Text

  predicate StrictlySorted(xs: seq<string>)
  {
    forall i, j :: 0 <= i < j < |xs| ==> Less(xs[i], xs[j])
  }

  /** `xs` lists the elements of `s`, each once, in increasing order. */
  ghost predicate IsSortedListOf(xs: seq<string>, s: set<string>)
  {
    StrictlySorted(xs) && forall x :: x in xs <==> x in s
  }

  /** `m` is the least element of `s`. */
  predicate IsLeast(m: string, s: set<string>)
  {
    m in s && forall y :: y in s && y != m ==> Less(m, y)
  }

  /** Below the least element of the rest of a set, `x` is the least element of the whole. */
  lemma LeastOfInsert(x: string, m: string, s: set<string>)
    requires x in s && IsLeast(m, s - {x}) && Less(x, m)
    ensures IsLeast(x, s)
  {
    forall y | y in s && y != x
      ensures Less(x, y)
    {
      if y != m {
        LessTransitive(x, m, y);
      }
    }
  }

  /** Every finite non-empty set of strings has a least element. */
  lemma {:induction false} MinimumExists(s: set<string>)
    requires s != {}
    ensures exists m :: IsLeast(m, s)
    decreases s
  {
    var x :| x in s;
    if s != {x} {
      MinimumExists(s - {x});
      var m :| IsLeast(m, s - {x});
      LessTotal(x, m);
      if Less(x, m) {
        LeastOfInsert(x, m, s);
      } else {
        assert IsLeast(m, s);
      }
    } else {
      assert IsLeast(x, s);
    }
  }

  /** A set has only one sorted listing. */
  lemma {:induction false} SortedUnique(xs: seq<string>, ys: seq<string>, s: set<string>)
    requires IsSortedListOf(xs, s) && IsSortedListOf(ys, s)
    ensures xs == ys
    decreases |xs|
  {
    assert forall i :: 0 <= i < |ys| ==> ys[i] in xs;
    assert forall i :: 0 <= i < |xs| ==> xs[i] in ys;
    if xs == [] || ys == [] {
    } else {
      if xs[0] != ys[0] {
        assert ys[0] in s && xs[0] in s;
        assert ys[0] in xs && xs[0] in ys;
        var j :| 0 <= j < |xs| && xs[j] == ys[0];
        var k :| 0 <= k < |ys| && ys[k] == xs[0];
        assert j > 0 && k > 0;
        LessAsymmetric(xs[0], ys[0]);
      }
      var rest := s - {xs[0]};
      forall i | 0 < i < |xs|
        ensures xs[i] != xs[0]
      {
        LessIrreflexive(xs[0]);
      }
      forall i | 0 < i < |ys|
        ensures ys[i] != ys[0]
      {
        LessIrreflexive(ys[0]);
      }
      assert IsSortedListOf(xs[1..], rest);
      assert IsSortedListOf(ys[1..], rest);
      SortedUnique(xs[1..], ys[1..], rest);
      assert xs == [xs[0]] + xs[1..] && ys == [ys[0]] + ys[1..];
    }
  }

  /** The sorted listing of a set of keys. */
  ghost function SortedKeys(s: set<string>): (r: seq<string>)
    ensures IsSortedListOf(r, s)
    decreases s
  {
    if s == {} then []
    else
      MinimumExists(s);
      var m :| IsLeast(m, s);
      [m] + SortedKeys(s - {m})
  }

  /** `keys.sorted()`: picks the least remaining key until none is left. */
  method Sorted(s: set<string>) returns (r: seq<string>)
    ensures r == SortedKeys(s)
  {
    r := [];
    var pending := s;
    while pending != {}
      invariant pending <= s
      invariant StrictlySorted(r)
      invariant forall x :: x in r <==> x in s && x !in pending
      invariant forall i, y :: 0 <= i < |r| && y in pending ==> Less(r[i], y)
      decreases pending
    {
      MinimumExists(pending);
      var m :| IsLeast(m, pending);
      r := r + [m];
      pending := pending - {m};
    }
    SortedUnique(r, SortedKeys(s), s);
  }
}
