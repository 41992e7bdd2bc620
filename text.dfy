/**
 * The string operations of the Swift standard library and Foundation that the core
 * relies on: `split(separator:)`, `joined(separator:)`, ASCII case folding standing in
 * for `caseInsensitiveCompare`, and the lexicographic order used by `sorted()`.
 */
module Text {

  /** Every piece of `s` between occurrences of `sep`, empty pieces included. */
  function Fields(s: string, sep: char): (r: seq<string>)
    ensures |r| >= 1
    ensures forall i :: 0 <= i < |r| ==> sep !in r[i]
    decreases |s|
  {
    if |s| == 0 then [""]
    else
      var rest := Fields(s[1..], sep);
      if s[0] == sep then [""] + rest
      else [[s[0]] + rest[0]] + rest[1..]
  }

  /** The pieces of `xs` that are not empty, in their original order. */
  function NonEmptyOnly(xs: seq<string>): (r: seq<string>)
    ensures forall i :: 0 <= i < |r| ==> r[i] != [] && r[i] in xs
  {
    if xs == [] then []
    else (if xs[0] == [] then [] else [xs[0]]) + NonEmptyOnly(xs[1..])
  }

  /**
   * Swift's `split(separator:)` with its defaults (no limit on the number of splits,
   * empty subsequences omitted): the maximal separator-free runs of `s`, in order.
   */
  function Split(s: string, sep: char): (r: seq<string>)
    ensures forall i :: 0 <= i < |r| ==> r[i] != [] && sep !in r[i]
  {
    var fields := Fields(s, sep);
    var r := NonEmptyOnly(fields);
    assert forall i :: 0 <= i < |r| ==> sep !in r[i] by {
      forall i | 0 <= i < |r| ensures sep !in r[i] {
        var j :| 0 <= j < |fields| && fields[j] == r[i];
      }
    }
    r
  }

  /** The total length of the pieces. */
  function TotalLength(xs: seq<string>): nat
  {
    if xs == [] then 0 else |xs[0]| + TotalLength(xs[1..])
  }

  /**
   * Swift's `joined(separator:)` on a sequence of strings: the pieces with one separator
   * between each two, so an empty list joins to "" and a single piece to itself.
   */
  function Join(xs: seq<string>, sep: char): (r: string)
    ensures xs == [] ==> r == ""
    ensures xs != [] ==> |r| == TotalLength(xs) + |xs| - 1 && r[..|xs[0]|] == xs[0]
  {
    if |xs| == 0 then ""
    else if |xs| == 1 then xs[0]
    else xs[0] + [sep] + Join(xs[1..], sep)
  }

  /** Joining one more piece appends a separator and that piece. */
  lemma {:induction false} JoinSnoc(xs: seq<string>, x: string, sep: char)
    ensures Join(xs + [x], sep) == if xs == [] then x else Join(xs, sep) + [sep] + x
  {
    if |xs| >= 2 {
      JoinSnoc(xs[1..], x, sep);
      assert (xs + [x])[1..] == xs[1..] + [x];
    } else if |xs| == 1 {
      assert (xs + [x])[1..] == [x];
    }
  }

  /** The fields of a string are a decomposition of it: joining them gives it back. */
  lemma {:induction false} JoinOfFields(s: string, sep: char)
    ensures Join(Fields(s, sep), sep) == s
  {
    if |s| > 0 {
      JoinOfFields(s[1..], sep);
      var rest := Fields(s[1..], sep);
      if s[0] == sep {
        assert ([""] + rest)[1..] == rest;
      } else {
        var r := [[s[0]] + rest[0]] + rest[1..];
        if |rest| > 1 {
          assert r[1..] == rest[1..];
          assert Join(rest, sep) == rest[0] + [sep] + Join(rest[1..], sep);
        }
      }
      assert s == [s[0]] + s[1..];
    }
  }

  /** Prefixing a separator-free string only extends the first field. */
  lemma {:induction false} FieldsOfPrefix(x: string, t: string, sep: char)
    requires sep !in x
    ensures Fields(x + t, sep) == [x + Fields(t, sep)[0]] + Fields(t, sep)[1..]
  {
    if |x| > 0 {
      FieldsOfPrefix(x[1..], t, sep);
      assert (x + t)[1..] == x[1..] + t;
      assert (x + t)[0] == x[0];
      assert [x[0]] + (x[1..] + Fields(t, sep)[0]) == x + Fields(t, sep)[0];
    } else {
      assert x + t == t;
      assert x + Fields(t, sep)[0] == Fields(t, sep)[0];
      assert Fields(t, sep) == [Fields(t, sep)[0]] + Fields(t, sep)[1..];
    }
  }

  /** Splitting a join of separator-free pieces, keeping empty fields, gives the pieces back. */
  lemma {:induction false} FieldsOfJoin(xs: seq<string>, sep: char)
    requires |xs| >= 1
    requires forall i :: 0 <= i < |xs| ==> sep !in xs[i]
    ensures Fields(Join(xs, sep), sep) == xs
  {
    if |xs| == 1 {
      FieldsOfPrefix(xs[0], "", sep);
      assert xs[0] + "" == xs[0];
      assert Fields("", sep) == [""];
      assert xs == [xs[0] + ""];
    } else {
      var t := [sep] + Join(xs[1..], sep);
      FieldsOfJoin(xs[1..], sep);
      assert Join(xs, sep) == xs[0] + t;
      FieldsOfPrefix(xs[0], t, sep);
      assert t[0] == sep && t[1..] == Join(xs[1..], sep);
      assert Fields(t, sep) == [""] + xs[1..];
      assert xs[0] + "" == xs[0];
      assert xs == [xs[0]] + xs[1..];
    }
  }

  lemma {:induction false} NonEmptyOnlyKeeps(xs: seq<string>)
    requires forall i :: 0 <= i < |xs| ==> xs[i] != []
    ensures NonEmptyOnly(xs) == xs
  {
    if xs != [] {
      NonEmptyOnlyKeeps(xs[1..]);
      assert xs == [xs[0]] + xs[1..];
    }
  }

  /** `split` undoes `joined` on non-empty, separator-free pieces. */
  lemma SplitOfJoin(xs: seq<string>, sep: char)
    requires forall i :: 0 <= i < |xs| ==> xs[i] != [] && sep !in xs[i]
    ensures Split(Join(xs, sep), sep) == xs
  {
    if xs != [] {
      FieldsOfJoin(xs, sep);
      NonEmptyOnlyKeeps(xs);
      assert Split(Join(xs, sep), sep) == NonEmptyOnly(Fields(Join(xs, sep), sep));
    } else {
      assert Fields("", sep) == [""];
      assert NonEmptyOnly([""]) == [] + NonEmptyOnly([""][1..]);
    }
  }

  /** A join of n separator-free pieces holds exactly n - 1 separators. */
  lemma {:induction false} SeparatorCount(xs: seq<string>, sep: char)
    requires |xs| >= 1
    requires forall i :: 0 <= i < |xs| ==> sep !in xs[i]
    ensures multiset(Join(xs, sep))[sep] == |xs| - 1
  {
    assert multiset(xs[0])[sep] == 0;
    if |xs| > 1 {
      SeparatorCount(xs[1..], sep);
      assert Join(xs, sep) == xs[0] + [sep] + Join(xs[1..], sep);
    }
  }

  function LowerAscii(c: char): char
  {
    if 'A' <= c <= 'Z' then (c as int + 32) as char else c
  }

  function Lowercased(s: string): (r: string)
    ensures |r| == |s|
    ensures forall i :: 0 <= i < |s| ==> r[i] == LowerAscii(s[i])
  {
    if s == [] then [] else [LowerAscii(s[0])] + Lowercased(s[1..])
  }

  /**
   * Foundation's `a.caseInsensitiveCompare(b) == .orderedSame`, approximated by
   * folding ASCII letters to lower case.
   */
  function EqualsIgnoringCase(a: string, b: string): (r: bool)
    ensures r <==> |a| == |b| && forall i :: 0 <= i < |a| ==> LowerAscii(a[i]) == LowerAscii(b[i])
    ensures a == b ==> r
  {
    Lowercased(a) == Lowercased(b)
  }

  /** Swift's `hasPrefix(_:)`: the first characters of `s` are those of `prefix`. */
  function HasPrefix(s: string, prefix: string): (r: bool)
    ensures r <==> |prefix| <= |s| && forall i :: 0 <= i < |prefix| ==> s[i] == prefix[i]
    ensures r ==> s == prefix + s[|prefix|..]
  {
    |prefix| <= |s| && s[..|prefix|] == prefix
  }

  /**
   * Strict lexicographic order on strings, character by character. This stands for
   * Swift's `<` on `String`, which compares by Unicode canonical equivalence.
   */
  predicate Less(a: string, b: string)
    decreases |a|
  {
    |b| > 0 && (|a| == 0 || a[0] < b[0] || (a[0] == b[0] && Less(a[1..], b[1..])))
  }

  lemma {:induction false} LessIrreflexive(a: string)
    ensures !Less(a, a)
    decreases |a|
  {
    if |a| > 0 {
      LessIrreflexive(a[1..]);
    }
  }

  lemma {:induction false} LessTransitive(a: string, b: string, c: string)
    requires Less(a, b) && Less(b, c)
    ensures Less(a, c)
    decreases |a|
  {
    if |a| > 0 && a[0] == b[0] && b[0] == c[0] {
      LessTransitive(a[1..], b[1..], c[1..]);
    }
  }

  lemma {:induction false} LessTotal(a: string, b: string)
    requires a != b
    ensures Less(a, b) || Less(b, a)
    decreases |a|
  {
    if |a| > 0 && |b| > 0 && a[0] == b[0] {
      assert a == [a[0]] + a[1..] && b == [b[0]] + b[1..];
      LessTotal(a[1..], b[1..]);
    }
  }

  lemma {:induction false} LessAsymmetric(a: string, b: string)
    requires Less(a, b)
    ensures !Less(b, a)
    decreases |a|
  {
    if |a| > 0 && a[0] == b[0] {
      LessAsymmetric(a[1..], b[1..]);
    }
  }
}
