/** Version-string ordering used by the update check (`compare_versions` and its
    inner `version_tuple`), and the normalisation of a release tag. */
module Versions {
  import opened Strings

  /** What one dot-separated component contributes: its value when it is all
      digits, and 0 otherwise (an empty component included). */
  function ComponentValue(part: string): (n: nat)
    ensures !IsNumeral(part) ==> n == 0
  {
    if IsNumeral(part) then ParseNat(part) else 0
  }

  /** The text that is compared: everything from the first `-`, and then from the
      first `_`, is dropped. */
  function CleanVersion(v: string): (r: string)
    ensures r <= v && '-' !in r && '_' !in r
  {
    var a := BeforeFirst(v, '-');
    var b := BeforeFirst(a, '_');
    assert b <= a <= v;
    b
  }

  /** The integer tuple a version string stands for, one entry per component. */
  function Tuple(v: string): (t: seq<nat>)
    ensures |t| == |SplitOn(CleanVersion(v), '.')|
    ensures t != []
  {
    var parts := SplitOn(CleanVersion(v), '.');
    seq(|parts|, i requires 0 <= i < |parts| => ComponentValue(parts[i]))
  }

  /** `version_tuple`: builds the tuple component by component, as the source's loop does. */
  method VersionTuple(v: string) returns (result: seq<nat>)
    ensures result == Tuple(v)
  {
    var parts := SplitOn(CleanVersion(v), '.');
    result := [];
    var i := 0;
    while i < |parts|
      invariant 0 <= i <= |parts|
      invariant |result| == i
      invariant forall k :: 0 <= k < i ==> result[k] == ComponentValue(parts[k])
    {
      var n := 0;
      if IsNumeral(parts[i]) {
        n := ParseNat(parts[i]);
      }
      result := result + [n];
      i := i + 1;
    }
    TupleOfComponents(v, parts, result);
  }

  /** A sequence holding the value of each component is the version's tuple. */
  lemma TupleOfComponents(v: string, parts: seq<string>, result: seq<nat>)
    requires parts == SplitOn(CleanVersion(v), '.')
    requires |result| == |parts| && forall k :: 0 <= k < |parts| ==> result[k] == ComponentValue(parts[k])
    ensures result == Tuple(v)
  {
  }

  /** Python's `<` on tuples of integers: lexicographic, and a proper prefix is smaller. */
  predicate TupleLess(a: seq<nat>, b: seq<nat>) {
    if a == [] then b != []
    else if b == [] then false
    else a[0] < b[0] || (a[0] == b[0] && TupleLess(a[1..], b[1..]))
  }

  /** `compare_versions`: -1, 0 or 1 as the first version is older, the same or newer. */
  function CompareVersions(v1: string, v2: string): (r: int)
    ensures r in {-1, 0, 1}
    ensures r == -1 <==> TupleLess(Tuple(v1), Tuple(v2))
  {
    var t1 := Tuple(v1);
    var t2 := Tuple(v2);
    if TupleLess(t1, t2) then -1
    else if TupleLess(t2, t1) then 1
    else 0
  }

  /** The tag normalisation of `fetch_latest_version`: one leading `v` is removed. */
  function NormalizeTag(tag: string): (r: string)
    ensures |tag| > 0 && tag[0] == 'v' ==> tag == ['v'] + r
    ensures (|tag| == 0 || tag[0] != 'v') ==> r == tag
  {
    if StartsWith(tag, "v") then tag[1..] else tag
  }

  // ---------------------------------------------------------------------------
  // Properties of the order
  // ---------------------------------------------------------------------------

  lemma {:induction false} TupleLessIrreflexive(a: seq<nat>)
    ensures !TupleLess(a, a)
  {
    if a != [] {
      TupleLessIrreflexive(a[1..]);
    }
  }

  lemma {:induction false} TupleLessAsymmetric(a: seq<nat>, b: seq<nat>)
    ensures TupleLess(a, b) ==> !TupleLess(b, a)
  {
    if a != [] && b != [] {
      TupleLessAsymmetric(a[1..], b[1..]);
    }
  }

  lemma {:induction false} TupleLessTrichotomy(a: seq<nat>, b: seq<nat>)
    ensures TupleLess(a, b) || TupleLess(b, a) || a == b
  {
    if a != [] && b != [] {
      TupleLessTrichotomy(a[1..], b[1..]);
      if a[0] == b[0] && a[1..] == b[1..] {
        assert a == [a[0]] + a[1..] && b == [b[0]] + b[1..];
      }
    }
  }

  lemma {:induction false} TupleLessTransitive(a: seq<nat>, b: seq<nat>, c: seq<nat>)
    requires TupleLess(a, b) && TupleLess(b, c)
    ensures TupleLess(a, c)
  {
    if a != [] && a[0] == b[0] && b[0] == c[0] {
      TupleLessTransitive(a[1..], b[1..], c[1..]);
    }
  }

  /** A proper prefix is smaller: `1.6` < `1.6.0`. */
  lemma {:induction false} TupleLessPrefix(a: seq<nat>, b: seq<nat>)
    requires b != []
    ensures TupleLess(a, a + b)
  {
    if a != [] {
      assert (a + b)[0] == a[0] && (a + b)[1..] == a[1..] + b;
      TupleLessPrefix(a[1..], b);
    }
  }

  /** A version compares equal to itself. */
  lemma CompareReflexive(v: string)
    ensures CompareVersions(v, v) == 0
  {
    TupleLessIrreflexive(Tuple(v));
  }

  /** Swapping the arguments negates the result. */
  lemma CompareAntisymmetric(v1: string, v2: string)
    ensures CompareVersions(v1, v2) == -CompareVersions(v2, v1)
  {
    TupleLessAsymmetric(Tuple(v1), Tuple(v2));
  }

  /** Equal results mean equal tuples: 0 is returned exactly when the integer tuples agree. */
  lemma CompareZeroIffSameTuple(v1: string, v2: string)
    ensures CompareVersions(v1, v2) == 0 <==> Tuple(v1) == Tuple(v2)
  {
    TupleLessTrichotomy(Tuple(v1), Tuple(v2));
    TupleLessIrreflexive(Tuple(v1));
  }

  /** The order is transitive. */
  lemma CompareTransitive(v1: string, v2: string, v3: string)
    requires CompareVersions(v1, v2) == -1 && CompareVersions(v2, v3) == -1
    ensures CompareVersions(v1, v3) == -1
  {
    TupleLessTransitive(Tuple(v1), Tuple(v2), Tuple(v3));
  }

  /** A suffix after `-` or `_` is ignored: `1.6.0-beta` and `1.6.0_rc` equal `1.6.0`. */
  lemma SuffixIgnored(v: string, sep: char, suffix: string)
    requires sep == '-' || sep == '_'
    requires '-' !in v && '_' !in v
    ensures CompareVersions(v + [sep] + suffix, v) == 0
  {
    var w := v + [sep] + suffix;
    if sep == '-' {
      BeforeFirstUnique(w, '-', v);
    } else {
      var s' := BeforeFirst(suffix, '-');
      BeforeFirstUnique(w, '-', v + ['_'] + s');
      BeforeFirstUnique(v + ['_'] + s', '_', v);
    }
    assert CleanVersion(w) == CleanVersion(v);
    CompareReflexive(v);
  }

  /** `BeforeFirst` is pinned down by its three properties. */
  lemma BeforeFirstUnique(s: string, c: char, r: string)
    requires r <= s && c !in r
    requires |r| < |s| ==> s[|r|] == c
    ensures BeforeFirst(s, c) == r
  {
    var q := BeforeFirst(s, c);
    assert q == s[..|q|] && r == s[..|r|];
  }

  lemma SplitSingle(x: char)
    requires x != '.'
    ensures SplitOn([x], '.') == [[x]]
  {
    assert IndexOfChar([x][1..], '.') == None;
    assert IndexOfChar([x], '.') == None;
  }

  lemma SplitCons(x: char, rest: string)
    requires x != '.'
    ensures SplitOn([x, '.'] + rest, '.') == [[x]] + SplitOn(rest, '.')
  {
    var s := [x, '.'] + rest;
    assert s[1..][0] == '.';
    assert IndexOfChar(s[1..], '.') == Some(0);
    assert IndexOfChar(s, '.') == Some(1);
    assert s[..1] == [x] && s[2..] == rest;
  }

  /** The tuple of a version with three one-character components. */
  lemma TupleOfThree(a: char, b: char, c: char)
    requires a !in ".-_" && b !in ".-_" && c !in ".-_"
    ensures Tuple([a, '.', b, '.', c]) == [ComponentValue([a]), ComponentValue([b]), ComponentValue([c])]
  {
    var s := [a, '.', b, '.', c];
    assert '-' !in s && '_' !in s;
    assert CleanVersion(s) == s;
    SplitSingle(c);
    SplitCons(b, [c]);
    assert [b, '.'] + [c] == [b, '.', c];
    SplitCons(a, [b, '.', c]);
    assert [a, '.'] + [b, '.', c] == s;
  }

  /** A component that is not all digits counts as 0: `1.x.2` equals `1.0.2`. */
  lemma NonDigitComponentIsZero()
    ensures CompareVersions("1.x.2", "1.0.2") == 0
  {
    TupleOfThree('1', 'x', '2');
    TupleOfThree('1', '0', '2');
    assert ParseNat("0") == 0;
    assert ComponentValue("x") == 0 == ComponentValue("0");
    CompareZeroIffSameTuple("1.x.2", "1.0.2");
  }

  lemma ComponentOfDigit(d: char)
    requires IsDigit(d)
    ensures ComponentValue([d]) == DigitValue(d)
  {
    assert [d][..0] == [] && [d][0] == d;
    assert IsNumeral([d]);
    assert ParseNat([d]) == ParseNat([]) * 10 + DigitValue(d);
  }

  /** A newer minor release is greater: `1.5.0` < `1.6.0`. */
  lemma MinorReleaseOrder()
    ensures CompareVersions("1.5.0", "1.6.0") == -1
  {
    TupleOfThree('1', '5', '0');
    TupleOfThree('1', '6', '0');
    ComponentOfDigit('1');
    ComponentOfDigit('5');
    ComponentOfDigit('6');
    assert Tuple("1.5.0")[0] == Tuple("1.6.0")[0] && Tuple("1.5.0")[1] < Tuple("1.6.0")[1];
  }

  /** The tuple of a version with two one-character components. */
  lemma TupleOfTwo(a: char, b: char)
    requires a !in ".-_" && b !in ".-_"
    ensures Tuple([a, '.', b]) == [ComponentValue([a]), ComponentValue([b])]
  {
    var s := [a, '.', b];
    assert '-' !in s && '_' !in s;
    assert CleanVersion(s) == s;
    SplitSingle(b);
    SplitCons(a, [b]);
    assert [a, '.'] + [b] == s;
  }

  /** A shorter version is older than its extension: `a.b` < `a.b.c`, as in `1.6` < `1.6.0`. */
  lemma PrefixReleaseOrder(a: char, b: char, c: char)
    requires a !in ".-_" && b !in ".-_" && c !in ".-_"
    ensures CompareVersions([a, '.', b], [a, '.', b, '.', c]) == -1
  {
    TupleOfThree(a, b, c);
    TupleOfTwo(a, b);
    var short := Tuple([a, '.', b]);
    TupleLessPrefix(short, [ComponentValue([c])]);
    assert short + [ComponentValue([c])] == Tuple([a, '.', b, '.', c]);
  }

  /** A tag `v` + version is compared as the version itself. */
  lemma NormalizedTagCompares(v: string)
    ensures NormalizeTag(['v'] + v) == v
    ensures CompareVersions(NormalizeTag(['v'] + v), v) == 0
  {
    CompareReflexive(v);
  }
}
