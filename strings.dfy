/** The Python `str` operations the bot relies on, written out over `seq<char>`:
    `isspace`, `split()`, `split(sep)`, `strip`, `find`, `replace(pat, "")`,
    `startswith`, `title()` on ASCII text, and the decimal form of a whole number
    (`str(n)`, `int(s)`, `f"{n:02d}"`). */
module Strings {

  datatype Option<T> = None | Some(value: T)

  // ---------------------------------------------------------------------------
  // Whitespace, str.split(), str.strip()
  // ---------------------------------------------------------------------------

  /** Python's `str.isspace()` for one character. */
  predicate IsSpace(c: char) {
    || c == ' '
    || ('\U{9}' <= c <= '\U{D}')
    || ('\U{1C}' <= c <= '\U{1F}')
    || c == '\U{85}' || c == '\U{A0}' || c == '\U{1680}'
    || ('\U{2000}' <= c <= '\U{200A}')
    || c == '\U{2028}' || c == '\U{2029}' || c == '\U{202F}' || c == '\U{205F}' || c == '\U{3000}'
  }

  predicate NoSpace(s: string) {
    forall k :: 0 <= k < |s| ==> !IsSpace(s[k])
  }

  predicate AllSpace(s: string) {
    forall k :: 0 <= k < |s| ==> IsSpace(s[k])
  }

  /** Number of leading characters of `s` that are not whitespace. */
  function WordLength(s: string): (n: nat)
    ensures n <= |s|
    ensures NoSpace(s[..n])
    ensures n < |s| ==> IsSpace(s[n])
  {
    if s == [] || IsSpace(s[0]) then 0
    else
      var n := 1 + WordLength(s[1..]);
      assert s[..n] == [s[0]] + s[1..][..n - 1];
      n
  }

  /** Python's `s.split()`: the maximal runs of non-whitespace characters, in order. */
  function Words(s: string): (ws: seq<string>)
    ensures forall i :: 0 <= i < |ws| ==> ws[i] != [] && NoSpace(ws[i])
    decreases |s|
  {
    if s == [] then []
    else if IsSpace(s[0]) then Words(s[1..])
    else
      var n := WordLength(s);
      [s[..n]] + Words(s[n..])
  }

  function Concat(ws: seq<string>): string {
    if ws == [] then [] else ws[0] + Concat(ws[1..])
  }

  /** `s` with every whitespace character deleted. */
  function RemoveSpaces(s: string): (r: string)
    ensures NoSpace(r)
  {
    if s == [] then []
    else if IsSpace(s[0]) then RemoveSpaces(s[1..])
    else [s[0]] + RemoveSpaces(s[1..])
  }

  lemma {:induction false} RemoveSpacesAppend(a: string, b: string)
    ensures RemoveSpaces(a + b) == RemoveSpaces(a) + RemoveSpaces(b)
  {
    if a == [] {
      assert a + b == b;
    } else {
      assert (a + b)[0] == a[0] && (a + b)[1..] == a[1..] + b;
      RemoveSpacesAppend(a[1..], b);
    }
  }

  lemma {:induction false} RemoveSpacesOfWord(w: string)
    requires NoSpace(w)
    ensures RemoveSpaces(w) == w
  {
    if w != [] {
      RemoveSpacesOfWord(w[1..]);
    }
  }

  /** split() loses exactly the whitespace: gluing the words back together gives
      the input with its whitespace removed. */
  lemma {:induction false} WordsLoseOnlySpaces(s: string)
    ensures Concat(Words(s)) == RemoveSpaces(s)
    decreases |s|
  {
    if s == [] {
    } else if IsSpace(s[0]) {
      WordsLoseOnlySpaces(s[1..]);
    } else {
      var n := WordLength(s);
      assert s == s[..n] + s[n..];
      WordsLoseOnlySpaces(s[n..]);
      RemoveSpacesOfWord(s[..n]);
      RemoveSpacesAppend(s[..n], s[n..]);
      assert Words(s)[1..] == Words(s[n..]);
    }
  }

  /** Python's `s.split()` on a word, a whitespace run and a word gives those two words. */
  lemma {:induction false} WordsOfTwo(a: string, gap: string, b: string)
    requires a != [] && NoSpace(a) && b != [] && NoSpace(b)
    requires gap != [] && AllSpace(gap)
    ensures Words(a + gap + b) == [a, b]
  {
    WordsOfPrefixWord(a, gap + b);
    assert a + gap + b == a + (gap + b);
    WordsSkipSpaces(gap, b);
    WordsOfPrefixWord(b, []);
    assert b + [] == b;
    assert Words([]) == [];
  }

  lemma {:induction false} WordsOfPrefixWord(w: string, rest: string)
    requires w != [] && NoSpace(w)
    requires rest == [] || IsSpace(rest[0])
    ensures Words(w + rest) == [w] + Words(rest)
  {
    WordLengthOfPrefixWord(w, rest);
    var s := w + rest;
    assert s[..|w|] == w && s[|w|..] == rest;
  }

  lemma {:induction false} WordLengthOfPrefixWord(w: string, rest: string)
    requires NoSpace(w)
    requires rest == [] || IsSpace(rest[0])
    ensures WordLength(w + rest) == |w|
  {
    if w != [] {
      assert (w + rest)[1..] == w[1..] + rest;
      WordLengthOfPrefixWord(w[1..], rest);
    }
  }

  lemma {:induction false} WordsSkipSpaces(gap: string, rest: string)
    requires AllSpace(gap)
    ensures Words(gap + rest) == Words(rest)
  {
    if gap == [] {
      assert gap + rest == rest;
    } else {
      assert (gap + rest)[0] == gap[0] && (gap + rest)[1..] == gap[1..] + rest;
      WordsSkipSpaces(gap[1..], rest);
    }
  }

  /** The length of the whitespace run at the start of `s`. */
  function LeadingSpace(s: string): (n: nat)
    ensures n <= |s| && AllSpace(s[..n])
    ensures n < |s| ==> !IsSpace(s[n])
  {
    if s == [] || !IsSpace(s[0]) then 0
    else
      var n := 1 + LeadingSpace(s[1..]);
      assert s[..n] == [s[0]] + s[1..][..n - 1];
      n
  }

  /** split() finds no word exactly in all-whitespace text. */
  lemma {:induction false} NoWordsIffAllSpace(s: string)
    ensures Words(s) == [] <==> AllSpace(s)
    decreases |s|
  {
    if s != [] && IsSpace(s[0]) {
      NoWordsIffAllSpace(s[1..]);
      if !AllSpace(s[1..]) {
        var k :| 0 <= k < |s[1..]| && !IsSpace(s[1..][k]);
        assert !IsSpace(s[k + 1]);
      } else {
        forall k | 0 <= k < |s| ensures IsSpace(s[k]) {
          if k > 0 {
            assert s[k] == s[1..][k - 1];
          }
        }
      }
    }
  }

  /** The first word of split() comes right after the leading whitespace and ends at
      the end of the text or at whitespace; the remaining words are those of the
      text after it. Applied word by word, this says split() cuts only at runs of
      whitespace. */
  lemma {:induction false} WordsHead(s: string)
    requires Words(s) != []
    ensures var l := LeadingSpace(s); var w := Words(s)[0];
            && l + |w| <= |s| && s[l..l + |w|] == w
            && (l + |w| < |s| ==> IsSpace(s[l + |w|]))
            && Words(s[l + |w|..]) == Words(s)[1..]
    decreases |s|
  {
    if IsSpace(s[0]) {
      WordsHead(s[1..]);
      var l := LeadingSpace(s[1..]);
      var w := Words(s)[0];
      assert s[1..][l..l + |w|] == s[1 + l..1 + l + |w|];
      assert s[1..][l + |w|..] == s[1 + l + |w|..];
    } else {
      var n := WordLength(s);
      assert Words(s)[1..] == Words(s[n..]);
    }
  }

  /** The text around the first word of split(): whitespace before it, and after it
      either nothing or text starting with whitespace, holding the other words. */
  lemma FirstWord(s: string) returns (lead: string, tail: string)
    requires Words(s) != []
    ensures AllSpace(lead) && s == lead + Words(s)[0] + tail
    ensures tail == [] || IsSpace(tail[0])
    ensures Words(tail) == Words(s)[1..]
  {
    WordsHead(s);
    var l := LeadingSpace(s);
    var w := Words(s)[0];
    lead, tail := s[..l], s[l + |w|..];
    assert s == s[..l] + s[l..l + |w|] + s[l + |w|..];
  }

  /** Two words that split() found lie in the text as whitespace, the first word, a
      non-empty run of whitespace, the second word, and whitespace. */
  lemma TwoWordsApart(s: string, a: string, b: string)
    requires Words(s) == [a, b]
    ensures exists l, g, t :: AllSpace(l) && AllSpace(g) && AllSpace(t) && g != [] && s == l + a + g + b + t
  {
    var l, r := FirstWord(s);
    assert Words(s)[0] == a && Words(s)[1] == b && Words(s)[1..] == [b];
    assert b != [] && NoSpace(b);
    var g, t := FirstWord(r);
    assert Words(r)[0] == b && Words(r)[1..] == [];
    NoWordsIffAllSpace(t);
    assert r == g + b + t;
    assert s == l + a + g + b + t;
  }

  /** Whitespace, a word, a non-empty run of whitespace, a word and whitespace split
      into those two words. */
  lemma {:induction false} TwoWordsJoined(l: string, a: string, g: string, b: string, t: string)
    requires a != [] && NoSpace(a) && b != [] && NoSpace(b)
    requires AllSpace(l) && AllSpace(g) && AllSpace(t) && g != []
    ensures Words(l + a + g + b + t) == [a, b]
  {
    assert l + a + g + b + t == l + (a + (g + (b + t)));
    WordsSkipSpaces(l, a + (g + (b + t)));
    assert (g + (b + t))[0] == g[0];
    WordsOfPrefixWord(a, g + (b + t));
    WordsSkipSpaces(g, b + t);
    WordsOfPrefixWord(b, t);
    NoWordsIffAllSpace(t);
  }

  /** split() gives exactly the words `a` and `b` when, and only when, the text is
      whitespace, `a`, a non-empty run of whitespace, `b`, and whitespace. */
  lemma {:induction false} TwoWordsLayout(s: string, a: string, b: string)
    ensures Words(s) == [a, b] <==>
            && a != [] && NoSpace(a) && b != [] && NoSpace(b)
            && exists l, g, t :: AllSpace(l) && AllSpace(g) && AllSpace(t) && g != [] && s == l + a + g + b + t
  {
    if Words(s) == [a, b] {
      assert Words(s)[0] == a && Words(s)[1] == b;
      TwoWordsApart(s, a, b);
    }
    if && a != [] && NoSpace(a) && b != [] && NoSpace(b)
       && exists l, g, t :: AllSpace(l) && AllSpace(g) && AllSpace(t) && g != [] && s == l + a + g + b + t
    {
      var l, g, t :| AllSpace(l) && AllSpace(g) && AllSpace(t) && g != [] && s == l + a + g + b + t;
      TwoWordsJoined(l, a, g, b, t);
    }
  }

  /** Drops leading characters satisfying `drop`. */
  function TrimStart(s: string, drop: char -> bool): (r: string)
    ensures |r| <= |s| && r == s[|s| - |r|..]
    ensures r != [] ==> !drop(r[0])
    ensures forall k :: 0 <= k < |s| - |r| ==> drop(s[k])
  {
    if s != [] && drop(s[0]) then TrimStart(s[1..], drop) else s
  }

  /** Drops trailing characters satisfying `drop`. */
  function TrimEnd(s: string, drop: char -> bool): (r: string)
    ensures |r| <= |s| && r == s[..|r|]
    ensures r != [] ==> !drop(r[|r| - 1])
    ensures forall k :: |r| <= k < |s| ==> drop(s[k])
  {
    if s != [] && drop(s[|s| - 1]) then TrimEnd(s[..|s| - 1], drop) else s
  }

  /** Python's `s.strip(chars)`, with the character class given as a predicate. */
  function Trim(s: string, drop: char -> bool): string {
    TrimEnd(TrimStart(s, drop), drop)
  }

  /** Python's `s.strip()`. */
  function Strip(s: string): string {
    Trim(s, IsSpace)
  }

  /** The stripped text is empty exactly when the input is all whitespace,
      and otherwise neither starts nor ends with whitespace. */
  lemma StripProperties(s: string)
    ensures Strip(s) == [] <==> AllSpace(s)
    ensures Strip(s) != [] ==> !IsSpace(Strip(s)[0]) && !IsSpace(Strip(s)[|Strip(s)| - 1])
  {
  }

  // ---------------------------------------------------------------------------
  // Substrings: startswith, find, `in`, split(sep, 1), replace(pat, "")
  // ---------------------------------------------------------------------------

  /** Python's `s.startswith(p)`. */
  predicate StartsWith(s: string, p: string) {
    p <= s
  }

  predicate OccursAt(s: string, pat: string, k: nat) {
    k + |pat| <= |s| && s[k..k + |pat|] == pat
  }

  function FindFrom(s: string, pat: string, from: nat): (r: Option<nat>)
    requires from <= |s|
    ensures r.Some? ==> from <= r.value && OccursAt(s, pat, r.value)
    ensures r.Some? ==> forall k :: from <= k < r.value ==> !OccursAt(s, pat, k)
    ensures r.None? ==> forall k :: from <= k <= |s| ==> !OccursAt(s, pat, k)
    decreases |s| - from
  {
    if OccursAt(s, pat, from) then Some(from)
    else if from == |s| then None
    else FindFrom(s, pat, from + 1)
  }

  /** Python's `s.find(pat)`, with None for -1: the first position where `pat` occurs. */
  function Find(s: string, pat: string): (r: Option<nat>)
    ensures r.Some? ==> OccursAt(s, pat, r.value) && forall k :: 0 <= k < r.value ==> !OccursAt(s, pat, k)
    ensures r.None? ==> forall k :: 0 <= k <= |s| ==> !OccursAt(s, pat, k)
  {
    FindFrom(s, pat, 0)
  }

  /** Python's `pat in s`. */
  predicate Contains(s: string, pat: string) {
    Find(s, pat).Some?
  }

  /** Python's `s.split(pat, 1)[1]` for an `s` that contains `pat`. */
  function AfterFirst(s: string, pat: string): (r: string)
    requires Contains(s, pat)
    ensures exists k: nat :: OccursAt(s, pat, k) && (forall j :: 0 <= j < k ==> !OccursAt(s, pat, j))
                             && r == s[k + |pat|..]
  {
    var k := Find(s, pat).value;
    s[k + |pat|..]
  }

  /** Python's `s.replace(pat, "")`: a left-to-right scan deleting non-overlapping occurrences. */
  function RemoveAll(s: string, pat: string): (r: string)
    requires pat != []
    ensures |r| <= |s|
    decreases |s|
  {
    if |pat| <= |s| && s[..|pat|] == pat then RemoveAll(s[|pat|..], pat)
    else if s == [] then []
    else [s[0]] + RemoveAll(s[1..], pat)
  }

  /** Text in which the pattern never occurs is left as it is. */
  lemma {:induction false} RemoveAllAbsent(s: string, pat: string)
    requires pat != []
    requires forall k :: 0 <= k <= |s| ==> !OccursAt(s, pat, k)
    ensures RemoveAll(s, pat) == s
    decreases |s|
  {
    if s != [] {
      assert !OccursAt(s, pat, 0);
      forall k | 0 <= k <= |s[1..]| ensures !OccursAt(s[1..], pat, k) {
        assert !OccursAt(s, pat, k + 1);
        if k + |pat| <= |s[1..]| {
          assert s[1..][k..k + |pat|] == s[k + 1..k + 1 + |pat|];
        }
      }
      RemoveAllAbsent(s[1..], pat);
    }
  }

  // ---------------------------------------------------------------------------
  // str.split(c) for one separator character
  // ---------------------------------------------------------------------------

  function IndexOfChar(s: string, c: char): (r: Option<nat>)
    ensures r.Some? ==> r.value < |s| && s[r.value] == c && c !in s[..r.value]
    ensures r.None? ==> c !in s
  {
    if s == [] then None
    else if s[0] == c then Some(0)
    else match IndexOfChar(s[1..], c)
      case None => None
      case Some(i) => assert s[..i + 1] == [s[0]] + s[1..][..i]; Some(i + 1)
  }

  /** `parts` joined with the separator `c` in between. */
  function Join(parts: seq<string>, c: char): string
    requires parts != []
  {
    if |parts| == 1 then parts[0] else parts[0] + [c] + Join(parts[1..], c)
  }

  /** Python's `s.split(c)`: never empty, no part holds the separator, and joining
      the parts back with `c` gives `s` again. */
  function SplitOn(s: string, c: char): (parts: seq<string>)
    ensures parts != []
    ensures forall i :: 0 <= i < |parts| ==> c !in parts[i]
    ensures Join(parts, c) == s
    decreases |s|
  {
    match IndexOfChar(s, c)
    case None => [s]
    case Some(i) =>
      var rest := SplitOn(s[i + 1..], c);
      assert s == s[..i] + [c] + s[i + 1..];
      [s[..i]] + rest
  }

  /** The first `c` in `a + [c] + b` is the one after `a`, when `a` has none. */
  lemma {:induction false} IndexOfCharAfter(a: string, c: char, b: string)
    requires c !in a
    ensures IndexOfChar(a + [c] + b, c) == Some(|a|)
  {
    if a != [] {
      assert (a + [c] + b)[1..] == a[1..] + [c] + b;
      IndexOfCharAfter(a[1..], c, b);
    }
  }

  /** Splitting `a + [c] + b` at `c` gives back `a` and `b` when neither holds a `c`. */
  lemma SplitOnPair(a: string, c: char, b: string)
    requires c !in a && c !in b
    ensures SplitOn(a + [c] + b, c) == [a, b]
  {
    var s := a + [c] + b;
    IndexOfCharAfter(a, c, b);
    assert s[..|a|] == a && s[|a| + 1..] == b;
  }

  /** Python's `s.split(c)[0]`: the text before the first `c`, or all of `s`. */
  function BeforeFirst(s: string, c: char): (r: string)
    ensures r <= s && c !in r
    ensures c !in s ==> r == s
    ensures |r| < |s| ==> s[|r|] == c
  {
    match IndexOfChar(s, c)
    case None => s
    case Some(i) => s[..i]
  }

  /** Python's `s.split(c)[-1]`: the text after the last `c`, or all of `s`. */
  function AfterLast(s: string, c: char): (r: string)
    ensures c !in r
    ensures |r| <= |s| && r == s[|s| - |r|..]
    ensures |r| < |s| ==> s[|s| - |r| - 1] == c
    decreases |s|
  {
    match IndexOfChar(s, c)
    case None => s
    case Some(i) => AfterLast(s[i + 1..], c)
  }

  /** Replaces every `from` by `to` (Python's `s.replace(from, to)` for single characters). */
  function ReplaceChar(s: string, from: char, to: char): (r: string)
    ensures |r| == |s|
    ensures forall k :: 0 <= k < |s| ==> r[k] == if s[k] == from then to else s[k]
  {
    if s == [] then [] else [if s[0] == from then to else s[0]] + ReplaceChar(s[1..], from, to)
  }

  // ---------------------------------------------------------------------------
  // str.title() on ASCII text
  // ---------------------------------------------------------------------------

  predicate IsUpper(c: char) { 'A' <= c <= 'Z' }
  predicate IsLower(c: char) { 'a' <= c <= 'z' }
  predicate IsLetter(c: char) { IsUpper(c) || IsLower(c) }

  function ToUpper(c: char): char {
    if IsLower(c) then (c as int - 'a' as int + 'A' as int) as char else c
  }

  function ToLower(c: char): char {
    if IsUpper(c) then (c as int - 'A' as int + 'a' as int) as char else c
  }

  /** title() after a character that was (`afterLetter`) or was not a letter. */
  function TitleFrom(s: string, afterLetter: bool): (r: string)
    ensures |r| == |s|
  {
    if s == [] then []
    else
      var c := s[0];
      [if !IsLetter(c) then c else if afterLetter then ToLower(c) else ToUpper(c)]
        + TitleFrom(s[1..], IsLetter(c))
  }

  /** Python's `s.title()`: a letter that starts a run of letters becomes upper case,
      every other letter lower case; other characters are kept. */
  function Title(s: string): string {
    TitleFrom(s, false)
  }

  lemma {:induction false} TitleFromAt(s: string, afterLetter: bool, k: nat)
    requires k < |s|
    ensures IsLetter(TitleFrom(s, afterLetter)[k]) == IsLetter(s[k])
    ensures !IsLetter(s[k]) ==> TitleFrom(s, afterLetter)[k] == s[k]
    ensures IsLetter(s[k]) ==>
      TitleFrom(s, afterLetter)[k] ==
        if (if k == 0 then afterLetter else IsLetter(s[k - 1])) then ToLower(s[k]) else ToUpper(s[k])
  {
    if k > 0 {
      TitleFromAt(s[1..], IsLetter(s[0]), k - 1);
    }
  }

  lemma {:induction false} TitleFromIdempotent(s: string, afterLetter: bool)
    ensures TitleFrom(TitleFrom(s, afterLetter), afterLetter) == TitleFrom(s, afterLetter)
  {
    var t := TitleFrom(s, afterLetter);
    forall k | 0 <= k < |s|
      ensures TitleFrom(t, afterLetter)[k] == t[k]
    {
      TitleFromAt(s, afterLetter, k);
      TitleFromAt(t, afterLetter, k);
      if k > 0 {
        TitleFromAt(s, afterLetter, k - 1);
      }
    }
  }

  /** title() applied twice gives the same text as applied once. */
  lemma TitleIdempotent(s: string)
    ensures Title(Title(s)) == Title(s)
  {
    TitleFromIdempotent(s, false);
  }

  // ---------------------------------------------------------------------------
  // Decimal numerals: str(n), int(s), f"{n:02d}"
  // ---------------------------------------------------------------------------

  predicate IsDigit(c: char) { '0' <= c <= '9' }

  predicate AllDigits(s: string) {
    forall k :: 0 <= k < |s| ==> IsDigit(s[k])
  }

  /** Python's `s.isdigit()` on ASCII text: non-empty and all digits. */
  predicate IsNumeral(s: string) {
    s != [] && AllDigits(s)
  }

  function DigitChar(d: nat): (c: char)
    requires d < 10
    ensures IsDigit(c)
  {
    ('0' as int + d) as char
  }

  function DigitValue(c: char): (d: nat)
    requires IsDigit(c)
    ensures d < 10 && DigitChar(d) == c
  {
    c as int - '0' as int
  }

  /** Python's `str(n)` for a whole number `n >= 0`. */
  function NatToString(n: nat): (s: string)
    ensures IsNumeral(s)
    decreases n
  {
    if n < 10 then [DigitChar(n)] else NatToString(n / 10) + [DigitChar(n % 10)]
  }

  /** Python's `int(s)` for a string of ASCII digits. */
  function ParseNat(s: string): nat
    requires AllDigits(s)
  {
    if s == [] then 0 else ParseNat(s[..|s| - 1]) * 10 + DigitValue(s[|s| - 1])
  }

  /** Reading back a printed number gives that number. */
  lemma {:induction false} ParseNatToString(n: nat)
    ensures ParseNat(NatToString(n)) == n
    decreases n
  {
    if n >= 10 {
      var s := NatToString(n);
      assert s[..|s| - 1] == NatToString(n / 10);
      ParseNatToString(n / 10);
    }
  }

  /** A number is printed with one digit below 10 and two digits from 10 to 99. */
  lemma NatToStringLength(n: nat)
    ensures n < 10 ==> |NatToString(n)| == 1
    ensures 10 <= n < 100 ==> |NatToString(n)| == 2
    ensures n >= 10 ==> |NatToString(n)| >= 2
  {
  }

  /** Python's `f"{n:02d}"` for `n >= 0`: the decimal numeral, left-padded with
      zeros to at least two characters. */
  function Pad2(n: nat): (s: string)
    ensures IsNumeral(s) && |s| >= 2
    ensures ParseNat(s) == n
    ensures n < 100 ==> |s| == 2
  {
    NatToStringLength(n);
    ParseNatToString(n);
    if n < 10 then
      var s := ['0'] + NatToString(n);
      assert s[..|s| - 1] == ['0'];
      s
    else NatToString(n)
  }
}
