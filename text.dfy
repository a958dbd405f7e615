/** String operations of Swift and Foundation that the app relies on, over `seq<char>`.
    A Swift `Character` is modelled as one `char` (grapheme clusters are not formed). */
module Text {

  /** `CharacterSet.whitespaces`: CHARACTER TABULATION and the Unicode category Zs. */
  predicate IsWhitespace(c: char) {
    c == '\t' || c == ' ' || c == '\U{00A0}' || c == '\U{1680}' ||
    ('\U{2000}' <= c <= '\U{200A}') || c == '\U{202F}' || c == '\U{205F}' || c == '\U{3000}'
  }

  /** `CharacterSet.newlines`: U+000A to U+000D, NEXT LINE, LINE and PARAGRAPH SEPARATOR. */
  predicate IsNewline(c: char) {
    ('\n' <= c <= '\r') || c == '\U{0085}' || c == '\U{2028}' || c == '\U{2029}'
  }

  /** Drops leading whitespace. */
  function TrimStart(s: string): (r: string)
    ensures |r| <= |s| && r == s[|s| - |r|..]
    ensures forall k :: 0 <= k < |s| - |r| ==> IsWhitespace(s[k])
    ensures r == [] || !IsWhitespace(r[0])
  {
    if s == [] || !IsWhitespace(s[0]) then s else TrimStart(s[1..])
  }

  /** Drops trailing whitespace. */
  function TrimEnd(s: string): (r: string)
    ensures |r| <= |s| && r == s[..|r|]
    ensures forall k :: |r| <= k < |s| ==> IsWhitespace(s[k])
    ensures r == [] || !IsWhitespace(r[|r| - 1])
  {
    if s == [] || !IsWhitespace(s[|s| - 1]) then s else TrimEnd(s[..|s| - 1])
  }

  /** `trimmingCharacters(in: .whitespaces)`: the middle of `s`, with all the whitespace
      before and after it removed (`TrimIsMiddle`). */
  function Trim(s: string): (r: string)
    ensures |r| <= |s|
    ensures r == [] || (!IsWhitespace(r[0]) && !IsWhitespace(r[|r| - 1]))
  {
    var e := TrimEnd(s);
    var r := TrimStart(e);
    SuffixEndsAlike(e, r);
    r
  }

  lemma SuffixEndsAlike(s: string, r: string)
    requires |r| <= |s| && r == s[|s| - |r|..]
    ensures r != [] ==> r[|r| - 1] == s[|s| - 1]
  {
  }

  /** The trimming is a slice of `s` with only whitespace around it. */
  lemma TrimIsMiddle(s: string)
    ensures exists i, j :: 0 <= i <= j <= |s| && Trim(s) == s[i..j] &&
              (forall k :: 0 <= k < i || j <= k < |s| ==> IsWhitespace(s[k]))
  {
    var e := TrimEnd(s);
    var r := TrimStart(e);
    var i, j := |e| - |r|, |e|;
    assert r == s[i..j];
    assert forall k :: 0 <= k < i ==> IsWhitespace(s[k]) by {
      forall k | 0 <= k < i ensures IsWhitespace(s[k]) {
        assert s[k] == e[k];
      }
    }
    assert 0 <= i <= j <= |s| && r == s[i..j] && forall k :: 0 <= k < i || j <= k < |s| ==> IsWhitespace(s[k]);
  }

  /** A string whose ends are not whitespace is its own trimming. */
  lemma TrimmedIsFixed(s: string)
    requires s == [] || (!IsWhitespace(s[0]) && !IsWhitespace(s[|s| - 1]))
    ensures Trim(s) == s
  {
  }

  /** ASCII `lowercased()`; other letters are kept as they are. */
  function LowerChar(c: char): char {
    if 'A' <= c <= 'Z' then (c as int + 32) as char else c
  }

  function Lower(s: string): (r: string)
    ensures |r| == |s| && forall k :: 0 <= k < |s| ==> r[k] == LowerChar(s[k])
  {
    seq(|s|, k requires 0 <= k < |s| => LowerChar(s[k]))
  }

  /** `hasPrefix`. */
  predicate HasPrefix(s: string, p: string) {
    |p| <= |s| && s[..|p|] == p
  }

  lemma AppendHasPrefix(a: string, b: string)
    ensures HasPrefix(a + b, a)
  {
    assert (a + b)[..|a|] == a;
  }

  lemma PrefixTransitive(a: string, b: string, c: string)
    requires HasPrefix(b, a) && HasPrefix(c, b)
    ensures HasPrefix(c, a)
  {
    assert c[..|a|] == b[..|a|];
  }

  /** `hasSuffix`. */
  predicate HasSuffix(s: string, p: string) {
    |p| <= |s| && s[|s| - |p|..] == p
  }

  lemma AppendHasSuffix(a: string, b: string)
    ensures HasSuffix(a + b, b)
  {
    assert (a + b)[|a + b| - |b|..] == b;
  }

  /** `dropFirst(n)`. */
  function DropFirst(s: string, n: nat): string {
    if n <= |s| then s[n..] else []
  }

  /** `needle` occurs in `hay` at offset `i`. */
  predicate OccursAt(hay: string, needle: string, i: nat) {
    i + |needle| <= |hay| && hay[i..i + |needle|] == needle
  }

  /** Substring search. */
  predicate Contains(hay: string, needle: string)
    decreases |hay|
  {
    HasPrefix(hay, needle) || (hay != [] && Contains(hay[1..], needle))
  }

  /** `Contains` finds exactly the occurrences `OccursAt` describes. */
  lemma {:induction false} ContainsIffOccurs(hay: string, needle: string)
    ensures Contains(hay, needle) <==> exists i: nat :: OccursAt(hay, needle, i)
    decreases |hay|
  {
    if HasPrefix(hay, needle) {
      assert OccursAt(hay, needle, 0);
    } else if hay != [] {
      ContainsIffOccurs(hay[1..], needle);
      forall i: nat | OccursAt(hay, needle, i)
        ensures i > 0 && OccursAt(hay[1..], needle, i - 1)
      {
        assert i != 0;
        assert hay[1..][i - 1..i - 1 + |needle|] == hay[i..i + |needle|];
      }
      if Contains(hay[1..], needle) {
        var i: nat :| OccursAt(hay[1..], needle, i);
        assert hay[i + 1..i + 1 + |needle|] == hay[1..][i..i + |needle|];
        assert OccursAt(hay, needle, i + 1);
      }
    }
  }

  /** `localizedCaseInsensitiveContains`, with ASCII case folding. Foundation finds
      no occurrence of an empty string. */
  predicate ContainsIgnoringCase(hay: string, needle: string) {
    needle != [] && Contains(Lower(hay), Lower(needle))
  }

  /** Strict lexicographic order by code point. */
  predicate LexLess(a: string, b: string)
    decreases |a|
  {
    if a == [] then b != []
    else if b == [] then false
    else if a[0] != b[0] then a[0] < b[0]
    else LexLess(a[1..], b[1..])
  }

  lemma {:induction false} LexLessIrreflexive(a: string)
    ensures !LexLess(a, a)
    decreases |a|
  {
    if a != [] {
      LexLessIrreflexive(a[1..]);
    }
  }

  lemma {:induction false} LexLessTransitive(a: string, b: string, c: string)
    requires LexLess(a, b) && LexLess(b, c)
    ensures LexLess(a, c)
    decreases |a|
  {
    if a != [] && a[0] == b[0] && b[0] == c[0] {
      LexLessTransitive(a[1..], b[1..], c[1..]);
    }
  }

  lemma {:induction false} LexLessTotal(a: string, b: string)
    ensures a == b || LexLess(a, b) || LexLess(b, a)
    decreases |a|
  {
    if a != [] && b != [] && a[0] == b[0] {
      LexLessTotal(a[1..], b[1..]);
      if a[1..] == b[1..] {
        assert a == [a[0]] + a[1..] && b == [b[0]] + b[1..];
      }
    }
  }

  /** The characters of `s` are all decimal digits. */
  predicate AllDigits(s: string) {
    forall k :: 0 <= k < |s| ==> '0' <= s[k] <= '9'
  }

  /** The value of a string of decimal digits. */
  function DigitsValue(s: string): nat
    requires AllDigits(s)
    decreases |s|
  {
    if s == [] then 0 else 10 * DigitsValue(s[..|s| - 1]) + (s[|s| - 1] - '0') as int
  }

  /** Decimal digits of a natural number, without leading zeros: they spell `n`. */
  function NatToString(n: nat): (r: string)
    ensures r != [] && AllDigits(r)
    ensures DigitsValue(r) == n
    ensures |r| > 1 ==> r[0] != '0'
    decreases n
  {
    var d := ['0' + (n % 10) as char];
    if n < 10 then d
    else
      var rest := NatToString(n / 10);
      assert (rest + d)[..|rest + d| - 1] == rest;
      rest + d
  }

  /** String interpolation of an integer: `"\(n)"`, a minus sign before the digits of a
      negative number. */
  function IntToString(n: int): (r: string)
    ensures r != [] && (r[0] == '-' <==> n < 0)
    ensures n >= 0 ==> AllDigits(r) && DigitsValue(r) == n
    ensures n < 0 ==> AllDigits(r[1..]) && DigitsValue(r[1..]) == -n && r[1..] != [] && (|r| > 2 ==> r[1] != '0')
  {
    if n < 0 then
      var digits := NatToString(-n);
      assert ("-" + digits)[1..] == digits;
      "-" + digits
    else NatToString(n)
  }

  /** The index of the first newline character of `s`, or `|s|` when there is none. */
  function FirstNewline(s: string): (i: nat)
    ensures i <= |s| && (i < |s| ==> IsNewline(s[i]))
    ensures forall k :: 0 <= k < i ==> !IsNewline(s[k])
    decreases |s|
  {
    if s == [] || IsNewline(s[0]) then 0 else 1 + FirstNewline(s[1..])
  }

  /** `components(separatedBy: .newlines)`: every newline character ends a line, so
      "\r\n" yields an empty line between its two characters. */
  function SplitLines(s: string): (r: seq<string>)
    ensures |r| >= 1
    ensures forall k, j :: 0 <= k < |r| && 0 <= j < |r[k]| ==> !IsNewline(r[k][j])
    decreases |s|
  {
    var i := FirstNewline(s);
    if i == |s| then [s] else [s[..i]] + SplitLines(s[i + 1..])
  }

  /** The newline characters of `s`, in order. */
  function Newlines(s: string): (r: string)
    ensures forall k :: 0 <= k < |r| ==> IsNewline(r[k])
    decreases |s|
  {
    if s == [] then [] else (if IsNewline(s[0]) then [s[0]] else []) + Newlines(s[1..])
  }

  /** Text without newline characters contributes none. */
  lemma {:induction false} NewlinesAfterLine(s: string, i: nat)
    requires i <= |s| && forall k :: 0 <= k < i ==> !IsNewline(s[k])
    ensures Newlines(s) == Newlines(s[i..])
    decreases i
  {
    if i > 0 {
      NewlinesAfterLine(s[1..], i - 1);
      assert s[1..][i - 1..] == s[i..];
    }
  }

  /** Lines put back together, `breaks[k]` between line `k` and line `k + 1`. */
  function JoinLines(lines: seq<string>, breaks: string): string
    requires |lines| == |breaks| + 1
    decreases |breaks|
  {
    if breaks == [] then lines[0] else lines[0] + [breaks[0]] + JoinLines(lines[1..], breaks[1..])
  }

  /** Splitting loses nothing: there is one line more than there are newline characters,
      and the lines joined by those characters give `s` back. */
  lemma {:induction false} SplitLinesRoundTrip(s: string)
    ensures |SplitLines(s)| == |Newlines(s)| + 1
    ensures JoinLines(SplitLines(s), Newlines(s)) == s
    decreases |s|
  {
    var i := FirstNewline(s);
    if i == |s| {
      NewlinesAfterLine(s, i);
      assert s[i..] == [];
    } else {
      var rest := s[i + 1..];
      SplitLinesRoundTrip(rest);
      FirstLineSplitsOff(s, i);
      JoinLinesCons(s[..i], s[i], SplitLines(rest), Newlines(rest));
      SplitAround(s, i);
    }
  }

  /** `s` around its character at `i`. */
  lemma SplitAround(s: string, i: nat)
    requires i < |s|
    ensures s == s[..i] + [s[i]] + s[i + 1..]
  {
  }

  /** The first line and the newline character that ends it come off the front. */
  lemma FirstLineSplitsOff(s: string, i: nat)
    requires i == FirstNewline(s) && i < |s|
    ensures SplitLines(s) == [s[..i]] + SplitLines(s[i + 1..])
    ensures Newlines(s) == [s[i]] + Newlines(s[i + 1..])
  {
    NewlinesAfterLine(s, i);
    assert s[i..][0] == s[i] && s[i..][1..] == s[i + 1..];
  }

  /** Joining lines after a first one and its break. */
  lemma JoinLinesCons(first: string, c: char, lines: seq<string>, breaks: string)
    requires |lines| == |breaks| + 1
    ensures JoinLines([first] + lines, [c] + breaks) == first + [c] + JoinLines(lines, breaks)
  {
    assert ([first] + lines)[1..] == lines && ([c] + breaks)[1..] == breaks;
  }
}
