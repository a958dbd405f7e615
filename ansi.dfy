/** The escape-code interpreter of ScriptletRunner/Services/ANSIParser.swift: the
    Select Graphic Rendition control sequences `ESC [ parameters m` (section 8.3.117 of
    ECMA-48) are found left to right, their codes drive six style attributes, and the text
    between them becomes styled segments; `stripANSI` deletes the sequences. */
module AnsiParser {
  import opened Base
  import opened Text

  const Escape: char := '\U{001B}'

  // ----- Finding the sequences -----

  /** A character of `[0-9;]`, the parameter part of a sequence. */
  predicate IsParameterChar(c: char) {
    '0' <= c <= '9' || c == ';'
  }

  /** `s[i..j]` is a sequence: ESC, '[', parameter characters, 'm'. */
  predicate IsSequenceAt(s: string, i: nat, j: nat) {
    i + 3 <= j <= |s| && s[i] == Escape && s[i + 1] == '[' && s[j - 1] == 'm'
    && forall k :: i + 2 <= k < j - 1 ==> IsParameterChar(s[k])
  }

  /** The end of the run of parameter characters from `p`. */
  function ParameterEnd(s: string, p: nat): (q: nat)
    requires p <= |s|
    ensures p <= q <= |s|
    decreases |s| - p
  {
    if p < |s| && IsParameterChar(s[p]) then ParameterEnd(s, p + 1) else p
  }

  /** Every character of the run is a parameter character, and the run ends at the end
      of the text or at a character that is not one. */
  lemma {:induction false} ParameterRun(s: string, p: nat)
    requires p <= |s|
    ensures forall k :: p <= k < ParameterEnd(s, p) ==> IsParameterChar(s[k])
    ensures ParameterEnd(s, p) == |s| || !IsParameterChar(s[ParameterEnd(s, p)])
    decreases |s| - p
  {
    if p < |s| && IsParameterChar(s[p]) {
      ParameterRun(s, p + 1);
    }
  }

  /** The end of the sequence that starts at `i`, if one does. */
  function SequenceAt(s: string, i: nat): (r: Option<nat>)
    requires i <= |s|
    ensures r.Some? ==> i + 3 <= r.value <= |s|
  {
    if i + 1 < |s| && s[i] == Escape && s[i + 1] == '[' then
      var q := ParameterEnd(s, i + 2);
      if q < |s| && s[q] == 'm' then Some(q + 1) else None
    else None
  }

  /** The end found is a sequence, a sequence that starts nowhere is found nowhere, and
      the end found is the only one. */
  lemma SequenceAtFindsAll(s: string, i: nat, j: nat)
    requires i <= |s|
    ensures IsSequenceAt(s, i, j) <==> SequenceAt(s, i) == Some(j)
  {
    if i + 1 < |s| && s[i] == Escape && s[i + 1] == '[' {
      ParameterRun(s, i + 2);
    }
  }

  /** One match of `\x1B\[([0-9;]*)m`: where it starts and where it ends. */
  datatype Match = Match(start: nat, end: nat)

  /** The parameters `([0-9;]*)` of a sequence. */
  function Parameters(s: string, m: Match): string
    requires m.start + 3 <= m.end <= |s|
  {
    s[m.start + 2..m.end - 1]
  }

  /** The first match at or after `from`. */
  function NextMatch(s: string, from: nat): (r: Option<Match>)
    requires from <= |s|
    ensures r.Some? ==> from <= r.value.start && r.value.start + 3 <= r.value.end <= |s|
    decreases |s| - from
  {
    if from == |s| then None
    else match SequenceAt(s, from)
      case Some(end) => Some(Match(from, end))
      case None => NextMatch(s, from + 1)
  }

  /** The match found is a sequence. */
  lemma {:induction false} NextMatchIsSequence(s: string, from: nat)
    requires from <= |s| && NextMatch(s, from).Some?
    ensures IsSequenceAt(s, NextMatch(s, from).value.start, NextMatch(s, from).value.end)
    decreases |s| - from
  {
    match SequenceAt(s, from)
    case Some(end) =>
      SequenceAtFindsAll(s, from, end);
    case None =>
      NextMatchIsSequence(s, from + 1);
  }

  /** No sequence starts between `from` and the match found, nor after `from` when none
      is found. */
  lemma {:induction false} NextMatchIsFirst(s: string, from: nat, i: nat, j: nat)
    requires from <= i <= |s| && IsSequenceAt(s, i, j)
    ensures NextMatch(s, from).Some? && NextMatch(s, from).value.start <= i
    decreases |s| - from
  {
    SequenceAtFindsAll(s, from, j);
    if from < i && SequenceAt(s, from).None? {
      NextMatchIsFirst(s, from + 1, i, j);
    }
  }

  /** `regex.matches(in:range:)`: the matches from `from`, left to right, none
      overlapping. */
  function Matches(s: string, from: nat): seq<Match>
    requires from <= |s|
    decreases |s| - from
  {
    match NextMatch(s, from)
    case None => []
    case Some(m) => [m] + Matches(s, m.end)
  }

  /** The matches are sequences, left to right, none overlapping, and none is missed: a
      sequence starting anywhere from `from` on starts inside or after some match. */
  lemma {:induction false} MatchesAreSequences(s: string, from: nat)
    requires from <= |s|
    ensures forall k :: 0 <= k < |Matches(s, from)| ==>
              from <= Matches(s, from)[k].start && IsSequenceAt(s, Matches(s, from)[k].start, Matches(s, from)[k].end)
    ensures forall k :: 0 < k < |Matches(s, from)| ==> Matches(s, from)[k - 1].end <= Matches(s, from)[k].start
    ensures Matches(s, from) == [] ==> forall i, j :: from <= i <= |s| && IsSequenceAt(s, i, j) ==> false
    decreases |s| - from
  {
    match NextMatch(s, from)
    case None =>
      forall i, j | from <= i <= |s| && IsSequenceAt(s, i, j)
        ensures false
      {
        NextMatchIsFirst(s, from, i, j);
      }
    case Some(m) =>
      NextMatchIsSequence(s, from);
      MatchesAreSequences(s, m.end);
      var rest := Matches(s, m.end);
      var r := Matches(s, from);
      assert r == [m] + rest;
      forall k | 0 <= k < |r|
        ensures from <= r[k].start && IsSequenceAt(s, r[k].start, r[k].end)
      {
        if k > 0 {
          assert r[k] == rest[k - 1];
          assert m.end <= rest[k - 1].start && IsSequenceAt(s, rest[k - 1].start, rest[k - 1].end);
        } else {
          assert r[k] == m;
        }
      }
      forall k | 0 < k < |r|
        ensures r[k - 1].end <= r[k].start
      {
        assert r[k] == rest[k - 1];
        if k > 1 {
          assert r[k - 1] == rest[k - 2];
        }
      }
  }

  // ----- stripANSI -----

  /** `stringByReplacingMatches(in:range:withTemplate: "")` from `from`. */
  function StripFrom(s: string, from: nat): string
    requires from <= |s|
    decreases |s| - from
  {
    match NextMatch(s, from)
    case None => s[from..]
    case Some(m) => s[from..m.start] + StripFrom(s, m.end)
  }

  /** `stripANSI`. */
  function StripAnsi(s: string): string {
    StripFrom(s, 0)
  }

  /** Text without an ESC holds no sequence and is kept as it is. */
  lemma {:induction false} NoEscapeNoMatch(s: string, from: nat)
    requires from <= |s|
    requires forall k :: from <= k < |s| ==> s[k] != Escape
    ensures NextMatch(s, from).None?
    decreases |s| - from
  {
    if from < |s| {
      NoEscapeNoMatch(s, from + 1);
    }
  }

  lemma StripWithoutEscapeIsIdentity(s: string)
    requires forall k :: 0 <= k < |s| ==> s[k] != Escape
    ensures StripAnsi(s) == s
  {
    NoEscapeNoMatch(s, 0);
  }

  /** With no ESC between `from` and `i`, the search from `from` is the search from `i`. */
  lemma {:induction false} SkipPlainText(s: string, from: nat, i: nat)
    requires from <= i <= |s|
    requires forall k :: from <= k < i ==> s[k] != Escape
    ensures NextMatch(s, from) == NextMatch(s, i)
    decreases i - from
  {
    if from < i {
      SkipPlainText(s, from + 1, i);
    }
  }

  /** A sequence standing after plain text is deleted, the text before it is kept, and
      stripping goes on after it. */
  lemma StripRemovesSequence(a: string, parameters: string, b: string)
    requires forall k :: 0 <= k < |a| ==> a[k] != Escape
    requires forall k :: 0 <= k < |parameters| ==> IsParameterChar(parameters[k])
    ensures var s := a + ([Escape, '['] + parameters + ['m']) + b;
            StripAnsi(s) == a + StripFrom(s, |s| - |b|)
  {
    var q := [Escape, '['] + parameters + ['m'];
    var s := a + q + b;
    assert IsSequenceAt(s, |a|, |a| + |q|) by {
      forall k | |a| + 2 <= k < |a| + |q| - 1
        ensures IsParameterChar(s[k])
      {
        assert s[k] == parameters[k - |a| - 2];
      }
    }
    SequenceAtFindsAll(s, |a|, |a| + |q|);
    SkipPlainText(s, 0, |a|);
    assert NextMatch(s, 0) == Some(Match(|a|, |a| + |q|));
    assert s[0..|a|] == a;
  }

  /** So a sequence between two plain texts is all that is deleted. */
  lemma StripRemovesOnlySequence(a: string, parameters: string, b: string)
    requires forall k :: 0 <= k < |a| ==> a[k] != Escape
    requires forall k :: 0 <= k < |parameters| ==> IsParameterChar(parameters[k])
    requires forall k :: 0 <= k < |b| ==> b[k] != Escape
    ensures StripAnsi(a + ([Escape, '['] + parameters + ['m']) + b) == a + b
  {
    var s := a + ([Escape, '['] + parameters + ['m']) + b;
    var d := |s| - |b|;
    assert StripFrom(s, d) == b by {
      forall k | d <= k < |s|
        ensures s[k] != Escape
      {
        assert s[k] == b[k - d];
      }
      NoEscapeNoMatch(s, d);
      assert s[d..] == b;
    }
    StripRemovesSequence(a, parameters, b);
  }

  /** `stripANSI` is a single pass: a sequence that only forms once an inner one is
      deleted stays. */
  lemma StripIsSinglePass()
    ensures StripAnsi([Escape, Escape, '[', 'm', '[', 'm']) == [Escape, '[', 'm']
  {
    var s := [Escape, Escape, '[', 'm', '[', 'm'];
    assert SequenceAt(s, 0).None?;
    assert SequenceAt(s, 1) == Some(4);
    assert NextMatch(s, 0) == Some(Match(1, 4));
    assert SequenceAt(s, 4).None? && SequenceAt(s, 5).None?;
    assert NextMatch(s, 4).None?;
    assert StripFrom(s, 4) == s[4..];
    assert StripFrom(s, 0) == s[0..1] + StripFrom(s, 4);
    assert s[0..1] + s[4..] == [Escape, '[', 'm'];
  }

  // ----- Styles -----

  datatype Hue = Black | Red | Green | Yellow | Blue | Purple | Cyan | White | Gray

  /** A colour of the palette with its opacity in percent. */
  datatype Colour = Colour(hue: Hue, opacity: nat)

  /** The hues of codes 30-37 and 40-47, in order. */
  function BaseHue(i: nat): Hue
    requires i < 8
  {
    [Black, Red, Green, Yellow, Blue, Purple, Cyan, White][i]
  }

  /** `foregroundColors`: 30-37 the base hues, 90 gray, 91-96 the base hues at 80 %,
      97 white. */
  function ForegroundColour(code: int): Option<Colour> {
    if 30 <= code <= 37 then Some(Colour(BaseHue(code - 30), 100))
    else if code == 90 then Some(Colour(Gray, 100))
    else if 91 <= code <= 96 then Some(Colour(BaseHue(code - 90), 80))
    else if code == 97 then Some(Colour(White, 100))
    else None
  }

  /** `backgroundColors`: 40-47 the base hues, 100 gray, 101-106 the base hues at 50 %,
      107 white. */
  function BackgroundColour(code: int): Option<Colour> {
    if 40 <= code <= 47 then Some(Colour(BaseHue(code - 40), 100))
    else if code == 100 then Some(Colour(Gray, 100))
    else if 101 <= code <= 106 then Some(Colour(BaseHue(code - 100), 50))
    else if code == 107 then Some(Colour(White, 100))
    else None
  }

  /** The tables cover exactly the ranges the switch sends to them, and a background code
      names the hue of the foreground code ten below it. */
  lemma PalettesCoverTheirRanges(code: int)
    ensures ForegroundColour(code).Some? <==> 30 <= code <= 37 || 90 <= code <= 97
    ensures BackgroundColour(code).Some? <==> 40 <= code <= 47 || 100 <= code <= 107
    ensures BackgroundColour(code).Some? ==> BackgroundColour(code).value.hue == ForegroundColour(code - 10).value.hue
    ensures 91 <= code <= 96 ==> ForegroundColour(code).value == ForegroundColour(code - 60).value.(opacity := 80)
  {
  }

  /** `fg.opacity(0.6)`: opacities multiply. */
  function Faded(c: Colour): (r: Colour)
    ensures r.hue == c.hue && r.opacity * 100 <= c.opacity * 60 < (r.opacity + 1) * 100
  {
    c.(opacity := c.opacity * 60 / 100)
  }

  /** The six attributes the codes change. */
  datatype Style = Style(
    foreground: Option<Colour>, background: Option<Colour>,
    bold: bool, dim: bool, italic: bool, underline: bool)

  const Plain := Style(None, None, false, false, false, false)

  /** The switch on one code. */
  function ApplyCode(st: Style, code: int): Style {
    if code == 0 then Plain
    else if code == 1 then st.(bold := true)
    else if code == 2 then st.(dim := true)
    else if code == 3 then st.(italic := true)
    else if code == 4 then st.(underline := true)
    else if code == 22 then st.(bold := false, dim := false)
    else if code == 23 then st.(italic := false)
    else if code == 24 then st.(underline := false)
    else if 30 <= code <= 37 || 90 <= code <= 97 then st.(foreground := ForegroundColour(code))
    else if code == 39 then st.(foreground := None)
    else if 40 <= code <= 47 || 100 <= code <= 107 then st.(background := BackgroundColour(code))
    else if code == 49 then st.(background := None)
    else st
  }

  /** The codes of one sequence, in order. */
  function ApplyCodes(st: Style, codes: seq<int>): Style
    decreases |codes|
  {
    if codes == [] then st else ApplyCodes(ApplyCode(st, codes[0]), codes[1..])
  }

  // ----- What the codes do, attribute by attribute -----

  datatype Attribute = ForegroundAttribute | BackgroundAttribute
                     | BoldAttribute | DimAttribute | ItalicAttribute | UnderlineAttribute

  /** The value of one attribute, colour or flag. */
  datatype Value = ColourValue(colour: Option<Colour>) | FlagValue(flag: bool)

  function Get(st: Style, a: Attribute): Value {
    match a
    case ForegroundAttribute => ColourValue(st.foreground)
    case BackgroundAttribute => ColourValue(st.background)
    case BoldAttribute => FlagValue(st.bold)
    case DimAttribute => FlagValue(st.dim)
    case ItalicAttribute => FlagValue(st.italic)
    case UnderlineAttribute => FlagValue(st.underline)
  }

  /** What one code writes into one attribute, whatever the style was: 0 clears all, 1-4
      set a flag, 22-24 clear flags (22 both bold and dim), the colour codes set or clear
      a colour; None when the code leaves the attribute alone. */
  function Effect(code: int, a: Attribute): Option<Value> {
    match a
    case ForegroundAttribute =>
      if code == 0 || code == 39 then Some(ColourValue(None))
      else if 30 <= code <= 37 || 90 <= code <= 97 then Some(ColourValue(ForegroundColour(code)))
      else None
    case BackgroundAttribute =>
      if code == 0 || code == 49 then Some(ColourValue(None))
      else if 40 <= code <= 47 || 100 <= code <= 107 then Some(ColourValue(BackgroundColour(code)))
      else None
    case BoldAttribute =>
      if code == 1 then Some(FlagValue(true)) else if code == 0 || code == 22 then Some(FlagValue(false)) else None
    case DimAttribute =>
      if code == 2 then Some(FlagValue(true)) else if code == 0 || code == 22 then Some(FlagValue(false)) else None
    case ItalicAttribute =>
      if code == 3 then Some(FlagValue(true)) else if code == 0 || code == 23 then Some(FlagValue(false)) else None
    case UnderlineAttribute =>
      if code == 4 then Some(FlagValue(true)) else if code == 0 || code == 24 then Some(FlagValue(false)) else None
  }

  /** The value the last code that writes `a` gives it, or `v` when none does. */
  function LastWritten(v: Value, codes: seq<int>, a: Attribute): Value
    decreases |codes|
  {
    if codes == [] then v
    else match Effect(codes[|codes| - 1], a)
      case Some(w) => w
      case None => LastWritten(v, codes[..|codes| - 1], a)
  }

  /** The switch on the foreground colour. */
  lemma ApplyCodeForeground(st: Style, code: int)
    ensures ApplyCode(st, code).foreground
            == if code == 0 || code == 39 then None
               else if 30 <= code <= 37 || 90 <= code <= 97 then ForegroundColour(code) else st.foreground
  {
    if code == 0 || code == 39 {
    } else if 30 <= code <= 37 || 90 <= code <= 97 {
    } else {
      assert ApplyCode(st, code).foreground == st.foreground;
    }
  }

  /** The switch on the background colour. */
  lemma ApplyCodeBackground(st: Style, code: int)
    ensures ApplyCode(st, code).background
            == if code == 0 || code == 49 then None
               else if 40 <= code <= 47 || 100 <= code <= 107 then BackgroundColour(code) else st.background
  {
    if code == 0 || code == 49 {
    } else if 40 <= code <= 47 || 100 <= code <= 107 {
    } else {
      assert ApplyCode(st, code).background == st.background;
    }
  }

  /** The switch on the flags. */
  lemma ApplyCodeFlags(st: Style, code: int)
    ensures ApplyCode(st, code).bold == if code == 1 then true else if code == 0 || code == 22 then false else st.bold
    ensures ApplyCode(st, code).dim == if code == 2 then true else if code == 0 || code == 22 then false else st.dim
    ensures ApplyCode(st, code).italic == if code == 3 then true else if code == 0 || code == 23 then false else st.italic
    ensures ApplyCode(st, code).underline
            == if code == 4 then true else if code == 0 || code == 24 then false else st.underline
  {
  }

  /** The switch agrees with the table of effects on every attribute. */
  lemma ApplyCodeFollowsEffects(st: Style, code: int, a: Attribute)
    ensures Get(ApplyCode(st, code), a) == Effect(code, a).GetOr(Get(st, a))
  {
    ApplyCodeForeground(st, code);
    ApplyCodeBackground(st, code);
    ApplyCodeFlags(st, code);
  }

  /** Appending a code to a sequence applies it last. */
  lemma {:induction false} ApplyCodesSnoc(st: Style, codes: seq<int>, code: int)
    ensures ApplyCodes(st, codes + [code]) == ApplyCode(ApplyCodes(st, codes), code)
    decreases |codes|
  {
    if codes == [] {
      assert codes + [code] == [code];
    } else {
      assert (codes + [code])[1..] == codes[1..] + [code];
      ApplyCodesSnoc(ApplyCode(st, codes[0]), codes[1..], code);
    }
  }

  /** Each attribute ends up with what the last code writing it wrote, whatever the other
      codes did; one no code writes keeps its value. */
  lemma {:induction false} EachAttributeFollowsLastWrite(st: Style, codes: seq<int>, a: Attribute)
    ensures Get(ApplyCodes(st, codes), a) == LastWritten(Get(st, a), codes, a)
    decreases |codes|
  {
    if codes != [] {
      var init := codes[..|codes| - 1];
      var last := codes[|codes| - 1];
      assert codes == init + [last];
      ApplyCodesSnoc(st, init, last);
      EachAttributeFollowsLastWrite(st, init, a);
      ApplyCodeFollowsEffects(ApplyCodes(st, init), last, a);
    }
  }

  /** Code 0 forgets everything before it. */
  lemma {:induction false} ResetForgets(st: Style, before: seq<int>, after: seq<int>)
    ensures ApplyCodes(st, before + [0] + after) == ApplyCodes(Plain, after)
    decreases |before|
  {
    if before == [] {
      assert before + [0] + after == [0] + after;
      assert ([0] + after)[1..] == after;
    } else {
      assert (before + [0] + after)[1..] == before[1..] + [0] + after;
      ResetForgets(ApplyCode(st, before[0]), before[1..], after);
    }
  }

  /** The codes the switch has a case for. */
  predicate IsKnownCode(code: int) {
    code in {0, 1, 2, 3, 4, 22, 23, 24, 39, 49}
    || 30 <= code <= 37 || 90 <= code <= 97 || 40 <= code <= 47 || 100 <= code <= 107
  }

  /** Any other code changes nothing, wherever it stands. */
  lemma {:induction false} UnknownCodesAreIgnored(st: Style, before: seq<int>, code: int, after: seq<int>)
    requires !IsKnownCode(code)
    ensures ApplyCodes(st, before + [code] + after) == ApplyCodes(st, before + after)
    decreases |before|
  {
    if before == [] {
      assert before + [code] + after == [code] + after;
      assert ([code] + after)[1..] == after;
      assert before + after == after;
    } else {
      assert (before + [code] + after)[1..] == before[1..] + [code] + after;
      assert (before + after)[1..] == before[1..] + after;
      UnknownCodesAreIgnored(ApplyCode(st, before[0]), before[1..], code, after);
    }
  }

  // ----- The codes of a sequence -----

  /** `split(separator: ";")`, which omits empty pieces; `piece` is the piece read so far. */
  function PiecesFrom(p: string, piece: string): (r: seq<string>)
    requires ';' !in piece
    ensures forall k :: 0 <= k < |r| ==> r[k] != [] && ';' !in r[k]
    ensures IsParameters(p) && IsDigits(piece) ==> forall k :: 0 <= k < |r| ==> IsDigits(r[k])
    decreases |p|
  {
    if p == [] then (if piece == [] then [] else [piece])
    else if p[0] == ';' then (if piece == [] then [] else [piece]) + PiecesFrom(p[1..], [])
    else PiecesFrom(p[1..], piece + [p[0]])
  }

  predicate IsParameters(p: string) {
    forall k :: 0 <= k < |p| ==> IsParameterChar(p[k])
  }

  function Pieces(p: string): seq<string> {
    PiecesFrom(p, [])
  }

  /** The pieces joined back with ";". */
  function Join(pieces: seq<string>): string
    decreases |pieces|
  {
    if pieces == [] then []
    else if |pieces| == 1 then pieces[0]
    else pieces[0] + ";" + Join(pieces[1..])
  }

  /** A piece is read to its end. */
  lemma {:induction false} PieceRead(piece: string, rest: string, sofar: string)
    requires ';' !in piece && ';' !in sofar
    requires rest == [] || rest[0] == ';'
    ensures PiecesFrom(piece + rest, sofar) == PiecesFrom(rest, sofar + piece)
    decreases |piece|
  {
    if piece != [] {
      assert (piece + rest)[1..] == piece[1..] + rest;
      assert sofar + [piece[0]] + piece[1..] == sofar + piece;
      PieceRead(piece[1..], rest, sofar + [piece[0]]);
    } else {
      assert piece + rest == rest;
      assert sofar + piece == sofar;
    }
  }

  /** Splitting undoes joining non-empty pieces without ';'. */
  lemma {:induction false} PiecesOfJoin(pieces: seq<string>)
    requires forall k :: 0 <= k < |pieces| ==> pieces[k] != [] && ';' !in pieces[k]
    ensures Pieces(Join(pieces)) == pieces
    decreases |pieces|
  {
    if |pieces| == 1 {
      PieceRead(pieces[0], [], []);
      assert pieces[0] + [] == pieces[0];
      assert [] + pieces[0] == pieces[0];
    } else if |pieces| > 1 {
      var rest := ";" + Join(pieces[1..]);
      assert Join(pieces) == pieces[0] + rest;
      PieceRead(pieces[0], rest, []);
      assert rest[1..] == Join(pieces[1..]);
      PiecesOfJoin(pieces[1..]);
      assert [] + pieces[0] == pieces[0];
    }
  }

  /** Separators alone give no pieces. */
  lemma {:induction false} SeparatorsGiveNoPieces(p: string)
    requires forall k :: 0 <= k < |p| ==> p[k] == ';'
    ensures PiecesFrom(p, []) == []
    decreases |p|
  {
    if p != [] {
      SeparatorsGiveNoPieces(p[1..]);
    }
  }

  /** `Int(_)` on a piece of digits: nil when it overflows `Int`. */
  function ParseInt(piece: string): (r: Option<int>)
    requires IsDigits(piece)
    ensures r.Some? ==> 0 <= r.value <= IntMax
  {
    if piece == [] then None
    else if DigitsValue(piece) <= IntMax then Some(DigitsValue(piece)) else None
  }

  predicate IsDigits(piece: string) {
    forall k :: 0 <= k < |piece| ==> '0' <= piece[k] <= '9'
  }

  /** `compactMap { Int($0) }`. */
  function ParsedPieces(pieces: seq<string>): seq<int>
    requires forall k :: 0 <= k < |pieces| ==> IsDigits(pieces[k])
    decreases |pieces|
  {
    if pieces == [] then []
    else match ParseInt(pieces[0])
      case Some(n) => [n] + ParsedPieces(pieces[1..])
      case None => ParsedPieces(pieces[1..])
  }

  /** The codes of a parameter string. */
  function Codes(parameters: string): seq<int>
    requires IsParameters(parameters)
  {
    ParsedPieces(Pieces(parameters))
  }

  /** The codes of one match. */
  function MatchCodes(s: string, m: Match): seq<int>
    requires IsSequenceAt(s, m.start, m.end)
  {
    var parameters := Parameters(s, m);
    assert forall k :: 0 <= k < |parameters| ==> parameters[k] == s[m.start + 2 + k];
    Codes(parameters)
  }

  /** A separator ends the piece read so far, and what follows is split afresh. */
  lemma {:induction false} PiecesAroundSeparator(a: string, b: string, piece: string)
    requires ';' !in piece
    ensures PiecesFrom(a + ";" + b, piece) == PiecesFrom(a, piece) + PiecesFrom(b, [])
    decreases |a|
  {
    if a == [] {
      assert a + ";" + b == ";" + b;
      assert (";" + b)[1..] == b;
    } else {
      assert (a + ";" + b)[1..] == a[1..] + ";" + b;
      if a[0] == ';' {
        PiecesAroundSeparator(a[1..], b, []);
      } else {
        PiecesAroundSeparator(a[1..], b, piece + [a[0]]);
      }
    }
  }

  lemma {:induction false} ParsedPiecesAppend(x: seq<string>, y: seq<string>)
    requires forall k :: 0 <= k < |x| ==> IsDigits(x[k])
    requires forall k :: 0 <= k < |y| ==> IsDigits(y[k])
    ensures ParsedPieces(x + y) == ParsedPieces(x) + ParsedPieces(y)
    decreases |x|
  {
    if x == [] {
      assert x + y == y;
    } else {
      assert (x + y)[1..] == x[1..] + y;
      ParsedPiecesAppend(x[1..], y);
    }
  }

  /** Codes run in order, so one sequence `a;b` has the codes of `a` then those of `b`. */
  lemma CodesAroundSeparator(a: string, b: string)
    requires IsParameters(a) && IsParameters(b)
    ensures IsParameters(a + ";" + b)
    ensures Codes(a + ";" + b) == Codes(a) + Codes(b)
  {
    assert forall k :: 0 <= k < |a + ";" + b| ==> (a + ";" + b)[k] == if k < |a| then a[k] else if k == |a| then ';' else b[k - |a| - 1];
    PiecesAroundSeparator(a, b, []);
    ParsedPiecesAppend(Pieces(a), Pieces(b));
  }

  /** Applying two lists of codes is applying their concatenation. */
  lemma {:induction false} ApplyCodesAppend(st: Style, x: seq<int>, y: seq<int>)
    ensures ApplyCodes(st, x + y) == ApplyCodes(ApplyCodes(st, x), y)
    decreases |x|
  {
    if x == [] {
      assert x + y == y;
    } else {
      assert (x + y)[1..] == x[1..] + y;
      ApplyCodesAppend(ApplyCode(st, x[0]), x[1..], y);
    }
  }

  /** `ESC[a;bm` styles what follows as `ESC[am` followed by `ESC[bm` does. */
  lemma JoinedSequenceIsBoth(st: Style, a: string, b: string)
    requires IsParameters(a) && IsParameters(b)
    ensures IsParameters(a + ";" + b)
    ensures ApplyCodes(st, Codes(a + ";" + b)) == ApplyCodes(ApplyCodes(st, Codes(a)), Codes(b))
  {
    CodesAroundSeparator(a, b);
    ApplyCodesAppend(st, Codes(a), Codes(b));
  }

  /** A sequence without codes, `ESC[m` or `ESC[;m`, changes no attribute: it is not read
      as a reset. */
  lemma EmptySequenceKeepsStyle(st: Style, parameters: string)
    requires forall k :: 0 <= k < |parameters| ==> parameters[k] == ';'
    ensures IsParameters(parameters) && Codes(parameters) == []
    ensures ApplyCodes(st, Codes(parameters)) == st
  {
    SeparatorsGiveNoPieces(parameters);
  }

  /** A lone number is its own code when `Int` can hold it, and no code when it cannot. */
  lemma CodesOfNumber(piece: string)
    requires piece != [] && IsDigits(piece)
    ensures IsParameters(piece)
    ensures Codes(piece) == if DigitsValue(piece) <= IntMax then [DigitsValue(piece)] else []
  {
    PiecesOfJoin([piece]);
    assert Join([piece]) == piece;
    assert ParsedPieces([piece]) == if DigitsValue(piece) <= IntMax then [DigitsValue(piece)] else [];
  }

  // ----- Segments -----

  datatype Font = DefaultFont | BoldFont | ItalicFont

  /** One run of the attributed result: its text and the attributes set on it. */
  datatype Segment = Segment(
    text: string, foreground: Option<Colour>, background: Option<Colour>,
    font: Font, underline: bool)

  /** The foreground a segment gets for a style: faded when dim. */
  function ShownForeground(st: Style): Option<Colour> {
    match st.foreground
    case None => None
    case Some(c) => Some(if st.dim then Faded(c) else c)
  }

  /** Text before a sequence: colours, then the bold font, which italic overrides, and the
      underline. */
  function Styled(text: string, st: Style): Segment {
    Segment(text, ShownForeground(st), st.background,
            if st.italic then ItalicFont else if st.bold then BoldFont else DefaultFont,
            st.underline)
  }

  /** The text after the last sequence, which only gets the colours. */
  function Tail(text: string, st: Style): Segment {
    Segment(text, ShownForeground(st), st.background, DefaultFont, false)
  }

  /** The segments from `from` on, read with the style `st`. */
  function Segments(s: string, from: nat, st: Style): seq<Segment>
    requires from <= |s|
    decreases |s| - from
  {
    match NextMatch(s, from)
    case None => if from < |s| then [Tail(s[from..], st)] else []
    case Some(m) =>
      NextMatchIsSequence(s, from);
      (if from < m.start then [Styled(s[from..m.start], st)] else [])
      + Segments(s, m.end, ApplyCodes(st, MatchCodes(s, m)))
  }

  /** `result.characters`: the text of the segments, in order. */
  function Characters(segments: seq<Segment>): string
    decreases |segments|
  {
    if segments == [] then [] else segments[0].text + Characters(segments[1..])
  }

  /** `parse`: the raw input when the segments hold no text but the input is not empty. */
  function Render(s: string): seq<Segment> {
    var segments := Segments(s, 0, Plain);
    if Characters(segments) == [] && s != [] then [Segment(s, None, None, DefaultFont, false)] else segments
  }

  /** What `parse` was meant to give: the segments alone, which spell out exactly what
      `stripANSI` keeps. */
  function IntendedRender(s: string): (r: seq<Segment>)
    ensures Characters(r) == StripAnsi(s)
  {
    SegmentsSpellStripped(s, 0, Plain);
    Segments(s, 0, Plain)
  }

  /** An input that is nothing but sequences, such as `ESC[0m`, `parse` returns raw, ESC
      included; the fallback cannot fire for text without sequences, which already comes
      out as itself. */
  lemma SequencesAloneShowRaw(s: string)
    requires s != [] && StripAnsi(s) == []
    ensures Render(s) == [Segment(s, None, None, DefaultFont, false)]
    ensures Characters(Render(s)) == s && s[0] == Escape
  {
    SegmentsSpellStripped(s, 0, Plain);
    assert Characters([Segment(s, None, None, DefaultFont, false)]) == s + Characters([]);
  }

  lemma {:induction false} CharactersAppend(x: seq<Segment>, y: seq<Segment>)
    ensures Characters(x + y) == Characters(x) + Characters(y)
    decreases |x|
  {
    if x == [] {
      assert x + y == y;
    } else {
      assert (x + y)[1..] == x[1..] + y;
      CharactersAppend(x[1..], y);
    }
  }

  /** The segments spell out exactly what `stripANSI` keeps, none of them empty. */
  lemma {:induction false} SegmentsSpellStripped(s: string, from: nat, st: Style)
    requires from <= |s|
    ensures Characters(Segments(s, from, st)) == StripFrom(s, from)
    ensures forall k :: 0 <= k < |Segments(s, from, st)| ==> Segments(s, from, st)[k].text != []
    decreases |s| - from
  {
    match NextMatch(s, from)
    case None =>
    case Some(m) =>
      NextMatchIsSequence(s, from);
      var before := if from < m.start then [Styled(s[from..m.start], st)] else [];
      var rest := Segments(s, m.end, ApplyCodes(st, MatchCodes(s, m)));
      SegmentsSpellStripped(s, m.end, ApplyCodes(st, MatchCodes(s, m)));
      CharactersAppend(before, rest);
      assert Segments(s, from, st) == before + rest;
      if from == m.start {
        assert s[from..m.start] == [];
        assert before + rest == rest;
      }
  }

  /** The text `parse` returns is the input with its sequences deleted, except that an
      input that is nothing but sequences is returned raw. */
  lemma RenderShowsStripped(s: string)
    ensures Characters(Render(s)) == if StripAnsi(s) == [] && s != [] then s else StripAnsi(s)
  {
    SegmentsSpellStripped(s, 0, Plain);
    if StripAnsi(s) == [] && s != [] {
      assert Characters([Segment(s, None, None, DefaultFont, false)]) == s + Characters([]);
    }
  }

  /** Text without sequences is one unstyled segment. */
  lemma PlainTextIsOneSegment(s: string)
    requires s != [] && forall k :: 0 <= k < |s| ==> s[k] != Escape
    ensures Render(s) == [Segment(s, None, None, DefaultFont, false)]
  {
    NoEscapeNoMatch(s, 0);
    assert s[0..] == s;
    assert Characters([Tail(s, Plain)]) == s + Characters([]);
  }

  /** Italic takes the place of bold; dim fades only the foreground, to 60 % of its
      opacity; the text after the last sequence keeps only the colours. */
  lemma StyledAttributes(text: string, st: Style)
    ensures Styled(text, st).font == ItalicFont <==> st.italic
    ensures Styled(text, st).font == BoldFont <==> st.bold && !st.italic
    ensures st.foreground.Some? && st.dim ==>
              Styled(text, st).foreground == Some(Colour(st.foreground.value.hue, st.foreground.value.opacity * 60 / 100))
    ensures st.foreground.Some? && !st.dim ==> Styled(text, st).foreground == st.foreground
    ensures st.foreground.None? ==> Styled(text, st).foreground.None?
    ensures Styled(text, st).background == st.background && Styled(text, st).underline == st.underline
    ensures Tail(text, st) == Styled(text, st.(bold := false, italic := false, underline := false))
  {
  }

  /** Dim fades the bright red of code 91, itself at 80 %, to 48 %. */
  lemma DimBrightRed()
    ensures ShownForeground(ApplyCodes(Plain, [2, 91])) == Some(Colour(Red, 48))
  {
    assert [2, 91][1..] == [91];
    assert [91][1..] == [];
  }

  // ----- parse -----

  /** The `for code in codeValues` switch of `parse`, on the six attributes. */
  method ReadCodes(style: Style, codeValues: seq<int>) returns (next: Style)
    ensures next == ApplyCodes(style, codeValues)
  {
    var currentForeground, currentBackground := style.foreground, style.background;
    var isBold, isDim, isItalic, isUnderline := style.bold, style.dim, style.italic, style.underline;
    var j := 0;
    while j < |codeValues|
      invariant j <= |codeValues|
      invariant ApplyCodes(style, codeValues)
                == ApplyCodes(Style(currentForeground, currentBackground, isBold, isDim, isItalic, isUnderline), codeValues[j..])
    {
      ghost var before := Style(currentForeground, currentBackground, isBold, isDim, isItalic, isUnderline);
      assert codeValues[j..][1..] == codeValues[j + 1..];
      var code := codeValues[j];
      if code == 0 {
        currentForeground := None;
        currentBackground := None;
        isBold := false;
        isDim := false;
        isItalic := false;
        isUnderline := false;
      } else if code == 1 {
        isBold := true;
      } else if code == 2 {
        isDim := true;
      } else if code == 3 {
        isItalic := true;
      } else if code == 4 {
        isUnderline := true;
      } else if code == 22 {
        isBold := false;
        isDim := false;
      } else if code == 23 {
        isItalic := false;
      } else if code == 24 {
        isUnderline := false;
      } else if 30 <= code <= 37 || 90 <= code <= 97 {
        currentForeground := ForegroundColour(code);
      } else if code == 39 {
        currentForeground := None;
      } else if 40 <= code <= 47 || 100 <= code <= 107 {
        currentBackground := BackgroundColour(code);
      } else if code == 49 {
        currentBackground := None;
      }
      assert Style(currentForeground, currentBackground, isBold, isDim, isItalic, isUnderline) == ApplyCode(before, code);
      j := j + 1;
    }
    assert codeValues[j..] == [];
    next := Style(currentForeground, currentBackground, isBold, isDim, isItalic, isUnderline);
  }

  /** The text between `lastEnd` and the match at `start`, when there is any, with the
      attributes `parse` sets on it. */
  method TextBefore(input: string, lastEnd: nat, start: nat, style: Style) returns (attributed: seq<Segment>)
    requires lastEnd <= start <= |input|
    ensures attributed == if lastEnd < start then [Styled(input[lastEnd..start], style)] else []
  {
    var textBefore := input[lastEnd..start];
    attributed := [];
    if textBefore != [] {
      var attributedText := Segment(textBefore, None, None, DefaultFont, false);
      if style.foreground.Some? {
        var fg := style.foreground.value;
        attributedText := attributedText.(foreground := Some(if style.dim then Faded(fg) else fg));
      }
      if style.background.Some? {
        attributedText := attributedText.(background := style.background);
      }
      if style.bold {
        attributedText := attributedText.(font := BoldFont);
      }
      if style.italic {
        attributedText := attributedText.(font := ItalicFont);
      }
      if style.underline {
        attributedText := attributedText.(underline := true);
      }
      attributed := [attributedText];
    }
  }

  /** The attributes `parse` sets on the text after the last sequence. */
  method TailText(text: string, style: Style) returns (attributedText: Segment)
    ensures attributedText == Tail(text, style)
  {
    attributedText := Segment(text, None, None, DefaultFont, false);
    if style.foreground.Some? {
      var fg := style.foreground.value;
      attributedText := attributedText.(foreground := Some(if style.dim then Faded(fg) else fg));
    }
    if style.background.Some? {
      attributedText := attributedText.(background := style.background);
    }
  }

  /** One step of the segments: the text before a match, then what follows it. */
  lemma SegmentsStep(s: string, from: nat, st: Style, m: Match)
    requires from <= |s| && Matches(s, from) != [] && Matches(s, from)[0] == m
    ensures NextMatch(s, from) == Some(m) && Matches(s, from)[1..] == Matches(s, m.end)
    ensures IsSequenceAt(s, m.start, m.end)
    ensures Segments(s, from, st)
            == (if from < m.start then [Styled(s[from..m.start], st)] else [])
               + Segments(s, m.end, ApplyCodes(st, MatchCodes(s, m)))
  {
    NextMatchIsSequence(s, from);
  }

  /** The text after the last match. */
  lemma SegmentsEnd(s: string, from: nat, st: Style)
    requires from <= |s| && Matches(s, from) == []
    ensures Segments(s, from, st) == if from < |s| then [Tail(s[from..], st)] else []
  {
  }

  /** `parse(_:)`: the matches are taken left to right; the text before each is appended
      with the current attributes, then the match's codes update them one by one; the
      rest of the input gets the colours only. */
  method Parse(input: string) returns (result: seq<Segment>)
    ensures result == Render(input)
  {
    result := [];
    var style := Plain;
    var lastEnd: nat := 0;
    var matches := Matches(input, 0);
    ghost var total := Segments(input, 0, Plain);
    var k := 0;
    while k < |matches|
      invariant k <= |matches| && lastEnd <= |input|
      invariant matches[k..] == Matches(input, lastEnd)
      invariant total == result + Segments(input, lastEnd, style)
    {
      var m := matches[k];
      assert matches[k..][1..] == matches[k + 1..];
      SegmentsStep(input, lastEnd, style, m);
      ghost var rest := Segments(input, m.end, ApplyCodes(style, MatchCodes(input, m)));
      ghost var before := result;
      var attributedText := TextBefore(input, lastEnd, m.start, style);
      result := result + attributedText;
      assert before + (attributedText + rest) == result + rest;
      lastEnd := m.end;
      var codeValues := MatchCodes(input, m);
      style := ReadCodes(style, codeValues);
      k := k + 1;
    }
    SegmentsEnd(input, lastEnd, style);
    ghost var before := result;
    if lastEnd < |input| {
      var remaining := input[lastEnd..];
      var attributedText := TailText(remaining, style);
      result := result + [attributedText];
    } else {
      assert before + [] == result;
    }
    if Characters(result) == [] && input != [] {
      result := [Segment(input, None, None, DefaultFont, false)];
    }
  }
}
