/** The two per-line parsers of ScriptletRunner/Services/ScriptParser.swift and the three
    regular expressions they use. Each pattern is matched the way NSRegularExpression does
    it from the start of the line: quantifiers are greedy and on failure the matcher backs
    off to the next alternative, most recent choice first. `\w` is taken over ASCII and `\s`
    as the whitespace of a line (tabulation and the Unicode space separators: the lines a
    header is split into hold no line terminators). */
module HeaderLines {
  import opened Base
  import opened Text
  import opened Arguments

  predicate IsAsciiLetter(c: char) {
    'a' <= c <= 'z' || 'A' <= c <= 'Z'
  }

  predicate IsAsciiDigit(c: char) {
    '0' <= c <= '9'
  }

  /** `\w`. */
  predicate IsWordChar(c: char) {
    IsAsciiLetter(c) || IsAsciiDigit(c) || c == '_'
  }

  /** `[-a-zA-Z0-9]`, the characters after the first letter of a long flag. */
  predicate IsFlagChar(c: char) {
    c == '-' || IsAsciiLetter(c) || IsAsciiDigit(c)
  }

  /** A non-empty run of `\w`. */
  predicate IsWord(w: string) {
    w != [] && forall k :: 0 <= k < |w| ==> IsWordChar(w[k])
  }

  // ----- Greedy runs -----

  /** The end of the longest run of whitespace from `p`. */
  function SpaceEnd(t: string, p: nat): (q: nat)
    requires p <= |t|
    ensures p <= q <= |t|
    ensures forall k :: p <= k < q ==> IsWhitespace(t[k])
    ensures q == |t| || !IsWhitespace(t[q])
    decreases |t| - p
  {
    if p < |t| && IsWhitespace(t[p]) then SpaceEnd(t, p + 1) else p
  }

  /** The end of the longest run of `\w` from `p`. */
  function WordEnd(t: string, p: nat): (q: nat)
    requires p <= |t|
    ensures p <= q <= |t|
    ensures forall k :: p <= k < q ==> IsWordChar(t[k])
    ensures q == |t| || !IsWordChar(t[q])
    decreases |t| - p
  {
    if p < |t| && IsWordChar(t[p]) then WordEnd(t, p + 1) else p
  }

  /** The end of the longest run of `[-a-zA-Z0-9]` from `p`. */
  function FlagEnd(t: string, p: nat): (q: nat)
    requires p <= |t|
    ensures p <= q <= |t|
    ensures forall k :: p <= k < q ==> IsFlagChar(t[k])
    ensures q == |t| || !IsFlagChar(t[q])
    decreases |t| - p
  {
    if p < |t| && IsFlagChar(t[p]) then FlagEnd(t, p + 1) else p
  }

  /** Where a run stops is where the text stops being of its kind. */
  lemma SpaceEndIs(t: string, p: nat, q: nat)
    requires p <= q <= |t| && forall k :: p <= k < q ==> IsWhitespace(t[k])
    requires q == |t| || !IsWhitespace(t[q])
    ensures SpaceEnd(t, p) == q
  {
  }

  lemma WordEndIs(t: string, p: nat, q: nat)
    requires p <= q <= |t| && forall k :: p <= k < q ==> IsWordChar(t[k])
    requires q == |t| || !IsWordChar(t[q])
    ensures WordEnd(t, p) == q
  {
  }

  lemma FlagEndIs(t: string, p: nat, q: nat)
    requires p <= q <= |t| && forall k :: p <= k < q ==> IsFlagChar(t[k])
    requires q == |t| || !IsFlagChar(t[q])
    ensures FlagEnd(t, p) == q
  {
  }

  // ----- The common tail `\s+(.+)$` -----

  /** `\s+(.+)$` at `p`: what `(.+)` captures. It needs a whitespace character and at least
      one character after it. */
  function SpacedRest(t: string, p: nat): (r: Option<string>)
    requires p <= |t|
    ensures r.Some? <==> p + 1 < |t| && IsWhitespace(t[p])
    ensures r.Some? ==> r.value != [] && |r.value| < |t| - p
  {
    if p < |t| && IsWhitespace(t[p]) then
      var f := SpaceEnd(t, p);
      if f < |t| then Some(t[f..]) else if f - 1 > p then Some(t[f - 1..]) else None
    else None
  }

  /** The text `\s+(.+)$` captures is the end of the line after the whitespace, all of it
      but, at the very end of the line, the last whitespace character. */
  lemma SpacedRestCapturesEnd(t: string, p: nat)
    requires p <= |t| && SpacedRest(t, p).Some?
    ensures var d := SpacedRest(t, p).value;
            d == t[|t| - |d|..]
            && (forall k :: p <= k < |t| - |d| ==> IsWhitespace(t[k]))
            && (|d| == 1 || !IsWhitespace(d[0]))
  {
  }

  /** The placeholder group and the description group of an option line. */
  datatype Tail = Tail(placeholder: Option<string>, description: string)

  /** `(\w+)\s+(.+)$` at `s`, where `t[s..e]` is the longest run of `\w`: the word is tried
      from its longest. */
  function WordThenRest(t: string, s: nat, e: nat): (r: Option<Tail>)
    requires s <= e <= |t|
    requires forall k :: s <= k < e ==> IsWordChar(t[k])
    ensures r.Some? ==> r.value.placeholder.Some? && IsWord(r.value.placeholder.value)
                        && r.value.description != []
    decreases e
  {
    if e <= s then None
    else
      match SpacedRest(t, e)
      case Some(d) => Some(Tail(Some(t[s..e]), d))
      case None => WordThenRest(t, s, e - 1)
  }

  /** `(?:=?(\w+))?\s+(.+)$` at `q`: first with the `=`, then without it, then without the
      value group. */
  function ValuedRest(t: string, q: nat): (r: Option<Tail>)
    requires q <= |t|
    ensures r.Some? ==> r.value.description != []
    ensures r.Some? && r.value.placeholder.Some? ==> IsWord(r.value.placeholder.value)
  {
    var withSign := if q < |t| && t[q] == '=' then WordThenRest(t, q + 1, WordEnd(t, q + 1)) else None;
    if withSign.Some? then withSign
    else
      var bare := WordThenRest(t, q, WordEnd(t, q));
      if bare.Some? then bare
      else
        match SpacedRest(t, q)
        case Some(d) => Some(Tail(None, d))
        case None => None
  }

  /** `\s*(?:=?(\w+))?\s+(.+)$` at `p`, where `q` runs down from the end of the whitespace
      run `\s*` takes. */
  function SpacesThenValued(t: string, p: nat, q: nat): (r: Option<Tail>)
    requires p <= q <= |t|
    ensures r.Some? ==> r.value.description != []
    ensures r.Some? && r.value.placeholder.Some? ==> IsWord(r.value.placeholder.value)
    decreases q
  {
    match ValuedRest(t, q)
    case Some(tail) => Some(tail)
    case None => if q <= p then None else SpacesThenValued(t, p, q - 1)
  }

  /** What comes after the long flag: `\s*(?:=?(\w+))?\s+(.+)$` in the short-flag pattern
      (`spaced`), `(?:=?(\w+))?\s+(.+)$` in the long-only one. */
  function AfterLong(t: string, z: nat, spaced: bool): (r: Option<Tail>)
    requires z <= |t|
    ensures r.Some? ==> r.value.description != []
    ensures r.Some? && r.value.placeholder.Some? ==> IsWord(r.value.placeholder.value)
  {
    if spaced then SpacesThenValued(t, z, SpaceEnd(t, z)) else ValuedRest(t, z)
  }

  // ----- Long flags -----

  /** `--[a-zA-Z]` at `p`. */
  predicate LongFlagStarts(t: string, p: nat) {
    p + 3 <= |t| && t[p] == '-' && t[p + 1] == '-' && IsAsciiLetter(t[p + 2])
  }

  /** A long flag: two hyphens, a letter, then letters, digits and hyphens. */
  predicate IsLongFlag(f: string) {
    |f| >= 3 && f[0] == '-' && f[1] == '-' && IsAsciiLetter(f[2])
    && forall k :: 3 <= k < |f| ==> IsFlagChar(f[k])
  }

  /** `(--[a-zA-Z][-a-zA-Z0-9]*)` at `p` followed by what comes after it, the flag tried
      from its longest (ending at `z`). */
  function LongFlagThen(t: string, p: nat, z: nat, spaced: bool): (r: Option<(string, Tail)>)
    requires LongFlagStarts(t, p) && p + 3 <= z <= |t|
    requires forall k :: p + 3 <= k < z ==> IsFlagChar(t[k])
    ensures r.Some? ==> IsLongFlag(r.value.0) && r.value.1.description != []
    ensures r.Some? ==> p + |r.value.0| <= |t| && t[p..p + |r.value.0|] == r.value.0
    ensures r.Some? && r.value.1.placeholder.Some? ==> IsWord(r.value.1.placeholder.value)
    decreases z
  {
    match AfterLong(t, z, spaced)
    case Some(tail) => Some((t[p..z], tail))
    case None => if z == p + 3 then None else LongFlagThen(t, p, z - 1, spaced)
  }

  // ----- The short-flag pattern `^(-[a-zA-Z])(?:,\s*)?(--[a-zA-Z][-a-zA-Z0-9]*)?\s*(?:=?(\w+))?\s+(.+)$` -----

  /** The four groups of a match of the short-flag pattern. */
  datatype FlagMatch = FlagMatch(shortFlag: string, longFlag: Option<string>, tail: Tail)

  /** `(--[a-zA-Z][-a-zA-Z0-9]*)?\s*(?:=?(\w+))?\s+(.+)$` at `c`: with the long flag first. */
  function OptionalLongThen(t: string, c: nat): (r: Option<(Option<string>, Tail)>)
    requires c <= |t|
    ensures r.Some? ==> r.value.1.description != []
    ensures r.Some? && r.value.0.Some? ==> IsLongFlag(r.value.0.value)
    ensures r.Some? && r.value.1.placeholder.Some? ==> IsWord(r.value.1.placeholder.value)
  {
    var withLong := if LongFlagStarts(t, c) then LongFlagThen(t, c, FlagEnd(t, c + 3), true) else None;
    match withLong
    case Some((long, tail)) => Some((Some(long), tail))
    case None =>
      match AfterLong(t, c, true)
      case Some(tail) => Some((None, tail))
      case None => None
  }

  /** `,\s*` followed by the rest of the pattern, where `q` runs down from the end of the
      whitespace after the comma at 2. */
  function CommaThen(t: string, q: nat): (r: Option<(Option<string>, Tail)>)
    requires 3 <= q <= |t|
    ensures r.Some? ==> r.value.1.description != []
    ensures r.Some? && r.value.0.Some? ==> IsLongFlag(r.value.0.value)
    ensures r.Some? && r.value.1.placeholder.Some? ==> IsWord(r.value.1.placeholder.value)
    decreases q
  {
    match OptionalLongThen(t, q)
    case Some(m) => Some(m)
    case None => if q == 3 then None else CommaThen(t, q - 1)
  }

  /** The short-flag pattern on a whole line. */
  function FlagPatternMatch(t: string): (r: Option<FlagMatch>)
    ensures r.Some? ==> |r.value.shortFlag| == 2 && HasPrefix(t, r.value.shortFlag)
                        && r.value.shortFlag[0] == '-' && IsAsciiLetter(r.value.shortFlag[1])
    ensures r.Some? ==> r.value.tail.description != []
    ensures r.Some? && r.value.longFlag.Some? ==> IsLongFlag(r.value.longFlag.value)
    ensures r.Some? && r.value.tail.placeholder.Some? ==> IsWord(r.value.tail.placeholder.value)
  {
    if |t| >= 2 && t[0] == '-' && IsAsciiLetter(t[1]) then
      var withComma := if |t| > 2 && t[2] == ',' then CommaThen(t, SpaceEnd(t, 3)) else None;
      var rest := if withComma.Some? then withComma else OptionalLongThen(t, 2);
      match rest
      case Some((long, tail)) => Some(FlagMatch(t[..2], long, tail))
      case None => None
    else None
  }

  // ----- The long-only pattern `^(--[a-zA-Z][-a-zA-Z0-9]*)(?:=?(\w+))?\s+(.+)$` -----

  function LongOnlyMatch(t: string): (r: Option<(string, Tail)>)
    ensures r.Some? ==> IsLongFlag(r.value.0) && HasPrefix(t, r.value.0) && r.value.1.description != []
    ensures r.Some? && r.value.1.placeholder.Some? ==> IsWord(r.value.1.placeholder.value)
  {
    if LongFlagStarts(t, 0) then LongFlagThen(t, 0, FlagEnd(t, 3), false) else None
  }

  // ----- The positional pattern `^<?(\w+)>?\s+(.+)$` -----

  /** `(\w+)>?\s+(.+)$` at `s`, where `t[s..e]` is the longest run of `\w`: the name and the
      description. */
  function NameThenRest(t: string, s: nat, e: nat): (r: Option<(string, string)>)
    requires s <= e <= |t|
    requires forall k :: s <= k < e ==> IsWordChar(t[k])
    ensures r.Some? ==> IsWord(r.value.0) && r.value.1 != []
    decreases e
  {
    if e <= s then None
    else
      var closed := if e < |t| && t[e] == '>' then SpacedRest(t, e + 1) else None;
      var rest := if closed.Some? then closed else SpacedRest(t, e);
      match rest
      case Some(d) => Some((t[s..e], d))
      case None => NameThenRest(t, s, e - 1)
  }

  /** The positional pattern on a whole line: with the opening `<` first. */
  function PositionalMatch(t: string): (r: Option<(string, string)>)
    ensures r.Some? ==> IsWord(r.value.0) && r.value.1 != []
  {
    var angled := if |t| > 0 && t[0] == '<' then NameThenRest(t, 1, WordEnd(t, 1)) else None;
    if angled.Some? then angled else NameThenRest(t, 0, WordEnd(t, 0))
  }

  // ----- The line parsers -----

  /** `parseOptionLine`: the trimmed line against the short-flag pattern, then against the
      long-only one; `id` is the `UUID()` the new argument draws. */
  function ParseOptionLine(line: string, id: Uuid): Option<ScriptArgument> {
    var t := Trim(line);
    if t == [] then None
    else
      match FlagPatternMatch(t)
      case Some(m) =>
        Some(NewArgument(id, m.tail.description, shortFlag := Some(m.shortFlag), longFlag := m.longFlag,
                         requiresValue := m.tail.placeholder.Some?, placeholder := m.tail.placeholder))
      case None =>
        match LongOnlyMatch(t)
        case Some((long, tail)) =>
          Some(NewArgument(id, tail.description, longFlag := Some(long),
                           requiresValue := tail.placeholder.Some?, placeholder := tail.placeholder))
        case None => None
  }

  /** `parsePositionalArgumentLine`. */
  function ParsePositionalLine(line: string, id: Uuid): Option<ScriptArgument> {
    var t := Trim(line);
    if t == [] then None
    else
      match PositionalMatch(t)
      case Some((name, desc)) =>
        Some(NewArgument(id, desc, requiresValue := true, isPositional := true, placeholder := Some(name)))
      case None => None
  }

  // ----- What the line parsers promise -----

  /** What an option line yields, for the trimmed line `t`: a fresh, disabled flag argument
      whose description is never empty and which takes a value exactly when a placeholder,
      a `\w` word, was captured. It has a short flag exactly when `t` starts with a hyphen
      and a letter, which is when the short-flag pattern is the one that can match;
      otherwise `t` starts with its long flag (the long-only pattern). */
  predicate IsOptionArgument(a: ScriptArgument, t: string, id: Uuid) {
    a.id == id && !a.isPositional && !a.isEnabled && a.value == "" && a.description != []
    && (a.requiresValue <==> a.placeholder.Some?)
    && (a.placeholder.Some? ==> IsWord(a.placeholder.value))
    && (a.shortFlag.Some? <==> |t| >= 2 && t[0] == '-' && IsAsciiLetter(t[1]))
    && (a.shortFlag.Some? ==> |a.shortFlag.value| == 2 && HasPrefix(t, a.shortFlag.value))
    && (a.shortFlag.None? ==> a.longFlag.Some? && HasPrefix(t, a.longFlag.value))
    && (a.longFlag.Some? ==> IsLongFlag(a.longFlag.value))
  }

  /** A blank line gives nothing, and every option line is an option argument. */
  lemma OptionLineShape(line: string, id: Uuid)
    ensures Trim(line) == [] ==> ParseOptionLine(line, id).None?
    ensures ParseOptionLine(line, id).Some? ==> IsOptionArgument(ParseOptionLine(line, id).value, Trim(line), id)
  {
    var t := Trim(line);
    if t != [] {
      match FlagPatternMatch(t)
      case Some(m) =>
        OptionLineFromFlagMatch(line, id, m);
      case None =>
        match LongOnlyMatch(t)
        case Some((long, tail)) =>
          assert ParseOptionLine(line, id)
              == Some(NewArgument(id, tail.description, longFlag := Some(long),
                                  requiresValue := tail.placeholder.Some?, placeholder := tail.placeholder));
        case None =>
    }
  }

  /** A blank line gives nothing; a positional argument takes a value, has the captured name
      as its placeholder, a non-empty description and no flag at all. */
  lemma PositionalLineShape(line: string, id: Uuid)
    ensures Trim(line) == [] ==> ParsePositionalLine(line, id).None?
    ensures ParsePositionalLine(line, id).Some? ==>
              var a := ParsePositionalLine(line, id).value;
              a.id == id && a.isPositional && a.requiresValue && !a.isEnabled && a.value == ""
              && a.placeholder.Some? && IsWord(a.placeholder.value) && a.description != []
              && a.shortFlag.None? && a.longFlag.None? && FlagForCommand(a).None?
  {
  }

  // ----- The line forms the parsers are written for -----

  /** A run of at least one whitespace character. */
  predicate IsGap(g: string) {
    g != [] && forall k :: 0 <= k < |g| ==> IsWhitespace(g[k])
  }

  /** Text that starts and ends with something other than whitespace. */
  predicate IsText(d: string) {
    d != [] && !IsWhitespace(d[0]) && !IsWhitespace(d[|d| - 1])
  }

  /** A hyphen and a letter. */
  predicate IsShortFlag(f: string) {
    |f| == 2 && f[0] == '-' && IsAsciiLetter(f[1])
  }

  /** A gap starts with whitespace, which ends a run of flag characters. */
  lemma GapStartEndsFlag(t: string, i: nat, j: nat)
    requires i < j <= |t| && IsGap(t[i..j])
    ensures IsWhitespace(t[i]) && !IsFlagChar(t[i])
  {
    assert t[i] == t[i..j][0];
  }

  lemma GapSpan(t: string, i: nat, j: nat)
    requires i <= j <= |t| && forall k :: 0 <= k < j - i ==> IsWhitespace(t[i..j][k])
    ensures forall k :: i <= k < j ==> IsWhitespace(t[k])
  {
    forall k | i <= k < j ensures IsWhitespace(t[k]) {
      assert t[k] == t[i..j][k - i];
    }
  }

  lemma WordSpan(t: string, i: nat, j: nat)
    requires i <= j <= |t| && forall k :: 0 <= k < j - i ==> IsWordChar(t[i..j][k])
    ensures forall k :: i <= k < j ==> IsWordChar(t[k])
  {
    forall k | i <= k < j ensures IsWordChar(t[k]) {
      assert t[k] == t[i..j][k - i];
    }
  }

  /** A long flag at `c`, ending at `z`. */
  lemma LongFlagSpan(t: string, c: nat, z: nat)
    requires c + 3 <= z <= |t| && IsLongFlag(t[c..z])
    ensures LongFlagStarts(t, c) && forall k :: c + 3 <= k < z ==> IsFlagChar(t[k])
  {
    assert t[c] == t[c..z][0] && t[c + 1] == t[c..z][1] && t[c + 2] == t[c..z][2];
    forall k | c + 3 <= k < z ensures IsFlagChar(t[k]) {
      assert t[k] == t[c..z][k - c];
    }
  }

  /** A line that starts with something other than whitespace and ends with text is its
      own trimming. */
  lemma TrimmedLine(t: string, f: nat)
    requires f < |t| && !IsWhitespace(t[0]) && IsText(t[f..])
    ensures Trim(t) == t
  {
    assert t[|t| - 1] == t[f..][|t| - 1 - f];
    TrimmedIsFixed(t);
  }

  /** `\w+\s+(.+)$` cannot match where no whitespace follows the word. */
  lemma {:induction false} WordThenRestNeedsSpace(t: string, s: nat, e: nat)
    requires s <= e <= |t|
    requires forall k :: s <= k < e ==> IsWordChar(t[k])
    requires forall k :: s < k <= e && k + 1 < |t| ==> !IsWhitespace(t[k])
    ensures WordThenRest(t, s, e).None?
    decreases e
  {
    if e > s {
      assert SpacedRest(t, e).None?;
      WordThenRestNeedsSpace(t, s, e - 1);
    }
  }

  /** `\s+(.+)$` at a run of whitespace that ends before the text. */
  lemma SpacedRestAt(t: string, p: nat, f: nat)
    requires p < f < |t| && !IsWhitespace(t[f])
    requires forall k :: p <= k < f ==> IsWhitespace(t[k])
    ensures SpacedRest(t, p) == Some(t[f..])
  {
    SpaceEndIs(t, p, f);
  }

  /** `(?:=?(\w+))?\s+(.+)$` at a word followed by whitespace and the text. */
  lemma ValuedRestAtWord(t: string, q: nat, e: nat, f: nat)
    requires q < e < f < |t| && !IsWhitespace(t[f])
    requires forall k :: q <= k < e ==> IsWordChar(t[k])
    requires forall k :: e <= k < f ==> IsWhitespace(t[k])
    ensures ValuedRest(t, q) == Some(Tail(Some(t[q..e]), t[f..]))
  {
    assert IsWhitespace(t[e]);
    WordEndIs(t, q, e);
    SpacedRestAt(t, e, f);
  }

  /** `(?:=?(\w+))?\s+(.+)$` at `=`, a word, whitespace and the text. */
  lemma ValuedRestAtSign(t: string, q: nat, e: nat, f: nat)
    requires q + 1 < e < f < |t| && t[q] == '=' && !IsWhitespace(t[f])
    requires forall k :: q + 1 <= k < e ==> IsWordChar(t[k])
    requires forall k :: e <= k < f ==> IsWhitespace(t[k])
    ensures ValuedRest(t, q) == Some(Tail(Some(t[q + 1..e]), t[f..]))
  {
    assert IsWhitespace(t[e]);
    WordEndIs(t, q + 1, e);
    SpacedRestAt(t, e, f);
  }

  /** `(?:=?(\w+))?\s+(.+)$` at whitespace followed by the text. */
  lemma ValuedRestAtSpace(t: string, q: nat, f: nat)
    requires q < f < |t| && !IsWhitespace(t[f])
    requires forall k :: q <= k < f ==> IsWhitespace(t[k])
    ensures ValuedRest(t, q) == Some(Tail(None, t[f..]))
  {
    WordEndIs(t, q, q);
    SpacedRestAt(t, q, f);
  }

  /** `\s*(?:=?(\w+))?\s+(.+)$` at whitespace up to `q` followed by a single word, which
      cannot be a placeholder: the whole word is the description. */
  lemma SpacesThenWord(t: string, p: nat, q: nat)
    requires p < q < |t|
    requires forall k :: p <= k < q ==> IsWhitespace(t[k])
    requires forall k :: q <= k < |t| ==> IsWordChar(t[k])
    ensures SpacesThenValued(t, p, q) == Some(Tail(None, t[q..]))
  {
    ValuedRestAtLastWord(t, q);
    ValuedRestAtSpace(t, q - 1, q);
    assert SpacesThenValued(t, p, q - 1) == Some(Tail(None, t[q..]));
  }

  /** `(?:=?(\w+))?\s+(.+)$` cannot match a single word that ends the line. */
  lemma ValuedRestAtLastWord(t: string, q: nat)
    requires q < |t| && forall k :: q <= k < |t| ==> IsWordChar(t[k])
    ensures ValuedRest(t, q).None?
  {
    WordEndIs(t, q, |t|);
    WordThenRestNeedsSpace(t, q, |t|);
    assert t[q] != '=' && !IsWhitespace(t[q]);
  }

  /** After a long flag ending at `z`: whitespace up to `q` and a single word. */
  lemma AfterLongWord(t: string, z: nat, q: nat)
    requires z < q < |t|
    requires forall k :: z <= k < q ==> IsWhitespace(t[k])
    requires forall k :: q <= k < |t| ==> IsWordChar(t[k])
    ensures AfterLong(t, z, true) == Some(Tail(None, t[q..]))
  {
    SpaceEndIs(t, z, q);
    SpacesThenWord(t, z, q);
  }

  /** After a long flag ending at `z`: `=`, a word up to `e`, whitespace and the text. */
  lemma AfterLongSign(t: string, z: nat, e: nat, f: nat)
    requires z + 1 < e < f < |t| && t[z] == '=' && !IsWhitespace(t[f])
    requires forall k :: z + 1 <= k < e ==> IsWordChar(t[k])
    requires forall k :: e <= k < f ==> IsWhitespace(t[k])
    ensures AfterLong(t, z, true) == Some(Tail(Some(t[z + 1..e]), t[f..]))
  {
    SpaceEndIs(t, z, z);
    ValuedRestAtSign(t, z, e, f);
  }

  /** `(\w+)>?\s+(.+)$` at a word up to `e` that is followed by whitespace and the text. */
  lemma NameThenRestAt(t: string, s: nat, e: nat, f: nat)
    requires s < e < f < |t| && !IsWhitespace(t[f])
    requires forall k :: s <= k < e ==> IsWordChar(t[k])
    requires forall k :: e <= k < f ==> IsWhitespace(t[k])
    ensures NameThenRest(t, s, e) == Some((t[s..e], t[f..]))
  {
    SpacedRestAt(t, e, f);
  }

  /** The short-flag pattern on a flag, whitespace up to `q` and then what the rest of the
      pattern makes of the text from `q`. */
  lemma FlagPatternAfterGap(t: string, q: nat, tail: Tail)
    requires 2 < q <= |t| && t[0] == '-' && IsAsciiLetter(t[1])
    requires forall k :: 2 <= k < q ==> IsWhitespace(t[k])
    requires q == |t| || !IsWhitespace(t[q])
    requires SpacesThenValued(t, 2, q) == Some(tail)
    ensures FlagPatternMatch(t) == Some(FlagMatch(t[..2], None, tail))
  {
    SpaceEndIs(t, 2, q);
    assert OptionalLongThen(t, 2) == Some((None, tail));
  }

  /** The short-flag pattern on a flag, a comma, whitespace up to `c`, a long flag up to `z`
      and then what the rest of the pattern makes of the text from `z`. */
  lemma FlagPatternWithLong(t: string, c: nat, z: nat, tail: Tail)
    requires 3 <= c && c + 3 <= z <= |t| && t[0] == '-' && IsAsciiLetter(t[1]) && t[2] == ','
    requires forall k :: 3 <= k < c ==> IsWhitespace(t[k])
    requires LongFlagStarts(t, c) && forall k :: c + 3 <= k < z ==> IsFlagChar(t[k])
    requires z == |t| || !IsFlagChar(t[z])
    requires AfterLong(t, z, true) == Some(tail)
    ensures FlagPatternMatch(t) == Some(FlagMatch(t[..2], Some(t[c..z]), tail))
  {
    assert OptionalLongThen(t, c) == Some((Some(t[c..z]), tail)) by {
      FlagEndIs(t, c + 3, z);
      assert LongFlagThen(t, c, z, true) == Some((t[c..z], tail));
    }
    assert CommaThen(t, c) == Some((Some(t[c..z]), tail));
    SpaceEndIs(t, 3, c);
  }

  /** A line the short-flag pattern matches is parsed from that match. */
  lemma OptionLineFromFlagMatch(line: string, id: Uuid, m: FlagMatch)
    requires Trim(line) != [] && FlagPatternMatch(Trim(line)) == Some(m)
    ensures ParseOptionLine(line, id)
            == Some(NewArgument(id, m.tail.description, shortFlag := Some(m.shortFlag), longFlag := m.longFlag,
                                requiresValue := m.tail.placeholder.Some?, placeholder := m.tail.placeholder))
  {
  }

  /** A line that starts a long flag is parsed by the long-only pattern. */
  lemma OptionLineFromLongMatch(line: string, id: Uuid, long: string, tail: Tail)
    requires Trim(line) != [] && Trim(line)[0] == '-' && |Trim(line)| > 1 && Trim(line)[1] == '-'
    requires LongOnlyMatch(Trim(line)) == Some((long, tail))
    ensures ParseOptionLine(line, id)
            == Some(NewArgument(id, tail.description, longFlag := Some(long),
                                requiresValue := tail.placeholder.Some?, placeholder := tail.placeholder))
  {
    assert FlagPatternMatch(Trim(line)).None?;
  }

  /** The first two characters of a line that starts with a short flag. */
  lemma ShortFlagStart(t: string)
    requires |t| >= 2 && IsShortFlag(t[..2])
    ensures t[0] == '-' && IsAsciiLetter(t[1]) && !IsWhitespace(t[0])
  {
    assert t[0] == t[..2][0] && t[1] == t[..2][1];
  }

  /** A line that starts with something other than whitespace and ends with a word is its
      own trimming. */
  lemma TrimmedBeforeWord(t: string, q: nat)
    requires q < |t| && !IsWhitespace(t[0]) && IsWord(t[q..])
    ensures Trim(t) == t
  {
    assert t[q..][0] == t[q] && t[q..][|t| - q - 1] == t[|t| - 1];
    TrimmedLine(t, q);
  }

  // `-f FILE   Description`

  lemma FlagPlaceholderMatch(t: string, q: nat, e: nat, f: nat)
    requires 2 < q < e < f < |t|
    requires IsShortFlag(t[..2]) && IsGap(t[2..q]) && IsWord(t[q..e]) && IsGap(t[e..f]) && IsText(t[f..])
    ensures Trim(t) == t && FlagPatternMatch(t) == Some(FlagMatch(t[..2], None, Tail(Some(t[q..e]), t[f..])))
  {
    ShortFlagStart(t);
    TrimmedLine(t, f);
    assert SpacesThenValued(t, 2, q) == Some(Tail(Some(t[q..e]), t[f..])) by {
      WordSpan(t, q, e);
      GapSpan(t, e, f);
      assert t[f] == t[f..][0];
      ValuedRestAtWord(t, q, e, f);
    }
    assert !IsWhitespace(t[q]) by {
      assert t[q] == t[q..e][0];
    }
    GapSpan(t, 2, q);
    FlagPatternAfterGap(t, q, Tail(Some(t[q..e]), t[f..]));
  }

  /** `-f FILE   Description`: a short flag, a word and a description give that flag with
      the word as its placeholder. The same holds when the word was meant as the first word
      of the description: `-v  Verbose output` takes `Verbose` as the placeholder. */
  lemma ShortFlagWithPlaceholder(t: string, q: nat, e: nat, f: nat, id: Uuid)
    requires 2 < q < e < f < |t|
    requires IsShortFlag(t[..2]) && IsGap(t[2..q]) && IsWord(t[q..e]) && IsGap(t[e..f]) && IsText(t[f..])
    ensures ParseOptionLine(t, id)
            == Some(NewArgument(id, t[f..], shortFlag := Some(t[..2]), requiresValue := true, placeholder := Some(t[q..e])))
  {
    FlagPlaceholderMatch(t, q, e, f);
    OptionLineFromFlagMatch(t, id, FlagMatch(t[..2], None, Tail(Some(t[q..e]), t[f..])));
  }

  // `-v   Verbose`

  lemma FlagWordMatch(t: string, q: nat)
    requires 2 < q < |t|
    requires IsShortFlag(t[..2]) && IsGap(t[2..q]) && IsWord(t[q..])
    ensures Trim(t) == t && FlagPatternMatch(t) == Some(FlagMatch(t[..2], None, Tail(None, t[q..])))
  {
    ShortFlagStart(t);
    TrimmedBeforeWord(t, q);
    GapSpan(t, 2, q);
    assert SpacesThenValued(t, 2, q) == Some(Tail(None, t[q..])) by {
      WordSpan(t, q, |t|);
      SpacesThenWord(t, 2, q);
    }
    assert !IsWhitespace(t[q]) by {
      assert t[q] == t[q..][0];
    }
    FlagPatternAfterGap(t, q, Tail(None, t[q..]));
  }

  /** `-v   Verbose`: a short flag and a single word give the flag with that word as its
      description and no placeholder. */
  lemma ShortFlagWithWord(t: string, q: nat, id: Uuid)
    requires 2 < q < |t|
    requires IsShortFlag(t[..2]) && IsGap(t[2..q]) && IsWord(t[q..])
    ensures ParseOptionLine(t, id) == Some(NewArgument(id, t[q..], shortFlag := Some(t[..2])))
  {
    FlagWordMatch(t, q);
    OptionLineFromFlagMatch(t, id, FlagMatch(t[..2], None, Tail(None, t[q..])));
  }

  // `-h, --help   Description`

  lemma ShortLongWordMatch(t: string, c: nat, z: nat, q: nat)
    requires 3 <= c < z < q < |t| && t[2] == ','
    requires IsShortFlag(t[..2]) && (forall k :: 0 <= k < c - 3 ==> IsWhitespace(t[3..c][k]))
    requires IsLongFlag(t[c..z]) && IsGap(t[z..q]) && IsWord(t[q..])
    ensures Trim(t) == t
    ensures FlagPatternMatch(t) == Some(FlagMatch(t[..2], Some(t[c..z]), Tail(None, t[q..])))
  {
    ShortFlagStart(t);
    TrimmedBeforeWord(t, q);
    assert AfterLong(t, z, true) == Some(Tail(None, t[q..])) by {
      GapSpan(t, z, q);
      WordSpan(t, q, |t|);
      AfterLongWord(t, z, q);
    }
    assert !IsFlagChar(t[z]) by {
      assert t[z] == t[z..q][0];
    }
    GapSpan(t, 3, c);
    LongFlagSpan(t, c, z);
    FlagPatternWithLong(t, c, z, Tail(None, t[q..]));
  }

  /** `-h, --help   Description`: a short flag, a comma, a long flag and a single word give
      both flags, no placeholder and the word as the description. */
  lemma ShortLongFlagWithWord(t: string, c: nat, z: nat, q: nat, id: Uuid)
    requires 3 <= c < z < q < |t| && t[2] == ','
    requires IsShortFlag(t[..2]) && (forall k :: 0 <= k < c - 3 ==> IsWhitespace(t[3..c][k]))
    requires IsLongFlag(t[c..z]) && IsGap(t[z..q]) && IsWord(t[q..])
    ensures ParseOptionLine(t, id)
            == Some(NewArgument(id, t[q..], shortFlag := Some(t[..2]), longFlag := Some(t[c..z])))
  {
    ShortLongWordMatch(t, c, z, q);
    OptionLineFromFlagMatch(t, id, FlagMatch(t[..2], Some(t[c..z]), Tail(None, t[q..])));
  }

  // `-o, --output=FILE   Description`

  lemma ShortLongValueMatch(t: string, c: nat, z: nat, e: nat, f: nat)
    requires 3 <= c < z && z + 1 < e < f < |t| && t[2] == ',' && t[z] == '='
    requires IsShortFlag(t[..2]) && (forall k :: 0 <= k < c - 3 ==> IsWhitespace(t[3..c][k]))
    requires IsLongFlag(t[c..z]) && IsWord(t[z + 1..e]) && IsGap(t[e..f]) && IsText(t[f..])
    ensures Trim(t) == t
    ensures FlagPatternMatch(t) == Some(FlagMatch(t[..2], Some(t[c..z]), Tail(Some(t[z + 1..e]), t[f..])))
  {
    ShortFlagStart(t);
    TrimmedLine(t, f);
    assert AfterLong(t, z, true) == Some(Tail(Some(t[z + 1..e]), t[f..])) by {
      WordSpan(t, z + 1, e);
      GapSpan(t, e, f);
      assert t[f] == t[f..][0];
      AfterLongSign(t, z, e, f);
    }
    GapSpan(t, 3, c);
    LongFlagSpan(t, c, z);
    FlagPatternWithLong(t, c, z, Tail(Some(t[z + 1..e]), t[f..]));
  }

  /** `-o, --output=FILE   Description`: both flags, the word after `=` as the placeholder
      and the text as the description. */
  lemma ShortLongFlagWithValue(t: string, c: nat, z: nat, e: nat, f: nat, id: Uuid)
    requires 3 <= c < z && z + 1 < e < f < |t| && t[2] == ',' && t[z] == '='
    requires IsShortFlag(t[..2]) && (forall k :: 0 <= k < c - 3 ==> IsWhitespace(t[3..c][k]))
    requires IsLongFlag(t[c..z]) && IsWord(t[z + 1..e]) && IsGap(t[e..f]) && IsText(t[f..])
    ensures ParseOptionLine(t, id)
            == Some(NewArgument(id, t[f..], shortFlag := Some(t[..2]), longFlag := Some(t[c..z]),
                                requiresValue := true, placeholder := Some(t[z + 1..e])))
  {
    ShortLongValueMatch(t, c, z, e, f);
    OptionLineFromFlagMatch(t, id, FlagMatch(t[..2], Some(t[c..z]), Tail(Some(t[z + 1..e]), t[f..])));
  }

  // `--verbose   Description` and `--output=FILE   Description`

  lemma LongTextMatch(t: string, z: nat, f: nat)
    requires 3 <= z < f < |t| && IsLongFlag(t[..z]) && IsGap(t[z..f]) && IsText(t[f..])
    ensures Trim(t) == t && t[0] == '-' && t[1] == '-'
    ensures LongOnlyMatch(t) == Some((t[..z], Tail(None, t[f..])))
  {
    assert t[..z] == t[0..z];
    LongFlagSpan(t, 0, z);
    TrimmedLine(t, f);
    assert ValuedRest(t, z) == Some(Tail(None, t[f..])) by {
      GapSpan(t, z, f);
      assert t[f] == t[f..][0];
      ValuedRestAtSpace(t, z, f);
    }
    GapStartEndsFlag(t, z, f);
    FlagEndIs(t, 3, z);
    assert LongFlagThen(t, 0, z, false) == Some((t[..z], Tail(None, t[f..])));
  }

  /** `--verbose   Enable verbose output`: a long flag and a text give the long flag alone,
      no placeholder, and the whole text as the description, even when it starts with a
      word (the long-only pattern has no room for whitespace before a placeholder). */
  lemma LongFlagWithText(t: string, z: nat, f: nat, id: Uuid)
    requires 3 <= z < f < |t| && IsLongFlag(t[..z]) && IsGap(t[z..f]) && IsText(t[f..])
    ensures ParseOptionLine(t, id) == Some(NewArgument(id, t[f..], longFlag := Some(t[..z])))
  {
    LongTextMatch(t, z, f);
    OptionLineFromLongMatch(t, id, t[..z], Tail(None, t[f..]));
  }

  lemma LongValueMatch(t: string, z: nat, e: nat, f: nat)
    requires 3 <= z && z + 1 < e < f < |t| && t[z] == '='
    requires IsLongFlag(t[..z]) && IsWord(t[z + 1..e]) && IsGap(t[e..f]) && IsText(t[f..])
    ensures Trim(t) == t && t[0] == '-' && t[1] == '-'
    ensures LongOnlyMatch(t) == Some((t[..z], Tail(Some(t[z + 1..e]), t[f..])))
  {
    assert t[..z] == t[0..z];
    LongFlagSpan(t, 0, z);
    TrimmedLine(t, f);
    assert ValuedRest(t, z) == Some(Tail(Some(t[z + 1..e]), t[f..])) by {
      WordSpan(t, z + 1, e);
      GapSpan(t, e, f);
      assert t[f] == t[f..][0];
      ValuedRestAtSign(t, z, e, f);
    }
    FlagEndIs(t, 3, z);
    assert LongFlagThen(t, 0, z, false) == Some((t[..z], Tail(Some(t[z + 1..e]), t[f..])));
  }

  /** `--output=FILE   Description`: the long flag, the word after `=` as the placeholder
      and the text as the description. */
  lemma LongFlagWithValue(t: string, z: nat, e: nat, f: nat, id: Uuid)
    requires 3 <= z && z + 1 < e < f < |t| && t[z] == '='
    requires IsLongFlag(t[..z]) && IsWord(t[z + 1..e]) && IsGap(t[e..f]) && IsText(t[f..])
    ensures ParseOptionLine(t, id)
            == Some(NewArgument(id, t[f..], longFlag := Some(t[..z]), requiresValue := true,
                                placeholder := Some(t[z + 1..e])))
  {
    LongValueMatch(t, z, e, f);
    OptionLineFromLongMatch(t, id, t[..z], Tail(Some(t[z + 1..e]), t[f..]));
  }

  // `input   Description` and `<output>   Description`

  /** A line the positional pattern matches is parsed from that match. */
  lemma PositionalLineFromMatch(line: string, id: Uuid, name: string, desc: string)
    requires Trim(line) != [] && PositionalMatch(Trim(line)) == Some((name, desc))
    ensures ParsePositionalLine(line, id)
            == Some(NewArgument(id, desc, requiresValue := true, isPositional := true, placeholder := Some(name)))
  {
  }

  lemma PlainNameMatch(t: string, e: nat, f: nat)
    requires 0 < e < f < |t| && IsWord(t[..e]) && IsGap(t[e..f]) && IsText(t[f..])
    ensures Trim(t) == t && PositionalMatch(t) == Some((t[..e], t[f..]))
  {
    assert t[0] == t[..e][0];
    TrimmedLine(t, f);
    assert NameThenRest(t, 0, e) == Some((t[..e], t[f..])) by {
      WordSpan(t, 0, e);
      GapSpan(t, e, f);
      assert t[f] == t[f..][0] && t[..e] == t[0..e];
      NameThenRestAt(t, 0, e, f);
    }
    assert WordEnd(t, 0) == e by {
      WordSpan(t, 0, e);
      assert t[e] == t[e..f][0];
      WordEndIs(t, 0, e);
    }
  }

  /** `input   Description`: a name and a text give a positional argument named by the
      name, described by the text. */
  lemma PositionalWithName(t: string, e: nat, f: nat, id: Uuid)
    requires 0 < e < f < |t| && IsWord(t[..e]) && IsGap(t[e..f]) && IsText(t[f..])
    ensures ParsePositionalLine(t, id)
            == Some(NewArgument(id, t[f..], requiresValue := true, isPositional := true, placeholder := Some(t[..e])))
  {
    PlainNameMatch(t, e, f);
    PositionalLineFromMatch(t, id, t[..e], t[f..]);
  }

  lemma AngledNameMatch(t: string, e: nat, f: nat)
    requires 1 < e && e + 1 < f < |t| && t[0] == '<' && t[e] == '>'
    requires IsWord(t[1..e]) && IsGap(t[e + 1..f]) && IsText(t[f..])
    ensures Trim(t) == t && PositionalMatch(t) == Some((t[1..e], t[f..]))
  {
    TrimmedLine(t, f);
    assert SpacedRest(t, e + 1) == Some(t[f..]) by {
      GapSpan(t, e + 1, f);
      assert t[f] == t[f..][0];
      SpacedRestAt(t, e + 1, f);
    }
    assert WordEnd(t, 1) == e by {
      WordSpan(t, 1, e);
      WordEndIs(t, 1, e);
    }
  }

  /** `<output>   Description`: the angle brackets are not part of the name. */
  lemma PositionalWithAngledName(t: string, e: nat, f: nat, id: Uuid)
    requires 1 < e && e + 1 < f < |t| && t[0] == '<' && t[e] == '>'
    requires IsWord(t[1..e]) && IsGap(t[e + 1..f]) && IsText(t[f..])
    ensures ParsePositionalLine(t, id)
            == Some(NewArgument(id, t[f..], requiresValue := true, isPositional := true, placeholder := Some(t[1..e])))
  {
    AngledNameMatch(t, e, f);
    PositionalLineFromMatch(t, id, t[1..e], t[f..]);
  }

  /** A description of two words after a short flag loses its first word to the
      placeholder. */
  lemma DescriptionWordBecomesPlaceholder(id: Uuid)
    ensures ParseOptionLine("-v  Verbose output", id)
            == Some(NewArgument(id, "output", shortFlag := Some("-v"), requiresValue := true, placeholder := Some("Verbose")))
  {
    var t := "-v  Verbose output";
    assert t[..2] == "-v" && t[2..4] == "  " && t[4..11] == "Verbose" && t[11..12] == " " && t[12..] == "output";
    ShortFlagWithPlaceholder(t, 4, 11, 12, id);
  }
}
