/** The header reader of ScriptletRunner/Services/ScriptParser.swift: the comment block at
    the top of a script is read line by line, with three flags, into a description, a
    usage line and the declared arguments. */
module ScriptParser {
  import opened Base
  import opened Text
  import opened Paths
  import opened Arguments
  import opened Scripts
  import opened HeaderLines

  /** What the loop has read so far, with its three flags. */
  datatype Header = Header(
    description: string,
    usage: Option<string>,
    arguments: seq<ScriptArgument>,
    inOptions: bool,
    inArguments: bool,
    ended: bool)

  function Fresh(): Header {
    Header("", None, [], false, false, false)
  }

  /** A trimmed line that is neither empty nor a comment: script code, ending the header. */
  predicate IsCode(trimmed: string) {
    !HasPrefix(trimmed, "#") && trimmed != []
  }

  /** The text of a trimmed header line: without its `#` and trimmed again. */
  function CommentContent(trimmed: string): string {
    if HasPrefix(trimmed, "#") then Trim(trimmed[1..]) else trimmed
  }

  /** The content of a line as it reaches the keyword tests, lowercased. */
  function Keyword(line: string): string {
    Lower(CommentContent(Trim(line)))
  }

  /** A comment or blank line of the header, not a shebang. */
  predicate IsHeaderLine(line: string) {
    !HasPrefix(Trim(line), "#!") && !IsCode(Trim(line))
  }

  predicate IsDescriptionLine(line: string) {
    IsHeaderLine(line) && HasPrefix(Keyword(line), "description:")
  }

  predicate IsUsageLine(line: string) {
    IsHeaderLine(line) && !HasPrefix(Keyword(line), "description:") && HasPrefix(Keyword(line), "usage:")
  }

  /** A parser of the lines of one block, given the line's text and the `UUID()` a new
      argument draws. */
  type LineParser = (string, Uuid) -> Option<ScriptArgument>

  /** What the loop draws on: `ids(k)` is the `UUID()` the k-th argument draws, and the two
      line parsers are those of the options and the arguments block. */
  datatype Parsers = Parsers(ids: nat -> Uuid, option: LineParser, positional: LineParser)

  /** The parsers `parse(scriptPath:)` uses. */
  function Source(ids: nat -> Uuid): Parsers {
    Parsers(ids, ParseOptionLine, ParsePositionalLine)
  }

  /** An argument parsed from the line, if any, goes at the end. */
  function Appended(h: Header, a: Option<ScriptArgument>): Header {
    match a
    case Some(arg) => h.(arguments := h.arguments + [arg])
    case None => h
  }

  /** A line that is no keyword, read by the parser of each block it is in. */
  function BlockLine(h: Header, content: string, p: Parsers): Header {
    var h1 := if h.inOptions then Appended(h, p.option(content, p.ids(|h.arguments|))) else h;
    if h1.inArguments then Appended(h1, p.positional(content, p.ids(|h1.arguments|))) else h1
  }

  /** One pass of the loop: a shebang is skipped, code ends the header, and any other line
      is read as a comment. */
  function ReadLine(h: Header, line: string, p: Parsers): Header {
    var trimmed := Trim(line);
    if HasPrefix(trimmed, "#!") then h
    else if IsCode(trimmed) then h.(ended := true)
    else ReadComment(h, CommentContent(trimmed), p)
  }

  /** The rest of a pass, on the text of a header line: the keyword lines, the first
      comment as the fallback description, and the lines of the blocks. */
  function ReadComment(h: Header, content: string, p: Parsers): Header {
    var key := Lower(content);
    if HasPrefix(key, "description:") then
      h.(description := Trim(DropFirst(content, 12)), inOptions := false, inArguments := false)
    else
      var h1 := if h.description == [] && content != [] && !HasPrefix(key, "usage:")
                   && !HasPrefix(key, "options:") && !HasPrefix(key, "arguments:")
                then h.(description := content) else h;
      if HasPrefix(key, "usage:") then
        h1.(usage := Some(Trim(DropFirst(content, 6))), inOptions := false, inArguments := false)
      else if HasPrefix(key, "options:") then h1.(inOptions := true, inArguments := false)
      else if HasPrefix(key, "arguments:") then h1.(inOptions := false, inArguments := true)
      else BlockLine(h1, content, p)
  }

  /** The loop from the state `h` over the lines still to come; it stops at the end of the
      header. */
  function ReadLines(h: Header, lines: seq<string>, p: Parsers): Header
    decreases |lines|
  {
    if lines == [] || h.ended then h
    else ReadLines(ReadLine(h, lines[0], p), lines[1..], p)
  }

  /** `parse(scriptPath:)`: `content` is the file's text, None when it cannot be read as
      UTF-8; `id` is the new script's `UUID()`. */
  function ParsedScript(id: Uuid, scriptPath: string, content: Option<string>, ids: nat -> Uuid): Script {
    var name := Some(LastPathComponent(scriptPath));
    match content
    case None => NewScript(id, scriptPath, name)
    case Some(text) =>
      var h := ReadLines(Fresh(), SplitLines(text), Source(ids));
      NewScript(id, scriptPath, name, h.description, h.usage, h.arguments)
  }

  /** `parse(scriptPath:)` as the source writes it. */
  method Parse(id: Uuid, scriptPath: string, content: Option<string>, ids: nat -> Uuid) returns (script: Script)
    ensures script == ParsedScript(id, scriptPath, content, ids)
  {
    var name := LastPathComponent(scriptPath);
    if content.None? {
      return NewScript(id, scriptPath, Some(name));
    }
    var lines := SplitLines(content.value);
    var description, usage, arguments := ReadHeader(lines, ids);
    return NewScript(id, scriptPath, Some(name), description, usage, arguments);
  }

  /** The header loop, with its local variables and flags, over the file's lines. */
  method ReadHeader(lines: seq<string>, ids: nat -> Uuid)
      returns (description: string, usage: Option<string>, arguments: seq<ScriptArgument>)
    ensures var h := ReadLines(Fresh(), lines, Source(ids));
            description == h.description && usage == h.usage && arguments == h.arguments
  {
    description, usage, arguments := "", None, [];
    var inOptionsBlock := false;
    var inArgumentsBlock := false;
    var i := 0;
    ghost var total := ReadLines(Fresh(), lines, Source(ids));
    while i < |lines|
      invariant i <= |lines|
      invariant total == ReadLines(Header(description, usage, arguments, inOptionsBlock, inArgumentsBlock, false), lines[i..], Source(ids))
    {
      ReadLinesStep(Header(description, usage, arguments, inOptionsBlock, inArgumentsBlock, false), lines, i, Source(ids));
      var headerEnded;
      description, usage, arguments, inOptionsBlock, inArgumentsBlock, headerEnded :=
        ReadPass(lines[i], description, usage, arguments, inOptionsBlock, inArgumentsBlock, ids);
      if headerEnded {
        ReadLinesEnded(Header(description, usage, arguments, inOptionsBlock, inArgumentsBlock, true), lines[i + 1..], Source(ids));
        return;
      }
      i := i + 1;
    }
  }

  /** One pass of the loop on `line`, with the loop's variables in and out, and whether
      the line ended the header. */
  method ReadPass(
      line: string, description0: string, usage0: Option<string>, arguments0: seq<ScriptArgument>,
      inOptions0: bool, inArguments0: bool, ids: nat -> Uuid)
      returns (description: string, usage: Option<string>, arguments: seq<ScriptArgument>,
               inOptionsBlock: bool, inArgumentsBlock: bool, headerEnded: bool)
    ensures Header(description, usage, arguments, inOptionsBlock, inArgumentsBlock, headerEnded)
            == ReadLine(Header(description0, usage0, arguments0, inOptions0, inArguments0, false), line, Source(ids))
    ensures headerEnded <==> IsCode(Trim(line))
  {
    description, usage, arguments, inOptionsBlock, inArgumentsBlock := description0, usage0, arguments0, inOptions0, inArguments0;
    headerEnded := false;
    ReadLineCases(Header(description, usage, arguments, inOptionsBlock, inArgumentsBlock, false), line, Source(ids));
    var trimmed := Trim(line);
    if HasPrefix(trimmed, "#!") {
      return;
    }
    if !HasPrefix(trimmed, "#") && trimmed != [] {
      headerEnded := true;
      return;
    }
    var commentContent := CommentContent(trimmed);
    description, usage, arguments, inOptionsBlock, inArgumentsBlock :=
      ReadCommentLine(commentContent, description, usage, arguments, inOptionsBlock, inArgumentsBlock, ids);
  }

  /** The rest of a pass of the loop, on the text of a header line, with the loop's
      variables in and out; its early returns are the loop's `continue`s. */
  method ReadCommentLine(
      commentContent: string, description0: string, usage0: Option<string>, arguments0: seq<ScriptArgument>,
      inOptions0: bool, inArguments0: bool, ids: nat -> Uuid)
      returns (description: string, usage: Option<string>, arguments: seq<ScriptArgument>,
               inOptionsBlock: bool, inArgumentsBlock: bool)
    ensures Header(description, usage, arguments, inOptionsBlock, inArgumentsBlock, false)
            == ReadComment(Header(description0, usage0, arguments0, inOptions0, inArguments0, false), commentContent, Source(ids))
  {
    description, usage, arguments, inOptionsBlock, inArgumentsBlock := description0, usage0, arguments0, inOptions0, inArguments0;
    ghost var h := Header(description, usage, arguments, inOptionsBlock, inArgumentsBlock, false);
    var key := Lower(commentContent);
    if HasPrefix(key, "description:") {
      description := Trim(DropFirst(commentContent, 12));
      inOptionsBlock := false;
      inArgumentsBlock := false;
      return;
    }
    if description == [] && commentContent != [] && !HasPrefix(key, "usage:")
       && !HasPrefix(key, "options:") && !HasPrefix(key, "arguments:") {
      description := commentContent;
    }
    if HasPrefix(key, "usage:") {
      usage := Some(Trim(DropFirst(commentContent, 6)));
      inOptionsBlock := false;
      inArgumentsBlock := false;
      return;
    }
    if HasPrefix(key, "options:") {
      inOptionsBlock := true;
      inArgumentsBlock := false;
      return;
    }
    if HasPrefix(key, "arguments:") {
      inOptionsBlock := false;
      inArgumentsBlock := true;
      return;
    }
    ghost var h1 := Header(description, usage, arguments, inOptionsBlock, inArgumentsBlock, false);
    assert ReadComment(h, commentContent, Source(ids)) == BlockLine(h1, commentContent, Source(ids));
    if inOptionsBlock {
      var arg := ParseOptionLine(commentContent, ids(|arguments|));
      if arg.Some? {
        arguments := arguments + [arg.value];
      }
    }
    if inArgumentsBlock {
      var arg := ParsePositionalLine(commentContent, ids(|arguments|));
      if arg.Some? {
        arguments := arguments + [arg.value];
      }
    }
  }

  // ----- One pass -----

  /** What the parsers make of a declared argument: the k-th one draws `ids(k)`, starts
      disabled and empty, and is either a positional argument without flags or an option
      with a flag for the command line. */
  predicate IsDeclared(a: ScriptArgument, id: Uuid) {
    a.id == id && !a.isEnabled && a.value == "" && a.description != []
    && (a.requiresValue <==> a.placeholder.Some?)
    && (a.isPositional ==> FlagForCommand(a).None?)
    && (!a.isPositional ==> FlagForCommand(a).Some?)
  }

  /** Both line parsers only make declared arguments. */
  ghost predicate Declares(p: Parsers) {
    (forall c, id :: p.option(c, id).Some? ==> IsDeclared(p.option(c, id).value, id))
    && (forall c, id :: p.positional(c, id).Some? ==> IsDeclared(p.positional(c, id).value, id))
  }

  /** The loop is never in both blocks, and every argument it holds is declared. */
  predicate WellFormed(h: Header, ids: nat -> Uuid) {
    !(h.inOptions && h.inArguments)
    && forall k :: 0 <= k < |h.arguments| ==> IsDeclared(h.arguments[k], ids(k))
  }

  /** The parsers of the header lines only make declared arguments. */
  lemma SourceDeclares(ids: nat -> Uuid)
    ensures Declares(Source(ids))
  {
    forall c, id | ParseOptionLine(c, id).Some?
      ensures IsDeclared(ParseOptionLine(c, id).value, id)
    {
      OptionLineShape(c, id);
    }
    forall c, id | ParsePositionalLine(c, id).Some?
      ensures IsDeclared(ParsePositionalLine(c, id).value, id)
    {
      PositionalLineShape(c, id);
    }
  }

  /** The parsers of the blocks only add declared arguments, at the end, and change
      nothing else. */
  lemma BlockLineFacts(h: Header, content: string, p: Parsers)
    requires Declares(p)
    ensures var r := BlockLine(h, content, p);
            r.(arguments := h.arguments) == h
            && (WellFormed(h, p.ids) ==> WellFormed(r, p.ids) && h.arguments <= r.arguments)
  {
  }

  /** What a comment line sets: a "Description:" line the description, a "Usage:" line
      the usage, and the first text that is no keyword line the fallback description. */
  lemma ReadCommentSets(h: Header, content: string, p: Parsers)
    requires Declares(p)
    ensures var r, key := ReadComment(h, content, p), Lower(content);
            (HasPrefix(key, "description:") ==> r.description == Trim(DropFirst(content, 12)))
            && (!HasPrefix(key, "description:") && HasPrefix(key, "usage:") ==> r.usage == Some(Trim(DropFirst(content, 6))))
            && ((h.description == [] && content != [] && !HasPrefix(key, "description:") && !HasPrefix(key, "usage:")
                 && !HasPrefix(key, "options:") && !HasPrefix(key, "arguments:")) ==> r.description == content)
  {
    BlockLineFacts(h.(description := content), content, p);
  }

  /** What a comment line keeps: it never ends the header; once there is a description
      only a "Description:" line replaces it; only a "Usage:" line sets the usage; and the
      arguments only grow, by declared ones. */
  lemma ReadCommentKeeps(h: Header, content: string, p: Parsers)
    requires Declares(p)
    ensures var r, key := ReadComment(h, content, p), Lower(content);
            r.ended == h.ended
            && (h.description != [] && !HasPrefix(key, "description:") ==> r.description == h.description)
            && (HasPrefix(key, "description:") || !HasPrefix(key, "usage:") ==> r.usage == h.usage)
            && (WellFormed(h, p.ids) ==> WellFormed(r, p.ids) && h.arguments <= r.arguments)
  {
    var key := Lower(content);
    if !HasPrefix(key, "description:") {
      var h1 := if h.description == [] && content != [] && !HasPrefix(key, "usage:")
                   && !HasPrefix(key, "options:") && !HasPrefix(key, "arguments:")
                then h.(description := content) else h;
      assert h1.arguments == h.arguments && h1.inOptions == h.inOptions && h1.inArguments == h.inArguments;
      BlockLineFacts(h1, content, p);
    }
  }

  /** A pass skips a shebang, ends the header at code, and reads any other line as a
      comment. */
  lemma ReadLineCases(h: Header, line: string, p: Parsers)
    ensures HasPrefix(Trim(line), "#!") ==> ReadLine(h, line, p) == h
    ensures IsCode(Trim(line)) ==> ReadLine(h, line, p) == h.(ended := true)
    ensures IsHeaderLine(line) ==> ReadLine(h, line, p) == ReadComment(h, CommentContent(Trim(line)), p)
  {
    var trimmed := Trim(line);
    if HasPrefix(trimmed, "#!") {
      ShebangIsComment(trimmed);
    }
  }

  /** A shebang starts with `#`, so it is no code. */
  lemma ShebangIsComment(trimmed: string)
    requires HasPrefix(trimmed, "#!")
    ensures HasPrefix(trimmed, "#") && !IsCode(trimmed)
  {
    assert trimmed[..1] == trimmed[..2][..1];
  }

  /** The loop over the lines from `i` on is a pass on line `i`, then the loop over the
      rest. */
  lemma ReadLinesStep(h: Header, lines: seq<string>, i: nat, p: Parsers)
    requires i < |lines| && !h.ended
    ensures ReadLines(h, lines[i..], p) == ReadLines(ReadLine(h, lines[i], p), lines[i + 1..], p)
  {
    assert lines[i..][1..] == lines[i + 1..];
  }

  /** Once the header has ended the loop reads nothing more. */
  lemma ReadLinesEnded(h: Header, lines: seq<string>, p: Parsers)
    requires h.ended
    ensures ReadLines(h, lines, p) == h
  {
  }

  /** The same for a whole pass: a shebang is skipped, and only code ends the header. */
  lemma ReadLineFacts(h: Header, line: string, p: Parsers)
    requires Declares(p)
    ensures var r := ReadLine(h, line, p);
            (HasPrefix(Trim(line), "#!") ==> r == h)
            && (r.ended <==> h.ended || IsCode(Trim(line)))
            && (IsCode(Trim(line)) ==> r == h.(ended := true))
            && (h.description != [] && !IsDescriptionLine(line) ==> r.description == h.description)
            && (!IsUsageLine(line) ==> r.usage == h.usage)
            && (WellFormed(h, p.ids) ==> WellFormed(r, p.ids) && h.arguments <= r.arguments)
  {
    ReadLineCases(h, line, p);
    if IsHeaderLine(line) {
      ReadCommentKeeps(h, CommentContent(Trim(line)), p);
    }
  }

  // ----- The fold -----

  /** Reading two stretches of lines is reading the first, then the second. */
  lemma {:induction false} ReadLinesAppend(h: Header, pre: seq<string>, post: seq<string>, p: Parsers)
    ensures ReadLines(h, pre + post, p) == ReadLines(ReadLines(h, pre, p), post, p)
    decreases |pre|
  {
    if pre == [] {
      assert pre + post == post;
    } else if !h.ended {
      assert (pre + post)[0] == pre[0] && (pre + post)[1..] == pre[1..] + post;
      ReadLinesAppend(ReadLine(h, pre[0], p), pre[1..], post, p);
    }
  }

  /** Reading `pre`, then `line`, then `post`. */
  lemma ReadLinesAround(h: Header, pre: seq<string>, line: string, post: seq<string>, p: Parsers)
    ensures var b := ReadLines(h, pre, p);
            ReadLines(h, pre + [line] + post, p)
            == if b.ended then b else ReadLines(ReadLine(b, line, p), post, p)
  {
    Associative(pre, [line], post);
    ReadLinesAppend(h, pre, [line] + post, p);
    ReadLinesCons(ReadLines(h, pre, p), line, post, p);
  }

  /** Reading `line` and then `post`. */
  lemma ReadLinesCons(h: Header, line: string, post: seq<string>, p: Parsers)
    ensures ReadLines(h, [line] + post, p)
            == if h.ended then h else ReadLines(ReadLine(h, line, p), post, p)
  {
    var rest := [line] + post;
    assert rest[0] == line && rest[1..] == post;
  }

  // ----- Where the header ends -----

  /** A shebang line, wherever it stands, is skipped. */
  lemma ShebangLinesIgnored(h: Header, pre: seq<string>, line: string, post: seq<string>, p: Parsers)
    requires Declares(p) && HasPrefix(Trim(line), "#!")
    ensures ReadLines(h, pre + [line] + post, p) == ReadLines(h, pre + post, p)
  {
    ReadLinesAround(h, pre, line, post, p);
    ReadLinesAppend(h, pre, post, p);
    ReadLineFacts(ReadLines(h, pre, p), line, p);
  }

  /** The first line of code ends the header: it and everything after it leave the
      description, the usage and the arguments as the lines before it made them. */
  lemma HeaderEndsAtCode(h: Header, pre: seq<string>, line: string, post: seq<string>, p: Parsers)
    requires Declares(p) && IsCode(Trim(line))
    ensures var b, r := ReadLines(h, pre, p), ReadLines(h, pre + [line] + post, p);
            r.ended && r.description == b.description && r.usage == b.usage && r.arguments == b.arguments
  {
    ReadLinesAround(h, pre, line, post, p);
    ReadLineFacts(ReadLines(h, pre, p), line, p);
  }

  /** Without code, the header never ends. */
  lemma {:induction false} CommentsNeverEnd(h: Header, lines: seq<string>, p: Parsers)
    requires Declares(p) && !h.ended
    requires forall i :: 0 <= i < |lines| ==> !IsCode(Trim(lines[i]))
    ensures !ReadLines(h, lines, p).ended
    decreases |lines|
  {
    if lines != [] {
      ReadLineFacts(h, lines[0], p);
      CommentsNeverEnd(ReadLine(h, lines[0], p), lines[1..], p);
    }
  }

  // ----- Description and usage -----

  /** Once there is a description, only a "Description:" line changes it. */
  lemma {:induction false} DescriptionChangesOnlyOnDescriptionLines(h: Header, lines: seq<string>, p: Parsers)
    requires Declares(p) && h.description != []
    requires forall i :: 0 <= i < |lines| ==> !IsDescriptionLine(lines[i])
    ensures ReadLines(h, lines, p).description == h.description
    decreases |lines|
  {
    if lines != [] && !h.ended {
      ReadLineFacts(h, lines[0], p);
      DescriptionChangesOnlyOnDescriptionLines(ReadLine(h, lines[0], p), lines[1..], p);
    }
  }

  /** A "Description:" line sets the description to the rest of the line; when that is not
      empty and no later header line starts with "Description:", it is the script's. */
  lemma LastDescriptionLineWins(h: Header, pre: seq<string>, line: string, post: seq<string>, p: Parsers)
    requires Declares(p) && !ReadLines(h, pre, p).ended && IsDescriptionLine(line)
    requires Trim(DropFirst(CommentContent(Trim(line)), 12)) != []
    requires forall i :: 0 <= i < |post| ==> !IsDescriptionLine(post[i])
    ensures ReadLines(h, pre + [line] + post, p).description == Trim(DropFirst(CommentContent(Trim(line)), 12))
  {
    ReadLinesAround(h, pre, line, post, p);
    var b := ReadLines(h, pre, p);
    ReadCommentSets(b, CommentContent(Trim(line)), p);
    assert ReadLine(b, line, p) == ReadComment(b, CommentContent(Trim(line)), p);
    DescriptionChangesOnlyOnDescriptionLines(ReadLine(b, line, p), post, p);
  }

  /** Without a description so far, the first comment with text that is no keyword line
      becomes the description, and stays it unless a "Description:" line follows. */
  lemma FirstCommentDescribes(h: Header, pre: seq<string>, line: string, post: seq<string>, p: Parsers)
    requires Declares(p) && !ReadLines(h, pre, p).ended && ReadLines(h, pre, p).description == []
    requires IsHeaderLine(line) && CommentContent(Trim(line)) != []
    requires !HasPrefix(Keyword(line), "description:") && !HasPrefix(Keyword(line), "usage:")
    requires !HasPrefix(Keyword(line), "options:") && !HasPrefix(Keyword(line), "arguments:")
    requires forall i :: 0 <= i < |post| ==> !IsDescriptionLine(post[i])
    ensures ReadLines(h, pre + [line] + post, p).description == CommentContent(Trim(line))
  {
    ReadLinesAround(h, pre, line, post, p);
    var b := ReadLines(h, pre, p);
    ReadCommentSets(b, CommentContent(Trim(line)), p);
    assert ReadLine(b, line, p) == ReadComment(b, CommentContent(Trim(line)), p);
    DescriptionChangesOnlyOnDescriptionLines(ReadLine(b, line, p), post, p);
  }

  /** Only a "Usage:" line changes the usage. */
  lemma {:induction false} UsageChangesOnlyOnUsageLines(h: Header, lines: seq<string>, p: Parsers)
    requires Declares(p)
    requires forall i :: 0 <= i < |lines| ==> !IsUsageLine(lines[i])
    ensures ReadLines(h, lines, p).usage == h.usage
    decreases |lines|
  {
    if lines != [] && !h.ended {
      ReadLineFacts(h, lines[0], p);
      UsageChangesOnlyOnUsageLines(ReadLine(h, lines[0], p), lines[1..], p);
    }
  }

  /** The last "Usage:" line of the header gives the usage, the rest of its line trimmed. */
  lemma LastUsageLineWins(h: Header, pre: seq<string>, line: string, post: seq<string>, p: Parsers)
    requires Declares(p) && !ReadLines(h, pre, p).ended && IsUsageLine(line)
    requires forall i :: 0 <= i < |post| ==> !IsUsageLine(post[i])
    ensures ReadLines(h, pre + [line] + post, p).usage == Some(Trim(DropFirst(CommentContent(Trim(line)), 6)))
  {
    ReadLinesAround(h, pre, line, post, p);
    var b := ReadLines(h, pre, p);
    ReadCommentSets(b, CommentContent(Trim(line)), p);
    assert ReadLine(b, line, p) == ReadComment(b, CommentContent(Trim(line)), p);
    UsageChangesOnlyOnUsageLines(ReadLine(b, line, p), post, p);
  }

  // ----- Arguments -----

  /** Every header the loop reaches is well formed, and holds the arguments it started
      with, in front. */
  lemma {:induction false} ReadLinesWellFormed(h: Header, lines: seq<string>, p: Parsers)
    requires Declares(p) && WellFormed(h, p.ids)
    ensures WellFormed(ReadLines(h, lines, p), p.ids)
    ensures h.arguments <= ReadLines(h, lines, p).arguments
    decreases |lines|
  {
    if lines != [] && !h.ended {
      ReadLineFacts(h, lines[0], p);
      ReadLinesWellFormed(ReadLine(h, lines[0], p), lines[1..], p);
    }
  }

  /** A header line that is no keyword line: the parser of the block it is in reads it. */
  predicate IsBlockLine(line: string) {
    var key := Keyword(line);
    IsHeaderLine(line) && !HasPrefix(key, "description:") && !HasPrefix(key, "usage:")
    && !HasPrefix(key, "options:") && !HasPrefix(key, "arguments:")
  }

  /** The text each line hands to the parser of its block. */
  function Contents(lines: seq<string>): seq<string>
    decreases |lines|
  {
    if lines == [] then [] else [CommentContent(Trim(lines[0]))] + Contents(lines[1..])
  }

  /** The parser of the options block, or of the arguments block. */
  function BlockParser(p: Parsers, options: bool): LineParser {
    if options then p.option else p.positional
  }

  /** What a block's parser makes of one line's text: its argument, or nothing. */
  function Parsed(parse: LineParser, content: string, id: Uuid): seq<ScriptArgument> {
    match parse(content, id)
    case Some(arg) => [arg]
    case None => []
  }

  /** What a block's parser makes of the texts of its lines: every line that parses gives
      its argument, in order, a line that does not is dropped, and the argument of the
      i-th line that parses draws `ids(k + i)`. */
  function BlockArguments(contents: seq<string>, parse: LineParser, ids: nat -> Uuid, k: nat): seq<ScriptArgument>
    decreases |contents|
  {
    if contents == [] then []
    else
      var first := Parsed(parse, contents[0], ids(k));
      first + BlockArguments(contents[1..], parse, ids, k + |first|)
  }

  /** The arguments read after a block's first line, then after the rest of it. */
  lemma BlockArgumentsRejoin(r: seq<ScriptArgument>, before: seq<ScriptArgument>, after: seq<ScriptArgument>,
                             contents: seq<string>, parse: LineParser, ids: nat -> Uuid)
    requires contents != []
    requires after == before + Parsed(parse, contents[0], ids(|before|))
    requires r == after + BlockArguments(contents[1..], parse, ids, |after|)
    ensures r == before + BlockArguments(contents, parse, ids, |before|)
  {
    var first := Parsed(parse, contents[0], ids(|before|));
    var rest := BlockArguments(contents[1..], parse, ids, |after|);
    Associative(before, first, rest);
  }

  lemma Associative<T>(a: seq<T>, b: seq<T>, c: seq<T>)
    ensures (a + b) + c == a + (b + c)
  {
  }

  /** A line of a block appends what the block's parser makes of it, if anything, and
      changes nothing else; outside the blocks it changes nothing. */
  lemma BlockLineAppendsParse(h: Header, content: string, p: Parsers)
    requires !(h.inOptions && h.inArguments)
    ensures h.inOptions ==>
              BlockLine(h, content, p) == h.(arguments := h.arguments + Parsed(p.option, content, p.ids(|h.arguments|)))
    ensures h.inArguments ==>
              BlockLine(h, content, p) == h.(arguments := h.arguments + Parsed(p.positional, content, p.ids(|h.arguments|)))
    ensures !h.inOptions && !h.inArguments ==> BlockLine(h, content, p) == h
  {
  }

  /** A pass on a line of the block the loop is in appends what the block's parser makes
      of the line's text, and stays in that block. */
  lemma BlockLineRead(h: Header, line: string, p: Parsers, options: bool)
    requires IsBlockLine(line) && !h.ended && h.inOptions == options && h.inArguments == !options
    ensures var r := ReadLine(h, line, p);
            !r.ended && r.inOptions == options && r.inArguments == !options
            && r.arguments == h.arguments + Parsed(BlockParser(p, options), CommentContent(Trim(line)), p.ids(|h.arguments|))
  {
    var content := CommentContent(Trim(line));
    ReadLineCases(h, line, p);
    var key := Lower(content);
    assert key == Keyword(line);
    var h1 := if h.description == [] && content != [] then h.(description := content) else h;
    assert ReadComment(h, content, p) == BlockLine(h1, content, p);
    BlockLineAppendsParse(h1, content, p);
  }

  /** Inside a block, a run of lines that are no keyword lines adds exactly what the
      block's parser makes of them, in order, drawing the ids that follow the arguments
      already read. */
  lemma {:induction false} BlockLinesRead(h: Header, lines: seq<string>, p: Parsers, options: bool)
    requires !h.ended && h.inOptions == options && h.inArguments == !options
    requires forall i :: 0 <= i < |lines| ==> IsBlockLine(lines[i])
    ensures ReadLines(h, lines, p).arguments
            == h.arguments + BlockArguments(Contents(lines), BlockParser(p, options), p.ids, |h.arguments|)
    decreases |lines|
  {
    if lines != [] {
      var parse := BlockParser(p, options);
      var h' := ReadLine(h, lines[0], p);
      var c := Contents(lines);
      assert c == [CommentContent(Trim(lines[0]))] + Contents(lines[1..]);
      assert c[0] == CommentContent(Trim(lines[0])) && c[1..] == Contents(lines[1..]);
      BlockLineRead(h, lines[0], p, options);
      BlockLinesRead(h', lines[1..], p, options);
      BlockArgumentsRejoin(ReadLines(h', lines[1..], p).arguments, h.arguments, h'.arguments, c, parse, p.ids);
      assert ReadLines(h, lines, p) == ReadLines(h', lines[1..], p);
    }
  }

  /** An "Options:" (or "Arguments:") line starts its block with the arguments read so
      far kept. */
  lemma BlockKeywordRead(h: Header, line: string, p: Parsers, options: bool)
    requires IsHeaderLine(line) && !h.ended
    requires HasPrefix(Keyword(line), if options then "options:" else "arguments:")
    ensures var r := ReadLine(h, line, p);
            !r.ended && r.inOptions == options && r.inArguments == !options && r.arguments == h.arguments
  {
    ReadLineCases(h, line, p);
    KeywordsDiffer(Keyword(line));
  }

  /** An "Options:" line is no other keyword line, and neither is an "Arguments:" line. */
  lemma KeywordsDiffer(key: string)
    ensures HasPrefix(key, "options:") ==>
              !HasPrefix(key, "description:") && !HasPrefix(key, "usage:") && !HasPrefix(key, "arguments:")
    ensures HasPrefix(key, "arguments:") ==> !HasPrefix(key, "description:") && !HasPrefix(key, "usage:")
  {
    if key != [] {
      assert HasPrefix(key, "options:") ==> key[0] == 'o';
      assert HasPrefix(key, "arguments:") ==> key[0] == 'a';
      assert HasPrefix(key, "description:") ==> key[0] == 'd';
      assert HasPrefix(key, "usage:") ==> key[0] == 'u';
    }
  }

  /** A header that opens a block and then lists its lines declares exactly the arguments
      the block's parser makes of those lines, in order, drawing ids 0, 1, and so on: a
      line that does not parse is dropped. */
  lemma BlockHeaderArguments(keywordLine: string, block: seq<string>, p: Parsers, options: bool)
    requires IsHeaderLine(keywordLine)
    requires HasPrefix(Keyword(keywordLine), if options then "options:" else "arguments:")
    requires forall i :: 0 <= i < |block| ==> IsBlockLine(block[i])
    ensures ReadLines(Fresh(), [keywordLine] + block, p).arguments
            == BlockArguments(Contents(block), BlockParser(p, options), p.ids, 0)
  {
    ReadLinesCons(Fresh(), keywordLine, block, p);
    BlockKeywordRead(Fresh(), keywordLine, p, options);
    BlockLinesRead(ReadLine(Fresh(), keywordLine, p), block, p, options);
  }

  /** The same for a script: a file that opens its options block and lists its option
      lines declares exactly what `parseOptionLine` makes of them, in order; a file that
      opens its arguments block likewise with `parsePositionalArgumentLine`. */
  lemma ScriptDeclaresBlockArguments(id: Uuid, scriptPath: string, text: string, ids: nat -> Uuid,
                                     keywordLine: string, block: seq<string>, options: bool)
    requires SplitLines(text) == [keywordLine] + block
    requires IsHeaderLine(keywordLine) && HasPrefix(Keyword(keywordLine), if options then "options:" else "arguments:")
    requires forall i :: 0 <= i < |block| ==> IsBlockLine(block[i])
    ensures ParsedScript(id, scriptPath, Some(text), ids).arguments
            == BlockArguments(Contents(block), BlockParser(Source(ids), options), ids, 0)
  {
    ParsedArgumentsRead(id, scriptPath, text, ids);
    BlockHeaderArguments(keywordLine, block, Source(ids), options);
  }

  /** From any header state that has not ended, a keyword line and its block lines append
      the block's parsed arguments, in order, drawing the ids after those already there. */
  lemma BlockHeaderArgumentsFrom(h: Header, keywordLine: string, block: seq<string>, p: Parsers, options: bool)
    requires !h.ended && IsHeaderLine(keywordLine)
    requires HasPrefix(Keyword(keywordLine), if options then "options:" else "arguments:")
    requires forall i :: 0 <= i < |block| ==> IsBlockLine(block[i])
    ensures ReadLines(h, [keywordLine] + block, p).arguments
            == h.arguments + BlockArguments(Contents(block), BlockParser(p, options), p.ids, |h.arguments|)
  {
    ReadLinesCons(h, keywordLine, block, p);
    BlockKeywordRead(h, keywordLine, p, options);
    BlockLinesRead(ReadLine(h, keywordLine, p), block, p, options);
  }

  /** A script whose lines are a stretch `pre` without code, an "Options:" or "Arguments:"
      line with its block, a line of code and anything after it declares the arguments of
      `pre` followed by what the block's parser makes of the block's lines, in order,
      drawing the ids after those of `pre`; nothing after the code line counts. */
  lemma ScriptArgumentsAroundBlock(id: Uuid, scriptPath: string, text: string, ids: nat -> Uuid,
                                   pre: seq<string>, keywordLine: string, block: seq<string>,
                                   code: string, post: seq<string>, options: bool)
    requires SplitLines(text) == pre + [keywordLine] + block + [code] + post
    requires forall i :: 0 <= i < |pre| ==> !IsCode(Trim(pre[i]))
    requires IsHeaderLine(keywordLine) && HasPrefix(Keyword(keywordLine), if options then "options:" else "arguments:")
    requires forall i :: 0 <= i < |block| ==> IsBlockLine(block[i])
    requires IsCode(Trim(code))
    ensures var before := ReadLines(Fresh(), pre, Source(ids)).arguments;
            ParsedScript(id, scriptPath, Some(text), ids).arguments
            == before + BlockArguments(Contents(block), BlockParser(Source(ids), options), ids, |before|)
  {
    SourceDeclares(ids);
    ParsedArgumentsRead(id, scriptPath, text, ids);
    HeaderArgumentsAroundBlock(pre, keywordLine, block, code, post, Source(ids), options);
  }

  /** The same for the header fold over any line parsers that declare what they make. */
  lemma HeaderArgumentsAroundBlock(pre: seq<string>, keywordLine: string, block: seq<string>,
                                   code: string, post: seq<string>, p: Parsers, options: bool)
    requires Declares(p)
    requires forall i :: 0 <= i < |pre| ==> !IsCode(Trim(pre[i]))
    requires IsHeaderLine(keywordLine) && HasPrefix(Keyword(keywordLine), if options then "options:" else "arguments:")
    requires forall i :: 0 <= i < |block| ==> IsBlockLine(block[i])
    requires IsCode(Trim(code))
    ensures var before := ReadLines(Fresh(), pre, p).arguments;
            ReadLines(Fresh(), pre + [keywordLine] + block + [code] + post, p).arguments
            == before + BlockArguments(Contents(block), BlockParser(p, options), p.ids, |before|)
  {
    var head := pre + [keywordLine] + block;
    HeaderEndsAtCode(Fresh(), head, code, post, p);
    Associative(pre, [keywordLine], block);
    ReadLinesAppend(Fresh(), pre, [keywordLine] + block, p);
    CommentsNeverEnd(Fresh(), pre, p);
    BlockHeaderArgumentsFrom(ReadLines(Fresh(), pre, p), keywordLine, block, p, options);
  }

  lemma ParsedArgumentsRead(id: Uuid, scriptPath: string, text: string, ids: nat -> Uuid)
    ensures ParsedScript(id, scriptPath, Some(text), ids).arguments == ReadLines(Fresh(), SplitLines(text), Source(ids)).arguments
  {
  }

  // ----- The parsed script -----

  /** A script that cannot be read is named after its file and declares nothing. */
  lemma UnreadableScriptIsBare(id: Uuid, scriptPath: string, ids: nat -> Uuid)
    ensures var s := ParsedScript(id, scriptPath, None, ids);
            s.id == id && s.path == scriptPath && s.name == LastPathComponent(scriptPath)
            && s.description == "" && s.usage.None? && s.arguments == []
  {
  }

  /** Every parsed script is named after its file, and its k-th argument draws `ids(k)`,
      starts disabled and empty, and is a positional argument without flags or an option
      with one, so that the run history records exactly the flags the command line
      passes. */
  lemma ParsedArgumentsDeclared(id: Uuid, scriptPath: string, content: Option<string>, ids: nat -> Uuid)
    ensures var s := ParsedScript(id, scriptPath, content, ids);
            s.id == id && s.path == scriptPath && s.name == LastPathComponent(scriptPath)
            && s.customLabel.None? && s.lastRun.None?
            && (forall k :: 0 <= k < |s.arguments| ==> IsDeclared(s.arguments[k], ids(k)))
            && (forall k :: 0 <= k < |s.arguments| && s.arguments[k].isPositional ==> FlagForCommand(s.arguments[k]).None?)
  {
    if content.Some? {
      SourceDeclares(ids);
      ReadLinesWellFormed(Fresh(), SplitLines(content.value), Source(ids));
    }
  }
}
