/** The bash command line both runners build for a script and its arguments
    (ScriptletRunner/Services/ChainRunner.swift and ScriptRunner.swift compose it the same
    way, so it is defined once here). */
module Command {
  import opened Base
  import opened Arguments

  /** The shell every script is handed to. */
  const Shell: string := "/bin/bash"

  /** What a `Process` is configured with before it is launched. `environment` is None
      when the child inherits the app's environment. */
  datatype Invocation = Invocation(
    executable: string,
    arguments: seq<string>,
    workingDirectory: string,
    environment: Option<map<string, string>>)

  function Quoted(s: string): string {
    "\"" + s + "\""
  }

  /** An enabled, non-positional argument with a flag puts that flag on the line, unless
      it takes a value and the value is empty. */
  predicate PassesFlag(a: ScriptArgument) {
    a.isEnabled && !a.isPositional && FlagForCommand(a).Some? && (a.requiresValue ==> a.value != "")
  }

  /** An enabled positional argument puts its value on the line when it has one. */
  predicate PassesValue(a: ScriptArgument) {
    a.isEnabled && a.isPositional && a.value != ""
  }

  /** The text the flag loop appends for one argument. */
  function FlagFragment(a: ScriptArgument): string {
    if a.isEnabled && !a.isPositional then
      match FlagForCommand(a)
      case Some(flag) =>
        if a.requiresValue && a.value != "" then " " + flag + " " + Quoted(a.value)
        else if !a.requiresValue then " " + flag
        else ""
      case None => ""
    else ""
  }

  /** The text the positional loop appends for one argument. */
  function PositionalFragment(a: ScriptArgument): string {
    if a.isEnabled && a.isPositional && a.value != "" then " " + Quoted(a.value) else ""
  }

  /** Everything the flag loop appends, for the arguments in order. */
  function FlagPart(args: seq<ScriptArgument>): string {
    if args == [] then "" else FlagPart(args[..|args| - 1]) + FlagFragment(args[|args| - 1])
  }

  /** Everything the positional loop appends, for the arguments in order. */
  function PositionalPart(args: seq<ScriptArgument>): string {
    if args == [] then "" else PositionalPart(args[..|args| - 1]) + PositionalFragment(args[|args| - 1])
  }

  /** The script command: the quoted path, then the flags, then the positional values. */
  function CommandLine(path: string, args: seq<ScriptArgument>): string {
    Quoted(path) + FlagPart(args) + PositionalPart(args)
  }

  /** The process a runner launches: bash running the script command in the script's
      directory. */
  function ScriptInvocation(
    path: string, directory: string, args: seq<ScriptArgument>,
    environment: Option<map<string, string>>): Invocation
  {
    Invocation(Shell, ["-c", CommandLine(path, args)], directory, environment)
  }

  /** The two loops that build the script command: first the enabled non-positional
      arguments, then the enabled positional ones, each in argument order. */
  method ComposeCommand(path: string, args: seq<ScriptArgument>) returns (command: string)
    ensures command == CommandLine(path, args)
  {
    command := Quoted(path);
    for i := 0 to |args|
      invariant command == Quoted(path) + FlagPart(args[..i])
    {
      var arg := args[i];
      ghost var before := command;
      if arg.isEnabled && !arg.isPositional {
        var flag := FlagForCommand(arg);
        if flag.Some? {
          if arg.requiresValue && arg.value != "" {
            command := command + (" " + flag.value + " " + Quoted(arg.value));
          } else if !arg.requiresValue {
            command := command + (" " + flag.value);
          }
        }
      }
      assert command == before + FlagFragment(arg);
      FlagPartExtends(Quoted(path), args, i);
    }
    assert args[..|args|] == args;
    ghost var withFlags := command;
    for i := 0 to |args|
      invariant command == withFlags + PositionalPart(args[..i])
    {
      var arg := args[i];
      ghost var before := command;
      if arg.isEnabled && arg.isPositional {
        if arg.value != "" {
          command := command + (" " + Quoted(arg.value));
        }
      }
      assert command == before + PositionalFragment(arg);
      PositionalPartExtends(withFlags, args, i);
    }
  }

  lemma FlagPartExtends(prefix: string, args: seq<ScriptArgument>, i: nat)
    requires i < |args|
    ensures prefix + FlagPart(args[..i + 1]) == prefix + FlagPart(args[..i]) + FlagFragment(args[i])
  {
    assert args[..i + 1][..i] == args[..i];
  }

  lemma PositionalPartExtends(prefix: string, args: seq<ScriptArgument>, i: nat)
    requires i < |args|
    ensures prefix + PositionalPart(args[..i + 1]) == prefix + PositionalPart(args[..i]) + PositionalFragment(args[i])
  {
    assert args[..i + 1][..i] == args[..i];
  }

  // ----- The command line as a sequence of words -----

  /** The words one passed flag contributes: the flag, then its quoted value when it
      takes one. */
  function FlagWords(a: ScriptArgument): seq<string>
    requires PassesFlag(a)
  {
    var flag := FlagForCommand(a).value;
    if a.requiresValue then [flag, Quoted(a.value)] else [flag]
  }

  /** The flag words of all passed flags, in argument order. */
  function FlagWordsOf(args: seq<ScriptArgument>): seq<string> {
    if args == [] then []
    else FlagWordsOf(args[..|args| - 1])
         + (if PassesFlag(args[|args| - 1]) then FlagWords(args[|args| - 1]) else [])
  }

  /** The quoted values of all passed positional arguments, in argument order. */
  function ValueWordsOf(args: seq<ScriptArgument>): seq<string> {
    if args == [] then []
    else ValueWordsOf(args[..|args| - 1])
         + (if PassesValue(args[|args| - 1]) then [Quoted(args[|args| - 1].value)] else [])
  }

  /** Words separated, and preceded, by single spaces. */
  function Join(words: seq<string>): string {
    if words == [] then "" else Join(words[..|words| - 1]) + " " + words[|words| - 1]
  }

  lemma {:induction false} JoinAppend(a: seq<string>, b: seq<string>)
    ensures Join(a + b) == Join(a) + Join(b)
    decreases |b|
  {
    if b == [] {
      assert a + b == a;
    } else {
      var b' := b[..|b| - 1];
      assert (a + b)[..|a + b| - 1] == a + b';
      JoinAppend(a, b');
    }
  }

  lemma FragmentIsWords(a: ScriptArgument)
    ensures FlagFragment(a) == Join(if PassesFlag(a) then FlagWords(a) else [])
  {
    if PassesFlag(a) {
      var flag := FlagForCommand(a).value;
      assert [flag][..0] == [];
      assert Join([flag]) == " " + flag;
      if a.requiresValue {
        assert [flag, Quoted(a.value)][..1] == [flag];
        assert Join([flag, Quoted(a.value)]) == " " + flag + " " + Quoted(a.value);
      }
    }
  }

  lemma {:induction false} FlagPartIsWords(args: seq<ScriptArgument>)
    ensures FlagPart(args) == Join(FlagWordsOf(args))
    decreases |args|
  {
    if args != [] {
      var init, last := args[..|args| - 1], args[|args| - 1];
      FlagPartIsWords(init);
      FragmentIsWords(last);
      JoinAppend(FlagWordsOf(init), if PassesFlag(last) then FlagWords(last) else []);
    }
  }

  lemma {:induction false} PositionalPartIsWords(args: seq<ScriptArgument>)
    ensures PositionalPart(args) == Join(ValueWordsOf(args))
    decreases |args|
  {
    if args != [] {
      var init, last := args[..|args| - 1], args[|args| - 1];
      PositionalPartIsWords(init);
      var tail := if PassesValue(last) then [Quoted(last.value)] else [];
      JoinAppend(ValueWordsOf(init), tail);
      assert tail == [] || tail[..0] == [];
    }
  }

  /** The script command is the quoted path followed by its words: every passed flag, in
      argument order and each with its quoted value when it takes one, and after all
      flags the quoted value of every passed positional argument, in argument order. */
  lemma CommandLineWords(path: string, args: seq<ScriptArgument>)
    ensures CommandLine(path, args) == Quoted(path) + Join(FlagWordsOf(args) + ValueWordsOf(args))
  {
    FlagPartIsWords(args);
    PositionalPartIsWords(args);
    JoinAppend(FlagWordsOf(args), ValueWordsOf(args));
  }

  lemma {:induction false} FlagWordsAppend(x: seq<ScriptArgument>, y: seq<ScriptArgument>)
    ensures FlagWordsOf(x + y) == FlagWordsOf(x) + FlagWordsOf(y)
    ensures ValueWordsOf(x + y) == ValueWordsOf(x) + ValueWordsOf(y)
    decreases |y|
  {
    if y == [] {
      assert x + y == x;
    } else {
      var y' := y[..|y| - 1];
      assert (x + y)[..|x + y| - 1] == x + y';
      assert (x + y)[|x + y| - 1] == y[|y| - 1];
      FlagWordsAppend(x, y');
    }
  }

  /** An argument that passes neither a flag nor a value (disabled, flagless, or missing
      the value it needs) leaves the command exactly as if it were not there. */
  lemma ElidedArgument(path: string, pre: seq<ScriptArgument>, a: ScriptArgument, post: seq<ScriptArgument>)
    requires !PassesFlag(a) && !PassesValue(a)
    ensures CommandLine(path, pre + [a] + post) == CommandLine(path, pre + post)
  {
    FlagWordsAppend(pre, [a]);
    FlagWordsAppend(pre + [a], post);
    FlagWordsAppend(pre, post);
    assert FlagWordsOf([a]) == [] && ValueWordsOf([a]) == [] by {
      assert [a][..0] == [];
    }
    assert FlagWordsOf(pre + [a] + post) == FlagWordsOf(pre + post);
    assert ValueWordsOf(pre + [a] + post) == ValueWordsOf(pre + post);
    CommandLineWords(path, pre + [a] + post);
    CommandLineWords(path, pre + post);
  }

  /** With no enabled argument the command is just the quoted script path. */
  lemma {:induction false} CommandWithoutEnabledArguments(path: string, args: seq<ScriptArgument>)
    requires forall k :: 0 <= k < |args| ==> !args[k].isEnabled
    ensures CommandLine(path, args) == Quoted(path)
    decreases |args|
  {
    if args != [] {
      CommandWithoutEnabledArguments(path, args[..|args| - 1]);
    }
  }
}
