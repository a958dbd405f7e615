/** The run history: the most recent script runs, newest first, kept under one defaults
    key (ScriptletRunner/Models/RunHistory.swift). */
module History {
  import opened Base
  import opened Arguments
  import opened Command
  import opened Collections

  datatype RunHistoryEntry = RunHistoryEntry(
    id: Uuid,
    scriptPath: string,
    scriptName: string,
    runDate: Timestamp,
    exitCode: Option<Int32>,
    arguments: seq<string>)

  /** The initialiser: a fresh `UUID()` and the current `Date()`, given here as `id` and
      `now`, with no exit code and no arguments by default. */
  function NewEntry(
    id: Uuid, now: Timestamp, scriptPath: string, scriptName: string,
    exitCode: Option<Int32> := None, arguments: seq<string> := []): (e: RunHistoryEntry)
    ensures e.id == id && e.runDate == now
    ensures e.scriptPath == scriptPath && e.scriptName == scriptName
    ensures e.exitCode == exitCode && e.arguments == arguments
  {
    RunHistoryEntry(id, scriptPath, scriptName, now, exitCode, arguments)
  }

  /** `statusIcon`: a question mark until the exit code is known, a check mark for 0
      and a cross for anything else. */
  function StatusIcon(e: RunHistoryEntry): (icon: string)
    ensures e.exitCode.None? <==> icon == "questionmark.circle"
    ensures icon == "checkmark.circle.fill" <==> e.exitCode == Some(0)
    ensures icon == "xmark.circle.fill" <==> e.exitCode.Some? && e.exitCode.value != 0
  {
    match e.exitCode
    case None => "questionmark.circle"
    case Some(code) => if code == 0 then "checkmark.circle.fill" else "xmark.circle.fill"
  }

  /** The largest number of entries kept. */
  const MaxHistoryEntries: nat := 50

  /** What the history remembers of one argument: the flag, followed by a space and the
      value (unquoted) when it takes one, for an enabled argument with a flag. */
  function ArgumentString(a: ScriptArgument): Option<string> {
    if !a.isEnabled then None
    else match FlagForCommand(a)
      case Some(flag) =>
        if a.requiresValue && a.value != "" then Some(flag + " " + a.value)
        else if !a.requiresValue then Some(flag)
        else None
      case None => None
  }

  /** The `compactMap` over the arguments. */
  function ArgumentStrings(args: seq<ScriptArgument>): seq<string> {
    if args == [] then []
    else ArgumentStrings(args[..|args| - 1])
         + (match ArgumentString(args[|args| - 1]) case Some(t) => [t] case None => [])
  }

  /** How the history writes down an argument the command line passes as a flag. */
  function Recorded(a: ScriptArgument): (t: string)
    requires PassesFlag(a)
    ensures a.requiresValue ==> t == FlagWords(a)[0] + " " + a.value
    ensures !a.requiresValue ==> t == FlagWords(a)[0]
  {
    ArgumentString(a).value
  }

  /** The arguments whose flag the command line passes, in order. */
  function PassedFlags(args: seq<ScriptArgument>): (r: seq<ScriptArgument>)
    ensures forall k :: 0 <= k < |r| ==> PassesFlag(r[k])
    ensures r == Filter(args, PassesFlag)
  {
    if args == [] then []
    else
      var init, last := args[..|args| - 1], args[|args| - 1];
      assert args == init + [last];
      FilterAppend(init, [last], PassesFlag);
      PassedFlags(init) + (if PassesFlag(last) then [last] else [])
  }

  /** The passed flags are exactly the arguments that pass one, in their order. */
  lemma PassedFlagsAreThePassingOnes(args: seq<ScriptArgument>)
    ensures forall a :: a in PassedFlags(args) <==> a in args && PassesFlag(a)
    ensures Subsequence(PassedFlags(args), args)
  {
    forall a | true
      ensures a in PassedFlags(args) <==> a in args && PassesFlag(a)
    {
      FilterKeeps(args, PassesFlag, a);
    }
    FilterIsSubsequence(args, PassesFlag);
  }

  /** For arguments whose positional ones carry no flag (as the header parser produces
      them), the history records exactly the flags the command line passes, one string
      each, in the same order. */
  lemma {:induction false} HistoryRecordsPassedFlags(args: seq<ScriptArgument>)
    requires forall k :: 0 <= k < |args| && args[k].isPositional ==> FlagForCommand(args[k]).None?
    ensures |ArgumentStrings(args)| == |PassedFlags(args)|
    ensures forall k :: 0 <= k < |PassedFlags(args)| ==> ArgumentStrings(args)[k] == Recorded(PassedFlags(args)[k])
    decreases |args|
  {
    if args != [] {
      var init, last := args[..|args| - 1], args[|args| - 1];
      HistoryRecordsPassedFlags(init);
      assert ArgumentString(last).Some? <==> PassesFlag(last);
    }
  }

  /** A new entry goes first, and the list is cut to the 50 most recent. */
  function Added(history: seq<RunHistoryEntry>, e: RunHistoryEntry): (r: seq<RunHistoryEntry>)
    ensures |r| == if |history| < MaxHistoryEntries then |history| + 1 else MaxHistoryEntries
    ensures r[0] == e
    ensures r[1..] == history[..|r| - 1]
  {
    var h := [e] + history;
    if |h| > MaxHistoryEntries then h[..MaxHistoryEntries] else h
  }

  /** The head entry replaced by a new one with the exit code, a fresh id and the current
      date, and the path, name and arguments of the old head; the rest is untouched. */
  function WithHeadExitCode(history: seq<RunHistoryEntry>, code: Int32, id: Uuid, now: Timestamp): (r: seq<RunHistoryEntry>)
    ensures history == [] ==> r == []
    ensures history != [] ==>
              |r| == |history| && r[1..] == history[1..] && r[0].exitCode == Some(code)
              && r[0].scriptPath == history[0].scriptPath && r[0].scriptName == history[0].scriptName
              && r[0].arguments == history[0].arguments && r[0].id == id && r[0].runDate == now
  {
    if history == [] then []
    else
      var last := history[0];
      [NewEntry(id, now, last.scriptPath, last.scriptName, Some(code), last.arguments)] + history[1..]
  }

  /** Recording a run and then its exit code leaves the run's entry first, with that
      exit code, and everything older as adding it left it. */
  lemma ExitCodeLandsOnNewestRun(history: seq<RunHistoryEntry>, e: RunHistoryEntry, code: Int32, id: Uuid, now: Timestamp)
    ensures var r := WithHeadExitCode(Added(history, e), code, id, now);
            r[0].scriptPath == e.scriptPath && r[0].scriptName == e.scriptName
            && r[0].arguments == e.arguments && r[0].exitCode == Some(code)
            && r[1..] == Added(history, e)[1..]
  {
  }

  /** `RunHistoryManager`: the defaults key "runHistory" is the field `stored`, None when
      it is missing or does not decode. */
  class RunHistoryManager {
    var stored: Option<seq<RunHistoryEntry>>

    constructor(initial: Option<seq<RunHistoryEntry>>)
      ensures stored == initial
    {
      stored := initial;
    }

    /** `getHistory`: the saved list, or an empty one. */
    function GetHistory(): seq<RunHistoryEntry>
      reads this
    {
      stored.GetOr([])
    }

    /** `addEntry`: a new entry for the run, with the arguments' history strings, goes in
        front and the list is cut to 50. */
    method AddEntry(scriptPath: string, scriptName: string, arguments: seq<ScriptArgument>, id: Uuid, now: Timestamp)
      modifies this
      ensures stored == Some(Added(old(GetHistory()), NewEntry(id, now, scriptPath, scriptName, None, ArgumentStrings(arguments))))
    {
      var history := GetHistory();
      var entry := NewEntry(id, now, scriptPath, scriptName, arguments := ArgumentStrings(arguments));
      history := [entry] + history;
      if |history| > MaxHistoryEntries {
        history := history[..MaxHistoryEntries];
      }
      stored := Some(history);
    }

    /** `updateLastEntryExitCode`: nothing when the history is empty; otherwise the head is
        rebuilt with the exit code. */
    method UpdateLastEntryExitCode(exitCode: Int32, id: Uuid, now: Timestamp)
      modifies this
      ensures old(GetHistory()) == [] ==> stored == old(stored)
      ensures old(GetHistory()) != [] ==> stored == Some(WithHeadExitCode(old(GetHistory()), exitCode, id, now))
    {
      var history := GetHistory();
      if history == [] {
        return;
      }
      var lastEntry := history[0];
      history := history[0 := NewEntry(id, now, lastEntry.scriptPath, lastEntry.scriptName, Some(exitCode), lastEntry.arguments)];
      assert history == [history[0]] + history[1..];
      stored := Some(history);
    }

    /** `clearHistory` removes the key. */
    method ClearHistory()
      modifies this
      ensures stored.None? && GetHistory() == []
    {
      stored := None;
    }
  }
}
