# Scriptlet Runner, modelled in Dafny

Scriptlet Runner is a macOS app that finds the shell scripts in a set of folders and runs them. A
script's leading comment block gives it a description, a usage line and a list of options and
positional arguments. The user switches arguments on and fills in values, the app builds a bash
command line, runs it and shows its output as plain text. Scripts can also be strung together into
chains. A chain runs its steps one after another and stops at the first failing step, unless that
step continues on error. The app keeps a history of the last 50 runs.

This project models the app's logic:

- the models: scripts, arguments, chains and steps, scan locations and run history;
- the script header parser and its three line patterns, written out by hand;
- the folder scanner;
- the command-line builder;
- the two runners, as classes whose fields change event by event;
- the ANSI escape-code parser and `stripANSI` (ScriptletRunner/Services/ANSIParser.swift), which
  no view of the app calls;
- the state handling of the views: the main window, the chain editor, the script and chain lists,
  and the settings sheet.

Each module follows one source file. The imperative parts are classes. Each class method is proved
to take the object to the state a pure transition function describes. Every transition is proved
to keep the runner invariant. Lemmas then state what the source promises about those functions.
Examples:

- a started chain writes its banner first;
- a failing step halts the chain with the later steps still pending;
- an all-successful chain ends with "All steps succeeded!";
- the script command holds exactly the passed flags, then the positional values;
- a scan returns exactly the parsed shell scripts of the enabled, existing folders, sorted by name;
- saving a chain twice is saving it once.

Modules:

| module | file | models |
|---|---|---|
| `Base`, `Text`, `Paths` | base.dfy, text.dfy, paths.dfy | Optional, UUIDs and dates as values; the Foundation string and URL operations the app uses |
| `Scripts`, `Arguments`, `Chains`, `Locations`, `History` | scripts.dfy, arguments.dfy, chains.dfy, locations.dfy, history.dfy | the files under `Models/` |
| `Command` | command.dfy | the argument loops of `ScriptRunner.run` and `ChainRunner.runScript` |
| `ScriptRunSpec`, `ScriptRun` | script_run_spec.dfy, script_run.dfy | `Services/ScriptRunner.swift` |
| `ChainRunSpec`, `ChainRun`, `ChainRunProperties` | chain_run_spec.dfy, chain_run.dfy, chain_run_properties.dfy | `Services/ChainRunner.swift` |
| `HeaderLines`, `ScriptParser` | header_lines.dfy, script_parser.dfy | `Services/ScriptParser.swift` |
| `ScriptScanner` | scanner.dfy | `Services/ScriptScanner.swift` |
| `AnsiParser` | ansi.dfy | `Services/ANSIParser.swift` |
| `Collections` | collections.dfy | the Swift array operations the views use (`firstIndex`, `removeAll(where:)`, `remove(atOffsets:)`, `move(fromOffsets:toOffset:)`) |
| `ScriptList`, `ChainList`, `Settings`, `Content`, `ChainEditor` | script_list.dfy, chain_list.dfy, settings.dfy, content.dfy, chain_editor.dfy | the view files of the same names |

Things the app gets from outside are parameters of the model:

- the filesystem: a `Disk` of existing folders and enumerator listings, and per file its
  extension, executable bit and first bytes;
- fresh `UUID()` values (`id`, `ids`, `draw`) and `Date()` values (`now`);
- the process environment, the home directory and the user name;
- the error a process launch throws;
- the exit status of each process;
- the output chunks the pipes deliver.

## Model

| member | source | states |
|---|---|---|
| Text.Trim | ScriptletRunner/Services/ScriptParser.swift:24 | the result is no longer than the input, and is empty or starts and ends with a character that is not whitespace (tab or space separator) |
| Text.TrimIsMiddle | ScriptletRunner/Services/ScriptParser.swift:24 | the trimming is a slice `s[i..j]` of the input with only whitespace before `i` and from `j` on |
| Text.TrimmedIsFixed | ScriptletRunner/Services/ScriptParser.swift:108 | a string whose ends are not whitespace trims to itself, so trimming twice is trimming once |
| Text.Lower | ScriptletRunner/Services/ScriptParser.swift:46 | lowercasing keeps the length and maps each character on its own |
| Text.ContainsIffOccurs | ScriptletRunner/Views/ScriptListView.swift:9-17 | the substring search succeeds exactly when the needle occurs at some offset |
| Text.LexLessIrreflexive | ScriptletRunner/Services/ScriptScanner.swift:15 | no name sorts before itself |
| Text.LexLessTransitive | ScriptletRunner/Services/ScriptScanner.swift:15 | the name order is transitive |
| Text.LexLessTotal | ScriptletRunner/Services/ScriptScanner.swift:15 | of two different names one sorts before the other |
| Text.NatToString | ScriptletRunner/Services/ChainRunner.swift:37-38 | a non-empty run of decimal digits whose value is the number, without a leading zero |
| Text.IntToString | ScriptletRunner/Services/ChainRunner.swift:103-119 | a leading minus exactly for a negative number; the digits after it have the number's absolute value, without a leading zero |
| Text.SplitLines | ScriptletRunner/Services/ScriptParser.swift:13 | there is always at least one line, and no line holds a newline character |
| Text.SplitLinesRoundTrip | ScriptletRunner/Services/ScriptParser.swift:13 | there is one line more than the text has newline characters, and joining the lines with those characters in order gives back the text |
| Paths.LastPathComponent | ScriptletRunner/Models/Script.swift:24 | the file name holds no slash unless it is the root |
| Paths.PathExtension | ScriptletRunner/Services/ScriptScanner.swift:50 | the extension is that of the path's last component |
| Paths.Extension | ScriptletRunner/Services/ScriptScanner.swift:50 | the extension holds no dot; when the name has a dot after its first character, the name ends with a dot and the extension; otherwise the extension is empty |
| Paths.ShellScriptExtension | ScriptletRunner/Services/ScriptScanner.swift:50 | a path whose file name ends in `.sh` after at least one character has the extension "sh" |
| Paths.DirectoryAndNameRebuildPath | ScriptletRunner/Models/Script.swift:39-41 | for a path below the root, directory + "/" + file name is the path |
| Paths.FileUnderRoot | ScriptletRunner/Models/Script.swift:39-41 | a file directly under "/" has "/" as its directory |
| Scripts.NewScript | ScriptletRunner/Models/Script.swift:13-29 | a missing name defaults to the path's file name; every other field is the one given |
| Scripts.DisplayName | ScriptletRunner/Models/Script.swift:35-37 | the custom label when set, else the name |
| Scripts.DirectoryAndNameLocateScript | ScriptletRunner/Models/Script.swift:39-41 | a script named after its file is found again at its directory joined with its name |
| Scripts.SameScriptIsIdentity | ScriptletRunner/Models/Script.swift:51-57 | equality is id equality, and relabelling a script keeps it the same script |
| Scripts.FindByPathFindsFirst | ScriptletRunner/Services/ChainRunner.swift:71 | the lookup gives None exactly when no script has the path, else the first one that has it |
| Arguments.NewArgument | ScriptletRunner/Models/ScriptArgument.swift:15-31 | a new argument is disabled, has an empty value and the given declaration |
| Arguments.FlagForCommand | ScriptletRunner/Models/ScriptArgument.swift:43-45 | the long flag when present, else the short flag; None only when neither exists |
| Arguments.DisplayName | ScriptletRunner/Models/ScriptArgument.swift:33-41 | both flags give "short, long"; a long flag alone gives the long flag; without a long flag it is the short flag, else the placeholder, else "argument" |
| Arguments.DisplayNameShowsCommandFlag | ScriptletRunner/Models/ScriptArgument.swift:33-45 | the name starts with the short flag and ends with the flag the command line passes; without flags it is the placeholder or "argument" |
| Arguments.SameArgumentIsIdentity | ScriptletRunner/Models/ScriptArgument.swift:47-53 | equality is id equality; toggling and editing a value keep the argument the same |
| Chains.NewStep | ScriptletRunner/Models/ScriptChain.swift:11-25 | the step holds the given id, script path, name, overrides and error policy |
| Chains.NewChain | ScriptletRunner/Models/ScriptChain.swift:36-50 | the chain holds the given id, name, creation date, description, steps and last run |
| Chains.StepCount | ScriptletRunner/Models/ScriptChain.swift:52-54 | the number of steps, zero exactly for a chain without steps |
| Chains.DefaultsAreEmpty | ScriptletRunner/Models/ScriptChain.swift:11-50 | a step made from its script alone has no overrides and stops the chain on error; a new chain holds no steps |
| Locations.NewLocation | ScriptletRunner/Models/ScanLocation.swift:10-22 | the label defaults to the folder's name; a new location is enabled and recursive |
| History.NewEntry | ScriptletRunner/Models/RunHistory.swift:11-18 | the entry holds the given id, date, path, name, exit code and arguments; the exit code and arguments default to none |
| History.StatusIcon | ScriptletRunner/Models/RunHistory.swift:26-29 | question mark without an exit code, check mark for 0, cross for any other code |
| History.Recorded | ScriptletRunner/Models/RunHistory.swift:42-52 | the history string of a passed flag starts with the flag, followed by a space and the value when it takes one |
| History.PassedFlags | ScriptletRunner/Models/RunHistory.swift:42-52 | exactly the arguments `Filter` keeps by the test "enabled and has a flag", in order |
| History.PassedFlagsAreThePassingOnes | ScriptletRunner/Models/RunHistory.swift:42-52 | an argument is among the passed flags exactly when it is in the list, enabled and has a flag; the passed flags are a subsequence of the arguments |
| History.HistoryRecordsPassedFlags | ScriptletRunner/Models/RunHistory.swift:42-52 | when no positional argument carries a flag, the history records one string per flag the command line passes, in order |
| History.Added | ScriptletRunner/Models/RunHistory.swift:60-65 | the new entry comes first, then the old entries, cut to 50 |
| History.WithHeadExitCode | ScriptletRunner/Models/RunHistory.swift:70-84 | an empty history stays empty; otherwise the head gets the exit code and keeps its path, name and arguments, and the rest is untouched |
| History.ExitCodeLandsOnNewestRun | ScriptletRunner/Models/RunHistory.swift:38-84 | adding a run and then its exit code leaves that run first, with the code, and everything older as adding left it |
| History.RunHistoryManager.constructor | ScriptletRunner/Models/RunHistory.swift:86-92 | the history is the stored list, or empty when nothing is stored |
| History.RunHistoryManager.AddEntry | ScriptletRunner/Models/RunHistory.swift:38-68 | the stored history becomes `Added` of the old one and the new entry |
| History.RunHistoryManager.UpdateLastEntryExitCode | ScriptletRunner/Models/RunHistory.swift:70-84 | the stored history becomes `WithHeadExitCode` of the old one; nothing happens when it is empty |
| History.RunHistoryManager.ClearHistory | ScriptletRunner/Models/RunHistory.swift:94-96 | the history reads back empty |
| Command.ComposeCommand | ScriptletRunner/Services/ScriptRunner.swift:34-56 | the two loops build exactly the quoted path, then the flag part, then the positional part |
| Command.CommandLineWords | ScriptletRunner/Services/ScriptRunner.swift:34-56 | the command is the quoted path followed by each passed flag (with its quoted value when it takes one) in order, then each passed positional value, quoted, in order |
| Command.ElidedArgument | ScriptletRunner/Services/ScriptRunner.swift:38-53 | an argument that is disabled, has no flag or lacks a needed value leaves the command as if it were absent |
| Command.CommandWithoutEnabledArguments | ScriptletRunner/Services/ScriptRunner.swift:34-56 | with no enabled argument the command is the quoted path alone |
| ScriptRunSpec.ChildEnvironmentForcesThree | ScriptletRunner/Services/ScriptRunner.swift:27-31 | HOME, USER and TERM take the given values; every other variable passes on unchanged; nothing else is added |
| ScriptRunSpec.EventsKeepConsistency | ScriptletRunner/Services/ScriptRunner.swift:13-111 | every event keeps the invariant: while running, a process exists and no exit code is shown yet |
| ScriptRunSpec.RunWhileRunningIsIgnored | ScriptletRunner/Services/ScriptRunner.swift:14 | while running, `run` changes nothing |
| ScriptRunSpec.RunLaunchesScript | ScriptletRunner/Services/ScriptRunner.swift:16-57 | a started run clears output and exit code and launches bash -c with the script command, in the script's directory, with the child environment |
| ScriptRunSpec.LaunchFailureIsReported | ScriptletRunner/Services/ScriptRunner.swift:96-101 | a failed launch leaves the runner idle, with the error text as the whole output |
| ScriptRunSpec.TerminationShowsExitCode | ScriptletRunner/Services/ScriptRunner.swift:87-94 | termination ends the run with the exit status shown and keeps the output |
| ScriptRunSpec.OutputIsTranscript | ScriptletRunner/Services/ScriptRunner.swift:69-85 | while running, the output grows by every non-empty chunk in order, standard error marked "[stderr] " |
| ScriptRunSpec.IdleIgnoresOutput | ScriptletRunner/Services/ScriptRunner.swift:69-94 | once the process has ended no chunk changes the runner |
| ScriptRunSpec.StopSignalsProcess | ScriptletRunner/Services/ScriptRunner.swift:104-106 | `stop` signals the process if there is one and changes nothing else |
| ScriptRunSpec.ClearKeepsRunGoing | ScriptletRunner/Services/ScriptRunner.swift:108-111 | `clear` wipes output and exit code and leaves a running script running |
| ScriptRun.ScriptRunner.constructor | ScriptletRunner/Services/ScriptRunner.swift:4-11 | the runner starts idle with empty output |
| ScriptRun.ScriptRunner.Run | ScriptletRunner/Services/ScriptRunner.swift:13-102 | the fields become the `Launched` state and the invariant holds |
| ScriptRun.ScriptRunner.OnTerminated | ScriptletRunner/Services/ScriptRunner.swift:87-94 | the fields become the `Terminated` state |
| ScriptRun.ScriptRunner.OnOutput | ScriptletRunner/Services/ScriptRunner.swift:69-85 | the fields become the `Chunk` state |
| ScriptRun.ScriptRunner.Stop | ScriptletRunner/Services/ScriptRunner.swift:104-106 | the fields become the `StopRun` state |
| ScriptRun.ScriptRunner.Clear | ScriptletRunner/Services/ScriptRunner.swift:108-111 | the fields become the `ClearRun` state |
| ChainRunSpec.Initial | ScriptletRunner/Services/ChainRunner.swift:12-20 | the runner starts idle and consistent |
| ChainRunSpec.PendingStatusesCoverSteps | ScriptletRunner/Services/ChainRunner.swift:33-35 | a run starts with exactly the chain's step ids in the status map, all pending |
| ChainRunSpec.MergedArgument | ScriptletRunner/Services/ChainRunner.swift:88-97 | an argument is enabled when it was or the step lists its id; it takes the step's value only when the step lists its id and has a value for it; its id, short and long flag, placeholder, kind and description are kept; an argument the step does not list is unchanged |
| ChainRunSpec.Recorded | ScriptletRunner/Services/ChainRunner.swift:100-111 | recording an outcome sets the step's status to `FinishedStatus` and keeps the chain, the running and stop flags; nothing is awaited any more |
| ChainRunSpec.FinishedStatus | ScriptletRunner/Services/ChainRunner.swift:103-119 | completed exactly for exit code 0, otherwise failed with "Exit code: N" |
| ChainRunSpec.AdvanceConsistent | ScriptletRunner/Services/ChainRunner.swift:43-121 | going to the next step keeps the invariant: running exactly while a step's process is awaited, and a completed step always has exit code 0 |
| ChainRunSpec.StartKeepsConsistency | ScriptletRunner/Services/ChainRunner.swift:22-41 | starting a chain keeps the invariant |
| ChainRunSpec.FinishKeepsConsistency | ScriptletRunner/Services/ChainRunner.swift:100-121 | the end of the awaited process keeps the invariant |
| ChainRunSpec.SignalsKeepConsistency | ScriptletRunner/Services/ChainRunner.swift:158-202 | output chunks, `stop` and `clear` keep the invariant |
| ChainRun.MergeArguments | ScriptletRunner/Services/ChainRunner.swift:88-97 | the loop gives each declared argument merged with the step's settings, in order |
| ChainRun.ChainRunner.constructor | ScriptletRunner/Services/ChainRunner.swift:12-20 | the fields are the `Initial` state |
| ChainRun.ChainRunner.Run | ScriptletRunner/Services/ChainRunner.swift:22-41 | the fields become the `StartRun` state |
| ChainRun.MarkAllPending | ScriptletRunner/Services/ChainRunner.swift:28-35 | the loop gives exactly `PendingStatuses` of the steps: every step's id, pending |
| ChainRun.ChainRunner.Reset | ScriptletRunner/Services/ChainRunner.swift:25-38 | the fields become the `Started` state |
| ChainRun.ChainRunner.RunNextStep | ScriptletRunner/Services/ChainRunner.swift:43-121 | the fields become the `Advance` state |
| ChainRun.ChainRunner.TryStep | ScriptletRunner/Services/ChainRunner.swift:43-121 | one pass of `runNextStep`: it finishes, stops or launches, or it moves on past a missing script |
| ChainRun.ChainRunner.Launch | ScriptletRunner/Services/ChainRunner.swift:123-190 | the runner awaits the step's process, which runs the step's script |
| ChainRun.ChainRunner.OnStepFinished | ScriptletRunner/Services/ChainRunner.swift:100-121 | the fields become the `Finish` state |
| ChainRun.ChainRunner.RecordOutcome | ScriptletRunner/Services/ChainRunner.swift:176-189 | the launch-failure line, then the completion, give the `Recorded` state; the success flag is exit code 0 |
| ChainRun.ChainRunner.Complete | ScriptletRunner/Services/ChainRunner.swift:103-111 | the step's status and output line become the `Completion` state |
| ChainRun.ChainRunner.OnOutput | ScriptletRunner/Services/ChainRunner.swift:158-174 | the fields become the `Chunk` state |
| ChainRun.ChainRunner.Stop | ScriptletRunner/Services/ChainRunner.swift:192-195 | the fields become the `StopRun` state |
| ChainRun.ChainRunner.Clear | ScriptletRunner/Services/ChainRunner.swift:197-202 | the fields become the `ClearRun` state |
| ChainRunProperties.RunWhileRunningIsIgnored | ScriptletRunner/Services/ChainRunner.swift:22-23 | starting a chain while one runs changes nothing |
| ChainRunProperties.StartWritesBanner | ScriptletRunner/Services/ChainRunner.swift:37-38 | a run's output begins with "=== Starting Chain: ..." and the step count |
| ChainRunProperties.EventsExtendOutput | ScriptletRunner/Services/ChainRunner.swift:43-195 | a finished step, an output chunk and `stop` only append to the output |
| ChainRunProperties.LaunchedStepRunsItsScript | ScriptletRunner/Services/ChainRunner.swift:64-68 | a step whose script exists is shown running, and bash runs that script with the step's merged arguments in its directory |
| ChainRunProperties.MissingScriptFailsStep | ScriptletRunner/Services/ChainRunner.swift:71-85 | a missing script fails the step with "Script not found" and fails the run; the chain stops unless the step continues on error, in which case the next step comes up |
| ChainRunProperties.StepStatusFollowsOutcome | ScriptletRunner/Services/ChainRunner.swift:103-112 | completed with 0 for status 0, failed with "Exit code: N" otherwise, and failed with -1 when the launch threw |
| ChainRunProperties.StopSignalsProcess | ScriptletRunner/Services/ChainRunner.swift:192-195 | `stop` marks the run stopped and signals the launched process; the interrupted step finishes normally |
| ChainRunProperties.StoppedChainEndsAtCurrentStep | ScriptletRunner/Services/ChainRunner.swift:54-60 | after a stop, the next step's turn ends the run with "Chain Stopped by User", or with the completion banner after the last step, and starts no further step |
| ChainRunProperties.ClearKeepsRunGoing | ScriptletRunner/Services/ChainRunner.swift:197-202 | `clear` during a run wipes the display, and the same step goes on |
| ChainRunProperties.GoingOnLaunchesNext | ScriptletRunner/Services/ChainRunner.swift:103-119 | after a step that succeeded, or failed and continues on error, the step shows its outcome, the next step is shown running and its process is launched when its script exists and no stop was requested; the run stays successful exactly when it was and the step succeeded |
| ChainRunProperties.AdvanceLaunches | ScriptletRunner/Services/ChainRunner.swift:54-100 | going on to a step whose script exists shows it running and launches its process, keeping the success flag and the chain |
| ChainRunProperties.ContinueOnErrorGoesOn | ScriptletRunner/Services/ChainRunner.swift:103-119 | a failing step (non-zero status or a launch failure) that continues on error is failed with "Exit code: N" and fails the run, and the chain goes on: after the last step it ends idle with "Some steps failed.", otherwise the next step's process is launched |
| ChainRunProperties.StepGoesOn | ScriptletRunner/Services/ChainRunner.swift:103-119 | a step that lets the chain go on keeps the run invariant for the next step: earlier steps show their outcomes, the next runs, later ones are pending |
| ChainRunProperties.LastStepCompletes | ScriptletRunner/Services/ChainRunner.swift:44-52 | the last step, when it lets the chain go on, ends the run idle, successful exactly when every step succeeded, with the matching completion banner |
| ChainRunProperties.StepHalts | ScriptletRunner/Services/ChainRunner.swift:113-118 | a failing step that does not continue on error halts the run, failed, later steps pending, with the error banner |
| ChainRunProperties.ChainRunsToCompletion | ScriptletRunner/Services/ChainRunner.swift:22-119 | a chain whose scripts all exist, fed one outcome per step where each step succeeds or continues on error, ends idle; every step shows the status of its outcome; the run is successful exactly when every step succeeded and the output ends with "All steps succeeded!" or "Some steps failed." accordingly |
| ChainRunProperties.AllStepsSucceed | ScriptletRunner/Services/ChainRunner.swift:44-52 | a chain whose scripts all exist and all exit with 0 ends idle and successful, every step completed with 0, output ending "All steps succeeded!" |
| ChainRunProperties.EmptyChainSucceeds | ScriptletRunner/Services/ChainRunner.swift:44-52 | a chain without steps completes at once: idle, successful, output ending "All steps succeeded!" |
| ChainRunProperties.FailingStepHaltsChain | ScriptletRunner/Services/ChainRunner.swift:103-119 | when step k fails (a non-zero exit status, or a launch failure with code -1) without continue-on-error, after earlier steps that each succeeded or continued on error: earlier steps show their outcomes, step k failed with "Exit code: N" for its code, later steps pending, run failed and idle, output ending with the error banner |
| HeaderLines.SpaceEnd | ScriptletRunner/Services/ScriptParser.swift:118 | the end of the longest whitespace run (`\s*`) |
| HeaderLines.WordEnd | ScriptletRunner/Services/ScriptParser.swift:118 | the end of the longest run of `\w` |
| HeaderLines.FlagEnd | ScriptletRunner/Services/ScriptParser.swift:118 | the end of the longest run of `[-a-zA-Z0-9]` |
| HeaderLines.SpacedRest | ScriptletRunner/Services/ScriptParser.swift:118 | `\s+(.+)$` matches exactly when a whitespace character and at least one more character follow; the capture is not empty |
| HeaderLines.SpacedRestCapturesEnd | ScriptletRunner/Services/ScriptParser.swift:118 | what `(.+)$` captures is the line's end after the whitespace |
| HeaderLines.FlagPatternMatch | ScriptletRunner/Services/ScriptParser.swift:118 | the short-flag pattern: a two-character short flag at the start, a well-formed long flag when present, a word as placeholder, a non-empty description |
| HeaderLines.LongOnlyMatch | ScriptletRunner/Services/ScriptParser.swift:119 | the long-only pattern: a well-formed long flag at the start and a non-empty description |
| HeaderLines.PositionalMatch | ScriptletRunner/Services/ScriptParser.swift:165 | the positional pattern: a word as name and a non-empty description |
| HeaderLines.OptionLineShape | ScriptletRunner/Services/ScriptParser.swift:107-154 | a blank line gives nothing; an option line gives a disabled option with a flag, which takes a value exactly when there is a placeholder |
| HeaderLines.PositionalLineShape | ScriptletRunner/Services/ScriptParser.swift:156-182 | a blank line gives nothing; a positional line gives a positional argument that takes a value, named by its placeholder, with no flags |
| HeaderLines.ShortFlagWithPlaceholder | ScriptletRunner/Services/ScriptParser.swift:115 | `-f FILE   Description` gives flag -f, placeholder FILE and the description |
| HeaderLines.ShortFlagWithWord | ScriptletRunner/Services/ScriptParser.swift:118-135 | `-v   Verbose` gives flag -v and the word as description, with no placeholder |
| HeaderLines.ShortLongFlagWithWord | ScriptletRunner/Services/ScriptParser.swift:113 | `-h, --help   Description` gives both flags and no placeholder |
| HeaderLines.ShortLongFlagWithValue | ScriptletRunner/Services/ScriptParser.swift:116 | `-o, --output=FILE   Description` gives both flags, placeholder FILE and the description |
| HeaderLines.LongFlagWithText | ScriptletRunner/Services/ScriptParser.swift:114 | `--verbose   Description` gives the long flag alone, no placeholder, the text as description |
| HeaderLines.LongFlagWithValue | ScriptletRunner/Services/ScriptParser.swift:138-150 | `--output=FILE   Description` gives the long flag, placeholder FILE and the description |
| HeaderLines.PositionalWithName | ScriptletRunner/Services/ScriptParser.swift:162 | `input   Description` gives a positional argument named input |
| HeaderLines.PositionalWithAngledName | ScriptletRunner/Services/ScriptParser.swift:163 | `<output>   Description` gives a positional argument named output, without the brackets |
| HeaderLines.DescriptionWordBecomesPlaceholder | ScriptletRunner/Services/ScriptParser.swift:118 | after a lone short flag, the first word of a two-word description is taken as the placeholder |
| ScriptParser.Parse | ScriptletRunner/Services/ScriptParser.swift:5-105 | the header loop gives exactly the script `ParsedScript` describes; which arguments that script declares is stated by `ScriptArgumentsAroundBlock` and `ScriptDeclaresBlockArguments` |
| ScriptParser.BlockLineAppendsParse | ScriptletRunner/Services/ScriptParser.swift:84-95 | inside the Options block a comment appends what the option parser makes of it, drawing the next id; inside the Arguments block likewise with the positional parser; outside both nothing changes |
| ScriptParser.BlockLineRead | ScriptletRunner/Services/ScriptParser.swift:23-95 | a comment line in a block that is not a keyword line keeps the block and appends the block parser's argument for its trimmed text, if any |
| ScriptParser.BlockLinesRead | ScriptletRunner/Services/ScriptParser.swift:23-95 | a run of such lines appends exactly what the block's parser makes of them, in order, drawing the ids that follow the arguments already there |
| ScriptParser.BlockKeywordRead | ScriptletRunner/Services/ScriptParser.swift:69-81 | an "Options:" line opens the options block and an "Arguments:" line the arguments block, closing the other, and keeps the arguments |
| ScriptParser.BlockHeaderArguments | ScriptletRunner/Services/ScriptParser.swift:69-95 | a keyword line followed by block lines gives exactly the parsed arguments of those lines, in order, drawing ids 0, 1, and so on; lines that do not parse give nothing |
| ScriptParser.ScriptDeclaresBlockArguments | ScriptletRunner/Services/ScriptParser.swift:5-95 | a file that is an "Options:" or "Arguments:" line followed by block lines declares exactly those lines' parsed arguments |
| ScriptParser.BlockHeaderArgumentsFrom | ScriptletRunner/Services/ScriptParser.swift:69-95 | from any header state that has not ended, a keyword line and its block lines append the block's parsed arguments in order, drawing the ids after those already there |
| ScriptParser.HeaderArgumentsAroundBlock | ScriptletRunner/Services/ScriptParser.swift:23-95 | lines without code, then a keyword line with its block, then a code line and anything after it give the arguments of the first lines followed by the block's parsed arguments; nothing after the code line counts |
| ScriptParser.ScriptArgumentsAroundBlock | ScriptletRunner/Services/ScriptParser.swift:5-95 | the same for the parsed script: a header, an "Options:" or "Arguments:" block and then code declare the header's arguments followed by those the block's lines parse into, in order |
| ScriptParser.ReadHeader | ScriptletRunner/Services/ScriptParser.swift:15-96 | the loop over the lines gives the description, usage and arguments of the `ReadLines` fold |
| ScriptParser.ReadPass | ScriptletRunner/Services/ScriptParser.swift:23-96 | one pass of the loop gives exactly the `ReadLine` state |
| ScriptParser.ReadCommentLine | ScriptletRunner/Services/ScriptParser.swift:40-95 | the rest of a pass gives exactly the `ReadComment` state |
| ScriptParser.SourceDeclares | ScriptletRunner/Services/ScriptParser.swift:107-182 | both line parsers make only declared arguments: disabled, empty, and either positional without flags or an option with a flag |
| ScriptParser.ReadCommentSets | ScriptletRunner/Services/ScriptParser.swift:45-81 | "Description:" sets the description, "Usage:" the usage, the first other comment text the fallback description |
| ScriptParser.ReadCommentKeeps | ScriptletRunner/Services/ScriptParser.swift:45-95 | a comment never ends the header, only "Description:" replaces a description, only "Usage:" sets the usage, and arguments only grow |
| ScriptParser.ShebangLinesIgnored | ScriptletRunner/Services/ScriptParser.swift:27-29 | a shebang line anywhere is skipped |
| ScriptParser.HeaderEndsAtCode | ScriptletRunner/Services/ScriptParser.swift:32-38 | the first code line ends the header; it and every later line change nothing |
| ScriptParser.CommentsNeverEnd | ScriptletRunner/Services/ScriptParser.swift:32-38 | without a code line the header never ends |
| ScriptParser.DescriptionChangesOnlyOnDescriptionLines | ScriptletRunner/Services/ScriptParser.swift:46-59 | once set, only a "Description:" line changes the description |
| ScriptParser.LastDescriptionLineWins | ScriptletRunner/Services/ScriptParser.swift:46-51 | a "Description:" line sets the description to its trimmed rest, which stays when it is not empty and no later "Description:" line comes |
| ScriptParser.FirstCommentDescribes | ScriptletRunner/Services/ScriptParser.swift:54-59 | without a description, the first comment text that is no keyword line becomes it, and stays unless a "Description:" line follows |
| ScriptParser.UsageChangesOnlyOnUsageLines | ScriptletRunner/Services/ScriptParser.swift:62-67 | only a "Usage:" line changes the usage |
| ScriptParser.LastUsageLineWins | ScriptletRunner/Services/ScriptParser.swift:62-67 | the last "Usage:" line of the header gives the usage, trimmed |
| ScriptParser.ReadLinesWellFormed | ScriptletRunner/Services/ScriptParser.swift:19-20 | never in both blocks at once; every argument is declared; earlier arguments stay in front |
| ScriptParser.UnreadableScriptIsBare | ScriptletRunner/Services/ScriptParser.swift:9-11 | a script that cannot be read is named after its file and declares nothing |
| ScriptParser.ParsedArgumentsDeclared | ScriptletRunner/Services/ScriptParser.swift:5-105 | every parsed script is named after its file; its k-th argument draws id k and is declared |
| ScriptScanner.ShellScriptRules | ScriptletRunner/Services/ScriptScanner.swift:48-76 | a `.sh` file is always a script; any other file is one exactly when it is executable and its first bytes decode and start with one of the six interpreter lines |
| ScriptScanner.ShebangCases | ScriptletRunner/Services/ScriptScanner.swift:70-75 | the interpreter test holds exactly when the header starts with one of the six interpreter lines |
| ScriptScanner.ShNamedFileIsScript | ScriptletRunner/Services/ScriptScanner.swift:50-52 | a file whose name ends in `.sh` after at least one character is a script |
| ScriptScanner.ShebangIsPrefixTest | ScriptletRunner/Services/ScriptScanner.swift:70-75 | interpreter options are accepted, and so is an interpreter whose name merely starts like one of the six |
| ScriptScanner.OtherInterpreterRejected | ScriptletRunner/Services/ScriptScanner.swift:70-75 | an executable starting with another interpreter line is not a script |
| ScriptScanner.EnumeratedSkips | ScriptletRunner/Services/ScriptScanner.swift:25-28 | the enumeration keeps an item exactly when it is not hidden and, unless recursive, not nested |
| ScriptScanner.ScriptsOfParsesAccepted | ScriptletRunner/Services/ScriptScanner.swift:38-43 | a script comes from exactly the accepted items, by their parse |
| ScriptScanner.ScanDirectory | ScriptletRunner/Services/ScriptScanner.swift:22-46 | the loop returns exactly the folder's parsed shell scripts in order, and none when the enumerator cannot be made |
| ScriptScanner.ScanFolder | ScriptletRunner/Services/ScriptScanner.swift:18-20 | the same, recursive by default |
| ScriptScanner.GatheredFromLocations | ScriptletRunner/Services/ScriptScanner.swift:10-13 | a gathered script comes from some location's contribution, and every contribution is gathered |
| ScriptScanner.InactiveLocationsContributeNothing | ScriptletRunner/Services/ScriptScanner.swift:10 | a disabled or missing location can be added anywhere without changing what is collected |
| ScriptScanner.NameBeforeIsStrictWeakOrder | ScriptletRunner/Services/ScriptScanner.swift:15 | the sort predicate is a strict weak order, as `sorted(by:)` requires |
| ScriptScanner.SortBySorts | ScriptletRunner/Services/ScriptScanner.swift:15 | the sort orders the scripts and is a permutation |
| ScriptScanner.Scan | ScriptletRunner/Services/ScriptScanner.swift:7-16 | the loop and the sort give exactly the `Scanned` list |
| ScriptScanner.CollectedFindsShellScripts | ScriptletRunner/Services/ScriptScanner.swift:7-46 | before the sort, a script is collected exactly when it is the parse of a shell script listed in an enabled, existing location |
| ScriptScanner.ScanFindsShellScripts | ScriptletRunner/Services/ScriptScanner.swift:7-46 | a scan is sorted by name, and a script is in it exactly when it is the parse of a shell script listed in an enabled, existing location |
| AnsiParser.ParameterRun | ScriptletRunner/Services/ANSIParser.swift:49 | `[0-9;]*` takes the longest run of parameter characters |
| AnsiParser.SequenceAtFindsAll | ScriptletRunner/Services/ANSIParser.swift:49 | the end found is a sequence; where no sequence starts none is found; the end is unique |
| AnsiParser.NextMatchIsSequence | ScriptletRunner/Services/ANSIParser.swift:64 | the next match is a sequence |
| AnsiParser.NextMatchIsFirst | ScriptletRunner/Services/ANSIParser.swift:64 | no sequence starts between the search start and the match, nor anywhere after it when there is none |
| AnsiParser.MatchesAreSequences | ScriptletRunner/Services/ANSIParser.swift:64 | matches are sequences, left to right, not overlapping, and none is missed |
| AnsiParser.StripWithoutEscapeIsIdentity | ScriptletRunner/Services/ANSIParser.swift:165-171 | text without ESC strips to itself |
| AnsiParser.StripRemovesSequence | ScriptletRunner/Services/ANSIParser.swift:165-171 | a sequence after plain text is deleted, the text before it kept, and stripping goes on after it |
| AnsiParser.StripRemovesOnlySequence | ScriptletRunner/Services/ANSIParser.swift:165-171 | a sequence between two plain texts is all that is deleted |
| AnsiParser.StripIsSinglePass | ScriptletRunner/Services/ANSIParser.swift:171 | a sequence that forms only once an inner one is deleted stays |
| AnsiParser.PalettesCoverTheirRanges | ScriptletRunner/Services/ANSIParser.swift:8-44 | the colour tables cover exactly 30-37/90-97 and 40-47/100-107, and a background code names the hue of the foreground code ten below |
| AnsiParser.Faded | ScriptletRunner/Services/ANSIParser.swift:75 | dimming keeps the hue and takes 60 % of the opacity, in whole percent rounded down |
| AnsiParser.ApplyCodeForeground | ScriptletRunner/Services/ANSIParser.swift:101-137 | the foreground after one code: cleared by 0 and 39, a table colour for 30-37/90-97, else unchanged |
| AnsiParser.ApplyCodeBackground | ScriptletRunner/Services/ANSIParser.swift:101-137 | the background after one code: cleared by 0 and 49, a table colour for 40-47/100-107, else unchanged |
| AnsiParser.ApplyCodeFlags | ScriptletRunner/Services/ANSIParser.swift:103-125 | 0 clears all flags, 1-4 set bold, dim, italic, underline, 22 clears bold and dim, 23 and 24 clear italic and underline |
| AnsiParser.EachAttributeFollowsLastWrite | ScriptletRunner/Services/ANSIParser.swift:101-137 | each attribute holds what the last code writing it wrote, whatever the others did |
| AnsiParser.ResetForgets | ScriptletRunner/Services/ANSIParser.swift:103-110 | code 0 forgets every code before it |
| AnsiParser.UnknownCodesAreIgnored | ScriptletRunner/Services/ANSIParser.swift:134-135 | any other code changes nothing, wherever it stands |
| AnsiParser.PiecesOfJoin | ScriptletRunner/Services/ANSIParser.swift:99 | splitting on ";" undoes joining non-empty pieces |
| AnsiParser.SeparatorsGiveNoPieces | ScriptletRunner/Services/ANSIParser.swift:99 | separators alone give no pieces |
| AnsiParser.ParseInt | ScriptletRunner/Services/ANSIParser.swift:99 | a piece of digits reads as a value within `Int`'s range, and as nil when it does not fit |
| AnsiParser.JoinedSequenceIsBoth | ScriptletRunner/Services/ANSIParser.swift:99-137 | ESC[a;bm styles what follows as ESC[am ESC[bm does |
| AnsiParser.EmptySequenceKeepsStyle | ScriptletRunner/Services/ANSIParser.swift:99-137 | ESC[m and ESC[;m change nothing; they do not reset |
| AnsiParser.CodesOfNumber | ScriptletRunner/Services/ANSIParser.swift:99 | a lone number is its own code when `Int` holds it, no code otherwise |
| AnsiParser.SegmentsSpellStripped | ScriptletRunner/Services/ANSIParser.swift:66-154 | the segments spell what `stripANSI` keeps, none of them empty |
| AnsiParser.RenderShowsStripped | ScriptletRunner/Services/ANSIParser.swift:47-162 | the text `parse` returns is the input without its sequences, except an input made only of sequences, which it returns raw |
| AnsiParser.PlainTextIsOneSegment | ScriptletRunner/Services/ANSIParser.swift:142-154 | text without sequences is one unstyled segment |
| AnsiParser.StyledAttributes | ScriptletRunner/Services/ANSIParser.swift:74-88 | italic replaces bold, dim fades only the foreground, the text after the last sequence keeps only the colours |
| AnsiParser.DimBrightRed | ScriptletRunner/Services/ANSIParser.swift:18 | dim code 91 is red at 48 % |
| AnsiParser.ReadCodes | ScriptletRunner/Services/ANSIParser.swift:101-137 | the switch loop gives the style of applying the codes in order |
| AnsiParser.TextBefore | ScriptletRunner/Services/ANSIParser.swift:69-91 | the text before a match, when there is any, as one segment with the current attributes |
| AnsiParser.TailText | ScriptletRunner/Services/ANSIParser.swift:142-154 | the remaining text with the colours only |
| AnsiParser.Parse | ScriptletRunner/Services/ANSIParser.swift:47-162 | the loop gives exactly `Render` of the input |
| AnsiParser.SequencesAloneShowRaw | ScriptletRunner/Services/ANSIParser.swift:157-159 | for an input made only of sequences, such as ESC[0m, `parse` returns the input raw |
| AnsiParser.IntendedRender | ScriptletRunner/Services/ANSIParser.swift:157-159 | the segments alone, which spell out exactly the stripped text |
| Collections.UpdateFirstChangesFirstMatch | ScriptletRunner/Views/ChainEditorView.swift:94-99 | writing through a binding changes only the first element with the id, and nothing when there is none |
| Collections.RemoveAtDropsOnlyIt | ScriptletRunner/Views/ChainEditorView.swift:109-111 | `remove(at:)` drops that element, shifts the later ones down and keeps all others |
| Collections.MoveOffsetsPermutes | ScriptletRunner/Views/ChainEditorView.swift:113-115 | `move(fromOffsets:toOffset:)` keeps every element, as often as it was there |
| Collections.RemoveOffsetsKeepsOthers | ScriptletRunner/Views/SettingsView.swift:140-142 | `remove(atOffsets:)` keeps exactly the elements at the other offsets, in order |
| Collections.FilterKeeps | ScriptletRunner/Views/ContentView.swift:237 | `removeAll(where:)` keeps exactly the elements that fail the test |
| Collections.FilterIsSubsequence | ScriptletRunner/Views/ContentView.swift:237 | the elements kept stay in order |
| ScriptList.FilteredScriptsAreMatches | ScriptletRunner/Views/ScriptListView.swift:9-17 | an empty search shows every script in order; otherwise exactly the scripts whose name or description contains the text, in order |
| ScriptList.SearchIgnoresCase | ScriptletRunner/Views/ScriptListView.swift:14-15 | a search in capitals finds what it finds in small letters |
| ScriptList.RowIcon | ScriptletRunner/Views/ScriptListView.swift:62 | the icon recorded for the path, else "doc.text" |
| ChainList.FilteredChainsAreMatches | ScriptletRunner/Views/ChainListView.swift:8-16 | an empty search shows every chain in order; otherwise exactly the matching chains, in order |
| ChainList.DeletionRemovesSwiped | ScriptletRunner/Views/ChainListView.swift:82-90 | the swiped chains, and every chain sharing an id with one, are gone; the others stay, in order |
| ChainList.SelectionClearedOnlyWhenDeleted | ScriptletRunner/Views/ChainListView.swift:86-89 | the selection is cleared exactly when it shares an id with a deleted chain |
| ChainList.ChainListView.DeleteChains | ScriptletRunner/Views/ChainListView.swift:82-90 | the chains and the selection become `RemainingChains` and `SelectionAfter` of the rows shown |
| Settings.FromRaw | ScriptletRunner/Views/SettingsView.swift:3-6 | a mode is decoded exactly from its raw value |
| Settings.RawValueRoundTrip | ScriptletRunner/Views/SettingsView.swift:3-6 | every mode is among the cases, raw values are distinct, and decoding a raw value gives its mode |
| Settings.StoredModeFallsBackToSystem | ScriptletRunner/Views/ContentView.swift:32-34 | a stored mode reads back as itself; any other value reads as the system mode |
| Settings.ColorSchemeSeparatesModes | ScriptletRunner/Views/SettingsView.swift:8-14 | only the system mode leaves the scheme open, and light and dark ask for different schemes |
| Settings.WithFolderAddsNewPathOnly | ScriptletRunner/Views/SettingsView.swift:119-129 | a chosen folder is appended exactly when no location has its path, is then listed, and distinct paths stay distinct; a failure changes nothing |
| Settings.AddingFolderTwiceAddsOnce | ScriptletRunner/Views/SettingsView.swift:119-129 | choosing the same folder again adds nothing |
| Settings.RemoveDeletesSelected | ScriptletRunner/Views/SettingsView.swift:70-75 | with no selection listed, Remove does nothing; otherwise it removes the first location with the selected id, keeps the others in order and clears the selection |
| Settings.DeleteLocationsKeepsOthers | ScriptletRunner/Views/SettingsView.swift:140-142 | swipe-to-delete keeps exactly the other locations in order, and distinct paths stay distinct |
| Settings.TogglesKeepPaths | ScriptletRunner/Views/SettingsView.swift:133-138 | the enabled and recursive toggles never change a path, so distinct paths stay distinct |
| Settings.SettingsView.AddFolder | ScriptletRunner/Views/SettingsView.swift:119-129 | the locations become `WithFolder` of the old ones |
| Settings.SettingsView.RemoveSelected | ScriptletRunner/Views/SettingsView.swift:70-75 | the locations and selection become `LocationsAfterRemove` and `SelectionAfterRemove` |
| Settings.SettingsView.DeleteLocations | ScriptletRunner/Views/SettingsView.swift:140-142 | the locations become `RemoveOffsets` of the old ones; the selection stays |
| Settings.SettingsView.SetEnabled | ScriptletRunner/Views/SettingsView.swift:150 | the first location with the id gets the new enabled flag |
| Settings.SettingsView.SetRecursive | ScriptletRunner/Views/SettingsView.swift:166 | the first location with the id gets the new recursive flag |
| Content.UpsertReplacesOrAppends | ScriptletRunner/Views/ContentView.swift:226-234 | saving an existing chain replaces the first with its id, keeping length and other positions; a new chain is appended; either way it is then no longer new |
| Content.UpsertIsIdempotent | ScriptletRunner/Views/ContentView.swift:226-234 | saving the same chain twice is saving it once |
| Content.DeleteRemovesEveryCopy | ScriptletRunner/Views/ContentView.swift:236-240 | deleting removes every chain with the id and keeps the others in order |
| Content.DeleteUndoesSave | ScriptletRunner/Views/ContentView.swift:226-240 | deleting a chain after saving it leaves what deleting alone leaves |
| Content.SelectionLoadsArguments | ScriptletRunner/Views/ContentView.swift:180-186 | selecting another script loads its arguments, deselecting empties them, re-selecting the same script keeps the edits |
| Content.ContentView.constructor | ScriptletRunner/Views/ContentView.swift:13-26 | the state defaults, over the given storage |
| Content.ContentView.SetAppearance | ScriptletRunner/Views/ContentView.swift:156-159 | the mode is stored by raw value and reads back as itself; nothing else changes |
| Content.ContentView.RefreshScripts | ScriptletRunner/Views/ContentView.swift:199-201 | the scripts become the scan of the stored locations |
| Content.ContentView.UpdateLocations | ScriptletRunner/Views/ContentView.swift:148-155 | the new locations are stored and the scripts rescanned over them |
| Content.ContentView.LoadChains | ScriptletRunner/Views/ContentView.swift:210-212 | the chains become the decoded store, or none when decoding fails |
| Content.ContentView.CreateNewChain | ScriptletRunner/Views/ContentView.swift:220-224 | the editor opens on a fresh chain named "New Chain" |
| Content.ContentView.EditChain | ScriptletRunner/Views/ContentView.swift:109-112 | the editor opens on the chain |
| Content.ContentView.SaveChain | ScriptletRunner/Views/ContentView.swift:226-234 | the editor's binding sets `editingChain` to the saved chain (ChainEditorView.swift:118, through ContentView.swift:165-167); the chains become the upsert, they are stored, the saved chain is selected, and `dismiss()` closes the sheet |
| Content.ContentView.DeleteChain | ScriptletRunner/Views/ContentView.swift:236-240 | the chains lose every chain with the id, they are stored, and the selection is cleared |
| Content.ContentView.SelectScript | ScriptletRunner/Views/ContentView.swift:180-186 | the selection is the new script and the arguments are `ArgumentsAfterSelect` |
| Content.ContentView.SelectSection | ScriptletRunner/Views/ContentView.swift:187-191 | switching sections clears both selections and the arguments; the same section changes nothing |
| ChainEditor.ToggleReadsBack | ScriptletRunner/Views/ChainEditorView.swift:196-204 | a toggle reads back what was set and leaves other toggles and the rest of the step alone; switching on appends one entry |
| ChainEditor.SwitchingOffUndoesSwitchingOn | ScriptletRunner/Views/ChainEditorView.swift:196-204 | switching off after switching on is switching off alone |
| ChainEditor.ValueFieldReadsBack | ScriptletRunner/Views/ChainEditorView.swift:212-215 | a value field reads back the typed value, leaves other values and the toggles alone, and reads "" when unset |
| ChainEditor.WarningMeansNoScriptAtPath | ScriptletRunner/Views/ChainEditorView.swift:142-146 | "Script not found" shows exactly when no script has the step's path; otherwise the row's script is one at that path |
| ChainEditor.AddedStepFindsItsScript | ScriptletRunner/Views/ChainEditorView.swift:101-107 | a step added from the picker finds its script |
| ChainEditor.SaveNeedsAStep | ScriptletRunner/Views/ChainEditorView.swift:39 | a new chain cannot be saved until it has a step, and then exactly when it has a name |
| ChainEditor.ChainEditorView.constructor | ScriptletRunner/Views/ChainEditorView.swift:14-20 | the working copy starts as the chain |
| ChainEditor.ChainEditorView.AddStep | ScriptletRunner/Views/ChainEditorView.swift:101-107 | one new step for the script is appended |
| ChainEditor.ChainEditorView.RemoveStep | ScriptletRunner/Views/ChainEditorView.swift:109-111 | the step at the index is removed |
| ChainEditor.ChainEditorView.MoveSteps | ScriptletRunner/Views/ChainEditorView.swift:113-115 | the steps at the offsets move before the destination |
| ChainEditor.ChainEditorView.SetFlag | ScriptletRunner/Views/ChainEditorView.swift:196-204 | the first step with the id gets the toggle |
| ChainEditor.ChainEditorView.SetArgumentValue | ScriptletRunner/Views/ChainEditorView.swift:212-215 | the first step with the id gets the value |
| ChainEditor.ChainEditorView.SetContinueOnError | ScriptletRunner/Views/ChainEditorView.swift:151 | the first step with the id gets the error policy |
| ChainEditor.ChainEditorView.Save | ScriptletRunner/Views/ChainEditorView.swift:117-121 | the binding and the chain handed on are both the working copy |

## Findings

| source | as written | input that shows it | evidently intended | confidence | as-written member | corrected member |
|---|---|---|---|---|---|---|
| ScriptletRunner/Services/ANSIParser.swift:157-159 | when the segments hold no characters but the input is not empty, `parse` returns the raw input | for "ESC[0m" (a lone reset code) `parse` returns it raw, escape characters included | the fallback is for text without escape codes, which already comes out as itself; an input that is only codes should give no text | low, not executed | AnsiParser.SequencesAloneShowRaw | AnsiParser.IntendedRender |

`AnsiParser.Parse` stays faithful to the code as written. `IntendedRender` is proved to spell
out the stripped text in every case. No view of the app calls `parse`, so the app's display is not affected.

## Behaviour worth knowing

These are consequences of the code as written that the lemmas make explicit. They are not claimed
as bugs.

- `HeaderLines.DescriptionWordBecomesPlaceholder`: in `-v Verbose output` the short-flag pattern
  takes "Verbose" as a placeholder. The option then takes a value and its description is "output".
- `ScriptScanner.ShebangIsPrefixTest`: the interpreter test only checks prefixes, so
  `#!/bin/shiny` counts as a shell script.
- `AnsiParser.StripIsSinglePass`: `stripANSI` deletes in one pass, so a sequence formed by the
  deletion survives.
- `ChainList.ChainListView.DeleteChains`: swipe-to-delete in the chain list changes the bound
  chains and selection. It does not write the chain store, unlike the detail view's delete.

## Left out

- Processes, pipes and threads: the launched process is a value (`Invocation`), and its output and
  termination arrive as events.
- Main-queue hops: each event runs the queued blocks it schedules at once. Interleavings of
  `DispatchQueue.main.async` blocks with other events are not modelled.
- UTF-8 decoding: a file's content, and the first 64 bytes `isShellScript` reads, are given already
  decoded. They are `None` when decoding fails.
- The regular-expression engine: the three header patterns and the ANSI pattern are written out as
  the backtracking matches they perform. `\w` is ASCII word characters only.
- Characters: a Swift `Character` (an extended grapheme cluster) is modelled as one Dafny `char`. A
  string is the sequence of its Unicode scalar values, so clusters of several scalars are not
  modelled.
- Locale rules: `localizedCaseInsensitiveContains` and `localizedCaseInsensitiveCompare` use ASCII
  case folding and code-point order.
- ScriptScanner.ParseEntry: the UUIDs a parse draws are a function of the file's path, so a file
  that two overlapping locations both list gets the same ids twice. The app draws fresh `UUID()`
  values for each parse, and the model does not state their uniqueness.
- ScriptScanner.SortBySorts: proves the result sorted and a permutation, not the order of equal
  names. Swift's `sorted(by:)` does not promise stability either.
- Colours: modelled as a hue and an opacity. SwiftUI's rendering of them is not modelled.
- `AttributedString`: a list of segments, each with its attributes. The merging of adjacent runs is
  not modelled.
- AnsiParser.StripRemovesSequence: stated for a sequence after plain text. The general locality of
  the replacement (strip of a concatenation) is not stated.
- Persistence: JSON and `UserDefaults` encoding is left out. The stores are held decoded. A failed
  decode is the `None` input of `ContentView.LoadChains` and `RunHistoryManager.constructor`.
- A failed encode (`try?` in `saveChains`, the location binding and `saveHistory`) is not modelled.
- `runSelectedScript` (ContentView.swift:203-206) is a plain call of `ScriptRunner.run` with the
  selection. It is covered by `ScriptRun.ScriptRunner.Run`.
- The file importer's failure branch only prints. It is the `None` input of
  `Settings.SettingsView.AddFolder`.
- Mismatched file revisions:
  - ScriptDetailView.swift:172 uses `choices`, and ScriptArgument.swift has no such field;
  - ScriptListView.swift:7 expects `scriptIcons`, which ContentView does not pass, so
    `ScriptList.RowIcon` is modelled with the map as a parameter;
  - ScriptListView.swift:72 uses `script.isExecutable`, a filesystem query;
  - ScriptletRunnerApp.swift:147 passes a `clearConsoleOnRun` setting;
  - no view calls `ANSIParser.parse` or `stripANSI`: ConsoleView.swift:63 and
    ChainDetailView.swift:164 show the runner's output as plain text, escape characters
    included. `AnsiParser` models the parser on its own, and no view of the model uses it.
  These are not modelled.
- The rendering of every view, the app and menu setup, the about, help, history, console and
  detail views, and the icon generator are presentation only.
- `ChainRunner.runScript` sets no environment on its process, unlike `ScriptRunner.run`. The model
  follows the code (`environment` is `None`).
