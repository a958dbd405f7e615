/** The single-script runner of ScriptletRunner/Services/ScriptRunner.swift as a state
    machine: one function per event, with what each event promises proved about it. */
module ScriptRunSpec {
  import opened Base
  import opened Text
  import opened Arguments
  import opened Scripts
  import opened Command

  /** What the runner shows and holds. `process` is the last process configured;
      `terminations` counts the `terminate()` signals sent to it. */
  datatype RunnerState = RunnerState(
    isRunning: bool,
    output: string,
    exitCode: Option<Int32>,
    process: Option<Invocation>,
    terminations: nat)

  function Initial(): RunnerState {
    RunnerState(false, "", None, None, 0)
  }

  /** The terminal type every script is given. */
  const Terminal: string := "xterm-256color"

  /** The app's environment with the home directory, the user name and the terminal type
      set for the script. */
  function ChildEnvironment(env: map<string, string>, home: string, user: string): map<string, string> {
    env["HOME" := home]["USER" := user]["TERM" := Terminal]
  }

  /** The three forced variables take the given values, every other variable of the app's
      environment is passed on unchanged, and nothing else is added. */
  lemma ChildEnvironmentForcesThree(env: map<string, string>, home: string, user: string)
    ensures var e := ChildEnvironment(env, home, user);
            e.Keys == env.Keys + {"HOME", "USER", "TERM"}
            && e["HOME"] == home && e["USER"] == user && e["TERM"] == "xterm-256color"
            && forall k :: k in env && k !in {"HOME", "USER", "TERM"} ==> e[k] == env[k]
  {
  }

  /** The process `run` configures: bash running the script command in the script's
      directory, with the child environment. */
  function RunInvocation(script: Script, args: seq<ScriptArgument>, env: map<string, string>, home: string, user: string): Invocation {
    ScriptInvocation(script.path, Directory(script), args, Some(ChildEnvironment(env, home, user)))
  }

  /** The text shown when the process cannot be started. */
  function LaunchFailureText(reason: string): string {
    "Failed to start script: " + reason
  }

  /** `run(script:arguments:)`. `failure` is the error `process.run()` throws, if any;
      `env`, `home` and `user` stand for the app's environment, `NSHomeDirectory()` and
      `NSUserName()`. */
  function Launched(
    s: RunnerState, script: Script, args: seq<ScriptArgument>,
    env: map<string, string>, home: string, user: string, failure: Option<string>): RunnerState
  {
    if s.isRunning then s
    else
      var started := s.(isRunning := true, output := "", exitCode := None,
                        process := Some(RunInvocation(script, args, env, home, user)));
      match failure
      case None => started
      case Some(reason) => started.(output := LaunchFailureText(reason), isRunning := false)
  }

  /** The termination handler's main-queue block: the run is over, with the process's
      exit status, and the pipes are no longer read. */
  function Terminated(s: RunnerState, status: Int32): RunnerState {
    s.(isRunning := false, exitCode := Some(status))
  }

  /** What a chunk read from one of the pipes adds to the output. */
  function ChunkText(text: string, fromStandardError: bool): string {
    if text == "" then "" else if fromStandardError then "[stderr] " + text else text
  }

  /** A chunk read from standard output or standard error; the handlers are only
      installed while the process runs, and empty chunks are dropped. */
  function Chunk(s: RunnerState, text: string, fromStandardError: bool): RunnerState {
    if !s.isRunning || text == "" then s
    else s.(output := s.output + (if fromStandardError then "[stderr] " + text else text))
  }

  /** `stop()`: terminates the last configured process, if there is one. */
  function StopRun(s: RunnerState): RunnerState {
    s.(terminations := if s.process.Some? then s.terminations + 1 else s.terminations)
  }

  /** `clear()`. */
  function ClearRun(s: RunnerState): RunnerState {
    s.(output := "", exitCode := None)
  }

  /** While a script runs its process exists and no exit code is shown yet. */
  predicate Consistent(s: RunnerState) {
    s.isRunning ==> s.process.Some? && s.exitCode.None?
  }

  /** Every event keeps the runner consistent. */
  lemma EventsKeepConsistency(
    s: RunnerState, script: Script, args: seq<ScriptArgument>,
    env: map<string, string>, home: string, user: string, failure: Option<string>,
    status: Int32, text: string, err: bool)
    requires Consistent(s)
    ensures Consistent(Launched(s, script, args, env, home, user, failure))
    ensures Consistent(Terminated(s, status)) && Consistent(Chunk(s, text, err))
    ensures Consistent(StopRun(s)) && Consistent(ClearRun(s))
  {
  }

  // ----- What a run does -----

  /** A second `run` while a script runs is ignored. */
  lemma RunWhileRunningIsIgnored(
    s: RunnerState, script: Script, args: seq<ScriptArgument>,
    env: map<string, string>, home: string, user: string, failure: Option<string>)
    requires s.isRunning
    ensures Launched(s, script, args, env, home, user, failure) == s
  {
  }

  /** A started run clears the output and the exit code and launches bash with the
      "-c" script command, in the script's directory, with the child environment. */
  lemma RunLaunchesScript(
    s: RunnerState, script: Script, args: seq<ScriptArgument>,
    env: map<string, string>, home: string, user: string)
    requires !s.isRunning
    ensures var r := Launched(s, script, args, env, home, user, None);
            r.isRunning && r.output == "" && r.exitCode.None? && r.terminations == s.terminations
            && r.process.Some? && r.process.value.executable == "/bin/bash"
            && r.process.value.arguments == ["-c", CommandLine(script.path, args)]
            && r.process.value.workingDirectory == Directory(script)
            && r.process.value.environment == Some(ChildEnvironment(env, home, user))
  {
  }

  /** A process that cannot be started leaves the runner idle, with the error as the
      whole output and no exit code. */
  lemma LaunchFailureIsReported(
    s: RunnerState, script: Script, args: seq<ScriptArgument>,
    env: map<string, string>, home: string, user: string, reason: string)
    requires !s.isRunning
    ensures var r := Launched(s, script, args, env, home, user, Some(reason));
            !r.isRunning && r.exitCode.None? && r.output == "Failed to start script: " + reason
  {
  }

  /** The end of the process shows its exit status and stops the run; the output stays. */
  lemma TerminationShowsExitCode(s: RunnerState, status: Int32)
    ensures !Terminated(s, status).isRunning && Terminated(s, status).exitCode == Some(status)
    ensures Terminated(s, status).output == s.output
  {
  }

  /** The output of a run, chunk by chunk. */
  function Feed(s: RunnerState, chunks: seq<(string, bool)>): RunnerState
    decreases |chunks|
  {
    if chunks == [] then s else Feed(Chunk(s, chunks[0].0, chunks[0].1), chunks[1..])
  }

  /** The chunks as the output shows them, in order. */
  function Transcript(chunks: seq<(string, bool)>): string
    decreases |chunks|
  {
    if chunks == [] then "" else ChunkText(chunks[0].0, chunks[0].1) + Transcript(chunks[1..])
  }

  /** While the script runs, its output is what it had plus every non-empty chunk in the
      order read, standard error marked "[stderr] ". */
  lemma {:induction false} OutputIsTranscript(s: RunnerState, chunks: seq<(string, bool)>)
    requires s.isRunning
    ensures Feed(s, chunks).output == s.output + Transcript(chunks)
    ensures Feed(s, chunks).isRunning && Feed(s, chunks).exitCode == s.exitCode
    decreases |chunks|
  {
    if chunks != [] {
      var c := Chunk(s, chunks[0].0, chunks[0].1);
      OutputIsTranscript(c, chunks[1..]);
      assert c.output == s.output + ChunkText(chunks[0].0, chunks[0].1);
      assert s.output + ChunkText(chunks[0].0, chunks[0].1) + Transcript(chunks[1..])
          == s.output + (ChunkText(chunks[0].0, chunks[0].1) + Transcript(chunks[1..]));
    }
  }

  /** Once the process has ended no chunk changes the runner. */
  lemma {:induction false} IdleIgnoresOutput(s: RunnerState, chunks: seq<(string, bool)>)
    requires !s.isRunning
    ensures Feed(s, chunks) == s
    decreases |chunks|
  {
    if chunks != [] {
      IdleIgnoresOutput(s, chunks[1..]);
    }
  }

  /** `stop()` signals the process when there is one and changes nothing else; the run
      itself ends only when the termination handler runs. */
  lemma StopSignalsProcess(s: RunnerState)
    ensures StopRun(s).terminations == if s.process.Some? then s.terminations + 1 else s.terminations
    ensures StopRun(s).isRunning == s.isRunning && StopRun(s).output == s.output
    ensures StopRun(s).exitCode == s.exitCode
  {
  }

  /** `clear()` wipes the output and the exit code; a running script keeps running. */
  lemma ClearKeepsRunGoing(s: RunnerState)
    ensures ClearRun(s).output == "" && ClearRun(s).exitCode.None?
    ensures ClearRun(s).isRunning == s.isRunning && ClearRun(s).process == s.process
  {
  }
}
