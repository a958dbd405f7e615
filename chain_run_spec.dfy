/** The chain runner as a state machine (ScriptletRunner/Services/ChainRunner.swift).
    Each event of the runner (starting a chain, a step's process ending, a chunk of
    output, stop, clear) is a function from the runner's state to its next state. The
    blocks the runner hands to the main queue are taken to run as part of the event that
    schedules them. */
module ChainRunSpec {
  import opened Base
  import opened Text
  import opened Arguments
  import opened Scripts
  import opened Chains
  import opened Command

  /** `ChainStepStatus`. */
  datatype StepStatus = Pending | Running | Completed(exitCode: Int32) | Failed(error: string) | Skipped

  /** How a launched step's process ended: its termination status, or the error
      `process.run()` threw, which the runner reports as exit code -1. */
  datatype Outcome = Exited(status: Int32) | LaunchFailed(reason: string)

  /** The chain and script list a run was started with, which every later step reads. */
  datatype RunContext = RunContext(chain: ScriptChain, scripts: seq<Script>)

  /** The published fields, the private `shouldStop` and `process`, the number of
      `terminate()` calls made on a process, and the run's context with the index of the
      step whose process has been launched and has not yet ended. */
  datatype RunState = RunState(
    isRunning: bool,
    currentStepIndex: int,
    stepStatuses: map<Uuid, StepStatus>,
    output: string,
    overallSuccess: bool,
    shouldStop: bool,
    process: Option<Invocation>,
    terminations: nat,
    context: Option<RunContext>,
    awaiting: Option<nat>)

  /** A runner before its first run. */
  function Initial(): (s: RunState)
    ensures !s.isRunning && s.output == "" && s.stepStatuses == map[] && s.overallSuccess
  {
    RunState(false, 0, map[], "", true, false, None, 0, None, None)
  }

  function Steps(s: RunState): seq<ScriptChainStep>
    requires s.context.Some?
  {
    s.context.value.chain.steps
  }

  // ----- Texts the runner writes -----

  function StartBanner(chain: ScriptChain): string {
    ("=== Starting Chain: " + chain.name + " ===\n") + ("Total steps: " + NatToString(|chain.steps|) + "\n\n")
  }

  function StepHeader(i: nat, name: string): string {
    "--- Step " + NatToString(i + 1) + ": " + name + " ---\n"
  }

  function CompletedBanner(allSucceeded: bool): string {
    "\n=== Chain Completed ===\n" + (if allSucceeded then "All steps succeeded!\n" else "Some steps failed.\n")
  }

  const StoppedByUserBanner: string := "\n=== Chain Stopped by User ===\n"
  const StoppedDueToErrorBanner: string := "=== Chain Stopped Due to Error ===\n"

  // ----- Starting a run -----

  /** The loop that marks every step of the chain pending. */
  function PendingStatuses(steps: seq<ScriptChainStep>): map<Uuid, StepStatus> {
    if steps == [] then map[] else PendingStatuses(steps[..|steps| - 1])[steps[|steps| - 1].id := Pending]
  }

  /** A run starts with exactly the chain's steps in the status map, all pending. */
  lemma {:induction false} PendingStatusesCoverSteps(steps: seq<ScriptChainStep>)
    ensures forall id :: id in PendingStatuses(steps) <==> exists k :: 0 <= k < |steps| && steps[k].id == id
    ensures forall id :: id in PendingStatuses(steps) ==> PendingStatuses(steps)[id] == Pending
    decreases |steps|
  {
    if steps != [] {
      var init := steps[..|steps| - 1];
      PendingStatusesCoverSteps(init);
      assert forall k :: 0 <= k < |init| ==> init[k] == steps[k];
    }
  }

  /** `run`'s reset of the state before the first step. */
  function Started(s: RunState, chain: ScriptChain, scripts: seq<Script>): RunState {
    s.(isRunning := true, shouldStop := false, currentStepIndex := 0,
       stepStatuses := PendingStatuses(chain.steps), output := StartBanner(chain),
       overallSuccess := true, context := Some(RunContext(chain, scripts)))
  }

  /** `run(chain:scripts:)`: ignored while a run is in progress. */
  function StartRun(s: RunState, chain: ScriptChain, scripts: seq<Script>): RunState {
    if s.isRunning then s else Advance(Started(s, chain, scripts), 0)
  }

  // ----- Running the next step -----

  /** `arg` as the step runs it: enabled when the step lists its id, and then given the
      step's value for it when there is one. */
  function MergedArgument(arg: ScriptArgument, step: ScriptChainStep): (r: ScriptArgument)
    ensures r.id == arg.id && r.isPositional == arg.isPositional && FlagForCommand(r) == FlagForCommand(arg)
    ensures r.requiresValue == arg.requiresValue && r.description == arg.description
    ensures r.shortFlag == arg.shortFlag && r.longFlag == arg.longFlag && r.placeholder == arg.placeholder
    ensures arg.id !in step.enabledFlags ==> r == arg
    ensures r.isEnabled <==> arg.isEnabled || arg.id in step.enabledFlags
    ensures r.value == if arg.id in step.enabledFlags && arg.id in step.arguments
                       then step.arguments[arg.id] else arg.value
  {
    if arg.id in step.enabledFlags then
      var enabled := arg.(isEnabled := true);
      if arg.id in step.arguments then enabled.(value := step.arguments[arg.id]) else enabled
    else arg
  }

  /** The script's declared arguments, each merged with the step's settings. */
  function MergedArguments(args: seq<ScriptArgument>, step: ScriptChainStep): seq<ScriptArgument> {
    seq(|args|, k requires 0 <= k < |args| => MergedArgument(args[k], step))
  }

  /** The main-queue block that shows step `i` as running. */
  function Visit(s: RunState, i: nat): RunState
    requires s.context.Some? && i < |Steps(s)|
  {
    var step := Steps(s)[i];
    s.(currentStepIndex := i, stepStatuses := s.stepStatuses[step.id := Running],
       output := s.output + StepHeader(i, step.scriptName))
  }

  /** A step whose script is not in the list fails. */
  function NotFound(s: RunState, step: ScriptChainStep): RunState {
    s.(stepStatuses := s.stepStatuses[step.id := Failed("Script not found")],
       output := s.output + ("ERROR: Script not found at " + step.scriptPath + "\n\n"),
       overallSuccess := false)
  }

  /** The chain stops after a failed step that does not continue on error. */
  function Halt(s: RunState): RunState {
    s.(output := s.output + StoppedDueToErrorBanner, isRunning := false, awaiting := None)
  }

  /** The process the chain launches for a step: the script with its merged arguments,
      in the script's directory, with the app's environment. */
  function StepInvocation(script: Script, step: ScriptChainStep): Invocation {
    ScriptInvocation(script.path, Directory(script), MergedArguments(script.arguments, step), None)
  }

  /** `runNextStep(chain:scripts:stepIndex:)`: finishes the chain after the last step,
      stops it when a stop was requested, fails a step whose script is missing (going on
      to the next one when the step continues on error), and otherwise launches the step's
      process and waits for it. */
  function Advance(s: RunState, i: nat): RunState
    requires s.context.Some?
    decreases |Steps(s)| - i
  {
    if i >= |Steps(s)| then
      s.(output := s.output + CompletedBanner(s.overallSuccess), isRunning := false, awaiting := None)
    else if s.shouldStop then
      s.(output := s.output + StoppedByUserBanner, isRunning := false, awaiting := None)
    else
      var step := Steps(s)[i];
      var v := Visit(s, i);
      match FindByPath(s.context.value.scripts, step.scriptPath)
      case None =>
        var f := NotFound(v, step);
        if step.continueOnError then Advance(f, i + 1) else Halt(f)
      case Some(script) =>
        v.(process := Some(StepInvocation(script, step)), awaiting := Some(i))
  }

  // ----- A step's process ends -----

  /** The exit code a step is reported with. */
  function ExitCode(o: Outcome): Int32 {
    match o
    case Exited(status) => status
    case LaunchFailed(_) => -1
  }

  predicate Succeeded(o: Outcome) {
    o.Exited? && o.status == 0
  }

  /** The status a finished step gets: completed only with exit code 0. */
  function FinishedStatus(o: Outcome): (st: StepStatus)
    ensures st.Completed? <==> Succeeded(o)
    ensures st.Completed? ==> st.exitCode == 0
    ensures st.Failed? ==> st.error == "Exit code: " + IntToString(ExitCode(o))
  {
    if Succeeded(o) then Completed(ExitCode(o)) else Failed("Exit code: " + IntToString(ExitCode(o)))
  }

  /** The line the `catch` of `runScript` writes when the process cannot be launched. */
  function LaunchNote(s: RunState, o: Outcome): RunState {
    match o
    case LaunchFailed(reason) => s.(output := s.output + ("Failed to start script: " + reason + "\n"))
    case Exited(_) => s
  }

  /** The completion handler of a step, given whether it succeeded and its exit code: the
      step's status and its output line. */
  function Completion(s: RunState, step: ScriptChainStep, success: bool, code: Int32): RunState {
    if success then
      s.(stepStatuses := s.stepStatuses[step.id := Completed(code)],
         output := s.output + ("Step completed with exit code: " + IntToString(code) + "\n\n"),
         awaiting := None)
    else
      s.(stepStatuses := s.stepStatuses[step.id := Failed("Exit code: " + IntToString(code))],
         output := s.output + ("Step failed with exit code: " + IntToString(code) + "\n\n"),
         overallSuccess := false, awaiting := None)
  }

  /** The state a finished step leaves, before the chain goes on or stops. */
  function Recorded(s: RunState, step: ScriptChainStep, o: Outcome): (r: RunState)
    ensures r.context == s.context && r.awaiting.None? && r.isRunning == s.isRunning && r.shouldStop == s.shouldStop
    ensures r.stepStatuses == s.stepStatuses[step.id := FinishedStatus(o)]
    ensures r.overallSuccess <==> s.overallSuccess && Succeeded(o)
  {
    Completion(LaunchNote(s, o), step, Succeeded(o), ExitCode(o))
  }

  /** The runner waits for the process of step `awaiting`. */
  predicate Awaiting(s: RunState) {
    s.context.Some? && s.awaiting.Some? && s.awaiting.value < |Steps(s)|
  }

  /** The completion of the awaited step: its status and output, then the next step, or
      the stop of the chain after a failure that does not continue on error. */
  function Finish(s: RunState, o: Outcome): RunState
    requires Awaiting(s)
  {
    var i := s.awaiting.value;
    var step := Steps(s)[i];
    var r := Recorded(s, step, o);
    if !Succeeded(o) && !step.continueOnError then Halt(r) else Advance(r, i + 1)
  }

  // ----- Output, stop and clear -----

  /** A chunk read from the process's standard output or standard error (marked
      "[stderr] "); empty chunks are dropped. */
  function Chunk(s: RunState, text: string, fromStandardError: bool): RunState {
    if text == "" then s
    else s.(output := s.output + (if fromStandardError then "[stderr] " + text else text))
  }

  /** `stop()`: asks the run to stop before the next step and terminates the last
      launched process, if any. */
  function StopRun(s: RunState): RunState {
    s.(shouldStop := true, terminations := if s.process.Some? then s.terminations + 1 else s.terminations)
  }

  /** `clear()`: forgets the output and statuses; a run in progress goes on. */
  function ClearRun(s: RunState): RunState {
    s.(output := "", stepStatuses := map[], currentStepIndex := 0, overallSuccess := true)
  }

  // ----- The runner's invariant -----

  predicate CompletedMeansZero(m: map<Uuid, StepStatus>) {
    forall id :: id in m && m[id].Completed? ==> m[id].exitCode == 0
  }

  /** The runner is running exactly while it waits for a step's process, and a completed
      step always carries exit code 0. */
  predicate Consistent(s: RunState) {
    (s.isRunning <==> s.awaiting.Some?)
    && (s.awaiting.Some? ==> Awaiting(s))
    && CompletedMeansZero(s.stepStatuses)
  }

  lemma StatusUpdateKeepsZero(m: map<Uuid, StepStatus>, id: Uuid, st: StepStatus)
    requires CompletedMeansZero(m) && (st.Completed? ==> st.exitCode == 0)
    ensures CompletedMeansZero(m[id := st])
  {
  }

  lemma {:induction false} AdvanceConsistent(s: RunState, i: nat)
    requires s.context.Some? && s.isRunning && CompletedMeansZero(s.stepStatuses)
    ensures Consistent(Advance(s, i)) && Advance(s, i).context == s.context
    decreases |Steps(s)| - i
  {
    if i < |Steps(s)| && !s.shouldStop {
      var step := Steps(s)[i];
      var v := Visit(s, i);
      StatusUpdateKeepsZero(s.stepStatuses, step.id, Running);
      var f := NotFound(v, step);
      StatusUpdateKeepsZero(v.stepStatuses, step.id, Failed("Script not found"));
      match FindByPath(s.context.value.scripts, step.scriptPath)
      case None =>
        if step.continueOnError {
          AdvanceConsistent(f, i + 1);
          assert Advance(s, i) == Advance(f, i + 1);
        } else {
          assert Advance(s, i) == Halt(f);
        }
      case Some(script) =>
        assert Advance(s, i) == v.(process := Some(StepInvocation(script, step)), awaiting := Some(i));
    }
  }

  /** Starting a chain keeps the runner consistent. */
  lemma StartKeepsConsistency(s: RunState, chain: ScriptChain, scripts: seq<Script>)
    requires Consistent(s)
    ensures Consistent(StartRun(s, chain, scripts))
  {
    if !s.isRunning {
      PendingStatusesCoverSteps(chain.steps);
      AdvanceConsistent(Started(s, chain, scripts), 0);
    }
  }

  /** Only unfolds `Finish`, for the proof of `ChainRunner.OnStepFinished`: after the
      outcome is recorded, a failure that may not be ignored halts the run and anything
      else goes on with the next step. What this means for a run is stated in
      ChainRunProperties. */
  lemma FinishGoesOn(s: RunState, o: Outcome)
    requires Awaiting(s)
    ensures var i := s.awaiting.value;
            var r := Recorded(s, Steps(s)[i], o);
            Finish(s, o) == if !Succeeded(o) && !Steps(s)[i].continueOnError then Halt(r) else Advance(r, i + 1)
  {
  }

  /** The end of the awaited step's process keeps the runner consistent. */
  lemma FinishKeepsConsistency(s: RunState, o: Outcome)
    requires Consistent(s) && Awaiting(s)
    ensures Consistent(Finish(s, o))
  {
    var i := s.awaiting.value;
    var r := Recorded(s, Steps(s)[i], o);
    StatusUpdateKeepsZero(s.stepStatuses, Steps(s)[i].id, FinishedStatus(o));
    if Succeeded(o) || Steps(s)[i].continueOnError {
      AdvanceConsistent(r, i + 1);
    }
  }

  /** Output, `stop()` and `clear()` keep the runner consistent. */
  lemma SignalsKeepConsistency(s: RunState, text: string, err: bool)
    requires Consistent(s)
    ensures Consistent(Chunk(s, text, err)) && Consistent(StopRun(s)) && Consistent(ClearRun(s))
  {
  }
}
