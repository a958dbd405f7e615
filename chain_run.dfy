/** The chain runner object (ScriptletRunner/Services/ChainRunner.swift): its fields are
    updated in place by each event, and each event is proved to take the runner to the
    state the matching function of `ChainRunSpec` describes. */
module ChainRun {
  import opened Base
  import opened Text
  import opened Arguments
  import opened Scripts
  import opened Chains
  import opened Command
  import opened ChainRunSpec

  /** The argument loop of `runNextStep`: the script's arguments with the step's enabled
      ids and values applied. */
  method MergeArguments(args: seq<ScriptArgument>, step: ScriptChainStep) returns (arguments: seq<ScriptArgument>)
    ensures arguments == MergedArguments(args, step)
  {
    arguments := [];
    for k := 0 to |args|
      invariant |arguments| == k
      invariant forall j :: 0 <= j < k ==> arguments[j] == MergedArgument(args[j], step)
    {
      var arg := args[k];
      if arg.id in step.enabledFlags {
        arg := arg.(isEnabled := true);
        if arg.id in step.arguments {
          arg := arg.(value := step.arguments[arg.id]);
        }
      }
      arguments := arguments + [arg];
    }
  }

  /** The loop of `run` that marks every step pending: exactly the steps' ids are in the
      map, each with the pending status. */
  method MarkAllPending(steps: seq<ScriptChainStep>) returns (statuses: map<Uuid, StepStatus>)
    ensures statuses == PendingStatuses(steps)
  {
    statuses := map[];
    for k := 0 to |steps|
      invariant statuses == PendingStatuses(steps[..k])
    {
      assert steps[..k + 1][..k] == steps[..k];
      statuses := statuses[steps[k].id := Pending];
    }
    assert steps[..|steps|] == steps;
  }

  class ChainRunner {
    var isRunning: bool
    var currentStepIndex: int
    var stepStatuses: map<Uuid, StepStatus>
    var output: string
    var overallSuccess: bool
    var shouldStop: bool
    var process: Option<Invocation>
    var terminations: nat
    var context: Option<RunContext>
    var awaiting: Option<nat>

    function State(): RunState
      reads this
    {
      RunState(isRunning, currentStepIndex, stepStatuses, output, overallSuccess, shouldStop,
               process, terminations, context, awaiting)
    }

    predicate Valid()
      reads this
    {
      Consistent(State())
    }

    constructor()
      ensures State() == Initial() && Valid()
    {
      isRunning := false;
      currentStepIndex := 0;
      stepStatuses := map[];
      output := "";
      overallSuccess := true;
      shouldStop := false;
      process := None;
      terminations := 0;
      context := None;
      awaiting := None;
    }

    /** `run(chain:scripts:)`. */
    method Run(chain: ScriptChain, scripts: seq<Script>)
      requires Valid()
      modifies this
      ensures Valid() && State() == StartRun(old(State()), chain, scripts)
    {
      StartKeepsConsistency(State(), chain, scripts);
      if isRunning {
        return;
      }
      Reset(chain, scripts);
      RunNextStep(0);
    }

    /** The part of `run` before the first step: the flags, the pending statuses, the
        banner and the chain the later events refer to. */
    method Reset(chain: ScriptChain, scripts: seq<Script>)
      modifies this
      ensures State() == Started(old(State()), chain, scripts)
    {
      isRunning := true;
      shouldStop := false;
      currentStepIndex := 0;
      overallSuccess := true;
      stepStatuses := MarkAllPending(chain.steps);
      output := "=== Starting Chain: " + chain.name + " ===\n";
      output := output + ("Total steps: " + NatToString(|chain.steps|) + "\n\n");
      assert output == StartBanner(chain);
      context := Some(RunContext(chain, scripts));
    }

    /** `runNextStep(chain:scripts:stepIndex:)`; the recursion through a missing script
        that continues on error is the loop. */
    method RunNextStep(stepIndex: nat)
      requires context.Some?
      modifies this
      ensures State() == Advance(old(State()), stepIndex)
    {
      var i := stepIndex;
      var done := false;
      while !done
        invariant context == old(context)
        invariant !done ==> Advance(State(), i) == Advance(old(State()), stepIndex)
        invariant done ==> State() == Advance(old(State()), stepIndex)
        decreases |Steps(State())| - i, !done
      {
        done := TryStep(i);
        if !done {
          i := i + 1;
        }
      }
    }

    /** One pass of `runNextStep`: true when the run finished, stopped or launched a
        process, false when the step's script is missing and the chain goes on with the
        next step. */
    method TryStep(i: nat) returns (done: bool)
      requires context.Some?
      modifies this
      ensures context == old(context)
      ensures done ==> State() == Advance(old(State()), i)
      ensures !done ==> i < |Steps(State())| && Advance(State(), i + 1) == Advance(old(State()), i)
    {
      var steps := context.value.chain.steps;
      var scripts := context.value.scripts;
      if i >= |steps| {
        EndRun(CompletedBanner(overallSuccess));
        return true;
      }
      if shouldStop {
        EndRun(StoppedByUserBanner);
        return true;
      }
      var step := steps[i];
      MarkRunning(i, step);
      var found := FindByPath(scripts, step.scriptPath);
      if found.None? {
        MarkMissing(step);
        if step.continueOnError {
          return false;
        }
        EndRun(StoppedDueToErrorBanner);
        return true;
      }
      Launch(found.value, step, i);
      return true;
    }

    /** The step becomes the current one and is shown as running. */
    method MarkRunning(i: nat, step: ScriptChainStep)
      requires context.Some? && i < |Steps(State())| && step == Steps(State())[i]
      modifies this
      ensures State() == Visit(old(State()), i)
    {
      currentStepIndex := i;
      stepStatuses := stepStatuses[step.id := Running];
      output := output + ("--- Step " + NatToString(i + 1) + ": " + step.scriptName + " ---\n");
    }

    /** The step's script is not in the list. */
    method MarkMissing(step: ScriptChainStep)
      modifies this
      ensures State() == NotFound(old(State()), step)
    {
      stepStatuses := stepStatuses[step.id := Failed("Script not found")];
      output := output + ("ERROR: Script not found at " + step.scriptPath + "\n\n");
      overallSuccess := false;
    }

    /** The run ends with a closing line. */
    method EndRun(banner: string)
      modifies this
      ensures State() == old(State()).(output := old(output) + banner, isRunning := false, awaiting := None)
    {
      output := output + banner;
      isRunning := false;
      awaiting := None;
    }

    /** The launch at the end of `runNextStep`: the process for the step's script is
        configured and started, and the runner waits for it. */
    method Launch(script: Script, step: ScriptChainStep, i: nat)
      modifies this
      ensures State() == old(State()).(process := Some(StepInvocation(script, step)), awaiting := Some(i))
    {
      var arguments := MergeArguments(script.arguments, step);
      var command := ComposeCommand(script.path, arguments);
      process := Some(Invocation(Shell, ["-c", command], Directory(script), None));
      awaiting := Some(i);
    }

    /** The termination handler of the awaited step's process, or the `catch` of its
        launch, with the main-queue block they schedule. */
    method OnStepFinished(outcome: Outcome)
      requires Valid() && awaiting.Some?
      modifies this
      ensures Valid() && State() == Finish(old(State()), outcome)
    {
      ghost var s := State();
      FinishKeepsConsistency(s, outcome);
      var i := awaiting.value;
      var step := context.value.chain.steps[i];
      ghost var r := Recorded(s, step, outcome);
      FinishGoesOn(s, outcome);
      var success := RecordOutcome(step, outcome);
      assert State() == r;
      if !success && !step.continueOnError {
        EndRun(StoppedDueToErrorBanner);
        assert State() == Halt(r);
      } else {
        RunNextStep(i + 1);
        assert State() == Advance(r, i + 1);
      }
    }

    /** The step's status and output lines for the outcome of its process; `success` is
        whether it exited with 0. */
    method RecordOutcome(step: ScriptChainStep, outcome: Outcome) returns (success: bool)
      modifies this
      ensures success == Succeeded(outcome)
      ensures State() == Recorded(old(State()), step, outcome)
    {
      if outcome.LaunchFailed? {
        output := output + ("Failed to start script: " + outcome.reason + "\n");
      }
      success := outcome.Exited? && outcome.status == 0;
      var exitCode: Int32 := if outcome.Exited? then outcome.status else -1;
      Complete(step, success, exitCode);
    }

    /** The main-queue block of the completion handler: the step's status and output line. */
    method Complete(step: ScriptChainStep, success: bool, exitCode: Int32)
      modifies this
      ensures State() == Completion(old(State()), step, success, exitCode)
    {
      if success {
        stepStatuses := stepStatuses[step.id := Completed(exitCode)];
        output := output + ("Step completed with exit code: " + IntToString(exitCode) + "\n\n");
      } else {
        stepStatuses := stepStatuses[step.id := Failed("Exit code: " + IntToString(exitCode))];
        output := output + ("Step failed with exit code: " + IntToString(exitCode) + "\n\n");
        overallSuccess := false;
      }
      awaiting := None;
    }

    /** The readability handlers of the two pipes, with their main-queue blocks. */
    method OnOutput(text: string, fromStandardError: bool)
      requires Valid()
      modifies this
      ensures Valid() && State() == Chunk(old(State()), text, fromStandardError)
    {
      SignalsKeepConsistency(State(), text, fromStandardError);
      if text != "" {
        if fromStandardError {
          output := output + ("[stderr] " + text);
        } else {
          output := output + text;
        }
      }
    }

    /** `stop()`. */
    method Stop()
      requires Valid()
      modifies this
      ensures Valid() && State() == StopRun(old(State()))
    {
      SignalsKeepConsistency(State(), "", false);
      shouldStop := true;
      if process.Some? {
        terminations := terminations + 1;
      }
    }

    /** `clear()`. */
    method Clear()
      requires Valid()
      modifies this
      ensures Valid() && State() == ClearRun(old(State()))
    {
      SignalsKeepConsistency(State(), "", false);
      output := "";
      stepStatuses := map[];
      currentStepIndex := 0;
      overallSuccess := true;
    }
  }
}
