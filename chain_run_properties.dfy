/** What a chain run does, proved about the state machine of `ChainRunSpec`
    (ScriptletRunner/Services/ChainRunner.swift). */
module ChainRunProperties {
  import opened Base
  import opened Text
  import opened Scripts
  import opened Chains
  import opened Command
  import opened ChainRunSpec

  /** Starting a chain while one runs changes nothing. */
  lemma RunWhileRunningIsIgnored(s: RunState, chain: ScriptChain, scripts: seq<Script>)
    requires s.isRunning
    ensures StartRun(s, chain, scripts) == s
  {
  }

  // ----- The output is only ever appended to -----

  lemma {:induction false} AdvanceExtendsOutput(s: RunState, i: nat)
    requires s.context.Some?
    ensures HasPrefix(Advance(s, i).output, s.output)
    decreases |Steps(s)| - i
  {
    if i < |Steps(s)| && !s.shouldStop {
      var step := Steps(s)[i];
      var v := Visit(s, i);
      var f := NotFound(v, step);
      AppendHasPrefix(s.output, StepHeader(i, step.scriptName));
      AppendHasPrefix(v.output, "ERROR: Script not found at " + step.scriptPath + "\n\n");
      PrefixTransitive(s.output, v.output, f.output);
      match FindByPath(s.context.value.scripts, step.scriptPath)
      case None =>
        if step.continueOnError {
          AdvanceExtendsOutput(f, i + 1);
          assert Advance(s, i) == Advance(f, i + 1);
          PrefixTransitive(s.output, f.output, Advance(f, i + 1).output);
        } else {
          assert Advance(s, i) == Halt(f);
          AppendHasPrefix(f.output, StoppedDueToErrorBanner);
          PrefixTransitive(s.output, f.output, Halt(f).output);
        }
      case Some(script) =>
        assert Advance(s, i) == v.(process := Some(StepInvocation(script, step)), awaiting := Some(i));
    } else if i < |Steps(s)| {
      AppendHasPrefix(s.output, StoppedByUserBanner);
    } else {
      AppendHasPrefix(s.output, CompletedBanner(s.overallSuccess));
    }
  }

  /** A run's output begins with its start banner. */
  lemma StartWritesBanner(s: RunState, chain: ScriptChain, scripts: seq<Script>)
    requires !s.isRunning
    ensures HasPrefix(StartRun(s, chain, scripts).output, StartBanner(chain))
  {
    AdvanceExtendsOutput(Started(s, chain, scripts), 0);
  }

  /** A finished step, the output and the stop events only append to the output; only
      `clear()` takes anything away. */
  lemma EventsExtendOutput(s: RunState, o: Outcome, text: string, err: bool)
    ensures Awaiting(s) ==> HasPrefix(Finish(s, o).output, s.output)
    ensures HasPrefix(Chunk(s, text, err).output, s.output) && StopRun(s).output == s.output
  {
    if Awaiting(s) {
      FinishExtendsOutput(s, o);
    }
  }

  lemma RecordedExtendsOutput(s: RunState, step: ScriptChainStep, o: Outcome)
    ensures HasPrefix(Recorded(s, step, o).output, s.output)
  {
    var s1 := if o.LaunchFailed? then s.output + ("Failed to start script: " + o.reason + "\n") else s.output;
    var code := IntToString(ExitCode(o));
    var tail := if Succeeded(o) then "Step completed with exit code: " + code + "\n\n"
                else "Step failed with exit code: " + code + "\n\n";
    assert Recorded(s, step, o).output == s1 + tail;
    if o.LaunchFailed? {
      AppendHasPrefix(s.output, "Failed to start script: " + o.reason + "\n");
    }
    AppendHasPrefix(s1, tail);
    PrefixTransitive(s.output, s1, s1 + tail);
  }

  lemma FinishExtendsOutput(s: RunState, o: Outcome)
    requires Awaiting(s)
    ensures HasPrefix(Finish(s, o).output, s.output)
  {
    var step := Steps(s)[s.awaiting.value];
    RecordedExtendsOutput(s, step, o);
    if Succeeded(o) || step.continueOnError {
      ContinuingExtendsOutput(s, o);
    } else {
      var r := Recorded(s, step, o);
      AppendHasPrefix(r.output, StoppedDueToErrorBanner);
      PrefixTransitive(s.output, r.output, Halt(r).output);
    }
  }

  lemma ContinuingExtendsOutput(s: RunState, o: Outcome)
    requires Awaiting(s)
    requires HasPrefix(Recorded(s, Steps(s)[s.awaiting.value], o).output, s.output)
    requires Succeeded(o) || Steps(s)[s.awaiting.value].continueOnError
    ensures HasPrefix(Finish(s, o).output, s.output)
  {
    var i := s.awaiting.value;
    var r := Recorded(s, Steps(s)[i], o);
    assert Finish(s, o) == Advance(r, i + 1);
    AdvanceExtendsOutput(r, i + 1);
    PrefixTransitive(s.output, r.output, Advance(r, i + 1).output);
  }

  // ----- One step -----

  /** A step whose script exists is shown as running and its process is launched: bash
      running the script with the step's arguments, in the script's directory. */
  lemma LaunchedStepRunsItsScript(s: RunState, i: nat)
    requires s.context.Some? && i < |Steps(s)| && !s.shouldStop
    requires FindByPath(s.context.value.scripts, Steps(s)[i].scriptPath).Some?
    ensures var step := Steps(s)[i];
            var script := FindByPath(s.context.value.scripts, step.scriptPath).value;
            var r := Advance(s, i);
            r.awaiting == Some(i) && r.currentStepIndex == i && r.isRunning == s.isRunning
            && r.stepStatuses == s.stepStatuses[step.id := Running]
            && r.output == s.output + StepHeader(i, step.scriptName)
            && r.process == Some(ScriptInvocation(script.path, Directory(script),
                                                  MergedArguments(script.arguments, step), None))
            && script.path == step.scriptPath
  {
    FindByPathFindsFirst(s.context.value.scripts, Steps(s)[i].scriptPath);
  }

  lemma {:induction false} AdvanceKeepsFailure(s: RunState, i: nat)
    requires s.context.Some? && !s.overallSuccess
    ensures !Advance(s, i).overallSuccess
    decreases |Steps(s)| - i
  {
    if i < |Steps(s)| && !s.shouldStop {
      var step := Steps(s)[i];
      var f := NotFound(Visit(s, i), step);
      if FindByPath(s.context.value.scripts, step.scriptPath).None? && step.continueOnError {
        AdvanceKeepsFailure(f, i + 1);
      }
    }
  }

  /** A step whose script is gone fails with "Script not found" and makes the run fail;
      the chain then stops, unless the step continues on error, in which case the next
      step comes up as if this one had finished. */
  lemma {:induction false} MissingScriptFailsStep(s: RunState, i: nat)
    requires s.context.Some? && i < |Steps(s)| && !s.shouldStop
    requires FindByPath(s.context.value.scripts, Steps(s)[i].scriptPath).None?
    ensures !Advance(s, i).overallSuccess
    ensures var step := Steps(s)[i];
            var failed := NotFound(Visit(s, i), step);
            failed.stepStatuses[step.id] == Failed("Script not found")
            && (step.continueOnError ==> Advance(s, i) == Advance(failed, i + 1))
            && (!step.continueOnError ==>
                  !Advance(s, i).isRunning && Advance(s, i).awaiting.None?
                  && Advance(s, i).stepStatuses == failed.stepStatuses
                  && Advance(s, i).output == s.output + StepHeader(i, step.scriptName)
                       + ("ERROR: Script not found at " + step.scriptPath + "\n\n")
                       + StoppedDueToErrorBanner)
  {
    var step := Steps(s)[i];
    var failed := NotFound(Visit(s, i), step);
    if step.continueOnError {
      AdvanceKeepsFailure(failed, i + 1);
    }
  }

  /** The exit status decides the step's status: completed with 0 for status 0, failed
      with "Exit code: N" otherwise, and exit code -1 when the process did not start. */
  lemma StepStatusFollowsOutcome(s: RunState, o: Outcome)
    requires Awaiting(s)
    ensures var step := Steps(s)[s.awaiting.value];
            var r := Recorded(s, step, o);
            r.stepStatuses[step.id] == (if o == Exited(0) then Completed(0)
                                        else Failed("Exit code: " + IntToString(ExitCode(o))))
            && (o.LaunchFailed? ==> ExitCode(o) == -1)
            && (r.overallSuccess <==> s.overallSuccess && o == Exited(0))
            && r.awaiting.None?
  {
  }

  // ----- Stopping -----

  /** `stop()` marks the run stopped and signals the launched process, if there is one;
      the step it interrupts finishes normally. */
  lemma StopSignalsProcess(s: RunState)
    ensures StopRun(s).shouldStop && StopRun(s).isRunning == s.isRunning
    ensures StopRun(s).terminations == if s.process.Some? then s.terminations + 1 else s.terminations
    ensures Awaiting(StopRun(s)) <==> Awaiting(s)
  {
  }

  /** After a stop, the interrupted step ends the chain: with the error banner when it
      failed and does not continue on error, otherwise with "Chain Stopped by User"
      when a further step exists and with the completion banner when it was the last
      step. No further step is started. */
  lemma StoppedChainEndsAtCurrentStep(s: RunState, o: Outcome)
    requires Awaiting(s) && s.shouldStop
    ensures var i := s.awaiting.value;
            var step := Steps(s)[i];
            var rec := Recorded(s, step, o);
            var r := Finish(s, o);
            !r.isRunning && r.awaiting.None? && r.stepStatuses == rec.stepStatuses
            && (!Succeeded(o) && !step.continueOnError ==> r.output == rec.output + StoppedDueToErrorBanner)
            && ((Succeeded(o) || step.continueOnError) && i + 1 < |Steps(s)| ==>
                  r.output == rec.output + StoppedByUserBanner)
            && ((Succeeded(o) || step.continueOnError) && i + 1 == |Steps(s)| ==>
                  r.output == rec.output + CompletedBanner(rec.overallSuccess))
  {
    var i := s.awaiting.value;
    var rec := Recorded(s, Steps(s)[i], o);
    if !Succeeded(o) && !Steps(s)[i].continueOnError {
      assert Finish(s, o) == Halt(rec);
    } else {
      assert Finish(s, o) == Advance(rec, i + 1);
    }
  }

  /** `clear()` during a run wipes the display but the run goes on with the same step. */
  lemma ClearKeepsRunGoing(s: RunState)
    ensures ClearRun(s).output == "" && ClearRun(s).stepStatuses == map[] && ClearRun(s).overallSuccess
    ensures ClearRun(s).isRunning == s.isRunning && ClearRun(s).awaiting == s.awaiting
    ensures ClearRun(s).context == s.context && ClearRun(s).shouldStop == s.shouldStop
  {
  }

  // ----- Going on after a step -----

  /** After a step that succeeded, or failed and continues on error, the next step's
      process is launched when its script exists and no stop was requested; the run
      stays successful only if the step succeeded. */
  lemma GoingOnLaunchesNext(s: RunState, o: Outcome)
    requires Awaiting(s) && !s.shouldStop && s.awaiting.value + 1 < |Steps(s)|
    requires Succeeded(o) || Steps(s)[s.awaiting.value].continueOnError
    requires FindByPath(s.context.value.scripts, Steps(s)[s.awaiting.value + 1].scriptPath).Some?
    ensures var next := Steps(s)[s.awaiting.value + 1];
            Finish(s, o).process == Some(StepInvocation(FindByPath(s.context.value.scripts, next.scriptPath).value, next))
    ensures var k := s.awaiting.value;
            var t := Finish(s, o);
            t.context == s.context && t.awaiting == Some(k + 1) && t.isRunning == s.isRunning
            && !t.shouldStop && (t.overallSuccess <==> s.overallSuccess && Succeeded(o))
            && t.stepStatuses == s.stepStatuses[Steps(s)[k].id := FinishedStatus(o)][Steps(s)[k + 1].id := Running]
  {
    var k := s.awaiting.value;
    var r := Recorded(s, Steps(s)[k], o);
    FinishGoesOn(s, o);
    AdvanceLaunches(r, k + 1);
  }

  /** Going on to step `i` when its script exists and no stop was requested shows it as
      running and launches its process, and changes nothing else that is observed here. */
  lemma AdvanceLaunches(r: RunState, i: nat)
    requires r.context.Some? && i < |Steps(r)| && !r.shouldStop
    requires FindByPath(r.context.value.scripts, Steps(r)[i].scriptPath).Some?
    ensures Advance(r, i).process == Some(StepInvocation(FindByPath(r.context.value.scripts, Steps(r)[i].scriptPath).value, Steps(r)[i]))
    ensures var t := Advance(r, i);
            t.context == r.context && t.awaiting == Some(i) && t.isRunning == r.isRunning
            && t.shouldStop == r.shouldStop && t.overallSuccess == r.overallSuccess
            && t.stepStatuses == r.stepStatuses[Steps(r)[i].id := Running]
  {
  }

  /** A step that fails and continues on error is marked failed with its exit code and
      fails the run, and the chain goes on: after the last step it completes, idle, with
      "Some steps failed.", and otherwise the next step's process is launched when its
      script exists. */
  lemma ContinueOnErrorGoesOn(s: RunState, o: Outcome)
    requires Awaiting(s) && !s.shouldStop && !Succeeded(o) && Steps(s)[s.awaiting.value].continueOnError
    ensures var k := s.awaiting.value;
            var step := Steps(s)[k];
            var rec := Recorded(s, step, o);
            var t := Finish(s, o);
            rec.stepStatuses[step.id] == Failed("Exit code: " + IntToString(ExitCode(o)))
            && !t.overallSuccess
            && (k + 1 == |Steps(s)| ==>
                  !t.isRunning && t.awaiting.None? && t.stepStatuses == rec.stepStatuses
                  && t.output == rec.output + CompletedBanner(false))
            && (k + 1 < |Steps(s)| && FindByPath(s.context.value.scripts, Steps(s)[k + 1].scriptPath).Some? ==>
                  t.awaiting == Some(k + 1) && t.isRunning == s.isRunning
                  && t.process == Some(StepInvocation(FindByPath(s.context.value.scripts, Steps(s)[k + 1].scriptPath).value,
                                                      Steps(s)[k + 1])))
  {
    var k := s.awaiting.value;
    var rec := Recorded(s, Steps(s)[k], o);
    assert Finish(s, o) == Advance(rec, k + 1);
    AdvanceKeepsFailure(rec, k + 1);
    if k + 1 < |Steps(s)| && FindByPath(s.context.value.scripts, Steps(s)[k + 1].scriptPath).Some? {
      GoingOnLaunchesNext(s, o);
    }
  }

  // ----- Whole runs -----

  /** The runner fed with the outcomes of the steps it launches, one after another; an
      outcome that arrives while no step is awaited ends the feed. */
  function Drive(s: RunState, outcomes: seq<Outcome>): RunState
    decreases |outcomes|
  {
    if outcomes != [] && Awaiting(s) then Drive(Finish(s, outcomes[0]), outcomes[1..]) else s
  }

  predicate DistinctIds(steps: seq<ScriptChainStep>) {
    forall j, k :: 0 <= j < |steps| && 0 <= k < |steps| && j != k ==> steps[j].id != steps[k].id
  }

  predicate AllFound(steps: seq<ScriptChainStep>, scripts: seq<Script>) {
    forall k :: 0 <= k < |steps| ==> FindByPath(scripts, steps[k].scriptPath).Some?
  }

  /** Each outcome lets the chain go past its step: the step succeeded, or it continues
      on error. */
  predicate GoesOn(steps: seq<ScriptChainStep>, outcomes: seq<Outcome>) {
    forall j :: 0 <= j < |outcomes| && j < |steps| ==> Succeeded(outcomes[j]) || steps[j].continueOnError
  }

  predicate AllSucceed(outcomes: seq<Outcome>) {
    forall j :: 0 <= j < |outcomes| ==> Succeeded(outcomes[j])
  }

  /** The first steps show the statuses of their outcomes. */
  predicate ShowsOutcomes(m: map<Uuid, StepStatus>, steps: seq<ScriptChainStep>, outcomes: seq<Outcome>) {
    forall j :: 0 <= j < |outcomes| && j < |steps| ==> steps[j].id in m && m[steps[j].id] == FinishedStatus(outcomes[j])
  }

  /** The steps from `k` on are still pending. */
  predicate PendingFrom(m: map<Uuid, StepStatus>, steps: seq<ScriptChainStep>, k: nat) {
    forall j :: k <= j < |steps| ==> steps[j].id in m && m[steps[j].id] == Pending
  }

  /** An unstopped run of `chain` that went past its first steps with the outcomes `done`
      and waits for the process of the next step: the run is successful exactly when
      every one of them succeeded, each shows its outcome, the awaited step is running and
      the later ones are pending. */
  predicate RunningAfter(s: RunState, chain: ScriptChain, scripts: seq<Script>, done: seq<Outcome>) {
    |done| < |chain.steps|
    && s.context == Some(RunContext(chain, scripts)) && s.awaiting == Some(|done|)
    && s.isRunning && !s.shouldStop && (s.overallSuccess <==> AllSucceed(done))
    && ShowsOutcomes(s.stepStatuses, chain.steps, done)
    && chain.steps[|done|].id in s.stepStatuses && s.stepStatuses[chain.steps[|done|].id] == Running
    && PendingFrom(s.stepStatuses, chain.steps, |done| + 1)
  }

  /** How a run ends that went through all its steps: idle, each step showing its
      outcome, successful exactly when every step succeeded, and the output ending with
      the completion banner that says which. */
  predicate CompletedWith(r: RunState, steps: seq<ScriptChainStep>, outcomes: seq<Outcome>) {
    !r.isRunning && r.awaiting.None? && (r.overallSuccess <==> AllSucceed(outcomes))
    && ShowsOutcomes(r.stepStatuses, steps, outcomes)
    && HasSuffix(r.output, CompletedBanner(AllSucceed(outcomes)))
  }

  /** How a run ends that halted on the outcome `o` of the step after those of `done`:
      idle and failed, the steps up to that one showing their outcomes, the later ones
      pending, and the output ending with the error banner. */
  predicate HaltedWith(r: RunState, steps: seq<ScriptChainStep>, done: seq<Outcome>, o: Outcome) {
    !r.isRunning && r.awaiting.None? && !r.overallSuccess
    && ShowsOutcomes(r.stepStatuses, steps, done + [o])
    && PendingFrom(r.stepStatuses, steps, |done| + 1)
    && HasSuffix(r.output, StoppedDueToErrorBanner)
  }

  lemma AllSucceedSnoc(done: seq<Outcome>, o: Outcome)
    ensures AllSucceed(done + [o]) <==> AllSucceed(done) && Succeeded(o)
  {
    assert (done + [o])[|done|] == o;
    assert forall j :: 0 <= j < |done| ==> (done + [o])[j] == done[j];
  }

  /** Recording the outcome of the running step `|done|` keeps the earlier steps' and the
      later steps' statuses. */
  lemma RecordShowsOutcome(m: map<Uuid, StepStatus>, steps: seq<ScriptChainStep>, done: seq<Outcome>, o: Outcome)
    requires |done| < |steps| && DistinctIds(steps)
    requires ShowsOutcomes(m, steps, done) && PendingFrom(m, steps, |done| + 1)
    ensures var m' := m[steps[|done|].id := FinishedStatus(o)];
            ShowsOutcomes(m', steps, done + [o]) && PendingFrom(m', steps, |done| + 1)
  {
    var k := |done|;
    var m' := m[steps[k].id := FinishedStatus(o)];
    forall j | 0 <= j < |done + [o]| && j < |steps|
      ensures steps[j].id in m' && m'[steps[j].id] == FinishedStatus((done + [o])[j])
    {
      if j < k {
        assert steps[j].id != steps[k].id;
        assert (done + [o])[j] == done[j];
      }
    }
    forall j | k + 1 <= j < |steps|
      ensures steps[j].id in m' && m'[steps[j].id] == Pending
    {
      assert steps[j].id != steps[k].id;
    }
  }

  /** Showing step `k` as running keeps the statuses of the steps before it and of those
      after it. */
  lemma LaunchKeepsOutcomes(m: map<Uuid, StepStatus>, steps: seq<ScriptChainStep>, done: seq<Outcome>)
    requires |done| < |steps| && DistinctIds(steps)
    requires ShowsOutcomes(m, steps, done) && PendingFrom(m, steps, |done|)
    ensures var m' := m[steps[|done|].id := Running];
            ShowsOutcomes(m', steps, done) && PendingFrom(m', steps, |done| + 1)
  {
    var k := |done|;
    var m' := m[steps[k].id := Running];
    forall j | 0 <= j < |done| && j < |steps|
      ensures steps[j].id in m' && m'[steps[j].id] == FinishedStatus(done[j])
    {
      assert steps[j].id != steps[k].id;
    }
    forall j | k + 1 <= j < |steps|
      ensures steps[j].id in m' && m'[steps[j].id] == Pending
    {
      assert steps[j].id != steps[k].id;
    }
  }

  /** Starting a chain whose first script exists launches its first step. */
  lemma StartReachesFirstStep(s: RunState, chain: ScriptChain, scripts: seq<Script>)
    requires !s.isRunning && chain.steps != [] && DistinctIds(chain.steps) && AllFound(chain.steps, scripts)
    ensures RunningAfter(StartRun(s, chain, scripts), chain, scripts, [])
  {
    PendingStatusesCoverSteps(chain.steps);
    var st := Started(s, chain, scripts);
    assert FindByPath(scripts, chain.steps[0].scriptPath).Some?;
    LaunchKeepsOutcomes(st.stepStatuses, chain.steps, []);
  }

  /** A step that lets the chain go on brings the run to the next step. */
  lemma StepGoesOn(s: RunState, chain: ScriptChain, scripts: seq<Script>, done: seq<Outcome>, o: Outcome)
    requires RunningAfter(s, chain, scripts, done) && |done| + 1 < |chain.steps|
    requires DistinctIds(chain.steps) && AllFound(chain.steps, scripts)
    requires Succeeded(o) || chain.steps[|done|].continueOnError
    ensures RunningAfter(Finish(s, o), chain, scripts, done + [o])
  {
    assert FindByPath(scripts, chain.steps[|done| + 1].scriptPath).Some?;
    GoingOnLaunchesNext(s, o);
    NextStepRunning(s, Finish(s, o), chain, scripts, done, o);
  }

  /** A state that records the outcome `o` of the running step and shows the next one as
      running, and is otherwise as `s`, is the run past `done + [o]`. */
  lemma NextStepRunning(s: RunState, t: RunState, chain: ScriptChain, scripts: seq<Script>, done: seq<Outcome>, o: Outcome)
    requires RunningAfter(s, chain, scripts, done) && |done| + 1 < |chain.steps| && DistinctIds(chain.steps)
    requires t.context == s.context && t.awaiting == Some(s.awaiting.value + 1) && t.isRunning == s.isRunning && !t.shouldStop
    requires t.overallSuccess <==> s.overallSuccess && Succeeded(o)
    requires t.stepStatuses == s.stepStatuses[Steps(s)[s.awaiting.value].id := FinishedStatus(o)][Steps(s)[s.awaiting.value + 1].id := Running]
    ensures RunningAfter(t, chain, scripts, done + [o])
  {
    var m := s.stepStatuses[chain.steps[|done|].id := FinishedStatus(o)];
    AllSucceedSnoc(done, o);
    RecordShowsOutcome(s.stepStatuses, chain.steps, done, o);
    LaunchKeepsOutcomes(m, chain.steps, done + [o]);
  }

  /** The last step, when it lets the chain go on, completes the chain. */
  lemma LastStepCompletes(s: RunState, chain: ScriptChain, scripts: seq<Script>, done: seq<Outcome>, o: Outcome)
    requires RunningAfter(s, chain, scripts, done) && |done| + 1 == |chain.steps| && DistinctIds(chain.steps)
    requires Succeeded(o) || chain.steps[|done|].continueOnError
    ensures CompletedWith(Finish(s, o), chain.steps, done + [o])
  {
    var k := |done|;
    var r := Recorded(s, chain.steps[k], o);
    var t := r.(output := r.output + CompletedBanner(r.overallSuccess), isRunning := false, awaiting := None);
    assert Finish(s, o) == Advance(r, k + 1) == t;
    AllSucceedSnoc(done, o);
    assert r.overallSuccess <==> AllSucceed(done + [o]);
    RecordShowsOutcome(s.stepStatuses, chain.steps, done, o);
    AppendHasSuffix(r.output, CompletedBanner(r.overallSuccess));
  }

  /** A failing step that does not continue on error halts the chain. */
  lemma StepHalts(s: RunState, chain: ScriptChain, scripts: seq<Script>, done: seq<Outcome>, o: Outcome)
    requires RunningAfter(s, chain, scripts, done) && DistinctIds(chain.steps)
    requires !Succeeded(o) && !chain.steps[|done|].continueOnError
    ensures HaltedWith(Finish(s, o), chain.steps, done, o)
  {
    var r := Recorded(s, chain.steps[|done|], o);
    assert Finish(s, o) == Halt(r);
    RecordShowsOutcome(s.stepStatuses, chain.steps, done, o);
    AppendHasSuffix(r.output, StoppedDueToErrorBanner);
  }

  /** From a run past the outcomes `done`, outcomes for the remaining steps that each let
      the chain go on complete it. */
  lemma {:induction false} DriveToEnd(s: RunState, chain: ScriptChain, scripts: seq<Script>, done: seq<Outcome>, rest: seq<Outcome>)
    requires RunningAfter(s, chain, scripts, done) && DistinctIds(chain.steps) && AllFound(chain.steps, scripts)
    requires |done| + |rest| == |chain.steps| && GoesOn(chain.steps, done + rest)
    ensures CompletedWith(Drive(s, rest), chain.steps, done + rest)
    decreases |rest|
  {
    PeelFirst(done, rest);
    if |done| + 1 == |chain.steps| {
      LastStepDrives(s, chain, scripts, done, rest);
    } else {
      var t := NextStepDrives(s, chain, scripts, done, rest);
      DriveToEnd(t, chain, scripts, done + [rest[0]], rest[1..]);
    }
  }

  /** The outcome of the last step, when it lets the chain go on, completes the feed. */
  lemma LastStepDrives(s: RunState, chain: ScriptChain, scripts: seq<Script>, done: seq<Outcome>, rest: seq<Outcome>)
    requires RunningAfter(s, chain, scripts, done) && DistinctIds(chain.steps)
    requires |done| + 1 == |chain.steps| && |rest| == 1
    requires Succeeded(rest[0]) || chain.steps[|done|].continueOnError
    ensures CompletedWith(Drive(s, rest), chain.steps, done + rest)
  {
    var t := Finish(s, rest[0]);
    LastStepCompletes(s, chain, scripts, done, rest[0]);
    DriveUnfolds(s, rest);
    assert rest == [rest[0]] && rest[1..] == [];
    assert !Awaiting(t);
  }

  /** The outcome of a step that lets the chain go on, before the last step, brings the
      feed to the next step. */
  lemma NextStepDrives(s: RunState, chain: ScriptChain, scripts: seq<Script>, done: seq<Outcome>, rest: seq<Outcome>)
      returns (t: RunState)
    requires RunningAfter(s, chain, scripts, done) && DistinctIds(chain.steps) && AllFound(chain.steps, scripts)
    requires |done| + 1 < |chain.steps| && rest != []
    requires Succeeded(rest[0]) || chain.steps[|done|].continueOnError
    ensures RunningAfter(t, chain, scripts, done + [rest[0]]) && Drive(s, rest) == Drive(t, rest[1..])
  {
    t := Finish(s, rest[0]);
    StepGoesOn(s, chain, scripts, done, rest[0]);
    DriveUnfolds(s, rest);
  }

  /** From a run past the outcomes `done`, outcomes that let the chain go on up to step
      `k`, which fails without continuing on error, halt the chain there. */
  lemma {:induction false} DriveToHalt(s: RunState, chain: ScriptChain, scripts: seq<Script>, done: seq<Outcome>, rest: seq<Outcome>, k: nat)
    requires RunningAfter(s, chain, scripts, done) && DistinctIds(chain.steps) && AllFound(chain.steps, scripts)
    requires |done| <= k < |chain.steps| && k < |done| + |rest|
    requires GoesOn(chain.steps, (done + rest)[..k])
    requires !Succeeded((done + rest)[k]) && !chain.steps[k].continueOnError
    ensures HaltedWith(Drive(s, rest), chain.steps, (done + rest)[..k], (done + rest)[k])
    decreases k - |done|
  {
    PeelFirst(done, rest);
    if |done| == k {
      assert (done + rest)[..k] == done;
      HaltDrives(s, chain, scripts, done, rest);
    } else {
      assert (done + rest)[..k][|done|] == rest[0];
      var t := NextStepDrives(s, chain, scripts, done, rest);
      DriveToHalt(t, chain, scripts, done + [rest[0]], rest[1..], k);
    }
  }

  /** The outcome of a failing step that does not continue on error ends the feed. */
  lemma HaltDrives(s: RunState, chain: ScriptChain, scripts: seq<Script>, done: seq<Outcome>, rest: seq<Outcome>)
    requires RunningAfter(s, chain, scripts, done) && DistinctIds(chain.steps) && rest != []
    requires !Succeeded(rest[0]) && !chain.steps[|done|].continueOnError
    ensures HaltedWith(Drive(s, rest), chain.steps, done, rest[0])
  {
    var t := Finish(s, rest[0]);
    StepHalts(s, chain, scripts, done, rest[0]);
    DriveUnfolds(s, rest);
    assert !Awaiting(t);
  }

  lemma DriveUnfolds(s: RunState, outcomes: seq<Outcome>)
    requires outcomes != [] && Awaiting(s)
    ensures Drive(s, outcomes) == Drive(Finish(s, outcomes[0]), outcomes[1..])
  {
  }

  /** Moving the first of the outcomes still to come to those already seen. */
  lemma PeelFirst<T>(done: seq<T>, rest: seq<T>)
    requires rest != []
    ensures (done + rest)[|done|] == rest[0] && (done + [rest[0]]) + rest[1..] == done + rest
  {
    assert (done + [rest[0]]) + rest[1..] == done + ([rest[0]] + rest[1..]);
    assert [rest[0]] + rest[1..] == rest;
  }

  /** Drive ignores the outcomes once no step is awaited. */
  lemma DriveIdle(s: RunState, outcomes: seq<Outcome>)
    requires outcomes == [] || !Awaiting(s)
    ensures Drive(s, outcomes) == s
  {
  }

  /** A chain without steps completes at once as successful. */
  lemma EmptyChainSucceeds(s: RunState, chain: ScriptChain, scripts: seq<Script>)
    requires !s.isRunning && chain.steps == []
    ensures CompletedWith(StartRun(s, chain, scripts), chain.steps, [])
  {
    var st := Started(s, chain, scripts);
    assert StartRun(s, chain, scripts) == st.(output := st.output + CompletedBanner(true), isRunning := false, awaiting := None);
    AppendHasSuffix(st.output, CompletedBanner(true));
  }

  /** A chain whose scripts all exist, fed with one outcome per step where each step
      succeeds or continues on error, runs to the end: every step shows the status of its
      outcome, and the run is idle, successful exactly when every step succeeded, with
      output ending "All steps succeeded!" or "Some steps failed." accordingly. */
  lemma ChainRunsToCompletion(s: RunState, chain: ScriptChain, scripts: seq<Script>, outcomes: seq<Outcome>)
    requires !s.isRunning && DistinctIds(chain.steps) && AllFound(chain.steps, scripts)
    requires |outcomes| == |chain.steps| && GoesOn(chain.steps, outcomes)
    ensures CompletedWith(Drive(StartRun(s, chain, scripts), outcomes), chain.steps, outcomes)
  {
    if chain.steps == [] {
      EmptyChainSucceeds(s, chain, scripts);
      DriveIdle(StartRun(s, chain, scripts), outcomes);
    } else {
      StartReachesFirstStep(s, chain, scripts);
      assert [] + outcomes == outcomes;
      DriveToEnd(StartRun(s, chain, scripts), chain, scripts, [], outcomes);
    }
  }

  /** How a run of `steps` ends when every step succeeded: idle and successful, every
      step completed with 0, and the output ending "All steps succeeded!". */
  predicate AllSucceeded(r: RunState, steps: seq<ScriptChainStep>) {
    !r.isRunning && r.overallSuccess && r.awaiting.None?
    && (forall j :: 0 <= j < |steps| ==> steps[j].id in r.stepStatuses && r.stepStatuses[steps[j].id] == Completed(0))
    && HasSuffix(r.output, CompletedBanner(true))
  }

  /** A chain whose scripts all exist and all exit with 0 ends with every step completed
      with 0, the run successful and idle, and the output ending "All steps succeeded!". */
  lemma AllStepsSucceed(s: RunState, chain: ScriptChain, scripts: seq<Script>, outcomes: seq<Outcome>)
    requires !s.isRunning && DistinctIds(chain.steps) && AllFound(chain.steps, scripts)
    requires |outcomes| == |chain.steps| && forall j :: 0 <= j < |outcomes| ==> outcomes[j] == Exited(0)
    ensures AllSucceeded(Drive(StartRun(s, chain, scripts), outcomes), chain.steps)
  {
    ChainRunsToCompletion(s, chain, scripts, outcomes);
    ZerosSucceed(Drive(StartRun(s, chain, scripts), outcomes), chain.steps, outcomes);
  }

  lemma ZerosSucceed(r: RunState, steps: seq<ScriptChainStep>, outcomes: seq<Outcome>)
    requires |outcomes| == |steps| && forall j :: 0 <= j < |outcomes| ==> outcomes[j] == Exited(0)
    requires CompletedWith(r, steps, outcomes)
    ensures AllSucceeded(r, steps)
  {
    assert AllSucceed(outcomes);
    forall j | 0 <= j < |steps|
      ensures steps[j].id in r.stepStatuses && r.stepStatuses[steps[j].id] == Completed(0)
    {
      assert FinishedStatus(outcomes[j]) == Completed(0);
    }
  }

  /** When step `k` fails (a non-zero exit status, or a process that could not be
      launched) and does not continue on error, after the earlier steps each succeeded or
      continued on error, the chain stops there: the earlier steps show their outcomes,
      step `k` failed with its exit code, the later steps are still pending, the run
      failed and is idle, and the output ends with the error banner. */
  lemma FailingStepHaltsChain(s: RunState, chain: ScriptChain, scripts: seq<Script>, k: nat, outcomes: seq<Outcome>)
    requires !s.isRunning && DistinctIds(chain.steps) && AllFound(chain.steps, scripts)
    requires k < |chain.steps| && k < |outcomes|
    requires !Succeeded(outcomes[k]) && !chain.steps[k].continueOnError
    requires GoesOn(chain.steps, outcomes[..k])
    ensures var r := Drive(StartRun(s, chain, scripts), outcomes);
            HaltedWith(r, chain.steps, outcomes[..k], outcomes[k])
            && r.stepStatuses[chain.steps[k].id] == Failed("Exit code: " + IntToString(ExitCode(outcomes[k])))
  {
    StartReachesFirstStep(s, chain, scripts);
    assert [] + outcomes == outcomes;
    DriveToHalt(StartRun(s, chain, scripts), chain, scripts, [], outcomes, k);
    assert (outcomes[..k] + [outcomes[k]])[k] == outcomes[k];
  }
}
