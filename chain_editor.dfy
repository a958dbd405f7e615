/** The chain editor sheet (ScriptletRunner/Views/ChainEditorView.swift): editing a copy
    of a chain's steps, the per-step argument toggles and values, looking a step's script
    up, and handing the edited chain back. */
module ChainEditor {
  import opened Base
  import opened Scripts
  import opened Chains
  import opened Collections

  function StepHasId(id: Uuid): ScriptChainStep -> bool {
    (s: ScriptChainStep) => s.id == id
  }

  // ----- An argument's toggle and value field -----

  /** The toggle's getter: the argument's id is among the enabled flags. */
  predicate FlagEnabled(step: ScriptChainStep, argId: Uuid) {
    argId in step.enabledFlags
  }

  function OtherFlag(argId: Uuid): Uuid -> bool {
    (f: Uuid) => f != argId
  }

  /** The toggle's setter: switching on appends the id, switching off removes every
      occurrence of it. */
  function WithFlag(step: ScriptChainStep, argId: Uuid, enabled: bool): ScriptChainStep {
    if enabled then step.(enabledFlags := step.enabledFlags + [argId])
    else step.(enabledFlags := Filter(step.enabledFlags, OtherFlag(argId)))
  }

  /** The toggle reads back what was set, leaves every other argument's toggle and the
      rest of the step alone, and switching on appends exactly one entry. */
  lemma ToggleReadsBack(step: ScriptChainStep, argId: Uuid, enabled: bool, other: Uuid)
    ensures FlagEnabled(WithFlag(step, argId, enabled), argId) == enabled
    ensures other != argId ==> FlagEnabled(WithFlag(step, argId, enabled), other) == FlagEnabled(step, other)
    ensures enabled ==> WithFlag(step, argId, enabled).enabledFlags == step.enabledFlags + [argId]
    ensures !enabled ==> Subsequence(WithFlag(step, argId, enabled).enabledFlags, step.enabledFlags)
    ensures WithFlag(step, argId, enabled) == step.(enabledFlags := WithFlag(step, argId, enabled).enabledFlags)
  {
    if !enabled {
      FilterKeeps(step.enabledFlags, OtherFlag(argId), argId);
      FilterKeeps(step.enabledFlags, OtherFlag(argId), other);
      FilterIsSubsequence(step.enabledFlags, OtherFlag(argId));
    }
  }

  /** Switching an argument off undoes any number of earlier switchings on: however
      often it was appended, none of its entries survive. */
  lemma SwitchingOffUndoesSwitchingOn(step: ScriptChainStep, argId: Uuid)
    ensures WithFlag(WithFlag(step, argId, true), argId, false) == WithFlag(step, argId, false)
  {
    FilterAppend(step.enabledFlags, [argId], OtherFlag(argId));
  }

  /** The value field's getter: the stored value, or the empty string. */
  function ArgumentValue(step: ScriptChainStep, argId: Uuid): string {
    if argId in step.arguments then step.arguments[argId] else ""
  }

  /** The value field's setter, which writes the key the getter reads. */
  function WithValue(step: ScriptChainStep, argId: Uuid, value: string): ScriptChainStep {
    step.(arguments := step.arguments[argId := value])
  }

  /** The field reads back the typed value; other arguments' values and the toggles
      are untouched. An argument never written reads as empty. */
  lemma ValueFieldReadsBack(step: ScriptChainStep, argId: Uuid, value: string, other: Uuid)
    ensures ArgumentValue(WithValue(step, argId, value), argId) == value
    ensures other != argId ==> ArgumentValue(WithValue(step, argId, value), other) == ArgumentValue(step, other)
    ensures WithValue(step, argId, value).enabledFlags == step.enabledFlags
    ensures argId !in step.arguments ==> ArgumentValue(step, argId) == ""
  {
  }

  function FlagSetter(argId: Uuid, enabled: bool): ScriptChainStep -> ScriptChainStep {
    (s: ScriptChainStep) => WithFlag(s, argId, enabled)
  }

  function ValueSetter(argId: Uuid, value: string): ScriptChainStep -> ScriptChainStep {
    (s: ScriptChainStep) => WithValue(s, argId, value)
  }

  function ErrorPolicySetter(continueOnError: bool): ScriptChainStep -> ScriptChainStep {
    (s: ScriptChainStep) => s.(continueOnError := continueOnError)
  }

  // ----- A step's script -----

  /** The row's `script`: the first script at the step's path. */
  function StepScript(scripts: seq<Script>, step: ScriptChainStep): Option<Script> {
    FindByPath(scripts, step.scriptPath)
  }

  const ScriptNotFound: string := "Script not found"

  /** The warning under a step's name. */
  function StepWarning(scripts: seq<Script>, step: ScriptChainStep): Option<string> {
    if StepScript(scripts, step).None? then Some(ScriptNotFound) else None
  }

  /** The warning appears exactly when no script has the step's path; otherwise the
      row's script is one at that path. */
  lemma WarningMeansNoScriptAtPath(scripts: seq<Script>, step: ScriptChainStep)
    ensures StepWarning(scripts, step) == Some(ScriptNotFound) <==>
              forall k :: 0 <= k < |scripts| ==> scripts[k].path != step.scriptPath
    ensures StepWarning(scripts, step).None? <==> StepScript(scripts, step).Some?
    ensures StepScript(scripts, step).Some? ==>
              StepScript(scripts, step).value in scripts
              && StepScript(scripts, step).value.path == step.scriptPath
  {
    FindByPathFindsFirst(scripts, step.scriptPath);
  }

  /** A step added from the picker, whose scripts are the editor's, finds its script. */
  lemma AddedStepFindsItsScript(scripts: seq<Script>, script: Script, stepId: Uuid)
    requires script in scripts
    ensures StepWarning(scripts, NewStep(stepId, script.path, script.name)).None?
  {
    var k :| 0 <= k < |scripts| && scripts[k] == script;
    WarningMeansNoScriptAtPath(scripts, NewStep(stepId, script.path, script.name));
    assert scripts[k].path == script.path;
  }

  // ----- Saving -----

  /** The Save button is enabled exactly when the chain has a name and a step. */
  predicate CanSave(chain: ScriptChain) {
    chain.name != [] && chain.steps != []
  }

  /** A freshly created chain cannot be saved until a step is added, and then it can
      exactly when it has a name. */
  lemma SaveNeedsAStep(id: Uuid, t: Timestamp, chain: ScriptChain, step: ScriptChainStep)
    ensures !CanSave(NewChain(id, "New Chain", t))
    ensures CanSave(chain.(steps := chain.steps + [step])) <==> chain.name != []
  {
    assert |chain.(steps := chain.steps + [step]).steps| > 0;
  }

  /** The sheet's title. */
  function Title(isNew: bool): string {
    if isNew then "New Chain" else "Edit Chain"
  }

  /** The editor's state: `chain` is its binding, `editedChain` the working copy. */
  class ChainEditorView {
    var chain: ScriptChain
    var editedChain: ScriptChain
    const scripts: seq<Script>
    const isNew: bool

    constructor(chain: ScriptChain, scripts: seq<Script>, isNew: bool)
      ensures this.chain == chain && editedChain == chain
      ensures this.scripts == scripts && this.isNew == isNew
    {
      this.chain := chain;
      editedChain := chain;
      this.scripts := scripts;
      this.isNew := isNew;
    }

    /** The Save button's enabled state. */
    function SaveEnabled(): bool
      reads this
    {
      CanSave(editedChain)
    }

    /** `addStep(for:)`: one new step for the picked script, with the default policy. */
    method AddStep(script: Script, stepId: Uuid)
      modifies this`editedChain
      ensures editedChain == old(editedChain).(steps := old(editedChain.steps) + [NewStep(stepId, script.path, script.name)])
    {
      var step := NewStep(stepId, script.path, script.name);
      editedChain := editedChain.(steps := editedChain.steps + [step]);
    }

    /** `removeStep(at:)`; `remove(at:)` traps on an index out of range. */
    method RemoveStep(index: nat)
      requires index < |editedChain.steps|
      modifies this`editedChain
      ensures editedChain == old(editedChain).(steps := RemoveAt(old(editedChain.steps), index))
    {
      editedChain := editedChain.(steps := RemoveAt(editedChain.steps, index));
    }

    /** `moveSteps(from:to:)`, with the offsets the list hands over. */
    method MoveSteps(source: set<nat>, destination: nat)
      requires destination <= |editedChain.steps| && forall i :: i in source ==> i < |editedChain.steps|
      modifies this`editedChain
      ensures editedChain == old(editedChain).(steps := MoveOffsets(old(editedChain.steps), source, destination))
    {
      editedChain := editedChain.(steps := MoveOffsets(editedChain.steps, source, destination));
    }

    /** An argument toggle of the step with id `stepId`, written through `binding(for:)`. */
    method SetFlag(stepId: Uuid, argId: Uuid, enabled: bool)
      modifies this`editedChain
      ensures editedChain == old(editedChain).(steps := UpdateFirst(old(editedChain.steps), StepHasId(stepId), FlagSetter(argId, enabled)))
    {
      editedChain := editedChain.(steps := UpdateFirst(editedChain.steps, StepHasId(stepId), FlagSetter(argId, enabled)));
    }

    /** An argument value field of the step with id `stepId`. */
    method SetArgumentValue(stepId: Uuid, argId: Uuid, value: string)
      modifies this`editedChain
      ensures editedChain == old(editedChain).(steps := UpdateFirst(old(editedChain.steps), StepHasId(stepId), ValueSetter(argId, value)))
    {
      editedChain := editedChain.(steps := UpdateFirst(editedChain.steps, StepHasId(stepId), ValueSetter(argId, value)));
    }

    /** The "Continue on error" toggle of the step with id `stepId`. */
    method SetContinueOnError(stepId: Uuid, continueOnError: bool)
      modifies this`editedChain
      ensures editedChain == old(editedChain).(steps := UpdateFirst(old(editedChain.steps), StepHasId(stepId), ErrorPolicySetter(continueOnError)))
    {
      editedChain := editedChain.(steps := UpdateFirst(editedChain.steps, StepHasId(stepId), ErrorPolicySetter(continueOnError)));
    }

    /** `saveChain`: the binding receives the working copy, which is also what is handed
        to `onSave`. */
    method Save() returns (saved: ScriptChain)
      modifies this`chain
      ensures chain == editedChain && saved == editedChain
    {
      chain := editedChain;
      saved := editedChain;
    }
  }
}
