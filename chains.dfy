/** Script chains and their steps (ScriptletRunner/Models/ScriptChain.swift). */
module Chains {
  import opened Base

  /** One step: which script to run (by path, with a cached name), the per-step
      argument values and enabled argument ids, and the error policy. */
  datatype ScriptChainStep = ScriptChainStep(
    id: Uuid,
    scriptPath: string,
    scriptName: string,
    arguments: map<Uuid, string>,
    enabledFlags: seq<Uuid>,
    continueOnError: bool)

  /** The step initialiser with its defaults; `id` is the freshly drawn `UUID()`. */
  function NewStep(
    id: Uuid,
    scriptPath: string,
    scriptName: string,
    arguments: map<Uuid, string> := map[],
    enabledFlags: seq<Uuid> := [],
    continueOnError: bool := false): (s: ScriptChainStep)
    ensures s.id == id && s.scriptPath == scriptPath && s.scriptName == scriptName
    ensures s.arguments == arguments && s.enabledFlags == enabledFlags
    ensures s.continueOnError == continueOnError
  {
    ScriptChainStep(id, scriptPath, scriptName, arguments, enabledFlags, continueOnError)
  }

  datatype ScriptChain = ScriptChain(
    id: Uuid,
    name: string,
    description: string,
    steps: seq<ScriptChainStep>,
    createdAt: Timestamp,
    lastRunAt: Option<Timestamp>)

  /** The chain initialiser with its defaults; `createdAt` is the `Date()` of creation. */
  function NewChain(
    id: Uuid,
    name: string,
    createdAt: Timestamp,
    description: string := "",
    steps: seq<ScriptChainStep> := [],
    lastRunAt: Option<Timestamp> := None): (c: ScriptChain)
    ensures c.id == id && c.name == name && c.createdAt == createdAt
    ensures c.description == description && c.steps == steps && c.lastRunAt == lastRunAt
  {
    ScriptChain(id, name, description, steps, createdAt, lastRunAt)
  }

  /** `stepCount`. */
  function StepCount(c: ScriptChain): (n: nat)
    ensures n == |c.steps|
    ensures n == 0 <==> c.steps == []
  {
    |c.steps|
  }

  /** A step created with only its script has an empty override set and stops the
      chain on error; a new chain holds no steps. */
  lemma DefaultsAreEmpty(stepId: Uuid, path: string, name: string, chainId: Uuid, t: Timestamp)
    ensures NewStep(stepId, path, name).arguments == map[]
    ensures NewStep(stepId, path, name).enabledFlags == []
    ensures !NewStep(stepId, path, name).continueOnError
    ensures StepCount(NewChain(chainId, name, t)) == 0
    ensures NewChain(chainId, name, t).description == "" && NewChain(chainId, name, t).lastRunAt.None?
  {
  }
}
