/** The single-script runner object (ScriptletRunner/Services/ScriptRunner.swift): each
    event updates its fields in place and is proved to take it to the state the matching
    function of `ScriptRunSpec` describes. */
module ScriptRun {
  import opened Base
  import opened Arguments
  import opened Scripts
  import opened Command
  import opened ScriptRunSpec

  class ScriptRunner {
    var isRunning: bool
    var output: string
    var exitCode: Option<Int32>
    var process: Option<Invocation>
    var terminations: nat

    function State(): RunnerState
      reads this
    {
      RunnerState(isRunning, output, exitCode, process, terminations)
    }

    predicate Valid()
      reads this
    {
      Consistent(State())
    }

    constructor()
      ensures State() == Initial() && Valid()
    {
      isRunning := false;
      output := "";
      exitCode := None;
      process := None;
      terminations := 0;
    }

    /** `run(script:arguments:)`; `env`, `home` and `user` are the app's environment, home
        directory and user name, and `failure` the error the launch throws, if any. */
    method Run(
      script: Script, arguments: seq<ScriptArgument>,
      env: map<string, string>, home: string, user: string, failure: Option<string>)
      requires Valid()
      modifies this
      ensures Valid() && State() == Launched(old(State()), script, arguments, env, home, user, failure)
    {
      EventsKeepConsistency(State(), script, arguments, env, home, user, failure, 0, "", false);
      if isRunning {
        return;
      }
      isRunning := true;
      output := "";
      exitCode := None;
      var environment := env;
      environment := environment["HOME" := home];
      environment := environment["USER" := user];
      environment := environment["TERM" := "xterm-256color"];
      var scriptCommand := ComposeCommand(script.path, arguments);
      process := Some(Invocation(Shell, ["-c", scriptCommand], Directory(script), Some(environment)));
      if failure.Some? {
        output := "Failed to start script: " + failure.value;
        isRunning := false;
      }
    }

    /** The termination handler's main-queue block. */
    method OnTerminated(status: Int32)
      requires Valid()
      modifies this
      ensures Valid() && State() == Terminated(old(State()), status)
    {
      isRunning := false;
      exitCode := Some(status);
    }

    /** The readability handlers of the two pipes, with their main-queue blocks. */
    method OnOutput(text: string, fromStandardError: bool)
      requires Valid()
      modifies this
      ensures Valid() && State() == Chunk(old(State()), text, fromStandardError)
    {
      if isRunning && text != "" {
        if fromStandardError {
          output := output + ("[stderr] " + text);
        } else {
          output := output + text;
        }
      }
    }

    /** `stop()`. */
    method Stop()
      requires Valid()
      modifies this
      ensures Valid() && State() == StopRun(old(State()))
    {
      if process.Some? {
        terminations := terminations + 1;
      }
    }

    /** `clear()`. */
    method Clear()
      requires Valid()
      modifies this
      ensures Valid() && State() == ClearRun(old(State()))
    {
      output := "";
      exitCode := None;
    }
  }
}
