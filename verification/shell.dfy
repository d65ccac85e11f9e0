/**
 * What the manager sees of running an external command (BashCommand.py).
 * Spawning processes, threads and process groups are not modelled: the
 * command's exit status, its output, its error output and how long it ran
 * are supplied to the model as a `Reply`.
 */
module Shell {
  import opened Wrappers
  import opened Strings

  /**
   * The exceptions that can leave a manager operation. `Uncaught` stands for
   * the Python errors the entry point does not catch (a `TypeError` from
   * concatenating `None`, an `AttributeError` from `.group` on a failed
   * match, a `ValueError` from `int()`, an `IOError` from a missing file).
   */
  datatype Error = RuntimeError(message: string) | Timeout | Uncaught(exception: string)

  datatype Outcome = Pass | Fail(error: Error)

  /** A value computed by code that may raise instead. */
  datatype Attempt<T> = Value(value: T) | Raised(error: Error)

  /** The result of one external command: exit status, raw outputs and its running time in seconds. */
  datatype Reply = Reply(exitCode: int, stdout: string, stderr: string, seconds: nat)

  /** One step of a compensated sequence: a command and the command that undoes it, if any. */
  datatype Step = Step(command: string, undo: Option<string>)

  /** The handler a command uses when it is given none: raise the captured error output. */
  function DefaultErrorHandler(errorOutput: string): Outcome {
    Fail(RuntimeError(errorOutput))
  }

  /**
   * `BashCommand.execute`: both outputs are stripped when captured, and the
   * error handler runs on the stripped error output only for a non-zero exit.
   */
  function Execute(reply: Reply, handler: string -> Outcome): Outcome {
    if reply.exitCode != 0 then handler(Strip(reply.stderr)) else Pass
  }

  /** `TimedBashCommand.execute`: a command still running after `timeout` seconds raises `Timeout`. */
  function ExecuteTimed(reply: Reply, handler: string -> Outcome, timeout: nat): Outcome {
    if reply.seconds > timeout then Fail(Timeout) else Execute(reply, handler)
  }

  /** `str(e)` of a raised error. */
  function ErrorText(error: Error): string {
    match error
    case RuntimeError(message) => message
    case Timeout => ""
    case Uncaught(exception) => exception
  }

  /** The stripped standard output a command leaves in `self.output`. */
  function Output(reply: Reply): string {
    Strip(reply.stdout)
  }

  /** `BashCommand.undo`: the undo command is launched only when there is a non-empty one. */
  function UndoCommands(step: Step): (r: seq<string>)
    ensures |r| <= 1
    ensures r != [] <==> step.undo.Some? && step.undo.value != ""
    ensures r != [] ==> r[0] == step.undo.value
  {
    if step.undo.Some? && step.undo.value != "" then [step.undo.value] else []
  }

  /** A command together with the handler of its error output. */
  datatype Cmd = Cmd(command: string, handler: string -> Outcome)

  /** The outcome of the `i`-th of `commands` when its reply is the one at trace position `base + i`. */
  function StepOutcome(respond: (nat, string) -> Reply, base: nat, commands: seq<Cmd>, i: nat): Outcome
    requires i < |commands|
  {
    Execute(respond(base + i, commands[i].command), commands[i].handler)
  }

  /** The command texts of `commands`, in order. */
  function CommandTexts(commands: seq<Cmd>): (r: seq<string>)
    ensures |r| == |commands| && forall i :: 0 <= i < |r| ==> r[i] == commands[i].command
  {
    seq(|commands|, i requires 0 <= i < |commands| => commands[i].command)
  }

  /** The position of the first of `commands`, from `from` on, that raises; `|commands|` when none does. */
  function FirstFailing(respond: (nat, string) -> Reply, base: nat, commands: seq<Cmd>, from: nat): (r: nat)
    requires from <= |commands|
    ensures from <= r <= |commands|
    ensures forall i :: from <= i < r ==> StepOutcome(respond, base, commands, i).Pass?
    ensures r < |commands| ==> StepOutcome(respond, base, commands, r).Fail?
    decreases |commands| - from
  {
    if from == |commands| then from
    else if StepOutcome(respond, base, commands, from).Fail? then from
    else FirstFailing(respond, base, commands, from + 1)
  }

  /**
   * A straight run of `execute()` calls: the commands are issued in order,
   * the first at trace position `base`, and the first one that raises ends
   * the run. The result is the commands issued and how the run ended.
   */
  function Script(respond: (nat, string) -> Reply, base: nat, commands: seq<Cmd>): (r: (seq<string>, Outcome))
    ensures r.1.Pass? ==> r.0 == CommandTexts(commands)
    ensures r.1.Fail? ==> 0 < |r.0| <= |commands|
  {
    var k := FirstFailing(respond, base, commands, 0);
    if k == |commands| then (CommandTexts(commands), Pass)
    else (CommandTexts(commands[..k + 1]), StepOutcome(respond, base, commands, k))
  }

  /**
   * A straight run passes exactly when every command passes; otherwise it
   * issued the commands up to the first that raised, and ended with that
   * command's error.
   */
  lemma ScriptStopsAtFirstFailure(respond: (nat, string) -> Reply, base: nat, commands: seq<Cmd>)
    ensures var r := Script(respond, base, commands);
            (r.1.Pass? <==> forall i :: 0 <= i < |commands| ==> StepOutcome(respond, base, commands, i).Pass?) &&
            (r.1.Fail? ==> var k := |r.0| - 1;
                           r.0 == CommandTexts(commands[..k + 1]) && r.1 == StepOutcome(respond, base, commands, k) &&
                           forall i :: 0 <= i < k ==> StepOutcome(respond, base, commands, i).Pass?)
  {
  }

  /** The handler is consulted only when the exit status is non-zero; a zero exit always passes. */
  lemma HandlerOnlyOnFailure(reply: Reply, handler: string -> Outcome)
    ensures reply.exitCode == 0 ==> Execute(reply, handler) == Pass
    ensures reply.exitCode != 0 ==> Execute(reply, handler) == handler(Strip(reply.stderr))
  {
  }

  /** With the default handler a command fails exactly when it exits non-zero, carrying its stripped error output. */
  lemma DefaultHandlerFailsOnNonZero(reply: Reply)
    ensures Execute(reply, DefaultErrorHandler).Fail? <==> reply.exitCode != 0
    ensures reply.exitCode != 0 ==> Execute(reply, DefaultErrorHandler) == Fail(RuntimeError(Strip(reply.stderr)))
  {
  }

  /** A timed command that overran fails with `Timeout`, whatever it printed and however it exited. */
  lemma TimeoutWins(reply: Reply, handler: string -> Outcome, timeout: nat)
    ensures reply.seconds > timeout ==> ExecuteTimed(reply, handler, timeout) == Fail(Timeout)
    ensures reply.seconds <= timeout ==> ExecuteTimed(reply, handler, timeout) == Execute(reply, handler)
  {
  }
}
