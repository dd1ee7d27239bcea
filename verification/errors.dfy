/** `ExecError`, `ExecResult` and the error texts the run loop prints. */
module Errors {
  import opened Decimal

  /** Outcome of executing one line, other than success. `Other` carries the
      rendered text of whatever error a handler raised. */
  datatype ExecError =
    | Empty
    | Quit
    | MissingArgs
    | UnknownCommand(name: string)
    | InvalidHistory(index: nat)
    | Other(message: string)

  /** `Result<(), ExecError>`. */
  datatype ExecResult = Ok | Err(error: ExecError)

  /** The `Display` text of an error. */
  function Message(e: ExecError): string {
    match e
    case Empty => "No command provided"
    case Quit => "Quit"
    case UnknownCommand(cmd) => "Unknown Command " + cmd
    case InvalidHistory(i) => "Invalid history entry " + NatToString(i)
    case MissingArgs => "Not enough arguments"
    case Other(msg) => msg
  }

  /** Apart from `Other`, whose text is free, the message names the error:
      two errors with the same text are the same error. */
  lemma MessageIdentifies(e1: ExecError, e2: ExecError)
    requires !e1.Other? && !e2.Other?
    requires Message(e1) == Message(e2)
    ensures e1 == e2
  {
    var m := Message(e1);
    match e1
    case Empty =>
      assert m[0] == 'N' && m[2] == ' ';
    case Quit =>
      assert |m| == 4;
    case MissingArgs =>
      assert m[0] == 'N' && m[2] == 't';
    case UnknownCommand(a) =>
      assert m[0] == 'U';
      var b := e2.name;
      assert a == m[16..] == b;
    case InvalidHistory(i) =>
      assert m[0] == 'I';
      var j := e2.index;
      assert NatToString(i) == m[22..] == NatToString(j);
      RenderInjective(i, j);
  }
}
