/** The shell: its command table, registration surface, the three built-in
    commands and `Shell::run`, which tokenizes a line, looks the first token up
    and runs the command behind the arity gate.

    Handlers are closures in shrust. Here a host handler is a function
    from a read-only `View` of the shell and the arguments to a `Reaction`: the
    new payload, the new prompt, the commands it registers, the lines it writes
    and its result. The built-ins are distinct handler kinds because they need
    the whole shell. */
module Shells {
  import opened Text
  import opened Decimal
  import opened StringOrder
  import opened Errors
  import HistoryLog

  /** What the shell writes: the prompt (no newline), one text line, or one
      row of the help table. */
  datatype Output = Prompt(text: string) | Line(text: string) | HelpRow(name: string, description: string)

  /** The part of the shell a host handler can read. */
  datatype View<!P> = View(data: P, prompt: string, history: seq<string>)

  /** The effect of one host handler call. */
  datatype Reaction<!P> = Reaction(
    data: P,
    prompt: string,
    registers: seq<Command<P>>,
    output: seq<string>,
    result: ExecResult)

  /** The effect of a payload-scoped handler: it can only change the payload. */
  datatype PayloadReaction<!P> = PayloadReaction(data: P, output: seq<string>, result: ExecResult)

  datatype Handler<!P> =
    | HelpHandler
    | QuitHandler
    | HistoryHandler
    | ShellFn(f: (View<P>, seq<string>) -> Reaction<P>)

  /** `builtins::Command`: `nargs` is the minimum number of arguments. */
  datatype Command<!P> = Command(name: string, description: string, nargs: nat, handler: Handler<P>)

  datatype Shell<!P> = Shell(
    commands: map<string, Command<P>>,
    data: P,
    prompt: string,
    history: HistoryLog.History)

  /** Each command is stored under its own name, as `register_command` does. */
  predicate WellKeyed<P>(cmds: map<string, Command<P>>) {
    forall k :: k in cmds ==> cmds[k].name == k
  }

  predicate Valid<P>(sh: Shell<P>) {
    WellKeyed(sh.commands) && HistoryLog.Valid(sh.history)
  }

  const HistoryCapacity: nat := 10

  function HelpCommand<P>(): Command<P> {
    Command("help", "Print this help", 0, HelpHandler)
  }

  function QuitCommand<P>(): Command<P> {
    Command("quit", "Quit", 0, QuitHandler)
  }

  function HistoryCommand<P>(): Command<P> {
    Command("history", "Print commands history or run a command from it", 0, HistoryHandler)
  }

  /** `register_command`: insert under the command's name, replacing whatever
      was there, built-ins included. */
  function Register<P>(sh: Shell<P>, cmd: Command<P>): (r: Shell<P>)
    ensures cmd.name in r.commands && r.commands[cmd.name] == cmd
    ensures r.commands.Keys == sh.commands.Keys + {cmd.name}
    ensures forall k :: k in sh.commands && k != cmd.name ==> r.commands[k] == sh.commands[k]
    ensures r.data == sh.data && r.prompt == sh.prompt && r.history == sh.history
    ensures WellKeyed(sh.commands) ==> WellKeyed(r.commands)
  {
    sh.(commands := sh.commands[cmd.name := cmd])
  }

  /** The names a sequence of commands registers. */
  function Names<P>(cmds: seq<Command<P>>): set<string> {
    set i | 0 <= i < |cmds| :: cmds[i].name
  }

  /** No command after position `i` is registered under the same name. */
  predicate LastUnder<P>(cmds: seq<Command<P>>, i: nat)
    requires i < |cmds|
  {
    forall j :: i < j < |cmds| ==> cmds[j].name != cmds[i].name
  }

  /** `after` is `before` with `cmds` registered in order: the registered
      names are added, the last command under each of them is the one kept,
      and every other name keeps its command. */
  ghost predicate Registers<P>(before: map<string, Command<P>>, cmds: seq<Command<P>>, after: map<string, Command<P>>) {
    && after.Keys == before.Keys + Names(cmds)
    && (forall k :: k in before && k !in Names(cmds) ==> after[k] == before[k])
    && (forall i :: 0 <= i < |cmds| && LastUnder(cmds, i) ==> after[cmds[i].name] == cmds[i])
  }

  /** Registering several commands in order. */
  function RegisterAll<P>(sh: Shell<P>, cmds: seq<Command<P>>): (r: Shell<P>)
    ensures r.data == sh.data && r.prompt == sh.prompt && r.history == sh.history
    ensures Registers(sh.commands, cmds, r.commands)
    ensures WellKeyed(sh.commands) ==> WellKeyed(r.commands)
    decreases |cmds|
  {
    if |cmds| == 0 then sh
    else
      var sh' := Register(sh, cmds[0]);
      var r := RegisterAll(sh', cmds[1..]);
      RegistersCons(sh.commands, cmds[0], cmds[1..], r.commands);
      assert [cmds[0]] + cmds[1..] == cmds;
      r
  }

  /** Registering `c` and then `tail` is registering `[c] + tail`. */
  lemma RegistersCons<P>(before: map<string, Command<P>>, c: Command<P>, tail: seq<Command<P>>,
                         after: map<string, Command<P>>)
    requires Registers(before[c.name := c], tail, after)
    ensures Registers(before, [c] + tail, after)
  {
    var cmds := [c] + tail;
    assert forall i :: 0 < i < |cmds| ==> cmds[i] == tail[i - 1];
    assert Names(cmds) == {c.name} + Names(tail) by {
      assert cmds[0].name == c.name;
      forall n | n in Names(cmds) ensures n in {c.name} + Names(tail) {
        var i :| 0 <= i < |cmds| && cmds[i].name == n;
        if i > 0 {
          assert tail[i - 1].name == n;
        }
      }
      forall n | n in Names(tail) ensures n in Names(cmds) {
        var i :| 0 <= i < |tail| && tail[i].name == n;
        assert cmds[i + 1].name == n;
      }
    }
    forall i | 0 <= i < |cmds| && LastUnder(cmds, i)
      ensures after[cmds[i].name] == cmds[i]
    {
      if i == 0 {
        forall n | n in Names(tail) ensures n != c.name {
          var j :| 0 <= j < |tail| && tail[j].name == n;
          assert cmds[j + 1] == tail[j];
        }
      } else {
        assert LastUnder(tail, i - 1) by {
          forall j | i - 1 < j < |tail| ensures tail[j].name != tail[i - 1].name {
            assert cmds[j + 1] == tail[j];
          }
        }
      }
    }
  }

  /** Re-registering a name leaves only the later command reachable. */
  lemma RegisterOverwrites<P>(sh: Shell<P>, first: Command<P>, second: Command<P>)
    requires first.name == second.name
    ensures Register(Register(sh, first), second) == Register(sh, second)
  {
  }

  /** `Shell::new`. */
  function New<P>(data: P): (sh: Shell<P>)
    ensures sh.commands.Keys == {"help", "quit", "history"}
    ensures sh.commands["help"] == HelpCommand()
    ensures sh.commands["quit"] == QuitCommand()
    ensures sh.commands["history"] == HistoryCommand()
    ensures sh.data == data && sh.prompt == ">"
    ensures sh.history.entries == [] && sh.history.capacity == HistoryCapacity
    ensures Valid(sh)
  {
    var empty := Shell(map[], data, ">", HistoryLog.New(HistoryCapacity));
    Register(Register(Register(empty, HelpCommand()), QuitCommand()), HistoryCommand())
  }

  /** `set_prompt`. */
  function SetPrompt<P>(sh: Shell<P>, prompt: string): (r: Shell<P>)
    ensures r.prompt == prompt
    ensures r.commands == sh.commands && r.data == sh.data && r.history == sh.history
  {
    sh.(prompt := prompt)
  }

  /** `new_shell_command`. */
  function NewShellCommand<P>(sh: Shell<P>, name: string, description: string, nargs: nat,
                              f: (View<P>, seq<string>) -> Reaction<P>): Shell<P>
  {
    Register(sh, Command(name, description, nargs, ShellFn(f)))
  }

  /** The adapter `new_command` wraps a payload-scoped handler in: it hands
      the handler the payload and keeps everything else. */
  function Adapt<P>(g: (P, seq<string>) -> PayloadReaction<P>): (View<P>, seq<string>) -> Reaction<P> {
    (v: View<P>, args: seq<string>) =>
      var pr := g(v.data, args);
      Reaction(pr.data, v.prompt, [], pr.output, pr.result)
  }

  /** `new_command`. */
  function NewCommand<P>(sh: Shell<P>, name: string, description: string, nargs: nat,
                         g: (P, seq<string>) -> PayloadReaction<P>): Shell<P>
  {
    NewShellCommand(sh, name, description, nargs, Adapt(g))
  }

  /** `new_command_noargs`: arity 0, arguments ignored. */
  function NewCommandNoArgs<P>(sh: Shell<P>, name: string, description: string,
                               g: P -> PayloadReaction<P>): Shell<P>
  {
    NewShellCommand(sh, name, description, 0, Adapt((d: P, args: seq<string>) => g(d)))
  }

  /** `print_help`: one `(name, description)` row per command, in key order. */
  function HelpListing<P>(cmds: map<string, Command<P>>): (r: seq<Output>)
    ensures |r| == |cmds| && forall i :: 0 <= i < |r| ==> r[i].HelpRow?
    ensures WellKeyed(cmds) ==> forall i :: 0 <= i < |r| ==>
      r[i].name in cmds && r[i].description == cmds[r[i].name].description
    ensures WellKeyed(cmds) ==> forall k :: k in cmds ==> exists i :: 0 <= i < |r| && r[i].name == k
    ensures WellKeyed(cmds) ==> forall i, j :: 0 <= i < j < |r| ==>
      Below(r[i].name, r[j].name) && r[i].name != r[j].name
  {
    var keys := SortedKeys(cmds.Keys);
    var rows := HelpRows(cmds, keys);
    HelpRowsFollowKeys(cmds, keys, rows);
    rows
  }

  function HelpRows<P>(cmds: map<string, Command<P>>, keys: seq<string>): seq<Output>
    requires forall i :: 0 <= i < |keys| ==> keys[i] in cmds
  {
    seq(|keys|, i requires 0 <= i < |keys| => HelpRow(cmds[keys[i]].name, cmds[keys[i]].description))
  }

  lemma HelpRowsFollowKeys<P>(cmds: map<string, Command<P>>, keys: seq<string>, rows: seq<Output>)
    requires |keys| == |cmds.Keys|
    requires forall i :: 0 <= i < |keys| ==> keys[i] in cmds
    requires forall k :: k in cmds ==> k in keys
    requires StrictlySorted(keys)
    requires rows == HelpRows(cmds, keys)
    ensures |rows| == |cmds| && forall i :: 0 <= i < |rows| ==> rows[i].HelpRow?
    ensures WellKeyed(cmds) ==> forall i :: 0 <= i < |rows| ==>
      rows[i].name in cmds && rows[i].description == cmds[rows[i].name].description
    ensures WellKeyed(cmds) ==> forall k :: k in cmds ==> exists i :: 0 <= i < |rows| && rows[i].name == k
    ensures WellKeyed(cmds) ==> forall i, j :: 0 <= i < j < |rows| ==>
      Below(rows[i].name, rows[j].name) && rows[i].name != rows[j].name
  {
    assert |cmds| == |cmds.Keys|;
    if WellKeyed(cmds) {
      forall i | 0 <= i < |rows|
        ensures rows[i].name == keys[i]
      {
        assert keys[i] in cmds;
        assert rows[i] == HelpRow(cmds[keys[i]].name, cmds[keys[i]].description);
      }
      forall k | k in cmds
        ensures exists i :: 0 <= i < |rows| && rows[i].name == k
      {
        assert k in keys;
        var i :| 0 <= i < |keys| && keys[i] == k;
        assert rows[i].name == k;
      }
    }
  }

  function Lines(text: seq<string>): seq<Output> {
    seq(|text|, i requires 0 <= i < |text| => Line(text[i]))
  }

  function ViewOf<P>(sh: Shell<P>): View<P> {
    View(sh.data, sh.prompt, sh.history.entries)
  }

  /** What a host handler's reaction does to the shell. */
  function Apply<P>(sh: Shell<P>, re: Reaction<P>): (r: Shell<P>)
    ensures r.data == re.data && r.prompt == re.prompt && r.history == sh.history
    ensures Registers(sh.commands, re.registers, r.commands)
    ensures WellKeyed(sh.commands) ==> WellKeyed(r.commands)
  {
    RegisterAll(sh.(data := re.data, prompt := re.prompt), re.registers)
  }

  /** Outcome of running a line: the new shell, what was written, the result;
      or `OutOfFuel` when history replay nested deeper than the fuel allows. */
  datatype Exec<!P> = Done(shell: Shell<P>, output: seq<Output>, result: ExecResult) | OutOfFuel

  /** `Shell::run`. `fuel` bounds the nesting of history replays.
      `Shell::run` in shrust trims the line before splitting it; splitting on
      whitespace already drops leading and trailing whitespace, so the model
      splits directly and `RunIgnoresTrim` shows that trimming first gives the
      same outcome. */
  function Run<P>(sh: Shell<P>, line: string, fuel: nat): (r: Exec<P>)
    ensures AllWhitespace(line) ==> r == Done(sh, [], Err(Empty))
    ensures r.Done? ==> r.shell.history == sh.history
    ensures r.Done? && WellKeyed(sh.commands) ==> WellKeyed(r.shell.commands)
    decreases fuel, 3
  {
    var tokens := Tokens(line);
    if |tokens| == 0 then Done(sh, [], Err(Empty))
    else if tokens[0] !in sh.commands then Done(sh, [], Err(UnknownCommand(tokens[0])))
    else RunCommand(sh.commands[tokens[0]], sh, tokens[1..], fuel)
  }

  lemma RunIgnoresTrim<P>(sh: Shell<P>, line: string, fuel: nat)
    ensures Run(sh, Trim(line), fuel) == Run(sh, line, fuel)
  {
    TrimKeepsTokens(line);
  }

  /** `Command::run`: the arity gate in front of the handler. */
  function RunCommand<P>(cmd: Command<P>, sh: Shell<P>, args: seq<string>, fuel: nat): (r: Exec<P>)
    ensures |args| < cmd.nargs ==> r == Done(sh, [], Err(MissingArgs))
    ensures r.Done? ==> r.shell.history == sh.history
    ensures r.Done? && WellKeyed(sh.commands) ==> WellKeyed(r.shell.commands)
    decreases fuel, 2
  {
    if |args| < cmd.nargs then Done(sh, [], Err(MissingArgs))
    else Invoke(cmd.handler, sh, args, fuel)
  }

  /** Calls a handler whose arity has been checked. */
  function Invoke<P>(handler: Handler<P>, sh: Shell<P>, args: seq<string>, fuel: nat): (r: Exec<P>)
    ensures r.Done? ==> r.shell.history == sh.history
    ensures r.Done? && WellKeyed(sh.commands) ==> WellKeyed(r.shell.commands)
    decreases fuel, 1
  {
    match handler
    case HelpHandler => RunHelp(sh)
    case QuitHandler => Done(sh, [], Err(Quit))
    case HistoryHandler => RunHistory(sh, args, fuel)
    case ShellFn(f) => RunHostHandler(f, sh, args)
  }

  /** The `help` built-in. */
  function RunHelp<P>(sh: Shell<P>): Exec<P> {
    Done(sh, HelpListing(sh.commands), Ok)
  }

  /** A host handler: apply its reaction, write its lines, return its result. */
  function RunHostHandler<P>(f: (View<P>, seq<string>) -> Reaction<P>, sh: Shell<P>, args: seq<string>): (r: Exec<P>)
    ensures r.Done? && r.shell.history == sh.history
    ensures WellKeyed(sh.commands) ==> WellKeyed(r.shell.commands)
  {
    var re := f(ViewOf(sh), args);
    Done(Apply(sh, re), Lines(re.output), re.result)
  }

  /** The `history` built-in: with an argument, parse it as an index and
      re-run that entry; without, list the entries. */
  function RunHistory<P>(sh: Shell<P>, args: seq<string>, fuel: nat): (r: Exec<P>)
    ensures r.Done? ==> r.shell.history == sh.history
    ensures r.Done? && WellKeyed(sh.commands) ==> WellKeyed(r.shell.commands)
    decreases fuel, 0
  {
    if |args| > 0 then
      match ParseUsize(args[0])
      case ParseFailed(kind) => Done(sh, [], Err(Other(IntErrorMessage(kind))))
      case Parsed(i) =>
        match HistoryLog.Get(sh.history, i)
        case None => Done(sh, [], Err(InvalidHistory(i)))
        case Some(entry) => if fuel == 0 then OutOfFuel else Run(sh, entry, fuel - 1)
    else
      Done(sh, Lines(HistoryLog.Print(sh.history)), Ok)
  }
}
