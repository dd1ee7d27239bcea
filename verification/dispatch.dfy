/** What `Shell::run` does with a command line, stated over lines written as
    `name arg1 arg2 ...`, and the behaviour of the history replay built-in. */
module Dispatch {
  import opened Text
  import opened Decimal
  import opened Errors
  import opened Shells
  import HistoryLog

  /** The line a user types to run `name` with `args`. */
  function CommandLine(name: string, args: seq<string>): string {
    Join([name] + args)
  }

  lemma CommandLineTokens(name: string, args: seq<string>)
    requires IsToken(name) && AllTokens(args)
    ensures Tokens(CommandLine(name, args)) == [name] + args
  {
    JoinRoundTrip([name] + args);
  }

  /** A first token with no command behind it is reported with exactly that
      token, and nothing changes. */
  lemma UnknownCommandReported<P>(sh: Shell<P>, name: string, args: seq<string>, fuel: nat)
    requires IsToken(name) && AllTokens(args)
    requires name !in sh.commands
    ensures Run(sh, CommandLine(name, args), fuel) == Done(sh, [], Err(UnknownCommand(name)))
  {
    CommandLineTokens(name, args);
  }

  /** The arity gate: the handler of `name` runs exactly when at least `nargs`
      arguments were given; otherwise the result is `MissingArgs` and the shell
      is untouched. */
  lemma ArityGate<P>(sh: Shell<P>, name: string, args: seq<string>, fuel: nat)
    requires IsToken(name) && AllTokens(args)
    requires name in sh.commands
    ensures |args| < sh.commands[name].nargs ==>
      Run(sh, CommandLine(name, args), fuel) == Done(sh, [], Err(MissingArgs))
    ensures |args| >= sh.commands[name].nargs ==>
      Run(sh, CommandLine(name, args), fuel) == Invoke(sh.commands[name].handler, sh, args, fuel)
  {
    CommandLineTokens(name, args);
    assert ([name] + args)[1..] == args;
  }

  /** Once registered, a name dispatches to the new command, whatever was
      registered under it before (a built-in included). */
  lemma RegisteredCommandRuns<P>(sh: Shell<P>, cmd: Command<P>, args: seq<string>, fuel: nat)
    requires IsToken(cmd.name) && AllTokens(args)
    ensures var sh' := Register(sh, cmd);
      Run(sh', CommandLine(cmd.name, args), fuel) == RunCommand(cmd, sh', args, fuel)
  {
    CommandLineTokens(cmd.name, args);
    assert ([cmd.name] + args)[1..] == args;
  }

  /** A command added with `new_shell_command` gets the arity gate and, past
      it, returns its handler's result: the shell becomes the handler's
      reaction applied to it (payload, prompt, registrations), the output is
      the handler's lines, and the history is left alone. */
  lemma ShellCommandRuns<P>(sh: Shell<P>, name: string, description: string, nargs: nat,
                            f: (View<P>, seq<string>) -> Reaction<P>, args: seq<string>, fuel: nat)
    requires IsToken(name) && AllTokens(args)
    ensures var sh' := NewShellCommand(sh, name, description, nargs, f);
      var re := f(ViewOf(sh'), args);
      var r := Run(sh', CommandLine(name, args), fuel);
      && (|args| < nargs ==> r == Done(sh', [], Err(MissingArgs)))
      && (|args| >= nargs ==>
            && r == Done(Apply(sh', re), Lines(re.output), re.result)
            && r.shell.data == re.data && r.shell.prompt == re.prompt
            && r.shell.history == sh.history
            && Registers(sh'.commands, re.registers, r.shell.commands))
  {
    RegisteredCommandRuns(sh, Command(name, description, nargs, ShellFn(f)), args, fuel);
  }

  /** A command added with `new_command` gets the same arity gate and, past
      it, changes nothing but the payload. */
  lemma PayloadCommandRuns<P>(sh: Shell<P>, name: string, description: string, nargs: nat,
                              g: (P, seq<string>) -> PayloadReaction<P>, args: seq<string>, fuel: nat)
    requires IsToken(name) && AllTokens(args)
    ensures var sh' := NewCommand(sh, name, description, nargs, g);
      var pr := g(sh'.data, args);
      Run(sh', CommandLine(name, args), fuel) ==
        if |args| < nargs then Done(sh', [], Err(MissingArgs))
        else Done(sh'.(data := pr.data), Lines(pr.output), pr.result)
  {
    var cmd := Command(name, description, nargs, ShellFn(Adapt(g)));
    var sh' := NewCommand(sh, name, description, nargs, g);
    RegisteredCommandRuns(sh, cmd, args, fuel);
    if |args| >= nargs {
      var pr := g(sh'.data, args);
      var re := Adapt(g)(ViewOf(sh'), args);
      assert re == Reaction(pr.data, sh'.prompt, [], pr.output, pr.result);
      assert Apply(sh', re) == sh'.(data := pr.data);
      assert RunCommand(cmd, sh', args, fuel) == RunHostHandler(Adapt(g), sh', args);
    }
  }

  /** The built-in `quit` ends with `Quit`, ignores its arguments and writes nothing. */
  lemma QuitQuits<P>(sh: Shell<P>, args: seq<string>, fuel: nat)
    requires AllTokens(args)
    requires "quit" in sh.commands && sh.commands["quit"] == QuitCommand()
    ensures Run(sh, CommandLine("quit", args), fuel) == Done(sh, [], Err(Quit))
  {
    ArityGate(sh, "quit", args, fuel);
  }

  /** The built-in `help` succeeds with the sorted listing and changes nothing. */
  lemma HelpLists<P>(sh: Shell<P>, args: seq<string>, fuel: nat)
    requires AllTokens(args)
    requires "help" in sh.commands && sh.commands["help"] == HelpCommand()
    ensures Run(sh, CommandLine("help", args), fuel) == Done(sh, HelpListing(sh.commands), Ok)
  {
    ArityGate(sh, "help", args, fuel);
  }

  /** `history` still names the built-in (it can be shadowed). */
  predicate HasHistoryBuiltin<P>(sh: Shell<P>) {
    && "history" in sh.commands
    && sh.commands["history"].handler.HistoryHandler?
    && sh.commands["history"].nargs == 0
  }

  /** The line `history <i>`. */
  function HistoryLine(i: nat): string {
    CommandLine("history", [NatToString(i)])
  }

  lemma RenderedIsToken(i: nat)
    ensures IsToken(NatToString(i))
  {
    var s := NatToString(i);
    assert forall k :: 0 <= k < |s| ==> IsDigit(s[k]);
  }

  /** `history` with no argument lists the entries and changes nothing. */
  lemma HistoryListsEntries<P>(sh: Shell<P>, fuel: nat)
    requires HasHistoryBuiltin(sh)
    ensures Run(sh, "history", fuel) == Done(sh, Lines(HistoryLog.Print(sh.history)), Ok)
  {
    var line := "history";
    TokensOfToken(line);
    assert Tokens(line)[1..] == [];
    RunLooksUp(sh, line, fuel);
    RunCommandPasses(sh.commands["history"], sh, [], fuel);
    InvokeHistory(sh, [], fuel);
  }

  /** An index that is not a `usize` literal fails with `Other` carrying the
      `ParseIntError` text of the parse, changing nothing. */
  lemma HistoryBadIndex<P>(sh: Shell<P>, arg: string, rest: seq<string>, fuel: nat)
    requires HasHistoryBuiltin(sh)
    requires IsToken(arg) && AllTokens(rest)
    requires !IsUsizeLiteral(arg)
    ensures var r := Run(sh, CommandLine("history", [arg] + rest), fuel);
      && r.Done? && r.shell == sh && r.output == []
      && r.result == Err(Other(IntErrorMessage(ParseUsize(arg).kind)))
  {
    ArityGate(sh, "history", [arg] + rest, fuel);
  }

  /** An index with no entry behind it fails with `InvalidHistory` of that index. */
  lemma HistoryIndexOutOfRange<P>(sh: Shell<P>, arg: string, rest: seq<string>, fuel: nat)
    requires HasHistoryBuiltin(sh)
    requires IsToken(arg) && AllTokens(rest)
    requires IsUsizeLiteral(arg) && ParseUsize(arg).value >= |sh.history.entries|
    ensures Run(sh, CommandLine("history", [arg] + rest), fuel)
            == Done(sh, [], Err(InvalidHistory(ParseUsize(arg).value)))
  {
    ArityGate(sh, "history", [arg] + rest, fuel);
  }

  /** Replay equivalence: `history <i>` does what entry `i` does, with one
      level of fuel spent on the replay. */
  lemma ReplayEquivalence<P>(sh: Shell<P>, i: nat, fuel: nat)
    requires HasHistoryBuiltin(sh)
    requires i <= UsizeMax && i < |sh.history.entries|
    ensures Run(sh, HistoryLine(i), fuel + 1) == Run(sh, sh.history.entries[i], fuel)
  {
    HistoryLineTokens(i);
    ReplayStep(sh, HistoryLine(i), i, fuel + 1);
  }

  /** Fuel only decides whether a run finishes: a run that finishes gives the
      same outcome with any larger fuel. */
  lemma {:induction false} FuelMonotone<P>(sh: Shell<P>, line: string, fuel: nat, fuel': nat)
    requires fuel <= fuel' && Run(sh, line, fuel).Done?
    ensures Run(sh, line, fuel') == Run(sh, line, fuel)
    decreases fuel, 2
  {
    var tokens := Tokens(line);
    if |tokens| > 0 && tokens[0] in sh.commands {
      RunLooksUp(sh, line, fuel);
      RunLooksUp(sh, line, fuel');
      CommandFuelMonotone(sh.commands[tokens[0]], sh, tokens[1..], fuel, fuel');
    } else {
      RunFindsNothing(sh, line, fuel);
      RunFindsNothing(sh, line, fuel');
    }
  }

  lemma {:induction false} CommandFuelMonotone<P>(cmd: Command<P>, sh: Shell<P>, args: seq<string>, fuel: nat, fuel': nat)
    requires fuel <= fuel' && RunCommand(cmd, sh, args, fuel).Done?
    ensures RunCommand(cmd, sh, args, fuel') == RunCommand(cmd, sh, args, fuel)
    decreases fuel, 1
  {
    if |args| >= cmd.nargs {
      RunCommandPasses(cmd, sh, args, fuel);
      RunCommandPasses(cmd, sh, args, fuel');
      if cmd.handler.HistoryHandler? {
        InvokeHistory(sh, args, fuel);
        InvokeHistory(sh, args, fuel');
        HistoryFuelMonotone(sh, args, fuel, fuel');
      } else {
        InvokeIgnoresFuel(cmd.handler, sh, args, fuel, fuel');
      }
    }
  }


  /** The line reaches a history replay: it dispatches to the history
      built-in, passes its arity gate, and its first argument is an index
      with an entry behind it. */
  predicate Replays<P>(sh: Shell<P>, line: string) {
    var t := Tokens(line);
    && |t| > 1 && t[0] in sh.commands
    && sh.commands[t[0]].handler.HistoryHandler?
    && |t| - 1 >= sh.commands[t[0]].nargs
    && ParseUsize(t[1]).Parsed? && ParseUsize(t[1]).value < |sh.history.entries|
  }

  /** Fuel is spent on history replays only: with no fuel at all a line
      finishes exactly when it does not replay an entry. */
  lemma ZeroFuelFinishes<P>(sh: Shell<P>, line: string)
    ensures Run(sh, line, 0).Done? <==> !Replays(sh, line)
  {
  }

  /** When fuel suffices: a line that does not replay an entry has the same
      outcome with any fuel, and that outcome is a finished run. */
  lemma FuelSuffices<P>(sh: Shell<P>, line: string, fuel: nat)
    requires !Replays(sh, line)
    ensures Run(sh, line, fuel).Done?
    ensures Run(sh, line, fuel) == Run(sh, line, 0)
  {
    ZeroFuelFinishes(sh, line);
    FuelMonotone(sh, line, 0, fuel);
  }

  /** A command added with `new_command_noargs` takes any number of
      arguments, ignores them, and changes nothing but the payload. */
  lemma NoArgsCommandRuns<P>(sh: Shell<P>, name: string, description: string,
                             g: P -> PayloadReaction<P>, args: seq<string>, fuel: nat)
    requires IsToken(name) && AllTokens(args)
    ensures var sh' := NewCommandNoArgs(sh, name, description, g);
      var pr := g(sh'.data);
      Run(sh', CommandLine(name, args), fuel) == Done(sh'.(data := pr.data), Lines(pr.output), pr.result)
  {
    var f := Adapt((d: P, a: seq<string>) => g(d));
    var cmd := Command(name, description, 0, ShellFn(f));
    var sh' := NewCommandNoArgs(sh, name, description, g);
    RegisteredCommandRuns(sh, cmd, args, fuel);
    var pr := g(sh'.data);
    var re := f(ViewOf(sh'), args);
    assert re == Reaction(pr.data, sh'.prompt, [], pr.output, pr.result);
    assert Apply(sh', re) == sh'.(data := pr.data);
    assert RunCommand(cmd, sh', args, fuel) == RunHostHandler(f, sh', args);
  }

  /** A line whose first token names a command runs that command. */
  lemma RunLooksUp<P>(sh: Shell<P>, line: string, fuel: nat)
    requires |Tokens(line)| > 0 && Tokens(line)[0] in sh.commands
    ensures var tokens := Tokens(line);
      Run(sh, line, fuel) == RunCommand(sh.commands[tokens[0]], sh, tokens[1..], fuel)
  {
  }

  /** A line with no command behind its first token runs nothing. */
  lemma RunFindsNothing<P>(sh: Shell<P>, line: string, fuel: nat)
    requires |Tokens(line)| == 0 || Tokens(line)[0] !in sh.commands
    ensures var tokens := Tokens(line);
      Run(sh, line, fuel) ==
        if |tokens| == 0 then Done(sh, [], Err(Empty)) else Done(sh, [], Err(UnknownCommand(tokens[0])))
  {
  }

  lemma RunCommandPasses<P>(cmd: Command<P>, sh: Shell<P>, args: seq<string>, fuel: nat)
    requires |args| >= cmd.nargs
    ensures RunCommand(cmd, sh, args, fuel) == Invoke(cmd.handler, sh, args, fuel)
  {
  }

  lemma InvokeHistory<P>(sh: Shell<P>, args: seq<string>, fuel: nat)
    ensures Invoke(HistoryHandler, sh, args, fuel) == RunHistory(sh, args, fuel)
  {
  }

  /** Only the history built-in uses fuel. */
  lemma InvokeIgnoresFuel<P>(handler: Handler<P>, sh: Shell<P>, args: seq<string>, f1: nat, f2: nat)
    requires !handler.HistoryHandler?
    ensures Invoke(handler, sh, args, f1) == Invoke(handler, sh, args, f2)
  {
  }

  lemma {:induction false} HistoryFuelMonotone<P>(sh: Shell<P>, args: seq<string>, fuel: nat, fuel': nat)
    requires fuel <= fuel' && RunHistory(sh, args, fuel).Done?
    ensures RunHistory(sh, args, fuel') == RunHistory(sh, args, fuel)
    decreases fuel, 0
  {
    if |args| > 0 && ParseUsize(args[0]).Parsed? && ParseUsize(args[0]).value < |sh.history.entries| {
      var entry := sh.history.entries[ParseUsize(args[0]).value];
      HistoryReplays(sh, args, fuel);
      HistoryReplays(sh, args, fuel');
      FuelMonotone(sh, entry, fuel - 1, fuel' - 1);
    } else {
      HistoryIgnoresFuel(sh, args, fuel, fuel');
    }
  }

  /** With a stored index, the history built-in replays that entry. */
  lemma HistoryReplays<P>(sh: Shell<P>, args: seq<string>, fuel: nat)
    requires |args| > 0 && ParseUsize(args[0]).Parsed? && ParseUsize(args[0]).value < |sh.history.entries|
    ensures RunHistory(sh, args, fuel) ==
      if fuel == 0 then OutOfFuel else Run(sh, sh.history.entries[ParseUsize(args[0]).value], fuel - 1)
  {
  }

  /** Without a stored index, the history built-in does not use fuel. */
  lemma HistoryIgnoresFuel<P>(sh: Shell<P>, args: seq<string>, f1: nat, f2: nat)
    requires !(|args| > 0 && ParseUsize(args[0]).Parsed? && ParseUsize(args[0]).value < |sh.history.entries|)
    ensures RunHistory(sh, args, f1) == RunHistory(sh, args, f2)
  {
  }


  /** The line `history <i>` splits into the built-in's name and the index. */
  lemma HistoryLineTokens(i: nat)
    ensures Tokens(HistoryLine(i)) == ["history", NatToString(i)]
  {
    RenderedIsToken(i);
    CommandLineTokens("history", [NatToString(i)]);
  }

  /** Running a line that reads `history <i>` reaches the replay of entry `i`,
      or runs out of fuel. */
  lemma ReplayStep<P>(sh: Shell<P>, line: string, i: nat, fuel: nat)
    requires HasHistoryBuiltin(sh)
    requires i <= UsizeMax && i < |sh.history.entries|
    requires Tokens(line) == ["history", NatToString(i)]
    ensures Run(sh, line, fuel) ==
      if fuel == 0 then OutOfFuel else Run(sh, sh.history.entries[i], fuel - 1)
  {
    var args := [NatToString(i)];
    assert Tokens(line)[1..] == args;
    RunLooksUp(sh, line, fuel);
    RunCommandPasses(sh.commands["history"], sh, args, fuel);
    InvokeHistory(sh, args, fuel);
    ParseRendered(i);
  }

  /** An entry that replays itself never finishes: if entry `i` is a line
      reading `history <i>`, running that line exhausts any fuel. The Rust code
      recurses without bound here, since `run` never changes the history. */
  lemma {:induction false} SelfReplayDiverges<P>(sh: Shell<P>, line: string, i: nat, fuel: nat)
    requires HasHistoryBuiltin(sh)
    requires i <= UsizeMax && i < |sh.history.entries|
    requires Tokens(line) == ["history", NatToString(i)]
    requires sh.history.entries[i] == line
    ensures Run(sh, line, fuel) == OutOfFuel
    decreases fuel
  {
    ReplayStep(sh, line, i, fuel);
    if fuel > 0 {
      SelfReplayDiverges(sh, line, i, fuel - 1);
    }
  }
}
