/** `Shell::run_loop` as a fold over the input lines: print the prompt, then
    for each line run it and report the outcome. Empty lines are ignored,
    `Quit` stops the loop, any other error is printed as `Error : <message>`,
    and only lines that succeed are pushed onto the history. */
module RunLoop {
  import opened Text
  import opened Errors
  import opened Shells
  import opened Dispatch
  import HistoryLog
  import Replay

  /** `Diverged`: a line's history replay did not finish within the fuel.
      With fuel at least the history capacity this means the replay never
      finishes (`DivergedIsEndless`). */
  datatype Status = Running | Stopped | Diverged

  datatype Session<!P> = Session(shell: Shell<P>, output: seq<Output>, status: Status)

  /** The loop prints the prompt before reading the first line. */
  function Start<P>(sh: Shell<P>): Session<P> {
    Session(sh, [Prompt(sh.prompt)], Running)
  }

  function ErrorLine(e: ExecError): Output {
    Line("Error : " + Message(e))
  }

  /** One iteration of the loop. */
  function Step<P>(s: Session<P>, line: string, fuel: nat): (r: Session<P>)
    requires 0 < s.shell.history.capacity
    ensures s.status != Running ==> r == s
    ensures r.shell.history == s.shell.history || r.shell.history == HistoryLog.Push(s.shell.history, line)
    ensures |s.output| <= |r.output| && r.output[..|s.output|] == s.output
    ensures Valid(s.shell) ==> Valid(r.shell)
  {
    if s.status != Running then s
    else
      match Run(s.shell, line, fuel)
      case OutOfFuel => s.(status := Diverged)
      case Done(sh, out, result) =>
        match result
        case Ok =>
          Session(sh.(history := HistoryLog.Push(sh.history, line)), s.output + out + [Prompt(sh.prompt)], Running)
        case Err(e) =>
          if e.Empty? then Session(sh, s.output + out + [Prompt(sh.prompt)], Running)
          else if e.Quit? then Session(sh, s.output + out, Stopped)
          else Session(sh, s.output + out + [ErrorLine(e), Prompt(sh.prompt)], Running)
  }

  /** Given at least as much fuel as the history holds entries, a diverged
      step is one whose line replays for ever: no fuel would let it finish. */
  lemma DivergedIsEndless<P>(s: Session<P>, line: string, fuel: nat, fuel': nat)
    requires HistoryLog.Valid(s.shell.history) && fuel >= s.shell.history.capacity
    requires s.status == Running && Step(s, line, fuel).status == Diverged
    ensures Run(s.shell, line, fuel') == OutOfFuel
  {
    Replay.DivergenceIsEndless(s.shell, line, fuel, fuel');
  }

  /** The reporting policy, case by case, in terms of what the line's run
      returned: only success touches the history, only `Quit` stops, `Empty`
      prints nothing but the next prompt, every other error prints its message. */
  lemma StepReports<P>(s: Session<P>, line: string, fuel: nat)
    requires 0 < s.shell.history.capacity && s.status == Running
    requires Run(s.shell, line, fuel).Done?
    ensures var x := Run(s.shell, line, fuel);
      var r := Step(s, line, fuel);
      && r.shell.commands == x.shell.commands && r.shell.data == x.shell.data
      && r.shell.prompt == x.shell.prompt
      && (r.shell.history == if x.result.Ok? then HistoryLog.Push(s.shell.history, line) else s.shell.history)
      && (r.status == if x.result == Err(Quit) then Stopped else Running)
      && r.output == s.output + x.output +
           (if x.result.Ok? || x.result == Err(Empty) then [Prompt(x.shell.prompt)]
            else if x.result == Err(Quit) then []
            else [ErrorLine(x.result.error), Prompt(x.shell.prompt)])
  {
  }

  /** A blank line changes nothing and prints only the next prompt. */
  lemma BlankLineIgnored<P>(s: Session<P>, line: string, fuel: nat)
    requires 0 < s.shell.history.capacity && s.status == Running
    requires AllWhitespace(line)
    ensures Step(s, line, fuel) == s.(output := s.output + [Prompt(s.shell.prompt)])
  {
  }

  /** `quit` stops the loop without writing anything, not even a prompt. */
  lemma QuitStops<P>(s: Session<P>, fuel: nat)
    requires 0 < s.shell.history.capacity && s.status == Running
    requires "quit" in s.shell.commands && s.shell.commands["quit"] == QuitCommand()
    ensures Step(s, "quit", fuel) == s.(status := Stopped)
  {
    TokensOfToken("quit");
    QuitLineQuits(s.shell, "quit", fuel);
    StepOnQuit(s, "quit", fuel);
  }

  /** A line whose run quits without changing the shell only stops the loop. */
  lemma StepOnQuit<P>(s: Session<P>, line: string, fuel: nat)
    requires 0 < s.shell.history.capacity && s.status == Running
    requires Run(s.shell, line, fuel) == Done(s.shell, [], Err(Quit))
    ensures Step(s, line, fuel) == s.(status := Stopped)
  {
  }

  /** A line whose run fails with an error other than `Empty` or `Quit`,
      without changing the shell, prints the message and the next prompt. */
  lemma StepOnError<P>(s: Session<P>, line: string, e: ExecError, fuel: nat)
    requires 0 < s.shell.history.capacity && s.status == Running
    requires !e.Empty? && !e.Quit?
    requires Run(s.shell, line, fuel) == Done(s.shell, [], Err(e))
    ensures Step(s, line, fuel) == s.(output := s.output + [ErrorLine(e), Prompt(s.shell.prompt)])
  {
    assert s.output + [] + [ErrorLine(e), Prompt(s.shell.prompt)] == s.output + [ErrorLine(e), Prompt(s.shell.prompt)];
  }

  /** The loop over all input lines. */
  function Loop<P>(s: Session<P>, lines: seq<string>, fuel: nat): (r: Session<P>)
    requires 0 < s.shell.history.capacity
    ensures r.shell.history.capacity == s.shell.history.capacity
    decreases |lines|
  {
    if |lines| == 0 then s else Loop(Step(s, lines[0], fuel), lines[1..], fuel)
  }

  lemma LoopUnfolds<P>(s: Session<P>, lines: seq<string>, fuel: nat)
    requires 0 < s.shell.history.capacity && |lines| > 0
    ensures Loop(s, lines, fuel) == Loop(Step(s, lines[0], fuel), lines[1..], fuel)
  {
  }

  /** `run_loop` from a shell. */
  function RunLoop<P>(sh: Shell<P>, lines: seq<string>, fuel: nat): Session<P>
    requires 0 < sh.history.capacity
  {
    Loop(Start(sh), lines, fuel)
  }

  /** A stopped (or diverged) loop ignores everything after. */
  lemma {:induction false} LoopAfterStop<P>(s: Session<P>, lines: seq<string>, fuel: nat)
    requires 0 < s.shell.history.capacity && s.status != Running
    ensures Loop(s, lines, fuel) == s
    decreases |lines|
  {
    if |lines| > 0 {
      LoopAfterStop(Step(s, lines[0], fuel), lines[1..], fuel);
    }
  }

  /** Lines are processed strictly in order: running `a` then `b` is running `a + b`. */
  lemma {:induction false} LoopConcat<P>(s: Session<P>, a: seq<string>, b: seq<string>, fuel: nat)
    requires 0 < s.shell.history.capacity
    ensures Loop(s, a + b, fuel) == Loop(Loop(s, a, fuel), b, fuel)
    decreases |a|
  {
    if |a| > 0 {
      assert (a + b)[0] == a[0];
      assert (a + b)[1..] == a[1..] + b;
      LoopConcat(Step(s, a[0], fuel), a[1..], b, fuel);
    } else {
      assert a + b == b;
    }
  }

  /** After `Quit` the rest of the input has no effect and no prompt is printed. */
  lemma QuitIsTerminal<P>(s: Session<P>, line: string, rest: seq<string>, fuel: nat)
    requires 0 < s.shell.history.capacity && s.status == Running
    requires Run(s.shell, line, fuel) == Done(s.shell, [], Err(Quit))
    ensures Loop(s, [line] + rest, fuel) == s.(status := Stopped)
  {
    var s' := Step(s, line, fuel);
    StepOnQuit(s, line, fuel);
    assert ([line] + rest)[1..] == rest;
    LoopAfterStop(s', rest, fuel);
  }

  /** The shell invariant (commands keyed by name, history within capacity)
      holds throughout the loop. */
  lemma {:induction false} LoopKeepsValid<P>(s: Session<P>, lines: seq<string>, fuel: nat)
    requires 0 < s.shell.history.capacity && Valid(s.shell)
    ensures Valid(Loop(s, lines, fuel).shell)
    decreases |lines|
  {
    if |lines| > 0 {
      LoopKeepsValid(Step(s, lines[0], fuel), lines[1..], fuel);
    }
  }

  /** Every line in the history came either from the history before the loop
      or from the input. */
  lemma {:induction false} HistoryFromInput<P>(s: Session<P>, lines: seq<string>, fuel: nat)
    requires 0 < s.shell.history.capacity
    ensures forall e :: e in Loop(s, lines, fuel).shell.history.entries ==>
      e in s.shell.history.entries || e in lines
    decreases |lines|
  {
    if |lines| > 0 {
      var s' := Step(s, lines[0], fuel);
      PushFrom(s.shell.history, lines[0]);
      HistoryFromInput(s', lines[1..], fuel);
      assert forall e :: e in lines[1..] ==> e in lines;
    }
  }

  lemma PushFrom(h: HistoryLog.History, line: string)
    requires 0 < h.capacity
    ensures forall e :: e in HistoryLog.Push(h, line).entries ==> e in h.entries || e == line
  {
  }

  /** The replay trap: once the history is full, a successful `history <last>`
      is pushed as the last entry, and running the same line again never
      finishes, whatever the fuel. */
  lemma ReplayTrap<P>(s: Session<P>, fuel: nat, fuel': nat)
    requires s.status == Running && HistoryLog.Valid(s.shell.history)
    requires |s.shell.history.entries| == s.shell.history.capacity
    requires s.shell.history.capacity - 1 <= Decimal.UsizeMax
    requires var x := Run(s.shell, HistoryLine(s.shell.history.capacity - 1), fuel);
      x.Done? && x.result.Ok? && HasHistoryBuiltin(x.shell)
    ensures var line := HistoryLine(s.shell.history.capacity - 1);
      Step(Step(s, line, fuel), line, fuel').status == Diverged
  {
    var i := s.shell.history.capacity - 1;
    HistoryLineTokens(i);
    ReplayTrapOn(s, HistoryLine(i), i, fuel, fuel');
  }

  /** The replay trap for any line that reads `history <i>`, `i` the last slot. */
  lemma ReplayTrapOn<P>(s: Session<P>, line: string, i: nat, fuel: nat, fuel': nat)
    requires s.status == Running && HistoryLog.Valid(s.shell.history)
    requires |s.shell.history.entries| == s.shell.history.capacity == i + 1
    requires i <= Decimal.UsizeMax
    requires Tokens(line) == ["history", Decimal.NatToString(i)]
    requires var x := Run(s.shell, line, fuel);
      x.Done? && x.result.Ok? && HasHistoryBuiltin(x.shell)
    ensures Step(Step(s, line, fuel), line, fuel').status == Diverged
  {
    var s' := Step(s, line, fuel);
    StepOnOk(s, line, fuel);
    HistoryLog.PushFull(s.shell.history, line);
    SelfReplayDiverges(s'.shell, line, i, fuel');
  }

  /** A line that succeeds is pushed onto the history of the shell it left. */
  lemma StepOnOk<P>(s: Session<P>, line: string, fuel: nat)
    requires 0 < s.shell.history.capacity && s.status == Running
    requires var x := Run(s.shell, line, fuel); x.Done? && x.result.Ok?
    ensures var x := Run(s.shell, line, fuel);
      Step(s, line, fuel) == Session(x.shell.(history := HistoryLog.Push(s.shell.history, line)),
                                     s.output + x.output + [Prompt(x.shell.prompt)], Running)
  {
  }

  /** A short session on a fresh shell: an unknown command is reported (the
      line `Error : Unknown Command frobnicate`), a blank line only
      re-prompts, `quit` ends the loop, and the `help` after it is never read. */
  lemma ExampleSession<P>(d: P, fuel: nat)
    ensures RunLoop(New(d), ["frobnicate", " ", "quit", "help"], fuel)
            == Session(New(d), [Prompt(">"), ErrorLine(UnknownCommand("frobnicate")), Prompt(">"), Prompt(">")], Stopped)
  {
    var sh := New(d);
    ExampleLines();
    assert "frobnicate" !in sh.commands;
    SessionOnShell(sh, "frobnicate", " ", "quit", "help", fuel);
  }

  lemma ExampleLines()
    ensures IsToken("frobnicate") && AllWhitespace(" ") && Tokens("quit") == ["quit"]
  {
    TokensOfToken("quit");
  }

  /** The same session on any shell: an unknown command, a blank line, a line
      that calls the `quit` built-in, and one more line. */
  lemma SessionOnShell<P>(sh: Shell<P>, unknown: string, blank: string, quit: string, later: string, fuel: nat)
    requires 0 < sh.history.capacity
    requires IsToken(unknown) && unknown !in sh.commands
    requires AllWhitespace(blank)
    requires Tokens(quit) == ["quit"] && "quit" in sh.commands && sh.commands["quit"] == QuitCommand()
    ensures RunLoop(sh, [unknown, blank, quit, later], fuel)
            == Session(sh, [Prompt(sh.prompt), ErrorLine(UnknownCommand(unknown)), Prompt(sh.prompt), Prompt(sh.prompt)], Stopped)
  {
    var s0 := Start(sh);
    var s1 := Step(s0, unknown, fuel);
    var s2 := Step(s1, blank, fuel);
    var s3 := Step(s2, quit, fuel);
    SessionSteps(sh, unknown, blank, quit, fuel);
    LoopAfterStop(s3, [later], fuel);
    var lines := [unknown, blank, quit, later];
    assert lines[1..] == [blank, quit, later];
    assert lines[1..][1..] == [quit, later];
    assert lines[1..][1..][1..] == [later];
    LoopUnfolds(s0, lines, fuel);
    LoopUnfolds(s1, lines[1..], fuel);
    LoopUnfolds(s2, lines[1..][1..], fuel);
  }

  lemma SessionSteps<P>(sh: Shell<P>, unknown: string, blank: string, quit: string, fuel: nat)
    requires 0 < sh.history.capacity
    requires IsToken(unknown) && unknown !in sh.commands
    requires AllWhitespace(blank)
    requires Tokens(quit) == ["quit"] && "quit" in sh.commands && sh.commands["quit"] == QuitCommand()
    ensures Step(Step(Step(Start(sh), unknown, fuel), blank, fuel), quit, fuel)
            == Session(sh, [Prompt(sh.prompt), ErrorLine(UnknownCommand(unknown)), Prompt(sh.prompt), Prompt(sh.prompt)], Stopped)
  {
    var p := Prompt(sh.prompt);
    var e := ErrorLine(UnknownCommand(unknown));
    var s0 := Start(sh);
    var s1 := Session(sh, [p] + [e, p], Running);
    var s2 := Session(sh, [p] + [e, p] + [p], Running);
    assert Step(s0, unknown, fuel) == s1 by {
      TokensOfToken(unknown);
      RunFindsNothing(sh, unknown, fuel);
      StepOnError(s0, unknown, UnknownCommand(unknown), fuel);
    }
    assert Step(s1, blank, fuel) == s2 by {
      BlankLineIgnored(s1, blank, fuel);
    }
    assert Step(s2, quit, fuel) == s2.(status := Stopped) by {
      QuitLineQuits(sh, quit, fuel);
      StepOnQuit(s2, quit, fuel);
    }
    assert [p] + [e, p] + [p] == [p, e, p, p];
  }

  /** Any line whose only token is `quit` quits, when `quit` is the built-in. */
  lemma QuitLineQuits<P>(sh: Shell<P>, quit: string, fuel: nat)
    requires Tokens(quit) == ["quit"] && "quit" in sh.commands && sh.commands["quit"] == QuitCommand()
    ensures Run(sh, quit, fuel) == Done(sh, [], Err(Quit))
  {
    RunLooksUp(sh, quit, fuel);
    RunCommandPasses(QuitCommand(), sh, [], fuel);
    assert ["quit"][1..] == [];
  }
}
