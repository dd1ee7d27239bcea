# shrust command dispatch, modelled in Dafny

shrust is a small library for building interactive command shells. A host
program creates a `Shell` holding its own payload (`data`). It registers
named commands, each with a description, a minimum argument count (`nargs`)
and a handler. It then calls `run_loop`, which:

- prints the prompt;
- reads lines;
- splits each line on whitespace;
- looks the first token up in a `BTreeMap` of commands;
- runs the command behind an arity gate.

Three built-ins are registered by `Shell::new`:

- `help` prints one `name : description` row per command, in key order;
- `quit` ends the loop;
- `history` either lists the last ten successful lines, or re-runs the line
  at a given index.

The model is purely functional:

- A `Shell` is an immutable value: command table, payload, prompt and
  history.
- Running a line yields the new shell, the output it writes and the
  `ExecResult`.
- A host handler is a function from a read-only view of the shell and the
  arguments to a `Reaction`. The reaction holds the new payload, the new
  prompt, any commands to register, the lines to write and the result.
- `run_loop` is a fold over the input lines, producing the whole transcript.
- A history replay calls `run` again from inside `run`. The model bounds that
  nesting with `fuel`. It proves that fuel only matters for replays
  (`ZeroFuelFinishes`, `FuelSuffices`) and that extra fuel never changes a
  finished outcome (`FuelMonotone`). Fuel at least the number of history
  entries is enough: a run that exhausts it exhausts every fuel, because its
  replays go round a cycle of entries (`DivergenceIsEndless`).

Files:

- `text.dfy` holds `trim` and `split_whitespace` over Unicode White_Space.
- `decimal.dfy` holds `usize` rendering and `usize::from_str`, with `usize`
  taken as 64 bits.
- `order.dfy` holds the `BTreeMap<String, _>` key order.
- `errors.dfy` holds `ExecError` and its `Display` texts.
- `option.dfy` holds `Option`.
- `history.dfy` holds `History`.
- `shell.dfy` holds `Shell`, `Command`, the built-ins and `run`.
- `dispatch.dfy` holds properties of `run` on typed command lines.
- `chain.dfy` holds walks along a table of links between positions, and the
  pigeonhole argument that a long enough walk goes round a cycle.
- `replay.dfy` holds the chain of replays a line starts, and the bound on
  the fuel that decides whether it ends.
- `runloop.dfy` holds `run_loop`.

The history is pushed only when a line returns `Ok`. Lines that fail, with
any error, are not recorded, which is what `run_loop` does in
`src/lib.rs:144-152`.

## Model

| member | source | states |
|---|---|---|
| Errors.MessageIdentifies | src/lib.rs:26-37 | Every `Display` text except `Other`'s determines its error: equal messages mean equal errors, including the command name and history index inside them |
| Decimal.NatToString | src/lib.rs:32 | `{}` on a `usize` gives a non-empty digit string, with no leading zero, whose decimal value is the number |
| Decimal.Accumulate | src/lib.rs:251 | The digit loop of `usize::from_str` succeeds exactly on all-digit input whose value fits in 64 bits, and then returns that value; `AccumulateOverflow` and `AccumulateInvalid` state which error a rejected input gets |
| Decimal.AccumulateOverflow | src/lib.rs:251 | Once the digits read so far exceed 2^64-1 the loop fails with `PosOverflow`, whatever follows |
| Decimal.AccumulateInvalid | src/lib.rs:251 | A non-digit reached while the digits before it still fit makes the loop fail with `InvalidDigit` |
| Decimal.ParseUsize | src/lib.rs:251 | `usize::from_str` accepts exactly an optional `+` followed by at least one digit with a value of at most 2^64-1, and yields that value; empty input is the empty-string error; `ParseUsizeOverflow` and `ParseUsizeInvalid` state the other error kinds |
| Decimal.ParseUsizeOverflow | src/lib.rs:251 | A history index whose leading digits already exceed 2^64-1 is rejected with `PosOverflow` |
| Decimal.ParseUsizeInvalid | src/lib.rs:251 | A history index with a non-digit after digits that still fit is rejected with `InvalidDigit`, and so is a lone sign |
| Errors.Message | src/lib.rs:26-37 | The `Display` text of each error; `MessageIdentifies` states that these texts tell the errors apart |
| Decimal.IntErrorMessage | src/lib.rs:251 | The `Display` text of each `ParseIntError` kind, which `?` turns into an `Other` error; `HistoryBadIndex` states that a bad `history` index fails with exactly this text |
| Decimal.ParseRendered | src/lib.rs:251 | Parsing the rendering of any `usize` gives back the same number |
| Text.TrimStart | src/lib.rs:124 | `trim_start` returns a suffix of the line whose removed prefix is all whitespace and which does not start with whitespace |
| Text.TrimEnd | src/lib.rs:124 | `trim_end` returns a prefix of the line whose removed suffix is all whitespace and which does not end with whitespace |
| Text.Tokens | src/lib.rs:124 | `split_whitespace` yields only non-empty, whitespace-free tokens, and yields none exactly when the line is all whitespace |
| Text.Trim | src/lib.rs:124 | `trim` leaves nothing of an all-whitespace line and otherwise returns text that starts and ends with a non-whitespace character; `TrimKeepsTokens` states that it never changes the tokens |
| Text.TrimKeepsTokens | src/lib.rs:124 | Trimming before splitting does not change the tokens |
| Text.JoinRoundTrip | src/lib.rs:124 | Splitting a line built as tokens separated by single spaces gives back exactly those tokens |
| StringOrder.SortedKeys | src/lib.rs:112 | `BTreeMap` iteration visits every key exactly once, in strictly increasing lexicographic order |
| StringOrder.LeastExists | src/lib.rs:112 | Every non-empty finite set of command names has a least name under the `BTreeMap` order |
| Shells.Register | src/lib.rs:87-89 | `register_command` stores the command under its own name, replacing any earlier entry (built-ins included), and leaves every other name, the payload, the prompt and the history as they were |
| Shells.RegisterOverwrites | src/lib.rs:87-89 | Registering two commands under the same name is the same as registering only the second |
| Shells.RegisterAll | src/lib.rs:87-89 | Registering several commands in order gives a table with exactly the old names plus the new ones; each name registered last holds the command registered last under it; names not registered keep their old command; payload, prompt and history are untouched |
| Shells.RegistersCons | src/lib.rs:87-89 | Registering one command and then the rest is registering all of them in order, with the later registrations winning |
| Shells.New | src/lib.rs:66-77 | A fresh shell has exactly the built-ins `help`, `quit` and `history` with their descriptions and arity 0, prompt `>`, the given payload, and an empty history of capacity 10 |
| Shells.HelpCommand | src/lib.rs:240-242 | `help_cmd`: name `help`, description `Print this help`, arity 0, the help handler; `New` states that a fresh shell holds it and `HelpLists` what running it does |
| Shells.QuitCommand | src/lib.rs:244-246 | `quit_cmd`: name `quit`, description `Quit`, arity 0, the quit handler; `QuitQuits` states that running it quits |
| Shells.HistoryCommand | src/lib.rs:248-259 | `history_cmd`: name `history`, its description, arity 0, the history handler; `HistoryListsEntries`, `HistoryBadIndex`, `HistoryIndexOutOfRange` and `ReplayEquivalence` state what running it does |
| Shells.NewShellCommand | src/lib.rs:91-95 | `new_shell_command` registers a command whose handler sees the shell; `RegisteredCommandRuns` states that a line naming it then runs it |
| Shells.NewCommand | src/lib.rs:97-101 | `new_command` registers a payload-only handler; `PayloadCommandRuns` states its arity gate and that it changes only the payload |
| Shells.NewCommandNoArgs | src/lib.rs:103-107 | `new_command_noargs` registers a payload-only handler of arity 0; `NoArgsCommandRuns` states that it ignores its arguments |
| Shells.SetPrompt | src/lib.rs:83-85 | `set_prompt` replaces the prompt and nothing else |
| Shells.HelpListing | src/lib.rs:109-117 | `print_help` writes one row per command, each with that command's own description, every command exactly once, in strictly increasing name order |
| Shells.Apply | src/lib.rs:91-95 | A host handler's effect on the shell sets the payload and prompt it chose, registers its commands in order (the last one under a name wins, other names keep their command), never touches the history, and keeps commands keyed by name |
| Shells.Run | src/lib.rs:123-132 | An all-whitespace line is `Err(Empty)` and changes nothing; no run, however nested, changes the history |
| Shells.RunIgnoresTrim | src/lib.rs:123-124 | Running the trimmed line is the same as running the raw line |
| Shells.RunCommand | src/lib.rs:232-237 | Fewer than `nargs` arguments give `MissingArgs` without calling the handler or changing the shell |
| Shells.Invoke | src/lib.rs:236 | No handler call, built-in or host, changes the history or breaks the keyed-by-name table |
| Shells.RunHelp | src/lib.rs:240-242 | The `help` built-in; `HelpLists` states that it succeeds with the sorted listing and changes nothing |
| Shells.RunHostHandler | src/lib.rs:91-95 | A host handler always finishes, leaves the history alone and keeps the table keyed by name; `ShellCommandRuns` states that a registered one returns the handler's result, writes its lines and applies its reaction |
| Shells.RunHistory | src/lib.rs:248-258 | The `history` built-in never changes the history, whatever it replays |
| HistoryLog.New | src/lib.rs:177-182 | A new history is empty, has the requested capacity, and satisfies the invariant when the capacity is positive |
| HistoryLog.Push | src/lib.rs:184-189 | A push keeps the capacity and the invariant, puts the new line last, and leaves exactly the last `min(capacity, len+1)` lines of the old entries followed by the line |
| HistoryLog.PushFull | src/lib.rs:184-189 | Pushing onto a full history keeps it full, with the new line in the last slot |
| HistoryLog.PushAllKeepsLast | src/lib.rs:184-189 | After any sequence of pushes the history holds exactly the last `capacity` lines of old entries plus new lines, in arrival order |
| HistoryLog.LastNAbsorbs | src/lib.rs:184-189 | Evicting early and evicting once at the end keep the same lines |
| HistoryLog.EvictionExample | src/lib.rs:184-189 | With capacity 2, pushing "a", "b", "c" leaves ["b", "c"] |
| HistoryLog.Get | src/lib.rs:199-201 | `get(i)` is present exactly when `i` is below the length, and then it is entry `i` |
| HistoryLog.Print | src/lib.rs:191-197 | `History::print`; `Listing` states that it writes one numbered line per entry, in order |
| HistoryLog.Listing | src/lib.rs:191-197 | `print` writes one line per entry, in order, as the entry's index, a colon, a space and the entry |
| Dispatch.CommandLineTokens | src/lib.rs:124 | A command line written as a name and arguments separated by spaces splits back into that name and those arguments |
| Dispatch.UnknownCommandReported | src/lib.rs:126-128 | A first token with no command behind it gives `UnknownCommand` of exactly that token, with no output and the shell unchanged |
| Dispatch.ArityGate | src/lib.rs:232-237 | The handler runs if and only if at least `nargs` arguments follow the name; otherwise the result is `MissingArgs` and the shell is unchanged |
| Dispatch.RegisteredCommandRuns | src/lib.rs:123-132 | After registration, a line naming the command runs that command with the remaining tokens as arguments, whatever was registered under the name before |
| Dispatch.ShellCommandRuns | src/lib.rs:232-237 | A `new_shell_command` handler run with too few arguments fails with `MissingArgs` and changes nothing; with enough it returns the handler's result, writes its lines, takes its payload and prompt, keeps the history and adds the commands it registers |
| Dispatch.PayloadCommandRuns | src/lib.rs:97-101 | A `new_command` handler has the arity gate and, past it, changes only the payload and writes only its own lines |
| Dispatch.NoArgsCommandRuns | src/lib.rs:103-107 | A `new_command_noargs` handler runs with any number of arguments, ignores them, and changes only the payload |
| Dispatch.QuitQuits | src/lib.rs:244-246 | `quit` gives `Err(Quit)` whatever its arguments, with no output and no change |
| Dispatch.HelpLists | src/lib.rs:240-242 | `help` succeeds with the sorted listing and changes nothing |
| Dispatch.HistoryListsEntries | src/lib.rs:254-257 | `history` with no argument succeeds, writes the numbered entries and changes nothing |
| Dispatch.HistoryBadIndex | src/lib.rs:251 | An index that is not a `usize` literal gives an `Other` error carrying the `ParseIntError` text of that parse, no output and no change |
| Dispatch.HistoryIndexOutOfRange | src/lib.rs:252 | An index at or past the end gives `InvalidHistory` of that index, no output and no change |
| Dispatch.ReplayEquivalence | src/lib.rs:250-253 | `history i` for a stored entry does exactly what running entry `i` does, one replay level deeper |
| Dispatch.ReplayStep | src/lib.rs:250-253 | Any line that reads `history i` reaches the replay of entry `i`, or runs out of fuel when none is left |
| Dispatch.SelfReplayDiverges | src/lib.rs:250-253 | If entry `i` is itself `history i`, running it never finishes, whatever the fuel |
| Dispatch.FuelMonotone | src/lib.rs:250-253 | A run that finishes with some fuel gives the same outcome with any more fuel |
| Dispatch.ZeroFuelFinishes | src/lib.rs:248-258 | With no fuel, a line finishes if and only if it does not replay a stored history entry |
| Dispatch.FuelSuffices | src/lib.rs:248-258 | A line that does not replay an entry finishes with any fuel, with the same outcome |
| Replay.ReplayUnfold | src/lib.rs:250-253 | A line that replays an entry runs that entry with one less fuel, or runs out when there is none |
| Replay.OutOfFuelExactly | src/lib.rs:248-258 | A run is out of fuel if and only if the line starts a chain of one more replay than the fuel |
| Replay.LinkAt | src/lib.rs:250-253 | In the link table of the history, an entry links to the index its line replays, and to nothing when it is not a replay |
| Replay.ReplaysForIsChain | src/lib.rs:250-253 | Following replays from a history entry is walking the table in which each entry links to the entry it replays |
| Replay.DivergenceIsEndless | src/lib.rs:248-258 | With fuel at least the number of history entries, a run that runs out of fuel runs out of every fuel: `run` would recurse for ever |
| Chains.CycleForever | src/lib.rs:250-253 | A chain of replays that comes back to where it started can be followed for ever |
| Chains.Endless | src/lib.rs:250-253 | A chain of replays through a history of `n` entries that lasts `n` steps revisits an entry and so never ends |
| RunLoop.Start | src/lib.rs:134-142 | `run_loop` prints the prompt before reading any line; `ExampleSession` states that the transcript starts with it |
| RunLoop.ErrorLine | src/lib.rs:148 | The line `Error : <message>` printed for a failed line; `StepReports` and `StepOnError` state when it is written |
| RunLoop.Step | src/lib.rs:143-153 | A loop iteration keeps the transcript written so far, touches the history only by pushing the line, keeps the shell invariant, and does nothing once the loop has ended |
| RunLoop.StepReports | src/lib.rs:143-153 | Only `Ok` pushes the line; only `Quit` stops; `Empty` writes only the next prompt; `Quit` writes no prompt; any other error writes `Error : <message>` and then the prompt |
| RunLoop.StepOnOk | src/lib.rs:150-153 | A successful line is pushed onto the history and followed by the prompt |
| RunLoop.BlankLineIgnored | src/lib.rs:146 | A blank line changes nothing and writes only the next prompt |
| RunLoop.QuitStops | src/lib.rs:147 | `quit` ends the loop with nothing written, not even a prompt |
| RunLoop.StepOnQuit | src/lib.rs:147 | Any line whose run quits without change only ends the loop |
| RunLoop.StepOnError | src/lib.rs:148 | Any other error writes `Error : <message>` and the prompt, and leaves the shell and history alone |
| RunLoop.Loop | src/lib.rs:143-154 | The loop never changes the history's capacity, so capacity > 0 holds throughout |
| RunLoop.RunLoop | src/lib.rs:140-155 | `run_loop` prints the prompt and steps through the lines; `StepReports`, `QuitIsTerminal` and `ExampleSession` state what it writes and when it stops |
| RunLoop.DivergedIsEndless | src/lib.rs:140-155 | With fuel at least the history capacity, a diverged step is a line that `run` would replay for ever |
| RunLoop.LoopAfterStop | src/lib.rs:147 | Once the loop has ended, later lines have no effect |
| RunLoop.QuitIsTerminal | src/lib.rs:147 | After a quitting line, the rest of the input is never read |
| RunLoop.LoopConcat | src/lib.rs:143 | Lines are processed strictly in order: the loop over `a + b` is the loop over `a` followed by the loop over `b` |
| RunLoop.LoopKeepsValid | src/lib.rs:140-155 | Commands stay keyed by name and the history stays within a positive capacity for the whole loop |
| RunLoop.HistoryFromInput | src/lib.rs:150-152 | Every history entry after the loop was already in the history or is one of the input lines |
| RunLoop.ReplayTrap | src/lib.rs:150-153 | With a full history, a successful `history <last>` becomes the last entry, and running the same line again never finishes |
| RunLoop.ExampleSession | src/lib.rs:140-155 | On a fresh shell, the input `frobnicate`, blank, `quit`, `help` writes the prompt, `Error : Unknown Command frobnicate`, and two prompts, then stops before `help` |
| RunLoop.SessionOnShell | src/lib.rs:140-155 | On any shell, an unknown command, a blank line and the `quit` built-in give that transcript, and later lines are ignored |

## Left out

- Terminal I/O is not modelled. Reading stdin, flushing stdout and the
  `unwrap` on I/O errors become an input sequence and an output transcript.
- The `prettytable` layout is not modelled. The help table is a sequence of
  `(name, description)` rows, not padded text.
- The `Deref`/`DerefMut` impls and the `data()` and `get_history()`
  accessors are not modelled separately. Handlers see the payload, prompt and
  history through a read-only view.
- `Other(Box<Error>)` and the `From` conversion are reduced to the error's
  text. The only `Other` the core raises is the integer parse error.
- Shells.RunHostHandler: a handler built with `new_shell_command` gets
  `&mut Shell`, so it could call `run` itself, change the history or remove
  commands. Here it can change the payload and prompt, register commands and
  write lines. Re-entrant handlers and removal are not modelled. Nor is a
  handler that calls the public `print_help`: the view it gets has no
  command table, so it cannot write the help rows.
- Shells.Run: the nesting of history replays is bounded by `fuel`, and the
  eventual stack overflow of the Rust code is not modelled. With fuel at
  least the number of history entries, `OutOfFuel` happens exactly when
  `run` in shrust would recurse without bound (`DivergenceIsEndless`); with
  less fuel a deep but finite chain of replays can also run out.
  `RunLoop.Step` turns `OutOfFuel` into the `Diverged` status, so `RunLoop`
  needs fuel at least the history capacity for `Diverged` to mean endless
  recursion (`DivergedIsEndless`).
- Decimal.ParseUsize: `usize` is fixed at 64 bits. The accepted leading `+`
  and the order of error kinds follow the current `from_str_radix`: digits
  are read left to right, so an overflow is reported before a later invalid
  digit (`ParseUsizeOverflow`, `ParseUsizeInvalid`).
- Shells.Run splits the line without trimming it first. `RunIgnoresTrim`
  proves that this gives the same outcome as trimming first.
- The repository's example programs (`cli.rs`, `map.rs`, `socket.rs` and others) are hosts of the
  library and are not part of this model.
