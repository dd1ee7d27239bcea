/** How deep history replays can nest. A replay runs a stored entry on the
    same shell, so the chain of replays a line starts is determined by the
    history alone, and every step of it lands on a history entry. A chain
    longer than the history therefore goes round for ever: a run that
    exhausts as much fuel as there are entries exhausts every fuel, and its
    `OutOfFuel` is exactly the endless recursion of `Shell::run` in shrust. */
module Replay {
  import opened Text
  import opened Decimal
  import opened Shells
  import opened Dispatch
  import opened Chains
  import opened Options

  /** The index a replaying line replays. */
  function Target<P>(sh: Shell<P>, line: string): (i: nat)
    requires Replays(sh, line)
    ensures i < |sh.history.entries|
  {
    ParseUsize(Tokens(line)[1]).value
  }

  /** The entry a replaying line runs. */
  function Next<P>(sh: Shell<P>, line: string): string
    requires Replays(sh, line)
  {
    sh.history.entries[Target(sh, line)]
  }

  /** The link of one line: the index it replays, if it replays one. */
  function LinkOf<P>(sh: Shell<P>, line: string): Option<nat> {
    if Replays(sh, line) then Some(Target(sh, line)) else None
  }

  /** The links of the first `n` history entries. */
  function LinksUpTo<P>(sh: Shell<P>, n: nat): (next: seq<Option<nat>>)
    requires n <= |sh.history.entries|
    ensures |next| == n
    ensures forall i :: 0 <= i < n && next[i].Some? ==> next[i].value < |sh.history.entries|
    decreases n
  {
    if n == 0 then [] else LinksUpTo(sh, n - 1) + [LinkOf(sh, sh.history.entries[n - 1])]
  }

  /** The replay links of the history: entry `i` links to the entry it
      replays, if it is a replay. */
  function Links<P>(sh: Shell<P>): (next: seq<Option<nat>>)
    ensures |next| == |sh.history.entries| && Closed(next)
  {
    LinksUpTo(sh, |sh.history.entries|)
  }

  /** Entry `i`'s link is the link of the line stored there. */
  lemma {:induction false} LinksUpToAt<P>(sh: Shell<P>, n: nat, i: nat)
    requires i < n <= |sh.history.entries|
    ensures LinksUpTo(sh, n)[i] == LinkOf(sh, sh.history.entries[i])
    decreases n
  {
    if i < n - 1 {
      LinksUpToAt(sh, n - 1, i);
    }
  }

  /** Entry `i`'s link: the index it replays, or nothing. */
  lemma LinkAt<P>(sh: Shell<P>, i: nat)
    requires i < |sh.history.entries|
    ensures Links(sh)[i] == LinkOf(sh, sh.history.entries[i])
  {
    LinksUpToAt(sh, |sh.history.entries|, i);
  }

  /** One replay: a replaying line runs its entry one fuel level down. */
  lemma ReplayUnfold<P>(sh: Shell<P>, line: string, fuel: nat)
    requires Replays(sh, line)
    ensures Run(sh, line, fuel) == if fuel == 0 then OutOfFuel else Run(sh, Next(sh, line), fuel - 1)
  {
    var t := Tokens(line);
    var args := t[1..];
    RunLooksUp(sh, line, fuel);
    RunCommandPasses(sh.commands[t[0]], sh, args, fuel);
    InvokeHistory(sh, args, fuel);
    assert args[0] == t[1];
    HistoryReplays(sh, args, fuel);
  }

  /** Starting from `line`, at least `k` replays follow one another. */
  predicate ReplaysFor<P>(sh: Shell<P>, line: string, k: nat)
    decreases k
  {
    k == 0 || (Replays(sh, line) && ReplaysFor(sh, Next(sh, line), k - 1))
  }

  /** One more replay: the line replays, and its entry starts the rest. */
  lemma ReplaysForStep<P>(sh: Shell<P>, line: string, k: nat)
    ensures ReplaysFor(sh, line, k + 1) <==> Replays(sh, line) && ReplaysFor(sh, Next(sh, line), k)
  {
  }

  /** A run is out of fuel exactly when one more replay follows than the
      fuel allows. */
  lemma {:induction false} OutOfFuelExactly<P>(sh: Shell<P>, line: string, fuel: nat)
    ensures Run(sh, line, fuel) == OutOfFuel <==> ReplaysFor(sh, line, fuel + 1)
    decreases fuel
  {
    if Replays(sh, line) {
      ReplayUnfold(sh, line, fuel);
      if fuel > 0 {
        OutOfFuelExactly(sh, Next(sh, line), fuel - 1);
      }
    } else {
      FuelSuffices(sh, line, fuel);
    }
  }

  /** Following replays from an entry is walking along the links. */
  lemma {:induction false} ReplaysForIsChain<P>(sh: Shell<P>, i: nat, k: nat)
    requires i < |sh.history.entries|
    ensures ReplaysFor(sh, sh.history.entries[i], k) <==> Chain(Links(sh), i, k)
    decreases k
  {
    if k > 0 {
      var e := sh.history.entries[i];
      LinkAt(sh, i);
      ReplaysForStep(sh, e, k - 1);
      ChainStep(Links(sh), i, k - 1);
      if Replays(sh, e) {
        ReplaysForIsChain(sh, Target(sh, e), k - 1);
      }
    }
  }

  /** With at least as much fuel as there are history entries, running out
      of fuel means running out of every fuel: the replays never end. */
  lemma DivergenceIsEndless<P>(sh: Shell<P>, line: string, fuel: nat, fuel': nat)
    requires fuel >= |sh.history.entries|
    requires Run(sh, line, fuel) == OutOfFuel
    ensures Run(sh, line, fuel') == OutOfFuel
  {
    OutOfFuelExactly(sh, line, fuel);
    var t := Target(sh, line);
    ReplaysForIsChain(sh, t, fuel);
    ChainPrefix(Links(sh), t, fuel, |sh.history.entries|);
    Endless(Links(sh), t, fuel');
    ReplaysForIsChain(sh, t, fuel');
    OutOfFuelExactly(sh, line, fuel');
  }
}
