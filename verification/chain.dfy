/** Walks along links between positions. Position `i` of a link table either
    points at another position or at nothing; replaying a history entry
    moves from one entry to the entry it names, so whether a replay goes on
    for ever is a matter of such a table alone, and is settled here once: a
    walk that starts inside a closed table of `n` positions and lasts `n`
    steps has revisited a position, and therefore lasts for ever. */
module Chains {
  import opened Options

  /** Every link of the table points inside it. */
  predicate Closed(next: seq<Option<nat>>) {
    forall i :: 0 <= i < |next| && next[i].Some? ==> next[i].value < |next|
  }

  /** At least `k` steps can be taken from position `x`. */
  predicate Chain(next: seq<Option<nat>>, x: nat, k: nat)
    decreases k
  {
    k == 0 || (x < |next| && next[x].Some? && Chain(next, next[x].value, k - 1))
  }

  /** One more step: `x` links somewhere, and the rest starts there. */
  lemma ChainStep(next: seq<Option<nat>>, x: nat, k: nat)
    ensures Chain(next, x, k + 1) <==> x < |next| && next[x].Some? && Chain(next, next[x].value, k)
  {
  }

  /** Where `k` steps from `x` lead. */
  function Walk(next: seq<Option<nat>>, x: nat, k: nat): nat
    requires Chain(next, x, k)
    decreases k
  {
    if k == 0 then x else Walk(next, next[x].value, k - 1)
  }

  /** `p + q` steps are `p` steps followed by `q` more. */
  lemma {:induction false} ChainSplit(next: seq<Option<nat>>, x: nat, p: nat, q: nat)
    ensures Chain(next, x, p + q) ==> Chain(next, x, p)
    ensures Chain(next, x, p) ==> (Chain(next, x, p + q) <==> Chain(next, Walk(next, x, p), q))
    ensures Chain(next, x, p + q) ==> Walk(next, x, p + q) == Walk(next, Walk(next, x, p), q)
    decreases p
  {
    if p > 0 && x < |next| && next[x].Some? {
      ChainSplit(next, next[x].value, p - 1, q);
    }
  }

  /** A walk of `k` steps is also a walk of any fewer. */
  lemma ChainPrefix(next: seq<Option<nat>>, x: nat, k: nat, p: nat)
    requires Chain(next, x, k) && p <= k
    ensures Chain(next, x, p)
  {
    ChainSplit(next, x, p, k - p);
  }

  /** A walk that comes back to its start can be taken for ever. */
  lemma {:induction false} CycleForever(next: seq<Option<nat>>, y: nat, p: nat, m: nat)
    requires p > 0 && Chain(next, y, p) && Walk(next, y, p) == y
    ensures Chain(next, y, m)
    decreases m
  {
    if m <= p {
      ChainSplit(next, y, m, p - m);
    } else {
      CycleForever(next, y, p, m - p);
      ChainSplit(next, y, p, m - p);
    }
  }

  /** A walk from inside a closed table stays inside it. */
  lemma {:induction false} StaysInside(next: seq<Option<nat>>, x: nat, i: nat)
    requires Closed(next) && x < |next| && Chain(next, x, i)
    ensures Walk(next, x, i) < |next|
    decreases i
  {
    if i > 0 {
      ChainSplit(next, x, i - 1, 1);
      StaysInside(next, x, i - 1);
    }
  }

  /** The positions a walk of `k` steps passes through, its start included. */
  function Visits(next: seq<Option<nat>>, x: nat, k: nat): (v: seq<nat>)
    requires Chain(next, x, k)
    ensures |v| == k + 1
    decreases k
  {
    if k == 0 then [x]
    else
      ChainSplit(next, x, k - 1, 1);
      Visits(next, x, k - 1) + [Walk(next, x, k)]
  }

  /** The `i`-th visit is the position `i` steps lead to. */
  lemma {:induction false} VisitsAt(next: seq<Option<nat>>, x: nat, k: nat, i: nat)
    requires Chain(next, x, k) && i <= k
    ensures Chain(next, x, i) && Visits(next, x, k)[i] == Walk(next, x, i)
    decreases k
  {
    if k > 0 {
      ChainSplit(next, x, k - 1, 1);
      if i < k {
        VisitsAt(next, x, k - 1, i);
      }
    }
  }

  /** A walk from inside a closed table that lasts as many steps as the table
      has positions never ends. */
  lemma Endless(next: seq<Option<nat>>, x: nat, m: nat)
    requires Closed(next) && x < |next| && Chain(next, x, |next|)
    ensures Chain(next, x, m)
  {
    var n := |next|;
    var v := Visits(next, x, n);
    forall i | 0 <= i < |v|
      ensures v[i] < n
    {
      VisitsAt(next, x, n, i);
      StaysInside(next, x, i);
    }
    Pigeonhole(v, n);
    var a, b :| 0 <= a < b < |v| && v[a] == v[b];
    VisitsAt(next, x, n, a);
    VisitsAt(next, x, n, b);
    var y := Walk(next, x, a);
    ChainSplit(next, x, a, b - a);
    CycleForever(next, y, b - a, if m <= a then 0 else m - a);
    if m <= a {
      ChainSplit(next, x, m, a - m);
    } else {
      ChainSplit(next, x, a, m - a);
    }
  }

  /** More than `n` values below `n` contain a repetition. */
  lemma Pigeonhole(v: seq<nat>, n: nat)
    requires |v| > n
    requires forall i :: 0 <= i < |v| ==> v[i] < n
    ensures exists a, b :: 0 <= a < b < |v| && v[a] == v[b]
  {
    if forall a, b :: 0 <= a < b < |v| ==> v[a] != v[b] {
      DistinctCard(v);
      var e := set y | y in v;
      BoundedCard(e, n);
      assert false;
    }
  }

  /** A sequence without repetitions has as many distinct values as elements. */
  lemma {:induction false} DistinctCard<T>(v: seq<T>)
    requires forall a, b :: 0 <= a < b < |v| ==> v[a] != v[b]
    ensures |set y | y in v| == |v|
    decreases |v|
  {
    if |v| > 0 {
      var t := v[1..];
      assert forall i :: 0 <= i < |t| ==> t[i] == v[i + 1];
      DistinctCard(t);
      assert (set y | y in v) == {v[0]} + set y | y in t;
      assert v[0] !in t;
    }
  }

  /** A set of naturals below `n` has at most `n` elements. */
  lemma {:induction false} BoundedCard(e: set<nat>, n: nat)
    requires forall y :: y in e ==> y < n
    ensures |e| <= n
    decreases n
  {
    if n > 0 {
      BoundedCard(e - {n - 1}, n - 1);
    }
  }
}
