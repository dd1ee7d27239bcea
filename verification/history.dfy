/** The bounded command history: a FIFO of accepted lines that drops its
    oldest entry when a push would exceed the capacity. */
module HistoryLog {
  import opened Decimal
  import opened Options

  datatype History = History(entries: seq<string>, capacity: nat)

  /** The invariant every history the shell builds keeps. A capacity of zero
      is excluded: pushing would then remove from an empty vector. */
  predicate Valid(h: History) {
    0 < h.capacity && |h.entries| <= h.capacity
  }

  /** Reference reading of a bounded log: the last `n` elements of `s`
      (all of `s` when it is shorter). */
  function LastN(s: seq<string>, n: nat): seq<string> {
    if |s| <= n then s else s[|s| - n..]
  }

  /** `History::new`. */
  function New(capacity: nat): (h: History)
    ensures h.entries == [] && h.capacity == capacity
    ensures 0 < capacity ==> Valid(h)
  {
    History([], capacity)
  }

  /** `History::push`: evict index 0 when full, then append. */
  function Push(h: History, line: string): (r: History)
    requires 0 < h.capacity
    ensures r.capacity == h.capacity
    ensures |r.entries| > 0 && r.entries[|r.entries| - 1] == line
    ensures Valid(h) ==> Valid(r)
    ensures |h.entries| <= h.capacity ==> r.entries == LastN(h.entries + [line], h.capacity)
  {
    if |h.entries| >= h.capacity then
      History(h.entries[1..] + [line], h.capacity)
    else
      History(h.entries + [line], h.capacity)
  }

  /** Pushing onto a full history keeps it full, with the new line in the last slot. */
  lemma PushFull(h: History, line: string)
    requires Valid(h) && |h.entries| == h.capacity
    ensures |Push(h, line).entries| == h.capacity
    ensures Push(h, line).entries[h.capacity - 1] == line
  {
  }

  /** Pushing several lines in order. */
  function PushAll(h: History, lines: seq<string>): (r: History)
    requires 0 < h.capacity
    ensures r.capacity == h.capacity
    decreases |lines|
  {
    if |lines| == 0 then h else PushAll(Push(h, lines[0]), lines[1..])
  }

  /** Eviction keeps exactly the most recent `capacity` lines, in arrival order. */
  lemma {:induction false} PushAllKeepsLast(h: History, lines: seq<string>)
    requires Valid(h)
    ensures PushAll(h, lines).entries == LastN(h.entries + lines, h.capacity)
    ensures Valid(PushAll(h, lines))
    decreases |lines|
  {
    if |lines| == 0 {
      assert h.entries + lines == h.entries;
    } else {
      var h' := Push(h, lines[0]);
      PushAllKeepsLast(h', lines[1..]);
      LastNAbsorbs(h.entries + [lines[0]], lines[1..], h.capacity);
      assert h.entries + [lines[0]] + lines[1..] == h.entries + lines;
    }
  }

  /** Truncating early and truncating late agree. */
  lemma LastNAbsorbs(a: seq<string>, b: seq<string>, n: nat)
    ensures LastN(LastN(a, n) + b, n) == LastN(a + b, n)
  {
    if |a| > n {
      var a' := a[|a| - n..];
      var c := a' + b;
      assert a + b == a[..|a| - n] + c;
      assert (a + b)[|a + b| - n..] == c[|c| - n..] by {
        SuffixOfConcat(a[..|a| - n], c, n);
      }
    }
  }

  lemma SuffixOfConcat(x: seq<string>, c: seq<string>, n: nat)
    requires n <= |c|
    ensures (x + c)[|x + c| - n..] == c[|c| - n..]
  {
  }

  /** The worked example: capacity 2, pushing "a", "b", "c" leaves ["b", "c"]. */
  lemma EvictionExample()
    ensures PushAll(New(2), ["a", "b", "c"]).entries == ["b", "c"]
  {
    PushAllKeepsLast(New(2), ["a", "b", "c"]);
    assert [] + ["a", "b", "c"] == ["a", "b", "c"];
  }

  /** `History::get`. */
  function Get(h: History, i: nat): (r: Option<string>)
    ensures r.Some? <==> i < |h.entries|
    ensures r.Some? ==> r.value == h.entries[i]
  {
    if i < |h.entries| then Some(h.entries[i]) else None
  }

  /** `History::print`: one line `"<index>: <entry>"` per entry, oldest first,
      counting from `start`. */
  function Listing(entries: seq<string>, start: nat): (r: seq<string>)
    ensures |r| == |entries|
    ensures forall i :: 0 <= i < |r| ==> r[i] == NatToString(start + i) + ": " + entries[i]
    decreases |entries|
  {
    if |entries| == 0 then []
    else [NatToString(start) + ": " + entries[0]] + Listing(entries[1..], start + 1)
  }

  function Print(h: History): seq<string> {
    Listing(h.entries, 0)
  }
}
