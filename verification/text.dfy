/** Line tokenizing as the shell performs it: `str::trim` followed by
    `split_whitespace`. A token is a maximal run of non-whitespace characters;
    there is no quoting or escaping. */
module Text {

  /** The Unicode White_Space property, which is what Rust's `char::is_whitespace`
      (and therefore `trim` and `split_whitespace`) tests. */
  predicate IsWhitespace(c: char) {
    || ('\t' <= c <= '\r')
    || c == ' '
    || c as int == 0x85
    || c as int == 0xA0
    || c as int == 0x1680
    || (0x2000 <= c as int <= 0x200A)
    || c as int == 0x2028
    || c as int == 0x2029
    || c as int == 0x202F
    || c as int == 0x205F
    || c as int == 0x3000
  }

  predicate AllWhitespace(s: string) {
    forall i :: 0 <= i < |s| ==> IsWhitespace(s[i])
  }

  /** A non-empty string with no whitespace in it: what one argument can be. */
  predicate IsToken(t: string) {
    |t| > 0 && forall i :: 0 <= i < |t| ==> !IsWhitespace(t[i])
  }

  predicate AllTokens(ts: seq<string>) {
    forall i :: 0 <= i < |ts| ==> IsToken(ts[i])
  }

  /** The first position at or after `i` that does not hold whitespace. */
  function LeadingEnd(s: string, i: nat): (k: nat)
    requires i <= |s|
    ensures i <= k <= |s|
    ensures forall j :: i <= j < k ==> IsWhitespace(s[j])
    ensures k == |s| || !IsWhitespace(s[k])
    decreases |s| - i
  {
    if i < |s| && IsWhitespace(s[i]) then LeadingEnd(s, i + 1) else i
  }

  /** The position just after the last non-whitespace character before `j`. */
  function TrailingStart(s: string, j: nat): (k: nat)
    requires j <= |s|
    ensures k <= j
    ensures forall i :: k <= i < j ==> IsWhitespace(s[i])
    ensures k == 0 || !IsWhitespace(s[k - 1])
    decreases j
  {
    if j > 0 && IsWhitespace(s[j - 1]) then TrailingStart(s, j - 1) else j
  }

  /** Drops the longest whitespace prefix. */
  function TrimStart(s: string): (r: string)
    ensures |r| <= |s| && r == s[|s| - |r|..]
    ensures AllWhitespace(s[..|s| - |r|])
    ensures |r| == 0 || !IsWhitespace(r[0])
  {
    s[LeadingEnd(s, 0)..]
  }

  /** Drops the longest whitespace suffix. */
  function TrimEnd(s: string): (r: string)
    ensures |r| <= |s| && r == s[..|r|]
    ensures AllWhitespace(s[|r|..])
    ensures |r| == 0 || !IsWhitespace(r[|r| - 1])
  {
    s[..TrailingStart(s, |s|)]
  }

  /** `str::trim`: nothing is left of an all-whitespace line, and otherwise
      the result starts and ends with a non-whitespace character. */
  function Trim(s: string): (r: string)
    ensures r == [] <==> AllWhitespace(s)
    ensures |r| == 0 || (!IsWhitespace(r[0]) && !IsWhitespace(r[|r| - 1]))
  {
    TrimEnd(TrimStart(s))
  }

  /** Length of the token that starts `s`. */
  function TokenLength(s: string): (n: nat)
    requires |s| > 0 && !IsWhitespace(s[0])
    ensures 0 < n <= |s| && IsToken(s[..n])
    ensures n == |s| || IsWhitespace(s[n])
    decreases |s|
  {
    if |s| == 1 || IsWhitespace(s[1]) then 1 else 1 + TokenLength(s[1..])
  }

  /** `split_whitespace`: the maximal non-whitespace runs of `s`, left to right. */
  function Tokens(s: string): (ts: seq<string>)
    ensures AllTokens(ts)
    ensures |ts| == 0 <==> AllWhitespace(s)
    decreases |s|
  {
    if |s| == 0 then []
    else if IsWhitespace(s[0]) then Tokens(s[1..])
    else
      var n := TokenLength(s);
      [s[..n]] + Tokens(s[n..])
  }

  /** The tokens written back with one space between each pair. */
  function Join(ts: seq<string>): string {
    if |ts| == 0 then ""
    else if |ts| == 1 then ts[0]
    else ts[0] + " " + Join(ts[1..])
  }

  /** Leading whitespace never changes the tokens. */
  lemma {:induction false} TokensSkipLeading(w: string, s: string)
    requires AllWhitespace(w)
    ensures Tokens(w + s) == Tokens(s)
    decreases |w|
  {
    if |w| > 0 {
      assert (w + s)[1..] == w[1..] + s;
      TokensSkipLeading(w[1..], s);
    } else {
      assert w + s == s;
    }
  }

  /** Trailing whitespace never changes the tokens. */
  lemma {:induction false} TokensSkipTrailing(s: string, w: string)
    requires AllWhitespace(w)
    ensures Tokens(s + w) == Tokens(s)
    decreases |s|
  {
    if |s| == 0 {
      assert s + w == w;
    } else if IsWhitespace(s[0]) {
      assert (s + w)[1..] == s[1..] + w;
      TokensSkipTrailing(s[1..], w);
    } else {
      var n := TokenLength(s);
      TokenLengthOfExtension(s, w);
      assert (s + w)[..n] == s[..n];
      assert (s + w)[n..] == s[n..] + w;
      TokensSkipTrailing(s[n..], w);
    }
  }

  /** Appending whitespace cannot lengthen the first token. */
  lemma {:induction false} TokenLengthOfExtension(s: string, w: string)
    requires |s| > 0 && !IsWhitespace(s[0])
    requires AllWhitespace(w)
    ensures TokenLength(s + w) == TokenLength(s)
    decreases |s|
  {
    if |s| == 1 {
    } else if IsWhitespace(s[1]) {
    } else {
      assert (s + w)[1..] == s[1..] + w;
      TokenLengthOfExtension(s[1..], w);
    }
  }

  /** Trimming before splitting, as the shell does, makes no difference. */
  lemma {:induction false} TrimKeepsTokens(s: string)
    ensures Tokens(Trim(s)) == Tokens(s)
  {
    var a := TrimStart(s);
    TrimStartKeepsTokens(s);
    TrimEndKeepsTokens(a);
  }

  lemma {:induction false} TrimStartKeepsTokens(s: string)
    ensures Tokens(TrimStart(s)) == Tokens(s)
  {
    var a := TrimStart(s);
    var lead := s[..|s| - |a|];
    assert s == lead + a;
    TokensSkipLeading(lead, a);
  }

  lemma {:induction false} TrimEndKeepsTokens(s: string)
    ensures Tokens(TrimEnd(s)) == Tokens(s)
  {
    var b := TrimEnd(s);
    var trail := s[|b|..];
    assert s == b + trail;
    TokensSkipTrailing(b, trail);
  }

  /** A token followed by whitespace (or nothing) splits off as the first token. */
  lemma {:induction false} TokensOfLeadingToken(t: string, rest: string)
    requires IsToken(t)
    requires |rest| == 0 || IsWhitespace(rest[0])
    ensures Tokens(t + rest) == [t] + Tokens(rest)
  {
    var s := t + rest;
    TokenLengthOfToken(t, rest);
    assert s[..|t|] == t;
    assert s[|t|..] == rest;
  }

  lemma {:induction false} TokenLengthOfToken(t: string, rest: string)
    requires IsToken(t)
    requires |rest| == 0 || IsWhitespace(rest[0])
    ensures TokenLength(t + rest) == |t|
    decreases |t|
  {
    if |t| > 1 {
      assert (t + rest)[1..] == t[1..] + rest;
      TokenLengthOfToken(t[1..], rest);
    }
  }

  /** A lone token is its own only token. */
  lemma TokensOfToken(t: string)
    requires IsToken(t)
    ensures Tokens(t) == [t]
  {
    TokensOfLeadingToken(t, "");
    assert t + "" == t;
  }

  /** Splitting undoes joining: a command line built from tokens tokenizes back
      to exactly those tokens. */
  lemma {:induction false} JoinRoundTrip(ts: seq<string>)
    requires AllTokens(ts)
    ensures Tokens(Join(ts)) == ts
    decreases |ts|
  {
    if |ts| == 0 {
    } else if |ts| == 1 {
      TokensOfLeadingToken(ts[0], "");
      assert ts[0] + "" == ts[0];
    } else {
      JoinRoundTrip(ts[1..]);
      TokensOfSpaced(ts[0], Join(ts[1..]));
      assert ts == [ts[0]] + ts[1..];
    }
  }

  /** A token, one space and the rest split into the token followed by the
      rest's tokens. */
  lemma TokensOfSpaced(t: string, rest: string)
    requires IsToken(t)
    ensures Tokens(t + " " + rest) == [t] + Tokens(rest)
  {
    assert t + " " + rest == t + (" " + rest);
    TokensOfLeadingToken(t, " " + rest);
    TokensSkipLeading(" ", rest);
  }
}
