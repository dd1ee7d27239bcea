/** Decimal text for `usize`: rendering with `{}` and parsing with
    `usize::from_str`, the two conversions the history built-in and the error
    messages use. `usize` is taken to be 64 bits wide. */
module Decimal {

  const UsizeMax: nat := 0xFFFF_FFFF_FFFF_FFFF

  /** The kinds of `ParseIntError` an unsigned parse can produce. */
  datatype IntErrorKind = EmptyInput | InvalidDigit | PosOverflow

  /** The `Display` text of a `ParseIntError` of each kind. */
  function IntErrorMessage(k: IntErrorKind): string {
    match k
    case EmptyInput => "cannot parse integer from empty string"
    case InvalidDigit => "invalid digit found in string"
    case PosOverflow => "number too large to fit in target type"
  }

  datatype Parsed = Parsed(value: nat) | ParseFailed(kind: IntErrorKind)

  predicate IsDigit(c: char) {
    '0' <= c <= '9'
  }

  predicate AllDigits(s: string) {
    forall i :: 0 <= i < |s| ==> IsDigit(s[i])
  }

  function DigitValue(c: char): nat
    requires IsDigit(c)
  {
    c as int - '0' as int
  }

  function DigitChar(d: nat): (c: char)
    requires d < 10
    ensures IsDigit(c) && DigitValue(c) == d
  {
    ('0' as int + d) as char
  }

  /** The number a digit string denotes, read most significant digit first. */
  function DigitsValue(s: string): nat
    requires AllDigits(s)
  {
    Horner(0, s)
  }

  /** Horner's rule: the value of `s` with `acc` as the digits already read. */
  function Horner(acc: nat, s: string): nat
    requires AllDigits(s)
    decreases |s|
  {
    if |s| == 0 then acc else Horner(acc * 10 + DigitValue(s[0]), s[1..])
  }

  /** Reading more digits never makes the value smaller. */
  lemma {:induction false} HornerGrows(acc: nat, s: string)
    requires AllDigits(s)
    ensures Horner(acc, s) >= acc
    decreases |s|
  {
    if |s| > 0 {
      HornerGrows(acc * 10 + DigitValue(s[0]), s[1..]);
    }
  }

  /** Appending a digit multiplies the value by ten and adds the digit. */
  lemma {:induction false} HornerSnoc(acc: nat, a: string, c: char)
    requires AllDigits(a) && IsDigit(c)
    ensures AllDigits(a + [c])
    ensures Horner(acc, a + [c]) == Horner(acc, a) * 10 + DigitValue(c)
    decreases |a|
  {
    var s := a + [c];
    assert forall i :: 0 <= i < |s| ==> IsDigit(s[i]) by {
      assert forall i :: 0 <= i < |a| ==> s[i] == a[i];
    }
    if |a| > 0 {
      assert s[0] == a[0];
      assert s[1..] == a[1..] + [c];
      HornerSnoc(acc * 10 + DigitValue(a[0]), a[1..], c);
    }
  }

  /** Decimal rendering of a natural number, as `{}` formats a `usize`:
      digits only, no sign, no leading zero unless the number is zero. */
  function NatToString(n: nat): (r: string)
    ensures |r| > 0 && AllDigits(r)
    ensures DigitsValue(r) == n
    ensures |r| > 1 ==> r[0] != '0'
  {
    if n < 10 then
      var r := [DigitChar(n)];
      assert Horner(0, r) == Horner(n, r[1..]);
      r
    else
      var init := NatToString(n / 10);
      var c := DigitChar(n % 10);
      HornerSnoc(0, init, c);
      init + [c]
  }

  /** The digit loop of `from_str_radix`: left to right, failing at the first
      non-digit, or as soon as the running value leaves the `usize` range. */
  function Accumulate(acc: nat, s: string): (r: Parsed)
    requires acc <= UsizeMax
    ensures r.Parsed? ==> AllDigits(s) && r.value <= UsizeMax
    ensures r.Parsed? ==> r.value == Horner(acc, s)
    ensures AllDigits(s) && Horner(acc, s) <= UsizeMax ==> r.Parsed?
    decreases |s|
  {
    if |s| == 0 then Parsed(acc)
    else if !IsDigit(s[0]) then ParseFailed(InvalidDigit)
    else
      var v := acc * 10 + DigitValue(s[0]);
      if v > UsizeMax then
        if AllDigits(s) then HornerGrows(v, s[1..]); ParseFailed(PosOverflow)
        else ParseFailed(PosOverflow)
      else
        Accumulate(v, s[1..])
  }

  /** Which error a rejected string gets is decided left to right: once the
      digits read so far exceed the `usize` range, the parse fails with
      `PosOverflow`, whatever follows. */
  lemma {:induction false} AccumulateOverflow(acc: nat, s: string, k: nat)
    requires acc <= UsizeMax && k <= |s|
    requires AllDigits(s[..k]) && Horner(acc, s[..k]) > UsizeMax
    ensures Accumulate(acc, s) == ParseFailed(PosOverflow)
    decreases k
  {
    var p := s[..k];
    assert k > 0;
    assert p[0] == s[0];
    var v := acc * 10 + DigitValue(s[0]);
    if v <= UsizeMax {
      assert s[1..][..k - 1] == p[1..];
      AccumulateOverflow(v, s[1..], k - 1);
    }
  }

  /** A non-digit reached while the digits before it are still in range fails
      the parse with `InvalidDigit`. */
  lemma {:induction false} AccumulateInvalid(acc: nat, s: string, k: nat)
    requires acc <= UsizeMax && k < |s| && !IsDigit(s[k])
    requires AllDigits(s[..k]) && Horner(acc, s[..k]) <= UsizeMax
    ensures Accumulate(acc, s) == ParseFailed(InvalidDigit)
    decreases k
  {
    if k > 0 {
      var p := s[..k];
      assert p[0] == s[0];
      var v := acc * 10 + DigitValue(s[0]);
      HornerGrows(v, p[1..]);
      assert s[1..][..k - 1] == p[1..];
      AccumulateInvalid(v, s[1..], k - 1);
    }
  }

  /** What follows an optional leading `+`. */
  function Unsigned(s: string): string {
    if |s| > 0 && s[0] == '+' then s[1..] else s
  }

  /** The strings `usize::from_str` accepts: an optional `+`, then at least one
      decimal digit, denoting a value that fits in 64 bits. */
  predicate IsUsizeLiteral(s: string) {
    var d := Unsigned(s);
    |d| > 0 && AllDigits(d) && DigitsValue(d) <= UsizeMax
  }

  /** `usize::from_str`. A lone sign is an invalid digit; a `-` is never
      accepted for an unsigned type. */
  function ParseUsize(s: string): (r: Parsed)
    ensures r.Parsed? <==> IsUsizeLiteral(s)
    ensures r.Parsed? ==> r.value == DigitsValue(Unsigned(s))
    ensures |s| == 0 ==> r == ParseFailed(EmptyInput)
  {
    if |s| == 0 then ParseFailed(EmptyInput)
    else if |s| == 1 && (s[0] == '+' || s[0] == '-') then ParseFailed(InvalidDigit)
    else Accumulate(0, Unsigned(s))
  }

  /** `usize::from_str` reports `PosOverflow` when a run of leading digits
      (after an optional `+`) already exceeds the `usize` range. */
  lemma ParseUsizeOverflow(s: string, k: nat)
    requires k <= |Unsigned(s)|
    requires AllDigits(Unsigned(s)[..k]) && DigitsValue(Unsigned(s)[..k]) > UsizeMax
    ensures ParseUsize(s) == ParseFailed(PosOverflow)
  {
    AccumulateOverflow(0, Unsigned(s), k);
  }

  /** `usize::from_str` reports `InvalidDigit` for the first non-digit (after
      an optional `+`) when the digits before it are in range; a lone sign is
      an invalid digit too. */
  lemma ParseUsizeInvalid(s: string, k: nat)
    requires k < |Unsigned(s)| && !IsDigit(Unsigned(s)[k])
    requires AllDigits(Unsigned(s)[..k]) && DigitsValue(Unsigned(s)[..k]) <= UsizeMax
    ensures ParseUsize(s) == ParseFailed(InvalidDigit)
    ensures ParseUsize("+") == ParseFailed(InvalidDigit) && ParseUsize("-") == ParseFailed(InvalidDigit)
  {
    AccumulateInvalid(0, Unsigned(s), k);
  }

  /** Parsing undoes rendering for every value a `usize` can hold. */
  lemma ParseRendered(n: nat)
    requires n <= UsizeMax
    ensures ParseUsize(NatToString(n)) == Parsed(n)
  {
  }

  /** Rendering is injective: distinct numbers print differently. */
  lemma RenderInjective(m: nat, n: nat)
    requires NatToString(m) == NatToString(n)
    ensures m == n
  {
  }
}
