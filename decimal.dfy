/** Unsigned 32-bit integers and their decimal text form: the `parse::<u32>()`
    that reads a numeric setting, and the `{}` formatting that builds runner
    labels. */
module Decimal {

  const U32_MAX: nat := 0xFFFF_FFFF

  /** Rust's `u32`. */
  type u32 = n: nat | n <= U32_MAX

  datatype Option<T> = None | Some(value: T)

  predicate IsDigit(c: char) {
    '0' <= c <= '9'
  }

  function DigitValue(c: char): (d: nat)
    requires IsDigit(c)
    ensures d < 10
  {
    c as int - '0' as int
  }

  function DigitChar(d: nat): (c: char)
    requires d < 10
    ensures IsDigit(c) && DigitValue(c) == d
  {
    ('0' as int + d) as char
  }

  predicate AllDigits(s: string) {
    forall i :: 0 <= i < |s| ==> IsDigit(s[i])
  }

  /** The number a string of decimal digits denotes, most significant digit first. */
  function Value(s: string): nat
    requires AllDigits(s)
  {
    if s == [] then 0 else 10 * Value(s[..|s| - 1]) + DigitValue(s[|s| - 1])
  }

  /** The digits `parse` reads: the text after one optional leading '+'. */
  function Unsigned(s: string): string {
    if |s| > 0 && s[0] == '+' then s[1..] else s
  }

  /** What `parse::<u32>()` accepts: an optional '+', then at least one digit,
      denoting a value that fits in 32 bits. */
  predicate WellFormedU32(s: string) {
    var d := Unsigned(s);
    |d| > 0 && AllDigits(d) && Value(d) <= U32_MAX
  }

  lemma {:induction false} ValueOfPrefix(d: string, i: nat)
    requires i < |d| && AllDigits(d[..i + 1])
    ensures AllDigits(d[..i])
    ensures Value(d[..i + 1]) == 10 * Value(d[..i]) + DigitValue(d[i])
  {
    assert d[..i + 1][..i] == d[..i];
  }

  /** A prefix of a digit string never denotes more than the whole string. */
  lemma {:induction false} PrefixValueBounded(d: string, j: nat)
    requires AllDigits(d) && j <= |d|
    ensures AllDigits(d[..j]) && Value(d[..j]) <= Value(d)
    decreases |d| - j
  {
    if j < |d| {
      PrefixValueBounded(d, j + 1);
      ValueOfPrefix(d, j);
    } else {
      assert d[..j] == d;
    }
  }

  /** The digit loop of `u32::from_str`: it reads `d` from position `i` on with
      the value of `d[..i]` accumulated, stops at the first non-digit, and
      fails as soon as the checked multiply-add leaves the 32-bit range. */
  function Accumulate(d: string, i: nat, acc: u32): (r: Option<u32>)
    requires i <= |d| && AllDigits(d[..i]) && acc == Value(d[..i])
    ensures r.Some? <==> AllDigits(d) && Value(d) <= U32_MAX
    ensures r.Some? ==> r.value == Value(d)
    decreases |d| - i
  {
    if i == |d| then
      assert d[..i] == d;
      Some(acc)
    else if !IsDigit(d[i]) then
      None
    else
      ValueOfPrefixStep(d, i);
      var next := 10 * acc + DigitValue(d[i]);
      if next > U32_MAX then
        OverflowIsFinal(d, i);
        None
      else
        Accumulate(d, i + 1, next)
  }

  lemma ValueOfPrefixStep(d: string, i: nat)
    requires i < |d| && AllDigits(d[..i]) && IsDigit(d[i])
    ensures AllDigits(d[..i + 1])
    ensures Value(d[..i + 1]) == 10 * Value(d[..i]) + DigitValue(d[i])
  {
    assert d[..i + 1] == d[..i] + [d[i]];
    ValueOfPrefix(d, i);
  }

  lemma OverflowIsFinal(d: string, i: nat)
    requires i < |d| && AllDigits(d[..i + 1]) && Value(d[..i + 1]) > U32_MAX
    ensures !(AllDigits(d) && Value(d) <= U32_MAX)
  {
    if AllDigits(d) {
      PrefixValueBounded(d, i + 1);
    }
  }

  /** `s.parse::<u32>()`: `None` is the `Err` that the caller unwraps into a
      panic. An empty string and a lone sign are rejected up front; a '-' is
      not a digit of an unsigned type. */
  function ParseU32(s: string): (r: Option<u32>)
    ensures r.Some? <==> WellFormedU32(s)
    ensures r.Some? ==> r.value == Value(Unsigned(s))
  {
    if s == [] then None
    else if (s[0] == '+' || s[0] == '-') && |s| == 1 then None
    else if s[0] == '+' then Accumulate(s[1..], 0, 0)
    else Accumulate(s, 0, 0)
  }

  /** The `{}` rendering of an unsigned integer. */
  function FormatNat(n: nat): (s: string)
    ensures |s| > 0 && AllDigits(s) && Value(s) == n
    ensures s[0] != '0' || n == 0
  {
    if n < 10 then
      [DigitChar(n)]
    else
      var p := FormatNat(n / 10);
      var s := p + [DigitChar(n % 10)];
      assert s[..|s| - 1] == p;
      s
  }

  /** Parsing the rendering of a `u32` gives it back. */
  lemma FormatThenParse(n: u32)
    ensures ParseU32(FormatNat(n)) == Some(n)
  {
  }

  /** Rendering is injective, so distinct numbers give distinct text. */
  lemma FormatInjective(a: nat, b: nat)
    ensures FormatNat(a) == FormatNat(b) ==> a == b
  {
  }

  /** A digit string without a leading zero is the rendering of its value. */
  lemma {:induction false} CanonicalDigits(s: string)
    requires |s| > 0 && AllDigits(s) && (s[0] != '0' || |s| == 1)
    ensures FormatNat(Value(s)) == s
    decreases |s|
  {
    if |s| == 1 {
      assert s == [s[0]];
      assert Value(s) == DigitValue(s[0]) by { assert s[..0] == []; }
      assert DigitChar(DigitValue(s[0])) == s[0];
    } else {
      var p := s[..|s| - 1];
      assert AllDigits(p);
      assert p[0] == s[0];
      PrefixValueBounded(p, 1);
      assert p[..1] == [p[0]];
      assert Value(p[..1]) == DigitValue(p[0]) by { assert p[..1][..0] == []; }
      assert Value(p) >= 1;
      CanonicalDigits(p);
      var d := DigitValue(s[|s| - 1]);
      assert Value(s) == 10 * Value(p) + d;
      assert Value(s) / 10 == Value(p) && Value(s) % 10 == d;
      assert DigitChar(d) == s[|s| - 1];
      assert s == p + [s[|s| - 1]];
    }
  }

  /** Parsing then rendering gives the text back when it has no sign and no
      leading zero. */
  lemma ParseThenFormat(s: string)
    requires |s| > 0 && s[0] != '+' && (s[0] != '0' || |s| == 1)
    requires ParseU32(s).Some?
    ensures FormatNat(ParseU32(s).value) == s
  {
    CanonicalDigits(s);
  }
}
