/** Digit strings and the natural numbers they denote, in base 10 and base 16.
    This is the arithmetic underneath JavaScript's `parseInt(s)`, `BigInt(s)`,
    `n.toString()` and `n.toString(16)` as the explorer provider uses them. */
module Numerals {
  import opened Wrappers

  datatype Radix = Decimal | Hex

  function Base(r: Radix): nat {
    match r
    case Decimal => 10
    case Hex => 16
  }

  /** A digit accepted when reading a numeral (hex digits in either case). */
  predicate IsDigit(c: char, r: Radix) {
    match r
    case Decimal => '0' <= c <= '9'
    case Hex => '0' <= c <= '9' || 'a' <= c <= 'f' || 'A' <= c <= 'F'
  }

  /** A digit as emitted by `toString`: hex digits are lower case. */
  predicate IsLowerDigit(c: char, r: Radix) {
    match r
    case Decimal => '0' <= c <= '9'
    case Hex => '0' <= c <= '9' || 'a' <= c <= 'f'
  }

  predicate AllDigits(s: string, r: Radix) {
    forall i :: 0 <= i < |s| ==> IsDigit(s[i], r)
  }

  function DigitValue(c: char, r: Radix): (d: nat)
    requires IsDigit(c, r)
    ensures d < Base(r)
  {
    if '0' <= c <= '9' then c as int - '0' as int
    else if 'a' <= c <= 'f' then c as int - 'a' as int + 10
    else c as int - 'A' as int + 10
  }

  function DigitChar(d: nat, r: Radix): (c: char)
    requires d < Base(r)
    ensures IsLowerDigit(c, r) && IsDigit(c, r)
    ensures DigitValue(c, r) == d
  {
    if d < 10 then ('0' as int + d) as char else ('a' as int + d - 10) as char
  }

  /** The number a digit string denotes, most significant digit first. */
  function Value(s: string, r: Radix): nat
    requires AllDigits(s, r)
    decreases |s|
  {
    if |s| == 0 then 0
    else Value(s[..|s| - 1], r) * Base(r) + DigitValue(s[|s| - 1], r)
  }

  /** `s` is a numeral in radix `r` that denotes `n`. */
  predicate Denotes(s: string, r: Radix, n: nat) {
    AllDigits(s, r) && Value(s, r) == n
  }

  /** The form `toString` produces: at least one lower-case digit and no
      leading zero unless the numeral is "0" itself. */
  predicate Canonical(s: string, r: Radix) {
    && |s| > 0
    && (forall i :: 0 <= i < |s| ==> IsLowerDigit(s[i], r))
    && (s[0] == '0' ==> |s| == 1)
  }

  /** `n.toString()` (Decimal) and `n.toString(16)` (Hex) for a natural `n`. */
  function Digits(n: nat, r: Radix): (s: string)
    ensures Canonical(s, r)
    decreases n
  {
    if n < Base(r) then [DigitChar(n, r)]
    else Digits(n / Base(r), r) + [DigitChar(n % Base(r), r)]
  }

  lemma CanonicalIsDigits(s: string, r: Radix)
    requires Canonical(s, r)
    ensures AllDigits(s, r)
  {
    forall i | 0 <= i < |s| ensures IsDigit(s[i], r) {
      assert IsLowerDigit(s[i], r);
    }
  }

  /** Reading back what `Digits` wrote gives the number it started from. */
  lemma {:induction false} ValueOfDigits(n: nat, r: Radix)
    ensures AllDigits(Digits(n, r), r)
    ensures Value(Digits(n, r), r) == n
    decreases n
  {
    var s := Digits(n, r);
    CanonicalIsDigits(s, r);
    if n >= Base(r) {
      var p := Digits(n / Base(r), r);
      ValueOfDigits(n / Base(r), r);
      assert s[..|s| - 1] == p;
    }
  }

  /** A numeral with a non-zero leading digit denotes a positive number. */
  lemma {:induction false} LeadingDigitPositive(s: string, r: Radix)
    requires |s| > 0 && AllDigits(s, r) && IsLowerDigit(s[0], r) && s[0] != '0'
    ensures Value(s, r) > 0
    decreases |s|
  {
    if |s| > 1 {
      var p := s[..|s| - 1];
      assert p[0] == s[0];
      LeadingDigitPositive(p, r);
    }
  }

  /** Canonical numerals are unique: the only canonical spelling of a number
      is the one `Digits` produces. */
  lemma {:induction false} CanonicalUnique(s: string, r: Radix)
    requires Canonical(s, r)
    ensures AllDigits(s, r)
    ensures Digits(Value(s, r), r) == s
    decreases |s|
  {
    CanonicalIsDigits(s, r);
    var b := Base(r);
    var last := s[|s| - 1];
    if |s| > 1 {
      var p := s[..|s| - 1];
      assert p[0] == s[0];
      assert Canonical(p, r);
      CanonicalUnique(p, r);
      LeadingDigitPositive(p, r);
      var n := Value(s, r);
      assert n == Value(p, r) * b + DigitValue(last, r);
      assert n / b == Value(p, r) && n % b == DigitValue(last, r);
      assert IsLowerDigit(last, r);
      assert DigitChar(DigitValue(last, r), r) == last;
      assert s == p + [last];
    } else {
      assert IsLowerDigit(last, r);
      assert DigitChar(DigitValue(last, r), r) == last;
    }
  }

  /** Whether `s` begins with the `0x`/`0X` prefix that selects base 16. */
  predicate HasHexPrefix(s: string) {
    |s| >= 2 && s[0] == '0' && (s[1] == 'x' || s[1] == 'X')
  }

  /** The integer literal grammar shared by `parseInt(s)` (radix left
      undefined) and `BigInt(s)`: a `0x`/`0X` prefix followed by at least one
      hex digit, or at least one decimal digit. Anything else is rejected. */
  function ParseNumeral(s: string): Option<nat> {
    if HasHexPrefix(s) then
      if |s| > 2 && AllDigits(s[2..], Hex) then Some(Value(s[2..], Hex)) else None
    else if |s| > 0 && AllDigits(s, Decimal) then Some(Value(s, Decimal))
    else None
  }

  /** A canonical decimal numeral parses back to its number. */
  lemma ParseDecimalDigits(n: nat)
    ensures ParseNumeral(Digits(n, Decimal)) == Some(n)
  {
    var s := Digits(n, Decimal);
    ValueOfDigits(n, Decimal);
    if |s| >= 2 {
      assert IsLowerDigit(s[1], Decimal);
    }
  }

  /** A canonical hex numeral behind a `0x` prefix parses back to its number. */
  lemma ParseHexDigits(n: nat)
    ensures ParseNumeral("0x" + Digits(n, Hex)) == Some(n)
  {
    var s := "0x" + Digits(n, Hex);
    ValueOfDigits(n, Hex);
    assert s[2..] == Digits(n, Hex);
  }
}
