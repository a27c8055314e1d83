/**
 * Decimal integers as Go prints them (`strconv.Itoa`, `%v`, `%d`) and reads them
 * (`strconv.ParseInt(s, 10, 64)`).
 */
module Decimal {
  import opened Wrappers

  const MaxUint64: nat := 0xFFFF_FFFF_FFFF_FFFF
  const MinInt64: int := -0x8000_0000_0000_0000
  const MaxInt64: int := 0x7FFF_FFFF_FFFF_FFFF

  predicate IsDigit(c: char) { '0' <= c <= '9' }

  predicate AllDigits(s: string) { forall i :: 0 <= i < |s| ==> IsDigit(s[i]) }

  function DigitValue(c: char): nat
    requires IsDigit(c)
  {
    (c as int - '0' as int) as nat
  }

  function DigitChar(d: nat): (c: char)
    requires d < 10
    ensures IsDigit(c) && DigitValue(c) == d
  {
    ('0' as int + d) as char
  }

  /** The shortest decimal spelling of `n`. */
  function FormatNat(n: nat): (s: string)
    ensures |s| >= 1 && AllDigits(s)
    decreases n
  {
    if n < 10 then [DigitChar(n)] else FormatNat(n / 10) + [DigitChar(n % 10)]
  }

  /** `strconv.Itoa`: a minus sign for negative numbers, then the digits. */
  function FormatInt(i: int): (s: string)
    ensures |s| >= 1
    ensures i >= 0 ==> AllDigits(s)
    ensures i < 0 ==> s[0] == '-' && AllDigits(s[1..])
  {
    if i < 0 then "-" + FormatNat(-i) else FormatNat(i)
  }

  /** The outcome of reading unsigned digits the way `strconv.ParseUint` does. */
  datatype UintScan = Value(n: nat) | BadSyntax | OutOfRange

  /**
   * Reads the digits of `s` after `acc`, left to right. A non-digit stops with a syntax
   * error and a value beyond 64 bits with a range error, whichever comes first.
   */
  function ScanDigits(s: string, acc: nat): UintScan
    decreases |s|
  {
    if s == [] then Value(acc)
    else if !IsDigit(s[0]) then BadSyntax
    else
      var next := acc * 10 + DigitValue(s[0]);
      if next > MaxUint64 then OutOfRange else ScanDigits(s[1..], next)
  }

  function SyntaxError(s: string): string {
    "strconv.ParseInt: parsing \"" + s + "\": invalid syntax"
  }

  function RangeError(s: string): string {
    "strconv.ParseInt: parsing \"" + s + "\": value out of range"
  }

  /** The text `ParseInt64` reads digits from: `s` without a leading sign. */
  function Unsigned(s: string): string {
    if s != [] && (s[0] == '+' || s[0] == '-') then s[1..] else s
  }

  /** The value of a signed digit string. */
  function SignedValue(s: string): int
    requires AllDigits(Unsigned(s))
  {
    if s != [] && s[0] == '-' then -(DigitsValue(0, Unsigned(s)) as int) else DigitsValue(0, Unsigned(s))
  }

  /** `strconv.ParseInt(s, 10, 64)`: an optional sign, then at least one digit, within 64 bits. */
  function ParseInt64(s: string): (r: Result<int>)
    ensures r.Ok? ==> MinInt64 <= r.value <= MaxInt64
    ensures r.Err? ==> r.error == SyntaxError(s) || r.error == RangeError(s)
    ensures s == [] ==> r == Err(SyntaxError(s))
  {
    if s == [] then Err(SyntaxError(s))
    else
      var negative := s[0] == '-';
      var digits := if s[0] == '+' || s[0] == '-' then s[1..] else s;
      if digits == [] then Err(SyntaxError(s))
      else
        match ScanDigits(digits, 0)
        case BadSyntax => Err(SyntaxError(s))
        case OutOfRange => Err(RangeError(s))
        case Value(u) =>
          if !negative && u > MaxInt64 then Err(RangeError(s))
          else if negative && u > -MinInt64 then Err(RangeError(s))
          else
            var v: int := if negative then -(u as int) else u;
            Ok(v)
  }

  /** The value of a digit string read left to right after `acc`. */
  function DigitsValue(acc: nat, s: string): nat
    requires AllDigits(s)
    decreases |s|
  {
    if s == [] then acc else DigitsValue(acc * 10 + DigitValue(s[0]), s[1..])
  }

  lemma {:induction false} DigitsValueSnoc(acc: nat, s: string, c: char)
    requires AllDigits(s) && IsDigit(c)
    ensures AllDigits(s + [c])
    ensures DigitsValue(acc, s + [c]) == DigitsValue(acc, s) * 10 + DigitValue(c)
    decreases |s|
  {
    assert AllDigits(s + [c]) by {
      forall i | 0 <= i < |s + [c]| ensures IsDigit((s + [c])[i]) {
        if i < |s| { assert (s + [c])[i] == s[i]; }
      }
    }
    if s != [] {
      assert (s + [c])[1..] == s[1..] + [c];
      DigitsValueSnoc(acc * 10 + DigitValue(s[0]), s[1..], c);
    }
  }

  lemma {:induction false} DigitsValueOfFormat(n: nat)
    ensures DigitsValue(0, FormatNat(n)) == n
    decreases n
  {
    if n >= 10 {
      DigitsValueOfFormat(n / 10);
      DigitsValueSnoc(0, FormatNat(n / 10), DigitChar(n % 10));
    }
  }

  lemma {:induction false} DigitsValueAtLeast(acc: nat, s: string)
    requires AllDigits(s)
    ensures DigitsValue(acc, s) >= acc
    decreases |s|
  {
    if s != [] {
      DigitsValueAtLeast(acc * 10 + DigitValue(s[0]), s[1..]);
    }
  }

  /** Digits whose value fits in 64 bits scan to that value. */
  lemma {:induction false} ScanDigitsValue(s: string, acc: nat)
    requires AllDigits(s) && DigitsValue(acc, s) <= MaxUint64
    ensures ScanDigits(s, acc) == Value(DigitsValue(acc, s))
    decreases |s|
  {
    if s != [] {
      var next := acc * 10 + DigitValue(s[0]);
      DigitsValueAtLeast(next, s[1..]);
      ScanDigitsValue(s[1..], next);
    }
  }

  /** Every 64-bit integer printed by `FormatInt` reads back as itself. */
  lemma FormatParseRoundTrip(i: int)
    requires MinInt64 <= i <= MaxInt64
    ensures ParseInt64(FormatInt(i)) == Ok(i)
  {
    var magnitude: nat := if i < 0 then -i else i;
    var digits := FormatNat(magnitude);
    DigitsValueOfFormat(magnitude);
    ScanDigitsValue(digits, 0);
    if i < 0 {
      assert FormatInt(i)[1..] == digits;
    }
  }

  /** A scan that yields a value has read only digits, and the value is theirs. */
  lemma {:induction false} ScanDigitsOnlyDigits(s: string, acc: nat)
    requires ScanDigits(s, acc).Value?
    ensures AllDigits(s) && ScanDigits(s, acc).n == DigitsValue(acc, s)
    decreases |s|
  {
    if s != [] {
      ScanDigitsOnlyDigits(s[1..], acc * 10 + DigitValue(s[0]));
    }
  }

  /** Digits whose value exceeds 64 bits scan to a range error. */
  lemma {:induction false} ScanDigitsOverflow(s: string, acc: nat)
    requires acc <= MaxUint64 && AllDigits(s) && DigitsValue(acc, s) > MaxUint64
    ensures ScanDigits(s, acc) == OutOfRange
    decreases |s|
  {
    var next := acc * 10 + DigitValue(s[0]);
    if next <= MaxUint64 {
      ScanDigitsOverflow(s[1..], next);
    }
  }

  /** A non-digit reached before the value exceeds 64 bits stops the scan with a syntax error. */
  lemma {:induction false} ScanDigitsStopsAtNonDigit(s: string, acc: nat, k: nat)
    requires k < |s| && !IsDigit(s[k]) && AllDigits(s[..k]) && DigitsValue(acc, s[..k]) <= MaxUint64
    ensures ScanDigits(s, acc) == BadSyntax
    decreases k
  {
    if k > 0 {
      var next := acc * 10 + DigitValue(s[0]);
      assert s[..k][1..] == s[1..][..k - 1];
      DigitsValueAtLeast(next, s[1..][..k - 1]);
      ScanDigitsStopsAtNonDigit(s[1..], next, k - 1);
    }
  }

  /**
   * `ParseInt64` accepts exactly an optional sign followed by at least one digit, whose value
   * with the sign fits in 64 bits, and reads it as that value: "+20" is 20 and "-0" is 0.
   */
  lemma ParseInt64Accepts(s: string, v: int)
    ensures ParseInt64(s) == Ok(v) <==>
              |Unsigned(s)| > 0 && AllDigits(Unsigned(s)) && SignedValue(s) == v && MinInt64 <= v <= MaxInt64
  {
    var d := Unsigned(s);
    if ParseInt64(s).Ok? {
      ScanDigitsOnlyDigits(d, 0);
    }
    if |d| > 0 && AllDigits(d) && MinInt64 <= SignedValue(s) <= MaxInt64 {
      ScanDigitsValue(d, 0);
    }
  }

  /** No digits after the optional sign is a syntax error: "", "+" and "-" are refused. */
  lemma ParseInt64RefusesNoDigits(s: string)
    requires |Unsigned(s)| == 0
    ensures ParseInt64(s) == Err(SyntaxError(s))
  {
  }

  /**
   * A character that is not a digit, reached while the digits before it still fit in 64 bits,
   * is a syntax error: "bla" and "12a" are refused.
   */
  lemma ParseInt64RefusesNonDigit(s: string, k: nat)
    requires k < |Unsigned(s)| && !IsDigit(Unsigned(s)[k])
    requires AllDigits(Unsigned(s)[..k]) && DigitsValue(0, Unsigned(s)[..k]) <= MaxUint64
    ensures ParseInt64(s) == Err(SyntaxError(s))
  {
    ScanDigitsStopsAtNonDigit(Unsigned(s), 0, k);
  }

  /** Digits whose signed value lies outside 64 bits are a range error. */
  lemma ParseInt64RefusesOutOfRange(s: string)
    requires |Unsigned(s)| > 0 && AllDigits(Unsigned(s))
    requires SignedValue(s) < MinInt64 || MaxInt64 < SignedValue(s)
    ensures ParseInt64(s) == Err(RangeError(s))
  {
    var d := Unsigned(s);
    if DigitsValue(0, d) > MaxUint64 {
      ScanDigitsOverflow(d, 0);
    } else {
      ScanDigitsValue(d, 0);
    }
  }
}
