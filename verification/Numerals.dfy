/** Printing and parsing of unsigned integers, as Go's strconv does it. */
module Numerals {

  const MAX_UINT64: nat := 0xFFFF_FFFF_FFFF_FFFF
  const TWO_64: nat := 0x1_0000_0000_0000_0000
  const TWO_63: nat := 0x8000_0000_0000_0000

  // Go's conversion of a 64-bit unsigned value to a signed one.
  function ToInt(n: nat): int {
    if n % TWO_64 < TWO_63 then n % TWO_64 else n % TWO_64 - TWO_64
  }

  datatype Parsed = Number(value: nat) | SyntaxError | RangeError

  const DIGITS: string := "0123456789abcdef"

  function DigitChar(d: nat): char
    requires d < 16
  {
    DIGITS[d]
  }

  // The value of a digit in either case; 36 for anything else.
  function DigitValue(c: char): nat {
    if '0' <= c <= '9' then c as nat - '0' as nat
    else if 'a' <= c <= 'z' then c as nat - 'a' as nat + 10
    else if 'A' <= c <= 'Z' then c as nat - 'A' as nat + 10
    else 36
  }

  function Format(n: nat, base: nat): (s: string)
    requires 2 <= base <= 16
    ensures s != []
    decreases n
  {
    if n < base then [DigitChar(n)] else Format(n / base, base) + [DigitChar(n % base)]
  }

  // The number a digit string denotes, after the digits of n.
  function ValueFrom(s: string, base: nat, n: nat): nat {
    if s == [] then n else ValueFrom(s[1..], base, n * base + DigitValue(s[0]))
  }

  function Value(s: string, base: nat): nat {
    ValueFrom(s, base, 0)
  }

  predicate AllDigits(s: string, base: nat) {
    forall i :: 0 <= i < |s| ==> DigitValue(s[i]) < base
  }

  /** strconv.ParseUint with bit size 64: digits from the left, stopping at the first error. */
  method ParseUint(s: string, base: nat) returns (r: Parsed)
    requires 2 <= base <= 36
    ensures r == Parse(s, base)
  {
    if s == [] { return SyntaxError; }
    var n: nat := 0;
    for i := 0 to |s|
      invariant n <= MAX_UINT64
      invariant Parse(s, base) == ParseFrom(s[i..], base, n)
    {
      var d := DigitValue(s[i]);
      assert s[i..][0] == s[i] && s[i..][1..] == s[i + 1..];
      if d >= base { return SyntaxError; }
      Cutoff(n, base);
      ghost var scaled := n * base + d;
      if n >= MAX_UINT64 / base + 1 { return RangeError; }
      n := n * base % TWO_64;
      Wraps(n, d);
      var sum := (n + d) % TWO_64;
      if sum < n { return RangeError; }
      n := sum;
      assert n == scaled;
    }
    r := Number(n);
  }

  function Parse(s: string, base: nat): Parsed
    requires 2 <= base <= 36
  {
    if s == [] then SyntaxError else ParseFrom(s, base, 0)
  }

  function ParseFrom(s: string, base: nat, n: nat): Parsed
    requires 2 <= base <= 36
  {
    if s == [] then Number(n)
    else
      var d := DigitValue(s[0]);
      if d >= base then SyntaxError
      else if n * base + d > MAX_UINT64 then RangeError
      else ParseFrom(s[1..], base, n * base + d)
  }

  // The overflow test after the addition is exact.
  lemma Wraps(n: nat, d: nat)
    requires n <= MAX_UINT64 && d < 36
    ensures (n + d) % TWO_64 == if n + d <= MAX_UINT64 then n + d else n + d - TWO_64
  {
  }

  // The overflow test before the multiplication is exact.
  lemma Cutoff(n: nat, base: nat)
    requires base >= 1
    ensures n >= MAX_UINT64 / base + 1 <==> n * base > MAX_UINT64
  {
    var q := MAX_UINT64 / base;
    Quotient(MAX_UINT64, base);
    if n >= q + 1 {
      Monotone(q + 1, n, base);
      assert (q + 1) * base == q * base + base;
    } else {
      Monotone(n, q, base);
    }
  }

  lemma Quotient(n: nat, base: nat)
    requires base >= 1
    ensures n == n / base * base + n % base && n % base < base
  {
  }

  lemma Monotone(a: nat, b: nat, base: nat)
    requires a <= b
    ensures a * base <= b * base
  {
    assert b * base == a * base + (b - a) * base;
  }

  lemma ScaleGrows(n: nat, base: nat)
    requires base >= 1
    ensures n <= n * base
  {
    if base > 1 { assert n * base == n + n * (base - 1); }
  }

  lemma {:induction false} ValueGrows(s: string, base: nat, n: nat)
    requires base >= 1
    ensures n <= ValueFrom(s, base, n)
  {
    if s != [] {
      ScaleGrows(n, base);
      ValueGrows(s[1..], base, n * base + DigitValue(s[0]));
    }
  }

  lemma {:induction false} ValueAppend(s: string, c: char, base: nat, n: nat)
    ensures ValueFrom(s + [c], base, n) == ValueFrom(s, base, n) * base + DigitValue(c)
  {
    if s == [] {
      assert (s + [c])[1..] == [];
    } else {
      assert (s + [c])[1..] == s[1..] + [c];
      ValueAppend(s[1..], c, base, n * base + DigitValue(s[0]));
    }
  }

  lemma {:induction false} ParseFromMeaning(s: string, base: nat, n: nat)
    requires 2 <= base <= 36 && n <= MAX_UINT64
    ensures ParseFrom(s, base, n).Number? <==> AllDigits(s, base) && ValueFrom(s, base, n) <= MAX_UINT64
    ensures ParseFrom(s, base, n).Number? ==> ParseFrom(s, base, n).value == ValueFrom(s, base, n)
  {
    if s != [] {
      var m := n * base + DigitValue(s[0]);
      ValueGrows(s[1..], base, m);
      assert AllDigits(s, base) <==> DigitValue(s[0]) < base && AllDigits(s[1..], base) by {
        assert s == [s[0]] + s[1..];
      }
      if m <= MAX_UINT64 { ParseFromMeaning(s[1..], base, m); }
    }
  }

  /** Parsing succeeds exactly on non-empty strings of digits whose value fits, and yields it. */
  lemma ParseMeaning(s: string, base: nat)
    requires 2 <= base <= 36
    ensures Parse(s, base).Number? <==> s != [] && AllDigits(s, base) && Value(s, base) <= MAX_UINT64
    ensures Parse(s, base).Number? ==> Parse(s, base).value == Value(s, base)
  {
    if s != [] { ParseFromMeaning(s, base, 0); }
  }

  lemma DigitRoundTrip(d: nat)
    requires d < 16
    ensures DigitValue(DigitChar(d)) == d
    ensures '0' <= DigitChar(d) <= '9' || 'a' <= DigitChar(d) <= 'f'
  {
    assert DIGITS[0] == '0' && DIGITS[1] == '1' && DIGITS[2] == '2' && DIGITS[3] == '3';
    assert DIGITS[4] == '4' && DIGITS[5] == '5' && DIGITS[6] == '6' && DIGITS[7] == '7';
    assert DIGITS[8] == '8' && DIGITS[9] == '9' && DIGITS[10] == 'a' && DIGITS[11] == 'b';
    assert DIGITS[12] == 'c' && DIGITS[13] == 'd' && DIGITS[14] == 'e' && DIGITS[15] == 'f';
  }

  lemma FormatUnfold(n: nat, base: nat)
    requires 2 <= base <= 16 && n >= base
    ensures n / base < n && n % base < base && n == n / base * base + n % base
    ensures Format(n, base) == Format(n / base, base) + [DigitChar(n % base)]
  {
    Quotient(n, base);
  }

  // A character of a printed number.
  predicate LowerDigit(c: char, base: nat) {
    DigitValue(c) < base && ('0' <= c <= '9' || 'a' <= c <= 'f')
  }

  lemma {:induction false} FormatDigits(n: nat, base: nat)
    requires 2 <= base <= 16
    ensures forall i :: 0 <= i < |Format(n, base)| ==> LowerDigit(Format(n, base)[i], base)
    decreases n
  {
    if n < base {
      DigitRoundTrip(n);
    } else {
      FormatUnfold(n, base);
      DigitRoundTrip(n % base);
      FormatDigits(n / base, base);
    }
  }

  lemma OneDigit(c: char, base: nat)
    ensures Value([c], base) == DigitValue(c)
  {
    assert [c][1..] == [] && 0 * base == 0;
    assert ValueFrom([c], base, 0) == ValueFrom([], base, 0 * base + DigitValue(c));
  }

  /** The printed form denotes the number. */
  lemma {:induction false} FormatMeaning(n: nat, base: nat)
    requires 2 <= base <= 16
    ensures Value(Format(n, base), base) == n
    decreases n
  {
    if n < base {
      DigitRoundTrip(n);
      OneDigit(DigitChar(n), base);
    } else {
      FormatUnfold(n, base);
      DigitRoundTrip(n % base);
      FormatMeaning(n / base, base);
      ValueAppend(Format(n / base, base), DigitChar(n % base), base, 0);
    }
  }

  /** Parsing what was printed gives the number back, for every 64-bit value. */
  lemma ParseFormat(n: nat, base: nat)
    requires n <= MAX_UINT64 && 2 <= base <= 16
    ensures Parse(Format(n, base), base) == Number(n)
  {
    FormatDigits(n, base);
    FormatMeaning(n, base);
    ParseMeaning(Format(n, base), base);
  }
}
