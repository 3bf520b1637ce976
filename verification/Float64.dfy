/**
 Double-precision floats, as far as rounding one to an integer needs them: a sign, a mantissa of 53
 bits and a power of two, the addition of one half with its rounding to 53 bits, ties to even, and
 the truncation of the sum. Products with powers of two are shifts.
 */
module Float64 {

  const P52: nat := 0x10_0000_0000_0000
  const P53: nat := 0x20_0000_0000_0000

  // m times 2^k.
  function Shift(m: nat, k: nat): nat {
    if k == 0 then m else 2 * Shift(m, k - 1)
  }

  function Pow2(k: nat): nat {
    Shift(1, k)
  }

  // n divided by 2^k, without the remainder.
  function Drop(n: nat, k: nat): nat
    decreases k
  {
    if k == 0 then n else Drop(n / 2, k - 1)
  }

  // The finite float m * 2^e or -m * 2^e, in its one representation: normal or subnormal.
  datatype Float = Float(neg: bool, m: nat, e: int)

  predicate Canonical(f: Float) {
    (P52 <= f.m < P53 && -1074 <= f.e <= 971) || (f.m < P52 && f.e == -1074)
  }

  type Double = f: Float | Canonical(f) witness Float(false, 0, -1074)

  // The least and the greatest positive double, the bounds of the normal ones, and what lies just beyond.
  lemma Extremes()
    ensures Canonical(Float(false, 1, -1074)) && Canonical(Float(false, P53 - 1, 971))
    ensures Canonical(Float(false, P52, -1074)) && Canonical(Float(false, P52 - 1, -1074)) && Canonical(Float(false, P52, 971))
    ensures !Canonical(Float(false, P53, 971)) && !Canonical(Float(false, P52, 972))
    ensures !Canonical(Float(false, P52, -1075)) && !Canonical(Float(false, 1, -1073))
  {
  }

  // How many bits have to go to leave 53.
  function Excess(n: nat): nat {
    if n < P53 then 0 else 1 + Excess(n / 2)
  }

  // The nearest number with at most 53 significant bits; half-way, the one with an even mantissa.
  function Rounded(n: nat): nat {
    var k := Excess(n);
    var q := Drop(n, k);
    var twice := 2 * (n - Shift(q, k));
    if twice > Pow2(k) || (twice == Pow2(k) && q % 2 == 1) then Shift(q + 1, k) else Shift(q, k)
  }

  // |x| + 1/2 times 2^Places(x), an integer.
  function Sum(f: Double): nat {
    if f.e < 0 then f.m + Pow2(-f.e - 1) else Shift(f.m, f.e + 1) + 1
  }

  function Places(f: Double): nat {
    if f.e < 0 then -f.e else 1
  }

  /** The magnitude of int64(x + copysign(0.5, x)), computed in floats. */
  function FloatRound(f: Double): nat {
    Drop(Rounded(Sum(f)), Places(f))
  }

  /** The nearest integer to the magnitude, computed exactly; half-way, the one away from zero. */
  function Nearest(f: Double): nat {
    Drop(Sum(f), Places(f))
  }

  // ---------- shifts ----------

  lemma {:induction false} ShiftAdd(a: nat, b: nat, k: nat)
    ensures Shift(a + b, k) == Shift(a, k) + Shift(b, k)
  {
    if k > 0 { ShiftAdd(a, b, k - 1); }
  }

  lemma {:induction false} ShiftShift(m: nat, j: nat, k: nat)
    ensures Shift(Shift(m, j), k) == Shift(m, j + k)
  {
    if k > 0 { ShiftShift(m, j, k - 1); }
  }

  lemma ShiftTwice(m: nat)
    ensures Shift(m, 1) == 2 * m && Shift(m, 2) == 4 * m
  {
    assert Shift(m, 0) == m && Shift(m, 1) == 2 * Shift(m, 0) && Shift(m, 2) == 2 * Shift(m, 1);
  }

  lemma {:induction false} ShiftAtLeast(m: nat, k: nat)
    ensures m <= Shift(m, k)
  {
    if k > 0 { ShiftAtLeast(m, k - 1); }
  }

  lemma {:induction false} ShiftGrows(m: nat, j: nat, k: nat)
    requires j <= k
    ensures Shift(m, j) <= Shift(m, k)
    decreases k
  {
    if j < k { ShiftGrows(m, j, k - 1); }
  }

  lemma ShiftMonotone(a: nat, b: nat, k: nat)
    requires a <= b
    ensures Shift(a, k) + (if a < b then Pow2(k) else 0) <= Shift(b, k)
  {
    ShiftAdd(a, b - a, k);
    if a < b { ShiftAdd(1, b - a - 1, k); }
  }

  lemma {:induction false} DropOf(q: nat, k: nat, r: nat)
    requires r < Pow2(k)
    ensures Drop(Shift(q, k) + r, k) == q
    decreases k
  {
    if k > 0 {
      assert (Shift(q, k) + r) / 2 == Shift(q, k - 1) + r / 2;
      DropOf(q, k - 1, r / 2);
    }
  }

  lemma {:induction false} DropBounds(n: nat, k: nat)
    ensures Shift(Drop(n, k), k) <= n < Shift(Drop(n, k), k) + Pow2(k)
    decreases k
  {
    if k > 0 { DropBounds(n / 2, k - 1); }
  }

  lemma DropToZero(n: nat, k: nat)
    requires n < Pow2(k)
    ensures Drop(n, k) == 0
  {
    ShiftAdd(0, 0, k);
    DropOf(0, k, n);
  }

  lemma Powers()
    ensures Pow2(52) == P52 && Pow2(53) == P53 && Pow2(54) == 2 * P53
  {
    assert Pow2(13) == 0x2000;
    ShiftShift(1, 13, 13);
    assert Shift(0x2000, 13) == 0x400_0000;
    ShiftShift(1, 26, 26);
    assert Shift(0x400_0000, 13) == 0x80_0000_0000;
    ShiftShift(0x400_0000, 13, 13);
    assert Shift(0x80_0000_0000, 13) == P52;
    assert Pow2(53) == 2 * Pow2(52) && Pow2(54) == 2 * Pow2(53);
  }

  // ---------- rounding to 53 bits ----------

  // A number of 53 bits, followed by k more, loses exactly those.
  lemma {:induction false} ExcessOf(q: nat, k: nat, r: nat)
    requires P52 <= q < P53 && r < Pow2(k)
    ensures Excess(Shift(q, k) + r) == k
    decreases k
  {
    if k > 0 {
      ShiftAtLeast(q, k - 1);
      assert (Shift(q, k) + r) / 2 == Shift(q, k - 1) + r / 2;
      ExcessOf(q, k - 1, r / 2);
    }
  }

  lemma RoundedOf(q: nat, k: nat, r: nat)
    requires P52 <= q < P53 && r < Pow2(k)
    ensures Rounded(Shift(q, k) + r)
         == if 2 * r > Pow2(k) || (2 * r == Pow2(k) && q % 2 == 1) then Shift(q + 1, k) else Shift(q, k)
  {
    ExcessOf(q, k, r);
    DropOf(q, k, r);
  }

  function Gap(a: nat, b: nat): (g: nat)
    ensures a == b + g || b == a + g
  {
    if a <= b then b - a else a - b
  }

  /** `Rounded` is what it says: no multiple of the last kept place is nearer. */
  lemma RoundedIsNearest(n: nat, x: nat)
    ensures Gap(Rounded(n), n) <= Gap(Shift(x, Excess(n)), n)
  {
    var k := Excess(n);
    var q := Drop(n, k);
    DropBounds(n, k);
    ShiftAdd(q, 1, k);
    MultiplesApart(q, x, k);
    Nearer(Shift(q, k), Pow2(k), n, q % 2 == 1, Shift(x, k));
  }

  lemma MultiplesApart(q: nat, x: nat, k: nat)
    ensures Shift(x, k) <= Shift(q, k) || Shift(x, k) >= Shift(q, k) + Pow2(k)
  {
    if x <= q { ShiftMonotone(x, q, k); } else { ShiftMonotone(q, x, k); }
  }

  lemma Nearer(low: nat, p: nat, n: nat, odd: bool, y: nat)
    requires low <= n < low + p && (y <= low || y >= low + p)
    ensures Gap(if 2 * (n - low) > p || (2 * (n - low) == p && odd) then low + p else low, n) <= Gap(y, n)
  {
  }

  lemma OneBitGoes(n: nat)
    requires P53 <= n < 2 * P53
    ensures Rounded(n) == if n % 2 == 0 then n else if n / 2 % 2 == 1 then n + 1 else n - 1
    ensures P53 <= Rounded(n)
  {
    assert Pow2(1) == 2 && Shift(n / 2, 1) == 2 * (n / 2) && Shift(n / 2 + 1, 1) == 2 * (n / 2) + 2;
    RoundedOf(n / 2, 1, n % 2);
  }

  // ---------- when rounding in floats is right ----------

  // The float below 1/2.
  predicate JustBelowHalf(f: Double) {
    f.m == P53 - 1 && f.e == -54
  }

  // An odd integer from 2^52 on and below 2^53: there the sum lies half-way between two floats.
  predicate OddAndLarge(f: Double) {
    f.e == 0 && f.m % 2 == 1
  }

  lemma LargeCase(f: Double)
    requires f.e >= 0
    ensures FloatRound(f) == if OddAndLarge(f) then f.m + 1 else Shift(f.m, f.e)
    ensures Nearest(f) == Shift(f.m, f.e)
  {
    assert forall n: nat :: Drop(n, 1) == Drop(n / 2, 0) == n / 2;
    ShiftGrows(1, 1, f.e + 1);
    RoundedOf(f.m, f.e + 1, 1);
    if f.e == 0 {
      assert Pow2(1) == 2 && Shift(f.m + 1, 1) == 2 * (f.m + 1);
    } else {
      ShiftGrows(1, 2, f.e + 1);
      assert Pow2(2) == 4;
    }
  }

  // From 1/2 to 2^52 at most one bit has to go, and it does not reach the next integer.
  lemma MiddleCase(f: Double)
    requires -53 <= f.e < 0
    ensures FloatRound(f) == Nearest(f)
  {
    var n := Sum(f);
    Powers();
    ShiftGrows(1, -f.e - 1, 52);
    if n >= P53 {
      var c := Pow2(53 + f.e);
      ShiftShift(1, 53 + f.e, -f.e);
      OneBitGoes(n);
      DropOf(c, -f.e, n - P53);
      DropOf(c, -f.e, Rounded(n) - P53);
    }
  }

  lemma JustBelowHalfCase(f: Double)
    requires f.e == -54
    ensures Nearest(f) == 0 && FloatRound(f) == if JustBelowHalf(f) then 1 else 0
  {
    Powers();
    OneBitGoes(Sum(f));
    DropToZero(Sum(f), 54);
    if JustBelowHalf(f) { DropOf(1, 54, 0); } else { DropToZero(Rounded(Sum(f)), 54); }
  }

  lemma SmallCase(f: Double)
    requires f.e < -54
    ensures FloatRound(f) == Nearest(f) == 0
  {
    var j := -f.e - 53;
    Powers();
    ShiftShift(1, 52, j);
    SmallSum(f.m, j);
    assert Pow2(-f.e) == 2 * Pow2(-f.e - 1) == 2 * Shift(P52, j);
    DropToZero(Sum(f), -f.e);
    DropToZero(Rounded(Sum(f)), -f.e);
  }

  lemma SmallSum(m: nat, j: nat)
    requires m < P53 && j >= 2
    ensures Shift(P52, j) + m < 2 * Shift(P52, j)
    ensures Rounded(Shift(P52, j) + m) < 2 * Shift(P52, j)
  {
    var q := Drop(m, j);
    SmallQuotient(m, j);
    DropBounds(m, j);
    ShiftAdd(P52, q, j);
    var n, r := Shift(P52, j) + m, m - Shift(q, j);
    assert n == Shift(P52 + q, j) + r;
    RoundedAtMost(P52 + q, j, r);
    NextMultiple(P52 + q, j);
  }

  lemma RoundedAtMost(q: nat, k: nat, r: nat)
    requires P52 <= q < P53 && r < Pow2(k)
    ensures Rounded(Shift(q, k) + r) <= Shift(q + 1, k)
  {
    RoundedOf(q, k, r);
    ShiftMonotone(q, q + 1, k);
  }

  lemma SmallQuotient(m: nat, j: nat)
    requires m < P53 && j >= 2
    ensures Drop(m, j) <= P52 / 2
  {
    DropBounds(m, j);
    ShiftGrows(Drop(m, j), 2, j);
    ShiftTwice(Drop(m, j));
  }

  lemma NextMultiple(q: nat, j: nat)
    requires q + 1 < 2 * P52
    ensures Shift(q, j) + Pow2(j) == Shift(q + 1, j) < 2 * Shift(P52, j)
  {
    ShiftAdd(q, 1, j);
    ShiftMonotone(q + 1, 2 * P52, j);
    ShiftAdd(P52, P52, j);
    ShiftAtLeast(1, j);
  }

  /** Adding one half in floats and truncating gives the nearest integer, half-way the one away from
      zero, for every float but two kinds: the neighbours of 1/2 and -1/2 towards zero, and the odd
      integers with a magnitude from 2^52 to 2^53. */
  lemma RoundsToNearestIff(f: Double)
    ensures FloatRound(f) == Nearest(f) <==> !JustBelowHalf(f) && !OddAndLarge(f)
  {
    if f.e >= 0 {
      LargeCase(f);
    } else if f.e >= -53 {
      MiddleCase(f);
    } else if f.e == -54 {
      JustBelowHalfCase(f);
    } else {
      SmallCase(f);
    }
  }

  // ---------- integers ----------

  predicate IsInteger(f: Double) {
    f.e >= 0 || Shift(Drop(f.m, -f.e), -f.e) == f.m
  }

  function IntegerPart(f: Double): nat {
    if f.e >= 0 then Shift(f.m, f.e) else Drop(f.m, -f.e)
  }

  lemma NearestOfInteger(f: Double)
    requires IsInteger(f)
    ensures Nearest(f) == IntegerPart(f)
  {
    if f.e >= 0 {
      LargeCase(f);
    } else {
      ShiftAtLeast(1, -f.e - 1);
      DropOf(Drop(f.m, -f.e), -f.e, Pow2(-f.e - 1));
    }
  }

  lemma LargeInteger(f: Double)
    requires IsInteger(f)
    ensures OddAndLarge(f) <==> P52 <= IntegerPart(f) < P53 && IntegerPart(f) % 2 == 1
    ensures !JustBelowHalf(f)
  {
    if f.e > 0 {
      ShiftGrows(f.m, 1, f.e);
      assert Shift(f.m, 1) == 2 * f.m;
    } else if f.e < 0 {
      var q := Drop(f.m, -f.e);
      ShiftGrows(q, 1, -f.e);
      assert Shift(q, 1) == 2 * q;
      Powers();
      if f.e == -54 {
        DropToZero(f.m, 54);
        ShiftAdd(0, 0, 54);
      }
    }
  }

  /** An integer float is rounded to itself exactly if it is not an odd number from 2^52 on and
      below 2^53. */
  lemma IntegerIsKeptIff(f: Double)
    requires IsInteger(f)
    ensures FloatRound(f) == IntegerPart(f)
       <==> !(P52 <= IntegerPart(f) < P53 && IntegerPart(f) % 2 == 1)
  {
    NearestOfInteger(f);
    LargeInteger(f);
    RoundsToNearestIff(f);
  }

  // ---------- what is rounded to zero ----------

  // |x| < 1/2 - 2^-54, both sides multiplied by a power of two that makes them integers.
  predicate UnderHalf(f: Double) {
    if f.e >= -54 then Shift(f.m, f.e + 54) < P53 - 1 else f.m < Shift(P53 - 1, -54 - f.e)
  }

  /** A magnitude is rounded to zero exactly if it is below 1/2 - 2^-54. */
  lemma RoundsToZeroIff(f: Double)
    ensures FloatRound(f) == 0 <==> UnderHalf(f)
  {
    if f.e < -54 {
      SmallCase(f);
      ShiftGrows(P53 - 1, 1, -54 - f.e);
      assert Shift(P53 - 1, 1) == 2 * (P53 - 1);
    } else if f.e == -54 {
      JustBelowHalfCase(f);
    } else {
      AtLeastHalf(f);
    }
  }

  lemma AtLeastHalf(f: Double)
    requires f.e > -54
    ensures FloatRound(f) != 0 && !UnderHalf(f)
  {
    ShiftGrows(f.m, 1, f.e + 54);
    assert Shift(f.m, 1) == 2 * f.m;
    if f.e >= 0 {
      LargeCase(f);
      ShiftAtLeast(f.m, f.e);
    } else {
      MiddleCase(f);
      Powers();
      ShiftGrows(1, -f.e - 1, 52);
      DropBounds(Sum(f), -f.e);
      ShiftAdd(0, 0, -f.e);
    }
  }
}
