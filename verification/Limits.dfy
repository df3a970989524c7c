/**
 The rate limits of controllers/shpa_controller.go:703-711, over any float64 rounding.

 A rounding is monotone and leaves the integers of up to 53 bits alone, as
 round-to-nearest does (section 4.3.1 of IEEE 754-2008). Nothing else about it is used,
 except where the relative error bound is asked for explicitly.
 */
module Limits {
  const MAX_INT32 := 0x7fff_ffff
  const EXACT_INTEGERS := 0x20_0000_0000_0000

  ghost predicate Ordered(f: real -> real, x: real, y: real) { x <= y ==> f(x) <= f(y) }
  ghost predicate FixedAt(f: real -> real, k: int) { f(k as real) == k as real }

  ghost predicate Faithful(f: real -> real) {
    && (forall x, y :: Ordered(f, x, y))
    && (forall k :: -EXACT_INTEGERS <= k <= EXACT_INTEGERS ==> FixedAt(f, k))
  }

  type Rounding = f: real -> real | Faithful(f) witness (x: real) => x

  /** The error of y as a rounded x is at most half a unit in the last place: x over 2^53. */
  ghost predicate Near(x: real, y: real) {
    -x <= (y - x) * 9007199254740992.0 <= x
  }

  ghost predicate HalfUlp(f: real -> real) {
    forall x: real :: x >= 0.0 ==> Near(x, f(x))
  }

  function Max(a: int, b: int): int { if a >= b then a else b }
  function Min(a: int, b: int): int { if a <= b then a else b }

  function Times(x: real, n: int): real { x * n as real }

  /** float64(factor)/100*float64(current), each operation rounded. */
  function Share(rnd: Rounding, factor: int, current: int): real {
    rnd(Times(rnd(factor as real / 100.0), current))
  }

  /** By how many replicas one step may move. */
  function Stride(rnd: Rounding, factor: int, current: int): int {
    Max(1, Share(rnd, factor, current).Floor)
  }

  /** To how many replicas one step may go up. */
  function ScaleUpLimit(rnd: Rounding, factor: int, current: int): int {
    rnd((current + Stride(rnd, factor, current)) as real).Floor
  }

  /** To how many replicas one step may go down. */
  function ScaleDownLimit(rnd: Rounding, factor: int, current: int): int {
    rnd((current - Stride(rnd, factor, current)) as real).Floor
  }

  lemma RoundFixes(rnd: Rounding, k: int)
    requires -EXACT_INTEGERS <= k <= EXACT_INTEGERS
    ensures rnd(k as real) == k as real
  {
    assert FixedAt(rnd, k);
  }

  lemma RoundWithin(rnd: Rounding, lo: int, x: real, hi: int)
    requires -EXACT_INTEGERS <= lo && lo as real <= x <= hi as real && hi <= EXACT_INTEGERS
    ensures lo as real <= rnd(x) <= hi as real
  {
    assert Ordered(rnd, lo as real, x) && Ordered(rnd, x, hi as real);
    RoundFixes(rnd, lo);
    RoundFixes(rnd, hi);
  }

  lemma ScaleByFraction(x: real, n: int)
    requires 0.0 <= x <= 1.0 && n >= 0
    ensures 0.0 <= Times(x, n) <= n as real
  {
    var c := n as real;
    assert 0.0 <= x * c <= c;
  }

  lemma ShareBounds(rnd: Rounding, factor: int, current: int)
    requires 0 <= factor <= 100 && 1 <= current <= MAX_INT32
    ensures 0.0 <= Share(rnd, factor, current) <= current as real
  {
    RoundWithin(rnd, 0, factor as real / 100.0, 1);
    var fraction := rnd(factor as real / 100.0);
    ScaleByFraction(fraction, current);
    RoundWithin(rnd, 0, Times(fraction, current), current);
  }

  lemma StrideBounds(rnd: Rounding, factor: int, current: int)
    requires 0 <= factor <= 100 && 1 <= current <= MAX_INT32
    ensures 1 <= Stride(rnd, factor, current) <= current
  {
    ShareBounds(rnd, factor, current);
  }

  /**
   For every rounding and every factor the CRD admits, a step may at least add or take
   away one replica, and at most double the count or empty it.
   */
  lemma LimitsAreRates(rnd: Rounding, factor: int, current: int)
    requires 0 <= factor <= 100 && 1 <= current <= MAX_INT32
    ensures current + 1 <= ScaleUpLimit(rnd, factor, current) <= 2 * current
    ensures 0 <= ScaleDownLimit(rnd, factor, current) <= current - 1
  {
    StrideBounds(rnd, factor, current);
    RoundFixes(rnd, current + Stride(rnd, factor, current));
    RoundFixes(rnd, current - Stride(rnd, factor, current));
  }

  /** The largest factor doubles, under any rounding. */
  lemma FullFactorDoubles(rnd: Rounding, current: int)
    requires 1 <= current <= MAX_INT32
    ensures ScaleUpLimit(rnd, 100, current) == 2 * current
  {
    RoundFixes(rnd, 1);
    RoundFixes(rnd, current);
    RoundFixes(rnd, 2 * current);
    assert 100 as real / 100.0 == 1 as real;
    assert Times(1 as real, current) == current as real;
  }

  /** And empties. */
  lemma FullFactorEmpties(rnd: Rounding, current: int)
    requires 1 <= current <= MAX_INT32
    ensures ScaleDownLimit(rnd, 100, current) == 0
  {
    RoundFixes(rnd, 1);
    RoundFixes(rnd, current);
    RoundFixes(rnd, 0);
    assert 100 as real / 100.0 == 1 as real;
    assert Times(1 as real, current) == current as real;
  }

  /** Where nothing is lost to rounding the limits are the percentages, rounded down and at least one. */
  lemma LimitsAreExactUnrounded(rnd: Rounding, factor: int, current: int)
    requires 0 <= factor <= 100 && 1 <= current <= MAX_INT32
    requires rnd(factor as real / 100.0) == factor as real / 100.0
    requires rnd((factor * current) as real / 100.0) == (factor * current) as real / 100.0
    ensures ScaleUpLimit(rnd, factor, current) == current + Max(1, factor * current / 100)
    ensures ScaleDownLimit(rnd, factor, current) == current - Max(1, factor * current / 100)
  {
    assert Times(factor as real / 100.0, current) == (factor * current) as real / 100.0 by {
      assert factor as real * current as real == (factor * current) as real;
    }
    assert Share(rnd, factor, current) == (factor * current) as real / 100.0;
    FloorOfPercent(factor * current);
    StrideBounds(rnd, factor, current);
    RoundFixes(rnd, current + Stride(rnd, factor, current));
    RoundFixes(rnd, current - Stride(rnd, factor, current));
  }

  lemma FloorOfPercent(n: int)
    ensures (n as real / 100.0).Floor == n / 100
  {
  }

  /** Any count whose double is an int32 keeps both int32 conversions exact. */
  lemma LimitsFitInt32(rnd: Rounding, factor: int, current: int)
    requires 0 <= factor <= 100 && 1 <= current && 2 * current <= MAX_INT32
    ensures 0 <= ScaleDownLimit(rnd, factor, current) < ScaleUpLimit(rnd, factor, current) <= MAX_INT32
  {
    LimitsAreRates(rnd, factor, current);
  }

  /** The relative errors of the division and of the product, added up. */
  lemma SmallError(q: real, y: real, n: int, z: real)
    requires 0.0 <= q <= 1.0 && 0.0 <= y <= 1.0 && 0 <= n <= MAX_INT32
    requires Near(q, y) && Near(Times(y, n), z)
    ensures -0.01 < z - Times(q, n) < 0.01
  {
    ScaledDifference((y - q) * 9007199254740992.0, y, q, n);
    ScaleByFraction(y, n);
  }

  lemma ScaledDifference(e: real, y: real, q: real, n: int)
    requires e == (y - q) * 9007199254740992.0 && -1.0 <= e <= 1.0 && n >= 0
    ensures -(n as real) <= (Times(y, n) - Times(q, n)) * 9007199254740992.0 <= n as real
  {
    var c := n as real;
    Scaled(e, c);
    var difference := Times(y, n) - Times(q, n);
    assert difference == (y - q) * c;
    assert difference * 9007199254740992.0 == e * c;
  }

  lemma Scaled(e: real, c: real)
    requires -1.0 <= e <= 1.0 && c >= 0.0
    ensures -c <= e * c <= c
  {
  }

  lemma FloorWithinACent(y: real, n: int)
    requires -0.01 < y - n as real / 100.0 < 0.01
    ensures n % 100 != 0 ==> y.Floor == n / 100
    ensures n % 100 == 0 ==> n / 100 - 1 <= y.Floor <= n / 100
  {
  }

  lemma ShareNear(rnd: Rounding, factor: int, current: int)
    requires HalfUlp(rnd)
    requires 0 <= factor <= 100 && 1 <= current <= MAX_INT32
    ensures -0.01 < Share(rnd, factor, current) - (factor * current) as real / 100.0 < 0.01
  {
    var q := factor as real / 100.0;
    RoundWithin(rnd, 0, q, 1);
    ScaleByFraction(rnd(q), current);
    assert Near(q, rnd(q)) && Near(Times(rnd(q), current), Share(rnd, factor, current));
    SmallError(q, rnd(q), current, Share(rnd, factor, current));
    assert Times(q, current) == (factor * current) as real / 100.0 by {
      assert factor as real * current as real == (factor * current) as real;
    }
  }

  /**
   With float64's error bound the stride is the exact one, except that it may fall one
   short where the exact quotient is an integer.
   */
  lemma StrideIsExactOrOneShort(rnd: Rounding, factor: int, current: int)
    requires HalfUlp(rnd)
    requires 0 <= factor <= 100 && 1 <= current <= MAX_INT32
    ensures var exact := Max(1, factor * current / 100);
            var stride := Stride(rnd, factor, current);
            && (factor * current % 100 != 0 ==> stride == exact)
            && exact - 1 <= stride <= exact
  {
    ShareNear(rnd, factor, current);
    FloorWithinACent(Share(rnd, factor, current), factor * current);
  }

  /** Hence each limit is within one replica of the exact integer value. */
  lemma LimitsNearExact(rnd: Rounding, factor: int, current: int)
    requires HalfUlp(rnd)
    requires 0 <= factor <= 100 && 1 <= current <= MAX_INT32
    ensures var exact := Max(1, factor * current / 100);
            && current + exact - 1 <= ScaleUpLimit(rnd, factor, current) <= current + exact
            && current - exact <= ScaleDownLimit(rnd, factor, current) <= current - exact + 1
            && (factor * current % 100 != 0 ==>
                && ScaleUpLimit(rnd, factor, current) == current + exact
                && ScaleDownLimit(rnd, factor, current) == current - exact)
  {
    StrideIsExactOrOneShort(rnd, factor, current);
    StrideBounds(rnd, factor, current);
    RoundFixes(rnd, current + Stride(rnd, factor, current));
    RoundFixes(rnd, current - Stride(rnd, factor, current));
  }

  /** The shortfall is real: a rounding that puts 0.29 a little low gives 28 for 29 percent of 100. */
  lemma OneShortHappens() returns (rnd: Rounding)
    ensures HalfUlp(rnd)
    ensures Stride(rnd, 29, 100) == 28
  {
    var low := 0.29 * (1.0 - 1.0 / 9007199254740992.0);
    var f := (x: real) => if low < x <= 0.29 then low else x;
    assert Faithful(f) by {
      forall k | -EXACT_INTEGERS <= k <= EXACT_INTEGERS ensures FixedAt(f, k) {
        assert k <= 0 || k >= 1;
      }
    }
    rnd := f;
    assert f(29 as real / 100.0) == low;
    assert f(Times(low, 100)) == Times(low, 100);
  }
}
