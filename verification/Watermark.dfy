/**
 The watermark rule (getReplicaCount, algorithm/watermark/waterwark_calculator.go:172-193)
 over exact real arithmetic, and its integer form.
 */
module Watermark {
  import opened Limits

  datatype Band = Band(low: int, high: int, tolerance: int)

  /** The watermarks and tolerance the rule is meant for. */
  ghost predicate Sensible(b: Band) {
    0 < b.low <= b.high && 1 <= b.tolerance <= 99
  }

  function Ceil(x: real): int { -((-x).Floor) }

  function AdjustedHigh(b: Band): real {
    b.high as real + b.tolerance as real / 100.0 * b.high as real
  }

  function AdjustedLow(b: Band): real {
    b.low as real - b.tolerance as real / 100.0 * b.low as real
  }

  function Proportion(ready: int, usage: real, mark: int): real
    requires mark != 0
  {
    ready as real * usage / mark as real
  }

  /**
   The count proposed for one metric. A zero watermark makes the float an infinity or a
   NaN, whose conversion to int32 Go leaves to the implementation: undefined is that value.
   */
  function GetReplicaCount(current: int, ready: int, b: Band, usage: real, undefined: int): int {
    if usage > AdjustedHigh(b) then
      if b.high == 0 then undefined else Ceil(Proportion(ready, usage, b.high))
    else if usage < AdjustedLow(b) then
      Max(if b.low == 0 then undefined else Proportion(ready, usage, b.low).Floor, 1)
    else current
  }

  /** Where a mark of zero makes the float infinite: above a high one, and below a low one. */
  lemma ZeroMarksAreOpen(current: int, ready: int, b: Band, usage: real, undefined: int)
    ensures b.high == 0 && usage > 0.0 ==> GetReplicaCount(current, ready, b, usage, undefined) == undefined
    ensures b.low == 0 && usage < 0.0 && usage <= AdjustedHigh(b) ==>
              GetReplicaCount(current, ready, b, usage, undefined) == Max(undefined, 1)
  {
  }

  /** Usage sum/count against the tolerance band, multiplied out. */
  predicate Above(b: Band, sum: int, count: int) { 100 * sum > (100 + b.tolerance) * b.high * count }
  predicate Below(b: Band, sum: int, count: int) { 100 * sum < (100 - b.tolerance) * b.low * count }

  function CeilDiv(a: int, d: int): int
    requires d > 0
  {
    -((-a) / d)
  }

  /** The rule on integers: sum over ready pods, divided by divisor (the ready count or one). */
  function IntegerCount(current: int, ready: int, b: Band, sum: int, divisor: int): int
    requires 0 < b.low && 0 < b.high && 0 < divisor
  {
    if Above(b, sum, divisor) then CeilDiv(ready * sum, divisor * b.high)
    else if Below(b, sum, divisor) then Max(ready * sum / (divisor * b.low), 1)
    else current
  }

  function Quotient(a: int, d: int): real
    requires d > 0
  {
    a as real / d as real
  }

  lemma QuotientTimes(a: int, d: int)
    requires d > 0
    ensures Quotient(a, d) * d as real == a as real
  {
  }

  lemma RealTimesInt(x: real, y: real, d: real)
    requires d > 0.0
    ensures x < y <==> x * d < y * d
  {
  }

  lemma FloorOfQuotient(a: int, d: int)
    requires d > 0
    ensures Quotient(a, d).Floor == a / d
    ensures Ceil(Quotient(a, d)) == CeilDiv(a, d)
  {
    FloorOnly(a, d);
    FloorOnly(-a, d);
    assert Quotient(-a, d) == -Quotient(a, d);
  }

  lemma FloorOnly(a: int, d: int)
    requires d > 0
    ensures Quotient(a, d).Floor == a / d
  {
    var q, k := Quotient(a, d), a / d;
    var dr := d as real;
    QuotientTimes(a, d);
    assert k * d <= a < (k + 1) * d;
    assert k as real * dr == (k * d) as real;
    assert (k + 1) as real * dr == ((k + 1) * d) as real;
    RealTimesInt(q, k as real, dr);
    RealTimesInt(q, (k + 1) as real, dr);
    assert k as real <= q < (k + 1) as real;
  }

  lemma QuotientOfQuotient(ready: int, sum: int, d: int, mark: int)
    requires d > 0 && mark > 0
    ensures d * mark > 0
    ensures Proportion(ready, Quotient(sum, d), mark) == Quotient(ready * sum, d * mark)
  {
  }

  lemma BandMultipliedOut(b: Band, sum: int, d: int)
    requires d > 0
    ensures Quotient(sum, d) > AdjustedHigh(b) <==> Above(b, sum, d)
    ensures Quotient(sum, d) < AdjustedLow(b) <==> Below(b, sum, d)
  {
  }

  lemma ProportionRounded(ready: int, sum: int, d: int, mark: int)
    requires d > 0 && mark > 0
    ensures d * mark > 0
    ensures Proportion(ready, Quotient(sum, d), mark).Floor == ready * sum / (d * mark)
    ensures Ceil(Proportion(ready, Quotient(sum, d), mark)) == CeilDiv(ready * sum, d * mark)
  {
    QuotientOfQuotient(ready, sum, d, mark);
    FloorOfQuotient(ready * sum, d * mark);
  }

  /** On a usage that is a sum over a positive divisor the rule is exact integer arithmetic. */
  lemma RuleIsIntegral(current: int, ready: int, b: Band, sum: int, divisor: int, undefined: int)
    requires 0 < b.low && 0 < b.high && 0 < divisor
    ensures GetReplicaCount(current, ready, b, Quotient(sum, divisor), undefined)
            == IntegerCount(current, ready, b, sum, divisor)
  {
    BandMultipliedOut(b, sum, divisor);
    ProportionRounded(ready, sum, divisor, b.high);
    ProportionRounded(ready, sum, divisor, b.low);
  }

  /** CeilDiv and division by their meaning. */
  lemma CeilDivIsLeast(a: int, d: int, k: int)
    requires d > 0
    ensures CeilDiv(a, d) <= k <==> a <= d * k
  {
    var c := CeilDiv(a, d);
    assert d * (c - 1) < a <= d * c;
    if c <= k { ScaleOrdered(d, c, k); } else { ScaleOrdered(d, k, c - 1); }
  }

  lemma DivIsGreatest(a: int, d: int, k: int)
    requires d > 0
    ensures k <= a / d <==> d * k <= a
  {
    var q := a / d;
    assert d * q <= a < d * (q + 1);
    if k <= q { ScaleOrdered(d, k, q); } else { ScaleOrdered(d, q + 1, k); }
  }

  lemma ScaleOrdered(d: int, x: int, y: int)
    requires d > 0 && x <= y
    ensures d * x <= d * y
  {
  }

  lemma DivBetween(a: int, d: int, q: int)
    requires d > 0 && d * q <= a < d * (q + 1)
    ensures a / d == q
  {
    DivIsGreatest(a, d, q);
    DivIsGreatest(a, d, q + 1);
  }

  lemma ScaleBetween(n: int, lo: int, a: int, hi: int)
    requires n > 0 && lo <= a < hi
    ensures n * lo <= n * a < n * hi
  {
  }

  lemma CancelFactor(n: int, a: int, d: int)
    requires n > 0 && d > 0
    ensures n * d > 0
    ensures (n * a) / (n * d) == a / d
  {
    var q := a / d;
    var lo, hi := d * q, d * (q + 1);
    ScaleBetween(n, lo, a, hi);
    Positive(n, d);
    assert n * lo == (n * d) * q && n * hi == (n * d) * (q + 1);
    DivBetween(n * a, n * d, q);
  }

  lemma Positive(a: int, b: int)
    requires a > 0 && b > 0
    ensures a * b > 0
  {
  }

  /** In average mode the ready count divides the sum, and it cancels. */
  lemma AverageCancels(current: int, n: int, b: Band, sum: int)
    requires Sensible(b) && n >= 1
    ensures IntegerCount(current, n, b, sum, n) ==
            if Above(b, sum, n) then CeilDiv(sum, b.high)
            else if Below(b, sum, n) then Max(sum / b.low, 1)
            else current
  {
    CancelFactor(n, sum, b.high);
    CancelFactor(n, -sum, b.high);
    CancelFactor(n, sum, b.low);
    assert n * -sum == -(n * sum);
  }

  /**
   Average-mode proposals are optimal. Above the band: the fewest replicas whose share of
   the load is within the high watermark. Below it: the most that still keep every share
   at the low watermark, or one. The ready count they were computed from plays no part.
   */
  lemma AverageProposalIsOptimal(current: int, n: int, b: Band, sum: int, k: int, undefined: int)
    requires Sensible(b) && n >= 1
    ensures var proposal := GetReplicaCount(current, n, b, Quotient(sum, n), undefined);
            && (Above(b, sum, n) ==> (proposal <= k <==> sum <= b.high * k))
            && (Below(b, sum, n) && k >= 1 ==> (k <= proposal <==> k == 1 || b.low * k <= sum))
            && (!Above(b, sum, n) && !Below(b, sum, n) ==> proposal == current)
  {
    RuleIsIntegral(current, n, b, sum, n, undefined);
    AverageCancels(current, n, b, sum);
    CeilDivIsLeast(sum, b.high, k);
    DivIsGreatest(sum, b.low, k);
    AboveAndBelowExclude(b, sum, n);
  }

  /**
   The same without an average: the sum itself is held against the marks, and multiplied
   by the ready count.
   */
  lemma WholeSumIsOptimal(current: int, ready: int, b: Band, sum: int, k: int, undefined: int)
    requires Sensible(b)
    ensures var proposal := GetReplicaCount(current, ready, b, Quotient(sum, 1), undefined);
            && (Above(b, sum, 1) ==> (proposal <= k <==> ready * sum <= b.high * k))
            && (Below(b, sum, 1) && k >= 1 ==> (k <= proposal <==> k == 1 || b.low * k <= ready * sum))
            && (!Above(b, sum, 1) && !Below(b, sum, 1) ==> proposal == current)
  {
    RuleIsIntegral(current, ready, b, sum, 1, undefined);
    CeilDivIsLeast(ready * sum, b.high, k);
    DivIsGreatest(ready * sum, b.low, k);
    AboveAndBelowExclude(b, sum, 1);
  }

  lemma AboveAndBelowExclude(b: Band, sum: int, n: int)
    requires Sensible(b) && n >= 1
    ensures !(Above(b, sum, n) && Below(b, sum, n))
  {
    assert (100 - b.tolerance) * b.low <= 100 * b.low <= 100 * b.high <= (100 + b.tolerance) * b.high;
    ScaleOrdered(n, (100 - b.tolerance) * b.low, (100 + b.tolerance) * b.high);
  }

  lemma AboveTheMark(b: Band, load: int, n: int)
    requires Sensible(b) && n >= 1 && Above(b, load, n)
    ensures load > b.high * n
  {
    assert (100 + b.tolerance) * b.high * n == 100 * (b.high * n) + b.tolerance * (b.high * n);
    assert b.high * n > 0;
    assert b.tolerance * (b.high * n) > 0;
  }

  lemma BelowTheMark(b: Band, load: int, n: int)
    requires Sensible(b) && n >= 1 && Below(b, load, n)
    ensures load < b.low * n
  {
    assert (100 - b.tolerance) * b.low * n == 100 * (b.low * n) - b.tolerance * (b.low * n);
    assert b.low * n > 0;
    assert b.tolerance * (b.low * n) > 0;
  }

  /** Two ready counts on the same side of the band lead to the same proposal. */
  lemma AverageProposalIsPathIndependent(current: int, n: int, m: int, b: Band, sum: int, undefined: int)
    requires Sensible(b) && n >= 1 && m >= 1
    requires (Above(b, sum, n) && Above(b, sum, m)) || (Below(b, sum, n) && Below(b, sum, m))
    ensures GetReplicaCount(current, n, b, Quotient(sum, n), undefined)
            == GetReplicaCount(current, m, b, Quotient(sum, m), undefined)
  {
    RuleIsIntegral(current, n, b, sum, n, undefined);
    RuleIsIntegral(current, m, b, sum, m, undefined);
    AverageCancels(current, n, b, sum);
    AverageCancels(current, m, b, sum);
    AboveAndBelowExclude(b, sum, n);
    AboveAndBelowExclude(b, sum, m);
  }

  lemma EdgesSurroundMarks(b: Band)
    requires Sensible(b)
    ensures AdjustedLow(b) < b.low as real <= b.high as real < AdjustedHigh(b)
  {
  }

  lemma ProportionAgainst(ready: int, usage: real, mark: int, share: real)
    requires mark > 0
    ensures Proportion(ready, usage, mark) * mark as real == ready as real * usage
    ensures Proportion(ready, usage, mark) < share <==> ready as real * usage < share * mark as real
    ensures Proportion(ready, usage, mark) > share <==> ready as real * usage > share * mark as real
  {
  }

  lemma ProductOrder(r: real, x: real, y: real)
    requires r >= 0.0
    ensures x <= y ==> r * x <= r * y
    ensures r > 0.0 && x < y ==> r * x < r * y
  {
  }

  lemma ProportionAgainstCount(n: int, usage: real, mark: int)
    requires n >= 1 && mark > 0
    ensures Proportion(n, usage, mark) > n as real <==> usage > mark as real
    ensures Proportion(n, usage, mark) < n as real <==> usage < mark as real
  {
    var r, m := n as real, mark as real;
    ProportionAgainst(n, usage, mark, r);
    ProductOrder(r, m, usage);
    ProductOrder(r, usage, m);
  }

  /**
   When every current replica is ready, the side of the band decides the direction: more
   above it, the same inside it, fewer below it unless there is only one.
   */
  lemma SideDecidesDirection(n: int, b: Band, usage: real, undefined: int)
    requires Sensible(b) && n >= 1
    ensures var proposal := GetReplicaCount(n, n, b, usage, undefined);
            && (proposal > n <==> usage > AdjustedHigh(b))
            && (usage < AdjustedLow(b) ==> 1 <= proposal <= Max(1, n - 1))
            && (AdjustedLow(b) <= usage <= AdjustedHigh(b) ==> proposal == n)
            && !(usage > AdjustedHigh(b) && usage < AdjustedLow(b))
  {
    EdgesSurroundMarks(b);
    ProportionAgainstCount(n, usage, b.high);
    ProportionAgainstCount(n, usage, b.low);
  }

  lemma ProportionIsMonotone(n: int, u: real, v: real, mark: int)
    requires n >= 1 && mark > 0 && u <= v
    ensures Proportion(n, u, mark) <= Proportion(n, v, mark)
  {
  }

  /** The side of the band and the ready count bound the proposal. */
  lemma SideBoundsProposal(current: int, ready: int, b: Band, usage: real, undefined: int)
    requires Sensible(b) && current >= 1 && ready >= 1
    ensures var proposal := GetReplicaCount(current, ready, b, usage, undefined);
            && (usage > AdjustedHigh(b) ==>
                  proposal > ready
                  && (proposal < current <==> Proportion(ready, usage, b.high) <= (current - 1) as real))
            && (usage < AdjustedLow(b) ==>
                  1 <= proposal <= ready
                  && (proposal > current <==> Proportion(ready, usage, b.low) >= (current + 1) as real))
            && (AdjustedLow(b) <= usage <= AdjustedHigh(b) ==> proposal == current)
            && !(usage > AdjustedHigh(b) && usage < AdjustedLow(b))
  {
    EdgesSurroundMarks(b);
    ProportionAgainstCount(ready, usage, b.high);
    ProportionAgainstCount(ready, usage, b.low);
  }

  /**
   A higher usage leads to a lower proposal in two cases only, one for fewer ready than
   current replicas and one for more: the band in which nothing moves lies between.
   */
  lemma ProposalIsMonotoneIff(current: int, ready: int, b: Band, u: real, v: real, undefined: int)
    requires Sensible(b) && current >= 1 && ready >= 1 && u <= v
    ensures GetReplicaCount(current, ready, b, u, undefined) <= GetReplicaCount(current, ready, b, v, undefined)
            <==>
            && !(AdjustedLow(b) <= u <= AdjustedHigh(b) < v && Proportion(ready, v, b.high) <= (current - 1) as real)
            && !(u < AdjustedLow(b) <= v <= AdjustedHigh(b) && Proportion(ready, u, b.low) >= (current + 1) as real)
  {
    SideBoundsProposal(current, ready, b, u, undefined);
    SideBoundsProposal(current, ready, b, v, undefined);
    ProportionIsMonotone(ready, u, v, b.high);
    ProportionIsMonotone(ready, u, v, b.low);
  }

  /** With every current replica ready neither case arises. */
  lemma ProposalIsMonotone(n: int, b: Band, u: real, v: real, undefined: int)
    requires Sensible(b) && n >= 1 && u <= v
    ensures GetReplicaCount(n, n, b, u, undefined) <= GetReplicaCount(n, n, b, v, undefined)
  {
    SideDecidesDirection(n, b, u, undefined);
    SideDecidesDirection(n, b, v, undefined);
    ProposalIsMonotoneIff(n, n, b, u, v, undefined);
    ProportionAgainstCount(n, u, b.low);
    ProportionAgainstCount(n, v, b.high);
    EdgesSurroundMarks(b);
  }

  /**
   With fewer ready than current replicas the direction is not the reading's: above the
   band the proposal is below the current count exactly when the ready pods' usage would
   fit in one replica fewer.
   */
  lemma HighReadingMayLower(current: int, ready: int, b: Band, sum: int, divisor: int, undefined: int)
    requires Sensible(b) && divisor >= 1 && Above(b, sum, divisor)
    ensures GetReplicaCount(current, ready, b, Quotient(sum, divisor), undefined) < current
            <==> ready * sum <= divisor * b.high * (current - 1)
  {
    RuleIsIntegral(current, ready, b, sum, divisor, undefined);
    assert divisor * b.high > 0;
    CeilDivIsLeast(ready * sum, divisor * b.high, current - 1);
  }

  /** One ready pod of three, 90 against a high watermark of 85: two replicas. */
  lemma PendingPodsDownscale(undefined: int)
    ensures Above(Band(75000, 85000, 1), 90000, 1)
    ensures GetReplicaCount(3, 1, Band(75000, 85000, 1), Quotient(90000, 1), undefined) == 2
  {
  }
}
