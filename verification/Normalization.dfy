/**
 The normalisation cascade of convertDesiredReplicasWithRules
 (controllers/shpa_controller.go:601-651), and the clamp it amounts to.
 */
module Normalization {
  import opened Limits
  import opened Conditions

  datatype Factors = Factors(up: int, down: int)

  datatype Normalized = Normalized(count: int, reason: Reason)

  function Convert(rnd: Rounding, f: Factors, current: int, desired: int, min: int, max: int): Normalized {
    var downLimit := ScaleDownLimit(rnd, f.down, current);
    var minimumAllowed :=
      if min == 0 then 1
      else if desired < downLimit then Max(downLimit, min)
      else min;
    var lowReason :=
      if min == 0 then NoReason
      else if desired < downLimit then BeyondScaleDownLimit
      else TooFewReplicas;
    if desired < minimumAllowed then Normalized(minimumAllowed, lowReason)
    else
      var upLimit := ScaleUpLimit(rnd, f.up, current);
      var maximumAllowed := if desired > upLimit then Min(upLimit, max) else max;
      var highReason := if desired > upLimit then BeyondScaleUpLimit else TooManyReplicas;
      if desired > maximumAllowed then Normalized(maximumAllowed, highReason)
      else Normalized(desired, DesiredWithinRange)
  }

  function Floor(rnd: Rounding, f: Factors, current: int, min: int): int {
    Max(ScaleDownLimit(rnd, f.down, current), min)
  }

  function Ceiling(rnd: Rounding, f: Factors, current: int, max: int): int {
    Min(ScaleUpLimit(rnd, f.up, current), max)
  }

  function Clamp(x: int, lo: int, hi: int): int { Max(lo, Min(x, hi)) }

  /** The facts computeReplicas has established where it normalises (lines 364-372). */
  ghost predicate Calibrated(f: Factors, current: int, min: int, max: int) {
    && 1 <= f.up <= 100 && 1 <= f.down <= 100
    && 1 <= min <= current <= max <= MAX_INT32
  }

  /**
   The cascade is a clamp between the two rate limits cut to the configured range, an
   interval that always holds the current count.
   */
  lemma CascadeIsClamp(rnd: Rounding, f: Factors, current: int, desired: int, min: int, max: int)
    requires Calibrated(f, current, min, max)
    ensures min <= Floor(rnd, f, current, min) <= current <= Ceiling(rnd, f, current, max) <= max
    ensures Convert(rnd, f, current, desired, min, max).count
            == Clamp(desired, Floor(rnd, f, current, min), Ceiling(rnd, f, current, max))
  {
    LimitsAreRates(rnd, f.up, current);
    LimitsAreRates(rnd, f.down, current);
  }

  /** The lower bound of the cascade; without a minimum it is one, and no rate limit applies. */
  function Lowest(rnd: Rounding, f: Factors, current: int, min: int): int {
    if min == 0 then 1 else Floor(rnd, f, current, min)
  }

  /**
   Without those facts it is a clamp exactly when the interval is not empty or the
   proposal is below it: otherwise the upper bound wins over the lower one.
   */
  lemma CascadeIsClampIff(rnd: Rounding, f: Factors, current: int, desired: int, min: int, max: int)
    ensures var lo, hi := Lowest(rnd, f, current, min), Ceiling(rnd, f, current, max);
            Convert(rnd, f, current, desired, min, max).count == Clamp(desired, lo, hi)
            <==> lo <= hi || desired < lo
  {
  }

  /** A bound of one, hit for want of a minimum, is the only one that goes without a reason. */
  lemma NoReasonIff(rnd: Rounding, f: Factors, current: int, desired: int, min: int, max: int)
    ensures Convert(rnd, f, current, desired, min, max).reason == NoReason <==> min == 0 && desired < 1
    ensures min == 0 && desired < 1 ==> Convert(rnd, f, current, desired, min, max).count == 1
  {
  }

  /** At the largest scale-up factor a step may reach the maximum if and only if doubling does. */
  lemma FullFactorReachesMaxIff(rnd: Rounding, down: int, current: int, max: int)
    requires 1 <= current <= MAX_INT32
    ensures Ceiling(rnd, Factors(100, down), current, max) == max <==> max <= 2 * current
  {
    FullFactorDoubles(rnd, current);
  }

  /** One replica, a minimum of ten and a maximum of three: the result breaks the maximum. */
  lemma CascadeNeedsItsCaller(rnd: Rounding)
    ensures Convert(rnd, Factors(50, 20), 1, 5, 10, 3).count == 10
  {
    LimitsAreRates(rnd, 20, 1);
  }

  /** The reason names the bound that was hit, and is the neutral one exactly if none was. */
  lemma ReasonNamesBound(rnd: Rounding, f: Factors, current: int, desired: int, min: int, max: int)
    requires Calibrated(f, current, min, max)
    ensures var n := Convert(rnd, f, current, desired, min, max);
            var down, up := ScaleDownLimit(rnd, f.down, current), ScaleUpLimit(rnd, f.up, current);
            && (n.reason == BeyondScaleDownLimit <==> desired < down)
            && (n.reason == TooFewReplicas <==> down <= desired < min)
            && (n.reason == BeyondScaleUpLimit <==> up < desired)
            && (n.reason == TooManyReplicas <==> max < desired <= up)
            && (n.reason == DesiredWithinRange <==> n.count == desired)
            && (n.count == desired <==> Floor(rnd, f, current, min) <= desired <= Ceiling(rnd, f, current, max))
  {
    LimitsAreRates(rnd, f.up, current);
    LimitsAreRates(rnd, f.down, current);
  }

  /** Monotone, non-expansive, idempotent, and never against the direction of the proposal. */
  lemma CascadeIsWellBehaved(rnd: Rounding, f: Factors, current: int, a: int, b: int, min: int, max: int)
    requires Calibrated(f, current, min, max) && a <= b
    ensures var ca, cb := Convert(rnd, f, current, a, min, max).count, Convert(rnd, f, current, b, min, max).count;
            && 0 <= cb - ca <= b - a
            && Convert(rnd, f, current, ca, min, max) == Normalized(ca, DesiredWithinRange)
            && (a >= current ==> current <= ca <= a)
            && (a <= current ==> a <= ca <= current)
  {
    CascadeIsClamp(rnd, f, current, a, min, max);
    CascadeIsClamp(rnd, f, current, b, min, max);
    var ca := Convert(rnd, f, current, a, min, max).count;
    CascadeIsClamp(rnd, f, current, ca, min, max);
    ReasonNamesBound(rnd, f, current, ca, min, max);
  }

  /**
   A step never overshoots its rates, and a proposal on either side of the current count
   moves it by at least one replica unless the configured range forbids it.
   */
  lemma CascadeMakesProgress(rnd: Rounding, f: Factors, current: int, desired: int, min: int, max: int)
    requires Calibrated(f, current, min, max)
    ensures var n := Convert(rnd, f, current, desired, min, max).count;
            && min <= n <= max && 0 <= n <= 2 * current
            && (n > current <==> desired > current && current < max)
            && (n < current <==> desired < current && min < current)
  {
    CascadeIsClamp(rnd, f, current, desired, min, max);
    LimitsAreRates(rnd, f.up, current);
    LimitsAreRates(rnd, f.down, current);
  }
}
