/**
 What the control loop does to the replica count while the total load stays the same:
 one metric in average mode, every pod ready, every write done, no cooldown pending.
 The count then moves by Next, and the question is whether it comes to rest.
 */
module CountDynamics {
  import opened Limits
  import opened Normalization
  import opened Watermark

  datatype Tuning = Tuning(band: Band, factors: Factors, min: int, max: int)

  ghost predicate Tuned(t: Tuning) {
    && Sensible(t.band)
    && 1 <= t.factors.up <= 100 && 1 <= t.factors.down <= 100
    && 1 <= t.min <= t.max <= MAX_INT32
  }

  predicate InRange(t: Tuning, n: int) { t.min <= n <= t.max }

  /** One round: the watermark proposal for n ready pods, normalised. */
  function Next(rnd: Rounding, t: Tuning, load: int, n: int): (r: int)
    requires Tuned(t) && InRange(t, n)
    ensures InRange(t, r)
  {
    var proposal := GetReplicaCount(n, n, t.band, Quotient(load, n), 0);
    CascadeMakesProgress(rnd, t.factors, n, proposal, t.min, t.max);
    Convert(rnd, t.factors, n, proposal, t.min, t.max).count
  }

  function After(rnd: Rounding, t: Tuning, load: int, n: int, rounds: nat): (r: int)
    requires Tuned(t) && InRange(t, n)
    ensures InRange(t, r)
    decreases rounds
  {
    if rounds == 0 then n else After(rnd, t, load, Next(rnd, t, load, n), rounds - 1)
  }

  ghost predicate AtRest(rnd: Rounding, t: Tuning, load: int, n: int)
    requires Tuned(t) && InRange(t, n)
  {
    Next(rnd, t, load, n) == n
  }

  /** Two neighbouring counts, the smaller with too much load a replica, the larger with too little. */
  ghost predicate HasGap(t: Tuning, load: int) {
    exists p :: GapAt(t, load, p)
  }

  predicate GapAt(t: Tuning, load: int, p: int) {
    t.min <= p < t.max && Above(t.band, load, p) && Below(t.band, load, p + 1)
  }

  lemma AboveIsDownClosed(b: Band, load: int, n: int, m: int)
    requires Sensible(b) && Above(b, load, n) && m <= n
    ensures Above(b, load, m)
  {
  }

  lemma BelowIsUpClosed(b: Band, load: int, n: int, m: int)
    requires Sensible(b) && Below(b, load, n) && n <= m
    ensures Below(b, load, m)
  {
    assert (100 - b.tolerance) * b.low > 0;
    ScaleOrdered((100 - b.tolerance) * b.low, n, m);
  }

  /** Above the band the count rises, but not past any count whose share is within the high watermark. */
  lemma Rises(rnd: Rounding, t: Tuning, load: int, n: int, k: int)
    requires Tuned(t) && InRange(t, n) && Above(t.band, load, n)
    ensures n < t.max ==> n < Next(rnd, t, load, n)
    ensures n == t.max ==> Next(rnd, t, load, n) == n
    ensures n <= k && load <= t.band.high * k ==> Next(rnd, t, load, n) <= k
  {
    var proposal := GetReplicaCount(n, n, t.band, Quotient(load, n), 0);
    AverageProposalIsOptimal(n, n, t.band, load, k, 0);
    AverageProposalIsOptimal(n, n, t.band, load, n, 0);
    assert load > t.band.high * n by {
      AboveTheMark(t.band, load, n);
    }
    CascadeMakesProgress(rnd, t.factors, n, proposal, t.min, t.max);
    CascadeIsWellBehaved(rnd, t.factors, n, n, proposal, t.min, t.max);
    CascadeIsClamp(rnd, t.factors, n, proposal, t.min, t.max);
  }

  /** Below the band it falls, but not past any count whose share is at the low watermark. */
  lemma Falls(rnd: Rounding, t: Tuning, load: int, n: int, k: int)
    requires Tuned(t) && InRange(t, n) && Below(t.band, load, n)
    ensures t.min < n ==> Next(rnd, t, load, n) < n
    ensures t.min == n ==> Next(rnd, t, load, n) == n
    ensures 1 <= k <= n && (k == 1 || t.band.low * k <= load) ==> k <= Next(rnd, t, load, n)
  {
    var proposal := GetReplicaCount(n, n, t.band, Quotient(load, n), 0);
    AverageProposalIsOptimal(n, n, t.band, load, k, 0);
    AverageProposalIsOptimal(n, n, t.band, load, n, 0);
    AverageProposalIsOptimal(n, n, t.band, load, 1, 0);
    AverageProposalIsOptimal(n, n, t.band, load, n + 1, 0);
    BelowTheMark(t.band, load, n);
    assert n > 1 ==> proposal < n;
    assert proposal <= n by {
      ScaleOrdered(t.band.low, n, n + 1);
    }
    CascadeMakesProgress(rnd, t.factors, n, proposal, t.min, t.max);
    CascadeIsWellBehaved(rnd, t.factors, n, proposal, n, t.min, t.max);
  }

  lemma Stays(rnd: Rounding, t: Tuning, load: int, n: int)
    requires Tuned(t) && InRange(t, n) && !Above(t.band, load, n) && !Below(t.band, load, n)
    ensures Next(rnd, t, load, n) == n
  {
    AverageProposalIsOptimal(n, n, t.band, load, n, 0);
    CascadeMakesProgress(rnd, t.factors, n, n, t.min, t.max);
  }

  /** The resting counts: those in the band, and an end of the range with nowhere to go. */
  lemma RestIff(rnd: Rounding, t: Tuning, load: int, n: int)
    requires Tuned(t) && InRange(t, n)
    ensures AtRest(rnd, t, load, n) <==>
            || (!Above(t.band, load, n) && !Below(t.band, load, n))
            || (Above(t.band, load, n) && n == t.max)
            || (Below(t.band, load, n) && n == t.min)
  {
    AboveAndBelowExclude(t.band, load, n);
    if Above(t.band, load, n) {
      Rises(rnd, t, load, n, n);
    } else if Below(t.band, load, n) {
      Falls(rnd, t, load, n, n);
    } else {
      Stays(rnd, t, load, n);
    }
  }

  lemma {:induction false} RestLasts(rnd: Rounding, t: Tuning, load: int, n: int, rounds: nat)
    requires Tuned(t) && InRange(t, n) && AtRest(rnd, t, load, n)
    ensures After(rnd, t, load, n, rounds) == n
  {
    if rounds > 0 {
      RestLasts(rnd, t, load, n, rounds - 1);
    }
  }

  /** With a gap nothing is at rest, so every round of every run changes the count. */
  lemma GapNeverRests(rnd: Rounding, t: Tuning, load: int, n: int)
    requires Tuned(t) && InRange(t, n) && HasGap(t, load)
    ensures !AtRest(rnd, t, load, n)
  {
    var p :| GapAt(t, load, p);
    if n <= p {
      AboveIsDownClosed(t.band, load, p, n);
      Rises(rnd, t, load, n, n);
    } else {
      BelowIsUpClosed(t.band, load, p + 1, n);
      Falls(rnd, t, load, n, n);
    }
  }

  /** Going down towards a count k that is not above the band and that the proposals respect. */
  lemma {:induction false} GoesDownToRest(rnd: Rounding, t: Tuning, load: int, k: int, n: int, rounds: nat)
    requires Tuned(t) && InRange(t, k) && InRange(t, n) && k <= n
    requires !Above(t.band, load, k)
    requires k == t.min || t.band.low * k <= load
    ensures k <= After(rnd, t, load, n, rounds) <= n
    ensures rounds >= n - k ==> AtRest(rnd, t, load, After(rnd, t, load, n, rounds))
    decreases rounds
  {
    if Above(t.band, load, n) {
      AboveIsDownClosed(t.band, load, n, k);
    }
    if AtRest(rnd, t, load, n) {
      RestLasts(rnd, t, load, n, rounds);
    } else {
      RestIff(rnd, t, load, n);
      Falls(rnd, t, load, n, k);
      RestIff(rnd, t, load, k);
      assert k < n;
      if rounds > 0 {
        GoesDownToRest(rnd, t, load, k, Next(rnd, t, load, n), rounds - 1);
      }
    }
  }

  /** The mirror image, going up. */
  lemma {:induction false} GoesUpToRest(rnd: Rounding, t: Tuning, load: int, k: int, n: int, rounds: nat)
    requires Tuned(t) && InRange(t, k) && InRange(t, n) && n <= k
    requires !Below(t.band, load, k)
    requires k == t.max || load <= t.band.high * k
    ensures n <= After(rnd, t, load, n, rounds) <= k
    ensures rounds >= k - n ==> AtRest(rnd, t, load, After(rnd, t, load, n, rounds))
    decreases rounds
  {
    if Below(t.band, load, n) {
      BelowIsUpClosed(t.band, load, n, k);
    }
    if AtRest(rnd, t, load, n) {
      RestLasts(rnd, t, load, n, rounds);
    } else {
      RestIff(rnd, t, load, n);
      Rises(rnd, t, load, n, k);
      RestIff(rnd, t, load, k);
      assert n < k;
      if rounds > 0 {
        GoesUpToRest(rnd, t, load, k, Next(rnd, t, load, n), rounds - 1);
      }
    }
  }

  lemma {:induction false} LastNotBelow(b: Band, load: int, n: int, m: int) returns (k: int)
    requires n < m && !Below(b, load, n) && Below(b, load, m)
    ensures n <= k < m && !Below(b, load, k) && Below(b, load, k + 1)
    decreases m - n
  {
    if Below(b, load, n + 1) {
      k := n;
    } else {
      k := LastNotBelow(b, load, n + 1, m);
    }
  }

  lemma {:induction false} FirstNotAbove(b: Band, load: int, n: int, m: int) returns (k: int)
    requires n < m && Above(b, load, n) && !Above(b, load, m)
    ensures n < k <= m && Above(b, load, k - 1) && !Above(b, load, k)
    decreases m - n
  {
    if Above(b, load, n + 1) {
      k := FirstNotAbove(b, load, n + 1, m);
    } else {
      k := n + 1;
    }
  }

  lemma MarksOrdered(b: Band, k: int)
    requires Sensible(b) && k >= 0
    ensures b.low * k <= b.high * k
  {
  }

  /** A rise that overshoots the band lands above a count that stops the way back down. */
  lemma TurnsDown(rnd: Rounding, t: Tuning, load: int, n: int, rounds: nat)
    requires Tuned(t) && InRange(t, n) && !HasGap(t, load) && Above(t.band, load, n)
    requires n < Next(rnd, t, load, n) && Below(t.band, load, Next(rnd, t, load, n))
    requires rounds >= 2 * (t.max - n) - 1
    ensures AtRest(rnd, t, load, After(rnd, t, load, Next(rnd, t, load, n), rounds))
  {
    var m := Next(rnd, t, load, n);
    AboveAndBelowExclude(t.band, load, n);
    var k := LastNotBelow(t.band, load, n, m);
    assert !GapAt(t, load, k);
    Rises(rnd, t, load, n, k);
    MarksOrdered(t.band, k);
    GoesDownToRest(rnd, t, load, k, m, rounds);
  }

  lemma TurnsUp(rnd: Rounding, t: Tuning, load: int, n: int, rounds: nat)
    requires Tuned(t) && InRange(t, n) && !HasGap(t, load) && Below(t.band, load, n)
    requires Next(rnd, t, load, n) < n && Above(t.band, load, Next(rnd, t, load, n))
    requires rounds >= 2 * (n - t.min) - 1
    ensures AtRest(rnd, t, load, After(rnd, t, load, Next(rnd, t, load, n), rounds))
  {
    var m := Next(rnd, t, load, n);
    AboveAndBelowExclude(t.band, load, n);
    var k := FirstNotAbove(t.band, load, m, n);
    assert !GapAt(t, load, k - 1);
    Falls(rnd, t, load, n, k);
    MarksOrdered(t.band, k);
    GoesUpToRest(rnd, t, load, k, m, rounds);
  }

  /** From above the band: it may overshoot once, but then comes down onto a count it cannot leave. */
  lemma {:induction false} SettlesFromAbove(rnd: Rounding, t: Tuning, load: int, n: int, rounds: nat)
    requires Tuned(t) && InRange(t, n) && !HasGap(t, load)
    requires Above(t.band, load, n) && rounds >= 2 * (t.max - n)
    ensures AtRest(rnd, t, load, After(rnd, t, load, n, rounds))
    decreases rounds
  {
    Rises(rnd, t, load, n, n);
    if n == t.max {
      RestLasts(rnd, t, load, n, rounds);
    } else {
      var m := Next(rnd, t, load, n);
      if Above(t.band, load, m) {
        SettlesFromAbove(rnd, t, load, m, rounds - 1);
      } else if Below(t.band, load, m) {
        TurnsDown(rnd, t, load, n, rounds - 1);
      } else {
        RestIff(rnd, t, load, m);
        RestLasts(rnd, t, load, m, rounds - 1);
      }
    }
  }

  lemma {:induction false} SettlesFromBelow(rnd: Rounding, t: Tuning, load: int, n: int, rounds: nat)
    requires Tuned(t) && InRange(t, n) && !HasGap(t, load)
    requires Below(t.band, load, n) && rounds >= 2 * (n - t.min)
    ensures AtRest(rnd, t, load, After(rnd, t, load, n, rounds))
    decreases rounds
  {
    Falls(rnd, t, load, n, n);
    if n == t.min {
      RestLasts(rnd, t, load, n, rounds);
    } else {
      var m := Next(rnd, t, load, n);
      if Below(t.band, load, m) {
        SettlesFromBelow(rnd, t, load, m, rounds - 1);
      } else if Above(t.band, load, m) {
        TurnsUp(rnd, t, load, n, rounds - 1);
      } else {
        RestIff(rnd, t, load, m);
        RestLasts(rnd, t, load, m, rounds - 1);
      }
    }
  }

  ghost predicate RestsAfter(rnd: Rounding, t: Tuning, load: int, n: int, rounds: nat)
    requires Tuned(t) && InRange(t, n)
  {
    AtRest(rnd, t, load, After(rnd, t, load, n, rounds))
  }

  lemma SettlesWithoutGap(rnd: Rounding, t: Tuning, load: int, n: int, rounds: nat)
    requires Tuned(t) && InRange(t, n) && !HasGap(t, load)
    requires rounds >= 2 * (t.max - t.min)
    ensures RestsAfter(rnd, t, load, n, rounds)
  {
    if Above(t.band, load, n) {
      SettlesFromAbove(rnd, t, load, n, rounds);
    } else if Below(t.band, load, n) {
      SettlesFromBelow(rnd, t, load, n, rounds);
    } else {
      RestIff(rnd, t, load, n);
      RestLasts(rnd, t, load, n, rounds);
    }
  }

  /**
   Convergence, exactly: from whatever count it starts, the loop comes to rest if and only
   if there is no gap, and then within twice the width of the range.
   */
  lemma SettlesIffNoGap(rnd: Rounding, t: Tuning, load: int, n: int)
    requires Tuned(t) && InRange(t, n)
    ensures (exists rounds: nat :: RestsAfter(rnd, t, load, n, rounds)) <==> !HasGap(t, load)
    ensures !HasGap(t, load) ==>
              forall rounds: nat :: rounds >= 2 * (t.max - t.min) ==> RestsAfter(rnd, t, load, n, rounds)
  {
    if HasGap(t, load) {
      forall rounds: nat ensures !RestsAfter(rnd, t, load, n, rounds) {
        GapNeverRests(rnd, t, load, After(rnd, t, load, n, rounds));
      }
    } else {
      forall rounds: nat | rounds >= 2 * (t.max - t.min) ensures RestsAfter(rnd, t, load, n, rounds) {
        SettlesWithoutGap(rnd, t, load, n, rounds);
      }
      var width := 2 * (t.max - t.min);
      assert RestsAfter(rnd, t, load, n, width);
    }
  }

  /** A check on the configuration alone that rules gaps out for every load. */
  ghost predicate Quiet(t: Tuning) {
    (100 - t.band.tolerance) * t.band.low * (t.min + 1) <= (100 + t.band.tolerance) * t.band.high * t.min
  }

  lemma QuietHasNoGap(t: Tuning, load: int)
    requires Tuned(t) && Quiet(t)
    ensures !HasGap(t, load)
  {
  }

  /** A multiple of a hundred fits between the upper edge at p and the lower edge at p + 1. */
  predicate GapPossibleAt(t: Tuning, p: int) {
    var upper := (100 + t.band.tolerance) * t.band.high * p;
    var lower := (100 - t.band.tolerance) * t.band.low * (p + 1);
    t.min <= p < t.max && 100 * (upper / 100 + 1) < lower
  }

  /** Exactly the configurations for which some load has a gap, and so flaps for ever. */
  lemma SomeLoadHasGapIff(t: Tuning)
    ensures (exists load :: HasGap(t, load)) <==> exists p :: GapPossibleAt(t, p)
  {
    forall load | HasGap(t, load) ensures exists p :: GapPossibleAt(t, p) {
      var p :| GapAt(t, load, p);
      var upper := (100 + t.band.tolerance) * t.band.high * p;
      assert upper / 100 + 1 <= load;
      assert GapPossibleAt(t, p);
    }
    forall p | GapPossibleAt(t, p) ensures exists load :: HasGap(t, load) {
      var load := (100 + t.band.tolerance) * t.band.high * p / 100 + 1;
      assert GapAt(t, load, p);
      assert HasGap(t, load);
    }
  }

  /** The high watermark at least twice the low one: the usual advice. */
  predicate Wide(t: Tuning) { 2 * t.band.low <= t.band.high }

  lemma WideIsQuiet(t: Tuning)
    requires Tuned(t) && Wide(t)
    ensures Quiet(t)
  {
    var l, m := t.band.low, t.min;
    assert (100 - t.band.tolerance) * l <= 100 * l;
    assert 100 * t.band.high <= (100 + t.band.tolerance) * t.band.high;
    ScaleOrdered(m + 1, (100 - t.band.tolerance) * l, 100 * l);
    ScaleOrdered(m, 100 * t.band.high, (100 + t.band.tolerance) * t.band.high);
    ScaleOrdered(m, 2 * l, t.band.high);
    assert l * (m + 1) <= m * (2 * l);
  }

  lemma Doubling(low: int, high: int, k: int)
    requires 0 < low && 2 * low <= high && k >= 1
    ensures low * (k + 1) <= high * k
  {
  }

  lemma WideMarks(b: Band, load: int, m: int)
    requires Sensible(b) && 2 * b.low <= b.high && m >= 1
    ensures m >= 2 && load > b.high * (m - 1) ==> !Below(b, load, m)
    ensures load < b.low * (m + 1) ==> !Above(b, load, m)
  {
    Doubling(b.low, b.high, m);
    if m >= 2 {
      Doubling(b.low, b.high, m - 1);
    }
    if Below(b, load, m) { BelowTheMark(b, load, m); }
    if Above(b, load, m) { AboveTheMark(b, load, m); }
  }

  lemma WideDoesNotOvershootUp(rnd: Rounding, t: Tuning, load: int, n: int)
    requires Tuned(t) && Wide(t) && InRange(t, n) && Above(t.band, load, n)
    ensures !Below(t.band, load, Next(rnd, t, load, n))
  {
    var m := Next(rnd, t, load, n);
    Rises(rnd, t, load, n, m - 1);
    AboveAndBelowExclude(t.band, load, n);
    WideMarks(t.band, load, m);
  }

  lemma WideDoesNotOvershootDown(rnd: Rounding, t: Tuning, load: int, n: int)
    requires Tuned(t) && Wide(t) && InRange(t, n) && Below(t.band, load, n)
    ensures !Above(t.band, load, Next(rnd, t, load, n))
  {
    var m := Next(rnd, t, load, n);
    Falls(rnd, t, load, n, m + 1);
    AboveAndBelowExclude(t.band, load, n);
    WideMarks(t.band, load, m);
  }

  lemma {:induction false} WideClimbs(rnd: Rounding, t: Tuning, load: int, n: int, rounds: nat)
    requires Tuned(t) && Wide(t) && InRange(t, n) && !Below(t.band, load, n)
    ensures var r := After(rnd, t, load, n, rounds);
            !Below(t.band, load, r) && n <= r && (rounds >= t.max - n ==> AtRest(rnd, t, load, r))
    decreases rounds
  {
    if AtRest(rnd, t, load, n) {
      RestLasts(rnd, t, load, n, rounds);
    } else {
      RestIff(rnd, t, load, n);
      Rises(rnd, t, load, n, n);
      WideDoesNotOvershootUp(rnd, t, load, n);
      if rounds > 0 {
        WideClimbs(rnd, t, load, Next(rnd, t, load, n), rounds - 1);
      }
    }
  }

  lemma {:induction false} WideSinks(rnd: Rounding, t: Tuning, load: int, n: int, rounds: nat)
    requires Tuned(t) && Wide(t) && InRange(t, n) && !Above(t.band, load, n)
    ensures var r := After(rnd, t, load, n, rounds);
            !Above(t.band, load, r) && r <= n && (rounds >= n - t.min ==> AtRest(rnd, t, load, r))
    decreases rounds
  {
    if AtRest(rnd, t, load, n) {
      RestLasts(rnd, t, load, n, rounds);
    } else {
      RestIff(rnd, t, load, n);
      Falls(rnd, t, load, n, n);
      WideDoesNotOvershootDown(rnd, t, load, n);
      if rounds > 0 {
        WideSinks(rnd, t, load, Next(rnd, t, load, n), rounds - 1);
      }
    }
  }

  lemma {:induction false} AfterOneMore(rnd: Rounding, t: Tuning, load: int, n: int, rounds: nat)
    requires Tuned(t) && InRange(t, n)
    ensures After(rnd, t, load, n, rounds + 1) == Next(rnd, t, load, After(rnd, t, load, n, rounds))
    decreases rounds
  {
    if rounds > 0 {
      AfterOneMore(rnd, t, load, Next(rnd, t, load, n), rounds - 1);
    }
  }

  /**
   With wide marks there is no flapping at all: from a count not below the band every
   round moves up, strictly until rest, and from one not above it down; rest comes within
   the width of the range.
   */
  lemma WideMovesOneWay(rnd: Rounding, t: Tuning, load: int, n: int, rounds: nat)
    requires Tuned(t) && Wide(t) && InRange(t, n)
    ensures var a, b := After(rnd, t, load, n, rounds), After(rnd, t, load, n, rounds + 1);
            && (!Below(t.band, load, n) ==> a <= b)
            && (!Above(t.band, load, n) ==> b <= a)
            && (a == b <==> AtRest(rnd, t, load, a))
            && (rounds >= t.max - t.min ==> AtRest(rnd, t, load, a))
  {
    AfterOneMore(rnd, t, load, n, rounds);
    var a := After(rnd, t, load, n, rounds);
    AboveAndBelowExclude(t.band, load, n);
    RestIff(rnd, t, load, a);
    if !Below(t.band, load, n) {
      WideClimbs(rnd, t, load, n, rounds);
      if Above(t.band, load, a) { Rises(rnd, t, load, a, a); }
    }
    if !Above(t.band, load, n) {
      WideSinks(rnd, t, load, n, rounds);
      if Below(t.band, load, a) { Falls(rnd, t, load, a, a); }
    }
  }

  /** A sequence of counts that moves by Next. */
  ghost predicate Trajectory(rnd: Rounding, t: Tuning, load: int, counts: seq<int>)
    requires Tuned(t)
  {
    && (forall i :: 0 <= i < |counts| ==> InRange(t, counts[i]))
    && (forall i :: 0 <= i < |counts| - 1 ==> counts[i + 1] == Next(rnd, t, load, counts[i]))
  }

  ghost predicate StepsByNext(rnd: Rounding, t: Tuning, load: int, n: int, n': int)
    requires Tuned(t)
  {
    InRange(t, n) ==> n' == Next(rnd, t, load, n)
  }

  lemma {:induction false} IsTrajectory(rnd: Rounding, t: Tuning, load: int, counts: seq<int>)
    requires Tuned(t) && counts != [] && InRange(t, counts[0])
    requires forall i :: 0 <= i < |counts| - 1 ==> StepsByNext(rnd, t, load, counts[i], counts[i + 1])
    ensures Trajectory(rnd, t, load, counts)
  {
    if |counts| > 1 {
      var n := |counts| - 1;
      IsTrajectory(rnd, t, load, counts[..n]);
      assert StepsByNext(rnd, t, load, counts[n - 1], counts[n - 1 + 1]);
      assert forall i :: 0 <= i < n ==> counts[..n][i] == counts[i];
    }
  }

  lemma {:induction false} TrajectoryIsAfter(rnd: Rounding, t: Tuning, load: int, counts: seq<int>, j: nat)
    requires Tuned(t) && Trajectory(rnd, t, load, counts) && j < |counts|
    ensures counts[j] == After(rnd, t, load, counts[0], j)
  {
    if j > 0 {
      TrajectoryIsAfter(rnd, t, load, counts, j - 1);
      AfterOneMore(rnd, t, load, counts[0], j - 1);
    }
  }

  /** The share of the load is inside the tolerance band, or there is no room to move. */
  ghost predicate Satisfied(t: Tuning, load: int, n: int) {
    || (!Above(t.band, load, n) && !Below(t.band, load, n))
    || (Above(t.band, load, n) && n == t.max)
    || (Below(t.band, load, n) && n == t.min)
  }

  lemma TrajectorySettlesIff(rnd: Rounding, t: Tuning, load: int, counts: seq<int>, j: nat)
    requires Tuned(t) && Trajectory(rnd, t, load, counts) && j + 1 < |counts|
    ensures HasGap(t, load) ==> counts[j + 1] != counts[j]
    ensures !HasGap(t, load) && j >= 2 * (t.max - t.min) ==>
              counts[j + 1] == counts[j] && Satisfied(t, load, counts[j])
  {
    assert counts[j + 1] == Next(rnd, t, load, counts[j]);
    if HasGap(t, load) {
      GapNeverRests(rnd, t, load, counts[j]);
    } else if j >= 2 * (t.max - t.min) {
      TrajectoryIsAfter(rnd, t, load, counts, j);
      SettlesWithoutGap(rnd, t, load, counts[0], j);
      RestIff(rnd, t, load, counts[j]);
    }
  }

  lemma WideTrajectoryMovesOneWay(rnd: Rounding, t: Tuning, load: int, counts: seq<int>, j: nat)
    requires Tuned(t) && Wide(t) && Trajectory(rnd, t, load, counts) && j + 1 < |counts|
    ensures !Below(t.band, load, counts[0]) ==> counts[j] <= counts[j + 1]
    ensures !Above(t.band, load, counts[0]) ==> counts[j + 1] <= counts[j]
    ensures counts[j] == counts[j + 1] <==> Satisfied(t, load, counts[j])
    ensures j >= t.max - t.min ==> counts[j] == counts[j + 1]
  {
    TrajectoryIsAfter(rnd, t, load, counts, j);
    TrajectoryIsAfter(rnd, t, load, counts, j + 1);
    WideMovesOneWay(rnd, t, load, counts[0], j);
    RestIff(rnd, t, load, counts[j]);
  }

  /**
   Marks closer than that do flap: low 75, high 85, tolerance 1 and a load of 86 send one
   replica to two and two back to one, for ever, whatever the rate limits.
   */
  lemma {:induction false} CloseMarksFlap(rnd: Rounding, f: Factors, max: int, rounds: nat)
    requires 1 <= f.up <= 100 && 1 <= f.down <= 100 && 2 <= max <= MAX_INT32
    ensures After(rnd, Tuning(Band(75000, 85000, 1), f, 1, max), 86000, 1, rounds)
            == if rounds % 2 == 0 then 1 else 2
    decreases rounds
  {
    var t := Tuning(Band(75000, 85000, 1), f, 1, max);
    if rounds > 0 {
      Rises(rnd, t, 86000, 1, 2);
      if rounds > 1 {
        Falls(rnd, t, 86000, 2, 1);
        CloseMarksFlap(rnd, f, max, rounds - 2);
      }
    }
  }
}
