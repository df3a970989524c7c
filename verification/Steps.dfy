/** What one reconcile may and may not do, whatever the environment answers. */
module Steps {
  import opened Wrappers
  import opened Limits
  import opened Conditions
  import opened Normalization
  import opened StringList
  import opened Api
  import opened Calculator
  import opened ControlLoop

  /** The reconcile gets as far as computing replicas. */
  ghost predicate Reaches(w: World, e: Env) {
    && w.shpa.Some?
    && HandleFinalizer(w, w.shpa.value, e).stop.None?
    && IsDefaultSHPA(w.shpa.value.spec) && CheckSHPAValidity(w.shpa.value.spec).None?
    && e.scaleFound
  }

  function SpecOf(w: World): ShpaSpec
    requires w.shpa.Some?
  {
    w.shpa.value.spec
  }

  function LastScale(w: World): Option<int> {
    if w.shpa.Some? then w.shpa.value.status.lastScaleTime else None
  }

  ghost function StatusBefore(w: World, e: Env): ShpaStatus
    requires w.shpa.Some?
  {
    var noted := DryRunNoted(HandleFinalizer(w, w.shpa.value, e).obj, e.now);
    Say(noted.status, AbleToScale, True, SucceededGetScale, Plain, e.now)
  }

  ghost function VerdictOf(rnd: Rounding, w: World, e: Env): Verdict
    requires Reaches(w, e)
  {
    ComputeReplicas(rnd, SpecOf(w), StatusBefore(w, e), w.scale, e).verdict
  }

  /** The verdict was reached by way of the metrics, and not to enforce the configured range. */
  ghost predicate MetricDriven(w: World, e: Env) {
    && Reaches(w, e)
    && w.scale.spec != 0 && w.scale.status != 0
    && SpecOf(w).minReplicas <= w.scale.status <= SpecOf(w).maxReplicas
    && Recommend(SpecOf(w), w.scale.status, e).Recommended?
  }

  /** The time the cooldown is measured at: that of the winning metric, if it proposes anything. */
  ghost function GateTime(w: World, e: Env): int
    requires MetricDriven(w, e)
  {
    var r := Recommend(SpecOf(w), w.scale.status, e);
    if r.replicas > 0 then r.timestamp else e.now
  }

  ghost function Wanted(rnd: Rounding, w: World, e: Env): int
    requires MetricDriven(w, e)
  {
    var r := Recommend(SpecOf(w), w.scale.status, e);
    var spec := SpecOf(w);
    Convert(rnd, FactorsOf(spec), w.scale.status, Max(r.replicas, 0), spec.minReplicas, spec.maxReplicas).count
  }

  lemma FinalizersOnly(w: World, e: Env)
    requires w.shpa.Some?
    ensures var f := HandleFinalizer(w, w.shpa.value, e);
            && f.obj.spec == w.shpa.value.spec && f.obj.status == w.shpa.value.status
            && f.obj.deleting == w.shpa.value.deleting
            && f.world.scale == w.scale && f.world.writes == w.writes
            && (f.world.shpa.Some? ==>
                  f.world.shpa.value.spec == SpecOf(w) && f.world.shpa.value.status == w.shpa.value.status)
            && (f.stop.None? ==> f.world.shpa == Some(f.obj) && !f.obj.deleting)
  {
  }

  /**
   The gate, both ways: it lets a verdict through if nothing was ever recorded, or if the
   count would change and the window of that direction has passed.
   */
  lemma GateIff(rnd: Rounding, w: World, e: Env)
    requires MetricDriven(w, e)
    ensures var n, last := Wanted(rnd, w, e), LastScale(w);
            && VerdictOf(rnd, w, e).Decided? && VerdictOf(rnd, w, e).desired == n
            && (VerdictOf(rnd, w, e).rescale <==>
                || last.None?
                || (n > w.scale.status && last.value + SpecOf(w).upscaleWindow <= GateTime(w, e))
                || (n < w.scale.status && last.value + SpecOf(w).downscaleWindow <= GateTime(w, e)))
  {
  }

  /** An unchanged count is written and stamped all the same if and only if nothing was ever recorded. */
  lemma UnchangedCountIsRescaledIff(rnd: Rounding, w: World, e: Env)
    requires MetricDriven(w, e) && Wanted(rnd, w, e) == w.scale.status
    ensures VerdictOf(rnd, w, e) == Decided(LastScale(w).None?, w.scale.status)
  {
    GateIff(rnd, w, e);
  }

  /** Short of the verdict nothing that matters changes. */
  lemma StoppingShortIsInert(rnd: Rounding, w: World, e: Env)
    requires !Reaches(w, e)
    ensures var p := Reconcile(rnd, w, e).world;
            && p.scale == w.scale && p.writes == w.writes
            && (p.shpa.Some? ==> w.shpa.Some? && LastScale(p) == LastScale(w))
  {
  }

  /**
   Before any metric is read: a target scaled to zero is left alone, a count outside the
   configured range is brought to the bound it broke and zero replicas become one,
   whatever was recorded and when.
   */
  lemma EnforcementIgnoresCooldown(rnd: Rounding, w: World, e: Env)
    requires Reaches(w, e)
    ensures w.scale.spec == 0 ==> VerdictOf(rnd, w, e) == Decided(false, 0)
    ensures w.scale.spec != 0 ==>
              var n, min, max := w.scale.status, SpecOf(w).minReplicas, SpecOf(w).maxReplicas;
              && (n > max ==> VerdictOf(rnd, w, e) == Decided(true, max))
              && (n < min ==> VerdictOf(rnd, w, e) == Decided(true, min))
              && (n == 0 && min <= n <= max ==> VerdictOf(rnd, w, e) == Decided(true, 1))
  {
  }

  /** The count is the metrics' to decide: the target is not disabled, and the count is in range and not zero. */
  ghost predicate ReadsMetrics(w: World, e: Env) {
    && Reaches(w, e) && w.scale.spec != 0 && w.scale.status != 0
    && SpecOf(w).minReplicas <= w.scale.status <= SpecOf(w).maxReplicas
  }

  ghost function OutcomeAt(w: World, e: Env, i: int): Outcome
    requires w.shpa.Some? && 0 <= i < |SpecOf(w).metrics|
  {
    MetricOutcome(SpecOf(w), SpecOf(w).metrics[i], w.scale.status, ReadingAt(e.readings, i), e.now)
  }

  /** The first metric that fails decides how: a refusal is an error, a nil pointer a panic. */
  lemma FirstFailureDecides(rnd: Rounding, w: World, e: Env, i: nat)
    requires ReadsMetrics(w, e) && i < |SpecOf(w).metrics|
    requires OutcomeAt(w, e, i).Rejected? || OutcomeAt(w, e, i).Faulted?
    requires forall j :: 0 <= j < i ==> OutcomeAt(w, e, j).Proposed? || OutcomeAt(w, e, j).Skipped?
    ensures VerdictOf(rnd, w, e) == if OutcomeAt(w, e, i).Rejected? then NoMetrics else Panicked
  {
    var os := Outcomes(SpecOf(w), w.scale.status, e.readings, e.now, |SpecOf(w).metrics|);
    assert forall j :: 0 <= j < |os| ==> os[j] == OutcomeAt(w, e, j);
    TallyFailsIff(os);
    assert Recommend(SpecOf(w), w.scale.status, e) == Tally(os);
  }

  /** A spec without metrics wants as few replicas as one step down may leave. */
  lemma NoMetricsShrinks(rnd: Rounding, w: World, e: Env)
    requires Reaches(w, e) && SchemaValid(SpecOf(w)) && SpecOf(w).metrics == []
    requires w.scale.spec != 0 && SpecOf(w).minReplicas <= w.scale.status <= SpecOf(w).maxReplicas
    ensures MetricDriven(w, e)
    ensures Wanted(rnd, w, e) == Floor(rnd, FactorsOf(SpecOf(w)), w.scale.status, SpecOf(w).minReplicas)
    ensures Wanted(rnd, w, e) < w.scale.status <==> SpecOf(w).minReplicas < w.scale.status
  {
    var spec, n := SpecOf(w), w.scale.status;
    AdmissionEstablishes(spec);
    assert Recommend(spec, n, e) == Recommended(0, ZERO_TIME, "");
    CascadeIsClamp(rnd, FactorsOf(spec), n, 0, spec.minReplicas, spec.maxReplicas);
    CascadeMakesProgress(rnd, FactorsOf(spec), n, 0, spec.minReplicas, spec.maxReplicas);
    LimitsAreRates(rnd, spec.scaleDownFactor, n);
  }

  /** The status updates that carry the stamp of an acting reconcile go through. */
  ghost predicate StampSaved(w: World, e: Env) {
    e.lastStatusSaved && (w.shpa.Some? && SpecOf(w).dryRun ==> e.firstStatusSaved)
  }

  /** The clock does not run backwards, and nothing was recorded in the future. */
  ghost predicate ClockInOrder(w: World, e: Env) {
    && e.now <= e.firstStamp <= e.lastStamp
    && (LastScale(w).Some? ==> LastScale(w).value <= e.now)
  }

  /** Only the conditions of a status change on the way to the verdict. */
  lemma OnlyConditionsChange(rnd: Rounding, spec: ShpaSpec, st: ShpaStatus, scale: Scale, e: Env)
    ensures ComputeReplicas(rnd, spec, st, scale, e).status.(conditions := st.conditions) == st
  {
  }

  lemma RescaleWrites(w: World, obj: ShpaObject, st: ShpaStatus, desired: int, e: Env)
    requires w.shpa.Some? && w.shpa.value.(status := obj.status) == obj
    requires w.shpa.value.status.currentMetrics == obj.status.currentMetrics == st.currentMetrics
    ensures var Reconciled(p, reply) := Rescale(w, obj, st, desired, e);
            && p.shpa.Some? && SpecOf(p) == obj.spec && p.scale.status == w.scale.status
            && p.shpa.value.status.currentMetrics == w.shpa.value.status.currentMetrics
            && p.shpa.value.finalizers == obj.finalizers && reply.RequeueAfter?
            && p.shpa.value.deleting == w.shpa.value.deleting
            && p.scale.spec == (if e.scaleSaved && !obj.spec.dryRun then desired else w.scale.spec)
            && p.writes == w.writes + (if !obj.spec.dryRun then [desired] else [])
  {
  }

  /** Which time is on record after a rescale, for every outcome of its updates. */
  lemma RescaleStamps(w: World, obj: ShpaObject, st: ShpaStatus, desired: int, e: Env)
    requires w.shpa.Some?
    requires w.shpa.value.status.lastScaleTime == obj.status.lastScaleTime == st.lastScaleTime
    ensures var p, failed := Rescale(w, obj, st, desired, e).world, RescaleReplicas(w, obj, st, desired, e).failed;
            && LastScale(p) in {LastScale(w), Some(e.firstStamp), Some(e.lastStamp)}
            && (failed ==> LastScale(p) == LastScale(w))
            && (!failed && ClockInOrder(w, e) ==>
                  LastScale(p) == if e.lastStatusSaved then Some(e.lastStamp)
                                  else if obj.spec.dryRun then Some(e.firstStamp)
                                  else LastScale(w))
            && (!obj.spec.dryRun ==> (failed <==> !e.scaleSaved))
            && (obj.spec.dryRun && LastScale(w) != Some(e.firstStamp) ==> (failed <==> !e.firstStatusSaved))
            && (obj.spec.dryRun && e.firstStatusSaved ==> !failed)
  {
  }

  /** The rescale was decided and is not undone: a dry run, or a scale update that went through. */
  ghost predicate Acts(rnd: Rounding, w: World, e: Env) {
    && Reaches(w, e)
    && VerdictOf(rnd, w, e).Decided? && VerdictOf(rnd, w, e).rescale
    && (SpecOf(w).dryRun || e.scaleSaved)
  }

  /** What the verdict does to the scale, and to the recorded time if status updates go through. */
  lemma VerdictTakesEffect(rnd: Rounding, w: World, e: Env)
    requires Reaches(w, e)
    ensures var Reconciled(p, reply) := Reconcile(rnd, w, e);
            var v := VerdictOf(rnd, w, e);
            && p.shpa.Some? && SpecOf(p) == SpecOf(w) && p.scale.status == w.scale.status
            && p.shpa.value.status.currentMetrics == w.shpa.value.status.currentMetrics
            && p.shpa.value.finalizers == HandleFinalizer(w, w.shpa.value, e).obj.finalizers && reply.RequeueAfter?
            && p.shpa.value.deleting == w.shpa.value.deleting
            && p.scale.spec == (if Acts(rnd, w, e) && !SpecOf(w).dryRun then v.desired else w.scale.spec)
            && p.writes == w.writes + (if v.Decided? && v.rescale && !SpecOf(w).dryRun then [v.desired] else [])
            && (!Acts(rnd, w, e) ==> LastScale(p) == LastScale(w))
            && LastScale(p) in {LastScale(w), Some(e.firstStamp), Some(e.lastStamp)}
            && (Acts(rnd, w, e) && StampSaved(w, e) && ClockInOrder(w, e) ==> LastScale(p) == Some(e.lastStamp))
  {
    FinalizersOnly(w, e);
    var f := HandleFinalizer(w, w.shpa.value, e);
    var obj := DryRunNoted(f.obj, e.now);
    assert Reconcile(rnd, w, e) == ReconcileShpa(rnd, f.world, obj, e);
    EffectOfVerdict(rnd, f.world, obj, e);
  }

  lemma EffectOfVerdict(rnd: Rounding, w: World, obj: ShpaObject, e: Env)
    requires w.shpa.Some? && e.scaleFound
    requires w.shpa.value.(status := obj.status) == obj
    requires w.shpa.value.status.lastScaleTime == obj.status.lastScaleTime
    requires w.shpa.value.status.currentMetrics == obj.status.currentMetrics
    ensures var Reconciled(p, reply) := ReconcileShpa(rnd, w, obj, e);
            var st := Say(obj.status, AbleToScale, True, SucceededGetScale, Plain, e.now);
            var v := ComputeReplicas(rnd, obj.spec, st, w.scale, e).verdict;
            var acts := v.Decided? && v.rescale && (obj.spec.dryRun || e.scaleSaved);
            && p.shpa.Some? && SpecOf(p) == obj.spec && p.scale.status == w.scale.status
            && p.shpa.value.status.currentMetrics == w.shpa.value.status.currentMetrics
            && p.shpa.value.finalizers == obj.finalizers && reply.RequeueAfter?
            && p.shpa.value.deleting == w.shpa.value.deleting
            && p.scale.spec == (if acts && !obj.spec.dryRun then v.desired else w.scale.spec)
            && p.writes == w.writes + (if v.Decided? && v.rescale && !obj.spec.dryRun then [v.desired] else [])
            && (!acts ==> LastScale(p) == LastScale(w))
            && LastScale(p) in {LastScale(w), Some(e.firstStamp), Some(e.lastStamp)}
            && (acts && StampSaved(w, e) && ClockInOrder(w, e) ==> LastScale(p) == Some(e.lastStamp))
  {
    var st := Say(obj.status, AbleToScale, True, SucceededGetScale, Plain, e.now);
    var c := ComputeReplicas(rnd, obj.spec, st, w.scale, e);
    OnlyConditionsChange(rnd, obj.spec, st, w.scale, e);
    if c.verdict.Decided? && c.verdict.rescale {
      RescaleWrites(w, obj, c.status, c.verdict.desired, e);
      RescaleStamps(w, obj, c.status, c.verdict.desired, e);
    }
  }

  ghost function InHand(w: World, e: Env): ShpaObject
    requires w.shpa.Some?
  {
    DryRunNoted(HandleFinalizer(w, w.shpa.value, e).obj, e.now)
  }

  /** A verdict to rescale is carried out by Rescale, on the status the verdict left. */
  lemma VerdictRescales(rnd: Rounding, w: World, e: Env)
    requires Reaches(w, e) && VerdictOf(rnd, w, e).Decided? && VerdictOf(rnd, w, e).rescale
    ensures var f, obj := HandleFinalizer(w, w.shpa.value, e).world, InHand(w, e);
            var c := ComputeReplicas(rnd, SpecOf(w), StatusBefore(w, e), w.scale, e);
            && f.shpa.Some? && f.scale == w.scale && f.shpa.value.status == w.shpa.value.status
            && obj.spec == SpecOf(w) && obj.status.(conditions := w.shpa.value.status.conditions) == w.shpa.value.status
            && c.status.(conditions := obj.status.conditions) == obj.status
            && Reconcile(rnd, w, e) == Rescale(f, obj, c.status, VerdictOf(rnd, w, e).desired, e)
  {
    FinalizersOnly(w, e);
    OnlyConditionsChange(rnd, SpecOf(w), StatusBefore(w, e), w.scale, e);
  }

  /**
   The first status update of a dry run is refused, and was needed: whether it was cannot
   be told from the recorded time alone if that is the first stamp already.
   */
  ghost predicate FirstUpdateLost(rnd: Rounding, w: World, e: Env)
    requires Acts(rnd, w, e) && SpecOf(w).dryRun
  {
    FinalizersOnly(w, e);
    var c := ComputeReplicas(rnd, SpecOf(w), StatusBefore(w, e), w.scale, e);
    RescaleReplicas(HandleFinalizer(w, w.shpa.value, e).world, InHand(w, e), c.status, c.verdict.desired, e).failed
  }

  /**
   Recorded time matches action, exactly, whichever updates are lost. A live rescale is on
   record if and only if the last status update goes through. A dry run is recorded twice:
   losing the first update loses it altogether, losing the last leaves the first stamp.
   Nothing else changes the recorded time.
   */
  lemma RecordedTimeMatchesAction(rnd: Rounding, w: World, e: Env)
    requires w.shpa.Some? && ClockInOrder(w, e)
    ensures var p := Reconcile(rnd, w, e).world;
            p.shpa.Some? ==>
              LastScale(p) == if !Acts(rnd, w, e) then LastScale(w)
                              else if SpecOf(w).dryRun && FirstUpdateLost(rnd, w, e) then LastScale(w)
                              else if e.lastStatusSaved then Some(e.lastStamp)
                              else if SpecOf(w).dryRun then Some(e.firstStamp)
                              else LastScale(w)
    ensures Acts(rnd, w, e) && SpecOf(w).dryRun ==>
              && (FirstUpdateLost(rnd, w, e) ==> !e.firstStatusSaved)
              && (LastScale(w) != Some(e.firstStamp) && !e.firstStatusSaved ==> FirstUpdateLost(rnd, w, e))
  {
    if !Reaches(w, e) {
      StoppingShortIsInert(rnd, w, e);
    } else if !Acts(rnd, w, e) {
      VerdictTakesEffect(rnd, w, e);
    } else {
      VerdictRescales(rnd, w, e);
      var c := ComputeReplicas(rnd, SpecOf(w), StatusBefore(w, e), w.scale, e);
      RescaleStamps(HandleFinalizer(w, w.shpa.value, e).world, InHand(w, e), c.status, c.verdict.desired, e);
    }
  }

  /**
   The configured range is enforced at once: a count outside it is written as the bound it
   broke, and zero as one, while a target scaled to zero is left alone.
   */
  lemma RangeIsEnforced(rnd: Rounding, w: World, e: Env)
    requires Reaches(w, e) && !SpecOf(w).dryRun && e.scaleSaved
    ensures var p, n := Reconcile(rnd, w, e).world, w.scale.status;
            var min, max := SpecOf(w).minReplicas, SpecOf(w).maxReplicas;
            && (w.scale.spec == 0 ==> p.scale == w.scale && p.writes == w.writes)
            && (w.scale.spec != 0 && (n > max || n < min || n == 0) ==>
                  var bound := if n > max then max else if n < min then min else 1;
                  p.scale == w.scale.(spec := bound) && p.writes == w.writes + [bound])
  {
    EnforcementIgnoresCooldown(rnd, w, e);
    VerdictTakesEffect(rnd, w, e);
  }

  /** A rejected scale update is logged but changes neither the stored count nor the recorded time. */
  lemma RejectedUpdateIsInert(rnd: Rounding, w: World, e: Env)
    requires Reaches(w, e) && !e.scaleSaved && !SpecOf(w).dryRun
    ensures var p := Reconcile(rnd, w, e).world;
            p.scale == w.scale && LastScale(p) == LastScale(w)
  {
    VerdictTakesEffect(rnd, w, e);
  }

  /** If any metric fails, nothing is scaled and no time is recorded. */
  lemma FailedMetricIsInert(rnd: Rounding, w: World, e: Env, i: nat)
    requires Reaches(w, e) && w.scale.spec != 0 && w.scale.status != 0
    requires SpecOf(w).minReplicas <= w.scale.status <= SpecOf(w).maxReplicas
    requires i < |SpecOf(w).metrics|
    requires var o := MetricOutcome(SpecOf(w), SpecOf(w).metrics[i], w.scale.status, ReadingAt(e.readings, i), e.now);
             o.Rejected? || o.Faulted?
    ensures var p := Reconcile(rnd, w, e).world;
            p.scale == w.scale && p.writes == w.writes && LastScale(p) == LastScale(w)
  {
    var spec := SpecOf(w);
    TallyFailsIff(Outcomes(spec, w.scale.status, e.readings, e.now, |spec.metrics|));
    assert !Recommend(spec, w.scale.status, e).Recommended?;
    VerdictTakesEffect(rnd, w, e);
  }

  lemma WantedInRange(rnd: Rounding, w: World, e: Env)
    requires MetricDriven(w, e) && SchemaValid(SpecOf(w))
    ensures SpecOf(w).minReplicas <= Wanted(rnd, w, e) <= SpecOf(w).maxReplicas
    ensures 0 <= Wanted(rnd, w, e) <= 2 * w.scale.status
  {
    var spec := SpecOf(w);
    AdmissionEstablishes(spec);
    var r := Recommend(spec, w.scale.status, e);
    CascadeMakesProgress(rnd, FactorsOf(spec), w.scale.status, Max(r.replicas, 0), spec.minReplicas, spec.maxReplicas);
  }

  lemma VerdictInRange(rnd: Rounding, w: World, e: Env)
    requires Reaches(w, e) && SchemaValid(SpecOf(w))
    ensures var v := VerdictOf(rnd, w, e);
            v.Decided? && v.rescale ==> w.scale.spec != 0 && SpecOf(w).minReplicas <= v.desired <= SpecOf(w).maxReplicas
  {
    AdmissionEstablishes(SpecOf(w));
    if MetricDriven(w, e) {
      GateIff(rnd, w, e);
      WantedInRange(rnd, w, e);
    }
  }

  /**
   Range safety of one reconcile: at most one value is sent to the scale, it lies in the
   configured range, and none is sent for a disabled target, in a dry run or for a resource
   marked for deletion.
   */
  lemma WritesAreSafe(rnd: Rounding, w: World, e: Env)
    requires w.shpa.Some? ==> SchemaValid(SpecOf(w))
    ensures var p := Reconcile(rnd, w, e).world;
            || (p.writes == w.writes && p.scale == w.scale)
            || (exists n :: p.writes == w.writes + [n]
                            && p.scale in {w.scale, w.scale.(spec := n)}
                            && w.shpa.Some? && SpecOf(w).minReplicas <= n <= SpecOf(w).maxReplicas
                            && w.scale.spec != 0 && !SpecOf(w).dryRun && !w.shpa.value.deleting)
  {
    if Reaches(w, e) {
      VerdictTakesEffect(rnd, w, e);
      VerdictInRange(rnd, w, e);
      FinalizersOnly(w, e);
      var v := VerdictOf(rnd, w, e);
      var p := Reconcile(rnd, w, e).world;
      if v.Decided? && v.rescale && !SpecOf(w).dryRun {
        assert p.writes == w.writes + [v.desired];
      }
    } else {
      StoppingShortIsInert(rnd, w, e);
    }
  }

  /** Freshly computed metric statuses never arrive: the stored ones are carried along. */
  lemma CurrentMetricsAreCarried(rnd: Rounding, w: World, e: Env)
    requires w.shpa.Some?
    ensures var p := Reconcile(rnd, w, e).world;
            p.shpa.Some? ==> p.shpa.value.status.currentMetrics == w.shpa.value.status.currentMetrics
  {
    if Reaches(w, e) {
      VerdictTakesEffect(rnd, w, e);
    } else {
      FinalizersOnly(w, e);
    }
  }

  /** Once defaulting has been saved, the next reconcile of that spec does not do it again. */
  lemma DefaultsOnce(rnd: Rounding, w: World, e: Env)
    requires w.shpa.Some? && HandleFinalizer(w, w.shpa.value, e).stop.None?
    ensures Reconcile(rnd, w, e).reply == RequeueNow <==> !IsDefaultSHPA(SpecOf(w)) && e.defaultsSaved
    ensures Reconcile(rnd, w, e).reply == RequeueNow ==>
              var p := Reconcile(rnd, w, e).world;
              p.shpa.Some? && SpecOf(p) == Defaulted(SpecOf(w)) && IsDefaultSHPA(SpecOf(p))
  {
  }

  /**
   The loop goes on by itself exactly until the object is gone or being deleted, its
   finalizer cannot be added, or its spec is refused and the refusal is on record.
   */
  lemma StopsIff(rnd: Rounding, w: World, e: Env)
    ensures Reconcile(rnd, w, e).reply == Done <==>
            || w.shpa.None?
            || (w.shpa.value.deleting && (FINALIZER in w.shpa.value.finalizers ==>
                                            e.finalizerSaved && !SlicesOutOfRange(w.shpa.value.finalizers, FINALIZER)))
            || (!w.shpa.value.deleting && FINALIZER !in w.shpa.value.finalizers && !e.finalizerSaved)
            || (HandleFinalizer(w, w.shpa.value, e).stop.None? && IsDefaultSHPA(SpecOf(w))
                && CheckSHPAValidity(SpecOf(w)).Some?
                && (e.lastStatusSaved || RefusalOnRecord(w, e)))
  {
  }

  ghost predicate RefusalOnRecord(w: World, e: Env)
    requires w.shpa.Some? && CheckSHPAValidity(SpecOf(w)).Some?
  {
    Say(w.shpa.value.status, AbleToScale, False, FailedSpecCheck,
        WithText(CheckSHPAValidity(SpecOf(w)).value.Text()), e.now) == w.shpa.value.status
  }

  /** The finalizer lets the reconcile go on: it is there, or could be added, and nothing is being deleted. */
  ghost predicate GoesPastFinalizer(w: World, e: Env) {
    && w.shpa.Some? && !w.shpa.value.deleting
    && ("finalizer.dbisshpa.com" in w.shpa.value.finalizers || e.finalizerSaved)
  }

  lemma GoesPastFinalizerIff(w: World, e: Env)
    requires w.shpa.Some?
    ensures HandleFinalizer(w, w.shpa.value, e).stop.None? <==> GoesPastFinalizer(w, e)
  {
  }

  /**
   When the loop is retried at once: the removal of the finalizer, the defaults or the
   refusal could not be saved. It crashes on a finalizer list only.
   */
  lemma RetriesIff(rnd: Rounding, w: World, e: Env)
    requires w.shpa.Some?
    ensures var reply, l := Reconcile(rnd, w, e).reply, w.shpa.value.finalizers;
            && (reply == Crashed <==> w.shpa.value.deleting && FINALIZER in l && SlicesOutOfRange(l, FINALIZER))
            && (reply == Retry <==>
                  || (w.shpa.value.deleting && FINALIZER in l && !SlicesOutOfRange(l, FINALIZER) && !e.finalizerSaved)
                  || (GoesPastFinalizer(w, e) && !IsDefaultSHPA(SpecOf(w)) && !e.defaultsSaved)
                  || (GoesPastFinalizer(w, e) && IsDefaultSHPA(SpecOf(w)) && CheckSHPAValidity(SpecOf(w)).Some?
                      && !e.lastStatusSaved && !RefusalOnRecord(w, e)))
  {
    GoesPastFinalizerIff(w, e);
    FinalizersOnly(w, e);
  }

  /** The status the last update of a reconcile is to save, if it comes to that. */
  ghost function LastStatus(rnd: Rounding, w: World, e: Env): Option<ShpaStatus>
    requires Reaches(w, e)
  {
    FinalizersOnly(w, e);
    var f, obj := HandleFinalizer(w, w.shpa.value, e).world, InHand(w, e);
    var c := ComputeReplicas(rnd, SpecOf(w), StatusBefore(w, e), w.scale, e);
    var n, metrics := w.scale.status, w.shpa.value.status.currentMetrics;
    if !c.verdict.Decided? then None
    else if !c.verdict.rescale then Some(SetStatus(c.status, n, n, metrics, false, e.lastStamp))
    else
      var r := RescaleReplicas(f, obj, c.status, c.verdict.desired, e);
      if r.failed then None else Some(SetStatus(r.status, n, c.verdict.desired, metrics, true, e.lastStamp))
  }

  /**
   A reconcile that gets to the scale comes back after the sync period, and after one
   second exactly if the scale is not found or the last status update was needed and failed.
   */
  lemma ComesBack(rnd: Rounding, w: World, e: Env)
    requires w.shpa.Some? && HandleFinalizer(w, w.shpa.value, e).stop.None?
    requires IsDefaultSHPA(SpecOf(w)) && CheckSHPAValidity(SpecOf(w)).None?
    ensures Reconcile(rnd, w, e).reply in {RequeueAfter(1), RequeueAfter(15)}
    ensures Reconcile(rnd, w, e).reply == RequeueAfter(1) <==>
            || !e.scaleFound
            || (!e.lastStatusSaved && LastStatus(rnd, w, e).Some?
                && LastStatus(rnd, w, e).value != InHand(w, e).status)
  {
    FinalizersOnly(w, e);
    OnlyConditionsChange(rnd, SpecOf(w), StatusBefore(w, e), w.scale, e);
  }
}
