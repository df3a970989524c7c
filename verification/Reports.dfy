/** What the stored status tells about a reconcile. */
module Reports {
  import opened Wrappers
  import opened Limits
  import opened Conditions
  import opened Normalization
  import opened Api
  import opened Calculator
  import opened ControlLoop
  import opened Steps
  import opened StatusInvariants

  /** What a condition says after it was set, and since when. */
  lemma SaySets(st: ShpaStatus, kind: ConditionType, status: ConditionStatus, reason: Reason, message: Message,
                now: int, k: ConditionType)
    ensures var said := ConditionIn(Say(st, kind, status, reason, message, now), k);
            if k == kind then
              && said.Some? && said.value.status == status && said.value.reason == reason
              && said.value.message == message
              && said.value.transition == if StatusOf(ConditionIn(st, k)) != status then now
                                          else TransitionOf(ConditionIn(st, k))
            else said == ConditionIn(st, k)
  {
    PutIsMapUpdate(st.conditions, Call(kind, status, reason, message, now), k);
  }

  /** ScalingLimited is True exactly when the proposal lies outside the interval it is clamped to. */
  lemma LimitedIffOutside(rnd: Rounding, spec: ShpaSpec, st: ShpaStatus, current: int, desired: int, now: int)
    requires Admitted(spec) && spec.minReplicas <= current <= spec.maxReplicas
    ensures var n, f := Normalize(rnd, spec, st, current, desired, now), FactorsOf(spec);
            var limited := ConditionIn(n.status, ScalingLimited);
            && limited.Some? && limited.value.status in {True, False}
            && (limited.value.status == True <==>
                  || desired < Floor(rnd, f, current, spec.minReplicas)
                  || desired > Ceiling(rnd, f, current, spec.maxReplicas))
            && (limited.value.status == False <==> limited.value.reason == DesiredWithinRange)
            && forall k :: k != ScalingLimited ==> ConditionIn(n.status, k) == ConditionIn(st, k)
  {
    var c := Convert(rnd, FactorsOf(spec), current, desired, spec.minReplicas, spec.maxReplicas);
    ReasonNamesBound(rnd, FactorsOf(spec), current, desired, spec.minReplicas, spec.maxReplicas);
    var said := if c.count == desired then False else True;
    forall k { SaySets(st, ScalingLimited, said, c.reason, Plain, now, k); }
  }

  /** The gate says something of AbleToScale only. */
  lemma GateKeepsOthers(spec: ShpaSpec, st: ShpaStatus, current: int, desired: int, timestamp: int, now: int,
                        kind: ConditionType)
    requires kind != AbleToScale
    ensures ConditionIn(ShouldScale(spec, st, current, desired, timestamp, now).status, kind) == ConditionIn(st, kind)
  {
    if st.lastScaleTime.Some? {
      var down := st.lastScaleTime.value + spec.downscaleWindow - timestamp > 0;
      SaySets(st, AbleToScale, False, BackoffDownscale, Plain, now, kind);
      var st1 := if down then Say(st, AbleToScale, False, BackoffDownscale, Plain, now) else st;
      SaySets(st1, AbleToScale, False, if down then BackoffBoth else BackoffUpscale, Plain, now, kind);
    }
  }

  /**
   Which window is still running, as the gate reports it; it says nothing when neither is.
   The transition time of a condition found True, as every round sets it, is always renewed.
   */
  lemma BackoffIsReported(spec: ShpaSpec, st: ShpaStatus, current: int, desired: int, timestamp: int, now: int)
    requires st.lastScaleTime.Some?
    ensures var gate := ShouldScale(spec, st, current, desired, timestamp, now);
            var down := timestamp < st.lastScaleTime.value + spec.downscaleWindow;
            var up := timestamp < st.lastScaleTime.value + spec.upscaleWindow;
            && (down || up ==>
                  && Tells(gate.status, AbleToScale, False,
                           if down && up then BackoffBoth else if up then BackoffUpscale else BackoffDownscale, Plain)
                  && (StatusOf(ConditionIn(st, AbleToScale)) == True ==>
                        TransitionOf(ConditionIn(gate.status, AbleToScale)) == now))
            && (!down && !up ==> gate.status == st)
            && (gate.open <==> (desired > current && !up) || (desired < current && !down))
  {
    var down := st.lastScaleTime.value + spec.downscaleWindow - timestamp > 0;
    SaySets(st, AbleToScale, False, BackoffDownscale, Plain, now, AbleToScale);
    var st1 := if down then Say(st, AbleToScale, False, BackoffDownscale, Plain, now) else st;
    SaySets(st1, AbleToScale, False, if down then BackoffBoth else BackoffUpscale, Plain, now, AbleToScale);
  }

  /** Two statuses that tell the same story but for the dry-run condition. */
  ghost predicate SameButDryRun(a: ShpaStatus, b: ShpaStatus) {
    && a.(conditions := b.conditions) == b
    && forall k :: k != DryRunMode ==> ConditionIn(a, k) == ConditionIn(b, k)
  }

  /** The dry-run condition says whether the spec asks for one, and is all that changes. */
  lemma NotingDryRun(obj: ShpaObject, now: int)
    ensures var noted := DryRunNoted(obj, now).status;
            && SameButDryRun(obj.status, noted)
            && ShowsMode(noted, obj.spec.dryRun)
  {
    forall k
      ensures k != DryRunMode ==> ConditionIn(obj.status, k) == ConditionIn(DryRunNoted(obj, now).status, k)
    {
      SaySets(obj.status, DryRunMode, True, DryRunEnabled, Plain, now, k);
      SaySets(obj.status, DryRunMode, False, DryRunDisabled, Plain, now, k);
    }
    SaySets(obj.status, DryRunMode, False, DryRunDisabled, Plain, now, DryRunMode);
    SaySets(obj.status, DryRunMode, True, DryRunEnabled, Plain, now, DryRunMode);
  }

  lemma SavedTellsTheSame(w: World, original: ShpaStatus, st: ShpaStatus)
    requires w.shpa.Some? && SameButDryRun(w.shpa.value.status, original)
    ensures SameButDryRun(Save(w, original, st, true).shpa.value.status, st)
  {
  }

  predicate Says(c: Option<Condition>, status: ConditionStatus, reason: Reason, message: Message) {
    c.Some? && c.value.status == status && c.value.reason == reason && c.value.message == message
  }

  predicate Tells(st: ShpaStatus, kind: ConditionType, status: ConditionStatus, reason: Reason, message: Message) {
    Says(ConditionIn(st, kind), status, reason, message)
  }

  /** The report of a rescale: a dry run, a rejected update with its error, or a success with its count. */
  ghost predicate Reports(s: ShpaStatus, dryRun: bool, e: Env, current: int, desired: int, before: int) {
    && s.currentReplicas == current
    && s.desiredReplicas == (if dryRun || e.scaleSaved then desired else before) && s.observedGeneration.None?
    && if dryRun then Tells(s, AbleToScale, True, ReadyForScale, Plain)
       else if e.scaleSaved then Tells(s, AbleToScale, True, SucceededRescale, WithCount(desired))
       else Tells(s, AbleToScale, False, FailedUpdateScale, WithText(e.scaleError))
  }

  /** The status update that carries the report: the last one after an accepted update, else the first. */
  predicate ReportSaved(dryRun: bool, e: Env) {
    if !dryRun && e.scaleSaved then e.lastStatusSaved else e.firstStatusSaved
  }

  lemma RescaleReports(w: World, obj: ShpaObject, st: ShpaStatus, desired: int, e: Env)
    requires w.shpa.Some? && ReportSaved(obj.spec.dryRun, e) && SameButDryRun(w.shpa.value.status, obj.status)
    requires st.(conditions := obj.status.conditions) == obj.status
    ensures var s := Rescale(w, obj, st, desired, e).world.shpa.value.status;
            Reports(s, obj.spec.dryRun, e, w.scale.status, desired, w.shpa.value.status.desiredReplicas)
  {
    if obj.spec.dryRun {
      DryRunReports(w, obj, st, desired, e);
    } else {
      UpdateReports(w, obj, st, desired, e);
    }
  }

  lemma UpdateReports(w: World, obj: ShpaObject, st: ShpaStatus, desired: int, e: Env)
    requires w.shpa.Some? && ReportSaved(false, e) && SameButDryRun(w.shpa.value.status, obj.status) && !obj.spec.dryRun
    requires st.(conditions := obj.status.conditions) == obj.status
    ensures var s := Rescale(w, obj, st, desired, e).world.shpa.value.status;
            Reports(s, false, e, w.scale.status, desired, w.shpa.value.status.desiredReplicas)
  {
    var ready := Say(st, AbleToScale, True, ReadyForScale, Plain, e.now);
    var original, n := obj.status, w.scale.status;
    if e.scaleSaved {
      var said := Say(ready, AbleToScale, True, SucceededRescale, WithCount(desired), e.now);
      SaySets(ready, AbleToScale, True, SucceededRescale, WithCount(desired), e.now, AbleToScale);
      SavedTellsTheSame(w, original, SetStatus(said, n, desired, original.currentMetrics, true, e.lastStamp));
    } else {
      var said := Say(ready, AbleToScale, False, FailedUpdateScale, WithText(e.scaleError), e.now);
      SaySets(ready, AbleToScale, False, FailedUpdateScale, WithText(e.scaleError), e.now, AbleToScale);
      var st2 := SetStatus(said, n, said.desiredReplicas, said.currentMetrics, false, e.firstStamp);
      SavedTellsTheSame(w, original, st2);
    }
  }

  lemma DryRunReports(w: World, obj: ShpaObject, st: ShpaStatus, desired: int, e: Env)
    requires w.shpa.Some? && ReportSaved(true, e) && SameButDryRun(w.shpa.value.status, obj.status) && obj.spec.dryRun
    ensures var s := Rescale(w, obj, st, desired, e).world.shpa.value.status;
            Reports(s, true, e, w.scale.status, desired, w.shpa.value.status.desiredReplicas)
  {
    var original, current, metrics := obj.status, w.scale.status, obj.status.currentMetrics;
    SaySets(st, AbleToScale, True, ReadyForScale, Plain, e.now, AbleToScale);
    var ready := Say(st, AbleToScale, True, ReadyForScale, Plain, e.now);
    var st1 := SetStatus(ready, current, desired, metrics, true, e.firstStamp);
    var st2 := SetStatus(st1, current, desired, metrics, true, e.lastStamp);
    SavedTellsTheSame(w, original, st1);
    assert ConditionIn(st1, AbleToScale) == ConditionIn(st2, AbleToScale);
  }

  /**
   If the status update that carries it goes through, the stored status tells what became
   of a decided rescale: the replicas seen, the replicas wanted, and whether the update was inhibited,
   rejected or made.
   */
  lemma RescaleIsReported(rnd: Rounding, w: World, e: Env)
    requires Reaches(w, e) && VerdictOf(rnd, w, e).Decided? && VerdictOf(rnd, w, e).rescale
    requires ReportSaved(SpecOf(w).dryRun, e)
    ensures var p := Reconcile(rnd, w, e).world;
            p.shpa.Some?
            && Reports(p.shpa.value.status, SpecOf(w).dryRun, e, w.scale.status,
                       VerdictOf(rnd, w, e).desired, w.shpa.value.status.desiredReplicas)
  {
    VerdictRescales(rnd, w, e);
    NotingDryRun(HandleFinalizer(w, w.shpa.value, e).obj, e.now);
    FinalizersOnly(w, e);
    var f, obj := HandleFinalizer(w, w.shpa.value, e).world, InHand(w, e);
    var c := ComputeReplicas(rnd, SpecOf(w), StatusBefore(w, e), w.scale, e);
    RescaleReports(f, obj, c.status, VerdictOf(rnd, w, e).desired, e);
  }

  /** A round that does not rescale stores the replicas it saw, as seen and as wanted. */
  lemma QuietRoundIsReported(rnd: Rounding, w: World, e: Env)
    requires Reaches(w, e) && e.lastStatusSaved
    requires VerdictOf(rnd, w, e).Decided? && !VerdictOf(rnd, w, e).rescale
    ensures var p := Reconcile(rnd, w, e).world;
            && p.shpa.Some?
            && p.shpa.value.status.currentReplicas == p.shpa.value.status.desiredReplicas == w.scale.status
            && p.shpa.value.status.observedGeneration.None?
  {
    FinalizersOnly(w, e);
    var f := HandleFinalizer(w, w.shpa.value, e);
    NotingDryRun(f.obj, e.now);
    var obj := DryRunNoted(f.obj, e.now);
    var c := ComputeReplicas(rnd, SpecOf(w), StatusBefore(w, e), w.scale, e);
    var n := w.scale.status;
    SavedTellsTheSame(f.world, obj.status, SetStatus(c.status, n, n, obj.status.currentMetrics, false, e.lastStamp));
  }

  /** The status says whether the spec asks for a dry run. */
  predicate ShowsMode(st: ShpaStatus, dryRun: bool) {
    if dryRun then Tells(st, DryRunMode, True, DryRunEnabled, Plain)
    else Tells(st, DryRunMode, False, DryRunDisabled, Plain)
  }

  function Mode(st: ShpaStatus): Option<Condition> { ConditionIn(st, DryRunMode) }

  lemma MetricsKeepMode(rnd: Rounding, spec: ShpaSpec, st: ShpaStatus, current: int, r: Recommendation, now: int)
    requires r.Recommended?
    ensures Mode(FollowMetrics(rnd, spec, st, current, r, now).status) == Mode(st)
  {
    var st1 := Say(st, ScalingActive, True, ValidMetricFound, WithText(r.metric), now);
    SaySets(st, ScalingActive, True, ValidMetricFound, WithText(r.metric), now, DryRunMode);
    var desired := if r.replicas > 0 then r.replicas else 0;
    var n := Convert(rnd, FactorsOf(spec), current, desired, spec.minReplicas, spec.maxReplicas);
    SaySets(st1, ScalingLimited, if n.count == desired then False else True, n.reason, Plain, now, DryRunMode);
    var normal := Normalize(rnd, spec, st1, current, desired, now);
    GateKeepsOthers(spec, normal.status, current, normal.count, if r.replicas > 0 then r.timestamp else now, now,
                    DryRunMode);
  }

  lemma ComputeKeepsMode(rnd: Rounding, spec: ShpaSpec, st: ShpaStatus, scale: Scale, e: Env)
    ensures Mode(ComputeReplicas(rnd, spec, st, scale, e).status) == Mode(st)
  {
    SaySets(st, ScalingActive, False, ScalingDisabled, Plain, e.now, DryRunMode);
    var r := Recommend(spec, scale.status, e);
    if r.Recommended? {
      MetricsKeepMode(rnd, spec, st, scale.status, r, e.now);
    }
  }

  /** What a verdict leaves in hand still shows the mode the spec asks for. */
  lemma VerdictShowsMode(rnd: Rounding, w: World, e: Env)
    requires w.shpa.Some?
    ensures ShowsMode(InHand(w, e).status, SpecOf(w).dryRun)
    ensures ShowsMode(ComputeReplicas(rnd, SpecOf(w), StatusBefore(w, e), w.scale, e).status, SpecOf(w).dryRun)
  {
    FinalizersOnly(w, e);
    NotingDryRun(HandleFinalizer(w, w.shpa.value, e).obj, e.now);
    SaySets(InHand(w, e).status, AbleToScale, True, SucceededGetScale, Plain, e.now, DryRunMode);
    ComputeKeepsMode(rnd, SpecOf(w), StatusBefore(w, e), w.scale, e);
  }

  lemma RescaleKeepsOthers(w: World, obj: ShpaObject, st: ShpaStatus, desired: int, e: Env, kind: ConditionType)
    requires w.shpa.Some? && kind != AbleToScale
    ensures var s := Rescale(w, obj, st, desired, e).world.shpa.value.status;
            s == w.shpa.value.status || ConditionIn(s, kind) == ConditionIn(st, kind)
  {
    var ready := Say(st, AbleToScale, True, ReadyForScale, Plain, e.now);
    SaySets(st, AbleToScale, True, ReadyForScale, Plain, e.now, kind);
    SaySets(ready, AbleToScale, False, FailedUpdateScale, WithText(e.scaleError), e.now, kind);
    SaySets(ready, AbleToScale, True, SucceededRescale, WithCount(desired), e.now, kind);
  }

  /** The status in hand when a reconcile that does not rescale comes to save it. */
  ghost function QuietStatus(rnd: Rounding, w: World, e: Env): ShpaStatus
    requires Reaches(w, e)
  {
    var c := ComputeReplicas(rnd, SpecOf(w), StatusBefore(w, e), w.scale, e);
    var n := w.scale.status;
    if c.verdict.NoMetrics? then c.status
    else SetStatus(c.status, n, n, w.shpa.value.status.currentMetrics, false, e.lastStamp)
  }

  /** Neither a rescale nor a panic, and the status update goes through. */
  ghost predicate QuietAndSaved(rnd: Rounding, w: World, e: Env) {
    && Reaches(w, e)
    && match VerdictOf(rnd, w, e)
       case Panicked => false
       case NoMetrics => e.firstStatusSaved
       case Decided(rescale, _) => !rescale && e.lastStatusSaved
  }

  lemma QuietRoundSaves(rnd: Rounding, w: World, e: Env)
    requires Reaches(w, e) && (VerdictOf(rnd, w, e).Decided? ==> !VerdictOf(rnd, w, e).rescale)
    ensures var p := Reconcile(rnd, w, e).world;
            && p.shpa.Some?
            && p.shpa.value.status in {w.shpa.value.status, QuietStatus(rnd, w, e)}
            && (QuietAndSaved(rnd, w, e) ==>
                  p.shpa.value.status == if QuietStatus(rnd, w, e) == InHand(w, e).status then w.shpa.value.status
                                         else QuietStatus(rnd, w, e))
  {
    FinalizersOnly(w, e);
  }

  lemma RescaledStatusShowsMode(rnd: Rounding, w: World, e: Env)
    requires Reaches(w, e) && VerdictOf(rnd, w, e).Decided? && VerdictOf(rnd, w, e).rescale
    ensures var p := Reconcile(rnd, w, e).world;
            && p.shpa.Some?
            && (p.shpa.value.status == w.shpa.value.status || ShowsMode(p.shpa.value.status, SpecOf(w).dryRun))
  {
    VerdictShowsMode(rnd, w, e);
    VerdictRescales(rnd, w, e);
    var c := ComputeReplicas(rnd, SpecOf(w), StatusBefore(w, e), w.scale, e);
    RescaleKeepsOthers(HandleFinalizer(w, w.shpa.value, e).world, InHand(w, e), c.status, c.verdict.desired, e,
                       DryRunMode);
  }

  /**
   The copy that decides whether a status update is needed already has the dry-run
   condition in it. After a reconcile that does not rescale the stored status therefore
   shows what the spec asks for if and only if it did before, or something else changed.
   */
  lemma DryRunModeIsSavedIff(rnd: Rounding, w: World, e: Env)
    requires QuietAndSaved(rnd, w, e)
    ensures var p := Reconcile(rnd, w, e).world;
            && p.shpa.Some?
            && (ShowsMode(p.shpa.value.status, SpecOf(w).dryRun) <==>
                  || ShowsMode(w.shpa.value.status, SpecOf(w).dryRun)
                  || QuietStatus(rnd, w, e) != InHand(w, e).status)
  {
    QuietRoundSaves(rnd, w, e);
    VerdictShowsMode(rnd, w, e);
  }

  /** Whatever happens, a reconcile that gets to the scale stores no status that shows another mode. */
  lemma StoredStatusShowsMode(rnd: Rounding, w: World, e: Env)
    requires Reaches(w, e)
    ensures var p := Reconcile(rnd, w, e).world;
            && p.shpa.Some?
            && (p.shpa.value.status == w.shpa.value.status || ShowsMode(p.shpa.value.status, SpecOf(w).dryRun))
  {
    if VerdictOf(rnd, w, e).Decided? && VerdictOf(rnd, w, e).rescale {
      RescaledStatusShowsMode(rnd, w, e);
    } else {
      QuietRoundSaves(rnd, w, e);
      VerdictShowsMode(rnd, w, e);
    }
  }

  /** A refused spec is put on record, as such and with the reason, and nothing else changes. */
  lemma RefusalIsReported(rnd: Rounding, w: World, e: Env)
    requires GoesPastFinalizer(w, e) && IsDefaultSHPA(SpecOf(w)) && CheckSHPAValidity(SpecOf(w)).Some?
    ensures var p := Reconcile(rnd, w, e).world;
            && p.shpa.Some? && p.scale == w.scale && p.writes == w.writes
            && var before, after := w.shpa.value.status, p.shpa.value.status;
               && after.(conditions := before.conditions) == before
               && (!e.lastStatusSaved ==> after == before)
               && (e.lastStatusSaved ==>
                     && Tells(after, AbleToScale, False, FailedSpecCheck,
                              WithText(CheckSHPAValidity(SpecOf(w)).value.Text()))
                     && forall k :: k != AbleToScale ==> ConditionIn(after, k) == ConditionIn(before, k))
  {
    GoesPastFinalizerIff(w, e);
    FinalizersOnly(w, e);
    var text := CheckSHPAValidity(SpecOf(w)).value.Text();
    forall k { SaySets(w.shpa.value.status, AbleToScale, False, FailedSpecCheck, WithText(text), e.now, k); }
    SaySets(w.shpa.value.status, AbleToScale, False, FailedSpecCheck, WithText(text), e.now, AbleToScale);
  }

  /** An exit before the spec is refused, or for want of a scale, leaves the status as it was. */
  lemma EarlyExitsStoreNoStatus(rnd: Rounding, w: World, e: Env)
    requires w.shpa.Some? && !Reaches(w, e)
    requires GoesPastFinalizer(w, e) && IsDefaultSHPA(SpecOf(w)) ==> CheckSHPAValidity(SpecOf(w)).None?
    ensures var p := Reconcile(rnd, w, e).world;
            p.shpa.Some? ==>
              p.shpa.value.status == w.shpa.value.status && p.shpa.value.deleting == w.shpa.value.deleting
  {
    GoesPastFinalizerIff(w, e);
    FinalizersOnly(w, e);
  }

  /** When the metrics fail the status in hand is stored all the same: the scale could be read. */
  lemma FailedMetricsAreReported(rnd: Rounding, w: World, e: Env)
    requires Reaches(w, e) && e.firstStatusSaved && VerdictOf(rnd, w, e).NoMetrics?
    ensures var p := Reconcile(rnd, w, e).world;
            && p.shpa.Some? && Tells(p.shpa.value.status, AbleToScale, True, SucceededGetScale, Plain)
            && p.shpa.value.status.(conditions := w.shpa.value.status.conditions) == w.shpa.value.status
  {
    QuietRoundSaves(rnd, w, e);
    FailureSaysNothing(rnd, w, e);
    ReadingIsTold(w, e);
    if StatusBefore(w, e) == InHand(w, e).status {
      ReadingWasTold(w, e);
    }
  }

  lemma ReadingWasTold(w: World, e: Env)
    requires w.shpa.Some? && StatusBefore(w, e) == InHand(w, e).status
    ensures Tells(w.shpa.value.status, AbleToScale, True, SucceededGetScale, Plain)
  {
    FinalizersOnly(w, e);
    ReadingIsTold(w, e);
    NotingDryRun(HandleFinalizer(w, w.shpa.value, e).obj, e.now);
  }

  lemma FailedMetricsKeepOthers(rnd: Rounding, w: World, e: Env, kind: ConditionType)
    requires Reaches(w, e) && VerdictOf(rnd, w, e).NoMetrics? && kind !in {AbleToScale, DryRunMode}
    ensures EntryOf(Reconcile(rnd, w, e).world, kind) == EntryOf(w, kind)
  {
    QuietRoundSaves(rnd, w, e);
    FailureSaysNothing(rnd, w, e);
    StatusBeforeKeeps(w, e, kind);
  }

  lemma FailureSaysNothing(rnd: Rounding, w: World, e: Env)
    requires Reaches(w, e) && VerdictOf(rnd, w, e).NoMetrics?
    ensures QuietStatus(rnd, w, e) == StatusBefore(w, e)
    ensures StatusBefore(w, e).(conditions := w.shpa.value.status.conditions) == w.shpa.value.status
  {
    FinalizersOnly(w, e);
  }

  /** When the first metric to fail is refused, the scale is reported as read and the rest of the status kept. */
  lemma RejectedMetricIsReported(rnd: Rounding, w: World, e: Env, i: nat, kind: ConditionType)
    requires ReadsMetrics(w, e) && i < |SpecOf(w).metrics| && OutcomeAt(w, e, i).Rejected? && e.firstStatusSaved
    requires forall j :: 0 <= j < i ==> OutcomeAt(w, e, j).Proposed? || OutcomeAt(w, e, j).Skipped?
    ensures var p := Reconcile(rnd, w, e).world;
            && p.shpa.Some? && Tells(p.shpa.value.status, AbleToScale, True, SucceededGetScale, Plain)
            && p.shpa.value.status.(conditions := w.shpa.value.status.conditions) == w.shpa.value.status
            && (kind !in {AbleToScale, DryRunMode} ==> EntryOf(p, kind) == EntryOf(w, kind))
  {
    FirstFailureDecides(rnd, w, e, i);
    FailedMetricsAreReported(rnd, w, e);
    if kind !in {AbleToScale, DryRunMode} {
      FailedMetricsKeepOthers(rnd, w, e, kind);
    }
  }

  /** When it is a nil pointer the panic is swallowed, and nothing is stored at all. */
  lemma FaultStoresNothing(rnd: Rounding, w: World, e: Env, i: nat)
    requires ReadsMetrics(w, e) && i < |SpecOf(w).metrics| && OutcomeAt(w, e, i).Faulted?
    requires forall j :: 0 <= j < i ==> OutcomeAt(w, e, j).Proposed? || OutcomeAt(w, e, j).Skipped?
    ensures var p := Reconcile(rnd, w, e).world;
            && p.shpa.Some? && p.shpa.value.status == w.shpa.value.status
            && p.scale == w.scale && p.writes == w.writes
  {
    FirstFailureDecides(rnd, w, e, i);
    FinalizersOnly(w, e);
  }

  /** The status update that ends a round with a verdict goes through. */
  ghost predicate VerdictSaved(rnd: Rounding, w: World, e: Env) {
    && Reaches(w, e) && VerdictOf(rnd, w, e).Decided?
    && if VerdictOf(rnd, w, e).rescale then ReportSaved(SpecOf(w).dryRun, e) else e.lastStatusSaved
  }

  lemma RescaleStoresOthers(w: World, obj: ShpaObject, st: ShpaStatus, desired: int, e: Env, kind: ConditionType)
    requires w.shpa.Some? && ReportSaved(obj.spec.dryRun, e) && SameButDryRun(w.shpa.value.status, obj.status)
    requires kind !in {AbleToScale, DryRunMode}
    ensures ConditionIn(Rescale(w, obj, st, desired, e).world.shpa.value.status, kind) == ConditionIn(st, kind)
  {
    var ready := Say(st, AbleToScale, True, ReadyForScale, Plain, e.now);
    SaySets(st, AbleToScale, True, ReadyForScale, Plain, e.now, kind);
    SaySets(ready, AbleToScale, False, FailedUpdateScale, WithText(e.scaleError), e.now, kind);
    SaySets(ready, AbleToScale, True, SucceededRescale, WithCount(desired), e.now, kind);
    var s := Rescale(w, obj, st, desired, e).world.shpa.value.status;
    assert s == w.shpa.value.status || ConditionIn(s, kind) == ConditionIn(st, kind);
  }

  /** What the verdict said about scaling being active and limited is what is stored. */
  lemma VerdictIsStored(rnd: Rounding, w: World, e: Env, kind: ConditionType)
    requires VerdictSaved(rnd, w, e) && kind !in {AbleToScale, DryRunMode}
    ensures EntryOf(Reconcile(rnd, w, e).world, kind)
            == ConditionIn(ComputeReplicas(rnd, SpecOf(w), StatusBefore(w, e), w.scale, e).status, kind)
  {
    if VerdictOf(rnd, w, e).rescale {
      RescaleIsStored(rnd, w, e, kind);
    } else {
      QuietRoundStores(rnd, w, e, kind);
    }
  }

  lemma RescaleIsStored(rnd: Rounding, w: World, e: Env, kind: ConditionType)
    requires VerdictSaved(rnd, w, e) && VerdictOf(rnd, w, e).rescale && kind !in {AbleToScale, DryRunMode}
    ensures EntryOf(Reconcile(rnd, w, e).world, kind)
            == ConditionIn(ComputeReplicas(rnd, SpecOf(w), StatusBefore(w, e), w.scale, e).status, kind)
  {
    var f := HandleFinalizer(w, w.shpa.value, e);
    FinalizersOnly(w, e);
    NotingDryRun(f.obj, e.now);
    VerdictRescales(rnd, w, e);
    var st := ComputeReplicas(rnd, SpecOf(w), StatusBefore(w, e), w.scale, e).status;
    RescaleStoresOthers(f.world, InHand(w, e), st, VerdictOf(rnd, w, e).desired, e, kind);
  }

  lemma QuietRoundStores(rnd: Rounding, w: World, e: Env, kind: ConditionType)
    requires VerdictSaved(rnd, w, e) && !VerdictOf(rnd, w, e).rescale && kind != DryRunMode
    ensures Reconcile(rnd, w, e).world.shpa.Some?
    ensures EntryOf(Reconcile(rnd, w, e).world, kind)
            == ConditionIn(ComputeReplicas(rnd, SpecOf(w), StatusBefore(w, e), w.scale, e).status, kind)
  {
    FinalizersOnly(w, e);
    NotingDryRun(HandleFinalizer(w, w.shpa.value, e).obj, e.now);
    QuietRoundSaves(rnd, w, e);
  }

  lemma MetricsAreTold(rnd: Rounding, spec: ShpaSpec, st: ShpaStatus, current: int, r: Recommendation, now: int)
    requires r.Recommended?
    ensures var after := FollowMetrics(rnd, spec, st, current, r, now).status;
            var n := Convert(rnd, FactorsOf(spec), current, Max(r.replicas, 0), spec.minReplicas, spec.maxReplicas);
            && Tells(after, ScalingActive, True, ValidMetricFound, WithText(r.metric))
            && Tells(after, ScalingLimited, if n.count == Max(r.replicas, 0) then False else True, n.reason, Plain)
  {
    var st1 := Say(st, ScalingActive, True, ValidMetricFound, WithText(r.metric), now);
    var desired := if r.replicas > 0 then r.replicas else 0;
    var timestamp := if r.replicas > 0 then r.timestamp else now;
    var n := Convert(rnd, FactorsOf(spec), current, desired, spec.minReplicas, spec.maxReplicas);
    var limited := if n.count == desired then False else True;
    SaySets(st, ScalingActive, True, ValidMetricFound, WithText(r.metric), now, ScalingActive);
    SaySets(st1, ScalingLimited, limited, n.reason, Plain, now, ScalingActive);
    SaySets(st1, ScalingLimited, limited, n.reason, Plain, now, ScalingLimited);
    var st2 := Normalize(rnd, spec, st1, current, desired, now).status;
    GateKeepsOthers(spec, st2, current, n.count, timestamp, now, ScalingActive);
    GateKeepsOthers(spec, st2, current, n.count, timestamp, now, ScalingLimited);
  }

  /**
   ScalingActive and ScalingLimited after a verdict that was saved: a metric-driven one
   names its metric and the bound it hit ...
   */
  lemma MetricsAreReported(rnd: Rounding, w: World, e: Env)
    requires VerdictSaved(rnd, w, e) && MetricDriven(w, e)
    ensures var p, spec, r := Reconcile(rnd, w, e).world, SpecOf(w), Recommend(SpecOf(w), w.scale.status, e);
            var proposal := Max(r.replicas, 0);
            var n := Convert(rnd, FactorsOf(spec), w.scale.status, proposal, spec.minReplicas, spec.maxReplicas);
            && p.shpa.Some?
            && Tells(p.shpa.value.status, ScalingActive, True, ValidMetricFound, WithText(r.metric))
            && Tells(p.shpa.value.status, ScalingLimited, if n.count == proposal then False else True, n.reason, Plain)
  {
    VerdictIsStored(rnd, w, e, ScalingActive);
    VerdictIsStored(rnd, w, e, ScalingLimited);
    MetricsAreTold(rnd, SpecOf(w), StatusBefore(w, e), w.scale.status, Recommend(SpecOf(w), w.scale.status, e), e.now);
  }

  /** ... a disabled target is reported, and a count merely brought into range leaves both as they were. */
  lemma EnforcementIsReported(rnd: Rounding, w: World, e: Env)
    requires VerdictSaved(rnd, w, e) && !MetricDriven(w, e)
    ensures var p := Reconcile(rnd, w, e).world;
            && EntryOf(p, ScalingLimited) == EntryOf(w, ScalingLimited)
            && (w.scale.spec == 0 ==> Says(EntryOf(p, ScalingActive), False, ScalingDisabled, Plain))
            && (w.scale.spec != 0 ==> EntryOf(p, ScalingActive) == EntryOf(w, ScalingActive))
  {
    VerdictIsStored(rnd, w, e, ScalingActive);
    VerdictIsStored(rnd, w, e, ScalingLimited);
    EnforcementSays(rnd, w, e);
  }

  lemma EnforcementSays(rnd: Rounding, w: World, e: Env)
    requires Reaches(w, e) && VerdictOf(rnd, w, e).Decided? && !MetricDriven(w, e)
    ensures var st := ComputeReplicas(rnd, SpecOf(w), StatusBefore(w, e), w.scale, e).status;
            && ConditionIn(st, ScalingLimited) == EntryOf(w, ScalingLimited)
            && (w.scale.spec == 0 ==> Tells(st, ScalingActive, False, ScalingDisabled, Plain))
            && (w.scale.spec != 0 ==> ConditionIn(st, ScalingActive) == EntryOf(w, ScalingActive))
  {
    var before := StatusBefore(w, e);
    StatusBeforeKeeps(w, e, ScalingActive);
    StatusBeforeKeeps(w, e, ScalingLimited);
    SaySets(before, ScalingActive, False, ScalingDisabled, Plain, e.now, ScalingActive);
    SaySets(before, ScalingActive, False, ScalingDisabled, Plain, e.now, ScalingLimited);
  }

  lemma StatusBeforeKeeps(w: World, e: Env, kind: ConditionType)
    requires w.shpa.Some? && kind !in {AbleToScale, DryRunMode}
    ensures ConditionIn(StatusBefore(w, e), kind) == EntryOf(w, kind)
  {
    FinalizersOnly(w, e);
    NotingDryRun(HandleFinalizer(w, w.shpa.value, e).obj, e.now);
    SaySets(InHand(w, e).status, AbleToScale, True, SucceededGetScale, Plain, e.now, kind);
  }

  lemma ReadingIsTold(w: World, e: Env)
    requires w.shpa.Some?
    ensures Tells(StatusBefore(w, e), AbleToScale, True, SucceededGetScale, Plain)
  {
    SaySets(InHand(w, e).status, AbleToScale, True, SucceededGetScale, Plain, e.now, AbleToScale);
  }

  /** A window is running at the gate: it holds back a rescale one way or the other. */
  ghost predicate HeldBack(w: World, e: Env) {
    && MetricDriven(w, e) && LastScale(w).Some?
    && GateTime(w, e) < LastScale(w).value + Max(SpecOf(w).upscaleWindow, SpecOf(w).downscaleWindow)
  }

  /**
   AbleToScale after a round that does not rescale: False while a window is running, and
   dated by that round however long it has been, since each round sets it to True first;
   otherwise the scale is reported as read.
   */
  lemma AbilityIsReported(rnd: Rounding, w: World, e: Env)
    requires VerdictSaved(rnd, w, e) && !VerdictOf(rnd, w, e).rescale
    ensures var p := Reconcile(rnd, w, e).world;
            && p.shpa.Some?
            && var s := p.shpa.value.status;
               if !HeldBack(w, e) then Tells(s, AbleToScale, True, SucceededGetScale, Plain)
               else
                 var down := GateTime(w, e) < LastScale(w).value + SpecOf(w).downscaleWindow;
                 var up := GateTime(w, e) < LastScale(w).value + SpecOf(w).upscaleWindow;
                 && Tells(s, AbleToScale, False,
                          if down && up then BackoffBoth else if up then BackoffUpscale else BackoffDownscale, Plain)
                 && TransitionOf(ConditionIn(s, AbleToScale)) == e.now
  {
    QuietRoundStores(rnd, w, e, AbleToScale);
    ReadingIsTold(w, e);
    VerdictSaysAbility(rnd, w, e);
  }

  lemma VerdictSaysAbility(rnd: Rounding, w: World, e: Env)
    requires Reaches(w, e) && VerdictOf(rnd, w, e).Decided? && !VerdictOf(rnd, w, e).rescale
    ensures var st := ComputeReplicas(rnd, SpecOf(w), StatusBefore(w, e), w.scale, e).status;
            var before := ConditionIn(StatusBefore(w, e), AbleToScale);
            if !HeldBack(w, e) then ConditionIn(st, AbleToScale) == before
            else
              var down := GateTime(w, e) < LastScale(w).value + SpecOf(w).downscaleWindow;
              var up := GateTime(w, e) < LastScale(w).value + SpecOf(w).upscaleWindow;
              && Tells(st, AbleToScale, False,
                       if down && up then BackoffBoth else if up then BackoffUpscale else BackoffDownscale, Plain)
              && (StatusOf(before) == True ==> TransitionOf(ConditionIn(st, AbleToScale)) == e.now)
  {
    if MetricDriven(w, e) {
      MetricDrivenFollows(rnd, w, e);
      GateSaysAbility(rnd, SpecOf(w), StatusBefore(w, e), w.scale.status,
                      Recommend(SpecOf(w), w.scale.status, e), e.now);
    } else {
      SaySets(StatusBefore(w, e), ScalingActive, False, ScalingDisabled, Plain, e.now, AbleToScale);
    }
  }

  lemma MetricDrivenFollows(rnd: Rounding, w: World, e: Env)
    requires MetricDriven(w, e)
    ensures var r := Recommend(SpecOf(w), w.scale.status, e);
            ComputeReplicas(rnd, SpecOf(w), StatusBefore(w, e), w.scale, e)
            == FollowMetrics(rnd, SpecOf(w), StatusBefore(w, e), w.scale.status, r, e.now)
    ensures StatusBefore(w, e).lastScaleTime == LastScale(w)
  {
    FinalizersOnly(w, e);
  }

  lemma GateSaysAbility(rnd: Rounding, spec: ShpaSpec, st: ShpaStatus, current: int, r: Recommendation, now: int)
    requires r.Recommended?
    ensures var after := FollowMetrics(rnd, spec, st, current, r, now).status;
            var time := if r.replicas > 0 then r.timestamp else now;
            var before := ConditionIn(st, AbleToScale);
            var down := st.lastScaleTime.Some? && time < st.lastScaleTime.value + spec.downscaleWindow;
            var up := st.lastScaleTime.Some? && time < st.lastScaleTime.value + spec.upscaleWindow;
            if !down && !up then ConditionIn(after, AbleToScale) == before
            else
              && Tells(after, AbleToScale, False,
                       if down && up then BackoffBoth else if up then BackoffUpscale else BackoffDownscale, Plain)
              && (StatusOf(before) == True ==> TransitionOf(ConditionIn(after, AbleToScale)) == now)
  {
    var st1 := Say(st, ScalingActive, True, ValidMetricFound, WithText(r.metric), now);
    var desired := if r.replicas > 0 then r.replicas else 0;
    var n := Convert(rnd, FactorsOf(spec), current, desired, spec.minReplicas, spec.maxReplicas);
    SaySets(st, ScalingActive, True, ValidMetricFound, WithText(r.metric), now, AbleToScale);
    SaySets(st1, ScalingLimited, if n.count == desired then False else True, n.reason, Plain, now, AbleToScale);
    var st2 := Normalize(rnd, spec, st1, current, desired, now).status;
    if st.lastScaleTime.Some? {
      BackoffIsReported(spec, st2, current, n.count, if r.replicas > 0 then r.timestamp else now, now);
    }
  }
}
