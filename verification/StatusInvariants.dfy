/** What every reconcile of a run keeps of the status and the spec. */
module StatusInvariants {
  import opened Wrappers
  import opened Limits
  import opened Conditions
  import opened Normalization
  import opened Api
  import opened Calculator
  import opened ControlLoop
  import opened Steps
  import opened Runs

  /** Calls of the controller's own condition types, all made at the same moment. */
  predicate OwnCalls(calls: seq<Call>, now: int) {
    forall c :: c in calls ==> c.now == now && !c.kind.Foreign? && c.status != Unset
  }

  /** The conditions of the one status are those of the other after some such calls. */
  ghost predicate MadeOf(before: ShpaStatus, after: ShpaStatus, now: int) {
    exists calls :: OwnCalls(calls, now) && after.conditions == PutAll(before.conditions, calls)
  }

  lemma NothingMade(st: ShpaStatus, now: int)
    ensures MadeOf(st, st, now)
  {
    assert OwnCalls([], now) && PutAll(st.conditions, []) == st.conditions;
  }

  lemma SayMakes(before: ShpaStatus, st: ShpaStatus, kind: ConditionType, status: ConditionStatus, reason: Reason,
                 message: Message, now: int)
    requires MadeOf(before, st, now) && !kind.Foreign? && status != Unset
    ensures MadeOf(before, Say(st, kind, status, reason, message, now), now)
  {
    var calls :| OwnCalls(calls, now) && st.conditions == PutAll(before.conditions, calls);
    var more := calls + [Call(kind, status, reason, message, now)];
    assert more[..|more| - 1] == calls;
    assert OwnCalls(more, now);
    assert Say(st, kind, status, reason, message, now).conditions == PutAll(before.conditions, more);
  }

  lemma GateMakes(before: ShpaStatus, spec: ShpaSpec, st: ShpaStatus, current: int, desired: int, timestamp: int,
                  now: int)
    requires MadeOf(before, st, now)
    ensures MadeOf(before, ShouldScale(spec, st, current, desired, timestamp, now).status, now)
  {
    if st.lastScaleTime.Some? {
      var down := st.lastScaleTime.value + spec.downscaleWindow - timestamp > 0;
      SayMakes(before, st, AbleToScale, False, BackoffDownscale, Plain, now);
      var st1 := if down then Say(st, AbleToScale, False, BackoffDownscale, Plain, now) else st;
      SayMakes(before, st1, AbleToScale, False, if down then BackoffBoth else BackoffUpscale, Plain, now);
    }
  }

  lemma MetricsMake(before: ShpaStatus, rnd: Rounding, spec: ShpaSpec, st: ShpaStatus, current: int, r: Recommendation,
                    now: int)
    requires MadeOf(before, st, now) && r.Recommended?
    ensures MadeOf(before, FollowMetrics(rnd, spec, st, current, r, now).status, now)
  {
    var st1 := Say(st, ScalingActive, True, ValidMetricFound, WithText(r.metric), now);
    SayMakes(before, st, ScalingActive, True, ValidMetricFound, WithText(r.metric), now);
    var desired := if r.replicas > 0 then r.replicas else 0;
    var n := Convert(rnd, FactorsOf(spec), current, desired, spec.minReplicas, spec.maxReplicas);
    SayMakes(before, st1, ScalingLimited, if n.count == desired then False else True, n.reason, Plain, now);
    var normal := Normalize(rnd, spec, st1, current, desired, now);
    GateMakes(before, spec, normal.status, current, normal.count, if r.replicas > 0 then r.timestamp else now, now);
  }

  lemma ComputeMakes(before: ShpaStatus, rnd: Rounding, spec: ShpaSpec, st: ShpaStatus, scale: Scale, e: Env)
    requires MadeOf(before, st, e.now)
    ensures MadeOf(before, ComputeReplicas(rnd, spec, st, scale, e).status, e.now)
  {
    SayMakes(before, st, ScalingActive, False, ScalingDisabled, Plain, e.now);
    var r := Recommend(spec, scale.status, e);
    if r.Recommended? {
      MetricsMake(before, rnd, spec, st, scale.status, r, e.now);
    }
  }

  lemma RescaleMakes(before: ShpaStatus, w: World, obj: ShpaObject, st: ShpaStatus, desired: int, e: Env)
    requires w.shpa.Some? && MadeOf(before, w.shpa.value.status, e.now) && MadeOf(before, st, e.now)
    ensures MadeOf(before, Rescale(w, obj, st, desired, e).world.shpa.value.status, e.now)
  {
    var ready := Say(st, AbleToScale, True, ReadyForScale, Plain, e.now);
    SayMakes(before, st, AbleToScale, True, ReadyForScale, Plain, e.now);
    SayMakes(before, ready, AbleToScale, False, FailedUpdateScale, WithText(e.scaleError), e.now);
    SayMakes(before, ready, AbleToScale, True, SucceededRescale, WithCount(desired), e.now);
  }

  lemma ReconcileShpaMakes(before: ShpaStatus, rnd: Rounding, w: World, obj: ShpaObject, e: Env)
    requires w.shpa.Some? && MadeOf(before, w.shpa.value.status, e.now) && MadeOf(before, obj.status, e.now)
    ensures MadeOf(before, ReconcileShpa(rnd, w, obj, e).world.shpa.value.status, e.now)
  {
    var st := Say(obj.status, AbleToScale, True, SucceededGetScale, Plain, e.now);
    SayMakes(before, obj.status, AbleToScale, True, SucceededGetScale, Plain, e.now);
    var c := ComputeReplicas(rnd, obj.spec, st, w.scale, e);
    ComputeMakes(before, rnd, obj.spec, st, w.scale, e);
    if c.verdict.Decided? && c.verdict.rescale {
      RescaleMakes(before, w, obj, c.status, c.verdict.desired, e);
    }
  }

  /** Whatever a reconcile stores, its conditions are those stored before after calls of the controller's own. */
  lemma StatusIsMadeOfCalls(rnd: Rounding, w: World, e: Env)
    requires w.shpa.Some?
    ensures var p := Reconcile(rnd, w, e).world;
            p.shpa.Some? ==> MadeOf(w.shpa.value.status, p.shpa.value.status, e.now)
  {
    FinalizersOnly(w, e);
    var f, before := HandleFinalizer(w, w.shpa.value, e), w.shpa.value.status;
    NothingMade(before, e.now);
    SayMakes(before, before, DryRunMode, True, DryRunEnabled, Plain, e.now);
    SayMakes(before, before, DryRunMode, False, DryRunDisabled, Plain, e.now);
    if CheckSHPAValidity(f.obj.spec).Some? {
      var text := CheckSHPAValidity(f.obj.spec).value.Text();
      SayMakes(before, before, AbleToScale, False, FailedSpecCheck, WithText(text), e.now);
    } else if f.stop.None? {
      ReconcileShpaMakes(before, rnd, f.world, DryRunNoted(f.obj, e.now), e);
    }
  }

  ghost predicate WorldMapped(w: World) { w.shpa.Some? ==> Distinct(w.shpa.value.status.conditions) }

  lemma ReconcileKeepsMapped(rnd: Rounding, w: World, e: Env)
    requires WorldMapped(w)
    ensures WorldMapped(Reconcile(rnd, w, e).world)
  {
    var p := Reconcile(rnd, w, e).world;
    if w.shpa.Some? && p.shpa.Some? {
      StatusIsMadeOfCalls(rnd, w, e);
      KeepsDistinct(w.shpa.value.status, p.shpa.value.status, e.now);
    } else {
      assert p.shpa.None?;
    }
  }

  lemma KeepsDistinct(before: ShpaStatus, after: ShpaStatus, now: int)
    requires MadeOf(before, after, now) && Distinct(before.conditions)
    ensures Distinct(after.conditions)
  {
    var calls :| OwnCalls(calls, now) && after.conditions == PutAll(before.conditions, calls);
    PutAllKeepsDistinct(before.conditions, calls);
  }

  /** In every run the stored condition list stays a map: no type occurs twice. */
  lemma {:induction false} ConditionsStayAMap(rnd: Rounding, ws: seq<World>, es: seq<Env>, j: nat)
    requires IsRun(rnd, ws, es) && j < |ws| && WorldMapped(ws[0])
    ensures WorldMapped(ws[j])
  {
    if j > 0 {
      ConditionsStayAMap(rnd, ws, es, j - 1);
      ReconcileKeepsMapped(rnd, ws[j - 1], es[j - 1]);
      assert Linked(rnd, ws, es, j - 1);
    }
  }

  /** Only defaulting changes a spec, and a defaulted one not at all. */
  lemma ReconcileKeepsSpec(rnd: Rounding, w: World, e: Env)
    requires w.shpa.Some?
    ensures var p := Reconcile(rnd, w, e).world;
            p.shpa.Some? ==> SpecOf(p) == SpecOf(w) || SpecOf(p) == Defaulted(SpecOf(w))
    ensures var p := Reconcile(rnd, w, e).world;
            p.shpa.Some? && IsDefaultSHPA(SpecOf(w)) ==> SpecOf(p) == SpecOf(w)
    ensures Reconcile(rnd, w, e).reply == RequeueNow ==>
              var p := Reconcile(rnd, w, e).world; p.shpa.Some? && SpecOf(p) == Defaulted(SpecOf(w))
  {
    FinalizersOnly(w, e);
    if Reaches(w, e) {
      VerdictTakesEffect(rnd, w, e);
    }
  }

  /** The environment does not edit the spec between reconciles m and m + 1. */
  ghost predicate Unedited(rnd: Rounding, ws: seq<World>, es: seq<Env>, m: int)
    requires 0 <= m < |ws| - 1 && |ws| == |es|
  {
    var p := Reconcile(rnd, ws[m], es[m]).world;
    ws[m + 1].shpa.Some? ==> p.shpa.Some? && SpecOf(ws[m + 1]) == SpecOf(p)
  }

  lemma NextIsDefaulted(rnd: Rounding, w: World, e: Env)
    requires Reconcile(rnd, w, e).reply == RequeueNow || (w.shpa.Some? ==> IsDefaultSHPA(SpecOf(w)))
    ensures var p := Reconcile(rnd, w, e).world; p.shpa.Some? ==> IsDefaultSHPA(SpecOf(p))
  {
    if w.shpa.Some? {
      ReconcileKeepsSpec(rnd, w, e);
      DefaultingIsIdempotent(SpecOf(w));
    }
  }

  lemma {:induction false} DefaultedStaysDefaulted(rnd: Rounding, ws: seq<World>, es: seq<Env>, i: nat, j: nat)
    requires IsRun(rnd, ws, es) && i < j < |ws|
    requires forall m :: i <= m < j ==> Unedited(rnd, ws, es, m)
    requires Reconcile(rnd, ws[i], es[i]).reply == RequeueNow
    ensures ws[j].shpa.Some? ==> IsDefaultSHPA(SpecOf(ws[j]))
  {
    if i + 1 < j {
      DefaultedStaysDefaulted(rnd, ws, es, i, j - 1);
    }
    NextIsDefaulted(rnd, ws[j - 1], es[j - 1]);
    assert Unedited(rnd, ws, es, j - 1);
  }

  /** The defaulting exit is taken at most once between spec edits. */
  lemma DefaultingHappensOnce(rnd: Rounding, ws: seq<World>, es: seq<Env>, i: nat, j: nat)
    requires IsRun(rnd, ws, es) && i < j < |ws|
    requires forall m :: i <= m < j ==> Unedited(rnd, ws, es, m)
    requires Reconcile(rnd, ws[i], es[i]).reply == RequeueNow
    ensures Reconcile(rnd, ws[j], es[j]).reply != RequeueNow
  {
    DefaultedStaysDefaulted(rnd, ws, es, i, j);
    if ws[j].shpa.Some? {
      FinalizersOnly(ws[j], es[j]);
      if HandleFinalizer(ws[j], ws[j].shpa.value, es[j]).stop.None? {
        DefaultsOnce(rnd, ws[j], es[j]);
      }
    }
  }

  function ConditionIn(st: ShpaStatus, kind: ConditionType): Option<Condition> { Lookup(st.conditions, kind) }

  /** An entry after a reconcile at some moment: still there, and dated as before or by that moment. */
  ghost predicate Redated(before: Option<Condition>, after: Option<Condition>, now: int) {
    && (before.Some? ==> after.Some?)
    && (after.Some? ==> after.value.transition == now || TransitionOf(before) == after.value.transition)
    && (after.Some? && before.None? ==> after.value.transition == now)
  }

  lemma {:induction false} CallsRedate(entry: Option<Condition>, calls: seq<Call>, kind: ConditionType, now: int)
    requires OwnCalls(calls, now)
    ensures Redated(entry, EntryAfter(entry, calls, kind), now)
    ensures kind.Foreign? ==> EntryAfter(entry, calls, kind) == entry
  {
    if calls != [] {
      var n := |calls| - 1;
      assert calls[n] in calls;
      CallsRedate(entry, calls[..n], kind, now);
    }
  }

  /** A reconcile leaves other controllers' conditions alone, and dates the ones it changes by its clock. */
  lemma ConditionsAreRedated(rnd: Rounding, w: World, e: Env, kind: ConditionType)
    requires w.shpa.Some? && Reconcile(rnd, w, e).world.shpa.Some?
    ensures var p := Reconcile(rnd, w, e).world;
            var before, after := ConditionIn(w.shpa.value.status, kind), ConditionIn(p.shpa.value.status, kind);
            Redated(before, after, e.now) && (kind.Foreign? ==> after == before)
  {
    StatusIsMadeOfCalls(rnd, w, e);
    Redate(w.shpa.value.status, Reconcile(rnd, w, e).world.shpa.value.status, e.now, kind);
  }

  lemma Redate(before: ShpaStatus, after: ShpaStatus, now: int, kind: ConditionType)
    requires MadeOf(before, after, now)
    ensures Redated(ConditionIn(before, kind), ConditionIn(after, kind), now)
    ensures kind.Foreign? ==> ConditionIn(after, kind) == ConditionIn(before, kind)
  {
    var calls :| OwnCalls(calls, now) && after.conditions == PutAll(before.conditions, calls);
    ListIsMap(before.conditions, calls, kind);
    CallsRedate(ConditionIn(before, kind), calls, kind, now);
  }

  function EntryOf(w: World, kind: ConditionType): Option<Condition> {
    if w.shpa.Some? then ConditionIn(w.shpa.value.status, kind) else None
  }

  /** The entry is there, and not older: of another controller it is the same. */
  ghost predicate Renewed(before: Option<Condition>, after: Option<Condition>, kind: ConditionType) {
    && (before.Some? ==> after.Some? && before.value.transition <= after.value.transition)
    && (kind.Foreign? ==> after == before)
  }

  /** Over a run no condition is lost, no transition time goes back, and other controllers' are left alone. */
  lemma {:induction false} TransitionsNeverGoBack(rnd: Rounding, ws: seq<World>, es: seq<Env>, i: nat, j: nat,
                                                  kind: ConditionType)
    requires IsRun(rnd, ws, es) && i <= j < |ws|
    requires EntryOf(ws[i], kind).Some? ==> EntryOf(ws[i], kind).value.transition <= es[i].now
    ensures ws[j].shpa.Some? ==>
              && Renewed(EntryOf(ws[i], kind), EntryOf(ws[j], kind), kind)
              && (EntryOf(ws[j], kind).Some? ==> EntryOf(ws[j], kind).value.transition <= es[j].now)
  {
    if i < j {
      TransitionsNeverGoBack(rnd, ws, es, i, j - 1, kind);
      assert Linked(rnd, ws, es, j - 1) && Ticks(es[j - 1]);
      if ws[j].shpa.Some? {
        NothingComesBack(rnd, ws[j - 1], es[j - 1]);
        ConditionsAreRedated(rnd, ws[j - 1], es[j - 1], kind);
      }
    }
  }

  lemma NothingComesBack(rnd: Rounding, w: World, e: Env)
    ensures Reconcile(rnd, w, e).world.shpa.Some? ==> w.shpa.Some?
  {
  }
}
