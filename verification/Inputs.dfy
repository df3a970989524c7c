/**
 Concrete inputs for what the code does not do: one for each property that holds under a
 condition only, where the condition is proved elsewhere.
 */
module Inputs {
  import opened Wrappers
  import opened Limits
  import opened Conditions
  import opened Normalization
  import opened Watermark
  import opened Pods
  import opened Api
  import opened Calculator
  import opened ControlLoop
  import opened Steps
  import opened Reports
  import opened Runs
  import opened Fleets
  import opened SteadyRuns
  import opened CountDynamics

  const DEPLOYMENT := TargetRef("Deployment", "web", "apps/v1")

  /** One to ten replicas, with the default windows and factors. */
  function SpecWith(metrics: seq<MetricSpec>): ShpaSpec {
    ShpaSpec(300, 60, 50, 20, 10, AVERAGE, false, DEPLOYMENT, metrics, 1, 10, 0)
  }

  const CPU_MARKS := MetricSource(CPU, Some(""), Some(40), Some(80))
  const QUEUE_LENGTH := MetricSource("queue", Some(""), Some(40), Some(80))

  /** A metric named after a pod that is not listed, and the one listed pod not the target's. */
  function Stranger(undefined: int): Reading {
    Reading(Some([Pod("a", [], Running, Some(0), [])]), None, Some(map["b" := 5]), 0, undefined)
  }

  /** The average is taken over no pod at all, and what it proposes is undefined. */
  lemma AverageOverNoPods(undefined: int)
    ensures var r, spec := Stranger(undefined), SpecWith([MetricSpec(RESOURCE, None, Some(CPU_MARKS))]);
            && Admitted(spec)
            && ReadyNames(spec, CPU_MARKS, r.pods.value, r.resource.value) == {}
            && ResourceOutcome(spec, Some(CPU_MARKS), 1, r) == Proposed(undefined, 0, "")
  {
    var r, spec := Stranger(undefined), SpecWith([MetricSpec(RESOURCE, None, Some(CPU_MARKS))]);
    var pods, metrics := r.pods.value, r.resource.value;
    var remaining := Remaining(spec, CPU_MARKS, pods, metrics);
    assert GroupOf(pods[0], "web", metrics, CPU, 0) == WrongTarget;
    assert ReadyNames(spec, CPU_MARKS, pods, metrics) == {};
    assert remaining == map["b" := 5];
    TotalWithout(remaining, "b");
    assert remaining - {"b"} == map[];
  }

  /** Five ready pods and a queue of 200: in average mode 40 each is fine, in absolute mode it takes thirteen. */
  lemma AbsoluteIsNotAveraged(now: int, undefined: int)
    ensures var r := Reading(Some(Fleet("web", 5)), Some([120, 80]), None, 0, undefined);
            && ExternalOutcome(LOADED, Some(QUEUE_LENGTH), 5, r, now) == Proposed(5, 0, "queue")
            && ExternalOutcome(LOADED.(algorithm := "absolute"), Some(QUEUE_LENGTH), 5, r, now)
               == Proposed(13, 0, "queue")
  {
    var r := Reading(Some(Fleet("web", 5)), Some([120, 80]), None, 0, undefined);
    FleetIsTolerated("web", 0, now, 5);
    SumIsAdditive([120], [80]);
    assert [120, 80] == [120] + [80];
    ExternalProposalIff(LOADED, QUEUE_LENGTH, 5, r, now);
    ExternalProposalIff(LOADED.(algorithm := "absolute"), QUEUE_LENGTH, 5, r, now);
    RuleIsIntegral(5, 5, Band(40, 80, 10), 200, 5, undefined);
    RuleIsIntegral(5, 5, Band(40, 80, 10), 200, 1, undefined);
  }

  /** A proposal of zero is forgotten: the one after it is recommended, though it is lower. */
  lemma ZeroIsForgotten()
    ensures Tally([Proposed(0, 1, "a"), Proposed(-3, 2, "b")]) == Recommended(-3, 2, "b")
  {
    var os := [Proposed(0, 1, "a"), Proposed(-3, 2, "b")];
    assert os[..1] == [Proposed(0, 1, "a")];
    assert os[..1][..0] == [];
    assert Tally(os[..1]) == Recommended(0, 1, "a");
  }

  /** One ready pod of three: a usage inside the band keeps three replicas, a higher one makes them two. */
  lemma HigherUsageLowersCount(undefined: int)
    ensures GetReplicaCount(3, 1, Band(75000, 85000, 1), 80000.0, undefined) == 3
    ensures GetReplicaCount(3, 1, Band(75000, 85000, 1), 90000.0, undefined) == 2
  {
  }

  /** One replica, the largest factor and a maximum of ten: the step is limited to two. */
  lemma FullFactorFallsShort(rnd: Rounding)
    ensures Ceiling(rnd, Factors(100, 20), 1, 10) == 2
  {
    FullFactorDoubles(rnd, 1);
  }

  /** Equal watermarks are admitted. */
  lemma EqualMarksPass()
    ensures var source := MetricSource(CPU, Some(""), Some(80), Some(80));
            CheckSHPAValidity(SpecWith([MetricSpec(RESOURCE, None, Some(source))])).None?
  {
  }

  function Stored(spec: ShpaSpec, status: ShpaStatus, n: int): World {
    World(Some(ShpaObject(spec, status, [FINALIZER], false)), Scale(n, n), [])
  }

  const FRESH := ShpaStatus(None, None, 0, 0, [], [])

  /** Without metrics, and with nothing recorded, the lower bound is wanted, and written even where it is met. */
  lemma WithoutMetrics(rnd: Rounding, e: Env, n: int)
    requires e.scaleFound && 1 <= n <= 2
    ensures var w := Stored(SpecWith([]), FRESH, n);
            MetricDriven(w, e) && Wanted(rnd, w, e) == 1 && VerdictOf(rnd, w, e) == Decided(true, 1)
  {
    var w := Stored(SpecWith([]), FRESH, n);
    NoMetricsShrinks(rnd, w, e);
    LimitsAreRates(rnd, 20, n);
    GateIff(rnd, w, e);
  }

  /** One replica, no metrics, nothing recorded: the one replica is written again, and stamped. */
  lemma UnchangedCountIsWritten(rnd: Rounding, e: Env)
    requires e.scaleFound && e.scaleSaved && e.lastStatusSaved && Ticks(e)
    ensures var p := Reconcile(rnd, Stored(SpecWith([]), FRESH, 1), e).world;
            p.writes == [1] && p.scale == Scale(1, 1) && LastScale(p) == Some(e.lastStamp)
  {
    WithoutMetrics(rnd, e, 1);
    VerdictTakesEffect(rnd, Stored(SpecWith([]), FRESH, 1), e);
  }

  /** Two replicas and no metrics: one is taken away. */
  lemma NoMetricsTakesAway(rnd: Rounding, e: Env)
    requires e.scaleFound && e.scaleSaved
    ensures Reconcile(rnd, Stored(SpecWith([]), FRESH, 2), e).world.scale.spec == 1
  {
    WithoutMetrics(rnd, e, 2);
    VerdictTakesEffect(rnd, Stored(SpecWith([]), FRESH, 2), e);
  }

  /** A disabled target whose status says that no dry run is asked for, though one is now. */
  function DryRunJustAsked(transition: int): World {
    var said := [
      Condition(DryRunMode, False, DryRunDisabled, Plain, transition),
      Condition(AbleToScale, True, SucceededGetScale, Plain, transition),
      Condition(ScalingActive, False, ScalingDisabled, Plain, transition)];
    Stored(SpecWith([]).(dryRun := true), FRESH.(conditions := said), 0)
  }

  /** However often it is reconciled, the status goes on saying so. */
  lemma DryRunIsNotShown(rnd: Rounding, e: Env, transition: int)
    requires e.scaleFound
    ensures var w := DryRunJustAsked(transition);
            && Reconcile(rnd, w, e).world == w
            && SpecOf(w).dryRun && !ShowsMode(w.shpa.value.status, true)
            && ShowsMode(w.shpa.value.status, false)
  {
    var w := DryRunJustAsked(transition);
    var noted := InHand(w, e).status;
    assert noted.conditions[1..] == w.shpa.value.status.conditions[1..];
    SaidAlready(noted, AbleToScale, True, SucceededGetScale, e.now, 1);
    SaidAlready(noted, ScalingActive, False, ScalingDisabled, e.now, 2);
    assert StatusBefore(w, e) == noted;
  }

  /** Saying what is said already changes nothing. */
  lemma SaidAlready(st: ShpaStatus, kind: ConditionType, status: ConditionStatus, reason: Reason, now: int, i: nat)
    requires i < |st.conditions| && forall j :: 0 <= j < i ==> st.conditions[j].kind != kind
    requires st.conditions[i] == Condition(kind, status, reason, Plain, st.conditions[i].transition)
    ensures Say(st, kind, status, reason, Plain, now) == st
  {
    var cs := st.conditions;
    assert IndexOf(cs, kind) == i;
    assert Overwritten(Some(cs[i]), Call(kind, status, reason, Plain, now)) == cs[i];
    assert cs[i := cs[i]] == cs;
  }

  const LOADED := SpecWith([MetricSpec(EXTERNAL, Some(QUEUE_LENGTH), None)])

  /** Above the band and short of the maximum, a steady reconcile scales up. */
  lemma SteadyScalesUp(rnd: Rounding, w: World, e: Env, spec: ShpaSpec, load: int)
    requires SingleMetric(spec) && Steady(w, e, spec, load) && InRange(TuningOf(spec), w.scale.spec)
    requires Above(TuningOf(spec).band, load, w.scale.spec) && w.scale.spec < spec.maxReplicas
    ensures ScalesUp(rnd, w, e)
  {
    SteadyReaches(w, e, spec, load);
    SteadyRecommendation(w, e, spec, load);
    assert MetricDriven(w, e);
    Rises(rnd, TuningOf(spec), load, w.scale.spec, spec.maxReplicas);
    assert Wanted(rnd, w, e) == Next(rnd, TuningOf(spec), load, w.scale.spec);
    GateIff(rnd, w, e);
  }

  /** When the last status update of such a scale-up is lost, the world rests on the record before. */
  lemma LostRound(rnd: Rounding, w: World, e: Env, spec: ShpaSpec, load: int, before: int)
    requires SingleMetric(spec) && Steady(w, e, spec, load) && InRange(TuningOf(spec), w.scale.spec)
    requires Resting(w, spec, before) && ClockInOrder(w, e) && ScalesUp(rnd, w, e) && !e.lastStatusSaved
    ensures var p := Reconcile(rnd, w, e).world;
            EnvironmentMove(p, CaughtUp(p)) && Resting(CaughtUp(p), spec, before)
    ensures Reconcile(rnd, w, e).world.scale.spec == Next(rnd, TuningOf(spec), load, w.scale.spec)
  {
    SteadyStep(rnd, w, e, spec, load);
    VerdictTakesEffect(rnd, w, e);
    RecordedTimeMatchesAction(rnd, w, e);
    FinalizersOnly(w, e);
  }

  lemma LoadedIsTuned()
    ensures SingleMetric(LOADED) && Tuned(TuningOf(LOADED)) && Wait(LOADED) == 360
    ensures TuningOf(LOADED).band == Band(40, 80, 10) && TuningOf(LOADED).min == 1 && TuningOf(LOADED).max == 10
  {
  }

  /** A scale-up of a minute's window at time 360 whose last status update is lost. */
  ghost predicate LosesStamp(rnd: Rounding, w: World, e: Env) {
    && ScalesUp(rnd, w, e) && SpecOf(w).upscaleWindow == 60 && !SpecOf(w).dryRun
    && !e.lastStatusSaved && e.now == e.firstStamp == e.lastStamp == 360 && MetricsTimely(e)
  }

  lemma LossyRound(rnd: Rounding, w: World) returns (e: Env, next: World)
    requires Resting(w, LOADED, 0) && 1 <= w.scale.spec < 10
    ensures LosesStamp(rnd, w, e) && ClockInOrder(w, e)
    ensures EnvironmentMove(Reconcile(rnd, w, e).world, next) && Resting(next, LOADED, 0)
    ensures 1 <= next.scale.spec <= 2 * w.scale.spec
  {
    e := Calm(LOADED, w.scale.spec, 10000, 360).(lastStatusSaved := false);
    LoadedIsTuned();
    CalmIsSteady(w, LOADED, 10000, 0, 360);
    assert Steady(w, e, LOADED, 10000);
    SteadyScalesUp(rnd, w, e, LOADED, 10000);
    LostRound(rnd, w, e, LOADED, 10000, 0);
    NextAtMostDoubles(rnd, TuningOf(LOADED), 10000, w.scale.spec);
    next := CaughtUp(Reconcile(rnd, w, e).world);
  }

  lemma NextAtMostDoubles(rnd: Rounding, t: Tuning, load: int, n: int)
    requires Tuned(t) && InRange(t, n)
    ensures 1 <= Next(rnd, t, load, n) <= 2 * n
  {
    var proposal := GetReplicaCount(n, n, t.band, Quotient(load, n), 0);
    CascadeMakesProgress(rnd, t.factors, n, proposal, t.min, t.max);
  }

  lemma RunOfTwo(rnd: Rounding, w: World, e: Env, w': World, e': Env)
    requires ClockInOrder(w, e) && Ticks(e') && e.lastStamp <= e'.now
    requires EnvironmentMove(Reconcile(rnd, w, e).world, w')
    ensures IsRun(rnd, [w, w'], [e, e'])
  {
    assert Linked(rnd, [w, w'], [e, e'], 0);
  }

  /**
   A run of two reconciles in which the last status updates are lost: both scale up, at the
   same moment, with an upscale window of a minute.
   */
  lemma LostStampScalesTwice(rnd: Rounding) returns (w: World, e: Env, w': World, e': Env)
    ensures IsRun(rnd, [w, w'], [e, e']) && LosesStamp(rnd, w, e) && LosesStamp(rnd, w', e')
  {
    w := Start(LOADED, 1);
    e, w' := LossyRound(rnd, w);
    var last: World;
    e', last := LossyRound(rnd, w');
    RunOfTwo(rnd, w, e, w', e');
  }
}
