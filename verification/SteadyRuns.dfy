/**
 Runs of the whole controller under a steady load: one metric in average mode, every pod
 ready, the scale without lag, cooldowns over and writes going through. The stored replica
 count then follows CountDynamics, and so do its convergence theorems.
 */
module SteadyRuns {
  import opened Wrappers
  import opened Limits
  import opened Watermark
  import opened Pods
  import opened Api
  import opened Calculator
  import opened ControlLoop
  import opened Steps
  import opened Runs
  import opened CountDynamics
  import opened Fleets

  function SourceOf(m: MetricSpec): Option<MetricSource> {
    if m.kind == EXTERNAL then m.external else m.resource
  }

  /** An admitted spec that follows one metric in average mode, with sensible watermarks. */
  ghost predicate SingleMetric(spec: ShpaSpec) {
    && SchemaValid(spec) && Admitted(spec) && spec.algorithm == AVERAGE && !spec.dryRun
    && |spec.metrics| == 1
    && Usable(SourceOf(spec.metrics[0]))
    && Sensible(BandOf(spec, SourceOf(spec.metrics[0]).value))
  }

  ghost function TuningOf(spec: ShpaSpec): Tuning
    requires SingleMetric(spec)
  {
    Tuning(BandOf(spec, SourceOf(spec.metrics[0]).value), FactorsOf(spec), spec.minReplicas, spec.maxReplicas)
  }

  /** The reading shows a total load spread over n ready pods. */
  ghost predicate ShowsLoad(spec: ShpaSpec, r: Reading, now: int, n: int, load: int)
    requires SingleMetric(spec)
  {
    var m := spec.metrics[0];
    && n >= 1 && r.pods.Some?
    && (m.kind == EXTERNAL ==>
          && r.external.Some? && SumOf(r.external.value) == load
          && |ToleratedAt(r.pods.value, spec.target.name, spec.readinessDelay, now)| == n)
    && (m.kind == RESOURCE ==>
          r.resource.Some? && ShowsShares(spec, m.resource.value, r.pods.value, r.resource.value, n, load))
  }

  lemma SteadyOutcome(spec: ShpaSpec, r: Reading, now: int, n: int, load: int)
    requires SingleMetric(spec) && ShowsLoad(spec, r, now, n, load)
    ensures var o := MetricOutcome(spec, spec.metrics[0], n, r, now);
            && o.Proposed? && o.timestamp == r.timestamp
            && o.count == GetReplicaCount(n, n, TuningOf(spec).band, Quotient(load, n), r.undefined)
  {
    var m := spec.metrics[0];
    assert m in spec.metrics;
    AdmittedNeverFaults(spec, m, n, r, now);
    KindsDiffer();
    if m.kind == RESOURCE {
      SteadyResource(spec, r, now, n, load);
    }
  }

  lemma SomethingRemains(spec: ShpaSpec, source: MetricSource, pods: seq<Pod>, metrics: map<string, int>,
                         n: int, load: int)
    requires n >= 1 && ShowsShares(spec, source, pods, metrics, n, load)
    ensures pods != []
    ensures Remaining(spec, source, pods, metrics) != map[] && Total(Remaining(spec, source, pods, metrics)) == load
  {
    RemainingIsRestriction(spec, source, pods, metrics);
    assert |Remaining(spec, source, pods, metrics)| == n;
    NamesOfNoPods(spec, source, metrics);
  }

  lemma NamesOfNoPods(spec: ShpaSpec, source: MetricSource, metrics: map<string, int>)
    ensures |ReadyNames(spec, source, [], metrics)| == 0
  {
  }

  lemma SteadyResource(spec: ShpaSpec, r: Reading, now: int, n: int, load: int)
    requires SingleMetric(spec) && ShowsLoad(spec, r, now, n, load) && spec.metrics[0].kind == RESOURCE
    ensures SourceOf(spec.metrics[0]) == spec.metrics[0].resource
    ensures ResourceOutcome(spec, spec.metrics[0].resource, n, r)
            == Proposed(GetReplicaCount(n, n, TuningOf(spec).band, Quotient(load, n), r.undefined), r.timestamp, "")
  {
    KindsDiffer();
    SomethingRemains(spec, spec.metrics[0].resource.value, r.pods.value, r.resource.value, n, load);
  }

  /** A reconcile under these conditions. */
  ghost predicate Steady(w: World, e: Env, spec: ShpaSpec, load: int)
    requires SingleMetric(spec)
  {
    && w.shpa.Some? && SpecOf(w) == spec && !w.shpa.value.deleting
    && (FINALIZER in w.shpa.value.finalizers || e.finalizerSaved)
    && e.scaleFound && e.scaleSaved
    && w.scale.status == w.scale.spec
    && ShowsLoad(spec, ReadingAt(e.readings, 0), e.now, w.scale.status, load)
    && LastScale(w).Some?
    && LastScale(w).value + spec.upscaleWindow <= ReadingAt(e.readings, 0).timestamp
    && LastScale(w).value + spec.downscaleWindow <= ReadingAt(e.readings, 0).timestamp
  }

  lemma SteadyReaches(w: World, e: Env, spec: ShpaSpec, load: int)
    requires SingleMetric(spec) && Steady(w, e, spec, load)
    ensures Reaches(w, e)
  {
  }

  lemma SteadyRecommendation(w: World, e: Env, spec: ShpaSpec, load: int)
    requires SingleMetric(spec) && Steady(w, e, spec, load) && w.scale.spec >= 1
    ensures var r, n := Recommend(spec, w.scale.status, e), w.scale.status;
            && r.Recommended? && r.replicas >= 1 && r.timestamp == ReadingAt(e.readings, 0).timestamp
            && r.replicas == GetReplicaCount(n, n, TuningOf(spec).band, Quotient(load, n), 0)
  {
    var n, reading, b := w.scale.status, ReadingAt(e.readings, 0), TuningOf(spec).band;
    SteadyOutcome(spec, reading, e.now, n, load);
    ProposalIsPositive(b, n, n, load, n, reading.undefined);
    RuleIsIntegral(n, n, b, load, n, reading.undefined);
    RuleIsIntegral(n, n, b, load, n, 0);
    var os := Outcomes(spec, n, e.readings, e.now, 1);
    assert os == [MetricOutcome(spec, spec.metrics[0], n, reading, e.now)];
    assert os[..0] == [];
    assert Tally(os) == Fold(Tally([]), os[0]);
  }

  /** One steady reconcile moves the stored count by exactly one round of the dynamics. */
  lemma SteadyStep(rnd: Rounding, w: World, e: Env, spec: ShpaSpec, load: int)
    requires SingleMetric(spec) && Steady(w, e, spec, load)
    requires InRange(TuningOf(spec), w.scale.spec)
    ensures Tuned(TuningOf(spec))
    ensures Reconcile(rnd, w, e).world.scale.spec == Next(rnd, TuningOf(spec), load, w.scale.spec)
  {
    SteadyReaches(w, e, spec, load);
    SteadyRecommendation(w, e, spec, load);
    assert MetricDriven(w, e);
    GateIff(rnd, w, e);
    VerdictTakesEffect(rnd, w, e);
    assert Wanted(rnd, w, e) == Next(rnd, TuningOf(spec), load, w.scale.spec);
  }

  /** A run of such reconciles on one spec, from a count inside the range. */
  ghost predicate SteadyRun(rnd: Rounding, ws: seq<World>, es: seq<Env>, spec: ShpaSpec, load: int) {
    && SingleMetric(spec) && |ws| == |es| && 0 < |ws|
    && InRange(TuningOf(spec), ws[0].scale.spec)
    && (forall i :: 0 <= i < |ws| ==> Steady(ws[i], es[i], spec, load))
    && (forall i :: 0 <= i < |ws| - 1 ==> Handed(rnd, ws, es, i))
  }

  lemma SingleMetricIsTuned(spec: ShpaSpec)
    requires SingleMetric(spec)
    ensures Tuned(TuningOf(spec))
  {
  }

  lemma StepOfRun(rnd: Rounding, ws: seq<World>, es: seq<Env>, spec: ShpaSpec, load: int, j: nat)
    requires SteadyRun(rnd, ws, es, spec, load) && j + 1 < |ws| && Tuned(TuningOf(spec))
    ensures StepsByNext(rnd, TuningOf(spec), load, ws[j].scale.spec, ws[j + 1].scale.spec)
  {
    if InRange(TuningOf(spec), ws[j].scale.spec) {
      assert Steady(ws[j], es[j], spec, load);
      SteadyStep(rnd, ws[j], es[j], spec, load);
      assert Handed(rnd, ws, es, j);
    }
  }

  /** The stored counts of a steady run are a trajectory of the dynamics. */
  lemma RunFollowsDynamics(rnd: Rounding, ws: seq<World>, es: seq<Env>, spec: ShpaSpec, load: int)
    requires SteadyRun(rnd, ws, es, spec, load)
    ensures Tuned(TuningOf(spec)) && Trajectory(rnd, TuningOf(spec), load, Counts(ws))
  {
    SingleMetricIsTuned(spec);
    var counts := Counts(ws);
    forall j | 0 <= j < |ws| - 1 ensures StepsByNext(rnd, TuningOf(spec), load, counts[j], counts[j + 1]) {
      StepOfRun(rnd, ws, es, spec, load, j);
    }
    IsTrajectory(rnd, TuningOf(spec), load, counts);
  }

  /**
   A steady run settles exactly when the load has no gap: without one, every count from
   round 2 * (max - min) on is the same and satisfied; with one, no round keeps the count.
   */
  lemma SteadyRunSettlesIff(rnd: Rounding, ws: seq<World>, es: seq<Env>, spec: ShpaSpec, load: int, j: nat)
    requires SteadyRun(rnd, ws, es, spec, load) && j + 1 < |ws|
    ensures HasGap(TuningOf(spec), load) ==> ws[j + 1].scale.spec != ws[j].scale.spec
    ensures !HasGap(TuningOf(spec), load) && j >= 2 * (spec.maxReplicas - spec.minReplicas) ==>
              ws[j + 1].scale.spec == ws[j].scale.spec && Satisfied(TuningOf(spec), load, ws[j].scale.spec)
  {
    RunFollowsDynamics(rnd, ws, es, spec, load);
    TrajectorySettlesIff(rnd, TuningOf(spec), load, Counts(ws), j);
  }

  /**
   With the high watermark at least twice the low one a steady run never turns round, moves
   strictly until it stops, and stops satisfied within max - min rounds.
   */
  lemma WideRunMovesOneWay(rnd: Rounding, ws: seq<World>, es: seq<Env>, spec: ShpaSpec, load: int, j: nat)
    requires SteadyRun(rnd, ws, es, spec, load) && j + 1 < |ws|
    requires Wide(TuningOf(spec))
    ensures var t, a, c := TuningOf(spec), ws[j].scale.spec, ws[j + 1].scale.spec;
            && (!Below(t.band, load, ws[0].scale.spec) ==> a <= c)
            && (!Above(t.band, load, ws[0].scale.spec) ==> c <= a)
            && (a == c <==> Satisfied(t, load, a))
            && (j >= spec.maxReplicas - spec.minReplicas ==> a == c)
  {
    RunFollowsDynamics(rnd, ws, es, spec, load);
    WideTrajectoryMovesOneWay(rnd, TuningOf(spec), load, Counts(ws), j);
  }

  /** An environment in which everything works and n ready pods share the load at time t. */
  function Calm(spec: ShpaSpec, n: int, load: int, t: int): Env {
    var pods := Max(n, 0);
    var reading := Reading(Some(Fleet(spec.target.name, pods)), Some([load]), Some(Shares(pods, load)), t, 0);
    Env(t, t, t, [reading], true, true, true, true, "", true, true)
  }

  lemma CalmShowsLoad(spec: ShpaSpec, n: nat, load: int, t: int)
    requires SingleMetric(spec) && n >= 1
    ensures ShowsLoad(spec, Calm(spec, n, load, t).readings[0], t, n, load)
  {
    KindsDiffer();
    if spec.metrics[0].kind == EXTERNAL {
      FleetIsTolerated(spec.target.name, spec.readinessDelay, t, n);
      assert SumOf([load]) == SumOf([load][..0]) + load;
    } else {
      FleetShowsLoad(spec, spec.metrics[0].resource.value, n, load);
    }
  }

  /** A world between rounds: nothing pending, and the last rescale recorded by time t. */
  ghost predicate Resting(w: World, spec: ShpaSpec, t: int) {
    && w.shpa.Some? && SpecOf(w) == spec && !w.shpa.value.deleting && FINALIZER in w.shpa.value.finalizers
    && w.scale.status == w.scale.spec
    && LastScale(w).Some? && LastScale(w).value <= t
  }

  function Wait(spec: ShpaSpec): int { spec.upscaleWindow + spec.downscaleWindow }

  lemma CalmIsSteady(w: World, spec: ShpaSpec, load: int, before: int, t: int)
    requires SingleMetric(spec) && InRange(TuningOf(spec), w.scale.spec)
    requires Resting(w, spec, before) && t == before + Wait(spec)
    ensures Steady(w, Calm(spec, w.scale.spec, load, t), spec, load)
    ensures ClockInOrder(w, Calm(spec, w.scale.spec, load, t))
  {
    CalmShowsLoad(spec, w.scale.spec, load, t);
  }

  /** The scale catches up. */
  function CaughtUp(w: World): World { w.(scale := Scale(w.scale.spec, w.scale.spec)) }

  lemma RestsAgain(rnd: Rounding, w: World, spec: ShpaSpec, load: int, e: Env)
    requires SingleMetric(spec) && Steady(w, e, spec, load) && ClockInOrder(w, e)
    requires FINALIZER in w.shpa.value.finalizers
    ensures var p := Reconcile(rnd, w, e).world;
            EnvironmentMove(p, CaughtUp(p)) && Resting(CaughtUp(p), spec, e.lastStamp)
  {
    SteadyReaches(w, e, spec, load);
    VerdictTakesEffect(rnd, w, e);
    FinalizersOnly(w, e);
  }

  function Start(spec: ShpaSpec, n: int): World {
    World(Some(ShpaObject(spec, ShpaStatus(None, Some(0), n, n, [], []), [FINALIZER], false)), Scale(n, n), [])
  }

  lemma CalmRound(rnd: Rounding, spec: ShpaSpec, load: int, w: World, before: int, t: int)
    requires SingleMetric(spec) && InRange(TuningOf(spec), w.scale.spec) && Resting(w, spec, before)
    requires t == before + Wait(spec)
    ensures var e := Calm(spec, w.scale.spec, load, t);
            var p := Reconcile(rnd, w, e).world;
            && Steady(w, e, spec, load) && Ticks(e) && EnvironmentMove(p, CaughtUp(p))
            && Resting(CaughtUp(p), spec, t) && InRange(TuningOf(spec), p.scale.spec)
  {
    CalmIsSteady(w, spec, load, before, t);
    RestsAgain(rnd, w, spec, load, Calm(spec, w.scale.spec, load, t));
    SteadyStep(rnd, w, Calm(spec, w.scale.spec, load, t), spec, load);
  }

  /** The environment hands on the scale as reconcile e left it, to a world resting since its stamp. */
  ghost predicate HandsOn(rnd: Rounding, w: World, e: Env, next: World, spec: ShpaSpec) {
    && EnvironmentMove(Reconcile(rnd, w, e).world, next)
    && next.scale.spec == Reconcile(rnd, w, e).world.scale.spec
    && Resting(next, spec, e.lastStamp)
  }

  lemma CalmRoundHandsOn(rnd: Rounding, spec: ShpaSpec, load: int, w: World, before: int)
    returns (e: Env, next: World)
    requires SingleMetric(spec) && InRange(TuningOf(spec), w.scale.spec) && Resting(w, spec, before)
    ensures Steady(w, e, spec, load) && Ticks(e) && ClockInOrder(w, e) && before <= e.now
    ensures HandsOn(rnd, w, e, next, spec) && InRange(TuningOf(spec), next.scale.spec)
  {
    var t := before + Wait(spec);
    e := Calm(spec, w.scale.spec, load, t);
    CalmIsSteady(w, spec, load, before, t);
    CalmRound(rnd, spec, load, w, before, t);
    next := CaughtUp(Reconcile(rnd, w, e).world);
  }

  lemma AppendIsRun(rnd: Rounding, ws: seq<World>, es: seq<Env>, w: World, e: Env, spec: ShpaSpec)
    requires IsRun(rnd, ws, es) && Ticks(e)
    requires HandsOn(rnd, ws[|ws| - 1], es[|ws| - 1], w, spec) && es[|ws| - 1].lastStamp <= e.now
    ensures IsRun(rnd, ws + [w], es + [e])
    ensures (forall i :: 0 <= i < |ws| - 1 ==> Handed(rnd, ws, es, i)) ==>
              forall i :: 0 <= i < |ws| ==> Handed(rnd, ws + [w], es + [e], i)
  {
    var ws', es' := ws + [w], es + [e];
    forall i | 0 <= i < |ws|
      ensures Linked(rnd, ws', es', i)
      ensures (i < |ws| - 1 ==> Handed(rnd, ws, es, i)) ==> Handed(rnd, ws', es', i)
    {
      assert i < |ws| - 1 ==> Linked(rnd, ws, es, i);
    }
  }

  lemma AppendIsSteady(ws: seq<World>, es: seq<Env>, w: World, e: Env, spec: ShpaSpec, load: int)
    requires SingleMetric(spec) && |ws| == |es| && Steady(w, e, spec, load)
    requires forall i :: 0 <= i < |ws| ==> Steady(ws[i], es[i], spec, load)
    ensures forall i :: 0 <= i < |ws| + 1 ==> Steady((ws + [w])[i], (es + [e])[i], spec, load)
  {
  }

  /** A steady run, and the world in which it can go on. */
  ghost predicate GoesOn(rnd: Rounding, ws: seq<World>, es: seq<Env>, next: World, spec: ShpaSpec, load: int) {
    && SteadyRun(rnd, ws, es, spec, load) && IsRun(rnd, ws, es)
    && HandsOn(rnd, ws[|ws| - 1], es[|ws| - 1], next, spec)
    && InRange(TuningOf(spec), next.scale.spec)
  }

  lemma FirstRound(rnd: Rounding, spec: ShpaSpec, load: int, n: int) returns (w: World, e: Env, next: World)
    requires SingleMetric(spec) && InRange(TuningOf(spec), n)
    ensures w.scale.spec == n && GoesOn(rnd, [w], [e], next, spec, load)
  {
    w := Start(spec, n);
    e, next := CalmRoundHandsOn(rnd, spec, load, w, 0);
  }

  lemma OneMoreRound(rnd: Rounding, ws: seq<World>, es: seq<Env>, w: World, spec: ShpaSpec, load: int)
    returns (e: Env, next: World)
    requires GoesOn(rnd, ws, es, w, spec, load)
    ensures GoesOn(rnd, ws + [w], es + [e], next, spec, load)
  {
    e, next := CalmRoundHandsOn(rnd, spec, load, w, es[|ws| - 1].lastStamp);
    AppendIsRun(rnd, ws, es, w, e, spec);
    AppendIsSteady(ws, es, w, e, spec, load);
  }

  /** Such runs exist: from every count in the range, for every load and of every length. */
  lemma {:induction false} SteadyRunsExist(rnd: Rounding, spec: ShpaSpec, load: int, n: int, length: nat)
    returns (ws: seq<World>, es: seq<Env>, next: World)
    requires SingleMetric(spec) && InRange(TuningOf(spec), n) && length >= 1
    ensures |ws| == |es| == length && ws[0].scale.spec == n
    ensures SteadyRun(rnd, ws, es, spec, load) && IsRun(rnd, ws, es) && GoesOn(rnd, ws, es, next, spec, load)
    decreases length
  {
    if length == 1 {
      var w, e;
      w, e, next := FirstRound(rnd, spec, load, n);
      ws, es := [w], [e];
    } else {
      var w, e;
      ws, es, w := SteadyRunsExist(rnd, spec, load, n, length - 1);
      e, next := OneMoreRound(rnd, ws, es, w, spec, load);
      ws, es := ws + [w], es + [e];
    }
  }
}
