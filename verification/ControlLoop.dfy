/**
 One reconcile as a function from the stored state and what the environment answers to the
 state it leaves (controllers/shpa_controller.go:175-470, controllers/finalizer.go).
 Controller.dfy has the program's own methods and shows that they compute this function.
 */
module ControlLoop {
  import opened Wrappers
  import opened Limits
  import opened Conditions
  import opened Normalization
  import opened StringList
  import opened Api
  import opened Calculator

  const FINALIZER := "finalizer.dbisshpa.com"
  const SYNC_PERIOD := 15
  const ERROR_PERIOD := 1

  datatype Scale = Scale(spec: int, status: int)

  datatype ShpaObject = ShpaObject(spec: ShpaSpec, status: ShpaStatus, finalizers: seq<string>, deleting: bool)

  /** What the API server holds, with the log of the values sent to the scale subresource. */
  datatype World = World(shpa: Option<ShpaObject>, scale: Scale, writes: seq<int>)

  /**
   What the environment decides during one reconcile: the clock, when conditions are set
   and the gate is passed and when the status is stamped, the readings, and the writes
   that go through.
   */
  datatype Env = Env(now: int, firstStamp: int, lastStamp: int, readings: seq<Reading>, scaleFound: bool,
                     finalizerSaved: bool, defaultsSaved: bool, scaleSaved: bool, scaleError: string,
                     firstStatusSaved: bool, lastStatusSaved: bool)

  datatype Reply = Done | RequeueNow | RequeueAfter(seconds: int) | Retry | Crashed

  datatype Reconciled = Reconciled(world: World, reply: Reply)

  const NO_READING := Reading(None, None, None, ZERO_TIME, 0)

  function ReadingAt(readings: seq<Reading>, i: nat): Reading {
    if i < |readings| then readings[i] else NO_READING
  }

  function Say(st: ShpaStatus, kind: ConditionType, status: ConditionStatus, reason: Reason, message: Message,
               now: int): ShpaStatus {
    st.(conditions := Put(st.conditions, Call(kind, status, reason, message, now)))
  }

  /** setStatus: everything not named is dropped. */
  function SetStatus(st: ShpaStatus, current: int, desired: int, metrics: seq<int>, rescale: bool,
                     now: int): ShpaStatus {
    ShpaStatus(None, if rescale then Some(now) else st.lastScaleTime, current, desired, metrics, st.conditions)
  }

  /** A status update, skipped when there is nothing to change. */
  function Save(w: World, original: ShpaStatus, st: ShpaStatus, saved: bool): World
    requires w.shpa.Some?
  {
    if original == st || !saved then w else w.(shpa := Some(w.shpa.value.(status := st)))
  }

  function SaveFails(original: ShpaStatus, st: ShpaStatus, saved: bool): bool { original != st && !saved }

  function CanScale(backoffUp: bool, backoffDown: bool, current: int, desired: int): bool {
    desired != current && ((!backoffUp && desired > current) || (!backoffDown && desired < current))
  }

  datatype Gate = Gate(status: ShpaStatus, open: bool)

  /** shouldScale: the conditions it sets and its answer. */
  function ShouldScale(spec: ShpaSpec, st: ShpaStatus, current: int, desired: int, timestamp: int, now: int): Gate {
    if st.lastScaleTime.None? then Gate(st, true)
    else
      var last := st.lastScaleTime.value;
      var backoffDown := last + spec.downscaleWindow - timestamp > 0;
      var st1 := if backoffDown then Say(st, AbleToScale, False, BackoffDownscale, Plain, now) else st;
      var backoffUp := last + spec.upscaleWindow - timestamp > 0;
      var st2 :=
        if backoffUp then Say(st1, AbleToScale, False, if backoffDown then BackoffBoth else BackoffUpscale, Plain, now)
        else st1;
      Gate(st2, CanScale(backoffUp, backoffDown, current, desired))
  }

  function FactorsOf(spec: ShpaSpec): Factors { Factors(spec.scaleUpFactor, spec.scaleDownFactor) }

  datatype Normal = Normal(status: ShpaStatus, count: int)

  function Normalize(rnd: Rounding, spec: ShpaSpec, st: ShpaStatus, current: int, desired: int, now: int): Normal {
    var n := Convert(rnd, FactorsOf(spec), current, desired, spec.minReplicas, spec.maxReplicas);
    Normal(Say(st, ScalingLimited, if n.count == desired then False else True, n.reason, Plain, now), n.count)
  }

  ghost function Outcomes(spec: ShpaSpec, current: int, readings: seq<Reading>, now: int, n: nat): (os: seq<Outcome>)
    requires n <= |spec.metrics|
    ensures |os| == n
    ensures forall i :: 0 <= i < n ==>
              os[i] == MetricOutcome(spec, spec.metrics[i], current, ReadingAt(readings, i), now)
  {
    if n == 0 then []
    else Outcomes(spec, current, readings, now, n - 1)
         + [MetricOutcome(spec, spec.metrics[n - 1], current, ReadingAt(readings, n - 1), now)]
  }

  ghost function Recommend(spec: ShpaSpec, current: int, e: Env): Recommendation {
    Tally(Outcomes(spec, current, e.readings, e.now, |spec.metrics|))
  }

  datatype Verdict = Decided(rescale: bool, desired: int) | NoMetrics | Panicked

  datatype Computed = Computed(status: ShpaStatus, verdict: Verdict)

  /** The default branch of computeReplicas, once the metrics have been tallied. */
  function FollowMetrics(rnd: Rounding, spec: ShpaSpec, st: ShpaStatus, current: int, r: Recommendation,
                         now: int): Computed
    requires r.Recommended?
  {
    var st1 := Say(st, ScalingActive, True, ValidMetricFound, WithText(r.metric), now);
    var desired := if r.replicas > 0 then r.replicas else 0;
    var timestamp := if r.replicas > 0 then r.timestamp else now;
    var n := Normalize(rnd, spec, st1, current, desired, now);
    var gate := ShouldScale(spec, n.status, current, n.count, timestamp, now);
    Computed(gate.status, Decided(gate.open, n.count))
  }

  ghost function ComputeReplicas(rnd: Rounding, spec: ShpaSpec, st: ShpaStatus, scale: Scale, e: Env): Computed {
    if scale.spec == 0 then
      Computed(Say(st, ScalingActive, False, ScalingDisabled, Plain, e.now), Decided(false, 0))
    else if scale.status > spec.maxReplicas then Computed(st, Decided(true, spec.maxReplicas))
    else if scale.status < spec.minReplicas then Computed(st, Decided(true, spec.minReplicas))
    else if scale.status == 0 then Computed(st, Decided(true, 1))
    else match Recommend(spec, scale.status, e)
      case NoAnswer => Computed(st, NoMetrics)
      case Crash => Computed(st, Panicked)
      case Recommended(_, _, _) =>
        FollowMetrics(rnd, spec, st, scale.status, Recommend(spec, scale.status, e), e.now)
  }

  datatype Rescaled = Rescaled(world: World, status: ShpaStatus, failed: bool)

  /** rescaleReplicas: the state and the status in hand it leaves, and whether it reports an error. */
  function RescaleReplicas(w: World, obj: ShpaObject, st: ShpaStatus, desired: int, e: Env): Rescaled
    requires w.shpa.Some?
  {
    var original, current, metrics := obj.status, w.scale.status, obj.status.currentMetrics;
    var ready := Say(st, AbleToScale, True, ReadyForScale, Plain, e.now);
    if obj.spec.dryRun then
      var st1 := SetStatus(ready, current, desired, metrics, true, e.firstStamp);
      Rescaled(Save(w, original, st1, e.firstStatusSaved), st1, SaveFails(original, st1, e.firstStatusSaved))
    else if !e.scaleSaved then
      var st1 := Say(ready, AbleToScale, False, FailedUpdateScale, WithText(e.scaleError), e.now);
      var st2 := SetStatus(st1, current, st1.desiredReplicas, st1.currentMetrics, false, e.firstStamp);
      Rescaled(Save(w.(writes := w.writes + [desired]), original, st2, e.firstStatusSaved), st2, true)
    else
      Rescaled(w.(scale := w.scale.(spec := desired), writes := w.writes + [desired]),
               Say(ready, AbleToScale, True, SucceededRescale, WithCount(desired), e.now), false)
  }

  /** And what reconcileSHPA does after it: an error ends the round quietly. */
  function Rescale(w: World, obj: ShpaObject, st: ShpaStatus, desired: int, e: Env): Reconciled
    requires w.shpa.Some?
  {
    var r := RescaleReplicas(w, obj, st, desired, e);
    if r.failed then Reconciled(r.world, RequeueAfter(SYNC_PERIOD))
    else
      var st1 := SetStatus(r.status, w.scale.status, desired, obj.status.currentMetrics, true, e.lastStamp);
      Finish(r.world, obj, st1, e)
  }

  /** The last status update of reconcileSHPA, whose error is the only one that shortens the period. */
  function Finish(w: World, obj: ShpaObject, st: ShpaStatus, e: Env): Reconciled
    requires w.shpa.Some?
  {
    Reconciled(Save(w, obj.status, st, e.lastStatusSaved),
               RequeueAfter(if SaveFails(obj.status, st, e.lastStatusSaved) then ERROR_PERIOD else SYNC_PERIOD))
  }

  ghost function ReconcileShpa(rnd: Rounding, w: World, obj: ShpaObject, e: Env): Reconciled
    requires w.shpa.Some?
  {
    if !e.scaleFound then Reconciled(w, RequeueAfter(ERROR_PERIOD))
    else
      var st := Say(obj.status, AbleToScale, True, SucceededGetScale, Plain, e.now);
      var c := ComputeReplicas(rnd, obj.spec, st, w.scale, e);
      match c.verdict
      case Panicked => Reconciled(w, RequeueAfter(SYNC_PERIOD))
      case NoMetrics => Reconciled(Save(w, obj.status, c.status, e.firstStatusSaved), RequeueAfter(SYNC_PERIOD))
      case Decided(rescale, desired) =>
        if rescale then Rescale(w, obj, c.status, desired, e)
        else
          var current := w.scale.status;
          Finish(w, obj, SetStatus(c.status, current, current, obj.status.currentMetrics, false, e.lastStamp), e)
  }

  /** handleFinalizer: the state it leaves, the object in hand, and the reply if it stops there. */
  datatype FinalizerStep = FinalizerStep(world: World, obj: ShpaObject, stop: Option<Reply>)

  /** Update of the object itself; one that is being deleted goes with its last finalizer. */
  function Update(w: World, obj: ShpaObject): World {
    w.(shpa := if obj.deleting && obj.finalizers == [] then None else Some(obj))
  }

  ghost function HandleFinalizer(w: World, obj: ShpaObject, e: Env): FinalizerStep {
    if obj.deleting then
      if FINALIZER !in obj.finalizers then FinalizerStep(w, obj, Some(Done))
      else if SlicesOutOfRange(obj.finalizers, FINALIZER) then FinalizerStep(w, obj, Some(Crashed))
      else
        var o := obj.(finalizers := Survivors(obj.finalizers, FINALIZER));
        if e.finalizerSaved then FinalizerStep(Update(w, o), o, Some(Done)) else FinalizerStep(w, o, Some(Retry))
    else if FINALIZER in obj.finalizers then FinalizerStep(w, obj, None)
    else
      var o := obj.(finalizers := obj.finalizers + [FINALIZER]);
      if e.finalizerSaved then FinalizerStep(Update(w, o), o, None) else FinalizerStep(w, o, Some(Done))
  }

  function DryRunNoted(obj: ShpaObject, now: int): ShpaObject {
    obj.(status :=
      if obj.spec.dryRun then Say(obj.status, DryRunMode, True, DryRunEnabled, Plain, now)
      else Say(obj.status, DryRunMode, False, DryRunDisabled, Plain, now))
  }

  ghost function Reconcile(rnd: Rounding, w: World, e: Env): Reconciled {
    if w.shpa.None? then Reconciled(w, Done)
    else
      var f := HandleFinalizer(w, w.shpa.value, e);
      if f.stop.Some? then Reconciled(f.world, f.stop.value)
      else if !IsDefaultSHPA(f.obj.spec) then
        if e.defaultsSaved then Reconciled(Update(f.world, f.obj.(spec := Defaulted(f.obj.spec))), RequeueNow)
        else Reconciled(f.world, Retry)
      else if CheckSHPAValidity(f.obj.spec).Some? then
        var error := CheckSHPAValidity(f.obj.spec).value;
        var st := Say(f.obj.status, AbleToScale, False, FailedSpecCheck, WithText(error.Text()), e.now);
        Reconciled(Save(f.world, f.obj.status, st, e.lastStatusSaved),
                   if SaveFails(f.obj.status, st, e.lastStatusSaved) then Retry else Done)
      else ReconcileShpa(rnd, f.world, DryRunNoted(f.obj, e.now), e)
  }
}
