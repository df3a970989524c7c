/**
 The controller's own methods, on the objects they work on: the SHPA in hand, edited step
 by step, the scale that was fetched, and the API server. Each is shown to compute its part
 of the function in ControlLoop.dfy, so that what is proved of that function, and of runs
 of it, holds of the program.
 */
module Controller {
  import opened Wrappers
  import opened Limits
  import opened Conditions
  import opened Normalization
  import opened StringList
  import opened Api
  import opened Calculator
  import opened ControlLoop

  /** The SHPA object a reconcile has fetched. */
  class Shpa {
    var spec: ShpaSpec
    var status: ShpaStatus
    var finalizers: seq<string>
    var deleting: bool

    function Value(): ShpaObject
      reads this
    {
      ShpaObject(spec, status, finalizers, deleting)
    }

    constructor (o: ShpaObject)
      ensures Value() == o
    {
      spec, status, finalizers, deleting := o.spec, o.status, o.finalizers, o.deleting;
    }

    method SetCondition(kind: ConditionType, s: ConditionStatus, reason: Reason, message: Message, now: int)
      modifies this`status
      ensures status == Say(old(status), kind, s, reason, message, now)
    {
      var list := status.conditions;
      var backing := new Condition[|list|](i requires 0 <= i < |list| => list[i]);
      assert backing[..|list|] == list;
      var edited, length := SetConditionInList(backing, |list|, Call(kind, s, reason, message, now));
      status := status.(conditions := edited[..length]);
    }

    /** The status is rebuilt from its arguments, the recorded time and the conditions. */
    method ReplaceStatus(current: int, desired: int, metrics: seq<int>, rescale: bool, now: int)
      modifies this`status
      ensures status == SetStatus(old(status), current, desired, metrics, rescale, now)
    {
      status := ShpaStatus(None, status.lastScaleTime, current, desired, metrics, status.conditions);
      if rescale {
        status := status.(lastScaleTime := Some(now));
      }
    }

    /** A defaulted copy, filled in field by field; the original is left alone. */
    method DefaultSHPA() returns (d: Shpa)
      ensures fresh(d)
      ensures d.Value() == Value().(spec := Defaulted(spec))
    {
      d := new Shpa(Value());
      d.DefaultReplicasAndAlgorithm();
      d.DefaultLimitsAndWindows();
    }

    method DefaultReplicasAndAlgorithm()
      modifies this`spec
      ensures var full := Defaulted(old(spec));
              spec == old(spec).(minReplicas := full.minReplicas, algorithm := full.algorithm,
                                 tolerance := full.tolerance)
    {
      if spec.minReplicas == 0 {
        spec := spec.(minReplicas := DEFAULT_MIN_REPLICAS);
      }
      if spec.algorithm == "" {
        spec := spec.(algorithm := DEFAULT_ALGORITHM);
      }
      if spec.tolerance == 0 {
        spec := spec.(tolerance := DEFAULT_TOLERANCE);
      }
    }

    method DefaultLimitsAndWindows()
      modifies this`spec
      ensures var full := Defaulted(old(spec));
              spec == old(spec).(scaleUpFactor := full.scaleUpFactor, scaleDownFactor := full.scaleDownFactor,
                                 downscaleWindow := full.downscaleWindow, upscaleWindow := full.upscaleWindow)
    {
      if spec.scaleUpFactor == 0 {
        spec := spec.(scaleUpFactor := DEFAULT_SCALE_UP_FACTOR);
      }
      if spec.scaleDownFactor == 0 {
        spec := spec.(scaleDownFactor := DEFAULT_SCALE_DOWN_FACTOR);
      }
      if spec.downscaleWindow == 0 {
        spec := spec.(downscaleWindow := DEFAULT_DOWNSCALE_WINDOW);
      }
      if spec.upscaleWindow == 0 {
        spec := spec.(upscaleWindow := DEFAULT_UPSCALE_WINDOW);
      }
    }
  }

  /** The scale subresource as fetched. */
  class ScaleObject {
    var spec: int
    var status: int

    constructor (s: Scale)
      ensures spec == s.spec && status == s.status
    {
      spec, status := s.spec, s.status;
    }
  }

  /** The API server; whether a write is accepted is up to the environment. */
  class Cluster {
    var shpa: Option<ShpaObject>
    var scale: Scale
    var writes: seq<int>

    function State(): World
      reads this
    {
      World(shpa, scale, writes)
    }

    constructor (w: World)
      ensures State() == w
    {
      shpa, scale, writes := w.shpa, w.scale, w.writes;
    }

    method UpdateObject(o: Shpa, accepted: bool) returns (ok: bool)
      modifies this
      ensures ok == accepted
      ensures State() == if accepted then Update(old(State()), o.Value()) else old(State())
    {
      ok := accepted;
      if accepted {
        shpa := if o.deleting && o.finalizers == [] then None else Some(o.Value());
      }
    }

    /** updateStatusIfNeeded */
    method UpdateStatusIfNeeded(original: ShpaStatus, o: Shpa, accepted: bool) returns (ok: bool)
      requires shpa.Some?
      modifies this
      ensures ok == !SaveFails(original, o.status, accepted)
      ensures State() == Save(old(State()), original, o.status, accepted)
    {
      if original == o.status {
        return true;
      }
      if accepted {
        shpa := Some(shpa.value.(status := o.status));
      }
      return accepted;
    }

    method UpdateScale(s: ScaleObject, accepted: bool) returns (ok: bool)
      modifies this
      ensures ok == accepted
      ensures shpa == old(shpa) && writes == old(writes) + [s.spec]
      ensures scale == if accepted then old(scale).(spec := s.spec) else old(scale)
    {
      writes := writes + [s.spec];
      ok := accepted;
      if accepted {
        scale := scale.(spec := s.spec);
      }
    }
  }

  lemma OutcomesPrefix(spec: ShpaSpec, current: int, readings: seq<Reading>, now: int, k: nat, n: nat)
    requires k <= n <= |spec.metrics|
    ensures Outcomes(spec, current, readings, now, n)[..k] == Outcomes(spec, current, readings, now, k)
  {
  }

  lemma OneMoreOutcome(spec: ShpaSpec, current: int, readings: seq<Reading>, now: int, n: nat)
    requires n < |spec.metrics|
    ensures Tally(Outcomes(spec, current, readings, now, n + 1))
            == Fold(Tally(Outcomes(spec, current, readings, now, n)),
                    MetricOutcome(spec, spec.metrics[n], current, ReadingAt(readings, n), now))
  {
  }

  /** Once a metric has failed the rest of the list makes no difference. */
  lemma FailureSticks(spec: ShpaSpec, current: int, readings: seq<Reading>, now: int, k: nat)
    requires k <= |spec.metrics|
    requires !Tally(Outcomes(spec, current, readings, now, k)).Recommended?
    ensures Tally(Outcomes(spec, current, readings, now, |spec.metrics|))
            == Tally(Outcomes(spec, current, readings, now, k))
  {
    OutcomesPrefix(spec, current, readings, now, k, |spec.metrics|);
    TallySticks(Outcomes(spec, current, readings, now, |spec.metrics|), k);
  }

  class SHPAReconciler {
    const rnd: Rounding
    const cluster: Cluster

    constructor (rnd: Rounding, cluster: Cluster)
      ensures this.rnd == rnd && this.cluster == cluster
    {
      this.rnd, this.cluster := rnd, cluster;
    }

    /** Some reply if the reconcile stops here. */
    method HandleFinalizer(shpa: Shpa, e: Env) returns (stop: Option<Reply>)
      modifies shpa`finalizers, cluster
      ensures var f := ControlLoop.HandleFinalizer(old(cluster.State()), old(shpa.Value()), e);
              && stop == f.stop && cluster.State() == f.world && (stop.None? ==> shpa.Value() == f.obj)
    {
      var has := ContainsString(shpa.finalizers, FINALIZER);
      if shpa.deleting {
        if has {
          var list := shpa.finalizers;
          var backing := new string[|list|](i requires 0 <= i < |list| => list[i]);
          assert backing[..] == list;
          var length := RemoveString(backing, FINALIZER);
          if length.None? {
            return Some(Crashed);
          }
          shpa.finalizers := backing[..length.value];
          var ok := cluster.UpdateObject(shpa, e.finalizerSaved);
          if !ok {
            return Some(Retry);
          }
        }
        return Some(Done);
      }
      if !has {
        shpa.finalizers := shpa.finalizers + [FINALIZER];
        var ok := cluster.UpdateObject(shpa, e.finalizerSaved);
        if !ok {
          return Some(Done);
        }
      }
      return None;
    }

    method NormalizeDesiredReplicas(shpa: Shpa, current: int, desired: int, now: int) returns (count: int)
      modifies shpa`status
      ensures var n := Normalize(rnd, shpa.spec, old(shpa.status), current, desired, now);
              shpa.status == n.status && count == n.count
    {
      var n := Convert(rnd, FactorsOf(shpa.spec), current, desired, shpa.spec.minReplicas, shpa.spec.maxReplicas);
      if n.count == desired {
        shpa.SetCondition(ScalingLimited, False, n.reason, Plain, now);
      } else {
        shpa.SetCondition(ScalingLimited, True, n.reason, Plain, now);
      }
      return n.count;
    }

    method ShouldScale(shpa: Shpa, current: int, desired: int, timestamp: int, now: int) returns (ok: bool)
      modifies shpa`status
      ensures var gate := ControlLoop.ShouldScale(shpa.spec, old(shpa.status), current, desired, timestamp, now);
              shpa.status == gate.status && ok == gate.open
    {
      if shpa.status.lastScaleTime.None? {
        return true;
      }
      var backoffDown, backoffUp := false, false;
      var downscaleCountdown := shpa.status.lastScaleTime.value + shpa.spec.downscaleWindow - timestamp;
      if downscaleCountdown > 0 {
        shpa.SetCondition(AbleToScale, False, BackoffDownscale, Plain, now);
        backoffDown := true;
      }
      var upscaleCountdown := shpa.status.lastScaleTime.value + shpa.spec.upscaleWindow - timestamp;
      if upscaleCountdown > 0 {
        backoffUp := true;
        if backoffDown {
          shpa.SetCondition(AbleToScale, False, BackoffBoth, Plain, now);
        } else {
          shpa.SetCondition(AbleToScale, False, BackoffUpscale, Plain, now);
        }
      }
      return CanScale(backoffUp, backoffDown, current, desired);
    }

    /** One metric, by its type; following a nil source or selector is a fault. */
    method ComputeMetric(spec: ShpaSpec, metricSpec: MetricSpec, current: int, reading: Reading,
                         now: int) returns (o: Outcome)
      ensures o == MetricOutcome(spec, metricSpec, current, reading, now)
    {
      if metricSpec.external.None? && metricSpec.resource.None? {
        return Skipped;
      }
      if metricSpec.kind == EXTERNAL {
        if metricSpec.external.None? {
          return Faulted;
        }
        o := GetExternalMetricReplicas(spec, metricSpec.external.value, current, reading, now);
        if o.Proposed? && metricSpec.external.value.selector.None? {
          return Faulted;
        }
      } else if metricSpec.kind == RESOURCE {
        if metricSpec.resource.None? {
          return Faulted;
        }
        o := GetResourceReplicas(spec, metricSpec.resource.value, current, reading);
      } else {
        return Rejected;
      }
    }

    method ComputeReplicasForMetrics(shpa: Shpa, current: int, e: Env) returns (r: Recommendation)
      modifies shpa`status
      ensures r == Recommend(shpa.spec, current, e)
      ensures r.Recommended? ==>
                shpa.status == Say(old(shpa.status), ScalingActive, True, ValidMetricFound, WithText(r.metric), e.now)
      ensures !r.Recommended? ==> shpa.status == old(shpa.status)
    {
      var spec := shpa.spec;
      var replicas, timestamp, metric := 0, ZERO_TIME, "";
      for i := 0 to |spec.metrics|
        invariant shpa.status == old(shpa.status)
        invariant Tally(Outcomes(spec, current, e.readings, e.now, i)) == Recommended(replicas, timestamp, metric)
      {
        OneMoreOutcome(spec, current, e.readings, e.now, i);
        var o := ComputeMetric(spec, spec.metrics[i], current, ReadingAt(e.readings, i), e.now);
        if o.Skipped? {
          continue;
        }
        if !o.Proposed? {
          FailureSticks(spec, current, e.readings, e.now, i + 1);
          return if o.Faulted? then Crash else NoAnswer;
        }
        if replicas == 0 || o.count > replicas {
          timestamp := o.timestamp;
          replicas := o.count;
          metric := o.name;
        }
      }
      shpa.SetCondition(ScalingActive, True, ValidMetricFound, WithText(metric), e.now);
      return Recommended(replicas, timestamp, metric);
    }

    /** The branches of computeReplicas; without an answer from the metrics the status is saved here. */
    method ComputeReplicas(shpa: Shpa, scale: ScaleObject, original: ShpaStatus, e: Env) returns (verdict: Verdict)
      requires cluster.shpa.Some?
      modifies shpa`status, cluster
      ensures var c :=
                ControlLoop.ComputeReplicas(rnd, shpa.spec, old(shpa.status), Scale(scale.spec, scale.status), e);
              && verdict == c.verdict && shpa.status == c.status
              && cluster.State() == (if verdict.NoMetrics?
                                     then Save(old(cluster.State()), original, c.status, e.firstStatusSaved)
                                     else old(cluster.State()))
    {
      var current := scale.status;
      if scale.spec == 0 {
        shpa.SetCondition(ScalingActive, False, ScalingDisabled, Plain, e.now);
        return Decided(false, 0);
      } else if current > shpa.spec.maxReplicas {
        return Decided(true, shpa.spec.maxReplicas);
      } else if current < shpa.spec.minReplicas {
        return Decided(true, shpa.spec.minReplicas);
      } else if current == 0 {
        return Decided(true, 1);
      }
      var r := ComputeReplicasForMetrics(shpa, current, e);
      if r.Crash? {
        return Panicked;
      }
      if r.NoAnswer? {
        var _ := cluster.UpdateStatusIfNeeded(original, shpa, e.firstStatusSaved);
        return NoMetrics;
      }
      var desired, timestamp := 0, e.now;
      if r.replicas > desired {
        desired := r.replicas;
        timestamp := r.timestamp;
      }
      desired := NormalizeDesiredReplicas(shpa, current, desired, e.now);
      var rescale := ShouldScale(shpa, current, desired, timestamp, e.now);
      return Decided(rescale, desired);
    }

    method RescaleReplicas(shpa: Shpa, scale: ScaleObject, desired: int, metrics: seq<int>, ghost obj: ShpaObject,
                           original: ShpaStatus, e: Env) returns (failed: bool)
      requires cluster.shpa.Some? && cluster.scale == Scale(scale.spec, scale.status)
      requires original == obj.status && metrics == original.currentMetrics && shpa.spec == obj.spec
      modifies shpa`status, scale, cluster
      ensures var r := ControlLoop.RescaleReplicas(old(cluster.State()), obj, old(shpa.status), desired, e);
              && cluster.State() == r.world && failed == r.failed && shpa.status == r.status
              && cluster.shpa.Some? && scale.status == old(scale.status)
    {
      shpa.SetCondition(AbleToScale, True, ReadyForScale, Plain, e.now);
      if shpa.spec.dryRun {
        shpa.ReplaceStatus(scale.status, desired, metrics, true, e.firstStamp);
        var ok := cluster.UpdateStatusIfNeeded(original, shpa, e.firstStatusSaved);
        return !ok;
      }
      scale.spec := desired;
      var ok := cluster.UpdateScale(scale, e.scaleSaved);
      if !ok {
        shpa.SetCondition(AbleToScale, False, FailedUpdateScale, WithText(e.scaleError), e.now);
        shpa.ReplaceStatus(scale.status, shpa.status.desiredReplicas, shpa.status.currentMetrics, false, e.firstStamp);
        var _ := cluster.UpdateStatusIfNeeded(original, shpa, e.firstStatusSaved);
        return true;
      }
      shpa.SetCondition(AbleToScale, True, SucceededRescale, WithCount(desired), e.now);
      return false;
    }

    method ReconcileSHPA(shpa: Shpa, e: Env) returns (reply: Reply)
      requires cluster.shpa.Some?
      modifies shpa`status, cluster
      ensures ReconcileShpa(rnd, old(cluster.State()), old(shpa.Value()), e) == Reconciled(cluster.State(), reply)
    {
      if !e.scaleFound {
        return RequeueAfter(ERROR_PERIOD);
      }
      var currentScale := new ScaleObject(cluster.scale);
      var currentReplicas := currentScale.status;
      ghost var obj := shpa.Value();
      var original := shpa.status;
      shpa.SetCondition(AbleToScale, True, SucceededGetScale, Plain, e.now);
      var metricStatuses := original.currentMetrics;
      var verdict := ComputeReplicas(shpa, currentScale, original, e);
      if !verdict.Decided? {
        return RequeueAfter(SYNC_PERIOD);
      }
      var desired := verdict.desired;
      if verdict.rescale {
        var failed := RescaleReplicas(shpa, currentScale, desired, metricStatuses, obj, original, e);
        if failed {
          return RequeueAfter(SYNC_PERIOD);
        }
      } else {
        desired := currentReplicas;
      }
      shpa.ReplaceStatus(currentReplicas, desired, metricStatuses, verdict.rescale, e.lastStamp);
      var ok := cluster.UpdateStatusIfNeeded(original, shpa, e.lastStatusSaved);
      return RequeueAfter(if ok then SYNC_PERIOD else ERROR_PERIOD);
    }

    /** The whole reconcile is the function that the theorems are about. */
    method Reconcile(e: Env) returns (reply: Reply)
      modifies cluster
      ensures ControlLoop.Reconcile(rnd, old(cluster.State()), e) == Reconciled(cluster.State(), reply)
    {
      if cluster.shpa.None? {
        return Done;
      }
      var instance := new Shpa(cluster.shpa.value);
      var stop := HandleFinalizer(instance, e);
      if stop.Some? {
        return stop.value;
      }
      if !IsDefaultSHPA(instance.spec) {
        var defaulted := instance.DefaultSHPA();
        var ok := cluster.UpdateObject(defaulted, e.defaultsSaved);
        return if ok then RequeueNow else Retry;
      }
      var error := CheckSHPAValidity(instance.spec);
      if error.Some? {
        var original := instance.status;
        instance.SetCondition(AbleToScale, False, FailedSpecCheck, WithText(error.value.Text()), e.now);
        var ok := cluster.UpdateStatusIfNeeded(original, instance, e.lastStatusSaved);
        return if ok then Done else Retry;
      }
      if instance.spec.dryRun {
        instance.SetCondition(DryRunMode, True, DryRunEnabled, Plain, e.now);
      } else {
        instance.SetCondition(DryRunMode, False, DryRunDisabled, Plain, e.now);
      }
      reply := ReconcileSHPA(instance, e);
    }
  }
}
