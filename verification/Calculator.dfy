/**
 From one reading to a proposal, and from the proposals of all metrics to a recommendation
 (algorithm/watermark/waterwark_calculator.go:44-171, controllers/shpa_controller.go:472-544).
 A reading is what the pod lister and the metrics client answer for one metric.
 */
module Calculator {
  import opened Wrappers
  import opened Limits
  import opened Watermark
  import opened Pods
  import opened Api

  datatype Reading = Reading(pods: Option<seq<Pod>>, external: Option<seq<int>>,
                             resource: Option<map<string, int>>, timestamp: int, undefined: int)

  /** Skipped: neither source is set. Faulted: a nil pointer is followed. */
  datatype Outcome = Proposed(count: int, timestamp: int, name: string) | Rejected | Skipped | Faulted

  function BandOf(spec: ShpaSpec, source: MetricSource): Band
    requires source.low.Some? && source.high.Some?
  {
    Band(source.low.value, source.high.value, spec.tolerance)
  }

  function Divisor(spec: ShpaSpec, ready: int): int {
    if spec.algorithm == AVERAGE then ready else 1
  }

  /**
   The proposal for a sum over a divisor. Dividing by zero ready pods gives NaN for a zero
   sum, which is inside every band, and an infinity otherwise.
   */
  function CountFor(b: Band, current: int, ready: int, sum: int, divisor: int, undefined: int): int {
    if divisor > 0 then GetReplicaCount(current, ready, b, Quotient(sum, divisor), undefined)
    else if sum == 0 then current
    else if sum > 0 then undefined
    else Max(undefined, 1)
  }

  function SumOf(values: seq<int>): int {
    if values == [] then 0 else SumOf(values[..|values| - 1]) + values[|values| - 1]
  }

  ghost function ExternalOutcome(spec: ShpaSpec, source: Option<MetricSource>, current: int, r: Reading,
                                 now: int): Outcome {
    if source.None? then Faulted
    else if source.value.low.None? || source.value.high.None? then Rejected
    else if r.pods.None? || r.external.None? then Rejected
    else
      var ready := |ToleratedAt(r.pods.value, spec.target.name, spec.readinessDelay, now)|;
      if ready == 0 then Rejected
      else
        var count := CountFor(BandOf(spec, source.value), current, ready, SumOf(r.external.value),
                              Divisor(spec, ready), r.undefined);
        Proposed(count, r.timestamp, source.value.name)
  }

  ghost function ReadyNames(spec: ShpaSpec, source: MetricSource, pods: seq<Pod>, metrics: map<string,
                            int>): set<string> {
    NamesOf(pods, ReadyPod, spec.target.name, metrics, source.name, spec.readinessDelay)
  }

  /** The metrics left once those of the ignored pods are gone. */
  ghost function Remaining(spec: ShpaSpec, source: MetricSource, pods: seq<Pod>, metrics: map<string,
                           int>): map<string, int> {
    metrics - NamesOf(pods, IgnoredPod, spec.target.name, metrics, source.name, spec.readinessDelay)
  }

  ghost function ResourceOutcome(spec: ShpaSpec, source: Option<MetricSource>, current: int, r: Reading): Outcome {
    if source.None? then Faulted
    else if source.value.low.None? || source.value.high.None? then Rejected
    else if r.pods.None? || r.resource.None? || r.pods.value == [] then Rejected
    else
      var ready := ReadyNames(spec, source.value, r.pods.value, r.resource.value);
      var remaining := Remaining(spec, source.value, r.pods.value, r.resource.value);
      if remaining == map[] then Rejected
      else
        var count := CountFor(BandOf(spec, source.value), current, |ready|, Total(remaining),
                              Divisor(spec, |ready|), r.undefined);
        Proposed(count, r.timestamp, "")
  }

  /** One pass of the metric loop. An external metric's selector is followed for its name. */
  ghost function MetricOutcome(spec: ShpaSpec, m: MetricSpec, current: int, r: Reading, now: int): Outcome {
    if m.external.None? && m.resource.None? then Skipped
    else if m.kind == EXTERNAL then
      var o := ExternalOutcome(spec, m.external, current, r, now);
      if o.Proposed? && m.external.Some? && m.external.value.selector.None? then Faulted else o
    else if m.kind == RESOURCE then ResourceOutcome(spec, m.resource, current, r)
    else Rejected
  }

  method GetExternalMetricReplicas(spec: ShpaSpec, source: MetricSource, current: int, r: Reading, now: int)
    returns (o: Outcome)
    ensures o == ExternalOutcome(spec, Some(source), current, r, now)
  {
    if source.high.None? || source.low.None? {
      return Rejected;
    }
    var ready := GetReadyPodsCount(r.pods, spec.target.name, spec.readinessDelay, now);
    if ready.None? || r.external.None? {
      return Rejected;
    }
    var averaged := if spec.algorithm == AVERAGE then ready.value else 1;
    var metrics := r.external.value;
    var sum := 0;
    for i := 0 to |metrics|
      invariant sum == SumOf(metrics[..i])
    {
      assert metrics[..i + 1][..i] == metrics[..i];
      sum := sum + metrics[i];
    }
    assert metrics[..|metrics|] == metrics;
    var count := CountFor(BandOf(spec, source), current, ready.value, sum, averaged, r.undefined);
    return Proposed(count, r.timestamp, source.name);
  }

  method GetResourceReplicas(spec: ShpaSpec, source: MetricSource, current: int, r: Reading) returns (o: Outcome)
    ensures o == ResourceOutcome(spec, Some(source), current, r)
  {
    if source.high.None? || source.low.None? {
      return Rejected;
    }
    if r.resource.None? || r.pods.None? || r.pods.value == [] {
      return Rejected;
    }
    var metrics := new PodMetricsInfo(r.resource.value);
    var readyPods, ignoredPods :=
      GroupPods(r.pods.value, spec.target.name, metrics.values, source.name, spec.readinessDelay);
    var readyPodCount := |readyPods|;
    metrics.RemoveMetricsForPods(ignoredPods);
    if metrics.values == map[] {
      return Rejected;
    }
    var averaged := if spec.algorithm == AVERAGE then readyPodCount else 1;
    var sum := metrics.Sum();
    var count := CountFor(BandOf(spec, source), current, readyPodCount, sum, averaged, r.undefined);
    return Proposed(count, r.timestamp, "");
  }

  /** The sum of an external metric is a sum: of one series its value, of two readings both sums. */
  lemma {:induction false} SumIsAdditive(a: seq<int>, b: seq<int>)
    ensures forall x :: SumOf([x]) == x
    ensures SumOf(a + b) == SumOf(a) + SumOf(b)
  {
    forall x ensures SumOf([x]) == x {
      assert [x][..0] == [];
    }
    if b == [] {
      assert a + b == a;
    } else {
      var n := |b| - 1;
      SumIsAdditive(a, b[..n]);
      assert (a + b)[..|a| + n] == a + b[..n];
    }
  }

  lemma SumAround(front: seq<int>, x: int, rest: seq<int>)
    ensures SumOf(front + [x] + rest) == SumOf(front + rest) + x
  {
    SumIsAdditive(front + [x], rest);
    SumIsAdditive(front, [x]);
    SumIsAdditive(front, rest);
  }

  lemma Around(b: seq<int>, i: nat)
    requires i < |b|
    ensures b == b[..i] + [b[i]] + b[i + 1..]
  {
  }

  lemma MultisetAround(front: seq<int>, x: int, rest: seq<int>)
    ensures multiset(front + rest) == multiset(front + [x] + rest) - multiset{x}
  {
    assert multiset(front + [x] + rest) == multiset(front) + multiset{x} + multiset(rest);
  }

  lemma SumWithoutOne(b: seq<int>, i: nat)
    requires i < |b|
    ensures SumOf(b) == SumOf(b[..i] + b[i + 1..]) + b[i]
    ensures multiset(b[..i] + b[i + 1..]) == multiset(b) - multiset{b[i]}
  {
    Around(b, i);
    SumAround(b[..i], b[i], b[i + 1..]);
    MultisetAround(b[..i], b[i], b[i + 1..]);
  }

  /** And the order in which the series come makes no difference. */
  lemma {:induction false} SumIgnoresOrder(a: seq<int>, b: seq<int>)
    requires multiset(a) == multiset(b)
    ensures SumOf(a) == SumOf(b)
  {
    if a == [] {
      assert |multiset(b)| == 0;
    } else {
      var n := |a| - 1;
      SumWithoutOne(a, n);
      assert a[..n] + a[n + 1..] == a[..n];
      assert a[n] in multiset(b);
      var i :| 0 <= i < |b| && b[i] == a[n];
      SumWithoutOne(b, i);
      SumIgnoresOrder(a[..n], b[..i] + b[i + 1..]);
    }
  }

  /**
   When there is a proposal from an external metric, and which: the rule on the sum of the
   series, over the tolerated pods in average mode and as it is in any other.
   */
  lemma ExternalProposalIff(spec: ShpaSpec, source: MetricSource, current: int, r: Reading, now: int)
    ensures var o := ExternalOutcome(spec, Some(source), current, r, now);
            && (o.Proposed? <==>
                  && source.low.Some? && source.high.Some? && r.external.Some? && r.pods.Some?
                  && ToleratedAt(r.pods.value, spec.target.name, spec.readinessDelay, now) != {})
            && (!o.Proposed? ==> o == Rejected)
            && (o.Proposed? ==>
                  var ready := |ToleratedAt(r.pods.value, spec.target.name, spec.readinessDelay, now)|;
                  var usage := Quotient(SumOf(r.external.value), if spec.algorithm == "average" then ready else 1);
                  var band := Band(source.low.value, source.high.value, spec.tolerance);
                  o == Proposed(GetReplicaCount(current, ready, band, usage, r.undefined), r.timestamp, source.name))
  {
  }

  /**
   When there is one from a resource metric, and which: the rule on what is left after
   pruning, over the ready pods in average mode and as it is in any other. In average mode
   with no ready pod the sum decides alone.
   */
  lemma ResourceProposalIff(spec: ShpaSpec, source: MetricSource, current: int, r: Reading)
    ensures var o := ResourceOutcome(spec, Some(source), current, r);
            && (!o.Proposed? ==> o == Rejected)
            && (source.low.None? || source.high.None? || r.resource.None? || r.pods.None? || r.pods.value == [] ==>
                  !o.Proposed?)
    ensures source.low.Some? && source.high.Some? && r.resource.Some? && r.pods.Some? && r.pods.value != [] ==>
              var o := ResourceOutcome(spec, Some(source), current, r);
              var target, pods, metrics := spec.target.name, r.pods.value, r.resource.value;
              var ready := |NamesOf(pods, ReadyPod, target, metrics, source.name, spec.readinessDelay)|;
              var remaining := metrics - NamesOf(pods, IgnoredPod, target, metrics, source.name, spec.readinessDelay);
              var sum := Total(remaining);
              var band := Band(source.low.value, source.high.value, spec.tolerance);
              && (o.Proposed? <==> exists k :: k in remaining)
              && (o.Proposed? ==>
                    && o.timestamp == r.timestamp && o.name == ""
                    && (spec.algorithm != "average" ==>
                          o.count == GetReplicaCount(current, ready, band, Quotient(sum, 1), r.undefined))
                    && (spec.algorithm == "average" && ready > 0 ==>
                          o.count == GetReplicaCount(current, ready, band, Quotient(sum, ready), r.undefined))
                    && (spec.algorithm == "average" && ready == 0 ==>
                          o.count == if sum == 0 then current
                                     else if sum > 0 then r.undefined
                                     else Max(r.undefined, 1)))
  {
    if r.resource.Some? && r.pods.Some? {
      var remaining := Remaining(spec, source, r.pods.value, r.resource.value);
      assert remaining != map[] <==> exists k :: k in remaining;
    }
  }

  /**
   In absolute mode, the default, the whole sum is held against the marks and multiplied by
   the ready count. Above the band: the fewest replicas for which that is within the high
   watermark. Below it: the most that it keeps at the low one, or one.
   */
  lemma AbsoluteProposalIsOptimal(spec: ShpaSpec, source: MetricSource, current: int, r: Reading, k: int)
    requires spec.algorithm != "average" && ResourceOutcome(spec, Some(source), current, r).Proposed?
    requires Sensible(Band(source.low.value, source.high.value, spec.tolerance))
    ensures var count := ResourceOutcome(spec, Some(source), current, r).count;
            var ready := |ReadyNames(spec, source, r.pods.value, r.resource.value)|;
            var sum := Total(Remaining(spec, source, r.pods.value, r.resource.value));
            var low, high, tolerance := source.low.value, source.high.value, spec.tolerance;
            && (100 * sum > (100 + tolerance) * high ==> (count <= k <==> ready * sum <= high * k))
            && (100 * sum < (100 - tolerance) * low && k >= 1 ==> (k <= count <==> k == 1 || low * k <= ready * sum))
            && ((100 - tolerance) * low <= 100 * sum <= (100 + tolerance) * high ==> count == current)
  {
    var ready := |ReadyNames(spec, source, r.pods.value, r.resource.value)|;
    var sum := Total(Remaining(spec, source, r.pods.value, r.resource.value));
    ResourceProposalIff(spec, source, current, r);
    WholeSumIsOptimal(current, ready, Band(source.low.value, source.high.value, spec.tolerance), sum, k, r.undefined);
  }

  /** The same for an external metric. */
  lemma AbsoluteExternalIsOptimal(spec: ShpaSpec, source: MetricSource, current: int, r: Reading, now: int, k: int)
    requires spec.algorithm != "average" && ExternalOutcome(spec, Some(source), current, r, now).Proposed?
    requires Sensible(Band(source.low.value, source.high.value, spec.tolerance))
    ensures var count := ExternalOutcome(spec, Some(source), current, r, now).count;
            var ready := |ToleratedAt(r.pods.value, spec.target.name, spec.readinessDelay, now)|;
            var sum := SumOf(r.external.value);
            var low, high, tolerance := source.low.value, source.high.value, spec.tolerance;
            && (100 * sum > (100 + tolerance) * high ==> (count <= k <==> ready * sum <= high * k))
            && (100 * sum < (100 - tolerance) * low && k >= 1 ==> (k <= count <==> k == 1 || low * k <= ready * sum))
            && ((100 - tolerance) * low <= 100 * sum <= (100 + tolerance) * high ==> count == current)
  {
    var ready := |ToleratedAt(r.pods.value, spec.target.name, spec.readinessDelay, now)|;
    ExternalProposalIff(spec, source, current, r, now);
    WholeSumIsOptimal(current, ready, Band(source.low.value, source.high.value, spec.tolerance),
                      SumOf(r.external.value), k, r.undefined);
  }

  /** How a metric is passed over, followed into a nil pointer or refused. */
  lemma FaultsIff(spec: ShpaSpec, m: MetricSpec, current: int, r: Reading, now: int)
    ensures var o := MetricOutcome(spec, m, current, r, now);
            && (o.Skipped? <==> m.external.None? && m.resource.None?)
            && (o.Faulted? <==>
                  || (m.kind == "External" && m.external.None? && m.resource.Some?)
                  || (m.kind == "Resource" && m.resource.None? && m.external.Some?)
                  || (m.kind == "External" && m.external.Some? && m.external.value.selector.None?
                      && ExternalOutcome(spec, m.external, current, r, now).Proposed?))
            && (m.kind !in {"External", "Resource"} && !o.Skipped? ==> o.Rejected?)
            && (o.Proposed? ==>
                  o == if m.kind == "External" then ExternalOutcome(spec, m.external, current, r, now)
                       else ResourceOutcome(spec, m.resource, current, r))
  {
    KindsDiffer();
  }

  /** No metric of an admitted spec is skipped, unsupported or missing a pointer. */
  lemma AdmittedNeverFaults(spec: ShpaSpec, m: MetricSpec, current: int, r: Reading, now: int)
    requires Admitted(spec) && m in spec.metrics
    ensures var o := MetricOutcome(spec, m, current, r, now);
            && !o.Skipped? && !o.Faulted?
            && (m.kind == EXTERNAL ==> o == ExternalOutcome(spec, m.external, current, r, now))
            && (m.kind != EXTERNAL ==> o == ResourceOutcome(spec, m.resource, current, r))
  {
  }

  /** Sensible watermarks and at least one ready pod make every proposal at least one. */
  lemma ProposalIsPositive(b: Band, current: int, ready: int, sum: int, divisor: int, undefined: int)
    requires Sensible(b) && current >= 1 && ready >= 1 && divisor >= 1
    ensures CountFor(b, current, ready, sum, divisor, undefined) >= 1
  {
    RuleIsIntegral(current, ready, b, sum, divisor, undefined);
    if Above(b, sum, divisor) {
      AboveTheMark(b, sum, divisor);
      assert sum > 0 && divisor * b.high > 0;
      assert ready * sum > 0;
      CeilDivIsLeast(ready * sum, divisor * b.high, 0);
    }
  }

  /** External proposals are never computed from zero ready pods. */
  lemma ExternalProposalIsPositive(spec: ShpaSpec, source: MetricSource, current: int, r: Reading, now: int)
    requires source.low.Some? && source.high.Some? && Sensible(BandOf(spec, source)) && current >= 1
    requires ExternalOutcome(spec, Some(source), current, r, now).Proposed?
    ensures ExternalOutcome(spec, Some(source), current, r, now).count >= 1
  {
    var ready := |ToleratedAt(r.pods.value, spec.target.name, spec.readinessDelay, now)|;
    var sum := SumOf(r.external.value);
    ProposalIsPositive(BandOf(spec, source), current, ready, sum, Divisor(spec, ready), r.undefined);
  }

  function Restrict(m: map<string, int>, keys: set<string>): map<string, int> {
    map k | k in m && k in keys :: m[k]
  }

  lemma KeysDecide(m: map<string, int>, sub: map<string, int>, keys: set<string>)
    requires sub.Keys == keys && forall k :: k in sub ==> k in m && sub[k] == m[k]
    ensures sub == Restrict(m, keys) && |keys| == |Restrict(m, keys)|
  {
  }

  lemma RemainingIsRestriction(spec: ShpaSpec, source: MetricSource, pods: seq<Pod>, metrics: map<string, int>)
    requires UniqueNames(pods)
    requires forall k :: k in metrics ==> Accounted(k, pods, spec.target.name)
    ensures var ready := ReadyNames(spec, source, pods, metrics);
            && Remaining(spec, source, pods, metrics) == Restrict(metrics, ready)
            && |ready| == |Restrict(metrics, ready)|
  {
    RemainingIsReadyIff(pods, spec.target.name, metrics, source.name, spec.readinessDelay);
    KeysDecide(metrics, Remaining(spec, source, pods, metrics), ReadyNames(spec, source, pods, metrics));
  }

  /**
   A resource proposal is the rule applied to the true mean over the ready pods, of which
   there is at least one, if every metric is accounted for.
   */
  lemma ResourceUsesTrueMean(spec: ShpaSpec, source: MetricSource, current: int, r: Reading)
    requires source.low.Some? && source.high.Some? && spec.algorithm == AVERAGE
    requires ResourceOutcome(spec, Some(source), current, r).Proposed?
    requires UniqueNames(r.pods.value)
    requires forall k :: k in r.resource.value ==> Accounted(k, r.pods.value, spec.target.name)
    ensures var ready := ReadyNames(spec, source, r.pods.value, r.resource.value);
            var mine := Restrict(r.resource.value, ready);
            && |ready| == |mine| && |ready| >= 1
            && ResourceOutcome(spec, Some(source), current, r).count
               == GetReplicaCount(current, |ready|, BandOf(spec, source), Quotient(Total(mine), |mine|), r.undefined)
  {
    RemainingIsRestriction(spec, source, r.pods.value, r.resource.value);
    var mine := Restrict(r.resource.value, ReadyNames(spec, source, r.pods.value, r.resource.value));
    assert mine != map[];
    assert |mine| != 0;
  }

  /**
   Otherwise the divisor can be zero: it is exactly in average mode, when no listed pod is
   ready and some metric is not accounted for.
   */
  lemma ZeroDivisorIff(spec: ShpaSpec, source: MetricSource, current: int, r: Reading)
    requires source.low.Some? && source.high.Some?
    requires r.pods.Some? && r.resource.Some? && r.pods.value != [] && UniqueNames(r.pods.value)
    ensures var ready := ReadyNames(spec, source, r.pods.value, r.resource.value);
            ResourceOutcome(spec, Some(source), current, r).Proposed? && Divisor(spec, |ready|) == 0
            <==> && spec.algorithm == AVERAGE && ready == {}
                 && exists k :: k in r.resource.value && !Accounted(k, r.pods.value, spec.target.name)
  {
    var pods, metrics := r.pods.value, r.resource.value;
    if ReadyNames(spec, source, pods, metrics) == {} {
      NothingReady(spec, source, pods, metrics);
    }
  }

  /** With no pod ready, something is left after pruning if and only if some metric is not accounted for. */
  lemma NothingReady(spec: ShpaSpec, source: MetricSource, pods: seq<Pod>, metrics: map<string, int>)
    requires UniqueNames(pods) && ReadyNames(spec, source, pods, metrics) == {}
    ensures Remaining(spec, source, pods, metrics) != map[]
            <==> exists k :: k in metrics && !Accounted(k, pods, spec.target.name)
  {
    RemainingIsReadyIff(pods, spec.target.name, metrics, source.name, spec.readinessDelay);
    var remaining := Remaining(spec, source, pods, metrics);
    assert remaining == map[] <==> remaining.Keys == {};
  }

  /**
   A resource proposal is at least one if and only if some pod is ready, or: in average
   mode, the sum over zero pods is not positive or the undefined count happens to be
   positive; in the other mode, the sum is not above the band.
   */
  lemma ResourceProposalIsPositiveIff(spec: ShpaSpec, source: MetricSource, current: int, r: Reading)
    requires source.low.Some? && source.high.Some? && Sensible(BandOf(spec, source)) && current >= 1
    requires ResourceOutcome(spec, Some(source), current, r).Proposed?
    ensures var ready := ReadyNames(spec, source, r.pods.value, r.resource.value);
            var sum := Total(Remaining(spec, source, r.pods.value, r.resource.value));
            ResourceOutcome(spec, Some(source), current, r).count >= 1
            <==> || ready != {}
                 || (if spec.algorithm == AVERAGE then sum <= 0 || r.undefined >= 1
                     else !Above(BandOf(spec, source), sum, 1))
  {
    var b, ready := BandOf(spec, source), ReadyNames(spec, source, r.pods.value, r.resource.value);
    var sum := Total(Remaining(spec, source, r.pods.value, r.resource.value));
    if ready != {} {
      assert |ready| >= 1;
      ProposalIsPositive(b, current, |ready|, sum, Divisor(spec, |ready|), r.undefined);
    } else if spec.algorithm != AVERAGE {
      RuleIsIntegral(current, 0, b, sum, 1, r.undefined);
      NothingOfZero(b, sum);
    }
  }

  lemma NothingOfZero(b: Band, sum: int)
    requires Sensible(b)
    ensures CeilDiv(0 * sum, 1 * b.high) == 0 && 0 * sum / (1 * b.low) == 0
  {
    CeilDivIsLeast(0, b.high, 0);
    CeilDivIsLeast(0, b.high, -1);
    DivBetween(0, b.low, 0);
  }

  /** What the loop has found: the recommendation, an error, or a nil pointer. */
  datatype Recommendation = Recommended(replicas: int, timestamp: int, metric: string) | NoAnswer | Crash

  const ZERO_TIME := 0

  function Fold(before: Recommendation, o: Outcome): Recommendation {
    if !before.Recommended? then before
    else match o
      case Proposed(count, timestamp, name) =>
        if before.replicas == 0 || count > before.replicas then Recommended(count, timestamp, name) else before
      case Skipped => before
      case Rejected => NoAnswer
      case Faulted => Crash
  }

  function Tally(outcomes: seq<Outcome>): Recommendation {
    if outcomes == [] then Recommended(0, ZERO_TIME, "")
    else Fold(Tally(outcomes[..|outcomes| - 1]), outcomes[|outcomes| - 1])
  }

  lemma {:induction false} TallySticks(outcomes: seq<Outcome>, k: nat)
    requires k <= |outcomes| && !Tally(outcomes[..k]).Recommended?
    ensures Tally(outcomes) == Tally(outcomes[..k])
  {
    var n := |outcomes| - 1;
    if k <= n {
      assert outcomes[..n][..k] == outcomes[..k];
      TallySticks(outcomes[..n], k);
    } else {
      assert outcomes[..k] == outcomes;
    }
  }

  /** Any failing metric spoils the recommendation, and the first one decides how. */
  lemma {:induction false} TallyFailsIff(outcomes: seq<Outcome>)
    ensures Tally(outcomes).Recommended?
            <==> forall i :: 0 <= i < |outcomes| ==> outcomes[i].Proposed? || outcomes[i].Skipped?
    ensures !Tally(outcomes).Recommended? ==>
              exists i :: 0 <= i < |outcomes| && (outcomes[i].Rejected? || outcomes[i].Faulted?)
                          && (Tally(outcomes).Crash? <==> outcomes[i].Faulted?)
                          && forall j :: 0 <= j < i ==> outcomes[j].Proposed? || outcomes[j].Skipped?
  {
    if outcomes != [] {
      var n := |outcomes| - 1;
      var before := outcomes[..n];
      TallyFailsIff(before);
      assert forall i :: 0 <= i < n ==> before[i] == outcomes[i];
      if Tally(before).Recommended? {
        assert forall j :: 0 <= j < n ==> outcomes[j].Proposed? || outcomes[j].Skipped?;
      } else {
        var i :| 0 <= i < n && (before[i].Rejected? || before[i].Faulted?)
                 && (Tally(before).Crash? <==> before[i].Faulted?)
                 && forall j :: 0 <= j < i ==> before[j].Proposed? || before[j].Skipped?;
        assert outcomes[i] == before[i];
        assert forall j :: 0 <= j < i ==> outcomes[j] == before[j];
      }
    }
  }

  /** Proposal i is the first one to reach the largest count. */
  ghost predicate FirstMaximum(outcomes: seq<Outcome>, i: nat) {
    && i < |outcomes| && outcomes[i].Proposed?
    && (forall j :: 0 <= j < |outcomes| && outcomes[j].Proposed? ==> outcomes[j].count <= outcomes[i].count)
    && (forall j :: 0 <= j < i && outcomes[j].Proposed? ==> outcomes[j].count < outcomes[i].count)
  }

  /** Nothing above the proposals is ever recommended, short of the initial zero. */
  lemma {:induction false} TallyStaysBelow(outcomes: seq<Outcome>, bound: int)
    requires bound >= 1
    requires forall j :: 0 <= j < |outcomes| ==>
               outcomes[j].Skipped? || (outcomes[j].Proposed? && outcomes[j].count < bound)
    ensures Tally(outcomes).Recommended? && Tally(outcomes).replicas < bound
  {
    if outcomes != [] {
      TallyStaysBelow(outcomes[..|outcomes| - 1], bound);
    }
  }

  /**
   The loop finds the maximum, if it is at least one, with the timestamp and name of the
   first metric attaining it.
   */
  lemma {:induction false} TallyIsFirstMaximum(outcomes: seq<Outcome>, i: nat)
    requires FirstMaximum(outcomes, i) && outcomes[i].count >= 1
    requires forall j :: 0 <= j < |outcomes| ==> outcomes[j].Proposed? || outcomes[j].Skipped?
    ensures Tally(outcomes) == Recommended(outcomes[i].count, outcomes[i].timestamp, outcomes[i].name)
  {
    var n := |outcomes| - 1;
    var before := outcomes[..n];
    assert forall j :: 0 <= j < n ==> before[j] == outcomes[j];
    if i < n {
      assert FirstMaximum(before, i);
      TallyIsFirstMaximum(before, i);
    } else {
      TallyStaysBelow(before, outcomes[n].count);
    }
  }

  /** Whatever the counts, a list with a proposal and no failure is answered by one of its proposals. */
  lemma {:induction false} TallyIsSomeProposal(outcomes: seq<Outcome>)
    requires forall j :: 0 <= j < |outcomes| ==> outcomes[j].Proposed? || outcomes[j].Skipped?
    ensures (forall j :: 0 <= j < |outcomes| ==> outcomes[j].Skipped?) ==>
              Tally(outcomes) == Recommended(0, ZERO_TIME, "")
    ensures (exists j :: 0 <= j < |outcomes| && outcomes[j].Proposed?) ==>
              exists i :: 0 <= i < |outcomes| && outcomes[i].Proposed?
                          && Tally(outcomes) == Recommended(outcomes[i].count, outcomes[i].timestamp, outcomes[i].name)
  {
    if outcomes != [] {
      var n := |outcomes| - 1;
      var before := outcomes[..n];
      assert forall j :: 0 <= j < n ==> before[j] == outcomes[j];
      TallyIsSomeProposal(before);
      if exists j :: 0 <= j < n && before[j].Proposed? {
        var i :| 0 <= i < n && before[i].Proposed?
                 && Tally(before) == Recommended(before[i].count, before[i].timestamp, before[i].name);
        assert outcomes[i].Proposed?;
      }
      assert outcomes[n].Proposed? || outcomes[n].Skipped?;
    }
  }

  /** The last proposal is a zero. */
  ghost predicate EndsAtZero(outcomes: seq<Outcome>) {
    exists j :: 0 <= j < |outcomes| && outcomes[j].Proposed? && outcomes[j].count == 0
                && forall m :: j < m < |outcomes| ==> outcomes[m].Skipped?
  }

  lemma EndsAtZeroOneMore(outcomes: seq<Outcome>, o: Outcome)
    ensures EndsAtZero(outcomes + [o]) <==> if o.Skipped? then EndsAtZero(outcomes) else o.Proposed? && o.count == 0
  {
    var more, n := outcomes + [o], |outcomes|;
    if EndsAtZero(outcomes) && o.Skipped? {
      var j :| 0 <= j < n && outcomes[j].Proposed? && outcomes[j].count == 0
               && forall m :: j < m < n ==> outcomes[m].Skipped?;
      assert more[j] == outcomes[j];
    }
    if EndsAtZero(more) && o.Skipped? {
      var j :| 0 <= j < n + 1 && more[j].Proposed? && more[j].count == 0
               && forall m :: j < m < n + 1 ==> more[m].Skipped?;
      assert more[j] == outcomes[j];
      forall m | j < m < n ensures outcomes[m].Skipped? {
        assert more[m].Skipped?;
      }
    }
    if o.Proposed? && o.count == 0 {
      assert more[n] == o;
    }
    if EndsAtZero(more) && !o.Skipped? {
      assert more[n] == o;
    }
  }

  lemma {:induction false} TallyWithoutPositive(outcomes: seq<Outcome>)
    requires forall j :: 0 <= j < |outcomes| ==>
               outcomes[j].Skipped? || (outcomes[j].Proposed? && outcomes[j].count <= 0)
    requires exists j :: 0 <= j < |outcomes| && outcomes[j].Proposed?
    ensures Tally(outcomes).Recommended? && Tally(outcomes).replicas <= 0
    ensures Tally(outcomes).replicas == 0 <==> EndsAtZero(outcomes)
  {
    var n := |outcomes| - 1;
    var before := outcomes[..n];
    assert outcomes == before + [outcomes[n]];
    assert forall j :: 0 <= j < n ==> before[j] == outcomes[j];
    EndsAtZeroOneMore(before, outcomes[n]);
    if exists j :: 0 <= j < n && before[j].Proposed? {
      TallyWithoutPositive(before);
    } else {
      TallyIsSomeProposal(before);
    }
  }

  /**
   A zero is taken for no proposal yet, so the loop finds the maximum if and only if that
   is not zero, or the last proposal is.
   */
  lemma MaximumIsFoundIff(outcomes: seq<Outcome>, i: nat)
    requires FirstMaximum(outcomes, i)
    requires forall j :: 0 <= j < |outcomes| ==> outcomes[j].Proposed? || outcomes[j].Skipped?
    ensures Tally(outcomes).Recommended?
    ensures Tally(outcomes).replicas == outcomes[i].count <==> outcomes[i].count != 0 || EndsAtZero(outcomes)
  {
    if outcomes[i].count >= 1 {
      TallyIsFirstMaximum(outcomes, i);
    } else if outcomes[i].count == 0 {
      TallyWithoutPositive(outcomes);
    } else {
      TallyOfNegatives(outcomes, i);
    }
  }

  lemma {:induction false} TallyOfNegatives(outcomes: seq<Outcome>, i: nat)
    requires FirstMaximum(outcomes, i) && outcomes[i].count < 0
    requires forall j :: 0 <= j < |outcomes| ==> outcomes[j].Proposed? || outcomes[j].Skipped?
    ensures Tally(outcomes) == Recommended(outcomes[i].count, outcomes[i].timestamp, outcomes[i].name)
  {
    var n := |outcomes| - 1;
    var before := outcomes[..n];
    assert forall j :: 0 <= j < n ==> before[j] == outcomes[j];
    if i < n {
      assert FirstMaximum(before, i);
      TallyOfNegatives(before, i);
    } else {
      TallyIsSomeProposal(before);
    }
  }
}
