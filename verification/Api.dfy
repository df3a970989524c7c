/**
 The SHPA resource, its defaults and its admission check (api/v1/shpa_types.go,
 api/v1/shpa_default.go). Watermarks are the milli-values of their quantities, and a label
 selector is its source text.
 */
module Api {
  import opened Wrappers
  import opened Limits
  import opened Conditions

  datatype MetricSource = MetricSource(name: string, selector: Option<string>, low: Option<int>, high: Option<int>)

  datatype MetricSpec = MetricSpec(kind: string, external: Option<MetricSource>, resource: Option<MetricSource>)

  datatype TargetRef = TargetRef(kind: string, name: string, apiVersion: string)

  datatype ShpaSpec = ShpaSpec(
    downscaleWindow: int, upscaleWindow: int,
    scaleUpFactor: int, scaleDownFactor: int,
    tolerance: int, algorithm: string, dryRun: bool,
    target: TargetRef, metrics: seq<MetricSpec>,
    minReplicas: int, maxReplicas: int, readinessDelay: int)

  datatype ShpaStatus = ShpaStatus(
    observedGeneration: Option<int>, lastScaleTime: Option<int>,
    currentReplicas: int, desiredReplicas: int,
    currentMetrics: seq<int>, conditions: seq<Condition>)

  const EXTERNAL := "External"
  const RESOURCE := "Resource"
  const AVERAGE := "average"

  const DEFAULT_TOLERANCE := 10
  const DEFAULT_DOWNSCALE_WINDOW := 300
  const DEFAULT_UPSCALE_WINDOW := 60
  const DEFAULT_SCALE_DOWN_FACTOR := 20
  const DEFAULT_SCALE_UP_FACTOR := 50
  const DEFAULT_ALGORITHM := "absolute"
  const DEFAULT_MIN_REPLICAS := 1

  predicate IsDefaultSHPA(s: ShpaSpec) {
    && s.minReplicas != 0
    && s.algorithm != ""
    && s.tolerance != 0
    && s.scaleUpFactor != 0
    && s.scaleDownFactor != 0
    && s.downscaleWindow != 0
    && s.upscaleWindow != 0
  }

  /** The spec after defaulting. */
  function Defaulted(s: ShpaSpec): ShpaSpec {
    s.(minReplicas := if s.minReplicas == 0 then DEFAULT_MIN_REPLICAS else s.minReplicas,
       algorithm := if s.algorithm == "" then DEFAULT_ALGORITHM else s.algorithm,
       tolerance := if s.tolerance == 0 then DEFAULT_TOLERANCE else s.tolerance,
       scaleUpFactor := if s.scaleUpFactor == 0 then DEFAULT_SCALE_UP_FACTOR else s.scaleUpFactor,
       scaleDownFactor := if s.scaleDownFactor == 0 then DEFAULT_SCALE_DOWN_FACTOR else s.scaleDownFactor,
       downscaleWindow := if s.downscaleWindow == 0 then DEFAULT_DOWNSCALE_WINDOW else s.downscaleWindow,
       upscaleWindow := if s.upscaleWindow == 0 then DEFAULT_UPSCALE_WINDOW else s.upscaleWindow)
  }

  ghost predicate Filled(before: int, after: int, default: int) {
    if before == 0 then after == default else after == before
  }

  /** A field changes only if it was unset, and then to its own default. */
  lemma DefaultingOnlyFills(s: ShpaSpec)
    ensures var d := Defaulted(s);
            && Filled(s.minReplicas, d.minReplicas, 1)
            && Filled(s.tolerance, d.tolerance, 10)
            && Filled(s.scaleUpFactor, d.scaleUpFactor, 50)
            && Filled(s.scaleDownFactor, d.scaleDownFactor, 20)
            && Filled(s.upscaleWindow, d.upscaleWindow, 60)
            && Filled(s.downscaleWindow, d.downscaleWindow, 300)
            && (s.algorithm != "" ==> d.algorithm == s.algorithm)
            && (s.algorithm == "" ==> d.algorithm == "absolute")
            && d.dryRun == s.dryRun && d.target == s.target && d.metrics == s.metrics
            && d.maxReplicas == s.maxReplicas && d.readinessDelay == s.readinessDelay
  {
  }

  /** Defaulting always passes its own test, and is the identity exactly where it is not needed. */
  lemma DefaultingIsIdempotent(s: ShpaSpec)
    ensures IsDefaultSHPA(Defaulted(s))
    ensures IsDefaultSHPA(s) <==> Defaulted(s) == s
    ensures Defaulted(Defaulted(s)) == Defaulted(s)
  {
  }

  datatype SpecError = NoTarget | BadReplicaRange | NoSource | NoWatermark | NoSelector | LowAboveHigh | BadType
  {
    function Text(): string {
      match this
      case NoTarget => "no target"
      case BadReplicaRange => "bad replica range"
      case NoSource => "no source"
      case NoWatermark => "no watermark"
      case NoSelector => "no selector"
      case LowAboveHigh => "low above high"
      case BadType => "bad type"
    }
  }

  /** Each objection has a text of its own. */
  lemma TextsDiffer(a: SpecError, b: SpecError)
    requires a.Text() == b.Text()
    ensures a == b
  {
    assert |a.Text()| == |b.Text()|;
  }

  /** The error of one metric, or of a list: that of its first faulty metric. */
  function SourceError(source: Option<MetricSource>): Option<SpecError> {
    if source.None? then Some(NoSource)
    else
      var m := source.value;
      if m.low.None? || m.high.None? then Some(NoWatermark)
      else if m.selector.None? then Some(NoSelector)
      else if m.high.value < m.low.value then Some(LowAboveHigh)
      else None
  }

  function MetricError(m: MetricSpec): Option<SpecError> {
    if m.kind == EXTERNAL then SourceError(m.external)
    else if m.kind == RESOURCE then SourceError(m.resource)
    else Some(BadType)
  }

  function CheckMetricsValidity(metrics: seq<MetricSpec>): (e: Option<SpecError>)
    ensures e.None? <==> forall m :: m in metrics ==> MetricError(m).None?
    ensures e.Some? ==> exists i :: 0 <= i < |metrics| && MetricError(metrics[i]) == e
                                    && forall j :: 0 <= j < i ==> MetricError(metrics[j]).None?
  {
    if metrics == [] then None
    else if MetricError(metrics[0]).Some? then MetricError(metrics[0])
    else
      var rest := CheckMetricsValidity(metrics[1..]);
      assert forall m :: m in metrics <==> m == metrics[0] || m in metrics[1..];
      assert forall i :: 0 <= i < |metrics| - 1 ==> metrics[1..][i] == metrics[i + 1];
      assert rest.Some? ==> exists i :: 0 <= i < |metrics| && MetricError(metrics[i]) == rest
                                        && forall j :: 0 <= j < i ==> MetricError(metrics[j]).None? by {
        if rest.Some? {
          var k :| 0 <= k < |metrics[1..]| && MetricError(metrics[1..][k]) == rest
                   && forall j :: 0 <= j < k ==> MetricError(metrics[1..][j]).None?;
          assert MetricError(metrics[k + 1]) == rest;
          forall j | 0 <= j < k + 1 ensures MetricError(metrics[j]).None? {
            if j > 0 {
              assert metrics[j] == metrics[1..][j - 1];
            }
          }
        }
      }
      rest
  }

  function CheckSHPAValidity(s: ShpaSpec): Option<SpecError> {
    if s.target.kind == "" || s.target.name == "" then Some(NoTarget)
    else if s.minReplicas == 0 || s.maxReplicas < s.minReplicas then Some(BadReplicaRange)
    else CheckMetricsValidity(s.metrics)
  }

  /** What the check of a spec objects to first, and what that of a metric does. */
  lemma RefusedFor(s: ShpaSpec, m: MetricSpec)
    ensures var e := CheckSHPAValidity(s);
            && (e == Some(NoTarget) <==> s.target.kind == "" || s.target.name == "")
            && (e == Some(BadReplicaRange) <==>
                  s.target.kind != "" && s.target.name != "" && (s.minReplicas == 0 || s.maxReplicas < s.minReplicas))
            && (e !in {Some(NoTarget), Some(BadReplicaRange)} ==> e == CheckMetricsValidity(s.metrics))
    ensures var source := if m.kind == "External" then m.external else m.resource;
            match MetricError(m)
            case Some(BadType) => m.kind != "External" && m.kind != "Resource"
            case Some(NoSource) => m.kind in {"External", "Resource"} && source.None?
            case Some(NoWatermark) => source.Some? && (source.value.low.None? || source.value.high.None?)
            case Some(NoSelector) => source.Some? && source.value.selector.None?
                                     && source.value.low.Some? && source.value.high.Some?
            case Some(LowAboveHigh) => source.Some? && source.value.selector.Some?
                                       && source.value.low.Some? && source.value.high.Some?
                                       && source.value.low.value > source.value.high.value
            case Some(_) => false
            case None => m.kind in {"External", "Resource"} && Usable(source)
  {
    KindsDiffer();
  }

  /** What the CRD schema and the int32 fields enforce; a zero field is omitted and so unchecked. */
  ghost predicate SchemaValid(s: ShpaSpec) {
    && 0 <= s.downscaleWindow && 0 <= s.upscaleWindow
    && 0 <= s.scaleUpFactor <= 100 && 0 <= s.scaleDownFactor <= 100
    && 0 <= s.tolerance < 100
    && 0 <= s.minReplicas && 0 <= s.maxReplicas <= MAX_INT32 && 0 <= s.readinessDelay
  }

  /** A source whose pointers the calculators may follow. */
  predicate Usable(source: Option<MetricSource>) {
    && source.Some? && source.value.selector.Some?
    && source.value.low.Some? && source.value.high.Some? && source.value.low.value <= source.value.high.value
  }

  /** What the control loop relies on. */
  ghost predicate Admitted(s: ShpaSpec) {
    && 1 <= s.minReplicas <= s.maxReplicas <= MAX_INT32
    && 1 <= s.tolerance <= 99
    && 1 <= s.scaleUpFactor <= 100 && 1 <= s.scaleDownFactor <= 100
    && 1 <= s.upscaleWindow && 1 <= s.downscaleWindow
    && s.target.kind != "" && s.target.name != ""
    && forall m :: m in s.metrics ==>
                     || (m.kind == EXTERNAL && Usable(m.external))
                     || (m.kind == RESOURCE && Usable(m.resource))
  }

  /**
   For a spec the schema lets through, the defaulting test and the admission check
   together say exactly that the loop's preconditions hold and an algorithm is named.
   */
  lemma AdmissionEstablishes(s: ShpaSpec)
    requires SchemaValid(s)
    ensures IsDefaultSHPA(s) && CheckSHPAValidity(s).None? <==> Admitted(s) && s.algorithm != ""
  {
  }

  lemma KindsDiffer()
    ensures EXTERNAL != RESOURCE
  {
  }
}
