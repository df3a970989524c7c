# A verified model of the watermark pod autoscaler

The controller watches SHPA resources. On every reconcile it reads metrics for the pods of a
target, proposes a replica count from a low and a high watermark, limits how far one step may
go, clamps the result to the configured range, waits for a cooldown, writes the count to the
target's scale and records when it did so. The next reconcile reads that record back.

This project models the whole of that loop and proves what it keeps. `ControlLoop.dfy` has
one reconcile as a function from the stored state and the environment's answers to the state
it leaves. `Controller.dfy` has the program's own methods, on mutable objects, and shows that
they compute that function. Everything else is about the function, or about one of its parts:

| file | about |
|---|---|
| `StringList.dfy` | the finalizer list helpers, in place on a backing array |
| `Conditions.dfy` | the condition list, a list that has to be a map |
| `Limits.dfy` | the rate limits, over any float rounding |
| `Normalization.dfy` | the clamping cascade |
| `Watermark.dfy` | the watermark rule and its integer form |
| `Pods.dfy`, `Calculator.dfy` | which pods count, whose metrics, the metric loop |
| `Api.dfy` | defaulting and admission |
| `CountDynamics.dfy` | whether the count comes to rest under a constant load |
| `Growth.dfy` | counting spaced events and doublings |
| `Steps.dfy`, `StatusInvariants.dfy` | what one reconcile does and keeps |
| `Reports.dfy` | what the stored status tells about it |
| `Runs.dfy`, `SteadyRuns.dfy` | whole runs: cooldown, growth, range, finalizer, convergence |
| `Fleets.dfy`, `Inputs.dfy` | pods and readings for steady runs, and concrete inputs for what the code does not do |

`dafny verify dfyconfig.toml` checks all of it.

## The main results

- **Convergence, exactly.** Under a constant load the stored count comes to rest if and only
  if no two neighbouring counts in the range have too much and too little load a replica
  (`SteadyRuns.SteadyRunSettlesIff`). With such a gap no round ever keeps the count. With the
  high watermark at least twice the low one there is no gap, and a run moves one way only and
  stops within max - min rounds (`SteadyRuns.WideRunMovesOneWay`). Watermarks of 75 and 85 flap
  for ever (`CountDynamics.CloseMarksFlap`), and exactly the configurations that can have a gap
  are known (`CountDynamics.SomeLoadHasGapIff`). Such runs exist for every metric, load, count in
  the range and length (`SteadyRuns.SteadyRunsExist`).
- **Cooldown and growth over runs**: measured from whatever is on record, with arbitrary spec
  edits, scale changes and failed writes in between (`Runs.CooldownFollowsRecord`,
  `Runs.CooldownHolds`), and a bound on how far the count can grow (`Runs.GrowthIsBounded`).
- **Range safety over runs** (`Runs.RunWritesAreSafe`) and **recorded time matches action**,
  whichever of the updates are lost (`Steps.RecordedTimeMatchesAction`).
- **The stored status** is that of before after calls for the controller's own conditions, so
  other controllers' conditions and the order of dates survive every run
  (`StatusInvariants.StatusIsMadeOfCalls`, `StatusInvariants.TransitionsNeverGoBack`), and on every
  path it tells what happened (`Reports.MetricsAreReported`, `Reports.AbilityIsReported`,
  `Reports.RescaleIsReported`, `Reports.RejectedMetricIsReported`).
- **The finalizer helper** mutates the array it ranges over. Exactly when it goes out of range,
  and exactly when it drops every occurrence, is proved (`StringList.RemoveString`,
  `StringList.DropsAllIff`); the controller's own list never gets there
  (`Runs.OwnFinalizerStaysUnique`).

## Where the code does less than it seems to

Each of these is a property one would expect, and for which the code as it stands needs a
condition. The exact condition is proved, and a concrete input that fails it is given.

- A second copy of a string can make `RemoveString` fail or miss one: exactly when, in
  `StringList.RemoveString` and `StringList.DropsAllIff`; two lists, in `StringList.TwoCopiesCanFail`.
- A resource metric keyed by a pod that is not an owned, listed one survives the pruning. In
  average mode the mean is taken over zero pods if and only if there is one and no pod is ready
  (`Calculator.ZeroDivisorIff`, `Inputs.AverageOverNoPods`).
- The metric loop takes a zero for no proposal yet. It finds the maximum if and only if that is not
  zero or the last proposal is (`Calculator.MaximumIsFoundIff`, `Inputs.ZeroIsForgotten`).
- Outside the facts its caller establishes the cascade is no clamp (`Normalization.CascadeIsClampIff`,
  `Normalization.CascadeNeedsItsCaller`).
- An unchanged count is written and stamped if and only if no scale time was ever recorded
  (`Steps.UnchangedCountIsRescaledIff`, `Inputs.UnchangedCountIsWritten`).
- If the last status update after a live rescale is lost, so is the cooldown, and only then
  (`Runs.LostStampReopensGate`); two scale-ups at the same moment are in `Inputs.LostStampScalesTwice`.
- A spec without metrics scales down unless it is at its minimum (`Steps.NoMetricsShrinks`,
  `Inputs.NoMetricsTakesAway`).
- When some pods are not ready, a reading above the band can lower the count
  (`Watermark.HighReadingMayLower`, `Watermark.PendingPodsDownscale`), and a higher usage can lead
  to a lower proposal (`Watermark.ProposalIsMonotoneIff`, `Inputs.HigherUsageLowersCount`).
- The comment on the scale-up factor (api/v1/shpa_types.go:63) says its maximum sets the limit
  at the maximum number of replicas. In the code 100 percent doubles (`Limits.FullFactorDoubles`),
  which reaches the maximum if and only if doubling does (`Normalization.FullFactorReachesMaxIff`,
  `Inputs.FullFactorFallsShort`).
- The message of the admission check asks for a low watermark strictly below the high one; the
  check lets equal ones pass (`Api.AdmissionEstablishes`, `Inputs.EqualMarksPass`).
- The comment on `setStatus` speaks of updating the metric statuses; freshly computed ones
  never reach it (`Steps.CurrentMetricsAreCarried`).
- The copy of the status that later decides whether an update is needed is taken with the new
  dry-run condition already in it. A round that does not rescale therefore leaves an outdated one
  in store if and only if nothing else changed (`Reports.DryRunModeIsSavedIff`), and it
  may do so for ever (`Inputs.DryRunIsNotShown`).

## Assumptions

- Replica counts, watermarks in milli-units and metric values are unbounded integers; every
  conversion to int32 is taken to be in range (`Limits.LimitsFitInt32` says when that is so for
  the limits).
- The watermark rule is computed over exact reals. The rate limits are not idealised: their
  rounding is any function that is monotone and fixes the integers of up to 53 bits, as
  round-to-nearest is (section 4.3.1 of IEEE 754-2008), and with its error bound they are
  shown to be within one of the exact value.
- The clock counts seconds. A reconcile reads it once for its conditions and its gate, and
  again for each stamp. Where it matters, readings are not stamped later than the status is.
- Between reconciles the environment may do anything but write the SHPA's status, add the
  controller's finalizer, or bring a removed object back.
- The client reads from a cache (controllers/shpa_controller.go:154-155). A reconcile is taken to
  find the status that was stored last: with a stale one the run theorems about cooldown, growth
  and recorded time would need the cache to catch up first. A reconcile for itself
  (`Steps.dfy`) is about whatever state it was given.
- Where a result needs the CRD schema, it says `SchemaValid`; the schema does not rule out
  watermarks that are zero or negative, so results about the rule ask for `Sensible` ones.

## Model

| member | source | states |
|---|---|---|
| StringList.ContainsString | controllers/util/list.go:4-11 | answers membership |
| StringList.RemoveString | controllers/util/list.go:14-21 | on the shared array: fails exactly when the last element matches and an earlier one does; otherwise the array's prefix is the list with each match dropped and its follower kept unread |
| StringList.ScanStep | controllers/util/list.go:15-18 | one iteration, stale tail included, keeps the relation between the original list, what was passed and what is unread |
| StringList.DropsAllIff | controllers/util/list.go:14-21 | all occurrences go, in order, if and only if no two are neighbours |
| StringList.AtMostOneIsSafe | controllers/util/list.go:14-21 | with at most one copy it neither fails nor misses it |
| StringList.TwoCopiesCanFail | controllers/util/list.go:14-21 | two lists with two copies: a slice bounds error, and a copy left behind |
| Conditions.SetConditionInList | controllers/shpa_controller.go:673-700 | on the backing array: an entry found is edited in place, where all holders of the array see it, and a new one goes into spare capacity or a new array; the result is the list update, and nothing beyond it changes |
| Conditions.PutIsMapUpdate | controllers/shpa_controller.go:673-700 | one call is a map update of its type; every other type finds what it found |
| Conditions.PutTouchesOne | controllers/shpa_controller.go:676-697 | order is kept, one entry is touched, a new type goes last |
| Conditions.PutAllKeepsDistinct | controllers/shpa_controller.go:660-700 | over any calls no type comes to occur twice and the types stay where they are |
| Conditions.ListIsMap | controllers/shpa_controller.go:660-700 | over any calls the list is a map of independent entries |
| Conditions.EntryIsLastSet | controllers/shpa_controller.go:695-697 | an entry holds the status, reason and message of the last call that names its type |
| Conditions.UnmentionedIsKept | controllers/shpa_controller.go:676-682 | a type no call names keeps its entry |
| Conditions.TransitionIsLastFlip | controllers/shpa_controller.go:691-693 | the transition time is that of the last call that changed the status |
| Conditions.NoFlipKeepsTransition | controllers/shpa_controller.go:691-693 | without a change of status the transition time stays |
| Limits.LimitsAreRates | controllers/shpa_controller.go:703-711 | for every rounding a step may add or remove at least one replica and at most double or empty |
| Limits.FullFactorDoubles | controllers/shpa_controller.go:703-706 | for every rounding 100 percent allows exactly twice the current count |
| Limits.FullFactorEmpties | controllers/shpa_controller.go:708-711 | for every rounding 100 percent allows a step down to zero |
| Limits.LimitsFitInt32 | controllers/shpa_controller.go:705-710 | counts whose double is an int32 keep both conversions in range |
| Limits.StrideIsExactOrOneShort | controllers/shpa_controller.go:705-710 | with float64's error the step is exact, or one short where the exact quotient is an integer |
| Limits.LimitsNearExact | controllers/shpa_controller.go:703-711 | each limit is within one of the exact value, and exact where the quotient is no integer |
| Limits.LimitsAreExactUnrounded | controllers/shpa_controller.go:703-711 | where the quotients need no rounding the limits are the percentages rounded down, and at least one replica |
| Limits.OneShortHappens | controllers/shpa_controller.go:705 | a faithful rounding for which 29 percent of 100 is 28 |
| Normalization.CascadeIsClamp | controllers/shpa_controller.go:601-651 | given the caller's facts the cascade is a clamp to the rate limits cut to the range, an interval that holds the current count |
| Normalization.CascadeIsClampIff | controllers/shpa_controller.go:609-644 | without those facts, a minimum of zero included, it is that clamp if and only if the interval is not empty or the proposal is below it |
| Normalization.FullFactorReachesMaxIff | api/v1/shpa_types.go:63-66 | at the largest factor one step may reach the maximum if and only if the maximum is at most twice the current count |
| Inputs.FullFactorFallsShort | api/v1/shpa_types.go:63-66 | one replica, 100 percent, maximum ten: two |
| Normalization.CascadeNeedsItsCaller | controllers/shpa_controller.go:613-626 | an input outside those facts for which the maximum is exceeded |
| Normalization.ReasonNamesBound | controllers/shpa_controller.go:613-650 | each reason is given if and only if its bound was hit, and the neutral one if and only if the proposal is unchanged |
| Normalization.NoReasonIff | controllers/shpa_controller.go:609-628 | no reason is given if and only if there is no minimum and the proposal is below one |
| Normalization.CascadeIsWellBehaved | controllers/shpa_controller.go:601-651 | monotone, non-expansive, idempotent, never against the proposal's direction |
| Normalization.CascadeMakesProgress | controllers/shpa_controller.go:601-651 | the count moves if and only if the proposal differs and the range allows it, and at most doubles |
| Watermark.RuleIsIntegral | algorithm/watermark/waterwark_calculator.go:172-193 | on a sum over a positive divisor the float rule is exact integer arithmetic, band, ceil and floor included |
| Watermark.ZeroMarksAreOpen | algorithm/watermark/waterwark_calculator.go:177-185 | a zero high mark above the band, or a zero low one below it, leaves the proposal to the conversion of an infinity |
| Watermark.AverageProposalIsOptimal | algorithm/watermark/waterwark_calculator.go:68-71 | above the band the least count within the high watermark, below it the greatest at the low one or one, inside it no change |
| Watermark.WholeSumIsOptimal | algorithm/watermark/waterwark_calculator.go:172-193 | without an average the proposal is optimal for the sum times the ready count |
| Watermark.AverageProposalIsPathIndependent | algorithm/watermark/waterwark_calculator.go:172-185 | two ready counts on the same side of the band lead to the same proposal |
| Watermark.SideDecidesDirection | algorithm/watermark/waterwark_calculator.go:177-190 | with all replicas ready: more if and only if above the band, the same inside, fewer or one below; never both sides at once |
| Watermark.ProposalIsMonotone | algorithm/watermark/waterwark_calculator.go:177-192 | with every current replica ready a higher usage never leads to a lower proposal |
| Watermark.ProposalIsMonotoneIff | algorithm/watermark/waterwark_calculator.go:177-192 | for any number of ready pods: a higher usage leads to a lower proposal in exactly two cases, each with one usage in the band and the other's proposal on the wrong side of the current count |
| Inputs.HigherUsageLowersCount | algorithm/watermark/waterwark_calculator.go:177-192 | three replicas, one ready: 80 keeps three, 90 makes two |
| Watermark.HighReadingMayLower | algorithm/watermark/waterwark_calculator.go:178-179 | with fewer ready pods a reading above the band lowers the count if and only if their usage fits in one replica fewer |
| Watermark.PendingPodsDownscale | controllers/back/replica_calculator_test.go:1223-1276 | the test's three replicas, one ready and above the mark, become two |
| Pods.CheckOwnerRef | algorithm/watermark/waterwark_calculator.go:232-242 | true if and only if some ReplicaSet or StatefulSet owner has the target's name as a prefix |
| Pods.OwnedIff | algorithm/watermark/waterwark_calculator.go:232-242 | a pod is the target's if and only if some ReplicaSet or StatefulSet owner is named after the target, whatever follows |
| Pods.GetPodCondition | algorithm/watermark/waterwark_calculator.go:302-312 | the first condition of the kind with its index, or none and -1 |
| Pods.GetReadyPodsCount | algorithm/watermark/waterwark_calculator.go:195-231 | the exact number of tolerated pods, between one and the list's length; an error if and only if there is none or no list |
| Pods.ToleratedIff | algorithm/watermark/waterwark_calculator.go:204-226 | a pod is counted if and only if it is owned, started, and by its first Ready condition either running and ready or pending for less than the delay |
| Pods.GroupPods | algorithm/watermark/waterwark_calculator.go:244-292 | the names of exactly the ready and exactly the ignored pods |
| Pods.GroupedByPhase | algorithm/watermark/waterwark_calculator.go:251-271 | foreign pods and those without a metric are in neither set, failed and pending ones are ignored, and for any resource but the CPU the others are ready |
| Pods.StartingPodsAreIgnored | algorithm/watermark/waterwark_calculator.go:273-289 | for the CPU a pod is ignored if and only if its readiness is unknown, or it is unready since before its initial delay was over; otherwise it is ready |
| Pods.PodMetricsInfo.RemoveMetricsForPods | algorithm/watermark/waterwark_calculator.go:294-298 | the map loses exactly the keys of the set |
| Pods.PodMetricsInfo.Sum | algorithm/watermark/waterwark_calculator.go:163-166 | the total of the map, in whatever order it is walked |
| Pods.TotalWithout | algorithm/watermark/waterwark_calculator.go:163-166 | any key may be taken out first |
| Pods.SumIsOrderIndependent | algorithm/watermark/waterwark_calculator.go:163-166 | every iteration order adds up to the same sum |
| Pods.ReadySurvivesPruning | algorithm/watermark/waterwark_calculator.go:150-153 | with unique names ready and ignored are disjoint and ready pods keep their metrics |
| Pods.RemainingIsReadyIff | algorithm/watermark/waterwark_calculator.go:150-156 | what remains are the ready pods' metrics if and only if every metric is that of an owned, listed pod |
| Calculator.GetExternalMetricReplicas | algorithm/watermark/waterwark_calculator.go:44-99 | the method with its loops computes the outcome: errors for missing marks, pods or metric, else the rule on the sum over the divisor |
| Calculator.ExternalProposalIff | algorithm/watermark/waterwark_calculator.go:44-99 | there is a proposal if and only if marks, series and a tolerated pod are there, and it is the rule on the sum of the series, divided by the tolerated pods in average mode only |
| Calculator.SumIsAdditive | algorithm/watermark/waterwark_calculator.go:86-89 | one series adds up to its value, and two lists of them to both sums |
| Calculator.SumIgnoresOrder | algorithm/watermark/waterwark_calculator.go:86-89 | every order of the series has the same sum |
| Calculator.AbsoluteExternalIsOptimal | algorithm/watermark/waterwark_calculator.go:68-98 | the same for an external metric |
| Inputs.AbsoluteIsNotAveraged | algorithm/watermark/waterwark_calculator.go:68-98 | five ready pods, series of 120 and 80: five replicas in average mode, thirteen in absolute mode |
| Calculator.GetResourceReplicas | algorithm/watermark/waterwark_calculator.go:103-171 | grouping, pruning in place and summing compute the outcome from the ready and remaining sets |
| Calculator.ResourceProposalIff | algorithm/watermark/waterwark_calculator.go:103-171 | there is a proposal if and only if marks, pods and a metric that survives pruning are there, and it is the rule on their sum, divided by the ready pods in average mode only; without any, the sign of the sum decides |
| Calculator.AbsoluteProposalIsOptimal | algorithm/watermark/waterwark_calculator.go:158-185 | in absolute mode, the default: the fewest replicas above the band, the most below it, for the whole sum times the ready count |
| Calculator.AdmittedNeverFaults | controllers/shpa_controller.go:480-531 | no metric of an admitted spec is skipped, unsupported or follows a nil pointer |
| Calculator.FaultsIff | controllers/shpa_controller.go:489-531 | of any spec: which metric is skipped, which follows a nil pointer and which is refused for its type |
| Calculator.ExternalProposalIsPositive | algorithm/watermark/waterwark_calculator.go:64-98 | an external proposal is computed from at least one ready pod and is at least one |
| Calculator.ResourceProposalIsPositiveIff | algorithm/watermark/waterwark_calculator.go:150-169 | in both modes: a resource proposal is at least one if and only if some pod is ready or the sum keeps it so |
| Calculator.ResourceUsesTrueMean | algorithm/watermark/waterwark_calculator.go:150-169 | if every metric is accounted for, the usage is the mean over the ready pods and there is at least one |
| Calculator.ZeroDivisorIff | algorithm/watermark/waterwark_calculator.go:150-167 | a proposal is computed with a divisor of zero if and only if the mode is average, no pod is ready and some metric is not accounted for |
| Inputs.AverageOverNoPods | algorithm/watermark/waterwark_calculator.go:150-167 | one listed pod that is not the target's and the metric of another: the average over no pods is proposed |
| Calculator.TallyFailsIff | controllers/shpa_controller.go:489-531 | there is a recommendation if and only if no metric fails, and the first failure decides how it ends |
| Calculator.TallyIsFirstMaximum | controllers/shpa_controller.go:533-543 | the recommendation is the largest proposal, if that is at least one, with the time and name of the first metric attaining it, whatever is skipped |
| Calculator.MaximumIsFoundIff | controllers/shpa_controller.go:533-543 | for any counts: the recommendation is the maximum if and only if that is not zero or the last proposal is |
| Inputs.ZeroIsForgotten | controllers/shpa_controller.go:533-543 | zero, then three less: three less is recommended |
| Calculator.TallyIsSomeProposal | controllers/shpa_controller.go:533-543 | it is always one of the proposals, time and name included, if there is any |
| Api.DefaultingIsIdempotent | api/v1/shpa_default.go:32-85 | a defaulted spec passes the test; defaulting is the identity if and only if the spec passes already |
| Api.DefaultingOnlyFills | api/v1/shpa_default.go:21-58 | a field changes only if it was unset, and then to its documented default; the other fields never do |
| Api.CheckMetricsValidity | api/v1/shpa_default.go:101-145 | no error if and only if no metric has one; otherwise that of the first faulty metric |
| Api.RefusedFor | api/v1/shpa_default.go:87-145 | which objection to a spec and to a metric comes first |
| Api.TextsDiffer | api/v1/shpa_default.go:89-145 | each objection has a text of its own, so that the reported one tells which it was |
| Api.AdmissionEstablishes | api/v1/shpa_default.go:61-145 | under the CRD schema the two checks pass if and only if the loop's preconditions hold |
| Inputs.EqualMarksPass | api/v1/shpa_default.go:101-145 | equal watermarks are admitted |
| CountDynamics.Rises | algorithm/watermark/waterwark_calculator.go:178-179 | above the band the count rises strictly unless at the maximum, and not past a count within the high watermark |
| CountDynamics.Falls | algorithm/watermark/waterwark_calculator.go:181-184 | below the band it falls strictly unless at the minimum, and not past a count at the low watermark |
| CountDynamics.RestIff | controllers/shpa_controller.go:387-397 | the count rests if and only if it is in the band or at an end of the range with nowhere to go |
| CountDynamics.SettlesIffNoGap | controllers/shpa_controller.go:387-397 | from any count it comes to rest if and only if there is no gap, within twice the width of the range |
| CountDynamics.QuietHasNoGap | algorithm/watermark/waterwark_calculator.go:174-181 | a check on the configuration that rules gaps out for every load |
| CountDynamics.SomeLoadHasGapIff | algorithm/watermark/waterwark_calculator.go:174-181 | some load has a gap if and only if a multiple of 100 lies strictly between the edges of two neighbouring counts |
| CountDynamics.WideIsQuiet | algorithm/watermark/waterwark_calculator.go:174-181 | a high watermark of at least twice the low one passes it |
| CountDynamics.WideMovesOneWay | algorithm/watermark/waterwark_calculator.go:172-193 | with such marks the count moves one way, strictly until rest, within the width of the range |
| CountDynamics.CloseMarksFlap | algorithm/watermark/waterwark_calculator.go:172-193 | low 75000, high 85000, tolerance 1, load 86000: one and two replicas in turn, for ever |
| Controller.Shpa.SetCondition | controllers/shpa_controller.go:660-668 | the object's status with its conditions updated and nothing else changed |
| Controller.Shpa.ReplaceStatus | controllers/shpa_controller.go:457-470 | the rebuilt status: what is not an argument, a condition or the recorded time is dropped; the time is stamped on a rescale |
| Controller.Shpa.DefaultSHPA | api/v1/shpa_default.go:32-58 | a fresh copy, field by field the defaulted spec; the original is left alone |
| Controller.Cluster.UpdateStatusIfNeeded | controllers/shpa_controller.go:573-579 | writes only if something changed, and fails only if it wrote |
| Controller.SHPAReconciler.HandleFinalizer | controllers/finalizer.go:12-61 | computes the finalizer step: removal on deletion, addition otherwise, and where it stops |
| Controller.SHPAReconciler.NormalizeDesiredReplicas | controllers/shpa_controller.go:585-598 | the normalised count, and ScalingLimited set on the object |
| Controller.SHPAReconciler.ShouldScale | controllers/shpa_controller.go:406-438 | the gate's answer and the conditions it sets |
| Controller.SHPAReconciler.ComputeReplicasForMetrics | controllers/shpa_controller.go:472-544 | the metric loop computes the recommendation, and sets its condition only if there is one |
| Controller.SHPAReconciler.ComputeReplicas | controllers/shpa_controller.go:343-404 | the branches compute the verdict; without metrics the status is saved here |
| Controller.SHPAReconciler.RescaleReplicas | controllers/shpa_controller.go:305-340 | dry run, rejected and accepted update: what is written, stored and kept in hand |
| Controller.SHPAReconciler.ReconcileSHPA | controllers/shpa_controller.go:249-303 | computes that part of the reconcile function, reply included |
| Controller.SHPAReconciler.Reconcile | controllers/shpa_controller.go:175-246 | the whole method computes the reconcile function that the theorems are about |
| Controller.FailureSticks | controllers/shpa_controller.go:491-511 | once a metric has failed the rest of the list makes no difference |
| Steps.GateIff | controllers/shpa_controller.go:406-448 | a metric-driven verdict rescales if and only if nothing is recorded, or the count changes and that direction's window has passed |
| Steps.UnchangedCountIsRescaledIff | controllers/shpa_controller.go:407-410 | an unchanged count is rescaled if and only if nothing was ever recorded |
| Inputs.UnchangedCountIsWritten | controllers/shpa_controller.go:407-410 | one replica, wanted one, nothing recorded: the one is written and stamped |
| Steps.NoMetricsShrinks | controllers/shpa_controller.go:480-543 | a spec without metrics wants as few replicas as one step may leave: fewer than there are if and only if there are more than the minimum |
| Steps.RangeIsEnforced | controllers/shpa_controller.go:358-372 | a count outside the range is written as the bound it broke, zero as one, at once and whatever was recorded; a target scaled to zero is left alone |
| Steps.StoppingShortIsInert | controllers/shpa_controller.go:188-229 | every exit before the verdict leaves scale and recorded time alone |
| Steps.VerdictTakesEffect | controllers/shpa_controller.go:285-340 | what a verdict does to the scale, the log of writes, the recorded time and the rest of the object |
| Steps.RecordedTimeMatchesAction | controllers/shpa_controller.go:451-470 | which time is on record after a reconcile, for every choice of lost updates, live or dry: unchanged without action, the last stamp if the last update is saved, a dry run's first stamp if only its first is |
| Steps.RejectedUpdateIsInert | controllers/shpa_controller.go:322-334 | a rejected scale update changes neither stored count nor recorded time |
| Steps.FailedMetricIsInert | controllers/shpa_controller.go:375-386 | if any metric fails nothing is scaled and no time recorded |
| Steps.FirstFailureDecides | controllers/shpa_controller.go:375-386 | the first metric to fail decides whether the round ends in an error or in a panic |
| Steps.WritesAreSafe | controllers/shpa_controller.go:358-402 | at most one write, in range, never for a disabled target, in a dry run or on deletion |
| Steps.CurrentMetricsAreCarried | controllers/shpa_controller.go:280-300 | the stored metric statuses are carried along unchanged |
| Inputs.NoMetricsTakesAway | controllers/shpa_controller.go:480-543 | two replicas and no metrics: one is taken away |
| Steps.DefaultsOnce | controllers/shpa_controller.go:202-212 | the defaulting exit is taken if and only if the spec needs it and the update succeeds, and leaves a spec that does not |
| Steps.StopsIff | controllers/shpa_controller.go:188-229 | when the loop stops requeueing: object gone or deleted, finalizer not added, or refusal on record |
| Steps.RetriesIff | controllers/shpa_controller.go:188-229 | when the loop is retried at once, and when it crashes on the finalizer list |
| Steps.ComesBack | controllers/shpa_controller.go:179-182 | back after one second if and only if the scale is not found or the last status update was needed and failed, and after the sync period otherwise |
| StatusInvariants.ConditionsStayAMap | controllers/shpa_controller.go:660-700 | in every run no condition type is stored twice |
| StatusInvariants.StatusIsMadeOfCalls | controllers/shpa_controller.go:657-700 | whatever a reconcile stores, its conditions are the stored ones after calls for the controller's own types, all at the moment of the reconcile |
| StatusInvariants.ConditionsAreRedated | controllers/shpa_controller.go:691-697 | a reconcile loses no condition, leaves those of others alone and dates what it changes by its clock |
| StatusInvariants.TransitionsNeverGoBack | controllers/shpa_controller.go:691-697 | over a run no condition is lost, no transition time goes back, and conditions of others stay as they are |
| StatusInvariants.ReconcileKeepsSpec | controllers/shpa_controller.go:202-212 | only defaulting changes a spec, and a defaulted one not at all |
| StatusInvariants.DefaultingHappensOnce | controllers/shpa_controller.go:202-212 | between spec edits the defaulting exit is taken at most once |
| Reports.LimitedIffOutside | controllers/shpa_controller.go:591-595 | ScalingLimited is True if and only if the proposal lies outside the interval |
| Reports.MetricsAreReported | controllers/shpa_controller.go:541-598 | after a saved metric-driven verdict ScalingActive names the winning metric and ScalingLimited the bound that was hit |
| Reports.EnforcementIsReported | controllers/shpa_controller.go:358-374 | after any other saved verdict a disabled target is reported, and a count brought into range leaves both conditions as they were |
| Reports.RefusalIsReported | controllers/shpa_controller.go:213-229 | a refused spec is put on record with its reason, and nothing else changes |
| Reports.EarlyExitsStoreNoStatus | controllers/shpa_controller.go:188-275 | no other exit before the verdict stores a status |
| Reports.BackoffIsReported | controllers/shpa_controller.go:412-437 | AbleToScale tells exactly which windows are still running, with a new transition time if it was True before |
| Reports.AbilityIsReported | controllers/shpa_controller.go:406-438 | what is stored of it after a round that does not rescale: while a window runs it is False, and dated by the last round however long it has been |
| Reports.RescaleIsReported | controllers/shpa_controller.go:305-340 | if the status update that carries it goes through, the stored status tells the replicas seen and wanted and whether the rescale was inhibited, rejected with its error, or made |
| Reports.FailedMetricsAreReported | controllers/shpa_controller.go:376-386 | when the metrics fail the status in hand is stored all the same, with the scale reported as read and only conditions changed |
| Reports.RejectedMetricIsReported | controllers/shpa_controller.go:375-386 | if the first metric to fail is refused the status is stored, with the scale reported as read |
| Reports.FaultStoresNothing | controllers/shpa_controller.go:249-254 | if it follows a nil pointer the panic is swallowed and nothing is stored |
| Reports.QuietRoundIsReported | controllers/shpa_controller.go:295-301 | a round that does not rescale stores the replicas it saw, as seen and as wanted, and drops the observed generation |
| Reports.DryRunModeIsSavedIff | controllers/shpa_controller.go:231-301 | after a saved round that does not rescale the stored dry-run condition is that of the spec if and only if it was before or something else changed |
| Reports.StoredStatusShowsMode | controllers/shpa_controller.go:231-301 | a reconcile that gets to the scale leaves the status alone or stores one whose dry-run condition is that of the spec |
| Inputs.DryRunIsNotShown | controllers/shpa_controller.go:573-579 | a status of a disabled target that denies the dry run its spec now asks for: no reconcile ever changes it |
| Runs.LastScaleTimeNeverGoesBack | controllers/shpa_controller.go:457-470 | the recorded time never goes back over a run |
| Runs.CooldownFollowsRecord | controllers/shpa_controller.go:406-448 | whatever is on record after a reconcile, every later metric-driven rescale is stamped at least its direction's window after it |
| Runs.CooldownHolds | controllers/shpa_controller.go:406-448 | so it is after every earlier rescale whose stamp was saved: by the last update, and in a dry run by both |
| Runs.LostStampReopensGate | controllers/shpa_controller.go:300-301 | after a live scale-up the record is its stamp if and only if the last update was saved, and the gate opens for the next one exactly a window after what is on record |
| Inputs.LostStampScalesTwice | controllers/shpa_controller.go:300-301 | a run of two reconciles, stamps lost: both scale up at the same moment |
| Runs.UpsAreRare | controllers/shpa_controller.go:416-447 | in any stretch of a run at most one scale-up a window, and one more |
| Runs.GrowthIsBounded | controllers/shpa_controller.go:703-706 | the count at most doubles once a window, and once more |
| Runs.RunWritesAreSafe | controllers/shpa_controller.go:290-323 | over a run the log grows by at most one value a reconcile, each in the range configured at the very reconcile that sent it |
| Runs.FinalizerStepIsSafe | controllers/finalizer.go:12-43 | with at most one copy a reconcile never fails on it, keeps at most one, and removes it on deletion keeping the others in order |
| Runs.FinalizerIsAdded | controllers/finalizer.go:36-57 | a list without the finalizer gets it at its end once the update is accepted; one that has it is left as it is |
| Runs.OwnFinalizerStaysUnique | controllers/finalizer.go:12-61 | over a run the finalizer stays unique and no reconcile fails on it |
| Runs.DeletionEndsScaling | controllers/finalizer.go:15-33 | a resource marked for deletion is never scaled again |
| SteadyRuns.SteadyRunsExist | controllers/shpa_controller.go:343-404 | for an external or a resource metric, from every count in the range and for every load and length there is such a run, one that can go on, and it is a run in the general sense too |
| SteadyRuns.SteadyStep | controllers/shpa_controller.go:370-397 | a reconcile under steady load moves the stored count by one round of the dynamics |
| SteadyRuns.RunFollowsDynamics | controllers/shpa_controller.go:343-404 | the stored counts of a steady run are a trajectory of the dynamics |
| SteadyRuns.SteadyRunSettlesIff | controllers/shpa_controller.go:343-404 | a steady run settles, in the band or at an end, if and only if the load has no gap |
| SteadyRuns.WideRunMovesOneWay | controllers/shpa_controller.go:343-404 | with wide marks a steady run never turns round and stops within max - min rounds |

## Left out

- Informers, REST mapping, the scale client, leader election, event recording and logging: reads and writes that may fail are inputs of a reconcile.
- A fetch error other than NotFound, on which the program goes on with an empty object: the fetch succeeds or reports NotFound.
- Float rounding in the watermark rule, overflow of the int64 sum and int32 conversions out of range: the arithmetic is exact.
- The utilisation figure that goes with a proposal: it only reaches metric statuses, which are dropped.
- The text of messages: a message is kept as its arguments, its fixed text going with the reason.
- Conditions set on an object that is then discarded (after a failed update, and FailedProcessSHPA): they are never stored.
- Controller.Shpa.SetCondition: the object's condition list is a field that the methods reassign; the in-place edit is in `Conditions.SetConditionInList`, and that another holder of the object's own array would see it is not followed through the controller.
- The methods CalculateScaleUpLimit and CalculateScaleDownLimit of the calculator: copies of the controller's limit functions.
- Label selectors, quantities and API group parsing: taken as given; a failing selector is a missing list.
- The older calculator in controllers/back: a copy, used only for its test vectors.
