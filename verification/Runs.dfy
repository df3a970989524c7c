/**
 Whole runs: reconciles with arbitrary moves of the environment between them. The
 environment may edit the spec, change the scale, add and remove other finalizers, mark the
 object for deletion or remove it; it does not write the SHPA's status, add the
 controller's finalizer or bring a removed object back.
 */
module Runs {
  import opened Wrappers
  import opened Limits
  import opened StringList
  import opened Api
  import opened Calculator
  import opened ControlLoop
  import opened Steps
  import opened Growth

  ghost predicate EnvironmentMove(a: World, b: World) {
    && b.writes == a.writes
    && (b.shpa.Some? ==>
          && a.shpa.Some?
          && b.shpa.value.status == a.shpa.value.status
          && (a.shpa.value.deleting ==> b.shpa.value.deleting)
          && Count(b.shpa.value.finalizers, FINALIZER) <= Count(a.shpa.value.finalizers, FINALIZER))
  }

  /** State i is what reconcile i finds; its end and the beginning of the next are in order. */
  ghost predicate Linked(rnd: Rounding, ws: seq<World>, es: seq<Env>, i: int)
    requires 0 <= i < |ws| - 1 && |ws| == |es|
  {
    EnvironmentMove(Reconcile(rnd, ws[i], es[i]).world, ws[i + 1]) && es[i].lastStamp <= es[i + 1].now
  }

  ghost predicate Ticks(e: Env) { e.now <= e.firstStamp <= e.lastStamp }

  ghost predicate IsRun(rnd: Rounding, ws: seq<World>, es: seq<Env>) {
    && |ws| == |es| && 0 < |ws|
    && (forall i :: 0 <= i < |es| ==> Ticks(es[i]))
    && (forall i :: 0 <= i < |es| - 1 ==> Linked(rnd, ws, es, i))
    && ClockInOrder(ws[0], es[0])
  }

  /** Recorded times in order: none at all, or one that is not later. */
  predicate NotLater(a: Option<int>, b: Option<int>) { a.Some? ==> b.Some? && a.value <= b.value }

  lemma StepAdvancesRecord(rnd: Rounding, w: World, e: Env)
    requires ClockInOrder(w, e)
    ensures var p := Reconcile(rnd, w, e).world;
            p.shpa.Some? ==>
              w.shpa.Some? && NotLater(LastScale(w), LastScale(p)) && NotLater(LastScale(p), Some(e.lastStamp))
  {
    if Reaches(w, e) {
      VerdictTakesEffect(rnd, w, e);
    } else {
      StoppingShortIsInert(rnd, w, e);
    }
  }

  lemma {:induction false} InOrderThroughout(rnd: Rounding, ws: seq<World>, es: seq<Env>, j: nat)
    requires IsRun(rnd, ws, es) && j < |ws|
    ensures ClockInOrder(ws[j], es[j])
    ensures es[0].now <= es[j].now
  {
    if j > 0 {
      InOrderThroughout(rnd, ws, es, j - 1);
      assert Linked(rnd, ws, es, j - 1) && Ticks(es[j]) && Ticks(es[j - 1]);
      StepAdvancesRecord(rnd, ws[j - 1], es[j - 1]);
    }
  }

  /** LastScaleTime never goes backwards over a run. */
  lemma {:induction false} LastScaleTimeNeverGoesBack(rnd: Rounding, ws: seq<World>, es: seq<Env>, i: nat, j: nat)
    requires IsRun(rnd, ws, es) && i <= j < |ws|
    ensures ws[j].shpa.Some? ==> ws[i].shpa.Some? && NotLater(LastScale(ws[i]), LastScale(ws[j]))
  {
    if i < j {
      LastScaleTimeNeverGoesBack(rnd, ws, es, i, j - 1);
      InOrderThroughout(rnd, ws, es, j - 1);
      StepAdvancesRecord(rnd, ws[j - 1], es[j - 1]);
      assert Linked(rnd, ws, es, j - 1);
    }
  }

  /** No metric is stamped later than the moment the status is. */
  ghost predicate MetricsTimely(e: Env) {
    forall i :: 0 <= i < |e.readings| ==> e.readings[i].timestamp <= e.firstStamp
  }

  lemma {:induction false} TallyTakesATimestamp(outcomes: seq<Outcome>)
    ensures Tally(outcomes).Recommended? && Tally(outcomes).replicas > 0 ==>
              exists i :: 0 <= i < |outcomes| && outcomes[i].Proposed?
                          && outcomes[i].timestamp == Tally(outcomes).timestamp
  {
    if outcomes != [] {
      var n := |outcomes| - 1;
      TallyTakesATimestamp(outcomes[..n]);
      if Tally(outcomes).Recommended? && Tally(outcomes).replicas > 0 && Tally(outcomes) == Tally(outcomes[..n]) {
        var i :| 0 <= i < n && outcomes[..n][i].Proposed? && outcomes[..n][i].timestamp == Tally(outcomes).timestamp;
        assert outcomes[i].Proposed?;
      }
    }
  }

  lemma RecommendationIsTimely(spec: ShpaSpec, current: int, e: Env)
    requires MetricsTimely(e)
    ensures var r := Recommend(spec, current, e); r.Recommended? && r.replicas > 0 ==> r.timestamp <= e.firstStamp
  {
    var os := Outcomes(spec, current, e.readings, e.now, |spec.metrics|);
    TallyTakesATimestamp(os);
    var r := Tally(os);
    if r.Recommended? && r.replicas > 0 {
      var i :| 0 <= i < |os| && os[i].Proposed? && os[i].timestamp == r.timestamp;
      OutcomeIsTimely(spec, spec.metrics[i], current, ReadingAt(e.readings, i), e.now);
      assert i < |e.readings| && e.readings[i].timestamp <= e.firstStamp;
    }
  }

  lemma OutcomeIsTimely(spec: ShpaSpec, m: MetricSpec, current: int, r: Reading, now: int)
    requires MetricOutcome(spec, m, current, r, now).Proposed?
    ensures MetricOutcome(spec, m, current, r, now).timestamp == r.timestamp && r.pods.Some?
  {
  }

  ghost predicate ScalesUp(rnd: Rounding, w: World, e: Env) {
    MetricDriven(w, e) && Acts(rnd, w, e) && Wanted(rnd, w, e) > w.scale.status
  }

  ghost predicate ScalesDown(rnd: Rounding, w: World, e: Env) {
    MetricDriven(w, e) && Acts(rnd, w, e) && Wanted(rnd, w, e) < w.scale.status
  }

  /** What is on record after reconcile i is still there, or something later is, at j. */
  lemma RecordLasts(rnd: Rounding, ws: seq<World>, es: seq<Env>, i: nat, j: nat)
    requires IsRun(rnd, ws, es) && i < j < |ws|
    ensures ws[j].shpa.Some? ==> NotLater(LastScale(Reconcile(rnd, ws[i], es[i]).world), LastScale(ws[j]))
  {
    assert Linked(rnd, ws, es, i);
    LastScaleTimeNeverGoesBack(rnd, ws, es, i + 1, j);
  }

  lemma GateRespectsRecord(rnd: Rounding, w: World, e: Env)
    requires Ticks(e) && MetricsTimely(e) && LastScale(w).Some?
    ensures ScalesUp(rnd, w, e) ==> LastScale(w).value + SpecOf(w).upscaleWindow <= e.lastStamp
    ensures ScalesDown(rnd, w, e) ==> LastScale(w).value + SpecOf(w).downscaleWindow <= e.lastStamp
  {
    if MetricDriven(w, e) {
      GateIff(rnd, w, e);
      RecommendationIsTimely(SpecOf(w), w.scale.status, e);
      assert GateTime(w, e) <= e.lastStamp;
    }
  }

  /**
   Cooldown over whole runs: whatever time is on record after a reconcile, every later
   metric-driven scale-up (scale-down) is stamped at least one upscale (downscale) window
   after it, the window being the one configured at that moment.
   */
  lemma CooldownFollowsRecord(rnd: Rounding, ws: seq<World>, es: seq<Env>, i: nat, j: nat)
    requires IsRun(rnd, ws, es) && i < j < |ws| && MetricsTimely(es[j])
    requires LastScale(Reconcile(rnd, ws[i], es[i]).world).Some?
    ensures var recorded := LastScale(Reconcile(rnd, ws[i], es[i]).world).value;
            && (ScalesUp(rnd, ws[j], es[j]) ==> recorded + SpecOf(ws[j]).upscaleWindow <= es[j].lastStamp)
            && (ScalesDown(rnd, ws[j], es[j]) ==> recorded + SpecOf(ws[j]).downscaleWindow <= es[j].lastStamp)
  {
    RecordLasts(rnd, ws, es, i, j);
    assert Ticks(es[j]);
    if ws[j].shpa.Some? {
      GateRespectsRecord(rnd, ws[j], es[j]);
    }
  }

  /** In particular it is a window after every earlier rescale whose stamp was saved. */
  lemma CooldownHolds(rnd: Rounding, ws: seq<World>, es: seq<Env>, i: nat, j: nat)
    requires IsRun(rnd, ws, es) && i < j < |ws| && MetricsTimely(es[j])
    requires Acts(rnd, ws[i], es[i]) && StampSaved(ws[i], es[i])
    ensures ScalesUp(rnd, ws[j], es[j]) ==> es[i].lastStamp + SpecOf(ws[j]).upscaleWindow <= es[j].lastStamp
    ensures ScalesDown(rnd, ws[j], es[j]) ==> es[i].lastStamp + SpecOf(ws[j]).downscaleWindow <= es[j].lastStamp
  {
    InOrderThroughout(rnd, ws, es, i);
    VerdictTakesEffect(rnd, ws[i], es[i]);
    CooldownFollowsRecord(rnd, ws, es, i, j);
  }

  /**
   A live rescale is on record if and only if its last status update goes through. If it is
   lost the gate is as open as it was: it lets the same direction through at any later
   gate time, and again only a window after what was on record before.
   */
  lemma LostStampReopensGate(rnd: Rounding, w: World, e: Env, w': World, e': Env)
    requires ScalesUp(rnd, w, e) && !SpecOf(w).dryRun && ClockInOrder(w, e)
    requires EnvironmentMove(Reconcile(rnd, w, e).world, w') && MetricDriven(w', e')
    requires Wanted(rnd, w', e') > w'.scale.status
    ensures LastScale(w') == if e.lastStatusSaved then Some(e.lastStamp) else LastScale(w)
    ensures var u := SpecOf(w').upscaleWindow;
            VerdictOf(rnd, w', e').rescale <==>
              if e.lastStatusSaved then e.lastStamp + u <= GateTime(w', e')
              else LastScale(w).None? || LastScale(w).value + u <= GateTime(w', e')
  {
    RecordedTimeMatchesAction(rnd, w, e);
    GateIff(rnd, w', e');
  }

  /** Which reconciles of a run are metric-driven scale-ups, and when each is stamped. */
  ghost function UpMarks(rnd: Rounding, ws: seq<World>, es: seq<Env>, n: nat): (b: seq<bool>)
    requires n <= |ws| == |es|
    ensures |b| == n && forall i :: 0 <= i < n ==> b[i] == ScalesUp(rnd, ws[i], es[i])
  {
    if n == 0 then [] else UpMarks(rnd, ws, es, n - 1) + [ScalesUp(rnd, ws[n - 1], es[n - 1])]
  }

  function Stamps(es: seq<Env>): (t: seq<int>)
    ensures |t| == |es| && forall i :: 0 <= i < |t| ==> t[i] == es[i].lastStamp
  {
    if es == [] then [] else Stamps(es[..|es| - 1]) + [es[|es| - 1].lastStamp]
  }

  /** Every stamp of the run is saved, metrics are timely and the window is at least u. */
  ghost predicate Recorded(ws: seq<World>, es: seq<Env>, u: int) {
    && |ws| == |es|
    && (forall i :: 0 <= i < |es| ==> StampSaved(ws[i], es[i]) && MetricsTimely(es[i]))
    && (forall i :: 0 <= i < |ws| && ws[i].shpa.Some? ==> SpecOf(ws[i]).upscaleWindow >= u)
  }

  lemma {:induction false} NowAdvances(rnd: Rounding, ws: seq<World>, es: seq<Env>, i: nat, j: nat)
    requires IsRun(rnd, ws, es) && i <= j < |ws|
    ensures es[i].now <= es[j].now <= es[j].lastStamp && es[i].lastStamp <= es[j].lastStamp
  {
    assert Ticks(es[j]);
    if i < j {
      NowAdvances(rnd, ws, es, i, j - 1);
      assert Linked(rnd, ws, es, j - 1);
    }
  }

  lemma UpsKeepDistance(rnd: Rounding, ws: seq<World>, es: seq<Env>, u: int, i: nat, j: nat)
    requires IsRun(rnd, ws, es) && Recorded(ws, es, u) && i < j < |ws|
    requires ScalesUp(rnd, ws[i], es[i]) && ScalesUp(rnd, ws[j], es[j])
    ensures es[i].lastStamp + u <= es[j].lastStamp
  {
    assert StampSaved(ws[i], es[i]) && MetricsTimely(es[j]);
    CooldownHolds(rnd, ws, es, i, j);
  }

  lemma UpsAreSpaced(rnd: Rounding, ws: seq<World>, es: seq<Env>, u: int)
    requires IsRun(rnd, ws, es) && Recorded(ws, es, u)
    ensures Spaced(UpMarks(rnd, ws, es, |ws|), Stamps(es), u)
  {
    var marked, times := UpMarks(rnd, ws, es, |ws|), Stamps(es);
    forall i, j | 0 <= i < j < |ws| ensures times[i] <= times[j] {
      NowAdvances(rnd, ws, es, i, j);
    }
    forall i, j | 0 <= i < j < |ws| && marked[i] && marked[j] ensures times[i] + u <= times[j] {
      UpsKeepDistance(rnd, ws, es, u, i, j);
    }
  }

  /** In any stretch of a run there is at most one scale-up a window, and one more. */
  lemma UpsAreRare(rnd: Rounding, ws: seq<World>, es: seq<Env>, u: int, i: nat, n: nat)
    requires IsRun(rnd, ws, es) && Recorded(ws, es, u) && u >= 1
    requires i < n <= |ws|
    ensures Marks(UpMarks(rnd, ws, es, |ws|), i, n) <= (es[n - 1].lastStamp - es[i].now) / u + 1
  {
    UpsAreSpaced(rnd, ws, es, u);
    NowAdvances(rnd, ws, es, i, i);
    MarksAreRare(UpMarks(rnd, ws, es, |ws|), Stamps(es), u, es[i].now, i, n);
  }

  /** One spec throughout, and a scale that is only the controller's and has no lag. */
  ghost predicate Tracks(rnd: Rounding, ws: seq<World>, es: seq<Env>, spec: ShpaSpec) {
    && |ws| == |es|
    && (forall i :: 0 <= i < |ws| ==> ws[i].scale.status == ws[i].scale.spec)
    && (forall i :: 0 <= i < |ws| && ws[i].shpa.Some? ==> SpecOf(ws[i]) == spec)
    && (forall i :: 0 <= i < |ws| - 1 ==> Handed(rnd, ws, es, i))
  }

  ghost predicate Handed(rnd: Rounding, ws: seq<World>, es: seq<Env>, i: int)
    requires 0 <= i < |ws| - 1 && |ws| == |es|
  {
    ws[i + 1].scale.spec == Reconcile(rnd, ws[i], es[i]).world.scale.spec
  }

  lemma TrackedStep(rnd: Rounding, w: World, e: Env, spec: ShpaSpec)
    requires w.scale.status == w.scale.spec && SchemaValid(spec)
    requires w.shpa.Some? ==> SpecOf(w) == spec
    requires 1 <= spec.minReplicas <= w.scale.spec <= spec.maxReplicas
    ensures var n := Reconcile(rnd, w, e).world.scale.spec;
            && spec.minReplicas <= n <= spec.maxReplicas
            && n <= (if ScalesUp(rnd, w, e) then 2 * w.scale.spec else w.scale.spec)
  {
    if Reaches(w, e) {
      VerdictTakesEffect(rnd, w, e);
      VerdictInRange(rnd, w, e);
      if MetricDriven(w, e) {
        GateIff(rnd, w, e);
        WantedInRange(rnd, w, e);
      }
    } else {
      StoppingShortIsInert(rnd, w, e);
    }
  }

  lemma {:induction false} StaysInRange(rnd: Rounding, ws: seq<World>, es: seq<Env>, spec: ShpaSpec, j: nat)
    requires IsRun(rnd, ws, es) && Tracks(rnd, ws, es, spec) && SchemaValid(spec) && j < |ws|
    requires 1 <= spec.minReplicas <= ws[0].scale.spec <= spec.maxReplicas
    ensures spec.minReplicas <= ws[j].scale.spec <= spec.maxReplicas
    ensures j > 0 ==> ws[j].scale.spec
                      <= if ScalesUp(rnd, ws[j - 1], es[j - 1]) then 2 * ws[j - 1].scale.spec else ws[j - 1].scale.spec
  {
    if j > 0 {
      StaysInRange(rnd, ws, es, spec, j - 1);
      TrackedStep(rnd, ws[j - 1], es[j - 1], spec);
      assert Handed(rnd, ws, es, j - 1);
    }
  }

  function Counts(ws: seq<World>): (c: seq<int>)
    ensures |c| == |ws| && forall i :: 0 <= i < |c| ==> c[i] == ws[i].scale.spec
  {
    if ws == [] then [] else Counts(ws[..|ws| - 1]) + [ws[|ws| - 1].scale.spec]
  }

  lemma CountsDouble(rnd: Rounding, ws: seq<World>, es: seq<Env>, spec: ShpaSpec)
    requires IsRun(rnd, ws, es) && Tracks(rnd, ws, es, spec) && SchemaValid(spec)
    requires 1 <= spec.minReplicas <= ws[0].scale.spec <= spec.maxReplicas
    ensures Doubles(UpMarks(rnd, ws, es, |ws|), Counts(ws))
  {
    forall j | 0 <= j < |ws|
      ensures Counts(ws)[j] >= 0
      ensures j > 0 ==> Counts(ws)[j] <= if UpMarks(rnd, ws, es, |ws|)[j - 1] then 2 * Counts(ws)[j - 1]
                                         else Counts(ws)[j - 1]
    {
      StaysInRange(rnd, ws, es, spec, j);
    }
  }

  /** In any stretch of a run the count at most doubles once a window, and once more. */
  lemma GrowthIsBounded(rnd: Rounding, ws: seq<World>, es: seq<Env>, spec: ShpaSpec, i: nat, n: nat)
    requires IsRun(rnd, ws, es) && Tracks(rnd, ws, es, spec) && SchemaValid(spec)
    requires Recorded(ws, es, spec.upscaleWindow) && spec.upscaleWindow >= 1
    requires 1 <= spec.minReplicas <= ws[0].scale.spec <= spec.maxReplicas
    requires i < n < |ws|
    ensures es[i].now <= es[n - 1].lastStamp
    ensures ws[n].scale.spec
            <= ws[i].scale.spec * Pow2((es[n - 1].lastStamp - es[i].now) / spec.upscaleWindow + 1)
  {
    NowAdvances(rnd, ws, es, i, n - 1);
    UpsAreRare(rnd, ws, es, spec.upscaleWindow, i, n);
    CountsDouble(rnd, ws, es, spec);
    CountAtMost(UpMarks(rnd, ws, es, |ws|), Counts(ws), i, n,
                (es[n - 1].lastStamp - es[i].now) / spec.upscaleWindow + 1);
  }

  ghost predicate InRangeOf(w: World, n: int) {
    && w.shpa.Some? && SpecOf(w).minReplicas <= n <= SpecOf(w).maxReplicas
    && w.scale.spec != 0 && !w.shpa.value.deleting && !SpecOf(w).dryRun
  }

  /**
   Entry k of the log was sent by a reconcile from i on, before j, whose spec allowed it:
   the one that found the log k entries long, and left it longer.
   */
  ghost predicate SentWithin(ws: seq<World>, i: int, j: int, log: seq<int>, k: int)
    requires 0 <= i <= j < |ws| && 0 <= k < |log|
  {
    exists m :: i <= m < j && |ws[m].writes| == k && |ws[m + 1].writes| == k + 1 && InRangeOf(ws[m], log[k])
  }

  lemma LogStep(rnd: Rounding, ws: seq<World>, es: seq<Env>, m: nat)
    requires IsRun(rnd, ws, es) && m + 1 < |ws|
    requires ws[m].shpa.Some? ==> SchemaValid(SpecOf(ws[m]))
    ensures || ws[m + 1].writes == ws[m].writes
            || exists n :: ws[m + 1].writes == ws[m].writes + [n] && InRangeOf(ws[m], n)
  {
    WritesAreSafe(rnd, ws[m], es[m]);
    assert Linked(rnd, ws, es, m);
    var p := Reconcile(rnd, ws[m], es[m]).world;
    if p.writes != ws[m].writes {
      var n :| p.writes == ws[m].writes + [n] && ws[m].shpa.Some?
               && SpecOf(ws[m]).minReplicas <= n <= SpecOf(ws[m]).maxReplicas
               && ws[m].scale.spec != 0 && !SpecOf(ws[m]).dryRun && !ws[m].shpa.value.deleting;
      assert InRangeOf(ws[m], n);
    }
  }

  /**
   Range safety of every run: the log only grows, at most once a reconcile, and each value
   added was in the range configured at the reconcile that sent it.
   */
  lemma {:induction false} RunWritesAreSafe(rnd: Rounding, ws: seq<World>, es: seq<Env>, i: nat, j: nat)
    requires IsRun(rnd, ws, es) && i <= j < |ws|
    requires forall m :: 0 <= m < |ws| && ws[m].shpa.Some? ==> SchemaValid(SpecOf(ws[m]))
    ensures ws[i].writes <= ws[j].writes && |ws[j].writes| <= |ws[i].writes| + (j - i)
    ensures forall k :: |ws[i].writes| <= k < |ws[j].writes| ==> SentWithin(ws, i, j, ws[j].writes, k)
  {
    if i < j {
      var m := j - 1;
      RunWritesAreSafe(rnd, ws, es, i, m);
      LogStep(rnd, ws, es, m);
      assert ws[m + 1] == ws[j];
      forall k | |ws[i].writes| <= k < |ws[j].writes| ensures SentWithin(ws, i, j, ws[j].writes, k) {
        if k < |ws[m].writes| {
          SentEarlier(ws, i, m, j, k);
        } else {
          assert InRangeOf(ws[m], ws[j].writes[k]);
        }
      }
    }
  }

  lemma SentEarlier(ws: seq<World>, i: nat, m: nat, j: nat, k: nat)
    requires i <= m <= j < |ws| && k < |ws[m].writes| && ws[m].writes <= ws[j].writes
    requires SentWithin(ws, i, m, ws[m].writes, k)
    ensures SentWithin(ws, i, j, ws[j].writes, k)
  {
    assert ws[j].writes[k] == ws[m].writes[k];
  }

  function Finalizers(w: World): seq<string> {
    if w.shpa.Some? then w.shpa.value.finalizers else []
  }

  lemma {:induction false} CountAppended(l: seq<string>, s: string)
    ensures Count(l + [s], s) == Count(l, s) + 1
  {
    if l != [] {
      CountAppended(l[1..], s);
      assert (l + [s])[1..] == l[1..] + [s];
    }
  }

  /**
   The finalizer's life: with at most one copy in the list, a reconcile never fails on it,
   leaves at most one copy, and takes it off a resource marked for deletion while keeping
   the other finalizers in order; the resource goes with its last finalizer.
   */
  lemma FinalizerStepIsSafe(rnd: Rounding, w: World, e: Env)
    requires Count(Finalizers(w), FINALIZER) <= 1
    ensures var r := Reconcile(rnd, w, e);
            && r.reply != Crashed
            && Count(Finalizers(r.world), FINALIZER) <= 1
            && (w.shpa.Some? && w.shpa.value.deleting && FINALIZER in Finalizers(w) && e.finalizerSaved ==>
                  && Finalizers(r.world) == Without(Finalizers(w), FINALIZER)
                  && FINALIZER !in Finalizers(r.world)
                  && (r.world.shpa.None? <==> Without(Finalizers(w), FINALIZER) == []))
  {
    var l := Finalizers(w);
    AtMostOneIsSafe(l, FINALIZER);
    WithoutHasNone(l, FINALIZER);
    CountZeroIff(l, FINALIZER);
    CountAppended(l, FINALIZER);
    if w.shpa.Some? {
      var f := HandleFinalizer(w, w.shpa.value, e);
      FinalizersOnly(w, e);
      ReconcileKeepsFinalizers(rnd, w, e);
    }
  }

  lemma ReconcileKeepsFinalizers(rnd: Rounding, w: World, e: Env)
    requires w.shpa.Some?
    ensures var f := HandleFinalizer(w, w.shpa.value, e);
            && (f.stop.Some? ==> Reconcile(rnd, w, e) == Reconciled(f.world, f.stop.value))
            && (f.stop.None? ==>
                  && Reconcile(rnd, w, e).world.shpa.Some?
                  && Finalizers(Reconcile(rnd, w, e).world) == f.obj.finalizers
                  && Reconcile(rnd, w, e).reply != Crashed)
  {
    FinalizersOnly(w, e);
    if Reaches(w, e) {
      VerdictTakesEffect(rnd, w, e);
    }
  }

  /** It is added to a resource that lacks it, behind the others, and a list that has it is left as it is. */
  lemma FinalizerIsAdded(rnd: Rounding, w: World, e: Env)
    requires w.shpa.Some? && !w.shpa.value.deleting
    ensures var after := Finalizers(Reconcile(rnd, w, e).world);
            after == if "finalizer.dbisshpa.com" in Finalizers(w) || !e.finalizerSaved then Finalizers(w)
                     else Finalizers(w) + ["finalizer.dbisshpa.com"]
  {
    ReconcileKeepsFinalizers(rnd, w, e);
  }

  /** Over a run the controller's own finalizer stays unique, and no reconcile fails on it. */
  lemma {:induction false} OwnFinalizerStaysUnique(rnd: Rounding, ws: seq<World>, es: seq<Env>, j: nat)
    requires IsRun(rnd, ws, es) && j < |ws|
    requires Count(Finalizers(ws[0]), FINALIZER) <= 1
    ensures Count(Finalizers(ws[j]), FINALIZER) <= 1 && Reconcile(rnd, ws[j], es[j]).reply != Crashed
  {
    if j > 0 {
      OwnFinalizerStaysUnique(rnd, ws, es, j - 1);
      FinalizerStepIsSafe(rnd, ws[j - 1], es[j - 1]);
      assert Linked(rnd, ws, es, j - 1);
    }
    FinalizerStepIsSafe(rnd, ws[j], es[j]);
  }

  /** A resource marked for deletion is never scaled again. */
  lemma {:induction false} DeletionEndsScaling(rnd: Rounding, ws: seq<World>, es: seq<Env>, i: nat, j: nat)
    requires IsRun(rnd, ws, es) && i <= j < |ws|
    requires ws[i].shpa.Some? ==> ws[i].shpa.value.deleting
    ensures ws[j].writes == ws[i].writes && (ws[j].shpa.Some? ==> ws[j].shpa.value.deleting)
    ensures Reconcile(rnd, ws[j], es[j]).world.scale == ws[j].scale
  {
    if i < j {
      DeletionEndsScaling(rnd, ws, es, i, j - 1);
      assert Linked(rnd, ws, es, j - 1);
      if ws[j - 1].shpa.Some? { FinalizersOnly(ws[j - 1], es[j - 1]); }
    }
    if ws[j].shpa.Some? { FinalizersOnly(ws[j], es[j]); }
  }
}
