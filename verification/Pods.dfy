/**
 Which pods count, and whose metrics (algorithm/watermark/waterwark_calculator.go:195-312).
 Pods are values; the metrics a reading returns are a map that is pruned in place.
 */
module Pods {
  import opened Wrappers
  import opened Conditions

  datatype Phase = Pending | Running | Succeeded | Failed | UnknownPhase

  datatype PodCondition = PodCondition(kind: string, status: ConditionStatus, lastTransition: int)

  datatype OwnerReference = OwnerReference(kind: string, name: string)

  datatype Pod = Pod(name: string, owners: seq<OwnerReference>, phase: Phase,
                     startTime: Option<int>, conditions: seq<PodCondition>)

  const POD_READY := "Ready"
  const CPU := "cpu"

  /** Owned by a ReplicaSet or StatefulSet whose name starts with the target's. */
  predicate OwnerMatches(o: OwnerReference, target: string) {
    (o.kind == "ReplicaSet" || o.kind == "StatefulSet") && target <= o.name
  }

  predicate IsOwned(p: Pod, target: string) {
    exists i :: 0 <= i < |p.owners| && OwnerMatches(p.owners[i], target)
  }

  method CheckOwnerRef(p: Pod, target: string) returns (ok: bool)
    ensures ok <==> IsOwned(p, target)
  {
    for i := 0 to |p.owners|
      invariant forall j :: 0 <= j < i ==> !OwnerMatches(p.owners[j], target)
    {
      if OwnerMatches(p.owners[i], target) {
        return true;
      }
    }
    return false;
  }

  /** The first condition of a kind, with its index; -1 and nil when there is none. */
  function GetPodCondition(cs: seq<PodCondition>, kind: string): (r: (int, Option<PodCondition>))
    ensures r.1.None? ==> r.0 == -1 && forall i :: 0 <= i < |cs| ==> cs[i].kind != kind
    ensures r.1.Some? ==> 0 <= r.0 < |cs| && r.1.value == cs[r.0] && cs[r.0].kind == kind
                          && forall i :: 0 <= i < r.0 ==> cs[i].kind != kind
  {
    if cs == [] then (-1, None)
    else if cs[0].kind == kind then (0, Some(cs[0]))
    else
      var (i, c) := GetPodCondition(cs[1..], kind);
      if c.None? then (-1, None) else (i + 1, c)
  }

  /** Counted as ready for an external metric: running and ready, or not pending for too long. */
  predicate Tolerated(p: Pod, target: string, delay: int, now: int) {
    var c := GetPodCondition(p.conditions, POD_READY).1;
    && IsOwned(p, target) && c.Some? && p.startTime.Some?
    && (|| (p.phase == Running && c.value.status == True)
        || (p.phase == Pending && now - c.value.lastTransition < delay))
  }

  ghost function ToleratedAt(pods: seq<Pod>, target: string, delay: int, now: int): set<int> {
    set i | 0 <= i < |pods| && Tolerated(pods[i], target, delay, now)
  }

  lemma ToleratedAtMost(pods: seq<Pod>, target: string, delay: int, now: int)
    ensures |ToleratedAt(pods, target, delay, now)| <= |pods|
  {
    if pods != [] {
      var n := |pods| - 1;
      ToleratedAtMost(pods[..n], target, delay, now);
      ToleratedOneMore(pods, n, target, delay, now);
      assert pods[..n + 1] == pods;
    }
  }

  lemma ToleratedOneMore(pods: seq<Pod>, k: nat, target: string, delay: int, now: int)
    requires k < |pods|
    ensures |ToleratedAt(pods[..k + 1], target, delay, now)|
            == |ToleratedAt(pods[..k], target, delay, now)| + if Tolerated(pods[k], target, delay, now) then 1 else 0
  {
    var before, after := ToleratedAt(pods[..k], target, delay, now), ToleratedAt(pods[..k + 1], target, delay, now);
    var last: set<int> := if Tolerated(pods[k], target, delay, now) then {k} else {};
    assert k !in before;
    forall i ensures i in after <==> i in before || i in last {
      if 0 <= i < k {
        assert pods[..k][i] == pods[..k + 1][i];
      } else if i == k {
        assert pods[..k + 1][i] == pods[k];
      }
    }
    assert after == before + last;
  }

  /**
   The exact number of tolerated pods in the list; no answer when the list cannot be had
   or when that number is zero. An answer is between one and the length of the list.
   */
  method GetReadyPodsCount(listed: Option<seq<Pod>>, target: string, delay: int, now: int) returns (n: Option<int>)
    ensures n.Some? <==> listed.Some? && ToleratedAt(listed.value, target, delay, now) != {}
    ensures n.Some? ==> n.value == |ToleratedAt(listed.value, target, delay, now)| && 1 <= n.value <= |listed.value|
  {
    if listed.None? || listed.value == [] {
      return None;
    }
    var pods := listed.value;
    var toleratedAsReady := 0;
    for i := 0 to |pods|
      invariant toleratedAsReady == |ToleratedAt(pods[..i], target, delay, now)|
    {
      ToleratedOneMore(pods, i, target, delay, now);
      var owned := CheckOwnerRef(pods[i], target);
      if !owned {
        continue;
      }
      var (_, condition) := GetPodCondition(pods[i].conditions, POD_READY);
      if condition.None? || pods[i].startTime.None? {
        continue;
      }
      if (pods[i].phase == Running && condition.value.status == True)
         || (pods[i].phase == Pending && now - condition.value.lastTransition < delay) {
        toleratedAsReady := toleratedAsReady + 1;
      }
    }
    assert pods[..|pods|] == pods;
    ToleratedAtMost(pods, target, delay, now);
    if toleratedAsReady == 0 {
      return None;
    }
    return Some(toleratedAsReady);
  }

  datatype Group = WrongTarget | IgnoredPod | MissingMetric | ReadyPod

  function GroupOf(p: Pod, target: string, metrics: map<string, int>, resource: string, delay: int): Group {
    if !IsOwned(p, target) then WrongTarget
    else if p.phase == Failed || p.phase == Pending then IgnoredPod
    else if p.name !in metrics then MissingMetric
    else if resource == CPU && NeverReady(p, delay) then IgnoredPod
    else ReadyPod
  }

  /** Unready, and not known to have been ready since its initial delay passed. */
  predicate NeverReady(p: Pod, delay: int) {
    var c := GetPodCondition(p.conditions, POD_READY).1;
    || c.None? || p.startTime.None?
    || (c.value.status == False && p.startTime.value + delay > c.value.lastTransition)
  }

  ghost function NamesOf(pods: seq<Pod>, g: Group, target: string, metrics: map<string, int>,
                         resource: string, delay: int): set<string> {
    set i | 0 <= i < |pods| && GroupOf(pods[i], target, metrics, resource, delay) == g :: pods[i].name
  }

  lemma NamesOneMore(pods: seq<Pod>, k: nat, g: Group, target: string, metrics: map<string, int>,
                     resource: string, delay: int)
    requires k < |pods|
    ensures NamesOf(pods[..k + 1], g, target, metrics, resource, delay)
            == NamesOf(pods[..k], g, target, metrics, resource, delay)
               + if GroupOf(pods[k], target, metrics, resource, delay) == g then {pods[k].name} else {}
  {
  }

  method GroupPods(pods: seq<Pod>, target: string, metrics: map<string, int>, resource: string, delay: int)
    returns (ready: set<string>, ignored: set<string>)
    ensures ready == NamesOf(pods, ReadyPod, target, metrics, resource, delay)
    ensures ignored == NamesOf(pods, IgnoredPod, target, metrics, resource, delay)
  {
    ready, ignored := {}, {};
    for k := 0 to |pods|
      invariant ready == NamesOf(pods[..k], ReadyPod, target, metrics, resource, delay)
      invariant ignored == NamesOf(pods[..k], IgnoredPod, target, metrics, resource, delay)
    {
      NamesOneMore(pods, k, ReadyPod, target, metrics, resource, delay);
      NamesOneMore(pods, k, IgnoredPod, target, metrics, resource, delay);
      var pod := pods[k];
      var owned := CheckOwnerRef(pod, target);
      if !owned {
        continue;
      }
      if pod.phase == Failed {
        ignored := ignored + {pod.name};
        continue;
      }
      if pod.phase == Pending {
        ignored := ignored + {pod.name};
        continue;
      }
      if pod.name !in metrics {
        continue;
      }
      if resource == CPU {
        var ignorePod: bool;
        var (_, condition) := GetPodCondition(pod.conditions, POD_READY);
        if condition.None? || pod.startTime.None? {
          ignorePod := true;
        } else {
          ignorePod := condition.value.status == False
                       && pod.startTime.value + delay > condition.value.lastTransition;
        }
        if ignorePod {
          ignored := ignored + {pod.name};
          continue;
        }
      }
      ready := ready + {pod.name};
    }
    assert pods[..|pods|] == pods;
  }

  /** The metrics of a reading, a map the calculator owns and prunes. */
  class PodMetricsInfo {
    var values: map<string, int>

    constructor (values: map<string, int>)
      ensures this.values == values
    {
      this.values := values;
    }

    method RemoveMetricsForPods(pods: set<string>)
      modifies this
      ensures values == old(values) - pods
    {
      var unsorted := pods;
      while unsorted != {}
        invariant unsorted <= pods
        invariant values == old(values) - (pods - unsorted)
        decreases unsorted
      {
        var pod :| pod in unsorted;
        values := values - {pod};
        unsorted := unsorted - {pod};
      }
    }

    /** The total, whatever order the map is walked in. */
    method Sum() returns (sum: int)
      ensures sum == Total(values)
    {
      sum := 0;
      var rest := values;
      while rest != map[]
        invariant sum + Total(rest) == Total(values)
        decreases rest.Keys
      {
        var pod :| pod in rest;
        TotalWithout(rest, pod);
        sum := sum + rest[pod];
        rest := rest - {pod};
      }
    }
  }

  ghost function Total(m: map<string, int>): int
    decreases m.Keys
  {
    if m == map[] then 0
    else
      var k :| k in m;
      m[k] + Total(m - {k})
  }

  /** Any key may be taken out first. */
  lemma {:induction false} TotalWithout(m: map<string, int>, k: string)
    requires k in m
    ensures Total(m) == m[k] + Total(m - {k})
    decreases m.Keys
  {
    var first :| first in m && Total(m) == m[first] + Total(m - {first});
    if first != k {
      TotalWithout(m - {first}, k);
      TotalWithout(m - {k}, first);
      assert m - {first} - {k} == m - {k} - {first};
    }
  }

  function RunningTotal(m: map<string, int>, order: seq<string>): int
    requires forall k :: k in order ==> k in m
  {
    if order == [] then 0 else m[order[0]] + RunningTotal(m, order[1..])
  }

  ghost predicate Enumerates(order: seq<string>, keys: set<string>) {
    && (forall k :: k in order <==> k in keys)
    && (forall i, j :: 0 <= i < j < |order| ==> order[i] != order[j])
  }

  /** Every iteration order of the map adds up to the same sum. */
  lemma {:induction false} SumIsOrderIndependent(m: map<string, int>, order: seq<string>)
    requires Enumerates(order, m.Keys)
    ensures RunningTotal(m, order) == Total(m)
  {
    if order == [] {
      assert m.Keys == {};
      assert m == map[];
    } else {
      var k, rest := order[0], order[1..];
      assert k in order;
      var m' := m - {k};
      forall x ensures x in rest <==> x in m'.Keys {
        if x in rest {
          var i :| 0 <= i < |rest| && rest[i] == x;
          assert order[i + 1] == x && order[0] != order[i + 1];
        }
        if x in m' {
          assert x in order;
        }
      }
      SumIsOrderIndependent(m', rest);
      TotalWithout(m, k);
      SameRunningTotal(m, m', rest);
    }
  }

  lemma {:induction false} SameRunningTotal(m: map<string, int>, m': map<string, int>, order: seq<string>)
    requires forall k :: k in order ==> k in m && k in m' && m[k] == m'[k]
    ensures RunningTotal(m, order) == RunningTotal(m', order)
  {
    if order != [] {
      assert order[0] in order;
      SameRunningTotal(m, m', order[1..]);
    }
  }

  ghost predicate UniqueNames(pods: seq<Pod>) {
    forall i, j :: 0 <= i < j < |pods| ==> pods[i].name != pods[j].name
  }

  /** The metric is that of a listed pod that belongs to the target. */
  ghost predicate Accounted(key: string, pods: seq<Pod>, target: string) {
    exists i :: 0 <= i < |pods| && pods[i].name == key && IsOwned(pods[i], target)
  }

  /** Pruning keeps every ready pod's metric, since no ready pod is ignored as well. */
  lemma ReadySurvivesPruning(pods: seq<Pod>, target: string, metrics: map<string, int>, resource: string, delay: int)
    requires UniqueNames(pods)
    ensures var ready := NamesOf(pods, ReadyPod, target, metrics, resource, delay);
            var ignored := NamesOf(pods, IgnoredPod, target, metrics, resource, delay);
            ready !! ignored && ready <= (metrics - ignored).Keys
  {
  }

  /**
   What is left after pruning are the ready pods' metrics, no more and no less, exactly
   when every metric is accounted for or was pruned.
   */
  lemma RemainingIsReadyIff(pods: seq<Pod>, target: string, metrics: map<string, int>, resource: string, delay: int)
    requires UniqueNames(pods)
    ensures var ready := NamesOf(pods, ReadyPod, target, metrics, resource, delay);
            var ignored := NamesOf(pods, IgnoredPod, target, metrics, resource, delay);
            (metrics - ignored).Keys == ready <==> forall k :: k in metrics ==> Accounted(k, pods, target)
  {
    var ready := NamesOf(pods, ReadyPod, target, metrics, resource, delay);
    var ignored := NamesOf(pods, IgnoredPod, target, metrics, resource, delay);
    ReadySurvivesPruning(pods, target, metrics, resource, delay);
    forall k | k in metrics ensures Accounted(k, pods, target) <==> k in ready || k in ignored {
      if Accounted(k, pods, target) {
        var i :| 0 <= i < |pods| && pods[i].name == k && IsOwned(pods[i], target);
        assert GroupOf(pods[i], target, metrics, resource, delay) in {IgnoredPod, ReadyPod};
      }
    }
  }

  /** Entry i is the first Ready condition of the pod. */
  ghost predicate ReadyAt(p: Pod, i: int) {
    && 0 <= i < |p.conditions| && p.conditions[i].kind == "Ready"
    && forall j :: 0 <= j < i ==> p.conditions[j].kind != "Ready"
  }

  /** Nothing is known about the readiness of the pod. */
  ghost predicate Unreported(p: Pod) {
    p.startTime.None? || forall i :: 0 <= i < |p.conditions| ==> p.conditions[i].kind != "Ready"
  }

  /** Whether a pod is the target's: a generated name starts with that of its owner. */
  lemma OwnedIff(p: Pod, target: string)
    ensures IsOwned(p, target) <==>
            exists o, suffix :: o in p.owners && o.kind in {"ReplicaSet", "StatefulSet"} && o.name == target + suffix
  {
    if IsOwned(p, target) {
      var i :| 0 <= i < |p.owners| && OwnerMatches(p.owners[i], target);
      var o := p.owners[i];
      assert o in p.owners && o.name == target + o.name[|target|..];
    }
  }

  lemma FoundIsFirst(p: Pod, i: int)
    requires ReadyAt(p, i)
    ensures GetPodCondition(p.conditions, POD_READY) == (i, Some(p.conditions[i]))
  {
  }

  /** Which pods count for an external metric: those ready by now, and those not pending for long. */
  lemma ToleratedIff(pods: seq<Pod>, k: nat, target: string, delay: int, now: int)
    requires k < |pods|
    ensures k in ToleratedAt(pods, target, delay, now) <==>
            && IsOwned(pods[k], target) && pods[k].startTime.Some?
            && exists i :: ReadyAt(pods[k], i)
                           && var c := pods[k].conditions[i];
                              || (pods[k].phase == Running && c.status == True)
                              || (pods[k].phase == Pending && now < c.lastTransition + delay)
  {
    var p := pods[k];
    forall i | ReadyAt(p, i) ensures GetPodCondition(p.conditions, POD_READY) == (i, Some(p.conditions[i])) {
      FoundIsFirst(p, i);
    }
    var (i, c) := GetPodCondition(p.conditions, POD_READY);
    assert c.Some? ==> ReadyAt(p, i);
  }

  lemma NamedByGroup(pods: seq<Pod>, k: nat, g: Group, target: string, metrics: map<string, int>, resource: string,
                     delay: int)
    requires UniqueNames(pods) && k < |pods|
    ensures pods[k].name in NamesOf(pods, g, target, metrics, resource, delay)
            <==> GroupOf(pods[k], target, metrics, resource, delay) == g
  {
  }

  /** In which of the two sets a pod's name is, from its owner, phase and metric, for any resource but the CPU. */
  lemma GroupedByPhase(pods: seq<Pod>, k: nat, target: string, metrics: map<string, int>, resource: string, delay: int)
    requires UniqueNames(pods) && k < |pods|
    ensures var p := pods[k];
            var ready := NamesOf(pods, ReadyPod, target, metrics, resource, delay);
            var ignored := NamesOf(pods, IgnoredPod, target, metrics, resource, delay);
            && (!IsOwned(p, target) ==> p.name !in ready + ignored)
            && (IsOwned(p, target) && p.phase in {Failed, Pending} ==> p.name in ignored - ready)
            && (IsOwned(p, target) && p.phase !in {Failed, Pending} ==>
                  && (p.name !in metrics ==> p.name !in ready + ignored)
                  && (p.name in metrics && resource != "cpu" ==> p.name in ready - ignored))
  {
    NamedByGroup(pods, k, ReadyPod, target, metrics, resource, delay);
    NamedByGroup(pods, k, IgnoredPod, target, metrics, resource, delay);
  }

  /**
   The CPU of a starting pod is not counted: it is ignored if nothing is known about its
   readiness, or if it is unready since before its initial delay was over.
   */
  lemma StartingPodsAreIgnored(pods: seq<Pod>, k: nat, target: string, metrics: map<string, int>, delay: int)
    requires UniqueNames(pods) && k < |pods|
    requires IsOwned(pods[k], target) && pods[k].phase !in {Failed, Pending} && pods[k].name in metrics
    ensures var p := pods[k];
            var ready := NamesOf(pods, ReadyPod, target, metrics, "cpu", delay);
            var ignored := NamesOf(pods, IgnoredPod, target, metrics, "cpu", delay);
            && (p.name in ready <==> p.name !in ignored)
            && (p.name in ignored <==>
                  || Unreported(p)
                  || exists i :: ReadyAt(p, i) && p.conditions[i].status == False
                                 && p.conditions[i].lastTransition < p.startTime.value + delay)
  {
    var p := pods[k];
    NamedByGroup(pods, k, ReadyPod, target, metrics, "cpu", delay);
    NamedByGroup(pods, k, IgnoredPod, target, metrics, "cpu", delay);
    forall i | ReadyAt(p, i) ensures GetPodCondition(p.conditions, POD_READY) == (i, Some(p.conditions[i])) {
      FoundIsFirst(p, i);
    }
    var (i, c) := GetPodCondition(p.conditions, POD_READY);
    assert c.Some? ==> ReadyAt(p, i);
  }
}
