/** Pods and readings that exist: a fleet of any size, all of it ready, sharing any load. */
module Fleets {
  import opened Wrappers
  import opened Conditions
  import opened Pods
  import opened Api
  import opened Calculator

  function Name(i: nat): (r: string)
    ensures |r| == i + 1
  {
    if i == 0 then "p" else Name(i - 1) + "p"
  }

  function RunningPod(target: string, i: nat): Pod {
    Pod(Name(i), [OwnerReference("ReplicaSet", target)], Running, Some(0), [PodCondition(POD_READY, True, 0)])
  }

  /** n running, ready pods of the target, with different names. */
  function Fleet(target: string, n: nat): (pods: seq<Pod>)
    ensures |pods| == n && forall i :: 0 <= i < n ==> pods[i] == RunningPod(target, i)
  {
    if n == 0 then [] else Fleet(target, n - 1) + [RunningPod(target, n - 1)]
  }

  /** The names of the first n, all different because no two are of the same length. */
  function Names(n: nat): (r: set<string>)
    ensures forall k :: k in r ==> |k| <= n
    ensures |r| == n
  {
    if n == 0 then {} else Names(n - 1) + {Name(n - 1)}
  }

  /** A metric for each of them, the first one carrying all of the load. */
  function Shares(n: nat, load: int): (m: map<string, int>)
    ensures m.Keys == Names(n)
  {
    if n == 0 then map[] else Shares(n - 1, load)[Name(n - 1) := if n == 1 then load else 0]
  }

  lemma RunningPodIsTolerated(target: string, i: nat, delay: int, now: int)
    ensures IsOwned(RunningPod(target, i), target) && Tolerated(RunningPod(target, i), target, delay, now)
  {
    assert OwnerMatches(RunningPod(target, i).owners[0], target);
  }

  lemma RunningPodIsReady(target: string, i: nat, metrics: map<string, int>, resource: string, delay: int)
    requires Name(i) in metrics
    ensures GroupOf(RunningPod(target, i), target, metrics, resource, delay) == ReadyPod
  {
    assert OwnerMatches(RunningPod(target, i).owners[0], target);
  }

  lemma {:induction false} FleetIsTolerated(target: string, delay: int, now: int, n: nat)
    ensures |ToleratedAt(Fleet(target, n), target, delay, now)| == n
  {
    var pods := Fleet(target, n);
    if n > 0 {
      FleetIsTolerated(target, delay, now, n - 1);
      ToleratedOneMore(pods, n - 1, target, delay, now);
      RunningPodIsTolerated(target, n - 1, delay, now);
      assert pods[..n - 1] == Fleet(target, n - 1);
      assert pods[..n - 1 + 1] == pods;
    } else {
      assert ToleratedAt(pods, target, delay, now) == {};
    }
  }

  lemma TotalWith(before: map<string, int>, k: string, value: int)
    requires k !in before
    ensures Total(before[k := value]) == value + Total(before)
  {
    var m := before[k := value];
    assert m - {k} == before;
    TotalWithout(m, k);
  }

  lemma {:induction false} SharesAddUp(n: nat, load: int)
    ensures Total(Shares(n, load)) == if n == 0 then 0 else load
  {
    if n > 0 {
      SharesAddUp(n - 1, load);
      assert Name(n - 1) !in Shares(n - 1, load).Keys;
      TotalWith(Shares(n - 1, load), Name(n - 1), if n == 1 then load else 0);
    }
  }

  lemma {:induction false} NameIndex(n: nat, k: string) returns (i: nat)
    requires k in Names(n)
    ensures i < n && k == Name(i)
  {
    if k == Name(n - 1) {
      i := n - 1;
    } else {
      i := NameIndex(n - 1, k);
    }
  }

  /** Unique names, every metric accounted for, and the load spread over n ready pods. */
  ghost predicate ShowsShares(spec: ShpaSpec, source: MetricSource, pods: seq<Pod>, metrics: map<string, int>,
                              n: int, load: int) {
    && UniqueNames(pods)
    && (forall k :: k in metrics ==> Accounted(k, pods, spec.target.name))
    && var ready := ReadyNames(spec, source, pods, metrics);
       |ready| == n && Total(Restrict(metrics, ready)) == load
  }

  /** Pod i is named k, and is one of the target's that counts as ready. */
  ghost predicate ReadyAs(spec: ShpaSpec, source: MetricSource, pods: seq<Pod>, metrics: map<string, int>,
                          i: int, k: string) {
    && 0 <= i < |pods| && pods[i].name == k && IsOwned(pods[i], spec.target.name)
    && GroupOf(pods[i], spec.target.name, metrics, source.name, spec.readinessDelay) == ReadyPod
  }

  /** When every metric is that of a ready pod, and ready pods have metrics, the shares are shown. */
  lemma AllReadyShows(spec: ShpaSpec, source: MetricSource, pods: seq<Pod>, metrics: map<string, int>)
    requires UniqueNames(pods)
    requires forall k :: k in metrics ==> exists i :: ReadyAs(spec, source, pods, metrics, i, k)
    ensures ShowsShares(spec, source, pods, metrics, |metrics|, Total(metrics))
  {
    var ready := ReadyNames(spec, source, pods, metrics);
    forall k | k in metrics ensures Accounted(k, pods, spec.target.name) && k in ready {
      var i :| ReadyAs(spec, source, pods, metrics, i, k);
    }
    assert ready == metrics.Keys;
    assert Restrict(metrics, ready) == metrics;
    assert |metrics.Keys| == |metrics|;
  }

  lemma NamedIsReady(spec: ShpaSpec, source: MetricSource, n: nat, metrics: map<string, int>, k: string)
    requires k in Names(n) && k in metrics
    ensures exists i :: ReadyAs(spec, source, Fleet(spec.target.name, n), metrics, i, k)
  {
    var i := NameIndex(n, k);
    var pods := Fleet(spec.target.name, n);
    RunningPodIsTolerated(spec.target.name, i, 0, 0);
    RunningPodIsReady(spec.target.name, i, metrics, source.name, spec.readinessDelay);
    assert pods[i] == RunningPod(spec.target.name, i);
    assert ReadyAs(spec, source, pods, metrics, i, k);
  }

  lemma FleetHasUniqueNames(target: string, n: nat)
    ensures UniqueNames(Fleet(target, n))
  {
    var pods := Fleet(target, n);
    forall i, j | 0 <= i < j < n ensures pods[i].name != pods[j].name {
      assert |Name(i)| != |Name(j)|;
    }
  }

  lemma FleetShowsLoad(spec: ShpaSpec, source: MetricSource, n: nat, load: int)
    requires n >= 1
    ensures ShowsShares(spec, source, Fleet(spec.target.name, n), Shares(n, load), n, load)
  {
    var metrics := Shares(n, load);
    forall k | k in metrics ensures exists i :: ReadyAs(spec, source, Fleet(spec.target.name, n), metrics, i, k) {
      assert k in metrics.Keys;
      NamedIsReady(spec, source, n, metrics, k);
    }
    FleetHasUniqueNames(spec.target.name, n);
    AllReadyShows(spec, source, Fleet(spec.target.name, n), metrics);
    SharesAddUp(n, load);
    assert |metrics.Keys| == |metrics|;
  }
}
