/**
 The status condition list (controllers/shpa_controller.go:657-700): a list edited in
 place that has to behave as a map from condition type to condition.
 */
module Conditions {
  import opened Wrappers

  datatype ConditionType = AbleToScale | ScalingActive | ScalingLimited | DryRunMode | Foreign(name: string)

  datatype ConditionStatus = True | False | Unknown | Unset

  datatype Reason =
    | NoReason
    | SucceededGetScale | ReadyForScale | SucceededRescale | FailedUpdateScale | FailedSpecCheck
    | DryRunEnabled | DryRunDisabled
    | ScalingDisabled | ValidMetricFound
    | BackoffDownscale | BackoffUpscale | BackoffBoth
    | BeyondScaleDownLimit | TooFewReplicas | BeyondScaleUpLimit | TooManyReplicas | DesiredWithinRange
    | OtherReason(text: string)

  /** The arguments formatted into a message; its fixed text goes with the reason. */
  datatype Message = Plain | WithCount(count: int) | WithText(text: string)

  const NEVER := 0

  datatype Condition = Condition(kind: ConditionType, status: ConditionStatus, reason: Reason,
                                 message: Message, transition: int)

  /** One setCondition call and the clock reading it takes. */
  datatype Call = Call(kind: ConditionType, status: ConditionStatus, reason: Reason, message: Message, now: int)

  /** What the call makes of the entry it finds, or of the empty entry it appends. */
  function Overwritten(found: Option<Condition>, c: Call): Condition {
    var before := if found.Some? then found.value else Condition(c.kind, Unset, NoReason, Plain, NEVER);
    Condition(before.kind, c.status, c.reason, c.message,
              if before.status != c.status then c.now else before.transition)
  }

  /** The index of the first entry of a type, or the length of the list. */
  function IndexOf(cs: seq<Condition>, kind: ConditionType): (i: nat)
    ensures i <= |cs|
    ensures i < |cs| ==> cs[i].kind == kind
    ensures forall j :: 0 <= j < i ==> cs[j].kind != kind
  {
    if cs == [] || cs[0].kind == kind then 0 else 1 + IndexOf(cs[1..], kind)
  }

  function Lookup(cs: seq<Condition>, kind: ConditionType): Option<Condition> {
    var i := IndexOf(cs, kind);
    if i < |cs| then Some(cs[i]) else None
  }

  /** The list after one call. */
  function Put(cs: seq<Condition>, c: Call): seq<Condition> {
    var i := IndexOf(cs, c.kind);
    if i < |cs| then cs[i := Overwritten(Some(cs[i]), c)] else cs + [Overwritten(None, c)]
  }

  function PutAll(cs: seq<Condition>, calls: seq<Call>): seq<Condition> {
    if calls == [] then cs else Put(PutAll(cs, calls[..|calls| - 1]), calls[|calls| - 1])
  }

  ghost predicate Distinct(cs: seq<Condition>) {
    forall i, j :: 0 <= i < j < |cs| ==> cs[i].kind != cs[j].kind
  }

  /**
   The list is the first n entries of a backing array. An entry that is there is edited in
   place, where every holder of the array sees it. Otherwise one is appended: in the spare
   capacity if there is any, else in a new array, the old one being left alone.
   */
  method SetConditionInList(a: array<Condition>, n: nat, c: Call) returns (r: array<Condition>, m: nat)
    requires n <= a.Length
    modifies a
    ensures m <= r.Length && r[..m] == Put(old(a[..n]), c)
    ensures (IndexOf(old(a[..n]), c.kind) < n || n < a.Length) ==> r == a && a[m..] == old(a[m..])
    ensures !(IndexOf(old(a[..n]), c.kind) < n || n < a.Length) ==> fresh(r) && a[..] == old(a[..])
  {
    ghost var l := a[..n];
    var i := 0;
    while i < n && a[i].kind != c.kind
      invariant i <= n && forall j :: 0 <= j < i ==> l[j].kind != c.kind
    {
      i := i + 1;
    }
    assert i == IndexOf(l, c.kind);
    r, m := a, n;
    if i == n {
      r, m := Append(a, n, Condition(c.kind, Unset, NoReason, Plain, NEVER));
    }
    if r[i].status != c.status {
      r[i] := r[i].(transition := c.now);
    }
    r[i] := r[i].(status := c.status, reason := c.reason, message := c.message);
    assert r[..m] == (if i < n then l else l + [Overwritten(None, c)])[i := r[i]];
  }

  /** append: the spare capacity of the array is used before a larger one is allocated. */
  method Append(a: array<Condition>, n: nat, x: Condition) returns (r: array<Condition>, m: nat)
    requires n <= a.Length
    modifies a
    ensures m == n + 1 <= r.Length && r[..m] == old(a[..n]) + [x]
    ensures n < a.Length ==> r == a && a[m..] == old(a[m..])
    ensures n == a.Length ==> fresh(r) && a[..] == old(a[..])
  {
    r, m := a, n + 1;
    if n == a.Length {
      r := new Condition[n + 1];
      for i := 0 to n
        invariant a[..] == old(a[..]) && forall j :: 0 <= j < i ==> r[j] == a[j]
      {
        r[i] := a[i];
      }
    }
    r[n] := x;
  }

  /**
   One call is a map update: the entry of its type is overwritten and every other type
   finds what it found before.
   */
  lemma PutIsMapUpdate(cs: seq<Condition>, c: Call, kind: ConditionType)
    ensures Lookup(Put(cs, c), kind) ==
            if kind == c.kind then Some(Overwritten(Lookup(cs, kind), c)) else Lookup(cs, kind)
  {
    var r := Put(cs, c);
    var i, j := IndexOf(cs, kind), IndexOf(r, kind);
    assert forall m :: 0 <= m < |cs| ==> r[m].kind == cs[m].kind;
    if i < |cs| {
      assert r[i].kind == kind && j == i;
    } else if kind == c.kind {
      assert r[i].kind == kind && j == i;
    } else {
      assert j == |r|;
    }
  }

  /** The order is kept: the entry found is the only one touched, and a new one goes last. */
  lemma PutTouchesOne(cs: seq<Condition>, c: Call)
    ensures var i, r := IndexOf(cs, c.kind), Put(cs, c);
            && |r| == (if i < |cs| then |cs| else |cs| + 1)
            && i < |r| && r[i].kind == c.kind
            && (forall j :: 0 <= j < |cs| && j != i ==> r[j] == cs[j])
            && (forall j :: 0 <= j < |cs| ==> r[j].kind == cs[j].kind)
  {
  }

  /** And no type comes to occur twice. */
  lemma PutKeepsDistinct(cs: seq<Condition>, c: Call)
    requires Distinct(cs)
    ensures Distinct(Put(cs, c))
  {
  }

  ghost predicate SameOrder(cs: seq<Condition>, r: seq<Condition>) {
    |cs| <= |r| && forall j :: 0 <= j < |cs| ==> r[j].kind == cs[j].kind
  }

  /** Over any sequence of calls: no type twice, and the types there were stay where they are. */
  lemma {:induction false} PutAllKeepsDistinct(cs: seq<Condition>, calls: seq<Call>)
    requires Distinct(cs)
    ensures Distinct(PutAll(cs, calls)) && SameOrder(cs, PutAll(cs, calls))
  {
    if calls != [] {
      var n := |calls| - 1;
      PutAllKeepsDistinct(cs, calls[..n]);
      PutTouchesOne(PutAll(cs, calls[..n]), calls[n]);
      PutKeepsDistinct(PutAll(cs, calls[..n]), calls[n]);
    }
  }

  /** What a sequence of calls does to the entry of one type. */
  function EntryAfter(entry: Option<Condition>, calls: seq<Call>, kind: ConditionType): Option<Condition> {
    if calls == [] then entry
    else
      var c := calls[|calls| - 1];
      var before := EntryAfter(entry, calls[..|calls| - 1], kind);
      if c.kind == kind then Some(Overwritten(before, c)) else before
  }

  /** The list is a map of independent entries, one a type, over any sequence of calls. */
  lemma {:induction false} ListIsMap(cs: seq<Condition>, calls: seq<Call>, kind: ConditionType)
    ensures Lookup(PutAll(cs, calls), kind) == EntryAfter(Lookup(cs, kind), calls, kind)
  {
    if calls != [] {
      var n := |calls| - 1;
      ListIsMap(cs, calls[..n], kind);
      PutIsMapUpdate(PutAll(cs, calls[..n]), calls[n], kind);
    }
  }

  ghost predicate Mentioned(calls: seq<Call>, from: nat, kind: ConditionType) {
    exists m :: from <= m < |calls| && calls[m].kind == kind
  }

  /** The entry holds the status, reason and message of the last call that names its type. */
  lemma {:induction false} EntryIsLastSet(entry: Option<Condition>, calls: seq<Call>, n: nat, kind: ConditionType)
    requires n < |calls| && calls[n].kind == kind && !Mentioned(calls, n + 1, kind)
    ensures var e := EntryAfter(entry, calls, kind);
            && e.Some? && e.value.status == calls[n].status
            && e.value.reason == calls[n].reason && e.value.message == calls[n].message
  {
    var k := |calls| - 1;
    if n < k {
      assert calls[k].kind != kind;
      assert !Mentioned(calls[..k], n + 1, kind);
      EntryIsLastSet(entry, calls[..k], n, kind);
    }
  }

  lemma {:induction false} UnmentionedIsKept(entry: Option<Condition>, calls: seq<Call>, kind: ConditionType)
    requires !Mentioned(calls, 0, kind)
    ensures EntryAfter(entry, calls, kind) == entry
  {
    if calls != [] {
      var k := |calls| - 1;
      assert calls[k].kind != kind;
      assert !Mentioned(calls[..k], 0, kind);
      UnmentionedIsKept(entry, calls[..k], kind);
    }
  }

  function StatusOf(entry: Option<Condition>): ConditionStatus {
    if entry.Some? then entry.value.status else Unset
  }

  function TransitionOf(entry: Option<Condition>): int {
    if entry.Some? then entry.value.transition else NEVER
  }

  /** Call n sets the type to a status it does not have at that point. */
  ghost predicate Flips(entry: Option<Condition>, calls: seq<Call>, n: nat, kind: ConditionType)
    requires n < |calls|
  {
    calls[n].kind == kind && StatusOf(EntryAfter(entry, calls[..n], kind)) != calls[n].status
  }

  lemma FlipsOfPrefix(entry: Option<Condition>, calls: seq<Call>, k: nat, n: nat, kind: ConditionType)
    requires n < k <= |calls|
    ensures Flips(entry, calls[..k], n, kind) == Flips(entry, calls, n, kind)
  {
    assert calls[..k][..n] == calls[..n];
  }

  /** A call that flips the status is the one the transition time is taken from ... */
  lemma {:induction false} TransitionIsLastFlip(entry: Option<Condition>, calls: seq<Call>, n: nat,
                                                kind: ConditionType)
    requires n < |calls| && Flips(entry, calls, n, kind)
    requires forall m :: n < m < |calls| ==> !Flips(entry, calls, m, kind)
    ensures TransitionOf(EntryAfter(entry, calls, kind)) == calls[n].now
  {
    var k := |calls| - 1;
    if n < k {
      forall m | n <= m < k ensures Flips(entry, calls[..k], m, kind) == Flips(entry, calls, m, kind) {
        FlipsOfPrefix(entry, calls, k, m, kind);
      }
      TransitionIsLastFlip(entry, calls[..k], n, kind);
      assert !Flips(entry, calls, k, kind);
    }
  }

  /** ... and without one it is what it was. */
  lemma {:induction false} NoFlipKeepsTransition(entry: Option<Condition>, calls: seq<Call>, kind: ConditionType)
    requires forall m :: 0 <= m < |calls| ==> !Flips(entry, calls, m, kind)
    ensures TransitionOf(EntryAfter(entry, calls, kind)) == TransitionOf(entry)
    ensures StatusOf(EntryAfter(entry, calls, kind)) == StatusOf(entry)
  {
    if calls != [] {
      var k := |calls| - 1;
      forall m | 0 <= m < k ensures !Flips(entry, calls[..k], m, kind) {
        FlipsOfPrefix(entry, calls, k, m, kind);
      }
      NoFlipKeepsTransition(entry, calls[..k], kind);
      assert !Flips(entry, calls, k, kind);
    }
  }
}
