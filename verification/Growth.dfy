/** Counting marked events that keep their distance, and a count that at most doubles at each. */
module Growth {
  function Marks(marked: seq<bool>, i: nat, n: nat): nat
    requires i <= n <= |marked|
  {
    if n == i then 0 else Marks(marked, i, n - 1) + if marked[n - 1] then 1 else 0
  }

  /** Any two marked events are at least u apart, and times do not decrease. */
  ghost predicate Spaced(marked: seq<bool>, times: seq<int>, u: int) {
    && |marked| == |times|
    && (forall i, j :: 0 <= i < j < |times| ==> times[i] <= times[j])
    && (forall i, j :: 0 <= i < j < |times| && marked[i] && marked[j] ==> times[i] + u <= times[j])
  }

  lemma {:induction false} LastMark(marked: seq<bool>, times: seq<int>, u: int, start: int, i: nat,
                                    n: nat) returns (l: nat)
    requires Spaced(marked, times, u) && i < n <= |marked| && start <= times[i]
    requires Marks(marked, i, n) >= 1
    ensures i <= l < n && marked[l] && times[l] >= start + (Marks(marked, i, n) - 1) * u
    decreases n
  {
    var k := Marks(marked, i, n);
    if !marked[n - 1] {
      l := LastMark(marked, times, u, start, i, n - 1);
    } else {
      l := n - 1;
      if k > 1 {
        var before := LastMark(marked, times, u, start, i, n - 1);
        assert (k - 1) * u == (k - 2) * u + u;
      }
    }
  }

  lemma QuotientAtLeast(t: int, u: int, k: int)
    requires u >= 1 && k * u <= t
    ensures k <= t / u
  {
    var q := t / u;
    assert t < (q + 1) * u;
    assert k >= q + 1 ==> (q + 1) * u <= k * u;
  }

  /** At most one event every u, and one more. */
  lemma MarksAreRare(marked: seq<bool>, times: seq<int>, u: int, start: int, i: nat, n: nat)
    requires Spaced(marked, times, u) && i < n <= |marked| && start <= times[i] && u >= 1
    ensures Marks(marked, i, n) <= (times[n - 1] - start) / u + 1
  {
    var k := Marks(marked, i, n);
    if k >= 1 {
      var l := LastMark(marked, times, u, start, i, n);
      assert times[l] <= times[n - 1];
      QuotientAtLeast(times[n - 1] - start, u, k - 1);
    }
  }

  function Pow2(n: nat): nat { if n == 0 then 1 else 2 * Pow2(n - 1) }

  lemma {:induction false} Pow2IsMonotone(m: nat, n: nat)
    requires m <= n
    ensures 1 <= Pow2(m) <= Pow2(n)
  {
    if m < n {
      Pow2IsMonotone(m, n - 1);
    } else if m > 0 {
      Pow2IsMonotone(m - 1, n - 1);
    }
  }

  /** Step i at most doubles the count, and only if it is marked. */
  ghost predicate Doubles(marked: seq<bool>, counts: seq<int>) {
    && |marked| == |counts|
    && (forall i :: 0 <= i < |counts| ==> counts[i] >= 0)
    && (forall i :: 0 < i < |counts| ==> counts[i] <= (if marked[i - 1] then 2 * counts[i - 1] else counts[i - 1]))
  }

  lemma {:induction false} CountAtMost(marked: seq<bool>, counts: seq<int>, i: nat, n: nat, k: nat)
    requires Doubles(marked, counts) && i <= n < |counts| && Marks(marked, i, n) <= k
    ensures counts[n] <= counts[i] * Pow2(k)
    decreases n
  {
    var c := counts[i];
    if n > i {
      if marked[n - 1] {
        CountAtMost(marked, counts, i, n - 1, k - 1);
        assert c * Pow2(k) == 2 * (c * Pow2(k - 1));
      } else {
        CountAtMost(marked, counts, i, n - 1, k);
      }
    } else {
      Pow2IsMonotone(0, k);
      assert c <= c * Pow2(k);
    }
  }
}
