/**
 The string-list helpers of controllers/util/list.go.

 RemoveString shifts the backing array of the list it is ranging over. The range
 expression keeps the original length, so once something has been removed the loop
 skips the element after it and, at the end, reads the stale tail of the array. What
 it returns, and when it slices out of range, is therefore stated exactly here.
 */
module StringList {
  import opened Wrappers

  /** The list with every occurrence of s dropped: what a caller wants. */
  function Without(l: seq<string>, s: string): seq<string> {
    if l == [] then []
    else (if l[0] == s then [] else [l[0]]) + Without(l[1..], s)
  }

  /** The list RemoveString builds: the element that follows a removed one is kept unread. */
  function Survivors(l: seq<string>, s: string): seq<string> {
    if l == [] then []
    else if l[0] != s then [l[0]] + Survivors(l[1..], s)
    else if |l| == 1 then []
    else [l[1]] + Survivors(l[2..], s)
  }

  function Count(l: seq<string>, s: string): nat {
    if l == [] then 0 else (if l[0] == s then 1 else 0) + Count(l[1..], s)
  }

  /** Some removal happens before the scan reaches a stale copy of a matching last element. */
  ghost predicate SlicesOutOfRange(l: seq<string>, s: string) {
    l != [] && l[|l| - 1] == s && exists p :: 0 <= p < |l| - 1 && l[p] == s
  }

  ghost predicate NoNeighbours(l: seq<string>, s: string) {
    forall p :: 0 <= p < |l| - 1 && l[p] == s ==> l[p + 1] != s
  }

  method ContainsString(list: seq<string>, s: string) returns (found: bool)
    ensures found <==> s in list
  {
    for i := 0 to |list|
      invariant s !in list[..i]
    {
      if list[i] == s {
        return true;
      }
    }
    return false;
  }

  /**
   The backing array seen as three stretches: what the scan has passed, what it has still
   to read, and behind the slice the copies that the shifts have left.
   */
  datatype Scan = Scan(passed: seq<string>, unread: seq<string>, stale: seq<string>) {
    function Array(): seq<string> { passed + unread + stale }

    /** One iteration. Removing shifts the following element under the scan, unread. */
    function Next(s: string): Scan {
      if unread == [] then this
      else if unread[0] != s then Scan(passed + [unread[0]], unread[1..], stale)
      else if |unread| == 1 then Scan(passed, [], unread + stale)
      else Scan(passed + [unread[1]], unread[2..], [unread[|unread| - 1]] + stale)
    }
  }

  ghost predicate Scanned(l: seq<string>, s: string, c: Scan, i: nat) {
    && |c.Array()| == |l|
    && |c.passed| <= i <= |l| && (c.unread != [] ==> i == |c.passed|)
    && c.unread == l[|l| - |c.unread|..]
    && (forall x :: x in c.stale ==> x == l[|l| - 1])
    && Survivors(l, s) == c.passed + Survivors(c.unread, s)
    && Met(l, s, i, c.stale)
  }

  /** Which occurrences the scan has met; something is stale once one has been removed. */
  ghost predicate Met(l: seq<string>, s: string, i: nat, stale: seq<string>)
    requires i <= |l|
  {
    && (stale == [] ==> s !in l[..i])
    && (stale != [] ==> s in l[..i])
    && (i == |l| && stale != [] ==> l[|l| - 1] != s || s !in l[..|l| - 1])
  }

  lemma ScanStep(l: seq<string>, s: string, c: Scan, i: nat)
    requires Scanned(l, s, c, i) && i < |l|
    requires i >= |c.passed + c.unread| ==> c.Array()[i] != s
    ensures Scanned(l, s, c.Next(s), i + 1)
  {
    assert l[..i + 1] == l[..i] + [l[i]];
    if c.unread == [] {
      assert c.Array()[i] in c.stale;
    } else {
      var k := |l| - |c.unread|;
      assert c.unread[0] == l[k] && c.unread[1..] == l[k + 1..];
      if c.unread[0] != s {
        MetKept(l, s, c, i);
        Reassociate(c.passed, c.unread[0], Survivors(c.unread[1..], s));
      } else if |c.unread| == 1 {
        MetRemoved(l, s, c, i);
        assert Survivors(c.unread, s) == Survivors([], s) == [];
      } else {
        MetRemoved(l, s, c, i);
        assert c.unread[2..] == l[k + 2..];
        Reassociate(c.passed, c.unread[1], Survivors(c.unread[2..], s));
      }
    }
  }

  lemma Reassociate(a: seq<string>, x: string, b: seq<string>)
    ensures a + ([x] + b) == (a + [x]) + b
  {
  }

  lemma MetKept(l: seq<string>, s: string, c: Scan, i: nat)
    requires Scanned(l, s, c, i) && i < |l| && c.unread != [] && c.unread[0] != s
    ensures Met(l, s, i + 1, c.stale)
  {
  }

  lemma MetRemoved(l: seq<string>, s: string, c: Scan, i: nat)
    requires Scanned(l, s, c, i) && i < |l| && c.unread != [] && c.unread[0] == s
    ensures c.Next(s).stale != [] && Met(l, s, i + 1, c.Next(s).stale)
    ensures forall x :: x in c.Next(s).stale ==> x == l[|l| - 1]
  {
  }

  lemma Overrun(l: seq<string>, s: string, c: Scan, i: nat)
    requires Scanned(l, s, c, i) && i < |l|
    requires i >= |c.passed + c.unread| && c.Array()[i] == s
    ensures SlicesOutOfRange(l, s)
  {
    assert c.Array()[i] in c.stale;
    var p :| 0 <= p < i && l[..i][p] == s;
    assert l[p] == s;
  }

  lemma EndOfScan(l: seq<string>, s: string, c: Scan)
    requires Scanned(l, s, c, |l|)
    ensures !SlicesOutOfRange(l, s) && c.passed + c.unread == Survivors(l, s)
  {
  }

  /** The array after append(list[:i], list[i+1:]...), list being its first len entries. */
  function Closed(b: seq<string>, i: nat, len: nat): (r: seq<string>)
    requires i < len <= |b|
    ensures |r| == |b|
  {
    b[..i] + b[i + 1..len] + b[len - 1..]
  }

  lemma RemovalShifts(c: Scan, s: string)
    requires c.unread != [] && c.unread[0] == s
    ensures c.Next(s).Array() == Closed(c.Array(), |c.passed|, |c.passed + c.unread|)
    ensures |c.Next(s).passed + c.Next(s).unread| == |c.passed + c.unread| - 1
  {
  }

  lemma PassingLeavesArray(c: Scan, s: string)
    requires c.unread == [] || c.unread[0] != s
    ensures c.Next(s).Array() == c.Array()
    ensures |c.Next(s).passed + c.Next(s).unread| == |c.passed + c.unread|
  {
  }

  /**
   The list is the whole of a. The result is the length of the returned slice, which
   shares the array, or None where Go stops with a slice bounds error.
   */
  method RemoveString(a: array<string>, s: string) returns (m: Option<nat>)
    modifies a
    ensures m.None? <==> SlicesOutOfRange(old(a[..]), s)
    ensures m.Some? ==> m.value <= a.Length && a[..m.value] == Survivors(old(a[..]), s)
  {
    ghost var l := a[..];
    ghost var c := Scan([], l, []);
    var len := a.Length;
    for i := 0 to a.Length
      invariant a[..] == c.Array() && len == |c.passed + c.unread|
      invariant Scanned(l, s, c, i)
    {
      assert a[i] == a[..][i];
      if a[i] == s {
        if i + 1 > len {
          Overrun(l, s, c, i);
          return None;
        }
        assert c.unread != [] && c.unread[0] == c.Array()[i];
        RemovalShifts(c, s);
        ShiftLeft(a, i, len);
        len := len - 1;
      } else {
        PassingLeavesArray(c, s);
      }
      ScanStep(l, s, c, i);
      c := c.Next(s);
    }
    EndOfScan(l, s, c);
    assert a[..len] == c.Array()[..len];
    return Some(len);
  }

  /** append(list[:i], list[i+1:]...) on one backing array: the tail moves down by one. */
  method ShiftLeft(a: array<string>, i: nat, len: nat)
    requires i < len <= a.Length
    modifies a
    ensures a[..] == Closed(old(a[..]), i, len)
  {
    for j := i to len - 1
      invariant forall k :: i <= k < j ==> a[k] == old(a[k + 1])
      invariant forall k :: 0 <= k < i || j <= k < a.Length ==> a[k] == old(a[k])
    {
      a[j] := a[j + 1];
    }
  }

  /** All occurrences go, in order, exactly when no two of them are neighbours. */
  lemma {:induction false} DropsAllIff(l: seq<string>, s: string)
    ensures Survivors(l, s) == Without(l, s) <==> NoNeighbours(l, s)
  {
    if l != [] {
      var rest := l[1..];
      if l[0] != s {
        DropsAllIff(rest, s);
        assert NoNeighbours(l, s) <==> NoNeighbours(rest, s) by {
          if NoNeighbours(rest, s) {
            forall p | 0 <= p < |l| - 1 && l[p] == s ensures l[p + 1] != s {
              assert l[p] == rest[p - 1] && l[p + 1] == rest[p];
            }
          }
          if NoNeighbours(l, s) {
            forall p | 0 <= p < |rest| - 1 && rest[p] == s ensures rest[p + 1] != s {
              assert l[p + 1] == rest[p] && l[p + 2] == rest[p + 1];
            }
          }
        }
        assert Survivors(l, s)[1..] == Survivors(rest, s);
        assert Without(l, s)[1..] == Without(rest, s);
      } else if |l| > 1 {
        if l[1] == s {
          assert !NoNeighbours(l, s);
          WithoutHasNone(l, s);
          assert Survivors(l, s)[0] == s;
        } else {
          DropsAllIff(l[2..], s);
          assert rest[1..] == l[2..];
          assert Without(rest, s) == [l[1]] + Without(l[2..], s);
          assert Survivors(l, s)[1..] == Survivors(l[2..], s);
          assert Without(l, s)[1..] == Without(l[2..], s);
          assert NoNeighbours(l, s) <==> NoNeighbours(l[2..], s) by {
            if NoNeighbours(l[2..], s) {
              forall p | 0 <= p < |l| - 1 && l[p] == s ensures l[p + 1] != s {
                if p > 1 {
                  assert l[p] == l[2..][p - 2] && l[p + 1] == l[2..][p - 1];
                }
              }
            }
            if NoNeighbours(l, s) {
              forall p | 0 <= p < |l[2..]| - 1 && l[2..][p] == s ensures l[2..][p + 1] != s {
                assert l[p + 2] == l[2..][p] && l[p + 3] == l[2..][p + 1];
              }
            }
          }
        }
      }
    }
  }

  lemma {:induction false} WithoutHasNone(l: seq<string>, s: string)
    ensures s !in Without(l, s)
    ensures forall x :: x != s ==> (x in Without(l, s) <==> x in l)
  {
    if l != [] {
      WithoutHasNone(l[1..], s);
    }
  }

  lemma {:induction false} CountLocates(l: seq<string>, s: string, p: nat)
    requires p < |l| && l[p] == s
    ensures Count(l, s) == 1 + Count(l[..p] + l[p + 1..], s)
  {
    var m := l[..p] + l[p + 1..];
    if p == 0 {
      assert m == l[1..];
    } else {
      CountLocates(l[1..], s, p - 1);
      assert m[1..] == l[1..][..p - 1] + l[1..][p..];
      assert m[0] == l[0];
    }
  }

  lemma {:induction false} CountZeroIff(l: seq<string>, s: string)
    ensures Count(l, s) == 0 <==> s !in l
  {
    if l != [] {
      CountZeroIff(l[1..], s);
      assert l == [l[0]] + l[1..];
    }
  }

  /** With at most one copy in the list, RemoveString neither fails nor misses anything. */
  lemma AtMostOneIsSafe(l: seq<string>, s: string)
    requires Count(l, s) <= 1
    ensures !SlicesOutOfRange(l, s)
    ensures Survivors(l, s) == Without(l, s)
    ensures Count(Without(l, s), s) == 0
  {
    forall p, q | 0 <= p < q < |l| ensures !(l[p] == s && l[q] == s) {
      if l[p] == s && l[q] == s {
        CountLocates(l, s, p);
        var m := l[..p] + l[p + 1..];
        assert m[q - 1] == s;
        CountZeroIff(m, s);
      }
    }
    DropsAllIff(l, s);
    WithoutHasNone(l, s);
    CountZeroIff(Without(l, s), s);
  }

  /** A second copy at the end is enough for the slice bounds error. */
  lemma TwoCopiesCanFail()
    ensures SlicesOutOfRange(["x", "a", "x"], "x")
    ensures !SlicesOutOfRange(["x", "x", "a"], "x") && Survivors(["x", "x", "a"], "x") == ["x", "a"]
  {
    assert ["x", "a", "x"][0] == "x";
    assert Survivors(["a"], "x") == ["a"];
    assert ["x", "x", "a"][2..] == ["a"];
  }
}
