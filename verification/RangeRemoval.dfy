/** The loop that removes a reference from a list while it ranges over that list, without
    leaving the loop. Go reads the elements from the shared array, which each removal shifts. */
module RangeRemoval {
  import opened Groups

  /** What the loop leaves: after a match it does not look at the next element. */
  function Scan(s: seq<string>, x: string, j: nat): seq<string>
    decreases |s| - j
  {
    if j >= |s| then []
    else if s[j] != x then [s[j]] + Scan(s, x, j + 1)
    else if j + 1 >= |s| then []
    else [s[j + 1]] + Scan(s, x, j + 2)
  }

  /** The last element matches and is not the first match: the loop then slices out of range. */
  predicate Panics(s: seq<string>, x: string) {
    s != [] && s[|s| - 1] == x && x in s[..|s| - 1]
  }

  predicate NoneAdjacent(s: seq<string>, x: string) {
    NoneAdjacentFrom(s, x, 0)
  }

  predicate NoneAdjacentFrom(s: seq<string>, x: string, j: nat) {
    forall t | j < t < |s| :: !(s[t - 1] == x && s[t] == x)
  }

  /** `append(list[:i], list[i+1:]...)` in the array. */
  method ShiftDown(a: array<string>, i: nat, length: nat)
    requires i < length <= a.Length
    modifies a
    ensures a[..i] == old(a[..i]) && a[i..length - 1] == old(a[i + 1..length])
      && a[length - 1..] == old(a[length - 1..])
  {
    var j := i;
    while j < length - 1
      invariant i <= j <= length - 1
      invariant forall t | 0 <= t < i :: a[t] == old(a[t])
      invariant forall t | i <= t < j :: a[t] == old(a[t + 1])
      invariant forall t | j <= t < a.Length :: a[t] == old(a[t])
    {
      a[j] := a[j + 1];
      j := j + 1;
    }
  }

  lemma ScanMiss(s: seq<string>, x: string, done: seq<string>, j: nat)
    requires j < |s| && s[j] != x && done + Scan(s, x, j) == Scan(s, x, 0)
    ensures done + [s[j]] + Scan(s, x, j + 1) == Scan(s, x, 0)
  {
    assert done + [s[j]] + Scan(s, x, j + 1) == done + ([s[j]] + Scan(s, x, j + 1));
  }

  lemma ScanHit(s: seq<string>, x: string, done: seq<string>, j: nat)
    requires j + 1 < |s| && s[j] == x && done + Scan(s, x, j) == Scan(s, x, 0)
    ensures done + [s[j + 1]] + Scan(s, x, j + 2) == Scan(s, x, 0)
  {
    assert done + [s[j + 1]] + Scan(s, x, j + 2) == done + ([s[j + 1]] + Scan(s, x, j + 2));
  }

  lemma ScanEnd(s: seq<string>, x: string, done: seq<string>, j: nat)
    requires done + Scan(s, x, j) == Scan(s, x, 0)
    requires j >= |s| || (j == |s| - 1 && s[j] == x)
    ensures done == Scan(s, x, 0)
  {
    assert done + [] == done;
  }

  /** The array `t` before turn `i`: `k` elements of `s` are gone, the rest of the list is `s`
      shifted by `k`, and what lies beyond it are copies of the last element. */
  ghost predicate Ranging(t: seq<string>, s: seq<string>, x: string, i: nat, k: nat) {
    var n := |s|;
    && |t| == n && k <= i <= n
    && (forall j | n - k <= j < n :: t[j] == s[n - 1])
    && (if i <= n - k then t[i..n - k] == s[i + k..] && t[..i] + Scan(s, x, i + k) == Scan(s, x, 0)
        else t[..n - k] == Scan(s, x, 0))
    && (k == 0 ==> x !in s[..i])
    && (k > 0 && i < n ==> x in s[..n - 1])
    && (i == n ==> !Panics(s, x))
  }

  lemma RangingStart(s: seq<string>, x: string)
    ensures Ranging(s, s, x, 0, 0)
  {
    assert s[..0] + Scan(s, x, 0) == Scan(s, x, 0) && s[0..|s|] == s;
  }

  /** A turn beyond the end of the list. */
  lemma StaleTurn(t: seq<string>, s: seq<string>, x: string, i: nat, k: nat)
    requires Ranging(t, s, x, i, k) && |s| - k <= i < |s|
    ensures t[i] == s[|s| - 1] && x in s[..|s| - 1]
    ensures t[i] != x ==> Ranging(t, s, x, i + 1, k)
  {
    if i == |s| - k {
      ScanEnd(s, x, t[..i], i + k);
    }
    hide Scan;
  }

  lemma MissTurn(t: seq<string>, s: seq<string>, x: string, i: nat, k: nat)
    requires Ranging(t, s, x, i, k) && i < |s| - k && t[i] != x
    ensures Ranging(t, s, x, i + 1, k)
  {
    hide Scan;
    SliceNext(t, i, |s| - k, s, i + k);
    ScanMiss(s, x, t[..i], i + k);
    assert t[..i + 1] == t[..i] + [s[i + k]];
    if k == 0 {
      assert s[..i + 1] == s[..i] + [s[i]];
    }
  }

  lemma SliceNext(t: seq<string>, i: nat, length: nat, s: seq<string>, j: nat)
    requires i < length <= |t| && j < |s| && t[i..length] == s[j..]
    ensures t[i] == s[j] && t[i + 1..length] == s[j + 1..]
  {
    assert t[i] == t[i..length][0];
    assert t[i + 1..length] == t[i..length][1..] && s[j + 1..] == s[j..][1..];
  }

  lemma HitTurn(t: seq<string>, u: seq<string>, s: seq<string>, x: string, i: nat, k: nat)
    requires Ranging(t, s, x, i, k) && i < |s| - k && t[i] == x
    requires var length := |s| - k;
      |u| == |t| && u[..i] == t[..i] && u[i..length - 1] == t[i + 1..length] && u[length - 1..] == t[length - 1..]
    ensures Ranging(u, s, x, i + 1, k + 1)
  {
    var n, length, j := |s|, |s| - k, i + k;
    hide Scan;
    SliceNext(t, i, length, s, j);
    HitScan(t, u, s, x, i, k);
    StaleAfterHit(t, u, s, i, k);
    if k == 0 && j < n - 1 {
      assert s[..n - 1][j] == x;
    }
  }

  lemma StaleAfterHit(t: seq<string>, u: seq<string>, s: seq<string>, i: nat, k: nat)
    requires |t| == |u| == |s| && k <= |s| && i < |s| - k
    requires forall j | |s| - k <= j < |s| :: t[j] == s[|s| - 1]
    requires t[i..|s| - k] == s[i + k..] && u[|s| - k - 1..] == t[|s| - k - 1..]
    ensures forall m | |s| - k - 1 <= m < |s| :: u[m] == s[|s| - 1]
  {
    var last := |s| - k - 1;
    assert t[last] == t[i..|s| - k][last - i] == s[i + k..][last - i];
    forall m | last <= m < |s| ensures u[m] == t[m] {
      assert u[m] == u[last..][m - last] && t[m] == t[last..][m - last];
    }
  }

  lemma HitScan(t: seq<string>, u: seq<string>, s: seq<string>, x: string, i: nat, k: nat)
    requires var n, length, j := |s|, |s| - k, i + k;
      && i < length <= n == |t| == |u| && j < n && s[j] == x
      && t[..i] + Scan(s, x, j) == Scan(s, x, 0) && u[..i] == t[..i] && u[i..length - 1] == s[j + 1..]
    ensures var length, j := |s| - k, i + k;
      if i + 1 <= length - 1 then u[i + 1..length - 1] == s[j + 2..] && u[..i + 1] + Scan(s, x, j + 2) == Scan(s, x, 0)
      else u[..length - 1] == Scan(s, x, 0)
  {
    hide Scan;
    var length, j := |s| - k, i + k;
    if i < length - 1 {
      ScanHit(s, x, t[..i], j);
      SliceNext(u, i, length - 1, s, j + 1);
      assert u[..i + 1] == u[..i] + [u[i]];
    } else {
      ScanEnd(s, x, t[..i], j);
    }
  }

  lemma RangingEnd(t: seq<string>, s: seq<string>, x: string, i: nat, k: nat)
    requires Ranging(t, s, x, i, k) && i == |s|
    ensures !Panics(s, x) && t[..|s| - k] == Scan(s, x, 0)
  {
    if k == 0 {
      ScanEnd(s, x, t[..i], i);
    }
    hide Scan;
  }

  /** One turn of the loop. */
  method Turn(a: array<string>, x: string, i: nat, before: nat, ghost s: seq<string>)
    returns (panicked: bool, length: nat)
    requires before <= a.Length == |s| && i < a.Length && Ranging(a[..], s, x, i, a.Length - before)
    modifies a
    ensures panicked ==> Panics(s, x)
    ensures !panicked ==> length <= a.Length && Ranging(a[..], s, x, i + 1, a.Length - length)
  {
    hide Ranging;
    length := before;
    ghost var t, k := a[..], a.Length - before;
    if i >= length {
      StaleTurn(t, s, x, i, k);
      panicked := a[i] == x;
    } else if a[i] == x {
      ShiftDown(a, i, length);
      HitTurn(t, a[..], s, x, i, k) by {
        assert t[..i] == a[..i] && a[i..length - 1] == t[i + 1..length] && a[length - 1..] == t[length - 1..];
      }
      return false, length - 1;
    } else {
      MissTurn(t, s, x, i, k);
      panicked := false;
    }
  }

  /** The loop over the security group references of a mesh. `length` is the length that the
      list ends with; the range goes over the length that it started with. */
  method RemoveWhileRanging(a: array<string>, x: string) returns (panicked: bool, length: nat)
    modifies a
    ensures panicked <==> Panics(old(a[..]), x)
    ensures !panicked ==> length <= a.Length && a[..length] == Scan(old(a[..]), x, 0)
  {
    hide *;
    ghost var s := a[..];
    length := a.Length;
    RangingStart(s, x);
    var i := 0;
    while i < a.Length
      invariant i <= a.Length && length <= a.Length
      invariant Ranging(a[..], s, x, i, a.Length - length)
    {
      panicked, length := Turn(a, x, i, length, s);
      if panicked {
        return;
      }
      i := i + 1;
    }
    RangingEnd(a[..], s, x, i, a.Length - length);
    assert a[..][..length] == a[..length];
    return false, length;
  }

  // ---- When the loop removes exactly the matches ----

  lemma {:induction false} WithoutFront(s: seq<string>, t: seq<string>, x: string)
    ensures Without(s + t, x) == Without(s, x) + Without(t, x)
  {
    if t == [] {
      assert s + t == s;
    } else {
      var n := |t| - 1;
      assert (s + t)[..|s + t| - 1] == s + t[..n];
      WithoutFront(s, t[..n], x);
    }
  }

  lemma WithoutStep(s: seq<string>, x: string, j: nat)
    requires j < |s|
    ensures Without(s[j..], x) == (if s[j] != x then [s[j]] else []) + Without(s[j + 1..], x)
  {
    assert s[j..] == [s[j]] + s[j + 1..];
    WithoutFront([s[j]], s[j + 1..], x);
    assert [s[j]][..0] == [];
  }

  lemma {:induction false} ScanLength(s: seq<string>, x: string, j: nat)
    requires j <= |s|
    ensures |Scan(s, x, j)| >= |Without(s[j..], x)|
    decreases |s| - j
  {
    if j < |s| {
      WithoutStep(s, x, j);
      if s[j] != x || j + 1 >= |s| {
        ScanLength(s, x, j + 1);
      } else {
        WithoutStep(s, x, j + 1);
        ScanLength(s, x, j + 2);
      }
    }
  }

  lemma SameHead(a: string, p: seq<string>, q: seq<string>)
    ensures [a] + p == [a] + q <==> p == q
  {
    assert ([a] + p)[1..] == p && ([a] + q)[1..] == q;
  }

  lemma MissFrom(s: seq<string>, x: string, j: nat)
    requires j < |s| && s[j] != x
    requires Scan(s, x, j + 1) == Without(s[j + 1..], x) <==> NoneAdjacentFrom(s, x, j + 1)
    ensures Scan(s, x, j) == Without(s[j..], x) <==> NoneAdjacentFrom(s, x, j)
  {
    WithoutStep(s, x, j);
    SameHead(s[j], Scan(s, x, j + 1), Without(s[j + 1..], x));
    assert Scan(s, x, j) == [s[j]] + Scan(s, x, j + 1);
    hide Scan, Without;
  }

  lemma HitFrom(s: seq<string>, x: string, j: nat)
    requires j + 1 < |s| && s[j] == x
    requires Scan(s, x, j + 2) == Without(s[j + 2..], x) <==> NoneAdjacentFrom(s, x, j + 2)
    ensures Scan(s, x, j) == Without(s[j..], x) <==> NoneAdjacentFrom(s, x, j)
  {
    WithoutStep(s, x, j);
    WithoutStep(s, x, j + 1);
    ScanLength(s, x, j + 2);
    SameHead(s[j + 1], Scan(s, x, j + 2), Without(s[j + 2..], x));
    assert Scan(s, x, j) == [s[j + 1]] + Scan(s, x, j + 2);
    var rest, more := Without(s[j + 2..], x), Scan(s, x, j + 2);
    hide Scan, Without;
    if s[j + 1] == x {
      assert [] + rest == rest && |[s[j + 1]] + more| > |rest|;
      assert !NoneAdjacentFrom(s, x, j);
    }
  }

  lemma {:induction false} ScanFrom(s: seq<string>, x: string, j: nat)
    requires j <= |s|
    ensures Scan(s, x, j) == Without(s[j..], x) <==> NoneAdjacentFrom(s, x, j)
    decreases |s| - j
  {
    if j == |s| {
    } else if s[j] != x {
      ScanFrom(s, x, j + 1);
      hide *;
      MissFrom(s, x, j);
    } else if j + 1 < |s| {
      ScanFrom(s, x, j + 2);
      hide *;
      HitFrom(s, x, j);
    } else {
      WithoutStep(s, x, j);
    }
  }

  /** The loop leaves exactly the old list without the name, in order and without running out of
      range, if and only if no two matches are adjacent and the last element is no second match. */
  lemma RemovesExactly(s: seq<string>, x: string)
    ensures !Panics(s, x) && Scan(s, x, 0) == Without(s, x)
      <==> NoneAdjacent(s, x) && (s == [] || s[|s| - 1] != x || x !in s[..|s| - 1])
  {
    assert s[0..] == s;
    ScanFrom(s, x, 0);
  }

  /** With pairwise distinct names that always holds. */
  lemma DistinctNamesRemove(s: seq<string>, x: string)
    requires forall i, j | 0 <= i < j < |s| :: s[i] != s[j]
    ensures !Panics(s, x) && Scan(s, x, 0) == Without(s, x)
  {
    RemovesExactly(s, x);
  }
}
