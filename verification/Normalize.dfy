/** `normalize` gives a canonical form: an independent equality of JSON trees, and the proof
    that two trees are equal in that sense exactly when they normalize to the same tree. */
module Normalize {
  import opened Ordering
  import opened Json
  import opened SortKey

  predicate TextLess(a: Json, b: Json) {
    StrLess(Text(a), Text(b))
  }

  const EMPTY_LIST := Arr([])

  /** The keys that `normalize` keeps: an empty list and a missing list are the same. */
  function Kept(f: Object): set<string> {
    set k | k in f && f[k] != EMPTY_LIST
  }

  /** `walk` inside `normalize`. */
  function Walk(v: Json, sortLists: bool): Json {
    match v
    case Obj(f) => Obj(map k | k in Kept(f) :: Walk(f[k], sortLists))
    case Arr(xs) =>
      var out := seq(|xs|, i requires 0 <= i < |xs| => Walk(xs[i], sortLists));
      Arr(if sortLists then Sort(TextLess, out) else out)
    case _ => v
  }

  function NormalizeObject(obj: Object, sortLists: bool): Object {
    Walk(Obj(obj), sortLists).fields
  }

  // ---- The sort of lists ----

  lemma TextLessWeakOrder()
    ensures WeakOrder(TextLess)
  {
    StrLessWeakOrder();
    forall a, b | TextLess(a, b) ensures !TextLess(b, a) {
      StrLessAsym(Text(a), Text(b));
    }
    forall a, b, c | !TextLess(a, b) && !TextLess(b, c) ensures !TextLess(a, c) {
      var x, y, z := Text(a), Text(b), Text(c);
      assert !StrLess(x, y) && !StrLess(y, z) ==> !StrLess(x, z);
    }
  }

  lemma TextDistinguishes(s: seq<Json>)
    ensures Distinguishes(TextLess, s)
  {
    forall x, y | x in s && y in s && x != y ensures TextLess(x, y) || TextLess(y, x) {
      TextInjective(x, y);
      StrLessTotal(Text(x), Text(y));
    }
  }

  /** `sort.Slice` is not stable, but every order it may leave equal keys in is the same list. */
  lemma UnstableSortIsDetermined(out: seq<Json>, sorted: seq<Json>)
    requires multiset(sorted) == multiset(out) && Ordered(TextLess, sorted)
    ensures sorted == Sort(TextLess, out)
  {
    TextLessWeakOrder();
    TextDistinguishes(out);
    SortIs(TextLess, out, sorted);
  }

  lemma SortTextOrdered(s: seq<Json>)
    ensures Ordered(TextLess, Sort(TextLess, s))
  {
    TextLessWeakOrder();
    SortOrdered(TextLess, s);
  }

  /** Lists sort to the same list exactly when they have the same elements, counted. */
  lemma SortSame(a: seq<Json>, b: seq<Json>)
    ensures Sort(TextLess, a) == Sort(TextLess, b) <==> multiset(a) == multiset(b)
  {
    if multiset(a) == multiset(b) {
      SortTextOrdered(b);
      UnstableSortIsDetermined(a, Sort(TextLess, b));
    }
  }

  // ---- Equality up to the order of lists ----

  ghost predicate Permutation(p: seq<nat>, n: nat) {
    |p| == n && NoDup(p) && forall i | 0 <= i < n :: p[i] < n
  }

  /** Equal up to entries that are empty lists and, with `reorder`, up to the order of the
      elements of lists, at every depth. Empty lists inside lists count, and so do empty maps. */
  ghost predicate Same(reorder: bool, a: Json, b: Json)
    decreases a
  {
    match a
    case Obj(f) =>
      && b.Obj?
      && (forall k | k in f && f[k] != Arr([]) ::
            k in b.fields && b.fields[k] != Arr([]) && Same(reorder, f[k], b.fields[k]))
      && (forall k | k in b.fields && b.fields[k] != Arr([]) :: k in f && f[k] != Arr([]))
    case Arr(xs) =>
      && b.Arr? && |xs| == |b.elems|
      && if reorder
         then exists p: seq<nat> :: Permutation(p, |xs|) && forall i | 0 <= i < |xs| ::
           Same(reorder, xs[i], b.elems[p[i]])
         else forall i | 0 <= i < |xs| :: Same(reorder, xs[i], b.elems[i])
    case _ => a == b
  }

  function Without<T>(s: seq<T>, j: nat): (r: seq<T>)
    requires j < |s|
    ensures |r| == |s| - 1
    ensures multiset(s) == multiset(r) + multiset{s[j]}
  {
    assert s == s[..j] + [s[j]] + s[j + 1..];
    s[..j] + s[j + 1..]
  }

  /** Where index `i` of `Without(s, j)` is in `s`. */
  function Skip(j: nat, i: nat): nat {
    if i < j then i else i + 1
  }

  lemma DropMatch<T>(a: seq<T>, b: seq<T>, j: nat)
    requires a != [] && j < |b| && b[j] == a[0] && multiset(a) == multiset(b)
    ensures multiset(a[1..]) == multiset(Without(b, j))
  {
    assert a == [a[0]] + a[1..];
    assert multiset(a[1..]) == multiset(a) - multiset{a[0]};
    assert multiset(Without(b, j)) == multiset(b) - multiset{b[j]};
  }

  function Extend(j: nat, q: seq<nat>): seq<nat> {
    [j] + seq(|q|, i requires 0 <= i < |q| => Skip(j, q[i]))
  }

  lemma ExtendPermutation(j: nat, q: seq<nat>, n: nat)
    requires Permutation(q, n) && j <= n
    ensures Permutation(Extend(j, q), n + 1)
  {
    var p := Extend(j, q);
    forall i, k | 0 <= i < k < n + 1 ensures p[i] != p[k] {
      if i > 0 { assert q[i - 1] != q[k - 1]; }
    }
  }

  lemma {:induction false} MatchUp(a: seq<Json>, b: seq<Json>) returns (p: seq<nat>)
    requires multiset(a) == multiset(b)
    ensures Permutation(p, |a|) && |a| == |b|
    ensures forall i | 0 <= i < |a| :: a[i] == b[p[i]]
  {
    SameElements(a, b);
    if a == [] {
      p := [];
    } else {
      assert a[0] in b;
      var j: nat :| j < |b| && b[j] == a[0];
      DropMatch(a, b, j);
      var q := MatchUp(a[1..], Without(b, j));
      ExtendPermutation(j, q, |a| - 1);
      p := Extend(j, q);
      hide Permutation;
      forall i | 0 < i < |a| ensures a[i] == b[p[i]] {
        assert a[i] == a[1..][i - 1] == Without(b, j)[q[i - 1]];
      }
    }
  }

  lemma {:induction false} MatchedUp(a: seq<Json>, b: seq<Json>, p: seq<nat>)
    requires Permutation(p, |a|) && |a| == |b|
    requires forall i | 0 <= i < |a| :: a[i] == b[p[i]]
    ensures multiset(a) == multiset(b)
  {
    if a != [] {
      var j := p[0];
      var q: seq<nat> := seq(|a| - 1, i requires 0 <= i < |a| - 1 => if p[i + 1] < j then p[i + 1] else p[i + 1] - 1);
      forall i | 0 <= i < |a| - 1 ensures q[i] < |a| - 1 && a[1..][i] == Without(b, j)[q[i]] {
        assert p[i + 1] != p[0];
      }
      MatchedUp(a[1..], Without(b, j), q);
      assert a == [a[0]] + a[1..];
    }
  }

  // ---- The canonical form ----

  lemma {:induction false} SameIfWalkSame(a: Json, b: Json, r: bool)
    requires Walk(a, r) == Walk(b, r)
    ensures Same(r, a, b)
    decreases a
  {
    match a
    case Obj(f) =>
      assert Walk(a, r).fields.Keys == Kept(f) && Walk(b, r).fields.Keys == Kept(b.fields);
      forall k | k in Kept(f) ensures Same(r, f[k], b.fields[k]) {
        assert Walk(a, r).fields[k] == Walk(b, r).fields[k];
        SameIfWalkSame(f[k], b.fields[k], r);
      }
    case Arr(xs) =>
      var ys := b.elems;
      var l := seq(|xs|, i requires 0 <= i < |xs| => Walk(xs[i], r));
      var m := seq(|ys|, i requires 0 <= i < |ys| => Walk(ys[i], r));
      if r {
        SortSame(l, m);
        var p := MatchUp(l, m);
        forall i | 0 <= i < |xs| ensures Same(r, xs[i], ys[p[i]]) {
          assert l[i] == m[p[i]];
          SameIfWalkSame(xs[i], ys[p[i]], r);
        }
      } else {
        forall i | 0 <= i < |xs| ensures Same(r, xs[i], ys[i]) {
          assert l[i] == m[i];
          SameIfWalkSame(xs[i], ys[i], r);
        }
      }
    case _ =>
  }

  lemma WalkPermuted(xs: seq<Json>, ys: seq<Json>, p: seq<nat>)
    requires Permutation(p, |xs|) && |xs| == |ys|
    requires forall i | 0 <= i < |xs| :: Walk(xs[i], true) == Walk(ys[p[i]], true)
    ensures Walk(Arr(xs), true) == Walk(Arr(ys), true)
  {
    var l := seq(|xs|, i requires 0 <= i < |xs| => Walk(xs[i], true));
    var m := seq(|ys|, i requires 0 <= i < |ys| => Walk(ys[i], true));
    assert forall i | 0 <= i < |l| :: l[i] == m[p[i]];
    MatchedUp(l, m, p);
    SortSame(l, m);
  }

  lemma {:induction false} WalkSameIfSame(a: Json, b: Json, r: bool)
    requires Same(r, a, b)
    ensures Walk(a, r) == Walk(b, r)
    decreases a
  {
    hide Sort, Permutation, TextLess;
    match a
    case Obj(f) =>
      forall k | k in Kept(f) ensures Walk(f[k], r) == Walk(b.fields[k], r) {
        WalkSameIfSame(f[k], b.fields[k], r);
      }
      WalkFields(f, b.fields, r);
    case Arr(xs) =>
      var ys := b.elems;
      if r {
        var p: seq<nat> := SamePermutation(xs, ys);
        forall i | 0 <= i < |xs| ensures Walk(xs[i], r) == Walk(ys[p[i]], r) {
          WalkSameIfSame(xs[i], ys[p[i]], r);
        }
        WalkPermuted(xs, ys, p);
      } else {
        forall i | 0 <= i < |xs| ensures Walk(xs[i], false) == Walk(ys[i], false) {
          WalkSameIfSame(xs[i], ys[i], false);
        }
        WalkAligned(xs, ys);
      }
    case _ =>
  }

  lemma WalkAligned(xs: seq<Json>, ys: seq<Json>)
    requires |xs| == |ys| && forall i | 0 <= i < |xs| :: Walk(xs[i], false) == Walk(ys[i], false)
    ensures Walk(Arr(xs), false) == Walk(Arr(ys), false)
  {
  }

  lemma WalkFields(f: Object, g: Object, r: bool)
    requires Kept(f) == Kept(g) && forall k | k in Kept(f) :: Walk(f[k], r) == Walk(g[k], r)
    ensures Walk(Obj(f), r) == Walk(Obj(g), r)
  {
  }

  lemma SamePermutation(xs: seq<Json>, ys: seq<Json>) returns (p: seq<nat>)
    requires Same(true, Arr(xs), Arr(ys))
    ensures Permutation(p, |xs|) && |xs| == |ys|
    ensures forall i | 0 <= i < |xs| :: p[i] < |ys| && Same(true, xs[i], ys[p[i]])
  {
    p :| Permutation(p, |xs|) && forall i | 0 <= i < |xs| :: Same(true, xs[i], ys[p[i]]);
  }

  /** The canonical form: same normalized tree if and only if equal up to order and empty lists. */
  lemma CanonicalForm(a: Object, b: Object, sortLists: bool)
    ensures NormalizeObject(a, sortLists) == NormalizeObject(b, sortLists) <==> Same(sortLists, Obj(a), Obj(b))
  {
    if NormalizeObject(a, sortLists) == NormalizeObject(b, sortLists) {
      SameIfWalkSame(Obj(a), Obj(b), sortLists);
    }
    if Same(sortLists, Obj(a), Obj(b)) {
      WalkSameIfSame(Obj(a), Obj(b), sortLists);
    }
  }

  ghost predicate WalksTwice(v: Json, s: bool, t: bool) {
    Walk(Walk(v, s), t) == Walk(v, s || t)
  }

  lemma {:induction false} WalkTwice(v: Json, s: bool, t: bool)
    ensures WalksTwice(v, s, t)
  {
    match v
    case Obj(f) =>
      forall k | k in Kept(f) ensures WalksTwice(f[k], s, t) {
        WalkTwice(f[k], s, t);
      }
      WalkObjectTwice(f, s, t);
    case Arr(xs) =>
      forall x | x in xs ensures WalksTwice(x, s, t) {
        WalkTwice(x, s, t);
      }
      if s { WalkSortedTwice(xs, t); } else { WalkUnsortedTwice(xs, t); }
    case _ =>
  }

  lemma WalkEmptyList(v: Json, s: bool)
    ensures Walk(v, s) == EMPTY_LIST <==> v == EMPTY_LIST
  {
    if v.Arr? {
      assert |Walk(v, s).elems| == |v.elems|;
    }
  }

  lemma KeptWalk(f: Object, s: bool)
    ensures Kept(Walk(Obj(f), s).fields) == Kept(f)
  {
    var g := Walk(Obj(f), s).fields;
    forall k | k in Kept(f) ensures g[k] != EMPTY_LIST {
      WalkEmptyList(f[k], s);
    }
  }

  lemma WalkObjectTwice(f: Object, s: bool, t: bool)
    requires forall k | k in Kept(f) :: WalksTwice(f[k], s, t)
    ensures WalksTwice(Obj(f), s, t)
  {
    KeptWalk(f, s);
    hide Sort;
    var g := Walk(Obj(f), s).fields;
    var h, h' := Walk(Obj(g), t).fields, Walk(Obj(f), s || t).fields;
    forall k | k in Kept(f) ensures h[k] == h'[k] {
      assert WalksTwice(f[k], s, t);
    }
    assert h == h';
  }

  lemma WalkUnsortedTwice(xs: seq<Json>, t: bool)
    requires forall x | x in xs :: WalksTwice(x, false, t)
    ensures WalksTwice(Arr(xs), false, t)
  {
    var m := Walk(Arr(xs), false).elems;
    var n := seq(|m|, i requires 0 <= i < |m| => Walk(m[i], t));
    forall i | 0 <= i < |xs| ensures n[i] == Walk(xs[i], t) {
      assert WalksTwice(xs[i], false, t);
    }
    assert n == seq(|xs|, i requires 0 <= i < |xs| => Walk(xs[i], t));
  }

  lemma WalkSortedTwice(xs: seq<Json>, t: bool)
    requires forall x | x in xs :: WalksTwice(x, true, t)
    ensures WalksTwice(Arr(xs), true, t)
  {
    var l := seq(|xs|, i requires 0 <= i < |xs| => Walk(xs[i], true));
    var m := Sort(TextLess, l);
    var n := seq(|m|, i requires 0 <= i < |m| => Walk(m[i], t));
    SameElements(m, l);
    forall i | 0 <= i < |m| ensures n[i] == m[i] {
      assert m[i] in l;
      var j :| 0 <= j < |l| && l[j] == m[i];
      assert WalksTwice(xs[j], true, t);
    }
    assert n == m;
    SortTextOrdered(l);
    UnstableSortIsDetermined(m, m);
  }

  /** Normalizing again changes nothing, and the sorted form is the sorted form of the unsorted one. */
  lemma NormalizeTwice(obj: Object, s: bool, t: bool)
    ensures NormalizeObject(NormalizeObject(obj, s), t) == NormalizeObject(obj, s || t)
  {
    WalkTwice(Obj(obj), s, t);
  }
}
