/** Orders on strings and sorted sequences.
    `sort.Strings` and `sort.Slice` are modelled by what they promise: a permutation in
    which no element is less than an earlier one. `OrderedUnique` says when that
    leaves no choice, so that an unstable sort cannot show the order of its input. */
module Ordering {

  /** The order of Go strings. Code points compare as the bytes of their UTF-8 form do. */
  predicate StrLess(a: string, b: string) {
    |b| > 0 && (|a| == 0 || a[0] < b[0] || (a[0] == b[0] && StrLess(a[1..], b[1..])))
  }

  /** Both strings agree before `i`, and there the first one ends or has the smaller character. */
  predicate LessAt(a: string, b: string, i: nat) {
    i <= |a| && i < |b| && a[..i] == b[..i] && (i < |a| ==> a[i] < b[i])
  }

  /** The order is the lexicographic one. */
  lemma {:induction false} StrLessMeans(a: string, b: string)
    ensures StrLess(a, b) <==> exists i :: LessAt(a, b, i)
  {
    if |a| == 0 && |b| > 0 {
      assert LessAt(a, b, 0);
    } else if |a| > 0 && |b| > 0 {
      var s, t := a[1..], b[1..];
      StrLessMeans(s, t);
      if a[0] < b[0] {
        assert LessAt(a, b, 0);
      }
      if a[0] == b[0] {
        forall i: nat ensures LessAt(s, t, i) <==> LessAt(a, b, i + 1) {
          LessAtNext(a, b, i);
        }
      }
      if i: nat :| LessAt(a, b, i) && i > 0 {
        assert a[0] == a[..i][0] == b[..i][0];
        assert LessAt(s, t, i - 1);
      }
    }
  }

  lemma LessAtNext(a: string, b: string, i: nat)
    requires |a| > 0 && |b| > 0 && a[0] == b[0]
    ensures LessAt(a[1..], b[1..], i) <==> LessAt(a, b, i + 1)
  {
    if i + 1 <= |a| && i + 1 < |b| {
      assert a[..i + 1] == [a[0]] + a[1..][..i] && b[..i + 1] == [b[0]] + b[1..][..i];
      assert a[1..][..i] == a[..i + 1][1..] && b[1..][..i] == b[..i + 1][1..];
    }
  }

  lemma {:induction false} StrLessTotal(a: string, b: string)
    ensures a == b || StrLess(a, b) || StrLess(b, a)
  {
    if |a| > 0 && |b| > 0 && a[0] == b[0] {
      StrLessTotal(a[1..], b[1..]);
      assert a == [a[0]] + a[1..] && b == [b[0]] + b[1..];
    }
  }

  lemma {:induction false} StrLessAsym(a: string, b: string)
    requires StrLess(a, b)
    ensures !StrLess(b, a) && a != b
  {
    if |a| > 0 && a[0] == b[0] {
      StrLessAsym(a[1..], b[1..]);
    }
  }

  lemma {:induction false} StrLessTrans(a: string, b: string, c: string)
    requires StrLess(a, b) && StrLess(b, c)
    ensures StrLess(a, c)
  {
    if |a| > 0 && a[0] == b[0] == c[0] {
      StrLessTrans(a[1..], b[1..], c[1..]);
    }
  }

  /** `less` is a strict weak order, which `sort.Slice` asks of its argument. */
  ghost predicate WeakOrder<T(!new)>(less: (T, T) -> bool) {
    && (forall a, b :: less(a, b) ==> !less(b, a))
    && (forall a, b, c :: !less(a, b) && !less(b, c) ==> !less(a, c))
  }

  lemma StrLessWeakOrder()
    ensures WeakOrder(StrLess)
  {
    forall a, b | StrLess(a, b) ensures !StrLess(b, a) { StrLessAsym(a, b); }
    forall a, b, c | !StrLess(a, b) && !StrLess(b, c) ensures !StrLess(a, c) {
      StrLessTotal(a, b);
      StrLessTotal(b, c);
      if StrLess(c, b) && StrLess(b, a) { StrLessTrans(c, b, a); }
      if StrLess(a, c) { StrLessAsym(a, c); }
    }
  }

  ghost predicate Ordered<T>(less: (T, T) -> bool, s: seq<T>) {
    forall i, j | 0 <= i < j < |s| :: !less(s[j], s[i])
  }

  /** Different elements of `s` are never equivalent: the key of the sort tells them apart. */
  ghost predicate Distinguishes<T>(less: (T, T) -> bool, s: seq<T>) {
    forall x, y | x in s && y in s && x != y :: less(x, y) || less(y, x)
  }

  function Insert<T>(less: (T, T) -> bool, x: T, s: seq<T>): (r: seq<T>)
    ensures multiset(r) == multiset(s) + multiset{x}
  {
    if s == [] || !less(s[0], x) then [x] + s
    else
      assert s == [s[0]] + s[1..];
      [s[0]] + Insert(less, x, s[1..])
  }

  function Sort<T>(less: (T, T) -> bool, s: seq<T>): (r: seq<T>)
    ensures multiset(r) == multiset(s) && |r| == |s|
  {
    if s == [] then []
    else
      assert s == [s[0]] + s[1..];
      var r := Insert(less, s[0], Sort(less, s[1..]));
      assert |r| == |multiset(r)| && |s| == |multiset(s)|;
      r
  }

  lemma {:induction false} InsertOrdered<T(!new)>(less: (T, T) -> bool, x: T, s: seq<T>)
    requires WeakOrder(less) && Ordered(less, s)
    ensures Ordered(less, Insert(less, x, s))
  {
    if s != [] && less(s[0], x) {
      InsertOrdered(less, x, s[1..]);
      var r := Insert(less, x, s[1..]);
      forall y | y in r ensures !less(y, s[0]) {
        assert y in multiset(r);
        assert y == x || y in s[1..];
      }
    }
  }

  lemma {:induction false} SortOrdered<T(!new)>(less: (T, T) -> bool, s: seq<T>)
    requires WeakOrder(less)
    ensures Ordered(less, Sort(less, s))
  {
    if s != [] {
      SortOrdered(less, s[1..]);
      InsertOrdered(less, s[0], Sort(less, s[1..]));
    }
  }

  lemma SameElements<T>(a: seq<T>, b: seq<T>)
    requires multiset(a) == multiset(b)
    ensures |a| == |b| && forall x :: x in a <==> x in b
  {
    assert |a| == |multiset(a)| && |b| == |multiset(b)|;
    forall x ensures x in a <==> x in b {
      assert x in a <==> x in multiset(a);
      assert x in b <==> x in multiset(b);
    }
  }

  lemma OrderedHeads<T>(less: (T, T) -> bool, a: seq<T>, b: seq<T>)
    requires a != [] && b != [] && a[0] in b && b[0] in a
    requires Distinguishes(less, a)
    requires Ordered(less, a) && Ordered(less, b)
    ensures a[0] == b[0]
  {
    var i :| 0 <= i < |a| && a[i] == b[0];
    var j :| 0 <= j < |b| && b[j] == a[0];
    assert i > 0 ==> !less(a[i], a[0]);
    assert j > 0 ==> !less(b[j], b[0]);
  }

  lemma SameTails<T>(a: seq<T>, b: seq<T>)
    requires a != [] && b != [] && a[0] == b[0] && multiset(a) == multiset(b)
    ensures multiset(a[1..]) == multiset(b[1..])
  {
    assert a == [a[0]] + a[1..] && b == [b[0]] + b[1..];
    assert multiset(a[1..]) == multiset(a) - multiset{a[0]};
  }

  /** When the key tells the elements apart, the sorted permutation is unique. */
  lemma {:induction false} OrderedUnique<T>(less: (T, T) -> bool, a: seq<T>, b: seq<T>)
    requires multiset(a) == multiset(b)
    requires Distinguishes(less, a)
    requires Ordered(less, a) && Ordered(less, b)
    ensures a == b
  {
    SameElements(a, b);
    if a != [] {
      OrderedHeads(less, a, b);
      SameTails(a, b);
      OrderedUnique(less, a[1..], b[1..]);
      assert a == [a[0]] + a[1..] && b == [b[0]] + b[1..];
    }
  }

  /** Any ordered permutation of distinguishable elements is what `Sort` returns. */
  lemma SortIs<T(!new)>(less: (T, T) -> bool, s: seq<T>, r: seq<T>)
    requires WeakOrder(less) && Distinguishes(less, s)
    requires Ordered(less, r) && multiset(r) == multiset(s)
    ensures r == Sort(less, s)
  {
    SortOrdered(less, s);
    SameElements(s, Sort(less, s));
    OrderedUnique(less, Sort(less, s), r);
  }

  ghost predicate NoDup<T>(s: seq<T>) {
    forall i, j | 0 <= i < j < |s| :: s[i] != s[j]
  }

  lemma {:induction false} NoDupMultiset<T>(s: seq<T>)
    requires NoDup(s)
    ensures multiset(s) == multiset(set x | x in s)
  {
    if s != [] {
      var t := s[1..];
      NoDupMultiset(t);
      assert s == [s[0]] + t;
      assert (set x | x in s) == {s[0]} + set x | x in t;
    }
  }

  /** The elements of a set in some order: one of the orders in which Go may range over a map. */
  ghost function Enumerate<T(!new)>(s: set<T>): (r: seq<T>)
    ensures NoDup(r) && |r| == |s|
    ensures forall x :: x in r <==> x in s
    ensures multiset(r) == multiset(s)
  {
    if s == {} then []
    else
      var x :| x in s;
      assert s == (s - {x}) + {x};
      [x] + Enumerate(s - {x})
  }

  ghost function SortSet<T(!new)>(less: (T, T) -> bool, s: set<T>): (r: seq<T>)
    ensures forall x :: x in r <==> x in s
    ensures |r| == |s| && multiset(r) == multiset(s)
  {
    var r := Sort(less, Enumerate(s));
    SameElements(r, Enumerate(s));
    r
  }

  /** A sorted listing without repetition of a set is `SortSet`, whatever the order it was listed in. */
  lemma SortSetIs<T(!new)>(less: (T, T) -> bool, s: set<T>, listed: seq<T>, r: seq<T>)
    requires WeakOrder(less)
    requires NoDup(listed) && forall x :: x in listed <==> x in s
    requires Distinguishes(less, listed)
    requires Ordered(less, r) && multiset(r) == multiset(listed)
    ensures r == SortSet(less, s)
  {
    NoDupMultiset(listed);
    assert s == set x | x in listed;
    SortIs(less, Enumerate(s), r);
  }

  lemma {:induction false} LeastOf(s: set<string>) returns (k: string)
    requires s != {}
    ensures k in s && forall x | x in s :: x == k || StrLess(k, x)
  {
    hide StrLess;
    var y :| y in s;
    var t := s - {y};
    assert s == t + {y};
    k := y;
    if t != {} {
      var m := LeastOf(t);
      StrLessTotal(y, m);
      if StrLess(y, m) {
        forall x | x in t ensures StrLess(y, x) {
          if x != m { StrLessTrans(y, m, x); }
        }
      } else {
        k := m;
      }
    }
  }

  lemma LeastExists(s: set<string>)
    requires s != {}
    ensures exists k :: k in s && forall x | x in s :: x == k || StrLess(k, x)
  {
    var k := LeastOf(s);
  }

  function Least(s: set<string>): (k: string)
    requires s != {}
    ensures k in s && forall x | x in s :: x == k || StrLess(k, x)
  {
    LeastExists(s);
    StrLessWeakOrder();
    var k :| k in s && forall x | x in s :: x == k || StrLess(k, x);
    k
  }

  /** `sortedKeys`: the keys of a map of strings. */
  function SortedKeys(s: set<string>): (r: seq<string>)
    ensures forall x :: x in r <==> x in s
    ensures |r| == |s|
  {
    if s == {} then [] else [Least(s)] + SortedKeys(s - {Least(s)})
  }

  lemma PrependOrdered<T>(less: (T, T) -> bool, x: T, s: seq<T>)
    requires Ordered(less, s) && NoDup(s) && forall y | y in s :: !less(y, x) && y != x
    ensures Ordered(less, [x] + s) && NoDup([x] + s)
  {
    var r := [x] + s;
    assert forall i | 0 < i < |r| :: r[i] == s[i - 1] && r[i] in s;
  }

  lemma {:induction false} SortedKeysOrdered(s: set<string>)
    ensures Ordered(StrLess, SortedKeys(s)) && NoDup(SortedKeys(s))
  {
    hide StrLess;
    if s != {} {
      var k := Least(s);
      var r := SortedKeys(s - {k});
      SortedKeysOrdered(s - {k});
      forall x | x in r ensures !StrLess(x, k) && x != k {
        StrLessAsym(k, x);
      }
      PrependOrdered(StrLess, k, r);
    }
  }

  /** Any sorted listing of a set of strings without repetition is `SortedKeys`. */
  lemma SortedKeysIs(s: set<string>, r: seq<string>)
    requires NoDup(r) && Ordered(StrLess, r) && forall x :: x in r <==> x in s
    ensures r == SortedKeys(s)
  {
    hide StrLess;
    SortedKeysOrdered(s);
    NoDupMultiset(r);
    NoDupMultiset(SortedKeys(s));
    assert (set x | x in r) == s && (set x | x in SortedKeys(s)) == s;
    forall x, y | x in r && y in r && x != y ensures StrLess(x, y) || StrLess(y, x) {
      StrLessTotal(x, y);
    }
    OrderedUnique(StrLess, r, SortedKeys(s));
  }
}
