/** The security group lists of launch templates and virtual node groups: what an attach and
    a detach make of them. */
module Groups {
  import opened Ordering
  import opened Records

  /** The answer about a security group: it exists, it is gone, or the call failed. */
  datatype Lookup = Present | Gone | Unknown

  /** Every group can be looked up, whatever the answer. */
  predicate Known(groups: seq<string>, look: string -> Lookup) {
    forall g | g in groups :: !look(g).Unknown?
  }

  /** The other groups of the list that still exist, in order. */
  function Kept(groups: seq<string>, sg: string, look: string -> Lookup): seq<string> {
    if groups == [] then []
    else
      var g := groups[|groups| - 1];
      Kept(groups[..|groups| - 1], sg, look) + if look(g).Present? && g != sg then [g] else []
  }

  /** The list without `sg`, as the detach from a launch template makes it. */
  function Without(groups: seq<string>, sg: string): seq<string> {
    if groups == [] then []
    else
      var g := groups[|groups| - 1];
      Without(groups[..|groups| - 1], sg) + if g != sg then [g] else []
  }

  /** The list without the first `sg`, as the detach from a virtual node group makes it. */
  function RemoveFirst(groups: seq<string>, sg: string): seq<string> {
    if groups == [] then [] else if groups[0] == sg then groups[1..] else [groups[0]] + RemoveFirst(groups[1..], sg)
  }

  /** The list that an attach wants. */
  function Covered(groups: seq<string>, sg: string, look: string -> Lookup): seq<string> {
    Sort(StrLess, Kept(Sort(StrLess, groups), sg, look) + [sg])
  }

  // ---- The loops ----

  /** `sort.Strings`, which sorts the slice of its caller. */
  method SortStrings(a: array<string>)
    modifies a
    ensures a[..] == Sort(StrLess, old(a[..]))
  {
    var r := Sort(StrLess, a[..]);
    var i := 0;
    while i < a.Length
      invariant 0 <= i <= a.Length && a[..i] == r[..i]
    {
      a[i] := r[i];
      i := i + 1;
      assert a[..i] == a[..i - 1] + [r[i - 1]];
    }
    assert a[..i] == a[..] && r[..i] == r;
  }

  /** The part that the attach to a launch template and to a virtual node group share. The
      array is that of the read list: it is sorted even when nothing is written. */
  method Attached(a: array<string>, sg: string, look: string -> Lookup) returns (r: Option<seq<string>>)
    modifies a
    ensures a[..] == Sort(StrLess, old(a[..]))
    ensures r == if Known(old(a[..]), look) then Some(Covered(old(a[..]), sg, look)) else None
  {
    ghost var was := a[..];
    SortStrings(a);
    ghost var sorted := a[..];
    SortedKnown(was, look);
    var ids: seq<string> := [];
    var i := 0;
    hide *;
    KeptNone(sorted[..i], sg, look);
    while i < a.Length
      invariant 0 <= i <= a.Length && a[..] == sorted
      invariant ids == Kept(sorted[..i], sg, look)
      invariant Known(sorted[..i], look)
    {
      assert a[i] == sorted[i];
      KeptNext(sorted, i, sg, look);
      if look(a[i]).Unknown? {
        KnownNext(sorted, i, look);
        return None;
      }
      if look(a[i]).Present? && a[i] != sg {
        ids := ids + [a[i]];
      }
      i := i + 1;
    }
    assert sorted[..i] == sorted;
    CoveredIs(was, sg, look);
    return Some(Sort(StrLess, ids + [sg]));
  }

  lemma SortedKnown(groups: seq<string>, look: string -> Lookup)
    ensures Known(Sort(StrLess, groups), look) <==> Known(groups, look)
  {
    SameElements(groups, Sort(StrLess, groups));
    hide Sort;
  }

  lemma KeptNone(groups: seq<string>, sg: string, look: string -> Lookup)
    requires groups == []
    ensures Kept(groups, sg, look) == [] && Known(groups, look)
  {
  }

  lemma KeptNext(groups: seq<string>, i: nat, sg: string, look: string -> Lookup)
    requires i < |groups|
    ensures Kept(groups[..i + 1], sg, look)
         == Kept(groups[..i], sg, look) + if look(groups[i]).Present? && groups[i] != sg then [groups[i]] else []
    ensures Known(groups[..i + 1], look) <==> Known(groups[..i], look) && !look(groups[i]).Unknown?
    ensures Kept(groups[..i], sg, look) + [] == Kept(groups[..i], sg, look)
  {
    assert groups[..i + 1][..i] == groups[..i];
    assert groups[..i + 1] == groups[..i] + [groups[i]];
    hide Kept;
  }

  lemma KnownNext(groups: seq<string>, i: nat, look: string -> Lookup)
    requires i < |groups| && look(groups[i]).Unknown?
    ensures !Known(groups, look)
  {
  }

  lemma CoveredIs(groups: seq<string>, sg: string, look: string -> Lookup)
    ensures Covered(groups, sg, look) == Sort(StrLess, Kept(Sort(StrLess, groups), sg, look) + [sg])
  {
  }

  method Detached(groups: seq<string>, sg: string) returns (r: seq<string>)
    ensures r == Without(groups, sg)
  {
    r := [];
    var i := 0;
    while i < |groups|
      invariant 0 <= i <= |groups| && r == Without(groups[..i], sg)
    {
      assert groups[..i + 1][..i] == groups[..i];
      if groups[i] != sg {
        r := r + [groups[i]];
      }
      i := i + 1;
    }
    assert groups[..i] == groups;
  }

  lemma {:induction false} RemoveFirstAt(groups: seq<string>, sg: string, i: nat)
    requires i < |groups| && groups[i] == sg && sg !in groups[..i]
    ensures RemoveFirst(groups, sg) == groups[..i] + groups[i + 1..]
  {
    if i > 0 {
      assert groups[..i][0] == groups[0];
      assert groups[1..][..i - 1] == groups[..i][1..];
      RemoveFirstAt(groups[1..], sg, i - 1);
      assert groups[1..][i..] == groups[i + 1..];
      assert groups[..i] == [groups[0]] + groups[1..][..i - 1];
    }
  }

  /** `append(s[:i], s[i+1:]...)`: the elements after the first `sg` move down in the array. */
  method RemoveFirstIn(a: array<string>, sg: string) returns (kept: nat)
    requires sg in a[..]
    modifies a
    ensures kept == a.Length - 1 && a[..kept] == RemoveFirst(old(a[..]), sg)
  {
    ghost var was := a[..];
    var at := 0;
    while a[at] != sg
      invariant 0 <= at < a.Length && sg !in was[..at] && sg in was[at..]
      decreases a.Length - at
    {
      at := at + 1;
    }
    RemoveFirstAt(was, sg, at);
    kept := a.Length - 1;
    hide RemoveFirst;
    var i := at;
    while i < kept
      invariant at <= i <= kept
      invariant forall j | 0 <= j < at :: a[j] == was[j]
      invariant forall j | at <= j < i :: a[j] == was[j + 1]
      invariant forall j | i <= j < a.Length :: a[j] == was[j]
    {
      a[i] := a[i + 1];
      i := i + 1;
    }
    ShiftedIs(a[..], was, at);
  }

  lemma ShiftedIs(now: seq<string>, was: seq<string>, at: nat)
    requires |now| == |was| && at < |was| && forall j | 0 <= j < at :: now[j] == was[j]
    requires forall j | at <= j < |was| - 1 :: now[j] == was[j + 1]
    ensures now[..|was| - 1] == was[..at] + was[at + 1..]
  {
  }

  /** `isSGAttached`. */
  method IsAttached(groups: seq<string>, sg: string) returns (yes: bool)
    ensures yes <==> sg in groups
  {
    for i := 0 to |groups|
      invariant sg !in groups[..i]
    {
      if groups[i] == sg {
        return true;
      }
    }
    return false;
  }

  // ---- What the lists are ----

  lemma {:induction false} KeptCount(groups: seq<string>, sg: string, look: string -> Lookup, g: string)
    ensures multiset(Kept(groups, sg, look))[g] == if look(g).Present? && g != sg then multiset(groups)[g] else 0
  {
    if groups != [] {
      var p, x := groups[..|groups| - 1], groups[|groups| - 1];
      assert groups == p + [x];
      KeptCount(p, sg, look, g);
    }
  }

  lemma {:induction false} WithoutCount(groups: seq<string>, sg: string, g: string)
    ensures multiset(Without(groups, sg))[g] == if g != sg then multiset(groups)[g] else 0
  {
    if groups != [] {
      var p, x := groups[..|groups| - 1], groups[|groups| - 1];
      assert groups == p + [x];
      WithoutCount(p, sg, g);
    }
  }

  lemma {:induction false} RemoveFirstCount(groups: seq<string>, sg: string, g: string)
    ensures multiset(RemoveFirst(groups, sg))[g] ==
      if g == sg && sg in groups then multiset(groups)[g] - 1 else multiset(groups)[g]
  {
    if groups != [] {
      var t := groups[1..];
      assert groups == [groups[0]] + t;
      RemoveFirstCount(t, sg, g);
    }
  }

  /** `r` is sorted and holds `sg` once and the other existing groups as often as `groups` does. */
  ghost predicate NormalForm(r: seq<string>, groups: seq<string>, sg: string, look: string -> Lookup) {
    && Ordered(StrLess, r)
    && forall g :: multiset(r)[g] == if g == sg then 1 else if look(g).Present? then multiset(groups)[g] else 0
  }

  lemma StringsUnique(a: seq<string>, b: seq<string>)
    requires Ordered(StrLess, a) && Ordered(StrLess, b) && multiset(a) == multiset(b)
    ensures a == b
  {
    hide StrLess;
    forall x, y | x in a && y in a && x != y ensures StrLess(x, y) || StrLess(y, x) {
      StrLessTotal(x, y);
    }
    OrderedUnique(StrLess, a, b);
  }

  lemma SortStringsOrdered(s: seq<string>)
    ensures Ordered(StrLess, Sort(StrLess, s))
  {
    StrLessWeakOrder();
    SortOrdered(StrLess, s);
  }

  /** The attach makes the one list in normal form. */
  lemma AttachNormalForm(groups: seq<string>, sg: string, look: string -> Lookup, r: seq<string>)
    ensures r == Covered(groups, sg, look) <==> NormalForm(r, groups, sg, look)
  {
    hide StrLess;
    var c := Covered(groups, sg, look);
    var kept := Kept(Sort(StrLess, groups), sg, look);
    SortStringsOrdered(kept + [sg]);
    assert multiset(c) == multiset(kept) + multiset{sg};
    forall g ensures multiset(c)[g] == if g == sg then 1 else if look(g).Present? then multiset(groups)[g] else 0 {
      KeptCount(Sort(StrLess, groups), sg, look, g);
    }
    assert NormalForm(c, groups, sg, look);
    if NormalForm(r, groups, sg, look) {
      assert multiset(r) == multiset(c);
      StringsUnique(r, c);
    }
  }

  /** Nothing is written exactly when the list holds the group once and all others still exist. */
  lemma NoWrite(groups: seq<string>, sg: string, look: string -> Lookup)
    ensures Covered(groups, sg, look) == Sort(StrLess, groups)
      <==> multiset(groups)[sg] == 1 && forall g | g in groups && g != sg :: look(g).Present?
  {
    hide StrLess;
    var s := Sort(StrLess, groups);
    AttachNormalForm(groups, sg, look, s);
    SortStringsOrdered(groups);
    assert forall g :: g in groups <==> multiset(groups)[g] > 0;
    hide Sort, Covered;
    if NormalForm(s, groups, sg, look) {
      forall g | g in groups && g != sg ensures look(g).Present? {
        assert multiset(s)[g] == multiset(groups)[g];
      }
      assert multiset(s)[sg] == 1;
    }
  }

  lemma SortedStays(r: seq<string>)
    requires Ordered(StrLess, r)
    ensures Sort(StrLess, r) == r
  {
    hide StrLess, Sort;
    SortStringsOrdered(r);
    StringsUnique(r, Sort(StrLess, r));
  }

  lemma NormalAgain(r: seq<string>, groups: seq<string>, sg: string, look: string -> Lookup)
    requires NormalForm(r, groups, sg, look)
    ensures NormalForm(r, r, sg, look)
  {
    hide StrLess;
  }

  /** A second attach of the group writes nothing. */
  lemma SecondAttach(groups: seq<string>, sg: string, look: string -> Lookup)
    ensures var r := Covered(groups, sg, look); Sort(StrLess, r) == r && Covered(r, sg, look) == r
  {
    var r := Covered(groups, sg, look);
    AttachNormalForm(groups, sg, look, r);
    NormalAgain(r, groups, sg, look);
    AttachNormalForm(r, sg, look, r);
    SortedStays(r);
    hide *;
  }

  lemma AgreeOnce(groups: seq<string>, sg: string)
    requires multiset(groups)[sg] == 1
    ensures RemoveFirst(groups, sg) == Without(groups, sg)
  {
    var i :| 0 <= i < |groups| && groups[i] == sg;
    var a, b := groups[..i], groups[i + 1..];
    assert groups == a + [sg] + b;
    assert multiset(groups) == multiset(a) + multiset{sg} + multiset(b);
    hide RemoveFirst, Without;
    assert sg !in a && sg !in b by {
      assert sg in a <==> multiset(a)[sg] > 0;
      assert sg in b <==> multiset(b)[sg] > 0;
    }
    RemoveFirstAt(groups, sg, i);
    WithoutOnce(a, b, sg);
  }

  /** Both detaches agree exactly when the list holds the group at most once. */
  lemma DetachesAgree(groups: seq<string>, sg: string)
    ensures RemoveFirst(groups, sg) == Without(groups, sg) <==> multiset(groups)[sg] <= 1
  {
    RemoveFirstCount(groups, sg, sg);
    WithoutCount(groups, sg, sg);
    hide RemoveFirst, Without;
    assert sg in groups <==> multiset(groups)[sg] > 0;
    if multiset(groups)[sg] == 0 {
      WithoutNone(groups, sg);
      RemoveNone(groups, sg);
    } else if multiset(groups)[sg] == 1 {
      AgreeOnce(groups, sg);
    }
  }

  lemma {:induction false} WithoutNone(groups: seq<string>, sg: string)
    requires sg !in groups
    ensures Without(groups, sg) == groups
  {
    if groups != [] {
      WithoutNone(groups[..|groups| - 1], sg);
    }
  }

  lemma {:induction false} RemoveNone(groups: seq<string>, sg: string)
    requires sg !in groups
    ensures RemoveFirst(groups, sg) == groups
  {
    if groups != [] {
      RemoveNone(groups[1..], sg);
    }
  }

  lemma {:induction false} WithoutOnce(a: seq<string>, b: seq<string>, sg: string)
    requires sg !in a && sg !in b
    ensures Without(a + [sg] + b, sg) == a + b
  {
    var s := a + [sg] + b;
    if b == [] {
      assert s[..|s| - 1] == a;
      WithoutNone(a, sg);
      assert a + b == a;
    } else {
      var n := |b| - 1;
      assert s[..|s| - 1] == a + [sg] + b[..n];
      WithoutOnce(a, b[..n], sg);
      assert b == b[..n] + [b[n]];
    }
  }

  /** Detach after attach, by either detach, leaves exactly the other existing groups. */
  lemma DetachAfterAttach(groups: seq<string>, sg: string, look: string -> Lookup)
    ensures var r := Covered(groups, sg, look);
      && RemoveFirst(r, sg) == Without(r, sg)
      && multiset(Without(r, sg)) == multiset(Kept(groups, sg, look))
  {
    var r := Covered(groups, sg, look);
    AttachNormalForm(groups, sg, look, r);
    DetachesAgree(r, sg);
    forall g ensures multiset(Without(r, sg))[g] == multiset(Kept(groups, sg, look))[g] {
      WithoutCount(r, sg, g);
      KeptCount(groups, sg, look, g);
    }
  }
}
