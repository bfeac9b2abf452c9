/** What a changed object is printed as and how the summary counts it, by the flags of its writes and
    the fields of their objects alone: labels and groups of changes are not mentioned. */
module Symbols {
  import opened Ordering
  import opened Json
  import opened Normalize
  import opened Records
  import opened Description
  import opened Report
  import opened Writer

  /** Some source's write changes the object. */
  ghost predicate Touched(ws: Writes) {
    exists src :: src in ws && Touches(ws[src])
  }

  /** Some source's write changes more of it than the order of lists. */
  ghost predicate Altered(ws: Writes) {
    exists src :: src in ws && Alters(ws[src])
  }

  /** Some source's write removes it. */
  ghost predicate Removed(ws: Writes) {
    exists src :: src in ws && Removes(ws[src])
  }

  /** No source's write removes it, and the first source that alters it creates it. */
  ghost predicate Made(ws: Writes) {
    !Removed(ws) && exists src :: src in ws && FirstAlters(ws, src) && ws[src].created
  }

  ghost predicate FirstAlters(ws: Writes, src: string)
    requires src in ws
  {
    Alters(ws[src]) && forall other | other in ws && Alters(ws[other]) :: !StrLess(other, src)
  }

  // ---- One object ----

  lemma TouchedIs(p: Printer, ws: Writes)
    ensures Changed(p, ws) <==> Touched(ws)
  {
    forall src | src in ws ensures Touches(ws[src]) <==> Describe(p, ws[src]).Some? {
      Labels(p, ws[src]);
    }
    hide Touches, Describe;
  }

  lemma Tags(p: Printer, ws: Writes)
    ensures Removed(ws) <==> SomeTag(p, ws, Deletes) || SomeTag(p, ws, Releases)
    ensures Altered(ws) <==> !(forall tag | SomeTag(p, ws, tag) :: tag == OrderOnly)
  {
    forall src | src in ws
      ensures Removes(ws[src]) <==> Labeled(p, ws[src], Deletes) || Labeled(p, ws[src], Releases)
      ensures Alters(ws[src]) <==> Describe(p, ws[src]).Some? && Describe(p, ws[src]).value.tag != OrderOnly
    {
      Labels(p, ws[src]);
    }
    hide Removes, Alters, Describe;
    if src :| src in ws && Alters(ws[src]) {
      assert SomeTag(p, ws, Describe(p, ws[src]).value.tag);
    }
  }

  ghost predicate Real(g: Group) {
    g.change.tag != OrderOnly
  }

  /** The first real change comes from the first source among those of the real changes. */
  lemma {:induction false} FirstRealAmong(list: seq<Group>) returns (g: Group)
    requires Ordered(GroupLess, list) && exists x :: x in list && Real(x)
    ensures g in list && Real(g) && FirstReal(list) == g.change.tag
    ensures forall x | x in list && Real(x) :: !GroupLess(x, g)
  {
    assert list == [list[0]] + list[1..];
    hide GroupLess;
    if Real(list[0]) {
      g := list[0];
      forall x | x in list && Real(x) ensures !GroupLess(x, g) {
        assert !GroupLess(list[0], list[0]) by { NotBeforeItself(list[0]); }
      }
    } else {
      g := FirstRealAmong(list[1..]);
    }
  }

  lemma NotBeforeItself(g: Group)
    ensures !GroupLess(g, g)
  {
    StrLessIrreflexive(First(g));
  }

  lemma ListOrdered(p: Printer, ws: Writes)
    ensures Ordered(GroupLess, ListOf(p, ws))
  {
    GroupLessWeakOrder();
    SortOrdered(GroupLess, Enumerate(GroupsOf(p, ws)));
  }

  lemma AltersIs(p: Printer, w: Write)
    ensures Alters(w) <==> Describe(p, w).Some? && Describe(p, w).value.tag != OrderOnly
    ensures Labeled(p, w, Creates) <==> w.created && !FirstDelete(w)
    ensures FirstDelete(w) ==> Removes(w)
  {
    Labels(p, w);
  }

  /** The group of an altering write comes from no later source. */
  lemma GroupBefore(p: Printer, ws: Writes, src: string) returns (g: Group)
    requires src in ws && Alters(ws[src])
    ensures g in ListOf(p, ws) && Real(g) && !StrLess(src, First(g))
  {
    AltersIs(p, ws[src]);
    hide Describe, Alters;
    var c := Describe(p, ws[src]).value;
    g := GroupOf(p, ws, c);
    assert c in ChangesOf(p, ws);
    assert src in MakersOf(p, ws, c);
    assert g in GroupsOf(p, ws);
    hide ChangesOf, GroupsOf, StrLess;
    LeastFirst(MakersOf(p, ws, c), src);
  }

  lemma LeastFirst(names: set<string>, name: string)
    requires name in names
    ensures SortedKeys(names) != [] && !StrLess(name, SortedKeys(names)[0])
  {
    SortedKeysOrdered(names);
    hide StrLess;
    var r := SortedKeys(names);
    var i :| 0 <= i < |r| && r[i] == name;
    if i == 0 {
      StrLessIrreflexive(name);
    }
  }

  lemma StrLessIrreflexive(s: string)
    ensures !StrLess(s, s)
  {
    if StrLess(s, s) {
      StrLessAsym(s, s);
    }
  }

  /** The label of an altered object that nothing removes is that of its first altering source. */
  lemma LeadingLabel(p: Printer, ws: Writes) returns (src: string)
    requires Altered(ws)
    ensures src in ws && FirstAlters(ws, src)
    ensures Describe(p, ws[src]).Some? && FirstReal(ListOf(p, ws)) == Describe(p, ws[src]).value.tag
  {
    var list := ListOf(p, ws);
    ListOrdered(p, ws);
    var some :| some in ws && Alters(ws[some]);
    var x := GroupBefore(p, ws, some);
    var g := FirstRealAmong(list);
    assert g in GroupsOf(p, ws);
    FirstMakes(p, ws, g);
    src := First(g);
    AltersIs(p, ws[src]);
    hide Describe, Alters, StrLess, ListOf, FirstReal;
    forall other | other in ws && Alters(ws[other]) ensures !StrLess(other, src) {
      var y := GroupBefore(p, ws, other);
      assert !GroupLess(y, g);
      NotBefore(First(g), First(y), other);
    }
  }

  lemma NotBefore(a: string, b: string, c: string)
    requires !StrLess(b, a) && !StrLess(c, b)
    ensures !StrLess(c, a)
  {
    StrLessWeakOrder();
    hide StrLess;
  }

  lemma OneFirst(ws: Writes, a: string, b: string)
    requires a in ws && b in ws && FirstAlters(ws, a) && FirstAlters(ws, b)
    ensures a == b
  {
    hide StrLess, Alters;
    if a != b {
      StrLessTotal(a, b);
    }
  }

  /** The symbol of a changed object: '-' if and only if some write removes it, '+' if and only if none does
      and the first source that alters it creates it, and '~' otherwise. */
  lemma SymbolOf(p: Printer, ws: Writes)
    requires Touched(ws)
    ensures Symbol(TagOf(ListOf(p, ws))) == if Removed(ws) then '-' else if Made(ws) then '+' else '~'
    ensures TagOf(ListOf(p, ws)) == OrderOnly <==> !Altered(ws)
  {
    ObjectLabel(p, ws);
    Tags(p, ws);
    var list := ListOf(p, ws);
    LastDeleteMeaning(list, FirstReal(list));
    hide SomeTag, ListOf, LastDelete;
    SymbolMeaning(TagOf(list));
    if !Removed(ws) {
      if Altered(ws) {
        NotRemoved(p, ws);
      } else {
        MadeAlters(ws);
      }
    }
    hide Symbol, LabelText, FirstReal, Removed, Altered;
  }

  lemma MadeAlters(ws: Writes)
    ensures Made(ws) ==> Altered(ws)
  {
    hide Alters;
  }

  lemma NotRemoved(p: Printer, ws: Writes)
    requires Altered(ws) && !Removed(ws)
    ensures FirstReal(ListOf(p, ws)) == Creates <==> Made(ws)
  {
    var src := LeadingLabel(p, ws);
    AltersIs(p, ws[src]);
    hide Describe, Alters, FirstAlters, ListOf, Removes;
    if other :| other in ws && FirstAlters(ws, other) && ws[other].created {
      OneFirst(ws, src, other);
    }
  }

  // ---- The summary ----

  ghost function RemovedOf(objects: Objects): set<ObjectKey> {
    set key | key in objects && Removed(objects[key])
  }

  ghost function MadeOf(objects: Objects): set<ObjectKey> {
    set key | key in objects && Made(objects[key])
  }

  /** The other objects that change. */
  ghost function UpdatedOf(objects: Objects): set<ObjectKey> {
    set key | key in objects && Touched(objects[key]) && !Removed(objects[key]) && !Made(objects[key])
  }

  ghost function OnlyReorderedOf(objects: Objects): set<ObjectKey> {
    set key | key in objects && Touched(objects[key]) && !Altered(objects[key])
  }

  ghost function EndedIn(results: map<string, Result>, status: Status): set<string> {
    set name | name in results && results[name].status == status
  }

  lemma TouchesMore(ws: Writes)
    ensures Removed(ws) || Made(ws) ==> Touched(ws)
  {
    hide Describe;
    forall src | src in ws ensures Removes(ws[src]) || Alters(ws[src]) ==> Touches(ws[src]) {
      MoreIsSome(ws[src]);
    }
    hide Removes, Touches, Alters;
  }

  lemma MoreIsSome(w: Write)
    ensures Removes(w) || Alters(w) ==> Touches(w)
  {
    if Same(false, Obj(w.live), Obj(w.desired)) {
      SortedFormOfUnsorted(w.live, w.desired);
    }
    hide Same;
  }

  /** What the summary counts. */
  lemma SummaryCounts(p: Printer, s: State)
    ensures var sum := SummaryOf(p, s);
      && sum.create == |MadeOf(s.objects)| && sum.delete == |RemovedOf(s.objects)|
      && sum.update == |UpdatedOf(s.objects)| && sum.reorder == |OnlyReorderedOf(s.objects)|
      && sum.cloud == |s.cloud|
      && sum.ok == |EndedIn(s.results, OK)| && sum.skipped == |EndedIn(s.results, Skipped)|
      && sum.pending == |EndedIn(s.results, Pending)| && sum.errors == |EndedIn(s.results, Failed)|
  {
    var objects := s.objects;
    forall key
      ensures key in WithSymbol(p, objects, objects.Keys, '+') <==> key in MadeOf(objects)
      ensures key in WithSymbol(p, objects, objects.Keys, '-') <==> key in RemovedOf(objects)
      ensures key in WithSymbol(p, objects, objects.Keys, '~') <==> key in UpdatedOf(objects)
      ensures key in Reordered(p, objects, objects.Keys) <==> key in OnlyReorderedOf(objects)
    {
      if key in objects {
        Agreement(p, objects[key]);
      }
      SymbolSets(p, objects, key);
    }
    hide WithSymbol, Reordered, MadeOf, RemovedOf, UpdatedOf, OnlyReorderedOf;
    assert WithSymbol(p, objects, objects.Keys, '+') == MadeOf(objects);
    assert WithSymbol(p, objects, objects.Keys, '-') == RemovedOf(objects);
    assert WithSymbol(p, objects, objects.Keys, '~') == UpdatedOf(objects);
    assert Reordered(p, objects, objects.Keys) == OnlyReorderedOf(objects);
    StatusSets(s.results);
  }

  ghost function SymbolFor(ws: Writes): char {
    if Removed(ws) then '-' else if Made(ws) then '+' else '~'
  }

  /** The symbol that the writes give an object is that of its label. */
  ghost predicate Agrees(p: Printer, ws: Writes) {
    && (Changed(p, ws) <==> Touched(ws))
    && (Removed(ws) || Made(ws) ==> Touched(ws))
    && (Touched(ws) ==> LabelAgrees(ws, TagOf(ListOf(p, ws))))
  }

  ghost predicate LabelAgrees(ws: Writes, tag: Label) {
    Symbol(tag) == SymbolFor(ws) && (tag == OrderOnly <==> !Altered(ws))
  }

  lemma Agreement(p: Printer, ws: Writes)
    ensures Agrees(p, ws)
  {
    TouchedIs(p, ws);
    TouchesMore(ws);
    if Touched(ws) {
      SymbolOf(p, ws);
    }
    hide Touched, Changed, Removed, Made, Altered, TagOf, Symbol, ListOf;
  }

  lemma SymbolSets(p: Printer, objects: Objects, key: ObjectKey)
    requires key in objects ==> Agrees(p, objects[key])
    ensures key in WithSymbol(p, objects, objects.Keys, '+') <==> key in MadeOf(objects)
    ensures key in WithSymbol(p, objects, objects.Keys, '-') <==> key in RemovedOf(objects)
    ensures key in WithSymbol(p, objects, objects.Keys, '~') <==> key in UpdatedOf(objects)
    ensures key in Reordered(p, objects, objects.Keys) <==> key in OnlyReorderedOf(objects)
  {
    if key in objects && Made(objects[key]) {
      assert !Removed(objects[key]);
    }
    hide Touched, Changed, Removed, Made, Altered, TagOf, Symbol, ListOf;
  }

  lemma StatusSets(results: map<string, Result>)
    ensures forall status :: WithStatus(results, results.Keys, status) == EndedIn(results, status)
  {
    forall status ensures WithStatus(results, results.Keys, status) == EndedIn(results, status) {
    }
  }
}
