/** The loops of `Write`. They range over maps by picking any remaining key, as Go does, and
    still compute the functions of `Report`. */
module Writer {
  import opened Ordering
  import opened Records
  import opened Description
  import opened Report

  /** `sort.Slice`: some ordered permutation. Callers know nothing else about it. */
  method SortSlice<T(!new)>(less: (T, T) -> bool, s: seq<T>) returns (r: seq<T>)
    requires WeakOrder(less)
    ensures multiset(r) == multiset(s) && Ordered(less, r)
  {
    SortOrdered(less, s);
    r := Sort(less, s);
  }

  // ---- The changes of one object ----

  /** `changes` groups the writes of the sources `done`, by the ids of their changes. */
  ghost predicate Grouped(p: Printer, ws: Writes, done: set<string>, changes: map<string, Group>) {
    && (forall id | id in changes :: GroupedAt(p, ws, done, id, changes[id]))
    && (forall src | src in done && src in ws && Describe(p, ws[src]).Some? ::
      ChangeId(Describe(p, ws[src]).value) in changes)
  }

  ghost predicate GroupedAt(p: Printer, ws: Writes, done: set<string>, id: string, g: Group) {
    && ChangeId(g.change) == id && NoDup(g.sources) && g.sources != []
    && forall src :: src in g.sources <==> src in done && Makes(p, ws, src, g.change)
  }

  lemma GroupedPrintable(p: Printer, ws: Writes, done: set<string>, id: string, g: Group)
    requires GroupedAt(p, ws, done, id, g)
    ensures Printable(g.change)
  {
    assert g.sources[0] in g.sources;
    DescribePrintable(p, ws[g.sources[0]]);
  }

  function AddTo(changes: map<string, Group>, c: Change, src: string): map<string, Group> {
    var id := ChangeId(c);
    var g := if id in changes then changes[id] else Group(c, []);
    changes[id := g.(sources := g.sources + [src])]
  }

  lemma GroupedAdd(p: Printer, ws: Writes, done: set<string>, changes: map<string, Group>, c: Change, src: string)
    requires Grouped(p, ws, done, changes) && src !in done && Makes(p, ws, src, c)
    ensures Grouped(p, ws, done + {src}, AddTo(changes, c, src))
  {
    var id, next := ChangeId(c), AddTo(changes, c, src);
    DescribePrintable(p, ws[src]);
    forall i | i in next ensures GroupedAt(p, ws, done + {src}, i, next[i]) {
      if i in changes {
        assert GroupedAt(p, ws, done, i, changes[i]);
        GroupedPrintable(p, ws, done, i, changes[i]);
        if i == id { ChangeIdInjective(changes[i].change, c); }
      } else {
        assert next[i] == Group(c, [src]);
        assert forall s | s in done && s in ws && Describe(p, ws[s]).Some? :: ChangeId(Describe(p, ws[s]).value) != id;
      }
    }
  }

  lemma GroupedSkip(p: Printer, ws: Writes, done: set<string>, changes: map<string, Group>, src: string)
    requires Grouped(p, ws, done, changes) && src in ws && Describe(p, ws[src]).None?
    ensures Grouped(p, ws, done + {src}, changes)
  {
    forall id | id in changes ensures GroupedAt(p, ws, done + {src}, id, changes[id]) {
      assert GroupedAt(p, ws, done, id, changes[id]);
    }
  }

  function DescribedClusters(p: Printer, ws: Writes, done: set<string>): set<string> {
    set src, cl | src in ws && src in done && Describe(p, ws[src]).Some? && cl in ws[src].source.clusters :: cl
  }

  lemma GroupedNone(p: Printer, ws: Writes)
    ensures Grouped(p, ws, {}, map[]) && DescribedClusters(p, ws, {}) == {}
  {
  }

  lemma AllClusters(p: Printer, ws: Writes)
    ensures DescribedClusters(p, ws, ws.Keys) == ClustersOf(p, ws)
  {
  }

  lemma ClustersAdd(p: Printer, ws: Writes, done: set<string>, src: string)
    requires src in ws
    ensures DescribedClusters(p, ws, done + {src}) ==
      DescribedClusters(p, ws, done)
      + if Describe(p, ws[src]).Some? then (set cl | cl in ws[src].source.clusters) else {}
  {
    hide Describe;
  }

  lemma GroupedNext(p: Printer, ws: Writes, done: set<string>, changes: map<string, Group>, src: string)
    requires KeyedWrites(ws) && Grouped(p, ws, done, changes) && src in ws && src !in done
    ensures ws[src].source.String() == src
    ensures var c := Describe(p, ws[src]);
      Grouped(p, ws, done + {src}, if c.Some? then AddTo(changes, c.value, src) else changes)
  {
    var c := Describe(p, ws[src]);
    if c.Some? {
      GroupedAdd(p, ws, done, changes, c.value, src);
    } else {
      GroupedSkip(p, ws, done, changes, src);
    }
    hide Grouped, AddTo, Describe;
  }

  /** The first loop over the writes to an object. */
  method GroupWrites(p: Printer, ws: Writes) returns (changes: map<string, Group>, clusters: set<string>)
    requires KeyedWrites(ws)
    ensures Grouped(p, ws, ws.Keys, changes)
    ensures clusters == ClustersOf(p, ws)
  {
    hide *;
    changes, clusters := map[], {};
    var todo := ws.Keys;
    ghost var done: set<string> := {};
    GroupedNone(p, ws);
    while todo != {}
      invariant todo + done == ws.Keys && todo !! done
      invariant Grouped(p, ws, done, changes)
      invariant clusters == DescribedClusters(p, ws, done)
      decreases |todo|
    {
      var src :| src in todo;
      todo := todo - {src};
      var w := ws[src];
      var c := Describe(p, w);
      GroupedNext(p, ws, done, changes, src);
      if c.Some? {
        changes := AddTo(changes, c.value, w.source.String());
        clusters := clusters + set cl | cl in w.source.clusters;
      }
      ClustersAdd(p, ws, done, src);
      done := done + {src};
    }
    assert done == ws.Keys;
    AllClusters(p, ws);
  }

  lemma GroupLessWeakOrder()
    ensures WeakOrder(GroupLess)
  {
    StrLessWeakOrder();
    forall a, b, c | !GroupLess(a, b) && !GroupLess(b, c) ensures !GroupLess(a, c) {
      var x, y, z := First(a), First(b), First(c);
      assert !StrLess(x, y) && !StrLess(y, z) ==> !StrLess(x, z);
    }
    hide StrLess;
  }

  /** The groups of an object have different first sources: a source makes one change. */
  lemma GroupsDistinguished(p: Printer, ws: Writes, list: seq<Group>)
    requires forall g | g in list :: g in GroupsOf(p, ws)
    ensures Distinguishes(GroupLess, list)
  {
    forall x, y | x in list && y in list && x != y ensures GroupLess(x, y) || GroupLess(y, x) {
      FirstMakes(p, ws, x);
      FirstMakes(p, ws, y);
      StrLessTotal(First(x), First(y));
    }
  }

  lemma FirstMakes(p: Printer, ws: Writes, g: Group)
    requires g in GroupsOf(p, ws)
    ensures Makes(p, ws, First(g), g.change) && g == GroupOf(p, ws, g.change)
  {
    var c :| c in ChangesOf(p, ws) && g == GroupOf(p, ws, c);
    var src :| src in ws && Describe(p, ws[src]).Some? && Describe(p, ws[src]).value == c;
    assert src in MakersOf(p, ws, c);
    assert g.sources[0] in g.sources;
  }

  lemma SortedSources(p: Printer, ws: Writes, id: string, g: Group, r: seq<string>)
    requires GroupedAt(p, ws, ws.Keys, id, g)
    requires multiset(r) == multiset(g.sources) && Ordered(StrLess, r)
    ensures r == SortedKeys(MakersOf(p, ws, g.change))
  {
    hide StrLess;
    SameElements(r, g.sources);
    assert NoDup(r) by { PermutedNoDup(g.sources, r); }
    SortedKeysIs(MakersOf(p, ws, g.change), r);
  }

  lemma PermutedNoDup<T>(s: seq<T>, r: seq<T>)
    requires NoDup(s) && multiset(r) == multiset(s)
    ensures NoDup(r)
  {
    NoDupMultiset(s);
    forall i, j | 0 <= i < j < |r| ensures r[i] != r[j] {
      assert r == r[..i] + [r[i]] + r[i + 1..j] + [r[j]] + r[j + 1..];
      assert multiset(r)[r[i]] <= 1;
    }
  }

  ghost predicate ListedFor(p: Printer, ws: Writes, changes: map<string, Group>, done: set<string>, list: seq<Group>) {
    && NoDup(list)
    && (forall g | g in list :: exists id :: id in done && id in changes && g == GroupOf(p, ws, changes[id].change))
    && (forall id | id in done && id in changes :: GroupOf(p, ws, changes[id].change) in list)
  }

  lemma ListedAdd(p: Printer, ws: Writes, changes: map<string, Group>, done: set<string>, list: seq<Group>, id: string)
    requires Grouped(p, ws, ws.Keys, changes) && ListedFor(p, ws, changes, done, list) && id in changes && id !in done
    ensures ListedFor(p, ws, changes, done + {id}, list + [GroupOf(p, ws, changes[id].change)])
  {
    var c := changes[id].change;
    var next := list + [GroupOf(p, ws, c)];
    assert GroupedAt(p, ws, ws.Keys, id, changes[id]);
    forall g | g in list ensures g.change != c {
      var i :| i in done && i in changes && g == GroupOf(p, ws, changes[i].change);
      assert GroupedAt(p, ws, ws.Keys, i, changes[i]);
    }
    forall g | g in next
      ensures exists i :: i in done + {id} && i in changes && g == GroupOf(p, ws, changes[i].change)
    {
      if g in list {
        var i :| i in done && i in changes && g == GroupOf(p, ws, changes[i].change);
        assert i in done + {id};
      } else {
        assert id in done + {id} && g == GroupOf(p, ws, changes[id].change);
      }
    }
    assert next[|list|] in next;
  }

  lemma ListedAll(p: Printer, ws: Writes, changes: map<string, Group>, list: seq<Group>)
    requires Grouped(p, ws, ws.Keys, changes) && ListedFor(p, ws, changes, changes.Keys, list)
    ensures forall g :: g in list <==> g in GroupsOf(p, ws)
  {
    forall g | g in list ensures g in GroupsOf(p, ws) {
      var id :| id in changes && g == GroupOf(p, ws, changes[id].change);
      assert GroupedAt(p, ws, ws.Keys, id, changes[id]);
      var src := changes[id].sources[0];
      assert src in changes[id].sources;
      assert Makes(p, ws, src, g.change);
      assert g.change in ChangesOf(p, ws);
    }
    forall g | g in GroupsOf(p, ws) ensures g in list {
      FirstMakes(p, ws, g);
      var src := First(g);
      DescribePrintable(p, ws[src]);
      var id := ChangeId(g.change);
      assert id in changes;
      assert GroupedAt(p, ws, ws.Keys, id, changes[id]);
      GroupedPrintable(p, ws, ws.Keys, id, changes[id]);
      ChangeIdInjective(changes[id].change, g.change);
    }
  }

  lemma ListedNone(p: Printer, ws: Writes, changes: map<string, Group>)
    ensures ListedFor(p, ws, changes, {}, [])
  {
  }

  lemma SortedGroup(p: Printer, ws: Writes, changes: map<string, Group>, id: string, r: seq<string>)
    requires Grouped(p, ws, ws.Keys, changes) && id in changes
    requires multiset(r) == multiset(changes[id].sources) && Ordered(StrLess, r)
    ensures changes[id].(sources := r) == GroupOf(p, ws, changes[id].change)
  {
    assert GroupedAt(p, ws, ws.Keys, id, changes[id]);
    SortedSources(p, ws, id, changes[id], r);
  }

  lemma SortedListing(p: Printer, ws: Writes, changes: map<string, Group>, listed: seq<Group>, r: seq<Group>)
    requires Grouped(p, ws, ws.Keys, changes) && ListedFor(p, ws, changes, changes.Keys, listed)
    requires multiset(r) == multiset(listed) && Ordered(GroupLess, r)
    ensures r == ListOf(p, ws)
  {
    ListedAll(p, ws, changes, listed);
    GroupLessWeakOrder();
    GroupsDistinguished(p, ws, listed);
    hide Grouped, GroupsOf, GroupLess;
    SortSetIs(GroupLess, GroupsOf(p, ws), listed, r);
  }

  /** The second loop: sorts the sources of each change, then the changes by their first sources. */
  method ListChanges(p: Printer, ws: Writes, changes: map<string, Group>) returns (list: seq<Group>)
    requires Grouped(p, ws, ws.Keys, changes)
    ensures list == ListOf(p, ws)
  {
    hide *;
    list := [];
    var todo := changes.Keys;
    ghost var done: set<string> := {};
    StrLessWeakOrder();
    ListedNone(p, ws, changes);
    while todo != {}
      invariant todo + done == changes.Keys && todo !! done
      invariant ListedFor(p, ws, changes, done, list)
      decreases |todo|
    {
      var id :| id in todo;
      todo := todo - {id};
      var g := changes[id];
      var sources := SortSlice(StrLess, g.sources);
      SortedGroup(p, ws, changes, id, sources);
      ListedAdd(p, ws, changes, done, list, id);
      list := list + [g.(sources := sources)];
      done := done + {id};
    }
    assert done == changes.Keys;
    GroupLessWeakOrder();
    ghost var listed := list;
    list := SortSlice(GroupLess, list);
    SortedListing(p, ws, changes, listed, list);
  }

  // ---- The block of one object ----

  lemma FirstRealAppend(list: seq<Group>, i: nat)
    requires i <= |list| && forall j | 0 <= j < i :: list[j].change.tag == OrderOnly
    ensures FirstReal(list) == FirstReal(list[i..])
  {
    if i > 0 {
      FirstRealAppend(list[1..], i - 1);
      assert list[1..][i - 1..] == list[i..];
    }
  }

  lemma LastDeleteSnoc(list: seq<Group>, i: nat, otherwise: Label)
    requires i < |list|
    ensures LastDelete(list[..i + 1], otherwise)
         == if Symbol(list[i].change.tag) == '-' then list[i].change.tag else LastDelete(list[..i], otherwise)
  {
    assert list[..i + 1][..i] == list[..i];
  }

  lemma FirstRealAt(list: seq<Group>, i: nat, tag: Label)
    requires i <= |list|
    requires if i == |list| then tag == OrderOnly else tag != OrderOnly && tag == list[i].change.tag
    ensures FirstReal(list[i..]) == tag
  {
  }

  lemma LastDeleteNone(otherwise: Label)
    ensures LastDelete([], otherwise) == otherwise
  {
  }

  method LabelOf(list: seq<Group>) returns (tag: Label)
    ensures tag == TagOf(list)
  {
    hide FirstReal, LastDelete, Symbol;
    tag := OrderOnly;
    var i := 0;
    while i < |list|
      invariant i <= |list| && tag == OrderOnly
      invariant forall j | 0 <= j < i :: list[j].change.tag == OrderOnly
    {
      if list[i].change.tag != OrderOnly {
        tag := list[i].change.tag;
        break;
      }
      i := i + 1;
    }
    FirstRealAppend(list, i);
    FirstRealAt(list, i, tag);
    ghost var first := tag;
    LastDeleteNone(first);
    assert list[..0] == [];
    i := 0;
    while i < |list|
      invariant i <= |list| && tag == LastDelete(list[..i], first)
    {
      LastDeleteSnoc(list, i, first);
      if Symbol(list[i].change.tag) == '-' {
        tag := list[i].change.tag;
      }
      i := i + 1;
    }
    assert list[..|list|] == list;
  }

  lemma GroupsTextSnoc(list: seq<Group>, i: nat, several: bool)
    requires i < |list|
    ensures GroupsText(list[..i + 1], several) == GroupsText(list[..i], several)
      + (if several then "  # " + LabelText(list[i].change.tag) + " from " + Join(list[i].sources, ", ") + "\n" else "")
      + LinesText(list[i].change.lines)
  {
    assert list[..i + 1][..i] == list[..i];
  }

  lemma LinesTextSnoc(lines: seq<string>, j: nat)
    requires j < |lines|
    ensures LinesText(lines[..j + 1]) == LinesText(lines[..j]) + lines[j] + "\n"
  {
    assert lines[..j + 1][..j] == lines[..j];
  }

  lemma Assoc(a: string, b: string, c: string)
    ensures (a + b) + c == a + (b + c)
  {
  }

  method AppendLines(b: string, lines: seq<string>) returns (r: string)
    ensures r == b + LinesText(lines)
  {
    hide *;
    r := b;
    var j := 0;
    LinesTextNone();
    assert lines[..0] == [] && b + "" == b;
    while j < |lines|
      invariant j <= |lines| && r == b + LinesText(lines[..j])
    {
      LinesTextSnoc(lines, j);
      Assoc(b, LinesText(lines[..j]), lines[j]);
      Assoc(b, LinesText(lines[..j]) + lines[j], "\n");
      r := r + lines[j] + "\n";
      j := j + 1;
    }
    assert lines[..|lines|] == lines;
  }

  lemma LinesTextNone()
    ensures LinesText([]) == ""
  {
  }

  method BlockOf(key: ObjectKey, list: seq<Group>, clusters: set<string>, tag: Label) returns (e: Entry)
    requires tag == TagOf(list)
    ensures e == EntryOf(key, list, clusters)
  {
    var head := [Symbol(tag)] + " " + KeyString(key) + " (" + LabelText(tag) + ")\n";
    var b := AppendGroups(head, list);
    e := Entry(Join(SortedKeys(clusters), ", "), KeyString(key), b);
  }

  method AppendGroups(head: string, list: seq<Group>) returns (b: string)
    ensures b == head + GroupsText(list, |list| > 1)
  {
    hide *;
    var several := |list| > 1;
    b := head;
    var i := 0;
    GroupsTextNone(several);
    assert list[..0] == [] && head + "" == head;
    while i < |list|
      invariant i <= |list| && b == head + GroupsText(list[..i], several)
    {
      var g := list[i];
      GroupsTextSnoc(list, i, several);
      ghost var before := GroupsText(list[..i], several);
      ghost var note :=
        if several then "  # " + LabelText(g.change.tag) + " from " + Join(g.sources, ", ") + "\n" else "";
      if several {
        b := b + ("  # " + LabelText(g.change.tag) + " from " + Join(g.sources, ", ") + "\n");
      }
      assert before + "" == before;
      Assoc(head, before, note);
      Assoc(head, before + note, LinesText(g.change.lines));
      b := AppendLines(b, g.change.lines);
      i := i + 1;
    }
    assert list[..|list|] == list;
  }

  lemma GroupsTextNone(several: bool)
    ensures GroupsText([], several) == ""
  {
  }

  // ---- All objects ----

  /** Writes are kept by the names of their sources. */
  ghost predicate KeyedWrites(ws: Writes) {
    forall src | src in ws :: ws[src].source.String() == src
  }

  ghost predicate KeyedObjects(objects: Objects) {
    forall key | key in objects :: KeyedWrites(objects[key])
  }

  ghost predicate Keyed(s: State) {
    KeyedObjects(s.objects) && KeyedResults(s.results)
  }

  ghost predicate ValidKeys(objects: Objects) {
    forall key | key in objects :: ValidKey(key)
  }

  /** `entries` lists the blocks of the objects `done`. */
  ghost predicate EntriesFor(p: Printer, objects: Objects, done: set<ObjectKey>, entries: seq<Entry>) {
    && NoDup(entries)
    && (forall e | e in entries :: exists key ::
      key in done && key in objects && Changed(p, objects[key]) && e == ObjectEntry(p, objects, key))
    && (forall key | key in done && key in objects && Changed(p, objects[key]) ::
      ObjectEntry(p, objects, key) in entries)
  }

  lemma EntriesAdd(p: Printer, objects: Objects, done: set<ObjectKey>, entries: seq<Entry>, key: ObjectKey)
    requires EntriesFor(p, objects, done, entries) && ValidKeys(objects)
    requires key in objects && key !in done && Changed(p, objects[key])
    ensures EntriesFor(p, objects, done + {key}, entries + [ObjectEntry(p, objects, key)])
  {
    hide Changed, ObjectEntry;
    var x := ObjectEntry(p, objects, key);
    var next := entries + [x];
    EntryKey(p, objects, key);
    forall e | e in entries ensures e != x {
      var k :| k in done && k in objects && Changed(p, objects[k]) && e == ObjectEntry(p, objects, k);
      EntryKey(p, objects, k);
      if KeyString(k) == KeyString(key) { KeyStringInjective(k, key); }
    }
    forall e | e in next
      ensures exists k :: k in done + {key} && k in objects && Changed(p, objects[k]) && e == ObjectEntry(p, objects, k)
    {
      if e in entries {
        var k :| k in done && k in objects && Changed(p, objects[k]) && e == ObjectEntry(p, objects, k);
        assert k in done + {key};
      } else {
        assert key in done + {key} && e == x;
      }
    }
    assert next[|entries|] in next;
    forall k | k in done + {key} && k in objects && Changed(p, objects[k]) ensures ObjectEntry(p, objects, k) in next {
      if k != key { assert ObjectEntry(p, objects, k) in entries; }
    }
    NoDupConcat(entries, [x]);
  }

  lemma EntryKey(p: Printer, objects: Objects, key: ObjectKey)
    requires key in objects
    ensures ObjectEntry(p, objects, key).key == KeyString(key)
  {
  }

  lemma EntriesSkip(p: Printer, objects: Objects, done: set<ObjectKey>, entries: seq<Entry>, key: ObjectKey)
    requires EntriesFor(p, objects, done, entries)
    requires key in objects && !Changed(p, objects[key])
    ensures EntriesFor(p, objects, done + {key}, entries)
  {
    hide Changed, ObjectEntry;
    forall e | e in entries
      ensures exists k :: k in done + {key} && k in objects && Changed(p, objects[k]) && e == ObjectEntry(p, objects, k)
    {
      var k :| k in done && k in objects && Changed(p, objects[k]) && e == ObjectEntry(p, objects, k);
      assert k in done + {key};
    }
    forall k | k in done + {key} && k in objects && Changed(p, objects[k])
      ensures ObjectEntry(p, objects, k) in entries
    {
      assert k != key;
    }
  }

  /** Counts the objects `done` in the first four fields of a summary. */
  ghost predicate Counted(p: Printer, objects: Objects, done: set<ObjectKey>, s: Summary) {
    && s.create == |WithSymbol(p, objects, done, '+')|
    && s.update == |WithSymbol(p, objects, done, '~')|
    && s.delete == |WithSymbol(p, objects, done, '-')|
    && s.reorder == |Reordered(p, objects, done)|
    && s.cloud == s.ok == s.skipped == s.pending == s.errors == 0
  }

  function CountTag(s: Summary, tag: Label): Summary {
    match Symbol(tag)
    case '+' => s.(create := s.create + 1)
    case '-' => s.(delete := s.delete + 1)
    case _ => s.(update := s.update + 1, reorder := s.reorder + if tag == OrderOnly then 1 else 0)
  }

  lemma SymbolAdd(p: Printer, objects: Objects, done: set<ObjectKey>, key: ObjectKey, symbol: char)
    requires key in objects && key !in done
    ensures |WithSymbol(p, objects, done + {key}, symbol)| == |WithSymbol(p, objects, done, symbol)|
      + if Changed(p, objects[key]) && Symbol(TagOf(ListOf(p, objects[key]))) == symbol then 1 else 0
  {
    hide Changed, Symbol, TagOf, ListOf;
    var a, b := WithSymbol(p, objects, done, symbol), WithSymbol(p, objects, done + {key}, symbol);
    if Changed(p, objects[key]) && Symbol(TagOf(ListOf(p, objects[key]))) == symbol {
      assert b == a + {key};
    } else {
      assert b == a;
    }
  }

  lemma ReorderedAdd(p: Printer, objects: Objects, done: set<ObjectKey>, key: ObjectKey)
    requires key in objects && key !in done
    ensures |Reordered(p, objects, done + {key})| == |Reordered(p, objects, done)|
      + if Changed(p, objects[key]) && TagOf(ListOf(p, objects[key])) == OrderOnly then 1 else 0
  {
    hide Changed, TagOf, ListOf;
    var a, b := Reordered(p, objects, done), Reordered(p, objects, done + {key});
    if Changed(p, objects[key]) && TagOf(ListOf(p, objects[key])) == OrderOnly {
      assert b == a + {key};
    } else {
      assert b == a;
    }
  }

  lemma CountedAdd(p: Printer, objects: Objects, done: set<ObjectKey>, s: Summary, key: ObjectKey)
    requires Counted(p, objects, done, s) && key in objects && key !in done
    ensures Counted(p, objects, done + {key},
      if Changed(p, objects[key]) then CountTag(s, TagOf(ListOf(p, objects[key]))) else s)
  {
    SymbolAdd(p, objects, done, key, '+');
    SymbolAdd(p, objects, done, key, '~');
    SymbolAdd(p, objects, done, key, '-');
    ReorderedAdd(p, objects, done, key);
    SymbolMeaning(TagOf(ListOf(p, objects[key])));
    hide Changed, TagOf, ListOf, WithSymbol, Reordered, Symbol;
  }

  lemma ListEmpty(p: Printer, ws: Writes, changes: map<string, Group>)
    requires Grouped(p, ws, ws.Keys, changes)
    ensures changes == map[] <==> !Changed(p, ws)
  {
    if id :| id in changes {
      assert GroupedAt(p, ws, ws.Keys, id, changes[id]);
      assert changes[id].sources[0] in changes[id].sources;
    }
  }

  /** The body of the loop over the objects. */
  method WriteObject(p: Printer, objects: Objects, key: ObjectKey, ghost done: set<ObjectKey>, entries: seq<Entry>,
                     s: Summary)
    returns (next: seq<Entry>, t: Summary)
    requires ValidKeys(objects) && key in objects && key !in done
    requires KeyedWrites(objects[key])
    requires EntriesFor(p, objects, done, entries) && Counted(p, objects, done, s)
    ensures EntriesFor(p, objects, done + {key}, next) && Counted(p, objects, done + {key}, t)
  {
    hide *;
    var ws := objects[key];
    var changes, clusters := GroupWrites(p, ws);
    ListEmpty(p, ws, changes);
    CountedAdd(p, objects, done, s, key);
    if changes == map[] {
      EntriesSkip(p, objects, done, entries, key);
      return entries, s;
    }
    var list := ListChanges(p, ws, changes);
    var tag := LabelOf(list);
    var e := BlockOf(key, list, clusters, tag);
    ObjectEntryIs(p, objects, key);
    EntriesAdd(p, objects, done, entries, key);
    return entries + [e], CountTag(s, tag);
  }

  lemma KeyedLookup(objects: Objects, key: ObjectKey)
    requires KeyedObjects(objects) && key in objects
    ensures KeyedWrites(objects[key])
  {
  }

  method WriteObjects(p: Printer, objects: Objects) returns (entries: seq<Entry>, s: Summary)
    requires ValidKeys(objects)
    requires KeyedObjects(objects)
    ensures EntriesFor(p, objects, objects.Keys, entries)
    ensures Counted(p, objects, objects.Keys, s)
  {
    hide *;
    entries, s := [], Summary(0, 0, 0, 0, 0, 0, 0, 0, 0);
    var todo := objects.Keys;
    ghost var done: set<ObjectKey> := {};
    NothingWritten(p, objects, done, entries, s);
    while todo != {}
      invariant todo + done == objects.Keys && todo !! done
      invariant EntriesFor(p, objects, done, entries) && Counted(p, objects, done, s)
      decreases |todo|
    {
      var key :| key in todo;
      todo := todo - {key};
      KeyedLookup(objects, key);
      entries, s := WriteObject(p, objects, key, done, entries, s);
      done := done + {key};
    }
    assert done == objects.Keys;
  }

  lemma ObjectEntryIs(p: Printer, objects: Objects, key: ObjectKey)
    requires key in objects
    ensures ObjectEntry(p, objects, key) == EntryOf(key, ListOf(p, objects[key]), ClustersOf(p, objects[key]))
  {
  }

  lemma NothingWritten(p: Printer, objects: Objects, done: set<ObjectKey>, entries: seq<Entry>, s: Summary)
    requires done == {} && entries == [] && s == Summary(0, 0, 0, 0, 0, 0, 0, 0, 0)
    ensures EntriesFor(p, objects, done, entries)
    ensures Counted(p, objects, done, s)
  {
    assert WithSymbol(p, objects, {}, '+') == {} && WithSymbol(p, objects, {}, '~') == {}
      && WithSymbol(p, objects, {}, '-') == {};
    assert Reordered(p, objects, {}) == {};
  }

  // ---- Cloud changes ----

  ghost predicate CloudEntriesFor(cloud: Cloud, done: set<string>, entries: seq<Entry>) {
    && NoDup(entries)
    && (forall e | e in entries :: exists id :: id in done && id in cloud && e == CloudEntry(id, cloud[id]))
    && (forall id | id in done && id in cloud :: CloudEntry(id, cloud[id]) in entries)
  }

  lemma CloudEntryKey(id: string, sources: seq<Source>, other: string, others: seq<Source>)
    requires CloudEntry(id, sources).key == CloudEntry(other, others).key
    ensures id == other
  {
    assert ("~ " + id)[2..] == id && ("~ " + other)[2..] == other;
  }

  lemma CloudEntriesAdd(cloud: Cloud, done: set<string>, entries: seq<Entry>, id: string)
    requires CloudEntriesFor(cloud, done, entries) && id in cloud && id !in done
    ensures CloudEntriesFor(cloud, done + {id}, entries + [CloudEntry(id, cloud[id])])
  {
    hide CloudEntry;
    var x := CloudEntry(id, cloud[id]);
    var next := entries + [x];
    forall e | e in entries ensures e != x {
      var i :| i in done && i in cloud && e == CloudEntry(i, cloud[i]);
      if e == x { CloudEntryKey(i, cloud[i], id, cloud[id]); }
    }
    forall e | e in next ensures exists i :: i in done + {id} && i in cloud && e == CloudEntry(i, cloud[i]) {
      if e in entries {
        var i :| i in done && i in cloud && e == CloudEntry(i, cloud[i]);
        assert i in done + {id};
      } else {
        assert id in done + {id} && e == x;
      }
    }
    assert next[|entries|] in next;
    forall i | i in done + {id} && i in cloud ensures CloudEntry(i, cloud[i]) in next {
      if i != id { assert CloudEntry(i, cloud[i]) in entries; }
    }
    NoDupConcat(entries, [x]);
  }

  method ClustersOfSources(sources: seq<Source>) returns (clusters: set<string>)
    ensures clusters == CloudClusters(sources)
  {
    clusters := {};
    var i := 0;
    while i < |sources|
      invariant i <= |sources|
      invariant clusters == set j, cl | 0 <= j < i && cl in sources[j].clusters :: cl
    {
      clusters := clusters + set cl | cl in sources[i].clusters;
      i := i + 1;
    }
  }

  lemma NoCloudEntries(cloud: Cloud, done: set<string>, entries: seq<Entry>)
    requires done == {} && entries == []
    ensures CloudEntriesFor(cloud, done, entries)
  {
  }

  lemma CloudEntryIs(id: string, sources: seq<Source>)
    ensures CloudEntry(id, sources) == Entry(Join(SortedKeys(CloudClusters(sources)), ", "), "~ " + id, id + "\n")
  {
  }

  method WriteCloud(cloud: Cloud) returns (entries: seq<Entry>, count: nat)
    ensures CloudEntriesFor(cloud, cloud.Keys, entries) && count == |cloud|
  {
    hide *;
    entries, count := [], 0;
    var todo := cloud.Keys;
    ghost var done: set<string> := {};
    NoCloudEntries(cloud, done, entries);
    while todo != {}
      invariant todo + done == cloud.Keys && todo !! done
      invariant CloudEntriesFor(cloud, done, entries) && count == |done|
      decreases |todo|
    {
      var id :| id in todo;
      todo := todo - {id};
      var clusters := ClustersOfSources(cloud[id]);
      var e := Entry(Join(SortedKeys(clusters), ", "), "~ " + id, id + "\n");
      CloudEntryIs(id, cloud[id]);
      CloudEntriesAdd(cloud, done, entries, id);
      entries := entries + [e];
      count := count + 1;
      done := done + {id};
    }
    assert done == cloud.Keys;
  }

  // ---- All blocks ----

  lemma EntryLessWeakOrder()
    ensures WeakOrder(EntryLess)
  {
    StrLessWeakOrder();
    hide StrLess;
    forall a, b | EntryLess(a, b) ensures !EntryLess(b, a) {
      assert StrLess(a.group, b.group) ==> !StrLess(b.group, a.group);
      assert StrLess(a.key, b.key) ==> !StrLess(b.key, a.key);
    }
    forall a, b, c | !EntryLess(a, b) && !EntryLess(b, c) ensures !EntryLess(a, c) {
      StrLessTotal(a.group, b.group);
      StrLessTotal(b.group, c.group);
      assert !StrLess(a.group, b.group) && !StrLess(b.group, c.group) ==> !StrLess(a.group, c.group);
      assert !StrLess(a.key, b.key) && !StrLess(b.key, c.key) ==> !StrLess(a.key, c.key);
    }
  }

  /** The first character of the key of an object is not that of a cloud change. */
  lemma KeyNotCloud(k: ObjectKey, id: string)
    requires ValidKey(k)
    ensures KeyString(k) != "~ " + id
  {
    assert ("~ " + id)[0] == '~';
    if k.kind != "" {
      assert KeyString(k)[0] == k.kind[0] && k.kind[0] in k.kind;
    } else if k.group != "" {
      assert KeyString(k)[0] == '.';
    } else {
      assert KeyString(k)[0] == ' ';
    }
  }

  lemma EntryKeysDiffer(p: Printer, s: State, x: Entry, y: Entry)
    requires ValidKeys(s.objects)
    requires x in ObjectEntries(p, s.objects) + CloudEntries(s.cloud)
      && y in ObjectEntries(p, s.objects) + CloudEntries(s.cloud)
    requires x.key == y.key
    ensures x == y
  {
    hide Changed, ObjectEntry, CloudEntry;
    if x in ObjectEntries(p, s.objects) {
      var k :| k in s.objects && Changed(p, s.objects[k]) && x == ObjectEntry(p, s.objects, k);
      EntryKey(p, s.objects, k);
      if y in ObjectEntries(p, s.objects) {
        var l :| l in s.objects && Changed(p, s.objects[l]) && y == ObjectEntry(p, s.objects, l);
        EntryKey(p, s.objects, l);
        KeyStringInjective(k, l);
      } else {
        var id :| id in s.cloud && y == CloudEntry(id, s.cloud[id]);
        CloudEntryIs(id, s.cloud[id]);
        KeyNotCloud(k, id);
      }
    } else {
      var id :| id in s.cloud && x == CloudEntry(id, s.cloud[id]);
      CloudEntryIs(id, s.cloud[id]);
      if y in ObjectEntries(p, s.objects) {
        var k :| k in s.objects && Changed(p, s.objects[k]) && y == ObjectEntry(p, s.objects, k);
        EntryKey(p, s.objects, k);
        KeyNotCloud(k, id);
      } else {
        var other :| other in s.cloud && y == CloudEntry(other, s.cloud[other]);
        CloudEntryKey(id, s.cloud[id], other, s.cloud[other]);
      }
    }
  }

  lemma AllEntries(p: Printer, s: State, a: seq<Entry>, b: seq<Entry>)
    requires ValidKeys(s.objects)
    requires EntriesFor(p, s.objects, s.objects.Keys, a) && CloudEntriesFor(s.cloud, s.cloud.Keys, b)
    ensures NoDup(a + b)
    ensures forall e :: e in a + b <==> e in ObjectEntries(p, s.objects) + CloudEntries(s.cloud)
  {
    hide Changed, ObjectEntry, CloudEntry;
    forall e ensures e in a <==> e in ObjectEntries(p, s.objects) {
      if e in ObjectEntries(p, s.objects) {
        var k :| k in s.objects && Changed(p, s.objects[k]) && e == ObjectEntry(p, s.objects, k);
      }
    }
    forall e ensures e in b <==> e in CloudEntries(s.cloud) {
      if e in CloudEntries(s.cloud) {
        var id :| id in s.cloud && e == CloudEntry(id, s.cloud[id]);
      }
    }
    forall x, y | x in a && y in b ensures x != y {
      var k :| k in s.objects && Changed(p, s.objects[k]) && x == ObjectEntry(p, s.objects, k);
      EntryKey(p, s.objects, k);
      var id :| id in s.cloud && y == CloudEntry(id, s.cloud[id]);
      CloudEntryIs(id, s.cloud[id]);
      KeyNotCloud(k, id);
    }
    NoDupConcat(a, b);
  }

  lemma NoDupConcat<T>(a: seq<T>, b: seq<T>)
    requires NoDup(a) && NoDup(b) && forall x, y | x in a && y in b :: x != y
    ensures NoDup(a + b)
  {
    var s := a + b;
    assert forall i | 0 <= i < |a| :: s[i] == a[i] && s[i] in a;
    assert forall i | |a| <= i < |s| :: s[i] == b[i - |a|] && s[i] in b;
  }

  lemma SortedEntries(p: Printer, s: State, listed: seq<Entry>, r: seq<Entry>)
    requires ValidKeys(s.objects) && NoDup(listed)
    requires forall e :: e in listed <==> e in ObjectEntries(p, s.objects) + CloudEntries(s.cloud)
    requires multiset(r) == multiset(listed) && Ordered(EntryLess, r)
    ensures r == SortSet(EntryLess, ObjectEntries(p, s.objects) + CloudEntries(s.cloud))
  {
    EntryLessWeakOrder();
    forall x, y | x in listed && y in listed && x != y ensures EntryLess(x, y) || EntryLess(y, x) {
      if x.key == y.key { EntryKeysDiffer(p, s, x, y); }
      StrLessTotal(x.group, y.group);
      StrLessTotal(x.key, y.key);
    }
    hide EntryLess, ObjectEntries, CloudEntries;
    SortSetIs(EntryLess, ObjectEntries(p, s.objects) + CloudEntries(s.cloud), listed, r);
  }

  // ---- Results ----

  ghost predicate KeyedResults(results: map<string, Result>) {
    forall name | name in results :: results[name].source.String() == name
  }

  ghost predicate ResultsFor(results: map<string, Result>, done: set<string>, rs: seq<Result>) {
    && NoDup(rs)
    && (forall r | r in rs :: exists name ::
      name in done && name in results && Unfinished(results[name]) && r == results[name])
    && (forall name | name in done && name in results && Unfinished(results[name]) :: results[name] in rs)
  }

  /** Counts the results `done` in the last four fields of a summary. */
  ghost predicate CountedResults(results: map<string, Result>, done: set<string>, from: Summary, s: Summary) {
    s == from.(
      ok := |WithStatus(results, done, OK)|,
      skipped := |WithStatus(results, done, Skipped)|,
      pending := |WithStatus(results, done, Pending)|,
      errors := |WithStatus(results, done, Failed)|)
  }

  function CountStatus(s: Summary, status: Status): Summary {
    match status
    case OK => s.(ok := s.ok + 1)
    case Skipped => s.(skipped := s.skipped + 1)
    case Pending => s.(pending := s.pending + 1)
    case Failed => s.(errors := s.errors + 1)
  }

  lemma StatusAdd(results: map<string, Result>, done: set<string>, name: string, status: Status)
    requires name in results && name !in done
    ensures |WithStatus(results, done + {name}, status)|
         == |WithStatus(results, done, status)| + if results[name].status == status then 1 else 0
  {
    var a, b := WithStatus(results, done, status), WithStatus(results, done + {name}, status);
    if results[name].status == status { assert b == a + {name}; } else { assert b == a; }
  }

  lemma CountedResultsAdd(results: map<string, Result>, done: set<string>, from: Summary, s: Summary, name: string)
    requires CountedResults(results, done, from, s) && name in results && name !in done
    ensures CountedResults(results, done + {name}, from, CountStatus(s, results[name].status))
  {
    StatusAdd(results, done, name, OK);
    StatusAdd(results, done, name, Skipped);
    StatusAdd(results, done, name, Pending);
    StatusAdd(results, done, name, Failed);
    hide WithStatus;
  }

  lemma ResultsAdd(results: map<string, Result>, done: set<string>, rs: seq<Result>, name: string)
    requires KeyedResults(results) && ResultsFor(results, done, rs) && name in results && name !in done
    ensures ResultsFor(results, done + {name}, if Unfinished(results[name]) then rs + [results[name]] else rs)
  {
    hide Unfinished;
    var x := results[name];
    var next := if Unfinished(x) then rs + [x] else rs;
    forall r | r in rs ensures r != x {
      var n :| n in done && n in results && r == results[n];
      assert r.source.String() == n && x.source.String() == name;
    }
    forall r | r in next
      ensures exists n :: n in done + {name} && n in results && Unfinished(results[n]) && r == results[n]
    {
      if r in rs {
        var n :| n in done && n in results && Unfinished(results[n]) && r == results[n];
        assert n in done + {name};
      } else {
        assert name in done + {name} && r == results[name];
      }
    }
    forall n | n in done + {name} && n in results && Unfinished(results[n]) ensures results[n] in next {
      if n != name { assert results[n] in rs; } else { assert next[|rs|] == x; }
    }
    if Unfinished(x) { NoDupConcat(rs, [x]); }
  }

  lemma NoResults(results: map<string, Result>, done: set<string>, rs: seq<Result>, s: Summary)
    requires done == {} && rs == [] && s.ok == s.skipped == s.pending == s.errors == 0
    ensures ResultsFor(results, done, rs) && CountedResults(results, done, s, s)
  {
    forall status ensures WithStatus(results, done, status) == {} {
    }
  }

  method CollectResults(results: map<string, Result>, from: Summary) returns (rs: seq<Result>, s: Summary)
    requires KeyedResults(results) && from.ok == from.skipped == from.pending == from.errors == 0
    ensures ResultsFor(results, results.Keys, rs) && CountedResults(results, results.Keys, from, s)
  {
    hide *;
    rs, s := [], from;
    var todo := results.Keys;
    ghost var done: set<string> := {};
    NoResults(results, done, rs, s);
    while todo != {}
      invariant todo + done == results.Keys && todo !! done
      invariant ResultsFor(results, done, rs) && CountedResults(results, done, from, s)
      decreases |todo|
    {
      var name :| name in todo;
      todo := todo - {name};
      var r := results[name];
      ResultsAdd(results, done, rs, name);
      CountedResultsAdd(results, done, from, s, name);
      s := CountStatus(s, r.status);
      if Unfinished(r) {
        rs := rs + [r];
      }
      done := done + {name};
    }
    assert done == results.Keys;
  }

  lemma ResultLessWeakOrder()
    ensures WeakOrder(ResultLess)
  {
    StrLessWeakOrder();
    hide StrLess;
    forall a, b, c | !ResultLess(a, b) && !ResultLess(b, c) ensures !ResultLess(a, c) {
      var x, y, z := a.source.String(), b.source.String(), c.source.String();
      assert !StrLess(x, y) && !StrLess(y, z) ==> !StrLess(x, z);
    }
  }

  lemma SortedResults(results: map<string, Result>, listed: seq<Result>, r: seq<Result>)
    requires KeyedResults(results) && ResultsFor(results, results.Keys, listed)
    requires multiset(r) == multiset(listed) && Ordered(ResultLess, r)
    ensures r == SortSet(ResultLess, UnfinishedOf(results))
  {
    ResultLessWeakOrder();
    forall x ensures x in listed <==> x in UnfinishedOf(results) {
      if x in listed {
        var n :| n in results && Unfinished(results[n]) && x == results[n];
      }
    }
    forall x, y | x in listed && y in listed && x != y ensures ResultLess(x, y) || ResultLess(y, x) {
      var n :| n in results && x == results[n];
      var m :| m in results && y == results[m];
      StrLessTotal(n, m);
    }
    hide ResultLess, UnfinishedOf;
    SortSetIs(ResultLess, UnfinishedOf(results), listed, r);
  }

  // ---- The text ----

  lemma BlocksStep(entries: seq<Entry>, i: nat, group: string)
    requires i < |entries|
    ensures var e := entries[i];
      Blocks(entries[i..], group) ==
      (if e.group == group then "" else "\n# cluster " + (if e.group == "" then "(none)" else e.group) + "\n")
      + e.text + Blocks(entries[i + 1..], e.group)
  {
    assert entries[i..][1..] == entries[i + 1..];
  }

  lemma BlocksNone(entries: seq<Entry>, group: string)
    requires entries == []
    ensures Blocks(entries, group) == ""
  {
  }

  method BlocksText(entries: seq<Entry>) returns (b: string)
    ensures b == Blocks(entries, "\0")
  {
    hide *;
    b := "";
    var group := "\0";
    var i := 0;
    assert entries[0..] == entries && b + Blocks(entries, group) == Blocks(entries, group);
    while i < |entries|
      invariant i <= |entries| && b + Blocks(entries[i..], group) == Blocks(entries, "\0")
    {
      BlocksStep(entries, i, group);
      var e := entries[i];
      ghost var rest := Blocks(entries[i + 1..], e.group);
      ghost var header :=
        if e.group == group then "" else "\n# cluster " + (if e.group == "" then "(none)" else e.group) + "\n";
      Assoc(b, header + e.text, rest);
      Assoc(b, header, e.text);
      assert b + "" == b;
      if e.group != group {
        group := e.group;
        var name := group;
        if name == "" {
          name := "(none)";
        }
        b := b + ("\n# cluster " + name + "\n");
      }
      b := b + e.text;
      i := i + 1;
    }
    BlocksNone(entries[i..], group);
    assert b + "" == b;
  }

  lemma ResultLinesStep(rs: seq<Result>, i: nat)
    requires i < |rs|
    ensures ResultLines(rs[..i + 1])
         == ResultLines(rs[..i]) + "! " + StatusText(rs[i].status) + " " + rs[i].source.String() + ": " + rs[i].reason
           + "\n"
  {
    assert rs[..i + 1][..i] == rs[..i];
  }

  lemma ResultLinesNone(rs: seq<Result>)
    requires rs == []
    ensures ResultLines(rs) == ""
  {
  }

  method ResultText(rs: seq<Result>) returns (b: string)
    ensures b == ResultLines(rs)
  {
    hide *;
    b := "";
    var i := 0;
    ResultLinesNone(rs[..0]);
    while i < |rs|
      invariant i <= |rs| && b == ResultLines(rs[..i])
    {
      ResultLinesStep(rs, i);
      b := b + "! " + StatusText(rs[i].status) + " " + rs[i].source.String() + ": " + rs[i].reason + "\n";
      i := i + 1;
    }
    assert rs[..|rs|] == rs;
  }

  /** `Write`: the text and the summary depend on the maps of the plan alone. */
  method WritePlan(p: Printer, s: State) returns (text: string, sum: Summary)
    requires Keyed(s) && ValidKeys(s.objects)
    ensures text == PlanText(p, s) && sum == SummaryOf(p, s)
  {
    KeyedParts(s);
    hide *;
    var objectEntries, counts := WriteObjects(p, s.objects);
    var cloudEntries, cloud := WriteCloud(s.cloud);
    AllEntries(p, s, objectEntries, cloudEntries);
    EntryLessWeakOrder();
    var entries := SortSlice(EntryLess, objectEntries + cloudEntries);
    SortedEntries(p, s, objectEntries + cloudEntries, entries);
    CountedFields(p, s.objects, counts);
    var unsorted;
    unsorted, sum := CollectResults(s.results, counts.(cloud := cloud));
    ResultLessWeakOrder();
    var unfinished := SortSlice(ResultLess, unsorted);
    SortedResults(s.results, unsorted, unfinished);
    SummaryIs(p, s, counts, cloud, sum);
    var blocks := BlocksText(entries);
    var results := ResultText(unfinished);
    ResultLinesEmpty(unfinished);
    text := blocks;
    if unfinished != [] {
      text := text + "\n# Not complete\n" + results;
    }
    if entries == [] && unfinished == [] {
      text := text + "\nNo changes.\n";
    }
    text := TrimNewline(text + Footer(sum));
    AssembleIs(blocks, results, entries == [] && unfinished == [], sum);
    PlanTextIs(p, s, entries, unfinished);
  }

  lemma KeyedParts(s: State)
    requires Keyed(s)
    ensures KeyedObjects(s.objects) && KeyedResults(s.results)
  {
  }

  lemma CountedFields(p: Printer, objects: Objects, s: Summary)
    requires Counted(p, objects, objects.Keys, s)
    ensures s.ok == s.skipped == s.pending == s.errors == 0
  {
  }

  lemma SummaryIs(p: Printer, s: State, counts: Summary, cloud: nat, sum: Summary)
    requires Counted(p, s.objects, s.objects.Keys, counts) && cloud == |s.cloud|
    requires CountedResults(s.results, s.results.Keys, counts.(cloud := cloud), sum)
    ensures sum == SummaryOf(p, s)
  {
  }

  lemma ResultLinesEmpty(rs: seq<Result>)
    ensures ResultLines(rs) == "" <==> rs == []
  {
  }

  lemma AssembleIs(blocks: string, results: string, nothing: bool, sum: Summary)
    ensures Assemble(blocks, results, nothing, sum) ==
      var b := if results == "" then blocks else blocks + "\n# Not complete\n" + results;
      TrimNewline((if nothing then b + "\nNo changes.\n" else b) + Footer(sum))
  {
  }

  lemma PlanTextIs(p: Printer, s: State, entries: seq<Entry>, unfinished: seq<Result>)
    requires entries == SortSet(EntryLess, ObjectEntries(p, s.objects) + CloudEntries(s.cloud))
    requires unfinished == SortSet(ResultLess, UnfinishedOf(s.results))
    ensures PlanText(p, s)
         == Assemble(Blocks(entries, "\0"), ResultLines(unfinished), entries == [] && unfinished == [], SummaryOf(p, s))
  {
  }
}
