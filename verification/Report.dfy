/** The text and the summary of a plan as functions of its maps alone: nothing here knows an
    order in which Go ranges over a map. `Plan.Write` is proved to compute them. */
module Report {
  import opened Ordering
  import opened Records
  import opened Description

  // ---- Names ----

  function Join(parts: seq<string>, sep: string): string {
    if parts == [] then "" else if |parts| == 1 then parts[0] else parts[0] + sep + Join(parts[1..], sep)
  }

  function KindString(k: ObjectKey): string {
    if k.group != "" then k.kind + "." + k.group else k.kind
  }

  function KeyString(k: ObjectKey): string {
    KindString(k) + " " + if k.namespace == "" then k.name else k.namespace + "/" + k.name
  }

  /** What Kubernetes allows in the parts of a key, as far as printing needs it. */
  predicate ValidKey(k: ObjectKey) {
    && '.' !in k.kind && ' ' !in k.kind && '~' !in k.kind
    && ' ' !in k.group
    && '/' !in k.namespace && '/' !in k.name
  }

  function IndexOf(s: string, c: char): nat {
    if s == "" || s[0] == c then 0 else 1 + IndexOf(s[1..], c)
  }

  lemma {:induction false} IndexAfter(a: string, x: string, c: char)
    requires c !in a
    ensures IndexOf(a + [c] + x, c) == |a|
  {
    if a != "" {
      assert (a + [c] + x)[1..] == a[1..] + [c] + x;
      IndexAfter(a[1..], x, c);
    }
  }

  lemma SplitAt(a: string, x: string, b: string, y: string, c: char)
    requires a + [c] + x == b + [c] + y && c !in a && c !in b
    ensures a == b && x == y
  {
    IndexAfter(a, x, c);
    IndexAfter(b, y, c);
    var s, t := a + [c] + x, b + [c] + y;
    assert a == s[..|a|] && b == t[..|b|];
    assert x == s[|a| + 1..] && y == t[|b| + 1..];
  }

  lemma SplitPresence(a: string, x: string, b: string, c: char)
    requires a + [c] + x == b
    ensures c in b
  {
    assert b[|a|] == c;
  }

  lemma KindStringInjective(k: ObjectKey, l: ObjectKey)
    requires ValidKey(k) && ValidKey(l) && KindString(k) == KindString(l)
    ensures k.kind == l.kind && k.group == l.group
  {
    var g, h := k.kind + ['.'] + k.group, l.kind + ['.'] + l.group;
    if k.group != "" && l.group != "" {
      assert KindString(k) == g && KindString(l) == h;
      SplitAt(k.kind, k.group, l.kind, l.group, '.');
    } else if k.group != "" {
      assert KindString(k) == g;
      SplitPresence(k.kind, k.group, l.kind, '.');
    } else if l.group != "" {
      assert KindString(l) == h;
      SplitPresence(l.kind, l.group, k.kind, '.');
    }
  }

  /** Valid keys print distinctly. */
  lemma KeyStringInjective(k: ObjectKey, l: ObjectKey)
    requires ValidKey(k) && ValidKey(l) && KeyString(k) == KeyString(l)
    ensures k == l
  {
    var x := if k.namespace == "" then k.name else k.namespace + "/" + k.name;
    var y := if l.namespace == "" then l.name else l.namespace + "/" + l.name;
    assert KindString(k) + [' '] + x == KindString(l) + [' '] + y;
    SplitAt(KindString(k), x, KindString(l), y, ' ');
    KindStringInjective(k, l);
    var g, h := k.namespace + ['/'] + k.name, l.namespace + ['/'] + l.name;
    if k.namespace != "" && l.namespace != "" {
      assert x == g && y == h;
      SplitAt(k.namespace, k.name, l.namespace, l.name, '/');
    } else if k.namespace != "" {
      assert x == g;
      SplitPresence(k.namespace, k.name, l.name, '/');
    } else if l.namespace != "" {
      assert y == h;
      SplitPresence(l.namespace, l.name, k.name, '/');
    }
  }

  // ---- The changes of one object ----

  function ChangeId(c: Change): string {
    LabelText(c.tag) + "\n" + Join(c.lines, "\n")
  }

  /** The changes that `Describe` returns: a label without lines, or one with lines. */
  predicate Printable(c: Change) {
    && (forall i | 0 <= i < |c.lines| :: OneLine(c.lines[i]))
    && (c.lines == [] <==> c.tag == Deletes || c.tag == OrderOnly)
  }

  lemma DescribePrintable(p: Printer, w: Write)
    ensures Describe(p, w).Some? ==> Printable(Describe(p, w).value)
  {
  }

  lemma {:induction false} JoinInjective(a: seq<string>, b: seq<string>)
    requires forall i | 0 <= i < |a| :: OneLine(a[i])
    requires forall i | 0 <= i < |b| :: OneLine(b[i])
    requires a != [] && b != [] && Join(a, "\n") == Join(b, "\n")
    ensures a == b
  {
    if |a| == 1 && |b| > 1 {
      SplitPresence(b[0], Join(b[1..], "\n"), a[0], '\n');
    } else if |b| == 1 && |a| > 1 {
      SplitPresence(a[0], Join(a[1..], "\n"), b[0], '\n');
    } else if |a| > 1 {
      SplitAt(a[0], Join(a[1..], "\n"), b[0], Join(b[1..], "\n"), '\n');
      JoinInjective(a[1..], b[1..]);
      assert a == [a[0]] + a[1..] && b == [b[0]] + b[1..];
    }
  }

  /** The lines of a text. */
  function SplitLines(s: string): seq<string> {
    var i := IndexOf(s, '\n');
    if i < |s| then [s[..i]] + SplitLines(s[i + 1..]) else [s]
  }

  lemma {:induction false} NoIndex(s: string, c: char)
    requires c !in s
    ensures IndexOf(s, c) == |s|
  {
    if s != "" {
      NoIndex(s[1..], c);
    }
  }

  /** Joined lines can be told apart again. */
  lemma {:induction false} SplitJoin(lines: seq<string>)
    requires lines != [] && forall i | 0 <= i < |lines| :: OneLine(lines[i])
    ensures SplitLines(Join(lines, "\n")) == lines
  {
    if |lines| == 1 {
      assert lines == [lines[0]];
      NoIndex(lines[0], '\n');
    } else {
      var rest := Join(lines[1..], "\n");
      assert Join(lines, "\n") == lines[0] + ['\n'] + rest;
      IndexAfter(lines[0], rest, '\n');
      var all := lines[0] + ['\n'] + rest;
      assert all[..|lines[0]|] == lines[0] && all[|lines[0]| + 1..] == rest;
      SplitJoin(lines[1..]);
      assert lines == [lines[0]] + lines[1..];
    }
  }

  lemma LabelTextInjective(a: Label, b: Label)
    ensures '\n' !in LabelText(a)
    ensures LabelText(a) == LabelText(b) ==> a == b
  {
    var s, t := LabelText(a), LabelText(b);
    if |s| == |t| {
      assert s[0] == t[0] ==> a == b;
    }
  }

  /** Grouping by the id groups equal changes. */
  lemma ChangeIdInjective(c: Change, d: Change)
    requires Printable(c) && Printable(d) && ChangeId(c) == ChangeId(d)
    ensures c == d
  {
    LabelTextInjective(c.tag, d.tag);
    LabelTextInjective(d.tag, c.tag);
    SplitAt(LabelText(c.tag), Join(c.lines, "\n"), LabelText(d.tag), Join(d.lines, "\n"), '\n');
    if c.lines != [] {
      JoinInjective(c.lines, d.lines);
    }
  }

  type Writes = map<string, Write>

  /** One change and the sources that make it, in the order of their names. */
  datatype Group = Group(change: Change, sources: seq<string>)

  function First(g: Group): string {
    if g.sources == [] then "" else g.sources[0]
  }

  predicate GroupLess(a: Group, b: Group) {
    StrLess(First(a), First(b))
  }

  ghost predicate Makes(p: Printer, ws: Writes, src: string, c: Change) {
    src in ws && Describe(p, ws[src]) == Some(c)
  }

  function ChangesOf(p: Printer, ws: Writes): set<Change> {
    set src | src in ws && Describe(p, ws[src]).Some? :: Describe(p, ws[src]).value
  }

  function MakersOf(p: Printer, ws: Writes, c: Change): set<string> {
    set src | src in ws && Describe(p, ws[src]) == Some(c)
  }

  function GroupOf(p: Printer, ws: Writes, c: Change): Group {
    Group(c, SortedKeys(MakersOf(p, ws, c)))
  }

  function GroupsOf(p: Printer, ws: Writes): set<Group> {
    set c | c in ChangesOf(p, ws) :: GroupOf(p, ws, c)
  }

  /** The changes of an object, in the order of their first sources. */
  ghost function ListOf(p: Printer, ws: Writes): seq<Group> {
    SortSet(GroupLess, GroupsOf(p, ws))
  }

  /** The clusters of the sources that change the object. */
  function ClustersOf(p: Printer, ws: Writes): set<string> {
    set src, cl | src in ws && Describe(p, ws[src]).Some? && cl in ws[src].source.clusters :: cl
  }

  // ---- The label of one object ----

  function FirstReal(list: seq<Group>): Label {
    if list == [] then OrderOnly
    else if list[0].change.tag != OrderOnly then list[0].change.tag
    else FirstReal(list[1..])
  }

  function LastDelete(list: seq<Group>, otherwise: Label): Label {
    if list == [] then otherwise
    else
      var last := list[|list| - 1].change.tag;
      if Symbol(last) == '-' then last else LastDelete(list[..|list| - 1], otherwise)
  }

  /** The object is labeled order only when every change is, and a delete wins over the others. */
  function TagOf(list: seq<Group>): Label {
    LastDelete(list, FirstReal(list))
  }

  lemma {:induction false} FirstRealMeaning(list: seq<Group>)
    ensures FirstReal(list) == OrderOnly <==> forall g | g in list :: g.change.tag == OrderOnly
  {
    if list != [] {
      FirstRealMeaning(list[1..]);
      assert list == [list[0]] + list[1..];
    }
  }

  lemma {:induction false} LastDeleteMeaning(list: seq<Group>, otherwise: Label)
    ensures var l := LastDelete(list, otherwise);
      if exists g :: g in list && Symbol(g.change.tag) == '-' then Symbol(l) == '-' else l == otherwise
  {
    if list != [] {
      var n := |list| - 1;
      assert list == list[..n] + [list[n]];
      LastDeleteMeaning(list[..n], otherwise);
    }
  }

  // ---- Entries ----

  /** A block of the text, with the key by which blocks are sorted. */
  datatype Entry = Entry(group: string, key: string, text: string)

  predicate EntryLess(a: Entry, b: Entry) {
    StrLess(a.group, b.group) || (a.group == b.group && StrLess(a.key, b.key))
  }

  function LinesText(lines: seq<string>): string {
    if lines == [] then "" else LinesText(lines[..|lines| - 1]) + lines[|lines| - 1] + "\n"
  }

  function GroupsText(list: seq<Group>, several: bool): string {
    if list == [] then ""
    else
      var g := list[|list| - 1];
      GroupsText(list[..|list| - 1], several)
      + (if several then "  # " + LabelText(g.change.tag) + " from " + Join(g.sources, ", ") + "\n" else "")
      + LinesText(g.change.lines)
  }

  function EntryOf(key: ObjectKey, list: seq<Group>, clusters: set<string>): Entry {
    var tag := TagOf(list);
    Entry(
      Join(SortedKeys(clusters), ", "),
      KeyString(key),
      [Symbol(tag)] + " " + KeyString(key) + " (" + LabelText(tag) + ")\n" + GroupsText(list, |list| > 1))
  }

  predicate Changed(p: Printer, ws: Writes) {
    exists src :: src in ws && Describe(p, ws[src]).Some?
  }

  ghost function ObjectEntry(p: Printer, objects: Objects, key: ObjectKey): Entry
    requires key in objects
  {
    EntryOf(key, ListOf(p, objects[key]), ClustersOf(p, objects[key]))
  }

  ghost function ObjectEntries(p: Printer, objects: Objects): set<Entry> {
    set key | key in objects && Changed(p, objects[key]) :: ObjectEntry(p, objects, key)
  }

  function CloudClusters(sources: seq<Source>): set<string> {
    set i, cl | 0 <= i < |sources| && cl in sources[i].clusters :: cl
  }

  function CloudEntry(id: string, sources: seq<Source>): Entry {
    Entry(Join(SortedKeys(CloudClusters(sources)), ", "), "~ " + id, id + "\n")
  }

  function CloudEntries(cloud: Cloud): set<Entry> {
    set id | id in cloud :: CloudEntry(id, cloud[id])
  }

  /** The blocks in order, with a header before the first one of each group of clusters. */
  function Blocks(entries: seq<Entry>, group: string): string {
    if entries == [] then ""
    else
      var e := entries[0];
      (if e.group == group then "" else "\n# cluster " + (if e.group == "" then "(none)" else e.group) + "\n")
      + e.text + Blocks(entries[1..], e.group)
  }

  // ---- Results ----

  predicate Unfinished(r: Result) {
    r.status == Pending || r.status == Failed
  }

  predicate ResultLess(a: Result, b: Result) {
    StrLess(a.source.String(), b.source.String())
  }

  function UnfinishedOf(results: map<string, Result>): set<Result> {
    set name | name in results && Unfinished(results[name]) :: results[name]
  }

  function StatusText(status: Status): string {
    match status
    case OK => "ok"
    case Skipped => "skipped"
    case Pending => "pending"
    case Failed => "error"
  }

  function ResultLines(rs: seq<Result>): string {
    if rs == [] then ""
    else
      var r := rs[|rs| - 1];
      ResultLines(rs[..|rs| - 1]) + "! " + StatusText(r.status) + " " + r.source.String() + ": " + r.reason + "\n"
  }

  // ---- Summary ----

  datatype Summary = Summary(create: nat, update: nat, reorder: nat, delete: nat, cloud: nat,
                             ok: nat, skipped: nat, pending: nat, errors: nat) {
    function ExitCode(): nat {
      if errors > 0 || pending > 0 then 1 else if create + update + delete + cloud > 0 then 2 else 0
    }
  }

  /** The changed objects among `keys`, by the symbol of their label. */
  ghost function WithSymbol(p: Printer, objects: Objects, keys: set<ObjectKey>, symbol: char): set<ObjectKey> {
    set key | key in keys && key in objects && Changed(p, objects[key])
      && Symbol(TagOf(ListOf(p, objects[key]))) == symbol
  }

  ghost function Reordered(p: Printer, objects: Objects, keys: set<ObjectKey>): set<ObjectKey> {
    set key | key in keys && key in objects && Changed(p, objects[key]) && TagOf(ListOf(p, objects[key])) == OrderOnly
  }

  function WithStatus(results: map<string, Result>, names: set<string>, status: Status): set<string> {
    set name | name in names && name in results && results[name].status == status
  }

  ghost function SummaryOf(p: Printer, s: State): Summary {
    Summary(
      |WithSymbol(p, s.objects, s.objects.Keys, '+')|,
      |WithSymbol(p, s.objects, s.objects.Keys, '~')|,
      |Reordered(p, s.objects, s.objects.Keys)|,
      |WithSymbol(p, s.objects, s.objects.Keys, '-')|,
      |s.cloud|,
      |WithStatus(s.results, s.results.Keys, OK)|,
      |WithStatus(s.results, s.results.Keys, Skipped)|,
      |WithStatus(s.results, s.results.Keys, Pending)|,
      |WithStatus(s.results, s.results.Keys, Failed)|)
  }

  // ---- The text ----

  function Decimal(n: nat): string {
    if n < 10 then ['0' + n as char] else Decimal(n / 10) + ['0' + (n % 10) as char]
  }

  function Concat(parts: seq<string>): string {
    if parts == [] then "" else parts[0] + Concat(parts[1..])
  }

  function Footer(s: Summary): string {
    Concat(["\nPlan: ",
            Decimal(s.create), " to create, ",
            Decimal(s.update), " to update (", Decimal(s.reorder), " only reorder lists), ",
            Decimal(s.delete), " to delete, ",
            Decimal(s.cloud), " AWS/Spot changes. Results: ",
            Decimal(s.ok), " ok, ",
            Decimal(s.skipped), " skipped (paused), ",
            Decimal(s.pending), " pending, ",
            Decimal(s.errors), " errors.\n"])
  }

  function TrimNewline(s: string): string {
    if "\n" <= s then s[1..] else s
  }

  function Assemble(blocks: string, results: string, nothing: bool, s: Summary): string {
    var b := if results == "" then blocks else blocks + "\n# Not complete\n" + results;
    TrimNewline((if nothing then b + "\nNo changes.\n" else b) + Footer(s))
  }

  ghost function PlanText(p: Printer, s: State): string {
    var entries := SortSet(EntryLess, ObjectEntries(p, s.objects) + CloudEntries(s.cloud));
    var unfinished := SortSet(ResultLess, UnfinishedOf(s.results));
    Assemble(Blocks(entries, "\0"), ResultLines(unfinished), entries == [] && unfinished == [], SummaryOf(p, s))
  }

  // ---- What the summary means ----

  lemma ListOfMeaning(p: Printer, ws: Writes)
    ensures forall g | g in ListOf(p, ws) :: exists src :: Makes(p, ws, src, g.change)
    ensures forall src | src in ws && Describe(p, ws[src]).Some? ::
      exists g :: g in ListOf(p, ws) && Makes(p, ws, src, g.change)
  {
    forall g | g in ListOf(p, ws) ensures exists src :: Makes(p, ws, src, g.change) {
      assert g in GroupsOf(p, ws);
      assert g.change in ChangesOf(p, ws);
      var src :| src in ws && Describe(p, ws[src]).Some? && Describe(p, ws[src]).value == g.change;
      assert Makes(p, ws, src, g.change);
    }
    forall src | src in ws && Describe(p, ws[src]).Some?
      ensures exists g :: g in ListOf(p, ws) && Makes(p, ws, src, g.change)
    {
      var g := GroupOf(p, ws, Describe(p, ws[src]).value);
      assert g.change in ChangesOf(p, ws);
      assert g in GroupsOf(p, ws);
      assert g in ListOf(p, ws) && Makes(p, ws, src, g.change);
    }
  }

  /** Some source's write is described with this label. */
  ghost predicate SomeTag(p: Printer, ws: Writes, tag: Label) {
    exists src :: src in ws && Describe(p, ws[src]).Some? && Describe(p, ws[src]).value.tag == tag
  }

  ghost predicate ListHas(list: seq<Group>, tag: Label) {
    exists g :: g in list && g.change.tag == tag
  }

  lemma ListHasTag(p: Printer, ws: Writes, tag: Label)
    ensures ListHas(ListOf(p, ws), tag) <==> SomeTag(p, ws, tag)
  {
    var list := ListOf(p, ws);
    ListOfMeaning(p, ws);
    hide Describe, ListOf;
    if SomeTag(p, ws, tag) {
      var src :| src in ws && Describe(p, ws[src]).Some? && Describe(p, ws[src]).value.tag == tag;
      var g :| g in list && Makes(p, ws, src, g.change);
    }
    if ListHas(list, tag) {
      var g :| g in list && g.change.tag == tag;
      var src :| Makes(p, ws, src, g.change);
    }
  }

  lemma ReleasesText()
    ensures LabelText(Releases) == "delete" + ", last finalizer removed"
  {
  }

  lemma LabelStarts(tag: Label)
    ensures LabelText(tag) != [] && LabelText(tag)[0] == (
      if tag == Creates then 'c' else if tag == Deletes || tag == Releases then 'd' else 'u')
  {
  }

  lemma SymbolMeaning(tag: Label)
    ensures Symbol(tag) == (if tag == Creates then '+' else if tag == Deletes || tag == Releases then '-' else '~')
  {
    LabelStarts(tag);
    assert "create"[0] == 'c' && "delete"[0] == 'd';
    var text := LabelText(tag);
    if tag == Creates || tag == Deletes {
      assert text == "create" || text == "delete";
    } else {
      ReleasesText();
      hide LabelText;
    }
  }

  lemma TagMeaning(list: seq<Group>)
    ensures TagOf(list) == OrderOnly <==> forall tag | ListHas(list, tag) :: tag == OrderOnly
    ensures Symbol(TagOf(list)) == '-' <==> ListHas(list, Deletes) || ListHas(list, Releases)
  {
    FirstRealMeaning(list);
    LastDeleteMeaning(list, FirstReal(list));
    SymbolMeaning(TagOf(list));
    SymbolMeaning(FirstReal(list));
    FirstRealListed(list);
    hide FirstReal, LastDelete, Symbol;
    forall g | g in list
      ensures ListHas(list, g.change.tag)
      ensures Symbol(g.change.tag) == '-' <==> g.change.tag == Deletes || g.change.tag == Releases
    {
      SymbolMeaning(g.change.tag);
    }
    if ListHas(list, Deletes) || ListHas(list, Releases) {
      var g :| g in list && (g.change.tag == Deletes || g.change.tag == Releases);
      SymbolMeaning(g.change.tag);
    }
    if FirstReal(list) != OrderOnly {
      var g :| g in list && g.change.tag == FirstReal(list);
    }
    SymbolMeaning(OrderOnly);
  }

  lemma {:induction false} FirstRealListed(list: seq<Group>)
    ensures FirstReal(list) == OrderOnly || ListHas(list, FirstReal(list))
  {
    if list != [] {
      FirstRealListed(list[1..]);
      assert list[0] in list;
    }
  }

  /** An object is "order only" exactly when all its changes are, and a delete exactly when some change is. */
  lemma ObjectLabel(p: Printer, ws: Writes)
    ensures TagOf(ListOf(p, ws)) == OrderOnly <==> forall tag | SomeTag(p, ws, tag) :: tag == OrderOnly
    ensures Symbol(TagOf(ListOf(p, ws))) == '-' <==> SomeTag(p, ws, Deletes) || SomeTag(p, ws, Releases)
  {
    forall tag ensures ListHas(ListOf(p, ws), tag) <==> SomeTag(p, ws, tag) {
      ListHasTag(p, ws, tag);
    }
    hide SomeTag, ListHas, ListOf;
    TagMeaning(ListOf(p, ws));
  }

  /** The changed objects. */
  function ChangedObjects(p: Printer, objects: Objects): set<ObjectKey> {
    set key | key in objects && Changed(p, objects[key])
  }

  lemma SymbolsPartition(p: Printer, objects: Objects)
    ensures var keys := objects.Keys;
      ChangedObjects(p, objects)
        == WithSymbol(p, objects, keys, '+') + WithSymbol(p, objects, keys, '~') + WithSymbol(p, objects, keys, '-')
    ensures var keys := objects.Keys;
      WithSymbol(p, objects, keys, '+') !! WithSymbol(p, objects, keys, '~') !! WithSymbol(p, objects, keys, '-')
    ensures Reordered(p, objects, objects.Keys) <= WithSymbol(p, objects, objects.Keys, '~')
  {
    hide Describe, ListOf, TagOf, Symbol, Changed;
    SymbolMeaning(OrderOnly);
    forall key | key in objects
      ensures var x := Symbol(TagOf(ListOf(p, objects[key]))); x == '+' || x == '~' || x == '-'
    {
      SymbolMeaning(TagOf(ListOf(p, objects[key])));
    }
  }

  lemma StatusesPartition(results: map<string, Result>)
    ensures var ns := results.Keys;
      ns == WithStatus(results, ns, OK) + WithStatus(results, ns, Skipped) + WithStatus(results, ns, Pending)
        + WithStatus(results, ns, Failed)
    ensures var ns := results.Keys;
      WithStatus(results, ns, OK) !! WithStatus(results, ns, Skipped) !! WithStatus(results, ns, Pending)
        !! WithStatus(results, ns, Failed)
  {
  }

  /** Every changed object counts once, as a create, an update or a delete, and every result once. */
  lemma SummaryConserves(p: Printer, s: State)
    ensures var r := SummaryOf(p, s);
      && r.create + r.update + r.delete == |ChangedObjects(p, s.objects)|
      && r.reorder <= r.update
      && r.ok + r.skipped + r.pending + r.errors == |s.results|
  {
    hide WithSymbol, Reordered, WithStatus, ChangedObjects;
    SymbolsPartition(p, s.objects);
    StatusesPartition(s.results);
    Subset(Reordered(p, s.objects, s.objects.Keys), WithSymbol(p, s.objects, s.objects.Keys, '~'));
  }

  lemma {:induction false} Subset<T>(a: set<T>, b: set<T>)
    requires a <= b
    ensures |a| <= |b|
  {
    assert b == a + (b - a);
  }
}
