/** What the text of a plan shows, by the writes, the changes to AWS and Spot, and the results that it
    holds: every changed object with its symbol, its clusters and its lines, every reconcile that is
    not complete, and the counts; and in which order. */
module Printed {
  import opened Ordering
  import opened Json
  import opened Records
  import opened Description
  import opened Report
  import opened Writer
  import opened Symbols

  // ---- Parts of a text ----

  ghost predicate Within(part: string, text: string) {
    exists a, b :: text == a + part + b
  }

  lemma WithinJoin(part: string, x: string, text: string, y: string)
    requires Within(part, text)
    ensures Within(part, x + text + y)
  {
    var a, b :| text == a + part + b;
    assert x + text + y == (x + a) + part + (b + y);
  }

  lemma WithinTrans(part: string, middle: string, text: string)
    requires Within(part, middle) && Within(middle, text)
    ensures Within(part, text)
  {
    var a, b :| text == a + middle + b;
    WithinJoin(part, a, middle, b);
  }

  lemma {:induction false} BlockWithin(entries: seq<Entry>, group: string, e: Entry)
    requires e in entries
    ensures Within(e.text, Blocks(entries, group))
  {
    var first, rest := entries[0], entries[1..];
    assert entries == [first] + rest;
    var head := if first.group == group then ""
                else "\n# cluster " + (if first.group == "" then "(none)" else first.group) + "\n";
    assert Blocks(entries, group) == head + first.text + Blocks(rest, first.group);
    hide Blocks, Within;
    if e == first {
      WithinMiddle(head, e.text, Blocks(rest, e.group));
    } else {
      BlockWithin(rest, first.group, e);
      WithinJoin(e.text, head + first.text, Blocks(rest, first.group), "");
      assert Blocks(entries, group) + "" == Blocks(entries, group);
    }
  }

  lemma TrimKeeps(part: string, text: string)
    requires part != "" && part[0] != '\n' && Within(part, text)
    ensures Within(part, TrimNewline(text))
  {
    var a, b :| text == a + part + b;
    if "\n" <= text {
      assert text[0] == '\n';
      assert a != "";
      assert text[1..] == a[1..] + part + b;
    }
  }

  lemma AssembleKeeps(part: string, blocks: string, results: string, nothing: bool, s: Summary)
    requires part != "" && part[0] != '\n' && (Within(part, blocks) || Within(part, results))
    ensures Within(part, Assemble(blocks, results, nothing, s))
  {
    hide Footer;
    var b := if results == "" then blocks else blocks + "\n# Not complete\n" + results;
    if Within(part, blocks) {
      WithinJoin(part, "", blocks, if results == "" then "" else "\n# Not complete\n" + results);
      assert b == "" + blocks + if results == "" then "" else "\n# Not complete\n" + results;
    } else {
      assert results != "" by { var x, y :| results == x + part + y; }
      WithinJoin(part, blocks + "\n# Not complete\n", results, "");
      assert b == blocks + "\n# Not complete\n" + results + "";
    }
    var all := if nothing then b + "\nNo changes.\n" else b;
    WithinJoin(part, "", b, (if nothing then "\nNo changes.\n" else "") + Footer(s));
    assert all + Footer(s) == "" + b + ((if nothing then "\nNo changes.\n" else "") + Footer(s));
    TrimKeeps(part, all + Footer(s));
  }

  // ---- The block of an object ----

  function ObjectName(key: ObjectKey): string {
    key.kind + (if key.group == "" then "" else "." + key.group) + " "
    + (if key.namespace == "" then "" else key.namespace + "/") + key.name
  }

  lemma KeyStringIs(key: ObjectKey)
    ensures KeyString(key) == ObjectName(key)
  {
    assert KindString(key) == key.kind + if key.group == "" then "" else "." + key.group;
    if key.namespace != "" {
      Assoc(KindString(key) + " ", key.namespace + "/", key.name);
    }
  }

  /** What is written behind the name. */
  ghost function WhatFor(ws: Writes): string {
    if Removed(ws) then "(delete" else if Made(ws) then "(create)\n" else if Altered(ws) then "(update)\n"
    else "(update, order only)\n"
  }

  /** How the block of a changed object begins. */
  ghost function Head(ws: Writes, key: ObjectKey): string {
    [SymbolFor(ws)] + " " + ObjectName(key) + " " + WhatFor(ws)
  }

  lemma TagFor(p: Printer, ws: Writes)
    requires Touched(ws)
    ensures var tag := TagOf(ListOf(p, ws));
      if Removed(ws) then tag == Deletes || tag == Releases
      else tag == if Made(ws) then Creates else if Altered(ws) then Updates else OrderOnly
  {
    SymbolOf(p, ws);
    SymbolMeaning(TagOf(ListOf(p, ws)));
    MadeAlters(ws);
    hide Removed, Made, Altered, Touched, ListOf, TagOf, Symbol;
  }

  lemma DeleteParts()
    ensures "(" + "delete" + ")\n" == "(delete" + ")\n"
    ensures "(" + ("delete" + ", last finalizer removed") + ")\n" == "(delete" + (", last finalizer removed" + ")\n")
  {
  }

  lemma LabelFor(p: Printer, ws: Writes) returns (rest: string)
    requires Touched(ws)
    ensures "(" + LabelText(TagOf(ListOf(p, ws))) + ")\n" == WhatFor(ws) + rest
  {
    TagFor(p, ws);
    var tag := TagOf(ListOf(p, ws));
    hide Removed, Made, Altered, Touched, ListOf, TagOf;
    DeleteParts();
    if tag == Deletes {
      rest := ")\n";
    } else if tag == Releases {
      ReleasesText();
      rest := ", last finalizer removed" + ")\n";
      hide LabelText;
    } else {
      rest := "";
      assert WhatFor(ws) + "" == WhatFor(ws);
      Plain(tag);
      hide LabelText;
    }
  }

  lemma Plain(tag: Label)
    ensures tag == Creates ==> "(" + LabelText(tag) + ")\n" == "(create)\n"
    ensures tag == Updates ==> "(" + LabelText(tag) + ")\n" == "(update)\n"
    ensures tag == OrderOnly ==> "(" + LabelText(tag) + ")\n" == "(update, order only)\n"
  {
  }

  lemma Rejoin(a: string, b: string, c: string, d: string, e: string, f: string, g: string)
    requires b + c + d == e + f
    ensures a + b + c + d + g == a + e + (f + g)
  {
    Assoc(a, b, c);
    Assoc(a, b + c, d);
    Assoc(a, e, f);
    Assoc(a + e, f, g);
  }

  lemma HeadWithin(p: Printer, objects: Objects, key: ObjectKey)
    requires key in objects && Touched(objects[key])
    ensures Within(Head(objects[key], key), ObjectEntry(p, objects, key).text)
  {
    var list := ListOf(p, objects[key]);
    var tag := TagOf(list);
    var start, body := [Symbol(tag)] + " " + KeyString(key) + " ", GroupsText(list, |list| > 1);
    SymbolOf(p, objects[key]);
    KeyStringIs(key);
    var rest := LabelFor(p, objects[key]);
    hide KeyString, ObjectName, LabelText, GroupsText, TagOf, ListOf, Symbol, Touched, Removed, Made, Altered, WhatFor;
    Assoc([Symbol(tag)] + " " + KeyString(key), " ", "(");
    assert " (" == " " + "(";
    assert ObjectEntry(p, objects, key).text == start + "(" + LabelText(tag) + ")\n" + body;
    Rejoin(start, "(", LabelText(tag), ")\n", WhatFor(objects[key]), rest, body);
    StartsWithin(Head(objects[key], key), rest + body);
  }

  lemma StartsWithin(a: string, b: string)
    ensures Within(a, a + b)
  {
    assert a + b == [] + a + b;
  }

  lemma EndWithin(a: string, b: string)
    ensures Within(b, a + b)
  {
    assert a + b == a + b + [];
  }

  lemma {:induction false} LineWithinLines(lines: seq<string>, i: nat)
    requires i < |lines|
    ensures Within(lines[i] + "\n", LinesText(lines))
  {
    var n := |lines| - 1;
    var before, last := LinesText(lines[..n]), lines[n];
    Assoc(before, last, "\n");
    assert LinesText(lines) == before + (last + "\n");
    if i == n {
      EndWithin(before, last + "\n");
    } else {
      LineWithinLines(lines[..n], i);
      WithinJoin(lines[i] + "\n", "", before, last + "\n");
      assert "" + before == before;
    }
  }

  /** The line that tells the sources of a change, when an object has several changes. */
  function Note(g: Group): string {
    "  # " + LabelText(g.change.tag) + " from " + Join(g.sources, ", ") + "\n"
  }

  lemma {:induction false} GroupWithin(list: seq<Group>, several: bool, g: Group)
    requires g in list
    ensures Within(LinesText(g.change.lines), GroupsText(list, several))
    ensures several ==> Within(Note(g), GroupsText(list, several))
  {
    var front, last := list[..|list| - 1], list[|list| - 1];
    assert list == front + [last];
    var before, lines := GroupsText(front, several), LinesText(last.change.lines);
    var note := if several then Note(last) else "";
    assert GroupsText(list, several) == before + note + lines;
    hide GroupsText, LinesText, Note;
    if last == g {
      EndWithin(before + note, lines);
      WithinMiddle(before, note, lines);
    } else {
      GroupWithin(front, several, g);
      Assoc(before, note, lines);
      assert "" + before == before;
      WithinJoin(LinesText(g.change.lines), "", before, note + lines);
      if several {
        WithinJoin(Note(g), "", before, note + lines);
      }
    }
  }

  lemma WithinMiddle(a: string, b: string, c: string)
    ensures Within(b, a + b + c)
  {
  }

  lemma GroupsWithin(key: ObjectKey, list: seq<Group>, clusters: set<string>)
    ensures Within(GroupsText(list, |list| > 1), EntryOf(key, list, clusters).text)
  {
    var tag := TagOf(list);
    hide KeyString, LabelText, GroupsText, TagOf, Symbol, SortedKeys, Join;
    EndWithin([Symbol(tag)] + " " + KeyString(key) + " (" + LabelText(tag) + ")\n", GroupsText(list, |list| > 1));
  }

  /** The clusters of the sources that change an object. */
  ghost function ChangingClusters(ws: Writes): set<string> {
    set src, cl | src in ws && Touches(ws[src]) && cl in ws[src].source.clusters :: cl
  }

  lemma ChangingClustersIs(p: Printer, ws: Writes)
    ensures ClustersOf(p, ws) == ChangingClusters(ws)
  {
    forall src | src in ws ensures Touches(ws[src]) <==> Describe(p, ws[src]).Some? {
      Labels(p, ws[src]);
    }
    hide Describe, Touches;
  }

  /** Their names, as the text lists them. */
  ghost function ClusterNames(ws: Writes): string {
    Join(SortedKeys(ChangingClusters(ws)), ", ")
  }

  /** The line above the blocks of the same clusters. */
  function ClusterLine(group: string): string {
    "# cluster " + (if group == "" then "(none)" else group) + "\n"
  }

  lemma {:induction false} ClusterWithin(entries: seq<Entry>, group: string, e: Entry)
    requires e in entries && e.group != group
    ensures Within(ClusterLine(e.group), Blocks(entries, group))
  {
    var first, rest := entries[0], entries[1..];
    assert entries == [first] + rest;
    var head := if first.group == group then ""
                else "\n# cluster " + (if first.group == "" then "(none)" else first.group) + "\n";
    var after := Blocks(rest, first.group);
    assert Blocks(entries, group) == head + first.text + after;
    hide Blocks;
    if e.group == first.group {
      assert head == "\n" + ClusterLine(e.group);
      EndWithin("\n", ClusterLine(e.group));
      WithinJoin(ClusterLine(e.group), "", head, first.text + after);
      Assoc(head, first.text, after);
      assert "" + head == head;
    } else {
      ClusterWithin(rest, first.group, e);
      WithinJoin(ClusterLine(e.group), head + first.text, after, "");
      assert Blocks(entries, group) + "" == Blocks(entries, group);
    }
  }

  // ---- What the text shows ----

  lemma ChangedEntry(p: Printer, s: State, key: ObjectKey, part: string)
    requires key in s.objects && Touched(s.objects[key])
    requires part != "" && part[0] != '\n' && Within(part, ObjectEntry(p, s.objects, key).text)
    ensures Within(part, PlanText(p, s))
  {
    TouchedIs(p, s.objects[key]);
    var e := ObjectEntry(p, s.objects, key);
    var entries := SortSet(EntryLess, ObjectEntries(p, s.objects) + CloudEntries(s.cloud));
    var unfinished := SortSet(ResultLess, UnfinishedOf(s.results));
    PlanTextIs(p, s, entries, unfinished);
    assert e in ObjectEntries(p, s.objects);
    assert e in entries;
    hide *;
    BlockWithin(entries, "\0", e);
    WithinTrans(part, e.text, Blocks(entries, "\0"));
    AssembleKeeps(part, Blocks(entries, "\0"), ResultLines(unfinished), entries == [] && unfinished == [],
                  SummaryOf(p, s));
  }

  /** Each changed object is printed with its symbol, its name and what happens to it. */
  lemma TextShowsObject(p: Printer, s: State, key: ObjectKey)
    requires key in s.objects && Touched(s.objects[key])
    ensures Within(Head(s.objects[key], key), PlanText(p, s))
  {
    HeadWithin(p, s.objects, key);
    assert Head(s.objects[key], key)[0] == SymbolFor(s.objects[key]);
    hide Head, WhatFor, Within, PlanText, ObjectEntry, Touched, Removed, Made;
    ChangedEntry(p, s, key, Head(s.objects[key], key));
  }

  /** The change of a write has a line `i`, which is not empty. */
  predicate LineOf(p: Printer, w: Write, i: nat) {
    Describe(p, w).Some? && i < |Describe(p, w).value.lines| && Describe(p, w).value.lines[i] != ""
  }

  /** Each line of a change that a source makes is printed. */
  lemma TextShowsLine(p: Printer, s: State, key: ObjectKey, src: string, i: nat)
    requires key in s.objects && src in s.objects[key] && LineOf(p, s.objects[key][src], i)
    ensures Within(Describe(p, s.objects[key][src]).value.lines[i] + "\n", PlanText(p, s))
  {
    var ws, c := s.objects[key], Describe(p, s.objects[key][src]).value;
    Labels(p, ws[src]);
    DescribePrintable(p, ws[src]);
    ListOfMeaning(p, ws);
    var g :| g in ListOf(p, ws) && Makes(p, ws, src, g.change);
    var list := ListOf(p, ws);
    assert Touched(ws) && OneLine(c.lines[i]) && g.change == c;
    hide *;
    LineWithinLines(c.lines, i);
    GroupWithin(list, |list| > 1, g);
    GroupsWithin(key, list, ClustersOf(p, ws));
    EntryIs(p, s.objects, key);
    WithinTrans(c.lines[i] + "\n", LinesText(c.lines), GroupsText(list, |list| > 1));
    WithinTrans(c.lines[i] + "\n", GroupsText(list, |list| > 1), ObjectEntry(p, s.objects, key).text);
    NotNewline(c.lines[i]);
    ChangedEntry(p, s, key, c.lines[i] + "\n");
  }

  lemma NotNewline(line: string)
    requires OneLine(line) && line != ""
    ensures line + "\n" != "" && (line + "\n")[0] != '\n'
  {
    assert line[0] in line;
  }

  lemma EntryIs(p: Printer, objects: Objects, key: ObjectKey)
    requires key in objects
    ensures ObjectEntry(p, objects, key) == EntryOf(key, ListOf(p, objects[key]), ClustersOf(p, objects[key]))
  {
  }

  /** With several changes of an object, the sources of each are printed. */
  lemma TextShowsSources(p: Printer, s: State, key: ObjectKey, g: Group)
    requires key in s.objects && g in ListOf(p, s.objects[key]) && |ListOf(p, s.objects[key])| > 1
    ensures Within(Note(g), PlanText(p, s))
    ensures forall src :: src in g.sources <==>
      src in s.objects[key] && Describe(p, s.objects[key][src]) == Some(g.change)
  {
    var ws, list := s.objects[key], ListOf(p, s.objects[key]);
    assert g in GroupsOf(p, ws);
    FirstMakes(p, ws, g);
    Labels(p, ws[First(g)]);
    assert Touched(ws);
    assert Note(g) != "" && Note(g)[0] == ' ';
    hide Describe, ListOf, Touched, Note, Within, PlanText, EntryOf, GroupsText;
    GroupWithin(list, true, g);
    GroupsWithin(key, list, ClustersOf(p, ws));
    EntryIs(p, s.objects, key);
    WithinTrans(Note(g), GroupsText(list, true), ObjectEntry(p, s.objects, key).text);
    ChangedEntry(p, s, key, Note(g));
  }

  /** The clusters of each changed object are printed above it. */
  lemma TextShowsClusters(p: Printer, s: State, key: ObjectKey)
    requires key in s.objects && Touched(s.objects[key])
    requires ClusterNames(s.objects[key]) != "\0"
    ensures Within(ClusterLine(ClusterNames(s.objects[key])), PlanText(p, s))
  {
    TouchedIs(p, s.objects[key]);
    ChangingClustersIs(p, s.objects[key]);
    var e := ObjectEntry(p, s.objects, key);
    var entries := SortSet(EntryLess, ObjectEntries(p, s.objects) + CloudEntries(s.cloud));
    var unfinished := SortSet(ResultLess, UnfinishedOf(s.results));
    PlanTextIs(p, s, entries, unfinished);
    assert e in ObjectEntries(p, s.objects) && e.group == ClusterNames(s.objects[key]);
    assert e in entries;
    assert ClusterLine(e.group) != "" && ClusterLine(e.group)[0] == '#';
    hide *;
    ClusterWithin(entries, "\0", e);
    AssembleKeeps(ClusterLine(e.group), Blocks(entries, "\0"), ResultLines(unfinished),
                  entries == [] && unfinished == [], SummaryOf(p, s));
  }

  /** Each change to AWS or Spot is printed, unless its text begins with the newline that the plan trims. */
  lemma TextShowsCloud(p: Printer, s: State, id: string)
    requires id in s.cloud && id != "" && id[0] != '\n'
    ensures Within(id, PlanText(p, s))
  {
    var e := CloudEntry(id, s.cloud[id]);
    assert e.text == [] + id + "\n";
    assert Within(id, e.text);
    var entries := SortSet(EntryLess, ObjectEntries(p, s.objects) + CloudEntries(s.cloud));
    hide CloudEntry, Blocks, Assemble, Within, UnfinishedOf, ResultLines, ObjectEntries;
    assert e in CloudEntries(s.cloud);
    assert e in entries;
    BlockWithin(entries, "\0", e);
    WithinTrans(id, e.text, Blocks(entries, "\0"));
    var unfinished := SortSet(ResultLess, UnfinishedOf(s.results));
    AssembleKeeps(id, Blocks(entries, "\0"), ResultLines(unfinished), entries == [] && unfinished == [],
                  SummaryOf(p, s));
  }

  /** The line of a reconcile that is not complete. */
  function ResultLine(r: Result): string {
    "! " + (if r.status == Pending then "pending" else "error") + " " + r.source.String() + ": " + r.reason + "\n"
  }

  /** Longer text at the front is the same text behind it. */
  lemma Regroup(a: string, b: string, c: string, d: string, e: string, f: string, g: string, h: string)
    ensures a + b + c + d + e + f + g + h == a + (b + c + d + e + f + g + h)
  {
    Assoc(a, b, c);
    Assoc(a, b + c, d);
    Assoc(a, b + c + d, e);
    Assoc(a, b + c + d + e, f);
    Assoc(a, b + c + d + e + f, g);
    Assoc(a, b + c + d + e + f + g, h);
  }

  lemma LastLine(rs: seq<Result>)
    requires rs != [] && (rs[|rs| - 1].status == Pending || rs[|rs| - 1].status == Failed)
    ensures ResultLines(rs) == ResultLines(rs[..|rs| - 1]) + ResultLine(rs[|rs| - 1])
  {
    var x := rs[|rs| - 1];
    var status := StatusText(x.status);
    assert status == if x.status == Pending then "pending" else "error";
    Regroup(ResultLines(rs[..|rs| - 1]), "! ", status, " ", x.source.String(), ": ", x.reason, "\n");
    hide StatusText;
  }

  lemma {:induction false} LineWithin(rs: seq<Result>, r: Result)
    requires r in rs && forall x | x in rs :: x.status == Pending || x.status == Failed
    ensures Within(ResultLine(r), ResultLines(rs))
  {
    var p, x := rs[..|rs| - 1], rs[|rs| - 1];
    assert rs == p + [x];
    LastLine(rs);
    hide ResultLines, ResultLine, Within;
    if x == r {
      EndWithin(ResultLines(p), ResultLine(x));
    } else {
      LineWithin(p, r);
      WithinJoin(ResultLine(r), "", ResultLines(p), ResultLine(x));
      assert "" + ResultLines(p) == ResultLines(p);
    }
  }

  /** Each reconcile that is pending or failed is printed with its reason. */
  lemma TextShowsResult(p: Printer, s: State, name: string)
    requires name in s.results && (s.results[name].status == Pending || s.results[name].status == Failed)
    ensures Within(ResultLine(s.results[name]), PlanText(p, s))
  {
    var r := s.results[name];
    assert r in UnfinishedOf(s.results);
    var unfinished := SortSet(ResultLess, UnfinishedOf(s.results));
    var entries := SortSet(EntryLess, ObjectEntries(p, s.objects) + CloudEntries(s.cloud));
    assert ResultLine(r) != "" && ResultLine(r)[0] == '!';
    hide Blocks, Assemble, Within, UnfinishedOf, ResultLines, ResultLine, CloudEntries, ObjectEntries, StatusText;
    LineWithin(unfinished, r);
    AssembleKeeps(ResultLine(r), Blocks(entries, "\0"), ResultLines(unfinished), entries == [] && unfinished == [],
                  SummaryOf(p, s));
  }

  // ---- The numbers in the text ----

  predicate Digits(s: string) {
    forall i | 0 <= i < |s| :: '0' <= s[i] <= '9'
  }

  /** The number that digits stand for. */
  function NumberOf(s: string): nat
    requires Digits(s)
  {
    if s == "" then 0 else NumberOf(s[..|s| - 1]) * 10 + (s[|s| - 1] - '0') as nat
  }

  lemma {:induction false} DecimalReads(n: nat)
    ensures Digits(Decimal(n)) && NumberOf(Decimal(n)) == n && (Decimal(n)[0] == '0' <==> n == 0)
  {
    var s := Decimal(n);
    if n >= 10 {
      DecimalReads(n / 10);
      assert s[..|s| - 1] == Decimal(n / 10);
      assert NumberOf(s) == NumberOf(s[..|s| - 1]) * 10 + n % 10;
    } else {
      assert s[..|s| - 1] == "";
    }
  }

  lemma {:induction false} PairWithin(parts: seq<string>, i: nat)
    requires i + 1 < |parts|
    ensures Within(parts[i] + parts[i + 1], Concat(parts))
  {
    if i == 0 {
      var rest := Concat(parts[1..][1..]);
      assert Concat(parts) == [] + (parts[0] + parts[1]) + rest;
    } else {
      PairWithin(parts[1..], i - 1);
      WithinJoin(parts[i] + parts[i + 1], parts[0], Concat(parts[1..]), "");
      assert Concat(parts) == parts[0] + Concat(parts[1..]) + "";
    }
  }

  /** Each count of the summary is in the text, before its name. */
  ghost predicate CountsShown(text: string, s: Summary) {
    && Within(Decimal(s.create) + " to create, ", text) && Within(Decimal(s.update) + " to update (", text)
    && Within(Decimal(s.reorder) + " only reorder lists), ", text) && Within(Decimal(s.delete) + " to delete, ", text)
    && Within(Decimal(s.cloud) + " AWS/Spot changes. Results: ", text) && Within(Decimal(s.ok) + " ok, ", text)
    && Within(Decimal(s.skipped) + " skipped (paused), ", text) && Within(Decimal(s.pending) + " pending, ", text)
    && Within(Decimal(s.errors) + " errors.\n", text)
  }

  lemma FooterCounts(s: Summary)
    ensures CountsShown(Footer(s), s)
  {
    var parts := ["\nPlan: ",
            Decimal(s.create), " to create, ",
            Decimal(s.update), " to update (", Decimal(s.reorder), " only reorder lists), ",
            Decimal(s.delete), " to delete, ",
            Decimal(s.cloud), " AWS/Spot changes. Results: ",
            Decimal(s.ok), " ok, ",
            Decimal(s.skipped), " skipped (paused), ",
            Decimal(s.pending), " pending, ",
            Decimal(s.errors), " errors.\n"];
    assert Footer(s) == Concat(parts);
    hide Concat, Footer, Decimal, Within;
    forall i: nat | i + 1 < |parts| ensures Within(parts[i] + parts[i + 1], Concat(parts)) {
      PairWithin(parts, i);
    }
    assert Within(parts[1] + parts[2], Concat(parts)) && Within(parts[3] + parts[4], Concat(parts));
    assert Within(parts[5] + parts[6], Concat(parts)) && Within(parts[7] + parts[8], Concat(parts));
    assert Within(parts[9] + parts[10], Concat(parts)) && Within(parts[11] + parts[12], Concat(parts));
    assert Within(parts[13] + parts[14], Concat(parts)) && Within(parts[15] + parts[16], Concat(parts));
    assert Within(parts[17] + parts[18], Concat(parts));
  }

  lemma AssembleCounts(part: string, blocks: string, results: string, nothing: bool, s: Summary)
    requires part != "" && part[0] != '\n' && Within(part, Footer(s))
    ensures Within(part, Assemble(blocks, results, nothing, s))
  {
    hide Footer;
    var b := if results == "" then blocks else blocks + "\n# Not complete\n" + results;
    var all := if nothing then b + "\nNo changes.\n" else b;
    WithinJoin(part, all, Footer(s), "");
    assert all + Footer(s) == all + Footer(s) + "";
    TrimKeeps(part, all + Footer(s));
  }

  lemma DigitFirst(n: nat, name: string)
    ensures Decimal(n) + name != "" && (Decimal(n) + name)[0] != '\n'
  {
    DecimalReads(n);
  }

  lemma TextShowsCounts(p: Printer, s: State)
    ensures CountsShown(PlanText(p, s), SummaryOf(p, s))
  {
    var sum := SummaryOf(p, s);
    FooterCounts(sum);
    var entries := SortSet(EntryLess, ObjectEntries(p, s.objects) + CloudEntries(s.cloud));
    var unfinished := SortSet(ResultLess, UnfinishedOf(s.results));
    PlanTextIs(p, s, entries, unfinished);
    hide *;
    CountsKept(Footer(sum), Blocks(entries, "\0"), ResultLines(unfinished), entries == [] && unfinished == [], sum);
  }

  lemma CountsKept(footer: string, blocks: string, results: string, nothing: bool, s: Summary)
    requires footer == Footer(s) && CountsShown(footer, s)
    ensures CountsShown(Assemble(blocks, results, nothing, s), s)
  {
    hide Footer, Within, Decimal, Assemble;
    CountKept(s.create, " to create, ", blocks, results, nothing, s);
    CountKept(s.update, " to update (", blocks, results, nothing, s);
    CountKept(s.reorder, " only reorder lists), ", blocks, results, nothing, s);
    CountKept(s.delete, " to delete, ", blocks, results, nothing, s);
    CountKept(s.cloud, " AWS/Spot changes. Results: ", blocks, results, nothing, s);
    CountKept(s.ok, " ok, ", blocks, results, nothing, s);
    CountKept(s.skipped, " skipped (paused), ", blocks, results, nothing, s);
    CountKept(s.pending, " pending, ", blocks, results, nothing, s);
    CountKept(s.errors, " errors.\n", blocks, results, nothing, s);
  }

  lemma CountKept(n: nat, name: string, blocks: string, results: string, nothing: bool, s: Summary)
    requires Within(Decimal(n) + name, Footer(s))
    ensures Within(Decimal(n) + name, Assemble(blocks, results, nothing, s))
  {
    hide Footer, Within, Decimal, Assemble;
    DigitFirst(n, name);
    AssembleCounts(Decimal(n) + name, blocks, results, nothing, s);
  }

  // ---- The order of the text ----

  /** Blocks come by their clusters, and blocks of the same clusters by their keys. */
  ghost predicate BlocksAscend(entries: seq<Entry>) {
    forall i, j | 0 <= i < j < |entries| ::
      || StrLess(entries[i].group, entries[j].group)
      || (entries[i].group == entries[j].group && !StrLess(entries[j].key, entries[i].key))
  }

  ghost predicate ResultsAscend(rs: seq<Result>) {
    forall i, j | 0 <= i < j < |rs| :: !StrLess(rs[j].source.String(), rs[i].source.String())
  }

  /** The text is made of the blocks of the changed objects and of the changes to AWS and Spot, each once
      and in this order, and then of the reconciles that are not complete, by their sources. */
  lemma TextInOrder(p: Printer, s: State) returns (entries: seq<Entry>, unfinished: seq<Result>)
    ensures forall e :: e in entries <==> OfObject(p, s.objects, e) || OfCloud(s.cloud, e)
    ensures forall r :: r in unfinished <==> OfResult(s.results, r)
    ensures NoDup(entries) && NoDup(unfinished) && BlocksAscend(entries) && ResultsAscend(unfinished)
    ensures PlanText(p, s)
      == Assemble(Blocks(entries, "\0"), ResultLines(unfinished), entries == [] && unfinished == [], SummaryOf(p, s))
  {
    entries := SortSet(EntryLess, ObjectEntries(p, s.objects) + CloudEntries(s.cloud));
    unfinished := SortSet(ResultLess, UnfinishedOf(s.results));
    hide *;
    ListedBlocks(p, s, entries);
    ListedResults(s.results, unfinished);
    PlanTextIs(p, s, entries, unfinished);
  }

  lemma ListedBlocks(p: Printer, s: State, entries: seq<Entry>)
    requires entries == SortSet(EntryLess, ObjectEntries(p, s.objects) + CloudEntries(s.cloud))
    ensures forall e :: e in entries <==> OfObject(p, s.objects, e) || OfCloud(s.cloud, e)
    ensures NoDup(entries) && BlocksAscend(entries)
  {
    forall e ensures e in entries <==> OfObject(p, s.objects, e) || OfCloud(s.cloud, e) {
      EntriesOfObjects(p, s.objects, e);
      hide ObjectEntries, OfObject, CloudEntry, EntryLess;
    }
    hide ObjectEntries, CloudEntries;
    SortSetSorted(EntryLess, ObjectEntries(p, s.objects) + CloudEntries(s.cloud)) by { EntryLessWeakOrder(); }
    hide *;
    EntriesAscend(entries);
  }

  lemma ListedResults(results: map<string, Result>, rs: seq<Result>)
    requires rs == SortSet(ResultLess, UnfinishedOf(results))
    ensures forall r :: r in rs <==> OfResult(results, r)
    ensures NoDup(rs) && ResultsAscend(rs)
  {
    SortSetSorted(ResultLess, UnfinishedOf(results)) by { ResultLessWeakOrder(); }
    hide StrLess;
  }

  /** The block of a changed object, of a change to AWS or Spot, and a result that is not complete. */
  ghost predicate OfObject(p: Printer, objects: Objects, e: Entry) {
    exists key :: key in objects && Touched(objects[key]) && e == ObjectEntry(p, objects, key)
  }

  ghost predicate OfCloud(cloud: Cloud, e: Entry) {
    exists id :: id in cloud && e == CloudEntry(id, cloud[id])
  }

  ghost predicate OfResult(results: map<string, Result>, r: Result) {
    exists name :: name in results && r == results[name] && (r.status == Pending || r.status == Failed)
  }

  lemma EntriesOfObjects(p: Printer, objects: Objects, e: Entry)
    ensures e in ObjectEntries(p, objects) <==> OfObject(p, objects, e)
  {
    forall key | key in objects ensures Changed(p, objects[key]) <==> Touched(objects[key]) {
      TouchedIs(p, objects[key]);
    }
    hide Touched, Changed, EntryOf, ListOf, ClustersOf;
  }

  lemma SortSetSorted<T(!new)>(less: (T, T) -> bool, s: set<T>)
    requires WeakOrder(less)
    ensures Ordered(less, SortSet(less, s)) && NoDup(SortSet(less, s))
  {
    SortOrdered(less, Enumerate(s));
    PermutedNoDup(Enumerate(s), SortSet(less, s));
  }

  lemma EntriesAscend(entries: seq<Entry>)
    requires Ordered(EntryLess, entries)
    ensures BlocksAscend(entries)
  {
    forall i, j | 0 <= i < j < |entries|
      ensures StrLess(entries[i].group, entries[j].group)
        || (entries[i].group == entries[j].group && !StrLess(entries[j].key, entries[i].key))
    {
      StrLessTotal(entries[i].group, entries[j].group);
    }
  }
}
