/** What two runs over the same targets print. Equal plans have the same text but for the
    lines of the incomplete reconciles and two of the counts; and when no target depends on
    the schedule, the whole text is the same. */
module SameText {
  import opened Ordering
  import opened Records
  import opened Locality
  import opened Description
  import opened Report
  import opened Writer
  import opened Plans
  import opened Once
  import opened Pool
  import opened WholeRun
  import opened PhaseSplit
  import opened Split

  /** The incomplete reconciles, in the order of the text. */
  ghost function Incompletes(s: State): seq<Result> {
    SortSet(ResultLess, UnfinishedOf(s.results))
  }

  function NamesOf(rs: seq<Result>): seq<string> {
    seq(|rs|, i requires 0 <= i < |rs| => rs[i].source.String())
  }

  /** The text of the plan `s`, with these lines and these two counts in place of its own. */
  ghost function TextWith(p: Printer, s: State, rs: seq<Result>, pending: nat, errors: nat): string {
    var entries := SortSet(EntryLess, ObjectEntries(p, s.objects) + CloudEntries(s.cloud));
    Assemble(Blocks(entries, "\0"), ResultLines(rs), entries == [] && rs == [],
             SummaryOf(p, s).(pending := pending, errors := errors))
  }

  lemma Twice<T>(r: seq<T>, i: nat, j: nat)
    requires i < j < |r| && r[i] == r[j]
    ensures multiset(r)[r[i]] >= 2
  {
    assert r == r[..i] + [r[i]] + r[i + 1..j] + [r[j]] + r[j + 1..];
  }

  lemma OnceEach<T>(r: seq<T>, s: set<T>)
    requires multiset(r) == multiset(s)
    ensures NoDup(r)
  {
    forall i, j | 0 <= i < j < |r| ensures r[i] != r[j] {
      assert multiset(s)[r[i]] <= 1;
      if r[i] == r[j] {
        Twice(r, i, j);
      }
    }
  }

  lemma IncompletesSorted(s: State)
    ensures var rs := Incompletes(s);
      && NoDup(rs) && Ordered(ResultLess, rs)
      && forall r :: r in rs <==> exists n :: n in s.results && Unfinished(s.results[n]) && r == s.results[n]
  {
    ResultLessWeakOrder();
    SortOrdered(ResultLess, Enumerate(UnfinishedOf(s.results)));
    OnceEach(Incompletes(s), UnfinishedOf(s.results));
    assert forall r :: r in Incompletes(s) <==> r in UnfinishedOf(s.results);
    hide SortSet, Unfinished, Incompletes;
  }

  lemma NamesInOrder(s: State, rs: seq<Result>)
    requires KeyedResults(s.results) && NoDup(rs) && Ordered(ResultLess, rs)
    requires forall r | r in rs :: exists n :: n in s.results && r == s.results[n]
    ensures NoDup(NamesOf(rs)) && Ordered(StrLess, NamesOf(rs))
  {
    hide StrLess;
    forall i, j | 0 <= i < j < |rs|
      ensures NamesOf(rs)[i] != NamesOf(rs)[j] && !StrLess(NamesOf(rs)[j], NamesOf(rs)[i])
    {
      assert rs[i] in rs && rs[j] in rs && !ResultLess(rs[j], rs[i]);
    }
  }

  lemma InNames(rs: seq<Result>, n: string)
    ensures n in NamesOf(rs) <==> exists r :: r in rs && r.source.String() == n
  {
    if n in NamesOf(rs) {
      var i :| 0 <= i < |rs| && NamesOf(rs)[i] == n;
      assert rs[i] in rs;
    }
    if r :| r in rs && r.source.String() == n {
      var i :| 0 <= i < |rs| && rs[i] == r;
      assert NamesOf(rs)[i] == n;
    }
  }

  /** The names of the incomplete reconciles: each once, in their order. */
  lemma NamesSorted(s: State)
    requires KeyedResults(s.results)
    ensures NoDup(NamesOf(Incompletes(s))) && Ordered(StrLess, NamesOf(Incompletes(s)))
    ensures forall n :: n in NamesOf(Incompletes(s)) <==> n in s.results && Unfinished(s.results[n])
  {
    var rs := Incompletes(s);
    IncompletesSorted(s);
    hide Incompletes, Unfinished, NamesOf, NoDup, Ordered;
    NamesInOrder(s, rs);
    forall n ensures n in NamesOf(rs) <==> n in s.results && Unfinished(s.results[n]) {
      InNames(rs, n);
    }
  }

  lemma SameSorted(a: seq<string>, b: seq<string>)
    requires NoDup(a) && Ordered(StrLess, a) && NoDup(b) && Ordered(StrLess, b)
    requires forall n :: n in a <==> n in b
    ensures a == b
  {
    NoDupMultiset(a);
    NoDupMultiset(b);
    assert (set n | n in a) == (set n | n in b);
    hide StrLess;
    forall x, y | x in a && y in a && x != y ensures StrLess(x, y) || StrLess(y, x) {
      StrLessTotal(x, y);
    }
    OrderedUnique(StrLess, a, b);
  }

  lemma SameUnfinished(s: State, t: State)
    requires SamePlan(s, t)
    ensures forall n :: n in s.results && Unfinished(s.results[n]) <==> n in t.results && Unfinished(t.results[n])
  {
    forall n | n in s.results ensures Unfinished(s.results[n]) <==> Unfinished(t.results[n]) {
      assert Completes(s.results[n].status) == Completes(t.results[n].status);
    }
  }

  lemma SameNames(s: State, t: State)
    requires SamePlan(s, t) && KeyedResults(s.results) && KeyedResults(t.results)
    ensures NamesOf(Incompletes(s)) == NamesOf(Incompletes(t))
  {
    hide *;
    NamesSorted(s);
    NamesSorted(t);
    SameUnfinished(s, t);
    SameSorted(NamesOf(Incompletes(s)), NamesOf(Incompletes(t)));
  }

  lemma OwnText(p: Printer, s: State)
    ensures PlanText(p, s) == TextWith(p, s, Incompletes(s), SummaryOf(p, s).pending, SummaryOf(p, s).errors)
  {
    hide ObjectEntries, CloudEntries, UnfinishedOf, Blocks, SortSet, ResultLines, Assemble, SummaryOf;
  }

  lemma OtherText(p: Printer, s: State, t: State, rs: seq<Result>, pending: nat, errors: nat)
    requires SamePlan(s, t)
    ensures TextWith(p, s, rs, pending, errors) == TextWith(p, t, rs, pending, errors)
  {
    SameReport(p, s, t);
    hide SamePlan, ObjectEntries, CloudEntries, Blocks, SortSet, ResultLines, Assemble, SummaryOf;
  }

  lemma NothingMissing(p: Printer, s: State)
    requires KeyedResults(s.results)
    ensures (forall n | n in s.results :: !Unfinished(s.results[n]))
      <==> SummaryOf(p, s).pending == 0 && SummaryOf(p, s).errors == 0
    ensures (forall n | n in s.results :: !Unfinished(s.results[n])) ==> Incompletes(s) == []
  {
    NothingUnfinished(s.results);
    NamesSorted(s);
    hide Unfinished, Incompletes, NoDup, Ordered, WithSymbol, Reordered, WithStatus;
    if Incompletes(s) != [] {
      assert NamesOf(Incompletes(s))[0] in NamesOf(Incompletes(s));
    }
  }

  /** Equal plans: the lines of the incomplete reconciles name the same sources in the same
      order, and the rest of the text is the same but for the counts of pending and failed. With
      nothing incomplete the texts are the same. */
  lemma SameTexts(p: Printer, s: State, t: State)
    requires SamePlan(s, t) && KeyedResults(s.results) && KeyedResults(t.results)
    ensures NamesOf(Incompletes(s)) == NamesOf(Incompletes(t))
    ensures PlanText(p, t) == TextWith(p, s, Incompletes(t), SummaryOf(p, t).pending, SummaryOf(p, t).errors)
    ensures (forall n | n in s.results :: !Unfinished(s.results[n])) ==>
      PlanText(p, s) == PlanText(p, t) && SummaryOf(p, s) == SummaryOf(p, t)
  {
    SameNames(s, t);
    OwnText(p, s);
    OwnText(p, t);
    OtherText(p, s, t, Incompletes(t), SummaryOf(p, t).pending, SummaryOf(p, t).errors);
    NothingMissing(p, s);
    NothingMissing(p, t);
    SameReport(p, s, t);
    assert |NamesOf(Incompletes(s))| == |Incompletes(s)| && |NamesOf(Incompletes(t))| == |Incompletes(t)|;
    hide *;
  }

  /** The results of two runs agree when no target depends on the schedule. */
  lemma SameResults(clusters: seq<Target>, groups: seq<Target>, n: int, m: int, a: Pool, b: Pool, k: int, l: int,
                    c: Pool, d: Pool)
    requires Undisturbed(clusters, groups, n, m, a, b) && Undisturbed(clusters, groups, k, l, c, d)
    requires forall i | 0 <= i < |clusters| :: !Depends(clusters, i)
    requires forall i | 0 <= i < |groups| :: !Depends(groups, i)
    ensures FinalPlan(a, b).results == FinalPlan(c, d).results
  {
    var s, t := FinalPlan(a, b), FinalPlan(c, d);
    ResultFixed(clusters, groups, n, m, a, b, k, l, c, d);
    RunConfluence(clusters, groups, n, m, a, b, k, l, c, d);
    assert TwoPhases(clusters, groups, n, m, a, b) && s.results.Keys == t.results.Keys;
    hide Undisturbed, TwoPhases, SamePlan, FinalPlan, Depends;
    forall name | name in s.results ensures s.results[name] == t.results[name] {
      ResultOfTarget(clusters, groups, n, m, a, b, name);
      if i :| 0 <= i < |clusters| && clusters[i].source.String() == name {
        assert ResultOf(s, clusters[i].source) == ResultOf(t, clusters[i].source);
      } else {
        var j :| 0 <= j < |groups| && groups[j].source.String() == name;
        assert ResultOf(s, groups[j].source) == ResultOf(t, groups[j].source);
      }
    }
  }

  lemma ResultOfTarget(clusters: seq<Target>, groups: seq<Target>, n: int, m: int, a: Pool, b: Pool, name: string)
    requires TwoPhases(clusters, groups, n, m, a, b) && name in FinalPlan(a, b).results
    ensures Among(clusters, name) || Among(groups, name)
  {
    OwnInRun(clusters, groups, n, m, a, b);
    ViewIsLocal(a.h + b.h, name);
    assert ViewOf(Replay(a.h + b.h), name).completion.Some?;
    assert Alone([]).completion == None;
    hide Own, Replay, TwoPhases, Performed, WritesOf, CloudOf, Alone;
  }

  /** The text of a plan is a function of the targets alone when no target depends on the
      schedule: neither the numbers of workers nor the order of events shows in it. */
  lemma SamePrinted(p: Printer, clusters: seq<Target>, groups: seq<Target>, n: int, m: int, a: Pool, b: Pool, k: int,
                    l: int, c: Pool, d: Pool)
    requires Undisturbed(clusters, groups, n, m, a, b) && Undisturbed(clusters, groups, k, l, c, d)
    requires forall i | 0 <= i < |clusters| :: !Depends(clusters, i)
    requires forall i | 0 <= i < |groups| :: !Depends(groups, i)
    ensures PlanText(p, FinalPlan(a, b)) == PlanText(p, FinalPlan(c, d))
    ensures SummaryOf(p, FinalPlan(a, b)) == SummaryOf(p, FinalPlan(c, d))
  {
    var s, t := FinalPlan(a, b), FinalPlan(c, d);
    SameResults(clusters, groups, n, m, a, b, k, l, c, d);
    RunConfluence(clusters, groups, n, m, a, b, k, l, c, d);
    SameReport(p, s, t);
    hide SamePlan, ObjectEntries, CloudEntries, UnfinishedOf, Blocks, SortSet, ResultLines, Assemble, Undisturbed,
      FinalPlan, Depends, WithSymbol, Reordered;
  }
}
