/** A whole run: every Cluster, then every SecurityGroup, each phase with its own workers.
    What the plan and the exit code say at the end, in terms of the targets alone. */
module WholeRun {
  import opened Ordering
  import opened Records
  import opened Confluence
  import opened Locality
  import opened Description
  import opened Report
  import opened Client
  import opened Once
  import opened Pool

  ghost predicate OfKind(ts: seq<Target>, kind: string) {
    forall i | 0 <= i < |ts| :: ts[i].source.kind == kind
  }

  /** The Clusters end in `a`, then the SecurityGroups in `b`. */
  ghost predicate TwoPhases(clusters: seq<Target>, groups: seq<Target>, cmWorkers: int, sgWorkers: int, a: Pool,
                            b: Pool)
  {
    && DistinctTargets(clusters) && DistinctTargets(groups)
    && OfKind(clusters, "Cluster") && OfKind(groups, "SecurityGroup")
    && Ends(clusters, cmWorkers, a) && Ends(groups, sgWorkers, b)
  }

  ghost function FinalPlan(a: Pool, b: Pool): State {
    Replay(a.h + b.h)
  }

  // ---- Names ----

  lemma KindsDiffer(x: Source, y: Source)
    requires x.kind == "Cluster" && y.kind == "SecurityGroup"
    ensures x.String() != y.String()
  {
    assert x.String()[0] == 'C' && y.String()[0] == 'S';
  }

  /** Sources made from namespaced Kubernetes names differ when the objects do. */
  lemma SourceNamesDiffer(x: Source, y: Source)
    requires x.namespace != "" && y.namespace != ""
    requires '/' !in x.kind && '/' !in y.kind && '/' !in x.namespace && '/' !in y.namespace
    ensures x.String() == y.String() <==> x.kind == y.kind && x.namespace == y.namespace && x.name == y.name
  {
    var s, t := x.namespace + ['/'] + x.name, y.namespace + ['/'] + y.name;
    assert x.String() == x.kind + ['/'] + s && y.String() == y.kind + ['/'] + t;
    if x.String() == y.String() {
      SplitAt(x.kind, s, y.kind, t, '/');
      SplitAt(x.namespace, x.name, y.namespace, y.name, '/');
    }
  }

  /** Each target's part of a run is what its phase performed for it. */
  lemma OwnInRun(clusters: seq<Target>, groups: seq<Target>, cmWorkers: int, sgWorkers: int, a: Pool, b: Pool)
    requires TwoPhases(clusters, groups, cmWorkers, sgWorkers, a, b)
    ensures forall i | 0 <= i < |clusters| ::
      Own(a.h + b.h, clusters[i].source.String()) == Performed(a, clusters[i], i)
    ensures forall i | 0 <= i < |groups| :: Own(a.h + b.h, groups[i].source.String()) == Performed(b, groups[i], i)
    ensures forall name |
      && (forall i | 0 <= i < |clusters| :: clusters[i].source.String() != name)
      && (forall i | 0 <= i < |groups| :: groups[i].source.String() != name) :: Own(a.h + b.h, name) == []
  {
    assert DistinctTargets(clusters) && Ends(clusters, cmWorkers, a);
    assert DistinctTargets(groups) && Ends(groups, sgWorkers, b);
    assert OfKind(clusters, "Cluster") && OfKind(groups, "SecurityGroup");
    OwnInPhase(clusters, cmWorkers, a);
    OwnInPhase(groups, sgWorkers, b);
    hide *;
    forall i | 0 <= i < |clusters|
      ensures Own(a.h + b.h, clusters[i].source.String()) == Performed(a, clusters[i], i)
    {
      NotOfKind(clusters, groups, i);
      OwnFirst(a.h, b.h, clusters[i].source.String());
    }
    forall i | 0 <= i < |groups| ensures Own(a.h + b.h, groups[i].source.String()) == Performed(b, groups[i], i) {
      NotOfKindEither(clusters, groups, i);
      OwnSecond(a.h, b.h, groups[i].source.String());
    }
    forall name |
      && (forall i | 0 <= i < |clusters| :: clusters[i].source.String() != name)
      && (forall i | 0 <= i < |groups| :: groups[i].source.String() != name)
      ensures Own(a.h + b.h, name) == []
    {
      OwnFirst(a.h, b.h, name);
    }
  }

  lemma OwnFirst(a: seq<Op>, b: seq<Op>, name: string)
    requires Own(b, name) == []
    ensures Own(a + b, name) == Own(a, name)
  {
    OwnAppend(a, b, name);
    assert Own(a, name) + [] == Own(a, name);
  }

  lemma OwnSecond(a: seq<Op>, b: seq<Op>, name: string)
    requires Own(a, name) == []
    ensures Own(a + b, name) == Own(b, name)
  {
    OwnAppend(a, b, name);
    assert [] + Own(b, name) == Own(b, name);
  }

  lemma OwnInPhase(ts: seq<Target>, workers: int, s: Pool)
    requires DistinctTargets(ts) && Ends(ts, workers, s)
    ensures forall i | 0 <= i < |ts| :: Own(s.h, ts[i].source.String()) == Performed(s, ts[i], i)
    ensures forall name | (forall i | 0 <= i < |ts| :: ts[i].source.String() != name) :: Own(s.h, name) == []
  {
    PoolReturns(ts, workers, s);
    hide Own, Performed, Ends, Conclusions, DistinctTargets;
  }

  lemma NotOfKind(clusters: seq<Target>, groups: seq<Target>, i: nat)
    requires OfKind(clusters, "Cluster") && OfKind(groups, "SecurityGroup") && i < |clusters|
    ensures forall j | 0 <= j < |groups| :: groups[j].source.String() != clusters[i].source.String()
  {
    forall j | 0 <= j < |groups| ensures groups[j].source.String() != clusters[i].source.String() {
      KindsDiffer(clusters[i].source, groups[j].source);
    }
  }

  lemma NotOfKindEither(clusters: seq<Target>, groups: seq<Target>, j: nat)
    requires OfKind(clusters, "Cluster") && OfKind(groups, "SecurityGroup") && j < |groups|
    ensures forall i | 0 <= i < |clusters| :: clusters[i].source.String() != groups[j].source.String()
  {
    forall i | 0 <= i < |clusters| ensures clusters[i].source.String() != groups[j].source.String() {
      KindsDiffer(clusters[i].source, groups[j].source);
    }
  }

  predicate Among(ts: seq<Target>, name: string) {
    exists i | 0 <= i < |ts| :: ts[i].source.String() == name
  }

  lemma {:induction false} InOwn(h: seq<Op>, i: nat)
    requires i < |h|
    ensures h[i] in Own(h, h[i].source.String())
  {
    if i < |h| - 1 {
      InOwn(h[..|h| - 1], i);
    }
  }

  lemma OnlyTargetsAct(ts: seq<Target>, workers: int, s: Pool, i: nat)
    requires DistinctTargets(ts) && Ends(ts, workers, s) && i < |s.h|
    ensures Among(ts, s.h[i].source.String())
  {
    PoolReturns(ts, workers, s);
    InOwn(s.h, i);
    hide Own, Performed, Ends, Conclusions;
  }

  /** Everything that the reconciles of Clusters do comes before everything that those of
      SecurityGroups do. */
  lemma ClustersFirst(clusters: seq<Target>, groups: seq<Target>, cmWorkers: int, sgWorkers: int, a: Pool, b: Pool,
                      i: nat, j: nat)
    requires TwoPhases(clusters, groups, cmWorkers, sgWorkers, a, b)
    requires var h := a.h + b.h;
      i < |h| && j < |h| && Among(clusters, h[i].source.String()) && Among(groups, h[j].source.String())
    ensures i < j
  {
    assert Ends(clusters, cmWorkers, a) && Ends(groups, sgWorkers, b) && DistinctTargets(clusters)
      && DistinctTargets(groups);
    assert OfKind(clusters, "Cluster") && OfKind(groups, "SecurityGroup");
    hide *;
    var h := a.h + b.h;
    KindsApart(clusters, groups, h[i].source.String());
    KindsApart(clusters, groups, h[j].source.String());
    if i >= |a.h| {
      OnlyTargetsAct(groups, sgWorkers, b, i - |a.h|);
    } else if j < |a.h| {
      OnlyTargetsAct(clusters, cmWorkers, a, j);
    }
  }

  lemma KindsApart(clusters: seq<Target>, groups: seq<Target>, name: string)
    requires OfKind(clusters, "Cluster") && OfKind(groups, "SecurityGroup")
    ensures !(Among(clusters, name) && Among(groups, name))
  {
    forall x, y | 0 <= x < |clusters| && 0 <= y < |groups|
      ensures clusters[x].source.String() != groups[y].source.String()
    {
      KindsDiffer(clusters[x].source, groups[y].source);
    }
  }

  lemma PerformedWithoutEnd(ts: seq<Target>, workers: int, s: Pool, i: nat)
    requires DistinctTargets(ts) && Ends(ts, workers, s) && s.ended.None? && i < |ts|
    ensures Performed(s, ts[i], i) == if ts[i].skipReason != "" then [Skipping(ts[i])] else Script(ts[i])
  {
    PoolReturns(ts, workers, s);
  }

  // ---- Confluence ----

  lemma SameOwn(clusters: seq<Target>, groups: seq<Target>, n: int, m: int, a: Pool, b: Pool, k: int, l: int, c: Pool,
                d: Pool, name: string)
    requires TwoPhases(clusters, groups, n, m, a, b) && TwoPhases(clusters, groups, k, l, c, d)
    requires a.ended.None? && b.ended.None? && c.ended.None? && d.ended.None?
    ensures Own(a.h + b.h, name) == Own(c.h + d.h, name)
  {
    OwnInRun(clusters, groups, n, m, a, b);
    OwnInRun(clusters, groups, k, l, c, d);
    hide Own, Performed, Ends, Script;
    if i :| 0 <= i < |clusters| && clusters[i].source.String() == name {
      PerformedWithoutEnd(clusters, n, a, i);
      PerformedWithoutEnd(clusters, k, c, i);
    } else if i :| 0 <= i < |groups| && groups[i].source.String() == name {
      PerformedWithoutEnd(groups, m, b, i);
      PerformedWithoutEnd(groups, l, d, i);
    }
  }

  /** Two runs over the same targets without a deadline, with any numbers of workers and any
      schedules, end in the same plan. */
  lemma RunConfluence(clusters: seq<Target>, groups: seq<Target>, n: int, m: int, a: Pool, b: Pool, k: int, l: int,
                      c: Pool, d: Pool)
    requires TwoPhases(clusters, groups, n, m, a, b) && TwoPhases(clusters, groups, k, l, c, d)
    requires a.ended.None? && b.ended.None? && c.ended.None? && d.ended.None?
    ensures SamePlan(FinalPlan(a, b), FinalPlan(c, d))
  {
    forall name ensures Own(a.h + b.h, name) == Own(c.h + d.h, name) {
      SameOwn(clusters, groups, n, m, a, b, k, l, c, d, name);
    }
    hide Own, TwoPhases, SamePlan;
    PlanConfluence(a.h + b.h, c.h + d.h);
  }

  lemma SameStatusSets(s: State, t: State, status: Status)
    requires SamePlan(s, t) && (status == OK || status == Skipped)
    ensures WithStatus(s.results, s.results.Keys, status) == WithStatus(t.results, t.results.Keys, status)
  {
  }

  lemma SameCloudEntries(s: State, t: State)
    requires SamePlan(s, t)
    ensures CloudEntries(s.cloud) == CloudEntries(t.cloud)
  {
    hide SortedKeys;
    forall id | id in s.cloud ensures CloudEntry(id, s.cloud[id]) == CloudEntry(id, t.cloud[id]) {
      SameClusters(s.cloud[id], t.cloud[id]);
      SameClusters(t.cloud[id], s.cloud[id]);
      assert CloudClusters(s.cloud[id]) == CloudClusters(t.cloud[id]);
    }
  }

  lemma SameClusters(x: seq<Source>, y: seq<Source>)
    requires multiset(x) == multiset(y)
    ensures CloudClusters(x) <= CloudClusters(y)
  {
    forall cl | cl in CloudClusters(x) ensures cl in CloudClusters(y) {
      var i :| 0 <= i < |x| && cl in x[i].clusters;
      assert x[i] in multiset(y);
      var j :| 0 <= j < |y| && y[j] == x[i];
    }
  }

  /** Equal plans show the same changes in the same order and have the same exit code; only
      the split of the incomplete reconciles into pending and failed may differ. */
  lemma SameReport(p: Printer, s: State, t: State)
    requires SamePlan(s, t)
    ensures ObjectEntries(p, s.objects) + CloudEntries(s.cloud) == ObjectEntries(p, t.objects) + CloudEntries(t.cloud)
    ensures var x, y := SummaryOf(p, s), SummaryOf(p, t);
      && x.pending + x.errors == y.pending + y.errors
      && x == y.(pending := x.pending, errors := x.errors)
      && x.ExitCode() == y.ExitCode()
  {
    SameStatusSets(s, t, OK);
    SameStatusSets(s, t, Skipped);
    SameCloudEntries(s, t);
    SummaryConserves(p, s);
    SummaryConserves(p, t);
    assert |s.cloud| == |s.cloud.Keys| && |t.cloud| == |t.cloud.Keys|;
    assert |s.results| == |s.results.Keys| && |t.results| == |t.results.Keys|;
    hide WithSymbol, Reordered, WithStatus, ChangedObjects, ObjectEntries, CloudEntries, Completes;
  }

  // ---- The exit code ----

  /** A source that finished and changes nothing. */
  ghost predicate CleanView(p: Printer, v: View) {
    v.completion != Some(Incomplete) && v.cloud == map[] && NoneShows(p, v.writes)
  }

  /** All these writes are described as no change. */
  ghost predicate NoneShows(p: Printer, writes: map<ObjectKey, Write>) {
    forall key | key in writes :: Describe(p, writes[key]).None?
  }

  ghost predicate NothingPlanned(p: Printer, s: State) {
    && (forall name | name in s.results :: !Unfinished(s.results[name]))
    && s.cloud == map[]
    && (forall key | key in s.objects :: !Changed(p, s.objects[key]))
  }

  lemma NothingChanged(p: Printer, objects: Objects)
    ensures |ChangedObjects(p, objects)| == 0 <==> forall key | key in objects :: !Changed(p, objects[key])
  {
    hide Changed;
    var changed := ChangedObjects(p, objects);
    assert |changed| == 0 <==> changed == {};
    if key :| key in objects && Changed(p, objects[key]) {
      assert key in changed;
    }
  }

  lemma NothingUnfinished(results: map<string, Result>)
    ensures (|WithStatus(results, results.Keys, Pending)| == 0 && |WithStatus(results, results.Keys, Failed)| == 0)
      <==> forall name | name in results :: !Unfinished(results[name])
  {
    var pending, failed := WithStatus(results, results.Keys, Pending), WithStatus(results, results.Keys, Failed);
    assert |pending| == 0 <==> pending == {};
    assert |failed| == 0 <==> failed == {};
    if name :| name in results && Unfinished(results[name]) {
      assert name in pending + failed;
    }
  }

  lemma ZeroIsNothing(p: Printer, s: State)
    ensures SummaryOf(p, s).ExitCode() == 0 <==> NothingPlanned(p, s)
  {
    SummaryConserves(p, s);
    NothingChanged(p, s.objects);
    NothingUnfinished(s.results);
    hide WithSymbol, Reordered, Changed, ChangedObjects, WithStatus, Unfinished;
  }

  lemma CloudShows(s: State, id: string)
    requires Tidy(s) && id in s.cloud
    ensures exists name :: ViewOf(s, name).cloud != map[]
  {
    var name := s.cloud[id][0].String();
    ListedMine(s.cloud[id], name);
    assert id in ViewOf(s, name).cloud;
  }

  ghost predicate AllClean(p: Printer, s: State) {
    forall name :: CleanView(p, ViewOf(s, name))
  }

  ghost predicate CleanFor(p: Printer, s: State, ts: seq<Target>) {
    forall name | Among(ts, name) :: CleanView(p, ViewOf(s, name))
  }

  lemma NothingIsClean(p: Printer, s: State)
    requires Tidy(s)
    ensures NothingPlanned(p, s) <==> AllClean(p, s)
  {
    hide Describe;
    if NothingPlanned(p, s) {
      forall name ensures CleanView(p, ViewOf(s, name)) {
        forall key | key in WritesOf(s.objects, name) ensures Describe(p, WritesOf(s.objects, name)[key]).None? {
          assert !Changed(p, s.objects[key]);
        }
      }
    }
    if forall name :: CleanView(p, ViewOf(s, name)) {
      forall name | name in s.results ensures !Unfinished(s.results[name]) {
        assert CleanView(p, ViewOf(s, name));
      }
      if s.cloud != map[] {
        var id :| id in s.cloud;
        CloudShows(s, id);
      }
      forall key | key in s.objects ensures !Changed(p, s.objects[key]) {
        forall name | name in s.objects[key] ensures Describe(p, s.objects[key][name]).None? {
          assert CleanView(p, ViewOf(s, name));
          assert key in WritesOf(s.objects, name);
        }
      }
    }
  }

  /** The last attempt of a target succeeds and changes nothing: not AWS, not Spot, and each
      object that it writes is described as unchanged. */
  ghost predicate Harmless(p: Printer, t: Target) {
    var a := LastAttempt(t);
    && Succeeds(a)
    && (forall act | act in a.acts :: act.Writes?)
    && NoneShows(p, Alone(AttemptOps(t.source, a)).writes)
  }

  lemma CloudOfAct(v: View, source: Source, a: Act)
    requires ActRecords(a) != []
    ensures Step(v, Rec(source, ActRecords(a)[0])).cloud == map[] <==> v.cloud == map[] && a.Writes?
  {
    hide StepWrite, Failure;
    var t := Step(v, Rec(source, ActRecords(a)[0]));
    if a.Changes? {
      assert ActRecords(a)[0].id in t.cloud;
    }
  }

  lemma {:induction false} CloudOfActs(source: Source, acts: seq<Act>)
    ensures Alone(Recs(source, AllRecords(acts))).cloud == map[] <==> forall act | act in acts :: act.Writes?
  {
    if acts != [] {
      var p, a := acts[..|acts| - 1], acts[|acts| - 1];
      assert acts == p + [a];
      CloudOfActs(source, p);
      var before, rs := Recs(source, AllRecords(p)), ActRecords(a);
      RecsAppend(source, AllRecords(p), rs);
      if rs == [] {
        assert before + Recs(source, rs) == before;
      } else {
        assert Recs(source, rs) == [Rec(source, rs[0])];
        AloneSnoc(before, Rec(source, rs[0]));
        CloudOfAct(Alone(before), source, a);
        hide *;
      }
    }
  }

  lemma CleanTarget(p: Printer, t: Target)
    ensures var a := LastAttempt(t);
      CleanView(p, Alone(AttemptOps(t.source, a) + [Finish(t.source, OutcomeOf(a))])) <==> Harmless(p, t)
  {
    var a := LastAttempt(t);
    CloudOfActs(t.source, a.acts);
    EndingMeaning(a);
    AloneSnoc(AttemptOps(t.source, a), Finish(t.source, OutcomeOf(a)));
    hide Alone, AllRecords, Recs, Succeeds, OutcomeOf, Describe;
  }

  /** Skipped, or reconciled to the end without a change. */
  ghost predicate Fine(p: Printer, s: Pool, t: Target, i: nat) {
    t.skipReason != "" || (i in s.entered && Harmless(p, t))
  }

  lemma CleanPerformed(p: Printer, h: seq<Op>, s: Pool, t: Target, i: nat)
    requires Own(h, t.source.String()) == Performed(s, t, i)
    requires t.skipReason != "" || i in s.entered || s.ended.Some?
    ensures CleanView(p, ViewOf(Replay(h), t.source.String())) <==> Fine(p, s, t, i)
  {
    hide Own, Script, Replay, Harmless, Describe, ViewOf;
    if t.skipReason != "" {
      ViewIsLocal(h, t.source.String());
      AloneSnoc([], Skipping(t));
      assert [] + [Skipping(t)] == [Skipping(t)];
    } else if i in s.entered {
      LastAttemptOnly(h, t);
      CleanTarget(p, t);
    } else {
      ViewIsLocal(h, t.source.String());
      AloneSnoc([], Refusal(t, s.ended.value));
      assert [] + [Refusal(t, s.ended.value)] == [Refusal(t, s.ended.value)];
    }
  }

  ghost predicate AllFine(p: Printer, s: Pool, ts: seq<Target>) {
    forall i | 0 <= i < |ts| :: Fine(p, s, ts[i], i)
  }

  /** The exit code is 0 exactly when every target was skipped, or reconciled by an attempt
      that succeeded and changes nothing. Neither side mentions the other's machinery. */
  lemma ZeroExit(p: Printer, clusters: seq<Target>, groups: seq<Target>, n: int, m: int, a: Pool, b: Pool)
    requires TwoPhases(clusters, groups, n, m, a, b)
    ensures SummaryOf(p, FinalPlan(a, b)).ExitCode() == 0 <==> AllFine(p, a, clusters) && AllFine(p, b, groups)
  {
    var h := a.h + b.h;
    assert FinalPlan(a, b) == Replay(h);
    assert DistinctTargets(clusters) && Ends(clusters, n, a) && DistinctTargets(groups) && Ends(groups, m, b);
    OwnInRun(clusters, groups, n, m, a, b);
    hide *;
    ReplayTidy(h);
    ZeroIsNothing(p, Replay(h));
    NothingIsClean(p, Replay(h));
    PhaseIsFine(p, h, clusters, n, a);
    PhaseIsFine(p, h, groups, m, b);
    forall name | !Among(clusters, name) && !Among(groups, name) ensures Own(h, name) == [] {
      NotAmong(clusters, name);
      NotAmong(groups, name);
    }
    CleanParts(p, h, clusters, groups);
  }

  /** A source that is not a target leaves nothing behind. */
  lemma CleanParts(p: Printer, h: seq<Op>, clusters: seq<Target>, groups: seq<Target>)
    requires forall name | !Among(clusters, name) && !Among(groups, name) :: Own(h, name) == []
    ensures AllClean(p, Replay(h)) <==> CleanFor(p, Replay(h), clusters) && CleanFor(p, Replay(h), groups)
  {
    hide Own, Replay, CleanView, ViewOf, Among;
    forall name | !Among(clusters, name) && !Among(groups, name) ensures CleanView(p, ViewOf(Replay(h), name)) {
      CleanStranger(p, h, name);
    }
  }

  lemma NotAmong(ts: seq<Target>, name: string)
    requires !Among(ts, name)
    ensures forall i | 0 <= i < |ts| :: ts[i].source.String() != name
  {
  }

  lemma PhaseIsFine(p: Printer, h: seq<Op>, ts: seq<Target>, n: int, s: Pool)
    requires DistinctTargets(ts) && Ends(ts, n, s)
    requires forall i | 0 <= i < |ts| :: Own(h, ts[i].source.String()) == Performed(s, ts[i], i)
    ensures AllFine(p, s, ts) <==> CleanFor(p, Replay(h), ts)
  {
    hide Own, Performed, Ends, CleanView, Fine, ViewOf, DistinctTargets, Replay;
    forall i | 0 <= i < |ts|
      ensures CleanView(p, ViewOf(Replay(h), ts[i].source.String())) <==> Fine(p, s, ts[i], i)
      ensures Among(ts, ts[i].source.String())
    {
      CleanPhase(p, h, ts, n, s, i);
    }
  }

  lemma CleanPhase(p: Printer, h: seq<Op>, ts: seq<Target>, n: int, s: Pool, i: nat)
    requires DistinctTargets(ts) && Ends(ts, n, s) && i < |ts|
    requires Own(h, ts[i].source.String()) == Performed(s, ts[i], i)
    ensures CleanView(p, ViewOf(Replay(h), ts[i].source.String())) <==> Fine(p, s, ts[i], i)
  {
    PoolReturns(ts, n, s);
    assert Conclusions(Performed(s, ts[i], i)) == 1;
    hide Own, Ends, Script, CleanView, Fine, ViewOf;
    CleanPerformed(p, h, s, ts[i], i);
  }

  lemma CleanStranger(p: Printer, h: seq<Op>, name: string)
    requires Own(h, name) == []
    ensures CleanView(p, ViewOf(Replay(h), name))
  {
    ViewIsLocal(h, name);
  }
}
