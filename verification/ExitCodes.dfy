/** The exit code of a run, by its targets and the calls of their attempts alone. */
module ExitCodes {
  import opened Records
  import opened Locality
  import opened Description
  import opened Report
  import opened Client
  import opened Once
  import opened Pool
  import opened Symbols
  import opened WholeRun
  import opened Idle

  predicate IncompleteStatus(status: Status) {
    status == Pending || status == Failed
  }

  /** What the three codes say of a plan: 1 if and only if a reconcile is pending or failed, and 2 if
      and only if none is and an object changes, or AWS or Spot does. */
  lemma CodeOfPlan(p: Printer, s: State)
    ensures var code := SummaryOf(p, s).ExitCode();
      && code <= 2
      && (code == 1 <==> exists name :: name in s.results && IncompleteStatus(s.results[name].status))
      && (code != 1 ==>
            (code == 2 <==> s.cloud != map[] || exists key :: key in s.objects && Touched(s.objects[key])))
  {
    SummaryConserves(p, s);
    NothingChanged(p, s.objects);
    NothingUnfinished(s.results);
    forall key | key in s.objects ensures Touched(s.objects[key]) <==> Changed(p, s.objects[key]) {
      TouchedIs(p, s.objects[key]);
    }
    hide WithSymbol, Reordered, Changed, ChangedObjects, WithStatus, Touched;
  }

  /** The target was skipped, or its last attempt ran and succeeded. */
  ghost predicate Completed(s: Pool, t: Target, i: nat) {
    t.skipReason != "" || (i in s.entered && Succeeds(LastAttempt(t)))
  }

  ghost predicate AllCompleted(s: Pool, ts: seq<Target>) {
    forall i | 0 <= i < |ts| :: Completed(s, ts[i], i)
  }

  lemma CompletedView(h: seq<Op>, s: Pool, t: Target, i: nat)
    requires Own(h, t.source.String()) == Performed(s, t, i)
    requires t.skipReason != "" || i in s.entered || s.ended.Some?
    ensures ViewOf(Replay(h), t.source.String()).completion != Some(Incomplete) <==> Completed(s, t, i)
  {
    hide Own, Script, Replay, ViewOf, Succeeds;
    if t.skipReason != "" {
      ViewIsLocal(h, t.source.String());
      AloneSnoc([], Skipping(t));
      assert [] + [Skipping(t)] == [Skipping(t)];
    } else if i in s.entered {
      var a := LastAttempt(t);
      LastAttemptOnly(h, t);
      FinishCompletes(AttemptOps(t.source, a), t.source, OutcomeOf(a));
      EndingMeaning(a);
    } else {
      ViewIsLocal(h, t.source.String());
      AloneSnoc([], Refusal(t, s.ended.value));
      assert [] + [Refusal(t, s.ended.value)] == [Refusal(t, s.ended.value)];
    }
  }

  ghost predicate NoneLeft(s: State, ts: seq<Target>) {
    forall name | Among(ts, name) :: ViewOf(s, name).completion != Some(Incomplete)
  }

  lemma CompletedPhase(h: seq<Op>, ts: seq<Target>, n: int, s: Pool)
    requires DistinctTargets(ts) && Ends(ts, n, s)
    requires forall i | 0 <= i < |ts| :: Own(h, ts[i].source.String()) == Performed(s, ts[i], i)
    ensures AllCompleted(s, ts) <==> NoneLeft(Replay(h), ts)
  {
    PoolReturns(ts, n, s);
    forall i | 0 <= i < |ts|
      ensures Completed(s, ts[i], i) <==> ViewOf(Replay(h), ts[i].source.String()).completion != Some(Incomplete)
      ensures Among(ts, ts[i].source.String())
    {
      assert Conclusions(Performed(s, ts[i], i)) == 1;
      hide Own, Ends, Script, ViewOf, Succeeds, Replay;
      CompletedView(h, s, ts[i], i);
    }
    hide Own, Performed, Ends, Completed, ViewOf, Conclusions, Replay;
  }

  lemma LeftIsUnfinished(s: State)
    ensures (exists name :: name in s.results && IncompleteStatus(s.results[name].status))
      <==> exists name :: ViewOf(s, name).completion == Some(Incomplete)
  {
    if name :| name in s.results && IncompleteStatus(s.results[name].status) {
      assert ViewOf(s, name).completion == Some(Incomplete);
    }
  }

  /** The exit code is 1 exactly when some target was not skipped and its last attempt did not run or
      did not succeed. */
  lemma OneExit(p: Printer, clusters: seq<Target>, groups: seq<Target>, n: int, m: int, a: Pool, b: Pool)
    requires TwoPhases(clusters, groups, n, m, a, b)
    ensures SummaryOf(p, FinalPlan(a, b)).ExitCode() == 1 <==> !(AllCompleted(a, clusters) && AllCompleted(b, groups))
  {
    var h := a.h + b.h;
    assert FinalPlan(a, b) == Replay(h);
    assert DistinctTargets(clusters) && Ends(clusters, n, a) && DistinctTargets(groups) && Ends(groups, m, b);
    OwnInRun(clusters, groups, n, m, a, b);
    CodeOfPlan(p, Replay(h));
    LeftIsUnfinished(Replay(h));
    CompletedPhase(h, clusters, n, a);
    CompletedPhase(h, groups, m, b);
    hide *;
    forall name | !Among(clusters, name) && !Among(groups, name)
      ensures ViewOf(Replay(h), name).completion != Some(Incomplete)
    {
      NotAmong(clusters, name);
      NotAmong(groups, name);
      StrangerDone(h, name);
    }
    LeftAmong(Replay(h), clusters, groups);
  }

  lemma StrangerDone(h: seq<Op>, name: string)
    requires Own(h, name) == []
    ensures ViewOf(Replay(h), name).completion != Some(Incomplete)
  {
    ViewIsLocal(h, name);
  }

  lemma LeftAmong(s: State, clusters: seq<Target>, groups: seq<Target>)
    requires forall name | !Among(clusters, name) && !Among(groups, name) ::
      ViewOf(s, name).completion != Some(Incomplete)
    ensures (exists name :: ViewOf(s, name).completion == Some(Incomplete))
      <==> !(NoneLeft(s, clusters) && NoneLeft(s, groups))
  {
    hide Among, ViewOf;
  }

  /** What an attempt would do, were it to run, changes nothing. */
  ghost predicate Changeless(t: Target) {
    var acts := LastAttempt(t).acts;
    t.skipReason != "" || ((forall act | act in acts :: act.Writes?) && AllIdle(acts))
  }

  ghost predicate AllChangeless(ts: seq<Target>) {
    forall i | 0 <= i < |ts| :: Changeless(ts[i])
  }

  /** The exit code is 2 exactly when every target completes and one of them changes AWS or Spot, or
      makes calls that do not leave their object as it was; else, when every target completes, it is 0. */
  lemma TwoExit(p: Printer, clusters: seq<Target>, groups: seq<Target>, n: int, m: int, a: Pool, b: Pool)
    requires TwoPhases(clusters, groups, n, m, a, b)
    ensures var code := SummaryOf(p, FinalPlan(a, b)).ExitCode();
      var complete := AllCompleted(a, clusters) && AllCompleted(b, groups);
      && (code == 2 <==> complete && !(AllChangeless(clusters) && AllChangeless(groups)))
      && (code == 0 <==> complete && AllChangeless(clusters) && AllChangeless(groups))
  {
    CodeOfPlan(p, FinalPlan(a, b));
    OneExit(p, clusters, groups, n, m, a, b);
    ZeroExit(p, clusters, groups, n, m, a, b);
    FineParts(p, a, clusters);
    FineParts(p, b, groups);
    hide AllFine, AllCompleted, AllChangeless, TwoPhases, SummaryOf, FinalPlan;
  }

  lemma FineParts(p: Printer, s: Pool, ts: seq<Target>)
    ensures AllFine(p, s, ts) <==> AllCompleted(s, ts) && AllChangeless(ts)
  {
    forall i | 0 <= i < |ts| ensures Fine(p, s, ts[i], i) <==> Completed(s, ts[i], i) && Changeless(ts[i]) {
      HarmlessExactly(p, ts[i]);
      hide Harmless, Succeeds, AllIdle;
    }
    hide Fine, Completed, Changeless;
  }

  /** An accepted update or patch whose objects differ outside the status: the target is not harmless,
      so a run that completes with it ends with the code 2. */
  lemma UpdateShows(p: Printer, t: Target, c: Call, k: string)
    requires LastAttempt(t).acts == [Writes(c)] && Taken(c) && (c.verb.UpdateVerb? || c.verb.PatchVerb?)
    requires k != "status" && !SameAt(c.live.value, c.desired.value, k)
    ensures !Harmless(p, t) && (t.skipReason == "" ==> !Changeless(t))
  {
    HarmlessExactly(p, t);
    var acts := LastAttempt(t).acts;
    assert acts[..0] == [] && CallsOn(acts, c.key) == [c] by { assert CallsOn(acts[..0], c.key) == []; }
    assert !SameAt(Current(c), Final([c], k), k);
  }
}
