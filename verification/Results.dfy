/** The result that a run gives each target, by its skip reason, the end of the context, or the way in
    which its last attempt ends. Only whether a missing object is created by this plan depends on
    more than that; `PhaseSplit` and `Split` are about it. */
module Results {
  import opened Records
  import opened Confluence
  import opened Locality
  import opened Client
  import opened Once
  import opened Pool
  import opened WholeRun
  import opened PhaseSplit

  /** The attempt ends with this error: it returns it, or it returns none although a write failed,
      the first of them with this error. */
  ghost predicate EndsWith(a: Attempt, err: Error) {
    && a.end.Returns?
    && (a.end.err == Some(err) || (a.end.err.None? && exists i :: 0 <= i < |a.acts| && FailsFirst(a.acts, i, err)))
  }

  /** The attempt ends without an error and asks to run again within the hour. */
  predicate AsksAgain(a: Attempt) {
    && a.end.Returns? && a.end.err.None? && 0 < a.end.requeueAfter < 3600
    && forall act | act in a.acts :: !Surprises(act)
  }

  function ErrorText(a: Attempt): string
    requires a.end.Returns?
  {
    if a.end.err.Some? then a.end.text else "a write failed: " + a.writeText
  }

  /** What the result of a reconcile with this last attempt is. */
  ghost predicate Tells(a: Attempt, r: Result) {
    && r.status != Skipped
    && (r.status == OK <==> Succeeds(a))
    && (r.status == OK ==> r.reason == "")
    && (a.end.Panics? ==> r.status == Failed && r.reason == "panic: " + a.end.text)
    && (AsksAgain(a) ==> r.status == Pending && r.reason == "would run again in " + a.end.text)
    && (EndsWith(a, NotAvailable) ==> r.status == Pending && r.reason == ErrorText(a))
    && (forall err | EndsWith(a, err) && err != NotAvailable ::
          || (r.status == Failed && r.reason == ErrorText(a))
          || (err.NotFound? && r.status == Pending
              && r.reason == "waits for an object that this plan creates: " + ErrorText(a)))
  }

  lemma OutcomeError(a: Attempt, err: Error)
    requires a.end.Returns?
    ensures OutcomeOf(a).err == Some(err) <==> EndsWith(a, err)
    ensures EndsWith(a, err) ==> OutcomeOf(a).text == ErrorText(a)
  {
    FirstErrorAt(a.acts, err);
    hide FirstError, FailsFirst;
  }

  lemma OutcomeTells(s: State, t: Target, a: Attempt)
    ensures Tells(a, Result(t.source, Classify(s, OutcomeOf(a)), Reason(s, OutcomeOf(a))))
  {
    NoError(a.acts);
    if a.end.Returns? {
      OutcomeError(a, NotAvailable);
      forall err ensures OutcomeOf(a).err == Some(err) <==> EndsWith(a, err) {
        OutcomeError(a, err);
      }
      if OutcomeOf(a).err.Some? {
        OutcomeError(a, OutcomeOf(a).err.value);
      }
    }
    hide FirstError, Surprises, EndsWith, Created;
  }

  ghost predicate TargetResult(s: Pool, t: Target, i: nat, r: Result) {
    && r.source == t.source
    && if t.skipReason != "" then r.status == Skipped && r.reason == t.skipReason
       else if i !in s.entered then
         s.ended.Some? && r.status == Failed && r.reason == "not reconciled: " + s.ended.value
       else Tells(LastAttempt(t), r)
  }

  lemma FinishAtEnd(front: seq<Op>, o: Outcome, back: seq<Op>, source: Source)
    requires Own(back, source.String()) == []
    ensures ResultOf(Replay(front + [Finish(source, o)] + back), source)
      == Some(Result(source, Classify(Replay(front), o), Reason(Replay(front), o)))
  {
    ReplaySnoc(front, Finish(source, o));
    ResultKept(front + [Finish(source, o)], back, source);
    hide Replay, Own, Classify, Reason;
  }

  lemma SetAtEnd(front: seq<Op>, source: Source, status: Status, reason: string, back: seq<Op>)
    requires Own(back, source.String()) == []
    ensures ResultOf(Replay(front + [Op.SetResult(source, status, reason)] + back), source)
      == Some(Result(source, status, reason))
  {
    ReplaySnoc(front, Op.SetResult(source, status, reason));
    ResultKept(front + [Op.SetResult(source, status, reason)], back, source);
    hide Replay, Own;
  }

  lemma LastOfScript(t: Target)
    ensures Script(t) != [] && Script(t)[|Script(t)| - 1] == Finish(t.source, OutcomeOf(LastAttempt(t)))
  {
    hide OutcomeOf, AttemptOps;
  }

  lemma ResultInHistory(h: seq<Op>, s: Pool, t: Target, i: nat)
    requires Own(h, t.source.String()) == Performed(s, t, i)
    requires t.skipReason != "" || i in s.entered || s.ended.Some?
    ensures ResultOf(Replay(h), t.source).Some? && TargetResult(s, t, i, ResultOf(Replay(h), t.source).value)
  {
    var name := t.source.String();
    LastOfScript(t);
    assert Performed(s, t, i) != [];
    hide Own, Script, Replay, OutcomeOf, Tells, LastAttempt;
    var front, x, back := LastOwn(h, name);
    assert x == Own(h, name)[|Own(h, name)| - 1];
    if t.skipReason != "" {
      SetAtEnd(front, t.source, Skipped, t.skipReason, back);
    } else if i in s.entered {
      FinishAtEnd(front, OutcomeOf(LastAttempt(t)), back, t.source);
      OutcomeTells(Replay(front), t, LastAttempt(t));
    } else {
      SetAtEnd(front, t.source, Failed, "not reconciled: " + s.ended.value, back);
    }
  }

  /** The results of a whole run. */
  lemma RunResults(clusters: seq<Target>, groups: seq<Target>, n: int, m: int, a: Pool, b: Pool)
    requires TwoPhases(clusters, groups, n, m, a, b)
    ensures forall i | 0 <= i < |clusters| :: var r := ResultOf(FinalPlan(a, b), clusters[i].source);
      r.Some? && TargetResult(a, clusters[i], i, r.value)
    ensures forall i | 0 <= i < |groups| :: var r := ResultOf(FinalPlan(a, b), groups[i].source);
      r.Some? && TargetResult(b, groups[i], i, r.value)
  {
    assert DistinctTargets(clusters) && Ends(clusters, n, a) && DistinctTargets(groups) && Ends(groups, m, b);
    assert FinalPlan(a, b) == Replay(a.h + b.h);
    OwnInRun(clusters, groups, n, m, a, b);
    hide *;
    PhaseResults(a.h + b.h, clusters, n, a);
    PhaseResults(a.h + b.h, groups, m, b);
  }

  lemma PhaseResults(h: seq<Op>, ts: seq<Target>, n: int, s: Pool)
    requires DistinctTargets(ts) && Ends(ts, n, s)
    requires forall i | 0 <= i < |ts| :: Own(h, ts[i].source.String()) == Performed(s, ts[i], i)
    ensures forall i | 0 <= i < |ts| :: var r := ResultOf(Replay(h), ts[i].source);
      r.Some? && TargetResult(s, ts[i], i, r.value)
  {
    PoolReturns(ts, n, s);
    hide Own, Performed, Ends, Conclusions, DistinctTargets, Replay, TargetResult, ResultOf;
    forall i | 0 <= i < |ts|
      ensures ResultOf(Replay(h), ts[i].source).Some?
      ensures TargetResult(s, ts[i], i, ResultOf(Replay(h), ts[i].source).value)
    {
      assert ts[i].skipReason == "" && s.ended.None? ==> i in s.entered;
      ResultInHistory(h, s, ts[i], i);
    }
  }
}
