/** The reconcile of one target: an attempt, a second one after a conflict, and the outcome. */
module Once {
  import opened Json
  import opened Records
  import opened Confluence
  import opened Locality
  import opened Plans
  import opened Client

  /** How the reconciler's own `Reconcile` ends; `text` is that of its error or of the time
      after which it would run again. */
  datatype End = Returns(err: Option<Error>, requeueAfter: int, text: string) | Panics(text: string)

  /** What one attempt does; `writeText` is the text of its first recorded write error. */
  datatype Attempt = Attempt(acts: seq<Act>, end: End, writeText: string)

  /** An object to reconcile once, with what its attempts would do. An empty `skipReason` skips nothing. */
  datatype Target = Target(source: Source, skipReason: string, first: Attempt, second: Attempt)

  /** The outcome of an attempt: a panic is an error, and so is a failed write that the
      reconcile ignored. */
  function OutcomeOf(a: Attempt): Outcome {
    match a.end
    case Panics(text) => Outcome(Some(Other("panic: " + text)), 0, "panic: " + text)
    case Returns(err, after, text) =>
      if err.None? && FirstError(a.acts).Some? then Outcome(FirstError(a.acts), after, "a write failed: " + a.writeText)
      else Outcome(err, after, text)
  }

  predicate Retries(t: Target) {
    OutcomeOf(t.first).err == Some(Conflict)
  }

  function LastAttempt(t: Target): Attempt {
    if Retries(t) then t.second else t.first
  }

  function AttemptOps(source: Source, a: Attempt): seq<Op> {
    Recs(source, AllRecords(a.acts))
  }

  /** The operations of a reconcile on the plan. */
  function Script(t: Target): seq<Op> {
    AttemptOps(t.source, t.first)
    + (if Retries(t) then [Drop(t.source)] + AttemptOps(t.source, t.second) else [])
    + [Finish(t.source, OutcomeOf(LastAttempt(t)))]
  }

  // ---- The methods ----

  function ErrorIn(p: State, source: Source): Option<Error> {
    if source.String() in p.writeErrors then Some(p.writeErrors[source.String()]) else None
  }

  lemma ErrorAfter(h: seq<Op>, source: Source, a: Act)
    ensures var before := ErrorIn(Replay(h), source);
      ErrorIn(Replay(h + Recs(source, ActRecords(a))), source)
        == if before.None? && Surprises(a) then Failure(a.call) else before
  {
    var rs := ActRecords(a);
    assert |rs| <= 1;
    if rs == [] {
      assert h + Recs(source, rs) == h;
    } else {
      assert Recs(source, rs) == [Rec(source, rs[0])];
      ReplaySnoc(h, Rec(source, rs[0]));
    }
  }

  lemma RecsAppend(source: Source, a: seq<Record>, b: seq<Record>)
    ensures Recs(source, a + b) == Recs(source, a) + Recs(source, b)
  {
  }

  function NextError(before: Option<Error>, a: Act): Option<Error> {
    if before.None? && Surprises(a) then Failure(a.call) else before
  }

  method Perform(p: Plan, source: Source, a: Act)
    requires p.Valid()
    modifies p
    ensures p.Valid() && p.history == old(p.history) + Recs(source, ActRecords(a))
    ensures ErrorIn(p.Data(), source) == NextError(ErrorIn(old(p.Data()), source), a)
  {
    ErrorAfter(p.history, source, a);
    match a
    case Writes(c) =>
      hide Apply;
      var _ := Client.Write(p, source, c);
    case Changes(lines) =>
      p.RecordCloudChange(source, lines);
      assert Recs(source, ActRecords(a)) == [Rec(source, ActRecords(a)[0])];
  }

  lemma OneMoreAct(source: Source, acts: seq<Act>, i: nat)
    requires i < |acts|
    ensures Recs(source, AllRecords(acts[..i + 1]))
      == Recs(source, AllRecords(acts[..i])) + Recs(source, ActRecords(acts[i]))
    ensures FirstError(acts[..i + 1]) == NextError(FirstError(acts[..i]), acts[i])
  {
    assert acts[..i + 1][..i] == acts[..i];
    RecsAppend(source, AllRecords(acts[..i]), ActRecords(acts[i]));
  }

  lemma NoActs(source: Source, acts: seq<Act>)
    requires acts == []
    ensures Recs(source, AllRecords(acts)) == [] && FirstError(acts) == None
  {
  }

  /** `reconcileOnce`. */
  method ReconcileOnce(p: Plan, source: Source, a: Attempt) returns (o: Outcome)
    requires p.Valid() && source.String() !in p.writeErrors
    modifies p
    ensures p.Valid() && p.history == old(p.history) + AttemptOps(source, a)
    ensures o == OutcomeOf(a)
  {
    PerformAll(p, source, a.acts);
    hide Apply, AllRecords, Surprises, Failure, Recs;
    match a.end
    case Panics(text) => o := Outcome(Some(Other("panic: " + text)), 0, "panic: " + text);
    case Returns(err, after, text) =>
      o := Outcome(err, after, text);
      if err.None? {
        var failed := p.WriteError(source);
        if failed.Some? {
          o := Outcome(failed, after, "a write failed: " + a.writeText);
        }
      }
  }

  method PerformAll(p: Plan, source: Source, acts: seq<Act>)
    requires p.Valid() && ErrorIn(p.Data(), source) == None
    modifies p
    ensures p.Valid() && p.history == old(p.history) + Recs(source, AllRecords(acts))
    ensures ErrorIn(p.Data(), source) == FirstError(acts)
  {
    hide *;
    var i := 0;
    ghost var was := p.history;
    NoActs(source, acts[..0]);
    assert was == was + [];
    while i < |acts|
      invariant 0 <= i <= |acts|
      invariant p.Valid() && p.history == was + Recs(source, AllRecords(acts[..i]))
      invariant ErrorIn(p.Data(), source) == FirstError(acts[..i])
    {
      Perform(p, source, acts[i]);
      OneMoreAct(source, acts, i);
      assert p.history == was + (Recs(source, AllRecords(acts[..i])) + Recs(source, ActRecords(acts[i])));
      i := i + 1;
    }
    assert acts[..i] == acts;
  }

  /** The end of `reconcile`: the class of the outcome, by the plan as it is now. */
  method Conclude(p: Plan, source: Source, o: Outcome)
    requires p.Valid()
    modifies p
    ensures p.Valid() && p.history == old(p.history) + [Finish(source, o)]
  {
    var waits := false;
    if o.err.Some? && o.err.value.NotFound? {
      waits := p.Creates(o.err.value.group, o.err.value.name);
    }
    var status, reason := OK, "";
    if o.err == Some(NotAvailable) {
      status, reason := Pending, o.text;
    } else if waits {
      status, reason := Pending, "waits for an object that this plan creates: " + o.text;
    } else if o.err.Some? {
      status, reason := Failed, o.text;
    } else if 0 < o.requeueAfter < HOUR {
      status, reason := Pending, "would run again in " + o.text;
    }
    ghost var h, s := p.history, p.Data();
    assert status == Classify(s, o) && reason == Reason(s, o);
    p.SetResult(source, status, reason);
    ReplaySnoc(h, Op.SetResult(source, status, reason));
    ReplaySnoc(h, Finish(source, o));
    p.history := h + [Finish(source, o)];
  }

  /** `reconcile`. */
  method Reconcile(p: Plan, t: Target)
    requires p.Valid() && t.source.String() !in p.writeErrors
    modifies p
    ensures p.Valid() && p.history == old(p.history) + Script(t)
  {
    hide *;
    ghost var was := p.history;
    var o := ReconcileOnce(p, t.source, t.first);
    if o.err == Some(Conflict) {
      ghost var h := p.history;
      p.ForgetSource(t.source);
      NoErrorAfterDrop(p, h, t.source);
      o := ReconcileOnce(p, t.source, t.second);
    }
    Conclude(p, t.source, o);
    ScriptIs(was, t);
  }

  lemma NoErrorAfterDrop(p: Plan, h: seq<Op>, source: Source)
    requires p.Valid() && p.history == h + [Drop(source)]
    ensures source.String() !in p.writeErrors
  {
    ReplaySnoc(h, Drop(source));
  }

  lemma ScriptIs(was: seq<Op>, t: Target)
    ensures Retries(t) <==> OutcomeOf(t.first).err == Some(Conflict)
    ensures LastAttempt(t) == if Retries(t) then t.second else t.first
    ensures var first, end := AttemptOps(t.source, t.first), [Finish(t.source, OutcomeOf(LastAttempt(t)))];
      was + Script(t) == if Retries(t) then was + first + [Drop(t.source)] + AttemptOps(t.source, t.second) + end
                         else was + first + end
  {
    hide AttemptOps, OutcomeOf;
  }

  // ---- What a reconcile leaves in the plan ----

  lemma {:induction false} AloneAppend(h: seq<Op>, k: seq<Op>, from: seq<Op>)
    requires Alone(h) == Alone(from)
    ensures Alone(h + k) == Alone(from + k)
  {
    if k == [] {
      assert h + k == h && from + k == from;
    } else {
      var n := |k| - 1;
      AloneAppend(h, k[..n], from);
      assert h + k == h + k[..n] + [k[n]] && from + k == from + k[..n] + [k[n]];
      AloneSnoc(h + k[..n], k[n]);
      AloneSnoc(from + k[..n], k[n]);
    }
  }

  lemma {:induction false} AloneCompletes(h: seq<Op>)
    requires forall op | op in h :: op.Rec?
    ensures Alone(h).completion == None
  {
    if h != [] {
      AloneCompletes(h[..|h| - 1]);
      assert h[|h| - 1] in h;
    }
  }

  lemma Dropped(source: Source, a: Attempt)
    ensures Alone(AttemptOps(source, a) + [Drop(source)]) == Alone([])
  {
    AloneSnoc(AttemptOps(source, a), Drop(source));
    AloneCompletes(AttemptOps(source, a));
  }

  /** The records of a target are those of its last attempt alone, whatever the others do. */
  lemma LastAttemptOnly(h: seq<Op>, t: Target)
    requires Own(h, t.source.String()) == Script(t)
    ensures ViewOf(Replay(h), t.source.String())
         == Alone(AttemptOps(t.source, LastAttempt(t)) + [Finish(t.source, OutcomeOf(LastAttempt(t)))])
  {
    hide *;
    var a := LastAttempt(t);
    ViewIsLocal(h, t.source.String());
    ScriptAlone(t, AttemptOps(t.source, t.first), AttemptOps(t.source, t.second));
  }

  lemma ScriptAlone(t: Target, first: seq<Op>, second: seq<Op>)
    requires first == AttemptOps(t.source, t.first) && second == AttemptOps(t.source, t.second)
    ensures Alone(Script(t))
         == Alone(AttemptOps(t.source, LastAttempt(t)) + [Finish(t.source, OutcomeOf(LastAttempt(t)))])
  {
    hide Alone, AttemptOps, OutcomeOf;
    if !Retries(t) {
      assert Script(t) == first + [Finish(t.source, OutcomeOf(t.first))];
    } else {
      var end := [Finish(t.source, OutcomeOf(t.second))];
      Dropped(t.source, t.first);
      AloneAppend(first + [Drop(t.source)], second + end, []);
      assert Script(t) == first + [Drop(t.source)] + (second + end);
      assert [] + (second + end) == second + end;
    }
  }

  lemma {:induction false} RecordedError(source: Source, acts: seq<Act>)
    ensures Alone(Recs(source, AllRecords(acts))).err == FirstError(acts)
  {
    if acts != [] {
      var p, a := acts[..|acts| - 1], acts[|acts| - 1];
      RecordedError(source, p);
      var before, rs := Recs(source, AllRecords(p)), ActRecords(a);
      RecsAppend(source, AllRecords(p), rs);
      if rs == [] {
        assert before + Recs(source, rs) == before;
      } else {
        assert Recs(source, rs) == [Rec(source, rs[0])];
        AloneSnoc(before, Rec(source, rs[0]));
      }
    }
  }

  /** An attempt that ends well: no error, no panic, no rerun within the next hour, no unexpected
      write error. */
  predicate Succeeds(a: Attempt) {
    && a.end.Returns? && a.end.err.None? && (a.end.requeueAfter <= 0 || a.end.requeueAfter >= 3600)
    && forall act | act in a.acts :: !Surprises(act)
  }

  /** The first write of an attempt that fails unexpectedly is this one, with this error. */
  predicate FailsFirst(acts: seq<Act>, i: nat, err: Error)
    requires i < |acts|
  {
    Surprises(acts[i]) && Failure(acts[i].call) == Some(err) && forall j | 0 <= j < i :: !Surprises(acts[j])
  }

  lemma {:induction false} FirstErrorAt(acts: seq<Act>, err: Error)
    ensures FirstError(acts) == Some(err) <==> exists i :: 0 <= i < |acts| && FailsFirst(acts, i, err)
  {
    if acts != [] {
      var n := |acts| - 1;
      var p, a := acts[..n], acts[n];
      assert acts == p + [a];
      FirstErrorAt(p, err);
      NoError(p);
      hide Surprises, Failure;
      forall i | 0 <= i < n ensures FailsFirst(p, i, err) <==> FailsFirst(acts, i, err) {
        assert p[i] == acts[i] && forall j | 0 <= j < i :: p[j] == acts[j];
      }
      assert FailsFirst(acts, n, err) <==> FirstError(p).None? && Surprises(a) && Failure(a.call) == Some(err) by {
        assert forall j | 0 <= j < n :: acts[j] == p[j] && p[j] in p;
      }
    }
  }

  /** A reconcile is tried a second time exactly when the first attempt returns a conflict, or returns no
      error although a write failed, the first of them with a conflict; a panic is never retried. */
  lemma RetriesExactly(t: Target)
    ensures Retries(t) <==>
      var a := t.first;
      && a.end.Returns?
      && (|| a.end.err == Some(Conflict)
          || (a.end.err.None? && exists i :: 0 <= i < |a.acts| && FailsFirst(a.acts, i, Conflict)))
    ensures LastAttempt(t) == if Retries(t) then t.second else t.first
  {
    FirstErrorAt(t.first.acts, Conflict);
    hide FirstError, FailsFirst;
  }

  lemma EndingMeaning(a: Attempt)
    ensures Ending(OutcomeOf(a)) == Done <==> Succeeds(a)
  {
    NoError(a.acts);
    hide Surprises, FirstError;
  }

  lemma FinishCompletes(h: seq<Op>, source: Source, o: Outcome)
    ensures Alone(h + [Finish(source, o)]).completion == Some(Ending(o))
  {
    AloneSnoc(h, Finish(source, o));
    hide Alone;
  }

  /** A target completes exactly when its last attempt succeeds, whatever else the plan holds. */
  lemma CompletesExactly(h: seq<Op>, t: Target)
    requires Own(h, t.source.String()) == Script(t)
    ensures ViewOf(Replay(h), t.source.String()).completion == Some(Done) <==> Succeeds(LastAttempt(t))
  {
    hide *;
    var a := LastAttempt(t);
    LastAttemptOnly(h, t);
    FinishCompletes(AttemptOps(t.source, a), t.source, OutcomeOf(a));
    EndingMeaning(a);
  }
}
