/** Which incomplete reconciles of one phase the plan calls pending and which failed. Of all
    that a plan holds, this alone can depend on the schedule: a reconcile that does not find an
    object is pending if some source creates one at that moment. Here is exactly which of the
    two the schedules of a phase can give. */
module PhaseSplit {
  import opened Records
  import opened Confluence
  import opened Locality
  import opened Client
  import opened Once
  import opened Pool
  import opened Waiting
  import opened Schedules
  import opened WholeRun

  function ResultOf(s: State, source: Source): Option<Result> {
    if source.String() in s.results then Some(s.results[source.String()]) else None
  }

  function StatusOf(s: State, source: Source): Option<Status> {
    var r := ResultOf(s, source);
    if r.Some? then Some(r.value.status) else None
  }

  /** The reconcile ends because it does not find an object with this group and name. */
  predicate Misses(t: Target, group: string, name: string) {
    t.skipReason == "" && OutcomeOf(LastAttempt(t)).err == Some(NotFound(group, name))
  }

  /** The targets handed out before target `i` that create such an object in the end. */
  function Ahead(ts: seq<Target>, i: nat, group: string, name: string): set<nat> {
    set j: nat | j < i && j < |ts| && Leaves(ts[j], group, name)
  }

  /** Some other target of the phase may create such an object while target `i` is reconciled,
      or before: with one worker, only those handed out before do, and only in the end. */
  ghost predicate Meets(ts: seq<Target>, width: nat, i: nat, group: string, name: string) {
    if width == 1 then Ahead(ts, i, group, name) != {}
    else exists j | 0 <= j < |ts| :: j != i && MayMake(ts[j], group, name)
  }

  // ---- The moment of an outcome ----

  lemma OwnSkips(h: seq<Op>, op: Op, name: string)
    requires op.source.String() != name
    ensures Own(h + [op], name) == Own(h, name)
  {
    OwnSnoc(h, op, name);
    hide Own;
    assert Own(h, name) + [] == Own(h, name);
  }

  /** The last operation of a source, and what comes before and after it. */
  lemma {:induction false} LastOwn(h: seq<Op>, name: string) returns (front: seq<Op>, x: Op, back: seq<Op>)
    requires Own(h, name) != []
    ensures h == front + [x] + back && x.source.String() == name
    ensures Own(h, name) == Own(front, name) + [x] && Own(back, name) == []
  {
    var before, op := h[..|h| - 1], h[|h| - 1];
    assert h == before + [op];
    assert Own([], name) == [];
    if op.source.String() == name {
      OwnSnoc(before, op, name);
      front, x, back := before, op, [];
    } else {
      OwnSkips(before, op, name);
      hide *;
      front, x, back := LastOwn(before, name);
      OwnSkips(back, op, name);
      Assoc(front + [x], back, [op]);
      back := back + [op];
    }
  }

  lemma ResultApply(s: State, op: Op, source: Source)
    requires op.source.String() != source.String()
    ensures ResultOf(Apply(s, op), source) == ResultOf(s, source)
  {
    hide ApplyRecord, ForgetObjects, ForgetCloud, Classify, Reason;
    match op
    case Rec(_, r) => RecordKeepsResults(s, op.source, r);
    case _ =>
  }

  lemma RecordKeepsResults(s: State, source: Source, r: Record)
    ensures ApplyRecord(s, source, r).results == s.results
  {
    hide PutRecord, AddSource, SourcesOf;
  }

  lemma {:induction false} ResultKept(h: seq<Op>, k: seq<Op>, source: Source)
    requires Own(k, source.String()) == []
    ensures ResultOf(Replay(h + k), source) == ResultOf(Replay(h), source)
  {
    hide *;
    if k == [] {
      assert h + k == h;
    } else {
      var p, op := k[..|k| - 1], k[|k| - 1];
      assert k == p + [op];
      OwnSnoc(p, op, source.String());
      ResultKept(h, p, source);
      assert h + k == h + p + [op];
      ReplaySnoc(h + p, op);
      ResultApply(Replay(h + p), op, source);
    }
  }

  /** The result that an outcome gives in a plan. */
  ghost function Given(s: State, t: Target): Result {
    var o := OutcomeOf(LastAttempt(t));
    Result(t.source, Classify(s, o), Reason(s, o))
  }

  /** Just before its outcome a target has done all the rest of its reconcile. */
  ghost predicate AboutToEnd(ts: seq<Target>, s: Pool, i: nat)
    requires i < |ts|
  {
    && i < s.next && Script(ts[i]) != []
    && Own(s.h, ts[i].source.String()) == Script(ts[i])[..|Script(ts[i])| - 1]
  }

  /** What a run looks like around the outcome of target `i`: the history before it, and after. */
  ghost predicate Around(t: Target, before: seq<Op>, h: seq<Op>, later: seq<Op>) {
    && h == before + [Finish(t.source, OutcomeOf(LastAttempt(t)))] + later
    && Own(later, t.source.String()) == []
  }

  lemma PartlyDone(ts: seq<Target>, s: Pool, i: nat) returns (w: nat)
    requires i < |ts| && Accounted(ts, s, i) && s.ended.None? && ts[i].skipReason == "" && i < s.next
    requires Own(s.h, ts[i].source.String()) != Script(ts[i])
    ensures Runs(s, w, i) && Own(s.h, ts[i].source.String()) + s.workers[w].rest == Script(ts[i])
  {
    hide Own, Script;
    w :| Runs(s, w, i);
  }

  lemma OnlyOutcomeLeft(own: seq<Op>, rest: seq<Op>, script: seq<Op>)
    requires own + rest == script && script != [] && own == script[..|script| - 1]
    ensures rest == [script[|script| - 1]]
  {
    assert rest == script[|own|..];
  }

  /** From there, the run can go on with the outcome and return. */
  lemma EndFrom(ts: seq<Target>, workers: int, s: Pool, i: nat) returns (u: Pool, later: seq<Op>)
    requires DistinctTargets(ts) && Can(ts, workers, s) && i < |ts| && ts[i].skipReason == ""
    requires AboutToEnd(ts, s, i)
    ensures Ends(ts, workers, u) && u.ended.None? && Around(ts[i], s.h, u.h, later)
  {
    var source, script := ts[i].source, Script(ts[i]);
    BeforeOutcome(ts[i], "", "");
    CanInv(ts, workers, s);
    var w := PartlyDone(ts, s, i);
    var rest := s.workers[w].rest;
    OnlyOutcomeLeft(Own(s.h, source.String()), rest, script);
    assert s.workers[w] == Running(i, rest);
    hide *;
    var m := RunSome(ts, workers, s, w, i, rest, 1);
    var done := [Finish(source, OutcomeOf(LastAttempt(ts[i])))];
    assert rest[..1] == done;
    u := CanReturn(ts, workers, m);
    later := u.h[|m.h|..];
    assert u.h == m.h + later;
    PerformedWithoutEnd(ts, workers, u, i);
    PoolReturns(ts, workers, u);
    NothingLater(script, Own(s.h, source.String()), s.h, later, source, done[0]);
    AroundIs(ts[i], s.h, u.h, later);
  }

  lemma AroundIs(t: Target, before: seq<Op>, h: seq<Op>, later: seq<Op>)
    requires h == before + [Finish(t.source, OutcomeOf(LastAttempt(t)))] + later && Own(later, t.source.String()) == []
    ensures Around(t, before, h, later)
  {
  }

  lemma NothingLater(script: seq<Op>, own: seq<Op>, h: seq<Op>, later: seq<Op>, source: Source, op: Op)
    requires op.source == source && own == Own(h, source.String()) && own + [op] == script
    requires Own(h + [op] + later, source.String()) == script
    ensures Own(later, source.String()) == []
  {
    OwnSnoc(h, op, source.String());
    OwnAppend(h + [op], later, source.String());
    hide Own;
  }

  /** Every run without a deadline has such a moment for each target that it does not skip. */
  lemma MomentOf(ts: seq<Target>, workers: int, u: Pool, i: nat) returns (m: Pool, w: nat, later: seq<Op>)
    requires DistinctTargets(ts) && Ends(ts, workers, u) && u.ended.None? && i < |ts| && ts[i].skipReason == ""
    ensures Can(ts, workers, m) && Runs(m, w, i) && AboutToEnd(ts, m, i)
    ensures Around(ts[i], m.h, u.h, later)
  {
    var name, script := ts[i].source.String(), Script(ts[i]);
    PerformedWithoutEnd(ts, workers, u, i);
    PoolReturns(ts, workers, u);
    BeforeOutcome(ts[i], "", "");
    assert Own(u.h, name) == script;
    var es :| Reaches(ts, Init(workers), es, u);
    hide *;
    var front, x, back := LastOwn(u.h, name);
    assert x == script[|script| - 1] && Own(front, name) == script[..|script| - 1];
    var e;
    m, e := Moment(ts, workers, es, u, |front|);
    assert m.h == front && Appended(ts, m, e) == [x];
    CanInv(ts, workers, m);
    w := OutcomeBy(ts, m, e, i, x);
    later := back;
    AroundIs(ts[i], m.h, u.h, later);
    AboutToEndIs(ts, m, i);
  }

  lemma AboutToEndIs(ts: seq<Target>, m: Pool, i: nat)
    requires i < |ts| && i < m.next && Script(ts[i]) != []
    requires Own(m.h, ts[i].source.String()) == Script(ts[i])[..|Script(ts[i])| - 1]
    ensures AboutToEnd(ts, m, i)
  {
  }

  /** Only a worker on target `i` makes its outcome. */
  lemma OutcomeBy(ts: seq<Target>, m: Pool, e: Event, i: nat, x: Op) returns (w: nat)
    requires DistinctTargets(ts) && Inv(ts, m) && Enabled(ts, m, e) && i < |ts|
    requires x.Finish? && x.source == ts[i].source && Appended(ts, m, e) == [x]
    ensures Runs(m, w, i) && i < m.next
  {
    AppendedSource(ts, m, e);
    var j: nat :| j < |ts| && Concerns(m, e, j) && x.source == ts[j].source;
    assert e.Work?;
    assert Entries(ts, m);
    hide Inv, Accounted, Own, Script;
    assert j == i;
    w := e.w;
  }

  // ---- Which objects a moment of a phase creates ----

  /** The plan before the phase holds nothing of its targets. */
  ghost predicate Untouched(before: seq<Op>, ts: seq<Target>) {
    forall j | 0 <= j < |ts| :: Own(before, ts[j].source.String()) == []
  }

  ghost predicate OnlyTargets(ts: seq<Target>, h: seq<Op>) {
    forall name | !Among(ts, name) :: Own(h, name) == []
  }

  ghost predicate SomeCreates(ts: seq<Target>, h: seq<Op>, group: string, name: string) {
    exists j | 0 <= j < |ts| :: CreatesIn(Own(h, ts[j].source.String()), group, name)
  }

  lemma OwnAfterEmpty(before: seq<Op>, h: seq<Op>, src: string)
    ensures Own(before, src) == [] ==> Own(before + h, src) == Own(h, src)
    ensures Own(h, src) == [] ==> Own(before + h, src) == Own(before, src)
  {
    OwnAppend(before, h, src);
    hide Own;
    assert Own(before, src) + [] == Own(before, src) && [] + Own(h, src) == Own(h, src);
  }

  /** Created: by the earlier phase, or by some target of this one. */
  lemma CreatedMeans(before: seq<Op>, ts: seq<Target>, h: seq<Op>, group: string, name: string)
    requires Untouched(before, ts) && OnlyTargets(ts, h)
    ensures Created(Replay(before + h), group, name)
      <==> Created(Replay(before), group, name) || SomeCreates(ts, h, group, name)
  {
    CreatedBySource(before + h, group, name);
    CreatedBySource(before, group, name);
    NothingCreated(group, name);
    hide CreatesIn, Own, Replay, Created;
    if src :| CreatesIn(Own(before + h, src), group, name) {
      OwnAfterEmpty(before, h, src);
      if j :| 0 <= j < |ts| && ts[j].source.String() == src {
        assert CreatesIn(Own(h, ts[j].source.String()), group, name);
      }
    }
    if src :| CreatesIn(Own(before, src), group, name) {
      OwnAfterEmpty(before, h, src);
      assert !Among(ts, src);
      assert CreatesIn(Own(before + h, src), group, name);
    }
    if j :| 0 <= j < |ts| && CreatesIn(Own(h, ts[j].source.String()), group, name) {
      OwnAfterEmpty(before, h, ts[j].source.String());
      assert CreatesIn(Own(before + h, ts[j].source.String()), group, name);
    }
  }

  lemma InvOnlyTargets(ts: seq<Target>, s: Pool)
    requires AllAccounted(ts, s)
    ensures OnlyTargets(ts, s.h)
  {
    hide Accounted, Own;
    forall name | !Among(ts, name) ensures Own(s.h, name) == [] {
      NotAmong(ts, name);
    }
  }

  lemma SkippingCreates(t: Target, group: string, name: string)
    ensures !CreatesIn([Skipping(t)], group, name)
  {
    NothingCreated(group, name);
    FinishCreates([], Skipping(t), group, name);
    assert [] + [Skipping(t)] == [Skipping(t)];
  }

  /** In a run without a deadline, what target `j` has done is a part of its reconcile. */
  lemma PartDone(ts: seq<Target>, s: Pool, j: nat) returns (k: nat)
    requires j < |ts| && Accounted(ts, s, j) && s.ended.None? && ts[j].skipReason == ""
    ensures k <= |Script(ts[j])| && Own(s.h, ts[j].source.String()) == Script(ts[j])[..k]
    ensures (forall w: nat :: !Runs(s, w, j)) && j < s.next ==> k == |Script(ts[j])|
  {
    var own, script := Own(s.h, ts[j].source.String()), Script(ts[j]);
    hide Own, Script;
    assert script[..|script|] == script;
    k := |own|;
    if w: nat :| Runs(s, w, j) {
      assert j < s.next ==> own + s.workers[w].rest == script;
    }
  }

  lemma CreatorMay(ts: seq<Target>, s: Pool, j: nat, group: string, name: string)
    requires j < |ts| && Accounted(ts, s, j) && s.ended.None?
    requires CreatesIn(Own(s.h, ts[j].source.String()), group, name)
    ensures j < s.next && MayMake(ts[j], group, name)
    ensures (forall w: nat :: !Runs(s, w, j)) ==> Leaves(ts[j], group, name)
  {
    NothingCreated(group, name);
    SkippingCreates(ts[j], group, name);
    ScriptCreates(ts[j], group, name);
    assert ts[j].skipReason == "" && j < s.next;
    var k := PartDone(ts, s, j);
    PartCreates(ts[j], k, group, name);
    assert Script(ts[j])[..|Script(ts[j])|] == Script(ts[j]);
    hide CreatesIn, Own, Script, Accounted, AttemptMakes;
  }

  /** A target that creates an object in the end, and has not yet, is being reconciled. */
  lemma LeaverRuns(ts: seq<Target>, s: Pool, j: nat, group: string, name: string)
    requires j < |ts| && j < s.next && Accounted(ts, s, j) && s.ended.None?
    requires Leaves(ts[j], group, name) && !CreatesIn(Own(s.h, ts[j].source.String()), group, name)
    ensures exists w: nat :: Runs(s, w, j)
  {
    var k := PartDone(ts, s, j);
    ScriptCreates(ts[j], group, name);
    assert Script(ts[j])[..|Script(ts[j])|] == Script(ts[j]);
    hide CreatesIn, Own, Script, Accounted, AttemptMakes;
  }

  // ---- One phase ----

  /** At its outcome target `i` finds that its own phase does not matter: the earlier one, or
      it itself, creates such an object. */
  ghost predicate Already(before: seq<Op>, t: Target, group: string, name: string) {
    Created(Replay(before), group, name) || AttemptMakes(LastAttempt(t), group, name)
  }

  ghost predicate EndsInTime(ts: seq<Target>, workers: int, u: Pool) {
    Ends(ts, workers, u) && u.ended.None?
  }

  lemma ResultAround(before: seq<Op>, t: Target, front: seq<Op>, h: seq<Op>, later: seq<Op>)
    requires Around(t, front, h, later)
    ensures ResultOf(Replay(before + h), t.source) == Some(Given(Replay(before + front), t))
  {
    var end := Finish(t.source, OutcomeOf(LastAttempt(t)));
    assert before + (front + [end] + later) == before + front + [end] + later;
    ReplaySnoc(before + front, end);
    ResultKept(before + front + [end], later, t.source);
    hide Replay, Own, Classify, Reason, OutcomeOf, LastAttempt;
  }

  lemma StatusAround(before: seq<Op>, t: Target, front: seq<Op>, h: seq<Op>, later: seq<Op>)
    requires Around(t, front, h, later)
    ensures StatusOf(Replay(before + h), t.source) == Some(Classify(Replay(before + front), OutcomeOf(LastAttempt(t))))
  {
    ResultAround(before, t, front, h, later);
    hide Replay, Around, Classify, Reason, OutcomeOf, LastAttempt, ResultOf;
  }

  lemma MissStatus(s: State, t: Target, group: string, name: string)
    requires Misses(t, group, name)
    ensures Classify(s, OutcomeOf(LastAttempt(t))) == if Created(s, group, name) then Pending else Failed
  {
    hide OutcomeOf, LastAttempt, Created;
  }

  lemma OwnCreates(ts: seq<Target>, m: Pool, i: nat, group: string, name: string)
    requires i < |ts| && AboutToEnd(ts, m, i)
    ensures CreatesIn(Own(m.h, ts[i].source.String()), group, name) <==> AttemptMakes(LastAttempt(ts[i]), group, name)
  {
    BeforeOutcome(ts[i], group, name);
    ScriptCreates(ts[i], group, name);
    hide CreatesIn, Own, Script, AttemptMakes;
  }

  /** The targets ahead that have not created such an object yet all hold a worker, as target
      `i` does. */
  lemma AheadFits(ts: seq<Target>, m: Pool, w: nat, i: nat, group: string, name: string)
    requires Inv(ts, m) && m.ended.None? && i < |ts| && Runs(m, w, i)
    requires !SomeCreates(ts, m.h, group, name)
    ensures |Ahead(ts, i, group, name)| < |m.workers|
  {
    var ahead := Ahead(ts, i, group, name);
    assert Entries(ts, m) && i < m.next;
    forall j | j in ahead + {i} ensures exists v: nat :: Runs(m, v, j) {
      if j != i {
        assert !CreatesIn(Own(m.h, ts[j].source.String()), group, name);
        assert Accounted(ts, m, j);
        hide Inv, Accounted, CreatesIn, Own;
        LeaverRuns(ts, m, j, group, name);
      }
    }
    hide Inv;
    assert i !in ahead && |ahead + {i}| == |ahead| + 1;
    RunningFit(m, ahead + {i});
  }

  lemma LoneAhead(ts: seq<Target>, workers: int, m: Pool, w: nat, i: nat, j: nat)
    requires DistinctTargets(ts) && Can(ts, workers, m) && Width(workers) == 1
    requires i < |ts| && Runs(m, w, i) && j < m.next && j < |ts| && j != i && ts[j].skipReason == ""
    ensures j < i && forall v: nat :: !Runs(m, v, j)
  {
    CanInv(ts, workers, m);
    var es :| Reaches(ts, Init(workers), es, m);
    LoneWorker(ts, workers, es, m);
    assert Accounted(ts, m, j) && w == 0;
    hide Own, Script, Reaches;
    assert j in m.entered;
  }

  lemma OtherMeets(ts: seq<Target>, workers: int, m: Pool, w: nat, i: nat, j: nat, group: string, name: string)
    requires DistinctTargets(ts) && Can(ts, workers, m)
    requires i < |ts| && Runs(m, w, i) && j < |ts| && j != i
    requires CreatesIn(Own(m.h, ts[j].source.String()), group, name)
    ensures Meets(ts, Width(workers), i, group, name)
  {
    CanInv(ts, workers, m);
    assert Accounted(ts, m, j);
    hide Inv, Accounted, CreatesIn, Own, DistinctTargets, Runs, AttemptMakes;
    CreatorMay(ts, m, j, group, name);
    if Width(workers) == 1 {
      LoneAhead(ts, workers, m, w, i, j);
      assert j in Ahead(ts, i, group, name);
    }
  }

  /** What a status says of the schedule that gave it. */
  lemma StatusSays(before: seq<Op>, ts: seq<Target>, workers: int, u: Pool, i: nat, group: string, name: string)
    requires DistinctTargets(ts) && Untouched(before, ts) && EndsInTime(ts, workers, u)
    requires i < |ts| && Misses(ts[i], group, name)
    ensures var status := StatusOf(Replay(before + u.h), ts[i].source);
      && (status == Some(Failed) || status == Some(Pending))
      && (Already(before, ts[i], group, name) ==> status == Some(Pending))
      && (status == Some(Failed) ==> |Ahead(ts, i, group, name)| < Width(workers))
      && (status == Some(Pending) && !Already(before, ts[i], group, name) ==> Meets(ts, Width(workers), i, group, name))
  {
    var m, w, later := MomentOf(ts, workers, u, i);
    CanInv(ts, workers, m);
    assert m.ended.None?;
    InvOnlyTargets(ts, m);
    hide *;
    StatusAround(before, ts[i], m.h, u.h, later);
    MissStatus(Replay(before + m.h), ts[i], group, name);
    CreatedMeans(before, ts, m.h, group, name);
    OwnCreates(ts, m, i, group, name);
    AlreadyIs(before, ts[i], group, name);
    if !SomeCreates(ts, m.h, group, name) {
      AheadFits(ts, m, w, i, group, name);
      NoneCreates(ts, m.h, i, group, name);
    } else {
      var j := SomeCreator(ts, m.h, group, name);
      if j != i {
        OtherMeets(ts, workers, m, w, i, j, group, name);
      }
      OneCreates(ts, m.h, i, group, name);
    }
  }

  lemma AlreadyIs(before: seq<Op>, t: Target, group: string, name: string)
    ensures Already(before, t, group, name)
      <==> Created(Replay(before), group, name) || AttemptMakes(LastAttempt(t), group, name)
  {
  }

  lemma NoneCreates(ts: seq<Target>, h: seq<Op>, i: nat, group: string, name: string)
    requires i < |ts| && !SomeCreates(ts, h, group, name)
    ensures !CreatesIn(Own(h, ts[i].source.String()), group, name)
  {
  }

  lemma OneCreates(ts: seq<Target>, h: seq<Op>, i: nat, group: string, name: string)
    requires i < |ts|
    ensures CreatesIn(Own(h, ts[i].source.String()), group, name) ==> SomeCreates(ts, h, group, name)
  {
  }

  lemma SomeCreator(ts: seq<Target>, h: seq<Op>, group: string, name: string) returns (j: nat)
    requires SomeCreates(ts, h, group, name)
    ensures j < |ts| && CreatesIn(Own(h, ts[j].source.String()), group, name)
  {
    hide CreatesIn, Own;
    j :| j < |ts| && CreatesIn(Own(h, ts[j].source.String()), group, name);
  }

  // ---- Schedules that give a status ----

  /** Parks target `i` just before its outcome. */
  ghost predicate Waiter(ts: seq<Target>, park: Parking, i: nat) {
    i in park && i < |ts| && Script(ts[i]) != [] && park[i] == |Script(ts[i])| - 1
  }

  lemma ParkedAboutToEnd(ts: seq<Target>, park: Parking, s: Pool, i: nat, j: nat)
    requires Parks(ts, park) && Parked(ts, park, s, j) && Waiter(ts, park, i) && i < j
    ensures AboutToEnd(ts, s, i)
  {
    hide Own, Script;
  }

  /** Whatever else is parked, target `i` can end first, with the status of that moment. */
  lemma Scheduled(before: seq<Op>, ts: seq<Target>, workers: int, park: Parking, i: nat, j: nat, group: string,
                  name: string)
    returns (s: Pool, u: Pool)
    requires DistinctTargets(ts) && Untouched(before, ts) && i < j <= |ts| && Misses(ts[i], group, name)
    requires Parks(ts, park) && Waiter(ts, park, i) && |Held(park, j - 1)| < Width(workers)
    ensures Parked(ts, park, s, j) && EndsInTime(ts, workers, u)
    ensures StatusOf(Replay(before + u.h), ts[i].source)
         == Some(if Created(Replay(before), group, name) || SomeCreates(ts, s.h, group, name) then Pending else Failed)
  {
    assert ts[i].skipReason == "";
    hide *;
    s := Sweep(ts, workers, park, j);
    ParkedAboutToEnd(ts, park, s, i, j);
    CanOnlyTargets(ts, workers, s);
    var later;
    u, later := EndFrom(ts, workers, s, i);
    EndsInTimeIs(ts, workers, u);
    StatusAround(before, ts[i], s.h, u.h, later);
    MissStatus(Replay(before + s.h), ts[i], group, name);
    CreatedMeans(before, ts, s.h, group, name);
  }

  lemma CanOnlyTargets(ts: seq<Target>, workers: int, s: Pool)
    requires DistinctTargets(ts) && Can(ts, workers, s)
    ensures OnlyTargets(ts, s.h)
  {
    CanInv(ts, workers, s);
    InvOnlyTargets(ts, s);
    hide *;
  }

  lemma EndsInTimeIs(ts: seq<Target>, workers: int, u: Pool)
    requires Ends(ts, workers, u) && u.ended.None?
    ensures EndsInTime(ts, workers, u)
  {
  }

  /** What target `k` creates when a schedule has parked it, finished it or not come to it. */
  lemma ParkedCreates(ts: seq<Target>, park: Parking, s: Pool, i: nat, j: nat, k: nat, group: string, name: string)
    requires Parks(ts, park) && Parked(ts, park, s, j) && Waiter(ts, park, i) && i < j && k < |ts|
    ensures var creates := CreatesIn(Own(s.h, ts[k].source.String()), group, name);
      && (k == i ==> (creates <==> Leaves(ts[i], group, name)))
      && (k < j && k !in park ==> (creates <==> Leaves(ts[k], group, name)))
      && (k < j && k in park ==> (creates <==> CreatesIn(Script(ts[k])[..park[k]], group, name)))
      && (k >= j ==> !creates)
  {
    NothingCreated(group, name);
    SkippingCreates(ts[k], group, name);
    ScriptCreates(ts[k], group, name);
    BeforeOutcome(ts[k], group, name);
    assert Own(s.h, ts[k].source.String()) == DoneBy(ts, park, j, k);
    assert i in park && park[i] == |Script(ts[i])| - 1 && ts[i].skipReason == "";
    hide CreatesIn, Own, Script, Parked, AttemptMakes;
  }

  function AheadPark(ts: seq<Target>, i: nat, group: string, name: string): Parking
    requires i < |ts| && Script(ts[i]) != []
  {
    map k | k in Ahead(ts, i, group, name) + {i} :: if k == i then |Script(ts[i])| - 1 else 0
  }

  lemma AheadParks(ts: seq<Target>, i: nat, group: string, name: string)
    requires i < |ts| && Script(ts[i]) != [] && ts[i].skipReason == ""
    ensures var park := AheadPark(ts, i, group, name);
      Parks(ts, park) && Waiter(ts, park, i) && Held(park, i) == Ahead(ts, i, group, name)
  {
    var park := AheadPark(ts, i, group, name);
    forall k | k in park ensures k < |ts| && ts[k].skipReason == "" && park[k] < |Script(ts[k])| {
      ScriptOps(ts[k]);
    }
    hide Script, AttemptMakes;
  }

  lemma AheadQuiet(ts: seq<Target>, s: Pool, i: nat, group: string, name: string)
    requires i < |ts| && Script(ts[i]) != [] && ts[i].skipReason == "" && !AttemptMakes(LastAttempt(ts[i]), group, name)
    requires Parks(ts, AheadPark(ts, i, group, name)) && Parked(ts, AheadPark(ts, i, group, name), s, i + 1)
    ensures !SomeCreates(ts, s.h, group, name)
  {
    var park := AheadPark(ts, i, group, name);
    AheadParks(ts, i, group, name);
    NothingCreated(group, name);
    forall k | 0 <= k < |ts| ensures !CreatesIn(Own(s.h, ts[k].source.String()), group, name) {
      AheadOrNot(ts, i, k, group, name);
      hide *;
      ParkedCreates(ts, park, s, i, i + 1, k, group, name);
    }
    hide CreatesIn, Own, Script;
  }

  lemma AheadOrNot(ts: seq<Target>, i: nat, k: nat, group: string, name: string)
    requires i < |ts| && k < |ts| && Script(ts[i]) != [] && Parks(ts, AheadPark(ts, i, group, name))
    ensures var park := AheadPark(ts, i, group, name);
      && (k in park && k != i ==> Script(ts[k])[..park[k]] == [])
      && (k < i && k !in park ==> !Leaves(ts[k], group, name))
      && (!AttemptMakes(LastAttempt(ts[i]), group, name) ==> !Leaves(ts[i], group, name))
  {
    hide Script, AttemptMakes;
  }

  /** With workers to spare, the targets ahead that create such an object are still at their
      start when target `i` ends. */
  lemma MayFail(before: seq<Op>, ts: seq<Target>, workers: int, i: nat, group: string, name: string) returns (u: Pool)
    requires DistinctTargets(ts) && Untouched(before, ts) && i < |ts| && Misses(ts[i], group, name)
    requires !Already(before, ts[i], group, name) && |Ahead(ts, i, group, name)| < Width(workers)
    ensures EndsInTime(ts, workers, u) && StatusOf(Replay(before + u.h), ts[i].source) == Some(Failed)
  {
    ScriptOps(ts[i]);
    AlreadyIs(before, ts[i], group, name);
    assert ts[i].skipReason == "";
    hide *;
    AheadParks(ts, i, group, name);
    var s;
    s, u := Scheduled(before, ts, workers, AheadPark(ts, i, group, name), i, i + 1, group, name);
    AheadQuiet(ts, s, i, group, name);
  }

  lemma WaitsAlone(ts: seq<Target>, i: nat) returns (park: Parking)
    requires i < |ts| && ts[i].skipReason == ""
    ensures Parks(ts, park) && Waiter(ts, park, i) && |Held(park, i)| == 0 && forall k | k in park :: k == i
  {
    ScriptOps(ts[i]);
    hide Script;
    park := map[i := |Script(ts[i])| - 1];
    assert Held(park, i) == {};
  }

  lemma TwoHeld(i: nat, j: nat, x: nat, y: nat)
    requires i != j
    ensures |Held(map[i := x, j := y], if i < j then j else i)| <= 1
  {
    assert Held(map[i := x, j := y], if i < j then j else i) == {if i < j then i else j};
  }

  /** A target that may create such an object is stopped right after it did. */
  lemma WaitsForOther(ts: seq<Target>, i: nat, j: nat, group: string, name: string) returns (park: Parking)
    requires i < |ts| && ts[i].skipReason == "" && j < |ts| && j != i && MayMake(ts[j], group, name)
    ensures Parks(ts, park) && Waiter(ts, park, i) && |Held(park, if i < j then j else i)| <= 1
    ensures j in park && CreatesIn(Script(ts[j])[..park[j]], group, name)
  {
    ScriptOps(ts[i]);
    var k := PartWithCreate(ts[j], group, name);
    var n: nat := |Script(ts[i])| - 1;
    TwoHeld(i, j, n, k);
    park := map[i := n, j := k];
    hide Script, CreatesIn, Held, AttemptMakes;
  }

  lemma AloneScheduled(before: seq<Op>, ts: seq<Target>, workers: int, i: nat, group: string, name: string)
    returns (park: Parking, s: Pool, u: Pool)
    requires DistinctTargets(ts) && Untouched(before, ts) && i < |ts| && Misses(ts[i], group, name)
    ensures Parks(ts, park) && Waiter(ts, park, i) && forall k | k in park :: k == i
    ensures Parked(ts, park, s, i + 1) && EndsInTime(ts, workers, u)
    ensures StatusOf(Replay(before + u.h), ts[i].source)
         == Some(if Created(Replay(before), group, name) || SomeCreates(ts, s.h, group, name) then Pending else Failed)
  {
    assert ts[i].skipReason == "";
    hide *;
    park := WaitsAlone(ts, i);
    s, u := Scheduled(before, ts, workers, park, i, i + 1, group, name);
  }

  /** With all the targets before it done, target `i` finds what they create in the end. */
  lemma WaitsLast(before: seq<Op>, ts: seq<Target>, workers: int, i: nat, group: string, name: string) returns (u: Pool)
    requires DistinctTargets(ts) && Untouched(before, ts) && i < |ts| && Misses(ts[i], group, name)
    requires Already(before, ts[i], group, name) || Ahead(ts, i, group, name) != {}
    ensures EndsInTime(ts, workers, u) && StatusOf(Replay(before + u.h), ts[i].source) == Some(Pending)
  {
    var j := LastCreator(before, ts, i, group, name);
    hide *;
    var park, s;
    park, s, u := AloneScheduled(before, ts, workers, i, group, name);
    if Leaves(ts[j], group, name) {
      LeaverCreates(ts, park, s, i, j, group, name);
    }
  }

  lemma LeaverCreates(ts: seq<Target>, park: Parking, s: Pool, i: nat, j: nat, group: string, name: string)
    requires Parks(ts, park) && Parked(ts, park, s, i + 1) && Waiter(ts, park, i) && forall k | k in park :: k == i
    requires i < |ts| && j <= i && Leaves(ts[j], group, name)
    ensures SomeCreates(ts, s.h, group, name)
  {
    hide *;
    ParkedCreates(ts, park, s, i, i + 1, j, group, name);
    OneCreates(ts, s.h, j, group, name);
  }

  lemma LastCreator(before: seq<Op>, ts: seq<Target>, i: nat, group: string, name: string) returns (j: nat)
    requires i < |ts| && Misses(ts[i], group, name)
    requires Already(before, ts[i], group, name) || Ahead(ts, i, group, name) != {}
    ensures j <= i && (Created(Replay(before), group, name) || Leaves(ts[j], group, name))
  {
    AlreadyIs(before, ts[i], group, name);
    hide Already, Created, Replay, AttemptMakes, LastAttempt;
    j := i;
    if k :| k in Ahead(ts, i, group, name) {
      j := k;
    }
  }

  lemma WaitsParked(before: seq<Op>, ts: seq<Target>, workers: int, park: Parking, i: nat, j: nat, top: nat,
                    group: string, name: string) returns (u: Pool)
    requires DistinctTargets(ts) && Untouched(before, ts) && i < |ts| && Misses(ts[i], group, name)
    requires Parks(ts, park) && Waiter(ts, park, i) && i <= top && j <= top < |ts| && |Held(park, top)| < Width(workers)
    requires j in park && CreatesIn(Script(ts[j])[..park[j]], group, name)
    ensures EndsInTime(ts, workers, u) && StatusOf(Replay(before + u.h), ts[i].source) == Some(Pending)
  {
    hide *;
    var s;
    s, u := Scheduled(before, ts, workers, park, i, top + 1, group, name);
    ParkedCreates(ts, park, s, i, top + 1, j, group, name);
    OneCreates(ts, s.h, j, group, name);
  }

  lemma WaitsForAny(before: seq<Op>, ts: seq<Target>, workers: int, i: nat, j: nat, group: string, name: string)
    returns (u: Pool)
    requires DistinctTargets(ts) && Untouched(before, ts) && i < |ts| && Misses(ts[i], group, name)
    requires Width(workers) > 1 && j < |ts| && j != i && MayMake(ts[j], group, name)
    ensures EndsInTime(ts, workers, u) && StatusOf(Replay(before + u.h), ts[i].source) == Some(Pending)
  {
    assert ts[i].skipReason == "";
    hide *;
    var park := WaitsForOther(ts, i, j, group, name);
    u := WaitsParked(before, ts, workers, park, i, j, if i < j then j else i, group, name);
  }

  /** Target `i` ends while such an object is in the plan. */
  lemma MayWait(before: seq<Op>, ts: seq<Target>, workers: int, i: nat, group: string, name: string) returns (u: Pool)
    requires DistinctTargets(ts) && Untouched(before, ts) && i < |ts| && Misses(ts[i], group, name)
    requires Already(before, ts[i], group, name) || Meets(ts, Width(workers), i, group, name)
    ensures EndsInTime(ts, workers, u) && StatusOf(Replay(before + u.h), ts[i].source) == Some(Pending)
  {
    hide DistinctTargets, Untouched, Misses, Already, Ahead, EndsInTime, StatusOf, Replay, MayMake;
    if Already(before, ts[i], group, name) || Width(workers) == 1 {
      u := WaitsLast(before, ts, workers, i, group, name);
    } else {
      var j: nat :| j < |ts| && j != i && MayMake(ts[j], group, name);
      u := WaitsForAny(before, ts, workers, i, j, group, name);
    }
  }

  ghost predicate Gives(before: seq<Op>, ts: seq<Target>, workers: int, i: nat, status: Status)
    requires i < |ts|
  {
    exists u :: EndsInTime(ts, workers, u) && StatusOf(Replay(before + u.h), ts[i].source) == Some(status)
  }

  /** In one phase, exactly when a reconcile that does not find an object can be called failed,
      and exactly when pending, over all runs without a deadline. */
  lemma PhaseExactly(before: seq<Op>, ts: seq<Target>, workers: int, i: nat, group: string, name: string)
    requires DistinctTargets(ts) && Untouched(before, ts) && i < |ts| && Misses(ts[i], group, name)
    ensures Gives(before, ts, workers, i, Failed)
      <==> !Already(before, ts[i], group, name) && |Ahead(ts, i, group, name)| < Width(workers)
    ensures Gives(before, ts, workers, i, Pending)
      <==> Already(before, ts[i], group, name) || Meets(ts, Width(workers), i, group, name)
  {
    hide DistinctTargets, Untouched, Misses, Already, Meets, Ahead, Width, EndsInTime, StatusOf, Replay;
    if u :| EndsInTime(ts, workers, u) && StatusOf(Replay(before + u.h), ts[i].source) == Some(Failed) {
      StatusSays(before, ts, workers, u, i, group, name);
    }
    if u :| EndsInTime(ts, workers, u) && StatusOf(Replay(before + u.h), ts[i].source) == Some(Pending) {
      StatusSays(before, ts, workers, u, i, group, name);
    }
    if !Already(before, ts[i], group, name) && |Ahead(ts, i, group, name)| < Width(workers) {
      var u := MayFail(before, ts, workers, i, group, name);
    }
    if Already(before, ts[i], group, name) || Meets(ts, Width(workers), i, group, name) {
      var u := MayWait(before, ts, workers, i, group, name);
    }
  }
}
