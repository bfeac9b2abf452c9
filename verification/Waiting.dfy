/** Which objects a target creates, read off its attempts: the plan calls a reconcile pending
    when it does not find an object that some source creates at that moment. */
module Waiting {
  import opened Records
  import opened Confluence
  import opened Locality
  import opened Client
  import opened Once
  import opened Pool

  /** An accepted create of an object with this group and name. */
  predicate Makes(a: Act, group: string, name: string) {
    && a.Writes? && a.call.verb.CreateVerb? && Failure(a.call).None?
    && a.call.key.group == group && a.call.key.name == name
  }

  predicate AttemptMakes(a: Attempt, group: string, name: string) {
    exists i | 0 <= i < |a.acts| :: Makes(a.acts[i], group, name)
  }

  /** At the end of its reconcile the target creates such an object. */
  predicate Leaves(t: Target, group: string, name: string) {
    t.skipReason == "" && AttemptMakes(LastAttempt(t), group, name)
  }

  /** At some moment of its reconcile the target creates such an object: a first attempt that
      is retried creates it until the plan forgets that attempt. */
  predicate MayMake(t: Target, group: string, name: string) {
    t.skipReason == "" && (AttemptMakes(t.first, group, name) || AttemptMakes(LastAttempt(t), group, name))
  }

  // ---- The same, on the operations of the target ----

  /** The plan of these operations of one source alone creates such an object. */
  ghost predicate CreatesIn(ops: seq<Op>, group: string, name: string) {
    Creating(Alone(ops).writes, group, name)
  }

  ghost predicate Creating(writes: map<ObjectKey, Write>, group: string, name: string) {
    exists key | key in writes :: key.group == group && key.name == name && writes[key].created
  }

  predicate CreateRecord(r: Record, group: string, name: string) {
    r.OnObject? && r.r.Create? && r.key.group == group && r.key.name == name
  }

  predicate HasCreate(rs: seq<Record>, group: string, name: string) {
    exists i | 0 <= i < |rs| :: CreateRecord(rs[i], group, name)
  }

  lemma NothingCreated(group: string, name: string)
    ensures !CreatesIn([], group, name)
  {
  }

  lemma CreatingStep(v: View, source: Source, r: Record, group: string, name: string)
    ensures Creating(Step(v, Rec(source, r)).writes, group, name)
      <==> Creating(v.writes, group, name) || CreateRecord(r, group, name)
  {
    var next := Step(v, Rec(source, r)).writes;
    if Creating(v.writes, group, name) {
      var key :| key in v.writes && key.group == group && key.name == name && v.writes[key].created;
      assert key in next && next[key].created;
    }
    if CreateRecord(r, group, name) {
      assert r.key in next && next[r.key].created;
    }
  }

  lemma HasCreateSnoc(rs: seq<Record>, r: Record, group: string, name: string)
    ensures HasCreate(rs + [r], group, name) <==> HasCreate(rs, group, name) || CreateRecord(r, group, name)
  {
    var t := rs + [r];
    if HasCreate(rs, group, name) {
      var i :| 0 <= i < |rs| && CreateRecord(rs[i], group, name);
      assert t[i] == rs[i];
    }
    assert t[|rs|] == r;
  }

  lemma {:induction false} RecordsCreate(source: Source, rs: seq<Record>, group: string, name: string)
    ensures CreatesIn(Recs(source, rs), group, name) <==> HasCreate(rs, group, name)
  {
    if rs == [] {
      assert Recs(source, rs) == [];
    } else {
      var p, r := rs[..|rs| - 1], rs[|rs| - 1];
      RecordsCreate(source, p, group, name);
      assert rs == p + [r] && Recs(source, rs) == Recs(source, p) + [Rec(source, r)];
      AloneSnoc(Recs(source, p), Rec(source, r));
      CreatingStep(Alone(Recs(source, p)), source, r, group, name);
      HasCreateSnoc(p, r, group, name);
      hide Alone, Step, Creating, HasCreate, CreateRecord;
    }
  }

  lemma {:induction false} ActsCreate(acts: seq<Act>, group: string, name: string)
    ensures HasCreate(AllRecords(acts), group, name) <==> exists i | 0 <= i < |acts| :: Makes(acts[i], group, name)
  {
    if acts != [] {
      var p, a := acts[..|acts| - 1], acts[|acts| - 1];
      ActsCreate(p, group, name);
      assert AllRecords(acts) == AllRecords(p) + ActRecords(a);
      ActCreates(a, AllRecords(p), group, name);
      hide AllRecords, ActRecords, HasCreate, Makes;
      if i :| 0 <= i < |p| && Makes(p[i], group, name) {
        assert acts[i] == p[i];
      }
    }
  }

  lemma ActCreates(a: Act, rs: seq<Record>, group: string, name: string)
    ensures HasCreate(rs + ActRecords(a), group, name) <==> HasCreate(rs, group, name) || Makes(a, group, name)
  {
    var more := ActRecords(a);
    if more == [] {
      assert rs + more == rs;
    } else {
      assert more == [more[0]];
      HasCreateSnoc(rs, more[0], group, name);
    }
    hide HasCreate;
  }

  lemma AttemptCreates(source: Source, a: Attempt, group: string, name: string)
    ensures CreatesIn(AttemptOps(source, a), group, name) <==> AttemptMakes(a, group, name)
  {
    RecordsCreate(source, AllRecords(a.acts), group, name);
    ActsCreate(a.acts, group, name);
    hide CreatesIn, HasCreate, Makes;
  }

  lemma PrefixCreates(source: Source, a: Attempt, k: nat, group: string, name: string)
    requires k <= |AttemptOps(source, a)| && CreatesIn(AttemptOps(source, a)[..k], group, name)
    ensures AttemptMakes(a, group, name)
  {
    var rs := AllRecords(a.acts);
    assert AttemptOps(source, a)[..k] == Recs(source, rs[..k]);
    RecordsCreate(source, rs[..k], group, name);
    RecordsCreate(source, rs, group, name);
    AttemptCreates(source, a, group, name);
    hide CreatesIn, AttemptMakes;
  }

  lemma FinishCreates(ops: seq<Op>, op: Op, group: string, name: string)
    requires op.Finish? || op.SetResult?
    ensures CreatesIn(ops + [op], group, name) <==> CreatesIn(ops, group, name)
  {
    AloneSnoc(ops, op);
    hide Alone;
  }

  /** A whole reconcile creates what its last attempt does. */
  lemma ScriptCreates(t: Target, group: string, name: string)
    ensures CreatesIn(Script(t), group, name) <==> AttemptMakes(LastAttempt(t), group, name)
  {
    var a := LastAttempt(t);
    ScriptAlone(t, AttemptOps(t.source, t.first), AttemptOps(t.source, t.second));
    FinishCreates(AttemptOps(t.source, a), Finish(t.source, OutcomeOf(a)), group, name);
    AttemptCreates(t.source, a, group, name);
    hide AttemptOps, AttemptMakes, OutcomeOf, Script, Alone;
  }

  /** The reconcile before its outcome creates the same. */
  lemma BeforeOutcome(t: Target, group: string, name: string)
    ensures Script(t) != []
    ensures var n := |Script(t)| - 1;
      && Script(t)[n] == Finish(t.source, OutcomeOf(LastAttempt(t)))
      && (CreatesIn(Script(t)[..n], group, name) <==> CreatesIn(Script(t), group, name))
  {
    var n := |Script(t)| - 1;
    assert Script(t)[n] == Finish(t.source, OutcomeOf(LastAttempt(t)));
    assert Script(t) == Script(t)[..n] + [Script(t)[n]];
    FinishCreates(Script(t)[..n], Script(t)[n], group, name);
  }

  lemma SecondPart(t: Target, l: nat, group: string, name: string)
    requires l <= |AttemptOps(t.source, t.second)|
    requires var part := AttemptOps(t.source, t.second)[..l];
      CreatesIn(AttemptOps(t.source, t.first) + [Drop(t.source)] + part, group, name)
    ensures AttemptMakes(t.second, group, name)
  {
    var part := AttemptOps(t.source, t.second)[..l];
    Dropped(t.source, t.first);
    AloneAppend(AttemptOps(t.source, t.first) + [Drop(t.source)], part, []);
    assert [] + part == part;
    PrefixCreates(t.source, t.second, l, group, name);
  }

  /** What any part of a reconcile creates, one of its attempts does. */
  lemma PartCreates(t: Target, k: nat, group: string, name: string)
    requires k <= |Script(t)| && CreatesIn(Script(t)[..k], group, name)
    ensures AttemptMakes(t.first, group, name) || AttemptMakes(LastAttempt(t), group, name)
  {
    var first := AttemptOps(t.source, t.first);
    if k <= |first| {
      assert Script(t)[..k] == first[..k];
      PrefixCreates(t.source, t.first, k, group, name);
    } else if k == |Script(t)| {
      assert Script(t)[..k] == Script(t);
      ScriptCreates(t, group, name);
    } else {
      var l := k - |first| - 1;
      assert Retries(t) && Script(t)[..k] == first + [Drop(t.source)] + AttemptOps(t.source, t.second)[..l];
      SecondPart(t, l, group, name);
    }
  }

  /** And what an attempt creates, the reconcile creates before its outcome. */
  lemma PartWithCreate(t: Target, group: string, name: string) returns (k: nat)
    requires AttemptMakes(t.first, group, name) || AttemptMakes(LastAttempt(t), group, name)
    ensures k < |Script(t)| && CreatesIn(Script(t)[..k], group, name)
  {
    BeforeOutcome(t, group, name);
    if AttemptMakes(LastAttempt(t), group, name) {
      ScriptCreates(t, group, name);
      k := |Script(t)| - 1;
    } else {
      var first := AttemptOps(t.source, t.first);
      AttemptCreates(t.source, t.first, group, name);
      assert Script(t)[..|first|] == first;
      k := |first|;
    }
  }

  // ---- A plan creates what some source creates ----

  lemma CreatedInViews(s: State, group: string, name: string)
    ensures Created(s, group, name) <==> exists src :: Creating(ViewOf(s, src).writes, group, name)
  {
    if Created(s, group, name) {
      var key, src :| key in s.objects && key.group == group && key.name == name
                      && src in s.objects[key] && s.objects[key][src].created;
      assert key in ViewOf(s, src).writes && ViewOf(s, src).writes[key].created;
      assert Creating(ViewOf(s, src).writes, group, name);
    }
    if src :| Creating(ViewOf(s, src).writes, group, name) {
      var key :| key in ViewOf(s, src).writes && key.group == group && key.name == name
        && ViewOf(s, src).writes[key].created;
      assert key in s.objects && src in s.objects[key] && s.objects[key][src].created;
    }
  }

  lemma SourceCreates(h: seq<Op>, src: string, group: string, name: string)
    ensures Creating(ViewOf(Replay(h), src).writes, group, name) <==> CreatesIn(Own(h, src), group, name)
  {
    ViewIsLocal(h, src);
    hide Creating, ViewOf, Own, Replay, Alone;
  }

  /** A plan creates an object exactly when the operations of some source alone do. */
  lemma CreatedBySource(h: seq<Op>, group: string, name: string)
    ensures Created(Replay(h), group, name) <==> exists src :: CreatesIn(Own(h, src), group, name)
  {
    hide *;
    var s := Replay(h);
    CreatedInViews(s, group, name);
    if src :| Creating(ViewOf(s, src).writes, group, name) {
      SourceCreates(h, src, group, name);
    }
    if src :| CreatesIn(Own(h, src), group, name) {
      SourceCreates(h, src, group, name);
    }
  }
}
