/** When an attempt changes nothing, and with it the exit code of a run, by the calls that the
    server accepts alone: no record, no write of the plan and no description is mentioned. */
module Idle {
  import opened Json
  import opened Normalize
  import opened Records
  import opened Locality
  import opened Description
  import opened Client
  import opened Once
  import opened WholeRun

  /** The server accepts the call, and its objects can be converted. */
  predicate Taken(c: Call) {
    c.reply.None? && c.desired.Good? && (c.verb.CreateVerb? || (c.read.None? && c.live.Good?))
  }

  /** The accepted calls of an attempt on one object, in order. */
  function CallsOn(acts: seq<Act>, key: ObjectKey): seq<Call> {
    if acts == [] then []
    else
      var n := |acts| - 1;
      CallsOn(acts[..n], key) + CallOf(acts[n], key)
  }

  function CallOf(a: Act, key: ObjectKey): seq<Call> {
    if a.Writes? && a.call.key == key && Taken(a.call) then [a.call] else []
  }

  /** The call writes the status, and everything else. */
  predicate ToStatus(c: Call) { c.verb == SubResource("status") }

  predicate ToMain(c: Call) { !ToStatus(c) && !c.verb.CreateVerb? && !c.verb.DeleteVerb? }

  /** The object of the last call that writes the status, or all else; the object in the cluster
      at the first call if there is none. */
  function Last(calls: seq<Call>, status: bool): Object
    requires calls != [] && forall c | c in calls :: Taken(c)
  {
    var n := |calls| - 1;
    assert Taken(calls[n]);
    if (if status then ToStatus(calls[n]) else ToMain(calls[n])) then calls[n].desired.value
    else if n == 0 then Current(calls[0])
    else Last(calls[..n], status)
  }

  /** The object that has the last word about the field `k`. */
  function Final(calls: seq<Call>, k: string): Object
    requires calls != [] && forall c | c in calls :: Taken(c)
  {
    Last(calls, k == "status")
  }

  /** The same value in the field `k`, up to empty lists. */
  ghost predicate SameAt(a: Object, b: Object, k: string) {
    var x, y := k in a && a[k] != Arr([]), k in b && b[k] != Arr([]);
    (x <==> y) && (x ==> Same(false, a[k], b[k]))
  }

  /** These calls on an object leave it as it was: none creates it, one deletes it only if it is being
      deleted already, and the last calls write back what was there. */
  ghost predicate Idles(calls: seq<Call>)
    requires calls != [] && forall c | c in calls :: Taken(c)
  {
    && (forall c | c in calls :: !c.verb.CreateVerb?)
    && (forall c | c in calls && c.verb.DeleteVerb? :: Dying(Current(calls[0])))
    && forall k :: SameAt(Current(calls[0]), Final(calls, k), k)
  }

  lemma {:induction false} CallsTaken(acts: seq<Act>, key: ObjectKey)
    ensures forall c | c in CallsOn(acts, key) :: Taken(c) && c.key == key
  {
    if acts != [] {
      CallsTaken(acts[..|acts| - 1], key);
    }
  }

  /** What the calls on an object make of its write. */
  ghost predicate Sums(source: Source, calls: seq<Call>, w: Write)
    requires calls != [] && forall c | c in calls :: Taken(c)
  {
    && w.live == Current(calls[0])
    && (w.created <==> exists c :: c in calls && c.verb.CreateVerb?)
    && (w.deleted <==> exists c :: c in calls && c.verb.DeleteVerb?)
    && (!w.created ==> forall k :: SameField(w.desired, Final(calls, k), k))
  }

  lemma SumsFirst(source: Source, c: Call, w: Write)
    requires Taken(c) && Carries(c, Records.Write(source, false, false, Current(c), Current(c)), w)
    ensures Sums(source, [c], w)
  {
    assert [c][0] == c && forall d :: d in [c] <==> d == c;
    forall k | !w.created ensures SameField(w.desired, Final([c], k), k) {
      assert SameField(w.desired, Decides(c, Current(c), k), k);
    }
  }

  lemma SumsNext(source: Source, calls: seq<Call>, c: Call, before: Write, w: Write)
    requires calls != [] && (forall d | d in calls :: Taken(d)) && Taken(c)
    requires Sums(source, calls, before) && Carries(c, before, w)
    ensures Sums(source, calls + [c], w)
  {
    var all := calls + [c];
    assert all[..|calls|] == calls && all[0] == calls[0] && forall d :: d in all <==> d in calls || d == c;
    forall k | !w.created ensures SameField(w.desired, Final(all, k), k) {
      assert SameField(w.desired, Decides(c, before.desired, k), k);
      assert SameField(before.desired, Final(calls, k), k);
    }
  }

  /** What an attempt alone leaves for an object: a write that sums up its calls on it, or nothing. */
  ghost predicate Summed(source: Source, calls: seq<Call>, key: ObjectKey, writes: map<ObjectKey, Write>) {
    && (forall c | c in calls :: Taken(c))
    && (key in writes <==> calls != [])
    && (key in writes ==> Sums(source, calls, writes[key]))
  }

  lemma NoCalls(source: Source, key: ObjectKey)
    ensures Summed(source, CallsOn([], key), key, Alone(Recs(source, AllRecords([]))).writes)
  {
    assert Recs(source, AllRecords([])) == [];
  }

  lemma NextCalls(acts: seq<Act>, key: ObjectKey)
    requires acts != []
    ensures var p, a := acts[..|acts| - 1], acts[|acts| - 1];
      && CallsOn(acts, key) == CallsOn(p, key) + CallOf(a, key)
      && AllRecords(acts) == AllRecords(p) + ActRecords(a)
  {
    hide Taken, ActRecords;
  }

  lemma {:induction false} WriteSums(source: Source, acts: seq<Act>, key: ObjectKey)
    ensures Summed(source, CallsOn(acts, key), key, Alone(Recs(source, AllRecords(acts))).writes)
  {
    if acts == [] {
      NoCalls(source, key);
    } else {
      var p, a := acts[..|acts| - 1], acts[|acts| - 1];
      hide *;
      WriteSums(source, p, key);
      NextCalls(acts, key);
      RecsAppend(source, AllRecords(p), ActRecords(a));
      ActSteps(source, AllRecords(p), a, key);
      SummedNext(source, CallsOn(p, key), a, key, Alone(Recs(source, AllRecords(p))).writes,
                 Alone(Recs(source, AllRecords(acts))).writes);
    }
  }

  lemma SummedNext(source: Source, calls: seq<Call>, a: Act, key: ObjectKey, before: map<ObjectKey, Write>,
                   after: map<ObjectKey, Write>)
    requires Summed(source, calls, key, before) && Stepped(source, a, key, before, after)
    ensures Summed(source, calls + CallOf(a, key), key, after)
  {
    hide Sums, Carries, Taken, Current;
    if a.Writes? && a.call.key == key && Taken(a.call) {
      if calls == [] {
        SumsFirst(source, a.call, after[key]);
        assert [] + [a.call] == [a.call];
      } else {
        SumsNext(source, calls, a.call, before[key], after[key]);
      }
    } else {
      assert calls + [] == calls;
    }
  }

  /** The write of an object before and after an act. */
  ghost predicate Stepped(source: Source, a: Act, key: ObjectKey, before: map<ObjectKey, Write>,
                          after: map<ObjectKey, Write>) {
    if a.Writes? && a.call.key == key && Taken(a.call) then
      var clean := Records.Write(source, false, false, Current(a.call), Current(a.call));
      key in after && Carries(a.call, if key in before then before[key] else clean, after[key])
    else (key in after <==> key in before) && (key in after ==> after[key] == before[key])
  }

  /** What one more act makes of the write of an object. */
  lemma ActSteps(source: Source, rs: seq<Record>, a: Act, key: ObjectKey)
    ensures Stepped(source, a, key, Alone(Recs(source, rs)).writes,
                    Alone(Recs(source, rs) + Recs(source, ActRecords(a))).writes)
  {
    var h, mine := Recs(source, rs), ActRecords(a);
    if mine == [] {
      assert h + Recs(source, mine) == h;
    } else {
      assert Recs(source, mine) == [Rec(source, mine[0])];
      AloneSnoc(h, Rec(source, mine[0]));
      if a.Writes? && Taken(a.call) {
        var before := Alone(h).writes;
        var clean := Records.Write(source, false, false, Current(a.call), Current(a.call));
        StepCarries(a.call, if a.call.key in before then before[a.call.key] else clean);
      }
    }
    hide Alone, StepWrite, Carries, Recs;
  }

  lemma SameByFields(a: Object, b: Object)
    ensures Same(false, Obj(a), Obj(b)) <==> forall k :: SameAt(a, b, k)
  {
    if forall k :: SameAt(a, b, k) {
      forall k | k in a && a[k] != Arr([]) ensures k in b && b[k] != Arr([]) && Same(false, a[k], b[k]) {
        assert SameAt(a, b, k);
      }
      forall k | k in b && b[k] != Arr([]) ensures k in a && a[k] != Arr([]) {
        assert SameAt(a, b, k);
      }
    }
  }

  lemma IdleWrite(p: Printer, source: Source, calls: seq<Call>, w: Write)
    requires calls != [] && (forall c | c in calls :: Taken(c)) && Sums(source, calls, w)
    ensures Describe(p, w).None? <==> Idles(calls)
  {
    Labels(p, w);
    SameByFields(w.live, w.desired);
    hide Describe, Same, Last, Dying, Current;
    if !w.created {
      forall k ensures SameAt(w.live, w.desired, k) <==> SameAt(Current(calls[0]), Final(calls, k), k) {
        assert SameField(w.desired, Final(calls, k), k);
      }
    }
  }

  /** The accepted calls on each object leave it as it was. */
  ghost predicate AllIdle(acts: seq<Act>) {
    forall key | CallsOn(acts, key) != [] :: IdleOn(acts, key)
  }

  ghost predicate IdleOn(acts: seq<Act>, key: ObjectKey)
    requires CallsOn(acts, key) != []
  {
    CallsTaken(acts, key);
    Idles(CallsOn(acts, key))
  }

  lemma NoneDescribed(p: Printer, source: Source, acts: seq<Act>)
    ensures NoneShows(p, Alone(Recs(source, AllRecords(acts))).writes) <==> AllIdle(acts)
  {
    var writes := Alone(Recs(source, AllRecords(acts))).writes;
    forall key
      ensures key in writes <==> CallsOn(acts, key) != []
      ensures key in writes ==> (Describe(p, writes[key]).None? <==> IdleOn(acts, key))
    {
      WriteSums(source, acts, key);
      CallsTaken(acts, key);
      if key in writes {
        hide Sums, Idles, CallsOn, Taken, Describe, Alone, AllRecords;
        IdleWrite(p, source, CallsOn(acts, key), writes[key]);
      }
    }
    hide IdleOn, CallsOn, Alone, AllRecords, Recs;
    EachOrAll(p, writes, acts);
  }

  lemma EachOrAll(p: Printer, writes: map<ObjectKey, Write>, acts: seq<Act>)
    requires forall key :: key in writes <==> CallsOn(acts, key) != []
    requires forall key | key in writes :: Describe(p, writes[key]).None? <==> IdleOn(acts, key)
    ensures NoneShows(p, writes) <==> AllIdle(acts)
  {
  }

  /** An attempt is harmless exactly when it succeeds, changes nothing in AWS and Spot, and leaves each
      object on which it calls as that was. */
  lemma HarmlessExactly(p: Printer, t: Target)
    ensures var a := LastAttempt(t);
      Harmless(p, t) <==> Succeeds(a) && (forall act | act in a.acts :: act.Writes?) && AllIdle(a.acts)
  {
    NoneDescribed(p, t.source, LastAttempt(t).acts);
    hide NoneShows, AllIdle, Alone, Succeeds;
  }
}
