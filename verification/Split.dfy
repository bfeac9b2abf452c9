/** Which incomplete reconciles of a whole run are pending and which failed: when that is the
    same in all runs, and otherwise exactly which numbers of workers and which targets let the
    schedule decide. */
module Split {
  import opened Records
  import opened Confluence
  import opened Locality
  import opened Client
  import opened Once
  import opened Pool
  import opened Waiting
  import opened Schedules
  import opened WholeRun
  import opened PhaseSplit

  // ---- When a status is the same in all runs ----

  /** The reconcile does not find an object that another target of its phase may create. */
  ghost predicate Depends(ts: seq<Target>, i: nat)
    requires i < |ts|
  {
    var err := OutcomeOf(LastAttempt(ts[i])).err;
    && ts[i].skipReason == "" && err.Some? && err.value.NotFound?
    && exists j | 0 <= j < |ts| :: j != i && MayMake(ts[j], err.value.group, err.value.name)
  }

  lemma SkippedResult(before: seq<Op>, ts: seq<Target>, workers: int, u: Pool, i: nat)
    requires DistinctTargets(ts) && Untouched(before, ts) && EndsInTime(ts, workers, u)
    requires i < |ts| && ts[i].skipReason != ""
    ensures ResultOf(Replay(before + u.h), ts[i].source) == Some(Result(ts[i].source, Skipped, ts[i].skipReason))
  {
    var name := ts[i].source.String();
    PoolReturns(ts, workers, u);
    OwnAfterEmpty(before, u.h, name);
    assert Own(before + u.h, name) == [Skipping(ts[i])];
    hide Own, Script, Ends, Replay, Conclusions, DistinctTargets, Performed;
    var front, x, back := LastOwn(before + u.h, name);
    assert x == Skipping(ts[i]) by {
      assert Own(before + u.h, name)[|Own(front, name)|] == x;
    }
    ReplaySnoc(front, x);
    ResultKept(front + [x], back, ts[i].source);
  }

  ghost predicate SameCreated(s: State, t: State) {
    forall group, name :: Created(s, group, name) <==> Created(t, group, name)
  }

  /** When target `i` does not depend on the schedule, no other target of the phase creates the
      object that it does not find. */
  lemma MissAtMoment(before: seq<Op>, ts: seq<Target>, workers: int, m: Pool, i: nat, group: string, name: string)
    requires DistinctTargets(ts) && Untouched(before, ts) && Can(ts, workers, m)
    requires i < |ts| && AboutToEnd(ts, m, i) && Misses(ts[i], group, name) && !Depends(ts, i)
    ensures Created(Replay(before + m.h), group, name) <==> Already(before, ts[i], group, name)
  {
    CanInv(ts, workers, m);
    CanOnlyTargets(ts, workers, m);
    AlreadyIs(before, ts[i], group, name);
    CreatedMeans(before, ts, m.h, group, name);
    OwnCreates(ts, m, i, group, name);
    assert m.ended.None? && AllAccounted(ts, m);
    hide Own, Inv, Accounted, CreatesIn, AttemptMakes, Created, Replay, Already, Untouched, AboutToEnd, MayMake,
      OnlyTargets, Can;
    forall j | 0 <= j < |ts| && j != i ensures !CreatesIn(Own(m.h, ts[j].source.String()), group, name) {
      assert Accounted(ts, m, j);
      if CreatesIn(Own(m.h, ts[j].source.String()), group, name) {
        CreatorMay(ts, m, j, group, name);
      }
    }
  }

  lemma SameEnding(s: State, t: State, o: Outcome)
    requires o.err.Some? && o.err.value.NotFound? ==>
      (Created(s, o.err.value.group, o.err.value.name) <==> Created(t, o.err.value.group, o.err.value.name))
    ensures Classify(s, o) == Classify(t, o) && Reason(s, o) == Reason(t, o)
  {
    hide Created;
  }

  lemma PhaseFixed(before: seq<Op>, after: seq<Op>, ts: seq<Target>, n: int, k: int, u: Pool, v: Pool, i: nat)
    requires DistinctTargets(ts) && Untouched(before, ts) && Untouched(after, ts)
    requires SameCreated(Replay(before), Replay(after))
    requires EndsInTime(ts, n, u) && EndsInTime(ts, k, v) && i < |ts| && !Depends(ts, i)
    ensures ResultOf(Replay(before + u.h), ts[i].source) == ResultOf(Replay(after + v.h), ts[i].source)
  {
    if ts[i].skipReason != "" {
      hide *;
      SkippedResult(before, ts, n, u, i);
      SkippedResult(after, ts, k, v, i);
    } else {
      var x, _, xs := MomentOf(ts, n, u, i);
      var y, _, ys := MomentOf(ts, k, v, i);
      hide Own, Replay, Depends, Can, AboutToEnd, Around, Ends, OutcomeOf, LastAttempt, ResultOf, Classify, Reason,
        Created, Already, Untouched;
      ResultAround(before, ts[i], x.h, u.h, xs);
      ResultAround(after, ts[i], y.h, v.h, ys);
      var o := OutcomeOf(LastAttempt(ts[i]));
      if o.err.Some? && o.err.value.NotFound? {
        var group, name := o.err.value.group, o.err.value.name;
        MissAtMoment(before, ts, n, x, i, group, name);
        MissAtMoment(after, ts, k, y, i, group, name);
        AlreadyIs(before, ts[i], group, name);
        AlreadyIs(after, ts[i], group, name);
        assert Created(Replay(before), group, name) <==> Created(Replay(after), group, name);
      }
      SameEnding(Replay(before + x.h), Replay(after + y.h), o);
    }
  }

  // ---- Both phases ----

  /** A run without a deadline. */
  ghost predicate Undisturbed(clusters: seq<Target>, groups: seq<Target>, n: int, m: int, a: Pool, b: Pool) {
    TwoPhases(clusters, groups, n, m, a, b) && a.ended.None? && b.ended.None?
  }

  ghost predicate SomeLeaves(ts: seq<Target>, group: string, name: string) {
    exists j | 0 <= j < |ts| :: Leaves(ts[j], group, name)
  }

  lemma FinalCreates(ts: seq<Target>, workers: int, u: Pool, j: nat, group: string, name: string)
    requires DistinctTargets(ts) && EndsInTime(ts, workers, u) && j < |ts|
    ensures CreatesIn(Own(u.h, ts[j].source.String()), group, name) <==> Leaves(ts[j], group, name)
  {
    PoolReturns(ts, workers, u);
    PerformedWithoutEnd(ts, workers, u, j);
    SkippingCreates(ts[j], group, name);
    ScriptCreates(ts[j], group, name);
    hide Own, CreatesIn, Script, AttemptMakes, Conclusions, Ends;
  }

  /** A phase creates what its targets do in the end, in every run. */
  lemma PhaseCreates(ts: seq<Target>, workers: int, u: Pool, group: string, name: string)
    requires DistinctTargets(ts) && EndsInTime(ts, workers, u)
    ensures Created(Replay(u.h), group, name) <==> SomeLeaves(ts, group, name)
  {
    PoolReturns(ts, workers, u);
    assert [] + u.h == u.h && !Created(Replay([]), group, name);
    hide Own, Created, Replay, Leaves, CreatesIn, Script, Performed, Conclusions, EndsInTime, DistinctTargets;
    forall x | !Among(ts, x) ensures Own(u.h, x) == [] {
      NotAmong(ts, x);
    }
    forall j | 0 <= j < |ts| ensures Own([], ts[j].source.String()) == [] {
      NoneOwned(ts[j].source.String());
    }
    CreatedMeans([], ts, u.h, group, name);
    forall j | 0 <= j < |ts|
      ensures CreatesIn(Own(u.h, ts[j].source.String()), group, name) <==> Leaves(ts[j], group, name)
    {
      FinalCreates(ts, workers, u, j, group, name);
    }
  }

  lemma NoneOwned(name: string)
    ensures Own([], name) == []
  {
  }

  /** Neither phase touches the targets of the other. */
  lemma PhasesApart(clusters: seq<Target>, groups: seq<Target>, n: int, m: int, a: Pool, b: Pool)
    requires TwoPhases(clusters, groups, n, m, a, b)
    ensures Untouched(a.h, groups) && Untouched(b.h, clusters)
  {
    PoolReturns(clusters, n, a);
    PoolReturns(groups, m, b);
    hide Own, Performed, Ends, Conclusions, Script, DistinctTargets;
    forall i, j | 0 <= i < |clusters| && 0 <= j < |groups|
      ensures clusters[i].source.String() != groups[j].source.String()
    {
      KindsDiffer(clusters[i].source, groups[j].source);
    }
  }

  /** Without a deadline the result of a target, with its status and its reason, is the same in
      all runs, with any numbers of workers and any schedules, unless its reconcile does not find an object that another
      target of its own phase may create. */
  lemma ResultFixed(clusters: seq<Target>, groups: seq<Target>, n: int, m: int, a: Pool, b: Pool, k: int, l: int,
                    c: Pool, d: Pool)
    requires Undisturbed(clusters, groups, n, m, a, b) && Undisturbed(clusters, groups, k, l, c, d)
    ensures forall i | 0 <= i < |clusters| && !Depends(clusters, i) ::
      ResultOf(FinalPlan(a, b), clusters[i].source) == ResultOf(FinalPlan(c, d), clusters[i].source)
    ensures forall i | 0 <= i < |groups| && !Depends(groups, i) ::
      ResultOf(FinalPlan(a, b), groups[i].source) == ResultOf(FinalPlan(c, d), groups[i].source)
  {
    PhasesApart(clusters, groups, n, m, a, b);
    PhasesApart(clusters, groups, k, l, c, d);
    assert [] + a.h == a.h && [] + c.h == c.h;
    assert EndsInTime(clusters, n, a) && EndsInTime(groups, m, b) && EndsInTime(clusters, k, c)
      && EndsInTime(groups, l, d);
    hide Own, Depends, ResultOf, Replay, Ends, EndsInTime, Created, Leaves;
    forall i | 0 <= i < |clusters| && !Depends(clusters, i)
      ensures ResultOf(FinalPlan(a, b), clusters[i].source) == ResultOf(FinalPlan(c, d), clusters[i].source)
    {
      NothingBefore(clusters);
      PhaseFixed([], [], clusters, n, k, a, c, i);
      ResultKept(a.h, b.h, clusters[i].source);
      ResultKept(c.h, d.h, clusters[i].source);
    }
    forall group, name ensures Created(Replay(a.h), group, name) <==> Created(Replay(c.h), group, name) {
      PhaseCreates(clusters, n, a, group, name);
      PhaseCreates(clusters, k, c, group, name);
    }
    forall i | 0 <= i < |groups| && !Depends(groups, i)
      ensures ResultOf(FinalPlan(a, b), groups[i].source) == ResultOf(FinalPlan(c, d), groups[i].source)
    {
      PhaseFixed(a.h, c.h, groups, m, l, b, d, i);
    }
  }

  lemma NothingBefore(ts: seq<Target>)
    ensures Untouched([], ts) && forall group, name :: !Created(Replay([]), group, name)
  {
  }

  /** Some run without a deadline ends this target with this status. */
  ghost predicate CanEnd(clusters: seq<Target>, groups: seq<Target>, n: int, m: int, source: Source, status: Status) {
    exists a, b :: Undisturbed(clusters, groups, n, m, a, b) && StatusOf(FinalPlan(a, b), source) == Some(status)
  }

  ghost predicate TwoKinds(clusters: seq<Target>, groups: seq<Target>) {
    && DistinctTargets(clusters) && DistinctTargets(groups)
    && OfKind(clusters, "Cluster") && OfKind(groups, "SecurityGroup")
  }

  lemma SomeRun(ts: seq<Target>, workers: int) returns (u: Pool)
    requires DistinctTargets(ts)
    ensures EndsInTime(ts, workers, u)
  {
    CanInit(ts, workers);
    u := CanReturn(ts, workers, Init(workers));
  }

  /** When a SecurityGroup does not find an object, with any number of workers: it can be
      called failed exactly when nothing that is sure to be there first creates the object, and
      the SecurityGroups handed out before it that create it leave a worker free. It can be
      called pending exactly when such an object is sure to be there, or another SecurityGroup
      can create it in time. */
  lemma GroupSplit(clusters: seq<Target>, groups: seq<Target>, n: int, m: int, i: nat, group: string, name: string)
    requires TwoKinds(clusters, groups) && i < |groups| && Misses(groups[i], group, name)
    ensures var sure := AttemptMakes(LastAttempt(groups[i]), group, name) || SomeLeaves(clusters, group, name);
      && (CanEnd(clusters, groups, n, m, groups[i].source, Failed)
          <==> !sure && |Ahead(groups, i, group, name)| < Width(m))
      && (CanEnd(clusters, groups, n, m, groups[i].source, Pending)
          <==> sure || Meets(groups, Width(m), i, group, name))
  {
    var sure := AttemptMakes(LastAttempt(groups[i]), group, name) || SomeLeaves(clusters, group, name);
    assert DistinctTargets(clusters) && DistinctTargets(groups);
    hide DistinctTargets, OfKind, Misses, AttemptMakes, SomeLeaves, Ahead, Meets, Width, StatusOf, Replay, Undisturbed,
      Already;
    forall a, b | Undisturbed(clusters, groups, n, m, a, b)
      ensures StatusOf(FinalPlan(a, b), groups[i].source) == Some(Failed)
        ==> !sure && |Ahead(groups, i, group, name)| < Width(m)
      ensures StatusOf(FinalPlan(a, b), groups[i].source) == Some(Pending)
        ==> sure || Meets(groups, Width(m), i, group, name)
    {
      GroupSays(clusters, groups, n, m, a, b, i, group, name);
    }
    var a := SomeRun(clusters, n);
    GroupBefore(clusters, groups, n, a, i, group, name);
    if !sure && |Ahead(groups, i, group, name)| < Width(m) {
      var b := MayFail(a.h, groups, m, i, group, name);
      UndisturbedIs(clusters, groups, n, m, a, b);
    }
    if sure || Meets(groups, Width(m), i, group, name) {
      var b := MayWait(a.h, groups, m, i, group, name);
      UndisturbedIs(clusters, groups, n, m, a, b);
    }
  }

  lemma UndisturbedIs(clusters: seq<Target>, groups: seq<Target>, n: int, m: int, a: Pool, b: Pool)
    requires TwoKinds(clusters, groups)
    ensures Undisturbed(clusters, groups, n, m, a, b) <==> EndsInTime(clusters, n, a) && EndsInTime(groups, m, b)
  {
    hide DistinctTargets, OfKind, Ends;
  }

  /** What a SecurityGroup is sure to find does not depend on the run of the Clusters. */
  lemma GroupBefore(clusters: seq<Target>, groups: seq<Target>, n: int, a: Pool, i: nat, group: string, name: string)
    requires TwoKinds(clusters, groups) && EndsInTime(clusters, n, a) && i < |groups|
    ensures Untouched(a.h, groups)
    ensures Already(a.h, groups[i], group, name)
      <==> AttemptMakes(LastAttempt(groups[i]), group, name) || SomeLeaves(clusters, group, name)
  {
    var b := SomeRun(groups, 1);
    UndisturbedIs(clusters, groups, n, 1, a, b);
    PhasesApart(clusters, groups, n, 1, a, b);
    PhaseCreates(clusters, n, a, group, name);
    AlreadyIs(a.h, groups[i], group, name);
    hide *;
  }

  lemma GroupSays(clusters: seq<Target>, groups: seq<Target>, n: int, m: int, a: Pool, b: Pool, i: nat, group: string,
                  name: string)
    requires TwoKinds(clusters, groups) && i < |groups| && Misses(groups[i], group, name)
    requires Undisturbed(clusters, groups, n, m, a, b)
    ensures var sure := AttemptMakes(LastAttempt(groups[i]), group, name) || SomeLeaves(clusters, group, name);
      var status := StatusOf(FinalPlan(a, b), groups[i].source);
      && (status == Some(Failed) ==> !sure && |Ahead(groups, i, group, name)| < Width(m))
      && (status == Some(Pending) ==> sure || Meets(groups, Width(m), i, group, name))
  {
    UndisturbedIs(clusters, groups, n, m, a, b);
    GroupBefore(clusters, groups, n, a, i, group, name);
    assert DistinctTargets(groups) && FinalPlan(a, b) == Replay(a.h + b.h);
    hide *;
    StatusSays(a.h, groups, m, b, i, group, name);
  }

  /** The same for a Cluster: only itself is sure to be there first. */
  lemma ClusterSplit(clusters: seq<Target>, groups: seq<Target>, n: int, m: int, i: nat, group: string, name: string)
    requires TwoKinds(clusters, groups) && i < |clusters| && Misses(clusters[i], group, name)
    ensures var sure := AttemptMakes(LastAttempt(clusters[i]), group, name);
      && (CanEnd(clusters, groups, n, m, clusters[i].source, Failed)
          <==> !sure && |Ahead(clusters, i, group, name)| < Width(n))
      && (CanEnd(clusters, groups, n, m, clusters[i].source, Pending)
          <==> sure || Meets(clusters, Width(n), i, group, name))
  {
    NothingBefore(clusters);
    AlreadyIs([], clusters[i], group, name);
    assert DistinctTargets(clusters) && DistinctTargets(groups);
    hide DistinctTargets, OfKind, Misses, AttemptMakes, Ahead, Meets, Width, StatusOf, Replay, Undisturbed, Already,
      Untouched, Created;
    PhaseExactly([], clusters, n, i, group, name);
    forall a, b, status | Undisturbed(clusters, groups, n, m, a, b)
      && StatusOf(FinalPlan(a, b), clusters[i].source) == Some(status)
      ensures Gives([], clusters, n, i, status)
    {
      ClusterStatus(clusters, groups, n, m, a, b, i);
    }
    var b := SomeRun(groups, m);
    forall a, status | EndsInTime(clusters, n, a) && StatusOf(Replay([] + a.h), clusters[i].source) == Some(status)
      ensures CanEnd(clusters, groups, n, m, clusters[i].source, status)
    {
      UndisturbedIs(clusters, groups, n, m, a, b);
      ClusterStatus(clusters, groups, n, m, a, b, i);
    }
  }

  /** The SecurityGroups leave the statuses of the Clusters as they are. */
  lemma ClusterStatus(clusters: seq<Target>, groups: seq<Target>, n: int, m: int, a: Pool, b: Pool, i: nat)
    requires TwoKinds(clusters, groups) && i < |clusters| && Undisturbed(clusters, groups, n, m, a, b)
    ensures EndsInTime(clusters, n, a)
    ensures StatusOf(FinalPlan(a, b), clusters[i].source) == StatusOf(Replay([] + a.h), clusters[i].source)
  {
    UndisturbedIs(clusters, groups, n, m, a, b);
    PhasesApart(clusters, groups, n, m, a, b);
    assert [] + a.h == a.h && Own(b.h, clusters[i].source.String()) == [];
    hide Own, StatusOf, Replay, Ends, EndsInTime, Undisturbed;
    ResultKept(a.h, b.h, clusters[i].source);
  }

  /** A reconcile that creates one object. */
  function CreatesOne(key: ObjectKey): Attempt {
    Attempt([Writes(Call(CreateVerb, key, None, None, Good(map[]), Good(map[])))], Returns(None, 0, ""), "")
  }

  /** A reconcile that ends because it does not find that object. */
  function MissesOne(key: ObjectKey): Attempt {
    Attempt([], Returns(Some(NotFound(key.group, key.name)), 0, ""), "")
  }

  /** Two SecurityGroups and two workers: the second does not find what the first creates, and
      is called failed in one run and pending in another. */
  lemma SplitMayDiffer(key: ObjectKey)
    ensures var x, y := Source("SecurityGroup", "", "x", []), Source("SecurityGroup", "", "y", []);
      var groups := [Target(x, "", CreatesOne(key), CreatesOne(key)), Target(y, "", MissesOne(key), MissesOne(key))];
      CanEnd([], groups, 2, 2, y, Failed) && CanEnd([], groups, 2, 2, y, Pending)
  {
    var x, y := Source("SecurityGroup", "", "x", []), Source("SecurityGroup", "", "y", []);
    var creates, misses := CreatesOne(key), MissesOne(key);
    var groups := [Target(x, "", creates, creates), Target(y, "", misses, misses)];
    assert x.String()[|x.String()| - 1] == 'x' && y.String()[|y.String()| - 1] == 'y';
    assert Makes(creates.acts[0], key.group, key.name);
    NoError(creates.acts);
    assert OutcomeOf(creates).err != Some(Conflict) && OutcomeOf(misses).err == Some(NotFound(key.group, key.name));
    assert MayMake(groups[0], key.group, key.name) && Misses(groups[1], key.group, key.name);
    assert Ahead(groups, 1, key.group, key.name) <= {0};
    Smaller(Ahead(groups, 1, key.group, key.name), {0});
    hide CanEnd, MayMake;
    GroupSplit([], groups, 2, 2, 1, key.group, key.name);
  }
}
