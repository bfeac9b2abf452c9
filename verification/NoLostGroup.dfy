/** No security group is lost: what the lists hold after any interleaving of attaches and
    detaches, and how a list loses a group without the lock. */
module NoLostGroup {
  import opened Ordering
  import opened Groups
  import opened Machines
  import opened ClusterLock
  import Records

  /** The list that new instances of a pool start with. */
  function CurrentGroups(p: MachinePool): seq<string> {
    match p
    case Asg(versions, _, _) => if Latest(versions) == [] then [] else Latest(versions)[0]
    case Vng(groups, _) => groups
    case Karpenter(_) => []
  }

  function Count(p: MachinePool, sg: string): nat {
    multiset(CurrentGroups(p))[sg]
  }

  predicate AtNewest(p: MachinePool) {
    p.Asg? ==> p.versions != [] && p.at == |p.versions| - 1
  }

  // ---- One operation ----

  /** An attach keeps the other groups that the cloud says exist, and drops those that are gone. */
  predicate Drops(o: Operation, look: string -> Lookup, sg: string) {
    o.attach && o.sg != sg && !look(sg).Present?
  }

  lemma WantedCount(groups: seq<string>, o: Operation, look: string -> Lookup, sg: string)
    ensures var w := Wanted(groups, o, look);
      multiset(if w.Some? then w.value else groups)[sg] ==
        if Drops(o, look, sg) then 0 else if o.sg != sg then multiset(groups)[sg] else if o.attach then 1 else 0
  {
    if o.attach {
      AttachNormalForm(groups, o.sg, look, Covered(groups, o.sg, look));
      NoWrite(groups, o.sg, look);
      assert sg in groups <==> multiset(groups)[sg] > 0;
    } else {
      WithoutCount(groups, o.sg, sg);
    }
    hide Covered, Sort, StrLess, Without, Ordered;
  }

  lemma NodeGroupsCount(groups: seq<string>, o: Operation, look: string -> Lookup, sg: string)
    ensures multiset(NodeGroups(groups, o, look))[sg] ==
      if Drops(o, look, sg) then 0
      else if o.sg != sg then multiset(groups)[sg]
      else if o.attach then 1 else if multiset(groups)[sg] > 0 then multiset(groups)[sg] - 1 else 0
  {
    if o.attach {
      WantedCount(groups, o, look, sg);
      NodeGroupsWanted(groups, o, look);
    } else {
      RemoveFirstCount(groups, o.sg, sg);
      assert o.sg in groups <==> multiset(groups)[o.sg] > 0;
    }
    hide Covered, Sort, StrLess, RemoveFirst;
  }

  lemma VersionGroups(p: MachinePool, o: Operation, look: string -> Lookup)
    requires p.Asg? && Ready(p, o, look)
    ensures var w := Wanted(Latest(p.versions)[0], o, look);
      && CurrentGroups(p.(versions := Versions(p, o, look))) == (if w.Some? then w.value else CurrentGroups(p))
  {
    hide Wanted, Known;
  }

  lemma PatchedGroups(p: MachinePool, o: Operation, n: nat)
    ensures CurrentGroups(Patched(p, o, n)) == CurrentGroups(p) && AtNewest(Patched(p, o, n)) == AtNewest(p)
  {
    hide Patch;
  }

  /** Any operation that took effect sets the number of its own group, and keeps that of the
      others, but for those that an attach finds gone. */
  lemma OutcomeCount(p: MachinePool, o: Operation, look: string -> Lookup, e: Effect, sg: string)
    requires Possible(p, o, look, e) && !p.Karpenter?
    ensures Count(Outcome(p, o, look, e), sg) ==
      if e.Nothing? then Count(p, sg)
      else if Drops(o, look, sg) then 0
      else if o.sg != sg then Count(p, sg)
      else if o.attach then 1 else if p.Asg? || Count(p, sg) == 0 then 0 else Count(p, sg) - 1
  {
    if !e.Nothing? {
      ListCount(p, o, look, sg);
      if e.Applied? {
        PatchedGroups(Placed(p, o, look), o, e.patched);
      } else {
        TemplatedGroups(p, o, look);
      }
    }
    hide Drops, Patched, Placed, Versions, CurrentGroups;
  }

  lemma TemplatedGroups(p: MachinePool, o: Operation, look: string -> Lookup)
    requires p.Asg? && Ready(p, o, look)
    ensures CurrentGroups(p.(versions := Versions(p, o, look))) == CurrentGroups(Placed(p, o, look))
  {
    hide Wanted, Known;
  }

  lemma ListCount(p: MachinePool, o: Operation, look: string -> Lookup, sg: string)
    requires Ready(p, o, look) && !p.Karpenter?
    ensures Count(Placed(p, o, look), sg) ==
      if Drops(o, look, sg) then 0
      else if o.sg != sg then Count(p, sg)
      else if o.attach then 1 else if p.Asg? || Count(p, sg) == 0 then 0 else Count(p, sg) - 1
  {
    if p.Asg? {
      TemplatedGroups(p, o, look);
      VersionGroups(p, o, look);
      WantedCount(CurrentGroups(p), o, look, sg);
    } else {
      NodeGroupsCount(p.groups, o, look, sg);
    }
    hide Wanted, NodeGroups, Known, Drops;
  }

  lemma OutcomeKind(p: MachinePool, o: Operation, look: string -> Lookup, e: Effect)
    requires Possible(p, o, look, e)
    ensures var q := Outcome(p, o, look, e);
      && (q.Asg? <==> p.Asg?) && (q.Vng? <==> p.Vng?) && |q.instances| == |p.instances|
      && (e.Applied? ==> AtNewest(q))
  {
    if e.Applied? {
      PatchedGroups(Placed(p, o, look), o, e.patched);
    }
    hide Wanted, NodeGroups, Known, Patch;
  }

  // ---- A log ----

  /** The last operation on `sg` in `pool` that took effect: whether it attached the group. The
      attach of another group that finds `sg` gone from the cloud removes it as well. */
  function LastOn(log: seq<Entry>, pool: string, sg: string): Records.Option<bool> {
    if log == [] then Records.None
    else
      var e := log[|log| - 1];
      if e.pool == pool && !e.effect.Nothing? && (e.o.sg == sg || Drops(e.o, e.look, sg))
      then Records.Some(e.o.attach && e.o.sg == sg)
      else LastOn(log[..|log| - 1], pool, sg)
  }

  /** How far the last operation on `pool` came that came anywhere. */
  function LastEffect(log: seq<Entry>, pool: string): Effect {
    if log == [] then Nothing
    else
      var e := log[|log| - 1];
      if e.pool == pool && !e.effect.Nothing? then e.effect else LastEffect(log[..|log| - 1], pool)
  }

  lemma {:induction false} SerialPool(cl: Cluster, log: seq<Entry>, pool: string)
    requires Sound(cl, log) && pool in cl
    ensures pool in Serial(cl, log)
    ensures var p, q := cl[pool], Serial(cl, log)[pool];
      (q.Asg? <==> p.Asg?) && (q.Vng? <==> p.Vng?) && |q.instances| == |p.instances|
  {
    if log != [] {
      var e, before := log[|log| - 1], log[..|log| - 1];
      SerialPool(cl, before, pool);
      if e.pool == pool {
        OutcomeKind(Serial(cl, before)[pool], e.o, e.look, e.effect);
      }
      hide Outcome, Possible;
    }
  }

  /** After a serial log, the newest list holds `sg` exactly once if its last operation
      attached it, and not at all if it detached it or found it gone. A virtual node group's detach removes one
      occurrence, so its list must not start with more than one. */
  lemma {:induction false} SerialCount(cl: Cluster, log: seq<Entry>, pool: string, sg: string)
    requires Sound(cl, log) && pool in cl && pool in Serial(cl, log)
    requires !cl[pool].Karpenter?
    requires cl[pool].Vng? ==> Count(cl[pool], sg) <= 1
    ensures Count(Serial(cl, log)[pool], sg) ==
      match LastOn(log, pool, sg) case Some(attach) => if attach then 1 else 0 case None => Count(cl[pool], sg)
  {
    if log != [] {
      var e, before := log[|log| - 1], log[..|log| - 1];
      SerialPool(cl, before, pool);
      SerialCount(cl, before, pool, sg);
      if e.pool == pool && !e.effect.Nothing? {
        OutcomeCount(Serial(cl, before)[pool], e.o, e.look, e.effect, sg);
      }
      hide Outcome, Possible, Count;
    }
  }

  /** The group uses its newest version unless the last operation stopped between creating a
      version and using it; any later operation that ends heals that. */
  lemma {:induction false} SerialAtNewest(cl: Cluster, log: seq<Entry>, pool: string)
    requires Sound(cl, log) && pool in cl && pool in Serial(cl, log)
    requires LastEffect(log, pool).Nothing? ==> AtNewest(cl[pool])
    requires !LastEffect(log, pool).Templated?
    ensures AtNewest(Serial(cl, log)[pool])
  {
    if log != [] {
      var e, before := log[|log| - 1], log[..|log| - 1];
      SerialPool(cl, before, pool);
      if e.pool == pool {
        OutcomeKind(Serial(cl, before)[pool], e.o, e.look, e.effect);
      }
      if e.pool != pool || e.effect.Nothing? {
        SerialAtNewest(cl, before, pool);
      }
      hide Possible, AtNewest;
    }
  }

  /** In every interleaving of any number of workers, whenever the cluster's lock is free: the
      newest list of each pool holds a group as its last operation says, and the auto scaling
      group uses that list. */
  lemma NoLostSecurityGroup(start: map<string, Cluster>, workers: nat, es: seq<Event>, s: World, c: string,
                            pool: string, sg: string)
    requires Reaches(Start(start, workers), es, s)
    requires c in s.cloud && c !in s.holders && c in start && pool in start[c]
    requires !start[c][pool].Karpenter?
    requires start[c][pool].Vng? ==> Count(start[c][pool], sg) <= 1
    ensures c in s.log && pool in s.cloud[c]
    ensures Count(s.cloud[c][pool], sg) ==
      match LastOn(s.log[c], pool, sg)
      case Some(attach) => if attach then 1 else 0
      case None => Count(start[c][pool], sg)
    ensures LastEffect(s.log[c], pool).Applied? ==> AtNewest(s.cloud[c][pool])
  {
    hide Reaches, Serial, Sound, Count, AtNewest;
    Serializable(start, workers, es, s, c);
    SerialPool(start[c], s.log[c], pool);
    SerialCount(start[c], s.log[c], pool, sg);
    if LastEffect(s.log[c], pool).Applied? {
      SerialAtNewest(start[c], s.log[c], pool);
    }
  }

  // ---- Instances ----

  /** The last operation on `sg` that reached instance `i`. */
  function LastPatch(log: seq<Entry>, p: MachinePool, pool: string, i: nat, sg: string): Records.Option<bool>
    requires i < |p.instances|
  {
    if log == [] then Records.None
    else
      var e := log[|log| - 1];
      if e.pool == pool && e.o.sg == sg && e.effect.Applied? && i < e.effect.patched
         && Affects(p.Vng?, e.o.attach, p.instances[i].state)
      then Records.Some(e.o.attach)
      else LastPatch(log[..|log| - 1], p, pool, i, sg)
  }

  lemma PatchHas(p: MachinePool, o: Operation, i: Instance, sg: string)
    ensures Patch(p, o, i).state == i.state
    ensures sg in Patch(p, o, i).groups <==>
      if o.sg == sg && Affects(p.Vng?, o.attach, i.state) then o.attach else sg in i.groups
  {
    PatchGroups(p, o, i);
    EligibleStates(p, o, i);
    var now := Patch(p, o, i).groups;
    assert sg in now <==> multiset(now)[sg] > 0;
    assert sg in i.groups <==> multiset(i.groups)[sg] > 0;
    hide Patch, Eligible, Affects;
  }

  lemma OutcomeInstance(p: MachinePool, o: Operation, look: string -> Lookup, e: Effect, i: nat, sg: string)
    requires Possible(p, o, look, e) && i < |p.instances|
    ensures var q := Outcome(p, o, look, e);
      && i < |q.instances| && q.instances[i].state == p.instances[i].state
      && (sg in q.instances[i].groups <==>
            if e.Applied? && i < e.patched && o.sg == sg && Affects(p.Vng?, o.attach, p.instances[i].state)
            then o.attach
            else sg in p.instances[i].groups)
  {
    if e.Applied? {
      PlacedInstances(p, o, look);
      PatchHas(Placed(p, o, look), o, p.instances[i], sg);
    }
    hide Wanted, NodeGroups, Known, Patch, Placed;
  }

  /** An instance has a group exactly as the last operation that reached it says. */
  lemma {:induction false} SerialInstance(cl: Cluster, log: seq<Entry>, pool: string, i: nat, sg: string)
    requires Sound(cl, log) && pool in cl && pool in Serial(cl, log) && i < |cl[pool].instances|
    ensures var p, q := cl[pool], Serial(cl, log)[pool];
      && i < |q.instances| && q.instances[i].state == p.instances[i].state && (q.Vng? <==> p.Vng?)
      && (sg in q.instances[i].groups <==>
            match LastPatch(log, p, pool, i, sg) case Some(attach) => attach case None => sg in p.instances[i].groups)
  {
    if log != [] {
      var e, before := log[|log| - 1], log[..|log| - 1];
      SerialPool(cl, before, pool);
      SerialPool(cl, log, pool);
      SerialInstance(cl, before, pool, i, sg);
      if e.pool == pool {
        OutcomeInstance(Serial(cl, before)[pool], e.o, e.look, e.effect, i, sg);
      }
      hide Outcome, Possible;
    }
  }

  /** A Karpenter pool has no list: a detach whose instances cannot be listed leaves it as it was,
      and ends like one that reached every instance. */
  lemma KarpenterDetachUnnoticed(p: MachinePool, sg: string, look: string -> Lookup)
    requires p.Karpenter?
    ensures var o := Operation(false, sg);
      var (q, k) := Call(p, o, look, Begun);
      q == p && Interrupted(k).Applied? && Outcome(p, o, look, Interrupted(k)) == p
  {
    PatchedNone(p, Operation(false, sg));
  }

  // ---- Without the lock ----

  /** The two calls with which an operation on an auto scaling group reads it. */
  function Read(p: MachinePool, o: Operation, look: string -> Lookup): Control {
    Call(p, o, look, Call(p, o, look, Begun).1).1
  }

  /** The two calls with which it writes. */
  function Written(p: MachinePool, o: Operation, look: string -> Lookup, k: Control): MachinePool {
    var (q, next) := Call(p, o, look, k);
    Call(q, o, look, next).0
  }

  lemma ReadIs(p: MachinePool, o: Operation, look: string -> Lookup)
    requires p.Asg? && p.versions != []
    ensures Read(p, o, look) == SawLatest(p.at, |p.versions| - 1, Latest(p.versions))
  {
    hide Wanted, NodeGroups, Patch, Latest;
  }

  lemma WrittenIs(q: MachinePool, o: Operation, look: string -> Lookup, at: nat, number: nat, version: Version)
    requires q.Asg? && Usable(version) && (o.attach ==> Known(version[0], look)) && at < |q.versions|
    requires version != [] && Wanted(version[0], o, look).Some?
    ensures Written(q, o, look, SawLatest(at, number, version))
         == q.(versions := q.versions + [[Wanted(version[0], o, look).value]], at := |q.versions|)
  {
    hide Wanted, NodeGroups, Patch, Known;
  }

  /** When a second operation reads before a first one writes, the list always loses the first
      one's group, and the auto scaling group uses that list. */
  lemma LostWithoutLock(p: MachinePool, a: string, b: string, look: string -> Lookup)
    requires p.Asg? && a != b
    requires Ready(p, Operation(true, a), look) && Count(p, a) == 0 && Count(p, b) == 0 && p.at < |p.versions|
    ensures var o, r := Operation(true, a), Operation(true, b);
      var first := Written(p, o, look, Read(p, o, look));
      var both := Written(first, r, look, Read(p, r, look));
      Count(first, a) == 1 && Count(both, a) == 0 && Count(both, b) == 1 && AtNewest(both)
  {
    var o, r := Operation(true, a), Operation(true, b);
    var version := Latest(p.versions);
    assert Usable(version) && Known(version[0], look) && p.versions != [];
    assert multiset(version[0])[a] == 0 && multiset(version[0])[b] == 0;
    ReadIs(p, o, look);
    ReadIs(p, r, look);
    hide *;
    WritesList(p, a, b, look, p.at, |p.versions| - 1, version);
    WritesList(Written(p, o, look, Read(p, o, look)), b, a, look, p.at, |p.versions| - 1, version);
  }

  /** A write uses the list that was read, not the one that is there. */
  lemma WritesList(q: MachinePool, sg: string, other: string, look: string -> Lookup, at: nat, number: nat,
                   version: Version)
    requires q.Asg? && Usable(version) && Known(version[0], look) && at < |q.versions|
    requires multiset(version[0])[sg] == 0 && multiset(version[0])[other] == 0 && sg != other
    ensures var t := Written(q, Operation(true, sg), look, SawLatest(at, number, version));
      t.Asg? && at < |t.versions| && AtNewest(t) && Count(t, sg) == 1 && Count(t, other) == 0
  {
    FreshList(version[0], sg, other, look);
    hide Wanted, Known, Count, AtNewest;
    WrittenIs(q, Operation(true, sg), look, at, number, version);
    NewestList(q, Wanted(version[0], Operation(true, sg), look).value);
  }

  lemma NewestList(p: MachinePool, groups: seq<string>)
    requires p.Asg?
    ensures var q := p.(versions := p.versions + [[groups]], at := |p.versions|);
      (forall sg :: Count(q, sg) == multiset(groups)[sg]) && AtNewest(q)
  {
  }

  lemma FreshList(groups: seq<string>, sg: string, other: string, look: string -> Lookup)
    requires multiset(groups)[sg] == 0 && multiset(groups)[other] == 0 && sg != other
    ensures var w := Wanted(groups, Operation(true, sg), look);
      w.Some? && multiset(w.value)[sg] == 1 && multiset(w.value)[other] == 0
  {
    WantedCount(groups, Operation(true, sg), look, sg);
    WantedCount(groups, Operation(true, sg), look, other);
    hide Wanted;
  }
}
