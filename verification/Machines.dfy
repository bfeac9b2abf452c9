/** Machine pools in the cloud and the operations that attach a security group to one and
    detach it: as the methods that run them, and as the single API calls they make. */
module Machines {
  import opened Ordering
  import opened Groups
  import Records

  datatype InstanceState = Starting | Running | ShuttingDown | Terminated | Stopping | Stopped

  datatype Instance = Instance(state: InstanceState, groups: seq<string>)

  /** A launch template version: the group list of each of its network interfaces. */
  type Version = seq<seq<string>>

  /** An auto scaling group with its launch template and the version it uses, a virtual node
      group of Ocean, or the instances that Karpenter started. */
  datatype MachinePool =
    | Asg(versions: seq<Version>, at: nat, instances: seq<Instance>)
    | Vng(groups: seq<string>, instances: seq<Instance>)
    | Karpenter(instances: seq<Instance>)

  datatype Operation = Operation(attach: bool, sg: string)

  // ---- Instances ----

  /** Which instances an operation changes. Virtual node groups only list running ones. */
  predicate Eligible(p: MachinePool, o: Operation, i: Instance) {
    if p.Vng? then i.state.Running?
    else if o.attach then !i.state.Terminated? && !i.state.ShuttingDown? && !i.state.Stopping?
    else !i.state.Terminated?
  }

  /** The states of the instances that an operation reaches, listed. */
  predicate Affects(vng: bool, attach: bool, state: InstanceState) {
    match state
    case Running => true
    case Starting => !vng
    case Stopped => !vng
    case ShuttingDown => !vng && !attach
    case Stopping => !vng && !attach
    case Terminated => false
  }

  /** What an operation makes of an instance: on a virtual node group exactly the running ones change;
      elsewhere an attach leaves the group on every instance that starts, runs or is stopped and does
      not touch the others, and a detach takes it from all but the terminated ones. The other groups
      stay as they are, and so does an instance that already is as wanted. */
  ghost predicate ByState(vng: bool, o: Operation, was: Instance, now: Instance) {
    && now.state == was.state
    && (vng && was.state == Running ==> (o.sg in now.groups <==> o.attach))
    && (vng && was.state != Running ==> now == was)
    && (!vng && o.attach && was.state == Starting ==> o.sg in now.groups)
    && (!vng && o.attach && was.state == Running ==> o.sg in now.groups)
    && (!vng && o.attach && was.state == Stopped ==> o.sg in now.groups)
    && (!vng && o.attach && was.state == ShuttingDown ==> now == was)
    && (!vng && o.attach && was.state == Terminated ==> now == was)
    && (!vng && o.attach && was.state == Stopping ==> now == was)
    && (!vng && !o.attach && was.state != Terminated ==> o.sg !in now.groups)
    && (!vng && !o.attach && was.state == Terminated ==> now == was)
    && (forall g | g != o.sg :: multiset(now.groups)[g] == multiset(was.groups)[g])
    && ((o.sg in was.groups <==> o.attach) ==> now == was)
  }

  function Patch(p: MachinePool, o: Operation, i: Instance): Instance {
    if !Eligible(p, o, i) then i
    else if !o.attach then i.(groups := Without(i.groups, o.sg))
    else if o.sg in i.groups then i
    else i.(groups := i.groups + [o.sg])
  }

  function Patched(p: MachinePool, o: Operation, n: nat): MachinePool {
    p.(instances := seq(|p.instances|, i requires 0 <= i < |p.instances| =>
      if i < n then Patch(p, o, p.instances[i]) else p.instances[i]))
  }

  // ---- Lists ----

  predicate Usable(v: Version) {
    v != [] && v[0] != []
  }

  function Latest(versions: seq<Version>): Version {
    if versions == [] then [] else versions[|versions| - 1]
  }

  /** The list that an operation puts in a new version, or `None` when it makes no version. */
  function Wanted(groups: seq<string>, o: Operation, look: string -> Lookup): Records.Option<seq<string>> {
    if !o.attach then Records.Some(Without(groups, o.sg))
    else if Covered(groups, o.sg, look) == Sort(StrLess, groups) then Records.None
    else Records.Some(Covered(groups, o.sg, look))
  }

  function WithVersion(versions: seq<Version>, wanted: Records.Option<seq<string>>): seq<Version> {
    if wanted.Some? then versions + [[wanted.value]] else versions
  }

  function NodeGroups(groups: seq<string>, o: Operation, look: string -> Lookup): seq<string> {
    if !o.attach then RemoveFirst(groups, o.sg)
    else if Covered(groups, o.sg, look) == Sort(StrLess, groups) then groups
    else Covered(groups, o.sg, look)
  }

  // ---- What an operation does, as a whole ----

  /** The operation can be carried out: there is a list to change, and its groups can be looked up. */
  predicate Ready(p: MachinePool, o: Operation, look: string -> Lookup) {
    match p
    case Asg(versions, _, _) => Usable(Latest(versions)) && (o.attach ==> Known(Latest(versions)[0], look))
    case Vng(groups, _) => o.attach ==> Known(groups, look)
    case Karpenter(_) => true
  }

  /** How far an operation came: nowhere, to a version that the group does not use yet, or to
      the end with the first instances patched. */
  datatype Effect = Nothing | Templated | Applied(patched: nat)

  function Versions(p: MachinePool, o: Operation, look: string -> Lookup): seq<Version>
    requires p.Asg? && Ready(p, o, look)
  {
    WithVersion(p.versions, Wanted(Latest(p.versions)[0], o, look))
  }

  /** The pool with the list in place, before any instance is patched. */
  function Placed(p: MachinePool, o: Operation, look: string -> Lookup): MachinePool
    requires Ready(p, o, look)
  {
    match p
    case Asg(_, _, _) => p.(versions := Versions(p, o, look), at := |Versions(p, o, look)| - 1)
    case Vng(groups, _) => p.(groups := NodeGroups(groups, o, look))
    case Karpenter(_) => p
  }

  predicate Possible(p: MachinePool, o: Operation, look: string -> Lookup, e: Effect) {
    match e
    case Nothing => true
    case Templated => p.Asg? && Ready(p, o, look)
    case Applied(n) => Ready(p, o, look)
  }

  function Outcome(p: MachinePool, o: Operation, look: string -> Lookup, e: Effect): MachinePool
    requires Possible(p, o, look, e)
  {
    match e
    case Nothing => p
    case Templated => p.(versions := Versions(p, o, look))
    case Applied(n) => Patched(Placed(p, o, look), o, n)
  }

  /** No instance from the `n`th on has the group, the terminated ones left aside, and those of a virtual
      node group that do not run. */
  predicate CleanFrom(p: MachinePool, sg: string, n: nat) {
    forall i | n <= i < |p.instances| ::
      if p.Vng? then p.instances[i].state == Running ==> sg !in p.instances[i].groups
      else p.instances[i].state != Terminated ==> sg !in p.instances[i].groups
  }

  predicate Clean(p: MachinePool, sg: string) {
    CleanFrom(p, sg, 0)
  }

  // ---- The methods, one call after another ----

  /** Which call fails, if any. */
  datatype Fault = Never | OnGroup | OnLatest | OnCreate | OnUpdate | OnInstances | OnPatch(n: nat)

  /** The list for a new version: fails when a group cannot be looked up. */
  method WantedList(groups: seq<string>, o: Operation, look: string -> Lookup)
    returns (failed: bool, wanted: Records.Option<seq<string>>)
    ensures failed <==> o.attach && !Known(groups, look)
    ensures !failed ==> wanted == Wanted(groups, o, look)
  {
    hide Covered, Known, Sort, StrLess;
    if !o.attach {
      var rest := Detached(groups, o.sg);
      return false, Records.Some(rest);
    }
    var a := new string[|groups|](i requires 0 <= i < |groups| => groups[i]);
    assert a[..] == groups;
    var covered := Attached(a, o.sg, look);
    if covered.None? {
      return true, Records.None;
    }
    return false, if covered.value == a[..] then Records.None else covered;
  }

  class Aws {
    var pools: map<string, MachinePool>

    constructor (pools: map<string, MachinePool>)
      ensures this.pools == pools
    {
      this.pools := pools;
    }

    method SetInstance(name: string, i: nat, instance: Instance)
      requires name in pools && i < |pools[name].instances|
      modifies this
      ensures pools == old(pools)[name := old(pools)[name].(instances := old(pools)[name].instances[i := instance])]
    {
      pools := pools[name := pools[name].(instances := pools[name].instances[i := instance])];
    }

    /** `AttachSecurityGroupToInstances` and `DetachSecurityGroupFromInstances`. */
    method PatchInstances(name: string, o: Operation, fault: Fault) returns (ghost patched: nat)
      requires name in pools
      modifies this
      ensures patched <= |old(pools)[name].instances|
      ensures !fault.OnInstances? && !fault.OnPatch? ==> patched == |old(pools)[name].instances|
      ensures pools == old(pools)[name := Patched(old(pools)[name], o, patched)]
      ensures AllByState(old(pools)[name], o, patched, pools[name].instances)
    {
      hide AllByState;
      ghost var was := pools[name];
      patched := 0;
      assert Patched(was, o, 0) == was;
      if fault.OnInstances? {
        PatchedByState(was, o, 0);
        return;
      }
      var instances := pools[name].instances;
      var i := 0;
      while i < |instances|
        invariant 0 <= i <= |instances| && instances == was.instances
        invariant patched == i
        invariant name in pools && pools == old(pools)[name := Patched(was, o, i)]
      {
        hide *;
        PatchedNext(was, o, i);
        PatchedKind(was, o, i, instances[i]);
        var instance := instances[i];
        var attached := IsAttached(instance.groups, o.sg);
        if Eligible(pools[name], o, instance) && attached == !o.attach {
          if fault == OnPatch(i) {
            PatchedByState(was, o, i);
            return;
          }
          PatchNeeded(was, o, instance);
          var groups;
          if o.attach {
            groups := instance.groups + [o.sg];
          } else {
            groups := Detached(instance.groups, o.sg);
          }
          SetInstance(name, i, instance.(groups := groups));
        } else {
          PatchNeedless(was, o, instance);
          assert Patched(was, o, i).instances[i := instance] == Patched(was, o, i).instances;
        }
        i := i + 1;
        patched := i;
        assert pools == old(pools)[name := Patched(was, o, i)];
      }
      PatchedByState(was, o, i);
    }

    /** `attachSGToASG` and `detachSGFromASG`. */
    method ChangeAsg(name: string, o: Operation, look: string -> Lookup, fault: Fault)
      returns (err: bool, ghost effect: Effect)
      requires name in pools && pools[name].Asg?
      modifies this
      ensures Possible(old(pools)[name], o, look, effect)
      ensures pools == old(pools)[name := Outcome(old(pools)[name], o, look, effect)]
      ensures err <==> !effect.Applied?
      ensures Ready(old(pools)[name], o, look) && fault.Never? ==> effect == Applied(|old(pools)[name].instances|)
      ensures !Ready(old(pools)[name], o, look) ==> effect == Nothing
      ensures fault.Never? ==>
        var versions := old(pools)[name].versions;
        (err <==>
          || versions == [] || versions[|versions| - 1] == [] || versions[|versions| - 1][0] == []
          || (o.attach && exists g :: g in versions[|versions| - 1][0] && look(g) == Unknown))
    {
      hide Covered, Wanted, Patched, Known;
      ghost var was := pools[name];
      if fault.OnGroup? {
        return true, Nothing;
      }
      var at := pools[name].at;
      if fault.OnLatest? || |pools[name].versions| == 0 {
        return true, Nothing;
      }
      var version, number := Latest(pools[name].versions), |pools[name].versions| - 1;
      if |version| == 0 || |version[0]| == 0 {
        return true, Nothing;
      }
      var failed, wanted := WantedList(version[0], o, look);
      KnownMeans(version[0], look);
      if failed {
        return true, Nothing;
      }
      if wanted.Some? {
        if fault.OnCreate? {
          return true, Nothing;
        }
        pools := pools[name := pools[name].(versions := pools[name].versions + [[wanted.value]])];
        number := |pools[name].versions| - 1;
      }
      assert pools[name] == Outcome(was, o, look, Templated);
      if at != number {
        if fault.OnUpdate? {
          return true, Templated;
        }
        pools := pools[name := pools[name].(at := number)];
      }
      assert pools[name] == Placed(was, o, look);
      ghost var patched := PatchInstances(name, o, fault);
      return false, Applied(patched);
    }

    /** `attachSGToVNG`. */
    method AttachToVng(name: string, sg: string, look: string -> Lookup, fault: Fault)
      returns (err: bool, ghost effect: Effect)
      requires name in pools && pools[name].Vng?
      modifies this
      ensures Possible(old(pools)[name], Operation(true, sg), look, effect)
      ensures pools == old(pools)[name := Outcome(old(pools)[name], Operation(true, sg), look, effect)]
      ensures Ready(old(pools)[name], Operation(true, sg), look) && fault.Never?
        ==> !err && effect == Applied(|old(pools)[name].instances|)
      ensures !Ready(old(pools)[name], Operation(true, sg), look) ==> err && effect == Nothing
      ensures fault.Never? ==> (err <==> exists g :: g in old(pools)[name].groups && look(g) == Unknown)
    {
      hide Covered, Wanted, Patched, Known, RemoveFirst;
      ghost var was, o := pools[name], Operation(true, sg);
      if fault.OnGroup? {
        return true, Nothing;
      }
      var failed, wanted := WantedList(pools[name].groups, Operation(true, sg), look);
      KnownMeans(was.groups, look);
      if failed {
        return true, Nothing;
      }
      NodeGroupsWanted(was.groups, o, look);
      if wanted.Some? {
        if fault.OnUpdate? {
          return true, Nothing;
        }
        pools := pools[name := pools[name].(groups := wanted.value)];
      }
      assert pools[name] == Placed(was, o, look);
      ghost var patched := PatchInstances(name, Operation(true, sg), fault);
      return fault.OnInstances?, Applied(patched);
    }

    /** `detachSGFromVNG`: nothing happens, not even to instances, when the list lacks the group. */
    method DetachFromVng(name: string, sg: string, look: string -> Lookup, fault: Fault)
      returns (err: bool, ghost effect: Effect)
      requires name in pools && pools[name].Vng?
      modifies this
      ensures Possible(old(pools)[name], Operation(false, sg), look, effect)
      ensures pools == old(pools)[name := Outcome(old(pools)[name], Operation(false, sg), look, effect)]
      ensures sg !in old(pools)[name].groups ==> (fault.OnGroup? || !err) && pools == old(pools)
      ensures sg in old(pools)[name].groups && fault.Never? ==> !err && effect == Applied(|old(pools)[name].instances|)
      ensures !err ==> effect.Applied? && (Clean(pools[name], sg) <==> CleanFrom(old(pools)[name], sg, effect.patched))
    {
      hide Patch, RemoveFirst;
      ghost var was := pools[name];
      if fault.OnGroup? {
        return true, Nothing;
      }
      var groups := pools[name].groups;
      if sg !in groups {
        RemoveNone(groups, sg);
        assert Patched(Placed(was, Operation(false, sg), look), Operation(false, sg), 0) == was;
        DetachedClean(was, sg, look, 0);
        return false, Applied(0);
      }
      var a := new string[|groups|](i requires 0 <= i < |groups| => groups[i]);
      assert a[..] == groups;
      var kept := RemoveFirstIn(a, sg);
      if fault.OnUpdate? {
        return true, Nothing;
      }
      pools := pools[name := pools[name].(groups := a[..kept])];
      assert pools[name] == Placed(was, Operation(false, sg), look);
      ghost var patched := PatchInstances(name, Operation(false, sg), fault);
      DetachedClean(was, sg, look, patched);
      return fault.OnInstances?, Applied(patched);
    }
  }

  lemma KnownMeans(groups: seq<string>, look: string -> Lookup)
    ensures Known(groups, look) <==> !exists g :: g in groups && look(g) == Unknown
  {
  }

  lemma EligibleStates(p: MachinePool, o: Operation, i: Instance)
    ensures Eligible(p, o, i) <==> Affects(p.Vng?, o.attach, i.state)
  {
  }

  lemma PatchGroups(p: MachinePool, o: Operation, i: Instance)
    ensures var now := Patch(p, o, i);
      && now.state == i.state
      && (Eligible(p, o, i) ==> (o.sg in now.groups <==> o.attach))
      && (!Eligible(p, o, i) || (o.sg in i.groups <==> o.attach) ==> now == i)
      && (forall g | g != o.sg :: multiset(now.groups)[g] == multiset(i.groups)[g])
  {
    forall g ensures multiset(Without(i.groups, o.sg))[g] == if g != o.sg then multiset(i.groups)[g] else 0 {
      WithoutCount(i.groups, o.sg, g);
    }
    WithoutGone(i.groups, o.sg);
    if o.sg !in i.groups {
      WithoutNone(i.groups, o.sg);
    }
    hide Without, Eligible;
  }

  lemma PatchByState(p: MachinePool, o: Operation, i: Instance)
    ensures ByState(p.Vng?, o, i, Patch(p, o, i))
  {
    PatchGroups(p, o, i);
    hide Patch;
  }

  /** The first `n` instances follow the operation, and the others stay. */
  ghost predicate AllByState(p: MachinePool, o: Operation, n: nat, instances: seq<Instance>) {
    |instances| == |p.instances| && forall i | 0 <= i < |instances| ::
      if i < n then ByState(p.Vng?, o, p.instances[i], instances[i]) else instances[i] == p.instances[i]
  }

  lemma PatchedByState(p: MachinePool, o: Operation, n: nat)
    ensures AllByState(p, o, n, Patched(p, o, n).instances)
  {
    forall i | 0 <= i < |p.instances| ensures ByState(p.Vng?, o, p.instances[i], Patch(p, o, p.instances[i])) {
      PatchByState(p, o, p.instances[i]);
    }
    hide ByState, Patch;
  }

  lemma {:induction false} WithoutGone(groups: seq<string>, sg: string)
    ensures sg !in Without(groups, sg)
  {
    WithoutCount(groups, sg, sg);
    assert sg in Without(groups, sg) <==> multiset(Without(groups, sg))[sg] > 0;
  }

  /** After a detach from a virtual node group that patched `n` instances, no running instance
      has the group exactly when none from the `n`th on had it. */
  lemma DetachedClean(p: MachinePool, sg: string, look: string -> Lookup, n: nat)
    requires p.Vng?
    ensures Clean(Outcome(p, Operation(false, sg), look, Applied(n)), sg) <==> CleanFrom(p, sg, n)
  {
    var o := Operation(false, sg);
    var q := Outcome(p, o, look, Applied(n));
    forall i | 0 <= i < |p.instances|
      ensures (Eligible(q, o, q.instances[i]) ==> sg !in q.instances[i].groups)
        <==> (i >= n && Eligible(p, o, p.instances[i]) ==> sg !in p.instances[i].groups)
    {
      WithoutGone(p.instances[i].groups, sg);
    }
    hide Without, RemoveFirst;
  }

  /** A detach that updates the list and then cannot list the instances fails, and its retry
      succeeds without looking at them, because the list no longer holds the group: the
      instances keep the group that they had. */
  lemma RetryKeepsInstances(p: MachinePool, sg: string, look: string -> Lookup)
    requires p.Vng? && multiset(p.groups)[sg] == 1
    ensures var o := Operation(false, sg);
      var q := Outcome(p, o, look, Applied(0));
      && sg !in q.groups && Outcome(q, o, look, Applied(0)) == q
      && q.instances == p.instances && (Clean(q, sg) <==> Clean(p, sg))
  {
    RemoveFirstCount(p.groups, sg, sg);
    var rest := RemoveFirst(p.groups, sg);
    assert sg in p.groups && multiset(rest)[sg] == 0;
    RemoveNone(rest, sg);
    DetachedClean(p, sg, look, 0);
    hide RemoveFirst;
  }

  lemma NodeGroupsWanted(groups: seq<string>, o: Operation, look: string -> Lookup)
    requires o.attach
    ensures NodeGroups(groups, o, look) == var w := Wanted(groups, o, look); if w.Some? then w.value else groups
  {
    hide Covered, Sort;
  }

  lemma PatchNeeded(p: MachinePool, o: Operation, i: Instance)
    requires Eligible(p, o, i) && (o.sg in i.groups) == !o.attach
    ensures Patch(p, o, i) == i.(groups := if o.attach then i.groups + [o.sg] else Without(i.groups, o.sg))
  {
    hide Without;
  }

  lemma PatchedKind(p: MachinePool, o: Operation, n: nat, i: Instance)
    ensures Eligible(Patched(p, o, n), o, i) <==> Eligible(p, o, i)
    ensures |Patched(p, o, n).instances| == |p.instances|
  {
    hide Patch;
  }

  lemma PatchNeedless(p: MachinePool, o: Operation, i: Instance)
    requires Eligible(p, o, i) ==> (o.sg in i.groups) == o.attach
    ensures Patch(p, o, i) == i
  {
    if !o.attach && o.sg !in i.groups {
      WithoutNone(i.groups, o.sg);
    }
  }

  lemma PatchedNext(p: MachinePool, o: Operation, i: nat)
    requires i < |p.instances|
    ensures Patched(p, o, i + 1)
      == Patched(p, o, i).(instances := Patched(p, o, i).instances[i := Patch(p, o, p.instances[i])])
    ensures Patched(p, o, i).instances[i] == p.instances[i]
  {
    hide Patch;
    var x := Patched(p, o, i + 1).instances;
    assert x == Patched(p, o, i).instances[i := Patch(p, o, p.instances[i])];
  }
}
