/** Reconciles of several workers on one cloud, one API call at a time. A worker holds the lock
    of one cluster while it works on the machine pools of that cluster. */
module ClusterLock {
  import opened Ordering
  import opened Groups
  import opened Machines
  import Records

  // ---- One operation, one call at a time ----

  /** What an operation has read so far, and what it does next. */
  datatype Control =
    | Begun
    | SawGroup(at: nat)
    | SawLatest(at: nat, number: nat, version: Version)
    | Chose(at: nat, number: nat)
    | SawNodes(groups: seq<string>)
    | Ended
    | Patching(seen: seq<Instance>, next: nat)
    | Over(effect: Effect)

  /** The next call of an operation: its effect on the pool and what the operation knows then.
      It uses what earlier calls read, which another writer may have made stale. */
  function Call(p: MachinePool, o: Operation, look: string -> Lookup, k: Control): (MachinePool, Control) {
    match k
    case Begun =>
      if p.Asg? then (p, SawGroup(p.at)) else if p.Vng? then (p, SawNodes(p.groups)) else (p, Ended)
    case SawGroup(at) =>
      if p.Asg? && p.versions != [] then (p, SawLatest(at, |p.versions| - 1, Latest(p.versions)))
      else (p, Over(Nothing))
    case SawLatest(at, number, version) =>
      if !p.Asg? || !Usable(version) || (o.attach && !Known(version[0], look)) then (p, Over(Nothing))
      else
        var wanted := Wanted(version[0], o, look);
        if wanted.None? then (p, Chose(at, number))
        else (p.(versions := WithVersion(p.versions, wanted)), Chose(at, |p.versions|))
    case Chose(at, number) => (if p.Asg? && at != number then p.(at := number) else p, Ended)
    case SawNodes(groups) =>
      if !p.Vng? || (o.attach && !Known(groups, look)) then (p, Over(Nothing))
      else if !o.attach && o.sg !in groups then (p, Over(Applied(0)))
      else (p.(groups := NodeGroups(groups, o, look)), Ended)
    case Ended => (p, Patching(p.instances, 0))
    case Patching(seen, n) =>
      if n >= |seen| || n >= |p.instances| then (p, Over(Applied(n)))
      else (p.(instances := p.instances[n := Patch(p, o, seen[n])]), Patching(seen, n + 1))
    case Over(_) => (p, k)
  }

  /** What is left of an operation whose next call fails. */
  function Interrupted(k: Control): Effect {
    match k
    case Chose(_, _) => Templated
    case Ended => Applied(0)
    case Patching(_, n) => Applied(n)
    case Over(e) => e
    case _ => Nothing
  }

  // ---- The workers ----

  /** A cluster is its machine pools by name. */
  type Cluster = map<string, MachinePool>

  datatype Session =
    | Idle
    | Holding(cluster: string)
    | Busy(cluster: string, pool: string, o: Operation, look: string -> Lookup, k: Control)

  /** An operation that ended, what the cloud answered to its lookups, and how far it came. */
  datatype Entry = Entry(pool: string, o: Operation, look: string -> Lookup, effect: Effect)

  /** The cloud, the locks, the workers, and the ended operations of each cluster in their order. */
  datatype World = World(
    cloud: map<string, Cluster>,
    holders: map<string, nat>,
    workers: seq<Session>,
    log: map<string, seq<Entry>>)

  datatype Event =
    | Acquire(w: nat, cluster: string)
    | Begin(w: nat, pool: string, o: Operation, look: string -> Lookup)
    | Advance(w: nat)
    | Fail(w: nat)
    | Release(w: nat)

  predicate Enabled(s: World, e: Event) {
    && e.w < |s.workers|
    && match e
       case Acquire(w, c) => s.workers[w].Idle? && c in s.cloud && c in s.log && c !in s.holders
       case Begin(w, pool, _, _) =>
         s.workers[w].Holding? && s.workers[w].cluster in s.cloud && pool in s.cloud[s.workers[w].cluster]
       case Advance(w) => Working(s, w)
       case Fail(w) => Working(s, w)
       case Release(w) => s.workers[w].Holding? && s.workers[w].cluster in s.holders
  }

  predicate Working(s: World, w: nat) {
    && w < |s.workers| && s.workers[w].Busy?
    && s.workers[w].cluster in s.cloud && s.workers[w].cluster in s.log
    && s.workers[w].pool in s.cloud[s.workers[w].cluster]
  }

  /** The session of a worker after a call: an operation that is over goes to the log. */
  function Step(s: World, e: Event): World
    requires Enabled(s, e)
  {
    match e
    case Acquire(w, c) => s.(workers := s.workers[w := Holding(c)], holders := s.holders[c := w])
    case Begin(w, pool, o, look) => s.(workers := s.workers[w := Busy(s.workers[w].cluster, pool, o, look, Begun)])
    case Release(w) =>
      s.(workers := s.workers[w := Idle], holders := s.holders - {s.workers[w].cluster})
    case Fail(w) =>
      var Busy(c, pool, o, look, k) := s.workers[w];
      s.(workers := s.workers[w := Holding(c)], log := s.log[c := s.log[c] + [Entry(pool, o, look, Interrupted(k))]])
    case Advance(w) =>
      var Busy(c, pool, o, look, k) := s.workers[w];
      var (p, next) := Call(s.cloud[c][pool], o, look, k);
      var t := s.(cloud := s.cloud[c := s.cloud[c][pool := p]]);
      if next.Over?
      then t.(workers := s.workers[w := Holding(c)], log := s.log[c := s.log[c] + [Entry(pool, o, look, next.effect)]])
      else t.(workers := s.workers[w := Busy(c, pool, o, look, next)])
  }

  // ---- The serial reference ----

  function ApplyEntry(cl: Cluster, e: Entry): Cluster {
    if e.pool in cl && Possible(cl[e.pool], e.o, e.look, e.effect)
    then cl[e.pool := Outcome(cl[e.pool], e.o, e.look, e.effect)] else cl
  }

  /** The operations of a log, each as a whole and one after another. */
  function Serial(cl: Cluster, log: seq<Entry>): Cluster {
    if log == [] then cl else ApplyEntry(Serial(cl, log[..|log| - 1]), log[|log| - 1])
  }

  /** Each operation of the log could come as far as it did. */
  ghost predicate Sound(cl: Cluster, log: seq<Entry>) {
    log == [] ||
    var e, before := log[|log| - 1], Serial(cl, log[..|log| - 1]);
    Sound(cl, log[..|log| - 1]) && e.pool in before && Possible(before[e.pool], e.o, e.look, e.effect)
  }

  /** A pool in the middle of an operation that found it as `p`. */
  ghost predicate Mid(p: MachinePool, now: MachinePool, o: Operation, look: string -> Lookup, k: Control) {
    match k
    case Begun => now == p
    case SawGroup(at) => p.Asg? && now == p && at == p.at
    case SawLatest(at, number, version) =>
      p.Asg? && now == p && at == p.at && p.versions != [] && number == |p.versions| - 1
        && version == Latest(p.versions)
    case Chose(at, number) =>
      && p.Asg? && Ready(p, o, look) && at == p.at
      && now == Outcome(p, o, look, Templated) && number == |now.versions| - 1
    case SawNodes(groups) => p.Vng? && now == p && groups == p.groups
    case Ended => Ready(p, o, look) && now == Placed(p, o, look)
    case Patching(seen, n) =>
      Ready(p, o, look) && seen == p.instances && n <= |seen| && now == Patched(Placed(p, o, look), o, n)
    case Over(_) => false
  }

  lemma PatchedNone(p: MachinePool, o: Operation)
    ensures Patched(p, o, 0) == p
  {
  }

  /** The next call ends the operation with one of its outcomes, or leaves it on its way. */
  ghost predicate Advances(p: MachinePool, now: MachinePool, o: Operation, look: string -> Lookup, k: Control) {
    var (q, next) := Call(now, o, look, k);
    if next.Over? then Possible(p, o, look, next.effect) && q == Outcome(p, o, look, next.effect)
    else Mid(p, q, o, look, next)
  }

  /** A call of an operation that nobody disturbs. */
  lemma CallStep(p: MachinePool, now: MachinePool, o: Operation, look: string -> Lookup, k: Control)
    requires Mid(p, now, o, look, k)
    ensures var (q, next) := Call(now, o, look, k);
      if next.Over? then Possible(p, o, look, next.effect) && q == Outcome(p, o, look, next.effect)
      else Mid(p, q, o, look, next)
  {
    hide Call, Mid, Possible, Outcome;
    assert Advances(p, now, o, look, k) by {
      hide *;
      match k
      case Begun => BegunStep(p, now, o, look);
      case SawGroup(_) => GroupStep(p, now, o, look, k);
      case SawLatest(_, _, _) => LatestStep(p, now, o, look, k);
      case Chose(_, _) => ChoseStep(p, now, o, look, k);
      case SawNodes(_) => NodesStep(p, now, o, look, k);
      case Ended => EndedStep(p, o, look, now);
      case Patching(_, _) => PatchingStep(p, now, o, look, k);
      case Over(_) => NotOver(p, now, o, look, k);
    }
  }

  lemma NotOver(p: MachinePool, now: MachinePool, o: Operation, look: string -> Lookup, k: Control)
    requires Mid(p, now, o, look, k)
    ensures !k.Over?
  {
  }

  lemma BegunStep(p: MachinePool, now: MachinePool, o: Operation, look: string -> Lookup)
    requires Mid(p, now, o, look, Begun)
    ensures Advances(p, now, o, look, Begun)
  {
    hide Wanted, Known, NodeGroups, Outcome, Patch, Latest;
    if p.Karpenter? {
      assert Placed(p, o, look) == p;
    }
  }

  lemma GroupStep(p: MachinePool, now: MachinePool, o: Operation, look: string -> Lookup, k: Control)
    requires k.SawGroup? && Mid(p, now, o, look, k)
    ensures Advances(p, now, o, look, k)
  {
    hide Wanted, Known, NodeGroups, Patch, Latest;
  }

  lemma ChoseStep(p: MachinePool, now: MachinePool, o: Operation, look: string -> Lookup, k: Control)
    requires k.Chose? && Mid(p, now, o, look, k)
    ensures Advances(p, now, o, look, k)
  {
    hide Wanted, Known, NodeGroups, Patch, Ready;
  }

  lemma EndedStep(p: MachinePool, o: Operation, look: string -> Lookup, now: MachinePool)
    requires Mid(p, now, o, look, Ended)
    ensures Advances(p, now, o, look, Ended)
  {
    PlacedInstances(p, o, look);
    PatchedNone(now, o);
    hide Placed, Patched, Ready;
  }

  lemma LatestStep(p: MachinePool, now: MachinePool, o: Operation, look: string -> Lookup, k: Control)
    requires k.SawLatest? && Mid(p, now, o, look, k)
    ensures Advances(p, now, o, look, k)
  {
    hide Wanted, Known;
  }

  lemma NodesStep(p: MachinePool, now: MachinePool, o: Operation, look: string -> Lookup, k: Control)
    requires k.SawNodes? && Mid(p, now, o, look, k)
    ensures Advances(p, now, o, look, k)
  {
    if !o.attach && o.sg !in p.groups {
      NothingToDetach(p, o, look);
    }
    hide Known, NodeGroups, Outcome, Latest;
    var (q, next) := Call(p, o, look, k);
    if next.Ended? {
      assert Ready(p, o, look);
      assert Placed(p, o, look) == p.(groups := NodeGroups(p.groups, o, look));
    }
  }

  lemma NothingToDetach(p: MachinePool, o: Operation, look: string -> Lookup)
    requires p.Vng? && !o.attach && o.sg !in p.groups
    ensures Outcome(p, o, look, Applied(0)) == p
  {
    RemoveNone(p.groups, o.sg);
    PatchedNone(p, o);
    hide Patched, RemoveFirst;
  }

  lemma PlacedInstances(p: MachinePool, o: Operation, look: string -> Lookup)
    requires Ready(p, o, look)
    ensures Placed(p, o, look).instances == p.instances
  {
  }

  lemma PatchKind(p: MachinePool, o: Operation, n: nat, i: Instance)
    ensures Patch(Patched(p, o, n), o, i) == Patch(p, o, i)
    ensures |Patched(p, o, n).instances| == |p.instances|
  {
    hide Without;
  }

  lemma PatchingStep(p: MachinePool, now: MachinePool, o: Operation, look: string -> Lookup, k: Control)
    requires k.Patching? && Mid(p, now, o, look, k)
    ensures Advances(p, now, o, look, k)
  {
    var placed, n := Placed(p, o, look), k.next;
    PlacedInstances(p, o, look);
    hide Placed, Patched, Patch, Ready;
    if n < |k.seen| {
      PatchKind(placed, o, n, placed.instances[n]);
      PatchedNext(placed, o, n);
    } else {
      PatchKind(placed, o, n, Instance(Running, []));
    }
  }

  lemma FailStep(p: MachinePool, now: MachinePool, o: Operation, look: string -> Lookup, k: Control)
    requires Mid(p, now, o, look, k)
    ensures Possible(p, o, look, Interrupted(k)) && now == Outcome(p, o, look, Interrupted(k))
  {
    if k.Ended? {
      PatchedNone(Placed(p, o, look), o);
    }
    hide Patched, Placed;
  }

  // ---- The lock ----

  /** A worker works on a cluster exactly when it holds the cluster's lock. */
  ghost predicate Locked(s: World) {
    && (forall w | 0 <= w < |s.workers| && !s.workers[w].Idle? ::
          s.workers[w].cluster in s.holders && s.holders[s.workers[w].cluster] == w)
    && (forall c | c in s.holders ::
          s.holders[c] < |s.workers| && !s.workers[s.holders[c]].Idle? && s.workers[s.holders[c]].cluster == c)
  }

  /** The session that works on a cluster now. */
  function SessionOn(s: World, c: string): Session {
    if c in s.holders && s.holders[c] < |s.workers| then s.workers[s.holders[c]] else Idle
  }

  /** A cluster is where its log leads to, up to the operation that is under way. */
  ghost predicate Consistent(before: Cluster, now: Cluster, log: seq<Entry>, session: Session) {
    var base := Serial(before, log);
    && Sound(before, log)
    && if session.Busy? then
         && session.pool in base && session.pool in now
         && now == base[session.pool := now[session.pool]]
         && Mid(base[session.pool], now[session.pool], session.o, session.look, session.k)
       else now == base
  }

  ghost predicate Inv(start: map<string, Cluster>, s: World) {
    && Locked(s)
    && s.cloud.Keys == s.log.Keys == start.Keys && s.holders.Keys <= s.cloud.Keys
    && forall c | c in s.cloud :: Consistent(start[c], s.cloud[c], s.log[c], SessionOn(s, c))
  }

  lemma LockedStep(s: World, e: Event)
    requires Locked(s) && Enabled(s, e)
    ensures Locked(Step(s, e))
  {
    hide Call, Interrupted;
  }

  /** The cluster that an event is about. */
  function Subject(s: World, e: Event): string
    requires Enabled(s, e)
  {
    if e.Acquire? then e.cluster else s.workers[e.w].cluster
  }

  lemma OthersStep(s: World, e: Event, c: string)
    requires Locked(s) && Enabled(s, e) && c in s.cloud && c in s.log && c != Subject(s, e)
    ensures var t := Step(s, e);
      && c in t.cloud && t.cloud[c] == s.cloud[c] && c in t.log && t.log[c] == s.log[c]
        && SessionOn(t, c) == SessionOn(s, c)
  {
    hide Call, Interrupted;
  }

  lemma SubjectSession(s: World, e: Event)
    requires Locked(s) && Enabled(s, e) && !e.Acquire?
    ensures SessionOn(s, Subject(s, e)) == s.workers[e.w]
  {
  }

  lemma LogSnoc(before: Cluster, log: seq<Entry>, e: Entry)
    ensures Serial(before, log + [e]) == ApplyEntry(Serial(before, log), e)
    ensures Sound(before, log + [e]) <==>
      var base := Serial(before, log);
      Sound(before, log) && e.pool in base && Possible(base[e.pool], e.o, e.look, e.effect)
  {
    assert (log + [e])[..|log|] == log;
    hide ApplyEntry, Possible;
  }

  lemma ApplyEntryIs(cl: Cluster, e: Entry, p: MachinePool)
    requires e.pool in cl && Possible(cl[e.pool], e.o, e.look, e.effect)
      && p == Outcome(cl[e.pool], e.o, e.look, e.effect)
    ensures ApplyEntry(cl, e) == cl[e.pool := p]
  {
  }

  lemma OverStep(before: Cluster, now: Cluster, log: seq<Entry>, c: Session, p: MachinePool, effect: Effect)
    requires c.Busy? && Consistent(before, now, log, c)
    requires var base := Serial(before, log)[c.pool];
      Possible(base, c.o, c.look, effect) && p == Outcome(base, c.o, c.look, effect)
    ensures Consistent(before, now[c.pool := p], log + [Entry(c.pool, c.o, c.look, effect)], Holding(c.cluster))
  {
    var e := Entry(c.pool, c.o, c.look, effect);
    var base := Serial(before, log);
    hide Serial, Sound, Mid, Possible, Outcome, ApplyEntry;
    assert now[c.pool := p] == base[c.pool := p];
    LogSnoc(before, log, e);
    ApplyEntryIs(base, e, p);
  }

  /** Taking the lock, beginning an operation and giving the lock back change no cluster. */
  lemma CalmSession(s: World, e: Event)
    requires Locked(s) && Enabled(s, e) && (e.Acquire? || e.Begin? || e.Release?)
    ensures var c, t := Subject(s, e), Step(s, e);
      && t.cloud == s.cloud && t.log == s.log && !SessionOn(s, c).Busy?
      && if e.Begin? then SessionOn(t, c) == Busy(c, e.pool, e.o, e.look, Begun) && c in s.cloud && e.pool in s.cloud[c]
         else !SessionOn(t, c).Busy?
  {
    LockedStep(s, e);
    if !e.Acquire? {
      SubjectSession(s, e);
    }
    hide Call, Interrupted;
  }

  lemma CalmStep(start: map<string, Cluster>, s: World, e: Event)
    requires Inv(start, s) && Enabled(s, e) && (e.Acquire? || e.Begin? || e.Release?)
    requires Subject(s, e) in s.cloud
    ensures var c, t := Subject(s, e), Step(s, e);
      c in t.cloud && c in t.log && Consistent(start[c], t.cloud[c], t.log[c], SessionOn(t, c))
  {
    CalmSession(s, e);
    var c, t := Subject(s, e), Step(s, e);
    hide Step, Locked, SessionOn, Consistent, Enabled, Subject;
    CalmConsistent(start[c], s.cloud[c], s.log[c], SessionOn(s, c), SessionOn(t, c));
  }

  lemma CalmConsistent(before: Cluster, now: Cluster, log: seq<Entry>, session: Session, next: Session)
    requires Consistent(before, now, log, session) && !session.Busy?
    requires next.Busy? ==> next.k == Begun && next.pool in now
    ensures Consistent(before, now, log, next)
  {
    hide Serial, Sound;
  }

  /** The subject of an event after it. */
  lemma SubjectStep(start: map<string, Cluster>, s: World, e: Event)
    requires Inv(start, s) && Enabled(s, e)
    ensures var c, t := Subject(s, e), Step(s, e);
      c in t.cloud && c in t.log && Consistent(start[c], t.cloud[c], t.log[c], SessionOn(t, c))
  {
    if e.Acquire? || e.Begin? || e.Release? {
      CalmStep(start, s, e);
    } else {
      SubjectSession(s, e);
      var c := Subject(s, e);
      assert Consistent(start[c], s.cloud[c], s.log[c], SessionOn(s, c));
      hide Locked, Consistent, Step, SessionOn;
      if e.Fail? {
        FailOn(start, s, e.w);
      } else {
        AdvanceOn(start, s, e.w);
      }
    }
  }

  lemma FailOn(start: map<string, Cluster>, s: World, w: nat)
    requires Locked(s) && Enabled(s, Fail(w))
    requires var c := s.workers[w].cluster;
      c in start && c in s.log && Consistent(start[c], s.cloud[c], s.log[c], s.workers[w])
    ensures var c, t := s.workers[w].cluster, Step(s, Fail(w));
      c in t.cloud && c in t.log && Consistent(start[c], t.cloud[c], t.log[c], SessionOn(t, c))
  {
    var session := s.workers[w];
    var c := session.cluster;
    FailShape(s, w);
    FailLogs(start[c], s.cloud[c], s.log[c], session);
    hide *;
  }

  lemma FailShape(s: World, w: nat)
    requires Locked(s) && Enabled(s, Fail(w))
    ensures var c, t := s.workers[w].cluster, Step(s, Fail(w));
      var Busy(_, pool, o, look, k) := s.workers[w];
      && t.cloud == s.cloud && c in t.cloud && c in t.log && SessionOn(t, c) == Holding(c)
      && t.log[c] == s.log[c] + [Entry(pool, o, look, Interrupted(k))]
  {
    hide Interrupted;
  }

  lemma FailLogs(before: Cluster, now: Cluster, log: seq<Entry>, session: Session)
    requires session.Busy? && Consistent(before, now, log, session)
    ensures var Busy(c, pool, o, look, k) := session;
      Consistent(before, now, log + [Entry(pool, o, look, Interrupted(k))], Holding(c))
  {
    var p := now[session.pool];
    hide Serial, Sound, Mid, Interrupted;
    FailStep(Serial(before, log)[session.pool], p, session.o, session.look, session.k);
    OverStep(before, now, log, session, p, Interrupted(session.k));
    assert now[session.pool := p] == now;
  }

  lemma AdvanceOn(start: map<string, Cluster>, s: World, w: nat)
    requires Locked(s) && Enabled(s, Advance(w))
    requires var c := s.workers[w].cluster;
      c in start && c in s.log && Consistent(start[c], s.cloud[c], s.log[c], s.workers[w])
    ensures var c, t := s.workers[w].cluster, Step(s, Advance(w));
      c in t.cloud && c in t.log && Consistent(start[c], t.cloud[c], t.log[c], SessionOn(t, c))
  {
    var session := s.workers[w];
    var c := session.cluster;
    var before, log, now := start[c], s.log[c], s.cloud[c];
    var base := Serial(before, log);
    var (p, next) := Call(now[session.pool], session.o, session.look, session.k);
    CallStep(base[session.pool], now[session.pool], session.o, session.look, session.k);
    if next.Over? {
      OverStep(before, now, log, session, p, next.effect);
    } else {
      assert Consistent(before, now[session.pool := p], log, Busy(c, session.pool, session.o, session.look, next)) by {
        hide Serial, Sound, Mid, Call;
        assert now[session.pool := p] == base[session.pool := p];
      }
    }
    hide Consistent, Call, Serial, Mid;
  }

  lemma KeysStep(s: World, e: Event)
    requires Enabled(s, e) && s.holders.Keys <= s.cloud.Keys
    ensures var t := Step(s, e);
      t.cloud.Keys == s.cloud.Keys && t.log.Keys == s.log.Keys && t.holders.Keys <= t.cloud.Keys
  {
    hide Call, Interrupted;
    assert e.Advance? || e.Fail? ==> Working(s, e.w);
  }

  lemma InvStep(start: map<string, Cluster>, s: World, e: Event)
    requires Inv(start, s) && Enabled(s, e)
    ensures Inv(start, Step(s, e))
  {
    hide Enabled, Step, Consistent, Locked, SessionOn, Subject;
    var t := Step(s, e);
    LockedStep(s, e);
    KeysStep(s, e);
    SubjectStep(start, s, e);
    forall c | c in t.cloud ensures Consistent(start[c], t.cloud[c], t.log[c], SessionOn(t, c)) {
      if c != Subject(s, e) {
        OthersStep(s, e, c);
        assert Consistent(start[c], s.cloud[c], s.log[c], SessionOn(s, c));
      }
    }
  }

  ghost predicate Reaches(from: World, es: seq<Event>, to: World) {
    if es == [] then to == from
    else
      var n := |es| - 1;
      exists s :: Reaches(from, es[..n], s) && Enabled(s, es[n]) && to == Step(s, es[n])
  }

  /** All workers idle, no operation ended. */
  function Start(cloud: map<string, Cluster>, workers: nat): World {
    World(cloud, map[], seq(workers, i => Idle), map c | c in cloud :: [])
  }

  lemma StartInv(cloud: map<string, Cluster>, workers: nat)
    ensures Inv(cloud, Start(cloud, workers))
  {
  }

  lemma {:induction false} ReachesInv(start: map<string, Cluster>, workers: nat, es: seq<Event>, s: World)
    requires Reaches(Start(start, workers), es, s)
    ensures Inv(start, s)
  {
    if es == [] {
      StartInv(start, workers);
    } else {
      var n := |es| - 1;
      var m :| Reaches(Start(start, workers), es[..n], m) && Enabled(m, es[n]) && s == Step(m, es[n]);
      ReachesInv(start, workers, es[..n], m);
      hide Inv, Enabled, Step;
      InvStep(start, m, es[n]);
    }
  }

  /** Serializability: whenever nobody holds a cluster's lock, in any interleaving of any number
      of workers and with calls failing anywhere, the cluster is what its operations make of it
      when each runs as a whole, in the order in which the lock was taken. */
  lemma Serializable(start: map<string, Cluster>, workers: nat, es: seq<Event>, s: World, c: string)
    requires Reaches(Start(start, workers), es, s)
    requires c in s.cloud && c !in s.holders
    ensures c in start && c in s.log && Sound(start[c], s.log[c]) && s.cloud[c] == Serial(start[c], s.log[c])
  {
    ReachesInv(start, workers, es, s);
    assert Consistent(start[c], s.cloud[c], s.log[c], SessionOn(s, c));
  }
}
