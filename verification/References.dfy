/** Which machine pools a SecurityGroup is attached to while its references change: the loops
    that attach the references of the spec, and detach those that were applied and are gone.
    A pool with an auto scaling group or a virtual node group is attached while its list of
    groups holds the group, whatever its instances have. A Karpenter pool has no list: it is
    attached from an attach until a detach that reaches all its instances. */
module References {

  datatype Key = Key(namespace: string, name: string)

  datatype Ref = Ref(kind: string, namespace: string, name: string) {
    function Object(): Key { Key(namespace, name) }
  }

  const POOL := "KopsMachinePool"
  const PLANE := "KopsControlPlane"

  datatype Pool = Pool(cluster: string, deleting: bool, karpenter: bool)

  /** What a reconcile finds. `lists` holds the machine pools by the name of their cluster;
      reads of `unreadable` objects and the listing of `unlisted` clusters fail; an operation on
      a `broken` pool fails, with or without effect, and on an `aborting` pool ends the loop; the
      instances of a `silent` pool cannot be detached, which is no error if it is a Karpenter pool;
      finalizers of `unpatched` objects cannot be changed; `live` are the Clusters that can be
      read and are not being deleted; `updates` and `stores` tell whether the SecurityGroup can
      be updated and its status stored. */
  datatype Env = Env(
    pools: map<Key, Pool>,
    planes: set<Key>,
    lists: map<string, seq<Key>>,
    live: set<Key>,
    unreadable: set<Key>,
    unlisted: set<string>,
    broken: map<Key, bool>,
    aborting: set<Key>,
    silent: set<Key>,
    unpatched: set<Key>,
    updates: bool,
    stores: bool)

  function PoolsOf(env: Env, cluster: string): seq<Key> {
    if cluster in env.lists then env.lists[cluster] else []
  }

  /** The machine pools that a reference means. */
  function Cover(env: Env, ref: Ref): set<Key> {
    if ref.kind == POOL then {ref.Object()}
    else if ref.kind == PLANE then set k | k in PoolsOf(env, ref.name)
    else {}
  }

  function Covers(env: Env, refs: seq<Ref>): set<Key> {
    if refs == [] then {} else Covers(env, refs[..|refs| - 1]) + Cover(env, refs[|refs| - 1])
  }

  predicate Named(refs: seq<Ref>, name: string) {
    exists i | 0 <= i < |refs| :: refs[i].name == name
  }

  /** The applied references whose name the spec no longer has: the code compares names only. */
  function Gone(spec: seq<Ref>, applied: seq<Ref>): seq<Ref> {
    if applied == [] then []
    else
      var n := |applied| - 1;
      Gone(spec, applied[..n]) + if Named(spec, applied[n].name) then [] else [applied[n]]
  }

  ghost predicate NoneDeleting(env: Env) {
    forall k | k in env.pools :: !env.pools[k].deleting
  }

  predicate Works(env: Env, k: Key) {
    k !in env.broken && k !in env.aborting
  }

  /** The Karpenter pools whose detach fails: `detachSGFromKopsMachinePool` only emits an event. */
  function Unnoticed(env: Env): set<Key> {
    set k | k in env.pools && env.pools[k].karpenter && k in env.silent
  }

  predicate Deleting(env: Env, k: Key) {
    k in env.pools && env.pools[k].deleting
  }

  // ---- When a reconcile goes through ----

  predicate Readable(env: Env, pool: Key) {
    pool !in env.unreadable && pool in env.pools
  }

  predicate ReadablePlane(env: Env, plane: Key) {
    plane !in env.unreadable && plane in env.planes
  }

  predicate AllWorking(env: Env, keys: seq<Key>) {
    forall i | 0 <= i < |keys| :: Works(env, keys[i])
  }

  /** What an attach of a reference needs: a supported kind, its objects, and pools that work. With
      a live cluster the pools that are being deleted do not count. */
  predicate Attachable(env: Env, ref: Ref) {
    var key, keys := ref.Object(), PoolsOf(env, ref.name);
    if ref.kind == POOL then
      Readable(env, key) && ReadablePlane(env, Key(key.namespace, env.pools[key].cluster)) && Works(env, key)
    else
      && ref.kind == PLANE && ReadablePlane(env, key) && ref.name !in env.unlisted
      && AllWorking(env, if key in env.live then Active(env, keys) else keys)
  }

  /** What a detach of a lost reference needs; one of another kind is passed over. */
  predicate Detachable(env: Env, ref: Ref) {
    var key, keys := ref.Object(), PoolsOf(env, ref.name);
    && (ref.kind == POOL ==> Readable(env, key) && Works(env, key))
    && (ref.kind == PLANE ==> ReadablePlane(env, key) && ref.name !in env.unlisted && AllWorking(env, keys))
  }

  /** What a deletion needs of a reference: pools that fail do not stop it, nor objects that are gone. */
  predicate Passes(env: Env, ref: Ref) {
    && (ref.kind == POOL || ref.kind == PLANE) && ref.Object() !in env.unreadable
    && (ref.kind == PLANE && ref.Object() in env.planes ==> ref.name !in env.unlisted)
  }

  predicate AllAttachable(env: Env, refs: seq<Ref>) {
    forall i | 0 <= i < |refs| :: Attachable(env, refs[i])
  }

  predicate AllDetachable(env: Env, refs: seq<Ref>) {
    forall r | r in refs :: Detachable(env, r)
  }

  predicate AllPass(env: Env, refs: seq<Ref>) {
    forall i | 0 <= i < |refs| :: Passes(env, refs[i])
  }

  /** Everything is attached and detached, and both deferred writes arrive. */
  predicate GoesThrough(env: Env, spec: seq<Ref>, applied: seq<Ref>) {
    AllAttachable(env, spec) && AllDetachable(env, Gone(spec, applied)) && env.updates && env.stores
  }

  lemma AllPassIs(env: Env, refs: seq<Ref>)
    ensures AllPass(env, refs) <==> forall i | 0 <= i < |refs| :: Passes(env, refs[i])
  {
  }

  // ---- What a detach that fails anywhere takes away ----

  /** The pools before the first one that ends the loop. */
  function Tried(env: Env, keys: seq<Key>): seq<Key> {
    if keys == [] || keys[0] in env.aborting then [] else [keys[0]] + Tried(env, keys[1..])
  }

  lemma {:induction false} TriedIs(env: Env, keys: seq<Key>, i: nat)
    requires i <= |keys| && (forall j | 0 <= j < i :: keys[j] !in env.aborting)
    requires i < |keys| ==> keys[i] in env.aborting
    ensures Tried(env, keys) == keys[..i]
  {
    if i > 0 {
      TriedIs(env, keys[1..], i - 1);
      assert keys[..i] == [keys[0]] + keys[1..][..i - 1];
    }
  }

  /** A failing detach may have its effect all the same, and one that goes wrong unnoticed has none. */
  predicate Drops(env: Env, k: Key) {
    if k in env.broken then env.broken[k] else k !in Unnoticed(env)
  }

  function Dropped(env: Env, keys: seq<Key>): set<Key> {
    set k | k in Tried(env, keys) && Drops(env, k)
  }

  /** The pools that a deletion takes away through a reference. */
  function DroppedBy(env: Env, ref: Ref): set<Key> {
    if ref.kind == POOL && ref.Object() in env.pools then Dropped(env, [ref.Object()])
    else if ref.kind == PLANE && ref.Object() in env.planes then Dropped(env, PoolsOf(env, ref.name))
    else {}
  }

  function DroppedAll(env: Env, refs: seq<Ref>): set<Key> {
    if refs == [] then {} else DroppedAll(env, refs[..|refs| - 1]) + DroppedBy(env, refs[|refs| - 1])
  }

  lemma DroppedNext(env: Env, refs: seq<Ref>, i: nat)
    requires i < |refs|
    ensures DroppedAll(env, refs[..i + 1]) == DroppedAll(env, refs[..i]) + DroppedBy(env, refs[i])
  {
    assert refs[..i + 1][..i] == refs[..i];
  }

  lemma DroppedNone(env: Env, refs: seq<Ref>)
    requires refs == []
    ensures DroppedAll(env, refs) == {}
  {
  }

  lemma {:induction false} TriedSome(env: Env, keys: seq<Key>)
    ensures forall k | k in Tried(env, keys) :: k in keys
  {
    if keys != [] {
      TriedSome(env, keys[1..]);
    }
  }

  lemma DroppedByReached(env: Env, r: Ref)
    ensures DroppedBy(env, r) <= Reached(env, r)
  {
    TriedSome(env, [r.Object()]);
    TriedSome(env, PoolsOf(env, r.name));
    hide Tried, PoolsOf, Drops;
  }

  lemma {:induction false} DroppedWithin(env: Env, refs: seq<Ref>, i: nat)
    requires i <= |refs|
    ensures DroppedAll(env, refs[..i]) <= ReachedAll(env, refs)
  {
    hide *;
    if i == 0 {
      assert refs[..0] == [];
      DroppedNone(env, refs[..0]);
    } else {
      DroppedWithin(env, refs, i - 1);
      DroppedNext(env, refs, i - 1);
      ReachedNext(env, refs, i - 1);
      ReachedGrow(env, refs, i);
      DroppedByReached(env, refs[i - 1]);
    }
  }

  lemma DroppedWorking(env: Env, keys: seq<Key>)
    requires AllWorking(env, keys)
    ensures Dropped(env, keys) == (set k | k in keys) - Unnoticed(env)
  {
    TriedIs(env, keys, |keys|);
    assert keys[..|keys|] == keys;
    hide Tried, Unnoticed;
  }

  /** When every pool works, a deletion takes away all that its references reach, but what goes
      wrong unnoticed. */
  lemma {:induction false} DroppedReached(env: Env, refs: seq<Ref>)
    requires AllWork(env)
    ensures DroppedAll(env, refs) == ReachedAll(env, refs) - Unnoticed(env)
  {
    if refs != [] {
      var r := refs[|refs| - 1];
      DroppedReached(env, refs[..|refs| - 1]);
      DroppedWorking(env, [r.Object()]);
      DroppedWorking(env, PoolsOf(env, r.name));
      assert (set k | k in [r.Object()]) == {r.Object()};
      hide Dropped, Unnoticed, PoolsOf;
    }
  }

  lemma CoversNext(env: Env, refs: seq<Ref>, i: nat)
    requires i < |refs|
    ensures Covers(env, refs[..i + 1]) == Covers(env, refs[..i]) + Cover(env, refs[i])
  {
    assert refs[..i + 1][..i] == refs[..i];
  }

  lemma GoneNext(env: Env, spec: seq<Ref>, applied: seq<Ref>, i: nat)
    requires i < |applied|
    ensures Covers(env, Gone(spec, applied[..i + 1]))
         == Covers(env, Gone(spec, applied[..i])) + if Named(spec, applied[i].name) then {} else Cover(env, applied[i])
  {
    var before := Gone(spec, applied[..i]);
    assert applied[..i + 1][..i] == applied[..i];
    if Named(spec, applied[i].name) {
      assert before + [] == before;
    } else {
      assert (before + [applied[i]])[..|before|] == before;
    }
  }

  /** The not deleting ones, in order. */
  function Active(env: Env, keys: seq<Key>): seq<Key> {
    if keys == [] then []
    else
      var k := keys[|keys| - 1];
      Active(env, keys[..|keys| - 1]) + if Deleting(env, k) then [] else [k]
  }

  /** The pools that a deletion reaches through a reference: none if its object is gone. */
  function Reached(env: Env, ref: Ref): set<Key> {
    if ref.kind == POOL && ref.Object() !in env.pools then {}
    else if ref.kind == PLANE && ref.Object() !in env.planes then {}
    else Cover(env, ref)
  }

  function ReachedAll(env: Env, refs: seq<Ref>): set<Key> {
    if refs == [] then {} else ReachedAll(env, refs[..|refs| - 1]) + Reached(env, refs[|refs| - 1])
  }

  ghost predicate AllWork(env: Env) {
    env.broken == map[] && env.aborting == {}
  }

  lemma ReachedNext(env: Env, refs: seq<Ref>, i: nat)
    requires i < |refs|
    ensures ReachedAll(env, refs[..i + 1]) == ReachedAll(env, refs[..i]) + Reached(env, refs[i])
  {
    assert refs[..i + 1][..i] == refs[..i];
  }

  lemma {:induction false} ReachedGrow(env: Env, refs: seq<Ref>, i: nat)
    requires i <= |refs|
    ensures ReachedAll(env, refs[..i]) <= ReachedAll(env, refs)
    decreases |refs| - i
  {
    if i < |refs| {
      ReachedNext(env, refs, i);
      ReachedGrow(env, refs, i + 1);
    } else {
      assert refs[..i] == refs;
    }
  }

  /** The pools that are being deleted: only these lose the group during an attach. */
  function Doomed(env: Env): set<Key> {
    set k | k in env.pools && env.pools[k].deleting
  }

  // ---- What an attach leaves ----

  /** The pools that lose the group when a live cluster's pools that are being deleted are released. */
  function Freed(env: Env, keys: seq<Key>, marked: set<Key>): set<Key> {
    set k | k in keys && Deleting(env, k) && k in marked && k !in env.aborting && Drops(env, k)
  }

  /** The attached pools after an attach of a reference that succeeds. */
  function AttachedBy(env: Env, ref: Ref, attached: set<Key>, marked: set<Key>): set<Key> {
    var keys := PoolsOf(env, ref.name);
    if ref.kind == POOL then attached + {ref.Object()}
    else if ref.kind == PLANE && ref.Object() in env.live then
      attached - Freed(env, keys, marked) + set k | k in Active(env, keys)
    else if ref.kind == PLANE then attached + set k | k in keys
    else attached
  }

  function AttachedAll(env: Env, refs: seq<Ref>, attached: set<Key>, m: Marks): set<Key> {
    if refs == [] then attached
    else
      var p := refs[..|refs| - 1];
      AttachedBy(env, refs[|refs| - 1], AttachedAll(env, p, attached, m), AllAttached(env, p, m).pools)
  }

  lemma AttachedAllNext(env: Env, refs: seq<Ref>, i: nat, attached: set<Key>, m: Marks)
    requires i < |refs|
    ensures AttachedAll(env, refs[..i + 1], attached, m)
      == AttachedBy(env, refs[i], AttachedAll(env, refs[..i], attached, m), AllAttached(env, refs[..i], m).pools)
  {
    assert refs[..i + 1][..i] == refs[..i];
  }

  lemma AttachedNone(env: Env, refs: seq<Ref>, attached: set<Key>, m: Marks)
    requires refs == []
    ensures AttachedAll(env, refs, attached, m) == attached
  {
  }

  lemma FreedNext(env: Env, keys: seq<Key>, i: nat, marked: set<Key>)
    requires i < |keys|
    ensures var k := keys[i];
      Freed(env, keys[..i + 1], marked) == Freed(env, keys[..i], marked)
        + if Deleting(env, k) && k in marked && k !in env.aborting && Drops(env, k) then {k} else {}
  {
    assert keys[..i + 1] == keys[..i] + [keys[i]];
    hide Drops;
  }

  lemma FreedWorking(env: Env, keys: seq<Key>, marked: set<Key>)
    ensures Freed(env, keys, marked) <= DeletingOf(env, keys)
    ensures forall k | k in keys && Deleting(env, k) && Works(env, k) ::
      k in Freed(env, keys, marked) <==> k in marked && k !in Unnoticed(env)
  {
  }

  lemma {:induction false} ActiveExactly(env: Env, keys: seq<Key>)
    ensures forall k :: k in Active(env, keys) <==> k in keys && !Deleting(env, k)
  {
    if keys != [] {
      var p, x := keys[..|keys| - 1], keys[|keys| - 1];
      assert keys == p + [x];
      ActiveExactly(env, p);
    }
  }

  // ---- Finalizers ----

  /** The pools and the control planes that carry the finalizer of the group. */
  datatype Marks = Marks(pools: set<Key>, planes: set<Key>)

  function Patchable(env: Env, keys: seq<Key>): set<Key> {
    set k | k in keys && k !in env.unpatched
  }

  function DeletingOf(env: Env, keys: seq<Key>): set<Key> {
    set k | k in keys && Deleting(env, k)
  }

  /** A pool reference marks its pool. A control plane reference takes the finalizer from the
      pools being deleted, if the cluster lives, and marks the others only when it marks the
      control plane for the first time. */
  function MarksAttached(env: Env, ref: Ref, m: Marks): Marks {
    var key, keys := ref.Object(), PoolsOf(env, ref.name);
    if ref.kind == POOL then m.(pools := m.pools + Patchable(env, [key]))
    else if ref.kind == PLANE then
      var pools := if key in env.live then m.pools - (DeletingOf(env, keys) - env.unpatched) else m.pools;
      if key in m.planes then m.(pools := pools)
      else Marks(pools + Patchable(env, if key in env.live then Active(env, keys) else keys),
                 m.planes + Patchable(env, [key]))
    else m
  }

  lemma PlaneMarks(env: Env, key: Key, m: Marks)
    ensures var all := PoolsOf(env, key.name);
      var pools := if key in env.live then m.pools - (DeletingOf(env, all) - env.unpatched) else m.pools;
      MarksAttached(env, Ref(PLANE, key.namespace, key.name), m)
        == if key in m.planes then Marks(pools, m.planes)
           else Marks(pools + Patchable(env, if key in env.live then Active(env, all) else all),
                      m.planes + if key in env.unpatched then {} else {key})
  {
    assert Ref(PLANE, key.namespace, key.name).Object() == key;
    assert Patchable(env, [key]) == if key in env.unpatched then {} else {key};
  }

  function MarksDetached(env: Env, ref: Ref, m: Marks): Marks {
    if ref.kind == POOL then m.(pools := m.pools - Patchable(env, [ref.Object()]))
    else if ref.kind == PLANE then
      Marks(m.pools - Patchable(env, PoolsOf(env, ref.name)), m.planes - Patchable(env, [ref.Object()]))
    else m
  }

  /** A deletion takes the finalizer from a pool that it detaches without an error, and with a control
      plane from that and all its pools, detached or not. */
  function MarksDeleted(env: Env, ref: Ref, m: Marks): Marks {
    var key := ref.Object();
    if ref.kind == POOL && key in env.pools && Works(env, key) then m.(pools := m.pools - Patchable(env, [key]))
    else if ref.kind == PLANE && key in env.planes then
      Marks(m.pools - Patchable(env, PoolsOf(env, ref.name)), m.planes - Patchable(env, [key]))
    else m
  }

  function AllDeleted(env: Env, refs: seq<Ref>, m: Marks): Marks {
    if refs == [] then m else MarksDeleted(env, refs[|refs| - 1], AllDeleted(env, refs[..|refs| - 1], m))
  }

  lemma DeletedNext(env: Env, refs: seq<Ref>, i: nat, m: Marks)
    requires i < |refs|
    ensures AllDeleted(env, refs[..i + 1], m) == MarksDeleted(env, refs[i], AllDeleted(env, refs[..i], m))
  {
    assert refs[..i + 1][..i] == refs[..i];
  }

  lemma {:induction false} DeletedShrinks(env: Env, refs: seq<Ref>, m: Marks)
    ensures var after := AllDeleted(env, refs, m); after.pools <= m.pools && after.planes <= m.planes
  {
    if refs != [] {
      DeletedShrinks(env, refs[..|refs| - 1], m);
    }
  }

  /** No finalizer is left by a deletion through a reference, where it can be patched: not on a pool whose
      detach works, nor on a control plane and its pools. */
  predicate Unmarked(env: Env, m: Marks, ref: Ref) {
    var key := ref.Object();
    && (ref.kind == POOL && key in env.pools && Works(env, key) ==> key !in m.pools || key in env.unpatched)
    && (ref.kind == PLANE && key in env.planes ==>
          && (key !in m.planes || key in env.unpatched)
          && forall k | k in PoolsOf(env, ref.name) :: k !in m.pools || k in env.unpatched)
  }

  lemma {:induction false} DeletedUnmarked(env: Env, refs: seq<Ref>, m: Marks, r: Ref)
    requires r in refs
    ensures Unmarked(env, AllDeleted(env, refs, m), r)
  {
    var p, x := refs[..|refs| - 1], refs[|refs| - 1];
    assert refs == p + [x];
    if x != r {
      DeletedUnmarked(env, p, m, r);
    }
  }

  function AllAttached(env: Env, refs: seq<Ref>, m: Marks): Marks {
    if refs == [] then m else MarksAttached(env, refs[|refs| - 1], AllAttached(env, refs[..|refs| - 1], m))
  }

  function AllDetached(env: Env, refs: seq<Ref>, m: Marks): Marks {
    if refs == [] then m else MarksDetached(env, refs[|refs| - 1], AllDetached(env, refs[..|refs| - 1], m))
  }

  lemma AttachedNext(env: Env, refs: seq<Ref>, i: nat, m: Marks)
    requires i < |refs|
    ensures AllAttached(env, refs[..i + 1], m) == MarksAttached(env, refs[i], AllAttached(env, refs[..i], m))
  {
    assert refs[..i + 1][..i] == refs[..i];
  }

  lemma MarksNone(env: Env, refs: seq<Ref>, m: Marks)
    requires refs == []
    ensures AllAttached(env, refs, m) == m && AllDetached(env, refs, m) == m && AllDeleted(env, refs, m) == m
  {
  }

  lemma DetachedNext(env: Env, spec: seq<Ref>, applied: seq<Ref>, i: nat, m: Marks)
    requires i < |applied|
    ensures AllDetached(env, Gone(spec, applied[..i + 1]), m) ==
      var before := AllDetached(env, Gone(spec, applied[..i]), m);
      if Named(spec, applied[i].name) then before else MarksDetached(env, applied[i], before)
  {
    var before := Gone(spec, applied[..i]);
    assert applied[..i + 1][..i] == applied[..i];
    if Named(spec, applied[i].name) {
      assert before + [] == before;
    } else {
      assert (before + [applied[i]])[..|before|] == before;
    }
  }

  class SecurityGroup {
    var spec: seq<Ref>
    var applied: seq<Ref>
    /** The pools that the group is attached to, and the objects that carry its finalizer. */
    var attached: set<Key>
    var marked: set<Key>
    var markedPlanes: set<Key>

    function Finalizers(): Marks
      reads this
    {
      Marks(marked, markedPlanes)
    }

    constructor (spec: seq<Ref>)
      ensures this.spec == spec && applied == [] && attached == {} && marked == {} && markedPlanes == {}
    {
      this.spec, applied, attached, marked, markedPlanes := spec, [], {}, {}, {};
    }

    /** `attachKopsMachinePool`: goes on after a pool that fails, unless its nodes cannot be listed. */
    method AttachPools(env: Env, keys: seq<Key>) returns (err: bool)
      modifies this`attached
      ensures err <==> exists i | 0 <= i < |keys| :: !Works(env, keys[i])
      ensures old(attached) <= attached <= old(attached) + set k | k in keys
      ensures !err ==> attached == old(attached) + set k | k in keys
    {
      err := false;
      var i := 0;
      while i < |keys|
        invariant 0 <= i <= |keys|
        invariant err <==> exists j | 0 <= j < i :: !Works(env, keys[j])
        invariant old(attached) <= attached <= old(attached) + set k | k in keys[..i]
        invariant !err ==> attached == old(attached) + set k | k in keys[..i]
      {
        var k := keys[i];
        assert keys[..i + 1] == keys[..i] + [k];
        i := i + 1;
        if k in env.aborting {
          return true;
        }
        if k in env.broken {
          attached := if env.broken[k] then attached + {k} else attached;
          err := true;
          continue;
        }
        attached := attached + {k};
      }
      assert keys[..i] == keys;
    }

    /** `detachSGFromKopsMachinePool`: reports a pool that fails, unless it is a Karpenter pool
        whose instances cannot be changed, which stays attached without an error. */
    method DetachPools(env: Env, keys: seq<Key>) returns (err: bool)
      modifies this`attached
      ensures err <==> exists i | 0 <= i < |keys| :: !Works(env, keys[i])
      ensures old(attached) - (set k | k in keys) <= attached <= old(attached)
      ensures attached == old(attached) - Dropped(env, keys)
      ensures !err ==> attached == old(attached) - ((set k | k in keys) - Unnoticed(env))
      ensures !err ==> forall k | k in keys :: k in attached <==>
        k in old(attached) && k in env.silent && k in env.pools && env.pools[k].karpenter
    {
      err := false;
      var i := 0;
      while i < |keys|
        invariant 0 <= i <= |keys|
        invariant err <==> exists j | 0 <= j < i :: !Works(env, keys[j])
        invariant forall j | 0 <= j < i :: keys[j] !in env.aborting
        invariant attached == old(attached) - (set k | k in keys[..i] && Drops(env, k))
      {
        var k := keys[i];
        assert keys[..i + 1] == keys[..i] + [k];
        i := i + 1;
        if k in env.aborting {
          TriedIs(env, keys, i - 1);
          return true;
        }
        if k in env.broken {
          attached := if env.broken[k] then attached - {k} else attached;
          err := true;
          continue;
        }
        if k in env.pools && env.pools[k].karpenter && k in env.silent {
          continue;
        }
        attached := attached - {k};
      }
      assert keys[..i] == keys;
      TriedIs(env, keys, i);
      if !err {
        DroppedWorking(env, keys);
      }
    }

    method DetachOne(env: Env, k: Key)
      modifies this`attached
      ensures old(attached) - {k} <= attached <= old(attached)
      ensures Works(env, k) ==> (k in attached <==> k in old(attached) && k in Unnoticed(env))
      ensures attached == old(attached) - if k !in env.aborting && Drops(env, k) then {k} else {}
    {
      assert (set x | x in [k]) == {k};
      assert Tried(env, [k]) == if k in env.aborting then [] else [k];
      var err := DetachPools(env, [k]);
      assert err ==> !Works(env, k);
    }

    method Mark(env: Env, k: Key)
      modifies this`marked
      ensures marked == if k in env.unpatched then old(marked) else old(marked) + {k}
    {
      if k !in env.unpatched {
        marked := marked + {k};
      }
    }

    method Unmark(env: Env, k: Key)
      modifies this`marked
      ensures marked == if k in env.unpatched then old(marked) else old(marked) - {k}
    {
      if k !in env.unpatched {
        marked := marked - {k};
      }
    }

    method MarkAll(env: Env, keys: seq<Key>)
      modifies this`marked
      ensures marked == old(marked) + set k | k in keys && k !in env.unpatched
    {
      for i := 0 to |keys|
        invariant marked == old(marked) + set k | k in keys[..i] && k !in env.unpatched
      {
        assert keys[..i + 1] == keys[..i] + [keys[i]];
        Mark(env, keys[i]);
      }
      assert keys[..|keys|] == keys;
    }

    method UnmarkAll(env: Env, keys: seq<Key>)
      modifies this`marked
      ensures marked == old(marked) - set k | k in keys && k !in env.unpatched
    {
      for i := 0 to |keys|
        invariant marked == old(marked) - set k | k in keys[..i] && k !in env.unpatched
      {
        assert keys[..i + 1] == keys[..i] + [keys[i]];
        Unmark(env, keys[i]);
      }
      assert keys[..|keys|] == keys;
    }

    /** `releaseDeletingKopsMachinePools`: the marked pools that are being deleted lose the
        finalizer, and the group unless the detach fails; the others being deleted are left alone. */
    method ReleaseDeleting(env: Env, keys: seq<Key>) returns (active: seq<Key>)
      modifies this`attached, this`marked
      ensures active == Active(env, keys)
      ensures marked == old(marked) - set k | k in keys && Deleting(env, k) && k !in env.unpatched
      ensures attached == old(attached) - Freed(env, keys, old(marked))
      ensures forall k | k in keys && Deleting(env, k) && k in old(marked) && Works(env, k) && k !in Unnoticed(env) ::
        k !in attached
    {
      active := [];
      var i := 0;
      FreedWorking(env, keys, marked);
      hide Drops, Works, Unnoticed;
      while i < |keys|
        invariant 0 <= i <= |keys|
        invariant active == Active(env, keys[..i])
        invariant marked == old(marked) - set k | k in keys[..i] && Deleting(env, k) && k !in env.unpatched
        invariant attached == old(attached) - Freed(env, keys[..i], old(marked))
      {
        var k := keys[i];
        FreedNext(env, keys, i, old(marked));
        assert keys[..i + 1] == keys[..i] + [k] && keys[..i + 1][..i] == keys[..i];
        i := i + 1;
        if !Deleting(env, k) {
          active := active + [k];
          continue;
        }
        if k !in marked {
          continue;
        }
        DetachOne(env, k);
        Unmark(env, k);
      }
      assert keys[..i] == keys;
    }

    method AttachPoolRef(env: Env, key: Key) returns (err: bool)
      modifies this`attached, this`marked
      ensures old(attached) <= attached <= old(attached) + {key}
      ensures err <==> !Attachable(env, Ref(POOL, key.namespace, key.name))
      ensures !err ==> attached == old(attached) + {key}
      ensures !err ==> marked == old(marked) + Patchable(env, [key])
    {
      assert Ref(POOL, key.namespace, key.name).Object() == key;
      if key in env.unreadable || key !in env.pools {
        return true;
      }
      var plane := Key(key.namespace, env.pools[key].cluster);
      if plane in env.unreadable || plane !in env.planes {
        return true;
      }
      assert (set k | k in [key]) == {key};
      err := AttachPools(env, [key]);
      if err {
        return;
      }
      if key !in marked {
        Mark(env, key);
      }
      assert Patchable(env, [key]) == if key in env.unpatched then {} else {key};
    }

    method AttachPlaneRef(env: Env, key: Key) returns (err: bool)
      modifies this`attached, this`marked, this`markedPlanes
      ensures var keys := PoolsOf(env, key.name);
        && old(attached) - DeletingOf(env, keys) <= attached <= old(attached) + (set k | k in keys)
        && (forall k | k in attached && k !in old(attached) :: key in env.live ==> !Deleting(env, k))
        && (!err ==> forall k | k in keys && (key in env.live ==> !Deleting(env, k)) :: k in attached)
        && (!err && key in env.live ==> forall k | k in keys && Deleting(env, k) && Works(env, k) ::
              k in attached <==> k in old(attached) && (k in old(marked) ==> k in Unnoticed(env)))
      ensures err <==> !Attachable(env, Ref(PLANE, key.namespace, key.name))
      ensures !err ==> attached == AttachedBy(env, Ref(PLANE, key.namespace, key.name), old(attached), old(marked))
      ensures !err ==> markedPlanes == old(markedPlanes) + if key in env.unpatched then {} else {key}
      ensures !err ==> forall k ::
        var mine := k in PoolsOf(env, key.name);
        var stays := mine && (key in env.live ==> !Deleting(env, k)) && key !in old(markedPlanes);
        var goes := mine && key in env.live && Deleting(env, k);
        k in marked <==> if k in env.unpatched then k in old(marked) else stays || (k in old(marked) && !goes)
      ensures !err ==> Finalizers() == MarksAttached(env, Ref(PLANE, key.namespace, key.name), old(Finalizers()))
    {
      assert Ref(PLANE, key.namespace, key.name).Object() == key;
      if key in env.unreadable || key !in env.planes || key.name in env.unlisted {
        return true;
      }
      var keys := PoolsOf(env, key.name);
      ActiveExactly(env, keys);
      PlaneMarks(env, key, Finalizers());
      FreedWorking(env, keys, marked);
      hide MarksAttached, Active, PoolsOf, Works, Unnoticed, Freed;
      if key in env.live {
        keys := ReleaseDeleting(env, keys);
      }
      err := AttachPools(env, keys);
      if err {
        return;
      }
      if key !in markedPlanes {
        if key !in env.unpatched {
          markedPlanes := markedPlanes + {key};
        }
        MarkAll(env, keys);
      }
    }

    /** `ensureAttachReferences`, for one reference. */
    method AttachRef(env: Env, ref: Ref) returns (err: bool)
      modifies this`attached, this`marked, this`markedPlanes
      ensures old(attached) - Doomed(env) <= attached <= old(attached) + Cover(env, ref)
      ensures !err ==> Cover(env, ref) - Doomed(env) <= attached
      ensures err <==> !Attachable(env, ref)
      ensures !err ==> attached == AttachedBy(env, ref, old(attached), old(marked))
      ensures !err ==> Finalizers() == MarksAttached(env, ref, old(Finalizers()))
    {
      if ref.kind == POOL {
        assert Ref(POOL, ref.Object().namespace, ref.Object().name) == ref;
        err := AttachPoolRef(env, ref.Object());
      } else if ref.kind == PLANE {
        assert Ref(PLANE, ref.Object().namespace, ref.Object().name) == ref;
        err := AttachPlaneRef(env, ref.Object());
        hide MarksAttached, Attachable, AttachedBy;
      } else {
        return true;
      }
    }

    method EnsureAttach(env: Env) returns (err: bool)
      modifies this`attached, this`marked, this`markedPlanes
      ensures old(attached) - Doomed(env) <= attached <= old(attached) + Covers(env, spec)
      ensures err <==> !AllAttachable(env, spec)
      ensures !err ==> Covers(env, spec) - Doomed(env) <= attached
      ensures !err ==> attached == AttachedAll(env, spec, old(attached), old(Finalizers()))
      ensures !err ==> Finalizers() == AllAttached(env, spec, old(Finalizers()))
    {
      hide Attachable, Doomed, Cover, Covers, MarksAttached, AllAttached, AttachedBy, AttachedAll;
      AttachedNone(env, spec[..0], attached, Finalizers());
      CoversNone(env, spec[..0]);
      MarksNone(env, spec[..0], Finalizers());
      for i := 0 to |spec|
        invariant forall j | 0 <= j < i :: Attachable(env, spec[j])
        invariant old(attached) - Doomed(env) <= attached <= old(attached) + Covers(env, spec[..i])
        invariant Covers(env, spec[..i]) - Doomed(env) <= attached
        invariant attached == AttachedAll(env, spec[..i], old(attached), old(Finalizers()))
        invariant Finalizers() == AllAttached(env, spec[..i], old(Finalizers()))
      {
        CoversNext(env, spec, i);
        AttachedNext(env, spec, i, old(Finalizers()));
        AttachedAllNext(env, spec, i, old(attached), old(Finalizers()));
        CoversGrow(env, spec, i + 1);
        err := AttachRef(env, spec[i]);
        if err {
          return;
        }
      }
      assert spec[..|spec|] == spec;
      return false;
    }

    /** `ensureDetachRemovedReferences`, for one reference that the spec no longer names. */
    method DetachRef(env: Env, ref: Ref) returns (err: bool)
      modifies this`attached, this`marked, this`markedPlanes
      ensures old(attached) - Cover(env, ref) <= attached <= old(attached)
      ensures err <==> !Detachable(env, ref)
      ensures !err ==> attached == old(attached) - (Cover(env, ref) - Unnoticed(env))
      ensures !err ==> Finalizers() == MarksDetached(env, ref, old(Finalizers()))
    {
      var key := ref.Object();
      assert Patchable(env, [key]) == if key in env.unpatched then {} else {key};
      if ref.kind == POOL {
        if key in env.unreadable || key !in env.pools {
          return true;
        }
        assert (set k | k in [key]) == {key};
        err := DetachPools(env, [key]);
        if err {
          return;
        }
        Unmark(env, key);
      } else if ref.kind == PLANE {
        if key in env.unreadable || key !in env.planes || ref.name in env.unlisted {
          return true;
        }
        var keys := PoolsOf(env, ref.name);
        err := DetachPools(env, keys);
        if err {
          return;
        }
        if key !in env.unpatched {
          markedPlanes := markedPlanes - {key};
        }
        UnmarkAll(env, keys);
      } else {
        return false;
      }
    }

    method SpecNames() returns (names: set<string>)
      ensures forall name :: name in names <==> Named(spec, name)
    {
      names := {};
      for i := 0 to |spec|
        invariant forall name :: name in names <==> exists j | 0 <= j < i :: spec[j].name == name
      {
        names := names + {spec[i].name};
      }
    }

    method EnsureDetach(env: Env) returns (err: bool)
      modifies this`attached, this`marked, this`markedPlanes
      ensures var d := Covers(env, Gone(spec, applied));
        old(attached) - d <= attached <= old(attached) && (!err ==> attached == old(attached) - (d - Unnoticed(env)))
      ensures err <==> !AllDetachable(env, Gone(spec, applied))
      ensures !err ==> Finalizers() == AllDetached(env, Gone(spec, applied), old(Finalizers()))
    {
      var names := SpecNames();
      hide Cover, Covers, Gone, Named, MarksDetached, AllDetached, Unnoticed, Detachable;
      MarksNone(env, Gone(spec, applied[..0]), Finalizers()) by { GoneNone(spec, applied[..0]); }
      CoversNone(env, Gone(spec, applied[..0])) by { GoneNone(spec, applied[..0]); }
      for i := 0 to |applied|
        invariant forall j | 0 <= j < i && !Named(spec, applied[j].name) :: Detachable(env, applied[j])
        invariant attached == old(attached) - (Covers(env, Gone(spec, applied[..i])) - Unnoticed(env))
        invariant Finalizers() == AllDetached(env, Gone(spec, applied[..i]), old(Finalizers()))
      {
        GoneNext(env, spec, applied, i);
        DetachedNext(env, spec, applied, i, old(Finalizers()));
        GoneGrow(env, spec, applied, i + 1);
        if applied[i].name !in names {
          err := DetachRef(env, applied[i]);
          if err {
            InGone(spec, applied, applied[i]);
            return;
          }
        }
      }
      assert applied[..|applied|] == applied;
      forall r | r in Gone(spec, applied) ensures Detachable(env, r) {
        InGone(spec, applied, r);
      }
      return false;
    }

    /** `reconcileDelete`, for one reference: an object that is gone is passed over, and so is a
        pool that cannot be detached. */
    method DetachForDelete(env: Env, ref: Ref) returns (err: bool)
      modifies this`attached, this`marked, this`markedPlanes
      ensures err <==> !Passes(env, ref)
      ensures old(attached) - Reached(env, ref) <= attached <= old(attached)
      ensures attached == old(attached) - if err then {} else DroppedBy(env, ref)
      ensures Finalizers() == if err then old(Finalizers()) else MarksDeleted(env, ref, old(Finalizers()))
    {
      var key := ref.Object();
      assert Patchable(env, [key]) == if key in env.unpatched then {} else {key};
      if ref.kind == POOL {
        if key in env.unreadable {
          return true;
        }
        if key !in env.pools {
          return false;
        }
        assert (set k | k in [key]) == {key};
        var failed := DetachPools(env, [key]);
        if failed {
          return false;
        }
        Unmark(env, key);
      } else if ref.kind == PLANE {
        if key in env.unreadable {
          return true;
        }
        if key !in env.planes {
          return false;
        }
        if ref.name in env.unlisted {
          return true;
        }
        var keys := PoolsOf(env, ref.name);
        var _ := DetachPools(env, keys);
        if key !in env.unpatched {
          markedPlanes := markedPlanes - {key};
        }
        UnmarkAll(env, keys);
      } else {
        return true;
      }
      return false;
    }

    /** `reconcileDelete`: `known` tells whether the cloud's security group can be looked up, `found`
        whether it still exists, and `deletes` whether its deletion is accepted. Only the references
        of the spec count. */
    method Delete(env: Env, known: bool, found: bool, deletes: bool) returns (gone: bool)
      modifies this`attached, this`marked, this`markedPlanes
      ensures old(attached) - ReachedAll(env, spec) <= attached <= old(attached)
      ensures !known || !found ==> attached == old(attached)
      ensures gone <==> known && (!found || (AllPass(env, spec) && deletes))
      ensures gone && found ==> attached == old(attached) - DroppedAll(env, spec)
      ensures gone && found && AllWork(env) ==> attached == old(attached) - (ReachedAll(env, spec) - Unnoticed(env))
      ensures marked <= old(marked) && markedPlanes <= old(markedPlanes)
      ensures !known || !found ==> Finalizers() == old(Finalizers())
      ensures gone && found ==> Finalizers() == AllDeleted(env, spec, old(Finalizers()))
      ensures gone && found ==> forall r | r in spec :: Unmarked(env, Finalizers(), r)
    {
      if !known {
        return false;
      }
      if !found {
        return true;
      }
      AllPassIs(env, spec);
      ghost var was := Finalizers();
      hide Passes, AllPass, DroppedBy, DroppedAll, MarksDeleted, AllDeleted, Reached, ReachedAll, Unnoticed, Unmarked;
      DroppedNone(env, spec[..0]);
      MarksNone(env, spec[..0], was);
      for i := 0 to |spec|
        invariant attached == old(attached) - DroppedAll(env, spec[..i])
        invariant Finalizers() == AllDeleted(env, spec[..i], was)
        invariant forall j | 0 <= j < i :: Passes(env, spec[j])
      {
        DroppedNext(env, spec, i);
        DeletedNext(env, spec, i, was);
        DeletedShrinks(env, spec[..i], was);
        var err := DetachForDelete(env, spec[i]);
        if err {
          DroppedWithin(env, spec, i);
          return false;
        }
      }
      assert spec[..|spec|] == spec;
      DeletedShrinks(env, spec, was);
      forall r | r in spec ensures Unmarked(env, Finalizers(), r) {
        DeletedUnmarked(env, spec, was, r);
      }
      DroppedWithin(env, spec, |spec|);
      if AllWork(env) {
        DroppedReached(env, spec);
      }
      return deletes;
    }

    /** The end of `reconcileNormal` and the deferred writes: the status is stored even when the
        update before it fails, which is then the error of the reconcile. */
    method Reconcile(env: Env) returns (err: bool)
      modifies this`applied, this`attached, this`marked, this`markedPlanes
      ensures Attempted(env, spec, old(applied), old(attached) - Doomed(env), applied, attached - Doomed(env), err)
      ensures err <==> !GoesThrough(env, spec, old(applied))
      ensures var done := AllAttachable(env, spec) && AllDetachable(env, Gone(spec, old(applied)));
        var lost := Covers(env, Gone(spec, old(applied))) - Unnoticed(env);
        && applied == (if done && env.stores then spec else old(applied))
        && (done ==> attached == AttachedAll(env, spec, old(attached), old(Finalizers())) - lost)
        && (done && NoneDeleting(env) ==> attached == old(attached) + Covers(env, spec) - lost)
      ensures !err || applied != old(applied) ==>
        Finalizers() == AllDetached(env, Gone(spec, old(applied)), AllAttached(env, spec, old(Finalizers())))
    {
      LastingSets(env, spec, applied);
      LastingAttached(env, spec, attached, Finalizers());
      LeftSets(attached, AttachedAll(env, spec, attached, Finalizers()), Covers(env, spec),
               Covers(env, Gone(spec, applied)), Unnoticed(env), Doomed(env));
      if NoneDeleting(env) {
        assert Doomed(env) == {};
      }
      hide AttachedAll, AllAttached, AllDetached, Covers, Gone, Unnoticed, AllAttachable, AllDetachable, Doomed;
      err := EnsureAttach(env);
      if err {
        return;
      }
      err := EnsureDetach(env);
      if err {
        return;
      }
      if env.stores {
        applied := spec;
      }
      return !env.updates || !env.stores;
    }
  }

  lemma CoversNone(env: Env, refs: seq<Ref>)
    requires refs == []
    ensures Covers(env, refs) == {}
  {
  }

  lemma GoneNone(spec: seq<Ref>, applied: seq<Ref>)
    requires applied == []
    ensures Gone(spec, applied) == []
  {
  }

  lemma {:induction false} CoversGrow(env: Env, refs: seq<Ref>, i: nat)
    requires i <= |refs|
    ensures Covers(env, refs[..i]) <= Covers(env, refs)
    decreases |refs| - i
  {
    if i < |refs| {
      CoversNext(env, refs, i);
      CoversGrow(env, refs, i + 1);
    } else {
      assert refs[..i] == refs;
    }
  }

  lemma {:induction false} GoneGrow(env: Env, spec: seq<Ref>, applied: seq<Ref>, i: nat)
    requires i <= |applied|
    ensures Covers(env, Gone(spec, applied[..i])) <= Covers(env, Gone(spec, applied))
    decreases |applied| - i
  {
    if i < |applied| {
      GoneNext(env, spec, applied, i);
      GoneGrow(env, spec, applied, i + 1);
    } else {
      assert applied[..i] == applied;
    }
  }

  // ---- One reconcile ----

  /** The pools that references mean, but those that are being deleted. */
  function Lasting(env: Env, refs: seq<Ref>): set<Key> {
    Covers(env, refs) - Doomed(env)
  }

  /** What a reconcile may leave behind, when it succeeds and when it fails anywhere, of the pools that
      are not being deleted. Once the status is stored, even with an error, everything was attached
      and detached that could be. */
  ghost predicate Attempted(env: Env, spec: seq<Ref>, applied: seq<Ref>, attached: set<Key>,
                            appliedNow: seq<Ref>, attachedNow: set<Key>, err: bool) {
    var p, d := Lasting(env, spec), Lasting(env, Gone(spec, applied));
    && attached - d <= attachedNow <= attached + p
    && (appliedNow == applied || appliedNow == spec)
    && (!err ==> appliedNow == spec)
    && (!err || appliedNow != applied ==> attachedNow == attached + p - (d - Unnoticed(env)))
  }

  /** What is left of the pools that are not being deleted, when the attaches leave `all`. */
  lemma LeftSets(attached: set<Key>, all: set<Key>, covers: set<Key>, gone: set<Key>, u: set<Key>, x: set<Key>)
    requires all - x == attached + covers - x
    ensures all - (gone - u) - x == attached - x + (covers - x) - (gone - x - u)
  {
    forall k ensures k in all - (gone - u) - x <==> k in attached - x + (covers - x) - (gone - x - u) {
      assert k in all - x <==> k in attached + covers - x;
    }
  }

  lemma LastingSets(env: Env, spec: seq<Ref>, applied: seq<Ref>)
    ensures var x := Doomed(env);
      && Lasting(env, spec) == Covers(env, spec) - x
      && Lasting(env, Gone(spec, applied)) == Covers(env, Gone(spec, applied)) - x
  {
  }

  // ---- What is attached after a success, pool by pool ----

  lemma AttachedByLasts(env: Env, ref: Ref, attached: set<Key>, marked: set<Key>)
    ensures AttachedBy(env, ref, attached, marked) - Doomed(env) == attached + Cover(env, ref) - Doomed(env)
  {
    ActiveExactly(env, PoolsOf(env, ref.name));
    FreedWorking(env, PoolsOf(env, ref.name), marked);
    hide Freed, Active, PoolsOf;
  }

  /** A pool that is not being deleted is attached after the attaches exactly when it was before or a
      reference means it. */
  lemma {:induction false} LastingAttached(env: Env, refs: seq<Ref>, attached: set<Key>, m: Marks)
    ensures AttachedAll(env, refs, attached, m) - Doomed(env) == attached + Covers(env, refs) - Doomed(env)
  {
    if refs != [] {
      var p := refs[..|refs| - 1];
      LastingAttached(env, p, attached, m);
      AttachedByLasts(env, refs[|refs| - 1], AttachedAll(env, p, attached, m), AllAttached(env, p, m).pools);
      hide AttachedBy, Cover, Doomed, AllAttached;
      SetsStep(AttachedAll(env, p, attached, m), attached + Covers(env, p), Cover(env, refs[|refs| - 1]), Doomed(env));
    }
  }

  lemma SetsStep(a: set<Key>, b: set<Key>, c: set<Key>, x: set<Key>)
    requires a - x == b - x
    ensures a + c - x == b + c - x
  {
    forall k ensures k in a + c - x <==> k in b + c - x {
      assert k in a - x <==> k in b - x;
    }
  }

  /** Only control planes with a live cluster mean the pool. */
  ghost predicate OnlyReleased(env: Env, refs: seq<Ref>, k: Key) {
    forall r | r in refs && k in Cover(env, r) :: r.kind == PLANE && r.Object() in env.live
  }

  lemma ReleasedBy(env: Env, r: Ref, k: Key, attached: set<Key>, m: Marks)
    requires Deleting(env, k) && (k in Cover(env, r) ==> r.kind == PLANE && r.Object() in env.live)
    ensures k in AttachedBy(env, r, attached, m.pools) <==>
      k in attached && !(k in Cover(env, r) && k in m.pools && k !in env.aborting && Drops(env, k))
    ensures k in MarksAttached(env, r, m).pools <==> k in m.pools && !(k in Cover(env, r) && k !in env.unpatched)
  {
    ActiveExactly(env, PoolsOf(env, r.name));
    hide Active, Drops, PoolsOf;
  }

  /** A pool that is being deleted and belongs to live clusters only: the attaches never add it, and
      they take it away exactly when it carries the finalizer and its detach has effect; the
      finalizer goes with it, where it can be patched. */
  lemma {:induction false} DeletingReleased(env: Env, refs: seq<Ref>, attached: set<Key>, m: Marks, k: Key)
    requires Deleting(env, k) && OnlyReleased(env, refs, k)
    ensures k in AttachedAll(env, refs, attached, m) <==>
      k in attached && !(k in Covers(env, refs) && k in m.pools && k !in env.aborting && Drops(env, k))
    ensures k in AllAttached(env, refs, m).pools <==> k in m.pools && !(k in Covers(env, refs) && k !in env.unpatched)
  {
    if refs != [] {
      var p, x := refs[..|refs| - 1], refs[|refs| - 1];
      assert refs == p + [x];
      DeletingReleased(env, p, attached, m, k);
      ReleasedBy(env, x, k, AttachedAll(env, p, attached, m), AllAttached(env, p, m));
      hide AttachedBy, MarksAttached, Cover, Drops, Deleting;
    }
  }

  /** A pool that the last reference which means it names directly, or by a control plane without a live
      cluster, is attached even while it is being deleted. */
  lemma {:induction false} DeletingHeld(env: Env, p: seq<Ref>, r: Ref, q: seq<Ref>, attached: set<Key>, m: Marks,
                                        k: Key)
    requires k in Cover(env, r) && (r.kind == POOL || r.Object() !in env.live) && k !in Covers(env, q)
    ensures k in AttachedAll(env, p + [r] + q, attached, m)
  {
    var all := p + [r] + q;
    if q == [] {
      assert all[..|all| - 1] == p;
    } else {
      var n := |q| - 1;
      assert all[..|all| - 1] == p + [r] + q[..n];
      DeletingHeld(env, p, r, q[..n], attached, m, k);
      var before := AttachedAll(env, p + [r] + q[..n], attached, m);
      assert k !in Cover(env, q[n]);
      StaysAttached(env, q[n], before, AllAttached(env, p + [r] + q[..n], m).pools, k);
    }
    hide AttachedBy, AllAttached;
  }

  lemma StaysAttached(env: Env, r: Ref, attached: set<Key>, marked: set<Key>, k: Key)
    requires k !in Cover(env, r) && k in attached
    ensures k in AttachedBy(env, r, attached, marked)
  {
    hide Active, Drops, PoolsOf;
  }

  // ---- Runs ----

  /** What a caller can check before an edit: every pool that loses its cover belongs to a
      reference whose name disappears, and no pool keeps a cover from elsewhere. */
  ghost predicate Compatible(env: Env, before: seq<Ref>, after: seq<Ref>) {
    var d := Lasting(env, Gone(after, before));
    Lasting(env, before) <= Lasting(env, after) + d && d !! Lasting(env, after)
  }

  /** The same for a reconcile in which some detaches fail unnoticed. */
  ghost predicate CompatibleBut(env: Env, before: seq<Ref>, after: seq<Ref>) {
    var d := Lasting(env, Gone(after, before)) - Unnoticed(env);
    Lasting(env, before) <= Lasting(env, after) + d && d !! Lasting(env, after)
  }

  /** The attached pools of lost references whose detach fails unnoticed. */
  ghost function Escaping(env: Env, spec: seq<Ref>, applied: seq<Ref>, attached: set<Key>): set<Key> {
    attached * Lasting(env, Gone(spec, applied)) * Unnoticed(env)
  }

  /** Of the pools that are not being deleted: from a settled state, one successful reconcile ends with
      exactly the pools of the new references if and only if the edit is compatible with what fails
      unnoticed: after a compatible edit, if and only if no attached pool of a lost reference fails
      unnoticed, and when nothing fails unnoticed, if and only if the edit is compatible. */
  lemma SuccessExactly(env: Env, before: seq<Ref>, after: seq<Ref>, applied: seq<Ref>, attached: set<Key>)
    requires Attempted(env, after, before, Lasting(env, before), applied, attached, false)
    ensures attached == Lasting(env, after) <==> CompatibleBut(env, before, after)
    ensures Compatible(env, before, after) ==>
      (attached == Lasting(env, after) <==> Escaping(env, after, before, Lasting(env, before)) == {})
    ensures Unnoticed(env) == {} ==> (attached == Lasting(env, after) <==> Compatible(env, before, after))
  {
    hide Lasting, Gone, Unnoticed;
    var a, b, d := Lasting(env, before), Lasting(env, after), Lasting(env, Gone(after, before));
    var u := Unnoticed(env);
    LeftExactly(a, b, d - u);
    if Compatible(env, before, after) {
      if k :| k in a * d * u {
        assert k in attached && k !in b;
      } else {
        forall k | k in a ensures k in b + (d - u) {
          assert k !in a * d * u;
        }
      }
    }
  }

  lemma LeftExactly(a: set<Key>, b: set<Key>, d: set<Key>)
    ensures a + b - d == b <==> a <= b + d && d !! b
  {
    if a + b - d == b {
      forall k | k in a ensures k in b + d {
        assert k in a + b;
      }
    }
  }

  /** Names identify references, and different references cover different pools. */
  ghost predicate Separate(env: Env, refs: seq<Ref>) {
    && (forall r, q | r in refs && q in refs && r.name == q.name :: r == q)
    && (forall r, q | r in refs && q in refs && r != q :: Cover(env, r) !! Cover(env, q))
  }

  lemma {:induction false} InCovers(env: Env, refs: seq<Ref>, k: Key)
    ensures k in Covers(env, refs) <==> exists r :: r in refs && k in Cover(env, r)
  {
    if refs != [] {
      var p, x := refs[..|refs| - 1], refs[|refs| - 1];
      assert refs == p + [x];
      InCovers(env, p, k);
      assert x in refs;
    }
  }

  lemma {:induction false} InGone(spec: seq<Ref>, applied: seq<Ref>, r: Ref)
    ensures r in Gone(spec, applied) <==> r in applied && !Named(spec, r.name)
  {
    if applied != [] {
      var p, x := applied[..|applied| - 1], applied[|applied| - 1];
      assert applied == p + [x];
      InGone(spec, p, r);
    }
  }

  lemma SeparateIsCompatible(env: Env, before: seq<Ref>, after: seq<Ref>)
    requires Separate(env, before + after)
    ensures Compatible(env, before, after)
  {
    SeparateCovers(env, before, after);
    hide Covers, Gone, Separate;
  }

  lemma SeparateCovers(env: Env, before: seq<Ref>, after: seq<Ref>)
    requires Separate(env, before + after)
    ensures var d := Covers(env, Gone(after, before));
      Covers(env, before) <= Covers(env, after) + d && d !! Covers(env, after)
  {
    hide Covers, Gone, Cover;
    var d := Covers(env, Gone(after, before));
    forall k | k in Covers(env, before) ensures k in Covers(env, after) + d {
      InCovers(env, before, k);
      var r :| r in before && k in Cover(env, r);
      if Named(after, r.name) {
        var i :| 0 <= i < |after| && after[i].name == r.name;
        assert after[i] in before + after && r in before + after;
        InCovers(env, after, k);
      } else {
        InGone(after, before, r);
        InCovers(env, Gone(after, before), k);
      }
    }
    forall k | k in d ensures k !in Covers(env, after) {
      InCovers(env, Gone(after, before), k);
      var r :| r in Gone(after, before) && k in Cover(env, r);
      InGone(after, before, r);
      InCovers(env, after, k);
      forall q | q in after ensures k !in Cover(env, q) {
        assert q in before + after && r in before + after;
        var i :| 0 <= i < |after| && after[i] == q;
        assert q.name != r.name;
      }
    }
  }

  /** A SecurityGroup between reconciles, with the attached pools that are not being deleted. It is
      settled when a reconcile came to its end and stored the status after the last edit; `escaped`
      are the pools whose detach failed unnoticed when their references got lost, until a later
      reference covers them again. */
  datatype State = State(spec: seq<Ref>, applied: seq<Ref>, attached: set<Key>, settled: bool, escaped: set<Key>)

  datatype Step = Edit | Attempt(env: Env, err: bool)

  predicate SameWorld(a: Env, b: Env) {
    a.pools == b.pools && a.lists == b.lists
  }

  ghost predicate Edits(world: Env, s: State, t: State) {
    && s.settled && Compatible(world, s.spec, t.spec)
    && t == State(t.spec, s.applied, s.attached, false, s.escaped)
  }

  predicate Settles(s: State, t: State, err: bool) {
    !err || t.applied != s.applied
  }

  /** A reconcile in the same world, with any failures. */
  ghost predicate Reconciles(world: Env, s: State, t: State, env: Env, err: bool) {
    && SameWorld(world, env)
    && Attempted(env, s.spec, s.applied, s.attached, t.applied, t.attached, err)
    && t.spec == s.spec && (t.settled <==> s.settled || Settles(s, t, err))
    && t.escaped == if Settles(s, t, err)
         then s.escaped - Lasting(env, s.spec) + Escaping(env, s.spec, s.applied, s.attached) else s.escaped
  }

  ghost predicate Goes(world: Env, s: State, step: Step, t: State) {
    match step
    case Edit => Edits(world, s, t)
    case Attempt(env, err) => Reconciles(world, s, t, env, err)
  }

  ghost predicate Run(world: Env, states: seq<State>, steps: seq<Step>) {
    && |states| == |steps| + 1
    && states[0] == State(states[0].spec, [], {}, false, {})
    && forall i | 0 <= i < |steps| :: Goes(world, states[i], steps[i], states[i + 1])
  }

  /** Settled, the attached pools are those of the spec and the escaped ones, which are others. */
  ghost predicate Tracks(world: Env, s: State) {
    s.attached !! Doomed(world) &&
    if s.settled then
      && s.applied == s.spec && s.attached == Lasting(world, s.spec) + s.escaped && s.escaped !! Lasting(world, s.spec)
    else
      && Compatible(world, s.applied, s.spec) && s.escaped !! Lasting(world, s.applied)
      && s.escaped <= s.attached <= Lasting(world, s.applied) + Lasting(world, s.spec) + s.escaped
  }

  lemma {:induction false} SameCovers(a: Env, b: Env, refs: seq<Ref>)
    requires SameWorld(a, b)
    ensures Covers(a, refs) == Covers(b, refs) && Doomed(a) == Doomed(b) && Lasting(a, refs) == Lasting(b, refs)
  {
    if refs != [] {
      SameCovers(a, b, refs[..|refs| - 1]);
    }
  }

  lemma {:induction false} GoneFromItself(spec: seq<Ref>, applied: seq<Ref>)
    requires forall r | r in applied :: Named(spec, r.name)
    ensures Gone(spec, applied) == []
  {
    if applied != [] {
      assert applied[|applied| - 1] in applied;
      GoneFromItself(spec, applied[..|applied| - 1]);
    }
  }

  lemma NothingGone(env: Env, spec: seq<Ref>)
    ensures Covers(env, Gone(spec, spec)) == {} && Lasting(env, Gone(spec, spec)) == {}
  {
    forall r | r in spec ensures Named(spec, r.name) {
      var i :| 0 <= i < |spec| && spec[i] == r;
    }
    GoneFromItself(spec, spec);
  }

  lemma {:induction false} GoneCovered(env: Env, spec: seq<Ref>, applied: seq<Ref>)
    ensures Covers(env, Gone(spec, applied)) <= Covers(env, applied)
    ensures Lasting(env, Gone(spec, applied)) <= Lasting(env, applied)
  {
    hide Cover, Covers, Gone;
    forall k | k in Covers(env, Gone(spec, applied)) ensures k in Covers(env, applied) {
      InCovers(env, Gone(spec, applied), k);
      var r :| r in Gone(spec, applied) && k in Cover(env, r);
      InGone(spec, applied, r);
      InCovers(env, applied, k);
    }
  }

  lemma TracksReconcile(world: Env, s: State, t: State, env: Env, err: bool)
    requires Tracks(world, s) && Reconciles(world, s, t, env, err)
    ensures Tracks(world, t)
  {
    SameCovers(world, env, s.spec);
    SameCovers(world, env, s.applied);
    SameCovers(world, env, Gone(s.spec, s.applied));
    NothingGone(world, s.spec);
    GoneCovered(world, s.spec, s.applied);
    hide Lasting, Gone, Unnoticed, Compatible, Escaping;
    var a, b, d := Lasting(world, s.applied), Lasting(world, s.spec), Lasting(world, Gone(s.spec, s.applied));
    if Settles(s, t, err) {
      assert s.settled ==> d == {};
      CompatibleSets(world, s.applied, s.spec);
      EscapingSets(env, s.spec, s.applied, s.attached);
      SettledSets(a, b, d, Unnoticed(env), s.attached, s.escaped, s.settled);
    } else if !s.settled {
      FailedSets(a, b, d, s.attached, s.escaped, t.attached);
    }
  }

  lemma CompatibleSets(env: Env, before: seq<Ref>, after: seq<Ref>)
    ensures Compatible(env, before, after) ==>
      var d := Lasting(env, Gone(after, before));
      Lasting(env, before) <= Lasting(env, after) + d && d !! Lasting(env, after)
  {
  }

  lemma EscapingSets(env: Env, spec: seq<Ref>, applied: seq<Ref>, attached: set<Key>)
    ensures Escaping(env, spec, applied, attached) == attached * Lasting(env, Gone(spec, applied)) * Unnoticed(env)
  {
  }

  lemma SettledSets(a: set<Key>, b: set<Key>, d: set<Key>, u: set<Key>, attached: set<Key>, escaped: set<Key>,
                    settled: bool)
    requires if settled then d == {} && attached == b + escaped && escaped !! b
             else a <= b + d && d !! b && d <= a && escaped !! a && escaped <= attached <= a + b + escaped
    ensures attached + b - (d - u) == b + (escaped - b + attached * d * u)
    ensures escaped - b + attached * d * u !! b
  {
  }

  lemma FailedSets(a: set<Key>, b: set<Key>, d: set<Key>, attached: set<Key>, escaped: set<Key>, after: set<Key>)
    requires d <= a && escaped !! a && escaped <= attached <= a + b + escaped && attached - d <= after <= attached + b
    ensures escaped <= after <= a + b + escaped
  {
    forall k | k in escaped ensures k in after {
      assert k in attached - d;
    }
  }

  lemma TracksEdit(world: Env, s: State, t: State)
    requires Tracks(world, s) && Edits(world, s, t)
    ensures Tracks(world, t)
  {
    hide Lasting, Gone;
  }

  lemma RunPrefix(world: Env, states: seq<State>, steps: seq<Step>, i: nat)
    requires Run(world, states, steps) && i <= |steps|
    ensures Run(world, states[..i + 1], steps[..i])
  {
    hide Goes;
  }

  /** Over any run of compatible edits, each followed by a reconcile that settles before the next
      one, and of reconciles that fail anywhere: in every settled state the applied references
      are those of the spec, and the attached pools are exactly its pools and the escaped ones. */
  lemma {:induction false} AppliedTracksAttached(world: Env, states: seq<State>, steps: seq<Step>)
    requires Run(world, states, steps)
    ensures var s := states[|steps|];
      Tracks(world, s) && (s.settled ==> (s.attached == Lasting(world, s.spec) <==> s.escaped == {}))
  {
    var n := |steps|;
    if n == 0 {
      var s := states[0];
      assert Covers(world, s.applied) == {};
      assert Gone(s.spec, s.applied) == [];
    } else {
      RunPrefix(world, states, steps, n - 1);
      AppliedTracksAttached(world, states[..n], steps[..n - 1]);
      assert Goes(world, states[n - 1], steps[n - 1], states[n]);
      hide Run, Edits, Reconciles;
      if steps[n - 1].Edit? {
        hide Tracks;
        TracksEdit(world, states[n - 1], states[n]);
      } else {
        hide Tracks;
        TracksReconcile(world, states[n - 1], states[n], steps[n - 1].env, steps[n - 1].err);
      }
    }
    SettledExactly(world, states[n]);
  }

  lemma SettledExactly(world: Env, s: State)
    requires Tracks(world, s)
    ensures s.settled ==> (s.attached == Lasting(world, s.spec) <==> s.escaped == {})
  {
    hide Lasting;
    if k :| s.settled && k in s.escaped {
      assert k in s.attached && k !in Lasting(world, s.spec);
    }
  }

  /** Step `j` of a run settles and lets `k` escape. */
  ghost predicate Escapes(states: seq<State>, steps: seq<Step>, j: nat, k: Key)
    requires |states| == |steps| + 1 && j < |steps|
  {
    && steps[j].Attempt? && Settles(states[j], states[j + 1], steps[j].err)
    && k in Escaping(steps[j].env, states[j].spec, states[j].applied, states[j].attached)
  }

  /** Step `j` of a run settles with `k` covered by the spec. */
  ghost predicate Recovers(states: seq<State>, steps: seq<Step>, j: nat, k: Key)
    requires |states| == |steps| + 1 && j < |steps|
  {
    && steps[j].Attempt? && Settles(states[j], states[j + 1], steps[j].err)
    && k in Lasting(steps[j].env, states[j].spec)
  }

  ghost predicate EscapedSince(states: seq<State>, steps: seq<Step>, j: nat, k: Key)
    requires |states| == |steps| + 1 && j < |steps|
  {
    Escapes(states, steps, j, k) && forall m | j < m < |steps| ::
      !Recovers(states, steps, m, k) || Escapes(states, steps, m, k)
  }

  lemma EscapedStep(world: Env, states: seq<State>, steps: seq<Step>, j: nat, k: Key)
    requires Run(world, states, steps) && j < |steps|
    ensures k in states[j + 1].escaped <==>
      Escapes(states, steps, j, k) || (k in states[j].escaped && !Recovers(states, steps, j, k))
  {
    assert Goes(world, states[j], steps[j], states[j + 1]);
    hide Lasting, Escaping, Attempted, Run;
  }

  lemma SameSteps(states: seq<State>, steps: seq<Step>, i: nat, j: nat, k: Key)
    requires |states| == |steps| + 1 && j < i <= |steps|
    ensures Escapes(states[..i + 1], steps[..i], j, k) <==> Escapes(states, steps, j, k)
    ensures Recovers(states[..i + 1], steps[..i], j, k) <==> Recovers(states, steps, j, k)
  {
    hide Escaping, Lasting;
  }

  /** A pool is escaped exactly when a settling reconcile failed to detach it unnoticed, and no
      later settling reconcile had it in its spec. */
  lemma {:induction false} EscapedExactly(world: Env, states: seq<State>, steps: seq<Step>, k: Key)
    requires Run(world, states, steps)
    ensures k in states[|steps|].escaped <==> exists j :: 0 <= j < |steps| && EscapedSince(states, steps, j, k)
  {
    var n := |steps|;
    if n > 0 {
      var p, q := states[..n], steps[..n - 1];
      RunPrefix(world, states, steps, n - 1);
      EscapedExactly(world, p, q, k);
      EscapedStep(world, states, steps, n - 1, k);
      forall j: nat | j < n - 1
        ensures Escapes(p, q, j, k) <==> Escapes(states, steps, j, k)
        ensures Recovers(p, q, j, k) <==> Recovers(states, steps, j, k)
      {
        SameSteps(states, steps, n - 1, j, k);
      }
      hide Escapes, Recovers, Run;
      EscapedLonger(states, steps, p, q, k);
    }
  }

  lemma EscapedLonger(states: seq<State>, steps: seq<Step>, p: seq<State>, q: seq<Step>, k: Key)
    requires |states| == |steps| + 1 && |p| == |q| + 1 && |steps| == |q| + 1
    requires forall j: nat | j < |q| :: Escapes(p, q, j, k) <==> Escapes(states, steps, j, k)
    requires forall j: nat | j < |q| :: Recovers(p, q, j, k) <==> Recovers(states, steps, j, k)
    ensures (exists j :: 0 <= j < |steps| && EscapedSince(states, steps, j, k)) <==>
      || Escapes(states, steps, |q|, k)
      || (!Recovers(states, steps, |q|, k) && exists j :: 0 <= j < |q| && EscapedSince(p, q, j, k))
  {
    hide Escapes, Recovers;
    if Escapes(states, steps, |q|, k) {
      assert EscapedSince(states, steps, |q|, k);
    } else if Recovers(states, steps, |q|, k) {
      forall j: nat | j < |steps| ensures !EscapedSince(states, steps, j, k) {
      }
    } else {
      forall j: nat | j < |q| ensures EscapedSince(p, q, j, k) <==> EscapedSince(states, steps, j, k) {
        StillEscaped(states, steps, p, q, j, k);
      }
      assert !EscapedSince(states, steps, |q|, k);
    }
  }

  lemma StillEscaped(states: seq<State>, steps: seq<Step>, p: seq<State>, q: seq<Step>, j: nat, k: Key)
    requires |states| == |steps| + 1 && |p| == |q| + 1 && |steps| == |q| + 1 && j < |q|
    requires forall j: nat | j < |q| :: Escapes(p, q, j, k) <==> Escapes(states, steps, j, k)
    requires forall j: nat | j < |q| :: Recovers(p, q, j, k) <==> Recovers(states, steps, j, k)
    requires !Recovers(states, steps, |q|, k)
    ensures EscapedSince(p, q, j, k) <==> EscapedSince(states, steps, j, k)
  {
    hide Escapes, Recovers;
    if EscapedSince(p, q, j, k) {
      forall m | j < m < |steps| ensures !Recovers(states, steps, m, k) || Escapes(states, steps, m, k) {
        assert m < |q| ==> (!Recovers(p, q, m, k) || Escapes(p, q, m, k));
      }
    }
    if EscapedSince(states, steps, j, k) {
      forall m | j < m < |q| ensures !Recovers(p, q, m, k) || Escapes(p, q, m, k) {
        assert !Recovers(states, steps, m, k) || Escapes(states, steps, m, k);
      }
    }
  }

  /** An attached Karpenter pool of a lost reference whose instances cannot be detached: the
      reconcile succeeds, its reference leaves the status, the pool stays attached, and no later
      reconcile of this spec detaches it. */
  lemma UnnoticedStaysAttached(env: Env, spec: seq<Ref>, before: seq<Ref>, k: Key, applied: seq<Ref>,
                               attached: set<Key>, later: Env, appliedNow: seq<Ref>, attachedNow: set<Key>, err: bool)
    requires SameWorld(env, later) && Compatible(env, before, spec)
    requires k in Escaping(env, spec, before, Lasting(env, before))
    requires Attempted(env, spec, before, Lasting(env, before), applied, attached, false)
    requires Attempted(later, spec, applied, attached, appliedNow, attachedNow, err)
    ensures applied == spec && k in attached && k !in Lasting(env, spec) && k in attachedNow
  {
    NothingGone(later, spec);
    SameCovers(env, later, spec);
    hide Lasting, Gone, Unnoticed;
  }

  /** Two references to a Karpenter pool each, one of which is dropped. */
  lemma DroppedPool(x: Ref, y: Ref, env: Env)
    requires x.kind == y.kind == POOL && x.name != y.name
    ensures Covers(env, [x, y]) == {x.Object(), y.Object()} && Covers(env, [y]) == {y.Object()}
    ensures Gone([y], [x, y]) == [x] && Covers(env, [x]) == {x.Object()}
    ensures Compatible(env, [x, y], [y])
  {
    assert [x, y][..1] == [x] && [x][..0] == [] && [y][..0] == [];
    assert Named([y], y.name) && !Named([y], x.name) by { assert [y][0] == y; }
    assert Gone([y], [x]) == [x] && Gone([y], [x, y]) == [x] + [];
    assert Covers(env, []) == {} && Covers(env, [x]) == {x.Object()} && Covers(env, [y]) == {y.Object()};
    assert x.Object() != y.Object();
  }

  /** A run from nothing attached: both pools are attached, then one is dropped while its instances
      cannot be detached. That reconcile succeeds, and so does a later one in which nothing goes
      wrong, and the dropped pool is still attached. */
  method UnnoticedExample(x: Ref, y: Ref, cluster: string)
    returns (errs: seq<bool>, attached: set<Key>, applied: seq<Ref>)
    requires x.kind == y.kind == POOL && x.name != y.name
    ensures errs == [false, false, false] && applied == [y] && attached == {x.Object(), y.Object()}
  {
    var pools := map[x.Object() := Pool(cluster, false, true), y.Object() := Pool(cluster, false, true)];
    var planes := {Key(x.namespace, cluster), Key(y.namespace, cluster)};
    var calm := Env(pools, planes, map[], {}, {}, {}, map[], {}, {}, {}, true, true);
    var failing := calm.(silent := {x.Object()});
    assert Unnoticed(failing) == {x.Object()} && Unnoticed(calm) == {};
    DroppedPool(x, y, calm);
    DroppedPool(x, y, failing);
    GoneNone([x, y], []);
    NothingGone(calm, [y]);
    OnlyPools(calm, x, y);
    OnlyPools(failing, x, y);
    hide Covers, Gone, Unnoticed, GoesThrough;
    var sg := new SecurityGroup([x, y]);
    var first := sg.Reconcile(calm);
    assert !first && sg.attached == {x.Object(), y.Object()};
    sg.spec := [y];
    var second := sg.Reconcile(failing);
    assert !second && sg.attached == {x.Object(), y.Object()};
    var third := sg.Reconcile(calm);
    return [first, second, third], sg.attached, sg.applied;
  }

  /** Pools that can be read and work let every one of these reconciles go through. */
  lemma OnlyPools(env: Env, x: Ref, y: Ref)
    requires x.kind == y.kind == POOL && x.name != y.name
    requires Attachable(env, x) && Attachable(env, y) && env.updates && env.stores
    ensures GoesThrough(env, [x, y], []) && GoesThrough(env, [y], [x, y]) && GoesThrough(env, [y], [y])
  {
    DroppedPool(x, y, env);
    assert Gone([y], [y]) == [] by {
      assert Named([y], y.name) by { assert [y][0] == y; }
      assert [y][..0] == [];
    }
  }

  /** Two successes in a row end with exactly the pools of the references, even when a pool of a
      reference that disappeared is still covered by one that stays, as long as every other
      pool that loses its cover belongs to a reference whose name disappeared and is detached. */
  lemma SecondSuccess(env: Env, before: seq<Ref>, after: seq<Ref>, attached: set<Key>, applied1: seq<Ref>,
                      attached1: set<Key>, later: Env, applied2: seq<Ref>, attached2: set<Key>)
    requires SameWorld(env, later)
    requires Attempted(env, after, before, attached, applied1, attached1, false)
    requires Attempted(later, after, applied1, attached1, applied2, attached2, false)
    ensures attached2 == Lasting(env, after) <==>
      attached <= Lasting(env, after) + (Lasting(env, Gone(after, before)) - Unnoticed(env))
  {
    NothingGone(later, after);
    SameCovers(env, later, after);
    hide Lasting, Gone, Unnoticed;
    var b, d := Lasting(env, after), Lasting(env, Gone(after, before)) - Unnoticed(env);
    assert attached1 == attached + b - d && attached2 == attached1 + b;
    if attached2 == b {
      forall k | k in attached ensures k in b + d {
        assert k in d || k in attached2;
      }
    }
  }

  /** A pool reference replaced by a control plane reference of the same name: the diff by names
      misses it, the pool stays attached, and no later reconcile of this spec detaches it. */
  lemma SameNameStaysAttached(env: Env, x: Ref, y: Ref, applied: seq<Ref>, attached: set<Key>, later: seq<Ref>,
                              after: set<Key>, err: bool)
    requires x.kind == POOL && y.kind == PLANE && x.name == y.name && x.Object() !in PoolsOf(env, y.name)
    requires !Deleting(env, x.Object())
    requires Attempted(env, [y], [x], Lasting(env, [x]), applied, attached, false)
    requires Attempted(env, [y], applied, attached, later, after, err)
    ensures applied == [y] && x.Object() in attached && x.Object() !in Lasting(env, [y]) && x.Object() in after
  {
    assert Named([y], x.name) by { assert [y][0].name == x.name; }
    GoneFromItself([y], [x]);
    NothingGone(env, [y]);
    InCovers(env, [x], x.Object());
    InCovers(env, [y], x.Object());
    assert x in [x];
    assert Covers(env, Gone([y], [x])) == {};
  }

  // ---- Finalizers over a reconcile ----

  /** The finalizer is on what the references name directly. */
  predicate Carries(m: Marks, ref: Ref) {
    (ref.kind == POOL ==> ref.Object() in m.pools) && (ref.kind == PLANE ==> ref.Object() in m.planes)
  }

  /** The finalizer is on nothing that the reference means. */
  predicate Released(env: Env, m: Marks, ref: Ref) {
    Cover(env, ref) !! m.pools && (ref.kind == PLANE ==> ref.Object() !in m.planes)
  }

  lemma {:induction false} AttachedCarry(env: Env, refs: seq<Ref>, m: Marks, r: Ref)
    requires env.unpatched == {} && r in refs && (r.kind == POOL ==> !Deleting(env, r.Object()))
    ensures Carries(AllAttached(env, refs, m), r)
  {
    var p, x := refs[..|refs| - 1], refs[|refs| - 1];
    assert refs == p + [x];
    var before := AllAttached(env, p, m);
    hide AllAttached;
    AttachedNext(env, refs, |p|, m);
    assert refs[..|p| + 1] == refs;
    if x != r {
      AttachedCarry(env, p, m, r);
    }
  }

  lemma {:induction false} DetachedKeep(env: Env, refs: seq<Ref>, m: Marks, r: Ref)
    requires Carries(m, r) && (r.kind == POOL || r.kind == PLANE)
    requires forall q | q in refs :: Cover(env, q) !! Cover(env, r) && q.name != r.name
    ensures Carries(AllDetached(env, refs, m), r)
  {
    if refs != [] {
      var p, x := refs[..|refs| - 1], refs[|refs| - 1];
      assert refs == p + [x];
      DetachedKeep(env, p, m, r);
      assert x in refs;
      if r.kind == POOL {
        assert r.Object() in Cover(env, r);
      }
    }
  }

  lemma {:induction false} DetachedReleased(env: Env, refs: seq<Ref>, m: Marks, r: Ref)
    requires env.unpatched == {} && r in refs
    ensures Released(env, AllDetached(env, refs, m), r)
  {
    var p, x := refs[..|refs| - 1], refs[|refs| - 1];
    assert refs == p + [x];
    if x != r {
      DetachedReleased(env, p, m, r);
    }
  }

  /** After a success with separate references, every reference of the spec carries the finalizer
      on the pool or the control plane that it names, and nothing that a lost reference means
      carries it, so that its objects can be deleted. */
  lemma FinalizersFollow(env: Env, spec: seq<Ref>, applied: seq<Ref>, m: Marks, r: Ref)
    requires env.unpatched == {} && Separate(env, applied + spec)
    requires r.kind == POOL ==> !Deleting(env, r.Object())
    ensures var after := AllDetached(env, Gone(spec, applied), AllAttached(env, spec, m));
      && (r in spec && (r.kind == POOL || r.kind == PLANE) ==> Carries(after, r))
      && (r in Gone(spec, applied) ==> Released(env, after, r))
  {
    var gone := Gone(spec, applied);
    hide Carries, Released, AllAttached, AllDetached, Gone, Cover;
    if r in spec && (r.kind == POOL || r.kind == PLANE) {
      AttachedCarry(env, spec, m, r);
      forall q | q in gone ensures Cover(env, q) !! Cover(env, r) && q.name != r.name {
        InGone(spec, applied, q);
        assert q in applied + spec && r in applied + spec;
        var i :| 0 <= i < |spec| && spec[i] == r;
      }
      DetachedKeep(env, gone, AllAttached(env, spec, m), r);
    }
    if r in gone {
      DetachedReleased(env, gone, AllAttached(env, spec, m), r);
    }
  }

  // ---- Deletion ----

  ghost predicate AllExist(env: Env, refs: seq<Ref>) {
    forall r | r in refs ::
      (r.kind == POOL ==> r.Object() in env.pools) && (r.kind == PLANE ==> r.Object() in env.planes)
  }

  lemma {:induction false} ReachedIsCovers(env: Env, refs: seq<Ref>)
    requires AllExist(env, refs)
    ensures ReachedAll(env, refs) == Covers(env, refs)
  {
    if refs != [] {
      ReachedIsCovers(env, refs[..|refs| - 1]);
      assert refs[|refs| - 1] in refs;
    }
  }

  lemma {:induction false} DroppedCovered(env: Env, refs: seq<Ref>)
    ensures DroppedAll(env, refs) <= Covers(env, refs)
  {
    if refs != [] {
      var r := refs[|refs| - 1];
      DroppedCovered(env, refs[..|refs| - 1]);
      TriedSome(env, [r.Object()]);
      TriedSome(env, PoolsOf(env, r.name));
      hide Tried, PoolsOf;
    }
  }

  /** Of the pools that are not being deleted: a deletion that goes through leaves none attached if and
      only if each attached pool is taken away through a reference of the spec; from a settled state,
      if and only if no pool has escaped and all pools of the spec are taken away. When every pool works
      and every object exists, these are the pools that are not detached unnoticed. An edit that no
      reconcile has carried out yet leaves the pools of the lost references attached. */
  lemma DeletionIsComplete(world: Env, s: State, env: Env, after: set<Key>)
    requires SameWorld(world, env) && Tracks(world, s)
    requires after == s.attached - DroppedAll(env, s.spec)
    ensures s.settled ==> (after == {} <==> s.escaped == {} && Lasting(world, s.spec) <= DroppedAll(env, s.spec))
    ensures AllWork(env) && AllExist(env, s.spec) ==>
      && (after == {} <==> s.attached <= Lasting(world, s.spec) - Unnoticed(env))
      && (s.settled ==> (after == {} <==> s.escaped == {} && s.attached !! Unnoticed(env)))
  {
    SameCovers(world, env, s.spec);
    DroppedCovered(env, s.spec);
    if AllWork(env) && AllExist(env, s.spec) {
      DroppedReached(env, s.spec);
      ReachedIsCovers(env, s.spec);
    }
    if s.settled {
      SettledExactly(world, s);
    }
    var c, d, u, x := Lasting(world, s.spec), DroppedAll(env, s.spec), Unnoticed(env), Doomed(world);
    assert c == Covers(env, s.spec) - x && s.attached !! x;
    hide Covers, ReachedAll, DroppedAll, Unnoticed, AllWork, AllExist, Lasting, Doomed;
    NoneLeft(s.attached, d);
    if AllWork(env) && AllExist(env, s.spec) {
      AllLeft(s.attached, c, Covers(env, s.spec), u, x);
    }
    if s.settled {
      SettledLeft(c, s.escaped, d, Covers(env, s.spec), x);
      SettledNoticed(c, s.escaped, u);
    }
  }

  lemma NoneLeft(a: set<Key>, d: set<Key>)
    ensures a - d == {} <==> a <= d
  {
    if k :| k in a && k !in d {
      assert k in a - d;
    }
  }

  lemma AllLeft(a: set<Key>, c: set<Key>, covers: set<Key>, u: set<Key>, x: set<Key>)
    requires c == covers - x && a !! x
    ensures a <= covers - u <==> a <= c - u
  {
  }

  lemma SettledLeft(c: set<Key>, e: set<Key>, d: set<Key>, covers: set<Key>, x: set<Key>)
    requires c == covers - x && e !! c && e !! x && d <= covers
    ensures c + e <= d <==> e == {} && c <= d
  {
    if k :| k in e {
      assert k in c + e && k !in d;
    }
  }

  lemma SettledNoticed(c: set<Key>, e: set<Key>, u: set<Key>)
    requires e !! c
    ensures c + e <= c - u <==> e == {} && c + e !! u
  {
    if k :| k in e {
      assert k in c + e && k !in c - u;
    }
    if k :| k in c && k in u {
      assert k in c + e && k !in c - u;
    }
  }
}
