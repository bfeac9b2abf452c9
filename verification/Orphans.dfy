/** Runs with any edits at any moment: which pools stay attached although neither the spec nor the
    applied references name them any more. No later reconcile looks at such a pool until an edit
    names it again. As in `References`, pools that are being deleted are left aside. */
module Orphans {
  import opened References

  ghost function OrphansOf(world: Env, s: State): set<Key> {
    s.attached - Lasting(world, s.spec) - Lasting(world, s.applied)
  }

  /** What a reconcile of this state takes away: the pools of the lost references, but those whose
      detach goes wrong unnoticed. */
  ghost function Detaches(env: Env, s: State): set<Key> {
    Lasting(env, Gone(s.spec, s.applied)) - Unnoticed(env)
  }

  ghost predicate AnyEdit(s: State, t: State) {
    t == s.(spec := t.spec, settled := false)
  }

  ghost predicate AnyGoes(world: Env, s: State, step: Step, t: State) {
    match step
    case Edit => AnyEdit(s, t)
    case Attempt(env, err) => Reconciles(world, s, t, env, err)
  }

  ghost predicate AnyRun(world: Env, states: seq<State>, steps: seq<Step>) {
    && |states| == |steps| + 1
    && states[0] == State(states[0].spec, [], {}, false, {})
    && forall i | 0 <= i < |steps| :: AnyGoes(world, states[i], steps[i], states[i + 1])
  }

  // ---- One step ----

  /** A reconcile that comes to its end, from any state and after any edits, leaves the pools of the
      spec that it did not detach again, and the orphans. */
  lemma EndsWith(world: Env, s: State, t: State, env: Env, err: bool)
    requires Reconciles(world, s, t, env, err) && Settles(s, t, err)
    ensures t.attached == Lasting(world, t.spec) - Detaches(env, s) + OrphansOf(world, t)
    ensures t.attached == s.attached + Lasting(world, s.spec) - Detaches(env, s) && t.applied == t.spec == s.spec
  {
    SameCovers(world, env, s.spec);
    hide Lasting, Gone, Unnoticed, Escaping, Doomed;
  }

  /** It ends with exactly the pools of the spec if and only if every attached pool is one of them or
      is detached, and none of them is detached with a lost reference. */
  lemma SuccessFromAny(world: Env, s: State, t: State, env: Env, err: bool)
    requires Reconciles(world, s, t, env, err) && Settles(s, t, err)
    ensures t.attached == Lasting(world, t.spec) <==>
      s.attached <= Lasting(world, s.spec) + Detaches(env, s) && Detaches(env, s) !! Lasting(world, s.spec)
    ensures t.attached == Lasting(world, t.spec) <==>
      OrphansOf(world, t) == {} && Detaches(env, s) !! Lasting(world, s.spec)
  {
    EndsWith(world, s, t, env, err);
    hide Reconciles, Detaches, Lasting;
    EndSets(s.attached, Lasting(world, s.spec), Detaches(env, s));
  }

  lemma EndSets(a: set<Key>, p: set<Key>, d: set<Key>)
    ensures a + p - d == p <==> a <= p + d && d !! p
    ensures a + p - d == p <==> a + p - d - p - p == {} && d !! p
  {
    if a + p - d == p {
      forall k | k in a ensures k in p + d {
        assert k in p || k in d || k in a + p - d;
      }
    }
    if d !! p && a + p - d != p {
      var k :| (k in a + p - d && k !in p) || (k in p && k !in a + p - d);
      assert k in a + p - d - p - p;
    }
  }

  lemma EditOrphans(world: Env, s: State, t: State)
    requires AnyEdit(s, t)
    ensures OrphansOf(world, t)
      == OrphansOf(world, s) + (s.attached * Lasting(world, s.spec) - Lasting(world, s.applied))
         - Lasting(world, t.spec)
  {
    hide Lasting;
  }

  lemma SettleOrphans(world: Env, s: State, t: State, env: Env, err: bool)
    requires Reconciles(world, s, t, env, err) && Settles(s, t, err)
    ensures OrphansOf(world, t)
      == OrphansOf(world, s) + (s.attached * Lasting(world, s.applied) - Lasting(world, s.spec) - Detaches(env, s))
  {
    EndsWith(world, s, t, env, err);
    GoneCovered(world, s.spec, s.applied);
    SameCovers(world, env, Gone(s.spec, s.applied));
    hide Lasting, Gone, Reconciles, Settles, Unnoticed;
  }

  lemma FailOrphans(world: Env, s: State, t: State, env: Env, err: bool)
    requires Reconciles(world, s, t, env, err) && !Settles(s, t, err)
    ensures OrphansOf(world, t) == OrphansOf(world, s)
  {
    GoneCovered(world, s.spec, s.applied);
    SameCovers(world, env, s.spec);
    SameCovers(world, env, Gone(s.spec, s.applied));
    hide Lasting, Gone, Unnoticed, Escaping;
  }

  // ---- Runs ----

  /** Step `j` orphans `k`: an edit drops it before it was ever applied, or a reconcile drops an
      applied pool that it does not detach, because its detach goes wrong unnoticed or because a
      reference of the same name took the place of its own. */
  ghost predicate Orphaned(world: Env, states: seq<State>, steps: seq<Step>, j: nat, k: Key)
    requires |states| == |steps| + 1 && j < |steps|
  {
    var s, t := states[j], states[j + 1];
    k in s.attached &&
    match steps[j]
    case Edit => k in Lasting(world, s.spec) && k !in Lasting(world, s.applied) && k !in Lasting(world, t.spec)
    case Attempt(env, err) =>
      && Settles(s, t, err)
      && k in Lasting(world, s.applied) && k !in Lasting(world, s.spec) && k !in Detaches(env, s)
  }

  /** Step `j` is an edit after which the spec covers `k`. */
  ghost predicate Adopted(world: Env, states: seq<State>, steps: seq<Step>, j: nat, k: Key)
    requires |states| == |steps| + 1 && j < |steps|
  {
    steps[j].Edit? && k in Lasting(world, states[j + 1].spec)
  }

  ghost predicate OrphanedSince(world: Env, states: seq<State>, steps: seq<Step>, j: nat, k: Key)
    requires |states| == |steps| + 1 && j < |steps|
  {
    Orphaned(world, states, steps, j, k) && forall m | j < m < |steps| :: !Adopted(world, states, steps, m, k)
  }

  lemma OrphanStep(world: Env, states: seq<State>, steps: seq<Step>, j: nat, k: Key)
    requires AnyRun(world, states, steps) && j < |steps|
    ensures k in OrphansOf(world, states[j + 1]) <==>
      Orphaned(world, states, steps, j, k)
      || (k in OrphansOf(world, states[j]) && !Adopted(world, states, steps, j, k))
  {
    var s, t := states[j], states[j + 1];
    assert AnyGoes(world, s, steps[j], t);
    hide AnyRun, Reconciles, Lasting, Detaches;
    match steps[j]
    case Edit => EditOrphans(world, s, t);
    case Attempt(env, err) =>
      if Settles(s, t, err) {
        SettleOrphans(world, s, t, env, err);
      } else {
        FailOrphans(world, s, t, env, err);
      }
      hide Settles;
  }

  lemma AnyPrefix(world: Env, states: seq<State>, steps: seq<Step>, i: nat)
    requires AnyRun(world, states, steps) && i <= |steps|
    ensures AnyRun(world, states[..i + 1], steps[..i])
  {
    hide AnyGoes;
  }

  lemma SamePast(world: Env, states: seq<State>, steps: seq<Step>, i: nat, j: nat, k: Key)
    requires |states| == |steps| + 1 && j < i <= |steps|
    ensures Orphaned(world, states[..i + 1], steps[..i], j, k) <==> Orphaned(world, states, steps, j, k)
    ensures Adopted(world, states[..i + 1], steps[..i], j, k) <==> Adopted(world, states, steps, j, k)
  {
    hide Lasting, Detaches, Settles;
  }

  /** Over any run of edits at any moment and reconciles that fail anywhere: a pool is an orphan
      exactly when some step orphaned it and no later edit names it. */
  lemma {:induction false} OrphansExactly(world: Env, states: seq<State>, steps: seq<Step>, k: Key)
    requires AnyRun(world, states, steps)
    ensures k in OrphansOf(world, states[|steps|]) <==>
      exists j :: 0 <= j < |steps| && OrphanedSince(world, states, steps, j, k)
  {
    var n := |steps|;
    if n > 0 {
      var p, q := states[..n], steps[..n - 1];
      AnyPrefix(world, states, steps, n - 1);
      OrphansExactly(world, p, q, k);
      OrphanStep(world, states, steps, n - 1, k);
      forall j: nat | j < n - 1
        ensures Orphaned(world, p, q, j, k) <==> Orphaned(world, states, steps, j, k)
        ensures Adopted(world, p, q, j, k) <==> Adopted(world, states, steps, j, k)
      {
        SamePast(world, states, steps, n - 1, j, k);
      }
      hide Orphaned, Adopted, AnyRun, OrphansOf;
      OrphanedLonger(world, states, steps, p, q, k);
    }
  }

  lemma OrphanedLonger(world: Env, states: seq<State>, steps: seq<Step>, p: seq<State>, q: seq<Step>, k: Key)
    requires |states| == |steps| + 1 && |p| == |q| + 1 && |steps| == |q| + 1
    requires forall j: nat | j < |q| :: Orphaned(world, p, q, j, k) <==> Orphaned(world, states, steps, j, k)
    requires forall j: nat | j < |q| :: Adopted(world, p, q, j, k) <==> Adopted(world, states, steps, j, k)
    ensures (exists j :: 0 <= j < |steps| && OrphanedSince(world, states, steps, j, k)) <==>
      || Orphaned(world, states, steps, |q|, k)
      || (!Adopted(world, states, steps, |q|, k)
          && exists j :: 0 <= j < |q| && OrphanedSince(world, p, q, j, k))
  {
    hide Orphaned, Adopted;
    if Orphaned(world, states, steps, |q|, k) {
      assert OrphanedSince(world, states, steps, |q|, k);
    } else {
      forall j: nat | j < |q|
        ensures OrphanedSince(world, states, steps, j, k)
          <==> OrphanedSince(world, p, q, j, k) && !Adopted(world, states, steps, |q|, k)
      {
        if OrphanedSince(world, states, steps, j, k) {
          assert forall m | j < m < |q| :: !Adopted(world, p, q, m, k);
        }
      }
      assert !OrphanedSince(world, states, steps, |q|, k);
    }
  }

  // ---- Runs of compatible edits ----

  lemma RunIsAny(world: Env, states: seq<State>, steps: seq<Step>)
    requires Run(world, states, steps)
    ensures AnyRun(world, states, steps)
  {
    hide Compatible, Reconciles;
    forall i | 0 <= i < |steps| ensures AnyGoes(world, states[i], steps[i], states[i + 1]) {
      assert Goes(world, states[i], steps[i], states[i + 1]);
    }
  }

  /** When every edit is compatible and waits for the reconcile of the last one, the orphans of a
      settled state are the pools that escaped. */
  lemma OrphansAreEscaped(world: Env, states: seq<State>, steps: seq<Step>)
    requires Run(world, states, steps) && states[|steps|].settled
    ensures OrphansOf(world, states[|steps|]) == states[|steps|].escaped
  {
    AppliedTracksAttached(world, states, steps);
    hide Run, Lasting;
  }

  /** An edit that does not wait: `y` is added, a reconcile attaches its pool but cannot store the
      status, `y` is taken out again, and a reconcile in which nothing goes wrong succeeds. The pool
      of `y` is still attached, and neither the spec nor the status names it. */
  method OrphanExample(x: Ref, y: Ref, cluster: string)
    returns (errs: seq<bool>, attached: set<Key>, applied: seq<Ref>)
    requires x.kind == y.kind == POOL && x.name != y.name
    ensures errs == [false, true, false] && applied == [x] && attached == {x.Object(), y.Object()}
  {
    var pools := map[x.Object() := Pool(cluster, false, false), y.Object() := Pool(cluster, false, false)];
    var planes := {Key(x.namespace, cluster), Key(y.namespace, cluster)};
    var calm := Env(pools, planes, map[], {}, {}, {}, map[], {}, {}, {}, true, true);
    var losing := calm.(stores := false);
    assert Attachable(calm, x) && Attachable(calm, y) && Attachable(losing, x) && Attachable(losing, y);
    assert NoneDeleting(calm) && NoneDeleting(losing) && !losing.stores;
    AddedPool(x, y, calm);
    AddedPool(x, y, losing);
    hide *;
    var sg := new SecurityGroup([x]);
    var first := sg.Reconcile(calm);
    assert sg.attached == {x.Object()} && sg.applied == [x];
    sg.spec := [x, y];
    var second := sg.Reconcile(losing);
    assert sg.attached == {x.Object(), y.Object()} && sg.applied == [x];
    sg.spec := [x];
    var third := sg.Reconcile(calm);
    return [first, second, third], sg.attached, sg.applied;
  }

  lemma AddedPool(x: Ref, y: Ref, env: Env)
    requires x.kind == y.kind == POOL && x.name != y.name && Attachable(env, x) && Attachable(env, y)
    ensures Covers(env, [x, y]) == {x.Object(), y.Object()} && Covers(env, [x]) == {x.Object()} && Covers(env, []) == {}
    ensures Gone([x], []) == [] && Gone([x, y], [x]) == [] && Gone([x], [x]) == []
    ensures AllAttachable(env, [x, y]) && AllAttachable(env, [x]) && AllDetachable(env, [])
    ensures GoesThrough(env, [x], []) <==> env.updates && env.stores
    ensures GoesThrough(env, [x], [x]) <==> env.updates && env.stores
    ensures GoesThrough(env, [x, y], [x]) <==> env.updates && env.stores
  {
    DroppedPool(x, y, env);
    assert [x][..0] == [];
    assert Named([x], x.name) by { assert [x][0] == x; }
    assert Named([x, y], x.name) by { assert [x, y][0] == x; }
    hide Covers, Gone, Named, Attachable;
  }
}
