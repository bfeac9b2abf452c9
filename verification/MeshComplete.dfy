/** Error-free reconciles keep every mesh a complete graph, and what happens without each of the
    hypotheses. */
module MeshComplete {
  import opened Ordering
  import opened Records
  import opened Groups
  import opened Report
  import opened Mesh
  import opened MeshSafety

  ghost predicate Kept(a: Peerings, b: Peerings) {
    forall n | n in a :: n in b && b[n] == a[n]
  }

  // ---- Joining ----

  lemma PeeredIsPaired(w: World, g: string, x: string, y: string, spec: string -> ClusterSpec, used: set<string>)
    requires Inv(w, spec, used) && Unambiguous(used) && g in w.meshes
    requires HasMember(w.meshes[g].clusters, x) && HasMember(w.meshes[g].clusters, y)
    ensures IsPeered(w.meshes[g].refs, x, y) <==> Paired(w.peerings, g, x, y)
  {
    assert Lists(w.meshes[g].refs, w.peerings, g);
    assert forall n | n in w.meshes[g].refs :: n in Owned(w.peerings, g);
    hide Inv;
    if PeeringName(x, y) in w.peerings { HomeOwns(w, x, y, g, spec, used); }
    if PeeringName(y, x) in w.peerings { HomeOwns(w, y, x, g, spec, used); }
  }

  lemma WorkingIs(w: World, g: string, clusters: seq<ClusterSpec>, l: Links)
    ensures var a := Working(w, g, clusters, l);
      g in a.meshes && a.meshes[g] == ClusterMesh(clusters, l.refs) && a.peerings == l.peerings
  {
  }

  lemma LinkIs(g: string, self: ClusterSpec, c: ClusterSpec, l: Links)
    ensures self == c || IsPeered(l.refs, self.name, c.name) ==> Link(g, self, c, l) == l
    ensures self != c && !IsPeered(l.refs, self.name, c.name) && PeeringName(self.name, c.name) !in l.peerings ==>
      Kept(l.peerings, Link(g, self, c, l).peerings) && Paired(Link(g, self, c, l).peerings, g, self.name, c.name)
  {
    hide PeeringName, IsPeered;
  }

  lemma LinkPairs(w: World, g: string, clusters: seq<ClusterSpec>, self: ClusterSpec, c: ClusterSpec, l: Links,
                  spec: string -> ClusterSpec, used: set<string>)
    requires Inv(Working(w, g, clusters, l), spec, used) && Unambiguous(used) && self in clusters && c in clusters
    ensures var k := Link(g, self, c, l);
      Kept(l.peerings, k.peerings) && (self != c ==> Paired(k.peerings, g, self.name, c.name))
  {
    hide Inv, Unambiguous, HasMember, Working, Link, Paired, IsPeered, PeeringName;
    WorkingIs(w, g, clusters, l);
    LinkIs(g, self, c, l);
    InHasMember(clusters, self);
    InHasMember(clusters, c);
    if IsPeered(l.refs, self.name, c.name) {
      PeeredIsPaired(Working(w, g, clusters, l), g, self.name, c.name, spec, used);
    } else {
      NewName(Working(w, g, clusters, l), self.name, c.name, g, spec, used);
    }
  }

  lemma PairedKept(a: Peerings, b: Peerings, g: string, x: string, y: string)
    requires Kept(a, b) && Paired(a, g, x, y)
    ensures Paired(b, g, x, y)
  {
  }

  lemma {:induction false} LinkAllPairs(w: World, g: string, clusters: seq<ClusterSpec>, self: ClusterSpec, k: nat,
                                        l: Links, spec: string -> ClusterSpec, used: set<string>)
    requires Inv(Working(w, g, clusters, l), spec, used) && Unambiguous(used) && self in clusters && k <= |clusters|
    ensures var done := LinkAll(g, self, clusters[..k], l);
      && Kept(l.peerings, done.peerings)
      && forall i | 0 <= i < k && clusters[i] != self :: Paired(done.peerings, g, self.name, clusters[i].name)
  {
    if k > 0 {
      LinkAllInv(w, g, clusters, self, k - 1, l, spec, used);
      LinkAllPairs(w, g, clusters, self, k - 1, l, spec, used);
      assert clusters[..k][..k - 1] == clusters[..k - 1] && clusters[..k][k - 1] == clusters[k - 1];
      var before := LinkAll(g, self, clusters[..k - 1], l);
      hide Inv, Working, Link, Paired;
      LinkPairs(w, g, clusters, self, clusters[k - 1], before, spec, used);
      var done := Link(g, self, clusters[k - 1], before);
      forall i | 0 <= i < k - 1 && clusters[i] != self ensures Paired(done.peerings, g, self.name, clusters[i].name) {
        PairedKept(before.peerings, done.peerings, g, self.name, clusters[i].name);
      }
    }
  }

  /** `self` is a member of `g` and has a peering with every other member. */
  ghost predicate JoinedToAll(w: World, g: string, self: ClusterSpec) {
    && g in w.meshes && self in w.meshes[g].clusters
    && forall c | c in w.meshes[g].clusters && c != self :: Paired(w.peerings, g, self.name, c.name)
  }

  lemma PairedSymmetric(p: Peerings, g: string, x: string, y: string)
    requires Paired(p, g, x, y)
    ensures Paired(p, g, y, x)
  {
  }

  lemma AllLinked(w: World, self: ClusterSpec, g: string, names: seq<string>, v: World, spec: string -> ClusterSpec,
                  used: set<string>)
    requires Inv(w, spec, used) && Unambiguous(used) && g in w.meshes && self == spec(self.name) && self.name in used
    requires forall h | h in w.meshes && h != g :: !HasMember(w.meshes[h].clusters, self.name)
    requires var clusters := AddMember(w.meshes[g].clusters, self);
      LinksPrefix(w, self, g, clusters, names, |clusters|, v, false)
    ensures JoinedToAll(v, g, self) && Kept(w.peerings, v.peerings)
  {
    var clusters := AddMember(w.meshes[g].clusters, self);
    hide Inv, LinkAll, Working, Paired, Unambiguous, AddMember, HasMember, Lists, Sort, StrLess;
    AddMemberInv(w, self, g, names, spec, used);
    LinkAllPairs(w, g, clusters, self, |clusters|, Links(names, w.peerings), spec, used);
    assert clusters[..|clusters|] == clusters;
    forall c | c in clusters && c != self ensures Paired(v.peerings, g, self.name, c.name) {
      var i :| 0 <= i < |clusters| && clusters[i] == c;
    }
  }

  /** What an error-free join does to the meshes. */
  lemma JoinKeeps(w: World, self: ClusterSpec, g: string, v: World)
    requires Joins(w, self, g, v, false)
    ensures g in v.meshes
      && v.meshes[g].clusters == if g in w.meshes then AddMember(w.meshes[g].clusters, self) else [self]
    ensures forall h | h in w.meshes && h != g :: h in v.meshes && v.meshes[h] == w.meshes[h]
    ensures forall h | h in v.meshes && h != g :: h in w.meshes
    ensures g !in w.meshes ==> v.peerings == w.peerings
    ensures g in w.meshes
      ==> exists names :: LinksPrefix(w, self, g, v.meshes[g].clusters, names, |v.meshes[g].clusters|, v, false)
  {
    hide AddMember, LinkAll, Sort, StrLess, Lists;
  }

  /** An error-free reconcile joins its cluster to all other members, whatever failed before. */
  lemma ReconcileJoins(w: World, spec: string -> ClusterSpec, r: Request, v: World, used: set<string>)
    requires Faithful(spec) && Unambiguous(used) && r.name in used && r.group.Some?
    requires Inv(w, spec, used) && StaysInGroup(w, r) && Reconciled(w, spec, r, v, false)
    ensures JoinedToAll(v, r.group.value, spec(r.name)) && Kept(w.peerings, v.peerings)
    ensures forall h | h in w.meshes && h != r.group.value :: h in v.meshes && v.meshes[h] == w.meshes[h]
    ensures forall h | h in v.meshes && h != r.group.value :: h in w.meshes
    ensures r.group.value in w.meshes ==>
      forall c | c in v.meshes[r.group.value].clusters && c != spec(r.name) :: c in w.meshes[r.group.value].clusters
    ensures r.group.value !in w.meshes ==> v.meshes[r.group.value].clusters == [spec(r.name)]
  {
    var g, self := r.group.value, spec(r.name);
    hide Inv, LinksPrefix, Paired, Unambiguous, HasMember, Joins;
    JoinKeeps(w, self, g, v);
    if g in w.meshes {
      var names :| LinksPrefix(w, self, g, v.meshes[g].clusters, names, |v.meshes[g].clusters|, v, false);
      AllLinked(w, self, g, names, v, spec, used);
    }
  }

  lemma JoinComplete(w: World, spec: string -> ClusterSpec, r: Request, v: World, used: set<string>)
    requires Faithful(spec) && Unambiguous(used) && r.name in used && r.group.Some?
    requires Inv(w, spec, used) && StaysInGroup(w, r) && Reconciled(w, spec, r, v, false)
    requires Complete(w)
    ensures Complete(v)
  {
    hide Inv, Paired, Reconciled, Unambiguous, StaysInGroup;
    ReconcileJoins(w, spec, r, v, used);
    forall h | h in v.meshes ensures CompleteMesh(v.meshes[h].clusters, v.peerings, h) {
      var cs := v.meshes[h].clusters;
      if h == r.group.value {
        ReconciledInv(w, spec, r, v, false, used);
        JoinedPairs(w, v, h, spec(r.name), spec, used);
      } else {
        assert CompleteMesh(w.meshes[h].clusters, w.peerings, h);
        forall i, j | 0 <= i < j < |cs| ensures Paired(v.peerings, h, cs[i].name, cs[j].name) {
          PairedKept(w.peerings, v.peerings, h, cs[i].name, cs[j].name);
        }
      }
    }
  }

  lemma PairOfComplete(clusters: seq<ClusterSpec>, p: Peerings, g: string, a: ClusterSpec, b: ClusterSpec)
    requires CompleteMesh(clusters, p, g) && a in clusters && b in clusters && a != b
    ensures Paired(p, g, a.name, b.name)
  {
    hide Paired;
    var i :| 0 <= i < |clusters| && clusters[i] == a;
    var j :| 0 <= j < |clusters| && clusters[j] == b;
    if j < i {
      PairedSymmetric(p, g, b.name, a.name);
    }
  }

  lemma JoinedPairs(w: World, v: World, g: string, self: ClusterSpec, spec: string -> ClusterSpec, used: set<string>)
    requires Inv(v, spec, used) && Complete(w) && JoinedToAll(v, g, self) && Kept(w.peerings, v.peerings)
    requires g in w.meshes ==> forall c | c in v.meshes[g].clusters && c != self :: c in w.meshes[g].clusters
    requires g !in w.meshes ==> v.meshes[g].clusters == [self]
    ensures CompleteMesh(v.meshes[g].clusters, v.peerings, g)
  {
    var cs := v.meshes[g].clusters;
    assert MembersOf(cs, spec, used);
    hide Paired, Inv;
    forall i, j | 0 <= i < j < |cs| ensures Paired(v.peerings, g, cs[i].name, cs[j].name) {
      assert cs[i] in cs && cs[j] in cs && cs[i] != cs[j];
      if cs[i] != self {
        if cs[j] == self {
          PairedSymmetric(v.peerings, g, self.name, cs[i].name);
        } else {
          PairOfComplete(w.meshes[g].clusters, w.peerings, g, cs[i], cs[j]);
          PairedKept(w.peerings, v.peerings, g, cs[i].name, cs[j].name);
        }
      }
    }
  }

  // ---- Leaving ----

  /** An error-free leave deletes exactly the peerings of the status whose names contain the
      name of the cluster: only its own if and only if no other name there contains it. */
  lemma LeaveDeletes(w: World, x: string, g: string, v: World, spec: string -> ClusterSpec, used: set<string>)
    requires Inv(w, spec, used) && g in w.meshes && Leaves(w, x, g, v, false)
    ensures Kept(v.peerings, w.peerings)
    ensures forall n | n in w.peerings :: n !in v.peerings <==> n in w.meshes[g].refs && Contains(n, x)
    ensures (forall n | n in w.peerings && n !in v.peerings ::
      w.peerings[n].requester == x || w.peerings[n].accepter == x)
      <==> forall n | n in w.meshes[g].refs && Contains(n, x) ::
        w.peerings[n].requester == x || w.peerings[n].accepter == x
  {
    var refs := w.meshes[g].refs;
    assert Lists(refs, w.peerings, g);
    forall n | n in refs ensures n in w.peerings {
      assert n in Owned(w.peerings, g);
    }
    UnlinkAllIs(x, refs, |refs|, w.peerings);
    assert refs[..|refs|] == refs;
    hide Inv, UnlinkAll, Contains;
  }

  lemma LeaveComplete(w: World, x: string, g: string, v: World, spec: string -> ClusterSpec, used: set<string>)
    requires Inv(w, spec, used) && EndpointsOnly(used) && x in used && g in w.meshes && Leaves(w, x, g, v, false)
    requires Complete(w)
    ensures Complete(v)
  {
    LeaveDeletes(w, x, g, v, spec, used);
    LeaveKeeps(w, x, g, v, spec, used);
    assert MembersOf(w.meshes[g].clusters, spec, used);
    RemovedMember(w.meshes[g].clusters, x);
    hide Inv, Leaves, Paired, UnlinkAll, Contains;
    forall h | h in v.meshes ensures CompleteMesh(v.meshes[h].clusters, v.peerings, h) {
      assert CompleteMesh(w.meshes[h].clusters, w.peerings, h);
      var cs := v.meshes[h].clusters;
      forall i, j | 0 <= i < j < |cs| ensures Paired(v.peerings, h, cs[i].name, cs[j].name) {
        LeavePair(w, x, g, v, h, cs[i], cs[j], spec, used);
      }
    }
  }

  /** What an error-free leave does to the members. */
  lemma LeaveKeeps(w: World, x: string, g: string, v: World, spec: string -> ClusterSpec, used: set<string>)
    requires g in w.meshes && Leaves(w, x, g, v, false)
    ensures forall h | h in v.meshes ::
      (h in w.meshes
        && v.meshes[h].clusters == if h == g then RemoveMember(w.meshes[g].clusters, x) else w.meshes[h].clusters)
  {
    hide UnlinkAll, RemoveMember, Sort, StrLess;
  }

  /** A peering of two members other than `x`, or of another mesh, survives. */
  lemma LeaveSpares(w: World, x: string, g: string, h: string, a: string, b: string, used: set<string>)
    requires RefsExact(w) && EndpointsOnly(used) && x in used && a in used && b in used && g in w.meshes
    requires PeeringName(a, b) in w.peerings && w.peerings[PeeringName(a, b)].owner == h
      && (h == g ==> a != x && b != x)
    ensures !(PeeringName(a, b) in w.meshes[g].refs && Contains(PeeringName(a, b), x))
  {
    assert Lists(w.meshes[g].refs, w.peerings, g);
    assert PeeringName(a, b) in w.meshes[g].refs ==> PeeringName(a, b) in Owned(w.peerings, g);
    hide Contains, PeeringName;
  }

  lemma LeavePair(w: World, x: string, g: string, v: World, h: string, a: ClusterSpec, b: ClusterSpec,
                  spec: string -> ClusterSpec, used: set<string>)
    requires Inv(w, spec, used) && EndpointsOnly(used) && x in used && g in w.meshes && h in w.meshes && h in v.meshes
    requires forall n | n in w.peerings :: n !in v.peerings <==> n in w.meshes[g].refs && Contains(n, x)
    requires Kept(v.peerings, w.peerings)
    requires a in w.meshes[h].clusters && b in w.meshes[h].clusters && a != b && (h == g ==> a.name != x && b.name != x)
    requires CompleteMesh(w.meshes[h].clusters, w.peerings, h)
    ensures Paired(v.peerings, h, a.name, b.name)
  {
    assert MembersOf(w.meshes[h].clusters, spec, used) && RefsExact(w);
    assert a.name in used && b.name in used;
    hide Inv, CompleteMesh, Contains, MembersOf, RefsExact, EndpointsOnly, PeeringName;
    PairOfComplete(w.meshes[h].clusters, w.peerings, h, a, b);
    if PeeringName(a.name, b.name) in w.peerings && w.peerings[PeeringName(a.name, b.name)].owner == h {
      LeaveSpares(w, x, g, h, a.name, b.name, used);
    }
    if PeeringName(b.name, a.name) in w.peerings && w.peerings[PeeringName(b.name, a.name)].owner == h {
      LeaveSpares(w, x, g, h, b.name, a.name, used);
    }
  }

  // ---- Runs ----

  /** One error-free reconcile after another. */
  ghost predicate ErrorFree(worlds: seq<World>, requests: seq<Request>, spec: string -> ClusterSpec, used: set<string>)
  {
    && |worlds| == |requests| + 1 && worlds[0] == World(map[], map[])
    && forall i | 0 <= i < |requests| ::
         requests[i].name in used && StaysInGroup(worlds[i], requests[i])
           && Reconciled(worlds[i], spec, requests[i], worlds[i + 1], false)
  }

  /** One reconcile after another, each with or without a failure. */
  ghost predicate Faulty(worlds: seq<World>, requests: seq<Request>, errs: seq<bool>, spec: string -> ClusterSpec,
                         used: set<string>)
  {
    && |worlds| == |requests| + 1 && |errs| == |requests| && worlds[0] == World(map[], map[])
    && forall i | 0 <= i < |requests| ::
         requests[i].name in used && StaysInGroup(worlds[i], requests[i])
           && Reconciled(worlds[i], spec, requests[i], worlds[i + 1], errs[i])
  }

  lemma EmptyInv(spec: string -> ClusterSpec, used: set<string>)
    ensures Inv(World(map[], map[]), spec, used) && Complete(World(map[], map[]))
  {
  }

  /** Safety under faults: member names are unique, every peering joins two distinct current
      members of its mesh, no pair has two, and the status names exactly the peerings. */
  lemma {:induction false} FaultyRunIsSafe(worlds: seq<World>, requests: seq<Request>, errs: seq<bool>,
                                           spec: string -> ClusterSpec, used: set<string>, i: nat)
    requires Faithful(spec) && Unambiguous(used) && Faulty(worlds, requests, errs, spec, used) && i < |worlds|
    ensures Inv(worlds[i], spec, used)
  {
    if i == 0 {
      EmptyInv(spec, used);
    } else {
      FaultyRunIsSafe(worlds, requests, errs, spec, used, i - 1);
      hide Inv, Reconciled, Unambiguous;
      ReconciledInv(worlds[i - 1], spec, requests[i - 1], worlds[i], errs[i - 1], used);
    }
  }

  /** The complete graph: after every step of every error-free run, each two distinct members of
      a mesh have exactly one peering. */
  lemma {:induction false} ErrorFreeRunIsComplete(worlds: seq<World>, requests: seq<Request>,
                                                  spec: string -> ClusterSpec, used: set<string>, i: nat)
    requires Faithful(spec) && Unambiguous(used) && EndpointsOnly(used)
    requires ErrorFree(worlds, requests, spec, used) && i < |worlds|
    ensures Inv(worlds[i], spec, used) && Complete(worlds[i])
  {
    if i == 0 {
      EmptyInv(spec, used);
      hide Inv, Complete;
    } else {
      hide *;
      ErrorFreeRunIsComplete(worlds, requests, spec, used, i - 1);
      ErrorFreeAt(worlds, requests, spec, used, i - 1);
      CompleteStep(worlds[i - 1], spec, requests[i - 1], worlds[i], used);
    }
  }

  lemma ErrorFreeAt(worlds: seq<World>, requests: seq<Request>, spec: string -> ClusterSpec, used: set<string>, i: nat)
    requires ErrorFree(worlds, requests, spec, used) && i < |worlds| - 1
    ensures i < |requests| && requests[i].name in used && StaysInGroup(worlds[i], requests[i])
    ensures Reconciled(worlds[i], spec, requests[i], worlds[i + 1], false)
  {
    hide Reconciled, StaysInGroup;
  }

  /** A mesh of n members has n (n - 1) / 2 peerings in all, one for each pair, and its status has
      one reference to each. */
  lemma ErrorFreeRunCounts(worlds: seq<World>, requests: seq<Request>, spec: string -> ClusterSpec, used: set<string>,
                           i: nat, g: string)
    requires Faithful(spec) && Unambiguous(used) && EndpointsOnly(used)
    requires ErrorFree(worlds, requests, spec, used) && i < |worlds| && g in worlds[i].meshes
    ensures var m := worlds[i].meshes[g];
      var n := |m.clusters|;
      && 2 * |Owned(worlds[i].peerings, g)| == n * (n - 1) && 2 * |m.refs| == n * (n - 1)
      && Lists(m.refs, worlds[i].peerings, g)
  {
    hide *;
    ErrorFreeRunIsComplete(worlds, requests, spec, used, i);
    MeshCounts(worlds[i], g, spec, used);
  }

  lemma MeshCounts(w: World, g: string, spec: string -> ClusterSpec, used: set<string>)
    requires Inv(w, spec, used) && Unambiguous(used) && Complete(w) && g in w.meshes
    ensures var m := w.meshes[g];
      var n := |m.clusters|;
      && 2 * |Owned(w.peerings, g)| == n * (n - 1) && 2 * |m.refs| == n * (n - 1)
      && Lists(m.refs, w.peerings, g)
  {
    hide *;
    CountParts(w, g, spec, used);
    CompleteCount(w, g, spec, used);
    BothArePairs(|w.meshes[g].clusters|, |Owned(w.peerings, g)|, |w.meshes[g].refs|);
  }

  lemma BothArePairs(n: nat, x: nat, y: nat)
    requires x == Pairs(n) && y == Pairs(n)
    ensures 2 * x == n * (n - 1) && 2 * y == n * (n - 1)
  {
    PairsIs(n);
  }

  lemma CompleteStep(w: World, spec: string -> ClusterSpec, r: Request, v: World, used: set<string>)
    requires Faithful(spec) && Unambiguous(used) && EndpointsOnly(used) && r.name in used
    requires Inv(w, spec, used) && Complete(w) && StaysInGroup(w, r) && Reconciled(w, spec, r, v, false)
    ensures Inv(v, spec, used) && Complete(v)
  {
    hide Inv, Complete, Unambiguous, EndpointsOnly, Leaves;
    ReconciledInv(w, spec, r, v, false, used);
    if r.group.Some? {
      JoinComplete(w, spec, r, v, used);
    } else if v != w {
      var g :| g in w.meshes && HasMember(w.meshes[g].clusters, r.name) && Leaves(w, r.name, g, v, false);
      LeaveComplete(w, r.name, g, v, spec, used);
    }
  }

  // ---- Counting ----

  function PairName(p: Peerings, x: string, y: string): string {
    if PeeringName(x, y) in p then PeeringName(x, y) else PeeringName(y, x)
  }

  /** The peerings of member `k` with the first `i` members. */
  function Row(clusters: seq<ClusterSpec>, p: Peerings, k: nat, i: nat): set<string>
    requires i <= k < |clusters|
  {
    set j | 0 <= j < i :: PairName(p, clusters[j].name, clusters[k].name)
  }

  /** The peerings among the first `k` members. */
  function Triangle(clusters: seq<ClusterSpec>, p: Peerings, k: nat): set<string>
    requires k <= |clusters|
  {
    if k == 0 then {} else Triangle(clusters, p, k - 1) + Row(clusters, p, k - 1, k - 1)
  }

  lemma PairNameInjective(clusters: seq<ClusterSpec>, p: Peerings, i: nat, j: nat, k: nat, l: nat,
                          spec: string -> ClusterSpec, used: set<string>)
    requires MembersOf(clusters, spec, used) && Unambiguous(used) && i < j < |clusters| && k < l < |clusters|
    requires PairName(p, clusters[i].name, clusters[j].name) == PairName(p, clusters[k].name, clusters[l].name)
    ensures i == k && j == l
  {
    hide PeeringName;
  }

  lemma RowNext(clusters: seq<ClusterSpec>, p: Peerings, k: nat, i: nat)
    requires 0 < i <= k < |clusters|
    ensures Row(clusters, p, k, i) == Row(clusters, p, k, i - 1) + {PairName(p, clusters[i - 1].name, clusters[k].name)}
  {
    hide PairName;
  }

  lemma {:induction false} RowSize(clusters: seq<ClusterSpec>, p: Peerings, k: nat, i: nat,
                                   spec: string -> ClusterSpec, used: set<string>)
    requires MembersOf(clusters, spec, used) && Unambiguous(used) && i <= k < |clusters|
    ensures |Row(clusters, p, k, i)| == i
  {
    hide PairName, MembersOf, Unambiguous;
    if i > 0 {
      RowSize(clusters, p, k, i - 1, spec, used);
      var n := PairName(p, clusters[i - 1].name, clusters[k].name);
      forall j | 0 <= j < i - 1 ensures PairName(p, clusters[j].name, clusters[k].name) != n {
        if PairName(p, clusters[j].name, clusters[k].name) == n {
          PairNameInjective(clusters, p, j, k, i - 1, k, spec, used);
        }
      }
      assert n !in Row(clusters, p, k, i - 1);
      RowNext(clusters, p, k, i);
      hide Row;
    }
  }

  lemma {:induction false} InTriangle(clusters: seq<ClusterSpec>, p: Peerings, k: nat, n: string)
    requires k <= |clusters|
    ensures n in Triangle(clusters, p, k)
      <==> exists i, j :: 0 <= i < j < k && n == PairName(p, clusters[i].name, clusters[j].name)
  {
    hide PairName;
    if k > 0 {
      InTriangle(clusters, p, k - 1, n);
    }
  }

  lemma RowApart(clusters: seq<ClusterSpec>, p: Peerings, k: nat, n: string, spec: string -> ClusterSpec,
                 used: set<string>)
    requires MembersOf(clusters, spec, used) && Unambiguous(used) && k < |clusters|
    requires n in Row(clusters, p, k, k)
    ensures n !in Triangle(clusters, p, k)
  {
    hide PairName, MembersOf, Unambiguous;
    var j :| 0 <= j < k && n == PairName(p, clusters[j].name, clusters[k].name);
    forall a, b | 0 <= a < b < k ensures n != PairName(p, clusters[a].name, clusters[b].name) {
      if n == PairName(p, clusters[a].name, clusters[b].name) {
        PairNameInjective(clusters, p, j, k, a, b, spec, used);
      }
    }
    InTriangle(clusters, p, k, n);
  }

  /** The number of pairs of n things: 0 + 1 + ... + (n - 1). */
  function Pairs(n: nat): nat {
    if n == 0 then 0 else Pairs(n - 1) + (n - 1)
  }

  lemma {:induction false} PairsIs(n: nat)
    ensures 2 * Pairs(n) == n * (n - 1)
  {
    if n > 0 {
      PairsIs(n - 1);
      assert n * (n - 1) == (n - 1) * (n - 2) + 2 * (n - 1);
    }
  }

  lemma {:induction false} TriangleSize(clusters: seq<ClusterSpec>, p: Peerings, k: nat, spec: string -> ClusterSpec,
                                        used: set<string>)
    requires MembersOf(clusters, spec, used) && Unambiguous(used) && k <= |clusters|
    ensures |Triangle(clusters, p, k)| == Pairs(k)
  {
    hide MembersOf, Unambiguous, Row, Triangle;
    TriangleNext(clusters, p, k);
    if k > 0 {
      TriangleSize(clusters, p, k - 1, spec, used);
      RowSize(clusters, p, k - 1, k - 1, spec, used);
      var before, row := Triangle(clusters, p, k - 1), Row(clusters, p, k - 1, k - 1);
      forall n: string | n in row ensures n !in before {
        RowApart(clusters, p, k - 1, n, spec, used);
      }
      SizeOfSum(before, row);
    }
  }

  lemma TriangleNext(clusters: seq<ClusterSpec>, p: Peerings, k: nat)
    requires k <= |clusters|
    ensures Triangle(clusters, p, k)
      == if k == 0 then {} else Triangle(clusters, p, k - 1) + Row(clusters, p, k - 1, k - 1)
  {
  }

  lemma SizeOfSum(a: set<string>, b: set<string>)
    requires forall n | n in b :: n !in a
    ensures |a + b| == |a| + |b|
  {
  }

  lemma OwnedIsTriangle(w: World, g: string, spec: string -> ClusterSpec, used: set<string>)
    requires Inv(w, spec, used) && Unambiguous(used) && g in w.meshes
      && CompleteMesh(w.meshes[g].clusters, w.peerings, g)
    ensures var cs := w.meshes[g].clusters; Owned(w.peerings, g) == Triangle(cs, w.peerings, |cs|)
  {
    var cs := w.meshes[g].clusters;
    forall n ensures n in Owned(w.peerings, g) <==> n in Triangle(cs, w.peerings, |cs|) {
      InTriangle(cs, w.peerings, |cs|, n);
      if n in Owned(w.peerings, g) {
        OwnedIsPair(w, g, n, spec, used);
      }
      hide Inv, Triangle, MembersOf;
      if i, j :| 0 <= i < j < |cs| && n == PairName(w.peerings, cs[i].name, cs[j].name) {
        assert Paired(w.peerings, g, cs[i].name, cs[j].name);
        if PeeringName(cs[i].name, cs[j].name) in w.peerings {
          MembersHere(cs, i);
          MembersHere(cs, j);
          HomeOwns(w, cs[i].name, cs[j].name, g, spec, used);
        }
      }
    }
  }

  lemma MembersHere(clusters: seq<ClusterSpec>, i: nat)
    requires i < |clusters|
    ensures HasMember(clusters, clusters[i].name)
  {
  }

  lemma OwnedJoins(w: World, g: string, n: string)
    requires AllJoin(w) && g in w.meshes && n in Owned(w.peerings, g)
    ensures var p := w.peerings[n];
      && n == PeeringName(p.requester, p.accepter) && p.requester != p.accepter
      && HasMember(w.meshes[g].clusters, p.requester) && HasMember(w.meshes[g].clusters, p.accepter)
  {
    assert Joining(w, n);
  }

  lemma OrderedPair(clusters: seq<ClusterSpec>, p: Peerings, x: string, y: string)
    requires HasMember(clusters, x) && HasMember(clusters, y) && x != y
    requires PeeringName(x, y) in p && PeeringName(y, x) !in p
    ensures exists i, j ::
      0 <= i < j < |clusters| && PeeringName(x, y) == PairName(p, clusters[i].name, clusters[j].name)
  {
    hide PeeringName;
    var i :| 0 <= i < |clusters| && clusters[i].name == x;
    var j :| 0 <= j < |clusters| && clusters[j].name == y;
    if i < j {
      assert PeeringName(x, y) == PairName(p, clusters[i].name, clusters[j].name);
    } else {
      assert PeeringName(x, y) == PairName(p, clusters[j].name, clusters[i].name);
    }
  }

  lemma OwnedIsPair(w: World, g: string, n: string, spec: string -> ClusterSpec, used: set<string>)
    requires Inv(w, spec, used) && Unambiguous(used) && g in w.meshes && n in Owned(w.peerings, g)
    ensures var cs := w.meshes[g].clusters;
      exists i, j :: 0 <= i < j < |cs| && n == PairName(w.peerings, cs[i].name, cs[j].name)
  {
    assert n in w.peerings && AllJoin(w);
    hide *;
    OwnedJoins(w, g, n);
    NotReversed(w, g, n, spec, used);
    OrderedPair(w.meshes[g].clusters, w.peerings, w.peerings[n].requester, w.peerings[n].accepter);
  }

  lemma NotReversed(w: World, g: string, n: string, spec: string -> ClusterSpec, used: set<string>)
    requires Inv(w, spec, used) && Unambiguous(used) && g in w.meshes && n in Owned(w.peerings, g)
    ensures PeeringName(w.peerings[n].accepter, w.peerings[n].requester) !in w.peerings
  {
    var p := w.peerings[n];
    var m := PeeringName(p.accepter, p.requester);
    assert Joining(w, n);
    if m in w.peerings {
      NotOpposite(w, n, m);
      HomeOwns(w, p.accepter, p.requester, g, spec, used);
    }
  }

  lemma NotOpposite(w: World, n: string, m: string)
    requires NoPairTwice(w) && n in w.peerings && m in w.peerings
    ensures !Opposite(w.peerings[n], w.peerings[m])
  {
  }

  lemma NoDupSize(names: seq<string>)
    requires NoDup(names)
    ensures |names| == |set n | n in names|
  {
    NoDupMultiset(names);
    assert |names| == |multiset(names)|;
  }

  /** A mesh of n members has n (n - 1) / 2 peerings and as many references. */
  lemma CompleteCount(w: World, g: string, spec: string -> ClusterSpec, used: set<string>)
    requires Inv(w, spec, used) && Unambiguous(used) && Complete(w) && g in w.meshes
    ensures var n := |w.meshes[g].clusters|;
      |Owned(w.peerings, g)| == Pairs(n) && |w.meshes[g].refs| == Pairs(n)
  {
    CountParts(w, g, spec, used);
    hide *;
    ListsSize(w.meshes[g].refs, w.peerings, g);
    OwnedIsTriangle(w, g, spec, used);
    TriangleSize(w.meshes[g].clusters, w.peerings, |w.meshes[g].clusters|, spec, used);
  }

  lemma CountParts(w: World, g: string, spec: string -> ClusterSpec, used: set<string>)
    requires Inv(w, spec, used) && Complete(w) && g in w.meshes
    ensures MembersOf(w.meshes[g].clusters, spec, used) && CompleteMesh(w.meshes[g].clusters, w.peerings, g)
    ensures Lists(w.meshes[g].refs, w.peerings, g)
  {
  }

  lemma ListsSize(names: seq<string>, p: Peerings, g: string)
    requires Lists(names, p, g)
    ensures |names| == |Owned(p, g)|
  {
    NoDupSize(names);
    assert (set n | n in names) == Owned(p, g);
  }

  // ---- Without the hypotheses ----

  /** The members that an error-free join works through, and the links that it starts from. */
  lemma JoinWorks(w: World, self: ClusterSpec, g: string, v: World)
    requires Joins(w, self, g, v, false) && g in w.meshes
    ensures var clusters := AddMember(w.meshes[g].clusters, self);
      && g in v.meshes && v.meshes[g].clusters == clusters
      && exists names ::
        Lists(names, w.peerings, g) && v.peerings == LinkAll(g, self, clusters, Links(names, w.peerings)).peerings
  {
    hide LinkAll, AddMember, Lists, Sort, StrLess;
    var clusters := AddMember(w.meshes[g].clusters, self);
    var names, k: nat :| LinksPrefix(w, self, g, clusters, names, k, v, false);
    assert clusters[..k] == clusters;
  }

  lemma {:induction false} SelfLinked(g: string, self: ClusterSpec, clusters: seq<ClusterSpec>, l: Links)
    requires PeeringName(self.name, self.name) in l.refs ==> PeeringName(self.name, self.name) in l.peerings
    ensures var n, done := PeeringName(self.name, self.name), LinkAll(g, self, clusters, l);
      && (n in done.refs ==> n in done.peerings)
      && (n in done.peerings <==> n in l.peerings || exists c :: c in clusters && c.name == self.name && c != self)
  {
    if clusters != [] {
      var p, c := clusters[..|clusters| - 1], clusters[|clusters| - 1];
      assert clusters == p + [c];
      SelfLinked(g, self, p, l);
      assert PeeringName(self.name, c.name) == PeeringName(self.name, self.name) ==> c.name == self.name by {
        assert PeeringName(self.name, c.name)[|self.name| + 1..] == c.name;
      }
      hide PeeringName, LinkAll;
    }
  }

  /** H1: an error-free reconcile leaves a peering of the cluster with itself if and only if there
      was one or the stored spec differs from the fresh one, because the code compares specs. */
  lemma DriftPeersWithItself(w: World, spec: string -> ClusterSpec, r: Request, v: World)
    requires Faithful(spec) && r.group.Some? && Reconciled(w, spec, r, v, false)
    ensures var n, g := PeeringName(r.name, r.name), r.group.value;
      n in v.peerings <==>
        || n in w.peerings
        || (g in w.meshes && exists c :: c in w.meshes[g].clusters && c.name == r.name && c != spec(r.name))
  {
    var g, self := r.group.value, spec(r.name);
    if g in w.meshes {
      var stored := w.meshes[g].clusters;
      hide PeeringName, Joins, LinkAll, HasMember;
      JoinWorks(w, self, g, v);
      var clusters := AddMember(stored, self);
      var names :| Lists(names, w.peerings, g)
        && v.peerings == LinkAll(g, self, clusters, Links(names, w.peerings)).peerings;
      assert forall n | n in names :: n in Owned(w.peerings, g);
      SelfLinked(g, self, clusters, Links(names, w.peerings));
      assert forall c | c != self :: c in clusters <==> c in stored;
    }
  }

  /** Before its turn, one of the two joined names of a member is taken: by a peering that the mesh
      owned before, or by the peering that this reconcile made for an earlier member. */
  ghost predicate Taken(owned: set<string>, self: ClusterSpec, clusters: seq<ClusterSpec>, k: nat)
    requires k < |clusters|
    decreases k
  {
    || PeeringName(self.name, clusters[k].name) in owned
    || PeeringName(clusters[k].name, self.name) in owned
    || exists j: nat | j < k ::
      Uses(self, clusters, j, PeeringName(clusters[k].name, self.name)) && !Taken(owned, self, clusters, j)
  }

  predicate Uses(self: ClusterSpec, clusters: seq<ClusterSpec>, j: nat, n: string)
    requires j < |clusters|
  {
    clusters[j] != self && n == PeeringName(self.name, clusters[j].name)
  }

  /** Some member before `k` got the name `n` in this reconcile. */
  ghost predicate Given(owned: set<string>, self: ClusterSpec, clusters: seq<ClusterSpec>, k: nat, n: string)
    requires k <= |clusters|
  {
    exists j: nat | j < k :: Uses(self, clusters, j, n) && !Taken(owned, self, clusters, j)
  }

  lemma UsedOnce(self: ClusterSpec, clusters: seq<ClusterSpec>, j: nat, k: nat)
    requires DistinctMembers(clusters) && j < |clusters| && k < |clusters|
    requires Uses(self, clusters, j, PeeringName(self.name, clusters[k].name))
    ensures j == k
  {
    var n := PeeringName(self.name, clusters[k].name);
    assert n[|self.name| + 1..] == clusters[k].name;
    assert PeeringName(self.name, clusters[j].name)[|self.name| + 1..] == clusters[j].name;
  }

  lemma GivenNext(owned: set<string>, self: ClusterSpec, clusters: seq<ClusterSpec>, k: nat, n: string)
    requires k < |clusters|
    ensures Given(owned, self, clusters, k + 1, n) <==>
      Given(owned, self, clusters, k, n) || (Uses(self, clusters, k, n) && !Taken(owned, self, clusters, k))
  {
    hide Uses, Taken;
  }

  /** A member is peered with before its turn exactly when one of the names is taken. */
  lemma TakenIsPeered(owned: set<string>, self: ClusterSpec, clusters: seq<ClusterSpec>, k: nat, refs: seq<string>)
    requires DistinctMembers(clusters) && k < |clusters| && clusters[k] != self
    requires forall n :: n in refs <==> n in owned || Given(owned, self, clusters, k, n)
    ensures IsPeered(refs, self.name, clusters[k].name) <==> Taken(owned, self, clusters, k)
  {
    var forth := PeeringName(self.name, clusters[k].name);
    if Given(owned, self, clusters, k, forth) {
      var j: nat :| j < k && Uses(self, clusters, j, forth) && !Taken(owned, self, clusters, j);
      UsedOnce(self, clusters, j, k);
    }
    hide PeeringName, Uses;
  }

  /** The names and the peerings after the turns of the first `k` members. */
  ghost predicate LinkedTo(g: string, self: ClusterSpec, clusters: seq<ClusterSpec>, k: nat, owned: set<string>,
                           p: Peerings, l: Links)
    requires k <= |clusters|
  {
    && (forall n :: n in l.refs <==> n in owned || Given(owned, self, clusters, k, n))
    && (forall n :: n in l.peerings <==> n in p || Given(owned, self, clusters, k, n))
    && Kept(p, l.peerings)
    && (forall n | n in l.peerings && n !in p :: NewPeering(g, self, n, l.peerings[n]))
  }

  predicate NewPeering(g: string, self: ClusterSpec, n: string, p: Peering) {
    p.owner == g && p.requester == self.name && n == PeeringName(self.name, p.accepter)
  }

  lemma LinkChanges(g: string, self: ClusterSpec, c: ClusterSpec, l: Links)
    ensures var k, n := Link(g, self, c, l), PeeringName(self.name, c.name);
      if self == c || IsPeered(l.refs, self.name, c.name) then k == l
      else
        && (forall m :: m in k.refs <==> m in l.refs || m == n) && Kept(l.peerings, k.peerings)
        && (forall m :: m in k.peerings <==> m in l.peerings || m == n)
        && (n !in l.peerings ==> NewPeering(g, self, n, k.peerings[n]))
  {
    hide PeeringName;
  }

  lemma LinkedSame(g: string, self: ClusterSpec, clusters: seq<ClusterSpec>, k: nat, owned: set<string>, p: Peerings,
                   l: Links)
    requires k < |clusters| && LinkedTo(g, self, clusters, k, owned, p, l)
    requires clusters[k] == self || Taken(owned, self, clusters, k)
    ensures LinkedTo(g, self, clusters, k + 1, owned, p, l)
  {
    forall n ensures Given(owned, self, clusters, k + 1, n) <==> Given(owned, self, clusters, k, n) {
      GivenNext(owned, self, clusters, k, n);
    }
    hide Taken, Given, NewPeering;
  }

  lemma LinkedNew(g: string, self: ClusterSpec, clusters: seq<ClusterSpec>, k: nat, owned: set<string>, p: Peerings,
                  l: Links, m: Links)
    requires k < |clusters| && LinkedTo(g, self, clusters, k, owned, p, l)
    requires clusters[k] != self && !Taken(owned, self, clusters, k)
    requires var forth := PeeringName(self.name, clusters[k].name);
      && (forall n :: n in m.refs <==> n in l.refs || n == forth) && Kept(l.peerings, m.peerings)
      && (forall n :: n in m.peerings <==> n in l.peerings || n == forth)
      && (forth !in l.peerings ==> NewPeering(g, self, forth, m.peerings[forth]))
    ensures LinkedTo(g, self, clusters, k + 1, owned, p, m)
  {
    hide Taken, Given, NewPeering, PeeringName, Uses;
    GivenAlso(owned, self, clusters, k);
    var forth := PeeringName(self.name, clusters[k].name);
    forall n | n in m.peerings && n !in p ensures NewPeering(g, self, n, m.peerings[n]) {
      assert n in l.peerings || n == forth;
    }
  }

  lemma GivenAlso(owned: set<string>, self: ClusterSpec, clusters: seq<ClusterSpec>, k: nat)
    requires k < |clusters| && clusters[k] != self && !Taken(owned, self, clusters, k)
    ensures forall n :: Given(owned, self, clusters, k + 1, n) <==>
      Given(owned, self, clusters, k, n) || n == PeeringName(self.name, clusters[k].name)
  {
    forall n ensures Given(owned, self, clusters, k + 1, n) <==>
      Given(owned, self, clusters, k, n) || n == PeeringName(self.name, clusters[k].name)
    {
      GivenNext(owned, self, clusters, k, n);
    }
  }

  lemma LinkedStep(g: string, self: ClusterSpec, clusters: seq<ClusterSpec>, k: nat, owned: set<string>, p: Peerings,
                   l: Links)
    requires DistinctMembers(clusters) && k < |clusters| && LinkedTo(g, self, clusters, k, owned, p, l)
    ensures LinkedTo(g, self, clusters, k + 1, owned, p, Link(g, self, clusters[k], l))
  {
    hide Taken, Given, Link, IsPeered, DistinctMembers, PeeringName, NewPeering;
    var c := clusters[k];
    LinkChanges(g, self, c, l);
    if self != c {
      TakenIsPeered(owned, self, clusters, k, l.refs);
    }
    hide LinkedTo, Kept;
    if self == c || Taken(owned, self, clusters, k) {
      LinkedSame(g, self, clusters, k, owned, p, l);
    } else {
      LinkedNew(g, self, clusters, k, owned, p, l, Link(g, self, c, l));
    }
  }

  lemma LinkedStart(g: string, self: ClusterSpec, clusters: seq<ClusterSpec>, names: seq<string>, owned: set<string>,
                    p: Peerings)
    requires forall n :: n in names <==> n in owned
    ensures LinkedTo(g, self, clusters, 0, owned, p, LinkAll(g, self, clusters[..0], Links(names, p)))
  {
    hide Taken, NewPeering;
  }

  lemma {:induction false} LinkedExactly(g: string, self: ClusterSpec, clusters: seq<ClusterSpec>, k: nat,
                                         names: seq<string>, owned: set<string>, p: Peerings)
    requires DistinctMembers(clusters) && k <= |clusters| && forall n :: n in names <==> n in owned
    ensures LinkedTo(g, self, clusters, k, owned, p, LinkAll(g, self, clusters[..k], Links(names, p)))
  {
    hide *;
    if k == 0 {
      LinkedStart(g, self, clusters, names, owned, p);
    } else {
      LinkedExactly(g, self, clusters, k - 1, names, owned, p);
      LinkLast(g, self, clusters, k, Links(names, p));
      LinkedStep(g, self, clusters, k - 1, owned, p, LinkAll(g, self, clusters[..k - 1], Links(names, p)));
    }
  }

  lemma LinkLast(g: string, self: ClusterSpec, clusters: seq<ClusterSpec>, k: nat, l: Links)
    requires 0 < k <= |clusters|
    ensures LinkAll(g, self, clusters[..k], l) == Link(g, self, clusters[k - 1], LinkAll(g, self, clusters[..k - 1], l))
  {
    assert clusters[..k][..k - 1] == clusters[..k - 1];
  }

  /** H2: after an error-free reconcile, a member is paired with the reconciled cluster if and only
      if it was before, or neither joined name was taken and the peering's own name was free. */
  lemma PairedExactly(w: World, spec: string -> ClusterSpec, r: Request, v: World, k: nat)
    requires Faithful(spec) && r.group.Some? && r.group.value in w.meshes && Reconciled(w, spec, r, v, false)
    requires var clusters := AddMember(w.meshes[r.group.value].clusters, spec(r.name));
      DistinctMembers(clusters) && k < |clusters| && clusters[k].name != r.name
    ensures var g, clusters := r.group.value, AddMember(w.meshes[r.group.value].clusters, spec(r.name));
      var c := clusters[k].name;
      Paired(v.peerings, g, r.name, c) <==>
        || Paired(w.peerings, g, r.name, c)
        || (!Taken(Owned(w.peerings, g), spec(r.name), clusters, k) && PeeringName(r.name, c) !in w.peerings)
  {
    var g, self := r.group.value, spec(r.name);
    var clusters := AddMember(w.meshes[g].clusters, self);
    hide Joins;
    JoinWorks(w, self, g, v);
    var names :| Lists(names, w.peerings, g)
      && v.peerings == LinkAll(g, self, clusters, Links(names, w.peerings)).peerings;
    LinkedExactly(g, self, clusters, |clusters|, names, Owned(w.peerings, g), w.peerings);
    assert clusters[..|clusters|] == clusters;
    GivenOwn(Owned(w.peerings, g), self, clusters, k);
    hide LinkAll, AddMember, Given, Taken, Owned, Lists, DistinctMembers, Paired, PeeringName, NewPeering, Kept;
    PairedNow(g, self, clusters[k].name, w.peerings, v.peerings, Taken(Owned(w.peerings, g), self, clusters, k));
  }

  /** Of the new peerings of a cluster, the one of this name alone pairs it with `c`. */
  lemma PairedNow(g: string, self: ClusterSpec, c: string, p: Peerings, q: Peerings, taken: bool)
    requires Kept(p, q) && self.name != c
    requires forall n | n in q && n !in p :: NewPeering(g, self, n, q[n])
    requires PeeringName(self.name, c) in q <==> PeeringName(self.name, c) in p || !taken
    ensures Paired(q, g, self.name, c) <==> Paired(p, g, self.name, c) || (!taken && PeeringName(self.name, c) !in p)
  {
    var forth, back := PeeringName(self.name, c), PeeringName(c, self.name);
    if forth in q && forth !in p {
      AccepterIs(self.name, c, q[forth].accepter);
    }
    hide PeeringName;
    assert back in q && back !in p ==> q[back].requester == self.name;
  }

  lemma AccepterIs(x: string, c: string, d: string)
    ensures PeeringName(x, c) == PeeringName(x, d) ==> c == d
  {
    assert PeeringName(x, c)[|x| + 1..] == c && PeeringName(x, d)[|x| + 1..] == d;
  }

  lemma GivenOwn(owned: set<string>, self: ClusterSpec, clusters: seq<ClusterSpec>, k: nat)
    requires DistinctMembers(clusters) && k < |clusters| && clusters[k] != self
    ensures Given(owned, self, clusters, |clusters|, PeeringName(self.name, clusters[k].name))
      <==> !Taken(owned, self, clusters, k)
  {
    var n := PeeringName(self.name, clusters[k].name);
    assert Uses(self, clusters, k, n);
    if Given(owned, self, clusters, |clusters|, n) {
      var j: nat :| j < |clusters| && Uses(self, clusters, j, n) && !Taken(owned, self, clusters, j);
      UsedOnce(self, clusters, j, k);
    }
    hide Taken, PeeringName;
  }

  /** Names without a dash satisfy H2. */
  lemma DashFreeNames(used: set<string>)
    requires forall x | x in used :: '-' !in x
    ensures Unambiguous(used)
  {
    forall x, y, u, v | x in used && y in used && u in used && v in used && PeeringName(x, y) == PeeringName(u, v)
      ensures x == u && y == v
    {
      SplitAt(x, y, u, v, '-');
    }
  }

  /** They satisfy H3 as well when none is part of another one. */
  lemma DashFreeParts(used: set<string>)
    requires forall x | x in used :: '-' !in x
    requires forall x, y | x in used && y in used && Contains(y, x) :: x == y
    ensures EndpointsOnly(used)
  {
    forall x, u, v | x in used && u in used && v in used && Contains(PeeringName(u, v), x)
      ensures x == u || x == v
    {
      PartOfEndpoint(x, u, v);
    }
  }

  lemma PartOfEndpoint(x: string, u: string, v: string)
    requires '-' !in x && Contains(PeeringName(u, v), x)
    ensures Contains(u, x) || Contains(v, x)
  {
    var n := PeeringName(u, v);
    var i: nat :| i <= |n| && At(n, i, x);
    if i + |x| <= |u| {
      assert n[i..i + |x|] == u[i..i + |x|];
      assert At(u, i, x);
    } else if i > |u| {
      assert n[i..i + |x|] == v[i - |u| - 1..i - |u| - 1 + |x|];
      assert At(v, i - |u| - 1, x);
    } else {
      CharAt(n, i, x, |u|);
    }
  }

  lemma CharAt(s: string, i: nat, x: string, k: nat)
    requires At(s, i, x) && i <= k < i + |x|
    ensures s[k] in x
  {
    assert s[k] == s[i..i + |x|][k - i];
  }
}
