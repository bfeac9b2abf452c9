/** What holds of the meshes when the deferred writes of reconciles are lost, which the code only
    logs: what every state keeps, when a join makes the references exact again, and exactly when
    a leave misses a peering. */
module LostWrites {
  import opened Ordering
  import opened Records
  import opened Mesh
  import opened MeshSafety
  import opened MeshComplete

  const WRITTEN := Deferred(true, true)

  // ---- Nothing lost ----

  /** When both deferred writes arrive, this is the reconcile of the other modules. */
  lemma NothingLost(w: World, spec: string -> ClusterSpec, r: Request, v: World, err: bool)
    ensures ReconciledLosing(w, spec, r, v, err, WRITTEN) <==> Reconciled(w, spec, r, v, err)
  {
    hide Joins, Leaves;
    if r.group.Some? {
      JoinWritten(w, spec(r.name), r.group.value, v, err);
    } else {
      forall g | g in w.meshes ensures LeavesLosing(w, r.name, g, v, err, WRITTEN) <==> Leaves(w, r.name, g, v, err) {
        LeaveWritten(w, r.name, g, v, err);
      }
      hide LeavesLosing;
    }
  }

  lemma LoseWritten(u: World, g: string, before: ClusterMesh)
    ensures Lose(u, g, before, WRITTEN) == u
  {
  }

  lemma JoinWritten(w: World, self: ClusterSpec, g: string, v: World, err: bool)
    ensures JoinsLosing(w, self, g, v, err, WRITTEN) <==> Joins(w, self, g, v, err)
  {
    if g in w.meshes {
      if Joins(w, self, g, v, err) {
        JoinKeepsMesh(w, self, g, v, err);
        LoseWritten(v, g, ClusterMesh(v.meshes[g].clusters, w.meshes[g].refs));
      }
      hide Joins, Lose;
      forall u, clusters ensures Lose(u, g, ClusterMesh(clusters, w.meshes[g].refs), WRITTEN) == u {
        LoseWritten(u, g, ClusterMesh(clusters, w.meshes[g].refs));
      }
    }
  }

  lemma JoinKeepsMesh(w: World, self: ClusterSpec, g: string, v: World, err: bool)
    requires Joins(w, self, g, v, err) && g in w.meshes
    ensures g in v.meshes
  {
    hide LinkAll, AddMember, Lists, Sort, StrLess;
  }

  lemma LeaveWritten(w: World, x: string, g: string, v: World, err: bool)
    requires g in w.meshes
    ensures LeavesLosing(w, x, g, v, err, WRITTEN) <==> Leaves(w, x, g, v, err)
  {
    LoseWritten(v, g, w.meshes[g]);
    hide Leaves, Lose;
    forall u ensures Lose(u, g, w.meshes[g], WRITTEN) == u {
      LoseWritten(u, g, w.meshes[g]);
    }
  }

  // ---- What every state keeps ----

  /** A peering has the name of its two different endpoints. */
  predicate Named(n: string, p: Peering, used: set<string>) {
    n == PeeringName(p.requester, p.accepter) && p.requester != p.accepter && p.requester in used && p.accepter in used
  }

  ghost predicate AllNamed(peerings: Peerings, used: set<string>) {
    forall n | n in peerings :: Named(n, peerings[n], used)
  }

  /** No mesh owns two peerings of the same pair. */
  ghost predicate NoPairTwiceOwned(peerings: Peerings) {
    forall n, m | n in peerings && m in peerings && peerings[n].owner == peerings[m].owner ::
      !Opposite(peerings[n], peerings[m])
  }

  /** What holds in every state of every run, whichever deferred writes are lost: nothing is said
      of the references, and a peering may outlive the membership of its endpoints. */
  ghost predicate Loose(w: World, spec: string -> ClusterSpec, used: set<string>) {
    && Members(w, spec, used) && OneMesh(w) && AllNamed(w.peerings, used) && NoPairTwiceOwned(w.peerings)
  }

  lemma InvIsLoose(w: World, spec: string -> ClusterSpec, used: set<string>)
    requires Inv(w, spec, used)
    ensures Loose(w, spec, used)
  {
    forall n | n in w.peerings ensures Named(n, w.peerings[n], used) {
      var p := w.peerings[n];
      assert Joining(w, n);
      MemberUsed(w, p.owner, p.requester, spec, used);
      MemberUsed(w, p.owner, p.accepter, spec, used);
    }
    hide HasMember, MembersOf, Lists, Opposite;
  }

  /** A peering that a join makes: for a member whose opposite name the mesh did not own. */
  lemma NewForMember(g: string, self: ClusterSpec, clusters: seq<ClusterSpec>, k: nat, owned: set<string>, p: Peerings,
                     l: Links, n: string) returns (j: nat)
    requires k <= |clusters| && LinkedTo(g, self, clusters, k, owned, p, l) && n in l.peerings && n !in p
    ensures j < k && clusters[j] != self && l.peerings[n] == Peering(g, self.name, clusters[j].name)
    ensures n == PeeringName(self.name, clusters[j].name) && PeeringName(clusters[j].name, self.name) !in owned
  {
    assert Given(owned, self, clusters, k, n) && NewPeering(g, self, n, l.peerings[n]);
    j :| j < k && Uses(self, clusters, j, n) && !Taken(owned, self, clusters, j);
    assert n[|self.name| + 1..] == clusters[j].name && n[|self.name| + 1..] == l.peerings[n].accepter;
  }

  /** Self is the only member of its name, and all names are in use. */
  ghost predicate Fit(self: ClusterSpec, clusters: seq<ClusterSpec>, used: set<string>) {
    && self.name in used
    && forall j | 0 <= j < |clusters| ::
         clusters[j].name in used && (clusters[j] != self ==> clusters[j].name != self.name)
  }

  lemma LinkedNamed(g: string, self: ClusterSpec, clusters: seq<ClusterSpec>, k: nat, p: Peerings, l: Links,
                    used: set<string>)
    requires k <= |clusters| && LinkedTo(g, self, clusters, k, Owned(p, g), p, l) && Fit(self, clusters, used)
    requires AllNamed(p, used)
    ensures AllNamed(l.peerings, used)
  {
    hide PeeringName, Owned, Taken, Given;
    forall n | n in l.peerings ensures Named(n, l.peerings[n], used) {
      if n in p {
        assert Named(n, p[n], used);
      } else {
        var j := NewForMember(g, self, clusters, k, Owned(p, g), p, l, n);
      }
    }
  }

  /** A new peering is not opposite to one that the same mesh owns. */
  lemma NewNotOpposite(g: string, self: ClusterSpec, clusters: seq<ClusterSpec>, k: nat, p: Peerings, l: Links,
                       used: set<string>, n: string, m: string)
    requires k <= |clusters| && LinkedTo(g, self, clusters, k, Owned(p, g), p, l) && Fit(self, clusters, used)
    requires AllNamed(p, used) && n in l.peerings && n !in p && m in l.peerings && l.peerings[m].owner == g
    ensures !Opposite(l.peerings[n], l.peerings[m]) && !Opposite(l.peerings[m], l.peerings[n])
  {
    hide PeeringName, Taken, Given, LinkedTo;
    var j := NewForMember(g, self, clusters, k, Owned(p, g), p, l, n);
    LinkedKeeps(g, self, clusters, k, Owned(p, g), p, l);
    if m in p {
      assert Named(m, p[m], used) && m in Owned(p, g);
    } else {
      var i := NewForMember(g, self, clusters, k, Owned(p, g), p, l, m);
    }
  }

  lemma LinkedKeeps(g: string, self: ClusterSpec, clusters: seq<ClusterSpec>, k: nat, owned: set<string>, p: Peerings,
                    l: Links)
    requires k <= |clusters| && LinkedTo(g, self, clusters, k, owned, p, l)
    ensures Kept(p, l.peerings) && forall n | n in l.peerings && n !in p :: l.peerings[n].owner == g
  {
    hide Taken, Given;
  }

  lemma LinkedApart(g: string, self: ClusterSpec, clusters: seq<ClusterSpec>, k: nat, p: Peerings, l: Links,
                    used: set<string>)
    requires k <= |clusters| && LinkedTo(g, self, clusters, k, Owned(p, g), p, l) && Fit(self, clusters, used)
    requires AllNamed(p, used) && NoPairTwiceOwned(p)
    ensures NoPairTwiceOwned(l.peerings)
  {
    LinkedKeeps(g, self, clusters, k, Owned(p, g), p, l);
    hide LinkedTo, AllNamed, Fit, Opposite, Owned;
    forall n, m | n in l.peerings && m in l.peerings && l.peerings[n].owner == l.peerings[m].owner
      ensures !Opposite(l.peerings[n], l.peerings[m])
    {
      if n !in p {
        NewNotOpposite(g, self, clusters, k, p, l, used, n, m);
      } else if m !in p {
        NewNotOpposite(g, self, clusters, k, p, l, used, m, n);
      } else {
        assert !Opposite(p[n], p[m]);
      }
    }
  }

  // ---- The members ----

  ghost predicate MembersFit(meshes: Meshes, spec: string -> ClusterSpec, used: set<string>) {
    Members(World(meshes, map[]), spec, used) && OneMesh(World(meshes, map[]))
  }

  lemma LooseIs(w: World, spec: string -> ClusterSpec, used: set<string>)
    ensures Loose(w, spec, used)
      <==> MembersFit(w.meshes, spec, used) && AllNamed(w.peerings, used) && NoPairTwiceOwned(w.peerings)
  {
    hide MembersOf, HasMember, AllNamed, NoPairTwiceOwned;
  }

  /** Only the members of the meshes count. */
  lemma SameMembersFit(a: Meshes, b: Meshes, spec: string -> ClusterSpec, used: set<string>)
    requires MembersFit(a, spec, used) && a.Keys == b.Keys && forall h | h in a :: b[h].clusters == a[h].clusters
    ensures MembersFit(b, spec, used)
  {
    hide MembersOf, HasMember;
  }

  lemma JoinedFit(meshes: Meshes, g: string, clusters: seq<ClusterSpec>, refs: seq<string>, self: ClusterSpec,
                  spec: string -> ClusterSpec, used: set<string>)
    requires MembersFit(meshes, spec, used) && self == spec(self.name) && self.name in used
    requires clusters == if g in meshes then meshes[g].clusters else []
    requires forall h | h in meshes && h != g :: !HasMember(meshes[h].clusters, self.name)
    ensures MembersFit(meshes[g := ClusterMesh(AddMember(clusters, self), refs)], spec, used)
  {
    var more := meshes[g := ClusterMesh(AddMember(clusters, self), refs)];
    if HasMember(clusters, self.name) {
      NoMembers(self.name);
      SameMembersFit(meshes, more, spec, used);
    } else {
      AddedMembers(World(meshes, map[]), clusters, self, spec, used);
      hide MembersOf, HasMember;
      forall x, h, k | h in more && k in more && HasMember(more[h].clusters, x) && HasMember(more[k].clusters, x)
        ensures h == k
      {
        AddedOneMesh(World(meshes, map[]), clusters, self, g, x, h, k);
      }
    }
  }

  lemma LeftFit(meshes: Meshes, g: string, x: string, refs: seq<string>, spec: string -> ClusterSpec, used: set<string>)
    requires MembersFit(meshes, spec, used) && g in meshes && RemoveMember(meshes[g].clusters, x) != []
    ensures MembersFit(meshes[g := ClusterMesh(RemoveMember(meshes[g].clusters, x), refs)], spec, used)
  {
    var fewer := meshes[g := ClusterMesh(RemoveMember(meshes[g].clusters, x), refs)];
    assert MembersOf(meshes[g].clusters, spec, used);
    RestMembers(meshes[g].clusters, x, spec, used);
    hide MembersOf, HasMember, RemoveMember;
    forall y, h, k | h in fewer && k in fewer && HasMember(fewer[h].clusters, y) && HasMember(fewer[k].clusters, y)
      ensures h == k
    {
      assert HasMember(meshes[h].clusters, y) && HasMember(meshes[k].clusters, y);
    }
  }

  lemma GoneFit(meshes: Meshes, g: string, spec: string -> ClusterSpec, used: set<string>)
    requires MembersFit(meshes, spec, used)
    ensures MembersFit(meshes - {g}, spec, used)
  {
    hide MembersOf, HasMember;
  }

  // ---- One reconcile ----

  /** A leave deletes exactly the peerings of the status whose names contain the cluster's. */
  lemma {:induction false} UnlinkAllLeaves(x: string, names: seq<string>, l: Links)
    ensures var done := UnlinkAll(x, names, l).peerings;
      && (forall n :: n in done <==> n in l.peerings && !(n in names && Contains(n, x)))
      && Kept(done, l.peerings)
  {
    if names != [] {
      var p, n := names[..|names| - 1], names[|names| - 1];
      assert names == p + [n];
      UnlinkAllLeaves(x, p, l);
      hide Contains;
    }
  }

  lemma FewerFit(a: Peerings, b: Peerings, used: set<string>)
    requires AllNamed(a, used) && NoPairTwiceOwned(a) && Kept(b, a)
    ensures AllNamed(b, used) && NoPairTwiceOwned(b)
  {
    hide Named, Opposite;
  }

  lemma Fits(clusters: seq<ClusterSpec>, self: ClusterSpec, spec: string -> ClusterSpec, used: set<string>)
    requires MembersOf(clusters, spec, used) && self == spec(self.name) && self.name in used
    ensures Fit(self, clusters, used) && DistinctMembers(clusters)
  {
  }

  /** Linking a prefix of the members keeps peerings named and no pair twice. */
  lemma LinksLoose(p: Peerings, self: ClusterSpec, g: string, clusters: seq<ClusterSpec>, names: seq<string>, k: nat,
                   spec: string -> ClusterSpec, used: set<string>)
    requires MembersOf(clusters, spec, used) && self == spec(self.name) && self.name in used
    requires AllNamed(p, used) && NoPairTwiceOwned(p) && Lists(names, p, g) && k <= |clusters|
    ensures var l := LinkAll(g, self, clusters[..k], Links(names, p));
      AllNamed(l.peerings, used) && NoPairTwiceOwned(l.peerings)
  {
    Fits(clusters, self, spec, used);
    assert forall n :: n in names <==> n in Owned(p, g);
    hide *;
    var l := LinkAll(g, self, clusters[..k], Links(names, p));
    LinkedExactly(g, self, clusters, k, names, Owned(p, g), p);
    LinkedNamed(g, self, clusters, k, p, l, used);
    LinkedApart(g, self, clusters, k, p, l, used);
  }

  lemma JoinLoose(w: World, self: ClusterSpec, g: string, u: World, err: bool, spec: string -> ClusterSpec,
                  used: set<string>)
    requires Loose(w, spec, used) && Joins(w, self, g, u, err) && self == spec(self.name) && self.name in used
    requires forall h | h in w.meshes && h != g :: !HasMember(w.meshes[h].clusters, self.name)
    ensures Loose(u, spec, used)
    ensures forall h | h in w.meshes && h != g :: h in u.meshes && u.meshes[h] == w.meshes[h]
    ensures u.meshes.Keys == w.meshes.Keys || u.meshes.Keys == w.meshes.Keys + {g}
  {
    LooseIs(w, spec, used);
    LooseIs(u, spec, used);
    hide Loose, MembersFit, AllNamed, NoPairTwiceOwned, LinkAll, Sort, StrLess, HasMember, Lists;
    if !(err && u == w) {
      var clusters := if g in w.meshes then w.meshes[g].clusters else [];
      JoinedFit(w.meshes, g, clusters, u.meshes[g].refs, self, spec, used);
      if g !in w.meshes {
        NoMembers(self.name);
        assert AddMember([], self) == [self];
      } else if !(err && u == Stored(w, g, AddMember(clusters, self), Links(w.meshes[g].refs, w.peerings))) {
        var names, k: nat :| LinksPrefix(w, self, g, AddMember(clusters, self), names, k, u, err);
        FitMembers(u.meshes, g, spec, used);
        LinksLoose(w.peerings, self, g, AddMember(clusters, self), names, k, spec, used);
      }
    }
  }

  lemma FitMembers(meshes: Meshes, g: string, spec: string -> ClusterSpec, used: set<string>)
    requires MembersFit(meshes, spec, used) && g in meshes
    ensures MembersOf(meshes[g].clusters, spec, used)
  {
    hide MembersOf, OneMesh;
  }

  /** The members that a leave may store. */
  ghost predicate LeftMeshes(before: Meshes, x: string, g: string, after: Meshes)
    requires g in before
  {
    var rest := RemoveMember(before[g].clusters, x);
    || after == before - {g}
    || exists refs :: after == before[g := ClusterMesh(before[g].clusters, refs)]
                      || (rest != [] && after == before[g := ClusterMesh(rest, refs)])
  }

  lemma LeaveMeshes(w: World, x: string, g: string, u: World, err: bool)
    requires g in w.meshes && Leaves(w, x, g, u, err)
    ensures LeftMeshes(w.meshes, x, g, u.meshes)
  {
    hide UnlinkAll, Sort, StrLess, RemoveMember;
    var m := w.meshes[g];
    assert w.meshes == w.meshes[g := ClusterMesh(m.clusters, m.refs)];
    if g in u.meshes && u.meshes == w.meshes[g := ClusterMesh(m.clusters, u.meshes[g].refs)] {
      assert LeftMeshes(w.meshes, x, g, u.meshes);
    }
  }

  lemma LeftMeshesFit(before: Meshes, x: string, g: string, after: Meshes, spec: string -> ClusterSpec,
                      used: set<string>)
    requires MembersFit(before, spec, used) && g in before && LeftMeshes(before, x, g, after)
    ensures MembersFit(after, spec, used)
    ensures forall h | h in before && h != g :: h in after && after[h] == before[h]
    ensures after.Keys == before.Keys || after.Keys == before.Keys - {g}
  {
    hide MembersFit, RemoveMember;
    GoneFit(before, g, spec, used);
    if after != before - {g} {
      var refs :| after == before[g := ClusterMesh(before[g].clusters, refs)]
                  || (RemoveMember(before[g].clusters, x) != []
                      && after == before[g := ClusterMesh(RemoveMember(before[g].clusters, x), refs)]);
      if after == before[g := ClusterMesh(before[g].clusters, refs)] {
        SameMembersFit(before, after, spec, used);
      } else {
        LeftFit(before, g, x, refs, spec, used);
      }
    }
  }

  lemma LeaveLoose(w: World, x: string, g: string, u: World, err: bool, spec: string -> ClusterSpec, used: set<string>)
    requires Loose(w, spec, used) && g in w.meshes && Leaves(w, x, g, u, err)
    ensures Loose(u, spec, used)
    ensures forall h | h in w.meshes && h != g :: h in u.meshes && u.meshes[h] == w.meshes[h]
    ensures u.meshes.Keys == w.meshes.Keys || u.meshes.Keys == w.meshes.Keys - {g}
  {
    hide *;
    LooseIs(w, spec, used);
    LooseIs(u, spec, used);
    LeavePeerings(w, x, g, u, err);
    FewerFit(w.peerings, u.peerings, used);
    LeaveMeshes(w, x, g, u, err);
    LeftMeshesFit(w.meshes, x, g, u.meshes, spec, used);
  }

  lemma LeavePeerings(w: World, x: string, g: string, u: World, err: bool)
    requires g in w.meshes && Leaves(w, x, g, u, err)
    ensures Kept(u.peerings, w.peerings)
    ensures !err ==> forall n :: n in u.peerings <==> n in w.peerings && !(n in w.meshes[g].refs && Contains(n, x))
  {
    var m := w.meshes[g];
    UnlinkAllLeaves(x, m.refs, Links(m.refs, w.peerings));
    hide UnlinkAll, Sort, StrLess, RemoveMember, Contains;
    if err && u != w {
      var l := Links(m.refs, w.peerings);
      if k :| 0 <= k <= |m.refs| && u == Stored(w, g, m.clusters, UnlinkAll(x, m.refs[..k], l)) {
        UnlinkAllLeaves(x, m.refs[..k], Links(m.refs, w.peerings));
      }
    }
  }

  /** Whichever deferred writes are lost, the members stored are the old or the new ones. */
  lemma LoseLoose(w: World, u: World, g: string, before: ClusterMesh, d: Deferred, spec: string -> ClusterSpec,
                  used: set<string>)
    requires Loose(w, spec, used) && Loose(u, spec, used) && g in w.meshes
    requires forall h | h in w.meshes && h != g :: h in u.meshes && u.meshes[h] == w.meshes[h]
    requires u.meshes.Keys <= w.meshes.Keys
    requires g in u.meshes ==> before.clusters == u.meshes[g].clusters || before.clusters == w.meshes[g].clusters
    ensures Loose(Lose(u, g, before, d), spec, used)
  {
    var v := Lose(u, g, before, d);
    LooseIs(w, spec, used);
    LooseIs(u, spec, used);
    LooseIs(v, spec, used);
    hide Loose, MembersFit, AllNamed, NoPairTwiceOwned;
    if g in u.meshes {
      if v.meshes[g].clusters == u.meshes[g].clusters {
        SameMembersFit(u.meshes, v.meshes, spec, used);
      } else {
        SameMembersFit(w.meshes, v.meshes, spec, used);
      }
    }
  }

  /** Every reconcile keeps that, wherever it fails and whichever of its deferred writes are lost. */
  lemma LosingKeeps(w: World, spec: string -> ClusterSpec, r: Request, v: World, err: bool, d: Deferred,
                    used: set<string>)
    requires Loose(w, spec, used) && Faithful(spec) && r.name in used && StaysInGroup(w, r)
    requires ReconciledLosing(w, spec, r, v, err, d)
    ensures Loose(v, spec, used)
  {
    hide Loose, Joins, Leaves, Lose, HasMember;
    var self := spec(r.name);
    match r.group
    case Some(g) =>
      if g !in w.meshes {
        JoinLoose(w, self, g, v, err, spec, used);
      } else {
        var u, clusters :| Joins(w, self, g, u, err) && g in u.meshes
          && (clusters == u.meshes[g].clusters || (err && clusters == w.meshes[g].clusters))
          && v == Lose(u, g, ClusterMesh(clusters, w.meshes[g].refs), d);
        JoinLoose(w, self, g, u, err, spec, used);
        LoseLoose(w, u, g, ClusterMesh(clusters, w.meshes[g].refs), d, spec, used);
      }
    case None =>
      if v != w {
        var g :| g in w.meshes && HasMember(w.meshes[g].clusters, r.name) && LeavesLosing(w, r.name, g, v, err, d);
        var u :| Leaves(w, r.name, g, u, err) && v == Lose(u, g, w.meshes[g], d);
        LeaveLoose(w, r.name, g, u, err, spec, used);
        LoseLoose(w, u, g, w.meshes[g], d, spec, used);
      }
  }

  /** One reconcile after another, each with or without a failure and a lost deferred write. */
  ghost predicate Lossy(worlds: seq<World>, requests: seq<Request>, errs: seq<bool>, lost: seq<Deferred>,
                        spec: string -> ClusterSpec, used: set<string>)
  {
    && |worlds| == |requests| + 1 && |errs| == |requests| && |lost| == |requests| && worlds[0] == World(map[], map[])
    && forall i | 0 <= i < |requests| ::
         requests[i].name in used && StaysInGroup(worlds[i], requests[i])
           && ReconciledLosing(worlds[i], spec, requests[i], worlds[i + 1], errs[i], lost[i])
  }

  /** In every state of every run, wherever reconciles fail and whichever deferred writes are lost:
      members are unique and in one mesh, every peering has the name of two different clusters in
      use, and no mesh owns two for one pair. */
  lemma {:induction false} LossyRunIsSafe(worlds: seq<World>, requests: seq<Request>, errs: seq<bool>,
                                          lost: seq<Deferred>, spec: string -> ClusterSpec, used: set<string>, i: nat)
    requires Faithful(spec) && Lossy(worlds, requests, errs, lost, spec, used) && i < |worlds|
    ensures Loose(worlds[i], spec, used)
  {
    if i > 0 {
      LossyRunIsSafe(worlds, requests, errs, lost, spec, used, i - 1);
      hide Loose, ReconciledLosing, StaysInGroup;
      LosingKeeps(worlds[i - 1], spec, requests[i - 1], worlds[i], errs[i - 1], lost[i - 1], used);
    }
  }

  /** The references in the status of every mesh are sorted. */
  ghost predicate RefsSorted(w: World) {
    forall g | g in w.meshes :: Ordered(StrLess, w.meshes[g].refs)
  }

  lemma StoredSorted(w: World, g: string, clusters: seq<ClusterSpec>, l: Links)
    requires RefsSorted(w)
    ensures RefsSorted(Stored(w, g, clusters, l))
  {
    StrLessWeakOrder();
    SortOrdered(StrLess, l.refs);
    hide StrLess, Sort;
  }

  lemma LoseSorted(u: World, g: string, before: ClusterMesh, d: Deferred)
    requires RefsSorted(u) && Ordered(StrLess, before.refs)
    ensures RefsSorted(Lose(u, g, before, d))
  {
    hide StrLess;
  }

  lemma JoinSorted(w: World, self: ClusterSpec, g: string, u: World, err: bool)
    requires RefsSorted(w) && Joins(w, self, g, u, err)
    ensures RefsSorted(u)
  {
    hide StrLess, AddMember, LinkAll, Stored, Lists;
    if g in w.meshes && u != w {
      var clusters := AddMember(w.meshes[g].clusters, self);
      if err && u == Stored(w, g, clusters, Links(w.meshes[g].refs, w.peerings)) {
        StoredSorted(w, g, clusters, Links(w.meshes[g].refs, w.peerings));
      } else {
        var names, k: nat :| LinksPrefix(w, self, g, clusters, names, k, u, err);
        StoredSorted(w, g, clusters, LinkAll(g, self, clusters[..k], Links(names, w.peerings)));
      }
    }
  }

  lemma LeaveSorted(w: World, x: string, g: string, u: World, err: bool)
    requires RefsSorted(w) && g in w.meshes && Leaves(w, x, g, u, err)
    ensures RefsSorted(u)
  {
    hide StrLess, UnlinkAll, RemoveMember, Stored;
    var m := w.meshes[g];
    forall clusters, l ensures RefsSorted(Stored(w, g, clusters, l)) {
      StoredSorted(w, g, clusters, l);
    }
  }

  lemma ReconciledSorted(w: World, spec: string -> ClusterSpec, r: Request, v: World, err: bool, d: Deferred)
    requires RefsSorted(w) && ReconciledLosing(w, spec, r, v, err, d)
    ensures RefsSorted(v)
  {
    hide StrLess, Joins, Leaves, Lose;
    match r.group
    case Some(g) =>
      var self := spec(r.name);
      if g !in w.meshes {
        JoinSorted(w, self, g, v, err);
      } else {
        var u, clusters :| Joins(w, self, g, u, err) && g in u.meshes
          && (clusters == u.meshes[g].clusters || (err && clusters == w.meshes[g].clusters))
          && v == Lose(u, g, ClusterMesh(clusters, w.meshes[g].refs), d);
        JoinSorted(w, self, g, u, err);
        LoseSorted(u, g, ClusterMesh(clusters, w.meshes[g].refs), d);
      }
    case None =>
      if v != w {
        var g :| g in w.meshes && HasMember(w.meshes[g].clusters, r.name) && LeavesLosing(w, r.name, g, v, err, d);
        var u :| Leaves(w, r.name, g, u, err) && v == Lose(u, g, w.meshes[g], d);
        LeaveSorted(w, r.name, g, u, err);
        LoseSorted(u, g, w.meshes[g], d);
      }
  }

  /** In every state of every run the references are sorted, whatever is lost. */
  lemma {:induction false} RunKeepsSorted(worlds: seq<World>, requests: seq<Request>, errs: seq<bool>,
                                          lost: seq<Deferred>, spec: string -> ClusterSpec, used: set<string>, i: nat)
    requires Lossy(worlds, requests, errs, lost, spec, used) && i < |worlds|
    ensures RefsSorted(worlds[i])
  {
    if i > 0 {
      RunKeepsSorted(worlds, requests, errs, lost, spec, used, i - 1);
      hide RefsSorted, ReconciledLosing, StaysInGroup;
      ReconciledSorted(worlds[i - 1], spec, requests[i - 1], worlds[i], errs[i - 1], lost[i - 1]);
    }
  }

  // ---- References that a lost status update leaves out ----

  /** After a leave that deletes all it can, a peering of the cluster is left if and only if the
      stored status did not name it, which only a lost status update can bring about. */
  lemma LeaveMisses(w: World, x: string, g: string, v: World, d: Deferred, spec: string -> ClusterSpec,
                    used: set<string>)
    requires Loose(w, spec, used) && EndpointsOnly(used) && x in used
    requires g in w.meshes && LeavesLosing(w, x, g, v, false, d)
    ensures forall n | n in w.peerings && (w.peerings[n].requester == x || w.peerings[n].accepter == x) ::
      n in v.peerings <==> n !in w.meshes[g].refs
    ensures forall n | n in w.peerings && w.peerings[n].requester != x && w.peerings[n].accepter != x ::
      n in v.peerings && v.peerings[n] == w.peerings[n]
  {
    var u :| Leaves(w, x, g, u, false) && v == Lose(u, g, w.meshes[g], d);
    assert v.peerings == u.peerings;
    hide Leaves, Contains, Lose;
    LeavePeerings(w, x, g, u, false);
    assert AllNamed(w.peerings, used);
    hide Loose;
    forall n | n in w.peerings
      ensures Contains(n, x) <==> w.peerings[n].requester == x || w.peerings[n].accepter == x
    {
      var p := w.peerings[n];
      assert Named(n, p, used);
      EndpointsContained(p.requester, p.accepter);
      EndpointsContained(p.accepter, p.requester);
    }
  }

  /** The links that an error-free join ends with, and what of them it stores. */
  lemma JoinStores(w: World, self: ClusterSpec, g: string, v: World, d: Deferred) returns (l: Links)
    requires g in w.meshes && JoinsLosing(w, self, g, v, false, d)
    requires DistinctMembers(AddMember(w.meshes[g].clusters, self))
    ensures var clusters, owned := AddMember(w.meshes[g].clusters, self), Owned(w.peerings, g);
      && LinkedTo(g, self, clusters, |clusters|, owned, w.peerings, l)
      && g in v.meshes && v.meshes[g].clusters == clusters && v.peerings == l.peerings
      && forall n :: n in v.meshes[g].refs <==> n in if d.updated then l.refs else w.meshes[g].refs
  {
    hide LinkAll, AddMember, Sort, StrLess, LinkedTo, DistinctMembers;
    var clusters := AddMember(w.meshes[g].clusters, self);
    var u, cs :| Joins(w, self, g, u, false) && g in u.meshes && cs == u.meshes[g].clusters
      && v == Lose(u, g, ClusterMesh(cs, w.meshes[g].refs), d);
    var names, k: nat :| LinksPrefix(w, self, g, clusters, names, k, u, false);
    assert clusters[..k] == clusters;
    l := LinkAll(g, self, clusters, Links(names, w.peerings));
    assert forall n :: n in names <==> n in Owned(w.peerings, g);
    hide Lists, Owned;
    LinkedExactly(g, self, clusters, k, names, Owned(w.peerings, g), w.peerings);
    SameElements(l.refs, Sort(StrLess, l.refs));
  }

  lemma GivenNotOwned(owned: set<string>, self: ClusterSpec, clusters: seq<ClusterSpec>, n: string)
    ensures Given(owned, self, clusters, |clusters|, n) ==> n !in owned
  {
  }

  /** An error-free join whose status update arrives makes the references exact again, whatever was
      lost before, if and only if each name that it gives to a new peering is free. */
  lemma JoinHeals(w: World, self: ClusterSpec, g: string, v: World, d: Deferred)
    requires g in w.meshes && d.updated && JoinsLosing(w, self, g, v, false, d)
    requires DistinctMembers(AddMember(w.meshes[g].clusters, self))
    ensures g in v.meshes
    ensures (forall n :: n in v.meshes[g].refs <==> n in Owned(v.peerings, g)) <==>
      var clusters := AddMember(w.meshes[g].clusters, self);
      forall n | Given(Owned(w.peerings, g), self, clusters, |clusters|, n) :: n !in w.peerings
  {
    var clusters, owned := AddMember(w.meshes[g].clusters, self), Owned(w.peerings, g);
    var l := JoinStores(w, self, g, v, d);
    hide JoinsLosing, AddMember, DistinctMembers, Taken, Given, NewPeering;
    LinkedKeeps(g, self, clusters, |clusters|, owned, w.peerings, l);
    forall n
      ensures n in Owned(v.peerings, g) <==>
        n in owned || (Given(owned, self, clusters, |clusters|, n) && n !in w.peerings)
      ensures n in v.meshes[g].refs <==> n in owned || Given(owned, self, clusters, |clusters|, n)
      ensures Given(owned, self, clusters, |clusters|, n) ==> n !in owned
    {
      GivenNotOwned(owned, self, clusters, n);
    }
  }

  lemma NewMember(a: ClusterSpec, b: ClusterSpec)
    requires a.name != b.name
    ensures !HasMember([a], b.name) && AddMember([a], b) == [a, b]
  {
  }

  lemma OneLink(a: ClusterSpec, b: ClusterSpec, g: string, n: string)
    requires a.name != b.name && n == PeeringName(b.name, a.name)
    ensures LinkAll(g, b, [a, b], Links([], map[])) == Links([n], map[n := Peering(g, b.name, a.name)])
  {
    hide PeeringName;
    var l := Links([], map[]);
    assert [a, b][..1] == [a] && [a][..0] == [] && LinkAll(g, b, [], l) == l;
    assert LinkAll(g, b, [a], l) == Link(g, b, a, l) == Links([n], map[n := Peering(g, b.name, a.name)]);
  }

  lemma LinksAll(w: World, self: ClusterSpec, g: string, clusters: seq<ClusterSpec>, names: seq<string>)
    requires g in w.meshes && Lists(names, w.peerings, g) && clusters == AddMember(w.meshes[g].clusters, self)
    ensures Joins(w, self, g, Stored(w, g, clusters, LinkAll(g, self, clusters, Links(names, w.peerings))), false)
  {
    assert clusters[..|clusters|] == clusters;
    hide LinkAll, AddMember, Lists, Sort, StrLess;
    var v := Stored(w, g, clusters, LinkAll(g, self, clusters, Links(names, w.peerings)));
    assert LinksPrefix(w, self, g, clusters, names, |clusters|, v, false);
  }

  lemma StatusLost(w: World, g: string, before: ClusterMesh, clusters: seq<ClusterSpec>, l: Links)
    ensures Lose(Stored(w, g, clusters, l), g, before, Deferred(true, false))
         == World(w.meshes[g := ClusterMesh(clusters, before.refs)], l.peerings)
  {
    hide Sort, StrLess;
  }

  lemma OtherJoins(w: World, a: ClusterSpec, b: ClusterSpec, g: string, n: string)
    requires a.name != b.name && n == PeeringName(b.name, a.name)
    requires g in w.meshes && w.meshes[g] == ClusterMesh([a], []) && w.peerings == map[]
    ensures var v := World(w.meshes[g := ClusterMesh([a, b], [])], map[n := Peering(g, b.name, a.name)]);
      JoinsLosing(w, b, g, v, false, Deferred(true, false))
  {
    assert Lists([], w.peerings, g);
    hide *;
    OneLink(a, b, g, n);
    NewMember(a, b);
    LinksAll(w, b, g, [a, b], []);
    var l := Links([n], map[n := Peering(g, b.name, a.name)]);
    StoredMesh(w, g, [a, b], l);
    JoinLoses(w, b, g, Stored(w, g, [a, b], l), [a, b], false, Deferred(true, false));
    StatusLost(w, g, ClusterMesh([a, b], []), [a, b], l);
  }

  lemma StoredMesh(w: World, g: string, clusters: seq<ClusterSpec>, l: Links)
    ensures var u := Stored(w, g, clusters, l); g in u.meshes && u.meshes[g].clusters == clusters
  {
  }

  lemma OtherLeaves(w: World, a: ClusterSpec, b: ClusterSpec, g: string)
    requires a.name != b.name && g in w.meshes && w.meshes[g] == ClusterMesh([a, b], [])
    ensures Leaves(w, b.name, g, World(w.meshes[g := ClusterMesh([a], [])], w.peerings), false)
    ensures HasMember([a, b], b.name)
  {
    assert [a, b][1..] == [b] && [b][1..] == [] && RemoveMember([a, b], b.name) == [a];
    assert [a, b][1].name == b.name;
    assert Sort(StrLess, []) == [];
    assert UnlinkAll(b.name, [], Links([], w.peerings)) == Links([], w.peerings);
    hide RemoveMember, UnlinkAll, Sort, StrLess;
    assert World(w.meshes[g := ClusterMesh([a], [])], w.peerings) == Stored(w, g, [a], Links([], w.peerings));
  }

  /** A lost status update loses a peering: `b` joins `a`, the status update is lost, `b` leaves
      without any failure, and the peering of the two is still there. */
  lemma LostStatusLosesPeering(spec: string -> ClusterSpec, g: string, x: string, y: string)
    returns (v: World, z: World)
    requires Faithful(spec) && x != y
    ensures var w := World(map[g := ClusterMesh([spec(x)], [])], map[]);
      && ReconciledLosing(w, spec, Request(y, Some(g)), v, false, Deferred(true, false))
      && ReconciledLosing(v, spec, Request(y, None), z, false, WRITTEN)
    ensures PeeringName(y, x) in z.peerings && g in z.meshes && !HasMember(z.meshes[g].clusters, y)
  {
    var a, b := spec(x), spec(y);
    assert a.name == x && b.name == y;
    var w := World(map[g := ClusterMesh([a], [])], map[]);
    v := World(w.meshes[g := ClusterMesh([a, b], [])], map[PeeringName(y, x) := Peering(g, y, x)]);
    z := World(v.meshes[g := ClusterMesh([a], [])], v.peerings);
    hide JoinsLosing, Leaves, HasMember, PeeringName;
    OtherJoins(w, a, b, g, PeeringName(y, x));
    OtherLeaves(v, a, b, g);
    NewMember(a, b);
    assert Reconciled(v, spec, Request(y, None), z, false);
    hide *;
    NothingLost(v, spec, Request(y, None), z, false);
  }
}
