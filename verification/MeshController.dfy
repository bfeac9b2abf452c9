/** The reconcile of a Cluster as the methods that run it: they change a mesh that was read into
    memory, make and delete peerings on the way, and write the mesh back at the end. */
module MeshController {
  import opened Ordering
  import opened Records
  import opened Groups
  import opened Mesh

  lemma LinkNext(g: string, self: ClusterSpec, clusters: seq<ClusterSpec>, k: nat, l: Links)
    requires k < |clusters|
    ensures LinkAll(g, self, clusters[..k + 1], l) == Link(g, self, clusters[k], LinkAll(g, self, clusters[..k], l))
  {
    assert clusters[..k + 1][..k] == clusters[..k];
  }

  lemma LinkNone(g: string, self: ClusterSpec, clusters: seq<ClusterSpec>, l: Links)
    requires clusters == []
    ensures LinkAll(g, self, clusters, l) == l
  {
  }

  lemma UnlinkNext(x: string, names: seq<string>, k: nat, l: Links)
    requires k < |names|
    ensures UnlinkAll(x, names[..k + 1], l) == Unlink(x, names[k], UnlinkAll(x, names[..k], l))
  {
    assert names[..k + 1][..k] == names[..k];
  }

  lemma UnlinkNone(x: string, names: seq<string>, l: Links)
    requires names == []
    ensures UnlinkAll(x, names, l) == l
  {
  }

  lemma {:induction false} RemoveMemberAt(clusters: seq<ClusterSpec>, x: string, i: nat)
    requires i < |clusters| && clusters[i].name == x && forall j | 0 <= j < i :: clusters[j].name != x
    ensures RemoveMember(clusters, x) == clusters[..i] + clusters[i + 1..]
  {
    if i > 0 {
      assert clusters[1..][i - 1].name == x;
      forall j | 0 <= j < i - 1 ensures clusters[1..][j].name != x {
        assert clusters[1..][j] == clusters[j + 1];
      }
      RemoveMemberAt(clusters[1..], x, i - 1);
      hide RemoveMember;
      HeadAndSlices(clusters, i);
    }
  }

  lemma HeadAndSlices<T>(s: seq<T>, i: nat)
    requires 0 < i < |s|
    ensures [s[0]] + (s[1..][..i - 1] + s[1..][i..]) == s[..i] + s[i + 1..]
  {
  }

  lemma {:induction false} RemoveNobody(clusters: seq<ClusterSpec>, x: string)
    requires forall i | 0 <= i < |clusters| :: clusters[i].name != x
    ensures RemoveMember(clusters, x) == clusters
  {
    if clusters != [] {
      var rest := clusters[1..];
      forall i | 0 <= i < |rest| ensures rest[i].name != x {
        assert rest[i] == clusters[i + 1];
      }
      RemoveNobody(rest, x);
      assert [clusters[0]] + rest == clusters;
    }
  }

  lemma RemoveNoMember(clusters: seq<ClusterSpec>, x: string)
    requires !HasMember(clusters, x)
    ensures RemoveMember(clusters, x) == clusters
  {
    hide RemoveMember;
    RemoveNobody(clusters, x);
  }

  /** At most `n` calls were made. */
  predicate Spent(before: Option<nat>, now: Option<nat>, n: nat) {
    match before
    case None => now.None?
    case Some(b) => now.Some? && now.value <= b <= now.value + n
  }

  /** No mesh has so many members or references that a reconcile would need more calls. */
  ghost predicate Enough(w: World, r: Request, calls: Option<nat>) {
    calls.Some? ==>
      match r.group
      case Some(g) => calls.value > if g in w.meshes then |w.meshes[g].clusters| + 8 else 3
      case None => calls.value > 1 && forall g | g in w.meshes :: calls.value > |w.meshes[g].refs| + 4
  }

  class Reconciliation {
    /** What the API server stores. */
    var meshes: Meshes
    var peerings: Peerings
    /** How many calls succeed before one fails, if one does. */
    var left: Option<nat>
    /** Which of the deferred writes arrive. */
    const deferred: Deferred
    /** The mesh in memory. */
    var name: string
    var clusters: seq<ClusterSpec>
    var refs: seq<string>

    constructor (meshes: Meshes, peerings: Peerings, left: Option<nat>, deferred: Deferred)
      ensures this.meshes == meshes && this.peerings == peerings && this.left == left && this.deferred == deferred
    {
      this.meshes, this.peerings, this.left, this.deferred := meshes, peerings, left, deferred;
      name, clusters, refs := "", [], [];
    }

    function Stored(): World
      reads this
    {
      World(meshes, peerings)
    }

    /** A call to the API server or to AWS; a failed call has no effect. */
    method Call() returns (ok: bool)
      modifies this`left
      ensures ok <==> old(left) != Some(0)
      ensures Spent(old(left), left, 1) && (ok && left.Some? ==> old(left) == Some(left.value + 1))
    {
      ok := left != Some(0);
      if left.Some? && left.value > 0 {
        left := Some(left.value - 1);
      }
    }

    /** `GetOwnedVPCPeeringConnectionsRef`: the server lists them in any order. */
    method OwnedRefs() returns (names: seq<string>)
      ensures Lists(names, peerings, name)
    {
      names := [];
      var todo := peerings.Keys;
      while todo != {}
        invariant todo <= peerings.Keys && NoDup(names)
        invariant forall n :: n in names <==> n in Owned(peerings, name) && n !in todo
        decreases |todo|
      {
        var n :| n in todo;
        todo := todo - {n};
        if peerings[n].owner == name {
          names := names + [n];
        }
      }
    }

    /** `IsVPCPeeringAlreadyCreated`. */
    method IsAlreadyPeered(x: string, y: string) returns (yes: bool)
      ensures yes <==> IsPeered(refs, x, y)
    {
      for i := 0 to |refs|
        invariant forall j | 0 <= j < i :: refs[j] != PeeringName(x, y) && refs[j] != PeeringName(y, x)
      {
        if refs[i] == PeeringName(x, y) || refs[i] == PeeringName(y, x) {
          return true;
        }
      }
      return false;
    }

    /** `CreateCrossplaneVPCPeeringConnection`: a peering that exists already is only referenced. */
    method CreatePeering(self: ClusterSpec, c: ClusterSpec) returns (err: bool)
      requires self != c && !IsPeered(refs, self.name, c.name)
      modifies this`peerings, this`refs, this`left
      ensures err ==> peerings == old(peerings) && refs == old(refs) && left == Some(0)
      ensures !err ==> Links(refs, peerings) == Link(name, self, c, Links(old(refs), old(peerings)))
      ensures Spent(old(left), left, 1)
    {
      var ok := Call();
      if !ok {
        return true;
      }
      var n := PeeringName(self.name, c.name);
      if n !in peerings {
        peerings := peerings[n := Peering(name, self.name, c.name)];
      }
      refs := refs + [n];
      return false;
    }

    /** The loop of `ReconcilePeerings`, after the references were listed afresh. */
    method LinkMembers(self: ClusterSpec) returns (err: bool, ghost k: nat)
      modifies this`peerings, this`refs, this`left
      ensures k <= |clusters| && (!err ==> k == |clusters|)
      ensures Links(refs, peerings) == LinkAll(name, self, clusters[..k], Links(old(refs), old(peerings)))
      ensures err ==> left == Some(0)
      ensures Spent(old(left), left, |clusters|)
    {
      k := 0;
      LinkNone(name, self, clusters[..0], Links(refs, peerings));
      var i := 0;
      while i < |clusters|
        invariant k == i <= |clusters|
        invariant Links(refs, peerings) == LinkAll(name, self, clusters[..i], Links(old(refs), old(peerings)))
        invariant Spent(old(left), left, i)
      {
        hide LinkAll;
        LinkNext(name, self, clusters, i, Links(old(refs), old(peerings)));
        if self != clusters[i] {
          var peered := IsAlreadyPeered(self.name, clusters[i].name);
          if !peered {
            err := CreatePeering(self, clusters[i]);
            if err {
              return;
            }
          }
        }
        i := i + 1;
        k := i;
      }
      return false, k;
    }

    /** `DeleteCrossplaneVPCPeeringConnection`: the reference goes with the peering. */
    method DeletePeering(n: string) returns (err: bool)
      modifies this`peerings, this`refs, this`left
      ensures err ==> peerings == old(peerings) && refs == old(refs) && left == Some(0)
      ensures !err ==> peerings == old(peerings) - {n} && refs == RemoveFirst(old(refs), n)
      ensures Spent(old(left), left, 1)
    {
      var ok := Call();
      if !ok {
        return true;
      }
      peerings := peerings - {n};
      var i := 0;
      while i < |refs|
        invariant 0 <= i <= |refs| && refs == old(refs) && n !in refs[..i]
      {
        if refs[i] == n {
          RemoveFirstAt(refs, n, i);
          refs := refs[..i] + refs[i + 1..];
          return false;
        }
        i := i + 1;
      }
      RemoveNone(refs, n);
      return false;
    }

    /** The peerings of the cluster that leaves, by the references of a copy of the status. */
    method DeletePeerings(x: string) returns (err: bool, ghost k: nat)
      modifies this`peerings, this`refs, this`left
      ensures k <= |old(refs)| && (!err ==> k == |old(refs)|)
      ensures Links(refs, peerings) == UnlinkAll(x, old(refs)[..k], Links(old(refs), old(peerings)))
      ensures err ==> left == Some(0)
      ensures Spent(old(left), left, |old(refs)|)
    {
      var names := refs;
      k := 0;
      UnlinkNone(x, names[..0], Links(refs, peerings));
      var i := 0;
      while i < |names|
        invariant k == i <= |names| && names == old(refs)
        invariant Links(refs, peerings) == UnlinkAll(x, names[..i], Links(names, old(peerings)))
        invariant Spent(old(left), left, i)
      {
        hide UnlinkAll, Contains;
        UnlinkNext(x, names, i, Links(names, old(peerings)));
        if Contains(names[i], x) {
          err := DeletePeering(names[i]);
          if err {
            return;
          }
        }
        i := i + 1;
        k := i;
      }
      return false, k;
    }

    method RemoveFromSpec(x: string)
      modifies this`clusters
      ensures clusters == RemoveMember(old(clusters), x)
    {
      var i := 0;
      while i < |clusters|
        invariant 0 <= i <= |clusters| && clusters == old(clusters)
        invariant forall j | 0 <= j < i :: clusters[j].name != x
      {
        if clusters[i].name == x {
          RemoveMemberAt(clusters, x, i);
          clusters := clusters[..i] + clusters[i + 1..];
          return;
        }
        i := i + 1;
      }
      RemoveNoMember(clusters, x);
    }

    method IsMember(cs: seq<ClusterSpec>, x: string) returns (yes: bool)
      ensures yes <==> HasMember(cs, x)
    {
      for i := 0 to |cs|
        invariant forall j | 0 <= j < i :: cs[j].name != x
      {
        if cs[i].name == x {
          return true;
        }
      }
      return false;
    }

    /** `isClusterBelongToAnyMesh`: some mesh with the cluster, as the server lists them. */
    method FindMesh(x: string) returns (found: Option<string>)
      ensures found.Some? ==> found.value in meshes && HasMember(meshes[found.value].clusters, x)
      ensures found.None? ==> forall g | g in meshes :: !HasMember(meshes[g].clusters, x)
    {
      var todo := meshes.Keys;
      while todo != {}
        invariant todo <= meshes.Keys
        invariant forall g | g in meshes && g !in todo :: !HasMember(meshes[g].clusters, x)
        decreases |todo|
      {
        var g :| g in todo;
        var yes := IsMember(meshes[g].clusters, x);
        if yes {
          return Some(g);
        }
        todo := todo - {g};
      }
      return None;
    }

    /** The deferred patch of the members and the deferred update of the status, either of which may
        be lost. Both are skipped when the mesh in memory has no members. */
    method WriteBack()
      requires clusters != [] ==> name in meshes
      modifies this`meshes
      ensures clusters == [] ==> meshes == old(meshes)
      ensures clusters != [] ==>
        var u := Mesh.Stored(old(Stored()), name, clusters, Links(refs, peerings));
        Stored() == Lose(u, name, old(meshes)[name], deferred)
    {
      if |clusters| > 0 {
        if deferred.patched {
          meshes := meshes[name := ClusterMesh(clusters, meshes[name].refs)];
        }
        if deferred.updated {
          meshes := meshes[name := ClusterMesh(meshes[name].clusters, Sort(StrLess, refs))];
        }
      }
    }

    /** The security group, the routes and the conditions, which may fail as well. */
    method OtherStages() returns (err: bool)
      modifies this`left
      ensures err ==> left == Some(0)
      ensures Spent(old(left), left, 3)
    {
      var sg := Call();
      if !sg {
        return true;
      }
      var routes := Call();
      if !routes {
        return true;
      }
      var conditions := Call();
      return !conditions;
    }

    /** Adds the cluster to the mesh, in memory and, if the update succeeds, in the server. */
    method Enroll(self: ClusterSpec) returns (err: bool)
      requires name in meshes && clusters == meshes[name].clusters && refs == meshes[name].refs
      modifies this`meshes, this`left, this`clusters
      ensures clusters == AddMember(old(clusters), self)
      ensures meshes.Keys == old(meshes).Keys && forall g | g in meshes && g != name :: meshes[g] == old(meshes)[g]
      ensures meshes[name] == ClusterMesh(if err then old(clusters) else clusters, refs)
      ensures err ==> left == Some(0)
      ensures Spent(old(left), left, 1)
    {
      var member := IsMember(clusters, self.name);
      if !member {
        clusters := clusters + [self];
        var ok := Call();
        if !ok {
          return true;
        }
        meshes := meshes[name := ClusterMesh(clusters, refs)];
      }
      return false;
    }

    /** `reconcileExternalResources`. */
    method ReconcileResources(self: ClusterSpec)
      returns (err: bool, ghost listed: bool, ghost names: seq<string>, ghost k: nat)
      modifies this`peerings, this`left, this`refs
      ensures err ==> left == Some(0)
      ensures Spent(old(left), left, |clusters| + 4)
      ensures !listed ==> err && refs == old(refs) && peerings == old(peerings)
      ensures listed ==> Lists(names, old(peerings), name) && k <= |clusters| && (!err ==> k == |clusters|)
      ensures listed ==> Links(refs, peerings) == LinkAll(name, self, clusters[..k], Links(names, old(peerings)))
    {
      hide Lists, LinkAll;
      k := 0;
      var owned := OwnedRefs();
      names := owned;
      var ok := Call();
      if !ok {
        return true, false, names, k;
      }
      refs := owned;
      listed := true;
      err, k := LinkMembers(self);
      if !err {
        err := OtherStages();
      }
    }

    /** `reconcileNormal` after the mesh was read, up to the deferred write. */
    method JoinMesh(self: ClusterSpec) returns (err: bool)
      requires name in meshes && clusters == meshes[name].clusters && refs == meshes[name].refs
      modifies this`meshes, this`peerings, this`left, this`clusters, this`refs
      ensures var v := Mesh.Stored(old(Stored()), name, clusters, Links(refs, peerings));
        JoinsMesh(old(Stored()), self, name, v, err)
      ensures clusters == AddMember(old(clusters), self)
      ensures meshes.Keys == old(meshes).Keys && forall g | g in meshes && g != name :: meshes[g] == old(meshes)[g]
      ensures meshes[name].refs == old(refs)
      ensures meshes[name].clusters == clusters || (err && meshes[name].clusters == old(clusters))
      ensures err ==> left == Some(0)
      ensures Spent(old(left), left, |clusters| + 5)
    {
      hide Lists, LinkAll, Sort, StrLess, AddMember;
      ghost var w := Stored();
      err := Enroll(self);
      if err {
        return;
      }
      ghost var listed, names, k;
      err, listed, names, k := ReconcileResources(self);
      assert listed ==>
        LinksPrefix(w, self, name, clusters, names, k, Mesh.Stored(w, name, clusters, Links(refs, peerings)), err);
    }

    /** `reconcileNormal` with the deferred write. */
    method ReconcileNormal(self: ClusterSpec, g: string) returns (err: bool)
      modifies this
      ensures JoinsLosing(old(Stored()), self, g, Stored(), err, deferred)
      ensures err ==> left == Some(0)
      ensures Spent(old(left), left, if g in old(meshes) then |old(meshes)[g].clusters| + 8 else 3)
    {
      hide JoinsMesh, AddMember, Sort, StrLess, JoinsLosing, Lose;
      name, clusters, refs := g, [], [];
      ghost var w := Stored();
      JoinUntouched(w, self, g, deferred);
      var populated := Call();
      if !populated {
        return true;
      }
      var got := Call();
      if !got {
        return true;
      }
      if g !in meshes {
        var created := Call();
        if !created {
          return true;
        }
        meshes := meshes[g := ClusterMesh([self], [])];
        JoinCreates(w, self, g, deferred);
        return false;
      }
      clusters, refs := meshes[g].clusters, meshes[g].refs;
      AddMemberSome(clusters, self);
      err := JoinMesh(self);
      ghost var u := Mesh.Stored(w, g, clusters, Links(refs, peerings));
      assert Stored() == World(w.meshes[g := meshes[g]], peerings);
      StoredTwice(w, g, meshes[g], clusters, Links(refs, peerings));
      JoinLoses(w, self, g, u, meshes[g].clusters, err, deferred);
      assert meshes[g] == ClusterMesh(meshes[g].clusters, w.meshes[g].refs);
      WriteBack();
    }

    /** `reconcileDelete` with the deferred write. */
    method ReconcileDelete(x: string, g: string) returns (err: bool)
      requires g in meshes && HasMember(meshes[g].clusters, x)
      modifies this
      ensures LeavesLosing(old(Stored()), x, g, Stored(), err, deferred)
      ensures err ==> left == Some(0)
      ensures Spent(old(left), left, |old(meshes)[g].refs| + 3)
    {
      hide HasMember, UnlinkAll, RemoveMember, Sort, StrLess, LeavesLosing;
      ghost var w, m := Stored(), meshes[g];
      LeaveUntouched(w, x, g, deferred);
      HasSome(m.clusters, x);
      name, clusters, refs := g, [], [];
      var got := Call();
      if !got {
        return true;
      }
      clusters, refs := meshes[g].clusters, meshes[g].refs;
      UnlinkNone(x, m.refs[..0], Links(refs, peerings));
      assert forall k: nat | k <= |m.refs| :: m.refs[..k] <= m.refs;
      var sg := Call();
      if !sg {
        ghost var u := Mesh.Stored(w, g, m.clusters, UnlinkAll(x, m.refs[..0], Links(m.refs, w.peerings)));
        LeaveLoses(w, x, g, u, true, deferred);
        WriteBack();
        return true;
      }
      ghost var k;
      err, k := DeletePeerings(x);
      if err {
        ghost var u := Mesh.Stored(w, g, m.clusters, UnlinkAll(x, m.refs[..k], Links(m.refs, w.peerings)));
        LeaveLoses(w, x, g, u, true, deferred);
        WriteBack();
        return;
      }
      assert m.refs[..k] == m.refs;
      RemoveFromSpec(x);
      if |clusters| == 0 {
        var deleted := Call();
        if !deleted {
          LeaveLoses(w, x, g, Stored(), true, deferred);
          LoseNothing(Stored(), g, m, deferred);
          return true;
        }
        meshes := meshes - {g};
        LeaveLoses(w, x, g, Stored(), false, deferred);
        LoseNothing(Stored(), g, m, deferred);
      } else {
        LeaveLoses(w, x, g, Mesh.Stored(w, g, clusters, Links(refs, peerings)), false, deferred);
      }
      WriteBack();
    }

    /** The reconcile of a Cluster. */
    method Reconcile(spec: string -> ClusterSpec, r: Request) returns (err: bool)
      modifies this
      ensures ReconciledLosing(old(Stored()), spec, r, Stored(), err, deferred)
      ensures err ==> left == Some(0)
      ensures Enough(old(Stored()), r, old(left)) ==> !err
    {
      hide JoinsLosing, LeavesLosing;
      if r.group.Some? {
        err := ReconcileNormal(spec(r.name), r.group.value);
        return;
      }
      var listed := Call();
      if !listed {
        return true;
      }
      var found := FindMesh(r.name);
      if found.Some? {
        err := ReconcileDelete(r.name, found.value);
      } else {
        err := false;
      }
    }
  }

  lemma JoinUntouched(w: World, self: ClusterSpec, g: string, d: Deferred)
    ensures JoinsLosing(w, self, g, w, true, d)
  {
    if g in w.meshes {
      JoinLoses(w, self, g, w, w.meshes[g].clusters, true, d);
      LoseNothing(w, g, w.meshes[g], d);
    }
  }

  lemma JoinCreates(w: World, self: ClusterSpec, g: string, d: Deferred)
    requires g !in w.meshes
    ensures JoinsLosing(w, self, g, w.(meshes := w.meshes[g := ClusterMesh([self], [])]), false, d)
  {
  }

  lemma LeaveUntouched(w: World, x: string, g: string, d: Deferred)
    requires g in w.meshes
    ensures LeavesLosing(w, x, g, w, true, d)
  {
    LeaveLoses(w, x, g, w, true, d);
    LoseNothing(w, g, w.meshes[g], d);
  }

  /** Storing over what an earlier update of the same mesh stored. */
  lemma StoredTwice(w: World, g: string, before: ClusterMesh, clusters: seq<ClusterSpec>, l: Links)
    requires g in w.meshes
    ensures Stored(World(w.meshes[g := before], l.peerings), g, clusters, l) == Stored(w, g, clusters, l)
  {
  }

  lemma AddMemberSome(clusters: seq<ClusterSpec>, self: ClusterSpec)
    ensures AddMember(clusters, self) != [] && |AddMember(clusters, self)| <= |clusters| + 1
  {
    if HasMember(clusters, self.name) {
      HasSome(clusters, self.name);
    }
  }

  lemma HasSome(clusters: seq<ClusterSpec>, x: string)
    requires HasMember(clusters, x)
    ensures clusters != []
  {
  }
}
