/** Runs from the empty world that show what fails without a hypothesis. */
module MeshExamples {
  import opened Ordering
  import opened Records
  import opened Mesh
  import opened MeshSafety
  import opened MeshComplete
  import opened LostWrites

  lemma {:induction false} LinkAllKeeps(g: string, self: ClusterSpec, clusters: seq<ClusterSpec>, l: Links)
    ensures Kept(l.peerings, LinkAll(g, self, clusters, l).peerings)
  {
    if clusters != [] {
      LinkAllKeeps(g, self, clusters[..|clusters| - 1], l);
      hide PeeringName, IsPeered;
    }
  }

  /** An error-free join of a mesh that is there. */
  lemma JoinOnce(w: World, self: ClusterSpec, g: string) returns (v: World)
    requires g in w.meshes
    ensures Joins(w, self, g, v, false) && v.meshes.Keys == w.meshes.Keys && Kept(w.peerings, v.peerings)
    ensures v.meshes[g].clusters == AddMember(w.meshes[g].clusters, self)
  {
    var names := Enumerate(Owned(w.peerings, g));
    var clusters := AddMember(w.meshes[g].clusters, self);
    assert Lists(names, w.peerings, g);
    LinksAll(w, self, g, clusters, names);
    LinkAllKeeps(g, self, clusters, Links(names, w.peerings));
    hide LinkAll, Lists, AddMember, Sort, StrLess, Joins;
    v := Stored(w, g, clusters, LinkAll(g, self, clusters, Links(names, w.peerings)));
  }

  /** The only mesh is `g`, and its members are these. */
  ghost predicate Just(w: World, g: string, clusters: seq<ClusterSpec>) {
    w.meshes.Keys == {g} && w.meshes[g].clusters == clusters
  }

  /** One more cluster joins the only mesh. */
  lemma JoinNext(w: World, spec: string -> ClusterSpec, g: string, clusters: seq<ClusterSpec>, x: string)
    returns (v: World)
    requires Faithful(spec) && Just(w, g, clusters) && !HasMember(clusters, x)
    ensures Just(v, g, clusters + [spec(x)]) && Kept(w.peerings, v.peerings)
    ensures Reconciled(w, spec, Request(x, Some(g)), v, false) && StaysInGroup(w, Request(x, Some(g)))
  {
    assert spec(x).name == x;
    hide Joins, Kept;
    v := JoinOnce(w, spec(x), g);
  }

  lemma FirstJoin(spec: string -> ClusterSpec, g: string, x: string, w: World)
    requires w == World(map[], map[])
    ensures var v := World(map[g := ClusterMesh([spec(x)], [])], map[]);
      && Just(v, g, [spec(x)])
      && Reconciled(w, spec, Request(x, Some(g)), v, false) && StaysInGroup(w, Request(x, Some(g)))
  {
  }

  /** The second cluster of a mesh makes its one peering. */
  lemma SecondJoin(w: World, spec: string -> ClusterSpec, g: string, x: string, y: string, n: string)
    returns (v: World)
    requires Faithful(spec) && x != y && n == PeeringName(y, x)
    requires w == World(map[g := ClusterMesh([spec(x)], [])], map[])
    ensures Just(v, g, [spec(x), spec(y)]) && n in v.peerings && v.peerings[n] == Peering(g, y, x)
    ensures Reconciled(w, spec, Request(y, Some(g)), v, false) && StaysInGroup(w, Request(y, Some(g)))
  {
    var a, b := spec(x), spec(y);
    assert a.name == x && b.name == y && Lists([], w.peerings, g);
    hide LinkAll, Lists, AddMember, Sort, StrLess, Joins, PeeringName, HasMember;
    NewMember(a, b);
    OneLink(a, b, g, n);
    LinksAll(w, b, g, [a, b], []);
    v := Stored(w, g, [a, b], Links([n], map[n := Peering(g, y, x)]));
  }

  /** Four names of which the first two and the last two have the same joined name, and no other joined
      name of the first three is that of the last two the other way round. */
  predicate Ambiguous(x: string, y: string, z: string, t: string) {
    && x != y && x != z && x != t && y != z && y != t && z != t
    && PeeringName(y, x) == PeeringName(t, z) && NotJoined(x, y, z, PeeringName(z, t))
  }

  predicate NotJoined(x: string, y: string, z: string, n: string) {
    && n != PeeringName(x, y) && n != PeeringName(y, x) && n != PeeringName(x, z)
    && n != PeeringName(z, x) && n != PeeringName(y, z) && n != PeeringName(z, y)
  }

  lemma AmbiguousNames()
    ensures Ambiguous("b-c", "a", "c", "a-b")
  {
    assert PeeringName("a", "b-c") == "a-b-c" && PeeringName("a-b", "c") == "a-b-c";
    var n := PeeringName("c", "a-b");
    assert |n| == 5 && n[0] == 'c' && n[2] == 'a';
    assert PeeringName("c", "b-c")[2] == 'b' && PeeringName("b-c", "a")[0] == 'b' && PeeringName("a", "b-c")[0] == 'a';
    assert PeeringName("b-c", "c")[0] == 'b' && |PeeringName("a", "c")| == 3 && |PeeringName("c", "a")| == 3;
  }

  lemma NameFree(w: World, spec: string -> ClusterSpec, x: string, y: string, z: string, n: string)
    requires Loose(w, spec, {x, y, z}) && NotJoined(x, y, z, n)
    ensures n !in w.peerings
  {
    assert AllNamed(w.peerings, {x, y, z});
    hide Loose, PeeringName;
    forall m | m in w.peerings ensures m != n {
      var p := w.peerings[m];
      assert Named(m, p, {x, y, z});
    }
  }

  ghost function JoinRequests(g: string, x: string, y: string, z: string, t: string): seq<Request> {
    [Request(x, Some(g)), Request(y, Some(g)), Request(z, Some(g)), Request(t, Some(g))]
  }

  ghost predicate Follows(w: World, spec: string -> ClusterSpec, r: Request, v: World) {
    StaysInGroup(w, r) && Reconciled(w, spec, r, v, false)
  }

  /** Four clusters join one mesh. */
  lemma FourJoin(spec: string -> ClusterSpec, g: string, x: string, y: string, z: string, t: string, n: string)
    returns (v: World, a: World, b: World, c: World)
    requires Faithful(spec) && Ambiguous(x, y, z, t) && n == PeeringName(y, x)
    ensures Follows(World(map[], map[]), spec, Request(x, Some(g)), v) && Follows(v, spec, Request(y, Some(g)), a)
    ensures Follows(a, spec, Request(z, Some(g)), b) && Follows(b, spec, Request(t, Some(g)), c)
    ensures Just(b, g, [spec(x), spec(y), spec(z)]) && Just(c, g, [spec(x), spec(y), spec(z), spec(t)])
    ensures n in b.peerings && b.peerings[n] == Peering(g, y, x)
  {
    Absent(spec, x, y, z, t);
    FirstJoin(spec, g, x, World(map[], map[]));
    assert [spec(x), spec(y)] + [spec(z)] == [spec(x), spec(y), spec(z)];
    assert [spec(x), spec(y), spec(z)] + [spec(t)] == [spec(x), spec(y), spec(z), spec(t)];
    hide Reconciled, PeeringName, HasMember, StaysInGroup, Faithful, Just, NotJoined;
    v := World(map[g := ClusterMesh([spec(x)], [])], map[]);
    a := SecondJoin(v, spec, g, x, y, n);
    b := JoinNext(a, spec, g, [spec(x), spec(y)], z);
    c := JoinNext(b, spec, g, [spec(x), spec(y), spec(z)], t);
  }

  lemma Absent(spec: string -> ClusterSpec, x: string, y: string, z: string, t: string)
    requires Faithful(spec) && x != z && y != z && x != t && y != t && z != t
    ensures !HasMember([spec(x), spec(y)], z) && !HasMember([spec(x), spec(y), spec(z)], t)
  {
    assert spec(x).name == x && spec(y).name == y && spec(z).name == z;
  }

  /** Without H2: four clusters with such names, like "b-c", "a", "c" and "a-b", join one mesh without any
      failure. The peering of the first two has the name that the last two need, and these, both
      members at the end, have none. */
  lemma AmbiguousRun(spec: string -> ClusterSpec, g: string, x: string, y: string, z: string, t: string)
    returns (worlds: seq<World>)
    requires Faithful(spec) && Ambiguous(x, y, z, t)
    ensures ErrorFree(worlds, JoinRequests(g, x, y, z, t), spec, {x, y, z, t})
    ensures Just(worlds[4], g, [spec(x), spec(y), spec(z), spec(t)]) && !Paired(worlds[4].peerings, g, t, z)
  {
    var w0 := World(map[], map[]);
    var w1, w2, w3, w4 := FourJoin(spec, g, x, y, z, t, PeeringName(y, x));
    assert NotJoined(x, y, z, PeeringName(z, t));
    hide *;
    var used := {x, y, z};
    EmptyLoose(spec, used);
    FollowsLoose(w0, spec, Request(x, Some(g)), w1, used);
    FollowsLoose(w1, spec, Request(y, Some(g)), w2, used);
    FollowsLoose(w2, spec, Request(z, Some(g)), w3, used);
    NameFree(w3, spec, x, y, z, PeeringName(z, t));
    LastJoin(w3, spec, g, x, y, z, t, w4);
    worlds := [w0, w1, w2, w3, w4];
    FourSteps(worlds, spec, g, x, y, z, t);
  }

  lemma LastJoin(w: World, spec: string -> ClusterSpec, g: string, x: string, y: string, z: string, t: string, v: World)
    requires Faithful(spec) && Ambiguous(x, y, z, t) && Just(w, g, [spec(x), spec(y), spec(z)])
    requires Follows(w, spec, Request(t, Some(g)), v)
    requires PeeringName(y, x) in w.peerings && w.peerings[PeeringName(y, x)] == Peering(g, y, x)
    requires PeeringName(z, t) !in w.peerings
    ensures !Paired(v.peerings, g, t, z)
  {
    var clusters, more := [spec(x), spec(y), spec(z)], [spec(x), spec(y), spec(z), spec(t)];
    assert spec(x).name == x && spec(y).name == y && spec(z).name == z && spec(t).name == t;
    assert clusters + [spec(t)] == more;
    assert AddMember(clusters, spec(t)) == more && DistinctMembers(more) && more[2].name == z;
    assert PeeringName(t, z) in Owned(w.peerings, g);
    assert Taken(Owned(w.peerings, g), spec(t), more, 2);
    hide Reconciled, PeeringName, StaysInGroup, AddMember, Taken, DistinctMembers, Owned, NotJoined;
    PairedExactly(w, spec, Request(t, Some(g)), v, 2);
  }

  lemma FourSteps(worlds: seq<World>, spec: string -> ClusterSpec, g: string, x: string, y: string, z: string,
                  t: string)
    requires |worlds| == 5 && worlds[0] == World(map[], map[])
    requires Follows(worlds[0], spec, Request(x, Some(g)), worlds[1])
    requires Follows(worlds[1], spec, Request(y, Some(g)), worlds[2])
    requires Follows(worlds[2], spec, Request(z, Some(g)), worlds[3])
    requires Follows(worlds[3], spec, Request(t, Some(g)), worlds[4])
    ensures ErrorFree(worlds, JoinRequests(g, x, y, z, t), spec, {x, y, z, t})
  {
    hide Reconciled, StaysInGroup;
    var rs := JoinRequests(g, x, y, z, t);
    forall i | 0 <= i < |rs|
      ensures rs[i].name in {x, y, z, t} && Follows(worlds[i], spec, rs[i], worlds[i + 1])
    {
      assert i == 0 || i == 1 || i == 2 || i == 3;
    }
  }

  lemma EmptyLoose(spec: string -> ClusterSpec, used: set<string>)
    ensures Loose(World(map[], map[]), spec, used)
  {
  }

  lemma FollowsLoose(w: World, spec: string -> ClusterSpec, r: Request, v: World, used: set<string>)
    requires Loose(w, spec, used) && Faithful(spec) && r.name in used && Follows(w, spec, r, v)
    ensures Loose(v, spec, used)
  {
    assert StaysInGroup(w, r) && Reconciled(w, spec, r, v, false);
    hide *;
    NothingLost(w, spec, r, v, false);
    LosingKeeps(w, spec, r, v, false, WRITTEN, used);
  }
}
