/** The cluster mesh: which peerings a join, a reconcile and a leave make and delete, as folds
    over the members and over the stored references. */
module Mesh {
  import opened Ordering
  import opened Records
  import opened Groups

  datatype ClusterSpec = ClusterSpec(
    vpcID: string,
    name: string,
    namespace: string,
    region: string,
    cidr: string,
    routeTables: seq<string>)

  /** A mesh: its members, and the names of the peerings in its status. */
  datatype ClusterMesh = ClusterMesh(clusters: seq<ClusterSpec>, refs: seq<string>)

  /** A VPC peering connection: the mesh that owns it and the clusters that it joins. */
  datatype Peering = Peering(owner: string, requester: string, accepter: string)

  type Meshes = map<string, ClusterMesh>
  type Peerings = map<string, Peering>

  datatype World = World(meshes: Meshes, peerings: Peerings)

  /** A Cluster to reconcile: its name, and its group if it has the label and the annotation. */
  datatype Request = Request(name: string, group: Option<string>)

  function PeeringName(x: string, y: string): string {
    x + "-" + y
  }

  predicate HasMember(clusters: seq<ClusterSpec>, name: string) {
    exists i | 0 <= i < |clusters| :: clusters[i].name == name
  }

  /** `IsVPCPeeringAlreadyCreated`, by either of the two names. */
  predicate IsPeered(refs: seq<string>, x: string, y: string) {
    PeeringName(x, y) in refs || PeeringName(y, x) in refs
  }

  function Owned(peerings: Peerings, g: string): set<string> {
    set n | n in peerings && peerings[n].owner == g
  }

  /** The references in the status and the peerings, while a reconcile works on one mesh. */
  datatype Links = Links(refs: seq<string>, peerings: Peerings)

  /** One turn of the loop of `ReconcilePeerings`. */
  function Link(g: string, self: ClusterSpec, c: ClusterSpec, l: Links): Links {
    if self == c || IsPeered(l.refs, self.name, c.name) then l
    else
      var n := PeeringName(self.name, c.name);
      Links(l.refs + [n], if n in l.peerings then l.peerings else l.peerings[n := Peering(g, self.name, c.name)])
  }

  function LinkAll(g: string, self: ClusterSpec, clusters: seq<ClusterSpec>, l: Links): Links {
    if clusters == [] then l
    else Link(g, self, clusters[|clusters| - 1], LinkAll(g, self, clusters[..|clusters| - 1], l))
  }

  /** `strings.Contains`. */
  predicate Contains(s: string, x: string) {
    exists i | 0 <= i <= |s| :: At(s, i, x)
  }

  predicate At(s: string, i: nat, x: string) {
    i + |x| <= |s| && s[i..i + |x|] == x
  }

  /** One turn of the loop of `reconcileDelete`. */
  function Unlink(x: string, n: string, l: Links): Links {
    if Contains(n, x) then Links(RemoveFirst(l.refs, n), l.peerings - {n}) else l
  }

  function UnlinkAll(x: string, names: seq<string>, l: Links): Links {
    if names == [] then l else Unlink(x, names[|names| - 1], UnlinkAll(x, names[..|names| - 1], l))
  }

  function RemoveMember(clusters: seq<ClusterSpec>, x: string): seq<ClusterSpec> {
    if clusters == [] then []
    else if clusters[0].name == x then clusters[1..]
    else [clusters[0]] + RemoveMember(clusters[1..], x)
  }

  function AddMember(clusters: seq<ClusterSpec>, self: ClusterSpec): seq<ClusterSpec> {
    if HasMember(clusters, self.name) then clusters else clusters + [self]
  }

  /** `names` lists the peerings that `g` owns, in any order. */
  ghost predicate Lists(names: seq<string>, peerings: Peerings, g: string) {
    NoDup(names) && forall n :: n in names <==> n in Owned(peerings, g)
  }

  /** The deferred write: the mesh with these members and the sorted references. */
  function Stored(w: World, g: string, clusters: seq<ClusterSpec>, l: Links): World {
    World(w.meshes[g := ClusterMesh(clusters, Sort(StrLess, l.refs))], l.peerings)
  }

  // ---- What one reconcile may do ----

  /** A reconcile of a cluster of group `g` whose spec is `self`. It fails before its first
      write, or makes the mesh, or adds the member and links a prefix of the members. */
  ghost predicate Joins(w: World, self: ClusterSpec, g: string, v: World, err: bool) {
    if err && v == w then true
    else if g !in w.meshes then !err && v == w.(meshes := w.meshes[g := ClusterMesh([self], [])])
    else JoinsMesh(w, self, g, v, err)
  }

  ghost predicate JoinsMesh(w: World, self: ClusterSpec, g: string, v: World, err: bool)
    requires g in w.meshes
  {
    var clusters := AddMember(w.meshes[g].clusters, self);
    || (err && v == Stored(w, g, clusters, Links(w.meshes[g].refs, w.peerings)))
    || exists names, k :: LinksPrefix(w, self, g, clusters, names, k, v, err)
  }

  ghost predicate LinksPrefix(w: World, self: ClusterSpec, g: string, clusters: seq<ClusterSpec>, names: seq<string>,
                              k: nat, v: World, err: bool)
  {
    && Lists(names, w.peerings, g) && k <= |clusters| && (!err ==> k == |clusters|)
    && v == Stored(w, g, clusters, LinkAll(g, self, clusters[..k], Links(names, w.peerings)))
  }

  /** A reconcile of a cluster outside of every group, which is a member of `g`. It fails before
      its first write, or deletes a prefix of the peerings whose names contain its name and, after
      all of them, the member. The write at the end is skipped when no member is left. */
  ghost predicate Leaves(w: World, x: string, g: string, v: World, err: bool)
    requires g in w.meshes
  {
    var m := w.meshes[g];
    || (err && v == w)
    || (err && exists k | 0 <= k <= |m.refs| ::
      v == Stored(w, g, m.clusters, UnlinkAll(x, m.refs[..k], Links(m.refs, w.peerings))))
    || (var l := UnlinkAll(x, m.refs, Links(m.refs, w.peerings));
        var rest := RemoveMember(m.clusters, x);
        if rest != [] then !err && v == Stored(w, g, rest, l)
        else if err then v == w.(peerings := l.peerings)
        else v == World(w.meshes - {g}, l.peerings))
  }

  ghost predicate Reconciled(w: World, spec: string -> ClusterSpec, r: Request, v: World, err: bool) {
    match r.group
    case Some(g) => Joins(w, spec(r.name), g, v, err)
    case None =>
      || (err && v == w)
      || (v == w && !err && forall g | g in w.meshes :: !HasMember(w.meshes[g].clusters, r.name))
      || exists g :: g in w.meshes && HasMember(w.meshes[g].clusters, r.name) && Leaves(w, r.name, g, v, err)
  }

  // ---- Lost deferred writes ----

  /** Whether the deferred patch of the members and the deferred update of the status arrive.
      If not, the reconcile only logs it. */
  datatype Deferred = Deferred(patched: bool, updated: bool)

  /** What is stored instead of `u` when deferred writes of mesh `g`, stored as `before`, are lost. */
  function Lose(u: World, g: string, before: ClusterMesh, d: Deferred): World {
    if g !in u.meshes then u
    else
      var m := u.meshes[g];
      var clusters := if d.patched then m.clusters else before.clusters;
      var refs := if d.updated then m.refs else before.refs;
      u.(meshes := u.meshes[g := ClusterMesh(clusters, refs)])
  }

  /** A join stores a new member before the deferred writes, unless that update fails. */
  ghost predicate JoinsLosing(w: World, self: ClusterSpec, g: string, v: World, err: bool, d: Deferred) {
    if g !in w.meshes then Joins(w, self, g, v, err)
    else
      exists u, clusters ::
        && Joins(w, self, g, u, err) && g in u.meshes
        && (clusters == u.meshes[g].clusters || (err && clusters == w.meshes[g].clusters))
        && v == Lose(u, g, ClusterMesh(clusters, w.meshes[g].refs), d)
  }

  ghost predicate LeavesLosing(w: World, x: string, g: string, v: World, err: bool, d: Deferred)
    requires g in w.meshes
  {
    exists u :: Leaves(w, x, g, u, err) && v == Lose(u, g, w.meshes[g], d)
  }

  ghost predicate ReconciledLosing(w: World, spec: string -> ClusterSpec, r: Request, v: World, err: bool,
                                   d: Deferred)
  {
    match r.group
    case Some(g) => JoinsLosing(w, spec(r.name), g, v, err, d)
    case None =>
      || (err && v == w)
      || (v == w && !err && forall g | g in w.meshes :: !HasMember(w.meshes[g].clusters, r.name))
      || exists g :: g in w.meshes && HasMember(w.meshes[g].clusters, r.name) && LeavesLosing(w, r.name, g, v, err, d)
  }

  lemma JoinLoses(w: World, self: ClusterSpec, g: string, u: World, clusters: seq<ClusterSpec>, err: bool, d: Deferred)
    requires g in w.meshes && g in u.meshes && Joins(w, self, g, u, err)
    requires clusters == u.meshes[g].clusters || (err && clusters == w.meshes[g].clusters)
    ensures JoinsLosing(w, self, g, Lose(u, g, ClusterMesh(clusters, w.meshes[g].refs), d), err, d)
  {
    hide Joins, Lose;
  }

  lemma LeaveLoses(w: World, x: string, g: string, u: World, err: bool, d: Deferred)
    requires g in w.meshes && Leaves(w, x, g, u, err)
    ensures LeavesLosing(w, x, g, Lose(u, g, w.meshes[g], d), err, d)
  {
    hide Leaves, Lose;
  }

  lemma LoseNothing(u: World, g: string, before: ClusterMesh, d: Deferred)
    requires g in u.meshes ==> u.meshes[g] == before
    ensures Lose(u, g, before, d) == u
  {
  }

  // ---- The hypotheses ----

  /** H1: a fresh spec is the stored one, so it is a function of the name. */
  ghost predicate Faithful(spec: string -> ClusterSpec) {
    forall x :: spec(x).name == x
  }

  /** H2: the joined names tell the clusters in use apart. */
  ghost predicate Unambiguous(used: set<string>) {
    forall x, y, u, v | x in used && y in used && u in used && v in used && PeeringName(x, y) == PeeringName(u, v) ::
      x == u && y == v
  }

  /** H3: a name in use is part of a peering's name only as an endpoint. */
  ghost predicate EndpointsOnly(used: set<string>) {
    forall x, u, v | x in used && u in used && v in used && Contains(PeeringName(u, v), x) :: x == u || x == v
  }

  /** H4: a cluster has a group only while it is in no mesh of another name. */
  ghost predicate StaysInGroup(w: World, r: Request) {
    r.group.Some? ==> forall g | g in w.meshes && g != r.group.value :: !HasMember(w.meshes[g].clusters, r.name)
  }

  // ---- The invariant ----

  ghost predicate Members(w: World, spec: string -> ClusterSpec, used: set<string>) {
    forall g | g in w.meshes :: MembersOf(w.meshes[g].clusters, spec, used)
  }

  ghost predicate DistinctMembers(clusters: seq<ClusterSpec>) {
    forall i, j | 0 <= i < j < |clusters| :: clusters[i].name != clusters[j].name
  }

  ghost predicate MembersOf(clusters: seq<ClusterSpec>, spec: string -> ClusterSpec, used: set<string>) {
    && clusters != []
    && (forall i | 0 <= i < |clusters| :: clusters[i] == spec(clusters[i].name) && clusters[i].name in used)
    && DistinctMembers(clusters)
  }

  ghost predicate OneMesh(w: World) {
    forall x, g, h | g in w.meshes && h in w.meshes && HasMember(w.meshes[g].clusters, x)
      && HasMember(w.meshes[h].clusters, x) :: g == h
  }

  ghost predicate RefsExact(w: World) {
    forall g | g in w.meshes :: Lists(w.meshes[g].refs, w.peerings, g)
  }

  ghost predicate Joining(w: World, n: string)
    requires n in w.peerings
  {
    var p := w.peerings[n];
    && n == PeeringName(p.requester, p.accepter) && p.requester != p.accepter && p.owner in w.meshes
    && HasMember(w.meshes[p.owner].clusters, p.requester) && HasMember(w.meshes[p.owner].clusters, p.accepter)
  }

  ghost predicate AllJoin(w: World) {
    forall n | n in w.peerings :: Joining(w, n)
  }

  predicate Opposite(p: Peering, q: Peering) {
    p.requester == q.accepter && p.accepter == q.requester
  }

  ghost predicate NoPairTwice(w: World) {
    forall n, m | n in w.peerings && m in w.peerings :: !Opposite(w.peerings[n], w.peerings[m])
  }

  /** What holds in every state, whatever failed before: members are unique and in one mesh,
      references name exactly the owned peerings, and every peering joins two distinct members
      of its mesh, no pair twice. */
  ghost predicate Inv(w: World, spec: string -> ClusterSpec, used: set<string>) {
    && Members(w, spec, used) && OneMesh(w) && RefsExact(w) && AllJoin(w) && NoPairTwice(w)
  }

  predicate Paired(peerings: Peerings, g: string, x: string, y: string) {
    || (PeeringName(x, y) in peerings && peerings[PeeringName(x, y)] == Peering(g, x, y))
    || (PeeringName(y, x) in peerings && peerings[PeeringName(y, x)] == Peering(g, y, x))
  }

  ghost predicate CompleteMesh(clusters: seq<ClusterSpec>, peerings: Peerings, g: string) {
    forall i, j | 0 <= i < j < |clusters| :: Paired(peerings, g, clusters[i].name, clusters[j].name)
  }

  /** Every mesh is a complete graph. */
  ghost predicate Complete(w: World) {
    forall g | g in w.meshes :: CompleteMesh(w.meshes[g].clusters, w.peerings, g)
  }
}
