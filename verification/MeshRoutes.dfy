/** The peerings of a complete mesh carry the routes of its members: the two parts of the mesh
    together. */
module MeshRoutes {
  import opened Ordering
  import opened Mesh
  import opened MeshComplete
  import Routes

  /** The part of a cluster that routes need. */
  function MemberOf(c: ClusterSpec): Routes.Member {
    Routes.Member(c.cidr, c.routeTables)
  }

  function MembersFor(clusters: seq<ClusterSpec>): seq<Routes.Member> {
    seq(|clusters|, i requires 0 <= i < |clusters| => MemberOf(clusters[i]))
  }

  /** The statuses of the listed peerings. */
  function LinksFor(names: seq<string>, status: string -> Routes.Link): seq<Routes.Link> {
    seq(|names|, i requires 0 <= i < |names| => status(names[i]))
  }

  /** The peerings of `g` are ready, and their statuses tell the blocks of the two clusters. */
  ghost predicate Told(w: World, g: string, spec: string -> ClusterSpec, status: string -> Routes.Link) {
    forall n | n in Owned(w.peerings, g) :: TellsBlocks(w.peerings[n], spec, status(n))
  }

  predicate TellsBlocks(p: Peering, spec: string -> ClusterSpec, l: Routes.Link) {
    && l.ready
    && l.requester == Routes.Block(spec(p.requester).cidr) && l.accepter == Routes.Block(spec(p.accepter).cidr)
  }

  ghost predicate DistinctBlocks(clusters: seq<ClusterSpec>) {
    forall i, j | 0 <= i < j < |clusters| :: clusters[i].cidr != clusters[j].cidr
  }

  lemma PairLinked(p: Peerings, g: string, spec: string -> ClusterSpec, names: seq<string>,
                   status: string -> Routes.Link, x: ClusterSpec, y: ClusterSpec) returns (n: string)
    requires Paired(p, g, x.name, y.name) && x == spec(x.name) && y == spec(y.name) && Lists(names, p, g)
    requires forall n | n in Owned(p, g) :: TellsBlocks(p[n], spec, status(n))
    ensures n in Owned(p, g) && status(n) in LinksFor(names, status)
    ensures p[n] == Peering(g, x.name, y.name) || p[n] == Peering(g, y.name, x.name)
    ensures Routes.Between(status(n), MemberOf(x), MemberOf(y))
  {
    hide PeeringName;
    var forth := PeeringName(x.name, y.name);
    n := if forth in p && p[forth] == Peering(g, x.name, y.name) then forth else PeeringName(y.name, x.name);
    assert n in Owned(p, g) && n in names;
    var i :| 0 <= i < |names| && names[i] == n;
    assert LinksFor(names, status)[i] == status(n);
  }

  /** A complete mesh whose peerings are ready is what the routes ask for. */
  lemma MeshMatches(w: World, g: string, spec: string -> ClusterSpec, used: set<string>, names: seq<string>,
                    status: string -> Routes.Link)
    requires g in w.meshes && MembersOf(w.meshes[g].clusters, spec, used)
    requires CompleteMesh(w.meshes[g].clusters, w.peerings, g) && DistinctBlocks(w.meshes[g].clusters)
    requires Lists(names, w.peerings, g) && Told(w, g, spec, status)
    ensures Routes.Matches(MembersFor(w.meshes[g].clusters), LinksFor(names, status))
  {
    var clusters := w.meshes[g].clusters;
    var members, links := MembersFor(clusters), LinksFor(names, status);
    hide Paired;
    forall l | l in links ensures l.ready && l.requester.Block? && l.accepter.Block? {
      var i :| 0 <= i < |links| && links[i] == l;
      assert names[i] in Owned(w.peerings, g);
    }
    forall i, j | 0 <= i < j < |members| ensures Routes.HasLink(links, members[i], members[j]) {
      var n := PairLinked(w.peerings, g, spec, names, status, clusters[i], clusters[j]);
    }
  }

  /** From the empty world to the routes: after any error-free run, once the peerings of a mesh are
      ready and every member has been reconciled, every two members have a peering over which each
      table of either has a route to the other, if and only if no other route has the wanted name. */
  lemma RunRoutes(worlds: seq<World>, requests: seq<Request>, spec: string -> ClusterSpec, used: set<string>, k: nat,
                  g: string, names: seq<string>, status: string -> Routes.Link, order: seq<Routes.Member>,
                  routes: Routes.RouteMap, i: nat, j: nat)
    requires Faithful(spec) && Unambiguous(used) && EndpointsOnly(used)
    requires ErrorFree(worlds, requests, spec, used) && k < |worlds| && g in worlds[k].meshes
    requires DistinctBlocks(worlds[k].meshes[g].clusters)
    requires Lists(names, worlds[k].peerings, g) && Told(worlds[k], g, spec, status)
    requires Routes.NamesApart(MembersFor(worlds[k].meshes[g].clusters), LinksFor(names, status))
    requires forall a :: a in order <==> a in MembersFor(worlds[k].meshes[g].clusters)
    requires i < j < |worlds[k].meshes[g].clusters|
    ensures var x, y := worlds[k].meshes[g].clusters[i], worlds[k].meshes[g].clusters[j];
      var p, after := worlds[k].peerings, Routes.WalkAll(order, LinksFor(names, status), routes);
      exists n :: n in Owned(p, g)
        && (p[n] == Peering(g, x.name, y.name) || p[n] == Peering(g, y.name, x.name))
        && BothRouted(after, routes, status(n), MemberOf(x), MemberOf(y))
  {
    ErrorFreeRunIsComplete(worlds, requests, spec, used, k);
    var w, clusters := worlds[k], worlds[k].meshes[g].clusters;
    assert CompleteMesh(clusters, w.peerings, g) && MembersOf(clusters, spec, used);
    assert clusters[i] == spec(clusters[i].name) && clusters[j] == spec(clusters[j].name);
    assert Paired(w.peerings, g, clusters[i].name, clusters[j].name);
    assert MembersFor(clusters)[i] == MemberOf(clusters[i]) && MembersFor(clusters)[j] == MemberOf(clusters[j]);
    assert forall n | n in Owned(w.peerings, g) :: TellsBlocks(w.peerings[n], spec, status(n));
    assert |MembersFor(clusters)| == |clusters|;
    hide *;
    MeshMatches(w, g, spec, used, names, status);
    Routes.RoutesComplete(order, LinksFor(names, status), routes, MembersFor(clusters), i, j);
    var n := PairLinked(w.peerings, g, spec, names, status, clusters[i], clusters[j]);
    BothRoutedIs(Routes.WalkAll(order, LinksFor(names, status), routes), routes, status(n),
                 MemberOf(clusters[i]), MemberOf(clusters[j]));
  }

  /** Routes in both directions, each exactly when `before` lets them be made. */
  predicate BothRouted(after: Routes.RouteMap, before: Routes.RouteMap, l: Routes.Link, a: Routes.Member,
                       b: Routes.Member)
  {
    && (Routes.Routed(after, l, a, b) <==> Routes.Carries(before, l, a, b))
    && (Routes.Routed(after, l, b, a) <==> Routes.Carries(before, l, b, a))
  }

  lemma BothRoutedIs(after: Routes.RouteMap, before: Routes.RouteMap, l: Routes.Link, a: Routes.Member,
                     b: Routes.Member)
    ensures BothRouted(after, before, l, a, b) <==>
      && (Routes.Routed(after, l, a, b) <==> Routes.Carries(before, l, a, b))
      && (Routes.Routed(after, l, b, a) <==> Routes.Carries(before, l, b, a))
  {
  }
}
