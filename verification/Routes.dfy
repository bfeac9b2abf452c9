/** Routes over the peerings of a mesh: what one reconcile of a member creates, and what all of
    them together complete. */
module Routes {
  import opened Records
  import Report

  /** What the status of a peering tells of one of its VPCs: nothing, no CIDR block, or the block. */
  datatype Vpc = NoInfo | NoBlock | Block(cidr: string)

  /** A peering that a mesh owns, as its status tells it. */
  datatype Link = Link(id: string, requester: Vpc, accepter: Vpc, ready: bool)

  /** The part of a member that routes need. */
  datatype Member = Member(cidr: string, tables: seq<string>)

  datatype Route = Route(cidr: string, id: string, table: string)

  type RouteMap = map<string, Route>

  function RouteName(table: string, id: string): string {
    table + "-" + id
  }

  /** How a reconcile of the routes ends: with all done, with a peering that is not ready, with a
      failed call, or by reading VPC information or a CIDR block that is missing. */
  datatype End = Finished | Requeue | Failed | Panicked

  /** Whether a peering is the member's, and the CIDR block on its other side. */
  datatype Side = NotMine | Missing | To(cidr: string)

  /** The accepter is looked at first; the requester only if the accepter is there. The block of
      the other side is read without a check. */
  function SideOf(a: Member, l: Link): Side {
    if l.accepter.NoInfo? then Missing
    else if l.accepter == Block(a.cidr) then Across(l.requester)
    else if l.requester.NoInfo? then Missing
    else if l.requester == Block(a.cidr) then Across(l.accepter)
    else NotMine
  }

  function Across(other: Vpc): Side {
    if other.Block? then To(other.cidr) else Missing
  }

  /** The peering joins the VPCs of these two blocks. */
  predicate Joins(l: Link, c: string, d: string) {
    (l.requester == Block(c) && l.accepter == Block(d)) || (l.requester == Block(d) && l.accepter == Block(c))
  }

  /** The walk needs something of the peering that its status does not tell: the accepter, the requester
      unless the accepter is the member, or the block on the other side of the member. */
  predicate Untold(a: Member, l: Link) {
    var mine := Block(a.cidr);
    || l.accepter == NoInfo
    || (l.accepter != mine && l.requester == NoInfo)
    || (l.accepter == mine && (l.requester == NoInfo || l.requester == NoBlock))
    || (l.requester == mine && l.accepter == NoBlock)
  }

  /** What a side means, by the blocks of the peering. */
  lemma SideMeans(a: Member, l: Link)
    ensures SideOf(a, l).Missing? <==> Untold(a, l)
    ensures forall c :: SideOf(a, l) == To(c) <==> Joins(l, a.cidr, c)
    ensures SideOf(a, l).NotMine? <==> !Untold(a, l) && l.accepter != Block(a.cidr) && l.requester != Block(a.cidr)
  {
  }

  predicate HasRoute(routes: RouteMap, cidr: string, id: string, table: string) {
    exists n :: n in routes && routes[n] == Route(cidr, id, table)
  }

  /** `IsRouteToVpcPeeringAlreadyCreated`: never when there is no route at all. */
  predicate AllCreated(routes: RouteMap, cidr: string, id: string, tables: seq<string>) {
    routes != map[] && forall t | t in tables :: HasRoute(routes, cidr, id, t)
  }

  /** A create that leaves a route of the same name alone. */
  function AddRoute(routes: RouteMap, cidr: string, id: string, table: string): RouteMap {
    var n := RouteName(table, id);
    if n in routes then routes else routes[n := Route(cidr, id, table)]
  }

  function AddRoutes(routes: RouteMap, cidr: string, id: string, tables: seq<string>): RouteMap {
    if tables == [] then routes
    else AddRoute(AddRoutes(routes, cidr, id, tables[..|tables| - 1]), cidr, id, tables[|tables| - 1])
  }

  function Manage(routes: RouteMap, cidr: string, id: string, tables: seq<string>): RouteMap {
    if AllCreated(routes, cidr, id, tables) then routes else AddRoutes(routes, cidr, id, tables)
  }

  /** The reconcile of the routes of `a`, when no call fails. */
  function Walk(a: Member, links: seq<Link>, routes: RouteMap): (RouteMap, End) {
    if links == [] then (routes, Finished)
    else if !links[0].ready then (routes, Requeue)
    else
      match SideOf(a, links[0])
      case NotMine => Walk(a, links[1..], routes)
      case Missing => (routes, Panicked)
      case To(cidr) => Walk(a, links[1..], Manage(routes, cidr, links[0].id, a.tables))
  }

  ghost predicate Kept(x: RouteMap, y: RouteMap) {
    forall n | n in x :: n in y && y[n] == x[n]
  }

  /** Every new route is in a table of `a`, has the name of that table and a peering of `a`, and leads
      over it to the block on its other side. */
  ghost predicate OnlyIn(x: RouteMap, y: RouteMap, a: Member, links: seq<Link>) {
    Kept(x, y) && forall n | n in y && n !in x :: exists t, l :: t in a.tables && l in links && Leads(n, y[n], a, l, t)
  }

  predicate Leads(name: string, r: Route, a: Member, l: Link, table: string) {
    name == table + "-" + l.id && r.id == l.id && r.table == table && Joins(l, a.cidr, r.cidr)
  }

  class Router {
    var routes: RouteMap
    /** How many calls succeed before one fails, if one does. */
    var left: Option<nat>

    constructor (routes: RouteMap, left: Option<nat>)
      ensures this.routes == routes && this.left == left
    {
      this.routes, this.left := routes, left;
    }

    method Call() returns (ok: bool)
      modifies this`left
      ensures ok <==> old(left) != Some(0)
      ensures !ok ==> left == Some(0)
      ensures old(left).None? ==> left.None?
    {
      ok := left != Some(0);
      if left.Some? && left.value > 0 {
        left := Some(left.value - 1);
      }
    }

    method IsCreated(cidr: string, id: string, tables: seq<string>) returns (yes: bool)
      ensures yes <==> AllCreated(routes, cidr, id, tables)
    {
      if |routes| == 0 {
        return false;
      }
      for i := 0 to |tables|
        invariant forall j | 0 <= j < i :: HasRoute(routes, cidr, id, tables[j])
      {
        var created := false;
        var todo := routes.Keys;
        while todo != {}
          invariant todo <= routes.Keys
          invariant created <==> exists n :: n in routes && n !in todo && routes[n] == Route(cidr, id, tables[i])
          decreases |todo|
        {
          var n :| n in todo;
          todo := todo - {n};
          if routes[n].cidr == cidr && routes[n].id == id && routes[n].table == tables[i] {
            created := true;
          }
        }
        if !created {
          assert !HasRoute(routes, cidr, id, tables[i]);
          return false;
        }
      }
      return true;
    }

    /** `manageCrossplaneRoutes`. */
    method ManageRoutes(cidr: string, id: string, tables: seq<string>) returns (err: bool)
      modifies this
      ensures !err ==> routes == Manage(old(routes), cidr, id, tables)
      ensures Kept(old(routes), routes)
      ensures forall n | n in routes && n !in old(routes) :: exists t ::
        t in tables && n == RouteName(t, id) && routes[n] == Route(cidr, id, t)
      ensures err ==> left == Some(0)
      ensures old(left).None? ==> left.None?
    {
      hide RouteName;
      var listed := Call();
      if !listed {
        return true;
      }
      var created := IsCreated(cidr, id, tables);
      if created {
        return false;
      }
      for i := 0 to |tables|
        invariant routes == AddRoutes(old(routes), cidr, id, tables[..i])
        invariant Kept(old(routes), routes)
        invariant forall n | n in routes && n !in old(routes) :: exists t ::
          t in tables && n == RouteName(t, id) && routes[n] == Route(cidr, id, t)
        invariant old(left).None? ==> left.None?
      {
        assert tables[..i + 1][..i] == tables[..i];
        var ok := Call();
        if !ok {
          return true;
        }
        var n := RouteName(tables[i], id);
        if n !in routes {
          routes := routes[n := Route(cidr, id, tables[i])];
        }
      }
      assert tables[..|tables|] == tables;
      return false;
    }

    /** `ReconcileRoutes`. */
    method ReconcileRoutes(a: Member, links: seq<Link>) returns (end: End)
      modifies this
      ensures end.Failed? || (routes, end) == Walk(a, links, old(routes))
      ensures end.Failed? ==> left == Some(0) && old(left).Some?
      ensures OnlyIn(old(routes), routes, a, links)
    {
      SameOnly(routes, a, links);
      hide OnlyIn, Kept, Manage, SideOf, RouteName;
      var listed := Call();
      if !listed {
        return End.Failed;
      }
      var i := 0;
      while i < |links|
        invariant 0 <= i <= |links|
        invariant Walk(a, links[i..], routes) == Walk(a, links, old(routes))
        invariant OnlyIn(old(routes), routes, a, links)
        invariant old(left).None? ==> left.None?
      {
        assert links[i..][0] == links[i] && links[i..][1..] == links[i + 1..];
        if !links[i].ready {
          return Requeue;
        }
        ghost var before := routes;
        match SideOf(a, links[i]) {
          case NotMine =>
          case Missing => return Panicked;
          case To(cidr) =>
            var err := ManageRoutes(cidr, links[i].id, a.tables);
            OnlyMore(old(routes), before, routes, a, links, links[i]);
            if err {
              return End.Failed;
            }
        }
        var owned := Call();
        if !owned {
          return End.Failed;
        }
        i := i + 1;
      }
      return Finished;
    }
  }

  lemma SameOnly(x: RouteMap, a: Member, links: seq<Link>)
    ensures OnlyIn(x, x, a, links)
  {
  }

  lemma OnlyMore(x: RouteMap, y: RouteMap, z: RouteMap, a: Member, links: seq<Link>, l: Link)
    requires OnlyIn(x, y, a, links) && Kept(y, z) && l in links && SideOf(a, l).To?
    requires forall n | n in z && n !in y :: exists t ::
      t in a.tables && n == RouteName(t, l.id) && z[n] == Route(SideOf(a, l).cidr, l.id, t)
    ensures OnlyIn(x, z, a, links)
  {
    SideMeans(a, l);
    forall n | n in z && n !in x ensures exists t, k :: t in a.tables && k in links && Leads(n, z[n], a, k, t) {
      if n in y {
        var t, k :| t in a.tables && k in links && Leads(n, y[n], a, k, t);
      } else {
        var t :| t in a.tables && n == RouteName(t, l.id) && z[n] == Route(SideOf(a, l).cidr, l.id, t);
        assert Leads(n, z[n], a, l, t);
      }
    }
  }

  // ---- The whole mesh ----

  /** What the peerings of a ready, complete mesh are: each joins two members by their CIDR
      blocks, and every two members have one. */
  ghost predicate Matches(members: seq<Member>, links: seq<Link>) {
    && (forall i, j | 0 <= i < j < |members| :: members[i].cidr != members[j].cidr)
    && (forall l | l in links :: l.ready && l.requester.Block? && l.accepter.Block?)
    && (forall i, j | 0 <= i < j < |members| :: HasLink(links, members[i], members[j]))
  }

  ghost predicate HasLink(links: seq<Link>, a: Member, b: Member) {
    exists l :: l in links && Between(l, a, b)
  }

  predicate Between(l: Link, a: Member, b: Member) {
    Joins(l, a.cidr, b.cidr)
  }

  /** A table of a member and one of its peerings. */
  predicate Slot(members: seq<Member>, links: seq<Link>, a: Member, l: Link, t: string) {
    a in members && l in links && t in a.tables && SideOf(a, l).To?
  }

  /** Route names tell tables, peerings and members apart. */
  ghost predicate NamesApart(members: seq<Member>, links: seq<Link>) {
    forall a, l, t, b, k, u | Slot(members, links, a, l, t) && Slot(members, links, b, k, u)
      && RouteName(t, l.id) == RouteName(u, k.id) ::
      a == b && l == k && t == u
  }

  /** Names like those of AWS: route tables are "rtb-" and a text without a dash. */
  ghost predicate AwsTables(members: seq<Member>) {
    forall a, t | a in members && t in a.tables :: AwsTable(t)
  }

  predicate AwsTable(t: string) {
    |t| >= 4 && t[..4] == "rtb-" && '-' !in t[4..]
  }

  lemma AwsNameSplits(t: string, x: string, u: string, y: string)
    requires AwsTable(t) && AwsTable(u) && RouteName(t, x) == RouteName(u, y)
    ensures t == u && x == y
  {
    assert RouteName(t, x)[4..] == t[4..] + ['-'] + x;
    assert RouteName(u, y)[4..] == u[4..] + ['-'] + y;
    Report.SplitAt(t[4..], x, u[4..], y, '-');
    assert t == t[..4] + t[4..] && u == u[..4] + u[4..];
  }

  /** With such names, route names tell all apart when ids do, and no table belongs to two members. */
  lemma AwsNamesApart(members: seq<Member>, links: seq<Link>)
    requires AwsTables(members)
    requires forall l, k | l in links && k in links && l.id == k.id :: l == k
    requires forall a, b, t | a in members && b in members && t in a.tables && t in b.tables :: a == b
    ensures NamesApart(members, links)
  {
    forall a, l, t, b, k, u | Slot(members, links, a, l, t) && Slot(members, links, b, k, u)
      && RouteName(t, l.id) == RouteName(u, k.id)
      ensures a == b && l == k && t == u
    {
      hide SideOf, RouteName, AwsTable;
      AwsNameSplits(t, l.id, u, k.id);
    }
  }

  /** The wanted route is there, or its name is free: a create over another route of that name does
      nothing, whatever that route is and whichever mesh it belongs to. */
  predicate Open(routes: RouteMap, cidr: string, id: string, table: string) {
    HasRoute(routes, cidr, id, table) || RouteName(table, id) !in routes
  }

  ghost predicate SameOpen(x: RouteMap, y: RouteMap, members: seq<Member>, links: seq<Link>) {
    forall a, l, t | Slot(members, links, a, l, t) ::
      Open(x, SideOf(a, l).cidr, l.id, t) <==> Open(y, SideOf(a, l).cidr, l.id, t)
  }

  /** `a` has a route over each of its peerings in each of its tables, except where one of the same
      name is in the way. */
  ghost predicate CoveredFor(routes: RouteMap, a: Member, links: seq<Link>) {
    forall l, t | l in links && t in a.tables && SideOf(a, l).To? :: CoveredAt(routes, a, l, t)
  }

  ghost predicate CoveredAt(routes: RouteMap, a: Member, l: Link, t: string)
    requires SideOf(a, l).To?
  {
    var c := SideOf(a, l).cidr;
    HasRoute(routes, c, l.id, t) <==> Open(routes, c, l.id, t)
  }

  lemma HasRouteKept(x: RouteMap, y: RouteMap, cidr: string, id: string, table: string)
    requires Kept(x, y) && HasRoute(x, cidr, id, table)
    ensures HasRoute(y, cidr, id, table)
  {
  }

  lemma AddedRoute(routes: RouteMap, a: Member, l: Link, t: string, members: seq<Member>, links: seq<Link>)
    requires NamesApart(members, links) && Slot(members, links, a, l, t)
    ensures var c := SideOf(a, l).cidr;
      var next := AddRoute(routes, c, l.id, t);
      && Kept(routes, next) && SameOpen(routes, next, members, links)
      && (HasRoute(next, c, l.id, t) <==> Open(routes, c, l.id, t))
  {
    var c, n := SideOf(a, l).cidr, RouteName(t, l.id);
    var next := AddRoute(routes, c, l.id, t);
    hide RouteName, SideOf;
    if n !in routes {
      assert n in next && next[n] == Route(c, l.id, t);
      forall b, k, u | Slot(members, links, b, k, u)
        ensures Open(routes, SideOf(b, k).cidr, k.id, u) <==> Open(next, SideOf(b, k).cidr, k.id, u)
      {
        OtherSlot(routes, next, n, a, l, t, b, k, u, members, links);
      }
    }
  }

  /** A new route leaves the other slots as they are. */
  lemma OtherSlot(routes: RouteMap, next: RouteMap, n: string, a: Member, l: Link, t: string, b: Member, k: Link,
                  u: string, members: seq<Member>, links: seq<Link>)
    requires NamesApart(members, links) && Slot(members, links, a, l, t) && Slot(members, links, b, k, u)
    requires n == RouteName(t, l.id) && n !in routes && next == routes[n := Route(SideOf(a, l).cidr, l.id, t)]
    ensures Open(routes, SideOf(b, k).cidr, k.id, u) <==> Open(next, SideOf(b, k).cidr, k.id, u)
  {
    hide SideOf, RouteName;
    var c := SideOf(b, k).cidr;
    if RouteName(u, k.id) == n {
      assert next[n] == Route(c, k.id, u);
    } else {
      if m :| m in next && next[m] == Route(c, k.id, u) {
        assert m != n;
        assert routes[m] == Route(c, k.id, u);
      }
      if m :| m in routes && routes[m] == Route(c, k.id, u) {
        assert next[m] == Route(c, k.id, u);
      }
    }
  }

  lemma SameOpenTrans(x: RouteMap, y: RouteMap, z: RouteMap, members: seq<Member>, links: seq<Link>)
    requires SameOpen(x, y, members, links) && SameOpen(y, z, members, links)
    ensures SameOpen(x, z, members, links)
  {
    hide Open;
  }

  /** What was covered stays as it was. */
  lemma StaysCovered(x: RouteMap, y: RouteMap, a: Member, l: Link, t: string, members: seq<Member>, links: seq<Link>)
    requires Kept(x, y) && SameOpen(x, y, members, links) && Slot(members, links, a, l, t)
    requires var c := SideOf(a, l).cidr; HasRoute(x, c, l.id, t) <==> Open(x, c, l.id, t)
    ensures var c := SideOf(a, l).cidr; HasRoute(y, c, l.id, t) <==> Open(y, c, l.id, t)
  {
    if HasRoute(x, SideOf(a, l).cidr, l.id, t) {
      HasRouteKept(x, y, SideOf(a, l).cidr, l.id, t);
    }
    hide HasRoute, SideOf, Slot;
    var c := SideOf(a, l).cidr;
    assert Open(x, c, l.id, t) <==> Open(y, c, l.id, t);
  }

  lemma {:induction false} AddedRoutes(routes: RouteMap, a: Member, l: Link, k: nat, members: seq<Member>,
                                       links: seq<Link>)
    requires NamesApart(members, links) && a in members && l in links && SideOf(a, l).To? && k <= |a.tables|
    ensures var next := AddRoutes(routes, SideOf(a, l).cidr, l.id, a.tables[..k]);
      && Kept(routes, next) && SameOpen(routes, next, members, links)
      && forall i | 0 <= i < k :: CoveredAt(next, a, l, a.tables[i])
  {
    hide AddRoute, HasRoute, Open, NamesApart, SideOf, SameOpen, Kept;
    if k == 0 {
      SameRoutes(routes, members, links);
    } else {
      AddedRoutes(routes, a, l, k - 1, members, links);
      assert a.tables[..k][..k - 1] == a.tables[..k - 1];
      var c := SideOf(a, l).cidr;
      var before := AddRoutes(routes, c, l.id, a.tables[..k - 1]);
      AddedRoute(before, a, l, a.tables[k - 1], members, links);
      var next := AddRoute(before, c, l.id, a.tables[k - 1]);
      SameOpenTrans(routes, before, next, members, links);
      KeptTrans(routes, before, next);
      assert Slot(members, links, a, l, a.tables[k - 1]);
      SameOpenAt(before, next, a, l, a.tables[k - 1], members, links);
      forall i | 0 <= i < k - 1 ensures CoveredAt(next, a, l, a.tables[i]) {
        assert CoveredAt(before, a, l, a.tables[i]);
        StaysCovered(before, next, a, l, a.tables[i], members, links);
      }
    }
  }

  lemma SameRoutes(routes: RouteMap, members: seq<Member>, links: seq<Link>)
    ensures Kept(routes, routes) && SameOpen(routes, routes, members, links)
  {
  }

  lemma KeptTrans(x: RouteMap, y: RouteMap, z: RouteMap)
    requires Kept(x, y) && Kept(y, z)
    ensures Kept(x, z)
  {
  }

  lemma SameOpenAt(x: RouteMap, y: RouteMap, a: Member, l: Link, t: string, members: seq<Member>, links: seq<Link>)
    requires SameOpen(x, y, members, links) && Slot(members, links, a, l, t)
    ensures Open(x, SideOf(a, l).cidr, l.id, t) <==> Open(y, SideOf(a, l).cidr, l.id, t)
  {
    hide Open, SideOf;
  }

  lemma Managed(routes: RouteMap, a: Member, l: Link, members: seq<Member>, links: seq<Link>)
    requires NamesApart(members, links) && a in members && l in links && SideOf(a, l).To?
    ensures var next := Manage(routes, SideOf(a, l).cidr, l.id, a.tables);
      && Kept(routes, next) && SameOpen(routes, next, members, links)
      && forall t | t in a.tables :: CoveredAt(next, a, l, t)
  {
    hide NamesApart, HasRoute, SideOf, AddRoutes, SameOpen, Kept;
    SameRoutes(routes, members, links);
    AddedRoutes(routes, a, l, |a.tables|, members, links);
    assert a.tables[..|a.tables|] == a.tables;
  }

  /** One reconcile of a member of a ready mesh: it finishes, keeps the old routes and covers the member. */
  lemma {:induction false} WalkCovers(a: Member, rest: seq<Link>, routes: RouteMap, members: seq<Member>,
                                      links: seq<Link>)
    requires NamesApart(members, links) && a in members
    requires forall l | l in rest :: l in links && l.ready && !SideOf(a, l).Missing?
    ensures var (next, end) := Walk(a, rest, routes);
      end.Finished? && Kept(routes, next) && SameOpen(routes, next, members, links) && CoveredFor(next, a, rest)
  {
    hide NamesApart, HasRoute, Open, SideOf, Manage, SameOpen, Kept;
    if rest == [] {
      SameRoutes(routes, members, links);
    } else {
      var l := rest[0];
      assert rest == [l] + rest[1..];
      var now := match SideOf(a, l) case To(cidr) => Manage(routes, cidr, l.id, a.tables) case _ => routes;
      SameRoutes(routes, members, links);
      if SideOf(a, l).To? {
        Managed(routes, a, l, members, links);
      }
      WalkCovers(a, rest[1..], now, members, links);
      WalkStep(a, rest, routes);
      var next := Walk(a, rest[1..], now).0;
      hide Walk;
      KeptTrans(routes, now, next);
      SameOpenTrans(routes, now, next, members, links);
      forall k, t | k in rest && t in a.tables && SideOf(a, k).To? ensures CoveredAt(next, a, k, t) {
        if k !in rest[1..] {
          assert CoveredAt(now, a, l, t);
          StaysCovered(now, next, a, l, t, members, links);
        }
      }
    }
  }

  lemma WalkStep(a: Member, rest: seq<Link>, routes: RouteMap)
    requires rest != [] && rest[0].ready && !SideOf(a, rest[0]).Missing?
    ensures Walk(a, rest, routes) == Walk(a, rest[1..],
      match SideOf(a, rest[0]) case To(cidr) => Manage(routes, cidr, rest[0].id, a.tables) case _ => routes)
  {
    hide SideOf, Manage;
  }

  /** A reconcile finishes exactly when every peering is ready and tells what the walk needs of it. */
  lemma {:induction false} NotReadyRequeues(a: Member, links: seq<Link>, routes: RouteMap)
    ensures Walk(a, links, routes).1.Finished? <==> forall l | l in links :: l.ready && !Untold(a, l)
  {
    if links != [] {
      assert links == [links[0]] + links[1..];
      SideMeans(a, links[0]);
      hide Untold;
      match SideOf(a, links[0])
      case To(cidr) => NotReadyRequeues(a, links[1..], Manage(routes, cidr, links[0].id, a.tables));
      case _ => NotReadyRequeues(a, links[1..], routes);
    }
  }

  /** A ready peering of two other VPCs neither ends a reconcile nor adds a route. */
  lemma OthersPassed(a: Member, l: Link, rest: seq<Link>, routes: RouteMap, c: string, d: string)
    requires l.ready && Joins(l, c, d) && c != a.cidr && d != a.cidr
    ensures Walk(a, [l] + rest, routes) == Walk(a, rest, routes)
  {
    assert ([l] + rest)[1..] == rest;
  }

  /** The routes after these members were reconciled, one after another. */
  function WalkAll(order: seq<Member>, links: seq<Link>, routes: RouteMap): RouteMap {
    if order == [] then routes
    else Walk(order[|order| - 1], links, WalkAll(order[..|order| - 1], links, routes)).0
  }

  lemma MatchedSides(a: Member, members: seq<Member>, links: seq<Link>)
    requires Matches(members, links) && a in members
    ensures forall l | l in links :: l.ready && !SideOf(a, l).Missing?
  {
  }

  lemma {:induction false} WalkAllCovers(order: seq<Member>, links: seq<Link>, routes: RouteMap, members: seq<Member>)
    requires Matches(members, links) && NamesApart(members, links)
    requires forall a | a in order :: a in members
    ensures var next := WalkAll(order, links, routes);
      && Kept(routes, next) && SameOpen(routes, next, members, links)
      && forall a | a in order :: CoveredFor(next, a, links)
  {
    hide NamesApart, Matches, HasRoute, Open, SideOf, Walk, SameOpen, Kept;
    SameRoutes(routes, members, links);
    if order != [] {
      var p, a := order[..|order| - 1], order[|order| - 1];
      assert order == p + [a];
      WalkAllCovers(p, links, routes, members);
      MatchedSides(a, members, links);
      var before := WalkAll(p, links, routes);
      WalkCovers(a, links, before, members, links);
      var next := Walk(a, links, before).0;
      KeptTrans(routes, before, next);
      SameOpenTrans(routes, before, next, members, links);
      forall b | b in order ensures CoveredFor(next, b, links) {
        if b in p {
          assert CoveredFor(before, b, links);
          forall l, t | l in links && t in b.tables && SideOf(b, l).To? ensures CoveredAt(next, b, l, t) {
            StaysCovered(before, next, b, l, t, members, links);
          }
        }
      }
    }
  }

  lemma SideBetween(l: Link, a: Member, b: Member)
    requires Between(l, a, b) && a.cidr != b.cidr
    ensures SideOf(a, l) == To(b.cidr) && SideOf(b, l) == To(a.cidr)
  {
  }

  /** Once every member has been reconciled, in any order and any number of times: a table of a member
      has the route over a peering to the block on its other side if and only if it was there or its
      name was free, whatever other routes there are. */
  lemma RoutesExactly(order: seq<Member>, links: seq<Link>, routes: RouteMap, members: seq<Member>,
                      a: Member, l: Link, t: string, c: string)
    requires Matches(members, links) && NamesApart(members, links)
    requires (forall b | b in order :: b in members) && a in order
    requires l in links && t in a.tables && Joins(l, a.cidr, c)
    ensures HasRoute(WalkAll(order, links, routes), c, l.id, t) <==> Open(routes, c, l.id, t)
  {
    SideMeans(a, l);
    hide NamesApart, HasRoute, Open, SideOf, Walk, WalkAll, SameOpen, Matches;
    var next := WalkAll(order, links, routes);
    WalkAllCovers(order, links, routes, members);
    assert Slot(members, links, a, l, t) && SideOf(a, l) == To(c);
    SameOpenAt(routes, next, a, l, t, members, links);
    assert CoveredFor(next, a, links);
    assert CoveredAt(next, a, l, t);
  }

  /** `l` can carry the routes from `a` to `b`. */
  predicate Carries(routes: RouteMap, l: Link, a: Member, b: Member) {
    forall t | t in a.tables :: Open(routes, b.cidr, l.id, t)
  }

  predicate Routed(routes: RouteMap, l: Link, a: Member, b: Member) {
    forall t | t in a.tables :: HasRoute(routes, b.cidr, l.id, t)
  }

  /** So every two members have a peering, and over each of theirs each table of either has a route
      to the other if and only if no other route has one of the wanted names. */
  lemma RoutesComplete(order: seq<Member>, links: seq<Link>, routes: RouteMap, members: seq<Member>, i: nat, j: nat)
    requires Matches(members, links) && NamesApart(members, links)
    requires (forall a | a in order :: a in members) && (forall a | a in members :: a in order)
    requires i < j < |members|
    ensures var next, a, b := WalkAll(order, links, routes), members[i], members[j];
      && (exists l :: l in links && Between(l, a, b))
      && forall l | l in links && Between(l, a, b) ::
           && (Routed(next, l, a, b) <==> Carries(routes, l, a, b))
           && (Routed(next, l, b, a) <==> Carries(routes, l, b, a))
  {
    hide NamesApart, HasRoute, Open, SideOf, Walk, WalkAll;
    var next, a, b := WalkAll(order, links, routes), members[i], members[j];
    assert HasLink(links, a, b);
    forall l | l in links && Between(l, a, b)
      ensures Routed(next, l, a, b) <==> Carries(routes, l, a, b)
      ensures Routed(next, l, b, a) <==> Carries(routes, l, b, a)
    {
      SideBetween(l, a, b);
      forall t | t in a.tables ensures HasRoute(next, b.cidr, l.id, t) <==> Open(routes, b.cidr, l.id, t) {
        RoutesExactly(order, links, routes, members, a, l, t, b.cidr);
      }
      forall t | t in b.tables ensures HasRoute(next, a.cidr, l.id, t) <==> Open(routes, a.cidr, l.id, t) {
        RoutesExactly(order, links, routes, members, b, l, t, a.cidr);
      }
    }
  }
}
