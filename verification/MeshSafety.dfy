/** What holds of the meshes in every state, even when reconciles fail after any prefix of their
    writes, as long as the deferred writes succeed. */
module MeshSafety {
  import opened Ordering
  import opened Records
  import opened Groups
  import opened Mesh

  /** The world while a reconcile works on `g`, as if its references were stored already. */
  function Working(w: World, g: string, clusters: seq<ClusterSpec>, l: Links): World {
    World(w.meshes[g := ClusterMesh(clusters, l.refs)], l.peerings)
  }

  // ---- The order of the references does not matter ----

  lemma PermutedNoDup(a: seq<string>, b: seq<string>)
    requires NoDup(a) && multiset(a) == multiset(b)
    ensures NoDup(b)
  {
    NoDupMultiset(a);
    assert forall n :: multiset(b)[n] == multiset(set x | x in a)[n] <= 1;
    forall i, j | 0 <= i < j < |b| ensures b[i] != b[j] {
      if b[i] == b[j] {
        TwiceCounts(b, i, j);
      }
    }
  }

  lemma SortedLists(names: seq<string>, peerings: Peerings, g: string)
    requires Lists(names, peerings, g)
    ensures Lists(Sort(StrLess, names), peerings, g)
  {
    var r := Sort(StrLess, names);
    SameElements(names, r);
    hide StrLess, Sort, Owned;
    PermutedNoDup(names, r);
  }

  lemma TwiceCounts(r: seq<string>, i: nat, j: nat)
    requires i < j < |r| && r[i] == r[j]
    ensures multiset(r)[r[i]] >= 2
  {
    assert r == r[..j] + [r[j]] + r[j + 1..];
    assert r[i] in r[..j];
    assert multiset(r) == multiset(r[..j]) + multiset{r[j]} + multiset(r[j + 1..]);
  }

  /** Storing sorts the references, which no part of the invariant sees. */
  lemma StoredInv(w: World, g: string, clusters: seq<ClusterSpec>, l: Links, spec: string -> ClusterSpec,
                  used: set<string>)
    requires Inv(Working(w, g, clusters, l), spec, used)
    ensures Inv(Stored(w, g, clusters, l), spec, used)
  {
    var a, b := Working(w, g, clusters, l), Stored(w, g, clusters, l);
    hide MembersOf, Sort, StrLess, Lists;
    assert Lists(a.meshes[g].refs, a.peerings, g);
    SortedLists(l.refs, l.peerings, g);
    forall h | h in b.meshes ensures Lists(b.meshes[h].refs, b.peerings, h) {
      assert Lists(a.meshes[h].refs, a.peerings, h);
    }
    forall n | n in b.peerings ensures Joining(b, n) {
      assert Joining(a, n);
    }
    forall h | h in b.meshes ensures MembersOf(b.meshes[h].clusters, spec, used) {
      assert MembersOf(a.meshes[h].clusters, spec, used);
    }
    forall x, h, k | h in b.meshes && k in b.meshes && HasMember(b.meshes[h].clusters, x)
      && HasMember(b.meshes[k].clusters, x)
      ensures h == k
    {
      assert HasMember(a.meshes[h].clusters, x) && HasMember(a.meshes[k].clusters, x);
    }
  }

  // ---- Joining ----

  lemma NothingOwned(w: World, g: string)
    requires AllJoin(w) && g !in w.meshes
    ensures Owned(w.peerings, g) == {}
  {
    forall n | n in w.peerings ensures w.peerings[n].owner != g {
      assert Joining(w, n);
    }
  }

  lemma CreateInv(w: World, self: ClusterSpec, g: string, spec: string -> ClusterSpec, used: set<string>)
    requires Inv(w, spec, used) && g !in w.meshes && self == spec(self.name) && self.name in used
    requires forall h | h in w.meshes :: !HasMember(w.meshes[h].clusters, self.name)
    ensures Inv(w.(meshes := w.meshes[g := ClusterMesh([self], [])]), spec, used)
  {
    NothingOwned(w, g);
    hide Inv, HasMember;
    AddedInv(w, [], self, g, [], spec, used);
    assert [] + [self] == [self];
  }

  lemma AddedMembers(w: World, clusters: seq<ClusterSpec>, self: ClusterSpec, spec: string -> ClusterSpec,
                     used: set<string>)
    requires clusters == [] || MembersOf(clusters, spec, used)
    requires self == spec(self.name) && self.name in used && !HasMember(clusters, self.name)
    ensures MembersOf(clusters + [self], spec, used)
  {
    forall i | 0 <= i < |clusters| ensures clusters[i].name != self.name {
    }
  }

  lemma AddedJoins(w: World, v: World)
    requires AllJoin(w) && v.peerings == w.peerings
    requires forall h | h in w.meshes :: h in v.meshes
    requires forall h, x | h in w.meshes && HasMember(w.meshes[h].clusters, x) :: HasMember(v.meshes[h].clusters, x)
    ensures AllJoin(v)
  {
    forall n | n in v.peerings ensures Joining(v, n) {
      assert Joining(w, n);
    }
  }

  /** The mesh `g` with `self` as one member more. */
  lemma AddedInv(w: World, clusters: seq<ClusterSpec>, self: ClusterSpec, g: string, names: seq<string>,
                 spec: string -> ClusterSpec, used: set<string>)
    requires Inv(w, spec, used) && self == spec(self.name) && self.name in used && Lists(names, w.peerings, g)
    requires if g in w.meshes then clusters == w.meshes[g].clusters else clusters == []
    requires forall h | h in w.meshes :: !HasMember(w.meshes[h].clusters, self.name)
    ensures Inv(Working(w, g, clusters + [self], Links(names, w.peerings)), spec, used)
  {
    var v := Working(w, g, clusters + [self], Links(names, w.peerings));
    assert v.meshes == w.meshes[g := ClusterMesh(clusters + [self], names)] && v.peerings == w.peerings;
    NoMembers(self.name);
    hide HasMember, MembersOf, Lists, Joining, Opposite, Working;
    AddedMembers(w, clusters, self, spec, used);
    forall x ensures HasMember(clusters + [self], x) <==> HasMember(clusters, x) || x == self.name {
      HasMemberSnoc(clusters, self, x);
    }
    hide AllJoin, NoPairTwice;
    AddedJoins(w, v);
    assert NoPairTwice(v) by { SamePairs(w, v); }
    assert OneMesh(v) by {
      forall x, h, k | h in v.meshes && k in v.meshes && HasMember(v.meshes[h].clusters, x)
        && HasMember(v.meshes[k].clusters, x)
        ensures h == k
      {
        AddedOneMesh(w, clusters, self, g, x, h, k);
      }
    }
  }

  lemma NoMembers(x: string)
    ensures !HasMember([], x)
  {
  }

  lemma SamePairs(w: World, v: World)
    requires NoPairTwice(w) && v.peerings == w.peerings
    ensures NoPairTwice(v)
  {
  }

  lemma AddedOneMesh(w: World, clusters: seq<ClusterSpec>, self: ClusterSpec, g: string, x: string, h: string,
                     k: string)
    requires OneMesh(w)
    requires if g in w.meshes then clusters == w.meshes[g].clusters else clusters == []
    requires forall i | i in w.meshes :: !HasMember(w.meshes[i].clusters, self.name)
    requires var m := w.meshes[g := ClusterMesh(clusters + [self], [])];
      h in m && k in m && HasMember(m[h].clusters, x) && HasMember(m[k].clusters, x)
    ensures h == k
  {
    HasMemberSnoc(clusters, self, x);
    if g !in w.meshes {
      assert !HasMember(clusters, x);
    }
  }

  lemma HasMemberSnoc(clusters: seq<ClusterSpec>, c: ClusterSpec, x: string)
    ensures HasMember(clusters + [c], x) <==> HasMember(clusters, x) || x == c.name
  {
    var t := clusters + [c];
    if HasMember(clusters, x) {
      var i :| 0 <= i < |clusters| && clusters[i].name == x;
      assert t[i].name == x;
    }
    assert t[|clusters|] == c;
  }

  /** A peering with the name of two members of `g` belongs to `g` and joins the two. */
  lemma HomeOwns(w: World, x: string, y: string, g: string, spec: string -> ClusterSpec, used: set<string>)
    requires Inv(w, spec, used) && Unambiguous(used) && g in w.meshes
    requires HasMember(w.meshes[g].clusters, x) && HasMember(w.meshes[g].clusters, y)
    requires PeeringName(x, y) in w.peerings
    ensures PeeringName(x, y) in w.meshes[g].refs && w.peerings[PeeringName(x, y)] == Peering(g, x, y)
  {
    hide MembersOf;
    var n := PeeringName(x, y);
    var p := w.peerings[n];
    assert Joining(w, n);
    MemberUsed(w, p.owner, p.requester, spec, used);
    MemberUsed(w, p.owner, p.accepter, spec, used);
    MemberUsed(w, g, x, spec, used);
    MemberUsed(w, g, y, spec, used);
    assert p.requester == x && p.accepter == y;
    assert p.owner == g;
    assert Lists(w.meshes[g].refs, w.peerings, g);
    assert n in Owned(w.peerings, g);
  }

  /** A new peering of two members of `g` that are not peered has a new name. */
  lemma NewName(w: World, x: string, y: string, g: string, spec: string -> ClusterSpec, used: set<string>)
    requires Inv(w, spec, used) && Unambiguous(used) && g in w.meshes
    requires HasMember(w.meshes[g].clusters, x) && HasMember(w.meshes[g].clusters, y)
    requires !IsPeered(w.meshes[g].refs, x, y)
    ensures PeeringName(x, y) !in w.peerings && PeeringName(y, x) !in w.peerings
  {
    hide Inv;
    if PeeringName(x, y) in w.peerings {
      HomeOwns(w, x, y, g, spec, used);
    }
    if PeeringName(y, x) in w.peerings {
      HomeOwns(w, y, x, g, spec, used);
    }
  }

  lemma MemberUsed(w: World, g: string, x: string, spec: string -> ClusterSpec, used: set<string>)
    requires Members(w, spec, used) && g in w.meshes && HasMember(w.meshes[g].clusters, x)
    ensures x in used
  {
    var i :| 0 <= i < |w.meshes[g].clusters| && w.meshes[g].clusters[i].name == x;
    assert MembersOf(w.meshes[g].clusters, spec, used);
  }

  /** Two members with the same name are the same. */
  lemma SameMember(clusters: seq<ClusterSpec>, a: ClusterSpec, b: ClusterSpec, spec: string -> ClusterSpec,
                   used: set<string>)
    requires MembersOf(clusters, spec, used) && a in clusters && b in clusters
    ensures a == b <==> a.name == b.name
  {
    var i :| 0 <= i < |clusters| && clusters[i] == a;
    var j :| 0 <= j < |clusters| && clusters[j] == b;
  }

  lemma LinkInv(w: World, g: string, clusters: seq<ClusterSpec>, self: ClusterSpec, c: ClusterSpec, l: Links,
                spec: string -> ClusterSpec, used: set<string>)
    requires Inv(Working(w, g, clusters, l), spec, used) && Unambiguous(used)
    requires self in clusters && c in clusters
    ensures Inv(Working(w, g, clusters, Link(g, self, c, l)), spec, used)
  {
    var a := Working(w, g, clusters, l);
    if self != c && !IsPeered(l.refs, self.name, c.name) {
      assert MembersOf(a.meshes[g].clusters, spec, used);
      SameMember(clusters, self, c, spec, used);
      InHasMember(clusters, self);
      InHasMember(clusters, c);
      NewName(a, self.name, c.name, g, spec, used);
      var n := PeeringName(self.name, c.name);
      var b := World(a.meshes[g := ClusterMesh(clusters, l.refs + [n])],
                     l.peerings[n := Peering(g, self.name, c.name)]);
      assert b == Working(w, g, clusters, Link(g, self, c, l));
      PeeringAdded(a, g, self.name, c.name, spec, used);
    }
  }

  lemma InHasMember(clusters: seq<ClusterSpec>, c: ClusterSpec)
    requires c in clusters
    ensures HasMember(clusters, c.name)
  {
    var i :| 0 <= i < |clusters| && clusters[i] == c;
    assert clusters[i].name == c.name;
  }

  lemma PeeringAdded(w: World, g: string, x: string, y: string, spec: string -> ClusterSpec, used: set<string>)
    requires Inv(w, spec, used) && g in w.meshes && x != y
    requires HasMember(w.meshes[g].clusters, x) && HasMember(w.meshes[g].clusters, y)
    requires PeeringName(x, y) !in w.peerings && PeeringName(y, x) !in w.peerings
    ensures var m := w.meshes[g];
      Inv(World(w.meshes[g := ClusterMesh(m.clusters, m.refs + [PeeringName(x, y)])],
                w.peerings[PeeringName(x, y) := Peering(g, x, y)]), spec, used)
  {
    var n, m := PeeringName(x, y), w.meshes[g];
    var v := World(w.meshes[g := ClusterMesh(m.clusters, m.refs + [n])], w.peerings[n := Peering(g, x, y)]);
    hide MembersOf, HasMember;
    assert Lists(m.refs, w.peerings, g);
    forall h | h in v.meshes
      ensures Lists(v.meshes[h].refs, v.peerings, h) && v.meshes[h].clusters == w.meshes[h].clusters
    {
      assert Lists(w.meshes[h].refs, w.peerings, h);
      ListsAdded(w, h, n, Peering(g, x, y));
    }
    forall k | k in v.peerings ensures Joining(v, k) {
      if k != n { assert Joining(w, k); }
    }
    forall k | k in w.peerings
      ensures !Opposite(w.peerings[k], Peering(g, x, y)) && !Opposite(Peering(g, x, y), w.peerings[k])
    {
      assert Joining(w, k);
    }
    assert NoPairTwice(v);
    assert forall h | h in v.meshes ::
      MembersOf(v.meshes[h].clusters, spec, used) <==> MembersOf(w.meshes[h].clusters, spec, used);
  }

  lemma ListsAdded(w: World, h: string, n: string, p: Peering)
    requires h in w.meshes && Lists(w.meshes[h].refs, w.peerings, h) && n !in w.peerings
    ensures Lists(if p.owner == h then w.meshes[h].refs + [n] else w.meshes[h].refs, w.peerings[n := p], h)
  {
    var r := w.meshes[h].refs;
    assert n !in r by { assert n !in Owned(w.peerings, h); }
    forall k ensures k in Owned(w.peerings[n := p], h) <==> k in Owned(w.peerings, h) || (k == n && p.owner == h) {
    }
  }

  lemma {:induction false} LinkAllInv(w: World, g: string, clusters: seq<ClusterSpec>, self: ClusterSpec, k: nat,
                                      l: Links, spec: string -> ClusterSpec, used: set<string>)
    requires Inv(Working(w, g, clusters, l), spec, used) && Unambiguous(used)
    requires self in clusters && k <= |clusters|
    ensures Inv(Working(w, g, clusters, LinkAll(g, self, clusters[..k], l)), spec, used)
  {
    if k > 0 {
      LinkAllInv(w, g, clusters, self, k - 1, l, spec, used);
      assert clusters[..k][..k - 1] == clusters[..k - 1] && clusters[..k][k - 1] == clusters[k - 1];
      hide Inv, Working, Link;
      LinkInv(w, g, clusters, self, clusters[k - 1], LinkAll(g, self, clusters[..k - 1], l), spec, used);
    }
  }

  // ---- Leaving ----

  lemma {:induction false} RemoveFirstNoDup(s: seq<string>, n: string)
    requires NoDup(s)
    ensures NoDup(RemoveFirst(s, n)) && forall k :: k in RemoveFirst(s, n) <==> k in s && k != n
  {
    if s != [] {
      var t := s[1..];
      assert s == [s[0]] + t;
      assert forall i | 0 <= i < |t| :: t[i] == s[i + 1];
      RemoveFirstNoDup(t, n);
      var r := RemoveFirst(t, n);
      forall k | k in r ensures k != s[0] {
        assert k in t;
      }
      assert s[0] != n ==> RemoveFirst(s, n) == [s[0]] + r;
      hide RemoveFirst;
      var u := [s[0]] + r;
      assert forall i | 0 < i < |u| :: u[i] == r[i - 1] && u[i] in r;
    }
  }

  /** What the deletes of a prefix of the references leave. */
  lemma {:induction false} UnlinkAllIs(x: string, names: seq<string>, k: nat, peerings: Peerings)
    requires NoDup(names) && k <= |names|
    ensures var l := UnlinkAll(x, names[..k], Links(names, peerings));
      && NoDup(l.refs)
      && (forall n :: n in l.refs <==> n in names && !(n in names[..k] && Contains(n, x)))
      && (forall n :: n in l.peerings <==> n in peerings && !(n in names[..k] && Contains(n, x)))
      && (forall n | n in l.peerings :: l.peerings[n] == peerings[n])
  {
    if k > 0 {
      UnlinkAllIs(x, names, k - 1, peerings);
      assert names[..k][..k - 1] == names[..k - 1] && names[..k] == names[..k - 1] + [names[k - 1]];
      var l := UnlinkAll(x, names[..k - 1], Links(names, peerings));
      RemoveFirstNoDup(l.refs, names[k - 1]);
      hide Contains, RemoveFirst;
    }
  }

  /** Deleting peerings of `g` together with their references. */
  lemma UnlinkedInv(w: World, g: string, l: Links, spec: string -> ClusterSpec, used: set<string>)
    requires Inv(w, spec, used) && g in w.meshes
    requires NoDup(l.refs) && forall n | n in l.peerings :: n in w.peerings && l.peerings[n] == w.peerings[n]
    requires forall n :: n in l.refs <==> n in w.meshes[g].refs && n in l.peerings
    requires forall n | n in w.peerings && n !in l.peerings :: n in w.meshes[g].refs
    ensures Inv(Working(w, g, w.meshes[g].clusters, l), spec, used)
  {
    var v := Working(w, g, w.meshes[g].clusters, l);
    UnlinkedLists(w, g, l);
    hide Members, OneMesh, RefsExact, Joining, Opposite;
    assert forall h | h in v.meshes :: v.meshes[h].clusters == w.meshes[h].clusters;
    SameMembers(w, v, spec, used);
    FewerPeerings(w, v);
  }

  lemma FewerPeerings(w: World, v: World)
    requires AllJoin(w) && NoPairTwice(w)
    requires forall n | n in v.peerings ::
      n in w.peerings && v.peerings[n] == w.peerings[n] && (Joining(w, n) ==> Joining(v, n))
    ensures AllJoin(v) && NoPairTwice(v)
  {
    hide Joining, Opposite;
  }

  lemma SameMembers(w: World, v: World, spec: string -> ClusterSpec, used: set<string>)
    requires v.meshes.Keys == w.meshes.Keys && forall h | h in v.meshes :: v.meshes[h].clusters == w.meshes[h].clusters
    ensures Members(w, spec, used) ==> Members(v, spec, used)
    ensures OneMesh(w) ==> OneMesh(v)
    ensures forall n | n in w.peerings && n in v.peerings && w.peerings[n] == v.peerings[n] ::
      Joining(w, n) ==> Joining(v, n)
  {
    hide MembersOf, HasMember;
  }

  lemma UnlinkedLists(w: World, g: string, l: Links)
    requires RefsExact(w) && g in w.meshes
    requires NoDup(l.refs) && forall n | n in l.peerings :: n in w.peerings && l.peerings[n] == w.peerings[n]
    requires forall n :: n in l.refs <==> n in w.meshes[g].refs && n in l.peerings
    requires forall n | n in w.peerings && n !in l.peerings :: n in w.meshes[g].refs
    ensures RefsExact(Working(w, g, w.meshes[g].clusters, l))
  {
    var v := Working(w, g, w.meshes[g].clusters, l);
    assert Lists(w.meshes[g].refs, w.peerings, g);
    forall h | h in v.meshes ensures Lists(v.meshes[h].refs, v.peerings, h) {
      assert Lists(w.meshes[h].refs, w.peerings, h);
      forall n ensures n in Owned(l.peerings, h) <==> n in Owned(w.peerings, h) && n in l.peerings {
      }
      forall n | n in Owned(w.peerings, h) && h != g ensures n in l.peerings {
        assert n !in Owned(w.peerings, g);
      }
      hide Owned;
    }
  }

  lemma PrefixUnlinkedInv(w: World, x: string, g: string, k: nat, spec: string -> ClusterSpec, used: set<string>)
    requires Inv(w, spec, used) && g in w.meshes && k <= |w.meshes[g].refs|
    ensures var m := w.meshes[g];
      Inv(Working(w, g, m.clusters, UnlinkAll(x, m.refs[..k], Links(m.refs, w.peerings))), spec, used)
  {
    var m := w.meshes[g];
    assert Lists(m.refs, w.peerings, g);
    UnlinkAllIs(x, m.refs, k, w.peerings);
    hide Inv, UnlinkAll, Contains;
    var l := UnlinkAll(x, m.refs[..k], Links(m.refs, w.peerings));
    forall n | n in m.refs ensures n in w.peerings {
      assert n in Owned(w.peerings, g);
    }
    UnlinkedInv(w, g, l, spec, used);
  }

  lemma HasMemberHead(clusters: seq<ClusterSpec>, x: string)
    requires clusters != []
    ensures HasMember(clusters, x) <==> clusters[0].name == x || HasMember(clusters[1..], x)
  {
    MemberIs(clusters, x);
    MemberIs(clusters[1..], x);
    assert clusters == [clusters[0]] + clusters[1..];
    hide HasMember;
  }

  lemma {:induction false} RemovedElements(clusters: seq<ClusterSpec>, x: string)
    requires DistinctMembers(clusters)
    ensures forall c :: c in RemoveMember(clusters, x) <==> c in clusters && c.name != x
  {
    if clusters != [] {
      var t := clusters[1..];
      assert clusters == [clusters[0]] + t;
      assert forall i | 0 <= i < |t| :: t[i] == clusters[i + 1];
      RemovedElements(t, x);
      assert forall c | c in t :: c.name != clusters[0].name;
    }
  }

  lemma {:induction false} RemovedLength(clusters: seq<ClusterSpec>, x: string)
    ensures |RemoveMember(clusters, x)| == |clusters| - if HasMember(clusters, x) then 1 else 0
  {
    if clusters != [] {
      HasMemberHead(clusters, x);
      RemovedLength(clusters[1..], x);
      hide HasMember;
    }
  }

  lemma PrependDistinct(c: ClusterSpec, r: seq<ClusterSpec>)
    requires DistinctMembers(r)
    requires forall i | 0 <= i < |r| :: r[i].name != c.name
    ensures DistinctMembers([c] + r)
  {
    var u := [c] + r;
    forall i, j | 0 <= i < j < |u| ensures u[i].name != u[j].name {
      assert u[j] == r[j - 1] && (i > 0 ==> u[i] == r[i - 1]);
    }
  }

  lemma TailDistinct(clusters: seq<ClusterSpec>)
    requires clusters != [] && DistinctMembers(clusters)
    ensures DistinctMembers(clusters[1..])
    ensures forall c | c in clusters[1..] :: c.name != clusters[0].name
  {
    var t := clusters[1..];
    assert forall i | 0 <= i < |t| :: t[i] == clusters[i + 1];
  }

  lemma {:induction false} RemovedDistinct(clusters: seq<ClusterSpec>, x: string)
    requires DistinctMembers(clusters)
    ensures DistinctMembers(RemoveMember(clusters, x))
  {
    if clusters != [] {
      var c, t := clusters[0], clusters[1..];
      TailDistinct(clusters);
      var r := RemoveMember(t, x);
      assert RemoveMember(clusters, x) == if c.name == x then t else [c] + r;
      RemovedElements(t, x);
      RemovedDistinct(t, x);
      hide DistinctMembers;
      forall i | 0 <= i < |r| ensures r[i].name != c.name {
        assert r[i] in t;
      }
      PrependDistinct(c, r);
    }
  }

  lemma RemovedMember(clusters: seq<ClusterSpec>, x: string)
    requires DistinctMembers(clusters)
    ensures var r := RemoveMember(clusters, x);
      && (forall c :: c in r <==> c in clusters && c.name != x)
      && DistinctMembers(r)
      && |r| == |clusters| - if HasMember(clusters, x) then 1 else 0
  {
    RemovedElements(clusters, x);
    RemovedDistinct(clusters, x);
    RemovedLength(clusters, x);
    hide HasMember, RemoveMember;
  }

  lemma MemberIs(clusters: seq<ClusterSpec>, x: string)
    ensures HasMember(clusters, x) <==> exists c :: c in clusters && c.name == x
  {
    if HasMember(clusters, x) {
      var i :| 0 <= i < |clusters| && clusters[i].name == x;
      assert clusters[i] in clusters;
    }
    if c :| c in clusters && c.name == x {
      InHasMember(clusters, c);
    }
  }

  lemma RestMembers(clusters: seq<ClusterSpec>, x: string, spec: string -> ClusterSpec, used: set<string>)
    requires MembersOf(clusters, spec, used)
    ensures RemoveMember(clusters, x) != [] ==> MembersOf(RemoveMember(clusters, x), spec, used)
    ensures forall y :: HasMember(RemoveMember(clusters, x), y) <==> HasMember(clusters, y) && y != x
  {
    var r := RemoveMember(clusters, x);
    RemovedMember(clusters, x);
    forall y ensures HasMember(r, y) <==> HasMember(clusters, y) && y != x {
      MemberIs(r, y);
      MemberIs(clusters, y);
    }
    forall i | 0 <= i < |r| ensures r[i] == spec(r[i].name) && r[i].name in used {
      assert r[i] in clusters;
    }
  }

  lemma EndpointsContained(x: string, y: string)
    ensures Contains(PeeringName(x, y), x) && Contains(PeeringName(y, x), x)
  {
    assert At(PeeringName(x, y), 0, x);
    assert At(PeeringName(y, x), |y| + 1, x);
  }

  /** Once no peering of `g` joins `x`, the member can go. */
  lemma MemberGoneInv(w: World, x: string, g: string, spec: string -> ClusterSpec, used: set<string>)
    requires Inv(w, spec, used) && g in w.meshes
    requires forall n | n in w.peerings && w.peerings[n].owner == g ::
      w.peerings[n].requester != x && w.peerings[n].accepter != x
    requires RemoveMember(w.meshes[g].clusters, x) != []
    ensures var rest := RemoveMember(w.meshes[g].clusters, x);
      Inv(World(w.meshes[g := w.meshes[g].(clusters := rest)], w.peerings), spec, used)
  {
    var m := w.meshes[g];
    var v := World(w.meshes[g := m.(clusters := RemoveMember(m.clusters, x))], w.peerings);
    assert MembersOf(m.clusters, spec, used);
    RestMembers(m.clusters, x, spec, used);
    hide MembersOf, HasMember, RemoveMember, Lists;
    forall h | h in v.meshes
      ensures Lists(v.meshes[h].refs, v.peerings, h) && MembersOf(v.meshes[h].clusters, spec, used)
    {
      assert Lists(w.meshes[h].refs, w.peerings, h) && MembersOf(w.meshes[h].clusters, spec, used);
    }
    forall n | n in v.peerings ensures Joining(v, n) {
      assert Joining(w, n);
    }
    forall y, h, k | h in v.meshes && k in v.meshes && HasMember(v.meshes[h].clusters, y)
      && HasMember(v.meshes[k].clusters, y)
      ensures h == k
    {
      assert HasMember(w.meshes[h].clusters, y) && HasMember(w.meshes[k].clusters, y);
    }
  }

  lemma NoneJoins(w: World, x: string, g: string, spec: string -> ClusterSpec, used: set<string>)
    requires Inv(w, spec, used) && g in w.meshes
    ensures var m := w.meshes[g];
      var l := UnlinkAll(x, m.refs, Links(m.refs, w.peerings));
      forall n | n in l.peerings && l.peerings[n].owner == g ::
        l.peerings[n].requester != x && l.peerings[n].accepter != x
  {
    var m := w.meshes[g];
    assert Lists(m.refs, w.peerings, g);
    UnlinkAllIs(x, m.refs, |m.refs|, w.peerings);
    assert m.refs[..|m.refs|] == m.refs;
    var l := UnlinkAll(x, m.refs, Links(m.refs, w.peerings));
    hide UnlinkAll, Contains, MembersOf, HasMember;
    forall n | n in l.peerings && l.peerings[n].owner == g
      ensures l.peerings[n].requester != x && l.peerings[n].accepter != x
    {
      assert n in Owned(w.peerings, g);
      assert Joining(w, n);
      EndpointsContained(x, l.peerings[n].requester);
      EndpointsContained(x, l.peerings[n].accepter);
    }
  }

  lemma FirstIn(names: seq<string>)
    ensures names == [] || names[0] in names
  {
  }

  /** A mesh of one member has no peering. */
  lemma LastMember(w: World, x: string, g: string, spec: string -> ClusterSpec, used: set<string>)
    requires Inv(w, spec, used) && g in w.meshes && RemoveMember(w.meshes[g].clusters, x) == []
    ensures Owned(w.peerings, g) == {} && w.meshes[g].refs == []
  {
    var m := w.meshes[g];
    assert MembersOf(m.clusters, spec, used);
    RestMembers(m.clusters, x, spec, used);
    assert !HasMember([], x);
    forall n | n in w.peerings ensures w.peerings[n].owner != g {
      assert Joining(w, n);
    }
    assert Lists(m.refs, w.peerings, g);
    FirstIn(m.refs);
  }

  lemma MeshGoneInv(w: World, g: string, spec: string -> ClusterSpec, used: set<string>)
    requires Inv(w, spec, used) && g in w.meshes && Owned(w.peerings, g) == {}
    ensures Inv(World(w.meshes - {g}, w.peerings), spec, used)
  {
    var v := World(w.meshes - {g}, w.peerings);
    hide MembersOf, HasMember, Lists;
    forall n | n in v.peerings ensures Joining(v, n) {
      assert Joining(w, n);
      assert n !in Owned(w.peerings, g);
    }
  }

  // ---- One reconcile ----

  lemma AddMemberInv(w: World, self: ClusterSpec, g: string, names: seq<string>, spec: string -> ClusterSpec,
                     used: set<string>)
    requires Inv(w, spec, used) && g in w.meshes && self == spec(self.name) && self.name in used
      && Lists(names, w.peerings, g)
    requires forall h | h in w.meshes && h != g :: !HasMember(w.meshes[h].clusters, self.name)
    ensures var clusters := AddMember(w.meshes[g].clusters, self);
      self in clusters && Inv(Working(w, g, clusters, Links(names, w.peerings)), spec, used)
  {
    var m := w.meshes[g];
    if HasMember(m.clusters, self.name) {
      assert MembersOf(m.clusters, spec, used);
      MemberIs(m.clusters, self.name);
      assert self in m.clusters;
      SameRefsInv(w, g, names, spec, used);
    } else {
      AddedInv(w, m.clusters, self, g, names, spec, used);
    }
  }

  lemma SameRefsInv(w: World, g: string, names: seq<string>, spec: string -> ClusterSpec, used: set<string>)
    requires Inv(w, spec, used) && g in w.meshes && Lists(names, w.peerings, g)
    ensures Inv(Working(w, g, w.meshes[g].clusters, Links(names, w.peerings)), spec, used)
  {
    var l := Links(names, w.peerings);
    assert Lists(w.meshes[g].refs, w.peerings, g);
    forall n | n in w.meshes[g].refs ensures n in w.peerings {
      assert n in Owned(w.peerings, g);
    }
    hide Inv;
    UnlinkedInv(w, g, l, spec, used);
  }

  lemma JoinInv(w: World, self: ClusterSpec, g: string, v: World, err: bool, spec: string -> ClusterSpec,
                used: set<string>)
    requires Inv(w, spec, used) && Unambiguous(used) && self == spec(self.name) && self.name in used
    requires forall h | h in w.meshes && h != g :: !HasMember(w.meshes[h].clusters, self.name)
    requires Joins(w, self, g, v, err)
    ensures Inv(v, spec, used)
  {
    if err && v == w {
    } else if g !in w.meshes {
      CreateInv(w, self, g, spec, used);
    } else {
      var clusters := AddMember(w.meshes[g].clusters, self);
      if err && v == Stored(w, g, clusters, Links(w.meshes[g].refs, w.peerings)) {
        assert Lists(w.meshes[g].refs, w.peerings, g);
        AddMemberInv(w, self, g, w.meshes[g].refs, spec, used);
        StoredInv(w, g, clusters, Links(w.meshes[g].refs, w.peerings), spec, used);
      } else {
        hide Inv, AddMember, Working, Stored, LinkAll, HasMember;
        var names, k: nat :| LinksPrefix(w, self, g, clusters, names, k, v, err);
        AddMemberInv(w, self, g, names, spec, used);
        LinkAllInv(w, g, clusters, self, k, Links(names, w.peerings), spec, used);
        StoredInv(w, g, clusters, LinkAll(g, self, clusters[..k], Links(names, w.peerings)), spec, used);
      }
    }
  }

  lemma LeaveInv(w: World, x: string, g: string, v: World, err: bool, spec: string -> ClusterSpec, used: set<string>)
    requires Inv(w, spec, used) && g in w.meshes && Leaves(w, x, g, v, err)
    ensures Inv(v, spec, used)
  {
    var m := w.meshes[g];
    var l0 := Links(m.refs, w.peerings);
    var l, rest := UnlinkAll(x, m.refs, l0), RemoveMember(m.clusters, x);
    hide Inv, UnlinkAll, RemoveMember;
    if err && v == w {
    } else if k :| err && 0 <= k <= |m.refs| && v == Stored(w, g, m.clusters, UnlinkAll(x, m.refs[..k], l0)) {
      PrefixUnlinkedInv(w, x, g, k, spec, used);
      StoredInv(w, g, m.clusters, UnlinkAll(x, m.refs[..k], l0), spec, used);
    } else if rest != [] {
      GoneInv(w, x, g, l, rest, spec, used);
      StoredInv(w, g, rest, l, spec, used);
    } else {
      LastMember(w, x, g, spec, used);
      assert l == l0 by { NothingUnlinked(x, m.refs, l0); }
      assert w.(peerings := l.peerings) == w;
      MeshGoneInv(w, g, spec, used);
    }
  }

  lemma NothingUnlinked(x: string, names: seq<string>, l: Links)
    requires names == []
    ensures UnlinkAll(x, names, l) == l
  {
  }

  lemma GoneInv(w: World, x: string, g: string, l: Links, rest: seq<ClusterSpec>, spec: string -> ClusterSpec,
                used: set<string>)
    requires Inv(w, spec, used) && g in w.meshes
    requires l == UnlinkAll(x, w.meshes[g].refs, Links(w.meshes[g].refs, w.peerings))
    requires rest == RemoveMember(w.meshes[g].clusters, x) && rest != []
    ensures Inv(Working(w, g, rest, l), spec, used)
  {
    hide Inv, UnlinkAll, RemoveMember;
    var m := w.meshes[g];
    assert m.refs[..|m.refs|] == m.refs;
    PrefixUnlinkedInv(w, x, g, |m.refs|, spec, used);
    NoneJoins(w, x, g, spec, used);
    var a := Working(w, g, m.clusters, l);
    MemberGoneInv(a, x, g, spec, used);
    assert World(a.meshes[g := a.meshes[g].(clusters := rest)], a.peerings) == Working(w, g, rest, l);
  }

  /** Safety: every reconcile keeps the invariant, wherever it fails. */
  lemma ReconciledInv(w: World, spec: string -> ClusterSpec, r: Request, v: World, err: bool, used: set<string>)
    requires Faithful(spec) && Unambiguous(used) && r.name in used
    requires Inv(w, spec, used) && StaysInGroup(w, r) && Reconciled(w, spec, r, v, err)
    ensures Inv(v, spec, used)
  {
    hide Inv, Joins, Leaves, Unambiguous;
    match r.group
    case Some(g) => JoinInv(w, spec(r.name), g, v, err, spec, used);
    case None =>
      if v != w {
        var g :| g in w.meshes && HasMember(w.meshes[g].clusters, r.name) && Leaves(w, r.name, g, v, err);
        LeaveInv(w, r.name, g, v, err, spec, used);
      }
  }
}
