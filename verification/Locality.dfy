/** A plan is the sum of what each source did to it: the view of a source is the fold of its
    own operations. Hence every interleaving of the same operations per source ends in the
    same plan. */
module Locality {
  import opened Json
  import opened Records
  import opened Confluence

  datatype Completion = Done | Left | Incomplete

  /** Pending and failed reconciles both make a plan incomplete. */
  function Completes(status: Status): Completion {
    match status
    case OK => Done
    case Skipped => Left
    case Pending => Incomplete
    case Failed => Incomplete
  }

  /** What a plan holds of one source. */
  datatype View = View(
    writes: map<ObjectKey, Write>,
    cloud: Cloud,
    err: Option<Error>,
    completion: Option<Completion>)

  const NOTHING := View(map[], map[], None, None)

  /** The entries of `name` in a list of sources. */
  function Mine(sources: seq<Source>, name: string): seq<Source> {
    if sources == [] then []
    else
      var n := |sources| - 1;
      Mine(sources[..n], name) + if sources[n].String() == name then [sources[n]] else []
  }

  function WritesOf(objects: Objects, name: string): map<ObjectKey, Write> {
    map key | key in objects && name in objects[key] :: objects[key][name]
  }

  function CloudOf(cloud: Cloud, name: string): Cloud {
    map id | id in cloud && Mine(cloud[id], name) != [] :: Mine(cloud[id], name)
  }

  function ViewOf(s: State, name: string): View {
    View(
      WritesOf(s.objects, name),
      CloudOf(s.cloud, name),
      if name in s.writeErrors then Some(s.writeErrors[name]) else None,
      if name in s.results then Some(Completes(s.results[name].status)) else None)
  }

  // ---- The run of one source alone ----

  /** How a reconcile that ends with `o` completes, whatever the rest of the plan is. */
  function Ending(o: Outcome): Completion {
    if o.err.None? && !(0 < o.requeueAfter < HOUR) then Done else Incomplete
  }

  function StepRecord(v: View, source: Source, r: Record): View {
    match r
    case OnObject(key, or) =>
      var w := if key in v.writes then v.writes[key] else NewWrite(source, LiveOf(or));
      v.(writes := v.writes[key := StepWrite(w, or)])
    case OnCloud(id) => if id in v.cloud then v else v.(cloud := v.cloud[id := [source]])
    case OnError(err) => if v.err.Some? then v else v.(err := Some(err))
  }

  function Step(v: View, op: Op): View {
    match op
    case Rec(source, r) => StepRecord(v, source, r)
    case Drop(_) => NOTHING.(completion := v.completion)
    case Finish(_, o) => v.(completion := Some(Ending(o)))
    case SetResult(_, status, _) => v.(completion := Some(Completes(status)))
  }

  /** The operations of one source, in their order. */
  function Own(h: seq<Op>, name: string): seq<Op> {
    if h == [] then []
    else
      var n := |h| - 1;
      Own(h[..n], name) + if h[n].source.String() == name then [h[n]] else []
  }

  function Alone(h: seq<Op>): View {
    if h == [] then NOTHING else Step(Alone(h[..|h| - 1]), h[|h| - 1])
  }

  lemma AloneSnoc(h: seq<Op>, op: Op)
    ensures Alone(h + [op]) == Step(Alone(h), op)
  {
    assert (h + [op])[..|h|] == h;
  }

  // ---- One operation ----

  lemma MineSnoc(sources: seq<Source>, x: Source, name: string)
    ensures Mine(sources + [x], name) == Mine(sources, name) + if x.String() == name then [x] else []
  {
    assert (sources + [x])[..|sources|] == sources;
  }

  lemma {:induction false} ListedMine(sources: seq<Source>, name: string)
    ensures Listed(sources, name) <==> Mine(sources, name) != []
  {
    if sources != [] {
      var p, x := sources[..|sources| - 1], sources[|sources| - 1];
      assert sources == p + [x];
      ListedSnoc(p, x, name);
      ListedMine(p, name);
    }
  }

  lemma {:induction false} MineOthers(sources: seq<Source>, a: string, b: string)
    ensures Mine(Others(sources, a), b) == if a == b then [] else Mine(sources, b)
  {
    if sources != [] {
      var p, x := sources[..|sources| - 1], sources[|sources| - 1];
      assert sources == p + [x];
      MineOthers(p, a, b);
      OthersSnoc(p, x, a);
      MineSnoc(p, x, b);
      if x.String() != a {
        MineSnoc(Others(p, a), x, b);
      } else {
        assert Others(p, a) + [] == Others(p, a);
      }
    }
  }

  lemma MineAdd(sources: seq<Source>, x: Source, name: string)
    ensures Mine(AddSource(sources, x), name) ==
      if x.String() == name && Mine(sources, name) == [] then [x] else Mine(sources, name)
  {
    ListedMine(sources, x.String());
    MineSnoc(sources, x, name);
  }

  lemma CloudRecord(cloud: Cloud, id: string, source: Source, name: string)
    ensures var t := cloud[id := AddSource(SourcesOf(cloud, id), source)];
      CloudOf(t, name) ==
        if source.String() != name || id in CloudOf(cloud, name) then CloudOf(cloud, name)
        else CloudOf(cloud, name)[id := [source]]
  {
    var before := SourcesOf(cloud, id);
    MineAdd(before, source, name);
    assert Mine([], name) == [];
    CloudPut(cloud, id, AddSource(before, source), name);
    assert id in CloudOf(cloud, name) <==> Mine(before, name) != [];
    hide AddSource, Mine;
  }

  lemma CloudPut(cloud: Cloud, id: string, sources: seq<Source>, name: string)
    ensures CloudOf(cloud[id := sources], name) ==
      if Mine(sources, name) == [] then CloudOf(cloud, name) - {id} else CloudOf(cloud, name)[id := Mine(sources, name)]
  {
    hide Mine;
  }

  lemma CloudForget(cloud: Cloud, a: string, b: string)
    ensures CloudOf(ForgetCloud(cloud, a), b) == if a == b then map[] else CloudOf(cloud, b)
  {
    forall id | id in cloud ensures Mine(Others(cloud[id], a), b) == if a == b then [] else Mine(cloud[id], b) {
      MineOthers(cloud[id], a, b);
    }
    assert Mine([], b) == [];
  }

  lemma ObjectRecord(objects: Objects, key: ObjectKey, source: Source, r: ObjectRecord, name: string)
    ensures var v := WritesOf(objects, name);
      WritesOf(PutRecord(objects, key, source, r), name) ==
        if source.String() != name then v
        else v[key := StepWrite(if key in v then v[key] else NewWrite(source, LiveOf(r)), r)]
  {
    hide StepWrite;
  }

  lemma ObjectsForget(objects: Objects, a: string, b: string)
    ensures WritesOf(ForgetObjects(objects, a), b) == if a == b then map[] else WritesOf(objects, b)
  {
    forall key | key in objects && b in objects[key] && a != b ensures b in objects[key] - {a} {
    }
  }

  /** An operation changes the view of its own source only, and that view decides how. */
  lemma ViewApply(s: State, op: Op, name: string)
    ensures ViewOf(Apply(s, op), name)
      == if op.source.String() == name then Step(ViewOf(s, name), op) else ViewOf(s, name)
  {
    hide PutRecord, ForgetObjects, ForgetCloud, AddSource, SourcesOf, WritesOf, CloudOf, StepWrite;
    match op
    case Rec(source, r) =>
      match r {
        case OnObject(key, or) => ObjectRecord(s.objects, key, source, or, name);
        case OnCloud(id) => CloudRecord(s.cloud, id, source, name);
        case OnError(_) =>
      }
    case Drop(source) =>
      ObjectsForget(s.objects, source.String(), name);
      CloudForget(s.cloud, source.String(), name);
    case Finish(_, _) =>
    case SetResult(_, _, _) =>
  }

  /** The view of a source in any history is the run of its own operations alone. */
  lemma {:induction false} ViewIsLocal(h: seq<Op>, name: string)
    ensures ViewOf(Replay(h), name) == Alone(Own(h, name))
  {
    if h == [] {
      assert ViewOf(EMPTY, name) == NOTHING;
    } else {
      hide ViewOf, Step, Apply;
      var p, op := h[..|h| - 1], h[|h| - 1];
      ViewIsLocal(p, name);
      ViewApply(Replay(p), op, name);
      if op.source.String() == name {
        AloneSnoc(Own(p, name), op);
      } else {
        assert Own(p, name) + [] == Own(p, name);
      }
    }
  }

  // ---- Confluence ----

  ghost predicate DistinctNames(sources: seq<Source>) {
    forall i, j | 0 <= i < j < |sources| :: sources[i].String() != sources[j].String()
  }

  /** What every plan keeps: no empty inner map, no cloud change without sources, none twice. */
  ghost predicate Tidy(s: State) {
    && (forall key | key in s.objects :: s.objects[key] != map[])
    && (forall id | id in s.cloud :: s.cloud[id] != [] && DistinctNames(s.cloud[id]))
  }

  lemma {:induction false} OthersDistinct(sources: seq<Source>, name: string)
    requires DistinctNames(sources)
    ensures DistinctNames(Others(sources, name))
    ensures forall x | x in Others(sources, name) :: x in sources
  {
    if sources != [] {
      var p, x := sources[..|sources| - 1], sources[|sources| - 1];
      OthersDistinct(p, name);
      forall y | y in Others(p, name) ensures y.String() != x.String() {
        assert y in p;
        var i :| 0 <= i < |p| && p[i] == y;
        assert sources[i] == y;
      }
    }
  }

  lemma TidyApply(s: State, op: Op)
    requires Tidy(s)
    ensures Tidy(Apply(s, op))
  {
    hide StepWrite, Classify, Reason;
    match op
    case Rec(source, r) =>
      match r {
        case OnObject(key, or) => assert source.String() in PutRecord(s.objects, key, source, or)[key];
        case OnCloud(id) =>
        case OnError(_) =>
      }
    case Drop(source) =>
      forall id | id in s.cloud ensures DistinctNames(Others(s.cloud[id], source.String())) {
        OthersDistinct(s.cloud[id], source.String());
      }
    case Finish(_, _) =>
    case SetResult(_, _, _) =>
  }

  lemma {:induction false} ReplayTidy(h: seq<Op>)
    ensures Tidy(Replay(h))
  {
    if h != [] {
      hide Apply, Tidy;
      ReplayTidy(h[..|h| - 1]);
      TidyApply(Replay(h[..|h| - 1]), h[|h| - 1]);
    } else {
      assert Tidy(EMPTY);
    }
  }

  /** The same plan up to the order of the sources of a cloud change and to which of the
      incomplete reconciles are pending. */
  ghost predicate SamePlan(s: State, t: State) {
    && s.objects == t.objects
    && s.writeErrors == t.writeErrors
    && s.cloud.Keys == t.cloud.Keys
    && (forall id | id in s.cloud :: multiset(s.cloud[id]) == multiset(t.cloud[id]))
    && s.results.Keys == t.results.Keys
    && (forall name | name in s.results :: Completes(s.results[name].status) == Completes(t.results[name].status))
  }

  lemma SameObjects(s: State, t: State)
    requires Tidy(s) && Tidy(t)
    requires forall name :: WritesOf(s.objects, name) == WritesOf(t.objects, name)
    ensures s.objects == t.objects
  {
    forall key ensures BySource(s.objects, key) == BySource(t.objects, key) {
      forall name ensures name in BySource(s.objects, key) <==> name in BySource(t.objects, key) {
        assert key in WritesOf(s.objects, name) <==> key in WritesOf(t.objects, name);
      }
      forall name | name in BySource(s.objects, key)
        ensures BySource(s.objects, key)[name] == BySource(t.objects, key)[name]
      {
        assert WritesOf(s.objects, name)[key] == WritesOf(t.objects, name)[key];
      }
    }
    forall key ensures key in s.objects <==> key in t.objects {
      assert BySource(s.objects, key) == BySource(t.objects, key);
    }
    forall key | key in s.objects ensures s.objects[key] == t.objects[key] {
      assert BySource(s.objects, key) == BySource(t.objects, key);
    }
  }

  lemma {:induction false} MineCount(sources: seq<Source>, x: Source)
    ensures multiset(Mine(sources, x.String()))[x] == multiset(sources)[x]
  {
    if sources != [] {
      var p, y := sources[..|sources| - 1], sources[|sources| - 1];
      assert sources == p + [y];
      MineCount(p, x);
    }
  }

  lemma SameSources(a: seq<Source>, b: seq<Source>)
    requires forall name :: Mine(a, name) == Mine(b, name)
    ensures multiset(a) == multiset(b)
  {
    forall x ensures multiset(a)[x] == multiset(b)[x] {
      MineCount(a, x);
      MineCount(b, x);
      assert Mine(a, x.String()) == Mine(b, x.String());
    }
  }

  lemma SameCloud(s: State, t: State)
    requires Tidy(s) && Tidy(t)
    requires forall name :: CloudOf(s.cloud, name) == CloudOf(t.cloud, name)
    ensures s.cloud.Keys == t.cloud.Keys
    ensures forall id | id in s.cloud :: multiset(s.cloud[id]) == multiset(t.cloud[id])
  {
    forall id, name ensures Mine(SourcesOf(s.cloud, id), name) == Mine(SourcesOf(t.cloud, id), name) {
      assert CloudOf(s.cloud, name) == CloudOf(t.cloud, name);
      assert id in CloudOf(s.cloud, name) <==> id in CloudOf(t.cloud, name);
    }
    forall id ensures multiset(SourcesOf(s.cloud, id)) == multiset(SourcesOf(t.cloud, id)) {
      SameSources(SourcesOf(s.cloud, id), SourcesOf(t.cloud, id));
    }
    forall id ensures id in s.cloud <==> id in t.cloud {
      assert |SourcesOf(s.cloud, id)| == |multiset(SourcesOf(s.cloud, id))|;
      assert |SourcesOf(t.cloud, id)| == |multiset(SourcesOf(t.cloud, id))|;
    }
    forall id | id in s.cloud ensures multiset(s.cloud[id]) == multiset(t.cloud[id]) {
      assert SourcesOf(s.cloud, id) == s.cloud[id] && SourcesOf(t.cloud, id) == t.cloud[id];
    }
  }

  /** Confluence: two interleavings of the same operations per source give the same plan. */
  lemma PlanConfluence(h: seq<Op>, k: seq<Op>)
    requires forall name :: Own(h, name) == Own(k, name)
    ensures SamePlan(Replay(h), Replay(k))
  {
    var s, t := Replay(h), Replay(k);
    ReplayTidy(h);
    ReplayTidy(k);
    forall name ensures ViewOf(s, name) == ViewOf(t, name) {
      ViewIsLocal(h, name);
      ViewIsLocal(k, name);
      assert Own(h, name) == Own(k, name);
    }
    SameViews(s, t);
  }

  lemma SameViews(s: State, t: State)
    requires Tidy(s) && Tidy(t)
    requires forall name :: ViewOf(s, name) == ViewOf(t, name)
    ensures SamePlan(s, t)
  {
    forall name
      ensures WritesOf(s.objects, name) == WritesOf(t.objects, name) && CloudOf(s.cloud, name) == CloudOf(t.cloud, name)
      ensures name in s.writeErrors <==> name in t.writeErrors
      ensures name in s.writeErrors ==> s.writeErrors[name] == t.writeErrors[name]
      ensures name in s.results <==> name in t.results
      ensures name in s.results ==> Completes(s.results[name].status) == Completes(t.results[name].status)
    {
      assert ViewOf(s, name) == ViewOf(t, name);
    }
    hide WritesOf, CloudOf;
    SameObjects(s, t);
    SameCloud(s, t);
  }
}
