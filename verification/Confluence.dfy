/** What a plan keeps of each source depends on the operations of that source alone. So
    forgetting a source erases its records from the history, and the order in which
    workers interleave does not show in the plan. */
module Confluence {
  import opened Json
  import opened Records

  // ---- Erasure ----

  predicate IsRecordOf(op: Op, name: string) {
    (op.Rec? || op.Drop?) && op.source.String() == name
  }

  /** The history without the records of `name`. Results stay: `forget` keeps them. */
  function Erase(h: seq<Op>, name: string): seq<Op> {
    if h == [] then []
    else
      var n := |h| - 1;
      Erase(h[..n], name) + if IsRecordOf(h[n], name) then [] else [h[n]]
  }

  /** The recorded part of a plan. */
  function Recorded(s: State): State {
    s.(results := map[])
  }

  lemma OthersSnoc(sources: seq<Source>, x: Source, name: string)
    ensures Others(sources + [x], name) == Others(sources, name) + if x.String() != name then [x] else []
  {
    assert (sources + [x])[..|sources|] == sources;
  }

  lemma {:induction false} OthersCommute(sources: seq<Source>, a: string, b: string)
    ensures Others(Others(sources, a), b) == Others(Others(sources, b), a)
  {
    if sources != [] {
      var n := |sources| - 1;
      var p, x := sources[..n], sources[n];
      assert sources == p + [x];
      OthersCommute(p, a, b);
      OthersDrop(p, x, a, b);
      OthersDrop(p, x, b, a);
    }
  }

  lemma OthersDrop(p: seq<Source>, x: Source, a: string, b: string)
    ensures p + [x] != []
    ensures Others(Others(p + [x], a), b)
      == Others(Others(p, a), b) + if x.String() != a && x.String() != b then [x] else []
  {
    OthersSnoc(p, x, a);
    var pa := Others(p, a);
    if x.String() == a {
      assert pa + [] == pa;
    } else {
      OthersSnoc(pa, x, b);
    }
  }

  lemma {:induction false} OthersListed(sources: seq<Source>, name: string, other: string)
    ensures Listed(Others(sources, name), other) <==> Listed(sources, other) && name != other
  {
    if sources != [] {
      var n := |sources| - 1;
      var p, x := sources[..n], sources[n];
      OthersListed(p, name, other);
      assert sources == p + [x];
      ListedSnoc(p, x, other);
      ListedSnoc(Others(p, name), x, other);
      assert Others(p, name) + [] == Others(p, name);
    }
  }

  lemma ListedSnoc(sources: seq<Source>, x: Source, name: string)
    ensures Listed(sources + [x], name) <==> Listed(sources, name) || x.String() == name
  {
    var t := sources + [x];
    if Listed(sources, name) {
      var i :| 0 <= i < |sources| && sources[i].String() == name;
      assert t[i].String() == name;
    }
    assert t[|sources|] == x;
  }

  lemma OthersAddOwn(sources: seq<Source>, x: Source)
    ensures Others(AddSource(sources, x), x.String()) == Others(sources, x.String())
  {
    OthersSnoc(sources, x, x.String());
  }

  lemma OthersAddOther(sources: seq<Source>, x: Source, name: string)
    requires x.String() != name
    ensures Others(AddSource(sources, x), name) == AddSource(Others(sources, name), x)
    ensures Others(AddSource(sources, x), name) != []
  {
    OthersSnoc(sources, x, name);
    OthersListed(sources, name, x.String());
  }

  lemma ForgetPutOwn(objects: Objects, key: ObjectKey, name: string, w: Write)
    ensures ForgetObjects(PutWrite(objects, key, name, w), name) == ForgetObjects(objects, name)
  {
    var t := PutWrite(objects, key, name, w);
    assert t[key] - {name} == BySource(objects, key) - {name};
  }

  lemma ForgetPutOther(objects: Objects, key: ObjectKey, other: string, w: Write, name: string)
    requires other != name
    ensures ForgetObjects(PutWrite(objects, key, other, w), name)
      == PutWrite(ForgetObjects(objects, name), key, other, w)
  {
    var t := PutWrite(objects, key, other, w);
    assert other in t[key] - {name};
    assert t[key] - {name} == (BySource(objects, key) - {name})[other := w];
    assert BySource(ForgetObjects(objects, name), key) == BySource(objects, key) - {name};
  }

  lemma WriteForForget(objects: Objects, key: ObjectKey, source: Source, live: Object, name: string)
    requires source.String() != name
    ensures WriteFor(ForgetObjects(objects, name), key, source, live) == WriteFor(objects, key, source, live)
  {
    assert BySource(ForgetObjects(objects, name), key) == BySource(objects, key) - {name};
  }

  lemma ForgetCloudPut(cloud: Cloud, id: string, sources: seq<Source>, name: string)
    ensures ForgetCloud(cloud[id := sources], name) ==
      if Others(sources, name) == [] then ForgetCloud(cloud, name) - {id}
      else ForgetCloud(cloud, name)[id := Others(sources, name)]
  {
    hide Others;
  }

  lemma SourcesForget(cloud: Cloud, id: string, name: string)
    ensures SourcesOf(ForgetCloud(cloud, name), id) == Others(SourcesOf(cloud, id), name)
  {
  }

  lemma ForgetCloudOwn(cloud: Cloud, id: string, source: Source)
    ensures ForgetCloud(cloud[id := AddSource(SourcesOf(cloud, id), source)], source.String())
      == ForgetCloud(cloud, source.String())
  {
    var before, name := SourcesOf(cloud, id), source.String();
    OthersAddOwn(before, source);
    ForgetCloudPut(cloud, id, AddSource(before, source), name);
    SourcesForget(cloud, id, name);
    hide AddSource, Others;
  }

  lemma ForgetCloudOther(cloud: Cloud, id: string, source: Source, name: string)
    requires source.String() != name
    ensures var c := ForgetCloud(cloud, name);
      ForgetCloud(cloud[id := AddSource(SourcesOf(cloud, id), source)], name)
        == c[id := AddSource(SourcesOf(c, id), source)]
  {
    var before := SourcesOf(cloud, id);
    OthersAddOther(before, source, name);
    ForgetCloudPut(cloud, id, AddSource(before, source), name);
    SourcesForget(cloud, id, name);
    hide AddSource, Others, ForgetCloud, SourcesOf;
  }

  lemma ForgetOwnRecord(s: State, source: Source, r: Record)
    ensures Forget(ApplyRecord(s, source, r), source.String()) == Forget(s, source.String())
  {
    hide PutWrite, ForgetObjects, ForgetCloud, AddSource, SourcesOf, StepWrite, WriteFor;
    match r
    case OnObject(key, or) =>
      ForgetPutOwn(s.objects, key, source.String(), StepWrite(WriteFor(s.objects, key, source, LiveOf(or)), or));
    case OnCloud(id) => ForgetCloudOwn(s.cloud, id, source);
    case OnError(_) =>
  }

  lemma ForgetOtherRecord(s: State, source: Source, r: Record, name: string)
    requires source.String() != name
    ensures Forget(ApplyRecord(s, source, r), name) == ApplyRecord(Forget(s, name), source, r)
  {
    hide PutWrite, ForgetObjects, ForgetCloud, AddSource, SourcesOf, StepWrite, WriteFor;
    match r
    case OnObject(key, or) =>
      ForgetPutOther(s.objects, key, source.String(), StepWrite(WriteFor(s.objects, key, source, LiveOf(or)), or),
        name);
      WriteForForget(s.objects, key, source, LiveOf(or), name);
    case OnCloud(id) => ForgetCloudOther(s.cloud, id, source, name);
    case OnError(_) =>
  }

  lemma ForgetObjectsCommute(objects: Objects, a: string, b: string)
    ensures ForgetObjects(ForgetObjects(objects, a), b) == ForgetObjects(ForgetObjects(objects, b), a)
  {
    forall key | key in objects ensures objects[key] - {a} - {b} == objects[key] - {b} - {a} {
    }
    var t, u := ForgetObjects(ForgetObjects(objects, a), b), ForgetObjects(ForgetObjects(objects, b), a);
    forall key ensures key in t <==> key in u {
      if key in objects {
        assert objects[key] - {a} - {b} == objects[key] - {b} - {a};
      }
    }
  }

  lemma ForgetCloudCommute(cloud: Cloud, a: string, b: string)
    ensures ForgetCloud(ForgetCloud(cloud, a), b) == ForgetCloud(ForgetCloud(cloud, b), a)
  {
    forall id | id in cloud ensures Others(Others(cloud[id], a), b) == Others(Others(cloud[id], b), a) {
      OthersCommute(cloud[id], a, b);
    }
  }

  lemma ForgetForget(s: State, a: string, b: string)
    ensures Forget(Forget(s, a), b) == Forget(Forget(s, b), a)
  {
    ForgetObjectsCommute(s.objects, a, b);
    ForgetCloudCommute(s.cloud, a, b);
    assert s.writeErrors - {a} - {b} == s.writeErrors - {b} - {a};
  }

  lemma {:induction false} OthersTwice(sources: seq<Source>, name: string)
    ensures Others(Others(sources, name), name) == Others(sources, name)
  {
    if sources != [] {
      var p, x := sources[..|sources| - 1], sources[|sources| - 1];
      assert sources == p + [x];
      OthersTwice(p, name);
      OthersDrop(p, x, name, name);
    }
  }

  lemma ForgetObjectsTwice(objects: Objects, name: string)
    ensures ForgetObjects(ForgetObjects(objects, name), name) == ForgetObjects(objects, name)
  {
    forall key | key in objects ensures objects[key] - {name} - {name} == objects[key] - {name} {
    }
  }

  lemma ForgetCloudTwice(cloud: Cloud, name: string)
    ensures ForgetCloud(ForgetCloud(cloud, name), name) == ForgetCloud(cloud, name)
  {
    forall id | id in cloud ensures Others(Others(cloud[id], name), name) == Others(cloud[id], name) {
      OthersTwice(cloud[id], name);
    }
  }

  lemma ForgetTwice(s: State, name: string)
    ensures Forget(Forget(s, name), name) == Forget(s, name)
  {
    hide ForgetObjects, ForgetCloud;
    ForgetObjectsTwice(s.objects, name);
    ForgetCloudTwice(s.cloud, name);
    assert s.writeErrors - {name} - {name} == s.writeErrors - {name};
  }

  lemma RecordedApply(s: State, t: State, op: Op)
    requires Recorded(s) == Recorded(t)
    ensures Recorded(Apply(s, op)) == Recorded(Apply(t, op))
  {
    hide PutRecord, ForgetObjects, ForgetCloud, AddSource, SourcesOf, Classify, Reason;
    match op
    case Rec(_, _) =>
    case Drop(_) =>
    case Finish(_, _) =>
    case SetResult(_, _, _) =>
  }

  /** Forgetting a source and applying an operation of another one commute; an operation of
      the source itself is forgotten. */
  lemma ForgetApply(s: State, op: Op, name: string)
    ensures Recorded(Forget(Apply(s, op), name))
         == Recorded(if IsRecordOf(op, name) then Forget(s, name) else Apply(Forget(s, name), op))
  {
    match op
    case Rec(source, r) =>
      if source.String() == name { ForgetOwnRecord(s, source, r); } else { ForgetOtherRecord(s, source, r, name); }
    case Drop(source) =>
      if source.String() == name { ForgetTwice(s, name); } else { ForgetForget(s, source.String(), name); }
    case Finish(_, _) =>
    case SetResult(_, _, _) =>
  }

  lemma ReplaySnoc(h: seq<Op>, op: Op)
    ensures Replay(h + [op]) == Apply(Replay(h), op)
  {
    assert (h + [op])[..|h|] == h;
  }

  /** The erasure theorem: after any history, `forget` leaves exactly the plan of the history
      in which the source recorded nothing. */
  lemma {:induction false} Erasure(h: seq<Op>, name: string)
    ensures Recorded(Forget(Replay(h), name)) == Recorded(Replay(Erase(h, name)))
  {
    if h == [] {
      assert Forget(EMPTY, name) == EMPTY;
    } else {
      hide Apply, Forget;
      var p, op := h[..|h| - 1], h[|h| - 1];
      Erasure(p, name);
      ForgetApply(Replay(p), op, name);
      if !IsRecordOf(op, name) {
        ReplaySnoc(Erase(p, name), op);
        RecordedApply(Forget(Replay(p), name), Replay(Erase(p, name)), op);
      } else {
        assert Erase(p, name) + [] == Erase(p, name);
      }
    }
  }
}
