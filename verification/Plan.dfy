/** The plan as the object that the reconciles share. Every method holds the mutex, so calls
    from several workers happen one after another; `history` is that order. */
module Plans {
  import opened Json
  import opened Records
  import opened Confluence
  import opened Description
  import opened Report
  import opened Printed
  import opened Symbols
  import opened Writer

  lemma OthersNext(sources: seq<Source>, i: nat, name: string)
    requires i < |sources|
    ensures Others(sources[..i + 1], name) ==
      if sources[i].String() != name then Others(sources[..i], name) + [sources[i]] else Others(sources[..i], name)
  {
    assert sources[..i + 1] == sources[..i] + [sources[i]];
    OthersSnoc(sources[..i], sources[i], name);
    hide Others;
  }

  /** Removes the sources called `name`, in the array itself: `kept := c.sources[:0]`. */
  method Compact(a: array<Source>, name: string) returns (kept: nat)
    modifies a
    ensures kept <= a.Length && a[..kept] == Others(old(a[..]), name)
  {
    ghost var was := a[..];
    kept := 0;
    var i := 0;
    assert was[..0] == [];
    while i < a.Length
      invariant 0 <= kept <= i <= a.Length
      invariant a[..kept] == Others(was[..i], name)
      invariant forall j | i <= j < a.Length :: a[j] == was[j]
    {
      hide Others;
      OthersNext(was, i, name);
      if a[i].String() != name {
        ghost var before := a[..kept];
        a[kept] := a[i];
        kept := kept + 1;
        assert a[..kept] == before + [was[i]];
      }
      i := i + 1;
    }
    assert was[..i] == was;
  }

  // ---- One loop over a map ----

  /** The objects after `forget` has visited the keys `seen`. */
  ghost function ForgottenObjects(objects: Objects, seen: set<ObjectKey>, name: string): Objects {
    map key | key in objects && (key in seen ==> objects[key] - {name} != map[])
      :: if key in seen then objects[key] - {name} else objects[key]
  }

  ghost function ForgottenCloud(cloud: Cloud, seen: set<string>, name: string): Cloud {
    map id | id in cloud && (id in seen ==> Others(cloud[id], name) != [])
      :: if id in seen then Others(cloud[id], name) else cloud[id]
  }

  lemma ForgetNextObject(objects: Objects, seen: set<ObjectKey>, key: ObjectKey, name: string)
    requires key in objects && key !in seen
    ensures var before := ForgottenObjects(objects, seen, name);
      && key in before && before[key] == objects[key]
      && ForgottenObjects(objects, seen + {key}, name)
        == if |objects[key] - {name}| == 0 then before - {key} else before[key := objects[key] - {name}]
  {
    var rest := objects[key] - {name};
    assert |rest| == 0 <==> rest == map[];
    var before, after := ForgottenObjects(objects, seen, name), ForgottenObjects(objects, seen + {key}, name);
    forall k | k != key ensures (k in after <==> k in before) && (k in after ==> after[k] == before[k]) {
    }
    SameButOne(before, after, key);
    assert key in after <==> rest != map[];
    assert rest != map[] ==> after[key] == rest;
    hide ForgottenObjects;
  }

  lemma SameButOne<K, V>(before: map<K, V>, after: map<K, V>, key: K)
    requires forall k | k != key :: (k in after <==> k in before) && (k in after ==> after[k] == before[k])
    ensures if key in after then after == before[key := after[key]] else after == before - {key}
  {
  }

  lemma ForgetNextCloud(cloud: Cloud, seen: set<string>, id: string, name: string)
    requires id in cloud && id !in seen
    ensures var before := ForgottenCloud(cloud, seen, name);
      && id in before && before[id] == cloud[id]
      && ForgottenCloud(cloud, seen + {id}, name)
        == if |Others(cloud[id], name)| == 0 then before - {id} else before[id := Others(cloud[id], name)]
  {
    hide Others;
  }

  lemma ForgetAll(objects: Objects, cloud: Cloud, name: string)
    ensures ForgottenObjects(objects, objects.Keys, name) == ForgetObjects(objects, name)
    ensures ForgottenCloud(cloud, cloud.Keys, name) == ForgetCloud(cloud, name)
  {
  }

  lemma ForgetNone(objects: Objects, cloud: Cloud, keys: set<ObjectKey>, ids: set<string>, name: string)
    requires keys == {} && ids == {}
    ensures ForgottenObjects(objects, keys, name) == objects
    ensures ForgottenCloud(cloud, ids, name) == cloud
  {
  }

  lemma PutTwice(objects: Objects, key: ObjectKey, name: string, w: Write, v: Write)
    ensures PutWrite(PutWrite(objects, key, name, w), key, name, v) == PutWrite(objects, key, name, v)
  {
    assert BySource(objects, key)[name := w][name := v] == BySource(objects, key)[name := v];
  }

  /** Some object of `seen` is created with this group and name. */
  ghost predicate CreatedIn(objects: Objects, seen: set<ObjectKey>, group: string, name: string) {
    exists key, src ::
      && key in seen && key in objects && key.group == group && key.name == name
      && src in objects[key] && objects[key][src].created
  }

  method AnyCreated(bySource: map<string, Write>) returns (found: bool)
    ensures found <==> exists src :: src in bySource && bySource[src].created
  {
    var todo := bySource.Keys;
    while todo != {}
      invariant todo <= bySource.Keys
      invariant forall src | src in bySource && bySource[src].created :: src in todo
      decreases |todo|
    {
      var src :| src in todo;
      if bySource[src].created {
        return true;
      }
      todo := todo - {src};
    }
    return false;
  }

  lemma ListedAdded(sources: seq<Source>, source: Source)
    ensures Listed(AddSource(sources, source), source.String())
  {
    if !Listed(sources, source.String()) {
      assert AddSource(sources, source)[|sources|] == source;
    }
  }

  class Plan {
    var objects: Objects
    var cloud: Cloud
    var results: map<string, Result>
    var writeErrors: map<string, Error>
    ghost var history: seq<Op>

    function Data(): State
      reads this
    {
      State(objects, cloud, results, writeErrors)
    }

    /** The plan is what its history makes it. */
    ghost predicate Valid()
      reads this
    {
      Data() == Replay(history)
    }

    constructor ()
      ensures Valid() && Data() == EMPTY && history == []
    {
      objects, cloud, results, writeErrors, history := map[], map[], map[], map[], [];
    }

    /** `writeFor`: the write of `source` to `key`, stored before it is changed. */
    method WriteTo(key: ObjectKey, source: Source, live: Object) returns (w: Write)
      modifies this`objects
      ensures w == WriteFor(old(objects), key, source, live)
      ensures objects == PutWrite(old(objects), key, source.String(), w)
    {
      if key !in objects {
        objects := objects[key := map[]];
      }
      if source.String() !in objects[key] {
        w := NewWrite(source, live);
        objects := objects[key := objects[key][source.String() := w]];
      } else {
        w := objects[key][source.String()];
        assert objects[key] == objects[key][source.String() := w];
      }
    }

    method Save(key: ObjectKey, source: Source, w: Write)
      requires key in objects
      modifies this`objects
      ensures objects == PutWrite(old(objects), key, source.String(), w)
    {
      objects := objects[key := objects[key][source.String() := w]];
    }

    method RecordCreate(source: Source, key: ObjectKey, obj: Object)
      requires Valid()
      modifies this
      ensures Valid() && history == old(history) + [Rec(source, OnObject(key, Create(obj)))]
    {
      ghost var op := Rec(source, OnObject(key, Create(obj)));
      ReplaySnoc(history, op);
      var w := WriteTo(key, source, map[]);
      PutTwice(old(objects), key, source.String(), w, w.(created := true, desired := obj));
      Save(key, source, w.(created := true, desired := obj));
      history := history + [op];
    }

    /** The status of `obj` is ignored: the server does so for a write of the main resource. */
    method RecordUpdate(source: Source, key: ObjectKey, live: Object, obj: Object)
      requires Valid()
      modifies this
      ensures Valid() && history == old(history) + [Rec(source, OnObject(key, Update(live, obj)))]
    {
      ghost var op := Rec(source, OnObject(key, Update(live, obj)));
      ReplaySnoc(history, op);
      var w := WriteTo(key, source, live);
      var desired := obj;
      if "status" in w.desired {
        desired := desired["status" := w.desired["status"]];
      } else {
        desired := desired - {"status"};
      }
      PutTwice(old(objects), key, source.String(), w, w.(desired := desired));
      Save(key, source, w.(desired := desired));
      history := history + [op];
    }

    method RecordStatusUpdate(source: Source, key: ObjectKey, live: Object, obj: Object)
      requires Valid()
      modifies this
      ensures Valid() && history == old(history) + [Rec(source, OnObject(key, StatusUpdate(live, obj)))]
    {
      ghost var op := Rec(source, OnObject(key, StatusUpdate(live, obj)));
      ReplaySnoc(history, op);
      var w := WriteTo(key, source, live);
      var desired := w.desired;
      if "status" in obj {
        desired := desired["status" := obj["status"]];
      } else {
        desired := desired - {"status"};
      }
      PutTwice(old(objects), key, source.String(), w, w.(desired := desired));
      Save(key, source, w.(desired := desired));
      history := history + [op];
    }

    method RecordDelete(source: Source, key: ObjectKey, live: Object)
      requires Valid()
      modifies this
      ensures Valid() && history == old(history) + [Rec(source, OnObject(key, Delete(live)))]
    {
      ghost var op := Rec(source, OnObject(key, Delete(live)));
      ReplaySnoc(history, op);
      var w := WriteTo(key, source, live);
      PutTwice(old(objects), key, source.String(), w, w.(deleted := true));
      Save(key, source, w.(deleted := true));
      history := history + [op];
    }

    /** The same change from several sources is kept once, with each source once. */
    method RecordCloudChange(source: Source, lines: seq<string>)
      requires Valid()
      modifies this
      ensures Valid() && history == old(history) + [Rec(source, OnCloud(Join(lines, "\n")))]
      ensures lines != [] && (forall i | 0 <= i < |lines| :: OneLine(lines[i])) ==>
        exists id :: id in cloud && SplitLines(id) == lines && Listed(cloud[id], source.String())
    {
      var id := Join(lines, "\n");
      if lines != [] && forall i | 0 <= i < |lines| :: OneLine(lines[i]) {
        SplitJoin(lines);
      }
      ListedAdded(SourcesOf(cloud, id), source);
      ghost var op := Rec(source, OnCloud(id));
      ReplaySnoc(history, op);
      hide SplitLines, PutRecord, Forget, AddSource, Listed;
      AddToCloud(id, source);
      history := history + [op];
    }

    method AddToCloud(id: string, source: Source)
      modifies this`cloud
      ensures cloud == old(cloud)[id := AddSource(SourcesOf(old(cloud), id), source)]
    {
      if id !in cloud {
        cloud := cloud[id := []];
      }
      var sources := cloud[id];
      var i := 0;
      while i < |sources|
        invariant 0 <= i <= |sources|
        invariant forall j | 0 <= j < i :: sources[j].String() != source.String()
      {
        if sources[i].String() == source.String() {
          assert Listed(sources, source.String());
          return;
        }
        i := i + 1;
      }
      cloud := cloud[id := sources + [source]];
    }

    /** Only the first error of a source is kept. */
    method RecordWriteError(source: Source, err: Error)
      requires Valid()
      modifies this
      ensures Valid() && history == old(history) + [Rec(source, OnError(err))]
    {
      ghost var op := Rec(source, OnError(err));
      ReplaySnoc(history, op);
      if source.String() !in writeErrors {
        writeErrors := writeErrors[source.String() := err];
      }
      history := history + [op];
    }

    method WriteError(source: Source) returns (err: Option<Error>)
      ensures err == if source.String() in writeErrors then Some(writeErrors[source.String()]) else None
    {
      if source.String() in writeErrors {
        err := Some(writeErrors[source.String()]);
      } else {
        err := None;
      }
    }

    /** `forget`: the plan is then the one of a history in which `source` recorded nothing. */
    method ForgetSource(source: Source)
      requires Valid()
      modifies this
      ensures Valid() && history == old(history) + [Drop(source)]
      ensures Recorded(Data()) == Recorded(Replay(Erase(old(history), source.String())))
    {
      var name := source.String();
      ReplaySnoc(history, Drop(source));
      Erasure(history, name);
      writeErrors := writeErrors - {name};
      ForgetFromObjects(name);
      ForgetFromCloud(name);
      history := history + [Drop(source)];
    }

    method ForgetFromObjects(name: string)
      modifies this`objects
      ensures objects == ForgetObjects(old(objects), name)
    {
      hide *;
      ghost var was := objects;
      var todo := objects.Keys;
      ForgetNone(was, cloud, was.Keys - todo, {}, name);
      while todo != {}
        invariant todo <= was.Keys
        invariant objects == ForgottenObjects(was, was.Keys - todo, name)
        decreases |todo|
      {
        var key :| key in todo;
        ForgetNextObject(was, was.Keys - todo, key, name);
        assert was.Keys - todo + {key} == was.Keys - (todo - {key});
        todo := todo - {key};
        var bySource := objects[key] - {name};
        objects := if |bySource| == 0 then objects - {key} else objects[key := bySource];
      }
      assert was.Keys - todo == was.Keys;
      ForgetAll(was, cloud, name);
    }

    method ForgetFromCloud(name: string)
      modifies this`cloud
      ensures cloud == ForgetCloud(old(cloud), name)
    {
      hide *;
      ghost var was := cloud;
      var todo := cloud.Keys;
      ForgetNone(objects, was, {}, was.Keys - todo, name);
      while todo != {}
        invariant todo <= was.Keys
        invariant cloud == ForgottenCloud(was, was.Keys - todo, name)
        decreases |todo|
      {
        var id :| id in todo;
        ForgetNextCloud(was, was.Keys - todo, id, name);
        assert was.Keys - todo + {id} == was.Keys - (todo - {id});
        todo := todo - {id};
        var sources := cloud[id];
        var a := new Source[|sources|](i requires 0 <= i < |sources| => sources[i]);
        assert a[..] == sources;
        var kept := Compact(a, name);
        cloud := if kept == 0 then cloud - {id} else cloud[id := a[..kept]];
      }
      assert was.Keys - todo == was.Keys;
      ForgetAll(objects, was, name);
    }

    /** `created`: whether some source creates an object with this group and name. */
    method Creates(group: string, name: string) returns (found: bool)
      ensures found <==> Created(Data(), group, name)
    {
      var todo := objects.Keys;
      while todo != {}
        invariant todo <= objects.Keys
        invariant Created(Data(), group, name) <==> CreatedIn(objects, todo, group, name)
        decreases |todo|
      {
        var key :| key in todo;
        if key.group == group && key.name == name {
          found := AnyCreated(objects[key]);
          if found {
            return;
          }
        }
        todo := todo - {key};
      }
      return false;
    }

    method SetResult(source: Source, status: Status, reason: string)
      requires Valid()
      modifies this
      ensures Valid() && history == old(history) + [Op.SetResult(source, status, reason)]
    {
      hide ApplyRecord, Forget, Classify, Reason;
      ghost var op := Op.SetResult(source, status, reason);
      ReplaySnoc(history, op);
      results := results[source.String() := Result(source, status, reason)];
      history := history + [op];
    }

    /** `Write`: text and summary of the plan that the history makes, whatever the order in
        which the loops range over its maps. By the writes alone: how many objects are created,
        updated and deleted, and the symbol with which each is printed. */
    method Write(p: Printer) returns (text: string, sum: Summary)
      requires Valid() && ValidKeys(objects)
      ensures text == PlanText(p, Replay(history)) && sum == SummaryOf(p, Replay(history))
      ensures sum.create == |MadeOf(objects)| && sum.delete == |RemovedOf(objects)|
      ensures sum.update == |UpdatedOf(objects)| && sum.reorder == |OnlyReorderedOf(objects)|
      ensures sum.cloud == |cloud|
      ensures sum.ok == |EndedIn(results, OK)| && sum.skipped == |EndedIn(results, Skipped)|
      ensures sum.pending == |EndedIn(results, Pending)| && sum.errors == |EndedIn(results, Failed)|
      ensures forall key | key in objects && Touched(objects[key]) ::
        Within(Head(objects[key], key), text)
      ensures forall name | name in results && (results[name].status == Pending || results[name].status == Failed) ::
        Within(ResultLine(results[name]), text)
      ensures forall id | id in cloud && id != "" && id[0] != '\n' :: Within(id, text)
      ensures CountsShown(text, sum)
      ensures forall key, src, i: nat | key in objects && src in objects[key] && LineOf(p, objects[key][src], i) ::
        Within(Describe(p, objects[key][src]).value.lines[i] + "\n", text)
      ensures forall key | key in objects && Touched(objects[key]) ::
        ClusterNames(objects[key]) != "\0" ==> Within(ClusterLine(ClusterNames(objects[key])), text)
    {
      ReplayKeyed(history);
      text, sum := WritePlan(p, Data());
      hide *;
      SummaryCounts(p, Data());
      TextShowsCounts(p, Data());
      forall key, src, i: nat | key in objects && src in objects[key] && LineOf(p, objects[key][src], i)
        ensures Within(Describe(p, objects[key][src]).value.lines[i] + "\n", text)
      {
        TextShowsLine(p, Data(), key, src, i);
      }
      forall key | key in objects && Touched(objects[key])
        ensures ClusterNames(objects[key]) != "\0" ==> Within(ClusterLine(ClusterNames(objects[key])), text)
      {
        if ClusterNames(objects[key]) != "\0" {
          TextShowsClusters(p, Data(), key);
        }
      }
      forall key | key in objects && Touched(objects[key])
        ensures Within(Head(objects[key], key), text)
      {
        TextShowsObject(p, Data(), key);
      }
      forall name | name in results && (results[name].status == Pending || results[name].status == Failed)
        ensures Within(ResultLine(results[name]), text)
      {
        TextShowsResult(p, Data(), name);
      }
      forall id | id in cloud && id != "" && id[0] != '\n' ensures Within(id, text) {
        TextShowsCloud(p, Data(), id);
      }
    }
  }

  // ---- What every plan keeps ----

  lemma KeyedObject(objects: Objects, key: ObjectKey, source: Source, r: ObjectRecord)
    requires KeyedObjects(objects)
    ensures KeyedObjects(PutRecord(objects, key, source, r))
  {
    assert WriteFor(objects, key, source, LiveOf(r)).source.String() == source.String();
    assert StepWrite(WriteFor(objects, key, source, LiveOf(r)), r).source.String() == source.String();
    hide StepWrite, WriteFor;
  }

  lemma KeyedForget(objects: Objects, name: string)
    requires KeyedObjects(objects)
    ensures KeyedObjects(ForgetObjects(objects, name))
  {
    forall key | key in ForgetObjects(objects, name) ensures KeyedWrites(objects[key] - {name}) {
      assert KeyedWrites(objects[key]);
    }
  }

  lemma KeyedApply(s: State, op: Op)
    requires Keyed(s)
    ensures Keyed(Apply(s, op))
  {
    hide KeyedObjects, PutRecord, ForgetObjects, Classify, Reason, AddSource, ForgetCloud;
    match op
    case Rec(source, r) =>
      if r.OnObject? { KeyedObject(s.objects, r.key, source, r.r); }
    case Drop(source) => KeyedForget(s.objects, source.String());
    case Finish(_, _) =>
    case SetResult(_, _, _) =>
  }

  /** Writes and results are kept under the names of their sources. */
  lemma {:induction false} ReplayKeyed(h: seq<Op>)
    ensures Keyed(Replay(h))
  {
    if h != [] {
      hide Apply, Keyed;
      ReplayKeyed(h[..|h| - 1]);
      KeyedApply(Replay(h[..|h| - 1]), h[|h| - 1]);
    }
  }
}
