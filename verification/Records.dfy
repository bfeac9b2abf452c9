/** What reconciles record in a plan: the data of a plan, the effect of each record on it,
    and the operations that a whole run applies to it. Each operation of the source holds
    the plan's mutex from start to end, so an operation is one step here. */
module Records {
  import opened Json

  datatype Option<+T> = None | Some(value: T)

  /** The object whose reconcile makes a write. */
  datatype Source = Source(kind: string, namespace: string, name: string, clusters: seq<string>) {
    function String(): string {
      if namespace == "" then kind + "/" + name else kind + "/" + namespace + "/" + name
    }
  }

  datatype ObjectKey = ObjectKey(group: string, kind: string, namespace: string, name: string)

  /** What one source would write to one object. */
  datatype Write = Write(source: Source, created: bool, deleted: bool, live: Object, desired: Object)

  /** An error, by the classes that the code tells apart; wrapping an error keeps its class. */
  datatype Error =
    | Conflict
    | AlreadyExists
    | NotFound(group: string, name: string)
    | NotAvailable
    | Other(text: string)

  datatype Status = OK | Skipped | Pending | Failed

  datatype Result = Result(source: Source, status: Status, reason: string)

  /** The data of a `Plan`. `cloud` has the sources of each AWS or Spot change by its text. */
  type Objects = map<ObjectKey, map<string, Write>>
  type Cloud = map<string, seq<Source>>

  datatype State = State(
    objects: Objects,
    cloud: Cloud,
    results: map<string, Result>,
    writeErrors: map<string, Error>)

  const EMPTY := State(map[], map[], map[], map[])

  // ---- Writes to one object ----

  datatype ObjectRecord =
    | Create(obj: Object)
    | Update(live: Object, obj: Object)
    | StatusUpdate(live: Object, obj: Object)
    | Delete(live: Object)

  /** The object that a record says is in the cluster. */
  function LiveOf(r: ObjectRecord): Object {
    if r.Create? then map[] else r.live
  }

  function NewWrite(source: Source, live: Object): Write {
    Write(source, false, false, live, live)
  }

  /** `obj` with the status of `from`. */
  function WithStatusOf(obj: Object, from: Object): Object {
    if "status" in from then obj["status" := from["status"]] else obj - {"status"}
  }

  /** The effect of a record on the write of its source to its object. */
  function StepWrite(w: Write, r: ObjectRecord): Write {
    match r
    case Create(obj) => w.(created := true, desired := obj)
    case Update(_, obj) => w.(desired := WithStatusOf(obj, w.desired))
    case StatusUpdate(_, obj) => w.(desired := WithStatusOf(w.desired, obj))
    case Delete(_) => w.(deleted := true)
  }

  /** `writeFor`: the write of `source` to `key`, or a new one that starts from `live`. */
  function WriteFor(objects: Objects, key: ObjectKey, source: Source, live: Object): Write {
    var bySource := BySource(objects, key);
    if source.String() in bySource then bySource[source.String()] else NewWrite(source, live)
  }

  function BySource(objects: Objects, key: ObjectKey): map<string, Write> {
    if key in objects then objects[key] else map[]
  }

  function PutWrite(objects: Objects, key: ObjectKey, name: string, w: Write): Objects {
    objects[key := BySource(objects, key)[name := w]]
  }

  function PutRecord(objects: Objects, key: ObjectKey, source: Source, r: ObjectRecord): Objects {
    PutWrite(objects, key, source.String(), StepWrite(WriteFor(objects, key, source, LiveOf(r)), r))
  }

  // ---- Records of one source ----

  datatype Record =
    | OnObject(key: ObjectKey, r: ObjectRecord)
    | OnCloud(id: string)
    | OnError(err: Error)

  predicate Listed(sources: seq<Source>, name: string) {
    exists i | 0 <= i < |sources| :: sources[i].String() == name
  }

  function SourcesOf(cloud: Cloud, id: string): seq<Source> {
    if id in cloud then cloud[id] else []
  }

  function AddSource(sources: seq<Source>, source: Source): seq<Source> {
    if Listed(sources, source.String()) then sources else sources + [source]
  }

  function ApplyRecord(s: State, source: Source, r: Record): State {
    match r
    case OnObject(key, or) =>
      s.(objects := PutRecord(s.objects, key, source, or))
    case OnCloud(id) =>
      s.(cloud := s.cloud[id := AddSource(SourcesOf(s.cloud, id), source)])
    case OnError(err) =>
      if source.String() in s.writeErrors then s
      else s.(writeErrors := s.writeErrors[source.String() := err])
  }

  /** The sources other than `name`, in order. */
  function Others(sources: seq<Source>, name: string): seq<Source> {
    if sources == [] then []
    else
      var n := |sources| - 1;
      Others(sources[..n], name) + if sources[n].String() != name then [sources[n]] else []
  }

  function ForgetObjects(objects: Objects, name: string): Objects {
    map key | key in objects && objects[key] - {name} != map[] :: objects[key] - {name}
  }

  function ForgetCloud(cloud: Cloud, name: string): Cloud {
    map id | id in cloud && Others(cloud[id], name) != [] :: Others(cloud[id], name)
  }

  /** `forget`: drops what `name` recorded, and what is empty without it. */
  function Forget(s: State, name: string): State {
    State(ForgetObjects(s.objects, name), ForgetCloud(s.cloud, name), s.results, s.writeErrors - {name})
  }

  /** `created`: some source creates an object with this group and name. */
  ghost predicate Created(s: State, group: string, name: string) {
    exists key, src ::
      && key in s.objects && key.group == group && key.name == name
      && src in s.objects[key] && s.objects[key][src].created
  }

  // ---- Operations of a run ----

  /** How a reconcile ends: its error, if any, after how many seconds it asks to run again,
      and the text of the error or of that time. */
  datatype Outcome = Outcome(err: Option<Error>, requeueAfter: int, text: string)

  const HOUR := 3600

  /** The classification at the end of `reconcile`. */
  ghost function Classify(s: State, o: Outcome): Status {
    if o.err == Some(NotAvailable) then Pending
    else if o.err.Some? && o.err.value.NotFound? && Created(s, o.err.value.group, o.err.value.name) then Pending
    else if o.err.Some? then Failed
    else if 0 < o.requeueAfter < HOUR then Pending
    else OK
  }

  ghost function Reason(s: State, o: Outcome): string {
    if o.err.Some? && o.err.value.NotFound? && Created(s, o.err.value.group, o.err.value.name)
    then "waits for an object that this plan creates: " + o.text
    else if o.err.Some? then o.text
    else if Classify(s, o) == Pending then "would run again in " + o.text
    else ""
  }

  datatype Op =
    | Rec(source: Source, r: Record)
    | Drop(source: Source)
    | Finish(source: Source, outcome: Outcome)
    | SetResult(source: Source, status: Status, reason: string)

  ghost function Apply(s: State, op: Op): State {
    match op
    case Rec(source, r) => ApplyRecord(s, source, r)
    case Drop(source) => Forget(s, source.String())
    case Finish(source, o) =>
      s.(results := s.results[source.String() := Result(source, Classify(s, o), Reason(s, o))])
    case SetResult(source, status, reason) =>
      s.(results := s.results[source.String() := Result(source, status, reason)])
  }

  /** The plan after the operations `h`, in the order in which they took the mutex. */
  ghost function Replay(h: seq<Op>): State {
    if h == [] then EMPTY else Apply(Replay(h[..|h| - 1]), h[|h| - 1])
  }
}
