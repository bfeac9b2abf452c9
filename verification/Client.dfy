/** The writes of a reconcile through the dry-run client: each call asks the API server, then
    records what the server accepted, or the error. A wrapped error keeps its class. */
module Client {
  import opened Json
  import opened Records
  import opened Confluence
  import opened Report
  import opened Plans

  datatype Answer<T> = Good(value: T) | Bad(error: Error)

  datatype Verb =
    | CreateVerb
    | UpdateVerb
    | PatchVerb
    | DeleteVerb
    | SubResource(name: string)

  /** One call and what the world answers: the read of the current object, the server's reply
      to the dry-run write, and the conversions of the written and the current object. */
  datatype Call = Call(
    verb: Verb,
    key: ObjectKey,
    read: Option<Error>,
    reply: Option<Error>,
    desired: Answer<Object>,
    live: Answer<Object>)

  /** Failures that the reconcilers expect. */
  predicate Expected(verb: Verb, err: Error) {
    (verb.CreateVerb? && err.AlreadyExists?) || (verb.DeleteVerb? && err.NotFound?)
  }

  /** The record that an accepted call makes. */
  function Accepted(verb: Verb, live: Object, desired: Object): ObjectRecord {
    match verb
    case CreateVerb => Create(desired)
    case UpdateVerb => Update(live, desired)
    case PatchVerb => Update(live, desired)
    case DeleteVerb => Delete(live)
    case SubResource(name) => if name == "status" then StatusUpdate(live, desired) else Update(live, desired)
  }

  /** The first thing that goes wrong in a call: a delete asks the server before it reads the
      current object, a create never reads it, and the other writes read it first. */
  function Failure(c: Call): Option<Error> {
    var reading := if c.verb.CreateVerb? then None else c.read;
    var first := if c.verb.DeleteVerb? then c.reply else reading;
    var second := if c.verb.DeleteVerb? then reading else c.reply;
    if first.Some? then first
    else if second.Some? then second
    else if c.desired.Bad? then Some(c.desired.error)
    else if c.live.Bad? && !c.verb.CreateVerb? then Some(c.live.error)
    else None
  }

  /** What a call leaves in the plan: one record, or nothing after an expected failure. */
  function RecordsOf(c: Call): seq<Record> {
    match Failure(c)
    case None => [OnObject(c.key,
      Accepted(c.verb, if c.verb.CreateVerb? then map[] else c.live.value, c.desired.value))]
    case Some(err) => if Expected(c.verb, err) then [] else [OnError(err)]
  }

  function Recs(source: Source, rs: seq<Record>): seq<Op> {
    seq(|rs|, i requires 0 <= i < |rs| => Rec(source, rs[i]))
  }

  /** The deferred error hook. */
  method RecordWriteError(p: Plan, source: Source, verb: Verb, err: Option<Error>)
    requires p.Valid()
    modifies p
    ensures p.Valid()
    ensures p.history == old(p.history)
      + Recs(source, if err.None? || Expected(verb, err.value) then [] else [OnError(err.value)])
  {
    if err.Some? {
      if (verb.CreateVerb? && err.value.AlreadyExists?) || (verb.DeleteVerb? && err.value.NotFound?) {
        return;
      }
      p.RecordWriteError(source, err.value);
    }
  }

  /** `record`: converts the objects and adds the write to the plan. */
  method AddRecord(p: Plan, source: Source, c: Call) returns (err: Option<Error>)
    requires p.Valid()
    modifies p
    ensures p.Valid()
    ensures err == if c.desired.Bad? then Some(c.desired.error)
                   else if c.live.Bad? && !c.verb.CreateVerb? then Some(c.live.error) else None
    ensures p.history
      == old(p.history) + Recs(source, if err.Some? then [] else RecordsOf(c.(read := None, reply := None)))
  {
    if c.desired.Bad? {
      return Some(c.desired.error);
    }
    if !c.verb.CreateVerb? {
      if c.live.Bad? {
        return Some(c.live.error);
      }
    }
    match c.verb {
      case CreateVerb => p.RecordCreate(source, c.key, c.desired.value);
      case UpdateVerb => p.RecordUpdate(source, c.key, c.live.value, c.desired.value);
      case PatchVerb => p.RecordUpdate(source, c.key, c.live.value, c.desired.value);
      case DeleteVerb => p.RecordDelete(source, c.key, c.live.value);
      case SubResource(name) =>
        if name == "status" {
          p.RecordStatusUpdate(source, c.key, c.live.value, c.desired.value);
        } else {
          p.RecordUpdate(source, c.key, c.live.value, c.desired.value);
        }
    }
    return None;
  }

  /** The body of a write method, before its deferred hook runs. */
  method Attempted(p: Plan, source: Source, c: Call) returns (err: Option<Error>)
    requires p.Valid()
    modifies p
    ensures p.Valid() && err == Failure(c)
    ensures p.history == old(p.history) + Recs(source, if err.Some? then [] else RecordsOf(c))
  {
    match c.verb {
      case CreateVerb =>
        if c.reply.Some? { return c.reply; }
      case DeleteVerb =>
        if c.reply.Some? { return c.reply; }
        if c.read.Some? { return c.read; }
      case _ =>
        if c.read.Some? { return c.read; }
        if c.reply.Some? { return c.reply; }
    }
    err := AddRecord(p, source, c);
  }

  // ---- What a call changes in the plan ----

  /** The field `k` has the same value in both objects, or is in neither. */
  predicate SameField(a: Object, b: Object, k: string) {
    (k in a <==> k in b) && (k in a ==> a[k] == b[k])
  }

  /** The object in the cluster, as far as the plan knows it: a create starts from nothing. */
  function Current(c: Call): Object {
    if c.verb.CreateVerb? || c.live.Bad? then map[] else c.live.value
  }

  /** The object that decides about the field `k` after a write over `before`: a write of the main
      resource leaves the status alone, one of the status leaves the rest alone, and a delete all. */
  function Decides(c: Call, before: Object, k: string): Object
    requires c.desired.Good?
  {
    match c.verb
    case CreateVerb => c.desired.value
    case DeleteVerb => before
    case SubResource(name) => if name == "status" <==> k == "status" then c.desired.value else before
    case _ => if k == "status" then before else c.desired.value
  }

  /** `w` is what a call that the server accepted makes of the write `before`. */
  ghost predicate Carries(c: Call, before: Write, w: Write)
    requires c.desired.Good?
  {
    && w.source == before.source && w.live == before.live
    && (w.created <==> before.created || c.verb.CreateVerb?)
    && (w.deleted <==> before.deleted || c.verb.DeleteVerb?)
    && forall k :: SameField(w.desired, Decides(c, before.desired, k), k)
  }

  /** The write of a source to an object before a call: a fresh one changes nothing. */
  function Before(objects: Objects, source: Source, c: Call): Write {
    var name := source.String();
    if c.key in objects && name in objects[c.key] then objects[c.key][name]
    else Records.Write(source, false, false, Current(c), Current(c))
  }

  lemma StepCarries(c: Call, before: Write)
    requires Failure(c).None?
    ensures RecordsOf(c) == [OnObject(c.key, RecordsOf(c)[0].r)] && LiveOf(RecordsOf(c)[0].r) == Current(c)
    ensures Carries(c, before, StepWrite(before, RecordsOf(c)[0].r))
  {
  }

  lemma CarriesOut(h: seq<Op>, source: Source, c: Call)
    requires Failure(c).None?
    ensures var s, t, name := Replay(h), Replay(h + Recs(source, RecordsOf(c))), source.String();
      && c.key in t.objects && name in t.objects[c.key]
      && Carries(c, Before(s.objects, source, c), t.objects[c.key][name])
      && t == s.(objects := s.objects[c.key := BySource(s.objects, c.key)[name := t.objects[c.key][name]]])
  {
    var before := Before(Replay(h).objects, source, c);
    StepCarries(c, before);
    var op := Rec(source, RecordsOf(c)[0]);
    assert Recs(source, RecordsOf(c)) == [op];
    ReplaySnoc(h, op);
    assert WriteFor(Replay(h).objects, c.key, source, Current(c)) == before;
    hide Replay, Carries, StepWrite, RecordsOf, Failure, Current;
  }

  lemma FailsWith(h: seq<Op>, source: Source, c: Call)
    requires Failure(c).Some?
    ensures var s, t, name, err := Replay(h), Replay(h + Recs(source, RecordsOf(c))), source.String(), Failure(c).value;
      t == if (c.verb.CreateVerb? && err.AlreadyExists?) || (c.verb.DeleteVerb? && err.NotFound?)
              || name in s.writeErrors
           then s else s.(writeErrors := s.writeErrors[name := err])
  {
    var rs := RecordsOf(c);
    if rs == [] {
      assert h + Recs(source, rs) == h;
    } else {
      assert Recs(source, rs) == [Rec(source, rs[0])];
      ReplaySnoc(h, Rec(source, rs[0]));
    }
  }

  function ErrorOf(a: Answer<Object>): Option<Error> {
    if a.Bad? then Some(a.error) else None
  }

  /** What can go wrong in a call, in the order in which the call comes to it. */
  function Hurdles(c: Call): seq<Option<Error>> {
    match c.verb
    case CreateVerb => [c.reply, ErrorOf(c.desired)]
    case DeleteVerb => [c.reply, c.read, ErrorOf(c.desired), ErrorOf(c.live)]
    case _ => [c.read, c.reply, ErrorOf(c.desired), ErrorOf(c.live)]
  }

  predicate FirstHurdle(hurdles: seq<Option<Error>>, i: nat) {
    i < |hurdles| && hurdles[i].Some? && forall j | 0 <= j < i :: hurdles[j].None?
  }

  lemma FailureIsFirst(c: Call)
    ensures Failure(c).None? <==> forall h | h in Hurdles(c) :: h.None?
    ensures Failure(c).Some? ==> exists i: nat :: FirstHurdle(Hurdles(c), i) && Failure(c) == Hurdles(c)[i]
  {
    var hs := Hurdles(c);
    if Failure(c).Some? {
      if hs[0].Some? {
        assert FirstHurdle(hs, 0);
      } else if hs[1].Some? {
        assert FirstHurdle(hs, 1);
      } else if hs[2].Some? {
        assert FirstHurdle(hs, 2);
      } else {
        assert FirstHurdle(hs, 3);
      }
    }
  }

  /** A write method: `Create`, `Update`, `Patch`, `Delete` or one of a subresource. A call that goes
      well changes one write, and one that fails only the first error of its source, unless the
      failure is one that the reconcilers expect. */
  method Write(p: Plan, source: Source, c: Call) returns (err: Option<Error>)
    requires p.Valid()
    modifies p
    ensures p.Valid() && err == Failure(c)
    ensures p.history == old(p.history) + Recs(source, RecordsOf(c))
    ensures err.None? <==>
      c.reply.None? && c.desired.Good? && (c.verb.CreateVerb? || (c.read.None? && c.live.Good?))
    ensures err.Some? ==> exists i: nat :: FirstHurdle(Hurdles(c), i) && err == Hurdles(c)[i]
    ensures err.None? ==>
      && c.key in p.objects && source.String() in p.objects[c.key]
      && var w := p.objects[c.key][source.String()];
         && Carries(c, Before(old(p.objects), source, c), w)
         && p.objects == old(p.objects)[c.key := BySource(old(p.objects), c.key)[source.String() := w]]
    ensures err.Some? ==> p.objects == old(p.objects)
    ensures p.writeErrors ==
      if err.None? || (c.verb.CreateVerb? && err.value.AlreadyExists?) || (c.verb.DeleteVerb? && err.value.NotFound?)
         || source.String() in old(p.writeErrors)
      then old(p.writeErrors) else old(p.writeErrors)[source.String() := err.value]
    ensures p.cloud == old(p.cloud) && p.results == old(p.results)
  {
    ghost var h := p.history;
    FailureIsFirst(c);
    AttemptRecords(h, source, c);
    if Failure(c).None? {
      CarriesOut(h, source, c);
    } else {
      FailsWith(h, source, c);
    }
    Accepts(c);
    hide Replay, Carries, Recs, FirstHurdle, Hurdles, Failure, RecordsOf, Expected, Before;
    err := Attempted(p, source, c);
    RecordWriteError(p, source, c.verb, err);
  }

  lemma Accepts(c: Call)
    ensures Failure(c).None? <==>
      c.reply.None? && c.desired.Good? && (c.verb.CreateVerb? || (c.read.None? && c.live.Good?))
  {
  }

  /** The records of the body and of the deferred hook together. */
  lemma AttemptRecords(h: seq<Op>, source: Source, c: Call)
    ensures var err := Failure(c);
      h + Recs(source, if err.Some? then [] else RecordsOf(c))
        + Recs(source, if err.None? || Expected(c.verb, err.value) then [] else [OnError(err.value)])
      == h + Recs(source, RecordsOf(c))
  {
    assert Recs(source, []) == [];
    assert h + [] == h && forall ops: seq<Op> :: h + ops + [] == h + ops;
    hide Accepted;
  }

  // ---- An attempt ----

  /** A reconcile writes to Kubernetes, and to AWS and Spot. */
  datatype Act = Writes(call: Call) | Changes(lines: seq<string>)

  function ActRecords(a: Act): seq<Record> {
    match a
    case Writes(c) => RecordsOf(c)
    case Changes(lines) => [OnCloud(Join(lines, "\n"))]
  }

  function AllRecords(acts: seq<Act>): seq<Record> {
    if acts == [] then [] else AllRecords(acts[..|acts| - 1]) + ActRecords(acts[|acts| - 1])
  }

  /** A failed write that the plan must show, even when the reconcile ignores it. */
  predicate Surprises(a: Act) {
    a.Writes? && Failure(a.call).Some? && !Expected(a.call.verb, Failure(a.call).value)
  }

  /** The first unexpected write error. */
  function FirstError(acts: seq<Act>): Option<Error> {
    if acts == [] then None
    else
      var n := |acts| - 1;
      var before := FirstError(acts[..n]);
      if before.None? && Surprises(acts[n]) then Failure(acts[n].call) else before
  }

  /** The writes of an attempt all succeed or fail as expected exactly when no error is recorded. */
  lemma {:induction false} NoError(acts: seq<Act>)
    ensures FirstError(acts).None? <==> forall a | a in acts :: !Surprises(a)
  {
    if acts != [] {
      var p, a := acts[..|acts| - 1], acts[|acts| - 1];
      assert acts == p + [a];
      NoError(p);
    }
  }
}
