/** One source's writes to one object refine a server with a status subresource: the main
    lane and the status lane each keep their last write. */
module Lanes {
  import opened Json
  import opened Records
  import opened Locality

  /** The write that a list of records of one source to one object builds up. */
  function Fold(source: Source, rs: seq<ObjectRecord>): Write
    requires rs != []
  {
    var n := |rs| - 1;
    StepWrite(if n == 0 then NewWrite(source, LiveOf(rs[0])) else Fold(source, rs[..n]), rs[n])
  }

  predicate WritesMain(r: ObjectRecord) { r.Create? || r.Update? }

  predicate WritesStatus(r: ObjectRecord) { r.Create? || r.StatusUpdate? }

  /** The object that the main lane ends with: that of the last main write, else the first live one. */
  function MainLane(rs: seq<ObjectRecord>): Object
    requires rs != []
  {
    var n := |rs| - 1;
    if WritesMain(rs[n]) then rs[n].obj else if n == 0 then LiveOf(rs[0]) else MainLane(rs[..n])
  }

  /** The object whose status the status lane ends with. */
  function StatusLane(rs: seq<ObjectRecord>): Object
    requires rs != []
  {
    var n := |rs| - 1;
    if WritesStatus(rs[n]) then rs[n].obj else if n == 0 then LiveOf(rs[0]) else StatusLane(rs[..n])
  }

  lemma WithOwnStatus(obj: Object)
    ensures WithStatusOf(obj, obj) == obj
  {
  }

  lemma WithStatusTwice(a: Object, b: Object, c: Object)
    ensures WithStatusOf(WithStatusOf(a, b), c) == WithStatusOf(a, c)
    ensures WithStatusOf(a, WithStatusOf(b, c)) == WithStatusOf(a, c)
  {
  }

  /** The two-lane refinement. */
  lemma {:induction false} FoldIsTwoLanes(source: Source, rs: seq<ObjectRecord>)
    requires rs != []
    ensures var w := Fold(source, rs);
      && w.source == source
      && w.live == LiveOf(rs[0])
      && w.desired == WithStatusOf(MainLane(rs), StatusLane(rs))
      && (w.created <==> exists r :: r in rs && r.Create?)
      && (w.deleted <==> exists r :: r in rs && r.Delete?)
  {
    var p, r := rs[..|rs| - 1], rs[|rs| - 1];
    assert rs == p + [r];
    var live := LiveOf(rs[0]);
    WithOwnStatus(live);
    if p == [] {
      match r
      case Create(obj) => WithOwnStatus(obj);
      case Update(_, _) =>
      case StatusUpdate(_, _) =>
      case Delete(_) =>
    } else {
      FoldIsTwoLanes(source, p);
      match r
      case Create(obj) => WithOwnStatus(obj);
      case Update(_, obj) => WithStatusTwice(obj, MainLane(p), StatusLane(p));
      case StatusUpdate(_, obj) => WithStatusTwice(MainLane(p), StatusLane(p), obj);
      case Delete(_) =>
    }
  }

  /** A main write and a status write commute, wherever they stand. */
  lemma {:induction false} MainAndStatusCommute(source: Source, a: seq<ObjectRecord>, u: ObjectRecord, s: ObjectRecord,
                                                b: seq<ObjectRecord>)
    requires u.Update? && s.StatusUpdate?
    requires a != [] || LiveOf(u) == LiveOf(s)
    ensures Fold(source, a + [u, s] + b) == Fold(source, a + [s, u] + b)
  {
    var x, y := a + [u, s] + b, a + [s, u] + b;
    if b == [] {
      var w := if a == [] then NewWrite(source, LiveOf(u)) else Fold(source, a);
      FoldSnoc(source, a, u);
      FoldSnoc(source, a + [u], s);
      FoldSnoc(source, a, s);
      FoldSnoc(source, a + [s], u);
      assert x == a + [u] + [s] && y == a + [s] + [u];
      WithStatusTwice(u.obj, w.desired, s.obj);
    } else {
      var n := |b| - 1;
      MainAndStatusCommute(source, a, u, s, b[..n]);
      assert x == a + [u, s] + b[..n] + [b[n]] && y == a + [s, u] + b[..n] + [b[n]];
      FoldSnoc(source, a + [u, s] + b[..n], b[n]);
      FoldSnoc(source, a + [s, u] + b[..n], b[n]);
    }
  }

  lemma FoldSnoc(source: Source, rs: seq<ObjectRecord>, r: ObjectRecord)
    ensures Fold(source, rs + [r]) == StepWrite(if rs == [] then NewWrite(source, LiveOf(r)) else Fold(source, rs), r)
  {
    assert (rs + [r])[..|rs|] == rs;
  }

  // ---- In the plan ----

  /** The records of a history for one object. */
  function RecordsOn(h: seq<Op>, key: ObjectKey): seq<ObjectRecord> {
    if h == [] then []
    else
      var n := |h| - 1;
      RecordsOn(h[..n], key) + if h[n].Rec? && h[n].r.OnObject? && h[n].r.key == key then [h[n].r.r] else []
  }

  /** The write that a plan holds for a source and an object is the fold of its records. */
  lemma {:induction false} PlanHoldsFold(h: seq<Op>, source: Source, key: ObjectKey)
    requires forall op | op in h :: op.source == source && !op.Drop?
    ensures key in Alone(h).writes <==> RecordsOn(h, key) != []
    ensures key in Alone(h).writes ==> Alone(h).writes[key] == Fold(source, RecordsOn(h, key))
  {
    if h != [] {
      var p, op := h[..|h| - 1], h[|h| - 1];
      PlanHoldsFold(p, source, key);
      assert op in h;
      hide StepWrite, Fold;
      if op.Rec? && op.r.OnObject? && op.r.key == key {
        FoldSnoc(source, RecordsOn(p, key), op.r.r);
      } else {
        assert RecordsOn(p, key) + [] == RecordsOn(p, key);
      }
    }
  }
}
