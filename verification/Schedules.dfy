/** Runs of the worker pool, built step by step: which interleavings there are when the
    context never ends. */
module Schedules {
  import opened Records
  import opened Locality
  import opened Once
  import opened Pool

  function Width(workers: int): (n: nat)
    ensures n == |Init(workers).workers| && n >= 1
  {
    if workers < 1 then 1 else workers
  }

  /** `s` comes up in some run without a deadline. */
  ghost predicate Can(ts: seq<Target>, workers: int, s: Pool) {
    s.ended.None? && exists es :: Reaches(ts, Init(workers), es, s)
  }

  lemma CanInit(ts: seq<Target>, workers: int)
    ensures Can(ts, workers, Init(workers))
  {
    assert Reaches(ts, Init(workers), [], Init(workers));
  }

  lemma CanStep(ts: seq<Target>, workers: int, s: Pool, e: Event)
    requires Can(ts, workers, s) && Enabled(ts, s, e) && !e.End?
    ensures Can(ts, workers, After(ts, s, e))
  {
    var es :| Reaches(ts, Init(workers), es, s);
    hide Script;
    var more := es + [e];
    assert more[..|more| - 1] == es && more[|more| - 1] == e;
    assert Reaches(ts, Init(workers), more, After(ts, s, e));
  }

  lemma CanInv(ts: seq<Target>, workers: int, s: Pool)
    requires DistinctTargets(ts) && Can(ts, workers, s)
    ensures Inv(ts, s) && |s.workers| == Width(workers)
  {
    var es :| Reaches(ts, Init(workers), es, s);
    hide *;
    ReachesInv(ts, workers, es, s);
    assert Width(workers) == |Init(workers).workers|;
  }

  lemma HistoryGrows(ts: seq<Target>, s: Pool, e: Event)
    requires Enabled(ts, s, e)
    ensures After(ts, s, e).h == s.h + Appended(ts, s, e)
  {
    hide Script;
  }

  /** From every state of such a run, `run` returns. */
  lemma {:induction false} CanReturn(ts: seq<Target>, workers: int, s: Pool) returns (u: Pool)
    requires DistinctTargets(ts) && Can(ts, workers, s)
    ensures Ends(ts, workers, u) && u.ended.None? && s.h <= u.h
    decreases Measure(ts, s)
  {
    CanInv(ts, workers, s);
    if s.at.Returned? {
      u := s;
    } else {
      Progress(ts, s);
      var e :| Enabled(ts, s, e) && !e.End?;
      CanStep(ts, workers, s, e);
      MeasureStep(ts, s, e);
      HistoryGrows(ts, s, e);
      hide *;
      u := CanReturn(ts, workers, After(ts, s, e));
    }
  }

  // ---- Handing out and parking ----

  function WorkedOn(ws: seq<Worker>, w: nat, i: nat, rest: seq<Op>): seq<Worker>
    requires w < |ws|
  {
    ws[w := if rest == [] then Idle else Running(i, rest)]
  }

  lemma WorkOnce(ts: seq<Target>, workers: int, s: Pool, w: nat, i: nat, rest: seq<Op>) returns (m: Pool)
    requires Can(ts, workers, s) && w < |s.workers| && s.workers[w] == Running(i, rest) && rest != []
    ensures Can(ts, workers, m) && m.at == s.at && m.next == s.next
    ensures m.h == s.h + [rest[0]] && m.workers == WorkedOn(s.workers, w, i, rest[1..])
  {
    m := After(ts, s, Work(w));
    CanStep(ts, workers, s, Work(w));
    assert |rest| == 1 ==> rest[1..] == [];
    hide Can;
  }

  lemma FirstOnes(rest: seq<Op>, c: nat)
    requires 0 < c <= |rest|
    ensures [rest[0]] + rest[1..][..c - 1] == rest[..c] && rest[1..][c - 1..] == rest[c..]
  {
    var a, b := [rest[0]] + rest[1..][..c - 1], rest[..c];
    assert |a| == |b|;
    forall k | 0 <= k < c ensures a[k] == b[k] {
      if k > 0 {
        assert a[k] == rest[1..][k - 1];
      }
    }
  }

  lemma OneAndMore(h: seq<Op>, rest: seq<Op>, c: nat, more: seq<Op>)
    requires 0 < c <= |rest| && more == rest[1..][..c - 1]
    ensures h + [rest[0]] + more == h + rest[..c]
  {
    FirstOnes(rest, c);
    Assoc(h, [rest[0]], more);
  }

  /** A worker does the next `c` operations of its reconcile, the others nothing. */
  lemma {:induction false} RunSome(ts: seq<Target>, workers: int, s: Pool, w: nat, i: nat, rest: seq<Op>, c: nat)
    returns (u: Pool)
    requires Can(ts, workers, s) && w < |s.workers| && s.workers[w] == Running(i, rest) && rest != [] && c <= |rest|
    ensures Can(ts, workers, u) && u.at == s.at && u.next == s.next
    ensures u.h == s.h + rest[..c] && u.workers == WorkedOn(s.workers, w, i, rest[c..])
    decreases c
  {
    hide *;
    if c == 0 {
      u := s;
      NoOnes(s.h, rest);
      WorkedNone(s.workers, w, i, rest);
    } else {
      var m := WorkOnce(ts, workers, s, w, i, rest);
      if c == 1 {
        u := m;
        FirstOne(rest);
      } else {
        WorkedTwice(s.workers, w, i, rest[1..], rest[c..]);
        FirstOnes(rest, c);
        u := RunSome(ts, workers, m, w, i, rest[1..], c - 1);
        OneAndMore(s.h, rest, c, rest[1..][..c - 1]);
      }
    }
  }

  lemma NoOnes(h: seq<Op>, rest: seq<Op>)
    ensures h + rest[..0] == h && rest[0..] == rest
  {
  }

  lemma FirstOne(rest: seq<Op>)
    requires rest != []
    ensures rest[..1] == [rest[0]]
  {
  }

  lemma WorkedNone(ws: seq<Worker>, w: nat, i: nat, rest: seq<Op>)
    requires w < |ws| && ws[w] == Running(i, rest) && rest != []
    ensures WorkedOn(ws, w, i, rest) == ws
  {
  }

  lemma WorkedTwice(ws: seq<Worker>, w: nat, i: nat, rest: seq<Op>, later: seq<Op>)
    requires w < |ws| && rest != []
    ensures var m := WorkedOn(ws, w, i, rest);
      |m| == |ws| && m[w] == Running(i, rest) && WorkedOn(m, w, i, later) == WorkedOn(ws, w, i, later)
  {
  }

  /** The next target is handed to an idle worker, which does `c` of its operations. */
  lemma HandOut(ts: seq<Target>, workers: int, s: Pool, w: nat, c: nat) returns (u: Pool)
    requires Can(ts, workers, s) && s.at.Next? && s.next < |ts| && ts[s.next].skipReason == ""
    requires w < |s.workers| && s.workers[w].Idle? && c <= |Script(ts[s.next])|
    ensures Can(ts, workers, u) && u.at.Next? && u.next == s.next + 1
    ensures var script := Script(ts[s.next]);
      u.h == s.h + script[..c] && u.workers == WorkedOn(s.workers, w, s.next, script[c..])
  {
    var script := Script(ts[s.next]);
    ScriptOps(ts[s.next]);
    CanStep(ts, workers, s, Check);
    var offering := After(ts, s, Check);
    CanStep(ts, workers, offering, Hand(w));
    var handed := After(ts, offering, Hand(w));
    assert handed.workers == WorkedOn(s.workers, w, s.next, script) && handed.h == s.h;
    hide Can, Script, WorkedOn;
    WorkedTwice(s.workers, w, s.next, script, script[c..]);
    u := RunSome(ts, workers, handed, w, s.next, script, c);
  }

  /** For each target that a schedule leaves half done, how many operations it has done. */
  type Parking = map<nat, nat>

  ghost predicate Parks(ts: seq<Target>, park: Parking) {
    forall k | k in park :: k < |ts| && ts[k].skipReason == "" && park[k] < |Script(ts[k])|
  }

  function Held(park: Parking, j: nat): set<nat> {
    set k | k in park && k < j
  }

  /** What the first `j` targets have done: all of their operations, except the parked ones. */
  ghost function DoneBy(ts: seq<Target>, park: Parking, j: nat, k: nat): seq<Op>
    requires k < |ts| && Parks(ts, park)
  {
    if k >= j then []
    else if ts[k].skipReason != "" then [Skipping(ts[k])]
    else if k in park then Script(ts[k])[..park[k]]
    else Script(ts[k])
  }

  ghost predicate Parked(ts: seq<Target>, park: Parking, s: Pool, j: nat)
    requires Parks(ts, park)
  {
    && s.at.Next? && s.next == j
    && (forall k | 0 <= k < |ts| :: Own(s.h, ts[k].source.String()) == DoneBy(ts, park, j, k))
    && (forall w: nat, k: nat | Runs(s, w, k) :: k in Held(park, j))
  }

  lemma {:induction false} OwnAll(ops: seq<Op>, source: Source, name: string)
    requires forall op | op in ops :: op.source == source
    ensures Own(ops, name) == if source.String() == name then ops else []
  {
    if ops != [] {
      var p, op := ops[..|ops| - 1], ops[|ops| - 1];
      assert ops == p + [op];
      OwnAll(p, source, name);
    }
  }

  lemma {:induction false} AllBusy(ws: seq<Worker>, held: set<nat>)
    requires forall w | 0 <= w < |ws| :: ws[w].Running? && ws[w].target in held
    requires forall w, v | 0 <= w < v < |ws| :: ws[w].target != ws[v].target
    ensures |ws| <= |held|
  {
    if ws != [] {
      var n := |ws| - 1;
      AllBusy(ws[..n], held - {ws[n].target});
    }
  }

  /** With fewer parked targets than workers, some worker is idle. */
  lemma SomeIdle(ts: seq<Target>, s: Pool, held: set<nat>) returns (w: nat)
    requires Phases(ts, s) && Entries(ts, s) && s.at.Next?
    requires forall w: nat, k: nat | Runs(s, w, k) :: k in held
    requires |held| < |s.workers|
    ensures w < |s.workers| && s.workers[w].Idle?
  {
    if forall v | 0 <= v < |s.workers| :: s.workers[v].Running? {
      forall v | 0 <= v < |s.workers| ensures s.workers[v].target in held {
        assert Runs(s, v, s.workers[v].target);
      }
      forall v, x | 0 <= v < x < |s.workers| ensures s.workers[v].target != s.workers[x].target {
        assert Runs(s, v, s.workers[v].target) && Runs(s, x, s.workers[x].target);
      }
      AllBusy(s.workers, held);
    }
    w :| w < |s.workers| && !s.workers[w].Running?;
  }

  lemma OwnNext(h: seq<Op>, ops: seq<Op>, source: Source, name: string)
    requires forall op | op in ops :: op.source == source
    ensures Own(h + ops, name) == if source.String() == name then Own(h, name) + ops else Own(h, name)
  {
    OwnAppend(h, ops, name);
    OwnAll(ops, source, name);
    hide Own;
    assert Own(h, name) + [] == Own(h, name);
  }

  lemma ParkSkipped(ts: seq<Target>, workers: int, park: Parking, s: Pool, j: nat) returns (u: Pool)
    requires DistinctTargets(ts) && Parks(ts, park) && j < |ts| && ts[j].skipReason != ""
    requires Can(ts, workers, s) && Parked(ts, park, s, j)
    ensures Can(ts, workers, u) && Parked(ts, park, u, j + 1)
  {
    CanStep(ts, workers, s, Skip);
    u := After(ts, s, Skip);
    hide Can, Own, DistinctTargets;
    forall w: nat, k: nat | Runs(u, w, k) ensures k in Held(park, j + 1) {
      assert Runs(s, w, k);
    }
    ParkedNext(ts, park, s, u, j, [Skipping(ts[j])]);
  }

  lemma HandedRuns(park: Parking, s: Pool, u: Pool, w: nat, j: nat, rest: seq<Op>)
    requires forall v: nat, k: nat | Runs(s, v, k) :: k in Held(park, j)
    requires w < |s.workers| && u.workers == WorkedOn(s.workers, w, j, rest) && (rest == [] || j in park)
    ensures forall v: nat, k: nat | Runs(u, v, k) :: k in Held(park, j + 1)
  {
    forall v: nat, k: nat | Runs(u, v, k) ensures k in Held(park, j + 1) {
      if v != w {
        assert Runs(s, v, k);
      }
    }
  }

  lemma ParkWorked(ts: seq<Target>, workers: int, park: Parking, s: Pool, j: nat) returns (u: Pool)
    requires DistinctTargets(ts) && Parks(ts, park) && j < |ts| && ts[j].skipReason == ""
    requires Can(ts, workers, s) && Parked(ts, park, s, j) && |Held(park, j)| < Width(workers)
    ensures Can(ts, workers, u) && Parked(ts, park, u, j + 1)
  {
    CanInv(ts, workers, s);
    var w := SomeIdle(ts, s, Held(park, j));
    var script := Script(ts[j]);
    var c := if j in park then park[j] else |script|;
    ScriptOps(ts[j]);
    assert script[..|script|] == script && script[|script|..] == [];
    assert DoneBy(ts, park, j + 1, j) == script[..c];
    hide Script, Own, Can, Inv, DistinctTargets, Held, WorkedOn, DoneBy;
    u := HandOut(ts, workers, s, w, c);
    HandedRuns(park, s, u, w, j, script[c..]);
    hide Parks, Parked;
    ParkedNext(ts, park, s, u, j, script[..c]);
  }

  /** One more target is skipped, parked or reconciled. */
  lemma ParkNext(ts: seq<Target>, workers: int, park: Parking, s: Pool, j: nat) returns (u: Pool)
    requires DistinctTargets(ts) && Parks(ts, park) && j < |ts|
    requires Can(ts, workers, s) && Parked(ts, park, s, j) && |Held(park, j)| < Width(workers)
    ensures Can(ts, workers, u) && Parked(ts, park, u, j + 1)
  {
    if ts[j].skipReason != "" {
      u := ParkSkipped(ts, workers, park, s, j);
    } else {
      u := ParkWorked(ts, workers, park, s, j);
    }
  }

  lemma ParkedNext(ts: seq<Target>, park: Parking, s: Pool, u: Pool, j: nat, ops: seq<Op>)
    requires DistinctTargets(ts) && Parks(ts, park) && j < |ts| && Parked(ts, park, s, j)
    requires u.at.Next? && u.next == j + 1 && u.h == s.h + ops && ops == DoneBy(ts, park, j + 1, j)
    requires forall op | op in ops :: op.source == ts[j].source
    requires forall w: nat, k: nat | Runs(u, w, k) :: k in Held(park, j + 1)
    ensures Parked(ts, park, u, j + 1)
  {
    forall k | 0 <= k < |ts| ensures Own(u.h, ts[k].source.String()) == DoneBy(ts, park, j + 1, k) {
      OwnNext(s.h, ops, ts[j].source, ts[k].source.String());
      assert k != j ==> ts[j].source.String() != ts[k].source.String();
      assert [] + ops == ops;
    }
  }

  /** The schedule that hands out the first `j` targets in order and parks some of them. */
  lemma {:induction false} Sweep(ts: seq<Target>, workers: int, park: Parking, j: nat) returns (s: Pool)
    requires DistinctTargets(ts) && Parks(ts, park) && j <= |ts|
    requires j > 0 ==> |Held(park, j - 1)| < Width(workers)
    ensures Can(ts, workers, s) && Parked(ts, park, s, j)
  {
    hide *;
    if j == 0 {
      s := Start(ts, workers, park);
    } else {
      if j > 1 {
        HeldGrows(park, j - 2);
      }
      s := Sweep(ts, workers, park, j - 1);
      s := ParkNext(ts, workers, park, s, j - 1);
    }
  }

  lemma Start(ts: seq<Target>, workers: int, park: Parking) returns (s: Pool)
    requires Parks(ts, park)
    ensures Can(ts, workers, s) && Parked(ts, park, s, 0)
  {
    s := Init(workers);
    CanInit(ts, workers);
    hide Can;
  }

  lemma HeldGrows(park: Parking, j: nat)
    ensures |Held(park, j)| <= |Held(park, j + 1)|
  {
    Smaller(Held(park, j), Held(park, j + 1));
  }

  lemma {:induction false} Smaller<T>(a: set<T>, b: set<T>)
    requires a <= b
    ensures |a| <= |b|
  {
    if a != {} {
      var x :| x in a;
      Smaller(a - {x}, b - {x});
    }
  }

  // ---- The moments of a run ----

  /** The state in which an operation of the history was done, and by which event. */
  lemma {:induction false} Moment(ts: seq<Target>, workers: int, es: seq<Event>, s: Pool, i: nat)
    returns (m: Pool, e: Event)
    requires Reaches(ts, Init(workers), es, s) && s.ended.None? && i < |s.h|
    ensures Can(ts, workers, m) && Enabled(ts, m, e) && m.h == s.h[..i] && Appended(ts, m, e) == [s.h[i]]
  {
    var n := |es| - 1;
    var before :| Reaches(ts, Init(workers), es[..n], before) && Enabled(ts, before, es[n])
      && s == After(ts, before, es[n]);
    HistoryGrows(ts, before, es[n]);
    assert before.ended.None?;
    if i < |before.h| {
      hide After, Appended, Enabled;
      m, e := Moment(ts, workers, es[..n], before, i);
    } else {
      m, e := before, es[n];
    }
  }

  /** The targets that are being reconciled. */
  function TargetsOf(ws: seq<Worker>): set<nat> {
    if ws == [] then {}
    else
      var n := |ws| - 1;
      TargetsOf(ws[..n]) + if ws[n].Running? then {ws[n].target} else {}
  }

  lemma {:induction false} FewTargets(ws: seq<Worker>)
    ensures |TargetsOf(ws)| <= |ws|
    ensures forall w | 0 <= w < |ws| && ws[w].Running? :: ws[w].target in TargetsOf(ws)
  {
    if ws != [] {
      FewTargets(ws[..|ws| - 1]);
    }
  }

  lemma RunningFit(s: Pool, held: set<nat>)
    requires forall k | k in held :: exists w: nat :: Runs(s, w, k)
    ensures |held| <= |s.workers|
  {
    FewTargets(s.workers);
    forall k | k in held ensures k in TargetsOf(s.workers) {
      var w: nat :| Runs(s, w, k);
    }
    Smaller(held, TargetsOf(s.workers));
  }

  /** A lone worker runs the target that was handed out last. */
  lemma {:induction false} LoneWorker(ts: seq<Target>, workers: int, es: seq<Event>, s: Pool)
    requires DistinctTargets(ts) && Reaches(ts, Init(workers), es, s) && Width(workers) == 1
    ensures forall i: nat, k | Runs(s, 0, i) && k in s.entered :: k <= i
  {
    if es != [] {
      var n := |es| - 1;
      var m :| Reaches(ts, Init(workers), es[..n], m) && Enabled(ts, m, es[n]) && s == After(ts, m, es[n]);
      LoneWorker(ts, workers, es[..n], m);
      ReachesInv(ts, workers, es[..n], m);
      LoneStep(ts, m, es[n]);
    }
  }

  lemma LoneStep(ts: seq<Target>, s: Pool, e: Event)
    requires |s.workers| == 1 && Entries(ts, s) && Enabled(ts, s, e)
    requires forall i: nat, k | Runs(s, 0, i) && k in s.entered :: k <= i
    ensures var t := After(ts, s, e); forall i: nat, k | Runs(t, 0, i) && k in t.entered :: k <= i
  {
    var t := After(ts, s, e);
    hide Script;
    forall i: nat, k | Runs(t, 0, i) && k in t.entered ensures k <= i {
      if !e.Hand? {
        assert Runs(s, 0, i);
      }
    }
  }
}
