/** The worker pool of `run`: a dispatcher that hands out targets over an unbuffered channel,
    workers that reconcile them, and a context that may end at any moment. Each event is one
    step of one of them, and any order of enabled events is a run. */
module Pool {
  import opened Records
  import opened Confluence
  import opened Locality
  import opened Once

  datatype Worker = Idle | Running(target: nat, rest: seq<Op>) | Exited

  /** Where the dispatcher is in its loop over the targets. */
  datatype Dispatcher = Next | Offering | Refusing | Closed | Returned

  /** `h` holds the operations on the plan in their order, `entered` the targets whose
      reconcile has started, and `ended` why the context has ended. */
  datatype Pool = Pool(
    at: Dispatcher,
    next: nat,
    workers: seq<Worker>,
    ended: Option<string>,
    h: seq<Op>,
    entered: seq<nat>)

  datatype Event =
    | End(why: string)
    | Skip
    | Check
    | Hand(w: nat)
    | GiveUp
    | Refuse
    | Close
    | Work(w: nat)
    | Exit(w: nat)
    | Return

  function Init(workers: int): Pool {
    var n := if workers < 1 then 1 else workers;
    Pool(Next, 0, seq(n, i => Idle), None, [], [])
  }

  predicate Enabled(ts: seq<Target>, s: Pool, e: Event) {
    match e
    case End(_) => s.ended.None?
    case Skip => s.at.Next? && s.next < |ts| && ts[s.next].skipReason != ""
    case Check => s.at.Next? && s.next < |ts| && ts[s.next].skipReason == ""
    case Hand(w) => s.at.Offering? && s.next < |ts| && w < |s.workers| && s.workers[w].Idle?
    case GiveUp => s.at.Offering? && s.ended.Some?
    case Refuse => s.at.Refusing? && s.next < |ts| && s.ended.Some?
    case Close => s.at.Next? && s.next == |ts|
    case Work(w) => w < |s.workers| && s.workers[w].Running? && s.workers[w].rest != []
    case Exit(w) => s.at.Closed? && w < |s.workers| && s.workers[w].Idle?
    case Return => s.at.Closed? && forall w | 0 <= w < |s.workers| :: s.workers[w].Exited?
  }

  function Skipping(t: Target): Op {
    Op.SetResult(t.source, Skipped, t.skipReason)
  }

  function Refusal(t: Target, why: string): Op {
    Op.SetResult(t.source, Failed, "not reconciled: " + why)
  }

  function After(ts: seq<Target>, s: Pool, e: Event): Pool
    requires Enabled(ts, s, e)
  {
    match e
    case End(why) => s.(ended := Some(why))
    case Skip => s.(h := s.h + [Skipping(ts[s.next])], next := s.next + 1)
    case Check => s.(at := if s.ended.None? then Offering else Refusing)
    case Hand(w) =>
      s.(workers := s.workers[w := Running(s.next, Script(ts[s.next]))],
         entered := s.entered + [s.next], next := s.next + 1, at := Next)
    case GiveUp => s.(at := Refusing)
    case Refuse => s.(h := s.h + [Refusal(ts[s.next], s.ended.value)], next := s.next + 1, at := Next)
    case Close => s.(at := Closed)
    case Work(w) =>
      var Running(i, rest) := s.workers[w];
      s.(h := s.h + [rest[0]], workers := s.workers[w := if |rest| == 1 then Idle else Running(i, rest[1..])])
    case Exit(w) => s.(workers := s.workers[w := Exited])
    case Return => s.(at := Returned)
  }

  ghost predicate Reaches(ts: seq<Target>, from: Pool, es: seq<Event>, to: Pool) {
    if es == [] then to == from
    else
      var n := |es| - 1;
      exists s :: Reaches(ts, from, es[..n], s) && Enabled(ts, s, es[n]) && to == After(ts, s, es[n])
  }

  /** A whole run with these workers ends in `s`. */
  ghost predicate Ends(ts: seq<Target>, workers: int, s: Pool) {
    s.at.Returned? && exists es :: Reaches(ts, Init(workers), es, s)
  }

  ghost predicate DistinctTargets(ts: seq<Target>) {
    forall i, j | 0 <= i < j < |ts| :: ts[i].source.String() != ts[j].source.String()
  }

  // ---- The invariant ----

  predicate Runs(s: Pool, w: nat, i: nat) {
    w < |s.workers| && s.workers[w].Running? && s.workers[w].target == i
  }

  /** Where the dispatcher and the workers are agrees with what is left to hand out. */
  ghost predicate Phases(ts: seq<Target>, s: Pool) {
    && |s.workers| >= 1
    && s.next <= |ts|
    && (s.at.Offering? || s.at.Refusing? ==> s.next < |ts| && ts[s.next].skipReason == "")
    && (s.at.Refusing? ==> s.ended.Some?)
    && (s.at.Closed? || s.at.Returned? ==> s.next == |ts|)
    && (forall w | 0 <= w < |s.workers| && s.workers[w].Exited? :: s.at.Closed? || s.at.Returned?)
    && (s.at.Returned? ==> forall w | 0 <= w < |s.workers| :: s.workers[w].Exited?)
  }

  /** A target is entered at most once, and only if it is not skipped. */
  ghost predicate Entries(ts: seq<Target>, s: Pool) {
    && s.next <= |ts|
    && (forall k | 0 <= k < |s.entered| :: s.entered[k] < s.next && ts[s.entered[k]].skipReason == "")
    && (forall k, l | 0 <= k < l < |s.entered| :: s.entered[k] != s.entered[l])
    && (forall w: nat, i: nat | Runs(s, w, i) :: i in s.entered && s.workers[w].rest != [])
    && (forall w: nat, v: nat, i: nat | Runs(s, w, i) && Runs(s, v, i) :: w == v)
  }

  /** What the history holds of target `i`. */
  ghost predicate Accounted(ts: seq<Target>, s: Pool, i: nat)
    requires i < |ts|
  {
    var own, t := Own(s.h, ts[i].source.String()), ts[i];
    if i >= s.next then own == []
    else if t.skipReason != "" then own == [Skipping(t)]
    else if i !in s.entered then s.ended.Some? && own == [Refusal(t, s.ended.value)]
    else
      && (forall w: nat | Runs(s, w, i) :: own + s.workers[w].rest == Script(t))
      && ((forall w: nat :: !Runs(s, w, i)) ==> own == Script(t))
  }

  ghost predicate AllAccounted(ts: seq<Target>, s: Pool) {
    && (forall i | 0 <= i < |ts| :: Accounted(ts, s, i))
    && (forall name | (forall i | 0 <= i < |ts| :: ts[i].source.String() != name) :: Own(s.h, name) == [])
  }

  ghost predicate Inv(ts: seq<Target>, s: Pool) {
    Phases(ts, s) && Entries(ts, s) && AllAccounted(ts, s)
  }

  lemma OwnSnoc(h: seq<Op>, op: Op, name: string)
    ensures Own(h + [op], name) == Own(h, name) + if op.source.String() == name then [op] else []
  {
    assert (h + [op])[..|h|] == h;
  }

  lemma Assoc(a: seq<Op>, b: seq<Op>, c: seq<Op>)
    ensures (a + b) + c == a + (b + c)
  {
  }

  lemma {:induction false} OwnAppend(h: seq<Op>, k: seq<Op>, name: string)
    ensures Own(h + k, name) == Own(h, name) + Own(k, name)
  {
    if k == [] {
      assert h + k == h;
      assert Own(k, name) == [];
    } else {
      hide Own;
      var p, op := k[..|k| - 1], k[|k| - 1];
      var x := if op.source.String() == name then [op] else [];
      assert k == p + [op];
      OwnAppend(h, p, name);
      Assoc(h, p, [op]);
      OwnSnoc(h + p, op, name);
      OwnSnoc(p, op, name);
      Assoc(Own(h, name), Own(p, name), x);
    }
  }

  lemma ScriptOps(t: Target)
    ensures Script(t) != [] && forall op | op in Script(t) :: op.source == t.source
  {
  }

  lemma PhasesStep(ts: seq<Target>, s: Pool, e: Event)
    requires Phases(ts, s) && Enabled(ts, s, e)
    ensures Phases(ts, After(ts, s, e)) && |After(ts, s, e).workers| == |s.workers|
  {
    hide Script;
  }

  lemma EntriesStep(ts: seq<Target>, s: Pool, e: Event)
    requires Phases(ts, s) && Entries(ts, s) && Enabled(ts, s, e)
    ensures Entries(ts, After(ts, s, e))
  {
    var t := After(ts, s, e);
    if e.Hand? {
      ScriptOps(ts[s.next]);
    }
    hide Script;
    forall w: nat, i: nat | Runs(t, w, i) ensures i in t.entered && t.workers[w].rest != [] {
      if !(e.Hand? && e.w == w) {
        assert Runs(s, w, i);
        assert i in s.entered;
      }
    }
    forall w: nat, v: nat, i: nat | Runs(t, w, i) && Runs(t, v, i) ensures w == v {
      if e.Hand? && (e.w == w || e.w == v) {
        assert e.w != w ==> Runs(s, w, i);
        assert e.w != v ==> Runs(s, v, i);
      } else {
        assert Runs(s, w, i) && Runs(s, v, i);
      }
    }
  }

  /** The operation that an event appends, if any. */
  function Appended(ts: seq<Target>, s: Pool, e: Event): seq<Op>
    requires Enabled(ts, s, e)
  {
    match e
    case Skip => [Skipping(ts[s.next])]
    case Refuse => [Refusal(ts[s.next], s.ended.value)]
    case Work(w) => [s.workers[w].rest[0]]
    case _ => []
  }

  lemma OwnAfter(ts: seq<Target>, s: Pool, e: Event, name: string)
    requires Enabled(ts, s, e)
    ensures var ops := Appended(ts, s, e);
      Own(After(ts, s, e).h, name)
        == Own(s.h, name) + if ops != [] && ops[0].source.String() == name then ops else []
  {
    var ops := Appended(ts, s, e);
    if ops != [] {
      OwnSnoc(s.h, ops[0], name);
    }
  }

  /** Events of the dispatcher for another target, or of a worker on another target, leave `i` alone. */
  predicate Concerns(s: Pool, e: Event, i: nat) {
    match e
    case Skip => s.next == i
    case Hand(_) => s.next == i
    case Refuse => s.next == i
    case Work(w) => Runs(s, w, i)
    case _ => false
  }

  lemma AppendedSource(ts: seq<Target>, s: Pool, e: Event)
    requires Phases(ts, s) && Entries(ts, s) && Enabled(ts, s, e) && AllAccounted(ts, s)
    ensures Appended(ts, s, e) != [] ==>
      exists i: nat :: i < |ts| && Concerns(s, e, i) && Appended(ts, s, e)[0].source == ts[i].source
  {
    match e
    case Skip => assert Concerns(s, e, s.next);
    case Refuse => assert Concerns(s, e, s.next);
    case Work(w) =>
      var i, rest := s.workers[w].target, s.workers[w].rest;
      assert Runs(s, w, i);
      assert Accounted(ts, s, i);
      ScriptOps(ts[i]);
      assert rest[0] in Script(ts[i]) by {
        var own := Own(s.h, ts[i].source.String());
        assert (own + rest)[|own|] == rest[0];
      }
      assert Concerns(s, e, i);
    case _ =>
  }

  lemma UnconcernedOwn(ts: seq<Target>, s: Pool, e: Event, i: nat)
    requires DistinctTargets(ts) && Inv(ts, s) && Enabled(ts, s, e)
    requires i < |ts| && !Concerns(s, e, i)
    ensures Own(After(ts, s, e).h, ts[i].source.String()) == Own(s.h, ts[i].source.String())
  {
    AppendedSource(ts, s, e);
    OwnAfter(ts, s, e, ts[i].source.String());
    hide Inv, After, Appended, Own, Enabled;
    var ops := Appended(ts, s, e);
    if ops != [] {
      var j: nat :| j < |ts| && Concerns(s, e, j) && ops[0].source == ts[j].source;
      assert j < i || i < j;
    }
  }

  lemma UnconcernedRuns(ts: seq<Target>, s: Pool, e: Event, i: nat)
    requires Enabled(ts, s, e) && !Concerns(s, e, i)
    ensures forall w: nat :: Runs(After(ts, s, e), w, i) <==> Runs(s, w, i)
    ensures forall w: nat | Runs(s, w, i) :: After(ts, s, e).workers[w] == s.workers[w]
    ensures i in After(ts, s, e).entered <==> i in s.entered
  {
    hide Script;
  }

  lemma UnconcernedNext(ts: seq<Target>, s: Pool, e: Event, i: nat)
    requires Enabled(ts, s, e) && !Concerns(s, e, i)
    ensures i >= After(ts, s, e).next <==> i >= s.next
    ensures s.ended.Some? ==> After(ts, s, e).ended == s.ended
  {
    hide Script;
  }

  lemma UnconcernedStep(ts: seq<Target>, s: Pool, e: Event, i: nat)
    requires DistinctTargets(ts) && Inv(ts, s) && Enabled(ts, s, e)
    requires i < |ts| && !Concerns(s, e, i)
    ensures Accounted(ts, After(ts, s, e), i)
  {
    assert Accounted(ts, s, i);
    UnconcernedOwn(ts, s, e, i);
    UnconcernedRuns(ts, s, e, i);
    UnconcernedNext(ts, s, e, i);
    hide Inv, Script, Own, After, Enabled, Runs, Concerns;
  }

  lemma DispatchedStep(ts: seq<Target>, s: Pool, e: Event)
    requires Phases(ts, s) && Entries(ts, s) && Enabled(ts, s, e)
    requires e.Skip? || e.Hand? || e.Refuse?
    requires Accounted(ts, s, s.next)
    ensures Accounted(ts, After(ts, s, e), s.next)
  {
    var t, i := After(ts, s, e), s.next;
    OwnAfter(ts, s, e, ts[i].source.String());
    NotRunning(ts, s, i);
    if e.Hand? {
      HandedOut(ts, s, e.w);
    } else {
      hide Script, Own, Runs;
    }
  }

  lemma NotRunning(ts: seq<Target>, s: Pool, i: nat)
    requires Entries(ts, s) && i >= s.next
    ensures i !in s.entered && forall w: nat :: !Runs(s, w, i)
  {
  }

  lemma HandedOut(ts: seq<Target>, s: Pool, w: nat)
    requires Enabled(ts, s, Hand(w)) && forall v: nat :: !Runs(s, v, s.next)
    requires Own(s.h, ts[s.next].source.String()) == [] && ts[s.next].skipReason == ""
    ensures Accounted(ts, After(ts, s, Hand(w)), s.next)
  {
    var t, i := After(ts, s, Hand(w)), s.next;
    assert t.entered[|s.entered|] == i && Runs(t, w, i) && t.h == s.h && t.workers[w].rest == Script(ts[i]);
    forall v: nat | Runs(t, v, i) ensures v == w {
      assert v != w ==> Runs(s, v, i);
    }
    assert [] + Script(ts[i]) == Script(ts[i]);
    hide Script, Own, Runs, After;
  }

  lemma WorkedRuns(ts: seq<Target>, s: Pool, w: nat, i: nat)
    requires Entries(ts, s) && Enabled(ts, s, Work(w)) && Runs(s, w, i)
    ensures var t := After(ts, s, Work(w));
      && (forall v: nat | Runs(t, v, i) :: v == w)
      && (Runs(t, w, i) <==> |s.workers[w].rest| > 1)
      && (Runs(t, w, i) ==> t.workers[w].rest == s.workers[w].rest[1..])
  {
    var t := After(ts, s, Work(w));
    forall v: nat | Runs(t, v, i) ensures v == w {
      if v != w { assert Runs(s, v, i); }
    }
  }

  lemma Advance(own: seq<Op>, rest: seq<Op>, script: seq<Op>)
    requires own + rest == script && rest != []
    ensures rest[0] in script && own + [rest[0]] + rest[1..] == script
    ensures |rest| == 1 ==> own + [rest[0]] == script
  {
    assert script[|own|] == rest[0];
    assert |rest| == 1 ==> rest == [rest[0]];
  }

  lemma WorkedKeeps(ts: seq<Target>, s: Pool, w: nat)
    requires Enabled(ts, s, Work(w))
    ensures var t := After(ts, s, Work(w)); t.next == s.next && t.entered == s.entered
    ensures Appended(ts, s, Work(w)) == [s.workers[w].rest[0]]
  {
  }

  lemma WorkedStep(ts: seq<Target>, s: Pool, w: nat, i: nat)
    requires Entries(ts, s) && Enabled(ts, s, Work(w)) && Runs(s, w, i)
    requires i < |ts| && Accounted(ts, s, i)
    ensures Accounted(ts, After(ts, s, Work(w)), i)
  {
    var own, rest := Own(s.h, ts[i].source.String()), s.workers[w].rest;
    assert i in s.entered && i < s.next && ts[i].skipReason == "";
    assert own + rest == Script(ts[i]);
    hide Script, Own, Enabled, After, Runs, Entries, Appended;
    WorkedRuns(ts, s, w, i);
    WorkedKeeps(ts, s, w);
    OwnAfter(ts, s, Work(w), ts[i].source.String());
    ScriptOps(ts[i]);
    Advance(own, rest, Script(ts[i]));
  }

  lemma InvStep(ts: seq<Target>, s: Pool, e: Event)
    requires DistinctTargets(ts) && Inv(ts, s) && Enabled(ts, s, e)
    ensures Inv(ts, After(ts, s, e))
  {
    var t := After(ts, s, e);
    PhasesStep(ts, s, e);
    EntriesStep(ts, s, e);
    forall i | 0 <= i < |ts| ensures Accounted(ts, t, i) {
      if !Concerns(s, e, i) {
        UnconcernedStep(ts, s, e, i);
      } else if e.Work? {
        assert Accounted(ts, s, i);
        WorkedStep(ts, s, e.w, i);
      } else {
        assert Accounted(ts, s, i);
        DispatchedStep(ts, s, e);
      }
    }
    AppendedSource(ts, s, e);
    hide Accounted, Phases, Entries, Own, Script, Concerns;
    forall name | forall i | 0 <= i < |ts| :: ts[i].source.String() != name
      ensures Own(t.h, name) == []
    {
      OwnAfter(ts, s, e, name);
    }
  }

  lemma InitInv(ts: seq<Target>, workers: int)
    ensures Inv(ts, Init(workers))
  {
  }

  lemma {:induction false} ReachesInv(ts: seq<Target>, workers: int, es: seq<Event>, s: Pool)
    requires DistinctTargets(ts) && Reaches(ts, Init(workers), es, s)
    ensures Inv(ts, s) && |s.workers| == |Init(workers).workers|
  {
    if es == [] {
      InitInv(ts, workers);
    } else {
      var n := |es| - 1;
      var m :| Reaches(ts, Init(workers), es[..n], m) && Enabled(ts, m, es[n]) && s == After(ts, m, es[n]);
      ReachesInv(ts, workers, es[..n], m);
      PhasesStep(ts, m, es[n]);
      hide Enabled, After, Inv;
      InvStep(ts, m, es[n]);
    }
  }

  // ---- When `run` returns ----

  /** What the reconcile of target `i`, or the dispatcher in its place, did to the plan. */
  function Performed(s: Pool, t: Target, i: nat): seq<Op> {
    if t.skipReason != "" then [Skipping(t)]
    else if i in s.entered then Script(t)
    else if s.ended.Some? then [Refusal(t, s.ended.value)]
    else []
  }

  predicate Concludes(op: Op) { op.Finish? || op.SetResult? }

  /** How many times an outcome is recorded. */
  function Conclusions(h: seq<Op>): nat {
    if h == [] then 0 else Conclusions(h[..|h| - 1]) + if Concludes(h[|h| - 1]) then 1 else 0
  }

  lemma {:induction false} NoConclusions(h: seq<Op>)
    requires forall op | op in h :: !Concludes(op)
    ensures Conclusions(h) == 0
  {
    if h != [] {
      NoConclusions(h[..|h| - 1]);
      assert h[|h| - 1] in h;
    }
  }

  lemma PerformedOnce(s: Pool, t: Target, i: nat)
    requires t.skipReason != "" || i in s.entered || s.ended.Some?
    ensures Conclusions(Performed(s, t, i)) == 1
  {
    var ops := Performed(s, t, i);
    var n := |ops| - 1;
    forall op | op in ops[..n] ensures !Concludes(op) {
    }
    NoConclusions(ops[..n]);
  }

  /** When `run` returns, whatever the workers, the order and the moment the context ended: no
      worker is left, every target was entered at most once and skipped ones never, and the
      plan has exactly one outcome per target, recorded once. */
  lemma PoolReturns(ts: seq<Target>, workers: int, s: Pool)
    requires DistinctTargets(ts) && Ends(ts, workers, s)
    ensures forall w | 0 <= w < |s.workers| :: s.workers[w].Exited?
    ensures forall k | 0 <= k < |s.entered| :: s.entered[k] < |ts| && ts[s.entered[k]].skipReason == ""
    ensures forall k, l | 0 <= k < l < |s.entered| :: s.entered[k] != s.entered[l]
    ensures s.ended.None? ==> forall i | 0 <= i < |ts| && ts[i].skipReason == "" :: i in s.entered
    ensures forall i | 0 <= i < |ts| :: Own(s.h, ts[i].source.String()) == Performed(s, ts[i], i)
    ensures forall i | 0 <= i < |ts| :: Conclusions(Own(s.h, ts[i].source.String())) == 1
    ensures forall name | (forall i | 0 <= i < |ts| :: ts[i].source.String() != name) :: Own(s.h, name) == []
  {
    var es :| Reaches(ts, Init(workers), es, s);
    ReachesInv(ts, workers, es, s);
    hide Reaches, Script, Own;
    forall i | 0 <= i < |ts|
      ensures Own(s.h, ts[i].source.String()) == Performed(s, ts[i], i)
      ensures Conclusions(Own(s.h, ts[i].source.String())) == 1
      ensures s.ended.None? && ts[i].skipReason == "" ==> i in s.entered
    {
      assert Accounted(ts, s, i);
      forall w: nat ensures !Runs(s, w, i) {
      }
      PerformedOnce(s, ts[i], i);
    }
  }

  function RunningWorkers(s: Pool): set<nat> {
    set w: nat | w < |s.workers| && s.workers[w].Running?
  }

  lemma {:induction false} Below(n: nat, a: set<nat>)
    requires forall x | x in a :: x < n
    ensures |a| <= n
  {
    if n == 0 {
      assert a == {};
    } else {
      Below(n - 1, a - {n - 1});
    }
  }

  /** At most max(workers, 1) reconciles run at once, each of another target. */
  lemma AtMostWorkers(ts: seq<Target>, workers: int, es: seq<Event>, s: Pool)
    requires DistinctTargets(ts) && Reaches(ts, Init(workers), es, s)
    ensures |RunningWorkers(s)| <= if workers < 1 then 1 else workers
    ensures forall w, v | w in RunningWorkers(s) && v in RunningWorkers(s) && w != v ::
      s.workers[w].target != s.workers[v].target
  {
    ReachesInv(ts, workers, es, s);
    Below(|s.workers|, RunningWorkers(s));
    forall w, v | w in RunningWorkers(s) && v in RunningWorkers(s) && w != v
      ensures s.workers[w].target != s.workers[v].target
    {
      assert Runs(s, w, s.workers[w].target) && Runs(s, v, s.workers[v].target);
    }
  }

  // ---- Progress and termination ----

  function TargetsLeft(ts: seq<Target>, i: nat): nat
    decreases |ts| - i
  {
    if i >= |ts| then 0 else |Script(ts[i])| + 5 + TargetsLeft(ts, i + 1)
  }

  function WorkLeft(ws: seq<Worker>): nat {
    if ws == [] then 0
    else
      var w := ws[|ws| - 1];
      WorkLeft(ws[..|ws| - 1]) + match w case Idle => 1 case Running(_, rest) => 1 + |rest| case Exited => 0
  }

  function Measure(ts: seq<Target>, s: Pool): nat {
    TargetsLeft(ts, s.next)
    + (match s.at case Next => 4 case Offering => 3 case Refusing => 2 case Closed => 1 case Returned => 0)
    + WorkLeft(s.workers)
    + if s.ended.None? then 1 else 0
  }

  lemma {:induction false} WorkLeftUpdate(ws: seq<Worker>, w: nat, x: Worker)
    requires w < |ws|
    ensures WorkLeft(ws[w := x]) - WorkLeft([x]) == WorkLeft(ws) - WorkLeft([ws[w]])
  {
    var n := |ws| - 1;
    assert WorkLeft([]) == 0;
    if w == n {
      assert ws[w := x][..n] == ws[..n];
    } else {
      WorkLeftUpdate(ws[..n], w, x);
      assert ws[w := x][..n] == ws[..n][w := x];
    }
  }

  /** Every event brings the end nearer. */
  lemma MeasureStep(ts: seq<Target>, s: Pool, e: Event)
    requires Phases(ts, s) && Enabled(ts, s, e)
    ensures Measure(ts, After(ts, s, e)) < Measure(ts, s)
  {
    hide Script;
    match e
    case Hand(w) => WorkLeftUpdate(s.workers, w, Running(s.next, Script(ts[s.next])));
    case Work(w) =>
      var rest := s.workers[w].rest;
      WorkLeftUpdate(s.workers, w, if |rest| == 1 then Idle else Running(s.workers[w].target, rest[1..]));
    case Exit(w) => WorkLeftUpdate(s.workers, w, Exited);
    case _ =>
  }

  /** Until `run` returns, some worker or the dispatcher can go on, whether or not the context ends. */
  lemma Progress(ts: seq<Target>, s: Pool)
    requires Phases(ts, s) && Entries(ts, s) && !s.at.Returned?
    ensures exists e :: Enabled(ts, s, e) && !e.End?
  {
    match s.at
    case Next =>
      if s.next == |ts| {
        assert Enabled(ts, s, Close);
      } else if ts[s.next].skipReason != "" {
        assert Enabled(ts, s, Skip);
      } else {
        assert Enabled(ts, s, Check);
      }
    case Offering =>
      if s.workers[0].Idle? {
        assert Enabled(ts, s, Hand(0));
      } else {
        assert Runs(s, 0, s.workers[0].target);
        assert Enabled(ts, s, Work(0));
      }
    case Refusing => assert Enabled(ts, s, Refuse);
    case Closed =>
      if w: nat :| w < |s.workers| && !s.workers[w].Exited? {
        if s.workers[w].Idle? {
          assert Enabled(ts, s, Exit(w));
        } else {
          assert Runs(s, w, s.workers[w].target);
          assert Enabled(ts, s, Work(w));
        }
      } else {
        assert Enabled(ts, s, Return);
      }
  }

  /** `run` returns: no run is longer than the measure of its start, and one that cannot go on has returned. */
  lemma {:induction false} Terminates(ts: seq<Target>, workers: int, es: seq<Event>, s: Pool)
    requires DistinctTargets(ts) && Reaches(ts, Init(workers), es, s)
    ensures |es| + Measure(ts, s) <= Measure(ts, Init(workers))
    ensures (forall e :: !Enabled(ts, s, e) || e.End?) ==> s.at.Returned?
  {
    ReachesInv(ts, workers, es, s);
    if !s.at.Returned? {
      Progress(ts, s);
    }
    if es != [] {
      var n := |es| - 1;
      var m :| Reaches(ts, Init(workers), es[..n], m) && Enabled(ts, m, es[n]) && s == After(ts, m, es[n]);
      ReachesInv(ts, workers, es[..n], m);
      hide Enabled, After, Measure, AllAccounted, Phases, Entries;
      Terminates(ts, workers, es[..n], m);
      MeasureStep(ts, m, es[n]);
    }
  }
}
