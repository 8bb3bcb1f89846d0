/** The dispatcher callbacks as functions on one run's durable state. */
module Dispatcher {
  import opened Options
  import opened Workflow
  import opened Expansion
  import opened FiniteSets

  datatype RunStatus = RunQueued | RunRunning | RunCompleted | RunFailed | RunCancelled

  datatype Kind = KindCompleted | KindFailed | KindAwaiting

  /** An outbox row. The store keys it by node; the model also records which row wrote it. */
  datatype Event = Event(job: JobId, kind: Kind, processed: bool, attempts: nat)

  /** Everything the store holds about one run. `handed` collects the row ids that some claim has ever
      returned to a worker process; `expanded` says that the run has been expanded since it was created
      or last restarted by the host; `gen` names the next insertion. */
  datatype Run = Run(
    status: RunStatus,
    project: string,
    priority: int,
    context: Context,
    rows: Table,
    events: seq<Event>,
    gen: nat,
    handed: set<JobId>,
    expanded: bool)

  predicate Stopped(st: RunStatus) {
    st.RunCancelled? || st.RunFailed?
  }

  function ScopeOf(e: Engine, s: Run): Scope {
    Scope(e, s.project, s.priority, s.context, s.gen)
  }

  /** One complete fan-out. */
  function FanOut(e: Engine, s: Run): Run {
    s.(rows := Expand(ScopeOf(e, s), s.rows), gen := s.gen + 1)
  }

  function Expanded(e: Engine, s: Run): Run {
    FanOut(e, s).(expanded := true)
  }

  predicate AllDone(nodes: seq<Node>, t: Table) {
    nodes != [] && forall n :: n in nodes ==> Satisfied(t, n.id)
  }

  predicate AnyLive(t: Table) {
    exists k :: k in t && Live(t[k].status)
  }

  /** Every GPU node declares a model or is exempt. */
  predicate GpuModelsDeclared(e: Engine) {
    forall n :: n in e.nodes && n.gpu && n.model.None? ==> n.moduleName in e.exempt
  }

  /** The tick's expansion of a queued run. */
  function StartRun(e: Engine, s: Run): Run {
    if !s.status.RunQueued? then s
    else if !GpuModelsDeclared(e) then s.(status := RunFailed)
    else
      var s' := Expanded(e, s);
      if |s'.rows| > |s.rows| then s'.(status := RunRunning) else s'
  }

  predicate IsPatch(t: Table, node: NodeId) {
    node in t && t[node].patch
  }

  function OnNodeCompleted(e: Engine, s: Run, node: NodeId): Run {
    if Stopped(s.status) || IsPatch(s.rows, node) then s
    else
      var s' := Expanded(e, s);
      if AllDone(e.nodes, s'.rows) then s'.(status := RunCompleted) else s'
  }

  function CancelQueued(t: Table): Table {
    map k | k in t :: if t[k].status.Queued? then t[k].(status := Cancelled) else t[k]
  }

  function OnNodeFailed(s: Run, node: NodeId): Run {
    if Stopped(s.status) || IsPatch(s.rows, node) then s
    else s.(rows := CancelQueued(s.rows), status := RunFailed)
  }

  /** The rows that survive a restart: completed and skipped ones. */
  function KeepDone(t: Table): Table {
    map k | k in t && Done(t[k].status) :: t[k]
  }

  function Dropped(s: Run): Run {
    s.(rows := KeepDone(s.rows))
  }

  /** Dead rows dropped and, if there were any, the freed nodes expanded. */
  function Repaired(e: Engine, s: Run): Run {
    if |Dropped(s).rows| < |s.rows| then FanOut(e, Dropped(s)) else Dropped(s)
  }

  datatype Action = Noop | FlippedCompleted | Enqueued | Requeued | FlippedFailed

  /** The stuck-run reconciler. */
  function Reconcile(e: Engine, s: Run): (r: (Run, Action)) {
    if !(s.status.RunQueued? || s.status.RunRunning?) || AnyLive(s.rows) then (s, Noop)
    else if AllDone(e.nodes, s.rows) then (s.(status := RunCompleted), FlippedCompleted)
    else
      var s1 := Expanded(e, s);
      if |s1.rows| > |s.rows| then (s1.(status := RunRunning), Enqueued)
      else
        var s2 := Repaired(e, s1);
        if |s2.rows| > |Dropped(s1).rows| then (s2.(status := RunRunning), Requeued)
        else (s2.(status := RunFailed), FlippedFailed)
  }

  // ------------------------------------------------------ how a fan-out grows

  /** A ready node has a row in every closed table that keeps the rows. */
  lemma {:induction false} ReadyGetsARow(nodes: seq<Node>, t: Table, u: Table, n: Node)
    requires n in nodes && Ready(t, n) && Closed(nodes, u)
    requires forall k :: k in t ==> k in u && u[k] == t[k]
    ensures n.id in u
  {
    forall d | d in n.deps
      ensures Satisfied(u, d)
    {
      assert Satisfied(t, d);
    }
    assert !Ready(u, n);
  }

  /** A fan-out adds rows exactly when some node is ready. */
  lemma {:induction false} FanOutGrows(e: Engine, s: Run)
    requires DistinctIds(e.nodes)
    ensures s.rows.Keys <= FanOut(e, s).rows.Keys
    ensures |FanOut(e, s).rows| >= |s.rows|
    ensures |FanOut(e, s).rows| > |s.rows| <==> !Closed(e.nodes, s.rows)
    ensures |FanOut(e, s).rows| == |s.rows| ==> FanOut(e, s).rows == s.rows
  {
    var x := ScopeOf(e, s);
    ExpandIsLeastFixedPoint(x, s.rows);
    var u := Expand(x, s.rows);
    SubsetSize(s.rows.Keys, u.Keys);
    if !Closed(e.nodes, s.rows) {
      var n :| n in e.nodes && Ready(s.rows, n);
      ReadyGetsARow(e.nodes, s.rows, u, n);
      assert n.id in u.Keys && n.id !in s.rows.Keys;
    } else {
      assert Extends(x, s.rows, s.rows);
      assert Within(u, s.rows);
      assert u == s.rows;
    }
  }

  /** As long as the DAG is not finished, some unfinished node has all its dependencies satisfied. */
  lemma {:induction false} FrontierBelow(nodes: seq<Node>, rank: map<NodeId, nat>, t: Table, n: Node)
    returns (m: Node)
    requires DepsExist(nodes) && Ranks(nodes, rank)
    requires n in nodes && !Satisfied(t, n.id)
    ensures m in nodes && !Satisfied(t, m.id) && forall d :: d in m.deps ==> Satisfied(t, d)
    decreases rank[n.id]
  {
    if forall d :: d in n.deps ==> Satisfied(t, d) {
      m := n;
    } else {
      var d :| d in n.deps && !Satisfied(t, d);
      assert HasId(nodes, d);
      var p :| p in nodes && p.id == d;
      m := FrontierBelow(nodes, rank, t, p);
    }
  }

  lemma {:induction false} Frontier(nodes: seq<Node>, t: Table) returns (m: Node)
    requires WellFormed(nodes) && !AllDone(nodes, t)
    ensures m in nodes && !Satisfied(t, m.id) && forall d :: d in m.deps ==> Satisfied(t, d)
  {
    var rank :| Ranks(nodes, rank);
    var n :| n in nodes && !Satisfied(t, n.id);
    m := FrontierBelow(nodes, rank, t, n);
  }

  /** If nothing is ready and every row is finished work, the whole DAG is finished. */
  lemma {:induction false} ClosedAndDoneIsAllDone(nodes: seq<Node>, t: Table)
    requires WellFormed(nodes) && Closed(nodes, t)
    requires forall k :: k in t ==> Done(t[k].status)
    ensures AllDone(nodes, t)
  {
    if !AllDone(nodes, t) {
      var m := Frontier(nodes, t);
      assert Ready(t, m);
    }
  }

  // ------------------------------------------------------ reconciler theorems

  /** Behind a closed, unfinished frontier there is a dead row, and dropping it frees its node. */
  lemma {:induction false} DroppingDeadRowsFreesANode(nodes: seq<Node>, t: Table)
    requires WellFormed(nodes) && Closed(nodes, t) && !AllDone(nodes, t)
    ensures |KeepDone(t)| < |t| && !Closed(nodes, KeepDone(t))
  {
    var m := Frontier(nodes, t);
    assert !Ready(t, m);
    assert m.id in t.Keys && m.id !in KeepDone(t).Keys;
    SubsetSize(KeepDone(t).Keys, t.Keys);
    assert Ready(KeepDone(t), m);
  }

  /** On a well-formed workflow the reconciler never gives a run up as dead-ended. */
  lemma {:induction false} ReconcileNeverFails(e: Engine, s: Run)
    requires WellFormed(e.nodes)
    ensures !Reconcile(e, s).1.FlippedFailed?
  {
    FanOutGrows(e, s);
    if Closed(e.nodes, s.rows) && !AllDone(e.nodes, s.rows) {
      DroppingDeadRowsFreesANode(e.nodes, s.rows);
      FanOutGrows(e, Dropped(Expanded(e, s)));
    }
  }

  /** The outcome a stuck run is driven to. */
  predicate Settled(s: Run) {
    s.status.RunCompleted? || AnyLive(s.rows)
  }

  function ReconcileTimes(e: Engine, s: Run, k: nat): Run
    decreases k
  {
    if k == 0 then s else ReconcileTimes(e, Reconcile(e, s).0, k - 1)
  }

  ghost predicate OnlyDone(t: Table) {
    forall k :: k in t ==> Done(t[k].status)
  }

  /** A table without live rows splits into finished and dead ones. */
  lemma {:induction false} NotLive(t: Table, k: NodeId)
    requires !AnyLive(t) && k in t
    ensures Done(t[k].status) || t[k].status.Failed? || t[k].status.Cancelled?
  {
    assert !Live(t[k].status);
  }

  /** After an `Enqueued` call that queued nothing, only the skips were missing: nothing is ready. */
  lemma {:induction false} EnqueuedCloses(e: Engine, s: Run)
    requires WellFormed(e.nodes)
    requires Reconcile(e, s).1.Enqueued?
    ensures Closed(e.nodes, Reconcile(e, s).0.rows)
  {
    ExpandIsLeastFixedPoint(ScopeOf(e, s), s.rows);
  }

  /** A repair that queued nothing leaves no dead row and nothing ready. */
  lemma {:induction false} RepairCleans(e: Engine, s: Run)
    requires DistinctIds(e.nodes)
    ensures var u := FanOut(e, Dropped(s)).rows;
      Closed(e.nodes, u) && (!AnyLive(u) ==> OnlyDone(u))
  {
    var s2 := Dropped(s);
    var x, u := ScopeOf(e, s2), Expand(ScopeOf(e, s2), s2.rows);
    ExpandIsLeastFixedPoint(x, s2.rows);
    if !AnyLive(u) {
      forall k | k in u
        ensures Done(u[k].status)
      {
        NotLive(u, k);
        if k !in s2.rows {
          ExpandShape(x, s2.rows, k);
        }
      }
    }
  }

  /** After a `Requeued` call that queued nothing, no dead row is left and nothing is ready. */
  lemma {:induction false} RequeuedCleans(e: Engine, s: Run)
    requires WellFormed(e.nodes)
    requires Reconcile(e, s).1.Requeued?
    ensures Closed(e.nodes, Reconcile(e, s).0.rows)
    ensures !AnyLive(Reconcile(e, s).0.rows) ==> OnlyDone(Reconcile(e, s).0.rows)
  {
    RepairCleans(e, Expanded(e, s));
    assert Reconcile(e, s).0.rows == FanOut(e, Dropped(Expanded(e, s))).rows;
  }

  /** One call on a run whose rows are closed: it settles, or it leaves only finished rows and
      nothing ready. */
  lemma {:induction false} ReconcileClosed(e: Engine, s: Run)
    requires WellFormed(e.nodes)
    requires s.status.RunQueued? || s.status.RunRunning?
    requires Closed(e.nodes, s.rows)
    ensures var s' := Reconcile(e, s).0;
      Settled(s') || (s'.status.RunRunning? && Closed(e.nodes, s'.rows) && OnlyDone(s'.rows))
  {
    ReconcileNeverFails(e, s);
    FanOutGrows(e, s);
    if Reconcile(e, s).1.Requeued? {
      RequeuedCleans(e, s);
    }
  }

  /** The last call: with nothing ready and only finished rows, the run is flipped to completed. */
  lemma {:induction false} ThirdCall(e: Engine, s: Run)
    requires WellFormed(e.nodes)
    requires Settled(s) || (s.status.RunRunning? && Closed(e.nodes, s.rows) && OnlyDone(s.rows))
    ensures Settled(ReconcileTimes(e, s, 1))
  {
    assert ReconcileTimes(e, s, 1) == ReconcileTimes(e, Reconcile(e, s).0, 0);
    if !Settled(s) {
      ClosedAndDoneIsAllDone(e.nodes, s.rows);
    }
  }

  lemma {:induction false} SecondCall(e: Engine, s: Run)
    requires WellFormed(e.nodes)
    requires Settled(s) || (s.status.RunRunning? && Closed(e.nodes, s.rows))
    ensures Settled(ReconcileTimes(e, s, 2))
  {
    if !Settled(s) {
      ReconcileClosed(e, s);
    }
    ThirdCall(e, Reconcile(e, s).0);
  }

  /** Convergence: three calls in a row finish a non-terminal run or put live work behind it. */
  lemma {:induction false} ReconcileConverges(e: Engine, s: Run)
    requires WellFormed(e.nodes)
    requires s.status.RunQueued? || s.status.RunRunning?
    ensures Settled(ReconcileTimes(e, s, 3))
  {
    ReconcileNeverFails(e, s);
    if Reconcile(e, s).1.Enqueued? {
      EnqueuedCloses(e, s);
    } else if Reconcile(e, s).1.Requeued? {
      RequeuedCleans(e, s);
    }
    SecondCall(e, Reconcile(e, s).0);
  }

  // --------------------------------------------------- the bound of three is tight

  /** Every node carries a `skip_if` that always holds. */
  ghost predicate SkipsEverything(e: Engine) {
    && (forall n :: n in e.nodes ==> n.skipIf.Some?)
    && (forall r, c :: e.resolve(r, c).Truthy?)
  }

  /** A fan-out of such a workflow never makes live work. */
  lemma {:induction false} SkippingMakesNothingLive(e: Engine, s: Run)
    requires DistinctIds(e.nodes) && SkipsEverything(e) && !AnyLive(s.rows)
    ensures !AnyLive(FanOut(e, s).rows)
  {
    var x := ScopeOf(e, s);
    ExpandIsLeastFixedPoint(x, s.rows);
    forall k | k in Expand(x, s.rows)
      ensures !Live(Expand(x, s.rows)[k].status)
    {
      if k !in s.rows {
        ExpandShape(x, s.rows, k);
      } else {
        NotLive(s.rows, k);
      }
    }
  }

  /** One call on such a workflow repairs without live work and without finishing. */
  lemma {:induction false} RepairWithoutSettling(e: Engine, s: Run)
    requires WellFormed(e.nodes) && SkipsEverything(e)
    requires s.status.RunRunning? && !AnyLive(s.rows) && !AllDone(e.nodes, s.rows)
    ensures !Settled(Reconcile(e, s).0) && Reconcile(e, s).0.status.RunRunning?
  {
    SkippingMakesNothingLive(e, s);
    ReconcileNeverFails(e, s);
    var kept := Dropped(Expanded(e, s));
    assert !AnyLive(kept.rows);
    SkippingMakesNothingLive(e, kept);
  }

  /** A skip-only expansion followed by a skip-only repair needs the third call. */
  lemma {:induction false} TwoCallsCanBeTooFew()
    ensures exists e: Engine, s: Run ::
      WellFormed(e.nodes) && s.status.RunRunning? && !Settled(ReconcileTimes(e, s, 2))
  {
    var a := Node("a", [], false, false, None, "m", Some("r"));
    var b := Node("b", [], false, false, None, "m", Some("r"));
    var e := Engine([a, b], {}, (r, c) => Truthy);
    var dead := Row(JobId("b", 0), Failed, Cpu, None, "", 100, None, None, 0, map[], false, false);
    var s := Run(RunRunning, "", 100, map[], map["b" := dead], [], 1, {}, true);
    TwoLooseNodes(a, b);
    assert Ready(s.rows, a) && !AnyLive(s.rows);
    DeadRowNeedsThreeCalls(e, s, a, b);
  }

  lemma {:induction false} TwoLooseNodes(a: Node, b: Node)
    requires a.id != b.id && a.deps == [] && b.deps == []
    ensures WellFormed([a, b])
  {
    assert Ranks([a, b], map[a.id := 0, b.id := 0]);
  }

  lemma {:induction false} DeadRowNeedsThreeCalls(e: Engine, s: Run, a: Node, b: Node)
    requires WellFormed(e.nodes) && SkipsEverything(e)
    requires s.status.RunRunning? && !AnyLive(s.rows)
    requires a in e.nodes && Ready(s.rows, a)
    requires b in e.nodes && b.id in s.rows && !Satisfied(s.rows, b.id)
    ensures !Settled(ReconcileTimes(e, s, 2))
  {
    RepairWithoutSettling(e, s);
    FanOutGrows(e, s);
    ExpandIsLeastFixedPoint(ScopeOf(e, s), s.rows);
    var s1 := Reconcile(e, s).0;
    assert s1.rows[b.id] == s.rows[b.id];
    RepairWithoutSettling(e, s1);
    assert ReconcileTimes(e, s, 2) == ReconcileTimes(e, s1, 1) == ReconcileTimes(e, Reconcile(e, s1).0, 0);
  }
}
