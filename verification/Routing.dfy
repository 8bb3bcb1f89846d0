/** Where jobs may run: every row of a workflow node carries the run's project and the queue, model and kind
    its node declares, and a stopped run hands out nothing. */
module Routing {
  import opened Options
  import opened Workflow
  import opened Expansion
  import opened Dispatcher
  import opened Protocol
  import opened ProtocolInvariant
  import opened Guarantees

  predicate OnGpu(n: Node) {
    n.gpu && !n.input
  }

  /** A row as its node asks for it. A bookkeeping `skipped` row only carries the project. */
  predicate Fits(n: Node, project: string, row: Row) {
    && row.project == project
    && (!row.status.Skipped? ==>
          (row.queue.Gpu? <==> OnGpu(n)) && row.input == n.input && row.model == (if OnGpu(n) then n.model else None))
  }

  ghost predicate FitsIts(e: Engine, project: string, k: NodeId, row: Row) {
    forall n :: n in e.nodes && n.id == k ==> Fits(n, project, row)
  }

  ghost predicate Routed(e: Engine, s: Run) {
    forall k :: k in s.rows ==> FitsIts(e, s.project, k, s.rows[k])
  }

  predicate SameRoute(a: Row, b: Row) {
    && a.project == b.project && a.queue == b.queue && a.input == b.input && a.model == b.model
    && (a.status.Skipped? <==> b.status.Skipped?)
  }

  /** Every row after the step has the route it had before, or is new and as its node asks. */
  ghost predicate KeepsRoutes(e: Engine, s: Run, s': Run) {
    && s'.project == s.project
    && forall k :: k in s'.rows ==>
         (k in s.rows && SameRoute(s.rows[k], s'.rows[k])) || FitsIts(e, s.project, k, s'.rows[k])
  }

  lemma {:induction false} RoutesKept(e: Engine, s: Run, s': Run)
    requires Routed(e, s) && KeepsRoutes(e, s, s')
    ensures Routed(e, s')
  {
  }

  lemma {:induction false} KeepsRoutesTransitive(e: Engine, a: Run, b: Run, c: Run)
    requires KeepsRoutes(e, a, b) && KeepsRoutes(e, b, c)
    ensures KeepsRoutes(e, a, c)
  {
  }

  lemma {:induction false} NewRowFits(e: Engine, s: Run, n: Node)
    requires DistinctIds(e.nodes) && n in e.nodes
    ensures FitsIts(e, s.project, n.id, NewRow(ScopeOf(e, s), n, s.rows))
  {
    forall m | m in e.nodes && m.id == n.id
      ensures m == n
    {
      SameIdSameNode(e.nodes, m, n);
    }
  }

  lemma {:induction false} FanOutRoutes(e: Engine, s: Run)
    requires DistinctIds(e.nodes)
    ensures KeepsRoutes(e, s, FanOut(e, s))
  {
    var x := ScopeOf(e, s);
    ExpandIsLeastFixedPoint(x, s.rows);
    forall k | k in FanOut(e, s).rows && k !in s.rows
      ensures FitsIts(e, s.project, k, FanOut(e, s).rows[k])
    {
      ExpandShape(x, s.rows, k);
      var n :| n in e.nodes && n.id == k && Expand(x, s.rows)[k] == NewRow(x, n, s.rows);
      NewRowFits(e, s, n);
    }
  }

  lemma {:induction false} PartialRoutes(e: Engine, s: Run, partial: seq<Node>)
    requires DistinctIds(e.nodes)
    ensures KeepsRoutes(e, s, PartialFanOut(e, s, partial))
  {
    var x := ScopeOf(e, s);
    if Legal(x, s.rows, partial) {
      LegalExtends(x, s.rows, partial);
      var f := PartialFanOut(e, s, partial);
      forall k | k in f.rows && k !in s.rows
        ensures FitsIts(e, s.project, k, f.rows[k])
      {
        assert HasId(e.nodes, k);
        var n :| n in e.nodes && n.id == k;
        assert f.rows[k] == NewRow(x, n, s.rows);
        NewRowFits(e, s, n);
      }
    }
  }

  lemma {:induction false} CompletedRoutes(e: Engine, s: Run, node: NodeId)
    requires DistinctIds(e.nodes)
    ensures KeepsRoutes(e, s, OnNodeCompleted(e, s, node))
  {
    FanOutRoutes(e, s);
  }

  lemma {:induction false} RepairRoutes(e: Engine, s: Run)
    requires DistinctIds(e.nodes)
    ensures KeepsRoutes(e, s, Repaired(e, s))
  {
    var kept := Dropped(s);
    RowwiseRoutes(e, s, kept);
    if |kept.rows| < |s.rows| {
      FanOutRoutes(e, kept);
      KeepsRoutesTransitive(e, s, kept, FanOut(e, kept));
    }
  }

  lemma {:induction false} StatusRoutes(e: Engine, s: Run, mid: Run, st: RunStatus)
    requires KeepsRoutes(e, s, mid)
    ensures KeepsRoutes(e, s, mid.(status := st))
  {
  }

  lemma {:induction false} ReconcileRoutes(e: Engine, s: Run)
    requires DistinctIds(e.nodes)
    ensures KeepsRoutes(e, s, Reconcile(e, s).0)
  {
    var (s', action) := Reconcile(e, s);
    FanOutRoutes(e, s);
    var s1 := Expanded(e, s);
    assert KeepsRoutes(e, s, s1);
    if action.Enqueued? {
      StatusRoutes(e, s, s1, RunRunning);
    } else if action.Requeued? || action.FlippedFailed? {
      RepairRoutes(e, s1);
      KeepsRoutesTransitive(e, s, s1, Repaired(e, s1));
      StatusRoutes(e, s, Repaired(e, s1), s'.status);
    } else {
      RowwiseRoutes(e, s, s');
    }
  }

  lemma {:induction false} FailedRoutes(e: Engine, s: Run, node: NodeId)
    ensures KeepsRoutes(e, s, OnNodeFailed(s, node))
  {
    if OnNodeFailed(s, node) != s {
      RowwiseRoutes(e, s, OnNodeFailed(s, node));
    }
  }

  lemma {:induction false} DrainRoutes(e: Engine, s: Run, i: nat)
    requires DistinctIds(e.nodes)
    ensures KeepsRoutes(e, s, DrainOne(e, s, i))
  {
    if Unprocessed(s, i) {
      CompletedRoutes(e, s, s.events[i].job.node);
      FailedRoutes(e, s, s.events[i].job.node);
      assert KeepsRoutes(e, s, Callback(e, s, s.events[i]));
    }
  }

  lemma {:induction false} DrainRaisesRoutes(e: Engine, s: Run, i: nat, partial: seq<Node>)
    requires DistinctIds(e.nodes)
    ensures KeepsRoutes(e, s, DrainOneRaises(e, s, i, partial))
  {
    if Unprocessed(s, i) {
      PartialRoutes(e, s, partial);
      assert KeepsRoutes(e, s, RaisedCallback(e, s, s.events[i], partial));
    }
  }

  lemma {:induction false} InputRoutes(e: Engine, s: Run, node: NodeId, delta: Delta)
    requires DistinctIds(e.nodes)
    ensures KeepsRoutes(e, s, AcceptInput(e, s, node, delta))
  {
    if node in s.rows && (s.rows[node].status.AwaitingInput? || s.rows[node].status.Queued?) {
      var mid := InputArrived(s, node, delta);
      assert KeepsRoutes(e, s, mid);
      CompletedRoutes(e, mid, node);
      KeepsRoutesTransitive(e, s, mid, OnNodeCompleted(e, mid, node));
    }
  }

  lemma {:induction false} StartRoutes(e: Engine, s: Run, partial: seq<Node>)
    requires DistinctIds(e.nodes)
    ensures KeepsRoutes(e, s, StartRun(e, s)) && KeepsRoutes(e, s, StartRunRaises(e, s, partial))
  {
    FanOutRoutes(e, s);
    PartialRoutes(e, s, partial);
  }

  lemma {:induction false} RowwiseRoutes(e: Engine, s: Run, s': Run)
    requires s'.project == s.project && s'.rows.Keys <= s.rows.Keys
    requires forall k :: k in s'.rows ==> SameRoute(s.rows[k], s'.rows[k])
    ensures KeepsRoutes(e, s, s')
  {
  }

  lemma {:induction false} OneRowRoutes(e: Engine, s: Run, s': Run, node: NodeId, row: Row)
    requires node in s.rows && s'.project == s.project && s'.rows == s.rows[node := row]
    requires SameRoute(s.rows[node], row)
    ensures KeepsRoutes(e, s, s')
  {
  }

  lemma {:induction false} MarkRoutes(e: Engine, s: Run, id: JobId, delta: Delta)
    requires SkippedUntouched(s)
    ensures KeepsRoutes(e, s, CompleteRow(s, id, delta)) && KeepsRoutes(e, s, FailRow(s, id))
    ensures KeepsRoutes(e, s, ParkRow(s, id))
  {
    if Markable(s, id) {
      var row := s.rows[id.node];
      OneRowRoutes(e, s, CompleteRow(s, id, delta), id.node, row.(status := Completed, delta := delta));
      OneRowRoutes(e, s, FailRow(s, id), id.node, row.(status := Failed));
      OneRowRoutes(e, s, WithRow(s, id, row.(status := AwaitingInput)), id.node, row.(status := AwaitingInput));
    }
  }

  /** The dispatcher's and the executor's steps. */
  lemma {:induction false} DispatcherRoutes(e: Engine, s: Run, step: Step)
    requires DistinctIds(e.nodes) && SkippedUntouched(s) && !IsQuiet(step)
    ensures KeepsRoutes(e, s, Apply(e, s, step))
  {
    match step
    case ExpandRun => StartRoutes(e, s, []);
    case ExpandRunRaises(partial) => StartRoutes(e, s, partial);
    case Drain(i) => DrainRoutes(e, s, i);
    case DrainRaises(i, partial) => DrainRaisesRoutes(e, s, i, partial);
    case Complete(id, delta) => MarkRoutes(e, s, id, delta);
    case Fail(id) => MarkRoutes(e, s, id, map[]);
    case Park(id) => MarkRoutes(e, s, id, map[]);
    case ResumeAfterInput(node, delta) => InputRoutes(e, s, node, delta);
    case ReconcileRun => ReconcileRoutes(e, s);
    case RestartRun =>
    case EnqueuePatch(node, queue, project) => PatchRoutes(e, s, node, queue, project);
  }

  lemma {:induction false} PatchRoutes(e: Engine, s: Run, node: NodeId, queue: Queue, project: string)
    ensures KeepsRoutes(e, s, InsertPatch(e, s, node, queue, project))
  {
    if !HasId(e.nodes, node) {
      assert forall n :: n in e.nodes ==> n.id != node;
    }
  }

  lemma {:induction false} WorkerRoutes(e: Engine, s: Run, node: NodeId, id: JobId, host: string, queue: Queue,
                                        project: string, lease: int)
    ensures KeepsRoutes(e, s, ClaimRow(s, node, host, queue, project, lease))
    ensures KeepsRoutes(e, s, RenewLease(s, id, host, lease))
    ensures KeepsRoutes(e, s, RequeueRow(s, id))
  {
    if Claimable(s, node, queue, project) {
      var s' := ClaimRow(s, node, host, queue, project, lease);
      OneRowRoutes(e, s, s', node, s'.rows[node]);
    }
    if Holds(s, id) {
      OneRowRoutes(e, s, RenewLease(s, id, host, lease), id.node, RenewLease(s, id, host, lease).rows[id.node]);
      OneRowRoutes(e, s, RequeueRow(s, id), id.node, RequeueRow(s, id).rows[id.node]);
    }
  }

  lemma {:induction false} ExpiredRoutes(e: Engine, s: Run, now: int)
    ensures KeepsRoutes(e, s, ReclaimExpiredRows(s, now))
  {
    RowwiseRoutes(e, s, ReclaimExpiredRows(s, now));
  }

  lemma {:induction false} OrphanedRoutes(e: Engine, s: Run, project: string, beating: set<(string, Queue)>)
    ensures KeepsRoutes(e, s, ReclaimOrphanedRows(s, project, beating))
  {
    RowwiseRoutes(e, s, ReclaimOrphanedRows(s, project, beating));
  }

  lemma {:induction false} WorkerRowRoutes(e: Engine, s: Run, project: string, host: string, queue: Queue)
    ensures KeepsRoutes(e, s, RequeueWorkerRows(s, host, queue, project))
  {
    RowwiseRoutes(e, s, RequeueWorkerRows(s, host, queue, project));
  }

  lemma {:induction false} CancelledRoutes(e: Engine, s: Run, project: string)
    ensures KeepsRoutes(e, s, CancelOrphanRows(s, project))
  {
    RowwiseRoutes(e, s, CancelOrphanRows(s, project));
  }

  /** The statements that only move rows between queue and workers. */
  lemma {:induction false} QuietRoutes(e: Engine, s: Run, step: Step)
    requires IsQuiet(step)
    ensures KeepsRoutes(e, s, Apply(e, s, step))
  {
    match step
    case Claim(node, host, queue, project, lease) =>
      WorkerRoutes(e, s, node, JobId("", 0), host, queue, project, lease);
    case Renew(id, host, lease) => WorkerRoutes(e, s, "", id, host, Cpu, "", lease);
    case RequeueForRetry(id) => WorkerRoutes(e, s, "", id, "", Cpu, "", 0);
    case ReclaimExpired(now) => ExpiredRoutes(e, s, now);
    case ReclaimForResume(project, beating) => OrphanedRoutes(e, s, project, beating);
    case RequeueForWorker(host, queue, project) => WorkerRowRoutes(e, s, project, host, queue);
    case CancelOrphans(project) => CancelledRoutes(e, s, project);
    case ResumeRun(project) => RowwiseRoutes(e, s, ResumeStatus(s, project));
    case CancelRun => RowwiseRoutes(e, s, CancelStatus(s));
  }

  lemma {:induction false} ExecRoutes(e: Engine, s: Run, steps: seq<Step>)
    requires DistinctIds(e.nodes) && DepsExist(e.nodes) && Inv(e, s) && Routed(e, s)
    ensures Routed(e, Exec(e, s, steps))
    decreases steps
  {
    if steps != [] {
      var s1 := Apply(e, s, steps[0]);
      if IsQuiet(steps[0]) {
        QuietRoutes(e, s, steps[0]);
      } else {
        DispatcherRoutes(e, s, steps[0]);
      }
      RoutesKept(e, s, s1);
      StepKeepsInv(e, s, steps[0]);
      ExecRoutes(e, s1, steps[1..]);
    }
  }

  lemma {:induction false} ReachableRouted(e: Engine, s: Run)
    requires DistinctIds(e.nodes) && DepsExist(e.nodes) && Reachable(e, s)
    ensures Routed(e, s)
  {
    var project, priority, context, steps :| s == Exec(e, Init(project, priority, context), steps);
    InitInv(e, project, priority, context);
    ExecRoutes(e, Init(project, priority, context), steps);
  }

  /** Isolation: whenever a row of a workflow node is claimed, after any history, the claimer asked for the
      run's own project and for the queue the node declares, and the row names the model the node declares. */
  lemma {:induction false} ClaimsFollowTheNode(e: Engine, s: Run, step: Step, n: Node)
    requires DistinctIds(e.nodes) && DepsExist(e.nodes) && Reachable(e, s)
    requires n in e.nodes && step.Claim? && step.node == n.id && Claimable(s, n.id, step.queue, step.project)
    ensures step.project == s.project && (step.queue.Gpu? <==> n.gpu && !n.input)
    ensures s.rows[n.id].input == n.input && s.rows[n.id].model == (if n.gpu && !n.input then n.model else None)
  {
    ReachableRouted(e, s);
    assert FitsIts(e, s.project, n.id, s.rows[n.id]);
  }

  // ------------------------------------------------------------ stopped runs

  lemma {:induction false} StoppedStays(e: Engine, s: Run, step: Step)
    requires Stopped(s.status) && !step.RestartRun?
    ensures Stopped(Apply(e, s, step).status)
  {
    match step
    case Drain(i) => assert Stopped(DrainOne(e, s, i).status);
    case DrainRaises(i, partial) => assert Stopped(DrainOneRaises(e, s, i, partial).status);
    case ResumeAfterInput(node, delta) => assert Stopped(AcceptInput(e, s, node, delta).status);
    case _ =>
  }

  /** A failed or cancelled run hands out no job, ever, unless the host restarts it. */
  lemma {:induction false} StoppedRunsHandOutNothing(e: Engine, s: Run, steps: seq<Step>, id: JobId)
    requires Stopped(s.status) && forall i :: 0 <= i < |steps| ==> !steps[i].RestartRun?
    ensures Stopped(Exec(e, s, steps).status) && Claims(e, s, steps, id) == 0
    decreases steps
  {
    if steps != [] {
      StoppedStays(e, s, steps[0]);
      StoppedRunsHandOutNothing(e, Apply(e, s, steps[0]), steps[1..], id);
    }
  }

  /** Draining the failure of a workflow node stops the run: its queued siblings are cancelled, everything
      else is left as it was, and from then on nothing is handed out. */
  lemma {:induction false} FailureStopsTheRun(e: Engine, s: Run, i: nat, later: seq<Step>, id: JobId)
    requires Unprocessed(s, i) && s.events[i].kind.KindFailed? && !Stopped(s.status)
    requires !IsPatch(s.rows, s.events[i].job.node)
    requires forall j :: 0 <= j < |later| ==> !later[j].RestartRun?
    ensures var s' := Apply(e, s, Drain(i));
      && s'.status.RunFailed? && s'.rows.Keys == s.rows.Keys
      && (forall k :: k in s.rows ==>
            if s.rows[k].status.Queued? then s'.rows[k] == s.rows[k].(status := Cancelled) else s'.rows[k] == s.rows[k])
      && Claims(e, s', later, id) == 0
  {
    StoppedRunsHandOutNothing(e, Apply(e, s, Drain(i)), later, id);
  }
}
