/** The store of one run as the code updates it: columns changed in place by statements, transactions
    and dispatcher callbacks, each tied to its protocol step. */
module JobStore {
  import opened Options
  import opened Workflow
  import opened Expansion
  import opened Dispatcher
  import opened Protocol
  import opened ProtocolInvariant
  import opened Guarantees
  import opened CallbackContract

  /** `taken` are the running rows whose lease ended before `now`. They lose owner and lease; under a running run
      they are queued again, at priority 10 or better, and otherwise cancelled. Every other row stays. */
  ghost predicate Swept(t: Table, running: bool, now: int, taken: set<NodeId>, u: Table) {
    && u.Keys == t.Keys
    && (forall k :: k in taken <==>
          k in t && t[k].status == Running && t[k].lease.Some? && t[k].lease.value < now)
    && (forall k :: k in t && k !in taken ==> u[k] == t[k])
    && (forall k :: k in taken ==>
          u[k] == t[k].(status := if running then Queued else Cancelled, claimedBy := None, lease := None,
                        priority := if running && t[k].priority > 10 then 10 else t[k].priority))
  }

  class RunStore {
    const engine: Engine
    const project: string
    const context: Context
    var status: RunStatus
    var priority: int
    var rows: Table
    var events: seq<Event>
    var gen: nat
    var handed: set<JobId>
    var expanded: bool

    function Snapshot(): Run
      reads this
    {
      Run(status, project, priority, context, rows, events, gen, handed, expanded)
    }

    /** The protocol invariant, on a workflow with distinct node ids and existing dependencies. */
    ghost predicate Valid()
      reads this
    {
      DistinctIds(engine.nodes) && DepsExist(engine.nodes) && Inv(engine, Snapshot())
    }

    constructor (engine: Engine, project: string, priority: int, context: Context)
      ensures this.engine == engine
      ensures Snapshot() == Init(project, priority, context)
      ensures DistinctIds(engine.nodes) && DepsExist(engine.nodes) ==> Valid()
    {
      this.engine, this.project, this.context := engine, project, context;
      this.status, this.priority := RunQueued, priority;
      rows, events, gen, handed, expanded := map[], [], 0, {}, false;
      new;
      InitInv(engine, project, priority, context);
    }

    // ------------------------------------------------------ worker statements

    /** The claim of one selected row: queued to running, owner and lease stamped. */
    method Claim(node: NodeId, host: string, queue: Queue, project: string, lease: int)
      returns (claimed: Option<Row>)
      modifies this
      ensures Snapshot() == ClaimRow(old(Snapshot()), node, host, queue, project, lease)
      ensures claimed.Some? <==>
        && node in old(rows) && old(rows)[node].status == Queued
        && old(rows)[node].queue == queue && old(rows)[node].project == project
        && status != RunCancelled && status != RunFailed
      ensures claimed.Some? ==>
        && claimed.value == old(rows)[node].(status := Running, claimedBy := Some(host), lease := Some(lease))
        && rows == old(rows)[node := claimed.value] && handed == old(handed) + {claimed.value.id}
      ensures claimed.None? ==> rows == old(rows) && handed == old(handed)
      ensures status == old(status) && priority == old(priority) && events == old(events)
      ensures old(Valid()) ==> Valid()
    {
      StepKeepsValid(engine, Snapshot(), Step.Claim(node, host, queue, project, lease));
      claimed := None;
      if node in rows && rows[node].status.Queued? && rows[node].queue == queue && rows[node].project == project
         && !status.RunCancelled? && !status.RunFailed? {
        var row := rows[node].(status := Running, claimedBy := Some(host), lease := Some(lease));
        rows := rows[node := row];
        handed := handed + {row.id};
        claimed := Some(row);
      }
    }

    method RenewOnce(id: JobId, host: string, lease: int) returns (renewed: bool)
      modifies this`rows
      ensures Snapshot() == RenewLease(old(Snapshot()), id, host, lease)
      ensures renewed <==>
        && id.node in old(rows) && old(rows)[id.node].id == id
        && old(rows)[id.node].status == Running && old(rows)[id.node].claimedBy == Some(host)
      ensures renewed ==> rows == old(rows)[id.node := old(rows)[id.node].(lease := Some(lease))]
      ensures !renewed ==> Snapshot() == old(Snapshot())
      ensures old(Valid()) ==> Valid()
    {
      StepKeepsValid(engine, Snapshot(), Renew(id, host, lease));
      renewed := false;
      if id.node in rows && rows[id.node].id == id && rows[id.node].claimedBy == Some(host)
         && rows[id.node].status.Running? {
        rows := rows[id.node := rows[id.node].(lease := Some(lease))];
        renewed := true;
      }
    }

    /** The terminal half of the executor: the mark and its event in one transaction, or neither. */
    method FinishCompleted(id: JobId, delta: Delta) returns (finished: bool)
      requires id in handed
      modifies this`rows, this`events
      ensures Snapshot() == CompleteRow(old(Snapshot()), id, delta)
      ensures finished <==>
        && id.node in old(rows) && old(rows)[id.node].id == id
        && old(rows)[id.node].status !in {Completed, Failed, Cancelled}
      ensures finished ==>
        && rows == old(rows)[id.node := old(rows)[id.node].(status := Completed, delta := delta)]
        && events == old(events) + [Event(id, KindCompleted, false, 0)]
      ensures !finished ==> Snapshot() == old(Snapshot())
      ensures old(Valid()) ==> Valid()
    {
      StepKeepsValid(engine, Snapshot(), Complete(id, delta));
      ghost var s := Snapshot();
      finished := false;
      if id.node in rows && rows[id.node].id == id && !Terminal(rows[id.node].status) {
        rows := rows[id.node := rows[id.node].(status := Completed, delta := delta)];
        events := events + [Event(id, KindCompleted, false, 0)];
        finished := true;
      }
      assert Snapshot() == Apply(engine, s, Complete(id, delta));
    }

    method FinishFailed(id: JobId) returns (finished: bool)
      requires id in handed
      modifies this`rows, this`events
      ensures Snapshot() == FailRow(old(Snapshot()), id)
      ensures finished <==>
        && id.node in old(rows) && old(rows)[id.node].id == id
        && old(rows)[id.node].status !in {Completed, Failed, Cancelled}
      ensures finished ==>
        && rows == old(rows)[id.node := old(rows)[id.node].(status := Failed)]
        && events == old(events) + [Event(id, KindFailed, false, 0)]
      ensures !finished ==> Snapshot() == old(Snapshot())
      ensures old(Valid()) ==> Valid()
    {
      StepKeepsValid(engine, Snapshot(), Fail(id));
      ghost var s := Snapshot();
      finished := false;
      if id.node in rows && rows[id.node].id == id && !Terminal(rows[id.node].status) {
        rows := rows[id.node := rows[id.node].(status := Failed)];
        events := events + [Event(id, KindFailed, false, 0)];
        finished := true;
      }
      assert Snapshot() == Apply(engine, s, Fail(id));
    }

    method RequeueForRetry(id: JobId) returns (requeued: bool)
      modifies this`rows
      ensures Snapshot() == RequeueRow(old(Snapshot()), id)
      ensures requeued <==>
        id.node in old(rows) && old(rows)[id.node].id == id && old(rows)[id.node].status == Running
      ensures requeued ==>
        var row := old(rows)[id.node];
        rows == old(rows)[id.node := row.(status := Queued, claimedBy := None, lease := None,
                                          priority := if row.priority <= 10 then row.priority else 10,
                                          retries := row.retries + 1)]
      ensures !requeued ==> Snapshot() == old(Snapshot())
      ensures old(Valid()) ==> Valid()
    {
      StepKeepsValid(engine, Snapshot(), Step.RequeueForRetry(id));
      ghost var s := Snapshot();
      requeued := false;
      if id.node in rows && rows[id.node].id == id && rows[id.node].status.Running? {
        var row := rows[id.node];
        rows := rows[id.node := row.(status := Queued, claimedBy := None, lease := None,
                                     priority := Front(row.priority), retries := row.retries + 1)];
        requeued := true;
      }
      assert Snapshot() == Apply(engine, s, Step.RequeueForRetry(id));
    }

    /** One statement over every lapsed row; the branch reads the parent run's status. It returns the nodes of
        the rows it took. */
    method ReclaimExpiredLeases(now: int) returns (taken: set<NodeId>)
      modifies this`rows
      ensures Snapshot() == ReclaimExpiredRows(old(Snapshot()), now)
      ensures Swept(old(rows), status == RunRunning, now, taken, rows)
      ensures old(Valid()) ==> Valid()
    {
      StepKeepsValid(engine, Snapshot(), ReclaimExpired(now));
      SweepMeans(Snapshot(), now);
      taken := Lapsed(Snapshot(), now);
      ghost var s := Snapshot();
      rows := map k | k in rows :: if k in taken then Reclaimed(rows[k], status) else rows[k];
      assert rows == ReclaimExpiredRows(s, now).rows && taken == Lapsed(s, now);
      assert Snapshot() == Apply(engine, s, ReclaimExpired(now));
    }

    // ----------------------------------------------------- dispatcher callbacks

    method FanOutNow() returns (newRows: nat)
      requires DistinctIds(engine.nodes)
      modifies this`rows, this`gen
      ensures Snapshot() == FanOut(engine, old(Snapshot()))
      ensures newRows == |rows| - |old(rows)|
    {
      ghost var s := Snapshot();
      var fanned, n := ProcessReady(ScopeOf(engine, Snapshot()), rows);
      FanOutIs(engine, s, fanned);
      rows, gen, newRows := fanned, gen + 1, n;
    }

    /** One queued run in the dispatch tick. */
    method Start() returns (newRows: nat)
      requires DistinctIds(engine.nodes) && status.RunQueued?
      modifies this
      ensures Snapshot() == StartRun(engine, old(Snapshot())) && Tick(engine, old(Snapshot()), Snapshot())
      ensures newRows == |rows| - |old(rows)|
      ensures old(Valid()) ==> Valid()
    {
      StepKeepsValid(engine, Snapshot(), ExpandRun);
      TickKept(engine, Snapshot());
      if !GpuModelsDeclared(engine) {
        status := RunFailed;
        return 0;
      }
      newRows := FanOutNow();
      expanded := true;
      if newRows > 0 {
        status := RunRunning;
      }
    }

    method NodeCompleted(node: NodeId) returns (newRows: nat)
      requires DistinctIds(engine.nodes)
      modifies this
      ensures Snapshot() == OnNodeCompleted(engine, old(Snapshot()), node)
      ensures Completion(engine, old(Snapshot()), node, Snapshot())
      ensures newRows == |rows| - |old(rows)|
    {
      CompletionKept(engine, Snapshot(), node);
      if Stopped(status) || IsPatch(rows, node) {
        return 0;
      }
      newRows := FanOutNow();
      expanded := true;
      if AllDone(engine.nodes, rows) {
        status := RunCompleted;
      }
    }

    method NodeFailed(node: NodeId)
      modifies this`rows, this`status
      ensures Snapshot() == OnNodeFailed(old(Snapshot()), node) && Failure(old(Snapshot()), node, Snapshot())
      ensures old(Stopped(status)) || !old(IsPatch(rows, node)) ==>
        forall n, queue, project :: !Claimable(Snapshot(), n, queue, project)
    {
      FailureKept(Snapshot(), node);
      if Stopped(status) || IsPatch(rows, node) {
        return;
      }
      rows := CancelQueued(rows);
      status := RunFailed;
    }

    /** Drain one unprocessed event whose callback returns. */
    method DrainEvent(i: nat)
      requires DistinctIds(engine.nodes) && i < |events| && !events[i].processed
      modifies this
      ensures Snapshot() == DrainOne(engine, old(Snapshot()), i) && Drained(engine, old(Snapshot()), i, Snapshot())
      ensures old(Valid()) ==> Valid()
    {
      StepKeepsValid(engine, Snapshot(), Drain(i));
      DrainKept(engine, Snapshot(), i);
      match events[i].kind {
        case KindCompleted =>
          var _ := NodeCompleted(events[i].job.node);
        case KindFailed =>
          NodeFailed(events[i].job.node);
        case KindAwaiting =>
      }
      events := events[i := events[i].(processed := true)];
    }

    /** One stuck run in the sweep: on a well-formed workflow it is never given up. */
    method ReconcileStuck() returns (action: Action)
      requires DistinctIds(engine.nodes)
      modifies this
      ensures (Snapshot(), action) == Reconcile(engine, old(Snapshot()))
      ensures Reconciled(engine, old(Snapshot()), Snapshot(), action)
      ensures WellFormed(engine.nodes) ==> !action.FlippedFailed?
      ensures old(Valid()) ==> Valid()
    {
      ghost var s := Snapshot();
      action := ReconcileOnce();
      ReconcileKept(engine, s);
      ReconcileValid(engine, s, Snapshot(), action);
    }

    method ReconcileOnce() returns (action: Action)
      requires DistinctIds(engine.nodes)
      modifies this
      ensures (Snapshot(), action) == Reconcile(engine, old(Snapshot()))
    {
      if !(status.RunQueued? || status.RunRunning?) || AnyLive(rows) {
        return Noop;
      }
      if AllDone(engine.nodes, rows) {
        status := RunCompleted;
        return FlippedCompleted;
      }
      var enqueued := FanOutNow();
      expanded := true;
      if enqueued > 0 {
        status := RunRunning;
        return Enqueued;
      }
      var dropped := |rows| - |KeepDone(rows)|;
      rows := KeepDone(rows);
      if dropped > 0 {
        var requeued := FanOutNow();
        if requeued > 0 {
          status := RunRunning;
          return Requeued;
        }
      }
      status := RunFailed;
      return FlippedFailed;
    }

    /** Three sweeps of the stuck-run reconciler in a row finish an active run or put live work behind it. */
    method SweepStuckThrice()
      requires WellFormed(engine.nodes) && (status.RunQueued? || status.RunRunning?)
      modifies this
      ensures Settled(Snapshot())
      ensures old(Valid()) ==> Valid()
    {
      ReconcileConverges(engine, Snapshot());
      ThreeCalls(engine, Snapshot());
      var _ := ReconcileStuck();
      var _ := ReconcileStuck();
      var _ := ReconcileStuck();
    }

    /** Drain the outbox, oldest event first. When every callback returns, no event is left, and an expanded,
        active run without dead rows has live work or is finished. */
    method DrainAll()
      requires Valid()
      modifies this
      ensures Valid()
      ensures forall i :: 0 <= i < |events| ==> events[i].processed
      ensures |events| == |old(events)|
      ensures WellFormed(engine.nodes) && expanded && !Stopped(status)
        && (forall k :: k in rows ==> !rows[k].status.Failed? && !rows[k].status.Cancelled?)
        ==> AnyLive(rows) || AllDone(engine.nodes, rows)
    {
      var i := 0;
      while i < |events|
        invariant Valid() && i <= |events| == |old(events)|
        invariant forall j :: 0 <= j < i ==> events[j].processed
        decreases |events| - i
      {
        if !events[i].processed {
          ghost var before := events;
          DrainEvent(i);
          assert forall j :: 0 <= j < i ==> events[j] == before[j];
        }
        i := i + 1;
      }
      DrainedMeansLiveOrDone(engine, Snapshot());
    }
  }

  lemma {:induction false} ReconcileValid(e: Engine, s: Run, s': Run, action: Action)
    requires DistinctIds(e.nodes) && (s', action) == Reconcile(e, s)
    ensures WellFormed(e.nodes) ==> !action.FlippedFailed?
    ensures DepsExist(e.nodes) && Inv(e, s) ==> Inv(e, s')
  {
    StepKeepsValid(e, s, ReconcileRun);
    assert Apply(e, s, ReconcileRun) == s';
    if WellFormed(e.nodes) {
      ReconcileNeverFails(e, s);
    }
  }

  lemma {:induction false} FanOutIs(e: Engine, s: Run, fanned: Table)
    requires fanned == Expand(ScopeOf(e, s), s.rows)
    ensures s.(rows := fanned, gen := s.gen + 1) == FanOut(e, s)
  {
  }

  lemma {:induction false} StepKeepsValid(e: Engine, s: Run, step: Step)
    ensures DistinctIds(e.nodes) && DepsExist(e.nodes) && Inv(e, s) ==> Inv(e, Apply(e, s, step))
  {
    if DistinctIds(e.nodes) && DepsExist(e.nodes) && Inv(e, s) {
      StepKeepsInv(e, s, step);
    }
  }

  function Lapsed(s: Run, now: int): set<NodeId> {
    set k | k in s.rows && Expired(s.rows[k], now)
  }

  lemma {:induction false} SweepMeans(s: Run, now: int)
    ensures Swept(s.rows, s.status == RunRunning, now, Lapsed(s, now), ReclaimExpiredRows(s, now).rows)
  {
  }

  lemma {:induction false} ThreeCalls(e: Engine, s: Run)
    ensures ReconcileTimes(e, s, 3) == Reconcile(e, Reconcile(e, Reconcile(e, s).0).0).0
  {
    var s1 := Reconcile(e, s).0;
    assert ReconcileTimes(e, s, 3) == ReconcileTimes(e, s1, 2);
    assert ReconcileTimes(e, s1, 2) == ReconcileTimes(e, Reconcile(e, s1).0, 1);
  }

  lemma {:induction false} DrainedMeansLiveOrDone(e: Engine, s: Run)
    requires Inv(e, s) && forall i :: 0 <= i < |s.events| ==> s.events[i].processed
    ensures WellFormed(e.nodes) && s.expanded && !Stopped(s.status)
      && (forall k :: k in s.rows ==> !s.rows[k].status.Failed? && !s.rows[k].status.Cancelled?)
      ==> AnyLive(s.rows) || AllDone(e.nodes, s.rows)
  {
    if WellFormed(e.nodes) && s.expanded && !Stopped(s.status)
       && (forall k :: k in s.rows ==> !s.rows[k].status.Failed? && !s.rows[k].status.Cancelled?) {
      NoDeadlock(e, s);
    }
  }
}
