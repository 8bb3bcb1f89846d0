/** Every step of the protocol keeps its invariant and moves rows only forward. */
module ProtocolInvariant {
  import opened Options
  import opened Workflow
  import opened Expansion
  import opened Dispatcher
  import opened Protocol

  lemma {:induction false} AdvanceTransitive(a: Run, b: Run, c: Run)
    requires FreshIds(a) && Advance(a, b) && Advance(b, c)
    ensures Advance(a, c)
  {
    forall k | k in a.rows
      ensures RowAdvances(a, c, k)
    {
      assert RowAdvances(a, b, k);
      if k in b.rows {
        assert RowAdvances(b, c, k);
      }
      if k in c.rows && c.rows[k].id == a.rows[k].id {
        assert Holds(b, c.rows[k].id);
      }
    }
    forall k | k in c.rows && c.rows[k].id.gen < a.gen
      ensures Holds(a, c.rows[k].id)
    {
      assert Holds(b, c.rows[k].id);
    }
  }

  lemma {:induction false} AdvanceKeepsAllDone(e: Engine, s: Run, s': Run)
    requires Advance(s, s') && AllDone(e.nodes, s.rows)
    ensures AllDone(e.nodes, s'.rows)
  {
    forall n | n in e.nodes
      ensures Satisfied(s'.rows, n.id)
    {
      assert Satisfied(s.rows, n.id);
      assert RowAdvances(s, s', n.id);
    }
  }

  // ------------------------------------------------------------ quiet steps

  /** A step that only moves live rows between unfinished statuses. */
  ghost predicate Quiet(s: Run, s': Run) {
    && s'.rows.Keys == s.rows.Keys
    && (forall k :: k in s.rows ==>
          (|| s'.rows[k] == s.rows[k]
           || (Live(s.rows[k].status) && SameIdentity(s.rows[k], s'.rows[k]) && !Done(s'.rows[k].status))))
    && s'.events == s.events && s'.gen == s.gen && s'.project == s.project && s'.expanded == s.expanded
    && s.handed <= s'.handed
    && (forall id :: id in s'.handed && id !in s.handed ==> Holds(s', id) && Live(s'.rows[id.node].status))
    && (s'.status == s.status || Stopped(s'.status) || (s.status.RunRunning? && s'.status.RunQueued?))
  }

  lemma {:induction false} QuietAdvances(s: Run, s': Run)
    requires FreshIds(s) && Quiet(s, s')
    ensures FreshIds(s') && Advance(s, s')
  {
    forall k | k in s'.rows && s'.rows[k].id.gen < s.gen
      ensures Holds(s, s'.rows[k].id)
    {
      assert k in s.rows;
    }
  }

  lemma {:induction false} QuietKeepsCore(e: Engine, s: Run, s': Run)
    requires Core(e, s) && Quiet(s, s')
    ensures Core(e, s') && Advance(s, s')
  {
    QuietAdvances(s, s');
    assert forall d :: Satisfied(s.rows, d) ==> Satisfied(s'.rows, d);
    forall n, d | n in e.nodes && n.id in s'.rows && d in n.deps
      ensures Satisfied(s'.rows, d)
    {
      assert Satisfied(s.rows, d);
    }
    forall i | 0 <= i < |s.events| && s.events[i].kind.KindCompleted?
      ensures Holds(s', s'.events[i].job) && s'.rows[s'.events[i].job.node].status.Completed?
    {
      assert Holds(s, s.events[i].job);
    }
    forall i | 0 <= i < |s.events| && s.events[i].kind.KindFailed? && Holds(s', s.events[i].job)
      ensures s'.rows[s'.events[i].job.node].status.Failed?
    {
      assert Holds(s, s.events[i].job);
    }
  }

  /** Readiness needs finished rows, and a table with no newly finished rows readies nothing. */
  lemma {:induction false} NothingNewlyReady(nodes: seq<Node>, t: Table, t': Table)
    requires Closed(nodes, t) && DepsExist(nodes)
    requires t.Keys <= t'.Keys
    requires forall k :: k in t' && Done(t'[k].status) && HasId(nodes, k) ==> k in t && Done(t[k].status)
    ensures Closed(nodes, t')
  {
    forall n | n in nodes
      ensures !Ready(t', n)
    {
      if Ready(t', n) {
        forall d | d in n.deps
          ensures Satisfied(t, d)
        {
          assert HasId(nodes, d);
          assert Satisfied(t', d);
        }
        assert Ready(t, n);
      }
    }
  }

  lemma {:induction false} QuietKeepsInv(e: Engine, s: Run, s': Run)
    requires DepsExist(e.nodes) && Inv(e, s) && Quiet(s, s')
    ensures Inv(e, s') && Advance(s, s')
  {
    QuietKeepsCore(e, s, s');
    if s'.expanded && !Stopped(s'.status) && !Pending(e, s') {
      assert !Pending(e, s);
      NothingNewlyReady(e.nodes, s.rows, s'.rows);
    }
    if s'.status.RunCompleted? {
      AdvanceKeepsAllDone(e, s, s');
    }
  }

  predicate IsQuiet(step: Step) {
    step.Claim? || step.Renew? || step.RequeueForRetry? || step.ReclaimExpired? || step.ReclaimForResume?
    || step.RequeueForWorker? || step.ResumeRun? || step.CancelOrphans? || step.CancelRun?
  }

  /** Replacing one live row by an unfinished row of the same identity is quiet. */
  lemma {:induction false} QuietUpdate(s: Run, node: NodeId, row: Row)
    requires node in s.rows && Live(s.rows[node].status)
    requires SameIdentity(s.rows[node], row) && !Done(row.status)
    ensures Quiet(s, s.(rows := s.rows[node := row]))
  {
  }

  lemma {:induction false} QuietClaim(s: Run, node: NodeId, host: string, queue: Queue, project: string, lease: int)
    requires FreshIds(s)
    ensures Quiet(s, ClaimRow(s, node, host, queue, project, lease))
  {
    if Claimable(s, node, queue, project) {
      QuietUpdate(s, node, s.rows[node].(status := Running, claimedBy := Some(host), lease := Some(lease)));
    }
  }

  /** A sweep rewrites live rows to unfinished rows of the same identity, all at once. */
  lemma {:induction false} QuietSweep(s: Run, rows: Table)
    requires rows.Keys == s.rows.Keys
    requires forall k :: k in s.rows ==>
      rows[k] == s.rows[k] || (Live(s.rows[k].status) && SameIdentity(s.rows[k], rows[k]) && !Done(rows[k].status))
    ensures Quiet(s, s.(rows := rows))
  {
  }

  lemma {:induction false} QuietRenew(s: Run, id: JobId, host: string, lease: int)
    ensures Quiet(s, RenewLease(s, id, host, lease))
  {
    var s' := RenewLease(s, id, host, lease);
    if s' != s {
      QuietUpdate(s, id.node, s'.rows[id.node]);
    }
  }

  lemma {:induction false} QuietRequeue(s: Run, id: JobId)
    ensures Quiet(s, RequeueRow(s, id))
  {
    var s' := RequeueRow(s, id);
    if s' != s {
      QuietUpdate(s, id.node, s'.rows[id.node]);
    }
  }

  lemma {:induction false} QuietReclaims(s: Run, now: int, project: string, beating: set<(string, Queue)>)
    ensures Quiet(s, ReclaimExpiredRows(s, now))
    ensures Quiet(s, ReclaimOrphanedRows(s, project, beating))
  {
    QuietSweep(s, ReclaimExpiredRows(s, now).rows);
    QuietSweep(s, ReclaimOrphanedRows(s, project, beating).rows);
  }

  lemma {:induction false} QuietWorkerRequeue(s: Run, host: string, queue: Queue, project: string)
    ensures Quiet(s, RequeueWorkerRows(s, host, queue, project))
  {
    QuietSweep(s, RequeueWorkerRows(s, host, queue, project).rows);
  }

  lemma {:induction false} QuietStatus(s: Run, project: string)
    ensures Quiet(s, ResumeStatus(s, project)) && Quiet(s, CancelStatus(s))
  {
  }

  lemma {:induction false} QuietOrphans(s: Run, project: string)
    ensures Quiet(s, CancelOrphanRows(s, project))
  {
    QuietSweep(s, CancelOrphanRows(s, project).rows);
  }

  lemma {:induction false} QuietStep(e: Engine, s: Run, step: Step)
    requires FreshIds(s) && IsQuiet(step)
    ensures Quiet(s, Apply(e, s, step))
  {
    match step
    case Claim(node, host, queue, project, lease) => QuietClaim(s, node, host, queue, project, lease);
    case Renew(id, host, lease) => QuietRenew(s, id, host, lease);
    case RequeueForRetry(id) => QuietRequeue(s, id);
    case ReclaimExpired(now) => QuietReclaims(s, now, "", {});
    case ReclaimForResume(project, beating) => QuietReclaims(s, 0, project, beating);
    case RequeueForWorker(host, queue, project) => QuietWorkerRequeue(s, host, queue, project);
    case CancelOrphans(project) => QuietOrphans(s, project);
    case ResumeRun(project) => QuietStatus(s, project);
    case CancelRun => QuietStatus(s, "");
  }

  // ----------------------------------------------------------------- fan-out

  /** Adding rows of the current generation, with their dependencies finished, keeps the core. */
  lemma {:induction false} GrowKeepsCore(e: Engine, s: Run, s': Run)
    requires Core(e, s) && DepsDone(e.nodes, s'.rows)
    requires s'.gen == s.gen + 1 && s'.events == s.events && s'.handed == s.handed && s'.project == s.project
    requires forall k :: k in s.rows ==> k in s'.rows && s'.rows[k] == s.rows[k]
    requires forall k :: k in s'.rows && k !in s.rows ==>
      s'.rows[k].id == JobId(k, s.gen) && (s'.rows[k].patch <==> !HasId(e.nodes, k))
    ensures Core(e, s') && Advance(s, s')
  {
    assert forall k :: k in s.rows ==> RowAdvances(s, s', k);
    forall i | 0 <= i < |s.events| && Holds(s', s.events[i].job)
      ensures Holds(s, s.events[i].job)
    {
    }
  }

  /** Inserting a legal batch keeps the core. */
  lemma {:induction false} BatchKeepsCore(e: Engine, s: Run, order: seq<Node>)
    requires DistinctIds(e.nodes) && Core(e, s)
    requires Legal(ScopeOf(e, s), s.rows, order)
    ensures var s' := s.(rows := InsertAll(ScopeOf(e, s), s.rows, order), gen := s.gen + 1);
      Core(e, s') && Advance(s, s')
  {
    var x := ScopeOf(e, s);
    var t := InsertAll(x, s.rows, order);
    LegalExtends(x, s.rows, order);
    LegalKeepsDepsDone(x, s.rows, order);
    forall k | k in t && k !in s.rows
      ensures t[k].id == JobId(k, s.gen) && !t[k].patch && HasId(e.nodes, k)
    {
      var n :| n in e.nodes && n.id == k;
      assert t[k] == NewRow(x, n, s.rows);
    }
    GrowKeepsCore(e, s, s.(rows := t, gen := s.gen + 1));
  }

  lemma {:induction false} FanOutKeepsCore(e: Engine, s: Run)
    requires DistinctIds(e.nodes) && Core(e, s)
    ensures Core(e, FanOut(e, s)) && Advance(s, FanOut(e, s)) && Closed(e.nodes, FanOut(e, s).rows)
  {
    var order := ExpandOrder(ScopeOf(e, s), s.rows);
    BatchKeepsCore(e, s, order);
    assert FanOut(e, s) == s.(rows := InsertAll(ScopeOf(e, s), s.rows, order), gen := s.gen + 1);
  }

  /** Only columns outside the core changed. */
  lemma {:induction false} CoreIgnoresStatus(e: Engine, s: Run, st: RunStatus, expanded: bool)
    requires Core(e, s)
    ensures Core(e, s.(status := st, expanded := expanded)) && Advance(s, s.(status := st, expanded := expanded))
  {
    assert forall k :: k in s.rows ==> RowAdvances(s, s.(status := st, expanded := expanded), k);
  }

  lemma {:induction false} CompletedCallback(e: Engine, s: Run, node: NodeId)
    requires DistinctIds(e.nodes) && Core(e, s)
    requires s.status.RunCompleted? ==> AllDone(e.nodes, s.rows)
    ensures var s' := OnNodeCompleted(e, s, node);
      && Core(e, s') && Advance(s, s') && s'.events == s.events
      && (Stopped(s.status) || IsPatch(s.rows, node) ==> s' == s)
      && (!Stopped(s.status) && !IsPatch(s.rows, node) ==> Closed(e.nodes, s'.rows) && StatusHonest(e, s'))
  {
    if !Stopped(s.status) && !IsPatch(s.rows, node) {
      FanOutKeepsCore(e, s);
      var f := FanOut(e, s);
      var s' := OnNodeCompleted(e, s, node);
      CoreIgnoresStatus(e, f, s'.status, true);
      AdvanceTransitive(s, f, s');
      if s.status.RunCompleted? {
        AdvanceKeepsAllDone(e, s, f);
      }
    }
  }

  // ------------------------------------------------------------------ outbox

  /** Two outboxes that announce the same things. */
  ghost predicate SameNews(s: Run, s': Run) {
    && |s'.events| == |s.events|
    && forall j :: 0 <= j < |s.events| ==> s'.events[j].job == s.events[j].job && s'.events[j].kind == s.events[j].kind
  }

  lemma {:induction false} SameNewsMatches(s: Run, s': Run)
    requires OutboxMatches(s) && s'.rows == s.rows && SameNews(s, s')
    ensures OutboxMatches(s')
  {
    forall j | 0 <= j < |s'.events| && !s'.events[j].kind.KindAwaiting?
      ensures Holds(s', s'.events[j].job) ==> Holds(s, s.events[j].job)
      ensures s'.events[j].kind.KindCompleted? ==>
        Holds(s', s'.events[j].job) && s'.rows[s'.events[j].job.node].status.Completed?
    {
      assert s'.events[j].kind == s.events[j].kind;
    }
    forall i, j | 0 <= i < j < |s'.events| && TerminalEvent(s'.events[i], s'.events[j].job)
      ensures s'.events[j].kind.KindAwaiting?
    {
      assert TerminalEvent(s.events[i], s.events[j].job);
    }
  }

  lemma {:induction false} SameNewsKeepsCore(e: Engine, s: Run, s': Run)
    requires Core(e, s) && SameNews(s, s')
    requires s' == s.(events := s'.events)
    ensures Core(e, s') && Advance(s, s')
  {
    SameNewsMatches(s, s');
    assert forall k :: k in s.rows ==> RowAdvances(s, s', k);
  }

  /** Rewriting an event's bookkeeping is safe if a completion is only dropped once nothing is ready. */
  lemma {:induction false} FlagEvent(e: Engine, s: Run, s': Run, i: nat, ev: Event)
    requires Core(e, s) && StatusHonest(e, s) && i < |s.events|
    requires ev.job == s.events[i].job && ev.kind == s.events[i].kind
    requires s' == s.(events := s.events[i := ev])
    requires ev.processed && !s.events[i].processed && ev.kind.KindCompleted? && HasId(e.nodes, ev.job.node) ==>
               Stopped(s.status) || Closed(e.nodes, s.rows)
    requires FannedOut(e, s) || Closed(e.nodes, s.rows)
    ensures Inv(e, s') && Advance(s, s')
  {
    SameNewsKeepsCore(e, s, s');
    FlagKeepsFannedOut(e, s, s', i, ev);
  }

  lemma {:induction false} FlagKeepsFannedOut(e: Engine, s: Run, s': Run, i: nat, ev: Event)
    requires i < |s.events| && ev.job == s.events[i].job && ev.kind == s.events[i].kind
    requires s' == s.(events := s.events[i := ev])
    requires ev.processed && !s.events[i].processed && ev.kind.KindCompleted? && HasId(e.nodes, ev.job.node) ==>
               Stopped(s.status) || Closed(e.nodes, s.rows)
    requires FannedOut(e, s) || Closed(e.nodes, s.rows)
    ensures FannedOut(e, s')
  {
    if !Stopped(s.status) && s.expanded && !Closed(e.nodes, s.rows) {
      assert Pending(e, s);
      var j :| 0 <= j < |s.events| && !s.events[j].processed && s.events[j].kind.KindCompleted?
        && HasId(e.nodes, s.events[j].job.node);
      assert !s'.events[j].processed && HasId(e.nodes, s'.events[j].job.node);
      assert Pending(e, s');
    }
  }

  /** The row write that goes with a terminal or parking event. */
  ghost predicate Marks(s: Run, id: JobId, row: Row, kind: Kind) {
    && Markable(s, id) && !s.rows[id.node].status.Skipped?
    && SameIdentity(s.rows[id.node], row)
    && match kind
       case KindCompleted => row.status.Completed?
       case KindFailed => row.status.Failed?
       case KindAwaiting => row.status.AwaitingInput?
  }

  lemma {:induction false} EmitAdvances(e: Engine, s: Run, id: JobId, row: Row, kind: Kind)
    requires FreshIds(s) && PatchOutside(e, s) && SkippedUntouched(s) && DepsDone(e.nodes, s.rows)
    requires Marks(s, id, row, kind)
    ensures var s' := Emit(WithRow(s, id, row), id, kind);
      Advance(s, s') && FreshIds(s') && PatchOutside(e, s') && SkippedUntouched(s') && DepsDone(e.nodes, s'.rows)
  {
    var s' := Emit(WithRow(s, id, row), id, kind);
    assert forall k :: k in s.rows ==> RowAdvances(s, s', k);
    MarkKeepsDepsDone(e.nodes, s.rows, id.node, row);
  }

  lemma {:induction false} MarkKeepsDepsDone(nodes: seq<Node>, t: Table, k: NodeId, row: Row)
    requires DepsDone(nodes, t) && k in t && (Done(t[k].status) ==> Done(row.status))
    ensures DepsDone(nodes, t[k := row])
  {
    forall n, d | n in nodes && n.id in t[k := row] && d in n.deps
      ensures Satisfied(t[k := row], d)
    {
      assert Satisfied(t, d);
    }
  }

  /** A row that can still be marked has no terminal event yet. */
  lemma {:induction false} NoEventYet(s: Run, id: JobId)
    requires OutboxMatches(s) && Markable(s, id)
    ensures forall i :: 0 <= i < |s.events| ==> !TerminalEvent(s.events[i], id)
  {
    forall i | 0 <= i < |s.events|
      ensures !TerminalEvent(s.events[i], id)
    {
      if s.events[i].job == id {
        assert Holds(s, s.events[i].job);
      }
    }
  }

  lemma {:induction false} EmitKeepsOutbox(s: Run, id: JobId, row: Row, kind: Kind)
    requires FreshIds(s) && OutboxMatches(s) && Marks(s, id, row, kind)
    ensures OutboxMatches(Emit(WithRow(s, id, row), id, kind))
  {
    var s' := Emit(WithRow(s, id, row), id, kind);
    NoEventYet(s, id);
    forall i | 0 <= i < |s.events| && s.events[i].kind.KindCompleted?
      ensures Holds(s', s.events[i].job) && s'.rows[s.events[i].job.node].status.Completed?
    {
      assert Holds(s, s.events[i].job) && s.events[i].job.node != id.node;
    }
    forall i | 0 <= i < |s.events| && s.events[i].kind.KindFailed? && Holds(s', s.events[i].job)
      ensures s'.rows[s.events[i].job.node].status.Failed?
    {
      assert s.events[i].job.node != id.node;
      assert Holds(s, s.events[i].job);
    }
  }

  /** An event without a row write: only a late park does this. */
  lemma {:induction false} BareEventKeepsCore(e: Engine, s: Run, id: JobId)
    requires Core(e, s) && id in s.handed
    ensures Core(e, Emit(s, id, KindAwaiting)) && Advance(s, Emit(s, id, KindAwaiting))
  {
    var s' := Emit(s, id, KindAwaiting);
    assert forall k :: k in s.rows ==> RowAdvances(s, s', k);
    forall i | 0 <= i < |s'.events| && s'.events[i].kind.KindCompleted?
      ensures Holds(s', s'.events[i].job) && s'.rows[s'.events[i].job.node].status.Completed?
    {
      assert Holds(s, s.events[i].job);
    }
  }

  /** What a mark does, as one of three shapes. */
  lemma {:induction false} MarkShape(e: Engine, s: Run, step: Step) returns (row: Row, kind: Kind)
    requires SkippedUntouched(s)
    requires step.Complete? || step.Fail? || step.Park?
    ensures var s' := Apply(e, s, step);
      || s' == s
      || (step.Park? && step.id in s.handed && s' == Emit(s, step.id, KindAwaiting))
      || (Marks(s, step.id, row, kind) && s' == Emit(WithRow(s, step.id, row), step.id, kind))
  {
    kind := if step.Complete? then KindCompleted else if step.Fail? then KindFailed else KindAwaiting;
    row := Row(step.id, Queued, Cpu, None, "", 0, None, None, 0, map[], false, false);
    if Markable(s, step.id) {
      row := s.rows[step.id.node];
      row := match step
        case Complete(_, delta) => row.(status := Completed, delta := delta)
        case Fail(_) => row.(status := Failed)
        case _ => row.(status := AwaitingInput);
    }
  }

  lemma {:induction false} MarkKeepsCore(e: Engine, s: Run, step: Step)
    requires Core(e, s)
    requires step.Complete? || step.Fail? || step.Park?
    ensures Core(e, Apply(e, s, step)) && Advance(s, Apply(e, s, step))
  {
    var row, kind := MarkShape(e, s, step);
    var s' := Apply(e, s, step);
    if s' == s {
      assert forall k :: k in s.rows ==> RowAdvances(s, s', k);
    } else if step.Park? && step.id in s.handed && s' == Emit(s, step.id, KindAwaiting) {
      BareEventKeepsCore(e, s, step.id);
    } else {
      EmitAdvances(e, s, step.id, row, kind);
      EmitKeepsOutbox(s, step.id, row, kind);
    }
  }

  lemma {:induction false} EmitLeavesPending(e: Engine, s: Run, s': Run, ev: Event)
    requires s'.events == s.events + [ev]
    ensures Pending(e, s) ==> Pending(e, s')
    ensures !ev.processed && ev.kind.KindCompleted? && HasId(e.nodes, ev.job.node) ==> Pending(e, s')
  {
    var last := |s.events|;
    assert s'.events[last] == ev;
    if Pending(e, s) {
      var i :| 0 <= i < |s.events| && !s.events[i].processed && s.events[i].kind.KindCompleted?
        && HasId(e.nodes, s.events[i].job.node);
      assert s'.events[i] == s.events[i];
    }
  }

  /** A freshly marked row readies nothing without leaving its completion pending. */
  lemma {:induction false} EmitKeepsFannedOut(e: Engine, s: Run, id: JobId, row: Row, kind: Kind)
    requires DepsExist(e.nodes) && FannedOut(e, s) && Marks(s, id, row, kind)
    ensures FannedOut(e, Emit(WithRow(s, id, row), id, kind))
  {
    var s' := Emit(WithRow(s, id, row), id, kind);
    EmitLeavesPending(e, s, s', Event(id, kind, false, 0));
    if s'.expanded && !Stopped(s'.status) && !Pending(e, s') {
      NothingNewlyReady(e.nodes, s.rows, s'.rows);
    }
  }

  lemma {:induction false} MarkKeepsFannedOut(e: Engine, s: Run, step: Step)
    requires DepsExist(e.nodes) && SkippedUntouched(s) && FannedOut(e, s)
    requires step.Complete? || step.Fail? || step.Park?
    ensures FannedOut(e, Apply(e, s, step))
  {
    var row, kind := MarkShape(e, s, step);
    var s' := Apply(e, s, step);
    if s' == Emit(s, step.id, KindAwaiting) {
      EmitLeavesPending(e, s, s', Event(step.id, KindAwaiting, false, 0));
    } else if s' != s {
      EmitKeepsFannedOut(e, s, step.id, row, kind);
    }
  }

  lemma {:induction false} MarkKeepsInv(e: Engine, s: Run, step: Step)
    requires DepsExist(e.nodes) && Inv(e, s)
    requires step.Complete? || step.Fail? || step.Park?
    ensures Inv(e, Apply(e, s, step)) && Advance(s, Apply(e, s, step))
  {
    var s' := Apply(e, s, step);
    MarkKeepsCore(e, s, step);
    MarkKeepsFannedOut(e, s, step);
    if s.status.RunCompleted? {
      AdvanceKeepsAllDone(e, s, s');
    }
  }

  // ------------------------------------------------------- dispatcher steps

  lemma {:induction false} ExpandRunKeepsInv(e: Engine, s: Run)
    requires DistinctIds(e.nodes) && Inv(e, s)
    ensures Inv(e, StartRun(e, s)) && Advance(s, StartRun(e, s))
  {
    var s' := StartRun(e, s);
    if s.status.RunQueued? && GpuModelsDeclared(e) {
      FanOutKeepsCore(e, s);
      CoreIgnoresStatus(e, FanOut(e, s), s'.status, true);
      AdvanceTransitive(s, FanOut(e, s), s');
    } else {
      CoreIgnoresStatus(e, s, s'.status, s.expanded);
    }
  }

  /** From a closed table no insertion is legal. */
  lemma {:induction false} PartialOfClosed(e: Engine, s: Run, partial: seq<Node>)
    requires Closed(e.nodes, s.rows)
    ensures PartialFanOut(e, s, partial).rows == s.rows
  {
  }

  lemma {:induction false} PartialKeepsInv(e: Engine, s: Run, partial: seq<Node>)
    requires DistinctIds(e.nodes) && Inv(e, s)
    ensures var s' := PartialFanOut(e, s, partial);
      Inv(e, s') && Advance(s, s') && s'.events == s.events && s'.status == s.status
  {
    var s' := PartialFanOut(e, s, partial);
    if Legal(ScopeOf(e, s), s.rows, partial) {
      BatchKeepsCore(e, s, partial);
    } else {
      CoreIgnoresStatus(e, s, s.status, s.expanded);
    }
    if s'.expanded && !Stopped(s'.status) && !Pending(e, s') {
      assert !Pending(e, s);
      PartialOfClosed(e, s, partial);
    }
    if s.status.RunCompleted? {
      AdvanceKeepsAllDone(e, s, s');
    }
  }

  lemma {:induction false} QuietFailure(s: Run, node: NodeId)
    ensures Quiet(s, OnNodeFailed(s, node))
  {
    if OnNodeFailed(s, node) != s {
      QuietSweep(s, CancelQueued(s.rows));
    }
  }

  /** A finished DAG has nothing ready. */
  lemma {:induction false} AllDoneIsClosed(e: Engine, s: Run)
    requires AllDone(e.nodes, s.rows)
    ensures Closed(e.nodes, s.rows)
  {
    assert forall n :: n in e.nodes ==> Satisfied(s.rows, n.id);
  }

  lemma {:induction false} DrainKeepsInv(e: Engine, s: Run, i: nat)
    requires DistinctIds(e.nodes) && DepsExist(e.nodes) && Inv(e, s)
    ensures Inv(e, DrainOne(e, s, i)) && Advance(s, DrainOne(e, s, i))
  {
    var s' := DrainOne(e, s, i);
    if Unprocessed(s, i) {
      var ev := s.events[i];
      var mid := Callback(e, s, ev);
      if ev.kind.KindCompleted? {
        CompletedCallback(e, s, ev.job.node);
        assert Holds(s, ev.job);
      } else if ev.kind.KindFailed? {
        QuietFailure(s, ev.job.node);
        QuietKeepsInv(e, s, mid);
      } else {
        CoreIgnoresStatus(e, s, s.status, s.expanded);
      }
      FlagEvent(e, mid, s', i, ev.(processed := true));
      AdvanceTransitive(s, mid, s');
    } else {
      CoreIgnoresStatus(e, s, s.status, s.expanded);
    }
  }

  lemma {:induction false} AttemptFailedKeepsInv(e: Engine, s: Run, i: nat)
    requires Inv(e, s) && i < |s.events|
    ensures Inv(e, AttemptFailed(s, i)) && Advance(s, AttemptFailed(s, i))
  {
    var s' := AttemptFailed(s, i);
    var flagged := s.(status := s'.status);
    CoreIgnoresStatus(e, s, s'.status, s.expanded);
    if s.status.RunCompleted? {
      AllDoneIsClosed(e, s);
    }
    FlagEvent(e, flagged, s', i, s'.events[i]);
    AdvanceTransitive(s, flagged, s');
  }

  lemma {:induction false} DrainRaisesKeepsInv(e: Engine, s: Run, i: nat, partial: seq<Node>)
    requires DistinctIds(e.nodes) && Inv(e, s)
    ensures Inv(e, DrainOneRaises(e, s, i, partial)) && Advance(s, DrainOneRaises(e, s, i, partial))
  {
    CoreIgnoresStatus(e, s, s.status, s.expanded);
    if Unprocessed(s, i) {
      PartialKeepsInv(e, s, partial);
      var mid := RaisedCallback(e, s, s.events[i], partial);
      AttemptFailedKeepsInv(e, mid, i);
      AdvanceTransitive(s, mid, AttemptFailed(mid, i));
    }
  }

  lemma {:induction false} InputArrivedKeepsOutbox(s: Run, node: NodeId, delta: Delta)
    requires OutboxMatches(s) && node in s.rows && Live(s.rows[node].status)
    ensures OutboxMatches(InputArrived(s, node, delta))
  {
    var s' := InputArrived(s, node, delta);
    forall i | 0 <= i < |s.events| && s.events[i].kind.KindCompleted?
      ensures Holds(s', s.events[i].job) && s'.rows[s.events[i].job.node].status.Completed?
    {
      assert Holds(s, s.events[i].job);
    }
    forall i | 0 <= i < |s.events| && s.events[i].kind.KindFailed? && Holds(s', s.events[i].job)
      ensures s'.rows[s.events[i].job.node].status.Failed?
    {
      assert Holds(s, s.events[i].job);
    }
  }

  lemma {:induction false} InputArrivedKeepsCore(e: Engine, s: Run, node: NodeId, delta: Delta)
    requires Core(e, s) && node in s.rows && Live(s.rows[node].status)
    ensures Core(e, InputArrived(s, node, delta)) && Advance(s, InputArrived(s, node, delta))
  {
    MarkKeepsDepsDone(e.nodes, s.rows, node, s.rows[node].(status := Completed, delta := delta));
    InputArrivedKeepsOutbox(s, node, delta);
    InputArrivedAdvances(e, s, node, delta);
  }

  lemma {:induction false} InputArrivedAdvances(e: Engine, s: Run, node: NodeId, delta: Delta)
    requires FreshIds(s) && PatchOutside(e, s) && SkippedUntouched(s) && node in s.rows && Live(s.rows[node].status)
    ensures var s' := InputArrived(s, node, delta);
      Advance(s, s') && FreshIds(s') && PatchOutside(e, s') && SkippedUntouched(s')
  {
    var s' := InputArrived(s, node, delta);
    assert forall k :: k in s.rows ==> RowAdvances(s, s', k);
  }

  /** Completing a row outside the DAG readies nothing. */
  lemma {:induction false} InputOutsideDagKeepsFannedOut(e: Engine, s: Run, node: NodeId, delta: Delta)
    requires DepsExist(e.nodes) && FannedOut(e, s) && node in s.rows && !HasId(e.nodes, node)
    ensures FannedOut(e, InputArrived(s, node, delta))
  {
    var s' := InputArrived(s, node, delta);
    if s'.expanded && !Stopped(s'.status) && !Pending(e, s') {
      assert !Pending(e, s);
      NothingNewlyReady(e.nodes, s.rows, s'.rows);
    }
  }

  lemma {:induction false} AcceptInputKeepsInv(e: Engine, s: Run, node: NodeId, delta: Delta)
    requires DistinctIds(e.nodes) && DepsExist(e.nodes) && Inv(e, s)
    ensures Inv(e, AcceptInput(e, s, node, delta)) && Advance(s, AcceptInput(e, s, node, delta))
  {
    CoreIgnoresStatus(e, s, s.status, s.expanded);
    if node in s.rows && (s.rows[node].status.AwaitingInput? || s.rows[node].status.Queued?) {
      var mid := InputArrived(s, node, delta);
      InputArrivedKeepsCore(e, s, node, delta);
      if s.status.RunCompleted? {
        AdvanceKeepsAllDone(e, s, mid);
      }
      CompletedCallback(e, mid, node);
      AdvanceTransitive(s, mid, OnNodeCompleted(e, mid, node));
      if s.rows[node].patch {
        InputOutsideDagKeepsFannedOut(e, s, node, delta);
      }
    }
  }

  lemma {:induction false} PatchKeepsCore(e: Engine, s: Run, node: NodeId, queue: Queue, project: string)
    requires Core(e, s) && node !in s.rows && !HasId(e.nodes, node)
    ensures var s' := InsertPatch(e, s, node, queue, project);
      Core(e, s') && Advance(s, s')
  {
    var s' := InsertPatch(e, s, node, queue, project);
    forall n, d | n in e.nodes && n.id in s'.rows && d in n.deps
      ensures Satisfied(s'.rows, d)
    {
      assert HasId(e.nodes, n.id);
      assert Satisfied(s.rows, d);
    }
    GrowKeepsCore(e, s, s');
  }

  lemma {:induction false} PatchKeepsInv(e: Engine, s: Run, node: NodeId, queue: Queue, project: string)
    requires DepsExist(e.nodes) && Inv(e, s)
    ensures var s' := InsertPatch(e, s, node, queue, project);
      Inv(e, s') && Advance(s, s')
  {
    var s' := InsertPatch(e, s, node, queue, project);
    if node in s.rows || HasId(e.nodes, node) {
      CoreIgnoresStatus(e, s, s.status, s.expanded);
    } else {
      PatchKeepsCore(e, s, node, queue, project);
    }
    if s'.expanded && !Stopped(s'.status) && !Pending(e, s') {
      assert !Pending(e, s);
      NothingNewlyReady(e.nodes, s.rows, s'.rows);
    }
    if s.status.RunCompleted? {
      AdvanceKeepsAllDone(e, s, s');
    }
  }

  /** Dropping every unfinished row keeps the core: finished rows lean on finished rows only. */
  lemma {:induction false} DropKeepsCore(e: Engine, s: Run)
    requires Core(e, s)
    ensures Core(e, s.(rows := KeepDone(s.rows))) && Advance(s, s.(rows := KeepDone(s.rows)))
  {
    var s' := s.(rows := KeepDone(s.rows));
    assert forall k :: k in s.rows ==> RowAdvances(s, s', k);
    forall n, d | n in e.nodes && n.id in s'.rows && d in n.deps
      ensures Satisfied(s'.rows, d)
    {
      assert Satisfied(s.rows, d);
    }
    forall i | 0 <= i < |s.events| && s.events[i].kind.KindCompleted?
      ensures Holds(s', s.events[i].job) && s'.rows[s.events[i].job.node].status.Completed?
    {
      assert Holds(s, s.events[i].job);
    }
    forall i | 0 <= i < |s.events| && s.events[i].kind.KindFailed? && Holds(s', s.events[i].job)
      ensures s'.rows[s.events[i].job.node].status.Failed?
    {
      assert Holds(s, s.events[i].job);
    }
  }

  lemma {:induction false} RestartKeepsInv(e: Engine, s: Run)
    requires Inv(e, s)
    ensures Inv(e, Restart(s)) && Advance(s, Restart(s))
  {
    DropKeepsCore(e, s);
    CoreIgnoresStatus(e, s, s.status, s.expanded);
    var mid := s.(rows := KeepDone(s.rows));
    CoreIgnoresStatus(e, mid, RunQueued, false);
    AdvanceTransitive(s, mid, mid.(status := RunQueued, expanded := false));
  }

  lemma {:induction false} ExpandedFanOutKeepsCore(e: Engine, s: Run)
    requires DistinctIds(e.nodes) && Core(e, s)
    ensures Core(e, Expanded(e, s)) && Advance(s, Expanded(e, s)) && Closed(e.nodes, Expanded(e, s).rows)
  {
    FanOutKeepsCore(e, s);
    var f := FanOut(e, s);
    CoreIgnoresStatus(e, f, f.status, true);
    AdvanceTransitive(s, f, Expanded(e, s));
  }

  /** Closed rows with a new status make a state of the protocol. */
  lemma {:induction false} ClosedWithStatus(e: Engine, s: Run, mid: Run, st: RunStatus)
    requires FreshIds(s) && Core(e, mid) && Advance(s, mid) && mid.expanded && !st.RunCompleted?
    requires Stopped(st) || Closed(e.nodes, mid.rows)
    ensures var s' := mid.(status := st); Inv(e, s') && Advance(s, s')
  {
    CoreIgnoresStatus(e, mid, st, true);
    AdvanceTransitive(s, mid, mid.(status := st));
  }

  lemma {:induction false} ReconcileActsKeepsInv(e: Engine, s: Run)
    requires DistinctIds(e.nodes) && Core(e, s)
    requires !Reconcile(e, s).1.Noop? && !Reconcile(e, s).1.FlippedCompleted?
    ensures Inv(e, Reconcile(e, s).0) && Advance(s, Reconcile(e, s).0)
  {
    var (s', action) := Reconcile(e, s);
    ExpandedFanOutKeepsCore(e, s);
    var s1 := Expanded(e, s);
    if action.Enqueued? {
      assert s' == s1.(status := RunRunning);
      ClosedWithStatus(e, s, s1, RunRunning);
    } else {
      var s2 := Repaired(e, s1);
      assert s' == s2.(status := s'.status);
      RepairKeepsCore(e, s1);
      AdvanceTransitive(s, s1, s2);
      ClosedWithStatus(e, s, s2, s'.status);
    }
  }

  lemma {:induction false} ReconcileKeepsInv(e: Engine, s: Run)
    requires DistinctIds(e.nodes) && Inv(e, s)
    ensures Inv(e, Reconcile(e, s).0) && Advance(s, Reconcile(e, s).0)
  {
    var (s', action) := Reconcile(e, s);
    if action.Noop? || action.FlippedCompleted? {
      CoreIgnoresStatus(e, s, s'.status, s.expanded);
      if action.FlippedCompleted? {
        AllDoneIsClosed(e, s);
      }
    } else {
      ReconcileActsKeepsInv(e, s);
    }
  }

  /** Dropping the dead rows, and fanning out when there were any. */
  lemma {:induction false} RepairKeepsCore(e: Engine, s: Run)
    requires DistinctIds(e.nodes) && Core(e, s)
    ensures Core(e, Repaired(e, s)) && Advance(s, Repaired(e, s))
    ensures |Dropped(s).rows| < |s.rows| ==> Closed(e.nodes, Repaired(e, s).rows)
  {
    DropKeepsCore(e, s);
    var kept := Dropped(s);
    if |kept.rows| < |s.rows| {
      FanOutKeepsCore(e, kept);
      AdvanceTransitive(s, kept, FanOut(e, kept));
    }
  }

  // ----------------------------------------------------------- all together

  /** Every step, taken from any state that satisfies the invariant, keeps it and only advances rows. */
  lemma {:induction false} StepKeepsInv(e: Engine, s: Run, step: Step)
    requires DistinctIds(e.nodes) && DepsExist(e.nodes) && Inv(e, s)
    ensures Inv(e, Apply(e, s, step)) && Advance(s, Apply(e, s, step))
  {
    if IsQuiet(step) {
      QuietStep(e, s, step);
      QuietKeepsInv(e, s, Apply(e, s, step));
    } else if step.Complete? || step.Fail? || step.Park? {
      MarkKeepsInv(e, s, step);
    } else {
      DispatchKeepsInv(e, s, step);
    }
  }

  predicate IsDispatch(step: Step) {
    !IsQuiet(step) && !step.Complete? && !step.Fail? && !step.Park?
  }

  /** The steps of the dispatcher and the host. */
  lemma {:induction false} DispatchKeepsInv(e: Engine, s: Run, step: Step)
    requires DistinctIds(e.nodes) && DepsExist(e.nodes) && Inv(e, s) && IsDispatch(step)
    ensures Inv(e, Apply(e, s, step)) && Advance(s, Apply(e, s, step))
  {
    match step
    case ExpandRun =>
      ExpandRunKeepsInv(e, s);
      assert Apply(e, s, step) == StartRun(e, s);
    case ExpandRunRaises(partial) =>
      ExpandRaisesKeepsInv(e, s, partial);
      assert Apply(e, s, step) == StartRunRaises(e, s, partial);
    case Drain(i) =>
      DrainKeepsInv(e, s, i);
      assert Apply(e, s, step) == DrainOne(e, s, i);
    case DrainRaises(i, partial) =>
      DrainRaisesKeepsInv(e, s, i, partial);
      assert Apply(e, s, step) == DrainOneRaises(e, s, i, partial);
    case ResumeAfterInput(node, delta) =>
      AcceptInputKeepsInv(e, s, node, delta);
      assert Apply(e, s, step) == AcceptInput(e, s, node, delta);
    case RestartRun =>
      RestartKeepsInv(e, s);
      assert Apply(e, s, step) == Restart(s);
    case EnqueuePatch(node, queue, project) =>
      PatchKeepsInv(e, s, node, queue, project);
      assert Apply(e, s, step) == InsertPatch(e, s, node, queue, project);
    case ReconcileRun =>
      ReconcileKeepsInv(e, s);
      assert Apply(e, s, step) == Reconcile(e, s).0;
  }

  lemma {:induction false} ExpandRaisesKeepsInv(e: Engine, s: Run, partial: seq<Node>)
    requires DistinctIds(e.nodes) && Inv(e, s)
    ensures Inv(e, StartRunRaises(e, s, partial)) && Advance(s, StartRunRaises(e, s, partial))
  {
    PartialKeepsInv(e, s, partial);
    CoreIgnoresStatus(e, s, s.status, s.expanded);
  }

  lemma {:induction false} InitInv(e: Engine, project: string, priority: int, context: Context)
    ensures Inv(e, Init(project, priority, context))
  {
  }

  /** The invariant holds after every history. */
  lemma {:induction false} ExecKeepsInv(e: Engine, s: Run, steps: seq<Step>)
    requires DistinctIds(e.nodes) && DepsExist(e.nodes) && Inv(e, s)
    ensures Inv(e, Exec(e, s, steps)) && Advance(s, Exec(e, s, steps))
    decreases steps
  {
    if steps == [] {
      CoreIgnoresStatus(e, s, s.status, s.expanded);
    } else {
      var s1 := Apply(e, s, steps[0]);
      StepKeepsInv(e, s, steps[0]);
      ExecKeepsInv(e, s1, steps[1..]);
      AdvanceTransitive(s, s1, Exec(e, s, steps));
    }
  }
}
