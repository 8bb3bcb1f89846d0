/** The durable queue protocol of one run as a transition system. Every step is one SQL statement, one
    transaction or one dispatcher callback; a step whose guard fails changes nothing. A displaced worker
    may act at any later time on any row id it was once handed. */
module Protocol {
  import opened Options
  import opened DrainLimits
  import opened Workflow
  import opened Expansion
  import opened Dispatcher

  const FrontPriority: int := 10

  datatype Step =
    | ExpandRun
    | ExpandRunRaises(partial: seq<Node>)
    | Drain(event: nat)
    | DrainRaises(event: nat, partial: seq<Node>)
    | Claim(node: NodeId, host: string, queue: Queue, project: string, lease: int)
    | Renew(id: JobId, host: string, lease: int)
    | Complete(id: JobId, delta: Delta)
    | Fail(id: JobId)
    | Park(id: JobId)
    | RequeueForRetry(id: JobId)
    | ReclaimExpired(now: int)
    | ReclaimForResume(project: string, beating: set<(string, Queue)>)
    | RequeueForWorker(host: string, queue: Queue, project: string)
    | ResumeRun(project: string)
    | ResumeAfterInput(node: NodeId, delta: Delta)
    | CancelOrphans(project: string)
    | CancelRun
    | RestartRun
    | EnqueuePatch(node: NodeId, queue: Queue, project: string)
    | ReconcileRun

  predicate Holds(s: Run, id: JobId) {
    id.node in s.rows && s.rows[id.node].id == id
  }

  function Front(priority: int): int {
    if priority < FrontPriority then priority else FrontPriority
  }

  /** Back to the queue: owner and lease cleared, priority moved to the front. */
  function Release(row: Row): Row {
    row.(status := Queued, claimedBy := None, lease := None, priority := Front(row.priority))
  }

  predicate Claimable(s: Run, node: NodeId, queue: Queue, project: string) {
    && node in s.rows
    && s.rows[node].status.Queued?
    && s.rows[node].queue == queue
    && s.rows[node].project == project
    && !Stopped(s.status)
  }

  predicate Expired(row: Row, now: int) {
    row.status.Running? && row.lease.Some? && row.lease.value < now
  }

  predicate Orphaned(row: Row, project: string, beating: set<(string, Queue)>) {
    row.status.Running? && row.project == project
    && !(row.claimedBy.Some? && (row.claimedBy.value, row.queue) in beating)
  }

  predicate OwnedBy(row: Row, host: string, queue: Queue, project: string) {
    row.status.Running? && row.claimedBy == Some(host) && row.queue == queue && row.project == project
  }

  /** A lapsed lease goes back to the queue only under a `running` run; under any other status,
      `queued` included, the row is cancelled. */
  function Reclaimed(row: Row, runStatus: RunStatus): Row {
    if runStatus.RunRunning? then Release(row) else row.(status := Cancelled, claimedBy := None, lease := None)
  }

  predicate Markable(s: Run, id: JobId) {
    id in s.handed && Holds(s, id) && !Terminal(s.rows[id.node].status)
  }

  function WithRow(s: Run, id: JobId, row: Row): Run {
    s.(rows := s.rows[id.node := row])
  }

  function Emit(s: Run, id: JobId, kind: Kind): Run {
    s.(events := s.events + [Event(id, kind, false, 0)])
  }

  predicate Unprocessed(s: Run, i: nat) {
    i < |s.events| && !s.events[i].processed
  }

  function Callback(e: Engine, s: Run, ev: Event): Run {
    match ev.kind
    case KindCompleted => OnNodeCompleted(e, s, ev.job.node)
    case KindFailed => OnNodeFailed(s, ev.job.node)
    case KindAwaiting => s
  }

  /** Rows a fan-out managed to insert before it raised. */
  function PartialFanOut(e: Engine, s: Run, partial: seq<Node>): Run {
    if Legal(ScopeOf(e, s), s.rows, partial)
    then s.(rows := InsertAll(ScopeOf(e, s), s.rows, partial), gen := s.gen + 1)
    else s
  }

  function RaisedCallback(e: Engine, s: Run, ev: Event, partial: seq<Node>): Run {
    if ev.kind.KindCompleted? && !Stopped(s.status) && !IsPatch(s.rows, ev.job.node)
    then PartialFanOut(e, s, partial)
    else s
  }

  /** Count a failed attempt; the tenth gives the event up and fails a run that is not terminal. */
  function AttemptFailed(s: Run, i: nat): Run
    requires i < |s.events|
  {
    var ev := s.events[i].(attempts := s.events[i].attempts + 1);
    if ev.attempts >= MaxAttempts then
      s.(events := s.events[i := ev.(processed := true)],
         status := if s.status.RunQueued? || s.status.RunRunning? then RunFailed else s.status)
    else s.(events := s.events[i := ev])
  }

  // ---------------------------------------------------- the store's statements

  function ClaimRow(s: Run, node: NodeId, host: string, queue: Queue, project: string, lease: int): Run {
    if Claimable(s, node, queue, project) then
      var row := s.rows[node].(status := Running, claimedBy := Some(host), lease := Some(lease));
      s.(rows := s.rows[node := row], handed := s.handed + {row.id})
    else s
  }

  function RenewLease(s: Run, id: JobId, host: string, lease: int): Run {
    if Holds(s, id) && s.rows[id.node].status.Running? && s.rows[id.node].claimedBy == Some(host)
    then WithRow(s, id, s.rows[id.node].(lease := Some(lease)))
    else s
  }

  function CompleteRow(s: Run, id: JobId, delta: Delta): Run {
    if Markable(s, id)
    then Emit(WithRow(s, id, s.rows[id.node].(status := Completed, delta := delta)), id, KindCompleted)
    else s
  }

  function FailRow(s: Run, id: JobId): Run {
    if Markable(s, id)
    then Emit(WithRow(s, id, s.rows[id.node].(status := Failed)), id, KindFailed)
    else s
  }

  /** Parking an input node writes its event even when the row could not be marked. */
  function ParkRow(s: Run, id: JobId): Run {
    if id !in s.handed || (Holds(s, id) && !s.rows[id.node].input) then s
    else if Markable(s, id)
    then Emit(WithRow(s, id, s.rows[id.node].(status := AwaitingInput)), id, KindAwaiting)
    else Emit(s, id, KindAwaiting)
  }

  function RequeueRow(s: Run, id: JobId): Run {
    if Holds(s, id) && s.rows[id.node].status.Running?
    then WithRow(s, id, Release(s.rows[id.node]).(retries := s.rows[id.node].retries + 1))
    else s
  }

  function ReclaimExpiredRows(s: Run, now: int): Run {
    s.(rows := map k | k in s.rows ::
      if Expired(s.rows[k], now) then Reclaimed(s.rows[k], s.status) else s.rows[k])
  }

  function ReclaimOrphanedRows(s: Run, project: string, beating: set<(string, Queue)>): Run {
    s.(rows := map k | k in s.rows ::
      if Orphaned(s.rows[k], project, beating) then Release(s.rows[k]) else s.rows[k])
  }

  function RequeueWorkerRows(s: Run, host: string, queue: Queue, project: string): Run {
    s.(rows := map k | k in s.rows ::
      if OwnedBy(s.rows[k], host, queue, project) then Release(s.rows[k]) else s.rows[k])
  }

  function CancelOrphanRows(s: Run, project: string): Run {
    if Stopped(s.status) then
      s.(rows := map k | k in s.rows ::
        if s.rows[k].project == project && s.rows[k].status.Queued?
        then s.rows[k].(status := Cancelled) else s.rows[k])
    else s
  }

  function ResumeStatus(s: Run, project: string): Run {
    if s.status.RunRunning? && s.project == project then s.(status := RunQueued, priority := FrontPriority)
    else s
  }

  function CancelStatus(s: Run): Run {
    if s.status.RunQueued? || s.status.RunRunning? then s.(status := RunCancelled) else s
  }

  /** The host's "retry whole run": drop everything unfinished and queue the run again. */
  function Restart(s: Run): Run {
    if Stopped(s.status) then s.(rows := KeepDone(s.rows), status := RunQueued, expanded := false) else s
  }

  function InsertPatch(e: Engine, s: Run, node: NodeId, queue: Queue, project: string): Run {
    if node in s.rows || HasId(e.nodes, node) then s
    else
      s.(rows := s.rows[node := Row(JobId(node, s.gen), Queued, queue, None, project, s.priority,
                                    None, None, 0, map[], false, true)],
         gen := s.gen + 1)
  }

  function InputArrived(s: Run, node: NodeId, delta: Delta): Run
    requires node in s.rows
  {
    s.(rows := s.rows[node := s.rows[node].(status := Completed, delta := delta)])
  }

  /** A submitted input completes its row, without an event, and fans out at once. */
  function AcceptInput(e: Engine, s: Run, node: NodeId, delta: Delta): Run {
    if node in s.rows && (s.rows[node].status.AwaitingInput? || s.rows[node].status.Queued?)
    then OnNodeCompleted(e, InputArrived(s, node, delta), node)
    else s
  }

  function DrainOne(e: Engine, s: Run, i: nat): Run {
    if Unprocessed(s, i) then
      Callback(e, s, s.events[i]).(events := s.events[i := s.events[i].(processed := true)])
    else s
  }

  function DrainOneRaises(e: Engine, s: Run, i: nat, partial: seq<Node>): Run {
    if Unprocessed(s, i) then AttemptFailed(RaisedCallback(e, s, s.events[i], partial), i) else s
  }

  function StartRunRaises(e: Engine, s: Run, partial: seq<Node>): Run {
    if s.status.RunQueued? && GpuModelsDeclared(e) then PartialFanOut(e, s, partial) else s
  }

  function Apply(e: Engine, s: Run, step: Step): Run {
    match step
    case ExpandRun => StartRun(e, s)
    case ExpandRunRaises(partial) => StartRunRaises(e, s, partial)
    case Drain(i) => DrainOne(e, s, i)
    case DrainRaises(i, partial) => DrainOneRaises(e, s, i, partial)
    case Claim(node, host, queue, project, lease) => ClaimRow(s, node, host, queue, project, lease)
    case Renew(id, host, lease) => RenewLease(s, id, host, lease)
    case Complete(id, delta) => CompleteRow(s, id, delta)
    case Fail(id) => FailRow(s, id)
    case Park(id) => ParkRow(s, id)
    case RequeueForRetry(id) => RequeueRow(s, id)
    case ReclaimExpired(now) => ReclaimExpiredRows(s, now)
    case ReclaimForResume(project, beating) => ReclaimOrphanedRows(s, project, beating)
    case RequeueForWorker(host, queue, project) => RequeueWorkerRows(s, host, queue, project)
    case ResumeRun(project) => ResumeStatus(s, project)
    case ResumeAfterInput(node, delta) => AcceptInput(e, s, node, delta)
    case CancelOrphans(project) => CancelOrphanRows(s, project)
    case CancelRun => CancelStatus(s)
    case RestartRun => Restart(s)
    case EnqueuePatch(node, queue, project) => InsertPatch(e, s, node, queue, project)
    case ReconcileRun => Reconcile(e, s).0
  }

  /** The state after a whole history. */
  function Exec(e: Engine, s: Run, steps: seq<Step>): Run
    decreases steps
  {
    if steps == [] then s else Exec(e, Apply(e, s, steps[0]), steps[1..])
  }

  function Init(project: string, priority: int, context: Context): Run {
    Run(RunQueued, project, priority, context, map[], [], 0, {}, false)
  }

  // -------------------------------------------------------------- invariant

  ghost predicate FreshIds(s: Run) {
    && (forall k :: k in s.rows ==> s.rows[k].id.node == k && s.rows[k].id.gen < s.gen)
    && (forall id :: id in s.handed ==> id.gen < s.gen)
    && (forall i :: 0 <= i < |s.events| ==> s.events[i].job.gen < s.gen)
  }

  /** Patch rows are exactly the rows outside the DAG. */
  ghost predicate PatchOutside(e: Engine, s: Run) {
    forall k :: k in s.rows ==> (s.rows[k].patch <==> !HasId(e.nodes, k))
  }

  /** No worker was ever handed a bookkeeping row. */
  ghost predicate SkippedUntouched(s: Run) {
    forall k :: k in s.rows && s.rows[k].status.Skipped? ==> s.rows[k].id !in s.handed
  }

  predicate TerminalEvent(ev: Event, id: JobId) {
    ev.job == id && !ev.kind.KindAwaiting?
  }

  /** A terminal event agrees with the row it announces, and a row has at most one. */
  ghost predicate OutboxMatches(s: Run) {
    && (forall i :: 0 <= i < |s.events| && s.events[i].kind.KindCompleted? ==>
          Holds(s, s.events[i].job) && s.rows[s.events[i].job.node].status.Completed?)
    && (forall i :: 0 <= i < |s.events| && s.events[i].kind.KindFailed? && Holds(s, s.events[i].job) ==>
          s.rows[s.events[i].job.node].status.Failed?)
    && (forall i, j :: 0 <= i < j < |s.events| && TerminalEvent(s.events[i], s.events[j].job) ==>
          s.events[j].kind.KindAwaiting?)
  }

  /** A completion of a workflow node still waits to be fanned out. */
  ghost predicate Pending(e: Engine, s: Run) {
    exists i :: 0 <= i < |s.events| && !s.events[i].processed && s.events[i].kind.KindCompleted?
      && HasId(e.nodes, s.events[i].job.node)
  }

  /** In an active, expanded run either a completion event is pending or nothing is ready. */
  ghost predicate FannedOut(e: Engine, s: Run) {
    s.expanded && !Stopped(s.status) && !Pending(e, s) ==> Closed(e.nodes, s.rows)
  }

  ghost predicate StatusHonest(e: Engine, s: Run) {
    && (s.status.RunCompleted? ==> AllDone(e.nodes, s.rows))
    && (s.status.RunRunning? ==> s.expanded)
  }

  /** The part of the invariant that also holds between the halves of one callback. */
  ghost predicate Core(e: Engine, s: Run) {
    FreshIds(s) && PatchOutside(e, s) && SkippedUntouched(s) && DepsDone(e.nodes, s.rows) && OutboxMatches(s)
  }

  ghost predicate Inv(e: Engine, s: Run) {
    Core(e, s) && FannedOut(e, s) && StatusHonest(e, s)
  }

  // ----------------------------------------------- what one step may change

  predicate SameIdentity(a: Row, b: Row) {
    a.id == b.id && a.project == b.project && a.queue == b.queue && a.patch == b.patch && a.input == b.input
  }

  /** How one step may treat a row that exists before it. */
  ghost predicate RowAdvances(s: Run, s': Run, k: NodeId)
    requires k in s.rows
  {
    var row := s.rows[k];
    if Done(row.status) then k in s'.rows && s'.rows[k] == row
    else if Terminal(row.status) then k in s'.rows && s'.rows[k].id == row.id ==> s'.rows[k] == row
    else k in s'.rows && s'.rows[k].id == row.id ==> SameIdentity(row, s'.rows[k])
  }

  /** The step relation behind absorption: finished rows stay, dead rows stay or vanish, a vanished id
      never returns, and the outbox only grows. */
  ghost predicate Advance(s: Run, s': Run) {
    && s.gen <= s'.gen
    && s.handed <= s'.handed
    && s'.project == s.project
    && (forall k :: k in s.rows ==> RowAdvances(s, s', k))
    && (forall k :: k in s'.rows && s'.rows[k].id.gen < s.gen ==> Holds(s, s'.rows[k].id))
    && |s.events| <= |s'.events|
    && (forall i :: 0 <= i < |s.events| ==>
          s'.events[i].job == s.events[i].job && s'.events[i].kind == s.events[i].kind)
  }
}
