/** What every statement of the store promises, on the columns alone. A statement acts on each row by itself:
    `Fate` says what becomes of a row, `News` what is written to the outbox, and nothing else changes. */
module StatementContract {
  import opened Options
  import opened Workflow
  import opened Dispatcher
  import opened Protocol

  /** The steps that are statements on one run's rows, or on its status. */
  predicate IsStatement(step: Step) {
    || step.Claim? || step.Renew? || step.Complete? || step.Fail? || step.Park? || step.RequeueForRetry?
    || step.ReclaimExpired? || step.ReclaimForResume? || step.RequeueForWorker? || step.CancelOrphans?
    || step.ResumeRun? || step.CancelRun?
  }

  /** A terminal mark goes through: the caller was once handed the row, and it is not terminal yet. */
  predicate Open(s: Run, row: Row) {
    row.id in s.handed && !row.status.Completed? && !row.status.Failed? && !row.status.Cancelled?
  }

  /** A claim for `queue` and `project` may take the row: it is queued there, under a run that is neither
      cancelled nor failed. */
  predicate Granted(s: Run, row: Row, queue: Queue, project: string) {
    && row.status.Queued? && row.queue == queue && row.project == project
    && !s.status.RunCancelled? && !s.status.RunFailed?
  }

  /** Queued again, without owner and lease, at priority 10 or the better one it had. */
  function ToFront(row: Row): Row {
    row.(status := Queued, claimedBy := None, lease := None,
         priority := if row.priority <= 10 then row.priority else 10)
  }

  /** What a statement makes of a row. */
  function Fate(s: Run, step: Step, row: Row): Row {
    match step
    case Claim(node, host, queue, project, lease) =>
      if row.id.node == node && Granted(s, row, queue, project)
      then row.(status := Running, claimedBy := Some(host), lease := Some(lease)) else row
    case Renew(id, host, lease) =>
      if row.id == id && row.status.Running? && row.claimedBy == Some(host) then row.(lease := Some(lease)) else row
    case Complete(id, delta) =>
      if row.id == id && Open(s, row) then row.(status := Completed, delta := delta) else row
    case Fail(id) => if row.id == id && Open(s, row) then row.(status := Failed) else row
    case Park(id) => if row.id == id && Open(s, row) && row.input then row.(status := AwaitingInput) else row
    case RequeueForRetry(id) =>
      if row.id == id && row.status.Running? then ToFront(row).(retries := row.retries + 1) else row
    case ReclaimExpired(now) =>
      if row.status.Running? && row.lease.Some? && row.lease.value < now then
        if s.status.RunRunning? then ToFront(row) else row.(status := Cancelled, claimedBy := None, lease := None)
      else row
    case ReclaimForResume(project, beating) =>
      if row.status.Running? && row.project == project
         && (row.claimedBy.None? || (row.claimedBy.value, row.queue) !in beating)
      then ToFront(row) else row
    case RequeueForWorker(host, queue, project) =>
      if row.status.Running? && row.claimedBy == Some(host) && row.queue == queue && row.project == project
      then ToFront(row) else row
    case CancelOrphans(project) =>
      if row.status.Queued? && row.project == project && (s.status.RunCancelled? || s.status.RunFailed?)
      then row.(status := Cancelled) else row
    case _ => row
  }

  predicate HasOpenRow(s: Run, id: JobId) {
    id.node in s.rows && s.rows[id.node].id == id && Open(s, s.rows[id.node])
  }

  /** What a statement writes to the outbox. Parking announces itself even when its row could not be marked. */
  function News(s: Run, step: Step): seq<Event> {
    match step
    case Complete(id, _) => if HasOpenRow(s, id) then [Event(id, KindCompleted, false, 0)] else []
    case Fail(id) => if HasOpenRow(s, id) then [Event(id, KindFailed, false, 0)] else []
    case Park(id) =>
      if id in s.handed && !(id.node in s.rows && s.rows[id.node].id == id && !s.rows[id.node].input)
      then [Event(id, KindAwaiting, false, 0)] else []
    case _ => []
  }

  /** The run row: only a resume and a cancellation touch it, the first for its own project. */
  function RunRow(s: Run, step: Step): (RunStatus, int) {
    match step
    case ResumeRun(project) =>
      if s.status.RunRunning? && s.project == project then (RunQueued, 10) else (s.status, s.priority)
    case CancelRun => (if s.status.RunQueued? || s.status.RunRunning? then RunCancelled else s.status, s.priority)
    case _ => (s.status, s.priority)
  }

  /** The ids a statement hands to a worker. */
  function HandsOver(s: Run, step: Step): set<JobId> {
    if step.Claim? && step.node in s.rows && Granted(s, s.rows[step.node], step.queue, step.project)
    then {s.rows[step.node].id} else {}
  }

  ghost predicate Promised(s: Run, step: Step, s': Run) {
    && s'.rows.Keys == s.rows.Keys
    && (forall k :: k in s.rows ==> s'.rows[k] == Fate(s, step, s.rows[k]))
    && s'.events == s.events + News(s, step)
    && s'.handed == s.handed + HandsOver(s, step)
    && (s'.status, s'.priority) == RunRow(s, step)
    && s' == s.(rows := s'.rows, events := s'.events, handed := s'.handed, status := s'.status, priority := s'.priority)
  }

  /** A statement that touches the row of one node at most. */
  lemma {:induction false} OneRow(s: Run, step: Step, s': Run, node: NodeId)
    requires node in s.rows ==> s'.rows == s.rows[node := Fate(s, step, s.rows[node])]
    requires node !in s.rows ==> s'.rows == s.rows
    requires forall k :: k in s.rows && k != node ==> Fate(s, step, s.rows[k]) == s.rows[k]
    ensures s'.rows.Keys == s.rows.Keys && forall k :: k in s.rows ==> s'.rows[k] == Fate(s, step, s.rows[k])
  {
  }

  lemma {:induction false} CompleteKeeps(s: Run, id: JobId, delta: Delta)
    requires FreshIds(s)
    ensures Promised(s, Complete(id, delta), CompleteRow(s, id, delta))
  {
    OneRow(s, Complete(id, delta), CompleteRow(s, id, delta), id.node);
  }

  lemma {:induction false} FailKeeps(s: Run, id: JobId)
    requires FreshIds(s)
    ensures Promised(s, Fail(id), FailRow(s, id))
  {
    OneRow(s, Fail(id), FailRow(s, id), id.node);
  }

  lemma {:induction false} ParkKeeps(s: Run, id: JobId)
    requires FreshIds(s)
    ensures Promised(s, Park(id), ParkRow(s, id))
  {
    OneRow(s, Park(id), ParkRow(s, id), id.node);
  }

  lemma {:induction false} ClaimKeeps(s: Run, node: NodeId, host: string, queue: Queue, project: string, lease: int)
    requires FreshIds(s)
    ensures Promised(s, Claim(node, host, queue, project, lease), ClaimRow(s, node, host, queue, project, lease))
  {
    OneRow(s, Claim(node, host, queue, project, lease), ClaimRow(s, node, host, queue, project, lease), node);
  }

  lemma {:induction false} RenewKeeps(s: Run, id: JobId, host: string, lease: int)
    requires FreshIds(s)
    ensures Promised(s, Renew(id, host, lease), RenewLease(s, id, host, lease))
  {
    OneRow(s, Renew(id, host, lease), RenewLease(s, id, host, lease), id.node);
  }

  lemma {:induction false} RequeueKeeps(s: Run, id: JobId)
    requires FreshIds(s)
    ensures Promised(s, RequeueForRetry(id), RequeueRow(s, id))
  {
    OneRow(s, RequeueForRetry(id), RequeueRow(s, id), id.node);
  }

  lemma {:induction false} ExpiredKeeps(s: Run, now: int)
    ensures Promised(s, ReclaimExpired(now), ReclaimExpiredRows(s, now))
  {
  }

  lemma {:induction false} ResumeKeeps(s: Run, project: string, beating: set<(string, Queue)>)
    ensures Promised(s, ReclaimForResume(project, beating), ReclaimOrphanedRows(s, project, beating))
  {
  }

  lemma {:induction false} WorkerKeeps(s: Run, host: string, queue: Queue, project: string)
    ensures Promised(s, RequeueForWorker(host, queue, project), RequeueWorkerRows(s, host, queue, project))
  {
  }

  lemma {:induction false} OrphansKeep(s: Run, project: string)
    ensures Promised(s, CancelOrphans(project), CancelOrphanRows(s, project))
  {
  }

  lemma {:induction false} StatusKeeps(s: Run, project: string)
    ensures Promised(s, ResumeRun(project), ResumeStatus(s, project))
    ensures Promised(s, CancelRun, CancelStatus(s))
  {
  }

  lemma {:induction false} SweepsKeep(e: Engine, s: Run, step: Step)
    requires IsStatement(step) && !step.Claim? && !step.Renew? && !step.Complete? && !step.Fail? && !step.Park?
      && !step.RequeueForRetry?
    ensures Promised(s, step, Apply(e, s, step))
  {
    match step
    case ReclaimExpired(now) => ExpiredKeeps(s, now);
    case ReclaimForResume(project, beating) => ResumeKeeps(s, project, beating);
    case RequeueForWorker(host, queue, project) => WorkerKeeps(s, host, queue, project);
    case CancelOrphans(project) => OrphansKeep(s, project);
    case ResumeRun(project) => StatusKeeps(s, project);
    case CancelRun => StatusKeeps(s, "");
  }

  /** Every statement does to the rows, the outbox and the run row what it promises, and no more. */
  lemma {:induction false} StatementsKeepTheirPromise(e: Engine, s: Run, step: Step)
    requires FreshIds(s) && IsStatement(step)
    ensures Promised(s, step, Apply(e, s, step))
  {
    match step
    case Claim(node, host, queue, project, lease) => ClaimKeeps(s, node, host, queue, project, lease);
    case Renew(id, host, lease) => RenewKeeps(s, id, host, lease);
    case Complete(id, delta) => CompleteKeeps(s, id, delta);
    case Fail(id) => FailKeeps(s, id);
    case Park(id) => ParkKeeps(s, id);
    case RequeueForRetry(id) => RequeueKeeps(s, id);
    case _ => SweepsKeep(e, s, step);
  }
}
