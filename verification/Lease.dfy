/** Lease timing: when a sweep takes a row from its owner. */
module Lease {
  import opened Options
  import opened Workflow
  import opened Dispatcher
  import opened Protocol
  import opened ProtocolInvariant
  import opened Guarantees

  /** A step with the broker's clock reading. */
  datatype Timed = Timed(at: int, step: Step)

  /** Claims and renewals stamp `now + lease`, sweeps compare against `now`. */
  ghost predicate Stamped(trace: seq<Timed>, lease: nat) {
    forall i :: 0 <= i < |trace| ==>
      match trace[i].step
      case Claim(_, _, _, _, l) => l == trace[i].at + lease
      case Renew(_, _, l) => l == trace[i].at + lease
      case ReclaimExpired(now) => now == trace[i].at
      case _ => true
  }

  function StepsOf(trace: seq<Timed>): seq<Step> {
    if trace == [] then [] else [trace[0].step] + StepsOf(trace[1..])
  }

  predicate RenewHits(s: Run, step: Step, id: JobId) {
    step.Renew? && step.id == id && Holds(s, id) && s.rows[id.node].status.Running?
    && s.rows[id.node].claimedBy == Some(step.host)
  }

  /** The time of the last claim or renewal that took effect on `id`, or `earlier` if there was none. */
  function LastBeat(e: Engine, s: Run, trace: seq<Timed>, id: JobId, earlier: int): int
    decreases trace
  {
    if trace == [] then earlier else
      LastBeat(e, Apply(e, s, trace[0].step), trace[1..], id, Beat(s, trace[0], id, earlier))
  }

  ghost predicate LeaseFollows(s: Run, id: JobId, beat: int, lease: nat) {
    Holds(s, id) && s.rows[id.node].status.Running? ==> s.rows[id.node].lease == Some(beat + lease)
  }

  /** A row is running after a step because the step stamped it or because it was left alone. */
  lemma {:induction false} RunningRowOrigin(e: Engine, s: Run, step: Step, id: JobId)
    requires DistinctIds(e.nodes) && DepsExist(e.nodes) && Inv(e, s)
    requires Holds(Apply(e, s, step), id) && Apply(e, s, step).rows[id.node].status.Running?
    ensures
      if ClaimHits(s, step, id) || RenewHits(s, step, id)
      then Apply(e, s, step).rows[id.node].lease == Some(step.lease)
      else Holds(s, id) && s.rows[id.node] == Apply(e, s, step).rows[id.node]
  {
    if !IsQuiet(step) || step.ResumeRun? || step.CancelOrphans? || step.CancelRun? {
      DispatcherHandless(e, s, step);
    } else {
      QuietRowOrigin(e, s, step, id);
    }
  }

  lemma {:induction false} QuietRowOrigin(e: Engine, s: Run, step: Step, id: JobId)
    requires FreshIds(s) && IsQuiet(step) && !(step.ResumeRun? || step.CancelOrphans? || step.CancelRun?)
    requires Holds(Apply(e, s, step), id) && Apply(e, s, step).rows[id.node].status.Running?
    ensures
      if ClaimHits(s, step, id) || RenewHits(s, step, id)
      then Apply(e, s, step).rows[id.node].lease == Some(step.lease)
      else Holds(s, id) && s.rows[id.node] == Apply(e, s, step).rows[id.node]
  {
    if !step.Claim? && !step.Renew? {
      SweptRowOrigin(e, s, step, id);
    }
  }

  /** A sweep or a requeue leaves a running row alone or takes it out of the running status. */
  lemma {:induction false} SweptRowOrigin(e: Engine, s: Run, step: Step, id: JobId)
    requires step.RequeueForRetry? || step.ReclaimExpired? || step.ReclaimForResume? || step.RequeueForWorker?
    requires Holds(Apply(e, s, step), id) && Apply(e, s, step).rows[id.node].status.Running?
    ensures Holds(s, id) && s.rows[id.node] == Apply(e, s, step).rows[id.node]
  {
    var k := id.node;
    match step
    case RequeueForRetry(job) => assert job.node != k || RequeueRow(s, job) == s;
    case ReclaimExpired(now) => assert !Expired(s.rows[k], now);
    case ReclaimForResume(project, beating) => assert !Orphaned(s.rows[k], project, beating);
    case RequeueForWorker(host, queue, project) => assert !OwnedBy(s.rows[k], host, queue, project);
  }

  function Beat(s: Run, timed: Timed, id: JobId, earlier: int): int {
    if ClaimHits(s, timed.step, id) || RenewHits(s, timed.step, id) then timed.at else earlier
  }

  lemma {:induction false} LeaseFollowsOneStep(e: Engine, s: Run, timed: Timed, id: JobId, earlier: int, lease: nat)
    requires DistinctIds(e.nodes) && DepsExist(e.nodes) && Inv(e, s)
    requires Stamped([timed], lease) && LeaseFollows(s, id, earlier, lease)
    ensures LeaseFollows(Apply(e, s, timed.step), id, Beat(s, timed, id, earlier), lease)
  {
    var s' := Apply(e, s, timed.step);
    assert [timed][0] == timed;
    if Holds(s', id) && s'.rows[id.node].status.Running? {
      RunningRowOrigin(e, s, timed.step, id);
    }
  }

  lemma {:induction false} LeaseFollowsBeat(e: Engine, s: Run, trace: seq<Timed>, id: JobId, earlier: int, lease: nat)
    requires DistinctIds(e.nodes) && DepsExist(e.nodes) && Inv(e, s)
    requires Stamped(trace, lease) && LeaseFollows(s, id, earlier, lease)
    ensures LeaseFollows(Exec(e, s, StepsOf(trace)), id, LastBeat(e, s, trace, id, earlier), lease)
    decreases trace
  {
    if trace != [] {
      StepKeepsInv(e, s, trace[0].step);
      StampedParts(trace, lease);
      LeaseFollowsOneStep(e, s, trace[0], id, earlier, lease);
      LeaseFollowsBeat(e, Apply(e, s, trace[0].step), trace[1..], id, Beat(s, trace[0], id, earlier), lease);
      ExecFirst(e, s, trace);
    }
  }

  /** After any history from the run's creation, a sweep at `now` takes a running row exactly when the
      owner's last effective claim or renewal is more than `lease` old. A row it takes is queued again
      under a running run and cancelled otherwise; a row it does not take is untouched. */
  lemma {:induction false} SweepTakesExactlyTheLate(e: Engine, project: string, priority: int, context: Context,
                                 trace: seq<Timed>, id: JobId, lease: nat, now: int)
    requires DistinctIds(e.nodes) && DepsExist(e.nodes) && Stamped(trace, lease)
    requires var s := Exec(e, Init(project, priority, context), StepsOf(trace));
      Holds(s, id) && s.rows[id.node].status.Running?
    ensures var s0 := Init(project, priority, context);
      var s := Exec(e, s0, StepsOf(trace));
      var s' := Apply(e, s, ReclaimExpired(now));
      if LastBeat(e, s0, trace, id, 0) + lease < now
      then Holds(s', id) && s'.rows[id.node].claimedBy.None?
        && s'.rows[id.node].status == (if s.status.RunRunning? then Queued else Cancelled)
      else Holds(s', id) && s'.rows[id.node] == s.rows[id.node]
  {
    var s0 := Init(project, priority, context);
    InitInv(e, project, priority, context);
    LeaseFollowsBeat(e, s0, trace, id, 0, lease);
  }

  // ------------------------------------------------------- an attended row

  /** `host` runs row `id` under a lease until `until`. */
  predicate RunsUnder(s: Run, id: JobId, host: string, until: int) {
    && Holds(s, id) && s.rows[id.node].status.Running? && s.rows[id.node].claimedBy == Some(host)
    && s.rows[id.node].lease == Some(until)
  }

  predicate Clockwise(trace: seq<Timed>, start: int, end: int) {
    if trace == [] then start <= end
    else start <= trace[0].at && Clockwise(trace[1..], trace[0].at, end)
  }

  predicate Issues(step: Step, id: JobId, host: string) {
    step.Renew? && step.id == id && step.host == host
  }

  /** The owner issues its renewals in time: the first within `lease` of `last`, each within `lease` of the one
      before, and the end of the stretch within `lease` of the last one. Nothing is said about their effect. */
  predicate RenewsInTime(trace: seq<Timed>, id: JobId, host: string, last: int, lease: nat, end: int) {
    if trace == [] then end <= last + lease
    else if Issues(trace[0].step, id, host) then
      trace[0].at <= last + lease && RenewsInTime(trace[1..], id, host, trace[0].at, lease, end)
    else RenewsInTime(trace[1..], id, host, last, lease, end)
  }

  /** The steps, other than a lease sweep, that are meant to take a running row from its owner. */
  predicate Takes(s: Run, step: Step, id: JobId) {
    match step
    case Complete(j, _) => j == id
    case Fail(j) => j == id
    case Park(j) => j == id
    case RequeueForRetry(j) => j == id
    case ReclaimForResume(project, beating) => Holds(s, id) && Orphaned(s.rows[id.node], project, beating)
    case RequeueForWorker(host, queue, project) => Holds(s, id) && OwnedBy(s.rows[id.node], host, queue, project)
    case RestartRun => Stopped(s.status)
    case _ => false
  }

  ghost predicate Spared(e: Engine, s: Run, trace: seq<Timed>, id: JobId)
    decreases trace
  {
    trace == [] ||
    (!Takes(s, trace[0].step, id) && Spared(e, Apply(e, s, trace[0].step), trace[1..], id))
  }

  /** Every renewal the owner issues takes effect. */
  ghost predicate AllEffective(e: Engine, s: Run, trace: seq<Timed>, id: JobId, host: string)
    decreases trace
  {
    trace != [] ==>
      && (Issues(trace[0].step, id, host) ==> RenewHits(s, trace[0].step, id))
      && AllEffective(e, Apply(e, s, trace[0].step), trace[1..], id, host)
  }

  /** The time of the last renewal issued. */
  function LastIssued(trace: seq<Timed>, id: JobId, host: string, last: int): int {
    if trace == [] then last
    else LastIssued(trace[1..], id, host, NewLast(trace[0], id, host, last))
  }

  /** A table that only grows keeps the row. */
  lemma {:induction false} GrowthSpares(s: Run, s': Run, id: JobId)
    requires Grows(s.rows, s'.rows) && Holds(s, id)
    ensures Holds(s', id) && s'.rows[id.node] == s.rows[id.node]
  {
  }

  lemma {:induction false} DrainSpares(e: Engine, s: Run, i: nat, id: JobId)
    requires DistinctIds(e.nodes) && Holds(s, id) && s.rows[id.node].status.Running?
    ensures var s' := DrainOne(e, s, i); Holds(s', id) && s'.rows[id.node] == s.rows[id.node]
  {
    if Unprocessed(s, i) && s.events[i].kind.KindCompleted? {
      CompletedHandless(e, s, s.events[i].job.node);
      GrowthSpares(s, DrainOne(e, s, i), id);
    }
  }

  lemma {:induction false} DrainRaisesSpares(e: Engine, s: Run, i: nat, partial: seq<Node>, id: JobId)
    requires DistinctIds(e.nodes) && Holds(s, id)
    ensures var s' := DrainOneRaises(e, s, i, partial); Holds(s', id) && s'.rows[id.node] == s.rows[id.node]
  {
    PartialRows(e, s, partial);
    GrowthSpares(s, DrainOneRaises(e, s, i, partial), id);
  }

  lemma {:induction false} InputSpares(e: Engine, s: Run, node: NodeId, delta: Delta, id: JobId)
    requires DistinctIds(e.nodes) && Holds(s, id) && s.rows[id.node].status.Running?
    ensures var s' := AcceptInput(e, s, node, delta); Holds(s', id) && s'.rows[id.node] == s.rows[id.node]
  {
    if AcceptInput(e, s, node, delta) != s {
      var mid := InputArrived(s, node, delta);
      CompletedHandless(e, mid, node);
      GrowthSpares(mid, OnNodeCompleted(e, mid, node), id);
    }
  }

  lemma {:induction false} ExpandSpares(e: Engine, s: Run, partial: seq<Node>, id: JobId)
    requires DistinctIds(e.nodes) && Holds(s, id)
    ensures var s' := StartRun(e, s); Holds(s', id) && s'.rows[id.node] == s.rows[id.node]
    ensures var s' := StartRunRaises(e, s, partial); Holds(s', id) && s'.rows[id.node] == s.rows[id.node]
  {
    FanOutRows(e, s);
    PartialRows(e, s, partial);
    GrowthSpares(s, StartRun(e, s), id);
    GrowthSpares(s, StartRunRaises(e, s, partial), id);
  }

  lemma {:induction false} CallbackSpares(e: Engine, s: Run, step: Step, id: JobId)
    requires DistinctIds(e.nodes) && Holds(s, id) && s.rows[id.node].status.Running?
    requires step.ExpandRun? || step.ExpandRunRaises? || step.Drain? || step.DrainRaises? || step.ResumeAfterInput?
    ensures var s' := Apply(e, s, step); Holds(s', id) && s'.rows[id.node] == s.rows[id.node]
  {
    match step
    case ExpandRun => ExpandSpares(e, s, [], id);
    case ExpandRunRaises(partial) => ExpandSpares(e, s, partial, id);
    case Drain(i) => DrainSpares(e, s, i, id);
    case DrainRaises(i, partial) => DrainRaisesSpares(e, s, i, partial, id);
    case ResumeAfterInput(node, delta) => InputSpares(e, s, node, delta, id);
  }

  lemma {:induction false} HostSpares(e: Engine, s: Run, step: Step, id: JobId)
    requires Holds(s, id) && s.rows[id.node].status.Running? && !Takes(s, step, id)
    requires step.ReconcileRun? || step.CancelOrphans? || step.RestartRun? || step.EnqueuePatch? || step.ResumeRun?
      || step.CancelRun?
    ensures var s' := Apply(e, s, step); Holds(s', id) && s'.rows[id.node] == s.rows[id.node]
  {
    if step.ReconcileRun? {
      assert AnyLive(s.rows);
    }
  }

  lemma {:induction false} WorkerSpares(e: Engine, s: Run, step: Step, id: JobId)
    requires FreshIds(s) && Holds(s, id) && s.rows[id.node].status.Running? && !Takes(s, step, id)
    requires step.Complete? || step.Fail? || step.Park? || step.RequeueForRetry? || step.Claim?
      || (step.Renew? && !RenewHits(s, step, id))
    ensures var s' := Apply(e, s, step); Holds(s', id) && s'.rows[id.node] == s.rows[id.node]
  {
    match step
    case Complete(j, delta) => assert j.node != id.node || CompleteRow(s, j, delta) == s;
    case Fail(j) => assert j.node != id.node || FailRow(s, j) == s;
    case Park(j) => assert j.node != id.node || ParkRow(s, j).rows == s.rows;
    case RequeueForRetry(j) => assert j.node != id.node || RequeueRow(s, j) == s;
    case Claim(node, host, queue, project, lease) =>
      assert node != id.node || ClaimRow(s, node, host, queue, project, lease) == s;
    case Renew(j, host, lease) => assert j.node != id.node || RenewLease(s, j, host, lease) == s;
  }

  lemma {:induction false} SweepSpares(e: Engine, s: Run, step: Step, id: JobId)
    requires Holds(s, id) && s.rows[id.node].status.Running? && !Takes(s, step, id)
    requires step.ReclaimForResume? || step.RequeueForWorker? ||
      (step.ReclaimExpired? && !Expired(s.rows[id.node], step.now))
    ensures var s' := Apply(e, s, step); Holds(s', id) && s'.rows[id.node] == s.rows[id.node]
  {
  }

  /** A running row that a step neither takes, nor renews, nor finds expired is left exactly as it is. */
  lemma {:induction false} StepSpares(e: Engine, s: Run, step: Step, id: JobId)
    requires DistinctIds(e.nodes) && FreshIds(s) && Holds(s, id) && s.rows[id.node].status.Running?
    requires !Takes(s, step, id) && !RenewHits(s, step, id)
    requires step.ReclaimExpired? ==> !Expired(s.rows[id.node], step.now)
    ensures var s' := Apply(e, s, step); Holds(s', id) && s'.rows[id.node] == s.rows[id.node]
  {
    if step.ExpandRun? || step.ExpandRunRaises? || step.Drain? || step.DrainRaises? || step.ResumeAfterInput? {
      CallbackSpares(e, s, step, id);
    } else if step.ReclaimForResume? || step.RequeueForWorker? || step.ReclaimExpired? {
      SweepSpares(e, s, step, id);
    } else if step.ReconcileRun? || step.CancelOrphans? || step.RestartRun? || step.EnqueuePatch? || step.ResumeRun?
      || step.CancelRun? {
      HostSpares(e, s, step, id);
    } else {
      WorkerSpares(e, s, step, id);
    }
  }

  /** Up to the next renewal, or the end, the clock stays within the lease. */
  lemma {:induction false} ClockWithinLease(trace: seq<Timed>, id: JobId, host: string, start: int, last: int,
                                            lease: nat, end: int)
    requires Clockwise(trace, start, end) && RenewsInTime(trace, id, host, last, lease, end)
    ensures start <= last + lease
    decreases trace
  {
    if trace != [] && !Issues(trace[0].step, id, host) {
      ClockWithinLease(trace[1..], id, host, trace[0].at, last, lease, end);
    }
  }

  /** One step of an attended stretch: a renewal by the owner moves the lease, anything else leaves it. */
  lemma {:induction false} AttendedStep(e: Engine, s: Run, timed: Timed, id: JobId, host: string, last: int, lease: nat)
    requires DistinctIds(e.nodes) && FreshIds(s) && Stamped([timed], lease)
    requires RunsUnder(s, id, host, last + lease) && !Takes(s, timed.step, id) && timed.at <= last + lease
    ensures var s' := Apply(e, s, timed.step);
      RunsUnder(s', id, host, NewLast(timed, id, host, last) + lease)
    ensures Issues(timed.step, id, host) ==> RenewHits(s, timed.step, id)
  {
    assert [timed][0] == timed;
    if !Issues(timed.step, id, host) {
      StepSpares(e, s, timed.step, id);
    }
  }

  /** The owner's last claim or renewal was at `last`, the clock shows `start`, and the stretch ahead is one in
      which it renews in time and no step is meant to take the row. */
  ghost predicate Attended(e: Engine, s: Run, trace: seq<Timed>, id: JobId, host: string,
                           start: int, last: int, lease: nat, end: int) {
    && Stamped(trace, lease) && RunsUnder(s, id, host, last + lease)
    && Clockwise(trace, start, end) && RenewsInTime(trace, id, host, last, lease, end)
    && Spared(e, s, trace, id)
  }

  function NewLast(timed: Timed, id: JobId, host: string, last: int): int {
    if Issues(timed.step, id, host) then timed.at else last
  }

  lemma {:induction false} AttendedAdvances(e: Engine, s: Run, trace: seq<Timed>, id: JobId, host: string,
                                            start: int, last: int, lease: nat, end: int)
    requires DistinctIds(e.nodes) && FreshIds(s) && trace != []
    requires Attended(e, s, trace, id, host, start, last, lease, end)
    ensures Attended(e, Apply(e, s, trace[0].step), trace[1..], id, host, trace[0].at,
                     NewLast(trace[0], id, host, last), lease, end)
    ensures Issues(trace[0].step, id, host) ==> RenewHits(s, trace[0].step, id)
  {
    StampedParts(trace, lease);
    StepInTime(trace, id, host, start, last, lease, end);
    AttendedStep(e, s, trace[0], id, host, last, lease);
  }

  lemma {:induction false} AttendedIsEffective(e: Engine, s: Run, trace: seq<Timed>, id: JobId, host: string,
                                               start: int, last: int, lease: nat, end: int)
    requires DistinctIds(e.nodes) && DepsExist(e.nodes) && Inv(e, s)
    requires Attended(e, s, trace, id, host, start, last, lease, end)
    ensures AllEffective(e, s, trace, id, host)
    decreases trace
  {
    if trace != [] {
      AttendedAdvances(e, s, trace, id, host, start, last, lease, end);
      StepKeepsInv(e, s, trace[0].step);
      AttendedIsEffective(e, Apply(e, s, trace[0].step), trace[1..], id, host, trace[0].at,
                          NewLast(trace[0], id, host, last), lease, end);
    }
  }

  lemma {:induction false} AttendedStays(e: Engine, s: Run, trace: seq<Timed>, id: JobId, host: string,
                                         start: int, last: int, lease: nat, end: int)
    requires DistinctIds(e.nodes) && DepsExist(e.nodes) && Inv(e, s)
    requires Attended(e, s, trace, id, host, start, last, lease, end)
    ensures RunsUnder(Exec(e, s, StepsOf(trace)), id, host, LastIssued(trace, id, host, last) + lease)
    ensures end <= LastIssued(trace, id, host, last) + lease
    decreases trace
  {
    if trace != [] {
      AttendedAdvances(e, s, trace, id, host, start, last, lease, end);
      StepKeepsInv(e, s, trace[0].step);
      AttendedStays(e, Apply(e, s, trace[0].step), trace[1..], id, host, trace[0].at,
                    NewLast(trace[0], id, host, last), lease, end);
      ExecFirst(e, s, trace);
    }
  }

  /** An owner whose claim and renewals are never more than `lease` apart keeps its row: whatever else happens
      on the broker, lease sweeps at any time included, every renewal takes effect and at the end the row runs
      under that owner with a lease that has not lapsed. */
  lemma {:induction false} AttendedRowKeepsRunning(e: Engine, s: Run, trace: seq<Timed>, id: JobId, host: string,
                                                   start: int, last: int, lease: nat, end: int)
    requires DistinctIds(e.nodes) && DepsExist(e.nodes) && Inv(e, s)
    requires Attended(e, s, trace, id, host, start, last, lease, end)
    ensures AllEffective(e, s, trace, id, host)
    ensures RunsUnder(Exec(e, s, StepsOf(trace)), id, host, LastIssued(trace, id, host, last) + lease)
    ensures end <= LastIssued(trace, id, host, last) + lease
  {
    AttendedIsEffective(e, s, trace, id, host, start, last, lease, end);
    AttendedStays(e, s, trace, id, host, start, last, lease, end);
  }

  lemma {:induction false} StepInTime(trace: seq<Timed>, id: JobId, host: string, start: int, last: int, lease: nat,
                                      end: int)
    requires trace != [] && Clockwise(trace, start, end) && RenewsInTime(trace, id, host, last, lease, end)
    ensures trace[0].at <= last + lease
  {
    if !Issues(trace[0].step, id, host) {
      ClockWithinLease(trace[1..], id, host, trace[0].at, last, lease, end);
    }
  }

  lemma {:induction false} ExecFirst(e: Engine, s: Run, trace: seq<Timed>)
    requires trace != []
    ensures Exec(e, s, StepsOf(trace)) == Exec(e, Apply(e, s, trace[0].step), StepsOf(trace[1..]))
  {
    assert StepsOf(trace)[1..] == StepsOf(trace[1..]);
  }

  lemma {:induction false} StampedParts(trace: seq<Timed>, lease: nat)
    requires trace != [] && Stamped(trace, lease)
    ensures Stamped([trace[0]], lease) && Stamped(trace[1..], lease)
  {
    assert forall i :: 0 <= i < |trace[1..]| ==> trace[1..][i] == trace[i + 1];
  }

  // --------------------------------------------------------- void renewals

  /** A renewal by a host that does not own the row when the statement runs. */
  predicate VoidRenewal(s: Run, step: Step) {
    step.Renew? && !RenewHits(s, step, step.id)
  }

  /** The history without its void renewals. */
  function WithoutVoid(e: Engine, s: Run, steps: seq<Step>): seq<Step>
    decreases steps
  {
    if steps == [] then []
    else (if VoidRenewal(s, steps[0]) then [] else [steps[0]]) + WithoutVoid(e, Apply(e, s, steps[0]), steps[1..])
  }

  /** Renewals by displaced hosts, interleaved with anything at all, leave no trace: striking them out of a
      history changes no state it reaches. So they never extend a lease that another host holds. */
  lemma {:induction false} DisplacedRenewalsAreVoid(e: Engine, s: Run, steps: seq<Step>)
    ensures Exec(e, s, steps) == Exec(e, s, WithoutVoid(e, s, steps))
    decreases steps
  {
    if steps != [] {
      var rest := WithoutVoid(e, Apply(e, s, steps[0]), steps[1..]);
      DisplacedRenewalsAreVoid(e, Apply(e, s, steps[0]), steps[1..]);
      if VoidRenewal(s, steps[0]) {
        assert Apply(e, s, steps[0]) == s;
        assert [] + rest == rest;
      } else {
        assert ([steps[0]] + rest)[1..] == rest;
      }
    }
  }
}
