/** No reachable state is a trap: queued rows can be claimed and finished, and whatever has happened to a run,
    some continuation completes it. */
module Progress {
  import opened Options
  import opened Workflow
  import opened Expansion
  import opened Dispatcher
  import opened Protocol
  import opened ProtocolInvariant
  import opened Guarantees
  import opened Routing
  import opened StatementContract
  import opened CallbackContract
  import opened FiniteSets

  /** `host` runs the row of node `k`, which is otherwise as it was in `s`; so is the rest of the run. */
  ghost predicate RunsUnder(s: Run, s': Run, k: NodeId, host: string, lease: int) {
    && k in s.rows
    && s'.rows == s.rows[k := s.rows[k].(status := Running, claimedBy := Some(host), lease := Some(lease))]
    && s' == s.(rows := s'.rows, handed := s.handed + {s.rows[k].id})
  }

  /** In every reachable run that is neither cancelled nor failed, any host that asks for the queue and project
      of a queued row is given it, and then runs it. */
  lemma {:induction false} QueuedRowIsHandedOut(e: Engine, s: Run, k: NodeId, host: string, lease: int)
    requires DistinctIds(e.nodes) && DepsExist(e.nodes) && Reachable(e, s)
    requires s.status != RunCancelled && s.status != RunFailed
    requires k in s.rows && s.rows[k].status == Queued
    ensures RunsUnder(s, Apply(e, s, Claim(k, host, s.rows[k].queue, s.rows[k].project, lease)), k, host, lease)
  {
    ReachableInv(e, s);
    ClaimedRow(e, s, k, host, lease);
  }

  lemma {:induction false} ClaimedRow(e: Engine, s: Run, k: NodeId, host: string, lease: int)
    requires FreshIds(s) && s.status != RunCancelled && s.status != RunFailed
    requires k in s.rows && s.rows[k].status == Queued
    ensures RunsUnder(s, Apply(e, s, Claim(k, host, s.rows[k].queue, s.rows[k].project, lease)), k, host, lease)
  {
    var step := Claim(k, host, s.rows[k].queue, s.rows[k].project, lease);
    StatementsKeepTheirPromise(e, s, step);
    var s' := Apply(e, s, step);
    forall j | j in s.rows && j != k
      ensures s'.rows[j] == s.rows[j]
    {
      assert s.rows[j].id.node == j;
    }
  }

  /** In particular a queued workflow node is there for whoever asks for the run's project on the queue the node
      declares. */
  lemma {:induction false} QueuedNodeIsHandedOut(e: Engine, s: Run, n: Node, host: string, lease: int)
    requires DistinctIds(e.nodes) && DepsExist(e.nodes) && Reachable(e, s)
    requires s.status != RunCancelled && s.status != RunFailed
    requires n in e.nodes && n.id in s.rows && s.rows[n.id].status == Queued
    ensures var queue := if n.gpu && !n.input then Gpu else Cpu;
      RunsUnder(s, Apply(e, s, Claim(n.id, host, queue, s.project, lease)), n.id, host, lease)
  {
    ReachableRouted(e, s);
    assert FitsIts(e, s.project, n.id, s.rows[n.id]);
    QueuedRowIsHandedOut(e, s, n.id, host, lease);
  }

  /** What a worker hands in when it completes an unfinished row is in that row ever after, for every later
      fan-out to read. */
  lemma {:induction false} ResultIsKept(e: Engine, s: Run, k: NodeId, delta: Delta, later: seq<Step>)
    requires DistinctIds(e.nodes) && DepsExist(e.nodes) && Reachable(e, s)
    requires k in s.rows && s.rows[k].id in s.handed && s.rows[k].status !in {Completed, Failed, Cancelled}
    ensures var end := Exec(e, Apply(e, s, Complete(s.rows[k].id, delta)), later);
      k in end.rows && end.rows[k] == s.rows[k].(status := Completed, delta := delta)
  {
    ReachableInv(e, s);
    var mark := Complete(s.rows[k].id, delta);
    StatementsKeepTheirPromise(e, s, mark);
    StepKeepsInv(e, s, mark);
    FinishedRowStays(e, Apply(e, s, mark), k, later);
  }

  lemma {:induction false} FinishedRowStays(e: Engine, s: Run, k: NodeId, later: seq<Step>)
    requires DistinctIds(e.nodes) && DepsExist(e.nodes) && Inv(e, s) && k in s.rows && s.rows[k].status == Completed
    ensures k in Exec(e, s, later).rows && Exec(e, s, later).rows[k] == s.rows[k]
  {
    ExecKeepsInv(e, s, later);
    assert RowAdvances(s, Exec(e, s, later), k);
  }

  // ------------------------------------------------------- finishing one row

  predicate Active(st: RunStatus) {
    st == RunQueued || st == RunRunning
  }

  /** What a healthy system does: claim, complete, retry, answer inputs, reconcile. */
  predicate Ordinary(step: Step) {
    step.Claim? || step.Complete? || step.RequeueForRetry? || step.ResumeAfterInput? || step.ReconcileRun?
  }

  ghost predicate AllOrdinary(steps: seq<Step>) {
    forall step :: step in steps ==> Ordinary(step)
  }

  /** Row `k` is completed, the other rows are as before, and what is new belongs to workflow nodes. */
  ghost predicate Finishes(e: Engine, s: Run, s': Run, k: NodeId) {
    && k in s'.rows && s'.rows[k].status == Completed && (Active(s'.status) || s'.status == RunCompleted)
    && (forall j :: j in s.rows && j != k ==> j in s'.rows && s'.rows[j] == s.rows[j])
    && (forall j :: j in s'.rows && j !in s.rows ==> HasId(e.nodes, j))
  }

  lemma {:induction false} ExecConcat(e: Engine, s: Run, a: seq<Step>, b: seq<Step>)
    ensures Exec(e, s, a + b) == Exec(e, Exec(e, s, a), b)
    decreases a
  {
    if a == [] {
      assert a + b == b;
    } else {
      assert (a + b)[1..] == a[1..] + b;
      ExecConcat(e, Apply(e, s, a[0]), a[1..], b);
    }
  }

  lemma {:induction false} ExecOne(e: Engine, s: Run, step: Step)
    ensures Exec(e, s, [step]) == Apply(e, s, step)
  {
    assert [step][1..] == [];
  }

  /** A row that was claimed can be completed. */
  lemma {:induction false} CompletedRow(e: Engine, s: Run, k: NodeId)
    requires FreshIds(s) && Active(s.status) && k in s.rows && s.rows[k].status == Running && s.rows[k].id in s.handed
    ensures Finishes(e, s, Apply(e, s, Complete(s.rows[k].id, map[])), k)
  {
    StatementsKeepTheirPromise(e, s, Complete(s.rows[k].id, map[]));
  }

  lemma {:induction false} FinishQueued(e: Engine, s: Run, k: NodeId) returns (steps: seq<Step>)
    requires FreshIds(s) && Active(s.status) && k in s.rows && s.rows[k].status == Queued
    ensures AllOrdinary(steps) && Finishes(e, s, Exec(e, s, steps), k)
  {
    var claim := Claim(k, "host", s.rows[k].queue, s.rows[k].project, 0);
    ClaimedRow(e, s, k, "host", 0);
    var s1 := Apply(e, s, claim);
    var mark := Complete(s1.rows[k].id, map[]);
    CompletedRow(e, s1, k);
    FinishesAfter(e, s, s1, Apply(e, s1, mark), k);
    steps := [claim] + [mark];
    ExecOne(e, s, claim);
    ExecOne(e, s1, mark);
    ExecConcat(e, s, [claim], [mark]);
  }

  /** A step in between that touches the same row only does not matter. */
  lemma {:induction false} FinishesAfter(e: Engine, s: Run, s1: Run, s2: Run, k: NodeId)
    requires Finishes(e, s1, s2, k) && s1.rows.Keys == s.rows.Keys
    requires forall j :: j in s.rows && j != k ==> s1.rows[j] == s.rows[j]
    ensures Finishes(e, s, s2, k)
  {
  }

  lemma {:induction false} RetriedRow(e: Engine, s: Run, k: NodeId)
    requires FreshIds(s) && k in s.rows && s.rows[k].status == Running
    ensures var s' := Apply(e, s, RequeueForRetry(s.rows[k].id));
      && FreshIds(s') && s'.status == s.status && s'.rows.Keys == s.rows.Keys && s'.rows[k].status == Queued
      && forall j :: j in s.rows && j != k ==> s'.rows[j] == s.rows[j]
  {
    StatementsKeepTheirPromise(e, s, RequeueForRetry(s.rows[k].id));
  }

  lemma {:induction false} FinishRunning(e: Engine, s: Run, k: NodeId) returns (steps: seq<Step>)
    requires FreshIds(s) && Active(s.status) && k in s.rows && s.rows[k].status == Running
    ensures AllOrdinary(steps) && Finishes(e, s, Exec(e, s, steps), k)
  {
    var retry := RequeueForRetry(s.rows[k].id);
    RetriedRow(e, s, k);
    ExecOne(e, s, retry);
    var rest := FinishQueued(e, Apply(e, s, retry), k);
    FinishesAfter(e, s, Apply(e, s, retry), Exec(e, Apply(e, s, retry), rest), k);
    steps := [retry] + rest;
    ExecConcat(e, s, [retry], rest);
  }

  lemma {:induction false} FinishAwaiting(e: Engine, s: Run, k: NodeId)
    requires DistinctIds(e.nodes) && Active(s.status) && k in s.rows && s.rows[k].status == AwaitingInput
    ensures Finishes(e, s, AcceptInput(e, s, k, map[]), k)
  {
    SubmissionKept(e, s, k, map[]);
    SubmissionFinishes(e, s, AcceptInput(e, s, k, map[]), k);
  }

  lemma {:induction false} ExecSubmission(e: Engine, s: Run, k: NodeId)
    ensures Exec(e, s, [ResumeAfterInput(k, map[])]) == AcceptInput(e, s, k, map[])
  {
    ExecOne(e, s, ResumeAfterInput(k, map[]));
  }

  lemma {:induction false} SubmissionFinishes(e: Engine, s: Run, s': Run, k: NodeId)
    requires Submission(e, s, k, map[], s') && Active(s.status) && k in s.rows && s.rows[k].status == AwaitingInput
    ensures Finishes(e, s, s', k)
  {
    var mid := s.(rows := s.rows[k := s.rows[k].(status := Completed, delta := map[])]);
    CompletionFinishes(e, mid, s', k);
    FinishesAfter(e, s, mid, s', k);
  }

  lemma {:induction false} CompletionFinishes(e: Engine, s: Run, s': Run, k: NodeId)
    requires Completion(e, s, k, s') && Active(s.status) && k in s.rows && s.rows[k].status == Completed
    ensures Finishes(e, s, s', k)
  {
  }

  /** Every live row of an active run can be finished. */
  lemma {:induction false} FinishRow(e: Engine, s: Run, k: NodeId) returns (steps: seq<Step>)
    requires DistinctIds(e.nodes) && FreshIds(s) && Active(s.status) && k in s.rows && Live(s.rows[k].status)
    ensures AllOrdinary(steps) && Finishes(e, s, Exec(e, s, steps), k)
  {
    match s.rows[k].status
    case Queued => steps := FinishQueued(e, s, k);
    case Running => steps := FinishRunning(e, s, k);
    case AwaitingInput =>
      FinishAwaiting(e, s, k);
      steps := [ResumeAfterInput(k, map[])];
      ExecSubmission(e, s, k);
  }

  // ---------------------------------------------------------- finishing a run

  ghost function Undone(e: Engine, s: Run): set<NodeId> {
    set n | n in e.nodes && !Satisfied(s.rows, n.id) :: n.id
  }

  /** Live rows outside the DAG. */
  ghost function Loose(e: Engine, s: Run): set<NodeId> {
    set k | k in s.rows && Live(s.rows[k].status) && !HasId(e.nodes, k)
  }

  /** Nothing that was finished is undone by any history. */
  lemma {:induction false} UndoneShrinks(e: Engine, s: Run, s': Run)
    requires Advance(s, s')
    ensures Undone(e, s') <= Undone(e, s) && |Undone(e, s')| <= |Undone(e, s)|
  {
    forall n | n in e.nodes && !Satisfied(s'.rows, n.id)
      ensures !Satisfied(s.rows, n.id)
    {
      if n.id in s.rows {
        assert RowAdvances(s, s', n.id);
      }
    }
    SubsetSize(Undone(e, s'), Undone(e, s));
  }

  lemma {:induction false} NodeIsUndone(e: Engine, s: Run, k: NodeId)
    requires HasId(e.nodes, k) && k in s.rows && Live(s.rows[k].status)
    ensures k in Undone(e, s)
  {
    var n :| n in e.nodes && n.id == k;
    assert !Satisfied(s.rows, n.id);
  }

  /** Finishing a row brings the run closer to its end. */
  lemma {:induction false} CloserToTheEnd(e: Engine, s: Run, s': Run, k: NodeId)
    requires Advance(s, s') && Finishes(e, s, s', k) && k in s.rows && Live(s.rows[k].status)
    ensures HasId(e.nodes, k) ==> |Undone(e, s')| < |Undone(e, s)|
    ensures !HasId(e.nodes, k) ==> |Undone(e, s')| <= |Undone(e, s)| && |Loose(e, s')| < |Loose(e, s)|
  {
    UndoneShrinks(e, s, s');
    if HasId(e.nodes, k) {
      NodeIsUndone(e, s, k);
      assert k !in Undone(e, s');
      SubsetSize(Undone(e, s'), Undone(e, s));
    } else {
      assert k in Loose(e, s) && k !in Loose(e, s');
      assert Loose(e, s') <= Loose(e, s);
      SubsetSize(Loose(e, s'), Loose(e, s));
    }
  }

  /** Everything live belongs to the workflow. */
  ghost predicate LiveInside(e: Engine, s: Run) {
    forall k :: k in s.rows && Live(s.rows[k].status) ==> HasId(e.nodes, k)
  }

  ghost predicate OnTrack(e: Engine, s: Run) {
    LiveInside(e, s) && (Active(s.status) || s.status == RunCompleted)
  }

  lemma {:induction false} ReconcileOnTrack(e: Engine, s: Run)
    requires WellFormed(e.nodes) && OnTrack(e, s)
    ensures OnTrack(e, Reconcile(e, s).0)
  {
    ReconcileNeverFails(e, s);
    ReconcileKept(e, s);
  }

  lemma {:induction false} TimesKeep(e: Engine, s: Run, k: nat, p: Run -> bool)
    requires p(s) && forall r :: p(r) ==> p(Reconcile(e, r).0)
    ensures p(ReconcileTimes(e, s, k))
    decreases k
  {
    if k > 0 {
      TimesKeep(e, Reconcile(e, s).0, k - 1, p);
    }
  }

  lemma {:induction false} TimesOnTrack(e: Engine, s: Run, k: nat)
    requires WellFormed(e.nodes) && OnTrack(e, s)
    ensures OnTrack(e, ReconcileTimes(e, s, k))
  {
    forall r | OnTrack(e, r)
      ensures OnTrack(e, Reconcile(e, r).0)
    {
      ReconcileOnTrack(e, r);
    }
    TimesKeep(e, s, k, r => OnTrack(e, r));
  }

  function Sweeps(k: nat): seq<Step> {
    if k == 0 then [] else [ReconcileRun] + Sweeps(k - 1)
  }

  lemma {:induction false} SweepFirst(e: Engine, s: Run, rest: seq<Step>)
    ensures Exec(e, s, [ReconcileRun] + rest) == Exec(e, Reconcile(e, s).0, rest)
  {
    assert ([ReconcileRun] + rest)[1..] == rest;
  }

  lemma {:induction false} OrdinarySweeps(k: nat)
    ensures AllOrdinary(Sweeps(k))
  {
    if k > 0 {
      OrdinarySweeps(k - 1);
    }
  }

  lemma {:induction false} ExecSweeps(e: Engine, s: Run, k: nat)
    ensures Exec(e, s, Sweeps(k)) == ReconcileTimes(e, s, k)
    decreases k
  {
    if k > 0 {
      SweepFirst(e, s, Sweeps(k - 1));
      ExecSweeps(e, Reconcile(e, s).0, k - 1);
    }
  }

  lemma {:induction false} FinishActive(e: Engine, s: Run) returns (steps: seq<Step>)
    requires WellFormed(e.nodes) && Inv(e, s) && (Active(s.status) || s.status == RunCompleted)
    ensures AllOrdinary(steps) && Exec(e, s, steps).status == RunCompleted
    decreases |Undone(e, s)|, |Loose(e, s)|
  {
    if s.status == RunCompleted {
      steps := [];
    } else {
      var first: seq<Step> := [];
      if !AnyLive(s.rows) {
        ReconcileConverges(e, s);
        first := Sweeps(3);
        ExecSweeps(e, s, 3);
        OrdinarySweeps(3);
        TimesOnTrack(e, s, 3);
      }
      var s1 := Exec(e, s, first);
      ExecKeepsInv(e, s, first);
      UndoneShrinks(e, s, s1);
      if s1.status == RunCompleted {
        steps := first;
      } else {
        var k :| k in s1.rows && Live(s1.rows[k].status);
        var second := FinishRow(e, s1, k);
        var s2 := Exec(e, s1, second);
        ExecKeepsInv(e, s1, second);
        CloserToTheEnd(e, s1, s2, k);
        var rest := FinishActive(e, s2);
        steps := first + (second + rest);
        ExecConcat(e, s1, second, rest);
        ExecConcat(e, s, first, second + rest);
      }
    }
  }

  /** From every reachable state of a run that is queued or running, lost events, dead rows, displaced workers
      and raised callbacks notwithstanding, some history of ordinary steps completes the run. */
  lemma {:induction false} ActiveRunsCanComplete(e: Engine, s: Run) returns (steps: seq<Step>)
    requires WellFormed(e.nodes) && Reachable(e, s) && (s.status == RunQueued || s.status == RunRunning)
    ensures AllOrdinary(steps)
    ensures var end := Exec(e, s, steps); end.status == RunCompleted && AllFinished(e.nodes, end.rows)
  {
    ReachableInv(e, s);
    steps := FinishActive(e, s);
    ExecKeepsInv(e, s, steps);
    FinishedIsDone(e.nodes, Exec(e, s, steps).rows);
  }

  /** A stopped run can complete, too, once the host restarts it. */
  lemma {:induction false} StoppedRunsCanComplete(e: Engine, s: Run) returns (steps: seq<Step>)
    requires WellFormed(e.nodes) && Reachable(e, s) && (s.status == RunFailed || s.status == RunCancelled)
    ensures AllOrdinary(steps)
    ensures var end := Exec(e, Apply(e, s, RestartRun), steps);
      end.status == RunCompleted && AllFinished(e.nodes, end.rows)
  {
    ReachableStep(e, s, RestartRun);
    CallbacksKeepTheirContract(e, s, RestartRun);
    steps := ActiveRunsCanComplete(e, Apply(e, s, RestartRun));
  }
}
