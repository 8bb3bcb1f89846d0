/** What the protocol promises over every history of a run. */
module Guarantees {
  import opened Options
  import opened Workflow
  import opened Expansion
  import opened Dispatcher
  import opened Protocol
  import opened ProtocolInvariant

  /** A run as some history leaves it. */
  ghost predicate Reachable(e: Engine, s: Run) {
    exists project, priority, context, steps :: s == Exec(e, Init(project, priority, context), steps)
  }

  lemma {:induction false} ReachableStep(e: Engine, s: Run, step: Step)
    requires Reachable(e, s)
    ensures Reachable(e, Apply(e, s, step))
  {
    var project, priority, context, steps :| s == Exec(e, Init(project, priority, context), steps);
    ExecAppend(e, Init(project, priority, context), steps, step);
    assert Apply(e, s, step) == Exec(e, Init(project, priority, context), steps + [step]);
  }

  lemma {:induction false} ExecAppend(e: Engine, s: Run, steps: seq<Step>, step: Step)
    ensures Exec(e, s, steps + [step]) == Apply(e, Exec(e, s, steps), step)
    decreases steps
  {
    if steps != [] {
      assert (steps + [step])[1..] == steps[1..] + [step];
      ExecAppend(e, Apply(e, s, steps[0]), steps[1..], step);
    } else {
      assert [step][1..] == [];
    }
  }

  lemma {:induction false} ReachableInv(e: Engine, s: Run)
    requires DistinctIds(e.nodes) && DepsExist(e.nodes) && Reachable(e, s)
    ensures Inv(e, s)
  {
    var project, priority, context, steps :| s == Exec(e, Init(project, priority, context), steps);
    InitInv(e, project, priority, context);
    ExecKeepsInv(e, Init(project, priority, context), steps);
  }

  // ---------------------------------------------------------- DAG guarantees

  lemma {:induction false} NoDeadlock(e: Engine, s: Run)
    requires WellFormed(e.nodes) && Inv(e, s) && s.expanded && !Stopped(s.status)
    requires forall i :: 0 <= i < |s.events| ==> s.events[i].processed
    requires forall k :: k in s.rows ==> !s.rows[k].status.Failed? && !s.rows[k].status.Cancelled?
    ensures AnyLive(s.rows) || AllDone(e.nodes, s.rows)
  {
    if !AnyLive(s.rows) {
      forall k | k in s.rows
        ensures Done(s.rows[k].status)
      {
        NotLive(s.rows, k);
      }
      ClosedAndDoneIsAllDone(e.nodes, s.rows);
    }
  }

  /** Deadlock freedom: an expanded, active run with a drained outbox and no dead row either has work
      someone can act on or is finished. */
  lemma {:induction false} DeadlockFreedom(e: Engine, s: Run)
    requires WellFormed(e.nodes) && Reachable(e, s)
    requires s.expanded && !Stopped(s.status)
    requires forall i :: 0 <= i < |s.events| ==> s.events[i].processed
    requires forall k :: k in s.rows ==> !s.rows[k].status.Failed? && !s.rows[k].status.Cancelled?
    ensures AnyLive(s.rows) || AllDone(e.nodes, s.rows)
  {
    ReachableInv(e, s);
    NoDeadlock(e, s);
  }

  /** Dependency safety: a workflow node has a row only once all its dependencies are finished, and
      they stay finished. */
  lemma {:induction false} DependencySafety(e: Engine, s: Run, later: seq<Step>, n: Node, d: NodeId)
    requires DistinctIds(e.nodes) && DepsExist(e.nodes) && Reachable(e, s)
    requires n in e.nodes && n.id in s.rows && d in n.deps
    ensures Satisfied(s.rows, d)
    ensures Satisfied(Exec(e, s, later).rows, d) && Exec(e, s, later).rows[d] == s.rows[d]
  {
    ReachableInv(e, s);
    ExecKeepsInv(e, s, later);
    assert Satisfied(s.rows, d);
    assert RowAdvances(s, Exec(e, s, later), d);
  }

  /** A run that was flipped to completed has every node finished, now and after any later history. */
  lemma {:induction false} CompletedMeansDone(e: Engine, s: Run, later: seq<Step>)
    requires DistinctIds(e.nodes) && DepsExist(e.nodes) && Reachable(e, s)
    requires s.status.RunCompleted?
    ensures AllDone(e.nodes, s.rows) && AllDone(e.nodes, Exec(e, s, later).rows)
  {
    ReachableInv(e, s);
    ExecKeepsInv(e, s, later);
    AdvanceKeepsAllDone(e, s, Exec(e, s, later));
  }

  lemma {:induction false} DrainOnCompleted(e: Engine, s: Run, i: nat)
    requires s.status.RunCompleted?
    ensures DrainOne(e, s, i).status.RunCompleted? || DrainOne(e, s, i).status.RunFailed?
    ensures DrainOne(e, s, i).status.RunFailed? <==>
      Unprocessed(s, i) && s.events[i].kind.KindFailed? && !IsPatch(s.rows, s.events[i].job.node)
  {
  }

  lemma {:induction false} OtherStepOnCompleted(e: Engine, s: Run, step: Step)
    requires s.status.RunCompleted? && !step.Drain?
    ensures Apply(e, s, step).status.RunCompleted?
  {
    match step
    case DrainRaises(i, partial) => assert DrainOneRaises(e, s, i, partial).status.RunCompleted?;
    case ResumeAfterInput(node, delta) => assert AcceptInput(e, s, node, delta).status.RunCompleted?;
    case _ =>
  }

  /** An unprocessed `failed` event that no patch row of the run absorbs: its row belongs to a workflow node,
      or was a patch row and has since been deleted. */
  predicate Fuse(s: Run, i: nat) {
    Unprocessed(s, i) && s.events[i].kind.KindFailed? && !IsPatch(s.rows, s.events[i].job.node)
  }

  lemma {:induction false} CompletedStepFate(e: Engine, s: Run, step: Step)
    requires s.status.RunCompleted?
    ensures !Apply(e, s, step).status.RunCompleted? <==> step.Drain? && Fuse(s, step.event)
  {
    if step.Drain? {
      DrainOnCompleted(e, s, step.event);
    } else {
      OtherStepOnCompleted(e, s, step);
    }
  }

  /** Rows stay and keep their patch flag, processed events stay processed, and no `failed` event is new. */
  ghost predicate LightsNoFuse(s: Run, s': Run) {
    && (forall k :: k in s.rows ==> k in s'.rows && s'.rows[k].patch == s.rows[k].patch)
    && |s.events| <= |s'.events|
    && (forall i :: 0 <= i < |s.events| ==>
          && s'.events[i].job == s.events[i].job && s'.events[i].kind == s.events[i].kind
          && (s.events[i].processed ==> s'.events[i].processed))
    && (forall i :: |s.events| <= i < |s'.events| ==> !s'.events[i].kind.KindFailed?)
  }

  ghost predicate NoFuse(s: Run) {
    forall i :: 0 <= i < |s.events| ==> !Fuse(s, i)
  }

  lemma {:induction false} NoFuseKept(s: Run, s': Run)
    requires NoFuse(s) && LightsNoFuse(s, s')
    ensures NoFuse(s')
  {
    forall i | 0 <= i < |s'.events|
      ensures !Fuse(s', i)
    {
      if i < |s.events| {
        assert !Fuse(s, i);
      }
    }
  }

  lemma {:induction false} GrowsLightsNoFuse(s: Run, s': Run)
    requires Grows(s.rows, s'.rows) && |s'.events| == |s.events|
    requires forall i :: 0 <= i < |s.events| ==>
      && s'.events[i].job == s.events[i].job && s'.events[i].kind == s.events[i].kind
      && (s.events[i].processed ==> s'.events[i].processed)
    ensures LightsNoFuse(s, s')
  {
  }

  lemma {:induction false} LightsNoFuseTransitive(a: Run, b: Run, c: Run)
    requires LightsNoFuse(a, b) && LightsNoFuse(b, c)
    ensures LightsNoFuse(a, c)
  {
  }

  lemma {:induction false} DrainLightsNoFuse(e: Engine, s: Run, i: nat)
    requires DistinctIds(e.nodes) && s.status.RunCompleted? && !Fuse(s, i)
    ensures LightsNoFuse(s, DrainOne(e, s, i))
  {
    if Unprocessed(s, i) {
      CompletedHandless(e, s, s.events[i].job.node);
      GrowsLightsNoFuse(s, DrainOne(e, s, i));
    }
  }

  lemma {:induction false} DrainRaisesLightsNoFuse(e: Engine, s: Run, i: nat, partial: seq<Node>)
    requires DistinctIds(e.nodes)
    ensures LightsNoFuse(s, DrainOneRaises(e, s, i, partial))
  {
    if Unprocessed(s, i) {
      PartialRows(e, s, partial);
      GrowsLightsNoFuse(s, DrainOneRaises(e, s, i, partial));
    }
  }

  lemma {:induction false} InputLightsNoFuse(e: Engine, s: Run, node: NodeId, delta: Delta)
    requires DistinctIds(e.nodes)
    ensures LightsNoFuse(s, AcceptInput(e, s, node, delta))
  {
    if node in s.rows {
      var mid := InputArrived(s, node, delta);
      CompletedHandless(e, mid, node);
      GrowsLightsNoFuse(mid, OnNodeCompleted(e, mid, node));
      assert LightsNoFuse(s, mid);
      LightsNoFuseTransitive(s, mid, OnNodeCompleted(e, mid, node));
    }
  }

  lemma {:induction false} EmitLightsNoFuse(s: Run, id: JobId, row: Row, kind: Kind)
    requires id.node in s.rows && row.patch == s.rows[id.node].patch && !kind.KindFailed?
    ensures LightsNoFuse(s, Emit(WithRow(s, id, row), id, kind)) && LightsNoFuse(s, Emit(s, id, kind))
  {
  }

  lemma {:induction false} CompleteLightsNoFuse(s: Run, id: JobId, delta: Delta)
    ensures LightsNoFuse(s, CompleteRow(s, id, delta))
  {
    if Markable(s, id) {
      EmitLightsNoFuse(s, id, s.rows[id.node].(status := Completed, delta := delta), KindCompleted);
    }
  }

  lemma {:induction false} ParkLightsNoFuse(s: Run, id: JobId)
    ensures LightsNoFuse(s, ParkRow(s, id))
  {
    if Markable(s, id) {
      EmitLightsNoFuse(s, id, s.rows[id.node].(status := AwaitingInput), KindAwaiting);
    }
  }

  lemma {:induction false} QuietLightsNoFuse(s: Run, s': Run)
    requires Quiet(s, s')
    ensures LightsNoFuse(s, s')
  {
  }

  lemma {:induction false} AllDoneCovers(nodes: seq<Node>, t: Table, k: NodeId)
    requires AllDone(nodes, t)
    ensures HasId(nodes, k) ==> Satisfied(t, k)
  {
  }

  /** In a completed run only patch rows are left to fail, and their events are absorbed. */
  lemma {:induction false} FailOnCompleted(e: Engine, s: Run, id: JobId)
    requires Inv(e, s) && s.status.RunCompleted? && NoFuse(s)
    ensures NoFuse(FailRow(s, id))
  {
    if Markable(s, id) {
      var s' := FailRow(s, id);
      AllDoneCovers(e.nodes, s.rows, id.node);
      assert s.rows[id.node].patch;
      forall i | 0 <= i < |s'.events|
        ensures !Fuse(s', i)
      {
        if i < |s.events| {
          assert s'.events[i] == s.events[i] && !Fuse(s, i);
        }
      }
    }
  }

  lemma {:induction false} CompletedKeepsNoFuse(e: Engine, s: Run, step: Step)
    requires DistinctIds(e.nodes) && Inv(e, s) && s.status.RunCompleted? && NoFuse(s)
    ensures NoFuse(Apply(e, s, step))
  {
    var s' := Apply(e, s, step);
    if IsQuiet(step) {
      QuietStep(e, s, step);
      QuietLightsNoFuse(s, s');
      NoFuseKept(s, s');
    } else if step.Fail? {
      FailOnCompleted(e, s, step.id);
    } else {
      match step
      case Drain(i) =>
        assert !Fuse(s, i);
        DrainLightsNoFuse(e, s, i);
        NoFuseKept(s, s');
      case DrainRaises(i, partial) =>
        DrainRaisesLightsNoFuse(e, s, i, partial);
        NoFuseKept(s, s');
      case Complete(id, delta) =>
        CompleteLightsNoFuse(s, id, delta);
        NoFuseKept(s, s');
      case Park(id) =>
        ParkLightsNoFuse(s, id);
        NoFuseKept(s, s');
      case ResumeAfterInput(node, delta) =>
        InputLightsNoFuse(e, s, node, delta);
        NoFuseKept(s, s');
      case EnqueuePatch(node, queue, project) =>
        NoFuseKept(s, s');
      case ExpandRun => assert s' == s;
      case ExpandRunRaises(_) => assert s' == s;
      case RestartRun => assert s' == s;
      case ReconcileRun => assert s' == s;
    }
  }

  lemma {:induction false} CompletedForGood(e: Engine, s: Run, later: seq<Step>)
    requires DistinctIds(e.nodes) && DepsExist(e.nodes) && Inv(e, s) && s.status.RunCompleted? && NoFuse(s)
    ensures Exec(e, s, later).status.RunCompleted?
    decreases later
  {
    if later != [] {
      CompletedStepFate(e, s, later[0]);
      StepKeepsInv(e, s, later[0]);
      CompletedKeepsNoFuse(e, s, later[0]);
      CompletedForGood(e, Apply(e, s, later[0]), later[1..]);
    }
  }

  predicate LeavesCompleted(e: Engine, s: Run, later: seq<Step>) {
    !Exec(e, s, later).status.RunCompleted?
  }

  /** The run status itself is not absorbing. A completed run, as any history leaves it, can still lose that
      status in some later history if and only if one of its unprocessed `failed` events is a fuse now. */
  lemma {:induction false} CompletedStatusFate(e: Engine, s: Run)
    requires DistinctIds(e.nodes) && DepsExist(e.nodes) && Reachable(e, s) && s.status.RunCompleted?
    ensures (exists later :: LeavesCompleted(e, s, later)) <==> exists i :: 0 <= i < |s.events| && Fuse(s, i)
  {
    ReachableInv(e, s);
    if i :| 0 <= i < |s.events| && Fuse(s, i) {
      CompletedStepFate(e, s, Drain(i));
      var later := [Drain(i)];
      assert later[1..] == [];
      assert Exec(e, s, later) == Exec(e, Apply(e, s, later[0]), later[1..]) == Apply(e, s, Drain(i));
      assert LeavesCompleted(e, s, later);
    } else {
      forall later
        ensures !LeavesCompleted(e, s, later)
      {
        CompletedForGood(e, s, later);
      }
    }
  }

  /** The fan-out of a one-node workflow, spelled out. */
  lemma {:induction false} SingleNodeFanOut(e: Engine, s: Run, n: Node)
    requires e.nodes == [n] && n.deps == [] && n.skipIf.None? && n.id !in s.rows
    ensures FanOut(e, s).rows == s.rows[n.id := NewRow(ScopeOf(e, s), n, s.rows)]
    ensures FanOut(e, s).rows[n.id].status.Queued?
  {
    var x := ScopeOf(e, s);
    assert n in e.nodes && Ready(s.rows, n);
    var order := [n];
    assert order[1..] == [];
    assert InsertAll(x, s.rows, order) == InsertAll(x, Insert(x, s.rows, n), []) == Insert(x, s.rows, n);
    AnyOrderReachesExpand(x, s.rows, order);
  }

  const DemoNode := Node("a", [], false, false, None, "m", None)
  const FirstTry := JobId("a", 0)
  const SecondTry := JobId("a", 2)

  /** The only row is the given try of the only node, in the given status, on a running run. */
  ghost predicate Demo(s: Run, id: JobId, status: Status, gen: nat, events: seq<Event>) {
    && s.status.RunRunning? && s.project == "" && s.gen == gen && s.expanded && s.events == events
    && s.rows.Keys == {"a"} && s.rows["a"].id == id && s.rows["a"].status == status
    && s.rows["a"].queue == Cpu && s.rows["a"].project == "" && !s.rows["a"].patch
    && (status.Running? ==> id in s.handed)
  }

  lemma {:induction false} DemoStart(e: Engine)
    requires e.nodes == [DemoNode]
    ensures Demo(Apply(e, Init("", 100, map[]), ExpandRun), FirstTry, Queued, 1, [])
  {
    var s := Init("", 100, map[]);
    SingleNodeFanOut(e, s, DemoNode);
    assert StartRun(e, s).rows == FanOut(e, s).rows;
  }

  lemma {:induction false} DemoClaim(e: Engine, s: Run, id: JobId, gen: nat, events: seq<Event>)
    requires Demo(s, id, Queued, gen, events)
    ensures Demo(Apply(e, s, Claim("a", "h", Cpu, "", 1)), id, Running, gen, events)
  {
  }

  lemma {:induction false} DemoFail(e: Engine, s: Run)
    requires Demo(s, FirstTry, Running, 1, [])
    ensures Demo(Apply(e, s, Fail(FirstTry)), FirstTry, Failed, 1, [Event(FirstTry, KindFailed, false, 0)])
  {
  }

  /** The reconciler's repair branch, spelled out. */
  lemma {:induction false} RepairBranch(e: Engine, s: Run, kept: Run)
    requires s.status.RunRunning? && !AnyLive(s.rows) && !AllDone(e.nodes, s.rows) && FanOut(e, s).rows == s.rows
    requires kept == Dropped(Expanded(e, s))
    requires |kept.rows| < |s.rows| && |FanOut(e, kept).rows| > |kept.rows|
    ensures Reconcile(e, s).0 == FanOut(e, kept).(status := RunRunning)
  {
  }

  lemma {:induction false} DemoStuck(e: Engine, s: Run, events: seq<Event>)
    requires e.nodes == [DemoNode] && Demo(s, FirstTry, Failed, 1, events)
    ensures !AnyLive(s.rows) && !AllDone(e.nodes, s.rows) && FanOut(e, s).rows == s.rows
    ensures KeepDone(s.rows) == map[] && |s.rows| > 0
  {
    assert DemoNode in e.nodes && !Satisfied(s.rows, "a") && Closed(e.nodes, s.rows);
    FanOutGrows(e, s);
    assert "a" in s.rows;
  }

  lemma {:induction false} DemoReconcile(e: Engine, s: Run, events: seq<Event>)
    requires e.nodes == [DemoNode] && Demo(s, FirstTry, Failed, 1, events)
    ensures Demo(Apply(e, s, ReconcileRun), SecondTry, Queued, 3, events)
  {
    DemoStuck(e, s, events);
    var kept := Dropped(Expanded(e, s));
    SingleNodeFanOut(e, kept, DemoNode);
    assert "a" in FanOut(e, kept).rows;
    RepairBranch(e, s, kept);
  }

  lemma {:induction false} DemoComplete(e: Engine, s: Run, ev: Event)
    requires Demo(s, SecondTry, Running, 3, [ev])
    ensures Demo(Apply(e, s, Complete(SecondTry, map[])), SecondTry, Completed, 3,
      [ev, Event(SecondTry, KindCompleted, false, 0)])
  {
  }

  /** The drain takes the oldest event first; its callback raises once and stays for a later pass. */
  lemma {:induction false} DemoRaise(e: Engine, s: Run, ev: Event, last: Event)
    requires Demo(s, SecondTry, Completed, 3, [ev, last]) && !ev.processed && ev.kind.KindFailed? && ev.attempts == 0
    ensures Demo(Apply(e, s, DrainRaises(0, [])), SecondTry, Completed, 3, [ev.(attempts := 1), last])
  {
    assert s.events[0 := ev.(attempts := 1)] == [ev.(attempts := 1), last];
  }

  lemma {:induction false} DemoFinish(e: Engine, s: Run, ev: Event)
    requires e.nodes == [DemoNode]
    requires Demo(s, SecondTry, Completed, 3, [ev, Event(SecondTry, KindCompleted, false, 0)])
    ensures var s' := Apply(e, s, Drain(1));
      s'.status.RunCompleted? && |s'.events| == 2 && s'.events[0] == ev && !IsPatch(s'.rows, "a")
  {
    assert Satisfied(s.rows, "a");
    FanOutGrows(e, s);
    assert FanOut(e, s).rows == s.rows;
  }

  ghost predicate SomeCompletedRunFlips(e: Engine) {
    exists s :: Reachable(e, s) && s.status.RunCompleted? && Apply(e, s, Drain(0)).status.RunFailed?
  }

  lemma {:induction false} DemoLastAct(e: Engine, s: Run)
    requires e.nodes == [DemoNode] && Reachable(e, s)
    requires Demo(s, SecondTry, Running, 3, [Event(FirstTry, KindFailed, false, 0)])
    ensures SomeCompletedRunFlips(e)
  {
    var ev, last := Event(FirstTry, KindFailed, false, 0), Event(SecondTry, KindCompleted, false, 0);
    var s1 := Apply(e, s, Complete(SecondTry, map[]));
    DemoComplete(e, s, ev);
    ReachableStep(e, s, Complete(SecondTry, map[]));
    var s2 := Apply(e, s1, DrainRaises(0, []));
    DemoRaise(e, s1, ev, last);
    ReachableStep(e, s1, DrainRaises(0, []));
    DemoFinish(e, s2, ev.(attempts := 1));
    ReachableStep(e, s2, Drain(1));
    DrainOnCompleted(e, Apply(e, s2, Drain(1)), 0);
  }

  lemma {:induction false} DemoMiddleAct(e: Engine, s: Run)
    requires e.nodes == [DemoNode] && Reachable(e, s)
    requires Demo(s, FirstTry, Failed, 1, [Event(FirstTry, KindFailed, false, 0)])
    ensures SomeCompletedRunFlips(e)
  {
    var ev := Event(FirstTry, KindFailed, false, 0);
    var s1 := Apply(e, s, ReconcileRun);
    DemoReconcile(e, s, [ev]);
    ReachableStep(e, s, ReconcileRun);
    DemoClaim(e, s1, SecondTry, 3, [ev]);
    ReachableStep(e, s1, Claim("a", "h", Cpu, "", 1));
    DemoLastAct(e, Apply(e, s1, Claim("a", "h", Cpu, "", 1)));
  }

  /** Such a state is reached by a drain that takes events oldest first: a node fails, the reconciler requeues
      it before the `failed` event is drained, the retry completes, the callback of the old event raises once
      while the newer one completes the run, and the next pass drains the old event. */
  lemma {:induction false} CompletedRunCanFlipToFailed()
    ensures exists e: Engine :: WellFormed(e.nodes) && SomeCompletedRunFlips(e)
  {
    var e := Engine([DemoNode], {}, (r, c) => Falsy);
    assert Ranks(e.nodes, map["a" := 0]);
    var s0 := Init("", 100, map[]);
    assert Reachable(e, s0) by {
      assert s0 == Exec(e, s0, []);
    }
    DemoStart(e);
    ReachableStep(e, s0, ExpandRun);
    var s1 := Apply(e, s0, ExpandRun);
    DemoClaim(e, s1, FirstTry, 1, []);
    ReachableStep(e, s1, Claim("a", "h", Cpu, "", 1));
    var s2 := Apply(e, s1, Claim("a", "h", Cpu, "", 1));
    DemoFail(e, s2);
    ReachableStep(e, s2, Fail(FirstTry));
    DemoMiddleAct(e, Apply(e, s2, Fail(FirstTry)));
  }

  // ------------------------------------------------- terminal rows and outbox

  /** Absorption: no later history changes a finished row, and a failed or cancelled row is either left
      as it is or deleted for good. */
  lemma {:induction false} TerminalAbsorption(e: Engine, s: Run, later: seq<Step>, id: JobId)
    requires DistinctIds(e.nodes) && DepsExist(e.nodes) && Reachable(e, s)
    requires Holds(s, id) && !Live(s.rows[id.node].status)
    ensures var f := Exec(e, s, later);
      if Done(s.rows[id.node].status)
      then Holds(f, id) && f.rows[id.node] == s.rows[id.node]
      else Holds(f, id) ==> f.rows[id.node] == s.rows[id.node]
  {
    ReachableInv(e, s);
    ExecKeepsInv(e, s, later);
    assert RowAdvances(s, Exec(e, s, later), id.node);
  }

  /** An id that has left the table never comes back. */
  lemma {:induction false} DeletedForGood(e: Engine, s: Run, later: seq<Step>, id: JobId)
    requires DistinctIds(e.nodes) && DepsExist(e.nodes) && Reachable(e, s)
    requires id in s.handed && !Holds(s, id)
    ensures !Holds(Exec(e, s, later), id)
  {
    ReachableInv(e, s);
    ExecKeepsInv(e, s, later);
  }

  /** Exactly-once outbox, upper half: at most one terminal event per row id, of the kind that matches
      the row's final status. */
  lemma {:induction false} OutboxAtMostOnce(e: Engine, s: Run, i: nat, j: nat)
    requires DistinctIds(e.nodes) && DepsExist(e.nodes) && Reachable(e, s)
    requires i < |s.events| && !s.events[i].kind.KindAwaiting?
    ensures s.events[i].kind.KindCompleted? ==>
      Holds(s, s.events[i].job) && s.rows[s.events[i].job.node].status.Completed?
    ensures s.events[i].kind.KindFailed? && Holds(s, s.events[i].job) ==>
      s.rows[s.events[i].job.node].status.Failed?
    ensures j < |s.events| && j != i ==> !TerminalEvent(s.events[j], s.events[i].job)
  {
    ReachableInv(e, s);
    if j < |s.events| && i < j && TerminalEvent(s.events[j], s.events[i].job) {
      assert TerminalEvent(s.events[i], s.events[j].job);
    }
  }

  /** Exactly-once outbox, lower half: a row finished by the executor or by a watchdog has its one
      event at a fixed place in the outbox for ever after. */
  lemma {:induction false} OutboxExactlyOnce(e: Engine, s: Run, step: Step, later: seq<Step>)
    requires DistinctIds(e.nodes) && DepsExist(e.nodes) && Reachable(e, s)
    requires step.Complete? || step.Fail?
    requires Markable(s, step.id)
    ensures var f := Exec(e, Apply(e, s, step), later);
      && |s.events| < |f.events|
      && f.events[|s.events|].job == step.id
      && f.events[|s.events|].kind == (if step.Complete? then KindCompleted else KindFailed)
      && forall j :: 0 <= j < |f.events| && j != |s.events| ==> !TerminalEvent(f.events[j], step.id)
  {
    ReachableInv(e, s);
    var s1 := Apply(e, s, step);
    StepKeepsInv(e, s, step);
    ExecKeepsInv(e, s1, later);
    var f, last := Exec(e, s1, later), |s.events|;
    FinishAnnounces(e, s, step);
    assert f.events[last].job == s1.events[last].job && f.events[last].kind == s1.events[last].kind;
    OnlyOneTerminal(f, last);
  }

  lemma {:induction false} FinishAnnounces(e: Engine, s: Run, step: Step)
    requires (step.Complete? || step.Fail?) && Markable(s, step.id)
    ensures var s1, last := Apply(e, s, step), |s.events|;
      && |s1.events| == last + 1 && s1.events[last].job == step.id
      && s1.events[last].kind == (if step.Complete? then KindCompleted else KindFailed)
  {
  }

  lemma {:induction false} OnlyOneTerminal(s: Run, last: nat)
    requires OutboxMatches(s) && last < |s.events| && !s.events[last].kind.KindAwaiting?
    ensures forall j :: 0 <= j < |s.events| && j != last ==> !TerminalEvent(s.events[j], s.events[last].job)
  {
    forall j | 0 <= j < |s.events| && j != last
      ensures !TerminalEvent(s.events[j], s.events[last].job)
    {
      if last < j && TerminalEvent(s.events[j], s.events[last].job) {
        assert TerminalEvent(s.events[last], s.events[j].job);
      }
    }
  }

  // -------------------------------------------------- claim/release conservation

  predicate ClaimHits(s: Run, step: Step, id: JobId) {
    step.Claim? && Claimable(s, step.node, step.queue, step.project) && s.rows[step.node].id == id
  }

  /** A release hands a claimed row back to the queue. */
  predicate ReleaseHits(s: Run, step: Step, id: JobId) {
    Holds(s, id) && s.rows[id.node].status.Running? &&
    match step
    case RequeueForRetry(j) => j == id
    case ReclaimExpired(now) => Expired(s.rows[id.node], now) && s.status.RunRunning?
    case ReclaimForResume(project, beating) => Orphaned(s.rows[id.node], project, beating)
    case RequeueForWorker(host, queue, project) => OwnedBy(s.rows[id.node], host, queue, project)
    case _ => false
  }

  function Claims(e: Engine, s: Run, steps: seq<Step>, id: JobId): nat
    decreases steps
  {
    if steps == [] then 0 else
      (if ClaimHits(s, steps[0], id) then 1 else 0) + Claims(e, Apply(e, s, steps[0]), steps[1..], id)
  }

  function Releases(e: Engine, s: Run, steps: seq<Step>, id: JobId): nat
    decreases steps
  {
    if steps == [] then 0 else
      (if ReleaseHits(s, steps[0], id) then 1 else 0) + Releases(e, Apply(e, s, steps[0]), steps[1..], id)
  }

  /** The ledger of one row id: queued means every claim was released, running means one was not. */
  ghost predicate Balanced(s: Run, id: JobId, claims: int, releases: int) {
    if Holds(s, id) then
      && (s.rows[id.node].status.Queued? ==> claims == releases)
      && (s.rows[id.node].status.Running? ==> claims == releases + 1)
      && releases <= claims <= releases + 1
    else if id.gen < s.gen then releases <= claims <= releases + 1
    else claims == releases == 0
  }

  /** A fan-out leaves existing rows alone and adds only queued or skipped ones. */
  lemma {:induction false} FanOutRows(e: Engine, s: Run)
    requires DistinctIds(e.nodes)
    ensures Grows(s.rows, FanOut(e, s).rows)
    ensures forall k :: k in FanOut(e, s).rows && k !in s.rows ==> FanOut(e, s).rows[k].id.gen == s.gen
  {
    var x := ScopeOf(e, s);
    ExpandIsLeastFixedPoint(x, s.rows);
    forall k | k in FanOut(e, s).rows && k !in s.rows
      ensures FanOut(e, s).rows[k].status.Queued? || FanOut(e, s).rows[k].status.Skipped?
      ensures FanOut(e, s).rows[k].id.gen == s.gen
    {
      ExpandShape(x, s.rows, k);
    }
  }

  lemma {:induction false} PartialRows(e: Engine, s: Run, partial: seq<Node>)
    requires DistinctIds(e.nodes)
    ensures Grows(s.rows, PartialFanOut(e, s, partial).rows)
  {
    var x := ScopeOf(e, s);
    if Legal(x, s.rows, partial) {
      LegalExtends(x, s.rows, partial);
      var f := PartialFanOut(e, s, partial);
      forall k | k in f.rows && k !in s.rows
        ensures f.rows[k].status.Queued? || f.rows[k].status.Skipped?
      {
        assert HasId(e.nodes, k);
        var n :| n in e.nodes && n.id == k;
        assert f.rows[k] == NewRow(x, n, s.rows);
      }
    }
  }

  /** No dispatcher action puts a row into `running` or back to `queued`, or rewrites one that is. */
  ghost predicate Handless(s: Run, s': Run) {
    forall k :: k in s'.rows ==>
      if k in s.rows && s'.rows[k].id == s.rows[k].id
      then s'.rows[k] == s.rows[k] || !(s'.rows[k].status.Queued? || s'.rows[k].status.Running?)
      else s'.rows[k].status.Queued? || s'.rows[k].status.Skipped?
  }

  /** Existing rows untouched, new ones queued or skipped. */
  ghost predicate Grows(t: Table, t': Table) {
    && (forall k :: k in t ==> k in t' && t'[k] == t[k])
    && (forall k :: k in t' && k !in t ==> t'[k].status.Queued? || t'[k].status.Skipped?)
  }

  lemma {:induction false} GrowsIsHandless(s: Run, s': Run)
    requires Grows(s.rows, s'.rows)
    ensures Handless(s, s')
  {
  }

  /** Dropping the dead rows and fanning out again: survivors are finished, the rest is new. */
  lemma {:induction false} RepairHandless(e: Engine, s: Run)
    requires DistinctIds(e.nodes) && FreshIds(s)
    ensures Handless(s, Repaired(e, s))
  {
    var kept := Dropped(s);
    FanOutRows(e, kept);
    var f := FanOut(e, kept);
    forall k | k in f.rows && k in s.rows && f.rows[k].id == s.rows[k].id
      ensures f.rows[k] == s.rows[k]
    {
      assert s.rows[k].id.gen < s.gen;
      assert k in kept.rows;
    }
  }

  lemma {:induction false} ReconcileHandless(e: Engine, s: Run)
    requires DistinctIds(e.nodes) && FreshIds(s)
    ensures Handless(s, Reconcile(e, s).0)
  {
    var (s', action) := Reconcile(e, s);
    FanOutRows(e, s);
    if action.Requeued? || action.FlippedFailed? {
      FanOutGrows(e, s);
      var s1 := Expanded(e, s);
      RepairHandless(e, s1);
      assert s1.rows == s.rows && s'.rows == Repaired(e, s1).rows;
    } else {
      GrowsIsHandless(s, s');
    }
  }

  lemma {:induction false} CompletedHandless(e: Engine, s: Run, node: NodeId)
    requires DistinctIds(e.nodes)
    ensures Grows(s.rows, OnNodeCompleted(e, s, node).rows)
  {
    FanOutRows(e, s);
  }

  lemma {:induction false} CancelHandless(s: Run, node: NodeId)
    ensures Handless(s, OnNodeFailed(s, node))
  {
  }

  lemma {:induction false} DrainHandless(e: Engine, s: Run, i: nat)
    requires DistinctIds(e.nodes)
    ensures Handless(s, DrainOne(e, s, i))
  {
    if Unprocessed(s, i) {
      var node := s.events[i].job.node;
      CompletedHandless(e, s, node);
      GrowsIsHandless(s, OnNodeCompleted(e, s, node));
      CancelHandless(s, node);
      assert Handless(s, Callback(e, s, s.events[i]));
    }
  }

  lemma {:induction false} DrainRaisesHandless(e: Engine, s: Run, i: nat, partial: seq<Node>)
    requires DistinctIds(e.nodes)
    ensures Handless(s, DrainOneRaises(e, s, i, partial))
  {
    if Unprocessed(s, i) {
      PartialRows(e, s, partial);
      GrowsIsHandless(s, DrainOneRaises(e, s, i, partial));
    }
  }

  lemma {:induction false} InputHandless(e: Engine, s: Run, node: NodeId, delta: Delta)
    requires DistinctIds(e.nodes)
    ensures Handless(s, AcceptInput(e, s, node, delta))
  {
    if node in s.rows {
      var mid := InputArrived(s, node, delta);
      CompletedHandless(e, mid, node);
    }
  }

  lemma {:induction false} StartHandless(e: Engine, s: Run, partial: seq<Node>)
    requires DistinctIds(e.nodes)
    ensures Handless(s, StartRun(e, s)) && Handless(s, StartRunRaises(e, s, partial))
  {
    FanOutRows(e, s);
    PartialRows(e, s, partial);
    GrowsIsHandless(s, StartRun(e, s));
    GrowsIsHandless(s, StartRunRaises(e, s, partial));
  }

  lemma {:induction false} OneRowHandless(s: Run, s': Run, k: NodeId, status: Status)
    requires k in s.rows && !status.Queued? && !status.Running?
    requires s'.rows.Keys == s.rows.Keys && s'.rows[k].status == status && s'.rows[k].id == s.rows[k].id
    requires forall j :: j in s.rows && j != k ==> s'.rows[j] == s.rows[j]
    ensures Handless(s, s')
  {
  }

  lemma {:induction false} MarkHandless(s: Run, id: JobId, delta: Delta)
    requires FreshIds(s)
    ensures Handless(s, CompleteRow(s, id, delta)) && Handless(s, FailRow(s, id)) && Handless(s, ParkRow(s, id))
  {
    if Markable(s, id) {
      OneRowHandless(s, CompleteRow(s, id, delta), id.node, Completed);
      OneRowHandless(s, FailRow(s, id), id.node, Failed);
      if s.rows[id.node].input {
        OneRowHandless(s, ParkRow(s, id), id.node, AwaitingInput);
      }
    }
  }

  lemma {:induction false} OrphansHandless(s: Run, project: string)
    ensures Handless(s, CancelOrphanRows(s, project))
  {
  }

  lemma {:induction false} RestartHandless(s: Run)
    ensures Handless(s, Restart(s))
  {
  }

  /** The callbacks and marks. */
  lemma {:induction false} CallbackHandless(e: Engine, s: Run, step: Step)
    requires DistinctIds(e.nodes) && FreshIds(s)
    requires step.ExpandRun? || step.ExpandRunRaises? || step.Drain? || step.DrainRaises? || step.ResumeAfterInput?
    ensures Handless(s, Apply(e, s, step))
  {
    match step
    case ExpandRun =>
      StartHandless(e, s, []);
      assert Apply(e, s, step) == StartRun(e, s);
    case ExpandRunRaises(partial) =>
      StartHandless(e, s, partial);
      assert Apply(e, s, step) == StartRunRaises(e, s, partial);
    case Drain(i) =>
      DrainHandless(e, s, i);
      assert Apply(e, s, step) == DrainOne(e, s, i);
    case DrainRaises(i, partial) =>
      DrainRaisesHandless(e, s, i, partial);
      assert Apply(e, s, step) == DrainOneRaises(e, s, i, partial);
    case ResumeAfterInput(node, delta) =>
      InputHandless(e, s, node, delta);
      assert Apply(e, s, step) == AcceptInput(e, s, node, delta);
  }

  lemma {:induction false} FinishHandless(e: Engine, s: Run, step: Step)
    requires FreshIds(s) && (step.Complete? || step.Fail? || step.Park?)
    ensures Handless(s, Apply(e, s, step))
  {
    match step
    case Complete(id, delta) =>
      MarkHandless(s, id, delta);
      assert Apply(e, s, step) == CompleteRow(s, id, delta);
    case Fail(id) =>
      MarkHandless(s, id, map[]);
      assert Apply(e, s, step) == FailRow(s, id);
    case Park(id) =>
      MarkHandless(s, id, map[]);
      assert Apply(e, s, step) == ParkRow(s, id);
  }

  lemma {:induction false} HostHandless(e: Engine, s: Run, step: Step)
    requires DistinctIds(e.nodes) && FreshIds(s)
    requires step.CancelOrphans? || step.RestartRun? || step.EnqueuePatch? || step.ResumeRun? || step.CancelRun?
    ensures Handless(s, Apply(e, s, step))
  {
    match step
    case CancelOrphans(project) =>
      OrphansHandless(s, project);
      assert Apply(e, s, step) == CancelOrphanRows(s, project);
    case RestartRun =>
      RestartHandless(s);
      assert Apply(e, s, step) == Restart(s);
    case EnqueuePatch(node, queue, project) =>
      PatchHandless(e, s, node, queue, project);
      assert Apply(e, s, step) == InsertPatch(e, s, node, queue, project);
    case ResumeRun(project) =>
      StatusHandless(s, ResumeStatus(s, project));
      assert Apply(e, s, step) == ResumeStatus(s, project);
    case CancelRun =>
      StatusHandless(s, CancelStatus(s));
      assert Apply(e, s, step) == CancelStatus(s);
  }

  lemma {:induction false} PatchHandless(e: Engine, s: Run, node: NodeId, queue: Queue, project: string)
    ensures Handless(s, InsertPatch(e, s, node, queue, project))
  {
    GrowsIsHandless(s, InsertPatch(e, s, node, queue, project));
  }

  lemma {:induction false} StatusHandless(s: Run, s': Run)
    requires s'.rows == s.rows
    ensures Handless(s, s')
  {
  }

  lemma {:induction false} DispatcherHandless(e: Engine, s: Run, step: Step)
    requires DistinctIds(e.nodes) && FreshIds(s)
    requires !IsQuiet(step) || step.ResumeRun? || step.CancelOrphans? || step.CancelRun?
    ensures Handless(s, Apply(e, s, step))
  {
    if step.Complete? || step.Fail? || step.Park? {
      FinishHandless(e, s, step);
    } else if step.ExpandRun? || step.ExpandRunRaises? || step.Drain? || step.DrainRaises? || step.ResumeAfterInput? {
      CallbackHandless(e, s, step);
    } else if step.ReconcileRun? {
      ReconcileHandless(e, s);
    } else {
      HostHandless(e, s, step);
    }
  }

  lemma {:induction false} SweepBalances(e: Engine, s: Run, step: Step, id: JobId, claims: int, releases: int)
    requires FreshIds(s) && Balanced(s, id, claims, releases)
    requires IsQuiet(step) && !(step.ResumeRun? || step.CancelOrphans? || step.CancelRun?)
    ensures Balanced(Apply(e, s, step), id,
      claims + (if ClaimHits(s, step, id) then 1 else 0), releases + (if ReleaseHits(s, step, id) then 1 else 0))
  {
  }

  lemma {:induction false} StepBalances(e: Engine, s: Run, step: Step, id: JobId, claims: int, releases: int)
    requires DistinctIds(e.nodes) && DepsExist(e.nodes) && Inv(e, s)
    requires Balanced(s, id, claims, releases)
    ensures Balanced(Apply(e, s, step), id,
      claims + (if ClaimHits(s, step, id) then 1 else 0), releases + (if ReleaseHits(s, step, id) then 1 else 0))
  {
    if IsQuiet(step) && !(step.ResumeRun? || step.CancelOrphans? || step.CancelRun?) {
      SweepBalances(e, s, step, id, claims, releases);
    } else {
      StepKeepsInv(e, s, step);
      DispatcherHandless(e, s, step);
    }
  }

  lemma {:induction false} LedgerBalances(e: Engine, s: Run, steps: seq<Step>, id: JobId, claims: int, releases: int)
    requires DistinctIds(e.nodes) && DepsExist(e.nodes) && Inv(e, s)
    requires Balanced(s, id, claims, releases)
    ensures Balanced(Exec(e, s, steps), id, claims + Claims(e, s, steps, id), releases + Releases(e, s, steps, id))
    decreases steps
  {
    if steps != [] {
      StepKeepsInv(e, s, steps[0]);
      StepBalances(e, s, steps[0], id, claims, releases);
      LedgerBalances(e, Apply(e, s, steps[0]), steps[1..], id,
        claims + (if ClaimHits(s, steps[0], id) then 1 else 0),
        releases + (if ReleaseHits(s, steps[0], id) then 1 else 0));
    }
  }

  /** Conservation over every history from the run's creation. */
  lemma {:induction false} ClaimsBalanceReleases(e: Engine, project: string, priority: int, context: Context,
                                                 steps: seq<Step>, id: JobId)
    requires DistinctIds(e.nodes) && DepsExist(e.nodes)
    ensures var s0 := Init(project, priority, context);
      Balanced(Exec(e, s0, steps), id, Claims(e, s0, steps, id), Releases(e, s0, steps, id))
  {
    var s0 := Init(project, priority, context);
    InitInv(e, project, priority, context);
    LedgerBalances(e, s0, steps, id, 0, 0);
  }

  /** A claimed row is not handed out again before it was released: from any running row on, every
      further claim is covered by a release. */
  lemma {:induction false} NoSecondHandoutWithoutRelease(e: Engine, s: Run, later: seq<Step>, id: JobId)
    requires DistinctIds(e.nodes) && DepsExist(e.nodes) && Reachable(e, s)
    requires Holds(s, id) && s.rows[id.node].status.Running?
    ensures Claims(e, s, later, id) <= Releases(e, s, later, id)
  {
    ReachableInv(e, s);
    LedgerBalances(e, s, later, id, 1, 0);
  }

  /** Tenancy: a row keeps its project through every later step, broker-wide sweeps included, so every
      host that ever claims it asked for that project. */
  lemma {:induction false} ClaimersShareTheProject(e: Engine, s: Run, later: seq<Step>, step: Step, id: JobId)
    requires DistinctIds(e.nodes) && DepsExist(e.nodes) && Reachable(e, s)
    requires Holds(s, id) && ClaimHits(Exec(e, s, later), step, id)
    ensures step.project == s.rows[id.node].project
  {
    ReachableInv(e, s);
    ExecKeepsInv(e, s, later);
    assert RowAdvances(s, Exec(e, s, later), id.node);
  }
}
