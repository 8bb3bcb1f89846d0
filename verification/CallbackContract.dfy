/** What the dispatcher's callbacks and the host's steps promise, on the columns alone. A fan-out is described
    by `FansOut`: which nodes get a row and what is in it. */
module CallbackContract {
  import opened Options
  import opened Workflow
  import opened Expansion
  import opened Dispatcher
  import opened Protocol
  import opened StatementContract
  import opened FiniteSets

  predicate IsStopped(s: Run) {
    s.status == RunCancelled || s.status == RunFailed
  }

  predicate IsPatchRow(s: Run, node: NodeId) {
    node in s.rows && s.rows[node].patch
  }

  /** Every node of a non-empty workflow has a completed or skipped row. */
  ghost predicate AllFinished(nodes: seq<Node>, t: Table) {
    nodes != [] && forall n :: n in nodes ==> n.id in t && (t[n.id].status.Completed? || t[n.id].status.Skipped?)
  }

  /** Some node without a row has only finished dependencies. */
  ghost predicate SomeReady(nodes: seq<Node>, t: Table) {
    exists n :: n in nodes && n.id !in t && Unblocked(t, n)
  }

  ghost predicate SomeLive(t: Table) {
    exists k :: k in t && (t[k].status.Queued? || t[k].status.Running? || t[k].status.AwaitingInput?)
  }

  /** `kept` is `t` without its unfinished and dead rows. */
  ghost predicate KeepsFinished(t: Table, kept: Table) {
    && (forall k :: k in kept <==> k in t && (t[k].status.Completed? || t[k].status.Skipped?))
    && (forall k :: k in kept ==> kept[k] == t[k])
  }

  /** The run as `s'` differs from `s` by its rows and status alone, once expanded. */
  ghost predicate FannedFrom(e: Engine, s: Run, t: Table, gen: nat, s': Run) {
    && FansOut(Scope(e, s.project, s.priority, s.context, gen), t, s'.rows)
    && s' == s.(rows := s'.rows, status := s'.status, gen := gen + 1, expanded := true)
  }

  /** A node completed: fan out, and complete the run as soon as every node is finished. */
  ghost predicate Completion(e: Engine, s: Run, node: NodeId, s': Run) {
    if IsStopped(s) || IsPatchRow(s, node) then s' == s
    else
      && FannedFrom(e, s, s.rows, s.gen, s')
      && s'.status == if AllFinished(e.nodes, s'.rows) then RunCompleted else s.status
  }

  /** A node failed: fail the run and cancel what is queued. */
  ghost predicate Failure(s: Run, node: NodeId, s': Run) {
    if IsStopped(s) || IsPatchRow(s, node) then s' == s
    else
      && s' == s.(rows := s'.rows, status := RunFailed) && s'.rows.Keys == s.rows.Keys
      && forall k :: k in s.rows ==>
           s'.rows[k] == if s.rows[k].status.Queued? then s.rows[k].(status := Cancelled) else s.rows[k]
  }

  ghost predicate Undeclared(e: Engine) {
    exists n :: n in e.nodes && n.gpu && n.model == None && n.moduleName !in e.exempt
  }

  /** The tick: a workflow with a GPU node that names no model and is not exempt is refused; any other one is
      expanded and runs as soon as it has a new row. */
  ghost predicate Tick(e: Engine, s: Run, s': Run) {
    if s.status != RunQueued then s' == s
    else if Undeclared(e) then s' == s.(status := RunFailed)
    else
      && FannedFrom(e, s, s.rows, s.gen, s')
      && s'.status == if SomeReady(e.nodes, s.rows) then RunRunning else RunQueued
  }

  /** What a fan-out that raised may leave behind: some of the rows, each as the whole fan-out would have it. */
  ghost predicate FansOutPartly(e: Engine, s: Run, u: Table, gen: nat) {
    var x := Scope(e, s.project, s.priority, s.context, s.gen);
    || (u == s.rows && gen == s.gen)
    || (&& gen == s.gen + 1
        && (forall k :: k in s.rows ==> k in u && u[k] == s.rows[k])
        && (forall k :: k in u && k !in s.rows ==> HasId(e.nodes, k))
        && (forall n :: n in e.nodes && n.id in u && n.id !in s.rows ==>
              Unblocked(u, n) && Decided(x, n, s.rows, u[n.id])))
  }

  /** A tick that raised: the run keeps its status, so the next tick takes it up again. */
  ghost predicate RaisedTick(e: Engine, s: Run, s': Run) {
    && s' == s.(rows := s'.rows, gen := s'.gen)
    && FansOutPartly(e, s, s'.rows, s'.gen)
    && (s.status != RunQueued || Undeclared(e) ==> s' == s)
  }

  /** An event whose callback returned is processed, and its callback did what it promises. */
  ghost predicate Drained(e: Engine, s: Run, i: nat, s': Run) {
    if i >= |s.events| || s.events[i].processed then s' == s
    else
      var ev := s.events[i];
      var mid := s'.(events := s.events);
      && s'.events == s.events[i := ev.(processed := true)]
      && match ev.kind
         case KindCompleted => Completion(e, s, ev.job.node, mid)
         case KindFailed => Failure(s, ev.job.node, mid)
         case KindAwaiting => mid == s
  }

  /** An event whose callback raised has one attempt more; the tenth gives it up and fails a run that is queued
      or running. Only a completion in a live run leaves rows behind. */
  ghost predicate RaisedDrain(e: Engine, s: Run, i: nat, s': Run) {
    if i >= |s.events| || s.events[i].processed then s' == s
    else
      var ev := s.events[i];
      && s'.events == s.events[i := ev.(attempts := ev.attempts + 1, processed := ev.attempts + 1 >= 10)]
      && s'.status == (if ev.attempts + 1 >= 10 && (s.status == RunQueued || s.status == RunRunning)
                       then RunFailed else s.status)
      && s' == s.(rows := s'.rows, gen := s'.gen, events := s'.events, status := s'.status)
      && FansOutPartly(e, s, s'.rows, s'.gen)
      && (!ev.kind.KindCompleted? || IsStopped(s) || IsPatchRow(s, ev.job.node) ==>
            s'.rows == s.rows && s'.gen == s.gen)
  }

  /** A submitted input completes its row, which holds it from then on, and fans out at once. */
  ghost predicate Submission(e: Engine, s: Run, node: NodeId, delta: Delta, s': Run) {
    if node !in s.rows || !(s.rows[node].status.AwaitingInput? || s.rows[node].status.Queued?) then s' == s
    else Completion(e, s.(rows := s.rows[node := s.rows[node].(status := Completed, delta := delta)]), node, s')
  }

  /** A run that the host restarts keeps its finished rows and nothing else. */
  ghost predicate Restarted(s: Run, s': Run) {
    if !IsStopped(s) then s' == s
    else KeepsFinished(s.rows, s'.rows) && s' == s.(rows := s'.rows, status := RunQueued, expanded := false)
  }

  /** A patch is a queued row outside the DAG, at the run's priority. */
  ghost predicate Patched(e: Engine, s: Run, node: NodeId, queue: Queue, project: string, s': Run) {
    if node in s.rows || HasId(e.nodes, node) then s' == s
    else
      && s' == s.(rows := s'.rows, gen := s.gen + 1) && s'.rows.Keys == s.rows.Keys + {node}
      && (forall k :: k in s.rows ==> s'.rows[k] == s.rows[k])
      && s'.rows[node] == Row(JobId(node, s.gen), Queued, queue, None, project, s.priority, None, None, 0, map[],
                              false, true)
  }

  /** The reconciler. It leaves a terminal run and one with live work alone, completes a finished one, and
      otherwise enqueues what is ready; if nothing is, it drops every row that is not finished and enqueues what
      that makes ready. Only when that is nothing, too, does it give the run up. */
  ghost predicate Reconciled(e: Engine, s: Run, s': Run, action: Action) {
    if !(s.status == RunQueued || s.status == RunRunning) || SomeLive(s.rows) then s' == s && action == Noop
    else if AllFinished(e.nodes, s.rows) then s' == s.(status := RunCompleted) && action == FlippedCompleted
    else if SomeReady(e.nodes, s.rows) then
      FannedFrom(e, s, s.rows, s.gen, s') && s'.status == RunRunning && action == Enqueued
    else
      exists kept :: KeepsFinished(s.rows, kept) &&
        if kept != s.rows && SomeReady(e.nodes, kept)
        then FannedFrom(e, s, kept, s.gen + 1, s') && s'.status == RunRunning && action == Requeued
        else s'.rows == kept && s'.status == RunFailed && action == FlippedFailed
  }

  /** Everything a step other than a statement promises. */
  ghost predicate Contracted(e: Engine, s: Run, step: Step, s': Run)
    requires !IsStatement(step)
  {
    match step
    case ExpandRun => Tick(e, s, s')
    case ExpandRunRaises(_) => RaisedTick(e, s, s')
    case Drain(i) => Drained(e, s, i, s')
    case DrainRaises(i, _) => RaisedDrain(e, s, i, s')
    case ResumeAfterInput(node, delta) => Submission(e, s, node, delta, s')
    case RestartRun => Restarted(s, s')
    case EnqueuePatch(node, queue, project) => Patched(e, s, node, queue, project, s')
    case ReconcileRun => Reconciled(e, s, s', Reconcile(e, s).1)
  }

  lemma {:induction false} ClosedIsNotReady(nodes: seq<Node>, t: Table)
    ensures Closed(nodes, t) <==> !SomeReady(nodes, t)
  {
    forall n | n in nodes
      ensures Ready(t, n) <==> n.id !in t && Unblocked(t, n)
    {
      if Unblocked(t, n) {
        assert forall d :: d in n.deps ==> Satisfied(t, d);
      }
      if n.id !in t && forall d :: d in n.deps ==> Satisfied(t, d) {
        assert Unblocked(t, n);
      }
    }
  }

  lemma {:induction false} FinishedIsDone(nodes: seq<Node>, t: Table)
    ensures AllFinished(nodes, t) <==> AllDone(nodes, t)
  {
  }

  lemma {:induction false} FanOutFans(e: Engine, s: Run, st: RunStatus)
    requires DistinctIds(e.nodes)
    ensures FannedFrom(e, s, s.rows, s.gen, Expanded(e, s).(status := st))
  {
    ExpandDecides(ScopeOf(e, s), s.rows);
  }

  lemma {:induction false} GrowsWhenReady(e: Engine, s: Run)
    requires DistinctIds(e.nodes)
    ensures |Expanded(e, s).rows| > |s.rows| <==> SomeReady(e.nodes, s.rows)
    ensures !SomeReady(e.nodes, s.rows) ==> Expanded(e, s).rows == s.rows
  {
    FanOutGrows(e, s);
    ClosedIsNotReady(e.nodes, s.rows);
  }

  lemma {:induction false} CompletionKept(e: Engine, s: Run, node: NodeId)
    requires DistinctIds(e.nodes)
    ensures Completion(e, s, node, OnNodeCompleted(e, s, node))
  {
    FanOutFans(e, s, OnNodeCompleted(e, s, node).status);
    FinishedIsDone(e.nodes, Expanded(e, s).rows);
  }

  lemma {:induction false} FailureKept(s: Run, node: NodeId)
    ensures Failure(s, node, OnNodeFailed(s, node))
  {
  }

  lemma {:induction false} UndeclaredIsRefused(e: Engine)
    ensures Undeclared(e) <==> !GpuModelsDeclared(e)
  {
  }

  lemma {:induction false} TickKept(e: Engine, s: Run)
    requires DistinctIds(e.nodes)
    ensures Tick(e, s, StartRun(e, s))
  {
    UndeclaredIsRefused(e);
    if s.status.RunQueued? && GpuModelsDeclared(e) {
      var st := if SomeReady(e.nodes, s.rows) then RunRunning else RunQueued;
      GrowsWhenReady(e, s);
      FanOutFans(e, s, st);
      assert StartRun(e, s) == Expanded(e, s).(status := st);
    }
  }

  lemma {:induction false} PartialKept(e: Engine, s: Run, partial: seq<Node>)
    requires DistinctIds(e.nodes)
    ensures var s' := PartialFanOut(e, s, partial);
      FansOutPartly(e, s, s'.rows, s'.gen) && s' == s.(rows := s'.rows, gen := s'.gen)
  {
    var x := ScopeOf(e, s);
    if Legal(x, s.rows, partial) {
      LegalExtends(x, s.rows, partial);
      var u := InsertAll(x, s.rows, partial);
      forall n | n in e.nodes && n.id in u && n.id !in s.rows
        ensures Unblocked(u, n) && Decided(x, n, s.rows, u[n.id])
      {
        LegalUnblocks(x, s.rows, partial, n);
        NewRowDecided(x, n, s.rows);
      }
    }
  }

  lemma {:induction false} RaisedTickKept(e: Engine, s: Run, partial: seq<Node>)
    requires DistinctIds(e.nodes)
    ensures RaisedTick(e, s, StartRunRaises(e, s, partial))
  {
    UndeclaredIsRefused(e);
    PartialKept(e, s, partial);
  }

  lemma {:induction false} DrainKept(e: Engine, s: Run, i: nat)
    requires DistinctIds(e.nodes)
    ensures Drained(e, s, i, DrainOne(e, s, i))
  {
    if Unprocessed(s, i) {
      var node := s.events[i].job.node;
      CompletionKept(e, s, node);
      FailureKept(s, node);
      assert DrainOne(e, s, i).(events := s.events) == Callback(e, s, s.events[i]);
    }
  }

  lemma {:induction false} RaisedCallbackKept(e: Engine, s: Run, ev: Event, partial: seq<Node>)
    requires DistinctIds(e.nodes)
    ensures var mid := RaisedCallback(e, s, ev, partial);
      && mid == s.(rows := mid.rows, gen := mid.gen) && FansOutPartly(e, s, mid.rows, mid.gen)
      && (!ev.kind.KindCompleted? || IsStopped(s) || IsPatchRow(s, ev.job.node) ==> mid == s)
  {
    PartialKept(e, s, partial);
  }

  lemma {:induction false} RaisedDrainKept(e: Engine, s: Run, i: nat, partial: seq<Node>)
    requires DistinctIds(e.nodes)
    ensures RaisedDrain(e, s, i, DrainOneRaises(e, s, i, partial))
  {
    if Unprocessed(s, i) {
      RaisedCallbackKept(e, s, s.events[i], partial);
      GivenUpOrNot(e, s, RaisedCallback(e, s, s.events[i], partial), i);
    }
  }

  lemma {:induction false} GivenUpOrNot(e: Engine, s: Run, mid: Run, i: nat)
    requires i < |s.events| && !s.events[i].processed
    requires mid == s.(rows := mid.rows, gen := mid.gen) && FansOutPartly(e, s, mid.rows, mid.gen)
    requires var ev := s.events[i];
      !ev.kind.KindCompleted? || IsStopped(s) || IsPatchRow(s, ev.job.node) ==> mid == s
    ensures RaisedDrain(e, s, i, AttemptFailed(mid, i))
  {
    AttemptKept(mid, i);
  }

  lemma {:induction false} AttemptKept(s: Run, i: nat)
    requires i < |s.events| && !s.events[i].processed
    ensures var ev := s.events[i];
      AttemptFailed(s, i) ==
      s.(events := s.events[i := ev.(attempts := ev.attempts + 1, processed := ev.attempts + 1 >= 10)],
         status := if ev.attempts + 1 >= 10 && (s.status == RunQueued || s.status == RunRunning)
                   then RunFailed else s.status)
  {
  }

  lemma {:induction false} SubmissionKept(e: Engine, s: Run, node: NodeId, delta: Delta)
    requires DistinctIds(e.nodes)
    ensures Submission(e, s, node, delta, AcceptInput(e, s, node, delta))
  {
    if node in s.rows {
      CompletionKept(e, InputArrived(s, node, delta), node);
    }
  }

  lemma {:induction false} HostKept(e: Engine, s: Run, node: NodeId, queue: Queue, project: string)
    ensures Restarted(s, Restart(s))
    ensures Patched(e, s, node, queue, project, InsertPatch(e, s, node, queue, project))
  {
  }

  lemma {:induction false} KeepDoneKeeps(t: Table)
    ensures KeepsFinished(t, KeepDone(t)) && (|KeepDone(t)| < |t| <==> KeepDone(t) != t)
  {
    SubsetSize(KeepDone(t).Keys, t.Keys);
  }

  /** The repair branch, from an expansion that added nothing. */
  lemma {:induction false} RepairKept(e: Engine, s: Run, s1: Run)
    requires DistinctIds(e.nodes) && s1 == s.(gen := s.gen + 1, expanded := true)
    ensures var kept, s2 := KeepDone(s.rows), Repaired(e, s1);
      if kept != s.rows && SomeReady(e.nodes, kept)
      then |s2.rows| > |kept| && FannedFrom(e, s, kept, s.gen + 1, s2.(status := RunRunning))
      else |s2.rows| == |kept| && s2.rows == kept
  {
    var dropped := Dropped(s1);
    KeepDoneKeeps(s.rows);
    GrowsWhenReady(e, dropped);
    FanOutFans(e, dropped, RunRunning);
    assert FanOut(e, dropped) == Expanded(e, dropped);
  }

  /** A stuck, unfinished run with something ready. */
  lemma {:induction false} EnqueuedKept(e: Engine, s: Run)
    requires DistinctIds(e.nodes) && (s.status.RunQueued? || s.status.RunRunning?)
    requires !AnyLive(s.rows) && !AllDone(e.nodes, s.rows) && SomeReady(e.nodes, s.rows)
    ensures Reconcile(e, s) == (Expanded(e, s).(status := RunRunning), Enqueued)
    ensures FannedFrom(e, s, s.rows, s.gen, Expanded(e, s).(status := RunRunning))
  {
    GrowsWhenReady(e, s);
    FanOutFans(e, s, RunRunning);
  }

  /** A stuck, unfinished run with nothing ready: the repair, or the end. */
  lemma {:induction false} WedgedKept(e: Engine, s: Run, kept: Table)
    requires DistinctIds(e.nodes) && (s.status.RunQueued? || s.status.RunRunning?)
    requires !AnyLive(s.rows) && !AllDone(e.nodes, s.rows) && !SomeReady(e.nodes, s.rows) && kept == KeepDone(s.rows)
    ensures var (s', action) := Reconcile(e, s);
      if kept != s.rows && SomeReady(e.nodes, kept)
      then FannedFrom(e, s, kept, s.gen + 1, s') && s'.status == RunRunning && action == Requeued
      else s'.rows == kept && s'.status == RunFailed && action == FlippedFailed
  {
    GrowsWhenReady(e, s);
    RepairKept(e, s, Expanded(e, s));
  }

  lemma {:induction false} ReconcileKept(e: Engine, s: Run)
    requires DistinctIds(e.nodes)
    ensures Reconciled(e, s, Reconcile(e, s).0, Reconcile(e, s).1)
  {
    FinishedIsDone(e.nodes, s.rows);
    LiveIsLive(s.rows);
    if !(s.status.RunQueued? || s.status.RunRunning?) || AnyLive(s.rows) || AllDone(e.nodes, s.rows) {
      SettledAtOnce(e, s);
    } else if SomeReady(e.nodes, s.rows) {
      EnqueuedKept(e, s);
    } else {
      KeepDoneKeeps(s.rows);
      WedgedKept(e, s, KeepDone(s.rows));
    }
  }

  lemma {:induction false} SettledAtOnce(e: Engine, s: Run)
    requires !(s.status.RunQueued? || s.status.RunRunning?) || AnyLive(s.rows) || AllDone(e.nodes, s.rows)
    ensures Reconcile(e, s) ==
      if !(s.status.RunQueued? || s.status.RunRunning?) || AnyLive(s.rows) then (s, Noop)
      else (s.(status := RunCompleted), FlippedCompleted)
  {
  }

  lemma {:induction false} LiveIsLive(t: Table)
    ensures SomeLive(t) <==> AnyLive(t)
  {
  }

  /** Every callback and every host step does what its contract says. Together with
      `StatementsKeepTheirPromise` this covers all twenty steps of a run. */
  lemma {:induction false} CallbacksKeepTheirContract(e: Engine, s: Run, step: Step)
    requires DistinctIds(e.nodes) && !IsStatement(step)
    ensures Contracted(e, s, step, Apply(e, s, step))
  {
    match step
    case ExpandRun => TickKept(e, s);
    case ExpandRunRaises(partial) => RaisedTickKept(e, s, partial);
    case Drain(i) => DrainKept(e, s, i);
    case DrainRaises(i, partial) => RaisedDrainKept(e, s, i, partial);
    case ResumeAfterInput(node, delta) => SubmissionKept(e, s, node, delta);
    case RestartRun => HostKept(e, s, "", Cpu, "");
    case EnqueuePatch(node, queue, project) => HostKept(e, s, node, queue, project);
    case ReconcileRun => ReconcileKept(e, s);
  }
}
