/** Many runs on one broker: every run of a shared broker is a run of the single-run protocol. */
module Broker {
  import opened Workflow
  import opened Dispatcher
  import opened Protocol
  import opened Guarantees

  type RunId = string

  datatype Action =
    | Create(run: RunId, project: string, priority: int, context: Context)
    | On(run: RunId, step: Step)
    | Sweep(step: Step)

  /** Row keys never cross runs, so a sweep statement acts on each run's rows separately. */
  predicate IsSweep(step: Step) {
    step.ReclaimExpired? || step.ReclaimForResume? || step.RequeueForWorker? || step.ResumeRun? || step.CancelOrphans?
  }

  type State = map<RunId, Run>

  function Act(workflow: RunId -> Engine, b: State, action: Action): State {
    match action
    case Create(run, project, priority, context) =>
      if run in b then b else b[run := Init(project, priority, context)]
    case On(run, step) => if run in b then b[run := Apply(workflow(run), b[run], step)] else b
    case Sweep(step) =>
      if IsSweep(step) then map run | run in b :: Apply(workflow(run), b[run], step) else b
  }

  function ActAll(workflow: RunId -> Engine, b: State, actions: seq<Action>): State
    decreases actions
  {
    if actions == [] then b else ActAll(workflow, Act(workflow, b, actions[0]), actions[1..])
  }

  lemma {:induction false} ReachableInit(e: Engine, project: string, priority: int, context: Context)
    ensures Reachable(e, Init(project, priority, context))
  {
    assert Init(project, priority, context) == Exec(e, Init(project, priority, context), []);
  }

  ghost predicate AllReachable(workflow: RunId -> Engine, b: State) {
    forall run :: run in b ==> Reachable(workflow(run), b[run])
  }

  /** Whatever the tenants of a broker do, each run is in a state the single-run theorems speak about. */
  lemma {:induction false} BrokerRunsAreReachable(workflow: RunId -> Engine, b: State, actions: seq<Action>)
    requires AllReachable(workflow, b)
    ensures AllReachable(workflow, ActAll(workflow, b, actions))
    decreases actions
  {
    if actions != [] {
      var b' := Act(workflow, b, actions[0]);
      forall run | run in b'
        ensures Reachable(workflow(run), b'[run])
      {
        match actions[0]
        case Create(_, project, priority, context) => ReachableInit(workflow(run), project, priority, context);
        case On(_, step) =>
          if run in b {
            ReachableStep(workflow(run), b[run], step);
          }
        case Sweep(step) =>
          if run in b {
            ReachableStep(workflow(run), b[run], step);
          }
      }
      BrokerRunsAreReachable(workflow, b', actions[1..]);
    }
  }
}
