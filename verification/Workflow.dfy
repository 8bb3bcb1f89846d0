/** The data of one workflow run: the expanded node DAG, the node-job rows, the run row's static
    columns and the injected `$from` resolver. */
module Workflow {
  import opened Options

  type NodeId = string

  // ---------------------------------------------------------------- the DAG

  /** One entry of the expanded DAG. `input` nodes park for a human; every other node runs a module. */
  datatype Node = Node(
    id: NodeId,
    deps: seq<NodeId>,
    input: bool,
    gpu: bool,
    model: Option<string>,
    moduleName: string,
    skipIf: Option<string>)

  ghost predicate DistinctIds(nodes: seq<Node>) {
    forall i, j :: 0 <= i < j < |nodes| ==> nodes[i].id != nodes[j].id
  }

  predicate HasId(nodes: seq<Node>, id: NodeId) {
    exists n :: n in nodes && n.id == id
  }

  ghost predicate DepsExist(nodes: seq<Node>) {
    forall n, d :: n in nodes && d in n.deps ==> HasId(nodes, d)
  }

  /** `rank` numbers the nodes so that every dependency comes strictly before its dependent. */
  ghost predicate Ranks(nodes: seq<Node>, rank: map<NodeId, nat>) {
    && (forall n :: n in nodes ==> n.id in rank)
    && (forall n, d :: n in nodes && d in n.deps && d in rank ==> rank[d] < rank[n.id])
  }

  ghost predicate Acyclic(nodes: seq<Node>) {
    exists rank :: Ranks(nodes, rank)
  }

  /** What the dispatcher needs of a workflow: it has nodes, one id each, and its edges form a DAG. */
  ghost predicate WellFormed(nodes: seq<Node>) {
    nodes != [] && DistinctIds(nodes) && DepsExist(nodes) && Acyclic(nodes)
  }

  // --------------------------------------------------------------- the rows

  datatype Status = Queued | Running | AwaitingInput | Completed | Failed | Cancelled | Skipped

  /** A satisfied predecessor. */
  predicate Done(st: Status) {
    st.Completed? || st.Skipped?
  }

  /** Work a worker or a human can still act on. */
  predicate Live(st: Status) {
    st.Queued? || st.Running? || st.AwaitingInput?
  }

  /** The statuses that a terminal mark refuses to overwrite. */
  predicate Terminal(st: Status) {
    st.Completed? || st.Failed? || st.Cancelled?
  }

  datatype Queue = Cpu | Gpu

  type Delta = map<string, string>
  type Context = map<string, Delta>

  /** A row identity. The store draws a random UUID for every insert; here an insert is named by its
      node and by the generation of the action that made it, which no earlier insert shares. */
  datatype JobId = JobId(node: NodeId, gen: nat)

  datatype Row = Row(
    id: JobId,
    status: Status,
    queue: Queue,
    model: Option<string>,
    project: string,
    priority: int,
    claimedBy: Option<string>,
    lease: Option<int>,
    retries: nat,
    delta: Delta,
    input: bool,
    patch: bool)

  /** The rows of one run, keyed by the node id that (run, node) makes unique. */
  type Table = map<NodeId, Row>

  // ----------------------------------------------------- injected evaluation

  /** Outcome of evaluating a `skip_if` reference. `Unresolvable` is a KeyError or a TypeError. */
  datatype Verdict = Truthy | Falsy | Unresolvable

  /** The loaded workflow together with the host's reference resolver. */
  datatype Engine = Engine(
    nodes: seq<Node>,
    exempt: set<string>,
    resolve: (string, Context) -> Verdict)
}
