/** Compilation of a workflow's steps into one node DAG: pipeline schemas are inlined under prefixed
    ids and step-level dependencies become node-level ones. */
module DagCompiler {
  import opened Options
  import opened Workflow

  datatype SchemaNode = SchemaNode(
    id: string,
    deps: seq<string>,
    gpu: bool,
    model: Option<string>,
    moduleName: Option<string>,
    skipIf: Option<string>)

  /** A pipeline step carries its loaded schema; any other kind is ignored by the expansion. */
  datatype StepKind = InputKind | PipelineKind(nodes: seq<SchemaNode>) | OtherKind

  datatype FlowStep = FlowStep(id: string, kind: StepKind, deps: seq<string>, skipIf: Option<string>)

  function Qualified(step: string, node: string): string {
    step + "/" + node
  }

  // --------------------------------------------------------- leaves of a step

  predicate Referenced(nodes: seq<SchemaNode>, id: string) {
    exists n :: n in nodes && id in n.deps
  }

  function LeavesFrom(sid: string, all: seq<SchemaNode>, nodes: seq<SchemaNode>): (r: seq<string>)
    ensures forall l :: l in r <==> exists n :: n in nodes && !Referenced(all, n.id) && l == Qualified(sid, n.id)
  {
    if nodes == [] then [] else
      (if Referenced(all, nodes[0].id) then [] else [Qualified(sid, nodes[0].id)]) + LeavesFrom(sid, all, nodes[1..])
  }

  /** The node ids that finish a step. A cyclic schema has no leaf and falls back to its last node. */
  function Leaves(st: FlowStep): seq<string>
    requires st.kind.PipelineKind? ==> st.kind.nodes != []
  {
    match st.kind
    case InputKind => [st.id]
    case OtherKind => []
    case PipelineKind(nodes) =>
      var leaves := LeavesFrom(st.id, nodes, nodes);
      if leaves == [] then [Qualified(st.id, nodes[|nodes| - 1].id)] else leaves
  }

  /** A step is over when its input is answered, or when every schema node that no other one depends on is; if
      there is no such node, the last one stands for the schema. */
  lemma {:induction false} LeavesExactly(st: FlowStep)
    requires st.kind.PipelineKind? ==> st.kind.nodes != []
    ensures st.kind.InputKind? ==> Leaves(st) == [st.id]
    ensures st.kind.PipelineKind? ==>
      var nodes := st.kind.nodes;
      if forall n :: n in nodes ==> Referenced(nodes, n.id) then
        Leaves(st) == [st.id + "/" + nodes[|nodes| - 1].id]
      else
        forall l :: l in Leaves(st) <==>
          exists n :: n in nodes && (forall m :: m in nodes ==> n.id !in m.deps) && l == st.id + "/" + n.id
  {
    if st.kind.PipelineKind? {
      var nodes := st.kind.nodes;
      var leaves := LeavesFrom(st.id, nodes, nodes);
      assert leaves != [] ==> leaves[0] in leaves;
      forall n | n in nodes && !Referenced(nodes, n.id)
        ensures Qualified(st.id, n.id) in leaves
      {
      }
    }
  }

  /** No pipeline of the workflow is empty; the expansion of an empty one raises. */
  predicate SchemasNonEmpty(steps: seq<FlowStep>) {
    forall st :: st in steps && st.kind.PipelineKind? ==> st.kind.nodes != []
  }

  function LeafMap(steps: seq<FlowStep>): map<string, seq<string>>
    requires SchemasNonEmpty(steps)
  {
    if steps == [] then map[] else
      var st := steps[|steps| - 1];
      assert st in steps;
      var m := LeafMap(steps[..|steps| - 1]);
      if st.kind.OtherKind? then m else m[st.id := Leaves(st)]
  }

  function ExpandDeps(leaves: map<string, seq<string>>, deps: seq<string>): (r: seq<string>)
    ensures forall x :: x in r <==>
      exists d :: d in deps && (if d in leaves then x in leaves[d] else x == d)
  {
    if deps == [] then [] else
      (if deps[0] in leaves then leaves[deps[0]] else [deps[0]]) + ExpandDeps(leaves, deps[1..])
  }

  // ------------------------------------------------------ nodes of a workflow

  function QualifyAll(sid: string, deps: seq<string>): (r: seq<string>)
    ensures forall x :: x in r <==> exists d :: d in deps && x == Qualified(sid, d)
  {
    if deps == [] then [] else [Qualified(sid, deps[0])] + QualifyAll(sid, deps[1..])
  }

  /** A source of the schema inherits the step's dependencies; any other node keeps its own. */
  function PipelineNode(st: FlowStep, stepDeps: seq<string>, sn: SchemaNode): Node {
    Node(Qualified(st.id, sn.id),
         QualifyAll(st.id, sn.deps) + (if sn.deps == [] then stepDeps else []),
         false, sn.gpu, sn.model,
         if sn.moduleName.Some? then sn.moduleName.value else sn.id,
         if sn.skipIf.Some? then sn.skipIf else st.skipIf)
  }

  function PipelineNodes(st: FlowStep, stepDeps: seq<string>, nodes: seq<SchemaNode>): (r: seq<Node>)
    ensures forall n :: n in r <==> exists sn :: sn in nodes && n == PipelineNode(st, stepDeps, sn)
    ensures |r| == |nodes|
  {
    if nodes == [] then [] else [PipelineNode(st, stepDeps, nodes[0])] + PipelineNodes(st, stepDeps, nodes[1..])
  }

  function InputNode(st: FlowStep, stepDeps: seq<string>): Node {
    Node(st.id, stepDeps, true, false, None, "__input__", st.skipIf)
  }

  function StepNodes(leaves: map<string, seq<string>>, st: FlowStep): seq<Node> {
    var stepDeps := ExpandDeps(leaves, st.deps);
    match st.kind
    case InputKind => [InputNode(st, stepDeps)]
    case OtherKind => []
    case PipelineKind(nodes) => PipelineNodes(st, stepDeps, nodes)
  }

  function AllNodes(leaves: map<string, seq<string>>, steps: seq<FlowStep>): seq<Node> {
    if steps == [] then [] else AllNodes(leaves, steps[..|steps| - 1]) + StepNodes(leaves, steps[|steps| - 1])
  }

  lemma {:induction false} StepNodesIncluded(leaves: map<string, seq<string>>, steps: seq<FlowStep>, st: FlowStep,
                                             n: Node)
    requires st in steps && n in StepNodes(leaves, st)
    ensures n in AllNodes(leaves, steps)
  {
    var last := |steps| - 1;
    if st != steps[last] {
      var i :| 0 <= i < |steps| && steps[i] == st;
      assert steps[..last][i] == st;
      StepNodesIncluded(leaves, steps[..last], st, n);
    }
  }

  lemma {:induction false} NodeHasStep(leaves: map<string, seq<string>>, steps: seq<FlowStep>, n: Node)
    returns (st: FlowStep)
    requires n in AllNodes(leaves, steps)
    ensures st in steps && n in StepNodes(leaves, st)
  {
    var last := |steps| - 1;
    if n in StepNodes(leaves, steps[last]) {
      st := steps[last];
    } else {
      st := NodeHasStep(leaves, steps[..last], n);
    }
  }

  function Compiled(steps: seq<FlowStep>): seq<Node>
    requires SchemasNonEmpty(steps)
  {
    AllNodes(LeafMap(steps), steps)
  }

  /** First pass: every step's leaves. An empty pipeline has no last node to fall back to and raises. */
  method CollectLeaves(steps: seq<FlowStep>) returns (r: Option<map<string, seq<string>>>)
    ensures r.Some? <==> SchemasNonEmpty(steps)
    ensures r.Some? ==> r.value == LeafMap(steps)
  {
    var stepLeaves: map<string, seq<string>> := map[];
    for i := 0 to |steps|
      invariant SchemasNonEmpty(steps[..i])
      invariant stepLeaves == LeafMap(steps[..i])
    {
      var st := steps[i];
      assert steps[..i + 1][..i] == steps[..i] && steps[..i + 1][i] == st;
      if st.kind.PipelineKind? && st.kind.nodes == [] {
        assert st in steps;
        return None;
      }
      if !st.kind.OtherKind? {
        stepLeaves := stepLeaves[st.id := Leaves(st)];
      }
    }
    assert steps[..|steps|] == steps;
    r := Some(stepLeaves);
  }

  method AppendPipeline(out: seq<Node>, st: FlowStep, stepDeps: seq<string>, nodes: seq<SchemaNode>)
    returns (r: seq<Node>)
    ensures r == out + PipelineNodes(st, stepDeps, nodes)
  {
    r := out;
    for j := 0 to |nodes|
      invariant r + PipelineNodes(st, stepDeps, nodes[j..]) == out + PipelineNodes(st, stepDeps, nodes)
    {
      assert nodes[j..][1..] == nodes[j + 1..];
      r := r + [PipelineNode(st, stepDeps, nodes[j])];
    }
  }

  /** The whole expansion: leaves first, then the nodes of every step in order. */
  method NodesOf(steps: seq<FlowStep>) returns (r: Option<seq<Node>>)
    ensures r.Some? <==> SchemasNonEmpty(steps)
    ensures r.Some? ==> r.value == Compiled(steps) && LaidOut(steps, r.value)
  {
    var leaves := CollectLeaves(steps);
    if leaves.None? {
      return None;
    }
    var stepLeaves, out: seq<Node> := leaves.value, [];
    for i := 0 to |steps|
      invariant out == AllNodes(stepLeaves, steps[..i])
    {
      var st := steps[i];
      assert steps[..i + 1][..i] == steps[..i] && steps[..i + 1][i] == st;
      var stepDeps := ExpandDeps(stepLeaves, st.deps);
      match st.kind {
        case InputKind =>
          out := out + [InputNode(st, stepDeps)];
        case OtherKind =>
        case PipelineKind(nodes) =>
          out := AppendPipeline(out, st, stepDeps, nodes);
      }
    }
    assert steps[..|steps|] == steps;
    CompiledNodes(steps);
    r := Some(out);
  }

  // --------------------------------------------------- what each node carries

  /** How many nodes a step expands to. */
  function Width(st: FlowStep): nat {
    match st.kind
    case InputKind => 1
    case OtherKind => 0
    case PipelineKind(nodes) => |nodes|
  }

  /** Where the nodes of step `i` begin. */
  function Offset(steps: seq<FlowStep>, i: nat): nat
    requires i <= |steps|
  {
    if i == 0 then 0 else Offset(steps, i - 1) + Width(steps[i - 1])
  }

  /** `n` is schema node `sn` as step `st` runs it: its own gpu flag and model, the module it names or else its
      id, its own `skip_if` or else the step's. */
  ghost predicate Runs(st: FlowStep, sn: SchemaNode, n: Node) {
    && n.id == st.id + "/" + sn.id && !n.input && n.gpu == sn.gpu && n.model == sn.model
    && (sn.moduleName.Some? ==> n.moduleName == sn.moduleName.value)
    && (sn.moduleName.None? ==> n.moduleName == sn.id)
    && (sn.skipIf.Some? ==> n.skipIf == sn.skipIf)
    && (sn.skipIf.None? ==> n.skipIf == st.skipIf)
    && (sn.deps != [] ==> forall d :: d in n.deps <==> exists x :: x in sn.deps && d == st.id + "/" + x)
  }

  /** `n` is the node at which an input step parks. */
  ghost predicate Parks(st: FlowStep, n: Node) {
    n.id == st.id && n.input && !n.gpu && n.model == None && n.skipIf == st.skipIf
  }

  /** Node `j` of a step. */
  ghost predicate Carries(st: FlowStep, j: nat, n: Node) {
    match st.kind
    case InputKind => Parks(st, n)
    case OtherKind => false
    case PipelineKind(nodes) => j < |nodes| && Runs(st, nodes[j], n)
  }

  lemma {:induction false} PipelineNodesAt(st: FlowStep, stepDeps: seq<string>, nodes: seq<SchemaNode>, j: nat)
    requires j < |nodes|
    ensures Runs(st, nodes[j], PipelineNodes(st, stepDeps, nodes)[j])
  {
    if j > 0 {
      PipelineNodesAt(st, stepDeps, nodes[1..], j - 1);
    }
  }

  lemma {:induction false} StepNodesAt(leaves: map<string, seq<string>>, st: FlowStep, j: nat)
    requires j < Width(st)
    ensures |StepNodes(leaves, st)| == Width(st) && Carries(st, j, StepNodes(leaves, st)[j])
  {
    if st.kind.PipelineKind? {
      PipelineNodesAt(st, ExpandDeps(leaves, st.deps), st.kind.nodes, j);
    }
  }

  lemma {:induction false} OffsetOfPrefix(steps: seq<FlowStep>, k: nat, i: nat)
    requires i <= k <= |steps|
    ensures Offset(steps[..k], i) == Offset(steps, i) <= Offset(steps, k)
  {
    if i > 0 {
      OffsetOfPrefix(steps, k, i - 1);
    }
    if i < k {
      OffsetOfPrefix(steps, k - 1, i);
    }
  }

  /** Node `j` of step `i` is in the list, at its place. */
  ghost predicate InPlace(steps: seq<FlowStep>, nodes: seq<Node>, i: nat, j: nat) {
    && i < |steps| && j < Width(steps[i]) && Offset(steps, i) + j < |nodes|
    && Carries(steps[i], j, nodes[Offset(steps, i) + j])
  }

  /** The node at position `p` belongs to some step. */
  ghost predicate Accounted(steps: seq<FlowStep>, nodes: seq<Node>, p: nat) {
    exists i, j :: InPlace(steps, nodes, i, j) && p == Offset(steps, i) + j
  }

  lemma {:induction false} AllNodesLength(leaves: map<string, seq<string>>, steps: seq<FlowStep>)
    ensures |AllNodes(leaves, steps)| == Offset(steps, |steps|)
  {
    if steps != [] {
      var last := |steps| - 1;
      AllNodesLength(leaves, steps[..last]);
      OffsetOfPrefix(steps, last, last);
    }
  }

  /** `part` stands in `all` from position `off` on. */
  ghost predicate Stands(all: seq<Node>, part: seq<Node>, off: nat) {
    off + |part| <= |all| && forall j :: 0 <= j < |part| ==> all[off + j] == part[j]
  }

  lemma {:induction false} StandsInLonger(all: seq<Node>, more: seq<Node>, part: seq<Node>, off: nat)
    requires Stands(all, part, off)
    ensures Stands(all + more, part, off)
  {
  }

  lemma {:induction false} StandsLast(all: seq<Node>, part: seq<Node>)
    ensures Stands(all + part, part, |all|)
  {
  }

  /** The nodes of a step stand together, at the step's offset. */
  lemma {:induction false} StepNodesStand(leaves: map<string, seq<string>>, steps: seq<FlowStep>, i: nat)
    requires i < |steps|
    ensures Stands(AllNodes(leaves, steps), StepNodes(leaves, steps[i]), Offset(steps, i))
  {
    var last := |steps| - 1;
    OffsetOfPrefix(steps, last, i);
    if i < last {
      StepNodesStand(leaves, steps[..last], i);
      StandsInLonger(AllNodes(leaves, steps[..last]), StepNodes(leaves, steps[last]), StepNodes(leaves, steps[i]),
                     Offset(steps, i));
    } else {
      AllNodesLength(leaves, steps[..last]);
      StandsLast(AllNodes(leaves, steps[..last]), StepNodes(leaves, steps[last]));
    }
  }

  lemma {:induction false} AllNodesAt(leaves: map<string, seq<string>>, steps: seq<FlowStep>, i: nat, j: nat)
    requires i < |steps| && j < Width(steps[i])
    ensures InPlace(steps, AllNodes(leaves, steps), i, j)
  {
    StepNodesStand(leaves, steps, i);
    StepNodesAt(leaves, steps[i], j);
  }

  lemma {:induction false} PositionHasStep(steps: seq<FlowStep>, k: nat, p: nat) returns (i: nat, j: nat)
    requires k <= |steps| && p < Offset(steps, k)
    ensures i < k && j < Width(steps[i]) && p == Offset(steps, i) + j
  {
    if p < Offset(steps, k - 1) {
      i, j := PositionHasStep(steps, k - 1, p);
    } else {
      i, j := k - 1, p - Offset(steps, k - 1);
    }
  }

  /** The list, position by position: the steps in order, each pipeline's nodes in schema order, every node with
      what its step and schema declare; and nothing else is in the list. */
  ghost predicate LaidOut(steps: seq<FlowStep>, nodes: seq<Node>) {
    && (forall i: nat, j: nat :: i < |steps| && j < Width(steps[i]) ==> InPlace(steps, nodes, i, j))
    && (forall p :: 0 <= p < |nodes| ==> Accounted(steps, nodes, p))
  }

  lemma {:induction false} CompiledNodes(steps: seq<FlowStep>)
    requires SchemasNonEmpty(steps)
    ensures LaidOut(steps, Compiled(steps))
  {
    forall i: nat, j: nat | i < |steps| && j < Width(steps[i])
      ensures InPlace(steps, Compiled(steps), i, j)
    {
      AllNodesAt(LeafMap(steps), steps, i, j);
    }
    AllNodesLength(LeafMap(steps), steps);
    forall p | 0 <= p < |Compiled(steps)|
      ensures Accounted(steps, Compiled(steps), p)
    {
      var i, j := PositionHasStep(steps, |steps|, p);
      assert InPlace(steps, Compiled(steps), i, j);
    }
  }

  // --------------------------------------------------------- well-formed input

  ghost predicate SchemaRanks(nodes: seq<SchemaNode>, rank: map<string, nat>) {
    && (forall n :: n in nodes ==> n.id in rank)
    && (forall n, d :: n in nodes && d in n.deps ==> d in rank && rank[d] < rank[n.id])
  }

  predicate HasSchemaId(nodes: seq<SchemaNode>, id: string) {
    exists n :: n in nodes && n.id == id
  }

  /** A schema the loader accepts: non-empty, one node per id, dependencies inside it and acyclic. */
  ghost predicate GoodSchema(nodes: seq<SchemaNode>) {
    && nodes != []
    && (forall i, j :: 0 <= i < j < |nodes| ==> nodes[i].id != nodes[j].id)
    && (forall n, d :: n in nodes && d in n.deps ==> HasSchemaId(nodes, d))
    && (exists rank :: SchemaRanks(nodes, rank))
  }

  /** `id` names a node that step `st` expands to. */
  predicate Owns(st: FlowStep, id: string) {
    match st.kind
    case InputKind => id == st.id
    case OtherKind => false
    case PipelineKind(nodes) => exists sn :: sn in nodes && id == Qualified(st.id, sn.id)
  }

  predicate ExpandsTo(steps: seq<FlowStep>, id: string) {
    exists st :: st in steps && st.id == id && !st.kind.OtherKind?
  }

  predicate NamesNode(steps: seq<FlowStep>, id: string) {
    exists st :: st in steps && Owns(st, id)
  }

  /** Every dependency of an expanding step names an expanding step or one of its nodes. */
  ghost predicate DependenciesNamed(steps: seq<FlowStep>) {
    forall st, d :: st in steps && !st.kind.OtherKind? && d in st.deps ==>
      ExpandsTo(steps, d) || NamesNode(steps, d)
  }

  predicate DistinctSteps(steps: seq<FlowStep>) {
    forall i, j :: 0 <= i < j < |steps| ==> steps[i].id != steps[j].id
  }

  /** Steps with distinct ids and good schemas. Nothing is said about what their dependencies name. */
  ghost predicate Inlinable(steps: seq<FlowStep>) {
    && SchemasNonEmpty(steps) && DistinctSteps(steps)
    && (forall st :: st in steps && st.kind.PipelineKind? ==> GoodSchema(st.kind.nodes))
  }

  /** `rank` numbers the steps so that what an expanding step depends on, a step or a node of one, comes
      strictly before it. */
  ghost predicate StepRanks(steps: seq<FlowStep>, rank: map<string, nat>) {
    && (forall st :: st in steps ==> st.id in rank)
    && (forall st, d :: st in steps && !st.kind.OtherKind? && d in st.deps ==>
          StepOf(d) in rank && rank[StepOf(d)] < rank[st.id])
  }

  /** What a workflow author owes the compiler: distinct slash-free step ids, good schemas, dependencies that
      name an expanding step or one of its nodes, and no cycle. */
  ghost predicate GoodSteps(steps: seq<FlowStep>) {
    && Inlinable(steps)
    && (forall st :: st in steps ==> '/' !in st.id)
    && DependenciesNamed(steps)
    && (exists rank :: StepRanks(steps, rank))
  }

  lemma {:induction false} SameIdSameStep(steps: seq<FlowStep>, a: FlowStep, b: FlowStep)
    requires DistinctSteps(steps) && a in steps && b in steps && a.id == b.id
    ensures a == b
  {
    var i :| 0 <= i < |steps| && steps[i] == a;
    var j :| 0 <= j < |steps| && steps[j] == b;
    assert i == j;
  }

  // ------------------------------------------------------ ids and their steps

  /** The part of a node id before the first slash. */
  function StepOf(id: string): string {
    if id == [] || id[0] == '/' then [] else [id[0]] + StepOf(id[1..])
  }

  /** The part of a node id after the first slash. */
  function InnerOf(id: string): string {
    if id == [] then [] else if id[0] == '/' then id[1..] else InnerOf(id[1..])
  }

  lemma {:induction false} QualifiedSplits(sid: string, node: string)
    requires '/' !in sid
    ensures StepOf(sid) == sid && InnerOf(sid) == []
    ensures StepOf(Qualified(sid, node)) == sid && InnerOf(Qualified(sid, node)) == node
  {
    if sid == [] {
      assert Qualified(sid, node)[1..] == node;
    } else {
      assert Qualified(sid, node)[1..] == Qualified(sid[1..], node);
      QualifiedSplits(sid[1..], node);
      assert sid == [sid[0]] + sid[1..];
    }
  }

  lemma {:induction false} LeafMapLooksUp(steps: seq<FlowStep>, st: FlowStep)
    requires SchemasNonEmpty(steps) && DistinctSteps(steps)
    requires st in steps && !st.kind.OtherKind?
    ensures st.id in LeafMap(steps) && LeafMap(steps)[st.id] == Leaves(st)
  {
    var last := |steps| - 1;
    if st != steps[last] {
      var i :| 0 <= i < |steps| && steps[i] == st;
      assert steps[..last][i] == st;
      LeafMapLooksUp(steps[..last], st);
    }
  }

  lemma {:induction false} LeafMapKeys(steps: seq<FlowStep>, id: string)
    requires SchemasNonEmpty(steps)
    ensures id in LeafMap(steps) <==> ExpandsTo(steps, id)
  {
    if steps != [] {
      var last := |steps| - 1;
      LeafMapKeys(steps[..last], id);
      assert steps == steps[..last] + [steps[last]];
    }
  }
}
