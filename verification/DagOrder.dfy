/** The compiled DAG orders nodes exactly as the workflow orders its steps. */
module DagOrder {
  import opened Workflow
  import opened Arithmetic
  import opened FiniteSets
  import opened Reachability
  import opened DagCompiler
  import opened DagNames

  function NodeEdges(nodes: seq<Node>): Edges {
    set n, d | n in nodes && d in n.deps :: (d, n.id)
  }

  /** An expanding step comes after each step it depends on, or depends on a node of. */
  function StepEdges(steps: seq<FlowStep>): Edges {
    set st, d | st in steps && !st.kind.OtherKind? && d in st.deps :: (StepOf(d), st.id)
  }

  lemma {:induction false} OwnerIsStepOf(steps: seq<FlowStep>, st: FlowStep, id: string)
    requires GoodSteps(steps) && st in steps && Owns(st, id)
    ensures StepOf(id) == st.id
  {
    QualifiedSplits(st.id, "");
    if st.kind.PipelineKind? {
      var sn :| sn in st.kind.nodes && id == Qualified(st.id, sn.id);
      QualifiedSplits(st.id, sn.id);
    }
  }

  /** A compiled node comes from a step that owns it. */
  lemma {:induction false} NodeHasOwner(steps: seq<FlowStep>, n: Node) returns (st: FlowStep)
    requires Inlinable(steps) && n in Compiled(steps)
    ensures st in steps && Owns(st, n.id) && n in StepNodes(LeafMap(steps), st)
  {
    st := NodeHasStep(LeafMap(steps), steps, n);
    if st.kind.PipelineKind? {
      var stepDeps := ExpandDeps(LeafMap(steps), st.deps);
      var sn :| sn in st.kind.nodes && n == PipelineNode(st, stepDeps, sn);
      assert n.id == Qualified(st.id, sn.id);
    }
  }

  lemma {:induction false} OwnedHasNode(steps: seq<FlowStep>, st: FlowStep, id: string) returns (n: Node)
    requires Inlinable(steps) && st in steps && Owns(st, id)
    ensures n in Compiled(steps) && n.id == id
  {
    var stepDeps := ExpandDeps(LeafMap(steps), st.deps);
    if st.kind.InputKind? {
      n := InputNode(st, stepDeps);
    } else {
      var sn :| sn in st.kind.nodes && id == Qualified(st.id, sn.id);
      n := PipelineNode(st, stepDeps, sn);
    }
    StepNodesIncluded(LeafMap(steps), steps, st, n);
  }

  lemma {:induction false} LeavesOwned(st: FlowStep, l: string)
    requires st.kind.PipelineKind? ==> st.kind.nodes != []
    requires l in Leaves(st)
    ensures Owns(st, l)
  {
  }

  /** The two shapes of a compiled edge. */
  ghost predicate InnerEdge(st: FlowStep, d: string, id: string) {
    st.kind.PipelineKind? &&
    exists sn, sd :: sn in st.kind.nodes && sd in sn.deps && d == Qualified(st.id, sd) && id == Qualified(st.id, sn.id)
  }

  ghost predicate BarrierEdge(steps: seq<FlowStep>, a: FlowStep, b: FlowStep, d: string, id: string) {
    a in steps && (exists s :: s in b.deps && StepOf(s) == a.id) && Owns(a, d) && Owns(b, id)
  }

  lemma {:induction false} StepNodeEdge(steps: seq<FlowStep>, b: FlowStep, n: Node, d: string)
    requires SchemasNonEmpty(steps) && n in StepNodes(LeafMap(steps), b) && d in n.deps
    ensures d in ExpandDeps(LeafMap(steps), b.deps) || InnerEdge(b, d, n.id)
  {
    var stepDeps := ExpandDeps(LeafMap(steps), b.deps);
    if d !in stepDeps {
      var sn :| sn in b.kind.nodes && n == PipelineNode(b, stepDeps, sn);
      assert d in QualifyAll(b.id, sn.deps);
    }
  }

  /** What an expanded step dependency is: a leaf of the step it names, or the node it names. */
  lemma {:induction false} StepDepOwner(steps: seq<FlowStep>, b: FlowStep, d: string) returns (a: FlowStep)
    requires GoodSteps(steps) && b in steps && !b.kind.OtherKind? && d in ExpandDeps(LeafMap(steps), b.deps)
    ensures a in steps && Owns(a, d) && exists s :: s in b.deps && StepOf(s) == a.id
  {
    var leaves := LeafMap(steps);
    var s :| s in b.deps && (if s in leaves then d in leaves[s] else d == s);
    LeafMapKeys(steps, s);
    if ExpandsTo(steps, s) {
      a :| a in steps && a.id == s && !a.kind.OtherKind?;
      LeafMapLooksUp(steps, a);
      LeavesOwned(a, d);
      QualifiedSplits(s, "");
    } else {
      assert NamesNode(steps, s);
      a :| a in steps && Owns(a, s);
      OwnerIsStepOf(steps, a, s);
    }
  }

  lemma {:induction false} EdgeShape(steps: seq<FlowStep>, d: string, id: string) returns (a: FlowStep, b: FlowStep)
    requires GoodSteps(steps) && (d, id) in NodeEdges(Compiled(steps))
    ensures b in steps && Owns(b, id) && (InnerEdge(b, d, id) || BarrierEdge(steps, a, b, d, id))
  {
    var n :| n in Compiled(steps) && d in n.deps && n.id == id;
    b := NodeHasOwner(steps, n);
    StepNodeEdge(steps, b, n, d);
    a := b;
    if !InnerEdge(b, d, id) {
      a := StepDepOwner(steps, b, d);
    }
  }

  // ------------------------------------------ node order implies step order

  lemma {:induction false} EdgeProjects(steps: seq<FlowStep>, d: string, id: string)
    requires GoodSteps(steps) && (d, id) in NodeEdges(Compiled(steps))
    ensures ReachesOrIs(StepEdges(steps), StepOf(d), StepOf(id))
  {
    var a, b := EdgeShape(steps, d, id);
    OwnerIsStepOf(steps, b, id);
    if InnerEdge(b, d, id) {
      var sn, sd :| sn in b.kind.nodes && sd in sn.deps && d == Qualified(b.id, sd) && id == Qualified(b.id, sn.id);
      QualifiedSplits(b.id, sd);
    } else {
      OwnerIsStepOf(steps, a, d);
      EdgeReaches(StepEdges(steps), a.id, b.id);
    }
  }

  lemma {:induction false} PathProjects(steps: seq<FlowStep>, p: seq<string>)
    requires GoodSteps(steps) && Path(NodeEdges(Compiled(steps)), p)
    ensures ReachesOrIs(StepEdges(steps), StepOf(p[0]), StepOf(p[|p| - 1]))
  {
    forall e | e in NodeEdges(Compiled(steps))
      ensures ReachesOrIs(StepEdges(steps), StepOf(e.0), StepOf(e.1))
    {
      EdgeProjects(steps, e.0, e.1);
    }
    PathImage(NodeEdges(Compiled(steps)), StepEdges(steps), StepOf, p);
  }

  // ------------------------------------------ step order implies node order

  lemma {:induction false} InnerEdgeExists(steps: seq<FlowStep>, st: FlowStep, sn: SchemaNode, d: string)
    requires Inlinable(steps)
    requires st in steps && st.kind.PipelineKind? && sn in st.kind.nodes && d in sn.deps
    ensures (Qualified(st.id, d), Qualified(st.id, sn.id)) in NodeEdges(Compiled(steps))
  {
    var n := PipelineNode(st, ExpandDeps(LeafMap(steps), st.deps), sn);
    StepNodesIncluded(LeafMap(steps), steps, st, n);
    assert n in Compiled(steps) && Qualified(st.id, d) in n.deps;
  }

  ghost function Above(nodes: seq<SchemaNode>, rank: map<string, nat>, r: nat): set<string>
    requires SchemaRanks(nodes, rank)
  {
    set n | n in nodes && rank[n.id] > r :: n.id
  }

  /** Every node of a pipeline is, or leads to, one of its leaves. */
  lemma {:induction false} ReachesALeaf(steps: seq<FlowStep>, st: FlowStep, rank: map<string, nat>, sn: SchemaNode)
    returns (leaf: string)
    requires Inlinable(steps) && st in steps && st.kind.PipelineKind?
    requires SchemaRanks(st.kind.nodes, rank) && sn in st.kind.nodes
    ensures leaf in Leaves(st)
    ensures ReachesOrIs(NodeEdges(Compiled(steps)), Qualified(st.id, sn.id), leaf)
    decreases |Above(st.kind.nodes, rank, rank[sn.id])|
  {
    var nodes, es := st.kind.nodes, NodeEdges(Compiled(steps));
    if Referenced(nodes, sn.id) {
      var m :| m in nodes && sn.id in m.deps;
      InnerEdgeExists(steps, st, m, sn.id);
      EdgeReaches(es, Qualified(st.id, sn.id), Qualified(st.id, m.id));
      assert m.id in Above(nodes, rank, rank[sn.id]);
      assert Above(nodes, rank, rank[m.id]) < Above(nodes, rank, rank[sn.id]) by {
        assert m.id !in Above(nodes, rank, rank[m.id]);
      }
      SubsetSize(Above(nodes, rank, rank[m.id]), Above(nodes, rank, rank[sn.id]));
      leaf := ReachesALeaf(steps, st, rank, m);
      ReachesTransitive(es, Qualified(st.id, sn.id), Qualified(st.id, m.id), leaf);
    } else {
      leaf := Qualified(st.id, sn.id);
      assert leaf in LeavesFrom(st.id, nodes, nodes);
    }
  }

  /** Every node of a pipeline is, or is led to from, one of its sources. */
  lemma {:induction false} ReachedFromASource(steps: seq<FlowStep>, st: FlowStep, rank: map<string, nat>,
                                              sn: SchemaNode)
    returns (source: SchemaNode)
    requires Inlinable(steps) && st in steps && st.kind.PipelineKind?
    requires SchemaRanks(st.kind.nodes, rank) && sn in st.kind.nodes
    ensures source in st.kind.nodes && source.deps == []
    ensures ReachesOrIs(NodeEdges(Compiled(steps)), Qualified(st.id, source.id), Qualified(st.id, sn.id))
    decreases rank[sn.id]
  {
    if sn.deps == [] {
      source := sn;
    } else {
      var d := sn.deps[0];
      assert HasSchemaId(st.kind.nodes, d);
      var m :| m in st.kind.nodes && m.id == d;
      InnerEdgeExists(steps, st, sn, d);
      EdgeReaches(NodeEdges(Compiled(steps)), Qualified(st.id, d), Qualified(st.id, sn.id));
      source := ReachedFromASource(steps, st, rank, m);
      ReachesTransitive(NodeEdges(Compiled(steps)), Qualified(st.id, source.id), Qualified(st.id, d),
                        Qualified(st.id, sn.id));
    }
  }

  lemma {:induction false} OwnedReachesALeaf(steps: seq<FlowStep>, a: FlowStep, x: string) returns (leaf: string)
    requires Inlinable(steps) && a in steps && Owns(a, x)
    ensures leaf in Leaves(a) && ReachesOrIs(NodeEdges(Compiled(steps)), x, leaf)
  {
    if a.kind.InputKind? {
      leaf := x;
    } else {
      var sn :| sn in a.kind.nodes && x == Qualified(a.id, sn.id);
      assert GoodSchema(a.kind.nodes);
      var rank :| SchemaRanks(a.kind.nodes, rank);
      leaf := ReachesALeaf(steps, a, rank, sn);
    }
  }

  /** From every expanded dependency of a step there is a way to every node of the step. */
  lemma {:induction false} DependencyReachesOwned(steps: seq<FlowStep>, b: FlowStep, d: string, y: string)
    requires Inlinable(steps) && b in steps && d in ExpandDeps(LeafMap(steps), b.deps) && Owns(b, y)
    ensures Reaches(NodeEdges(Compiled(steps)), d, y)
  {
    var es, leaves := NodeEdges(Compiled(steps)), LeafMap(steps);
    var stepDeps := ExpandDeps(leaves, b.deps);
    if b.kind.InputKind? {
      var n := InputNode(b, stepDeps);
      StepNodesIncluded(leaves, steps, b, n);
      assert n in Compiled(steps) && d in n.deps;
      EdgeReaches(es, d, y);
    } else {
      var sn :| sn in b.kind.nodes && y == Qualified(b.id, sn.id);
      assert GoodSchema(b.kind.nodes);
      var rank :| SchemaRanks(b.kind.nodes, rank);
      var source := ReachedFromASource(steps, b, rank, sn);
      var n := PipelineNode(b, stepDeps, source);
      StepNodesIncluded(leaves, steps, b, n);
      assert n in Compiled(steps) && d in n.deps;
      EdgeReaches(es, d, n.id);
      ReachesTransitive(es, d, n.id, y);
    }
  }

  lemma {:induction false} LeafIsExpanded(steps: seq<FlowStep>, a: FlowStep, b: FlowStep, leaf: string)
    requires Inlinable(steps) && a in steps && !a.kind.OtherKind? && a.id in b.deps && leaf in Leaves(a)
    ensures leaf in ExpandDeps(LeafMap(steps), b.deps)
  {
    LeafMapLooksUp(steps, a);
  }

  lemma {:induction false} DirectDependencyOrders(steps: seq<FlowStep>, a: FlowStep, b: FlowStep, x: string, y: string)
    requires Inlinable(steps) && a in steps && b in steps && a.id in b.deps
    requires Owns(a, x) && Owns(b, y)
    ensures Reaches(NodeEdges(Compiled(steps)), x, y)
  {
    var leaf := OwnedReachesALeaf(steps, a, x);
    LeafIsExpanded(steps, a, b, leaf);
    DependencyReachesOwned(steps, b, leaf, y);
    ReachesTransitive(NodeEdges(Compiled(steps)), x, leaf, y);
  }

  // ------------------------------------------------------ barrier semantics

  /** The moments of a workflow: a step begins, a node runs, a step is over. */
  datatype Moment = Begins(step: string) | Runs(node: string) | Over(step: string)

  ghost predicate NodeOf(steps: seq<FlowStep>, step: string, id: string) {
    exists st :: st in steps && st.id == step && Owns(st, id)
  }

  ghost predicate DependsOn(steps: seq<FlowStep>, step: string, d: string) {
    exists st :: st in steps && st.id == step && !st.kind.OtherKind? && d in st.deps
  }

  ghost predicate InnerOrder(steps: seq<FlowStep>, d: string, id: string) {
    exists st :: st in steps && InnerEdge(st, d, id)
  }

  /** What a workflow means. A step begins after every step and every node it depends on; its nodes run after
      it begins, in the order of its schema; it is over after all its nodes. */
  ghost predicate Precedes(steps: seq<FlowStep>, p: Moment, q: Moment) {
    match q
    case Runs(id) => (p.Runs? && InnerOrder(steps, p.node, id)) || (p.Begins? && NodeOf(steps, p.step, id))
    case Over(step) => p.Runs? && NodeOf(steps, step, p.node)
    case Begins(step) =>
      || (p.Over? && ExpandsTo(steps, p.step) && DependsOn(steps, step, p.step))
      || (p.Runs? && !ExpandsTo(steps, p.node) && DependsOn(steps, step, p.node))
  }

  ghost predicate Chain(steps: seq<FlowStep>, c: seq<Moment>) {
    c != [] && forall i :: 0 <= i < |c| - 1 ==> Precedes(steps, c[i], c[i + 1])
  }

  ghost predicate Before(steps: seq<FlowStep>, p: Moment, q: Moment) {
    exists c :: Chain(steps, c) && |c| >= 2 && c[0] == p && c[|c| - 1] == q
  }

  lemma {:induction false} PrecedesIsBefore(steps: seq<FlowStep>, p: Moment, q: Moment)
    requires Precedes(steps, p, q)
    ensures Before(steps, p, q)
  {
    assert Chain(steps, [p, q]);
  }

  lemma {:induction false} BeforeTransitive(steps: seq<FlowStep>, p: Moment, q: Moment, r: Moment)
    requires Before(steps, p, q) && Before(steps, q, r)
    ensures Before(steps, p, r)
  {
    var c :| Chain(steps, c) && |c| >= 2 && c[0] == p && c[|c| - 1] == q;
    var d :| Chain(steps, d) && |d| >= 2 && d[0] == q && d[|d| - 1] == r;
    var cd := c + d[1..];
    forall i | 0 <= i < |cd| - 1
      ensures Precedes(steps, cd[i], cd[i + 1])
    {
      if i >= |c| - 1 {
        assert cd[i] == d[i - |c| + 1] && cd[i + 1] == d[i - |c| + 2];
      } else {
        assert cd[i] == c[i] && cd[i + 1] == c[i + 1];
      }
    }
    assert Chain(steps, cd);
  }

  /** An edge that a source inherits from its step says that the dependency is over when the step begins. */
  lemma {:induction false} InheritedEdgeIsBefore(steps: seq<FlowStep>, b: FlowStep, d: string, id: string)
    requires Inlinable(steps) && b in steps && Owns(b, id) && d in ExpandDeps(LeafMap(steps), b.deps)
    ensures Before(steps, Runs(d), Runs(id))
  {
    var leaves := LeafMap(steps);
    var s :| s in b.deps && (if s in leaves then d in leaves[s] else d == s);
    LeafMapKeys(steps, s);
    assert DependsOn(steps, b.id, s) && NodeOf(steps, b.id, id);
    PrecedesIsBefore(steps, Begins(b.id), Runs(id));
    if ExpandsTo(steps, s) {
      var a :| a in steps && a.id == s && !a.kind.OtherKind?;
      LeafMapLooksUp(steps, a);
      LeavesOwned(a, d);
      assert NodeOf(steps, s, d);
      PrecedesIsBefore(steps, Runs(d), Over(s));
      PrecedesIsBefore(steps, Over(s), Begins(b.id));
      BeforeTransitive(steps, Runs(d), Over(s), Begins(b.id));
    } else {
      PrecedesIsBefore(steps, Runs(d), Begins(b.id));
    }
    BeforeTransitive(steps, Runs(d), Begins(b.id), Runs(id));
  }

  lemma {:induction false} EdgeIsBefore(steps: seq<FlowStep>, d: string, id: string)
    requires Inlinable(steps) && (d, id) in NodeEdges(Compiled(steps))
    ensures Before(steps, Runs(d), Runs(id))
  {
    var n :| n in Compiled(steps) && d in n.deps && n.id == id;
    var b := NodeHasOwner(steps, n);
    StepNodeEdge(steps, b, n, d);
    if InnerEdge(b, d, id) {
      assert InnerOrder(steps, d, id);
      PrecedesIsBefore(steps, Runs(d), Runs(id));
    } else {
      InheritedEdgeIsBefore(steps, b, d, id);
    }
  }

  lemma {:induction false} PathIsBefore(steps: seq<FlowStep>, p: seq<string>)
    requires Inlinable(steps) && Path(NodeEdges(Compiled(steps)), p)
    ensures Before(steps, Runs(p[0]), Runs(p[|p| - 1]))
  {
    assert (p[0], p[1]) in NodeEdges(Compiled(steps));
    EdgeIsBefore(steps, p[0], p[1]);
    if |p| > 2 {
      PathTail(NodeEdges(Compiled(steps)), p);
      PathIsBefore(steps, p[1..]);
      BeforeTransitive(steps, Runs(p[0]), Runs(p[1]), Runs(p[|p| - 1]));
    }
  }

  /** How far the compiled edges lead from node `x` when the workflow says a moment comes after it. */
  ghost predicate Arrives(steps: seq<FlowStep>, x: string, m: Moment)
    requires Inlinable(steps)
  {
    var es := NodeEdges(Compiled(steps));
    match m
    case Runs(y) => ReachesOrIs(es, x, y)
    case Over(step) => exists st, leaf :: st in steps && st.id == step && !st.kind.OtherKind?
                                          && leaf in Leaves(st) && ReachesOrIs(es, x, leaf)
    case Begins(step) => exists st, d :: st in steps && st.id == step
                                         && d in ExpandDeps(LeafMap(steps), st.deps) && ReachesOrIs(es, x, d)
  }

  lemma {:induction false} ArrivesAtNode(steps: seq<FlowStep>, x: string, p: Moment, id: string)
    requires Inlinable(steps) && Arrives(steps, x, p) && Precedes(steps, p, Runs(id))
    ensures Reaches(NodeEdges(Compiled(steps)), x, id)
  {
    var es := NodeEdges(Compiled(steps));
    if p.Runs? {
      var st :| st in steps && InnerEdge(st, p.node, id);
      var sn, sd :| sn in st.kind.nodes && sd in sn.deps && p.node == Qualified(st.id, sd)
        && id == Qualified(st.id, sn.id);
      InnerEdgeExists(steps, st, sn, sd);
      EdgeReaches(es, p.node, id);
      ReachesTransitive(es, x, p.node, id);
    } else {
      var st, d :| st in steps && st.id == p.step && d in ExpandDeps(LeafMap(steps), st.deps) && ReachesOrIs(es, x, d);
      var owner :| owner in steps && owner.id == p.step && Owns(owner, id);
      SameIdSameStep(steps, st, owner);
      DependencyReachesOwned(steps, st, d, id);
      ReachesTransitive(es, x, d, id);
    }
  }

  lemma {:induction false} ArrivesAtOver(steps: seq<FlowStep>, x: string, p: Moment, step: string)
    requires Inlinable(steps) && Arrives(steps, x, p) && Precedes(steps, p, Over(step))
    ensures Arrives(steps, x, Over(step))
  {
    var es := NodeEdges(Compiled(steps));
    var st :| st in steps && st.id == step && Owns(st, p.node);
    var leaf := OwnedReachesALeaf(steps, st, p.node);
    ReachesTransitive(es, x, p.node, leaf);
  }

  lemma {:induction false} ArrivesAtBegins(steps: seq<FlowStep>, x: string, p: Moment, step: string)
    requires Inlinable(steps) && Arrives(steps, x, p) && Precedes(steps, p, Begins(step))
    ensures Arrives(steps, x, Begins(step))
  {
    var es := NodeEdges(Compiled(steps));
    if p.Over? && ExpandsTo(steps, p.step) && DependsOn(steps, step, p.step) {
      var b :| b in steps && b.id == step && !b.kind.OtherKind? && p.step in b.deps;
      var st, leaf :| st in steps && st.id == p.step && !st.kind.OtherKind? && leaf in Leaves(st)
        && ReachesOrIs(es, x, leaf);
      LeafIsExpanded(steps, st, b, leaf);
    } else {
      var b :| b in steps && b.id == step && !b.kind.OtherKind? && p.node in b.deps;
      LeafMapKeys(steps, p.node);
      assert p.node in ExpandDeps(LeafMap(steps), b.deps);
    }
  }

  lemma {:induction false} ArrivesNext(steps: seq<FlowStep>, x: string, p: Moment, q: Moment)
    requires Inlinable(steps) && Arrives(steps, x, p) && Precedes(steps, p, q)
    ensures Arrives(steps, x, q)
    ensures q.Runs? ==> Reaches(NodeEdges(Compiled(steps)), x, q.node)
  {
    match q
    case Runs(id) => ArrivesAtNode(steps, x, p, id);
    case Over(step) => ArrivesAtOver(steps, x, p, step);
    case Begins(step) => ArrivesAtBegins(steps, x, p, step);
  }

  lemma {:induction false} ChainFront(steps: seq<FlowStep>, c: seq<Moment>)
    requires Chain(steps, c) && |c| >= 2
    ensures Chain(steps, c[..|c| - 1]) && Precedes(steps, c[|c| - 2], c[|c| - 1])
  {
    var front := c[..|c| - 1];
    forall i | 0 <= i < |front| - 1
      ensures Precedes(steps, front[i], front[i + 1])
    {
      assert Precedes(steps, c[i], c[i + 1]);
    }
    var k := |c| - 2;
    assert Precedes(steps, c[k], c[k + 1]);
  }

  lemma {:induction false} ChainArrives(steps: seq<FlowStep>, x: string, c: seq<Moment>)
    requires Inlinable(steps) && Chain(steps, c) && c[0] == Runs(x)
    ensures Arrives(steps, x, c[|c| - 1])
    ensures |c| >= 2 && c[|c| - 1].Runs? ==> Reaches(NodeEdges(Compiled(steps)), x, c[|c| - 1].node)
  {
    if |c| >= 2 {
      ChainFront(steps, c);
      ChainArrives(steps, x, c[..|c| - 1]);
      ArrivesNext(steps, x, c[|c| - 2], c[|c| - 1]);
    }
  }

  /** Compilation keeps the meaning of the workflow, whatever its dependencies name: one node is an ancestor
      of another in the compiled DAG if and only if the workflow says that it runs before it. */
  lemma {:induction false} CompilationKeepsMeaning(steps: seq<FlowStep>, x: string, y: string)
    requires Inlinable(steps)
    ensures Reaches(NodeEdges(Compiled(steps)), x, y) <==> Before(steps, Runs(x), Runs(y))
  {
    if Reaches(NodeEdges(Compiled(steps)), x, y) {
      var p :| Path(NodeEdges(Compiled(steps)), p) && p[0] == x && p[|p| - 1] == y;
      PathIsBefore(steps, p);
    }
    if Before(steps, Runs(x), Runs(y)) {
      var c :| Chain(steps, c) && |c| >= 2 && c[0] == Runs(x) && c[|c| - 1] == Runs(y);
      ChainArrives(steps, x, c);
    }
  }

  // -------------------------------------------------- order between steps

  /** Every dependency of an expanding step names a whole step. */
  ghost predicate WholeSteps(steps: seq<FlowStep>) {
    forall st, d :: st in steps && !st.kind.OtherKind? && d in st.deps ==> ExpandsTo(steps, d)
  }

  lemma {:induction false} EdgeSteps(steps: seq<FlowStep>, d: string, id: string) returns (a: FlowStep, b: FlowStep)
    requires GoodSteps(steps) && WholeSteps(steps) && (d, id) in StepEdges(steps)
    ensures a in steps && b in steps && a.id == d && b.id == id && d in b.deps && !a.kind.OtherKind?
  {
    var st, s :| st in steps && !st.kind.OtherKind? && s in st.deps && (d, id) == (StepOf(s), st.id);
    b := st;
    assert ExpandsTo(steps, s);
    a :| a in steps && a.id == s && !a.kind.OtherKind?;
    QualifiedSplits(a.id, "");
  }

  /** An expanding step has at least one node. */
  lemma {:induction false} SomeOwned(steps: seq<FlowStep>, st: FlowStep) returns (x: string)
    requires GoodSteps(steps) && st in steps && !st.kind.OtherKind?
    ensures Owns(st, x)
  {
    x := if st.kind.InputKind? then st.id else Qualified(st.id, st.kind.nodes[0].id);
  }

  lemma {:induction false} StepPathOrders(steps: seq<FlowStep>, p: seq<string>, a: FlowStep, b: FlowStep,
                                          x: string, y: string)
    requires GoodSteps(steps) && WholeSteps(steps) && Path(StepEdges(steps), p)
    requires a in steps && b in steps && a.id == p[0] && b.id == p[|p| - 1]
    requires Owns(a, x) && Owns(b, y)
    ensures Reaches(NodeEdges(Compiled(steps)), x, y)
    decreases p
  {
    assert (p[0], p[1]) in StepEdges(steps);
    var a', c := EdgeSteps(steps, p[0], p[1]);
    SameIdSameStep(steps, a, a');
    if |p| == 2 {
      SameIdSameStep(steps, b, c);
      DirectDependencyOrders(steps, a, b, x, y);
    } else {
      assert (p[1], p[2]) in StepEdges(steps);
      var c', _ := EdgeSteps(steps, p[1], p[2]);
      SameIdSameStep(steps, c, c');
      var z := SomeOwned(steps, c);
      DirectDependencyOrders(steps, a, c, x, z);
      PathTail(StepEdges(steps), p);
      StepPathOrders(steps, p[1..], c, b, z, y);
      ReachesTransitive(NodeEdges(Compiled(steps)), x, z, y);
    }
  }

  /** Between nodes of different steps: a node is an ancestor of another only if its step is a transitive
      dependency of the other's step, and if dependencies name whole steps, exactly then. */
  lemma {:induction false} CompilationPreservesOrder(steps: seq<FlowStep>, a: FlowStep, b: FlowStep, x: string,
                                                     y: string)
    requires GoodSteps(steps)
    requires a in steps && b in steps && a != b && Owns(a, x) && Owns(b, y)
    ensures Reaches(NodeEdges(Compiled(steps)), x, y) ==> Reaches(StepEdges(steps), a.id, b.id)
    ensures WholeSteps(steps) ==>
      (Reaches(NodeEdges(Compiled(steps)), x, y) <==> Reaches(StepEdges(steps), a.id, b.id))
  {
    OwnerIsStepOf(steps, a, x);
    OwnerIsStepOf(steps, b, y);
    if a.id == b.id {
      SameIdSameStep(steps, a, b);
    }
    if Reaches(NodeEdges(Compiled(steps)), x, y) {
      var p :| Path(NodeEdges(Compiled(steps)), p) && p[0] == x && p[|p| - 1] == y;
      PathProjects(steps, p);
    }
    if WholeSteps(steps) && Reaches(StepEdges(steps), a.id, b.id) {
      var p :| Path(StepEdges(steps), p) && p[0] == a.id && p[|p| - 1] == b.id;
      StepPathOrders(steps, p, a, b, x, y);
    }
  }

  // ------------------------------------------- the compiled DAG is well formed

  /** A raw dependency of an expanding step is a dependency of some node of the step. */
  lemma {:induction false} DependencyIsUsed(steps: seq<FlowStep>, st: FlowStep, d: string) returns (n: Node)
    requires Inlinable(steps) && st in steps && !st.kind.OtherKind? && d in st.deps && !ExpandsTo(steps, d)
    ensures n in Compiled(steps) && d in n.deps
  {
    var leaves := LeafMap(steps);
    var stepDeps := ExpandDeps(leaves, st.deps);
    LeafMapKeys(steps, d);
    if st.kind.InputKind? {
      n := InputNode(st, stepDeps);
    } else {
      assert GoodSchema(st.kind.nodes);
      var rank :| SchemaRanks(st.kind.nodes, rank);
      assert st.kind.nodes[0] in st.kind.nodes;
      var source := ReachedFromASource(steps, st, rank, st.kind.nodes[0]);
      n := PipelineNode(st, stepDeps, source);
    }
    StepNodesIncluded(leaves, steps, st, n);
  }

  lemma {:induction false} NamedNodeExists(steps: seq<FlowStep>, b: FlowStep, n: Node, d: string)
    requires Inlinable(steps) && b in steps && n in StepNodes(LeafMap(steps), b) && d in n.deps
    requires forall s :: s in b.deps ==> ExpandsTo(steps, s) || NamesNode(steps, s)
    ensures HasId(Compiled(steps), d)
  {
    StepNodeEdge(steps, b, n, d);
    if InnerEdge(b, d, n.id) {
      var sn, sd :| sn in b.kind.nodes && sd in sn.deps && d == Qualified(b.id, sd) && n.id == Qualified(b.id, sn.id);
      assert GoodSchema(b.kind.nodes) && HasSchemaId(b.kind.nodes, sd);
      var _ := OwnedHasNode(steps, b, d);
    } else {
      var s :| s in b.deps && (if s in LeafMap(steps) then d in LeafMap(steps)[s] else d == s);
      LeafMapKeys(steps, s);
      if ExpandsTo(steps, s) {
        var a :| a in steps && a.id == s && !a.kind.OtherKind?;
        LeafMapLooksUp(steps, a);
        LeavesOwned(a, d);
        var _ := OwnedHasNode(steps, a, d);
      } else {
        var a :| a in steps && Owns(a, s);
        var _ := OwnedHasNode(steps, a, d);
      }
    }
  }

  lemma {:induction false} NamedDependenciesExist(steps: seq<FlowStep>, n: Node, d: string)
    requires Inlinable(steps) && DependenciesNamed(steps) && n in Compiled(steps) && d in n.deps
    ensures HasId(Compiled(steps), d)
  {
    var b := NodeHasOwner(steps, n);
    NamedNodeExists(steps, b, n, d);
  }

  lemma {:induction false} ExistingDependencyIsNamed(steps: seq<FlowStep>, st: FlowStep, d: string)
    requires Inlinable(steps) && DepsExist(Compiled(steps))
    requires st in steps && !st.kind.OtherKind? && d in st.deps
    ensures ExpandsTo(steps, d) || NamesNode(steps, d)
  {
    if !ExpandsTo(steps, d) {
      var n := DependencyIsUsed(steps, st, d);
      assert HasId(Compiled(steps), d);
      var m :| m in Compiled(steps) && m.id == d;
      var _ := NodeHasOwner(steps, m);
    }
  }

  /** The compiled dependencies all exist exactly when every dependency of an expanding step names an
      expanding step or a node. */
  lemma {:induction false} DependenciesExistExactly(steps: seq<FlowStep>)
    requires Inlinable(steps)
    ensures DepsExist(Compiled(steps)) <==> DependenciesNamed(steps)
  {
    if DependenciesNamed(steps) {
      forall n, d | n in Compiled(steps) && d in n.deps
        ensures HasId(Compiled(steps), d)
      {
        NamedDependenciesExist(steps, n, d);
      }
    }
    if DepsExist(Compiled(steps)) {
      forall st, d | st in steps && !st.kind.OtherKind? && d in st.deps
        ensures ExpandsTo(steps, d) || NamesNode(steps, d)
      {
        ExistingDependencyIsNamed(steps, st, d);
      }
    }
  }

  ghost function InnerRanks(st: FlowStep): (r: map<string, nat>)
    requires st.kind.PipelineKind? ==> GoodSchema(st.kind.nodes)
    ensures st.kind.PipelineKind? ==> SchemaRanks(st.kind.nodes, r)
  {
    if st.kind.PipelineKind? then var r :| SchemaRanks(st.kind.nodes, r); r else map[]
  }

  function NodesBound(nodes: seq<SchemaNode>, rank: map<string, nat>): (r: nat)
    ensures forall n :: n in nodes && n.id in rank ==> rank[n.id] < r
  {
    if nodes == [] then 1 else
      NodesBound(nodes[1..], rank) + if nodes[0].id in rank then rank[nodes[0].id] + 1 else 0
  }

  /** Above every number used inside any of the pipelines. */
  ghost function StepsBound(steps: seq<FlowStep>): (r: nat)
    requires forall st :: st in steps && st.kind.PipelineKind? ==> GoodSchema(st.kind.nodes)
    ensures r > 0
    ensures forall st, n :: st in steps && st.kind.PipelineKind? && n in st.kind.nodes ==> InnerRanks(st)[n.id] < r
  {
    if steps == [] then 1 else
      StepsBound(steps[1..]) +
      if steps[0].kind.PipelineKind? then NodesBound(steps[0].kind.nodes, InnerRanks(steps[0])) else 0
  }

  ghost function Position(st: FlowStep, id: string): nat
    requires st.kind.PipelineKind? ==> GoodSchema(st.kind.nodes)
  {
    var inner := InnerRanks(st);
    if InnerOf(id) in inner then inner[InnerOf(id)] else 0
  }

  lemma {:induction false} PositionBounded(steps: seq<FlowStep>, st: FlowStep, id: string)
    requires GoodSteps(steps) && st in steps && Owns(st, id)
    ensures Position(st, id) < StepsBound(steps)
  {
    if st.kind.PipelineKind? {
      var sn :| sn in st.kind.nodes && id == Qualified(st.id, sn.id);
      QualifiedSplits(st.id, sn.id);
    }
  }

  lemma {:induction false} InnerEdgeClimbs(steps: seq<FlowStep>, st: FlowStep, d: string, id: string)
    requires GoodSteps(steps) && st in steps && InnerEdge(st, d, id)
    ensures Owns(st, d) && Position(st, d) < Position(st, id)
  {
    var sn, sd :| sn in st.kind.nodes && sd in sn.deps && d == Qualified(st.id, sd) && id == Qualified(st.id, sn.id);
    QualifiedSplits(st.id, sd);
    QualifiedSplits(st.id, sn.id);
    assert HasSchemaId(st.kind.nodes, sd);
  }

  /** The number of a compiled node: its step's number first, its place inside the pipeline second. */
  ghost function GlobalRank(steps: seq<FlowStep>, rank: map<string, nat>, st: FlowStep, id: string): nat
    requires GoodSteps(steps) && StepRanks(steps, rank) && st in steps
  {
    rank[st.id] * StepsBound(steps) + Position(st, id)
  }

  lemma {:induction false} EdgeClimbs(steps: seq<FlowStep>, rank: map<string, nat>, a: FlowStep, b: FlowStep,
                                      d: string, id: string)
    requires GoodSteps(steps) && StepRanks(steps, rank)
    requires (d, id) in NodeEdges(Compiled(steps)) && a in steps && b in steps && Owns(a, d) && Owns(b, id)
    ensures GlobalRank(steps, rank, a, d) < GlobalRank(steps, rank, b, id)
  {
    OwnerIsStepOf(steps, a, d);
    OwnerIsStepOf(steps, b, id);
    var a', b' := EdgeShape(steps, d, id);
    OwnerIsStepOf(steps, b', id);
    SameIdSameStep(steps, b, b');
    if InnerEdge(b, d, id) {
      InnerEdgeClimbs(steps, b, d, id);
      OwnerIsStepOf(steps, b, d);
      SameIdSameStep(steps, a, b);
    } else {
      OwnerIsStepOf(steps, a', d);
      SameIdSameStep(steps, a, a');
      PositionBounded(steps, a, d);
      LaterBlock(rank[a.id], rank[b.id], StepsBound(steps));
    }
  }

  ghost function Owner(steps: seq<FlowStep>, id: string): (st: FlowStep)
    requires exists st :: st in steps && Owns(st, id)
    ensures st in steps && Owns(st, id)
  {
    var st :| st in steps && Owns(st, id); st
  }

  ghost predicate AllOwned(steps: seq<FlowStep>, ids: set<string>) {
    forall id :: id in ids ==> exists st :: st in steps && Owns(st, id)
  }

  ghost function GlobalRanks(steps: seq<FlowStep>, rank: map<string, nat>, ids: set<string>): map<string, nat>
    requires GoodSteps(steps) && StepRanks(steps, rank) && AllOwned(steps, ids)
  {
    map id | id in ids :: GlobalRank(steps, rank, Owner(steps, id), id)
  }

  lemma {:induction false} CompiledOwned(steps: seq<FlowStep>)
    requires GoodSteps(steps)
    ensures AllOwned(steps, set n | n in Compiled(steps) :: n.id)
  {
    forall n | n in Compiled(steps)
      ensures exists st :: st in steps && Owns(st, n.id)
    {
      var _ := NodeHasOwner(steps, n);
    }
  }

  lemma {:induction false} CompiledAcyclic(steps: seq<FlowStep>)
    requires GoodSteps(steps)
    ensures Acyclic(Compiled(steps))
  {
    var rank :| StepRanks(steps, rank);
    var nodes := Compiled(steps);
    CompiledOwned(steps);
    var global := GlobalRanks(steps, rank, set n | n in nodes :: n.id);
    forall n, d | n in nodes && d in n.deps && d in global
      ensures global[d] < global[n.id]
    {
      assert (d, n.id) in NodeEdges(nodes);
      EdgeClimbs(steps, rank, Owner(steps, d), Owner(steps, n.id), d, n.id);
    }
    assert Ranks(nodes, global);
  }

  /** A good workflow with at least one expanding step compiles to a DAG the dispatcher accepts: unique
      node ids, every dependency present, no cycle. */
  lemma {:induction false} CompiledWellFormed(steps: seq<FlowStep>)
    requires GoodSteps(steps)
    ensures DistinctIds(Compiled(steps)) && DepsExist(Compiled(steps)) && Acyclic(Compiled(steps))
    ensures WellFormed(Compiled(steps)) <==> exists st :: st in steps && !st.kind.OtherKind?
  {
    SlashFreeNeverCollide(steps);
    CompiledAcyclic(steps);
    DependenciesExistExactly(steps);
    var nodes := Compiled(steps);
    if st :| st in steps && !st.kind.OtherKind? {
      var x := SomeOwned(steps, st);
      var _ := OwnedHasNode(steps, st, x);
    }
    if nodes != [] {
      var _ := NodeHasOwner(steps, nodes[0]);
    }
  }

  lemma {:induction false} NoNodeReachesItself(nodes: seq<Node>, x: string)
    requires DepsExist(nodes) && Acyclic(nodes)
    ensures !Reaches(NodeEdges(nodes), x, x)
  {
    var rank :| Ranks(nodes, rank);
    var es := NodeEdges(nodes);
    forall e | e in es
      ensures e.0 in rank && e.1 in rank && rank[e.0] < rank[e.1]
    {
      var n :| n in nodes && e.0 in n.deps && e.1 == n.id;
      assert HasId(nodes, e.0);
    }
    if p :| Path(es, p) && p[0] == x && p[|p| - 1] == x {
      RankedPathClimbs(es, rank, p);
    }
  }

  /** No compiled node is its own ancestor. */
  lemma {:induction false} CompiledHasNoCycle(steps: seq<FlowStep>, x: string)
    requires GoodSteps(steps)
    ensures !Reaches(NodeEdges(Compiled(steps)), x, x)
  {
    CompiledWellFormed(steps);
    NoNodeReachesItself(Compiled(steps), x);
  }
}
