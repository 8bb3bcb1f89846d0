/** The ids of compiled nodes: when two of them coincide. */
module DagNames {
  import opened Options
  import opened Workflow
  import opened DagCompiler

  /** The id of step `b` continues the name of an inlined node of pipeline `a`, so that the two share a node
      id: `b` is an input named like such a node, or a pipeline with a node that completes the name. */
  predicate Collides(a: FlowStep, b: FlowStep) {
    && a.kind.PipelineKind? && |b.id| > |a.id| && b.id == Qualified(a.id, b.id[|a.id| + 1..])
    && var w := b.id[|a.id| + 1..];
      match b.kind
      case InputKind => HasSchemaId(a.kind.nodes, w)
      case OtherKind => false
      case PipelineKind(nodes) => exists sn :: sn in nodes && HasSchemaId(a.kind.nodes, Qualified(w, sn.id))
  }

  lemma {:induction false} QualifiedInjective(sid: string, m: string, n: string)
    requires Qualified(sid, m) == Qualified(sid, n)
    ensures m == n
  {
    assert m == Qualified(sid, m)[|sid| + 1..] && n == Qualified(sid, n)[|sid| + 1..];
  }

  /** Two names with one text: the longer step id continues the shorter one. */
  lemma {:induction false} SharedNameSplits(a: string, m: string, b: string, n: string)
    requires Qualified(a, m) == Qualified(b, n) && |a| < |b|
    ensures b == Qualified(a, b[|a| + 1..]) && m == Qualified(b[|a| + 1..], n)
  {
    var text := Qualified(a, m);
    assert text[|a|] == '/' && text[..|a|] == a && text[..|b|] == b && text[|a| + 1..] == m;
    assert b[|a|] == '/' && b[..|a|] == a;
    assert b == b[..|a|] + [b[|a|]] + b[|a| + 1..];
    assert m == text[|a| + 1..] == b[|a| + 1..] + "/" + n;
  }

  lemma {:induction false} SameLengthSameStep(a: string, m: string, b: string, n: string)
    requires Qualified(a, m) == Qualified(b, n) && |a| == |b|
    ensures a == b
  {
    assert a == Qualified(a, m)[..|a|] && b == Qualified(b, n)[..|b|];
  }

  /** A node id that two steps share is a collision of one with the other. */
  lemma {:induction false} SharedIdCollides(a: FlowStep, b: FlowStep, id: string)
    requires a.id != b.id && Owns(a, id) && Owns(b, id)
    ensures Collides(a, b) || Collides(b, a)
  {
    if a.kind.InputKind? {
      InputInPipeline(b, a);
    } else if b.kind.InputKind? {
      InputInPipeline(a, b);
    } else {
      var x :| x in a.kind.nodes && id == Qualified(a.id, x.id);
      var y :| y in b.kind.nodes && id == Qualified(b.id, y.id);
      if |a.id| < |b.id| {
        SharedNameSplits(a.id, x.id, b.id, y.id);
      } else if |b.id| < |a.id| {
        SharedNameSplits(b.id, y.id, a.id, x.id);
      } else {
        SameLengthSameStep(a.id, x.id, b.id, y.id);
      }
    }
  }

  lemma {:induction false} InputInPipeline(a: FlowStep, b: FlowStep)
    requires b.kind.InputKind? && a.id != b.id && Owns(a, b.id)
    ensures Collides(a, b)
  {
    var sn :| sn in a.kind.nodes && b.id == Qualified(a.id, sn.id);
    assert b.id[|a.id| + 1..] == sn.id;
  }

  lemma {:induction false} CollisionSharesId(a: FlowStep, b: FlowStep) returns (id: string)
    requires Collides(a, b)
    ensures Owns(a, id) && Owns(b, id)
  {
    var w := b.id[|a.id| + 1..];
    if b.kind.InputKind? {
      id := b.id;
    } else {
      var sn :| sn in b.kind.nodes && HasSchemaId(a.kind.nodes, Qualified(w, sn.id));
      id := Qualified(b.id, sn.id);
      assert id == Qualified(a.id, Qualified(w, sn.id));
    }
  }

  // ----------------------------------------------- distinct when none is shared

  ghost predicate NothingShared(steps: seq<FlowStep>) {
    forall a, b, id :: a in steps && b in steps && a.id != b.id && Owns(a, id) ==> !Owns(b, id)
  }

  lemma {:induction false} StepNodesOwned(leaves: map<string, seq<string>>, st: FlowStep, n: Node)
    requires n in StepNodes(leaves, st)
    ensures Owns(st, n.id)
  {
    if st.kind.PipelineKind? {
      var sn :| sn in st.kind.nodes && n == PipelineNode(st, ExpandDeps(leaves, st.deps), sn);
      assert n.id == Qualified(st.id, sn.id);
    }
  }

  lemma {:induction false} PipelineNodesDistinct(st: FlowStep, stepDeps: seq<string>, nodes: seq<SchemaNode>)
    requires forall i, j :: 0 <= i < j < |nodes| ==> nodes[i].id != nodes[j].id
    ensures DistinctIds(PipelineNodes(st, stepDeps, nodes))
  {
    if nodes != [] {
      PipelineNodesDistinct(st, stepDeps, nodes[1..]);
      forall n | n in PipelineNodes(st, stepDeps, nodes[1..])
        ensures n.id != Qualified(st.id, nodes[0].id)
      {
        var sn :| sn in nodes[1..] && n == PipelineNode(st, stepDeps, sn);
        if n.id == Qualified(st.id, nodes[0].id) {
          QualifiedInjective(st.id, sn.id, nodes[0].id);
        }
      }
    }
  }

  lemma {:induction false} AllNodesDistinct(leaves: map<string, seq<string>>, steps: seq<FlowStep>)
    requires Inlinable(steps) && NothingShared(steps)
    ensures DistinctIds(AllNodes(leaves, steps))
  {
    if steps != [] {
      var k := |steps| - 1;
      var front, st := steps[..k], steps[k];
      AllNodesDistinct(leaves, front);
      if st.kind.PipelineKind? {
        assert GoodSchema(st.kind.nodes);
        PipelineNodesDistinct(st, ExpandDeps(leaves, st.deps), st.kind.nodes);
      }
      forall m, n | m in AllNodes(leaves, front) && n in StepNodes(leaves, st)
        ensures m.id != n.id
      {
        var s := NodeHasStep(leaves, front, m);
        StepNodesOwned(leaves, s, m);
        StepNodesOwned(leaves, st, n);
      }
    }
  }

  // --------------------------------------------------- a shared id is repeated

  lemma {:induction false} OwnedAppears(leaves: map<string, seq<string>>, st: FlowStep, id: string) returns (n: Node)
    requires Owns(st, id)
    ensures n in StepNodes(leaves, st) && n.id == id
  {
    var stepDeps := ExpandDeps(leaves, st.deps);
    if st.kind.InputKind? {
      n := InputNode(st, stepDeps);
    } else {
      var sn :| sn in st.kind.nodes && id == Qualified(st.id, sn.id);
      n := PipelineNode(st, stepDeps, sn);
    }
  }

  /** Positions `p` and `q` hold the same id. */
  predicate RepeatsAt(nodes: seq<Node>, p: nat, q: nat) {
    p < q < |nodes| && nodes[p].id == nodes[q].id
  }

  lemma {:induction false} RepeatsAcross(a: seq<Node>, b: seq<Node>, m: Node, n: Node) returns (p: nat, q: nat)
    requires m in a && n in b && m.id == n.id
    ensures RepeatsAt(a + b, p, q)
  {
    var i :| 0 <= i < |a| && a[i] == m;
    var j :| 0 <= j < |b| && b[j] == n;
    p, q := i, |a| + j;
    assert (a + b)[p] == m && (a + b)[q] == n;
  }

  lemma {:induction false} RepeatsFurther(a: seq<Node>, b: seq<Node>, p: nat, q: nat)
    requires RepeatsAt(a, p, q)
    ensures RepeatsAt(a + b, p, q)
  {
    assert (a + b)[p] == a[p] && (a + b)[q] == a[q];
  }

  lemma {:induction false} LastRepeats(leaves: map<string, seq<string>>, front: seq<FlowStep>, a: FlowStep,
                                       b: FlowStep, id: string)
    returns (p: nat, q: nat)
    requires a in front && Owns(a, id) && Owns(b, id)
    ensures RepeatsAt(AllNodes(leaves, front) + StepNodes(leaves, b), p, q)
  {
    var m := OwnedAppears(leaves, a, id);
    var n := OwnedAppears(leaves, b, id);
    StepNodesIncluded(leaves, front, a, m);
    p, q := RepeatsAcross(AllNodes(leaves, front), StepNodes(leaves, b), m, n);
  }

  lemma {:induction false} AllNodesSplits(leaves: map<string, seq<string>>, front: seq<FlowStep>, last: FlowStep)
    ensures AllNodes(leaves, front + [last]) == AllNodes(leaves, front) + StepNodes(leaves, last)
  {
    var steps := front + [last];
    assert steps[..|steps| - 1] == front;
  }

  lemma {:induction false} SharedIdRepeats(leaves: map<string, seq<string>>, steps: seq<FlowStep>, i: nat, j: nat,
                                           id: string)
    returns (p: nat, q: nat)
    requires i < j < |steps| && Owns(steps[i], id) && Owns(steps[j], id)
    ensures RepeatsAt(AllNodes(leaves, steps), p, q)
  {
    var k := |steps| - 1;
    var front, last := steps[..k], steps[k];
    assert steps == front + [last] && front[i] == steps[i];
    AllNodesSplits(leaves, front, last);
    if j < k {
      p, q := SharedIdRepeats(leaves, front, i, j, id);
      RepeatsFurther(AllNodes(leaves, front), StepNodes(leaves, last), p, q);
    } else {
      p, q := LastRepeats(leaves, front, steps[i], last, id);
    }
  }

  // ------------------------------------------------------------------- exactly

  ghost predicate SomeCollision(steps: seq<FlowStep>) {
    exists a, b :: a in steps && b in steps && Collides(a, b)
  }

  /** Compiled node ids are distinct if and only if no step id continues the name of another step's node. */
  lemma {:induction false} CollisionsExactly(steps: seq<FlowStep>)
    requires Inlinable(steps)
    ensures DistinctIds(Compiled(steps)) <==> !SomeCollision(steps)
  {
    if a, b :| a in steps && b in steps && Collides(a, b) {
      var id := CollisionSharesId(a, b);
      var i :| 0 <= i < |steps| && steps[i] == a;
      var j :| 0 <= j < |steps| && steps[j] == b;
      var p, q := SharedIdRepeats(LeafMap(steps), steps, if i < j then i else j, if i < j then j else i, id);
    } else {
      forall a, b, id | a in steps && b in steps && a.id != b.id && Owns(a, id)
        ensures !Owns(b, id)
      {
        if Owns(b, id) {
          SharedIdCollides(a, b, id);
        }
      }
      AllNodesDistinct(LeafMap(steps), steps);
    }
  }

  lemma {:induction false} CollisionHasSlash(a: FlowStep, b: FlowStep)
    ensures Collides(a, b) ==> '/' in b.id
  {
    if Collides(a, b) {
      assert b.id[|a.id|] == '/';
    }
  }

  lemma {:induction false} SlashFreeNeverCollide(steps: seq<FlowStep>)
    requires Inlinable(steps) && forall st :: st in steps ==> '/' !in st.id
    ensures DistinctIds(Compiled(steps))
  {
    forall a, b | a in steps && b in steps
      ensures !Collides(a, b)
    {
      CollisionHasSlash(a, b);
    }
    CollisionsExactly(steps);
  }

  /** It happens: an input step named like the inlined node of a pipeline. */
  lemma {:induction false} SlashInAStepIdCollides()
    ensures
      var steps := [
        FlowStep("a", PipelineKind([SchemaNode("b", [], false, None, None, None)]), [], None),
        FlowStep("a/b", InputKind, [], None)];
      Inlinable(steps) && !DistinctIds(Compiled(steps))
  {
    var node := SchemaNode("b", [], false, None, None, None);
    var first, second := FlowStep("a", PipelineKind([node]), [], None), FlowStep("a/b", InputKind, [], None);
    var steps := [first, second];
    assert SchemaRanks([node], map["b" := 0]);
    assert GoodSchema([node]);
    assert second.id[2..] == "b" && node in [node];
    assert HasSchemaId([node], "b") && second.id == Qualified("a", "b");
    assert first in steps && second in steps && Collides(first, second);
    CollisionsExactly(steps);
  }
}
