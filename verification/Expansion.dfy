/** DAG fan-out: which nodes are ready, whether a ready node is queued or skipped, and the loop that
    keeps inserting rows until nothing is ready. */
module Expansion {
  import opened Options
  import opened Workflow
  import Lexical

  /** The run-level inputs of one fan-out. */
  datatype Scope = Scope(engine: Engine, project: string, priority: int, context: Context, gen: nat)

  predicate Satisfied(t: Table, d: NodeId) {
    d in t && Done(t[d].status)
  }

  predicate Ready(t: Table, n: Node) {
    n.id !in t && forall d :: d in n.deps ==> Satisfied(t, d)
  }

  /** The ready nodes, in workflow order. */
  function ReadyNodes(nodes: seq<Node>, t: Table): (ready: seq<Node>)
    ensures forall n :: n in ready <==> n in nodes && Ready(t, n)
  {
    if nodes == [] then [] else
      (if Ready(t, nodes[0]) then [nodes[0]] else []) + ReadyNodes(nodes[1..], t)
  }

  lemma {:induction false} SameIdSameNode(nodes: seq<Node>, m: Node, n: Node)
    requires DistinctIds(nodes) && m in nodes && n in nodes && m.id == n.id
    ensures m == n
  {
    var i :| 0 <= i < |nodes| && nodes[i] == n;
    var j :| 0 <= j < |nodes| && nodes[j] == m;
  }

  lemma {:induction false} ReadyNodesDistinct(nodes: seq<Node>, t: Table)
    requires DistinctIds(nodes)
    ensures DistinctIds(ReadyNodes(nodes, t))
  {
    if nodes != [] {
      ReadyNodesDistinct(nodes[1..], t);
      var rest := ReadyNodes(nodes[1..], t);
      forall n | n in rest
        ensures n.id != nodes[0].id
      {
        var i :| 0 <= i < |nodes[1..]| && nodes[1..][i] == n;
        assert nodes[i + 1] == n;
      }
    }
  }

  // ------------------------------------------------------- the skip decision

  /** What a skip decision may look at: a completed row's non-empty delta under its node id, every other key as
      in the run's base context, and nothing else. */
  ghost predicate Merges(base: Context, t: Table, ctx: Context) {
    && (forall k :: k in t && t[k].status.Completed? && t[k].delta != map[] ==> k in ctx && ctx[k] == t[k].delta)
    && (forall k :: k in ctx && !(k in t && t[k].status.Completed? && t[k].delta != map[]) ==>
          k in base && ctx[k] == base[k])
    && (forall k :: k in base ==> k in ctx)
  }

  /** The run's base context plus every completed sibling's delta, keyed by node id. */
  function SkipContext(base: Context, t: Table): (ctx: Context)
    ensures Merges(base, t, ctx)
  {
    base + map nid | nid in t && t[nid].status.Completed? && t[nid].delta != map[] :: t[nid].delta
  }

  /** An unresolvable reference means "do not skip". */
  predicate ShouldSkip(x: Scope, n: Node, t: Table) {
    n.skipIf.Some? && x.engine.resolve(n.skipIf.value, SkipContext(x.context, t)).Truthy?
  }

  /** The row a ready node gets: a bookkeeping `skipped` row or a `queued` one. */
  function NewRow(x: Scope, n: Node, t: Table): (row: Row)
    ensures row.status.Skipped? || row.status.Queued?
    ensures row.id == JobId(n.id, x.gen)
  {
    if ShouldSkip(x, n, t) then
      Row(JobId(n.id, x.gen), Skipped, Cpu, None, x.project, 100, None, None, 0, map[], false, false)
    else if n.input then
      Row(JobId(n.id, x.gen), Queued, Cpu, None, x.project, x.priority, None, None, 0, map[], true, false)
    else
      Row(JobId(n.id, x.gen), Queued, if n.gpu then Gpu else Cpu, if n.gpu then n.model else None,
          x.project, x.priority, None, None, 0, map[], false, false)
  }

  function Insert(x: Scope, t: Table, n: Node): Table {
    t[n.id := NewRow(x, n, t)]
  }

  // ------------------------------------------------- arbitrary insertion runs

  function InsertAll(x: Scope, t: Table, order: seq<Node>): Table
    decreases order
  {
    if order == [] then t else InsertAll(x, Insert(x, t, order[0]), order[1..])
  }

  /** Every node of `order` is a workflow node that is ready when its turn comes. */
  predicate Legal(x: Scope, t: Table, order: seq<Node>)
    decreases order
  {
    order == [] ||
    (order[0] in x.engine.nodes && Ready(t, order[0]) && Legal(x, Insert(x, t, order[0]), order[1..]))
  }

  ghost predicate Closed(nodes: seq<Node>, t: Table) {
    forall n :: n in nodes ==> !Ready(t, n)
  }

  /** `u` keeps all of `t` and decides every workflow node it adds exactly as `t` would. */
  ghost predicate Extends(x: Scope, t: Table, u: Table) {
    && (forall k :: k in t ==> k in u && u[k] == t[k])
    && (forall n :: n in x.engine.nodes && n.id in u && n.id !in t ==> u[n.id] == NewRow(x, n, t))
  }

  ghost predicate Within(t: Table, u: Table) {
    forall k :: k in t ==> k in u && u[k] == t[k]
  }

  /** Inserting a fan-out row never changes a later skip decision: those read completed rows only. */
  lemma {:induction false} InsertKeepsDecisions(x: Scope, t: Table, n: Node, m: Node)
    requires n.id !in t
    ensures NewRow(x, m, Insert(x, t, n)) == NewRow(x, m, t)
  {
    SkipContextKept(x.context, t, n.id, NewRow(x, n, t));
  }

  lemma {:induction false} SkipContextKept(base: Context, t: Table, k: NodeId, row: Row)
    requires k !in t && !row.status.Completed?
    ensures SkipContext(base, t[k := row]) == SkipContext(base, t)
  {
    var u := t[k := row];
    var a := map nid | nid in t && t[nid].status.Completed? && t[nid].delta != map[] :: t[nid].delta;
    var b := map nid | nid in u && u[nid].status.Completed? && u[nid].delta != map[] :: u[nid].delta;
    assert a == b;
  }

  /** Any legal insertion run stays inside any closed table that makes the same decisions. */
  lemma {:induction false} LegalStaysBelow(x: Scope, t: Table, order: seq<Node>, u: Table)
    requires Legal(x, t, order)
    requires Extends(x, t, u) && Closed(x.engine.nodes, u)
    ensures Within(InsertAll(x, t, order), u)
    decreases order
  {
    if order != [] {
      var n := order[0];
      var t' := Insert(x, t, n);
      assert forall d :: d in n.deps ==> Satisfied(t, d) ==> Satisfied(u, d);
      assert !Ready(u, n);
      assert n.id in u && u[n.id] == NewRow(x, n, t);
      forall m | m in x.engine.nodes && m.id in u && m.id !in t'
        ensures u[m.id] == NewRow(x, m, t')
      {
        InsertKeepsDecisions(x, t, n, m);
      }
      LegalStaysBelow(x, t', order[1..], u);
    }
  }

  /** A legal run from `t` is itself an extension of `t`. */
  lemma {:induction false} LegalExtends(x: Scope, t: Table, order: seq<Node>)
    requires DistinctIds(x.engine.nodes)
    requires Legal(x, t, order)
    ensures Extends(x, t, InsertAll(x, t, order))
    ensures forall k :: k in InsertAll(x, t, order) && k !in t ==> HasId(x.engine.nodes, k)
    decreases order
  {
    if order != [] {
      var n := order[0];
      var t' := Insert(x, t, n);
      LegalExtends(x, t', order[1..]);
      var u := InsertAll(x, t', order[1..]);
      assert HasId(x.engine.nodes, n.id);
      forall m | m in x.engine.nodes && m.id in u && m.id !in t
        ensures u[m.id] == NewRow(x, m, t)
      {
        InsertKeepsDecisions(x, t, n, m);
        if m.id == n.id {
          SameIdSameNode(x.engine.nodes, m, n);
        }
      }
    }
  }

  /** Confluence: two maximal insertion runs, in any two orders, leave the same rows. */
  lemma {:induction false} OrderDoesNotMatter(x: Scope, t: Table, a: seq<Node>, b: seq<Node>)
    requires DistinctIds(x.engine.nodes)
    requires Legal(x, t, a) && Closed(x.engine.nodes, InsertAll(x, t, a))
    requires Legal(x, t, b) && Closed(x.engine.nodes, InsertAll(x, t, b))
    ensures InsertAll(x, t, a) == InsertAll(x, t, b)
  {
    LegalExtends(x, t, a);
    LegalExtends(x, t, b);
    LegalStaysBelow(x, t, a, InsertAll(x, t, b));
    LegalStaysBelow(x, t, b, InsertAll(x, t, a));
  }

  // ------------------------------------------------------------ the fixpoint

  function Missing(nodes: seq<Node>, t: Table): set<NodeId> {
    set n | n in nodes && n.id !in t :: n.id
  }

  lemma {:induction false} InsertShrinksMissing(x: Scope, t: Table, n: Node)
    requires n in x.engine.nodes && n.id !in t
    ensures |Missing(x.engine.nodes, Insert(x, t, n))| < |Missing(x.engine.nodes, t)|
  {
    var before, after := Missing(x.engine.nodes, t), Missing(x.engine.nodes, Insert(x, t, n));
    assert n.id in before;
    assert after == before - {n.id};
  }

  /** The rows after a complete fan-out from `t`. */
  function Expand(x: Scope, t: Table): Table
    decreases |Missing(x.engine.nodes, t)|
  {
    var ready := ReadyNodes(x.engine.nodes, t);
    if ready == [] then t else
      assert ready[0] in ready;
      InsertShrinksMissing(x, t, ready[0]);
      Expand(x, Insert(x, t, ready[0]))
  }

  lemma {:induction false} ExpandOrder(x: Scope, t: Table) returns (order: seq<Node>)
    ensures Legal(x, t, order) && Expand(x, t) == InsertAll(x, t, order)
    ensures Closed(x.engine.nodes, Expand(x, t))
    decreases |Missing(x.engine.nodes, t)|
  {
    var ready := ReadyNodes(x.engine.nodes, t);
    if ready == [] {
      order := [];
      assert forall n :: n in x.engine.nodes && Ready(t, n) ==> n in ready;
    } else {
      assert ready[0] in ready;
      InsertShrinksMissing(x, t, ready[0]);
      var rest := ExpandOrder(x, Insert(x, t, ready[0]));
      order := [ready[0]] + rest;
      assert order[1..] == rest;
    }
  }

  /** A fan-out ends in the least closed table above `t`: nothing is ready any more, old rows are kept,
      and every closed table with the same decisions contains it. */
  lemma {:induction false} ExpandIsLeastFixedPoint(x: Scope, t: Table)
    requires DistinctIds(x.engine.nodes)
    ensures Closed(x.engine.nodes, Expand(x, t)) && Extends(x, t, Expand(x, t))
    ensures forall k :: k in Expand(x, t) && k !in t ==> HasId(x.engine.nodes, k)
    ensures forall u :: Extends(x, t, u) && Closed(x.engine.nodes, u) ==> Within(Expand(x, t), u)
  {
    var order := ExpandOrder(x, t);
    LegalExtends(x, t, order);
    forall u | Extends(x, t, u) && Closed(x.engine.nodes, u)
      ensures Within(Expand(x, t), u)
    {
      LegalStaysBelow(x, t, order, u);
    }
  }

  /** Whatever order ready nodes are processed in, a run that stops with nothing ready has made
      exactly the rows of `Expand`. */
  lemma {:induction false} AnyOrderReachesExpand(x: Scope, t: Table, order: seq<Node>)
    requires DistinctIds(x.engine.nodes)
    requires Legal(x, t, order) && Closed(x.engine.nodes, InsertAll(x, t, order))
    ensures InsertAll(x, t, order) == Expand(x, t)
  {
    var canonical := ExpandOrder(x, t);
    OrderDoesNotMatter(x, t, order, canonical);
  }

  /** The new rows of a fan-out, one by one. */
  lemma {:induction false} ExpandShape(x: Scope, t: Table, k: NodeId)
    requires DistinctIds(x.engine.nodes)
    requires k in Expand(x, t) && k !in t
    ensures exists n :: n in x.engine.nodes && n.id == k && Expand(x, t)[k] == NewRow(x, n, t)
  {
    ExpandIsLeastFixedPoint(x, t);
    assert HasId(x.engine.nodes, k);
  }

  /** A new row as its node and the run ask for it, column by column. Without a `skip_if` the node is queued;
      with one it is skipped exactly when the reference is truthy in the merged context. */
  ghost predicate Decided(x: Scope, n: Node, t: Table, row: Row) {
    && row.id == JobId(n.id, x.gen) && row.project == x.project
    && row.claimedBy == None && row.lease == None && row.retries == 0 && row.delta == map[] && !row.patch
    && (n.skipIf.None? ==> row.status == Queued)
    && (forall r, ctx :: n.skipIf == Some(r) && Merges(x.context, t, ctx) ==>
          row.status == if x.engine.resolve(r, ctx) == Truthy then Skipped else Queued)
    && (row.status.Queued? ==>
          && row.priority == x.priority && row.input == n.input
          && row.queue == (if n.gpu && !n.input then Gpu else Cpu)
          && row.model == (if n.gpu && !n.input then n.model else None))
    && (row.status.Skipped? ==> row.priority == 100 && !row.input && row.queue == Cpu && row.model == None)
  }

  lemma {:induction false} MergesUnique(base: Context, t: Table, a: Context, b: Context)
    requires Merges(base, t, a) && Merges(base, t, b)
    ensures a == b
  {
    forall k
      ensures k in a <==> k in b
      ensures k in a && k in b ==> a[k] == b[k]
    {
    }
  }

  lemma {:induction false} NewRowDecided(x: Scope, n: Node, t: Table)
    ensures Decided(x, n, t, NewRow(x, n, t))
  {
    forall ctx | Merges(x.context, t, ctx)
      ensures ctx == SkipContext(x.context, t)
    {
      MergesUnique(x.context, t, ctx, SkipContext(x.context, t));
    }
  }

  /** Every dependency of `n` has a completed or skipped row. */
  ghost predicate Unblocked(t: Table, n: Node) {
    forall d :: d in n.deps ==> d in t && (t[d].status.Completed? || t[d].status.Skipped?)
  }

  lemma {:induction false} LegalUnblocks(x: Scope, t: Table, order: seq<Node>, m: Node)
    requires DistinctIds(x.engine.nodes) && Legal(x, t, order) && m in x.engine.nodes
    requires m.id in InsertAll(x, t, order) && m.id !in t
    ensures Unblocked(InsertAll(x, t, order), m)
    decreases order
  {
    var n, t' := order[0], Insert(x, t, order[0]);
    LegalExtends(x, t', order[1..]);
    if m.id == n.id {
      SameIdSameNode(x.engine.nodes, m, n);
      forall d | d in m.deps
        ensures Satisfied(InsertAll(x, t, order), d)
      {
        assert Satisfied(t, d);
      }
    } else {
      LegalUnblocks(x, t', order[1..], m);
    }
  }

  /** `u` is what a complete fan-out makes of `t`: old rows are kept, a node that had none has one afterwards
      exactly when all its dependencies are finished by then, no other key is added, and every new row is as
      the merged context before the fan-out decides it. */
  ghost predicate FansOut(x: Scope, t: Table, u: Table) {
    && (forall k :: k in t ==> k in u && u[k] == t[k])
    && (forall k :: k in u && k !in t ==> HasId(x.engine.nodes, k))
    && (forall n :: n in x.engine.nodes && n.id !in t ==> (n.id in u <==> Unblocked(u, n)))
    && (forall n :: n in x.engine.nodes && n.id !in t && n.id in u ==> Decided(x, n, t, u[n.id]))
  }

  lemma {:induction false} ExpandDecides(x: Scope, t: Table)
    requires DistinctIds(x.engine.nodes)
    ensures FansOut(x, t, Expand(x, t))
  {
    ExpandIsLeastFixedPoint(x, t);
    var u := Expand(x, t);
    var order := ExpandOrder(x, t);
    forall n | n in x.engine.nodes && n.id !in t
      ensures n.id in u <==> Unblocked(u, n)
      ensures n.id in u ==> Decided(x, n, t, u[n.id])
    {
      assert !Ready(u, n);
      NewRowDecided(x, n, t);
      if n.id in u {
        LegalUnblocks(x, t, order, n);
      }
    }
  }

  // ---------------------------------------------------- dependency soundness

  /** Every workflow node that has a row has only satisfied dependencies. */
  ghost predicate DepsDone(nodes: seq<Node>, t: Table) {
    forall n, d :: n in nodes && n.id in t && d in n.deps ==> Satisfied(t, d)
  }

  lemma {:induction false} LegalKeepsDepsDone(x: Scope, t: Table, order: seq<Node>)
    requires DistinctIds(x.engine.nodes)
    requires DepsDone(x.engine.nodes, t) && Legal(x, t, order)
    ensures DepsDone(x.engine.nodes, InsertAll(x, t, order))
    decreases order
  {
    if order != [] {
      var n, u := order[0], Insert(x, t, order[0]);
      forall m, d | m in x.engine.nodes && m.id in u && d in m.deps
        ensures Satisfied(u, d)
      {
        if m.id == n.id {
          SameIdSameNode(x.engine.nodes, m, n);
        }
        assert Satisfied(t, d);
      }
      LegalKeepsDepsDone(x, u, order[1..]);
    }
  }

  // ------------------------------------------------------- the fan-out loop

  /** Sort key of the model-affinity batching: nodes without a model sort last. */
  predicate SortsBefore(a: Node, b: Node) {
    a.model.Some? && (b.model.None? || Lexical.Less(a.model.value, b.model.value))
  }

  /** Stable insertion: `n` goes in front of the first entry that does not sort before it. */
  function Place(n: Node, sorted: seq<Node>): (r: seq<Node>)
    ensures forall m :: m in r <==> m == n || m in sorted
    ensures |r| == |sorted| + 1
  {
    if sorted != [] && SortsBefore(sorted[0], n) then [sorted[0]] + Place(n, sorted[1..]) else [n] + sorted
  }

  /** The ready nodes grouped by model, workflow order inside a group. */
  function ByModel(ready: seq<Node>): (r: seq<Node>)
    ensures forall m :: m in r <==> m in ready
    ensures |r| == |ready|
  {
    if ready == [] then [] else Place(ready[0], ByModel(ready[1..]))
  }

  ghost predicate Grouped(nodes: seq<Node>) {
    forall i, j :: 0 <= i < j < |nodes| ==> !SortsBefore(nodes[j], nodes[i])
  }

  lemma {:induction false} PlaceKeepsOrder(n: Node, sorted: seq<Node>)
    requires DistinctIds(sorted) && Grouped(sorted)
    requires forall m :: m in sorted ==> m.id != n.id
    ensures DistinctIds(Place(n, sorted)) && Grouped(Place(n, sorted))
  {
    var r := Place(n, sorted);
    if sorted != [] && SortsBefore(sorted[0], n) {
      PlaceKeepsOrder(n, sorted[1..]);
      var rest := Place(n, sorted[1..]);
      forall j | 0 <= j < |rest|
        ensures rest[j].id != sorted[0].id && !SortsBefore(rest[j], sorted[0])
      {
        assert rest[j] in rest;
        if rest[j] == n {
          if n.model.Some? {
            Lexical.LessAsymmetric(sorted[0].model.value, n.model.value);
          }
        } else {
          var k :| 0 <= k < |sorted[1..]| && sorted[1..][k] == rest[j];
          assert sorted[k + 1] == rest[j];
        }
      }
    } else {
      forall j | 0 <= j < |sorted|
        ensures sorted[j].id != n.id && !SortsBefore(sorted[j], n)
      {
        assert sorted[j] in sorted;
        if SortsBefore(sorted[j], n) {
          assert !SortsBefore(sorted[0], n) && (j > 0 ==> !SortsBefore(sorted[j], sorted[0]));
          NotBefore(sorted[0], sorted[j], n);
        }
      }
    }
  }

  /** `SortsBefore` is negatively transitive. */
  lemma {:induction false} NotBefore(a: Node, b: Node, n: Node)
    requires SortsBefore(b, n)
    ensures SortsBefore(a, n) || SortsBefore(b, a)
  {
    if a.model.Some? && n.model.Some? {
      Lexical.LessTotal(a.model.value, b.model.value);
      if Lexical.Less(a.model.value, b.model.value) {
        Lexical.LessTransitive(a.model.value, b.model.value, n.model.value);
      }
    }
  }

  /** The nodes of one model, in the order of the list. */
  function OfModel(nodes: seq<Node>, model: Option<string>): seq<Node> {
    if nodes == [] then [] else (if nodes[0].model == model then [nodes[0]] else []) + OfModel(nodes[1..], model)
  }

  lemma {:induction false} PlaceIsStable(n: Node, sorted: seq<Node>, model: Option<string>)
    ensures OfModel(Place(n, sorted), model) == OfModel([n] + sorted, model)
  {
    assert ([n] + sorted)[1..] == sorted;
    if sorted != [] && SortsBefore(sorted[0], n) {
      PlaceIsStable(n, sorted[1..], model);
      assert ([n] + sorted[1..])[1..] == sorted[1..];
      assert ([sorted[0]] + Place(n, sorted[1..]))[1..] == Place(n, sorted[1..]);
      if n.model.Some? {
        Lexical.LessIrreflexive(n.model.value);
      }
      assert sorted[0].model != n.model;
    }
  }

  /** The sort only regroups: ids stay distinct, no node comes after one it sorts before, and inside a model
      group the nodes keep their workflow order. */
  lemma {:induction false} ByModelKeepsOrder(ready: seq<Node>)
    requires DistinctIds(ready)
    ensures DistinctIds(ByModel(ready)) && Grouped(ByModel(ready))
    ensures forall model :: OfModel(ByModel(ready), model) == OfModel(ready, model)
  {
    if ready != [] {
      ByModelKeepsOrder(ready[1..]);
      PlaceKeepsOrder(ready[0], ByModel(ready[1..]));
      forall model
        ensures OfModel(ByModel(ready), model) == OfModel(ready, model)
      {
        PlaceIsStable(ready[0], ByModel(ready[1..]), model);
        assert ([ready[0]] + ByModel(ready[1..]))[1..] == ByModel(ready[1..]);
      }
    }
  }

  /** Inserting one ready node leaves another one ready. */
  lemma {:induction false} StillReady(x: Scope, t: Table, m: Node, n: Node)
    requires Ready(t, m) && Ready(t, n) && m.id != n.id
    ensures Ready(Insert(x, t, m), n)
  {
    forall d | d in n.deps
      ensures Satisfied(Insert(x, t, m), d)
    {
      assert Satisfied(t, d) && d != m.id;
    }
  }

  /** A batch of distinct ready nodes can be inserted in one sweep, each decided by the rows read
      before the sweep. */
  lemma {:induction false} BatchIsLegal(x: Scope, t: Table, batch: seq<Node>)
    requires DistinctIds(batch)
    requires forall n :: n in batch ==> n in x.engine.nodes && Ready(t, n)
    ensures Legal(x, t, batch) && |InsertAll(x, t, batch)| == |t| + |batch|
    decreases batch
  {
    if batch != [] {
      var t' := Insert(x, t, batch[0]);
      assert batch[0] in batch && Ready(t, batch[0]);
      forall n | n in batch[1..]
        ensures n in x.engine.nodes && Ready(t', n)
      {
        var i :| 0 <= i < |batch[1..]| && batch[1..][i] == n;
        assert batch[i + 1] == n && n in batch;
        StillReady(x, t, batch[0], n);
      }
      assert t'.Keys == t.Keys + {batch[0].id};
      BatchIsLegal(x, t', batch[1..]);
    }
  }

  lemma {:induction false} BatchDecisions(x: Scope, t: Table, batch: seq<Node>, m: Node)
    requires Legal(x, t, batch)
    ensures NewRow(x, m, InsertAll(x, t, batch)) == NewRow(x, m, t)
    decreases batch
  {
    if batch != [] {
      InsertKeepsDecisions(x, t, batch[0], m);
      BatchDecisions(x, Insert(x, t, batch[0]), batch[1..], m);
    }
  }

  lemma {:induction false} LegalConcat(x: Scope, t: Table, a: seq<Node>, b: seq<Node>)
    requires Legal(x, t, a) && Legal(x, InsertAll(x, t, a), b)
    ensures Legal(x, t, a + b) && InsertAll(x, t, a + b) == InsertAll(x, InsertAll(x, t, a), b)
    decreases a
  {
    if a == [] {
      assert a + b == b;
    } else {
      assert (a + b)[1..] == a[1..] + b;
      LegalConcat(x, Insert(x, t, a[0]), a[1..], b);
    }
  }

  lemma {:induction false} LegalPrefix(x: Scope, t: Table, a: seq<Node>, i: nat)
    requires Legal(x, t, a) && i <= |a|
    ensures Legal(x, t, a[..i])
    ensures i < |a| ==> InsertAll(x, t, a[..i + 1]) == Insert(x, InsertAll(x, t, a[..i]), a[i])
    decreases a
  {
    if a != [] && i > 0 {
      assert a[..i][1..] == a[1..][..i - 1];
      LegalPrefix(x, Insert(x, t, a[0]), a[1..], i - 1);
      if i < |a| {
        assert a[..i + 1][1..] == a[1..][..i];
      }
    } else if a != [] {
      assert a[..1] == [a[0]];
    }
  }

  lemma {:induction false} LegalShrinksMissing(x: Scope, t: Table, a: seq<Node>)
    requires Legal(x, t, a) && a != []
    ensures |Missing(x.engine.nodes, InsertAll(x, t, a))| < |Missing(x.engine.nodes, t)|
    decreases a
  {
    InsertShrinksMissing(x, t, a[0]);
    if |a| > 1 {
      LegalShrinksMissing(x, Insert(x, t, a[0]), a[1..]);
    }
  }

  /** One round: every node of a legal batch gets its row, decided by the rows read before the round. */
  method InsertBatch(x: Scope, existing: Table, sorted: seq<Node>) returns (rows: Table)
    requires Legal(x, existing, sorted)
    ensures rows == InsertAll(x, existing, sorted)
  {
    rows := existing;
    for i := 0 to |sorted|
      invariant rows == InsertAll(x, existing, sorted[..i])
    {
      LegalPrefix(x, existing, sorted, i);
      BatchDecisions(x, existing, sorted[..i], sorted[i]);
      rows := rows[sorted[i].id := NewRow(x, sorted[i], existing)];
    }
    assert sorted[..|sorted|] == sorted;
  }

  /** A round over all ready nodes is a legal batch that leaves fewer nodes without a row. */
  lemma {:induction false} RoundIsLegal(x: Scope, t: Table)
    requires DistinctIds(x.engine.nodes) && ReadyNodes(x.engine.nodes, t) != []
    ensures var batch := ByModel(ReadyNodes(x.engine.nodes, t));
      && Legal(x, t, batch) && |InsertAll(x, t, batch)| == |t| + |batch|
      && |Missing(x.engine.nodes, InsertAll(x, t, batch))| < |Missing(x.engine.nodes, t)|
  {
    var ready := ReadyNodes(x.engine.nodes, t);
    ReadyNodesDistinct(x.engine.nodes, t);
    ByModelKeepsOrder(ready);
    BatchIsLegal(x, t, ByModel(ready));
    LegalShrinksMissing(x, t, ByModel(ready));
  }

  /** The fan-out loop: repeated rounds, each deciding all its ready nodes against the rows it read at
      the start of the round. Returns the rows and how many it inserted. The rows it adds are those of the nodes
      whose dependencies are finished by the end, each as decided by the rows there were at the start. */
  method ProcessReady(x: Scope, t: Table) returns (rows: Table, newRows: nat)
    requires DistinctIds(x.engine.nodes)
    ensures rows == Expand(x, t)
    ensures newRows == |rows| - |t|
    ensures newRows == 0 <==> Closed(x.engine.nodes, t)
    ensures FansOut(x, t, rows)
  {
    rows, newRows := t, 0;
    ghost var order: seq<Node> := [];
    var ready := ReadyNodes(x.engine.nodes, rows);
    while ready != []
      invariant ready == ReadyNodes(x.engine.nodes, rows)
      invariant Legal(x, t, order) && rows == InsertAll(x, t, order)
      invariant newRows == |order| == |rows| - |t|
      decreases |Missing(x.engine.nodes, rows)|
    {
      RoundIsLegal(x, rows);
      var sorted := ByModel(ready);
      LegalConcat(x, t, order, sorted);
      rows := InsertBatch(x, rows, sorted);
      newRows := newRows + |sorted|;
      order := order + sorted;
      ready := ReadyNodes(x.engine.nodes, rows);
    }
    NothingReadyIsClosed(x.engine.nodes, rows);
    AnyOrderReachesExpand(x, t, order);
    ExpandDecides(x, t);
    if order != [] {
      FirstWasReady(x, t, order);
    }
  }

  lemma {:induction false} NothingReadyIsClosed(nodes: seq<Node>, t: Table)
    requires ReadyNodes(nodes, t) == []
    ensures Closed(nodes, t)
  {
    forall n | n in nodes
      ensures !Ready(t, n)
    {
      assert Ready(t, n) ==> n in ReadyNodes(nodes, t);
    }
  }

  lemma {:induction false} FirstWasReady(x: Scope, t: Table, order: seq<Node>)
    requires Legal(x, t, order) && order != []
    ensures !Closed(x.engine.nodes, t)
  {
    assert order[0] in x.engine.nodes && Ready(t, order[0]);
  }
}
