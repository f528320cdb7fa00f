/**
  How the optimizer rewrites dependencies through the operations it drops, and
  which ordering survives.

  A list of operations is read as a graph: an edge runs from every id in an
  operation's `dependsOn` to that operation.
 */
module RuntimeDependencies {
  import opened Wrappers
  import opened Runtime

  // ----- Graphs and paths -----

  ghost function Ids(ops: seq<Operation>): set<string> {
    set op | op in ops :: op.id
  }

  ghost predicate Edge(graph: seq<Operation>, a: string, b: string) {
    exists op :: op in graph && op.id == b && a in op.dependsOn
  }

  ghost predicate IsPath(graph: seq<Operation>, path: seq<string>, a: string, b: string) {
    && |path| >= 2 && path[0] == a && path[|path| - 1] == b
    && forall i | 0 <= i < |path| - 1 :: Edge(graph, path[i], path[i + 1])
  }

  /** `a` transitively precedes `b`. */
  ghost predicate Precedes(graph: seq<Operation>, a: string, b: string) {
    exists path :: IsPath(graph, path, a, b)
  }

  lemma EdgePrecedes(graph: seq<Operation>, a: string, b: string)
    requires Edge(graph, a, b)
    ensures Precedes(graph, a, b)
  {
    assert IsPath(graph, [a, b], a, b);
  }

  lemma PrecedesThenEdge(graph: seq<Operation>, a: string, b: string, c: string)
    requires Precedes(graph, a, b) && Edge(graph, b, c)
    ensures Precedes(graph, a, c)
  {
    var path :| IsPath(graph, path, a, b);
    assert IsPath(graph, path + [c], a, c);
  }

  /** The last edge of a path, and the path before it when there is more. */
  lemma LastEdge(graph: seq<Operation>, path: seq<string>, a: string, b: string) returns (middle: string)
    requires IsPath(graph, path, a, b)
    ensures Edge(graph, middle, b)
    ensures |path| == 2 ==> middle == a
    ensures |path| > 2 ==> IsPath(graph, path[..|path| - 1], a, middle)
  {
    middle := path[|path| - 2];
    assert Edge(graph, path[|path| - 2], path[|path| - 2 + 1]);
  }

  lemma {:induction false} PathsCompose(graph: seq<Operation>, a: string, b: string, path: seq<string>, c: string)
    requires Precedes(graph, a, b) && IsPath(graph, path, b, c)
    ensures Precedes(graph, a, c)
    decreases |path|
  {
    var middle := LastEdge(graph, path, b, c);
    if |path| > 2 {
      PathsCompose(graph, a, b, path[..|path| - 1], middle);
    }
    PrecedesThenEdge(graph, a, middle, c);
  }

  // ----- One pass, seen as a rewriting of its graph -----

  /**
    The submitted operations, each also depending on the kept operation that
    stands in for it; what each resolved to; and who was removed.
   */
  datatype Rewriting = Rewriting(
    nodes: seq<Operation>, resolved: seq<seq<string>>, removed: map<string, seq<string>>, kept: seq<Operation>)

  ghost function StandIn(table: Table, state: Provenance, op: Operation): seq<string> {
    match Decide(table, state, op)
    case Some(policy) => Retained(state, op, policy)
    case None => []
  }

  ghost function ResolvedBy(table: Table, state: Provenance, op: Operation): seq<string> {
    var dependencies := Dedup(ResolveAll(state.replacements, op.dependsOn));
    if Decide(table, state, op).Some? then Dedup(StandIn(table, state, op) + dependencies) else dependencies
  }

  ghost function Trace(table: Table, ops: seq<Operation>): (r: Rewriting)
    requires Optimize(table, ops).Ok?
    ensures |r.nodes| == |r.resolved| == |ops|
  {
    if ops == [] then Rewriting([], [], map[], [])
    else
      var prior, op := ops[..|ops| - 1], ops[|ops| - 1];
      var before, plan := Optimize(table, prior).value, Optimize(table, ops).value;
      var trace := Trace(table, prior);
      Rewriting(
        trace.nodes + [op.(dependsOn := StandIn(table, before.state, op) + op.dependsOn)],
        trace.resolved + [ResolvedBy(table, before.state, op)],
        plan.state.replacements,
        plan.kept)
  }

  /** The order the caller asked for, plus the order through each stand-in. */
  ghost function Augmented(table: Table, ops: seq<Operation>): seq<Operation>
    requires Optimize(table, ops).Ok?
  {
    Trace(table, ops).nodes
  }

  ghost predicate KeptOrOutside(r: Rewriting, all: set<string>, id: string) {
    id !in r.removed && (id in Ids(r.nodes) || id !in all)
  }

  ghost predicate NamesEarlier(r: Rewriting, all: set<string>, i: nat)
    requires i < |r.nodes|
  {
    forall p | p in r.nodes[i].dependsOn :: p in Ids(r.nodes[..i]) || p !in all
  }

  ghost predicate ResolvesExactly(r: Rewriting, i: nat)
    requires i < |r.nodes| == |r.resolved|
  {
    forall y :: y in r.resolved[i] <==> exists p :: p in r.nodes[i].dependsOn && y in Resolve(r.removed, p)
  }

  ghost predicate RecordsNode(r: Rewriting, i: nat)
    requires i < |r.nodes| == |r.resolved|
  {
    var id := r.nodes[i].id;
    if id in r.removed then r.removed[id] == r.resolved[i]
    else exists op :: op in r.kept && op.id == id && op.dependsOn == r.resolved[i]
  }

  ghost predicate KeptFromNode(r: Rewriting, op: Operation)
    requires |r.nodes| == |r.resolved|
  {
    exists i :: 0 <= i < |r.nodes| && r.nodes[i].id == op.id && r.resolved[i] == op.dependsOn
  }

  /** What every pass over a well-ordered list keeps true of its rewriting. */
  ghost predicate Faithful(r: Rewriting, all: set<string>) {
    && |r.nodes| == |r.resolved|
    && DistinctIds(r.nodes)
    && r.removed.Keys <= Ids(r.nodes) <= all
    && (forall i | 0 <= i < |r.nodes| :: NamesEarlier(r, all, i))
    && (forall i | 0 <= i < |r.nodes| :: ResolvesExactly(r, i))
    && (forall i | 0 <= i < |r.nodes| :: RecordsNode(r, i))
    && (forall i, y | 0 <= i < |r.nodes| && y in r.resolved[i] :: KeptOrOutside(r, all, y))
    && (forall op | op in r.kept :: op.id !in r.removed && KeptFromNode(r, op))
  }

  ghost predicate CachesName(state: Provenance, names: set<string>) {
    && (forall target | target in state.lastCopyByTarget :: state.lastCopyByTarget[target].id in names)
    && (forall key | key in state.activeBuffers :: state.activeBuffers[key].id in names)
  }

  /** Each dependency names an operation submitted earlier, or one never submitted. */
  ghost predicate WellOrdered(ops: seq<Operation>, all: set<string>) {
    forall i, dep | 0 <= i < |ops| && dep in ops[i].dependsOn :: dep in Ids(ops[..i]) || dep !in all
  }

  lemma {:induction false} ResolvedMembers(table: Table, state: Provenance, op: Operation)
    requires forall p | p in StandIn(table, state, op) :: p !in state.replacements
    ensures forall y :: y in ResolvedBy(table, state, op) <==>
              exists p :: p in StandIn(table, state, op) + op.dependsOn && y in Resolve(state.replacements, p)
  {
    hide Decide;
    var standIn := StandIn(table, state, op);
    forall y
      ensures y in ResolvedBy(table, state, op) <==>
              exists p :: p in standIn + op.dependsOn && y in Resolve(state.replacements, p)
    {
      if y in standIn {
        assert y in standIn + op.dependsOn && y in Resolve(state.replacements, y);
      }
      if p :| p in standIn + op.dependsOn && y in Resolve(state.replacements, p) {
        assert p in standIn || p in op.dependsOn;
      }
    }
  }

  ghost function Grow(r: Rewriting, node: Operation, resolved: seq<string>, dropped: bool): Rewriting {
    Rewriting(
      r.nodes + [node],
      r.resolved + [resolved],
      if dropped then r.removed[node.id := resolved] else r.removed,
      if dropped then r.kept else r.kept + [node.(dependsOn := resolved)])
  }

  ghost predicate CanGrow(r: Rewriting, all: set<string>, node: Operation, resolved: seq<string>) {
    && Faithful(r, all)
    && node.id in all && node.id !in Ids(r.nodes)
    && (forall p | p in node.dependsOn :: p in Ids(r.nodes) || p !in all)
    && (forall y :: y in resolved <==> exists p :: p in node.dependsOn && y in Resolve(r.removed, p))
  }

  lemma ResolvesToKept(r: Rewriting, all: set<string>, p: string, y: string)
    requires Faithful(r, all) && (p in Ids(r.nodes) || p !in all) && y in Resolve(r.removed, p)
    ensures KeptOrOutside(r, all, y)
  {
    if p in r.removed {
      var op :| op in r.nodes && op.id == p;
      var i :| 0 <= i < |r.nodes| && r.nodes[i] == op;
      assert RecordsNode(r, i);
    }
  }

  lemma IdsOfPrefix(nodes: seq<Operation>, i: nat, node: Operation)
    requires i <= |nodes|
    ensures (nodes + [node])[..i] == nodes[..i]
    ensures Ids(nodes[..i]) <= Ids(nodes)
    ensures Ids(nodes + [node]) == Ids(nodes) + {node.id}
  {
    assert nodes == nodes[..i] + nodes[i..];
    assert node in nodes + [node];
  }

  lemma GrowingNodes(r: Rewriting, all: set<string>, node: Operation, resolved: seq<string>, dropped: bool, i: nat)
    requires CanGrow(r, all, node, resolved) && i <= |r.nodes|
    ensures var next := Grow(r, node, resolved, dropped);
            NamesEarlier(next, all, i) && ResolvesExactly(next, i) && RecordsNode(next, i)
  {
    var next := Grow(r, node, resolved, dropped);
    IdsOfPrefix(r.nodes, i, node);
    if i < |r.nodes| {
      assert NamesEarlier(r, all, i) && ResolvesExactly(r, i) && RecordsNode(r, i);
      assert next.nodes[i] == r.nodes[i] && next.resolved[i] == r.resolved[i];
      forall p | p in r.nodes[i].dependsOn
        ensures Resolve(next.removed, p) == Resolve(r.removed, p)
      {
      }
      assert r.nodes[i] in r.nodes;
      if r.nodes[i].id !in r.removed {
        var op :| op in r.kept && op.id == r.nodes[i].id && op.dependsOn == r.resolved[i];
        assert op in next.kept;
      }
    } else {
      assert r.nodes[..i] == r.nodes;
      assert node.(dependsOn := resolved) in r.kept + [node.(dependsOn := resolved)];
    }
  }

  lemma GrowingKept(r: Rewriting, all: set<string>, node: Operation, resolved: seq<string>, dropped: bool,
      op: Operation)
    requires CanGrow(r, all, node, resolved) && op in Grow(r, node, resolved, dropped).kept
    ensures var next := Grow(r, node, resolved, dropped);
            op.id !in next.removed && KeptFromNode(next, op)
  {
    var next := Grow(r, node, resolved, dropped);
    if op in r.kept {
      assert KeptFromNode(r, op);
      var i :| 0 <= i < |r.nodes| && r.nodes[i].id == op.id && r.resolved[i] == op.dependsOn;
      assert next.nodes[i] == r.nodes[i] && next.resolved[i] == r.resolved[i];
      assert r.nodes[i] in r.nodes;
    } else {
      assert next.nodes[|r.nodes|] == node && next.resolved[|r.nodes|] == resolved;
    }
  }

  lemma GrowingTargets(
    r: Rewriting, all: set<string>, node: Operation, resolved: seq<string>, dropped: bool, i: nat, y: string)
    requires CanGrow(r, all, node, resolved) && i <= |r.nodes|
    requires y in Grow(r, node, resolved, dropped).resolved[i]
    ensures KeptOrOutside(Grow(r, node, resolved, dropped), all, y)
  {
    IdsOfPrefix(r.nodes, |r.nodes|, node);
    if i < |r.nodes| {
      assert y in r.resolved[i];
    } else {
      var p :| p in node.dependsOn && y in Resolve(r.removed, p);
      ResolvesToKept(r, all, p, y);
    }
    assert KeptOrOutside(r, all, y);
  }

  lemma GrowingStaysFaithful(r: Rewriting, all: set<string>, node: Operation, resolved: seq<string>, dropped: bool)
    requires CanGrow(r, all, node, resolved)
    ensures Faithful(Grow(r, node, resolved, dropped), all)
  {
    var next := Grow(r, node, resolved, dropped);
    IdsOfPrefix(r.nodes, |r.nodes|, node);
    forall i, j | 0 <= i < j < |next.nodes|
      ensures next.nodes[i].id != next.nodes[j].id
    {
      assert next.nodes[i] == r.nodes[i] && r.nodes[i] in r.nodes;
    }
    forall i | 0 <= i < |next.nodes|
      ensures NamesEarlier(next, all, i) && ResolvesExactly(next, i) && RecordsNode(next, i)
    {
      GrowingNodes(r, all, node, resolved, dropped, i);
    }
    forall i, y | 0 <= i < |next.nodes| && y in next.resolved[i]
      ensures KeptOrOutside(next, all, y)
    {
      GrowingTargets(r, all, node, resolved, dropped, i, y);
    }
    forall op | op in next.kept
      ensures op.id !in next.removed && KeptFromNode(next, op)
    {
      GrowingKept(r, all, node, resolved, dropped, op);
    }
  }

  // ----- Every pass over a well-ordered list -----

  /** What one accepted operation does to the parts of the state the graph depends on. */
  lemma ProcessGraph(table: Table, state: Provenance, op: Operation)
    requires Process(table, state, op).Ok?
    ensures var step := Process(table, state, op).value;
            && (step.decision.Some? <==> Decide(table, state, op).Some?)
            && (step.decision.Some? ==>
                  && step.state.replacements == state.replacements[op.id := ResolvedBy(table, state, op)]
                  && step.state.lastCopyByTarget == state.lastCopyByTarget
                  && step.state.activeBuffers == state.activeBuffers
                  && step.state.removedIds ==
                     state.removedIds + (if ResolvedBy(table, state, op) == [] then {op.id} else {}))
            && (step.decision.None? ==>
                  && step.operation == op.(dependsOn := ResolvedBy(table, state, op))
                  && step.state.replacements == state.replacements
                  && step.state.removedIds == state.removedIds
                  && step.state == Keep(table, state, step.operation))
  {
    hide Decide, DecisionFor, ResolveAll, Retained, Invalidated, WithoutTarget, Writes, IsTransfer, Known;
    var dependencies := Dedup(ResolveAll(state.replacements, op.dependsOn));
    var standIn := StandIn(table, state, op);
    if standIn + dependencies != [] {
      assert (standIn + dependencies)[0] in Dedup(standIn + dependencies);
    }
  }

  lemma KeepingNames(table: Table, state: Provenance, op: Operation, names: set<string>)
    requires CachesName(state, names)
    ensures CachesName(Keep(table, state, op), names + {op.id})
  {
  }

  lemma StandInIsCached(table: Table, state: Provenance, op: Operation, names: set<string>)
    requires CachesName(state, names)
    ensures forall p | p in StandIn(table, state, op) :: p in names
  {
  }

  /** The pass so far matches its trace, and the caches only name kept operations. */
  ghost predicate Consistent(plan: Plan, trace: Rewriting, all: set<string>) {
    && Faithful(trace, all)
    && trace.kept == plan.kept && trace.removed == plan.state.replacements
    && CachesName(plan.state, Ids(trace.nodes) - trace.removed.Keys)
    && (forall id :: id in plan.state.removedIds <==> id in trace.removed && trace.removed[id] == [])
  }

  lemma TraceGrows(table: Table, prior: seq<Operation>, op: Operation)
    requires Optimize(table, prior).Ok? && Optimize(table, prior + [op]).Ok?
    requires Trace(table, prior).kept == Optimize(table, prior).value.kept
    requires Trace(table, prior).removed == Optimize(table, prior).value.state.replacements
    ensures var state := Optimize(table, prior).value.state;
            var plan := Optimize(table, prior + [op]).value;
            var node := op.(dependsOn := StandIn(table, state, op) + op.dependsOn);
            var dropped := Decide(table, state, op).Some?;
            var grown := Grow(Trace(table, prior), node, ResolvedBy(table, state, op), dropped);
            && Trace(table, prior + [op]) == grown
            && plan.kept == grown.kept && plan.state.replacements == grown.removed
  {
    hide Process, Decide, Keep, ResolvedBy, StandIn;
    var ops := prior + [op];
    assert ops[..|ops| - 1] == prior;
    ProcessGraph(table, Optimize(table, prior).value.state, op);
  }

  lemma {:induction false} TraceStep(table: Table, prior: seq<Operation>, op: Operation, all: set<string>)
    requires Optimize(table, prior).Ok? && Optimize(table, prior + [op]).Ok?
    requires Consistent(Optimize(table, prior).value, Trace(table, prior), all)
    requires op.id in all && op.id !in Ids(Trace(table, prior).nodes)
    requires forall dep | dep in op.dependsOn :: dep in Ids(Trace(table, prior).nodes) || dep !in all
    ensures Consistent(Optimize(table, prior + [op]).value, Trace(table, prior + [op]), all)
  {
    hide Process, Decide, Keep, StandIn, ResolvedBy, Optimize, Trace;
    var before, trace := Optimize(table, prior).value, Trace(table, prior);
    var node := op.(dependsOn := StandIn(table, before.state, op) + op.dependsOn);
    var resolved := ResolvedBy(table, before.state, op);
    var dropped := Decide(table, before.state, op).Some?;
    var after := NextState(table, prior, op);
    TraceGrows(table, prior, op);
    StandInIsCached(table, before.state, op, Ids(trace.nodes) - trace.removed.Keys);
    ResolvedMembers(table, before.state, op);
    assert CanGrow(trace, all, node, resolved) by {
      hide Faithful;
    }
    GrowingStaysFaithful(trace, all, node, resolved, dropped);
    NamesSurvive(table, before.state, after, trace, all, node, resolved, dropped);
  }

  lemma NextState(table: Table, prior: seq<Operation>, op: Operation) returns (after: Provenance)
    requires Optimize(table, prior).Ok? && Optimize(table, prior + [op]).Ok?
    ensures after == Optimize(table, prior + [op]).value.state
    ensures var state := Optimize(table, prior).value.state;
            var resolved := ResolvedBy(table, state, op);
            if Decide(table, state, op).Some? then
              && after.lastCopyByTarget == state.lastCopyByTarget
              && after.activeBuffers == state.activeBuffers
              && after.removedIds == state.removedIds + if resolved == [] then {op.id} else {}
            else
              && after == Keep(table, state, op.(dependsOn := resolved))
              && after.removedIds == state.removedIds
  {
    hide Process, Decide, Keep, ResolvedBy, StandIn;
    var ops := prior + [op];
    assert ops[..|ops| - 1] == prior;
    ProcessGraph(table, Optimize(table, prior).value.state, op);
    after := Optimize(table, ops).value.state;
  }

  lemma NamesSurvive(
    table: Table, state: Provenance, next: Provenance, r: Rewriting, all: set<string>,
    node: Operation, resolved: seq<string>, dropped: bool)
    requires CanGrow(r, all, node, resolved)
    requires CachesName(state, Ids(r.nodes) - r.removed.Keys)
    requires dropped ==> next.lastCopyByTarget == state.lastCopyByTarget && next.activeBuffers == state.activeBuffers
    requires !dropped ==> next == Keep(table, state, node.(dependsOn := resolved))
    ensures var grown := Grow(r, node, resolved, dropped);
            CachesName(next, Ids(grown.nodes) - grown.removed.Keys)
  {
    hide Keep;
    IdsOfPrefix(r.nodes, |r.nodes|, node);
    if !dropped {
      KeepingNames(table, state, node.(dependsOn := resolved), Ids(r.nodes) - r.removed.Keys);
    }
  }

  lemma {:induction false} PassIsConsistent(table: Table, ops: seq<Operation>, all: set<string>)
    requires Ids(ops) <= all && WellOrdered(ops, all)
    ensures Optimize(table, ops).Ok? ==>
              && Consistent(Optimize(table, ops).value, Trace(table, ops), all)
              && Ids(Trace(table, ops).nodes) == Ids(ops)
    decreases |ops|
  {
    hide Process;
    if ops != [] && Optimize(table, ops).Ok? {
      var prior, op := ops[..|ops| - 1], ops[|ops| - 1];
      assert ops == prior + [op];
      IdsOfPrefix(prior, |prior|, op);
      forall i, dep | 0 <= i < |prior| && dep in prior[i].dependsOn
        ensures dep in Ids(prior[..i]) || dep !in all
      {
        assert prior[..i] == ops[..i] && ops[i] == prior[i];
      }
      PassIsConsistent(table, prior, all);
      OptimizeRefusesOnlyDuplicates(table, ops);
      TraceStep(table, prior, op, all);
      var trace := Trace(table, prior);
      IdsOfPrefix(trace.nodes, |trace.nodes|,
                  op.(dependsOn := StandIn(table, Optimize(table, prior).value.state, op) + op.dependsOn));
    }
  }

  // ----- Order across the rewriting -----

  lemma NodeOf(graph: seq<Operation>, a: string, b: string) returns (i: nat)
    requires Edge(graph, a, b)
    ensures i < |graph| && graph[i].id == b && a in graph[i].dependsOn
  {
    var op :| op in graph && op.id == b && a in op.dependsOn;
    i :| 0 <= i < |graph| && graph[i] == op;
  }

  /** A node that names another submitted one names an earlier one. */
  lemma NamedNodesAreEarlier(r: Rewriting, all: set<string>, j: nat, k: nat)
    requires Faithful(r, all) && j < |r.nodes| && k < |r.nodes| && r.nodes[k].id in r.nodes[j].dependsOn
    ensures k < j
  {
    hide ResolvesExactly, RecordsNode, KeptOrOutside, KeptFromNode;
    assert NamesEarlier(r, all, j);
    assert r.nodes[k] in r.nodes && r.nodes[k].id in Ids(r.nodes);
    var earlier :| earlier in r.nodes[..j] && earlier.id == r.nodes[k].id;
    var i :| 0 <= i < j && r.nodes[i] == earlier;
  }

  /** Following a path only ever moves to operations submitted later. */
  lemma {:induction false} PathsGoForward(r: Rewriting, all: set<string>, path: seq<string>, a: string, b: string)
    requires Faithful(r, all) && IsPath(r.nodes, path, a, b)
    ensures exists j :: 0 <= j < |r.nodes| && r.nodes[j].id == b && (a in Ids(r.nodes[..j]) || a !in all)
    decreases |path|
  {
    hide ResolvesExactly, RecordsNode, KeptOrOutside, KeptFromNode;
    var middle := LastEdge(r.nodes, path, a, b);
    var j := NodeOf(r.nodes, middle, b);
    assert NamesEarlier(r, all, j);
    if |path| > 2 {
      PathsGoForward(r, all, path[..|path| - 1], a, middle);
      var k :| 0 <= k < |r.nodes| && r.nodes[k].id == middle && (a in Ids(r.nodes[..k]) || a !in all);
      NamedNodesAreEarlier(r, all, j, k);
      assert r.nodes[..j] == r.nodes[..k] + r.nodes[k..j];
    }
  }

  /** An order reaching an operation reaches it, or what it was resolved to, after the rewriting. */
  lemma {:induction false} OrderReachesKept(r: Rewriting, all: set<string>, path: seq<string>, a: string, b: string)
    requires Faithful(r, all) && KeptOrOutside(r, all, a) && IsPath(r.nodes, path, a, b)
    ensures b !in r.removed ==> Precedes(r.kept, a, b)
    ensures b in r.removed ==> exists y :: y in r.removed[b] && (y == a || Precedes(r.kept, a, y))
    decreases |path|
  {
    hide KeptOrOutside;
    var middle := LastEdge(r.nodes, path, a, b);
    var j := NodeOf(r.nodes, middle, b);
    var y := a;
    assert RecordsNode(r, j) && ResolvesExactly(r, j);
    if |path| > 2 {
      OrderReachesKept(r, all, path[..|path| - 1], a, middle);
      if middle in r.removed {
        y :| y in r.removed[middle] && (y == a || Precedes(r.kept, a, y));
      } else {
        y := middle;
      }
    } else {
      assert middle == a && a !in r.removed by {
        assert KeptOrOutside(r, all, a);
        RevealKept(r, all, a);
      }
    }
    assert y in Resolve(r.removed, middle);
    assert y in r.resolved[j];
    if b !in r.removed {
      var op :| op in r.kept && op.id == b && op.dependsOn == r.resolved[j];
      assert Edge(r.kept, y, b);
      if y == a {
        EdgePrecedes(r.kept, a, b);
      } else {
        PrecedesThenEdge(r.kept, a, y, b);
      }
    }
  }

  lemma RevealKept(r: Rewriting, all: set<string>, a: string)
    requires KeptOrOutside(r, all, a)
    ensures a !in r.removed
  {
  }

  /** Everything an operation resolves to preceded it already. */
  lemma {:induction false} ResolvedPrecedes(r: Rewriting, all: set<string>, i: nat, y: string)
    requires Faithful(r, all) && i < |r.nodes| && y in r.resolved[i]
    ensures Precedes(r.nodes, y, r.nodes[i].id)
    decreases i
  {
    var id := r.nodes[i].id;
    assert ResolvesExactly(r, i) && NamesEarlier(r, all, i);
    var p :| p in r.nodes[i].dependsOn && y in Resolve(r.removed, p);
    assert Edge(r.nodes, p, id) by {
      assert r.nodes[i] in r.nodes;
    }
    if p in r.removed {
      var earlier :| earlier in r.nodes[..i] && earlier.id == p;
      var j :| 0 <= j < i && r.nodes[j] == earlier;
      assert RecordsNode(r, j);
      ResolvedPrecedes(r, all, j, y);
      PrecedesThenEdge(r.nodes, y, p, id);
    } else {
      EdgePrecedes(r.nodes, y, id);
    }
  }

  lemma {:induction false} KeptOrderWasThere(r: Rewriting, all: set<string>, path: seq<string>, a: string, b: string)
    requires Faithful(r, all) && IsPath(r.kept, path, a, b)
    ensures Precedes(r.nodes, a, b)
    decreases |path|
  {
    var middle := LastEdge(r.kept, path, a, b);
    var op :| op in r.kept && op.id == b && middle in op.dependsOn;
    assert KeptFromNode(r, op);
    var i :| 0 <= i < |r.nodes| && r.nodes[i].id == op.id && r.resolved[i] == op.dependsOn;
    ResolvedPrecedes(r, all, i, middle);
    if |path| > 2 {
      KeptOrderWasThere(r, all, path[..|path| - 1], a, middle);
      var rest :| IsPath(r.nodes, rest, middle, b);
      PathsCompose(r.nodes, a, middle, rest, b);
    }
  }

  lemma {:induction false} MoreEdgesMorePaths(
    few: seq<Operation>, many: seq<Operation>, path: seq<string>, a: string, b: string)
    requires IsPath(few, path, a, b)
    requires forall x, y | Edge(few, x, y) :: Edge(many, x, y)
    ensures IsPath(many, path, a, b)
  {
  }

  lemma {:induction false} AugmentedExtends(table: Table, ops: seq<Operation>)
    requires Optimize(table, ops).Ok?
    ensures forall i | 0 <= i < |ops| ::
              && Augmented(table, ops)[i].id == ops[i].id
              && forall dep | dep in ops[i].dependsOn :: dep in Augmented(table, ops)[i].dependsOn
    decreases |ops|
  {
    hide Process, StandIn;
    if ops != [] {
      AugmentedExtends(table, ops[..|ops| - 1]);
    }
  }

  // ----- The theorems -----

  ghost predicate Kept(plan: Plan, id: string) {
    exists op :: op in plan.kept && op.id == id
  }

  ghost predicate KeptOrNeverSubmitted(plan: Plan, ops: seq<Operation>, id: string) {
    Kept(plan, id) || id !in Ids(ops)
  }

  lemma KeptMeansNotRemoved(table: Table, ops: seq<Operation>, id: string)
    requires Optimize(table, ops).Ok? && WellOrdered(ops, Ids(ops))
    ensures Consistent(Optimize(table, ops).value, Trace(table, ops), Ids(ops))
    ensures Kept(Optimize(table, ops).value, id) <==> id in Ids(ops) && id !in Trace(table, ops).removed
    ensures KeptOrNeverSubmitted(Optimize(table, ops).value, ops, id) <==>
            KeptOrOutside(Trace(table, ops), Ids(ops), id)
  {
    hide Optimize, Trace;
    PassIsConsistent(table, ops, Ids(ops));
    var r := Trace(table, ops);
    if id in Ids(ops) && id !in r.removed {
      var node :| node in r.nodes && node.id == id;
      var i :| 0 <= i < |r.nodes| && r.nodes[i] == node;
      assert RecordsNode(r, i);
    }
    if Kept(Optimize(table, ops).value, id) {
      var op :| op in r.kept && op.id == id;
      assert KeptFromNode(r, op);
      var i :| 0 <= i < |r.nodes| && r.nodes[i].id == op.id;
      assert r.nodes[i] in r.nodes;
    }
  }

  /** No kept operation waits for a dropped one. */
  lemma NoKeptOperationWaitsForARemovedOne(table: Table, ops: seq<Operation>, op: Operation, dep: string)
    requires Optimize(table, ops).Ok? && WellOrdered(ops, Ids(ops))
    requires op in Optimize(table, ops).value.kept && dep in op.dependsOn
    ensures KeptOrNeverSubmitted(Optimize(table, ops).value, ops, dep)
  {
    hide Optimize, Trace;
    KeptMeansNotRemoved(table, ops, dep);
    var r := Trace(table, ops);
    assert KeptFromNode(r, op);
    var i :| 0 <= i < |r.nodes| && r.nodes[i].id == op.id && r.resolved[i] == op.dependsOn;
    assert dep in r.resolved[i];
  }

  /**
    The rewritten order of the kept operations, and of the ids never submitted
    before them, is exactly the order asked for plus the order through stand-ins.
   */
  lemma RewrittenOrderIsExact(table: Table, ops: seq<Operation>, a: string, b: string)
    requires Optimize(table, ops).Ok? && WellOrdered(ops, Ids(ops))
    requires KeptOrNeverSubmitted(Optimize(table, ops).value, ops, a) && Kept(Optimize(table, ops).value, b)
    ensures Precedes(Optimize(table, ops).value.kept, a, b) <==> Precedes(Augmented(table, ops), a, b)
  {
    hide Optimize, Trace;
    KeptMeansNotRemoved(table, ops, a);
    KeptMeansNotRemoved(table, ops, b);
    var r := Trace(table, ops);
    if Precedes(r.nodes, a, b) {
      var path :| IsPath(r.nodes, path, a, b);
      OrderReachesKept(r, Ids(ops), path, a, b);
    }
    if Precedes(r.kept, a, b) {
      var path :| IsPath(r.kept, path, a, b);
      KeptOrderWasThere(r, Ids(ops), path, a, b);
    }
  }

  /** Whatever transitively preceded a kept operation and is still there still precedes it. */
  lemma RequestedOrderSurvives(table: Table, ops: seq<Operation>, a: string, b: string)
    requires Optimize(table, ops).Ok? && WellOrdered(ops, Ids(ops))
    requires KeptOrNeverSubmitted(Optimize(table, ops).value, ops, a) && Kept(Optimize(table, ops).value, b)
    requires Precedes(ops, a, b)
    ensures Precedes(Optimize(table, ops).value.kept, a, b)
  {
    hide Optimize, Trace;
    var nodes := Augmented(table, ops);
    AugmentedExtends(table, ops);
    forall x, y | Edge(ops, x, y)
      ensures Edge(nodes, x, y)
    {
      var i := NodeOf(ops, x, y);
      assert nodes[i] in nodes;
    }
    var path :| IsPath(ops, path, a, b);
    MoreEdgesMorePaths(ops, nodes, path, a, b);
    RewrittenOrderIsExact(table, ops, a, b);
  }

  /** The rewritten graph has no cycles. */
  lemma RewrittenGraphIsAcyclic(table: Table, ops: seq<Operation>, a: string)
    requires Optimize(table, ops).Ok? && WellOrdered(ops, Ids(ops))
    ensures !Precedes(Optimize(table, ops).value.kept, a, a)
  {
    hide Optimize, Trace;
    KeptMeansNotRemoved(table, ops, a);
    var r := Trace(table, ops);
    if Precedes(r.kept, a, a) {
      var path :| IsPath(r.kept, path, a, a);
      KeptOrderWasThere(r, Ids(ops), path, a, a);
      var longer :| IsPath(r.nodes, longer, a, a);
      PathsGoForward(r, Ids(ops), longer, a, a);
      assert false;
    }
  }

  /**
    The ids recorded as removed outright are exactly the dropped operations with
    no kept and no outside predecessor, so waiting for them is waiting for nothing.
   */
  lemma RemovedOutrightMeansNoPredecessor(table: Table, ops: seq<Operation>, id: string)
    requires Optimize(table, ops).Ok? && WellOrdered(ops, Ids(ops))
    requires id in Ids(ops) && !Kept(Optimize(table, ops).value, id)
    ensures id in Optimize(table, ops).value.state.removedIds <==>
            forall a | KeptOrNeverSubmitted(Optimize(table, ops).value, ops, a) ::
                !Precedes(Augmented(table, ops), a, id)
  {
    hide Optimize, Trace;
    var plan, r := Optimize(table, ops).value, Trace(table, ops);
    KeptMeansNotRemoved(table, ops, id);
    if id in plan.state.removedIds {
      forall a | KeptOrNeverSubmitted(plan, ops, a)
        ensures !Precedes(r.nodes, a, id)
      {
        KeptMeansNotRemoved(table, ops, a);
        if Precedes(r.nodes, a, id) {
          var path :| IsPath(r.nodes, path, a, id);
          OrderReachesKept(r, Ids(ops), path, a, id);
        }
      }
    } else {
      var i :| 0 <= i < |r.nodes| && r.nodes[i].id == id by {
        PassIsConsistent(table, ops, Ids(ops));
        var node :| node in r.nodes && node.id == id;
      }
      assert RecordsNode(r, i);
      var y := r.removed[id][0];
      assert y in r.resolved[i];
      KeptMeansNotRemoved(table, ops, y);
      ResolvedPrecedes(r, Ids(ops), i, y);
    }
  }

  /** A sync dropped as an orphan is recorded as removed outright. */
  lemma {:induction false} OrphanIsRecorded(table: Table, state: Provenance, op: Operation)
    requires Process(table, state, op).Ok? && Decide(table, state, op) == Some(RemoveOrphanSync)
    requires forall id | id in state.removedIds :: id in state.replacements && state.replacements[id] == []
    ensures op.id in Process(table, state, op).value.state.removedIds
  {
    NothingIsLeft(state.replacements, op.dependsOn);
  }

  lemma {:induction false} RemovedIdsGrow(table: Table, ops: seq<Operation>, k: nat)
    requires k <= |ops| && Optimize(table, ops).Ok?
    ensures Optimize(table, ops[..k]).Ok?
    ensures Optimize(table, ops[..k]).value.state.removedIds <= Optimize(table, ops).value.state.removedIds
    decreases |ops|
  {
    hide Process, Decide, ResolvedBy, Keep;
    if k < |ops| {
      var prior, last := ops[..|ops| - 1], ops[|ops| - 1];
      assert prior[..k] == ops[..k];
      RemovedIdsGrow(table, prior, k);
      ProcessGraph(table, Optimize(table, prior).value.state, last);
    } else {
      assert ops[..k] == ops;
    }
  }

  /** What was recorded as removed outright after a prefix of a well-ordered list resolves to nothing. */
  lemma RecordedOrphansResolveToNothing(table: Table, ops: seq<Operation>, k: nat)
    requires k <= |ops| && Optimize(table, ops).Ok? && WellOrdered(ops, Ids(ops))
    ensures Optimize(table, ops[..k]).Ok?
    ensures var state := Optimize(table, ops[..k]).value.state;
            forall id | id in state.removedIds :: id in state.replacements && state.replacements[id] == []
  {
    hide Optimize, Trace;
    RemovedIdsGrow(table, ops, k);
    var prefix := ops[..k];
    assert ops == prefix + ops[k..];
    forall i, dep | 0 <= i < |prefix| && dep in prefix[i].dependsOn
      ensures dep in Ids(prefix[..i]) || dep !in Ids(ops)
    {
      assert prefix[..i] == ops[..i] && ops[i] == prefix[i];
    }
    PassIsConsistent(table, prefix, Ids(ops));
  }

  /**
    A sync removed as an orphan is recorded as removed outright for the rest of the
    pass, and had no predecessor that was kept or never submitted.
   */
  lemma OrphanSyncHadNoPredecessor(table: Table, ops: seq<Operation>, k: nat)
    requires Optimize(table, ops).Ok? && WellOrdered(ops, Ids(ops)) && k < |ops|
    requires Optimize(table, ops[..k]).Ok?
    requires Decide(table, Optimize(table, ops[..k]).value.state, ops[k]) == Some(RemoveOrphanSync)
    ensures ops[k].id in Optimize(table, ops).value.state.removedIds
    ensures forall a | KeptOrNeverSubmitted(Optimize(table, ops).value, ops, a) ::
              !Precedes(Augmented(table, ops), a, ops[k].id)
  {
    var plan, id := Optimize(table, ops).value, ops[k].id;
    RecordedOrphansResolveToNothing(table, ops, k);
    RemovedIdsGrow(table, ops, k + 1);
    StepOfPass(table, ops, k);
    OrphanIsRecorded(table, Optimize(table, ops[..k]).value.state, ops[k]);
    assert ops[k] in ops;
    KeptMeansNotRemoved(table, ops, id);
    hide Optimize, Trace, Decide, Process;
    RemovedOutrightMeansNoPredecessor(table, ops, id);
  }

  lemma StepOfPass(table: Table, ops: seq<Operation>, k: nat)
    requires k < |ops| && Optimize(table, ops[..k]).Ok? && Optimize(table, ops[..k + 1]).Ok?
    ensures var step := Process(table, Optimize(table, ops[..k]).value.state, ops[k]);
            step.Ok? && Optimize(table, ops[..k + 1]).value == Extend(Optimize(table, ops[..k]).value, step.value)
  {
    hide Process;
    assert ops[..k + 1][..k] == ops[..k];
  }

  lemma {:induction false} NothingIsLeft(replacements: map<string, seq<string>>, ids: seq<string>)
    requires forall id | id in ids :: id in replacements && replacements[id] == []
    ensures ResolveAll(replacements, ids) == []
  {
    if ids != [] {
      NothingIsLeft(replacements, ids[1..]);
    }
  }
}
