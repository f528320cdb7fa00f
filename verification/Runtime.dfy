/**
  The redundancy optimizer: resources, operations, the decision rules and the
  provenance state that one pass over the operations keeps up to date.

  Costs are milliseconds and may be fractional; sizes count bytes.
 */
module Runtime {
  import opened Wrappers

  datatype MemoryLayer = Ram | Vram | SharedMemory | Staging | Swapchain | Display

  /** A registered resource.  Its id is the key it is registered under. */
  datatype Resource = Resource(memory: MemoryLayer, aliases: seq<string>)

  type Table = map<string, Resource>

  datatype OpKind = Copy | Sync | Allocate | Upload | Present | Compute | Draw

  type Cost = c: real | 0.0 <= c witness 0.0

  datatype Operation = Operation(
    id: string,
    kind: OpKind,
    source: Option<string>,
    target: Option<string>,
    queue: string,
    reason: string,
    cost: Cost,
    size: nat,
    frame: Option<int>,
    dependsOn: seq<string>)

  datatype Policy =
    | EliminateSelfCopy
    | CollapseAliasedResourceCopy
    | DeduplicateIdenticalTransfer
    | RemoveOrphanSync
    | RemoveEmptySync
    | ReuseTransientBuffer

  datatype Decision = Decision(operationId: string, policy: Policy, savedCost: Cost, savedSize: nat)

  datatype BufferKey = BufferKey(target: Option<string>, size: nat)

  /** What the optimizer remembers between operations, besides the table. */
  datatype Provenance = Provenance(
    lastCopyByTarget: map<string, Operation>,
    activeBuffers: map<BufferKey, Operation>,
    replacements: map<string, seq<string>>,
    removedIds: set<string>,
    operationIds: set<string>)

  const FRESH := Provenance(map[], map[], map[], {}, {})

  datatype Error = DuplicateOperation(id: string)

  /** The operation as it leaves the optimizer, and why it was dropped if it was. */
  datatype Outcome = Outcome(state: Provenance, operation: Operation, decision: Option<Decision>)

  predicate IsTransfer(kind: OpKind) {
    kind == Copy || kind == Upload
  }

  predicate Writes(kind: OpKind) {
    kind in {Copy, Upload, Allocate, Compute, Draw}
  }

  predicate Known<V>(entries: map<string, V>, id: Option<string>) {
    id.Some? && id.value in entries
  }

  // ----- Aliasing -----

  predicate SharesAlias(a: Resource, b: Resource) {
    exists alias | alias in a.aliases :: alias in b.aliases
  }

  /** Two views of one memory layer that have an alias name in common. */
  predicate Linked(table: Table, a: string, b: string) {
    && a in table && b in table
    && table[a].memory == table[b].memory
    && SharesAlias(table[a], table[b])
  }

  ghost predicate IsChain(table: Table, path: seq<string>) {
    && path != []
    && path[0] in table
    && forall i | 0 <= i < |path| - 1 :: Linked(table, path[i], path[i + 1])
  }

  ghost predicate ChainFromTo(table: Table, path: seq<string>, a: string, b: string) {
    IsChain(table, path) && path[0] == a && path[|path| - 1] == b
  }

  ghost predicate Connected(table: Table, a: string, b: string) {
    exists path :: ChainFromTo(table, path, a, b)
  }

  /** All the views that chains of shared aliases join to `id`: one piece of data. */
  ghost function Component(table: Table, id: string): set<string> {
    set other | other in table && Connected(table, id, other)
  }

  lemma LinkedIsSymmetric(table: Table, a: string, b: string)
    requires Linked(table, a, b)
    ensures Linked(table, b, a)
  {
    var alias :| alias in table[a].aliases && alias in table[b].aliases;
  }

  lemma ConnectedByOneMore(table: Table, a: string, b: string, c: string)
    requires Connected(table, a, b) && Linked(table, b, c)
    ensures Connected(table, a, c)
  {
    var path :| ChainFromTo(table, path, a, b);
    assert ChainFromTo(table, path + [c], a, c);
  }

  lemma SelfConnected(table: Table, a: string)
    requires a in table
    ensures Connected(table, a, a)
  {
    assert ChainFromTo(table, [a], a, a);
  }

  lemma {:induction false} ChainStaysIn(table: Table, path: seq<string>, closed: set<string>)
    requires IsChain(table, path) && path[0] in closed
    requires forall x, y | x in closed && Linked(table, x, y) :: y in closed
    ensures path[|path| - 1] in closed
    decreases |path|
  {
    if |path| > 1 {
      assert Linked(table, path[0], path[1]);
      assert IsChain(table, path[1..]) by {
        forall i | 0 <= i < |path[1..]| - 1
          ensures Linked(table, path[1..][i], path[1..][i + 1])
        {
          assert Linked(table, path[i + 1], path[i + 1 + 1]);
        }
      }
      ChainStaysIn(table, path[1..], closed);
    }
  }

  /** A set that holds `id` and is closed under links holds its whole component. */
  lemma {:induction false} ComponentWithinClosedSet(table: Table, id: string, closed: set<string>)
    requires id in closed
    requires forall x, y | x in closed && Linked(table, x, y) :: y in closed
    ensures Component(table, id) <= closed
  {
    forall other | other in Component(table, id)
      ensures other in closed
    {
      var path :| ChainFromTo(table, path, id, other);
      ChainStaysIn(table, path, closed);
    }
  }

  lemma LinkedComponentsShrink(table: Table, a: string, b: string)
    requires Linked(table, a, b)
    ensures Component(table, b) <= Component(table, a)
  {
    SelfConnected(table, a);
    ConnectedByOneMore(table, a, a, b);
    forall x, y | x in Component(table, a) && Linked(table, x, y)
      ensures y in Component(table, a)
    {
      ConnectedByOneMore(table, a, x, y);
    }
    ComponentWithinClosedSet(table, b, Component(table, a));
  }

  /** Being connected is an equivalence: connected views have the same component. */
  lemma ConnectedViewsShareComponent(table: Table, a: string, b: string)
    requires a in table && Connected(table, a, b)
    ensures b in table && Component(table, a) == Component(table, b)
  {
    var same := set x | x in table && Component(table, x) == Component(table, a);
    forall x, y | x in same && Linked(table, x, y)
      ensures y in same
    {
      LinkedIsSymmetric(table, x, y);
      LinkedComponentsShrink(table, x, y);
      LinkedComponentsShrink(table, y, x);
    }
    var path :| ChainFromTo(table, path, a, b);
    ChainStaysIn(table, path, same);
  }

  lemma ComponentsMeetOnlyIfEqual(table: Table, a: string, b: string)
    requires a in table && b in table
    ensures a in Component(table, a)
    ensures b in Component(table, a) <==> Component(table, a) == Component(table, b)
  {
    SelfConnected(table, a);
    SelfConnected(table, b);
    if b in Component(table, a) {
      ConnectedViewsShareComponent(table, a, b);
    }
  }

  // ----- Invalidation -----

  predicate Mentions(views: set<string>, target: string, transfer: Operation) {
    target in views || (transfer.source.Some? && transfer.source.value in views)
  }

  /**
    The cached transfers that survive a write to `id`: none if the written
    resource is unknown, otherwise exactly those that neither fill nor read a
    view of the written data.
   */
  function Surviving(views: set<string>, cache: map<string, Operation>): map<string, Operation> {
    map target | target in cache && !Mentions(views, target, cache[target]) :: cache[target]
  }

  ghost function Invalidated(table: Table, cache: map<string, Operation>, id: Option<string>): map<string, Operation> {
    if !Known(table, id) then map[]
    else Surviving(Component(table, id.value), cache)
  }

  // ----- Decisions -----

  function Lower(c: char): char {
    if 'A' <= c <= 'Z' then 'a' + (c - 'A') else c
  }

  predicate Contains(text: string, token: string) {
    token <= text || (text != [] && Contains(text[1..], token))
  }

  predicate IsTransientReason(reason: string) {
    var text := seq(|reason|, i requires 0 <= i < |reason| => Lower(reason[i]));
    || Contains(text, "transient")
    || Contains(text, "scratch")
    || Contains(text, "temporary")
    || Contains(text, "staging")
  }

  predicate Repeats(previous: Operation, op: Operation) {
    && previous.source == op.source
    && previous.size == op.size
    && previous.frame == op.frame
    && previous.queue == op.queue
  }

  function Decide(table: Table, state: Provenance, op: Operation): Option<Policy> {
    match op.kind
    case Copy | Upload =>
      if !Known(table, op.source) || !Known(table, op.target) then None
      else if op.source == op.target then Some(EliminateSelfCopy)
      else if Linked(table, op.target.value, op.source.value) then Some(CollapseAliasedResourceCopy)
      else if op.target.value in state.lastCopyByTarget && Repeats(state.lastCopyByTarget[op.target.value], op) then
        Some(DeduplicateIdenticalTransfer)
      else None
    case Sync =>
      if op.dependsOn != [] && forall dep | dep in op.dependsOn :: dep in state.removedIds then Some(RemoveOrphanSync)
      else if op.cost <= 0.0 && op.dependsOn == [] then Some(RemoveEmptySync)
      else None
    case Allocate =>
      var key := BufferKey(op.target, op.size);
      if key in state.activeBuffers && state.activeBuffers[key].frame == op.frame && IsTransientReason(op.reason) then
        Some(ReuseTransientBuffer)
      else None
    case Present | Compute | Draw => None
  }

  function DecisionFor(op: Operation, policy: Policy): Decision {
    match policy
    case RemoveOrphanSync => Decision(op.id, policy, op.cost, 0)
    case RemoveEmptySync => Decision(op.id, policy, 0.0, 0)
    case _ => Decision(op.id, policy, op.cost, op.size)
  }

  // ----- Dependencies -----

  /** Keeps the first occurrence of every element, in order. */
  function Dedup(ids: seq<string>): (r: seq<string>)
    ensures forall x :: x in r <==> x in ids
    ensures forall i, j | 0 <= i < j < |r| :: r[i] != r[j]
  {
    if ids == [] then []
    else
      var rest := Dedup(ids[..|ids| - 1]);
      var last := ids[|ids| - 1];
      assert ids == ids[..|ids| - 1] + [last];
      if last in rest then rest else rest + [last]
  }

  function Resolve(replacements: map<string, seq<string>>, id: string): seq<string> {
    if id in replacements then replacements[id] else [id]
  }

  function ResolveAll(replacements: map<string, seq<string>>, ids: seq<string>): (r: seq<string>)
    ensures forall x :: x in r <==> exists id :: id in ids && x in Resolve(replacements, id)
  {
    if ids == [] then []
    else
      var rest := ResolveAll(replacements, ids[1..]);
      assert ids == [ids[0]] + ids[1..];
      Resolve(replacements, ids[0]) + rest
  }

  /** Where an id first occurs. */
  function FirstIndex(ids: seq<string>, id: string): (i: nat)
    requires id in ids
    ensures i < |ids| && ids[i] == id && id !in ids[..i]
  {
    if ids[0] == id then 0 else 1 + FirstIndex(ids[1..], id)
  }

  lemma {:induction false} FirstIndexInPrefix(prior: seq<string>, more: seq<string>, id: string)
    requires id in prior
    ensures id in prior + more && FirstIndex(prior + more, id) == FirstIndex(prior, id)
  {
    if prior[0] != id {
      assert (prior + more)[1..] == prior[1..] + more;
      FirstIndexInPrefix(prior[1..], more, id);
    }
  }

  /** De-duplication lists the ids by their first occurrence. */
  lemma {:induction false} DedupKeepsOrder(ids: seq<string>, i: nat, j: nat)
    requires i < j < |Dedup(ids)|
    ensures Dedup(ids)[i] in ids && Dedup(ids)[j] in ids
    ensures FirstIndex(ids, Dedup(ids)[i]) < FirstIndex(ids, Dedup(ids)[j])
    decreases |ids|
  {
    var prior, last := ids[..|ids| - 1], ids[|ids| - 1];
    var rest := Dedup(prior);
    assert ids == prior + [last];
    assert Dedup(ids)[i] in Dedup(ids) && Dedup(ids)[j] in Dedup(ids);
    assert rest[i] in rest && rest[i] in prior;
    FirstIndexInPrefix(prior, [last], rest[i]);
    if j < |rest| {
      DedupKeepsOrder(prior, i, j);
      FirstIndexInPrefix(prior, [last], rest[j]);
    } else {
      assert last !in rest && last !in prior;
    }
  }

  /** A dependency list resolves member by member, in order. */
  lemma {:induction false} ResolutionIsInOrder(
    replacements: map<string, seq<string>>, ids: seq<string>, more: seq<string>)
    ensures ResolveAll(replacements, ids + more) == ResolveAll(replacements, ids) + ResolveAll(replacements, more)
    ensures forall id :: ResolveAll(replacements, [id]) == Resolve(replacements, id)
  {
    hide Resolve;
    forall id ensures ResolveAll(replacements, [id]) == Resolve(replacements, id) {
      assert [id][1..] == [];
    }
    if ids == [] {
      assert ids + more == more;
    } else {
      assert (ids + more)[1..] == ids[1..] + more;
      ResolutionIsInOrder(replacements, ids[1..], more);
    }
  }

  /** The kept operation that stands in for a dropped one, when there is one. */
  function Retained(state: Provenance, op: Operation, policy: Policy): seq<string> {
    match policy
    case DeduplicateIdenticalTransfer =>
      if Known(state.lastCopyByTarget, op.target) then [state.lastCopyByTarget[op.target.value].id] else []
    case ReuseTransientBuffer =>
      var key := BufferKey(op.target, op.size);
      if key in state.activeBuffers then [state.activeBuffers[key].id] else []
    case CollapseAliasedResourceCopy =>
      if Known(state.lastCopyByTarget, op.source) then [state.lastCopyByTarget[op.source.value].id] else []
    case _ => []
  }

  // ----- One step of the optimizer -----

  /** Everything a dropped operation leaves behind: who now stands for it. */
  function Drop(state: Provenance, op: Operation, dependencies: seq<string>, policy: Policy): Provenance {
    var standIns := Retained(state, op, policy) + dependencies;
    state.(
      operationIds := state.operationIds + {op.id},
      replacements := state.replacements[op.id := Dedup(standIns)],
      removedIds := if standIns == [] then state.removedIds + {op.id} else state.removedIds)
  }

  function WithoutTarget(buffers: map<BufferKey, Operation>, target: Option<string>): map<BufferKey, Operation> {
    map key | key in buffers && key.target != target :: buffers[key]
  }

  ghost function Keep(table: Table, state: Provenance, op: Operation): Provenance {
    var invalidated :=
      if Writes(op.kind) then Invalidated(table, state.lastCopyByTarget, op.target) else state.lastCopyByTarget;
    state.(
      operationIds := state.operationIds + {op.id},
      lastCopyByTarget :=
        if IsTransfer(op.kind) && Known(table, op.target) then invalidated[op.target.value := op] else invalidated,
      activeBuffers :=
        if op.kind == Allocate && Known(table, op.target) then
          WithoutTarget(state.activeBuffers, op.target)[BufferKey(op.target, op.size) := op]
        else state.activeBuffers)
  }

  ghost function Process(table: Table, state: Provenance, op: Operation): Result<Outcome, Error> {
    if op.id in state.operationIds then Err(DuplicateOperation(op.id))
    else
      var dependencies := Dedup(ResolveAll(state.replacements, op.dependsOn));
      var rewritten := op.(dependsOn := dependencies);
      match Decide(table, state, op)
      case Some(policy) =>
        Ok(Outcome(Drop(state, op, dependencies, policy), rewritten, Some(DecisionFor(op, policy))))
      case None =>
        Ok(Outcome(Keep(table, state, rewritten), rewritten, None))
  }

  /** Whatever is dropped, its whole cost is reported as saved. */
  lemma DroppedCostIsSaved(table: Table, state: Provenance, op: Operation, policy: Policy)
    requires Decide(table, state, op) == Some(policy)
    ensures DecisionFor(op, policy).savedCost == op.cost
  {
    hide Linked, IsTransientReason, Repeats;
  }

  /** What every accepted operation does to the ledger of ids and costs. */
  lemma ProcessAccounts(table: Table, state: Provenance, op: Operation)
    ensures Process(table, state, op).Ok? <==> op.id !in state.operationIds
    ensures Process(table, state, op).Ok? ==>
              var step := Process(table, state, op).value;
              && step.state.operationIds == state.operationIds + {op.id}
              && step.operation == op.(dependsOn := step.operation.dependsOn)
              && (step.decision.Some? ==> step.decision.value.savedCost == op.cost)
  {
    hide Decide, Dedup, ResolveAll, Retained, DecisionFor, Invalidated, WithoutTarget;
    if Decide(table, state, op).Some? {
      DroppedCostIsSaved(table, state, op, Decide(table, state, op).value);
    }
  }

  // ----- A whole pass -----

  datatype Plan = Plan(state: Provenance, kept: seq<Operation>, decisions: seq<Decision>)

  function Extend(plan: Plan, step: Outcome): Plan {
    match step.decision
    case Some(decision) => Plan(step.state, plan.kept, plan.decisions + [decision])
    case None => Plan(step.state, plan.kept + [step.operation], plan.decisions)
  }

  ghost function Optimize(table: Table, ops: seq<Operation>): Result<Plan, Error> {
    if ops == [] then Ok(Plan(FRESH, [], []))
    else
      var plan :- Optimize(table, ops[..|ops| - 1]);
      var step :- Process(table, plan.state, ops[|ops| - 1]);
      Ok(Extend(plan, step))
  }

  ghost predicate DistinctIds(ops: seq<Operation>) {
    forall i, j | 0 <= i < j < |ops| :: ops[i].id != ops[j].id
  }

  /** A pass is refused exactly when an id is submitted twice. */
  lemma {:induction false} OptimizeRefusesOnlyDuplicates(table: Table, ops: seq<Operation>)
    ensures Optimize(table, ops).Ok? <==> DistinctIds(ops)
    ensures Optimize(table, ops).Ok? ==>
              Optimize(table, ops).value.state.operationIds == set op | op in ops :: op.id
  {
    hide Process;
    if ops != [] {
      var prior, last := ops[..|ops| - 1], ops[|ops| - 1];
      OptimizeRefusesOnlyDuplicates(table, prior);
      if Optimize(table, prior).Ok? {
        ProcessAccounts(table, Optimize(table, prior).value.state, last);
      }
      assert ops == prior + [last];
      if DistinctIds(prior) && !DistinctIds(ops) {
        var i, j :| 0 <= i < j < |ops| && ops[i].id == ops[j].id;
        assert j == |prior| && prior[i] in prior;
      }
    }
  }

  // ----- What the pass accounts for -----

  ghost function TotalCost(ops: seq<Operation>): real {
    if ops == [] then 0.0 else TotalCost(ops[..|ops| - 1]) + ops[|ops| - 1].cost
  }

  ghost function TotalSaved(decisions: seq<Decision>): real {
    if decisions == [] then 0.0 else TotalSaved(decisions[..|decisions| - 1]) + decisions[|decisions| - 1].savedCost
  }

  /** Every millisecond submitted is either kept or reported as saved, never both. */
  lemma {:induction false} CostIsConserved(table: Table, ops: seq<Operation>)
    requires Optimize(table, ops).Ok?
    ensures var plan := Optimize(table, ops).value;
            TotalCost(plan.kept) + TotalSaved(plan.decisions) == TotalCost(ops)
  {
    hide Process;
    if ops != [] {
      CostIsConserved(table, ops[..|ops| - 1]);
      var before := Optimize(table, ops[..|ops| - 1]).value;
      ProcessAccounts(table, before.state, ops[|ops| - 1]);
      var step := Process(table, before.state, ops[|ops| - 1]).value;
      match step.decision
      case Some(decision) =>
        assert (before.decisions + [decision])[..|before.decisions|] == before.decisions;
      case None =>
        assert (before.kept + [step.operation])[..|before.kept|] == before.kept;
    }
  }

  // ----- The state object -----

  /** Shared provenance and dependency tracking for sequential inputs. */
  class RuntimeOptimizationState {
    var resources: Table
    var lastCopyByTarget: map<string, Operation>
    var activeBuffers: map<BufferKey, Operation>
    var replacements: map<string, seq<string>>
    var removedIds: set<string>
    var operationIds: set<string>

    ghost function Model(): Provenance
      reads this
    {
      Provenance(lastCopyByTarget, activeBuffers, replacements, removedIds, operationIds)
    }

    constructor (resources: Table)
      ensures this.resources == resources && Model() == FRESH
    {
      this.resources := resources;
      lastCopyByTarget, activeBuffers, replacements, removedIds, operationIds := map[], map[], map[], {}, {};
    }

    /** One sweep over the table: the views linked to `view` that were not yet affected. */
    method Neighbours(view: string, affected: set<string>) returns (found: seq<string>)
      requires view in resources
      ensures forall x :: x in found <==> x !in affected && Linked(resources, view, x)
    {
      found := [];
      var others := resources.Keys;
      while others != {}
        invariant others <= resources.Keys
        invariant forall x :: x in found <==>
                    x in resources.Keys - others && x !in affected && Linked(resources, view, x)
      {
        var other :| other in others;
        others := others - {other};
        if other !in affected && Linked(resources, view, other) {
          found := found + [other];
        }
      }
    }

    method InvalidateResource(id: Option<string>)
      modifies this`lastCopyByTarget
      ensures lastCopyByTarget == Invalidated(resources, old(lastCopyByTarget), id)
    {
      if !Known(resources, id) {
        lastCopyByTarget := map[];
        assert Invalidated(resources, old(lastCopyByTarget), id) == map[];
        return;
      }
      ghost var component := Component(resources, id.value);
      SelfConnected(resources, id.value);
      var affected, pending := {id.value}, [id.value];
      while pending != []
        invariant lastCopyByTarget == old(lastCopyByTarget)
        invariant id.value in affected && affected <= component
        invariant forall x | x in pending :: x in affected
        invariant forall x, y | x in affected && x !in pending && Linked(resources, x, y) :: y in affected
        decreases resources.Keys - affected, |pending|
      {
        var view := pending[|pending| - 1];
        assert view in pending;
        var found := Neighbours(view, affected);
        forall x | x in found ensures x in component {
          ConnectedByOneMore(resources, id.value, view, x);
        }
        ghost var wasAffected, wasPending := affected, pending;
        assert pending == pending[..|pending| - 1] + [view];
        pending := pending[..|pending| - 1] + found;
        affected := affected + set x | x in found;
        if found != [] {
          assert found[0] in found && found[0] in resources.Keys - wasAffected;
        }
      }
      ComponentWithinClosedSet(resources, id.value, affected);
      lastCopyByTarget := Surviving(affected, lastCopyByTarget);
    }

    method ReleaseResource(id: string) returns (released: Option<Resource>)
      modifies this`lastCopyByTarget, this`activeBuffers, this`resources
      ensures released == if id in old(resources) then Some(old(resources)[id]) else None
      ensures resources == old(resources) - {id}
      ensures lastCopyByTarget == Invalidated(old(resources), old(lastCopyByTarget), Some(id))
      ensures activeBuffers == WithoutTarget(old(activeBuffers), Some(id))
    {
      InvalidateResource(Some(id));
      activeBuffers := WithoutTarget(activeBuffers, Some(id));
      released := if id in resources then Some(resources[id]) else None;
      resources := resources - {id};
    }

    method ProcessOperation(op: Operation) returns (result: Result<(Operation, Option<Decision>), Error>)
      modifies this
      ensures resources == old(resources)
      ensures Process(resources, old(Model()), op) ==
              match result
              case Ok(pair) => Ok(Outcome(Model(), pair.0, pair.1))
              case Err(error) => Err(error)
      ensures result.Err? ==> Model() == old(Model())
    {
      if op.id in operationIds {
        return Err(DuplicateOperation(op.id));
      }
      var dependencies := Dedup(ResolveAll(replacements, op.dependsOn));
      var verdict := Decide(resources,
        Provenance(lastCopyByTarget, activeBuffers, replacements, removedIds, operationIds), op);
      var rewritten := op.(dependsOn := dependencies);
      match verdict
      case Some(policy) =>
        var retained := Retained(
          Provenance(lastCopyByTarget, activeBuffers, replacements, removedIds, operationIds), op, policy);
        operationIds := operationIds + {op.id};
        replacements := replacements[op.id := Dedup(retained + dependencies)];
        if retained + dependencies == [] {
          removedIds := removedIds + {op.id};
        }
        result := Ok((rewritten, Some(DecisionFor(op, policy))));
      case None =>
        operationIds := operationIds + {op.id};
        if Writes(op.kind) {
          InvalidateResource(op.target);
        }
        if IsTransfer(op.kind) && Known(resources, op.target) {
          lastCopyByTarget := lastCopyByTarget[op.target.value := rewritten];
        }
        if op.kind == Allocate && Known(resources, op.target) {
          activeBuffers := WithoutTarget(activeBuffers, op.target)[BufferKey(op.target, op.size) := rewritten];
        }
        result := Ok((rewritten, None));
    }
  }

  /** The loop over a manifest: keeps or records every operation in turn. */
  method OptimizeManifest(resources: Table, operations: seq<Operation>) returns (plan: Result<Plan, Error>)
    ensures plan == Optimize(resources, operations)
  {
    var state := new RuntimeOptimizationState(resources);
    var kept: seq<Operation>, decisions: seq<Decision> := [], [];
    for i := 0 to |operations|
      invariant fresh(state) && state.resources == resources
      invariant Optimize(resources, operations[..i]) == Ok(Plan(state.Model(), kept, decisions))
    {
      assert operations[..i + 1][..i] == operations[..i];
      var step := state.ProcessOperation(operations[i]);
      if step.Err? {
        RefusalIsFinal(resources, operations, i + 1);
        return Err(step.error);
      }
      match step.value.1
      case Some(decision) =>
        decisions := decisions + [decision];
      case None =>
        kept := kept + [step.value.0];
    }
    assert operations[..|operations|] == operations;
    plan := Ok(Plan(
      Provenance(state.lastCopyByTarget, state.activeBuffers, state.replacements, state.removedIds, state.operationIds),
      kept, decisions));
  }

  lemma {:induction false} RefusalIsFinal(table: Table, ops: seq<Operation>, k: nat)
    requires k <= |ops| && Optimize(table, ops[..k]).Err?
    ensures Optimize(table, ops) == Optimize(table, ops[..k])
    decreases |ops|
  {
    if k == |ops| {
      assert ops[..k] == ops;
    } else {
      assert ops[..|ops| - 1][..k] == ops[..k];
      RefusalIsFinal(table, ops[..|ops| - 1], k);
    }
  }
}
