/**
  What a dropped operation leaves behind: who stands in for it, and so what every
  operation that named it depends on afterwards.
 */
module RuntimeStandIns {
  import opened Wrappers
  import opened Runtime
  import opened RuntimeDependencies
  import opened RuntimeDangling
  import opened RuntimeHistory

  /**
    The kept operation at j does what the dropped one at k asked for: it is the
    repeated transfer, the last transfer into the aliased source, or the active
    allocation.
   */
  ghost predicate StandsInFor(table: Table, ops: seq<Operation>, j: nat, k: nat)
    requires j < k < |ops| && Optimize(table, ops).Ok?
  {
    match ops[k].kind
    case Copy | Upload =>
      && BothRegistered(table, ops[k]) && ops[k].source != ops[k].target
      && Standing(table, ops, j, k)
      && if Aliased(table, ops[k].source.value, ops[k].target.value) then ops[j].target == ops[k].source
         else ops[j].target == ops[k].target
    case Allocate => Active(table, ops, j, k) && ops[j].target == ops[k].target && ops[j].size == ops[k].size
    case Sync | Present | Compute | Draw => false
  }

  ghost predicate HasStandIn(table: Table, ops: seq<Operation>, k: nat, id: string)
    requires k < |ops| && Optimize(table, ops).Ok?
  {
    exists j | 0 <= j < k :: ops[j].id == id && StandsInFor(table, ops, j, k)
  }

  lemma TransferStandIn(table: Table, state: Provenance, op: Operation)
    requires (op.kind == Copy || op.kind == Upload) && Decide(table, state, op).Some?
    ensures BothRegistered(table, op)
    ensures var cache := state.lastCopyByTarget;
            var end := if Aliased(table, op.source.value, op.target.value) then op.source.value else op.target.value;
            StandIn(table, state, op) ==
            if op.source == op.target || end !in cache then [] else [cache[end].id]
  {
    hide Aliased, Linked;
    TransferVerdict(table, state, op);
  }

  lemma TransferStandsIn(table: Table, ops: seq<Operation>, k: nat, id: string)
    requires k < |ops| && Optimize(table, ops).Ok? && (ops[k].kind == Copy || ops[k].kind == Upload)
    requires Decide(table, StateAt(table, ops, k), ops[k]).Some?
    ensures id in StandIn(table, StateAt(table, ops, k), ops[k]) <==> HasStandIn(table, ops, k, id)
  {
    hide Optimize, StateAt, Standing, StandIn, Decide, Aliased;
    var op, cache := ops[k], StateAt(table, ops, k).lastCopyByTarget;
    TransferStandIn(table, StateAt(table, ops, k), op);
    CachesAreHistory(table, ops, k);
    var end := if Aliased(table, op.source.value, op.target.value) then op.source.value else op.target.value;
    if op.source != op.target && end in cache {
      var j :| 0 <= j < k && Standing(table, ops, j, k) && Fills(cache, end, ops[j]);
      assert StandsInFor(table, ops, j, k);
    }
    if j :| 0 <= j < k && ops[j].id == id && StandsInFor(table, ops, j, k) {
      assert Fills(cache, end, ops[j]);
    }
  }

  lemma AllocationStandsIn(table: Table, ops: seq<Operation>, k: nat, id: string)
    requires k < |ops| && Optimize(table, ops).Ok? && ops[k].kind == Allocate
    requires Decide(table, StateAt(table, ops, k), ops[k]).Some?
    ensures id in StandIn(table, StateAt(table, ops, k), ops[k]) <==> HasStandIn(table, ops, k, id)
  {
    hide Optimize, StateAt, Active, IsTransientReason;
    var op, buffers := ops[k], StateAt(table, ops, k).activeBuffers;
    var key := BufferKey(op.target, op.size);
    ActiveBuffersAreHistory(table, ops, k);
    var j :| 0 <= j < k && Active(table, ops, j, k) && Serves(buffers, key, ops[j]);
    assert StandsInFor(table, ops, j, k);
    if i :| 0 <= i < k && ops[i].id == id && StandsInFor(table, ops, i, k) {
      assert Serves(buffers, BufferKey(ops[i].target, ops[i].size), ops[i]);
    }
  }

  /** The stand-in recorded for a dropped operation is the one its history shows. */
  lemma StandInsAreHistory(table: Table, ops: seq<Operation>, k: nat, id: string)
    requires k < |ops| && Optimize(table, ops).Ok? && !Kept(Optimize(table, ops).value, ops[k].id)
    ensures id in StandIn(table, StateAt(table, ops, k), ops[k]) <==> HasStandIn(table, ops, k, id)
  {
    hide Optimize, StateAt, Kept, StandIn, HasStandIn;
    StepAt(table, ops, k);
    match ops[k].kind {
      case Copy | Upload => TransferStandsIn(table, ops, k, id);
      case Allocate => AllocationStandsIn(table, ops, k, id);
      case Sync | Present | Compute | Draw =>
        NobodyStandsIn(table, StateAt(table, ops, k), ops[k]);
        assert !HasStandIn(table, ops, k, id) by {
          NobodyDoes(table, ops, k, id);
        }
    }
  }

  lemma NobodyStandsIn(table: Table, state: Provenance, op: Operation)
    requires op.kind in {Sync, Present, Compute, Draw}
    ensures StandIn(table, state, op) == []
  {
  }

  lemma NobodyDoes(table: Table, ops: seq<Operation>, k: nat, id: string)
    requires k < |ops| && Optimize(table, ops).Ok? && ops[k].kind in {Sync, Present, Compute, Draw}
    ensures !HasStandIn(table, ops, k, id)
  {
    hide Optimize, Standing, Active;
  }

  // ----- What dependencies become -----

  /** What naming `dep` at k comes to: what replaced it if it was dropped before, or itself. */
  ghost predicate LeadsTo(plan: Plan, ops: seq<Operation>, k: nat, dep: string, id: string)
    requires k <= |ops|
  {
    if dep in Ids(ops[..k]) && dep in plan.state.replacements then id in plan.state.replacements[dep] else id == dep
  }

  ghost predicate NamedTo(plan: Plan, ops: seq<Operation>, k: nat, id: string)
    requires k < |ops|
  {
    exists dep :: dep in ops[k].dependsOn && LeadsTo(plan, ops, k, dep, id)
  }

  lemma ResolvesAsItLeads(table: Table, ops: seq<Operation>, k: nat, dep: string, id: string)
    requires k <= |ops| && Optimize(table, ops).Ok?
    ensures id in Resolve(StateAt(table, ops, k).replacements, dep) <==>
            LeadsTo(Optimize(table, ops).value, ops, k, dep, id)
  {
    hide Optimize;
    PassesExtend(table, ops, k);
    ReplacedBefore(table, ops, k);
  }

  lemma ResolvedAsNamed(table: Table, ops: seq<Operation>, k: nat, id: string)
    requires k < |ops| && Optimize(table, ops).Ok?
    ensures id in ResolveAll(StateAt(table, ops, k).replacements, ops[k].dependsOn) <==>
            NamedTo(Optimize(table, ops).value, ops, k, id)
  {
    hide Optimize, StateAt, LeadsTo, Resolve;
    forall dep
      ensures id in Resolve(StateAt(table, ops, k).replacements, dep) <==>
              LeadsTo(Optimize(table, ops).value, ops, k, dep, id)
    {
      ResolvesAsItLeads(table, ops, k, dep, id);
    }
  }

  /** A kept operation depends on exactly what its dependencies lead to. */
  lemma KeptDependsOnExactly(table: Table, ops: seq<Operation>, k: nat, op: Operation, id: string)
    requires k < |ops| && Optimize(table, ops).Ok?
    requires op in Optimize(table, ops).value.kept && op.id == ops[k].id
    ensures id in op.dependsOn <==> NamedTo(Optimize(table, ops).value, ops, k, id)
    ensures SameRequest(op, ops[k])
  {
    hide Optimize, StateAt, NamedTo, StandIn, Decide;
    StepAt(table, ops, k);
    KeptOnce(table, ops, op, ops[k].(dependsOn := ResolvedBy(table, StateAt(table, ops, k), ops[k])));
    ResolvedAsNamed(table, ops, k, id);
  }

  /** No two kept operations share an id. */
  lemma {:induction false} KeptOnce(table: Table, ops: seq<Operation>, a: Operation, b: Operation)
    requires Optimize(table, ops).Ok? && a.id == b.id
    requires Kept(Optimize(table, ops).value, a.id) ==> b in Optimize(table, ops).value.kept
    requires a in Optimize(table, ops).value.kept
    ensures a == b
    decreases |ops|
  {
    hide Process, Decide, Keep;
    var prior, last := ops[..|ops| - 1], ops[|ops| - 1];
    var before := Optimize(table, prior).value;
    ProcessAccounts(table, before.state, last);
    OptimizeRefusesOnlyDuplicates(table, prior);
    KeptWasSubmitted(table, prior);
    assert b in Optimize(table, ops).value.kept;
    if a in before.kept && b in before.kept {
      KeptOnce(table, prior, a, b);
    }
  }

  lemma KeptWasSubmitted(table: Table, ops: seq<Operation>)
    requires Optimize(table, ops).Ok?
    ensures forall op | op in Optimize(table, ops).value.kept :: op.id in Ids(ops)
  {
    hide Optimize, Grounded, CachesName;
    PassIsTraceable(table, ops);
    forall op | op in Optimize(table, ops).value.kept ensures op.id in Ids(ops) {
      assert op.id in Ids(Optimize(table, ops).value.kept);
    }
  }

  /** A dropped operation is replaced by exactly its stand-in and what its dependencies lead to. */
  lemma DroppedIsReplacedByExactly(table: Table, ops: seq<Operation>, k: nat, id: string)
    requires k < |ops| && Optimize(table, ops).Ok? && !Kept(Optimize(table, ops).value, ops[k].id)
    ensures ops[k].id in Optimize(table, ops).value.state.replacements
    ensures id in Optimize(table, ops).value.state.replacements[ops[k].id] <==>
            HasStandIn(table, ops, k, id) || NamedTo(Optimize(table, ops).value, ops, k, id)
  {
    hide Optimize, StateAt, NamedTo, HasStandIn, StandIn, Decide, Kept;
    StepAt(table, ops, k);
    StandInsAreHistory(table, ops, k, id);
    ResolvedAsNamed(table, ops, k, id);
  }

  /** So whoever names a dropped operation afterwards depends on what stands in for it. */
  lemma WaitsForTheStandIn(table: Table, ops: seq<Operation>, j: nat, k: nat, m: nat, op: Operation)
    requires j < k < m < |ops| && Optimize(table, ops).Ok? && !Kept(Optimize(table, ops).value, ops[k].id)
    requires StandsInFor(table, ops, j, k)
    requires op in Optimize(table, ops).value.kept && op.id == ops[m].id && ops[k].id in ops[m].dependsOn
    ensures ops[j].id in op.dependsOn
  {
    hide Optimize, StandsInFor, Kept;
    assert HasStandIn(table, ops, k, ops[j].id);
    DroppedIsReplacedByExactly(table, ops, k, ops[j].id);
    KeptDependsOnExactly(table, ops, m, op, ops[j].id);
    assert ops[..m][k] in ops[..m];
    assert LeadsTo(Optimize(table, ops).value, ops, m, ops[k].id, ops[j].id);
  }

  /** A repeated transfer is stood in for by the kept one it repeats. */
  lemma RepeatedTransferHasItsOriginal(table: Table, ops: seq<Operation>, k: nat) returns (j: nat)
    requires k < |ops| && Optimize(table, ops).Ok? && !Kept(Optimize(table, ops).value, ops[k].id)
    requires (ops[k].kind == Copy || ops[k].kind == Upload) && ops[k].source != ops[k].target
    requires BothRegistered(table, ops[k]) && !Aliased(table, ops[k].source.value, ops[k].target.value)
    ensures j < k && Kept(Optimize(table, ops).value, ops[j].id) && RegisteredTransfer(table, ops[j])
    ensures SameTransfer(ops[j], ops[k]) && StandsInFor(table, ops, j, k)
  {
    hide Optimize, Kept, RegisteredTransfer;
    TransferIsDroppedExactlyWhen(table, ops, k);
    j :| 0 <= j < k && Standing(table, ops, j, k) && SameTransfer(ops[j], ops[k]);
  }

  /** A reused allocation is stood in for by the kept one it repeats. */
  lemma ReusedAllocationHasItsOriginal(table: Table, ops: seq<Operation>, k: nat) returns (j: nat)
    requires k < |ops| && Optimize(table, ops).Ok? && !Kept(Optimize(table, ops).value, ops[k].id)
    requires ops[k].kind == Allocate
    ensures j < k && Kept(Optimize(table, ops).value, ops[j].id) && RegisteredAllocation(table, ops[j])
    ensures ops[j].target == ops[k].target && ops[j].size == ops[k].size && ops[j].frame == ops[k].frame
    ensures StandsInFor(table, ops, j, k)
  {
    hide Optimize, Kept, RegisteredAllocation, NamesAToken;
    AllocationIsDroppedExactlyWhen(table, ops, k);
    j :| 0 <= j < k && AlreadyAllocated(table, ops, j, k);
  }

  /** The edges the exact order theorem adds to the submitted graph are those to the stand-ins. */
  lemma AugmentedEdges(table: Table, ops: seq<Operation>, k: nat, id: string)
    requires k < |ops| && Optimize(table, ops).Ok?
    ensures Augmented(table, ops)[k].id == ops[k].id
    ensures id in Augmented(table, ops)[k].dependsOn <==>
            || id in ops[k].dependsOn
            || (!Kept(Optimize(table, ops).value, ops[k].id) && HasStandIn(table, ops, k, id))
  {
    hide Optimize, HasStandIn, StandIn, Kept, StateAt;
    StepAt(table, ops, k);
    NodeAt(table, ops, k);
    if !Kept(Optimize(table, ops).value, ops[k].id) {
      StandInsAreHistory(table, ops, k, id);
    } else {
      KeptHasNone(table, StateAt(table, ops, k), ops[k]);
    }
  }

  lemma KeptHasNone(table: Table, state: Provenance, op: Operation)
    requires Decide(table, state, op).None?
    ensures StandIn(table, state, op) == []
  {
  }

  lemma {:induction false} NodeAt(table: Table, ops: seq<Operation>, k: nat)
    requires k < |ops| && Optimize(table, ops).Ok?
    ensures Augmented(table, ops)[k] ==
            ops[k].(dependsOn := StandIn(table, StateAt(table, ops, k), ops[k]) + ops[k].dependsOn)
    decreases |ops|
  {
    hide Process, StandIn, ResolvedBy;
    var prior := ops[..|ops| - 1];
    if k < |prior| {
      assert prior[..k] == ops[..k];
      NodeAt(table, prior, k);
    }
  }
}
