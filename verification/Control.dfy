/**
  The incremental driver of the optimizer, and what it answers to a batch of
  operations that differ only in their ids.
 */
module Control {
  import opened Wrappers
  import opened Runtime

  datatype ControllerResult = ControllerResult(operation: Operation, decision: Option<Decision>, executed: bool)

  class FluidGatewayController {
    const optimization: RuntimeOptimizationState
    var executedOperations: seq<Operation>
    var decisions: seq<Decision>
    ghost var submitted: seq<Operation>

    /** So far the controller did what one pass over the submitted operations does. */
    ghost predicate InStep()
      reads this, optimization
    {
      Optimize(optimization.resources, submitted) == Ok(Plan(optimization.Model(), executedOperations, decisions))
    }

    constructor ()
      ensures InStep() && submitted == [] && fresh(optimization) && optimization.resources == map[]
    {
      optimization := new RuntimeOptimizationState(map[]);
      executedOperations, decisions, submitted := [], [], [];
    }

    /** A table completed before the first operation keeps the controller in step. */
    method RegisterResource(id: string, resource: Resource) returns (accepted: bool)
      modifies optimization`resources
      ensures accepted == (id !in old(optimization.resources))
      ensures optimization.resources ==
              if accepted then old(optimization.resources)[id := resource] else old(optimization.resources)
      ensures old(InStep()) && submitted == [] ==> InStep()
    {
      accepted := id !in optimization.resources;
      if accepted {
        optimization.resources := optimization.resources[id := resource];
      }
    }

    method SubmitOperation(op: Operation) returns (result: Result<ControllerResult, Error>)
      modifies this, optimization
      ensures optimization.resources == old(optimization.resources)
      ensures result.Err? <==> op.id in old(optimization.operationIds)
      ensures result.Err? ==>
                && submitted == old(submitted) && optimization.Model() == old(optimization.Model())
                && executedOperations == old(executedOperations) && decisions == old(decisions)
      ensures result.Ok? ==> submitted == old(submitted) + [op]
      ensures result.Ok? ==>
                var step := Process(optimization.resources, old(optimization.Model()), op).value;
                && result.value == ControllerResult(step.operation, step.decision, step.decision.None?)
                && Plan(optimization.Model(), executedOperations, decisions) ==
                   Extend(Plan(old(optimization.Model()), old(executedOperations), old(decisions)), step)
      ensures old(InStep()) ==> InStep()
    {
      hide Decide, Keep, Drop;
      var step := optimization.ProcessOperation(op);
      if step.Err? {
        return Err(step.error);
      }
      assert (submitted + [op])[..|submitted|] == submitted;
      submitted := submitted + [op];
      match step.value.1
      case Some(decision) =>
        decisions := decisions + [decision];
        result := Ok(ControllerResult(step.value.0, Some(decision), false));
      case None =>
        executedOperations := executedOperations + [step.value.0];
        result := Ok(ControllerResult(step.value.0, None, true));
    }

    method ReleaseResource(id: string) returns (released: Option<Resource>)
      modifies optimization
      ensures released == if id in old(optimization.resources) then Some(old(optimization.resources)[id]) else None
      ensures optimization.resources == old(optimization.resources) - {id}
      ensures optimization.lastCopyByTarget ==
              Invalidated(old(optimization.resources), old(optimization.lastCopyByTarget), Some(id))
      ensures optimization.activeBuffers == WithoutTarget(old(optimization.activeBuffers), Some(id))
      ensures optimization.replacements == old(optimization.replacements)
      ensures optimization.removedIds == old(optimization.removedIds)
      ensures optimization.operationIds == old(optimization.operationIds)
    {
      released := optimization.ReleaseResource(id);
    }
  }

  /** After a release nothing cached mentions the resource, so registering it again starts afresh. */
  lemma ReleaseForgetsTheResource(table: Table, cache: map<string, Operation>, id: string)
    ensures var left := Invalidated(table, cache, Some(id));
            forall target | target in left :: target != id && left[target].source != Some(id)
  {
    if id in table {
      SelfConnected(table, id);
    }
  }

  // ----- Batches of one operation under many ids -----

  /** What a client is told about one operation of a batch. */
  datatype Verdict = Execute | Removed(policy: Policy, savedCost: Cost, savedSize: nat)

  function VerdictOf(decision: Option<Decision>): Verdict {
    match decision
    case None => Execute
    case Some(d) => Removed(d.policy, d.savedCost, d.savedSize)
  }

  /** The template submitted once under every id, one operation at a time. */
  ghost function SubmitAll(table: Table, state: Provenance, template: Operation, ids: seq<string>)
    : (r: Result<(Provenance, seq<Verdict>), Error>)
    ensures r.Ok? ==> |r.value.1| == |ids|
  {
    if ids == [] then Ok((state, []))
    else
      var before :- SubmitAll(table, state, template, ids[..|ids| - 1]);
      var step :- Process(table, before.0, template.(id := ids[|ids| - 1]));
      Ok((step.state, before.1 + [VerdictOf(step.decision)]))
  }

  function VerdictNow(table: Table, state: Provenance, template: Operation): Verdict {
    match Decide(table, state, template)
    case None => Execute
    case Some(policy) => VerdictOf(Some(DecisionFor(template, policy)))
  }

  /** Processing the template again cannot change its verdict. */
  ghost predicate Settled(table: Table, state: Provenance, template: Operation) {
    Decide(table, state, template).None? ==>
      && (IsTransfer(template.kind) ==> !Known(table, template.source) || !Known(table, template.target))
      && (template.kind == Allocate ==> !Known(table, template.target) || !IsTransientReason(template.reason))
  }

  lemma FirstSubmissionSettles(table: Table, state: Provenance, template: Operation, id: string)
    requires Process(table, state, template.(id := id)).Ok?
    ensures var step := Process(table, state, template.(id := id)).value;
            && VerdictOf(step.decision) == VerdictNow(table, state, template)
            && Settled(table, step.state, template)
            && (VerdictNow(table, state, template).Removed? || Settled(table, state, template) ==>
                  VerdictNow(table, step.state, template) == VerdictNow(table, state, template))
  {
    hide Dedup, ResolveAll, Retained, Linked, IsTransientReason, Invalidated;
  }

  /**
    The answers to a batch are all the same, or the first operation executes and
    every later one is removed for the same reason with the same savings.
   */
  ghost predicate UniformVector(verdicts: seq<Verdict>) {
    || (forall i, j | 0 <= i < |verdicts| && 0 <= j < |verdicts| :: verdicts[i] == verdicts[j])
    || (&& verdicts[0] == Execute
        && forall i | 1 <= i < |verdicts| :: verdicts[i].Removed? && verdicts[i] == verdicts[1])
  }

  lemma {:induction false} BatchSettles(table: Table, state: Provenance, template: Operation, ids: seq<string>)
    requires ids != [] && SubmitAll(table, state, template, ids).Ok?
    ensures var (final, verdicts) := SubmitAll(table, state, template, ids).value;
            && Settled(table, final, template)
            && UniformVector(verdicts)
            && (|verdicts| >= 2 ==> VerdictNow(table, final, template) == verdicts[|verdicts| - 1])
            && verdicts[0] == VerdictNow(table, state, template)
            && (verdicts[0].Removed? ==> VerdictNow(table, final, template) == verdicts[0])
    decreases |ids|
  {
    hide Process, Decide, Settled;
    var last := ids[|ids| - 1];
    var before := SubmitAll(table, state, template, ids[..|ids| - 1]).value;
    FirstSubmissionSettles(table, before.0, template, last);
    if |ids| > 1 {
      BatchSettles(table, state, template, ids[..|ids| - 1]);
    }
  }
}
