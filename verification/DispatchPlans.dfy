/**
  The dispatch plan and its application.  Costs and values are rounded to four
  decimals as they leave the dispatch stage.
 */
module DispatchPlans {
  import opened Wrappers
  import opened Numbers
  import opened Sequences
  import opened Windowing
  import opened BudgetArbiter

  datatype DispatchKind =
    | DropOperation
    | PrestageOperation
    | PrepareOperation
    | ExecuteOperation
    | DeferOrSplitOperation
    | EvictOrDeferResidency
    | ReserveMemoryHeadroom

  function KindName(kind: DispatchKind): string {
    match kind
    case DropOperation => "drop_operation"
    case PrestageOperation => "prestage_operation"
    case PrepareOperation => "prepare_operation"
    case ExecuteOperation => "execute_operation"
    case DeferOrSplitOperation => "defer_or_split_operation"
    case EvictOrDeferResidency => "evict_or_defer_residency"
    case ReserveMemoryHeadroom => "reserve_memory_headroom"
  }

  function PhaseOrder(kind: DispatchKind): int {
    match kind
    case DropOperation => 0
    case EvictOrDeferResidency | ReserveMemoryHeadroom => 1
    case PrepareOperation => 2
    case PrestageOperation => 3
    case ExecuteOperation => 4
    case DeferOrSplitOperation => 5
  }

  /** A dispatched operation, or a memory action named by its layer. */
  datatype Dispatch = Dispatch(kind: DispatchKind, name: string, frame: Option<int>, cost: real, value: real)

  function DispatchShape(verdict: ArbiterAction): DispatchKind {
    match verdict
    case DropWaste => DropOperation
    case PrestageBeforeFrame => PrestageOperation
    case PrepareBeforeHotPath => PrepareOperation
    case AdmitHotPath | AdmitCurrentPath => ExecuteOperation
    case SplitOrDeferHotPath | DeferPreFrameOverflow => DeferOrSplitOperation
  }

  function DispatchOf(arbitration: Arbitration): Dispatch {
    var command := arbitration.command;
    Dispatch(DispatchShape(arbitration.verdict), command.operationId, command.frame, command.cost, command.value)
  }

  function DispatchOfMemory(action: MemoryAction): Dispatch {
    match action
    case EvictOrDefer(memory, pressure) => Dispatch(EvictOrDeferResidency, memory, None, 0.0, pressure)
    case ReserveHeadroom(memory, pressure) => Dispatch(ReserveMemoryHeadroom, memory, None, 0.0, pressure)
  }

  predicate DispatchLeq(a: Dispatch, b: Dispatch) {
    if PhaseOrder(a.kind) != PhaseOrder(b.kind) then PhaseOrder(a.kind) < PhaseOrder(b.kind)
    else if FrameRank(a.frame) != FrameRank(b.frame) then FrameRank(a.frame) < FrameRank(b.frame)
    else if a.name != b.name then TextLeq(a.name, b.name)
    else TextLeq(KindName(a.kind), KindName(b.kind))
  }

  /** Leaving the stage rounds cost and value. */
  function RoundedDispatch(d: Dispatch): Dispatch {
    d.(cost := Round4(d.cost), value := Round4(d.value))
  }

  function DispatchPlan(arbitrations: seq<Arbitration>, actions: seq<MemoryAction>): seq<Dispatch> {
    Mapped(Sort(Mapped(arbitrations, DispatchOf) + Mapped(actions, DispatchOfMemory), DispatchLeq), RoundedDispatch)
  }

  /** The dispatch order is a total preorder, so the plan is really sorted by it. */
  lemma DispatchPlansAreSorted(arbitrations: seq<Arbitration>, actions: seq<MemoryAction>)
    ensures Sorted(DispatchPlan(arbitrations, actions), DispatchLeq)
  {
    var commands := Mapped(arbitrations, DispatchOf) + Mapped(actions, DispatchOfMemory);
    var plan, sorted := DispatchPlan(arbitrations, actions), Sort(commands, DispatchLeq);
    DispatchOrderIsTotal();
    SortSorts(commands, DispatchLeq);
    hide Round4, Sort, DispatchOf, DispatchOfMemory;
    forall i, j | 0 <= i < j < |plan|
      ensures DispatchLeq(plan[i], plan[j])
    {
      assert plan[i] == RoundedDispatch(sorted[i]) && plan[j] == RoundedDispatch(sorted[j]);
      assert DispatchLeq(sorted[i], sorted[j]);
    }
  }

  lemma DispatchOrderIsTotal()
    ensures TotalPreorder(DispatchLeq)
  {
    forall x, y, z
      ensures DispatchLeq(x, y) || DispatchLeq(y, x)
      ensures DispatchLeq(x, y) && DispatchLeq(y, z) ==> DispatchLeq(x, z)
    {
      TextOrderIsTotal(x.name, y.name);
      TextOrderIsTotal(y.name, z.name);
      TextOrderIsTotal(KindName(x.kind), KindName(y.kind));
      if TextLeq(x.name, y.name) && TextLeq(y.name, z.name) {
        TextOrderIsTransitive(x.name, y.name, z.name);
      }
      if TextLeq(KindName(x.kind), KindName(y.kind)) && TextLeq(KindName(y.kind), KindName(z.kind)) {
        TextOrderIsTransitive(KindName(x.kind), KindName(y.kind), KindName(z.kind));
      }
    }
  }

  /** The turn of a command in the plan. */
  ghost function Turn(kind: DispatchKind): int {
    match kind
    case DropOperation => 1
    case EvictOrDeferResidency => 2 case ReserveMemoryHeadroom => 2
    case PrepareOperation => 3
    case PrestageOperation => 4
    case ExecuteOperation => 5
    case DeferOrSplitOperation => 6
  }

  /** Waste goes first, then memory relief, prepared, staged, running and deferred work; within a turn by frame. */
  lemma PlansComeInTurns(arbitrations: seq<Arbitration>, actions: seq<MemoryAction>, i: nat, j: nat)
    requires i < j < |DispatchPlan(arbitrations, actions)|
    ensures var a, b := DispatchPlan(arbitrations, actions)[i], DispatchPlan(arbitrations, actions)[j];
            var (f, g) := (if a.frame.Some? then a.frame.value else -1, if b.frame.Some? then b.frame.value else -1);
            && Turn(a.kind) <= Turn(b.kind)
            && (Turn(a.kind) == Turn(b.kind) ==> f <= g)
            && (Turn(a.kind) == Turn(b.kind) && f == g ==> TextLeq(a.name, b.name))
  {
    hide DispatchPlan, KindName;
    DispatchPlansAreSorted(arbitrations, actions);
    assert DispatchLeq(DispatchPlan(arbitrations, actions)[i], DispatchPlan(arbitrations, actions)[j]);
    TextOrderIsTotal(DispatchPlan(arbitrations, actions)[i].name, DispatchPlan(arbitrations, actions)[j].name);
  }

  datatype Step = Step(
    kind: DispatchKind, frame: Option<int>,
    currentFrame: real, preFrame: real, avoided: real, deferred: real, relief: real)

  function Execute(d: Dispatch): Step {
    var idle := Step(d.kind, d.frame, 0.0, 0.0, 0.0, 0.0, 0.0);
    match d.kind
    case DropOperation => idle.(avoided := d.cost)
    case PrestageOperation => idle.(preFrame := d.cost)
    case ExecuteOperation => idle.(currentFrame := d.cost)
    case DeferOrSplitOperation => idle.(deferred := d.cost)
    case EvictOrDeferResidency | ReserveMemoryHeadroom => idle.(relief := d.value)
    case PrepareOperation => idle
  }

  function ExecutePlan(plan: seq<Dispatch>): seq<Step> {
    Mapped(plan, Execute)
  }

  function CurrentCost(frame: int): Step -> real {
    (s: Step) => if s.frame == Some(frame) then s.currentFrame else 0.0
  }

  function PreFrameCost(frame: int): Step -> real {
    (s: Step) => if s.frame == Some(frame) then s.preFrame else 0.0
  }

  function Relief(s: Step): real {
    s.relief
  }

  function RoundedExecutedCost(frame: int): Dispatch -> real {
    (d: Dispatch) => if d.frame == Some(frame) && d.kind == ExecuteOperation then Round4(d.cost) else 0.0
  }

  lemma MemoryActionsCostNothing(actions: seq<MemoryAction>, frame: int)
    ensures Sum(Mapped(actions, DispatchOfMemory), RoundedExecutedCost(frame)) == 0.0
  {
    hide Round4;
    var memory := Mapped(actions, DispatchOfMemory);
    forall d | d in memory ensures RoundedExecutedCost(frame)(d) == 0.0 {
      var k :| 0 <= k < |memory| && memory[k] == d;
      assert d == DispatchOfMemory(actions[k]);
    }
    SumOfNothing(memory, RoundedExecutedCost(frame));
  }

  lemma {:induction false} OperationsCostWhatWasAdmitted(arbitrations: seq<Arbitration>, frame: int)
    requires forall a | a in arbitrations :: Round4(a.command.cost) == a.command.cost && a.verdict != AdmitCurrentPath
    ensures Sum(Mapped(arbitrations, DispatchOf), RoundedExecutedCost(frame)) ==
            Sum(arbitrations, VerdictCost(frame, AdmitHotPath))
  {
    hide Round4;
    var operations := Mapped(arbitrations, DispatchOf);
    forall i | 0 <= i < |arbitrations|
      ensures RoundedExecutedCost(frame)(operations[i]) == VerdictCost(frame, AdmitHotPath)(arbitrations[i])
    {
      assert arbitrations[i] in arbitrations;
    }
    SumOfSameTerms(operations, RoundedExecutedCost(frame), arbitrations, VerdictCost(frame, AdmitHotPath));
  }

  /** Sorting, rounding and applying a plan keeps what its unsorted commands execute in a frame. */
  lemma StepsCostWhatIsExecuted(commands: seq<Dispatch>, frame: int)
    ensures Sum(ExecutePlan(Mapped(Sort(commands, DispatchLeq), RoundedDispatch)), CurrentCost(frame)) ==
            Sum(commands, RoundedExecutedCost(frame))
  {
    hide Round4;
    var sorted := Sort(commands, DispatchLeq);
    var plan := Mapped(sorted, RoundedDispatch);
    var steps := ExecutePlan(plan);
    forall k | 0 <= k < |sorted|
      ensures CurrentCost(frame)(steps[k]) == RoundedExecutedCost(frame)(sorted[k])
    {
      assert plan[k] == RoundedDispatch(sorted[k]) && steps[k] == Execute(plan[k]);
    }
    SumOfSameTerms(steps, CurrentCost(frame), sorted, RoundedExecutedCost(frame));
    SortSum(commands, DispatchLeq, RoundedExecutedCost(frame));
  }

  /** Sorting and applying a plan turns exactly the admitted costs into current-frame work. */
  lemma {:induction false} PlannedCostOfDispatch(arbitrations: seq<Arbitration>, actions: seq<MemoryAction>, frame: int)
    requires forall a | a in arbitrations :: Round4(a.command.cost) == a.command.cost && a.verdict != AdmitCurrentPath
    ensures Sum(ExecutePlan(DispatchPlan(arbitrations, actions)), CurrentCost(frame)) ==
            Sum(arbitrations, VerdictCost(frame, AdmitHotPath))
  {
    hide Round4, DispatchOf, DispatchOfMemory, RoundedExecutedCost;
    var operations, memory := Mapped(arbitrations, DispatchOf), Mapped(actions, DispatchOfMemory);
    StepsCostWhatIsExecuted(operations + memory, frame);
    SumOfConcat(operations, memory, RoundedExecutedCost(frame));
    MemoryActionsCostNothing(actions, frame);
    OperationsCostWhatWasAdmitted(arbitrations, frame);
  }
}
