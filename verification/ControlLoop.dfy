/**
  The control stages together: feedback reads the manager's budgets, and both routes
  relieve the same memory.
 */
module ControlLoop {
  import opened Wrappers
  import opened Numbers
  import opened Sequences
  import opened Windowing
  import opened BudgetEnvelope
  import opened BudgetArbiter
  import opened DispatchPlans
  import opened RuntimeCalibration
  import opened BudgetLoop
  import opened Manager
  import opened ControlPackets
  import opened ControlStates
  import opened GatewayTicks

  /**
    Through packet, control state, tick and execution, the protected budgets that
    feedback reads back for a frame are the manager's own, rounded once.
   */
  lemma FeedbackReadsTheManagersBudgets(
    directives: seq<FrameDirective>, memory: seq<MemoryDirective>, i: nat)
    requires DistinctFrames(directives) && i < |directives|
    ensures var steps := GatewayTick(ApplyPacket(ControlPacket(directives, memory)));
            && FrameStepBudget(directives[i].frame, steps, ProtectNextFrameBudget) == Round4(directives[i].nextBudget)
            && FrameStepBudget(directives[i].frame, steps, ProtectGpuHotPath) == Round4(directives[i].hotPathBudget)
  {
    hide Round4, FrameSteps, MemoryStep, ApplyPacket, Sum, ProtectedFor, InOrder;
    var state := ApplyPacket(ControlPacket(directives, memory));
    var d := directives[i];
    DirectivesApplied(directives);
    MemoryApplied(AllFrameCommands(directives), memory);
    assert Settles(state.frames[d.frame], d);
    TickProtects(InOrder(state.frames.Keys), state.frames, d.frame);
    MemoryStepsProtectNothing(state.memory, d.frame, ProtectNextFrameBudget);
    MemoryStepsProtectNothing(state.memory, d.frame, ProtectGpuHotPath);
    var frameSteps, memorySteps := AllFrameSteps(InOrder(state.frames.Keys), state.frames),
        Mapped(state.memory, MemoryStep);
    SumOfConcat(frameSteps, memorySteps, ProtectedFor(d.frame, ProtectNextFrameBudget));
    SumOfConcat(frameSteps, memorySteps, ProtectedFor(d.frame, ProtectGpuHotPath));
    RoundingIsIdempotent(d.nextBudget);
    RoundingIsIdempotent(d.hotPathBudget);
  }

  /** The relief a layer is due: its rounded pressure when it is over budget. */
  function LayerRelief(layer: MemoryLayer): real {
    if layer.status == OverBudget then Round4(layer.pressure) else 0.0
  }

  function RoundedRelief(d: Dispatch): real {
    if d.kind == EvictOrDeferResidency || d.kind == ReserveMemoryHeadroom then Round4(d.value) else 0.0
  }

  lemma {:induction false} ActionsRelieve(layers: seq<MemoryLayer>)
    requires Built(layers)
    ensures Sum(Mapped(MemoryActions(layers), DispatchOfMemory), RoundedRelief) == Sum(layers, LayerRelief)
    decreases |layers|
  {
    hide Round4;
    if layers != [] {
      var prior, last := layers[..|layers| - 1], layers[|layers| - 1];
      assert layers == prior + [last] && Built(prior) && last in layers;
      ActionsRelieve(prior);
      RoundingKeepsSign(0.0);
      var before := Mapped(MemoryActions(prior), DispatchOfMemory);
      if ArbitrateMemoryLayer(last).Some? {
        var extra := DispatchOfMemory(ArbitrateMemoryLayer(last).value);
        assert Mapped(MemoryActions(layers), DispatchOfMemory) == before + [extra];
        SumOfConcat(before, [extra], RoundedRelief);
        SumOfOne(extra, RoundedRelief);
      }
    }
  }

  lemma OperationsRelieveNothing(arbitrations: seq<Arbitration>)
    ensures Sum(Mapped(arbitrations, DispatchOf), RoundedRelief) == 0.0
  {
    hide Round4;
    var operations := Mapped(arbitrations, DispatchOf);
    forall d | d in operations ensures RoundedRelief(d) == 0.0 {
      var k :| 0 <= k < |operations| && operations[k] == d;
      assert d == DispatchOf(arbitrations[k]);
    }
    SumOfNothing(operations, RoundedRelief);
  }

  /** The route through arbiter, dispatch and applier. */
  lemma AppliedRelief(arbitrations: seq<Arbitration>, layers: seq<MemoryLayer>)
    requires Built(layers)
    ensures Sum(ExecutePlan(DispatchPlan(arbitrations, MemoryActions(layers))), Relief) == Sum(layers, LayerRelief)
  {
    hide Round4;
    var operations := Mapped(arbitrations, DispatchOf);
    var memory := Mapped(MemoryActions(layers), DispatchOfMemory);
    var sorted := Sort(operations + memory, DispatchLeq);
    var plan := DispatchPlan(arbitrations, MemoryActions(layers));
    var steps := ExecutePlan(plan);
    forall k | 0 <= k < |sorted|
      ensures Relief(steps[k]) == RoundedRelief(sorted[k])
    {
      assert plan[k] == RoundedDispatch(sorted[k]) && steps[k] == Execute(plan[k]);
    }
    SumOfSameTerms(steps, Relief, sorted, RoundedRelief);
    SortSum(operations + memory, DispatchLeq, RoundedRelief);
    SumOfConcat(operations, memory, RoundedRelief);
    OperationsRelieveNothing(arbitrations);
    ActionsRelieve(layers);
  }

  lemma LayerStepRelieves(layer: MemoryLayer)
    requires layer == BuildMemoryLayer(layer.memory, layer.active, layer.budget)
    ensures MemoryReliefOf(MemoryStep(StateForDirective(BuildMemoryDirective(layer)))) == LayerRelief(layer)
  {
    hide Round4;
    if layer.status == OverBudget {
      RoundingKeepsSign(layer.pressure);
      RoundingIsIdempotent(layer.pressure);
    }
  }

  /** The route through manager, control packet, control state, tick and its execution. */
  lemma GatewayRelief(frames: seq<FrameDirective>, layers: seq<MemoryLayer>)
    requires Built(layers) && DistinctFrames(frames)
    ensures ReliefApplied(GatewayTick(ApplyPacket(ControlPacket(frames, Mapped(layers, BuildMemoryDirective))))) ==
            Sum(layers, LayerRelief)
  {
    hide Round4, FrameSteps, ApplyPacket, Sum, InOrder, BuildMemoryDirective, StateForDirective, MemoryStep,
        MemoryReliefOf, LayerRelief;
    var memory := Mapped(layers, BuildMemoryDirective);
    var state := ApplyPacket(ControlPacket(frames, memory));
    DirectivesApplied(frames);
    MemoryApplied(AllFrameCommands(frames), memory);
    TickProtects(InOrder(state.frames.Keys), state.frames, 0);
    var frameSteps, memorySteps := AllFrameSteps(InOrder(state.frames.Keys), state.frames),
        Mapped(state.memory, MemoryStep);
    SumOfConcat(frameSteps, memorySteps, MemoryReliefOf);
    forall k | 0 <= k < |layers|
      ensures MemoryReliefOf(memorySteps[k]) == LayerRelief(layers[k])
    {
      assert memorySteps[k] == MemoryStep(StateForDirective(BuildMemoryDirective(layers[k])));
      assert layers[k] in layers;
      LayerStepRelieves(layers[k]);
    }
    SumOfSameTerms(memorySteps, MemoryReliefOf, layers, LayerRelief);
  }

  /**
    Two routes agree: the relief applied by the gateway cycle equals the relief
    the dispatch plan reported, so the memory delta of the feedback is zero.
   */
  lemma MemoryDeltaIsZero(
    arbitrations: seq<Arbitration>, frames: seq<FrameDirective>, layers: seq<MemoryLayer>)
    requires Built(layers) && DistinctFrames(frames)
    ensures ReliefApplied(GatewayTick(ApplyPacket(ControlPacket(frames, Mapped(layers, BuildMemoryDirective)))))
          - Sum(ExecutePlan(DispatchPlan(arbitrations, MemoryActions(layers))), Relief) == 0.0
  {
    hide ReliefApplied, GatewayTick, ExecutePlan, DispatchPlan;
    AppliedRelief(arbitrations, layers);
    GatewayRelief(frames, layers);
  }

  datatype FeedbackAction = TightenCycle | ContinuePressure | PreserveCycle | MonitorCycle

  datatype FrameFeedback = FrameFeedback(nextBudget: real, hotPathBudget: real, plannedOver: real, gap: real,
      action: FeedbackAction)

  function FeedbackFor(c: Calibration, steps: seq<TickStep>): FrameFeedback {
    var next := FrameStepBudget(c.frame, steps, ProtectNextFrameBudget);
    var observedOver := Max(0.0, c.observed - c.target);
    var plannedOver := Max(0.0, c.plannedCurrent - c.target);
    var gap := Max(0.0, c.observed - next);
    FrameFeedback(
      next, FrameStepBudget(c.frame, steps, ProtectGpuHotPath), plannedOver, gap,
      if plannedOver > 0.0 then TightenCycle
      else if observedOver > 0.0 || gap > 0.0 then ContinuePressure
      else if c.plannedRelief > 0.0 then PreserveCycle
      else MonitorCycle)
  }

  function Calibrations(steps: seq<Step>, frames: seq<FrameRecord>): seq<Calibration> {
    seq(|frames|, i requires 0 <= i < |frames| => CalibrateFrame(steps, frames[i]))
  }

  function Directives(calibrations: seq<Calibration>, envelopes: map<int, Envelope>): seq<FrameDirective> {
    seq(|calibrations|, i requires 0 <= i < |calibrations| =>
      BuildFrameDirective(calibrations[i], EnvelopeOf(envelopes, Some(calibrations[i].frame))))
  }

  /**
    One turn of the loop over any routed work: every frame's feedback reads the
    budget its calibration recommended, rounded; none is ever planned over its
    target; and no feedback asks to tighten the guardband.
   */
  lemma {:induction false} LoopNeverAsksToTighten(
    routes: seq<Route>, frames: seq<FrameRecord>, layers: seq<MemoryLayer>, i: nat)
    requires forall r | r in routes :: 0.0 <= r.cost
    requires forall a, b | 0 <= a < b < |frames| :: frames[a].frame != frames[b].frame
    requires forall f | f in frames :: 0.0 <= f.target
    requires i < |frames|
    ensures var calibrations := Calibrations(Pipeline(routes, frames, layers), frames);
            var directives := Directives(calibrations, Envelopes(BuildPacket(routes), FrameTargets(frames)));
            var steps := GatewayTick(ApplyPacket(ControlPacket(directives, Mapped(layers, BuildMemoryDirective))));
            var feedback := FeedbackFor(calibrations[i], steps);
            && feedback.nextBudget == Round4(calibrations[i].nextBudget)
            && feedback.plannedOver == 0.0
            && feedback.action != TightenCycle
  {
    hide Round4, Pipeline, Envelopes, BuildPacket, FrameTargets, ApplyPacket, GatewayTick, FrameStepBudget,
         ControlPacket, CalibrationActionFor, NextGuardband;
    var calibrations := Calibrations(Pipeline(routes, frames, layers), frames);
    var directives := Directives(calibrations, Envelopes(BuildPacket(routes), FrameTargets(frames)));
    FeedbackReadsTheManagersBudgets(directives, Mapped(layers, BuildMemoryDirective), i);
    PlannedWorkFitsTheTarget(routes, frames, layers, i);
  }
}
