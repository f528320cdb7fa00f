/**
  What one turn of the budget loop recommends, in terms of what was observed, routed
  and measured: the next budgets of every frame and the relief of every memory layer.
 */
module LoopOutcomes {
  import opened Wrappers
  import opened Numbers
  import opened Sequences
  import opened Windowing
  import opened BudgetEnvelope
  import opened BudgetArbiter
  import opened DispatchPlans
  import opened RuntimeCalibration
  import opened BudgetLoop
  import opened PlannedWork
  import opened Manager
  import opened ControlPackets
  import opened ControlStates
  import opened GatewayTicks
  import opened ControlLoop

  // ----- Calibration -----

  ghost predicate ProperFrames(frames: seq<FrameRecord>) {
    && (forall a, b | 0 <= a < b < |frames| :: frames[a].frame != frames[b].frame)
    && (forall f | f in frames :: 0.0 <= f.target)
  }

  /**
    A frame observed within its target keeps it.  One observed over it gives up a
    quarter of what the plan would relieve, at least half a millisecond, and at most
    a quarter of the target.
   */
  lemma {:induction false} CalibrationRecommends(
    routes: seq<Route>, frames: seq<FrameRecord>, layers: seq<MemoryLayer>, i: nat)
    requires forall r | r in routes :: 0.0 <= r.cost
    requires ProperFrames(frames) && i < |frames|
    ensures var f, c := frames[i], CalibrateFrame(Pipeline(routes, frames, layers), frames[i]);
            var relief := if c.plannedCurrent < f.observed then f.observed - c.plannedCurrent else 0.0;
            && c.observedOver == (f.observed > f.target) && !c.plannedOver
            && (f.observed <= f.target ==> c.nextBudget == f.target)
            && (f.observed > f.target ==>
                  && (4.0 * (f.target - c.nextBudget) == f.target
                      || 4.0 * (f.target - c.nextBudget) == relief || f.target - c.nextBudget == 0.5)
                  && 4.0 * (f.target - c.nextBudget) <= f.target
                  && (4.0 * (f.target - c.nextBudget) < f.target ==>
                        f.target - c.nextBudget >= 0.5 && 4.0 * (f.target - c.nextBudget) >= relief))
            && c.action == (if f.observed > f.target then ApplyBeforeNextFrame
                            else if f.observed > c.plannedCurrent then PreserveShape else Monitor)
  {
    hide Pipeline, Sum;
    assert frames[i] in frames;
    PlannedWorkFitsTheTarget(routes, frames, layers, i);
  }

  // ----- Directives -----

  lemma {:induction false} PlannedAheadFitsTheWindow(
    routes: seq<Route>, frames: seq<FrameRecord>, layers: seq<MemoryLayer>, i: nat)
    requires forall r | r in routes :: 0.0 <= r.cost
    requires ProperFrames(frames) && i < |frames|
    ensures var packet, targets := BuildPacket(routes), FrameTargets(frames);
            var c := CalibrateFrame(Pipeline(routes, frames, layers), frames[i]);
            var frame := frames[i].frame;
            && (frame in FramesOf(packet) ==>
                  0.0 <= c.plannedPreFrame <= FrameEnvelope(packet, targets, frame).preFrameWindow)
            && (frame !in FramesOf(packet) ==> c.plannedPreFrame == 0.0)
  {
    hide ArbitrateAll, BuildPacket, DispatchPlan, ExecutePlan, FrameTargets, MemoryActions, Sum, Round4, Adjustments,
         PreFrameWindow, SuggestCopyBudget;
    var packet, targets, frame := BuildPacket(routes), FrameTargets(frames), frames[i].frame;
    var envelopes := Envelopes(packet, targets);
    var steps := Pipeline(routes, frames, layers);
    PacketsComeFromWindowPlans(routes);
    TargetsAreTheFrames(frames, i);
    assert frames[i] in frames;
    StagedIsPlannedAhead(packet, envelopes, MemoryActions(layers), frame);
    if frame in FramesOf(packet) {
      var f := SimulateFrame(packet, frame);
      PreFrameWindowIsNonNegative(Adjustments(f, TargetOf(targets, frame), TargetOf(targets, frame) - f.protected));
      AdmissionIsBounded(packet, envelopes, frame);
    }
  }

  lemma {:induction false} StagedIsPlannedAhead(
    packet: seq<Command>, envelopes: map<int, Envelope>, actions: seq<MemoryAction>, frame: int)
    requires FromWindowPlan(packet)
    ensures var arbitrations := ArbitrateAll(packet, envelopes).0;
            var ahead := Sum(ExecutePlan(DispatchPlan(arbitrations, actions)), PreFrameCost(frame));
            && ahead == Sum(arbitrations, VerdictCost(frame, PrestageBeforeFrame)) >= 0.0
            && (frame !in FramesOf(packet) ==> ahead == 0.0)
  {
    hide ArbitrateAll, DispatchPlan, ExecutePlan, Round4, Sum;
    var arbitrations := ArbitrateAll(packet, envelopes).0;
    var steps := ExecutePlan(DispatchPlan(arbitrations, actions));
    ArbitrationsKeepCommands(packet, envelopes);
    forall a | a in arbitrations
      ensures Round4(a.command.cost) == a.command.cost >= 0.0 && a.command in packet
    {
      var k :| 0 <= k < |arbitrations| && arbitrations[k] == a;
      assert packet[k] in packet;
    }
    ColumnsHoldTheVerdicts(arbitrations, actions, Some(frame));
    SumOfSameTerms(steps, PreFrameCost(frame), steps, Column(Some(frame), MovedAhead));
    SumOfSameTerms(arbitrations, VerdictCost(frame, PrestageBeforeFrame), arbitrations,
        JudgedCost(Some(frame), {PrestageBeforeFrame}));
    var zero := (a: Arbitration) => 0.0;
    SumOfNothing(arbitrations, zero);
    SumIsMonotone(arbitrations, zero, VerdictCost(frame, PrestageBeforeFrame));
    if frame !in FramesOf(packet) {
      SumOfNothing(arbitrations, VerdictCost(frame, PrestageBeforeFrame));
    }
  }

  /** The copy budget of a frame: 15% of the target but at most a quarter of what the protected work leaves free. */
  ghost predicate CopyShare(copy: real, target: real, hot: real) {
    if target <= hot then copy == 0.0
    else copy <= 0.15 * target && copy <= 0.25 * (target - hot)
         && (copy == 0.15 * target || copy == 0.25 * (target - hot))
  }

  /** How urgently a frame is steered: over its target, relieved by the plan, or neither. */
  ghost predicate Urgency(f: FrameRecord, planned: real, priority: Priority, admission: string, scheduler: string) {
    if f.observed > f.target then
      priority == High && admission == "prestage-and-defer-noncritical" && scheduler == "closed-loop-aggressive"
    else if f.observed > planned then
      priority == Normal && admission == "preserve-budgeted-hot-path" && scheduler == "closed-loop-stable"
    else priority == Low && admission == "observe-admission" && scheduler == "observe"
  }

  /**
    The whole next budget goes to the hot path; late copies are blocked for a frame
    observed over its target and get their share otherwise; and the window reserved
    ahead is all of the frame's staged work and its overrun.
   */
  lemma {:induction false} DirectivesRecommend(
    routes: seq<Route>, frames: seq<FrameRecord>, layers: seq<MemoryLayer>, i: nat)
    requires forall r | r in routes :: 0.0 <= r.cost
    requires ProperFrames(frames) && i < |frames|
    ensures var packet, targets := BuildPacket(routes), FrameTargets(frames);
            var f, calibrations := frames[i], Calibrations(Pipeline(routes, frames, layers), frames);
            var d := Directives(calibrations, Envelopes(packet, targets))[i];
            && d.frame == f.frame && d.nextBudget == calibrations[i].nextBudget
            && d.hotPathBudget == d.nextBudget
            && (f.observed > f.target || f.frame !in FramesOf(packet) ==> d.copyBudget == 0.0)
            && (f.observed <= f.target && f.frame in FramesOf(packet) ==>
                  CopyShare(d.copyBudget, f.target, Sum(packet, EffectCost(f.frame, ProtectedWork))))
            && d.preFrameWindow ==
               (if f.frame in FramesOf(packet) then
                  Sum(packet, EffectCost(f.frame, PrestagedWork)) + Overrun(packet, targets, f.frame)
                else 0.0)
            && Urgency(f, calibrations[i].plannedCurrent, FramePriority(d), d.admissionMode, d.schedulerMode)
  {
    hide BuildPacket, FrameTargets, Pipeline, Sum, Adjustments, PreFrameWindow, NextGuardband, CalibrationActionFor,
         Overrun, FrameEnvelope, CopyShare;
    var packet, targets := BuildPacket(routes), FrameTargets(frames);
    assert frames[i] in frames;
    TargetsAreTheFrames(frames, i);
    CalibrationRecommends(routes, frames, layers, i);
    GuardbandTakesAtMostAQuarter(Pipeline(routes, frames, layers), frames[i]);
    PlannedAheadFitsTheWindow(routes, frames, layers, i);
    if frames[i].frame in FramesOf(packet) {
      var k :| 0 <= k < |packet| && packet[k].frame == Some(frames[i].frame);
      PacketsComeFromWindowPlans(routes);
      EnvelopeWindow(packet, targets, k);
      EnvelopeShares(packet, targets, frames[i].frame);
    }
  }

  lemma EnvelopeShares(packet: seq<Command>, targets: map<int, real>, frame: int)
    requires 0.0 <= TargetOf(targets, frame)
    ensures var e := FrameEnvelope(packet, targets, frame);
            && e.maxHotPath == TargetOf(targets, frame)
            && CopyShare(e.copyBudget, TargetOf(targets, frame), Sum(packet, EffectCost(frame, ProtectedWork)))
  {
    hide Sum, Adjustments, PreFrameWindow;
  }

  // ----- The tick -----

  /** What a tick's frame steps say for one frame, in order. */
  lemma {:induction false} TickSays(order: seq<int>, frames: map<int, FrameState>, k: nat)
    requires forall g | g in order :: g in frames
    requires k < |order|
    ensures |AllFrameSteps(order, frames)| == 6 * |order|
    ensures var steps, f, state := AllFrameSteps(order, frames), order[k], frames[order[k]];
            && steps[6 * k] ==
               TickStep(DisplayFrame, ProtectNextFrameBudget, Some(f), Round4(state.nextBudget), 0.0, None)
            && steps[6 * k + 1] ==
               TickStep(GpuHotPath, ProtectGpuHotPath, Some(f), Round4(state.hotPathBudget), 0.0, None)
            && steps[6 * k + 2].lane == CopyQueue && steps[6 * k + 2].frame == Some(f)
            && steps[6 * k + 2].budgetMs == Round4(state.copyBudget)
            && (steps[6 * k + 2].action == BlockLateCopyQueue <==> state.copyBudget <= 0.0)
            && steps[6 * k + 3] ==
               TickStep(CpuPreFrame, ReserveWindow, Some(f), Round4(state.preFrameWindow), 0.0, None)
            && steps[6 * k + 4] == TickStep(CpuAdmission, ApplyAdmissionMode, Some(f), 0.0, 0.0, state.admissionMode)
            && steps[6 * k + 5] == TickStep(SchedulerLane, ApplySchedulerMode, Some(f), 0.0, 0.0, state.schedulerMode)
    decreases |order|
  {
    hide Round4;
    var prior, last := order[..|order| - 1], order[|order| - 1];
    if k < |prior| {
      TickSays(prior, frames, k);
    } else {
      TickHasSixEach(prior, frames);
    }
  }

  lemma {:induction false} TickHasSixEach(order: seq<int>, frames: map<int, FrameState>)
    requires forall g | g in order :: g in frames
    ensures |AllFrameSteps(order, frames)| == 6 * |order|
  {
    hide Round4;
    if order != [] {
      TickHasSixEach(order[..|order| - 1], frames);
    }
  }

  // ----- Memory -----

  /** By how much a layer's active memory exceeds its budget, rounded. */
  ghost function Excess(layer: MemoryLayer): real {
    match layer.budget
    case None => 0.0
    case Some(limit) => if layer.active > limit then Round4(layer.active - limit) else 0.0
  }

  lemma ReliefIsTheExcess(layer: MemoryLayer)
    requires layer == BuildMemoryLayer(layer.memory, layer.active, layer.budget)
    ensures LayerRelief(layer) == Excess(layer)
  {
    hide Round4;
  }

  /** Both routes relieve exactly the excess of every layer over its budget. */
  lemma {:induction false} ReliefIsWhatExceedsTheBudgets(
    arbitrations: seq<Arbitration>, frames: seq<FrameDirective>, layers: seq<MemoryLayer>)
    requires Built(layers) && DistinctFrames(frames)
    ensures Sum(ExecutePlan(DispatchPlan(arbitrations, MemoryActions(layers))), Relief) == Sum(layers, Excess)
    ensures ReliefApplied(GatewayTick(ApplyPacket(ControlPacket(frames, Mapped(layers, BuildMemoryDirective))))) ==
            Sum(layers, Excess)
  {
    hide Sum, DispatchPlan, ExecutePlan, GatewayTick, ApplyPacket, ControlPacket, ReliefApplied, LayerRelief, Excess,
         BuildMemoryLayer;
    AppliedRelief(arbitrations, layers);
    GatewayRelief(frames, layers);
    forall k | 0 <= k < |layers| ensures LayerRelief(layers[k]) == Excess(layers[k]) {
      assert layers[k] in layers;
      ReliefIsTheExcess(layers[k]);
    }
    SumOfSameTerms(layers, LayerRelief, layers, Excess);
  }

  /** What the arbiter does about one more layer follows from its active memory and its budget. */
  lemma ArbiterSays(layers: seq<MemoryLayer>, layer: MemoryLayer)
    requires layer == BuildMemoryLayer(layer.memory, layer.active, layer.budget)
    ensures MemoryActions(layers + [layer]) == MemoryActions(layers) +
            match layer.budget
            case None => []
            case Some(limit) =>
              if layer.active > limit then [EvictOrDefer(layer.memory, layer.active - limit)]
              else if 20.0 * layer.active >= 17.0 * limit then [ReserveHeadroom(layer.memory, 0.0)]
              else []
    ensures MemoryActions([]) == []
  {
    assert (layers + [layer])[..|layers|] == layers;
  }

  /** What the tick does for a layer follows from its active memory and its budget. */
  lemma MemoryStepSays(layer: MemoryLayer)
    requires layer == BuildMemoryLayer(layer.memory, layer.active, layer.budget)
    requires layer.budget.Some? ==> 0.0 <= layer.budget.value
    ensures var step := MemoryStep(StateForDirective(BuildMemoryDirective(layer)));
            && step.lane == MemoryLane(layer.memory) && step.frame.None? && step.budgetMs == 0.0
            && match layer.budget
               case None => step.action == ObserveMemoryResidency && step.budgetMb == 0.0
               case Some(limit) =>
                 if layer.active > limit then
                   step.action == RelieveMemoryResidency && step.budgetMb == Round4(layer.active - limit)
                 else if 20.0 * layer.active >= 17.0 * limit then
                   step.action == ReserveMemory && step.budgetMb == Round4(limit * 0.15)
                 else step.action == HoldMemoryResidency && step.budgetMb == 0.0
    ensures CommandForMemory(BuildMemoryDirective(layer)).priority ==
            (if layer.budget.None? then Low
             else if layer.active > layer.budget.value then High
             else if 20.0 * layer.active >= 17.0 * layer.budget.value then Normal
             else Low)
  {
    hide Round4;
    RoundingKeepsSign(0.0);
    if layer.budget.Some? {
      var limit := layer.budget.value;
      if layer.active > limit {
        RoundingKeepsSign(layer.active - limit);
        RoundingIsIdempotent(layer.active - limit);
      } else {
        RoundingKeepsSign(limit * 0.15);
        RoundingIsIdempotent(limit * 0.15);
      }
    }
  }

  /** Feedback follows the observation and the recommended budget alone. */
  lemma {:induction false} FeedbackSays(
    routes: seq<Route>, frames: seq<FrameRecord>, layers: seq<MemoryLayer>, i: nat)
    requires forall r | r in routes :: 0.0 <= r.cost
    requires ProperFrames(frames) && i < |frames|
    ensures var calibrations := Calibrations(Pipeline(routes, frames, layers), frames);
            var directives := Directives(calibrations, Envelopes(BuildPacket(routes), FrameTargets(frames)));
            var steps := GatewayTick(ApplyPacket(ControlPacket(directives, Mapped(layers, BuildMemoryDirective))));
            var f, c, feedback := frames[i], calibrations[i], FeedbackFor(calibrations[i], steps);
            && feedback.nextBudget == feedback.hotPathBudget == Round4(c.nextBudget)
            && feedback.gap == (if f.observed > feedback.nextBudget then f.observed - feedback.nextBudget else 0.0)
            && feedback.action == (if f.observed > f.target || f.observed > feedback.nextBudget then ContinuePressure
                                   else if f.observed > c.plannedCurrent then PreserveCycle else MonitorCycle)
  {
    hide Round4, Pipeline, Envelopes, BuildPacket, FrameTargets, ApplyPacket, GatewayTick, FrameStepBudget,
         ControlPacket, NextGuardband, Overrun, EffectCost, FramesOf, CopyShare, Sum;
    var calibrations := Calibrations(Pipeline(routes, frames, layers), frames);
    var directives := Directives(calibrations, Envelopes(BuildPacket(routes), FrameTargets(frames)));
    FeedbackReadsTheManagersBudgets(directives, Mapped(layers, BuildMemoryDirective), i);
    PlannedWorkFitsTheTarget(routes, frames, layers, i);
    DirectivesRecommend(routes, frames, layers, i);
  }
}
