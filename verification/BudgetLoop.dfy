/** The budget stages together: planned work never exceeds a frame's target. */
module BudgetLoop {
  import opened Numbers
  import opened Sequences
  import opened Windowing
  import opened BudgetEnvelope
  import opened BudgetArbiter
  import opened DispatchPlans
  import opened RuntimeCalibration

  function FrameTargets(frames: seq<FrameRecord>): map<int, real> {
    if frames == [] then map[]
    else FrameTargets(frames[..|frames| - 1])[frames[|frames| - 1].frame := frames[|frames| - 1].target]
  }

  function Pipeline(routes: seq<Route>, frames: seq<FrameRecord>, layers: seq<MemoryLayer>): seq<Step> {
    var packet := BuildPacket(routes);
    var arbitrations := ArbitrateAll(packet, Envelopes(packet, FrameTargets(frames))).0;
    ExecutePlan(DispatchPlan(arbitrations, MemoryActions(layers)))
  }

  lemma {:induction false} TargetsAreTheFrames(frames: seq<FrameRecord>, i: nat)
    requires i < |frames| && forall a, b | 0 <= a < b < |frames| :: frames[a].frame != frames[b].frame
    ensures frames[i].frame in FrameTargets(frames) && FrameTargets(frames)[frames[i].frame] == frames[i].target
    decreases |frames|
  {
    if i < |frames| - 1 {
      TargetsAreTheFrames(frames[..|frames| - 1], i);
      assert frames[i].frame != frames[|frames| - 1].frame;
    }
  }

  /** In a packet of a window plan, planned current-frame work is what was admitted to the hot path. */
  lemma PlannedIsAdmitted(packet: seq<Command>, envelopes: map<int, Envelope>, actions: seq<MemoryAction>, frame: int)
    requires FromWindowPlan(packet)
    ensures var arbitrations := ArbitrateAll(packet, envelopes).0;
            && Sum(ExecutePlan(DispatchPlan(arbitrations, actions)), CurrentCost(frame)) ==
               Sum(arbitrations, VerdictCost(frame, AdmitHotPath))
            && (frame !in FramesOf(packet) ==> Sum(arbitrations, VerdictCost(frame, AdmitHotPath)) == 0.0)
  {
    hide Round4, Arbitrate, DispatchPlan, ExecutePlan;
    var arbitrations := ArbitrateAll(packet, envelopes).0;
    ArbitrationsKeepCommands(packet, envelopes);
    forall a | a in arbitrations
      ensures Round4(a.command.cost) == a.command.cost && a.verdict != AdmitCurrentPath
      ensures frame !in FramesOf(packet) ==> VerdictCost(frame, AdmitHotPath)(a) == 0.0
    {
      var k :| 0 <= k < |arbitrations| && arbitrations[k] == a;
      assert packet[k] in packet;
    }
    PlannedCostOfDispatch(arbitrations, actions, frame);
    if frame !in FramesOf(packet) {
      SumOfNothing(arbitrations, VerdictCost(frame, AdmitHotPath));
    }
  }

  /** What is admitted to a frame's hot path stays within its target. */
  lemma AdmittedFitsTheTarget(packet: seq<Command>, targets: map<int, real>, frame: int)
    requires FromWindowPlan(packet) && 0.0 <= TargetOf(targets, frame)
    requires frame in FramesOf(packet)
    ensures Sum(ArbitrateAll(packet, Envelopes(packet, targets)).0, VerdictCost(frame, AdmitHotPath)) <=
        TargetOf(targets, frame)
  {
    hide Round4, Adjustments, PreFrameWindow, ArbitrateAll, Sum;
    var envelopes := Envelopes(packet, targets);
    var f := SimulateFrame(packet, frame);
    PreFrameWindowIsNonNegative(Adjustments(f, TargetOf(targets, frame), TargetOf(targets, frame) - f.protected));
    AdmissionIsBounded(packet, envelopes, frame);
  }

  /**
    After arbitration, sorting and application no frame is planned over its target:
    the planned current-frame cost of every adapter frame stays within it, so its
    calibration never asks to tighten the guardband.
   */
  lemma {:induction false} PlannedWorkFitsTheTarget(routes: seq<Route>, frames: seq<FrameRecord>,
      layers: seq<MemoryLayer>, i: nat)
    requires forall r | r in routes :: 0.0 <= r.cost
    requires forall a, b | 0 <= a < b < |frames| :: frames[a].frame != frames[b].frame
    requires forall f | f in frames :: 0.0 <= f.target
    requires i < |frames|
    ensures var calibration := CalibrateFrame(Pipeline(routes, frames, layers), frames[i]);
            && calibration.plannedCurrent <= calibration.target
            && !calibration.plannedOver && calibration.action != TightenGuardband
  {
    hide ArbitrateAll, BuildPacket, DispatchPlan, ExecutePlan, Envelopes, FrameTargets, FromWindowPlan, FramesOf,
        MemoryActions;
    var packet, targets := BuildPacket(routes), FrameTargets(frames);
    PacketsComeFromWindowPlans(routes);
    TargetsAreTheFrames(frames, i);
    assert frames[i] in frames;
    PlannedIsAdmitted(packet, Envelopes(packet, targets), MemoryActions(layers), frames[i].frame);
    if frames[i].frame in FramesOf(packet) {
      AdmittedFitsTheTarget(packet, targets, frames[i].frame);
    }
  }
}
