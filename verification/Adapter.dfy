/** The wiring of the stages behind one adapter session. */
module Adapter {
  import opened Numbers
  import opened Sequences
  import opened Windowing
  import opened BudgetEnvelope
  import opened BudgetArbiter
  import opened DispatchPlans
  import opened RuntimeCalibration
  import opened BudgetLoop
  import opened Manager
  import opened ControlPackets
  import opened ControlStates
  import opened GatewayTicks
  import opened ControlLoop
  import L = Ledger

  /** The session's frame records in ascending order, as the stages receive them. */
  function FramesOfSession(s: L.Session): (frames: seq<FrameRecord>)
    ensures |frames| == |InOrder(s.frames.Keys)|
    ensures forall i | 0 <= i < |frames| ::
              && frames[i].frame == InOrder(s.frames.Keys)[i] && frames[i].frame in s.frames
              && frames[i].target == s.frames[frames[i].frame].target
              && frames[i].observed == s.frames[frames[i].frame].totalCost
    ensures forall i, j | 0 <= i < j < |frames| :: frames[i].frame < frames[j].frame
  {
    var order := InOrder(s.frames.Keys);
    seq(|order|, i requires 0 <= i < |order| =>
      assert order[i] in order;
      FrameRecord(order[i], s.frames[order[i]].target, s.frames[order[i]].totalCost))
  }

  lemma SessionFramesAreWellFormed(reports: seq<L.Report>)
    ensures var frames := FramesOfSession(L.Run(reports));
            && (forall a, b | 0 <= a < b < |frames| :: frames[a].frame != frames[b].frame)
            && (forall f | f in frames :: 0.0 <= f.target)
  {
    hide InOrder, L.Run, Sum, L.QueueTotal;
    L.RunsStayBalanced(reports);
    var s := L.Run(reports);
    var frames := FramesOfSession(s);
    forall f | f in frames
      ensures 0.0 <= f.target
    {
      var k :| 0 <= k < |frames| && frames[k] == f;
      assert L.Agrees(s.frames[f.frame], s.executed, f.frame);
    }
  }

  lemma {:induction false} DirectivesKeepFrames(
    steps: seq<Step>, frames: seq<FrameRecord>, envelopes: map<int, Envelope>)
    requires forall a, b | 0 <= a < b < |frames| :: frames[a].frame != frames[b].frame
    ensures DistinctFrames(Directives(Calibrations(steps, frames), envelopes))
  {
    hide AdmissionMode, SchedulerMode, NextGuardband, Sum;
  }

  /**
    End to end: whatever events an engine reported and whatever work was routed,
    no frame of the session is planned over its target, its feedback reads the
    budget calibration recommended for it, no feedback asks to tighten, and the
    memory relief applied is the relief that was reported.
   */
  lemma {:induction false} SessionsCloseTheLoop(reports: seq<L.Report>, routes: seq<Route>, layers: seq<MemoryLayer>,
      i: nat)
    requires forall r | r in routes :: 0.0 <= r.cost
    requires Built(layers)
    requires i < |FramesOfSession(L.Run(reports))|
    ensures var frames := FramesOfSession(L.Run(reports));
            var planned := Pipeline(routes, frames, layers);
            var calibrations := Calibrations(planned, frames);
            var directives := Directives(calibrations, Envelopes(BuildPacket(routes), FrameTargets(frames)));
            var steps := GatewayTick(ApplyPacket(ControlPacket(directives, Mapped(layers, BuildMemoryDirective))));
            var feedback := FeedbackFor(calibrations[i], steps);
            && calibrations[i].plannedCurrent <= calibrations[i].target
            && feedback.nextBudget == Round4(calibrations[i].nextBudget)
            && feedback.plannedOver == 0.0
            && feedback.action != TightenCycle
            && ReliefApplied(steps) == Sum(planned, Relief)
  {
    hide Round4, Envelopes, BuildPacket, FrameTargets, ApplyPacket, GatewayTick, FrameStepBudget, ControlPacket,
         CalibrationActionFor, NextGuardband, FramesOfSession, L.Run, Built, DispatchPlan, ExecutePlan, ArbitrateAll,
         ReliefApplied, Sum, FeedbackFor, CalibrateFrame, BuildFrameDirective;
    var frames := FramesOfSession(L.Run(reports));
    SessionFramesAreWellFormed(reports);
    LoopNeverAsksToTighten(routes, frames, layers, i);
    PlannedWorkFitsTheTarget(routes, frames, layers, i);
    var packet := BuildPacket(routes);
    var arbitrations := ArbitrateAll(packet, Envelopes(packet, FrameTargets(frames))).0;
    var directives := Directives(Calibrations(Pipeline(routes, frames, layers), frames),
        Envelopes(packet, FrameTargets(frames)));
    DirectivesKeepFrames(Pipeline(routes, frames, layers), frames, Envelopes(packet, FrameTargets(frames)));
    MemoryDeltaIsZero(arbitrations, directives, layers);
  }
}
