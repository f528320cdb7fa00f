/** Calibration: what was observed and planned for a frame, and the budget recommended for the next one. */
module RuntimeCalibration {
  import opened Numbers
  import opened Sequences
  import opened DispatchPlans

  /** A frame of the adapter: its target and the cost observed so far. */
  datatype FrameRecord = FrameRecord(frame: int, target: real, observed: real)

  datatype CalibrationAction = TightenGuardband | ApplyBeforeNextFrame | PreserveShape | Monitor

  datatype Calibration = Calibration(
    frame: int, target: real, observed: real, plannedCurrent: real, plannedPreFrame: real, plannedRelief: real,
    guardband: real, nextBudget: real, observedOver: bool, plannedOver: bool, action: CalibrationAction)

  function NextGuardband(observed: real, target: real, relief: real): real {
    if observed <= target then 0.0 else Min(target * 0.25, Max(0.5, relief * 0.25))
  }

  function CalibrationActionFor(observedOver: bool, plannedOver: bool, relief: real): CalibrationAction {
    if plannedOver then TightenGuardband
    else if observedOver then ApplyBeforeNextFrame
    else if relief > 0.0 then PreserveShape
    else Monitor
  }

  function CalibrateFrame(steps: seq<Step>, stats: FrameRecord): Calibration {
    var planned := Sum(steps, CurrentCost(stats.frame));
    var preFrame := Sum(steps, PreFrameCost(stats.frame));
    var relief := Max(0.0, stats.observed - planned);
    var guardband := NextGuardband(stats.observed, stats.target, relief);
    var observedOver, plannedOver := stats.observed > stats.target, planned > stats.target;
    Calibration(stats.frame, stats.target, stats.observed, planned, preFrame, relief, guardband,
                Max(0.0, stats.target - guardband), observedOver, plannedOver,
                CalibrationActionFor(observedOver, plannedOver, relief))
  }

  /**
    A guardband takes at most a quarter of the target, and takes anything only
    when the frame was observed over it.
   */
  lemma GuardbandTakesAtMostAQuarter(steps: seq<Step>, stats: FrameRecord)
    requires 0.0 <= stats.target
    ensures var c := CalibrateFrame(steps, stats);
            && 0.75 * stats.target <= c.nextBudget <= stats.target
            && (c.nextBudget == stats.target <==> !c.observedOver || stats.target == 0.0)
  {
    hide Sum;
  }
}
