/** The manager's directives for frames and memory layers. */
module Manager {
  import opened Wrappers
  import opened Numbers
  import opened BudgetEnvelope
  import opened RuntimeCalibration

  datatype FrameDirective = FrameDirective(
    frame: int, nextBudget: real, hotPathBudget: real, copyBudget: real, preFrameWindow: real,
    action: CalibrationAction,
    admissionMode: string, schedulerMode: string)

  function AdmissionMode(c: Calibration): string {
    if c.plannedOver then "tighten-hot-path-admission"
    else if c.observedOver then "prestage-and-defer-noncritical"
    else if c.action == PreserveShape then "preserve-budgeted-hot-path"
    else "observe-admission"
  }

  function SchedulerMode(c: Calibration): string {
    match c.action
    case TightenGuardband => "guardband-tightening"
    case ApplyBeforeNextFrame => "closed-loop-aggressive"
    case PreserveShape => "closed-loop-stable"
    case Monitor => "observe"
  }

  function BuildFrameDirective(c: Calibration, envelope: Option<Envelope>): FrameDirective {
    var maxHotPath := if envelope.Some? then envelope.value.maxHotPath else c.target;
    var copyBudget := if envelope.Some? then envelope.value.copyBudget else 0.0;
    FrameDirective(
      c.frame, c.nextBudget, Min(maxHotPath, c.nextBudget),
      if c.action == ApplyBeforeNextFrame || c.action == TightenGuardband then 0.0 else copyBudget,
      Max(if envelope.Some? then envelope.value.preFrameWindow else 0.0, c.plannedPreFrame),
      c.action, AdmissionMode(c), SchedulerMode(c))
  }

  datatype ResidencyAction = EvictOrDeferAction | ReserveHeadroomAction | ObserveAction | HoldAction

  datatype MemoryDirective = MemoryDirective(memory: string, action: ResidencyAction, expectedRelief: real,
      reserve: real)

  function BuildMemoryDirective(layer: MemoryLayer): MemoryDirective {
    match layer.status
    case OverBudget => MemoryDirective(layer.memory, EvictOrDeferAction, layer.pressure, 0.0)
    case NearBudget => MemoryDirective(layer.memory, ReserveHeadroomAction, 0.0,
        Max(0.0, layer.budget.GetOr(0.0) * 0.15))
    case Unbounded => MemoryDirective(layer.memory, ObserveAction, 0.0, 0.0)
    case WithinBudget => MemoryDirective(layer.memory, HoldAction, 0.0, 0.0)
  }

  ghost predicate DistinctFrames(directives: seq<FrameDirective>) {
    forall i, j | 0 <= i < j < |directives| :: directives[i].frame != directives[j].frame
  }

  /** The hot path never gets more than the whole frame, even after both are rounded. */
  lemma HotPathStaysWithinTheBudget(c: Calibration, envelope: Option<Envelope>)
    ensures var d := BuildFrameDirective(c, envelope);
            d.hotPathBudget <= d.nextBudget && Round4(d.hotPathBudget) <= Round4(d.nextBudget)
  {
    hide Round4;
    var d := BuildFrameDirective(c, envelope);
    RoundingIsMonotone(d.hotPathBudget, d.nextBudget);
  }
}
