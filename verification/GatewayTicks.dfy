/** The gateway tick built from a control state, and what executing its steps reports. */
module GatewayTicks {
  import opened Wrappers
  import opened Numbers
  import opened Sequences
  import opened Manager
  import opened ControlStates

  datatype Lane =
    | DisplayFrame | GpuHotPath | CopyQueue | CpuPreFrame | CpuAdmission | SchedulerLane
    | MemoryLane(memory: string)

  datatype StepAction =
    | ProtectNextFrameBudget
    | ProtectGpuHotPath
    | BlockLateCopyQueue
    | BudgetCopyQueue
    | ReserveWindow
    | ApplyAdmissionMode
    | ApplySchedulerMode
    | RelieveMemoryResidency
    | ReserveMemory
    | HoldMemoryResidency
    | ObserveMemoryResidency

  datatype TickStep = TickStep(lane: Lane, action: StepAction, frame: Option<int>, budgetMs: real, budgetMb: real,
      setting: Option<string>)

  function FrameSteps(frame: int, state: FrameState): seq<TickStep> {
    [TickStep(DisplayFrame, ProtectNextFrameBudget, Some(frame), Round4(state.nextBudget), 0.0, None),
     TickStep(GpuHotPath, ProtectGpuHotPath, Some(frame), Round4(state.hotPathBudget), 0.0, None),
     TickStep(CopyQueue, if state.copyBudget <= 0.0 then BlockLateCopyQueue else BudgetCopyQueue, Some(frame),
              Round4(state.copyBudget), 0.0, None),
     TickStep(CpuPreFrame, ReserveWindow, Some(frame), Round4(state.preFrameWindow), 0.0, None),
     TickStep(CpuAdmission, ApplyAdmissionMode, Some(frame), 0.0, 0.0, state.admissionMode),
     TickStep(SchedulerLane, ApplySchedulerMode, Some(frame), 0.0, 0.0, state.schedulerMode)]
  }

  function MemoryStepAction(action: ResidencyAction): StepAction {
    match action
    case EvictOrDeferAction => RelieveMemoryResidency
    case ReserveHeadroomAction => ReserveMemory
    case HoldAction => HoldMemoryResidency
    case ObserveAction => ObserveMemoryResidency
  }

  function MemoryStep(state: MemoryState): TickStep {
    TickStep(MemoryLane(state.memory), MemoryStepAction(state.action), None, 0.0,
             Round4(Max(state.expectedRelief, state.reserve)), None)
  }

  function AllFrameSteps(order: seq<int>, frames: map<int, FrameState>): seq<TickStep>
    requires forall f | f in order :: f in frames
  {
    if order == [] then []
    else
      var last := order[|order| - 1];
      AllFrameSteps(order[..|order| - 1], frames) + FrameSteps(last, frames[last])
  }

  function GatewayTick(state: ControlState): seq<TickStep> {
    AllFrameSteps(InOrder(state.frames.Keys), state.frames) + Mapped(state.memory, MemoryStep)
  }

  method BuildRuntimeGatewayTick(state: ControlState) returns (steps: seq<TickStep>)
    ensures steps == GatewayTick(state)
  {
    hide FrameSteps, MemoryStep, InOrder;
    var order := InOrder(state.frames.Keys);
    steps := [];
    for i := 0 to |order|
      invariant steps == AllFrameSteps(order[..i], state.frames)
    {
      assert order[..i + 1][..i] == order[..i];
      assert order[i] in order;
      steps := steps + FrameSteps(order[i], state.frames[order[i]]);
    }
    assert order[..|order|] == order;
    for i := 0 to |state.memory|
      invariant steps == AllFrameSteps(order, state.frames) + Mapped(state.memory, MemoryStep)[..i]
    {
      steps := steps + [MemoryStep(state.memory[i])];
    }
  }

  /** What executing one step reports. */
  function ProtectedBudget(step: TickStep): real {
    if step.action == ProtectNextFrameBudget || step.action == ProtectGpuHotPath then step.budgetMs else 0.0
  }

  function MemoryReliefOf(step: TickStep): real {
    if step.action == RelieveMemoryResidency then step.budgetMb else 0.0
  }

  function ReliefApplied(steps: seq<TickStep>): real {
    Sum(steps, MemoryReliefOf)
  }

  /** The budget feedback reads back for a frame and a protecting action. */
  function ProtectedFor(frame: int, action: StepAction): TickStep -> real {
    (s: TickStep) => if s.frame == Some(frame) && s.action == action then ProtectedBudget(s) else 0.0
  }

  function FrameStepBudget(frame: int, steps: seq<TickStep>, action: StepAction): real {
    Sum(steps, ProtectedFor(frame, action))
  }

  lemma FrameStepsSum(g: int, state: FrameState, f: TickStep -> real)
    ensures var s := FrameSteps(g, state);
            Sum(s, f) == f(s[0]) + f(s[1]) + f(s[2]) + f(s[3]) + f(s[4]) + f(s[5])
  {
    hide Round4, Sum;
    var s := FrameSteps(g, state);
    SumOfConcat([s[0]] + [s[1]], [s[2]], f);
    SumOfConcat([s[0]], [s[1]], f);
    SumOfConcat([s[0]] + [s[1]] + [s[2]], [s[3]], f);
    SumOfConcat([s[0]] + [s[1]] + [s[2]] + [s[3]], [s[4]], f);
    SumOfConcat([s[0]] + [s[1]] + [s[2]] + [s[3]] + [s[4]], [s[5]], f);
    SumOfOne(s[0], f);
    SumOfOne(s[1], f);
    SumOfOne(s[2], f);
    SumOfOne(s[3], f);
    SumOfOne(s[4], f);
    SumOfOne(s[5], f);
    assert s == [s[0]] + [s[1]] + [s[2]] + [s[3]] + [s[4]] + [s[5]];
  }

  lemma FrameStepsProtect(g: int, state: FrameState, f: int)
    ensures Sum(FrameSteps(g, state), ProtectedFor(f, ProtectNextFrameBudget)) ==
            if f == g then Round4(state.nextBudget) else 0.0
    ensures Sum(FrameSteps(g, state), ProtectedFor(f, ProtectGpuHotPath)) ==
            if f == g then Round4(state.hotPathBudget) else 0.0
    ensures Sum(FrameSteps(g, state), MemoryReliefOf) == 0.0
  {
    hide Round4, Sum;
    FrameStepsSum(g, state, ProtectedFor(f, ProtectNextFrameBudget));
    FrameStepsSum(g, state, ProtectedFor(f, ProtectGpuHotPath));
    FrameStepsSum(g, state, MemoryReliefOf);
  }

  /** Each protecting action reports a frame's budget once, and nothing for frames not listed. */
  lemma {:induction false} TickProtects(order: seq<int>, frames: map<int, FrameState>, f: int)
    requires forall g | g in order :: g in frames
    requires forall i, j | 0 <= i < j < |order| :: order[i] < order[j]
    ensures Sum(AllFrameSteps(order, frames), ProtectedFor(f, ProtectNextFrameBudget)) ==
            if f in order then Round4(frames[f].nextBudget) else 0.0
    ensures Sum(AllFrameSteps(order, frames), ProtectedFor(f, ProtectGpuHotPath)) ==
            if f in order then Round4(frames[f].hotPathBudget) else 0.0
    ensures Sum(AllFrameSteps(order, frames), MemoryReliefOf) == 0.0
    decreases |order|
  {
    hide Round4, FrameSteps, Sum, ProtectedFor;
    if order == [] {
      assert
        && Sum([], ProtectedFor(f, ProtectNextFrameBudget)) == 0.0
        && Sum([], ProtectedFor(f, ProtectGpuHotPath)) == 0.0
        && Sum([], MemoryReliefOf) == 0.0 by {
        SumOfNothing([], ProtectedFor(f, ProtectNextFrameBudget));
        SumOfNothing([], ProtectedFor(f, ProtectGpuHotPath));
        SumOfNothing([], MemoryReliefOf);
      }
    } else {
      var prior, last := order[..|order| - 1], order[|order| - 1];
      assert order == prior + [last];
      TickProtects(prior, frames, f);
      FrameStepsProtect(last, frames[last], f);
      SumOfConcat(AllFrameSteps(prior, frames), FrameSteps(last, frames[last]),
          ProtectedFor(f, ProtectNextFrameBudget));
      SumOfConcat(AllFrameSteps(prior, frames), FrameSteps(last, frames[last]), ProtectedFor(f, ProtectGpuHotPath));
      SumOfConcat(AllFrameSteps(prior, frames), FrameSteps(last, frames[last]), MemoryReliefOf);
    }
  }

  lemma MemoryStepsProtectNothing(states: seq<MemoryState>, f: int, action: StepAction)
    ensures Sum(Mapped(states, MemoryStep), ProtectedFor(f, action)) == 0.0
  {
    hide Round4;
    var steps := Mapped(states, MemoryStep);
    forall s | s in steps ensures ProtectedFor(f, action)(s) == 0.0 {
      var k :| 0 <= k < |steps| && steps[k] == s;
      assert s == MemoryStep(states[k]);
    }
    SumOfNothing(steps, ProtectedFor(f, action));
  }
}
