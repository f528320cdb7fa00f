/** The control packet: the manager's directives as commands, rounded to four decimals. */
module ControlPackets {
  import opened Numbers
  import opened Sequences
  import opened RuntimeCalibration
  import opened Manager

  datatype Priority = Low | Normal | High

  datatype ControlCommand =
    | SetNextFrameBudget(frame: int, value: real, priority: Priority)
    | SetHotPathBudget(frame: int, value: real, priority: Priority)
    | SetCopyQueueBudget(frame: int, value: real, priority: Priority)
    | ReservePreFrameWindow(frame: int, value: real, priority: Priority)
    | SetAdmissionMode(frame: int, setting: string, priority: Priority)
    | SetSchedulerMode(frame: int, setting: string, priority: Priority)
    | MemoryCommand(memory: string, action: ResidencyAction, value: real, priority: Priority)

  function FramePriority(d: FrameDirective): Priority {
    match d.action
    case TightenGuardband | ApplyBeforeNextFrame => High
    case PreserveShape => Normal
    case Monitor => Low
  }

  /** Leaving the stage rounds every value. */
  function FrameCommands(d: FrameDirective): seq<ControlCommand> {
    var p := FramePriority(d);
    [SetNextFrameBudget(d.frame, Round4(d.nextBudget), p),
     SetHotPathBudget(d.frame, Round4(d.hotPathBudget), p),
     SetCopyQueueBudget(d.frame, Round4(d.copyBudget), p),
     ReservePreFrameWindow(d.frame, Round4(d.preFrameWindow), p),
     SetAdmissionMode(d.frame, d.admissionMode, p),
     SetSchedulerMode(d.frame, d.schedulerMode, p)]
  }

  function MemoryPriority(action: ResidencyAction): Priority {
    match action
    case EvictOrDeferAction => High
    case ReserveHeadroomAction => Normal
    case ObserveAction | HoldAction => Low
  }

  function CommandForMemory(d: MemoryDirective): ControlCommand {
    MemoryCommand(d.memory, d.action, Round4(if d.expectedRelief > 0.0 then d.expectedRelief else d.reserve),
                  MemoryPriority(d.action))
  }

  function AllFrameCommands(directives: seq<FrameDirective>): seq<ControlCommand> {
    if directives == [] then []
    else AllFrameCommands(directives[..|directives| - 1]) + FrameCommands(directives[|directives| - 1])
  }

  function ControlPacket(frames: seq<FrameDirective>, memory: seq<MemoryDirective>): seq<ControlCommand> {
    AllFrameCommands(frames) + Mapped(memory, CommandForMemory)
  }

  method BuildControlCommands(frames: seq<FrameDirective>, memory: seq<MemoryDirective>)
      returns (packet: seq<ControlCommand>)
    ensures packet == ControlPacket(frames, memory)
  {
    packet := [];
    for i := 0 to |frames|
      invariant packet == AllFrameCommands(frames[..i])
    {
      assert frames[..i + 1][..i] == frames[..i];
      packet := packet + FrameCommands(frames[i]);
    }
    assert frames[..|frames|] == frames;
    for i := 0 to |memory|
      invariant packet == AllFrameCommands(frames) + Mapped(memory, CommandForMemory)[..i]
    {
      packet := packet + [CommandForMemory(memory[i])];
    }
  }
}
