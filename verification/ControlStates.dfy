/** The control state a packet is applied to, and what it holds afterwards. */
module ControlStates {
  import opened Wrappers
  import opened Numbers
  import opened Sequences
  import opened Manager
  import opened ControlPackets

  datatype FrameState = FrameState(
    nextBudget: real, hotPathBudget: real, copyBudget: real, preFrameWindow: real,
    admissionMode: Option<string>, schedulerMode: Option<string>, priority: Priority, commandCount: nat)

  const NEW_FRAME := FrameState(0.0, 0.0, 0.0, 0.0, None, None, Low, 0)

  function Rank(p: Priority): int {
    match p case Low => 0 case Normal => 1 case High => 2
  }

  function Stronger(current: Priority, incoming: Priority): Priority {
    if Rank(incoming) > Rank(current) then incoming else current
  }

  function ApplyToFrame(state: FrameState, command: ControlCommand): FrameState {
    var counted := state.(
      commandCount := state.commandCount + 1,
      priority := Stronger(state.priority, command.priority));
    match command
    case SetNextFrameBudget(_, value, _) => counted.(nextBudget := value)
    case SetHotPathBudget(_, value, _) => counted.(hotPathBudget := value)
    case SetCopyQueueBudget(_, value, _) => counted.(copyBudget := value)
    case ReservePreFrameWindow(_, value, _) => counted.(preFrameWindow := value)
    case SetAdmissionMode(_, setting, _) => counted.(admissionMode := Some(setting))
    case SetSchedulerMode(_, setting, _) => counted.(schedulerMode := Some(setting))
    case MemoryCommand(_, _, _, _) => counted
  }

  datatype MemoryState = MemoryState(memory: string, action: ResidencyAction, expectedRelief: real, reserve: real)

  function MemoryStateOf(memory: string, action: ResidencyAction, value: real): MemoryState {
    MemoryState(memory, action,
                if action == EvictOrDeferAction then value else 0.0,
                if action == ReserveHeadroomAction then value else 0.0)
  }

  datatype ControlState = ControlState(frames: map<int, FrameState>, memory: seq<MemoryState>)

  function ApplyCommand(state: ControlState, command: ControlCommand): ControlState {
    match command
    case MemoryCommand(memory, action, value, _) =>
      state.(memory := state.memory + [MemoryStateOf(memory, action, value)])
    case _ =>
      var before := if command.frame in state.frames then state.frames[command.frame] else NEW_FRAME;
      state.(frames := state.frames[command.frame := ApplyToFrame(before, command)])
  }

  function ApplyPacket(packet: seq<ControlCommand>): ControlState {
    if packet == [] then ControlState(map[], [])
    else ApplyCommand(ApplyPacket(packet[..|packet| - 1]), packet[|packet| - 1])
  }

  /** The mutable record the packet's commands are applied to. */
  class FrameControlState {
    const frame: int
    var nextFrameBudget: real
    var hotPathBudget: real
    var copyQueueBudget: real
    var preFrameWindow: real
    var admissionMode: Option<string>
    var schedulerMode: Option<string>
    var priority: Priority
    var commandCount: nat

    function Model(): FrameState
      reads this
    {
      FrameState(nextFrameBudget, hotPathBudget, copyQueueBudget, preFrameWindow,
                 admissionMode, schedulerMode, priority, commandCount)
    }

    constructor (frame: int)
      ensures this.frame == frame && Model() == NEW_FRAME
    {
      this.frame := frame;
      nextFrameBudget, hotPathBudget, copyQueueBudget, preFrameWindow := 0.0, 0.0, 0.0, 0.0;
      admissionMode, schedulerMode, priority, commandCount := None, None, Low, 0;
    }

    method Apply(command: ControlCommand)
      modifies this
      ensures Model() == ApplyToFrame(old(Model()), command)
    {
      commandCount := commandCount + 1;
      priority := Stronger(priority, command.priority);
      match command {
        case SetNextFrameBudget(_, value, _) => nextFrameBudget := value;
        case SetHotPathBudget(_, value, _) => hotPathBudget := value;
        case SetCopyQueueBudget(_, value, _) => copyQueueBudget := value;
        case ReservePreFrameWindow(_, value, _) => preFrameWindow := value;
        case SetAdmissionMode(_, setting, _) => admissionMode := Some(setting);
        case SetSchedulerMode(_, setting, _) => schedulerMode := Some(setting);
        case MemoryCommand(_, _, _, _) =>
      }
    }
  }

  /** Applies every command in order, creating the record of a frame when it is first named. */
  method ApplyRuntimeControlPacket(packet: seq<ControlCommand>)
    returns (frames: map<int, FrameControlState>, memory: seq<MemoryState>)
    ensures frames.Keys == ApplyPacket(packet).frames.Keys
    ensures forall f | f in frames :: frames[f].Model() == ApplyPacket(packet).frames[f]
    ensures memory == ApplyPacket(packet).memory
  {
    frames, memory := map[], [];
    for i := 0 to |packet|
      invariant frames.Keys == ApplyPacket(packet[..i]).frames.Keys
      invariant forall f | f in frames :: fresh(frames[f]) && frames[f].Model() == ApplyPacket(packet[..i]).frames[f]
      invariant forall f, g | f in frames && g in frames && f != g :: frames[f] != frames[g]
      invariant memory == ApplyPacket(packet[..i]).memory
    {
      assert packet[..i + 1][..i] == packet[..i];
      var command := packet[i];
      if command.MemoryCommand? {
        memory := memory + [MemoryStateOf(command.memory, command.action, command.value)];
      } else {
        if command.frame !in frames {
          var created := new FrameControlState(command.frame);
          frames := frames[command.frame := created];
        }
        var record := frames[command.frame];
        record.Apply(command);
      }
    }
    assert packet[..|packet|] == packet;
  }

  lemma ApplyOneMore(packet: seq<ControlCommand>, command: ControlCommand)
    ensures ApplyPacket(packet + [command]) == ApplyCommand(ApplyPacket(packet), command)
  {
    var longer := packet + [command];
    assert longer[..|longer| - 1] == packet;
  }

  /** A frame's record holds what its directive asked for, rounded. */
  ghost predicate Holds(state: FrameState, d: FrameDirective) {
    && state.nextBudget == Round4(d.nextBudget)
    && state.hotPathBudget == Round4(d.hotPathBudget)
    && state.copyBudget == Round4(d.copyBudget)
    && state.preFrameWindow == Round4(d.preFrameWindow)
    && state.admissionMode == Some(d.admissionMode)
    && state.schedulerMode == Some(d.schedulerMode)
  }

  /** A fresh record after all six commands of its directive. */
  ghost predicate Settles(state: FrameState, d: FrameDirective) {
    Holds(state, d) && state.commandCount == 6 && state.priority == FramePriority(d)
  }

  /** Six commands give a frame its record, and leave every other frame alone. */
  lemma FrameCommandsApplied(packet: seq<ControlCommand>, d: FrameDirective)
    ensures var before, after := ApplyPacket(packet), ApplyPacket(packet + FrameCommands(d));
            && after.memory == before.memory
            && after.frames.Keys == before.frames.Keys + {d.frame}
            && (forall f | f in before.frames && f != d.frame :: after.frames[f] == before.frames[f])
            && Holds(after.frames[d.frame], d)
            && (d.frame !in before.frames ==>
                  after.frames[d.frame].commandCount == 6 && after.frames[d.frame].priority == FramePriority(d))
  {
    hide Round4, ApplyPacket;
    var c := FrameCommands(d);
    var p1 := packet + [c[0]];
    var p2 := p1 + [c[1]];
    var p3 := p2 + [c[2]];
    var p4 := p3 + [c[3]];
    var p5 := p4 + [c[4]];
    ApplyOneMore(packet, c[0]);
    ApplyOneMore(p1, c[1]);
    ApplyOneMore(p2, c[2]);
    ApplyOneMore(p3, c[3]);
    ApplyOneMore(p4, c[4]);
    ApplyOneMore(p5, c[5]);
    assert p5 + [c[5]] == packet + c;
  }

  /** Nothing but the directives' frames is recorded. */
  lemma {:induction false} RecordedFramesAreDirected(directives: seq<FrameDirective>, f: int)
    requires f in ApplyPacket(AllFrameCommands(directives)).frames
    ensures exists i :: 0 <= i < |directives| && directives[i].frame == f
    decreases |directives|
  {
    hide FrameCommands, Round4, ApplyCommand, Holds;
    if directives != [] {
      hide ApplyPacket;
      var prior, last := directives[..|directives| - 1], directives[|directives| - 1];
      FrameCommandsApplied(AllFrameCommands(prior), last);
      if f == last.frame {
        assert directives[|directives| - 1].frame == f;
      } else {
        RecordedFramesAreDirected(prior, f);
        var i :| 0 <= i < |prior| && prior[i].frame == f;
        assert directives[i].frame == f;
      }
    }
  }

  lemma {:induction false} UndirectedIsUnrecorded(directives: seq<FrameDirective>, f: int)
    requires forall i | 0 <= i < |directives| :: directives[i].frame != f
    ensures f !in ApplyPacket(AllFrameCommands(directives)).frames
  {
    hide ApplyPacket, FrameCommands;
    if f in ApplyPacket(AllFrameCommands(directives)).frames {
      RecordedFramesAreDirected(directives, f);
    }
  }

  /** Every directive's frame has a record that holds its values, and no memory state appears. */
  lemma {:induction false} DirectivesApplied(directives: seq<FrameDirective>)
    requires DistinctFrames(directives)
    ensures var state := ApplyPacket(AllFrameCommands(directives));
            && state.memory == []
            && forall i | 0 <= i < |directives| ::
                 && directives[i].frame in state.frames
                 && Settles(state.frames[directives[i].frame], directives[i])
    decreases |directives|
  {
    hide FrameCommands, Round4, ApplyCommand, Holds, FramePriority;
    if directives != [] {
      hide ApplyPacket;
      var prior, last := directives[..|directives| - 1], directives[|directives| - 1];
      DirectivesApplied(prior);
      UndirectedIsUnrecorded(prior, last.frame);
      FrameCommandsApplied(AllFrameCommands(prior), last);
      var before, after := ApplyPacket(AllFrameCommands(prior)), ApplyPacket(AllFrameCommands(directives));
      forall i | 0 <= i < |prior|
        ensures directives[i].frame in after.frames && Settles(after.frames[directives[i].frame], directives[i])
      {
        assert prior[i] == directives[i];
        assert directives[i].frame in before.frames && directives[i].frame != last.frame;
      }
    }
  }

  ghost predicate NoStronger(a: Priority, b: Priority) {
    a == Low || b == High || (a == Normal && b == Normal)
  }

  ghost predicate Addresses(command: ControlCommand, frame: int) {
    !command.MemoryCommand? && command.frame == frame
  }

  ghost function AddressedTo(packet: seq<ControlCommand>, frame: int): nat {
    if packet == [] then 0
    else AddressedTo(packet[..|packet| - 1], frame) + if Addresses(packet[|packet| - 1], frame) then 1 else 0
  }

  /** A frame's priority is the strongest of the commands addressed to it, and all of those are counted. */
  lemma {:induction false} PriorityIsTheStrongest(packet: seq<ControlCommand>, frame: int)
    requires frame in ApplyPacket(packet).frames
    ensures var state := ApplyPacket(packet).frames[frame];
            && (forall c | c in packet && Addresses(c, frame) :: NoStronger(c.priority, state.priority))
            && (state.priority == Low || exists c :: c in packet && Addresses(c, frame) && c.priority == state.priority)
            && state.commandCount == AddressedTo(packet, frame)
    decreases |packet|
  {
    var prior, last := packet[..|packet| - 1], packet[|packet| - 1];
    if frame in ApplyPacket(prior).frames {
      PriorityIsTheStrongest(prior, frame);
    } else {
      UnrecordedIsUnaddressed(prior, frame);
    }
    CommandRaises(ApplyPacket(prior), last, frame);
    hide ApplyCommand, ApplyPacket, NoStronger, Addresses;
    NoStrongerIsAnOrder();
    assert forall c | c in packet :: c in prior || c == last;
    assert packet == prior + [last] && last in packet;
  }

  lemma NoStrongerIsAnOrder()
    ensures forall a, b, c :: NoStronger(a, b) && NoStronger(b, c) ==> NoStronger(a, c)
    ensures forall a :: NoStronger(a, a) && NoStronger(Low, a)
  {
  }

  /** One command raises the priority of the frame it addresses, if it is stronger, and counts. */
  lemma CommandRaises(state: ControlState, command: ControlCommand, frame: int)
    ensures var next := ApplyCommand(state, command);
            var before := if frame in state.frames then state.frames[frame] else NEW_FRAME;
            && (frame in next.frames <==> frame in state.frames || Addresses(command, frame))
            && (frame in next.frames ==>
                  var after := next.frames[frame];
                  if Addresses(command, frame) then
                    && NoStronger(command.priority, after.priority) && NoStronger(before.priority, after.priority)
                    && (after.priority == before.priority || after.priority == command.priority)
                    && after.commandCount == before.commandCount + 1
                  else after == before)
  {
  }

  lemma {:induction false} UnrecordedIsUnaddressed(packet: seq<ControlCommand>, frame: int)
    requires frame !in ApplyPacket(packet).frames
    ensures AddressedTo(packet, frame) == 0 && forall c | c in packet :: !Addresses(c, frame)
    decreases |packet|
  {
    if packet != [] {
      var prior, last := packet[..|packet| - 1], packet[|packet| - 1];
      UnrecordedIsUnaddressed(prior, frame);
      assert packet == prior + [last];
    }
  }

  function StateForDirective(d: MemoryDirective): MemoryState {
    MemoryStateOf(d.memory, d.action, Round4(if d.expectedRelief > 0.0 then d.expectedRelief else d.reserve))
  }

  lemma {:induction false} MemoryApplied(packet: seq<ControlCommand>, directives: seq<MemoryDirective>)
    ensures var before, after := ApplyPacket(packet), ApplyPacket(packet + Mapped(directives, CommandForMemory));
            && after.frames == before.frames
            && after.memory == before.memory + Mapped(directives, StateForDirective)
    decreases |directives|
  {
    hide Round4, ApplyPacket;
    var commands := Mapped(directives, CommandForMemory);
    if directives == [] {
      assert packet + commands == packet;
    } else {
      var prior, last := directives[..|directives| - 1], directives[|directives| - 1];
      MemoryApplied(packet, prior);
      var shorter := Mapped(prior, CommandForMemory);
      assert packet + commands == (packet + shorter) + [CommandForMemory(last)];
      ApplyOneMore(packet + shorter, CommandForMemory(last));
      assert Mapped(directives, StateForDirective) == Mapped(prior, StateForDirective) + [StateForDirective(last)];
    }
  }
}
