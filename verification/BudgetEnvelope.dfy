/**
  Simulated execution of a packet, the adjustments asked for per frame, and the
  budget envelopes of frames and memory layers.
 */
module BudgetEnvelope {
  import opened Wrappers
  import opened Numbers
  import opened Sequences
  import opened Windowing
  import Ledger

  function FramesOf(commands: seq<Command>): set<int> {
    set c | c in commands && c.frame.Some? :: c.frame.value
  }

  function EffectCost(frame: int, effect: Effect): Command -> real {
    (c: Command) => if c.frame == Some(frame) && c.effect == effect then c.cost else 0.0
  }

  datatype FrameResult = FrameResult(frame: int, removed: real, prestaged: real, setup: real, protected: real)

  function SimulateFrame(packet: seq<Command>, frame: int): FrameResult {
    FrameResult(
      frame,
      Sum(packet, EffectCost(frame, RemovedWork)),
      Sum(packet, EffectCost(frame, PrestagedWork)),
      Sum(packet, EffectCost(frame, SetupWork)),
      Sum(packet, EffectCost(frame, ProtectedWork)))
  }

  function TargetOf(targets: map<int, real>, frame: int): real {
    if frame in targets then targets[frame] else Ledger.DEFAULT_FRAME_BUDGET
  }

  datatype AdjustmentKind =
    | TightenHotPathAdmission
    | ExpandPreFrameWindow
    | SplitProtectedHotPath
    | KeepSuppressionActive
    | PreservePreFrameWindow
    | MaintainSuppressionCache
    | HoldCurrentPacket

  datatype Adjustment = Adjustment(kind: AdjustmentKind, frame: int, value: real)

  function Adjustments(f: FrameResult, target: real, delta: real): seq<Adjustment> {
    if delta < 0.0 then
      [Adjustment(TightenHotPathAdmission, f.frame, -delta),
       Adjustment(ExpandPreFrameWindow, f.frame, f.prestaged - delta)]
      + (if f.protected > target then [Adjustment(SplitProtectedHotPath, f.frame, f.protected - target)] else [])
      + (if f.removed > 0.0 then [Adjustment(KeepSuppressionActive, f.frame, f.removed)] else [])
    else
      (if f.prestaged > 0.0 then [Adjustment(PreservePreFrameWindow, f.frame, f.prestaged)] else [])
      + (if f.removed > 0.0 then [Adjustment(MaintainSuppressionCache, f.frame, f.removed)] else [])
      + [Adjustment(HoldCurrentPacket, f.frame, delta)]
  }

  datatype Envelope = Envelope(frame: int, target: real, maxHotPath: real, copyBudget: real, preFrameWindow: real)

  /** The largest pre-frame window asked for, or none. */
  function PreFrameWindow(adjustments: seq<Adjustment>): real {
    if adjustments == [] then 0.0
    else
      var rest := PreFrameWindow(adjustments[1..]);
      var a := adjustments[0];
      if (a.kind == ExpandPreFrameWindow || a.kind == PreservePreFrameWindow) && a.value > rest then a.value else rest
  }

  function SuggestCopyBudget(target: real, delta: real): real {
    if delta <= 0.0 then 0.0
    else if target * 0.15 <= delta * 0.25 then target * 0.15 else delta * 0.25
  }

  function FrameEnvelope(packet: seq<Command>, targets: map<int, real>, frame: int): Envelope {
    var f := SimulateFrame(packet, frame);
    var target := TargetOf(targets, frame);
    var delta := target - f.protected;
    Envelope(frame, target, target,
             if delta < 0.0 then 0.0 else SuggestCopyBudget(target, delta),
             PreFrameWindow(Adjustments(f, target, delta)))
  }

  /** One envelope for every frame that has a command in the packet. */
  function Envelopes(packet: seq<Command>, targets: map<int, real>): map<int, Envelope> {
    map frame | frame in FramesOf(packet) :: FrameEnvelope(packet, targets, frame)
  }

  function EnvelopeOf(envelopes: map<int, Envelope>, frame: Option<int>): Option<Envelope> {
    if frame.Some? && frame.value in envelopes then Some(envelopes[frame.value]) else None
  }

  datatype LayerStatus = Unbounded | OverBudget | NearBudget | WithinBudget

  datatype MemoryLayer = MemoryLayer(memory: string, active: real, budget: Option<real>, pressure: real,
      status: LayerStatus)

  function BuildMemoryLayer(memory: string, active: real, budget: Option<real>): MemoryLayer {
    match budget
    case None => MemoryLayer(memory, active, None, 0.0, Unbounded)
    case Some(limit) =>
      var pressure := if active - limit > 0.0 then active - limit else 0.0;
      MemoryLayer(memory, active, budget, pressure,
                  if pressure > 0.0 then OverBudget
                  else if active >= limit * 0.85 then NearBudget
                  else WithinBudget)
  }

  lemma {:induction false} PreFrameWindowIsNonNegative(adjustments: seq<Adjustment>)
    ensures 0.0 <= PreFrameWindow(adjustments)
  {
    if adjustments != [] {
      PreFrameWindowIsNonNegative(adjustments[1..]);
    }
  }

  /** The copy queue only gets room the protected hot path leaves free. */
  lemma CopyBudgetFitsBesideTheHotPath(packet: seq<Command>, targets: map<int, real>, frame: int)
    requires 0.0 <= TargetOf(targets, frame)
    ensures var e, hot := FrameEnvelope(packet, targets, frame), SimulateFrame(packet, frame).protected;
            && 0.0 <= e.copyBudget
            && (e.copyBudget > 0.0 ==> hot + e.copyBudget <= e.target)
            && (e.copyBudget == 0.0 <==> e.target <= hot || e.target == 0.0)
  {
    hide Sum, Adjustments, PreFrameWindow;
  }

  /** By how much a frame's protected work overruns its target. */
  function Overrun(packet: seq<Command>, targets: map<int, real>, frame: int): real {
    Max(0.0, SimulateFrame(packet, frame).protected - TargetOf(targets, frame))
  }

  lemma {:induction false} PrestagedCostIsNonNegative(packet: seq<Command>, frame: int)
    requires NonNegativeCosts(packet)
    ensures 0.0 <= Sum(packet, EffectCost(frame, PrestagedWork))
  {
    if packet != [] {
      var prior, last := packet[..|packet| - 1], packet[|packet| - 1];
      assert NonNegativeCosts(prior) && last in packet;
      PrestagedCostIsNonNegative(prior, frame);
    }
  }

  /** The window asked for is the prestaged work plus the overrun. */
  lemma WindowIsWorkPlusOverrun(f: FrameResult, target: real)
    requires 0.0 <= f.prestaged
    ensures PreFrameWindow(Adjustments(f, target, target - f.protected)) == f.prestaged + Max(0.0, f.protected - target)
  {
    var all := Adjustments(f, target, target - f.protected);
    if target - f.protected < 0.0 {
      NothingAsked(all[2..]);
      assert all[1..][1..] == all[2..];
    } else if f.prestaged > 0.0 {
      NothingAsked(all[1..]);
    } else {
      NothingAsked(all);
    }
  }

  lemma {:induction false} NothingAsked(adjustments: seq<Adjustment>)
    requires forall a | a in adjustments :: a.kind != ExpandPreFrameWindow && a.kind != PreservePreFrameWindow
    ensures PreFrameWindow(adjustments) == 0.0
  {
    if adjustments != [] {
      NothingAsked(adjustments[1..]);
    }
  }

  lemma EnvelopeWindow(packet: seq<Command>, targets: map<int, real>, i: nat)
    requires NonNegativeCosts(packet) && i < |packet| && packet[i].frame.Some?
    ensures var frame, envelope := packet[i].frame.value, EnvelopeOf(Envelopes(packet, targets), packet[i].frame);
            && envelope.Some?
            && envelope.value.preFrameWindow ==
               Sum(packet, EffectCost(frame, PrestagedWork)) + Overrun(packet, targets, frame)
  {
    hide Adjustments, PreFrameWindow, Sum, SuggestCopyBudget;
    var frame := packet[i].frame.value;
    assert packet[i] in packet && frame in FramesOf(packet);
    PrestagedCostIsNonNegative(packet, frame);
    WindowIsWorkPlusOverrun(SimulateFrame(packet, frame), TargetOf(targets, frame));
  }

  /** What each adjustment asked of a frame amounts to, by how far its protected work is over the target. */
  lemma AdjustmentsSay(f: FrameResult, target: real)
    ensures var over := f.protected - target;
            forall a | a in Adjustments(f, target, target - f.protected) ::
              && a.frame == f.frame
              && match a.kind
                 case TightenHotPathAdmission | SplitProtectedHotPath => over > 0.0 && a.value == over
                 case ExpandPreFrameWindow => over > 0.0 && a.value == f.prestaged + over
                 case PreservePreFrameWindow => over <= 0.0 && a.value == f.prestaged > 0.0
                 case KeepSuppressionActive => over > 0.0 && a.value == f.removed > 0.0
                 case MaintainSuppressionCache => over <= 0.0 && a.value == f.removed > 0.0
                 case HoldCurrentPacket => over <= 0.0 && a.value == -over
  {
  }

  ghost predicate Built(layers: seq<MemoryLayer>) {
    forall l | l in layers :: l == BuildMemoryLayer(l.memory, l.active, l.budget)
  }
}
