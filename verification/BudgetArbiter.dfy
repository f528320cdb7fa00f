/** Arbitration of a packet against its envelopes: what is admitted, staged, deferred or dropped. */
module BudgetArbiter {
  import opened Wrappers
  import opened Sequences
  import opened Windowing
  import opened BudgetEnvelope

  datatype ArbiterAction =
    | DropWaste
    | PrestageBeforeFrame
    | DeferPreFrameOverflow
    | PrepareBeforeHotPath
    | AdmitHotPath
    | SplitOrDeferHotPath
    | AdmitCurrentPath

  datatype Status = Admitted | Deferred | Dropped | Prestaged

  function StatusOf(verdict: ArbiterAction): Status {
    match verdict
    case DropWaste => Dropped
    case PrestageBeforeFrame => Prestaged
    case DeferPreFrameOverflow | SplitOrDeferHotPath => Deferred
    case PrepareBeforeHotPath | AdmitHotPath | AdmitCurrentPath => Admitted
  }

  datatype Arbitration = Arbitration(command: Command, verdict: ArbiterAction, used: real, limit: real)

  /** The counter a command draws on; frame 0, frame -1 and frameless work share one. */
  function Account(frame: Option<int>): int {
    match frame
    case None => -1
    case Some(f) => if f == 0 then -1 else f
  }

  type Usage = map<int, real>

  function UsedBy(usage: Usage, account: int): real {
    if account in usage then usage[account] else 0.0
  }

  datatype Arbiter = Arbiter(hotPath: Usage, preFrame: Usage)

  function Arbitrate(command: Command, envelope: Option<Envelope>, arbiter: Arbiter): (Arbitration, Arbiter) {
    var account := Account(command.frame);
    match command.window
    case Never => (Arbitration(command, DropWaste, 0.0, 0.0), arbiter)
    case PreFrame =>
      var limit := if envelope.Some? then envelope.value.preFrameWindow else command.cost;
      var used := UsedBy(arbiter.preFrame, account) + command.cost;
      (Arbitration(command, if used <= limit then PrestageBeforeFrame else DeferPreFrameOverflow, used, limit),
       arbiter.(preFrame := arbiter.preFrame[account := used]))
    case Setup =>
      (Arbitration(command, PrepareBeforeHotPath, command.cost,
                   if envelope.Some? then envelope.value.maxHotPath else command.cost),
       arbiter)
    case HotPath =>
      var limit := if envelope.Some? then envelope.value.maxHotPath else command.cost;
      var used := UsedBy(arbiter.hotPath, account) + command.cost;
      (Arbitration(command, if used <= limit then AdmitHotPath else SplitOrDeferHotPath, used, limit),
       arbiter.(hotPath := arbiter.hotPath[account := used]))
    case PostPresent =>
      (Arbitration(command, AdmitCurrentPath, command.cost,
                   if envelope.Some? then envelope.value.maxHotPath else command.cost),
       arbiter)
  }

  function ArbitrateAll(packet: seq<Command>, envelopes: map<int, Envelope>): (r: (seq<Arbitration>, Arbiter))
    ensures |r.0| == |packet|
  {
    if packet == [] then ([], Arbiter(map[], map[]))
    else
      var (before, arbiter) := ArbitrateAll(packet[..|packet| - 1], envelopes);
      var last := packet[|packet| - 1];
      var (arbitration, next) := Arbitrate(last, EnvelopeOf(envelopes, last.frame), arbiter);
      (before + [arbitration], next)
  }

  /** The loop over a packet, with the two usage tables it updates. */
  method BuildBudgetArbitration(packet: seq<Command>, envelopes: map<int, Envelope>)
      returns (arbitrations: seq<Arbitration>)
    ensures arbitrations == ArbitrateAll(packet, envelopes).0
  {
    var hotPathUsed: Usage, preFrameUsed: Usage := map[], map[];
    arbitrations := [];
    for i := 0 to |packet|
      invariant ArbitrateAll(packet[..i], envelopes) == (arbitrations, Arbiter(hotPathUsed, preFrameUsed))
    {
      assert packet[..i + 1][..i] == packet[..i];
      var (arbitration, next) :=
          Arbitrate(packet[i], EnvelopeOf(envelopes, packet[i].frame), Arbiter(hotPathUsed, preFrameUsed));
      hotPathUsed, preFrameUsed := next.hotPath, next.preFrame;
      arbitrations := arbitrations + [arbitration];
    }
    assert packet[..|packet|] == packet;
  }

  /** Cost of a frame's commands with a given verdict. */
  function VerdictCost(frame: int, verdict: ArbiterAction): Arbitration -> real {
    (a: Arbitration) => if a.command.frame == Some(frame) && a.verdict == verdict then a.command.cost else 0.0
  }

  function AccountCost(account: int, window: Window): Command -> real {
    (c: Command) => if Account(c.frame) == account && c.window == window then c.cost else 0.0
  }

  /** A counter holds the cost of everything that was charged to it, admitted or not. */
  lemma {:induction false} CountersAddUp(packet: seq<Command>, envelopes: map<int, Envelope>, account: int)
    ensures var arbiter := ArbitrateAll(packet, envelopes).1;
            && UsedBy(arbiter.hotPath, account) == Sum(packet, AccountCost(account, HotPath))
            && UsedBy(arbiter.preFrame, account) == Sum(packet, AccountCost(account, PreFrame))
  {
    if packet != [] {
      CountersAddUp(packet[..|packet| - 1], envelopes, account);
    }
  }

  lemma {:induction false} HotPathIsBounded(packet: seq<Command>, envelopes: map<int, Envelope>, frame: int)
    requires NonNegativeCosts(packet) && frame in envelopes && 0.0 <= envelopes[frame].maxHotPath
    ensures var (arbitrations, arbiter) := ArbitrateAll(packet, envelopes);
            var hot := Sum(arbitrations, VerdictCost(frame, AdmitHotPath));
            hot <= envelopes[frame].maxHotPath && hot <= UsedBy(arbiter.hotPath, Account(Some(frame)))
    decreases |packet|
  {
    if packet != [] {
      var prior, last := packet[..|packet| - 1], packet[|packet| - 1];
      assert NonNegativeCosts(prior) && last in packet;
      HotPathIsBounded(prior, envelopes, frame);
      var arbitrations := ArbitrateAll(packet, envelopes).0;
      assert arbitrations[..|packet| - 1] == ArbitrateAll(prior, envelopes).0;
    }
  }

  lemma {:induction false} PreFrameIsBounded(packet: seq<Command>, envelopes: map<int, Envelope>, frame: int)
    requires NonNegativeCosts(packet) && frame in envelopes && 0.0 <= envelopes[frame].preFrameWindow
    ensures var (arbitrations, arbiter) := ArbitrateAll(packet, envelopes);
            var staged := Sum(arbitrations, VerdictCost(frame, PrestageBeforeFrame));
            staged <= envelopes[frame].preFrameWindow && staged <= UsedBy(arbiter.preFrame, Account(Some(frame)))
    decreases |packet|
  {
    if packet != [] {
      var prior, last := packet[..|packet| - 1], packet[|packet| - 1];
      assert NonNegativeCosts(prior) && last in packet;
      PreFrameIsBounded(prior, envelopes, frame);
      var arbitrations := ArbitrateAll(packet, envelopes).0;
      assert arbitrations[..|packet| - 1] == ArbitrateAll(prior, envelopes).0;
    }
  }

  /**
    What is admitted to a frame's hot path, or staged before it, stays within the
    frame's envelope and never exceeds what was charged to its account.
   */
  lemma {:induction false} AdmissionIsBounded(packet: seq<Command>, envelopes: map<int, Envelope>, frame: int)
    requires NonNegativeCosts(packet) && frame in envelopes
    requires 0.0 <= envelopes[frame].maxHotPath && 0.0 <= envelopes[frame].preFrameWindow
    ensures var (arbitrations, arbiter) := ArbitrateAll(packet, envelopes);
            var hot := Sum(arbitrations, VerdictCost(frame, AdmitHotPath));
            var staged := Sum(arbitrations, VerdictCost(frame, PrestageBeforeFrame));
            && hot <= envelopes[frame].maxHotPath
            && staged <= envelopes[frame].preFrameWindow
            && hot <= UsedBy(arbiter.hotPath, Account(Some(frame)))
            && staged <= UsedBy(arbiter.preFrame, Account(Some(frame)))
  {
    hide ArbitrateAll, Sum, UsedBy, Account;
    HotPathIsBounded(packet, envelopes, frame);
    PreFrameIsBounded(packet, envelopes, frame);
  }

  lemma {:induction false} ArbitrationAt(packet: seq<Command>, envelopes: map<int, Envelope>, i: nat)
    requires i < |packet|
    ensures ArbitrateAll(packet, envelopes).0[i] ==
            Arbitrate(packet[i], EnvelopeOf(envelopes, packet[i].frame), ArbitrateAll(packet[..i], envelopes).1).0
    decreases |packet|
  {
    if i < |packet| - 1 {
      ArbitrationAt(packet[..|packet| - 1], envelopes, i);
      assert packet[..|packet| - 1][..i] == packet[..i];
    }
  }

  lemma {:induction false} SumOfPrefix(packet: seq<Command>, f: Command -> real, k: nat)
    requires k <= |packet| && forall c | c in packet :: 0.0 <= f(c)
    ensures Sum(packet[..k], f) <= Sum(packet, f)
    decreases |packet|
  {
    if k < |packet| {
      assert packet[|packet| - 1] in packet && forall c | c in packet[..|packet| - 1] :: c in packet;
      assert packet[..|packet| - 1][..k] == packet[..k];
      SumOfPrefix(packet[..|packet| - 1], f, k);
    } else {
      assert packet[..k] == packet;
    }
  }

  /** What was charged before j includes what was charged before i and i's own cost. */
  lemma {:induction false} ChargedBefore(packet: seq<Command>, f: Command -> real, i: nat, j: nat)
    requires i < j <= |packet| && forall c | c in packet :: 0.0 <= f(c)
    ensures Sum(packet[..i], f) + f(packet[i]) <= Sum(packet[..j], f)
  {
    assert packet[..j][..i + 1] == packet[..i + 1] && packet[..i + 1][..i] == packet[..i];
    forall c | c in packet[..j] ensures 0.0 <= f(c) {
      assert c in packet;
    }
    SumOfPrefix(packet[..j], f, i + 1);
  }

  /**
    Within one frame, or among frameless work, admission to a window is a prefix
    of the packet order: nothing is let in after something was turned away.
   */
  lemma AdmissionIsAPrefix(packet: seq<Command>, envelopes: map<int, Envelope>, i: nat, j: nat)
    requires NonNegativeCosts(packet) && i < j < |packet|
    requires packet[i].frame == packet[j].frame && packet[i].window == packet[j].window
    ensures var arbitrations := ArbitrateAll(packet, envelopes).0;
            && (arbitrations[j].verdict == AdmitHotPath ==> arbitrations[i].verdict == AdmitHotPath)
            && (arbitrations[j].verdict == PrestageBeforeFrame ==> arbitrations[i].verdict == PrestageBeforeFrame)
  {
    hide ArbitrateAll, Sum;
    var account, window := Account(packet[i].frame), packet[i].window;
    ArbitrationAt(packet, envelopes, i);
    ArbitrationAt(packet, envelopes, j);
    CountersAddUp(packet[..i], envelopes, account);
    CountersAddUp(packet[..j], envelopes, account);
    assert packet[j] in packet;
    ChargedBefore(packet, AccountCost(account, window), i, j);
  }

  function StatusCount(arbitrations: seq<Arbitration>, status: Status): nat {
    if arbitrations == [] then 0
    else
      var last := arbitrations[|arbitrations| - 1];
      StatusCount(arbitrations[..|arbitrations| - 1], status) + (if StatusOf(last.verdict) == status then 1 else 0)
  }

  /** The four counts of an arbitration plan add up to its commands. */
  lemma {:induction false} StatusesPartitionThePacket(arbitrations: seq<Arbitration>)
    ensures StatusCount(arbitrations, Admitted) + StatusCount(arbitrations, Deferred)
          + StatusCount(arbitrations, Dropped) + StatusCount(arbitrations, Prestaged) == |arbitrations|
  {
    if arbitrations != [] {
      StatusesPartitionThePacket(arbitrations[..|arbitrations| - 1]);
    }
  }

  datatype MemoryAction = EvictOrDefer(memory: string, pressure: real) | ReserveHeadroom(memory: string, pressure: real)

  function ArbitrateMemoryLayer(layer: MemoryLayer): Option<MemoryAction> {
    match layer.status
    case OverBudget => Some(EvictOrDefer(layer.memory, layer.pressure))
    case NearBudget => Some(ReserveHeadroom(layer.memory, layer.pressure))
    case Unbounded | WithinBudget => None
  }

  function MemoryActions(layers: seq<MemoryLayer>): seq<MemoryAction> {
    if layers == [] then []
    else
      var before := MemoryActions(layers[..|layers| - 1]);
      match ArbitrateMemoryLayer(layers[|layers| - 1])
      case None => before
      case Some(action) => before + [action]
  }

  lemma {:induction false} ArbitrationsKeepCommands(packet: seq<Command>, envelopes: map<int, Envelope>)
    ensures var arbitrations := ArbitrateAll(packet, envelopes).0;
            forall i | 0 <= i < |packet| ::
              && arbitrations[i].command == packet[i]
              && (arbitrations[i].verdict == AdmitCurrentPath ==> packet[i].window == PostPresent)
              && (arbitrations[i].verdict == AdmitHotPath ==> packet[i].window == HotPath)
  {
    if packet != [] {
      ArbitrationsKeepCommands(packet[..|packet| - 1], envelopes);
    }
  }
}
