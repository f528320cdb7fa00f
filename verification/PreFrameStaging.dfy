/** Exactly which pre-frame work is staged, and which is turned away. */
module PreFrameStaging {
  import opened Wrappers
  import opened Numbers
  import opened Sequences
  import opened Windowing
  import opened BudgetEnvelope
  import opened BudgetArbiter

  /** Pre-frame cost charged to a frame's account by commands of other frames or of none. */
  function ForeignCost(frame: int): Command -> real {
    (c: Command) =>
      if c.window == PreFrame && Account(c.frame) == Account(Some(frame)) && c.frame != Some(frame) then c.cost else 0.0
  }

  /** What an account was charged before a command splits into the frame's own work and foreign work. */
  lemma {:induction false} ChargesSplit(packet: seq<Command>, frame: int)
    requires FromWindowPlan(packet)
    ensures Sum(packet, AccountCost(Account(Some(frame)), PreFrame)) ==
            Sum(packet, EffectCost(frame, PrestagedWork)) + Sum(packet, ForeignCost(frame))
  {
    hide Round4;
    if packet != [] {
      var prior, last := packet[..|packet| - 1], packet[|packet| - 1];
      assert FromWindowPlan(prior) && last in packet;
      ChargesSplit(prior, frame);
    }
  }

  lemma OwnWorkSplits(packet: seq<Command>, frame: int, i: nat)
    requires FromWindowPlan(packet) && i < |packet|
    requires packet[i].window == PreFrame && packet[i].frame == Some(frame)
    ensures var own := EffectCost(frame, PrestagedWork);
            Sum(packet, own) == Sum(packet[..i], own) + packet[i].cost + Sum(packet[i + 1..], own)
  {
    hide Round4, Sum;
    var own := EffectCost(frame, PrestagedWork);
    var before, after := packet[..i], packet[i + 1..];
    assert packet[i] in packet && packet == before + [packet[i]] + after;
    SumOfConcat(before + [packet[i]], after, own);
    SumOfConcat(before, [packet[i]], own);
    SumOfOne(packet[i], own);
  }

  /** A pre-frame command of an enveloped frame is staged when all charges so far fit the window. */
  lemma StagedWhenChargesFit(packet: seq<Command>, envelopes: map<int, Envelope>, i: nat)
    requires i < |packet| && packet[i].window == PreFrame && EnvelopeOf(envelopes, packet[i].frame).Some?
    ensures ArbitrateAll(packet, envelopes).0[i].verdict == PrestageBeforeFrame <==>
            Sum(packet[..i], AccountCost(Account(packet[i].frame), PreFrame)) + packet[i].cost <=
            EnvelopeOf(envelopes, packet[i].frame).value.preFrameWindow
  {
    hide ArbitrateAll, EnvelopeOf, Sum;
    ArbitrationAt(packet, envelopes, i);
    CountersAddUp(packet[..i], envelopes, Account(packet[i].frame));
  }

  /**
    A frame's own pre-frame command is staged exactly when the foreign work charged
    to its account before it is no more than the frame's own pre-frame work still to
    come and the overrun its window was widened by.
   */
  lemma OwnPreFrameWorkIsStagedExactlyWhen(packet: seq<Command>, targets: map<int, real>, i: nat)
    requires FromWindowPlan(packet) && i < |packet|
    requires packet[i].window == PreFrame && packet[i].frame.Some?
    ensures var frame := packet[i].frame.value;
            ArbitrateAll(packet, Envelopes(packet, targets)).0[i].verdict == PrestageBeforeFrame <==>
            Sum(packet[..i], ForeignCost(frame)) <=
            Sum(packet[i + 1..], EffectCost(frame, PrestagedWork)) + Overrun(packet, targets, frame)
  {
    assert FromWindowPlan(packet[..i]) && NonNegativeCosts(packet);
    hide *;
    var frame := packet[i].frame.value;
    EnvelopeWindow(packet, targets, i);
    StagedWhenChargesFit(packet, Envelopes(packet, targets), i);
    ChargesSplit(packet[..i], frame);
    OwnWorkSplits(packet, frame, i);
  }

  /** Work without a frame has no window, so it is staged exactly while its account is untouched. */
  lemma {:induction false} FramelessWorkIsStagedExactlyWhen(packet: seq<Command>, targets: map<int, real>, i: nat)
    requires NonNegativeCosts(packet) && i < |packet| && packet[i].window == PreFrame && packet[i].frame.None?
    ensures ArbitrateAll(packet, Envelopes(packet, targets)).0[i].verdict == PrestageBeforeFrame <==>
            Sum(packet[..i], AccountCost(Account(None), PreFrame)) <= 0.0
  {
    hide ArbitrateAll, Envelopes, Sum;
    ArbitrationAt(packet, Envelopes(packet, targets), i);
    CountersAddUp(packet[..i], Envelopes(packet, targets), Account(None));
  }

  /** So a frame that shares its account with nobody has none of its pre-frame work deferred. */
  lemma {:induction false} OwnPreFrameWorkIsNeverDeferred(packet: seq<Command>, targets: map<int, real>, i: nat)
    requires FromWindowPlan(packet) && i < |packet|
    requires packet[i].window == PreFrame && packet[i].frame.Some?
    requires forall c | c in packet && c.window == PreFrame && Account(c.frame) == Account(packet[i].frame) ::
               c.frame == packet[i].frame
    ensures ArbitrateAll(packet, Envelopes(packet, targets)).0[i].verdict == PrestageBeforeFrame
  {
    var frame := packet[i].frame.value;
    OwnPreFrameWorkIsStagedExactlyWhen(packet, targets, i);
    assert NonNegativeCosts(packet[i + 1..]) && forall c | c in packet[..i] :: ForeignCost(frame)(c) == 0.0;
    PrestagedCostIsNonNegative(packet[i + 1..], frame);
    SumOfNothing(packet[..i], ForeignCost(frame));
  }

  const FRAMELESS := Command("a", None, PreFrame, PrestagedWork, 1.0, 0.0)

  const OF_FRAME_ZERO := Command("b", Some(0), PreFrame, PrestagedWork, 1.0, 0.0)

  lemma SumOfPair(f: Command -> real)
    ensures Sum([FRAMELESS, OF_FRAME_ZERO], f) == f(FRAMELESS) + f(OF_FRAME_ZERO)
  {
    assert [FRAMELESS, OF_FRAME_ZERO] == [FRAMELESS] + [OF_FRAME_ZERO];
    SumOfConcat([FRAMELESS], [OF_FRAME_ZERO], f);
    SumOfOne(FRAMELESS, f);
    SumOfOne(OF_FRAME_ZERO, f);
  }

  /** Sharing an account is what it takes: frameless work can turn frame 0's own work away. */
  lemma SharedAccountDefersOwnWork()
    ensures var packet := [FRAMELESS, OF_FRAME_ZERO];
            && FromWindowPlan(packet)
            && ArbitrateAll(packet, Envelopes(packet, map[])).0[1].verdict == DeferPreFrameOverflow
  {
    hide Sum, ArbitrateAll, FrameEnvelope;
    var packet := [FRAMELESS, OF_FRAME_ZERO];
    assert (1.0 * 10000.0).Floor == 10000 && Round4(1.0) == 1.0;
    OwnPreFrameWorkIsStagedExactlyWhen(packet, map[], 1);
    ArbitrationAt(packet, Envelopes(packet, map[]), 1);
    assert packet[..1] == [FRAMELESS] && packet[2..] == [];
    SumOfOne(FRAMELESS, ForeignCost(0));
    SumOfNothing([], EffectCost(0, PrestagedWork));
    SumOfPair(EffectCost(0, ProtectedWork));
  }
}
