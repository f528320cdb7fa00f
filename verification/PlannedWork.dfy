/**
  Exactly which hot-path work is admitted, and where the cost of every routed
  operation ends up once the plan is applied.
 */
module PlannedWork {
  import opened Wrappers
  import opened Numbers
  import opened Sequences
  import opened Windowing
  import opened BudgetEnvelope
  import opened BudgetArbiter
  import opened DispatchPlans
  import opened RuntimeCalibration
  import opened BudgetLoop

  // ----- Admission -----

  /** Two frames draw on one counter when they are the same or both are frame 0, frame -1 or none. */
  ghost predicate ShareCounter(a: Option<int>, b: Option<int>) {
    a == b || (a in {None, Some(0), Some(-1)} && b in {None, Some(0), Some(-1)})
  }

  lemma CountersAreShared(a: Option<int>, b: Option<int>)
    ensures Account(a) == Account(b) <==> ShareCounter(a, b)
  {
  }

  /** What a command charges to the hot-path counter of a frame. */
  ghost function HotPathCharge(frame: Option<int>): Command -> real {
    (c: Command) => if c.window == HotPath && ShareCounter(c.frame, frame) then c.cost else 0.0
  }

  lemma ChargesAreCounted(packet: seq<Command>, frame: Option<int>)
    ensures Sum(packet, AccountCost(Account(frame), HotPath)) == Sum(packet, HotPathCharge(frame))
  {
    forall i | 0 <= i < |packet|
      ensures AccountCost(Account(frame), HotPath)(packet[i]) == HotPathCharge(frame)(packet[i])
    {
      CountersAreShared(packet[i].frame, frame);
    }
    SumOfSameTerms(packet, AccountCost(Account(frame), HotPath), packet, HotPathCharge(frame));
  }

  /** Hot-path work is admitted exactly when everything charged to its counter so far fits the frame's target. */
  lemma {:induction false} HotPathIsAdmittedExactlyWhen(packet: seq<Command>, targets: map<int, real>, i: nat)
    requires i < |packet| && packet[i].window == HotPath && packet[i].frame.Some?
    ensures ArbitrateAll(packet, Envelopes(packet, targets)).0[i].verdict == AdmitHotPath <==>
            Sum(packet[..i], HotPathCharge(packet[i].frame)) + packet[i].cost <=
            TargetOf(targets, packet[i].frame.value)
    ensures var a := ArbitrateAll(packet, Envelopes(packet, targets)).0[i];
            && a.used == Sum(packet[..i], HotPathCharge(packet[i].frame)) + packet[i].cost
            && a.limit == TargetOf(targets, packet[i].frame.value)
  {
    hide ArbitrateAll, Sum, Adjustments, PreFrameWindow;
    assert packet[i] in packet && packet[i].frame.value in FramesOf(packet);
    ArbitrationAt(packet, Envelopes(packet, targets), i);
    CountersAddUp(packet[..i], Envelopes(packet, targets), Account(packet[i].frame));
    ChargesAreCounted(packet[..i], packet[i].frame);
  }

  /** Frameless hot-path work has no target of its own, so it is admitted exactly while its counter is untouched. */
  lemma {:induction false} FramelessHotPathIsAdmittedExactlyWhen(
    packet: seq<Command>, targets: map<int, real>, i: nat)
    requires i < |packet| && packet[i].window == HotPath && packet[i].frame.None?
    ensures ArbitrateAll(packet, Envelopes(packet, targets)).0[i].verdict == AdmitHotPath <==>
            Sum(packet[..i], HotPathCharge(None)) <= 0.0
  {
    hide ArbitrateAll, Sum, Envelopes;
    ArbitrationAt(packet, Envelopes(packet, targets), i);
    CountersAddUp(packet[..i], Envelopes(packet, targets), Account(None));
    ChargesAreCounted(packet[..i], None);
  }

  /** Every window has its own two verdicts, or its only one. */
  lemma {:induction false} VerdictsFitTheirWindow(packet: seq<Command>, envelopes: map<int, Envelope>, i: nat)
    requires i < |packet|
    ensures var a := ArbitrateAll(packet, envelopes).0[i];
            && a.command == packet[i]
            && match packet[i].window
               case Never => a.verdict == DropWaste
               case PreFrame => a.verdict in {PrestageBeforeFrame, DeferPreFrameOverflow}
               case Setup => a.verdict == PrepareBeforeHotPath
               case HotPath => a.verdict in {AdmitHotPath, SplitOrDeferHotPath}
               case PostPresent => a.verdict == AdmitCurrentPath
  {
    hide ArbitrateAll;
    ArbitrationAt(packet, envelopes, i);
  }

  /** Removed work is dropped, staged work prestaged, what may not run yet deferred, and the rest admitted. */
  lemma {:induction false} StatusesFitTheirWindow(packet: seq<Command>, envelopes: map<int, Envelope>, i: nat)
    requires i < |packet|
    ensures var a := ArbitrateAll(packet, envelopes).0[i];
            && (StatusOf(a.verdict) == Dropped <==> packet[i].window == Never)
            && (StatusOf(a.verdict) == Prestaged <==> a.verdict == PrestageBeforeFrame)
            && (StatusOf(a.verdict) == Deferred <==>
                  || (packet[i].window == PreFrame && a.verdict != PrestageBeforeFrame)
                  || (packet[i].window == HotPath && a.verdict != AdmitHotPath))
  {
    hide ArbitrateAll;
    VerdictsFitTheirWindow(packet, envelopes, i);
  }

  // ----- A frame alone on its counter -----

  /** No other frame, and no frameless work, draws on the frame's hot-path counter. */
  ghost predicate AloneOnHotPath(packet: seq<Command>, frame: int) {
    forall c | c in packet && c.window == HotPath && ShareCounter(c.frame, Some(frame)) :: c.frame == Some(frame)
  }

  lemma {:induction false} OwnChargesOnly(packet: seq<Command>, frame: int)
    requires FromWindowPlan(packet) && AloneOnHotPath(packet, frame)
    ensures Sum(packet, HotPathCharge(Some(frame))) == Sum(packet, EffectCost(frame, ProtectedWork))
  {
    hide Round4;
    forall i | 0 <= i < |packet|
      ensures HotPathCharge(Some(frame))(packet[i]) == EffectCost(frame, ProtectedWork)(packet[i])
    {
      assert packet[i] in packet;
    }
    SumOfSameTerms(packet, HotPathCharge(Some(frame)), packet, EffectCost(frame, ProtectedWork));
  }

  /** If all of a frame's protected work fits its target, each piece of it is admitted. */
  lemma {:induction false} FittingWorkIsAdmitted(packet: seq<Command>, targets: map<int, real>, frame: int, i: nat)
    requires FromWindowPlan(packet) && AloneOnHotPath(packet, frame)
    requires Sum(packet, EffectCost(frame, ProtectedWork)) <= TargetOf(targets, frame)
    requires i < |packet| && packet[i].window == HotPath && packet[i].frame == Some(frame)
    ensures ArbitrateAll(packet, Envelopes(packet, targets)).0[i].verdict == AdmitHotPath
  {
    hide ArbitrateAll, Sum, Round4, Envelopes;
    OwnChargesOnly(packet, frame);
    HotPathIsAdmittedExactlyWhen(packet, targets, i);
    forall c | c in packet ensures 0.0 <= HotPathCharge(Some(frame))(c) {
    }
    assert packet[..|packet|] == packet;
    ChargedBefore(packet, HotPathCharge(Some(frame)), i, |packet|);
  }

  lemma {:induction false} AllProtectedWorkIsAdmitted(packet: seq<Command>, targets: map<int, real>, frame: int)
    requires FromWindowPlan(packet) && AloneOnHotPath(packet, frame)
    requires Sum(packet, EffectCost(frame, ProtectedWork)) <= TargetOf(targets, frame)
    ensures Sum(ArbitrateAll(packet, Envelopes(packet, targets)).0, VerdictCost(frame, AdmitHotPath)) ==
            Sum(packet, EffectCost(frame, ProtectedWork))
  {
    hide ArbitrateAll, Sum, Round4, Envelopes;
    var arbitrations := ArbitrateAll(packet, Envelopes(packet, targets)).0;
    forall i | 0 <= i < |packet|
      ensures VerdictCost(frame, AdmitHotPath)(arbitrations[i]) == EffectCost(frame, ProtectedWork)(packet[i])
    {
      assert packet[i] in packet;
      VerdictsFitTheirWindow(packet, Envelopes(packet, targets), i);
      if packet[i].window == HotPath && packet[i].frame == Some(frame) {
        FittingWorkIsAdmitted(packet, targets, frame, i);
      }
    }
    SumOfSameTerms(arbitrations, VerdictCost(frame, AdmitHotPath), packet, EffectCost(frame, ProtectedWork));
  }

  // ----- Routed work, planned work -----

  /** No route but the frame's own protects work on the frame's counter. */
  ghost predicate RoutedAlone(routes: seq<Route>, frame: int) {
    forall r | r in routes && r.directive == ProtectPresentationRoute && ShareCounter(r.frame, Some(frame)) ::
      r.frame == Some(frame)
  }

  lemma {:induction false} SlotsComeFromRoutes(routes: seq<Route>, c: Command)
    requires c in Slots(routes)
    ensures exists r :: r in routes && Has(r.directive, c.effect) && r.frame == c.frame
  {
    hide Round4;
    var prior, last := routes[..|routes| - 1], routes[|routes| - 1];
    assert routes == prior + [last];
    if c in Slots(prior) {
      SlotsComeFromRoutes(prior, c);
    } else {
      assert Has(last.directive, c.effect);
    }
  }

  lemma {:induction false} AloneInThePacket(routes: seq<Route>, frame: int)
    requires (forall r | r in routes :: 0.0 <= r.cost) && RoutedAlone(routes, frame)
    ensures AloneOnHotPath(BuildPacket(routes), frame)
  {
    hide Round4;
    PacketsComeFromWindowPlans(routes);
    forall c | c in BuildPacket(routes) && c.window == HotPath && ShareCounter(c.frame, Some(frame))
      ensures c.frame == Some(frame)
    {
      SortKeepsMembers(Slots(routes), SlotLeq, c);
      SlotsComeFromRoutes(routes, c);
    }
  }

  lemma EffectsOfAFrame(packet: seq<Command>, frame: int, effect: Effect)
    ensures Sum(packet, EffectCost(frame, effect)) == Sum(packet, PacketCost(Some(frame), effect))
  {
    SumOfSameTerms(packet, EffectCost(frame, effect), packet, PacketCost(Some(frame), effect));
  }

  /**
    A frame that is alone on its counter and whose protected routes fit its target is
    planned at exactly the rounded cost of those routes.
   */
  lemma {:induction false} FittingWorkIsPlannedExactly(
    routes: seq<Route>, frames: seq<FrameRecord>, layers: seq<MemoryLayer>, i: nat)
    requires forall r | r in routes :: 0.0 <= r.cost
    requires i < |frames| && forall a, b | 0 <= a < b < |frames| :: frames[a].frame != frames[b].frame
    requires RoutedAlone(routes, frames[i].frame)
    requires Sum(routes, RoutedCost(Some(frames[i].frame), ProtectedWork)) <= frames[i].target
    ensures CalibrateFrame(Pipeline(routes, frames, layers), frames[i]).plannedCurrent ==
            Sum(routes, RoutedCost(Some(frames[i].frame), ProtectedWork))
  {
    hide ArbitrateAll, BuildPacket, DispatchPlan, ExecutePlan, Envelopes, FrameTargets, FromWindowPlan,
         FramesOf, MemoryActions, RoutedCost, Sum, RoutedAlone, AloneOnHotPath;
    var packet, targets, frame := BuildPacket(routes), FrameTargets(frames), frames[i].frame;
    PacketsComeFromWindowPlans(routes);
    TargetsAreTheFrames(frames, i);
    PacketCarriesTheWork(routes, Some(frame), ProtectedWork);
    EffectsOfAFrame(packet, frame, ProtectedWork);
    AloneInThePacket(routes, frame);
    AllProtectedWorkIsAdmitted(packet, targets, frame);
    PlannedIsAdmitted(packet, Envelopes(packet, targets), MemoryActions(layers), frame);
  }

  ghost function FrameCost(frame: int): Command -> real {
    (c: Command) => if c.frame == Some(frame) then c.cost else 0.0
  }

  /** The four simulated sums of a frame add up to all its commands. */
  lemma {:induction false} SimulationSplitsTheFrame(packet: seq<Command>, frame: int)
    requires FromWindowPlan(packet)
    ensures var f := SimulateFrame(packet, frame);
            f.frame == frame && f.removed + f.prestaged + f.setup + f.protected == Sum(packet, FrameCost(frame))
  {
    hide Round4;
    if packet != [] {
      var prior, last := packet[..|packet| - 1], packet[|packet| - 1];
      assert FromWindowPlan(prior) && last in packet;
      SimulationSplitsTheFrame(prior, frame);
    }
  }

  // ----- Every cost ends up somewhere -----

  /** The columns of the applied plan. */
  datatype Part = RunNow | MovedAhead | Saved | PutOff

  function Amount(part: Part, s: Step): real {
    match part
    case RunNow => s.currentFrame
    case MovedAhead => s.preFrame
    case Saved => s.avoided
    case PutOff => s.deferred
  }

  ghost function Column(frame: Option<int>, part: Part): Step -> real {
    (s: Step) => if s.frame == frame then Amount(part, s) else 0.0
  }

  /** The cost of a frame's commands that got one of the verdicts. */
  ghost function JudgedCost(frame: Option<int>, verdicts: set<ArbiterAction>): Arbitration -> real {
    (a: Arbitration) => if a.command.frame == frame && a.verdict in verdicts then a.command.cost else 0.0
  }

  ghost function Applied(column: Step -> real): Dispatch -> real {
    (d: Dispatch) => column(Execute(RoundedDispatch(d)))
  }

  /** Sorting and applying a plan sums a column over its commands in whatever order they came. */
  lemma {:induction false} ColumnOfPlan(
    arbitrations: seq<Arbitration>, actions: seq<MemoryAction>, column: Step -> real, spec: Arbitration -> real)
    requires forall i | 0 <= i < |arbitrations| ::
               column(Execute(RoundedDispatch(DispatchOf(arbitrations[i])))) == spec(arbitrations[i])
    requires forall a: MemoryAction :: column(Execute(RoundedDispatch(DispatchOfMemory(a)))) == 0.0
    ensures Sum(ExecutePlan(DispatchPlan(arbitrations, actions)), column) == Sum(arbitrations, spec)
  {
    hide Execute, RoundedDispatch, DispatchOf, DispatchOfMemory, Sum, Sort;
    var operations, memory := Mapped(arbitrations, DispatchOf), Mapped(actions, DispatchOfMemory);
    var sorted := Sort(operations + memory, DispatchLeq);
    var steps := ExecutePlan(DispatchPlan(arbitrations, actions));
    SumOfSameTerms(steps, column, sorted, Applied(column));
    SortSum(operations + memory, DispatchLeq, Applied(column));
    SumOfConcat(operations, memory, Applied(column));
    SumOfSameTerms(operations, Applied(column), arbitrations, spec);
    forall d | d in memory ensures Applied(column)(d) == 0.0 {
      var k :| 0 <= k < |memory| && memory[k] == d;
      assert d == DispatchOfMemory(actions[k]);
    }
    SumOfNothing(memory, Applied(column));
  }

  lemma ColumnsOfOne(a: Arbitration, frame: Option<int>)
    requires frame.Some? && Round4(a.command.cost) == a.command.cost
    ensures var step := Execute(RoundedDispatch(DispatchOf(a)));
            && Column(frame, RunNow)(step) == JudgedCost(frame, {AdmitHotPath, AdmitCurrentPath})(a)
            && Column(frame, MovedAhead)(step) == JudgedCost(frame, {PrestageBeforeFrame})(a)
            && Column(frame, Saved)(step) == JudgedCost(frame, {DropWaste})(a)
            && Column(frame, PutOff)(step) == JudgedCost(frame, {DeferPreFrameOverflow, SplitOrDeferHotPath})(a)
  {
    hide Round4;
    match a.verdict {
      case DropWaste => case PrestageBeforeFrame => case DeferPreFrameOverflow => case PrepareBeforeHotPath =>
      case AdmitHotPath => case SplitOrDeferHotPath => case AdmitCurrentPath =>
    }
  }

  /** Each column of the applied plan holds exactly the work with the verdicts it stands for. */
  lemma {:induction false} ColumnsHoldTheVerdicts(
    arbitrations: seq<Arbitration>, actions: seq<MemoryAction>, frame: Option<int>)
    requires frame.Some? && forall a | a in arbitrations :: Round4(a.command.cost) == a.command.cost
    ensures var steps := ExecutePlan(DispatchPlan(arbitrations, actions));
            && Sum(steps, Column(frame, RunNow)) ==
               Sum(arbitrations, JudgedCost(frame, {AdmitHotPath, AdmitCurrentPath}))
            && Sum(steps, Column(frame, MovedAhead)) == Sum(arbitrations, JudgedCost(frame, {PrestageBeforeFrame}))
            && Sum(steps, Column(frame, Saved)) == Sum(arbitrations, JudgedCost(frame, {DropWaste}))
            && Sum(steps, Column(frame, PutOff)) ==
               Sum(arbitrations, JudgedCost(frame, {DeferPreFrameOverflow, SplitOrDeferHotPath}))
  {
    hide Round4, Sum, DispatchPlan, ExecutePlan, JudgedCost, DispatchOf;
    forall i | 0 <= i < |arbitrations|
      ensures var step := Execute(RoundedDispatch(DispatchOf(arbitrations[i])));
              && Column(frame, RunNow)(step) ==
                 JudgedCost(frame, {AdmitHotPath, AdmitCurrentPath})(arbitrations[i])
              && Column(frame, MovedAhead)(step) == JudgedCost(frame, {PrestageBeforeFrame})(arbitrations[i])
              && Column(frame, Saved)(step) == JudgedCost(frame, {DropWaste})(arbitrations[i])
              && Column(frame, PutOff)(step) ==
                 JudgedCost(frame, {DeferPreFrameOverflow, SplitOrDeferHotPath})(arbitrations[i])
    {
      assert arbitrations[i] in arbitrations;
      ColumnsOfOne(arbitrations[i], frame);
    }
    ColumnOfPlan(arbitrations, actions, Column(frame, RunNow), JudgedCost(frame, {AdmitHotPath, AdmitCurrentPath}));
    ColumnOfPlan(arbitrations, actions, Column(frame, MovedAhead), JudgedCost(frame, {PrestageBeforeFrame}));
    ColumnOfPlan(arbitrations, actions, Column(frame, Saved), JudgedCost(frame, {DropWaste}));
    ColumnOfPlan(arbitrations, actions, Column(frame, PutOff),
        JudgedCost(frame, {DeferPreFrameOverflow, SplitOrDeferHotPath}));
  }

  lemma {:induction false} SumsAdd<S, T>(items: seq<S>, f: S -> real, g: S -> real, others: seq<T>, h: T -> real)
    requires |items| == |others| && forall i | 0 <= i < |items| :: f(items[i]) + g(items[i]) == h(others[i])
    ensures Sum(items, f) + Sum(items, g) == Sum(others, h)
    decreases |items|
  {
    if items != [] {
      SumsAdd(items[..|items| - 1], f, g, others[..|others| - 1], h);
    }
  }

  ghost function StagedOrProtected(frame: Option<int>): Command -> real {
    (c: Command) =>
      if c.frame == frame && (c.effect == PrestagedWork || c.effect == ProtectedWork) then c.cost else 0.0
  }

  lemma Judged(packet: seq<Command>, envelopes: map<int, Envelope>, frame: Option<int>, i: nat)
    requires FromWindowPlan(packet) && i < |packet|
    ensures var a := ArbitrateAll(packet, envelopes).0[i];
            && JudgedCost(frame, {DropWaste})(a) == PacketCost(frame, RemovedWork)(packet[i])
            && JudgedCost(frame, {AdmitHotPath, AdmitCurrentPath, PrestageBeforeFrame})(a)
               + JudgedCost(frame, {DeferPreFrameOverflow, SplitOrDeferHotPath})(a) ==
               StagedOrProtected(frame)(packet[i])
            && JudgedCost(frame, {AdmitHotPath, AdmitCurrentPath})(a) + JudgedCost(frame, {PrestageBeforeFrame})(a) ==
               JudgedCost(frame, {AdmitHotPath, AdmitCurrentPath, PrestageBeforeFrame})(a)
  {
    hide ArbitrateAll, Round4;
    assert packet[i] in packet;
    VerdictsFitTheirWindow(packet, envelopes, i);
  }

  /**
    Applying the plan of a packet loses no cost: a frame's removed work is reported as
    avoided, and its staged and protected work is moved ahead, run now or deferred.
   */
  lemma {:induction false} WorkIsConserved(
    packet: seq<Command>, envelopes: map<int, Envelope>, actions: seq<MemoryAction>, frame: int)
    requires FromWindowPlan(packet)
    ensures var steps := ExecutePlan(DispatchPlan(ArbitrateAll(packet, envelopes).0, actions));
            && Sum(steps, Column(Some(frame), Saved)) == Sum(packet, PacketCost(Some(frame), RemovedWork))
            && Sum(steps, Column(Some(frame), RunNow)) + Sum(steps, Column(Some(frame), MovedAhead))
               + Sum(steps, Column(Some(frame), PutOff)) == Sum(packet, StagedOrProtected(Some(frame)))
  {
    hide ArbitrateAll, Sum, Round4, DispatchPlan, ExecutePlan, JudgedCost, PacketCost, StagedOrProtected, Column;
    var f := Some(frame);
    var arbitrations := ArbitrateAll(packet, envelopes).0;
    forall i | 0 <= i < |packet|
      ensures arbitrations[i].command == packet[i]
      ensures JudgedCost(f, {DropWaste})(arbitrations[i]) == PacketCost(f, RemovedWork)(packet[i])
      ensures JudgedCost(f, {AdmitHotPath, AdmitCurrentPath, PrestageBeforeFrame})(arbitrations[i])
              + JudgedCost(f, {DeferPreFrameOverflow, SplitOrDeferHotPath})(arbitrations[i]) ==
              StagedOrProtected(f)(packet[i])
      ensures JudgedCost(f, {AdmitHotPath, AdmitCurrentPath})(arbitrations[i])
              + JudgedCost(f, {PrestageBeforeFrame})(arbitrations[i]) ==
              JudgedCost(f, {AdmitHotPath, AdmitCurrentPath, PrestageBeforeFrame})(arbitrations[i])
    {
      VerdictsFitTheirWindow(packet, envelopes, i);
      Judged(packet, envelopes, f, i);
    }
    forall a | a in arbitrations ensures Round4(a.command.cost) == a.command.cost {
      var k :| 0 <= k < |arbitrations| && arbitrations[k] == a;
      assert packet[k] in packet;
    }
    ColumnsHoldTheVerdicts(arbitrations, actions, f);
    SumOfSameTerms(arbitrations, JudgedCost(f, {DropWaste}), packet, PacketCost(f, RemovedWork));
    SumsAdd(arbitrations, JudgedCost(f, {AdmitHotPath, AdmitCurrentPath}), JudgedCost(f, {PrestageBeforeFrame}),
        arbitrations, JudgedCost(f, {AdmitHotPath, AdmitCurrentPath, PrestageBeforeFrame}));
    SumsAdd(arbitrations, JudgedCost(f, {AdmitHotPath, AdmitCurrentPath, PrestageBeforeFrame}),
        JudgedCost(f, {DeferPreFrameOverflow, SplitOrDeferHotPath}), packet, StagedOrProtected(f));
  }
}
