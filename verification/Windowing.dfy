/**
  Routed work and the execution packet built from it: which window each operation
  gets, and the order of its commands.  Costs are milliseconds in exact arithmetic,
  rounded to four decimals as they enter the packet.
 */
module Windowing {
  import opened Wrappers
  import opened Numbers
  import opened Sequences

  /** A routed operation: what to do with it, when, and what it costs. */
  datatype Directive =
    | SuppressRedundantHop
    | ReuseTransientAllocation
    | RemoveSyncWait
    | PrestageCrossMemoryTransfer
    | PoolTransientAllocation
    | ProtectPresentationRoute
    | OtherDirective

  datatype Route = Route(directive: Directive, operationId: string, frame: Option<int>, cost: real, value: real)

  datatype Window = Never | PreFrame | Setup | HotPath | PostPresent

  function WindowOrder(window: Window): int {
    match window
    case Never => 0 case PreFrame => 1 case Setup => 2 case HotPath => 3 case PostPresent => 4
  }

  datatype Effect = RemovedWork | PrestagedWork | SetupWork | ProtectedWork | IgnoredWork

  /** Window and simulated effect of a directive that earns a slot. */
  function Classify(directive: Directive): Option<(Window, Effect)> {
    match directive
    case SuppressRedundantHop | ReuseTransientAllocation | RemoveSyncWait => Some((Never, RemovedWork))
    case PrestageCrossMemoryTransfer => Some((PreFrame, PrestagedWork))
    case PoolTransientAllocation => Some((Setup, SetupWork))
    case ProtectPresentationRoute => Some((HotPath, ProtectedWork))
    case OtherDirective => None
  }

  datatype Command = Command(
    operationId: string, frame: Option<int>, window: Window, effect: Effect, cost: real, value: real)

  function FrameRank(frame: Option<int>): int {
    frame.GetOr(-1)
  }

  predicate SlotLeq(a: Command, b: Command) {
    if FrameRank(a.frame) != FrameRank(b.frame) then FrameRank(a.frame) < FrameRank(b.frame)
    else if WindowOrder(a.window) != WindowOrder(b.window) then WindowOrder(a.window) < WindowOrder(b.window)
    else TextLeq(a.operationId, b.operationId)
  }

  function Slots(routes: seq<Route>): seq<Command> {
    if routes == [] then []
    else
      var last := routes[|routes| - 1];
      match Classify(last.directive)
      case None => Slots(routes[..|routes| - 1])
      case Some((window, effect)) =>
        Slots(routes[..|routes| - 1])
        + [Command(last.operationId, last.frame, window, effect, Round4(last.cost), Round4(last.value))]
  }

  /** The execution packet of a frame window plan. */
  function BuildPacket(routes: seq<Route>): seq<Command> {
    Sort(Slots(routes), SlotLeq)
  }

  predicate NonNegativeCosts(commands: seq<Command>) {
    forall c | c in commands :: 0.0 <= c.cost
  }

  /** What every packet of a window plan looks like. */
  ghost predicate FromWindowPlan(packet: seq<Command>) {
    forall c | c in packet ::
      && c.window != PostPresent && 0.0 <= c.cost && Round4(c.cost) == c.cost
      && (c.window == Never <==> c.effect == RemovedWork) && (c.window == PreFrame <==> c.effect == PrestagedWork)
      && (c.window == Setup <==> c.effect == SetupWork) && (c.window == HotPath <==> c.effect == ProtectedWork)
  }

  lemma {:induction false} SlotsAreRounded(routes: seq<Route>)
    requires forall r | r in routes :: 0.0 <= r.cost
    ensures FromWindowPlan(Slots(routes))
  {
    hide Round4;
    if routes != [] {
      var last := routes[|routes| - 1];
      SlotsAreRounded(routes[..|routes| - 1]);
      RoundingIsIdempotent(last.cost);
      RoundingKeepsSign(last.cost);
    }
  }

  lemma {:induction false} PacketsComeFromWindowPlans(routes: seq<Route>)
    requires forall r | r in routes :: 0.0 <= r.cost
    ensures FromWindowPlan(BuildPacket(routes))
  {
    hide Round4;
    SlotsAreRounded(routes);
    forall c | c in BuildPacket(routes)
      ensures c in Slots(routes)
    {
      SortKeepsMembers(Slots(routes), SlotLeq, c);
    }
  }

  // ----- Nothing routed is lost -----

  /** The directives whose work is simulated with an effect. */
  ghost predicate Has(directive: Directive, effect: Effect) {
    match effect
    case RemovedWork => directive in {SuppressRedundantHop, ReuseTransientAllocation, RemoveSyncWait}
    case PrestagedWork => directive == PrestageCrossMemoryTransfer
    case SetupWork => directive == PoolTransientAllocation
    case ProtectedWork => directive == ProtectPresentationRoute
    case IgnoredWork => false
  }

  /** The rounded cost a route adds to a frame's work of one effect. */
  ghost function RoutedCost(frame: Option<int>, effect: Effect): Route -> real {
    (r: Route) => if r.frame == frame && Has(r.directive, effect) then Round4(r.cost) else 0.0
  }

  ghost function PacketCost(frame: Option<int>, effect: Effect): Command -> real {
    (c: Command) => if c.frame == frame && c.effect == effect then c.cost else 0.0
  }

  lemma LastSlot(routes: seq<Route>, frame: Option<int>, effect: Effect) returns (added: seq<Command>)
    requires routes != []
    ensures Slots(routes) == Slots(routes[..|routes| - 1]) + added
    ensures Sum(added, PacketCost(frame, effect)) == RoutedCost(frame, effect)(routes[|routes| - 1])
  {
    hide Round4;
    var last := routes[|routes| - 1];
    match Classify(last.directive) {
      case None =>
        added := [];
        SumOfNothing(added, PacketCost(frame, effect));
      case Some((window, slotEffect)) =>
        var slot := Command(last.operationId, last.frame, window, slotEffect, Round4(last.cost), Round4(last.value));
        added := [slot];
        SumOfOne(slot, PacketCost(frame, effect));
    }
  }

  lemma {:induction false} SlotsCarryTheWork(routes: seq<Route>, frame: Option<int>, effect: Effect)
    ensures Sum(Slots(routes), PacketCost(frame, effect)) == Sum(routes, RoutedCost(frame, effect))
  {
    if routes != [] {
      SlotsCarryTheWork(routes[..|routes| - 1], frame, effect);
      var added := LastSlot(routes, frame, effect);
      hide Slots, PacketCost, RoutedCost;
      SumOfConcat(Slots(routes[..|routes| - 1]), added, PacketCost(frame, effect));
    }
  }

  /** For every frame and effect the packet costs what was routed. */
  lemma PacketCarriesTheWork(routes: seq<Route>, frame: Option<int>, effect: Effect)
    ensures Sum(BuildPacket(routes), PacketCost(frame, effect)) == Sum(routes, RoutedCost(frame, effect))
  {
    SlotsCarryTheWork(routes, frame, effect);
    SortSum(Slots(routes), SlotLeq, PacketCost(frame, effect));
  }

  /** Commands come by frame, frameless ones before frame 0; then removed, staged, prepared, protected; then by id. */
  ghost predicate InPacketOrder(a: Command, b: Command) {
    var (f, g) := (if a.frame.Some? then a.frame.value else -1, if b.frame.Some? then b.frame.value else -1);
    || f < g
    || (f == g && Turn(a.effect) < Turn(b.effect))
    || (f == g && Turn(a.effect) == Turn(b.effect) && TextLeq(a.operationId, b.operationId))
  }

  ghost function Turn(effect: Effect): int {
    match effect
    case RemovedWork => 1 case PrestagedWork => 2 case SetupWork => 3 case ProtectedWork => 4 case IgnoredWork => 5
  }

  lemma SlotOrderIsTotal()
    ensures TotalPreorder(SlotLeq)
  {
    forall x: Command, y: Command, z: Command
      ensures SlotLeq(x, y) || SlotLeq(y, x)
      ensures SlotLeq(x, y) && SlotLeq(y, z) ==> SlotLeq(x, z)
    {
      TextOrderIsTotal(x.operationId, y.operationId);
      if TextLeq(x.operationId, y.operationId) && TextLeq(y.operationId, z.operationId) {
        TextOrderIsTransitive(x.operationId, y.operationId, z.operationId);
      }
    }
  }

  lemma PacketsAreInOrder(routes: seq<Route>)
    requires forall r | r in routes :: 0.0 <= r.cost
    ensures Sorted(BuildPacket(routes), InPacketOrder)
  {
    hide Round4, Sort, TextLeq, TotalPreorder;
    PacketsComeFromWindowPlans(routes);
    SlotOrderIsTotal();
    SortSorts(Slots(routes), SlotLeq);
    var packet := BuildPacket(routes);
    forall i, j | 0 <= i < j < |packet|
      ensures InPacketOrder(packet[i], packet[j])
    {
      assert packet[i] in packet && packet[j] in packet && SlotLeq(packet[i], packet[j]);
    }
  }
}
