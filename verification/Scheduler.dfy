/**
  The frame scheduler: executed operations laid out frame by frame, with large
  transfers moved ahead of the frame and releases placed behind it.
 */
module Scheduler {
  import opened Wrappers
  import opened Sequences
  import opened Runtime
  import opened Ledger

  datatype LifetimeKind = PrefetchBeforeFrame | ReleaseAfterFrame | OtherAction

  datatype LifetimeAction = LifetimeAction(
    kind: LifetimeKind, resourceId: string, targetFrame: Option<int>, size: nat, priority: int,
    sourceOperation: Option<string>)

  datatype Phase = Prefetch | SyncPhase | Prepare | Critical | Work | Cleanup

  datatype Item = OperationItem(operation: Operation) | LifetimeItem(action: LifetimeAction)

  datatype Slot = Slot(phase: Phase, frame: int, item: Item)

  datatype ScheduledStep = ScheduledStep(sequence: nat, slot: Slot)

  datatype FrameSchedule = FrameSchedule(
    frame: int, target: real, before: real, after: real, movedCost: real, movedSize: real,
    withinBefore: bool, withinAfter: bool, stepCount: nat)

  datatype SchedulerPlan = SchedulerPlan(
    stepCount: nat, before: real, after: real, latencyReduction: real, movedSize: real,
    frames: seq<FrameSchedule>, steps: seq<ScheduledStep>)

  // ----- The parts of one frame -----

  function PrefetchIds(actions: seq<LifetimeAction>): set<string> {
    set a | a in actions && a.kind == PrefetchBeforeFrame && a.sourceOperation.Some? && a.sourceOperation.value != ""
      :: a.sourceOperation.value
  }

  /** Selects the items filed under a frame. */
  function FiledUnder<T>(key: T -> Option<int>, frame: int): T -> bool {
    (x: T) => key(x) == Some(frame)
  }

  function FrameOf(op: Operation): Option<int> {
    op.frame
  }

  function ReleaseFrame(action: LifetimeAction): Option<int> {
    if action.kind == ReleaseAfterFrame then action.targetFrame else None
  }

  function Among(ids: set<string>): Operation -> bool {
    (o: Operation) => o.id in ids
  }

  function NotAmong(ids: set<string>): Operation -> bool {
    (o: Operation) => o.id !in ids
  }

  function KindOrder(kind: OpKind): nat {
    match kind
    case Sync => 0
    case Copy | Upload => 1
    case Compute => 2
    case Draw => 3
    case Present => 4
    case Allocate => 5
  }

  function PhaseOf(op: Operation): Phase {
    match op.kind
    case Copy | Upload => Prepare
    case Draw | Compute | Present => Critical
    case Sync => SyncPhase
    case Allocate => Work
  }

  predicate IdLeq(a: Operation, b: Operation) {
    TextLeq(a.id, b.id)
  }

  predicate KindLeq(a: Operation, b: Operation) {
    KindOrder(a.kind) < KindOrder(b.kind) || (KindOrder(a.kind) == KindOrder(b.kind) && TextLeq(a.id, b.id))
  }

  predicate UrgencyLeq(a: LifetimeAction, b: LifetimeAction) {
    a.priority > b.priority || (a.priority == b.priority && TextLeq(a.resourceId, b.resourceId))
  }

  function MovedSlot(frame: int): Operation -> Slot {
    (o: Operation) => Slot(Prefetch, frame, OperationItem(o))
  }

  function KeptSlot(frame: int): Operation -> Slot {
    (o: Operation) => Slot(PhaseOf(o), frame, OperationItem(o))
  }

  function ReleaseSlot(frame: int): LifetimeAction -> Slot {
    (a: LifetimeAction) => Slot(Cleanup, frame, LifetimeItem(a))
  }

  /** The slots of a frame, from its operations, the prefetched ids and its releases. */
  function SlotsFor(frameOps: seq<Operation>, ids: set<string>, releases: seq<LifetimeAction>, frame: int): seq<Slot> {
    Mapped(Sort(Filter(frameOps, Among(ids)), IdLeq), MovedSlot(frame)) +
    Mapped(Sort(Filter(frameOps, NotAmong(ids)), KindLeq), KeptSlot(frame)) +
    Mapped(Sort(releases, UrgencyLeq), ReleaseSlot(frame))
  }

  function OperationsAt(ops: seq<Operation>, frame: int): seq<Operation> {
    Filter(ops, FiledUnder(FrameOf, frame))
  }

  function MovedAt(ops: seq<Operation>, actions: seq<LifetimeAction>, frame: int): seq<Operation> {
    Filter(OperationsAt(ops, frame), Among(PrefetchIds(actions)))
  }

  function FrameSlots(ops: seq<Operation>, actions: seq<LifetimeAction>, frame: int): seq<Slot> {
    SlotsFor(OperationsAt(ops, frame), PrefetchIds(actions), Filter(actions, FiledUnder(ReleaseFrame, frame)), frame)
  }

  function CostOf(op: Operation): real { op.cost }

  function SizeOf(op: Operation): real { op.size as real }

  function ScheduleFrame(
    ops: seq<Operation>, actions: seq<LifetimeAction>, targets: map<int, real>, costs: map<int, real>, frame: int)
    : FrameSchedule
  {
    var target := if frame in targets then targets[frame] else DEFAULT_FRAME_BUDGET;
    var before := if frame in costs then costs[frame] else Sum(OperationsAt(ops, frame), CostOf);
    var moved := MovedAt(ops, actions, frame);
    var movedCost := Sum(moved, CostOf);
    var after := if before - movedCost > 0.0 then before - movedCost else 0.0;
    FrameSchedule(frame, target, before, after, movedCost, Sum(moved, SizeOf), before <= target, after <= target,
                  |FrameSlots(ops, actions, frame)|)
  }

  // ----- The whole schedule -----

  /** The frames something is filed under. */
  ghost function Filed<T>(items: seq<T>, key: T -> Option<int>): set<int> {
    set x | x in items && key(x).Some? :: key(x).value
  }

  ghost function FrameOrder(ops: seq<Operation>, targets: map<int, real>, costs: map<int, real>): seq<int> {
    InOrder(targets.Keys + costs.Keys + Filed(ops, FrameOf))
  }

  function AllSlots(ops: seq<Operation>, actions: seq<LifetimeAction>, order: seq<int>): seq<Slot> {
    if order == [] then []
    else AllSlots(ops, actions, order[..|order| - 1]) + FrameSlots(ops, actions, order[|order| - 1])
  }

  function Numbered(slots: seq<Slot>): (r: seq<ScheduledStep>)
    ensures |r| == |slots|
  {
    seq(|slots|, i requires 0 <= i < |slots| => ScheduledStep(i + 1, slots[i]))
  }

  function BeforeOf(f: FrameSchedule): real { f.before }

  function AfterOf(f: FrameSchedule): real { f.after }

  function MovedCostOf(f: FrameSchedule): real { f.movedCost }

  function MovedSizeOf(f: FrameSchedule): real { f.movedSize }

  function FrameSchedules(
    ops: seq<Operation>, actions: seq<LifetimeAction>, targets: map<int, real>, costs: map<int, real>, order: seq<int>)
    : (r: seq<FrameSchedule>)
    ensures |r| == |order|
  {
    seq(|order|, i requires 0 <= i < |order| => ScheduleFrame(ops, actions, targets, costs, order[i]))
  }

  lemma FrameScheduleAt(
    ops: seq<Operation>, actions: seq<LifetimeAction>, targets: map<int, real>, costs: map<int, real>,
        order: seq<int>, i: nat)
    requires i < |order|
    ensures FrameSchedules(ops, actions, targets, costs, order)[i] == ScheduleFrame(ops, actions, targets, costs,
        order[i])
  {}

  /** The plan with its totals. */
  function Totalled(frames: seq<FrameSchedule>, steps: seq<ScheduledStep>): SchedulerPlan {
    var before, after := Sum(frames, BeforeOf), Sum(frames, AfterOf);
    SchedulerPlan(|steps|, before, after, if before - after > 0.0 then before - after else 0.0,
                  Sum(frames, MovedSizeOf), frames, steps)
  }

  ghost function Schedule(
    ops: seq<Operation>, actions: seq<LifetimeAction>, targets: map<int, real>, costs: map<int, real>): SchedulerPlan
  {
    var order := FrameOrder(ops, targets, costs);
    Totalled(FrameSchedules(ops, actions, targets, costs, order), Numbered(AllSlots(ops, actions, order)))
  }

  // ----- The loops -----

  lemma FilterOneMore<T>(items: seq<T>, x: T, keep: T -> bool)
    ensures Filter(items + [x], keep) == Filter(items, keep) + if keep(x) then [x] else []
  {
    assert (items + [x])[..|items|] == items;
  }

  lemma FiledOneMore<T>(items: seq<T>, x: T, key: T -> Option<int>)
    ensures Filed(items + [x], key) == Filed(items, key) + if key(x).Some? then {key(x).value} else {}
  {
    var longer := items + [x];
    forall f | f in Filed(items, key) + if key(x).Some? then {key(x).value} else {}
      ensures f in Filed(longer, key)
    {
      if f in Filed(items, key) {
        var y :| y in items && key(y) == Some(f);
        assert y in longer;
      } else {
        assert x in longer;
      }
    }
  }

  function Entry<T>(byFrame: map<int, seq<T>>, frame: int): seq<T> {
    if frame in byFrame then byFrame[frame] else []
  }

  ghost predicate Groups<T>(byFrame: map<int, seq<T>>, items: seq<T>, key: T -> Option<int>) {
    && byFrame.Keys == Filed(items, key)
    && forall f :: Entry(byFrame, f) == Filter(items, FiledUnder(key, f))
  }

  function FileOne<T>(byFrame: map<int, seq<T>>, item: T, key: T -> Option<int>): map<int, seq<T>> {
    match key(item)
    case None => byFrame
    case Some(f) => byFrame[f := Entry(byFrame, f) + [item]]
  }

  lemma FilingOneMore<T>(byFrame: map<int, seq<T>>, items: seq<T>, item: T, key: T -> Option<int>)
    requires Groups(byFrame, items, key)
    ensures Groups(FileOne(byFrame, item, key), items + [item], key)
  {
    hide Filter, Filed;
    var after := FileOne(byFrame, item, key);
    FiledOneMore(items, item, key);
    forall f
      ensures Entry(after, f) == Filter(items + [item], FiledUnder(key, f))
    {
      FilterOneMore(items, item, FiledUnder(key, f));
      assert Entry(byFrame, f) == Filter(items, FiledUnder(key, f));
    }
  }

  /** Files items under their frames, keeping their order. */
  method GroupByFrame<T>(items: seq<T>, key: T -> Option<int>) returns (byFrame: map<int, seq<T>>)
    ensures Groups(byFrame, items, key)
  {
    byFrame := map[];
    for i := 0 to |items|
      invariant Groups(byFrame, items[..i], key)
    {
      hide Groups;
      assert items[..i + 1] == items[..i] + [items[i]];
      FilingOneMore(byFrame, items[..i], items[i], key);
      if key(items[i]).Some? {
        var f := key(items[i]).value;
        byFrame := byFrame[f := Entry(byFrame, f) + [items[i]]];
      }
    }
    assert items[..|items|] == items;
  }

  lemma GroupedFrames<T>(byFrame: map<int, seq<T>>, items: seq<T>, key: T -> Option<int>)
    requires Groups(byFrame, items, key)
    ensures byFrame.Keys == Filed(items, key)
  {}

  /** Appends one step per item, counting on from `sequence`. */
  method AppendSteps<T>(steps: seq<ScheduledStep>, sequence: nat, items: seq<T>, slotOf: T -> Slot,
      ghost slots: seq<Slot>)
    returns (longer: seq<ScheduledStep>, next: nat)
    requires steps == Numbered(slots) && sequence == |slots| + 1
    ensures longer == Numbered(slots + Mapped(items, slotOf)) && next == |slots| + |items| + 1
  {
    longer, next := steps, sequence;
    for i := 0 to |items|
      invariant longer == Numbered(slots + Mapped(items, slotOf)[..i]) && next == |slots| + i + 1
    {
      longer := longer + [ScheduledStep(next, slotOf(items[i]))];
      next := next + 1;
    }
    assert Mapped(items, slotOf)[..|items|] == Mapped(items, slotOf);
  }

  function OfFrame(frame: int): ScheduledStep -> bool {
    (s: ScheduledStep) => s.slot.frame == frame
  }

  /** Counting a frame's steps among all steps so far finds exactly those just added. */
  lemma {:induction false} CountFindsTheFrame(slots: seq<Slot>, added: seq<Slot>, frame: int)
    requires forall i | 0 <= i < |slots| :: slots[i].frame != frame
    requires forall i | 0 <= i < |added| :: added[i].frame == frame
    ensures |Filter(Numbered(slots + added), OfFrame(frame))| == |added|
  {
    hide Filter;
    var all := Numbered(slots + added);
    var earlier, later := all[..|slots|], all[|slots|..];
    assert all == earlier + later;
    FilterOfConcat(earlier, later, OfFrame(frame));
    FilterOfNone(earlier, OfFrame(frame));
    FilterOfAll(later, OfFrame(frame));
  }

  lemma FrameSlotsBelong(ops: seq<Operation>, actions: seq<LifetimeAction>, frame: int)
    ensures forall i | 0 <= i < |FrameSlots(ops, actions, frame)| :: FrameSlots(ops, actions, frame)[i].frame == frame
  {
    hide Sort, Filter;
  }

  lemma {:induction false} SlotsNameTheOrder(ops: seq<Operation>, actions: seq<LifetimeAction>, order: seq<int>)
    ensures forall i | 0 <= i < |AllSlots(ops, actions, order)| :: AllSlots(ops, actions, order)[i].frame in order
  {
    hide FrameSlots;
    if order != [] {
      SlotsNameTheOrder(ops, actions, order[..|order| - 1]);
      FrameSlotsBelong(ops, actions, order[|order| - 1]);
    }
  }

  /** One turn of the scheduling loop: the frame's steps and its summary. */
  method ScheduleOneFrame(
    ops: seq<Operation>, actions: seq<LifetimeAction>, targets: map<int, real>, costs: map<int, real>,
    byFrame: map<int, seq<Operation>>, releasesByFrame: map<int, seq<LifetimeAction>>, frame: int,
    steps: seq<ScheduledStep>, sequence: nat, ghost slots: seq<Slot>)
    returns (longer: seq<ScheduledStep>, next: nat, summary: FrameSchedule)
    requires Groups(byFrame, ops, FrameOf) && Groups(releasesByFrame, actions, ReleaseFrame)
    requires steps == Numbered(slots) && sequence == |slots| + 1
    requires forall i | 0 <= i < |slots| :: slots[i].frame != frame
    ensures longer == Numbered(slots + FrameSlots(ops, actions, frame))
    ensures next == |longer| + 1
    ensures summary == ScheduleFrame(ops, actions, targets, costs, frame)
  {
    hide Filter, Sort, Sum, PrefetchIds, Numbered;
    var frameOps := Entry(byFrame, frame);
    assert frameOps == OperationsAt(ops, frame);
    var ids := PrefetchIds(actions);
    var moved := Filter(frameOps, Among(ids));
    var kept := Filter(frameOps, NotAmong(ids));
    var releases := Entry(releasesByFrame, frame);
    longer, next := steps, sequence;
    ghost var movedSlots := Mapped(Sort(moved, IdLeq), MovedSlot(frame));
    ghost var keptSlots := Mapped(Sort(kept, KindLeq), KeptSlot(frame));
    longer, next := AppendSteps(longer, next, Sort(moved, IdLeq), MovedSlot(frame), slots);
    longer, next := AppendSteps(longer, next, Sort(kept, KindLeq), KeptSlot(frame), slots + movedSlots);
    longer, next := AppendSteps(
      longer, next, Sort(releases, UrgencyLeq), ReleaseSlot(frame), slots + movedSlots + keptSlots);
    assert slots + FrameSlots(ops, actions, frame) ==
           slots + movedSlots + keptSlots + Mapped(Sort(releases, UrgencyLeq), ReleaseSlot(frame));
    var target := if frame in targets then targets[frame] else DEFAULT_FRAME_BUDGET;
    var before := if frame in costs then costs[frame] else Sum(frameOps, CostOf);
    var movedCost := Sum(moved, CostOf);
    var after := if before - movedCost > 0.0 then before - movedCost else 0.0;
    FrameSlotsBelong(ops, actions, frame);
    CountFindsTheFrame(slots, FrameSlots(ops, actions, frame), frame);
    summary := FrameSchedule(
      frame, target, before, after, movedCost, Sum(moved, SizeOf), before <= target, after <= target,
      |Filter(longer, OfFrame(frame))|);
  }

  method SimulateScheduler(
    ops: seq<Operation>, actions: seq<LifetimeAction>, targets: map<int, real>, costs: map<int, real>)
    returns (plan: SchedulerPlan)
    ensures plan == Schedule(ops, actions, targets, costs)
  {
    hide ScheduleFrame, FrameSlots, Sum, Groups, InOrder, Totalled, Numbered, FrameSchedules;
    var byFrame := GroupByFrame(ops, FrameOf);
    var releasesByFrame := GroupByFrame(actions, ReleaseFrame);
    GroupedFrames(byFrame, ops, FrameOf);
    var order := InOrder(targets.Keys + costs.Keys + byFrame.Keys);
    var frames, steps, sequence := [], Numbered([]), 1;
    for i := 0 to |order|
      invariant steps == Numbered(AllSlots(ops, actions, order[..i])) && sequence == |steps| + 1
      invariant frames == FrameSchedules(ops, actions, targets, costs, order)[..i]
    {
      assert order[..i + 1][..i] == order[..i];
      SlotsNameTheOrder(ops, actions, order[..i]);
      var summary;
      steps, sequence, summary := ScheduleOneFrame(
        ops, actions, targets, costs, byFrame, releasesByFrame, order[i], steps, sequence,
        AllSlots(ops, actions, order[..i]));
      FrameScheduleAt(ops, actions, targets, costs, order, i);
      frames := frames + [summary];
    }
    assert order[..|order|] == order;
    assert frames == FrameSchedules(ops, actions, targets, costs, order) && order == FrameOrder(ops, targets, costs);
    plan := Totalled(frames, steps);
  }
}
