/** What a schedule keeps of the ledger it is built from. */
module ScheduleFacts {
  import opened Wrappers
  import opened Sequences
  import opened Runtime
  import opened Ledger
  import opened Scheduler

  // ----- Every framed operation is scheduled once -----

  function OperationsIn(slots: seq<Slot>): seq<Operation> {
    if slots == [] then []
    else
      var last := slots[|slots| - 1].item;
      OperationsIn(slots[..|slots| - 1]) + if last.OperationItem? then [last.operation] else []
  }

  function SlotsOf(steps: seq<ScheduledStep>): seq<Slot> {
    seq(|steps|, i requires 0 <= i < |steps| => steps[i].slot)
  }

  predicate HasFrame(op: Operation) {
    op.frame.Some?
  }

  function FrameIn(frames: set<int>): Operation -> bool {
    (o: Operation) => o.frame.Some? && o.frame.value in frames
  }

  lemma {:induction false} OperationsOfConcat(a: seq<Slot>, b: seq<Slot>)
    ensures OperationsIn(a + b) == OperationsIn(a) + OperationsIn(b)
    decreases |b|
  {
    if b == [] {
      assert a + b == a;
    } else {
      assert (a + b)[..|a + b| - 1] == a + b[..|b| - 1];
      OperationsOfConcat(a, b[..|b| - 1]);
    }
  }

  lemma {:induction false} OperationSlotsHold(ops: seq<Operation>, slots: seq<Slot>)
    requires |ops| == |slots| && forall i | 0 <= i < |ops| :: slots[i].item == OperationItem(ops[i])
    ensures OperationsIn(slots) == ops
    decreases |ops|
  {
    if ops != [] {
      OperationSlotsHold(ops[..|ops| - 1], slots[..|slots| - 1]);
    }
  }

  lemma {:induction false} ReleaseSlotsHoldNone(slots: seq<Slot>)
    requires forall i | 0 <= i < |slots| :: slots[i].item.LifetimeItem?
    ensures OperationsIn(slots) == []
  {
    if slots != [] {
      ReleaseSlotsHoldNone(slots[..|slots| - 1]);
    }
  }

  lemma SlotsForScheduleThem(frameOps: seq<Operation>, ids: set<string>, releases: seq<LifetimeAction>, frame: int)
    ensures multiset(OperationsIn(SlotsFor(frameOps, ids, releases, frame))) == multiset(frameOps)
  {
    hide Sort, Filter;
    var moved, kept := Filter(frameOps, Among(ids)), Filter(frameOps, NotAmong(ids));
    var first := Mapped(Sort(moved, IdLeq), MovedSlot(frame));
    var second := Mapped(Sort(kept, KindLeq), KeptSlot(frame));
    var third := Mapped(Sort(releases, UrgencyLeq), ReleaseSlot(frame));
    OperationsOfConcat(first + second, third);
    OperationsOfConcat(first, second);
    OperationSlotsHold(Sort(moved, IdLeq), first);
    OperationSlotsHold(Sort(kept, KindLeq), second);
    ReleaseSlotsHoldNone(third);
    SortPermutes(moved, IdLeq);
    SortPermutes(kept, KindLeq);
    var all := (o: Operation) => true;
    FiltersPartition(frameOps, Among(ids), NotAmong(ids), all);
    FilterOfAll(frameOps, all);
  }

  lemma {:induction false} SlotsScheduleTheirFrames(ops: seq<Operation>, actions: seq<LifetimeAction>, order: seq<int>)
    requires StrictlyAscending(order)
    ensures multiset(OperationsIn(AllSlots(ops, actions, order))) == multiset(Filter(ops, FrameIn(set f | f in order)))
    decreases |order|
  {
    hide Filter, SlotsFor, PrefetchIds;
    if order == [] {
      FilterOfNone(ops, FrameIn({}));
      assert (set f | f in order) == {};
    } else {
      var prior, last := order[..|order| - 1], order[|order| - 1];
      SlotsScheduleTheirFrames(ops, actions, prior);
      OperationsOfConcat(AllSlots(ops, actions, prior), FrameSlots(ops, actions, last));
      SlotsForScheduleThem(OperationsAt(ops, last), PrefetchIds(actions),
          Filter(actions, FiledUnder(ReleaseFrame, last)), last);
      assert order == prior + [last];
      forall x: Operation
        ensures FrameIn(set f | f in order)(x) == (FrameIn(set f | f in prior)(x) || FiledUnder(FrameOf, last)(x))
        ensures !(FrameIn(set f | f in prior)(x) && FiledUnder(FrameOf, last)(x))
      {
        assert FiledUnder(FrameOf, last)(x) == (FrameOf(x) == Some(last));
        assert last !in prior by {
          forall k | 0 <= k < |prior| ensures prior[k] != last { assert order[k] < order[|order| - 1]; }
        }
      }
      FiltersPartition(ops, FrameIn(set f | f in prior), FiledUnder(FrameOf, last), FrameIn(set f | f in order));
    }
  }

  /** The operation steps are the framed operations, each as often as it was executed. */
  lemma OperationStepsAreTheFramedOperations(
    ops: seq<Operation>, actions: seq<LifetimeAction>, targets: map<int, real>, costs: map<int, real>)
    ensures multiset(OperationsIn(SlotsOf(Schedule(ops, actions, targets, costs).steps))) ==
        multiset(Filter(ops, HasFrame))
  {
    hide Filter, InOrder, ScheduleFrame, Sum;
    var order := FrameOrder(ops, targets, costs);
    SlotsScheduleTheirFrames(ops, actions, order);
    assert SlotsOf(Numbered(AllSlots(ops, actions, order))) == AllSlots(ops, actions, order);
    SameFilter(ops, FrameIn(set f | f in order), HasFrame);
  }

  lemma {:induction false} SameFilter<T>(items: seq<T>, p: T -> bool, q: T -> bool)
    requires forall x | x in items :: p(x) == q(x)
    ensures Filter(items, p) == Filter(items, q)
  {
    if items != [] {
      SameFilter(items[..|items| - 1], p, q);
      assert items[|items| - 1] in items;
    }
  }

  // ----- Steps come in order -----

  function Stage(phase: Phase): nat {
    match phase
    case Prefetch => 0
    case SyncPhase | Prepare | Critical | Work => 1
    case Cleanup => 2
  }

  /** Frames ascend; inside one, prefetches by id, then work by kind and id, then releases by urgency. */
  ghost predicate Follows(a: Slot, b: Slot) {
    || a.frame < b.frame
    || (&& a.frame == b.frame
        && (|| Stage(a.phase) < Stage(b.phase)
            || (&& Stage(a.phase) == Stage(b.phase)
                && match (a.item, b.item)
                   case (OperationItem(x), OperationItem(y)) =>
                     if a.phase == Prefetch then IdLeq(x, y) else KindLeq(x, y)
                   case (LifetimeItem(x), LifetimeItem(y)) => UrgencyLeq(x, y)
                   case _ => false)))
  }

  ghost predicate Ordered(slots: seq<Slot>) {
    forall i, j | 0 <= i < j < |slots| :: Follows(slots[i], slots[j])
  }

  lemma OrdersAreTotal()
    ensures TotalPreorder(IdLeq) && TotalPreorder(KindLeq) && TotalPreorder(UrgencyLeq)
  {
    forall a: Operation, b: Operation
      ensures IdLeq(a, b) || IdLeq(b, a)
      ensures KindLeq(a, b) || KindLeq(b, a)
    {
      TextOrderIsTotal(a.id, b.id);
    }
    forall a: Operation, b: Operation, c: Operation | TextLeq(a.id, b.id) && TextLeq(b.id, c.id)
      ensures TextLeq(a.id, c.id)
    {
      TextOrderIsTransitive(a.id, b.id, c.id);
    }
    forall a: LifetimeAction, b: LifetimeAction
      ensures UrgencyLeq(a, b) || UrgencyLeq(b, a)
    {
      TextOrderIsTotal(a.resourceId, b.resourceId);
    }
    forall a: LifetimeAction, b: LifetimeAction, c: LifetimeAction | TextLeq(a.resourceId, b.resourceId)
        && TextLeq(b.resourceId, c.resourceId)
      ensures TextLeq(a.resourceId, c.resourceId)
    {
      TextOrderIsTransitive(a.resourceId, b.resourceId, c.resourceId);
    }
  }

  lemma FrameSlotsAreOrdered(frameOps: seq<Operation>, ids: set<string>, releases: seq<LifetimeAction>, frame: int)
    ensures Ordered(SlotsFor(frameOps, ids, releases, frame))
  {
    hide Sort, Filter, IdLeq, KindLeq, UrgencyLeq, TotalPreorder, KindOrder;
    OrdersAreTotal();
    var moved, kept := Sort(Filter(frameOps, Among(ids)), IdLeq), Sort(Filter(frameOps, NotAmong(ids)), KindLeq);
    var late := Sort(releases, UrgencyLeq);
    SortSorts(Filter(frameOps, Among(ids)), IdLeq);
    SortSorts(Filter(frameOps, NotAmong(ids)), KindLeq);
    SortSorts(releases, UrgencyLeq);
    var slots := SlotsFor(frameOps, ids, releases, frame);
    forall i, j | 0 <= i < j < |slots|
      ensures Follows(slots[i], slots[j])
    {
      var m, k := |moved|, |moved| + |kept|;
      assert slots[i] == if i < m then MovedSlot(frame)(moved[i]) else if i < k then KeptSlot(frame)(kept[i - m])
                         else ReleaseSlot(frame)(late[i - k]);
      assert slots[j] == if j < m then MovedSlot(frame)(moved[j]) else if j < k then KeptSlot(frame)(kept[j - m])
                         else ReleaseSlot(frame)(late[j - k]);
    }
  }

  lemma {:induction false} SlotsAreOrdered(ops: seq<Operation>, actions: seq<LifetimeAction>, order: seq<int>)
    requires StrictlyAscending(order)
    ensures Ordered(AllSlots(ops, actions, order))
    decreases |order|
  {
    hide SlotsFor, Filter, PrefetchIds, Follows;
    if order != [] {
      var prior, last := order[..|order| - 1], order[|order| - 1];
      var earlier, added := AllSlots(ops, actions, prior), FrameSlots(ops, actions, last);
      SlotsAreOrdered(ops, actions, prior);
      FrameSlotsAreOrdered(OperationsAt(ops, last), PrefetchIds(actions),
          Filter(actions, FiledUnder(ReleaseFrame, last)), last);
      var slots := AllSlots(ops, actions, order);
      forall i, j | 0 <= i < j < |slots|
        ensures Follows(slots[i], slots[j])
      {
        if i < |earlier| <= j {
          LaterFrameFollows(ops, actions, order, i, j - |earlier|);
        } else if |earlier| <= i {
          assert slots[i] == added[i - |earlier|] && slots[j] == added[j - |earlier|];
        }
      }
    }
  }

  lemma LaterFrameFollows(ops: seq<Operation>, actions: seq<LifetimeAction>, order: seq<int>, i: nat, j: nat)
    requires order != [] && StrictlyAscending(order)
    requires i < |AllSlots(ops, actions, order[..|order| - 1])| && j < |FrameSlots(ops, actions, order[|order| - 1])|
    ensures Follows(AllSlots(ops, actions, order[..|order| - 1])[i], FrameSlots(ops, actions, order[|order| - 1])[j])
  {
    hide FrameSlots;
    var prior, last := order[..|order| - 1], order[|order| - 1];
    FrameSlotsBelong(ops, actions, last);
    SlotsNameTheOrder(ops, actions, prior);
    var k :| 0 <= k < |prior| && prior[k] == AllSlots(ops, actions, prior)[i].frame;
    assert order[k] < order[|order| - 1];
  }

  /** Sequence numbers run from 1 without gaps. */
  ghost predicate Consecutive(steps: seq<ScheduledStep>) {
    forall i | 0 <= i < |steps| :: steps[i].sequence == i + 1
  }

  /** Every plan numbers its steps consecutively, in the order of frame, stage and key. */
  lemma StepsAreInOrder(
    ops: seq<Operation>, actions: seq<LifetimeAction>, targets: map<int, real>, costs: map<int, real>)
    ensures var steps := Schedule(ops, actions, targets, costs).steps;
            Consecutive(steps) && Ordered(SlotsOf(steps))
  {
    hide InOrder, ScheduleFrame, Sum, Ordered, AllSlots;
    var order := FrameOrder(ops, targets, costs);
    var slots := AllSlots(ops, actions, order);
    SlotsAreOrdered(ops, actions, order);
    assert SlotsOf(Numbered(slots)) == slots;
  }

  // ----- Moved work leaves the critical path, exactly -----

  function CostIfAmong(ids: set<string>): Operation -> real {
    (o: Operation) => if o.id in ids then o.cost else 0.0
  }

  lemma MovedCostIsBounded(frameOps: seq<Operation>, ids: set<string>)
    ensures 0.0 <= Sum(Filter(frameOps, Among(ids)), CostOf) <= Sum(frameOps, CostOf)
  {
    SumOfFiltered(frameOps, Among(ids), CostOf, CostIfAmong(ids));
    SumIsMonotone(frameOps, CostIfAmong(ids), CostOf);
    var zero := (o: Operation) => 0.0;
    SumOfNothing(frameOps, zero);
    SumIsMonotone(frameOps, zero, CostIfAmong(ids));
  }

  ghost function ScheduleOf(s: Session, actions: seq<LifetimeAction>): SchedulerPlan {
    Schedule(s.executed, actions,
             map f | f in s.frames :: s.frames[f].target,
             map f | f in s.frames :: s.frames[f].totalCost)
  }

  lemma LedgerFrames(s: Session)
    requires Balanced(s)
    ensures Filed(s.executed, FrameOf) <= s.frames.Keys
  {}

  /** The ledger's total of a frame is the cost of the operations scheduled in it. */
  lemma LedgerCostIsScheduledCost(s: Session, frame: int)
    requires Balanced(s) && frame in s.frames
    ensures s.frames[frame].totalCost == Sum(OperationsAt(s.executed, frame), CostOf)
  {
    forall o: Operation
      ensures CostIn(frame)(o) == if FiledUnder(FrameOf, frame)(o) then CostOf(o) else 0.0
    {
      assert FiledUnder(FrameOf, frame)(o) == (FrameOf(o) == Some(frame));
    }
    SumOfFiltered(s.executed, FiledUnder(FrameOf, frame), CostOf, CostIn(frame));
  }

  lemma FrameMovesExactly(s: Session, actions: seq<LifetimeAction>, frame: int)
    requires Balanced(s) && frame in s.frames
    ensures var f := ScheduleFrame(s.executed, actions, map g | g in s.frames :: s.frames[g].target,
                                   map g | g in s.frames :: s.frames[g].totalCost, frame);
            && f.before == s.frames[frame].totalCost
            && f.target == s.frames[frame].target
            && f.before - f.after == f.movedCost >= 0.0
            && (f.withinBefore ==> f.withinAfter)
  {
    hide Sum, Filter, PrefetchIds, Balanced, FrameSlots;
    LedgerCostIsScheduledCost(s, frame);
    MovedCostIsBounded(OperationsAt(s.executed, frame), PrefetchIds(actions));
  }

  lemma {:induction false} SumsDiffer<T>(items: seq<T>, f: T -> real, g: T -> real, h: T -> real)
    requires forall i | 0 <= i < |items| :: f(items[i]) - g(items[i]) == h(items[i])
    ensures Sum(items, f) - Sum(items, g) == Sum(items, h)
  {
    if items != [] {
      SumsDiffer(items[..|items| - 1], f, g, h);
    }
  }

  /**
    For a session's own ledger the schedule has exactly the ledger's frames; each
    frame's path shrinks by exactly the cost moved ahead of it, and the reported
    latency reduction is the sum of those costs.
   */
  lemma ScheduleMovesExactly(s: Session, actions: seq<LifetimeAction>)
    requires Balanced(s)
    ensures var plan := ScheduleOf(s, actions);
            && |plan.frames| == |InOrder(s.frames.Keys)|
            && (forall i | 0 <= i < |plan.frames| ::
                  && plan.frames[i].frame == InOrder(s.frames.Keys)[i]
                  && plan.frames[i].before == s.frames[plan.frames[i].frame].totalCost
                  && plan.frames[i].before - plan.frames[i].after == plan.frames[i].movedCost)
            && plan.latencyReduction == Sum(plan.frames, MovedCostOf)
  {
    hide Sum, InOrder, Balanced, FrameSlots, AllSlots, ScheduleFrame, Filed;
    var targets := map f | f in s.frames :: s.frames[f].target;
    var costs := map f | f in s.frames :: s.frames[f].totalCost;
    LedgerFrames(s);
    assert targets.Keys + costs.Keys + Filed(s.executed, FrameOf) == s.frames.Keys;
    var plan := ScheduleOf(s, actions);
    var order := InOrder(s.frames.Keys);
    forall i | 0 <= i < |order|
      ensures plan.frames[i] == ScheduleFrame(s.executed, actions, targets, costs, order[i])
      ensures plan.frames[i].frame == order[i] && order[i] in s.frames
      ensures plan.frames[i].before == s.frames[order[i]].totalCost
      ensures plan.frames[i].before - plan.frames[i].after == plan.frames[i].movedCost >= 0.0
    {
      assert order[i] in order;
      FrameMovesExactly(s, actions, order[i]);
      ScheduledFrameKeepsItsName(s.executed, actions, targets, costs, order[i]);
    }
    SumsDiffer(plan.frames, BeforeOf, AfterOf, MovedCostOf);
    NonNegativeTotal(plan.frames);
  }

  lemma ScheduledFrameKeepsItsName(
    ops: seq<Operation>, actions: seq<LifetimeAction>, targets: map<int, real>, costs: map<int, real>, frame: int)
    ensures ScheduleFrame(ops, actions, targets, costs, frame).frame == frame
  {}

  lemma {:induction false} NonNegativeTotal(frames: seq<FrameSchedule>)
    requires forall i | 0 <= i < |frames| :: 0.0 <= frames[i].movedCost
    ensures 0.0 <= Sum(frames, MovedCostOf)
  {
    if frames != [] {
      NonNegativeTotal(frames[..|frames| - 1]);
    }
  }

  /** All of it for every session an engine can drive. */
  lemma ReachableSchedulesAreExact(reports: seq<Report>, actions: seq<LifetimeAction>)
    ensures var s := Run(reports);
            var plan, order := ScheduleOf(s, actions), InOrder(s.frames.Keys);
            && multiset(OperationsIn(SlotsOf(plan.steps))) == multiset(Filter(s.executed, HasFrame))
            && Consecutive(plan.steps) && Ordered(SlotsOf(plan.steps))
            && |plan.frames| == |order|
            && (forall i | 0 <= i < |order| ::
                  && plan.frames[i].frame == order[i] && order[i] in s.frames
                  && plan.frames[i].before == s.frames[order[i]].totalCost
                  && plan.frames[i].before - plan.frames[i].after == plan.frames[i].movedCost)
            && plan.latencyReduction == Sum(plan.frames, MovedCostOf)
  {
    hide Schedule, Filter, Run, Sum, OperationsIn, Balanced, InOrder, Ordered, Consecutive;
    var s := Run(reports);
    var targets := map f | f in s.frames :: s.frames[f].target;
    var costs := map f | f in s.frames :: s.frames[f].totalCost;
    RunsStayBalanced(reports);
    ScheduleMovesExactly(s, actions);
    StepsAreInOrder(s.executed, actions, targets, costs);
    OperationStepsAreTheFramedOperations(s.executed, actions, targets, costs);
    var order := InOrder(s.frames.Keys);
    forall i | 0 <= i < |order|
      ensures order[i] in s.frames
    {
      assert order[i] in order;
    }
  }
}
