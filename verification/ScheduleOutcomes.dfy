/**
  What becomes of each operation and each release in a schedule: its phase, and which
  cost leaves the critical path.
 */
module ScheduleOutcomes {
  import opened Wrappers
  import opened Sequences
  import opened Runtime
  import opened Ledger
  import opened Scheduler
  import opened ScheduleFacts

  /** Some action asks for the operation's transfer to be done before the frame. */
  ghost predicate Prefetched(actions: seq<LifetimeAction>, op: Operation) {
    op.id != "" && exists a :: a in actions && a.kind == PrefetchBeforeFrame && a.sourceOperation == Some(op.id)
  }

  lemma PrefetchedAmong(actions: seq<LifetimeAction>, op: Operation)
    ensures Among(PrefetchIds(actions))(op) <==> Prefetched(actions, op)
    ensures NotAmong(PrefetchIds(actions))(op) <==> !Prefetched(actions, op)
  {
  }

  /** The phase an operation has unless its transfer is prefetched. */
  ghost predicate OwnPhase(kind: OpKind, phase: Phase) {
    match phase
    case Prepare => kind == Copy || kind == Upload
    case Critical => kind == Draw || kind == Compute || kind == Present
    case SyncPhase => kind == Sync
    case Work => kind == Allocate
    case Prefetch | Cleanup => false
  }

  /** The slot is one an operation of its frame, or a release after its frame, should have. */
  ghost predicate Proper(ops: seq<Operation>, actions: seq<LifetimeAction>, slot: Slot) {
    match slot.item
    case OperationItem(op) =>
      && op in ops && op.frame == Some(slot.frame)
      && (slot.phase == Prefetch <==> Prefetched(actions, op))
      && (slot.phase != Prefetch ==> OwnPhase(op.kind, slot.phase))
    case LifetimeItem(a) =>
      && a in actions && a.kind == ReleaseAfterFrame && a.targetFrame == Some(slot.frame) && slot.phase == Cleanup
  }

  lemma {:induction false} FilteredFrom<T>(items: seq<T>, keep: T -> bool, leq: (T, T) -> bool, k: nat)
    requires k < |Sort(Filter(items, keep), leq)|
    ensures Sort(Filter(items, keep), leq)[k] in items && keep(Sort(Filter(items, keep), leq)[k])
  {
    var x := Sort(Filter(items, keep), leq)[k];
    assert x in Sort(Filter(items, keep), leq);
    SortKeepsMembers(Filter(items, keep), leq, x);
    FilterKeepsMatches(items, keep, x);
  }

  lemma FrameSlotsAreProper(ops: seq<Operation>, actions: seq<LifetimeAction>, frame: int, i: nat)
    requires i < |FrameSlots(ops, actions, frame)|
    ensures Proper(ops, actions, FrameSlots(ops, actions, frame)[i])
  {
    hide Sort, Filter, PrefetchIds, Prefetched, IdLeq, KindLeq, UrgencyLeq;
    var frameOps, ids := OperationsAt(ops, frame), PrefetchIds(actions);
    var moved, kept := Sort(Filter(frameOps, Among(ids)), IdLeq), Sort(Filter(frameOps, NotAmong(ids)), KindLeq);
    var m, k := |moved|, |moved| + |kept|;
    if i < m {
      FilteredFrom(frameOps, Among(ids), IdLeq, i);
      FilterKeepsMatches(ops, FiledUnder(FrameOf, frame), moved[i]);
      PrefetchedAmong(actions, moved[i]);
      assert FrameSlots(ops, actions, frame)[i] == MovedSlot(frame)(moved[i]);
      FiledThere(moved[i], frame);
    } else if i < k {
      FilteredFrom(frameOps, NotAmong(ids), KindLeq, i - m);
      FilterKeepsMatches(ops, FiledUnder(FrameOf, frame), kept[i - m]);
      PrefetchedAmong(actions, kept[i - m]);
      assert FrameSlots(ops, actions, frame)[i] == KeptSlot(frame)(kept[i - m]);
      FiledThere(kept[i - m], frame);
    } else {
      var late := Sort(Filter(actions, FiledUnder(ReleaseFrame, frame)), UrgencyLeq);
      FilteredFrom(actions, FiledUnder(ReleaseFrame, frame), UrgencyLeq, i - k);
      assert FrameSlots(ops, actions, frame)[i] == ReleaseSlot(frame)(late[i - k]);
      ReleasedThere(late[i - k], frame);
    }
  }

  lemma FiledThere(op: Operation, frame: int)
    ensures FiledUnder(FrameOf, frame)(op) <==> op.frame == Some(frame)
  {
    assert FiledUnder(FrameOf, frame)(op) == (FrameOf(op) == Some(frame));
  }

  lemma ReleasedThere(a: LifetimeAction, frame: int)
    ensures FiledUnder(ReleaseFrame, frame)(a) <==> a.kind == ReleaseAfterFrame && a.targetFrame == Some(frame)
  {
    assert FiledUnder(ReleaseFrame, frame)(a) == (ReleaseFrame(a) == Some(frame));
  }

  lemma {:induction false} AllSlotsAreProper(
    ops: seq<Operation>, actions: seq<LifetimeAction>, order: seq<int>, i: nat)
    requires i < |AllSlots(ops, actions, order)|
    ensures Proper(ops, actions, AllSlots(ops, actions, order)[i])
    decreases |order|
  {
    hide FrameSlots, Proper;
    var earlier := AllSlots(ops, actions, order[..|order| - 1]);
    if i < |earlier| {
      AllSlotsAreProper(ops, actions, order[..|order| - 1], i);
    } else {
      FrameSlotsAreProper(ops, actions, order[|order| - 1], i - |earlier|);
    }
  }

  /**
    Every step is an operation in its own frame, prefetched exactly when an action asks
    for it and otherwise in the phase of its kind, or a release after the frame it names.
   */
  lemma StepsAreProper(
    ops: seq<Operation>, actions: seq<LifetimeAction>, targets: map<int, real>, costs: map<int, real>, i: nat)
    requires i < |Schedule(ops, actions, targets, costs).steps|
    ensures Proper(ops, actions, Schedule(ops, actions, targets, costs).steps[i].slot)
  {
    hide AllSlots, Proper, FrameSchedules, Sum;
    AllSlotsAreProper(ops, actions, FrameOrder(ops, targets, costs), i);
  }

  // ----- Releases -----

  function ReleasesIn(slots: seq<Slot>): seq<LifetimeAction> {
    if slots == [] then []
    else
      var last := slots[|slots| - 1].item;
      ReleasesIn(slots[..|slots| - 1]) + if last.LifetimeItem? then [last.action] else []
  }

  ghost function ReleasedIn(frames: set<int>): LifetimeAction -> bool {
    (a: LifetimeAction) => a.kind == ReleaseAfterFrame && a.targetFrame.Some? && a.targetFrame.value in frames
  }

  lemma {:induction false} ReleasesOfConcat(a: seq<Slot>, b: seq<Slot>)
    ensures ReleasesIn(a + b) == ReleasesIn(a) + ReleasesIn(b)
    decreases |b|
  {
    if b == [] {
      assert a + b == a;
    } else {
      assert (a + b)[..|a + b| - 1] == a + b[..|b| - 1];
      ReleasesOfConcat(a, b[..|b| - 1]);
    }
  }

  lemma {:induction false} OperationsHoldNoRelease(slots: seq<Slot>)
    requires forall i | 0 <= i < |slots| :: slots[i].item.OperationItem?
    ensures ReleasesIn(slots) == []
  {
    if slots != [] {
      OperationsHoldNoRelease(slots[..|slots| - 1]);
    }
  }

  lemma {:induction false} ReleaseSlotsHold(actions: seq<LifetimeAction>, slots: seq<Slot>)
    requires |actions| == |slots| && forall i | 0 <= i < |slots| :: slots[i].item == LifetimeItem(actions[i])
    ensures ReleasesIn(slots) == actions
    decreases |actions|
  {
    if actions != [] {
      ReleaseSlotsHold(actions[..|actions| - 1], slots[..|slots| - 1]);
    }
  }

  lemma FrameReleases(ops: seq<Operation>, actions: seq<LifetimeAction>, frame: int)
    ensures multiset(ReleasesIn(FrameSlots(ops, actions, frame))) ==
            multiset(Filter(actions, FiledUnder(ReleaseFrame, frame)))
  {
    hide Sort, Filter, PrefetchIds;
    var frameOps, ids := OperationsAt(ops, frame), PrefetchIds(actions);
    var releases := Filter(actions, FiledUnder(ReleaseFrame, frame));
    var first := Mapped(Sort(Filter(frameOps, Among(ids)), IdLeq), MovedSlot(frame));
    var second := Mapped(Sort(Filter(frameOps, NotAmong(ids)), KindLeq), KeptSlot(frame));
    var third := Mapped(Sort(releases, UrgencyLeq), ReleaseSlot(frame));
    ReleasesOfConcat(first + second, third);
    OperationsHoldNoRelease(first + second);
    ReleaseSlotsHold(Sort(releases, UrgencyLeq), third);
    SortPermutes(releases, UrgencyLeq);
  }

  lemma {:induction false} AllReleases(ops: seq<Operation>, actions: seq<LifetimeAction>, order: seq<int>)
    requires StrictlyAscending(order)
    ensures multiset(ReleasesIn(AllSlots(ops, actions, order))) ==
            multiset(Filter(actions, ReleasedIn(set f | f in order)))
    decreases |order|
  {
    hide Filter, FrameSlots;
    if order == [] {
      FilterOfNone(actions, ReleasedIn({}));
      assert (set f | f in order) == {};
    } else {
      var prior, last := order[..|order| - 1], order[|order| - 1];
      AllReleases(ops, actions, prior);
      ReleasesOfConcat(AllSlots(ops, actions, prior), FrameSlots(ops, actions, last));
      FrameReleases(ops, actions, last);
      assert order == prior + [last];
      assert last !in prior by {
        forall k | 0 <= k < |prior| ensures prior[k] != last { assert order[k] < order[|order| - 1]; }
      }
      forall a | a in actions
        ensures ReleasedIn(set f | f in order)(a) ==
                (ReleasedIn(set f | f in prior)(a) || FiledUnder(ReleaseFrame, last)(a))
        ensures !(ReleasedIn(set f | f in prior)(a) && FiledUnder(ReleaseFrame, last)(a))
      {
        ReleasedThere(a, last);
      }
      FiltersPartition(actions, ReleasedIn(set f | f in prior), FiledUnder(ReleaseFrame, last),
          ReleasedIn(set f | f in order));
    }
  }

  /** The releases of a plan are those after its frames, each as often as it was asked for. */
  lemma ReleaseStepsAreTheReleases(
    ops: seq<Operation>, actions: seq<LifetimeAction>, targets: map<int, real>, costs: map<int, real>)
    ensures multiset(ReleasesIn(SlotsOf(Schedule(ops, actions, targets, costs).steps))) ==
            multiset(Filter(actions, ReleasedIn(set f | f in FrameOrder(ops, targets, costs))))
  {
    hide Filter, AllSlots, Sum, FrameSchedules;
    var order := FrameOrder(ops, targets, costs);
    AllReleases(ops, actions, order);
    assert SlotsOf(Numbered(AllSlots(ops, actions, order))) == AllSlots(ops, actions, order);
  }

  // ----- What leaves the critical path -----

  ghost function PrefetchedCost(actions: seq<LifetimeAction>, frame: int): Operation -> real {
    (o: Operation) => if o.frame == Some(frame) && Prefetched(actions, o) then o.cost else 0.0
  }

  ghost function PrefetchedSize(actions: seq<LifetimeAction>, frame: int): Operation -> real {
    (o: Operation) => if o.frame == Some(frame) && Prefetched(actions, o) then o.size as real else 0.0
  }

  ghost function OwnCost(frame: int): Operation -> real {
    (o: Operation) => if o.frame == Some(frame) then o.cost else 0.0
  }

  lemma {:induction false} MovedSum(
    ops: seq<Operation>, actions: seq<LifetimeAction>, frame: int, f: Operation -> real, spec: Operation -> real)
    requires forall o: Operation ::
               spec(o) == if o.frame == Some(frame) && Prefetched(actions, o) then f(o) else 0.0
    ensures Sum(MovedAt(ops, actions, frame), f) == Sum(ops, spec)
  {
    hide Filter, Sum, PrefetchIds, Prefetched;
    var ids := PrefetchIds(actions);
    var among := (o: Operation) => if Among(ids)(o) then f(o) else 0.0;
    SumOfFiltered(OperationsAt(ops, frame), Among(ids), f, among);
    forall o: Operation
      ensures spec(o) == if FiledUnder(FrameOf, frame)(o) then among(o) else 0.0
    {
      PrefetchedAmong(actions, o);
      FiledThere(o, frame);
    }
    SumOfFiltered(ops, FiledUnder(FrameOf, frame), among, spec);
  }

  /** What is moved ahead of a frame is the cost and size of exactly its prefetched operations. */
  lemma {:induction false} MovedIsWhatIsPrefetched(
    ops: seq<Operation>, actions: seq<LifetimeAction>, targets: map<int, real>, costs: map<int, real>, frame: int)
    ensures var f := ScheduleFrame(ops, actions, targets, costs, frame);
            && f.movedCost == Sum(ops, PrefetchedCost(actions, frame))
            && f.movedSize == Sum(ops, PrefetchedSize(actions, frame))
            && f.before == (if frame in costs then costs[frame] else Sum(ops, OwnCost(frame)))
            && f.target == (if frame in targets then targets[frame] else 16.67)
            && (f.withinBefore <==> f.before <= f.target) && (f.withinAfter <==> f.after <= f.target)
  {
    hide Filter, Sum, PrefetchIds, Prefetched, FrameSlots, MovedAt;
    MovedSum(ops, actions, frame, CostOf, PrefetchedCost(actions, frame));
    MovedSum(ops, actions, frame, SizeOf, PrefetchedSize(actions, frame));
    forall o: Operation ensures OwnCost(frame)(o) == if FiledUnder(FrameOf, frame)(o) then CostOf(o) else 0.0 {
      FiledThere(o, frame);
    }
    SumOfFiltered(ops, FiledUnder(FrameOf, frame), CostOf, OwnCost(frame));
  }

  /** Each frame counts its own steps, and the plan counts them all. */
  lemma {:induction false} StepsAreCounted(
    ops: seq<Operation>, actions: seq<LifetimeAction>, targets: map<int, real>, costs: map<int, real>)
    ensures var plan, order := Schedule(ops, actions, targets, costs), FrameOrder(ops, targets, costs);
            && plan.stepCount == |plan.steps| && |plan.frames| == |order|
            && (forall i | 0 <= i < |order| ::
                  && plan.frames[i].frame == order[i]
                  && plan.frames[i].stepCount == |Filter(plan.steps, OfFrame(order[i]))|)
            && plan.before == Sum(plan.frames, BeforeOf) && plan.after == Sum(plan.frames, AfterOf)
            && plan.movedSize == Sum(plan.frames, MovedSizeOf)
  {
    hide Filter, Sum, FrameSlots, InOrder, Numbered, AllSlots;
    var plan, order := Schedule(ops, actions, targets, costs), FrameOrder(ops, targets, costs);
    forall i | 0 <= i < |order|
      ensures plan.frames[i].frame == order[i]
      ensures plan.frames[i].stepCount == |Filter(plan.steps, OfFrame(order[i]))|
    {
      FrameScheduleAt(ops, actions, targets, costs, order, i);
      OwnStepsAreCounted(ops, actions, order, i);
    }
  }

  lemma {:induction false} OwnStepsAreCounted(
    ops: seq<Operation>, actions: seq<LifetimeAction>, order: seq<int>, i: nat)
    requires StrictlyAscending(order) && i < |order|
    ensures |Filter(Numbered(AllSlots(ops, actions, order)), OfFrame(order[i]))| ==
            |FrameSlots(ops, actions, order[i])|
    decreases |order|
  {
    hide Filter, FrameSlots;
    var prior, last := order[..|order| - 1], order[|order| - 1];
    var earlier, added := AllSlots(ops, actions, prior), FrameSlots(ops, actions, last);
    var all := Numbered(earlier + added);
    var before, after := all[..|earlier|], all[|earlier|..];
    assert all == before + after && before == Numbered(earlier);
    FrameSlotsBelong(ops, actions, last);
    FilterOfConcat(before, after, OfFrame(order[i]));
    if i < |prior| {
      OwnStepsAreCounted(ops, actions, prior, i);
      assert order[i] < order[|order| - 1];
      FilterOfNone(after, OfFrame(order[i]));
    } else {
      SlotsNameTheOrder(ops, actions, prior);
      forall j | 0 <= j < |before| ensures !OfFrame(last)(before[j]) {
        assert earlier[j].frame in prior;
        var k :| 0 <= k < |prior| && prior[k] == earlier[j].frame;
        assert order[k] < order[|order| - 1];
      }
      FilterOfNone(before, OfFrame(last));
      FilterOfAll(after, OfFrame(last));
    }
  }

  // ----- Inside a frame -----

  /** The turn of an operation that is not prefetched. */
  ghost function WorkTurn(kind: OpKind): int {
    match kind
    case Sync => 1
    case Copy => 2 case Upload => 2
    case Compute => 3
    case Draw => 4
    case Present => 5
    case Allocate => 6
  }

  /** Inside a frame: prefetches by id, then work by turn and id, then releases by urgency and resource. */
  ghost predicate InTurn(a: Slot, b: Slot) {
    match (a.item, b.item)
    case (OperationItem(x), OperationItem(y)) =>
      if a.phase == Prefetch then b.phase == Prefetch ==> TextLeq(x.id, y.id)
      else
        && b.phase != Prefetch && WorkTurn(x.kind) <= WorkTurn(y.kind)
        && (WorkTurn(x.kind) == WorkTurn(y.kind) ==> TextLeq(x.id, y.id))
    case (LifetimeItem(x), LifetimeItem(y)) =>
      x.priority >= y.priority && (x.priority == y.priority ==> TextLeq(x.resourceId, y.resourceId))
    case (OperationItem(_), LifetimeItem(_)) => true
    case (LifetimeItem(_), OperationItem(_)) => false
  }

  /** Earlier steps belong to earlier frames, or come first inside the same one. */
  lemma StepsComeInTurn(
    ops: seq<Operation>, actions: seq<LifetimeAction>, targets: map<int, real>, costs: map<int, real>, i: nat, j: nat)
    requires i < j < |Schedule(ops, actions, targets, costs).steps|
    ensures var a, b := Schedule(ops, actions, targets, costs).steps[i].slot,
                        Schedule(ops, actions, targets, costs).steps[j].slot;
            a.frame < b.frame || (a.frame == b.frame && InTurn(a, b))
  {
    hide Schedule, Prefetched;
    var steps := Schedule(ops, actions, targets, costs).steps;
    StepsAreInOrder(ops, actions, targets, costs);
    StepsAreProper(ops, actions, targets, costs, i);
    StepsAreProper(ops, actions, targets, costs, j);
    assert SlotsOf(steps)[i] == steps[i].slot && SlotsOf(steps)[j] == steps[j].slot;
    assert Follows(steps[i].slot, steps[j].slot);
  }
}
