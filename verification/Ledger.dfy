/**
  The session an engine reports its frames, resources and operations to, and
  the per-frame ledger it keeps of what was executed.
 */
module Ledger {
  import opened Wrappers
  import opened Runtime
  import opened Control
  import opened Sequences

  const DEFAULT_FRAME_BUDGET: Cost := 16.67

  datatype FrameStats = FrameStats(
    target: real, begin: Option<nat>, end: Option<nat>, operations: nat, decisions: nat,
    totalCost: real, savedCost: real, savedSize: nat, transferSize: nat, queueCosts: map<string, real>)

  const NEW_STATS := FrameStats(DEFAULT_FRAME_BUDGET, None, None, 0, 0, 0.0, 0.0, 0, 0, map[])

  datatype Session = Session(
    table: Table,
    provenance: Provenance,
    executed: seq<Operation>,
    current: Option<int>,
    frames: map<int, FrameStats>,
    frameBudget: Cost,
    closed: bool)

  const OPENED := Session(map[], FRESH, [], None, map[], DEFAULT_FRAME_BUDGET, false)

  /** An event after parsing.  A malformed one is refused before it changes anything. */
  datatype Event =
    | BeginSession(budget: Option<Cost>)
    | EndSession
    | BeginFrame(frame: int, budget: Option<Cost>)
    | EndFrame(frame: int)
    | Register(id: string, resource: Resource)
    | Release(id: string)
    | Submit(operation: Operation)
    | ReadState
    | Malformed

  // ----- What each event does -----

  function StatsOf(frames: map<int, FrameStats>, frame: int): FrameStats {
    if frame in frames then frames[frame] else NEW_STATS
  }

  /** Looking a frame up creates its record. */
  function Touch(s: Session, frame: int): Session {
    s.(frames := s.frames[frame := StatsOf(s.frames, frame)])
  }

  /** A budget of zero counts as no budget. */
  function BudgetOr(requested: Option<Cost>, fallback: Cost): Cost {
    if requested.Some? && requested.value != 0.0 then requested.value else fallback
  }

  function OnBeginFrame(s: Session, frame: int, requested: Option<Cost>, index: Option<nat>): (Session, bool) {
    var touched := Touch(s, frame);
    var stats := touched.frames[frame];
    if s.current.Some? || (stats.begin.Some? && stats.end.None?) then (touched, false)
    else
      (touched.(current := Some(frame),
                frames := touched.frames[frame :=
                    stats.(begin := index, target := BudgetOr(requested, s.frameBudget))]), true)
  }

  function OnEndFrame(s: Session, frame: int, index: Option<nat>): (Session, bool) {
    var touched := Touch(s, frame);
    if s.current != Some(frame) then (touched, false)
    else (touched.(current := None, frames := touched.frames[frame := touched.frames[frame].(end := index)]), true)
  }

  /** An operation without a frame belongs to the open one. */
  function Stamped(s: Session, op: Operation): Operation {
    if op.frame.None? && s.current.Some? then op.(frame := s.current) else op
  }

  function Lookup(costs: map<string, real>, queue: string): real {
    if queue in costs then costs[queue] else 0.0
  }

  function Recorded(stats: FrameStats, op: Operation, decision: Option<Decision>): FrameStats {
    var counted := stats.(operations := stats.operations + 1);
    match decision
    case None =>
      counted.(
        totalCost := stats.totalCost + op.cost,
        queueCosts := stats.queueCosts[op.queue := Lookup(stats.queueCosts, op.queue) + op.cost],
        transferSize := stats.transferSize + if IsTransfer(op.kind) then op.size else 0)
    case Some(d) =>
      counted.(decisions := stats.decisions + 1, savedCost := stats.savedCost + d.savedCost,
               savedSize := stats.savedSize + d.savedSize)
  }

  function Booked(frames: map<int, FrameStats>, op: Operation, decision: Option<Decision>): map<int, FrameStats> {
    match op.frame
    case None => frames
    case Some(frame) => frames[frame := Recorded(StatsOf(frames, frame), op, decision)]
  }

  ghost function OnSubmit(s: Session, op: Operation): (Session, bool) {
    match Process(s.table, s.provenance, Stamped(s, op))
    case Err(_) => (s, false)
    case Ok(step) =>
      (s.(provenance := step.state,
          executed := if step.decision.None? then s.executed + [step.operation] else s.executed,
          frames := Booked(s.frames, step.operation, step.decision)), true)
  }

  ghost function OnRelease(s: Session, id: string): (Session, bool) {
    (s.(table := s.table - {id},
        provenance := s.provenance.(
          lastCopyByTarget := Invalidated(s.table, s.provenance.lastCopyByTarget, Some(id)),
          activeBuffers := WithoutTarget(s.provenance.activeBuffers, Some(id)))), true)
  }

  /** The new state and whether the event was accepted. */
  ghost function OnEvent(s: Session, event: Event, index: Option<nat>): (Session, bool) {
    match event
    case BeginSession(budget) => (s.(closed := false, frameBudget := budget.GetOr(s.frameBudget)), true)
    case EndSession => if s.current.Some? then (s, false) else (s.(closed := true), true)
    case BeginFrame(frame, requested) => OnBeginFrame(s, frame, requested, index)
    case EndFrame(frame) => OnEndFrame(s, frame, index)
    case Register(id, resource) => if id in s.table then (s, false) else (s.(table := s.table[id := resource]), true)
    case Release(id) => OnRelease(s, id)
    case Submit(op) => OnSubmit(s, op)
    case ReadState => (s, true)
    case Malformed => (s, false)
  }

  // ----- The session object -----

  class RuntimeAdapterSession {
    const controller: FluidGatewayController
    var currentFrame: Option<int>
    var frames: map<int, FrameStats>
    var targetFrame: Cost
    var closed: bool

    ghost function Model(): Session
      reads this, controller, controller.optimization
    {
      Session(controller.optimization.resources, controller.optimization.Model(), controller.executedOperations,
              currentFrame, frames, targetFrame, closed)
    }

    constructor ()
      ensures Model() == OPENED && fresh(controller) && fresh(controller.optimization)
    {
      controller := new FluidGatewayController();
      currentFrame, frames, targetFrame, closed := None, map[], DEFAULT_FRAME_BUDGET, false;
    }

    method ProcessSessionEvent(begin: bool, budget: Option<Cost>) returns (accepted: bool)
      modifies this
      ensures (Model(), accepted) == OnEvent(old(Model()), if begin then BeginSession(budget) else EndSession, None)
    {
      if begin {
        targetFrame := budget.GetOr(targetFrame);
        closed := false;
      } else {
        if currentFrame.Some? {
          return false;
        }
        closed := true;
      }
      return true;
    }

    method FrameStatsOf(frame: int)
      modifies `frames
      ensures Model() == Touch(old(Model()), frame)
    {
      if frame !in frames {
        frames := frames[frame := NEW_STATS];
      }
      assert frames == old(frames)[frame := StatsOf(old(frames), frame)];
    }

    method ProcessFrameEvent(begin: bool, frame: int, budget: Option<Cost>, index: Option<nat>) returns (accepted: bool)
      modifies this
      ensures (Model(), accepted) ==
              OnEvent(old(Model()), if begin then BeginFrame(frame, budget) else EndFrame(frame), index)
    {
      FrameStatsOf(frame);
      if begin {
        if currentFrame.Some? || (frames[frame].begin.Some? && frames[frame].end.None?) {
          return false;
        }
        currentFrame := Some(frame);
        frames := frames[frame := frames[frame].(begin := index)];
        frames := frames[frame := frames[frame].(target := BudgetOr(budget, targetFrame))];
        ghost var touched := Touch(old(Model()), frame);
        assert frames == touched.frames[frame :=
            touched.frames[frame].(begin := index, target := BudgetOr(budget, targetFrame))];
      } else {
        if currentFrame != Some(frame) {
          return false;
        }
        frames := frames[frame := frames[frame].(end := index)];
        currentFrame := None;
      }
      return true;
    }

    method ProcessResourceEvent(id: string, resource: Option<Resource>) returns (accepted: bool)
      modifies this, controller, controller.optimization
      ensures (Model(), accepted) ==
              OnEvent(old(Model()), if resource.Some? then Register(id, resource.value) else Release(id), None)
    {
      if resource.Some? {
        accepted := controller.RegisterResource(id, resource.value);
      } else {
        var released := controller.ReleaseResource(id);
        accepted := true;
      }
    }

    method ProcessOperationEvent(op: Operation) returns (accepted: bool)
      modifies this, controller, controller.optimization
      ensures (Model(), accepted) == OnEvent(old(Model()), Submit(op), None)
    {
      hide Process, Recorded;
      var submitted := op;
      if op.frame.None? && currentFrame.Some? {
        submitted := op.(frame := currentFrame);
      }
      ProcessAccounts(controller.optimization.resources, controller.optimization.Model(), submitted);
      var result := controller.SubmitOperation(submitted);
      if result.Err? {
        return false;
      }
      if result.value.operation.frame.Some? {
        var frame := result.value.operation.frame.value;
        FrameStatsOf(frame);
        frames := frames[frame := Recorded(frames[frame], result.value.operation, result.value.decision)];
      }
      ghost var step := Process(old(Model()).table, old(Model()).provenance, submitted).value;
      assert frames == Booked(old(frames), step.operation, step.decision);
      return true;
    }

    method ProcessEvent(event: Event, index: Option<nat>) returns (accepted: bool)
      modifies this, controller, controller.optimization
      ensures (Model(), accepted) == OnEvent(old(Model()), event, index)
    {
      match event
      case BeginSession(budget) => accepted := ProcessSessionEvent(true, budget);
      case EndSession => accepted := ProcessSessionEvent(false, None);
      case BeginFrame(frame, budget) => accepted := ProcessFrameEvent(true, frame, budget, index);
      case EndFrame(frame) => accepted := ProcessFrameEvent(false, frame, None, index);
      case Register(id, resource) => accepted := ProcessResourceEvent(id, Some(resource));
      case Release(id) => accepted := ProcessResourceEvent(id, None);
      case Submit(op) => accepted := ProcessOperationEvent(op);
      case ReadState => accepted := true;
      case Malformed => accepted := false;
    }
  }

  // ----- What the ledger adds up to -----

  predicate InFrame(op: Operation, frame: int) {
    op.frame == Some(frame)
  }

  function CostIn(frame: int): Operation -> real {
    (o: Operation) => if InFrame(o, frame) then o.cost else 0.0
  }

  function CostOn(frame: int, queue: string): Operation -> real {
    (o: Operation) => if InFrame(o, frame) && o.queue == queue then o.cost else 0.0
  }

  function TransferIn(frame: int): Operation -> real {
    (o: Operation) => if InFrame(o, frame) && IsTransfer(o.kind) then o.size as real else 0.0
  }

  ghost function QueueTotal(costs: map<string, real>): real
    decreases |costs|
  {
    if costs == map[] then 0.0
    else
      var queue :| queue in costs;
      costs[queue] + QueueTotal(costs - {queue})
  }

  /** The total does not depend on the order in which queues are added. */
  lemma {:induction false} QueueTotalSplits(costs: map<string, real>, queue: string)
    requires queue in costs
    ensures QueueTotal(costs) == costs[queue] + QueueTotal(costs - {queue})
    decreases |costs|
  {
    var first :| first in costs && QueueTotal(costs) == costs[first] + QueueTotal(costs - {first});
    if first != queue {
      QueueTotalSplits(costs - {first}, queue);
      QueueTotalSplits(costs - {queue}, first);
      assert costs - {first} - {queue} == costs - {queue} - {first};
    }
  }

  lemma QueueTotalGrows(costs: map<string, real>, queue: string, cost: real)
    ensures QueueTotal(costs[queue := Lookup(costs, queue) + cost]) == QueueTotal(costs) + cost
  {
    var after := costs[queue := Lookup(costs, queue) + cost];
    QueueTotalSplits(after, queue);
    assert after - {queue} == costs - {queue};
    if queue in costs {
      QueueTotalSplits(costs, queue);
    } else {
      assert costs - {queue} == costs;
    }
  }

  /**
    A frame's record agrees with the operations executed in it: cost by queue,
    transferred bytes, and a total that is the sum over both.
   */
  ghost predicate Agrees(stats: FrameStats, executed: seq<Operation>, frame: int) {
    && stats.totalCost == Sum(executed, CostIn(frame))
    && stats.totalCost == QueueTotal(stats.queueCosts)
    && stats.transferSize as real == Sum(executed, TransferIn(frame))
    && (forall queue :: Lookup(stats.queueCosts, queue) == Sum(executed, CostOn(frame, queue)))
    && 0.0 <= stats.target
  }

  ghost predicate Balanced(s: Session) {
    && (forall frame | frame in s.frames :: Agrees(s.frames[frame], s.executed, frame))
    && (forall op | op in s.executed && op.frame.Some? :: op.frame.value in s.frames)
    && (s.current.Some? ==> s.current.value in s.frames)
    && (forall op | op in s.executed :: op.id in s.provenance.operationIds)
    && (forall i, j | 0 <= i < j < |s.executed| :: s.executed[i].id != s.executed[j].id)
  }

  lemma AbsentFramesCostNothing(s: Session, frame: int)
    requires Balanced(s) && frame !in s.frames
    ensures Agrees(NEW_STATS, s.executed, frame)
  {
    SumOfNothing(s.executed, CostIn(frame));
    SumOfNothing(s.executed, TransferIn(frame));
    forall queue ensures Sum(s.executed, CostOn(frame, queue)) == 0.0 {
      SumOfNothing(s.executed, CostOn(frame, queue));
    }
  }

  lemma TouchKeepsBalance(s: Session, frame: int)
    requires Balanced(s)
    ensures Balanced(Touch(s, frame))
  {
    hide Agrees;
    if frame !in s.frames {
      AbsentFramesCostNothing(s, frame);
    }
  }

  lemma SumWithOneMore(executed: seq<Operation>, op: Operation, f: Operation -> real)
    ensures Sum(executed + [op], f) == Sum(executed, f) + f(op)
  {
    SumOfConcat(executed, [op], f);
    SumOfOne(op, f);
  }

  /** Executing an operation of another frame leaves this frame's record right. */
  lemma OtherFramesStillAgree(stats: FrameStats, executed: seq<Operation>, frame: int, op: Operation)
    requires Agrees(stats, executed, frame) && !InFrame(op, frame)
    ensures Agrees(stats, executed + [op], frame)
  {
    hide Sum, QueueTotal;
    SumWithOneMore(executed, op, CostIn(frame));
    SumWithOneMore(executed, op, TransferIn(frame));
    forall queue ensures Sum(executed + [op], CostOn(frame, queue)) == Sum(executed, CostOn(frame, queue)) {
      SumWithOneMore(executed, op, CostOn(frame, queue));
    }
  }

  lemma OwnFrameStillAgrees(stats: FrameStats, executed: seq<Operation>, frame: int, op: Operation)
    requires Agrees(stats, executed, frame) && InFrame(op, frame)
    ensures Agrees(Recorded(stats, op, None), executed + [op], frame)
  {
    hide Sum, QueueTotal;
    var after := Recorded(stats, op, None);
    SumWithOneMore(executed, op, CostIn(frame));
    SumWithOneMore(executed, op, TransferIn(frame));
    QueueTotalGrows(stats.queueCosts, op.queue, op.cost);
    forall queue ensures Lookup(after.queueCosts, queue) == Sum(executed + [op], CostOn(frame, queue)) {
      SumWithOneMore(executed, op, CostOn(frame, queue));
    }
  }

  lemma BookingKeepsBalance(s: Session, op: Operation, provenance: Provenance)
    requires Balanced(s) && op.id !in s.provenance.operationIds
    requires provenance.operationIds == s.provenance.operationIds + {op.id}
    ensures Balanced(s.(provenance := provenance, executed := s.executed + [op], frames := Booked(s.frames, op, None)))
  {
    hide Agrees, Recorded;
    if op.frame.Some? {
      TouchKeepsBalance(s, op.frame.value);
      var stats := StatsOf(s.frames, op.frame.value);
      assert Agrees(Touch(s, op.frame.value).frames[op.frame.value], s.executed, op.frame.value);
      OwnFrameStillAgrees(stats, s.executed, op.frame.value, op);
    }
    forall frame | frame in s.frames && !InFrame(op, frame)
      ensures Agrees(s.frames[frame], s.executed + [op], frame)
    {
      OtherFramesStillAgree(s.frames[frame], s.executed, frame, op);
    }
  }

  lemma RemovalKeepsBalance(s: Session, op: Operation, decision: Decision, provenance: Provenance)
    requires Balanced(s)
    requires provenance.operationIds == s.provenance.operationIds + {op.id}
    ensures Balanced(s.(provenance := provenance, frames := Booked(s.frames, op, Some(decision))))
  {
    if op.frame.Some? {
      TouchKeepsBalance(s, op.frame.value);
      assert Agrees(Touch(s, op.frame.value).frames[op.frame.value], s.executed, op.frame.value);
    }
  }

  lemma SubmitKeepsBalance(s: Session, op: Operation)
    requires Balanced(s)
    ensures Balanced(OnSubmit(s, op).0)
  {
    hide Balanced, Booked, Process;
    ProcessAccounts(s.table, s.provenance, Stamped(s, op));
    var outcome := Process(s.table, s.provenance, Stamped(s, op));
    if outcome.Ok? {
      var step := outcome.value;
      match step.decision
      case None => BookingKeepsBalance(s, step.operation, step.state);
      case Some(decision) => RemovalKeepsBalance(s, step.operation, decision, step.state);
    }
  }

  lemma EventKeepsBalance(s: Session, event: Event, index: Option<nat>)
    requires Balanced(s)
    ensures Balanced(OnEvent(s, event, index).0)
  {
    match event {
      case Submit(op) => SubmitKeepsBalance(s, op);
      case BeginFrame(frame, _) => TouchKeepsBalance(s, frame);
      case EndFrame(frame) => TouchKeepsBalance(s, frame);
      case _ =>
    }
  }

  /** An event with the index it is reported under, if it has one. */
  datatype Report = Report(event: Event, index: Option<nat>)

  ghost function Run(reports: seq<Report>): Session {
    if reports == [] then OPENED
    else OnEvent(Run(reports[..|reports| - 1]), reports[|reports| - 1].event, reports[|reports| - 1].index).0
  }

  /** In every reachable state every frame's total is the cost of its queues and of its executed operations. */
  lemma {:induction false} RunsStayBalanced(reports: seq<Report>)
    ensures Balanced(Run(reports))
  {
    if reports != [] {
      hide Balanced;
      RunsStayBalanced(reports[..|reports| - 1]);
      var last := reports[|reports| - 1];
      EventKeepsBalance(Run(reports[..|reports| - 1]), last.event, last.index);
    }
  }

  // ----- Nothing submitted is lost -----

  /** The operations accepted in a run, with the frame they were stamped with. */
  ghost function Accepted(reports: seq<Report>): seq<Operation> {
    if reports == [] then []
    else
      var prior, last := Accepted(reports[..|reports| - 1]), reports[|reports| - 1];
      var before := Run(reports[..|reports| - 1]);
      if last.event.Submit? && OnEvent(before, last.event, last.index).1
      then prior + [Stamped(before, last.event.operation)] else prior
  }

  ghost predicate Accounted(frames: map<int, FrameStats>, accepted: seq<Operation>) {
    && (forall f | f in frames :: frames[f].totalCost + frames[f].savedCost == Sum(accepted, CostIn(f)))
    && (forall op | op in accepted && op.frame.Some? :: op.frame.value in frames)
  }

  lemma TouchStaysAccounted(s: Session, frame: int, accepted: seq<Operation>)
    requires Accounted(s.frames, accepted)
    ensures Accounted(Touch(s, frame).frames, accepted)
  {
    if frame !in s.frames {
      SumOfNothing(accepted, CostIn(frame));
    }
  }

  lemma BookedStaysAccounted(s: Session, op: Operation, stamped: Operation, decision: Option<Decision>,
      accepted: seq<Operation>)
    requires Accounted(s.frames, accepted)
    requires op.frame == stamped.frame && op.cost == stamped.cost
    requires decision.Some? ==> decision.value.savedCost == op.cost
    ensures Accounted(Booked(s.frames, op, decision), accepted + [stamped])
  {
    hide Sum;
    if op.frame.Some? {
      TouchStaysAccounted(s, op.frame.value, accepted);
      assert StatsOf(s.frames, op.frame.value) == Touch(s, op.frame.value).frames[op.frame.value];
    }
    var after := Booked(s.frames, op, decision);
    forall f | f in after
      ensures after[f].totalCost + after[f].savedCost == Sum(accepted + [stamped], CostIn(f))
    {
      SumWithOneMore(accepted, stamped, CostIn(f));
    }
  }

  lemma EventStaysAccounted(s: Session, event: Event, index: Option<nat>, accepted: seq<Operation>)
    requires Accounted(s.frames, accepted)
    ensures var (after, ok) := OnEvent(s, event, index);
            Accounted(after.frames, if event.Submit? && ok then accepted + [Stamped(s, event.operation)] else accepted)
  {
    match event {
      case Submit(op) =>
        hide Accounted, Booked, Process;
        ProcessAccounts(s.table, s.provenance, Stamped(s, op));
        var outcome := Process(s.table, s.provenance, Stamped(s, op));
        if outcome.Ok? {
          BookedStaysAccounted(s, outcome.value.operation, Stamped(s, op), outcome.value.decision, accepted);
        }
      case BeginFrame(frame, _) => TouchStaysAccounted(s, frame, accepted);
      case EndFrame(frame) => TouchStaysAccounted(s, frame, accepted);
      case _ =>
    }
  }

  /** For every frame, executed plus saved cost is the cost submitted to it. */
  lemma {:induction false} SubmittedCostIsExecutedOrSaved(reports: seq<Report>)
    ensures Accounted(Run(reports).frames, Accepted(reports))
  {
    if reports != [] {
      hide Accounted, OnEvent, Stamped;
      var prior, last := reports[..|reports| - 1], reports[|reports| - 1];
      SubmittedCostIsExecutedOrSaved(prior);
      EventStaysAccounted(Run(prior), last.event, last.index, Accepted(prior));
    }
  }

  // ----- Opening a frame -----

  /** The frame looks begun and not ended, yet it is not the open one. */
  ghost predicate Blocked(s: Session, frame: int) {
    && frame in s.frames && s.frames[frame].begin.Some? && s.frames[frame].end.None?
    && s.current != Some(frame)
  }

  /** The event ends the open frame, whose beginning was marked, without marking its end. */
  ghost predicate EndsUnmarked(s: Session, event: Event, index: Option<nat>, frame: int) {
    && event == EndFrame(frame) && index.None?
    && s.current == Some(frame) && frame in s.frames && s.frames[frame].begin.Some?
  }

  /** That is the only way a frame becomes blocked, and there is no way back. */
  lemma BlockingEvents(s: Session, event: Event, index: Option<nat>, frame: int)
    ensures Blocked(OnEvent(s, event, index).0, frame) <==> Blocked(s, frame) || EndsUnmarked(s, event, index, frame)
  {
    hide Process;
    match event {
      case Submit(op) =>
      case BeginFrame(_, _) =>
      case EndFrame(_) =>
      case _ =>
    }
  }

  lemma BeginNeedsNoOpenOrBlockedFrame(s: Session, frame: int, budget: Option<Cost>, index: Option<nat>)
    ensures OnEvent(s, BeginFrame(frame, budget), index).1 <==> s.current.None? && !Blocked(s, frame)
  {
  }

  /** At some point of the run the frame was ended without a mark. */
  ghost predicate EndedUnmarked(reports: seq<Report>, frame: int) {
    exists k :: 0 <= k < |reports| && EndsUnmarked(Run(reports[..k]), reports[k].event, reports[k].index, frame)
  }

  lemma {:induction false} BlockedExactlyWhen(reports: seq<Report>, frame: int)
    ensures Blocked(Run(reports), frame) <==> EndedUnmarked(reports, frame)
    decreases |reports|
  {
    hide OnEvent, Blocked, EndsUnmarked;
    if reports == [] {
      assert !Blocked(OPENED, frame) by {
        NothingIsBlockedAtFirst(frame);
      }
    } else {
      var n := |reports| - 1;
      var prior, last := reports[..n], reports[n];
      BlockedExactlyWhen(prior, frame);
      BlockingEvents(Run(prior), last.event, last.index, frame);
      assert forall k | 0 <= k < n :: prior[..k] == reports[..k] && prior[k] == reports[k];
      if EndedUnmarked(prior, frame) {
        var k :| 0 <= k < n && EndsUnmarked(Run(prior[..k]), prior[k].event, prior[k].index, frame);
        assert EndsUnmarked(Run(reports[..k]), reports[k].event, reports[k].index, frame);
      }
      if EndedUnmarked(reports, frame) {
        var k :| 0 <= k < |reports| && EndsUnmarked(Run(reports[..k]), reports[k].event, reports[k].index, frame);
        if k < n {
          assert EndsUnmarked(Run(prior[..k]), prior[k].event, prior[k].index, frame);
        }
      }
    }
  }

  lemma NothingIsBlockedAtFirst(frame: int)
    ensures !Blocked(OPENED, frame)
  {
  }

  /**
    Over every run a frame can begin exactly when none is open and it was never
    ended without a mark after a marked beginning.
   */
  lemma BeginIsAcceptedExactlyWhen(reports: seq<Report>, frame: int, budget: Option<Cost>, index: Option<nat>)
    ensures OnEvent(Run(reports), BeginFrame(frame, budget), index).1 <==>
            Run(reports).current.None? && !EndedUnmarked(reports, frame)
  {
    hide Run, OnEvent, Blocked;
    BlockedExactlyWhen(reports, frame);
    BeginNeedsNoOpenOrBlockedFrame(Run(reports), frame, budget, index);
  }

  lemma {:induction false} UnindexedRunsMarkNothing(reports: seq<Report>)
    requires forall r | r in reports :: r.index.None?
    ensures forall f | f in Run(reports).frames :: Run(reports).frames[f].begin.None?
  {
    if reports != [] {
      var prior, last := reports[..|reports| - 1], reports[|reports| - 1];
      assert last in reports;
      UnindexedRunsMarkNothing(prior);
      UnindexedEventMarksNothing(Run(prior), last.event);
    }
  }

  lemma UnindexedEventMarksNothing(s: Session, event: Event)
    requires forall f | f in s.frames :: s.frames[f].begin.None?
    ensures forall f | f in OnEvent(s, event, None).0.frames :: OnEvent(s, event, None).0.frames[f].begin.None?
  {
    hide Process;
    match event {
      case Submit(op) =>
      case BeginFrame(_, _) =>
      case EndFrame(_) =>
      case _ =>
    }
  }

  /** So when all events carry an index, or none does, a frame is refused only while one is open. */
  lemma {:induction false} BeginIsRefusedOnlyWhileOpen(
    reports: seq<Report>, frame: int, budget: Option<Cost>, index: Option<nat>)
    requires (forall r | r in reports :: r.index.Some?) || (forall r | r in reports :: r.index.None?)
    ensures OnEvent(Run(reports), BeginFrame(frame, budget), index).1 <==> Run(reports).current.None?
  {
    BeginIsAcceptedExactlyWhen(reports, frame, budget, index);
    hide Run, OnEvent;
    if EndedUnmarked(reports, frame) {
      var k :| 0 <= k < |reports| && EndsUnmarked(Run(reports[..k]), reports[k].event, reports[k].index, frame);
      assert reports[k] in reports;
      UnindexedRunsMarkNothing(reports[..k]);
      assert false;
    }
  }

  /** No later events can make a blocked frame begin again. */
  lemma BlockedFramesNeverBegin(reports: seq<Report>, more: seq<Report>, frame: int)
    requires EndedUnmarked(reports, frame)
    ensures forall budget, index :: !OnEvent(Run(reports + more), BeginFrame(frame, budget), index).1
  {
    hide Run, OnEvent, EndsUnmarked;
    var all := reports + more;
    var k :| 0 <= k < |reports| && EndsUnmarked(Run(reports[..k]), reports[k].event, reports[k].index, frame);
    assert all[..k] == reports[..k] && all[k] == reports[k];
    forall budget, index
      ensures !OnEvent(Run(all), BeginFrame(frame, budget), index).1
    {
      BeginIsAcceptedExactlyWhen(all, frame, budget, index);
    }
  }

  /** The exception is real: begun with an index, ended without one, and refused although none is open. */
  lemma EndWithoutIndexBlocksTheFrame(budget: Option<Cost>, index: Option<nat>)
    ensures var reports := [Report(BeginFrame(0, None), Some(1)), Report(EndFrame(0), None)];
            Run(reports).current.None? && !OnEvent(Run(reports), BeginFrame(0, budget), index).1
  {
    var begun, ended := Report(BeginFrame(0, None), Some(1)), Report(EndFrame(0), None);
    var reports := [begun, ended];
    assert reports[..1] == [begun] && [begun][..0] == [];
    assert Run([begun]) == OnEvent(OPENED, BeginFrame(0, None), Some(1)).0;
    assert Run(reports) == OnEvent(Run([begun]), EndFrame(0), None).0;
    assert EndsUnmarked(Run(reports[..1]), reports[1].event, reports[1].index, 0);
    BeginIsAcceptedExactlyWhen(reports, 0, budget, index);
  }
}
