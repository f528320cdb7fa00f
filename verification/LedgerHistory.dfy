/** What a session's record of frames says, told from the events it accepted. */
module LedgerHistory {
  import opened Wrappers
  import opened Sequences
  import opened Runtime
  import opened Ledger

  ghost predicate AcceptedLast(reports: seq<Report>)
    requires reports != []
  {
    var last := reports[|reports| - 1];
    OnEvent(Run(reports[..|reports| - 1]), last.event, last.index).1
  }

  /** The frame budget the last session begin with a budget asked for. */
  ghost function BudgetInForce(reports: seq<Report>): real {
    if reports == [] then 16.67
    else
      match reports[|reports| - 1].event
      case BeginSession(Some(budget)) => budget
      case _ => BudgetInForce(reports[..|reports| - 1])
  }

  /** What the last accepted begin of the frame asked for; no budget or zero means the session's. */
  ghost function TargetAsked(reports: seq<Report>, frame: int): real {
    if reports == [] then 16.67
    else
      var prior := reports[..|reports| - 1];
      match reports[|reports| - 1].event
      case BeginFrame(f, budget) =>
        if f != frame || !AcceptedLast(reports) then TargetAsked(prior, frame)
        else if budget.None? || budget.value == 0.0 then BudgetInForce(prior)
        else budget.value
      case _ => TargetAsked(prior, frame)
  }

  /** The index of the last accepted begin of the frame, and of its last accepted end. */
  ghost function BeginMark(reports: seq<Report>, frame: int): Option<nat> {
    if reports == [] then None
    else
      var prior, last := reports[..|reports| - 1], reports[|reports| - 1];
      match last.event
      case BeginFrame(f, _) => if f == frame && AcceptedLast(reports) then last.index else BeginMark(prior, frame)
      case _ => BeginMark(prior, frame)
  }

  ghost function EndMark(reports: seq<Report>, frame: int): Option<nat> {
    if reports == [] then None
    else
      var prior, last := reports[..|reports| - 1], reports[|reports| - 1];
      match last.event
      case EndFrame(f) => if f == frame && AcceptedLast(reports) then last.index else EndMark(prior, frame)
      case _ => EndMark(prior, frame)
  }

  /** The frame begun last and not ended since. */
  ghost function OpenFrame(reports: seq<Report>): Option<int> {
    if reports == [] then None
    else
      var prior := reports[..|reports| - 1];
      match reports[|reports| - 1].event
      case BeginFrame(f, _) => if AcceptedLast(reports) then Some(f) else OpenFrame(prior)
      case EndFrame(f) => if OpenFrame(prior) == Some(f) then None else OpenFrame(prior)
      case _ => OpenFrame(prior)
  }

  /** Whether the last session event that counted was an end; an end counts only while no frame is open. */
  ghost predicate Ended(reports: seq<Report>) {
    reports != [] &&
    var prior := reports[..|reports| - 1];
    match reports[|reports| - 1].event
    case BeginSession(_) => false
    case EndSession => OpenFrame(prior).None? || Ended(prior)
    case _ => Ended(prior)
  }

  /** Some event named the frame, or some accepted operation ran in it. */
  ghost predicate Mentioned(reports: seq<Report>, frame: int) {
    reports != [] &&
    var prior, last := reports[..|reports| - 1], reports[|reports| - 1];
    || Mentioned(prior, frame)
    || match last.event
       case BeginFrame(f, _) => f == frame
       case EndFrame(f) => f == frame
       case Submit(op) =>
         AcceptedLast(reports) && (if op.frame.Some? then op.frame else OpenFrame(prior)) == Some(frame)
       case _ => false
  }

  /** The part of a session that the history determines directly. */
  ghost predicate Tells(reports: seq<Report>, s: Session) {
    && s.frameBudget == BudgetInForce(reports)
    && s.current == OpenFrame(reports)
    && s.closed == Ended(reports)
    && (forall f :: f in s.frames <==> Mentioned(reports, f))
    && (forall f | f in s.frames ::
          && s.frames[f].target == TargetAsked(reports, f)
          && s.frames[f].begin == BeginMark(reports, f) && s.frames[f].end == EndMark(reports, f))
    && (forall f | f !in s.frames ::
          TargetAsked(reports, f) == 16.67 && BeginMark(reports, f).None? && EndMark(reports, f).None?)
  }

  /** Only beginning and ending frames changes what is open, asked for and marked. */
  lemma MarksAreKept(prior: seq<Report>, report: Report)
    requires !report.event.BeginFrame? && !report.event.EndFrame?
    ensures OpenFrame(prior + [report]) == OpenFrame(prior)
    ensures forall f ::
              && TargetAsked(prior + [report], f) == TargetAsked(prior, f)
              && BeginMark(prior + [report], f) == BeginMark(prior, f)
              && EndMark(prior + [report], f) == EndMark(prior, f)
  {
    hide AcceptedLast;
    var reports := prior + [report];
    assert reports[..|reports| - 1] == prior && reports[|reports| - 1] == report;
  }

  lemma SubmitSays(prior: seq<Report>, report: Report)
    requires report.event.Submit?
    ensures var reports, op := prior + [report], report.event.operation;
            && BudgetInForce(reports) == BudgetInForce(prior) && Ended(reports) == Ended(prior)
            && forall f ::
                 Mentioned(reports, f) <==>
                 || Mentioned(prior, f)
                 || (OnEvent(Run(prior), report.event, report.index).1
                     && (if op.frame.Some? then op.frame else OpenFrame(prior)) == Some(f))
  {
    hide OnEvent, Run, OpenFrame;
    var reports := prior + [report];
    assert reports[..|reports| - 1] == prior && reports[|reports| - 1] == report;
  }

  lemma {:induction false} SubmitTells(prior: seq<Report>, report: Report)
    requires Tells(prior, Run(prior)) && report.event.Submit?
    ensures Tells(prior + [report], OnEvent(Run(prior), report.event, report.index).0)
  {
    hide Runtime.Process, Run, Recorded, BudgetInForce, TargetAsked, BeginMark, EndMark, OpenFrame, Ended, Mentioned;
    var s, op := Run(prior), report.event.operation;
    ProcessAccounts(s.table, s.provenance, Stamped(s, op));
    RecordingKeepsTarget();
    MarksAreKept(prior, report);
    SubmitSays(prior, report);
  }

  lemma RecordingKeepsTarget()
    ensures forall stats, op, decision ::
              var after := Recorded(stats, op, decision);
              after.target == stats.target && after.begin == stats.begin && after.end == stats.end
  {
  }

  lemma BeginSays(prior: seq<Report>, report: Report)
    requires report.event.BeginFrame?
    ensures var reports, accepted := prior + [report], OnEvent(Run(prior), report.event, report.index).1;
            var BeginFrame(frame, budget) := report.event;
            && BudgetInForce(reports) == BudgetInForce(prior) && Ended(reports) == Ended(prior)
            && OpenFrame(reports) == (if accepted then Some(frame) else OpenFrame(prior))
            && forall f ::
                 && (Mentioned(reports, f) <==> Mentioned(prior, f) || f == frame)
                 && EndMark(reports, f) == EndMark(prior, f)
                 && BeginMark(reports, f) == (if f == frame && accepted then report.index else BeginMark(prior, f))
                 && TargetAsked(reports, f) ==
                    (if f != frame || !accepted then TargetAsked(prior, f)
                     else if budget.None? || budget.value == 0.0 then BudgetInForce(prior)
                     else budget.value)
  {
    hide OnEvent, Run;
    var reports := prior + [report];
    assert reports[..|reports| - 1] == prior && reports[|reports| - 1] == report;
  }

  lemma {:induction false} BeginTells(prior: seq<Report>, report: Report)
    requires Tells(prior, Run(prior)) && report.event.BeginFrame?
    ensures Tells(prior + [report], OnEvent(Run(prior), report.event, report.index).0)
  {
    hide Run, BudgetInForce, TargetAsked, BeginMark, EndMark, OpenFrame, Ended, Mentioned;
    BeginSays(prior, report);
  }

  lemma EndSays(prior: seq<Report>, report: Report)
    requires report.event.EndFrame?
    ensures var reports, accepted := prior + [report], OnEvent(Run(prior), report.event, report.index).1;
            var EndFrame(frame) := report.event;
            && BudgetInForce(reports) == BudgetInForce(prior) && Ended(reports) == Ended(prior)
            && OpenFrame(reports) == (if OpenFrame(prior) == Some(frame) then None else OpenFrame(prior))
            && forall f ::
                 && (Mentioned(reports, f) <==> Mentioned(prior, f) || f == frame)
                 && BeginMark(reports, f) == BeginMark(prior, f) && TargetAsked(reports, f) == TargetAsked(prior, f)
                 && EndMark(reports, f) == (if f == frame && accepted then report.index else EndMark(prior, f))
  {
    hide OnEvent, Run;
    var reports := prior + [report];
    assert reports[..|reports| - 1] == prior && reports[|reports| - 1] == report;
  }

  lemma {:induction false} EndTells(prior: seq<Report>, report: Report)
    requires Tells(prior, Run(prior)) && report.event.EndFrame?
    ensures Tells(prior + [report], OnEvent(Run(prior), report.event, report.index).0)
  {
    hide Run, BudgetInForce, TargetAsked, BeginMark, EndMark, OpenFrame, Ended, Mentioned;
    EndSays(prior, report);
  }

  lemma OtherEventsSay(prior: seq<Report>, report: Report)
    requires !report.event.Submit? && !report.event.BeginFrame? && !report.event.EndFrame?
    ensures var reports := prior + [report];
            && BudgetInForce(reports) ==
               (match report.event case BeginSession(Some(b)) => b case _ => BudgetInForce(prior))
            && Ended(reports) ==
               (match report.event
                case BeginSession(_) => false
                case EndSession => OpenFrame(prior).None? || Ended(prior)
                case _ => Ended(prior))
            && forall f :: Mentioned(reports, f) <==> Mentioned(prior, f)
  {
    hide AcceptedLast, OpenFrame;
    var reports := prior + [report];
    assert reports[..|reports| - 1] == prior && reports[|reports| - 1] == report;
  }

  lemma {:induction false} OtherEventsTell(prior: seq<Report>, report: Report)
    requires Tells(prior, Run(prior))
    requires !report.event.Submit? && !report.event.BeginFrame? && !report.event.EndFrame?
    ensures Tells(prior + [report], OnEvent(Run(prior), report.event, report.index).0)
  {
    hide Run, BudgetInForce, TargetAsked, BeginMark, EndMark, OpenFrame, Ended, Mentioned;
    MarksAreKept(prior, report);
    OtherEventsSay(prior, report);
    match report.event {
      case BeginSession(_) => case EndSession =>
      case Register(_, _) => case Release(_) => case ReadState => case Malformed =>
    }
  }

  /**
    In every reachable state the session budget, the open frame, whether the session
    ended, which frames are recorded, their targets and their marks are what the events say.
   */
  lemma {:induction false} SessionsTellTheirHistory(reports: seq<Report>)
    ensures Tells(reports, Run(reports))
    decreases |reports|
  {
    hide OnEvent, Tells;
    if reports == [] {
      NothingToTell();
    } else {
      var prior, last := reports[..|reports| - 1], reports[|reports| - 1];
      SessionsTellTheirHistory(prior);
      assert prior + [last] == reports;
      match last.event {
        case Submit(_) => SubmitTells(prior, last);
        case BeginFrame(_, _) => BeginTells(prior, last);
        case EndFrame(_) => EndTells(prior, last);
        case _ => OtherEventsTell(prior, last);
      }
    }
  }

  lemma NothingToTell()
    ensures Tells([], OPENED)
  {
  }

  lemma EndIsAcceptedExactlyWhen(reports: seq<Report>, frame: int, index: Option<nat>)
    ensures OnEvent(Run(reports), EndFrame(frame), index).1 <==> OpenFrame(reports) == Some(frame)
    ensures OnEvent(Run(reports), EndSession, index).1 <==> OpenFrame(reports).None?
  {
    hide Run;
    SessionsTellTheirHistory(reports);
  }

  // ----- Counting what was accepted -----

  ghost function Is(frame: int): Operation -> real {
    (o: Operation) => if o.frame == Some(frame) then 1.0 else 0.0
  }

  /** The bytes a submission is worth, were it removed: a sync moves none. */
  ghost function Worth(frame: int): Operation -> real {
    (o: Operation) => if o.frame == Some(frame) && o.kind != Sync then o.size as real else 0.0
  }

  /** Every accepted operation is counted, and so is every one that did not execute, with its bytes. */
  ghost predicate Counts(frames: map<int, FrameStats>, accepted: seq<Operation>, executed: seq<Operation>) {
    && (forall f | f in frames ::
          && frames[f].operations as real == Sum(accepted, Is(f))
          && frames[f].decisions as real == Sum(accepted, Is(f)) - Sum(executed, Is(f))
          && frames[f].savedSize as real == Sum(accepted, Worth(f)) - Sum(executed, Worth(f)))
    && (forall op | op in accepted && op.frame.Some? :: op.frame.value in frames)
    && (forall op | op in executed && op.frame.Some? :: op.frame.value in frames)
  }

  lemma TouchStillCounts(s: Session, frame: int, accepted: seq<Operation>)
    requires Counts(s.frames, accepted, s.executed)
    ensures Counts(Touch(s, frame).frames, accepted, s.executed)
  {
    if frame !in s.frames {
      SumOfNothing(accepted, Is(frame));
      SumOfNothing(s.executed, Is(frame));
      SumOfNothing(accepted, Worth(frame));
      SumOfNothing(s.executed, Worth(frame));
    }
  }

  lemma RecordedStillCounts(s: Session, stamped: Operation, step: Outcome, accepted: seq<Operation>)
    requires Counts(s.frames, accepted, s.executed)
    requires step.operation == stamped.(dependsOn := step.operation.dependsOn)
    requires step.decision.Some? ==> step.decision.value.savedSize == if stamped.kind == Sync then 0 else stamped.size
    ensures Counts(Booked(s.frames, step.operation, step.decision), accepted + [stamped],
                   if step.decision.None? then s.executed + [step.operation] else s.executed)
  {
    hide Sum;
    if stamped.frame.Some? {
      TouchStillCounts(s, stamped.frame.value, accepted);
      assert StatsOf(s.frames, stamped.frame.value) ==
             Touch(s, stamped.frame.value).frames[stamped.frame.value];
    }
    var after := Booked(s.frames, step.operation, step.decision);
    var executed := if step.decision.None? then s.executed + [step.operation] else s.executed;
    forall f | f in after
      ensures Sum(accepted + [stamped], Is(f)) == Sum(accepted, Is(f)) + Is(f)(stamped)
      ensures Sum(accepted + [stamped], Worth(f)) == Sum(accepted, Worth(f)) + Worth(f)(stamped)
      ensures Sum(executed, Is(f)) ==
              Sum(s.executed, Is(f)) + if step.decision.None? then Is(f)(stamped) else 0.0
      ensures Sum(executed, Worth(f)) ==
              Sum(s.executed, Worth(f)) + if step.decision.None? then Worth(f)(stamped) else 0.0
    {
      SumWithOneMore(accepted, stamped, Is(f));
      SumWithOneMore(accepted, stamped, Worth(f));
      SumWithOneMore(s.executed, step.operation, Is(f));
      SumWithOneMore(s.executed, step.operation, Worth(f));
    }
  }

  lemma StepsSayWhatTheySave(table: Table, state: Provenance, op: Operation)
    requires Process(table, state, op).Ok?
    ensures var step := Process(table, state, op).value;
            && step.operation == op.(dependsOn := step.operation.dependsOn)
            && (step.decision.Some? ==> step.decision.value.savedSize == if op.kind == Sync then 0 else op.size)
  {
    hide Dedup, ResolveAll, Retained, Keep, Linked, IsTransientReason, Repeats;
  }

  lemma SubmitStillCounts(s: Session, op: Operation, accepted: seq<Operation>)
    requires Counts(s.frames, accepted, s.executed)
    ensures var (after, ok) := OnSubmit(s, op);
            Counts(after.frames, if ok then accepted + [Stamped(s, op)] else accepted, after.executed)
  {
    hide Counts, Booked, Runtime.Process, Stamped;
    if Process(s.table, s.provenance, Stamped(s, op)).Ok? {
      StepsSayWhatTheySave(s.table, s.provenance, Stamped(s, op));
      RecordedStillCounts(s, Stamped(s, op), Process(s.table, s.provenance, Stamped(s, op)).value, accepted);
    }
  }

  lemma MarkingStillCounts(
    frames: map<int, FrameStats>, next: map<int, FrameStats>, accepted: seq<Operation>, executed: seq<Operation>)
    requires Counts(frames, accepted, executed) && next.Keys == frames.Keys
    requires forall f | f in frames ::
               && next[f].operations == frames[f].operations && next[f].decisions == frames[f].decisions
               && next[f].savedSize == frames[f].savedSize
    ensures Counts(next, accepted, executed)
  {
  }

  lemma BeginStillCounts(s: Session, frame: int, budget: Option<Cost>, index: Option<nat>, accepted: seq<Operation>)
    requires Counts(s.frames, accepted, s.executed)
    ensures var after := OnBeginFrame(s, frame, budget, index).0;
            Counts(after.frames, accepted, after.executed)
  {
    hide Counts, BudgetOr;
    TouchStillCounts(s, frame, accepted);
    MarkingStillCounts(Touch(s, frame).frames, OnBeginFrame(s, frame, budget, index).0.frames, accepted, s.executed);
  }

  lemma EndStillCounts(s: Session, frame: int, index: Option<nat>, accepted: seq<Operation>)
    requires Counts(s.frames, accepted, s.executed)
    ensures var after := OnEndFrame(s, frame, index).0;
            Counts(after.frames, accepted, after.executed)
  {
    hide Counts;
    TouchStillCounts(s, frame, accepted);
    MarkingStillCounts(Touch(s, frame).frames, OnEndFrame(s, frame, index).0.frames, accepted, s.executed);
  }

  lemma {:induction false} EventStillCounts(s: Session, event: Event, index: Option<nat>, accepted: seq<Operation>)
    requires Counts(s.frames, accepted, s.executed)
    ensures var (after, ok) := OnEvent(s, event, index);
            Counts(after.frames, if event.Submit? && ok then accepted + [Stamped(s, event.operation)] else accepted,
                   after.executed)
  {
    hide Counts, OnSubmit, OnRelease, OnBeginFrame, OnEndFrame, Stamped;
    match event {
      case Submit(op) => SubmitStillCounts(s, op, accepted);
      case BeginFrame(frame, budget) => BeginStillCounts(s, frame, budget, index, accepted);
      case EndFrame(frame) => EndStillCounts(s, frame, index, accepted);
      case Release(id) => ReleaseKeepsFrames(s, id);
      case _ =>
    }
  }

  lemma ReleaseKeepsFrames(s: Session, id: string)
    ensures OnRelease(s, id).0.frames == s.frames && OnRelease(s, id).0.executed == s.executed
  {
  }

  /** For every frame of every run, operations, removals and bytes saved are counted exactly. */
  lemma {:induction false} RunsCountExactly(reports: seq<Report>)
    ensures Counts(Run(reports).frames, Accepted(reports), Run(reports).executed)
  {
    if reports != [] {
      hide Counts, OnEvent, Stamped;
      var prior, last := reports[..|reports| - 1], reports[|reports| - 1];
      RunsCountExactly(prior);
      EventStillCounts(Run(prior), last.event, last.index, Accepted(prior));
    }
  }
}
