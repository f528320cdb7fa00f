/**
  The adapter session as the event handler behind ordinary operation events: what
  the client is told about the operation it submitted.
 */
module OperationHandler {
  import opened Wrappers
  import opened Bytes
  import opened Utf8
  import opened Control
  import opened PayloadCodec
  import opened OperationEvents
  import opened DecisionCodec
  import opened Session
  import opened SessionSafety
  import opened SessionResponses
  import opened SessionAnswers
  import opened BatchHandler
  import FrameCodec
  import Ledger
  import Runtime

  /** The operation an event describes; surrounding blanks do not belong to its id. */
  function OperationOfEvent(event: OperationEvent): Runtime.Operation {
    Runtime.Operation(
      Chars(Strip(event.id)), event.kind,
      ResourceName(event.names.source), ResourceName(event.names.target),
      QueueName(event.queue), ReasonText(event.names.reason),
      Millis(event.amounts.costUs), if event.amounts.sizeBytes < 0 then 0 else event.amounts.sizeBytes,
      event.amounts.frame,
      seq(|event.dependencies|, i requires 0 <= i < |event.dependencies| => Chars(event.dependencies[i])))
  }

  /** The session after an operation event, and the reply. */
  ghost function Submission(s: Ledger.Session, event: OperationEvent): (Ledger.Session, Reply) {
    var op := OperationOfEvent(event);
    (Ledger.OnSubmit(s, op).0,
     match Runtime.Process(s.table, s.provenance, Ledger.Stamped(s, op))
     case Err(_) => Raises(Ascii("Duplicate operation id: ") + Strip(event.id))
     case Ok(step) => ReplyFor(VerdictOf(step.decision)))
  }

  /** The handler submits every operation event it is given. */
  ghost predicate Submits(ordinary: Ordinary) {
    forall s: Ledger.Session, payload | DecodeOperationEvent(payload).Ok? ::
      ordinary(s, OPERATION_EVENT, payload) == Submission(s, DecodeOperationEvent(payload).value)
  }

  lemma DecodedEventIsBounded(payload: seq<Byte>)
    requires DecodeOperationEvent(payload).Ok?
    ensures var event := DecodeOperationEvent(payload).value;
            && 0 <= event.amounts.costUs < Pow256(4) && 0 <= event.amounts.sizeBytes < Pow256(8)
            && Encodable(event.id)
  {
    hide TakeEventHead, TakeNames, TakeAmounts, TakeDependencies, LittleEndian, Pow256;
    IdIsEncodable(payload);
  }

  lemma IdIsEncodable(payload: seq<Byte>)
    requires DecodeOperationEvent(payload).Ok?
    ensures Encodable(DecodeOperationEvent(payload).value.id)
  {
    hide TakeEventHead, TakeNames, TakeAmounts, TakeDependencies, LittleEndian, Pow256, Encode;
  }

  /** A removed operation's savings fit their fields, and come back as submitted. */
  lemma SavingsFit(event: OperationEvent, verdict: Verdict)
    requires Modest(verdict, OperationOfEvent(event)) && verdict.Removed?
    requires 0 <= event.amounts.costUs < Pow256(4) && 0 <= event.amounts.sizeBytes < Pow256(8)
    ensures Micros(verdict.savedCost) == event.amounts.costUs
    ensures InWireRange(DecisionReport(Some(verdict.policy), Micros(verdict.savedCost), verdict.savedSize))
  {
    hide Micros, Millis, Chars, ResourceName, ReasonText, QueueName;
    Widths();
    MicrosRoundTrip(event.amounts.costUs);
  }

  lemma HandlerSubmits(
    start: Ledger.Session, ordinary: Ordinary, log: seq<Call>, request: FrameCodec.Frame, event: OperationEvent)
    requires Submits(ordinary) && request.subjectOpcode == 103 && DecodeOperationEvent(request.payload) == Ok(event)
    ensures AdapterScript(start, ordinary)(Events(log + [EventCall(request)])) ==
            Submission(Found(start, ordinary, log), event).1
  {
    hide Submission, Replay;
    ReplayOneMore(start, ordinary, log, EventCall(request));
  }

  lemma DuplicateIsReportable(id: Text)
    requires Encodable(id)
    ensures !KeepsSurrogate(Ascii("Duplicate operation id: ") + id, MAX_REASON)
  {
    var message := Ascii("Duplicate operation id: ") + id;
    assert Encodable(message);
    StripKeepsEncodable(message);
    NothingKept(message);
  }

  /**
    With the adapter session as handler, an operation event is answered by the
    optimizer's verdict on its operation: executed, or removed by a policy whose
    number and savings the client reads.  A taken id is an error, and the session
    stays open.
   */
  lemma OptimizerAnswersOperations(
    world: World, start: Ledger.Session, ordinary: Ordinary, state: State, log: seq<Call>, request: FrameCodec.Frame,
    freshId: seq<Byte>)
    requires world.script == AdapterScript(start, ordinary) && Submits(ordinary)
    requires ReachesHandler(world, state, request) && request.subjectOpcode == 103
    requires DecodeOperationEvent(request.payload).Ok?
    ensures var event, s := DecodeOperationEvent(request.payload).value, Found(start, ordinary, log);
            var step := Runtime.Process(s.table, s.provenance, Ledger.Stamped(s, OperationOfEvent(event)));
            var served := Process(world, state, log, request, freshId);
            && served.state == Advanced(state)
            && match step
               case Err(_) => RefusedAs(served, served.log, 11)
               case Ok(outcome) =>
                 match outcome.decision
                 case None => Decided(served, 103, 0, RuntimeDecision(true, Some(true), 0, 0))
                 case Some(d) =>
                   exists opcode ::
                     && Numbered(Some(d.policy), opcode)
                     && Decided(served, 103, opcode,
                                RuntimeDecision(true, Some(false), event.amounts.costUs, d.savedSize))
  {
    hide Process, ReachesHandler, Decided, DecodeOperationEvent, AdapterScript, Runtime.Process, Found, Numbered,
         OperationOfEvent, Submits, RefusedAs, InWireRange, KeepsSurrogate, DecodeErrorPayload;
    var event, s := DecodeOperationEvent(request.payload).value, Found(start, ordinary, log);
    var op := Ledger.Stamped(s, OperationOfEvent(event));
    DecodedEventIsBounded(request.payload);
    HandlerSubmits(start, ordinary, log, request, event);
    EventIsAnswered(world, state, log, request, freshId);
    var step := Runtime.Process(s.table, s.provenance, op);
    if step.Err? {
      StripKeepsEncodable(event.id);
      DuplicateIsReportable(Strip(event.id));
    } else {
      DecisionIsModest(s.table, s.provenance, op);
      if step.value.decision.Some? {
        SavingsFit(event, VerdictOf(step.value.decision));
      }
    }
  }
}
