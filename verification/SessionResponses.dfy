/**
  Which requests get a response that can be sent, for any event handler, over one
  request and over whole runs.
 */
module SessionResponses {
  import opened Wrappers
  import opened Bytes
  import opened Utf8
  import opened FrameCodec
  import opened PayloadCodec
  import opened DecisionCodec
  import opened Session
  import opened SessionSafety

  /** The text the handler raised while the request was served, if it raised. */
  ghost function Raised(world: World, log: seq<Call>): Option<Text> {
    match world.script(Events(log))
    case Raises(message) => Some(message)
    case Answers(_, _) => None
  }

  /** The response can be put on the wire. */
  ghost predicate Sendable(served: Served) {
    served.response.Some? && FrameCodec.Valid(served.response.value)
  }

  ghost predicate CanRespond(state: State) {
    state.sessionId.Some? ==> Identity(state.sessionId.value)
  }

  lemma RespondIsValid(
    request: Frame, opcode: int, subject: int, decision: int, sessionId: Option<seq<Byte>>, ok: bool,
    payload: seq<Byte>)
    requires FrameCodec.Valid(request)
    requires IsByte(opcode) && IsByte(subject) && IsByte(decision)
    requires sessionId.Some? ==> Identity(sessionId.value)
    requires |payload| <= FrameCodec.MAX_PAYLOAD
    ensures FrameCodec.Valid(Respond(request, opcode, subject, decision, sessionId, ok, payload))
  {
    hide AllZero;
  }

  lemma FailIsSendable(state: State, log: seq<Call>, request: Frame, code: ErrorCode, message: Text)
    requires FrameCodec.Valid(request) && CanRespond(state)
    ensures Sendable(Fail(state, log, request, code, message)) <==> !KeepsSurrogate(message, MAX_REASON)
    ensures Fail(state, log, request, code, message).response.None? <==> KeepsSurrogate(message, MAX_REASON)
  {
    hide EncodeErrorPayload, KeepsSurrogate, AllZero;
    ErrorPayloadIsWritable(CodeNumber(code), message);
    var payload := EncodeErrorPayload(CodeNumber(code), message);
    if payload.Ok? {
      RespondIsValid(request, ERROR, request.subjectOpcode, UNKNOWN, state.sessionId, false, payload.value);
    }
  }

  lemma {:induction false} StripKeepsEncodable(text: Text)
    requires Encodable(text)
    ensures Encodable(Strip(text))
  {
    StripLeftKeeps(text);
    StripRightKeeps(StripLeft(text));
  }

  lemma {:induction false} StripLeftKeeps(text: Text)
    requires Encodable(text)
    ensures Encodable(StripLeft(text))
  {
    if text != [] && IsSpace(text[0]) {
      StripLeftKeeps(text[1..]);
    }
  }

  lemma {:induction false} StripRightKeeps(text: Text)
    requires Encodable(text)
    ensures Encodable(StripRight(text))
    decreases |text|
  {
    if text != [] && IsSpace(text[|text| - 1]) {
      StripRightKeeps(text[..|text| - 1]);
    }
  }

  lemma FixedMessagesAreSendable(state: State, log: seq<Call>, request: Frame, code: ErrorCode, message: Text)
    requires FrameCodec.Valid(request) && CanRespond(state) && Encodable(message)
    ensures Sendable(Fail(state, log, request, code, message))
    ensures !KeepsSurrogate(message, MAX_REASON)
  {
    hide Wording, Fail;
    StripKeepsEncodable(message);
    FailIsSendable(state, log, request, code, message);
  }

  // A rejection reports what the handler raised last, or a fixed message.
  ghost predicate ReportsHandler(reply: Reply, message: Text) {
    if reply.Raises? then message == reply.message else Encodable(message)
  }

  lemma CompactReports(eventOpcode: int, reply: Reply)
    ensures Compact(eventOpcode, reply).Err? ==> ReportsHandler(reply, Compact(eventOpcode, reply).error)
    ensures Compact(eventOpcode, reply).Ok? ==> reply.Answers? && IsByte(Compact(eventOpcode, reply).value.opcode)
  {
  }

  lemma {:induction false} BatchReports(script: Script, log: seq<Call>, sequence: int, batch: OperationBatch,
      count: nat)
    ensures var (after, entries) := HandleBatchOperations(script, log, sequence, batch, count);
            && (entries.Err? ==> |after| > |log| && ReportsHandler(script(Events(after)), entries.error))
            && (entries.Ok? && count > 0 ==> |after| > |log| && script(Events(after)).Answers?)
  {
    hide Compact, ReportsHandler;
    if count > 0 {
      BatchReports(script, log, sequence, batch, count - 1);
      BatchCalls(script, log, sequence, batch, count - 1);
      var (before, entries) := HandleBatchOperations(script, log, sequence, batch, count - 1);
      var after := before + [Call(sequence, BatchOperation(batch, count - 1))];
      CompactReports(OPERATION_EVENT, script(Events(after)));
    }
  }

  /** The handler was reached and its last reply raised a message that cannot be reported. */
  ghost predicate RaisedUnreportable(world: World, log: seq<Call>, after: seq<Call>) {
    after != log && Raised(world, after).Some? && KeepsSurrogate(Raised(world, after).value, MAX_REASON)
  }

  ghost predicate SendableUnlessUnreportable(world: World, log: seq<Call>, served: Served) {
    if RaisedUnreportable(world, log, served.log) then served.response.None? else Sendable(served)
  }

  lemma ReportedFailure(
    world: World, state: State, log: seq<Call>, after: seq<Call>, request: Frame, code: ErrorCode, message: Text)
    requires FrameCodec.Valid(request) && CanRespond(state)
    requires after != log && ReportsHandler(world.script(Events(after)), message)
    ensures SendableUnlessUnreportable(world, log, Fail(state, after, request, code, message))
  {
    hide KeepsSurrogate, FrameCodec.Valid, EncodeErrorPayload;
    FailIsSendable(state, after, request, code, message);
    if world.script(Events(after)).Answers? {
      FixedMessagesAreSendable(state, after, request, code, message);
    }
  }

  lemma FixedFailure(world: World, state: State, log: seq<Call>, request: Frame)
    requires FrameCodec.Valid(request) && CanRespond(state)
    ensures forall code, message | Encodable(message) ::
              SendableUnlessUnreportable(world, log, Fail(state, log, request, code, message))
  {
    hide Wording, Fail, KeepsSurrogate, FrameCodec.Valid;
    FailuresKeep(state, log, request);
    forall code, message | Encodable(message)
      ensures SendableUnlessUnreportable(world, log, Fail(state, log, request, code, message))
    {
      FixedMessagesAreSendable(state, log, request, code, message);
    }
  }

  lemma HelloIsSendable(world: World, state: State, log: seq<Call>, request: Frame, freshId: seq<Byte>)
    requires ValidWorld(world) && FrameCodec.Valid(request) && state.sessionId.None? && Identity(freshId)
    ensures SendableUnlessUnreportable(world, log, HandleHello(world, state, log, request, freshId))
  {
    hide Wording, Fail, FrameCodec.Valid, DecodeHello, EncodeWelcome, FitsField, AllZero, Encodable, KeepsSurrogate;
    FixedFailure(world, state, log, request);
    var decoded := DecodeHello(request.payload);
    if decoded.Ok? {
      var hello := decoded.value;
      var available := Available(hello.digest);
      if available.Some? {
        var accepted := (hello.requested + hello.required) * available.value;
        var welcome := Welcome(hello.digest, available.value, accepted, world.serverName, world.serverVersion);
        WelcomeIsWritable(welcome);
        RespondIsValid(request, WELCOME, 0, 0, Some(freshId), true, EncodeWelcome(welcome).value);
      }
    }
  }

  lemma EventIsSendable(world: World, state: State, log: seq<Call>, request: Frame)
    requires FrameCodec.Valid(request) && CanRespond(state) && request.subjectOpcode != BATCH_EVENT
    ensures SendableUnlessUnreportable(world, log, HandleRuntimeEvent(world, state, log, request))
  {
    hide Wording, Fail, FrameCodec.Valid, Compact, DecisionField, KeepsSurrogate, Encodable, ReportsHandler;
    FixedFailure(world, state, log, request);
    var after := log + [Call(request.sequence, RuntimeEvent(request.subjectOpcode, request.payload))];
    var reply := world.script(Events(after));
    CompactReports(request.subjectOpcode, reply);
    var entry := Compact(request.subjectOpcode, reply);
    if entry.Err? {
      ReportedFailure(world, state, log, after, request, RuntimeEventRejected, entry.error);
    } else if DecisionField(entry.value.decision).Err? {
      var message := Wording(DecisionOutOfRange);
      AnsweredMeansFixed(reply, message);
      ReportedFailure(world, state, log, after, request, RuntimeEventRejected, message);
    } else {
      DecisionParsesBack(entry.value.decision, []);
      SubjectIsByte(request);
      RespondIsValid(request, RUNTIME_DECISION, request.subjectOpcode, entry.value.opcode, state.sessionId, true,
                     DecisionField(entry.value.decision).value);
    }
  }

  lemma SubjectIsByte(request: Frame)
    requires FrameCodec.Valid(request)
    ensures IsByte(request.subjectOpcode) && |request.payload| <= FrameCodec.MAX_PAYLOAD
  {
  }

  lemma AnsweredMeansFixed(reply: Reply, message: Text)
    requires reply.Answers? && Encodable(message)
    ensures ReportsHandler(reply, message)
  {
  }

  lemma BatchIsSendable(world: World, state: State, log: seq<Call>, request: Frame)
    requires FrameCodec.Valid(request) && CanRespond(state)
    ensures SendableUnlessUnreportable(world, log, HandleBatch(world, state, log, request))
  {
    hide Wording, Fail, FrameCodec.Valid, HandleBatchOperations, DecodeBatch, VectorPayload, KeepsSurrogate, Encodable,
         ReportsHandler;
    FixedFailure(world, state, log, request);
    if DecodeBatch(request.payload).Ok? {
      var batch := DecodeBatch(request.payload).value;
      CountIsPositive(request.payload);
      BatchReports(world.script, log, request.sequence, batch, Count(batch));
      var (after, entries) := HandleBatchOperations(world.script, log, request.sequence, batch, Count(batch));
      var closed := state.(closed := true);
      match BatchAnswer(batch, entries) {
        case Err(message) =>
          if entries.Ok? {
            AnsweredMeansFixed(world.script(Events(after)), message);
          }
          ReportedFailure(world, closed, log, after, request, RuntimeEventRejected, message);
        case Ok(payload) =>
          RespondIsValid(request, RUNTIME_DECISION, BATCH_EVENT, BATCH_VECTOR, state.sessionId, true, payload);
      }
    }
  }

  lemma PingIsSendable(world: World, state: State, log: seq<Call>, request: Frame)
    requires FrameCodec.Valid(request) && CanRespond(state)
    ensures SendableUnlessUnreportable(world, log, HandlePing(state, log, request))
  {
    hide Wording, Fail, FrameCodec.Valid, TextField, DecodeNonce, KeepsSurrogate, Encodable;
    FixedFailure(world, state, log, request);
    if DecodeNonce(request.payload).Ok? {
      NonceIsEchoed(request.payload);
      SubjectIsByte(request);
      RespondIsValid(request, PONG, 0, 0, state.sessionId, true, request.payload);
    }
  }

  /**
    Every valid request gets a response that can be sent, except when the handler
    raised a message that is short, holds a lone surrogate, and so fails to encode.
   */
  lemma ResponsesAreSendable(world: World, state: State, log: seq<Call>, request: Frame, freshId: seq<Byte>)
    requires ValidWorld(world) && FrameCodec.Valid(request) && CanRespond(state) && Identity(freshId)
    ensures var served := Process(world, state, log, request, freshId);
            && CanRespond(served.state)
            && (Sendable(served) <==> !RaisedUnreportable(world, log, served.log))
            && (served.response.None? <==> RaisedUnreportable(world, log, served.log))
  {
    hide Wording, Fail, FrameCodec.Valid, HandleHello, HandleRuntimeEvent, HandlePing, KeepsSurrogate, Encodable,
        AllZero;
    var next := state.(expectedSequence := state.expectedSequence + 1);
    FixedFailure(world, state, log, request);
    FixedFailure(world, next, log, request);
    FailuresKeep(state, log, request);
    FailuresKeep(next, log, request);
    if state.sessionId.None? {
      HelloIsSendable(world, next, log, request, freshId);
      HelloKeepsIdentity(world, next, log, request, freshId);
    } else {
      NegotiatedIsSendable(world, next, log, request);
    }
  }

  lemma HelloKeepsIdentity(world: World, state: State, log: seq<Call>, request: Frame, freshId: seq<Byte>)
    requires state.sessionId.None? && Identity(freshId)
    ensures CanRespond(HandleHello(world, state, log, request, freshId).state)
  {
    hide Wording, Fail, DecodeHello, EncodeWelcome, AllZero;
    FailuresKeep(state, log, request);
  }

  lemma NegotiatedIsSendable(world: World, state: State, log: seq<Call>, request: Frame)
    requires FrameCodec.Valid(request) && CanRespond(state)
    ensures var served := HandleNegotiated(world, state, log, request);
            SendableUnlessUnreportable(world, log, served) && served.state.sessionId == state.sessionId
  {
    hide Wording, Fail, FrameCodec.Valid, HandleBatch, HandlePing, KeepsSurrogate, Encodable, EventAnswer;
    FixedFailure(world, state, log, request);
    FailuresKeep(state, log, request);
    FailuresKeep(state, log + [Call(request.sequence, RuntimeEvent(request.subjectOpcode, request.payload))], request);
    if request.opcode == RUNTIME_EVENT {
      BatchIsSafe(world, state, log, request);
      BatchIsSendable(world, state, log, request);
      if request.subjectOpcode != BATCH_EVENT {
        EventIsSendable(world, state, log, request);
      }
    } else if request.opcode == PING {
      PingIsSendable(world, state, log, request);
      PingKeeps(state, log, request);
    } else if request.opcode == GOODBYE {
      RespondIsValid(request, GOODBYE, 0, 0, state.sessionId, true, []);
    }
  }

  lemma PingKeeps(state: State, log: seq<Call>, request: Frame)
    ensures HandlePing(state, log, request).state == state
  {
    hide Wording, Fail, TextField, DecodeNonce;
    FailuresKeep(state, log, request);
  }

  // ----- The exception in terms of the handler -----

  /** The request passes every check that stands before the handler. */
  ghost predicate ReachesHandler(world: World, state: State, request: Frame) {
    && request.kind == REQUEST && request.sequence == state.expectedSequence
    && state.sessionId.Some? && request.sessionId == state.sessionId && !state.closed
    && request.decisionOpcode == 0 && request.opcode == RUNTIME_EVENT
    && REQUIRED_CAPABILITIES <= state.accepted
    && if request.subjectOpcode == BATCH_EVENT then
         && state.contractDigest == Some(BATCH_CONTRACT_DIGEST) && BatchedRuntimeEvents in state.accepted
         && DecodeBatch(request.payload).Ok?
       else
         100 <= request.subjectOpcode <= 104 && world.accepts(request.subjectOpcode, request.payload)
  }

  /** The handler raises a text that error reporting cannot encode. */
  ghost predicate RaisesUnreportable(reply: Reply) {
    reply.Raises? && KeepsSurrogate(reply.message, MAX_REASON)
  }

  /** The handler answers the operations before i acceptably and raises such a text at i. */
  ghost predicate BatchRaisesAt(script: Script, log: seq<Call>, sequence: int, batch: OperationBatch, i: nat) {
    && (forall j | 0 <= j < i :: Compact(OPERATION_EVENT, OneAtATime(script, log, sequence, batch, j)).Ok?)
    && RaisesUnreportable(OneAtATime(script, log, sequence, batch, i))
  }

  /** The request will make the handler raise such a text. */
  ghost predicate MakesHandlerRaise(world: World, state: State, log: seq<Call>, request: Frame) {
    && ReachesHandler(world, state, request)
    && if request.subjectOpcode == BATCH_EVENT then
         var batch := DecodeBatch(request.payload).value;
         exists i :: 0 <= i < batch.count && BatchRaisesAt(world.script, log, request.sequence, batch, i)
       else
         RaisesUnreportable(world.script(Events(log + [EventCall(request)])))
  }

  /** The state in which an accepted request is handled. */
  function Advanced(state: State): State {
    state.(expectedSequence := state.expectedSequence + 1)
  }

  function EventCall(request: Frame): Call {
    Call(request.sequence, RuntimeEvent(request.subjectOpcode, request.payload))
  }

  /** Where the loop over a batch stops: after all operations, or at the first one refused. */
  lemma {:induction false} BatchStops(script: Script, log: seq<Call>, sequence: int, batch: OperationBatch, count: nat)
    returns (stop: nat)
    ensures var (after, entries) := HandleBatchOperations(script, log, sequence, batch, count);
            && stop <= count && after == log + Calls(sequence, batch, stop)
            && (entries.Ok? ==> stop == count)
            && (entries.Err? ==>
                  0 < stop && Compact(OPERATION_EVENT, OneAtATime(script, log, sequence, batch, stop - 1)).Err?)
            && forall j | 0 <= j < (if entries.Ok? then stop else stop - 1) ::
                 Compact(OPERATION_EVENT, OneAtATime(script, log, sequence, batch, j)).Ok?
  {
    hide Compact;
    stop := 0;
    if count > 0 {
      stop := BatchStops(script, log, sequence, batch, count - 1);
      var (before, entries) := HandleBatchOperations(script, log, sequence, batch, count - 1);
      if entries.Ok? {
        stop := count;
        var call := Call(sequence, BatchOperation(batch, count - 1));
        assert before + [call] == log + Calls(sequence, batch, count);
      }
    }
  }

  lemma BatchRaises(world: World, state: State, log: seq<Call>, request: Frame)
    requires ReachesHandler(world, state, request) && request.subjectOpcode == BATCH_EVENT
    ensures RaisedUnreportable(world, log, HandleBatch(world, Advanced(state), log, request).log) <==>
            MakesHandlerRaise(world, state, log, request)
  {
    var batch := DecodeBatch(request.payload).value;
    CountIsPositive(request.payload);
    var stop := BatchStops(world.script, log, request.sequence, batch, batch.count);
    hide DecodeBatch, HandleBatchOperations, BatchAnswer, KeepsSurrogate, Wording, Fail;
    FailuresKeep(Advanced(state).(closed := true), log + Calls(request.sequence, batch, stop), request);
    assert HandleBatch(world, Advanced(state), log, request).log == log + Calls(request.sequence, batch, stop);
    StopRaises(world, log, request.sequence, batch, stop);
  }

  lemma StopRaises(world: World, log: seq<Call>, sequence: int, batch: OperationBatch, stop: nat)
    requires 1 <= batch.count && stop <= batch.count
    requires var entries := HandleBatchOperations(world.script, log, sequence, batch, batch.count).1;
             && (entries.Ok? ==> stop == batch.count)
             && (entries.Err? ==>
                   0 < stop && Compact(OPERATION_EVENT, OneAtATime(world.script, log, sequence, batch, stop - 1)).Err?)
             && forall j | 0 <= j < (if entries.Ok? then stop else stop - 1) ::
                  Compact(OPERATION_EVENT, OneAtATime(world.script, log, sequence, batch, j)).Ok?
    ensures RaisedUnreportable(world, log, log + Calls(sequence, batch, stop)) <==>
            exists i :: 0 <= i < batch.count && BatchRaisesAt(world.script, log, sequence, batch, i)
  {
    hide HandleBatchOperations, KeepsSurrogate;
    var last := OneAtATime(world.script, log, sequence, batch, stop - 1);
    if RaisedUnreportable(world, log, log + Calls(sequence, batch, stop)) {
      assert Calls(sequence, batch, stop - 1 + 1) == Calls(sequence, batch, stop);
      assert BatchRaisesAt(world.script, log, sequence, batch, stop - 1);
    }
    if i :| 0 <= i < batch.count && BatchRaisesAt(world.script, log, sequence, batch, i) {
      assert Compact(OPERATION_EVENT, OneAtATime(world.script, log, sequence, batch, i)).Err?;
      assert i == stop - 1;
      assert |log + Calls(sequence, batch, stop)| > |log|;
    }
  }

  lemma EventRaises(world: World, state: State, log: seq<Call>, request: Frame)
    requires ReachesHandler(world, state, request) && request.subjectOpcode != BATCH_EVENT
    ensures RaisedUnreportable(world, log, HandleRuntimeEvent(world, Advanced(state), log, request).log) <==>
            MakesHandlerRaise(world, state, log, request)
  {
    hide Fail, KeepsSurrogate, EventAnswer, Wording;
    FailuresKeep(Advanced(state), log + [EventCall(request)], request);
    assert |log + [EventCall(request)]| > |log|;
  }

  lemma UnreachedHandlerIsNotLogged(world: World, state: State, log: seq<Call>, request: Frame, freshId: seq<Byte>)
    requires !ReachesHandler(world, state, request)
    ensures Process(world, state, log, request, freshId).log == log
  {
    hide EncodeErrorPayload, DecodeBatch, DecodeHello, EncodeWelcome, DecodeNonce, TextField, HandleBatchOperations,
         BatchAnswer, EventAnswer, Wording;
  }

  lemma ReachedHandlerIsServed(world: World, state: State, log: seq<Call>, request: Frame, freshId: seq<Byte>)
    requires ReachesHandler(world, state, request)
    ensures Process(world, state, log, request, freshId) ==
            if request.subjectOpcode == BATCH_EVENT then HandleBatch(world, Advanced(state), log, request)
            else HandleRuntimeEvent(world, Advanced(state), log, request)
  {
    hide Fail, HandleBatch, DecodeBatch, EventAnswer, Wording;
  }

  /**
    A valid request is left without a response exactly when it passes every check and
    makes the handler raise a text that holds a lone surrogate and is short enough
    not to be cut; every other response can be sent.
   */
  lemma UnansweredExactlyWhen(world: World, state: State, log: seq<Call>, request: Frame, freshId: seq<Byte>)
    requires ValidWorld(world) && FrameCodec.Valid(request) && CanRespond(state) && Identity(freshId)
    ensures var served := Process(world, state, log, request, freshId);
            && (served.response.None? <==> MakesHandlerRaise(world, state, log, request))
            && (Sendable(served) <==> !MakesHandlerRaise(world, state, log, request))
  {
    hide *;
    ResponsesAreSendable(world, state, log, request, freshId);
    if ReachesHandler(world, state, request) {
      ReachedHandlerIsServed(world, state, log, request, freshId);
      if request.subjectOpcode == BATCH_EVENT {
        BatchRaises(world, state, log, request);
      } else {
        EventRaises(world, state, log, request);
      }
    } else {
      UnreachedHandlerIsNotLogged(world, state, log, request, freshId);
      NothingReached(world, state, log, request);
    }
  }

  lemma NothingReached(world: World, state: State, log: seq<Call>, request: Frame)
    requires !ReachesHandler(world, state, request)
    ensures !MakesHandlerRaise(world, state, log, request) && !RaisedUnreportable(world, log, log)
  {
    hide ReachesHandler;
  }

  // ----- Whole runs -----

  /** What a transport delivers: valid frames, and identifiers fit to name a session. */
  ghost predicate ValidInputs(inputs: seq<Input>) {
    forall i | 0 <= i < |inputs| :: FrameCodec.Valid(inputs[i].request) && Identity(inputs[i].freshId)
  }

  ghost function ServedAt(world: World, inputs: seq<Input>, k: nat): Served
    requires k < |inputs|
  {
    Process(world, StateAt(world, inputs, k), LogAt(world, inputs, k), inputs[k].request, inputs[k].freshId)
  }

  lemma {:induction false} RunsCanRespond(world: World, inputs: seq<Input>)
    requires ValidWorld(world) && ValidInputs(inputs)
    ensures CanRespond(Run(world, inputs).0)
  {
    hide Process, RaisedUnreportable, CanRespond;
    if inputs == [] {
      NobodyToName();
    } else {
      var prior, last := inputs[..|inputs| - 1], inputs[|inputs| - 1];
      RunsCanRespond(world, prior);
      var (state, log) := Run(world, prior);
      ResponsesAreSendable(world, state, log, last.request, last.freshId);
    }
  }

  lemma NobodyToName()
    ensures CanRespond(INITIAL)
  {
  }

  /** The same over every run: exactly the requests that make the handler raise such a text go unanswered. */
  lemma RequestsOfARunUnansweredExactlyWhen(world: World, inputs: seq<Input>, k: nat)
    requires ValidWorld(world) && ValidInputs(inputs) && k < |inputs|
    ensures Sendable(ServedAt(world, inputs, k)) <==>
            !MakesHandlerRaise(world, StateAt(world, inputs, k), LogAt(world, inputs, k), inputs[k].request)
  {
    hide Process, Run, MakesHandlerRaise, Sendable, CanRespond;
    RunsCanRespond(world, inputs[..k]);
    UnansweredExactlyWhen(
      world, StateAt(world, inputs, k), LogAt(world, inputs, k), inputs[k].request, inputs[k].freshId);
  }

  /** So behind a handler that never raises such a text every response of every run can be sent. */
  lemma {:induction false} WellBehavedHandlersAreAlwaysAnswered(world: World, inputs: seq<Input>, k: nat)
    requires ValidWorld(world) && ValidInputs(inputs) && k < |inputs|
    requires forall events :: !RaisesUnreportable(world.script(events))
    ensures Sendable(ServedAt(world, inputs, k))
  {
    hide Process, Run, Sendable, RaisesUnreportable, ReachesHandler, ValidInputs;
    RequestsOfARunUnansweredExactlyWhen(world, inputs, k);
  }

  // ----- The exception is real -----

  const SURROGATE: Text := [0xD800]
  const NAME: Text := [0x61]

  function Ones(): (id: seq<Byte>)
    ensures Identity(id)
  {
    var id: seq<Byte> := seq(16, i requires 0 <= i < 16 => 1);
    assert id[0] in id && id[0] != 0;
    id
  }

  lemma SurrogateIsKept()
    ensures KeepsSurrogate(SURROGATE, MAX_REASON)
  {
    assert StripLeft(SURROGATE) == SURROGATE && StripRight(SURROGATE) == SURROGATE;
    assert IsSurrogate(SURROGATE[0]);
    assert Replaced(SURROGATE) == [0x3F] && |Utf8.Encode([0x3F])| == 1 by {
      assert [0x3F][1..] == [];
    }
  }

  lemma NameFits()
    ensures FitsField(NAME, MAX_PEER_NAME) && FitsField(NAME, MAX_PEER_VERSION)
  {
    assert |Utf8.Encode(NAME)| == 1 by {
      assert NAME[1..] == [];
    }
    assert NAME[0] in NAME && !IsSpace(NAME[0]);
  }

  /** A client that asks for everything the base contract offers. */
  function PlainHello(): Hello {
    Hello(CONTRACT_DIGEST, BASE_CAPABILITIES, REQUIRED_CAPABILITIES, NAME, NAME)
  }

  lemma PlainHelloEncodes()
    ensures EncodeHello(PlainHello()).Ok?
    ensures |EncodeHello(PlainHello()).value| <= FrameCodec.MAX_PAYLOAD
  {
    hide CapabilitiesField, FitsField, LittleEndian;
    NameFits();
    Widths();
    FitsMeansShort(NAME, MAX_PEER_NAME);
    FitsMeansShort(NAME, MAX_PEER_VERSION);
    HandshakeSizes(BASE_CAPABILITIES, REQUIRED_CAPABILITIES, NAME, NAME);
  }

  function HelloRequest(): Frame
    requires EncodeHello(PlainHello()).Ok?
  {
    Frame(REQUEST, HELLO, 0, 0, 0, 1, Ones(), None, EncodeHello(PlainHello()).value)
  }

  function EventRequest(): Frame {
    Frame(REQUEST, RUNTIME_EVENT, 100, 0, SESSION_FLAG, 2, Ones(), Some(Ones()), [])
  }

  /** The state after the handshake. */
  function Shaken(): State {
    State(Some(Ones()), Some(CONTRACT_DIGEST), 2, BASE_CAPABILITIES, false)
  }

  lemma HandshakeSucceeds(world: World)
    requires EncodeHello(PlainHello()).Ok?
    ensures var served := Process(world, INITIAL, [], HelloRequest(), Ones());
            served.state == Shaken() && served.log == []
  {
    hide EncodeHello, DecodeHello, EncodeWelcome, Fail;
    HelloParsesBack(PlainHello());
    assert (BASE_CAPABILITIES + REQUIRED_CAPABILITIES) * BASE_CAPABILITIES == BASE_CAPABILITIES;
  }

  lemma HandshakeRuns(world: World)
    requires EncodeHello(PlainHello()).Ok?
    ensures Run(world, [Input(HelloRequest(), Ones())]) == (Shaken(), [])
  {
    hide Process, EncodeHello, Ones;
    var inputs := [Input(HelloRequest(), Ones())];
    HandshakeSucceeds(world);
    assert inputs[..|inputs| - 1] == [];
  }

  lemma SurrogateIsUnanswered(world: World)
    requires ValidWorld(world) && world.accepts(100, [])
    requires world.script([RuntimeEvent(100, [])]) == Raises(SURROGATE)
    ensures FrameCodec.Valid(EventRequest())
    ensures Process(world, Shaken(), [], EventRequest(), Ones()).response.None?
  {
    hide Process, KeepsSurrogate, AllZero, Ones;
    SurrogateIsKept();
    assert Events([] + [EventCall(EventRequest())]) == [RuntimeEvent(100, [])];
    assert MakesHandlerRaise(world, Shaken(), [], EventRequest());
    UnansweredExactlyWhen(world, Shaken(), [], EventRequest(), Ones());
  }

  /**
    After an ordinary handshake, an ordinary event goes unanswered when the handler
    raises a single lone surrogate.
   */
  lemma LoneSurrogateGoesUnanswered(world: World)
    requires ValidWorld(world) && world.accepts(100, [])
    requires world.script([RuntimeEvent(100, [])]) == Raises(SURROGATE)
    ensures EncodeHello(PlainHello()).Ok?
    ensures var inputs := [Input(HelloRequest(), Ones()), Input(EventRequest(), Ones())];
            ValidInputs(inputs) && ServedAt(world, inputs, 1).response.None?
  {
    PlainHelloEncodes();
    HelloRequestIsValid();
    HandshakeRuns(world);
    SurrogateIsUnanswered(world);
    hide *;
    var inputs := [Input(HelloRequest(), Ones()), Input(EventRequest(), Ones())];
    AfterHandshake(world, inputs);
  }

  lemma HelloRequestIsValid()
    requires EncodeHello(PlainHello()).Ok? && |EncodeHello(PlainHello()).value| <= FrameCodec.MAX_PAYLOAD
    ensures FrameCodec.Valid(HelloRequest())
  {
    hide EncodeHello, AllZero, Ones, PlainHello;
  }

  lemma AfterHandshake(world: World, inputs: seq<Input>)
    requires |inputs| == 2 && Identity(inputs[0].freshId) && Identity(inputs[1].freshId)
    requires FrameCodec.Valid(inputs[0].request) && FrameCodec.Valid(inputs[1].request)
    requires Run(world, [inputs[0]]) == (Shaken(), [])
    ensures ValidInputs(inputs)
    ensures ServedAt(world, inputs, 1) == Process(world, Shaken(), [], inputs[1].request, inputs[1].freshId)
  {
    hide Process, Run, FrameCodec.Valid, Shaken;
    assert inputs[..1] == [inputs[0]];
  }
}
