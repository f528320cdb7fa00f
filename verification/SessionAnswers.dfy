/**
  What a client reads in the response to each kind of request: when a handshake
  succeeds, what an event, a ping and a goodbye are answered, and which error tells
  why anything else was refused.
 */
module SessionAnswers {
  import opened Wrappers
  import opened Bytes
  import opened Utf8
  import opened FrameCodec
  import opened PayloadCodec
  import opened DecisionCodec
  import opened Session
  import opened SessionSafety
  import opened SessionResponses
  import Runtime

  // ----- Every response -----

  /** A response answers its request: same sequence and message, the session's own identity. */
  ghost predicate Echoes(request: Frame, served: Served) {
    served.response.Some? ==>
      var response := served.response.value;
      && response.kind == 2
      && response.sequence == request.sequence && response.messageId == request.messageId
      && response.sessionId == served.state.sessionId
      && response.HasSession() == served.state.sessionId.Some?
      && response.Ok() == (response.opcode != 255)
  }

  lemma RespondEchoes(
    request: Frame, opcode: int, subject: int, decision: int, sessionId: Option<seq<Byte>>, ok: bool,
    payload: seq<Byte>)
    requires ok == (opcode != 255)
    ensures var r := Respond(request, opcode, subject, decision, sessionId, ok, payload);
            && r.kind == 2 && r.sequence == request.sequence && r.messageId == request.messageId
            && r.sessionId == sessionId && r.HasSession() == sessionId.Some? && r.Ok() == (opcode != 255)
            && r.opcode == opcode && r.subjectOpcode == subject && r.decisionOpcode == decision && r.payload == payload
  {
  }

  lemma FailuresEcho(state: State, log: seq<Call>, request: Frame)
    ensures forall code, message :: Echoes(request, Fail(state, log, request, code, message))
  {
    hide EncodeErrorPayload, CodeNumber;
    forall code, message
      ensures Echoes(request, Fail(state, log, request, code, message))
    {
      var payload := EncodeErrorPayload(CodeNumber(code), message);
      if payload.Ok? {
        RespondEchoes(request, ERROR, request.subjectOpcode, UNKNOWN, state.sessionId, false, payload.value);
      }
    }
  }

  lemma HelloEchoes(world: World, state: State, log: seq<Call>, request: Frame, freshId: seq<Byte>)
    ensures Echoes(request, HandleHello(world, state, log, request, freshId))
  {
    hide Fail, DecodeHello, EncodeWelcome, Wording, Available;
    FailuresEcho(state, log, request);
  }

  lemma BatchEchoes(world: World, state: State, log: seq<Call>, request: Frame)
    ensures Echoes(request, HandleBatch(world, state, log, request))
  {
    hide Fail, DecodeBatch, HandleBatchOperations, BatchAnswer, Wording;
    FailuresEcho(state, log, request);
    var batch := DecodeBatch(request.payload);
    if batch.Ok? {
      var after := HandleBatchOperations(world.script, log, request.sequence, batch.value, Count(batch.value)).0;
      FailuresEcho(state.(closed := true), after, request);
    }
  }

  lemma EventEchoes(world: World, state: State, log: seq<Call>, request: Frame)
    ensures Echoes(request, HandleRuntimeEvent(world, state, log, request))
  {
    hide Fail, HandleBatch, EventAnswer, Wording;
    BatchEchoes(world, state, log, request);
    FailuresEcho(state, log, request);
    FailuresEcho(state, log + [EventCall(request)], request);
  }

  lemma PingEchoes(state: State, log: seq<Call>, request: Frame)
    ensures Echoes(request, HandlePing(state, log, request))
  {
    hide Fail, DecodeNonce, TextField, Wording;
    FailuresEcho(state, log, request);
  }

  lemma NegotiatedEchoes(world: World, state: State, log: seq<Call>, request: Frame)
    ensures Echoes(request, HandleNegotiated(world, state, log, request))
  {
    hide Fail, HandleRuntimeEvent, HandlePing, Wording;
    EventEchoes(world, state, log, request);
    PingEchoes(state, log, request);
    FailuresEcho(state, log, request);
  }

  lemma EveryResponseEchoes(world: World, state: State, log: seq<Call>, request: Frame, freshId: seq<Byte>)
    ensures Echoes(request, Process(world, state, log, request, freshId))
  {
    hide Fail, HandleHello, HandleNegotiated, Wording, Echoes;
    var next := state.(expectedSequence := state.expectedSequence + 1);
    FailuresEcho(state, log, request);
    FailuresEcho(next, log, request);
    HelloEchoes(world, next, log, request, freshId);
    NegotiatedEchoes(world, next, log, request);
  }

  // ----- Refusals -----

  /** The response is an error with the given number, and nothing was handled. */
  ghost predicate RefusedAs(served: Served, log: seq<Call>, number: nat) {
    && served.log == log && served.response.Some?
    && served.response.value.opcode == 255 && served.response.value.decisionOpcode == 255
    && DecodeErrorPayload(served.response.value.payload).Ok?
    && DecodeErrorPayload(served.response.value.payload).value.0 == number
  }

  lemma FixedRefusal(state: State, log: seq<Call>, request: Frame, code: ErrorCode, message: Text)
    requires Encodable(message)
    ensures RefusedAs(Fail(state, log, request, code, message), log, CodeNumber(code))
    ensures Fail(state, log, request, code, message).state == state
  {
    hide EncodeErrorPayload, DecodeErrorPayload, KeepsSurrogate;
    StripKeepsEncodable(message);
    NothingKept(message);
    ErrorPayloadIsWritable(CodeNumber(code), message);
    ErrorParsesBack(CodeNumber(code), message);
  }

  lemma NothingKept(message: Text)
    requires Encodable(Strip(message))
    ensures !KeepsSurrogate(message, MAX_REASON)
  {
  }

  lemma Refusals(state: State, log: seq<Call>, request: Frame)
    ensures forall code, message | Encodable(message) ::
              var refused := Fail(state, log, request, code, message);
              RefusedAs(refused, log, CodeNumber(code)) && refused.state == state
  {
    hide Fail, RefusedAs, CodeNumber;
    forall code, message | Encodable(message)
      ensures var refused := Fail(state, log, request, code, message);
              RefusedAs(refused, log, CodeNumber(code)) && refused.state == state
    {
      FixedRefusal(state, log, request, code, message);
    }
  }

  /** A request that has no place in the session is refused with its own error, and changes nothing but the sequence. */
  lemma RefusalsSayWhy(world: World, state: State, log: seq<Call>, request: Frame, freshId: seq<Byte>)
    ensures var served := Process(world, state, log, request, freshId);
            var next := state.(expectedSequence := state.expectedSequence + 1);
            if request.kind != 1 then RefusedAs(served, log, 1) && served.state == state
            else if request.sequence != state.expectedSequence then RefusedAs(served, log, 6) && served.state == state
            else if state.sessionId.None? then
              request.opcode != 1 ==> RefusedAs(served, log, 2) && served.state == next
            else if request.sessionId != state.sessionId then RefusedAs(served, log, 7) && served.state == state
            else if state.closed then RefusedAs(served, log, 12) && served.state == state
            else
              && served.state.expectedSequence == next.expectedSequence
              && (request.decisionOpcode != 0 ==> RefusedAs(served, log, 1) && served.state == next)
              && (request.decisionOpcode == 0 && request.opcode !in {10, 20, 30} ==>
                    RefusedAs(served, log, if request.subjectOpcode != 0 then 1 else 8) && served.state == next)
              && (request.decisionOpcode == 0 && request.opcode in {20, 30} && request.subjectOpcode != 0 ==>
                    RefusedAs(served, log, 1) && served.state == next)
  {
    hide Fail, HandleHello, HandleRuntimeEvent, HandlePing, HandleGoodbye, Wording, RefusedAs;
    var next := state.(expectedSequence := state.expectedSequence + 1);
    Refusals(state, log, request);
    Refusals(next, log, request);
    if state.sessionId.Some? && !state.closed {
      NegotiatedIsSafe(world, next, log, request);
    }
  }

  // ----- The handshake -----

  /** A hello that deserves a session. */
  ghost predicate Acceptable(request: Frame) {
    && request.sessionId.None? && request.subjectOpcode == 0 && request.decisionOpcode == 0
    && DecodeHello(request.payload).Ok?
    && var hello := DecodeHello(request.payload).value;
       || (hello.digest == CONTRACT_DIGEST && BatchedRuntimeEvents !in hello.required)
       || (hello.digest == BATCH_CONTRACT_DIGEST && BatchedRuntimeEvents in hello.required)
  }

  lemma CapabilitiesOffered(hello: Hello)
    ensures hello.digest == CONTRACT_DIGEST ==>
              (hello.required <= BASE_CAPABILITIES <==> BatchedRuntimeEvents !in hello.required)
    ensures hello.required <= BATCH_CAPABILITIES
    ensures BASE_CAPABILITIES == BATCH_CAPABILITIES - {BatchedRuntimeEvents}
    ensures forall c: Capability :: c in BATCH_CAPABILITIES
  {
    forall c: Capability ensures c in BATCH_CAPABILITIES {
      match c {
        case BinaryPayloads => case FixedPointUnits => case Heartbeat => case RuntimeEvents =>
        case RuntimeDecisions => case MemoryTransit => case SessionLifecycle => case BatchedRuntimeEvents =>
      }
    }
  }

  /** The two published contracts are different ones. */
  lemma ContractsDiffer()
    ensures CONTRACT_DIGEST != BATCH_CONTRACT_DIGEST && |CONTRACT_DIGEST| == |BATCH_CONTRACT_DIGEST| == 32
  {
    assert CONTRACT_DIGEST[0] != BATCH_CONTRACT_DIGEST[0];
  }

  /**
    A session starts exactly when the first request in turn is an acceptable hello.
    It then has the fresh identity, the named contract and what was asked for and is
    offered, and the client is told so.
   */
  lemma SessionStartsExactlyWhen(world: World, state: State, log: seq<Call>, request: Frame, freshId: seq<Byte>)
    requires ValidWorld(world) && state.sessionId.None?
    ensures var served := Process(world, state, log, request, freshId);
            && (served.state.sessionId.Some? <==>
                  && request.kind == 1 && request.sequence == state.expectedSequence && request.opcode == 1
                  && Acceptable(request))
            && (served.state.sessionId.Some? ==> Welcomed(world, state, log, request, freshId, served))
  {
    hide Fail, HandleHello, Wording;
    var next := state.(expectedSequence := state.expectedSequence + 1);
    Refusals(state, log, request);
    Refusals(next, log, request);
    HelloStarts(world, next, log, request, freshId);
  }

  ghost predicate Welcomed(
    world: World, state: State, log: seq<Call>, request: Frame, freshId: seq<Byte>, served: Served)
  {
    && DecodeHello(request.payload).Ok?
    && var hello := DecodeHello(request.payload).value;
       var available := if hello.digest == CONTRACT_DIGEST then BATCH_CAPABILITIES - {BatchedRuntimeEvents}
                        else BATCH_CAPABILITIES;
       && served.state == State(Some(freshId), Some(hello.digest), state.expectedSequence + 1,
                                (hello.requested + hello.required) * available, state.closed)
       && served.log == log && served.response.Some? && served.response.value.opcode == 2
       && DecodeWelcome(served.response.value.payload) ==
          Ok((Welcome(hello.digest, available, served.state.accepted, world.serverName, world.serverVersion), 65535))
  }

  lemma HelloStarts(world: World, state: State, log: seq<Call>, request: Frame, freshId: seq<Byte>)
    requires ValidWorld(world) && state.sessionId.None? && state.expectedSequence > 0
    ensures var served := HandleHello(world, state, log, request, freshId);
            && (served.state.sessionId.Some? <==> Acceptable(request))
            && (served.state.sessionId.Some? ==>
                  Welcomed(
                      world, state.(expectedSequence := state.expectedSequence - 1), log, request, freshId, served))
  {
    hide Fail, DecodeHello, EncodeWelcome, DecodeWelcome, Wording, FitsField;
    Refusals(state, log, request);
    if DecodeHello(request.payload).Ok? {
      var hello := DecodeHello(request.payload).value;
      CapabilitiesOffered(hello);
      ContractsDiffer();
      if Available(hello.digest).Some? {
        var available := Available(hello.digest).value;
        var accepted := (hello.requested + hello.required) * available;
        var welcome := Welcome(hello.digest, available, accepted, world.serverName, world.serverVersion);
        WelcomeIsWritable(welcome);
        WelcomeParsesBack(welcome);
      }
    }
  }

  // ----- Heartbeat and farewell -----

  /** A request that passes every check made before its opcode is looked at. */
  ghost predicate InTurn(state: State, request: Frame) {
    && request.kind == 1 && request.sequence == state.expectedSequence
    && state.sessionId.Some? && request.sessionId == state.sessionId && !state.closed
    && request.decisionOpcode == 0
  }

  /** A ping gets a pong with its own payload exactly when it is readable and heartbeats were agreed. */
  lemma PingIsAnsweredExactlyWhen(world: World, state: State, log: seq<Call>, request: Frame, freshId: seq<Byte>)
    requires InTurn(state, request) && request.opcode == 20 && request.subjectOpcode == 0
    ensures var served := Process(world, state, log, request, freshId);
            && served.state == Advanced(state) && served.log == log
            && if Heartbeat in state.accepted && DecodeNonce(request.payload).Ok? then
                 served.response.Some? && served.response.value.opcode == 21
                 && served.response.value.payload == request.payload
               else RefusedAs(served, log, if Heartbeat in state.accepted then 10 else 5)
  {
    hide Fail, DecodeNonce, Wording, TextField, RefusedAs;
    Refusals(Advanced(state), log, request);
    FailuresKeep(Advanced(state), log, request);
    if DecodeNonce(request.payload).Ok? {
      NonceIsEchoed(request.payload);
    }
  }

  lemma GoodbyeIsAnswered(world: World, state: State, log: seq<Call>, request: Frame, freshId: seq<Byte>)
    requires InTurn(state, request) && request.opcode == 30 && request.subjectOpcode == 0
    ensures var served := Process(world, state, log, request, freshId);
            if request.payload == [] then
              && served.state == Advanced(state).(closed := true) && served.log == log
              && served.response.Some? && served.response.value.opcode == 30 && served.response.value.payload == []
            else RefusedAs(served, log, 10) && served.state == Advanced(state)
  {
    hide Fail, Wording, RefusedAs;
    Refusals(Advanced(state), log, request);
  }

  /** The request is a batch that is served and stops at a refused operation or cannot be answered. */
  ghost predicate BatchFails(world: World, state: State, log: seq<Call>, request: Frame) {
    && ReachesHandler(world, state, request) && request.subjectOpcode == 105
    && var batch := DecodeBatch(request.payload).value;
       BatchAnswer(batch, HandleBatchOperations(world.script, log, request.sequence, batch, Count(batch)).1).Err?
  }

  /** A session is closed by an empty goodbye in turn or by a batch that fails, and by nothing else. */
  lemma SessionClosesExactlyWhen(world: World, state: State, log: seq<Call>, request: Frame, freshId: seq<Byte>)
    requires !state.closed
    ensures Process(world, state, log, request, freshId).state.closed <==>
            || (InTurn(state, request) && request.opcode == 30 && request.subjectOpcode == 0 && request.payload == [])
            || BatchFails(world, state, log, request)
  {
    hide HandleBatchOperations, BatchAnswer, EventAnswer, DecodeBatch, DecodeHello, EncodeWelcome, DecodeNonce,
         TextField, Wording, EncodeErrorPayload;
  }

  // ----- Events -----

  /** The handler is called exactly when the request passes every check before it. */
  lemma HandlerIsReachedExactlyWhen(world: World, state: State, log: seq<Call>, request: Frame, freshId: seq<Byte>)
    ensures Process(world, state, log, request, freshId).log != log <==> ReachesHandler(world, state, request)
  {
    hide ReachesHandler, Process;
    if ReachesHandler(world, state, request) {
      ReachedHandlerIsServed(world, state, log, request, freshId);
      ReachedHandlerIsLogged(world, state, log, request);
    } else {
      UnreachedHandlerIsNotLogged(world, state, log, request, freshId);
    }
  }

  lemma ReachedHandlerIsLogged(world: World, state: State, log: seq<Call>, request: Frame)
    requires ReachesHandler(world, state, request)
    ensures request.subjectOpcode == BATCH_EVENT ==> HandleBatch(world, Advanced(state), log, request).log != log
    ensures request.subjectOpcode != BATCH_EVENT ==> HandleRuntimeEvent(world, Advanced(state), log, request).log != log
  {
    hide HandleBatchOperations, BatchAnswer, EventAnswer, DecodeBatch, Wording, Fail;
    if request.subjectOpcode == BATCH_EVENT {
      var batch := DecodeBatch(request.payload).value;
      CountIsPositive(request.payload);
      var after := HandleBatchOperations(world.script, log, request.sequence, batch, batch.count).0;
      FailuresKeep(Advanced(state).(closed := true), after, request);
      FirstOperationIsLogged(world.script, log, request.sequence, batch, batch.count);
    } else {
      FailuresKeep(Advanced(state), log + [EventCall(request)], request);
      assert |log + [EventCall(request)]| > |log|;
    }
  }

  lemma {:induction false} FirstOperationIsLogged(
    script: Script, log: seq<Call>, sequence: int, batch: OperationBatch, count: nat)
    requires count > 0
    ensures |HandleBatchOperations(script, log, sequence, batch, count).0| > |log|
  {
    hide Compact;
    if count > 1 {
      FirstOperationIsLogged(script, log, sequence, batch, count - 1);
    }
  }

  /** The response carries the decision under its opcode. */
  ghost predicate Decided(served: Served, subject: int, opcode: int, decision: RuntimeDecision) {
    && served.response.Some? && served.response.value.opcode == 11
    && served.response.value.subjectOpcode == subject && served.response.value.decisionOpcode == opcode
    && TakeDecision(served.response.value.payload) == Ok((decision, []))
  }

  /** The number a policy is reported under. */
  ghost predicate Numbered(policy: Option<Runtime.Policy>, opcode: int) {
    match policy
    case None => opcode == 255
    case Some(EliminateSelfCopy) => opcode == 1
    case Some(DeduplicateIdenticalTransfer) => opcode == 2
    case Some(CollapseAliasedResourceCopy) => opcode == 3
    case Some(RemoveOrphanSync) => opcode == 4
    case Some(RemoveEmptySync) => opcode == 5
    case Some(ReuseTransientBuffer) => opcode == 6
  }

  predicate InWireRange(savings: DecisionReport) {
    0 <= savings.savedUs < 0x1_0000_0000_0000_0000 && 0 <= savings.savedBytes < 0x1_0000_0000_0000_0000
  }

  lemma DecisionIsWritten(decision: RuntimeDecision)
    requires 0 <= decision.savedUs < 0x1_0000_0000_0000_0000 && 0 <= decision.savedBytes < 0x1_0000_0000_0000_0000
    ensures DecisionField(decision).Ok? && TakeDecision(DecisionField(decision).value) == Ok((decision, []))
  {
    hide TakeDecision, LittleEndian;
    Widths();
    SmallMask(decision.accepted, decision.executed.Some?, decision.executed == Some(true));
    DecisionParsesBack(decision, []);
    assert DecisionField(decision).value + [] == DecisionField(decision).value;
  }

  /**
    An ordinary event that reaches the handler is answered by the handler's reply:
    whether it was accepted, and for an operation whether it executes, which policy
    removed it and what that saves.
   */
  lemma EventIsAnswered(world: World, state: State, log: seq<Call>, request: Frame, freshId: seq<Byte>)
    requires ReachesHandler(world, state, request) && request.subjectOpcode != 105
    ensures var served := Process(world, state, log, request, freshId);
            && served.state == Advanced(state) && served.log == log + [EventCall(request)]
            && match world.script(Events(served.log))
               case Raises(message) =>
                 if KeepsSurrogate(message, MAX_REASON) then served.response.None?
                 else
                   && RefusedAs(served, served.log, 11)
                   && DecodeErrorPayload(served.response.value.payload) == Ok((11, TruncateUtf8(message, MAX_REASON)))
               case Answers(accepted, result) =>
                 if request.subjectOpcode != 103 then
                   Decided(served, request.subjectOpcode, 0, RuntimeDecision(accepted, None, 0, 0))
                 else
                   match result
                   case None => RefusedAs(served, served.log, 11)
                   case Some(OperationResult(None, executed)) =>
                     Decided(served, 103, 0, RuntimeDecision(accepted, Some(executed), 0, 0))
                   case Some(OperationResult(Some(report), executed)) =>
                     if !InWireRange(report) then RefusedAs(served, served.log, 11)
                     else
                       exists opcode ::
                         && Numbered(report.policy, opcode)
                         && Decided(served, 103, opcode,
                                    RuntimeDecision(accepted, Some(executed), report.savedUs, report.savedBytes))
  {
    hide DecisionField, TakeDecision, Fail, Wording, RefusedAs, Process, ReachesHandler;
    var after := log + [EventCall(request)];
    ReachedHandlerIsServed(world, state, log, request, freshId);
    AcceptedEvent(world, state, request);
    Refusals(Advanced(state), after, request);
    FailuresKeep(Advanced(state), after, request);
    match world.script(Events(after)) {
      case Raises(message) => RaisedIsReported(Advanced(state), after, request, message);
      case Answers(accepted, result) =>
        DecisionIsWritten(RuntimeDecision(accepted, None, 0, 0));
        if result.Some? {
          DecisionIsWritten(RuntimeDecision(accepted, Some(result.value.executed), 0, 0));
          if result.value.decision.Some? {
            var report := result.value.decision.value;
            var decision := RuntimeDecision(accepted, Some(result.value.executed), report.savedUs, report.savedBytes);
            assert Numbered(report.policy, PolicyOpcode(report.policy));
            if InWireRange(report) {
              DecisionIsWritten(decision);
            } else {
              UnwritableDecision(decision);
            }
          }
        }
    }
  }

  lemma AcceptedEvent(world: World, state: State, request: Frame)
    requires ReachesHandler(world, state, request) && request.subjectOpcode != 105
    ensures REQUIRED_CAPABILITIES <= state.accepted && 100 <= request.subjectOpcode <= 104
    ensures world.accepts(request.subjectOpcode, request.payload)
  {
  }

  lemma RaisedIsReported(state: State, log: seq<Call>, request: Frame, message: Text)
    ensures var served := Fail(state, log, request, RuntimeEventRejected, message);
            if KeepsSurrogate(message, MAX_REASON) then served.response.None?
            else
              && RefusedAs(served, log, 11)
              && DecodeErrorPayload(served.response.value.payload) == Ok((11, TruncateUtf8(message, MAX_REASON)))
  {
    hide EncodeErrorPayload, DecodeErrorPayload, KeepsSurrogate, TruncateUtf8;
    ErrorPayloadIsWritable(11, message);
    if !KeepsSurrogate(message, MAX_REASON) {
      ErrorParsesBack(11, message);
    }
  }

  lemma UnwritableDecision(decision: RuntimeDecision)
    requires !(0 <= decision.savedUs < 0x1_0000_0000_0000_0000 && 0 <= decision.savedBytes < 0x1_0000_0000_0000_0000)
    ensures DecisionField(decision).Err?
  {
    hide LittleEndian, Mask;
    Widths();
  }
}
