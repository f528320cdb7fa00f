/**
  The FluidLink v2 server session: handshake, sequence numbers, runtime events,
  operation batches and closing, against an event handler that may answer or
  fail in any way its whole history allows.
 */
module Session {
  import opened Wrappers
  import opened Bytes
  import opened Utf8
  import opened FrameCodec
  import opened PayloadCodec
  import opened DecisionCodec
  import Objects = PayloadObjects
  import Runtime

  const HELLO := 1
  const WELCOME := 2
  const RUNTIME_EVENT := 10
  const RUNTIME_DECISION := 11
  const PING := 20
  const PONG := 21
  const GOODBYE := 30
  const ERROR := 255

  const OPERATION_EVENT := 103
  const BATCH_EVENT := 105
  const BATCH_VECTOR := 7

  datatype ErrorCode =
    | InvalidFrame
    | HandshakeRequired
    | ContractMismatch
    | RequiredCapabilityUnavailable
    | CapabilityNotNegotiated
    | SequenceMismatch
    | SessionMismatch
    | UnsupportedOpcode
    | UnsupportedEventOpcode
    | MalformedPayload
    | RuntimeEventRejected
    | SessionClosed

  function CodeNumber(code: ErrorCode): (n: nat)
    ensures 1 <= n <= 12
  {
    match code
    case InvalidFrame => 1 case HandshakeRequired => 2 case ContractMismatch => 3
    case RequiredCapabilityUnavailable => 4 case CapabilityNotNegotiated => 5 case SequenceMismatch => 6
    case SessionMismatch => 7 case UnsupportedOpcode => 8 case UnsupportedEventOpcode => 9
    case MalformedPayload => 10 case RuntimeEventRejected => 11 case SessionClosed => 12
  }

  const CONTRACT_DIGEST: seq<Byte> := [
    0x0d, 0x24, 0xd9, 0x6a, 0xec, 0x32, 0xd7, 0x4e, 0x12, 0x3f, 0x9e, 0x19, 0x8e, 0x51, 0xad, 0xde,
    0x74, 0xdd, 0xf1, 0x90, 0xe8, 0xc4, 0x0b, 0x0a, 0xc1, 0x8b, 0xdd, 0xf5, 0xc4, 0x10, 0x8b, 0x2f]
  const BATCH_CONTRACT_DIGEST: seq<Byte> := [
    0xbf, 0x87, 0x27, 0xc2, 0x2a, 0xc8, 0x78, 0xce, 0xff, 0x6d, 0xd0, 0xf4, 0x62, 0xd6, 0xdb, 0x5e,
    0x81, 0x17, 0x47, 0x37, 0xe8, 0x39, 0xec, 0xdf, 0x2e, 0x26, 0x3a, 0x6f, 0x55, 0x26, 0x85, 0x42]

  const BASE_CAPABILITIES := {
    BinaryPayloads, FixedPointUnits, Heartbeat, RuntimeEvents, RuntimeDecisions, MemoryTransit, SessionLifecycle}
  const REQUIRED_CAPABILITIES := {BinaryPayloads, FixedPointUnits, RuntimeEvents, RuntimeDecisions}
  const BATCH_CAPABILITIES := BASE_CAPABILITIES + {BatchedRuntimeEvents}

  function Available(digest: seq<Byte>): Option<set<Capability>> {
    if digest == CONTRACT_DIGEST then Some(BASE_CAPABILITIES)
    else if digest == BATCH_CONTRACT_DIGEST then Some(BATCH_CAPABILITIES)
    else None
  }

  // ----- The event handler -----

  /** What the handler is given: an ordinary event, or one operation of a batch. */
  datatype Event =
    | RuntimeEvent(opcode: int, payload: seq<Byte>)
    | BatchOperation(batch: OperationBatch, ordinal: nat)

  datatype DecisionReport = DecisionReport(policy: Option<Runtime.Policy>, savedUs: int, savedBytes: int)
  datatype OperationResult = OperationResult(decision: Option<DecisionReport>, executed: bool)

  datatype Reply =
    | Raises(message: Text)
    | Answers(accepted: bool, result: Option<OperationResult>)

  /** One time the handler was reached, and by which sequence number. */
  datatype Call = Call(sequence: int, event: Event)

  /** Any behaviour: the reply may depend on everything the handler has seen. */
  type Script = seq<Event> -> Reply

  function Events(log: seq<Call>): seq<Event> {
    seq(|log|, i requires 0 <= i < |log| => log[i].event)
  }

  class EventHandler {
    const script: Script
    var log: seq<Call>

    constructor (script: Script)
      ensures this.script == script && log == []
    {
      this.script := script;
      log := [];
    }

    method Handle(call: Call) returns (reply: Reply)
      modifies this
      ensures log == old(log) + [call]
      ensures reply == script(Events(log))
    {
      log := log + [call];
      reply := script(Events(log));
    }
  }

  // ----- Error texts -----

  /** The fixed texts a session reports errors with. */
  datatype Notice =
    | ResultMissing
    | SavingsInvalid
    | HelloHeaderInvalid
    | HelloPayloadInvalid
    | NoSharedContract
    | BatchCapabilityRequired
    | CapabilityUnavailable
    | VectorInvalid
    | BatchesNotNegotiated
    | BatchInvalid
    | DecisionOutOfRange
    | EventsNotNegotiated
    | EventOpcodeUnknown
    | EventInvalid
    | HeartbeatNotNegotiated
    | NonceInvalid
    | GoodbyeNotEmpty
    | DecisionOpcodeNotZero
    | SubjectNotAllowed
    | OpcodeUnknown
    | RequestsOnly
    | SequenceUnexpected
    | HelloFirst
    | OtherSession
    | AlreadyClosed

  function Wording(notice: Notice): (text: Text)
    ensures Encodable(text)
  {
    match notice
    case ResultMissing => Ascii("Runtime operation response is missing its result object.")
    case SavingsInvalid => Ascii("Runtime decision savings must be finite and non-negative.")
    case HelloHeaderInvalid => Ascii("FluidLink v2 hello header is invalid.")
    case HelloPayloadInvalid => Ascii("FluidLink v2 hello payload is invalid.")
    case NoSharedContract => Ascii("FluidLink peers do not share the same v2 contract.")
    case BatchCapabilityRequired => Ascii("The FluidLink v2 batch profile requires its batch capability.")
    case CapabilityUnavailable => Ascii("A required capability is unavailable.")
    case VectorInvalid => Ascii("FluidLink v2 operation batch decision is invalid.")
    case BatchesNotNegotiated => Ascii("FluidLink v2 batched runtime events were not negotiated.")
    case BatchInvalid => Ascii("FluidLink v2 operation batch is invalid.")
    case DecisionOutOfRange => Ascii("FluidLink v2 decision field is out of range.")
    case EventsNotNegotiated => Ascii("FluidLink v2 runtime capabilities were not negotiated.")
    case EventOpcodeUnknown => Ascii("Unsupported FluidLink event opcode.")
    case EventInvalid => Ascii("FluidLink v2 runtime event is invalid.")
    case HeartbeatNotNegotiated => Ascii("FluidLink v2 heartbeat capability was not negotiated.")
    case NonceInvalid => Ascii("FluidLink v2 nonce is invalid.")
    case GoodbyeNotEmpty => Ascii("FluidLink v2 goodbye payload must be empty.")
    case DecisionOpcodeNotZero => Ascii("FluidLink v2 requests must use decision opcode zero.")
    case SubjectNotAllowed => Ascii("Only runtime event requests may use a subject opcode.")
    case OpcodeUnknown => Ascii("Unsupported FluidLink opcode.")
    case RequestsOnly => Ascii("FluidLink v2 server accepts request frames only.")
    case SequenceUnexpected => Ascii("Unexpected FluidLink sequence.")
    case HelloFirst => Ascii("A FluidLink v2 hello request is required first.")
    case OtherSession => Ascii("FluidLink v2 session_id does not match the negotiated session.")
    case AlreadyClosed => Ascii("The FluidLink v2 session is already closed.")
  }

  // ----- Compacting a reply -----

  function PolicyOpcode(policy: Option<Runtime.Policy>): int {
    match policy
    case None => UNKNOWN
    case Some(EliminateSelfCopy) => 1
    case Some(DeduplicateIdenticalTransfer) => 2
    case Some(CollapseAliasedResourceCopy) => 3
    case Some(RemoveOrphanSync) => 4
    case Some(RemoveEmptySync) => 5
    case Some(ReuseTransientBuffer) => 6
  }

  /** The decision opcode and compact decision for a reply, or the text of what was raised. */
  function Compact(eventOpcode: int, reply: Reply): Result<Entry, Text> {
    match reply
    case Raises(message) => Err(message)
    case Answers(accepted, result) =>
      if eventOpcode != OPERATION_EVENT then Ok(Entry(EXECUTE, RuntimeDecision(accepted, None, 0, 0)))
      else
        match result
        case None => Err(Wording(ResultMissing))
        case Some(operation) =>
          match operation.decision
          case None => Ok(Entry(EXECUTE, RuntimeDecision(accepted, Some(operation.executed), 0, 0)))
          case Some(report) =>
            if report.savedUs < 0 || report.savedBytes < 0 then
              Err(Wording(SavingsInvalid))
            else
              Ok(Entry(PolicyOpcode(report.policy),
                       RuntimeDecision(accepted, Some(operation.executed), report.savedUs, report.savedBytes)))
  }

  // ----- Session state -----

  datatype State = State(
    sessionId: Option<seq<Byte>>,
    contractDigest: Option<seq<Byte>>,
    expectedSequence: nat,
    accepted: set<Capability>,
    closed: bool)

  const INITIAL := State(None, None, 1, {}, false)

  /** What a server is built with, and the codec that accepts ordinary events. */
  datatype World = World(script: Script, accepts: (int, seq<Byte>) -> bool, serverName: Text, serverVersion: Text)

  predicate ValidWorld(world: World) {
    FitsField(world.serverName, MAX_PEER_NAME) && FitsField(world.serverVersion, MAX_PEER_VERSION)
  }

  /** The state and handler log after a request; no response if reporting the error itself raised. */
  datatype Served = Served(state: State, log: seq<Call>, response: Option<Frame>)

  function Respond(
    request: Frame, opcode: int, subject: int, decision: int, sessionId: Option<seq<Byte>>, ok: bool,
    payload: seq<Byte>)
    : Frame
  {
    Frame(RESPONSE, opcode, subject, decision, Bit(sessionId.Some?, SESSION_FLAG) + Bit(ok, OK_FLAG),
          request.sequence, request.messageId, sessionId, payload)
  }

  function Fail(state: State, log: seq<Call>, request: Frame, code: ErrorCode, message: Text): Served {
    match EncodeErrorPayload(CodeNumber(code), message)
    case Err(_) => Served(state, log, None)
    case Ok(payload) =>
      Served(state, log, Some(Respond(request, ERROR, request.subjectOpcode, UNKNOWN, state.sessionId, false, payload)))
  }

  function HandleHello(world: World, state: State, log: seq<Call>, request: Frame, freshId: seq<Byte>): Served {
    if request.sessionId.Some? || request.subjectOpcode != 0 || request.decisionOpcode != 0 then
      Fail(state, log, request, InvalidFrame, Wording(HelloHeaderInvalid))
    else
      match DecodeHello(request.payload)
      case Err(_) => Fail(state, log, request, MalformedPayload, Wording(HelloPayloadInvalid))
      case Ok(hello) =>
        match Available(hello.digest)
        case None =>
          Fail(state, log, request, ContractMismatch, Wording(NoSharedContract))
        case Some(available) =>
          if hello.digest == BATCH_CONTRACT_DIGEST && BatchedRuntimeEvents !in hello.required then
            Fail(state, log, request, MalformedPayload, Wording(BatchCapabilityRequired))
          else if !(hello.required <= available) then
            Fail(state, log, request, RequiredCapabilityUnavailable, Wording(CapabilityUnavailable))
          else
            var accepted := (hello.requested + hello.required) * available;
            var next := state.(sessionId := Some(freshId), contractDigest := Some(hello.digest), accepted := accepted);
            match EncodeWelcome(Welcome(hello.digest, available, accepted, world.serverName, world.serverVersion))
            case Err(_) => Served(next, log, None)
            case Ok(payload) => Served(next, log, Some(Respond(request, WELCOME, 0, 0, next.sessionId, true, payload)))
  }

  function HandleBatchOperations(script: Script, log: seq<Call>, sequence: int, batch: OperationBatch, count: nat)
    : (seq<Call>, Result<seq<Entry>, Text>)
  {
    if count == 0 then (log, Ok([]))
    else
      var (before, entries) := HandleBatchOperations(script, log, sequence, batch, count - 1);
      if entries.Err? then (before, entries)
      else
        var after := before + [Call(sequence, BatchOperation(batch, count - 1))];
        match Compact(OPERATION_EVENT, script(Events(after)))
        case Err(message) => (after, Err(message))
        case Ok(entry) => (after, Ok(entries.value + [entry]))
  }

  /** The payload of a batch response, or the text of what went wrong. */
  function BatchAnswer(batch: OperationBatch, entries: Result<seq<Entry>, Text>): Result<seq<Byte>, Text> {
    match entries
    case Err(message) => Err(message)
    case Ok(list) =>
      match EncodeVector(DecisionVector(batch.batchId, list))
      case Err(_) => Err(Wording(VectorInvalid))
      case Ok(payload) => Ok(payload)
  }

  function HandleBatch(world: World, state: State, log: seq<Call>, request: Frame): Served {
    if state.contractDigest != Some(BATCH_CONTRACT_DIGEST) || BatchedRuntimeEvents !in state.accepted then
      Fail(state, log, request, CapabilityNotNegotiated, Wording(BatchesNotNegotiated))
    else
      match DecodeBatch(request.payload)
      case Err(_) => Fail(state, log, request, MalformedPayload, Wording(BatchInvalid))
      case Ok(batch) =>
        var (after, entries) := HandleBatchOperations(world.script, log, request.sequence, batch, Count(batch));
        match BatchAnswer(batch, entries)
        case Err(message) => Fail(state.(closed := true), after, request, RuntimeEventRejected, message)
        case Ok(payload) =>
          Served(state, after,
                 Some(Respond(request, RUNTIME_DECISION, BATCH_EVENT, BATCH_VECTOR, state.sessionId, true, payload)))
  }

  function Count(batch: OperationBatch): nat {
    if batch.count < 0 then 0 else batch.count
  }

  /** The decision opcode and payload for an ordinary event, or the text of what went wrong. */
  function EventAnswer(eventOpcode: int, reply: Reply): Result<(int, seq<Byte>), Text> {
    match Compact(eventOpcode, reply)
    case Err(message) => Err(message)
    case Ok(entry) =>
      match DecisionField(entry.decision)
      case Err(_) => Err(Wording(DecisionOutOfRange))
      case Ok(payload) => Ok((entry.opcode, payload))
  }

  function HandleRuntimeEvent(world: World, state: State, log: seq<Call>, request: Frame): Served {
    if !(REQUIRED_CAPABILITIES <= state.accepted) then
      Fail(state, log, request, CapabilityNotNegotiated, Wording(EventsNotNegotiated))
    else if request.subjectOpcode == BATCH_EVENT then HandleBatch(world, state, log, request)
    else if !(100 <= request.subjectOpcode <= 104) then
      Fail(state, log, request, UnsupportedEventOpcode, Wording(EventOpcodeUnknown))
    else if !world.accepts(request.subjectOpcode, request.payload) then
      Fail(state, log, request, MalformedPayload, Wording(EventInvalid))
    else
      var after := log + [Call(request.sequence, RuntimeEvent(request.subjectOpcode, request.payload))];
      match EventAnswer(request.subjectOpcode, world.script(Events(after)))
      case Err(message) => Fail(state, after, request, RuntimeEventRejected, message)
      case Ok((opcode, payload)) =>
        Served(state, after,
               Some(Respond(request, RUNTIME_DECISION, request.subjectOpcode, opcode, state.sessionId, true, payload)))
  }

  function HandlePing(state: State, log: seq<Call>, request: Frame): Served {
    if Heartbeat !in state.accepted then
      Fail(state, log, request, CapabilityNotNegotiated, Wording(HeartbeatNotNegotiated))
    else
      match DecodeNonce(request.payload)
      case Err(_) => Fail(state, log, request, MalformedPayload, Wording(NonceInvalid))
      case Ok(nonce) =>
        match TextField(nonce, 1, MAX_NONCE)
        case Err(_) => Served(state, log, None)
        case Ok(payload) => Served(state, log, Some(Respond(request, PONG, 0, 0, state.sessionId, true, payload)))
  }

  function HandleGoodbye(state: State, log: seq<Call>, request: Frame): Served {
    if request.payload != [] then Fail(state, log, request, MalformedPayload, Wording(GoodbyeNotEmpty))
    else
      Served(state.(closed := true), log, Some(Respond(request, GOODBYE, 0, 0, state.sessionId, true, [])))
  }

  function HandleNegotiated(world: World, state: State, log: seq<Call>, request: Frame): Served {
    if request.decisionOpcode != 0 then
      Fail(state, log, request, InvalidFrame, Wording(DecisionOpcodeNotZero))
    else if request.opcode == RUNTIME_EVENT then HandleRuntimeEvent(world, state, log, request)
    else if request.subjectOpcode != 0 then
      Fail(state, log, request, InvalidFrame, Wording(SubjectNotAllowed))
    else if request.opcode == PING then HandlePing(state, log, request)
    else if request.opcode == GOODBYE then HandleGoodbye(state, log, request)
    else Fail(state, log, request, UnsupportedOpcode, Wording(OpcodeUnknown))
  }

  function Process(world: World, state: State, log: seq<Call>, request: Frame, freshId: seq<Byte>): Served {
    var next := state.(expectedSequence := state.expectedSequence + 1);
    if request.kind != REQUEST then Fail(state, log, request, InvalidFrame, Wording(RequestsOnly))
    else if request.sequence != state.expectedSequence then
      Fail(state, log, request, SequenceMismatch, Wording(SequenceUnexpected))
    else if state.sessionId.None? then
      if request.opcode != HELLO then
        Fail(next, log, request, HandshakeRequired, Wording(HelloFirst))
      else HandleHello(world, next, log, request, freshId)
    else if request.sessionId != state.sessionId then Fail(state, log, request, SessionMismatch, Wording(OtherSession))
    else if state.closed then Fail(state, log, request, SessionClosed, Wording(AlreadyClosed))
    else HandleNegotiated(world, next, log, request)
  }

  // ----- The session object -----

  class FluidLinkV2ServerSession {
    const serverName: Text
    const serverVersion: Text
    const accepts: (int, seq<Byte>) -> bool
    var sessionId: Option<seq<Byte>>
    var contractDigest: Option<seq<Byte>>
    var expectedSequence: nat
    var acceptedCapabilities: set<Capability>
    var closed: bool

    function Model(): State
      reads this
    {
      State(sessionId, contractDigest, expectedSequence, acceptedCapabilities, closed)
    }

    ghost function Env(handler: EventHandler): World {
      World(handler.script, accepts, serverName, serverVersion)
    }

    constructor (serverName: Text, serverVersion: Text, accepts: (int, seq<Byte>) -> bool)
      requires FitsField(serverName, MAX_PEER_NAME) && FitsField(serverVersion, MAX_PEER_VERSION)
      ensures Model() == INITIAL
      ensures this.serverName == serverName && this.serverVersion == serverVersion && this.accepts == accepts
    {
      this.serverName, this.serverVersion, this.accepts := serverName, serverVersion, accepts;
      sessionId, contractDigest, expectedSequence, acceptedCapabilities, closed := None, None, 1, {}, false;
    }

    method Error(request: Frame, code: ErrorCode, message: Text, ghost log: seq<Call>) returns (response: Option<Frame>)
      ensures Served(Model(), log, response) == Fail(Model(), log, request, code, message)
    {
      var payload := EncodeErrorPayload(CodeNumber(code), message);
      match payload
      case Err(_) => response := None;
      case Ok(bytes) =>
        response := Some(Respond(request, ERROR, request.subjectOpcode, UNKNOWN, sessionId, false, bytes));
    }

    method ProcessRequest(request: Frame, handler: EventHandler, freshId: seq<Byte>) returns (response: Option<Frame>)
      modifies this, handler
      ensures Served(Model(), handler.log, response) ==
              Process(Env(handler), old(Model()), old(handler.log), request, freshId)
    {
      hide Fail, HandleHello, HandleNegotiated;
      if request.kind != REQUEST {
        response := Error(request, InvalidFrame, Wording(RequestsOnly), handler.log);
      } else if request.sequence != expectedSequence {
        response := Error(request, SequenceMismatch, Wording(SequenceUnexpected), handler.log);
      } else if sessionId.None? {
        expectedSequence := expectedSequence + 1;
        if request.opcode != HELLO {
          response := Error(request, HandshakeRequired, Wording(HelloFirst), handler.log);
        } else {
          response := Hello(request, handler, freshId);
        }
      } else if request.sessionId != sessionId {
        response := Error(request, SessionMismatch, Wording(OtherSession), handler.log);
      } else if closed {
        response := Error(request, SessionClosed, Wording(AlreadyClosed), handler.log);
      } else {
        expectedSequence := expectedSequence + 1;
        response := Negotiated(request, handler);
      }
    }

    method Negotiated(request: Frame, handler: EventHandler) returns (response: Option<Frame>)
      modifies this, handler
      ensures Served(Model(), handler.log, response) ==
              HandleNegotiated(Env(handler), old(Model()), old(handler.log), request)
    {
      hide Fail, HandleRuntimeEvent, HandlePing;
      if request.decisionOpcode != 0 {
        response := Error(request, InvalidFrame, Wording(DecisionOpcodeNotZero), handler.log);
      } else if request.opcode == RUNTIME_EVENT {
        response := HandleEvent(request, handler);
      } else if request.subjectOpcode != 0 {
        response := Error(request, InvalidFrame, Wording(SubjectNotAllowed), handler.log);
      } else if request.opcode == PING {
        response := Ping(request, handler.log);
      } else if request.opcode == GOODBYE {
        if request.payload != [] {
          response := Error(request, MalformedPayload, Wording(GoodbyeNotEmpty), handler.log);
        } else {
          closed := true;
          response := Some(Respond(request, GOODBYE, 0, 0, sessionId, true, []));
        }
      } else {
        response := Error(request, UnsupportedOpcode, Wording(OpcodeUnknown), handler.log);
      }
    }

    method Hello(request: Frame, handler: EventHandler, freshId: seq<Byte>) returns (response: Option<Frame>)
      modifies this
      ensures Served(Model(), handler.log, response) ==
              HandleHello(Env(handler), old(Model()), handler.log, request, freshId)
    {
      hide EncodeErrorPayload, DecodeHello, EncodeWelcome;
      if request.sessionId.Some? || request.subjectOpcode != 0 || request.decisionOpcode != 0 {
        response := Error(request, InvalidFrame, Wording(HelloHeaderInvalid), handler.log);
        return;
      }
      var decoded := DecodeHello(request.payload);
      if decoded.Err? {
        response := Error(request, MalformedPayload, Wording(HelloPayloadInvalid), handler.log);
        return;
      }
      var hello := decoded.value;
      var available := Available(hello.digest);
      if available.None? {
        response := Error(request, ContractMismatch, Wording(NoSharedContract), handler.log);
        return;
      }
      if hello.digest == BATCH_CONTRACT_DIGEST && BatchedRuntimeEvents !in hello.required {
        response := Error(request, MalformedPayload, Wording(BatchCapabilityRequired), handler.log);
        return;
      }
      if !(hello.required <= available.value) {
        response := Error(request, RequiredCapabilityUnavailable, Wording(CapabilityUnavailable), handler.log);
        return;
      }
      sessionId := Some(freshId);
      contractDigest := Some(hello.digest);
      acceptedCapabilities := (hello.requested + hello.required) * available.value;
      var payload := EncodeWelcome(
        Welcome(hello.digest, available.value, acceptedCapabilities, serverName, serverVersion));
      response := if payload.Ok? then Some(Respond(request, WELCOME, 0, 0, sessionId, true, payload.value)) else None;
    }

    method HandleEvent(request: Frame, handler: EventHandler) returns (response: Option<Frame>)
      modifies this, handler
      ensures Served(Model(), handler.log, response) ==
              HandleRuntimeEvent(Env(handler), old(Model()), old(handler.log), request)
    {
      hide EncodeErrorPayload, DecodeBatch, DecisionField;
      if !(REQUIRED_CAPABILITIES <= acceptedCapabilities) {
        response := Error(request, CapabilityNotNegotiated, Wording(EventsNotNegotiated), handler.log);
        return;
      }
      if request.subjectOpcode == BATCH_EVENT {
        response := OperationBatch(request, handler);
        return;
      }
      if !(100 <= request.subjectOpcode <= 104) {
        response := Error(request, UnsupportedEventOpcode, Wording(EventOpcodeUnknown), handler.log);
        return;
      }
      if !accepts(request.subjectOpcode, request.payload) {
        response := Error(request, MalformedPayload, Wording(EventInvalid), handler.log);
        return;
      }
      var reply := handler.Handle(Call(request.sequence, RuntimeEvent(request.subjectOpcode, request.payload)));
      var answer := EventAnswer(request.subjectOpcode, reply);
      match answer
      case Err(message) => response := Error(request, RuntimeEventRejected, message, handler.log);
      case Ok((opcode, payload)) =>
        response := Some(Respond(request, RUNTIME_DECISION, request.subjectOpcode, opcode, sessionId, true, payload));
    }

    method OperationBatch(request: Frame, handler: EventHandler) returns (response: Option<Frame>)
      modifies this, handler
      ensures Served(Model(), handler.log, response) ==
              HandleBatch(Env(handler), old(Model()), old(handler.log), request)
    {
      hide EncodeErrorPayload, DecodeBatch, EncodeVector, Compact;
      if contractDigest != Some(BATCH_CONTRACT_DIGEST) || BatchedRuntimeEvents !in acceptedCapabilities {
        response := Error(request, CapabilityNotNegotiated, Wording(BatchesNotNegotiated), handler.log);
        return;
      }
      var decoded := Objects.DecodeOperationBatch(request.payload);
      if decoded.Err? {
        response := Error(request, MalformedPayload, Wording(BatchInvalid), handler.log);
        return;
      }
      var batch := decoded.value;
      ghost var before := handler.log;
      var entries: seq<Entry> := [];
      for ordinal := 0 to Count(batch)
        invariant Model() == old(Model())
        invariant HandleBatchOperations(handler.script, before, request.sequence, batch, ordinal) ==
            (handler.log, Ok(entries))
      {
        var reply := handler.Handle(Call(request.sequence, BatchOperation(batch, ordinal)));
        var entry := Compact(OPERATION_EVENT, reply);
        if entry.Err? {
          RejectedBatchStops(handler.script, before, request.sequence, batch, ordinal + 1, Count(batch));
          closed := true;
          response := Error(request, RuntimeEventRejected, entry.error, handler.log);
          return;
        }
        entries := entries + [entry.value];
      }
      var answer := BatchAnswer(batch, Ok(entries));
      match answer
      case Err(message) =>
        closed := true;
        response := Error(request, RuntimeEventRejected, message, handler.log);
      case Ok(payload) =>
        response := Some(Respond(request, RUNTIME_DECISION, BATCH_EVENT, BATCH_VECTOR, sessionId, true, payload));
    }

    method Ping(request: Frame, ghost log: seq<Call>) returns (response: Option<Frame>)
      ensures Served(Model(), log, response) == HandlePing(Model(), log, request)
    {
      hide EncodeErrorPayload, DecodeNonce, TextField;
      if Heartbeat !in acceptedCapabilities {
        response := Error(request, CapabilityNotNegotiated, Wording(HeartbeatNotNegotiated), log);
        return;
      }
      var nonce := DecodeNonce(request.payload);
      if nonce.Err? {
        response := Error(request, MalformedPayload, Wording(NonceInvalid), log);
        return;
      }
      var payload := TextField(nonce.value, 1, MAX_NONCE);
      response := if payload.Ok? then Some(Respond(request, PONG, 0, 0, sessionId, true, payload.value)) else None;
    }
  }

  lemma {:induction false} RejectedBatchStops(
    script: Script, log: seq<Call>, sequence: int, batch: OperationBatch, k: nat, count: nat)
    requires k <= count && HandleBatchOperations(script, log, sequence, batch, k).1.Err?
    ensures HandleBatchOperations(script, log, sequence, batch, count) ==
            HandleBatchOperations(script, log, sequence, batch, k)
    decreases count
  {
    hide Compact;
    if k < count {
      RejectedBatchStops(script, log, sequence, batch, k, count - 1);
    }
  }
}
