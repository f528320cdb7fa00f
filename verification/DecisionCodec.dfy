/** Decision, decision-vector, handshake, nonce and error payloads. */
module DecisionCodec {
  import opened Wrappers
  import opened Bytes
  import opened Utf8
  import opened PayloadCodec
  import FrameCodec

  // ----- One runtime decision: 17 bytes -----

  datatype RuntimeDecision = RuntimeDecision(accepted: bool, executed: Option<bool>, savedUs: int, savedBytes: int)

  function DecisionFlags(decision: RuntimeDecision): nat {
    Mask(decision.accepted, decision.executed.Some?, decision.executed == Some(true), false)
  }

  function DecisionField(decision: RuntimeDecision): Written {
    var flags :- IntField(DecisionFlags(decision), 1);
    var savedUs :- IntField(decision.savedUs, 8);
    var savedBytes :- IntField(decision.savedBytes, 8);
    Ok(flags + (savedUs + savedBytes))
  }

  function TakeDecision(rest: seq<Byte>): (r: Parsed<RuntimeDecision>)
    ensures r.Ok? ==> DecisionField(r.value.0).Ok? && rest == DecisionField(r.value.0).value + r.value.1
  {
    hide TakeInt, LittleEndian, Pow256;
    var (flags, r1) :- TakeInt(rest, 1);
    var (savedUs, r2) :- TakeInt(r1, 8);
    var (savedBytes, r3) :- TakeInt(r2, 8);
    if flags >= 8 || (HasBit(flags, 4) && !HasBit(flags, 2)) then Err(InvalidPayload)
    else
      var executed := if HasBit(flags, 2) then Some(HasBit(flags, 4)) else None;
      Regroup(LittleEndian(flags, 1), LittleEndian(savedUs, 8), LittleEndian(savedBytes, 8), r3);
      MaskOfBits(flags);
      Ok((RuntimeDecision(HasBit(flags, 1), executed, savedUs, savedBytes), r3))
  }

  lemma DecisionParsesBack(decision: RuntimeDecision, rest: seq<Byte>)
    requires DecisionField(decision).Ok?
    ensures |DecisionField(decision).value| == 17
    ensures TakeDecision(DecisionField(decision).value + rest) == Ok((decision, rest))
  {
    hide IntField, TakeInt, HasBit, Mask;
    var flags := DecisionFlags(decision);
    var savedUs, savedBytes := IntField(decision.savedUs, 8).value, IntField(decision.savedBytes, 8).value;
    Regroup(IntField(flags, 1).value, savedUs, savedBytes, rest);
    MaskBits(decision.accepted, decision.executed.Some?, decision.executed == Some(true), false);
    IntParsesBack(flags, 1, savedUs + (savedBytes + rest));
    IntParsesBack(decision.savedUs, 8, savedBytes + rest);
    IntParsesBack(decision.savedBytes, 8, rest);
    FieldWidth(flags, 1);
    FieldWidth(decision.savedUs, 8);
    FieldWidth(decision.savedBytes, 8);
    SmallMask(decision.accepted, decision.executed.Some?, decision.executed == Some(true));
    match decision.executed {
      case None =>
      case Some(executed) => assert (decision.executed == Some(true)) == executed;
    }
  }

  lemma SmallMask(b0: bool, b1: bool, b2: bool)
    ensures Mask(b0, b1, b2, false) < 8
  {
  }

  lemma FieldWidth(value: int, width: nat)
    requires IntField(value, width).Ok?
    ensures |IntField(value, width).value| == width
  {
  }

  // ----- Decision vectors -----

  const EXECUTE := 0
  const UNKNOWN := 255

  datatype Entry = Entry(opcode: int, decision: RuntimeDecision)

  /** Execution state and opcode of an entry must agree. */
  predicate ValidEntry(entry: Entry) {
    0 <= entry.opcode <= 6 && entry.decision.executed == Some(entry.opcode == EXECUTE)
  }

  datatype DecisionVector = DecisionVector(batchId: seq<Byte>, entries: seq<Entry>)

  function EntryField(entry: Entry): Written {
    if !ValidEntry(entry) then Err(InvalidPayload)
    else
      var opcode :- IntField(entry.opcode, 1);
      var decision :- DecisionField(entry.decision);
      Ok(opcode + decision)
  }

  function TakeEntry(rest: seq<Byte>): (r: Parsed<Entry>)
    ensures r.Ok? ==> EntryField(r.value.0).Ok? && rest == EntryField(r.value.0).value + r.value.1
  {
    hide TakeInt, TakeDecision, DecisionField, LittleEndian;
    var (opcode, r1) :- TakeInt(rest, 1);
    var (decision, r2) :- TakeDecision(r1);
    var entry := Entry(opcode, decision);
    if !ValidEntry(entry) then Err(InvalidPayload)
    else
      assert LittleEndian(opcode, 1) + (DecisionField(decision).value + r2)
          == LittleEndian(opcode, 1) + DecisionField(decision).value + r2;
      Ok((entry, r2))
  }

  lemma EntryParsesBack(entry: Entry, rest: seq<Byte>)
    requires EntryField(entry).Ok?
    ensures |EntryField(entry).value| == 18
    ensures TakeEntry(EntryField(entry).value + rest) == Ok((entry, rest))
  {
    hide IntField, TakeInt, DecisionField, TakeDecision;
    var opcode, decision := IntField(entry.opcode, 1).value, DecisionField(entry.decision).value;
    assert opcode + decision + rest == opcode + (decision + rest);
    IntParsesBack(entry.opcode, 1, decision + rest);
    DecisionParsesBack(entry.decision, rest);
    FieldWidth(entry.opcode, 1);
  }

  function EntriesField(entries: seq<Entry>): Written {
    if entries == [] then Ok([])
    else
      var prior :- EntriesField(entries[..|entries| - 1]);
      var last :- EntryField(entries[|entries| - 1]);
      Ok(prior + last)
  }

  function TakeEntries(rest: seq<Byte>, count: nat): (r: Parsed<seq<Entry>>)
    ensures r.Ok? ==> |r.value.0| == count
    ensures r.Ok? ==> EntriesField(r.value.0).Ok? && rest == EntriesField(r.value.0).value + r.value.1
  {
    hide EntryField, TakeEntry;
    if count == 0 then assert [] + rest == rest; Ok(([], rest))
    else
      var (prior, r1) :- TakeEntries(rest, count - 1);
      var (last, r2) :- TakeEntry(r1);
      var all := prior + [last];
      assert all[..|all| - 1] == prior;
      assert EntriesField(prior).value + (EntryField(last).value + r2) ==
             EntriesField(prior).value + EntryField(last).value + r2;
      Ok((all, r2))
  }

  lemma {:induction false} EntriesParseBack(entries: seq<Entry>, rest: seq<Byte>)
    requires EntriesField(entries).Ok?
    ensures |EntriesField(entries).value| == 18 * |entries|
    ensures TakeEntries(EntriesField(entries).value + rest, |entries|) == Ok((entries, rest))
    decreases |entries|
  {
    hide EntryField, TakeEntry;
    if entries == [] {
      assert [] + rest == rest;
    } else {
      var prior, last := entries[..|entries| - 1], entries[|entries| - 1];
      var before, end := EntriesField(prior).value, EntryField(last).value;
      assert before + end + rest == before + (end + rest);
      EntriesParseBack(prior, end + rest);
      EntryParsesBack(last, rest);
      assert prior + [last] == entries;
    }
  }

  function VectorPayload(vector: DecisionVector): Written {
    if !ValidBatchId(vector.batchId) || !ValidCount(|vector.entries|) then Err(InvalidPayload)
    else
      var count :- IntField(|vector.entries|, 2);
      var entries :- EntriesField(vector.entries);
      Ok(vector.batchId + (count + entries))
  }

  function EncodeVector(vector: DecisionVector): Written {
    var payload :- VectorPayload(vector);
    Finish(payload)
  }

  function DecodeVector(payload: seq<Byte>): Result<DecisionVector, PayloadError> {
    var (batchId, r1) :- TakeBytes(payload, 16);
    if !ValidBatchId(batchId) then Err(InvalidPayload)
    else
      var (count, r2) :- TakeInt(r1, 2);
      if !ValidCount(count) then Err(InvalidPayload)
      else
        var (entries, r3) :- TakeEntries(r2, count);
        if r3 != [] then Err(InvalidPayload) else Ok(DecisionVector(batchId, entries))
  }

  lemma VectorsAlwaysFit(vector: DecisionVector)
    requires VectorPayload(vector).Ok?
    ensures |VectorPayload(vector).value| == 18 + 18 * |vector.entries|
    ensures EncodeVector(vector) == VectorPayload(vector)
  {
    hide EntriesField, LittleEndian;
    EntriesParseBack(vector.entries, []);
  }

  /** The bytes of an accepted decision vector are the only encoding of what they decode to. */
  lemma VectorIsCanonical(payload: seq<Byte>)
    requires DecodeVector(payload).Ok?
    ensures EncodeVector(DecodeVector(payload).value) == Ok(payload)
  {
    hide EntriesField, TakeEntries, TakeInt, LittleEndian, AllZero, Finish;
    var vector := DecodeVector(payload).value;
    var entries := EntriesField(vector.entries).value;
    assert entries + [] == entries;
    VectorsAlwaysFit(vector);
  }

  /** Every decision vector that can be encoded decodes to itself. */
  lemma VectorParsesBack(vector: DecisionVector)
    requires EncodeVector(vector).Ok?
    ensures DecodeVector(EncodeVector(vector).value) == Ok(vector)
  {
    hide EntriesField, TakeEntries, IntField, TakeInt, AllZero;
    var count, entries := IntField(|vector.entries|, 2).value, EntriesField(vector.entries).value;
    var payload := vector.batchId + (count + entries);
    assert payload[..16] == vector.batchId && payload[16..] == count + entries;
    IntParsesBack(|vector.entries|, 2, entries);
    assert entries + [] == entries;
    EntriesParseBack(vector.entries, []);
  }

  // ----- Handshake -----

  datatype Capability =
    | BinaryPayloads
    | FixedPointUnits
    | Heartbeat
    | RuntimeEvents
    | RuntimeDecisions
    | MemoryTransit
    | SessionLifecycle
    | BatchedRuntimeEvents

  function Weight(capability: Capability): (w: nat)
    ensures w > 0
  {
    match capability
    case BinaryPayloads => 1 case FixedPointUnits => 2 case Heartbeat => 4 case RuntimeEvents => 8
    case RuntimeDecisions => 16 case MemoryTransit => 32 case SessionLifecycle => 64 case BatchedRuntimeEvents => 128
  }

  function CapabilitiesOf(mask: nat): set<Capability> {
    set capability: Capability | HasBit(mask, Weight(capability))
  }

  function MaskFor(capabilities: set<Capability>): (mask: nat)
    ensures mask < 256
  {
    Bit(BinaryPayloads in capabilities, 1) + Bit(FixedPointUnits in capabilities, 2)
    + Bit(Heartbeat in capabilities, 4) + Bit(RuntimeEvents in capabilities, 8)
    + Bit(RuntimeDecisions in capabilities, 16) + Bit(MemoryTransit in capabilities, 32)
    + Bit(SessionLifecycle in capabilities, 64) + Bit(BatchedRuntimeEvents in capabilities, 128)
  }

  function Halves(capabilities: set<Capability>): (nat, nat) {
    (Mask(BinaryPayloads in capabilities, FixedPointUnits in capabilities,
          Heartbeat in capabilities, RuntimeEvents in capabilities),
     Mask(RuntimeDecisions in capabilities, MemoryTransit in capabilities,
          SessionLifecycle in capabilities, BatchedRuntimeEvents in capabilities))
  }

  lemma MaskInHalves(capabilities: set<Capability>)
    ensures var (low, high) := Halves(capabilities);
            low < 16 && high < 16 && MaskFor(capabilities) == low + 16 * high
  {
  }

  lemma LowBits(low: nat, high: nat)
    requires low < 16 && high < 16
    ensures var mask := low + 16 * high;
            && HasBit(mask, 1) == HasBit(low, 1) && HasBit(mask, 2) == HasBit(low, 2)
            && HasBit(mask, 4) == HasBit(low, 4) && HasBit(mask, 8) == HasBit(low, 8)
  {
    var mask := low + 16 * high;
    assert mask / 2 == low / 2 + 8 * high && mask / 4 == low / 4 + 4 * high && mask / 8 == low / 8 + 2 * high;
  }

  lemma HighBits(low: nat, high: nat)
    requires low < 16 && high < 16
    ensures var mask := low + 16 * high;
            && HasBit(mask, 16) == HasBit(high, 1) && HasBit(mask, 32) == HasBit(high, 2)
            && HasBit(mask, 64) == HasBit(high, 4) && HasBit(mask, 128) == HasBit(high, 8)
  {
    var mask := low + 16 * high;
    assert mask / 16 == high && mask / 32 == high / 2 && mask / 64 == high / 4 && mask / 128 == high / 8;
  }

  lemma MaskOfCapabilities(mask: nat)
    requires mask < 256
    ensures MaskFor(CapabilitiesOf(mask)) == mask
  {
    hide HasBit, Mask, MaskFor;
    LowBits(mask % 16, mask / 16);
    HighBits(mask % 16, mask / 16);
    MaskOfBits(mask % 16);
    MaskOfBits(mask / 16);
    MaskInHalves(CapabilitiesOf(mask));
  }

  lemma CapabilitiesOfMask(capabilities: set<Capability>)
    ensures CapabilitiesOf(MaskFor(capabilities)) == capabilities
  {
    hide HasBit, Mask, MaskFor;
    var (low, high) := Halves(capabilities);
    MaskInHalves(capabilities);
    LowBits(low, high);
    HighBits(low, high);
    MaskBits(BinaryPayloads in capabilities, FixedPointUnits in capabilities,
             Heartbeat in capabilities, RuntimeEvents in capabilities);
    MaskBits(RuntimeDecisions in capabilities, MemoryTransit in capabilities,
             SessionLifecycle in capabilities, BatchedRuntimeEvents in capabilities);
    forall c: Capability ensures c in CapabilitiesOf(MaskFor(capabilities)) <==> c in capabilities {
      match c {
        case BinaryPayloads => case FixedPointUnits => case Heartbeat => case RuntimeEvents =>
        case RuntimeDecisions => case MemoryTransit => case SessionLifecycle => case BatchedRuntimeEvents =>
      }
    }
  }

  function CapabilitiesField(capabilities: set<Capability>): Written {
    IntField(MaskFor(capabilities), 8)
  }

  /** A mask may only name the eight registered capabilities. */
  function TakeCapabilities(rest: seq<Byte>): (r: Parsed<set<Capability>>)
    ensures r.Ok? ==> CapabilitiesField(r.value.0).Ok? && rest == CapabilitiesField(r.value.0).value + r.value.1
  {
    hide TakeInt, CapabilitiesOf, MaskFor;
    var (mask, left) :- TakeInt(rest, 8);
    if mask >= 256 then Err(InvalidPayload)
    else
      MaskOfCapabilities(mask);
      Ok((CapabilitiesOf(mask), left))
  }

  lemma CapabilitiesParseBack(capabilities: set<Capability>, rest: seq<Byte>)
    ensures CapabilitiesField(capabilities).Ok?
    ensures TakeCapabilities(CapabilitiesField(capabilities).value + rest) == Ok((capabilities, rest))
  {
    hide TakeInt, MaskFor, CapabilitiesOf;
    Widths();
    CapabilitiesOfMask(capabilities);
    IntParsesBack(MaskFor(capabilities), 8, rest);
  }

  datatype Hello = Hello(
    digest: seq<Byte>,
    requested: set<Capability>,
    required: set<Capability>,
    clientName: Text,
    clientVersion: Text)

  function EncodeHello(hello: Hello): Written {
    if |hello.digest| != 32 then Err(InvalidPayload)
    else
      var requested :- CapabilitiesField(hello.requested);
      var required :- CapabilitiesField(hello.required);
      var name :- TextField(hello.clientName, 1, MAX_PEER_NAME);
      var version :- TextField(hello.clientVersion, 1, MAX_PEER_VERSION);
      Finish(hello.digest + (requested + (required + (name + version))))
  }

  function DecodeHello(payload: seq<Byte>): Result<Hello, PayloadError> {
    var (digest, r1) :- TakeBytes(payload, 32);
    var (requested, r2) :- TakeCapabilities(r1);
    var (required, r3) :- TakeCapabilities(r2);
    var (name, r4) :- TakeText(r3, 1, MAX_PEER_NAME);
    var (version, r5) :- TakeText(r4, 1, MAX_PEER_VERSION);
    if r5 != [] then Err(InvalidPayload) else Ok(Hello(digest, requested, required, name, version))
  }

  lemma HelloIsCanonical(payload: seq<Byte>)
    ensures DecodeHello(payload).Ok? ==> EncodeHello(DecodeHello(payload).value) == Ok(payload)
  {
    hide CapabilitiesField, TakeCapabilities, TextField, TakeText;
    if DecodeHello(payload).Ok? {
      var hello := DecodeHello(payload).value;
      var version := TextField(hello.clientVersion, 1, MAX_PEER_VERSION).value;
      assert version + [] == version;
      HandshakeSizes(hello.requested, hello.required, hello.clientName, hello.clientVersion);
    }
  }

  lemma HandshakeSizes(first: set<Capability>, second: set<Capability>, name: Text, version: Text)
    requires TextField(name, 1, MAX_PEER_NAME).Ok? && TextField(version, 1, MAX_PEER_VERSION).Ok?
    ensures CapabilitiesField(first).Ok? && |CapabilitiesField(first).value| == 8
    ensures CapabilitiesField(second).Ok? && |CapabilitiesField(second).value| == 8
    ensures |TextField(name, 1, MAX_PEER_NAME).value| <= 129
    ensures |TextField(version, 1, MAX_PEER_VERSION).value| <= 65
  {
    hide MaskFor;
    Widths();
    TextFieldSize(name, 1, MAX_PEER_NAME);
    TextFieldSize(version, 1, MAX_PEER_VERSION);
  }

  lemma HelloParsesBack(hello: Hello)
    requires EncodeHello(hello).Ok?
    ensures DecodeHello(EncodeHello(hello).value) == Ok(hello)
  {
    hide CapabilitiesField, TakeCapabilities, TextField, TakeText;
    var requested, required := CapabilitiesField(hello.requested).value, CapabilitiesField(hello.required).value;
    var name := TextField(hello.clientName, 1, MAX_PEER_NAME).value;
    var version := TextField(hello.clientVersion, 1, MAX_PEER_VERSION).value;
    var tail := requested + (required + (name + version));
    assert (hello.digest + tail)[..32] == hello.digest && (hello.digest + tail)[32..] == tail;
    CapabilitiesParseBack(hello.requested, required + (name + version));
    CapabilitiesParseBack(hello.required, name + version);
    TextParsesBack(hello.clientName, 1, MAX_PEER_NAME, version);
    assert version + [] == version;
    TextParsesBack(hello.clientVersion, 1, MAX_PEER_VERSION, []);
  }

  datatype Welcome = Welcome(
    digest: seq<Byte>,
    available: set<Capability>,
    accepted: set<Capability>,
    serverName: Text,
    serverVersion: Text)

  function EncodeWelcome(welcome: Welcome): Written {
    if |welcome.digest| != 32 || !(welcome.accepted <= welcome.available) then Err(InvalidPayload)
    else
      var available :- CapabilitiesField(welcome.available);
      var accepted :- CapabilitiesField(welcome.accepted);
      var limit :- IntField(FrameCodec.MAX_PAYLOAD, 4);
      var name :- TextField(welcome.serverName, 1, MAX_PEER_NAME);
      var version :- TextField(welcome.serverVersion, 1, MAX_PEER_VERSION);
      Finish(welcome.digest + (available + (accepted + (limit + (name + version)))))
  }

  lemma WelcomeIsWritable(welcome: Welcome)
    requires |welcome.digest| == 32 && welcome.accepted <= welcome.available
    requires FitsField(welcome.serverName, MAX_PEER_NAME) && FitsField(welcome.serverVersion, MAX_PEER_VERSION)
    ensures EncodeWelcome(welcome).Ok? && |EncodeWelcome(welcome).value| <= FrameCodec.MAX_PAYLOAD
  {
    hide CapabilitiesField, Encode, Blank, Encodable;
    Widths();
    HandshakeSizes(welcome.available, welcome.accepted, welcome.serverName, welcome.serverVersion);
  }

  /** What a client reads from a welcome, with the payload limit it announces. */
  function DecodeWelcome(payload: seq<Byte>): Result<(Welcome, nat), PayloadError> {
    var (digest, r1) :- TakeBytes(payload, 32);
    var (available, r2) :- TakeCapabilities(r1);
    var (accepted, r3) :- TakeCapabilities(r2);
    var (limit, r4) :- TakeInt(r3, 4);
    var (name, r5) :- TakeText(r4, 1, MAX_PEER_NAME);
    var (version, r6) :- TakeText(r5, 1, MAX_PEER_VERSION);
    if r6 != [] || !(accepted <= available) || !(1 <= limit <= FrameCodec.MAX_PAYLOAD) then Err(InvalidPayload)
    else Ok((Welcome(digest, available, accepted, name, version), limit))
  }

  lemma WelcomeParsesBack(welcome: Welcome)
    requires EncodeWelcome(welcome).Ok?
    ensures DecodeWelcome(EncodeWelcome(welcome).value) == Ok((welcome, FrameCodec.MAX_PAYLOAD))
  {
    hide CapabilitiesField, TakeCapabilities, TextField, TakeText, IntField, TakeInt;
    var available, accepted := CapabilitiesField(welcome.available).value, CapabilitiesField(welcome.accepted).value;
    var limit := IntField(FrameCodec.MAX_PAYLOAD, 4).value;
    var name := TextField(welcome.serverName, 1, MAX_PEER_NAME).value;
    var version := TextField(welcome.serverVersion, 1, MAX_PEER_VERSION).value;
    var tail := available + (accepted + (limit + (name + version)));
    assert (welcome.digest + tail)[..32] == welcome.digest && (welcome.digest + tail)[32..] == tail;
    CapabilitiesParseBack(welcome.available, accepted + (limit + (name + version)));
    CapabilitiesParseBack(welcome.accepted, limit + (name + version));
    IntParsesBack(FrameCodec.MAX_PAYLOAD, 4, name + version);
    TextParsesBack(welcome.serverName, 1, MAX_PEER_NAME, version);
    assert version + [] == version;
    TextParsesBack(welcome.serverVersion, 1, MAX_PEER_VERSION, []);
  }

  // ----- Nonces and errors -----

  function DecodeNonce(payload: seq<Byte>): Result<Text, PayloadError> {
    var (nonce, rest) :- TakeText(payload, 1, MAX_NONCE);
    if rest != [] then Err(InvalidPayload) else Ok(nonce)
  }

  /** A pong carries the very bytes of its ping. */
  lemma NonceIsEchoed(payload: seq<Byte>)
    requires DecodeNonce(payload).Ok?
    ensures TextField(DecodeNonce(payload).value, 1, MAX_NONCE) == Ok(payload)
  {
    var field := TextField(DecodeNonce(payload).value, 1, MAX_NONCE).value;
    assert field + [] == field;
  }

  function EncodeErrorPayload(code: int, message: Text): Written {
    var number :- IntField(code, 2);
    var text :- TextField(TruncateUtf8(message, MAX_REASON), 2, MAX_REASON);
    Finish(number + text)
  }

  /** What a client reads from an error: its number and its text. */
  function DecodeErrorPayload(payload: seq<Byte>): Result<(nat, Text), PayloadError> {
    var (number, r1) :- TakeInt(payload, 2);
    var (message, r2) :- TakeText(r1, 2, MAX_REASON);
    if r2 != [] || !(1 <= number <= 12) then Err(InvalidPayload) else Ok((number, message))
  }

  lemma ErrorParsesBack(code: int, message: Text)
    requires 1 <= code <= 12 && EncodeErrorPayload(code, message).Ok?
    ensures DecodeErrorPayload(EncodeErrorPayload(code, message).value) ==
            Ok((code, TruncateUtf8(message, MAX_REASON)))
  {
    hide TextField, TakeText, IntField, TakeInt, TruncateUtf8;
    var text := TextField(TruncateUtf8(message, MAX_REASON), 2, MAX_REASON).value;
    IntParsesBack(code, 2, text);
    assert text + [] == text;
    TextParsesBack(TruncateUtf8(message, MAX_REASON), 2, MAX_REASON, []);
  }

  /**
    An error can be reported exactly when truncation leaves its message without
    lone surrogates; the message that cannot is one short enough to be left alone.
   */
  lemma ErrorPayloadIsWritable(code: int, message: Text)
    requires 0 <= code < 0x1_0000
    ensures EncodeErrorPayload(code, message).Ok? <==> !KeepsSurrogate(message, MAX_REASON)
    ensures EncodeErrorPayload(code, message).Ok? ==>
              |EncodeErrorPayload(code, message).value| <= FrameCodec.MAX_PAYLOAD
  {
    hide KeepsSurrogate, TruncateUtf8, FitsField;
    Widths();
    TruncationFits(message, MAX_REASON);
    var text := TruncateUtf8(message, MAX_REASON);
    if FitsField(text, MAX_REASON) {
      FitsMeansShort(text, MAX_REASON);
      TextFieldSize(text, 2, MAX_REASON);
    }
  }

  lemma FitsMeansShort(text: Text, maximum: nat)
    requires FitsField(text, maximum)
    ensures |Encode(text)| <= maximum
  {
  }
}
