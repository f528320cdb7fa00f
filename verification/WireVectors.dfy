/**
  The published byte vectors of the protocol, byte for byte.  Round trips hold of
  any pair of inverse codecs; these fix which pair it is.
 */
module WireVectors {
  import opened Wrappers
  import opened Bytes
  import opened Utf8
  import opened PayloadCodec
  import opened DecisionCodec
  import opened OperationEvents
  import opened Session
  import FrameCodec
  import Runtime

  // ----- Integers and plain text -----

  lemma {:induction false} LittleEndianAt(value: nat, width: nat, i: nat)
    requires i < width
    ensures LittleEndian(value, width)[i] == value / Pow256(i) % 256
  {
    if i > 0 {
      LittleEndianAt(value / 256, width - 1, i - 1);
      QuotientOfQuotient(value, Pow256(i - 1));
    }
  }

  lemma QuotientOfQuotient(value: nat, power: nat)
    requires power > 0
    ensures value / 256 / power == value / (256 * power)
  {
    var q, r := value / 256, value % 256;
    var s, t := q / power, q % power;
    assert value == (256 * power) * s + (256 * t + r);
    assert 256 * t + r < 256 * power;
    QuotientIs(value, 256 * power, s, 256 * t + r);
  }

  lemma QuotientIs(value: nat, divisor: nat, q: nat, r: nat)
    requires r < divisor && value == divisor * q + r
    ensures value / divisor == q
  {
    var a := value / divisor;
    ProductsGrow(divisor, a + 1, q);
    ProductsGrow(divisor, q + 1, a);
  }

  lemma ProductsGrow(factor: nat, low: int, high: int)
    ensures low <= high ==> factor * low <= factor * high
  {
  }

  lemma OneByte(value: nat)
    requires value < 256
    ensures LittleEndian(value, 1) == [value]
  {
    assert LittleEndian(value / 256, 0) == [];
  }

  lemma TwoBytes(value: nat)
    requires value < 0x1_0000
    ensures LittleEndian(value, 2) == [value % 256, value / 256]
  {
    OneByte(value / 256);
  }

  lemma FourBytes(value: nat)
    requires value < 0x1_0000_0000
    ensures LittleEndian(value, 4) ==
            [value % 256, value / 256 % 256, value / 0x1_0000 % 256, value / 0x100_0000]
  {
    TwoBytes(value / 0x1_0000);
    assert LittleEndian(value / 256, 3) == [value / 256 % 256] + LittleEndian(value / 256 / 256, 2);
    assert value / 256 / 256 == value / 0x1_0000;
  }

  /** Small numbers in eight bytes: four that matter and four zeros. */
  lemma EightBytes(value: nat)
    requires value < 0x1_0000_0000
    ensures LittleEndian(value, 8) ==
            [value % 256, value / 256 % 256, value / 0x1_0000 % 256, value / 0x100_0000, 0, 0, 0, 0]
  {
    var high := value / 256 / 256 / 256;
    assert high < 256 && high / 256 == 0;
    assert LittleEndian(0, 4) == [0, 0, 0, 0] by {
      FourBytes(0);
    }
    assert LittleEndian(high, 5) == [high] + LittleEndian(0, 4);
    assert LittleEndian(value / 256 / 256, 6) == [value / 256 / 256 % 256] + LittleEndian(high, 5);
    assert LittleEndian(value / 256, 7) == [value / 256 % 256] + LittleEndian(value / 256 / 256, 6);
  }

  /** The table of section 3 of RFC 3629: lead byte by length, then six bits a byte. */
  lemma Utf8Table(c: CodePoint)
    ensures EncodeChar(c) ==
            if c <= 0x7F then [c]
            else if c <= 0x7FF then [0xC0 + c / 0x40, 0x80 + c % 0x40]
            else if c <= 0xFFFF then [0xE0 + c / 0x1000, 0x80 + c / 0x40 % 0x40, 0x80 + c % 0x40]
            else [0xF0 + c / 0x4_0000, 0x80 + c / 0x1000 % 0x40, 0x80 + c / 0x40 % 0x40, 0x80 + c % 0x40]
  {
    assert c / 64 / 64 == c / 0x1000 && c / 64 / 64 / 64 == c / 0x4_0000;
  }

  predicate IsAscii(s: string) {
    forall c | c in s :: c as int < 128
  }

  function Code(c: char): Byte
    requires c as int < 128
  {
    c as int
  }

  /** One byte per character. */
  function Codes(s: string): (bytes: seq<Byte>)
    requires IsAscii(s)
    ensures |bytes| == |s| && forall i | 0 <= i < |s| :: bytes[i] == s[i] as int
  {
    seq(|s|, i requires 0 <= i < |s| => assert s[i] in s; Code(s[i]))
  }

  lemma {:induction false} AsciiIsItself(s: string)
    requires IsAscii(s)
    ensures Encode(Ascii(s)) == Codes(s)
  {
    hide EncodeChar;
    if s != [] {
      assert Ascii(s)[1..] == Ascii(s[1..]);
      assert s[0] in s && forall c | c in s[1..] :: c in s;
      AsciiIsItself(s[1..]);
      OneByteChar(Ascii(s)[0]);
      assert Codes(s) == [Code(s[0])] + Codes(s[1..]);
    }
  }

  lemma OneByteChar(c: CodePoint)
    requires c < 128
    ensures EncodeChar(c) == [c]
  {
  }

  /** A field of plain text: its length, low byte first, and its codes. */
  lemma AsciiField(s: string, width: nat, maximum: nat)
    requires IsAscii(s) && s != [] && !IsSpace(s[0] as int) && |s| <= maximum
    requires (width == 1 && maximum < 256) || (width == 2 && maximum < 0x1_0000)
    ensures TextField(Ascii(s), width, maximum) ==
            Ok((if width == 1 then [|s|] else [|s| % 256, |s| / 256]) + Codes(s))
  {
    AsciiIsItself(s);
    Widths();
    assert Ascii(s)[0] in Ascii(s);
    if width == 1 {
      OneByte(|s|);
    } else {
      TwoBytes(|s|);
    }
  }

  // ----- Registries -----

  /** The codes of the published registry. */
  lemma Registry()
    ensures KindCode(Runtime.Copy) == 1 && KindCode(Runtime.Sync) == 2 && KindCode(Runtime.Allocate) == 3
    ensures KindCode(Runtime.Upload) == 4 && KindCode(Runtime.Present) == 5
    ensures KindCode(Runtime.Compute) == 6 && KindCode(Runtime.Draw) == 7
    ensures QueueCode(UnknownQueue) == 0 && QueueCode(CpuQueue) == 1 && QueueCode(CopyQueue) == 2
    ensures QueueCode(GraphicsQueue) == 3 && QueueCode(ComputeQueue) == 4 && QueueCode(PresentQueue) == 5
    ensures PolicyOpcode(Some(Runtime.EliminateSelfCopy)) == 1
    ensures PolicyOpcode(Some(Runtime.DeduplicateIdenticalTransfer)) == 2
    ensures PolicyOpcode(Some(Runtime.CollapseAliasedResourceCopy)) == 3
    ensures PolicyOpcode(Some(Runtime.RemoveOrphanSync)) == 4 && PolicyOpcode(Some(Runtime.RemoveEmptySync)) == 5
    ensures PolicyOpcode(Some(Runtime.ReuseTransientBuffer)) == 6 && PolicyOpcode(None) == 255
    ensures CodeNumber(InvalidFrame) == 1 && CodeNumber(HandshakeRequired) == 2 && CodeNumber(ContractMismatch) == 3
    ensures CodeNumber(RequiredCapabilityUnavailable) == 4 && CodeNumber(CapabilityNotNegotiated) == 5
    ensures CodeNumber(SequenceMismatch) == 6 && CodeNumber(SessionMismatch) == 7
    ensures CodeNumber(UnsupportedOpcode) == 8 && CodeNumber(UnsupportedEventOpcode) == 9
    ensures CodeNumber(MalformedPayload) == 10 && CodeNumber(RuntimeEventRejected) == 11
    ensures CodeNumber(SessionClosed) == 12
  {
  }

  /** Every flag has its registered bit. */
  lemma RegisteredBits(batch: OperationBatch, event: OperationEvent, decision: RuntimeDecision)
    ensures Presence(batch) ==
            (if batch.names.source.Some? then 1 else 0) + (if batch.names.target.Some? then 2 else 0)
            + (if batch.names.reason.Some? then 4 else 0) + (if batch.amounts.frame.Some? then 8 else 0)
    ensures PresenceOf(event) ==
            (if event.names.source.Some? then 1 else 0) + (if event.names.target.Some? then 2 else 0)
            + (if event.names.reason.Some? then 4 else 0) + (if event.amounts.frame.Some? then 8 else 0)
    ensures DecisionFlags(decision) ==
            (if decision.accepted then 1 else 0) + (if decision.executed.Some? then 2 else 0)
            + (if decision.executed == Some(true) then 4 else 0)
    ensures MaskFor({BinaryPayloads}) == 1 && MaskFor({FixedPointUnits}) == 2 && MaskFor({Heartbeat}) == 4
    ensures MaskFor({RuntimeEvents}) == 8 && MaskFor({RuntimeDecisions}) == 16 && MaskFor({MemoryTransit}) == 32
    ensures MaskFor({SessionLifecycle}) == 64 && MaskFor({BatchedRuntimeEvents}) == 128
  {
  }

  // ----- Payloads -----

  const IDENTITY: seq<Byte> := [1, 2, 3, 4, 5, 6, 7, 8, 9, 10, 11, 12, 13, 14, 15, 16]
  const SESSION: seq<Byte> := [17, 18, 19, 20, 21, 22, 23, 24, 25, 26, 27, 28, 29, 30, 31, 32]

  lemma IdentitiesAreValid()
    ensures FrameCodec.Identity(IDENTITY) && FrameCodec.Identity(SESSION)
  {
    assert IDENTITY[0] in IDENTITY && SESSION[0] in SESSION;
  }

  function DuplicateUpload(source: string, target: string): Names {
    Names(Some(Ascii(source)), Some(Ascii(target)), Some(Ascii("duplicate upload")))
  }

  lemma NamesBytes(source: string, target: string)
    requires IsAscii(source) && source != [] && !IsSpace(source[0] as int) && |source| < 256
    requires IsAscii(target) && target != [] && !IsSpace(target[0] as int) && |target| < 256
    ensures NamesField(DuplicateUpload(source, target)) ==
            Ok([|source|, 0] + Codes(source) + ([|target|, 0] + Codes(target) + ([16, 0] + Codes("duplicate upload"))))
  {
    hide TextField;
    AsciiField(source, 2, MAX_IDENTIFIER);
    AsciiField(target, 2, MAX_IDENTIFIER);
    AsciiField("duplicate upload", 2, MAX_REASON);
  }

  lemma AmountsBytes(frame: nat)
    requires frame < 256
    ensures AmountsField(Amounts(800, 0x400_0000, Some(frame))) ==
            Ok([0x20, 3, 0, 0] + ([0, 0, 0, 4, 0, 0, 0, 0] + [frame, 0, 0, 0, 0, 0, 0, 0]))
  {
    Widths();
    FourBytes(800);
    EightBytes(0x400_0000);
    EightBytes(frame);
  }

  lemma DependencyBytes()
    ensures DependenciesField([Ascii("allocate-1")]) == Ok([1] + ([10, 0] + Codes("allocate-1")))
  {
    hide TextField;
    Widths();
    OneByte(1);
    AsciiField("allocate-1", 2, MAX_IDENTIFIER);
    var one := [Ascii("allocate-1")];
    assert one[..|one| - 1] == [];
    assert [] + ([10, 0] + Codes("allocate-1")) == [10, 0] + Codes("allocate-1");
  }

  const GOLDEN_BATCH := OperationBatch(
    IDENTITY, 2, Runtime.Upload, CopyQueue, DuplicateUpload("ram-buffer", "vram-texture"),
    Amounts(800, 0x400_0000, Some(42)), [Ascii("allocate-1")])

  lemma BatchHeadBytes()
    ensures HeadField(HeadOf(GOLDEN_BATCH)) == Ok(IDENTITY + ([2, 0] + ([4] + ([2] + [15]))))
  {
    IdentitiesAreValid();
    Widths();
    TwoBytes(2);
    OneByte(4);
    OneByte(2);
    OneByte(15);
  }

  /** The vector `operation_batch_request`. */
  lemma OperationBatchRequest()
    ensures EncodeBatch(GOLDEN_BATCH) == Ok(
        IDENTITY + ([2, 0] + ([4] + ([2] + [15])))
        + ([10, 0] + Codes("ram-buffer") + ([12, 0] + Codes("vram-texture") + ([16, 0] + Codes("duplicate upload")))
           + ([0x20, 3, 0, 0] + ([0, 0, 0, 4, 0, 0, 0, 0] + [42, 0, 0, 0, 0, 0, 0, 0])
              + ([1] + ([10, 0] + Codes("allocate-1"))))))
  {
    hide HeadField, NamesField, AmountsField, DependenciesField;
    BatchHeadBytes();
    NamesBytes("ram-buffer", "vram-texture");
    AmountsBytes(42);
    DependencyBytes();
  }

  const GOLDEN_OPERATION := OperationEvent(
    Runtime.Upload, CopyQueue, Ascii("upload-1"), DuplicateUpload("ram", "vram"),
    Amounts(800, 0x400_0000, Some(0)), [Ascii("allocate-1")])

  lemma EventHeadBytes()
    ensures EventHeadField(HeadOfEvent(GOLDEN_OPERATION)) == Ok([4] + ([2] + ([15] + ([8, 0] + Codes("upload-1")))))
  {
    hide TextField;
    Widths();
    OneByte(4);
    OneByte(2);
    OneByte(15);
    AsciiField("upload-1", 2, MAX_IDENTIFIER);
  }

  /** The vector `operation_request`. */
  lemma OperationRequest()
    ensures EncodeOperationEvent(GOLDEN_OPERATION) == Ok(
        [4] + ([2] + ([15] + ([8, 0] + Codes("upload-1"))))
        + ([3, 0] + Codes("ram") + ([4, 0] + Codes("vram") + ([16, 0] + Codes("duplicate upload")))
           + ([0x20, 3, 0, 0] + ([0, 0, 0, 4, 0, 0, 0, 0] + [0, 0, 0, 0, 0, 0, 0, 0])
              + ([1] + ([10, 0] + Codes("allocate-1"))))))
  {
    hide EventHeadField, NamesField, AmountsField, DependenciesField;
    EventHeadBytes();
    NamesBytes("ram", "vram");
    AmountsBytes(0);
    DependencyBytes();
  }

  const RAN := RuntimeDecision(true, Some(true), 0, 0)
  const SAVED := RuntimeDecision(true, Some(false), 800, 0x400_0000)
  const NOTED := RuntimeDecision(true, None, 0, 0)

  /** The payloads of `operation_decision_response` and `state_decision_response`. */
  lemma DecisionResponses()
    ensures DecisionField(SAVED) == Ok([3] + ([0x20, 3, 0, 0, 0, 0, 0, 0] + [0, 0, 0, 4, 0, 0, 0, 0]))
    ensures DecisionField(NOTED) == Ok([1] + ([0, 0, 0, 0, 0, 0, 0, 0] + [0, 0, 0, 0, 0, 0, 0, 0]))
    ensures DecisionField(RAN) == Ok([7] + ([0, 0, 0, 0, 0, 0, 0, 0] + [0, 0, 0, 0, 0, 0, 0, 0]))
  {
    Widths();
    OneByte(1);
    OneByte(3);
    OneByte(7);
    EightBytes(0);
    EightBytes(800);
    EightBytes(0x400_0000);
  }

  /** The payload of `operation_batch_decision_response`: one upload executed, its repetition removed. */
  lemma OperationBatchDecisionResponse()
    ensures EncodeVector(DecisionVector(IDENTITY, [Entry(0, RAN), Entry(2, SAVED)])) == Ok(
        IDENTITY + ([2, 0] + (
          [0] + ([7] + ([0, 0, 0, 0, 0, 0, 0, 0] + [0, 0, 0, 0, 0, 0, 0, 0]))
          + ([2] + ([3] + ([0x20, 3, 0, 0, 0, 0, 0, 0] + [0, 0, 0, 4, 0, 0, 0, 0]))))))
  {
    hide EntryField;
    IdentitiesAreValid();
    Widths();
    TwoBytes(2);
    EntryBytes();
    var one, both := [Entry(0, RAN)], [Entry(0, RAN), Entry(2, SAVED)];
    assert both[..|both| - 1] == one && one[..|one| - 1] == [];
    assert [] + EntryField(one[0]).value == EntryField(one[0]).value;
    assert EntriesField([]) == Ok([]) && EntriesField(one) == EntryField(one[0]);
    assert EntriesField(both) == Ok(EntryField(both[0]).value + EntryField(both[1]).value);
    hide EntriesField, LittleEndian, AllZero;
    VectorsAlwaysFit(DecisionVector(IDENTITY, both));
  }

  lemma EntryBytes()
    ensures EntryField(Entry(0, RAN)) == Ok([0] + ([7] + ([0, 0, 0, 0, 0, 0, 0, 0] + [0, 0, 0, 0, 0, 0, 0, 0])))
    ensures EntryField(Entry(2, SAVED)) == Ok([2] + ([3] + ([0x20, 3, 0, 0, 0, 0, 0, 0] + [0, 0, 0, 4, 0, 0, 0, 0])))
  {
    hide DecisionField;
    Widths();
    OneByte(0);
    OneByte(2);
    DecisionResponses();
  }

  // ----- Handshake, heartbeat and errors -----

  lemma Masks()
    ensures MaskFor(BASE_CAPABILITIES) == 0x7F && MaskFor(REQUIRED_CAPABILITIES) == 0x1B
    ensures MaskFor(BATCH_CAPABILITIES) == 0xFF
    ensures MaskFor(REQUIRED_CAPABILITIES + {BatchedRuntimeEvents}) == 0x9B
  {
  }

  lemma MaskBytes(capabilities: set<Capability>)
    ensures CapabilitiesField(capabilities) == Ok([MaskFor(capabilities), 0, 0, 0, 0, 0, 0, 0])
  {
    hide MaskFor;
    Widths();
    EightBytes(MaskFor(capabilities));
  }

  /** The payload of `hello_request`. */
  lemma HelloRequest()
    ensures EncodeHello(
                Hello(CONTRACT_DIGEST, BASE_CAPABILITIES, REQUIRED_CAPABILITIES,
                      Ascii("fluidruntime"), Ascii("0.14.0"))) ==
            Ok(CONTRACT_DIGEST + ([0x7F, 0, 0, 0, 0, 0, 0, 0] + ([0x1B, 0, 0, 0, 0, 0, 0, 0]
               + ([12] + Codes("fluidruntime") + ([6] + Codes("0.14.0"))))))
  {
    hide CapabilitiesField, TextField, MaskFor;
    Masks();
    MaskBytes(BASE_CAPABILITIES);
    MaskBytes(REQUIRED_CAPABILITIES);
    AsciiField("fluidruntime", 1, MAX_PEER_NAME);
    AsciiField("0.14.0", 1, MAX_PEER_VERSION);
  }

  /** The payload of `batch_hello_request`. */
  lemma BatchHelloRequest()
    ensures EncodeHello(
                Hello(BATCH_CONTRACT_DIGEST, BATCH_CAPABILITIES, REQUIRED_CAPABILITIES + {BatchedRuntimeEvents},
                      Ascii("fluidruntime"), Ascii("0.17.0"))) ==
            Ok(BATCH_CONTRACT_DIGEST + ([0xFF, 0, 0, 0, 0, 0, 0, 0] + ([0x9B, 0, 0, 0, 0, 0, 0, 0]
               + ([12] + Codes("fluidruntime") + ([6] + Codes("0.17.0"))))))
  {
    hide CapabilitiesField, TextField, MaskFor;
    Masks();
    MaskBytes(BATCH_CAPABILITIES);
    MaskBytes(REQUIRED_CAPABILITIES + {BatchedRuntimeEvents});
    AsciiField("fluidruntime", 1, MAX_PEER_NAME);
    AsciiField("0.17.0", 1, MAX_PEER_VERSION);
  }

  /** The payload of `welcome_response`. */
  lemma WelcomeResponse()
    ensures EncodeWelcome(
                Welcome(CONTRACT_DIGEST, BASE_CAPABILITIES, BASE_CAPABILITIES,
                        Ascii("fluidgateway"), Ascii("0.64.0"))) ==
            Ok(CONTRACT_DIGEST + ([0x7F, 0, 0, 0, 0, 0, 0, 0] + ([0x7F, 0, 0, 0, 0, 0, 0, 0]
               + ([0xFF, 0xFF, 0, 0] + ([12] + Codes("fluidgateway") + ([6] + Codes("0.64.0")))))))
  {
    hide CapabilitiesField, TextField, MaskFor;
    Widths();
    Masks();
    MaskBytes(BASE_CAPABILITIES);
    FourBytes(0xFFFF);
    AsciiField("fluidgateway", 1, MAX_PEER_NAME);
    AsciiField("0.64.0", 1, MAX_PEER_VERSION);
  }

  /** The payload of `ping_request` and `pong_response`. */
  lemma PingAndPong()
    ensures TextField(Ascii("nonce-v2"), 1, MAX_NONCE) == Ok([8] + Codes("nonce-v2"))
  {
    AsciiField("nonce-v2", 1, MAX_NONCE);
  }

  lemma {:induction false} ShortTextIsLeftAlone(s: string, maximum: nat)
    requires IsAscii(s) && s != [] && !IsSpace(s[0] as int) && !IsSpace(s[|s| - 1] as int) && |s| <= maximum
    ensures TruncateUtf8(Ascii(s), maximum) == Ascii(s)
  {
    AsciiIsItself(s);
    EncodableIsUnreplaced(Ascii(s));
  }

  /** The payload of `invalid_payload_response`. */
  lemma InvalidPayloadResponse()
    ensures EncodeErrorPayload(CodeNumber(MalformedPayload), Ascii("state payload malformed")) ==
            Ok([10, 0] + ([23, 0] + Codes("state payload malformed")))
  {
    hide TextField, TruncateUtf8;
    Widths();
    TwoBytes(10);
    ShortTextIsLeftAlone("state payload malformed", MAX_REASON);
    AsciiField("state payload malformed", 2, MAX_REASON);
  }

  // ----- A whole frame -----

  /** The vector `goodbye_response`, all 56 bytes. */
  lemma GoodbyeResponse()
    ensures FrameCodec.Encode(
                Respond(FrameCodec.Frame(FrameCodec.REQUEST, GOODBYE, 0, 0, FrameCodec.SESSION_FLAG, 11, IDENTITY,
                                         Some(SESSION), []),
                        GOODBYE, 0, 0, Some(SESSION), true, [])) ==
            Ok([0x46, 0x4C, 0x4E, 0x4B] + [2, 2, 30, 0, 0, 3] + [0, 0] + [11, 0, 0, 0, 0, 0, 0, 0] + IDENTITY + SESSION
               + [0, 0, 0, 0])
  {
    IdentitiesAreValid();
    hide LittleEndian, AllZero, FrameCodec.Header;
    var request := FrameCodec.Frame(FrameCodec.REQUEST, GOODBYE, 0, 0, FrameCodec.SESSION_FLAG, 11, IDENTITY,
                                    Some(SESSION), []);
    var response := Respond(request, GOODBYE, 0, 0, Some(SESSION), true, []);
    assert FrameCodec.Valid(response);
    HeaderBytes(response);
    assert FrameCodec.Header(response) + [] == FrameCodec.Header(response);
  }

  lemma HeaderBytes(frame: FrameCodec.Frame)
    requires FrameCodec.Valid(frame) && frame.kind == 2 && frame.opcode == 30 && frame.flags == 3
    requires frame.subjectOpcode == 0 && frame.decisionOpcode == 0 && frame.sequence == 11
    requires frame.messageId == IDENTITY && frame.sessionId == Some(SESSION) && frame.payload == []
    ensures FrameCodec.Header(frame) ==
            [0x46, 0x4C, 0x4E, 0x4B] + [2, 2, 30, 0, 0, 3] + [0, 0] + [11, 0, 0, 0, 0, 0, 0, 0] + IDENTITY + SESSION
            + [0, 0, 0, 0]
  {
    TwoBytes(0);
    EightBytes(11);
    FourBytes(0);
    hide LittleEndian, AllZero, FrameCodec.Violation;
  }
}
