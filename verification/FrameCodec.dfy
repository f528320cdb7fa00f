/** The 56-byte little-endian frame of FluidLink v2. */
module FrameCodec {
  import opened Wrappers
  import opened Bytes

  const MAGIC: seq<Byte> := [0x46, 0x4C, 0x4E, 0x4B]
  const WIRE_VERSION: Byte := 2
  const HEADER_SIZE := 56
  const MAX_PAYLOAD := 65535
  const REQUEST := 1
  const RESPONSE := 2
  const OK_FLAG := 1
  const SESSION_FLAG := 2

  datatype Frame = Frame(
    kind: int,
    opcode: int,
    subjectOpcode: int,
    decisionOpcode: int,
    flags: int,
    sequence: int,
    messageId: seq<Byte>,
    sessionId: Option<seq<Byte>>,
    payload: seq<Byte>)
  {
    predicate Ok() {
      flags % 2 == 1
    }

    predicate HasSession() {
      flags / 2 % 2 == 1
    }
  }

  datatype FrameError =
    | TruncatedFrame
    | InvalidMagic
    | UnsupportedWireVersion
    | InvalidReservedBits
    | PayloadTooLarge
    | FrameSizeMismatch
    | InvalidKind
    | InvalidMessageId
    | InvalidSequence
    | InvalidOpcode
    | InvalidSubjectOpcode
    | InvalidDecisionOpcode
    | InvalidFlags
    | InvalidSessionFlag
    | InvalidSessionId

  predicate Identity(bytes: seq<Byte>) {
    |bytes| == 16 && !AllZero(bytes)
  }

  predicate IsByte(value: int) {
    0 <= value <= 255
  }

  /** The first rule the frame breaks, in the order the rules are checked. */
  function Violation(frame: Frame): Option<FrameError> {
    if frame.kind != REQUEST && frame.kind != RESPONSE then Some(InvalidKind)
    else if |frame.payload| > MAX_PAYLOAD then Some(PayloadTooLarge)
    else if !Identity(frame.messageId) then Some(InvalidMessageId)
    else if !(1 <= frame.sequence <= 0xFFFF_FFFF_FFFF_FFFF) then Some(InvalidSequence)
    else if !IsByte(frame.opcode) then Some(InvalidOpcode)
    else if !IsByte(frame.subjectOpcode) then Some(InvalidSubjectOpcode)
    else if !IsByte(frame.decisionOpcode) then Some(InvalidDecisionOpcode)
    else if !IsByte(frame.flags) || frame.flags >= 4 then Some(InvalidFlags)
    else if frame.HasSession() != frame.sessionId.Some? then Some(InvalidSessionFlag)
    else if frame.sessionId.Some? && !Identity(frame.sessionId.value) then Some(InvalidSessionId)
    else if frame.kind == REQUEST && frame.Ok() then Some(InvalidFlags)
    else None
  }

  predicate Valid(frame: Frame) {
    Violation(frame).None?
  }

  function Header(frame: Frame): (bytes: seq<Byte>)
    requires Valid(frame)
    ensures |bytes| == HEADER_SIZE
  {
    MAGIC
    + [WIRE_VERSION, frame.kind, frame.opcode, frame.subjectOpcode, frame.decisionOpcode, frame.flags]
    + LittleEndian(0, 2)
    + LittleEndian(frame.sequence, 8)
    + frame.messageId
    + frame.sessionId.GetOr(Zeros(16))
    + LittleEndian(|frame.payload|, 4)
  }

  function Encode(frame: Frame): Result<seq<Byte>, FrameError> {
    match Violation(frame)
    case Some(error) => Err(error)
    case None => Ok(Header(frame) + frame.payload)
  }

  function PayloadSize(header: seq<Byte>): nat
    requires |header| >= HEADER_SIZE
  {
    FromLittleEndian(header[52..56])
  }

  /** The frame the header's fields describe, before it is validated. */
  function Fields(data: seq<Byte>): Frame
    requires |data| >= HEADER_SIZE
  {
    var flags: int := data[9];
    Frame(
      data[5], data[6], data[7], data[8], flags,
      FromLittleEndian(data[12..20]),
      data[20..36],
      if flags / 2 % 2 == 1 then Some(data[36..52]) else None,
      data[56..])
  }

  function Decode(data: seq<Byte>): Result<Frame, FrameError> {
    if |data| < HEADER_SIZE then Err(TruncatedFrame)
    else if data[..4] != MAGIC then Err(InvalidMagic)
    else if data[4] != WIRE_VERSION then Err(UnsupportedWireVersion)
    else if FromLittleEndian(data[10..12]) != 0 then Err(InvalidReservedBits)
    else if PayloadSize(data) > MAX_PAYLOAD then Err(PayloadTooLarge)
    else if |data| != HEADER_SIZE + PayloadSize(data) then Err(FrameSizeMismatch)
    else if data[5] != REQUEST && data[5] != RESPONSE then Err(InvalidKind)
    else
      var frame := Fields(data);
      match Violation(frame)
      case Some(error) => Err(error)
      case None =>
        if frame.sessionId.None? && !AllZero(data[36..52]) then Err(InvalidSessionFlag) else Ok(frame)
  }

  /** Where each field sits in an encoded frame. */
  lemma HeaderLayout(frame: Frame, rest: seq<Byte>)
    requires Valid(frame)
    ensures var data := Header(frame) + rest;
            && data[..4] == MAGIC && data[4] == WIRE_VERSION
            && data[5] == frame.kind && data[6] == frame.opcode && data[7] == frame.subjectOpcode
            && data[8] == frame.decisionOpcode && data[9] == frame.flags
            && data[10..12] == LittleEndian(0, 2)
            && data[12..20] == LittleEndian(frame.sequence, 8)
            && data[20..36] == frame.messageId
            && data[36..52] == frame.sessionId.GetOr(Zeros(16))
            && data[52..56] == LittleEndian(|frame.payload|, 4)
            && data[56..] == rest
  {
    hide LittleEndian;
  }

  lemma PayloadSizeOfHeader(frame: Frame, rest: seq<Byte>)
    requires Valid(frame)
    ensures PayloadSize(Header(frame) + rest) == |frame.payload|
  {
    Widths();
    HeaderLayout(frame, rest);
    IntegerRoundTrip(|frame.payload|, 4);
  }

  /** Every valid frame survives the wire. */
  lemma DecodeOfEncode(frame: Frame)
    requires Valid(frame)
    ensures Decode(Encode(frame).value) == Ok(frame)
  {
    hide LittleEndian;
    var data := Encode(frame).value;
    Widths();
    HeaderLayout(frame, frame.payload);
    PayloadSizeOfHeader(frame, frame.payload);
    IntegerRoundTrip(0, 2);
    IntegerRoundTrip(frame.sequence, 8);
    assert Fields(data) == frame;
  }

  lemma {:induction false} LittleEndianOfBytes(bytes: seq<Byte>, value: nat, width: nat)
    requires |bytes| == width && FromLittleEndian(bytes) == value
    ensures LittleEndian(value, width) == bytes && value < Pow256(width)
  {
    BytesRoundTrip(bytes);
  }

  /** Every accepted byte string is the encoding of the frame it decodes to. */
  lemma EncodeOfDecode(data: seq<Byte>)
    requires Decode(data).Ok?
    ensures Valid(Decode(data).value)
    ensures Encode(Decode(data).value) == Ok(data)
  {
    hide LittleEndian, FromLittleEndian;
    var frame := Decode(data).value;
    LittleEndianOfBytes(data[10..12], 0, 2);
    LittleEndianOfBytes(data[12..20], frame.sequence, 8);
    LittleEndianOfBytes(data[52..56], |frame.payload|, 4);
    AllZeroIsZeros(data[36..52]);
    assert data[36..52] == frame.sessionId.GetOr(Zeros(16));
    assert data == data[..4] + [data[4], data[5], data[6], data[7], data[8], data[9]] + data[10..12] + data[12..20]
                 + data[20..36] + data[36..52] + data[52..56] + data[56..];
  }

  /** Encoding is refused exactly for the frames that break a rule. */
  lemma DecodedFramesAreExactlyTheValidOnes(frame: Frame)
    ensures Valid(frame) <==> exists data :: Decode(data) == Ok(frame)
  {
    if Valid(frame) {
      DecodeOfEncode(frame);
      assert Decode(Encode(frame).value) == Ok(frame);
    }
    if data :| Decode(data) == Ok(frame) {
      EncodeOfDecode(data);
    }
  }
}
