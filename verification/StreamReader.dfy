/** Reading frames off a byte stream that may deliver its bytes in any portions. */
module StreamReader {
  import opened Wrappers
  import opened Bytes
  import opened FrameCodec

  /** The bytes a peer has still to deliver before it closes. */
  class Transport {
    var pending: seq<Byte>

    constructor (pending: seq<Byte>)
      ensures this.pending == pending
    {
      this.pending := pending;
    }

    /** Delivers some of the next bytes, as few or as many as the network likes. */
    method Read(size: nat) returns (chunk: seq<Byte>)
      modifies this
      ensures chunk + pending == old(pending)
      ensures |chunk| <= size
      ensures chunk == [] <==> size == 0 || old(pending) == []
    {
      var most := if size < |pending| then size else |pending|;
      var count :| 0 <= count <= most && (count == 0 ==> most == 0);
      chunk := pending[..count];
      pending := pending[count..];
      assert chunk + pending == old(pending);
    }
  }

  type Taken = (Result<Option<seq<Byte>>, FrameError>, seq<Byte>)

  /** What asking for exactly `size` bytes yields, and what is left. */
  function TakeExact(pending: seq<Byte>, size: nat, allowEof: bool): Taken {
    if size <= |pending| then (Ok(Some(pending[..size])), pending[size..])
    else if allowEof && pending == [] then (Ok(None), [])
    else (Err(TruncatedFrame), [])
  }

  method ReadExact(stream: Transport, size: nat, allowEof: bool) returns (r: Result<Option<seq<Byte>>, FrameError>)
    modifies stream
    ensures (r, stream.pending) == TakeExact(old(stream.pending), size, allowEof)
  {
    var collected: seq<Byte>, remaining := [], size;
    while remaining > 0
      invariant 0 <= remaining && |collected| + remaining == size
      invariant collected + stream.pending == old(stream.pending)
    {
      var chunk := stream.Read(remaining);
      if chunk == [] {
        assert collected == old(stream.pending);
        if allowEof && remaining == size {
          return Ok(None);
        }
        return Err(TruncatedFrame);
      }
      collected := collected + chunk;
      remaining := remaining - |chunk|;
    }
    assert old(stream.pending)[..size] == collected && old(stream.pending)[size..] == stream.pending;
    r := Ok(Some(collected));
  }

  type FrameRead = (Result<Option<Frame>, FrameError>, seq<Byte>)

  function ReadAfterPrefix(pending: seq<Byte>, prefix: seq<Byte>): FrameRead {
    if |prefix| < 4 || |prefix| > HEADER_SIZE || prefix[..4] != MAGIC then (Err(TruncatedFrame), pending)
    else
      var (tail, afterHeader) := TakeExact(pending, HEADER_SIZE - |prefix|, false);
      match tail
      case Err(error) => (Err(error), afterHeader)
      case Ok(bytes) =>
        var header := prefix + bytes.GetOr([]);
        if PayloadSize(header) > MAX_PAYLOAD then (Err(PayloadTooLarge), afterHeader)
        else
          var (payload, rest) := TakeExact(afterHeader, PayloadSize(header), false);
          match payload
          case Err(error) => (Err(error), rest)
          case Ok(content) =>
            match Decode(header + content.GetOr([]))
            case Err(error) => (Err(error), rest)
            case Ok(frame) => (Ok(Some(frame)), rest)
  }

  function ReadOne(pending: seq<Byte>, prefix: Option<seq<Byte>>): FrameRead {
    match prefix
    case Some(given) => ReadAfterPrefix(pending, given)
    case None =>
      var (magic, rest) := TakeExact(pending, 4, true);
      match magic
      case Err(error) => (Err(error), rest)
      case Ok(None) => (Ok(None), rest)
      case Ok(Some(given)) => ReadAfterPrefix(rest, given)
  }

  method ReadFrame(stream: Transport, prefix: Option<seq<Byte>>) returns (r: Result<Option<Frame>, FrameError>)
    modifies stream
    ensures (r, stream.pending) == ReadOne(old(stream.pending), prefix)
  {
    hide Decode, PayloadSize;
    var given: seq<Byte>;
    match prefix {
      case Some(bytes) => given := bytes;
      case None =>
        var magic := ReadExact(stream, 4, true);
        if magic.Err? {
          return Err(magic.error);
        }
        if magic.value.None? {
          return Ok(None);
        }
        given := magic.value.value;
    }
    if |given| < 4 || |given| > HEADER_SIZE || given[..4] != MAGIC {
      return Err(TruncatedFrame);
    }
    var tail := ReadExact(stream, HEADER_SIZE - |given|, false);
    if tail.Err? {
      return Err(tail.error);
    }
    var header := given + tail.value.GetOr([]);
    if PayloadSize(header) > MAX_PAYLOAD {
      return Err(PayloadTooLarge);
    }
    var payload := ReadExact(stream, PayloadSize(header), false);
    if payload.Err? {
      return Err(payload.error);
    }
    var frame := Decode(header + payload.value.GetOr([]));
    r := if frame.Ok? then Ok(Some(frame.value)) else Err(frame.error);
  }

  // ----- Framing -----

  ghost function Wire(frame: Frame): seq<Byte>
    requires Valid(frame)
  {
    Encode(frame).value
  }

  /** However much of the header was read before, exactly one frame is consumed. */
  lemma ReadsExactlyOneFrame(frame: Frame, read: nat, rest: seq<Byte>)
    requires Valid(frame) && 4 <= read <= HEADER_SIZE
    ensures ReadAfterPrefix(Wire(frame)[read..] + rest, Wire(frame)[..read]) == (Ok(Some(frame)), rest)
    ensures ReadOne(Wire(frame) + rest, None) == (Ok(Some(frame)), rest)
  {
    hide Decode, PayloadSize, Header;
    ReadsAfterPrefix(frame, read, rest);
    var wire := Wire(frame);
    HeaderLayout(frame, frame.payload);
    ReadsAfterPrefix(frame, 4, rest);
    assert (wire + rest)[..4] == wire[..4] && (wire + rest)[4..] == wire[4..] + rest;
  }

  lemma ReadsAfterPrefix(frame: Frame, read: nat, rest: seq<Byte>)
    requires Valid(frame) && 4 <= read <= HEADER_SIZE
    ensures ReadAfterPrefix(Wire(frame)[read..] + rest, Wire(frame)[..read]) == (Ok(Some(frame)), rest)
  {
    hide Decode, PayloadSize, Header;
    var header := Header(frame);
    HeaderLayout(frame, frame.payload);
    SplitAtPrefix(header, frame.payload, rest, read);
    PayloadSizeOfHeader(frame, []);
    assert header + [] == header;
    DecodeOfEncode(frame);
  }

  lemma SplitAtPrefix(header: seq<Byte>, payload: seq<Byte>, rest: seq<Byte>, read: nat)
    requires |header| == HEADER_SIZE && 4 <= read <= HEADER_SIZE
    ensures var wire := header + payload;
            var prefix, pending := wire[..read], wire[read..] + rest;
            && prefix[..4] == wire[..4]
            && pending[..HEADER_SIZE - read] == header[read..]
            && pending[HEADER_SIZE - read..] == payload + rest
            && prefix + header[read..] == header
            && (payload + rest)[..|payload|] == payload && (payload + rest)[|payload|..] == rest
  {
  }

  /** Whatever a successful read consumed was the encoding of the frame it returned. */
  lemma ReadFrameConsumesItsEncoding(pending: seq<Byte>)
    requires ReadOne(pending, None).0.Ok? && ReadOne(pending, None).0.value.Some?
    ensures var (frame, rest) := ReadOne(pending, None);
            Valid(frame.value.value) && pending == Wire(frame.value.value) + rest
  {
    hide Decode, PayloadSize;
    var (frame, rest) := ReadOne(pending, None);
    var header := pending[..4] + pending[4..][..52];
    assert header == pending[..56];
    var size := PayloadSize(header);
    var data := header + pending[4..][52..][..size];
    assert Decode(data) == Ok(frame.value.value);
    EncodeOfDecode(data);
    assert rest == pending[4..][52..][size..];
    assert pending == data + rest;
  }

  ghost function Concat(frames: seq<Frame>): seq<Byte>
    requires forall frame | frame in frames :: Valid(frame)
  {
    if frames == [] then [] else Wire(frames[0]) + Concat(frames[1..])
  }

  /** All the frames of a stream, up to its end or the first error. */
  ghost function ReadAll(pending: seq<Byte>): Result<seq<Frame>, FrameError>
    decreases |pending|
  {
    var (frame, rest) := ReadOne(pending, None);
    match frame
    case Err(error) => Err(error)
    case Ok(None) => Ok([])
    case Ok(Some(first)) =>
      ReadFrameConsumesItsEncoding(pending);
      match ReadAll(rest)
      case Err(error) => Err(error)
      case Ok(frames) => Ok([first] + frames)
  }

  lemma {:induction false} ConcatenationReadsBack(frames: seq<Frame>)
    requires forall frame | frame in frames :: Valid(frame)
    ensures ReadAll(Concat(frames)) == Ok(frames)
  {
    hide ReadAfterPrefix, Encode;
    if frames != [] {
      ReadsExactlyOneFrame(frames[0], 4, Concat(frames[1..]));
      ConcatenationReadsBack(frames[1..]);
      assert [frames[0]] + frames[1..] == frames;
    }
  }

  /** A stream is read to its end exactly when it is a concatenation of valid frames. */
  lemma {:induction false} OnlyConcatenationsAreRead(pending: seq<Byte>, frames: seq<Frame>)
    ensures ReadAll(pending) == Ok(frames) <==>
            (forall frame | frame in frames :: Valid(frame)) && pending == Concat(frames)
    decreases |pending|
  {
    hide Decode, PayloadSize, Header;
    if (forall frame | frame in frames :: Valid(frame)) && pending == Concat(frames) {
      ConcatenationReadsBack(frames);
    }
    if ReadAll(pending) == Ok(frames) {
      var (frame, rest) := ReadOne(pending, None);
      if frame.value.Some? {
        ReadFrameConsumesItsEncoding(pending);
        assert frames == [frame.value.value] + ReadAll(rest).value;
        assert frames[1..] == ReadAll(rest).value;
        OnlyConcatenationsAreRead(rest, frames[1..]);
        assert forall f | f in frames :: f == frames[0] || f in frames[1..];
      }
    }
  }

  /** Reading on after one frame fails exactly when reading what follows it does. */
  lemma FirstFrameIsSkipped(frame: Frame, rest: seq<Byte>)
    requires Valid(frame)
    ensures ReadAll(Wire(frame) + rest).Err? <==> ReadAll(rest).Err?
  {
    hide ReadAfterPrefix, Header;
    ReadsExactlyOneFrame(frame, 4, rest);
  }

  /** A stream that ends inside a frame is always an error. */
  lemma {:induction false} CutStreamIsAnError(frames: seq<Frame>, last: Frame, cut: nat)
    requires (forall frame | frame in frames :: Valid(frame)) && Valid(last) && 0 < cut < |Wire(last)|
    ensures ReadAll(Concat(frames) + Wire(last)[..cut]).Err?
    decreases |frames|
  {
    hide ReadOne, Wire, Valid;
    var tail := Wire(last)[..cut];
    if frames == [] {
      assert Concat(frames) + tail == tail;
      CutFrameIsAnError(last, cut);
    } else {
      CutStreamIsAnError(frames[1..], last, cut);
      assert Concat(frames) + tail == Wire(frames[0]) + (Concat(frames[1..]) + tail);
      FirstFrameIsSkipped(frames[0], Concat(frames[1..]) + tail);
    }
  }

  lemma CutFrameIsAnError(frame: Frame, cut: nat)
    requires Valid(frame) && 0 < cut < |Wire(frame)|
    ensures ReadOne(Wire(frame)[..cut], None) == (Err(TruncatedFrame), [])
  {
    hide Decode, PayloadSize, Header;
    var wire := Wire(frame);
    var pending := wire[..cut];
    HeaderLayout(frame, frame.payload);
    if cut >= 4 {
      assert pending[..4] == wire[..4];
      if cut >= HEADER_SIZE {
        assert pending[4..][..52] == Header(frame)[4..];
        assert pending[..4] + Header(frame)[4..] == Header(frame) + [];
        PayloadSizeOfHeader(frame, []);
      }
    }
  }
}
