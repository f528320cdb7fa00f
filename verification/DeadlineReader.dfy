/**
  The deadline reader of the event server: a buffered byte source in front of a
  socket, with an idle deadline that the first byte of a frame turns into the
  frame's own deadline.

  The clock only moves while the reader waits for the socket or between its
  calls, and the socket honours the timeout it is given.
 */
module DeadlineReader {
  import opened Wrappers
  import opened Bytes
  import FrameCodec

  const SHUTDOWN_POLL := 0.25
  const CHUNK := 4096
  const NEWLINE: Byte := 0x0A

  /** What the peer and the machine do the next time the reader waits. */
  datatype Arrival =
    | Quiet(delay: real)                          // nothing within the timeout
    | Data(delay: real, bytes: seq<Byte>)         // some bytes, or none: the peer closed
    | Failure(delay: real)

  datatype ReadError = BadSize | ShuttingDown | NoDeadline | Expired | ConnectionFailed

  function Clamp(delay: real, timeout: real): real {
    if delay < 0.0 then 0.0 else if delay > timeout then timeout else delay
  }

  function Stamps(count: nat, time: real): (times: seq<real>)
    ensures |times| == count && forall i | 0 <= i < count :: times[i] == time
  {
    seq(count, _ => time)
  }

  class Network {
    const arrivals: nat -> Arrival
    const shuttingDown: nat -> bool
    var waits: nat
    var clock: real
    /** Every byte accepted so far, and when. */
    ghost var received: seq<Byte>
    ghost var times: seq<real>
    /** How often the peer was found to have closed its side. */
    ghost var closings: nat

    ghost predicate Valid()
      reads this
    {
      |times| == |received|
    }

    constructor (arrivals: nat -> Arrival, shuttingDown: nat -> bool, clock: real)
      ensures Valid() && received == [] && this.clock == clock && closings == 0
    {
      this.arrivals, this.shuttingDown, this.clock := arrivals, shuttingDown, clock;
      waits, received, times, closings := 0, [], [], 0;
    }

    /** Waits for at most `timeout`; no result means the wait timed out. */
    method Receive(size: nat, timeout: real) returns (r: Result<Option<seq<Byte>>, ReadError>)
      requires Valid() && timeout > 0.0 && size > 0
      modifies this
      ensures Valid() && old(clock) <= clock
      ensures r.Ok? && r.value.None? ==> clock >= old(clock) + timeout
      ensures r.Ok? && r.value.Some? ==> clock <= old(clock) + timeout && |r.value.value| <= size
      ensures var chunk := if r.Ok? then r.value.GetOr([]) else [];
              received == old(received) + chunk && times == old(times) + Stamps(|chunk|, clock)
      ensures closings == old(closings) + if r == Ok(Some([])) then 1 else 0
      ensures waits == old(waits) + 1 && (r.Err? ==> r == Err(ConnectionFailed) && arrivals(old(waits)).Failure?)
      ensures r.Ok? && r.value.None? ==> arrivals(old(waits)).Quiet?
      ensures r.Ok? && r.value.Some? ==> arrivals(old(waits)).Data? && r.value.value <= arrivals(old(waits)).bytes
    {
      var arrival := arrivals(waits);
      waits := waits + 1;
      match arrival {
        case Quiet(delay) =>
          clock := clock + if delay < timeout then timeout else delay;
          r := Ok(None);
        case Failure(delay) =>
          clock := clock + Clamp(delay, timeout);
          r := Err(ConnectionFailed);
        case Data(delay, bytes) =>
          clock := clock + Clamp(delay, timeout);
          var chunk := bytes[..if |bytes| < size then |bytes| else size];
          received := received + chunk;
          times := times + Stamps(|chunk|, clock);
          closings := closings + if chunk == [] then 1 else 0;
          r := Ok(Some(chunk));
      }
    }
  }

  /** How many more polls fit before a deadline `remaining` seconds away. */
  function Polls(remaining: real): nat {
    if remaining <= 0.0 then 0 else (remaining * 4.0).Floor + 1
  }

  lemma PollsDecrease(remaining: real, elapsed: real)
    requires remaining > 0.0
    requires elapsed >= if remaining < SHUTDOWN_POLL then remaining else SHUTDOWN_POLL
    ensures Polls(remaining - elapsed) < Polls(remaining)
  {
  }

  /** From index `from` on, every byte was accepted by the limit. */
  ghost predicate AllBy(times: seq<real>, from: nat, limit: Option<real>) {
    |times| <= from || (limit.Some? && forall i | from <= i < |times| :: times[i] <= limit.value)
  }

  lemma {:induction false} AllByComposes(earlier: seq<real>, times: seq<real>, from: nat, early: Option<real>,
      late: Option<real>)
    requires from <= |earlier| <= |times| && times[..|earlier|] == earlier
    requires AllBy(earlier, from, early) && AllBy(times, |earlier|, late)
    requires late.Some? ==> early.Some? && late.value <= early.value
    ensures AllBy(times, from, early)
  {
    if from < |times| {
      assert early.Some?;
      forall i | from <= i < |times|
        ensures times[i] <= early.value
      {
        if i < |earlier| {
          assert times[..|earlier|][i] == earlier[i];
        }
      }
    }
  }

  /** What has been accepted, when, and the deadlines for what may still come. */
  datatype Snapshot = Snapshot(
    received: seq<Byte>, times: seq<real>, clock: real,
    deadline: Option<real>, idle: Option<real>, frame: Option<real>)

  /** The last moment at which a byte can still be accepted, unless a deadline is started anew. */
  ghost function Limit(s: Snapshot): Option<real> {
    if s.deadline.Some? then s.deadline
    else if s.idle.Some? && s.frame.Some? then Some(s.idle.value + s.frame.value)
    else None
  }

  /**
    What every read keeps: earlier bytes stay, and new ones are in time.  Under a
    deadline that is all of them; otherwise the first comes by the idle deadline and
    fixes the deadline of the others, one frame time later.
   */
  ghost predicate InTime(before: Snapshot, after: Snapshot) {
    && before.received <= after.received && before.times <= after.times
    && before.clock <= after.clock
    && if before.deadline.Some? then
         after.deadline == before.deadline && AllBy(after.times, |before.times|, before.deadline)
       else if |after.times| == |before.times| then
         after.deadline.None? && after.idle == before.idle && after.frame == before.frame
       else FirstInTime(before, after)
  }

  ghost predicate FirstInTime(before: Snapshot, after: Snapshot)
    requires |before.times| < |after.times|
  {
    var first := after.times[|before.times|];
    && before.idle.Some? && before.frame.Some?
    && before.clock <= first <= before.idle.value
    && after.deadline == Some(first + before.frame.value)
    && AllBy(after.times, |before.times|, after.deadline)
  }

  lemma StandingStill(a: Snapshot)
    ensures InTime(a, a)
  {
  }

  /** So two reads in a row promise of all their bytes what one read promises of its own. */
  lemma InTimeComposes(a: Snapshot, b: Snapshot, c: Snapshot)
    requires InTime(a, b) && InTime(b, c)
    ensures InTime(a, c)
  {
    if b.deadline.Some? {
      AllByComposes(b.times, c.times, |a.times|, b.deadline, b.deadline);
    }
    assert |b.times| > |a.times| ==> c.times[|a.times|] == b.times[|a.times|];
  }

  /** No byte is accepted after the limit, and the limit never moves out. */
  lemma InTimeIsBounded(a: Snapshot, b: Snapshot)
    requires InTime(a, b) && (a.deadline.Some? || a.frame.None? || a.frame.value >= 0.0)
    ensures AllBy(b.times, |a.times|, Limit(a))
    ensures a.deadline.Some? || |a.times| < |b.times| || Limit(a) == Limit(b)
    ensures Limit(a).Some? ==> Limit(b).Some? && Limit(b).value <= Limit(a).value
  {
  }

  function FindNewline(bytes: seq<Byte>): (i: nat)
    ensures i <= |bytes| && (i < |bytes| ==> bytes[i] == NEWLINE)
    ensures forall j | 0 <= j < i :: bytes[j] != NEWLINE
  {
    if bytes == [] || bytes[0] == NEWLINE then 0 else 1 + FindNewline(bytes[1..])
  }

  /** A line that ends before its limit without a newline. */
  predicate Unterminated(line: seq<Byte>, limit: int) {
    |line| < limit && (line == [] || line[|line| - 1] != NEWLINE)
  }

  class DeadlineSocketReader {
    const network: Network
    var buffer: seq<Byte>
    var deadline: Option<real>
    var idleDeadline: Option<real>
    var frameTimeout: Option<real>
    /** Every byte handed to a caller so far. */
    ghost var returned: seq<Byte>

    ghost predicate Shape()
      reads `deadline, `idleDeadline, `frameTimeout, network
    {
      && network.Valid()
      && (idleDeadline.Some? <==> frameTimeout.Some?)
      && (deadline.Some? ==> idleDeadline.None?)
      && (frameTimeout.Some? ==> frameTimeout.value >= 0.0)
    }

    /** Nothing received is lost, duplicated or reordered. */
    ghost predicate Valid()
      reads this, network
    {
      Shape() && returned + buffer == network.received
    }

    ghost function Snap(): Snapshot
      reads `deadline, `idleDeadline, `frameTimeout, network
    {
      Snapshot(network.received, network.times, network.clock, deadline, idleDeadline, frameTimeout)
    }

    constructor (network: Network)
      requires network.Valid() && network.received == []
      ensures Valid() && this.network == network && Limit(Snap()).None? && buffer == []
    {
      this.network := network;
      buffer, deadline, idleDeadline, frameTimeout, returned := [], None, None, None, [];
    }

    method StartAbsoluteDeadline(timeout: real)
      requires Valid()
      modifies this`deadline, this`idleDeadline, this`frameTimeout
      ensures Valid() && deadline == Some(network.clock + timeout)
    {
      deadline, idleDeadline, frameTimeout := Some(network.clock + timeout), None, None;
    }

    method StartFrameDeadline(idleTimeout: real, timeout: real)
      requires Valid() && idleTimeout >= 0.0 && timeout >= 0.0
      modifies this`deadline, this`idleDeadline, this`frameTimeout
      ensures Valid()
      ensures buffer == [] ==>
                deadline.None? && idleDeadline == Some(network.clock + idleTimeout) && frameTimeout == Some(timeout)
      ensures buffer != [] ==> deadline == Some(network.clock + timeout)
    {
      deadline, idleDeadline, frameTimeout := None, Some(network.clock + idleTimeout), Some(timeout);
      if buffer != [] {
        ActivateFrameDeadline();
      }
    }

    method ActivateFrameDeadline()
      requires Shape() && deadline.None?
      modifies this`deadline, this`idleDeadline, this`frameTimeout
      ensures Shape()
      ensures old(frameTimeout).None? ==> deadline.None? && idleDeadline == old(idleDeadline) && frameTimeout.None?
      ensures old(frameTimeout).Some? ==>
                deadline == Some(network.clock + old(frameTimeout).value) && idleDeadline.None? && frameTimeout.None?
    {
      if frameTimeout.None? {
        return;
      }
      deadline, idleDeadline, frameTimeout := Some(network.clock + frameTimeout.value), None, None;
    }

    /** A read fails only for a reason: shutdown, no deadline, a passed deadline, or a failed connection. */
    ghost predicate Justified(due: Option<real>, error: ReadError)
      reads network
    {
      match error
      case ShuttingDown => network.shuttingDown(network.waits)
      case NoDeadline => due.None?
      case Expired => due.Some? && due.value <= network.clock
      case ConnectionFailed => network.waits > 0 && network.arrivals(network.waits - 1).Failure?
      case BadSize => false
    }

    /** Waits for the next chunk.  Polling always ends: either something arrives or the deadline passes. */
    method Receive(size: nat) returns (r: Result<seq<Byte>, ReadError>)
      requires size > 0 && Shape()
      modifies this`deadline, this`idleDeadline, this`frameTimeout, network
      ensures Shape() && InTime(old(Snap()), Snap())
      ensures r.Ok? ==> |r.value| <= size
      ensures network.received == old(network.received) + if r.Ok? then r.value else []
      ensures r.Ok? && r.value != [] && old(deadline).None? ==>
                && old(idleDeadline).Some? && network.clock <= old(idleDeadline).value
                && old(frameTimeout).Some? && deadline == Some(network.clock + old(frameTimeout).value)
      ensures network.closings == old(network.closings) + if r == Ok([]) then 1 else 0
      ensures r.Err? ==> Justified(if old(deadline).Some? then old(deadline) else old(idleDeadline), r.error)
    {
      var due := if deadline.Some? then deadline else idleDeadline;
      while true
        invariant network.Valid() && network.received == old(network.received) && network.times == old(network.times)
        invariant deadline == old(deadline) && idleDeadline == old(idleDeadline) && frameTimeout == old(frameTimeout)
        invariant old(network.clock) <= network.clock && network.closings == old(network.closings)
        decreases if due.None? then 0 else Polls(due.value - network.clock)
      {
        if network.shuttingDown(network.waits) {
          return Err(ShuttingDown);
        }
        if due.None? {
          return Err(NoDeadline);
        }
        var remaining := due.value - network.clock;
        if remaining <= 0.0 {
          return Err(Expired);
        }
        ghost var before := network.clock;
        var chunk := network.Receive(size, if remaining < SHUTDOWN_POLL then remaining else SHUTDOWN_POLL);
        if chunk.Err? {
          return Err(chunk.error);
        }
        if chunk.value.Some? {
          if chunk.value.value != [] && deadline.None? {
            ActivateFrameDeadline();
          }
          return Ok(chunk.value.value);
        }
        PollsDecrease(remaining, network.clock - before);
      }
    }

    method TakeFromBuffer(count: nat) returns (taken: seq<Byte>)
      requires Valid() && count <= |buffer|
      modifies this`buffer, this`returned
      ensures Valid() && taken == old(buffer)[..count] && buffer == old(buffer)[count..]
      ensures returned == old(returned) + taken
    {
      taken := buffer[..count];
      assert returned + buffer == (returned + taken) + buffer[count..];
      buffer := buffer[count..];
      returned := returned + taken;
    }

    method Read(size: int) returns (r: Result<seq<Byte>, ReadError>)
      requires Valid()
      modifies this, network
      ensures Valid() && InTime(old(Snap()), Snap())
      ensures r.Err? ==> returned == old(returned) && buffer == old(buffer)
      ensures r.Err? && size < 0 ==> r.error == BadSize
      ensures r.Err? && size >= 0 ==>
                && old(buffer) == [] && size > 0
                && Justified(if old(deadline).Some? then old(deadline) else old(idleDeadline), r.error)
      ensures r.Ok? ==> size >= 0 && |r.value| <= size && returned == old(returned) + r.value
      ensures r.Ok? && old(buffer) != [] ==>
                && r.value == old(buffer)[..if size < |old(buffer)| then size else |old(buffer)|]
                && network.received == old(network.received)
      ensures network.closings == old(network.closings) + if r == Ok([]) && size > 0 then 1 else 0
    {
      if size < 0 {
        return Err(BadSize);
      }
      if size == 0 {
        return Ok([]);
      }
      if buffer != [] {
        var count := if size < |buffer| then size else |buffer|;
        var taken := TakeFromBuffer(count);
        return Ok(taken);
      }
      r := Receive(size);
      if r.Ok? {
        returned := returned + r.value;
      }
    }

    /** One more chunk into the buffer; false if the peer closed. */
    method Fill(limit: nat) returns (r: Result<bool, ReadError>)
      requires Valid() && |buffer| < limit
      modifies this, network
      ensures Valid() && InTime(old(Snap()), Snap())
      ensures returned == old(returned) && old(buffer) <= buffer
      ensures r == Ok(true) ==> |old(buffer)| < |buffer| <= limit
      ensures r != Ok(true) ==> buffer == old(buffer)
      ensures network.closings == old(network.closings) + if r == Ok(false) then 1 else 0
    {
      var chunk := Receive(if CHUNK < limit - |buffer| then CHUNK else limit - |buffer|);
      if chunk.Err? {
        return Err(chunk.error);
      }
      assert returned + (buffer + chunk.value) == network.received;
      buffer := buffer + chunk.value;
      r := Ok(chunk.value != []);
    }

    /**
      One line within the limit: everything up to and including the first newline,
      or as many bytes as the limit allows, or what was left when the peer closed.
     */
    method ReadLine(limit: int) returns (r: Result<seq<Byte>, ReadError>)
      requires Valid()
      modifies this, network
      ensures Valid() && InTime(old(Snap()), Snap())
      ensures r.Err? ==> returned == old(returned) && old(buffer) <= buffer
      ensures r.Ok? ==> limit > 0 && |r.value| <= limit && returned == old(returned) + r.value
      ensures r.Ok? ==> forall i | 0 <= i < |r.value| - 1 :: r.value[i] != NEWLINE
      ensures r.Ok? && Unterminated(r.value, limit) ==> buffer == []
      ensures network.closings == old(network.closings) + if r.Ok? && Unterminated(r.value, limit) then 1 else 0
    {
      if limit <= 0 {
        return Err(BadSize);
      }
      hide InTime;
      var open := true;
      StandingStill(Snap());
      while open && FindNewline(buffer) == |buffer| && |buffer| < limit
        invariant Valid() && InTime(old(Snap()), Snap())
        invariant returned == old(returned) && old(buffer) <= buffer
        invariant !open ==> FindNewline(buffer) == |buffer| && |buffer| < limit
        invariant network.closings == old(network.closings) + if open then 0 else 1
        decreases open, limit - |buffer|
      {
        ghost var before := Snap();
        var filled := Fill(limit);
        InTimeComposes(old(Snap()), before, Snap());
        if filled.Err? {
          return Err(filled.error);
        }
        open := filled.value;
      }
      var newline := FindNewline(buffer);
      var size := if newline < |buffer| then newline + 1 else |buffer|;
      var line := TakeFromBuffer(if size < limit then size else limit);
      r := Ok(line);
    }
  }

  /**
    Waiting for the next frame and reading `size` bytes of it, however they trickle
    in: with nothing buffered the first byte comes within the idle time of the start
    and every later one within the frame time of the first; with bytes buffered the
    frame time runs from the start.
   */
  method ReadNextFrame(reader: DeadlineSocketReader, idleTimeout: real, timeout: real, size: nat)
    returns (r: Result<Option<seq<Byte>>, ReadError>)
    requires reader.Valid() && idleTimeout >= 0.0 && timeout >= 0.0
    modifies reader, reader.network
    ensures reader.Valid() && old(reader.network.times) <= reader.network.times
    ensures var n, times := old(|reader.network.times|), reader.network.times;
            old(reader.buffer) == [] && |times| > n ==>
              && times[n] <= old(reader.network.clock) + idleTimeout
              && AllBy(times, n, Some(times[n] + timeout))
    ensures old(reader.buffer) != [] ==>
              AllBy(reader.network.times, old(|reader.network.times|), Some(old(reader.network.clock) + timeout))
    ensures r.Ok? && r.value.Some? ==>
              |r.value.value| == size && reader.returned == old(reader.returned) + r.value.value
    ensures reader.network.closings == old(reader.network.closings) + if r == Ok(None) then 1 else 0
  {
    reader.StartFrameDeadline(idleTimeout, timeout);
    ghost var start := reader.Snap();
    StandingStill(start);
    var collected: seq<Byte>, remaining := [], size;
    while remaining > 0
      invariant reader.Valid() && 0 <= remaining && |collected| + remaining == size
      invariant reader.returned == old(reader.returned) + collected
      invariant InTime(start, reader.Snap())
      invariant reader.network.closings == old(reader.network.closings)
    {
      ghost var before := reader.Snap();
      var chunk := reader.Read(remaining);
      InTimeComposes(start, before, reader.Snap());
      if chunk.Err? {
        return Err(chunk.error);
      }
      if chunk.value == [] {
        return Ok(None);
      }
      collected := collected + chunk.value;
      remaining := remaining - |chunk.value|;
    }
    r := Ok(Some(collected));
  }

  // ----- The start of a connection -----

  /** What the first bytes of a connection ask for. */
  datatype Opening =
    | Silent                          // closed before saying anything
    | Legacy(prefix: seq<Byte>)       // not the protocol: a line that starts with these bytes
    | Framed(version: Byte)
    | Unsupported

  const MAGIC := FrameCodec.MAGIC
  const VERSIONS: set<Byte> := {1, FrameCodec.WIRE_VERSION}

  /** The bytes taken off a connection, and whether it closed after them, amount to the opening. */
  ghost predicate Opens(taken: seq<Byte>, closed: bool, opening: Opening) {
    match opening
    case Silent => closed && taken == []
    case Legacy(prefix) =>
      && taken == prefix && prefix != [] && |prefix| <= |MAGIC|
      && if closed then prefix < MAGIC
         else var k := |prefix| - 1; prefix[..k] == MAGIC[..k] && prefix[k] != MAGIC[k]
    case Framed(version) => !closed && version in VERSIONS && taken == MAGIC + [version]
    case Unsupported =>
      if closed then taken == MAGIC
      else |taken| == |MAGIC| + 1 && taken[..|MAGIC|] == MAGIC && taken[|MAGIC|] !in VERSIONS
  }

  /** How much is read, and what it amounts to, depends on the bytes alone and not on how they arrive. */
  lemma OpeningIsDetermined(
    taken: seq<Byte>, more: seq<Byte>, closed: bool, opening: Opening, later: bool, other: Opening)
    requires Opens(taken, closed, opening) && Opens(taken + more, later, other)
    requires closed ==> more == [] && later
    ensures more == [] && (later == closed ==> other == opening)
  {
    assert more == [] ==> taken + more == taken;
    assert (taken + more)[..|taken|] == taken;
    match opening {
      case Framed(version) => assert taken[|MAGIC|] == version;
      case _ =>
    }
    match other {
      case Framed(version) => assert (taken + more)[|MAGIC|] == version;
      case _ =>
    }
  }

  /** What the version byte, if there is one, makes of a connection that sent the magic. */
  function VersionOpening(version: seq<Byte>): Opening {
    if version != [] && version[0] in VERSIONS then Framed(version[0]) else Unsupported
  }

  lemma VersionOpens(version: seq<Byte>)
    requires |version| <= 1
    ensures Opens(MAGIC + version, version == [], VersionOpening(version))
  {
    assert version == [] ==> MAGIC + version == MAGIC;
    assert version != [] ==> version == [version[0]];
  }

  /** A connection that starts with an encoded frame opens as the version the frame is written in. */
  lemma EncodedFramesOpen(frame: FrameCodec.Frame)
    requires FrameCodec.Valid(frame)
    ensures var data := FrameCodec.Encode(frame).value;
            |data| > |MAGIC| && Opens(data[..|MAGIC| + 1], false, Framed(FrameCodec.WIRE_VERSION))
  {
    hide FrameCodec.Header;
    FrameCodec.HeaderLayout(frame, frame.payload);
  }

  /** The magic, byte by byte, up to the first byte that differs or to the peer's closing. */
  method ReadMagic(reader: DeadlineSocketReader) returns (r: Result<seq<Byte>, ReadError>)
    requires reader.Valid()
    modifies reader, reader.network
    ensures reader.Valid() && InTime(old(reader.Snap()), reader.Snap())
    ensures r.Err? ==> old(reader.returned) <= reader.returned
    ensures r.Ok? ==> reader.returned == old(reader.returned) + r.value
    ensures r == Ok(MAGIC) ==> reader.network.closings == old(reader.network.closings)
    ensures r.Ok? && r.value != MAGIC ==>
              Opens(r.value, reader.network.closings != old(reader.network.closings),
                  if r.value == [] then Silent else Legacy(r.value))
  {
    hide InTime, DeadlineSocketReader.Justified;
    r := Ok([]);
    StandingStill(reader.Snap());
    while |r.value| < |MAGIC|
      invariant r.Ok? && r.value <= MAGIC
      invariant reader.Valid() && reader.returned == old(reader.returned) + r.value
      invariant reader.network.closings == old(reader.network.closings)
      invariant InTime(old(reader.Snap()), reader.Snap())
      decreases |MAGIC| - |r.value|
    {
      ghost var before := reader.Snap();
      var received := reader.Read(1);
      InTimeComposes(old(reader.Snap()), before, reader.Snap());
      if received.Err? || received.value == [] {
        return if received.Err? then received else r;
      }
      var expected := MAGIC[|r.value|];
      r := Ok(r.value + received.value);
      if received.value[0] != expected {
        return;
      }
    }
  }

  /**
    The start of a connection is read under one absolute deadline; unless the peer
    said nothing, what follows is then due within the frame time.
   */
  method ReadOpening(reader: DeadlineSocketReader, initialTimeout: real, frameTimeout: real)
    returns (r: Result<Opening, ReadError>)
    requires reader.Valid()
    modifies reader, reader.network
    ensures reader.Valid() && old(reader.network.times) <= reader.network.times
    ensures AllBy(
        reader.network.times, old(|reader.network.times|), Some(old(reader.network.clock) + initialTimeout))
    ensures old(reader.returned) <= reader.returned
    ensures r.Ok? ==>
              Opens(reader.returned[|old(reader.returned)|..],
                  reader.network.closings != old(reader.network.closings), r.value)
    ensures r.Ok? && !r.value.Silent? ==> reader.deadline == Some(reader.network.clock + frameTimeout)
  {
    hide Opens;
    reader.StartAbsoluteDeadline(initialTimeout);
    ghost var start := reader.Snap();
    var magic := ReadMagic(reader);
    if magic.Err? {
      return Err(magic.error);
    }
    assert reader.returned[|old(reader.returned)|..] == magic.value;
    if magic.value == [] {
      return Ok(Silent);
    }
    if magic.value != MAGIC {
      reader.StartAbsoluteDeadline(frameTimeout);
      return Ok(Legacy(magic.value));
    }
    ghost var before := reader.Snap();
    var version := reader.Read(1);
    InTimeComposes(start, before, reader.Snap());
    if version.Err? {
      return Err(version.error);
    }
    reader.StartAbsoluteDeadline(frameTimeout);
    VersionOpens(version.value);
    assert reader.returned[|old(reader.returned)|..] == MAGIC + version.value;
    r := Ok(VersionOpening(version.value));
  }
}
