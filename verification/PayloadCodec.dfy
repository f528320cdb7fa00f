/**
  Positional payload fields of FluidLink v2, and the operation-batch event.

  A field is parsed off the front of the bytes still unread.  Each field comes
  with two facts: what was parsed is what would be written, and what is written
  parses back.
 */
module PayloadCodec {
  import opened Wrappers
  import opened Bytes
  import opened Utf8
  import FrameCodec
  import Runtime

  const MAX_PEER_NAME := 128
  const MAX_PEER_VERSION := 64
  const MAX_NONCE := 128
  const MAX_IDENTIFIER := 256
  const MAX_REASON := 512
  const MAX_DEPENDENCIES := 32
  const MAX_BATCH_OPERATIONS := 256

  datatype PayloadError = InvalidPayload | PayloadTooLarge

  type Parsed<T> = Result<(T, seq<Byte>), PayloadError>
  type Written = Result<seq<Byte>, PayloadError>

  // ----- Fields -----

  function TakeBytes(rest: seq<Byte>, size: nat): (r: Parsed<seq<Byte>>)
    ensures r.Ok? ==> rest == r.value.0 + r.value.1 && |r.value.0| == size
  {
    if size <= |rest| then Ok((rest[..size], rest[size..])) else Err(InvalidPayload)
  }

  function TakeInt(rest: seq<Byte>, width: nat): (r: Parsed<nat>)
    ensures r.Ok? ==> r.value.0 < Pow256(width) && rest == LittleEndian(r.value.0, width) + r.value.1
  {
    var (bytes, left) :- TakeBytes(rest, width);
    BytesRoundTrip(bytes);
    Ok((FromLittleEndian(bytes), left))
  }

  function IntField(value: int, width: nat): Written {
    if 0 <= value < Pow256(width) then Ok(LittleEndian(value, width)) else Err(InvalidPayload)
  }

  function TextField(text: Text, width: nat, maximum: nat): Written {
    if !FitsField(text, maximum) then Err(InvalidPayload)
    else
      var size :- IntField(|Encode(text)|, width);
      Ok(size + Encode(text))
  }

  function TakeText(rest: seq<Byte>, width: nat, maximum: nat): (r: Parsed<Text>)
    ensures r.Ok? ==> TextField(r.value.0, width, maximum).Ok?
    ensures r.Ok? ==> rest == TextField(r.value.0, width, maximum).value + r.value.1
  {
    var (size, afterSize) :- TakeInt(rest, width);
    if size > maximum || size == 0 then Err(InvalidPayload)
    else
      var (bytes, left) :- TakeBytes(afterSize, size);
      match Decode(bytes)
      case None => Err(InvalidPayload)
      case Some(text) =>
        if Blank(text) then Err(InvalidPayload)
        else
          TextIsCanonical(bytes);
          assert rest == LittleEndian(size, width) + (bytes + left);
          Ok((text, left))
  }

  lemma IntParsesBack(value: int, width: nat, rest: seq<Byte>)
    requires IntField(value, width).Ok?
    ensures TakeInt(IntField(value, width).value + rest, width) == Ok((value, rest))
  {
    var bytes := LittleEndian(value, width);
    IntegerRoundTrip(value, width);
    assert (bytes + rest)[..width] == bytes && (bytes + rest)[width..] == rest;
  }

  lemma TextParsesBack(text: Text, width: nat, maximum: nat, rest: seq<Byte>)
    requires TextField(text, width, maximum).Ok?
    ensures TakeText(TextField(text, width, maximum).value + rest, width, maximum) == Ok((text, rest))
  {
    var bytes := Encode(text);
    var size := IntField(|bytes|, width).value;
    assert size + bytes + rest == size + (bytes + rest);
    IntParsesBack(|bytes|, width, bytes + rest);
    assert (bytes + rest)[..|bytes|] == bytes && (bytes + rest)[|bytes|..] == rest;
    TextRoundTrip(text);
  }

  lemma TextFieldSize(text: Text, width: nat, maximum: nat)
    requires TextField(text, width, maximum).Ok?
    ensures |TextField(text, width, maximum).value| <= width + maximum
  {
  }

  lemma Regroup(a: seq<Byte>, b: seq<Byte>, c: seq<Byte>, d: seq<Byte>)
    ensures a + (b + c) + d == a + (b + (c + d))
  {
  }

  // ----- Optional fields, announced by a presence bit -----

  function OptionalText(text: Option<Text>, maximum: nat): Written {
    if text.None? then Ok([]) else TextField(text.value, 2, maximum)
  }

  function TakeOptionalText(rest: seq<Byte>, present: bool, maximum: nat): (r: Parsed<Option<Text>>)
    ensures r.Ok? ==> r.value.0.Some? == present && OptionalText(r.value.0, maximum).Ok?
    ensures r.Ok? ==> rest == OptionalText(r.value.0, maximum).value + r.value.1
  {
    if !present then Ok((None, rest))
    else
      var (text, left) :- TakeText(rest, 2, maximum);
      Ok((Some(text), left))
  }

  function OptionalInt(value: Option<int>, width: nat): Written {
    if value.None? then Ok([]) else IntField(value.value, width)
  }

  function TakeOptionalInt(rest: seq<Byte>, present: bool, width: nat): (r: Parsed<Option<int>>)
    ensures r.Ok? ==> r.value.0.Some? == present && OptionalInt(r.value.0, width).Ok?
    ensures r.Ok? ==> rest == OptionalInt(r.value.0, width).value + r.value.1
  {
    if !present then Ok((None, rest))
    else
      var (value, left) :- TakeInt(rest, width);
      Ok((Some(value), left))
  }

  lemma OptionalTextParsesBack(text: Option<Text>, maximum: nat, rest: seq<Byte>)
    requires OptionalText(text, maximum).Ok?
    ensures TakeOptionalText(OptionalText(text, maximum).value + rest, text.Some?, maximum) == Ok((text, rest))
  {
    assert [] + rest == rest;
    if text.Some? {
      TextParsesBack(text.value, 2, maximum, rest);
    }
  }

  lemma OptionalIntParsesBack(value: Option<int>, width: nat, rest: seq<Byte>)
    requires OptionalInt(value, width).Ok?
    ensures TakeOptionalInt(OptionalInt(value, width).value + rest, value.Some?, width) == Ok((value, rest))
  {
    assert [] + rest == rest;
    if value.Some? {
      IntParsesBack(value.value, width, rest);
    }
  }

  // ----- Counted lists of identifiers -----

  function Identifiers(texts: seq<Text>): Written {
    if texts == [] then Ok([])
    else
      var prior :- Identifiers(texts[..|texts| - 1]);
      var last :- TextField(texts[|texts| - 1], 2, MAX_IDENTIFIER);
      Ok(prior + last)
  }

  function TakeIdentifiers(rest: seq<Byte>, count: nat): (r: Parsed<seq<Text>>)
    ensures r.Ok? ==> |r.value.0| == count && Identifiers(r.value.0).Ok?
    ensures r.Ok? ==> rest == Identifiers(r.value.0).value + r.value.1
  {
    hide TextField, TakeText;
    if count == 0 then assert [] + rest == rest; Ok(([], rest))
    else
      var (prior, r1) :- TakeIdentifiers(rest, count - 1);
      var (last, r2) :- TakeText(r1, 2, MAX_IDENTIFIER);
      var all := prior + [last];
      assert all[..|all| - 1] == prior;
      var written := TextField(last, 2, MAX_IDENTIFIER).value;
      assert Identifiers(prior).value + (written + r2) == Identifiers(prior).value + written + r2;
      Ok((all, r2))
  }

  lemma {:induction false} IdentifiersParseBack(texts: seq<Text>, rest: seq<Byte>)
    requires Identifiers(texts).Ok?
    ensures TakeIdentifiers(Identifiers(texts).value + rest, |texts|) == Ok((texts, rest))
    decreases |texts|
  {
    hide TextField, TakeText;
    if texts != [] {
      var prior, last := texts[..|texts| - 1], texts[|texts| - 1];
      var before, end := Identifiers(prior).value, TextField(last, 2, MAX_IDENTIFIER).value;
      assert before + end + rest == before + (end + rest);
      IdentifiersParseBack(prior, end + rest);
      TextParsesBack(last, 2, MAX_IDENTIFIER, rest);
      assert prior + [last] == texts;
    } else {
      assert [] + rest == rest;
    }
  }

  lemma {:induction false} IdentifiersSize(texts: seq<Text>)
    requires Identifiers(texts).Ok?
    ensures |Identifiers(texts).value| <= |texts| * (2 + MAX_IDENTIFIER)
  {
    if texts != [] {
      TextFieldSize(texts[|texts| - 1], 2, MAX_IDENTIFIER);
      IdentifiersSize(texts[..|texts| - 1]);
    }
  }

  // ----- Registries -----

  datatype Queue = UnknownQueue | CpuQueue | CopyQueue | GraphicsQueue | ComputeQueue | PresentQueue

  function QueueCode(queue: Queue): nat {
    match queue
    case UnknownQueue => 0 case CpuQueue => 1 case CopyQueue => 2
    case GraphicsQueue => 3 case ComputeQueue => 4 case PresentQueue => 5
  }

  function QueueOf(code: nat): (r: Result<Queue, PayloadError>)
    ensures forall queue :: r == Ok(queue) <==> code == QueueCode(queue)
  {
    match code
    case 0 => Ok(UnknownQueue) case 1 => Ok(CpuQueue) case 2 => Ok(CopyQueue)
    case 3 => Ok(GraphicsQueue) case 4 => Ok(ComputeQueue) case 5 => Ok(PresentQueue)
    case _ => Err(InvalidPayload)
  }

  function KindCode(kind: Runtime.OpKind): nat {
    match kind
    case Copy => 1 case Sync => 2 case Allocate => 3 case Upload => 4
    case Present => 5 case Compute => 6 case Draw => 7
  }

  function KindOf(code: nat): (r: Result<Runtime.OpKind, PayloadError>)
    ensures forall kind :: r == Ok(kind) <==> code == KindCode(kind)
  {
    match code
    case 1 => Ok(Runtime.Copy) case 2 => Ok(Runtime.Sync) case 3 => Ok(Runtime.Allocate) case 4 => Ok(Runtime.Upload)
    case 5 => Ok(Runtime.Present) case 6 => Ok(Runtime.Compute) case 7 => Ok(Runtime.Draw)
    case _ => Err(InvalidPayload)
  }

  // ----- Presence masks -----

  function Bit(flag: bool, weight: nat): nat {
    if flag then weight else 0
  }

  predicate HasBit(mask: nat, weight: nat)
    requires weight > 0
  {
    mask / weight % 2 == 1
  }

  function Mask(b0: bool, b1: bool, b2: bool, b3: bool): nat {
    Bit(b0, 1) + Bit(b1, 2) + Bit(b2, 4) + Bit(b3, 8)
  }

  lemma MaskBits(b0: bool, b1: bool, b2: bool, b3: bool)
    ensures var mask := Mask(b0, b1, b2, b3);
            && mask < 16 && HasBit(mask, 1) == b0 && HasBit(mask, 2) == b1
            && HasBit(mask, 4) == b2 && HasBit(mask, 8) == b3
  {
  }

  lemma MaskOfBits(mask: nat)
    requires mask < 16
    ensures mask == Mask(HasBit(mask, 1), HasBit(mask, 2), HasBit(mask, 4), HasBit(mask, 8))
  {
  }

  // ----- Operation batches -----

  /** One operation template and how often it is submitted. */
  datatype OperationBatch = OperationBatch(
    batchId: seq<Byte>,
    count: int,
    kind: Runtime.OpKind,
    queue: Queue,
    names: Names,
    amounts: Amounts,
    dependencies: seq<Text>)

  datatype Names = Names(source: Option<Text>, target: Option<Text>, reason: Option<Text>)
  datatype Amounts = Amounts(costUs: int, sizeBytes: int, frame: Option<int>)

  predicate ValidBatchId(id: seq<Byte>) {
    |id| == 16 && !AllZero(id)
  }

  predicate ValidCount(count: int) {
    1 <= count <= MAX_BATCH_OPERATIONS
  }

  function Presence(batch: OperationBatch): nat {
    Mask(batch.names.source.Some?, batch.names.target.Some?, batch.names.reason.Some?, batch.amounts.frame.Some?)
  }

  function NamesField(names: Names): Written {
    var source :- OptionalText(names.source, MAX_IDENTIFIER);
    var target :- OptionalText(names.target, MAX_IDENTIFIER);
    var reason :- OptionalText(names.reason, MAX_REASON);
    Ok(source + (target + reason))
  }

  function TakeNames(rest: seq<Byte>, presence: nat): (r: Parsed<Names>)
    ensures r.Ok? ==>
              && r.value.0.source.Some? == HasBit(presence, 1)
              && r.value.0.target.Some? == HasBit(presence, 2)
              && r.value.0.reason.Some? == HasBit(presence, 4)
    ensures r.Ok? ==> NamesField(r.value.0).Ok? && rest == NamesField(r.value.0).value + r.value.1
  {
    hide TextField, TakeText, OptionalText, TakeOptionalText, HasBit;
    var (source, r1) :- TakeOptionalText(rest, HasBit(presence, 1), MAX_IDENTIFIER);
    var (target, r2) :- TakeOptionalText(r1, HasBit(presence, 2), MAX_IDENTIFIER);
    var (reason, r3) :- TakeOptionalText(r2, HasBit(presence, 4), MAX_REASON);
    Regroup(OptionalText(source, MAX_IDENTIFIER).value, OptionalText(target, MAX_IDENTIFIER).value,
            OptionalText(reason, MAX_REASON).value, r3);
    Ok((Names(source, target, reason), r3))
  }

  lemma NamesParseBack(names: Names, presence: nat, rest: seq<Byte>)
    requires NamesField(names).Ok?
    requires names.source.Some? == HasBit(presence, 1) && names.target.Some? == HasBit(presence, 2)
    requires names.reason.Some? == HasBit(presence, 4)
    ensures TakeNames(NamesField(names).value + rest, presence) == Ok((names, rest))
  {
    hide TextField, TakeText, OptionalText, TakeOptionalText, HasBit;
    var source, target := OptionalText(names.source, MAX_IDENTIFIER).value,
        OptionalText(names.target, MAX_IDENTIFIER).value;
    var reason := OptionalText(names.reason, MAX_REASON).value;
    assert source + (target + reason) + rest == source + (target + (reason + rest));
    OptionalTextParsesBack(names.source, MAX_IDENTIFIER, target + (reason + rest));
    OptionalTextParsesBack(names.target, MAX_IDENTIFIER, reason + rest);
    OptionalTextParsesBack(names.reason, MAX_REASON, rest);
  }

  function AmountsField(amounts: Amounts): Written {
    var cost :- IntField(amounts.costUs, 4);
    var size :- IntField(amounts.sizeBytes, 8);
    var frame :- OptionalInt(amounts.frame, 8);
    Ok(cost + (size + frame))
  }

  function TakeAmounts(rest: seq<Byte>, presence: nat): (r: Parsed<Amounts>)
    ensures r.Ok? ==> r.value.0.frame.Some? == HasBit(presence, 8)
    ensures r.Ok? ==> AmountsField(r.value.0).Ok? && rest == AmountsField(r.value.0).value + r.value.1
  {
    hide TakeInt, OptionalInt, TakeOptionalInt, HasBit, LittleEndian, Pow256;
    var (costUs, r1) :- TakeInt(rest, 4);
    var (sizeBytes, r2) :- TakeInt(r1, 8);
    var (frame, r3) :- TakeOptionalInt(r2, HasBit(presence, 8), 8);
    Regroup(LittleEndian(costUs, 4), LittleEndian(sizeBytes, 8), OptionalInt(frame, 8).value, r3);
    Ok((Amounts(costUs, sizeBytes, frame), r3))
  }

  lemma AmountsParseBack(amounts: Amounts, presence: nat, rest: seq<Byte>)
    requires AmountsField(amounts).Ok? && amounts.frame.Some? == HasBit(presence, 8)
    ensures TakeAmounts(AmountsField(amounts).value + rest, presence) == Ok((amounts, rest))
  {
    hide IntField, TakeInt, OptionalInt, TakeOptionalInt, HasBit;
    var cost, size := IntField(amounts.costUs, 4).value, IntField(amounts.sizeBytes, 8).value;
    var frame := OptionalInt(amounts.frame, 8).value;
    assert cost + (size + frame) + rest == cost + (size + (frame + rest));
    IntParsesBack(amounts.costUs, 4, size + (frame + rest));
    IntParsesBack(amounts.sizeBytes, 8, frame + rest);
    OptionalIntParsesBack(amounts.frame, 8, rest);
  }

  function DependenciesField(dependencies: seq<Text>): Written {
    if |dependencies| > MAX_DEPENDENCIES then Err(InvalidPayload)
    else
      var count :- IntField(|dependencies|, 1);
      var texts :- Identifiers(dependencies);
      Ok(count + texts)
  }

  function TakeDependencies(rest: seq<Byte>): (r: Parsed<seq<Text>>)
    ensures r.Ok? ==> DependenciesField(r.value.0).Ok? && rest == DependenciesField(r.value.0).value + r.value.1
  {
    hide TakeInt, LittleEndian, Identifiers, TakeIdentifiers;
    var (count, r1) :- TakeInt(rest, 1);
    if count > MAX_DEPENDENCIES then Err(InvalidPayload)
    else
      var (texts, r2) :- TakeIdentifiers(r1, count);
      Regroup(LittleEndian(count, 1), Identifiers(texts).value, [], r2);
      assert Identifiers(texts).value + [] == Identifiers(texts).value && [] + r2 == r2;
      Ok((texts, r2))
  }

  lemma DependenciesParseBack(dependencies: seq<Text>, rest: seq<Byte>)
    requires DependenciesField(dependencies).Ok?
    ensures TakeDependencies(DependenciesField(dependencies).value + rest) == Ok((dependencies, rest))
  {
    hide IntField, TakeInt, Identifiers, TakeIdentifiers;
    var count, texts := IntField(|dependencies|, 1).value, Identifiers(dependencies).value;
    assert count + texts + rest == count + (texts + rest);
    IntParsesBack(|dependencies|, 1, texts + rest);
    IdentifiersParseBack(dependencies, rest);
  }

  datatype BatchHead = BatchHead(batchId: seq<Byte>, count: int, kind: Runtime.OpKind, queue: Queue, presence: nat)

  function HeadField(head: BatchHead): Written {
    if !ValidBatchId(head.batchId) || !ValidCount(head.count) || head.presence >= 16 then Err(InvalidPayload)
    else
      var count :- IntField(head.count, 2);
      var kind :- IntField(KindCode(head.kind), 1);
      var queue :- IntField(QueueCode(head.queue), 1);
      var presence :- IntField(head.presence, 1);
      Ok(head.batchId + (count + (kind + (queue + presence))))
  }

  function TakeHead(rest: seq<Byte>): (r: Parsed<BatchHead>)
    ensures r.Ok? ==> HeadField(r.value.0).Ok? && rest == HeadField(r.value.0).value + r.value.1
  {
    hide TakeInt, TakeBytes, LittleEndian, AllZero, KindCode, QueueCode, KindOf, QueueOf;
    var (batchId, r1) :- TakeBytes(rest, 16);
    if !ValidBatchId(batchId) then Err(InvalidPayload)
    else
      var (count, r2) :- TakeInt(r1, 2);
      if !ValidCount(count) then Err(InvalidPayload)
      else
        var (kindCode, r3) :- TakeInt(r2, 1);
        var kind :- KindOf(kindCode);
        var (queueCode, r4) :- TakeInt(r3, 1);
        var queue :- QueueOf(queueCode);
        var (presence, r5) :- TakeInt(r4, 1);
        if presence >= 16 then Err(InvalidPayload)
        else
          var p := LittleEndian(presence, 1);
          Regroup(LittleEndian(kindCode, 1), LittleEndian(queueCode, 1), p, r5);
          Regroup(batchId, LittleEndian(count, 2), LittleEndian(kindCode, 1) + (LittleEndian(queueCode, 1) + p), r5);
          Ok((BatchHead(batchId, count, kind, queue, presence), r5))
  }

  lemma HeadParsesBack(head: BatchHead, rest: seq<Byte>)
    requires HeadField(head).Ok?
    ensures TakeHead(HeadField(head).value + rest) == Ok((head, rest))
  {
    hide IntField, TakeInt, KindCode, KindOf, QueueCode, QueueOf;
    var count, kind := IntField(head.count, 2).value, IntField(KindCode(head.kind), 1).value;
    var queue, presence := IntField(QueueCode(head.queue), 1).value, IntField(head.presence, 1).value;
    var r1 := count + (kind + (queue + (presence + rest)));
    assert head.batchId + (count + (kind + (queue + presence))) + rest == head.batchId + r1;
    assert (head.batchId + r1)[..16] == head.batchId && (head.batchId + r1)[16..] == r1;
    IntParsesBack(head.count, 2, kind + (queue + (presence + rest)));
    IntParsesBack(KindCode(head.kind), 1, queue + (presence + rest));
    IntParsesBack(QueueCode(head.queue), 1, presence + rest);
    IntParsesBack(head.presence, 1, rest);
    assert KindOf(KindCode(head.kind)) == Ok(head.kind) && QueueOf(QueueCode(head.queue)) == Ok(head.queue);
  }

  function Finish(payload: seq<Byte>): Written {
    if |payload| <= FrameCodec.MAX_PAYLOAD then Ok(payload) else Err(PayloadTooLarge)
  }

  function HeadOf(batch: OperationBatch): BatchHead {
    BatchHead(batch.batchId, batch.count, batch.kind, batch.queue, Presence(batch))
  }

  function BatchPayload(batch: OperationBatch): Written {
    var head :- HeadField(HeadOf(batch));
    var names :- NamesField(batch.names);
    var amounts :- AmountsField(batch.amounts);
    var dependencies :- DependenciesField(batch.dependencies);
    Ok(head + (names + (amounts + dependencies)))
  }

  function EncodeBatch(batch: OperationBatch): Written {
    var payload :- BatchPayload(batch);
    Finish(payload)
  }

  function DecodeBatch(payload: seq<Byte>): Result<OperationBatch, PayloadError> {
    var (head, r1) :- TakeHead(payload);
    var (names, r2) :- TakeNames(r1, head.presence);
    var (amounts, r3) :- TakeAmounts(r2, head.presence);
    var (dependencies, r4) :- TakeDependencies(r3);
    if r4 != [] then Err(InvalidPayload)
    else Ok(OperationBatch(head.batchId, head.count, head.kind, head.queue, names, amounts, dependencies))
  }

  /** No batch that can be encoded comes near the payload limit. */
  lemma BatchesAlwaysFit(batch: OperationBatch)
    requires BatchPayload(batch).Ok?
    ensures |BatchPayload(batch).value| <= 9328
    ensures EncodeBatch(batch) == BatchPayload(batch)
  {
    hide TextField, Identifiers, LittleEndian, Pow256, Mask;
    if batch.names.source.Some? { TextFieldSize(batch.names.source.value, 2, MAX_IDENTIFIER); }
    if batch.names.target.Some? { TextFieldSize(batch.names.target.value, 2, MAX_IDENTIFIER); }
    if batch.names.reason.Some? { TextFieldSize(batch.names.reason.value, 2, MAX_REASON); }
    IdentifiersSize(batch.dependencies);
    assert |batch.dependencies| * (2 + MAX_IDENTIFIER) <= 32 * 258;
  }

  /** The bytes of an accepted batch are the only encoding of what they decode to. */
  lemma BatchIsCanonical(payload: seq<Byte>)
    ensures DecodeBatch(payload).Ok? ==> EncodeBatch(DecodeBatch(payload).value) == Ok(payload)
  {
    hide HeadField, TakeHead, NamesField, TakeNames, AmountsField, TakeAmounts, DependenciesField, TakeDependencies,
         HasBit, Mask, Finish;
    if DecodeBatch(payload).Ok? {
      var batch := DecodeBatch(payload).value;
      var (head, r1) := TakeHead(payload).value;
      HeadIsSmall(head);
      MaskOfBits(head.presence);
      var dependencies := DependenciesField(batch.dependencies).value;
      assert dependencies + [] == dependencies;
      BatchesAlwaysFit(batch);
    }
  }

  lemma HeadIsSmall(head: BatchHead)
    requires HeadField(head).Ok?
    ensures head.presence < 16
  {
  }

  /** Every batch that can be encoded decodes to itself. */
  lemma BatchParsesBack(batch: OperationBatch)
    requires EncodeBatch(batch).Ok?
    ensures DecodeBatch(EncodeBatch(batch).value) == Ok(batch)
  {
    hide HeadField, TakeHead, NamesField, TakeNames, AmountsField, TakeAmounts, DependenciesField, TakeDependencies,
         HasBit, Mask;
    var head, names := HeadField(HeadOf(batch)).value, NamesField(batch.names).value;
    var amounts, dependencies := AmountsField(batch.amounts).value, DependenciesField(batch.dependencies).value;
    MaskBits(batch.names.source.Some?, batch.names.target.Some?, batch.names.reason.Some?, batch.amounts.frame.Some?);
    HeadParsesBack(HeadOf(batch), names + (amounts + dependencies));
    NamesParseBack(batch.names, Presence(batch), amounts + dependencies);
    AmountsParseBack(batch.amounts, Presence(batch), dependencies);
    assert dependencies + [] == dependencies;
    DependenciesParseBack(batch.dependencies, []);
  }
}
