/** The payload of an ordinary operation event. */
module OperationEvents {
  import opened Wrappers
  import opened Bytes
  import opened Utf8
  import opened PayloadCodec
  import Runtime

  /** One operation as an engine reports it. */
  datatype OperationEvent = OperationEvent(
    kind: Runtime.OpKind,
    queue: Queue,
    id: Text,
    names: Names,
    amounts: Amounts,
    dependencies: seq<Text>)

  datatype EventHead = EventHead(kind: Runtime.OpKind, queue: Queue, presence: nat, id: Text)

  function PresenceOf(event: OperationEvent): nat {
    Mask(event.names.source.Some?, event.names.target.Some?, event.names.reason.Some?, event.amounts.frame.Some?)
  }

  function EventHeadField(head: EventHead): Written {
    if head.presence >= 16 then Err(InvalidPayload)
    else
      var kind :- IntField(KindCode(head.kind), 1);
      var queue :- IntField(QueueCode(head.queue), 1);
      var presence :- IntField(head.presence, 1);
      var id :- TextField(head.id, 2, MAX_IDENTIFIER);
      Ok(kind + (queue + (presence + id)))
  }

  function TakeEventHead(rest: seq<Byte>): (r: Parsed<EventHead>)
    ensures r.Ok? ==> EventHeadField(r.value.0).Ok? && rest == EventHeadField(r.value.0).value + r.value.1
  {
    hide TakeInt, LittleEndian, KindCode, QueueCode, KindOf, QueueOf, TakeText, TextField;
    var (kindCode, r1) :- TakeInt(rest, 1);
    var kind :- KindOf(kindCode);
    var (queueCode, r2) :- TakeInt(r1, 1);
    var queue :- QueueOf(queueCode);
    var (presence, r3) :- TakeInt(r2, 1);
    if presence >= 16 then Err(InvalidPayload)
    else
      var (id, r4) :- TakeText(r3, 2, MAX_IDENTIFIER);
      var k, q, p := LittleEndian(kindCode, 1), LittleEndian(queueCode, 1), LittleEndian(presence, 1);
      var i := TextField(id, 2, MAX_IDENTIFIER).value;
      Regroup(q, p, i, r4);
      assert k + (q + (p + i)) + r4 == k + (q + (p + i) + r4);
      Ok((EventHead(kind, queue, presence, id), r4))
  }

  lemma EventHeadParsesBack(head: EventHead, rest: seq<Byte>)
    requires EventHeadField(head).Ok?
    ensures TakeEventHead(EventHeadField(head).value + rest) == Ok((head, rest))
  {
    hide IntField, TakeInt, KindCode, KindOf, QueueCode, QueueOf, TextField, TakeText;
    var kind, queue := IntField(KindCode(head.kind), 1).value, IntField(QueueCode(head.queue), 1).value;
    var presence, id := IntField(head.presence, 1).value, TextField(head.id, 2, MAX_IDENTIFIER).value;
    assert kind + (queue + (presence + id)) + rest == kind + (queue + (presence + (id + rest)));
    IntParsesBack(KindCode(head.kind), 1, queue + (presence + (id + rest)));
    IntParsesBack(QueueCode(head.queue), 1, presence + (id + rest));
    IntParsesBack(head.presence, 1, id + rest);
    TextParsesBack(head.id, 2, MAX_IDENTIFIER, rest);
    assert KindOf(KindCode(head.kind)) == Ok(head.kind) && QueueOf(QueueCode(head.queue)) == Ok(head.queue);
  }

  function HeadOfEvent(event: OperationEvent): EventHead {
    EventHead(event.kind, event.queue, PresenceOf(event), event.id)
  }

  function EventPayload(event: OperationEvent): Written {
    var head :- EventHeadField(HeadOfEvent(event));
    var names :- NamesField(event.names);
    var amounts :- AmountsField(event.amounts);
    var dependencies :- DependenciesField(event.dependencies);
    Ok(head + (names + (amounts + dependencies)))
  }

  function EncodeOperationEvent(event: OperationEvent): Written {
    var payload :- EventPayload(event);
    Finish(payload)
  }

  function DecodeOperationEvent(payload: seq<Byte>): Result<OperationEvent, PayloadError> {
    var (head, r1) :- TakeEventHead(payload);
    var (names, r2) :- TakeNames(r1, head.presence);
    var (amounts, r3) :- TakeAmounts(r2, head.presence);
    var (dependencies, r4) :- TakeDependencies(r3);
    if r4 != [] then Err(InvalidPayload)
    else Ok(OperationEvent(head.kind, head.queue, head.id, names, amounts, dependencies))
  }

  /** Operation events never come near the payload limit. */
  lemma EventsAlwaysFit(event: OperationEvent)
    requires EventPayload(event).Ok?
    ensures |EventPayload(event).value| <= 9568
    ensures EncodeOperationEvent(event) == EventPayload(event)
  {
    hide TextField, Identifiers, LittleEndian, Pow256, Mask;
    TextFieldSize(event.id, 2, MAX_IDENTIFIER);
    if event.names.source.Some? { TextFieldSize(event.names.source.value, 2, MAX_IDENTIFIER); }
    if event.names.target.Some? { TextFieldSize(event.names.target.value, 2, MAX_IDENTIFIER); }
    if event.names.reason.Some? { TextFieldSize(event.names.reason.value, 2, MAX_REASON); }
    IdentifiersSize(event.dependencies);
    assert |event.dependencies| * (2 + MAX_IDENTIFIER) <= 32 * 258;
  }

  /** The bytes of an accepted event are the only encoding of what they decode to. */
  lemma EventIsCanonical(payload: seq<Byte>)
    ensures DecodeOperationEvent(payload).Ok? ==>
              EncodeOperationEvent(DecodeOperationEvent(payload).value) == Ok(payload)
  {
    hide EventHeadField, TakeEventHead, NamesField, TakeNames, AmountsField, TakeAmounts, DependenciesField,
         TakeDependencies, HasBit, Mask, Finish;
    if DecodeOperationEvent(payload).Ok? {
      var event := DecodeOperationEvent(payload).value;
      var (head, r1) := TakeEventHead(payload).value;
      EventHeadIsSmall(head);
      MaskOfBits(head.presence);
      var dependencies := DependenciesField(event.dependencies).value;
      assert dependencies + [] == dependencies;
      EventsAlwaysFit(event);
    }
  }

  lemma EventHeadIsSmall(head: EventHead)
    requires EventHeadField(head).Ok?
    ensures head.presence < 16
  {
  }

  /** Every event that can be encoded decodes to itself. */
  lemma EventParsesBack(event: OperationEvent)
    requires EncodeOperationEvent(event).Ok?
    ensures DecodeOperationEvent(EncodeOperationEvent(event).value) == Ok(event)
  {
    hide EventHeadField, TakeEventHead, NamesField, TakeNames, AmountsField, TakeAmounts, DependenciesField,
         TakeDependencies, HasBit, Mask;
    var head, names := EventHeadField(HeadOfEvent(event)).value, NamesField(event.names).value;
    var amounts, dependencies := AmountsField(event.amounts).value, DependenciesField(event.dependencies).value;
    MaskBits(event.names.source.Some?, event.names.target.Some?, event.names.reason.Some?, event.amounts.frame.Some?);
    EventHeadParsesBack(HeadOfEvent(event), names + (amounts + dependencies));
    NamesParseBack(event.names, PresenceOf(event), amounts + dependencies);
    AmountsParseBack(event.amounts, PresenceOf(event), dependencies);
    assert dependencies + [] == dependencies;
    DependenciesParseBack(event.dependencies, []);
  }
}
