/** The writer and reader objects, and the codecs that drive them field by field. */
module PayloadObjects {
  import opened Wrappers
  import opened Bytes
  import opened Utf8
  import opened PayloadCodec
  import opened DecisionCodec
  import opened OperationEvents

  /** Writing `field` succeeded and was appended, or failed and changed nothing. */
  ghost predicate Appends(before: seq<Byte>, field: Written, after: seq<Byte>, result: Result<(), PayloadError>) {
    match field
    case Ok(bytes) => result == Ok(()) && after == before + bytes
    case Err(error) => result == Err(error) && after == before
  }

  class PayloadWriter {
    var data: seq<Byte>

    constructor ()
      ensures data == []
    {
      data := [];
    }

    method Integer(value: int, width: nat) returns (r: Result<(), PayloadError>)
      modifies this
      ensures Appends(old(data), IntField(value, width), data, r)
    {
      if !(0 <= value < Pow256(width)) {
        return Err(InvalidPayload);
      }
      data := data + LittleEndian(value, width);
      r := Ok(());
    }

    method Raw(value: seq<Byte>, expectedSize: nat) returns (r: Result<(), PayloadError>)
      modifies this
      ensures Appends(old(data), if |value| == expectedSize then Ok(value) else Err(InvalidPayload), data, r)
    {
      if |value| != expectedSize {
        return Err(InvalidPayload);
      }
      data := data + value;
      r := Ok(());
    }

    /** A text behind its length; `width` is one byte for text8 and two for text16. */
    method BoundedText(value: Text, width: nat, maximum: nat) returns (r: Result<(), PayloadError>)
      modifies this
      ensures Appends(old(data), TextField(value, width, maximum), data, r)
    {
      if !FitsField(value, maximum) {
        return Err(InvalidPayload);
      }
      var encoded := Encode(value);
      if |encoded| >= Pow256(width) {
        return Err(InvalidPayload);
      }
      var _ :- Integer(|encoded|, width);
      data := data + encoded;
      r := Ok(());
    }

    method Optional(value: Option<Text>, maximum: nat) returns (r: Result<(), PayloadError>)
      modifies this
      ensures Appends(old(data), OptionalText(value, maximum), data, r)
    {
      r := Ok(());
      if value.Some? {
        r := BoundedText(value.value, 2, maximum);
      }
    }

    method Texts(values: seq<Text>) returns (r: Result<(), PayloadError>)
      modifies this
      ensures r.Ok? == Identifiers(values).Ok?
      ensures r.Ok? ==> data == old(data) + Identifiers(values).value
      ensures r.Err? ==> r == Err(InvalidPayload)
    {
      hide TextField;
      for i := 0 to |values|
        invariant Identifiers(values[..i]).Ok? && data == old(data) + Identifiers(values[..i]).value
      {
        assert values[..i + 1][..i] == values[..i];
        var written := BoundedText(values[i], 2, MAX_IDENTIFIER);
        if written.Err? {
          FailedIdentifiersFail(values, i + 1);
          OnlyInvalid(values[i], 2, MAX_IDENTIFIER);
          return Err(InvalidPayload);
        }
      }
      assert values[..|values|] == values;
      r := Ok(());
    }
  }

  lemma OnlyInvalid(text: Text, width: nat, maximum: nat)
    ensures TextField(text, width, maximum).Err? ==> TextField(text, width, maximum) == Err(InvalidPayload)
  {
  }

  lemma {:induction false} FailedIdentifiersFail(values: seq<Text>, k: nat)
    requires k <= |values| && Identifiers(values[..k]).Err?
    ensures Identifiers(values).Err?
    decreases |values|
  {
    if k < |values| {
      assert values[..|values| - 1][..k] == values[..k];
      FailedIdentifiersFail(values[..|values| - 1], k);
    } else {
      assert values[..k] == values;
    }
  }

  /** Reading a field returned it and moved past it, or failed as parsing does. */
  ghost predicate Consumes<T>(parsed: Parsed<T>, result: Result<T, PayloadError>, rest: seq<Byte>) {
    match parsed
    case Ok(pair) => result == Ok(pair.0) && rest == pair.1
    case Err(error) => result == Err(error)
  }

  class PayloadReader {
    const payload: seq<Byte>
    var offset: nat

    ghost predicate Valid()
      reads this
    {
      offset <= |payload|
    }

    ghost function Rest(): seq<Byte>
      requires Valid()
      reads this
    {
      payload[offset..]
    }

    constructor (payload: seq<Byte>)
      ensures this.payload == payload && Valid() && Rest() == payload
    {
      this.payload := payload;
      offset := 0;
    }

    method Take(size: nat) returns (r: Result<seq<Byte>, PayloadError>)
      requires Valid()
      modifies this
      ensures Valid() && Consumes(TakeBytes(old(Rest()), size), r, Rest())
    {
      if offset + size > |payload| {
        return Err(InvalidPayload);
      }
      r := Ok(payload[offset..offset + size]);
      offset := offset + size;
      assert payload[old(offset)..][..size] == r.value;
    }

    /** Accepts only a payload read to its end. */
    method Finish() returns (finished: bool)
      requires Valid()
      ensures finished <==> Rest() == []
    {
      finished := offset == |payload|;
    }

    method Integer(width: nat) returns (r: Result<nat, PayloadError>)
      requires Valid()
      modifies this
      ensures Valid() && Consumes(TakeInt(old(Rest()), width), r, Rest())
    {
      var bytes :- Take(width);
      r := Ok(FromLittleEndian(bytes));
    }

    method BoundedText(width: nat, maximum: nat) returns (r: Result<Text, PayloadError>)
      requires Valid()
      modifies this
      ensures Valid() && Consumes(TakeText(old(Rest()), width, maximum), r, Rest())
    {
      hide Decode, Blank;
      var size :- Integer(width);
      if size > maximum || size == 0 {
        return Err(InvalidPayload);
      }
      var bytes :- Take(size);
      var text := Decode(bytes);
      if text.None? || Blank(text.value) {
        return Err(InvalidPayload);
      }
      r := Ok(text.value);
    }

    method Optional(present: bool, maximum: nat) returns (r: Result<Option<Text>, PayloadError>)
      requires Valid()
      modifies this
      ensures Valid() && Consumes(TakeOptionalText(old(Rest()), present, maximum), r, Rest())
    {
      hide TakeText;
      if !present {
        return Ok(None);
      }
      var text :- BoundedText(2, maximum);
      r := Ok(Some(text));
    }

    method Texts(count: nat) returns (r: Result<seq<Text>, PayloadError>)
      requires Valid()
      modifies this
      ensures Valid() && Consumes(TakeIdentifiers(old(Rest()), count), r, Rest())
    {
      hide TakeText, Identifiers;
      var texts: seq<Text> := [];
      for i := 0 to count
        invariant Valid() && TakeIdentifiers(old(Rest()), i) == Ok((texts, Rest()))
      {
        var text := BoundedText(2, MAX_IDENTIFIER);
        if text.Err? {
          FailedReadFails(old(Rest()), i + 1, count);
          return Err(text.error);
        }
        texts := texts + [text.value];
      }
      r := Ok(texts);
    }
  }

  lemma {:induction false} FailedReadFails(rest: seq<Byte>, k: nat, count: nat)
    requires k <= count && TakeIdentifiers(rest, k).Err?
    ensures TakeIdentifiers(rest, count) == Err(TakeIdentifiers(rest, k).error)
    decreases count
  {
    hide TakeText, TextField, Identifiers;
    if k < count {
      FailedReadFails(rest, k, count - 1);
    }
  }

  // ----- Operation batches -----

  /** Writing a group of fields appended all of them, or stopped at an invalid one. */
  ghost predicate Completes(before: seq<Byte>, fields: Written, after: seq<Byte>, result: Result<(), PayloadError>) {
    match fields
    case Ok(bytes) => result == Ok(()) && after == before + bytes
    case Err(_) => result == Err(InvalidPayload)
  }

  method WriteHead(writer: PayloadWriter, head: BatchHead) returns (r: Result<(), PayloadError>)
    modifies writer
    ensures Completes(old(writer.data), HeadField(head), writer.data, r)
  {
    hide LittleEndian, AllZero, Pow256;
    if !ValidBatchId(head.batchId) || !ValidCount(head.count) || head.presence >= 16 {
      return Err(InvalidPayload);
    }
    var _ := writer.Raw(head.batchId, 16);
    var _ :- writer.Integer(head.count, 2);
    var _ :- writer.Integer(KindCode(head.kind), 1);
    var _ :- writer.Integer(QueueCode(head.queue), 1);
    var _ :- writer.Integer(head.presence, 1);
    assert writer.data == old(writer.data) + HeadField(head).value;
    r := Ok(());
  }

  method WriteNames(writer: PayloadWriter, names: Names) returns (r: Result<(), PayloadError>)
    modifies writer
    ensures Completes(old(writer.data), NamesField(names), writer.data, r)
  {
    hide FitsField, LittleEndian, Pow256;
    var _ :- writer.Optional(names.source, MAX_IDENTIFIER);
    var _ :- writer.Optional(names.target, MAX_IDENTIFIER);
    var _ :- writer.Optional(names.reason, MAX_REASON);
    assert writer.data == old(writer.data) + NamesField(names).value;
    r := Ok(());
  }

  method WriteAmounts(writer: PayloadWriter, amounts: Amounts) returns (r: Result<(), PayloadError>)
    modifies writer
    ensures Completes(old(writer.data), AmountsField(amounts), writer.data, r)
  {
    hide LittleEndian, Pow256;
    var _ :- writer.Integer(amounts.costUs, 4);
    var _ :- writer.Integer(amounts.sizeBytes, 8);
    if amounts.frame.Some? {
      var _ :- writer.Integer(amounts.frame.value, 8);
    }
    assert writer.data == old(writer.data) + AmountsField(amounts).value;
    r := Ok(());
  }

  method WriteDependencies(writer: PayloadWriter, dependencies: seq<Text>) returns (r: Result<(), PayloadError>)
    modifies writer
    ensures Completes(old(writer.data), DependenciesField(dependencies), writer.data, r)
  {
    hide LittleEndian, Pow256, Identifiers;
    if |dependencies| > MAX_DEPENDENCIES {
      return Err(InvalidPayload);
    }
    var _ :- writer.Integer(|dependencies|, 1);
    var _ :- writer.Texts(dependencies);
    assert writer.data == old(writer.data) + DependenciesField(dependencies).value;
    r := Ok(());
  }

  method EncodeOperationBatch(batch: OperationBatch) returns (r: Written)
    ensures r == EncodeBatch(batch)
  {
    hide HeadField, NamesField, AmountsField, DependenciesField, Mask;
    ErrorsAreInvalid(batch);
    var writer := new PayloadWriter();
    var _ :- WriteHead(writer, HeadOf(batch));
    var _ :- WriteNames(writer, batch.names);
    var _ :- WriteAmounts(writer, batch.amounts);
    var _ :- WriteDependencies(writer, batch.dependencies);
    ghost var head, names := HeadField(HeadOf(batch)).value, NamesField(batch.names).value;
    ghost var amounts, dependencies := AmountsField(batch.amounts).value, DependenciesField(batch.dependencies).value;
    assert writer.data == head + (names + (amounts + dependencies));
    r := Finish(writer.data);
  }

  /** Before the final size check nothing but invalid fields can go wrong. */
  lemma ErrorsAreInvalid(batch: OperationBatch)
    ensures BatchPayload(batch).Err? ==> BatchPayload(batch) == Err(InvalidPayload)
  {
    hide FitsField, LittleEndian, Pow256, Mask;
    IdentifierErrors(batch.dependencies);
  }

  lemma {:induction false} IdentifierErrors(texts: seq<Text>)
    ensures Identifiers(texts).Err? ==> Identifiers(texts) == Err(InvalidPayload)
  {
    hide FitsField;
    if texts != [] {
      IdentifierErrors(texts[..|texts| - 1]);
    }
  }

  method ReadHead(reader: PayloadReader) returns (r: Result<BatchHead, PayloadError>)
    requires reader.Valid()
    modifies reader
    ensures reader.Valid() && Consumes(TakeHead(old(reader.Rest())), r, reader.Rest())
  {
    hide TakeBytes, TakeInt, HeadField, AllZero, KindCode, QueueCode;
    var batchId :- reader.Take(16);
    if !ValidBatchId(batchId) {
      return Err(InvalidPayload);
    }
    var count :- reader.Integer(2);
    if !ValidCount(count) {
      return Err(InvalidPayload);
    }
    var kindCode :- reader.Integer(1);
    var kind :- KindOf(kindCode);
    var queueCode :- reader.Integer(1);
    var queue :- QueueOf(queueCode);
    var presence :- reader.Integer(1);
    r := if presence >= 16 then Err(InvalidPayload) else Ok(BatchHead(batchId, count, kind, queue, presence));
  }

  method ReadNames(reader: PayloadReader, presence: nat) returns (r: Result<Names, PayloadError>)
    requires reader.Valid()
    modifies reader
    ensures reader.Valid() && Consumes(TakeNames(old(reader.Rest()), presence), r, reader.Rest())
  {
    hide TakeOptionalText, NamesField, HasBit;
    var source :- reader.Optional(HasBit(presence, 1), MAX_IDENTIFIER);
    var target :- reader.Optional(HasBit(presence, 2), MAX_IDENTIFIER);
    var reason :- reader.Optional(HasBit(presence, 4), MAX_REASON);
    r := Ok(Names(source, target, reason));
  }

  method ReadAmounts(reader: PayloadReader, presence: nat) returns (r: Result<Amounts, PayloadError>)
    requires reader.Valid()
    modifies reader
    ensures reader.Valid() && Consumes(TakeAmounts(old(reader.Rest()), presence), r, reader.Rest())
  {
    hide TakeInt, AmountsField, HasBit;
    var costUs :- reader.Integer(4);
    var sizeBytes :- reader.Integer(8);
    if !HasBit(presence, 8) {
      return Ok(Amounts(costUs, sizeBytes, None));
    }
    var frame :- reader.Integer(8);
    r := Ok(Amounts(costUs, sizeBytes, Some(frame)));
  }

  method ReadDependencies(reader: PayloadReader) returns (r: Result<seq<Text>, PayloadError>)
    requires reader.Valid()
    modifies reader
    ensures reader.Valid() && Consumes(TakeDependencies(old(reader.Rest())), r, reader.Rest())
  {
    hide TakeInt, TakeIdentifiers, DependenciesField;
    var count :- reader.Integer(1);
    if count > MAX_DEPENDENCIES {
      return Err(InvalidPayload);
    }
    r := reader.Texts(count);
  }

  method DecodeOperationBatch(payload: seq<Byte>) returns (r: Result<OperationBatch, PayloadError>)
    ensures r == DecodeBatch(payload)
  {
    hide TakeHead, TakeNames, TakeAmounts, TakeDependencies, HeadField, NamesField, AmountsField, DependenciesField,
         LittleEndian, FitsField, Pow256, HasBit, Mask, FromLittleEndian, AllZero;
    var reader := new PayloadReader(payload);
    var head :- ReadHead(reader);
    var names :- ReadNames(reader, head.presence);
    var amounts :- ReadAmounts(reader, head.presence);
    var dependencies :- ReadDependencies(reader);
    var finished := reader.Finish();
    if !finished {
      return Err(InvalidPayload);
    }
    r := Ok(OperationBatch(head.batchId, head.count, head.kind, head.queue, names, amounts, dependencies));
  }

  // ----- Operation events -----

  method WriteEventHead(writer: PayloadWriter, head: EventHead) returns (r: Result<(), PayloadError>)
    requires head.presence < 16
    modifies writer
    ensures Completes(old(writer.data), EventHeadField(head), writer.data, r)
  {
    hide LittleEndian, Pow256, FitsField;
    var _ :- writer.Integer(KindCode(head.kind), 1);
    var _ :- writer.Integer(QueueCode(head.queue), 1);
    var _ :- writer.Integer(head.presence, 1);
    var _ :- writer.BoundedText(head.id, 2, MAX_IDENTIFIER);
    assert writer.data == old(writer.data) + EventHeadField(head).value;
    r := Ok(());
  }

  method EncodeOperation(event: OperationEvent) returns (r: Written)
    ensures r == EncodeOperationEvent(event)
  {
    hide EventHeadField, NamesField, AmountsField, DependenciesField;
    EventErrorsAreInvalid(event);
    var writer := new PayloadWriter();
    var _ :- WriteEventHead(writer, HeadOfEvent(event));
    var _ :- WriteNames(writer, event.names);
    var _ :- WriteAmounts(writer, event.amounts);
    var _ :- WriteDependencies(writer, event.dependencies);
    ghost var head, names := EventHeadField(HeadOfEvent(event)).value, NamesField(event.names).value;
    ghost var amounts, dependencies := AmountsField(event.amounts).value, DependenciesField(event.dependencies).value;
    assert writer.data == head + (names + (amounts + dependencies));
    r := Finish(writer.data);
  }

  lemma EventErrorsAreInvalid(event: OperationEvent)
    ensures EventPayload(event).Err? ==> EventPayload(event) == Err(InvalidPayload)
  {
    hide FitsField, LittleEndian, Pow256, Mask;
    IdentifierErrors(event.dependencies);
  }

  method ReadEventHead(reader: PayloadReader) returns (r: Result<EventHead, PayloadError>)
    requires reader.Valid()
    modifies reader
    ensures reader.Valid() && Consumes(TakeEventHead(old(reader.Rest())), r, reader.Rest())
  {
    hide TakeInt, TakeText, EventHeadField, KindCode, QueueCode;
    var kindCode :- reader.Integer(1);
    var kind :- KindOf(kindCode);
    var queueCode :- reader.Integer(1);
    var queue :- QueueOf(queueCode);
    var presence :- reader.Integer(1);
    if presence >= 16 {
      return Err(InvalidPayload);
    }
    var id :- reader.BoundedText(2, MAX_IDENTIFIER);
    r := Ok(EventHead(kind, queue, presence, id));
  }

  method DecodeOperation(payload: seq<Byte>) returns (r: Result<OperationEvent, PayloadError>)
    ensures r == DecodeOperationEvent(payload)
  {
    hide TakeEventHead, TakeNames, TakeAmounts, TakeDependencies, EventHeadField, NamesField, AmountsField,
         DependenciesField, LittleEndian, FitsField, Pow256, HasBit, Mask, FromLittleEndian;
    var reader := new PayloadReader(payload);
    var head :- ReadEventHead(reader);
    var names :- ReadNames(reader, head.presence);
    var amounts :- ReadAmounts(reader, head.presence);
    var dependencies :- ReadDependencies(reader);
    var finished := reader.Finish();
    if !finished {
      return Err(InvalidPayload);
    }
    r := Ok(OperationEvent(head.kind, head.queue, head.id, names, amounts, dependencies));
  }

  // ----- Decision vectors -----

  method EncodeOperationBatchDecision(vector: DecisionVector) returns (r: Written)
    ensures r.Ok? == EncodeVector(vector).Ok?
    ensures r.Ok? ==> r == EncodeVector(vector)
  {
    hide LittleEndian, Mask;
    var entries := vector.entries;
    if !ValidBatchId(vector.batchId) || !ValidCount(|entries|) {
      return Err(InvalidPayload);
    }
    Widths();
    var writer := new PayloadWriter();
    var _ := writer.Raw(vector.batchId, 16);
    var _ := writer.Integer(|entries|, 2);
    ghost var head := writer.data;
    for i := 0 to |entries|
      invariant EntriesField(entries[..i]).Ok? && writer.data == head + EntriesField(entries[..i]).value
    {
      assert entries[..i + 1][..i] == entries[..i];
      ghost var before := writer.data;
      var entry := entries[i];
      var written := WriteEntry(writer, entry);
      if written.Err? {
        FailedEntriesFail(entries, i + 1);
        return Err(written.error);
      }
      assert before + EntryField(entry).value == head + (EntriesField(entries[..i]).value + EntryField(entry).value);
    }
    assert entries[..|entries|] == entries;
    assert head + EntriesField(entries).value ==
           vector.batchId + (IntField(|entries|, 2).value + EntriesField(entries).value);
    r := Finish(writer.data);
  }

  method WriteEntry(writer: PayloadWriter, entry: Entry) returns (r: Result<(), PayloadError>)
    modifies writer
    ensures r.Ok? == EntryField(entry).Ok?
    ensures r.Ok? ==> writer.data == old(writer.data) + EntryField(entry).value
  {
    hide LittleEndian, Mask, Pow256;
    if !ValidEntry(entry) {
      return Err(InvalidPayload);
    }
    var _ :- writer.Integer(entry.opcode, 1);
    var _ :- writer.Integer(DecisionFlags(entry.decision), 1);
    var _ :- writer.Integer(entry.decision.savedUs, 8);
    var _ :- writer.Integer(entry.decision.savedBytes, 8);
    assert writer.data == old(writer.data) + EntryField(entry).value;
    r := Ok(());
  }

  lemma {:induction false} FailedEntriesFail(entries: seq<Entry>, k: nat)
    requires k <= |entries| && EntriesField(entries[..k]).Err?
    ensures EntriesField(entries).Err?
    decreases |entries|
  {
    if k < |entries| {
      assert entries[..|entries| - 1][..k] == entries[..k];
      FailedEntriesFail(entries[..|entries| - 1], k);
    } else {
      assert entries[..k] == entries;
    }
  }

  method ReadEntries(reader: PayloadReader, count: nat) returns (r: Result<seq<Entry>, PayloadError>)
    requires reader.Valid()
    modifies reader
    ensures reader.Valid() && Consumes(TakeEntries(old(reader.Rest()), count), r, reader.Rest())
  {
    hide TakeEntry, EntryField, EntriesField;
    var entries: seq<Entry> := [];
    for i := 0 to count
      invariant reader.Valid() && TakeEntries(old(reader.Rest()), i) == Ok((entries, reader.Rest()))
    {
      var entry := ReadEntry(reader);
      if entry.Err? {
        FailedVectorFails(old(reader.Rest()), i + 1, count);
        return Err(entry.error);
      }
      entries := entries + [entry.value];
    }
    r := Ok(entries);
  }

  method DecodeOperationBatchDecision(payload: seq<Byte>) returns (r: Result<DecisionVector, PayloadError>)
    ensures r == DecodeVector(payload)
  {
    hide TakeBytes, TakeInt, TakeEntries, AllZero, EntriesField;
    var reader := new PayloadReader(payload);
    var batchId :- reader.Take(16);
    if !ValidBatchId(batchId) {
      return Err(InvalidPayload);
    }
    var count :- reader.Integer(2);
    if !ValidCount(count) {
      return Err(InvalidPayload);
    }
    var entries :- ReadEntries(reader, count);
    var finished := reader.Finish();
    if !finished {
      return Err(InvalidPayload);
    }
    r := Ok(DecisionVector(batchId, entries));
  }

  method ReadEntry(reader: PayloadReader) returns (r: Result<Entry, PayloadError>)
    requires reader.Valid()
    modifies reader
    ensures reader.Valid() && Consumes(TakeEntry(old(reader.Rest())), r, reader.Rest())
  {
    hide TakeBytes, TakeInt, HasBit;
    var opcode :- reader.Integer(1);
    ghost var start := reader.Rest();
    var flags :- reader.Integer(1);
    var savedUs :- reader.Integer(8);
    var savedBytes :- reader.Integer(8);
    if flags >= 8 || (HasBit(flags, 4) && !HasBit(flags, 2)) {
      assert TakeDecision(start).Err?;
      return Err(InvalidPayload);
    }
    var executed := if HasBit(flags, 2) then Some(HasBit(flags, 4)) else None;
    var decision := RuntimeDecision(HasBit(flags, 1), executed, savedUs, savedBytes);
    assert TakeDecision(start) == Ok((decision, reader.Rest()));
    if !ValidEntry(Entry(opcode, decision)) {
      return Err(InvalidPayload);
    }
    r := Ok(Entry(opcode, decision));
  }

  lemma {:induction false} FailedVectorFails(rest: seq<Byte>, k: nat, count: nat)
    requires k <= count && TakeEntries(rest, k).Err?
    ensures TakeEntries(rest, count) == Err(TakeEntries(rest, k).error)
    decreases count
  {
    hide TakeEntry, EntryField, EntriesField;
    if k < count {
      FailedVectorFails(rest, k, count - 1);
    }
  }
}
