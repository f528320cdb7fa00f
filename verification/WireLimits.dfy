/** Exactly which values can be written, and which byte strings are accepted. */
module WireLimits {
  import opened Wrappers
  import opened Bytes
  import opened Utf8
  import opened PayloadCodec
  import opened DecisionCodec
  import opened OperationEvents
  import FrameCodec

  // ----- Text -----

  ghost predicate AllSpace(text: Text) {
    forall i | 0 <= i < |text| :: IsSpace(text[i])
  }

  /** Stripping removes the blanks at both ends, all of them and nothing else. */
  lemma {:induction false} StripTakesTheBlanks(text: Text) returns (front: Text, back: Text)
    ensures text == front + Strip(text) + back && AllSpace(front) && AllSpace(back)
    ensures Strip(text) == [] || (!IsSpace(Strip(text)[0]) && !IsSpace(Strip(text)[|Strip(text)| - 1]))
    ensures Strip(text) == [] <==> Blank(text)
  {
    hide IsSpace;
    front := LeftBlanks(text);
    back := RightBlanks(StripLeft(text));
    StrippedStarts(text);
    if Strip(text) == [] {
      assert text == front + back;
      forall c | c in text ensures IsSpace(c) {
        assert c in front || c in back;
      }
    } else {
      assert text[|front|] == Strip(text)[0] && text[|front|] in text;
    }
  }

  lemma {:induction false} LeftBlanks(text: Text) returns (front: Text)
    ensures text == front + StripLeft(text) && AllSpace(front)
  {
    front := [];
    if text != [] && IsSpace(text[0]) {
      front := LeftBlanks(text[1..]);
      front := [text[0]] + front;
    }
  }

  lemma {:induction false} RightBlanks(text: Text) returns (back: Text)
    ensures text == StripRight(text) + back && AllSpace(back)
    ensures StripRight(text) == [] || !IsSpace(StripRight(text)[|StripRight(text)| - 1])
    decreases |text|
  {
    hide IsSpace;
    back := [];
    if text != [] && IsSpace(text[|text| - 1]) {
      var shorter, last := text[..|text| - 1], text[|text| - 1];
      var rest := RightBlanks(shorter);
      back := rest + [last];
      assert text == shorter + [last] && text == StripRight(shorter) + back;
    }
  }

  /** A message is stripped, replaced by a fixed one if nothing is left, and then cut only if it is too long. */
  lemma TruncationSays(value: Text, maximum: nat)
    requires maximum >= 28
    ensures Blank(value) ==> TruncateUtf8(value, maximum) == Ascii("FluidLink v2 request failed.")
    ensures !Blank(value) && Encodable(Strip(value)) && |Encode(Strip(value))| <= maximum ==>
              TruncateUtf8(value, maximum) == Strip(value)
  {
    hide IsSpace;
    var front, back := StripTakesTheBlanks(value);
    var fallback := "FluidLink v2 request failed.";
    ShortAsciiFits(fallback);
    EncodableIsUnreplaced(Ascii(fallback));
    if Encodable(Strip(value)) {
      EncodableIsUnreplaced(Strip(value));
    }
  }

  /** A text that may stand in a field of at most the given bytes. */
  ghost predicate Writable(text: Text, maximum: nat) {
    && (forall c | c in text :: !(0xD800 <= c < 0xE000))
    && (exists c :: c in text && !IsSpace(c))
    && |Encode(text)| <= maximum
  }

  ghost predicate OptionallyWritable(text: Option<Text>, maximum: nat) {
    text.Some? ==> Writable(text.value, maximum)
  }

  lemma TextIsWrittenExactlyWhen(text: Text, width: nat, maximum: nat)
    requires (width == 1 && maximum < 0x100) || (width == 2 && maximum < 0x1_0000)
    ensures TextField(text, width, maximum).Ok? <==> Writable(text, maximum)
  {
    hide IsSpace;
    Widths();
  }

  lemma IntIsWrittenExactlyWhen(value: int)
    ensures IntField(value, 1).Ok? <==> 0 <= value < 0x100
    ensures IntField(value, 2).Ok? <==> 0 <= value < 0x1_0000
    ensures IntField(value, 4).Ok? <==> 0 <= value < 0x1_0000_0000
    ensures IntField(value, 8).Ok? <==> 0 <= value < 0x1_0000_0000_0000_0000
  {
    hide LittleEndian;
    Widths();
  }

  // ----- Operations -----

  ghost predicate WritableFields(names: Names, amounts: Amounts, dependencies: seq<Text>) {
    && OptionallyWritable(names.source, 256) && OptionallyWritable(names.target, 256)
    && OptionallyWritable(names.reason, 512)
    && 0 <= amounts.costUs < 0x1_0000_0000 && 0 <= amounts.sizeBytes < 0x1_0000_0000_0000_0000
    && (amounts.frame.Some? ==> 0 <= amounts.frame.value < 0x1_0000_0000_0000_0000)
    && |dependencies| <= 32 && forall d | d in dependencies :: Writable(d, 256)
  }

  lemma {:induction false} IdentifiersAreWrittenExactlyWhen(texts: seq<Text>)
    ensures Identifiers(texts).Ok? <==> forall t | t in texts :: Writable(t, 256)
  {
    hide TextField, Writable;
    if texts != [] {
      var prior, last := texts[..|texts| - 1], texts[|texts| - 1];
      IdentifiersAreWrittenExactlyWhen(prior);
      TextIsWrittenExactlyWhen(last, 2, 256);
      assert texts == prior + [last];
    }
  }

  lemma OptionalIsWrittenExactlyWhen(text: Option<Text>, maximum: nat)
    requires maximum < 0x1_0000
    ensures OptionalText(text, maximum).Ok? <==> OptionallyWritable(text, maximum)
  {
    hide TextField, Writable;
    if text.Some? {
      TextIsWrittenExactlyWhen(text.value, 2, maximum);
    }
  }

  lemma FieldsAreWrittenExactlyWhen(names: Names, amounts: Amounts, dependencies: seq<Text>)
    ensures NamesField(names).Ok? && AmountsField(amounts).Ok? && DependenciesField(dependencies).Ok? <==>
            WritableFields(names, amounts, dependencies)
  {
    hide OptionalText, OptionallyWritable, IntField, Identifiers, Writable;
    OptionalIsWrittenExactlyWhen(names.source, 256);
    OptionalIsWrittenExactlyWhen(names.target, 256);
    OptionalIsWrittenExactlyWhen(names.reason, 512);
    IntIsWrittenExactlyWhen(amounts.costUs);
    IntIsWrittenExactlyWhen(amounts.sizeBytes);
    if amounts.frame.Some? {
      IntIsWrittenExactlyWhen(amounts.frame.value);
    }
    IntIsWrittenExactlyWhen(|dependencies|);
    IdentifiersAreWrittenExactlyWhen(dependencies);
  }

  /** A batch can be sent exactly when its id, its count and all its fields are in range. */
  lemma BatchIsSentExactlyWhen(batch: OperationBatch)
    ensures EncodeBatch(batch).Ok? <==>
            && FrameCodec.Identity(batch.batchId) && 1 <= batch.count <= 256
            && WritableFields(batch.names, batch.amounts, batch.dependencies)
  {
    hide NamesField, AmountsField, DependenciesField, WritableFields, AllZero, IntField;
    FieldsAreWrittenExactlyWhen(batch.names, batch.amounts, batch.dependencies);
    IntIsWrittenExactlyWhen(batch.count);
    IntIsWrittenExactlyWhen(KindCode(batch.kind));
    IntIsWrittenExactlyWhen(QueueCode(batch.queue));
    IntIsWrittenExactlyWhen(Presence(batch));
    if BatchPayload(batch).Ok? {
      BatchesAlwaysFit(batch);
    }
  }

  /** An operation event can be sent exactly when its id and all its fields are in range. */
  lemma OperationIsSentExactlyWhen(event: OperationEvent)
    ensures EncodeOperationEvent(event).Ok? <==>
            Writable(event.id, 256) && WritableFields(event.names, event.amounts, event.dependencies)
  {
    hide NamesField, AmountsField, DependenciesField, WritableFields, IntField, TextField, Writable;
    FieldsAreWrittenExactlyWhen(event.names, event.amounts, event.dependencies);
    TextIsWrittenExactlyWhen(event.id, 2, 256);
    IntIsWrittenExactlyWhen(KindCode(event.kind));
    IntIsWrittenExactlyWhen(QueueCode(event.queue));
    IntIsWrittenExactlyWhen(PresenceOf(event));
    if EventPayload(event).Ok? {
      EventsAlwaysFit(event);
    }
  }

  // ----- Decisions -----

  ghost predicate WritableDecision(d: RuntimeDecision) {
    0 <= d.savedUs < 0x1_0000_0000_0000_0000 && 0 <= d.savedBytes < 0x1_0000_0000_0000_0000
  }

  lemma DecisionIsSentExactlyWhen(decision: RuntimeDecision)
    ensures DecisionField(decision).Ok? <==> WritableDecision(decision)
  {
    hide IntField;
    IntIsWrittenExactlyWhen(DecisionFlags(decision));
    IntIsWrittenExactlyWhen(decision.savedUs);
    IntIsWrittenExactlyWhen(decision.savedBytes);
  }

  /** An entry must say execute exactly when it executed. */
  ghost predicate WritableEntry(e: Entry) {
    && 0 <= e.opcode <= 6 && WritableDecision(e.decision)
    && e.decision.executed.Some? && (e.decision.executed.value <==> e.opcode == 0)
  }

  lemma EntryIsSentExactlyWhen(entry: Entry)
    ensures EntryField(entry).Ok? <==> WritableEntry(entry)
  {
    hide IntField, DecisionField;
    IntIsWrittenExactlyWhen(entry.opcode);
    DecisionIsSentExactlyWhen(entry.decision);
  }

  lemma {:induction false} EntriesAreSentExactlyWhen(entries: seq<Entry>)
    ensures EntriesField(entries).Ok? <==> forall e | e in entries :: WritableEntry(e)
  {
    hide EntryField, WritableEntry;
    if entries != [] {
      var prior, last := entries[..|entries| - 1], entries[|entries| - 1];
      EntriesAreSentExactlyWhen(prior);
      EntryIsSentExactlyWhen(last);
      assert entries == prior + [last];
    }
  }

  lemma VectorIsSentExactlyWhen(vector: DecisionVector)
    ensures EncodeVector(vector).Ok? <==>
            && FrameCodec.Identity(vector.batchId) && 1 <= |vector.entries| <= 256
            && forall e | e in vector.entries :: WritableEntry(e)
  {
    hide EntriesField, WritableEntry, IntField, AllZero;
    EntriesAreSentExactlyWhen(vector.entries);
    IntIsWrittenExactlyWhen(|vector.entries|);
    if VectorPayload(vector).Ok? {
      VectorsAlwaysFit(vector);
    }
  }

  lemma HelloIsSentExactlyWhen(hello: Hello)
    ensures EncodeHello(hello).Ok? <==>
            |hello.digest| == 32 && Writable(hello.clientName, 128) && Writable(hello.clientVersion, 64)
  {
    hide TextField, CapabilitiesField, Writable, MaskFor;
    TextIsWrittenExactlyWhen(hello.clientName, 1, 128);
    TextIsWrittenExactlyWhen(hello.clientVersion, 1, 64);
    CapabilitiesParseBack(hello.requested, []);
    CapabilitiesParseBack(hello.required, []);
    if TextField(hello.clientName, 1, 128).Ok? && TextField(hello.clientVersion, 1, 64).Ok? {
      HandshakeSizes(hello.requested, hello.required, hello.clientName, hello.clientVersion);
    }
  }

  // ----- Frames -----

  ghost predicate Zero(bytes: seq<Byte>) {
    forall i | 0 <= i < |bytes| :: bytes[i] == 0
  }

  lemma ZeroIsAllZero(bytes: seq<Byte>)
    ensures AllZero(bytes) <==> Zero(bytes)
  {
    forall i | 0 <= i < |bytes| ensures bytes[i] in bytes {
    }
  }

  lemma {:induction false} ReadsZeroExactlyWhen(bytes: seq<Byte>)
    ensures FromLittleEndian(bytes) == 0 <==> Zero(bytes)
  {
    if bytes != [] {
      ReadsZeroExactlyWhen(bytes[1..]);
      assert bytes == [bytes[0]] + bytes[1..];
      if Zero(bytes) {
        forall i | 0 <= i < |bytes[1..]| ensures bytes[1..][i] == 0 {
          assert bytes[i + 1] == 0;
        }
      }
    }
  }

  /** The first 56 bytes as the protocol wants them. */
  ghost predicate SoundHeader(data: seq<Byte>)
    requires |data| >= 56
  {
    && data[..4] == [0x46, 0x4C, 0x4E, 0x4B] && data[4] == 2
    && (data[5] == 1 || data[5] == 2)
    && data[9] < 4 && (data[5] == 1 ==> data[9] % 2 == 0)
    && Zero(data[10..12]) && !Zero(data[12..20]) && !Zero(data[20..36])
    && (data[9] >= 2 <==> !Zero(data[36..52]))
  }

  /** A byte string is a frame exactly when its header is sound and announces the bytes that follow, at most 65535. */
  lemma AcceptedExactlyWhen(data: seq<Byte>)
    ensures FrameCodec.Decode(data).Ok? <==>
            && |data| >= 56 && SoundHeader(data)
            && |data| == 56 + FromLittleEndian(data[52..56]) <= 56 + 65535
  {
    hide FromLittleEndian;
    Widths();
    if |data| >= 56 {
      ReadsZeroExactlyWhen(data[10..12]);
      ReadsZeroExactlyWhen(data[12..20]);
      BytesRoundTrip(data[12..20]);
      ZeroIsAllZero(data[20..36]);
      ZeroIsAllZero(data[36..52]);
    }
  }
}
