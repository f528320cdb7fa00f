/**
  From an engine's operation to the wire and back: what the adapter submits is the
  operation the engine wrote, and the ids of a batch read back.
 */
module WireOperations {
  import opened Wrappers
  import opened Bytes
  import opened Utf8
  import opened PayloadCodec
  import opened OperationEvents
  import opened BatchHandler
  import opened OperationHandler
  import Runtime

  // ----- What an engine writes -----

  function TextOfName(name: Option<string>): Option<Text> {
    match name case None => None case Some(n) => Some(Ascii(n))
  }

  function TextOfReason(reason: string): Option<Text> {
    if reason == "" then None else Some(Ascii(reason))
  }

  /** The six queues an engine can name. */
  ghost predicate Queues(name: string, queue: Queue) {
    match queue
    case UnknownQueue => name == "unknown"
    case CpuQueue => name == "cpu"
    case CopyQueue => name == "copy"
    case GraphicsQueue => name == "graphics"
    case ComputeQueue => name == "compute"
    case PresentQueue => name == "present"
  }

  /** A name that stripping leaves alone. */
  ghost predicate Trim(name: string) {
    name != "" && Strip(Ascii(name)) == Ascii(name)
  }

  /** An operation as an engine may hold it: trimmed names, a queue of the six, a cost in whole microseconds. */
  ghost predicate Writes(op: Runtime.Operation, queue: Queue, micros: nat) {
    && (op.source.Some? ==> Trim(op.source.value)) && (op.target.Some? ==> Trim(op.target.value))
    && Queues(op.queue, queue)
    && op.cost * 1000.0 == micros as real
  }

  function NamesFor(op: Runtime.Operation): Names {
    Names(TextOfName(op.source), TextOfName(op.target), TextOfReason(op.reason))
  }

  function AmountsFor(op: Runtime.Operation, micros: nat): Amounts {
    Amounts(micros, op.size, op.frame)
  }

  function DependenciesFor(op: Runtime.Operation): seq<Text> {
    seq(|op.dependsOn|, i requires 0 <= i < |op.dependsOn| => Ascii(op.dependsOn[i]))
  }

  function EventFor(op: Runtime.Operation, queue: Queue, micros: nat): OperationEvent {
    OperationEvent(op.kind, queue, Ascii(op.id), NamesFor(op), AmountsFor(op, micros), DependenciesFor(op))
  }

  function BatchFor(op: Runtime.Operation, queue: Queue, micros: nat, batchId: seq<Byte>, count: nat): OperationBatch {
    OperationBatch(batchId, count, op.kind, queue, NamesFor(op), AmountsFor(op, micros), DependenciesFor(op))
  }

  // ----- What the adapter reads -----

  lemma CharsOfAscii(s: string)
    ensures Chars(Ascii(s)) == s
  {
    var text := Ascii(s);
    forall i | 0 <= i < |s| ensures Chars(text)[i] == s[i] {
      assert text[i] in text && !IsSurrogate(text[i]);
    }
  }

  lemma FieldsReadBack(op: Runtime.Operation, queue: Queue, micros: nat)
    requires Writes(op, queue, micros)
    ensures ResourceName(TextOfName(op.source)) == op.source && ResourceName(TextOfName(op.target)) == op.target
    ensures QueueName(queue) == op.queue && ReasonText(TextOfReason(op.reason)) == op.reason
    ensures Millis(micros) == op.cost
  {
    hide Chars, Strip;
    CharsOfAscii(op.reason);
    if op.source.Some? { CharsOfAscii(op.source.value); }
    if op.target.Some? { CharsOfAscii(op.target.value); }
  }

  lemma DependenciesReadBack(op: Runtime.Operation)
    ensures seq(|DependenciesFor(op)|, i requires 0 <= i < |DependenciesFor(op)| => Chars(DependenciesFor(op)[i])) ==
            op.dependsOn
  {
    hide Chars, Ascii;
    forall i | 0 <= i < |op.dependsOn| ensures Chars(Ascii(op.dependsOn[i])) == op.dependsOn[i] {
      CharsOfAscii(op.dependsOn[i]);
    }
  }

  /** An operation event describes the operation it was written for. */
  lemma EventsDescribeTheirOperation(op: Runtime.Operation, queue: Queue, micros: nat)
    requires Writes(op, queue, micros) && Trim(op.id)
    ensures OperationOfEvent(EventFor(op, queue, micros)) == op
  {
    hide Chars, Strip, ResourceName, ReasonText, QueueName, Millis, Ascii, TextOfName, TextOfReason, Writes;
    FieldsReadBack(op, queue, micros);
    DependenciesReadBack(op);
    CharsOfAscii(op.id);
  }

  /** A batch describes the operation it was written for, once under each of its ids. */
  lemma BatchesDescribeTheirOperation(
    op: Runtime.Operation, queue: Queue, micros: nat, batchId: seq<Byte>, count: nat, ordinal: nat)
    requires Writes(op, queue, micros)
    ensures OperationOf(BatchFor(op, queue, micros, batchId, count), ordinal) ==
            op.(id := OperationId(batchId, ordinal))
  {
    hide Chars, Strip, ResourceName, ReasonText, QueueName, Millis, Ascii, TextOfName, TextOfReason, Writes,
         OperationId;
    FieldsReadBack(op, queue, micros);
    DependenciesReadBack(op);
  }

  /** Savings are reported in the nearest whole microsecond, halves rounded up. */
  lemma MicrosAreNearest(cost: Runtime.Cost)
    ensures -0.5 < Micros(cost) as real - cost * 1000.0 <= 0.5
  {
  }

  // ----- The ids of a batch -----

  /** What a digit stands for. */
  ghost function ValueOf(c: char): int {
    if '0' <= c <= '9' then c as int - '0' as int
    else if 'a' <= c <= 'f' then c as int - 'a' as int + 10
    else -1
  }

  lemma DigitsReadBack(value: nat)
    requires value < 16
    ensures ValueOf(Digit(value)) == value
  {
  }

  /** Two digits a byte, the high one first. */
  lemma {:induction false} HexReadsBack(bytes: seq<Byte>, i: nat)
    requires i < |bytes|
    ensures |Hex(bytes)| == 2 * |bytes|
    ensures 16 * ValueOf(Hex(bytes)[2 * i]) + ValueOf(Hex(bytes)[2 * i + 1]) == bytes[i]
  {
    hide Digit, ValueOf;
    DigitsReadBack(bytes[0] / 16);
    DigitsReadBack(bytes[0] % 16);
    if |bytes| > 1 {
      HexReadsBack(bytes[1..], if i > 0 then i - 1 else 0);
    }
    if i > 0 {
      assert Hex(bytes)[2 * i] == Hex(bytes[1..])[2 * (i - 1)];
      assert Hex(bytes)[2 * i + 1] == Hex(bytes[1..])[2 * (i - 1) + 1];
    }
  }

  /** The id of an operation names its batch in hexadecimal and its ordinal in three decimal digits. */
  lemma OperationIdsReadBack(batchId: seq<Byte>, ordinal: nat)
    requires |batchId| == 16 && ordinal < 1000
    ensures |OperationId(batchId, ordinal)| == 42
    ensures OperationId(batchId, ordinal)[..6] == "batch-" && OperationId(batchId, ordinal)[38] == '-'
    ensures OperationId(batchId, ordinal)[6..38] == Hex(batchId)
    ensures var id := OperationId(batchId, ordinal);
            100 * ValueOf(id[39]) + 10 * ValueOf(id[40]) + ValueOf(id[41]) == ordinal
  {
    hide Hex, Digit, ValueOf;
    HexReadsBack(batchId, 0);
    ThreeDigits(ordinal);
    DigitsReadBack(ordinal / 100 % 10);
    DigitsReadBack(ordinal / 10 % 10);
    DigitsReadBack(ordinal % 10);
    assert |Hex(batchId)| == 32;
  }
}
