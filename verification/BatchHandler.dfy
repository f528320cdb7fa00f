/**
  The adapter session as the event handler behind operation batches: which
  operations a batch stands for, what the optimizer answers, and what the client
  is sent.
 */
module BatchHandler {
  import opened Wrappers
  import opened Bytes
  import opened Utf8
  import opened Control
  import opened PayloadCodec
  import opened DecisionCodec
  import opened Session
  import opened SessionSafety
  import FrameCodec
  import Ledger
  import Runtime

  // ----- The operations of a batch -----

  /** A decoded text as the runtime holds it; decoded texts have no surrogates to replace. */
  function Chars(text: Text): string {
    seq(|text|, i requires 0 <= i < |text| => if IsSurrogate(text[i]) then '?' else text[i] as char)
  }

  function Digit(value: nat): char
    requires value < 16
  {
    "0123456789abcdef"[value]
  }

  function Hex(bytes: seq<Byte>): string {
    if bytes == [] then "" else [Digit(bytes[0] / 16), Digit(bytes[0] % 16)] + Hex(bytes[1..])
  }

  function Padded(ordinal: nat): (digits: string)
    ensures |digits| == 3
  {
    [Digit(ordinal / 100 % 10), Digit(ordinal / 10 % 10), Digit(ordinal % 10)]
  }

  /** The identifier of the operation at an ordinal, its number padded to three digits. */
  function OperationId(batchId: seq<Byte>, ordinal: nat): string {
    "batch-" + Hex(batchId) + "-" + Padded(ordinal)
  }

  function QueueName(queue: Queue): string {
    match queue
    case UnknownQueue => "unknown" case CpuQueue => "cpu" case CopyQueue => "copy"
    case GraphicsQueue => "graphics" case ComputeQueue => "compute" case PresentQueue => "present"
  }

  /** Surrounding blanks do not belong to a resource id. */
  function ResourceName(text: Option<Text>): Option<string> {
    match text
    case None => None
    case Some(t) => if Strip(t) == [] then None else Some(Chars(Strip(t)))
  }

  function ReasonText(text: Option<Text>): string {
    match text case None => "" case Some(t) => Chars(t)
  }

  /** Milliseconds from wire microseconds, and back, halves rounded up. */
  function Millis(micros: int): Runtime.Cost {
    if micros < 0 then 0.0 else micros as real / 1000.0
  }

  function Micros(cost: Runtime.Cost): nat {
    (cost * 1000.0 + 0.5).Floor
  }

  lemma MicrosRoundTrip(micros: nat)
    ensures Micros(Millis(micros)) == micros
  {
    assert (micros as real / 1000.0) * 1000.0 == micros as real;
    assert (micros as real + 0.5).Floor == micros;
  }

  function OperationOf(batch: OperationBatch, ordinal: nat): Runtime.Operation {
    Runtime.Operation(
      OperationId(batch.batchId, ordinal), batch.kind,
      ResourceName(batch.names.source), ResourceName(batch.names.target),
      QueueName(batch.queue), ReasonText(batch.names.reason),
      Millis(batch.amounts.costUs), if batch.amounts.sizeBytes < 0 then 0 else batch.amounts.sizeBytes,
      batch.amounts.frame,
      seq(|batch.dependencies|, i requires 0 <= i < |batch.dependencies| => Chars(batch.dependencies[i])))
  }

  function Identifiers(batch: OperationBatch, count: nat): seq<string> {
    seq(count, i requires 0 <= i < count => OperationId(batch.batchId, i))
  }

  lemma ThreeDigits(i: nat)
    requires i < 1000
    ensures i == 100 * (i / 100 % 10) + 10 * (i / 10 % 10) + i % 10
  {
    assert i / 100 < 10 && i / 10 == 10 * (i / 100) + i / 10 % 10;
  }

  lemma PaddedDiffer(i: nat, j: nat)
    requires i < 1000 && j < 1000 && Padded(i) == Padded(j)
    ensures i == j
  {
    hide Digit;
    assert Padded(i)[0] == Padded(j)[0] && Padded(i)[1] == Padded(j)[1] && Padded(i)[2] == Padded(j)[2];
    DigitsDiffer(i / 100 % 10, j / 100 % 10);
    DigitsDiffer(i / 10 % 10, j / 10 % 10);
    DigitsDiffer(i % 10, j % 10);
    ThreeDigits(i);
    ThreeDigits(j);
  }

  lemma IdentifiersDiffer(batchId: seq<Byte>, i: nat, j: nat)
    requires i < 1000 && j < 1000 && OperationId(batchId, i) == OperationId(batchId, j)
    ensures i == j
  {
    hide Hex, Padded;
    SameEnds("batch-" + Hex(batchId) + "-", Padded(i), Padded(j));
    PaddedDiffer(i, j);
  }

  lemma SameEnds(front: string, a: string, b: string)
    requires front + a == front + b
    ensures a == b
  {
    assert (front + a)[|front|..] == a && (front + b)[|front|..] == b;
  }

  lemma DigitsDiffer(a: nat, b: nat)
    requires a < 16 && b < 16
    ensures Digit(a) == Digit(b) ==> a == b
  {
  }

  // ----- The handler -----

  /** How the adapter reports a verdict. */
  function ReplyFor(verdict: Verdict): Reply {
    match verdict
    case Execute => Answers(true, Some(OperationResult(None, true)))
    case Removed(policy, savedCost, savedSize) =>
      Answers(true, Some(OperationResult(Some(DecisionReport(Some(policy), Micros(savedCost), savedSize)), false)))
  }

  /** How the adapter treats ordinary events is left open. */
  type Ordinary = (Ledger.Session, int, seq<Byte>) -> (Ledger.Session, Reply)

  ghost function Serve(s: Ledger.Session, ordinary: Ordinary, event: Event): (Ledger.Session, Reply) {
    match event
    case RuntimeEvent(opcode, payload) => ordinary(s, opcode, payload)
    case BatchOperation(batch, ordinal) =>
      var op := OperationOf(batch, ordinal);
      match Runtime.Process(s.table, s.provenance, Ledger.Stamped(s, op))
      case Err(_) => (Ledger.OnSubmit(s, op).0, Raises(Ascii("Duplicate operation id: " + op.id)))
      case Ok(step) => (Ledger.OnSubmit(s, op).0, ReplyFor(VerdictOf(step.decision)))
  }

  /** The session after a history of events, and the reply to the last of them. */
  ghost function Replay(start: Ledger.Session, ordinary: Ordinary, events: seq<Event>): (Ledger.Session, Reply) {
    if events == [] then (start, Answers(true, None))
    else Serve(Replay(start, ordinary, events[..|events| - 1]).0, ordinary, events[|events| - 1])
  }

  ghost function AdapterScript(start: Ledger.Session, ordinary: Ordinary): Script {
    (events: seq<Event>) => Replay(start, ordinary, events).1
  }

  lemma ReplayOneMore(start: Ledger.Session, ordinary: Ordinary, log: seq<Call>, call: Call)
    ensures Replay(start, ordinary, Events(log + [call])) ==
            Serve(Replay(start, ordinary, Events(log)).0, ordinary, call.event)
  {
    hide Serve;
    var events := Events(log + [call]);
    assert events[..|events| - 1] == Events(log);
  }

  // ----- The verdicts of a batch -----

  ghost predicate AllFresh(state: Runtime.Provenance, ids: seq<string>) {
    forall id | id in ids :: id !in state.operationIds
  }

  ghost predicate AllDistinct(ids: seq<string>) {
    forall i, j | 0 <= i < j < |ids| :: ids[i] != ids[j]
  }

  lemma LastIsNew(prior: seq<string>, last: string)
    requires AllDistinct(prior + [last])
    ensures AllDistinct(prior) && last !in prior
  {
    var ids := prior + [last];
    forall i, j | 0 <= i < j < |prior| ensures prior[i] != prior[j] {
      assert ids[i] == prior[i] && ids[j] == prior[j];
    }
    forall i | 0 <= i < |prior| ensures prior[i] != last {
      assert ids[i] == prior[i] && ids[|prior|] == last;
    }
  }

  /** Submitting under distinct ids succeeds exactly when all of them are fresh. */
  lemma {:induction false} SubmitAllNeedsFreshIds(
    table: Runtime.Table, state: Runtime.Provenance, template: Runtime.Operation, ids: seq<string>)
    requires AllDistinct(ids)
    ensures var run := SubmitAll(table, state, template, ids);
            && (run.Ok? <==> AllFresh(state, ids))
            && (run.Ok? ==> run.value.0.operationIds == state.operationIds + set id | id in ids)
    decreases |ids|
  {
    hide Runtime.Process, AllDistinct;
    if ids != [] {
      var prior, last := ids[..|ids| - 1], ids[|ids| - 1];
      assert ids == prior + [last];
      LastIsNew(prior, last);
      SubmitAllNeedsFreshIds(table, state, template, prior);
      var run := SubmitAll(table, state, template, prior);
      if run.Ok? {
        Runtime.ProcessAccounts(table, run.value.0, template.(id := last));
        assert (set id | id in ids) == (set id | id in prior) + {last};
      }
    }
  }

  /** No verdict saves more than the operation itself. */
  ghost predicate Modest(verdict: Verdict, template: Runtime.Operation) {
    verdict.Removed? ==> verdict.savedCost == template.cost && verdict.savedSize <= template.size
  }

  lemma {:induction false} VerdictsAreModest(
    table: Runtime.Table, state: Runtime.Provenance, template: Runtime.Operation, ids: seq<string>)
    requires SubmitAll(table, state, template, ids).Ok?
    ensures forall v | v in SubmitAll(table, state, template, ids).value.1 :: Modest(v, template)
    decreases |ids|
  {
    hide Runtime.Process;
    if ids != [] {
      VerdictsAreModest(table, state, template, ids[..|ids| - 1]);
      var before := SubmitAll(table, state, template, ids[..|ids| - 1]).value.0;
      DecisionIsModest(table, before, template.(id := ids[|ids| - 1]));
    }
  }

  lemma DecisionIsModest(table: Runtime.Table, state: Runtime.Provenance, op: Runtime.Operation)
    requires Runtime.Process(table, state, op).Ok?
    ensures Modest(VerdictOf(Runtime.Process(table, state, op).value.decision), op)
  {
    hide Runtime.Decide, Runtime.Drop, Runtime.Keep, Runtime.Dedup, Runtime.ResolveAll;
    if Runtime.Decide(table, state, op).Some? {
      Runtime.DroppedCostIsSaved(table, state, op, Runtime.Decide(table, state, op).value);
    }
  }

  /** The session a batch finds, the operation it repeats there, and the ids it submits. */
  ghost function Found(start: Ledger.Session, ordinary: Ordinary, log: seq<Call>): Ledger.Session {
    Replay(start, ordinary, Events(log)).0
  }

  ghost function Template(s: Ledger.Session, batch: OperationBatch): Runtime.Operation {
    Ledger.Stamped(s, OperationOf(batch, 0))
  }

  ghost function Repeated(s: Ledger.Session, batch: OperationBatch, ordinal: nat): Runtime.Operation {
    Template(s, batch).(id := OperationId(batch.batchId, ordinal))
  }

  ghost function Submitted(s: Ledger.Session, batch: OperationBatch, count: nat)
    : (r: Result<(Runtime.Provenance, seq<Verdict>), Runtime.Error>)
    ensures r.Ok? ==> |r.value.1| == count
  {
    SubmitAll(s.table, s.provenance, Template(s, batch), Identifiers(batch, count))
  }

  /** Two sessions that treat a batch operation alike. */
  ghost predicate SameBackground(s: Ledger.Session, next: Ledger.Session) {
    next.table == s.table && next.current == s.current
  }

  lemma SubmittedOneMore(s: Ledger.Session, batch: OperationBatch, count: nat)
    ensures Submitted(s, batch, count + 1) ==
            match Submitted(s, batch, count)
            case Err(e) => Err(e)
            case Ok(before) =>
              match Runtime.Process(s.table, before.0, Repeated(s, batch, count))
              case Err(e) => Err(e)
              case Ok(step) => Ok((step.state, before.1 + [VerdictOf(step.decision)]))
  {
    hide Runtime.Process, OperationId, OperationOf;
    var ids := Identifiers(batch, count + 1);
    assert ids[..count] == Identifiers(batch, count);
  }

  lemma ServesOneMore(s: Ledger.Session, now: Ledger.Session, ordinary: Ordinary, batch: OperationBatch, ordinal: nat)
    requires SameBackground(s, now)
    ensures var step := Runtime.Process(s.table, now.provenance, Repeated(s, batch, ordinal));
            var (next, reply) := Serve(now, ordinary, BatchOperation(batch, ordinal));
            && SameBackground(s, next)
            && (match step
                case Ok(outcome) => next.provenance == outcome.state && reply == ReplyFor(VerdictOf(outcome.decision))
                case Err(_) => reply.Raises? && Encodable(reply.message))
  {
    hide Runtime.Process, OperationId, Ledger.Booked, ReplyFor, ResourceName, ReasonText, Millis, QueueName, Chars;
    assert OperationOf(batch, ordinal) == OperationOf(batch, 0).(id := OperationId(batch.batchId, ordinal));
    assert Ledger.Stamped(now, OperationOf(batch, ordinal)) == Repeated(s, batch, ordinal);
  }

  /** What the handler says to the operation at an ordinal, after the earlier ones. */
  lemma BatchReply(
    start: Ledger.Session, ordinary: Ordinary, log: seq<Call>, sequence: int, batch: OperationBatch, i: nat)
    ensures var before := Found(start, ordinary, log + Calls(sequence, batch, i));
            Serve(before, ordinary, BatchOperation(batch, i)) ==
            (Found(start, ordinary, log + Calls(sequence, batch, i + 1)),
             OneAtATime(AdapterScript(start, ordinary), log, sequence, batch, i))
  {
    hide Serve, Replay;
    var call := Call(sequence, BatchOperation(batch, i));
    assert log + Calls(sequence, batch, i + 1) == (log + Calls(sequence, batch, i)) + [call];
    ReplayOneMore(start, ordinary, log + Calls(sequence, batch, i), call);
  }

  /**
    The handler's replies to a batch are the optimizer's verdicts on its operations
    submitted one after the other, and it raises at the first id already taken.
   */
  lemma {:induction false} BatchIsSubmitted(
    start: Ledger.Session, ordinary: Ordinary, log: seq<Call>, sequence: int, batch: OperationBatch, count: nat)
    ensures var s, now := Found(start, ordinary, log), Found(start, ordinary, log + Calls(sequence, batch, count));
            && SameBackground(s, now)
            && (Submitted(s, batch, count).Ok? ==> now.provenance == Submitted(s, batch, count).value.0)
    ensures var s := Found(start, ordinary, log);
            Submitted(s, batch, count).Ok? ==>
              forall i | 0 <= i < count ::
                OneAtATime(AdapterScript(start, ordinary), log, sequence, batch, i) ==
                ReplyFor(Submitted(s, batch, count).value.1[i])
    decreases count
  {
    hide Serve, Replay, OneAtATime, Runtime.Process, OperationId, Submitted, ReplyFor;
    var s := Found(start, ordinary, log);
    if count == 0 {
      assert log + Calls(sequence, batch, 0) == log;
      NothingSubmitted(s, batch);
    } else {
      var now := Found(start, ordinary, log + Calls(sequence, batch, count - 1));
      BatchIsSubmitted(start, ordinary, log, sequence, batch, count - 1);
      BatchReply(start, ordinary, log, sequence, batch, count - 1);
      ServesOneMore(s, now, ordinary, batch, count - 1);
      SubmittedOneMore(s, batch, count - 1);
    }
  }

  lemma NothingSubmitted(s: Ledger.Session, batch: OperationBatch)
    ensures Submitted(s, batch, 0) == Ok((s.provenance, []))
  {
  }

  // ----- What the client is sent -----

  function EntryFor(verdict: Verdict): Entry {
    match verdict
    case Execute => Entry(EXECUTE, RuntimeDecision(true, Some(true), 0, 0))
    case Removed(policy, savedCost, savedSize) =>
      Entry(PolicyOpcode(Some(policy)), RuntimeDecision(true, Some(false), Micros(savedCost), savedSize))
  }

  function EntriesFor(verdicts: seq<Verdict>): (r: seq<Entry>)
    ensures |r| == |verdicts| && forall i | 0 <= i < |r| :: r[i] == EntryFor(verdicts[i])
  {
    seq(|verdicts|, i requires 0 <= i < |verdicts| => EntryFor(verdicts[i]))
  }

  /** Every entry executes, or every entry is removed alike, or one executes and the rest are removed alike. */
  ghost predicate UniformEntries(entries: seq<Entry>) {
    || (forall i, j | 0 <= i < |entries| && 0 <= j < |entries| :: entries[i] == entries[j])
    || (&& entries[0].opcode == EXECUTE
        && forall i | 1 <= i < |entries| :: entries[i].opcode != EXECUTE && entries[i] == entries[1])
  }

  lemma EntriesAreValid(verdict: Verdict)
    ensures Compact(OPERATION_EVENT, ReplyFor(verdict)) == Ok(EntryFor(verdict))
    ensures ValidEntry(EntryFor(verdict))
    ensures EntryFor(verdict).opcode == EXECUTE <==> verdict.Execute?
  {
    hide Micros;
  }

  /** The loop over a batch succeeds as long as no id was taken, and then yields the verdicts' entries. */
  lemma {:induction false} BatchEntries(
    start: Ledger.Session, ordinary: Ordinary, log: seq<Call>, sequence: int, batch: OperationBatch, count: nat)
    ensures var s := Found(start, ordinary, log);
            var (after, entries) := HandleBatchOperations(AdapterScript(start, ordinary), log, sequence, batch, count);
            && (entries.Ok? <==> Submitted(s, batch, count).Ok?)
            && (entries.Ok? ==>
                  && after == log + Calls(sequence, batch, count)
                  && entries.value == EntriesFor(Submitted(s, batch, count).value.1))
    decreases count
  {
    hide Serve, Replay, Runtime.Process, OperationId, Submitted, ReplyFor, EntryFor, Compact, AdapterScript;
    var s := Found(start, ordinary, log);
    if count == 0 {
      NothingSubmitted(s, batch);
    } else {
      BatchEntries(start, ordinary, log, sequence, batch, count - 1);
      SubmittedOneMore(s, batch, count - 1);
      if Submitted(s, batch, count - 1).Ok? {
        var now := Found(start, ordinary, log + Calls(sequence, batch, count - 1));
        var call := Call(sequence, BatchOperation(batch, count - 1));
        assert (log + Calls(sequence, batch, count - 1)) + [call] == log + Calls(sequence, batch, count);
        BatchIsSubmitted(start, ordinary, log, sequence, batch, count - 1);
        BatchReply(start, ordinary, log, sequence, batch, count - 1);
        ServesOneMore(s, now, ordinary, batch, count - 1);
        var reply := OneAtATime(AdapterScript(start, ordinary), log, sequence, batch, count - 1);
        CompactedReply(s, now, batch, count - 1, reply);
      }
    }
  }

  lemma CompactedReply(s: Ledger.Session, now: Ledger.Session, batch: OperationBatch, ordinal: nat, reply: Reply)
    requires var step := Runtime.Process(s.table, now.provenance, Repeated(s, batch, ordinal));
             match step
             case Ok(outcome) => reply == ReplyFor(VerdictOf(outcome.decision))
             case Err(_) => reply.Raises?
    ensures var step := Runtime.Process(s.table, now.provenance, Repeated(s, batch, ordinal));
            match step
            case Ok(outcome) => Compact(OPERATION_EVENT, reply) == Ok(EntryFor(VerdictOf(outcome.decision)))
            case Err(_) => Compact(OPERATION_EVENT, reply).Err?
  {
    var step := Runtime.Process(s.table, now.provenance, Repeated(s, batch, ordinal));
    hide Runtime.Process, OperationId, ReplyFor, EntryFor, Template;
    if step.Ok? {
      EntriesAreValid(VerdictOf(step.value.decision));
    }
  }

  lemma DecodedBatchIsBounded(payload: seq<Byte>)
    requires DecodeBatch(payload).Ok?
    ensures var batch := DecodeBatch(payload).value;
            && ValidBatchId(batch.batchId) && ValidCount(batch.count)
            && 0 <= batch.amounts.costUs < Pow256(4) && 0 <= batch.amounts.sizeBytes < Pow256(8)
  {
    hide TakeHead, TakeNames, TakeAmounts, TakeDependencies, LittleEndian, Pow256, AllZero;
  }

  lemma EntryEncodes(verdict: Verdict, template: Runtime.Operation, micros: nat)
    requires Modest(verdict, template) && template.cost == Millis(micros)
    requires micros < Pow256(8) && template.size < Pow256(8)
    ensures EntryField(EntryFor(verdict)).Ok?
  {
    hide LittleEndian, Mask, Micros, Millis;
    Widths();
    MicrosRoundTrip(micros);
    EntriesAreValid(verdict);
    var decision := EntryFor(verdict).decision;
    SmallMask(decision.accepted, decision.executed.Some?, decision.executed == Some(true));
  }

  lemma {:induction false} EntriesEncode(verdicts: seq<Verdict>, template: Runtime.Operation, micros: nat)
    requires forall v | v in verdicts :: Modest(v, template)
    requires template.cost == Millis(micros) && micros < Pow256(8) && template.size < Pow256(8)
    ensures EntriesField(EntriesFor(verdicts)).Ok?
    decreases |verdicts|
  {
    hide EntryField, Modest, Millis, Pow256, EntryFor;
    if verdicts != [] {
      var prior, last := verdicts[..|verdicts| - 1], verdicts[|verdicts| - 1];
      var entries := EntriesFor(verdicts);
      assert entries[..|entries| - 1] == EntriesFor(prior);
      EntriesEncode(prior, template, micros);
      EntryEncodes(last, template, micros);
    }
  }

  lemma VerdictsGiveUniformEntries(verdicts: seq<Verdict>)
    requires verdicts != [] && UniformVector(verdicts)
    ensures UniformEntries(EntriesFor(verdicts))
  {
    hide EntryFor;
    forall i | 0 <= i < |verdicts|
      ensures EntryFor(verdicts[i]).opcode == EXECUTE <==> verdicts[i].Execute?
    {
      EntriesAreValid(verdicts[i]);
    }
  }

  /** None of the ids a batch will submit was submitted before. */
  ghost predicate IdsAreFresh(s: Ledger.Session, batch: OperationBatch) {
    forall i | 0 <= i < batch.count :: OperationId(batch.batchId, i) !in s.provenance.operationIds
  }

  lemma SubmittedWhenFresh(s: Ledger.Session, batch: OperationBatch)
    requires ValidCount(batch.count)
    ensures Submitted(s, batch, batch.count).Ok? <==> IdsAreFresh(s, batch)
  {
    hide OperationId;
    var ids := Identifiers(batch, batch.count);
    forall i, j | 0 <= i < j < |ids| ensures ids[i] != ids[j] {
      if ids[i] == ids[j] {
        IdentifiersDiffer(batch.batchId, i, j);
      }
    }
    SubmitAllNeedsFreshIds(s.table, s.provenance, Template(s, batch), ids);
    forall i | 0 <= i < batch.count
      ensures OperationId(batch.batchId, i) in ids
    {
      assert ids[i] == OperationId(batch.batchId, i);
    }
  }

  lemma VerdictsOfBatch(s: Ledger.Session, batch: OperationBatch)
    requires ValidCount(batch.count) && ValidBatchId(batch.batchId) && Submitted(s, batch, batch.count).Ok?
    requires 0 <= batch.amounts.costUs < Pow256(4) && 0 <= batch.amounts.sizeBytes < Pow256(8)
    ensures var entries := EntriesFor(Submitted(s, batch, batch.count).value.1);
            UniformEntries(entries) && EncodeVector(DecisionVector(batch.batchId, entries)).Ok?
  {
    hide SubmitAll, EntriesField, LittleEndian, AllZero, UniformEntries, UniformVector, Modest, Millis, OperationId;
    var template, ids := Template(s, batch), Identifiers(batch, batch.count);
    var verdicts := Submitted(s, batch, batch.count).value.1;
    BatchSettles(s.table, s.provenance, template, ids);
    VerdictsGiveUniformEntries(verdicts);
    VerdictsAreModest(s.table, s.provenance, template, ids);
    Widths();
    EntriesEncode(verdicts, template, batch.amounts.costUs);
    VectorsAlwaysFit(DecisionVector(batch.batchId, EntriesFor(verdicts)));
  }

  ghost predicate MayBatch(state: State) {
    state.contractDigest == Some(BATCH_CONTRACT_DIGEST) && BatchedRuntimeEvents in state.accepted
  }

  /** The response of a batch is a vector under the batch's own id. */
  ghost predicate AnsweredBy(served: Served, batch: OperationBatch, entries: seq<Entry>) {
    && served.response.Some? && IsBatchResponse(served.response.value)
    && DecodeVector(served.response.value.payload) == Ok(DecisionVector(batch.batchId, entries))
  }

  lemma AnsweredBatch(
    world: World, state: State, log: seq<Call>, request: FrameCodec.Frame, batch: OperationBatch, entries: seq<Entry>)
    requires MayBatch(state) && DecodeBatch(request.payload) == Ok(batch) && 0 <= batch.count
    requires HandleBatchOperations(world.script, log, request.sequence, batch, batch.count).1 == Ok(entries)
    requires EncodeVector(DecisionVector(batch.batchId, entries)).Ok?
    ensures var served := HandleBatch(world, state, log, request);
            && served.state == state
            && served.log == HandleBatchOperations(world.script, log, request.sequence, batch, batch.count).0
            && AnsweredBy(served, batch, entries)
  {
    hide DecodeBatch, HandleBatchOperations, EncodeVector, DecodeVector;
    VectorParsesBack(DecisionVector(batch.batchId, entries));
  }

  lemma RefusedBatch(world: World, state: State, log: seq<Call>, request: FrameCodec.Frame, batch: OperationBatch)
    requires MayBatch(state) && DecodeBatch(request.payload) == Ok(batch) && 0 <= batch.count
    requires HandleBatchOperations(world.script, log, request.sequence, batch, batch.count).1.Err?
    ensures var served := HandleBatch(world, state, log, request);
            && served.state == state.(closed := true)
            && (served.response.Some? ==> !IsBatchResponse(served.response.value))
  {
    hide DecodeBatch, HandleBatchOperations, EncodeErrorPayload;
  }

  /** The entries the optimizer's verdicts on a batch are sent as. */
  ghost function EntriesOf(s: Ledger.Session, batch: OperationBatch): seq<Entry> {
    if batch.count < 0 || Submitted(s, batch, batch.count).Err? then []
    else EntriesFor(Submitted(s, batch, batch.count).value.1)
  }

  /**
    With the adapter session as handler, a batch is answered by the optimizer's
    verdicts on its operations, uniformly and with the session left open, exactly
    when none of its ids was submitted before; otherwise the session closes.
   */
  lemma OptimizerAnswersBatches(
    world: World, start: Ledger.Session, ordinary: Ordinary, state: State, log: seq<Call>, request: FrameCodec.Frame)
    requires world.script == AdapterScript(start, ordinary)
    requires MayBatch(state) && DecodeBatch(request.payload).Ok?
    ensures var batch, s := DecodeBatch(request.payload).value, Found(start, ordinary, log);
            var served, entries := HandleBatch(world, state, log, request), EntriesOf(s, batch);
            && 1 <= batch.count
            && (IdsAreFresh(s, batch) ==>
                  && served.state == state
                  && served.log == log + Calls(request.sequence, batch, batch.count)
                  && AnsweredBy(served, batch, entries)
                  && |entries| == batch.count && UniformEntries(entries))
            && (!IdsAreFresh(s, batch) ==>
                  && served.state == state.(closed := true)
                  && (served.response.Some? ==> !IsBatchResponse(served.response.value)))
  {
    hide DecodeBatch, HandleBatchOperations, HandleBatch, Submitted, EncodeVector, DecodeVector, UniformEntries,
         IdsAreFresh, AdapterScript, Found, MayBatch, AnsweredBy, IsBatchResponse, Pow256, AllZero, Calls, EntryFor;
    var batch, s := DecodeBatch(request.payload).value, Found(start, ordinary, log);
    DecodedBatchIsBounded(request.payload);
    SubmittedWhenFresh(s, batch);
    BatchEntries(start, ordinary, log, request.sequence, batch, batch.count);
    if Submitted(s, batch, batch.count).Ok? {
      VerdictsOfBatch(s, batch);
      AnsweredBatch(world, state, log, request, batch, EntriesOf(s, batch));
    } else {
      RefusedBatch(world, state, log, request, batch);
    }
  }
}
