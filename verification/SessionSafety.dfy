/**
  What every run of a FluidLink v2 session keeps, whatever the peer sends and
  whatever the event handler does.
 */
module SessionSafety {
  import opened Wrappers
  import opened Bytes
  import opened FrameCodec
  import opened PayloadCodec
  import opened DecisionCodec
  import opened Session

  // ----- One request -----

  /** Accepted capabilities never exceed what the negotiated contract offers. */
  ghost predicate Negotiated(state: State) {
    if state.sessionId.None? then !state.closed && state.accepted == {}
    else
      && state.contractDigest.Some?
      && Available(state.contractDigest.value).Some?
      && state.accepted <= Available(state.contractDigest.value).value
      && (state.contractDigest.value == BATCH_CONTRACT_DIGEST ==> BatchedRuntimeEvents in state.accepted)
  }

  /** The calls a request made are exactly those behind the log it started with. */
  ghost predicate Appended(before: seq<Call>, after: seq<Call>, sequence: int) {
    && |before| <= |after| && after[..|before|] == before
    && forall i | |before| <= i < |after| :: after[i].sequence == sequence
  }

  /** What a state may turn into: set once, closed for good. */
  ghost predicate Evolves(before: State, after: State) {
    && before.expectedSequence <= after.expectedSequence <= before.expectedSequence + 1
    && (before.sessionId.Some? ==>
          && after.sessionId == before.sessionId
          && after.contractDigest == before.contractDigest
          && after.accepted == before.accepted)
    && (before.closed ==> after == before)
  }

  /** Reaching the handler takes the next sequence number and the negotiated right to it. */
  ghost predicate MayReach(before: State, after: State, request: Frame) {
    && before.sessionId.Some? && request.sessionId == before.sessionId && !before.closed
    && request.sequence == before.expectedSequence
    && after.expectedSequence == before.expectedSequence + 1
    && REQUIRED_CAPABILITIES <= before.accepted
    && (request.subjectOpcode == BATCH_EVENT ==>
          before.contractDigest == Some(BATCH_CONTRACT_DIGEST) && BatchedRuntimeEvents in before.accepted)
  }

  lemma {:induction false} BatchCalls(script: Script, log: seq<Call>, sequence: int, batch: OperationBatch, count: nat)
    ensures var (after, entries) := HandleBatchOperations(script, log, sequence, batch, count);
            && Appended(log, after, sequence)
            && |after| <= |log| + count
            && (entries.Ok? ==> |entries.value| == count && |after| == |log| + count)
  {
    hide Compact;
    if count > 0 {
      BatchCalls(script, log, sequence, batch, count - 1);
    }
  }

  lemma FailuresKeep(state: State, log: seq<Call>, request: Frame)
    ensures forall code, message :: Fail(state, log, request, code, message).state == state
    ensures forall code, message :: Fail(state, log, request, code, message).log == log
  {
    hide EncodeErrorPayload;
  }

  lemma HelloIsSafe(world: World, state: State, log: seq<Call>, request: Frame, freshId: seq<Byte>)
    requires state.sessionId.None? && Negotiated(state)
    ensures var served := HandleHello(world, state, log, request, freshId);
            && served.log == log
            && Negotiated(served.state)
            && served.state.expectedSequence == state.expectedSequence
            && (served.state.sessionId.None? ==> served.state == state)
            && (served.state.sessionId.Some? ==>
                  && DecodeHello(request.payload).Ok?
                  && var hello := DecodeHello(request.payload).value;
                     && served.state.sessionId == Some(freshId)
                     && served.state.contractDigest == Some(hello.digest)
                     && hello.required <= served.state.accepted <= hello.requested + hello.required)
  {
    hide Wording, Fail, DecodeHello, EncodeWelcome;
    FailuresKeep(state, log, request);
  }

  lemma BatchIsSafe(world: World, state: State, log: seq<Call>, request: Frame)
    ensures var served := HandleBatch(world, state, log, request);
            && Appended(log, served.log, request.sequence)
            && served.state == state.(closed := served.state.closed)
            && (state.closed ==> served.state == state)
            && (served.log != log ==>
                  state.contractDigest == Some(BATCH_CONTRACT_DIGEST) && BatchedRuntimeEvents in state.accepted)
  {
    hide Wording, Fail, DecodeBatch, EncodeVector, HandleBatchOperations;
    var batch := DecodeBatch(request.payload);
    FailuresKeep(state, log, request);
    if batch.Ok? {
      FailuresKeep(state.(closed := true),
                   HandleBatchOperations(world.script, log, request.sequence, batch.value, Count(batch.value)).0,
                   request);
      BatchCalls(world.script, log, request.sequence, batch.value, Count(batch.value));
    }
  }

  /** What handling a request of a negotiated session may do to the state and the log. */
  ghost predicate Handled(state: State, log: seq<Call>, request: Frame, served: Served) {
    && Appended(log, served.log, request.sequence)
    && served.state == state.(closed := served.state.closed)
    && (served.log != log ==>
          && REQUIRED_CAPABILITIES <= state.accepted
          && (request.subjectOpcode == BATCH_EVENT ==>
                state.contractDigest == Some(BATCH_CONTRACT_DIGEST) && BatchedRuntimeEvents in state.accepted))
  }

  lemma EventIsSafe(world: World, state: State, log: seq<Call>, request: Frame)
    requires !state.closed
    ensures Handled(state, log, request, HandleRuntimeEvent(world, state, log, request))
  {
    hide Wording, Fail, HandleBatch, EventAnswer;
    var after := log + [Call(request.sequence, RuntimeEvent(request.subjectOpcode, request.payload))];
    FailuresKeep(state, log, request);
    FailuresKeep(state, after, request);
    BatchIsSafe(world, state, log, request);
  }

  lemma NegotiatedIsSafe(world: World, state: State, log: seq<Call>, request: Frame)
    requires !state.closed
    ensures Handled(state, log, request, HandleNegotiated(world, state, log, request))
  {
    hide Wording, Fail, HandleRuntimeEvent, DecodeNonce, TextField;
    FailuresKeep(state, log, request);
    EventIsSafe(world, state, log, request);
  }

  /** Everything the session promises about one request. */
  lemma StepIsSafe(world: World, state: State, log: seq<Call>, request: Frame, freshId: seq<Byte>)
    requires Negotiated(state)
    ensures var served := Process(world, state, log, request, freshId);
            && Negotiated(served.state)
            && Evolves(state, served.state)
            && Appended(log, served.log, request.sequence)
            && (served.log != log ==> MayReach(state, served.state, request))
  {
    hide Wording, Fail, HandleHello, HandleNegotiated;
    var next := state.(expectedSequence := state.expectedSequence + 1);
    FailuresKeep(state, log, request);
    FailuresKeep(next, log, request);
    if state.sessionId.None? {
      HelloIsSafe(world, next, log, request, freshId);
    } else if !state.closed {
      NegotiatedIsSafe(world, next, log, request);
    }
  }

  // ----- Whole runs -----

  /** What arrives from outside: a request, and the identifier a new session would get. */
  datatype Input = Input(request: Frame, freshId: seq<Byte>)

  function Run(world: World, inputs: seq<Input>): (State, seq<Call>) {
    if inputs == [] then (INITIAL, [])
    else
      var (state, log) := Run(world, inputs[..|inputs| - 1]);
      var last := inputs[|inputs| - 1];
      var served := Process(world, state, log, last.request, last.freshId);
      (served.state, served.log)
  }

  function StateAt(world: World, inputs: seq<Input>, k: nat): State
    requires k <= |inputs|
  {
    Run(world, inputs[..k]).0
  }

  function LogAt(world: World, inputs: seq<Input>, k: nat): seq<Call>
    requires k <= |inputs|
  {
    Run(world, inputs[..k]).1
  }

  ghost predicate Reaches(world: World, inputs: seq<Input>, k: nat)
    requires k < |inputs|
  {
    LogAt(world, inputs, k) != LogAt(world, inputs, k + 1)
  }

  lemma {:induction false} RunsStayNegotiated(world: World, inputs: seq<Input>)
    ensures Negotiated(Run(world, inputs).0)
  {
    hide Process;
    if inputs != [] {
      var prior, last := inputs[..|inputs| - 1], inputs[|inputs| - 1];
      RunsStayNegotiated(world, prior);
      StepIsSafe(world, Run(world, prior).0, Run(world, prior).1, last.request, last.freshId);
    }
  }

  lemma StepOfRun(world: World, inputs: seq<Input>, k: nat)
    requires k < |inputs|
    ensures var (state, next) := (StateAt(world, inputs, k), StateAt(world, inputs, k + 1));
            && Evolves(state, next)
            && Appended(LogAt(world, inputs, k), LogAt(world, inputs, k + 1), inputs[k].request.sequence)
            && (Reaches(world, inputs, k) ==> MayReach(state, next, inputs[k].request))
  {
    hide Process;
    assert inputs[..k + 1][..k] == inputs[..k];
    RunsStayNegotiated(world, inputs[..k]);
    var (state, log) := Run(world, inputs[..k]);
    StepIsSafe(world, state, log, inputs[k].request, inputs[k].freshId);
  }

  /**
    Over any stretch of any run: the session identity, contract and capabilities
    never change once set, a closed session never changes at all and never
    reaches the handler again, and sequence numbers only grow.
   */
  lemma {:induction false} RunsOnlyEvolve(world: World, inputs: seq<Input>, j: nat, k: nat)
    requires j <= k <= |inputs|
    ensures var (before, after) := (StateAt(world, inputs, j), StateAt(world, inputs, k));
            && before.expectedSequence <= after.expectedSequence
            && (before.sessionId.Some? ==>
                  && after.sessionId == before.sessionId
                  && after.contractDigest == before.contractDigest
                  && after.accepted == before.accepted)
            && (before.closed ==> after == before && LogAt(world, inputs, k) == LogAt(world, inputs, j))
    decreases k - j
  {
    hide Run;
    if j < k {
      RunsOnlyEvolve(world, inputs, j, k - 1);
      StepOfRun(world, inputs, k - 1);
    }
  }

  /** No two requests reach the handler under one sequence number, and later ones use larger numbers. */
  lemma HandlerSeesSequencesInOrder(world: World, inputs: seq<Input>, j: nat, k: nat)
    requires j < k < |inputs| && Reaches(world, inputs, j) && Reaches(world, inputs, k)
    ensures inputs[j].request.sequence < inputs[k].request.sequence
  {
    hide Run;
    StepOfRun(world, inputs, j);
    StepOfRun(world, inputs, k);
    RunsOnlyEvolve(world, inputs, j + 1, k);
  }

  /** The handler's log never runs backwards through the sequence numbers. */
  lemma {:induction false} LogIsInSequenceOrder(world: World, inputs: seq<Input>, a: nat, b: nat)
    requires a <= b
    ensures var (state, log) := Run(world, inputs);
            b < |log| ==> log[a].sequence <= log[b].sequence < state.expectedSequence
    decreases |inputs|
  {
    hide Process;
    if inputs != [] {
      var prior, last := inputs[..|inputs| - 1], inputs[|inputs| - 1];
      var (state, log) := Run(world, prior);
      RunsStayNegotiated(world, prior);
      StepIsSafe(world, state, log, last.request, last.freshId);
      if b < |log| {
        LogIsInSequenceOrder(world, prior, a, b);
      } else if a < |log| {
        LogIsInSequenceOrder(world, prior, a, a);
      }
    }
  }

  // ----- Batches -----

  /** The reply the handler gives to the i-th operation of a batch submitted on its own after the earlier ones. */
  ghost function OneAtATime(script: Script, log: seq<Call>, sequence: int, batch: OperationBatch, i: nat): Reply {
    script(Events(log + Calls(sequence, batch, i + 1)))
  }

  ghost function Calls(sequence: int, batch: OperationBatch, count: nat): seq<Call> {
    seq(count, i requires 0 <= i < count => Call(sequence, BatchOperation(batch, i)))
  }

  lemma {:induction false} BatchIsOneAtATime(
    script: Script, log: seq<Call>, sequence: int, batch: OperationBatch, count: nat)
    ensures var (after, entries) := HandleBatchOperations(script, log, sequence, batch, count);
            entries.Ok? ==>
              && after == log + Calls(sequence, batch, count)
              && |entries.value| == count
              && forall i | 0 <= i < count ::
                   Compact(OPERATION_EVENT, OneAtATime(script, log, sequence, batch, i)) == Ok(entries.value[i])
  {
    hide Compact;
    if count > 0 {
      BatchIsOneAtATime(script, log, sequence, batch, count - 1);
      assert Calls(sequence, batch, count) == Calls(sequence, batch, count - 1) +
          [Call(sequence, BatchOperation(batch, count - 1))];
      var (before, entries) := HandleBatchOperations(script, log, sequence, batch, count - 1);
      if entries.Ok? {
        assert log + Calls(sequence, batch, count) == before + [Call(sequence, BatchOperation(batch, count - 1))];
      }
    }
  }

  ghost predicate IsBatchResponse(frame: Frame) {
    frame.opcode == RUNTIME_DECISION && frame.decisionOpcode == BATCH_VECTOR && frame.subjectOpcode == BATCH_EVENT
  }

  /**
    A batch request that reaches the handler either gets back a vector with the
    batch's own id and one entry per operation, each the compact form of what
    submitting that operation alone next would have been answered, or closes the session.
   */
  lemma BatchIsAllOrClosed(world: World, state: State, log: seq<Call>, request: Frame)
    ensures var served := HandleBatch(world, state, log, request);
            served.log != log ==>
            && DecodeBatch(request.payload).Ok?
            && var batch := DecodeBatch(request.payload).value;
               if served.response.Some? && IsBatchResponse(served.response.value) then
                 && served.state == state
                 && DecodeVector(served.response.value.payload).Ok?
                 && var vector := DecodeVector(served.response.value.payload).value;
                    && vector.batchId == batch.batchId && |vector.entries| == batch.count
                    && served.log == log + Calls(request.sequence, batch, batch.count)
                    && forall i | 0 <= i < batch.count ::
                         Compact(OPERATION_EVENT, OneAtATime(world.script, log, request.sequence, batch, i)) ==
                             Ok(vector.entries[i])
               else
                 served.state == state.(closed := true)
  {
    hide EncodeErrorPayload, EncodeVector, DecodeVector, Compact, HandleBatchOperations, DecodeBatch;
    if DecodeBatch(request.payload).Ok? {
      var batch := DecodeBatch(request.payload).value;
      CountIsPositive(request.payload);
      var (after, entries) := HandleBatchOperations(world.script, log, request.sequence, batch, Count(batch));
      BatchIsOneAtATime(world.script, log, request.sequence, batch, Count(batch));
      if BatchAnswer(batch, entries).Ok? {
        VectorParsesBack(DecisionVector(batch.batchId, entries.value));
      }
    }
  }

  lemma CountIsPositive(payload: seq<Byte>)
    requires DecodeBatch(payload).Ok?
    ensures ValidCount(DecodeBatch(payload).value.count)
  {
    hide TakeNames, TakeAmounts, TakeDependencies, TakeInt, TakeBytes;
  }
}
