/**
  What the operations do to memory, and why the optimizer may drop the ones it
  drops: running only the kept operations leaves the same data in every
  registered resource.

  The table is fixed for the whole pass.  Views that chains of shared aliases
  join within a memory layer are views of one datum, so contents belong to
  components rather than to resource ids.
 */
module RuntimeMeaning {
  import opened Wrappers
  import opened Runtime

  type Content = seq<int>
  type Datum = set<string>

  /** Contents of every datum, and the size each resource was last allocated with. */
  datatype Store = Store(contents: map<Datum, Content>, extents: map<string, nat>)

  /** What the operation with a given id computes for a datum: any function of the store. */
  type Kernel = (string, Store, Datum) -> Content

  ghost predicate ValidStore(table: Table, s: Store) {
    forall id | id in table :: Component(table, id) in s.contents
  }

  function Overwrite(source: Content, target: Content, size: nat): Content {
    var n := if size <= |source| && size <= |target| then size
             else if |source| <= |target| then |source| else |target|;
    source[..n] + target[n..]
  }

  /** A write into a resource outside the table may change any datum. */
  function ClobberAll(kernel: Kernel, id: string, s: Store): Store {
    s.(contents := map datum | datum in s.contents :: kernel(id, s, datum))
  }

  function WriteDatum(s: Store, datum: Datum, content: Content): Store {
    s.(contents := s.contents[datum := content])
  }

  /** One operation may take the store from `s` to `next`. */
  ghost predicate Step(table: Table, kernel: Kernel, op: Operation, s: Store, next: Store)
    requires ValidStore(table, s)
  {
    match op.kind
    case Sync | Present => next == s
    case Copy | Upload =>
      if !Known(table, op.target) then next == ClobberAll(kernel, op.id, s)
      else
        var target := Component(table, op.target.value);
        if !Known(table, op.source) then next == WriteDatum(s, target, kernel(op.id, s, target))
        else
          var source := Component(table, op.source.value);
          next == WriteDatum(s, target, Overwrite(s.contents[source], s.contents[target], op.size))
    case Compute | Draw =>
      if !Known(table, op.target) then next == ClobberAll(kernel, op.id, s)
      else
        var target := Component(table, op.target.value);
        next == WriteDatum(s, target, kernel(op.id, s, target))
    case Allocate =>
      if !Known(table, op.target) then next == ClobberAll(kernel, op.id, s)
      else
        var target := Component(table, op.target.value);
        && target in next.contents
        && next.contents == s.contents[target := next.contents[target]]
        && next.extents == s.extents[op.target.value := op.size]
  }

  /** Running `ops` in order may take the store from `s` to `final`. */
  ghost predicate Runs(table: Table, kernel: Kernel, ops: seq<Operation>, s: Store, final: Store)
    decreases |ops|
  {
    if ops == [] then final == s
    else
      var prior, last := ops[..|ops| - 1], ops[|ops| - 1];
      exists middle ::
        Runs(table, kernel, prior, s, middle) && ValidStore(table, middle) && Step(table, kernel, last, middle, final)
  }

  lemma StepKeepsStoreValid(table: Table, kernel: Kernel, op: Operation, s: Store, next: Store)
    requires ValidStore(table, s) && Step(table, kernel, op, s, next)
    ensures ValidStore(table, next)
  {
  }

  /**
    The caches tell the truth about a store: repeating a cached transfer would
    change nothing, and an active buffer still has the size it is cached under.
   */
  ghost predicate TransfersHold(table: Table, cache: map<string, Operation>, s: Store)
    requires ValidStore(table, s)
  {
    forall target | target in cache :: TransferHolds(table, target, cache[target], s)
  }

  ghost predicate TransferHolds(table: Table, target: string, transfer: Operation, s: Store)
    requires ValidStore(table, s)
  {
    && target in table
    && (Known(table, transfer.source) ==>
          var source := s.contents[Component(table, transfer.source.value)];
          var filled := s.contents[Component(table, target)];
          Overwrite(source, filled, transfer.size) == filled)
  }

  ghost predicate BuffersHold(table: Table, buffers: map<BufferKey, Operation>, s: Store) {
    forall key | key in buffers :: BufferHolds(table, key, s)
  }

  ghost predicate BufferHolds(table: Table, key: BufferKey, s: Store) {
    Known(table, key.target) && key.target.value in s.extents && s.extents[key.target.value] == key.size
  }

  ghost predicate CachesHold(table: Table, state: Provenance, s: Store)
    requires ValidStore(table, s)
  {
    TransfersHold(table, state.lastCopyByTarget, s) && BuffersHold(table, state.activeBuffers, s)
  }

  lemma RecopyChangesNothing(source: Content, target: Content, size: nat)
    ensures var once := Overwrite(source, target, size);
            Overwrite(source, once, size) == once && Overwrite(target, target, size) == target
  {
  }

  lemma WritingTheSameChangesNothing(s: Store, datum: Datum)
    requires datum in s.contents
    ensures WriteDatum(s, datum, s.contents[datum]) == s
  {
    assert s.contents[datum := s.contents[datum]] == s.contents;
  }

  /** An operation the optimizer drops may run without changing the store at all. */
  lemma DroppedOperationIsIdentity(table: Table, kernel: Kernel, state: Provenance, op: Operation, s: Store)
    requires ValidStore(table, s) && CachesHold(table, state, s)
    requires Decide(table, state, op).Some?
    ensures Step(table, kernel, op, s, s)
  {
    if IsTransfer(op.kind) {
      var source, target := op.source.value, op.target.value;
      var policy := Decide(table, state, op).value;
      ComponentsMeetOnlyIfEqual(table, target, source);
      WritingTheSameChangesNothing(s, Component(table, target));
      RecopyChangesNothing(s.contents[Component(table, target)], s.contents[Component(table, target)], op.size);
      if policy == CollapseAliasedResourceCopy {
        SelfConnected(table, target);
        ConnectedByOneMore(table, target, target, source);
      } else if policy == DeduplicateIdenticalTransfer {
        var previous := state.lastCopyByTarget[target];
        assert TransferHolds(table, target, previous, s);
        assert previous.source == op.source && previous.size == op.size;
      }
    } else if op.kind == Allocate {
      assert BufferHolds(table, BufferKey(op.target, op.size), s);
      WritingTheSameChangesNothing(s, Component(table, op.target.value));
      assert s.extents[op.target.value := op.size] == s.extents;
    }
  }

  /** ... and, unless it is an allocation, it cannot run in any other way. */
  lemma DroppedOperationOnlyIdentity(
    table: Table, kernel: Kernel, state: Provenance, op: Operation, s: Store, next: Store)
    requires ValidStore(table, s) && CachesHold(table, state, s)
    requires Decide(table, state, op).Some? && op.kind != Allocate
    requires Step(table, kernel, op, s, next)
    ensures next == s
  {
    DroppedOperationIsIdentity(table, kernel, state, op, s);
  }

  /** A write to a view leaves every cached transfer that survives it true. */
  lemma {:induction false} SurvivorsHold(table: Table, cache: map<string, Operation>, id: string, s: Store, next: Store)
    requires ValidStore(table, s) && ValidStore(table, next) && TransfersHold(table, cache, s)
    requires id in table
    requires forall datum | datum in s.contents && datum != Component(table, id) ::
               datum in next.contents && next.contents[datum] == s.contents[datum]
    ensures TransfersHold(table, Invalidated(table, cache, Some(id)), next)
  {
    var survivors := Invalidated(table, cache, Some(id));
    forall target | target in survivors
      ensures TransferHolds(table, target, survivors[target], next)
    {
      var transfer := cache[target];
      assert TransferHolds(table, target, transfer, s);
      ComponentsMeetOnlyIfEqual(table, id, target);
      if Known(table, transfer.source) {
        ComponentsMeetOnlyIfEqual(table, id, transfer.source.value);
      }
    }
  }

  lemma KeptTransfersHold(
    table: Table, kernel: Kernel, state: Provenance, op: Operation, s: Store, next: Store)
    requires ValidStore(table, s) && ValidStore(table, next) && CachesHold(table, state, s)
    requires Step(table, kernel, op, s, next)
    ensures TransfersHold(table, Keep(table, state, op).lastCopyByTarget, next)
  {
    if Writes(op.kind) && Known(table, op.target) {
      SurvivorsHold(table, state.lastCopyByTarget, op.target.value, s, next);
      if IsTransfer(op.kind) && Known(table, op.source) {
        var target, source := Component(table, op.target.value), Component(table, op.source.value);
        RecopyChangesNothing(s.contents[source], s.contents[target], op.size);
        assert TransferHolds(table, op.target.value, op, next);
      }
    }
  }

  lemma KeptBuffersHold(
    table: Table, kernel: Kernel, state: Provenance, op: Operation, s: Store, next: Store)
    requires ValidStore(table, s) && CachesHold(table, state, s)
    requires Step(table, kernel, op, s, next)
    ensures BuffersHold(table, Keep(table, state, op).activeBuffers, next)
  {
    var buffers := Keep(table, state, op).activeBuffers;
    forall key | key in buffers
      ensures BufferHolds(table, key, next)
    {
      if key in state.activeBuffers {
        assert BufferHolds(table, key, s);
      }
    }
  }

  /** The two ways an accepted operation leaves the state. */
  lemma ProcessCases(table: Table, state: Provenance, op: Operation)
    requires Process(table, state, op).Ok?
    ensures var step := Process(table, state, op).value;
            && step.operation == op.(dependsOn := step.operation.dependsOn)
            && (step.decision.Some? <==> Decide(table, state, op).Some?)
            && (step.decision.Some? ==>
                  && step.decision.value.policy == Decide(table, state, op).value
                  && step.state.lastCopyByTarget == state.lastCopyByTarget
                  && step.state.activeBuffers == state.activeBuffers)
            && (step.decision.None? ==> step.state == Keep(table, state, step.operation))
  {
  }

  lemma StepIgnoresDependencies(
    table: Table, kernel: Kernel, op: Operation, rewritten: Operation, s: Store, next: Store)
    requires ValidStore(table, s) && rewritten == op.(dependsOn := rewritten.dependsOn)
    ensures Step(table, kernel, op, s, next) <==> Step(table, kernel, rewritten, s, next)
  {
  }

  lemma RunsExtended(
    table: Table, kernel: Kernel, prior: seq<Operation>, op: Operation, s: Store, middle: Store, final: Store)
    requires Runs(table, kernel, prior, s, middle)
    requires ValidStore(table, middle) && Step(table, kernel, op, middle, final)
    ensures Runs(table, kernel, prior + [op], s, final)
  {
    hide Step, ValidStore;
    var ops := prior + [op];
    assert ops[..|ops| - 1] == prior && ops[|ops| - 1] == op;
  }

  lemma RunsSplit(table: Table, kernel: Kernel, prior: seq<Operation>, op: Operation, s: Store, final: Store)
    returns (middle: Store)
    requires Runs(table, kernel, prior + [op], s, final)
    ensures Runs(table, kernel, prior, s, middle) && ValidStore(table, middle) && Step(table, kernel, op, middle, final)
  {
    hide Step, ValidStore;
    var ops := prior + [op];
    assert ops[..|ops| - 1] == prior && ops[|ops| - 1] == op;
    middle :| Runs(table, kernel, prior, s, middle) && ValidStore(table, middle)
        && Step(table, kernel, op, middle, final);
  }

  /**
    Meaning preservation.  Every run of the kept operations is also a run of the
    full list with the same final store, and the caches describe that store.
   */
  lemma {:induction false} KeptRunIsFullRun(table: Table, kernel: Kernel, ops: seq<Operation>, s: Store, final: Store)
    requires ValidStore(table, s) && Optimize(table, ops).Ok?
    requires Runs(table, kernel, Optimize(table, ops).value.kept, s, final)
    ensures Runs(table, kernel, ops, s, final)
    ensures ValidStore(table, final) && CachesHold(table, Optimize(table, ops).value.state, final)
    decreases |ops|
  {
    hide Process, Step, ValidStore, Keep, Decide;
    if ops != [] {
      var prior, op := ops[..|ops| - 1], ops[|ops| - 1];
      assert ops == prior + [op];
      var before := Optimize(table, prior).value;
      var step := Process(table, before.state, op).value;
      ProcessCases(table, before.state, op);
      if step.decision.Some? {
        KeptRunIsFullRun(table, kernel, prior, s, final);
        DroppedOperationIsIdentity(table, kernel, before.state, op, final);
        RunsExtended(table, kernel, prior, op, s, final, final);
      } else {
        var middle := RunsSplit(table, kernel, before.kept, step.operation, s, final);
        KeptRunIsFullRun(table, kernel, prior, s, middle);
        StepIgnoresDependencies(table, kernel, op, step.operation, middle, final);
        RunsExtended(table, kernel, prior, op, s, middle, final);
        StepKeepsStoreValid(table, kernel, step.operation, middle, final);
        KeptTransfersHold(table, kernel, before.state, step.operation, middle, final);
        KeptBuffersHold(table, kernel, before.state, step.operation, middle, final);
      }
    }
  }

  // ----- Exactly which full runs are kept runs -----

  /** A run in which the operations with idle ids leave the store as they find it. */
  ghost predicate IdleRuns(
    table: Table, kernel: Kernel, ops: seq<Operation>, idle: set<string>, s: Store, final: Store)
    decreases |ops|
  {
    if ops == [] then final == s
    else
      var prior, last := ops[..|ops| - 1], ops[|ops| - 1];
      exists middle ::
        && IdleRuns(table, kernel, prior, idle, s, middle)
        && ValidStore(table, middle) && Step(table, kernel, last, middle, final)
        && (last.id in idle ==> final == middle)
  }

  lemma IdleRunsExtended(
    table: Table, kernel: Kernel, prior: seq<Operation>, op: Operation, idle: set<string>, s: Store, middle: Store,
    final: Store)
    requires IdleRuns(table, kernel, prior, idle, s, middle)
    requires ValidStore(table, middle) && Step(table, kernel, op, middle, final) && (op.id in idle ==> final == middle)
    ensures IdleRuns(table, kernel, prior + [op], idle, s, final)
  {
    hide Step, ValidStore;
    var ops := prior + [op];
    assert ops[..|ops| - 1] == prior && ops[|ops| - 1] == op;
  }

  lemma IdleRunsSplit(
    table: Table, kernel: Kernel, prior: seq<Operation>, op: Operation, idle: set<string>, s: Store, final: Store)
    returns (middle: Store)
    requires IdleRuns(table, kernel, prior + [op], idle, s, final)
    ensures IdleRuns(table, kernel, prior, idle, s, middle)
    ensures ValidStore(table, middle) && Step(table, kernel, op, middle, final) && (op.id in idle ==> final == middle)
  {
    hide Step, ValidStore;
    var ops := prior + [op];
    assert ops[..|ops| - 1] == prior && ops[|ops| - 1] == op;
    middle :| IdleRuns(table, kernel, prior, idle, s, middle) && ValidStore(table, middle)
        && Step(table, kernel, op, middle, final) && (op.id in idle ==> final == middle);
  }

  /** All reused allocations are idle, and no kept operation is. */
  ghost predicate Idles(plan: Plan, idle: set<string>) {
    && (forall d | d in plan.decisions && d.policy == ReuseTransientBuffer :: d.operationId in idle)
    && (forall op | op in plan.kept :: op.id !in idle)
  }

  /** What one more operation adds to a pass. */
  lemma PassOneMore(table: Table, prior: seq<Operation>, op: Operation, idle: set<string>)
    returns (before: Plan, step: Outcome)
    requires Optimize(table, prior + [op]).Ok? && Idles(Optimize(table, prior + [op]).value, idle)
    ensures Optimize(table, prior) == Ok(before) && Idles(before, idle)
    ensures Process(table, before.state, op) == Ok(step) && Optimize(table, prior + [op]) == Ok(Extend(before, step))
    ensures step.operation == op.(dependsOn := step.operation.dependsOn)
    ensures step.decision.Some? <==> Decide(table, before.state, op).Some?
    ensures step.decision.None? ==> op.id !in idle
    ensures Decide(table, before.state, op) == Some(ReuseTransientBuffer) ==> op.id in idle
  {
    var ops := prior + [op];
    assert ops[..|ops| - 1] == prior && ops[|ops| - 1] == op;
    before := Optimize(table, prior).value;
    step := Process(table, before.state, op).value;
    hide Process, Decide;
    DecisionNames(table, before.state, op);
    var plan := Optimize(table, ops).value;
    assert step.decision.None? ==> step.operation in plan.kept;
    assert step.decision.Some? ==> step.decision.value in plan.decisions;
    assert forall d | d in before.decisions :: d in plan.decisions;
    assert forall o | o in before.kept :: o in plan.kept;
  }

  lemma DecisionNames(table: Table, state: Provenance, op: Operation)
    requires Process(table, state, op).Ok?
    ensures var step := Process(table, state, op).value;
            && step.operation == op.(dependsOn := step.operation.dependsOn)
            && (step.decision.Some? <==> Decide(table, state, op).Some?)
            && (step.decision.Some? ==>
                  && step.decision.value.policy == Decide(table, state, op).value
                  && step.decision.value.operationId == op.id)
  {
    hide Decide, Drop, Keep;
  }

  lemma {:induction false} KeptRunIsIdleRun(
    table: Table, kernel: Kernel, ops: seq<Operation>, idle: set<string>, s: Store, final: Store)
    requires ValidStore(table, s) && Optimize(table, ops).Ok? && Idles(Optimize(table, ops).value, idle)
    requires Runs(table, kernel, Optimize(table, ops).value.kept, s, final)
    ensures IdleRuns(table, kernel, ops, idle, s, final)
    decreases |ops|
  {
    hide Process, Step, ValidStore, Keep, Decide, Idles, Optimize;
    if ops == [] {
      NothingKept(table);
    } else {
      var prior, op := ops[..|ops| - 1], ops[|ops| - 1];
      assert ops == prior + [op];
      var before, step := PassOneMore(table, prior, op, idle);
      if step.decision.Some? {
        KeptRunIsIdleRun(table, kernel, prior, idle, s, final);
        KeptRunIsFullRun(table, kernel, prior, s, final);
        DroppedOperationIsIdentity(table, kernel, before.state, op, final);
        IdleRunsExtended(table, kernel, prior, op, idle, s, final, final);
      } else {
        var middle := RunsSplit(table, kernel, before.kept, step.operation, s, final);
        KeptRunIsIdleRun(table, kernel, prior, idle, s, middle);
        StepIgnoresDependencies(table, kernel, op, step.operation, middle, final);
        IdleRunsExtended(table, kernel, prior, op, idle, s, middle, final);
      }
    }
  }

  lemma {:induction false} IdleRunIsKeptRun(
    table: Table, kernel: Kernel, ops: seq<Operation>, idle: set<string>, s: Store, final: Store)
    requires ValidStore(table, s) && Optimize(table, ops).Ok? && Idles(Optimize(table, ops).value, idle)
    requires IdleRuns(table, kernel, ops, idle, s, final)
    ensures Runs(table, kernel, Optimize(table, ops).value.kept, s, final)
    decreases |ops|
  {
    hide Process, Step, ValidStore, Keep, Idles, Optimize;
    if ops == [] {
      NothingKept(table);
    } else {
      var prior, op := ops[..|ops| - 1], ops[|ops| - 1];
      assert ops == prior + [op];
      var before, step := PassOneMore(table, prior, op, idle);
      var middle := IdleRunsSplit(table, kernel, prior, op, idle, s, final);
      IdleRunIsKeptRun(table, kernel, prior, idle, s, middle);
      KeptRunIsFullRun(table, kernel, prior, s, middle);
      if step.decision.None? {
        StepIgnoresDependencies(table, kernel, op, step.operation, middle, final);
        RunsExtended(table, kernel, before.kept, step.operation, s, middle, final);
      } else if op.id !in idle {
        DroppedOperationOnlyIdentity(table, kernel, before.state, op, middle, final);
      }
    }
  }

  lemma NothingKept(table: Table)
    ensures Optimize(table, []) == Ok(Plan(FRESH, [], []))
  {
  }

  ghost function Reused(plan: Plan): set<string> {
    set d | d in plan.decisions && d.policy == ReuseTransientBuffer :: d.operationId
  }

  ghost function Dropped(plan: Plan): set<string> {
    set d | d in plan.decisions :: d.operationId
  }

  /** No operation is both kept and dropped. */
  lemma {:induction false} DroppedIsNotKept(table: Table, ops: seq<Operation>)
    requires Optimize(table, ops).Ok?
    ensures var plan := Optimize(table, ops).value;
            && Dropped(plan) <= plan.state.operationIds
            && forall op | op in plan.kept :: op.id in plan.state.operationIds && op.id !in Dropped(plan)
    decreases |ops|
  {
    hide Process, Decide;
    if ops != [] {
      var prior, op := ops[..|ops| - 1], ops[|ops| - 1];
      var before := Optimize(table, prior).value;
      DroppedIsNotKept(table, prior);
      ProcessAccounts(table, before.state, op);
      DecisionNames(table, before.state, op);
    }
  }

  /**
    Meaning preservation, both ways.  The runs of the kept operations are exactly the
    runs of the full list in which every reused allocation leaves its buffer as it
    is; it makes no difference to ask that of every dropped operation.
   */
  lemma KeptRunsExactly(table: Table, kernel: Kernel, ops: seq<Operation>, s: Store, final: Store)
    requires ValidStore(table, s) && Optimize(table, ops).Ok?
    ensures var plan := Optimize(table, ops).value;
            && (Runs(table, kernel, plan.kept, s, final) <==>
                IdleRuns(table, kernel, ops, Reused(plan), s, final))
            && (Runs(table, kernel, plan.kept, s, final) <==>
                IdleRuns(table, kernel, ops, Dropped(plan), s, final))
  {
    hide Optimize, Runs, IdleRuns, ValidStore;
    var plan := Optimize(table, ops).value;
    DroppedIsNotKept(table, ops);
    forall idle | idle == Reused(plan) || idle == Dropped(plan)
      ensures Runs(table, kernel, plan.kept, s, final) <==> IdleRuns(table, kernel, ops, idle, s, final)
    {
      assert Idles(plan, idle);
      if Runs(table, kernel, plan.kept, s, final) {
        KeptRunIsIdleRun(table, kernel, ops, idle, s, final);
      }
      if IdleRuns(table, kernel, ops, idle, s, final) {
        IdleRunIsKeptRun(table, kernel, ops, idle, s, final);
      }
    }
  }

  lemma {:induction false} RunsWithNobodyIdle(
    table: Table, kernel: Kernel, ops: seq<Operation>, s: Store, final: Store)
    ensures Runs(table, kernel, ops, s, final) <==> IdleRuns(table, kernel, ops, {}, s, final)
    decreases |ops|
  {
    hide Step, ValidStore;
    if ops != [] {
      var prior, op := ops[..|ops| - 1], ops[|ops| - 1];
      assert ops == prior + [op];
      if Runs(table, kernel, ops, s, final) {
        var middle := RunsSplit(table, kernel, prior, op, s, final);
        RunsWithNobodyIdle(table, kernel, prior, s, middle);
        IdleRunsExtended(table, kernel, prior, op, {}, s, middle, final);
      }
      if IdleRuns(table, kernel, ops, {}, s, final) {
        var middle := IdleRunsSplit(table, kernel, prior, op, {}, s, final);
        RunsWithNobodyIdle(table, kernel, prior, s, middle);
        RunsExtended(table, kernel, prior, op, s, middle, final);
      }
    }
  }

  /** So when no allocation was reused, the full list has no other runs than the kept one's. */
  lemma {:induction false} FullRunIsKeptRun(table: Table, kernel: Kernel, ops: seq<Operation>, s: Store, final: Store)
    requires ValidStore(table, s) && Optimize(table, ops).Ok?
    requires forall d | d in Optimize(table, ops).value.decisions :: d.policy != ReuseTransientBuffer
    requires Runs(table, kernel, ops, s, final)
    ensures Runs(table, kernel, Optimize(table, ops).value.kept, s, final)
  {
    hide Optimize, Runs, IdleRuns, ValidStore;
    KeptRunsExactly(table, kernel, ops, s, final);
    RunsWithNobodyIdle(table, kernel, ops, s, final);
    assert Reused(Optimize(table, ops).value) == {};
  }

  // ----- Reuse does lose runs -----

  const BUFFER: Table := map["b" := Resource(Vram, [])]
  const CLAIM := Operation("claim", Allocate, None, Some("b"), "", "scratch", 0.0, 1, None, [])
  const FILL := Operation("fill", Compute, None, Some("b"), "", "", 0.0, 1, None, [])
  const RECLAIM := CLAIM.(id := "reclaim")

  /** Every computation fills its datum with a one. */
  function Ones(): Kernel {
    (id: string, s: Store, datum: Datum) => [1]
  }

  function Holding(content: Content): Store {
    Store(map[{"b"} := content], map["b" := 1])
  }

  lemma OnlyView()
    ensures Component(BUFFER, "b") == {"b"}
  {
    SelfConnected(BUFFER, "b");
  }

  lemma NoDependencies(table: Table, state: Provenance, op: Operation)
    requires op.dependsOn == [] && op.id !in state.operationIds
    ensures Process(table, state, op).Ok? && Process(table, state, op).value.operation == op
    ensures Decide(table, state, op).None? ==>
              Process(table, state, op) == Ok(Outcome(Keep(table, state, op), op, None))
    ensures Decide(table, state, op).Some? ==> Process(table, state, op).value.decision.Some?
  {
    hide Decide, Keep, Drop;
  }

  lemma Scratch()
    ensures IsTransientReason("scratch")
  {
    var text: string := seq(7, i requires 0 <= i < 7 => Lower("scratch"[i]));
    assert text == "scratch";
    assert Contains(text, "scratch");
  }

  lemma PassGrows(table: Table, prior: seq<Operation>, op: Operation)
    requires Optimize(table, prior).Ok? && Process(table, Optimize(table, prior).value.state, op).Ok?
    ensures var before := Optimize(table, prior).value;
            var step := Process(table, before.state, op).value;
            && Optimize(table, prior + [op]) == Ok(Extend(before, step))
            && Extend(before, step).state == step.state
            && Extend(before, step).kept == before.kept + (if step.decision.None? then [step.operation] else [])
  {
    hide Process;
    assert (prior + [op])[..|prior|] == prior;
  }

  /** The second allocation of the buffer is dropped. */
  lemma ReclaimIsDropped()
    ensures var run := Optimize(BUFFER, [CLAIM, FILL, RECLAIM]);
            run.Ok? && run.value.kept == [CLAIM, FILL]
  {
    var claimed := Keep(BUFFER, FRESH, CLAIM);
    var filled := Keep(BUFFER, claimed, FILL);
    Scratch();
    assert Decide(BUFFER, filled, RECLAIM) == Some(ReuseTransientBuffer) by {
      hide IsTransientReason;
    }
    NoDependencies(BUFFER, FRESH, CLAIM);
    NoDependencies(BUFFER, claimed, FILL);
    NoDependencies(BUFFER, filled, RECLAIM);
    hide *;
    PassGrows(BUFFER, [], CLAIM);
    NothingKept(BUFFER);
    assert [] + [CLAIM] == [CLAIM];
    PassGrows(BUFFER, [CLAIM], FILL);
    assert [CLAIM] + [FILL] == [CLAIM, FILL];
    PassGrows(BUFFER, [CLAIM, FILL], RECLAIM);
    assert [CLAIM, FILL] + [RECLAIM] == [CLAIM, FILL, RECLAIM];
  }

  lemma FillSteps(s: Store)
    requires s == Holding([]) || s == Holding([1])
    ensures ValidStore(BUFFER, s)
    ensures Step(BUFFER, Ones(), CLAIM, s, Holding([])) && Step(BUFFER, Ones(), RECLAIM, s, Holding([]))
    ensures forall next :: Step(BUFFER, Ones(), FILL, s, next) <==> next == Holding([1])
  {
    OnlyView();
    hide Component;
  }

  lemma FillingFills(s: Store, next: Store)
    requires ValidStore(BUFFER, s) && Step(BUFFER, Ones(), FILL, s, next)
    ensures next != Holding([])
  {
    OnlyView();
    hide Component;
    assert next.contents[{"b"}] == [1];
  }

  /**
    Filling a scratch buffer and allocating it again may clear it, but with the
    allocation dropped it stays filled.
   */
  lemma ReuseLosesARun()
    ensures var ops := [CLAIM, FILL, RECLAIM];
            && Optimize(BUFFER, ops).Ok? && ValidStore(BUFFER, Holding([]))
            && Runs(BUFFER, Ones(), ops, Holding([]), Holding([]))
            && !Runs(BUFFER, Ones(), Optimize(BUFFER, ops).value.kept, Holding([]), Holding([]))
  {
    var empty, full := Holding([]), Holding([1]);
    assert Runs(BUFFER, Ones(), [], empty, empty);
    ReclaimIsDropped();
    FillSteps(empty);
    FillSteps(full);
    hide *;
    RunsExtended(BUFFER, Ones(), [], CLAIM, empty, empty, empty);
    assert [] + [CLAIM] == [CLAIM] && [CLAIM] + [FILL] == [CLAIM, FILL];
    RunsExtended(BUFFER, Ones(), [CLAIM], FILL, empty, empty, full);
    RunsExtended(BUFFER, Ones(), [CLAIM, FILL], RECLAIM, empty, full, empty);
    assert [CLAIM, FILL] + [RECLAIM] == [CLAIM, FILL, RECLAIM];
    if Runs(BUFFER, Ones(), [CLAIM] + [FILL], empty, empty) {
      var middle := RunsSplit(BUFFER, Ones(), [CLAIM], FILL, empty, empty);
      FillingFills(middle, empty);
      assert false;
    }
  }
}
