/**
  What the optimizer decides, told from the submitted list alone: which operations
  are dropped, and what stands in for each of them, without mentioning its caches.
 */
module RuntimeHistory {
  import opened Wrappers
  import opened Runtime
  import opened RuntimeDependencies
  import opened RuntimeDangling

  // ----- A pass and its beginnings -----

  /** The state in which the operation at k is decided. */
  ghost function StateAt(table: Table, ops: seq<Operation>, k: nat): Provenance
    requires k <= |ops| && Optimize(table, ops).Ok?
  {
    PassesGrow(table, ops, k);
    Optimize(table, ops[..k]).value.state
  }

  /** What a pass has kept, decided and replaced so far stays that way. */
  lemma {:induction false} PassesExtend(table: Table, ops: seq<Operation>, k: nat)
    requires k <= |ops| && Optimize(table, ops).Ok?
    ensures Optimize(table, ops[..k]).Ok?
    ensures var now, plan := Optimize(table, ops[..k]).value, Optimize(table, ops).value;
            && (forall op | op in now.kept :: op in plan.kept)
            && (forall d | d in now.decisions :: d in plan.decisions)
            && (forall id | id in now.state.replacements ::
                  id in plan.state.replacements && plan.state.replacements[id] == now.state.replacements[id])
            && now.state.removedIds <= plan.state.removedIds
    decreases |ops|
  {
    hide Process, Decide, ResolvedBy, Keep, Traceable;
    if k == |ops| {
      assert ops[..k] == ops;
    } else {
      var prior, last := ops[..|ops| - 1], ops[|ops| - 1];
      assert prior[..k] == ops[..k];
      PassesExtend(table, prior, k);
      ProcessGraph(table, Optimize(table, prior).value.state, last);
      ReplacedWasSubmitted(table, prior);
      OptimizeRefusesOnlyDuplicates(table, prior);
      ProcessAccounts(table, Optimize(table, prior).value.state, last);
    }
  }

  lemma ReplacedWasSubmitted(table: Table, ops: seq<Operation>)
    requires Optimize(table, ops).Ok?
    ensures Optimize(table, ops).value.state.replacements.Keys <= Ids(ops)
  {
    hide Optimize, Grounded, CachesName;
    PassIsTraceable(table, ops);
  }

  /** The operation at k is kept, with its dependencies resolved, or replaced by what they resolve to. */
  lemma StepAt(table: Table, ops: seq<Operation>, k: nat)
    requires k < |ops| && Optimize(table, ops).Ok?
    ensures var plan, state, op := Optimize(table, ops).value, StateAt(table, ops, k), ops[k];
            if Decide(table, state, op).None? then
              && op.(dependsOn := ResolvedBy(table, state, op)) in plan.kept && Kept(plan, op.id)
              && op.id !in plan.state.replacements
              && StateAt(table, ops, k + 1) == Keep(table, state, op.(dependsOn := ResolvedBy(table, state, op)))
            else
              && op.id in plan.state.replacements
              && plan.state.replacements[op.id] == ResolvedBy(table, state, op)
              && !Kept(plan, op.id)
              && StateAt(table, ops, k + 1).lastCopyByTarget == state.lastCopyByTarget
              && StateAt(table, ops, k + 1).activeBuffers == state.activeBuffers
  {
    hide Process, Decide, ResolvedBy, Keep, Optimize, Grounded, CachesName;
    PassesExtend(table, ops, k);
    PassesExtend(table, ops, k + 1);
    StepOfPass(table, ops, k);
    ProcessGraph(table, StateAt(table, ops, k), ops[k]);
    PassIsTraceable(table, ops);
    KeptIds(Optimize(table, ops).value, ops[k].id);
  }

  // ----- Transfers -----

  /** A write that may change what a transfer filled or what it read. */
  ghost predicate Touches(table: Table, writer: Operation, transfer: Operation) {
    && writer.kind != Sync && writer.kind != Present
    && (writer.target.None? || writer.target.value !in table
        || var written := Component(table, writer.target.value);
           (transfer.target.Some? && transfer.target.value in written)
           || (transfer.source.Some? && transfer.source.value in written))
  }

  ghost predicate RegisteredTransfer(table: Table, op: Operation) {
    (op.kind == Copy || op.kind == Upload) && op.target.Some? && op.target.value in table
  }

  /** The transfer at j was kept, and no kept operation before k touched it since. */
  ghost predicate Standing(table: Table, ops: seq<Operation>, j: nat, k: nat)
    requires Optimize(table, ops).Ok? && k <= |ops|
  {
    && j < k && RegisteredTransfer(table, ops[j]) && Kept(Optimize(table, ops).value, ops[j].id)
    && forall i | j < i < k && Kept(Optimize(table, ops).value, ops[i].id) :: !Touches(table, ops[i], ops[j])
  }

  /** The same operation but for its dependencies. */
  ghost predicate SameRequest(a: Operation, b: Operation) {
    a == b.(dependsOn := a.dependsOn)
  }

  /** The cache holds exactly the standing transfers, each under its target. */
  ghost predicate CacheIsHistory(table: Table, cache: map<string, Operation>, ops: seq<Operation>, k: nat)
    requires Optimize(table, ops).Ok? && k <= |ops|
  {
    && (forall target | target in cache ::
          exists j | 0 <= j < k :: Standing(table, ops, j, k) && Fills(cache, target, ops[j]))
    && (forall j | 0 <= j < k && Standing(table, ops, j, k) ::
          ops[j].target.Some? && Fills(cache, ops[j].target.value, ops[j]))
  }

  ghost predicate Fills(cache: map<string, Operation>, target: string, op: Operation) {
    op.target == Some(target) && target in cache && SameRequest(cache[target], op)
  }

  lemma StandingOneMore(table: Table, ops: seq<Operation>, j: nat, k: nat)
    requires Optimize(table, ops).Ok? && k < |ops|
    ensures Standing(table, ops, j, k + 1) <==>
            if j == k then RegisteredTransfer(table, ops[k]) && Kept(Optimize(table, ops).value, ops[k].id)
            else Standing(table, ops, j, k)
                 && (Kept(Optimize(table, ops).value, ops[k].id) ==> !Touches(table, ops[k], ops[j]))
  {
    hide Optimize, Kept, Touches, RegisteredTransfer;
  }

  /** Keeping an operation drops the cached transfers it touches, and caches it if it is a transfer itself. */
  lemma KeepingCaches(table: Table, state: Provenance, op: Operation)
    ensures var before, after := state.lastCopyByTarget, Keep(table, state, op).lastCopyByTarget;
            && (RegisteredTransfer(table, op) ==> op.target.value in after && after[op.target.value] == op)
            && forall target | !(RegisteredTransfer(table, op) && op.target == Some(target)) ::
                 (target in after <==> target in before && !Touches(table, op, before[target].(target := Some(target))))
                 && (target in after ==> after[target] == before[target])
  {
    hide Component;
  }

  lemma {:induction false} KeptStepIsHistory(
    table: Table, state: Provenance, op: Operation, ops: seq<Operation>, k: nat)
    requires Optimize(table, ops).Ok? && k < |ops| && CacheIsHistory(table, state.lastCopyByTarget, ops, k)
    requires SameRequest(op, ops[k]) && Kept(Optimize(table, ops).value, ops[k].id)
    ensures CacheIsHistory(table, Keep(table, state, op).lastCopyByTarget, ops, k + 1)
  {
    hide Optimize, Kept, Keep, Standing;
    var cache, after := state.lastCopyByTarget, Keep(table, state, op).lastCopyByTarget;
    KeepingCaches(table, state, op);
    forall target | target in after
      ensures exists j | 0 <= j <= k :: Standing(table, ops, j, k + 1) && Fills(after, target, ops[j])
    {
      if RegisteredTransfer(table, op) && op.target == Some(target) {
        StandingOneMore(table, ops, k, k);
      } else {
        var j :| 0 <= j < k && Standing(table, ops, j, k) && Fills(cache, target, ops[j]);
        StandingOneMore(table, ops, j, k);
      }
    }
    forall j | 0 <= j <= k && Standing(table, ops, j, k + 1)
      ensures ops[j].target.Some? && Fills(after, ops[j].target.value, ops[j])
    {
      StandsBefore(table, ops, j, k + 1);
      StandingOneMore(table, ops, j, k);
      if j < k && RegisteredTransfer(table, op) && op.target == ops[j].target {
        OwnTargetIsTouched(table, ops[k], ops[j]);
      }
    }
  }

  lemma StandsBefore(table: Table, ops: seq<Operation>, j: nat, k: nat)
    requires Optimize(table, ops).Ok? && k <= |ops| && Standing(table, ops, j, k)
    ensures j < k && RegisteredTransfer(table, ops[j]) && Kept(Optimize(table, ops).value, ops[j].id)
  {
  }

  lemma OwnTargetIsTouched(table: Table, writer: Operation, transfer: Operation)
    requires RegisteredTransfer(table, writer) && writer.target == transfer.target
    ensures Touches(table, writer, transfer)
  {
    SelfConnected(table, writer.target.value);
  }

  lemma {:induction false} DroppedStepIsHistory(
    table: Table, cache: map<string, Operation>, ops: seq<Operation>, k: nat)
    requires Optimize(table, ops).Ok? && k < |ops| && CacheIsHistory(table, cache, ops, k)
    requires !Kept(Optimize(table, ops).value, ops[k].id)
    ensures CacheIsHistory(table, cache, ops, k + 1)
  {
    hide Optimize, Kept, Standing, Fills;
    forall target | target in cache
      ensures exists j | 0 <= j <= k :: Standing(table, ops, j, k + 1) && Fills(cache, target, ops[j])
    {
      var j :| 0 <= j < k && Standing(table, ops, j, k) && Fills(cache, target, ops[j]);
      StandingOneMore(table, ops, j, k);
    }
    forall j | 0 <= j <= k && Standing(table, ops, j, k + 1)
      ensures ops[j].target.Some? && Fills(cache, ops[j].target.value, ops[j])
    {
      StandingOneMore(table, ops, j, k);
    }
  }

  /** At every point of a pass the transfer cache is the history of the list. */
  lemma {:induction false} CachesAreHistory(table: Table, ops: seq<Operation>, k: nat)
    requires k <= |ops| && Optimize(table, ops).Ok?
    ensures CacheIsHistory(table, StateAt(table, ops, k).lastCopyByTarget, ops, k)
    decreases k
  {
    hide Decide, Keep, ResolvedBy, Kept, CacheIsHistory;
    if k == 0 {
      assert ops[..0] == [];
      NothingCached(table, ops);
    } else {
      CachesAreHistory(table, ops, k - 1);
      StepAt(table, ops, k - 1);
      hide Optimize;
      var state, op := StateAt(table, ops, k - 1), ops[k - 1];
      if Decide(table, state, op).None? {
        KeptStepIsHistory(table, state, op.(dependsOn := ResolvedBy(table, state, op)), ops, k - 1);
      } else {
        DroppedStepIsHistory(table, state.lastCopyByTarget, ops, k - 1);
      }
    }
  }

  lemma NothingCached(table: Table, ops: seq<Operation>)
    requires Optimize(table, ops).Ok?
    ensures CacheIsHistory(table, map[], ops, 0)
  {
    hide Optimize;
  }

  /** The two ends of a transfer are views of one layer that share an alias. */
  ghost predicate Aliased(table: Table, a: string, b: string) {
    && a in table && b in table && table[a].memory == table[b].memory
    && exists alias :: alias in table[a].aliases && alias in table[b].aliases
  }

  ghost predicate SameTransfer(a: Operation, b: Operation) {
    a.source == b.source && a.target == b.target && a.size == b.size && a.frame == b.frame && a.queue == b.queue
  }

  /** A standing transfer already did exactly what the one at k asks for. */
  ghost predicate AlreadyDone(table: Table, ops: seq<Operation>, k: nat)
    requires k < |ops| && Optimize(table, ops).Ok?
  {
    exists j | 0 <= j < k :: Standing(table, ops, j, k) && SameTransfer(ops[j], ops[k])
  }

  ghost predicate BothRegistered(table: Table, op: Operation) {
    op.source.Some? && op.source.value in table && op.target.Some? && op.target.value in table
  }

  lemma CachedIsAlreadyDone(table: Table, ops: seq<Operation>, k: nat)
    requires k < |ops| && Optimize(table, ops).Ok? && BothRegistered(table, ops[k])
    ensures var cache := StateAt(table, ops, k).lastCopyByTarget;
            AlreadyDone(table, ops, k) <==>
            ops[k].target.value in cache && SameTransfer(cache[ops[k].target.value].(target := ops[k].target), ops[k])
  {
    hide Optimize, Standing, StateAt;
    CachesAreHistory(table, ops, k);
    var cache, target := StateAt(table, ops, k).lastCopyByTarget, ops[k].target.value;
    if AlreadyDone(table, ops, k) {
      var j :| 0 <= j < k && Standing(table, ops, j, k) && SameTransfer(ops[j], ops[k]);
      assert Fills(cache, target, ops[j]);
    }
  }

  /** The verdict the rules give at k, whatever the caches look like. */
  lemma TransferVerdict(table: Table, state: Provenance, op: Operation)
    requires op.kind == Copy || op.kind == Upload
    ensures Decide(table, state, op) ==
            if !BothRegistered(table, op) then None
            else if op.source == op.target then Some(EliminateSelfCopy)
            else if Aliased(table, op.source.value, op.target.value) then Some(CollapseAliasedResourceCopy)
            else if op.target.value in state.lastCopyByTarget
                    && SameTransfer(state.lastCopyByTarget[op.target.value].(target := op.target), op)
            then Some(DeduplicateIdenticalTransfer)
            else None
  {
    if BothRegistered(table, op) {
      var a, b := op.source.value, op.target.value;
      if Aliased(table, a, b) {
        var alias :| alias in table[a].aliases && alias in table[b].aliases;
      }
    }
  }

  /** A transfer is dropped exactly when it copies onto itself or an alias, or was already done. */
  lemma TransferIsDroppedExactlyWhen(table: Table, ops: seq<Operation>, k: nat)
    requires k < |ops| && Optimize(table, ops).Ok? && (ops[k].kind == Copy || ops[k].kind == Upload)
    ensures !Kept(Optimize(table, ops).value, ops[k].id) <==>
            && BothRegistered(table, ops[k])
            && (|| ops[k].source == ops[k].target
                || Aliased(table, ops[k].source.value, ops[k].target.value)
                || AlreadyDone(table, ops, k))
  {
    hide Optimize, Decide, AlreadyDone, Kept, StateAt, Aliased, SameTransfer;
    StepAt(table, ops, k);
    TransferVerdict(table, StateAt(table, ops, k), ops[k]);
    if BothRegistered(table, ops[k]) {
      CachedIsAlreadyDone(table, ops, k);
    }
  }

  /** So a transfer repeated while nothing touched either end is never kept. */
  lemma {:induction false} RepeatedTransferIsDropped(table: Table, ops: seq<Operation>, j: nat, k: nat)
    requires j < k < |ops| && Optimize(table, ops).Ok?
    requires RegisteredTransfer(table, ops[j]) && BothRegistered(table, ops[k]) && SameTransfer(ops[j], ops[k])
    requires ops[k].kind == Copy || ops[k].kind == Upload
    requires Kept(Optimize(table, ops).value, ops[j].id)
    requires forall i | j < i < k && Kept(Optimize(table, ops).value, ops[i].id)
                        && ops[i].kind in {Copy, Upload, Allocate, Compute, Draw} ::
               && ops[i].target.Some? && ops[i].target.value in table
               && ops[j].source.value !in Component(table, ops[i].target.value)
               && ops[j].target.value !in Component(table, ops[i].target.value)
    ensures !Kept(Optimize(table, ops).value, ops[k].id)
  {
    hide Optimize, Kept, Component;
    assert Standing(table, ops, j, k);
    TransferIsDroppedExactlyWhen(table, ops, k);
  }

  // ----- Allocations -----

  ghost predicate RegisteredAllocation(table: Table, op: Operation) {
    op.kind == Allocate && op.target.Some? && op.target.value in table
  }

  /** The allocation at j was kept, and its target was not allocated again before k. */
  ghost predicate Active(table: Table, ops: seq<Operation>, j: nat, k: nat)
    requires Optimize(table, ops).Ok? && k <= |ops|
  {
    && j < k && RegisteredAllocation(table, ops[j]) && Kept(Optimize(table, ops).value, ops[j].id)
    && forall i | j < i < k && Kept(Optimize(table, ops).value, ops[i].id) && ops[i].kind == Allocate ::
         ops[i].target != ops[j].target
  }

  ghost predicate Serves(buffers: map<BufferKey, Operation>, key: BufferKey, op: Operation) {
    op.target == key.target && op.size == key.size && key in buffers && SameRequest(buffers[key], op)
  }

  /** The buffers are exactly the active allocations, each under its target and size. */
  ghost predicate BuffersAreHistory(
    table: Table, buffers: map<BufferKey, Operation>, ops: seq<Operation>, k: nat)
    requires Optimize(table, ops).Ok? && k <= |ops|
  {
    && (forall key | key in buffers ::
          exists j | 0 <= j < k :: Active(table, ops, j, k) && Serves(buffers, key, ops[j]))
    && (forall j | 0 <= j < k && Active(table, ops, j, k) ::
          Serves(buffers, BufferKey(ops[j].target, ops[j].size), ops[j]))
  }

  lemma ActiveOneMore(table: Table, ops: seq<Operation>, j: nat, k: nat)
    requires Optimize(table, ops).Ok? && k < |ops|
    ensures Active(table, ops, j, k + 1) <==>
            if j == k then RegisteredAllocation(table, ops[k]) && Kept(Optimize(table, ops).value, ops[k].id)
            else Active(table, ops, j, k)
                 && !(Kept(Optimize(table, ops).value, ops[k].id) && ops[k].kind == Allocate
                      && ops[k].target == ops[j].target)
    ensures j < k && Active(table, ops, j, k) ==> RegisteredAllocation(table, ops[j])
  {
    hide Optimize, Kept;
  }

  lemma KeepingBuffers(table: Table, state: Provenance, op: Operation)
    ensures var before, after := state.activeBuffers, Keep(table, state, op).activeBuffers;
            && (RegisteredAllocation(table, op) ==>
                  var key := BufferKey(op.target, op.size); key in after && after[key] == op)
            && forall key | !(RegisteredAllocation(table, op) && key == BufferKey(op.target, op.size)) ::
                 && (key in after <==> key in before && !(RegisteredAllocation(table, op) && key.target == op.target))
                 && (key in after ==> after[key] == before[key])
  {
    hide Component;
  }

  lemma {:induction false} KeptStepBuffers(
    table: Table, state: Provenance, op: Operation, ops: seq<Operation>, k: nat)
    requires Optimize(table, ops).Ok? && k < |ops| && BuffersAreHistory(table, state.activeBuffers, ops, k)
    requires SameRequest(op, ops[k]) && Kept(Optimize(table, ops).value, ops[k].id)
    ensures BuffersAreHistory(table, Keep(table, state, op).activeBuffers, ops, k + 1)
  {
    hide Optimize, Kept, Keep, Active;
    var buffers, after := state.activeBuffers, Keep(table, state, op).activeBuffers;
    KeepingBuffers(table, state, op);
    forall key | key in after
      ensures exists j | 0 <= j <= k :: Active(table, ops, j, k + 1) && Serves(after, key, ops[j])
    {
      if RegisteredAllocation(table, op) && key == BufferKey(op.target, op.size) {
        ActiveOneMore(table, ops, k, k);
      } else {
        var j :| 0 <= j < k && Active(table, ops, j, k) && Serves(buffers, key, ops[j]);
        ActiveOneMore(table, ops, j, k);
      }
    }
    forall j | 0 <= j <= k && Active(table, ops, j, k + 1)
      ensures Serves(after, BufferKey(ops[j].target, ops[j].size), ops[j])
    {
      ActiveOneMore(table, ops, j, k);
    }
  }

  lemma {:induction false} DroppedStepBuffers(
    table: Table, buffers: map<BufferKey, Operation>, ops: seq<Operation>, k: nat)
    requires Optimize(table, ops).Ok? && k < |ops| && BuffersAreHistory(table, buffers, ops, k)
    requires !Kept(Optimize(table, ops).value, ops[k].id)
    ensures BuffersAreHistory(table, buffers, ops, k + 1)
  {
    hide Optimize, Kept, Active, Serves;
    forall key | key in buffers
      ensures exists j | 0 <= j <= k :: Active(table, ops, j, k + 1) && Serves(buffers, key, ops[j])
    {
      var j :| 0 <= j < k && Active(table, ops, j, k) && Serves(buffers, key, ops[j]);
      ActiveOneMore(table, ops, j, k);
    }
    forall j | 0 <= j <= k && Active(table, ops, j, k + 1)
      ensures Serves(buffers, BufferKey(ops[j].target, ops[j].size), ops[j])
    {
      ActiveOneMore(table, ops, j, k);
    }
  }

  lemma {:induction false} ActiveBuffersAreHistory(table: Table, ops: seq<Operation>, k: nat)
    requires k <= |ops| && Optimize(table, ops).Ok?
    ensures BuffersAreHistory(table, StateAt(table, ops, k).activeBuffers, ops, k)
    decreases k
  {
    hide Decide, Keep, ResolvedBy, Kept, BuffersAreHistory;
    if k == 0 {
      assert ops[..0] == [];
      NothingActive(table, ops);
    } else {
      ActiveBuffersAreHistory(table, ops, k - 1);
      StepAt(table, ops, k - 1);
      hide Optimize;
      var state, op := StateAt(table, ops, k - 1), ops[k - 1];
      if Decide(table, state, op).None? {
        KeptStepBuffers(table, state, op.(dependsOn := ResolvedBy(table, state, op)), ops, k - 1);
      } else {
        DroppedStepBuffers(table, state.activeBuffers, ops, k - 1);
      }
    }
  }

  lemma NothingActive(table: Table, ops: seq<Operation>)
    requires Optimize(table, ops).Ok?
    ensures BuffersAreHistory(table, map[], ops, 0)
  {
    hide Optimize;
  }

  /** An active allocation already provides what the one at k asks for. */
  ghost predicate AlreadyAllocated(table: Table, ops: seq<Operation>, j: nat, k: nat)
    requires k < |ops| && Optimize(table, ops).Ok?
  {
    && Active(table, ops, j, k)
    && ops[j].target == ops[k].target && ops[j].size == ops[k].size && ops[j].frame == ops[k].frame
  }

  const TRANSIENT_TOKENS: set<string> := {"transient", "scratch", "temporary", "staging"}

  /** Some part of the reason is one of the tokens, in whatever case. */
  ghost predicate NamesAToken(reason: string) {
    exists i, token | 0 <= i <= |reason| && token in TRANSIENT_TOKENS :: SpellsAt(reason, i, token)
  }

  ghost predicate SpellsAt(reason: string, i: nat, token: string) {
    i + |token| <= |reason| && forall n | 0 <= n < |token| :: SameLetter(reason[i + n], token[n])
  }

  ghost predicate SameLetter(c: char, lower: char) {
    c == lower || ('a' <= lower <= 'z' && c as int == lower as int - 32)
  }

  ghost predicate StandsAt(text: string, i: nat, token: string) {
    i + |token| <= |text| && text[i..i + |token|] == token
  }

  lemma {:induction false} ContainsSomewhere(text: string, token: string)
    ensures Contains(text, token) <==> exists i | 0 <= i <= |text| :: StandsAt(text, i, token)
  {
    FirstOrLater(text, token);
    if text != [] {
      ContainsSomewhere(text[1..], token);
      hide StandsAt;
      if !(token <= text) {
        if i :| 0 <= i <= |text[1..]| && StandsAt(text[1..], i, token) {
          assert StandsAt(text, i + 1, token);
        }
        if i :| 0 <= i <= |text| && StandsAt(text, i, token) {
          assert StandsAt(text[1..], i - 1, token);
        }
      }
    }
  }

  lemma FirstOrLater(text: string, token: string)
    ensures token <= text <==> StandsAt(text, 0, token)
    ensures text != [] ==>
              forall i | 0 < i <= |text| :: StandsAt(text, i, token) <==> StandsAt(text[1..], i - 1, token)
  {
    if text != [] {
      forall i | 0 < i <= |text|
        ensures StandsAt(text, i, token) <==> StandsAt(text[1..], i - 1, token)
      {
        if i + |token| <= |text| {
          assert text[1..][i - 1..i - 1 + |token|] == text[i..i + |token|];
        }
      }
    }
  }

  lemma LowerSpells(reason: string, text: string, i: nat, token: string)
    requires |text| == |reason| && forall n | 0 <= n < |reason| :: text[n] == Lower(reason[n])
    requires forall c | c in token :: 'a' <= c <= 'z'
    ensures SpellsAt(reason, i, token) <==> StandsAt(text, i, token)
  {
    if i + |token| <= |text| {
      forall n | 0 <= n < |token|
        ensures SameLetter(reason[i + n], token[n]) <==> text[i..i + |token|][n] == token[n]
      {
        assert token[n] in token;
      }
    }
  }

  lemma TokensAreSmall()
    ensures forall token, c | token in TRANSIENT_TOKENS && c in token :: 'a' <= c <= 'z'
  {
  }

  lemma TransientReasonsNameAToken(reason: string)
    ensures IsTransientReason(reason) <==> NamesAToken(reason)
  {
    var text := seq(|reason|, i requires 0 <= i < |reason| => Lower(reason[i]));
    TokensAreSmall();
    forall token | token in TRANSIENT_TOKENS
      ensures Contains(text, token) <==> exists i | 0 <= i <= |reason| :: SpellsAt(reason, i, token)
    {
      ContainsSomewhere(text, token);
      forall i | 0 <= i <= |reason|
        ensures SpellsAt(reason, i, token) <==> StandsAt(text, i, token)
      {
        LowerSpells(reason, text, i, token);
      }
    }
    hide Contains, SpellsAt;
    assert IsTransientReason(reason) <==> exists token | token in TRANSIENT_TOKENS :: Contains(text, token);
  }

  lemma AllocationVerdict(table: Table, state: Provenance, op: Operation)
    requires op.kind == Allocate
    ensures Decide(table, state, op) ==
            var key := BufferKey(op.target, op.size);
            if key in state.activeBuffers && state.activeBuffers[key].frame == op.frame && NamesAToken(op.reason)
            then Some(ReuseTransientBuffer) else None
  {
    hide NamesAToken, IsTransientReason;
    TransientReasonsNameAToken(op.reason);
  }

  lemma CachedIsAlreadyAllocated(table: Table, ops: seq<Operation>, k: nat)
    requires k < |ops| && Optimize(table, ops).Ok?
    ensures var buffers, key := StateAt(table, ops, k).activeBuffers, BufferKey(ops[k].target, ops[k].size);
            (exists j | 0 <= j < k :: AlreadyAllocated(table, ops, j, k)) <==>
            key in buffers && buffers[key].frame == ops[k].frame
  {
    hide Optimize, Active, StateAt;
    ActiveBuffersAreHistory(table, ops, k);
    var buffers, key := StateAt(table, ops, k).activeBuffers, BufferKey(ops[k].target, ops[k].size);
    if j :| 0 <= j < k && AlreadyAllocated(table, ops, j, k) {
      assert Serves(buffers, BufferKey(ops[j].target, ops[j].size), ops[j]);
    }
    if key in buffers && buffers[key].frame == ops[k].frame {
      var j :| 0 <= j < k && Active(table, ops, j, k) && Serves(buffers, key, ops[j]);
      assert AlreadyAllocated(table, ops, j, k);
    }
  }

  /** An allocation is dropped exactly when its reason is transient and the same buffer is active. */
  lemma AllocationIsDroppedExactlyWhen(table: Table, ops: seq<Operation>, k: nat)
    requires k < |ops| && Optimize(table, ops).Ok? && ops[k].kind == Allocate
    ensures !Kept(Optimize(table, ops).value, ops[k].id) <==>
            NamesAToken(ops[k].reason) && exists j | 0 <= j < k :: AlreadyAllocated(table, ops, j, k)
  {
    hide Optimize, Decide, AlreadyAllocated, Kept, StateAt, NamesAToken;
    StepAt(table, ops, k);
    AllocationVerdict(table, StateAt(table, ops, k), ops[k]);
    CachedIsAlreadyAllocated(table, ops, k);
  }

  // ----- Everything else -----

  /** Nothing stands in for the dropped operation. */
  ghost predicate RemovedOutright(plan: Plan, id: string) {
    id in plan.state.replacements && plan.state.replacements[id] == []
  }

  lemma {:induction false} RemovedOutrightIsRecorded(table: Table, ops: seq<Operation>)
    requires Optimize(table, ops).Ok?
    ensures var plan := Optimize(table, ops).value;
            forall id :: id in plan.state.removedIds <==> RemovedOutright(plan, id)
    decreases |ops|
  {
    hide Process, Decide, ResolvedBy, Keep;
    if ops != [] {
      var prior, last := ops[..|ops| - 1], ops[|ops| - 1];
      var before := Optimize(table, prior).value.state;
      RemovedOutrightIsRecorded(table, prior);
      ReplacedWasSubmitted(table, prior);
      OptimizeRefusesOnlyDuplicates(table, prior);
      ProcessAccounts(table, before, last);
      ProcessGraph(table, before, last);
    }
  }

  /** What was removed outright before k. */
  lemma RemovedBefore(table: Table, ops: seq<Operation>, k: nat, id: string)
    requires k <= |ops| && Optimize(table, ops).Ok?
    ensures id in StateAt(table, ops, k).removedIds <==>
            id in Ids(ops[..k]) && RemovedOutright(Optimize(table, ops).value, id)
  {
    hide Optimize, PartOf, Traceable;
    PassesExtend(table, ops, k);
    RemovedOutrightIsRecorded(table, ops[..k]);
    ReplacedBefore(table, ops, k);
  }

  lemma ReplacedBefore(table: Table, ops: seq<Operation>, k: nat)
    requires k <= |ops| && Optimize(table, ops).Ok?
    ensures StateAt(table, ops, k).replacements.Keys ==
            Ids(ops[..k]) * Optimize(table, ops).value.state.replacements.Keys
  {
    hide Optimize, Traceable;
    PassIsPartOf(table, ops, k);
  }

  /**
    A sync is dropped exactly when it is free and waits for nothing, or waits only
    for operations removed outright before it.
   */
  lemma SyncIsDroppedExactlyWhen(table: Table, ops: seq<Operation>, k: nat)
    requires k < |ops| && Optimize(table, ops).Ok? && ops[k].kind == Sync
    ensures !Kept(Optimize(table, ops).value, ops[k].id) <==>
            if ops[k].dependsOn == [] then ops[k].cost == 0.0
            else forall dep | dep in ops[k].dependsOn ::
                   dep in Ids(ops[..k]) && RemovedOutright(Optimize(table, ops).value, dep)
  {
    hide Optimize, StateAt, RemovedOutright, Kept;
    StepAt(table, ops, k);
    forall dep
      ensures dep in StateAt(table, ops, k).removedIds <==>
              dep in Ids(ops[..k]) && RemovedOutright(Optimize(table, ops).value, dep)
    {
      RemovedBefore(table, ops, k, dep);
    }
  }

  /** Work is never dropped. */
  lemma WorkIsKept(table: Table, ops: seq<Operation>, k: nat)
    requires k < |ops| && Optimize(table, ops).Ok? && ops[k].kind in {Present, Compute, Draw}
    ensures Kept(Optimize(table, ops).value, ops[k].id)
  {
    hide Optimize, StateAt, Kept;
    StepAt(table, ops, k);
  }

  // ----- What is reported -----

  /** Every decision is about one dropped operation, says which rule dropped it and what that saves. */
  ghost predicate Reports(table: Table, ops: seq<Operation>, k: nat, d: Decision)
    requires k < |ops| && Optimize(table, ops).Ok?
  {
    var state := StateAt(table, ops, k);
    Decide(table, state, ops[k]).Some? && d == DecisionFor(ops[k], Decide(table, state, ops[k]).value)
  }

  lemma {:induction false} DecisionsReport(table: Table, ops: seq<Operation>, d: Decision) returns (k: nat)
    requires Optimize(table, ops).Ok? && d in Optimize(table, ops).value.decisions
    ensures k < |ops| && Reports(table, ops, k, d)
    decreases |ops|
  {
    hide Decide, DecisionFor, Drop, Keep;
    var prior, last := ops[..|ops| - 1], ops[|ops| - 1];
    if d in Optimize(table, prior).value.decisions {
      k := DecisionsReport(table, prior, d);
      assert prior[..k] == ops[..k];
    } else {
      k := |prior|;
    }
  }

  lemma DecisionNamesItsOperation(op: Operation, policy: Policy)
    ensures DecisionFor(op, policy).operationId == op.id && DecisionFor(op, policy).policy == policy
  {
  }

  /** The rule a decision names follows from the operation itself, and so does what it saves. */
  lemma DecisionsSayWhy(table: Table, ops: seq<Operation>, k: nat, d: Decision)
    requires Optimize(table, ops).Ok? && d in Optimize(table, ops).value.decisions
    requires k < |ops| && d.operationId == ops[k].id
    ensures !Kept(Optimize(table, ops).value, ops[k].id)
    ensures d.savedCost == ops[k].cost && d.savedSize == if ops[k].kind == Sync then 0 else ops[k].size
    ensures d.policy ==
            match ops[k].kind
            case Copy | Upload =>
              if ops[k].source == ops[k].target then EliminateSelfCopy
              else if BothRegistered(table, ops[k]) && Aliased(table, ops[k].source.value, ops[k].target.value)
              then CollapseAliasedResourceCopy
              else DeduplicateIdenticalTransfer
            case Allocate => ReuseTransientBuffer
            case Sync | Present | Compute | Draw => if ops[k].dependsOn == [] then RemoveEmptySync else RemoveOrphanSync
  {
    hide Optimize, Kept, Aliased, StateAt, IsTransientReason;
    var i := DecisionsReport(table, ops, d);
    var state := StateAt(table, ops, i);
    OptimizeRefusesOnlyDuplicates(table, ops);
    DecisionNamesItsOperation(ops[i], Decide(table, state, ops[i]).value);
    assert i == k;
    StepAt(table, ops, k);
    if ops[k].kind == Copy || ops[k].kind == Upload {
      TransferVerdict(table, state, ops[k]);
    }
  }

  /** Every dropped operation has a decision. */
  lemma DroppedIsReported(table: Table, ops: seq<Operation>, k: nat) returns (d: Decision)
    requires Optimize(table, ops).Ok? && k < |ops| && !Kept(Optimize(table, ops).value, ops[k].id)
    ensures d in Optimize(table, ops).value.decisions && d.operationId == ops[k].id
  {
    hide Optimize, Kept, Decide, DecisionFor;
    StepAt(table, ops, k);
    PassesExtend(table, ops, k);
    PassesExtend(table, ops, k + 1);
    StepOfPass(table, ops, k);
    var policy := Decide(table, StateAt(table, ops, k), ops[k]).value;
    d := DecisionFor(ops[k], policy);
    DecisionNamesItsOperation(ops[k], policy);
    DropReports(table, StateAt(table, ops, k), ops[k]);
    assert d in Optimize(table, ops[..k + 1]).value.decisions;
  }

  lemma DropReports(table: Table, state: Provenance, op: Operation)
    requires Process(table, state, op).Ok? && Decide(table, state, op).Some?
    ensures Process(table, state, op).value.decision == Some(DecisionFor(op, Decide(table, state, op).value))
  {
    hide Decide, DecisionFor, Drop;
  }
}
