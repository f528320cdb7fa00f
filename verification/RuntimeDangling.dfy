/**
  Lists that are not well ordered: where a kept operation can be left waiting for
  one that was dropped, and only there.
 */
module RuntimeDangling {
  import opened Wrappers
  import opened Runtime
  import opened RuntimeDependencies

  /** Some operation of the list names an id that is submitted no earlier than itself, or never. */
  ghost predicate NamedAhead(ops: seq<Operation>, id: string) {
    exists i :: 0 <= i < |ops| && id in ops[i].dependsOn && id !in Ids(ops[..i])
  }

  /** Where a resolved dependency can come from. */
  ghost predicate Grounded(plan: Plan, ops: seq<Operation>, id: string) {
    Kept(plan, id) || NamedAhead(ops, id)
  }

  /** What every pass keeps, however its list is ordered. */
  ghost predicate Traceable(plan: Plan, ops: seq<Operation>) {
    && (forall op, y | op in plan.kept && y in op.dependsOn :: Grounded(plan, ops, y))
    && (forall id, y | id in plan.state.replacements && y in plan.state.replacements[id] :: Grounded(plan, ops, y))
    && Ids(plan.kept) !! plan.state.replacements.Keys
    && Ids(ops) == Ids(plan.kept) + plan.state.replacements.Keys
    && CachesName(plan.state, Ids(plan.kept))
  }

  lemma KeptIds(plan: Plan, id: string)
    ensures Kept(plan, id) <==> id in Ids(plan.kept)
  {
  }

  lemma GroundedStays(plan: Plan, next: Plan, ops: seq<Operation>, op: Operation, id: string)
    requires Grounded(plan, ops, id) && Ids(plan.kept) <= Ids(next.kept)
    ensures Grounded(next, ops + [op], id)
  {
    KeptIds(plan, id);
    KeptIds(next, id);
    if NamedAhead(ops, id) {
      var i :| 0 <= i < |ops| && id in ops[i].dependsOn && id !in Ids(ops[..i]);
      assert (ops + [op])[i] == ops[i] && (ops + [op])[..i] == ops[..i];
    }
  }

  lemma ResolvedIsGrounded(table: Table, plan: Plan, ops: seq<Operation>, op: Operation, y: string)
    requires Traceable(plan, ops) && y in ResolvedBy(table, plan.state, op)
    ensures Grounded(plan, ops, y) || (y in op.dependsOn && y !in Ids(ops))
  {
    hide Decide, Retained, NamedAhead;
    KeptIds(plan, y);
    StandInIsCached(table, plan.state, op, Ids(plan.kept));
    if y !in StandIn(table, plan.state, op) {
      assert y in ResolveAll(plan.state.replacements, op.dependsOn);
      var d :| d in op.dependsOn && y in Resolve(plan.state.replacements, d);
    }
  }

  lemma ResolvedStaysGrounded(
    table: Table, plan: Plan, next: Plan, ops: seq<Operation>, op: Operation, y: string)
    requires Traceable(plan, ops) && Ids(plan.kept) <= Ids(next.kept) && y in ResolvedBy(table, plan.state, op)
    ensures Grounded(next, ops + [op], y)
  {
    hide ResolvedBy, Traceable;
    ResolvedIsGrounded(table, plan, ops, op, y);
    if Grounded(plan, ops, y) {
      GroundedStays(plan, next, ops, op, y);
    } else {
      assert (ops + [op])[|ops|] == op && (ops + [op])[..|ops|] == ops;
    }
  }

  lemma StepStaysTraceable(table: Table, plan: Plan, ops: seq<Operation>, op: Operation)
    requires Traceable(plan, ops) && op.id !in Ids(ops) && Process(table, plan.state, op).Ok?
    ensures Traceable(Extend(plan, Process(table, plan.state, op).value), ops + [op])
  {
    hide Process, Decide, ResolvedBy, Keep, Grounded, CachesName;
    var step := Process(table, plan.state, op).value;
    var next := Extend(plan, step);
    ProcessGraph(table, plan.state, op);
    IdsOfPrefix(ops, |ops|, op);
    if step.decision.None? {
      IdsOfPrefix(plan.kept, |plan.kept|, step.operation);
      KeepingNames(table, plan.state, step.operation, Ids(plan.kept));
    } else {
      SameCaches(plan.state, next.state, Ids(plan.kept));
    }
    forall y | y in ResolvedBy(table, plan.state, op) ensures Grounded(next, ops + [op], y) {
      ResolvedStaysGrounded(table, plan, next, ops, op, y);
    }
    forall y | Grounded(plan, ops, y) ensures Grounded(next, ops + [op], y) {
      GroundedStays(plan, next, ops, op, y);
    }
  }

  lemma SameCaches(state: Provenance, next: Provenance, names: set<string>)
    requires CachesName(state, names)
    requires next.lastCopyByTarget == state.lastCopyByTarget && next.activeBuffers == state.activeBuffers
    ensures CachesName(next, names)
  {
  }

  lemma {:induction false} PassIsTraceable(table: Table, ops: seq<Operation>)
    ensures Optimize(table, ops).Ok? ==> Traceable(Optimize(table, ops).value, ops)
    decreases |ops|
  {
    hide Process, Traceable;
    if ops == [] {
      NothingIsTraceable();
    } else if Optimize(table, ops).Ok? {
      var prior, op := ops[..|ops| - 1], ops[|ops| - 1];
      PassIsTraceable(table, prior);
      OptimizeRefusesOnlyDuplicates(table, prior);
      ProcessAccounts(table, Optimize(table, prior).value.state, op);
      StepStaysTraceable(table, Optimize(table, prior).value, prior, op);
      assert prior + [op] == ops;
    }
  }

  lemma NothingIsTraceable()
    ensures Traceable(Plan(FRESH, [], []), [])
  {
  }

  // ----- Exactly what a kept operation is left waiting for -----

  /**
    The operation at k names an id that was not submitted before it, itself or
    through earlier dropped operations, each naming the one before.
   */
  ghost predicate Carries(ops: seq<Operation>, dropped: set<string>, k: nat, id: string)
    requires k < |ops|
  {
    || (id in ops[k].dependsOn && id !in Ids(ops[..k]))
    || exists j | 0 <= j < k && ops[j].id in dropped && ops[j].id in ops[k].dependsOn :: Carries(ops, dropped, j, id)
  }

  /** The list names, of the ids that are not kept, exactly those the operation at k carries. */
  ghost predicate Explained(list: seq<string>, ops: seq<Operation>, plan: Plan, k: nat)
    requires k < |ops|
  {
    forall id | id !in Ids(plan.kept) :: id in list <==> Carries(ops, plan.state.replacements.Keys, k, id)
  }

  /** Where a pass stands after some operations of the list, against where it ends. */
  ghost predicate PartOf(now: Plan, plan: Plan, ops: seq<Operation>, n: nat)
    requires n <= |ops|
  {
    && Traceable(now, ops[..n]) && DistinctIds(ops)
    && Ids(now.kept) <= Ids(plan.kept)
    && now.state.replacements.Keys == Ids(ops[..n]) * plan.state.replacements.Keys
    && Ids(plan.kept) !! plan.state.replacements.Keys
  }

  ghost predicate AllExplained(now: Plan, plan: Plan, ops: seq<Operation>, n: nat)
    requires n <= |ops|
  {
    && (forall op, k | op in now.kept && 0 <= k < n && ops[k].id == op.id :: Explained(op.dependsOn, ops, plan, k))
    && (forall k | 0 <= k < n && ops[k].id in now.state.replacements ::
          Explained(now.state.replacements[ops[k].id], ops, plan, k))
  }

  lemma IdAt(ops: seq<Operation>, n: nat, id: string) returns (j: nat)
    requires n <= |ops| && id in Ids(ops[..n])
    ensures j < n && ops[j].id == id
  {
    var op :| op in ops[..n] && op.id == id;
    j :| 0 <= j < n && ops[j] == op;
  }

  lemma IdIn(ops: seq<Operation>, n: nat, j: nat)
    requires j < n <= |ops|
    ensures ops[j].id in Ids(ops[..n])
  {
    assert ops[..n][j] in ops[..n];
  }

  lemma ResolvedIsExplained(table: Table, now: Plan, plan: Plan, ops: seq<Operation>, n: nat)
    requires n < |ops| && PartOf(now, plan, ops, n) && AllExplained(now, plan, ops, n)
    ensures Explained(ResolvedBy(table, now.state, ops[n]), ops, plan, n)
  {
    forall id | id !in Ids(plan.kept)
      ensures id in ResolvedBy(table, now.state, ops[n]) <==> Carries(ops, plan.state.replacements.Keys, n, id)
    {
      if id in ResolvedBy(table, now.state, ops[n]) {
        ResolvedIsCarried(table, now, plan, ops, n, id);
      }
      if Carries(ops, plan.state.replacements.Keys, n, id) {
        CarriedIsResolved(table, now, plan, ops, n, id);
      }
    }
  }

  lemma ResolvedIsCarried(table: Table, now: Plan, plan: Plan, ops: seq<Operation>, n: nat, id: string)
    requires n < |ops| && PartOf(now, plan, ops, n) && AllExplained(now, plan, ops, n)
    requires id !in Ids(plan.kept) && id in ResolvedBy(table, now.state, ops[n])
    ensures Carries(ops, plan.state.replacements.Keys, n, id)
  {
    hide Decide, Retained, Grounded;
    StandInIsCached(table, now.state, ops[n], Ids(now.kept));
    assert id in ResolveAll(now.state.replacements, ops[n].dependsOn);
    var dep :| dep in ops[n].dependsOn && id in Resolve(now.state.replacements, dep);
    if dep in now.state.replacements {
      var j := IdAt(ops, n, dep);
      assert Explained(now.state.replacements[ops[j].id], ops, plan, j);
    }
  }

  lemma CarriedIsResolved(table: Table, now: Plan, plan: Plan, ops: seq<Operation>, n: nat, id: string)
    requires n < |ops| && PartOf(now, plan, ops, n) && AllExplained(now, plan, ops, n)
    requires id !in Ids(plan.kept) && Carries(ops, plan.state.replacements.Keys, n, id)
    ensures id in ResolvedBy(table, now.state, ops[n])
  {
    hide Decide, Retained, Grounded, StandIn;
    var replacements := now.state.replacements;
    if id in ops[n].dependsOn && id !in Ids(ops[..n]) {
      assert id in Resolve(replacements, id);
    } else {
      var j :| 0 <= j < n && ops[j].id in plan.state.replacements.Keys && ops[j].id in ops[n].dependsOn
        && Carries(ops, plan.state.replacements.Keys, j, id);
      IdIn(ops, n, j);
      assert Explained(replacements[ops[j].id], ops, plan, j);
      assert id in Resolve(replacements, ops[j].id);
    }
    assert id in ResolveAll(replacements, ops[n].dependsOn);
  }

  lemma ExplainedOneMore(table: Table, now: Plan, plan: Plan, ops: seq<Operation>, n: nat)
    requires n < |ops| && PartOf(now, plan, ops, n) && AllExplained(now, plan, ops, n)
    requires Process(table, now.state, ops[n]).Ok?
    ensures AllExplained(Extend(now, Process(table, now.state, ops[n]).value), plan, ops, n + 1)
  {
    hide Process, Decide, ResolvedBy, Explained, Grounded, CachesName, Keep;
    var next := Extend(now, Process(table, now.state, ops[n]).value);
    ProcessGraph(table, now.state, ops[n]);
    ResolvedIsExplained(table, now, plan, ops, n);
    forall op, k | op in next.kept && 0 <= k <= n && ops[k].id == op.id
      ensures Explained(op.dependsOn, ops, plan, k)
    {
      if op in now.kept {
        var j := IdAt(ops, n, op.id);
        assert ops[j].id == ops[k].id;
      }
    }
    forall k | 0 <= k <= n && ops[k].id in next.state.replacements
      ensures Explained(next.state.replacements[ops[k].id], ops, plan, k)
    {
    }
  }

  /** What is kept stays kept, and what is dropped stays dropped. */
  lemma {:induction false} PassesGrow(table: Table, ops: seq<Operation>, k: nat)
    requires k <= |ops| && Optimize(table, ops).Ok?
    ensures Optimize(table, ops[..k]).Ok?
    ensures Ids(Optimize(table, ops[..k]).value.kept) <= Ids(Optimize(table, ops).value.kept)
    ensures Optimize(table, ops[..k]).value.state.replacements.Keys <=
            Optimize(table, ops).value.state.replacements.Keys
    decreases |ops|
  {
    hide Process, Decide, ResolvedBy, Keep;
    if k < |ops| {
      var prior, last := ops[..|ops| - 1], ops[|ops| - 1];
      assert prior[..k] == ops[..k];
      PassesGrow(table, prior, k);
      ProcessGraph(table, Optimize(table, prior).value.state, last);
      var before := Optimize(table, prior).value.kept;
      assert forall op | op in before :: op in Optimize(table, ops).value.kept;
    } else {
      assert ops[..k] == ops;
    }
  }

  lemma PassIsPartOf(table: Table, ops: seq<Operation>, n: nat)
    requires n <= |ops| && Optimize(table, ops).Ok?
    ensures Optimize(table, ops[..n]).Ok?
    ensures PartOf(Optimize(table, ops[..n]).value, Optimize(table, ops).value, ops, n)
  {
    hide Optimize, Grounded, CachesName;
    PassesGrow(table, ops, n);
    PassIsTraceable(table, ops[..n]);
    PassIsTraceable(table, ops);
    OptimizeRefusesOnlyDuplicates(table, ops);
  }

  lemma {:induction false} PassIsExplained(table: Table, ops: seq<Operation>, n: nat)
    requires n <= |ops| && Optimize(table, ops).Ok?
    ensures Optimize(table, ops[..n]).Ok?
    ensures AllExplained(Optimize(table, ops[..n]).value, Optimize(table, ops).value, ops, n)
    decreases n
  {
    PassIsPartOf(table, ops, n);
    if n > 0 {
      PassIsExplained(table, ops, n - 1);
      PassIsPartOf(table, ops, n - 1);
      StepOfPass(table, ops, n - 1);
      hide Process, PartOf, Explained;
      ExplainedOneMore(table, Optimize(table, ops[..n - 1]).value, Optimize(table, ops).value, ops, n - 1);
    }
  }

  /**
    However the list is ordered: of the ids that are not kept, a kept operation is
    left waiting for exactly those it names ahead, itself or through dropped ones.
   */
  lemma WaitsForExactly(table: Table, ops: seq<Operation>, k: nat, op: Operation, id: string)
    requires Optimize(table, ops).Ok? && k < |ops|
    requires op in Optimize(table, ops).value.kept && op.id == ops[k].id
    requires !Kept(Optimize(table, ops).value, id)
    ensures id in op.dependsOn <==> Carries(ops, Optimize(table, ops).value.state.replacements.Keys, k, id)
  {
    hide Optimize, Carries;
    PassIsExplained(table, ops, |ops|);
    assert ops[..|ops|] == ops;
    KeptIds(Optimize(table, ops).value, id);
    assert Explained(op.dependsOn, ops, Optimize(table, ops).value, k);
  }

  lemma {:induction false} CarriedWasNamedAhead(ops: seq<Operation>, dropped: set<string>, k: nat, id: string)
    returns (i: nat)
    requires k < |ops| && Carries(ops, dropped, k, id)
    ensures i <= k && id in ops[i].dependsOn && id !in Ids(ops[..i])
    ensures i == k || ops[i].id in dropped
    decreases k
  {
    i := k;
    if !(id in ops[k].dependsOn && id !in Ids(ops[..k])) {
      var j :| 0 <= j < k && ops[j].id in dropped && ops[j].id in ops[k].dependsOn && Carries(ops, dropped, j, id);
      i := CarriedWasNamedAhead(ops, dropped, j, id);
    }
  }

  /** So a kept operation waits for a dropped one only if it or an earlier dropped one named that one too soon. */
  lemma DanglingWasNamedAhead(table: Table, ops: seq<Operation>, k: nat, op: Operation, dep: string)
    requires Optimize(table, ops).Ok? && k < |ops|
    requires op in Optimize(table, ops).value.kept && op.id == ops[k].id && dep in op.dependsOn
    ensures KeptOrNeverSubmitted(Optimize(table, ops).value, ops, dep) ||
            exists i :: 0 <= i <= k && dep in ops[i].dependsOn && dep in Ids(ops[i..])
                        && (i == k || !Kept(Optimize(table, ops).value, ops[i].id))
  {
    hide Optimize;
    var plan := Optimize(table, ops).value;
    if !KeptOrNeverSubmitted(plan, ops, dep) {
      WaitsForExactly(table, ops, k, op, dep);
      var i := CarriedWasNamedAhead(ops, plan.state.replacements.Keys, k, dep);
      PassIsTraceable(table, ops);
      KeptIds(plan, ops[i].id);
      assert ops == ops[..i] + ops[i..];
      var named :| named in ops && named.id == dep;
      assert named in ops[i..];
    }
  }

  /** In particular, whatever a kept operation itself names ahead is left dangling once it is dropped. */
  lemma ForwardReferenceDangles(table: Table, ops: seq<Operation>, k: nat, op: Operation, id: string)
    requires Optimize(table, ops).Ok? && k < |ops|
    requires op in Optimize(table, ops).value.kept && op.id == ops[k].id
    requires id in ops[k].dependsOn && id !in Ids(ops[..k]) && id in Optimize(table, ops).value.state.replacements
    ensures id in op.dependsOn && !KeptOrNeverSubmitted(Optimize(table, ops).value, ops, id)
  {
    hide Optimize, Grounded, CachesName;
    PassIsTraceable(table, ops);
    KeptIds(Optimize(table, ops).value, id);
    WaitsForExactly(table, ops, k, op, id);
  }

  /** A pass leaves somebody waiting exactly when some kept operation carries a dropped id. */
  lemma SomethingDanglesExactlyWhen(table: Table, ops: seq<Operation>)
    requires Optimize(table, ops).Ok?
    ensures var plan := Optimize(table, ops).value;
            (exists op, id :: op in plan.kept && id in op.dependsOn && !KeptOrNeverSubmitted(plan, ops, id)) <==>
            (exists k, id :: 0 <= k < |ops| && Kept(plan, ops[k].id) && id in plan.state.replacements
                             && Carries(ops, plan.state.replacements.Keys, k, id))
  {
    hide Optimize, Carries, Grounded, CachesName;
    var plan := Optimize(table, ops).value;
    PassIsTraceable(table, ops);
    if op, id :| op in plan.kept && id in op.dependsOn && !KeptOrNeverSubmitted(plan, ops, id) {
      KeptIds(plan, id);
      assert ops[..|ops|] == ops && op.id in Ids(plan.kept);
      var k := IdAt(ops, |ops|, op.id);
      WaitsForExactly(table, ops, k, op, id);
    }
    if k, id :| (&& 0 <= k < |ops| && Kept(plan, ops[k].id) && id in plan.state.replacements
                 && Carries(ops, plan.state.replacements.Keys, k, id)) {
      KeptIds(plan, id);
      var op :| op in plan.kept && op.id == ops[k].id;
      WaitsForExactly(table, ops, k, op, id);
      assert !KeptOrNeverSubmitted(plan, ops, id);
    }
  }

  const WAITS := Operation("waits", Compute, None, None, "", "", 1.0, 0, None, ["later"])
  const LATER := Operation("later", Sync, None, None, "", "", 0.0, 0, None, [])

  lemma WaitsIsKept()
    ensures Process(map[], FRESH, WAITS) == Ok(Outcome(Keep(map[], FRESH, WAITS), WAITS, None))
  {
    OneUnresolved("later");
    hide Keep, Dedup, ResolveAll;
    assert Decide(map[], FRESH, WAITS).None?;
    hide Decide;
  }

  lemma OneUnresolved(id: string)
    ensures ResolveAll(map[], [id]) == [id] && Dedup([id]) == [id]
  {
    assert [id][1..] == [] && [id][..0] == [];
  }

  /** Two operations, of which the second is dropped, leave the first waiting for it. */
  lemma PairDangles(waits: Operation, later: Operation, state: Provenance)
    requires Process(map[], FRESH, waits) == Ok(Outcome(state, waits, None))
    requires Process(map[], state, later).Ok? && Process(map[], state, later).value.decision.Some?
    requires waits.id != later.id
    ensures var run := Optimize(map[], [waits, later]);
            run.Ok? && waits in run.value.kept && !KeptOrNeverSubmitted(run.value, [waits, later], later.id)
  {
    hide Process;
    var one, both := [waits], [waits, later];
    assert one[..|one| - 1] == [] && both[..|both| - 1] == one;
    assert Optimize(map[], one) == Ok(Extend(Plan(FRESH, [], []), Process(map[], FRESH, waits).value));
    assert later in both;
  }

  /** It does happen: a kept operation may name one that is dropped only later. */
  lemma ForwardReferenceCanDangle()
    ensures var run := Optimize(map[], [WAITS, LATER]);
            && run.Ok?
            && WAITS in run.value.kept && LATER.id in WAITS.dependsOn
            && !KeptOrNeverSubmitted(run.value, [WAITS, LATER], LATER.id)
  {
    var state := Keep(map[], FRESH, WAITS);
    WaitsIsKept();
    LaterIsDropped(state);
    hide *;
    PairDangles(WAITS, LATER, state);
  }

  lemma LaterIsDropped(state: Provenance)
    requires "later" !in state.operationIds
    ensures Process(map[], state, LATER).Ok? && Process(map[], state, LATER).value.decision.Some?
  {
  }
}
