/** What every run of guarded inserts, callbacks, sweeps and accounting keeps. */
module AutomationRuns {
  import opened Support
  import opened Automations

  datatype Op =
    | Guarded(p: GuardedInsert)
    | Skip(invocation: Invocation, advanceTo: Option<int>)
    | Update(id: Id, fields: Fields)
    | BulkFail(ids: seq<Id>, reason: string, completedAt: int)
    | MarkCounted(id: Id, now: int)

  function Wins(db: Db, op: Op): bool {
    op.MarkCounted? && op.id in db.invocations && db.invocations[op.id].failureCountedAt.None?
  }

  function Step(db: Db, op: Op): Db {
    match op
    case Guarded(p) => var r := InsertedGuarded(db, p); if r.Some? then r.value else db
    case Skip(inv, advanceTo) => var r := InsertedSkip(db, inv, advanceTo); if r.Some? then r.value else db
    case Update(id, f) => db.(runs := seq(|db.runs|, k requires 0 <= k < |db.runs| => Updated(db.runs[k], id, f)))
    case BulkFail(ids, reason, at) => db.(runs := seq(|db.runs|, k requires 0 <= k < |db.runs| => Swept(db.runs[k], ids, reason, at)))
    case MarkCounted(id, now) =>
      if Wins(db, op) then db.(invocations := db.invocations[id := db.invocations[id].(failureCountedAt := Some(now))]) else db
  }

  /** What the scheduler owes the store. */
  predicate Dutiful(db: Db, op: Op) {
    match op
    case Guarded(p) =>
      && p.invocation.id !in db.invocations
      && (forall k | 0 <= k < |p.children| :: p.children[k].automationId == p.invocation.automationId)
      && p.invocation.concurrencyKey == (if p.scope.KeyScope? then Some(p.scope.concurrencyKey) else None)
    case Update(_, f) => f.status != Some(Starting)
    case _ => true
  }

  predicate Dutifully(db: Db, ops: seq<Op>)
    decreases |ops|
  {
    ops == [] || (Dutiful(db, ops[0]) && Dutifully(Step(db, ops[0]), ops[1..]))
  }

  function RunAll(db: Db, ops: seq<Op>): Db
    decreases |ops|
  {
    if ops == [] then db else RunAll(Step(db, ops[0]), ops[1..])
  }

  // ---- the invariant ----

  predicate Owned(db: Db, run: Run) {
    run.invocationId in db.invocations && db.invocations[run.invocationId].automationId == run.automationId
  }

  function KeyOf(db: Db, run: Run): Option<string>
    requires Owned(db, run)
  {
    db.invocations[run.invocationId].concurrencyKey
  }

  /** Two active runs of one automation under one concurrency key (or none) belong to one invocation. */
  ghost predicate Exclusive(db: Db)
    requires forall r :: r in db.runs ==> Owned(db, r)
  {
    forall r, q :: r in db.runs && q in db.runs && Active(r.status) && Active(q.status)
                   && r.automationId == q.automationId && KeyOf(db, r) == KeyOf(db, q) ==>
                     r.invocationId == q.invocationId
  }

  ghost predicate Inv(db: Db) {
    (forall r :: r in db.runs ==> Owned(db, r)) && Exclusive(db)
  }

  /** A run moves on: terminal runs stay, nothing becomes starting, its keys never change. */
  predicate MovesOn(before: Run, after: Run) {
    && after.id == before.id && after.automationId == before.automationId && after.invocationId == before.invocationId
    && (Active(before.status) || after == before)
    && (after.status == Starting ==> before.status == Starting)
  }

  ghost predicate RunsMoveOn(before: seq<Run>, after: seq<Run>) {
    |after| == |before| && forall k :: 0 <= k < |before| ==> MovesOn(before[k], after[k])
  }

  /** The children of a batch: all of them when its invocation exists, none otherwise. */
  lemma {:induction false} ChildrenShape(db: Db, id: Id, children: seq<Run>)
    requires WithChildren(db, id, children).Some?
    ensures var after := WithChildren(db, id, children).value;
            && after.invocations == db.invocations && after.automations == db.automations
            && after.runs == db.runs + (if id in db.invocations then Stamped(id, children) else [])
  {
    if children != [] {
      ChildrenShape(db, id, children[..|children| - 1]);
    }
  }

  lemma KeepsOnMove(before: Db, after: Db)
    requires Inv(before) && RunsMoveOn(before.runs, after.runs) && after.invocations.Keys == before.invocations.Keys
    requires forall i :: i in before.invocations ==>
               after.invocations[i].automationId == before.invocations[i].automationId
               && after.invocations[i].concurrencyKey == before.invocations[i].concurrencyKey
    ensures Inv(after)
  {
    forall r | r in after.runs ensures Owned(after, r) && exists q :: q in before.runs && MovesOn(q, r) {
      var k :| 0 <= k < |after.runs| && after.runs[k] == r;
      assert before.runs[k] in before.runs && MovesOn(before.runs[k], r);
    }
    forall r, q | r in after.runs && q in after.runs && Active(r.status) && Active(q.status)
                  && r.automationId == q.automationId && KeyOf(after, r) == KeyOf(after, q)
      ensures r.invocationId == q.invocationId
    {
      var r0 :| r0 in before.runs && MovesOn(r0, r);
      var q0 :| q0 in before.runs && MovesOn(q0, q);
      assert KeyOf(before, r0) == KeyOf(before, q0);
    }
  }

  /** An inserted invocation is the only one of its scope with active runs. */
  lemma KeepsOnInsert(db: Db, p: GuardedInsert)
    requires Inv(db) && Dutiful(db, Guarded(p)) && !Overlaps(db, p.invocation.automationId, p.scope)
    ensures var base := db.(invocations := db.invocations[p.invocation.id := p.invocation]);
            Inv(base.(runs := db.runs + Stamped(p.invocation.id, p.children)))
  {
    var base := db.(invocations := db.invocations[p.invocation.id := p.invocation]);
    var t := base.(runs := db.runs + Stamped(p.invocation.id, p.children));
    forall r | r in t.runs ensures Owned(t, r) && (r in db.runs || r.invocationId == p.invocation.id) {}
    forall r, q | r in t.runs && q in t.runs && Active(r.status) && Active(q.status)
                  && r.automationId == q.automationId && KeyOf(t, r) == KeyOf(t, q)
      ensures r.invocationId == q.invocationId
    {
      if r in db.runs && q in db.runs {
        assert KeyOf(db, r) == KeyOf(db, q);
      } else if r in db.runs {
        NotActiveInScope(db, p, r);
      } else if q in db.runs {
        NotActiveInScope(db, p, q);
      }
    }
  }

  lemma NotActiveInScope(db: Db, p: GuardedInsert, r: Run)
    requires r in db.runs && Owned(db, r) && !Overlaps(db, p.invocation.automationId, p.scope)
    requires r.automationId == p.invocation.automationId
    requires p.scope.KeyScope? ==> KeyOf(db, r) == Some(p.scope.concurrencyKey)
    ensures !Active(r.status)
  {
    var k :| 0 <= k < |db.runs| && db.runs[k] == r;
  }

  lemma Keeps(db: Db, op: Op)
    requires Inv(db) && Dutiful(db, op)
    ensures Inv(Step(db, op))
  {
    match op
    case Guarded(p) =>
      if InsertedGuarded(db, p).Some? {
        var blocked := Overlaps(db, p.invocation.automationId, p.scope);
        var base := if blocked then db else db.(invocations := db.invocations[p.invocation.id := p.invocation]);
        ChildrenShape(base, p.invocation.id, p.children);
        if !blocked {
          KeepsOnInsert(db, p);
          KeepsOnMove(base.(runs := db.runs + Stamped(p.invocation.id, p.children)), Step(db, op));
        } else {
          KeepsOnMove(db, Step(db, op));
        }
      }
    case Skip(inv, _) =>
      var t := Step(db, op);
      forall r | r in t.runs ensures Owned(t, r) && KeyOf(t, r) == KeyOf(db, r) { assert Owned(db, r); }
    case Update(_, _) => KeepsOnMove(db, Step(db, op));
    case BulkFail(_, _, _) => KeepsOnMove(db, Step(db, op));
    case MarkCounted(_, _) => KeepsOnMove(db, Step(db, op));
  }

  lemma {:induction false} RunKeeps(db: Db, ops: seq<Op>)
    requires Inv(db) && Dutifully(db, ops)
    ensures Inv(RunAll(db, ops))
    decreases |ops|
  {
    if ops != [] {
      Keeps(db, ops[0]);
      RunKeeps(Step(db, ops[0]), ops[1..]);
    }
  }

  // ---- overlap ----

  /** Invocations of one automation under one concurrency key; automation-scoped ones have none. */
  predicate SameScope(db: Db, a: Id, b: Id) {
    && a in db.invocations && b in db.invocations
    && db.invocations[a].automationId == db.invocations[b].automationId
    && db.invocations[a].concurrencyKey == db.invocations[b].concurrencyKey
  }

  ghost predicate HasActiveRuns(db: Db, invocationId: Id) {
    exists r :: r in db.runs && r.invocationId == invocationId && Active(r.status)
  }

  /**
   * Over every run of the store, an automation has at most one automation-scoped invocation with active runs,
   * and at most one per concurrency key; and every run belongs to a stored invocation of its automation.
   */
  lemma AtMostOneActivePerScope(db: Db, ops: seq<Op>, a: Id, b: Id)
    requires Inv(db) && Dutifully(db, ops)
    ensures var t := RunAll(db, ops);
            && (forall r :: r in t.runs ==> Owned(t, r))
            && (SameScope(t, a, b) && HasActiveRuns(t, a) && HasActiveRuns(t, b) ==> a == b)
  {
    RunKeeps(db, ops);
    var t := RunAll(db, ops);
    if HasActiveRuns(t, a) && HasActiveRuns(t, b) {
      var r :| r in t.runs && r.invocationId == a && Active(r.status);
      var q :| q in t.runs && q.invocationId == b && Active(q.status);
      assert Owned(t, r) && Owned(t, q);
    }
  }

  /** A suppressed firing adds neither invocation nor child, yet the schedule advances. */
  lemma SuppressedFiringOnlyAdvances(db: Db, p: GuardedInsert)
    requires Dutiful(db, Guarded(p)) && Overlaps(db, p.invocation.automationId, p.scope)
    ensures InsertedGuarded(db, p) == Some(Advanced(db, p.invocation.automationId, p.advanceTo))
    ensures var t := Step(db, Guarded(p)); t.runs == db.runs && t.invocations == db.invocations
  {
    SuppressedChildren(db, p.invocation.id, p.children);
  }

  lemma {:induction false} SuppressedChildren(db: Db, id: Id, children: seq<Run>)
    requires id !in db.invocations
    ensures WithChildren(db, id, children) == Some(db)
  {
    if children != [] {
      SuppressedChildren(db, id, children[..|children| - 1]);
    }
  }

  /** Without the fresh-id duty: a suppressed, committed batch adds children exactly when its id already names an invocation. */
  lemma SuppressedBatchAddsChildrenIff(db: Db, p: GuardedInsert)
    requires Overlaps(db, p.invocation.automationId, p.scope) && InsertedGuarded(db, p).Some?
    ensures InsertedGuarded(db, p).value.runs != db.runs <==> p.invocation.id in db.invocations && p.children != []
  {
    ChildrenShape(db, p.invocation.id, p.children);
  }

  const ACTIVE_RUN := Run("r0", "a", "i", Running, None, None, None, None, None, None)
  const CHILD := Run("r1", "a", "i", Starting, None, None, None, None, None, None)
  const FIRED := Invocation("i", "a", Manual, None, None, None, None, None)
  const BUSY := Db(map["a" := Automation(None, false)], map["i" := FIRED], [ACTIVE_RUN])
  const REPEATED := GuardedInsert(FIRED, [CHILD], AutomationScope, None)

  /** An automation is running invocation `i`; a batch that names `i` again is suppressed and still adds its child. */
  lemma ASuppressedBatchAddsItsChild()
    ensures Overlaps(BUSY, REPEATED.invocation.automationId, REPEATED.scope)
    ensures InsertedGuarded(BUSY, REPEATED) == Some(BUSY.(runs := [ACTIVE_RUN, CHILD]))
  {
    assert Active(BUSY.runs[0].status);
    assert REPEATED.children[..0] == [];
    assert !RunRejected(BUSY.runs, CHILD);
    assert WithChildren(BUSY, "i", REPEATED.children) == Some(BUSY.(runs := BUSY.runs + [CHILD]));
    assert BUSY.runs + [CHILD] == [ACTIVE_RUN, CHILD];
  }

  // ---- the derived status over time ----

  function Children(runs: seq<Run>, invocationId: Id): seq<Run> {
    if runs == [] then []
    else Children(runs[..|runs| - 1], invocationId) + (if runs[|runs| - 1].invocationId == invocationId then [runs[|runs| - 1]] else [])
  }

  lemma {:induction false} ChildrenMoveOn(before: seq<Run>, after: seq<Run>, id: Id)
    requires RunsMoveOn(before, after)
    ensures RunsMoveOn(Children(before, id), Children(after, id))
  {
    if before != [] {
      ChildrenMoveOn(before[..|before| - 1], after[..|after| - 1], id);
    }
  }

  lemma {:induction false} ChildrenIgnoreOthers(runs: seq<Run>, more: seq<Run>, id: Id)
    requires forall r :: r in more ==> r.invocationId != id
    ensures Children(runs + more, id) == Children(runs, id)
  {
    if more == [] {
      assert runs + more == runs;
    } else {
      var all := runs + more;
      assert all[..|all| - 1] == runs + more[..|more| - 1];
      ChildrenIgnoreOthers(runs, more[..|more| - 1], id);
    }
  }

  lemma GuardedLeavesChildren(db: Db, p: GuardedInsert, id: Id)
    requires Dutiful(db, Guarded(p)) && id in db.invocations && InsertedGuarded(db, p).Some?
    ensures id in InsertedGuarded(db, p).value.invocations
    ensures Children(InsertedGuarded(db, p).value.runs, id) == Children(db.runs, id)
  {
    var blocked := Overlaps(db, p.invocation.automationId, p.scope);
    var base := if blocked then db else db.(invocations := db.invocations[p.invocation.id := p.invocation]);
    ChildrenShape(base, p.invocation.id, p.children);
    ChildrenIgnoreOthers(db.runs, if blocked then [] else Stamped(p.invocation.id, p.children), id);
  }

  /** No operation adds a child to an existing invocation, and each of its children only moves on. */
  lemma StepMovesChildrenOn(db: Db, op: Op, id: Id)
    requires Dutiful(db, op) && id in db.invocations
    ensures id in Step(db, op).invocations
    ensures RunsMoveOn(Children(db.runs, id), Children(Step(db, op).runs, id))
  {
    if op.Guarded? {
      if InsertedGuarded(db, op.p).Some? {
        GuardedLeavesChildren(db, op.p, id);
      }
    } else {
      ChildrenMoveOn(db.runs, Step(db, op).runs, id);
    }
  }

  lemma MovesOnTransitive(a: seq<Run>, b: seq<Run>, c: seq<Run>)
    requires RunsMoveOn(a, b) && RunsMoveOn(b, c)
    ensures RunsMoveOn(a, c)
  {}

  lemma {:induction false} RunMovesChildrenOn(db: Db, ops: seq<Op>, id: Id)
    requires Dutifully(db, ops) && id in db.invocations
    ensures RunsMoveOn(Children(db.runs, id), Children(RunAll(db, ops).runs, id))
    decreases |ops|
  {
    if ops != [] {
      var next := Step(db, ops[0]);
      StepMovesChildrenOn(db, ops[0], id);
      RunMovesChildrenOn(next, ops[1..], id);
      MovesOnTransitive(Children(db.runs, id), Children(next.runs, id), Children(RunAll(db, ops).runs, id));
    }
  }

  predicate Terminal(status: InvocationStatus) {
    status != SStarting && status != SRunning
  }

  /** Once every child is terminal, derived status and completion time never change again. */
  lemma TerminalIsFinal(db: Db, ops: seq<Op>, id: Id)
    requires Dutifully(db, ops) && id in db.invocations && Terminal(SqlStatus(Children(db.runs, id)))
    ensures Children(RunAll(db, ops).runs, id) == Children(db.runs, id)
    ensures SqlStatus(Children(RunAll(db, ops).runs, id)) == SqlStatus(Children(db.runs, id))
    ensures SqlCompletedAt(Children(RunAll(db, ops).runs, id)) == SqlCompletedAt(Children(db.runs, id))
  {
    var before, after := Children(db.runs, id), Children(RunAll(db, ops).runs, id);
    RunMovesChildrenOn(db, ops, id);
    SumCounts(before, s => s == Starting || s == Running);
    forall k | 0 <= k < |before| ensures after[k] == before[k] {
      assert before[k] in before;
    }
  }

  function Rank(status: InvocationStatus): nat {
    if status == SStarting then 0 else if status == SRunning then 1 else 2
  }

  /** The derived status only moves forward: starting, then running, then one final outcome. */
  lemma StatusOnlyMovesForward(db: Db, ops: seq<Op>, id: Id)
    requires Dutifully(db, ops) && id in db.invocations
    ensures Rank(SqlStatus(Children(RunAll(db, ops).runs, id))) >= Rank(SqlStatus(Children(db.runs, id)))
  {
    var before, after := Children(db.runs, id), Children(RunAll(db, ops).runs, id);
    if Terminal(SqlStatus(before)) {
      TerminalIsFinal(db, ops, id);
    } else {
      RunMovesChildrenOn(db, ops, id);
      if SqlStatus(before) == SRunning {
        StartedStaysStarted(before, after);
      }
    }
  }

  lemma StartedStaysStarted(before: seq<Run>, after: seq<Run>)
    requires RunsMoveOn(before, after) && Sum(before, s => s != Starting) > 0
    ensures Sum(after, s => s != Starting) > 0
  {
    SumCounts(before, s => s != Starting);
    SumCounts(after, s => s != Starting);
    var k :| 0 <= k < |before| && before[k].status != Starting;
    assert MovesOn(before[k], after[k]) && after[k] in after;
  }

  // ---- failure accounting ----

  function CountWins(db: Db, ops: seq<Op>, id: Id): nat
    decreases |ops|
  {
    if ops == [] then 0
    else (if Wins(db, ops[0]) && ops[0].id == id then 1 else 0) + CountWins(Step(db, ops[0]), ops[1..], id)
  }

  predicate Counted(db: Db, id: Id) {
    id in db.invocations && db.invocations[id].failureCountedAt.Some?
  }

  /** However many callbacks race, at most one wins the right to count an invocation's failure. */
  lemma {:induction false} FailureCountedAtMostOnce(db: Db, ops: seq<Op>, id: Id)
    requires Dutifully(db, ops)
    ensures CountWins(db, ops, id) <= if Counted(db, id) then 0 else 1
    decreases |ops|
  {
    if ops != [] {
      if Counted(db, id) && ops[0].Guarded? {
        var p := ops[0].p;
        if InsertedGuarded(db, p).Some? {
          var blocked := Overlaps(db, p.invocation.automationId, p.scope);
          var base := if blocked then db else db.(invocations := db.invocations[p.invocation.id := p.invocation]);
          ChildrenShape(base, p.invocation.id, p.children);
        }
      }
      FailureCountedAtMostOnce(Step(db, ops[0]), ops[1..], id);
    }
  }
}
