/** Automation invocations and their child runs: guarded batches, guarded updates, and the derived status. */
module Automations {
  import opened Support

  type Id = string

  datatype RunStatus = Starting | Running | Completed | Failed | Skipped

  predicate Active(status: RunStatus) {
    status == Starting || status == Running
  }

  datatype Run = Run(
    id: Id, automationId: Id, invocationId: Id, status: RunStatus, sessionId: Option<Id>, failureReason: Option<string>,
    startedAt: Option<int>, completedAt: Option<int>, repository: Option<(string, string)>, environment: Option<Id>)

  datatype Source = Schedule | Manual | Event

  datatype Invocation = Invocation(
    id: Id, automationId: Id, source: Source, scheduledAt: Option<int>, triggerKey: Option<string>,
    concurrencyKey: Option<string>, skipReason: Option<string>, failureCountedAt: Option<int>)

  datatype Automation = Automation(nextRunAt: Option<int>, deleted: bool)

  /** `runs` is the table in row order. */
  datatype Db = Db(automations: map<Id, Automation>, invocations: map<Id, Invocation>, runs: seq<Run>)

  datatype Scope = AutomationScope | KeyScope(concurrencyKey: string)

  /** The fields a partial update names; an outer `None` is an absent field. */
  datatype Fields = Fields(
    sessionId: Option<Option<Id>>, status: Option<RunStatus>, failureReason: Option<Option<string>>,
    startedAt: Option<Option<int>>, completedAt: Option<Option<int>>)

  // ---- derived status: the SQL expressions and the TypeScript twin ----

  datatype InvocationStatus = SStarting | SRunning | SCompleted | SFailed | SPartialFailed | SSkipped

  datatype Counts = Counts(total: nat, active: nat, failed: nat, completed: nat, skipped: nat, starting: nat)

  /** `SUM(CASE WHEN p THEN 1 ELSE 0 END)` over the group's rows. */
  function Sum(rows: seq<Run>, p: RunStatus -> bool): nat {
    if rows == [] then 0 else Sum(rows[..|rows| - 1], p) + (if p(rows[|rows| - 1].status) then 1 else 0)
  }

  /** DERIVED_INVOCATION_STATUS_SQL. */
  function SqlStatus(rows: seq<Run>): InvocationStatus {
    if |rows| == 0 then SSkipped
    else if Sum(rows, s => s == Starting || s == Running) > 0 then
      if Sum(rows, s => s != Starting) == 0 then SStarting else SRunning
    else if Sum(rows, s => s == Skipped) == |rows| then SSkipped
    else if Sum(rows, s => s == Failed) == 0 then SCompleted
    else if Sum(rows, s => s == Completed) == 0 then SFailed
    else SPartialFailed
  }

  /** The MAX aggregate skips NULLs. */
  function MaxCompletedAt(rows: seq<Run>): Option<int> {
    if rows == [] then None
    else
      var rest, last := MaxCompletedAt(rows[..|rows| - 1]), rows[|rows| - 1].completedAt;
      if last.None? then rest else if rest.None? then last else Some(Max(rest.value, last.value))
  }

  ghost predicate IsLatest(rows: seq<Run>, at: int) {
    (exists r :: r in rows && r.completedAt == Some(at)) && forall r :: r in rows && r.completedAt.Some? ==> r.completedAt.value <= at
  }

  lemma {:induction false} MaxIsLatest(rows: seq<Run>)
    ensures MaxCompletedAt(rows).None? <==> forall r :: r in rows ==> r.completedAt.None?
    ensures MaxCompletedAt(rows).Some? ==> IsLatest(rows, MaxCompletedAt(rows).value)
  {
    if rows != [] {
      var fewer, last := rows[..|rows| - 1], rows[|rows| - 1];
      MaxIsLatest(fewer);
      assert rows == fewer + [last];
    }
  }

  /** DERIVED_INVOCATION_COMPLETED_AT_SQL. */
  function SqlCompletedAt(rows: seq<Run>): Option<int> {
    if |rows| == 0 || Sum(rows, s => s == Starting || s == Running) > 0 then None else MaxCompletedAt(rows)
  }

  /** `deriveInvocationStatus`. */
  function DeriveInvocationStatus(counts: Counts): InvocationStatus {
    if counts.total == 0 then SSkipped
    else if counts.active > 0 then if counts.starting == counts.total then SStarting else SRunning
    else if counts.skipped == counts.total then SSkipped
    else if counts.failed == 0 then SCompleted
    else if counts.completed == 0 then SFailed
    else SPartialFailed
  }

  /** The sibling aggregate of an invocation's runs, computed in one pass. */
  method Aggregate(rows: seq<Run>) returns (counts: Counts, lastCompletedAt: Option<int>)
    ensures counts == CountsOf(rows)
    ensures lastCompletedAt == MaxCompletedAt(rows)
    ensures lastCompletedAt.None? <==> forall r :: r in rows ==> r.completedAt.None?
    ensures lastCompletedAt.Some? ==> IsLatest(rows, lastCompletedAt.value)
  {
    MaxIsLatest(rows);
    counts := Counts(0, 0, 0, 0, 0, 0);
    lastCompletedAt := None;
    for k := 0 to |rows|
      invariant counts == CountsOf(rows[..k])
      invariant lastCompletedAt == MaxCompletedAt(rows[..k])
    {
      assert rows[..k + 1][..k] == rows[..k];
      var s := rows[k].status;
      counts := Counts(
        counts.total + 1,
        counts.active + (if Active(s) then 1 else 0),
        counts.failed + (if s == Failed then 1 else 0),
        counts.completed + (if s == Completed then 1 else 0),
        counts.skipped + (if s == Skipped then 1 else 0),
        counts.starting + (if s == Starting then 1 else 0));
      var at := rows[k].completedAt;
      if at.Some? {
        lastCompletedAt := if lastCompletedAt.None? then at else Some(Max(lastCompletedAt.value, at.value));
      }
    }
    assert rows[..|rows|] == rows;
  }

  function CountsOf(rows: seq<Run>): Counts {
    if rows == [] then Counts(0, 0, 0, 0, 0, 0)
    else
      var rest, s := CountsOf(rows[..|rows| - 1]), rows[|rows| - 1].status;
      Counts(rest.total + 1,
             rest.active + (if Active(s) then 1 else 0),
             rest.failed + (if s == Failed then 1 else 0),
             rest.completed + (if s == Completed then 1 else 0),
             rest.skipped + (if s == Skipped then 1 else 0),
             rest.starting + (if s == Starting then 1 else 0))
  }

  ghost predicate AllRuns(rows: seq<Run>, p: RunStatus -> bool) {
    forall r :: r in rows ==> p(r.status)
  }

  ghost predicate NoRun(rows: seq<Run>, p: RunStatus -> bool) {
    forall r :: r in rows ==> !p(r.status)
  }

  lemma LastRun(rows: seq<Run>, p: RunStatus -> bool)
    requires rows != []
    ensures AllRuns(rows, p) <==> AllRuns(rows[..|rows| - 1], p) && p(rows[|rows| - 1].status)
    ensures NoRun(rows, p) <==> NoRun(rows[..|rows| - 1], p) && !p(rows[|rows| - 1].status)
  {
    assert rows == rows[..|rows| - 1] + [rows[|rows| - 1]];
  }

  lemma {:induction false} SumCounts(rows: seq<Run>, p: RunStatus -> bool)
    ensures Sum(rows, p) <= |rows|
    ensures Sum(rows, p) == 0 <==> NoRun(rows, p)
    ensures Sum(rows, p) == |rows| <==> AllRuns(rows, p)
  {
    if rows != [] {
      SumCounts(rows[..|rows| - 1], p);
      LastRun(rows, p);
    }
  }

  lemma {:induction false} CountsAreSums(rows: seq<Run>)
    ensures var c := CountsOf(rows);
            && c.total == |rows|
            && c.active == Sum(rows, s => s == Starting || s == Running)
            && c.failed == Sum(rows, s => s == Failed)
            && c.completed == Sum(rows, s => s == Completed)
            && c.skipped == Sum(rows, s => s == Skipped)
            && c.starting + Sum(rows, s => s != Starting) == |rows|
  {
    if rows != [] {
      CountsAreSums(rows[..|rows| - 1]);
    }
  }

  /** The SQL expression and its TypeScript twin agree on every list of child runs. */
  lemma SqlAgreesWithTwin(rows: seq<Run>)
    ensures SqlStatus(rows) == DeriveInvocationStatus(CountsOf(rows))
  {
    CountsAreSums(rows);
  }

  ghost predicate Has(rows: seq<Run>, status: RunStatus) {
    exists r :: r in rows && r.status == status
  }

  lemma NoneHas(rows: seq<Run>, status: RunStatus)
    ensures Sum(rows, s => s == status) == 0 <==> !Has(rows, status)
  {
    SumCounts(rows, s => s == status);
  }

  lemma ActiveHas(rows: seq<Run>)
    ensures Sum(rows, s => s == Starting || s == Running) == 0 <==> !Has(rows, Starting) && !Has(rows, Running)
  {
    SumCounts(rows, s => s == Starting || s == Running);
  }

  lemma StartedHas(rows: seq<Run>)
    ensures Sum(rows, s => s != Starting) == 0 <==>
              !Has(rows, Running) && !Has(rows, Completed) && !Has(rows, Failed) && !Has(rows, Skipped)
  {
    SumCounts(rows, s => s != Starting);
    forall r | r in rows ensures r.status != Starting ==>
      Has(rows, Running) || Has(rows, Completed) || Has(rows, Failed) || Has(rows, Skipped)
    {}
  }

  lemma AllSkippedHas(rows: seq<Run>)
    ensures Sum(rows, s => s == Skipped) == |rows| <==>
              !Has(rows, Starting) && !Has(rows, Running) && !Has(rows, Completed) && !Has(rows, Failed)
  {
    SumCounts(rows, s => s == Skipped);
    forall r | r in rows ensures r.status != Skipped ==>
      Has(rows, Starting) || Has(rows, Running) || Has(rows, Completed) || Has(rows, Failed)
    {}
  }

  /** What the derived status says about the children. */
  lemma StatusMeaning(rows: seq<Run>)
    ensures var active := Has(rows, Starting) || Has(rows, Running);
            var started := Has(rows, Running) || Has(rows, Completed) || Has(rows, Failed) || Has(rows, Skipped);
            && (SqlStatus(rows) == SStarting <==> active && !started)
            && (SqlStatus(rows) == SRunning <==> active && started)
            && (SqlStatus(rows) == SSkipped <==> !active && !Has(rows, Failed) && !Has(rows, Completed))
            && (SqlStatus(rows) == SCompleted <==> !active && !Has(rows, Failed) && Has(rows, Completed))
            && (SqlStatus(rows) == SFailed <==> !active && Has(rows, Failed) && !Has(rows, Completed))
            && (SqlStatus(rows) == SPartialFailed <==> !active && Has(rows, Failed) && Has(rows, Completed))
  {
    ActiveHas(rows);
    StartedHas(rows);
    AllSkippedHas(rows);
    NoneHas(rows, Failed);
    NoneHas(rows, Completed);
    if |rows| > 0 {
      assert Has(rows, rows[0].status);
    }
  }

  /** An invocation completes when no child is active any more, at the time of its last child to complete. */
  lemma CompletionMeaning(rows: seq<Run>)
    ensures SqlCompletedAt(rows).Some? <==>
              !Has(rows, Starting) && !Has(rows, Running) && exists r :: r in rows && r.completedAt.Some?
    ensures SqlCompletedAt(rows).Some? ==> IsLatest(rows, SqlCompletedAt(rows).value)
  {
    ActiveHas(rows);
    MaxIsLatest(rows);
  }

  // ---- the statements ----

  /** The overlap predicate of `NOT EXISTS (...)`. */
  predicate Overlaps(db: Db, automationId: Id, scope: Scope) {
    exists k | 0 <= k < |db.runs| ::
      && db.runs[k].automationId == automationId && Active(db.runs[k].status)
      && (scope.KeyScope? ==> db.runs[k].invocationId in db.invocations
                              && db.invocations[db.runs[k].invocationId].concurrencyKey == Some(scope.concurrencyKey))
  }

  /** Primary key, the two dedup indexes and the schedule CHECK: the constraints that OR IGNORE swallows. */
  predicate InvocationIgnorable(db: Db, inv: Invocation) {
    || inv.id in db.invocations
    || (inv.source == Schedule && inv.scheduledAt.None?)
    || exists i | i in db.invocations ::
         && db.invocations[i].automationId == inv.automationId
         && ((inv.source == Schedule && db.invocations[i].source == Schedule && db.invocations[i].scheduledAt == inv.scheduledAt)
             || (inv.triggerKey.Some? && db.invocations[i].triggerKey == inv.triggerKey))
  }

  /** Those constraints and the foreign key. */
  predicate InvocationRejected(db: Db, inv: Invocation) {
    InvocationIgnorable(db, inv) || inv.automationId !in db.automations
  }

  predicate RunRejected(runs: seq<Run>, run: Run) {
    exists k | 0 <= k < |runs| ::
      || runs[k].id == run.id
      || (runs[k].invocationId == run.invocationId
          && ((run.repository.Some? && runs[k].repository == run.repository)
              || (run.environment.Some? && runs[k].environment == run.environment)))
  }

  /** The child inserts in order, each a no-op unless the invocation exists; `None` is a constraint error. */
  function WithChildren(db: Db, invocationId: Id, children: seq<Run>): Option<Db> {
    if children == [] then Some(db)
    else
      var before := WithChildren(db, invocationId, children[..|children| - 1]);
      var child := children[|children| - 1].(invocationId := invocationId);
      if before.None? then None
      else if invocationId !in before.value.invocations then before
      else if child.automationId !in db.automations || RunRejected(before.value.runs, child) then None
      else Some(before.value.(runs := before.value.runs + [child]))
  }

  /** The children as they are stored: in the batch's invocation. */
  function Stamped(id: Id, children: seq<Run>): (r: seq<Run>)
    ensures |r| == |children|
    ensures forall k :: 0 <= k < |r| ==> r[k] == children[k].(invocationId := id)
  {
    if children == [] then [] else Stamped(id, children[..|children| - 1]) + [children[|children| - 1].(invocationId := id)]
  }

  /** A stored run holds a key that the child needs: its id, or its repository or environment within the invocation. */
  ghost predicate HoldsKeyOf(other: Run, id: Id, child: Run) {
    || other.id == child.id
    || (other.invocationId == id && child.repository.Some? && other.repository == child.repository)
    || (other.invocationId == id && child.environment.Some? && other.environment == child.environment)
  }

  ghost predicate ChildFits(db: Db, id: Id, children: seq<Run>, k: nat)
    requires k < |children|
  {
    && children[k].automationId in db.automations
    && (forall r :: r in db.runs ==> !HoldsKeyOf(r, id, children[k]))
    && (forall j :: 0 <= j < k ==> !HoldsKeyOf(children[j].(invocationId := id), id, children[k]))
  }

  ghost predicate ChildrenFit(db: Db, id: Id, children: seq<Run>) {
    forall k: nat :: k < |children| ==> ChildFits(db, id, children, k)
  }

  lemma RunRejectedIff(db: Db, id: Id, children: seq<Run>)
    requires children != []
    ensures var k := |children| - 1;
            ChildFits(db, id, children, k) <==>
            && children[k].automationId in db.automations
            && !RunRejected(db.runs + Stamped(id, children[..k]), children[k].(invocationId := id))
  {
    var k := |children| - 1;
    var runs, child := db.runs + Stamped(id, children[..k]), children[k].(invocationId := id);
    forall j | 0 <= j < k ensures runs[|db.runs| + j] == children[j].(invocationId := id) {}
    if RunRejected(runs, child) {
      var i :| 0 <= i < |runs| && HoldsKeyOf(runs[i], id, children[k]);
      if i >= |db.runs| {
        assert HoldsKeyOf(children[i - |db.runs|].(invocationId := id), id, children[k]);
      }
    } else {
      forall r | r in db.runs ensures !HoldsKeyOf(r, id, children[k]) {
        var i :| 0 <= i < |db.runs| && db.runs[i] == r;
        assert runs[i] == r;
      }
      forall j | 0 <= j < k ensures !HoldsKeyOf(children[j].(invocationId := id), id, children[k]) {
        assert !HoldsKeyOf(runs[|db.runs| + j], id, children[k]);
      }
    }
  }

  /** With its invocation stored, a batch adds all children or, if one key is taken, fails; without it, it adds none. */
  lemma {:induction false} WithChildrenIff(db: Db, id: Id, children: seq<Run>)
    ensures WithChildren(db, id, children).Some? <==> id in db.invocations ==> ChildrenFit(db, id, children)
    ensures WithChildren(db, id, children).Some? ==>
              WithChildren(db, id, children).value == if id in db.invocations then db.(runs := db.runs + Stamped(id, children)) else db
  {
    if children != [] {
      var fewer := children[..|children| - 1];
      WithChildrenIff(db, id, fewer);
      RunRejectedIff(db, id, children);
      assert forall k: nat :: k < |fewer| ==> (ChildFits(db, id, children, k) <==> ChildFits(db, id, fewer, k));
      assert ChildrenFit(db, id, children) <==> ChildrenFit(db, id, fewer) && ChildFits(db, id, children, |children| - 1);
    }
  }

  function Advanced(db: Db, automationId: Id, nextRunAt: Option<int>): Db {
    if nextRunAt.Some? && automationId in db.automations && !db.automations[automationId].deleted
    then db.(automations := db.automations[automationId := db.automations[automationId].(nextRunAt := nextRunAt)])
    else db
  }

  datatype GuardedInsert = GuardedInsert(invocation: Invocation, children: seq<Run>, scope: Scope, advanceTo: Option<int>)

  /** The whole batch: `None` when a constraint error rolls it back, schedule advance included. */
  function InsertedGuarded(db: Db, p: GuardedInsert): Option<Db> {
    var blocked := Overlaps(db, p.invocation.automationId, p.scope);
    if !blocked && InvocationRejected(db, p.invocation) then None
    else
      var base := if blocked then db else db.(invocations := db.invocations[p.invocation.id := p.invocation]);
      var filled := WithChildren(base, p.invocation.id, p.children);
      if filled.None? then None else Some(Advanced(filled.value, p.invocation.automationId, p.advanceTo))
  }

  /** A recorded skip: a duplicate is ignored, and `None` is the foreign key error that rolls the batch back. */
  function InsertedSkip(db: Db, inv: Invocation, advanceTo: Option<int>): Option<Db> {
    if InvocationIgnorable(db, inv) then Some(Advanced(db, inv.automationId, advanceTo))
    else if inv.automationId !in db.automations then None
    else Some(Advanced(db.(invocations := db.invocations[inv.id := inv]), inv.automationId, advanceTo))
  }

  predicate NamesNothing(f: Fields) {
    f.sessionId.None? && f.status.None? && f.failureReason.None? && f.startedAt.None? && f.completedAt.None?
  }

  function Patched(run: Run, f: Fields): Run {
    run.(sessionId := if f.sessionId.Some? then f.sessionId.value else run.sessionId,
         status := if f.status.Some? then f.status.value else run.status,
         failureReason := if f.failureReason.Some? then f.failureReason.value else run.failureReason,
         startedAt := if f.startedAt.Some? then f.startedAt.value else run.startedAt,
         completedAt := if f.completedAt.Some? then f.completedAt.value else run.completedAt)
  }

  function Updated(run: Run, id: Id, f: Fields): Run {
    if run.id == id && Active(run.status) then Patched(run, f) else run
  }

  function Swept(run: Run, ids: seq<Id>, reason: string, at: int): Run {
    if run.id in ids && Active(run.status) then run.(status := Failed, failureReason := Some(reason), completedAt := Some(at)) else run
  }

  class AutomationStore {
    var db: Db

    constructor (db: Db)
      ensures this.db == db
    {
      this.db := db;
    }

    method InsertInvocationGuarded(p: GuardedInsert) returns (inserted: Option<bool>)
      modifies this
      ensures inserted.None? <==> InsertedGuarded(old(db), p).None?
      ensures inserted.None? ==> db == old(db)
      ensures inserted.Some? ==>
                && db == InsertedGuarded(old(db), p).value
                && inserted.value == !Overlaps(old(db), p.invocation.automationId, p.scope)
      ensures inserted.Some? ==> (inserted.value <==> !AlreadyRunning(old(db), p.invocation.automationId, p.scope))
      ensures inserted.None? <==>
                || (!AlreadyRunning(old(db), p.invocation.automationId, p.scope)
                    && (InvocationKeyTaken(old(db), p.invocation) || p.invocation.automationId !in old(db).automations))
                || ((!AlreadyRunning(old(db), p.invocation.automationId, p.scope) || p.invocation.id in old(db).invocations)
                    && !ChildrenFit(old(db), p.invocation.id, p.children))
      ensures inserted.Some? ==>
                && db.invocations == (if inserted.value then old(db).invocations[p.invocation.id := p.invocation] else old(db).invocations)
                && db.runs == old(db).runs + (if p.invocation.id in db.invocations then Stamped(p.invocation.id, p.children) else [])
                && ScheduleMoved(old(db).automations, db.automations, p.invocation.automationId, p.advanceTo)
    {
      var before := db;
      GuardedInsertIff(db, p);
      var blocked := Overlaps(db, p.invocation.automationId, p.scope);
      if !blocked {
        if InvocationRejected(db, p.invocation) {
          return None;
        }
        db := db.(invocations := db.invocations[p.invocation.id := p.invocation]);
      }
      ghost var base := db;
      var k := 0;
      while k < |p.children|
        invariant 0 <= k <= |p.children|
        invariant WithChildren(base, p.invocation.id, p.children[..k]) == Some(db)
        invariant db.automations == base.automations && db.invocations == base.invocations
      {
        assert p.children[..k + 1][..k] == p.children[..k];
        var child := p.children[k].(invocationId := p.invocation.id);
        if p.invocation.id in db.invocations {
          if child.automationId !in db.automations || RunRejected(db.runs, child) {
            ErrorsPropagate(base, p.invocation.id, p.children, k + 1);
            db := before;
            return None;
          }
          db := db.(runs := db.runs + [child]);
        }
        k := k + 1;
      }
      assert p.children[..k] == p.children;
      db := Advanced(db, p.invocation.automationId, p.advanceTo);
      return Some(!blocked);
    }

    method InsertSkippedInvocation(inv: Invocation, advanceTo: Option<int>) returns (inserted: Option<bool>)
      modifies this
      ensures inserted.None? <==> InsertedSkip(old(db), inv, advanceTo).None?
      ensures inserted.None? <==> inv.automationId !in old(db).automations && !InvocationIgnorable(old(db), inv)
      ensures db == if inserted.None? then old(db) else InsertedSkip(old(db), inv, advanceTo).value
      ensures inserted == Some(true) <==> !InvocationRejected(old(db), inv)
      ensures db.runs == old(db).runs
      ensures inserted == Some(false) <==> InvocationKeyTaken(old(db), inv)
      ensures db.invocations == if inserted == Some(true) then old(db).invocations[inv.id := inv] else old(db).invocations
      ensures if inserted.None? then db == old(db) else ScheduleMoved(old(db).automations, db.automations, inv.automationId, advanceTo)
    {
      var ignored := InvocationIgnorable(db, inv);
      if !ignored {
        if inv.automationId !in db.automations {
          return None;
        }
        db := db.(invocations := db.invocations[inv.id := inv]);
      }
      db := Advanced(db, inv.automationId, advanceTo);
      return Some(!ignored);
    }

    method UpdateRun(id: Id, f: Fields) returns (changed: bool)
      modifies this
      ensures changed <==> !NamesNothing(f) && exists k :: 0 <= k < |old(db).runs| && old(db).runs[k].id == id && Active(old(db).runs[k].status)
      ensures |db.runs| == |old(db).runs|
      ensures forall k :: 0 <= k < |db.runs| ==> db.runs[k] == Updated(old(db).runs[k], id, f)
      ensures forall k :: 0 <= k < |db.runs| ==>
                var before, after := old(db).runs[k], db.runs[k];
                if before.id == id && before.status in {Starting, Running}
                then
                  && after.sessionId == OrKept(f.sessionId, before.sessionId) && after.status == OrKept(f.status, before.status)
                  && after.failureReason == OrKept(f.failureReason, before.failureReason)
                  && after.startedAt == OrKept(f.startedAt, before.startedAt)
                  && after.completedAt == OrKept(f.completedAt, before.completedAt)
                  && SameApartFromFields(before, after)
                else after == before
      ensures db == old(db).(runs := db.runs)
    {
      if NamesNothing(f) {
        return false;
      }
      var runs := db.runs;
      changed := false;
      for k := 0 to |db.runs|
        invariant db == old(db) && |runs| == |db.runs|
        invariant changed <==> exists j :: 0 <= j < k && db.runs[j].id == id && Active(db.runs[j].status)
        invariant forall j :: 0 <= j < |runs| ==> runs[j] == if j < k then Updated(db.runs[j], id, f) else db.runs[j]
      {
        if runs[k].id == id && Active(runs[k].status) {
          runs := runs[k := Patched(runs[k], f)];
          changed := true;
        }
      }
      db := db.(runs := runs);
    }

    method BulkFailRuns(ids: seq<Id>, reason: string, completedAt: int)
      modifies this
      ensures |db.runs| == |old(db).runs|
      ensures forall k :: 0 <= k < |db.runs| ==> db.runs[k] == Swept(old(db).runs[k], ids, reason, completedAt)
      ensures forall k :: 0 <= k < |db.runs| ==>
                db.runs[k] == if old(db).runs[k].id in ids && old(db).runs[k].status in {Starting, Running}
                              then old(db).runs[k].(status := Failed, failureReason := Some(reason), completedAt := Some(completedAt))
                              else old(db).runs[k]
      ensures db == old(db).(runs := db.runs)
    {
      var runs := db.runs;
      for k := 0 to |db.runs|
        invariant db == old(db) && |runs| == |db.runs|
        invariant forall j :: 0 <= j < |runs| ==> runs[j] == if j < k then Swept(db.runs[j], ids, reason, completedAt) else db.runs[j]
      {
        if runs[k].id in ids && Active(runs[k].status) {
          runs := runs[k := runs[k].(status := Failed, failureReason := Some(reason), completedAt := Some(completedAt))];
        }
      }
      db := db.(runs := runs);
    }

    /** The compare-and-set of auto-pause accounting. */
    method TryMarkInvocationFailureCounted(id: Id, now: int) returns (won: bool)
      modifies this
      ensures won <==> id in old(db).invocations && old(db).invocations[id].failureCountedAt.None?
      ensures db == if won then old(db).(invocations := old(db).invocations[id := old(db).invocations[id].(failureCountedAt := Some(now))])
                    else old(db)
    {
      won := id in db.invocations && db.invocations[id].failureCountedAt.None?;
      if won {
        db := db.(invocations := db.invocations[id := db.invocations[id].(failureCountedAt := Some(now))]);
      }
    }
  }

  ghost function OrKept<T>(field: Option<T>, kept: T): T {
    match field
    case None => kept
    case Some(value) => value
  }

  ghost predicate SameApartFromFields(before: Run, after: Run) {
    && after.id == before.id && after.automationId == before.automationId && after.invocationId == before.invocationId
    && after.repository == before.repository && after.environment == before.environment
  }

  // ---- the guarded insert, in columns ----

  /** The automation has an active run; in key scope, one of an invocation that carries this very key. */
  ghost predicate AlreadyRunning(db: Db, automationId: Id, scope: Scope) {
    exists r :: r in db.runs && r.automationId == automationId && r.status in {Starting, Running}
                && match scope
                   case AutomationScope => true
                   case KeyScope(key) => r.invocationId in db.invocations && db.invocations[r.invocationId].concurrencyKey == Some(key)
  }

  /** The id, the slot of the schedule or the trigger is taken, or a schedule has no slot. */
  ghost predicate InvocationKeyTaken(db: Db, inv: Invocation) {
    || inv.id in db.invocations || (inv.source == Schedule && inv.scheduledAt.None?)
    || (exists i :: i in db.invocations && db.invocations[i].automationId == inv.automationId
                    && inv.source == Schedule == db.invocations[i].source && db.invocations[i].scheduledAt == inv.scheduledAt)
    || (exists i :: i in db.invocations && db.invocations[i].automationId == inv.automationId
                    && inv.triggerKey.Some? && db.invocations[i].triggerKey == inv.triggerKey)
  }

  /** Only a live automation's next run moves, and only when there is one to move to. */
  ghost predicate ScheduleMoved(before: map<Id, Automation>, after: map<Id, Automation>, automationId: Id, nextRunAt: Option<int>) {
    && after.Keys == before.Keys
    && forall a :: a in before ==>
         after[a] == if a == automationId && nextRunAt.Some? && !before[a].deleted then before[a].(nextRunAt := nextRunAt) else before[a]
  }

  lemma OverlapsIff(db: Db, automationId: Id, scope: Scope)
    ensures Overlaps(db, automationId, scope) <==> AlreadyRunning(db, automationId, scope)
  {
    if AlreadyRunning(db, automationId, scope) {
      var r :| r in db.runs && r.automationId == automationId && r.status in {Starting, Running}
               && match scope
                  case AutomationScope => true
                  case KeyScope(key) => r.invocationId in db.invocations && db.invocations[r.invocationId].concurrencyKey == Some(key);
      var k :| 0 <= k < |db.runs| && db.runs[k] == r;
    }
  }

  /** The batch answers false exactly when the automation is already running; otherwise it stores everything or fails. */
  lemma GuardedInsertIff(db: Db, p: GuardedInsert)
    ensures var running, id := AlreadyRunning(db, p.invocation.automationId, p.scope), p.invocation.id;
            && (Overlaps(db, p.invocation.automationId, p.scope) <==> running)
            && (InsertedGuarded(db, p).None? <==>
                  || (!running && (InvocationKeyTaken(db, p.invocation) || p.invocation.automationId !in db.automations))
                  || ((!running || id in db.invocations) && !ChildrenFit(db, id, p.children)))
            && (InsertedGuarded(db, p).Some? ==>
                  var after := InsertedGuarded(db, p).value;
                  && after.invocations == (if running then db.invocations else db.invocations[id := p.invocation])
                  && after.runs == db.runs + (if id in after.invocations then Stamped(id, p.children) else [])
                  && ScheduleMoved(db.automations, after.automations, p.invocation.automationId, p.advanceTo))
  {
    OverlapsIff(db, p.invocation.automationId, p.scope);
    var running := AlreadyRunning(db, p.invocation.automationId, p.scope);
    assert InvocationIgnorable(db, p.invocation) <==> InvocationKeyTaken(db, p.invocation);
    var base := if running then db else db.(invocations := db.invocations[p.invocation.id := p.invocation]);
    WithChildrenIff(base, p.invocation.id, p.children);
    assert ChildrenFit(base, p.invocation.id, p.children) <==> ChildrenFit(db, p.invocation.id, p.children) by {
      assert forall k: nat :: k < |p.children| ==>
               (ChildFits(base, p.invocation.id, p.children, k) <==> ChildFits(db, p.invocation.id, p.children, k));
    }
  }

  lemma {:induction false} ErrorsPropagate(db: Db, id: Id, children: seq<Run>, k: nat)
    requires k <= |children| && WithChildren(db, id, children[..k]).None?
    ensures WithChildren(db, id, children).None?
    decreases |children| - k
  {
    if k < |children| {
      assert children[..k + 1][..k] == children[..k];
      ErrorsPropagate(db, id, children, k + 1);
    } else {
      assert children[..k] == children;
    }
  }
}
