/** Runs of the credential table: statements are prepared after a read and executed arbitrarily later. */
module ProviderCredentialRuns {
  import opened Support
  import opened ProviderCredentials

  type CallId = nat

  /** A committed change of one identity's row. */
  datatype Commit =
    | Wrote(credential: Credential, observed: int, version: int, updatedAt: int)
    | Deleted

  /** A prepared statement, and how many commits its writer had seen. */
  datatype Pending = Pending(statement: Statement, credential: Credential, seen: nat)

  datatype State = State(rows: Table, pending: map<CallId, Pending>, log: map<string, seq<Commit>>)

  datatype Event =
    | PrepareInitialInsert(call: CallId, identity: string, credential: Credential, at: int)
    | PrepareSignInUpsert(call: CallId, identity: string, credential: Credential, at: int)
    | PrepareUpdate(call: CallId, identity: string, credential: Credential, at: int)   // upsertFromSignIn, replaceObservedVersion
    | PrepareDelete(call: CallId, identity: string)
    | Execute(call: CallId)
    | Abandon(call: CallId)   // the writer stopped, or its batch failed elsewhere

  const INIT := State(map[], map[], map[])

  function LogOf(s: State, id: string): seq<Commit> {
    if id in s.log then s.log[id] else []
  }

  predicate Enabled(s: State, e: Event) {
    match e
    case PrepareInitialInsert(c, id, credential, _) => c !in s.pending && ValidInput(id, credential)
    case PrepareSignInUpsert(c, id, credential, _) => c !in s.pending && ValidInput(id, credential)
    case PrepareUpdate(c, id, credential, _) => c !in s.pending && ValidInput(id, credential) && id in s.rows
    case PrepareDelete(c, id) => c !in s.pending && id in s.rows
    case Execute(c) => c in s.pending
    case Abandon(c) => c in s.pending
  }

  function Suspend(s: State, c: CallId, id: string, statement: Statement, credential: Credential): State {
    s.(pending := s.pending[c := Pending(statement, credential, |LogOf(s, id)|)])
  }

  function CommitOf(p: Pending): Commit {
    match p.statement
    case Insert(_, row) => Wrote(p.credential, 0, row.rowVersion, row.updatedAt)
    case Upsert(_, row, previous) => Wrote(p.credential, previous, row.rowVersion, row.updatedAt)
    case Update(_, observed, row) => Wrote(p.credential, observed, row.rowVersion, row.updatedAt)
    case Delete(_, _) => Deleted
  }

  function Step(s: State, e: Event): State
    requires Enabled(s, e)
  {
    match e
    case PrepareInitialInsert(c, id, credential, at) =>
      Suspend(s, c, id, Insert(id, Encrypted(id, credential, 1, at)), credential)
    case PrepareSignInUpsert(c, id, credential, at) =>
      if id !in s.rows then Suspend(s, c, id, Insert(id, Encrypted(id, credential, 1, at)), credential)
      else
        var v := s.rows[id].rowVersion;
        Suspend(s, c, id, Upsert(id, Encrypted(id, credential, v + 1, at), v), credential)
    case PrepareUpdate(c, id, credential, at) =>
      var v := s.rows[id].rowVersion;
      Suspend(s, c, id, Update(id, v, Encrypted(id, credential, v + 1, at)), credential)
    case PrepareDelete(c, id) =>
      Suspend(s, c, id, Delete(id, s.rows[id].rowVersion), AccessOnlyNonexpiring(""))
    case Execute(c) =>
      var p := s.pending[c];
      var id := p.statement.identity;
      var effect := EffectOf(s.rows, p.statement);
      var done := s.(pending := s.pending - {c});
      if effect.Changed? then done.(rows := effect.rows, log := s.log[id := LogOf(s, id) + [CommitOf(p)]]) else done
    case Abandon(c) => s.(pending := s.pending - {c})
  }

  predicate Possible(s: State, events: seq<Event>)
    decreases |events|
  {
    events == [] || (Enabled(s, events[0]) && Possible(Step(s, events[0]), events[1..]))
  }

  function Run(s: State, events: seq<Event>): State
    requires Possible(s, events)
    decreases |events|
  {
    if events == [] then s else Run(Step(s, events[0]), events[1..])
  }

  ghost predicate Reachable(s: State) {
    exists events :: Possible(INIT, events) && s == Run(INIT, events)
  }

  // ---- the invariant ----

  /** The stored row is exactly what the last committed writer sealed for this version. */
  predicate RowOk(s: State, id: string) {
    var log := LogOf(s, id);
    if id in s.rows then
      && |log| > 0 && log[|log| - 1].Wrote?
      && var w := log[|log| - 1];
         ValidInput(id, w.credential) && w.version >= 1 && s.rows[id] == Encrypted(id, w.credential, w.version, w.updatedAt)
    else log == [] || log[|log| - 1].Deleted?
  }

  /** A pending statement is sealed for the version after the one its writer saw. */
  predicate PendingOk(s: State, c: CallId)
    requires c in s.pending
  {
    var p := s.pending[c];
    var id, log := p.statement.identity, LogOf(s, p.statement.identity);
    && p.seen <= |log|
    && match p.statement
       case Insert(_, row) => ValidInput(id, p.credential) && row == Encrypted(id, p.credential, 1, row.updatedAt)
       case Upsert(_, row, v) => ValidInput(id, p.credential) && row == Encrypted(id, p.credential, v + 1, row.updatedAt) && Saw(log, p.seen, v)
       case Update(_, v, row) => ValidInput(id, p.credential) && row == Encrypted(id, p.credential, v + 1, row.updatedAt) && Saw(log, p.seen, v)
       case Delete(_, v) => Saw(log, p.seen, v)
  }

  /** The writer read version `v`, the last of the `seen` commits. */
  predicate Saw(log: seq<Commit>, seen: nat, v: int) {
    0 < seen <= |log| && log[seen - 1].Wrote? && log[seen - 1].version == v && v >= 1
  }

  /** Without deletes every commit observed exactly its predecessor and raised the version by one. */
  ghost predicate Consecutive(log: seq<Commit>) {
    forall k: nat :: k < |log| && (forall j: nat :: j <= k ==> log[j].Wrote?) ==>
      log[k].observed == k && log[k].version == k + 1
  }

  ghost predicate Inv(s: State) {
    && (forall id {:trigger RowOk(s, id)} :: RowOk(s, id))
    && (forall c {:trigger PendingOk(s, c)} :: c in s.pending ==> PendingOk(s, c))
    && (forall id {:trigger Consecutive(LogOf(s, id))} :: Consecutive(LogOf(s, id)))
  }

  lemma KeepsOnPrepare(s: State, e: Event)
    requires Inv(s) && Enabled(s, e) && !e.Execute?
    ensures Inv(Step(s, e))
  {
    var t := Step(s, e);
    assert forall id :: LogOf(t, id) == LogOf(s, id);
    forall id ensures RowOk(t, id) { assert RowOk(s, id); }
    forall c | c in t.pending ensures PendingOk(t, c) {
      if c in s.pending && t.pending[c] == s.pending[c] {
        assert PendingOk(s, c);
      } else {
        assert RowOk(s, e.identity);
      }
    }
  }

  /** Appending a commit that observed the current version keeps the versions consecutive. */
  lemma AppendsConsecutively(s: State, c: CallId)
    requires Inv(s) && c in s.pending && EffectOf(s.rows, s.pending[c].statement).Changed?
    ensures Consecutive(LogOf(s, s.pending[c].statement.identity) + [CommitOf(s.pending[c])])
  {
    var p := s.pending[c];
    var id := p.statement.identity;
    var log := LogOf(s, id);
    assert PendingOk(s, c) && RowOk(s, id) && Consecutive(log);
    var longer := log + [CommitOf(p)];
    forall k: nat | k < |longer| && (forall j: nat :: j <= k ==> longer[j].Wrote?)
      ensures longer[k].observed == k && longer[k].version == k + 1
    {
      assert forall j: nat :: j < |log| && j <= k ==> log[j] == longer[j];
      if k == |log| && k > 0 {
        assert longer[k - 1].Wrote? && log[k - 1].version == k;
      }
    }
  }

  lemma ExecuteKeepsConsecutive(s: State, e: Event, id: string)
    requires Inv(s) && Enabled(s, e) && e.Execute?
    ensures Consecutive(LogOf(Step(s, e), id))
  {
    assert Consecutive(LogOf(s, id));
    if EffectOf(s.rows, s.pending[e.call].statement).Changed? {
      AppendsConsecutively(s, e.call);
    }
  }

  lemma ExecuteKeepsRow(s: State, e: Event, id: string)
    requires Enabled(s, e) && e.Execute? && PendingOk(s, e.call) && RowOk(s, id)
    ensures RowOk(Step(s, e), id)
  {
    var p := s.pending[e.call];
    if id == p.statement.identity && EffectOf(s.rows, p.statement).Changed? {
      assert LogOf(Step(s, e), id) == LogOf(s, id) + [CommitOf(p)];
    } else {
      assert LogOf(Step(s, e), id) == LogOf(s, id);
    }
  }

  lemma ExecuteKeepsPending(s: State, e: Event, c: CallId)
    requires Enabled(s, e) && e.Execute? && c in s.pending && c != e.call && PendingOk(s, c)
    ensures PendingOk(Step(s, e), c)
  {
    var id := s.pending[c].statement.identity;
    assert LogOf(s, id) <= LogOf(Step(s, e), id);
  }

  lemma KeepsOnExecute(s: State, e: Event)
    requires Inv(s) && Enabled(s, e) && e.Execute?
    ensures Inv(Step(s, e))
  {
    var t := Step(s, e);
    forall id ensures RowOk(t, id) {
      assert PendingOk(s, e.call) && RowOk(s, id);
      ExecuteKeepsRow(s, e, id);
    }
    forall c | c in t.pending ensures PendingOk(t, c) {
      assert PendingOk(s, c);
      ExecuteKeepsPending(s, e, c);
    }
    forall id ensures Consecutive(LogOf(t, id)) { ExecuteKeepsConsecutive(s, e, id); }
  }

  lemma {:induction false} RunKeeps(s: State, events: seq<Event>)
    requires Inv(s) && Possible(s, events)
    ensures Inv(Run(s, events))
    decreases |events|
  {
    if events != [] {
      if events[0].Execute? { KeepsOnExecute(s, events[0]); } else { KeepsOnPrepare(s, events[0]); }
      RunKeeps(Step(s, events[0]), events[1..]);
    }
  }

  lemma ReachableKeeps(s: State)
    requires Reachable(s)
    ensures Inv(s)
  {
    var events :| Possible(INIT, events) && s == Run(INIT, events);
    RunKeeps(INIT, events);
  }

  // ---- theorems ----

  /**
   * In every reachable state each stored row decrypts: it is bound to its own identity, kind, role, key version
   * and row version, and it carries the credential of the last committed writer.
   */
  lemma StoredRowIsTheLastWriters(s: State, id: string)
    requires Reachable(s)
    ensures id in s.rows ==>
              var log := LogOf(s, id);
              && |log| > 0 && log[|log| - 1].Wrote?
              && var w := log[|log| - 1];
                 && ValidInput(id, w.credential) && s.rows[id] == Encrypted(id, w.credential, w.version, w.updatedAt)
                 && WellShaped(id, s.rows[id]) && s.rows[id].rowVersion == w.version
                 && Decrypt(s.rows[id].accessToken, Binding(id, s.rows[id].kind, AccessRole, s.rows[id].keyVersion, s.rows[id].rowVersion))
                      == Some(w.credential.accessToken)
                 && (w.credential.Refreshable? <==> s.rows[id].refreshToken.Some?)
                 && (w.credential.Refreshable? ==>
                      Decrypt(s.rows[id].refreshToken.value, Binding(id, s.rows[id].kind, RefreshRole, s.rows[id].keyVersion, s.rows[id].rowVersion))
                        == Some(w.credential.refreshToken))
    ensures id !in s.rows ==> LogOf(s, id) == [] || LogOf(s, id)[|LogOf(s, id)| - 1].Deleted?
  {
    ReachableKeeps(s);
    assert RowOk(s, id);
  }

  predicate NeverDeleted(log: seq<Commit>) {
    forall k | 0 <= k < |log| :: log[k].Wrote?
  }

  /** Without deletes no update is lost: commit k + 1 observed commit k, and the version counts the commits. */
  lemma NoLostUpdate(s: State, id: string)
    requires Reachable(s) && NeverDeleted(LogOf(s, id))
    ensures var log := LogOf(s, id);
            && (forall k: nat :: k < |log| ==> log[k].observed == k && log[k].version == k + 1)
            && (id in s.rows <==> log != [])
            && (id in s.rows ==> s.rows[id].rowVersion == |log|)
  {
    ReachableKeeps(s);
    assert RowOk(s, id) && Consecutive(LogOf(s, id));
  }

  /** Exactly when a prepared upsert commits: the row is gone, or still carries the version its writer saw. */
  lemma UpsertCommitsIff(s: State, c: CallId)
    requires Reachable(s) && c in s.pending && s.pending[c].statement.Upsert?
    ensures var p := s.pending[c]; var id := p.statement.identity;
            && (EffectOf(s.rows, p.statement).Changed? <==> id !in s.rows || s.rows[id].rowVersion == p.statement.previous)
            && (!EffectOf(s.rows, p.statement).Changed? ==> EffectOf(s.rows, p.statement) == CheckViolation)
  {
    ReachableKeeps(s);
    assert PendingOk(s, c);
  }

  /**
   * Without deletes a prepared statement commits exactly if nothing changed since its writer read the row, and an
   * insert exactly if nothing was ever written.
   */
  lemma StaleWriterFails(s: State, c: CallId)
    requires Reachable(s) && c in s.pending
    requires NeverDeleted(LogOf(s, s.pending[c].statement.identity))
    ensures var p, log := s.pending[c], LogOf(s, s.pending[c].statement.identity);
            EffectOf(s.rows, p.statement).Changed? <==> if p.statement.Insert? then log == [] else p.seen == |log|
  {
    ReachableKeeps(s);
    var id := s.pending[c].statement.identity;
    NoLostUpdate(s, id);
    assert PendingOk(s, c) && RowOk(s, id);
  }

  // ---- versions across deletes ----

  /** The writes since the last delete. */
  function Alive(log: seq<Commit>): (writes: seq<Commit>)
    ensures forall k :: 0 <= k < |writes| ==> writes[k].Wrote?
  {
    if log == [] || log[|log| - 1].Deleted? then [] else Alive(log[..|log| - 1]) + [log[|log| - 1]]
  }

  /** Successive writes raise the version by one. */
  ghost predicate Climbs(log: seq<Commit>) {
    forall k: nat :: k + 1 < |log| && log[k].Wrote? && log[k + 1].Wrote? ==> log[k + 1].version == log[k].version + 1
  }

  lemma ExecuteKeepsClimbing(s: State, e: Event, id: string)
    requires Enabled(s, e) && e.Execute? && PendingOk(s, e.call) && RowOk(s, id) && Climbs(LogOf(s, id))
    ensures Climbs(LogOf(Step(s, e), id))
  {
    var p := s.pending[e.call];
    if id == p.statement.identity && EffectOf(s.rows, p.statement).Changed? {
      assert LogOf(Step(s, e), id) == LogOf(s, id) + [CommitOf(p)];
    } else {
      assert LogOf(Step(s, e), id) == LogOf(s, id);
    }
  }

  lemma {:induction false} RunKeepsClimbing(s: State, events: seq<Event>, id: string)
    requires Inv(s) && Possible(s, events) && Climbs(LogOf(s, id))
    ensures Climbs(LogOf(Run(s, events), id))
    decreases |events|
  {
    if events != [] {
      if events[0].Execute? {
        assert PendingOk(s, events[0].call) && RowOk(s, id);
        ExecuteKeepsClimbing(s, events[0], id);
        KeepsOnExecute(s, events[0]);
      } else {
        assert LogOf(Step(s, events[0]), id) == LogOf(s, id);
        KeepsOnPrepare(s, events[0]);
      }
      RunKeepsClimbing(Step(s, events[0]), events[1..], id);
    }
  }

  lemma {:induction false} AliveClimbs(log: seq<Commit>)
    requires Climbs(log)
    ensures Alive(log) == [] <==> log == [] || log[|log| - 1].Deleted?
    ensures forall k: nat :: k < |Alive(log)| ==> Alive(log)[k].version == Alive(log)[0].version + k
    ensures Alive(log) != [] ==> Alive(log)[|Alive(log)| - 1] == log[|log| - 1]
    decreases |log|
  {
    if log != [] && log[|log| - 1].Wrote? {
      var rest := log[..|log| - 1];
      assert Climbs(rest);
      AliveClimbs(rest);
      if rest != [] {
        assert rest[|rest| - 1] == log[|log| - 2];
      }
    }
  }

  /**
   * Across deletes too: the stored version counts the writes since the last delete, from the version of the first
   * of them. That is the number of those writes exactly when the first was not a stale upsert over the gap.
   */
  lemma VersionCountsTheWritesSinceADelete(s: State, id: string)
    requires Reachable(s)
    ensures var alive := Alive(LogOf(s, id));
            && (id in s.rows <==> alive != [])
            && (id in s.rows ==>
                  && s.rows[id].rowVersion == alive[0].version + |alive| - 1
                  && (s.rows[id].rowVersion == |alive| <==> alive[0].version == 1))
  {
    var events :| Possible(INIT, events) && s == Run(INIT, events);
    ReachableKeeps(s);
    RunKeepsClimbing(INIT, events, id);
    AliveClimbs(LogOf(s, id));
    assert RowOk(s, id);
  }

  /** By history alone: a prepared upsert commits on a gap, or when the writes since the last delete end at the version it read. */
  lemma UpsertCommitsInHistoryIff(s: State, c: CallId)
    requires Reachable(s) && c in s.pending && s.pending[c].statement.Upsert?
    ensures var p, alive := s.pending[c], Alive(LogOf(s, s.pending[c].statement.identity));
            EffectOf(s.rows, p.statement).Changed? <==>
            alive == [] || alive[0].version + |alive| - 1 == p.statement.previous
  {
    VersionCountsTheWritesSinceADelete(s, s.pending[c].statement.identity);
    UpsertCommitsIff(s, c);
  }

  lemma {:induction false} RunAppends(s: State, events: seq<Event>, e: Event)
    requires Possible(s, events) && Enabled(Run(s, events), e)
    ensures Possible(s, events + [e]) && Run(s, events + [e]) == Step(Run(s, events), e)
    decreases |events|
  {
    var longer := events + [e];
    if events == [] {
      assert longer[1..] == [];
    } else {
      assert longer[1..] == events[1..] + [e];
      RunAppends(Step(s, events[0]), events[1..], e);
    }
  }

  lemma Play(s: State, e: Event) returns (t: State)
    requires Reachable(s) && Enabled(s, e)
    ensures Reachable(t) && t == Step(s, e)
  {
    var events :| Possible(INIT, events) && s == Run(INIT, events);
    RunAppends(INIT, events, e);
    t := Step(s, e);
  }

  /** Call 2 read the first credential, at version 1. */
  lemma ReadFirst() returns (s: State)
    ensures Reachable(s) && s.pending.Keys == {2} && "i" in s.rows && s.rows["i"].rowVersion == 1 && |LogOf(s, "i")| == 1
    ensures s.pending[2].statement.Upsert? && s.pending[2].statement.identity == "i" && s.pending[2].statement.previous == 1
    ensures s.pending[2].statement.row.rowVersion == 2 && s.pending[2].seen == 1
  {
    assert Possible(INIT, []) && Run(INIT, []) == INIT;
    s := Play(INIT, PrepareInitialInsert(1, "i", AccessOnlyNonexpiring("a"), 0));
    s := Play(s, Execute(1));
    s := Play(s, PrepareSignInUpsert(2, "i", AccessOnlyNonexpiring("b"), 0));
  }

  /** Then it was deleted. */
  lemma ReadThenDeleted() returns (s: State)
    ensures Reachable(s) && s.pending.Keys == {2} && "i" !in s.rows && |LogOf(s, "i")| == 2
    ensures s.pending[2].statement.Upsert? && s.pending[2].statement.identity == "i" && s.pending[2].statement.previous == 1
    ensures s.pending[2].statement.row.rowVersion == 2 && s.pending[2].seen == 1
  {
    s := ReadFirst();
    s := Play(s, PrepareDelete(3, "i"));
    s := Play(s, Execute(3));
  }

  /**
   * With deletes the version check can be fooled, because versions restart at 1: the credential call 2 read was
   * deleted and another one inserted, and call 2's upsert would overwrite the credential it never saw.
   */
  lemma VersionsRestartAfterADelete() returns (s: State)
    ensures Reachable(s) && 2 in s.pending && s.pending[2].statement.Upsert? && "i" in s.rows
    ensures s.pending[2].seen + 2 == |LogOf(s, "i")|
    ensures EffectOf(s.rows, s.pending[2].statement).Changed?
  {
    s := ReadThenDeleted();
    s := Play(s, PrepareInitialInsert(4, "i", AccessOnlyNonexpiring("c"), 0));
    s := Play(s, Execute(4));
  }

  /** A stale upsert over the gap itself: the only write since the delete carries version 2. */
  lemma AStaleUpsertSkipsAVersion() returns (s: State)
    ensures Reachable(s) && "i" in s.rows && s.rows["i"].rowVersion == 2 && |Alive(LogOf(s, "i"))| == 1
  {
    s := ReadThenDeleted();
    var before := LogOf(s, "i");
    assert Alive(before) == [] by {
      VersionCountsTheWritesSinceADelete(s, "i");
    }
    s := Play(s, Execute(2));
    assert LogOf(s, "i")[..|LogOf(s, "i")| - 1] == before;
  }
}
