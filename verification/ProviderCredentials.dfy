/**
 * Provider credentials: one row per provider identity, optimistically versioned, each ciphertext bound to
 * the identity, kind, role, key version and row version it is stored under.
 */
module ProviderCredentials {
  import opened Support

  const KEY_VERSION := 1
  const MAX_SIGN_IN_UPSERT_ATTEMPTS := 4

  datatype Credential =
    | Refreshable(accessToken: string, accessExpiresAt: int, refreshToken: string, refreshExpiresAt: Option<int>)
    | AccessOnlyExpiring(accessToken: string, accessExpiresAt: int)
    | AccessOnlyNonexpiring(accessToken: string)

  datatype Kind = RefreshableKind | ExpiringKind | NonexpiringKind

  datatype Role = AccessRole | RefreshRole

  datatype Binding = Binding(identity: string, kind: Kind, role: Role, keyVersion: int, rowVersion: int)

  /** Authenticated encryption: decryption inverts encryption under the same binding only. */
  datatype Ciphertext = Sealed(plaintext: string, binding: Binding)

  function Decrypt(c: Ciphertext, binding: Binding): Option<string> {
    if c.binding == binding then Some(c.plaintext) else None
  }

  datatype Row = Row(
    kind: Kind,
    accessToken: Ciphertext,
    accessExpiresAt: Option<int>,
    refreshToken: Option<Ciphertext>,
    refreshExpiresAt: Option<int>,
    keyVersion: int,
    rowVersion: int,
    updatedAt: int)

  type Table = map<string, Row>

  datatype Stored = Stored(credential: Credential, rowVersion: int, updatedAt: int)

  datatype Error = InvalidInput | Corrupt | VersionConflict

  predicate ValidInput(identity: string, c: Credential) {
    |identity| > 0 && |c.accessToken| > 0 && (c.Refreshable? ==> |c.refreshToken| > 0)
  }

  function KindOf(c: Credential): Kind {
    match c
    case Refreshable(_, _, _, _) => RefreshableKind
    case AccessOnlyExpiring(_, _) => ExpiringKind
    case AccessOnlyNonexpiring(_) => NonexpiringKind
  }

  /** `encryptCredential` laid out as the row that stores it. */
  function Encrypted(identity: string, c: Credential, rowVersion: int, updatedAt: int): Row {
    var kind := KindOf(c);
    Row(kind,
        Sealed(c.accessToken, Binding(identity, kind, AccessRole, KEY_VERSION, rowVersion)),
        if c.AccessOnlyNonexpiring? then None else Some(c.accessExpiresAt),
        if c.Refreshable? then Some(Sealed(c.refreshToken, Binding(identity, kind, RefreshRole, KEY_VERSION, rowVersion))) else None,
        if c.Refreshable? then c.refreshExpiresAt else None,
        KEY_VERSION, rowVersion, updatedAt)
  }

  /** `decodeProviderCredentialRow`: the shape each kind requires. */
  predicate WellShaped(identity: string, row: Row) {
    && |identity| > 0 && row.keyVersion == KEY_VERSION && row.rowVersion >= 1
    && match row.kind
       case RefreshableKind => row.accessExpiresAt.Some? && row.refreshToken.Some?
       case ExpiringKind => row.accessExpiresAt.Some? && row.refreshToken.None? && row.refreshExpiresAt.None?
       case NonexpiringKind => row.accessExpiresAt.None? && row.refreshToken.None? && row.refreshExpiresAt.None?
  }

  // ---- the statements ----

  datatype Statement =
    | Insert(identity: string, row: Row)
    | Upsert(identity: string, row: Row, previous: int)
    | Update(identity: string, observed: int, row: Row)
    | Delete(identity: string, observed: int)

  datatype Effect = Changed(rows: Table) | NoRows | UniqueViolation | CheckViolation

  /** CHECK (row_version >= 1), which every write has to pass. */
  function Write(rows: Table, identity: string, row: Row): Effect {
    if row.rowVersion < 1 then CheckViolation else Changed(rows[identity := row])
  }

  /**
   * SQL semantics. The upsert's CASE writes row version 0 over a row that moved on, and the CHECK turns
   * that into an error that aborts the whole batch.
   */
  function EffectOf(rows: Table, s: Statement): Effect {
    match s
    case Insert(id, row) => if id in rows then UniqueViolation else Write(rows, id, row)
    case Upsert(id, row, previous) =>
      if id !in rows then Write(rows, id, row)
      else Write(rows, id, row.(rowVersion := if rows[id].rowVersion == previous then row.rowVersion else 0))
    case Update(id, observed, row) =>
      if id in rows && rows[id].rowVersion == observed then Write(rows, id, row) else NoRows
    case Delete(id, observed) =>
      if id in rows && rows[id].rowVersion == observed then Changed(rows - {id}) else NoRows
  }

  /**
   * An initial insert on a free key leaves a row that opens, in each role, to exactly the credential at version 1;
   * on a taken key it violates the key, which aborts its batch.
   */
  lemma InitialInsertReadsBack(rows: Table, identity: string, c: Credential, updatedAt: int)
    requires ValidInput(identity, c)
    ensures var statement := Insert(identity, Encrypted(identity, c, 1, updatedAt));
            var effect := EffectOf(rows, statement);
            && (effect.Changed? <==> identity !in rows) && (identity in rows ==> effect == UniqueViolation)
            && (effect.Changed? ==>
                  && identity in effect.rows && effect.rows - {identity} == rows
                  && var row := effect.rows[identity];
                     && WellShaped(identity, row) && row.rowVersion == 1 && row.updatedAt == updatedAt && row.kind == KindOf(c)
                     && Decrypt(row.accessToken, Binding(identity, row.kind, AccessRole, row.keyVersion, row.rowVersion)) == Some(c.accessToken)
                     && (c.Refreshable? <==> row.refreshToken.Some?)
                     && (c.Refreshable? ==>
                           Decrypt(row.refreshToken.value, Binding(identity, row.kind, RefreshRole, row.keyVersion, row.rowVersion))
                           == Some(c.refreshToken)))
  {
    if identity !in rows {
      var row := Encrypted(identity, c, 1, updatedAt);
      assert rows[identity := row] - {identity} == rows;
    }
  }

  predicate Checked(rows: Table) {
    forall id | id in rows :: rows[id].rowVersion >= 1
  }

  lemma {:induction false} ApplyAllChecked(rows: Table, statements: seq<Statement>)
    requires Checked(rows)
    ensures Checked(ApplyAll(rows, statements))
    decreases |statements|
  {
    if statements != [] {
      ApplyAllChecked(Apply(rows, statements[0]), statements[1..]);
    }
  }

  function Apply(rows: Table, s: Statement): Table {
    var effect := EffectOf(rows, s);
    if effect.Changed? then effect.rows else rows
  }

  function ApplyAll(rows: Table, statements: seq<Statement>): Table
    decreases |statements|
  {
    if statements == [] then rows else ApplyAll(Apply(rows, statements[0]), statements[1..])
  }

  function Lookup(rows: Table, identity: string): Option<Row> {
    if identity in rows then Some(rows[identity]) else None
  }

  /** How many of the statements, run in order, change this identity's row. */
  function Changes(rows: Table, identity: string, statements: seq<Statement>): nat
    decreases |statements|
  {
    if statements == [] then 0
    else
      var next := Apply(rows, statements[0]);
      (if Lookup(next, identity) != Lookup(rows, identity) then 1 else 0) + Changes(next, identity, statements[1..])
  }

  lemma {:induction false} ADifferenceIsAChange(rows: Table, identity: string, statements: seq<Statement>)
    requires Lookup(ApplyAll(rows, statements), identity) != Lookup(rows, identity)
    ensures Changes(rows, identity, statements) >= 1
    decreases |statements|
  {
    var next := Apply(rows, statements[0]);
    if Lookup(next, identity) == Lookup(rows, identity) {
      ADifferenceIsAChange(next, identity, statements[1..]);
    }
  }

  /** What the other callers commit around each attempt of the retry loop. */
  datatype Attempt = Attempt(beforeRead: seq<Statement>, beforeWrite: seq<Statement>, now: int)

  ghost function RowsAfter(rows: Table, attempts: seq<Attempt>): Table {
    if attempts == [] then rows
    else
      var before := RowsAfter(rows, attempts[..|attempts| - 1]);
      var attempt := attempts[|attempts| - 1];
      ApplyAll(ApplyAll(before, attempt.beforeRead), attempt.beforeWrite)
  }

  /** Changes other callers made to the row between a read and a write of one attempt, summed over attempts. */
  ghost function ChargedChanges(rows: Table, identity: string, attempts: seq<Attempt>): nat {
    if attempts == [] then 0
    else
      var earlier := attempts[..|attempts| - 1];
      var attempt := attempts[|attempts| - 1];
      ChargedChanges(rows, identity, earlier)
      + Changes(ApplyAll(RowsAfter(rows, earlier), attempt.beforeRead), identity, attempt.beforeWrite)
  }

  /** Attempt `k` wrote the next version over what `k` lost attempts and their winners had left. */
  ghost predicate WroteOnAttempt(before: Table, identity: string, c: Credential, attempts: seq<Attempt>, k: nat, version: int, after: Table)
    requires k < |attempts|
  {
    var raced := RowsAfter(before, attempts[..k + 1]);
    && version == (if identity in raced then raced[identity].rowVersion else 0) + 1
    && after == raced[identity := Encrypted(identity, c, version, attempts[k].now)]
    && ChargedChanges(before, identity, attempts[..k]) >= k
  }

  /** No row in both tables, or rows of one version. */
  ghost predicate SameVersion(seen: Table, raced: Table, identity: string) {
    && (identity in seen <==> identity in raced)
    && (identity in seen ==> seen[identity].rowVersion == raced[identity].rowVersion)
  }

  /** The row's version did not change between attempt `k`'s read and its write. */
  ghost predicate Unraced(before: Table, identity: string, attempts: seq<Attempt>, k: nat)
    requires k < |attempts|
  {
    var seen := ApplyAll(RowsAfter(before, attempts[..k]), attempts[k].beforeRead);
    SameVersion(seen, ApplyAll(seen, attempts[k].beforeWrite), identity)
  }

  /** The first `k` attempts were all raced. */
  ghost predicate AllRaced(before: Table, identity: string, attempts: seq<Attempt>, k: nat)
    requires k <= |attempts|
  {
    k == 0 || (AllRaced(before, identity, attempts, k - 1) && !Unraced(before, identity, attempts, k - 1))
  }

  lemma {:induction false} AllRacedHasNoUnraced(before: Table, identity: string, attempts: seq<Attempt>, n: nat, k: nat)
    requires k < n <= |attempts| && AllRaced(before, identity, attempts, n)
    ensures !Unraced(before, identity, attempts, k)
    decreases n
  {
    if k < n - 1 {
      AllRacedHasNoUnraced(before, identity, attempts, n - 1, k);
    }
  }

  lemma UnracedMeansNotAllRaced(before: Table, identity: string, attempts: seq<Attempt>, k: nat)
    requires k < |attempts| && Unraced(before, identity, attempts, k)
    ensures !AllRaced(before, identity, attempts, |attempts|)
  {
    if AllRaced(before, identity, attempts, |attempts|) {
      AllRacedHasNoUnraced(before, identity, attempts, |attempts|, k);
    }
  }

  lemma OneMoreAttempt(before: Table, identity: string, attempts: seq<Attempt>, k: nat)
    requires k < |attempts|
    ensures var seen := ApplyAll(RowsAfter(before, attempts[..k]), attempts[k].beforeRead);
            && RowsAfter(before, attempts[..k + 1]) == ApplyAll(seen, attempts[k].beforeWrite)
            && ChargedChanges(before, identity, attempts[..k + 1])
               == ChargedChanges(before, identity, attempts[..k]) + Changes(seen, identity, attempts[k].beforeWrite)
  {
    assert attempts[..k + 1][..k] == attempts[..k];
  }

  /** Each ciphertext of a row opens under its own binding and under no other; the other columns are plain. */
  lemma RowOpensIff(identity: string, c: Credential, v: int, at: int, binding: Binding)
    ensures var row := Encrypted(identity, c, v, at);
            && Decrypt(row.accessToken, binding)
               == (if binding == Binding(identity, row.kind, AccessRole, 1, v) then Some(c.accessToken) else None)
            && (row.kind == RefreshableKind <==> c.Refreshable?) && (row.kind == ExpiringKind <==> c.AccessOnlyExpiring?)
            && (c.Refreshable? ==>
                  && row.refreshToken.Some? && row.refreshExpiresAt == c.refreshExpiresAt
                  && Decrypt(row.refreshToken.value, binding)
                     == if binding == Binding(identity, row.kind, RefreshRole, 1, v) then Some(c.refreshToken) else None)
            && (!c.Refreshable? ==> row.refreshToken.None? && row.refreshExpiresAt.None?)
            && row.accessExpiresAt == (if c.AccessOnlyNonexpiring? then None else Some(c.accessExpiresAt))
            && row.rowVersion == v && row.keyVersion == 1 && row.updatedAt == at
  {}

  class ProviderCredentialStore {
    var rows: Table

    constructor ()
      ensures rows == map[]
    {
      rows := map[];
    }

    /** One statement of a caller-owned batch. */
    method Run(s: Statement) returns (effect: Effect)
      modifies this
      ensures effect == EffectOf(old(rows), s)
      ensures rows == if effect.Changed? then effect.rows else old(rows)
    {
      effect := EffectOf(rows, s);
      if effect.Changed? {
        rows := effect.rows;
      }
    }

    method Await(others: seq<Statement>)
      modifies this
      ensures rows == ApplyAll(old(rows), others)
    {
      var k := 0;
      while k < |others|
        invariant 0 <= k <= |others|
        invariant ApplyAll(rows, others[k..]) == ApplyAll(old(rows), others)
      {
        var _ := Run(others[k]);
        k := k + 1;
      }
    }

    method ReadRowVersion(identity: string) returns (version: Result<Option<int>, Error>)
      requires Checked(rows)
      ensures version == Success(if identity in rows then Some(rows[identity].rowVersion) else None)
    {
      if identity !in rows {
        return Success(None);
      }
      return Success(Some(rows[identity].rowVersion));
    }

    method PrepareInitialInsert(identity: string, c: Credential, updatedAt: int) returns (r: Result<Statement, Error>)
      ensures r.Success? <==> ValidInput(identity, c)
      ensures r.Success? ==> r.value == Insert(identity, Encrypted(identity, c, 1, updatedAt))
    {
      if !ValidInput(identity, c) {
        return Failure(InvalidInput);
      }
      return Success(Insert(identity, Encrypted(identity, c, 1, updatedAt)));
    }

    method PrepareSignInUpsert(identity: string, c: Credential, updatedAt: int) returns (r: Result<Statement, Error>)
      requires Checked(rows)
      ensures r.Success? <==> ValidInput(identity, c)
      ensures r.Success? && identity !in rows ==> r.value == Insert(identity, Encrypted(identity, c, 1, updatedAt))
      ensures r.Success? && identity in rows ==>
                var v := rows[identity].rowVersion;
                r.value == Upsert(identity, Encrypted(identity, c, v + 1, updatedAt), v)
    {
      if !ValidInput(identity, c) {
        return Failure(InvalidInput);
      }
      var previous := ReadRowVersion(identity);
      if previous.value.None? {
        r := PrepareInitialInsert(identity, c, updatedAt);
        return;
      }
      var v := previous.value.value;
      return Success(Upsert(identity, Encrypted(identity, c, v + 1, updatedAt), v));
    }

    /** One attempt: read the version, encrypt for the next one, write only over what was read. */
    method TryUpsert(identity: string, c: Credential, attempt: Attempt) returns (version: Option<int>)
      requires Checked(rows) && ValidInput(identity, c)
      modifies this
      ensures Checked(rows)
      ensures var seen := ApplyAll(old(rows), attempt.beforeRead);
              var raced := ApplyAll(seen, attempt.beforeWrite);
              && (version.None? ==> rows == raced && Changes(seen, identity, attempt.beforeWrite) >= 1)
              && (version.Some? ==>
                   && Lookup(raced, identity).Some? == Lookup(seen, identity).Some?
                   && version.value == (if identity in raced then raced[identity].rowVersion else 0) + 1
                   && rows == raced[identity := Encrypted(identity, c, version.value, attempt.now)])
              && (version.Some? <==> SameVersion(seen, raced, identity))
    {
      ApplyAllChecked(rows, attempt.beforeRead);
      Await(attempt.beforeRead);
      ghost var seen := rows;
      var previous := ReadRowVersion(identity);
      var rowVersion := (if previous.value.Some? then previous.value.value else 0) + 1;
      ApplyAllChecked(rows, attempt.beforeWrite);
      Await(attempt.beforeWrite);
      var row := Encrypted(identity, c, rowVersion, attempt.now);
      var effect := Run(if previous.value.None? then Insert(identity, row) else Update(identity, previous.value.value, row));
      if effect.Changed? {
        return Some(rowVersion);
      }
      ADifferenceIsAChange(seen, identity, attempt.beforeWrite);
      return None;
    }

    /**
     * The retry loop. A version conflict is thrown only after every attempt lost to a change another caller
     * committed between that attempt's read and its write.
     */
    method UpsertFromSignIn(identity: string, c: Credential, attempts: seq<Attempt>) returns (r: Result<int, Error>)
      requires |attempts| == MAX_SIGN_IN_UPSERT_ATTEMPTS && Checked(rows)
      modifies this
      ensures r.Success? || r == Failure(InvalidInput) || r == Failure(VersionConflict)
      ensures r == Failure(InvalidInput) <==> identity == "" || c.accessToken == "" || (c.Refreshable? && c.refreshToken == "")
      ensures r == Failure(InvalidInput) <==> !ValidInput(identity, c)
      ensures r == Failure(InvalidInput) ==> rows == old(rows)
      ensures r == Failure(VersionConflict) <==>
                ValidInput(identity, c) && AllRaced(old(rows), identity, attempts, MAX_SIGN_IN_UPSERT_ATTEMPTS)
      ensures r == Failure(VersionConflict) ==>
                && rows == RowsAfter(old(rows), attempts)
                && ChargedChanges(old(rows), identity, attempts) >= MAX_SIGN_IN_UPSERT_ATTEMPTS
      ensures r.Success? ==> exists k: nat ::
                && k < |attempts| && WroteOnAttempt(old(rows), identity, c, attempts, k, r.value, rows)
                && AllRaced(old(rows), identity, attempts, k) && Unraced(old(rows), identity, attempts, k)
    {
      if !ValidInput(identity, c) {
        return Failure(InvalidInput);
      }
      ghost var before := rows;
      var k := 0;
      while k < MAX_SIGN_IN_UPSERT_ATTEMPTS
        invariant 0 <= k <= MAX_SIGN_IN_UPSERT_ATTEMPTS
        invariant rows == RowsAfter(before, attempts[..k]) && Checked(rows)
        invariant ChargedChanges(before, identity, attempts[..k]) >= k
        invariant AllRaced(before, identity, attempts, k)
      {
        var version := TryUpsert(identity, c, attempts[k]);
        assert version.Some? <==> Unraced(before, identity, attempts, k);
        OneMoreAttempt(before, identity, attempts, k);
        if version.Some? {
          UnracedMeansNotAllRaced(before, identity, attempts, k);
          assert WroteOnAttempt(before, identity, c, attempts, k, version.value, rows);
          return Success(version.value);
        }
        k := k + 1;
      }
      assert attempts[..k] == attempts;
      return Failure(VersionConflict);
    }

    method Get(identity: string) returns (r: Result<Option<Stored>, Error>)
      requires |identity| > 0
      ensures identity !in rows ==> r == Success(None)
      ensures identity in rows ==> forall c, v, at ::
                ValidInput(identity, c) && v >= 1 && rows[identity] == Encrypted(identity, c, v, at) ==>
                  r == Success(Some(Stored(c, v, at)))
      ensures r.Success? && r.value.Some? ==>
                && identity in rows && ValidInput(identity, r.value.value.credential) && r.value.value.rowVersion >= 1
                && rows[identity] == Encrypted(identity, r.value.value.credential, r.value.value.rowVersion, r.value.value.updatedAt)
      ensures r == Success(None) ==> identity !in rows
      ensures r.Failure? ==> r.error == Corrupt
    {
      if identity !in rows {
        return Success(None);
      }
      var row := rows[identity];
      if !WellShaped(identity, row) {
        return Failure(Corrupt);
      }
      var accessToken := Decrypt(row.accessToken, Binding(identity, row.kind, AccessRole, row.keyVersion, row.rowVersion));
      if accessToken.None? || |accessToken.value| == 0 {
        return Failure(Corrupt);
      }
      if row.kind == RefreshableKind {
        var refreshToken := Decrypt(row.refreshToken.value, Binding(identity, row.kind, RefreshRole, row.keyVersion, row.rowVersion));
        if refreshToken.None? || |refreshToken.value| == 0 {
          return Failure(Corrupt);
        }
        return Success(Some(Stored(
          Refreshable(accessToken.value, row.accessExpiresAt.value, refreshToken.value, row.refreshExpiresAt), row.rowVersion, row.updatedAt)));
      }
      if row.kind == ExpiringKind {
        return Success(Some(Stored(AccessOnlyExpiring(accessToken.value, row.accessExpiresAt.value), row.rowVersion, row.updatedAt)));
      }
      return Success(Some(Stored(AccessOnlyNonexpiring(accessToken.value), row.rowVersion, row.updatedAt)));
    }

    method InvalidateObservedVersion(identity: string, observed: int) returns (r: Result<bool, Error>)
      modifies this
      ensures r.Success? <==> |identity| > 0 && observed >= 1
      ensures r == Success(true) <==> |identity| > 0 && observed >= 1 && identity in old(rows) && old(rows)[identity].rowVersion == observed
      ensures rows == if r == Success(true) then old(rows) - {identity} else old(rows)
    {
      if |identity| == 0 || observed < 1 {
        return Failure(InvalidInput);
      }
      var effect := Run(Delete(identity, observed));
      return Success(effect.Changed?);
    }

    method ReplaceObservedVersion(identity: string, observed: int, c: Credential, now: int) returns (r: Result<int, Error>)
      modifies this
      ensures r == Failure(InvalidInput) <==> !(observed >= 1 && ValidInput(identity, c))
      ensures r.Success? <==> observed >= 1 && ValidInput(identity, c) && identity in old(rows) && old(rows)[identity].rowVersion == observed
      ensures r.Success? ==> r.value == observed + 1
      ensures rows == if r.Success? then old(rows)[identity := Encrypted(identity, c, observed + 1, now)] else old(rows)
    {
      if |identity| == 0 || observed < 1 || !ValidInput(identity, c) {
        return Failure(InvalidInput);
      }
      var effect := Run(Update(identity, observed, Encrypted(identity, c, observed + 1, now)));
      if !effect.Changed? {
        return Failure(VersionConflict);
      }
      return Success(observed + 1);
    }
  }
}
