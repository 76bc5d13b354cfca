/** The `api_tokens` table and its store: every SQL statement is one atomic update of `rows`. */
module ApiTokens {
  import opened Support

  // Generated hex ids and random opaque tokens; only their identity matters.
  type Id = nat
  type Token = nat

  /** SHA-256 as an injective constructor. */
  datatype TokenHash = Sha256(token: Token)

  datatype Kind = WebSession | WebSessionRefresh

  datatype Row = Row(
    tokenHash: TokenHash,
    kind: Kind,
    userId: Id,
    provider: Option<string>,
    providerUserId: Option<string>,
    familyId: Option<Id>,
    rotatedTo: Option<Id>,
    createdAt: int,
    expiresAt: int,
    familyExpiresAt: Option<int>,
    revokedAt: Option<int>)

  datatype NewToken = NewToken(
    tokenHash: TokenHash,
    kind: Kind,
    userId: Id,
    provider: string,
    providerUserId: string,
    familyId: Id,
    expiresAt: int,
    familyExpiresAt: Option<int>)

  type Table = map<Id, Row>

  const EXPIRED_TOKEN_RETENTION_MS := DAY_MS

  function Inserted(t: NewToken, now: int): Row {
    Row(t.tokenHash, t.kind, t.userId, Some(t.provider), Some(t.providerUserId), Some(t.familyId),
        None, now, t.expiresAt, t.familyExpiresAt, None)
  }

  /** The primary key and the UNIQUE token hash both accept the two new rows. */
  ghost predicate Admits(rows: Table, ids: (Id, Id), tokens: (NewToken, NewToken)) {
    && ids.0 != ids.1 && ids.0 !in rows && ids.1 !in rows
    && tokens.0.tokenHash != tokens.1.tokenHash
    && forall i :: i in rows ==>
                     rows[i].tokenHash != tokens.0.tokenHash && rows[i].tokenHash != tokens.1.tokenHash
  }

  /** The UNIQUE constraint on token hashes. */
  ghost predicate UniqueHashes(rows: Table) {
    forall i, j :: i in rows && j in rows && rows[i].tokenHash == rows[j].tokenHash ==> i == j
  }

  function WithPair(rows: Table, ids: (Id, Id), tokens: (NewToken, NewToken), now: int): Table {
    rows[ids.0 := Inserted(tokens.0, now)][ids.1 := Inserted(tokens.1, now)]
  }

  predicate Consumable(rows: Table, id: Id) {
    id in rows && rows[id].rotatedTo.None? && rows[id].revokedAt.None?
  }

  function Consumed(rows: Table, id: Id, successor: Id): Table {
    if Consumable(rows, id) then rows[id := rows[id].(rotatedTo := Some(successor))] else rows
  }

  function Revoked(row: Row, now: int): Row {
    if row.revokedAt.None? then row.(revokedAt := Some(now)) else row
  }

  function FamilyRevoked(rows: Table, familyId: Id, now: int): Table {
    map i | i in rows :: if rows[i].familyId == Some(familyId) then Revoked(rows[i], now) else rows[i]
  }

  function TokenRevoked(rows: Table, id: Id, now: int): Table {
    if id in rows then rows[id := Revoked(rows[id], now)] else rows
  }

  /** Due for the retention sweep at `cutoff`; a NULL family expiry never satisfies `<=`. */
  predicate Sweepable(row: Row, cutoff: int) {
    match row.familyExpiresAt
    case None => row.expiresAt <= cutoff
    case Some(cap) => cap <= cutoff
  }

  function Swept(rows: Table, now: int): Table {
    map i | i in rows && !Sweepable(rows[i], now - EXPIRED_TOKEN_RETENTION_MS) :: rows[i]
  }

  /** A statement that another caller commits while this one is suspended at an await. */
  datatype Statement =
    | ConsumeStatement(id: Id, successorId: Id)
    | RevokeFamilyStatement(familyId: Id, now: int)
    | RevokeTokenStatement(id: Id, now: int)
    | DeleteExpiredStatement(now: int)
    | InsertStatement(id: Id, token: NewToken, now: int)

  ghost function Apply(rows: Table, s: Statement): Table {
    match s
    case ConsumeStatement(id, successorId) => Consumed(rows, id, successorId)
    case RevokeFamilyStatement(familyId, now) => FamilyRevoked(rows, familyId, now)
    case RevokeTokenStatement(id, now) => TokenRevoked(rows, id, now)
    case DeleteExpiredStatement(now) => Swept(rows, now)
    case InsertStatement(id, token, now) =>
      if id !in rows && forall i :: i in rows ==> rows[i].tokenHash != token.tokenHash
      then rows[id := Inserted(token, now)] else rows
  }

  ghost function ApplyAll(rows: Table, statements: seq<Statement>): Table {
    if statements == [] then rows
    else Apply(ApplyAll(rows, statements[..|statements| - 1]), statements[|statements| - 1])
  }

  /** The D1 store. Clock readings and generated ids are inputs of each call. */
  class ApiTokenStore {
    var rows: Table

    constructor ()
      ensures rows == map[]
    {
      rows := map[];
    }

    /** One batch: a constraint violation leaves the table as it was and throws. */
    method CreatePair(first: NewToken, second: NewToken, ids: (Id, Id), now: int) returns (created: bool)
      modifies this
      ensures created <==> Admits(old(rows), ids, (first, second))
      ensures rows == if created then WithPair(old(rows), ids, (first, second), now) else old(rows)
    {
      var before := rows;
      created := Insert(ids.0, first, now);
      if created {
        ghost var first' := rows;
        assert forall i :: i in before ==> i in first' && first'[i] == before[i];
        assert first'[ids.0].tokenHash == first.tokenHash;
        created := Insert(ids.1, second, now);
        if !created {
          rows := before;
        }
      }
    }

    /** One INSERT statement; a duplicate id or token hash is a constraint error. */
    method Insert(id: Id, token: NewToken, now: int) returns (inserted: bool)
      modifies this
      ensures inserted <==> id !in old(rows) && forall i :: i in old(rows) ==> old(rows)[i].tokenHash != token.tokenHash
      ensures rows == if inserted then old(rows)[id := Inserted(token, now)] else old(rows)
    {
      if id in rows {
        inserted := false;
      } else if i :| i in rows && rows[i].tokenHash == token.tokenHash {
        inserted := false;
      } else {
        rows := rows[id := Inserted(token, now)];
        inserted := true;
      }
    }

    method GetByHash(tokenHash: TokenHash) returns (found: Option<(Id, Row)>)
      ensures found.Some? ==> found.value.0 in rows && rows[found.value.0] == found.value.1
                              && found.value.1.tokenHash == tokenHash
      ensures found.None? ==> forall i :: i in rows ==> rows[i].tokenHash != tokenHash
    {
      if i :| i in rows && rows[i].tokenHash == tokenHash {
        found := Some((i, rows[i]));
      } else {
        found := None;
      }
    }

    method GetById(id: Id) returns (found: Option<Row>)
      ensures found == if id in rows then Some(rows[id]) else None
    {
      if id in rows { found := Some(rows[id]); } else { found := None; }
    }

    /** Compare-and-set: true exactly when the token was neither consumed nor revoked. */
    method ConsumeRefreshToken(id: Id, successorId: Id) returns (consumed: bool)
      modifies this
      ensures consumed <==> id in old(rows) && old(rows)[id].rotatedTo.None? && old(rows)[id].revokedAt.None?
      ensures rows.Keys == old(rows).Keys
      ensures consumed ==> rows[id] == old(rows)[id].(rotatedTo := Some(successorId))
      ensures forall i :: i in rows && (i != id || !consumed) ==> rows[i] == old(rows)[i]
      ensures rows == Consumed(old(rows), id, successorId)
    {
      consumed := id in rows && rows[id].rotatedTo.None? && rows[id].revokedAt.None?;
      if consumed {
        rows := rows[id := rows[id].(rotatedTo := Some(successorId))];
      }
    }

    method RevokeFamily(familyId: Id, now: int)
      modifies this
      ensures rows == FamilyRevoked(old(rows), familyId, now)
      ensures rows.Keys == old(rows).Keys
      ensures forall i :: i in rows ==>
                rows[i] == if old(rows)[i].familyId == Some(familyId) && old(rows)[i].revokedAt.None?
                           then old(rows)[i].(revokedAt := Some(now)) else old(rows)[i]
    {
      rows := map i | i in rows ::
        if rows[i].familyId == Some(familyId) && rows[i].revokedAt.None? then rows[i].(revokedAt := Some(now)) else rows[i];
    }

    method RevokeToken(id: Id, now: int)
      modifies this
      ensures rows == TokenRevoked(old(rows), id, now)
      ensures rows == if id in old(rows) && old(rows)[id].revokedAt.None?
                      then old(rows)[id := old(rows)[id].(revokedAt := Some(now))] else old(rows)
    {
      if id in rows && rows[id].revokedAt.None? {
        rows := rows[id := rows[id].(revokedAt := Some(now))];
      }
    }

    /** Whatever the other callers commit during one await. */
    method Await(others: seq<Statement>)
      modifies this
      ensures rows == ApplyAll(old(rows), others)
    {
      var k := 0;
      while k < |others|
        invariant 0 <= k <= |others|
        invariant rows == ApplyAll(old(rows), others[..k])
      {
        assert others[..k + 1][..k] == others[..k];
        match others[k] {
          case ConsumeStatement(id, successorId) => var _ := ConsumeRefreshToken(id, successorId);
          case RevokeFamilyStatement(familyId, now) => RevokeFamily(familyId, now);
          case RevokeTokenStatement(id, now) => RevokeToken(id, now);
          case DeleteExpiredStatement(now) => var _ := DeleteExpired(now);
          case InsertStatement(id, token, now) => var _ := Insert(id, token, now);
        }
        k := k + 1;
      }
      assert others[..k] == others;
    }

    /** Two deletes in one batch; returns how many rows went. */
    method DeleteExpired(now: int) returns (deleted: nat)
      modifies this
      ensures rows == Swept(old(rows), now)
      ensures deleted == |old(rows)| - |rows|
      ensures forall i :: i in rows <==>
                && i in old(rows)
                && now - DAY_MS < (if old(rows)[i].familyExpiresAt.Some? then old(rows)[i].familyExpiresAt.value else old(rows)[i].expiresAt)
      ensures forall i :: i in rows ==> rows[i] == old(rows)[i]
    {
      var cutoff := now - EXPIRED_TOKEN_RETENTION_MS;
      var before := rows;
      var unscoped := set i | i in rows && rows[i].familyExpiresAt.None? && rows[i].expiresAt <= cutoff;
      rows := rows - unscoped;
      var scoped := set i | i in rows && rows[i].familyExpiresAt.Some? && rows[i].familyExpiresAt.value <= cutoff;
      rows := rows - scoped;
      deleted := |unscoped| + |scoped|;
      CountDeleted(before, unscoped, scoped);
    }
  }

  lemma CountDeleted(rows: Table, first: set<Id>, second: set<Id>)
    requires first <= rows.Keys && second <= (rows - first).Keys
    ensures |first| + |second| == |rows| - |rows - first - second|
  {
    assert (rows - first - second).Keys == rows.Keys - first - second;
    assert rows.Keys == (rows - first - second).Keys + first + second;
    assert |rows.Keys| == |rows| && |(rows - first - second).Keys| == |rows - first - second|;
  }
}
