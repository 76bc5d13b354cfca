/** OAuth flow state: a sign-in in progress, taken up again at most once. */
module OAuthFlowState {
  import opened Support
  import Sessions = BrowserAuthSessions
  import Codes = OAuthAuthorizationCodes

  const OAUTH_FLOW_LIFETIME_MS := 10 * MINUTE_MS
  const OAUTH_FLOW_KEY_VERSION := 1

  type Hash = Sessions.TokenHash

  datatype Provider = GitHub | Google

  datatype Binding = Binding(flowId: string, provider: Provider, keyVersion: int)

  /** Authenticated encryption, symbolically: opening needs the binding it was sealed under. */
  datatype Ciphertext = Sealed(plaintext: string, binding: Binding)

  function Decrypt(c: Ciphertext, binding: Binding): Option<string> {
    if c.binding == binding then Some(c.plaintext) else None
  }

  datatype Row = Row(
    stateHash: Hash,
    provider: Provider,
    redirectUri: string,
    clientCodeChallenge: string,
    verifier: Ciphertext,
    keyVersion: int,
    oidcNonceHash: Option<Hash>,
    createdAt: int,
    expiresAt: int,
    consumedAt: Option<int>)

  type Table = map<string, Row>

  predicate IsOpaqueValue(value: string) {
    32 <= |value| <= 128 && forall k | 0 <= k < |value| :: Sessions.Base64UrlChar(value[k])
  }

  datatype CreateInput = CreateInput(
    state: string,
    provider: Provider,
    clientId: string,
    redirectUri: string,
    clientCodeChallenge: string,
    providerPkceVerifier: string,
    oidcNonce: Option<string>)

  datatype CreateError = MalformedState | MalformedBinding | NonceRequired | NonceForbidden | InvalidId | CreateConflict

  datatype Rejection =
    | Malformed | Unknown | ProviderMismatch | Expired | AlreadyConsumed | RaceLost | Corrupt
    | ConstraintViolation

  datatype Consumed = Consumed(
    flowId: string,
    provider: Provider,
    redirectUri: string,
    clientCodeChallenge: string,
    providerPkceVerifier: string,
    oidcNonceHash: Option<Hash>)

  // ---- statements ----

  datatype Statement = CreateStatement(flowId: string, row: Row) | ConsumeStatement(flowId: string, now: int)

  predicate RowFits(rows: Table, flowId: string, row: Row) {
    flowId != "" && flowId !in rows && forall i | i in rows :: rows[i].stateHash != row.stateHash
  }

  predicate Consumable(rows: Table, flowId: string, now: int) {
    flowId in rows && rows[flowId].consumedAt.None? && rows[flowId].expiresAt > now
  }

  /** The CHECK on consumed_at refuses a time before the row's creation. */
  predicate Consumes(rows: Table, flowId: string, now: int) {
    Consumable(rows, flowId, now) && rows[flowId].createdAt <= now
  }

  function Apply(rows: Table, s: Statement): Table {
    match s
    case CreateStatement(flowId, row) => if RowFits(rows, flowId, row) then rows[flowId := row] else rows
    case ConsumeStatement(flowId, now) =>
      if Consumes(rows, flowId, now) then rows[flowId := rows[flowId].(consumedAt := Some(now))] else rows
  }

  function ApplyAll(rows: Table, statements: seq<Statement>): Table
    decreases |statements|
  {
    if statements == [] then rows
    else Apply(ApplyAll(rows, statements[..|statements| - 1]), statements[|statements| - 1])
  }

  /** What `Create` writes: a verifier sealed to its own flow, and a nonce exactly for Google. */
  predicate RowOk(flowId: string, row: Row) {
    && row.verifier.binding == Binding(flowId, row.provider, row.keyVersion)
    && row.keyVersion == OAUTH_FLOW_KEY_VERSION
    && Codes.IsPkceVerifier(row.verifier.plaintext)
    && (row.oidcNonceHash.Some? <==> row.provider == Google)
    && row.expiresAt == row.createdAt + OAUTH_FLOW_LIFETIME_MS
  }

  ghost predicate Ok(rows: Table) {
    && (forall id :: id in rows ==> id != "" && RowOk(id, rows[id]))
    && forall i, j :: i in rows && j in rows && rows[i].stateHash == rows[j].stateHash ==> i == j
  }

  /** A caller creates only rows that `Create` would write. */
  ghost predicate Sound(statements: seq<Statement>) {
    forall s :: s in statements && s.CreateStatement? ==> RowOk(s.flowId, s.row)
  }

  /** Rows stay, apart from the consumption time, which is set once. */
  ghost predicate Grew(rows: Table, after: Table) {
    forall id :: id in rows ==>
      id in after && after[id].(consumedAt := None) == rows[id].(consumedAt := None)
      && (rows[id].consumedAt.Some? ==> after[id] == rows[id])
  }

  lemma ApplyKeepsOk(rows: Table, s: Statement)
    requires Ok(rows) && (s.CreateStatement? ==> RowOk(s.flowId, s.row))
    ensures Ok(Apply(rows, s)) && Grew(rows, Apply(rows, s))
  {
    match s
    case CreateStatement(id, row) => CreateKeepsOk(rows, id, row);
    case ConsumeStatement(id, now) => ConsumeKeepsOk(rows, id, now);
  }

  lemma CreateKeepsOk(rows: Table, flowId: string, row: Row)
    requires Ok(rows) && RowOk(flowId, row)
    ensures Ok(Apply(rows, CreateStatement(flowId, row))) && Grew(rows, Apply(rows, CreateStatement(flowId, row)))
  {}

  lemma ConsumeKeepsOk(rows: Table, flowId: string, now: int)
    requires Ok(rows)
    ensures Ok(Apply(rows, ConsumeStatement(flowId, now))) && Grew(rows, Apply(rows, ConsumeStatement(flowId, now)))
  {}

  lemma GrewFurther(a: Table, b: Table, c: Table)
    requires Grew(a, b) && Grew(b, c)
    ensures Grew(a, c)
  {}

  /** Every run keeps the table sound, keeps every row, and never takes back a consumption. */
  lemma {:induction false} RunKeepsOk(rows: Table, statements: seq<Statement>)
    requires Ok(rows) && Sound(statements)
    ensures Ok(ApplyAll(rows, statements)) && Grew(rows, ApplyAll(rows, statements))
    decreases |statements|
  {
    if statements != [] {
      var before, s := statements[..|statements| - 1], statements[|statements| - 1];
      RunKeepsOk(rows, before);
      assert s in statements;
      ApplyKeepsOk(ApplyAll(rows, before), s);
      GrewFurther(rows, ApplyAll(rows, before), ApplyAll(rows, statements));
    }
  }

  lemma {:induction false} ConsumptionLasts(rows: Table, run: seq<Statement>, i: nat, j: nat, id: string)
    requires i <= j <= |run|
    requires id in ApplyAll(rows, run[..i]) && ApplyAll(rows, run[..i])[id].consumedAt.Some?
    ensures id in ApplyAll(rows, run[..j]) && ApplyAll(rows, run[..j])[id] == ApplyAll(rows, run[..i])[id]
    decreases j
  {
    if i < j {
      ConsumptionLasts(rows, run, i, j - 1, id);
      assert run[..j][..j - 1] == run[..j - 1];
    }
  }

  predicate ConsumesAt(rows: Table, run: seq<Statement>, i: nat, id: string)
    requires i < |run|
  {
    run[i].ConsumeStatement? && run[i].flowId == id && Consumes(ApplyAll(rows, run[..i]), id, run[i].now)
  }

  lemma LaterConsumptionFails(rows: Table, run: seq<Statement>, i: nat, j: nat, id: string)
    requires i < j < |run| && ConsumesAt(rows, run, i, id)
    ensures !ConsumesAt(rows, run, j, id)
  {
    assert run[..i + 1][..i] == run[..i];
    ConsumptionLasts(rows, run, i + 1, j, id);
  }

  /** Each flow state is consumed at most once in any run. */
  lemma FlowIsConsumedAtMostOnce(rows: Table, run: seq<Statement>, i: nat, j: nat, id: string)
    requires i < |run| && j < |run| && ConsumesAt(rows, run, i, id) && ConsumesAt(rows, run, j, id)
    ensures i == j
  {
    if i < j {
      LaterConsumptionFails(rows, run, i, j, id);
    } else if j < i {
      LaterConsumptionFails(rows, run, j, i, id);
    }
  }

  // ---- the store ----

  class OAuthFlowStateStore {
    var rows: Table

    constructor ()
      ensures rows == map[] && Ok(rows)
    {
      rows := map[];
    }

    method Create(input: CreateInput, flowId: string, now: int) returns (r: Result<string, CreateError>)
      requires Ok(rows)
      modifies this
      ensures Ok(rows)
      ensures var row := Row(Sessions.Sha256(input.state), input.provider, input.redirectUri, input.clientCodeChallenge,
                             Sealed(input.providerPkceVerifier, Binding(flowId, input.provider, 1)), 1,
                             if input.provider == Google && input.oidcNonce.Some? then Some(Sessions.Sha256(input.oidcNonce.value)) else None,
                             now, now + 10 * MINUTE_MS, None);
              && (r.Success? <==>
                    && IsOpaqueValue(input.state) && input.clientId == "web" && input.redirectUri != ""
                    && Codes.IsPkceS256Challenge(input.clientCodeChallenge) && Codes.IsPkceVerifier(input.providerPkceVerifier)
                    && (if input.provider == Google then input.oidcNonce.Some? && IsOpaqueValue(input.oidcNonce.value) else input.oidcNonce.None?)
                    && RowFits(old(rows), flowId, row))
              && rows == if r.Success? then old(rows)[flowId := row] else old(rows)
      ensures r.Success? <==>
                && IsOpaqueValue(input.state) && input.clientId == "web" && input.redirectUri != ""
                && Codes.IsPkceS256Challenge(input.clientCodeChallenge) && Codes.IsPkceVerifier(input.providerPkceVerifier)
                && (if input.provider == Google then input.oidcNonce.Some? && IsOpaqueValue(input.oidcNonce.value) else input.oidcNonce.None?)
                && flowId != "" && flowId !in old(rows)
                && forall i :: i in old(rows) ==> old(rows)[i].stateHash != Sessions.Sha256(input.state)
      ensures r.Success? ==> r.value == flowId
    {
      if !IsOpaqueValue(input.state) {
        return Failure(MalformedState);
      }
      if input.clientId != "web" || input.redirectUri == "" || !Codes.IsPkceS256Challenge(input.clientCodeChallenge)
         || !Codes.IsPkceVerifier(input.providerPkceVerifier) {
        return Failure(MalformedBinding);
      }
      if input.provider == Google && (input.oidcNonce.None? || !IsOpaqueValue(input.oidcNonce.value)) {
        return Failure(NonceRequired);
      }
      if input.provider == GitHub && input.oidcNonce.Some? {
        return Failure(NonceForbidden);
      }
      if flowId == "" {
        return Failure(InvalidId);
      }
      var stateHash := Sessions.Sha256(input.state);
      if flowId in rows || exists i :: i in rows && rows[i].stateHash == stateHash {
        return Failure(CreateConflict);
      }
      var nonceHash := if input.provider == Google then Some(Sessions.Sha256(input.oidcNonce.value)) else None;
      rows := rows[flowId := Row(stateHash, input.provider, input.redirectUri, input.clientCodeChallenge,
                                 Sealed(input.providerPkceVerifier, Binding(flowId, input.provider, OAUTH_FLOW_KEY_VERSION)),
                                 OAUTH_FLOW_KEY_VERSION, nonceHash, now, now + OAUTH_FLOW_LIFETIME_MS, None)];
      return Success(flowId);
    }

    /** Statements of other callers that run while this one is suspended. */
    method Await(others: seq<Statement>)
      modifies this
      ensures rows == ApplyAll(old(rows), others)
    {
      ghost var before := rows;
      for i := 0 to |others|
        invariant rows == ApplyAll(before, others[..i])
      {
        rows := Apply(rows, others[i]);
        assert others[..i + 1][..i] == others[..i];
      }
      assert others[..|others|] == others;
    }

    /** The row with this state hash; the column is UNIQUE. */
    method Find(stateHash: Hash) returns (flowId: Option<string>)
      requires Ok(rows)
      ensures flowId.None? ==> forall id :: id in rows ==> rows[id].stateHash != stateHash
      ensures flowId.Some? ==> forall id :: id in rows && rows[id].stateHash == stateHash <==> id == flowId.value
    {
      if id :| id in rows && rows[id].stateHash == stateHash {
        return Some(id);
      }
      return None;
    }

    /** Everything after the row was found and read. */
    method TakeUp(flowId: string, expectedProvider: Provider, now: int, afterRead: seq<Statement>, afterUpdate: seq<Statement>)
      returns (r: Result<Consumed, Rejection>)
      requires Ok(rows) && Sound(afterRead) && Sound(afterUpdate) && flowId in rows
      modifies this
      ensures Ok(rows) && Grew(old(rows), rows)
      ensures var row, atUpdate := old(rows)[flowId], ApplyAll(old(rows), afterRead);
              && flowId in atUpdate
              && (r.Success? <==> row.provider == expectedProvider && Consumes(old(rows), flowId, now) && Consumes(atUpdate, flowId, now))
              && (r.Success? ==> r.value == Consumed(flowId, expectedProvider, row.redirectUri, row.clientCodeChallenge,
                                                     row.verifier.plaintext, row.oidcNonceHash)
                                 && rows == Apply(atUpdate, ConsumeStatement(flowId, now)))
              && (r == Failure(ProviderMismatch) <==> row.provider != expectedProvider)
              && (r == Failure(Expired) <==> row.provider == expectedProvider && row.consumedAt.None? && row.expiresAt <= now)
              && (r == Failure(AlreadyConsumed) <==>
                    row.provider == expectedProvider
                    && (row.consumedAt.Some? || (row.expiresAt > now && atUpdate[flowId].consumedAt.Some?)))
      ensures r.Failure? ==> r.error in {ProviderMismatch, Expired, AlreadyConsumed, ConstraintViolation}
    {
      var row := rows[flowId];
      RunKeepsOk(rows, afterRead);
      if row.provider != expectedProvider {
        return Failure(ProviderMismatch);
      }
      if row.consumedAt.Some? {
        return Failure(AlreadyConsumed);
      }
      if row.expiresAt <= now {
        return Failure(Expired);
      }
      var verifier := Decrypt(row.verifier, Binding(flowId, row.provider, row.keyVersion));
      if verifier.None? || !Codes.IsPkceVerifier(verifier.value) {
        return Failure(Corrupt);
      }
      Await(afterRead);
      var changed := UpdateConsumed(flowId, now);
      if changed.None? {
        return Failure(ConstraintViolation);
      }
      if !changed.value {
        RunKeepsOk(rows, afterUpdate);
        Await(afterUpdate);
        var why := CurrentRejection(flowId, now);
        return Failure(why);
      }
      return Success(Consumed(flowId, row.provider, row.redirectUri, row.clientCodeChallenge, verifier.value, row.oidcNonceHash));
    }

    /**
     * Hands out what was stored for this state, if the flow is still unconsumed when the update runs. A loser of
     * a race always learns `AlreadyConsumed`, and a stored row is never `Corrupt`.
     */
    method Consume(state: string, expectedProvider: Provider, now: int, afterRead: seq<Statement>, afterUpdate: seq<Statement>)
      returns (r: Result<Consumed, Rejection>)
      requires Ok(rows) && Sound(afterRead) && Sound(afterUpdate)
      modifies this
      ensures Ok(rows) && Grew(old(rows), rows)
      ensures r == Failure(Malformed) <==> !IsOpaqueValue(state)
      ensures r == Failure(Unknown) <==> IsOpaqueValue(state)
                                         && forall id :: id in old(rows) ==> old(rows)[id].stateHash != Sessions.Sha256(state)
      ensures r.Success? ==>
                var id, atUpdate := r.value.flowId, ApplyAll(old(rows), afterRead);
                && id in old(rows) && old(rows)[id].stateHash == Sessions.Sha256(state)
                && Consumes(old(rows), id, now) && Consumes(atUpdate, id, now)
                && rows == Apply(atUpdate, ConsumeStatement(id, now))
                && old(rows)[id].provider == expectedProvider
                && r.value == Consumed(id, expectedProvider, old(rows)[id].redirectUri, old(rows)[id].clientCodeChallenge,
                                       old(rows)[id].verifier.plaintext, old(rows)[id].oidcNonceHash)
      ensures IsOpaqueValue(state) ==>
                forall id :: id in old(rows) && old(rows)[id].stateHash == Sessions.Sha256(state) && Consumes(old(rows), id, now)
                             && old(rows)[id].provider == expectedProvider ==>
                  id in ApplyAll(old(rows), afterRead)
                  && (r == Failure(AlreadyConsumed) <==> ApplyAll(old(rows), afterRead)[id].consumedAt.Some?)
      ensures IsOpaqueValue(state) ==>
                forall id :: id in old(rows) && old(rows)[id].stateHash == Sessions.Sha256(state) ==>
                  var row, atUpdate := old(rows)[id], ApplyAll(old(rows), afterRead);
                  && id in atUpdate
                  && (r.Success? <==> row.provider == expectedProvider && row.consumedAt.None? && row.createdAt <= now < row.expiresAt
                                      && atUpdate[id].consumedAt.None?)
                  && (r == Failure(ProviderMismatch) <==> row.provider != expectedProvider)
                  && (r == Failure(Expired) <==> row.provider == expectedProvider && row.consumedAt.None? && row.expiresAt <= now)
                  && (r == Failure(AlreadyConsumed) <==>
                        row.provider == expectedProvider
                        && (row.consumedAt.Some? || (now < row.expiresAt && atUpdate[id].consumedAt.Some?)))
                  && (r.Success? ==> rows == atUpdate[id := atUpdate[id].(consumedAt := Some(now))])
      ensures r != Failure(RaceLost) && r != Failure(Corrupt)
    {
      if !IsOpaqueValue(state) {
        return Failure(Malformed);
      }
      var flowId := Find(Sessions.Sha256(state));
      if flowId.None? {
        return Failure(Unknown);
      }
      RunKeepsOk(rows, afterRead);
      r := TakeUp(flowId.value, expectedProvider, now, afterRead, afterUpdate);
    }

    method UpdateConsumed(flowId: string, now: int) returns (changed: Option<bool>)
      modifies this
      ensures changed == Some(true) <==> Consumes(old(rows), flowId, now)
      ensures changed == Some(false) <==> !Consumable(old(rows), flowId, now)
      ensures rows == Apply(old(rows), ConsumeStatement(flowId, now))
    {
      if flowId !in rows || rows[flowId].consumedAt.Some? || rows[flowId].expiresAt <= now {
        return Some(false);
      }
      if now < rows[flowId].createdAt {
        return None;
      }
      rows := rows[flowId := rows[flowId].(consumedAt := Some(now))];
      return Some(true);
    }

    method CurrentRejection(flowId: string, now: int) returns (why: Rejection)
      ensures why == AlreadyConsumed <==> flowId in rows && rows[flowId].consumedAt.Some?
      ensures why == Expired <==> flowId in rows && rows[flowId].consumedAt.None? && rows[flowId].expiresAt <= now
      ensures why == RaceLost <==> flowId !in rows || (rows[flowId].consumedAt.None? && rows[flowId].expiresAt > now)
    {
      if flowId !in rows {
        return RaceLost;
      }
      if rows[flowId].consumedAt.Some? {
        return AlreadyConsumed;
      }
      return if rows[flowId].expiresAt <= now then Expired else RaceLost;
    }
  }
}
