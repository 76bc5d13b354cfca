/** The token service as the source writes it: straight-line calls on the store. */
module WebSessionService {
  import opened Support
  import opened ApiTokens
  import opened WebSessions

  datatype Redemption =
    | Renewed(pair: TokenPair, userId: Id, familyId: Id)
    | Refused(failure: RedemptionFailure, family: Option<Id>)

  /** Clock readings and generated values of one mint. */
  datatype MintInput = MintInput(mintNow: int, access: Token, refresh: Token, accessId: Id, refreshId: Id, createdAt: int)

  /** Statements of other callers at the awaits of one redemption. */
  datatype Interference = Interference(
    afterRead: seq<Statement>, afterSuccessor: seq<Statement>, afterMint: seq<Statement>, betweenRevocations: seq<Statement>)

  class WebSessionTokenService {
    const store: ApiTokenStore

    constructor (store: ApiTokenStore)
      ensures this.store == store
    {
      this.store := store;
    }

    method MintPairInFamily(userId: Id, subject: Subject, familyId: Id, familyExpiresAt: int, input: MintInput)
      returns (minted: Option<TokenPair>)
      modifies store
      ensures var order := Mint(userId, subject, familyId, familyExpiresAt, input.access, input.refresh, input.mintNow);
              var ids := (input.accessId, input.refreshId);
              && (minted.Some? <==> Admits(old(store.rows), ids, PairRows(order)))
              && (minted.Some? ==> minted.value == order.pair
                                   && minted.value.accessExpiresAt <= familyExpiresAt
                                   && minted.value.refreshExpiresAt <= familyExpiresAt)
              && store.rows == if minted.Some? then WithPair(old(store.rows), ids, PairRows(order), input.createdAt)
                               else old(store.rows)
      ensures minted.Some? <==>
                && input.accessId != input.refreshId && input.accessId !in old(store.rows) && input.refreshId !in old(store.rows)
                && input.access != input.refresh
                && forall i :: i in old(store.rows) ==> old(store.rows)[i].tokenHash !in {Sha256(input.access), Sha256(input.refresh)}
      ensures minted.Some? ==>
                var access, refresh := Min(input.mintNow + 8 * HOUR_MS, familyExpiresAt), Min(input.mintNow + 30 * DAY_MS, familyExpiresAt);
                && minted.value == TokenPair(input.access, access, input.refresh, refresh)
                && store.rows == old(store.rows)[
                     input.accessId := Row(Sha256(input.access), WebSession, userId, Some(subject.provider), Some(subject.providerUserId),
                                           Some(familyId), None, input.createdAt, access, None, None)][
                     input.refreshId := Row(Sha256(input.refresh), WebSessionRefresh, userId, Some(subject.provider),
                                            Some(subject.providerUserId), Some(familyId), None, input.createdAt, refresh,
                                            Some(familyExpiresAt), None)]
    {
      var accessExpiresAt := Min(input.mintNow + WEB_SESSION_TOKEN_TTL_MS, familyExpiresAt);
      var refreshExpiresAt := Min(input.mintNow + WEB_SESSION_REFRESH_TTL_MS, familyExpiresAt);
      var created := store.CreatePair(
        NewToken(Sha256(input.access), WebSession, userId, subject.provider, subject.providerUserId,
                 familyId, accessExpiresAt, None),
        NewToken(Sha256(input.refresh), WebSessionRefresh, userId, subject.provider, subject.providerUserId,
                 familyId, refreshExpiresAt, Some(familyExpiresAt)),
        (input.accessId, input.refreshId), input.createdAt);
      minted := if created then Some(TokenPair(input.access, accessExpiresAt, input.refresh, refreshExpiresAt)) else None;
    }

    method VerifyAccessToken(token: Token, now: int) returns (r: Result<Verified, VerificationFailure>)
      ensures r.Success? <==> exists i :: i in store.rows && store.rows[i].tokenHash == Sha256(token)
                                       && VerifyRow(Some((i, store.rows[i])), now) == r && r.Success?
      ensures r.Success? ==> var id := r.value.tokenId;
                id in store.rows && store.rows[id].tokenHash == Sha256(token) && store.rows[id].kind == WebSession
                && store.rows[id].revokedAt.None? && now < store.rows[id].expiresAt && store.rows[id].userId == r.value.userId
      ensures UniqueHashes(store.rows) ==> forall i :: i in store.rows && store.rows[i].tokenHash == Sha256(token) ==>
                var row := store.rows[i];
                var ours := row.kind == WebSession && row.provider in {Some("github"), Some("google")}
                            && row.providerUserId.Some? && row.familyId.Some?;
                && (r.Success? <==> ours && row.revokedAt.None? && now < row.expiresAt)
                && (r.Success? ==> r.value == Verified(i, row.userId, Subject(row.provider.value, row.providerUserId.value)))
                && (r == Failure(RevokedToken) <==> ours && row.revokedAt.Some?)
                && (r == Failure(Expired) <==> ours && row.revokedAt.None? && row.expiresAt <= now)
                && (r == Failure(Unknown) <==> !ours)
      ensures (forall i :: i in store.rows ==> store.rows[i].tokenHash != Sha256(token)) ==> r == Failure(Unknown)
    {
      var found := store.GetByHash(Sha256(token));
      if found.None? || found.value.1.kind != WebSession {
        return Failure(Unknown);
      }
      var row := found.value.1;
      if !IsWebSessionRow(row) {
        return Failure(Unknown);
      }
      if row.revokedAt.Some? {
        return Failure(RevokedToken);
      }
      if row.expiresAt <= now {
        return Failure(Expired);
      }
      return Success(Verified(found.value.0, row.userId, Subject(row.provider.value, row.providerUserId.value)));
    }

    /** Exchange path: a fresh family whose cap is read just before the mint. */
    method MintPair(userId: Id, subject: Subject, familyId: Id, now: int, input: MintInput) returns (minted: Option<TokenPair>)
      modifies store
      ensures minted.Some? ==>
                && minted.value.accessExpiresAt <= now + WEB_SESSION_FAMILY_TTL_MS
                && minted.value.refreshExpiresAt <= now + WEB_SESSION_FAMILY_TTL_MS
                && input.refreshId in store.rows
                && store.rows[input.refreshId].tokenHash == Sha256(minted.value.refreshToken)
                && store.rows[input.refreshId].familyExpiresAt == Some(now + WEB_SESSION_FAMILY_TTL_MS)
      ensures minted.None? ==> store.rows == old(store.rows)
      ensures minted.Some? <==>
                && input.accessId != input.refreshId && input.accessId !in old(store.rows) && input.refreshId !in old(store.rows)
                && input.access != input.refresh
                && forall i :: i in old(store.rows) ==> old(store.rows)[i].tokenHash !in {Sha256(input.access), Sha256(input.refresh)}
      ensures minted.Some? ==>
                && minted.value == TokenPair(input.access, Min(input.mintNow + 8 * HOUR_MS, now + 90 * DAY_MS),
                                             input.refresh, Min(input.mintNow + 30 * DAY_MS, now + 90 * DAY_MS))
                && input.accessId in store.rows && store.rows[input.refreshId].familyId == Some(familyId) == store.rows[input.accessId].familyId
                && store.rows[input.refreshId].userId == userId == store.rows[input.accessId].userId
    {
      minted := MintPairInFamily(userId, subject, familyId, now + WEB_SESSION_FAMILY_TTL_MS, input);
    }

    /**
     * `others` is what other callers commit while this call is suspended at each of its awaits; `None` is a
     * constraint error thrown by the mint.
     */
    method RedeemRefreshToken(token: Token, now: int, input: MintInput, others: Interference)
      returns (r: Option<Redemption>)
      requires UniqueHashes(store.rows)
      modifies store
      ensures (forall i :: i in old(store.rows) ==> old(store.rows)[i].tokenHash != Sha256(token)) ==>
                r == Some(Refused(InvalidRefreshToken, None)) && store.rows == ApplyAll(old(store.rows), others.afterRead)
      ensures forall i :: i in old(store.rows) && old(store.rows)[i].tokenHash == Sha256(token) ==>
                Redeems(i, old(store.rows)[i], ApplyAll(old(store.rows), others.afterRead), now, input, others, r, store.rows)
      ensures forall i :: i in old(store.rows) && old(store.rows)[i].tokenHash == Sha256(token) ==>
                var row, before := old(store.rows)[i], ApplyAll(old(store.rows), others.afterRead);
                r.Some? && r.value.Renewed? <==>
                  && row.kind == WebSessionRefresh && row.provider in {Some("github"), Some("google")}
                  && row.providerUserId.Some? && row.familyId.Some?
                  && row.rotatedTo.None? && row.revokedAt.None? && now < row.expiresAt
                  && row.familyExpiresAt.Some? && now < row.familyExpiresAt.value
                  && input.accessId != input.refreshId && input.accessId !in before && input.refreshId !in before
                  && input.access != input.refresh
                  && (forall j :: j in before ==> before[j].tokenHash !in {Sha256(input.access), Sha256(input.refresh)})
                  && var raced := ApplyAll(Renewal(row, before, input), others.afterMint);
                     i in raced && raced[i].rotatedTo.None? && raced[i].revokedAt.None?
      ensures r.Some? && r.value.Renewed? ==> forall i :: i in old(store.rows) && old(store.rows)[i].tokenHash == Sha256(token) ==>
                var row := old(store.rows)[i];
                && row.familyExpiresAt.Some? && row.familyId == Some(r.value.familyId) && r.value.userId == row.userId
                && r.value.pair == TokenPair(input.access, Min(input.mintNow + 8 * HOUR_MS, row.familyExpiresAt.value),
                                             input.refresh, Min(input.mintNow + 30 * DAY_MS, row.familyExpiresAt.value))
                && i in store.rows && store.rows[i].rotatedTo == Some(input.refreshId)
    {
      var found := store.GetByHash(Sha256(token));
      store.Await(others.afterRead);
      if found.None? || found.value.1.kind != WebSessionRefresh {
        return Some(Refused(InvalidRefreshToken, None));
      }
      var id, row := found.value.0, found.value.1;
      if !IsWebSessionRow(row) {
        return Some(Refused(InvalidRefreshToken, None));
      }
      if row.rotatedTo.Some? {
        var successor := store.GetById(row.rotatedTo.value);
        if successor.Some? && now - successor.value.createdAt <= REFRESH_REUSE_GRACE_MS {
          return Some(Refused(RefreshSuperseded, row.familyId));
        }
        store.Await(others.afterSuccessor);
        store.RevokeFamily(row.familyId.value, now);
        return Some(Refused(RefreshReuseDetected, row.familyId));
      }
      if row.revokedAt.Some? || row.expiresAt <= now || row.familyExpiresAt.None? || row.familyExpiresAt.value <= now {
        return Some(Refused(InvalidRefreshToken, row.familyId));
      }
      var minted := MintPairInFamily(
        row.userId, Subject(row.provider.value, row.providerUserId.value), row.familyId.value, row.familyExpiresAt.value, input);
      if minted.None? {
        return None;
      }
      store.Await(others.afterMint);
      var consumed := store.ConsumeRefreshToken(id, input.refreshId);
      if !consumed {
        store.RevokeToken(input.accessId, now);
        store.Await(others.betweenRevocations);
        store.RevokeToken(input.refreshId, now);
        return Some(Refused(RefreshSuperseded, row.familyId));
      }
      return Some(Renewed(minted.value, row.userId, row.familyId.value));
    }
  }

  /** The table once the pair that renews this row is stored beside it. */
  ghost function Renewal(row: Row, before: Table, input: MintInput): Table
    requires row.familyExpiresAt.Some?
  {
    var access, refresh := Min(input.mintNow + 8 * HOUR_MS, row.familyExpiresAt.value), Min(input.mintNow + 30 * DAY_MS, row.familyExpiresAt.value);
    before[input.accessId := Row(Sha256(input.access), WebSession, row.userId, row.provider, row.providerUserId,
                                 row.familyId, None, input.createdAt, access, None, None)][
           input.refreshId := Row(Sha256(input.refresh), WebSessionRefresh, row.userId, row.provider, row.providerUserId,
                                  row.familyId, None, input.createdAt, refresh, row.familyExpiresAt, None)]
  }

  /** What redeeming the row that was read as `row` answers and leaves behind, whoever interferes. */
  ghost predicate Redeems(id: Id, row: Row, before: Table, now: int, input: MintInput, others: Interference,
                          r: Option<Redemption>, after: Table) {
    match Judge(row, now)
    case Reject(family) => r == Some(Refused(InvalidRefreshToken, family)) && after == before
    case Replay(f, successor) =>
      if successor in before && now - before[successor].createdAt <= MINUTE_MS
      then r == Some(Refused(RefreshSuperseded, Some(f))) && after == before
      else
        var raced := ApplyAll(before, others.afterSuccessor);
        r == Some(Refused(RefreshReuseDetected, Some(f)))
        && after.Keys == raced.Keys
        && forall i :: i in after ==> if raced[i].familyId == Some(f) then after[i].revokedAt.Some? else after[i] == raced[i]
    case MayMint =>
      var order := Mint(row.userId, Subject(row.provider.value, row.providerUserId.value), row.familyId.value,
                        row.familyExpiresAt.value, input.access, input.refresh, input.mintNow);
      var ids := (input.accessId, input.refreshId);
      if !Admits(before, ids, PairRows(order)) then r.None? && after == before
      else
        var raced := ApplyAll(WithPair(before, ids, PairRows(order), input.createdAt), others.afterMint);
        if Consumable(raced, id)
        then r == Some(Renewed(order.pair, row.userId, row.familyId.value))
             && after == raced[id := raced[id].(rotatedTo := Some(input.refreshId))]
        else
          r == Some(Refused(RefreshSuperseded, row.familyId))
          && (input.refreshId in after ==> after[input.refreshId].revokedAt.Some?)
          && after == TokenRevoked(ApplyAll(TokenRevoked(raced, input.accessId, now), others.betweenRevocations), input.refreshId, now)
  }
}
