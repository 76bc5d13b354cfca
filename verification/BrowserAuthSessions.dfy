/** Sliding browser sessions: a lazily touched row that stands for an exact sliding window. */
module BrowserAuthSessions {
  import opened Support

  const BROWSER_SESSION_PREFIX := "oi_bsess_"
  const BROWSER_SESSION_IDLE_LIFETIME_MS := 7 * DAY_MS
  const BROWSER_SESSION_ABSOLUTE_LIFETIME_MS := 30 * DAY_MS
  const BROWSER_SESSION_TOUCH_INTERVAL_MS := DAY_MS

  type Credential = string

  /** SHA-256 as an injective constructor. */
  datatype TokenHash = Sha256(credential: Credential)

  datatype RevocationReason = Logout | Operator | ProviderIdentity

  datatype Row = Row(
    tokenHash: TokenHash,
    userId: string,
    providerIdentityId: string,
    createdAt: int,
    lastUsedAt: int,
    expiresAt: int,
    absoluteExpiresAt: int,
    revoked: Option<(int, RevocationReason)>)

  type Table = map<string, Row>

  datatype Rejection = Malformed | Unknown | Revoked | IdleExpired | AbsoluteExpired

  datatype Authenticated = Authenticated(
    credentialId: string,
    userId: string,
    providerIdentityId: string,
    lastUsedAt: int,
    expiresAt: int,
    absoluteExpiresAt: int)

  datatype CreateError = MissingOwner | InvalidCredential | InvalidId | ConstraintViolation

  datatype Created = Created(credential: Credential, credentialId: string, expiresAt: int, absoluteExpiresAt: int)

  predicate Base64UrlChar(c: char) {
    'A' <= c <= 'Z' || 'a' <= c <= 'z' || '0' <= c <= '9' || c == '_' || c == '-'
  }

  predicate WellFormedCredential(value: string) {
    BROWSER_SESSION_PREFIX <= value
    && |value| == |BROWSER_SESSION_PREFIX| + 43
    && forall k | |BROWSER_SESSION_PREFIX| <= k < |value| :: Base64UrlChar(value[k])
  }

  // ---- one row ----

  function NewRow(hash: TokenHash, userId: string, providerIdentityId: string, now: int): Row {
    Row(hash, userId, providerIdentityId, now, now, now + BROWSER_SESSION_IDLE_LIFETIME_MS,
        now + BROWSER_SESSION_ABSOLUTE_LIFETIME_MS, None)
  }

  predicate Live(row: Row, now: int) {
    row.revoked.None? && row.expiresAt > now && row.absoluteExpiresAt > now
  }

  predicate TouchDue(row: Row, now: int) {
    Live(row, now) && row.lastUsedAt <= now - BROWSER_SESSION_TOUCH_INTERVAL_MS
  }

  function Touched(row: Row, now: int): Row {
    if TouchDue(row, now)
    then row.(lastUsedAt := now, expiresAt := Min(now + BROWSER_SESSION_IDLE_LIFETIME_MS, row.absoluteExpiresAt))
    else row
  }

  function RevokedRow(row: Row, now: int, reason: RevocationReason): Row {
    if row.revoked.None? then row.(revoked := Some((now, reason))) else row
  }

  function Judge(row: Row, id: string, now: int): Result<Authenticated, Rejection> {
    if row.revoked.Some? then Failure(Revoked)
    else if row.absoluteExpiresAt <= now then Failure(AbsoluteExpired)
    else if row.expiresAt <= now then Failure(IdleExpired)
    else Success(Authenticated(id, row.userId, row.providerIdentityId, row.lastUsedAt, row.expiresAt, row.absoluteExpiresAt))
  }

  /** The answer for a stored row, column by column; the absolute limit is reported before the idle one. */
  ghost predicate DecidedByColumns(row: Row, id: string, now: int, r: Result<Authenticated, Rejection>) {
    && (r.Success? <==> row.revoked.None? && now < row.expiresAt && now < row.absoluteExpiresAt)
    && (r.Success? ==>
          && r.value.credentialId == id && r.value.userId == row.userId && r.value.providerIdentityId == row.providerIdentityId
          && r.value.lastUsedAt == row.lastUsedAt && r.value.expiresAt == row.expiresAt
          && r.value.absoluteExpiresAt == row.absoluteExpiresAt)
    && (r == Failure(Revoked) <==> row.revoked.Some?)
    && (r == Failure(AbsoluteExpired) <==> row.revoked.None? && row.absoluteExpiresAt <= now)
    && (r == Failure(IdleExpired) <==> row.revoked.None? && row.expiresAt <= now < row.absoluteExpiresAt)
  }

  /** The table's CHECK constraints on the times, and what the writers keep besides. */
  predicate RowOk(row: Row) {
    && row.createdAt <= row.lastUsedAt < row.expiresAt <= row.absoluteExpiresAt
    && row.absoluteExpiresAt == row.createdAt + BROWSER_SESSION_ABSOLUTE_LIFETIME_MS
    && row.expiresAt == Min(row.lastUsedAt + BROWSER_SESSION_IDLE_LIFETIME_MS, row.absoluteExpiresAt)
    && (row.revoked.Some? ==> row.revoked.value.0 >= row.createdAt)
  }

  // ---- the store ----

  class BrowserAuthSessionStore {
    var rows: Table
    /** The owner of each provider identity, which the foreign key refers to. */
    var identities: map<string, string>

    constructor (identities: map<string, string>)
      ensures Valid() && rows == map[] && this.identities == identities
    {
      rows := map[];
      this.identities := identities;
    }

    ghost predicate Valid()
      reads this
    {
      && "" !in rows && (forall id :: id in rows ==> RowOk(rows[id]))
      && forall i, j :: i in rows && j in rows && rows[i].tokenHash == rows[j].tokenHash ==> i == j
    }

    method Create(userId: string, providerIdentityId: string, credential: Credential, credentialId: string, now: int)
      returns (r: Result<Created, CreateError>)
      requires Valid()
      modifies this`rows
      ensures Valid()
      ensures r.Success? <==>
              && userId != "" && providerIdentityId != "" && WellFormedCredential(credential) && credentialId != ""
              && credentialId !in old(rows) && (forall i :: i in old(rows) ==> old(rows)[i].tokenHash != Sha256(credential))
              && providerIdentityId in identities && identities[providerIdentityId] == userId
      ensures r.Success? ==> r.value == Created(credential, credentialId, now + 7 * DAY_MS, now + 30 * DAY_MS)
      ensures rows == if r.Success?
                      then old(rows)[credentialId := Row(Sha256(credential), userId, providerIdentityId, now, now,
                                                         now + 7 * DAY_MS, now + 30 * DAY_MS, None)]
                      else old(rows)
      ensures r.Success? ==> rows[credentialId] == NewRow(Sha256(credential), userId, providerIdentityId, now)
    {
      if userId == "" || providerIdentityId == "" {
        return Failure(MissingOwner);
      }
      if !WellFormedCredential(credential) {
        return Failure(InvalidCredential);
      }
      if credentialId == "" {
        return Failure(InvalidId);
      }
      var tokenHash := Sha256(credential);
      var expiresAt := now + BROWSER_SESSION_IDLE_LIFETIME_MS;
      var absoluteExpiresAt := now + BROWSER_SESSION_ABSOLUTE_LIFETIME_MS;
      if credentialId in rows || (exists i :: i in rows && rows[i].tokenHash == tokenHash)
         || providerIdentityId !in identities || identities[providerIdentityId] != userId {
        return Failure(ConstraintViolation);
      }
      rows := rows[credentialId := Row(tokenHash, userId, providerIdentityId, now, now, expiresAt, absoluteExpiresAt, None)];
      return Success(Created(credential, credentialId, expiresAt, absoluteExpiresAt));
    }

    /** Accepts exactly a credential whose row is live. */
    method Authenticate(credential: string, now: int) returns (r: Result<Authenticated, Rejection>)
      requires Valid()
      ensures r.Success? <==> WellFormedCredential(credential)
                              && exists id :: id in rows && rows[id].tokenHash == Sha256(credential) && Live(rows[id], now)
      ensures r.Success? ==> r.value.credentialId in rows && rows[r.value.credentialId].tokenHash == Sha256(credential)
                             && r == Judge(rows[r.value.credentialId], r.value.credentialId, now)
      ensures WellFormedCredential(credential) ==> forall id :: id in rows && rows[id].tokenHash == Sha256(credential) ==>
                DecidedByColumns(rows[id], id, now, r)
      ensures r == Failure(Malformed) <==> !WellFormedCredential(credential)
      ensures r == Failure(Unknown) <==> WellFormedCredential(credential)
                                         && forall id :: id in rows ==> rows[id].tokenHash != Sha256(credential)
    {
      if !WellFormedCredential(credential) {
        return Failure(Malformed);
      }
      if id :| id in rows && rows[id].tokenHash == Sha256(credential) {
        return Judge(rows[id], id, now);
      }
      return Failure(Unknown);
    }

    method AuthenticateById(credentialId: string, now: int) returns (r: Result<Authenticated, Rejection>)
      requires Valid()
      ensures r.Success? <==> credentialId in rows && Live(rows[credentialId], now)
      ensures r.Success? ==> r == Judge(rows[credentialId], credentialId, now)
      ensures credentialId in rows ==> DecidedByColumns(rows[credentialId], credentialId, now, r)
      ensures r == Failure(Malformed) <==> credentialId == ""
      ensures r == Failure(Unknown) <==> credentialId != "" && credentialId !in rows
      ensures r == Failure(Revoked) <==> credentialId in rows && rows[credentialId].revoked.Some?
      ensures r == Failure(AbsoluteExpired) <==> credentialId in rows && rows[credentialId].revoked.None?
                                                 && rows[credentialId].absoluteExpiresAt <= now
      ensures r == Failure(IdleExpired) <==> credentialId in rows && rows[credentialId].revoked.None?
                                             && rows[credentialId].expiresAt <= now < rows[credentialId].absoluteExpiresAt
    {
      if credentialId == "" {
        return Failure(Malformed);
      }
      if credentialId !in rows {
        return Failure(Unknown);
      }
      return Judge(rows[credentialId], credentialId, now);
    }

    /** `None` when the CHECK on revoked_at refuses a clock that went back before the row's creation. */
    method RevokeById(credentialId: string, reason: RevocationReason, now: int) returns (revoked: Option<bool>)
      requires Valid()
      modifies this`rows
      ensures Valid()
      ensures revoked.None? <==> credentialId in old(rows) && old(rows)[credentialId].revoked.None?
                                 && now < old(rows)[credentialId].createdAt
      ensures revoked == Some(true) <==> credentialId in old(rows) && old(rows)[credentialId].revoked.None?
                                         && now >= old(rows)[credentialId].createdAt
      ensures rows == if revoked == Some(true)
                      then old(rows)[credentialId := old(rows)[credentialId].(revoked := Some((now, reason)))] else old(rows)
      ensures revoked == Some(true) ==> rows[credentialId] == RevokedRow(old(rows)[credentialId], now, reason)
    {
      if credentialId !in rows || rows[credentialId].revoked.Some? {
        return Some(false);
      }
      if now < rows[credentialId].createdAt {
        return None;
      }
      rows := rows[credentialId := rows[credentialId].(revoked := Some((now, reason)))];
      return Some(true);
    }

    method Revoke(credential: Credential, reason: RevocationReason, now: int) returns (revoked: Option<bool>)
      requires Valid()
      modifies this`rows
      ensures Valid()
      ensures revoked == Some(true) <==> exists id :: id in old(rows) && old(rows)[id].tokenHash == Sha256(credential)
                                                      && old(rows)[id].revoked.None? && old(rows)[id].createdAt <= now
      ensures revoked == Some(true) ==>
                exists id :: id in old(rows) && old(rows)[id].tokenHash == Sha256(credential)
                             && rows == old(rows)[id := old(rows)[id].(revoked := Some((now, reason)))]
      ensures revoked.None? <==> exists id :: id in old(rows) && old(rows)[id].tokenHash == Sha256(credential)
                                              && old(rows)[id].revoked.None? && now < old(rows)[id].createdAt
      ensures revoked != Some(true) ==> rows == old(rows)
    {
      revoked := Some(false);
      if id :| id in rows && rows[id].tokenHash == Sha256(credential) {
        revoked := RevokeById(id, reason, now);
      }
    }

    /** Records activity seen at `now` by a statement that runs after the clock was read. */
    method TouchQualifyingActivity(credentialId: string, now: int)
      requires Valid()
      modifies this`rows
      ensures Valid()
      ensures rows == if credentialId in old(rows) then old(rows)[credentialId := Touched(old(rows)[credentialId], now)]
                      else old(rows)
      ensures rows ==
              if credentialId in old(rows) && old(rows)[credentialId].revoked.None? && now < old(rows)[credentialId].expiresAt
                 && now < old(rows)[credentialId].absoluteExpiresAt && old(rows)[credentialId].lastUsedAt + DAY_MS <= now
              then old(rows)[credentialId := old(rows)[credentialId].(
                     lastUsedAt := now,
                     expiresAt := if now + 7 * DAY_MS <= old(rows)[credentialId].absoluteExpiresAt
                                  then now + 7 * DAY_MS else old(rows)[credentialId].absoluteExpiresAt)]
              else old(rows)
    {
      if credentialId in rows {
        var row := rows[credentialId];
        if row.revoked.None? && row.expiresAt > now && row.absoluteExpiresAt > now
           && row.lastUsedAt <= now - BROWSER_SESSION_TOUCH_INTERVAL_MS {
          rows := rows[credentialId := row.(lastUsedAt := now,
                                            expiresAt := Min(now + BROWSER_SESSION_IDLE_LIFETIME_MS, row.absoluteExpiresAt))];
        }
      }
    }
  }

  // ---- runs on one session ----

  /** A statement on one row, with the clock reading it carries. */
  datatype Event = Activity(now: int) | Revocation(now: int, reason: RevocationReason)

  function Apply(row: Row, e: Event): Row {
    match e
    case Activity(now) => Touched(row, now)
    case Revocation(now, reason) => RevokedRow(row, now, reason)
  }

  function Run(row: Row, events: seq<Event>): Row
    decreases |events|
  {
    if events == [] then row else Apply(Run(row, events[..|events| - 1]), events[|events| - 1])
  }

  predicate AfterCreation(row: Row, events: seq<Event>) {
    forall e | e in events :: e.now >= row.createdAt
  }

  /** In whatever order the statements land, expiry never moves back and a revocation stays. */
  lemma {:induction false} RunKeeps(row: Row, events: seq<Event>)
    requires RowOk(row) && AfterCreation(row, events)
    ensures RowOk(Run(row, events))
    ensures Run(row, events).createdAt == row.createdAt && Run(row, events).absoluteExpiresAt == row.absoluteExpiresAt
    ensures Run(row, events).expiresAt >= row.expiresAt && Run(row, events).lastUsedAt >= row.lastUsedAt
    ensures row.revoked.Some? ==> Run(row, events) == row
    decreases |events|
  {
    if events != [] {
      RunKeeps(row, events[..|events| - 1]);
    }
  }

  /** The latest activity that found the session live; the creation counts as one. */
  function LastActivity(row: Row, events: seq<Event>): int
    decreases |events|
  {
    if events == [] then row.createdAt
    else
      var before, e := events[..|events| - 1], events[|events| - 1];
      if e.Activity? && Live(Run(row, before), e.now) then Max(LastActivity(row, before), e.now) else LastActivity(row, before)
  }

  /**
   * In whatever order the statements land, the stored window is the exact sliding window, late by less than the
   * touch interval and never early.
   */
  lemma {:induction false} TracksTheSlidingWindow(row: Row, events: seq<Event>)
    requires RowOk(row) && row.lastUsedAt == row.createdAt && AfterCreation(row, events)
    ensures var stored := Run(row, events);
            var ideal := Min(LastActivity(row, events) + BROWSER_SESSION_IDLE_LIFETIME_MS, row.absoluteExpiresAt);
            stored.expiresAt <= ideal < stored.expiresAt + BROWSER_SESSION_TOUCH_INTERVAL_MS
    ensures Run(row, events).lastUsedAt <= LastActivity(row, events)
                                         < Run(row, events).lastUsedAt + BROWSER_SESSION_TOUCH_INTERVAL_MS
    decreases |events|
  {
    RunKeeps(row, events);
    if events != [] {
      TracksTheSlidingWindow(row, events[..|events| - 1]);
      RunKeeps(row, events[..|events| - 1]);
    }
  }

  /** A session dead at some time is dead ever after, for statements that carry no earlier clock reading. */
  lemma {:induction false} DeadStaysDead(row: Row, died: int, events: seq<Event>, now: int)
    requires RowOk(row) && !Live(row, died) && row.createdAt <= died <= now
    requires forall e :: e in events ==> e.now >= died
    ensures !Live(Run(row, events), now)
    ensures Run(row, events).expiresAt == row.expiresAt
    decreases |events|
  {
    if events != [] {
      var before, e := events[..|events| - 1], events[|events| - 1];
      DeadStaysDead(row, died, before, e.now);
      DeadStaysDead(row, died, before, now);
      RunKeeps(row, before);
    }
  }

  /**
   * A touch revives a dead session exactly when it lands late: its clock was read before the idle expiry
   * that has passed by the time it runs, a day or more after the last recorded use.
   */
  lemma LateTouchRevivesIff(row: Row, readAt: int, landsAt: int)
    requires RowOk(row) && !Live(row, landsAt)
    ensures Live(Touched(row, readAt), landsAt) <==>
            && row.revoked.None? && row.expiresAt <= landsAt < row.absoluteExpiresAt
            && row.lastUsedAt + BROWSER_SESSION_TOUCH_INTERVAL_MS <= readAt < row.expiresAt
            && landsAt < readAt + BROWSER_SESSION_IDLE_LIFETIME_MS
  {
  }

  /** One millisecond late is enough. */
  lemma AMillisecondLateRevives(hash: TokenHash, userId: string, identityId: string, created: int)
    ensures var row := NewRow(hash, userId, identityId, created);
            var expiry := created + BROWSER_SESSION_IDLE_LIFETIME_MS;
            RowOk(row) && !Live(row, expiry) && Live(Touched(row, expiry - 1), expiry)
  {
    LateTouchRevivesIff(NewRow(hash, userId, identityId, created), created + BROWSER_SESSION_IDLE_LIFETIME_MS - 1,
                        created + BROWSER_SESSION_IDLE_LIFETIME_MS);
  }

  // ---- how often a touch writes ----

  function Writes(row: Row, events: seq<Event>): nat
    decreases |events|
  {
    if events == [] then 0
    else
      var before, e := events[..|events| - 1], events[|events| - 1];
      Writes(row, before) + (if e.Activity? && TouchDue(Run(row, before), e.now) then 1 else 0)
  }

  lemma {:induction false} EachWriteIsADay(row: Row, events: seq<Event>)
    requires RowOk(row) && AfterCreation(row, events)
    ensures row.lastUsedAt + Writes(row, events) * DAY_MS <= Run(row, events).lastUsedAt
    decreases |events|
  {
    if events != [] {
      EachWriteIsADay(row, events[..|events| - 1]);
    }
  }

  /** However much activity and in whatever order, at most 29 touches ever write. */
  lemma AtMost29Writes(row: Row, events: seq<Event>)
    requires RowOk(row) && AfterCreation(row, events)
    ensures Writes(row, events) <= 29
  {
    EachWriteIsADay(row, events);
    RunKeeps(row, events);
  }

  function DailyActivity(created: int, days: nat): seq<Event> {
    if days == 0 then [] else DailyActivity(created, days - 1) + [Activity(created + days * DAY_MS)]
  }

  /** Daily activity does write 29 times, so the bound is exact. */
  lemma {:induction false} DailyActivityWritesDaily(hash: TokenHash, userId: string, identityId: string, created: int, days: nat)
    requires days <= 29
    ensures var row, events := NewRow(hash, userId, identityId, created), DailyActivity(created, days);
            Writes(row, events) == days && Run(row, events).revoked.None?
            && Run(row, events).lastUsedAt == created + days * DAY_MS
            && Run(row, events).absoluteExpiresAt == row.absoluteExpiresAt
            && Run(row, events).expiresAt == Min(created + days * DAY_MS + BROWSER_SESSION_IDLE_LIFETIME_MS, row.absoluteExpiresAt)
  {
    if days > 0 {
      DailyActivityWritesDaily(hash, userId, identityId, created, days - 1);
      var events := DailyActivity(created, days);
      assert events[..|events| - 1] == DailyActivity(created, days - 1);
    }
  }
}
