/**
 * Web session tokens and their rotating refresh tokens.
 *
 * Every async method of the service is a small program whose awaits split it into
 * segments; a `Call` is one such program stopped at an await, and an `Event` runs one
 * segment or one SQL statement. A call that is never scheduled again has stopped midway.
 */
module WebSessions {
  import opened Support
  import opened ApiTokens

  const WEB_SESSION_TOKEN_TTL_MS := 8 * HOUR_MS
  const WEB_SESSION_REFRESH_TTL_MS := 30 * DAY_MS
  const WEB_SESSION_FAMILY_TTL_MS := 90 * DAY_MS
  const REFRESH_REUSE_GRACE_MS := MINUTE_MS

  type CallId = nat

  datatype Subject = Subject(provider: string, providerUserId: string)

  predicate IsSignInProvider(value: Option<string>) {
    value == Some("github") || value == Some("google")
  }

  /** The narrowing guard: the row carries a verified subject and a family. */
  predicate IsWebSessionRow(row: Row) {
    IsSignInProvider(row.provider) && row.providerUserId.Some? && row.familyId.Some?
  }

  datatype TokenPair = TokenPair(
    accessToken: Token,
    accessExpiresAt: int,
    refreshToken: Token,
    refreshExpiresAt: int)

  /** What `mintPairInFamily` is about to store. */
  datatype MintOrder = MintOrder(
    userId: Id,
    subject: Subject,
    familyId: Id,
    familyExpiresAt: int,
    pair: TokenPair)

  datatype RedemptionFailure = InvalidRefreshToken | RefreshSuperseded | RefreshReuseDetected

  datatype VerificationFailure = Unknown | Expired | RevokedToken

  datatype Verified = Verified(tokenId: Id, userId: Id, subject: Subject)

  datatype Purpose =
    | ForExchange(born: int)
    | ForRedeem(parent: Id, parentRow: Row)

  datatype Call =
      // mintPairInFamily: hashing, then the createPair batch
    | Hashing(purpose: Purpose, order: MintOrder)
    | Inserting(purpose: Purpose, order: MintOrder, accessId: Id, refreshId: Id, createdAt: int)
      // redeemRefreshToken
    | Looking(token: Token)
    | Found(id: Id, row: Row)
    | FindingSuccessor(familyId: Id, successorId: Id)
    | SuccessorFound(familyId: Id, successor: Option<Row>)
    | RevokingFamily(familyId: Id)
    | Consuming(parent: Id, parentRow: Row, order: MintOrder, accessId: Id, refreshId: Id)
    | Compensating(familyId: Id, orphans: set<Id>)
      // returned
    | Exchanged(order: MintOrder, accessId: Id, refreshId: Id)
    | Redeemed(parent: Id, order: MintOrder, accessId: Id, refreshId: Id)
    | Rejected(failure: RedemptionFailure, family: Option<Id>)

  /** History of one rotation family: its first mint, its subject, its chain of refresh rows. */
  datatype Family = Family(born: int, userId: Id, subject: Subject, path: seq<Id>) {
    function Cap(): int { born + WEB_SESSION_FAMILY_TTL_MS }
  }

  datatype State = State(
    clock: int,
    rows: Table,
    calls: map<CallId, Call>,
    owner: map<Token, CallId>,     // which call drew a token
    drawn: map<Id, CallId>,        // which call generated an id
    guessed: set<Token>,           // presented tokens that were never delivered
    families: map<Id, Family>,
    revokedFamilies: set<Id>,
    presented: map<CallId, Id>)    // which row a presented token resolved to

  datatype Event =
    | Tick(at: int)
    | BeginExchange(call: CallId, userId: Id, subject: Subject, familyId: Id, access: Token, refresh: Token, at: int)
    | GenerateIds(call: CallId, accessId: Id, refreshId: Id)
    | CommitPair(call: CallId)
    | Present(call: CallId, token: Token)
    | Lookup(call: CallId, id: Id)
    | LookupMiss(call: CallId)
    | Check(call: CallId, access: Token, refresh: Token, at: int)
    | LookupSuccessor(call: CallId)
    | CheckReplay(call: CallId)
    | RevokeReplayed(call: CallId)
    | Consume(call: CallId)
    | Compensate(call: CallId, orphan: Id)
      // other writers of the table
    | RevokeFamily(familyId: Id)
    | RevokeOne(id: Id)
    | Sweep(now: int)

  // ---- the segments ----

  /** `mintPairInFamily` up to its first await: both leaves are clamped to the family cap. */
  function Mint(userId: Id, subject: Subject, familyId: Id, familyExpiresAt: int,
                access: Token, refresh: Token, now: int): MintOrder {
    MintOrder(userId, subject, familyId, familyExpiresAt,
              TokenPair(access, Min(now + WEB_SESSION_TOKEN_TTL_MS, familyExpiresAt),
                        refresh, Min(now + WEB_SESSION_REFRESH_TTL_MS, familyExpiresAt)))
  }

  function PairRows(order: MintOrder): (NewToken, NewToken) {
    (NewToken(Sha256(order.pair.accessToken), WebSession, order.userId, order.subject.provider,
              order.subject.providerUserId, order.familyId, order.pair.accessExpiresAt, None),
     NewToken(Sha256(order.pair.refreshToken), WebSessionRefresh, order.userId, order.subject.provider,
              order.subject.providerUserId, order.familyId, order.pair.refreshExpiresAt,
              Some(order.familyExpiresAt)))
  }

  function VerifyRow(found: Option<(Id, Row)>, now: int): Result<Verified, VerificationFailure> {
    match found
    case None => Failure(Unknown)
    case Some((id, row)) =>
      if row.kind != WebSession || !IsWebSessionRow(row) then Failure(Unknown)
      else if row.revokedAt.Some? then Failure(RevokedToken)
      else if row.expiresAt <= now then Failure(Expired)
      else Success(Verified(id, row.userId, Subject(row.provider.value, row.providerUserId.value)))
  }

  datatype Verdict = Reject(family: Option<Id>) | Replay(familyId: Id, successorId: Id) | MayMint

  /** The checks between the row read and the mint; the replay check comes first. */
  function Judge(row: Row, now: int): Verdict {
    if row.kind != WebSessionRefresh || !IsWebSessionRow(row) then Reject(None)
    else if row.rotatedTo.Some? then Replay(row.familyId.value, row.rotatedTo.value)
    else if row.revokedAt.Some? || row.expiresAt <= now
            || row.familyExpiresAt.None? || row.familyExpiresAt.value <= now then Reject(row.familyId)
    else MayMint
  }

  function AfterCheck(id: Id, row: Row, access: Token, refresh: Token, now: int, mintNow: int): Call {
    match Judge(row, now)
    case Reject(family) => Rejected(InvalidRefreshToken, family)
    case Replay(familyId, successorId) => FindingSuccessor(familyId, successorId)
    case MayMint =>
      Hashing(ForRedeem(id, row),
              Mint(row.userId, Subject(row.provider.value, row.providerUserId.value),
                   row.familyId.value, row.familyExpiresAt.value, access, refresh, mintNow))
  }

  function AfterReplay(familyId: Id, successor: Option<Row>, now: int): Call {
    if successor.Some? && now - successor.value.createdAt <= REFRESH_REUSE_GRACE_MS
    then Rejected(RefreshSuperseded, Some(familyId))
    else RevokingFamily(familyId)
  }

  // ---- what callers hold ----

  predicate Delivers(call: Call, token: Token) {
    (call.Exchanged? || call.Redeemed?)
    && (token == call.order.pair.accessToken || token == call.order.pair.refreshToken)
  }

  /** A finished call returned `token` to its caller. */
  predicate Held(s: State, token: Token) {
    token in s.owner && s.owner[token] in s.calls && Delivers(s.calls[s.owner[token]], token)
  }

  // ---- events ----

  predicate Fresh(s: State, token: Token) {
    token !in s.owner && token !in s.guessed
  }

  predicate FreshId(s: State, id: Id) {
    id !in s.drawn
  }

  predicate At(s: State, c: CallId, stage: Call -> bool) {
    c in s.calls && stage(s.calls[c])
  }

  predicate Enabled(s: State, e: Event) {
    match e
    case Tick(at) => s.clock <= at
    case BeginExchange(c, _, subject, familyId, access, refresh, at) =>
      c !in s.calls && IsSignInProvider(Some(subject.provider)) && FreshId(s, familyId)
      && Fresh(s, access) && Fresh(s, refresh) && access != refresh && s.clock <= at
    case GenerateIds(c, accessId, refreshId) =>
      c in s.calls && s.calls[c].Hashing? && FreshId(s, accessId) && FreshId(s, refreshId) && accessId != refreshId
    case CommitPair(c) => c in s.calls && s.calls[c].Inserting?
    case Present(c, token) => c !in s.calls && (Held(s, token) || token !in s.owner)
    case Lookup(c, id) =>
      c in s.calls && s.calls[c].Looking? && id in s.rows && s.rows[id].tokenHash == Sha256(s.calls[c].token)
    case LookupMiss(c) =>
      c in s.calls && s.calls[c].Looking?
      && forall i | i in s.rows :: s.rows[i].tokenHash != Sha256(s.calls[c].token)
    case Check(c, access, refresh, at) =>
      c in s.calls && s.calls[c].Found? && Fresh(s, access) && Fresh(s, refresh) && access != refresh && s.clock <= at
    case LookupSuccessor(c) => c in s.calls && s.calls[c].FindingSuccessor?
    case CheckReplay(c) => c in s.calls && s.calls[c].SuccessorFound?
    case RevokeReplayed(c) => c in s.calls && s.calls[c].RevokingFamily?
    case Consume(c) => c in s.calls && s.calls[c].Consuming?
    case Compensate(c, orphan) => c in s.calls && s.calls[c].Compensating? && orphan in s.calls[c].orphans
    case RevokeFamily(_) => true
    case RevokeOne(_) => true
    case Sweep(now) => now <= s.clock
  }

  function Goto(s: State, c: CallId, call: Call): State {
    s.(calls := s.calls[c := call])
  }

  function MarkRevoked(s: State, familyId: Id): State {
    s.(rows := FamilyRevoked(s.rows, familyId, s.clock),
       revokedFamilies := if familyId in s.families then s.revokedFamilies + {familyId} else s.revokedFamilies)
  }

  function Commit(s: State, c: CallId, call: Call): State
    requires call.Inserting?
  {
    var rows := WithPair(s.rows, (call.accessId, call.refreshId), PairRows(call.order), call.createdAt);
    match call.purpose
    case ForExchange(born) =>
      s.(rows := rows,
         families := s.families[call.order.familyId :=
           Family(born, call.order.userId, call.order.subject, [call.refreshId])],
         calls := s.calls[c := Exchanged(call.order, call.accessId, call.refreshId)])
    case ForRedeem(parent, parentRow) =>
      s.(rows := rows,
         calls := s.calls[c := Consuming(parent, parentRow, call.order, call.accessId, call.refreshId)])
  }

  function CompareAndSet(s: State, c: CallId, call: Call): State
    requires call.Consuming?
  {
    var f := call.order.familyId;
    if Consumable(s.rows, call.parent) then
      s.(rows := Consumed(s.rows, call.parent, call.refreshId),
         calls := s.calls[c := Redeemed(call.parent, call.order, call.accessId, call.refreshId)],
         families := if f in s.families
                     then s.families[f := s.families[f].(path := s.families[f].path + [call.refreshId])]
                     else s.families)
    else
      Goto(s, c, Compensating(f, {call.accessId, call.refreshId}))
  }

  function AfterCompensation(call: Call, orphan: Id): Call
    requires call.Compensating?
  {
    var left := call.orphans - {orphan};
    if left == {} then Rejected(RefreshSuperseded, Some(call.familyId)) else call.(orphans := left)
  }

  function Draw(s: State, c: CallId, access: Token, refresh: Token, at: int): State {
    s.(owner := s.owner[access := c][refresh := c], clock := at)
  }

  function Step(s: State, e: Event): State
    requires Enabled(s, e)
  {
    match e
    case Tick(at) => s.(clock := at)
    case BeginExchange(c, userId, subject, familyId, access, refresh, at) =>
      Goto(Draw(s, c, access, refresh, at), c,
           Hashing(ForExchange(s.clock),
                   Mint(userId, subject, familyId, s.clock + WEB_SESSION_FAMILY_TTL_MS, access, refresh, at)))
      .(drawn := s.drawn[familyId := c])
    case GenerateIds(c, accessId, refreshId) =>
      Goto(s, c, Inserting(s.calls[c].purpose, s.calls[c].order, accessId, refreshId, s.clock))
      .(drawn := s.drawn[accessId := c][refreshId := c])
    case CommitPair(c) => Commit(s, c, s.calls[c])
    case Present(c, token) =>
      Goto(s, c, Looking(token)).(guessed := if Held(s, token) then s.guessed else s.guessed + {token})
    case Lookup(c, id) => Goto(s, c, Found(id, s.rows[id])).(presented := s.presented[c := id])
    case LookupMiss(c) => Goto(s, c, Rejected(InvalidRefreshToken, None))
    case Check(c, access, refresh, at) =>
      Goto(Draw(s, c, access, refresh, at), c,
           AfterCheck(s.calls[c].id, s.calls[c].row, access, refresh, s.clock, at))
    case LookupSuccessor(c) =>
      var id := s.calls[c].successorId;
      Goto(s, c, SuccessorFound(s.calls[c].familyId, if id in s.rows then Some(s.rows[id]) else None))
    case CheckReplay(c) => Goto(s, c, AfterReplay(s.calls[c].familyId, s.calls[c].successor, s.clock))
    case RevokeReplayed(c) =>
      Goto(MarkRevoked(s, s.calls[c].familyId), c, Rejected(RefreshReuseDetected, Some(s.calls[c].familyId)))
    case Consume(c) => CompareAndSet(s, c, s.calls[c])
    case Compensate(c, orphan) =>
      Goto(s, c, AfterCompensation(s.calls[c], orphan)).(rows := TokenRevoked(s.rows, orphan, s.clock))
    case RevokeFamily(familyId) => MarkRevoked(s, familyId)
    case RevokeOne(id) => s.(rows := TokenRevoked(s.rows, id, s.clock))
    case Sweep(now) => s.(rows := Swept(s.rows, now))
  }

  // ---- runs ----

  const INIT := State(0, map[], map[], map[], map[], {}, map[], {}, map[])

  predicate Possible(s: State, events: seq<Event>)
    decreases |events|
  {
    events == [] || (Enabled(s, events[0]) && Possible(Step(s, events[0]), events[1..]))
  }

  function Run(s: State, events: seq<Event>): State
    requires Possible(s, events)
    decreases |events|
  {
    if events == [] then s else Run(Step(s, events[0]), events[1..])
  }
}
