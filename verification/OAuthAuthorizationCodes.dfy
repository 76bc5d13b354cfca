/** Authorization codes: each one is exchanged for at most one browser session, its own. */
module OAuthAuthorizationCodes {
  import opened Support
  import Sessions = BrowserAuthSessions

  const OAUTH_AUTHORIZATION_CODE_LIFETIME_MS := MINUTE_MS
  const CODE_PREFIX := "oi_code_"

  type Hash = Sessions.TokenHash

  datatype CodeRow = CodeRow(
    id: string,
    userId: string,
    providerIdentityId: string,
    redirectUri: string,
    codeChallenge: string,
    createdAt: int,
    expiresAt: int,
    consumed: Option<(int, string)>)

  /** `codes` is indexed by its UNIQUE code hash; `identities` is what the foreign keys refer to. */
  datatype Db = Db(codes: map<Hash, CodeRow>, sessions: Sessions.Table, identities: map<string, string>)

  predicate WellFormedCode(code: string) {
    CODE_PREFIX <= code && |code| == |CODE_PREFIX| + 43
    && forall k | |CODE_PREFIX| <= k < |code| :: Sessions.Base64UrlChar(code[k])
  }

  predicate IsPkceS256Challenge(value: string) {
    |value| == 43 && forall k | 0 <= k < 43 :: Sessions.Base64UrlChar(value[k])
  }

  predicate PkceVerifierChar(c: char) {
    'A' <= c <= 'Z' || 'a' <= c <= 'z' || '0' <= c <= '9' || c == '-' || c == '.' || c == '_' || c == '~'
  }

  predicate IsPkceVerifier(value: string) {
    43 <= |value| <= 128 && forall k | 0 <= k < |value| :: PkceVerifierChar(value[k])
  }

  // ---- statements and batches ----

  /** The two statements of a redemption and the values bound into them. */
  datatype Redemption = Redemption(codeHash: Hash, clientId: string, redirectUri: string, now: int,
                                   credentialId: string, credentialHash: Hash)

  datatype NewCode = NewCode(codeHash: Hash, row: CodeRow)

  datatype NewSession = NewSession(id: string, tokenHash: Hash, userId: string, providerIdentityId: string, now: int)

  datatype Outcome = Aborted | Changes(consumed: nat, created: nat)

  predicate Consumable(db: Db, b: Redemption) {
    && b.codeHash in db.codes && b.clientId == "web"
    && db.codes[b.codeHash].redirectUri == b.redirectUri
    && db.codes[b.codeHash].consumed.None?
    && db.codes[b.codeHash].expiresAt > b.now
  }

  predicate SessionFits(db: Db, s: NewSession) {
    && s.id != "" && s.id !in db.sessions
    && (forall i | i in db.sessions :: db.sessions[i].tokenHash != s.tokenHash)
    && s.providerIdentityId in db.identities && db.identities[s.providerIdentityId] == s.userId
  }

  function WithSession(db: Db, s: NewSession): Db {
    db.(sessions := db.sessions[s.id := Sessions.NewRow(s.tokenHash, s.userId, s.providerIdentityId, s.now)])
  }

  function Marked(db: Db, b: Redemption): Db {
    if Consumable(db, b)
    then db.(codes := db.codes[b.codeHash := db.codes[b.codeHash].(consumed := Some((b.now, b.credentialId)))])
    else db
  }

  predicate Selected(db: Db, b: Redemption) {
    b.codeHash in db.codes && db.codes[b.codeHash].consumed == Some((b.now, b.credentialId))
  }

  function SessionFor(code: CodeRow, b: Redemption): NewSession {
    NewSession(b.credentialId, b.credentialHash, code.userId, code.providerIdentityId, b.now)
  }

  /** Consume, then insert the session selected through the consumed code; a violated constraint undoes both. */
  function Redeemed(db: Db, b: Redemption): (Db, Outcome) {
    if Consumable(db, b) && (b.credentialId == "" || b.now < db.codes[b.codeHash].createdAt) then (db, Aborted)
    else
      var marked := Marked(db, b);
      var consumed := if Consumable(db, b) then 1 else 0;
      if !Selected(marked, b) then (marked, Changes(consumed, 0))
      else
        var session := SessionFor(marked.codes[b.codeHash], b);
        if SessionFits(marked, session) then (WithSession(marked, session), Changes(consumed, 1)) else (db, Aborted)
  }

  datatype Statement =
    | IssueStatement(code: NewCode)
    | RedeemStatement(redemption: Redemption)
    | CreateSessionStatement(session: NewSession)
    | TouchSessionStatement(sessionId: string, now: int)
    | RevokeSessionStatement(sessionId: string, now: int, reason: Sessions.RevocationReason)

  /** The constraints of the codes table. */
  predicate CodeFits(db: Db, c: NewCode) {
    && c.codeHash !in db.codes
    && c.row.id != "" && (forall h | h in db.codes :: db.codes[h].id != c.row.id)
    && c.row.providerIdentityId in db.identities && db.identities[c.row.providerIdentityId] == c.row.userId
    && c.row.expiresAt > c.row.createdAt && c.row.consumed.None?
  }

  function Apply(db: Db, s: Statement): Db {
    match s
    case IssueStatement(c) => if CodeFits(db, c) then db.(codes := db.codes[c.codeHash := c.row]) else db
    case RedeemStatement(b) => Redeemed(db, b).0
    case CreateSessionStatement(session) => if SessionFits(db, session) then WithSession(db, session) else db
    case TouchSessionStatement(id, now) =>
      if id in db.sessions then db.(sessions := db.sessions[id := Sessions.Touched(db.sessions[id], now)]) else db
    case RevokeSessionStatement(id, now, reason) =>
      if id in db.sessions && db.sessions[id].createdAt <= now
      then db.(sessions := db.sessions[id := Sessions.RevokedRow(db.sessions[id], now, reason)]) else db
  }

  function ApplyAll(db: Db, statements: seq<Statement>): Db
    decreases |statements|
  {
    if statements == [] then db
    else Apply(ApplyAll(db, statements[..|statements| - 1]), statements[|statements| - 1])
  }

  // ---- what every run keeps ----

  /** A consumed code names a session of its own user and identity, created when it was consumed. */
  ghost predicate CodeOk(db: Db, h: Hash)
    requires h in db.codes
  {
    var code := db.codes[h];
    && code.providerIdentityId in db.identities && db.identities[code.providerIdentityId] == code.userId
    && code.createdAt < code.expiresAt
    && (code.consumed.Some? ==>
          var (at, session) := code.consumed.value;
          && session in db.sessions
          && db.sessions[session].userId == code.userId && db.sessions[session].providerIdentityId == code.providerIdentityId
          && db.sessions[session].createdAt == at && code.createdAt <= at < code.expiresAt)
  }

  ghost predicate Ok(db: Db) {
    && (forall h {:trigger CodeOk(db, h)} :: h in db.codes ==> CodeOk(db, h))
    && (forall g, h | g in db.codes && h in db.codes && db.codes[g].consumed.Some? && db.codes[h].consumed.Some? ::
          db.codes[g].consumed.value.1 == db.codes[h].consumed.value.1 ==> g == h)
    && (forall id :: id in db.sessions ==> Sessions.RowOk(db.sessions[id]))
  }

  /** Rows stay; only the consumption mark of a code, the window and the revocation of a session can change, and a mark is final. */
  ghost predicate Grew(db: Db, after: Db) {
    && after.identities == db.identities
    && (forall h :: h in db.codes ==>
          h in after.codes && after.codes[h].(consumed := None) == db.codes[h].(consumed := None)
          && (db.codes[h].consumed.Some? ==> after.codes[h] == db.codes[h]))
    && (forall id :: id in db.sessions ==>
          id in after.sessions && after.sessions[id].userId == db.sessions[id].userId
          && after.sessions[id].providerIdentityId == db.sessions[id].providerIdentityId
          && after.sessions[id].createdAt == db.sessions[id].createdAt)
  }

  /** In a sound database both statements of a redemption change one row each, or neither changes any. */
  lemma CountsAgree(db: Db, b: Redemption)
    requires Ok(db)
    ensures Redeemed(db, b).1.Aborted? || Redeemed(db, b).1 == Changes(0, 0) || Redeemed(db, b).1 == Changes(1, 1)
    ensures Redeemed(db, b).1 == Changes(1, 1) ==> Consumable(db, b)
    ensures Redeemed(db, b).1 != Changes(1, 1) ==> Redeemed(db, b).0 == db
  {
    if !Consumable(db, b) && Selected(db, b) {
      assert CodeOk(db, b.codeHash);
    }
  }

  /** The batch redeems exactly an open code of this binding, for a credential whose id and hash are new. */
  lemma RedeemedIff(db: Db, b: Redemption)
    requires Ok(db)
    ensures Redeemed(db, b).1 == Changes(1, 1) <==>
            && b.codeHash in db.codes && b.clientId == "web" && b.credentialId != "" && b.credentialId !in db.sessions
            && (var code := db.codes[b.codeHash];
                code.redirectUri == b.redirectUri && code.consumed.None? && code.createdAt <= b.now < code.expiresAt)
            && forall id :: id in db.sessions ==> db.sessions[id].tokenHash != b.credentialHash
    ensures Redeemed(db, b).1 == Changes(1, 1) ==>
              var code := db.codes[b.codeHash];
              Redeemed(db, b).0 == Db(
                db.codes[b.codeHash := code.(consumed := Some((b.now, b.credentialId)))],
                db.sessions[b.credentialId := Sessions.Row(b.credentialHash, code.userId, code.providerIdentityId, b.now, b.now,
                                                           b.now + 7 * DAY_MS, b.now + 30 * DAY_MS, None)],
                db.identities)
  {
    if b.codeHash in db.codes {
      assert CodeOk(db, b.codeHash);
    }
  }

  lemma RedeemKeepsOk(db: Db, b: Redemption)
    requires Ok(db)
    ensures Ok(Redeemed(db, b).0) && Grew(db, Redeemed(db, b).0)
  {
    CountsAgree(db, b);
    var after := Redeemed(db, b).0;
    if Redeemed(db, b).1 == Changes(1, 1) {
      forall h | h in after.codes ensures CodeOk(after, h) {
        assert CodeOk(db, h);
      }
      forall h | h in db.codes && db.codes[h].consumed.Some? ensures db.codes[h].consumed.value.1 != b.credentialId {
        assert CodeOk(db, h);
      }
    }
  }

  /** Writing a session that keeps its user, identity and creation time leaves the codes alone. */
  lemma SessionWriteKeepsOk(db: Db, id: string, row: Sessions.Row)
    requires Ok(db) && Sessions.RowOk(row)
    requires id in db.sessions ==> row.userId == db.sessions[id].userId && row.createdAt == db.sessions[id].createdAt
                                   && row.providerIdentityId == db.sessions[id].providerIdentityId
    ensures var after := db.(sessions := db.sessions[id := row]); Ok(after) && Grew(db, after)
  {
    var after := db.(sessions := db.sessions[id := row]);
    forall h | h in after.codes ensures CodeOk(after, h) {
      assert CodeOk(db, h);
    }
  }

  lemma IssueKeepsOk(db: Db, c: NewCode)
    requires Ok(db)
    ensures var after := Apply(db, IssueStatement(c)); Ok(after) && Grew(db, after)
  {
    var after := Apply(db, IssueStatement(c));
    forall h | h in after.codes ensures CodeOk(after, h) {
      if h in db.codes {
        assert CodeOk(db, h);
      }
    }
  }

  lemma ApplyKeepsOk(db: Db, s: Statement)
    requires Ok(db)
    ensures Ok(Apply(db, s)) && Grew(db, Apply(db, s))
  {
    match s
    case IssueStatement(c) => IssueKeepsOk(db, c);
    case RedeemStatement(b) => RedeemKeepsOk(db, b);
    case _ => SessionStatementKeepsOk(db, s);
  }

  lemma SessionStatementKeepsOk(db: Db, s: Statement)
    requires Ok(db) && (s.CreateSessionStatement? || s.TouchSessionStatement? || s.RevokeSessionStatement?)
    ensures Ok(Apply(db, s)) && Grew(db, Apply(db, s))
  {
    match s
    case CreateSessionStatement(session) =>
      if SessionFits(db, session) {
        SessionWriteKeepsOk(db, session.id, WithSession(db, session).sessions[session.id]);
      }
    case TouchSessionStatement(id, now) =>
      if id in db.sessions {
        SessionWriteKeepsOk(db, id, Sessions.Touched(db.sessions[id], now));
      }
    case RevokeSessionStatement(id, now, reason) =>
      if id in db.sessions && db.sessions[id].createdAt <= now {
        SessionWriteKeepsOk(db, id, Sessions.RevokedRow(db.sessions[id], now, reason));
      }
    case _ =>
  }

  /** Every run keeps the tables sound, keeps every row, and never takes back a consumption. */
  lemma {:induction false} RunKeepsOk(db: Db, statements: seq<Statement>)
    requires Ok(db)
    ensures Ok(ApplyAll(db, statements)) && Grew(db, ApplyAll(db, statements))
    decreases |statements|
  {
    if statements != [] {
      RunKeepsOk(db, statements[..|statements| - 1]);
      ApplyKeepsOk(ApplyAll(db, statements[..|statements| - 1]), statements[|statements| - 1]);
    }
  }

  lemma {:induction false} RunInTwoParts(db: Db, first: seq<Statement>, second: seq<Statement>)
    ensures ApplyAll(db, first + second) == ApplyAll(ApplyAll(db, first), second)
    decreases |second|
  {
    if second == [] {
      assert first + second == first;
    } else {
      RunInTwoParts(db, first, second[..|second| - 1]);
      assert (first + second)[..|first + second| - 1] == first + second[..|second| - 1];
    }
  }

  predicate RedeemsAt(db: Db, run: seq<Statement>, i: nat, h: Hash)
    requires i < |run|
  {
    && run[i].RedeemStatement? && run[i].redemption.codeHash == h
    && Redeemed(ApplyAll(db, run[..i]), run[i].redemption).1 == Changes(1, 1)
  }

  /** However the batches interleave, a code is exchanged at most once. */
  lemma CodeIsRedeemedAtMostOnce(db: Db, run: seq<Statement>, i: nat, j: nat, h: Hash)
    requires Ok(db) && i < |run| && j < |run|
    requires RedeemsAt(db, run, i, h) && RedeemsAt(db, run, j, h)
    ensures i == j
  {
    if i < j {
      SecondRedemptionFails(db, run, i, j, h);
    } else if j < i {
      SecondRedemptionFails(db, run, j, i, h);
    }
  }

  lemma SecondRedemptionFails(db: Db, run: seq<Statement>, i: nat, j: nat, h: Hash)
    requires Ok(db) && i < j < |run| && RedeemsAt(db, run, i, h)
    ensures !RedeemsAt(db, run, j, h)
  {
    var atFirst := ApplyAll(db, run[..i]);
    RunKeepsOk(db, run[..i]);
    CountsAgree(atFirst, run[i].redemption);
    assert run[..i + 1][..i] == run[..i];
    var afterFirst := ApplyAll(db, run[..i + 1]);
    assert h in afterFirst.codes && afterFirst.codes[h].consumed.Some?;
    RunKeepsOk(db, run[..i + 1]);
    assert run[..j] == run[..i + 1] + run[i + 1..j];
    RunInTwoParts(db, run[..i + 1], run[i + 1..j]);
    RunKeepsOk(afterFirst, run[i + 1..j]);
    RunKeepsOk(db, run[..j]);
    if RedeemsAt(db, run, j, h) {
      CountsAgree(ApplyAll(db, run[..j]), run[j].redemption);
    }
  }

  // ---- the store ----

  datatype IssueError = MalformedBinding | InvalidCode | InvalidId | ConstraintViolation

  datatype RedeemError =
    | Malformed | Unknown | BindingMismatch | PkceFailed | Expired | AlreadyConsumed | RaceLost
    | InvalidGenerated
    | BatchAborted
    | ResultInvariant

  datatype IssueInput = IssueInput(userId: string, providerIdentityId: string, clientId: string, redirectUri: string,
                                   codeChallenge: string)

  datatype RedeemInput = RedeemInput(code: string, clientId: string, redirectUri: string, codeVerifier: string)

  /** The request names a code it is entitled to, as the table stood when it was read. */
  predicate Entitled(db: Db, input: RedeemInput, s256: string -> string) {
    && WellFormedCode(input.code) && IsPkceVerifier(input.codeVerifier)
    && Sessions.Sha256(input.code) in db.codes
    && var row := db.codes[Sessions.Sha256(input.code)];
       input.clientId == "web" && row.redirectUri == input.redirectUri && row.codeChallenge == s256(input.codeVerifier)
  }

  class OAuthAuthorizationCodeStore {
    var db: Db

    constructor (identities: map<string, string>)
      ensures db == Db(map[], map[], identities) && Ok(db)
    {
      db := Db(map[], map[], identities);
    }

    method Issue(input: IssueInput, code: string, codeId: string, now: int) returns (r: Result<(string, int), IssueError>)
      requires Ok(db)
      modifies this
      ensures Ok(db)
      ensures var row := CodeRow(codeId, input.userId, input.providerIdentityId, input.redirectUri, input.codeChallenge,
                                 now, now + MINUTE_MS, None);
              && (r.Success? <==>
                    && input.userId != "" && input.providerIdentityId != "" && input.clientId == "web"
                    && input.redirectUri != "" && IsPkceS256Challenge(input.codeChallenge)
                    && WellFormedCode(code) && CodeFits(old(db), NewCode(Sessions.Sha256(code), row)))
              && db == if r.Success? then old(db).(codes := old(db).codes[Sessions.Sha256(code) := row]) else old(db)
      ensures r.Success? <==>
                && input.userId != "" && input.providerIdentityId != "" && input.clientId == "web" && input.redirectUri != ""
                && IsPkceS256Challenge(input.codeChallenge) && WellFormedCode(code) && codeId != ""
                && Sessions.Sha256(code) !in old(db).codes && (forall h :: h in old(db).codes ==> old(db).codes[h].id != codeId)
                && input.providerIdentityId in old(db).identities && old(db).identities[input.providerIdentityId] == input.userId
      ensures r.Success? ==> r.value == (code, now + MINUTE_MS)
    {
      if input.userId == "" || input.providerIdentityId == "" || input.clientId != "web" || input.redirectUri == ""
         || !IsPkceS256Challenge(input.codeChallenge) {
        return Failure(MalformedBinding);
      }
      if !WellFormedCode(code) {
        return Failure(InvalidCode);
      }
      if codeId == "" {
        return Failure(InvalidId);
      }
      var expiresAt := now + OAUTH_AUTHORIZATION_CODE_LIFETIME_MS;
      var row := CodeRow(codeId, input.userId, input.providerIdentityId, input.redirectUri, input.codeChallenge,
                         now, expiresAt, None);
      var issued := NewCode(Sessions.Sha256(code), row);
      if !CodeFits(db, issued) {
        return Failure(ConstraintViolation);
      }
      ApplyKeepsOk(db, IssueStatement(issued));
      db := db.(codes := db.codes[issued.codeHash := row]);
      return Success((code, expiresAt));
    }

    /** Statements of other callers that run while this one is suspended. */
    method Await(others: seq<Statement>)
      modifies this
      ensures db == ApplyAll(old(db), others)
    {
      ghost var before := db;
      for i := 0 to |others|
        invariant db == ApplyAll(before, others[..i])
      {
        db := Apply(db, others[i]);
        assert others[..i + 1][..i] == others[..i];
      }
      assert others[..|others|] == others;
    }

    method UpdateConsumed(b: Redemption) returns (changes: nat, ok: bool)
      modifies this
      ensures ok <==> (Consumable(old(db), b) ==> b.credentialId != "" && b.now >= old(db).codes[b.codeHash].createdAt)
      ensures db == if ok then Marked(old(db), b) else old(db)
      ensures ok ==> changes == if Consumable(old(db), b) then 1 else 0
    {
      changes, ok := 0, true;
      if b.codeHash in db.codes && b.clientId == "web" {
        var row := db.codes[b.codeHash];
        if row.redirectUri == b.redirectUri && row.consumed.None? && row.expiresAt > b.now {
          if b.credentialId == "" || b.now < row.createdAt {
            ok := false;
          } else {
            db := db.(codes := db.codes[b.codeHash := row.(consumed := Some((b.now, b.credentialId)))]);
            changes := 1;
          }
        }
      }
    }

    method RunRedemption(b: Redemption) returns (outcome: Outcome)
      modifies this
      ensures (db, outcome) == Redeemed(old(db), b)
    {
      var before := db;
      var consumed, ok := UpdateConsumed(b);
      if !ok {
        return Aborted;
      }
      if b.codeHash !in db.codes || db.codes[b.codeHash].consumed != Some((b.now, b.credentialId)) {
        return Changes(consumed, 0);
      }
      var code := db.codes[b.codeHash];
      if b.credentialId == "" || b.credentialId in db.sessions
         || (exists i :: i in db.sessions && db.sessions[i].tokenHash == b.credentialHash)
         || code.providerIdentityId !in db.identities || db.identities[code.providerIdentityId] != code.userId {
        db := before;
        return Aborted;
      }
      var session := Sessions.NewRow(b.credentialHash, code.userId, code.providerIdentityId, b.now);
      db := db.(sessions := db.sessions[b.credentialId := session]);
      return Changes(consumed, 1);
    }

    /**
     * Succeeds exactly when the entitled code is still consumable as the batch runs. A loser of a race always
     * learns `AlreadyConsumed`: `RaceLost` and the result-invariant error cannot happen.
     */
    method Redeem(input: RedeemInput, s256: string -> string, now: int, credential: string, credentialId: string,
                  afterRead: seq<Statement>, afterBatch: seq<Statement>)
      returns (r: Result<Sessions.Created, RedeemError>)
      requires Ok(db)
      modifies this
      ensures Ok(db) && Grew(old(db), db)
      ensures var hash := Sessions.Sha256(input.code);
              var mine := Redemption(hash, input.clientId, input.redirectUri, now, credentialId, Sessions.Sha256(credential));
              var atBatch := ApplyAll(old(db), afterRead);
              && (r.Success? <==>
                    && Entitled(old(db), input, s256) && old(db).codes[hash].consumed.None? && old(db).codes[hash].expiresAt > now
                    && Sessions.WellFormedCredential(credential) && credentialId != ""
                    && Redeemed(atBatch, mine).1 == Changes(1, 1))
              && (r.Success? ==>
                    && db == Redeemed(atBatch, mine).0
                    && r.value == Sessions.Created(credential, credentialId, now + 7 * DAY_MS, now + 30 * DAY_MS)
                    && db.codes[hash].consumed == Some((now, credentialId))
                    && db.sessions[credentialId] == Sessions.NewRow(Sessions.Sha256(credential), old(db).codes[hash].userId,
                                                                    old(db).codes[hash].providerIdentityId, now))
              && (r == Failure(AlreadyConsumed) <==>
                    && Entitled(old(db), input, s256)
                    && (old(db).codes[hash].consumed.Some?
                        || (&& old(db).codes[hash].expiresAt > now
                            && Sessions.WellFormedCredential(credential) && credentialId != ""
                            && hash in atBatch.codes && atBatch.codes[hash].consumed.Some? && Redeemed(atBatch, mine).1 == Changes(0, 0))))
              && (r == Failure(Expired) <==> Entitled(old(db), input, s256) && old(db).codes[hash].consumed.None?
                                             && old(db).codes[hash].expiresAt <= now)
      ensures r.Success? <==>
                var hash, atBatch := Sessions.Sha256(input.code), ApplyAll(old(db), afterRead);
                && WellFormedCode(input.code) && IsPkceVerifier(input.codeVerifier) && input.clientId == "web"
                && Sessions.WellFormedCredential(credential) && credentialId != "" && hash in old(db).codes && hash in atBatch.codes
                && (var code := old(db).codes[hash];
                    && code.redirectUri == input.redirectUri && code.codeChallenge == s256(input.codeVerifier)
                    && code.consumed.None? && code.createdAt <= now < code.expiresAt)
                && atBatch.codes[hash].consumed.None? && credentialId !in atBatch.sessions
                && forall id :: id in atBatch.sessions ==> atBatch.sessions[id].tokenHash != Sessions.Sha256(credential)
      ensures r == Failure(Malformed) <==> !WellFormedCode(input.code)
      ensures r == Failure(Unknown) <==> WellFormedCode(input.code) && IsPkceVerifier(input.codeVerifier)
                                         && Sessions.Sha256(input.code) !in old(db).codes
      ensures r == Failure(BindingMismatch) <==>
                && WellFormedCode(input.code) && IsPkceVerifier(input.codeVerifier) && Sessions.Sha256(input.code) in old(db).codes
                && (input.clientId != "web" || old(db).codes[Sessions.Sha256(input.code)].redirectUri != input.redirectUri)
      ensures r != Failure(RaceLost) && r != Failure(ResultInvariant)
    {
      if !WellFormedCode(input.code) {
        return Failure(Malformed);
      }
      if !IsPkceVerifier(input.codeVerifier) {
        return Failure(PkceFailed);
      }
      var presentedChallenge := s256(input.codeVerifier);
      var codeHash := Sessions.Sha256(input.code);
      if codeHash !in db.codes {
        return Failure(Unknown);
      }
      var row := db.codes[codeHash];
      if input.clientId != "web" || row.redirectUri != input.redirectUri {
        return Failure(BindingMismatch);
      }
      if row.codeChallenge != presentedChallenge {
        return Failure(PkceFailed);
      }
      if row.consumed.Some? {
        return Failure(AlreadyConsumed);
      }
      if row.expiresAt <= now {
        return Failure(Expired);
      }
      if !Sessions.WellFormedCredential(credential) || credentialId == "" {
        return Failure(InvalidGenerated);
      }
      RunKeepsOk(db, afterRead);
      Await(afterRead);
      var b := Redemption(codeHash, input.clientId, input.redirectUri, now, credentialId, Sessions.Sha256(credential));
      CountsAgree(db, b);
      RedeemKeepsOk(db, b);
      RedeemedIff(db, b);
      var outcome := RunRedemption(b);
      if outcome.Aborted? {
        return Failure(BatchAborted);
      }
      if outcome == Changes(0, 0) {
        RunKeepsOk(db, afterBatch);
        Await(afterBatch);
        var why := CurrentRejection(codeHash, now);
        return Failure(why);
      }
      if outcome.consumed != 1 || outcome.created != 1 {
        return Failure(ResultInvariant);
      }
      return Success(Sessions.Created(credential, credentialId, now + Sessions.BROWSER_SESSION_IDLE_LIFETIME_MS,
                                      now + Sessions.BROWSER_SESSION_ABSOLUTE_LIFETIME_MS));
    }

    method CurrentRejection(codeHash: Hash, now: int) returns (why: RedeemError)
      ensures why == AlreadyConsumed <==> codeHash in db.codes && db.codes[codeHash].consumed.Some?
      ensures why == Expired <==> codeHash in db.codes && db.codes[codeHash].consumed.None? && db.codes[codeHash].expiresAt <= now
      ensures why == RaceLost <==> codeHash !in db.codes
                                   || (db.codes[codeHash].consumed.None? && db.codes[codeHash].expiresAt > now)
    {
      if codeHash !in db.codes {
        return RaceLost;
      }
      var current := db.codes[codeHash];
      if current.consumed.Some? {
        return AlreadyConsumed;
      }
      return if current.expiresAt <= now then Expired else RaceLost;
    }
  }
}
