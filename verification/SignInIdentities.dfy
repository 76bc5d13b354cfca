/** Users, provider identities and verified-email claims, with their unique keys, and the batches that write them. */
module SignInIdentities {
  import opened Support
  import Credentials = ProviderCredentials

  type Email = string

  datatype SourceKind = LegacyCanonical | ProviderVerified | TrustedBotAttribution

  datatype User = User(displayName: Option<string>, email: Option<Email>, avatarUrl: Option<string>)

  datatype Identity = Identity(
    userId: string, provider: string, issuer: Option<string>, subject: string, login: Option<string>, email: Option<Email>)

  datatype Claim = Claim(userId: string, source: SourceKind, sourceIdentity: Option<string>, lastVerifiedAt: Option<int>)

  datatype Profile = Profile(
    provider: string, issuer: string, subject: string, login: Option<string>, displayName: Option<string>,
    avatarUrl: Option<string>, verifiedEmails: seq<Email>, primaryEmail: Option<Email>)

  /** `grants` are the (identity, user) pairs that a stored browser session or authorization code names. */
  datatype Db = Db(
    users: map<string, User>,
    identities: map<string, Identity>,
    claims: map<Email, Claim>,
    credentials: Credentials.Table,
    grants: set<(string, string)>)

  datatype Existing = Existing(identityId: string, userId: string, provider: string)

  // ---- the composite foreign key ----

  predicate HasIdentity(db: Db, identityId: string, userId: string) {
    identityId in db.identities && db.identities[identityId].userId == userId
  }

  /** A claim, session or code refers to this identity of this user. */
  predicate Named(db: Db, identityId: string, userId: string) {
    (identityId, userId) in db.grants
    || exists e | e in db.claims :: db.claims[e].sourceIdentity == Some(identityId) && db.claims[e].userId == userId
  }

  /** Every reference has its target, as the foreign keys demand. */
  ghost predicate ForeignKeys(db: Db) {
    && (forall i :: i in db.identities ==> db.identities[i].userId in db.users)
    && (forall e :: e in db.claims && db.claims[e].sourceIdentity.Some? ==>
          HasIdentity(db, db.claims[e].sourceIdentity.value, db.claims[e].userId))
    && (forall i, u :: (i, u) in db.grants ==> HasIdentity(db, i, u))
  }

  // ---- reads ----

  predicate Binds(identity: Identity, issuer: string, subject: string) {
    identity.issuer == Some(issuer) && identity.subject == subject
  }

  /** Rows of `verified_email_claims` for these emails that belong to somebody else. */
  function Conflicts(claims: map<Email, Claim>, emails: seq<Email>, expected: Option<string>): set<Email> {
    set e | e in emails && e in claims && (expected.None? || claims[e].userId != expected.value)
  }

  // ---- the two batches ----

  /** Some UNIQUE or PRIMARY KEY of the schema rejects the create batch. */
  ghost predicate CreateRejected(db: Db, userId: string, identityId: string, p: Profile, credential: Option<Credentials.Statement>) {
    || userId in db.users
    || (p.primaryEmail.Some? && exists u :: u in db.users && db.users[u].email == p.primaryEmail)
    || identityId in db.identities
    || (exists i :: i in db.identities && (Binds(db.identities[i], p.issuer, p.subject)
                                            || (db.identities[i].provider == p.provider && db.identities[i].subject == p.subject)))
    || (exists e :: e in p.verifiedEmails && e in db.claims)
    || (credential.Some? && !Credentials.EffectOf(db.credentials, credential.value).Changed?)
  }

  function Created(db: Db, userId: string, identityId: string, p: Profile, credential: Option<Credentials.Statement>, now: int): Db {
    Db(db.users[userId := User(p.displayName, p.primaryEmail, p.avatarUrl)],
       db.identities[identityId := Identity(userId, p.provider, Some(p.issuer), p.subject, p.login, p.primaryEmail)],
       db.claims + map e | e in p.verifiedEmails :: Claim(userId, ProviderVerified, Some(identityId), Some(now)),
       if credential.Some? then Credentials.Apply(db.credentials, credential.value) else db.credentials,
       db.grants)
  }

  datatype RefreshOutcome = Committed | RetryableConflict | ForeignKeyFailure

  /** INSERT OR IGNORE skips a taken email, but not a claim whose identity has another user by now. */
  predicate RefreshBreaksForeignKey(db: Db, existing: Existing, p: Profile) {
    !HasIdentity(db, existing.identityId, existing.userId) && exists e | e in p.verifiedEmails :: e !in db.claims
  }

  predicate RefreshRejected(db: Db, credential: Option<Credentials.Statement>) {
    credential.Some? && (var effect := Credentials.EffectOf(db.credentials, credential.value); effect.UniqueViolation? || effect.CheckViolation?)
  }

  /** The claims are written before the credential, so their error comes first. */
  function RefreshOutcomeOf(db: Db, existing: Existing, p: Profile, credential: Option<Credentials.Statement>): RefreshOutcome {
    if RefreshBreaksForeignKey(db, existing, p) then ForeignKeyFailure
    else if RefreshRejected(db, credential) then RetryableConflict
    else Committed
  }

  function RefreshedClaim(claims: map<Email, Claim>, e: Email, existing: Existing, now: int): Claim {
    if e !in claims then Claim(existing.userId, ProviderVerified, Some(existing.identityId), Some(now))
    else if claims[e].userId == existing.userId && claims[e].source != LegacyCanonical then claims[e].(lastVerifiedAt := Some(now))
    else claims[e]
  }

  function Refreshed(db: Db, existing: Existing, p: Profile, credential: Option<Credentials.Statement>, now: int): Db {
    Db(if existing.userId in db.users
       then db.users[existing.userId := db.users[existing.userId].(displayName := p.displayName, avatarUrl := p.avatarUrl)] else db.users,
       if existing.identityId in db.identities && db.identities[existing.identityId].userId == existing.userId
       then db.identities[existing.identityId := db.identities[existing.identityId].(login := p.login, email := p.primaryEmail)] else db.identities,
       db.claims + map e | e in p.verifiedEmails :: RefreshedClaim(db.claims, e, existing, now),
       if credential.Some? then Credentials.Apply(db.credentials, credential.value) else db.credentials,
       db.grants)
  }

  // ---- the other writers of these tables ----

  /** Single statements and batches of `UserStore`, and of the stores that insert sessions, codes and credentials. */
  datatype Write =
    | AddUser(userId: string, identityId: string, user: User, provider: string, subject: string)
    | LinkIdentity(identityId: string, userId: string, provider: string, subject: string, email: Option<Email>)
    | UpdateUser(userId: string, displayName: Option<string>, avatarUrl: Option<string>, email: Option<Email>)
    | UpdateIdentity(identityId: string, login: Option<string>, email: Option<Email>)
    | Relink(identityId: string, userId: string)
    | AddGrant(identityId: string, userId: string)
    | WriteCredential(statement: Credentials.Statement)

  predicate EmailTaken(db: Db, email: Option<Email>, except: string) {
    email.Some? && exists u | u in db.users :: u != except && db.users[u].email == email
  }

  predicate SubjectTaken(db: Db, provider: string, subject: string) {
    exists i | i in db.identities :: db.identities[i].provider == provider && db.identities[i].subject == subject
  }

  /** The UPDATE of `user_id`: the old pair must not be referred to, and the new user must exist. */
  predicate RelinkAdmitted(db: Db, identityId: string, userId: string) {
    && identityId in db.identities && userId in db.users
    && (db.identities[identityId].userId == userId || !Named(db, identityId, db.identities[identityId].userId))
  }

  predicate WriteRejected(db: Db, w: Write) {
    match w
    case AddUser(userId, identityId, user, provider, subject) =>
      userId in db.users || identityId in db.identities || EmailTaken(db, user.email, userId) || SubjectTaken(db, provider, subject)
    case LinkIdentity(identityId, userId, provider, subject, _) =>
      identityId in db.identities || userId !in db.users || SubjectTaken(db, provider, subject)
    case UpdateUser(userId, _, _, email) => userId !in db.users || EmailTaken(db, email, userId)
    case UpdateIdentity(identityId, _, _) => identityId !in db.identities
    case Relink(identityId, userId) => !RelinkAdmitted(db, identityId, userId)
    case AddGrant(identityId, userId) => !HasIdentity(db, identityId, userId)
    case WriteCredential(_) => false
  }

  function OrElse<T>(change: Option<T>, kept: Option<T>): Option<T> {
    if change.Some? then change else kept
  }

  /** A rejected write, or one that matches no row, changes nothing. */
  function Written(db: Db, w: Write): Db {
    if WriteRejected(db, w) then db
    else
      match w
      case AddUser(userId, identityId, user, provider, subject) =>
        db.(users := db.users[userId := user],
            identities := db.identities[identityId := Identity(userId, provider, None, subject, None, user.email)])
      case LinkIdentity(identityId, userId, provider, subject, email) =>
        db.(identities := db.identities[identityId := Identity(userId, provider, None, subject, None, email)])
      case UpdateUser(userId, displayName, avatarUrl, email) =>
        var user := db.users[userId];
        db.(users := db.users[userId := User(OrElse(displayName, user.displayName), OrElse(email, user.email), OrElse(avatarUrl, user.avatarUrl))])
      case UpdateIdentity(identityId, login, email) =>
        var row := db.identities[identityId];
        db.(identities := db.identities[identityId := row.(login := OrElse(login, row.login), email := OrElse(email, row.email))])
      case Relink(identityId, userId) =>
        db.(identities := db.identities[identityId := db.identities[identityId].(userId := userId)])
      case AddGrant(identityId, userId) => db.(grants := db.grants + {(identityId, userId)})
      case WriteCredential(statement) => db.(credentials := Credentials.Apply(db.credentials, statement))
  }

  /** The store: each batch either commits all its statements or leaves every table as it was. */
  class BrowserSignInIdentityStore {
    var db: Db

    constructor (db: Db)
      ensures this.db == db
    {
      this.db := db;
    }

    method FindByIssuerAndSubject(issuer: string, subject: string) returns (found: Option<Existing>)
      ensures found.Some? ==>
                && found.value.identityId in db.identities
                && var row := db.identities[found.value.identityId];
                   Binds(row, issuer, subject) && found.value.userId == row.userId && found.value.provider == row.provider
      ensures found.None? ==> forall i :: i in db.identities ==> !Binds(db.identities[i], issuer, subject)
    {
      if i :| i in db.identities && Binds(db.identities[i], issuer, subject) {
        return Some(Existing(i, db.identities[i].userId, db.identities[i].provider));
      }
      return None;
    }

    method CountConflictingEmails(emails: seq<Email>, expected: Option<string>) returns (count: nat)
      ensures count == |Conflicts(db.claims, emails, expected)|
      ensures count == 0 <==> Conflicts(db.claims, emails, expected) == {}
    {
      var rows := set e | e in emails && e in db.claims;
      var others := set e | e in rows && (expected.None? || db.claims[e].userId != expected.value);
      assert others == Conflicts(db.claims, emails, expected);
      count := |others|;
    }

    method InsertUser(userId: string, user: User) returns (ok: bool)
      modifies this
      ensures ok <==> userId !in old(db).users
                      && (user.email.Some? ==> forall u :: u in old(db).users ==> old(db).users[u].email != user.email)
      ensures db == if ok then old(db).(users := old(db).users[userId := user]) else old(db)
    {
      if userId in db.users {
        return false;
      }
      if u :| u in db.users && user.email.Some? && db.users[u].email == user.email {
        return false;
      }
      db := db.(users := db.users[userId := user]);
      return true;
    }

    method InsertIdentity(identityId: string, row: Identity) returns (ok: bool)
      modifies this
      ensures ok <==> identityId !in old(db).identities
                      && forall i :: i in old(db).identities ==>
                           !(row.issuer.Some? && Binds(old(db).identities[i], row.issuer.value, row.subject))
                           && !(old(db).identities[i].provider == row.provider && old(db).identities[i].subject == row.subject)
      ensures db == if ok then old(db).(identities := old(db).identities[identityId := row]) else old(db)
    {
      if identityId in db.identities {
        return false;
      }
      if i :| i in db.identities && ((row.issuer.Some? && Binds(db.identities[i], row.issuer.value, row.subject))
                                     || (db.identities[i].provider == row.provider && db.identities[i].subject == row.subject)) {
        return false;
      }
      db := db.(identities := db.identities[identityId := row]);
      return true;
    }

    /** INSERT ... SELECT over json_each: one duplicate email is a constraint error. */
    method InsertClaims(emails: seq<Email>, claim: Claim) returns (ok: bool)
      requires NoDuplicates(emails)
      modifies this
      ensures ok <==> forall e :: e in emails ==> e !in old(db).claims
      ensures ok ==> db == old(db).(claims := old(db).claims + map e | e in emails :: claim)
    {
      var claims := db.claims;
      var k := 0;
      while k < |emails|
        invariant 0 <= k <= |emails|
        invariant db == old(db)
        invariant forall j :: 0 <= j < k ==> emails[j] !in old(db).claims
        invariant forall e :: e in claims <==> e in old(db).claims || e in emails[..k]
        invariant forall e :: e in claims ==> claims[e] == if e in old(db).claims then old(db).claims[e] else claim
      {
        if emails[k] in claims {
          assert emails[k] !in emails[..k];
          return false;
        }
        claims := claims[emails[k] := claim];
        k := k + 1;
      }
      assert emails[..k] == emails;
      db := db.(claims := claims);
      assert claims == old(db).claims + map e | e in emails :: claim;
      return true;
    }

    method Create(userId: string, identityId: string, p: Profile, credential: Option<Credentials.Statement>, now: int)
      returns (committed: bool)
      requires NoDuplicates(p.verifiedEmails)
      modifies this
      ensures committed <==> !CreateRejected(old(db), userId, identityId, p, credential)
      ensures db == if committed then Created(old(db), userId, identityId, p, credential, now) else old(db)
      ensures committed ==>
                && db.users == old(db).users[userId := User(p.displayName, p.primaryEmail, p.avatarUrl)]
                && db.identities == old(db).identities[identityId :=
                     Identity(userId, p.provider, Some(p.issuer), p.subject, p.login, p.primaryEmail)]
                && db.claims == old(db).claims
                                + (map e | e in p.verifiedEmails :: Claim(userId, ProviderVerified, Some(identityId), Some(now)))
                && db.grants == old(db).grants
                && (credential.None? ==> db.credentials == old(db).credentials)
                && (credential.Some? ==> Credentials.EffectOf(old(db).credentials, credential.value) == Credentials.Changed(db.credentials))
    {
      var before := db;
      committed := InsertUser(userId, User(p.displayName, p.primaryEmail, p.avatarUrl));
      if committed {
        committed := InsertIdentity(identityId, Identity(userId, p.provider, Some(p.issuer), p.subject, p.login, p.primaryEmail));
      }
      if committed {
        committed := InsertClaims(p.verifiedEmails, Claim(userId, ProviderVerified, Some(identityId), Some(now)));
      }
      if committed && credential.Some? {
        var effect := Credentials.EffectOf(db.credentials, credential.value);
        committed := effect.Changed?;
        if committed {
          db := db.(credentials := effect.rows);
        }
      }
      if !committed {
        db := before;
      }
    }

    /** UPDATE of the user's own non-legacy claims, then INSERT OR IGNORE of the missing ones, which may break the foreign key. */
    method RefreshClaims(existing: Existing, p: Profile, now: int) returns (ok: bool)
      modifies this
      ensures ok <==> !RefreshBreaksForeignKey(old(db), existing, p)
      ensures ok ==> db == old(db).(claims := old(db).claims
                                              + map e | e in p.verifiedEmails :: RefreshedClaim(old(db).claims, e, existing, now))
    {
      var emails := p.verifiedEmails;
      var verified := map e | e in db.claims ::
        if e in emails && db.claims[e].userId == existing.userId && db.claims[e].source != LegacyCanonical
        then db.claims[e].(lastVerifiedAt := Some(now)) else db.claims[e];
      var missing := map e | e in emails && e !in verified ::
        Claim(existing.userId, ProviderVerified, Some(existing.identityId), Some(now));
      assert missing == map[] <==> forall e :: e in emails ==> e in db.claims by {
        if e :| e in emails && e !in db.claims {
          assert e in missing;
        }
      }
      if missing != map[] && !HasIdentity(db, existing.identityId, existing.userId) {
        return false;
      }
      var claims := verified + missing;
      assert claims == db.claims + map e | e in emails :: RefreshedClaim(db.claims, e, existing, now);
      db := db.(claims := claims);
      return true;
    }

    method Refresh(existing: Existing, p: Profile, credential: Option<Credentials.Statement>, now: int) returns (outcome: RefreshOutcome)
      modifies this
      ensures outcome == RefreshOutcomeOf(old(db), existing, p, credential)
      ensures db == if outcome.Committed? then Refreshed(old(db), existing, p, credential, now) else old(db)
      ensures outcome.ForeignKeyFailure? <==>
                && (existing.identityId in old(db).identities ==> old(db).identities[existing.identityId].userId != existing.userId)
                && exists e :: e in p.verifiedEmails && e !in old(db).claims
      ensures outcome.Committed? ==>
                && db.users.Keys == old(db).users.Keys && db.identities.Keys == old(db).identities.Keys && db.grants == old(db).grants
                && (forall u :: u in db.users ==>
                      db.users[u] == if u == existing.userId then old(db).users[u].(displayName := p.displayName, avatarUrl := p.avatarUrl)
                                     else old(db).users[u])
                && (forall i :: i in db.identities ==>
                      db.identities[i] == if i == existing.identityId && old(db).identities[i].userId == existing.userId
                                          then old(db).identities[i].(login := p.login, email := p.primaryEmail)
                                          else old(db).identities[i])
                && (forall e :: e in db.claims <==> e in old(db).claims || e in p.verifiedEmails)
                && (forall e :: e in db.claims ==>
                      db.claims[e] ==
                      if e !in old(db).claims then Claim(existing.userId, ProviderVerified, Some(existing.identityId), Some(now))
                      else if e in p.verifiedEmails && old(db).claims[e].userId == existing.userId
                              && old(db).claims[e].source != LegacyCanonical
                      then old(db).claims[e].(lastVerifiedAt := Some(now))
                      else old(db).claims[e])
                && (credential.None? ==> db.credentials == old(db).credentials)
                && (credential.Some? ==>
                      || Credentials.EffectOf(old(db).credentials, credential.value) == Credentials.Changed(db.credentials)
                      || (Credentials.EffectOf(old(db).credentials, credential.value).NoRows? && db.credentials == old(db).credentials))
    {
      var before := db;
      if HasIdentity(db, existing.identityId, existing.userId) {
        db := db.(identities := db.identities[existing.identityId :=
          db.identities[existing.identityId].(login := p.login, email := p.primaryEmail)]);
      }
      if existing.userId in db.users {
        db := db.(users := db.users[existing.userId := db.users[existing.userId].(displayName := p.displayName, avatarUrl := p.avatarUrl)]);
      }
      var claimed := RefreshClaims(existing, p, now);
      if !claimed {
        db := before;
        return ForeignKeyFailure;
      }
      if credential.Some? {
        var effect := Credentials.EffectOf(db.credentials, credential.value);
        if effect.UniqueViolation? || effect.CheckViolation? {
          db := before;
          return RetryableConflict;
        }
        db := db.(credentials := Credentials.Apply(db.credentials, credential.value));
      }
      return Committed;
    }

    /** A statement of another store on the same tables. */
    method Perform(w: Write)
      modifies this
      ensures db == Written(old(db), w)
    {
      db := Written(db, w);
    }
  }
}
