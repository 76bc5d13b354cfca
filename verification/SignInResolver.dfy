/** Resolving verified sign-ins to users, with every await open to other callers. */
module SignInResolver {
  import opened Support
  import opened SignInIdentities
  import Credentials = ProviderCredentials

  const MAX_RESOLUTION_ATTEMPTS := 3
  const MAX_VERIFIED_EMAIL_CLAIMS := 1000

  type CallId = nat

  // ---- evidence ----

  datatype Evidence = Evidence(
    provider: string, issuer: string, subject: string, login: Option<string>, displayName: Option<string>,
    avatarUrl: Option<string>, verifiedEmails: seq<string>, primaryEmail: Option<string>)

  function CanonicalIssuer(provider: string): Option<string> {
    if provider == "github" then Some("https://github.com")
    else if provider == "google" then Some("https://accounts.google.com")
    else None
  }

  function NonEmpty(value: Option<string>, normalize: string -> string): Option<string> {
    if value.None? || normalize(value.value) == "" then None else Some(normalize(value.value))
  }

  /** `trim` and `emailForm` (trim, then lower case) are the platform's; only their results matter here. */
  method NormalizeIdentityEvidence(e: Evidence, trim: string -> string, emailForm: string -> string) returns (r: Option<Profile>)
    ensures r.Some? ==>
              && CanonicalIssuer(e.provider) == Some(e.issuer) && e.subject != ""
              && r.value.provider == e.provider && r.value.issuer == e.issuer && r.value.subject == e.subject
              && NoDuplicates(r.value.verifiedEmails)
              && |r.value.verifiedEmails| <= MAX_VERIFIED_EMAIL_CLAIMS
              && (forall x :: x in r.value.verifiedEmails <==>
                    x != "" && exists k :: 0 <= k < |e.verifiedEmails| && emailForm(e.verifiedEmails[k]) == x)
              && r.value.primaryEmail == NonEmpty(e.primaryEmail, emailForm)
              && (r.value.primaryEmail.Some? <==> e.primaryEmail.Some? && emailForm(e.primaryEmail.value) != "")
              && (r.value.primaryEmail.Some? ==> r.value.primaryEmail.value == emailForm(e.primaryEmail.value))
              && r.value.login == (if e.login.Some? && trim(e.login.value) != "" then Some(trim(e.login.value)) else None)
              && r.value.displayName == (if e.displayName.Some? && trim(e.displayName.value) != "" then Some(trim(e.displayName.value)) else None)
              && r.value.avatarUrl == (if e.avatarUrl.Some? && trim(e.avatarUrl.value) != "" then Some(trim(e.avatarUrl.value)) else None)
              && (r.value.primaryEmail.Some? ==> r.value.primaryEmail.value in r.value.verifiedEmails)
    ensures r.None? ==>
              || CanonicalIssuer(e.provider) != Some(e.issuer) || e.subject == ""
              || (exists emails: seq<string> :: NoDuplicates(emails) && |emails| > MAX_VERIFIED_EMAIL_CLAIMS
                    && forall x :: x in emails ==> exists k :: 0 <= k < |e.verifiedEmails| && emailForm(e.verifiedEmails[k]) == x)
              || (NonEmpty(e.primaryEmail, emailForm).Some?
                  && forall k :: 0 <= k < |e.verifiedEmails| ==> emailForm(e.verifiedEmails[k]) != NonEmpty(e.primaryEmail, emailForm).value)
  {
    if CanonicalIssuer(e.provider) != Some(e.issuer) || e.subject == "" {
      return None;
    }
    var emails: seq<string> := [];
    var k := 0;
    while k < |e.verifiedEmails|
      invariant 0 <= k <= |e.verifiedEmails|
      invariant NoDuplicates(emails)
      invariant forall x :: x in emails ==> x != "" && exists j :: 0 <= j < k && emailForm(e.verifiedEmails[j]) == x
      invariant forall j :: 0 <= j < k && emailForm(e.verifiedEmails[j]) != "" ==> emailForm(e.verifiedEmails[j]) in emails
    {
      var email := emailForm(e.verifiedEmails[k]);
      if email != "" && email !in emails {
        emails := emails + [email];
      }
      k := k + 1;
    }
    if |emails| > MAX_VERIFIED_EMAIL_CLAIMS {
      return None;
    }
    var primaryEmail := NonEmpty(e.primaryEmail, emailForm);
    if primaryEmail.Some? && primaryEmail.value !in emails {
      return None;
    }
    return Some(Profile(e.provider, e.issuer, e.subject, NonEmpty(e.login, trim), NonEmpty(e.displayName, trim),
                        NonEmpty(e.avatarUrl, trim), emails, primaryEmail));
  }

  // ---- the calls ----

  datatype Failure = AccountLinkRequired(count: nat) | AdapterMismatch | Conflict | InvalidCredential | ForeignKeyError

  datatype Call =
    | Finding(p: Profile, credential: Option<Credentials.Credential>, attempt: nat)
    | Counting(p: Profile, credential: Option<Credentials.Credential>, attempt: nat)
    | Creating(p: Profile, credential: Option<Credentials.Credential>, attempt: nat, userId: string, identityId: string,
               statement: Option<Credentials.Statement>)
    | Preparing(p: Profile, credential: Option<Credentials.Credential>, attempt: nat, existing: Existing)
    | Refreshing(p: Profile, credential: Option<Credentials.Credential>, attempt: nat, existing: Existing,
                 statement: Option<Credentials.Statement>)
    | CountingAfter(p: Profile, existing: Existing)
    | Resolved(p: Profile, identityId: string, userId: string, isNewUser: bool, collisions: nat)
    | Threw(p: Profile, failure: Failure)

  /** `UserStore.doResolveOrCreate` between its reads and the statement that re-links an identity. */
  datatype Legacy =
    | FoundIdentity(identityId: string, userId: string)
    | SawNoEmail(identityId: string, userId: string)
    | FoundOwner(identityId: string, ownerId: string)

  /**
   * `drawn` records which call generated an id, `rejected` how many batches of a call the database rejected,
   * `owners` the users each identity was bound to, in order, and `readAt` which of them a call read or created.
   */
  datatype State = State(
    db: Db,
    calls: map<CallId, Call>,
    drawn: map<string, CallId>,
    rejected: map<CallId, nat>,
    owners: map<string, seq<string>>,
    readAt: map<CallId, nat>,
    legacy: map<nat, Legacy>)

  datatype Event =
    | Begin(call: CallId, profile: Profile, credential: Option<Credentials.Credential>)
    | Find(call: CallId, found: Option<string>)
    | Count(call: CallId, userId: string, identityId: string, now: int)
    | CommitCreate(call: CallId, now: int)
    | PrepareRefresh(call: CallId, now: int)
    | CommitRefresh(call: CallId, now: int)
    | CountAfter(call: CallId)
      // the legacy resolver's re-link
    | LegacyFinds(legacy: nat, identityId: string)
    | LegacySeesNoEmail(legacy: nat)
    | LegacyFindsOwner(legacy: nat, owner: string)
    | LegacyRelinks(legacy: nat)
      // other writers
    | OtherWrite(write: Write)

  predicate IsRowOf(db: Db, i: string, issuer: string, subject: string) {
    i in db.identities && Binds(db.identities[i], issuer, subject)
  }

  /** What the SELECT by issuer and subject may answer. */
  ghost predicate Answers(db: Db, p: Profile, found: Option<string>) {
    match found
    case Some(i) => IsRowOf(db, i, p.issuer, p.subject)
    case None => forall i :: i in db.identities ==> !Binds(db.identities[i], p.issuer, p.subject)
  }

  /** A generated id: never drawn before and naming no stored row. */
  predicate Fresh(s: State, id: string) {
    id !in s.drawn && id !in s.db.users && id !in s.db.identities
  }

  /** Legacy inserts draw new ids, and only `LegacyRelinks` re-links. */
  predicate WriteEnabled(s: State, w: Write) {
    match w
    case AddUser(userId, identityId, _, _, _) => Fresh(s, userId) && Fresh(s, identityId) && userId != identityId
    case LinkIdentity(identityId, _, _, _, _) => Fresh(s, identityId)
    case Relink(_, _) => false
    case _ => true
  }

  ghost predicate Enabled(s: State, e: Event) {
    match e
    case Begin(c, p, _) => c !in s.calls && NoDuplicates(p.verifiedEmails)
    case Find(c, found) => c in s.calls && s.calls[c].Finding? && Answers(s.db, s.calls[c].p, found)
    case Count(c, userId, identityId, _) =>
      && c in s.calls && s.calls[c].Counting?
      && Fresh(s, userId) && Fresh(s, identityId) && userId != identityId
    case CommitCreate(c, _) => c in s.calls && s.calls[c].Creating?
    case PrepareRefresh(c, _) => c in s.calls && s.calls[c].Preparing?
    case CommitRefresh(c, _) => c in s.calls && s.calls[c].Refreshing?
    case CountAfter(c) => c in s.calls && s.calls[c].CountingAfter?
    case LegacyFinds(l, i) => l !in s.legacy && i in s.db.identities
    case LegacySeesNoEmail(l) =>
      && l in s.legacy && s.legacy[l].FoundIdentity?
      && s.legacy[l].userId in s.db.users && s.db.users[s.legacy[l].userId].email.None?
    case LegacyFindsOwner(l, owner) =>
      && l in s.legacy && s.legacy[l].SawNoEmail?
      && owner in s.db.users && s.db.users[owner].email.Some? && owner != s.legacy[l].userId
    case LegacyRelinks(l) => l in s.legacy && s.legacy[l].FoundOwner?
    case OtherWrite(w) => WriteEnabled(s, w)
  }

  function Retry(p: Profile, credential: Option<Credentials.Credential>, attempt: nat): Call {
    if attempt == MAX_RESOLUTION_ATTEMPTS then Threw(p, Conflict) else Finding(p, credential, attempt + 1)
  }

  function AfterFind(db: Db, call: Call, found: Option<string>): Call
    requires call.Finding? && (found.Some? ==> found.value in db.identities)
  {
    match found
    case None => Counting(call.p, call.credential, call.attempt)
    case Some(i) =>
      var row := db.identities[i];
      if row.provider != call.p.provider then Threw(call.p, AdapterMismatch)
      else Preparing(call.p, call.credential, call.attempt, Existing(i, row.userId, row.provider))
  }

  ghost function AfterCount(db: Db, call: Call, userId: string, identityId: string, now: int): Call
    requires call.Counting?
  {
    var conflicts := Conflicts(db.claims, call.p.verifiedEmails, None);
    if conflicts != {} then Threw(call.p, AccountLinkRequired(|conflicts|))
    else if call.credential.Some? && !Credentials.ValidInput(identityId, call.credential.value) then Threw(call.p, InvalidCredential)
    else
      Creating(call.p, call.credential, call.attempt, userId, identityId,
               if call.credential.None? then None
               else Some(Credentials.Insert(identityId, Credentials.Encrypted(identityId, call.credential.value, 1, now))))
  }

  /** `prepareSignInUpsert` for the existing identity. */
  function UpsertFor(db: Db, identityId: string, credential: Credentials.Credential, now: int): Credentials.Statement {
    if identityId !in db.credentials then Credentials.Insert(identityId, Credentials.Encrypted(identityId, credential, 1, now))
    else
      var v := db.credentials[identityId].rowVersion;
      Credentials.Upsert(identityId, Credentials.Encrypted(identityId, credential, v + 1, now), v)
  }

  function AfterPrepare(db: Db, call: Call, now: int): Call
    requires call.Preparing?
  {
    if call.credential.None? then Refreshing(call.p, None, call.attempt, call.existing, None)
    else if !Credentials.ValidInput(call.existing.identityId, call.credential.value) then Threw(call.p, InvalidCredential)
    else Refreshing(call.p, call.credential, call.attempt, call.existing,
                    Some(UpsertFor(db, call.existing.identityId, call.credential.value, now)))
  }

  function Goto(s: State, c: CallId, call: Call): State {
    s.(calls := s.calls[c := call])
  }

  function Rejections(s: State, c: CallId): nat {
    if c in s.rejected then s.rejected[c] else 0
  }

  function Rejected(s: State, c: CallId, call: Call): State {
    Goto(s, c, call).(rejected := s.rejected[c := Rejections(s, c) + 1])
  }

  /** The history of each identity's users, once the table is `identities`. */
  function Tracked(owners: map<string, seq<string>>, identities: map<string, Identity>): map<string, seq<string>> {
    map i | i in identities ::
      if i !in owners || owners[i] == [] then [identities[i].userId]
      else if owners[i][|owners[i]| - 1] == identities[i].userId then owners[i]
      else owners[i] + [identities[i].userId]
  }

  function Epoch(s: State, i: string): nat {
    if i in s.owners && s.owners[i] != [] then |s.owners[i]| - 1 else 0
  }

  /** The tables after an event. */
  ghost function NextDb(s: State, e: Event): Db
    requires Enabled(s, e)
  {
    match e
    case CommitCreate(c, now) =>
      var call := s.calls[c];
      if CreateRejected(s.db, call.userId, call.identityId, call.p, call.statement) then s.db
      else Created(s.db, call.userId, call.identityId, call.p, call.statement, now)
    case CommitRefresh(c, now) =>
      var call := s.calls[c];
      if RefreshOutcomeOf(s.db, call.existing, call.p, call.statement).Committed?
      then Refreshed(s.db, call.existing, call.p, call.statement, now) else s.db
    case LegacyRelinks(l) => Written(s.db, Relink(s.legacy[l].identityId, s.legacy[l].ownerId))
    case OtherWrite(w) => Written(s.db, w)
    case _ => s.db
  }

  function AfterRefresh(s: State, c: CallId, call: Call, outcome: RefreshOutcome): State
    requires call.Refreshing?
  {
    match outcome
    case ForeignKeyFailure => Goto(s, c, Threw(call.p, ForeignKeyError))
    case RetryableConflict => Rejected(s, c, Retry(call.p, call.credential, call.attempt))
    case Committed => Goto(s, c, CountingAfter(call.p, call.existing))
  }

  /** Everything but the tables after an event. */
  ghost function Moved(s: State, e: Event): State
    requires Enabled(s, e)
  {
    match e
    case Begin(c, p, credential) => Goto(s, c, Finding(p, credential, 1)).(rejected := s.rejected[c := 0])
    case Find(c, found) =>
      Goto(s, c, AfterFind(s.db, s.calls[c], found))
      .(readAt := if found.Some? then s.readAt[c := Epoch(s, found.value)] else s.readAt)
    case Count(c, userId, identityId, now) =>
      Goto(s, c, AfterCount(s.db, s.calls[c], userId, identityId, now)).(drawn := s.drawn[userId := c][identityId := c])
    case CommitCreate(c, now) =>
      var call := s.calls[c];
      if CreateRejected(s.db, call.userId, call.identityId, call.p, call.statement)
      then Rejected(s, c, Retry(call.p, call.credential, call.attempt))
      else Goto(s, c, Resolved(call.p, call.identityId, call.userId, true, 0)).(readAt := s.readAt[c := 0])
    case PrepareRefresh(c, now) => Goto(s, c, AfterPrepare(s.db, s.calls[c], now))
    case CommitRefresh(c, now) =>
      var call := s.calls[c];
      AfterRefresh(s, c, call, RefreshOutcomeOf(s.db, call.existing, call.p, call.statement))
    case CountAfter(c) =>
      var call := s.calls[c];
      Goto(s, c, Resolved(call.p, call.existing.identityId, call.existing.userId, false,
                          |Conflicts(s.db.claims, call.p.verifiedEmails, Some(call.existing.userId))|))
    case LegacyFinds(l, i) => s.(legacy := s.legacy[l := FoundIdentity(i, s.db.identities[i].userId)])
    case LegacySeesNoEmail(l) => s.(legacy := s.legacy[l := SawNoEmail(s.legacy[l].identityId, s.legacy[l].userId)])
    case LegacyFindsOwner(l, owner) => s.(legacy := s.legacy[l := FoundOwner(s.legacy[l].identityId, owner)])
    case LegacyRelinks(l) => s.(legacy := s.legacy - {l})
    case OtherWrite(w) => s
  }

  ghost function Step(s: State, e: Event): State
    requires Enabled(s, e)
  {
    Moved(s, e).(db := NextDb(s, e), owners := Tracked(s.owners, NextDb(s, e).identities))
  }

  ghost predicate Possible(s: State, events: seq<Event>)
    decreases |events|
  {
    events == [] || (Enabled(s, events[0]) && Possible(Step(s, events[0]), events[1..]))
  }

  ghost function Run(s: State, events: seq<Event>): State
    requires Possible(s, events)
    decreases |events|
  {
    if events == [] then s else Run(Step(s, events[0]), events[1..])
  }

  // ---- the invariant ----

  /** UNIQUE (provider_issuer, provider_user_id) WHERE provider_issuer IS NOT NULL. */
  ghost predicate UniqueBindings(db: Db) {
    forall i, j, issuer, subject :: IsRowOf(db, i, issuer, subject) && IsRowOf(db, j, issuer, subject) ==> i == j
  }

  predicate Bound(db: Db, p: Profile, identityId: string, userId: string) {
    IsRowOf(db, identityId, p.issuer, p.subject) && db.identities[identityId].userId == userId
  }

  ghost predicate AllClaimed(db: Db, emails: seq<Email>) {
    forall e :: e in emails ==> e in db.claims
  }

  ghost predicate AllOwned(db: Db, emails: seq<Email>, userId: string) {
    forall e :: e in emails ==> e in db.claims && db.claims[e].userId == userId
  }

  /** Attempt k starts after k - 1 rejected batches, and only the third rejection is thrown. */
  predicate AttemptOk(call: Call, rejections: nat) {
    match call
    case Finding(_, _, attempt) => rejections + 1 == attempt <= MAX_RESOLUTION_ATTEMPTS
    case Counting(_, _, attempt) => rejections + 1 == attempt <= MAX_RESOLUTION_ATTEMPTS
    case Creating(_, _, attempt, _, _, _) => rejections + 1 == attempt <= MAX_RESOLUTION_ATTEMPTS
    case Preparing(_, _, attempt, _) => rejections + 1 == attempt <= MAX_RESOLUTION_ATTEMPTS
    case Refreshing(_, _, attempt, _, _) => rejections + 1 == attempt <= MAX_RESOLUTION_ATTEMPTS
    case Threw(_, failure) => if failure == Conflict then rejections == MAX_RESOLUTION_ATTEMPTS else rejections < MAX_RESOLUTION_ATTEMPTS
    case _ => rejections < MAX_RESOLUTION_ATTEMPTS
  }

  /** The identity is the subject's, and the call read or created the binding to this user. */
  predicate HasRead(s: State, c: CallId, p: Profile, identityId: string, userId: string) {
    && IsRowOf(s.db, identityId, p.issuer, p.subject)
    && c in s.readAt && identityId in s.owners
    && s.readAt[c] < |s.owners[identityId]| && s.owners[identityId][s.readAt[c]] == userId
  }

  ghost predicate CallOk(s: State, c: CallId)
    requires c in s.calls
  {
    AttemptOk(s.calls[c], Rejections(s, c)) &&
    match s.calls[c]
    case Creating(_, _, _, userId, identityId, _) =>
      userId in s.drawn && s.drawn[userId] == c && identityId in s.drawn && s.drawn[identityId] == c
    case Preparing(p, _, _, existing) => HasRead(s, c, p, existing.identityId, existing.userId)
    case Refreshing(p, _, _, existing, _) => HasRead(s, c, p, existing.identityId, existing.userId)
    case CountingAfter(p, existing) => HasRead(s, c, p, existing.identityId, existing.userId) && AllClaimed(s.db, p.verifiedEmails)
    case Resolved(p, identityId, userId, isNewUser, collisions) =>
      && HasRead(s, c, p, identityId, userId)
      && (isNewUser ==> identityId in s.drawn && s.drawn[identityId] == c && collisions == 0 && AllOwned(s.db, p.verifiedEmails, userId)
                        && s.readAt[c] == 0)
      && (!isNewUser ==> AllClaimed(s.db, p.verifiedEmails) && collisions == |Conflicts(s.db.claims, p.verifiedEmails, Some(userId))|)
    case _ => true
  }

  /** A stored identity whose id a call generated was created by that call, which reported a new user. */
  predicate CreatorOk(s: State, i: string) {
    i in s.db.identities && i in s.drawn ==>
      s.drawn[i] in s.calls && s.calls[s.drawn[i]].Resolved? && s.calls[s.drawn[i]].isNewUser && s.calls[s.drawn[i]].identityId == i
  }

  /** The history ends with the user the identity is bound to. */
  predicate OwnerOk(owners: map<string, seq<string>>, identities: map<string, Identity>, i: string) {
    i in identities && i in owners && |owners[i]| > 0 && owners[i][|owners[i]| - 1] == identities[i].userId
  }

  ghost predicate OwnersOk(s: State) {
    && (forall i {:trigger OwnerOk(s.owners, s.db.identities, i)} :: i in s.db.identities ==> OwnerOk(s.owners, s.db.identities, i))
    && s.owners.Keys == s.db.identities.Keys
  }

  /** Rows that a legacy resolver has read are still there. */
  predicate LegacyOk(s: State, l: nat)
    requires l in s.legacy
  {
    LegacyRowsThere(s.db, s.legacy[l])
  }

  ghost predicate TablesOk(db: Db) {
    UniqueBindings(db) && ForeignKeys(db) && Credentials.Checked(db.credentials)
  }

  ghost predicate Inv(s: State) {
    && TablesOk(s.db) && OwnersOk(s)
    && (forall c {:trigger CallOk(s, c)} :: c in s.calls ==> CallOk(s, c))
    && (forall i {:trigger CreatorOk(s, i)} :: CreatorOk(s, i))
    && (forall l {:trigger LegacyOk(s, l)} :: l in s.legacy ==> LegacyOk(s, l))
  }

  /** What no writer takes back: rows, subjects, claim owners, references, and the user of a binding that is referred to. */
  ghost predicate Settled(before: Db, after: Db) {
    && (forall i :: i in before.identities ==>
          && i in after.identities
          && after.identities[i].issuer == before.identities[i].issuer
          && after.identities[i].provider == before.identities[i].provider
          && after.identities[i].subject == before.identities[i].subject
          && (Named(before, i, before.identities[i].userId) ==> after.identities[i].userId == before.identities[i].userId))
    && (forall u :: u in before.users ==> u in after.users && (before.users[u].email.Some? ==> after.users[u].email.Some?))
    && (forall e :: e in before.claims ==>
          e in after.claims && after.claims[e].userId == before.claims[e].userId
          && after.claims[e].sourceIdentity == before.claims[e].sourceIdentity)
    && before.grants <= after.grants
  }

  lemma NamedLasts(before: Db, after: Db, i: string, u: string)
    requires Settled(before, after) && Named(before, i, u)
    ensures Named(after, i, u)
  {
    if (i, u) !in before.grants {
      var e :| e in before.claims && before.claims[e].sourceIdentity == Some(i) && before.claims[e].userId == u;
      assert e in after.claims;
    }
  }

  lemma SettledTransitive(a: Db, b: Db, c: Db)
    requires Settled(a, b) && Settled(b, c)
    ensures Settled(a, c)
  {
    forall i | i in a.identities && Named(a, i, a.identities[i].userId) ensures c.identities[i].userId == a.identities[i].userId {
      NamedLasts(a, b, i, a.identities[i].userId);
    }
  }

  // ---- every batch and statement keeps the tables ----

  lemma CreatedKeepsTables(db: Db, userId: string, identityId: string, p: Profile, statement: Option<Credentials.Statement>, now: int)
    requires TablesOk(db) && !CreateRejected(db, userId, identityId, p, statement)
    ensures var after := Created(db, userId, identityId, p, statement, now); TablesOk(after) && Settled(db, after)
  {
    var after := Created(db, userId, identityId, p, statement, now);
    forall i, j, issuer, subject | IsRowOf(after, i, issuer, subject) && IsRowOf(after, j, issuer, subject) ensures i == j {
      if i in db.identities { assert IsRowOf(db, i, issuer, subject); }
      if j in db.identities { assert IsRowOf(db, j, issuer, subject); }
    }
  }

  lemma SameSubjectsStayUnique(before: Db, after: Db)
    requires UniqueBindings(before) && after.identities.Keys == before.identities.Keys
    requires forall i :: i in before.identities ==>
               after.identities[i].issuer == before.identities[i].issuer && after.identities[i].subject == before.identities[i].subject
    ensures UniqueBindings(after)
  {
    forall i, j, issuer, subject | IsRowOf(after, i, issuer, subject) && IsRowOf(after, j, issuer, subject) ensures i == j {
      assert IsRowOf(before, i, issuer, subject) && IsRowOf(before, j, issuer, subject);
    }
  }

  lemma RefreshedKeepsForeignKeys(db: Db, existing: Existing, p: Profile, statement: Option<Credentials.Statement>, now: int)
    requires ForeignKeys(db) && !RefreshBreaksForeignKey(db, existing, p)
    ensures ForeignKeys(Refreshed(db, existing, p, statement, now))
  {}

  lemma RefreshedSettles(db: Db, existing: Existing, p: Profile, statement: Option<Credentials.Statement>, now: int)
    ensures var after := Refreshed(db, existing, p, statement, now); Settled(db, after) && AllClaimed(after, p.verifiedEmails)
  {}

  lemma RefreshedKeepsTables(db: Db, existing: Existing, p: Profile, statement: Option<Credentials.Statement>, now: int)
    requires TablesOk(db) && RefreshOutcomeOf(db, existing, p, statement).Committed?
    ensures var after := Refreshed(db, existing, p, statement, now);
            TablesOk(after) && Settled(db, after) && AllClaimed(after, p.verifiedEmails)
  {
    RefreshedKeepsForeignKeys(db, existing, p, statement, now);
    RefreshedSettles(db, existing, p, statement, now);
    SameSubjectsStayUnique(db, Refreshed(db, existing, p, statement, now));
  }

  lemma WrittenKeepsBindings(db: Db, w: Write)
    requires UniqueBindings(db)
    ensures UniqueBindings(Written(db, w))
  {
    var after := Written(db, w);
    forall i, j, issuer, subject | IsRowOf(after, i, issuer, subject) && IsRowOf(after, j, issuer, subject) ensures i == j {
      assert IsRowOf(db, i, issuer, subject) && IsRowOf(db, j, issuer, subject);
    }
  }

  lemma RelinkKeepsForeignKeys(db: Db, i: string, u: string)
    requires ForeignKeys(db)
    ensures ForeignKeys(Written(db, Relink(i, u))) && Settled(db, Written(db, Relink(i, u)))
  {
    if RelinkAdmitted(db, i, u) {
      forall e | e in db.claims && db.claims[e].sourceIdentity == Some(i) ensures u == db.claims[e].userId {
        assert HasIdentity(db, i, db.claims[e].userId);
      }
    }
  }

  lemma InsertKeepsForeignKeys(db: Db, w: Write)
    requires ForeignKeys(db) && (w.AddUser? || w.LinkIdentity? || w.AddGrant?)
    ensures ForeignKeys(Written(db, w)) && Settled(db, Written(db, w))
  {}

  lemma UpdateKeepsForeignKeys(db: Db, w: Write)
    requires ForeignKeys(db) && (w.UpdateUser? || w.UpdateIdentity? || w.WriteCredential?)
    ensures ForeignKeys(Written(db, w)) && Settled(db, Written(db, w))
  {}

  lemma WrittenKeepsTables(db: Db, w: Write)
    requires TablesOk(db)
    ensures TablesOk(Written(db, w)) && Settled(db, Written(db, w))
  {
    WrittenKeepsBindings(db, w);
    if w.Relink? {
      RelinkKeepsForeignKeys(db, w.identityId, w.userId);
    } else if w.AddUser? || w.LinkIdentity? || w.AddGrant? {
      InsertKeepsForeignKeys(db, w);
    } else {
      UpdateKeepsForeignKeys(db, w);
    }
  }

  lemma StepKeepsTables(s: State, e: Event)
    requires TablesOk(s.db) && Enabled(s, e)
    ensures TablesOk(NextDb(s, e)) && Settled(s.db, NextDb(s, e))
  {
    match e
    case CommitCreate(c, now) =>
      var call := s.calls[c];
      if !CreateRejected(s.db, call.userId, call.identityId, call.p, call.statement) {
        CreatedKeepsTables(s.db, call.userId, call.identityId, call.p, call.statement, now);
      }
    case CommitRefresh(c, now) =>
      var call := s.calls[c];
      if RefreshOutcomeOf(s.db, call.existing, call.p, call.statement).Committed? {
        RefreshedKeepsTables(s.db, call.existing, call.p, call.statement, now);
      }
    case LegacyRelinks(l) => WrittenKeepsTables(s.db, Relink(s.legacy[l].identityId, s.legacy[l].ownerId));
    case OtherWrite(w) => WrittenKeepsTables(s.db, w);
    case _ =>
  }

  // ---- the histories ----

  ghost predicate OwnersGrew(s: State, t: State) {
    forall i :: i in s.owners ==> i in t.owners && s.owners[i] <= t.owners[i]
  }

  lemma TrackedOwner(owners: map<string, seq<string>>, before: map<string, Identity>, after: map<string, Identity>, i: string)
    requires i in after && (i in owners <==> i in before) && (i in before ==> OwnerOk(owners, before, i))
    ensures OwnerOk(Tracked(owners, after), after, i)
    ensures i in owners ==> owners[i] <= Tracked(owners, after)[i]
  {}

  lemma TrackingKeepsOwners(s: State, t: State)
    requires OwnersOk(s) && s.db.identities.Keys <= t.db.identities.Keys
    requires t.owners == Tracked(s.owners, t.db.identities)
    ensures OwnersOk(t) && OwnersGrew(s, t)
  {
    forall i | i in t.db.identities
      ensures OwnerOk(t.owners, t.db.identities, i) && (i in s.owners ==> s.owners[i] <= t.owners[i])
    {
      assert i in s.db.identities ==> OwnerOk(s.owners, s.db.identities, i);
      TrackedOwner(s.owners, s.db.identities, t.db.identities, i);
    }
  }

  lemma StepKeepsOwners(s: State, e: Event)
    requires OwnersOk(s) && Enabled(s, e) && Settled(s.db, NextDb(s, e))
    ensures OwnersOk(Step(s, e)) && OwnersGrew(s, Step(s, e))
  {
    TrackingKeepsOwners(s, Step(s, e));
  }

  // ---- the calls' part of the invariant ----

  lemma ConflictsSettled(before: map<Email, Claim>, after: map<Email, Claim>, emails: seq<Email>, userId: string)
    requires forall e :: e in emails ==> e in before && e in after && after[e].userId == before[e].userId
    ensures Conflicts(after, emails, Some(userId)) == Conflicts(before, emails, Some(userId))
  {}

  lemma HasReadLasts(s: State, t: State, c: CallId, p: Profile, i: string, u: string)
    requires HasRead(s, c, p, i, u) && Settled(s.db, t.db) && OwnersGrew(s, t)
    requires c in t.readAt && t.readAt[c] == s.readAt[c]
    ensures HasRead(t, c, p, i, u)
  {}

  lemma CallFrame(s: State, t: State, c: CallId)
    requires c in s.calls && CallOk(s, c) && c in t.calls && t.calls[c] == s.calls[c] && Settled(s.db, t.db) && OwnersGrew(s, t)
    requires forall i :: i in s.drawn && s.drawn[i] == c ==> i in t.drawn && t.drawn[i] == c
    requires Rejections(t, c) == Rejections(s, c)
    requires c in s.readAt ==> c in t.readAt && t.readAt[c] == s.readAt[c]
    ensures CallOk(t, c)
  {
    match s.calls[c]
    case Preparing(p, _, _, existing) => HasReadLasts(s, t, c, p, existing.identityId, existing.userId);
    case Refreshing(p, _, _, existing, _) => HasReadLasts(s, t, c, p, existing.identityId, existing.userId);
    case CountingAfter(p, existing) => HasReadLasts(s, t, c, p, existing.identityId, existing.userId);
    case Resolved(p, identityId, userId, isNewUser, _) =>
      HasReadLasts(s, t, c, p, identityId, userId);
      if !isNewUser {
        ConflictsSettled(s.db.claims, t.db.claims, p.verifiedEmails, userId);
      }
    case _ =>
  }

  lemma CreateMoves(s: State, c: CallId, now: int)
    requires Enabled(s, CommitCreate(c, now))
    ensures var call, t := s.calls[c], Moved(s, CommitCreate(c, now));
            && c in t.calls && t.drawn == s.drawn
            && if CreateRejected(s.db, call.userId, call.identityId, call.p, call.statement)
               then t.calls[c] == Retry(call.p, call.credential, call.attempt) && Rejections(t, c) == Rejections(s, c) + 1
               else t.calls[c] == Resolved(call.p, call.identityId, call.userId, true, 0) && Rejections(t, c) == Rejections(s, c)
                    && c in t.readAt && t.readAt[c] == 0
  {}

  lemma CreatedRead(s: State, t: State, c: CallId, call: Call, now: int)
    requires call.Creating? && call.identityId !in s.owners
    requires t.db == Created(s.db, call.userId, call.identityId, call.p, call.statement, now)
    requires t.owners == Tracked(s.owners, t.db.identities) && c in t.readAt && t.readAt[c] == 0
    ensures HasRead(t, c, call.p, call.identityId, call.userId) && AllOwned(t.db, call.p.verifiedEmails, call.userId)
  {}

  lemma CreateMovesOk(s: State, c: CallId, now: int)
    requires Enabled(s, CommitCreate(c, now)) && CallOk(s, c) && s.owners.Keys == s.db.identities.Keys
    ensures CallOk(Step(s, CommitCreate(c, now)), c)
  {
    var call, t := s.calls[c], Step(s, CommitCreate(c, now));
    CreateMoves(s, c, now);
    if !CreateRejected(s.db, call.userId, call.identityId, call.p, call.statement) {
      CreatedRead(s, t, c, call, now);
    }
  }

  lemma RefreshMovesOk(s: State, c: CallId, now: int)
    requires Enabled(s, CommitRefresh(c, now)) && CallOk(s, c)
    requires Settled(s.db, Step(s, CommitRefresh(c, now)).db) && OwnersGrew(s, Step(s, CommitRefresh(c, now)))
    requires RefreshOutcomeOf(s.db, s.calls[c].existing, s.calls[c].p, s.calls[c].statement).Committed? ==>
               AllClaimed(Step(s, CommitRefresh(c, now)).db, s.calls[c].p.verifiedEmails)
    ensures CallOk(Step(s, CommitRefresh(c, now)), c)
  {
    var call, t := s.calls[c], Step(s, CommitRefresh(c, now));
    RefreshMoves(s, c, call, RefreshOutcomeOf(s.db, call.existing, call.p, call.statement));
    if t.calls[c].CountingAfter? {
      HasReadLasts(s, t, c, call.p, call.existing.identityId, call.existing.userId);
    }
  }

  lemma RefreshMoves(s: State, c: CallId, call: Call, outcome: RefreshOutcome)
    requires c in s.calls && s.calls[c] == call && call.Refreshing?
    ensures var t := AfterRefresh(s, c, call, outcome);
            && c in t.calls && t.readAt == s.readAt
            && match outcome
               case ForeignKeyFailure => t.calls[c] == Threw(call.p, ForeignKeyError) && Rejections(t, c) == Rejections(s, c)
               case RetryableConflict =>
                 t.calls[c] == Retry(call.p, call.credential, call.attempt) && Rejections(t, c) == Rejections(s, c) + 1
               case Committed => t.calls[c] == CountingAfter(call.p, call.existing) && Rejections(t, c) == Rejections(s, c)
  {}

  lemma TrackedUnchanged(s: State)
    requires OwnersOk(s)
    ensures Tracked(s.owners, s.db.identities) == s.owners
  {
    forall i | i in s.db.identities ensures Tracked(s.owners, s.db.identities)[i] == s.owners[i] {
      assert OwnerOk(s.owners, s.db.identities, i);
    }
  }

  lemma FindMovesOk(s: State, c: CallId, found: Option<string>)
    requires Enabled(s, Find(c, found)) && OwnersOk(s) && CallOk(s, c)
    ensures CallOk(Step(s, Find(c, found)), c)
  {
    TrackedUnchanged(s);
    if found.Some? {
      assert OwnerOk(s.owners, s.db.identities, found.value);
    }
  }

  lemma BeginAndCountMoveOk(s: State, e: Event, c: CallId)
    requires OwnersOk(s) && Enabled(s, e) && (e.Begin? || e.Count?) && e.call == c && (c in s.calls ==> CallOk(s, c))
    ensures CallOk(Step(s, e), c)
  {
    TrackedUnchanged(s);
  }

  lemma RefreshPhasesMoveOk(s: State, e: Event, c: CallId)
    requires OwnersOk(s) && Enabled(s, e) && (e.PrepareRefresh? || e.CountAfter?) && e.call == c && CallOk(s, c)
    ensures CallOk(Step(s, e), c)
  {
    TrackedUnchanged(s);
  }

  predicate MovesCall(e: Event, c: CallId) {
    (e.Begin? || e.Find? || e.Count? || e.CommitCreate? || e.PrepareRefresh? || e.CommitRefresh? || e.CountAfter?) && e.call == c
  }

  lemma MovedCallOk(s: State, e: Event, c: CallId)
    requires TablesOk(s.db) && OwnersOk(s) && Enabled(s, e) && MovesCall(e, c) && (c in s.calls ==> CallOk(s, c))
    ensures CallOk(Step(s, e), c)
  {
    match e
    case CommitCreate(_, now) => CreateMovesOk(s, c, now);
    case CommitRefresh(_, now) =>
      StepKeepsTables(s, e);
      StepKeepsOwners(s, e);
      var call := s.calls[c];
      if RefreshOutcomeOf(s.db, call.existing, call.p, call.statement).Committed? {
        RefreshedKeepsTables(s.db, call.existing, call.p, call.statement, now);
      }
      RefreshMovesOk(s, c, now);
    case Find(_, found) => FindMovesOk(s, c, found);
    case Begin(_, _, _) => BeginAndCountMoveOk(s, e, c);
    case Count(_, _, _, _) => BeginAndCountMoveOk(s, e, c);
    case _ => RefreshPhasesMoveOk(s, e, c);
  }

  /** What a step leaves to a call it does not move. */
  ghost predicate Stands(s: State, t: State, c: CallId) {
    && (c in t.calls <==> c in s.calls) && (c in s.calls ==> t.calls[c] == s.calls[c]) && Rejections(t, c) == Rejections(s, c)
    && (c in s.readAt ==> c in t.readAt && t.readAt[c] == s.readAt[c])
    && (forall i :: i in s.drawn && s.drawn[i] == c ==> i in t.drawn && t.drawn[i] == c)
  }

  lemma OthersStandEarly(s: State, e: Event, c: CallId)
    requires Enabled(s, e) && !MovesCall(e, c) && (e.Begin? || e.Find? || e.Count? || e.PrepareRefresh? || e.CountAfter?)
    ensures Stands(s, Moved(s, e), c)
  {}

  lemma OthersStandOnCreate(s: State, e: Event, c: CallId)
    requires Enabled(s, e) && e.CommitCreate? && e.call != c
    ensures Stands(s, Moved(s, e), c)
  {}

  lemma OthersStandOnRefresh(s: State, c: CallId, d: CallId, call: Call, outcome: RefreshOutcome)
    requires call.Refreshing? && c != d
    ensures Stands(s, AfterRefresh(s, d, call, outcome), c)
  {}

  lemma OtherCallsStand(s: State, e: Event, c: CallId)
    requires Enabled(s, e) && !MovesCall(e, c)
    ensures Stands(s, Moved(s, e), c)
  {
    match e
    case CommitCreate(_, _) => OthersStandOnCreate(s, e, c);
    case CommitRefresh(d, _) =>
      var call := s.calls[d];
      OthersStandOnRefresh(s, c, d, call, RefreshOutcomeOf(s.db, call.existing, call.p, call.statement));
    case LegacyFinds(_, _) =>
    case LegacySeesNoEmail(_) =>
    case LegacyFindsOwner(_, _) =>
    case LegacyRelinks(_) =>
    case OtherWrite(_) =>
    case _ => OthersStandEarly(s, e, c);
  }

  lemma StepKeepsCalls(s: State, e: Event, c: CallId)
    requires Inv(s) && Enabled(s, e) && c in Step(s, e).calls
    ensures CallOk(Step(s, e), c)
  {
    assert c in s.calls ==> CallOk(s, c);
    if MovesCall(e, c) {
      MovedCallOk(s, e, c);
    } else {
      StepKeepsTables(s, e);
      StepKeepsOwners(s, e);
      OtherCallsStand(s, e, c);
      CallFrame(s, Step(s, e), c);
    }
  }

  /** Where a step's new identities come from: a sign-in that reported it, or an id nobody drew. */
  lemma NewIdentities(s: State, e: Event, i: string)
    requires Enabled(s, e) && i in NextDb(s, e).identities && i !in s.db.identities
    ensures if e.CommitCreate?
            then s.calls[e.call].identityId == i
                 && !CreateRejected(s.db, s.calls[e.call].userId, i, s.calls[e.call].p, s.calls[e.call].statement)
            else i !in s.drawn && Moved(s, e).drawn == s.drawn && NextDb(s, e).identities[i].issuer.None?
  {
    match e
    case CommitCreate(_, _) =>
    case CommitRefresh(_, _) =>
    case LegacyRelinks(_) =>
    case OtherWrite(w) => NewWrittenIdentity(s, w, i);
    case _ =>
  }

  lemma NewWrittenIdentity(s: State, w: Write, i: string)
    requires WriteEnabled(s, w) && i in Written(s.db, w).identities && i !in s.db.identities
    ensures i !in s.drawn && Written(s.db, w).identities[i].issuer.None?
  {}

  lemma CreatorsKept(s: State, e: Event, i: string)
    requires Enabled(s, e) && CreatorOk(s, i) && (e.CommitCreate? ==> CallOk(s, e.call))
    ensures CreatorOk(Step(s, e), i)
  {
    var t := Step(s, e);
    if i in t.db.identities && i in t.drawn {
      if i !in s.db.identities {
        NewIdentities(s, e, i);
      } else {
        DrawnStays(s, e, i);
        ResolvedStays(s, e, s.drawn[i]);
      }
    }
  }

  lemma ResolvedStays(s: State, e: Event, c: CallId)
    requires Enabled(s, e) && c in s.calls && s.calls[c].Resolved?
    ensures c in Moved(s, e).calls && Moved(s, e).calls[c] == s.calls[c]
  {
    assert !MovesCall(e, c);
    OtherCallsStand(s, e, c);
  }

  lemma DrawnStays(s: State, e: Event, i: string)
    requires Enabled(s, e) && i in s.db.identities
    ensures i in Moved(s, e).drawn <==> i in s.drawn
    ensures i in s.drawn ==> Moved(s, e).drawn[i] == s.drawn[i]
  {}

  /** How an event leaves the legacy resolvers that are still under way. */
  lemma LegacyStays(s: State, e: Event, l: nat)
    requires Enabled(s, e) && l in Moved(s, e).legacy
    ensures || (l in s.legacy && Moved(s, e).legacy[l] == s.legacy[l])
            || (e.LegacyFinds? && e.legacy == l && Moved(s, e).legacy[l] == FoundIdentity(e.identityId, s.db.identities[e.identityId].userId))
            || (e.LegacySeesNoEmail? && e.legacy == l && Moved(s, e).legacy[l] == SawNoEmail(s.legacy[l].identityId, s.legacy[l].userId))
            || (e.LegacyFindsOwner? && e.legacy == l && Moved(s, e).legacy[l] == FoundOwner(s.legacy[l].identityId, e.owner))
  {
    if !(e.LegacyFinds? || e.LegacySeesNoEmail? || e.LegacyFindsOwner? || e.LegacyRelinks?) {
      SignInsLeaveLegacy(s, e);
    }
  }

  lemma SignInsLeaveLegacy(s: State, e: Event)
    requires Enabled(s, e) && !(e.LegacyFinds? || e.LegacySeesNoEmail? || e.LegacyFindsOwner? || e.LegacyRelinks?)
    ensures Moved(s, e).legacy == s.legacy
  {}

  predicate LegacyRowsThere(db: Db, legacy: Legacy) {
    legacy.identityId in db.identities && (if legacy.FoundOwner? then legacy.ownerId else legacy.userId) in db.users
  }

  lemma StepKeepsLegacy(s: State, e: Event, l: nat)
    requires Enabled(s, e) && l in Moved(s, e).legacy && Settled(s.db, NextDb(s, e))
    requires (l in s.legacy ==> LegacyOk(s, l)) && ForeignKeys(s.db)
    ensures LegacyOk(Step(s, e), l)
  {
    LegacyStays(s, e, l);
    assert LegacyRowsThere(s.db, Moved(s, e).legacy[l]);
  }

  lemma Keeps(s: State, e: Event)
    requires Inv(s) && Enabled(s, e)
    ensures Inv(Step(s, e)) && Settled(s.db, Step(s, e).db) && OwnersGrew(s, Step(s, e))
  {
    var t := Step(s, e);
    StepKeepsTables(s, e);
    StepKeepsOwners(s, e);
    forall c {:trigger CallOk(t, c)} | c in t.calls ensures CallOk(t, c) { StepKeepsCalls(s, e, c); }
    forall i {:trigger CreatorOk(t, i)} ensures CreatorOk(t, i) {
      assert CreatorOk(s, i) && (e.CommitCreate? ==> CallOk(s, e.call));
      CreatorsKept(s, e, i);
    }
    forall l {:trigger LegacyOk(t, l)} | l in t.legacy ensures LegacyOk(t, l) {
      assert l in s.legacy ==> LegacyOk(s, l);
      StepKeepsLegacy(s, e, l);
    }
  }

  lemma OwnersGrewFurther(a: State, b: State, c: State)
    requires OwnersGrew(a, b) && OwnersGrew(b, c)
    ensures OwnersGrew(a, c)
  {}

  lemma {:induction false} RunKeeps(s: State, events: seq<Event>)
    requires Inv(s) && Possible(s, events)
    ensures Inv(Run(s, events)) && Settled(s.db, Run(s, events).db) && OwnersGrew(s, Run(s, events))
    decreases |events|
  {
    if events != [] {
      var t, last := Step(s, events[0]), Run(s, events);
      Keeps(s, events[0]);
      RunKeeps(t, events[1..]);
      SettledTransitive(s.db, t.db, last.db);
      OwnersGrewFurther(s, t, last);
    }
  }

  // ---- theorems, from any database that meets the schema ----

  function Start(db: Db): State {
    State(db, map[], map[], map[], Tracked(map[], db.identities), map[], map[])
  }

  /** A state of some run that began with these tables and no call in flight. */
  ghost predicate ReachableFrom(db: Db, s: State) {
    TablesOk(db) && exists events :: Possible(Start(db), events) && s == Run(Start(db), events)
  }

  lemma ReachableKeeps(db: Db, s: State)
    requires ReachableFrom(db, s)
    ensures Inv(s) && Settled(db, s.db)
  {
    var events :| Possible(Start(db), events) && s == Run(Start(db), events);
    RunKeeps(Start(db), events);
  }

  /**
   * Whatever sign-ins, legacy resolvers and other writers interleave, an identity keeps its issuer and subject,
   * no two share them, and an email claim keeps its owner and source.
   */
  lemma SubjectsAndOwnersNeverChange(db: Db, s: State, events: seq<Event>)
    requires ReachableFrom(db, s) && Possible(s, events)
    ensures Settled(s.db, Run(s, events).db) && TablesOk(Run(s, events).db)
  {
    ReachableKeeps(db, s);
    RunKeeps(s, events);
  }

  predicate SameSubject(p: Profile, q: Profile) {
    p.issuer == q.issuer && p.subject == q.subject
  }

  /** All calls that succeed for one subject return the same identity, and each a user it was bound to when the call read it. */
  lemma SameSubjectSameIdentity(db: Db, s: State, c: CallId, d: CallId)
    requires ReachableFrom(db, s) && c in s.calls && d in s.calls
    requires s.calls[c].Resolved? && s.calls[d].Resolved? && SameSubject(s.calls[c].p, s.calls[d].p)
    ensures var i := s.calls[c].identityId;
            && s.calls[d].identityId == i && i in s.owners
            && c in s.readAt && s.readAt[c] < |s.owners[i]| && s.calls[c].userId == s.owners[i][s.readAt[c]]
            && d in s.readAt && s.readAt[d] < |s.owners[i]| && s.calls[d].userId == s.owners[i][s.readAt[d]]
  {
    ReachableKeeps(db, s);
    assert CallOk(s, c) && CallOk(s, d);
  }

  /** At most one call per subject reports a new user. */
  lemma AtMostOneNewUser(db: Db, s: State, c: CallId, d: CallId)
    requires ReachableFrom(db, s) && c in s.calls && d in s.calls
    requires s.calls[c].Resolved? && s.calls[d].Resolved? && SameSubject(s.calls[c].p, s.calls[d].p)
    requires s.calls[c].isNewUser && s.calls[d].isNewUser
    ensures c == d
  {
    SameSubjectSameIdentity(db, s, c, d);
    ReachableKeeps(db, s);
    assert CallOk(s, c) && CallOk(s, d);
  }

  /** A subject that was unbound at the start and is resolved now was created by a call that reported a new user. */
  lemma SomeCallReportedTheNewUser(db: Db, s: State, events: seq<Event>, c: CallId) returns (creator: CallId)
    requires TablesOk(db) && Possible(Start(db), events) && s == Run(Start(db), events)
    requires c in s.calls && s.calls[c].Resolved? && s.calls[c].identityId !in db.identities
    ensures creator in s.calls && s.calls[creator].Resolved? && s.calls[creator].isNewUser
    ensures s.calls[creator].identityId == s.calls[c].identityId && SameSubject(s.calls[creator].p, s.calls[c].p)
  {
    StartIsOk(db);
    RunKeeps(Start(db), events);
    ResolvedIsIssued(s, c);
    IssuedIdentitiesAreDrawn(Start(db), events, s.calls[c].identityId);
    creator := CreatorOf(s, c);
  }

  lemma StartIsOk(db: Db)
    requires TablesOk(db)
    ensures Inv(Start(db))
  {}

  lemma ResolvedIsIssued(s: State, c: CallId)
    requires Inv(s) && c in s.calls && s.calls[c].Resolved?
    ensures s.calls[c].identityId in s.db.identities && s.db.identities[s.calls[c].identityId].issuer.Some?
  {
    assert CallOk(s, c);
  }

  lemma CreatorOf(s: State, c: CallId) returns (creator: CallId)
    requires Inv(s) && c in s.calls && s.calls[c].Resolved? && s.calls[c].identityId in s.drawn
    ensures creator in s.calls && s.calls[creator].Resolved? && s.calls[creator].isNewUser
    ensures s.calls[creator].identityId == s.calls[c].identityId && SameSubject(s.calls[creator].p, s.calls[c].p)
  {
    assert CallOk(s, c) && CreatorOk(s, s.calls[c].identityId);
    creator := s.drawn[s.calls[c].identityId];
    assert CallOk(s, creator);
  }

  /** An identity with an issuer that the run added was created with a generated id. */
  lemma {:induction false} IssuedIdentitiesAreDrawn(s: State, events: seq<Event>, i: string)
    requires Inv(s) && Possible(s, events)
    requires i in s.db.identities && s.db.identities[i].issuer.Some? ==> i in s.drawn
    requires i in Run(s, events).db.identities && Run(s, events).db.identities[i].issuer.Some?
    ensures i in Run(s, events).drawn
    decreases |events|
  {
    if events != [] {
      Keeps(s, events[0]);
      assert events[0].CommitCreate? ==> CallOk(s, events[0].call);
      IssuedIdentityStep(s, events[0], i);
      IssuedIdentitiesAreDrawn(Step(s, events[0]), events[1..], i);
    }
  }

  lemma IssuedIdentityStep(s: State, e: Event, i: string)
    requires Enabled(s, e) && Settled(s.db, Step(s, e).db) && (e.CommitCreate? ==> CallOk(s, e.call))
    requires i in s.db.identities && s.db.identities[i].issuer.Some? ==> i in s.drawn
    ensures i in Step(s, e).db.identities && Step(s, e).db.identities[i].issuer.Some? ==> i in Step(s, e).drawn
  {
    if i in Step(s, e).db.identities && i !in s.db.identities {
      NewIdentities(s, e, i);
    }
    DrawnGrows(s, e);
  }

  lemma DrawnGrows(s: State, e: Event)
    requires Enabled(s, e)
    ensures s.drawn.Keys <= Moved(s, e).drawn.Keys
  {}

  /** A conflict is thrown only after the database rejected three batches of that call, and never more than three are tried. */
  lemma ConflictMeansThreeRejections(db: Db, s: State, c: CallId)
    requires ReachableFrom(db, s) && c in s.calls
    ensures Rejections(s, c) <= MAX_RESOLUTION_ATTEMPTS
    ensures Rejections(s, c) == MAX_RESOLUTION_ATTEMPTS <==> s.calls[c].Threw? && s.calls[c].failure == Conflict
  {
    ReachableKeeps(db, s);
    assert CallOk(s, c);
  }

  /** A new user owns every verified email it signed in with, for ever. */
  lemma NewUserOwnsItsEmails(db: Db, s: State, c: CallId)
    requires ReachableFrom(db, s) && c in s.calls && s.calls[c].Resolved? && s.calls[c].isNewUser
    ensures AllOwned(s.db, s.calls[c].p.verifiedEmails, s.calls[c].userId)
  {
    ReachableKeeps(db, s);
    assert CallOk(s, c);
  }

  /** The collision count a returning user was told stays exact: those emails never change hands. */
  lemma CollisionCountStaysExact(db: Db, s: State, c: CallId)
    requires ReachableFrom(db, s) && c in s.calls && s.calls[c].Resolved?
    ensures var call := s.calls[c];
            && AllClaimed(s.db, call.p.verifiedEmails)
            && call.collisions == |Conflicts(s.db.claims, call.p.verifiedEmails, Some(call.userId))|
  {
    ReachableKeeps(db, s);
    assert CallOk(s, c);
    if s.calls[c].isNewUser {
      assert Conflicts(s.db.claims, s.calls[c].p.verifiedEmails, Some(s.calls[c].userId)) == {};
    }
  }
}
