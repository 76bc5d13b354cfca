/** The resolver's retry loop as the source writes it, over the store, with other callers at every await. */
module SignInLoop {
  import opened Support
  import opened SignInIdentities
  import opened SignInResolver
  import Credentials = ProviderCredentials

  /** A batch or statement another caller commits while this one is suspended. */
  datatype Other =
    | OtherCreate(userId: string, identityId: string, p: Profile, statement: Option<Credentials.Statement>, now: int)
    | OtherRefresh(existing: Existing, p: Profile, statement: Option<Credentials.Statement>, now: int)
    | OtherWrites(write: Write)

  predicate WellFormed(others: seq<Other>) {
    forall k | 0 <= k < |others| :: others[k].OtherCreate? ==> NoRepeats(others[k].p.verifiedEmails)
  }

  predicate NoRepeats(emails: seq<Email>) {
    forall i, j | 0 <= i < j < |emails| :: emails[i] != emails[j]
  }

  ghost function AfterOther(db: Db, o: Other): Db {
    match o
    case OtherCreate(userId, identityId, p, statement, now) =>
      if CreateRejected(db, userId, identityId, p, statement) then db else Created(db, userId, identityId, p, statement, now)
    case OtherRefresh(existing, p, statement, now) =>
      if RefreshOutcomeOf(db, existing, p, statement).Committed? then Refreshed(db, existing, p, statement, now) else db
    case OtherWrites(w) => Written(db, w)
  }

  ghost function AfterOthers(db: Db, others: seq<Other>): Db
    decreases |others|
  {
    if others == [] then db else AfterOther(AfterOthers(db, others[..|others| - 1]), others[|others| - 1])
  }

  /** Generated ids, the clock, and the interference of one attempt. */
  datatype AttemptInput = AttemptInput(
    userId: string, identityId: string, now: int,
    afterFind: seq<Other>, beforeCommit: seq<Other>, afterCommit: seq<Other>)

  predicate WellFormedInput(input: AttemptInput) {
    WellFormed(input.afterFind) && WellFormed(input.beforeCommit) && WellFormed(input.afterCommit)
  }

  /** The tables as attempt `k` reads the binding: rejected attempts of the call itself left no trace. */
  ghost function AtFind(db: Db, inputs: seq<AttemptInput>, k: nat): Db
    requires k <= |inputs|
  {
    if k == 0 then db
    else AfterOthers(AfterOthers(AtFind(db, inputs, k - 1), inputs[k - 1].afterFind), inputs[k - 1].beforeCommit)
  }

  // ---- what decides an attempt, in columns ----

  /** The tables when the emails are counted, or a credential's version is read. */
  ghost function AtCount(found: Db, input: AttemptInput): Db {
    AfterOthers(found, input.afterFind)
  }

  ghost function AtCommit(found: Db, input: AttemptInput): Db {
    AfterOthers(AtCount(found, input), input.beforeCommit)
  }

  ghost predicate IsSubjects(db: Db, i: string, p: Profile) {
    i in db.identities && db.identities[i].issuer == Some(p.issuer) && db.identities[i].subject == p.subject
  }

  ghost predicate Unbound(db: Db, p: Profile) {
    forall i :: i in db.identities ==> db.identities[i].issuer != Some(p.issuer) || db.identities[i].subject != p.subject
  }

  ghost predicate SomeEmailClaimed(db: Db, p: Profile) {
    exists e :: e in p.verifiedEmails && e in db.claims
  }

  ghost predicate SomeEmailUnclaimed(db: Db, p: Profile) {
    exists e :: e in p.verifiedEmails && e !in db.claims
  }

  /** The identity id, the access token or the refresh token is empty. */
  ghost predicate MalformedFor(identityId: string, credential: Option<Credentials.Credential>) {
    && credential.Some?
    && (identityId == "" || credential.value.accessToken == ""
        || (credential.value.Refreshable? && credential.value.refreshToken == ""))
  }

  /** A key that the create batch needs: either id, the primary email, the subject, a verified email, the credential's row. */
  ghost predicate KeyTaken(db: Db, p: Profile, hasCredential: bool, userId: string, identityId: string) {
    || userId in db.users || identityId in db.identities
    || (p.primaryEmail.Some? && exists u :: u in db.users && db.users[u].email == p.primaryEmail)
    || (exists i :: i in db.identities && db.identities[i].subject == p.subject
                    && (db.identities[i].issuer == Some(p.issuer) || db.identities[i].provider == p.provider))
    || SomeEmailClaimed(db, p)
    || (hasCredential && identityId in db.credentials)
  }

  /** The credential's row is not the one whose version was read. */
  ghost predicate CredentialOvertaken(atRead: Db, atCommit: Db, i: string) {
    && i in atCommit.credentials
    && (i in atRead.credentials ==> atCommit.credentials[i].rowVersion != atRead.credentials[i].rowVersion)
  }

  /** The row is bound to another user by now, whom a new claim may not name together with it. */
  ghost predicate Relinked(found: Db, atCommit: Db, i: string)
    requires i in found.identities
  {
    i !in atCommit.identities || atCommit.identities[i].userId != found.identities[i].userId
  }

  ghost predicate Mismatches(found: Db, p: Profile) {
    exists i :: IsSubjects(found, i, p) && found.identities[i].provider != p.provider
  }

  ghost predicate NeedsLinking(found: Db, p: Profile, input: AttemptInput) {
    Unbound(found, p) && SomeEmailClaimed(AtCount(found, input), p)
  }

  ghost predicate MayCreate(found: Db, p: Profile, credential: Option<Credentials.Credential>, input: AttemptInput) {
    Unbound(found, p) && !SomeEmailClaimed(AtCount(found, input), p) && !MalformedFor(input.identityId, credential)
  }

  ghost predicate MayRefresh(found: Db, p: Profile, credential: Option<Credentials.Credential>, i: string) {
    IsSubjects(found, i, p) && found.identities[i].provider == p.provider && !MalformedFor(i, credential)
  }

  ghost predicate RefusesCredential(found: Db, p: Profile, credential: Option<Credentials.Credential>, input: AttemptInput) {
    || (Unbound(found, p) && !SomeEmailClaimed(AtCount(found, input), p) && MalformedFor(input.identityId, credential))
    || exists i :: IsSubjects(found, i, p) && found.identities[i].provider == p.provider && MalformedFor(i, credential)
  }

  ghost predicate BreaksForeignKey(found: Db, p: Profile, credential: Option<Credentials.Credential>, input: AttemptInput) {
    exists i :: MayRefresh(found, p, credential, i) && Relinked(found, AtCommit(found, input), i)
                && SomeEmailUnclaimed(AtCommit(found, input), p)
  }

  /** The attempt commits a new user. */
  ghost predicate Creates(found: Db, p: Profile, credential: Option<Credentials.Credential>, input: AttemptInput) {
    && MayCreate(found, p, credential, input)
    && !KeyTaken(AtCommit(found, input), p, credential.Some?, input.userId, input.identityId)
  }

  /** The attempt commits a refresh of the subject's row `i`. */
  ghost predicate Refreshes(found: Db, p: Profile, credential: Option<Credentials.Credential>, input: AttemptInput, i: string) {
    && MayRefresh(found, p, credential, i)
    && !(Relinked(found, AtCommit(found, input), i) && SomeEmailUnclaimed(AtCommit(found, input), p))
    && !(credential.Some? && CredentialOvertaken(AtCount(found, input), AtCommit(found, input), i))
  }

  ghost predicate Commits(found: Db, p: Profile, credential: Option<Credentials.Credential>, input: AttemptInput) {
    Creates(found, p, credential, input) || exists i :: Refreshes(found, p, credential, input, i)
  }

  /** The database rejects the attempt's batch with an error that is worth another attempt. */
  ghost predicate Loses(found: Db, p: Profile, credential: Option<Credentials.Credential>, input: AttemptInput) {
    || (MayCreate(found, p, credential, input)
        && KeyTaken(AtCommit(found, input), p, credential.Some?, input.userId, input.identityId))
    || exists i :: MayRefresh(found, p, credential, i)
                   && !(Relinked(found, AtCommit(found, input), i) && SomeEmailUnclaimed(AtCommit(found, input), p))
                   && credential.Some? && CredentialOvertaken(AtCount(found, input), AtCommit(found, input), i)
  }

  /** Attempt `k` is reached: all earlier ones lost. */
  ghost predicate LosesBefore(db: Db, p: Profile, credential: Option<Credentials.Credential>, inputs: seq<AttemptInput>, k: nat)
    requires k <= |inputs|
  {
    forall j: nat :: j < k ==> Loses(AtFind(db, inputs, j), p, credential, inputs[j])
  }

  datatype Outcome =
    | Signed(identityId: string, userId: string, isNewUser: bool, collisions: nat)
    | Thrown(failure: Failure)

  /** A refresh that is not overtaken writes the credential under the version after the one that was read. */
  lemma UpsertWritesTheNextVersion(atRead: Db, atCommit: Db, i: string, credential: Credentials.Credential, now: int)
    requires TablesOk(atRead) && TablesOk(atCommit) && !CredentialOvertaken(atRead, atCommit, i)
    ensures var v := if i in atRead.credentials then atRead.credentials[i].rowVersion else 0;
            Credentials.EffectOf(atCommit.credentials, UpsertFor(atRead, i, credential, now))
            == Credentials.Changed(atCommit.credentials[i := Credentials.Encrypted(i, credential, v + 1, now)])
  {}

  /** Which answer an attempt gives, each one exactly when. */
  ghost predicate EachAnswer(found: Db, p: Profile, credential: Option<Credentials.Credential>, input: AttemptInput, r: Option<Outcome>) {
    && (r == Some(Thrown(AdapterMismatch)) <==> Mismatches(found, p))
    && (r.Some? && r.value.Thrown? && r.value.failure.AccountLinkRequired? <==> NeedsLinking(found, p, input))
    && (r == Some(Thrown(InvalidCredential)) <==> RefusesCredential(found, p, credential, input))
    && (r == Some(Thrown(ForeignKeyError)) <==> BreaksForeignKey(found, p, credential, input))
    && (r.Some? && r.value.Signed? && r.value.isNewUser <==> Creates(found, p, credential, input))
    && (r.Some? && r.value.Signed? && r.value.isNewUser ==> r.value.identityId == input.identityId && r.value.userId == input.userId)
    && (forall i :: r.Some? && r.value.Signed? && !r.value.isNewUser && r.value.identityId == i
                    <==> Refreshes(found, p, credential, input, i))
    && (r.None? <==> Loses(found, p, credential, input))
    && (r.Some? && r.value.Signed? <==> Commits(found, p, credential, input))
  }

  /** Attempt `k` is the first that does not lose. */
  ghost predicate DecidedAt(db: Db, p: Profile, credential: Option<Credentials.Credential>, inputs: seq<AttemptInput>, k: nat)
    requires k < |inputs|
  {
    LosesBefore(db, p, credential, inputs, k) && !Loses(AtFind(db, inputs, k), p, credential, inputs[k])
  }

  lemma LosesOnceMore(db: Db, p: Profile, credential: Option<Credentials.Credential>, inputs: seq<AttemptInput>, k: nat)
    requires k < |inputs| && LosesBefore(db, p, credential, inputs, k)
    requires EachAnswer(AtFind(db, inputs, k), p, credential, inputs[k], None)
    ensures LosesBefore(db, p, credential, inputs, k + 1)
  {}

  /** The call ends with the answer of attempt `k`, the first that does not lose. */
  ghost predicate EndsAt(db: Db, p: Profile, credential: Option<Credentials.Credential>, inputs: seq<AttemptInput>, k: nat, r: Outcome, after: Db)
    requires k < |inputs|
  {
    && DecidedAt(db, p, credential, inputs, k)
    && EachAnswer(AtFind(db, inputs, k), p, credential, inputs[k], Some(r))
    && (r.Signed? ==> EndsWell(AtFind(db, inputs, k), after, p, r))
  }

  lemma Decides(db: Db, p: Profile, credential: Option<Credentials.Credential>, inputs: seq<AttemptInput>, k: nat, r: Outcome, after: Db)
    requires k < |inputs| && LosesBefore(db, p, credential, inputs, k)
    requires EachAnswer(AtFind(db, inputs, k), p, credential, inputs[k], Some(r))
    requires r.Signed? ==> EndsWell(AtFind(db, inputs, k), after, p, r)
    ensures EndsAt(db, p, credential, inputs, k, r, after) && !LosesBefore(db, p, credential, inputs, |inputs|)
  {}

  lemma CreateRejectedIff(db: Db, p: Profile, credential: Option<Credentials.Credential>, userId: string, identityId: string, now: int)
    requires !MalformedFor(identityId, credential)
    ensures var statement := if credential.None? then None
                             else Some(Credentials.Insert(identityId, Credentials.Encrypted(identityId, credential.value, 1, now)));
            CreateRejected(db, userId, identityId, p, statement) <==> KeyTaken(db, p, credential.Some?, userId, identityId)
  {}

  lemma UpsertRejectedIff(atRead: Db, atCommit: Db, i: string, credential: Credentials.Credential, now: int)
    requires TablesOk(atRead) && TablesOk(atCommit)
    ensures RefreshRejected(atCommit, Some(UpsertFor(atRead, i, credential, now))) <==> CredentialOvertaken(atRead, atCommit, i)
  {}

  // ---- the machine's segments are decided by the same columns ----

  /** Reading the binding: nothing found, another adapter's row, or a row to refresh. */
  lemma MachineFinds(s: State, c: CallId, found: Option<string>)
    requires Inv(s) && Enabled(s, Find(c, found))
    ensures var p, call := s.calls[c].p, Step(s, Find(c, found)).calls[c];
            && (call.Counting? <==> Unbound(s.db, p))
            && (call == Threw(p, AdapterMismatch) <==> Mismatches(s.db, p))
            && (forall i :: call.Preparing? && call.existing.identityId == i <==> IsSubjects(s.db, i, p) && s.db.identities[i].provider == p.provider)
            && (call.Preparing? ==> call.existing.userId == s.db.identities[call.existing.identityId].userId)
  {
    if found.Some? {
      SubjectHasRow(s.db, s.calls[c].p, found.value);
    }
  }

  /** Counting the emails: account linking, a refused credential, or a batch to create. */
  lemma MachineCounts(db: Db, counting: Call, userId: string, identityId: string, now: int)
    requires counting.Counting?
    ensures var call := AfterCount(db, counting, userId, identityId, now);
            && (call.Threw? && call.failure.AccountLinkRequired? <==> SomeEmailClaimed(db, counting.p))
            && (call == Threw(counting.p, InvalidCredential) <==>
                  !SomeEmailClaimed(db, counting.p) && MalformedFor(identityId, counting.credential))
            && (call.Creating? <==> !SomeEmailClaimed(db, counting.p) && !MalformedFor(identityId, counting.credential))
  {
    ConflictsIff(db, counting.p);
  }

  /** Committing what was prepared when the emails were counted. */
  lemma MachineCreatesIff(t: State, c: CallId, at: int, db: Db, counting: Call, userId: string, identityId: string, now: int)
    requires Enabled(t, CommitCreate(c, at)) && counting.Counting? && t.calls[c] == AfterCount(db, counting, userId, identityId, now)
    ensures c in Moved(t, CommitCreate(c, at)).calls
    ensures var call := Moved(t, CommitCreate(c, at)).calls[c];
            && (call == Resolved(counting.p, identityId, userId, true, 0)
                <==> !KeyTaken(t.db, counting.p, counting.credential.Some?, userId, identityId))
            && (call == Retry(counting.p, counting.credential, counting.attempt)
                <==> KeyTaken(t.db, counting.p, counting.credential.Some?, userId, identityId))
  {
    MachineCounts(db, counting, userId, identityId, now);
    CreateRejectedIff(t.db, counting.p, counting.credential, userId, identityId, now);
  }

  /** Committing what was prepared for an existing identity. */
  lemma MachineRefreshesIff(t: State, c: CallId, at: int, db: Db, preparing: Call, now: int)
    requires Enabled(t, CommitRefresh(c, at)) && preparing.Preparing? && t.calls[c] == AfterPrepare(db, preparing, now)
    requires TablesOk(db) && TablesOk(t.db)
    ensures c in Moved(t, CommitRefresh(c, at)).calls
    ensures var call, i := Moved(t, CommitRefresh(c, at)).calls[c], preparing.existing.identityId;
            var broken := RefreshBreaksForeignKey(t.db, preparing.existing, preparing.p);
            var overtaken := preparing.credential.Some? && CredentialOvertaken(db, t.db, i);
            && !MalformedFor(i, preparing.credential)
            && (call == Threw(preparing.p, ForeignKeyError) <==> broken)
            && (call == CountingAfter(preparing.p, preparing.existing) <==> !broken && !overtaken)
            && (call == Retry(preparing.p, preparing.credential, preparing.attempt) <==> !broken && overtaken)
  {
    var call := t.calls[c];
    if call.credential.Some? {
      UpsertRejectedIff(db, t.db, call.existing.identityId, call.credential.value, now);
    }
    RefreshMoves(t, c, call, RefreshOutcomeOf(t.db, call.existing, call.p, call.statement));
  }

  lemma ConflictsIff(db: Db, p: Profile)
    ensures Conflicts(db.claims, p.verifiedEmails, None) != {} <==> SomeEmailClaimed(db, p)
  {
    if SomeEmailClaimed(db, p) {
      var e :| e in p.verifiedEmails && e in db.claims;
      assert e in Conflicts(db.claims, p.verifiedEmails, None);
    }
  }

  lemma SubjectHasRow(db: Db, p: Profile, i: string)
    requires UniqueBindings(db) && IsRowOf(db, i, p.issuer, p.subject)
    ensures !Unbound(db, p) && forall j :: IsSubjects(db, j, p) <==> j == i
  {
    forall j | IsSubjects(db, j, p) ensures j == i {
      assert IsRowOf(db, j, p.issuer, p.subject);
    }
  }

  lemma RefreshAnswers(found: Db, p: Profile, credential: Option<Credentials.Credential>, input: AttemptInput, existing: Existing, r: Option<Outcome>)
    requires UniqueBindings(found) && IsRowOf(found, existing.identityId, p.issuer, p.subject)
    requires existing.userId == found.identities[existing.identityId].userId
    requires existing.provider == found.identities[existing.identityId].provider
    requires var atCommit := AtCommit(found, input);
             var open := existing.provider == p.provider && !MalformedFor(existing.identityId, credential);
             var overtaken := credential.Some? && CredentialOvertaken(AtCount(found, input), atCommit, existing.identityId);
             && (r == Some(Thrown(AdapterMismatch)) <==> existing.provider != p.provider)
             && (r == Some(Thrown(InvalidCredential)) <==> existing.provider == p.provider && MalformedFor(existing.identityId, credential))
             && (r == Some(Thrown(ForeignKeyError)) <==> open && RefreshBreaksForeignKey(atCommit, existing, p))
             && (r.None? <==> open && !RefreshBreaksForeignKey(atCommit, existing, p) && overtaken)
             && (r.Some? && r.value.Thrown? ==> r.value.failure in {AdapterMismatch, InvalidCredential, ForeignKeyError})
             && (r.Some? && r.value.Signed? ==> !r.value.isNewUser && r.value.identityId == existing.identityId)
    ensures EachAnswer(found, p, credential, input, r)
  {
    SubjectHasRow(found, p, existing.identityId);
    ForeignKeyIff(found, AtCommit(found, input), p, existing);
    assert MayRefresh(found, p, credential, existing.identityId) <==>
             existing.provider == p.provider && !MalformedFor(existing.identityId, credential);
    assert Refreshes(found, p, credential, input, existing.identityId) <==> r.Some? && r.value.Signed?;
  }

  lemma ForeignKeyIff(found: Db, atCommit: Db, p: Profile, existing: Existing)
    requires existing.identityId in found.identities && existing.userId == found.identities[existing.identityId].userId
    ensures RefreshBreaksForeignKey(atCommit, existing, p) <==>
            Relinked(found, atCommit, existing.identityId) && SomeEmailUnclaimed(atCommit, p)
  {
    if SomeEmailUnclaimed(atCommit, p) {
      var e :| e in p.verifiedEmails && e !in atCommit.claims;
    }
  }

  lemma CreateAnswers(found: Db, p: Profile, credential: Option<Credentials.Credential>, input: AttemptInput, r: Option<Outcome>)
    requires Unbound(found, p)
    requires var claimed, malformed := SomeEmailClaimed(AtCount(found, input), p), MalformedFor(input.identityId, credential);
             && (r.Some? && r.value.Thrown? && r.value.failure.AccountLinkRequired? <==> claimed)
             && (r == Some(Thrown(InvalidCredential)) <==> !claimed && malformed)
             && (r.None? <==> !claimed && !malformed
                              && KeyTaken(AtCommit(found, input), p, credential.Some?, input.userId, input.identityId))
             && (r.Some? && r.value.Thrown? ==> r.value.failure.AccountLinkRequired? || r.value.failure.InvalidCredential?)
             && (r.Some? && r.value.Signed? ==> r.value.isNewUser && r.value.identityId == input.identityId && r.value.userId == input.userId)
    ensures EachAnswer(found, p, credential, input, r)
  {
    assert forall i :: !IsSubjects(found, i, p);
  }

  lemma OtherKeepsTables(db: Db, o: Other)
    requires TablesOk(db)
    ensures TablesOk(AfterOther(db, o)) && Settled(db, AfterOther(db, o))
  {
    match o
    case OtherCreate(userId, identityId, p, statement, now) =>
      if !CreateRejected(db, userId, identityId, p, statement) {
        CreatedKeepsTables(db, userId, identityId, p, statement, now);
      }
    case OtherRefresh(existing, p, statement, now) =>
      if RefreshOutcomeOf(db, existing, p, statement).Committed? {
        RefreshedKeepsTables(db, existing, p, statement, now);
      }
    case OtherWrites(w) => WrittenKeepsTables(db, w);
  }

  lemma {:induction false} OthersKeepTables(db: Db, others: seq<Other>)
    requires TablesOk(db)
    ensures TablesOk(AfterOthers(db, others)) && Settled(db, AfterOthers(db, others))
    decreases |others|
  {
    if others != [] {
      var before := AfterOthers(db, others[..|others| - 1]);
      OthersKeepTables(db, others[..|others| - 1]);
      OtherKeepsTables(before, others[|others| - 1]);
      SettledTransitive(db, before, AfterOthers(db, others));
    }
  }

  /** A binding found in an earlier state of the tables is still the subject's only one. */
  lemma OnlyRowOfSubject(before: Db, after: Db, p: Profile, i: string, j: string)
    requires Settled(before, after) && UniqueBindings(after)
    requires IsRowOf(before, i, p.issuer, p.subject) && IsRowOf(after, j, p.issuer, p.subject)
    ensures i == j
  {
    assert IsRowOf(after, i, p.issuer, p.subject);
  }

  class BrowserSignInIdentityResolver {
    const store: BrowserSignInIdentityStore

    constructor (store: BrowserSignInIdentityStore)
      ensures this.store == store
    {
      this.store := store;
    }

    method Await(others: seq<Other>)
      requires TablesOk(store.db) && WellFormed(others)
      modifies store
      ensures store.db == AfterOthers(old(store.db), others)
      ensures TablesOk(store.db) && Settled(old(store.db), store.db)
    {
      ghost var before := store.db;
      for k := 0 to |others|
        invariant store.db == AfterOthers(before, others[..k])
      {
        assert others[..k + 1][..k] == others[..k];
        match others[k] {
          case OtherCreate(userId, identityId, p, statement, now) => var _ := store.Create(userId, identityId, p, statement, now);
          case OtherRefresh(existing, p, statement, now) => var _ := store.Refresh(existing, p, statement, now);
          case OtherWrites(w) => store.Perform(w);
        }
      }
      assert others[..|others|] == others;
      OthersKeepTables(before, others);
    }

    /** `refreshExisting` inside one attempt: `None` is a retryable conflict. */
    method RefreshExisting(existing: Existing, p: Profile, credential: Option<Credentials.Credential>, input: AttemptInput)
      returns (r: Option<Outcome>)
      requires TablesOk(store.db) && WellFormedInput(input)
      modifies store
      ensures TablesOk(store.db) && Settled(old(store.db), store.db)
      ensures var atCommit := AfterOthers(old(store.db), input.beforeCommit);
              var invalid := credential.Some? && !Credentials.ValidInput(existing.identityId, credential.value);
              && (r == Some(Thrown(AdapterMismatch)) <==> existing.provider != p.provider)
              && (r == Some(Thrown(InvalidCredential)) <==> existing.provider == p.provider && invalid)
              && (r == Some(Thrown(ForeignKeyError)) <==>
                    existing.provider == p.provider && !invalid && RefreshBreaksForeignKey(atCommit, existing, p))
              && (r.None? ==> store.db == atCommit)
      ensures r.Some? && r.value.Signed? ==>
                && !r.value.isNewUser && r.value.userId == existing.userId && r.value.identityId == existing.identityId
                && existing.provider == p.provider
                && AllClaimed(store.db, p.verifiedEmails)
                && r.value.collisions == |Conflicts(store.db.claims, p.verifiedEmails, Some(existing.userId))|
      ensures r.Some? && r.value.Thrown? ==> r.value.failure in {AdapterMismatch, InvalidCredential, ForeignKeyError}
      ensures r == Some(Thrown(InvalidCredential)) <==> existing.provider == p.provider && MalformedFor(existing.identityId, credential)
      ensures r.None? <==>
                && existing.provider == p.provider && !MalformedFor(existing.identityId, credential)
                && !RefreshBreaksForeignKey(AfterOthers(old(store.db), input.beforeCommit), existing, p)
                && credential.Some?
                && CredentialOvertaken(old(store.db), AfterOthers(old(store.db), input.beforeCommit), existing.identityId)
    {
      if existing.provider != p.provider {
        return Some(Thrown(AdapterMismatch));
      }
      if credential.Some? && !Credentials.ValidInput(existing.identityId, credential.value) {
        return Some(Thrown(InvalidCredential));
      }
      var statement := if credential.None? then None else Some(UpsertFor(store.db, existing.identityId, credential.value, input.now));
      ghost var read := store.db;
      Await(input.beforeCommit);
      ghost var before := store.db;
      if credential.Some? {
        UpsertRejectedIff(read, before, existing.identityId, credential.value, input.now);
      }
      var outcome := store.Refresh(existing, p, statement, input.now);
      if outcome.ForeignKeyFailure? {
        return Some(Thrown(ForeignKeyError));
      }
      if outcome.RetryableConflict? {
        return None;
      }
      RefreshedKeepsTables(before, existing, p, statement, input.now);
      SettledTransitive(old(store.db), before, store.db);
      ghost var committed := store.db;
      Await(input.afterCommit);
      SettledTransitive(old(store.db), committed, store.db);
      var collisions := store.CountConflictingEmails(p.verifiedEmails, Some(existing.userId));
      return Some(Signed(existing.identityId, existing.userId, false, collisions));
    }

    /** `createIdentity` inside one attempt: `None` is a retryable conflict. */
    method CreateIdentity(p: Profile, credential: Option<Credentials.Credential>, input: AttemptInput) returns (r: Option<Outcome>)
      requires TablesOk(store.db) && NoDuplicates(p.verifiedEmails) && WellFormedInput(input)
      modifies store
      ensures TablesOk(store.db) && Settled(old(store.db), store.db)
      ensures r.None? ==> store.db == AfterOthers(old(store.db), input.beforeCommit)
      ensures r.Some? && r.value.Signed? ==>
                && r.value.isNewUser && r.value.userId == input.userId && r.value.identityId == input.identityId
                && r.value.collisions == 0
                && input.identityId !in old(store.db).identities && input.userId !in old(store.db).users
                && Bound(store.db, p, input.identityId, input.userId)
                && AllOwned(store.db, p.verifiedEmails, input.userId)
      ensures r.Some? && r.value.Thrown? <==> credential.Some? && !Credentials.ValidInput(input.identityId, credential.value)
      ensures r.Some? && r.value.Thrown? ==> r.value.failure == InvalidCredential
      ensures r.Some? && r.value.Thrown? <==> MalformedFor(input.identityId, credential)
      ensures r.None? <==>
                && !MalformedFor(input.identityId, credential)
                && KeyTaken(AfterOthers(old(store.db), input.beforeCommit), p, credential.Some?, input.userId, input.identityId)
      ensures r.Some? && r.value.Signed? ==>
                && store.db.users == AfterOthers(old(store.db), input.beforeCommit).users[
                                       input.userId := User(p.displayName, p.primaryEmail, p.avatarUrl)]
                && store.db.identities == AfterOthers(old(store.db), input.beforeCommit).identities[
                     input.identityId := Identity(input.userId, p.provider, Some(p.issuer), p.subject, p.login, p.primaryEmail)]
                && store.db.credentials == if credential.None? then AfterOthers(old(store.db), input.beforeCommit).credentials
                                           else AfterOthers(old(store.db), input.beforeCommit).credentials[
                                                  input.identityId := Credentials.Encrypted(input.identityId, credential.value, 1, input.now)]
    {
      if credential.Some? && !Credentials.ValidInput(input.identityId, credential.value) {
        return Some(Thrown(InvalidCredential));
      }
      var statement := if credential.None? then None
                       else Some(Credentials.Insert(input.identityId, Credentials.Encrypted(input.identityId, credential.value, 1, input.now)));
      Await(input.beforeCommit);
      ghost var before := store.db;
      CreateRejectedIff(before, p, credential, input.userId, input.identityId, input.now);
      var committed := store.Create(input.userId, input.identityId, p, statement, input.now);
      if !committed {
        return None;
      }
      CreatedKeepsTables(before, input.userId, input.identityId, p, statement, input.now);
      SettledTransitive(old(store.db), before, store.db);
      return Some(Signed(input.identityId, input.userId, true, 0));
    }

    /** One attempt of the loop: `None` is a retryable conflict, which leaves only what the others did. */
    method Attempt(p: Profile, credential: Option<Credentials.Credential>, input: AttemptInput) returns (r: Option<Outcome>)
      requires TablesOk(store.db) && NoDuplicates(p.verifiedEmails) && WellFormedInput(input)
      modifies store
      ensures TablesOk(store.db) && Settled(old(store.db), store.db)
      ensures r.None? ==> store.db == AfterOthers(AfterOthers(old(store.db), input.afterFind), input.beforeCommit)
      ensures r.Some? && r.value.Signed? ==> EndsWell(old(store.db), store.db, p, r.value)
      ensures r.Some? && r.value.Thrown? && r.value.failure.AccountLinkRequired? ==>
                r.value.failure.count > 0 && r.value.failure.count == |Conflicts(store.db.claims, p.verifiedEmails, None)|
      ensures r.Some? && r.value.Thrown? ==> r.value.failure != Conflict
      ensures EachAnswer(old(store.db), p, credential, input, r)
    {
      ghost var found := store.db;
      var existing := store.FindByIssuerAndSubject(p.issuer, p.subject);
      Await(input.afterFind);
      ghost var before := store.db;
      if existing.Some? {
        r := RefreshExisting(existing.value, p, credential, input);
        RefreshAnswers(found, p, credential, input, existing.value, r);
      } else {
        var collisionCount := store.CountConflictingEmails(p.verifiedEmails, None);
        ConflictsIff(store.db, p);
        if collisionCount > 0 {
          CreateAnswers(found, p, credential, input, Some(Thrown(AccountLinkRequired(collisionCount))));
          return Some(Thrown(AccountLinkRequired(collisionCount)));
        }
        r := CreateIdentity(p, credential, input);
        CreateAnswers(found, p, credential, input, r);
      }
      SettledTransitive(found, before, store.db);
      NoCollisionsWhenOwned(store.db, p.verifiedEmails);
    }

    /**
     * The attempt-counting loop. A returning user is the one the subject was bound to when the last attempt read
     * it; a binding from before the call keeps its identity, and its user too if anything refers to it.
     */
    method Resolve(p: Profile, credential: Option<Credentials.Credential>, inputs: seq<AttemptInput>) returns (r: Outcome)
      requires TablesOk(store.db) && NoDuplicates(p.verifiedEmails)
      requires |inputs| == MAX_RESOLUTION_ATTEMPTS
      requires forall k :: 0 <= k < |inputs| ==> WellFormedInput(inputs[k])
      modifies store
      ensures TablesOk(store.db) && Settled(old(store.db), store.db)
      ensures r == Thrown(Conflict) <==> LosesBefore(old(store.db), p, credential, inputs, MAX_RESOLUTION_ATTEMPTS)
      ensures r != Thrown(Conflict) ==>
                exists k: nat :: k < |inputs| && EndsAt(old(store.db), p, credential, inputs, k, r, store.db)
      ensures r.Signed? ==> forall i :: IsRowOf(old(store.db), i, p.issuer, p.subject) ==>
                && i == r.identityId && !r.isNewUser
                && (Named(old(store.db), i, old(store.db).identities[i].userId) ==> r.userId == old(store.db).identities[i].userId)
      ensures r.Thrown? && r.failure.AccountLinkRequired? ==>
                r.failure.count > 0 && r.failure.count == |Conflicts(store.db.claims, p.verifiedEmails, None)|
      ensures r == Thrown(Conflict) ==> store.db == AtFind(old(store.db), inputs, MAX_RESOLUTION_ATTEMPTS)
    {
      var attempt := 1;
      ghost var start := store.db;
      while attempt <= MAX_RESOLUTION_ATTEMPTS
        invariant 1 <= attempt <= MAX_RESOLUTION_ATTEMPTS
        invariant TablesOk(store.db) && Settled(start, store.db) && store.db == AtFind(start, inputs, attempt - 1)
        invariant LosesBefore(start, p, credential, inputs, attempt - 1)
      {
        ghost var found := store.db;
        var outcome := Attempt(p, credential, inputs[attempt - 1]);
        SettledTransitive(start, found, store.db);
        if outcome.Some? {
          Decides(start, p, credential, inputs, attempt - 1, outcome.value, store.db);
          if outcome.value.Signed? {
            SignsTheOldBinding(start, found, store.db, p, outcome.value);
          }
          return outcome.value;
        }
        LosesOnceMore(start, p, credential, inputs, attempt - 1);
        if attempt == MAX_RESOLUTION_ATTEMPTS {
          return Thrown(Conflict);
        }
        attempt := attempt + 1;
      }
      return Thrown(Conflict);
    }
  }

  /** A success: on the subject's identity, as a new user or the user bound when it was found, with exact collisions. */
  ghost predicate EndsWell(found: Db, after: Db, p: Profile, r: Outcome)
    requires r.Signed?
  {
    && IsRowOf(after, r.identityId, p.issuer, p.subject)
    && r.collisions == |Conflicts(after.claims, p.verifiedEmails, Some(r.userId))|
    && (if r.isNewUser
        then Bound(after, p, r.identityId, r.userId) && AllOwned(after, p.verifiedEmails, r.userId)
             && r.identityId !in found.identities && r.userId !in found.users
        else Bound(found, p, r.identityId, r.userId) && AllClaimed(after, p.verifiedEmails))
  }

  /**
   * A sign-in ends on the identity that the subject had before, if it had one, and on the user it had then if a
   * claim, session or code refers to that binding.
   */
  lemma SignsTheOldBinding(before: Db, found: Db, after: Db, p: Profile, r: Outcome)
    requires Settled(before, found) && Settled(before, after) && UniqueBindings(after)
    requires r.Signed? && EndsWell(found, after, p, r)
    ensures forall i :: IsRowOf(before, i, p.issuer, p.subject) ==>
              && i == r.identityId && !r.isNewUser
              && (Named(before, i, before.identities[i].userId) ==> r.userId == before.identities[i].userId)
  {
    forall i | IsRowOf(before, i, p.issuer, p.subject)
      ensures i == r.identityId && !r.isNewUser
      ensures Named(before, i, before.identities[i].userId) ==> r.userId == before.identities[i].userId
    {
      OnlyRowOfSubject(before, after, p, i, r.identityId);
    }
  }

  lemma NoCollisionsWhenOwned(db: Db, emails: seq<Email>)
    ensures forall userId :: AllOwned(db, emails, userId) ==> |Conflicts(db.claims, emails, Some(userId))| == 0
  {
    forall userId | AllOwned(db, emails, userId) ensures |Conflicts(db.claims, emails, Some(userId))| == 0 {
      assert Conflicts(db.claims, emails, Some(userId)) == {};
    }
  }
}
