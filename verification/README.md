# Guarantees of the OpenOutposts control plane

The control plane keeps its hard promises in tables that many requests change at once, through guarded SQL
statements and atomic batches, and in a few byte formats. This project models those tables, statements,
interleavings and formats in Dafny and proves what they promise. `dafny verify dfyconfig.toml` checks all of it.

## How it is built

Every table is mutable state and every SQL statement or `db.batch` is one atomic step on it. An asynchronous
method is modelled twice where races matter:

- as a class method that reads like the original; what other callers commit while it is suspended is an input
  (`afterRead`, `beforeCommit`, ...), arbitrary and run through `Await`;
- as a state machine whose events are the segments between its awaits, so that theorems speak of every
  interleaving, including calls that stop midway.

The first shows what one call answers and leaves behind, the second what every run keeps. Pure code is functions
and lemmas; loops and in-place algorithms are methods proved against a specification function.

| files | component |
|---|---|
| `ApiTokens`, `WebSessions`, `WebSessionInvariants`, `WebSessionTheorems`, `WebSessionAnswers`, `WebSessionService` | rotating refresh-token families |
| `SignInIdentities`, `SignInResolver`, `SignInRelinks`, `SignInLoop` | resolving sign-ins to users |
| `ProviderCredentials`, `ProviderCredentialRuns` | versioned, version-bound ciphertext rows |
| `Automations`, `AutomationRuns` | automation invocations, runs and their derived status |
| `BrowserAuthSessions`, `OAuthAuthorizationCodes`, `OAuthFlowState` | sliding sessions and single-use grants |
| `OutpostProofs`, `OutpostEnrollments`, `OutpostConnect` | machine proofs, machine enrollment, and the key that links them |
| `SshWire`, `OpenSshKeys`, `SshSignatures` | SSH wire format (section 5 of RFC 4251), OpenSSH Ed25519 keys (section 4 of RFC 8709), SSHSIG |
| `QueryCanonicalization`, `ServiceAuth`, `ServiceSignature`, `CanonicalRequests` | the `sig1` canonical query (section 2.1 of RFC 3986), twice, and the signed text |
| `EncryptionContexts`, `CanonicalText` | the text that binds a ciphertext to its storage location |
| `InstallationTokens` | the single-flight cache of GitHub installation tokens |

## Assumptions

- The clock never goes back. SHA-256 is injective. Generated ids and tokens are new, and a token that was never
  handed out is never presented.
- Authenticated encryption is symbolic: opening needs the binding the value was sealed under.
- Statements and batches are atomic and serialized; a constraint error undoes its whole batch. Primary keys,
  UNIQUE indexes, CHECKs and foreign keys are those of the migrations.
- `Array.prototype.sort` is the stable sort that its language defines, and `URLSearchParams` parses as its
  standard says, with the platform's lossy UTF-8 decoding a parameter of the theorems.
- A caller of the automation store draws fresh invocation ids, gives a child its invocation's automation, uses the
  scope of the invocation's concurrency key, and never writes a run's status back to `starting`.
- The two compensating revocations of a lost redemption run in either order.
- The stores of sessions and authorization codes take the owner of an identity as given: the pairs their rows refer to
  cannot move (`ReferredBindingIsPermanent`).

## Where the code and its own words differ

The model follows the code. Each difference is proved.

- Losing the race to consume a refresh token does not revoke the family, whatever the comment at
  `packages/control-plane/src/auth/web-session-tokens.ts:190-191` says; only a replay past the grace window does
  (`OwnStepRevokesIff` and `RevocationIsReachedIff`; `SupersededWithALiveWinner` is such a lost race).
- `refresh_superseded` does not mean that a winner's pair is live, as the comment at lines 54-57 of that file says:
  the pair may have been revoked since, or no call may have won at all. `SupersededMeansLiveIff` gives the exact
  condition; `SupersededWithoutAWinner`, `SupersededByARevokedWinner` and `ReplayOfARevokedWinner` are the ways it
  fails.
- A sign-in binding can change its user, although the comment at
  `packages/control-plane/src/auth/browser-sign-in-identity.ts:102-106` says that a binding is never silently
  reparented. The resolver itself never does it, but `UserStore`
  (`packages/control-plane/src/db/user-store.ts:276-293`) writes the same rows and re-links an identity whose user
  has no email. `BindingMovesIff`, `BindingCanMoveIff` and `SameSubjectSameUserIff` say exactly when,
  `NewBindingIsPermanentIff` what protects a binding, and `OneSubjectTwoUsers` is a run.
- A prepared upsert can overwrite a credential its writer never read, because versions restart at 1 after a
  deletion (`VersionsRestartAfterADelete`); `UpsertCommitsInHistoryIff` gives the exact condition, and without
  deletions it cannot (`StaleWriterFails`).
- A browser session that has idled out revives when a touch whose clock reading is older lands after the expiry
  (`LateTouchRevivesIff` gives the exact condition).
- The margin of a connect nonce is exactly 60 seconds between reading the clock and committing (`SingleUseIff`).
- Two refreshes of one key can run at once exactly after something forced or invalidated over a refresh under way
  (`OverlapFollowsIff`, `InvalidatingLeadsToTwo`, `ForcedOverlapRunsTwoAtOnce`).
- The order of query entries matters exactly when a key holds a NUL in such a way that two different entries share
  a sort key (`OrderIsIrrelevantIff`, `TiedQueryShowsItsOrder`).
- A suppressed invocation batch with an id that is already stored does add its children
  (`SuppressedBatchAddsChildrenIff`, `ASuppressedBatchAddsItsChild`).

## Model

| member | source | states |
|---|---|---|
| `WebSessionTheorems.RevokedFamilyIsDeadForever` | `packages/control-plane/src/auth/web-session-tokens.ts:193-248` | after a family revocation commits, however the calls in flight continue or stop, nobody receives another token of the family, its chain never grows, and no held token of it verifies or may be rotated |
| `WebSessionInvariants.ConsumedFamilyIsLive` | `packages/control-plane/src/db/api-tokens.ts:153-162` | the compare-and-set succeeds only in a family that was never revoked: the guard on the revocation time is what makes revocation final |
| `WebSessionTheorems.FamilyIsOnePath` | `packages/control-plane/src/auth/web-session-tokens.ts:109-164` | until a day past the cap the stored rotation links form one simple path of rows with one user, subject and cap, only its end unconsumed; afterwards it disappears only as a whole |
| `WebSessionTheorems.DeliveredLiesOnPath` | `packages/control-plane/src/auth/web-session-tokens.ts:228-247` | every refresh token handed out lies on its family path, which starts at the exchange-minted one; a redeemed token follows the one it was redeemed for |
| `WebSessionTheorems.RedeemsAtMostOnce` | `packages/control-plane/src/db/api-tokens.ts:153-162` | no two calls redeem the same refresh token, in any interleaving |
| `WebSessionTheorems.NothingOutlivesTheCap` | `packages/control-plane/src/auth/web-session-tokens.ts:102-127` | however many rotations, no token of a family is accepted or redeemable at or after the first mint plus 90 days |
| `WebSessionTheorems.SweepIsInvisible` | `packages/control-plane/src/db/api-tokens.ts:186-206` | deleting expired rows never changes which tokens are accepted or redeemable, now or later |
| `WebSessionTheorems.ReplayIsNeverUnknown` | `packages/control-plane/src/auth/web-session-tokens.ts:204-213` | until 24 hours past the cap a consumed token and its successor are stored, so a replay is judged a replay of its family |
| `WebSessionTheorems.CompensationSparesHeldTokens` | `packages/control-plane/src/auth/web-session-tokens.ts:230-243` | compensation only ever revokes rows nobody holds and that no chain contains |
| `WebSessionTheorems.LostRaceHasWinnerIffLinked` | `packages/control-plane/src/auth/web-session-tokens.ts:228-243` | while its row is stored, a token whose compare-and-set is pending or lost was redeemed by some call exactly when the row is linked to a successor |
| `WebSessionAnswers.SupersededMeansLiveIff` | `packages/control-plane/src/auth/web-session-tokens.ts:50-66` | in every reachable state, whichever way a call came to answer `refresh_superseded`: some winner's pair is live exactly when the presented row is linked to a stored successor which, with the access row minted beside it, is neither revoked nor expired |
| `WebSessionAnswers.WinnersPairIsLiveIff` | `packages/control-plane/src/auth/web-session-tokens.ts:228-247` | the same for any presented row, answered or not: who redeemed a token, and whether the pair is live, can be read off the stored rows |
| `WebSessionAnswers.SupersededArisesIff` | `packages/control-plane/src/auth/web-session-tokens.ts:204-245` | a step gives that answer exactly when it ends a loser's compensation, or judges a replay whose successor is stored and within the grace window |
| `WebSessionAnswers.CheckOutcomeIff` | `packages/control-plane/src/auth/web-session-tokens.ts:193-236` | on the columns of the row that was read, a call goes on to mint exactly when the row is unconsumed, unrevoked and before its own expiry and the cap, goes to the replay checks exactly when it is consumed, and is refused otherwise; what it will mint |
| `WebSessionAnswers.OwnStepRevokesIff` | `packages/control-plane/src/auth/web-session-tokens.ts:204-221` | of a call's own steps only the revocation after a replay revokes a family: a lost race never does |
| `WebSessionAnswers.RevocationIsReachedIff` | `packages/control-plane/src/auth/web-session-tokens.ts:204-217` | a call comes to that revocation exactly when the replayed token's successor is missing or older than the grace window |
| `WebSessionAnswers.SupersededWithALiveWinner` | `packages/control-plane/src/auth/web-session-tokens.ts:228-243` | a lost race after which the family is not revoked and the winner's pair is live |
| `WebSessionAnswers.SupersededWithoutAWinner` | `packages/control-plane/src/auth/web-session-tokens.ts:228-243` | a run that answers `refresh_superseded` though no call ever redeemed the token: it lost to a revocation |
| `WebSessionAnswers.SupersededByARevokedWinner` | `packages/control-plane/src/auth/web-session-tokens.ts:228-243` | a run that answers it to the loser of a race whose winner's pair was revoked before the compare-and-set |
| `WebSessionAnswers.ReplayOfARevokedWinner` | `packages/control-plane/src/auth/web-session-tokens.ts:204-213` | a run that answers it to a replay inside the grace window although the successor is revoked |
| `WebSessionTheorems.RunKeeps` | `packages/control-plane/src/auth/web-session-tokens.ts:98-248` | every run of mints, redemptions cut at their awaits, revocations and sweeps keeps the invariant on rows, chains, calls and revocations |
| `WebSessionInvariants.CommitAdmitted` | `packages/control-plane/src/db/api-tokens.ts:108-130` | the mint batch of a reachable call always meets the primary key and the unique token hash |
| `WebSessionService.WebSessionTokenService.RedeemRefreshToken` | `packages/control-plane/src/auth/web-session-tokens.ts:193-248` | with arbitrary statements of others at every await: a pair is handed out exactly for a refresh row of a verified subject and a family that is unconsumed, unrevoked and before both its own expiry and the cap, whose mint the keys admit and which is still open at the compare-and-set; its expiries, every other answer, and the exact table left behind |
| `WebSessionService.WebSessionTokenService.MintPairInFamily` | `packages/control-plane/src/auth/web-session-tokens.ts:109-164` | minted exactly when both ids and both tokens are new; both rows column by column, expiring after 8 hours and 30 days but no later than the family cap; stored as a whole or not at all |
| `WebSessionService.WebSessionTokenService.MintPair` | `packages/control-plane/src/auth/web-session-tokens.ts:102-107` | a fresh family capped 90 days after the exchange, minted exactly when ids and tokens are new, expiring after 8 hours and 30 days within the cap |
| `WebSessionService.WebSessionTokenService.VerifyAccessToken` | `packages/control-plane/src/auth/web-session-tokens.ts:166-191` | each answer exactly when, on the columns of the token's row: accepted when it is an access row of a verified subject and a family, unrevoked and unexpired, and then for that subject |
| `ApiTokens.ApiTokenStore.CreatePair` | `packages/control-plane/src/db/api-tokens.ts:108-130` | both rows or none: a constraint error undoes the first insert |
| `ApiTokens.ApiTokenStore.ConsumeRefreshToken` | `packages/control-plane/src/db/api-tokens.ts:153-162` | true exactly when the row was neither consumed nor revoked; then only its successor link changes |
| `ApiTokens.ApiTokenStore.RevokeFamily` | `packages/control-plane/src/db/api-tokens.ts:164-169` | every row of the family ends revoked, the first revocation time kept, every other row unchanged |
| `ApiTokens.ApiTokenStore.RevokeToken` | `packages/control-plane/src/db/api-tokens.ts:171-177` | revokes one row, keeping an earlier revocation time |
| `ApiTokens.ApiTokenStore.DeleteExpired` | `packages/control-plane/src/db/api-tokens.ts:186-206` | removes exactly the rows 24 hours past their cap, or past expiry where there is no cap, and counts them |
| `SignInResolver.SubjectsAndOwnersNeverChange` | `packages/control-plane/src/db/browser-sign-in-identities.ts:106-213` | in every interleaving of sign-ins with the writers of the same tables, the subject an identity belongs to and the owner of an email claim never change once written, and a subject keeps one identity |
| `SignInResolver.SameSubjectSameIdentity` | `packages/control-plane/src/auth/browser-sign-in-identity.ts:110-156` | all calls that succeed for one subject return the same identity, and each a user it was bound to when the call read it |
| `SignInRelinks.BindingMovesIff` | `packages/control-plane/src/db/user-store.ts:276-293` | a step changes the user of a binding exactly when a re-link of that identity to another user lands while no claim, session or code refers to the old pair |
| `SignInRelinks.BindingHistoryIsItsRelinks` | `packages/control-plane/src/db/user-store.ts:276-293` | along every run the users an identity has been bound to are the earlier ones followed by those of its landed re-links |
| `SignInRelinks.ReferredBindingIsPermanent` | `terraform/d1/migrations/0055_terminal_browser_auth.sql:31-33` | a binding that a verified claim, session or code refers to keeps its user for ever |
| `SignInRelinks.BindingCanMoveIff` | `packages/control-plane/src/db/user-store.ts:250-293` | some run moves a binding exactly when nothing refers to it and its user has no email, or a legacy resolver has already read so |
| `SignInRelinks.SameSubjectSameUserIff` | `packages/control-plane/src/auth/browser-sign-in-identity.ts:102-156` | every later sign-in that resolves to an identity returns its present user exactly when its binding cannot move |
| `SignInRelinks.NewBindingIsPermanentIff` | `packages/control-plane/src/auth/browser-sign-in-identity.ts:158-183` | the binding of a new user is permanent exactly when the sign-in verified an email |
| `SignInRelinks.OneSubjectTwoUsers` | `packages/control-plane/src/db/user-store.ts:276-293` | a run from empty tables in which two sign-ins of one subject return two users |
| `SignInResolver.AtMostOneNewUser` | `packages/control-plane/src/auth/browser-sign-in-identity.ts:158-183` | at most one call per subject reports a new user |
| `SignInResolver.SomeCallReportedTheNewUser` | `packages/control-plane/src/auth/browser-sign-in-identity.ts:158-183` | a subject unbound at the start and resolved now was created by some call that reported a new user |
| `SignInResolver.ConflictMeansThreeRejections` | `packages/control-plane/src/auth/browser-sign-in-identity.ts:110-156` | a conflict is thrown exactly by a call whose three batches the database rejected |
| `SignInResolver.NewUserOwnsItsEmails` | `packages/control-plane/src/db/browser-sign-in-identities.ts:106-155` | a new user owns every verified email it signed in with, ever after |
| `SignInResolver.CollisionCountStaysExact` | `packages/control-plane/src/db/browser-sign-in-identities.ts:87-104` | the collision count a call was told equals the conflicting claims then and ever after |
| `SignInResolver.RunKeeps` | `packages/control-plane/src/auth/browser-sign-in-identity.ts:107-210` | every run keeps the invariant tying calls, attempts, bindings and generated ids together |
| `SignInResolver.NormalizeIdentityEvidence` | `packages/control-plane/src/auth/browser-sign-in-identity.ts:56-93` | accepts only the canonical issuer and a subject; the emails kept are exactly the distinct non-empty forms, at most 1000, and hold the primary one |
| `SignInLoop.BrowserSignInIdentityResolver.Resolve` | `packages/control-plane/src/auth/browser-sign-in-identity.ts:110-156` | the attempt-counting loop under interference: it ends with the answer of the first attempt that does not lose, and with a conflict exactly when all three lose, leaving only what others did; a success is bound to its subject, reuses an identity that existed before, keeps its user if anything refers to that binding, and reports exact collisions |
| `SignInLoop.BrowserSignInIdentityResolver.Attempt` | `packages/control-plane/src/auth/browser-sign-in-identity.ts:114-152` | each answer exactly when, on the tables as read, counted and committed: adapter mismatch, account linking, refused credential, foreign key error, a new user under the generated ids, a refresh of the subject's row, or another attempt |
| `SignInLoop.MachineFinds` | `packages/control-plane/src/auth/browser-sign-in-identity.ts:114-123` | the state machine's read segment is decided by the same columns: no row, another adapter's row, or the row to refresh |
| `SignInLoop.MachineCreatesIff` | `packages/control-plane/src/auth/browser-sign-in-identity.ts:136-152` | the state machine's create segment is decided by the same columns: a new user exactly when no key is taken at the commit, else a retry |
| `SignInLoop.MachineRefreshesIff` | `packages/control-plane/src/auth/browser-sign-in-identity.ts:120-134` | and so is its refresh segment: the foreign key error, a retry exactly when the credential was overtaken, else the refresh |
| `SignInLoop.UpsertWritesTheNextVersion` | `packages/control-plane/src/db/provider-credentials.ts:274-327` | a refresh that is not overtaken writes the credential under the version after the one that was read |
| `SignInLoop.BrowserSignInIdentityResolver.CreateIdentity` | `packages/control-plane/src/auth/browser-sign-in-identity.ts:158-183` | a committed create returns the generated ids and writes the user, identity and credential rows given column by column; it is retried exactly when a key is taken at the commit |
| `SignInLoop.BrowserSignInIdentityResolver.RefreshExisting` | `packages/control-plane/src/auth/browser-sign-in-identity.ts:185-210` | each failure with its cause; a committed refresh returns the binding it was given, with every verified email claimed by someone; a retryable conflict leaves only what others did |
| `SignInLoop.SignsTheOldBinding` | `packages/control-plane/src/auth/browser-sign-in-identity.ts:110-156` | a sign-in ends on the identity the subject had before it started, if it had one, and on the user of that time if a claim, session or code refers to the pair |
| `SignInIdentities.BrowserSignInIdentityStore.Create` | `packages/control-plane/src/db/browser-sign-in-identities.ts:106-155` | user, identity, claims and credential together, column by column, or nothing when any key is taken |
| `SignInIdentities.BrowserSignInIdentityStore.Refresh` | `packages/control-plane/src/db/browser-sign-in-identities.ts:157-213` | identity columns, the user's own claims and new claims together, or nothing: when the credential statement aborts, a retryable conflict; when a new claim would name a pair that has been re-linked, the foreign key error |
| `SignInIdentities.BrowserSignInIdentityStore.CountConflictingEmails` | `packages/control-plane/src/db/browser-sign-in-identities.ts:87-104` | counts the given emails that another user owns |
| `SignInIdentities.BrowserSignInIdentityStore.FindByIssuerAndSubject` | `packages/control-plane/src/db/browser-sign-in-identities.ts:72-85` | finds a row of the subject exactly when there is one |
| `ProviderCredentialRuns.StoredRowIsTheLastWriters` | `packages/control-plane/src/db/provider-credentials.ts:394-430` | in every reachable state, with prepared statements run arbitrarily late and rows deleted in between, each row is bound to its own kind, role, key version and row version and decrypts to the last committed writer's credential |
| `ProviderCredentialRuns.NoLostUpdate` | `packages/control-plane/src/db/provider-credentials.ts:461-496` | without deletes commit k + 1 observed commit k, and the row version counts the commits |
| `ProviderCredentialRuns.UpsertCommitsIff` | `packages/control-plane/src/db/provider-credentials.ts:274-327` | a prepared upsert commits exactly when the row is gone or still carries the version that was read; otherwise its CHECK aborts the batch |
| `ProviderCredentialRuns.VersionCountsTheWritesSinceADelete` | `packages/control-plane/src/db/provider-credentials.ts:274-327` | across deletes a row is stored exactly when something was written since the last one, and its version counts those writes from the version of the first; it is their number exactly when the first carried version 1 |
| `ProviderCredentialRuns.UpsertCommitsInHistoryIff` | `packages/control-plane/src/db/provider-credentials.ts:274-327` | from the history alone: a prepared upsert commits exactly when nothing was written since the last delete, or those writes end at the version it read |
| `ProviderCredentialRuns.AStaleUpsertSkipsAVersion` | `packages/control-plane/src/db/provider-credentials.ts:274-327` | a run in which a stale upsert over a gap stores version 2 as the only write since the delete |
| `ProviderCredentialRuns.StaleWriterFails` | `packages/control-plane/src/db/provider-credentials.ts:274-327` | without deletes a prepared upsert commits exactly when nothing was written since its writer read, and a prepared insert exactly when nothing was ever written |
| `ProviderCredentialRuns.VersionsRestartAfterADelete` | `packages/control-plane/src/db/provider-credentials.ts:274-327` | a reachable run with a delete in which an upsert passes the version check over a credential it never read |
| `ProviderCredentialRuns.RunKeeps` | `packages/control-plane/src/db/provider-credentials.ts:235-612` | every run keeps rows, pending statements and the commit log in agreement |
| `ProviderCredentials.ProviderCredentialStore.UpsertFromSignIn` | `packages/control-plane/src/db/provider-credentials.ts:333-376` | writes on the first attempt whose read version is still there at its write, and conflicts exactly when there is none in four; each lost attempt is charged to a change another caller committed meanwhile; a malformed credential is refused and writes nothing |
| `ProviderCredentials.ProviderCredentialStore.TryUpsert` | `packages/control-plane/src/db/provider-credentials.ts:339-373` | an attempt fails only if another caller changed the row between its read and its write |
| `ProviderCredentials.ADifferenceIsAChange` | `packages/control-plane/src/db/provider-credentials.ts:461-496` | statements that leave a row different, or leave a failed guard, contain an effective change of that row |
| `ProviderCredentials.InitialInsertReadsBack` | `packages/control-plane/src/db/provider-credentials.ts:247-272` | run on a free key, the prepared insert leaves a row that opens to exactly the credential at version 1; on a taken key it aborts its batch |
| `ProviderCredentials.RowOpensIff` | `packages/control-plane/src/db/provider-credentials.ts:394-430` | each ciphertext of a row opens under its own identity, kind, role, key version and row version, and under no other; the other columns |
| `ProviderCredentials.ProviderCredentialStore.PrepareSignInUpsert` | `packages/control-plane/src/db/provider-credentials.ts:274-327` | an insert when there is no row, else an upsert sealed for the version after the one read |
| `ProviderCredentials.ProviderCredentialStore.Get` | `packages/control-plane/src/db/provider-credentials.ts:498-573` | returns a credential exactly when the row is that credential sealed for its own version; otherwise the row is corrupt |
| `ProviderCredentials.ProviderCredentialStore.InvalidateObservedVersion` | `packages/control-plane/src/db/provider-credentials.ts:575-588` | deletes exactly the observed version |
| `ProviderCredentials.ProviderCredentialStore.ReplaceObservedVersion` | `packages/control-plane/src/db/provider-credentials.ts:590-612` | replaces exactly the observed version and raises it by one, else reports a conflict and changes nothing |
| `AutomationRuns.AtMostOneActivePerScope` | `packages/control-plane/src/db/automation-store.ts:780-899` | over every run an automation has at most one automation-scoped invocation with active runs and one per concurrency key; every run row belongs to a stored invocation of its automation |
| `AutomationRuns.SuppressedFiringOnlyAdvances` | `packages/control-plane/src/db/automation-store.ts:818-899` | an overlap-suppressed batch adds neither invocation nor child and still advances the schedule |
| `AutomationRuns.SuppressedBatchAddsChildrenIff` | `packages/control-plane/src/db/automation-store.ts:845-885` | without the fresh-id duty, a suppressed batch adds children exactly when its id already names an invocation |
| `AutomationRuns.ASuppressedBatchAddsItsChild` | `packages/control-plane/src/db/automation-store.ts:845-885` | a table and a suppressed batch that adds its child |
| `AutomationRuns.TerminalIsFinal` | `packages/control-plane/src/db/automation-store.ts:663-708` | once all children are terminal, the derived status and completion time never change again |
| `AutomationRuns.StatusOnlyMovesForward` | `packages/control-plane/src/db/automation-store.ts:202-244` | the derived status never goes back from running to starting or from an outcome to either |
| `AutomationRuns.FailureCountedAtMostOnce` | `packages/control-plane/src/db/automation-store.ts:994-1004` | however callbacks race, at most one wins the right to count an invocation's failure |
| `Automations.SqlAgreesWithTwin` | `packages/control-plane/src/db/automation-store.ts:202-244` | the SQL status expression and its TypeScript twin agree on every list of child runs |
| `Automations.StatusMeaning` | `packages/control-plane/src/db/automation-store.ts:202-214` | what each derived status says about which child states are present |
| `Automations.CompletionMeaning` | `packages/control-plane/src/db/automation-store.ts:217-221` | an invocation has a completion time exactly when no child is active and some child completed, and then it is the latest one |
| `Automations.Aggregate` | `packages/control-plane/src/db/automation-store.ts:958-992` | one pass computes the sums, and the latest completion time if there is one |
| `Automations.AutomationStore.InsertInvocationGuarded` | `packages/control-plane/src/db/automation-store.ts:818-899` | answers false exactly when the automation has an active run, in key scope one of an invocation that carries this very key; otherwise the invocation and all its children are stored; fails, and changes nothing, exactly when a key it needs is taken or its automation is missing; only a live automation's schedule moves |
| `Automations.AutomationStore.InsertSkippedInvocation` | `packages/control-plane/src/db/automation-store.ts:908-948` | a recorded skip adds no run and advances the schedule even when it is ignored, exactly because a key of it is taken; for an automation that does not exist the batch fails and changes nothing |
| `Automations.AutomationStore.UpdateRun` | `packages/control-plane/src/db/automation-store.ts:663-695` | patches exactly the named fields of an active run; a terminal run absorbs every update |
| `Automations.AutomationStore.BulkFailRuns` | `packages/control-plane/src/db/automation-store.ts:697-708` | fails exactly the listed active runs |
| `Automations.AutomationStore.TryMarkInvocationFailureCounted` | `packages/control-plane/src/db/automation-store.ts:994-1004` | the compare-and-set wins exactly once per invocation |
| `OpenSshKeys.ParserIsSound` | `packages/control-plane/src/auth/openssh-ed25519.ts:191-222` | anything accepted is the encoding of the returned key under some check value and comment |
| `OpenSshKeys.ParserIsComplete` | `packages/control-plane/src/auth/openssh-ed25519.ts:191-222` | every encoding of a key pair, check value and comment is accepted and yields that public key and seed |
| `OpenSshKeys.EncodingDeterminesTheKey` | `packages/control-plane/src/auth/openssh-ed25519.ts:191-222` | one byte string encodes one key pair |
| `OpenSshKeys.EncodingBytes` | `packages/control-plane/src/auth/openssh-ed25519.ts:191-222` | the accepted encodings byte by byte: literal header, lengths and key type, both halves, and counting padding |
| `OpenSshKeys.PrivateBlobTakenIff` | `packages/control-plane/src/auth/openssh-ed25519.ts:114-157` | private fields followed by any bytes are accepted exactly when those bytes are the block's own padding, 1 to 8 counting bytes |
| `OpenSshKeys.OnlyPadding` | `packages/control-plane/src/auth/openssh-ed25519.ts:140-152` | exactly one padding completes a block; zero padding is refused even when the block is aligned |
| `OpenSshKeys.ParseOpenSshEd25519PrivateKey` | `packages/control-plane/src/auth/openssh-ed25519.ts:191-222` | the reader-driven parser computes the format's own reading of the decoded bytes |
| `OpenSshKeys.ParsePrivateKeyBlob` | `packages/control-plane/src/auth/openssh-ed25519.ts:114-157` | check values, key type, matching halves and padding, read in order, exactly as the format defines |
| `OpenSshKeys.ParsePublicKeyBlob` | `packages/control-plane/src/auth/openssh-ed25519.ts:101-112` | the key type, 32 bytes, and nothing after them |
| `OpenSshKeys.EqualBytes` | `packages/control-plane/src/auth/openssh-ed25519.ts:75-83` | the accumulating xor loop decides equality |
| `SshWire.ConcatenatedStringsReadBack` | `packages/control-plane/src/auth/sshsig.ts:42-63` | the writers' concatenation of encoded strings is read back in order, with the rest left over |
| `SshWire.TakeWrittenStringIff` | `packages/control-plane/src/auth/sshsig.ts:42-53` | a written string is read back exactly when its length fits 32 bits |
| `SshWire.TakenStringWasWritten` | `packages/control-plane/src/auth/openssh-ed25519.ts:52-61` | whatever is read as a string was written as that string |
| `SshWire.BinaryReader.ReadBytes` | `packages/control-plane/src/auth/openssh-ed25519.ts:43-51` | takes the next bytes exactly when the buffer still holds them, and never reads past it |
| `SshWire.BinaryReader.ReadUint32` | `packages/control-plane/src/auth/openssh-ed25519.ts:53-56` | reads a big-endian 32-bit number off the front |
| `SshWire.BinaryReader.ReadString` | `packages/control-plane/src/auth/openssh-ed25519.ts:58-60` | reads a length-prefixed string off the front |
| `SshWire.EncodeSshString` | `packages/control-plane/src/auth/sshsig.ts:42-47` | writes the length modulo 2^32 and then the bytes |
| `SshWire.EncodeUint32` | `packages/control-plane/src/auth/sshsig.ts:49-53` | writes four bytes, most significant first |
| `SshWire.BigEndian` | `packages/control-plane/src/auth/sshsig.ts:49-53` | the four bytes weigh 2^24, 2^16, 2^8 and 1 |
| `SshWire.Concatenate` | `packages/control-plane/src/auth/sshsig.ts:55-63` | fills one buffer with the values in order |
| `SshSignatures.SshSigReadsBack` | `packages/control-plane/src/auth/sshsig.ts:20-36` | the signature container carries exactly its key blob and raw signature |
| `SshSignatures.SshSigBytes` | `packages/control-plane/src/auth/sshsig.ts:24-36` | the container byte by byte |
| `SshSignatures.SignedDataBytes` | `packages/control-plane/src/auth/sshsig.ts:9-18` | the signed bytes, byte by byte |
| `SshSignatures.CreateArmoredGitSshSig` | `packages/control-plane/src/auth/sshsig.ts:20-40` | the armour: its two literal lines around the base64 text of the container in full lines of 70 |
| `SshSignatures.SignedDataIsItsOwnDomain` | `packages/control-plane/src/auth/sshsig.ts:9-18` | what is signed is never itself a signature container, and it determines the digest |
| `SshSignatures.CreateSshSig` | `packages/control-plane/src/auth/sshsig.ts:20-36` | the container's bytes, field by field |
| `SshSignatures.CreateGitSshSigSignedData` | `packages/control-plane/src/auth/sshsig.ts:9-18` | the signed bytes, field by field |
| `SshSignatures.ArmorLines` | `packages/control-plane/src/auth/sshsig.ts:37-39` | lines of 70 characters, only the last shorter, whose concatenation is the text |
| `SshSignatures.ArmourUnwraps` | `packages/control-plane/src/auth/sshsig.ts:37-39` | removing the line breaks gives back the wrapped text |
| `BrowserAuthSessions.TracksTheSlidingWindow` | `packages/control-plane/src/db/browser-auth-sessions.ts:267-303` | in whatever order the touches of a run land, the stored expiry is at most the ideal min(latest activity + 7 days, absolute) and less than 24 hours below it |
| `BrowserAuthSessions.RunKeeps` | `packages/control-plane/src/db/browser-auth-sessions.ts:267-289` | in whatever order statements land, expiry and last use never move back, the absolute limit stays, and a revocation stays |
| `BrowserAuthSessions.DeadStaysDead` | `packages/control-plane/src/db/browser-auth-sessions.ts:267-289` | a session dead at some time is dead ever after, under statements whose clock reading is no earlier |
| `BrowserAuthSessions.LateTouchRevivesIff` | `packages/control-plane/src/db/browser-auth-sessions.ts:267-289` | a touch revives a dead session exactly when its clock was read before the idle expiry that has passed when it lands, at least a day after the recorded use |
| `BrowserAuthSessions.AMillisecondLateRevives` | `packages/control-plane/src/db/browser-auth-sessions.ts:267-289` | one millisecond between reading the clock and landing is enough to revive |
| `BrowserAuthSessions.AtMost29Writes` | `packages/control-plane/src/db/browser-auth-sessions.ts:267-289` | however much activity and in whatever order, at most 29 touches write |
| `BrowserAuthSessions.DailyActivityWritesDaily` | `packages/control-plane/src/db/browser-auth-sessions.ts:267-289` | daily activity does write 29 times, so the bound is exact |
| `BrowserAuthSessions.BrowserAuthSessionStore.Create` | `packages/control-plane/src/db/browser-auth-sessions.ts:151-197` | a row valid for 7 days and at most 30, exactly when the input is well formed and every key and the owner reference hold |
| `BrowserAuthSessions.BrowserAuthSessionStore.Authenticate` | `packages/control-plane/src/db/browser-auth-sessions.ts:199-213` | each answer exactly when, on the columns of the credential's row, and the columns it returns |
| `BrowserAuthSessions.BrowserAuthSessionStore.AuthenticateById` | `packages/control-plane/src/db/browser-auth-sessions.ts:219-232` | each answer exactly when, on the columns of the row of this id, and the columns it returns |
| `BrowserAuthSessions.BrowserAuthSessionStore.RevokeById` | `packages/control-plane/src/db/browser-auth-sessions.ts:251-265` | revokes exactly an unrevoked row, once |
| `BrowserAuthSessions.BrowserAuthSessionStore.Revoke` | `packages/control-plane/src/db/browser-auth-sessions.ts:234-249` | revokes exactly the unrevoked row of the credential |
| `BrowserAuthSessions.BrowserAuthSessionStore.TouchQualifyingActivity` | `packages/control-plane/src/db/browser-auth-sessions.ts:267-289` | moves the window of one live row unused for a day to 7 days from now or the absolute limit, and nothing else |
| `OutpostProofs.SingleUseIff` | `packages/control-plane/src/auth/outpost.ts:127-140` | a signed proof is accepted at most once in every run whose batches commit less than `limit` after their clock readings, exactly for limits up to 60 seconds |
| `OutpostProofs.SecondAcceptanceIsLate` | `packages/control-plane/src/auth/outpost.ts:83-140` | a second acceptance of one proof commits at least 60 seconds after its request read the clock, whatever other requests purge |
| `OutpostProofs.LateReplayIsAcceptedTwice` | `packages/control-plane/src/auth/outpost.ts:127-140` | a run with a delay of exactly 60 seconds in which one proof is accepted twice |
| `OutpostProofs.HashNamesTheNonce` | `packages/control-plane/src/auth/outpost.ts:127-127` | the stored hash names the machine and the nonce |
| `OutpostProofs.SignedTextDeterminesTheProof` | `packages/control-plane/src/auth/outpost.ts:39-47` | the signed text determines the method, path, machine, timestamp and nonce |
| `OutpostProofs.SignedText` | `packages/control-plane/src/auth/outpost.ts:39-47` | the signed text, line by line |
| `OutpostProofs.OutpostProofVerifier.VerifyOutpostMachineProof` | `packages/control-plane/src/auth/outpost.ts:53-147` | accepts exactly a holding proof of an allowed machine whose nonce is unspent as the batch runs; otherwise the nonce table is as the others left it |
| `OutpostProofs.OutpostProofVerifier.Spend` | `packages/control-plane/src/auth/outpost.ts:127-140` | purge and insert as one batch: an unexpired nonce undoes the purge; otherwise the expired rows go and the new one lives 5 minutes |
| `OAuthAuthorizationCodes.CodeIsRedeemedAtMostOnce` | `packages/control-plane/src/db/oauth-authorization-codes.ts:224-275` | however batches interleave, a code is exchanged at most once |
| `OAuthAuthorizationCodes.CountsAgree` | `packages/control-plane/src/db/oauth-authorization-codes.ts:263-274` | both statements of a redemption change one row each or none, so the result-invariant error is unreachable |
| `OAuthAuthorizationCodes.RedeemedIff` | `packages/control-plane/src/db/oauth-authorization-codes.ts:224-262` | a batch redeems exactly an open code of its client and redirect URI, created and not expired at its clock reading, for a new credential; the session it creates column by column |
| `OAuthAuthorizationCodes.RunKeepsOk` | `packages/control-plane/src/db/oauth-authorization-codes.ts:224-262` | in every run a consumed code names a session of its own user and identity created at that moment, no two codes share one, and a consumption is final |
| `OAuthAuthorizationCodes.OAuthAuthorizationCodeStore.Redeem` | `packages/control-plane/src/db/oauth-authorization-codes.ts:173-300` | succeeds exactly when the code's columns, the verifier and the generated credential pass on the read and the code is still unconsumed and the credential new as the batch runs; a loser always learns `already_consumed`, never `race_lost` |
| `OAuthAuthorizationCodes.OAuthAuthorizationCodeStore.RunRedemption` | `packages/control-plane/src/db/oauth-authorization-codes.ts:224-262` | consume, then insert the session selected through the consumed code; any constraint undoes both |
| `OAuthAuthorizationCodes.OAuthAuthorizationCodeStore.CurrentRejection` | `packages/control-plane/src/db/oauth-authorization-codes.ts:277-300` | names why the code cannot be redeemed now |
| `OAuthAuthorizationCodes.OAuthAuthorizationCodeStore.Issue` | `packages/control-plane/src/db/oauth-authorization-codes.ts:131-171` | stores one unconsumed row valid for a minute, exactly for well-formed input |
| `OAuthFlowState.FlowIsConsumedAtMostOnce` | `packages/control-plane/src/db/oauth-flow-state.ts:252-262` | each flow state is consumed at most once in any run |
| `OAuthFlowState.OAuthFlowStateStore.Consume` | `packages/control-plane/src/db/oauth-flow-state.ts:201-281` | each answer exactly when, on the columns read and those at the update: hands out what was stored for the state, once; a loser learns `already_consumed`, and a stored row is never corrupt |
| `OAuthFlowState.OAuthFlowStateStore.TakeUp` | `packages/control-plane/src/db/oauth-flow-state.ts:223-281` | every answer after the row was found, with other callers after the read and after the update |
| `OAuthFlowState.OAuthFlowStateStore.Create` | `packages/control-plane/src/db/oauth-flow-state.ts:151-199` | stores the verifier sealed to its own flow, a nonce exactly for Google, for ten minutes |
| `OAuthFlowState.RunKeepsOk` | `packages/control-plane/src/db/oauth-flow-state.ts:144-281` | every run keeps the rows sound and takes back no consumption |
| `OutpostEnrollments.EachEnrollmentOnce` | `packages/control-plane/src/db/outpost-enrollments.ts:83-187` | in any interleaving an enrollment creates at most one outpost and is confirmed at most once |
| `OutpostEnrollments.OutpostMatchesItsEnrollment` | `packages/control-plane/src/db/outpost-enrollments.ts:83-187` | in every reachable state an enrolled outpost has its enrollment's owner, is confirmed exactly when it is, and belongs to no other enrollment |
| `OutpostEnrollments.CountsAlwaysAgree` | `packages/control-plane/src/db/outpost-enrollments.ts:155-186` | in every run both statements of each batch change the same number of rows |
| `OutpostEnrollments.ConfirmCountsAgree` | `packages/control-plane/src/db/outpost-enrollments.ts:155-183` | after a passed read, the two confirmation statements change one row each or none |
| `OutpostEnrollments.RevokedIsNeverConfirmed` | `packages/control-plane/src/db/outposts.ts:69-81` | a machine revoked before confirmation is never confirmed, whatever read its confirmer made earlier |
| `OutpostEnrollments.RunKeepsOk` | `packages/control-plane/src/db/outpost-enrollments.ts:32-188` | every run keeps enrollments and outposts in agreement and their settled columns fixed |
| `OutpostConnect.MachineKeepsItsKey` | `packages/control-plane/src/db/outpost-enrollments.ts:83-187` | whatever is committed later, a stored machine keeps its key, algorithm, fingerprint and owner |
| `OutpostConnect.EnrolledMachineMayProveIff` | `packages/control-plane/src/auth/outpost.ts:53-71` | at any later time an enrolled machine has the key it submitted, and may prove itself exactly once confirmed and while not revoked |
| `OutpostConnect.ProofHoldsUnderTheSubmittedKeyIff` | `packages/control-plane/src/auth/outpost.ts:72-125` | its proof holds exactly when it is complete, timely within two minutes, names the fingerprint, and its signature over the text given here verifies under the submitted key |
| `OutpostEnrollments.OutpostStores.Consume` | `packages/control-plane/src/db/outpost-enrollments.ts:83-136` | true exactly for an unconsumed, uncancelled, unexpired enrollment of this token when id, fingerprint and outpost id are new; then the pending outpost column by column, with the submitted key, and the consumed enrollment; otherwise nothing changes |
| `OutpostEnrollments.OutpostStores.Confirm` | `packages/control-plane/src/db/outpost-enrollments.ts:138-187` | confirms exactly the machine whose read passed and which still awaits confirmation as the batch runs; both rows at once and nothing else |
| `OutpostEnrollments.OutpostStores.Create` | `packages/control-plane/src/db/outpost-enrollments.ts:35-60` | adds one unconsumed enrollment with a new id and token hash |
| `OutpostEnrollments.OutpostStores.RevokeOwned` | `packages/control-plane/src/db/outposts.ts:69-79` | revokes exactly the owner's unrevoked outpost |
| `OutpostEnrollments.OutpostStores.ClaimLegacy` | `packages/control-plane/src/db/outposts.ts:81-95` | claims exactly an unowned, unrevoked outpost, never an enrolled one |
| `QueryCanonicalization.OrderIsIrrelevantIff` | `packages/shared/src/service-auth.ts:89-96` | the order of a query's entries never matters exactly when no two different entries share a sort key |
| `QueryCanonicalization.TiedQueryShowsItsOrder` | `packages/shared/src/service-auth.ts:89-96` | `a%00=b&a=%00b` and its swap hold the same two entries and canonicalize apart |
| `QueryCanonicalization.NulFreeKeysAreTieFree` | `packages/shared/src/service-auth.ts:89-96` | keys without NUL never tie |
| `QueryCanonicalization.PermutationsAgree` | `packages/shared/src/service-auth.ts:89-96` | every permutation of tie-free entries has the same canonical string |
| `QueryCanonicalization.CanonicalSeparatesMultisets` | `packages/shared/src/service-auth.ts:89-96` | different multisets of entries have different canonical strings |
| `QueryCanonicalization.CanonicalFormIsAFixedPoint` | `packages/shared/src/service-auth.ts:89-96` | parsing and canonicalizing the canonical string again changes nothing |
| `QueryCanonicalization.SortIsAStableSort` | `packages/shared/src/service-auth.ts:92-92` | sorted in the byte order of `ByteOrderIff`; a permutation; ties keep their order |
| `QueryCanonicalization.ByteOrderIff` | `packages/shared/src/service-auth.ts:69-80` | the order is upwards: a proper prefix, or the smaller byte at the first difference, comes first |
| `QueryCanonicalization.CanonicalAscends` | `packages/shared/src/service-auth.ts:89-96` | the canonical string, read back, ascends by key, NUL, value and holds the query's entries |
| `QueryCanonicalization.EncodesOneByte` | `packages/shared/src/service-auth.ts:93-95` | letters, digits and nine marks stand for themselves, every other byte is a percent escape in upper-case hexadecimal |
| `QueryCanonicalization.PlusIsASpace` | `packages/shared/src/service-auth.ts:90-91` | a plus and an escaped space mean the same |
| `QueryCanonicalization.ParsesInPieces` | `packages/shared/src/service-auth.ts:90-91` | pieces between ampersands are parsed one after another, empty ones dropped |
| `QueryCanonicalization.QuestionMarkIsDropped` | `packages/shared/src/service-auth.ts:90-91` | one leading question mark is dropped |
| `QueryCanonicalization.StableSortIsUnique` | `packages/shared/src/service-auth.ts:92-92` | any stable sort gives this list, so the algorithm the platform uses does not matter |
| `QueryCanonicalization.JoinParsesBack` | `packages/shared/src/service-auth.ts:93-95` | the joined, percent-encoded entries parse back to the entries |
| `ServiceAuth.CompareUtf8Bytes` | `packages/shared/src/service-auth.ts:69-80` | negative exactly when the first argument is a proper prefix or has the smaller byte at the first difference; zero exactly for equal strings |
| `ServiceAuth.SortEntries` | `packages/shared/src/service-auth.ts:92-92` | sorting the array in place with that comparison gives the stable sort |
| `ServiceAuth.CanonicalizeQuery` | `packages/shared/src/service-auth.ts:89-96` | computes the canonical form, which read back holds the query's entries ascending bytewise by key, NUL, value |
| `ServiceSignature.CompareUtf8Bytes` | `packages/outpost-protocol/src/service-signature.ts:54-62` | the second implementation decides the same order, in the same direction |
| `ServiceSignature.SortEntries` | `packages/outpost-protocol/src/service-signature.ts:67-67` | and sorts to the same list |
| `ServiceSignature.CanonicalizeQuery` | `packages/outpost-protocol/src/service-signature.ts:64-71` | and so does the second implementation |
| `ServiceSignature.CanonicalizeWithBoth` | `packages/outpost-protocol/src/service-signature.ts:64-71` | the two implementations agree on every search string, so what one signs the other verifies |
| `CanonicalRequests.TextDeterminesTheRequest` | `packages/shared/src/service-auth.ts:102-118` | two signed texts are equal exactly when every field is, the method up to letter case |
| `CanonicalRequests.SignedText` | `packages/shared/src/service-auth.ts:102-118` | the signed text, line by line |
| `InstallationTokens.AtMostOneRefreshPerKey` | `packages/control-plane/src/auth/github-app.ts:385-417` | without forcing or invalidating over a refresh, at most one refresh per key is under way in any interleaving |
| `InstallationTokens.SingleFlightSurvivesIff` | `packages/control-plane/src/auth/github-app.ts:385-417` | the recorded refresh stays the running one through a step exactly when the step does not force or invalidate over a refresh under way |
| `InstallationTokens.OverlapFollowsIff` | `packages/control-plane/src/auth/github-app.ts:385-417` | from a state with single flight, a step makes it possible for two refreshes of one key to run at once, with nothing further forced or invalidated, exactly when it forces or invalidates over a refresh under way |
| `InstallationTokens.InvalidatingLeadsToTwo` | `packages/control-plane/src/auth/github-app.ts:344-349` | after invalidating over a refresh, one more caller that finds nothing stored starts a second beside it |
| `InstallationTokens.ForcedOverlapRunsTwoAtOnce` | `packages/control-plane/src/auth/github-app.ts:409-414` | a run in which the cleanup of one refresh forgets a forced one, and a third starts beside it |
| `InstallationTokens.ServedTokensAreUsable` | `packages/control-plane/src/auth/github-app.ts:292-298` | every token served from memory or store had more than 5 minutes left and was cached under 50 minutes ago when checked |
| `InstallationTokens.EveryAnswerIsTheCallersOwn` | `packages/control-plane/src/auth/github-app.ts:362-417` | every answer was issued for the caller's own key, through every cache and shared refresh |
| `InstallationTokens.StoredCopyGoesFirstIff` | `packages/control-plane/src/auth/github-app.ts:325-335` | the stored copy goes before the token expires exactly when at least a second is left, and less than a second early |
| `InstallationTokens.WriteTtlSeconds` | `packages/control-plane/src/auth/github-app.ts:316-342` | nothing for an expired token, else between 1 and 3000 seconds: the 3600 second bound never binds |
| `InstallationTokens.RunKeepsSingleFlight` | `packages/control-plane/src/auth/github-app.ts:385-417` | every gentle run keeps the recorded refresh and the running one the same |
| `InstallationTokens.RunHandsOut` | `packages/control-plane/src/auth/github-app.ts:362-417` | every run, forced or not, keeps tokens with their keys and serves only usable ones |
| `InstallationTokens.InstallationTokenCache.GetOrRefresh` | `packages/control-plane/src/auth/github-app.ts:385-398` | up to the persistent read: serves from memory exactly a token under 50 minutes old with more than 5 left, unless forced; the machine's step |
| `InstallationTokens.InstallationTokenCache.AfterPersistentRead` | `packages/control-plane/src/auth/github-app.ts:399-416` | after the read: serves the stored token exactly if usable, else joins the refresh under way, else begins one; the machine's step |
| `InstallationTokens.InstallationTokenCache.AfterGitHubAnswers` | `packages/control-plane/src/auth/github-app.ts:367-380` | after the HTTP answer: the token is cached as of the start of its refresh, and stored unless expired; the machine's step |
| `InstallationTokens.InstallationTokenCache.CleanUp` | `packages/control-plane/src/auth/github-app.ts:409-411` | the cleanup forgets whichever refresh the key has by then |
| `InstallationTokens.InstallationTokenCache.InvalidateToken` | `packages/control-plane/src/auth/github-app.ts:344-349` | forgets the token in memory and the refresh under way, and nothing else |
| `EncryptionContexts.LocationsEncodeApart` | `packages/control-plane/src/auth/encryption-contexts.ts:29-147` | no two storage locations, built by any constructors, encode to the same text |
| `EncryptionContexts.EncodingIsInjective` | `packages/control-plane/src/auth/crypto.ts:88-104` | accepted contexts with equal encodings are equal |
| `EncryptionContexts.EncodesIff` | `packages/control-plane/src/auth/crypto.ts:95-102` | a context is accepted exactly when every field is non-empty and free of newlines, and then encodes under the scheme's own first line |
| `EncryptionContexts.EncodedText` | `packages/control-plane/src/auth/crypto.ts:88-104` | the encoded text, line by line |
| `EncryptionContexts.ProviderIsRecoverable` | `packages/control-plane/src/auth/encryption-contexts.ts:38-49` | provider and part are recoverable from the key name even when the provider holds colons |
| `EncryptionContexts.OpensOnlyWhereItWasSealed` | `packages/control-plane/src/auth/crypto.ts:121-187` | a value sealed for one location opens there, to its token, and at no other location |
| `EncryptionContexts.LegacyOpensAnywhere` | `packages/control-plane/src/auth/crypto.ts:164-187` | a value from before the scheme is told apart by its prefix and opens at every well-formed location |

## Left out

- HTTP routing and handlers, Slack, Linear and GitHub API calls, logging and UI: plumbing around this code.
- AES-GCM, HKDF, HMAC, SHA and Ed25519 themselves, base64 and PEM: platform functions, symbolic or parameters here; the OpenSSH parser starts from decoded bytes.
- Strings with lone surrogates, which the platform's UTF-8 encoder replaces: texts are sequences of code points, or already their UTF-8 bytes.
- The parser's separate error messages, and its UTF-8 check on the key type, which only chooses between messages: a refusal is one `None`.
- Deriving and checking the key pair from the seed after parsing (`openssh-ed25519.ts:165-189`): platform cryptography.
- Columns nothing modelled reads: `last_used_at` of API tokens, trigger metadata, worker version, platform, workspace roots.
- The row decoders' corrupt cases that the tables' CHECK constraints exclude, for browser sessions and authorization codes.
- Deleting users, which cascades to enrollments, and any cancelling of an enrollment: no writer in the modelled files does either.
- SQL listings and analytics, scheduling, scoped secrets, settings, media and model tables: easy members, or outside the modelled files.
- `service-nonce.ts`: its freshness check and its nonce read the clock separately; the connect nonce is the same idea with one reading.
- Retention of the persistent token store: a read may answer anything ever written under its key, which covers every expiry and eventual consistency.
- ApiTokens.ApiTokenStore.Await: runs the interference that is its input; it models no code of its own, like the other `Await` methods.
- InstallationTokens.InstallationTokenCache.InvalidateToken: does not model the delete in the persistent store (`github-app.ts:351-359`), whose failure is ignored and which other callers may miss; a later read may answer anything ever written under its key, deleted or not.
- `UserStore` apart from the statements it sends to the users and identities a sign-in reads: its lookups for display and its retry loop.
- InstallationTokens.InstallationTokenCache.GetOrRefresh: covers one stretch of code between awaits, like its sibling methods; how the stretches interleave is the machine's matter.
