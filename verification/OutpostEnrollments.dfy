/** Machine enrollment: one enrollment, one outpost, confirmed together. */
module OutpostEnrollments {
  import opened Support

  datatype Enrollment = Enrollment(
    tokenHash: string,
    ownerUserId: string,
    ownerTeamId: Option<string>,
    accessScope: string,
    requestedName: Option<string>,
    issuedAt: int,
    expiresAt: int,
    consumedAt: Option<int>,
    outpostId: Option<string>,
    confirmationCodeHash: Option<string>,
    confirmedAt: Option<int>,
    cancelledAt: Option<int>)

  /** The advisory columns that the machine's own object keeps refreshing. */
  datatype Presence = Presence(name: string, connected: bool, connectedAt: int, lastSeenAt: int, disconnectedAt: Option<int>)

  datatype Outpost = Outpost(
    presence: Presence,
    ownerUserId: Option<string>,
    ownerTeamId: Option<string>,
    publicKey: Option<string>,
    keyAlgorithm: Option<string>,
    keyFingerprint: Option<string>,
    enrolledAt: Option<int>,
    enrolledByUserId: Option<string>,
    confirmedAt: Option<int>,
    revokedAt: Option<int>,
    accessScope: Option<string>)

  datatype Db = Db(users: set<string>, enrollments: map<string, Enrollment>, outposts: map<string, Outpost>)

  datatype NewEnrollment = NewEnrollment(id: string, tokenHash: string, ownerUserId: string, requestedName: Option<string>,
                                         accessScope: string, issuedAt: int, expiresAt: int)

  datatype Machine = Machine(outpostId: string, name: string, publicKey: string, keyFingerprint: string,
                             confirmationCodeHash: string, now: int)

  datatype Confirmation = Confirmation(enrollmentId: string, ownerUserId: string, confirmationCodeHash: string, now: int)

  /** How many rows each of a batch's two statements changed. */
  datatype Outcome = Aborted | Changes(first: nat, second: nat)

  // ---- statements and batches ----

  predicate EnrollmentFits(db: Db, e: NewEnrollment) {
    && e.id !in db.enrollments && e.ownerUserId in db.users
    && forall i | i in db.enrollments :: db.enrollments[i].tokenHash != e.tokenHash
  }

  function Unconsumed(e: NewEnrollment): Enrollment {
    Enrollment(e.tokenHash, e.ownerUserId, None, e.accessScope, e.requestedName, e.issuedAt, e.expiresAt,
               None, None, None, None, None)
  }

  predicate Eligible(db: Db, enrollmentId: string, tokenHash: string, now: int) {
    && enrollmentId in db.enrollments
    && var e := db.enrollments[enrollmentId];
       e.tokenHash == tokenHash && e.consumedAt.None? && e.cancelledAt.None? && e.expiresAt > now
  }

  /** The primary key and the UNIQUE fingerprint of outposts, and the UNIQUE outpost id of enrollments. */
  predicate MachineFits(db: Db, m: Machine) {
    && m.outpostId !in db.outposts
    && (forall o | o in db.outposts :: db.outposts[o].keyFingerprint != Some(m.keyFingerprint))
    && forall i | i in db.enrollments :: db.enrollments[i].outpostId != Some(m.outpostId)
  }

  function Pending(e: Enrollment, m: Machine): Outpost {
    Outpost(Presence(m.name, false, m.now, m.now, None), Some(e.ownerUserId), e.ownerTeamId, Some(m.publicKey), Some("ed25519"),
            Some(m.keyFingerprint), Some(m.now), Some(e.ownerUserId), None, None, Some(e.accessScope))
  }

  function Taken(e: Enrollment, m: Machine): Enrollment {
    e.(consumedAt := Some(m.now), outpostId := Some(m.outpostId), confirmationCodeHash := Some(m.confirmationCodeHash))
  }

  function Consumed(db: Db, enrollmentId: string, tokenHash: string, m: Machine): (Db, Outcome) {
    if !Eligible(db, enrollmentId, tokenHash, m.now) then (db, Changes(0, 0))
    else if !MachineFits(db, m) then (db, Aborted)
    else
      var e := db.enrollments[enrollmentId];
      (db.(outposts := db.outposts[m.outpostId := Pending(e, m)], enrollments := db.enrollments[enrollmentId := Taken(e, m)]),
       Changes(1, 1))
  }

  /** An outpost of this owner that can still be confirmed. */
  predicate Awaiting(db: Db, outpostId: string, ownerUserId: string) {
    && outpostId in db.outposts
    && db.outposts[outpostId].ownerUserId == Some(ownerUserId)
    && db.outposts[outpostId].confirmedAt.None? && db.outposts[outpostId].revokedAt.None?
  }

  predicate Confirmable(db: Db, c: Confirmation) {
    && c.enrollmentId in db.enrollments
    && var e := db.enrollments[c.enrollmentId];
       && e.ownerUserId == c.ownerUserId && e.confirmationCodeHash == Some(c.confirmationCodeHash)
       && e.confirmedAt.None? && e.cancelledAt.None? && e.expiresAt > c.now
       && e.outpostId.Some? && Awaiting(db, e.outpostId.value, c.ownerUserId)
  }

  /** The second statement names the outpost that was read before the batch. */
  function Confirmed(db: Db, c: Confirmation, outpostId: string): (Db, Outcome) {
    var marked :=
      if Confirmable(db, c)
      then db.(enrollments := db.enrollments[c.enrollmentId := db.enrollments[c.enrollmentId].(confirmedAt := Some(c.now))])
      else db;
    var first := if Confirmable(db, c) then 1 else 0;
    if Awaiting(marked, outpostId, c.ownerUserId)
    then (marked.(outposts := marked.outposts[outpostId := marked.outposts[outpostId].(confirmedAt := Some(c.now))]), Changes(first, 1))
    else (marked, Changes(first, 0))
  }

  predicate Revocable(db: Db, outpostId: string, ownerUserId: string) {
    outpostId in db.outposts && db.outposts[outpostId].ownerUserId == Some(ownerUserId) && db.outposts[outpostId].revokedAt.None?
  }

  function RevokedOutpost(o: Outpost, now: int): Outpost {
    o.(revokedAt := Some(now), presence := o.presence.(connected := false, disconnectedAt := Some(now), lastSeenAt := now))
  }

  predicate Claimable(db: Db, outpostId: string) {
    outpostId in db.outposts && db.outposts[outpostId].ownerUserId.None? && db.outposts[outpostId].revokedAt.None?
  }

  /** COALESCE keeps what is already there; `connected_at` is never null. */
  function Claimed(o: Outpost, ownerUserId: string, now: int): Outpost {
    o.(ownerUserId := Some(ownerUserId), enrolledByUserId := Some(ownerUserId),
    enrolledAt := if o.enrolledAt.Some? then o.enrolledAt else Some(o.presence.connectedAt),
    confirmedAt := if o.confirmedAt.Some? then o.confirmedAt else Some(now),
    accessScope := if o.accessScope.Some? then o.accessScope else Some("full"))
  }

  datatype Statement =
    | CreateStatement(enrollment: NewEnrollment)
    | ConsumeStatement(enrollmentId: string, tokenHash: string, machine: Machine)
    | ConfirmStatement(confirmation: Confirmation, outpostId: string)
    | RevokeStatement(outpostId: string, ownerUserId: string, now: int)
    | ClaimStatement(outpostId: string, ownerUserId: string, now: int)
    | PresenceStatement(outpostId: string, presence: Presence)

  function Apply(db: Db, s: Statement): Db {
    match s
    case CreateStatement(e) =>
      if EnrollmentFits(db, e) then db.(enrollments := db.enrollments[e.id := Unconsumed(e)]) else db
    case ConsumeStatement(id, tokenHash, m) => Consumed(db, id, tokenHash, m).0
    case ConfirmStatement(c, o) => Confirmed(db, c, o).0
    case RevokeStatement(o, owner, now) =>
      if Revocable(db, o, owner) then db.(outposts := db.outposts[o := RevokedOutpost(db.outposts[o], now)]) else db
    case ClaimStatement(o, owner, now) =>
      if Claimable(db, o) then db.(outposts := db.outposts[o := Claimed(db.outposts[o], owner, now)]) else db
    case PresenceStatement(o, presence) =>
      if o in db.outposts then db.(outposts := db.outposts[o := db.outposts[o].(presence := presence)]) else db
  }

  // ---- what the writers keep ----

  /** An enrollment and its outpost agree on owner and confirmation. */
  ghost predicate EnrollmentOk(db: Db, id: string)
    requires id in db.enrollments
  {
    var e := db.enrollments[id];
    && e.cancelledAt.None?
    && (e.consumedAt.Some? <==> e.outpostId.Some?) && (e.consumedAt.Some? <==> e.confirmationCodeHash.Some?)
    && (e.outpostId.None? ==> e.confirmedAt.None?)
    && (e.outpostId.Some? ==>
          && e.outpostId.value in db.outposts
          && db.outposts[e.outpostId.value].ownerUserId == Some(e.ownerUserId)
          && db.outposts[e.outpostId.value].confirmedAt == e.confirmedAt)
  }

  ghost predicate Ok(db: Db) {
    && (forall i {:trigger EnrollmentOk(db, i)} :: i in db.enrollments ==> EnrollmentOk(db, i))
    && forall i, j | i in db.enrollments && j in db.enrollments && db.enrollments[i].outpostId.Some? ::
         db.enrollments[i].outpostId == db.enrollments[j].outpostId ==> i == j
  }

  /** An enrollment row keeps everything it was issued with; consumption and confirmation are set once. */
  ghost predicate EnrollmentGrew(e: Enrollment, after: Enrollment) {
    && after.(consumedAt := None, outpostId := None, confirmationCodeHash := None, confirmedAt := None)
       == e.(consumedAt := None, outpostId := None, confirmationCodeHash := None, confirmedAt := None)
    && (e.consumedAt.Some? ==> after.(confirmedAt := None) == e.(confirmedAt := None))
    && (e.confirmedAt.Some? ==> after == e)
  }

  /** An outpost keeps its key, owner, confirmation and revocation, and is never confirmed once revoked. */
  ghost predicate OutpostGrew(o: Outpost, after: Outpost) {
    && after.publicKey == o.publicKey && after.keyAlgorithm == o.keyAlgorithm && after.keyFingerprint == o.keyFingerprint
    && (o.accessScope.Some? ==> after.accessScope == o.accessScope)
    && (o.ownerUserId.Some? ==> after.ownerUserId == o.ownerUserId)
    && (o.confirmedAt.Some? ==> after.confirmedAt == o.confirmedAt)
    && (o.revokedAt.Some? ==> after.revokedAt == o.revokedAt && after.confirmedAt == o.confirmedAt)
  }

  ghost predicate Grew(db: Db, after: Db) {
    && (forall i :: i in db.enrollments ==> i in after.enrollments && EnrollmentGrew(db.enrollments[i], after.enrollments[i]))
    && (forall o :: o in db.outposts ==> o in after.outposts && OutpostGrew(db.outposts[o], after.outposts[o]))
  }

  lemma GrewFurther(a: Db, b: Db, c: Db)
    requires Grew(a, b) && Grew(b, c)
    ensures Grew(a, c)
  {
  }

  /** The caller's read has passed: these columns never change again. */
  ghost predicate Grounded(db: Db, c: Confirmation, outpostId: string) {
    && c.enrollmentId in db.enrollments
    && var e := db.enrollments[c.enrollmentId];
       && e.ownerUserId == c.ownerUserId && e.outpostId == Some(outpostId) && e.consumedAt.Some?
       && e.confirmationCodeHash == Some(c.confirmationCodeHash) && e.cancelledAt.None? && e.expiresAt > c.now
  }

  /** What `confirm` checks on the row it read. */
  predicate ReadPasses(db: Db, c: Confirmation, outpostId: string) {
    && c.enrollmentId in db.enrollments
    && var e := db.enrollments[c.enrollmentId];
       && e.ownerUserId == c.ownerUserId && e.outpostId == Some(outpostId) && outpostId != ""
       && e.confirmationCodeHash == Some(c.confirmationCodeHash)
       && e.confirmedAt.None? && e.cancelledAt.None? && e.expiresAt > c.now
  }

  lemma ConsumeKeepsEnrollments(db: Db, id: string, tokenHash: string, m: Machine)
    requires Ok(db)
    ensures Ok(Consumed(db, id, tokenHash, m).0)
  {
    var after := Consumed(db, id, tokenHash, m).0;
    forall i | i in after.enrollments ensures EnrollmentOk(after, i) {
      assert EnrollmentOk(db, i);
    }
  }

  lemma ConsumeKeepsOk(db: Db, id: string, tokenHash: string, m: Machine)
    requires Ok(db)
    ensures Ok(Consumed(db, id, tokenHash, m).0) && Grew(db, Consumed(db, id, tokenHash, m).0)
  {
    var after := Consumed(db, id, tokenHash, m).0;
    ConsumeKeepsEnrollments(db, id, tokenHash, m);
    forall i | i in db.enrollments ensures EnrollmentGrew(db.enrollments[i], after.enrollments[i]) {
      assert EnrollmentOk(db, i);
    }
  }

  /** After a passed read, both statements of a confirmation change one row each, or neither changes any. */
  lemma ConfirmCountsAgree(db: Db, c: Confirmation, outpostId: string)
    requires Ok(db) && Grounded(db, c, outpostId)
    ensures var outcome := Confirmed(db, c, outpostId).1;
            outcome == (if Confirmable(db, c) then Changes(1, 1) else Changes(0, 0))
    ensures Confirmable(db, c) <==> Awaiting(db, outpostId, c.ownerUserId)
  {
    assert EnrollmentOk(db, c.enrollmentId);
  }

  lemma ConfirmKeepsOk(db: Db, c: Confirmation, outpostId: string)
    requires Ok(db) && Grounded(db, c, outpostId)
    ensures Ok(Confirmed(db, c, outpostId).0) && Grew(db, Confirmed(db, c, outpostId).0)
  {
    ConfirmCountsAgree(db, c, outpostId);
    var after := Confirmed(db, c, outpostId).0;
    forall i | i in after.enrollments ensures EnrollmentOk(after, i) {
      assert EnrollmentOk(db, i);
    }
  }

  /** Statements that touch only outposts, and neither the owner nor the confirmation of an enrolled one. */
  lemma OutpostStatementKeepsOk(db: Db, s: Statement)
    requires Ok(db) && (s.RevokeStatement? || s.ClaimStatement? || s.PresenceStatement?)
    ensures Ok(Apply(db, s)) && Grew(db, Apply(db, s))
  {
    var after := Apply(db, s);
    forall i | i in after.enrollments ensures EnrollmentOk(after, i) {
      assert EnrollmentOk(db, i);
    }
  }

  lemma CreateKeepsOk(db: Db, e: NewEnrollment)
    requires Ok(db)
    ensures Ok(Apply(db, CreateStatement(e))) && Grew(db, Apply(db, CreateStatement(e)))
  {
    var after := Apply(db, CreateStatement(e));
    forall i | i in after.enrollments ensures EnrollmentOk(after, i) {
      if i in db.enrollments {
        assert EnrollmentOk(db, i);
      }
    }
  }

  lemma ApplyKeepsOk(db: Db, s: Statement)
    requires Ok(db) && (s.ConfirmStatement? ==> Grounded(db, s.confirmation, s.outpostId))
    ensures Ok(Apply(db, s)) && Grew(db, Apply(db, s))
  {
    match s
    case CreateStatement(e) => CreateKeepsOk(db, e);
    case ConsumeStatement(id, tokenHash, m) => ConsumeKeepsOk(db, id, tokenHash, m);
    case ConfirmStatement(c, o) => ConfirmKeepsOk(db, c, o);
    case _ => OutpostStatementKeepsOk(db, s);
  }

  lemma GroundedLasts(db: Db, after: Db, c: Confirmation, outpostId: string)
    requires Grew(db, after) && Grounded(db, c, outpostId)
    ensures Grounded(after, c, outpostId)
  {
    assert EnrollmentGrew(db.enrollments[c.enrollmentId], after.enrollments[c.enrollmentId]);
  }

  lemma ReadGrounds(db: Db, c: Confirmation, outpostId: string)
    requires Ok(db) && ReadPasses(db, c, outpostId)
    ensures Grounded(db, c, outpostId)
  {
    assert EnrollmentOk(db, c.enrollmentId);
  }

  // ---- runs ----

  /** A committed statement; a confirmation also says in which state its caller read the enrollment. */
  datatype Commit = Commit(statement: Statement, readAt: nat)

  function At(db: Db, run: seq<Commit>, i: nat): Db
    requires i <= |run|
  {
    if i == 0 then db else Apply(At(db, run, i - 1), run[i - 1].statement)
  }

  /** Every confirmation batch follows a read that passed, however long before. */
  predicate Legal(db: Db, run: seq<Commit>) {
    forall i | 0 <= i < |run| && run[i].statement.ConfirmStatement? ::
      run[i].readAt <= i
      && ReadPasses(At(db, run, run[i].readAt), run[i].statement.confirmation, run[i].statement.outpostId)
  }

  lemma {:induction false} RunKeepsOk(db: Db, run: seq<Commit>, i: nat, j: nat)
    requires Ok(db) && Legal(db, run) && i <= j <= |run|
    ensures Ok(At(db, run, j)) && Grew(At(db, run, i), At(db, run, j))
    decreases j, 0
  {
    if j > 0 {
      RunKeepsOk(db, run, if i < j then i else j - 1, j - 1);
      var before, s := At(db, run, j - 1), run[j - 1].statement;
      if s.ConfirmStatement? {
        ConfirmIsGrounded(db, run, j - 1);
      }
      ApplyKeepsOk(before, s);
      if i < j {
        GrewFurther(At(db, run, i), before, At(db, run, j));
      }
    }
  }

  lemma {:induction false} ConfirmIsGrounded(db: Db, run: seq<Commit>, i: nat)
    requires Ok(db) && Legal(db, run) && i < |run| && run[i].statement.ConfirmStatement?
    ensures Grounded(At(db, run, i), run[i].statement.confirmation, run[i].statement.outpostId)
    decreases i, 1
  {
    var k := run[i].readAt;
    RunKeepsOk(db, run, k, i);
    RunKeepsOk(db, run, k, k);
    ReadGrounds(At(db, run, k), run[i].statement.confirmation, run[i].statement.outpostId);
    GroundedLasts(At(db, run, k), At(db, run, i), run[i].statement.confirmation, run[i].statement.outpostId);
  }

  function OutcomeOf(db: Db, s: Statement): Outcome
    requires s.ConsumeStatement? || s.ConfirmStatement?
  {
    match s
    case ConsumeStatement(id, tokenHash, m) => Consumed(db, id, tokenHash, m).1
    case ConfirmStatement(c, o) => Confirmed(db, c, o).1
    case _ => Aborted
  }

  /** In every run, both statements of every batch change the same number of rows. */
  lemma CountsAlwaysAgree(db: Db, run: seq<Commit>, i: nat)
    requires Ok(db) && Legal(db, run) && i < |run|
    requires run[i].statement.ConsumeStatement? || run[i].statement.ConfirmStatement?
    ensures var outcome := OutcomeOf(At(db, run, i), run[i].statement);
            outcome in {Aborted, Changes(0, 0), Changes(1, 1)} && (run[i].statement.ConfirmStatement? ==> !outcome.Aborted?)
  {
    RunKeepsOk(db, run, i, i);
    if run[i].statement.ConfirmStatement? {
      ConfirmIsGrounded(db, run, i);
      ConfirmCountsAgree(At(db, run, i), run[i].statement.confirmation, run[i].statement.outpostId);
    }
  }

  predicate ConsumesAt(db: Db, run: seq<Commit>, i: nat, id: string)
    requires i < |run|
  {
    && run[i].statement.ConsumeStatement? && run[i].statement.enrollmentId == id
    && OutcomeOf(At(db, run, i), run[i].statement) == Changes(1, 1)
  }

  predicate ConfirmsAt(db: Db, run: seq<Commit>, i: nat, id: string)
    requires i < |run|
  {
    && run[i].statement.ConfirmStatement? && run[i].statement.confirmation.enrollmentId == id
    && OutcomeOf(At(db, run, i), run[i].statement) == Changes(1, 1)
  }

  lemma NotTwice(db: Db, run: seq<Commit>, i: nat, j: nat, id: string)
    requires Ok(db) && Legal(db, run) && i < j < |run|
    ensures !(ConsumesAt(db, run, i, id) && ConsumesAt(db, run, j, id))
    ensures !(ConfirmsAt(db, run, i, id) && ConfirmsAt(db, run, j, id))
  {
    RunKeepsOk(db, run, i + 1, j);
    if ConsumesAt(db, run, i, id) {
      assert At(db, run, i + 1).enrollments[id].consumedAt.Some?;
      assert EnrollmentGrew(At(db, run, i + 1).enrollments[id], At(db, run, j).enrollments[id]);
    }
    if ConfirmsAt(db, run, i, id) {
      assert At(db, run, i + 1).enrollments[id].confirmedAt.Some?;
      assert EnrollmentGrew(At(db, run, i + 1).enrollments[id], At(db, run, j).enrollments[id]);
    }
  }

  /** An enrollment creates at most one outpost and is confirmed at most once, in any interleaving. */
  lemma EachEnrollmentOnce(db: Db, run: seq<Commit>, i: nat, j: nat, id: string)
    requires Ok(db) && Legal(db, run) && i < |run| && j < |run|
    requires (ConsumesAt(db, run, i, id) && ConsumesAt(db, run, j, id)) || (ConfirmsAt(db, run, i, id) && ConfirmsAt(db, run, j, id))
    ensures i == j
  {
    if i < j {
      NotTwice(db, run, i, j, id);
    } else if j < i {
      NotTwice(db, run, j, i, id);
    }
  }

  /** In every reachable state an enrolled outpost has its enrollment's owner and is confirmed exactly when its enrollment is. */
  lemma OutpostMatchesItsEnrollment(db: Db, run: seq<Commit>, i: nat, id: string, outpostId: string)
    requires Ok(db) && Legal(db, run) && i <= |run|
    requires id in At(db, run, i).enrollments && At(db, run, i).enrollments[id].outpostId == Some(outpostId)
    ensures var now := At(db, run, i);
            && outpostId in now.outposts
            && now.outposts[outpostId].ownerUserId == Some(now.enrollments[id].ownerUserId)
            && (now.outposts[outpostId].confirmedAt.Some? <==> now.enrollments[id].confirmedAt.Some?)
            && forall other :: other in now.enrollments && now.enrollments[other].outpostId == Some(outpostId) ==> other == id
  {
    RunKeepsOk(db, run, i, i);
    assert EnrollmentOk(At(db, run, i), id);
  }

  /** A machine revoked before it was confirmed is never confirmed, whatever read its confirmer made earlier. */
  lemma RevokedIsNeverConfirmed(db: Db, run: seq<Commit>, i: nat, j: nat, outpostId: string)
    requires Ok(db) && Legal(db, run) && i <= j <= |run| && outpostId in At(db, run, i).outposts
    requires At(db, run, i).outposts[outpostId].revokedAt.Some? && At(db, run, i).outposts[outpostId].confirmedAt.None?
    ensures outpostId in At(db, run, j).outposts && At(db, run, j).outposts[outpostId].confirmedAt.None?
    ensures forall id :: id in At(db, run, j).enrollments && At(db, run, j).enrollments[id].outpostId == Some(outpostId) ==>
                           At(db, run, j).enrollments[id].confirmedAt.None?
  {
    RunKeepsOk(db, run, i, j);
    var after := At(db, run, j);
    forall id | id in after.enrollments && after.enrollments[id].outpostId == Some(outpostId)
      ensures after.enrollments[id].confirmedAt.None?
    {
      assert EnrollmentOk(after, id);
    }
  }

  // ---- the stores ----

  /** Each confirmation among these follows a read that passed. */
  ghost predicate Admissible(db: Db, statements: seq<Statement>)
    decreases |statements|
  {
    if statements == [] then true
    else
      var before, s := statements[..|statements| - 1], statements[|statements| - 1];
      Admissible(db, before)
      && (s.ConfirmStatement? ==> Grounded(AppliedAll(db, before), s.confirmation, s.outpostId))
  }

  function AppliedAll(db: Db, statements: seq<Statement>): Db
    decreases |statements|
  {
    if statements == [] then db
    else Apply(AppliedAll(db, statements[..|statements| - 1]), statements[|statements| - 1])
  }

  lemma {:induction false} AppliedAllKeepsOk(db: Db, statements: seq<Statement>)
    requires Ok(db) && Admissible(db, statements)
    ensures Ok(AppliedAll(db, statements)) && Grew(db, AppliedAll(db, statements))
    decreases |statements|
  {
    if statements != [] {
      var before := AppliedAll(db, statements[..|statements| - 1]);
      AppliedAllKeepsOk(db, statements[..|statements| - 1]);
      ApplyKeepsOk(before, statements[|statements| - 1]);
      GrewFurther(db, before, AppliedAll(db, statements));
    }
  }

  /** `OutpostEnrollmentStore` and `OutpostStore` over the two tables they share. */
  class OutpostStores {
    var db: Db

    constructor (users: set<string>, legacy: map<string, Outpost>)
      ensures db == Db(users, map[], legacy) && Ok(db)
    {
      db := Db(users, map[], legacy);
    }

    method Create(e: NewEnrollment) returns (created: bool)
      requires Ok(db)
      modifies this
      ensures Ok(db) && Grew(old(db), db)
      ensures created <==> e.id !in old(db).enrollments && e.ownerUserId in old(db).users
                           && forall i :: i in old(db).enrollments ==> old(db).enrollments[i].tokenHash != e.tokenHash
      ensures db == if created then old(db).(enrollments := old(db).enrollments[e.id := Unconsumed(e)]) else old(db)
      ensures created ==>
                && e.id in db.enrollments
                && var row := db.enrollments[e.id];
                   && row.tokenHash == e.tokenHash && row.ownerUserId == e.ownerUserId && row.ownerTeamId.None?
                   && row.accessScope == e.accessScope && row.requestedName == e.requestedName
                   && row.issuedAt == e.issuedAt && row.expiresAt == e.expiresAt
                   && row.consumedAt.None? && row.outpostId.None? && row.confirmationCodeHash.None?
                   && row.confirmedAt.None? && row.cancelledAt.None?
    {
      ApplyKeepsOk(db, CreateStatement(e));
      created := EnrollmentFits(db, e);
      if created {
        db := db.(enrollments := db.enrollments[e.id := Unconsumed(e)]);
      }
    }

    method GetOwned(id: string, ownerUserId: string) returns (found: Option<Enrollment>)
      ensures found.Some? <==> id in db.enrollments && db.enrollments[id].ownerUserId == ownerUserId
      ensures found.Some? ==> found.value == db.enrollments[id]
    {
      found := if id in db.enrollments && db.enrollments[id].ownerUserId == ownerUserId then Some(db.enrollments[id]) else None;
    }

    /** `None` when a constraint aborts the batch, which then changes nothing. */
    method Consume(enrollmentId: string, tokenHash: string, m: Machine) returns (consumed: Option<bool>)
      requires Ok(db)
      modifies this
      ensures Ok(db) && Grew(old(db), db) && db == Apply(old(db), ConsumeStatement(enrollmentId, tokenHash, m))
      ensures consumed == Some(true) <==> Eligible(old(db), enrollmentId, tokenHash, m.now) && MachineFits(old(db), m)
      ensures consumed == Some(true) ==>
                var e := db.enrollments[enrollmentId];
                && e == old(db).enrollments[enrollmentId].(consumedAt := Some(m.now), outpostId := Some(m.outpostId),
                                                           confirmationCodeHash := Some(m.confirmationCodeHash))
                && m.outpostId in db.outposts && db.outposts[m.outpostId].ownerUserId == Some(e.ownerUserId)
                && db.outposts[m.outpostId].confirmedAt.None? && db.outposts[m.outpostId].keyFingerprint == Some(m.keyFingerprint)
      ensures consumed == Some(true) <==>
                && enrollmentId in old(db).enrollments
                && (var e := old(db).enrollments[enrollmentId];
                    e.tokenHash == tokenHash && e.consumedAt.None? && e.cancelledAt.None? && m.now < e.expiresAt)
                && m.outpostId !in old(db).outposts
                && (forall o :: o in old(db).outposts ==> old(db).outposts[o].keyFingerprint != Some(m.keyFingerprint))
                && forall i :: i in old(db).enrollments ==> old(db).enrollments[i].outpostId != Some(m.outpostId)
      ensures consumed == Some(true) ==>
                var e, o := old(db).enrollments[enrollmentId], db.outposts[m.outpostId];
                && o.publicKey == Some(m.publicKey) && o.keyAlgorithm == Some("ed25519") && o.keyFingerprint == Some(m.keyFingerprint)
                && o.presence.name == m.name && o.ownerTeamId == e.ownerTeamId && o.accessScope == Some(e.accessScope)
                && o.enrolledAt == Some(m.now) && o.enrolledByUserId == Some(e.ownerUserId) && o.revokedAt.None?
                && !o.presence.connected && o.presence.connectedAt == m.now == o.presence.lastSeenAt && o.presence.disconnectedAt.None?
                && db.outposts == old(db).outposts[m.outpostId := o]
                && db.enrollments == old(db).enrollments[enrollmentId := db.enrollments[enrollmentId]]
      ensures consumed == Some(false) <==>
                enrollmentId in old(db).enrollments ==>
                  var e := old(db).enrollments[enrollmentId];
                  e.tokenHash != tokenHash || e.consumedAt.Some? || e.cancelledAt.Some? || e.expiresAt <= m.now
      ensures consumed != Some(true) ==> db == old(db)
    {
      ApplyKeepsOk(db, ConsumeStatement(enrollmentId, tokenHash, m));
      var before := db;
      var created, consumedRows := 0, 0;
      if enrollmentId in db.enrollments {
        var e := db.enrollments[enrollmentId];
        if e.tokenHash == tokenHash && e.consumedAt.None? && e.cancelledAt.None? && e.expiresAt > m.now {
          if m.outpostId in db.outposts || exists o :: o in db.outposts && db.outposts[o].keyFingerprint == Some(m.keyFingerprint) {
            return None;
          }
          db := db.(outposts := db.outposts[m.outpostId := Pending(e, m)]);
          created := 1;
        }
      }
      if Eligible(db, enrollmentId, tokenHash, m.now) {
        if exists i :: i in db.enrollments && db.enrollments[i].outpostId == Some(m.outpostId) {
          db := before;
          return None;
        }
        db := db.(enrollments := db.enrollments[enrollmentId := Taken(db.enrollments[enrollmentId], m)]);
        consumedRows := 1;
      }
      return Some(created == 1 && consumedRows == 1);
    }

    /** Statements of other callers that run while this one is suspended. */
    method Await(others: seq<Statement>)
      modifies this
      ensures db == AppliedAll(old(db), others)
    {
      ghost var before := db;
      for i := 0 to |others|
        invariant db == AppliedAll(before, others[..i])
      {
        db := Apply(db, others[i]);
        assert others[..i + 1][..i] == others[..i];
      }
      assert others[..|others|] == others;
    }

    /**
     * Confirms the machine exactly when the read passed and it is still awaiting confirmation as the batch runs;
     * the returned outpost and its enrollment were then confirmed together.
     */
    method Confirm(c: Confirmation, afterRead: seq<Statement>) returns (outpostId: Option<string>)
      requires Ok(db) && Admissible(db, afterRead)
      modifies this
      ensures Ok(db) && Grew(old(db), db)
      ensures outpostId.Some? <==> exists o :: ReadPasses(old(db), c, o) && Awaiting(AppliedAll(old(db), afterRead), o, c.ownerUserId)
      ensures outpostId.Some? ==>
                && ReadPasses(old(db), c, outpostId.value)
                && db == Apply(AppliedAll(old(db), afterRead), ConfirmStatement(c, outpostId.value))
                && db.enrollments[c.enrollmentId].confirmedAt == Some(c.now)
                && outpostId.value in db.outposts && db.outposts[outpostId.value].confirmedAt == Some(c.now)
      ensures outpostId.None? ==> db == old(db) || db == AppliedAll(old(db), afterRead)
      ensures forall o :: outpostId == Some(o) <==>
                && c.enrollmentId in old(db).enrollments
                && (var e := old(db).enrollments[c.enrollmentId];
                    && e.ownerUserId == c.ownerUserId && e.outpostId == Some(o) && o != ""
                    && e.confirmationCodeHash == Some(c.confirmationCodeHash)
                    && e.confirmedAt.None? && e.cancelledAt.None? && c.now < e.expiresAt)
                && var raced := AppliedAll(old(db), afterRead);
                   o in raced.outposts && raced.outposts[o].ownerUserId == Some(c.ownerUserId)
                   && raced.outposts[o].confirmedAt.None? && raced.outposts[o].revokedAt.None?
      ensures outpostId.Some? ==>
                var raced := AppliedAll(old(db), afterRead);
                && c.enrollmentId in raced.enrollments && outpostId.value in raced.outposts
                && db == raced.(
                     enrollments := raced.enrollments[c.enrollmentId := raced.enrollments[c.enrollmentId].(confirmedAt := Some(c.now))],
                     outposts := raced.outposts[outpostId.value := raced.outposts[outpostId.value].(confirmedAt := Some(c.now))])
    {
      var enrollment := GetOwned(c.enrollmentId, c.ownerUserId);
      if enrollment.None? || enrollment.value.outpostId.None? || enrollment.value.outpostId.value == ""
         || enrollment.value.confirmationCodeHash != Some(c.confirmationCodeHash)
         || enrollment.value.confirmedAt.Some? || enrollment.value.cancelledAt.Some? || enrollment.value.expiresAt <= c.now {
        return None;
      }
      var o := enrollment.value.outpostId.value;
      assert ReadPasses(db, c, o);
      ReadGrounds(db, c, o);
      AppliedAllKeepsOk(db, afterRead);
      GroundedLasts(db, AppliedAll(db, afterRead), c, o);
      ghost var atRead := db;
      Await(afterRead);
      ConfirmCountsAgree(db, c, o);
      ConfirmKeepsOk(db, c, o);
      GrewFurther(atRead, db, Confirmed(db, c, o).0);
      var confirmed, marked := RunConfirmation(c, o);
      return if confirmed == 1 && marked == 1 then Some(o) else None;
    }

    method RunConfirmation(c: Confirmation, outpostId: string) returns (enrollments: nat, outposts: nat)
      modifies this
      ensures (db, Changes(enrollments, outposts)) == Confirmed(old(db), c, outpostId)
    {
      enrollments, outposts := 0, 0;
      if Confirmable(db, c) {
        db := db.(enrollments := db.enrollments[c.enrollmentId := db.enrollments[c.enrollmentId].(confirmedAt := Some(c.now))]);
        enrollments := 1;
      }
      if Awaiting(db, outpostId, c.ownerUserId) {
        db := db.(outposts := db.outposts[outpostId := db.outposts[outpostId].(confirmedAt := Some(c.now))]);
        outposts := 1;
      }
    }

    method RevokeOwned(outpostId: string, ownerUserId: string, now: int) returns (revoked: bool)
      requires Ok(db)
      modifies this
      ensures Ok(db) && Grew(old(db), db) && db == Apply(old(db), RevokeStatement(outpostId, ownerUserId, now))
      ensures revoked <==> outpostId in old(db).outposts && old(db).outposts[outpostId].ownerUserId == Some(ownerUserId)
                           && old(db).outposts[outpostId].revokedAt.None?
      ensures revoked ==>
                var o := old(db).outposts[outpostId];
                db == old(db).(outposts := old(db).outposts[outpostId := o.(
                  revokedAt := Some(now),
                  presence := Presence(o.presence.name, false, o.presence.connectedAt, now, Some(now)))])
      ensures !revoked ==> db == old(db)
    {
      ApplyKeepsOk(db, RevokeStatement(outpostId, ownerUserId, now));
      revoked := Revocable(db, outpostId, ownerUserId);
      if revoked {
        db := db.(outposts := db.outposts[outpostId := RevokedOutpost(db.outposts[outpostId], now)]);
      }
    }

    /** Claims only an outpost nobody owns, so never an enrolled one. */
    method ClaimLegacy(outpostId: string, ownerUserId: string, now: int) returns (claimed: bool)
      requires Ok(db)
      modifies this
      ensures Ok(db) && Grew(old(db), db) && db == Apply(old(db), ClaimStatement(outpostId, ownerUserId, now))
      ensures claimed <==> outpostId in old(db).outposts && old(db).outposts[outpostId].ownerUserId.None?
                           && old(db).outposts[outpostId].revokedAt.None?
      ensures claimed ==>
                var o, after := old(db).outposts[outpostId], db.outposts[outpostId];
                && after.ownerUserId == Some(ownerUserId) == after.enrolledByUserId
                && after.enrolledAt == Some(if o.enrolledAt.Some? then o.enrolledAt.value else o.presence.connectedAt)
                && after.confirmedAt == Some(if o.confirmedAt.Some? then o.confirmedAt.value else now)
                && after.accessScope == Some(if o.accessScope.Some? then o.accessScope.value else "full")
                && after.presence == o.presence && after.revokedAt == o.revokedAt && after.ownerTeamId == o.ownerTeamId
                && db == old(db).(outposts := old(db).outposts[outpostId := after])
      ensures !claimed ==> db == old(db)
      ensures claimed ==> forall id :: id in db.enrollments ==> db.enrollments[id].outpostId != Some(outpostId)
    {
      ApplyKeepsOk(db, ClaimStatement(outpostId, ownerUserId, now));
      claimed := Claimable(db, outpostId);
      if claimed {
        forall id | id in db.enrollments ensures db.enrollments[id].outpostId != Some(outpostId) {
          assert EnrollmentOk(db, id);
        }
        db := db.(outposts := db.outposts[outpostId := Claimed(db.outposts[outpostId], ownerUserId, now)]);
      }
    }
  }
}
