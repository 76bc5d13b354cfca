/** What every run of the token service keeps. */
module WebSessionInvariants {
  import opened Support
  import opened ApiTokens
  import opened WebSessions

  // ---- the invariant ----

  predicate Delivered(call: Call) {
    call.Exchanged? || call.Redeemed?
  }

  /** Nothing but its family distinguishes a row's subject, and no row outlives the family cap. */
  predicate OfFamily(row: Row, f: Id, family: Family) {
    && row.familyId == Some(f)
    && row.userId == family.userId
    && row.provider == Some(family.subject.provider)
    && row.providerUserId == Some(family.subject.providerUserId)
    && row.expiresAt <= family.Cap()
    && (row.kind == WebSession ==> row.familyExpiresAt == None && row.rotatedTo == None)
    && (row.kind == WebSessionRefresh ==> row.familyExpiresAt == Some(family.Cap()))
  }

  predicate RowInFamily(s: State, row: Row) {
    row.familyId.Some? && row.familyId.value in s.families && OfFamily(row, row.familyId.value, s.families[row.familyId.value])
  }

  /** The row with this id was inserted by `call`, which drew its token. */
  predicate InsertedBy(call: Call, i: Id, row: Row) {
    match call
    case Consuming(_, _, order, accessId, refreshId) => HalfOf(order, accessId, refreshId, i, row)
    case Exchanged(order, accessId, refreshId) => HalfOf(order, accessId, refreshId, i, row)
    case Redeemed(_, order, accessId, refreshId) => HalfOf(order, accessId, refreshId, i, row)
    case Compensating(_, _) => true
    case Rejected(_, _) => true
    case _ => false
  }

  predicate HalfOf(order: MintOrder, accessId: Id, refreshId: Id, i: Id, row: Row) {
    && row.familyId == Some(order.familyId)
    && ((i == accessId && row.kind == WebSession && row.tokenHash == Sha256(order.pair.accessToken))
        || (i == refreshId && row.kind == WebSessionRefresh && row.tokenHash == Sha256(order.pair.refreshToken)))
  }

  predicate RowOk(s: State, i: Id)
    requires i in s.rows
  {
    var row := s.rows[i];
    && RowInFamily(s, row)
    && i in s.drawn && s.drawn[i] in s.calls
    && row.tokenHash.token in s.owner && s.owner[row.tokenHash.token] == s.drawn[i]
    && InsertedBy(s.calls[s.drawn[i]], i, row)
    && (row.rotatedTo.Some? ==> i in s.families[row.familyId.value].path)
  }

  predicate DeliveredRefresh(s: State, i: Id, f: Id) {
    && i in s.drawn && s.drawn[i] in s.calls && Delivered(s.calls[s.drawn[i]])
    && s.calls[s.drawn[i]].refreshId == i && s.calls[s.drawn[i]].order.familyId == f
  }

  predicate LinkAt(rows: Table, f: Id, path: seq<Id>, k: nat)
    requires k < |path|
  {
    && path[k] in rows
    && rows[path[k]].kind == WebSessionRefresh
    && rows[path[k]].familyId == Some(f)
    && rows[path[k]].rotatedTo == if k + 1 < |path| then Some(path[k + 1]) else None
  }

  /** The `rotated_to` links of the stored rows spell out `path`, and only its last node is unconsumed. */
  ghost predicate Linked(rows: Table, f: Id, path: seq<Id>) {
    forall k: nat :: k < |path| ==> LinkAt(rows, f, path, k)
  }

  ghost predicate Gone(rows: Table, path: seq<Id>) {
    forall k: nat :: k < |path| ==> path[k] !in rows
  }

  ghost predicate FamilyOk(s: State, f: Id)
    requires f in s.families
  {
    var family := s.families[f];
    && f in s.drawn && s.drawn[f] in s.calls && s.calls[s.drawn[f]].Exchanged?
    && family.born <= s.clock
    && IsSignInProvider(Some(family.subject.provider))
    && |family.path| > 0
    && NoDuplicates(family.path)
    && PathDelivered(s, f)
    && (if family.path[0] in s.rows then Linked(s.rows, f, family.path)
        else Gone(s.rows, family.path) && family.Cap() + EXPIRED_TOKEN_RETENTION_MS <= s.clock)
  }

  predicate OrderOk(s: State, c: CallId, order: MintOrder) {
    && order.pair.accessToken in s.owner && s.owner[order.pair.accessToken] == c
    && order.pair.refreshToken in s.owner && s.owner[order.pair.refreshToken] == c
    && order.pair.accessToken != order.pair.refreshToken
    && order.pair.accessExpiresAt <= order.familyExpiresAt
    && order.pair.refreshExpiresAt <= order.familyExpiresAt
    && IsSignInProvider(Some(order.subject.provider))
  }

  predicate OrderOfFamily(s: State, order: MintOrder) {
    && order.familyId in s.families
    && var family := s.families[order.familyId];
       order.userId == family.userId && order.subject == family.subject && order.familyExpiresAt == family.Cap()
  }

  /** A snapshot of a delivered refresh row: it may since have been linked, revoked or swept. */
  predicate SnapshotOk(s: State, id: Id, row: Row) {
    && RowInFamily(s, row)
    && row.kind == WebSessionRefresh
    && id in s.families[row.familyId.value].path
    && (id in s.rows ==> s.rows[id].kind == WebSessionRefresh && s.rows[id].familyId == row.familyId)
  }

  predicate PurposeOk(s: State, c: CallId, purpose: Purpose, order: MintOrder) {
    match purpose
    case ForExchange(born) =>
      order.familyId in s.drawn && s.drawn[order.familyId] == c
      && order.familyExpiresAt == born + WEB_SESSION_FAMILY_TTL_MS && born <= s.clock
    case ForRedeem(parent, row) =>
      SnapshotOk(s, parent, row) && row.familyId == Some(order.familyId) && OrderOfFamily(s, order)
  }

  predicate DrawnPair(s: State, c: CallId, accessId: Id, refreshId: Id) {
    && accessId in s.drawn && s.drawn[accessId] == c
    && refreshId in s.drawn && s.drawn[refreshId] == c
    && accessId != refreshId
  }

  ghost predicate Adjacent(path: seq<Id>, a: Id, b: Id) {
    exists k: nat :: k + 1 < |path| && path[k] == a && path[k + 1] == b
  }

  ghost predicate CallOk(s: State, c: CallId)
    requires c in s.calls
  {
    match s.calls[c]
    case Hashing(purpose, order) => OrderOk(s, c, order) && PurposeOk(s, c, purpose, order)
    case Inserting(purpose, order, accessId, refreshId, _) =>
      OrderOk(s, c, order) && PurposeOk(s, c, purpose, order) && DrawnPair(s, c, accessId, refreshId)
    case Looking(token) => Held(s, token) || token in s.guessed
    case Found(id, row) =>
      RowInFamily(s, row) && (row.kind == WebSessionRefresh ==> SnapshotOk(s, id, row))
    case FindingSuccessor(_, _) => true
    case SuccessorFound(_, _) => true
    case RevokingFamily(_) => true
    case Consuming(parent, row, order, accessId, refreshId) =>
      && OrderOk(s, c, order) && OrderOfFamily(s, order) && DrawnPair(s, c, accessId, refreshId)
      && SnapshotOk(s, parent, row) && row.familyId == Some(order.familyId)
      && (parent in s.rows ==> refreshId in s.rows)
    case Compensating(_, orphans) => forall i :: i in orphans ==> i in s.drawn && s.drawn[i] == c
    case Exchanged(order, accessId, refreshId) =>
      && OrderOk(s, c, order) && OrderOfFamily(s, order) && DrawnPair(s, c, accessId, refreshId)
      && |s.families[order.familyId].path| > 0 && s.families[order.familyId].path[0] == refreshId
    case Redeemed(parent, order, accessId, refreshId) =>
      && OrderOk(s, c, order) && OrderOfFamily(s, order) && DrawnPair(s, c, accessId, refreshId)
      && Adjacent(s.families[order.familyId].path, parent, refreshId)
    case Rejected(_, _) => true
  }

  /** Every token anyone holds of a revoked family is revoked. */
  ghost predicate RevokedOk(s: State, f: Id) {
    f in s.families
    && forall i :: i in s.rows && s.rows[i].familyId == Some(f) && Held(s, s.rows[i].tokenHash.token) ==> s.rows[i].revokedAt.Some?
  }

  ghost predicate Inv(s: State) {
    && (forall i {:trigger RowOk(s, i)} :: i in s.rows ==> RowOk(s, i))
    && (forall f {:trigger FamilyOk(s, f)} :: f in s.families ==> FamilyOk(s, f))
    && (forall c {:trigger CallOk(s, c)} :: c in s.calls ==> CallOk(s, c))
    && (forall f {:trigger RevokedOk(s, f)} :: f in s.revokedFamilies ==> RevokedOk(s, f))
    && s.owner.Keys !! s.guessed
  }

  // ---- how one state grows into the next ----

  /** The same family, with a path that was only extended. */
  predicate Grew(before: Family, after: Family) {
    after.born == before.born && after.userId == before.userId && after.subject == before.subject
    && before.path <= after.path
  }

  /** History only grows, and a delivered call never moves again. */
  ghost predicate HistoryGrew(s: State, t: State) {
    && s.clock <= t.clock
    && (forall x :: x in s.owner ==> x in t.owner && t.owner[x] == s.owner[x])
    && (forall i :: i in s.drawn ==> i in t.drawn && t.drawn[i] == s.drawn[i])
    && (forall f :: f in s.families ==> f in t.families && Grew(s.families[f], t.families[f]))
    && (forall c :: c in s.calls && Delivered(s.calls[c]) ==> c in t.calls && t.calls[c] == s.calls[c])
    && s.guessed <= t.guessed
  }

  /** A stored row keeps all but its two mutable columns; a new one was being inserted. */
  ghost predicate RowsGrew(s: State, t: State) {
    && (forall i :: i in t.rows && i in s.rows ==>
          t.rows[i] == s.rows[i].(rotatedTo := t.rows[i].rotatedTo, revokedAt := t.rows[i].revokedAt))
    && (forall i :: i in t.rows && i !in s.rows ==>
          i !in s.drawn || s.drawn[i] !in s.calls || s.calls[s.drawn[i]].Inserting?)
  }

  /** Refresh rows of one cap are swept together. */
  ghost predicate SweptTogether(s: State, t: State) {
    forall i, j :: i in t.rows && i in s.rows && j in s.rows && SameCap(s.rows[i], s.rows[j]) ==> j in t.rows
  }

  predicate SameCap(a: Row, b: Row) {
    a.familyExpiresAt.Some? && a.familyExpiresAt == b.familyExpiresAt
  }

  ghost predicate PathDelivered(s: State, f: Id)
    requires f in s.families
  {
    forall k: nat :: k < |s.families[f].path| ==> DeliveredRefresh(s, s.families[f].path[k], f)
  }

  lemma SnapshotFrame(s: State, t: State, id: Id, row: Row)
    requires HistoryGrew(s, t) && RowsGrew(s, t) && SnapshotOk(s, id, row)
    requires PathDelivered(s, row.familyId.value)
    ensures SnapshotOk(t, id, row)
    ensures id in t.rows ==> id in s.rows
  {
    var f := row.familyId.value;
    var k: nat :| k < |s.families[f].path| && s.families[f].path[k] == id;
    assert DeliveredRefresh(s, s.families[f].path[k], f);
    assert t.families[f].path[k] == id;
  }

  lemma HeldStays(s: State, t: State, token: Token)
    requires HistoryGrew(s, t) && Held(s, token)
    ensures Held(t, token)
  {}

  /** A call that did not move keeps its part of the invariant. */
  lemma CallFrame(s: State, t: State, c: CallId)
    requires HistoryGrew(s, t) && RowsGrew(s, t) && SweptTogether(s, t)
    requires forall f {:trigger PathDelivered(s, f)} :: f in s.families ==> PathDelivered(s, f)
    requires forall i {:trigger RowOk(s, i)} :: i in s.rows ==> RowOk(s, i)
    requires c in s.calls && CallOk(s, c) && c in t.calls && t.calls[c] == s.calls[c]
    ensures CallOk(t, c)
  {
    match s.calls[c]
    case Hashing(purpose, order) => PurposeFrame(s, t, c, purpose, order);
    case Inserting(purpose, order, _, _, _) => PurposeFrame(s, t, c, purpose, order);
    case Looking(token) => if Held(s, token) { HeldStays(s, t, token); }
    case Found(id, row) => if row.kind == WebSessionRefresh { SnapshotFrame(s, t, id, row); }
    case Consuming(parent, row, order, accessId, refreshId) =>
      SnapshotFrame(s, t, parent, row);
      if parent in t.rows {
        assert RowOk(s, parent) && RowOk(s, refreshId);
      }
    case Redeemed(parent, order, accessId, refreshId) =>
      AdjacentFrame(s.families[order.familyId].path, t.families[order.familyId].path, parent, refreshId);
    case _ =>
  }

  lemma AdjacentFrame(path: seq<Id>, longer: seq<Id>, a: Id, b: Id)
    requires Adjacent(path, a, b) && path <= longer
    ensures Adjacent(longer, a, b)
  {
    var k: nat :| k + 1 < |path| && path[k] == a && path[k + 1] == b;
    assert longer[k] == a && longer[k + 1] == b;
  }

  lemma PurposeFrame(s: State, t: State, c: CallId, purpose: Purpose, order: MintOrder)
    requires HistoryGrew(s, t) && RowsGrew(s, t)
    requires forall f {:trigger PathDelivered(s, f)} :: f in s.families ==> PathDelivered(s, f)
    requires PurposeOk(s, c, purpose, order)
    ensures PurposeOk(t, c, purpose, order)
  {
    if purpose.ForRedeem? {
      SnapshotFrame(s, t, purpose.parent, purpose.parentRow);
    }
  }

  // ---- steps that link, insert and delete nothing ----

  /** A call that moved: it satisfies its part, delivered nothing, and still owns the rows it inserted. */
  ghost predicate MovedOk(s: State, t: State, c: CallId)
    requires c in t.calls
  {
    && CallOk(t, c)
    && !Delivered(t.calls[c])
    && forall i :: i in t.rows && i in t.drawn && t.drawn[i] == c ==> InsertedBy(t.calls[c], i, t.rows[i])
  }

  ghost predicate Moved(s: State, t: State) {
    forall c :: c in t.calls ==> (c in s.calls && t.calls[c] == s.calls[c]) || MovedOk(s, t, c)
  }

  /** Only `revoked_at` may change, and never back to NULL. */
  ghost predicate OnlyRevokes(s: State, t: State) {
    && t.rows.Keys == s.rows.Keys
    && t.families == s.families
    && forall i :: i in s.rows ==>
         t.rows[i] == s.rows[i].(revokedAt := t.rows[i].revokedAt) && (s.rows[i].revokedAt.Some? ==> t.rows[i].revokedAt.Some?)
  }

  lemma RowStays(s: State, t: State, i: Id)
    requires i in s.rows && RowOk(s, i) && HistoryGrew(s, t)
    requires i in t.rows && t.rows[i] == s.rows[i].(revokedAt := t.rows[i].revokedAt)
    requires s.drawn[i] in t.calls && InsertedBy(t.calls[s.drawn[i]], i, t.rows[i])
    ensures RowOk(t, i)
  {}

  lemma FamilyStays(s: State, t: State, f: Id)
    requires f in s.families && FamilyOk(s, f) && HistoryGrew(s, t) && f in t.families && t.families[f] == s.families[f]
    requires forall k: nat :: k < |s.families[f].path| ==>
               var n := s.families[f].path[k];
               (n in t.rows <==> n in s.rows)
               && (n in s.rows ==> t.rows[n] == s.rows[n].(revokedAt := t.rows[n].revokedAt))
    ensures FamilyOk(t, f)
  {
    var path := s.families[f].path;
    if path[0] in s.rows {
      forall k: nat | k < |path| ensures LinkAt(t.rows, f, path, k) {
        assert LinkAt(s.rows, f, path, k);
      }
    }
  }

  lemma AllPathsDelivered(s: State)
    requires Inv(s)
    ensures forall f {:trigger PathDelivered(s, f)} :: f in s.families ==> PathDelivered(s, f)
  {
    forall f | f in s.families ensures PathDelivered(s, f) { assert FamilyOk(s, f); }
  }

  lemma HeldBefore(s: State, t: State, token: Token)
    requires HistoryGrew(s, t) && Moved(s, t) && token in s.owner && Held(t, token)
    ensures Held(s, token)
  {}

  lemma Aside(s: State, t: State)
    requires Inv(s)
    requires HistoryGrew(s, t) && OnlyRevokes(s, t) && Moved(s, t)
    requires s.calls.Keys <= t.calls.Keys
    requires t.owner.Keys !! t.guessed
    requires forall f :: f in t.revokedFamilies && f !in s.revokedFamilies ==>
               f in t.families && forall i :: i in t.rows && t.rows[i].familyId == Some(f) ==> t.rows[i].revokedAt.Some?
    ensures Inv(t)
  {
    forall i {:trigger RowOk(t, i)} | i in t.rows ensures RowOk(t, i) {
      assert RowOk(s, i);
      assert s.drawn[i] in t.calls;
      RowStays(s, t, i);
    }
    forall f {:trigger FamilyOk(t, f)} | f in t.families ensures FamilyOk(t, f) { FamilyStays(s, t, f); }
    AllPathsDelivered(s);
    forall c | c in t.calls ensures CallOk(t, c) {
      if c in s.calls && t.calls[c] == s.calls[c] { CallFrame(s, t, c); }
    }
    forall f | f in t.revokedFamilies ensures RevokedOk(t, f) {
      if f in s.revokedFamilies {
        assert RevokedOk(s, f);
        forall i | i in t.rows && t.rows[i].familyId == Some(f) && Held(t, t.rows[i].tokenHash.token)
          ensures t.rows[i].revokedAt.Some?
        {
          assert RowOk(s, i);
          HeldBefore(s, t, t.rows[i].tokenHash.token);
        }
      }
    }
  }

  // ---- every event keeps the invariant ----

  predicate MovesOneCall(e: Event) {
    e.Present? || e.Lookup? || e.LookupMiss? || e.LookupSuccessor? || e.CheckReplay?
  }

  lemma StoredIdsWereDrawn(s: State)
    requires Inv(s)
    ensures s.rows.Keys <= s.drawn.Keys
  {
    forall i | i in s.rows ensures i in s.drawn { assert RowOk(s, i); }
  }

  lemma NoRowsYet(s: State, c: CallId)
    requires Inv(s)
    requires c in s.calls ==> !InsertsRows(s.calls[c])
    ensures forall i :: i in s.rows && i in s.drawn ==> s.drawn[i] != c
  {
    forall i | i in s.rows && i in s.drawn ensures s.drawn[i] != c { assert RowOk(s, i); }
  }

  predicate InsertsRows(call: Call) {
    call.Consuming? || call.Exchanged? || call.Redeemed? || call.Compensating? || call.Rejected?
  }

  lemma KeepsOnMove(s: State, e: Event)
    requires Inv(s) && Enabled(s, e) && MovesOneCall(e)
    ensures Inv(Step(s, e))
  {
    if e.Lookup? {
      KeepsOnLookup(s, e.call, e.id);
    } else if e.LookupSuccessor? || e.CheckReplay? {
      KeepsOnReplay(s, e);
    } else {
      NoRowsYet(s, e.call);
      Aside(s, Step(s, e));
    }
  }

  lemma KeepsOnReplay(s: State, e: Event)
    requires Inv(s) && Enabled(s, e) && (e.LookupSuccessor? || e.CheckReplay?)
    ensures Inv(Step(s, e))
  {
    NoRowsYet(s, e.call);
    Aside(s, Step(s, e));
  }

  lemma KeepsOnLookup(s: State, c: CallId, id: Id)
    requires Inv(s) && Enabled(s, Lookup(c, id))
    ensures Inv(Step(s, Lookup(c, id)))
  {
    NoRowsYet(s, c);
    RowReadIsOk(s, c, id);
    Aside(s, Step(s, Lookup(c, id)));
  }

  /** A row found by a presented token was delivered, so a refresh row lies on its family's path. */
  lemma RowReadIsOk(s: State, c: CallId, id: Id)
    requires Inv(s) && Enabled(s, Lookup(c, id))
    ensures RowInFamily(s, s.rows[id])
    ensures s.rows[id].kind == WebSessionRefresh ==> SnapshotOk(s, id, s.rows[id])
  {
    assert RowOk(s, id) && CallOk(s, c);
    DeliveredRowOnPath(s, id);
  }

  lemma DeliveredRowOnPath(s: State, id: Id)
    requires Inv(s) && id in s.rows && Held(s, s.rows[id].tokenHash.token)
    ensures RowInFamily(s, s.rows[id])
    ensures s.rows[id].kind == WebSessionRefresh ==> id in s.families[s.rows[id].familyId.value].path
  {
    assert RowOk(s, id);
    var c := s.drawn[id];
    assert CallOk(s, c);
    if s.calls[c].Redeemed? {
      var path := s.families[s.calls[c].order.familyId].path;
      var k: nat :| k + 1 < |path| && path[k] == s.calls[c].parent && path[k + 1] == s.calls[c].refreshId;
    }
  }

  lemma KeepsOnBeginExchange(s: State, e: Event)
    requires Inv(s) && Enabled(s, e) && e.BeginExchange?
    ensures Inv(Step(s, e))
  {
    NoRowsYet(s, e.call);
    StoredIdsWereDrawn(s);
    Aside(s, Step(s, e));
  }

  lemma KeepsOnGenerateIds(s: State, e: Event)
    requires Inv(s) && Enabled(s, e) && e.GenerateIds?
    ensures Inv(Step(s, e))
  {
    var t, c := Step(s, e), e.call;
    NoRowsYet(s, c);
    assert CallOk(s, c);
    AllPathsDelivered(s);
    PurposeFrame(s, t, c, s.calls[c].purpose, s.calls[c].order);
    forall i | i in t.rows && i in t.drawn ensures t.drawn[i] != c { assert RowOk(s, i); }
    Aside(s, t);
  }

  /** A redeem that may mint orders exactly its own family's pair. */
  lemma CheckedOrderIsOk(s: State, t: State, c: CallId, id: Id, row: Row, access: Token, refresh: Token, at: int)
    requires SnapshotOk(s, id, row) && IsWebSessionRow(row) && row.familyExpiresAt.Some?
    requires t == Draw(s, c, access, refresh, at) && access != refresh
    ensures var order := Mint(row.userId, Subject(row.provider.value, row.providerUserId.value), row.familyId.value,
                              row.familyExpiresAt.value, access, refresh, at);
            OrderOk(t, c, order) && PurposeOk(t, c, ForRedeem(id, row), order)
  {}

  lemma KeepsOnMintingCheck(s: State, e: Event)
    requires Inv(s) && Enabled(s, e) && e.Check? && Judge(s.calls[e.call].row, s.clock).MayMint?
    ensures Inv(Step(s, e))
  {
    var t, c := Step(s, e), e.call;
    NoRowsYet(s, c);
    assert CallOk(s, c);
    var id, row := s.calls[c].id, s.calls[c].row;
    CheckedOrderIsOk(s, Draw(s, c, e.access, e.refresh, e.at), c, id, row, e.access, e.refresh, e.at);
    assert CallOk(t, c);
    Aside(s, t);
  }

  lemma KeepsOnRefusingCheck(s: State, e: Event)
    requires Inv(s) && Enabled(s, e) && e.Check? && !Judge(s.calls[e.call].row, s.clock).MayMint?
    ensures Inv(Step(s, e))
  {
    NoRowsYet(s, e.call);
    assert CallOk(s, e.call);
    assert CallOk(Step(s, e), e.call);
    Aside(s, Step(s, e));
  }

  lemma KeepsOnCheck(s: State, e: Event)
    requires Inv(s) && Enabled(s, e) && e.Check?
    ensures Inv(Step(s, e))
  {
    if Judge(s.calls[e.call].row, s.clock).MayMint? {
      KeepsOnMintingCheck(s, e);
    } else {
      KeepsOnRefusingCheck(s, e);
    }
  }

  lemma KeepsOnClockAndRevocation(s: State, e: Event)
    requires Inv(s) && Enabled(s, e) && (e.Tick? || e.RevokeFamily? || e.RevokeOne?)
    ensures Inv(Step(s, e))
  {
    Aside(s, Step(s, e));
  }

  lemma KeepsOnRevokeReplayed(s: State, e: Event)
    requires Inv(s) && Enabled(s, e) && e.RevokeReplayed?
    ensures Inv(Step(s, e))
  {
    NoRowsYet(s, e.call);
    Aside(s, Step(s, e));
  }

  lemma KeepsOnCompensate(s: State, e: Event)
    requires Inv(s) && Enabled(s, e) && e.Compensate?
    ensures Inv(Step(s, e))
  {
    assert CallOk(s, e.call);
    Aside(s, Step(s, e));
  }

  // ---- CommitPair: two rows appear ----

  /** The ids of a pair about to be inserted are new to the table and to every path. */
  lemma InsertedIdsAreNew(s: State, c: CallId)
    requires Inv(s) && c in s.calls && s.calls[c].Inserting?
    ensures s.calls[c].accessId !in s.rows && s.calls[c].refreshId !in s.rows
    ensures forall f :: f in s.families ==> s.calls[c].accessId !in s.families[f].path && s.calls[c].refreshId !in s.families[f].path
    ensures CallOk(s, c)
  {
    assert CallOk(s, c);
    NoRowsYet(s, c);
    StoredIdsWereDrawn(s);
    forall f | f in s.families
      ensures s.calls[c].accessId !in s.families[f].path && s.calls[c].refreshId !in s.families[f].path
    {
      OnlyDeliveredOnPath(s, f, c);
    }
  }

  lemma OnlyDeliveredOnPath(s: State, f: Id, c: CallId)
    requires Inv(s) && f in s.families && c in s.calls && !Delivered(s.calls[c])
    ensures forall n :: n in s.families[f].path ==> n in s.drawn && s.drawn[n] != c
  {
    assert FamilyOk(s, f);
    forall n | n in s.families[f].path ensures n in s.drawn && s.drawn[n] != c {
      var k: nat :| k < |s.families[f].path| && s.families[f].path[k] == n;
      assert DeliveredRefresh(s, s.families[f].path[k], f);
    }
  }

  /** A commit never violates the UNIQUE constraints: the drawn ids and tokens are new. */
  lemma CommitAdmitted(s: State, c: CallId)
    requires Inv(s) && c in s.calls && s.calls[c].Inserting?
    ensures Admits(s.rows, (s.calls[c].accessId, s.calls[c].refreshId), PairRows(s.calls[c].order))
  {
    InsertedIdsAreNew(s, c);
    var tokens := PairRows(s.calls[c].order);
    forall i | i in s.rows
      ensures s.rows[i].tokenHash != tokens.0.tokenHash && s.rows[i].tokenHash != tokens.1.tokenHash
    {
      assert RowOk(s, i);
    }
  }

  lemma FamiliesWereExchanged(s: State)
    requires Inv(s)
    ensures forall f :: f in s.families ==> f in s.drawn && s.drawn[f] in s.calls && s.calls[s.drawn[f]].Exchanged?
  {
    forall f | f in s.families ensures f in s.drawn && s.drawn[f] in s.calls && s.calls[s.drawn[f]].Exchanged? {
      assert FamilyOk(s, f);
    }
  }

  lemma CommitGrows(s: State, c: CallId)
    requires Inv(s) && c in s.calls && s.calls[c].Inserting?
    ensures var t := Step(s, CommitPair(c)); HistoryGrew(s, t) && RowsGrew(s, t) && SweptTogether(s, t)
  {
    InsertedIdsAreNew(s, c);
    FamiliesWereExchanged(s);
  }

  lemma ExchangedRowsAreOk(s: State, c: CallId, i: Id)
    requires c in s.calls && s.calls[c].Inserting? && s.calls[c].purpose.ForExchange? && CallOk(s, c)
    requires i in Step(s, CommitPair(c)).rows && i !in s.rows
    ensures RowOk(Step(s, CommitPair(c)), i)
  {}

  lemma RedeemedRowsAreOk(s: State, c: CallId, i: Id)
    requires c in s.calls && s.calls[c].Inserting? && s.calls[c].purpose.ForRedeem? && CallOk(s, c)
    requires i in Step(s, CommitPair(c)).rows && i !in s.rows
    ensures RowOk(Step(s, CommitPair(c)), i)
  {}

  lemma NewRowsAreOk(s: State, c: CallId, i: Id)
    requires c in s.calls && s.calls[c].Inserting? && CallOk(s, c)
    requires i in Step(s, CommitPair(c)).rows && i !in s.rows
    ensures RowOk(Step(s, CommitPair(c)), i)
  {
    if s.calls[c].purpose.ForExchange? {
      ExchangedRowsAreOk(s, c, i);
    } else {
      RedeemedRowsAreOk(s, c, i);
    }
  }

  lemma CommitKeepsRows(s: State, c: CallId, i: Id)
    requires Inv(s) && c in s.calls && s.calls[c].Inserting?
    requires i in Step(s, CommitPair(c)).rows
    ensures RowOk(Step(s, CommitPair(c)), i)
  {
    var t := Step(s, CommitPair(c));
    CommitGrows(s, c);
    InsertedIdsAreNew(s, c);
    if i in s.rows {
      assert RowOk(s, i);
      RowStays(s, t, i);
    } else {
      NewRowsAreOk(s, c, i);
    }
  }

  lemma CommitKeepsFamilies(s: State, c: CallId, f: Id)
    requires Inv(s) && c in s.calls && s.calls[c].Inserting?
    requires f in Step(s, CommitPair(c)).families
    ensures FamilyOk(Step(s, CommitPair(c)), f)
  {
    var t := Step(s, CommitPair(c));
    CommitGrows(s, c);
    InsertedIdsAreNew(s, c);
    if f in s.families {
      assert FamilyOk(s, f);
      FamilyStays(s, t, f);
    } else {
      var path := t.families[f].path;
      assert LinkAt(t.rows, f, path, 0);
      assert DeliveredRefresh(t, path[0], f);
    }
  }

  lemma CommitKeepsCalls(s: State, c: CallId, d: CallId)
    requires Inv(s) && c in s.calls && s.calls[c].Inserting? && d in s.calls
    ensures CallOk(Step(s, CommitPair(c)), d)
  {
    var t := Step(s, CommitPair(c));
    CommitGrows(s, c);
    AllPathsDelivered(s);
    assert CallOk(s, d);
    if d != c {
      CallFrame(s, t, d);
    } else if s.calls[c].purpose.ForRedeem? {
      SnapshotFrame(s, t, s.calls[c].purpose.parent, s.calls[c].purpose.parentRow);
    }
  }

  /** A commit hands out at most its own exchange pair: nobody else's token becomes held. */
  lemma CommitHandsOutOwnPair(s: State, c: CallId, i: Id)
    requires Inv(s) && c in s.calls && s.calls[c].Inserting?
    requires var t := Step(s, CommitPair(c)); i in t.rows && Held(t, t.rows[i].tokenHash.token)
    ensures var t := Step(s, CommitPair(c));
            || (i in s.rows && t.rows[i] == s.rows[i] && Held(s, t.rows[i].tokenHash.token))
            || (s.calls[c].purpose.ForExchange? && t.rows[i].familyId == Some(s.calls[c].order.familyId))
  {
    InsertedIdsAreNew(s, c);
    NoRowsYet(s, c);
    if i in s.rows {
      assert RowOk(s, i);
    }
  }

  lemma CommitKeepsRevocations(s: State, c: CallId, f: Id)
    requires Inv(s) && c in s.calls && s.calls[c].Inserting? && f in s.revokedFamilies
    ensures RevokedOk(Step(s, CommitPair(c)), f)
  {
    var t := Step(s, CommitPair(c));
    assert RevokedOk(s, f) && CallOk(s, c);
    FamiliesWereExchanged(s);
    forall i | i in t.rows && t.rows[i].familyId == Some(f) && Held(t, t.rows[i].tokenHash.token)
      ensures t.rows[i].revokedAt.Some?
    {
      CommitHandsOutOwnPair(s, c, i);
    }
  }

  lemma KeepsOnCommitPair(s: State, e: Event)
    requires Inv(s) && Enabled(s, e) && e.CommitPair?
    ensures Inv(Step(s, e))
  {
    var t, c := Step(s, e), e.call;
    forall i {:trigger RowOk(t, i)} | i in t.rows ensures RowOk(t, i) { CommitKeepsRows(s, c, i); }
    forall f {:trigger FamilyOk(t, f)} | f in t.families ensures FamilyOk(t, f) { CommitKeepsFamilies(s, c, f); }
    forall d {:trigger CallOk(t, d)} | d in t.calls ensures CallOk(t, d) { CommitKeepsCalls(s, c, d); }
    forall f {:trigger RevokedOk(t, f)} | f in t.revokedFamilies ensures RevokedOk(t, f) { CommitKeepsRevocations(s, c, f); }
  }

  // ---- Consume: the compare-and-set ----

  /** When the guard holds, the parent is the unconsumed end of its family's path. */
  lemma ParentIsLast(s: State, c: CallId)
    requires Inv(s) && c in s.calls && s.calls[c].Consuming? && Consumable(s.rows, s.calls[c].parent)
    ensures var call := s.calls[c]; var f := call.order.familyId;
            && CallOk(s, c) && f in s.families && FamilyOk(s, f)
            && var path := s.families[f].path;
               path[|path| - 1] == call.parent && path[0] in s.rows
  {
    var call := s.calls[c];
    assert CallOk(s, c);
    var f := call.order.familyId;
    assert FamilyOk(s, f);
    var path := s.families[f].path;
    var k: nat :| k < |path| && path[k] == call.parent;
    assert path[0] in s.rows;
    assert LinkAt(s.rows, f, path, k);
  }

  /** The minted successor is a stored, unlinked refresh row of the same family. */
  lemma SuccessorIsStored(s: State, c: CallId)
    requires Inv(s) && c in s.calls && s.calls[c].Consuming? && s.calls[c].parent in s.rows
    ensures var call := s.calls[c];
            && call.refreshId in s.rows && call.refreshId != call.parent
            && s.rows[call.refreshId].kind == WebSessionRefresh
            && s.rows[call.refreshId].familyId == Some(call.order.familyId)
            && s.rows[call.refreshId].rotatedTo.None?
  {
    var call := s.calls[c];
    assert CallOk(s, c) && RowOk(s, call.refreshId);
    OnlyDeliveredOnPath(s, call.order.familyId, c);
  }

  lemma ConsumeGrows(s: State, c: CallId)
    requires Inv(s) && c in s.calls && s.calls[c].Consuming? && Consumable(s.rows, s.calls[c].parent)
    ensures var t := Step(s, Consume(c)); HistoryGrew(s, t) && RowsGrew(s, t) && SweptTogether(s, t)
  {
    assert CallOk(s, c);
  }

  lemma ConsumeKeepsRows(s: State, c: CallId, i: Id)
    requires Inv(s) && c in s.calls && s.calls[c].Consuming? && Consumable(s.rows, s.calls[c].parent) && i in s.rows
    ensures RowOk(Step(s, Consume(c)), i)
  {
    ConsumeGrows(s, c);
    assert RowOk(s, i) && CallOk(s, c);
  }

  lemma ConsumeExtendsPath(s: State, c: CallId)
    requires Inv(s) && c in s.calls && s.calls[c].Consuming? && Consumable(s.rows, s.calls[c].parent)
    requires s.calls[c].order.familyId in s.families
    ensures FamilyOk(Step(s, Consume(c)), s.calls[c].order.familyId)
  {
    var t, call := Step(s, Consume(c)), s.calls[c];
    var f := call.order.familyId;
    ParentIsLast(s, c);
    SuccessorIsStored(s, c);
    OnlyDeliveredOnPath(s, f, c);
    var path, path' := s.families[f].path, t.families[f].path;
    assert path' == path + [call.refreshId];
    forall k: nat | k < |path'| ensures DeliveredRefresh(t, path'[k], f) && LinkAt(t.rows, f, path', k) {
      if k < |path| {
        assert DeliveredRefresh(s, path[k], f) && LinkAt(s.rows, f, path, k);
      }
    }
  }

  lemma ConsumeKeepsOtherFamilies(s: State, c: CallId, f: Id)
    requires Inv(s) && c in s.calls && s.calls[c].Consuming? && Consumable(s.rows, s.calls[c].parent)
    requires f in s.families && f != s.calls[c].order.familyId
    ensures FamilyOk(Step(s, Consume(c)), f)
  {
    ConsumeGrows(s, c);
    assert FamilyOk(s, f);
    ParentIsLast(s, c);
    var g, path := s.calls[c].order.familyId, s.families[f].path;
    forall k: nat | k < |path| ensures path[k] != s.calls[c].parent {
      assert DeliveredRefresh(s, path[k], f);
      var last := |s.families[g].path| - 1;
      assert DeliveredRefresh(s, s.families[g].path[last], g);
    }
    FamilyStays(s, Step(s, Consume(c)), f);
  }

  lemma ConsumeKeepsCalls(s: State, c: CallId, d: CallId)
    requires Inv(s) && c in s.calls && s.calls[c].Consuming? && Consumable(s.rows, s.calls[c].parent) && d in s.calls
    ensures CallOk(Step(s, Consume(c)), d)
  {
    var t := Step(s, Consume(c));
    ConsumeGrows(s, c);
    AllPathsDelivered(s);
    assert CallOk(s, d);
    if d != c {
      CallFrame(s, t, d);
    } else {
      ParentIsLast(s, c);
      var f := s.calls[c].order.familyId;
      var last := |s.families[f].path| - 1;
      assert t.families[f].path[last] == s.calls[c].parent && t.families[f].path[last + 1] == s.calls[c].refreshId;
    }
  }

  /** The parent's token is held, so a revoked family's compare-and-set fails. */
  lemma ConsumedFamilyIsLive(s: State, c: CallId)
    requires Inv(s) && c in s.calls && s.calls[c].Consuming? && Consumable(s.rows, s.calls[c].parent)
    ensures s.calls[c].order.familyId !in s.revokedFamilies
  {
    var call := s.calls[c];
    var f := call.order.familyId;
    ParentIsLast(s, c);
    var last := |s.families[f].path| - 1;
    assert DeliveredRefresh(s, s.families[f].path[last], f);
    assert RowOk(s, call.parent) && CallOk(s, s.drawn[call.parent]);
    forall g | g in s.revokedFamilies ensures g != f { assert RevokedOk(s, g); }
  }

  lemma ConsumeKeepsRevocations(s: State, c: CallId, f: Id)
    requires Inv(s) && c in s.calls && s.calls[c].Consuming? && Consumable(s.rows, s.calls[c].parent)
    requires f in s.revokedFamilies
    ensures RevokedOk(Step(s, Consume(c)), f)
  {
    var t := Step(s, Consume(c));
    ConsumedFamilyIsLive(s, c);
    ConsumeGrows(s, c);
    assert RevokedOk(s, f);
    forall i | i in t.rows && t.rows[i].familyId == Some(f) && Held(t, t.rows[i].tokenHash.token)
      ensures t.rows[i].revokedAt.Some?
    {
      assert RowOk(s, i);
    }
  }

  lemma KeepsOnConsume(s: State, e: Event)
    requires Inv(s) && Enabled(s, e) && e.Consume?
    ensures Inv(Step(s, e))
  {
    var t, c := Step(s, e), e.call;
    assert CallOk(s, c);
    if Consumable(s.rows, s.calls[c].parent) {
      forall i {:trigger RowOk(t, i)} | i in t.rows ensures RowOk(t, i) { ConsumeKeepsRows(s, c, i); }
      forall f {:trigger FamilyOk(t, f)} | f in t.families ensures FamilyOk(t, f) {
        if f == s.calls[c].order.familyId { ConsumeExtendsPath(s, c); } else { ConsumeKeepsOtherFamilies(s, c, f); }
      }
      forall d {:trigger CallOk(t, d)} | d in t.calls ensures CallOk(t, d) { ConsumeKeepsCalls(s, c, d); }
      forall f {:trigger RevokedOk(t, f)} | f in t.revokedFamilies ensures RevokedOk(t, f) { ConsumeKeepsRevocations(s, c, f); }
    } else {
      Aside(s, t);
    }
  }

  // ---- Sweep: whole families of refresh rows disappear together ----

  lemma SweepGrows(s: State, now: int)
    requires Inv(s) && now <= s.clock
    ensures var t := Step(s, Sweep(now)); HistoryGrew(s, t) && RowsGrew(s, t) && SweptTogether(s, t)
  {}

  lemma SweepKeepsFamilies(s: State, now: int, f: Id)
    requires Inv(s) && now <= s.clock && f in s.families
    ensures FamilyOk(Step(s, Sweep(now)), f)
  {
    var t, path := Step(s, Sweep(now)), s.families[f].path;
    assert FamilyOk(s, f);
    if path[0] in s.rows {
      assert LinkAt(s.rows, f, path, 0) && RowOk(s, path[0]);
      forall k: nat | k < |path|
        ensures path[k] in s.rows && s.rows[path[k]].familyExpiresAt == Some(s.families[f].Cap())
        ensures path[0] in t.rows ==> LinkAt(t.rows, f, path, k)
      {
        assert LinkAt(s.rows, f, path, k) && RowOk(s, path[k]);
      }
    }
    forall k: nat | k < |path| ensures DeliveredRefresh(t, path[k], f) {
      assert DeliveredRefresh(s, path[k], f);
    }
  }

  lemma KeepsOnSweep(s: State, e: Event)
    requires Inv(s) && Enabled(s, e) && e.Sweep?
    ensures Inv(Step(s, e))
  {
    var t := Step(s, e);
    SweepGrows(s, e.now);
    AllPathsDelivered(s);
    forall i {:trigger RowOk(t, i)} | i in t.rows ensures RowOk(t, i) {
      assert RowOk(s, i);
      RowStays(s, t, i);
    }
    forall f {:trigger FamilyOk(t, f)} | f in t.families ensures FamilyOk(t, f) { SweepKeepsFamilies(s, e.now, f); }
    forall c {:trigger CallOk(t, c)} | c in t.calls ensures CallOk(t, c) {
      assert CallOk(s, c);
      CallFrame(s, t, c);
    }
    forall f {:trigger RevokedOk(t, f)} | f in t.revokedFamilies ensures RevokedOk(t, f) {
      assert RevokedOk(s, f);
    }
  }

  lemma Keeps(s: State, e: Event)
    requires Inv(s) && Enabled(s, e)
    ensures Inv(Step(s, e))
  {
    match e
    case Tick(_) => KeepsOnClockAndRevocation(s, e);
    case RevokeFamily(_) => KeepsOnClockAndRevocation(s, e);
    case RevokeOne(_) => KeepsOnClockAndRevocation(s, e);
    case BeginExchange(_, _, _, _, _, _, _) => KeepsOnBeginExchange(s, e);
    case GenerateIds(_, _, _) => KeepsOnGenerateIds(s, e);
    case CommitPair(_) => KeepsOnCommitPair(s, e);
    case Check(_, _, _, _) => KeepsOnCheck(s, e);
    case RevokeReplayed(_) => KeepsOnRevokeReplayed(s, e);
    case Consume(_) => KeepsOnConsume(s, e);
    case Compensate(_, _) => KeepsOnCompensate(s, e);
    case Sweep(_) => KeepsOnSweep(s, e);
    case Present(_, _) => KeepsOnMove(s, e);
    case Lookup(_, _) => KeepsOnMove(s, e);
    case LookupMiss(_) => KeepsOnMove(s, e);
    case LookupSuccessor(_) => KeepsOnMove(s, e);
    case CheckReplay(_) => KeepsOnMove(s, e);
  }
}
