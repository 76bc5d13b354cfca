/** What `refresh_superseded` says about the winner's pair, and which answers revoke a family. */
module WebSessionAnswers {
  import opened Support
  import opened ApiTokens
  import opened WebSessions
  import opened WebSessionInvariants
  import opened WebSessionTheorems

  // ---- the call knows the row it was presented ----

  predicate PresentedOk(s: State, c: CallId)
    requires c in s.calls
  {
    match s.calls[c]
    case Hashing(purpose, _) => purpose.ForRedeem? ==> c in s.presented && s.presented[c] == purpose.parent
    case Inserting(purpose, _, _, _, _) => purpose.ForRedeem? ==> c in s.presented && s.presented[c] == purpose.parent
    case Looking(_) => true
    case Found(id, _) => c in s.presented && s.presented[c] == id
    case Consuming(parent, _, _, _, _) => c in s.presented && s.presented[c] == parent
    case Redeemed(parent, _, _, _) => c in s.presented && s.presented[c] == parent
    case Exchanged(_, _, _) => true
    case Rejected(failure, _) => failure != InvalidRefreshToken ==> c in s.presented
    case _ => c in s.presented
  }

  lemma MintKeepsPresented(s: State, e: Event, c: CallId)
    requires Enabled(s, e) && (e.BeginExchange? || e.GenerateIds? || e.CommitPair? || e.Consume? || e.Compensate?)
    requires c in Step(s, e).calls && (c in s.calls ==> PresentedOk(s, c))
    ensures PresentedOk(Step(s, e), c)
  {}

  lemma CheckKeepsPresented(s: State, e: Event, c: CallId)
    requires Enabled(s, e) && (e.Present? || e.Lookup? || e.LookupMiss? || e.Check?)
    requires c in Step(s, e).calls && (c in s.calls ==> PresentedOk(s, c))
    ensures PresentedOk(Step(s, e), c)
  {}

  lemma StepKeepsPresented(s: State, e: Event, c: CallId)
    requires Enabled(s, e) && c in Step(s, e).calls && (c in s.calls ==> PresentedOk(s, c))
    ensures PresentedOk(Step(s, e), c)
  {
    if e.BeginExchange? || e.GenerateIds? || e.CommitPair? || e.Consume? || e.Compensate? {
      MintKeepsPresented(s, e, c);
    } else if e.Present? || e.Lookup? || e.LookupMiss? || e.Check? {
      CheckKeepsPresented(s, e, c);
    }
  }

  lemma {:induction false} RunKeepsPresented(s: State, events: seq<Event>)
    requires Possible(s, events) && forall c :: c in s.calls ==> PresentedOk(s, c)
    ensures forall c :: c in Run(s, events).calls ==> PresentedOk(Run(s, events), c)
    decreases |events|
  {
    if events != [] {
      var t := Step(s, events[0]);
      forall c | c in t.calls ensures PresentedOk(t, c) { StepKeepsPresented(s, events[0], c); }
      RunKeepsPresented(t, events[1..]);
    }
  }

  // ---- is the winner's pair live? ----

  /** Stored, not revoked, not expired. */
  predicate LiveRow(s: State, i: Id) {
    i in s.rows && s.rows[i].revokedAt.None? && s.clock < s.rows[i].expiresAt
  }

  /** What the answer is documented to mean: some call redeemed the token, and both halves of its pair are live. */
  ghost predicate WinnersPairIsLive(s: State, parent: Id) {
    exists d :: d in s.calls && s.calls[d].Redeemed? && s.calls[d].parent == parent
                && LiveRow(s, s.calls[d].accessId) && LiveRow(s, s.calls[d].refreshId)
  }

  /** The access row that was inserted with a refresh row. */
  predicate Mates(s: State, access: Id, refresh: Id) {
    && access in s.rows && s.rows[access].kind == WebSession
    && access in s.drawn && refresh in s.drawn && s.drawn[access] == s.drawn[refresh]
  }

  /** The stored token links to a live successor, whose access row is live too. */
  ghost predicate LinkedPairIsLive(s: State, parent: Id) {
    && parent in s.rows && s.rows[parent].rotatedTo.Some?
    && LiveRow(s, s.rows[parent].rotatedTo.value)
    && exists a :: Mates(s, a, s.rows[parent].rotatedTo.value) && LiveRow(s, a)
  }

  lemma LinkedPairHasWinner(s: State, parent: Id)
    requires Inv(s) && LinkedPairIsLive(s, parent)
    ensures WinnersPairIsLive(s, parent)
  {
    var n := s.rows[parent].rotatedTo.value;
    var a :| Mates(s, a, n) && LiveRow(s, a);
    var d := RedeemerOf(s, parent);
    assert RowOk(s, a) && RowOk(s, n);
    assert a == s.calls[d].accessId;
  }

  /** A stored link was written by the call that redeemed the token. */
  lemma RedeemerOf(s: State, parent: Id) returns (d: CallId)
    requires Inv(s) && parent in s.rows && s.rows[parent].rotatedTo.Some?
    ensures d in s.calls && s.calls[d].Redeemed? && s.calls[d].parent == parent
    ensures s.calls[d].refreshId == s.rows[parent].rotatedTo.value
    ensures s.calls[d].refreshId in s.drawn && s.drawn[s.calls[d].refreshId] == d
  {
    assert RowOk(s, parent);
    var f := s.rows[parent].familyId.value;
    assert FamilyOk(s, f);
    var path := s.families[f].path;
    var k: nat :| k < |path| && path[k] == parent;
    assert LinkAt(s.rows, f, path, k);
    assert DeliveredRefresh(s, path[k + 1], f);
    d := s.drawn[path[k + 1]];
    assert CallOk(s, d);
    if s.calls[d].Redeemed? {
      var j: nat :| j + 1 < |path| && path[j] == s.calls[d].parent && path[j + 1] == path[k + 1];
    }
  }

  /** A redeemed call's token is linked to its own refresh row as long as that row is stored and alive. */
  lemma WinnerIsLinked(s: State, d: CallId)
    requires Inv(s) && d in s.calls && s.calls[d].Redeemed? && LiveRow(s, s.calls[d].refreshId)
    ensures var call := s.calls[d]; call.parent in s.rows && s.rows[call.parent].rotatedTo == Some(call.refreshId)
  {
    var call := s.calls[d];
    assert CallOk(s, d) && RowOk(s, call.refreshId);
    var f := call.order.familyId;
    assert FamilyOk(s, f);
    var path := s.families[f].path;
    var k: nat :| k + 1 < |path| && path[k] == call.parent && path[k + 1] == call.refreshId;
    assert LinkAt(s.rows, f, path, k);
  }

  lemma WinnersPairIsLinked(s: State, parent: Id, d: CallId)
    requires Inv(s) && d in s.calls && s.calls[d].Redeemed? && s.calls[d].parent == parent
    requires LiveRow(s, s.calls[d].accessId) && LiveRow(s, s.calls[d].refreshId)
    ensures LinkedPairIsLive(s, parent)
  {
    WinnerIsLinked(s, d);
    assert CallOk(s, d) && RowOk(s, s.calls[d].accessId);
    assert Mates(s, s.calls[d].accessId, s.calls[d].refreshId);
  }

  /** A token's winner holds a live pair exactly when the stored token links to a live pair. */
  lemma WinnersPairIsLiveIff(s: State, parent: Id)
    requires Reachable(s)
    ensures WinnersPairIsLive(s, parent) <==> LinkedPairIsLive(s, parent)
  {
    ReachableKeeps(s);
    if WinnersPairIsLive(s, parent) {
      var d :| d in s.calls && s.calls[d].Redeemed? && s.calls[d].parent == parent
               && LiveRow(s, s.calls[d].accessId) && LiveRow(s, s.calls[d].refreshId);
      WinnersPairIsLinked(s, parent, d);
    }
    if LinkedPairIsLive(s, parent) {
      LinkedPairHasWinner(s, parent);
    }
  }

  predicate AnsweredSuperseded(s: State, c: CallId) {
    c in s.calls && s.calls[c].Rejected? && s.calls[c].failure == RefreshSuperseded
  }

  /**
   * Whichever way a call came to answer `refresh_superseded`, and whenever one looks: the winner's pair is live
   * exactly when the row it presented is linked to rows that are neither revoked nor expired.
   */
  lemma SupersededMeansLiveIff(s: State, c: CallId)
    requires Reachable(s) && AnsweredSuperseded(s, c)
    ensures c in s.presented
    ensures WinnersPairIsLive(s, s.presented[c]) <==> LinkedPairIsLive(s, s.presented[c])
  {
    var events :| Possible(INIT, events) && s == Run(INIT, events);
    RunKeepsPresented(INIT, events);
    assert PresentedOk(s, c);
    WinnersPairIsLiveIff(s, s.presented[c]);
  }

  /** The two ways to that answer: the end of a compensation, and a replay within the grace window. */
  lemma SupersededArisesIff(s: State, e: Event, c: CallId)
    requires Enabled(s, e) && !AnsweredSuperseded(s, c)
    ensures AnsweredSuperseded(Step(s, e), c) <==>
            || (e.Compensate? && e.call == c && s.calls[c].orphans == {e.orphan})
            || (e.CheckReplay? && e.call == c && s.calls[c].successor.Some?
                && s.clock - s.calls[c].successor.value.createdAt <= MINUTE_MS)
  {}

  // ---- what the columns of the row that was read lead to ----

  /** The row is a refresh token that this service minted. */
  predicate MintedHere(row: Row) {
    row.kind == WebSessionRefresh && row.provider in {Some("github"), Some("google")} && row.providerUserId.Some? && row.familyId.Some?
  }

  /**
   * The checks lead to a mint exactly for an unconsumed, unrevoked row before its own expiry and its family's cap,
   * to the replay checks exactly for a consumed one, and otherwise to a refusal; the new pair expires within its
   * windows and no later than the cap.
   */
  lemma CheckOutcomeIff(s: State, c: CallId, access: Token, refresh: Token, at: int)
    requires Enabled(s, Check(c, access, refresh, at))
    ensures var row := s.calls[c].row;
            var call := Step(s, Check(c, access, refresh, at)).calls[c];
            && (call.Hashing? <==>
                  && MintedHere(row) && row.rotatedTo.None? && row.revokedAt.None? && s.clock < row.expiresAt
                  && row.familyExpiresAt.Some? && s.clock < row.familyExpiresAt.value)
            && (call.FindingSuccessor? <==> MintedHere(row) && row.rotatedTo.Some?)
            && (call.FindingSuccessor? ==> call == FindingSuccessor(row.familyId.value, row.rotatedTo.value))
            && (call.Hashing? || call.FindingSuccessor? || call == Rejected(InvalidRefreshToken, if MintedHere(row) then row.familyId else None))
            && (call.Hashing? ==>
                  && call.purpose == ForRedeem(s.calls[c].id, row)
                  && call.order.userId == row.userId && Some(call.order.familyId) == row.familyId
                  && Some(call.order.subject.provider) == row.provider && Some(call.order.subject.providerUserId) == row.providerUserId
                  && Some(call.order.familyExpiresAt) == row.familyExpiresAt
                  && call.order.pair == TokenPair(access, Min(at + 8 * HOUR_MS, row.familyExpiresAt.value),
                                                  refresh, Min(at + 30 * DAY_MS, row.familyExpiresAt.value)))
  {}

  // ---- which answers revoke a family ----

  predicate ByOtherWriter(e: Event) {
    e.RevokeFamily? || e.RevokeOne? || e.Sweep?
  }

  /** Of a call's own steps, only the revocation after a replay revokes a family. */
  lemma OwnStepRevokesIff(s: State, e: Event, f: Id)
    requires Enabled(s, e) && !ByOtherWriter(e) && f !in s.revokedFamilies
    ensures f in Step(s, e).revokedFamilies <==> e.RevokeReplayed? && s.calls[e.call].familyId == f && f in s.families
  {}

  /** A call comes to that revocation exactly when the replayed token's successor is missing or past the grace window. */
  lemma RevocationIsReachedIff(s: State, e: Event, c: CallId)
    requires Enabled(s, e) && !(c in s.calls && s.calls[c].RevokingFamily?)
    ensures c in Step(s, e).calls && Step(s, e).calls[c].RevokingFamily? <==>
            && e.CheckReplay? && e.call == c
            && (s.calls[c].successor.None? || s.clock - s.calls[c].successor.value.createdAt > MINUTE_MS)
  {}

  // ---- runs ----

  lemma {:induction false} RunAppends(s: State, events: seq<Event>, e: Event)
    requires Possible(s, events) && Enabled(Run(s, events), e)
    ensures Possible(s, events + [e]) && Run(s, events + [e]) == Step(Run(s, events), e)
    decreases |events|
  {
    var longer := events + [e];
    if events == [] {
      assert longer[1..] == [];
    } else {
      assert longer[1..] == events[1..] + [e];
      RunAppends(Step(s, events[0]), events[1..], e);
    }
  }

  lemma ReachableStep(s: State, e: Event)
    requires Reachable(s) && Enabled(s, e)
    ensures Reachable(Step(s, e))
  {
    var events :| Possible(INIT, events) && s == Run(INIT, events);
    RunAppends(INIT, events, e);
  }

  lemma Play(s: State, e: Event) returns (t: State)
    requires Reachable(s) && Enabled(s, e)
    ensures Reachable(t) && t == Step(s, e)
  {
    ReachableStep(s, e);
    t := Step(s, e);
  }

  /** One exchange: the refresh token 11 sits in row 2. */
  lemma OneExchange() returns (s: State)
    ensures Reachable(s) && s.clock == 0 && s.calls.Keys == {0} && s.calls[0].Exchanged? && Held(s, 11)
    ensures s.owner.Keys == {10, 11} && s.drawn.Keys == {0, 1, 2} && s.guessed == {} && 0 in s.families
    ensures 2 in s.rows
    ensures var row := s.rows[2];
            row.tokenHash == Sha256(11) && row.kind == WebSessionRefresh && row.familyId == Some(0) && IsWebSessionRow(row)
            && row.rotatedTo.None? && row.revokedAt.None? && row.expiresAt > 0 && row.familyExpiresAt == Some(WEB_SESSION_FAMILY_TTL_MS)
    ensures s.revokedFamilies == {} && s.presented == map[] && s.rows.Keys == {1, 2} && s.rows[1].tokenHash == Sha256(10)
  {
    assert Possible(INIT, []) && Run(INIT, []) == INIT;
    s := Play(INIT, BeginExchange(0, 7, Subject("github", "u"), 0, 10, 11, 0));
    s := Play(s, GenerateIds(0, 1, 2));
    s := Play(s, CommitPair(0));
  }

  /** A redeem of it passes its checks, and then its family is revoked. */
  lemma RevokedAfterTheCheck() returns (s: State)
    ensures Reachable(s) && s.calls.Keys == {0, 1} && s.calls[0].Exchanged? && s.calls[1].Hashing?
    ensures s.calls[1].purpose.ForRedeem? && s.calls[1].purpose.parent == 2 && s.calls[1].order.familyId == 0
    ensures s.drawn.Keys == {0, 1, 2} && 2 in s.rows && s.rows[2].revokedAt.Some?
    ensures s.rows[2].rotatedTo.None? && s.presented == map[1 := 2]
  {
    s := OneExchange();
    s := Play(s, Present(1, 11));
    s := Play(s, Lookup(1, 2));
    s := Play(s, Check(1, 12, 13, 0));
    s := Play(s, RevokeFamily(0));
  }

  /**
   * The documented reading of `refresh_superseded`, that a winner's pair is live, fails when the family was
   * revoked between the read and the compare-and-set: here nobody ever redeemed the token.
   */
  lemma SupersededWithoutAWinner() returns (s: State)
    ensures Reachable(s) && 1 in s.calls && s.calls[1] == Rejected(RefreshSuperseded, Some(0))
    ensures !HasWinner(s, 2) && 1 in s.presented && s.presented[1] == 2 && !LinkedPairIsLive(s, 2)
  {
    s := RevokedAfterTheCheck();
    s := Play(s, GenerateIds(1, 3, 4));
    s := Play(s, CommitPair(1));
    s := Play(s, Consume(1));
    s := Play(s, Compensate(1, 3));
    assert s.calls[1].orphans == {4};
    s := Play(s, Compensate(1, 4));
  }

  /** Row 2 is the stored, unconsumed, unrevoked refresh row of family 0. */
  predicate OpenRow(s: State) {
    && 2 in s.rows && s.rows.Keys == {1, 2} && 0 in s.families
    && var row := s.rows[2];
       && row.tokenHash == Sha256(11) && row.kind == WebSessionRefresh && row.familyId == Some(0) && IsWebSessionRow(row)
       && row.rotatedTo.None? && row.revokedAt.None? && row.expiresAt > 0 && row.familyExpiresAt == Some(WEB_SESSION_FAMILY_TTL_MS)
       && s.rows[1].tokenHash == Sha256(10)
  }

  /** A redeem of row 2 that passed its checks and drew these tokens. */
  predicate OpenRedeem(call: Call, access: Token, refresh: Token) {
    && call.Hashing? && call.purpose.ForRedeem? && call.purpose.parent == 2 && call.order.familyId == 0
    && call.order.pair == TokenPair(access, WEB_SESSION_TOKEN_TTL_MS, refresh, WEB_SESSION_REFRESH_TTL_MS)
  }

  /** Two calls present the token together. */
  lemma BothFound() returns (s: State)
    ensures Reachable(s) && s.clock == 0 && s.calls.Keys == {0, 1, 2} && s.drawn.Keys == {0, 1, 2} && OpenRow(s) && Held(s, 11)
    ensures s.calls[1] == Found(2, s.rows[2]) && s.calls[2] == Found(2, s.rows[2])
    ensures s.revokedFamilies == {} && s.owner.Keys == {10, 11} && s.guessed == {} && s.presented == map[1 := 2, 2 := 2]
  {
    s := OneExchange();
    s := Play(s, Present(1, 11));
    s := Play(s, Lookup(1, 2));
    s := Play(s, Present(2, 11));
    s := Play(s, Lookup(2, 2));
  }

  lemma FirstChecked() returns (s: State)
    ensures Reachable(s) && s.clock == 0 && s.calls.Keys == {0, 1, 2} && s.drawn.Keys == {0, 1, 2} && OpenRow(s) && Held(s, 11)
    ensures OpenRedeem(s.calls[1], 12, 13) && s.calls[2] == Found(2, s.rows[2])
    ensures s.revokedFamilies == {} && s.owner.Keys == {10, 11, 12, 13} && s.presented == map[1 := 2, 2 := 2] && s.guessed == {}
  {
    s := BothFound();
    var e := Check(1, 12, 13, 0);
    ReachableStep(s, e);
    s := Step(s, e);
  }

  lemma BothChecked() returns (s: State)
    ensures Reachable(s) && s.clock == 0 && s.calls.Keys == {0, 1, 2} && s.drawn.Keys == {0, 1, 2} && OpenRow(s) && Held(s, 11)
    ensures OpenRedeem(s.calls[1], 12, 13) && OpenRedeem(s.calls[2], 14, 15)
    ensures s.revokedFamilies == {} && s.owner.Keys == {10, 11, 12, 13, 14, 15} && s.presented == map[1 := 2, 2 := 2] && s.guessed == {}
  {
    s := FirstChecked();
    var e := Check(2, 14, 15, 0);
    ReachableStep(s, e);
    s := Step(s, e);
  }

  /** Both have minted, as rows 3 and 4, and 5 and 6. */
  predicate BothMinted(s: State) {
    && s.clock == 0 && s.calls.Keys == {0, 1, 2} && s.rows.Keys == {1, 2, 3, 4, 5, 6} && 0 in s.families && s.revokedFamilies == {}
    && Held(s, 11) && s.owner.Keys == {10, 11, 12, 13, 14, 15} && s.guessed == {} && s.presented == map[1 := 2, 2 := 2]
    && s.rows[2].tokenHash == Sha256(11) && s.rows[2].kind == WebSessionRefresh && s.rows[2].familyId == Some(0) && IsWebSessionRow(s.rows[2])
    && s.rows[2].rotatedTo.None? && s.rows[2].revokedAt.None?
    && MintedRow(s.rows[3]) && s.rows[3].kind == WebSession && MintedRow(s.rows[4]) && s.rows[4].kind == WebSessionRefresh
    && s.calls[1].Consuming? && s.calls[1].parent == 2 && s.calls[1].order.familyId == 0 && s.calls[1].accessId == 3 && s.calls[1].refreshId == 4
    && s.calls[2].Consuming? && s.calls[2].parent == 2 && s.calls[2].order.familyId == 0 && s.calls[2].accessId == 5 && s.calls[2].refreshId == 6
  }

  predicate MintedRow(row: Row) {
    row.familyId == Some(0) && row.revokedAt.None? && row.createdAt == 0 && row.expiresAt > 0
  }

  /** Call 1 has minted. */
  lemma FirstMinted() returns (s: State)
    ensures Reachable(s) && s.clock == 0 && s.calls.Keys == {0, 1, 2} && s.drawn.Keys == {0, 1, 2, 3, 4} && 0 in s.families
    ensures s.rows.Keys == {1, 2, 3, 4} && Held(s, 11) && s.revokedFamilies == {}
    ensures s.owner.Keys == {10, 11, 12, 13, 14, 15} && s.guessed == {} && s.presented == map[1 := 2, 2 := 2]
    ensures s.rows[2].tokenHash == Sha256(11) && s.rows[2].kind == WebSessionRefresh && s.rows[2].familyId == Some(0) && IsWebSessionRow(s.rows[2])
    ensures s.rows[2].rotatedTo.None? && s.rows[2].revokedAt.None?
    ensures MintedRow(s.rows[3]) && s.rows[3].kind == WebSession && MintedRow(s.rows[4]) && s.rows[4].kind == WebSessionRefresh
    ensures s.calls[1].Consuming? && s.calls[1].parent == 2 && s.calls[1].order.familyId == 0 && s.calls[1].accessId == 3 && s.calls[1].refreshId == 4
    ensures OpenRedeem(s.calls[2], 14, 15)
  {
    s := BothChecked();
    s := Play(s, GenerateIds(1, 3, 4));
    assert OpenRow(s) && OpenRedeem(s.calls[2], 14, 15);
    s := Play(s, CommitPair(1));
  }

  lemma BothMint() returns (s: State)
    ensures Reachable(s) && BothMinted(s)
  {
    s := FirstMinted();
    s := Play(s, GenerateIds(2, 5, 6));
    s := Play(s, CommitPair(2));
  }

  /** Call 1 wins. */
  predicate FirstWon(s: State) {
    && s.clock == 0 && s.calls.Keys == {0, 1, 2} && 0 in s.families && s.revokedFamilies == {}
    && Held(s, 11) && s.owner.Keys == {10, 11, 12, 13, 14, 15} && s.guessed == {} && s.presented == map[1 := 2, 2 := 2]
    && s.rows.Keys == {1, 2, 3, 4, 5, 6}
    && s.rows[2].tokenHash == Sha256(11) && s.rows[2].kind == WebSessionRefresh && s.rows[2].familyId == Some(0) && IsWebSessionRow(s.rows[2])
    && s.rows[2].rotatedTo == Some(4)
    && MintedRow(s.rows[3]) && s.rows[3].kind == WebSession && MintedRow(s.rows[4]) && s.rows[4].kind == WebSessionRefresh
    && s.calls[1].Redeemed? && s.calls[1].parent == 2 && s.calls[1].accessId == 3 && s.calls[1].refreshId == 4
    && s.calls[2].Consuming? && s.calls[2].parent == 2 && s.calls[2].order.familyId == 0 && s.calls[2].accessId == 5 && s.calls[2].refreshId == 6
  }

  lemma FirstWins() returns (s: State)
    ensures Reachable(s) && FirstWon(s)
  {
    s := BothMint();
    s := Play(s, Consume(1));
  }

  /** Call 2 loses the race and compensates: its answer leaves the family, and the winner's pair, as they were. */
  lemma LostRaceLeavesTheFamily(before: State) returns (s: State)
    requires Reachable(before) && 2 in before.calls && before.calls[2].Consuming? && before.calls[2].order.familyId == 0
    requires before.calls[2].accessId == 5 && before.calls[2].refreshId == 6 && !Consumable(before.rows, before.calls[2].parent)
    ensures Reachable(s) && 2 in s.calls && s.calls[2] == Rejected(RefreshSuperseded, Some(0))
    ensures s.revokedFamilies == before.revokedFamilies && s.clock == before.clock && s.presented == before.presented
    ensures forall c :: c in before.calls && c != 2 ==> c in s.calls && s.calls[c] == before.calls[c]
    ensures forall i :: i in before.rows && i != 5 && i != 6 ==> i in s.rows && s.rows[i] == before.rows[i]
  {
    s := Play(before, Consume(2));
    assert s.calls[2] == Compensating(0, {5, 6});
    assert {5, 6} - {5} == {6};
    s := Play(s, Compensate(2, 5));
    s := Play(s, Compensate(2, 6));
  }

  /** A lost race after which the family is not revoked and the winner's pair is live. */
  lemma SupersededWithALiveWinner() returns (s: State)
    ensures Reachable(s) && AnsweredSuperseded(s, 2) && s.presented == map[1 := 2, 2 := 2]
    ensures 0 in s.families && s.revokedFamilies == {} && WinnersPairIsLive(s, 2)
  {
    s := FirstWins();
    s := LostRaceLeavesTheFamily(s);
    ReachableKeeps(s);
    assert LiveRow(s, s.calls[1].accessId) && LiveRow(s, s.calls[1].refreshId);
    FamiliesStand(s);
  }

  lemma FamiliesStand(s: State)
    requires Inv(s) && 2 in s.rows && s.rows[2].familyId == Some(0)
    ensures 0 in s.families
  {
    assert RowOk(s, 2);
  }

  /** A lost race to a winner whose family is revoked before the loser's compare-and-set. */
  lemma SupersededByARevokedWinner() returns (s: State)
    ensures Reachable(s) && AnsweredSuperseded(s, 2) && s.presented == map[1 := 2, 2 := 2]
    ensures HasWinner(s, 2) && !WinnersPairIsLive(s, 2)
  {
    s := FirstWins();
    s := Play(s, RevokeFamily(0));
    s := LostRaceLeavesTheFamily(s);
    assert s.calls[1].Redeemed? && s.calls[1].parent == 2;
    assert s.rows[2].rotatedTo == Some(4) && !LiveRow(s, 4);
    WinnersPairIsLiveIff(s, 2);
  }

  /** A replay, within the grace window, of a token whose family was revoked after it was redeemed. */
  lemma ReplayFindsTheSuccessor() returns (s: State)
    ensures Reachable(s) && s.clock == 0 && 3 in s.calls && s.calls[3] == FindingSuccessor(0, 4)
    ensures 2 in s.rows && s.rows[2].rotatedTo == Some(4) && 4 in s.rows && s.rows[4].revokedAt.Some? && s.rows[4].createdAt == 0
    ensures 1 in s.calls && s.calls[1].Redeemed? && s.calls[1].parent == 2 && 3 in s.presented && s.presented[3] == 2
  {
    s := FirstWins();
    s := Play(s, RevokeFamily(0));
    s := Play(s, Present(3, 11));
    s := Play(s, Lookup(3, 2));
    s := Play(s, Check(3, 16, 17, 0));
  }

  lemma ReplayOfARevokedWinner() returns (s: State)
    ensures Reachable(s) && AnsweredSuperseded(s, 3) && 3 in s.presented && s.presented[3] == 2
    ensures HasWinner(s, 2) && !WinnersPairIsLive(s, 2)
  {
    s := ReplayFindsTheSuccessor();
    s := Play(s, LookupSuccessor(3));
    s := Play(s, CheckReplay(3));
    assert s.calls[1].Redeemed? && s.calls[1].parent == 2;
    assert !LiveRow(s, 4);
    WinnersPairIsLiveIff(s, 2);
  }
}
