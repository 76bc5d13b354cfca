/** What every run of the token service guarantees to its callers. */
module WebSessionTheorems {
  import opened Support
  import opened ApiTokens
  import opened WebSessions
  import opened WebSessionInvariants

  lemma {:induction false} RunKeeps(s: State, events: seq<Event>)
    requires Inv(s) && Possible(s, events)
    ensures Inv(Run(s, events))
    decreases |events|
  {
    if events != [] {
      Keeps(s, events[0]);
      RunKeeps(Step(s, events[0]), events[1..]);
    }
  }

  ghost predicate Reachable(s: State) {
    exists events :: Possible(INIT, events) && s == Run(INIT, events)
  }

  lemma ReachableKeeps(s: State)
    requires Reachable(s)
    ensures Inv(s)
  {
    var events :| Possible(INIT, events) && s == Run(INIT, events);
    RunKeeps(INIT, events);
  }

  // ---- one path per family ----

  /** The stored chain of a family: one path from its first mint, one subject, one cap, only the end unconsumed. */
  ghost predicate OnePath(s: State, f: Id)
    requires f in s.families
  {
    var family := s.families[f];
    && |family.path| > 0 && NoDuplicates(family.path)
    && Linked(s.rows, f, family.path)
    && (forall n :: n in family.path ==> n in s.rows && OfFamily(s.rows[n], f, family))
    && (forall i :: i in s.rows && s.rows[i].familyId == Some(f) && s.rows[i].rotatedTo.Some? ==> i in family.path)
  }

  /** Until a day past the cap the whole chain is stored; afterwards it may only disappear as a whole. */
  lemma FamilyIsOnePath(s: State, f: Id)
    requires Reachable(s) && f in s.families
    ensures s.clock < s.families[f].Cap() + EXPIRED_TOKEN_RETENTION_MS ==> OnePath(s, f)
    ensures OnePath(s, f) || Gone(s.rows, s.families[f].path)
  {
    ReachableKeeps(s);
    assert FamilyOk(s, f);
    var path := s.families[f].path;
    if path[0] in s.rows {
      forall n | n in path ensures n in s.rows && OfFamily(s.rows[n], f, s.families[f]) {
        var k: nat :| k < |path| && path[k] == n;
        assert LinkAt(s.rows, f, path, k) && RowOk(s, n);
      }
      forall i | i in s.rows && s.rows[i].familyId == Some(f) && s.rows[i].rotatedTo.Some? ensures i in path {
        assert RowOk(s, i);
      }
    }
  }

  /** Every refresh token ever handed out lies on its family's path, which starts at the exchange's own. */
  lemma DeliveredLiesOnPath(s: State, c: CallId)
    requires Reachable(s) && c in s.calls && Delivered(s.calls[c])
    ensures var call := s.calls[c];
            && call.order.familyId in s.families
            && var path := s.families[call.order.familyId].path;
               && call.refreshId in path
               && (call.Exchanged? ==> path[0] == call.refreshId)
               && (call.Redeemed? ==> Adjacent(path, call.parent, call.refreshId))
  {
    ReachableKeeps(s);
    assert CallOk(s, c);
    if s.calls[c].Redeemed? {
      var path := s.families[s.calls[c].order.familyId].path;
      var k: nat :| k + 1 < |path| && path[k] == s.calls[c].parent && path[k + 1] == s.calls[c].refreshId;
    }
  }

  /** Each refresh token redeems successfully at most once. */
  lemma RedeemsAtMostOnce(s: State, c: CallId, d: CallId)
    requires Reachable(s) && c in s.calls && d in s.calls && s.calls[c].Redeemed? && s.calls[d].Redeemed?
    requires s.calls[c].parent == s.calls[d].parent
    ensures c == d
  {
    ReachableKeeps(s);
    assert CallOk(s, c) && CallOk(s, d);
    var f, g := s.calls[c].order.familyId, s.calls[d].order.familyId;
    assert FamilyOk(s, f) && FamilyOk(s, g);
    var path := s.families[f].path;
    var k: nat :| k + 1 < |path| && path[k] == s.calls[c].parent && path[k + 1] == s.calls[c].refreshId;
    var path' := s.families[g].path;
    var k': nat :| k' + 1 < |path'| && path'[k'] == s.calls[d].parent && path'[k' + 1] == s.calls[d].refreshId;
    assert DeliveredRefresh(s, path[k], f) && DeliveredRefresh(s, path'[k'], g);
  }

  // ---- revocation is final ----

  lemma RevokedStep(s: State, e: Event, f: Id)
    requires Inv(s) && Enabled(s, e) && f in s.revokedFamilies
    ensures var t := Step(s, e);
            && f in t.revokedFamilies && f in s.families && f in t.families && t.families[f].path == s.families[f].path
            && forall c :: c in t.calls && Delivered(t.calls[c]) && t.calls[c].order.familyId == f ==>
                 c in s.calls && t.calls[c] == s.calls[c]
  {
    assert RevokedOk(s, f);
    if e.Consume? && Consumable(s.rows, s.calls[e.call].parent) {
      ConsumedFamilyIsLive(s, e.call);
    }
    if e.CommitPair? {
      assert CallOk(s, e.call);
      FamiliesWereExchanged(s);
    }
  }

  lemma {:induction false} RevokedRun(s: State, events: seq<Event>, f: Id)
    requires Inv(s) && Possible(s, events) && f in s.revokedFamilies && f in s.families
    ensures var t := Run(s, events);
            && f in t.revokedFamilies && f in t.families && t.families[f].path == s.families[f].path
            && forall c :: c in t.calls && Delivered(t.calls[c]) && t.calls[c].order.familyId == f ==>
                 c in s.calls && t.calls[c] == s.calls[c]
    decreases |events|
  {
    if events != [] {
      RevokedStep(s, events[0], f);
      Keeps(s, events[0]);
      RevokedRun(Step(s, events[0]), events[1..], f);
    }
  }

  /**
   * Once `revokeFamily` commits, in whatever order the calls in flight continue or stop: nobody receives
   * another token of the family, its path never grows, and no held token of it is accepted or may be rotated.
   */
  lemma RevokedFamilyIsDeadForever(s: State, revoke: Event, events: seq<Event>)
    requires Reachable(s) && Enabled(s, revoke)
    requires revoke.RevokeFamily? || revoke.RevokeReplayed?
    requires Possible(Step(s, revoke), events)
    ensures var f := if revoke.RevokeFamily? then revoke.familyId else s.calls[revoke.call].familyId;
            var t := Run(Step(s, revoke), events);
            f in s.families ==>
              && f in t.families && t.families[f].path == s.families[f].path
              && (forall c :: c in t.calls && Delivered(t.calls[c]) && t.calls[c].order.familyId == f ==>
                    c in s.calls && t.calls[c] == s.calls[c])
              && (forall i, now :: i in t.rows && t.rows[i].familyId == Some(f) && Held(t, t.rows[i].tokenHash.token) ==>
                    VerifyRow(Some((i, t.rows[i])), now).Failure? && !Judge(t.rows[i], now).MayMint?)
  {
    var f := if revoke.RevokeFamily? then revoke.familyId else s.calls[revoke.call].familyId;
    ReachableKeeps(s);
    Keeps(s, revoke);
    if f in s.families {
      RevokedRun(Step(s, revoke), events, f);
      RunKeeps(Step(s, revoke), events);
      assert RevokedOk(Run(Step(s, revoke), events), f);
    }
  }

  // ---- the family cap and the retention sweep ----

  predicate Accepted(rows: Table, i: Id, now: int) {
    i in rows && VerifyRow(Some((i, rows[i])), now).Success?
  }

  predicate Redeemable(rows: Table, i: Id, now: int) {
    i in rows && Judge(rows[i], now).MayMint?
  }

  /** However many rotations happen, nothing of a family is accepted at or after its first mint plus 90 days. */
  lemma NothingOutlivesTheCap(s: State, i: Id, now: int)
    requires Reachable(s) && i in s.rows
    ensures s.rows[i].familyId.Some? && s.rows[i].familyId.value in s.families
    ensures Accepted(s.rows, i, now) || Redeemable(s.rows, i, now) ==>
              now < s.families[s.rows[i].familyId.value].born + WEB_SESSION_FAMILY_TTL_MS
  {
    ReachableKeeps(s);
    assert RowOk(s, i);
  }

  /** The sweep never changes which tokens are accepted or redeemable. */
  lemma SweepIsInvisible(s: State, sweep: int, i: Id, now: int)
    requires Reachable(s) && sweep <= s.clock <= now
    ensures Accepted(Swept(s.rows, sweep), i, now) <==> Accepted(s.rows, i, now)
    ensures Redeemable(Swept(s.rows, sweep), i, now) <==> Redeemable(s.rows, i, now)
  {
    ReachableKeeps(s);
    if i in s.rows {
      assert RowOk(s, i);
    }
  }

  /** Until a day past the cap a replay of a consumed token still finds its row and its successor. */
  lemma ReplayIsNeverUnknown(s: State, c: CallId, now: int)
    requires Reachable(s) && c in s.calls && s.calls[c].Redeemed?
    requires s.clock < s.calls[c].order.familyExpiresAt + EXPIRED_TOKEN_RETENTION_MS
    ensures var call := s.calls[c];
            && call.parent in s.rows && call.refreshId in s.rows
            && Judge(s.rows[call.parent], now) == Replay(call.order.familyId, call.refreshId)
  {
    ReachableKeeps(s);
    var call := s.calls[c];
    assert CallOk(s, c);
    var f := call.order.familyId;
    FamilyIsOnePath(s, f);
    assert FamilyOk(s, f);
    var path := s.families[f].path;
    var k: nat :| k + 1 < |path| && path[k] == call.parent && path[k + 1] == call.refreshId;
    assert LinkAt(s.rows, f, path, k) && LinkAt(s.rows, f, path, k + 1);
  }

  // ---- the loser of a race ----

  /** Compensation revokes only rows nobody holds: the winner's pair stays as it is. */
  lemma CompensationSparesHeldTokens(s: State, c: CallId, orphan: Id)
    requires Reachable(s) && Enabled(s, Compensate(c, orphan))
    ensures orphan in s.rows ==> !Held(s, s.rows[orphan].tokenHash.token)
    ensures forall f :: f in s.families ==> orphan !in s.families[f].path
  {
    ReachableKeeps(s);
    assert CallOk(s, c);
    if orphan in s.rows {
      assert RowOk(s, orphan);
    }
    forall f | f in s.families ensures orphan !in s.families[f].path {
      OnlyDeliveredOnPath(s, f, c);
    }
  }

  /** Some other call redeemed the token. */
  ghost predicate HasWinner(s: State, parent: Id) {
    exists c :: c in s.calls && s.calls[c].Redeemed? && s.calls[c].parent == parent
  }

  /** A failed compare-and-set has a winner exactly when the stored row is linked to a successor. */
  lemma LostRaceHasWinnerIffLinked(s: State, c: CallId)
    requires Reachable(s) && c in s.calls && s.calls[c].Consuming? && s.calls[c].parent in s.rows
    ensures HasWinner(s, s.calls[c].parent) <==> s.rows[s.calls[c].parent].rotatedTo.Some?
  {
    ReachableKeeps(s);
    var parent, f := s.calls[c].parent, s.calls[c].order.familyId;
    assert CallOk(s, c) && FamilyOk(s, f);
    var path := s.families[f].path;
    var k: nat :| k < |path| && path[k] == parent;
    assert LinkAt(s.rows, f, path, k) && DeliveredRefresh(s, parent, f);
    if k + 1 < |path| {
      assert DeliveredRefresh(s, path[k + 1], f);
      var d := s.drawn[path[k + 1]];
      assert CallOk(s, d);
      if s.calls[d].Redeemed? {
        var j: nat :| j + 1 < |path| && path[j] == s.calls[d].parent && path[j + 1] == path[k + 1];
      }
    }
    if HasWinner(s, parent) {
      var d :| d in s.calls && s.calls[d].Redeemed? && s.calls[d].parent == parent;
      assert CallOk(s, d);
      var g := s.calls[d].order.familyId;
      assert FamilyOk(s, g);
      var path' := s.families[g].path;
      var j: nat :| j + 1 < |path'| && path'[j] == parent && path'[j + 1] == s.calls[d].refreshId;
      assert DeliveredRefresh(s, path'[j], g);
    }
  }
}
