/**
 * When a sign-in binding can still change its user.
 *
 * A sign-in never reparents a binding, but the legacy resolver re-links an identity of a user without an email.
 */
module SignInRelinks {
  import opened Support
  import opened SignInIdentities
  import opened SignInResolver
  import Credentials = ProviderCredentials

  function Owner(s: State, i: string): string
    requires i in s.db.identities
  {
    s.db.identities[i].userId
  }

  // ---- exactly which steps move a binding ----

  /** A re-link of this identity lands: it names another user, and nothing refers to the old pair. */
  predicate Lands(s: State, e: Event, i: string)
    requires i in s.db.identities
  {
    && e.LegacyRelinks? && e.legacy in s.legacy && s.legacy[e.legacy].FoundOwner? && s.legacy[e.legacy].identityId == i
    && s.legacy[e.legacy].ownerId != Owner(s, i) && !Named(s.db, i, Owner(s, i))
  }

  lemma WritesKeepOwners(db: Db, w: Write, i: string)
    requires i in db.identities && !w.Relink?
    ensures i in Written(db, w).identities && Written(db, w).identities[i].userId == db.identities[i].userId
  {}

  lemma OnlyRelinksMove(s: State, e: Event, i: string)
    requires Enabled(s, e) && i in s.db.identities && !e.LegacyRelinks?
    ensures i in NextDb(s, e).identities && NextDb(s, e).identities[i].userId == Owner(s, i)
  {
    if e.OtherWrite? {
      WritesKeepOwners(s.db, e.write, i);
    }
  }

  /** A binding's user changes in a step exactly when a re-link of that identity lands. */
  lemma BindingMovesIff(s: State, e: Event, i: string)
    requires Enabled(s, e) && i in s.db.identities && (e.LegacyRelinks? ==> LegacyOk(s, e.legacy))
    ensures i in Step(s, e).db.identities
    ensures Owner(Step(s, e), i) != Owner(s, i) <==> Lands(s, e, i)
    ensures Lands(s, e, i) ==> Owner(Step(s, e), i) == s.legacy[e.legacy].ownerId
  {
    if !e.LegacyRelinks? {
      OnlyRelinksMove(s, e, i);
    }
  }

  /** The users that landed re-links gave the identity, in order. */
  ghost function Landed(s: State, events: seq<Event>, i: string): seq<string>
    requires Possible(s, events)
    decreases |events|
  {
    if events == [] then []
    else (if i in s.db.identities then Gain(s, events[0], i) else []) + Landed(Step(s, events[0]), events[1..], i)
  }

  lemma StepHistory(s: State, e: Event, i: string)
    requires Enabled(s, e) && i in s.db.identities && OwnerOk(s.owners, s.db.identities, i)
    requires e.LegacyRelinks? ==> LegacyOk(s, e.legacy)
    ensures i in Step(s, e).owners
    ensures Step(s, e).owners[i] == s.owners[i] + Gain(s, e, i)
  {
    BindingMovesIff(s, e, i);
  }

  lemma LegacyIsOk(s: State, e: Event)
    requires Inv(s) && Enabled(s, e) && e.LegacyRelinks?
    ensures LegacyOk(s, e.legacy)
  {
    assert LegacyOk(s, e.legacy);
  }

  function Gain(s: State, e: Event, i: string): seq<string>
    requires i in s.db.identities
  {
    if Lands(s, e, i) then [s.legacy[e.legacy].ownerId] else []
  }

  lemma HistoryStep(s: State, e: Event, i: string)
    requires Inv(s) && Enabled(s, e) && i in s.db.identities
    ensures Inv(Step(s, e)) && i in Step(s, e).db.identities && i in s.owners && i in Step(s, e).owners
    ensures Step(s, e).owners[i] == s.owners[i] + Gain(s, e, i)
  {
    assert OwnerOk(s.owners, s.db.identities, i);
    if e.LegacyRelinks? {
      LegacyIsOk(s, e);
    }
    StepHistory(s, e, i);
    BindingMovesIff(s, e, i);
    Keeps(s, e);
  }

  /**
   * Along every run, the users an identity has been bound to are those before and those of its landed re-links;
   * the last of them is its present user.
   */
  lemma {:induction false} BindingHistoryIsItsRelinks(s: State, events: seq<Event>, i: string)
    requires Inv(s) && Possible(s, events) && i in s.db.identities
    ensures i in s.owners && OwnerOk(Run(s, events).owners, Run(s, events).db.identities, i)
    ensures Run(s, events).owners[i] == s.owners[i] + Landed(s, events, i)
    decreases |events|
  {
    assert OwnerOk(s.owners, s.db.identities, i);
    if events != [] {
      var t := Step(s, events[0]);
      HistoryStep(s, events[0], i);
      BindingHistoryIsItsRelinks(t, events[1..], i);
      HistoryJoins(s.owners[i], Gain(s, events[0], i), Landed(t, events[1..], i));
    }
  }

  lemma HistoryJoins(a: seq<string>, b: seq<string>, c: seq<string>)
    ensures (a + b) + c == a + (b + c)
  {}

  /** A binding that a claim, session or code refers to is permanent. */
  lemma ReferredBindingIsPermanent(s: State, events: seq<Event>, i: string)
    requires Inv(s) && Possible(s, events) && i in s.db.identities && Named(s.db, i, Owner(s, i))
    ensures i in Run(s, events).db.identities && Owner(Run(s, events), i) == Owner(s, i)
  {
    RunKeeps(s, events);
  }

  // ---- exactly which bindings can still move ----

  /** This legacy resolver may still re-link the identity to somebody else. */
  predicate MayRelink(s: State, l: nat, i: string)
    requires l in s.legacy && i in s.db.identities
  {
    match s.legacy[l]
    case FoundIdentity(j, u) => j == i && u in s.db.users && s.db.users[u].email.None?
    case SawNoEmail(j, _) => j == i
    case FoundOwner(j, owner) => j == i && owner != Owner(s, i)
  }

  /** Nothing refers to the binding, and its user has no email or a legacy resolver has already read as much. */
  predicate MayMove(s: State, i: string)
    requires i in s.db.identities
  {
    && !Named(s.db, i, Owner(s, i))
    && ((Owner(s, i) in s.db.users && s.db.users[Owner(s, i)].email.None?) || exists l | l in s.legacy :: MayRelink(s, l, i))
  }

  lemma RelinkersStayHarmless(s: State, e: Event, l: nat, i: string)
    requires Enabled(s, e) && Settled(s.db, NextDb(s, e)) && i in s.db.identities && l in Moved(s, e).legacy
    requires Owner(s, i) in s.db.users && s.db.users[Owner(s, i)].email.Some? && Owner(Step(s, e), i) == Owner(s, i)
    requires l in s.legacy ==> LegacyOk(s, l) && !MayRelink(s, l, i)
    ensures !MayRelink(Step(s, e), l, i)
  {
    LegacyStays(s, e, l);
  }

  lemma LandingMayMove(s: State, e: Event, i: string)
    requires i in s.db.identities
    ensures Lands(s, e, i) ==> MayMove(s, i)
  {
    if Lands(s, e, i) {
      assert MayRelink(s, e.legacy, i);
    }
  }

  /** A binding that cannot move stays, and stays unable to move. */
  lemma StepStaysPut(s: State, e: Event, i: string)
    requires Inv(s) && Enabled(s, e) && i in s.db.identities && !MayMove(s, i)
    ensures i in Step(s, e).db.identities && Owner(Step(s, e), i) == Owner(s, i) && !MayMove(Step(s, e), i)
  {
    var t, u := Step(s, e), Owner(s, i);
    if e.LegacyRelinks? {
      LegacyIsOk(s, e);
    }
    StepKeepsTables(s, e);
    LandingMayMove(s, e, i);
    BindingMovesIff(s, e, i);
    if Named(s.db, i, u) {
      NamedLasts(s.db, t.db, i, u);
    } else {
      forall l | l in t.legacy ensures !MayRelink(t, l, i) {
        assert l in s.legacy ==> LegacyOk(s, l) && !MayRelink(s, l, i);
        RelinkersStayHarmless(s, e, l, i);
      }
    }
  }

  lemma {:induction false} StaysPut(s: State, events: seq<Event>, i: string)
    requires Inv(s) && Possible(s, events) && i in s.db.identities && !MayMove(s, i)
    ensures i in Run(s, events).db.identities && Owner(Run(s, events), i) == Owner(s, i) && !MayMove(Run(s, events), i)
    decreases |events|
  {
    if events != [] {
      StepStaysPut(s, events[0], i);
      Keeps(s, events[0]);
      StaysPut(Step(s, events[0]), events[1..], i);
    }
  }

  // ---- runs that move a binding ----

  lemma NewText(used: set<string>) returns (text: string)
    ensures text !in used
  {
    if used == {} {
      text := "";
    } else {
      var longest := Longest(used);
      text := longest + "x";
      assert |text| > |longest|;
    }
  }

  lemma {:induction false} Longest(used: set<string>) returns (longest: string)
    requires used != {}
    ensures longest in used && forall t :: t in used ==> |t| <= |longest|
    decreases |used|
  {
    var t :| t in used;
    longest := t;
    if used != {t} {
      var rest := Longest(used - {t});
      longest := if |rest| > |t| then rest else t;
    }
  }

  lemma {:induction false} NewNumber(used: set<nat>) returns (n: nat)
    ensures n !in used && forall m :: m in used ==> m < n
    decreases |used|
  {
    n := 0;
    if used != {} {
      var m :| m in used;
      var rest := NewNumber(used - {m});
      n := if rest > m then rest else m + 1;
      forall k | k in used ensures k < n {
        assert k == m || k in used - {m};
      }
    }
  }

  lemma Prepend(s: State, e: Event, events: seq<Event>)
    requires Enabled(s, e) && Possible(Step(s, e), events)
    ensures Possible(s, [e] + events) && Run(s, [e] + events) == Run(Step(s, e), events)
  {
    assert ([e] + events)[1..] == events;
  }

  lemma Once(s: State, e: Event)
    requires Enabled(s, e)
    ensures Possible(s, [e]) && Run(s, [e]) == Step(s, e)
  {
    Prepend(s, e, []);
    assert [e] + [] == [e];
  }

  lemma MoveFromFoundOwner(s: State, l: nat, i: string) returns (events: seq<Event>)
    requires Inv(s) && i in s.db.identities && !Named(s.db, i, Owner(s, i))
    requires l in s.legacy && s.legacy[l].FoundOwner? && MayRelink(s, l, i)
    ensures Possible(s, events) && i in Run(s, events).db.identities && Owner(Run(s, events), i) != Owner(s, i)
  {
    var e := LegacyRelinks(l);
    assert Enabled(s, e) && Lands(s, e, i);
    BindingMovesIff(s, e, i);
    Once(s, e);
    events := [e];
  }

  /** A new user with an email of its own. */
  lemma NewOwner(s: State) returns (e: Event)
    requires Inv(s)
    ensures Enabled(s, e) && e.OtherWrite? && e.write.AddUser?
    ensures var t := Step(s, e); var u := e.write.userId;
            && u !in s.db.users && u in t.db.users && t.db.users[u].email.Some? && t.legacy == s.legacy
            && t.db.claims == s.db.claims && t.db.grants == s.db.grants
            && forall i :: i in s.db.identities ==> i in t.db.identities && t.db.identities[i] == s.db.identities[i]
  {
    var userId := NewText(s.drawn.Keys + s.db.users.Keys + s.db.identities.Keys);
    var identityId := NewText(s.drawn.Keys + s.db.users.Keys + s.db.identities.Keys + {userId});
    var email := NewText(set u | u in s.db.users && s.db.users[u].email.Some? :: s.db.users[u].email.value);
    var subject := NewText(set i | i in s.db.identities :: s.db.identities[i].subject);
    var w := AddUser(userId, identityId, User(None, Some(email), None), "slack", subject);
    assert !WriteRejected(s.db, w) by {
      forall u | u in s.db.users ensures s.db.users[u].email != Some(email) {
        if s.db.users[u].email.Some? {
          assert s.db.users[u].email.value != email;
        }
      }
      forall i | i in s.db.identities ensures s.db.identities[i].subject != subject {}
    }
    e := OtherWrite(w);
  }

  lemma MoveFromSawNoEmail(s: State, l: nat, i: string) returns (events: seq<Event>)
    requires Inv(s) && i in s.db.identities && !Named(s.db, i, Owner(s, i))
    requires l in s.legacy && s.legacy[l].SawNoEmail? && MayRelink(s, l, i) && s.legacy[l].userId in s.db.users
    ensures Possible(s, events) && i in Run(s, events).db.identities && Owner(Run(s, events), i) != Owner(s, i)
  {
    var add := NewOwner(s);
    var t, u := Step(s, add), add.write.userId;
    Keeps(s, add);
    var find := LegacyFindsOwner(l, u);
    assert Enabled(t, find);
    Keeps(t, find);
    var v := Step(t, find);
    assert Owner(s, i) in s.db.users && Owner(v, i) == Owner(s, i) != u;
    assert !Named(v.db, i, Owner(v, i)) && MayRelink(v, l, i);
    var last := MoveFromFoundOwner(v, l, i);
    Prepend(t, find, last);
    Prepend(s, add, [find] + last);
    events := [add] + ([find] + last);
  }

  lemma MoveFromFoundIdentity(s: State, l: nat, i: string) returns (events: seq<Event>)
    requires Inv(s) && i in s.db.identities && !Named(s.db, i, Owner(s, i))
    requires l in s.legacy && s.legacy[l].FoundIdentity? && MayRelink(s, l, i)
    ensures Possible(s, events) && i in Run(s, events).db.identities && Owner(Run(s, events), i) != Owner(s, i)
  {
    var see := LegacySeesNoEmail(l);
    assert Enabled(s, see);
    Keeps(s, see);
    var t := Step(s, see);
    assert t.db == s.db && MayRelink(t, l, i);
    var last := MoveFromSawNoEmail(t, l, i);
    Prepend(s, see, last);
    events := [see] + last;
  }

  lemma MoveFromNothing(s: State, i: string) returns (events: seq<Event>)
    requires Inv(s) && i in s.db.identities && !Named(s.db, i, Owner(s, i))
    requires Owner(s, i) in s.db.users && s.db.users[Owner(s, i)].email.None?
    ensures Possible(s, events) && i in Run(s, events).db.identities && Owner(Run(s, events), i) != Owner(s, i)
  {
    var l := NewNumber(s.legacy.Keys);
    var find := LegacyFinds(l, i);
    assert Enabled(s, find);
    Keeps(s, find);
    var t := Step(s, find);
    assert t.db == s.db && MayRelink(t, l, i);
    var last := MoveFromFoundIdentity(t, l, i);
    Prepend(s, find, last);
    events := [find] + last;
  }

  ghost predicate SomeRunMoves(s: State, i: string)
    requires i in s.db.identities
  {
    exists events :: Possible(s, events) && i in Run(s, events).db.identities && Owner(Run(s, events), i) != Owner(s, i)
  }

  /** Some run gives the binding another user exactly when nothing refers to it and its user was seen without an email. */
  lemma BindingCanMoveIff(s: State, i: string)
    requires Inv(s) && i in s.db.identities
    ensures SomeRunMoves(s, i) <==> MayMove(s, i)
  {
    if MayMove(s, i) {
      var events;
      if Owner(s, i) in s.db.users && s.db.users[Owner(s, i)].email.None? {
        events := MoveFromNothing(s, i);
      } else {
        var l :| l in s.legacy && MayRelink(s, l, i);
        assert LegacyOk(s, l);
        match s.legacy[l]
        case FoundIdentity(_, _) => events := MoveFromFoundIdentity(s, l, i);
        case SawNoEmail(_, _) => events := MoveFromSawNoEmail(s, l, i);
        case FoundOwner(_, _) => events := MoveFromFoundOwner(s, l, i);
      }
    } else {
      forall events | Possible(s, events) && i in Run(s, events).db.identities ensures Owner(Run(s, events), i) == Owner(s, i) {
        StaysPut(s, events, i);
      }
    }
  }

  // ---- what later sign-ins of the subject return ----

  /** The identity and user a call has settled on. */
  predicate Returns(call: Call, i: string, userId: string) {
    call.Resolved? && call.identityId == i && call.userId == userId
  }

  predicate Holds(call: Call, i: string) {
    || ((call.Preparing? || call.Refreshing? || call.CountingAfter?) && call.existing.identityId == i)
    || (call.Resolved? && call.identityId == i)
  }

  function HeldUser(call: Call, i: string): string
    requires Holds(call, i)
  {
    if call.Resolved? then call.userId else call.existing.userId
  }

  /** Every call that began after `known` and settled on the identity settled on this user. */
  ghost predicate Agree(s: State, known: set<CallId>, i: string, userId: string) {
    forall c {:trigger Holds(s.calls[c], i)} :: c in s.calls && c !in known && Holds(s.calls[c], i) ==> HeldUser(s.calls[c], i) == userId
  }

  lemma MovedCallAgrees(s: State, e: Event, c: CallId, i: string)
    requires Enabled(s, e) && i in s.db.identities && MovesCall(e, c) && c in Moved(s, e).calls
    requires c in s.calls && Holds(s.calls[c], i) ==> HeldUser(s.calls[c], i) == Owner(s, i)
    ensures Holds(Moved(s, e).calls[c], i) ==> HeldUser(Moved(s, e).calls[c], i) == Owner(s, i)
  {
    match e
    case CommitCreate(_, _) =>
    case CommitRefresh(_, _) =>
      var call := s.calls[c];
      RefreshMoves(s, c, call, RefreshOutcomeOf(s.db, call.existing, call.p, call.statement));
    case _ => EarlyCallAgrees(s, e, c, i);
  }

  lemma EarlyCallAgrees(s: State, e: Event, c: CallId, i: string)
    requires Enabled(s, e) && i in s.db.identities && MovesCall(e, c) && !e.CommitCreate? && !e.CommitRefresh?
    requires c in s.calls && Holds(s.calls[c], i) ==> HeldUser(s.calls[c], i) == Owner(s, i)
    ensures Holds(Moved(s, e).calls[c], i) ==> HeldUser(Moved(s, e).calls[c], i) == Owner(s, i)
  {}

  lemma StepAgrees(s: State, e: Event, known: set<CallId>, i: string)
    requires Inv(s) && Enabled(s, e) && i in s.db.identities && Agree(s, known, i, Owner(s, i))
    ensures Agree(Step(s, e), known, i, Owner(s, i))
  {
    var t := Step(s, e);
    forall c | c in t.calls && c !in known && Holds(t.calls[c], i) ensures HeldUser(t.calls[c], i) == Owner(s, i) {
      if c in s.calls {
        assert Holds(s.calls[c], i) ==> HeldUser(s.calls[c], i) == Owner(s, i);
      }
      if MovesCall(e, c) {
        MovedCallAgrees(s, e, c, i);
      } else {
        OtherCallsStand(s, e, c);
      }
    }
  }

  lemma {:induction false} RunAgrees(s: State, events: seq<Event>, known: set<CallId>, i: string)
    requires Inv(s) && Possible(s, events) && i in s.db.identities && !MayMove(s, i) && Agree(s, known, i, Owner(s, i))
    ensures Agree(Run(s, events), known, i, Owner(s, i))
    decreases |events|
  {
    if events != [] {
      StepAgrees(s, events[0], known, i);
      StepStaysPut(s, events[0], i);
      Keeps(s, events[0]);
      RunAgrees(Step(s, events[0]), events[1..], known, i);
    }
  }

  /** Whatever happens, a sign-in that begins later and resolves to this identity returns its present user. */
  ghost predicate LaterSignInsAgree(s: State, i: string)
    requires i in s.db.identities
  {
    forall events, c :: Possible(s, events) && c !in s.calls && c in Run(s, events).calls && Run(s, events).calls[c].Resolved?
                        && Run(s, events).calls[c].identityId == i ==>
      Run(s, events).calls[c].userId == Owner(s, i)
  }

  lemma Quiet(s: State, e: Event, c: CallId)
    requires Inv(s) && Enabled(s, e) && (e.Begin? || e.Find? || e.PrepareRefresh? || e.CountAfter?) && e.call == c
    ensures Step(s, e).db == s.db && c in Moved(s, e).calls && Step(s, e).calls == s.calls[c := Moved(s, e).calls[c]]
    ensures Inv(Step(s, e))
  {
    Keeps(s, e);
  }

  function PlainProfile(row: Identity): Profile
    requires row.issuer.Some?
  {
    Profile(row.provider, row.issuer.value, row.subject, None, None, None, [], None)
  }

  lemma PlainFinish(s: State, c: CallId, p: Profile, existing: Existing) returns (events: seq<Event>)
    requires Inv(s) && c in s.calls && s.calls[c] == Refreshing(p, None, 1, existing, None) && p.verifiedEmails == []
    ensures Possible(s, events) && c in Run(s, events).calls && Returns(Run(s, events).calls[c], existing.identityId, existing.userId)
  {
    var e1, e2 := CommitRefresh(c, 0), CountAfter(c);
    RefreshMoves(s, c, s.calls[c], Committed);
    assert RefreshOutcomeOf(s.db, existing, p, None).Committed?;
    var t := Step(s, e1);
    assert t.calls[c] == CountingAfter(p, existing);
    Keeps(s, e1);
    Once(t, e2);
    Prepend(s, e1, [e2]);
    events := [e1] + [e2];
  }

  lemma PlainStart(s: State, c: CallId, i: string) returns (events: seq<Event>)
    requires Inv(s) && i in s.db.identities && s.db.identities[i].issuer.Some? && c in s.calls
    requires s.calls[c] == Finding(PlainProfile(s.db.identities[i]), None, 1)
    ensures Possible(s, events) && c in Run(s, events).calls && Returns(Run(s, events).calls[c], i, Owner(s, i))
  {
    var row := s.db.identities[i];
    var p := PlainProfile(row);
    var e1, e2 := Find(c, Some(i)), PrepareRefresh(c, 0);
    assert IsRowOf(s.db, i, p.issuer, p.subject);
    Quiet(s, e1, c);
    var t := Step(s, e1);
    assert t.calls[c] == Preparing(p, None, 1, Existing(i, row.userId, row.provider));
    Quiet(t, e2, c);
    var last := PlainFinish(Step(t, e2), c, p, Existing(i, row.userId, row.provider));
    Prepend(t, e2, last);
    Prepend(s, e1, [e2] + last);
    events := [e1] + ([e2] + last);
  }

  /** A sign-in of the subject, by itself, with no email to verify: it returns the bound user. */
  lemma PlainSignIn(s: State, i: string) returns (events: seq<Event>, c: CallId)
    requires Inv(s) && i in s.db.identities && s.db.identities[i].issuer.Some?
    ensures Possible(s, events) && c !in s.calls && c in Run(s, events).calls && Returns(Run(s, events).calls[c], i, Owner(s, i))
  {
    c := NewNumber(s.calls.Keys);
    var e := Begin(c, PlainProfile(s.db.identities[i]), None);
    Quiet(s, e, c);
    var last := PlainStart(Step(s, e), c, i);
    Prepend(s, e, last);
    events := [e] + last;
  }

  lemma {:induction false} RunThen(s: State, first: seq<Event>, second: seq<Event>)
    requires Possible(s, first) && Possible(Run(s, first), second)
    ensures Possible(s, first + second) && Run(s, first + second) == Run(Run(s, first), second)
    decreases |first|
  {
    if first == [] {
      assert first + second == second;
    } else {
      RunThen(Step(s, first[0]), first[1..], second);
      assert (first + second)[1..] == first[1..] + second;
    }
  }

  lemma {:induction false} CallsStay(s: State, events: seq<Event>)
    requires Possible(s, events)
    ensures s.calls.Keys <= Run(s, events).calls.Keys
    decreases |events|
  {
    if events != [] {
      CallsStay(Step(s, events[0]), events[1..]);
      CallsStayInStep(s, events[0]);
    }
  }

  lemma CallsStayInStep(s: State, e: Event)
    requires Enabled(s, e)
    ensures s.calls.Keys <= Step(s, e).calls.Keys
  {
    forall c | c in s.calls ensures c in Step(s, e).calls {
      if !MovesCall(e, c) {
        OtherCallsStand(s, e, c);
      }
    }
  }

  /** Later sign-ins of a subject all return its present user exactly when its binding cannot move. */
  lemma SameSubjectSameUserIff(s: State, i: string)
    requires Inv(s) && i in s.db.identities && s.db.identities[i].issuer.Some?
    ensures LaterSignInsAgree(s, i) <==> !MayMove(s, i)
  {
    if MayMove(s, i) {
      BindingCanMoveIff(s, i);
      var first :| Possible(s, first) && i in Run(s, first).db.identities && Owner(Run(s, first), i) != Owner(s, i);
      RunKeeps(s, first);
      CallsStay(s, first);
      var second, c := PlainSignIn(Run(s, first), i);
      RunThen(s, first, second);
      assert Run(s, first + second).calls[c].userId != Owner(s, i);
    } else {
      forall events, c | Possible(s, events) && c !in s.calls && c in Run(s, events).calls && Run(s, events).calls[c].Resolved?
                         && Run(s, events).calls[c].identityId == i
        ensures Run(s, events).calls[c].userId == Owner(s, i)
      {
        RunAgrees(s, events, s.calls.Keys, i);
        assert Holds(Run(s, events).calls[c], i);
      }
    }
  }

  /**
   * The binding a new sign-in has just created is permanent exactly when the sign-in verified an email. The
   * profile is a normalized one, whose primary email is among its verified ones.
   */
  lemma NewBindingIsPermanentIff(s: State, c: CallId, now: int)
    requires Inv(s) && Enabled(s, CommitCreate(c, now))
    requires var call := s.calls[c];
             && !CreateRejected(s.db, call.userId, call.identityId, call.p, call.statement)
             && (call.p.primaryEmail.Some? ==> call.p.primaryEmail.value in call.p.verifiedEmails)
    ensures var i, t := s.calls[c].identityId, Step(s, CommitCreate(c, now));
            i in t.db.identities && (SomeRunMoves(t, i) <==> s.calls[c].p.verifiedEmails == [])
  {
    var call, t := s.calls[c], Step(s, CommitCreate(c, now));
    Keeps(s, CommitCreate(c, now));
    BindingCanMoveIff(t, call.identityId);
    NewBinding(s.db, call.userId, call.identityId, call.p, call.statement, now);
  }

  lemma NewBinding(db: Db, userId: string, i: string, p: Profile, statement: Option<Credentials.Statement>, now: int)
    requires ForeignKeys(db) && i !in db.identities
    ensures var t := Created(db, userId, i, p, statement, now);
            && (Named(t, i, userId) <==> p.verifiedEmails != [])
            && HasIdentity(t, i, userId) && t.users[userId].email == p.primaryEmail
  {
    var t := Created(db, userId, i, p, statement, now);
    if p.verifiedEmails != [] {
      var e := p.verifiedEmails[0];
      assert e in t.claims && t.claims[e] == Claim(userId, ProviderVerified, Some(i), Some(now));
    } else {
      assert (i, userId) !in db.grants;
    }
  }

  // ---- a run with two users for one subject ----

  const SUBJECT := Profile("google", "https://accounts.google.com", "subject", None, None, None, [], None)
  const EMPTY := Db(map[], map[], map[], map[], {})

  ghost predicate Reached(s: State) {
    exists events :: Possible(Start(EMPTY), events) && s == Run(Start(EMPTY), events)
  }

  lemma Play(s: State, e: Event)
    requires Reached(s) && Enabled(s, e)
    ensures Reached(Step(s, e))
  {
    var events :| Possible(Start(EMPTY), events) && s == Run(Start(EMPTY), events);
    Once(s, e);
    RunThen(Start(EMPTY), events, [e]);
  }

  /** What the witness run needs to know of a state. */
  ghost predicate Stage(s: State, db: Db, calls: map<CallId, Call>, legacy: map<nat, Legacy>) {
    Reached(s) && s.db == db && s.calls == calls && s.legacy == legacy
  }

  lemma PlayCall(s: State, db: Db, calls: map<CallId, Call>, c: CallId, e: Event) returns (t: State)
    requires Stage(s, db, calls, map[]) && Enabled(s, e) && (e.Begin? || e.Find? || e.PrepareRefresh? || e.CountAfter?) && e.call == c
    ensures t == Step(s, e) && Reached(t) && t.db == db && t.legacy == map[] && t.drawn == s.drawn
    ensures c in Moved(s, e).calls && t.calls == calls[c := Moved(s, e).calls[c]]
  {
    Play(s, e);
    t := Step(s, e);
  }

  const USER := User(None, None, None)
  const BOUND := Identity("user", "google", Some("https://accounts.google.com"), "subject", None, None)
  const SIGNED_UP := Db(map["user" := USER], map["identity" := BOUND], map[], map[], {})
  const NEW_USER := Resolved(SUBJECT, "identity", "user", true, 0)

  lemma SignInStarts() returns (s: State)
    ensures Stage(s, EMPTY, map[1 := Counting(SUBJECT, None, 1)], map[]) && s.drawn == map[]
  {
    assert Possible(Start(EMPTY), []) && Run(Start(EMPTY), []) == Start(EMPTY);
    s := PlayCall(Start(EMPTY), EMPTY, map[], 1, Begin(1, SUBJECT, None));
    assert s.calls == map[1 := Finding(SUBJECT, None, 1)];
    s := PlayCall(s, EMPTY, s.calls, 1, Find(1, None));
  }

  lemma SignInDraws() returns (s: State)
    ensures Stage(s, EMPTY, map[1 := Creating(SUBJECT, None, 1, "user", "identity", None)], map[])
    ensures s.drawn == map["user" := 1, "identity" := 1]
  {
    s := SignInStarts();
    var e := Count(1, "user", "identity", 0);
    Play(s, e);
    s := Step(s, e);
  }

  /** Google reports the email as unverified, so the new user has neither an email nor a claim. */
  lemma SignInWithoutEmail() returns (s: State)
    ensures Stage(s, SIGNED_UP, map[1 := NEW_USER], map[]) && s.drawn == map["user" := 1, "identity" := 1]
  {
    s := SignInDraws();
    var e := CommitCreate(1, 0);
    assert !CreateRejected(EMPTY, "user", "identity", SUBJECT, None);
    assert Created(EMPTY, "user", "identity", SUBJECT, None, 0) == SIGNED_UP;
    Play(s, e);
    s := Step(s, e);
  }

  const OTHER := User(None, Some("a@example.com"), None)
  const TWO_USERS := SIGNED_UP.(
    users := map["user" := USER, "other" := OTHER],
    identities := map["identity" := BOUND, "slack-identity" := Identity("other", "slack", None, "U1", None, Some("a@example.com"))])

  lemma AnotherUserArrives() returns (s: State)
    ensures Stage(s, TWO_USERS, map[1 := NEW_USER], map[])
  {
    s := SignInWithoutEmail();
    var w := AddUser("other", "slack-identity", OTHER, "slack", "U1");
    assert !WriteRejected(SIGNED_UP, w);
    assert Written(SIGNED_UP, w) == TWO_USERS;
    Play(s, OtherWrite(w));
    s := Step(s, OtherWrite(w));
  }

  lemma PlayLegacy(s: State, e: Event) returns (t: State)
    requires Reached(s) && Enabled(s, e) && (e.LegacyFinds? || e.LegacySeesNoEmail? || e.LegacyFindsOwner?)
    ensures t == Step(s, e) && Reached(t) && t.db == s.db && t.calls == s.calls && t.legacy == Moved(s, e).legacy
  {
    Play(s, e);
    t := Step(s, e);
  }

  lemma ExchangeFinds() returns (s: State)
    ensures Stage(s, TWO_USERS, map[1 := NEW_USER], map[1 := FoundIdentity("identity", "user")])
  {
    s := AnotherUserArrives();
    s := PlayLegacy(s, LegacyFinds(1, "identity"));
  }

  lemma ExchangeSeesNoEmail() returns (s: State)
    ensures Stage(s, TWO_USERS, map[1 := NEW_USER], map[1 := SawNoEmail("identity", "user")])
  {
    s := ExchangeFinds();
    s := PlayLegacy(s, LegacySeesNoEmail(1));
  }

  lemma ExchangeReads() returns (s: State)
    ensures Stage(s, TWO_USERS, map[1 := NEW_USER], map[1 := FoundOwner("identity", "other")])
  {
    s := ExchangeSeesNoEmail();
    s := PlayLegacy(s, LegacyFindsOwner(1, "other"));
  }

  const RELINKED := TWO_USERS.(identities := TWO_USERS.identities["identity" := BOUND.(userId := "other")])

  /** A token exchange of the subject, with an email that another user owns by then, re-links the identity. */
  lemma ExchangeRelinks() returns (s: State)
    ensures Stage(s, RELINKED, map[1 := NEW_USER], map[])
  {
    s := ExchangeReads();
    assert !Named(TWO_USERS, "identity", "user");
    assert Written(TWO_USERS, Relink("identity", "other")) == RELINKED;
    Play(s, LegacyRelinks(1));
    s := Step(s, LegacyRelinks(1));
    assert s.legacy == map[];
  }

  const EXISTING := Existing("identity", "other", "google")

  lemma SecondSignInBegins() returns (s: State)
    ensures Stage(s, RELINKED, map[1 := NEW_USER, 2 := Finding(SUBJECT, None, 1)], map[])
  {
    s := ExchangeRelinks();
    s := PlayCall(s, RELINKED, s.calls, 2, Begin(2, SUBJECT, None));
  }

  lemma SecondSignInFinds() returns (s: State)
    ensures Stage(s, RELINKED, map[1 := NEW_USER, 2 := Preparing(SUBJECT, None, 1, EXISTING)], map[])
  {
    s := SecondSignInBegins();
    assert IsRowOf(RELINKED, "identity", SUBJECT.issuer, SUBJECT.subject);
    s := PlayCall(s, RELINKED, s.calls, 2, Find(2, Some("identity")));
  }

  lemma SecondSignInReads() returns (s: State)
    ensures Stage(s, RELINKED, map[1 := NEW_USER, 2 := Refreshing(SUBJECT, None, 1, EXISTING, None)], map[])
  {
    s := SecondSignInFinds();
    s := PlayCall(s, RELINKED, s.calls, 2, PrepareRefresh(2, 0));
  }

  lemma SecondSignInCommits() returns (s: State)
    ensures Reached(s) && 1 in s.calls && s.calls[1] == NEW_USER && 2 in s.calls && s.calls[2] == CountingAfter(SUBJECT, EXISTING)
  {
    s := SecondSignInReads();
    var e := CommitRefresh(2, 0);
    assert RefreshOutcomeOf(s.db, EXISTING, SUBJECT, None).Committed?;
    RefreshMoves(s, 2, s.calls[2], Committed);
    OthersStandOnRefresh(s, 1, 2, s.calls[2], Committed);
    Play(s, e);
    s := Step(s, e);
  }

  lemma EmptyTablesAreOk()
    ensures TablesOk(EMPTY)
  {}

  /** One subject, two successful sign-ins, two users. */
  lemma OneSubjectTwoUsers() returns (s: State)
    ensures ReachableFrom(EMPTY, s) && 1 in s.calls && 2 in s.calls
    ensures s.calls[1] == Resolved(SUBJECT, "identity", "user", true, 0)
    ensures Returns(s.calls[2], "identity", "other") && s.calls[2].p == SUBJECT
  {
    s := SecondSignInCommits();
    EmptyTablesAreOk();
    Play(s, CountAfter(2));
    s := Step(s, CountAfter(2));
  }
}
