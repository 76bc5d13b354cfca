/** The single-flight cache of GitHub installation tokens. */
module InstallationTokens {
  import opened Support

  const INSTALLATION_TOKEN_CACHE_MAX_AGE_MS := 50 * MINUTE_MS
  const INSTALLATION_TOKEN_MIN_REMAINING_MS := 5 * MINUTE_MS
  const INSTALLATION_TOKEN_CACHE_MAX_TTL_SECONDS := 3600

  type CacheKey = string

  /** `issuedFor` is the installation whose refresh fetched the token. */
  datatype Token = Token(value: string, issuedFor: CacheKey, expiresAt: int, cachedAt: int)

  predicate IsTokenUsable(cached: Token, now: int) {
    now - cached.cachedAt < INSTALLATION_TOKEN_CACHE_MAX_AGE_MS
    && now < cached.expiresAt - INSTALLATION_TOKEN_MIN_REMAINING_MS
  }

  /** Seconds to keep a token in the persistent store; nothing for an expired one. */
  function WriteTtlSeconds(cached: Token, now: int): (ttl: Option<nat>)
    ensures ttl.None? <==> cached.expiresAt <= now
    ensures ttl.Some? ==> 1 <= ttl.value <= 3000
  {
    var remaining := cached.expiresAt - now;
    if remaining <= 0 then None
    else Some(Max(1, Min(INSTALLATION_TOKEN_CACHE_MAX_TTL_SECONDS, Min(remaining, INSTALLATION_TOKEN_CACHE_MAX_AGE_MS) / SECOND_MS)))
  }

  /** The stored copy goes before the token expires, except for a token with less than a second left. */
  lemma StoredCopyGoesFirstIff(cached: Token, now: int)
    requires WriteTtlSeconds(cached, now).Some?
    ensures now + WriteTtlSeconds(cached, now).value * SECOND_MS <= cached.expiresAt <==> cached.expiresAt - now >= SECOND_MS
    ensures cached.expiresAt - now >= SECOND_MS && cached.expiresAt - now <= INSTALLATION_TOKEN_CACHE_MAX_AGE_MS ==>
              cached.expiresAt - SECOND_MS < now + WriteTtlSeconds(cached, now).value * SECOND_MS
    ensures cached.expiresAt - now >= 50 * MINUTE_MS ==> WriteTtlSeconds(cached, now).value == 3000
  {
    var bound := Min(cached.expiresAt - now, INSTALLATION_TOKEN_CACHE_MAX_AGE_MS);
    assert bound / SECOND_MS * SECOND_MS <= bound < bound / SECOND_MS * SECOND_MS + SECOND_MS;
  }

  // ---- the machine: module-level maps, refreshes under way, suspended callers ----

  datatype Phase =
    | Fetching(startedAt: int)
    | Writing(token: Token)
    | Settled(result: Option<Token>)
    | Done(result: Option<Token>)

  datatype Refresh = Refresh(key: CacheKey, phase: Phase) {
    predicate Active() { !phase.Done? }
  }

  datatype Caller =
    | Reading(key: CacheKey)
    | Waiting(key: CacheKey, refresh: nat)
    | Answered(key: CacheKey, answer: Option<Token>)

  /** A token handed out of the memory map or the persistent store, with the time of its check. */
  datatype Served = Served(key: CacheKey, token: Token, at: int)

  datatype State = State(
    now: int,
    memory: map<CacheKey, Token>,
    inFlight: map<CacheKey, nat>,
    refreshes: seq<Refresh>,
    callers: map<nat, Caller>,
    stored: map<CacheKey, set<Token>>,
    served: seq<Served>)

  const INITIAL := State(0, map[], map[], [], map[], map[], [])

  /** What the persistent store may answer: nothing, or anything ever written under the key. */
  predicate MayRead(s: State, key: CacheKey, read: Option<Token>) {
    read.Some? ==> key in s.stored && read.value in s.stored[key]
  }

  datatype Event =
    | Call(caller: nat, key: CacheKey, forceRefresh: bool)
    | ReadReturns(caller: nat, read: Option<Token>)
    | FetchSucceeds(refresh: nat, value: string, expiresAt: int)
    | FetchFails(refresh: nat)
    | WriteReturns(refresh: nat)
    | Finally(refresh: nat)
    | Deliver(caller: nat)
    | Invalidate(key: CacheKey)
    | Tick(elapsed: nat)

  predicate Enabled(s: State, e: Event) {
    match e
    case Call(c, _, _) => c !in s.callers
    case ReadReturns(c, read) => c in s.callers && s.callers[c].Reading? && MayRead(s, s.callers[c].key, read)
    case FetchSucceeds(r, _, _) => r < |s.refreshes| && s.refreshes[r].phase.Fetching?
    case FetchFails(r) => r < |s.refreshes| && s.refreshes[r].phase.Fetching?
    case WriteReturns(r) => r < |s.refreshes| && s.refreshes[r].phase.Writing?
    case Finally(r) => r < |s.refreshes| && s.refreshes[r].phase.Settled?
    case Deliver(c) =>
      c in s.callers && s.callers[c].Waiting? && s.callers[c].refresh < |s.refreshes| && s.refreshes[s.callers[c].refresh].phase.Done?
    case Invalidate(_) => true
    case Tick(_) => true
  }

  /** Starts a refresh, records it as the one in flight for the key, and waits for it. */
  function Started(s: State, caller: nat, key: CacheKey): State {
    s.(refreshes := s.refreshes + [Refresh(key, Fetching(s.now))],
       inFlight := s.inFlight[key := |s.refreshes|],
       callers := s.callers[caller := Waiting(key, |s.refreshes|)])
  }

  function Answer(s: State, caller: nat, key: CacheKey, token: Token): State {
    s.(callers := s.callers[caller := Answered(key, Some(token))], served := s.served + [Served(key, token, s.now)])
  }

  function AfterCall(s: State, caller: nat, key: CacheKey, forceRefresh: bool): State {
    if forceRefresh then Started(s, caller, key)
    else if key in s.memory && IsTokenUsable(s.memory[key], s.now) then Answer(s, caller, key, s.memory[key])
    else s.(callers := s.callers[caller := Reading(key)])
  }

  function AfterRead(s: State, caller: nat, key: CacheKey, read: Option<Token>): State {
    if read.Some? && IsTokenUsable(read.value, s.now)
    then Answer(s.(memory := s.memory[key := read.value]), caller, key, read.value)
    else if key in s.inFlight then s.(callers := s.callers[caller := Waiting(key, s.inFlight[key])])
    else Started(s, caller, key)
  }

  function Stored(s: State, token: Token): State {
    if WriteTtlSeconds(token, s.now).None? then s
    else
      var key := token.issuedFor;
      s.(stored := s.stored[key := (if key in s.stored then s.stored[key] else {}) + {token}])
  }

  function AfterFetch(s: State, r: nat, value: string, expiresAt: int): State
    requires r < |s.refreshes| && s.refreshes[r].phase.Fetching?
  {
    var key := s.refreshes[r].key;
    var token := Token(value, key, expiresAt, s.refreshes[r].phase.startedAt);
    Stored(s.(memory := s.memory[key := token], refreshes := s.refreshes[r := Refresh(key, Writing(token))]), token)
  }

  function Step(s: State, e: Event): State
    requires Enabled(s, e)
  {
    match e
    case Call(c, key, forceRefresh) => AfterCall(s, c, key, forceRefresh)
    case ReadReturns(c, read) => AfterRead(s, c, s.callers[c].key, read)
    case FetchSucceeds(r, value, expiresAt) => AfterFetch(s, r, value, expiresAt)
    case FetchFails(r) => s.(refreshes := s.refreshes[r := Refresh(s.refreshes[r].key, Settled(None))])
    case WriteReturns(r) =>
      s.(refreshes := s.refreshes[r := Refresh(s.refreshes[r].key, Settled(Some(s.refreshes[r].phase.token)))])
    case Finally(r) =>
      s.(refreshes := s.refreshes[r := Refresh(s.refreshes[r].key, Done(s.refreshes[r].phase.result))],
         inFlight := s.inFlight - {s.refreshes[r].key})
    case Deliver(c) =>
      s.(callers := s.callers[c := Answered(s.callers[c].key, s.refreshes[s.callers[c].refresh].phase.result)])
    case Invalidate(key) => s.(memory := s.memory - {key}, inFlight := s.inFlight - {key})
    case Tick(elapsed) => s.(now := s.now + elapsed)
  }

  /** The state after the enabled events; the others do not happen. */
  function Run(s: State, events: seq<Event>): State
    decreases |events|
  {
    if events == [] then s
    else
      var before := Run(s, events[..|events| - 1]);
      if Enabled(before, events[|events| - 1]) then Step(before, events[|events| - 1]) else before
  }

  // ---- single flight ----

  /** The recorded refresh of each key is under way, and every refresh under way is recorded. */
  ghost predicate OneEach(inFlight: map<CacheKey, nat>, refreshes: seq<Refresh>) {
    && (forall key :: key in inFlight ==>
          inFlight[key] < |refreshes| && refreshes[inFlight[key]].key == key && refreshes[inFlight[key]].Active())
    && (forall r :: 0 <= r < |refreshes| && refreshes[r].Active() ==>
          refreshes[r].key in inFlight && inFlight[refreshes[r].key] == r)
  }

  ghost predicate SingleFlight(s: State) {
    OneEach(s.inFlight, s.refreshes)
  }

  /** Neither forces nor invalidates over a refresh under way. */
  predicate Gentle(s: State, e: Event) {
    match e
    case Call(_, key, forceRefresh) => forceRefresh ==> key !in s.inFlight
    case Invalidate(key) => key !in s.inFlight
    case _ => true
  }

  lemma StartKeepsOneEach(inFlight: map<CacheKey, nat>, refreshes: seq<Refresh>, key: CacheKey, started: Refresh)
    requires OneEach(inFlight, refreshes) && key !in inFlight && started.key == key && started.Active()
    ensures OneEach(inFlight[key := |refreshes|], refreshes + [started])
  {
  }

  lemma PhaseKeepsOneEach(inFlight: map<CacheKey, nat>, refreshes: seq<Refresh>, r: nat, phase: Phase)
    requires OneEach(inFlight, refreshes) && r < |refreshes| && refreshes[r].Active() && !phase.Done?
    ensures OneEach(inFlight, refreshes[r := Refresh(refreshes[r].key, phase)])
  {
  }

  lemma EndKeepsOneEach(inFlight: map<CacheKey, nat>, refreshes: seq<Refresh>, r: nat, phase: Phase)
    requires OneEach(inFlight, refreshes) && r < |refreshes| && refreshes[r].Active() && phase.Done?
    ensures OneEach(inFlight - {refreshes[r].key}, refreshes[r := Refresh(refreshes[r].key, phase)])
  {
  }

  lemma GentleStepsKeepSingleFlight(s: State, e: Event)
    requires SingleFlight(s) && Enabled(s, e) && Gentle(s, e)
    ensures SingleFlight(Step(s, e))
  {
    match e
    case Call(_, key, forceRefresh) =>
      if forceRefresh {
        StartKeepsOneEach(s.inFlight, s.refreshes, key, Refresh(key, Fetching(s.now)));
      }
    case ReadReturns(c, _) =>
      var key := s.callers[c].key;
      if key !in s.inFlight {
        StartKeepsOneEach(s.inFlight, s.refreshes, key, Refresh(key, Fetching(s.now)));
      }
    case FetchSucceeds(r, _, _) =>
      PhaseKeepsOneEach(s.inFlight, s.refreshes, r, Step(s, e).refreshes[r].phase);
    case FetchFails(r) =>
      PhaseKeepsOneEach(s.inFlight, s.refreshes, r, Settled(None));
    case WriteReturns(r) =>
      PhaseKeepsOneEach(s.inFlight, s.refreshes, r, Step(s, e).refreshes[r].phase);
    case Finally(r) =>
      EndKeepsOneEach(s.inFlight, s.refreshes, r, Step(s, e).refreshes[r].phase);
    case Invalidate(key) =>
      assert s.inFlight - {key} == s.inFlight;
    case _ =>
  }

  lemma OtherStepsBreakSingleFlight(s: State, e: Event)
    requires SingleFlight(s) && Enabled(s, e) && !Gentle(s, e)
    ensures !SingleFlight(Step(s, e))
  {
    var after := Step(s, e);
    var r := s.inFlight[e.key];
    assert after.refreshes[r] == s.refreshes[r];
  }

  /** Single flight survives a step exactly when the step does not force or invalidate over a refresh under way. */
  lemma SingleFlightSurvivesIff(s: State, e: Event)
    requires SingleFlight(s) && Enabled(s, e)
    ensures SingleFlight(Step(s, e)) <==> Gentle(s, e)
  {
    if Gentle(s, e) {
      GentleStepsKeepSingleFlight(s, e);
    } else {
      OtherStepsBreakSingleFlight(s, e);
    }
  }

  ghost predicate GentleRun(s: State, events: seq<Event>)
    decreases |events|
  {
    if events == [] then true
    else GentleRun(s, events[..|events| - 1]) && Gentle(Run(s, events[..|events| - 1]), events[|events| - 1])
  }

  lemma {:induction false} RunKeepsSingleFlight(s: State, events: seq<Event>)
    requires SingleFlight(s) && GentleRun(s, events)
    ensures SingleFlight(Run(s, events))
    decreases |events|
  {
    if events != [] {
      RunKeepsSingleFlight(s, events[..|events| - 1]);
      var before := Run(s, events[..|events| - 1]);
      if Enabled(before, events[|events| - 1]) {
        GentleStepsKeepSingleFlight(before, events[|events| - 1]);
      }
    }
  }

  /** Two refreshes of one key under way. */
  predicate Overlapping(s: State, a: nat, b: nat) {
    a != b && a < |s.refreshes| && b < |s.refreshes| && s.refreshes[a].key == s.refreshes[b].key
    && s.refreshes[a].Active() && s.refreshes[b].Active()
  }

  /** However callers interleave, at most one refresh per key is under way. */
  lemma AtMostOneRefreshPerKey(events: seq<Event>, a: nat, b: nat)
    requires GentleRun(INITIAL, events)
    ensures !Overlapping(Run(INITIAL, events), a, b)
  {
    RunKeepsSingleFlight(INITIAL, events);
  }

  // ---- and no further: what forcing or invalidating leads to ----

  /** Without any further forcing or invalidating, two refreshes of one key can come to run at once. */
  ghost predicate LeadsToTwo(s: State) {
    exists events, a, b :: GentleRun(s, events) && Overlapping(Run(s, events), a, b)
  }

  lemma {:induction false} NewCaller(used: set<nat>) returns (c: nat)
    ensures forall m :: m in used ==> m < c
    decreases |used|
  {
    c := 0;
    if used != {} {
      var m :| m in used;
      var rest := NewCaller(used - {m});
      c := if rest > m then rest else m + 1;
      forall k | k in used ensures k < c {
        assert k == m || k in used - {m};
      }
    }
  }

  lemma RunOfTwo(s: State, first: Event, second: Event)
    requires Enabled(s, first) && Gentle(s, first) && Enabled(Step(s, first), second) && Gentle(Step(s, first), second)
    ensures GentleRun(s, [first, second]) && Run(s, [first, second]) == Step(Step(s, first), second)
  {
    var events := [first, second];
    assert events[..1] == [first] && [first][..0] == [];
    assert Run(s, []) == s && GentleRun(s, []);
    assert Run(s, [first]) == Step(s, first) && GentleRun(s, [first]);
  }

  /** After invalidating over a refresh, one more caller that finds nothing stored starts another beside it. */
  lemma InvalidatingLeadsToTwo(s: State, key: CacheKey)
    requires SingleFlight(s) && key in s.inFlight
    ensures LeadsToTwo(Step(s, Invalidate(key)))
  {
    var t := Step(s, Invalidate(key));
    var running := s.inFlight[key];
    var c := NewCaller(t.callers.Keys);
    var call, read := Call(c, key, false), ReadReturns(c, None);
    var u := Step(t, call);
    assert u.callers[c] == Reading(key);
    RunOfTwo(t, call, read);
    assert Overlapping(Run(t, [call, read]), running, |s.refreshes|);
  }

  lemma ForcingLeadsToTwo(s: State, c: nat, key: CacheKey)
    requires SingleFlight(s) && key in s.inFlight && Enabled(s, Call(c, key, true))
    ensures LeadsToTwo(Step(s, Call(c, key, true)))
  {
    var t := Step(s, Call(c, key, true));
    assert GentleRun(t, []) && Run(t, []) == t;
    assert Overlapping(Run(t, []), s.inFlight[key], |s.refreshes|);
  }

  /** A step makes room for two refreshes of a key at once exactly when it forces or invalidates over one under way. */
  lemma OverlapFollowsIff(s: State, e: Event)
    requires SingleFlight(s) && Enabled(s, e)
    ensures LeadsToTwo(Step(s, e)) <==> !Gentle(s, e)
  {
    if Gentle(s, e) {
      GentleStepsKeepSingleFlight(s, e);
      forall events, a, b | GentleRun(Step(s, e), events) ensures !Overlapping(Run(Step(s, e), events), a, b) {
        RunKeepsSingleFlight(Step(s, e), events);
      }
    } else if e.Invalidate? {
      InvalidatingLeadsToTwo(s, e.key);
    } else {
      ForcingLeadsToTwo(s, e.caller, e.key);
    }
  }

  /** The first refresh's cleanup forgets the forced one, so a third starts beside it. */
  function ForcedOverlap(): seq<Event> {
    [Call(0, "k", false), ReadReturns(0, None), Call(1, "k", true), FetchFails(0), Finally(0), Call(2, "k", false), ReadReturns(2, None)]
  }

  lemma {:induction false} RunOfNext(events: seq<Event>, e: Event)
    ensures Run(INITIAL, events + [e]) == if Enabled(Run(INITIAL, events), e) then Step(Run(INITIAL, events), e) else Run(INITIAL, events)
  {
    assert (events + [e])[..|events|] == events;
  }

  lemma ForcedOverlapRunsTwoAtOnce()
    ensures var s := Run(INITIAL, ForcedOverlap());
            |s.refreshes| == 3 && s.refreshes[1] == Refresh("k", Fetching(0)) && s.refreshes[2] == Refresh("k", Fetching(0))
  {
    var e := ForcedOverlap();
    assert e == ((((([] + [e[0]]) + [e[1]]) + [e[2]]) + [e[3]]) + [e[4]]) + [e[5]] + [e[6]];
    RunOfNext([], e[0]);
    RunOfNext([e[0]], e[1]);
    RunOfNext([e[0]] + [e[1]], e[2]);
    RunOfNext([e[0]] + [e[1]] + [e[2]], e[3]);
    RunOfNext([e[0]] + [e[1]] + [e[2]] + [e[3]], e[4]);
    RunOfNext([e[0]] + [e[1]] + [e[2]] + [e[3]] + [e[4]], e[5]);
    RunOfNext([e[0]] + [e[1]] + [e[2]] + [e[3]] + [e[4]] + [e[5]], e[6]);
  }

  // ---- what callers are handed ----

  predicate PhaseFor(key: CacheKey, phase: Phase) {
    match phase
    case Fetching(_) => true
    case Writing(token) => token.issuedFor == key
    case Settled(result) => result.Some? ==> result.value.issuedFor == key
    case Done(result) => result.Some? ==> result.value.issuedFor == key
  }

  predicate CallerFor(refreshes: seq<Refresh>, c: Caller) {
    match c
    case Reading(_) => true
    case Waiting(key, r) => r < |refreshes| && refreshes[r].key == key
    case Answered(key, answer) => answer.Some? ==> answer.value.issuedFor == key
  }

  ghost predicate CachesFor(memory: map<CacheKey, Token>, stored: map<CacheKey, set<Token>>) {
    && (forall key :: key in memory ==> memory[key].issuedFor == key)
    && (forall key :: key in stored ==> forall t :: t in stored[key] ==> t.issuedFor == key)
  }

  ghost predicate RefreshesFor(inFlight: map<CacheKey, nat>, refreshes: seq<Refresh>) {
    && (forall key :: key in inFlight ==> inFlight[key] < |refreshes| && refreshes[inFlight[key]].key == key)
    && (forall r :: 0 <= r < |refreshes| ==> PhaseFor(refreshes[r].key, refreshes[r].phase))
  }

  ghost predicate CallersFor(refreshes: seq<Refresh>, callers: map<nat, Caller>) {
    forall c :: c in callers ==> CallerFor(refreshes, callers[c])
  }

  ghost predicate ServedFor(served: seq<Served>) {
    forall k :: 0 <= k < |served| ==> served[k].token.issuedFor == served[k].key && IsTokenUsable(served[k].token, served[k].at)
  }

  /** Tokens never cross keys, and everything served was usable when it was checked. */
  ghost predicate HandedOut(s: State) {
    CachesFor(s.memory, s.stored) && RefreshesFor(s.inFlight, s.refreshes) && CallersFor(s.refreshes, s.callers) && ServedFor(s.served)
  }

  lemma StartHandsOut(s: State, caller: nat, key: CacheKey)
    requires HandedOut(s)
    ensures HandedOut(Started(s, caller, key))
  {
    var after := Started(s, caller, key);
    forall c | c in after.callers ensures CallerFor(after.refreshes, after.callers[c]) {
      if c != caller {
        assert CallerFor(s.refreshes, s.callers[c]);
      }
    }
  }

  lemma PhaseHandsOut(s: State, r: nat, phase: Phase)
    requires HandedOut(s) && r < |s.refreshes| && PhaseFor(s.refreshes[r].key, phase)
    ensures HandedOut(s.(refreshes := s.refreshes[r := Refresh(s.refreshes[r].key, phase)]))
  {
    var refreshes := s.refreshes[r := Refresh(s.refreshes[r].key, phase)];
    forall c | c in s.callers ensures CallerFor(refreshes, s.callers[c]) {
      assert CallerFor(s.refreshes, s.callers[c]);
    }
  }

  lemma ReadHandsOut(s: State, c: nat, read: Option<Token>)
    requires HandedOut(s) && Enabled(s, ReadReturns(c, read))
    ensures HandedOut(Step(s, ReadReturns(c, read)))
  {
    var key := s.callers[c].key;
    if !(read.Some? && IsTokenUsable(read.value, s.now)) && key !in s.inFlight {
      StartHandsOut(s, c, key);
    }
  }

  lemma StepHandsOut(s: State, e: Event)
    requires HandedOut(s) && Enabled(s, e)
    ensures HandedOut(Step(s, e))
  {
    match e
    case Call(c, key, forceRefresh) =>
      if forceRefresh {
        StartHandsOut(s, c, key);
      }
    case ReadReturns(c, read) =>
      ReadHandsOut(s, c, read);
    case FetchSucceeds(r, _, _) =>
      PhaseHandsOut(s, r, Step(s, e).refreshes[r].phase);
    case FetchFails(r) =>
      PhaseHandsOut(s, r, Settled(None));
    case WriteReturns(r) =>
      assert PhaseFor(s.refreshes[r].key, s.refreshes[r].phase);
      PhaseHandsOut(s, r, Step(s, e).refreshes[r].phase);
    case Finally(r) =>
      assert PhaseFor(s.refreshes[r].key, s.refreshes[r].phase);
      PhaseHandsOut(s, r, Step(s, e).refreshes[r].phase);
    case Deliver(c) =>
      assert CallerFor(s.refreshes, s.callers[c]);
      assert PhaseFor(s.refreshes[s.callers[c].refresh].key, s.refreshes[s.callers[c].refresh].phase);
    case _ =>
  }

  lemma {:induction false} RunHandsOut(events: seq<Event>)
    ensures HandedOut(Run(INITIAL, events))
    decreases |events|
  {
    if events != [] {
      RunHandsOut(events[..|events| - 1]);
      var before := Run(INITIAL, events[..|events| - 1]);
      if Enabled(before, events[|events| - 1]) {
        StepHandsOut(before, events[|events| - 1]);
      }
    }
  }

  /** In every run, forced or not: an answer from memory or the store is the key's own, has over 5 minutes left, and is under 50 minutes old. */
  lemma ServedTokensAreUsable(events: seq<Event>, k: nat)
    requires k < |Run(INITIAL, events).served|
    ensures var served := Run(INITIAL, events).served[k];
            && served.token.issuedFor == served.key
            && served.token.expiresAt - served.at > 5 * MINUTE_MS
            && served.at - served.token.cachedAt < 50 * MINUTE_MS
  {
    RunHandsOut(events);
  }

  lemma EveryAnswerIsTheCallersOwn(events: seq<Event>, c: nat)
    requires var s := Run(INITIAL, events); c in s.callers && s.callers[c].Answered? && s.callers[c].answer.Some?
    ensures Run(INITIAL, events).callers[c].answer.value.issuedFor == Run(INITIAL, events).callers[c].key
  {
    RunHandsOut(events);
    assert CallerFor(Run(INITIAL, events).refreshes, Run(INITIAL, events).callers[c]);
  }

  /** A refresh that began at this moment is recorded for the key, and the caller waits for it; nothing else changed. */
  ghost predicate BeganRefresh(before: State, after: State, caller: nat, key: CacheKey) {
    after == before.(refreshes := before.refreshes + [Refresh(key, Fetching(before.now))],
                     inFlight := before.inFlight[key := |before.refreshes|],
                     callers := before.callers[caller := Waiting(key, |before.refreshes|)])
  }

  // ---- the module's code between its awaits ----

  class InstallationTokenCache {
    var memory: map<CacheKey, Token>
    var inFlight: map<CacheKey, nat>
    var refreshes: seq<Refresh>
    var callers: map<nat, Caller>
    var stored: map<CacheKey, set<Token>>
    var served: seq<Served>

    constructor ()
      ensures At(0) == INITIAL
    {
      memory, inFlight, refreshes, callers, stored, served := map[], map[], [], map[], map[], [];
    }

    function At(now: int): State
      reads this
    {
      State(now, memory, inFlight, refreshes, callers, stored, served)
    }

    /** Up to the persistent read, or up to the new refresh when forced. */
    method GetOrRefresh(caller: nat, key: CacheKey, forceRefresh: bool, now: int)
      requires caller !in callers
      modifies this
      ensures At(now) == Step(old(At(now)), Call(caller, key, forceRefresh))
      ensures forceRefresh ==> BeganRefresh(old(At(now)), At(now), caller, key)
      ensures !forceRefresh ==>
                if key in old(memory) && now - old(memory)[key].cachedAt < 50 * MINUTE_MS && now + 5 * MINUTE_MS < old(memory)[key].expiresAt
                then At(now) == old(At(now)).(callers := old(callers)[caller := Answered(key, Some(old(memory)[key]))],
                                              served := old(served) + [Served(key, old(memory)[key], now)])
                else At(now) == old(At(now)).(callers := old(callers)[caller := Reading(key)])
    {
      if !forceRefresh {
        if key in memory && IsTokenUsable(memory[key], now) {
          callers := callers[caller := Answered(key, Some(memory[key]))];
          served := served + [Served(key, memory[key], now)];
          return;
        }
        callers := callers[caller := Reading(key)];
        return;
      }
      StartRefresh(caller, key, now);
    }

    /** From the persistent read to the answer, the refresh in flight, or a new refresh. */
    method AfterPersistentRead(caller: nat, read: Option<Token>, now: int)
      requires caller in callers && callers[caller].Reading? && MayRead(At(now), callers[caller].key, read)
      modifies this
      ensures At(now) == Step(old(At(now)), ReadReturns(caller, read))
      ensures var key := old(callers)[caller].key;
              if read.Some? && now - read.value.cachedAt < 50 * MINUTE_MS && now + 5 * MINUTE_MS < read.value.expiresAt
              then At(now) == old(At(now)).(memory := old(memory)[key := read.value],
                                            callers := old(callers)[caller := Answered(key, read)],
                                            served := old(served) + [Served(key, read.value, now)])
              else if key in old(inFlight)
              then At(now) == old(At(now)).(callers := old(callers)[caller := Waiting(key, old(inFlight)[key])])
              else BeganRefresh(old(At(now)), At(now), caller, key)
    {
      var key := callers[caller].key;
      if read.Some? && IsTokenUsable(read.value, now) {
        memory := memory[key := read.value];
        callers := callers[caller := Answered(key, read)];
        served := served + [Served(key, read.value, now)];
        return;
      }
      if key in inFlight {
        callers := callers[caller := Waiting(key, inFlight[key])];
        return;
      }
      StartRefresh(caller, key, now);
    }

    method StartRefresh(caller: nat, key: CacheKey, now: int)
      modifies this
      ensures At(now) == Started(old(At(now)), caller, key)
    {
      var id := |refreshes|;
      refreshes := refreshes + [Refresh(key, Fetching(now))];
      inFlight := inFlight[key := id];
      callers := callers[caller := Waiting(key, id)];
    }

    method AfterGitHubAnswers(r: nat, value: string, expiresAt: int, now: int)
      requires r < |refreshes| && refreshes[r].phase.Fetching?
      modifies this
      ensures At(now) == Step(old(At(now)), FetchSucceeds(r, value, expiresAt))
      ensures var key := old(refreshes)[r].key;
              var cached := Token(value, key, expiresAt, old(refreshes)[r].phase.startedAt);
              && memory == old(memory)[key := cached] && refreshes == old(refreshes)[r := Refresh(key, Writing(cached))]
              && inFlight == old(inFlight) && callers == old(callers) && served == old(served)
              && (expiresAt <= now ==> stored == old(stored))
              && (now < expiresAt ==> stored == old(stored)[key := (if key in old(stored) then old(stored)[key] else {}) + {cached}])
    {
      var key := refreshes[r].key;
      var cached := Token(value, key, expiresAt, refreshes[r].phase.startedAt);
      memory := memory[key := cached];
      refreshes := refreshes[r := Refresh(key, Writing(cached))];
      var ttl := WriteTtlSeconds(cached, now);
      if ttl.Some? {
        stored := stored[key := (if key in stored then stored[key] else {}) + {cached}];
      }
    }

    method CleanUp(r: nat, now: int)
      requires r < |refreshes| && refreshes[r].phase.Settled?
      modifies this
      ensures At(now) == Step(old(At(now)), Finally(r))
      ensures At(now) == old(At(now)).(
                refreshes := old(refreshes)[r := Refresh(old(refreshes)[r].key, Done(old(refreshes)[r].phase.result))],
                inFlight := old(inFlight) - {old(refreshes)[r].key})
    {
      var key := refreshes[r].key;
      refreshes := refreshes[r := Refresh(key, Done(refreshes[r].phase.result))];
      inFlight := inFlight - {key};
    }

    method InvalidateToken(key: CacheKey, now: int)
      modifies this
      ensures At(now) == Step(old(At(now)), Invalidate(key))
      ensures At(now) == old(At(now)).(memory := old(memory) - {key}, inFlight := old(inFlight) - {key})
    {
      memory := memory - {key};
      inFlight := inFlight - {key};
    }
  }
}
