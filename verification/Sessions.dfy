/** Sessions, refreshes and logout as interleaved steps: every await of a call is a point where
    other calls and the clock may go on. Times are milliseconds unless a name says seconds. */
module Sessions {
  type SessionId = nat
  type UserId = nat
  type Jti = nat
  type CallId = nat

  datatype Session = Session(user: UserId, expiresAt: nat)

  /** Where a call stands between two awaits. */
  datatype Call =
    | RefreshVerified(session: SessionId, user: UserId, verifiedAt: nat)
    | RefreshFound(session: SessionId, verifiedAt: nat)          // past its session lookup
    | LogoutFound(session: SessionId, jti: Jti)
    | LogoutDeleted(session: SessionId, jti: Jti)

  datatype Config = Config(accessTtlSeconds: nat, refreshTtlSeconds: nat)

  datatype State = State(
    now: nat,
    sessions: map<SessionId, Session>,
    createdAt: map<SessionId, nat>,               // every session id ever issued
    expiry: map<Jti, nat>,                        // every access token ever issued, exp in seconds
    blacklist: map<Jti, nat>,                     // Redis key -> end of its life
    calls: map<CallId, Call>,
    refreshed: map<SessionId, nat>,               // finished refreshes per session
    loggedOut: map<Jti, SessionId>)               // logouts that returned true

  const NO_STATE := State(0, map[], map[], map[], map[], map[], map[], map[])

  function Seconds(ms: nat): nat { ms / 1000 }

  /** What the access strategy lets through: unexpired by the whole second, and not revoked. */
  predicate Accepted(s: State, jti: Jti) {
    jti in s.expiry && Seconds(s.now) < s.expiry[jti] && !(jti in s.blacklist && s.now < s.blacklist[jti])
  }

  datatype Step =
    | Tick(ms: nat)
    | CreateSession(id: SessionId, user: UserId, jti: Jti)
    | VerifyRefresh(call: CallId, id: SessionId, user: UserId, tokenMatches: bool)
    | LookupSession(call: CallId, userMayLogin: bool)
    | FinishRefresh(call: CallId, jti: Jti)
    | StartLogout(call: CallId, id: SessionId, user: UserId, jti: Jti)
    | DeleteAtLogout(call: CallId)
    | BlacklistAtLogout(call: CallId)
    | RemoveSession(id: SessionId, user: UserId)  // revokeSession, deleteUserSession

  function IssueToken(c: Config, s: State, jti: Jti): State {
    s.(expiry := s.expiry[jti := Seconds(s.now) + c.accessTtlSeconds])
  }

  function Refreshed(s: State, id: SessionId): nat {
    if id in s.refreshed then s.refreshed[id] else 0
  }

  /** The key lives for the whole seconds the token has left; nothing is stored for a token
      that has none. */
  function Blacklist(s: State, jti: Jti): State
    requires jti in s.expiry
  {
    var ttl := s.expiry[jti] - Seconds(s.now);
    if ttl > 0 then s.(blacklist := s.blacklist[jti := s.now + ttl * 1000]) else s
  }

  /** A step that its call is not ready for changes nothing. */
  function Exec(c: Config, s: State, step: Step): State {
    match step
    case Tick(ms) => s.(now := s.now + ms)
    case CreateSession(id, user, jti) =>
      if id in s.createdAt || jti in s.expiry then s
      else
        IssueToken(c, s, jti).(
        sessions := s.sessions[id := Session(user, s.now + c.refreshTtlSeconds * 1000)],
        createdAt := s.createdAt[id := s.now])
    case VerifyRefresh(call, id, user, tokenMatches) =>
      if call in s.calls then s
      else if id !in s.sessions then s
      else if s.sessions[id].expiresAt < s.now then s
      else if !tokenMatches then s
      else s.(calls := s.calls[call := RefreshVerified(id, user, s.now)])
    case LookupSession(call, userMayLogin) =>
      if call !in s.calls || !s.calls[call].RefreshVerified? then s
      else
        var r := s.calls[call];
        if userMayLogin && r.session in s.sessions && s.sessions[r.session].user == r.user
        then s.(calls := s.calls[call := RefreshFound(r.session, r.verifiedAt)])
        else s.(calls := s.calls - {call})
    case FinishRefresh(call, jti) =>
      if call !in s.calls || !s.calls[call].RefreshFound? || jti in s.expiry then s
      else
        var id := s.calls[call].session;
        IssueToken(c, s, jti).(calls := s.calls - {call}, refreshed := s.refreshed[id := Refreshed(s, id) + 1])
    case StartLogout(call, id, user, jti) =>
      if call in s.calls || jti !in s.expiry then s
      else if id in s.sessions && s.sessions[id].user == user then s.(calls := s.calls[call := LogoutFound(id, jti)])
      else s                                      // returns false
    case DeleteAtLogout(call) =>
      if call !in s.calls || !s.calls[call].LogoutFound? then s
      else
        var l := s.calls[call];
        s.(sessions := s.sessions - {l.session}, calls := s.calls[call := LogoutDeleted(l.session, l.jti)])
    case BlacklistAtLogout(call) =>
      if call !in s.calls || !s.calls[call].LogoutDeleted? || s.calls[call].jti !in s.expiry then s
      else
        var l := s.calls[call];
        Blacklist(s, l.jti).(calls := s.calls - {call}, loggedOut := s.loggedOut[l.jti := l.session])
    case RemoveSession(id, user) =>
      if id in s.sessions && s.sessions[id].user == user then s.(sessions := s.sessions - {id}) else s
  }

  function Run(c: Config, s: State, steps: seq<Step>): State
    decreases |steps|
  {
    if steps == [] then s else Run(c, Exec(c, s, steps[0]), steps[1..])
  }

  // ---------------------------------------------------------------- invariant

  /** A session ends a fixed time after its creation, whatever refreshes it has seen. */
  ghost predicate SessionsKeepTheirEnd(c: Config, s: State) {
    forall id <- s.sessions ::
      id in s.createdAt && s.sessions[id].expiresAt == s.createdAt[id] + c.refreshTtlSeconds * 1000
  }

  ghost predicate CallsAreKnown(s: State) {
    forall call <- s.calls :: s.calls[call].session in s.createdAt
  }

  predicate IsRefresh(call: Call) {
    call.RefreshVerified? || call.RefreshFound?
  }

  ghost predicate RefreshesAreInTime(c: Config, s: State) {
    forall call <- s.calls :: IsRefresh(s.calls[call]) ==>
      s.calls[call].session in s.createdAt
      && s.calls[call].verifiedAt <= s.createdAt[s.calls[call].session] + c.refreshTtlSeconds * 1000
  }

  predicate SilencedForGood(s: State, jti: Jti) {
    jti in s.expiry && (s.expiry[jti] * 1000 <= s.now || (jti in s.blacklist && s.expiry[jti] * 1000 <= s.blacklist[jti]))
  }

  ghost predicate DeletedAreGone(s: State) {
    forall call <- s.calls :: s.calls[call].LogoutDeleted? ==> s.calls[call].session !in s.sessions
  }

  ghost predicate LogoutsHold(s: State) {
    forall jti <- s.loggedOut ::
      SilencedForGood(s, jti) && s.loggedOut[jti] in s.createdAt && s.loggedOut[jti] !in s.sessions
  }

  ghost predicate Inv(c: Config, s: State) {
    SessionsKeepTheirEnd(c, s) && CallsAreKnown(s) && RefreshesAreInTime(c, s) && DeletedAreGone(s) && LogoutsHold(s)
  }

  lemma BlacklistSilences(s: State, jti: Jti)
    requires jti in s.expiry
    ensures SilencedForGood(Blacklist(s, jti), jti)
  {
    assert s.now == 1000 * Seconds(s.now) + s.now % 1000;
  }

  lemma BlacklistSparesOthers(s: State, jti: Jti, other: Jti)
    requires jti in s.expiry && SilencedForGood(s, other)
    ensures SilencedForGood(Blacklist(s, jti), other)
  {
    if other == jti { BlacklistSilences(s, jti); }
  }

  lemma StepKeepsSessions(c: Config, s: State, step: Step)
    requires SessionsKeepTheirEnd(c, s)
    ensures SessionsKeepTheirEnd(c, Exec(c, s, step))
  {}

  lemma StepKeepsCalls(c: Config, s: State, step: Step)
    requires SessionsKeepTheirEnd(c, s) && CallsAreKnown(s)
    ensures CallsAreKnown(Exec(c, s, step))
  {}

  lemma StepKeepsRefreshes(c: Config, s: State, step: Step)
    requires SessionsKeepTheirEnd(c, s) && RefreshesAreInTime(c, s)
    ensures RefreshesAreInTime(c, Exec(c, s, step))
  {}

  lemma StepKeepsDeleted(c: Config, s: State, step: Step)
    requires CallsAreKnown(s) && DeletedAreGone(s)
    ensures DeletedAreGone(Exec(c, s, step))
  {}

  lemma BlacklistKeepsLogouts(s: State, call: CallId)
    requires CallsAreKnown(s) && DeletedAreGone(s) && LogoutsHold(s)
    requires call in s.calls && s.calls[call].LogoutDeleted? && s.calls[call].jti in s.expiry
    ensures var l := s.calls[call];
      LogoutsHold(Blacklist(s, l.jti).(calls := s.calls - {call}, loggedOut := s.loggedOut[l.jti := l.session]))
  {
    var jti := s.calls[call].jti;
    BlacklistSilences(s, jti);
    forall other <- s.loggedOut ensures SilencedForGood(Blacklist(s, jti), other) {
      BlacklistSparesOthers(s, jti, other);
    }
  }

  lemma OtherStepKeepsLogouts(c: Config, s: State, step: Step)
    requires CallsAreKnown(s) && LogoutsHold(s) && !step.BlacklistAtLogout?
    ensures LogoutsHold(Exec(c, s, step))
  {}

  lemma StepKeepsLogouts(c: Config, s: State, step: Step)
    requires CallsAreKnown(s) && DeletedAreGone(s) && LogoutsHold(s)
    ensures LogoutsHold(Exec(c, s, step))
  {
    if !step.BlacklistAtLogout? {
      OtherStepKeepsLogouts(c, s, step);
    } else if step.call in s.calls && s.calls[step.call].LogoutDeleted? && s.calls[step.call].jti in s.expiry {
      BlacklistKeepsLogouts(s, step.call);
    }
  }

  lemma {:induction false} RunKeepsInv(c: Config, s: State, steps: seq<Step>)
    requires Inv(c, s)
    ensures Inv(c, Run(c, s, steps))
    decreases |steps|
  {
    if steps != [] {
      StepKeepsSessions(c, s, steps[0]);
      StepKeepsCalls(c, s, steps[0]);
      StepKeepsRefreshes(c, s, steps[0]);
      StepKeepsDeleted(c, s, steps[0]);
      StepKeepsLogouts(c, s, steps[0]);
      RunKeepsInv(c, Exec(c, s, steps[0]), steps[1..]);
    }
  }

  lemma SilencedIsRejected(s: State, jti: Jti)
    requires SilencedForGood(s, jti)
    ensures !Accepted(s, jti)
  {
    assert s.now < 1000 * (Seconds(s.now) + 1);
  }

  lemma LoggedOutStaysStep(c: Config, s: State, step: Step, jti: Jti)
    requires jti in s.loggedOut
    ensures jti in Exec(c, s, step).loggedOut
  {}

  lemma {:induction false} LoggedOutStays(c: Config, s: State, steps: seq<Step>, jti: Jti)
    requires jti in s.loggedOut
    ensures jti in Run(c, s, steps).loggedOut
    decreases |steps|
  {
    if steps != [] {
      LoggedOutStaysStep(c, s, steps[0], jti);
      LoggedOutStays(c, Exec(c, s, steps[0]), steps[1..], jti);
    }
  }

  // ---------------------------------------------------------------- logout is final

  /** Once a logout has returned true, its access token is rejected at every later moment of
      every continuation, for all token lifetimes and all sub-second phases of the clock, and
      its session is gone. */
  lemma LogoutIsFinal(c: Config, before: seq<Step>, after: seq<Step>, jti: Jti)
    requires jti in Run(c, NO_STATE, before).loggedOut
    ensures var t := Run(c, Run(c, NO_STATE, before), after);
      !Accepted(t, jti) && jti in t.loggedOut && t.loggedOut[jti] !in t.sessions
  {
    var s := Run(c, NO_STATE, before);
    RunKeepsInv(c, NO_STATE, before);
    RunKeepsInv(c, s, after);
    LoggedOutStays(c, s, after, jti);
    SilencedIsRejected(Run(c, s, after), jti);
  }

  /** The last step of a logout does record it: from the state after the delete, the call
      returns true and the token is rejected from then on. */
  lemma LogoutCompletes(c: Config, s: State, call: CallId)
    requires call in s.calls && s.calls[call].LogoutDeleted? && s.calls[call].jti in s.expiry
    ensures var t := Exec(c, s, BlacklistAtLogout(call)); var jti := s.calls[call].jti;
      jti in t.loggedOut && t.loggedOut[jti] == s.calls[call].session && !Accepted(t, jti)
  {
    var jti := s.calls[call].jti;
    BlacklistSilences(s, jti);
    SilencedIsRejected(Blacklist(s, jti), jti);
  }

  /** Only a finished logout of its own blacklists a token. */
  ghost predicate BlacklistIsEarned(s: State) {
    forall jti <- s.blacklist :: jti in s.loggedOut
  }

  lemma EarnedStep(c: Config, s: State, step: Step)
    requires BlacklistIsEarned(s)
    ensures BlacklistIsEarned(Exec(c, s, step))
  {}

  lemma {:induction false} EarnedRun(c: Config, s: State, steps: seq<Step>)
    requires BlacklistIsEarned(s)
    ensures BlacklistIsEarned(Run(c, s, steps))
    decreases |steps|
  {
    if steps != [] {
      EarnedStep(c, s, steps[0]);
      EarnedRun(c, Exec(c, s, steps[0]), steps[1..]);
    }
  }

  /** On every run a token is accepted exactly when it was issued, its last whole second is not
      over, and no logout of it has returned true: a logout spares every other token, and
      revoking a session spares them all. */
  lemma AcceptedIffNotLoggedOut(c: Config, steps: seq<Step>, jti: Jti)
    ensures var s := Run(c, NO_STATE, steps);
      (Accepted(s, jti) <==> jti in s.expiry && Seconds(s.now) < s.expiry[jti] && jti !in s.loggedOut)
  {
    var s := Run(c, NO_STATE, steps);
    RunKeepsInv(c, NO_STATE, steps);
    EarnedRun(c, NO_STATE, steps);
    if jti in s.loggedOut {
      SilencedIsRejected(s, jti);
    }
  }

  // ---------------------------------------------------------------- refreshes of a removed session

  predicate PastLookup(s: State, id: SessionId) {
    exists call <- s.calls :: s.calls[call].RefreshFound? && s.calls[call].session == id
  }

  lemma RemovedStaysRemoved(c: Config, s: State, step: Step, id: SessionId)
    requires id in s.createdAt && id !in s.sessions
    ensures id in Exec(c, s, step).createdAt && id !in Exec(c, s, step).sessions
  {}

  lemma LookupNeedsSession(c: Config, s: State, call: CallId, userMayLogin: bool, id: SessionId)
    requires id !in s.sessions && !PastLookup(s, id)
    ensures !PastLookup(Exec(c, s, LookupSession(call, userMayLogin)), id)
  {}

  lemma NoNewLookup(c: Config, s: State, step: Step, id: SessionId)
    requires id !in s.sessions && !PastLookup(s, id)
    ensures !PastLookup(Exec(c, s, step), id)
  {
    var t := Exec(c, s, step);
    if step.LookupSession? {
      LookupNeedsSession(c, s, step.call, step.userMayLogin, id);
    } else {
      assert forall call <- t.calls :: t.calls[call].RefreshFound? ==> call in s.calls && s.calls[call] == t.calls[call];
    }
  }

  lemma NoRefreshCounted(c: Config, s: State, step: Step, id: SessionId)
    requires !PastLookup(s, id)
    ensures Refreshed(Exec(c, s, step), id) == Refreshed(s, id)
  {}

  lemma {:induction false} RemovedRun(c: Config, s: State, steps: seq<Step>, id: SessionId)
    requires id in s.createdAt && id !in s.sessions && !PastLookup(s, id)
    ensures Refreshed(Run(c, s, steps), id) == Refreshed(s, id)
    decreases |steps|
  {
    if steps != [] {
      RemovedStaysRemoved(c, s, steps[0], id);
      NoNewLookup(c, s, steps[0], id);
      NoRefreshCounted(c, s, steps[0], id);
      RemovedRun(c, Exec(c, s, steps[0]), steps[1..], id);
    }
  }

  lemma FreshJti(s: State) returns (jti: Jti)
    ensures jti !in s.expiry
  {
    jti := Above(s.expiry.Keys);
  }

  lemma {:induction false} Above(taken: set<nat>) returns (n: nat)
    ensures forall k <- taken :: k < n
    decreases |taken|
  {
    if taken == {} {
      n := 0;
    } else {
      var k :| k in taken;
      var m := Above(taken - {k});
      n := if m > k then m else k + 1;
      assert forall x <- taken :: x == k || x in taken - {k};
    }
  }

  /** Of a session that was logged out or revoked, a refresh can still succeed exactly when one
      was already past its session lookup at that moment. */
  lemma RefreshAfterRemovalIff(c: Config, s: State, id: SessionId)
    requires id in s.createdAt && id !in s.sessions
    ensures (exists steps: seq<Step> :: Refreshed(Run(c, s, steps), id) > Refreshed(s, id)) <==> PastLookup(s, id)
  {
    if PastLookup(s, id) {
      var call :| call in s.calls && s.calls[call].RefreshFound? && s.calls[call].session == id;
      var jti := FreshJti(s);
      var steps := [FinishRefresh(call, jti)];
      assert steps[1..] == [];
      assert Run(c, s, steps) == Exec(c, s, steps[0]);
      assert Refreshed(Run(c, s, steps), id) > Refreshed(s, id);
    } else {
      forall steps: seq<Step> ensures Refreshed(Run(c, s, steps), id) == Refreshed(s, id) {
        RemovedRun(c, s, steps, id);
      }
    }
  }

  lemma RunCons(c: Config, s: State, step: Step, rest: seq<Step>)
    ensures Run(c, s, [step] + rest) == Run(c, Exec(c, s, step), rest)
  {
    assert ([step] + rest)[1..] == rest;
  }

  lemma RunOfThree(c: Config, s: State, x: Step, y: Step, z: Step, rest: seq<Step>)
    ensures Run(c, s, [x, y, z] + rest) == Run(c, Exec(c, Exec(c, Exec(c, s, x), y), z), rest)
  {
    assert [x, y, z] + rest == [x] + ([y] + ([z] + rest));
    RunCons(c, s, x, [y] + ([z] + rest));
    RunCons(c, Exec(c, s, x), y, [z] + rest);
    RunCons(c, Exec(c, Exec(c, s, x), y), z, rest);
  }

  const SHORT := Config(900, 1000)
  const LOOKED_UP := State(0, map[1 := Session(7, 1000000)], map[1 := 0], map[1 := 900], map[],
                           map[1 := RefreshFound(1, 0)], map[], map[])
  const LOGGED_OUT := State(0, map[], map[1 := 0], map[1 := 900], map[1 := 900000],
                            map[1 := RefreshFound(1, 0)], map[], map[1 := 1])

  lemma LookedUpIsReached()
    ensures Run(SHORT, NO_STATE, [CreateSession(1, 7, 1), VerifyRefresh(1, 1, 7, true), LookupSession(1, true)]) == LOOKED_UP
  {
    RunOfThree(SHORT, NO_STATE, CreateSession(1, 7, 1), VerifyRefresh(1, 1, 7, true), LookupSession(1, true), []);
    var s1 := Exec(SHORT, NO_STATE, CreateSession(1, 7, 1));
    assert s1 == State(0, map[1 := Session(7, 1000000)], map[1 := 0], map[1 := 900], map[], map[], map[], map[]);
  }

  lemma LoggedOutIsReached()
    ensures Run(SHORT, LOOKED_UP, [StartLogout(2, 1, 7, 1), DeleteAtLogout(2), BlacklistAtLogout(2)]) == LOGGED_OUT
  {
    RunOfThree(SHORT, LOOKED_UP, StartLogout(2, 1, 7, 1), DeleteAtLogout(2), BlacklistAtLogout(2), []);
    var s1 := Exec(SHORT, LOOKED_UP, StartLogout(2, 1, 7, 1));
    var s2 := Exec(SHORT, s1, DeleteAtLogout(2));
    assert s2.sessions == map[];
    assert Exec(SHORT, s2, BlacklistAtLogout(2)).calls == map[1 := RefreshFound(1, 0)];
  }

  /** Such a moment is reachable: the lookup comes before the delete, the logout returns true,
      and the refresh then issues a token that is accepted. */
  lemma RefreshOvertakenByLogout()
    ensures var steps := [CreateSession(1, 7, 1), VerifyRefresh(1, 1, 7, true), LookupSession(1, true)]
                       + [StartLogout(2, 1, 7, 1), DeleteAtLogout(2), BlacklistAtLogout(2)];
      var s := Run(SHORT, NO_STATE, steps);
      1 in s.loggedOut && 1 !in s.sessions && Accepted(Exec(SHORT, s, FinishRefresh(1, 2)), 2)
  {
    LookedUpIsReached();
    LoggedOutIsReached();
    RunOfThree(SHORT, NO_STATE, CreateSession(1, 7, 1), VerifyRefresh(1, 1, 7, true), LookupSession(1, true),
               [StartLogout(2, 1, 7, 1), DeleteAtLogout(2), BlacklistAtLogout(2)]);
    RunOfThree(SHORT, NO_STATE, CreateSession(1, 7, 1), VerifyRefresh(1, 1, 7, true), LookupSession(1, true), []);
    assert [CreateSession(1, 7, 1), VerifyRefresh(1, 1, 7, true), LookupSession(1, true)] + []
        == [CreateSession(1, 7, 1), VerifyRefresh(1, 1, 7, true), LookupSession(1, true)];
  }

  // ---------------------------------------------------------------- outcomes, step by step

  /** A new session ends its lifetime from now; its token expires its lifetime from the current
      whole second. */
  lemma CreationOutcome(c: Config, s: State, id: SessionId, user: UserId, jti: Jti)
    requires id !in s.createdAt && jti !in s.expiry
    ensures var t := Exec(c, s, CreateSession(id, user, jti));
      && t.sessions == s.sessions[id := Session(user, s.now + c.refreshTtlSeconds * 1000)]
      && t.createdAt == s.createdAt[id := s.now]
      && t.expiry == s.expiry[jti := s.now / 1000 + c.accessTtlSeconds]
      && t.blacklist == s.blacklist && t.calls == s.calls && t.refreshed == s.refreshed && t.loggedOut == s.loggedOut
  {
  }

  /** A refresh succeeds, with nothing in between, exactly when its session exists, is not over,
      belongs to the user of the token, its stored hash matches the token, and the user may log in.
      It then issues one token that expires its lifetime from the current whole second, and leaves
      the session and its end as they were. */
  lemma RefreshOutcome(c: Config, s: State, call: CallId, id: SessionId, user: UserId, matches: bool, mayLogin: bool, jti: Jti)
    requires call !in s.calls && jti !in s.expiry
    ensures var t := Exec(c, Exec(c, Exec(c, s, VerifyRefresh(call, id, user, matches)), LookupSession(call, mayLogin)), FinishRefresh(call, jti));
      var succeeds := id in s.sessions && s.now <= s.sessions[id].expiresAt && s.sessions[id].user == user && matches && mayLogin;
      && t.expiry == (if succeeds then s.expiry[jti := s.now / 1000 + c.accessTtlSeconds] else s.expiry)
      && Refreshed(t, id) == Refreshed(s, id) + (if succeeds then 1 else 0)
      && t.sessions == s.sessions && t.calls == s.calls && t.blacklist == s.blacklist && t.now == s.now
  {
    VerifyOutcome(c, s, call, id, user, matches);
    LookupOutcome(c, s, call, id, user, mayLogin);
    FinishOutcome(c, s, call, id, jti);
  }

  lemma VerifyOutcome(c: Config, s: State, call: CallId, id: SessionId, user: UserId, matches: bool)
    requires call !in s.calls
    ensures Exec(c, s, VerifyRefresh(call, id, user, matches)) ==
      if id in s.sessions && s.now <= s.sessions[id].expiresAt && matches
      then s.(calls := s.calls[call := RefreshVerified(id, user, s.now)]) else s
  {
  }

  lemma LookupOutcome(c: Config, s: State, call: CallId, id: SessionId, user: UserId, mayLogin: bool)
    requires call !in s.calls
    ensures var s1 := s.(calls := s.calls[call := RefreshVerified(id, user, s.now)]);
      var found := mayLogin && id in s.sessions && s.sessions[id].user == user;
      Exec(c, s1, LookupSession(call, mayLogin)) == if found then s.(calls := s.calls[call := RefreshFound(id, s.now)]) else s
    ensures Exec(c, s, LookupSession(call, mayLogin)) == s
  {
    assert s.calls[call := RefreshVerified(id, user, s.now)] - {call} == s.calls;
    assert s.calls[call := RefreshVerified(id, user, s.now)][call := RefreshFound(id, s.now)] == s.calls[call := RefreshFound(id, s.now)];
  }

  lemma FinishOutcome(c: Config, s: State, call: CallId, id: SessionId, jti: Jti)
    requires call !in s.calls && jti !in s.expiry
    ensures Exec(c, s.(calls := s.calls[call := RefreshFound(id, s.now)]), FinishRefresh(call, jti)) ==
      s.(expiry := s.expiry[jti := s.now / 1000 + c.accessTtlSeconds], refreshed := s.refreshed[id := Refreshed(s, id) + 1])
    ensures Exec(c, s, FinishRefresh(call, jti)) == s
  {
    assert s.calls[call := RefreshFound(id, s.now)] - {call} == s.calls;
  }

  /** A logout, with nothing in between, goes through exactly for a session of the user. It then
      removes that session and no other, and records the token; otherwise nothing changes. */
  lemma LogoutOutcome(c: Config, s: State, call: CallId, id: SessionId, user: UserId, jti: Jti)
    requires call !in s.calls && jti in s.expiry
    ensures var t := Exec(c, Exec(c, Exec(c, s, StartLogout(call, id, user, jti)), DeleteAtLogout(call)), BlacklistAtLogout(call));
      if id in s.sessions && s.sessions[id].user == user
      then t.sessions == s.sessions - {id} && t.loggedOut == s.loggedOut[jti := id] && t.expiry == s.expiry && t.calls == s.calls
      else t == s
  {
    var s1 := Exec(c, s, StartLogout(call, id, user, jti));
    if id in s.sessions && s.sessions[id].user == user {
      assert s1.calls == s.calls[call := LogoutFound(id, jti)];
      var s2 := Exec(c, s1, DeleteAtLogout(call));
      assert s2.calls == s1.calls[call := LogoutDeleted(id, jti)] && s2.sessions == s.sessions - {id};
      assert s2.calls - {call} == s.calls;
    }
  }

  /** Revoking removes exactly the named session, and only for its own user. */
  lemma RevokeOutcome(c: Config, s: State, id: SessionId, user: UserId)
    ensures Exec(c, s, RemoveSession(id, user)) ==
      s.(sessions := if id in s.sessions && s.sessions[id].user == user then s.sessions - {id} else s.sessions)
  {
  }

  /** No number of refreshes carries a session past its creation expiry: on every run, each
      refresh in flight was let in no later than the creation time plus the refresh lifetime,
      and once that moment is past no new refresh of the session is let in. */
  lemma RefreshesEndWithTheSession(c: Config, steps: seq<Step>, id: SessionId)
    ensures var s := Run(c, NO_STATE, steps);
      && (forall call <- s.calls :: IsRefresh(s.calls[call]) && s.calls[call].session == id ==>
            id in s.createdAt && s.calls[call].verifiedAt <= s.createdAt[id] + c.refreshTtlSeconds * 1000)
      && (id in s.createdAt && s.createdAt[id] + c.refreshTtlSeconds * 1000 < s.now ==>
            forall call: CallId, user: UserId, matches: bool :: Exec(c, s, VerifyRefresh(call, id, user, matches)) == s)
  {
    RunKeepsInv(c, NO_STATE, steps);
  }
}
