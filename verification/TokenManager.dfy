/** `TwitchAppTokenManager.getOrRefresh` and the refresh function of `TwitchAppAuthService`
    for one app: every interleaving at their awaits. */
module TokenManager {
  import opened Wrappers

  type Token = string
  type CallId = nat

  const PLACEHOLDER: Token := ""

  datatype Entry = Entry(token: Token, expiresAt: int, refreshing: Option<CallId>)
  datatype Stored = Stored(token: Token, expiresAt: int)

  /** A refresh that has not settled: awaiting Twitch, or about to run its `finally`. */
  datatype Refresh = Fetching | Settling(result: Option<Token>)

  datatype State = State(
    entry: Option<Entry>,
    db: Option<Stored>,
    writes: set<Stored>,                          // `updateToken` calls, which nobody awaits
    lookups: set<CallId>,                         // callers in the first-time database lookup
    refreshes: map<CallId, Refresh>,
    handedOut: set<Token>,
    now: nat)

  datatype Step =
    | Call(c: CallId)
    | LookupReturns(c: CallId)
    | FetchReturns(r: CallId, token: Token, expiresIn: int)
    | FetchFails(r: CallId)
    | Settle(r: CallId)
    | Invalidate
    | WriteLands(w: Stored)
    | Tick

  /** `setToken`. */
  function SetToken(s: State, token: Token, expiresIn: int): State {
    s.(entry := Some(Entry(token, s.now + (expiresIn - 60) * 1000, None)))
  }

  predicate IsExpired(s: State) {
    s.entry.None? || s.now >= s.entry.value.expiresAt
  }

  /** The synchronous part of `getOrRefresh` when there is an entry. */
  function UseEntry(s: State, c: CallId): State
    requires s.entry.Some?
  {
    var e := s.entry.value;
    if !IsExpired(s) then s.(handedOut := s.handedOut + {e.token})
    else if e.refreshing.Some? then s             // the caller shares the pending promise
    else s.(refreshes := s.refreshes[c := Fetching], entry := Some(e.(refreshing := Some(c))))
  }

  predicate Loadable(s: State) {
    s.db.Some? && s.db.value.token != PLACEHOLDER && s.now < s.db.value.expiresAt
  }

  /** What follows the first-time lookup. The stored time in milliseconds is passed on where
      seconds are expected; without a usable token a refresh starts over a placeholder. */
  function AfterLookup(s: State, c: CallId): State {
    if Loadable(s) then UseEntry(SetToken(s, s.db.value.token, s.db.value.expiresAt), c)
    else s.(refreshes := s.refreshes[c := Fetching], entry := Some(Entry(PLACEHOLDER, 0, Some(c))))
  }

  predicate Busy(s: State, c: CallId) {
    c in s.lookups || c in s.refreshes
  }

  predicate Enabled(s: State, a: Step) {
    match a
    case Call(c) => !Busy(s, c)
    case LookupReturns(c) => c in s.lookups && c !in s.refreshes
    case FetchReturns(r, token, _) => r in s.refreshes && s.refreshes[r].Fetching? && token != PLACEHOLDER
    case FetchFails(r) => r in s.refreshes && s.refreshes[r].Fetching?
    case Settle(r) => r in s.refreshes && s.refreshes[r].Settling?
    case Invalidate => s.entry.Some?
    case WriteLands(w) => w in s.writes
    // Settling is a microtask: the clock does not move before it is done.
    case Tick => forall r <- s.refreshes :: s.refreshes[r].Fetching?
  }

  function Apply(s: State, a: Step): State
    requires Enabled(s, a)
  {
    match a
    case Call(c) => if s.entry.None? then s.(lookups := s.lookups + {c}) else UseEntry(s, c)
    case LookupReturns(c) => AfterLookup(s.(lookups := s.lookups - {c}), c)
    case FetchReturns(r, token, expiresIn) =>
      SetToken(s, token, expiresIn).(refreshes := s.refreshes[r := Settling(Some(token))])
    case FetchFails(r) => s.(refreshes := s.refreshes[r := Settling(None)])
    case Settle(r) =>
      var t := if s.entry.None? then s
        else s.(writes := s.writes + {Stored(s.entry.value.token, s.entry.value.expiresAt)},
                entry := Some(s.entry.value.(refreshing := None)));
      t.(refreshes := s.refreshes - {r},
         handedOut := s.handedOut + if s.refreshes[r].result.Some? then {s.refreshes[r].result.value} else {})
    case Invalidate => s.(entry := Some(s.entry.value.(expiresAt := 0)))
    case WriteLands(w) => s.(db := Some(w))
    case Tick => s.(now := s.now + 1)
  }

  function Next(s: State, a: Step): State {
    if Enabled(s, a) then Apply(s, a) else s
  }

  function Run(s: State, steps: seq<Step>): State
    decreases |steps|
  {
    if steps == [] then s else Run(Next(s, steps[0]), steps[1..])
  }

  function Init(db: Option<Stored>, now: nat): State {
    State(None, db, {}, {}, map[], {}, now)
  }

  // ---------------------------------------------------------------- what a call gets

  /** With an entry a call gets the stored token while it is not over; once it is, the call shares
      the refresh in flight, and starts one only if there is none. */
  lemma CallOutcome(s: State, c: CallId)
    requires s.entry.Some? && !Busy(s, c)
    ensures var t := Next(s, Call(c)); var e := s.entry.value;
      if s.now < e.expiresAt then t == s.(handedOut := s.handedOut + {e.token})
      else if e.refreshing.Some? then t == s
      else t.refreshes == s.refreshes[c := Fetching] && t.handedOut == s.handedOut && t.entry == Some(Entry(e.token, e.expiresAt, Some(c)))
  {
  }

  /** The first call looks into the database. A stored token that is not over is kept and handed
      out; otherwise a refresh starts over a placeholder that is never valid. */
  lemma FirstCallOutcome(s: State, c: CallId)
    requires s.entry.None? && !Busy(s, c) && s.now >= 0
    ensures var t := Next(Next(s, Call(c)), LookupReturns(c));
      if s.db.Some? && s.db.value.token != "" && s.now < s.db.value.expiresAt
      then t.entry.Some? && t.entry.value.token == s.db.value.token
           && t.entry.value.expiresAt == s.now + (s.db.value.expiresAt - 60) * 1000
           && (s.db.value.expiresAt > 60 ==> t.handedOut == s.handedOut + {s.db.value.token} && t.refreshes == s.refreshes)
      else t.entry == Some(Entry("", 0, Some(c))) && t.refreshes == s.refreshes[c := Fetching] && t.handedOut == s.handedOut
  {
    var s1 := Next(s, Call(c));
    assert s1.lookups - {c} == s.lookups;
  }

  /** A refresh that Twitch answers hands its token out, keeps it for the lifetime less a minute,
      writes exactly that to the database, and ends; one that fails hands out nothing. */
  lemma RefreshOutcome(s: State, r: CallId, token: Token, expiresIn: int)
    requires r in s.refreshes && s.refreshes[r].Fetching? && token != ""
    ensures var t := Next(Next(s, FetchReturns(r, token, expiresIn)), Settle(r)); var until := s.now + (expiresIn - 60) * 1000;
      && t.entry == Some(Entry(token, until, None)) && t.handedOut == s.handedOut + {token}
      && t.writes == s.writes + {Stored(token, until)} && t.refreshes == s.refreshes - {r}
    ensures var u := Next(Next(s, FetchFails(r)), Settle(r));
      && u.handedOut == s.handedOut && u.refreshes == s.refreshes - {r}
      && (s.entry.Some? ==> u.entry == Some(Entry(s.entry.value.token, s.entry.value.expiresAt, None)))
  {
    var s1 := Next(s, FetchReturns(r, token, expiresIn));
    assert s1.refreshes - {r} == s.refreshes - {r};
    var s2 := Next(s, FetchFails(r));
    assert s2.refreshes - {r} == s.refreshes - {r};
  }

  /** A write that lands is what the database then holds; a forced invalidation ends the token at once. */
  lemma WriteAndInvalidateOutcome(s: State, w: Stored)
    ensures w in s.writes ==> Next(s, WriteLands(w)).db == Some(w)
    ensures s.entry.Some? ==> Next(s, Invalidate).entry == Some(Entry(s.entry.value.token, 0, s.entry.value.refreshing))
  {
  }

  // ---------------------------------------------------------------- the placeholder stays inside

  predicate PlaceholderIsDead(token: Token, expiresAt: int) {
    token == PLACEHOLDER ==> expiresAt == 0
  }

  predicate PlaceholderInv(s: State) {
    && (s.entry.Some? ==> PlaceholderIsDead(s.entry.value.token, s.entry.value.expiresAt))
    && (forall w <- s.writes :: PlaceholderIsDead(w.token, w.expiresAt))
    && (s.db.Some? ==> PlaceholderIsDead(s.db.value.token, s.db.value.expiresAt))
    && (forall r <- s.refreshes :: s.refreshes[r] != Settling(Some(PLACEHOLDER)))
    && PLACEHOLDER !in s.handedOut
  }

  lemma PlaceholderStep(s: State, a: Step)
    requires PlaceholderInv(s)
    ensures PlaceholderInv(Next(s, a))
  {
  }

  /** The placeholder is never handed to a caller and what is stored for it is never loaded
      back, in any interleaving. */
  lemma {:induction false} PlaceholderNeverLeaks(s: State, steps: seq<Step>)
    requires PlaceholderInv(s)
    ensures var t := Run(s, steps);
      PLACEHOLDER !in t.handedOut && (t.db.Some? && t.db.value.token == PLACEHOLDER ==> t.db.value.expiresAt <= t.now && !Loadable(t))
    decreases |steps|
  {
    if steps != [] {
      PlaceholderStep(s, steps[0]);
      PlaceholderNeverLeaks(Next(s, steps[0]), steps[1..]);
    }
  }

  // ---------------------------------------------------------------- the recursive call ends

  /** An entry is never removed, so the call made again after loading from the database never
      looks there a second time: it ends or shares a refresh at once. */
  lemma {:induction false} LookupHappensOnce(s: State, c: CallId, steps: seq<Step>)
    requires c in s.lookups && c !in s.refreshes
    ensures var t := Run(Next(s, LookupReturns(c)), steps); t.entry.Some? && c !in t.lookups
  {
    var t := Next(s, LookupReturns(c));
    assert t.entry.Some? && c !in t.lookups;
    EntryStays(t, c, steps);
  }

  lemma {:induction false} EntryStays(s: State, c: CallId, steps: seq<Step>)
    requires s.entry.Some? && c !in s.lookups
    ensures Run(s, steps).entry.Some? && c !in Run(s, steps).lookups
    decreases |steps|
  {
    if steps != [] {
      EntryStays(Next(s, steps[0]), c, steps[1..]);
    }
  }

  // ---------------------------------------------------------------- one refresh at a time

  predicate SingleRefresh(s: State) {
    && s.entry.Some? && s.lookups == {}
    && (forall r, r' :: r in s.refreshes && r' in s.refreshes ==> r == r')
    && (s.entry.value.refreshing.Some? ==> s.entry.value.refreshing.value in s.refreshes)
    && (forall r <- s.refreshes :: match s.refreshes[r]
          case Settling(Some(_)) => s.entry.value.refreshing.None? && !IsExpired(s)
          case _ => s.entry.value.refreshing == Some(r))
  }

  /** Tokens live longer than a minute, and no forced invalidation falls between `setToken`
      and the `finally`. */
  predicate Orderly(s: State, a: Step) {
    && (a.FetchReturns? ==> a.expiresIn > 60)
    && (a.Invalidate? ==> forall r <- s.refreshes :: !(s.refreshes[r].Settling? && s.refreshes[r].result.Some?))
  }

  predicate OrderlyRun(s: State, steps: seq<Step>)
    decreases |steps|
  {
    steps != [] ==> Orderly(s, steps[0]) && OrderlyRun(Next(s, steps[0]), steps[1..])
  }

  lemma SingleRefreshStep(s: State, a: Step)
    requires SingleRefresh(s) && Orderly(s, a)
    ensures SingleRefresh(Next(s, a))
  {
  }

  /** From a state with an entry and no caller in the first-time lookup, at most one refresh is
      outstanding in every orderly interleaving. */
  lemma {:induction false} OneRefreshOutstanding(s: State, steps: seq<Step>, r: CallId, r': CallId)
    requires SingleRefresh(s) && OrderlyRun(s, steps)
    ensures var t := Run(s, steps); SingleRefresh(t) && (r in t.refreshes && r' in t.refreshes ==> r == r')
    decreases |steps|
  {
    if steps != [] {
      SingleRefreshStep(s, steps[0]);
      OneRefreshOutstanding(Next(s, steps[0]), steps[1..], r, r');
    }
  }

  /** The lifetime bound is exact: a call that falls between `setToken` and the `finally`
      starts a second refresh exactly when the new token lives a minute or less. */
  lemma SecondRefreshIffShortLived(s: State, r: CallId, token: Token, expiresIn: int, c: CallId)
    requires SingleRefresh(s) && r in s.refreshes && s.refreshes[r].Fetching? && token != PLACEHOLDER && !Busy(s, c)
    ensures var t := Next(Next(s, FetchReturns(r, token, expiresIn)), Call(c));
      c in t.refreshes && r in t.refreshes && c != r <==> expiresIn <= 60
  {
    if expiresIn > 60 {
      assert (expiresIn - 60) * 1000 > 0;
    }
  }

  /** So is the order: an invalidation in that gap lets the next call start a second refresh. */
  lemma InvalidationInTheGap(s: State, r: CallId, token: Token, expiresIn: int, c: CallId)
    requires SingleRefresh(s) && r in s.refreshes && s.refreshes[r].Fetching? && token != PLACEHOLDER && !Busy(s, c)
    ensures var t := Next(Next(Next(s, FetchReturns(r, token, expiresIn)), Invalidate), Call(c));
      c != r && c in t.refreshes && r in t.refreshes
  {
  }

  /** And so is the start: two callers in the first-time lookup with nothing to load each
      start their own refresh. */
  lemma TwoLookupsTwoRefreshes(s: State, c: CallId, d: CallId)
    requires c != d && c in s.lookups && d in s.lookups && c !in s.refreshes && d !in s.refreshes && !Loadable(s)
    ensures var t := Next(Next(s, LookupReturns(c)), LookupReturns(d)); c in t.refreshes && d in t.refreshes
  {
  }
}
