/** `RedisService.getOrSet` on one cache key: any number of callers, in any number of
    processes, over one shared cache entry, one lock and one notification channel.

    Every await is a step boundary. A step that is not enabled changes nothing, so every
    sequence of steps is an interleaving, and a claim about `Run(s, steps)` for all `steps`
    is a claim about every run. */
module SingleFlight {
  import opened Wrappers

  /** What `JSON.parse` gives back; a stored `null` reads like a missing entry. */
  datatype Value = NullValue | Data(id: int)

  datatype Outcome = Returned(value: Value) | Threw

  datatype Caller = Caller(process: nat, id: nat)

  datatype Pc =
    | TryLock(timeout: nat)                       // the first read missed
    | DoubleCheck                                 // holds the lock
    | Resolving
    | Storing(result: Value)                      // the resolver has succeeded
    | Publishing(result: Value)
    | Unlocking(outcome: Outcome)                 // in the finally block
    | Waiting(deadline: nat, listening: bool, fired: bool)
    | Done(outcome: Outcome)

  datatype State = State(
    cache: Option<Value>,
    lock: Option<Caller>,                         // the value is bookkeeping; the code stores '1'
    pcs: map<Caller, Pc>,
    subscribed: set<nat>,                         // processes whose connection is subscribed
    inbox: map<Caller, Value>,                    // a message on its way to a listening waiter
    now: nat,
    produced: set<Value>,                         // results of resolver calls so far
    successes: nat,
    removals: nat,                                // times a present entry expired or was deleted
    lost: nat)                                    // results whose write to the cache was rejected

  datatype Step =
    | Start(c: Caller, timeout: nat)
    | AcquireLock(c: Caller)
    | CheckAgain(c: Caller)
    | ResolverReturns(c: Caller, v: Value)
    | ResolverThrows(c: Caller)
    | Store(c: Caller)
    | Publish(c: Caller)
    | StoreFails(c: Caller)
    | CallFails(c: Caller)                        // any other Redis call of the caller is rejected
    | Unlock(c: Caller)
    | Subscribe(c: Caller)
    | Receive(c: Caller)
    | TimerFires(c: Caller)
    | ReadAtTimeout(c: Caller)
    | LoseMessage(c: Caller)
    | Unsubscribe(process: nat)
    | EntryRemoved
    | LockExpires
    | Tick

  function Init(cache: Option<Value>): State {
    State(cache, None, map[], {}, map[], 0, {}, 0, 0, 0)
  }

  /** `get`: null for a missing entry and for a stored null. */
  function Get(s: State): Value {
    if s.cache.Some? then s.cache.value else NullValue
  }

  predicate InCritical(p: Pc) {
    p.DoubleCheck? || p.Resolving? || p.Storing? || p.Publishing? || p.Unlocking?
  }

  predicate Hears(s: State, c: Caller) {
    c in s.pcs && s.pcs[c].Waiting? && s.pcs[c].listening && c.process in s.subscribed
  }

  /** The caller awaits a Redis call other than the write of its result. */
  predicate MayFail(p: Pc) {
    p.TryLock? || p.DoubleCheck? || p.Publishing? || p.Unlocking? || (p.Waiting? && p.fired)
  }

  predicate Enabled(s: State, a: Step) {
    match a
    case Start(c, _) => c !in s.pcs
    case AcquireLock(c) => c in s.pcs && s.pcs[c].TryLock?
    case CheckAgain(c) => c in s.pcs && s.pcs[c].DoubleCheck?
    case ResolverReturns(c, _) => c in s.pcs && s.pcs[c].Resolving?
    case ResolverThrows(c) => c in s.pcs && s.pcs[c].Resolving?
    case Store(c) => c in s.pcs && s.pcs[c].Storing?
    case Publish(c) => c in s.pcs && s.pcs[c].Publishing?
    case StoreFails(c) => c in s.pcs && s.pcs[c].Storing?
    case CallFails(c) => c in s.pcs && MayFail(s.pcs[c])
    case Unlock(c) => c in s.pcs && s.pcs[c].Unlocking?
    case Subscribe(c) => c in s.pcs && s.pcs[c].Waiting? && !s.pcs[c].listening
    case Receive(c) => c in s.pcs && s.pcs[c].Waiting? && c in s.inbox
    case TimerFires(c) => c in s.pcs && s.pcs[c].Waiting? && s.pcs[c].deadline <= s.now
    case ReadAtTimeout(c) => c in s.pcs && s.pcs[c].Waiting? && s.pcs[c].fired
    case LoseMessage(c) => c in s.inbox
    case Unsubscribe(_) => true
    case EntryRemoved => true
    case LockExpires => true
    case Tick => true
  }

  function Goto(s: State, c: Caller, p: Pc): State {
    s.(pcs := s.pcs[c := p])
  }

  function Apply(s: State, a: Step): State
    requires Enabled(s, a)
  {
    match a
    case Start(c, timeout) =>
      Goto(s, c, if Get(s) != NullValue then Done(Returned(Get(s))) else TryLock(timeout))
    case AcquireLock(c) =>
      if s.lock.None? then Goto(s, c, DoubleCheck).(lock := Some(c))
      else Goto(s, c, Waiting(s.now + s.pcs[c].timeout, false, false))
    case CheckAgain(c) =>
      Goto(s, c, if Get(s) != NullValue then Unlocking(Returned(Get(s))) else Resolving)
    case ResolverReturns(c, v) =>
      Goto(s, c, Storing(v)).(produced := s.produced + {v}, successes := s.successes + 1)
    case ResolverThrows(c) => Goto(s, c, Unlocking(Threw))
    case Store(c) => Goto(s, c, Publishing(s.pcs[c].result)).(cache := Some(s.pcs[c].result))
    case Publish(c) =>
      var v := s.pcs[c].result;
      Goto(s, c, Unlocking(Returned(v))).(inbox := s.inbox + map w | w in s.pcs && Hears(s, w) && w !in s.inbox :: v)
    case StoreFails(c) => Goto(s, c, Unlocking(Threw)).(lost := s.lost + 1)
    case CallFails(c) =>                          // a rejected unlock leaves the lock to its expiry
      Goto(s, c, if s.pcs[c].DoubleCheck? || s.pcs[c].Publishing? then Unlocking(Threw) else Done(Threw))
    case Unlock(c) => Goto(s, c, Done(s.pcs[c].outcome)).(lock := None)
    case Subscribe(c) =>
      Goto(s, c, s.pcs[c].(listening := true)).(subscribed := s.subscribed + {c.process})
    case Receive(c) => Goto(s, c, Done(Returned(s.inbox[c])))
    case TimerFires(c) => Goto(s, c, s.pcs[c].(fired := true))
    case ReadAtTimeout(c) => Goto(s, c, Done(if Get(s) != NullValue then Returned(Get(s)) else Threw))
    case LoseMessage(c) => s.(inbox := s.inbox - {c})
    case Unsubscribe(p) => s.(subscribed := s.subscribed - {p})
    case EntryRemoved => s.(cache := None, removals := s.removals + if s.cache.Some? then 1 else 0)
    case LockExpires => s.(lock := None)
    case Tick => s.(now := s.now + 1)
  }

  function Next(s: State, a: Step): State {
    if Enabled(s, a) then Apply(s, a) else s
  }

  function Run(s: State, steps: seq<Step>): State
    decreases |steps|
  {
    if steps == [] then s else Run(Next(s, steps[0]), steps[1..])
  }

  // ---------------------------------------------------------------- one resolver at a time

  /** A caller between acquiring and releasing the lock holds it; any other holder is a caller
      that has ended without managing to release it. */
  predicate LockInv(s: State) {
    && (forall c <- s.pcs :: InCritical(s.pcs[c]) ==> s.lock == Some(c))
    && (s.lock.Some? ==> s.lock.value in s.pcs && (InCritical(s.pcs[s.lock.value]) || s.pcs[s.lock.value].Done?))
  }

  /** The lock expires under a caller that is still working. */
  predicate ExpiresWhileHeld(s: State, a: Step) {
    a.LockExpires? && s.lock.Some? && s.lock.value in s.pcs && InCritical(s.pcs[s.lock.value])
  }

  predicate LockOutlivesHolders(s: State, steps: seq<Step>)
    decreases |steps|
  {
    steps != [] ==> !ExpiresWhileHeld(s, steps[0]) && LockOutlivesHolders(Next(s, steps[0]), steps[1..])
  }

  lemma LockStep(s: State, a: Step)
    requires LockInv(s) && !ExpiresWhileHeld(s, a)
    ensures LockInv(Next(s, a))
  {
  }

  lemma {:induction false} LockRun(s: State, steps: seq<Step>)
    requires LockInv(s) && LockOutlivesHolders(s, steps)
    ensures LockInv(Run(s, steps))
    decreases |steps|
  {
    if steps != [] {
      LockStep(s, steps[0]);
      LockRun(Next(s, steps[0]), steps[1..]);
    }
  }

  /** In every interleaving in which the lock does not expire while it is held, at most one
      resolver runs at a time. */
  lemma OneResolverAtATime(cache: Option<Value>, steps: seq<Step>, c: Caller, d: Caller)
    requires LockOutlivesHolders(Init(cache), steps)
    ensures var s := Run(Init(cache), steps);
      c in s.pcs && d in s.pcs && s.pcs[c].Resolving? && s.pcs[d].Resolving? ==> c == d
  {
    LockRun(Init(cache), steps);
  }

  lemma RunTwo(s: State, a: Step, b: Step)
    ensures Run(s, [a, b]) == Next(Next(s, a), b)
  {
    assert [a, b][1..] == [b] && [b][1..] == [];
    assert Run(Next(s, a), [b]) == Next(Next(s, a), b);
  }

  /** The expiry is what the guarantee rests on: from every state in which a resolver runs,
      an expiry lets any new caller start a second one. */
  lemma ExpiryLetsASecondResolverRun(s: State, c: Caller, d: Caller, timeout: nat)
    requires c in s.pcs && s.pcs[c].Resolving? && d !in s.pcs && Get(s) == NullValue
    ensures var t := Next(Next(Next(Next(s, LockExpires), Start(d, timeout)), AcquireLock(d)), CheckAgain(d));
      c != d && c in t.pcs && d in t.pcs && t.pcs[c].Resolving? && t.pcs[d].Resolving?
  {
  }

  // ---------------------------------------------------------------- one success per lifetime of the entry

  /** The lock does not expire while held and no resolver yields null. */
  predicate WellBehaved(s: State, a: Step) {
    !ExpiresWhileHeld(s, a) && (a.ResolverReturns? ==> a.v != NullValue)
  }

  predicate WellBehavedRun(s: State, steps: seq<Step>)
    decreases |steps|
  {
    steps != [] ==> WellBehaved(s, steps[0]) && WellBehavedRun(Next(s, steps[0]), steps[1..])
  }

  predicate SomeoneStoring(s: State) {
    s.lock.Some? && s.lock.value in s.pcs && s.pcs[s.lock.value].Storing?
  }

  /** A result that is not stored yet stands for the entry it is about to become. */
  function Live(s: State): nat {
    if s.cache.Some? || SomeoneStoring(s) then 1 else 0
  }

  predicate FlightInv(s: State) {
    && LockInv(s)
    && s.cache != Some(NullValue)
    && (forall c <- s.pcs :: s.pcs[c].Resolving? || s.pcs[c].Storing? ==> s.cache.None?)
    && (forall c <- s.pcs :: s.pcs[c].Storing? || s.pcs[c].Publishing? ==> s.pcs[c].result != NullValue)
  }

  lemma FlightStep(s: State, a: Step)
    requires FlightInv(s) && WellBehaved(s, a)
    ensures FlightInv(Next(s, a))
  {
    LockStep(s, a);
  }

  lemma SuccessStep(s: State, a: Step)
    requires FlightInv(s) && WellBehaved(s, a)
    ensures var t := Next(s, a);
      t.successes + s.removals + s.lost + Live(s) == s.successes + t.removals + t.lost + Live(t)
  {
  }

  /** Exact count: successful resolver calls, plus an entry present at the start, are the
      entries removed, plus the results whose write was rejected, plus the entry still there
      or about to be stored. */
  lemma {:induction false} SuccessesAreCounted(s: State, steps: seq<Step>)
    requires FlightInv(s) && WellBehavedRun(s, steps)
    ensures var t := Run(s, steps);
      FlightInv(t) && t.successes + s.removals + s.lost + Live(s) == s.successes + t.removals + t.lost + Live(t)
    decreases |steps|
  {
    if steps != [] {
      FlightStep(s, steps[0]);
      SuccessStep(s, steps[0]);
      SuccessesAreCounted(Next(s, steps[0]), steps[1..]);
    }
  }

  /** Between two removals of the entry at most one resolver call succeeds for every write that
      is not rejected: one in all when every write gets through. */
  lemma OneSuccessBetweenRemovals(cache: Option<Value>, before: seq<Step>, during: seq<Step>)
    requires cache != Some(NullValue)
    requires WellBehavedRun(Init(cache), before) && WellBehavedRun(Run(Init(cache), before), during)
    requires var s := Run(Init(cache), before); Run(s, during).removals == s.removals
    ensures var s := Run(Init(cache), before); var t := Run(s, during);
      t.successes - s.successes <= 1 + (t.lost - s.lost)
  {
    SuccessesAreCounted(Init(cache), before);
    SuccessesAreCounted(Run(Init(cache), before), during);
  }

  /** A rejected write is what breaks the bound of one: from every state in which a result is
      about to be stored, a rejection lets a second resolver call succeed with no removal. */
  lemma RejectedWriteAllowsAnother(s: State, c: Caller, d: Caller, v: Value, timeout: nat)
    requires FlightInv(s) && c in s.pcs && s.pcs[c].Storing? && d !in s.pcs
    ensures var freed := Next(Next(s, StoreFails(c)), Unlock(c));
      var t := Next(Next(Next(Next(freed, Start(d, timeout)), AcquireLock(d)), CheckAgain(d)), ResolverReturns(d, v));
      t.successes == s.successes + 1 && t.removals == s.removals && t.lost == s.lost + 1
  {
  }

  /** With a null result the claim fails: the stored null is never a hit, so from every state
      with the lock free each new caller resolves again. */
  lemma StoredNullIsResolvedAgain(s: State, c: Caller, v: Value, timeout: nat)
    requires s.cache == Some(NullValue) && s.lock.None? && c !in s.pcs
    ensures var t := Next(Next(Next(Next(s, Start(c, timeout)), AcquireLock(c)), CheckAgain(c)), ResolverReturns(c, v));
      t.successes == s.successes + 1 && t.removals == s.removals
  {
  }

  // ---------------------------------------------------------------- where returned values come from

  /** Every value at hand came from a resolver or was in the cache at the start. */
  predicate Known(s: State, cache0: Option<Value>, v: Value) {
    v in s.produced || cache0 == Some(v)
  }

  predicate KnownPc(s: State, cache0: Option<Value>, p: Pc) {
    && (p.Storing? || p.Publishing? ==> Known(s, cache0, p.result))
    && ((p.Unlocking? || p.Done?) && p.outcome.Returned? ==> Known(s, cache0, p.outcome.value))
  }

  predicate CacheKnown(s: State, cache0: Option<Value>) {
    s.cache.Some? ==> Known(s, cache0, s.cache.value)
  }

  predicate InboxKnown(s: State, cache0: Option<Value>) {
    forall c <- s.inbox :: Known(s, cache0, s.inbox[c])
  }

  predicate CallersKnown(s: State, cache0: Option<Value>) {
    forall c <- s.pcs :: KnownPc(s, cache0, s.pcs[c])
  }

  predicate Provenance(s: State, cache0: Option<Value>) {
    CacheKnown(s, cache0) && InboxKnown(s, cache0) && CallersKnown(s, cache0)
  }

  lemma CallerStep(s: State, cache0: Option<Value>, a: Step, c: Caller)
    requires CacheKnown(s, cache0) && (c in s.inbox ==> Known(s, cache0, s.inbox[c]))
    requires c in s.pcs ==> KnownPc(s, cache0, s.pcs[c])
    requires c in Next(s, a).pcs
    ensures KnownPc(Next(s, a), cache0, Next(s, a).pcs[c])
  {
  }

  lemma ProvenanceStep(s: State, cache0: Option<Value>, a: Step)
    requires Provenance(s, cache0)
    ensures Provenance(Next(s, a), cache0)
  {
    forall c <- Next(s, a).pcs ensures KnownPc(Next(s, a), cache0, Next(s, a).pcs[c]) {
      CallerStep(s, cache0, a, c);
    }
  }

  lemma {:induction false} ProvenanceRun(s: State, cache0: Option<Value>, steps: seq<Step>)
    requires Provenance(s, cache0)
    ensures Provenance(Run(s, steps), cache0)
    decreases |steps|
  {
    if steps != [] {
      ProvenanceStep(s, cache0, steps[0]);
      ProvenanceRun(Next(s, steps[0]), cache0, steps[1..]);
    }
  }

  /** In every run, lock expiry and lost messages included, a returned value was produced by
      a resolver call for this key or was in the cache at the start. */
  lemma ReturnedValuesAreResolved(cache: Option<Value>, steps: seq<Step>, c: Caller)
    ensures var s := Run(Init(cache), steps);
      c in s.pcs && s.pcs[c].Done? && s.pcs[c].outcome.Returned? ==> Known(s, cache, s.pcs[c].outcome.value)
  {
    ProvenanceRun(Init(cache), cache, steps);
  }

  // ---------------------------------------------------------------- waiters end

  predicate DueOrDone(s: State, c: Caller) {
    c in s.pcs && (s.pcs[c].Done? || (s.pcs[c].Waiting? && s.pcs[c].deadline <= s.now))
  }

  predicate FiredOrDone(s: State, c: Caller) {
    c in s.pcs && (s.pcs[c].Done? || (s.pcs[c].Waiting? && s.pcs[c].fired))
  }

  lemma {:induction false} RunAppend(s: State, a: seq<Step>, b: seq<Step>)
    ensures Run(s, a + b) == Run(Run(s, a), b)
    decreases |a|
  {
    if a == [] {
      assert a + b == b;
    } else {
      assert (a + b)[1..] == a[1..] + b;
      RunAppend(Next(s, a[0]), a[1..], b);
    }
  }

  lemma RunThen(s: State, before: seq<Step>, a: Step, after: seq<Step>)
    ensures Run(s, before + [a] + after) == Run(Next(Run(s, before), a), after)
  {
    assert before + [a] + after == before + ([a] + after);
    RunAppend(s, before, [a] + after);
    assert ([a] + after)[1..] == after;
  }

  lemma RunThenThen(s: State, before: seq<Step>, a: Step, between: seq<Step>, b: Step, after: seq<Step>)
    ensures Run(s, before + [a] + between + [b] + after) == Run(Next(Run(Next(Run(s, before), a), between), b), after)
  {
    RunThen(s, before, a, between);
    RunThen(s, before + [a] + between, b, after);
  }

  lemma DueStep(s: State, a: Step, c: Caller)
    ensures DueOrDone(s, c) ==> DueOrDone(Next(s, a), c)
    ensures FiredOrDone(s, c) ==> FiredOrDone(Next(s, a), c)
    ensures c in s.pcs && s.pcs[c].Done? ==> c in Next(s, a).pcs && Next(s, a).pcs[c] == s.pcs[c]
  {
  }

  lemma ServedInTurn(s: State, c: Caller)
    ensures DueOrDone(s, c) ==> FiredOrDone(Next(s, TimerFires(c)), c)
    ensures FiredOrDone(s, c) ==> c in Next(s, ReadAtTimeout(c)).pcs && Next(s, ReadAtTimeout(c)).pcs[c].Done?
  {
  }

  lemma {:induction false} DueRun(s: State, steps: seq<Step>, c: Caller)
    ensures DueOrDone(s, c) ==> DueOrDone(Run(s, steps), c)
    ensures FiredOrDone(s, c) ==> FiredOrDone(Run(s, steps), c)
    ensures c in s.pcs && s.pcs[c].Done? ==> c in Run(s, steps).pcs && Run(s, steps).pcs[c] == s.pcs[c]
    decreases |steps|
  {
    if steps != [] {
      DueStep(s, steps[0], c);
      DueRun(Next(s, steps[0]), steps[1..], c);
    }
  }

  /** A waiter whose timer is due ends once its timer and its read are served, whatever the
      other callers, the clock, the messages and the failures do before, between and after: not
      only when its message comes, but also when the publish was before its subscription or
      another waiter of its process unsubscribed the shared channel. */
  lemma DueWaiterEnds(s: State, c: Caller, before: seq<Step>, between: seq<Step>, after: seq<Step>)
    requires c in s.pcs && s.pcs[c].Waiting? && s.pcs[c].deadline <= s.now
    ensures var t := Run(s, before + [TimerFires(c)] + between + [ReadAtTimeout(c)] + after);
      c in t.pcs && t.pcs[c].Done?
  {
    var s1 := Run(s, before);
    var s2 := Next(s1, TimerFires(c));
    var s3 := Run(s2, between);
    DueRun(s, before, c);
    ServedInTurn(s1, c);
    DueRun(s2, between, c);
    ServedInTurn(s3, c);
    DueRun(Next(s3, ReadAtTimeout(c)), after, c);
    RunThenThen(s, before, TimerFires(c), between, ReadAtTimeout(c), after);
  }

  // ---------------------------------------------------------------- what each caller answers

  /** The step that decided the caller's answer, taken in state q. */
  predicate Decides(q: State, a: Step, c: Caller, o: Outcome) {
    match a
    case Start(d, _) =>                           // a hit of the first read
      d == c && c !in q.pcs && q.cache.Some? && q.cache.value != NullValue && o == Returned(q.cache.value)
    case CheckAgain(d) =>                         // a hit of the read under the lock
      d == c && c in q.pcs && q.pcs[c] == DoubleCheck
      && q.cache.Some? && q.cache.value != NullValue && o == Returned(q.cache.value)
    case Publish(d) =>                            // the own result, stored and published
      d == c && c in q.pcs && q.pcs[c].Publishing? && o == Returned(q.pcs[c].result)
    case Receive(d) =>                            // a message that reached the waiter
      d == c && c in q.pcs && q.pcs[c].Waiting? && c in q.inbox && o == Returned(q.inbox[c])
    case ReadAtTimeout(d) =>                      // the read after the timer
      d == c && c in q.pcs && q.pcs[c].Waiting? && q.pcs[c].fired
      && o == (if q.cache.Some? && q.cache.value != NullValue then Returned(q.cache.value) else Threw)
    case ResolverThrows(d) => d == c && c in q.pcs && q.pcs[c] == Resolving && o == Threw
    case StoreFails(d) => d == c && c in q.pcs && q.pcs[c].Storing? && o == Threw
    case CallFails(d) => d == c && c in q.pcs && o == Threw
    case _ => false
  }

  ghost predicate DecidedIn(s: State, steps: seq<Step>, c: Caller, o: Outcome) {
    exists k :: 0 <= k < |steps| && Decides(Run(s, steps[..k]), steps[k], c, o)
  }

  /** The caller's result came from its own resolver call. */
  ghost predicate ResolvedIn(s: State, steps: seq<Step>, c: Caller, v: Value) {
    exists k :: 0 <= k < |steps| && steps[k] == ResolverReturns(c, v)
      && c in Run(s, steps[..k]).pcs && Run(s, steps[..k]).pcs[c] == Resolving
  }

  lemma RunLast(s: State, steps: seq<Step>)
    requires steps != []
    ensures Run(s, steps) == Next(Run(s, steps[..|steps| - 1]), steps[|steps| - 1])
  {
    var init, last := steps[..|steps| - 1], steps[|steps| - 1];
    assert steps == init + [last];
    RunAppend(s, init, [last]);
    assert [last][1..] == [];
  }

  lemma DecidedGrows(s: State, steps: seq<Step>, c: Caller, o: Outcome)
    requires steps != []
    ensures DecidedIn(s, steps[..|steps| - 1], c, o) ==> DecidedIn(s, steps, c, o)
    ensures Decides(Run(s, steps[..|steps| - 1]), steps[|steps| - 1], c, o) ==> DecidedIn(s, steps, c, o)
  {
    var init := steps[..|steps| - 1];
    if DecidedIn(s, init, c, o) {
      var k :| 0 <= k < |init| && Decides(Run(s, init[..k]), init[k], c, o);
      assert init[..k] == steps[..k] && steps[k] == init[k];
    }
  }

  lemma ResolvedGrows(s: State, steps: seq<Step>, c: Caller, v: Value)
    requires steps != []
    ensures ResolvedIn(s, steps[..|steps| - 1], c, v) ==> ResolvedIn(s, steps, c, v)
    ensures var q := Run(s, steps[..|steps| - 1]);
      steps[|steps| - 1] == ResolverReturns(c, v) && c in q.pcs && q.pcs[c] == Resolving ==> ResolvedIn(s, steps, c, v)
  {
    var init := steps[..|steps| - 1];
    if ResolvedIn(s, init, c, v) {
      var k :| 0 <= k < |init| && init[k] == ResolverReturns(c, v)
        && c in Run(s, init[..k]).pcs && Run(s, init[..k]).pcs[c] == Resolving;
      assert init[..k] == steps[..k] && steps[k] == init[k];
    }
  }

  /** One step changes a caller's answer or result only by the step that decides it. */
  lemma DecisionStep(q: State, a: Step, c: Caller)
    requires c in Next(q, a).pcs
    ensures var p := Next(q, a).pcs[c];
      && (p.Done? || p.Unlocking? ==>
            Decides(q, a, c, p.outcome) || (c in q.pcs && (q.pcs[c].Done? || q.pcs[c].Unlocking?) && q.pcs[c].outcome == p.outcome))
      && (p.Storing? || p.Publishing? ==>
            (a == ResolverReturns(c, p.result) && c in q.pcs && q.pcs[c] == Resolving)
            || (c in q.pcs && (q.pcs[c].Storing? || q.pcs[c].Publishing?) && q.pcs[c].result == p.result))
  {
  }

  /** In every run every answer has its cause: a hit of the first read or of the one under the
      lock, the own result once it is stored and published, a message received while waiting,
      or the read after the timer, which returns the entry if there is one that is not null and
      throws otherwise; nothing else throws but a failing resolver or a rejected Redis call of
      the caller itself. */
  lemma {:induction false} AnswersHaveCauses(cache: Option<Value>, steps: seq<Step>, c: Caller)
    requires c in Run(Init(cache), steps).pcs
    ensures var p := Run(Init(cache), steps).pcs[c];
      && (p.Done? || p.Unlocking? ==> DecidedIn(Init(cache), steps, c, p.outcome))
      && (p.Storing? || p.Publishing? ==> ResolvedIn(Init(cache), steps, c, p.result))
    decreases |steps|
  {
    if steps != [] {
      var init, last := steps[..|steps| - 1], steps[|steps| - 1];
      var q := Run(Init(cache), init);
      RunLast(Init(cache), steps);
      DecisionStep(q, last, c);
      var p := Next(q, last).pcs[c];
      if c in q.pcs {
        AnswersHaveCauses(cache, init, c);
      }
      if p.Done? || p.Unlocking? {
        DecidedGrows(Init(cache), steps, c, p.outcome);
      }
      if p.Storing? || p.Publishing? {
        ResolvedGrows(Init(cache), steps, c, p.result);
      }
    }
  }

  /** Steps that cannot end the waiter: no message of its own received, no read of its own, no
      rejected call of its own. */
  predicate LeavesWaiting(steps: seq<Step>, c: Caller) {
    forall a <- steps :: a != Receive(c) && a != ReadAtTimeout(c) && a != CallFails(c)
  }

  lemma {:induction false} StillWaiting(s: State, steps: seq<Step>, c: Caller)
    requires c in s.pcs && s.pcs[c].Waiting? && LeavesWaiting(steps, c)
    ensures var t := Run(s, steps);
      c in t.pcs && t.pcs[c].Waiting? && t.pcs[c].deadline == s.pcs[c].deadline && (s.pcs[c].fired ==> t.pcs[c].fired)
      && t.now >= s.now
    decreases |steps|
  {
    if steps != [] {
      assert steps[0] in steps && forall a <- steps[1..] :: a in steps;
      StillWaiting(Next(s, steps[0]), steps[1..], c);
    }
  }

  /** What a due waiter answers when no message comes first: exactly what its read finds. With
      anything else going on before, between and after, it returns the cached value if an entry
      that is not null is there at its read, and throws if there is none or a null. */
  lemma DueWaiterAnswersFromCache(s: State, c: Caller, before: seq<Step>, between: seq<Step>, after: seq<Step>)
    requires c in s.pcs && s.pcs[c].Waiting? && s.pcs[c].deadline <= s.now
    requires LeavesWaiting(before, c) && LeavesWaiting(between, c)
    ensures var atRead := Run(s, before + [TimerFires(c)] + between);
      var t := Run(s, before + [TimerFires(c)] + between + [ReadAtTimeout(c)] + after);
      c in t.pcs && t.pcs[c] ==
        Done(if atRead.cache.Some? && atRead.cache.value != NullValue then Returned(atRead.cache.value) else Threw)
  {
    var s1 := Run(s, before);
    var s2 := Next(s1, TimerFires(c));
    var s3 := Run(s2, between);
    StillWaiting(s, before, c);
    StillWaiting(s2, between, c);
    ReadDecides(s3, c);
    DueRun(Next(s3, ReadAtTimeout(c)), after, c);
    RunThen(s, before, TimerFires(c), between);
    RunThenThen(s, before, TimerFires(c), between, ReadAtTimeout(c), after);
  }

  lemma ReadDecides(s: State, c: Caller)
    requires c in s.pcs && s.pcs[c].Waiting? && s.pcs[c].fired
    ensures Next(s, ReadAtTimeout(c)).pcs ==
      s.pcs[c := Done(if s.cache.Some? && s.cache.value != NullValue then Returned(s.cache.value) else Threw)]
  {
  }

  /** And when a message is received first, timer fired or not: that message. */
  lemma WaiterAnswersMessage(s: State, c: Caller, before: seq<Step>, after: seq<Step>)
    requires c in s.pcs && s.pcs[c].Waiting? && LeavesWaiting(before, c) && c in Run(s, before).inbox
    ensures var t := Run(s, before + [Receive(c)] + after);
      c in t.pcs && t.pcs[c] == Done(Returned(Run(s, before).inbox[c]))
  {
    var q := Run(s, before);
    StillWaiting(s, before, c);
    DueRun(Next(q, Receive(c)), after, c);
    RunThen(s, before, Receive(c), after);
  }

  /** A publish sends the stored result to every waiter that listens on a subscribed connection
      and has no message yet, to nobody else, and ends the publisher with the same result. */
  lemma PublishReachesListeners(s: State, c: Caller, w: Caller)
    requires c in s.pcs && s.pcs[c].Publishing?
    ensures var t := Next(s, Publish(c)); var v := s.pcs[c].result;
      var listens := w in s.pcs && s.pcs[w].Waiting? && s.pcs[w].listening && w.process in s.subscribed;
      && t.pcs == s.pcs[c := Unlocking(Returned(v))] && t.cache == s.cache
      && (w in t.inbox <==> w in s.inbox || listens)
      && (w in t.inbox ==> t.inbox[w] == if w in s.inbox then s.inbox[w] else v)
  {
  }

  /** The entry appears only as a result that its resolver's caller stores, and goes only when
      it is removed. */
  lemma OnlyStoresFillTheCache(s: State, a: Step)
    ensures var t := Next(s, a);
      t.cache == (if a.Store? && a.c in s.pcs && s.pcs[a.c].Storing? then Some(s.pcs[a.c].result)
                  else if a.EntryRemoved? then None else s.cache)
  {
  }

  /** Messages come from publishes only; any other step at most takes one away. */
  lemma OnlyPublishesSend(s: State, a: Step, w: Caller)
    requires !a.Publish?
    ensures w in Next(s, a).inbox ==> w in s.inbox && Next(s, a).inbox[w] == s.inbox[w]
  {
  }

  /** The whole of an undisturbed call that misses: it resolves, the result is cached, and the
      result is its answer. */
  lemma UndisturbedMiss(s: State, c: Caller, v: Value, timeout: nat)
    requires c !in s.pcs && s.lock.None? && (s.cache.None? || s.cache.value == NullValue)
    ensures var s1 := Next(Next(Next(s, Start(c, timeout)), AcquireLock(c)), CheckAgain(c));
      var t := Next(Next(Next(Next(s1, ResolverReturns(c, v)), Store(c)), Publish(c)), Unlock(c));
      c in t.pcs && t.pcs[c] == Done(Returned(v)) && t.cache == Some(v) && t.lock.None?
  {
    var s1 := Next(Next(Next(s, Start(c, timeout)), AcquireLock(c)), CheckAgain(c));
    assert s1.pcs[c] == Resolving && s1.lock == Some(c);
    var s2 := Next(Next(s1, ResolverReturns(c, v)), Store(c));
    assert s2.pcs[c] == Publishing(v) && s2.cache == Some(v);
  }

  /** A hit of the first read answers at once, and a hit under the lock with the release of it;
      neither calls the resolver or touches anything else. */
  lemma HitOutcome(s: State, c: Caller, timeout: nat, v: Value)
    requires s.cache == Some(v) && v != NullValue
    ensures c !in s.pcs ==> Next(s, Start(c, timeout)) == s.(pcs := s.pcs[c := Done(Returned(v))])
    ensures c in s.pcs && s.pcs[c] == DoubleCheck ==>
      Next(Next(s, CheckAgain(c)), Unlock(c)) == s.(pcs := s.pcs[c := Done(Returned(v))], lock := None)
  {
    assert s.pcs[c := Unlocking(Returned(v))][c := Done(Returned(v))] == s.pcs[c := Done(Returned(v))];
  }

  /** Whatever fails under the lock, the read, the resolver, the write or the publish, the call
      throws and the lock is released on the way out. */
  lemma FailureReleasesTheLock(s: State, c: Caller, a: Step)
    requires c in s.pcs && match s.pcs[c]
      case DoubleCheck => a == CallFails(c)
      case Resolving => a == ResolverThrows(c)
      case Storing(_) => a == StoreFails(c)
      case Publishing(_) => a == CallFails(c)
      case _ => false
    ensures var t := Next(Next(s, a), Unlock(c)); t.pcs == s.pcs[c := Done(Threw)] && t.lock.None? && t.cache == s.cache
  {
    assert s.pcs[c := Unlocking(Threw)][c := Done(Threw)] == s.pcs[c := Done(Threw)];
  }

  /** A waiter that subscribes listens from then on, on a connection that is subscribed, so that
      the next publish reaches it. */
  lemma SubscriberIsReached(s: State, w: Caller, c: Caller)
    requires w in s.pcs && s.pcs[w].Waiting? && !s.pcs[w].listening && w !in s.inbox
    requires c in s.pcs && s.pcs[c].Publishing?
    ensures var t := Next(Next(s, Subscribe(w)), Publish(c)); w in t.inbox && t.inbox[w] == s.pcs[c].result
  {
  }

  /** A waiter's timer has fired only if its deadline has come. */
  predicate FiredWhenDue(s: State) {
    forall c <- s.pcs :: s.pcs[c].Waiting? && s.pcs[c].fired ==> s.pcs[c].deadline <= s.now
  }

  lemma FiredWhenDueStep(s: State, a: Step)
    requires FiredWhenDue(s)
    ensures FiredWhenDue(Next(s, a))
  {
  }

  /** On every run no timer fires before its deadline. */
  lemma {:induction false} NoTimerIsEarly(s: State, steps: seq<Step>)
    requires FiredWhenDue(s)
    ensures FiredWhenDue(Run(s, steps))
    decreases |steps|
  {
    if steps != [] {
      FiredWhenDueStep(s, steps[0]);
      NoTimerIsEarly(Next(s, steps[0]), steps[1..]);
    }
  }

  /** A call that misses while another holds the lock waits, until its own timeout from then. */
  lemma LoserWaits(s: State, c: Caller, timeout: nat)
    requires c !in s.pcs && s.lock.Some? && (s.cache.None? || s.cache.value == NullValue)
    ensures Next(Next(s, Start(c, timeout)), AcquireLock(c)).pcs == s.pcs[c := Waiting(s.now + timeout, false, false)]
  {
    assert Next(Next(s, Start(c, timeout)), AcquireLock(c)).pcs == s.pcs[c := TryLock(timeout)][c := Waiting(s.now + timeout, false, false)];
  }

  // ---------------------------------------------------------------- a clock that serves due timers first

  predicate OnTime(s: State) {
    forall c <- s.pcs :: s.pcs[c].Waiting? ==> s.now <= s.pcs[c].deadline
  }

  /** A timer that is due is served, with its read, before the clock moves on. */
  predicate Urgent(s: State, a: Step) {
    a.Tick? ==> Due(s) == {}
  }

  predicate UrgentRun(s: State, steps: seq<Step>)
    decreases |steps|
  {
    steps != [] ==> Urgent(s, steps[0]) && UrgentRun(Next(s, steps[0]), steps[1..])
  }

  function Due(s: State): set<Caller> {
    set c | c in s.pcs && s.pcs[c].Waiting? && s.pcs[c].deadline <= s.now
  }

  lemma OnTimeStep(s: State, a: Step)
    requires OnTime(s) && Urgent(s, a)
    ensures OnTime(Next(s, a))
  {
    if a.Tick? {
      forall c <- s.pcs | s.pcs[c].Waiting? ensures s.now < s.pcs[c].deadline {
        assert c !in Due(s);
      }
    }
  }

  /** Under such a clock no caller is ever still waiting after its own timer. */
  lemma {:induction false} NoWaiterIsLate(s: State, steps: seq<Step>)
    requires OnTime(s) && UrgentRun(s, steps)
    ensures OnTime(Run(s, steps))
    decreases |steps|
  {
    if steps != [] {
      OnTimeStep(s, steps[0]);
      NoWaiterIsLate(Next(s, steps[0]), steps[1..]);
    }
  }

  /** And such a clock never stops: from every state two steps for each due waiter free it. */
  lemma TimeCanAdvance(s: State, due: set<Caller>) returns (steps: seq<Step>)
    requires due == Due(s)
    ensures Due(Run(s, steps)) == {} && Run(s, steps).now == s.now
    ensures |steps| == 2 * |due|
    decreases |due|
  {
    if due == {} {
      steps := [];
    } else {
      var c :| c in due;
      var t := Next(Next(s, TimerFires(c)), ReadAtTimeout(c));
      assert Due(t) == due - {c};
      var more := TimeCanAdvance(t, due - {c});
      steps := [TimerFires(c), ReadAtTimeout(c)] + more;
      RunAppend(s, [TimerFires(c), ReadAtTimeout(c)], more);
      RunTwo(s, TimerFires(c), ReadAtTimeout(c));
    }
  }
}
