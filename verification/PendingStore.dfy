/** `PendingDestinationStore`: two maps and one timer a token, against a timed map. */
module PendingStore {
  import opened Wrappers

  type Token = nat
  type TimerId = nat
  type Draft = string

  const TTL_MS: nat := 15 * 60 * 1000

  datatype Pending = Pending(userId: nat, discordGuildId: nat, channelId: nat, broadcasterId: nat, eventType: nat, draft: Draft)
  datatype Timer = Timer(token: Token, due: nat)

  // ---------------------------------------------------------------- the timed map

  datatype Held = Held(data: Pending, deadline: nat)
  type TimedMap = map<Token, Held>

  function Put(m: TimedMap, token: Token, data: Pending, now: nat): TimedMap {
    m[token := Held(data, now + TTL_MS)]
  }

  function Revise(m: TimedMap, token: Token, draft: Draft, now: nat): TimedMap {
    if token in m then m[token := Held(m[token].data.(draft := draft), now + TTL_MS)] else m
  }

  function Expire(m: TimedMap, now: nat): TimedMap {
    map t | t in m && m[t].deadline > now :: m[t]
  }

  // ---------------------------------------------------------------- tokens and their timers

  /** Each token has exactly one armed timer, and each armed timer belongs to a token. */
  predicate Paired(timeouts: map<Token, TimerId>, armed: map<TimerId, Timer>) {
    && (forall t <- timeouts :: timeouts[t] in armed && armed[timeouts[t]].token == t)
    && (forall i <- armed :: armed[i].token in timeouts && timeouts[armed[i].token] == i)
  }

  function Disarm(timeouts: map<Token, TimerId>, armed: map<TimerId, Timer>, token: Token): map<TimerId, Timer> {
    if token in timeouts then armed - {timeouts[token]} else armed
  }

  lemma DisarmKeepsPairs(timeouts: map<Token, TimerId>, armed: map<TimerId, Timer>, token: Token)
    requires Paired(timeouts, armed)
    ensures Paired(timeouts - {token}, Disarm(timeouts, armed, token))
  {
  }

  lemma RearmKeepsPairs(timeouts: map<Token, TimerId>, armed: map<TimerId, Timer>, token: Token, id: TimerId, due: nat)
    requires Paired(timeouts, armed) && id !in armed
    ensures Paired(timeouts[token := id], Disarm(timeouts, armed, token)[id := Timer(token, due)])
  {
  }

  function ViewOf(entries: map<Token, Pending>, timeouts: map<Token, TimerId>, armed: map<TimerId, Timer>): TimedMap
    requires entries.Keys == timeouts.Keys && Paired(timeouts, armed)
  {
    map t | t in entries :: Held(entries[t], armed[timeouts[t]].due)
  }

  lemma ExpireForgets(m: TimedMap, token: Token, now: nat)
    requires token in m && m[token].deadline <= now
    ensures Expire(m - {token}, now) == Expire(m, now)
  {
  }

  lemma NothingExpires(entries: map<Token, Pending>, timeouts: map<Token, TimerId>, armed: map<TimerId, Timer>, to: nat)
    requires entries.Keys == timeouts.Keys && Paired(timeouts, armed)
    requires forall i <- armed :: to < armed[i].due
    ensures Expire(ViewOf(entries, timeouts, armed), to) == ViewOf(entries, timeouts, armed)
  {
  }

  // ---------------------------------------------------------------- the store

  class PendingDestinationStore {
    var entries: map<Token, Pending>
    var timeouts: map<Token, TimerId>
    // The event loop: armed timers and the clock.
    var armed: map<TimerId, Timer>
    var nextTimer: TimerId
    var now: nat

    /** The maps have the same keys, each token has exactly one armed timer, and no timer is
        overdue. */
    ghost predicate Valid()
      reads this
    {
      && entries.Keys == timeouts.Keys
      && Paired(timeouts, armed)
      && (forall i <- armed :: i < nextTimer && now < armed[i].due <= now + TTL_MS)
    }

    ghost function View(): TimedMap
      requires Valid()
      reads this
    {
      ViewOf(entries, timeouts, armed)
    }

    constructor ()
      ensures Valid() && View() == map[] && now == 0
    {
      entries, timeouts, armed, nextTimer, now := map[], map[], map[], 0, 0;
    }

    method ScheduleExpiry(token: Token)
      requires Paired(timeouts, armed)
      requires forall i <- armed :: i < nextTimer
      modifies this`timeouts, this`armed, this`nextTimer
      ensures Paired(timeouts, armed) && nextTimer == old(nextTimer) + 1
      ensures timeouts == old(timeouts)[token := old(nextTimer)]
      ensures armed == Disarm(old(timeouts), old(armed), token)[old(nextTimer) := Timer(token, now + TTL_MS)]
    {
      RearmKeepsPairs(timeouts, armed, token, nextTimer, now + TTL_MS);
      if token in timeouts {
        armed := armed - {timeouts[token]};
      }
      armed := armed[nextTimer := Timer(token, now + TTL_MS)];
      timeouts := timeouts[token := nextTimer];
      nextTimer := nextTimer + 1;
    }

    /** `token` is the new random id. */
    method Create(token: Token, data: Pending)
      requires Valid() && token !in entries
      modifies this
      ensures Valid() && now == old(now)
      ensures View() == Put(old(View()), token, data, now)
    {
      entries := entries[token := data];
      ScheduleExpiry(token);
    }

    method Get(token: Token) returns (r: Option<Pending>)
      requires Valid()
      ensures r == if token in View() then Some(View()[token].data) else None
    {
      r := if token in entries then Some(entries[token]) else None;
    }

    method Update(token: Token, draft: Draft)
      requires Valid()
      modifies this
      ensures Valid() && now == old(now)
      ensures View() == Revise(old(View()), token, draft, now)
    {
      if token !in entries { return; }
      entries := entries[token := entries[token].(draft := draft)];
      ScheduleExpiry(token);
    }

    method Delete(token: Token)
      requires entries.Keys == timeouts.Keys && Paired(timeouts, armed)
      modifies this`entries, this`timeouts, this`armed
      ensures entries == old(entries) - {token} && timeouts == old(timeouts) - {token}
      ensures armed == Disarm(old(timeouts), old(armed), token)
      ensures Paired(timeouts, armed)
      ensures ViewOf(entries, timeouts, armed) == ViewOf(old(entries), old(timeouts), old(armed)) - {token}
      ensures old(Valid()) ==> Valid()
    {
      DisarmKeepsPairs(timeouts, armed, token);
      entries := entries - {token};
      if token in timeouts {
        armed := armed - {timeouts[token]};
        timeouts := timeouts - {token};
      }
    }

    /** The callback of a timer that has come due. */
    method FireTimer(i: TimerId, to: nat)
      requires entries.Keys == timeouts.Keys && Paired(timeouts, armed)
      requires i in armed && armed[i].due <= to
      modifies this`entries, this`timeouts, this`armed
      ensures entries.Keys == timeouts.Keys && Paired(timeouts, armed)
      ensures armed == old(armed) - {i}
      ensures Expire(ViewOf(entries, timeouts, armed), to) == Expire(ViewOf(old(entries), old(timeouts), old(armed)), to)
    {
      var token := armed[i].token;
      ExpireForgets(ViewOf(entries, timeouts, armed), token, to);
      Delete(token);
    }

    /** The event loop runs until `to`; the callback of every timer that comes due deletes its
        token. */
    method AdvanceTo(to: nat)
      requires Valid() && now <= to
      modifies this
      ensures Valid() && now == to
      ensures View() == Expire(old(View()), to)
    {
      var due := set i | i in armed && armed[i].due <= to;
      while due != {}
        invariant due == set i | i in armed && armed[i].due <= to
        invariant entries.Keys == timeouts.Keys && Paired(timeouts, armed)
        invariant forall i <- armed :: i < nextTimer && armed[i].due <= old(now) + TTL_MS
        invariant Expire(ViewOf(entries, timeouts, armed), to) == Expire(old(View()), to)
        invariant now == old(now) && nextTimer == old(nextTimer)
        decreases due
      {
        var i :| i in due;
        FireTimer(i, to);
        due := due - {i};
      }
      forall i <- armed ensures to < armed[i].due { assert i !in due; }
      NothingExpires(entries, timeouts, armed, to);
      now := to;
    }
  }

  // ---------------------------------------------------------------- whole runs

  datatype Op =
    | OpCreate(token: Token, data: Pending)
    | OpUpdate(token: Token, draft: Draft)
    | OpDelete(token: Token)
    | OpWait(ms: nat)

  datatype Timed = Timed(m: TimedMap, now: nat)

  /** What each method of the store does to its view. */
  function Next(s: Timed, op: Op): Timed {
    match op
    case OpCreate(t, d) => s.(m := Put(s.m, t, d, s.now))
    case OpUpdate(t, d) => s.(m := Revise(s.m, t, d, s.now))
    case OpDelete(t) => s.(m := s.m - {t})
    case OpWait(ms) => Timed(Expire(s.m, s.now + ms), s.now + ms)
  }

  function Run(s: Timed, ops: seq<Op>): Timed
    decreases |ops|
  {
    if ops == [] then s else Next(Run(s, ops[..|ops| - 1]), ops[|ops| - 1])
  }

  predicate Touches(op: Op, token: Token) {
    (op.OpCreate? || op.OpUpdate?) && op.token == token
  }

  /** Time since the last operation on the token, or since the start. */
  function Quiet(ops: seq<Op>, token: Token): nat
    decreases |ops|
  {
    if ops == [] then 0
    else
      var last := ops[|ops| - 1];
      if Touches(last, token) then 0
      else Quiet(ops[..|ops| - 1], token) + if last.OpWait? then last.ms else 0
  }

  function LatestDraft(ops: seq<Op>, token: Token, draft: Draft): Draft
    decreases |ops|
  {
    if ops == [] then draft
    else
      var last := ops[|ops| - 1];
      if last.OpUpdate? && last.token == token then last.draft
      else LatestDraft(ops[..|ops| - 1], token, draft)
  }

  /** The token is a fresh random id, so it is created once. */
  predicate NotRecreated(ops: seq<Op>, token: Token) {
    forall op <- ops :: !(op.OpCreate? && op.token == token)
  }

  /** Never deleted, and never left alone for the whole time to live. */
  predicate KeptAlive(ops: seq<Op>, token: Token) {
    && OpDelete(token) !in ops
    && forall k :: 0 <= k <= |ops| ==> Quiet(ops[..k], token) < 15 * 60 * 1000
  }

  lemma KeptAliveStep(ops: seq<Op>, token: Token)
    requires ops != []
    ensures var init := ops[..|ops| - 1];
      KeptAlive(ops, token) <==>
        KeptAlive(init, token) && ops[|ops| - 1] != OpDelete(token) && Quiet(ops, token) < TTL_MS
  {
    var n := |ops| - 1;
    var init := ops[..n];
    assert ops == init + [ops[n]] && ops[..|ops|] == ops;
    assert OpDelete(token) in ops <==> OpDelete(token) in init || OpDelete(token) == ops[n];
    forall k | 0 <= k <= n ensures init[..k] == ops[..k] {}
    if forall k :: 0 <= k <= |ops| ==> Quiet(ops[..k], token) < TTL_MS {
      assert Quiet(ops[..|ops|], token) < TTL_MS;
      forall k | 0 <= k <= |init| ensures Quiet(init[..k], token) < TTL_MS {
        assert Quiet(ops[..k], token) < TTL_MS;
      }
    }
    if (forall k :: 0 <= k <= |init| ==> Quiet(init[..k], token) < TTL_MS) && Quiet(ops, token) < TTL_MS {
      forall k | 0 <= k <= |ops| ensures Quiet(ops[..k], token) < TTL_MS {
        if k <= n { assert Quiet(init[..k], token) < TTL_MS; }
      }
    }
  }

  /** After any run since its creation, an entry is there exactly when it was not deleted and
      was at no moment left untouched for 15 minutes; it then holds the latest draft and
      expires 15 minutes after its last touch. */
  lemma {:induction false} EntryIffKeptAlive(m: TimedMap, now: nat, token: Token, data: Pending, ops: seq<Op>)
    requires NotRecreated(ops, token)
    ensures var s := Run(Next(Timed(m, now), OpCreate(token, data)), ops);
      && (token in s.m <==> KeptAlive(ops, token))
      && Quiet(ops, token) <= s.now
      && (token in s.m ==> (s.m[token] ==
            Held(data.(draft := LatestDraft(ops, token, data.draft)), s.now - Quiet(ops, token) + 15 * 60 * 1000)))
    decreases |ops|
  {
    if ops == [] {
      assert forall k :: 0 <= k <= |ops| ==> Quiet(ops[..k], token) == 0;
    } else {
      var init, last := ops[..|ops| - 1], ops[|ops| - 1];
      assert last in ops;
      EntryIffKeptAlive(m, now, token, data, init);
      KeptAliveStep(ops, token);
    }
  }
}
