/** The worker's handling of a stream-online event: who is called, what is logged, and which
    webhooks are suspended. */
module Dispatch {
  type Id = nat

  datatype Hook = Hook(url: string, suspended: bool, disabled: bool, gameFilters: seq<string>)
  datatype Dest = Dest(suspended: bool, disabled: bool, gameFilters: seq<string>)

  datatype LogKind = DiscordLog | WebhookLog
  datatype Log = Log(kind: LogKind, id: Id, failed: bool)

  datatype State = State(
    dests: map<Id, Dest>,
    hooks: map<Id, Hook>,
    logs: seq<Log>,
    calls: seq<Id>)                               // webhook calls made

  /** One message: the game, what the queue and the webhooks answer, and whose payload
      interpolates (see Interpolation). */
  datatype Event = Event(gameId: string, emits: Id -> bool, answersOk: Id -> bool, destPayload: Id -> bool, hookPayload: Id -> bool)

  datatype Outcome = Acked | Requeued

  predicate MatchesGameFilter(filters: seq<string>, gameId: string) {
    filters == [] || (gameId != "" && gameId in filters)
  }

  predicate Receives(d: Dest, e: Event) {
    !d.suspended && !d.disabled && MatchesGameFilter(d.gameFilters, e.gameId)
  }

  predicate IsCalled(h: Hook, e: Event) {
    !h.suspended && !h.disabled && h.url != "" && MatchesGameFilter(h.gameFilters, e.gameId)
  }

  /** The ids the query and the filter leave, in the order the query returned them. */
  function SelectDests(s: State, e: Event, order: seq<Id>): seq<Id> {
    if order == [] then []
    else (if order[0] in s.dests && Receives(s.dests[order[0]], e) then [order[0]] else []) + SelectDests(s, e, order[1..])
  }

  function SelectHooks(s: State, e: Event, order: seq<Id>): seq<Id> {
    if order == [] then []
    else (if order[0] in s.hooks && IsCalled(s.hooks[order[0]], e) then [order[0]] else []) + SelectHooks(s, e, order[1..])
  }

  /** The ids before the first one whose payload does not interpolate. */
  function UntilBad(ids: seq<Id>, good: Id -> bool): seq<Id> {
    if ids == [] || !good(ids[0]) then [] else [ids[0]] + UntilBad(ids[1..], good)
  }

  predicate AllGood(ids: seq<Id>, good: Id -> bool) {
    forall i <- ids :: good(i)
  }

  function DestLogs(ids: seq<Id>, e: Event): seq<Log> {
    seq(|ids|, i requires 0 <= i < |ids| => Log(DiscordLog, ids[i], !e.emits(ids[i])))
  }

  function HookLogs(ids: seq<Id>, e: Event): seq<Log> {
    seq(|ids|, i requires 0 <= i < |ids| => Log(WebhookLog, ids[i], !e.answersOk(ids[i])))
  }

  function Suspend(hooks: map<Id, Hook>, ids: seq<Id>, e: Event): map<Id, Hook> {
    map h | h in hooks :: if h in ids && !e.answersOk(h) then hooks[h].(suspended := true) else hooks[h]
  }

  /** Emits and logs one destination at a time, up to the first payload that throws. */
  function DispatchDiscord(s: State, e: Event, order: seq<Id>): (State, Outcome) {
    var ids := SelectDests(s, e, order);
    (s.(logs := s.logs + DestLogs(UntilBad(ids, e.destPayload), e)),
     if AllGood(ids, e.destPayload) then Acked else Requeued)
  }

  /** Calls every webhook first and logs afterwards, so a payload that throws leaves the calls
      before it unlogged. */
  function DispatchWebhooks(s: State, e: Event, order: seq<Id>): (State, Outcome) {
    var ids := SelectHooks(s, e, order);
    if AllGood(ids, e.hookPayload) then
      (s.(calls := s.calls + ids, logs := s.logs + HookLogs(ids, e), hooks := Suspend(s.hooks, ids, e)), Acked)
    else
      (s.(calls := s.calls + UntilBad(ids, e.hookPayload)), Requeued)
  }

  function Handle(s: State, e: Event, destOrder: seq<Id>, hookOrder: seq<Id>): (State, Outcome) {
    var (s1, r1) := DispatchDiscord(s, e, destOrder);
    if r1.Requeued? then (s1, Requeued) else DispatchWebhooks(s1, e, hookOrder)
  }

  // ---------------------------------------------------------------- the handler

  class StreamOnlineHandler {
    var state: State

    constructor (state: State)
      ensures this.state == state
    {
      this.state := state;
    }

    method DispatchDiscordLoop(e: Event, order: seq<Id>) returns (r: Outcome)
      modifies this
      ensures (state, r) == DispatchDiscord(old(state), e, order)
    {
      var ids := SelectDests(state, e, order);
      var i := 0;
      while i < |ids|
        invariant 0 <= i <= |ids|
        invariant AllGood(ids[..i], e.destPayload)
        invariant state == old(state).(logs := old(state).logs + DestLogs(ids[..i], e))
      {
        var id := ids[i];
        UntilBadSplits(ids, i, e.destPayload);
        if !e.destPayload(id) {
          assert id in ids;
          return Requeued;
        }
        var failed := !e.emits(id);
        DestLogsGrow(old(state).logs, ids, i, e);
        state := state.(logs := state.logs + [Log(DiscordLog, id, failed)]);
        assert AllGood(ids[..i + 1], e.destPayload);
        i := i + 1;
      }
      assert ids[..i] == ids;
      UntilBadOfGood(ids, e.destPayload);
      return Acked;
    }

    method CallWebhooks(e: Event, ids: seq<Id>) returns (r: Outcome)
      modifies this
      ensures r == if AllGood(ids, e.hookPayload) then Acked else Requeued
      ensures state == old(state).(calls := old(state).calls + UntilBad(ids, e.hookPayload))
    {
      var i := 0;
      while i < |ids|
        invariant 0 <= i <= |ids|
        invariant AllGood(ids[..i], e.hookPayload)
        invariant state == old(state).(calls := old(state).calls + ids[..i])
      {
        var id := ids[i];
        UntilBadSplits(ids, i, e.hookPayload);
        if !e.hookPayload(id) {
          assert id in ids;
          return Requeued;
        }
        state := state.(calls := state.calls + [id]);
        assert ids[..i + 1] == ids[..i] + [id];
        i := i + 1;
      }
      assert ids[..i] == ids;
      UntilBadOfGood(ids, e.hookPayload);
      return Acked;
    }

    /** Builds the logs and the list of failed webhooks from the settled calls. */
    method CollectResults(e: Event, active: seq<Id>) returns (logs: seq<Log>, suspendedIds: seq<Id>)
      ensures logs == HookLogs(active, e)
      ensures forall h :: h in suspendedIds <==> h in active && !e.answersOk(h)
    {
      logs, suspendedIds := [], [];
      for i := 0 to |active|
        invariant logs == HookLogs(active[..i], e)
        invariant forall h :: h in suspendedIds <==> h in active[..i] && !e.answersOk(h)
      {
        var n := active[i];
        assert active[..i + 1] == active[..i] + [n];
        var failed := !e.answersOk(n);
        if failed {
          suspendedIds := suspendedIds + [n];
        }
        logs := logs + [Log(WebhookLog, n, failed)];
      }
      assert active[..|active|] == active;
    }

    method DispatchWebhooksLoop(e: Event, order: seq<Id>) returns (r: Outcome)
      modifies this
      ensures (state, r) == DispatchWebhooks(old(state), e, order)
    {
      var active := SelectHooks(state, e, order);
      r := CallWebhooks(e, active);
      if r.Requeued? { return; }
      UntilBadOfGood(active, e.hookPayload);
      var logs, suspendedIds := CollectResults(e, active);
      var updated := map h | h in state.hooks ::
        if h in suspendedIds then state.hooks[h].(suspended := true) else state.hooks[h];
      assert updated == Suspend(state.hooks, active, e);
      state := state.(logs := state.logs + logs, hooks := updated);
    }

    method HandleEvent(e: Event, destOrder: seq<Id>, hookOrder: seq<Id>) returns (r: Outcome)
      modifies this
      ensures (state, r) == Handle(old(state), e, destOrder, hookOrder)
    {
      r := DispatchDiscordLoop(e, destOrder);
      if r.Acked? {
        r := DispatchWebhooksLoop(e, hookOrder);
      }
    }
  }

  lemma DestLogsGrow(logs: seq<Log>, ids: seq<Id>, i: nat, e: Event)
    requires i < |ids|
    ensures ids[..i + 1] == ids[..i] + [ids[i]]
    ensures logs + DestLogs(ids[..i + 1], e) == logs + DestLogs(ids[..i], e) + [Log(DiscordLog, ids[i], !e.emits(ids[i]))]
  {
    assert DestLogs(ids[..i + 1], e) == DestLogs(ids[..i], e) + [Log(DiscordLog, ids[i], !e.emits(ids[i]))];
  }

  lemma {:induction false} UntilBadSplits(ids: seq<Id>, i: nat, good: Id -> bool)
    requires i < |ids| && AllGood(ids[..i], good)
    ensures !good(ids[i]) ==> UntilBad(ids, good) == ids[..i]
    decreases |ids|
  {
    if i > 0 {
      assert ids[..i][0] == ids[0];
      assert ids[1..][..i - 1] == ids[..i][1..];
      assert forall x :: x in ids[1..][..i - 1] ==> x in ids[..i];
      UntilBadSplits(ids[1..], i - 1, good);
      assert ids[..i] == [ids[0]] + ids[1..][..i - 1];
    }
  }

  lemma {:induction false} UntilBadOfGood(ids: seq<Id>, good: Id -> bool)
    requires AllGood(ids, good)
    ensures UntilBad(ids, good) == ids
    decreases |ids|
  {
    if ids != [] {
      assert ids[0] in ids;
      UntilBadOfGood(ids[1..], good);
      assert ids == [ids[0]] + ids[1..];
    }
  }

  // ---------------------------------------------------------------- what one dispatch writes

  function LogCount(logs: seq<Log>, kind: LogKind, id: Id): nat {
    if logs == [] then 0 else (if logs[0].kind == kind && logs[0].id == id then 1 else 0) + LogCount(logs[1..], kind, id)
  }

  function CallCount(calls: seq<Id>, id: Id): nat {
    if calls == [] then 0 else (if calls[0] == id then 1 else 0) + CallCount(calls[1..], id)
  }

  predicate Distinct(ids: seq<Id>) {
    forall i, j :: 0 <= i < j < |ids| ==> ids[i] != ids[j]
  }

  lemma {:induction false} LogCountAppend(a: seq<Log>, b: seq<Log>, kind: LogKind, id: Id)
    ensures LogCount(a + b, kind, id) == LogCount(a, kind, id) + LogCount(b, kind, id)
    decreases |a|
  {
    if a == [] {
      assert a + b == b;
    } else {
      assert (a + b)[1..] == a[1..] + b;
      LogCountAppend(a[1..], b, kind, id);
    }
  }

  lemma {:induction false} CallCountAppend(a: seq<Id>, b: seq<Id>, id: Id)
    ensures CallCount(a + b, id) == CallCount(a, id) + CallCount(b, id)
    decreases |a|
  {
    if a == [] {
      assert a + b == b;
    } else {
      assert (a + b)[1..] == a[1..] + b;
      CallCountAppend(a[1..], b, id);
    }
  }

  lemma {:induction false} CountOfCalls(ids: seq<Id>, e: Event, id: Id)
    ensures LogCount(HookLogs(ids, e), WebhookLog, id) == CallCount(ids, id)
    ensures LogCount(HookLogs(ids, e), DiscordLog, id) == 0
    ensures LogCount(DestLogs(ids, e), DiscordLog, id) == CallCount(ids, id)
    ensures LogCount(DestLogs(ids, e), WebhookLog, id) == 0
    decreases |ids|
  {
    if ids != [] {
      assert HookLogs(ids, e)[1..] == HookLogs(ids[1..], e);
      assert DestLogs(ids, e)[1..] == DestLogs(ids[1..], e);
      CountOfCalls(ids[1..], e, id);
    }
  }

  lemma {:induction false} SelectHooksMembers(s: State, e: Event, order: seq<Id>, id: Id)
    requires Distinct(order)
    ensures var ids := SelectHooks(s, e, order);
      && (id in ids <==> id in order && id in s.hooks && IsCalled(s.hooks[id], e))
      && CallCount(ids, id) == if id in ids then 1 else 0
    decreases |order|
  {
    if order != [] {
      var head := if order[0] in s.hooks && IsCalled(s.hooks[order[0]], e) then [order[0]] else [];
      SelectHooksMembers(s, e, order[1..], id);
      CallCountAppend(head, SelectHooks(s, e, order[1..]), id);
      assert order == [order[0]] + order[1..];
      assert CallCount(head, id) == if id in head then 1 else 0;
    }
  }

  lemma {:induction false} SelectDestsMembers(s: State, e: Event, order: seq<Id>, id: Id)
    requires Distinct(order)
    ensures var ids := SelectDests(s, e, order);
      && (id in ids <==> id in order && id in s.dests && Receives(s.dests[id], e))
      && CallCount(ids, id) == if id in ids then 1 else 0
    decreases |order|
  {
    if order != [] {
      var head := if order[0] in s.dests && Receives(s.dests[order[0]], e) then [order[0]] else [];
      SelectDestsMembers(s, e, order[1..], id);
      CallCountAppend(head, SelectDests(s, e, order[1..]), id);
      assert order == [order[0]] + order[1..];
      assert CallCount(head, id) == if id in head then 1 else 0;
    }
  }

  /** The webhooks that get a log: all that were called, or none. */
  function LoggedHooks(s: State, e: Event, destOrder: seq<Id>, hookOrder: seq<Id>): seq<Id> {
    if AllGood(SelectDests(s, e, destOrder), e.destPayload) && AllGood(SelectHooks(s, e, hookOrder), e.hookPayload)
    then SelectHooks(s, e, hookOrder) else []
  }

  /** What a dispatch logs and suspends, whichever payload throws. */
  lemma WhatIsLogged(s: State, e: Event, destOrder: seq<Id>, hookOrder: seq<Id>)
    ensures var t := Handle(s, e, destOrder, hookOrder).0;
      var dests := UntilBad(SelectDests(s, e, destOrder), e.destPayload);
      var hooks := LoggedHooks(s, e, destOrder, hookOrder);
      t.logs == s.logs + DestLogs(dests, e) + HookLogs(hooks, e) && t.hooks == Suspend(s.hooks, hooks, e)
  {
    SelectHooksIgnoreLogs(s, DispatchDiscord(s, e, destOrder).0, e, hookOrder);
    assert HookLogs([], e) == [];
    assert Suspend(s.hooks, [], e) == s.hooks;
  }

  lemma {:induction false} UntilBadCount(ids: seq<Id>, good: Id -> bool, id: Id)
    ensures !good(id) ==> CallCount(UntilBad(ids, good), id) == 0
    ensures AllGood(ids, good) ==> UntilBad(ids, good) == ids
    decreases |ids|
  {
    if ids != [] && good(ids[0]) {
      UntilBadCount(ids[1..], good, id);
      assert UntilBad(ids, good)[1..] == UntilBad(ids[1..], good);
      assert ids == [ids[0]] + ids[1..];
    } else if ids != [] {
      assert ids[0] in ids;
    }
  }

  function Expected(b: bool): nat { if b then 1 else 0 }

  /** One log for every active, enabled destination that passes the URL and game filter, and
      none for any other. */
  ghost predicate OneLogEach(s: State, t: State, e: Event, destOrder: seq<Id>, hookOrder: seq<Id>) {
    && (forall id: Id :: LogCount(t.logs, DiscordLog, id) ==
          LogCount(s.logs, DiscordLog, id) + Expected(id in destOrder && id in s.dests && Receives(s.dests[id], e)))
    && (forall id: Id :: LogCount(t.logs, WebhookLog, id) ==
          LogCount(s.logs, WebhookLog, id) + Expected(id in hookOrder && id in s.hooks && IsCalled(s.hooks[id], e)))
  }

  lemma NewLogs(s: State, e: Event, destOrder: seq<Id>, hookOrder: seq<Id>, id: Id)
    requires Distinct(destOrder) && Distinct(hookOrder)
    ensures var t := Handle(s, e, destOrder, hookOrder).0;
      && LogCount(t.logs, DiscordLog, id) ==
           LogCount(s.logs, DiscordLog, id) + CallCount(UntilBad(SelectDests(s, e, destOrder), e.destPayload), id)
      && LogCount(t.logs, WebhookLog, id) ==
           LogCount(s.logs, WebhookLog, id) + CallCount(LoggedHooks(s, e, destOrder, hookOrder), id)
  {
    var dests := UntilBad(SelectDests(s, e, destOrder), e.destPayload);
    WhatIsLogged(s, e, destOrder, hookOrder);
    CountInTwo(s.logs, dests, LoggedHooks(s, e, destOrder, hookOrder), e, DiscordLog, id);
    CountInTwo(s.logs, dests, LoggedHooks(s, e, destOrder, hookOrder), e, WebhookLog, id);
  }

  lemma BadPayloadMissesALog(s: State, e: Event, destOrder: seq<Id>, hookOrder: seq<Id>)
    requires Distinct(destOrder) && Distinct(hookOrder)
    requires OneLogEach(s, Handle(s, e, destOrder, hookOrder).0, e, destOrder, hookOrder)
    ensures AllGood(SelectDests(s, e, destOrder), e.destPayload) && AllGood(SelectHooks(s, e, hookOrder), e.hookPayload)
  {
    var dests, hooks := SelectDests(s, e, destOrder), SelectHooks(s, e, hookOrder);
    forall id <- dests ensures e.destPayload(id) {
      NewLogs(s, e, destOrder, hookOrder, id);
      SelectDestsMembers(s, e, destOrder, id);
      UntilBadCount(dests, e.destPayload, id);
    }
    forall id <- hooks ensures e.hookPayload(id) {
      NewLogs(s, e, destOrder, hookOrder, id);
      SelectHooksMembers(s, e, hookOrder, id);
    }
  }

  /** A dispatch writes exactly one log for each active, enabled destination that passes the
      URL and game filter, and none for others, exactly when every selected Discord payload and
      every selected webhook payload interpolates. */
  lemma OneLogEachIff(s: State, e: Event, destOrder: seq<Id>, hookOrder: seq<Id>)
    requires Distinct(destOrder) && Distinct(hookOrder)
    ensures OneLogEach(s, Handle(s, e, destOrder, hookOrder).0, e, destOrder, hookOrder) <==>
      AllGood(SelectDests(s, e, destOrder), e.destPayload) && AllGood(SelectHooks(s, e, hookOrder), e.hookPayload)
  {
    var dests, hooks := SelectDests(s, e, destOrder), SelectHooks(s, e, hookOrder);
    if AllGood(dests, e.destPayload) && AllGood(hooks, e.hookPayload) {
      forall id: Id
        ensures CallCount(UntilBad(dests, e.destPayload), id) ==
          Expected(id in destOrder && id in s.dests && Receives(s.dests[id], e))
        ensures CallCount(hooks, id) == Expected(id in hookOrder && id in s.hooks && IsCalled(s.hooks[id], e))
      {
        SelectDestsMembers(s, e, destOrder, id);
        SelectHooksMembers(s, e, hookOrder, id);
        UntilBadCount(dests, e.destPayload, id);
      }
      forall id: Id { NewLogs(s, e, destOrder, hookOrder, id); }
    } else if OneLogEach(s, Handle(s, e, destOrder, hookOrder).0, e, destOrder, hookOrder) {
      BadPayloadMissesALog(s, e, destOrder, hookOrder);
    }
  }

  /** Whatever throws, a dispatch suspends a webhook exactly when it logs it as Failed, and
      reactivates none. */
  lemma SuspendedIffLoggedFailed(s: State, e: Event, destOrder: seq<Id>, hookOrder: seq<Id>, id: Id)
    requires id in s.hooks
    ensures var t := Handle(s, e, destOrder, hookOrder).0;
      id in t.hooks && (t.hooks[id].suspended <==>
        s.hooks[id].suspended || Log(WebhookLog, id, true) in t.logs[|s.logs|..])
  {
    var dests := UntilBad(SelectDests(s, e, destOrder), e.destPayload);
    WhatIsLogged(s, e, destOrder, hookOrder);
    NewFailedLogIff(s.logs, dests, LoggedHooks(s, e, destOrder, hookOrder), e, id);
  }

  lemma CountInTwo(logs: seq<Log>, dests: seq<Id>, hooks: seq<Id>, e: Event, kind: LogKind, id: Id)
    ensures LogCount(logs + DestLogs(dests, e) + HookLogs(hooks, e), kind, id) ==
      LogCount(logs, kind, id) + CallCount(if kind.DiscordLog? then dests else hooks, id)
  {
    LogCountAppend(logs + DestLogs(dests, e), HookLogs(hooks, e), kind, id);
    LogCountAppend(logs, DestLogs(dests, e), kind, id);
    CountOfCalls(dests, e, id);
    CountOfCalls(hooks, e, id);
  }

  lemma NewFailedLogIff(logs: seq<Log>, dests: seq<Id>, hooks: seq<Id>, e: Event, id: Id)
    ensures Log(WebhookLog, id, true) in (logs + DestLogs(dests, e) + HookLogs(hooks, e))[|logs|..] <==>
      id in hooks && !e.answersOk(id)
  {
    assert (logs + DestLogs(dests, e) + HookLogs(hooks, e))[|logs|..] == DestLogs(dests, e) + HookLogs(hooks, e);
    FailedLogIff(hooks, e, id);
    assert Log(WebhookLog, id, true) !in DestLogs(dests, e);
  }

  lemma {:induction false} SelectHooksIgnoreLogs(s: State, t: State, e: Event, order: seq<Id>)
    requires t.hooks == s.hooks
    ensures SelectHooks(t, e, order) == SelectHooks(s, e, order)
    decreases |order|
  {
    if order != [] {
      SelectHooksIgnoreLogs(s, t, e, order[1..]);
    }
  }

  lemma FailedLogIff(ids: seq<Id>, e: Event, id: Id)
    ensures Log(WebhookLog, id, true) in HookLogs(ids, e) <==> id in ids && !e.answersOk(id)
  {
    if id in ids && !e.answersOk(id) {
      var i :| 0 <= i < |ids| && ids[i] == id;
      assert HookLogs(ids, e)[i] == Log(WebhookLog, id, true);
    }
  }

  // ---------------------------------------------------------------- who is served, by the fields alone

  /** Active, enabled, and without game filters or with the stream's known game among them. */
  predicate DestWanted(s: State, e: Event, id: Id) {
    && id in s.dests && !s.dests[id].suspended && !s.dests[id].disabled
    && (|s.dests[id].gameFilters| == 0 || (|e.gameId| > 0 && e.gameId in s.dests[id].gameFilters))
  }

  /** The same for a webhook, which must also have a URL. */
  predicate HookWanted(s: State, e: Event, id: Id) {
    && id in s.hooks && !s.hooks[id].suspended && !s.hooks[id].disabled && |s.hooks[id].url| > 0
    && (|s.hooks[id].gameFilters| == 0 || (|e.gameId| > 0 && e.gameId in s.hooks[id].gameFilters))
  }

  function DestTest(s: State, e: Event): Id -> bool { (i: Id) => DestWanted(s, e, i) }
  function HookTest(s: State, e: Event): Id -> bool { (i: Id) => HookWanted(s, e, i) }

  /** The id comes up in the order, and every wanted one up to and including it interpolates. */
  ghost predicate ReachedIn(order: seq<Id>, wanted: Id -> bool, good: Id -> bool, id: Id) {
    exists k :: 0 <= k < |order| && order[k] == id && forall j :: 0 <= j <= k && wanted(order[j]) ==> good(order[j])
  }

  function Wanted(order: seq<Id>, wanted: Id -> bool): seq<Id> {
    if order == [] then [] else (if wanted(order[0]) then [order[0]] else []) + Wanted(order[1..], wanted)
  }

  lemma {:induction false} SelectsWanted(s: State, e: Event, order: seq<Id>)
    ensures SelectDests(s, e, order) == Wanted(order, DestTest(s, e))
    ensures SelectHooks(s, e, order) == Wanted(order, HookTest(s, e))
    decreases |order|
  {
    if order != [] {
      SelectsWanted(s, e, order[1..]);
    }
  }

  lemma {:induction false} WantedMembers(order: seq<Id>, wanted: Id -> bool, id: Id)
    ensures id in Wanted(order, wanted) <==> id in order && wanted(id)
    decreases |order|
  {
    if order != [] {
      WantedMembers(order[1..], wanted, id);
      assert id in order <==> id == order[0] || id in order[1..];
    }
  }

  lemma ReachedFirst(order: seq<Id>, wanted: Id -> bool, good: Id -> bool, id: Id)
    requires order != []
    ensures ReachedIn(order, wanted, good, id) <==>
      (wanted(order[0]) ==> good(order[0])) && (order[0] == id || ReachedIn(order[1..], wanted, good, id))
  {
    var rest := order[1..];
    if ReachedIn(order, wanted, good, id) {
      var k :| 0 <= k < |order| && order[k] == id && forall j :: 0 <= j <= k && wanted(order[j]) ==> good(order[j]);
      assert wanted(order[0]) ==> good(order[0]);
      if k > 0 {
        assert rest[k - 1] == id && forall j :: 0 <= j <= k - 1 && wanted(rest[j]) ==> good(order[j + 1]);
      }
    }
    if (wanted(order[0]) ==> good(order[0])) && ReachedIn(rest, wanted, good, id) {
      var k :| 0 <= k < |rest| && rest[k] == id && forall j :: 0 <= j <= k && wanted(rest[j]) ==> good(rest[j]);
      assert order[k + 1] == id;
      forall j | 0 <= j <= k + 1 && wanted(order[j]) ensures good(order[j]) {
        if j > 0 { assert order[j] == rest[j - 1]; }
      }
    }
  }

  lemma {:induction false} BeforeBadIffReached(order: seq<Id>, wanted: Id -> bool, good: Id -> bool, id: Id)
    ensures id in UntilBad(Wanted(order, wanted), good) <==> wanted(id) && ReachedIn(order, wanted, good, id)
    decreases |order|
  {
    if order != [] {
      var rest := Wanted(order[1..], wanted);
      BeforeBadIffReached(order[1..], wanted, good, id);
      ReachedFirst(order, wanted, good, id);
      if wanted(order[0]) {
        assert Wanted(order, wanted)[1..] == rest;
      } else {
        assert Wanted(order, wanted) == rest;
      }
    }
  }

  lemma {:induction false} OnceIfDistinct(order: seq<Id>, wanted: Id -> bool, good: Id -> bool, id: Id)
    requires Distinct(order)
    ensures CallCount(UntilBad(Wanted(order, wanted), good), id) <= CallCount(Wanted(order, wanted), id) <= 1
    ensures id !in order ==> CallCount(Wanted(order, wanted), id) == 0
    decreases |order|
  {
    if order != [] {
      var rest := Wanted(order[1..], wanted);
      OnceIfDistinct(order[1..], wanted, good, id);
      if wanted(order[0]) {
        assert Wanted(order, wanted)[1..] == rest;
        var cut := UntilBad(Wanted(order, wanted), good);
        assert good(order[0]) ==> cut[1..] == UntilBad(rest, good);
      } else {
        assert Wanted(order, wanted) == rest;
      }
    }
  }

  /** How often an id of a list of distinct ones comes up before the first bad payload. */
  lemma ReachedCount(order: seq<Id>, wanted: Id -> bool, good: Id -> bool, id: Id)
    requires Distinct(order)
    ensures CallCount(UntilBad(Wanted(order, wanted), good), id) ==
      if wanted(id) && ReachedIn(order, wanted, good, id) then 1 else 0
  {
    BeforeBadIffReached(order, wanted, good, id);
    OnceIfDistinct(order, wanted, good, id);
    CountedIsMember(UntilBad(Wanted(order, wanted), good), id);
  }

  ghost predicate AllInterpolate(order: seq<Id>, wanted: Id -> bool, good: Id -> bool) {
    forall i <- order :: wanted(i) ==> good(i)
  }

  /** Who is served by one message, whichever payload throws. A Discord destination gets one log
      exactly when it is wanted and every wanted destination up to it interpolates. Once all wanted
      destinations interpolate, a webhook is called once exactly when it is wanted and every wanted
      webhook up to it interpolates; it is logged once exactly when it is wanted and all wanted
      webhooks interpolate. */
  lemma DispatchOutcome(s: State, e: Event, destOrder: seq<Id>, hookOrder: seq<Id>, id: Id)
    requires Distinct(destOrder) && Distinct(hookOrder)
    ensures var t := Handle(s, e, destOrder, hookOrder).0;
      var dest, hook := DestTest(s, e), HookTest(s, e);
      var dests := AllInterpolate(destOrder, dest, e.destPayload);
      var all := dests && AllInterpolate(hookOrder, hook, e.hookPayload);
      && LogCount(t.logs, DiscordLog, id) == LogCount(s.logs, DiscordLog, id)
           + Expected(DestWanted(s, e, id) && ReachedIn(destOrder, dest, e.destPayload, id))
      && CallCount(t.calls, id) == CallCount(s.calls, id)
           + Expected(dests && HookWanted(s, e, id) && ReachedIn(hookOrder, hook, e.hookPayload, id))
      && LogCount(t.logs, WebhookLog, id) == LogCount(s.logs, WebhookLog, id)
           + Expected(all && HookWanted(s, e, id) && id in hookOrder)
  {
    var dest, hook := DestTest(s, e), HookTest(s, e);
    SelectsWanted(s, e, destOrder);
    SelectsWanted(s, e, hookOrder);
    assert SelectDests(s, e, destOrder) == Wanted(destOrder, dest);
    assert SelectHooks(s, e, hookOrder) == Wanted(hookOrder, hook);
    GoodIffInterpolate(destOrder, dest, e.destPayload);
    GoodIffInterpolate(hookOrder, hook, e.hookPayload);
    NewLogs(s, e, destOrder, hookOrder, id);
    WhatIsLogged(s, e, destOrder, hookOrder);
    WhatIsCalled(s, e, destOrder, hookOrder, id);
    ReachedCount(destOrder, dest, e.destPayload, id);
    ReachedCount(hookOrder, hook, e.hookPayload, id);
    WantedMembers(hookOrder, hook, id);
    OnceIfDistinct(hookOrder, hook, e.hookPayload, id);
    CountedIsMember(Wanted(hookOrder, hook), id);
  }

  /** A message changes nothing about a webhook but that it suspends it, exactly when it is wanted
      and fails while all wanted payloads interpolate; destinations stay as they are. */
  lemma SuspensionOutcome(s: State, e: Event, destOrder: seq<Id>, hookOrder: seq<Id>, id: Id)
    requires id in s.hooks
    ensures var t := Handle(s, e, destOrder, hookOrder).0;
      var all := AllInterpolate(destOrder, DestTest(s, e), e.destPayload) && AllInterpolate(hookOrder, HookTest(s, e), e.hookPayload);
      && id in t.hooks && t.dests == s.dests
      && t.hooks[id] == Hook(s.hooks[id].url,
           s.hooks[id].suspended || (all && HookWanted(s, e, id) && id in hookOrder && !e.answersOk(id)),
           s.hooks[id].disabled, s.hooks[id].gameFilters)
  {
    SelectsWanted(s, e, destOrder);
    SelectsWanted(s, e, hookOrder);
    GoodIffInterpolate(destOrder, DestTest(s, e), e.destPayload);
    GoodIffInterpolate(hookOrder, HookTest(s, e), e.hookPayload);
    WhatIsLogged(s, e, destOrder, hookOrder);
    WantedMembers(hookOrder, HookTest(s, e), id);
  }

  /** A message is acknowledged exactly when all wanted payloads of both kinds interpolate, and goes
      back to the queue otherwise. */
  lemma AcknowledgedIff(s: State, e: Event, destOrder: seq<Id>, hookOrder: seq<Id>)
    ensures Handle(s, e, destOrder, hookOrder).1.Acked? <==>
      AllInterpolate(destOrder, DestTest(s, e), e.destPayload) && AllInterpolate(hookOrder, HookTest(s, e), e.hookPayload)
  {
    SelectsWanted(s, e, destOrder);
    SelectsWanted(s, e, hookOrder);
    SelectHooksIgnoreLogs(s, DispatchDiscord(s, e, destOrder).0, e, hookOrder);
    GoodIffInterpolate(destOrder, DestTest(s, e), e.destPayload);
    GoodIffInterpolate(hookOrder, HookTest(s, e), e.hookPayload);
  }

  lemma GoodIffInterpolate(order: seq<Id>, wanted: Id -> bool, good: Id -> bool)
    ensures AllGood(Wanted(order, wanted), good) <==> AllInterpolate(order, wanted, good)
  {
    forall i: Id { WantedMembers(order, wanted, i); }
  }

  lemma WhatIsCalled(s: State, e: Event, destOrder: seq<Id>, hookOrder: seq<Id>, id: Id)
    ensures var t := Handle(s, e, destOrder, hookOrder).0; var hooks := SelectHooks(s, e, hookOrder);
      CallCount(t.calls, id) == CallCount(s.calls, id) +
        if AllGood(SelectDests(s, e, destOrder), e.destPayload) then CallCount(UntilBad(hooks, e.hookPayload), id) else 0
  {
    var hooks := SelectHooks(s, e, hookOrder);
    SelectHooksIgnoreLogs(s, DispatchDiscord(s, e, destOrder).0, e, hookOrder);
    CallCountAppend(s.calls, hooks, id);
    CallCountAppend(s.calls, UntilBad(hooks, e.hookPayload), id);
    UntilBadCount(hooks, e.hookPayload, id);
  }

  /** A log says Failed exactly when the queue or the webhook did not take the message. */
  lemma LogsTellTheTruth(s: State, e: Event, destOrder: seq<Id>, hookOrder: seq<Id>, log: Log)
    requires log in Handle(s, e, destOrder, hookOrder).0.logs[|s.logs|..]
    ensures log.failed == if log.kind.DiscordLog? then !e.emits(log.id) else !e.answersOk(log.id)
  {
    var dests := UntilBad(SelectDests(s, e, destOrder), e.destPayload);
    var hooks := LoggedHooks(s, e, destOrder, hookOrder);
    WhatIsLogged(s, e, destOrder, hookOrder);
    NewPart(s.logs, DestLogs(dests, e), HookLogs(hooks, e));
    if log in DestLogs(dests, e) {
      DestLogTrue(dests, e, log);
    } else {
      HookLogTrue(hooks, e, log);
    }
  }

  lemma NewPart(old1: seq<Log>, a: seq<Log>, b: seq<Log>)
    ensures (old1 + a + b)[|old1|..] == a + b
  {
  }

  lemma DestLogTrue(ids: seq<Id>, e: Event, log: Log)
    requires log in DestLogs(ids, e)
    ensures log.kind == DiscordLog && log.failed == !e.emits(log.id)
  {
  }

  lemma HookLogTrue(ids: seq<Id>, e: Event, log: Log)
    requires log in HookLogs(ids, e)
    ensures log.kind == WebhookLog && log.failed == !e.answersOk(log.id)
  {
  }

  /** Calls and webhook logs part company exactly when a payload throws after the first
      webhook: the calls already made are in no log and their failures suspend nothing. */
  lemma EveryCallIsLoggedIff(s: State, e: Event, order: seq<Id>)
    ensures var t := DispatchWebhooks(s, e, order).0; var ids := SelectHooks(s, e, order);
      |t.logs| - |s.logs| == |t.calls| - |s.calls| <==> AllGood(ids, e.hookPayload) || !e.hookPayload(ids[0])
  {
    var ids := SelectHooks(s, e, order);
    if !AllGood(ids, e.hookPayload) {
      assert ids != [];
    }
  }

  // ---------------------------------------------------------------- runs

  datatype Op =
    | OpEvent(e: Event, destOrder: seq<Id>, hookOrder: seq<Id>)
    | OpUpdateHook(id: Id, disabled: bool, gameFilters: seq<string>)
    | OpSaveHook(id: Id, hook: Hook)              // a new notification
    | OpSuspendHook(id: Id)                       // a downgrade
    | OpRemoveHook(id: Id)

  function Exec(s: State, op: Op): State {
    match op
    case OpEvent(e, dests, hooks) => Handle(s, e, dests, hooks).0
    case OpUpdateHook(id, disabled, filters) =>
      if id in s.hooks
      then s.(hooks := s.hooks[id := s.hooks[id].(disabled := disabled, gameFilters := filters, suspended := false)])
      else s
    case OpSaveHook(id, hook) => if id in s.hooks then s else s.(hooks := s.hooks[id := hook])
    case OpSuspendHook(id) => if id in s.hooks then s.(hooks := s.hooks[id := s.hooks[id].(suspended := true)]) else s
    case OpRemoveHook(id) => s.(hooks := s.hooks - {id})
  }

  function Run(s: State, ops: seq<Op>): State
    decreases |ops|
  {
    if ops == [] then s else Run(Exec(s, ops[0]), ops[1..])
  }

  predicate Reactivates(op: Op, id: Id) {
    (op.OpUpdateHook? || op.OpSaveHook?) && op.id == id
  }

  /** An update writes the filters and the switch and reactivates; a new webhook is as given; a
      downgrade suspends; a removal removes. No other webhook and no destination changes. */
  lemma SmallWrites(s: State, id: Id, hook: Hook, disabled: bool, filters: seq<string>)
    ensures id in s.hooks ==>
      Exec(s, OpUpdateHook(id, disabled, filters)) == s.(hooks := s.hooks[id := Hook(s.hooks[id].url, false, disabled, filters)])
    ensures id !in s.hooks ==> Exec(s, OpSaveHook(id, hook)) == s.(hooks := s.hooks[id := hook])
    ensures id in s.hooks ==>
      Exec(s, OpSuspendHook(id)) == s.(hooks := s.hooks[id := Hook(s.hooks[id].url, true, s.hooks[id].disabled, s.hooks[id].gameFilters)])
    ensures Exec(s, OpRemoveHook(id)) == s.(hooks := s.hooks - {id})
  {
  }

  predicate Silent(s: State, id: Id) {
    id in s.hooks ==> s.hooks[id].suspended
  }

  lemma SilentStep(s: State, op: Op, id: Id)
    requires Silent(s, id) && !Reactivates(op, id)
    ensures Silent(Exec(s, op), id) && CallCount(Exec(s, op).calls, id) == CallCount(s.calls, id)
  {
    if op.OpEvent? {
      var s1 := DispatchDiscord(s, op.e, op.destOrder).0;
      var ids := SelectHooks(s1, op.e, op.hookOrder);
      NotSelected(s1, op.e, op.hookOrder, id);
      NotBeforeBad(ids, op.e.hookPayload, id);
      CallCountAppend(s.calls, ids, id);
      CallCountAppend(s.calls, UntilBad(ids, op.e.hookPayload), id);
    }
  }

  lemma {:induction false} NotSelected(s: State, e: Event, order: seq<Id>, id: Id)
    requires Silent(s, id)
    ensures id !in SelectHooks(s, e, order) && CallCount(SelectHooks(s, e, order), id) == 0
    decreases |order|
  {
    if order != [] {
      var head := if order[0] in s.hooks && IsCalled(s.hooks[order[0]], e) then [order[0]] else [];
      NotSelected(s, e, order[1..], id);
      CallCountAppend(head, SelectHooks(s, e, order[1..]), id);
    }
  }

  lemma {:induction false} NotBeforeBad(ids: seq<Id>, good: Id -> bool, id: Id)
    requires id !in ids
    ensures CallCount(UntilBad(ids, good), id) == 0
    decreases |ids|
  {
    if ids != [] && good(ids[0]) {
      NotBeforeBad(ids[1..], good, id);
      assert UntilBad(ids, good)[1..] == UntilBad(ids[1..], good);
    }
  }

  lemma {:induction false} SilentRun(s: State, ops: seq<Op>, id: Id)
    requires Silent(s, id) && forall op <- ops :: !Reactivates(op, id)
    ensures CallCount(Run(s, ops).calls, id) == CallCount(s.calls, id)
    decreases |ops|
  {
    if ops != [] {
      SilentStep(s, ops[0], id);
      SilentRun(Exec(s, ops[0]), ops[1..], id);
    }
  }

  lemma {:induction false} CountedIsMember(ids: seq<Id>, id: Id)
    ensures CallCount(ids, id) > 0 <==> id in ids
    decreases |ids|
  {
    if ids != [] {
      CountedIsMember(ids[1..], id);
    }
  }

  lemma {:induction false} UntilBadSubset(ids: seq<Id>, good: Id -> bool, id: Id)
    requires id in UntilBad(ids, good)
    ensures id in ids
    decreases |ids|
  {
    if id != ids[0] {
      UntilBadSubset(ids[1..], good, id);
    }
  }

  lemma {:induction false} SelectedAreUnsuspended(s: State, e: Event, order: seq<Id>, id: Id)
    requires id in SelectHooks(s, e, order)
    ensures id in s.hooks && !s.hooks[id].suspended
    decreases |order|
  {
    var head := if order[0] in s.hooks && IsCalled(s.hooks[order[0]], e) then [order[0]] else [];
    if id !in head {
      SelectedAreUnsuspended(s, e, order[1..], id);
    }
  }

  /** A webhook that was called and failed is suspended exactly when every payload of the
      message interpolates; one that throws leaves the failure without effect. */
  lemma FailedCallSuspendsIff(s: State, e: Event, destOrder: seq<Id>, hookOrder: seq<Id>, id: Id)
    requires var t := Handle(s, e, destOrder, hookOrder).0; CallCount(t.calls, id) > CallCount(s.calls, id)
    requires !e.answersOk(id)
    ensures var t := Handle(s, e, destOrder, hookOrder).0;
      id in t.hooks && (t.hooks[id].suspended <==> AllGood(SelectHooks(s, e, hookOrder), e.hookPayload))
  {
    var s1 := DispatchDiscord(s, e, destOrder).0;
    SelectHooksIgnoreLogs(s, s1, e, hookOrder);
    var ids := SelectHooks(s, e, hookOrder);
    CallCountAppend(s.calls, ids, id);
    CallCountAppend(s.calls, UntilBad(ids, e.hookPayload), id);
    CountedIsMember(ids, id);
    CountedIsMember(UntilBad(ids, e.hookPayload), id);
    if id in UntilBad(ids, e.hookPayload) {
      UntilBadSubset(ids, e.hookPayload, id);
    }
    SelectedAreUnsuspended(s, e, hookOrder, id);
  }

  /** Between a failed call to a webhook and the next call to it there is an operation that
      reactivated it. */
  lemma NoCallAfterFailure(s: State, e: Event, destOrder: seq<Id>, hookOrder: seq<Id>, ops: seq<Op>, id: Id)
    requires AllGood(SelectHooks(s, e, hookOrder), e.hookPayload) && !e.answersOk(id)
    requires var t := Handle(s, e, destOrder, hookOrder).0;
      && CallCount(t.calls, id) > CallCount(s.calls, id)
      && CallCount(Run(t, ops).calls, id) != CallCount(t.calls, id)
    ensures exists op <- ops :: Reactivates(op, id)
  {
    var t := Handle(s, e, destOrder, hookOrder).0;
    FailedCallSuspendsIff(s, e, destOrder, hookOrder, id);
    if forall op <- ops :: !Reactivates(op, id) {
      SilentRun(t, ops, id);
    }
  }
}
