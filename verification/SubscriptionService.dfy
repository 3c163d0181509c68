/** The services that change the tables, statement by statement, each proved to do what
    SubscriptionDb says it does. */
module SubscriptionService {
  import opened Wrappers
  import opened SubscriptionDb
  import Agreement

  /** The database and the remote side, shared by the services. */
  class Store {
    var db: Db

    constructor (db: Db)
      ensures this.db == db
    {
      this.db := db;
    }

    /** `registerEvent` when Twitch accepts. */
    method RegisterEvent(app: AppId) returns (sub: SubId)
      modifies this
      ensures sub == old(db.nextSub)
      ensures db == old(db).(remote := old(db.remote)[sub := app], nextSub := sub + 1)
    {
      sub := db.nextSub;
      db := db.(remote := db.remote[sub := app], nextSub := sub + 1);
    }

    method DeleteSubscription(w: World, row: Row)
      modifies this
      ensures db == old(db).(remote := DeleteRemote(old(db), w, row))
    {
      if row.sub.Some? {
        var sub := row.sub.value;
        if sub in db.remote && db.remote[sub] == row.app && w.deletes(sub) {
          db := db.(remote := db.remote - {sub});
        }
      }
    }

    method ReleaseAppCost(app: AppId, cost: nat)
      modifies this
      ensures db == old(db).(apps := AddCost(old(db.apps), app, -(cost as int)))
    {
      if app in db.apps {
        db := db.(apps := db.apps[app := db.apps[app].(currentCost := db.apps[app].currentCost - cost)]);
      }
    }

    method ConsumeAppCost(app: AppId, cost: nat)
      modifies this
      ensures db == old(db).(apps := AddCost(old(db.apps), app, cost))
    {
      if app in db.apps {
        db := db.(apps := db.apps[app := db.apps[app].(currentCost := db.apps[app].currentCost + cost)]);
      }
    }
  }

  lemma AddNothing(apps: map<AppId, App>, a: AppId)
    ensures AddCost(apps, a, 0) == apps
  {
  }

  lemma DowngradeOneMore(db: Db, w: World, order: seq<RowId>, i: nat)
    requires i < |order|
    ensures DowngradeRows(db, w, order[i..]) == DowngradeRows(DowngradeRow(db, w, order[i]), w, order[i + 1..])
    ensures forall r :: r != order[i] && r in db.rows ==>
      r in DowngradeRow(db, w, order[i]).rows && DowngradeRow(db, w, order[i]).rows[r] == db.rows[r]
  {
    assert order[i..][1..] == order[i + 1..];
  }

  lemma MigrateOneMore(db: Db, w: World, internal: AppId, order: seq<RowId>, i: nat)
    requires i < |order|
    ensures MigrateRows(db, w, internal, order[i..]) == MigrateRows(MigrateRow(db, w, internal, order[i]), w, internal, order[i + 1..])
    ensures forall r :: r != order[i] && r in db.rows ==>
      r in MigrateRow(db, w, internal, order[i]).rows && MigrateRow(db, w, internal, order[i]).rows[r] == db.rows[r]
  {
    assert order[i..][1..] == order[i + 1..];
  }

  class TwitchSubscriptionService {
    const store: Store

    constructor (store: Store)
      ensures this.store == store
    {
      this.store := store;
    }

    method RegisterSubscription(w: World, s: StreamerId, e: EventType) returns (result: RegisterResult)
      requires store.db.nextRow !in store.db.rows
      modifies store
      ensures (store.db, result) == Register(old(store.db), w, s, e)
    {
      if !w.streamerFound { return NoSuchStreamer; }
      if s !in store.db.streamers {
        store.db := store.db.(streamers := store.db.streamers[s := Streamer(false, true)]);
      }
      var taken := RowsOf(store.db, s, e) != {};
      if IsPersonal(store.db, s) {
        if taken && w.userToken && FindInternalApp(store.db, w).Some? { return Duplicate; }
        if !taken {
          var row := TryRegisterWithUserToken(w, s, e);
          if row.Some? { return Registered(row.value); }
        }
      }
      if taken {
        return if AppForBroadcaster(store.db, w, s).None? then NoApp else Duplicate;
      }
      result := SaveAndRegister(w, s, e);
    }

    /** The part of `registerSubscription` that uses an app token. */
    method SaveAndRegister(w: World, s: StreamerId, e: EventType) returns (result: RegisterResult)
      modifies store
      ensures (store.db, result) == RegisterWithAppToken(old(store.db), w, s, e)
    {
      var app := AppForBroadcaster(store.db, w, s);
      if app.None? { return NoApp; }

      ghost var before := store.db;
      var r := store.db.nextRow;
      store.db := store.db.(rows := store.db.rows[r := Row(s, e, app.value, 1, None, Pending)], nextRow := r + 1);
      if w.reply(r).Refused? { return Rejected(app.value); }
      var sub := store.RegisterEvent(app.value);
      var cost := CostOf(w.reply(r));
      store.db := store.db.(rows := store.db.rows[r := store.db.rows[r].(sub := Some(sub), cost := cost)]);
      AddNothing(store.db.apps, app.value);
      if cost > 0 {
        store.ConsumeAppCost(app.value, cost);
      }
      assert store.db.rows == before.rows[r := store.db.rows[r]];
      return Registered(r);
    }

    method TryRegisterWithUserToken(w: World, s: StreamerId, e: EventType) returns (row: Option<RowId>)
      requires store.db.nextRow !in store.db.rows
      modifies store
      ensures (store.db, row) == RegisterWithUserToken(old(store.db), w, s, e)
    {
      if !w.userToken { return None; }
      var internal := FindInternalApp(store.db, w);
      if internal.None? { return None; }
      var r := store.db.nextRow;
      store.db := store.db.(rows := store.db.rows[r := Row(s, e, internal.value, 0, None, Pending)], nextRow := r + 1);
      if w.reply(r).Accepted? {
        var sub := store.RegisterEvent(internal.value);
        store.db := store.db.(rows := store.db.rows[r := store.db.rows[r].(sub := Some(sub))]);
        assert store.db.rows == old(store.db.rows)[r := store.db.rows[r]];
        return Some(r);
      }
      store.db := store.db.(rows := store.db.rows - {r});
      assert store.db.rows == old(store.db.rows);
      return None;
    }

    method GetOrCreate(w: World, s: StreamerId, e: EventType) returns (result: RegisterResult)
      requires store.db.nextRow !in store.db.rows
      modifies store
      ensures (store.db, result) == GetOrCreateEvent(old(store.db), w, s, e)
    {
      if s in store.db.streamers {
        var rows := RowsOf(store.db, s, e);
        if rows != {} { return Registered(w.chooseRow(rows)); }
      }
      result := RegisterSubscription(w, s, e);
    }

    /** One turn of the migration loop; a registration that throws skips the event. */
    method MigrateEvent(w: World, internal: AppId, r: RowId, event: Row)
      requires r in store.db.rows && store.db.rows[r] == event
      modifies store
      ensures store.db == MigrateRow(old(store.db), w, internal, r)
    {
      if w.reply(r).Refused? { return; }
      var sub := store.RegisterEvent(internal);
      store.db := store.db.(rows := store.db.rows[r :=
        event.(sub := Some(sub), app := internal, cost := 0, status := Pending)]);
      store.DeleteSubscription(w, event);
      AddNothing(store.db.apps, event.app);
      if event.cost > 0 {
        store.ReleaseAppCost(event.app, event.cost);
      }
    }

    method MigrateToUserAuthorized(w: World, s: StreamerId, order: seq<RowId>)
      requires CanMigrate(store.db, w, s) ==>
        Lists(order, RowsToMigrate(store.db, s, FindInternalApp(store.db, w).value))
      modifies store
      ensures store.db == Migrate(old(store.db), w, s, order)
    {
      if s !in store.db.streamers || !store.db.streamers[s].allowPersonal { return; }
      if !w.userToken { return; }
      var internal := FindInternalApp(store.db, w);
      if internal.None? { return; }
      var events := store.db.rows;
      assert forall r <- order :: r in events;
      assert forall j :: 0 <= j < |order| ==> order[j] in order;
      for i := 0 to |order|
        invariant MigrateRows(store.db, w, internal.value, order[i..]) == Migrate(old(store.db), w, s, order)
        invariant forall j :: i <= j < |order| ==> order[j] in store.db.rows && store.db.rows[order[j]] == events[order[j]]
      {
        MigrateOneMore(store.db, w, internal.value, order, i);
        MigrateEvent(w, internal.value, order[i], events[order[i]]);
      }
    }

    /** One turn of the downgrade loop. */
    method DowngradeEvent(w: World, r: RowId, event: Row)
      requires r in store.db.rows && store.db.rows[r] == event
      modifies store
      ensures store.db == DowngradeRow(old(store.db), w, r)
    {
      if NonCredit(store.db, r) {
        var app := FindLeastLoaded(store.db, w, r);
        if app.None? || w.reply(r).Refused? { return; }
        var sub := store.RegisterEvent(app.value);
        var cost := CostOf(w.reply(r));
        store.DeleteSubscription(w, event);
        store.db := store.db.(rows := store.db.rows[r :=
          event.(sub := Some(sub), app := app.value, cost := cost, status := Pending)]);
        AddNothing(store.db.apps, app.value);
        if cost > 0 {
          store.ConsumeAppCost(app.value, cost);
        }
      } else {
        store.DeleteSubscription(w, event);
        store.db := store.db.(rows := store.db.rows[r := event.(status := Deactivated)]);
        store.db := store.db.(notes := SuspendNotes(store.db.notes, r));
      }
    }

    method DowngradeUserAuthorized(w: World, s: StreamerId, order: seq<RowId>)
      requires FindInternalApp(store.db, w).Some? ==>
        Lists(order, RowsToDowngrade(store.db, s, FindInternalApp(store.db, w).value))
      modifies store
      ensures store.db == Downgrade(old(store.db), w, order)
    {
      var internal := FindInternalApp(store.db, w);
      if internal.None? { return; }
      var events := store.db.rows;
      assert forall r <- order :: r in events;
      assert forall j :: 0 <= j < |order| ==> order[j] in order;
      for i := 0 to |order|
        invariant DowngradeRows(store.db, w, order[i..]) == DowngradeRows(old(store.db), w, order)
        invariant forall j :: i <= j < |order| ==> order[j] in store.db.rows && store.db.rows[order[j]] == events[order[j]]
      {
        DowngradeOneMore(store.db, w, order, i);
        DowngradeEvent(w, order[i], events[order[i]]);
      }
    }

    method DeleteLocalSubscription(w: World, r: RowId) returns (found: bool)
      modifies store
      ensures found == (r in old(store.db.rows))
      ensures store.db == DeleteLocal(old(store.db), w, r)
    {
      if r !in store.db.rows { return false; }
      var event := store.db.rows[r];
      store.DeleteSubscription(w, event);
      AddNothing(store.db.apps, event.app);
      if event.cost > 0 {
        store.ReleaseAppCost(event.app, event.cost);
      }
      store.db := store.db.(rows := store.db.rows - {r},
        notes := map n | n in store.db.notes && store.db.notes[n].row != r :: store.db.notes[n]);
      return true;
    }

    method DeleteTwitchOnlySubscription(w: World, sub: SubId, app: AppId) returns (rejected: bool)
      modifies store
      ensures rejected == HasRowWithSub(old(store.db), sub)
      ensures store.db == DeleteTwitchOnly(old(store.db), w, sub, app)
      ensures store.db == old(store.db).(remote := store.db.remote)
      ensures Agreement.RowsAgree(old(store.db)) ==> Agreement.RowsAgree(store.db)
      ensures Agreement.Agree(old(store.db)) ==> Agreement.Agree(store.db)
    {
      if Agreement.RowsAgree(store.db) {
        Agreement.DeleteTwitchOnlyAgrees(store.db, w, sub, app);
      }
      if HasRowWithSub(store.db, sub) { return true; }
      if sub in store.db.remote && store.db.remote[sub] == app && w.deletes(sub) {
        store.db := store.db.(remote := store.db.remote - {sub});
      }
      return false;
    }
  }

  /** The deletion paths of the notification service and of the bot's handler. */
  class TwitchNotificationsService {
    const subscriptions: TwitchSubscriptionService

    constructor (subscriptions: TwitchSubscriptionService)
      ensures this.subscriptions == subscriptions
    {
      this.subscriptions := subscriptions;
    }

    /** `createDiscordNotification` and `createWebhookNotification` from the event on; `funded`
        says whether the payload was valid and the charge succeeded. */
    method CreateNotification(w: World, s: StreamerId, e: EventType, kind: Kind, funding: Funding, funded: bool)
      requires subscriptions.store.db.nextRow !in subscriptions.store.db.rows
      modifies subscriptions.store
      ensures subscriptions.store.db == CreateNote(old(subscriptions.store.db), w, s, e, kind, funding, funded)
    {
      var store := subscriptions.store;
      var result := subscriptions.GetOrCreate(w, s, e);
      if !result.Registered? || !funded { return; }
      var n := store.db.nextNote;
      store.db := store.db.(notes := store.db.notes[n := Note(kind, result.row, funding, false)], nextNote := n + 1);
    }

    method CleanupSubscriptionIfUnused(w: World, r: RowId)
      modifies subscriptions.store
      ensures subscriptions.store.db == CleanupIfUnused(old(subscriptions.store.db), w, r)
    {
      if !Referenced(subscriptions.store.db, r) {
        var _ := subscriptions.DeleteLocalSubscription(w, r);
      }
    }

    method DeleteNotification(w: World, n: NoteId, mayDelete: bool) returns (deleted: bool)
      modifies subscriptions.store
      ensures deleted == (mayDelete && n in old(subscriptions.store.db.notes))
      ensures subscriptions.store.db ==
        if deleted then DeleteNote(old(subscriptions.store.db), w, n) else old(subscriptions.store.db)
    {
      var store := subscriptions.store;
      if n !in store.db.notes || !mayDelete { return false; }
      var r := store.db.notes[n].row;
      store.db := store.db.(notes := store.db.notes - {n});
      CleanupSubscriptionIfUnused(w, r);
      return true;
    }
  }

  // ---------------------------------------------------------------- the cron

  lemma {:induction false} OnAppAppend(db: Db, order: seq<RowId>, r: RowId, a: AppId)
    ensures OnApp(db, order + [r], a) ==
      OnApp(db, order, a) + if r in db.rows && db.rows[r].app == a then [r] else []
    decreases |order|
  {
    if order == [] {
      assert order + [r] == [r];
    } else {
      assert (order + [r])[1..] == order[1..] + [r];
      OnAppAppend(db, order[1..], r, a);
    }
  }

  lemma {:induction false} SumReleasesAppend(db: Db, c: CronWorld, order: seq<RowId>, r: RowId)
    ensures SumReleases(db, c, order + [r]) == SumReleases(db, c, order) + ReleaseOf(db, c, r)
    decreases |order|
  {
    if order == [] {
      assert order + [r] == [r];
    } else {
      assert (order + [r])[1..] == order[1..] + [r];
      SumReleasesAppend(db, c, order[1..], r);
    }
  }

  lemma {:induction false} OnAppMembers(db: Db, order: seq<RowId>, a: AppId)
    ensures forall r :: r in OnApp(db, order, a) <==> r in order && r in db.rows && db.rows[r].app == a
    ensures OnApp(db, order, a) == [] <==> forall r <- order :: !(r in db.rows && db.rows[r].app == a)
    decreases |order|
  {
    if order != [] {
      OnAppMembers(db, order[1..], a);
      assert order == [order[0]] + order[1..];
    }
  }

  /** The rows a finished part of the cron's outer loop puts on its two lists. */
  ghost predicate Sorted(db: Db, c: CronWorld, order: seq<RowId>, done: set<AppId>, toEnable: seq<RowId>, toDelete: seq<RowId>) {
    && (forall r :: r in toEnable <==> r in order && r in db.rows && db.rows[r].app in done && !IsFailed(db, c, r))
    && (forall r :: r in toDelete <==> r in order && r in db.rows && db.rows[r].app in done && IsFailed(db, c, r) && c.aged(r))
  }

  ghost predicate ReleasedSoFar(db: Db, c: CronWorld, order: seq<RowId>, done: set<AppId>, toRelease: map<AppId, nat>) {
    && (forall a <- toRelease :: a in done)
    && (forall a <- done :: Released(db, c, order, a) == if a in toRelease then toRelease[a] else 0)
  }

  /** One more app's rows are on the lists. */
  lemma SortedStep(db: Db, c: CronWorld, order: seq<RowId>, done: set<AppId>, app: AppId, toEnable: seq<RowId>, toDelete: seq<RowId>,
                   enable: seq<RowId>, delete: seq<RowId>)
    requires Sorted(db, c, order, done, toEnable, toDelete)
    requires forall r :: r in enable <==> r in toEnable || (r in OnApp(db, order, app) && !IsFailed(db, c, r))
    requires forall r :: r in delete <==> r in toDelete || (r in OnApp(db, order, app) && IsFailed(db, c, r) && c.aged(r))
    ensures Sorted(db, c, order, done + {app}, enable, delete)
  {
    OnAppMembers(db, order, app);
  }

  lemma AppFailed(db: Db, c: CronWorld, order: seq<RowId>, app: AppId)
    requires (exists r <- order :: r in db.rows && db.rows[r].app == app) && c.api(app).None?
    ensures !ApiAnswers(db, c, order)
  {
  }

  lemma ReleasedStep(db: Db, c: CronWorld, order: seq<RowId>, done: set<AppId>, app: AppId, toRelease: map<AppId, nat>, release: nat)
    requires ReleasedSoFar(db, c, order, done, toRelease) && app !in done
    requires release == SumReleases(db, c, OnApp(db, order, app))
    ensures ReleasedSoFar(db, c, order, done + {app}, if release > 0 then toRelease[app := release] else toRelease)
  {
  }

  lemma PartitionDone(db: Db, c: CronWorld, order: seq<RowId>, apps: set<AppId>, toEnable: seq<RowId>, toDelete: seq<RowId>,
                      toRelease: map<AppId, nat>)
    requires forall r <- order :: r in db.rows && db.rows[r].app in apps
    requires forall a <- apps :: c.api(a).Some?
    requires Sorted(db, c, order, apps, toEnable, toDelete) && ReleasedSoFar(db, c, order, apps, toRelease)
    ensures ApiAnswers(db, c, order)
    ensures forall r :: r in toEnable <==> r in order && !IsFailed(db, c, r)
    ensures forall r :: r in toDelete <==> r in order && IsFailed(db, c, r) && c.aged(r)
    ensures forall a :: Released(db, c, order, a) == if a in toRelease then toRelease[a] else 0
  {
    forall a | a !in apps ensures Released(db, c, order, a) == 0 {
      OnAppMembers(db, order, a);
    }
  }

  function WithStatuses(db: Db, rows: seq<RowId>, status: EventStatus): Db {
    db.(rows := map r | r in db.rows :: if r in rows then db.rows[r].(status := status) else db.rows[r])
  }

  function WithReleases(db: Db, toRelease: map<AppId, nat>): Db {
    db.(apps := map a | a in db.apps ::
      db.apps[a].(currentCost := db.apps[a].currentCost - if a in toRelease then toRelease[a] else 0))
  }

  lemma StatusesAreCron(db: Db, c: CronWorld, order: seq<RowId>, toEnable: seq<RowId>, toDelete: seq<RowId>)
    requires ApiAnswers(db, c, order)
    requires forall r :: r in toEnable <==> r in order && !IsFailed(db, c, r)
    requires forall r :: r in toDelete <==> r in order && IsFailed(db, c, r) && c.aged(r)
    ensures WithStatuses(WithStatuses(db, toEnable, Verified), toDelete, Revoked).rows == Cron(db, c, order).rows
  {
    var rows := WithStatuses(WithStatuses(db, toEnable, Verified), toDelete, Revoked).rows;
    forall r <- db.rows ensures rows[r] == db.rows[r].(status := CronStatus(db, c, order, r)) {}
  }

  lemma ReleasesAreCron(db: Db, c: CronWorld, order: seq<RowId>, toRelease: map<AppId, nat>)
    requires ApiAnswers(db, c, order)
    requires forall a :: Released(db, c, order, a) == if a in toRelease then toRelease[a] else 0
    ensures WithReleases(db, toRelease).apps == Cron(db, c, order).apps
  {
  }

  /** The three bulk writes of the cron, in its order, from the lists its loops build. */
  lemma WritesAreCron(db: Db, c: CronWorld, order: seq<RowId>, toEnable: seq<RowId>, toDelete: seq<RowId>, toRelease: map<AppId, nat>)
    requires ApiAnswers(db, c, order)
    requires forall r :: r in toEnable <==> r in order && !IsFailed(db, c, r)
    requires forall r :: r in toDelete <==> r in order && IsFailed(db, c, r) && c.aged(r)
    requires forall a :: Released(db, c, order, a) == if a in toRelease then toRelease[a] else 0
    ensures WithReleases(WithStatuses(WithStatuses(db, toEnable, Verified), toDelete, Revoked), toRelease) == Cron(db, c, order)
  {
    StatusesAreCron(db, c, order, toEnable, toDelete);
    ReleasesAreCron(db, c, order, toRelease);
    CronIsRowsAndApps(db, c, order);
  }

  lemma CronIsRowsAndApps(db: Db, c: CronWorld, order: seq<RowId>)
    ensures Cron(db, c, order) == db.(rows := Cron(db, c, order).rows, apps := Cron(db, c, order).apps)
  {
  }

  class TwitchSubscriptionsCron {
    const store: Store

    constructor (store: Store)
      ensures this.store == store
    {
      this.store := store;
    }

    method GroupByApp(order: seq<RowId>) returns (grouped: map<AppId, seq<RowId>>)
      requires forall r <- order :: r in store.db.rows
      ensures forall a :: a in grouped <==> exists r <- order :: store.db.rows[r].app == a
      ensures forall a <- grouped :: grouped[a] == OnApp(store.db, order, a)
    {
      grouped := map[];
      for i := 0 to |order|
        invariant forall a :: a in grouped <==> exists r <- order[..i] :: store.db.rows[r].app == a
        invariant forall a <- grouped :: grouped[a] == OnApp(store.db, order[..i], a)
        invariant forall a :: a !in grouped ==> OnApp(store.db, order[..i], a) == []
      {
        var r := order[i];
        assert order[..i + 1] == order[..i] + [r];
        forall a { OnAppAppend(store.db, order[..i], r, a); }
        var app := store.db.rows[r].app;
        var sofar := if app in grouped then grouped[app] else [];
        grouped := grouped[app := sofar + [r]];
      }
      assert order[..|order|] == order;
    }

    /** The inner loop: sorts one app's rows and adds up what it gets back. */
    method SortApp(c: CronWorld, events: seq<RowId>, subs: map<SubId, ApiSub>, toEnable: seq<RowId>, toDelete: seq<RowId>)
      returns (enable: seq<RowId>, delete: seq<RowId>, release: nat)
      requires forall r <- events :: r in store.db.rows && c.api(store.db.rows[r].app) == Some(subs)
      ensures release == SumReleases(store.db, c, events)
      ensures forall r :: r in enable <==> r in toEnable || (r in events && !IsFailed(store.db, c, r))
      ensures forall r :: r in delete <==> r in toDelete || (r in events && IsFailed(store.db, c, r) && c.aged(r))
    {
      enable, delete, release := toEnable, toDelete, 0;
      for j := 0 to |events|
        invariant release == SumReleases(store.db, c, events[..j])
        invariant forall r :: r in enable <==> r in toEnable || (r in events[..j] && !IsFailed(store.db, c, r))
        invariant forall r :: r in delete <==> r in toDelete || (r in events[..j] && IsFailed(store.db, c, r) && c.aged(r))
      {
        var r := events[j];
        assert events[..j + 1] == events[..j] + [r];
        SumReleasesAppend(store.db, c, events[..j], r);
        var sub := store.db.rows[r].sub;
        var apiSub := if sub.Some? && sub.value in subs then Some(subs[sub.value]) else None;
        var failed := apiSub.None? || apiSub.value.status.VerificationFailed?
          || apiSub.value.status.AuthorizationRevoked? || apiSub.value.status.UserRemoved?;
        assert apiSub == ApiSubOf(store.db, c, r);
        if failed {
          if c.aged(r) {
            release := release + if apiSub.Some? && apiSub.value.cost.Some? then apiSub.value.cost.value else 0;
            delete := delete + [r];
          }
        } else {
          enable := enable + [r];
        }
      }
      assert events[..|events|] == events;
    }

    /** The outer loop: None when a Twitch call fails. */
    method Partition(c: CronWorld, order: seq<RowId>)
      returns (lists: Option<(seq<RowId>, seq<RowId>)>, toRelease: map<AppId, nat>)
      requires forall r <- order :: r in store.db.rows
      ensures lists.Some? <==> ApiAnswers(store.db, c, order)
      ensures lists.Some? ==> forall r :: r in lists.value.0 <==> r in order && !IsFailed(store.db, c, r)
      ensures lists.Some? ==> forall r :: r in lists.value.1 <==> r in order && IsFailed(store.db, c, r) && c.aged(r)
      ensures lists.Some? ==> forall a :: Released(store.db, c, order, a) == if a in toRelease then toRelease[a] else 0
    {
      var grouped := GroupByApp(order);
      var toEnable: seq<RowId>, toDelete: seq<RowId> := [], [];
      toRelease := map[];
      var todo := grouped.Keys;
      ghost var done: set<AppId> := {};
      while todo != {}
        invariant todo <= grouped.Keys && done == grouped.Keys - todo
        invariant Sorted(store.db, c, order, done, toEnable, toDelete)
        invariant forall a <- done :: c.api(a).Some?
        invariant ReleasedSoFar(store.db, c, order, done, toRelease)
        decreases todo
      {
        var app :| app in todo;
        var answer := c.api(app);
        if answer.None? {
          AppFailed(store.db, c, order, app);
          return None, map[];
        }
        OnAppMembers(store.db, order, app);
        var release: nat;
        var enable, delete;
        enable, delete, release := SortApp(c, grouped[app], answer.value, toEnable, toDelete);
        SortedStep(store.db, c, order, done, app, toEnable, toDelete, enable, delete);
        toEnable, toDelete := enable, delete;
        ReleasedStep(store.db, c, order, done, app, toRelease, release);
        if release > 0 {
          toRelease := toRelease[app := release];
        }
        todo, done := todo - {app}, done + {app};
      }
      PartitionDone(store.db, c, order, grouped.Keys, toEnable, toDelete, toRelease);
      return Some((toEnable, toDelete)), toRelease;
    }

    method SyncStaleSubscriptions(c: CronWorld, stale: RowId -> bool, order: seq<RowId>)
      requires Lists(order, StaleRows(store.db, stale))
      modifies store
      ensures store.db == Cron(old(store.db), c, order)
    {
      var lists, toRelease := Partition(c, order);
      if lists.None? { return; }
      WritesAreCron(store.db, c, order, lists.value.0, lists.value.1, toRelease);
      SetStatuses(lists.value.0, Verified);
      SetStatuses(lists.value.1, Revoked);
      ReleaseAll(toRelease);
    }

    method SetStatuses(rows: seq<RowId>, status: EventStatus)
      modifies store
      ensures store.db == WithStatuses(old(store.db), rows, status)
    {
      store.db := store.db.(rows := map r | r in store.db.rows ::
        if r in rows then store.db.rows[r].(status := status) else store.db.rows[r]);
    }

    method ReleaseAll(toRelease: map<AppId, nat>)
      modifies store
      ensures store.db == WithReleases(old(store.db), toRelease)
    {
      var todo := toRelease.Keys;
      while todo != {}
        invariant todo <= toRelease.Keys
        invariant store.db == old(store.db).(apps := store.db.apps)
        invariant store.db.apps.Keys == old(store.db.apps).Keys
        invariant forall a <- store.db.apps :: (store.db.apps[a] ==
          old(store.db.apps)[a].(currentCost := old(store.db.apps)[a].currentCost
            - if a in toRelease && a !in todo then toRelease[a] else 0))
        decreases todo
      {
        var app :| app in todo;
        store.ReleaseAppCost(app, toRelease[app]);
        todo := todo - {app};
      }
    }
  }
}
