/** What the subscription operations leave behind, row by row and in terms of the tables, Twitch's
    answers and the streamer's flags alone. */
module Outcomes {
  import opened Wrappers
  import opened SubscriptionDb
  import opened Ledger
  import opened References

  // ---------------------------------------------------------------- registering

  /** The app for a broadcaster: one of a subscription of the streamer that is not on an internal
      app, if that one has room; otherwise an active app with room that no other active app with
      room undercuts; and none only if no active app has room. */
  lemma ChosenAppOutcome(db: Db, w: World, s: StreamerId)
    requires ValidWorld(w) && RowsInRange(db)
    ensures match AppForBroadcaster(db, w, s)
      case None => forall a <- db.apps :: db.apps[a].status == Active ==> db.apps[a].currentCost >= db.apps[a].maxCost
      case Some(a) =>
        && a in db.apps && db.apps[a].currentCost < db.apps[a].maxCost && db.apps[a].status != Internal
        && ((exists r <- db.rows :: db.rows[r].streamer == s && db.rows[r].app == a)
            || (db.apps[a].status == Active && forall b <- db.apps ::
                  db.apps[b].status == Active && db.apps[b].currentCost < db.apps[b].maxCost ==>
                    db.apps[a].currentCost <= db.apps[b].currentCost))
  {
    AppHasNoInternal(db, w, s);
    if SharedRows(db, s) != {} {
      assert w.chooseRow(SharedRows(db, s)) in SharedRows(db, s);
    }
    LeastLoadedOutcome(db, w, db.nextRow);
  }

  /** The row of a streamer on an app that is not internal and has room. */
  predicate RoomAt(db: Db, s: StreamerId, r: RowId) {
    r in db.rows && db.rows[r].streamer == s && db.rows[r].app in db.apps
    && db.apps[db.rows[r].app].status != Internal && db.apps[db.rows[r].app].currentCost < db.apps[db.rows[r].app].maxCost
  }

  /** The streamer's own app comes first: when every app that is not internal and carries a row of
      the streamer has room, one of them is chosen; when none has, the least loaded one is. */
  lemma OwnAppFirst(db: Db, w: World, s: StreamerId)
    requires ValidWorld(w) && RowsInRange(db)
    ensures (exists r <- db.rows :: RoomAt(db, s, r))
      && (forall r <- db.rows :: db.rows[r].streamer == s && db.apps[db.rows[r].app].status != Internal ==> RoomAt(db, s, r))
      ==> exists r <- db.rows :: RoomAt(db, s, r) && AppForBroadcaster(db, w, s) == Some(db.rows[r].app)
    ensures (forall r <- db.rows :: !RoomAt(db, s, r)) ==> AppForBroadcaster(db, w, s) == FindLeastLoaded(db, w, db.nextRow)
  {
    var shared := SharedRows(db, s);
    forall r <- db.rows ensures r in shared <==> db.rows[r].streamer == s && db.apps[db.rows[r].app].status != Internal {}
    if shared != {} {
      assert w.chooseRow(shared) in shared;
    }
  }

  /** The least loaded app: active, with room, and undercut by none; none only if all are full. */
  lemma LeastLoadedOutcome(db: Db, w: World, r: RowId)
    requires ValidWorld(w)
    ensures match FindLeastLoaded(db, w, r)
      case None => forall a <- db.apps :: db.apps[a].status == Active ==> db.apps[a].currentCost >= db.apps[a].maxCost
      case Some(a) =>
        && a in db.apps && db.apps[a].status == Active && db.apps[a].currentCost < db.apps[a].maxCost
        && forall b <- db.apps :: (db.apps[b].status == Active && db.apps[b].currentCost < db.apps[b].maxCost ==>
             db.apps[a].currentCost <= db.apps[b].currentCost)
  {
    if LeastLoaded(db) == {} {
      NoCandidates(db, Candidates(db));
    } else {
      assert w.chooseApp(r, LeastLoaded(db)) in LeastLoaded(db);
    }
  }

  /** A non-empty set of apps has one of least cost. */
  lemma {:induction false} LeastExists(db: Db, S: set<AppId>) returns (least: AppId)
    requires S != {} && forall a <- S :: a in db.apps
    ensures least in S && forall b <- S :: db.apps[least].currentCost <= db.apps[b].currentCost
    decreases |S|
  {
    var a :| a in S;
    least := a;
    if S != {a} {
      var b := LeastExists(db, S - {a});
      if db.apps[b].currentCost < db.apps[a].currentCost { least := b; }
      assert forall x <- S :: x == a || x in S - {a};
    }
  }

  lemma LeastIsLoaded(db: Db, a: AppId)
    requires a in Candidates(db) && forall b <- Candidates(db) :: db.apps[a].currentCost <= db.apps[b].currentCost
    ensures a in LeastLoaded(db)
  {
  }

  lemma NoCandidates(db: Db, S: set<AppId>)
    requires S == Candidates(db) && LeastLoaded(db) == {}
    ensures forall a <- db.apps :: db.apps[a].status == Active ==> db.apps[a].currentCost >= db.apps[a].maxCost
  {
    if S != {} {
      var a := LeastExists(db, S);
      LeastIsLoaded(db, a);
    }
    forall a <- db.apps | db.apps[a].status == Active ensures db.apps[a].currentCost >= db.apps[a].maxCost {
      assert a !in S;
    }
  }

  /** A registration with an app token. */
  predicate ByAppToken(db: Db, db': Db, w: World, s: StreamerId, e: EventType, result: RegisterResult) {
    match result
    case Registered(r) =>
      && r !in db.rows && r in db'.rows && w.reply(r).Accepted? && db'.rows[r].app in db.apps
      && var app := db'.rows[r].app; var cost := if w.reply(r).cost.Some? then w.reply(r).cost.value else 1;
        && db.apps[app].status != Internal && db.apps[app].currentCost < db.apps[app].maxCost
        && db'.rows == db.rows[r := Row(s, e, app, cost, Some(db.nextSub), Pending)]
        && db'.remote == db.remote[db.nextSub := app] && db'.nextSub == db.nextSub + 1
        && db'.apps == db.apps[app := db.apps[app].(currentCost := db.apps[app].currentCost + cost)]
    case Rejected(app) =>
      && app in db.apps && db.apps[app].status != Internal && db.apps[app].currentCost < db.apps[app].maxCost
      && db'.remote == db.remote && db'.apps == db.apps
      && db.nextRow < db'.nextRow && db'.nextRow - 1 !in db.rows && w.reply(db'.nextRow - 1).Refused?
      && db'.rows == db.rows[db'.nextRow - 1 := Row(s, e, app, 1, None, Pending)]
    case NoApp =>
      && db'.rows == db.rows && db'.remote == db.remote && db'.apps == db.apps
      && forall a <- db.apps :: db.apps[a].status == Active ==> db.apps[a].currentCost >= db.apps[a].maxCost
    case _ => false
  }

  /** A registration with the streamer's own authorization. */
  predicate ByUserToken(db: Db, db': Db, w: World, s: StreamerId, e: EventType, result: RegisterResult) {
    && result.Registered? && result.row == db.nextRow && db.nextRow in db'.rows && w.reply(db.nextRow).Accepted?
    && db'.rows[db.nextRow].app in db.apps && db.apps[db'.rows[db.nextRow].app].status == Internal
    && db'.rows == db.rows[db.nextRow := Row(s, e, db'.rows[db.nextRow].app, 0, Some(db.nextSub), Pending)]
    && db'.remote == db.remote[db.nextSub := db'.rows[db.nextRow].app] && db'.nextSub == db.nextSub + 1
    && db'.apps == db.apps
  }

  lemma AppTokenOutcome(db: Db, w: World, s: StreamerId, e: EventType)
    requires ValidWorld(w) && RowsInRange(db)
    ensures ByAppToken(db, RegisterWithAppToken(db, w, s, e).0, w, s, e, RegisterWithAppToken(db, w, s, e).1)
  {
    ChosenAppOutcome(db, w, s);
  }

  lemma UserTokenOutcome(db: Db, w: World, s: StreamerId, e: EventType)
    requires ValidWorld(w) && RowsInRange(db)
    ensures var (db', row) := RegisterWithUserToken(db, w, s, e);
      var accepted := w.userToken && (exists a <- db.apps :: db.apps[a].status == Internal) && w.reply(db.nextRow).Accepted?;
      && (accepted ==> row.Some? && ByUserToken(db, db', w, s, e, Registered(row.value)))
      && (!accepted ==> row.None? && OnlyNextRow(db, db'))
      && db'.notes == db.notes && db'.nextNote == db.nextNote && db'.streamers == db.streamers
  {
    if exists a <- db.apps :: db.apps[a].status == Internal {
      var a :| a in db.apps && db.apps[a].status == Internal;
      assert a in InternalApps(db);
      assert w.chooseInternal(InternalApps(db)) in InternalApps(db);
    } else {
      assert InternalApps(db) == {};
    }
  }

  /** At most the counters of row ids and the streamers differ. */
  predicate OnlyNextRow(db: Db, db': Db) {
    && db'.rows == db.rows && db'.remote == db.remote && db'.apps == db.apps && db'.nextSub == db.nextSub
    && db'.notes == db.notes && db'.nextNote == db.nextNote && db.nextRow <= db'.nextRow
  }

  lemma AppTokenFrom(db: Db, db1: Db, db': Db, w: World, s: StreamerId, e: EventType, result: RegisterResult)
    requires OnlyNextRow(db, db1) && ByAppToken(db1, db', w, s, e, result)
    ensures ByAppToken(db, db', w, s, e, result)
  {
  }

  lemma AppTokenKeepsNotes(db: Db, w: World, s: StreamerId, e: EventType)
    ensures var db' := RegisterWithAppToken(db, w, s, e).0;
      db'.notes == db.notes && db'.nextNote == db.nextNote && db'.streamers == db.streamers
  {
  }

  lemma EitherOutcome(db: Db, w: World, s: StreamerId, e: EventType)
    requires ValidWorld(w) && RowsInRange(db)
    ensures var (db', result) := RegisterEither(db, w, s, e);
      && db'.notes == db.notes && db'.nextNote == db.nextNote && db'.streamers == db.streamers
      && (if s in db.streamers && db.streamers[s].linked && db.streamers[s].allowPersonal && w.userToken
             && (exists a <- db.apps :: db.apps[a].status == Internal) && w.reply(db.nextRow).Accepted?
          then ByUserToken(db, db', w, s, e, result)
          else ByAppToken(db, db', w, s, e, result))
  {
    var (db1, row) := RegisterWithUserToken(db, w, s, e);
    UserTokenOutcome(db, w, s, e);
    AppTokenOutcome(db, w, s, e);
    AppTokenKeepsNotes(db, w, s, e);
    if row.None? {
      AppTokenOutcome(db1, w, s, e);
      AppTokenKeepsNotes(db1, w, s, e);
      AppTokenFrom(db, db1, RegisterWithAppToken(db1, w, s, e).0, w, s, e, RegisterWithAppToken(db1, w, s, e).1);
    }
  }

  /** Without a row for the pair, a linked streamer who allows it, with a usable user token and
      an internal app, is registered there for free if Twitch accepts; in every other case the
      registration goes by an app token. A streamer who is not known yet is added first. */
  lemma RegisterOutcome(db: Db, w: World, s: StreamerId, e: EventType)
    requires ValidWorld(w) && RowsInRange(db) && w.streamerFound
    requires forall r <- db.rows :: !(db.rows[r].streamer == s && db.rows[r].event == e)
    ensures var (db', result) := Register(db, w, s, e);
      && db'.notes == db.notes && db'.nextNote == db.nextNote
      && db'.streamers == (if s in db.streamers then db.streamers else db.streamers[s := Streamer(false, true)])
      && (if s in db.streamers && db.streamers[s].linked && db.streamers[s].allowPersonal && w.userToken
             && (exists a <- db.apps :: db.apps[a].status == Internal) && w.reply(db.nextRow).Accepted?
          then ByUserToken(db, db', w, s, e, result)
          else ByAppToken(db, db', w, s, e, result))
  {
    var db1 := WithStreamer(db, s);
    assert RowsOf(db1, s, e) == {};
    EitherOutcome(db1, w, s, e);
    if ByAppToken(db1, Register(db, w, s, e).0, w, s, e, Register(db, w, s, e).1) {
      AppTokenFrom(db, db1, Register(db, w, s, e).0, w, s, e, Register(db, w, s, e).1);
    }
  }

  /** With a row for the pair, or for a streamer Twitch does not know, nothing is registered. */
  lemma NothingRegistered(db: Db, w: World, s: StreamerId, e: EventType)
    requires ValidWorld(w)
    requires !w.streamerFound || exists r <- db.rows :: db.rows[r].streamer == s && db.rows[r].event == e
    ensures var (db', result) := Register(db, w, s, e);
      && db'.rows == db.rows && db'.remote == db.remote && db'.apps == db.apps && db'.notes == db.notes
      && !result.Registered? && !result.Rejected? && (result.NoSuchStreamer? <==> !w.streamerFound)
  {
    if w.streamerFound {
      var r :| r in db.rows && db.rows[r].streamer == s && db.rows[r].event == e;
      assert r in RowsOf(WithStreamer(db, s), s, e);
    }
  }

  /** The existing event of a known streamer is returned and nothing changes. */
  lemma ExistingEventOutcome(db: Db, w: World, s: StreamerId, e: EventType)
    requires ValidWorld(w) && s in db.streamers
    requires exists r <- db.rows :: db.rows[r].streamer == s && db.rows[r].event == e
    ensures var (db', result) := GetOrCreateEvent(db, w, s, e);
      && db' == db && result.Registered? && result.row in db.rows
      && db.rows[result.row].streamer == s && db.rows[result.row].event == e
  {
    var r :| r in db.rows && db.rows[r].streamer == s && db.rows[r].event == e;
    assert r in RowsOf(db, s, e);
    assert w.chooseRow(RowsOf(db, s, e)) in RowsOf(db, s, e);
  }

  predicate IsEventOf(db: Db, r: RowId, s: StreamerId, e: EventType) {
    r in db.rows && db.rows[r].streamer == s && db.rows[r].event == e
  }

  /** A creation saves one active notification for its event exactly when there is an event and
      the payload and the charge go through. */
  lemma CreateNoteOutcome(db: Db, w: World, s: StreamerId, e: EventType, kind: Kind, funding: Funding, funded: bool)
    requires ValidWorld(w) && RowsInRange(db)
    ensures var (db1, result) := GetOrCreateEvent(db, w, s, e); var db' := CreateNote(db, w, s, e, kind, funding, funded);
      && db'.rows == db1.rows && db'.apps == db1.apps && db'.remote == db1.remote
      && (result.Registered? && funded ==> db'.notes == db.notes[db.nextNote := Note(kind, result.row, funding, false)])
      && (!(result.Registered? && funded) ==> db'.notes == db.notes)
      && (result.Registered? ==> IsEventOf(db', result.row, s, e))
  {
    if s in db.streamers && exists r <- db.rows :: db.rows[r].streamer == s && db.rows[r].event == e {
      ExistingEventOutcome(db, w, s, e);
    } else {
      assert s in db.streamers ==> RowsOf(db, s, e) == {};
      if w.streamerFound && forall r <- db.rows :: !(db.rows[r].streamer == s && db.rows[r].event == e) {
        RegisterOutcome(db, w, s, e);
      } else {
        NothingRegistered(db, w, s, e);
      }
    }
  }

  // ---------------------------------------------------------------- migrating

  /** The rows outside the list, and all notifications, are as before. */
  predicate OnlyRowsOf(db: Db, db': Db, order: seq<RowId>) {
    && db'.notes == db.notes && db'.streamers == db.streamers && db'.rows.Keys == db.rows.Keys
    && forall q <- db.rows :: q !in order ==> db'.rows[q] == db.rows[q]
  }

  /** The row moved to the app, at no cost, pending, under a subscription made since. */
  predicate MovedTo(db: Db, db': Db, r: RowId, app: AppId) {
    && r in db.rows && r in db'.rows && db'.rows[r].sub.Some? && db.nextSub <= db'.rows[r].sub.value < db'.nextSub
    && db'.rows[r] == Row(db.rows[r].streamer, db.rows[r].event, app, 0, db'.rows[r].sub, Pending)
  }

  lemma {:induction false} MigrateRowsOutcome(db: Db, w: World, internal: AppId, order: seq<RowId>)
    requires forall i, j :: 0 <= i < j < |order| ==> order[i] != order[j]
    ensures var db' := MigrateRows(db, w, internal, order);
      && OnlyRowsOf(db, db', order) && db'.nextSub >= db.nextSub
      && (forall r <- order :: r in db.rows ==>
            if w.reply(r).Accepted? then MovedTo(db, db', r, internal) else db'.rows[r] == db.rows[r])
    decreases |order|
  {
    if order != [] {
      var db1 := MigrateRow(db, w, internal, order[0]);
      assert forall r <- order[1..] :: r != order[0];
      MigrateRowsOutcome(db1, w, internal, order[1..]);
      assert forall r <- order :: r == order[0] || r in order[1..];
      assert order[0] !in order[1..];
    }
  }

  /** A migration runs exactly for a known streamer who allows personal subscriptions, with a
      usable user token and an internal app. Then each row of the streamer on another app ends on
      one internal app, free of charge, pending, under a new subscription, if Twitch accepts it,
      and is untouched if Twitch refuses; no other row and no notification changes. */
  lemma MigrateOutcome(db: Db, w: World, s: StreamerId, order: seq<RowId>)
    requires Possible(db, OpMigrate(s, w, order))
    ensures var db' := Migrate(db, w, s, order);
      if s in db.streamers && db.streamers[s].allowPersonal && w.userToken && (exists a <- db.apps :: db.apps[a].status == Internal)
      then exists internal <- db.apps :: db.apps[internal].status == Internal && MigratedTo(db, db', w, s, internal)
      else db' == db
  {
    if CanMigrate(db, w, s) {
      var internal := w.chooseInternal(InternalApps(db));
      assert internal in InternalApps(db);
      MigrateRowsOutcome(db, w, internal, order);
      assert MigratedTo(db, Migrate(db, w, s, order), w, s, internal);
    } else if exists a <- db.apps :: db.apps[a].status == Internal {
      var a :| a in db.apps && db.apps[a].status == Internal;
      assert a in InternalApps(db);
    }
  }

  predicate MigratedTo(db: Db, db': Db, w: World, s: StreamerId, internal: AppId) {
    && db'.notes == db.notes && db'.streamers == db.streamers && db'.rows.Keys == db.rows.Keys
    && forall r <- db.rows ::
         (if db.rows[r].streamer == s && db.rows[r].app != internal && w.reply(r).Accepted?
          then MovedTo(db, db', r, internal) else db'.rows[r] == db.rows[r])
  }

  // ---------------------------------------------------------------- downgrading

  /** The row moved to an active app with the cost Twitch reports, pending, under a new
      subscription. */
  predicate MovedOut(db: Db, db': Db, w: World, r: RowId) {
    && r in db.rows && r in db'.rows && w.reply(r).Accepted?
    && db'.rows[r].app in db.apps && db.apps[db'.rows[r].app].status == Active
    && db'.rows[r].sub.Some? && db'.rows[r].sub.value >= db.nextSub
    && db'.rows[r] == Row(db.rows[r].streamer, db.rows[r].event, db'.rows[r].app,
                          if w.reply(r).cost.Some? then w.reply(r).cost.value else 1, db'.rows[r].sub, Pending)
  }

  lemma DowngradeTurnCost(db: Db, w: World, r: RowId)
    requires ValidWorld(w) && r in db.rows && NonCredit(db, r) && LeastLoaded(db) != {} && w.reply(r).Accepted?
    ensures MovedOut(db, DowngradeRow(db, w, r), w, r)
  {
    assert w.chooseApp(r, LeastLoaded(db)) in LeastLoaded(db);
  }

  /** A downgrade runs exactly when there is an internal app. Then for each listed row: if all its
      notifications are funded by credit it is deactivated and they are suspended; otherwise, if
      some active app has room at its turn and Twitch accepts, it moves there; otherwise it is
      untouched. */
  lemma DowngradeOutcomeOf(db: Db, w: World, order: seq<RowId>, i: nat)
    requires ValidWorld(w)
    requires forall j, k :: 0 <= j < k < |order| ==> order[j] != order[k]
    requires i < |order| && order[i] in db.rows && exists a <- db.apps :: db.apps[a].status == Internal
    ensures var r := order[i]; var turn := DowngradeRows(db, w, order[..i]); var db' := Downgrade(db, w, order);
      var paid := exists n <- db.notes :: db.notes[n].row == r && db.notes[n].funding != Credit;
      var room := exists a <- turn.apps :: turn.apps[a].status == Active && turn.apps[a].currentCost < turn.apps[a].maxCost;
      if !paid then
        && r in db'.rows && db'.rows[r] == db.rows[r].(status := Deactivated)
        && forall n <- db.notes :: n in db'.notes && (db.notes[n].row == r ==> db'.notes[n] == db.notes[n].(suspended := true))
      else if room && w.reply(r).Accepted? then
        MovedOut(db, db', w, r) && forall n <- db.notes :: n in db'.notes && (db.notes[n].row == r ==> db'.notes[n] == db.notes[n])
      else SameRow(db, db', r)
  {
    var r := order[i];
    var turn := DowngradeRows(db, w, order[..i]);
    var a :| a in db.apps && db.apps[a].status == Internal;
    assert a in InternalApps(db);
    LeastLoadedOutcome(turn, w, r);
    DowngradeOutcome(db, w, order, i);
    if NonCredit(db, r) && LeastLoaded(turn) != {} && w.reply(r).Accepted? {
      MovedCost(db, w, order, i);
    }
  }

  lemma MovedCost(db: Db, w: World, order: seq<RowId>, i: nat)
    requires ValidWorld(w)
    requires forall j, k :: 0 <= j < k < |order| ==> order[j] != order[k]
    requires i < |order| && order[i] in db.rows && NonCredit(db, order[i]) && w.reply(order[i]).Accepted?
    requires LeastLoaded(DowngradeRows(db, w, order[..i])) != {}
    ensures MovedOut(db, DowngradeRows(db, w, order), w, order[i])
  {
    var r := order[i];
    var turn := DowngradeRows(db, w, order[..i]);
    var done := DowngradeRow(turn, w, r);
    assert order == order[..i] + order[i..] && order[i..][1..] == order[i + 1..] && order[i..][0] == r;
    DowngradeSplits(db, w, order[..i], order[i..]);
    DowngradeLeavesOthers(db, w, order[..i], r);
    DowngradeLeavesOthers(done, w, order[i + 1..], r);
    DowngradeKeepsApps(db, w, order[..i]);
    DowngradeTurnCost(turn, w, r);
  }

  /** Exactly the rows of the streamer on the internal app are listed, and any other row keeps its
      state and its notifications. */
  lemma DowngradeTouches(db: Db, w: World, s: StreamerId, order: seq<RowId>, internal: AppId, q: RowId)
    requires Possible(db, OpDowngrade(s, w, order)) && q in db.rows
    requires forall a :: a in db.apps && db.apps[a].status == Internal <==> a == internal
    ensures q in order <==> db.rows[q].streamer == s && db.rows[q].app == internal
    ensures q !in order ==> SameRow(db, Downgrade(db, w, order), q)
  {
    assert InternalApps(db) == {internal};
    assert w.chooseInternal(InternalApps(db)) in InternalApps(db);
    if q !in order {
      DowngradeLeavesOthers(db, w, order, q);
    }
  }

  /** Without an internal app a downgrade does nothing. */
  lemma NothingDowngraded(db: Db, w: World, order: seq<RowId>)
    requires forall a <- db.apps :: db.apps[a].status != Internal
    ensures Downgrade(db, w, order) == db
  {
    assert InternalApps(db) == {};
  }

  // ---------------------------------------------------------------- the cron

  /** What Twitch reports about the row's subscription: none when it knows none. */
  predicate ReportedAs(db: Db, c: CronWorld, r: RowId, status: ApiStatus)
    requires r in db.rows
  {
    && db.rows[r].sub.Some? && c.api(db.rows[r].app).Some? && db.rows[r].sub.value in c.api(db.rows[r].app).value
    && c.api(db.rows[r].app).value[db.rows[r].sub.value].status == status
  }

  /** Twitch still serves the subscription or is about to. */
  predicate Serves(db: Db, c: CronWorld, r: RowId)
    requires r in db.rows
  {
    ReportedAs(db, c, r, Enabled) || ReportedAs(db, c, r, VerificationPending) || ReportedAs(db, c, r, OtherStatus)
  }

  /** The cost Twitch reports for a row of the app that is given up, and 0 for any other row. */
  function GivenUpCost(db: Db, c: CronWorld, r: RowId, a: AppId): nat {
    if r in db.rows && db.rows[r].app == a && c.aged(r)
      && (ReportedAs(db, c, r, VerificationFailed) || ReportedAs(db, c, r, AuthorizationRevoked) || ReportedAs(db, c, r, UserRemoved))
    then
      var cost := c.api(a).value[db.rows[r].sub.value].cost;
      if cost.Some? then cost.value else 0
    else 0
  }

  function GivenUpCosts(db: Db, c: CronWorld, order: seq<RowId>, a: AppId): nat {
    if order == [] then 0 else GivenUpCost(db, c, order[0], a) + GivenUpCosts(db, c, order[1..], a)
  }

  lemma {:induction false} ReleasedIsGivenUp(db: Db, c: CronWorld, order: seq<RowId>, a: AppId)
    ensures Released(db, c, order, a) == GivenUpCosts(db, c, order, a)
    decreases |order|
  {
    if order != [] {
      ReleasedIsGivenUp(db, c, order[1..], a);
      OneReleased(db, c, order[0], a);
      assert OnApp(db, order, a) == (if order[0] in db.rows && db.rows[order[0]].app == a then [order[0]] else []) + OnApp(db, order[1..], a);
      SumOfFirst(db, c, order[0], OnApp(db, order[1..], a));
      if !(order[0] in db.rows && db.rows[order[0]].app == a) {
        assert [] + OnApp(db, order[1..], a) == OnApp(db, order[1..], a);
      }
    }
  }

  lemma SumOfFirst(db: Db, c: CronWorld, r: RowId, rest: seq<RowId>)
    ensures SumReleases(db, c, [r] + rest) == ReleaseOf(db, c, r) + SumReleases(db, c, rest)
  {
    assert ([r] + rest)[1..] == rest;
  }

  lemma OneReleased(db: Db, c: CronWorld, r: RowId, a: AppId)
    ensures r in db.rows && db.rows[r].app == a ==> ReleaseOf(db, c, r) == GivenUpCost(db, c, r, a)
    ensures !(r in db.rows && db.rows[r].app == a) ==> GivenUpCost(db, c, r, a) == 0
  {
  }

  /** The cron touches exactly the pending rows that are stale. When Twitch answers for all their
      apps: a row Twitch serves is verified; one that failed verification, lost its authorization
      or its user, or is unknown to Twitch is revoked if it is aged and left alone if not; every
      app's counter drops by what Twitch reports as the cost of its rows given up. When Twitch
      fails for one app, nothing changes. */
  lemma CronOutcome(db: Db, c: CronWorld, stale: RowId -> bool, order: seq<RowId>)
    requires Lists(order, StaleRows(db, stale))
    ensures var db' := Cron(db, c, order);
      if forall r <- db.rows :: db.rows[r].status == Pending && stale(r) ==> c.api(db.rows[r].app).Some?
      then
        && db' == db.(rows := db'.rows, apps := db'.apps) && db'.rows.Keys == db.rows.Keys && db'.apps.Keys == db.apps.Keys
        && (forall r <- db.rows :: db'.rows[r] == (
              if !(db.rows[r].status == Pending && stale(r)) then db.rows[r]
              else if Serves(db, c, r) then db.rows[r].(status := Verified)
              else if c.aged(r) then db.rows[r].(status := Revoked)
              else db.rows[r]))
        && (forall a <- db.apps :: db'.apps[a] ==
              db.apps[a].(currentCost := db.apps[a].currentCost - GivenUpCosts(db, c, order, a)))
      else db' == db
  {
    var db' := Cron(db, c, order);
    assert ApiAnswers(db, c, order) <==>
      forall r <- db.rows :: db.rows[r].status == Pending && stale(r) ==> c.api(db.rows[r].app).Some? by {
      assert forall r <- db.rows :: (r in order <==> db.rows[r].status == Pending && stale(r));
    }
    if ApiAnswers(db, c, order) {
      forall r <- db.rows ensures db'.rows[r] == db.rows[r].(status := CronStatus(db, c, order, r)) {}
      forall r <- db.rows | r in order ensures IsFailed(db, c, r) <==> !Serves(db, c, r) {}
      forall a <- db.apps ensures db'.apps[a] == db.apps[a].(currentCost := db.apps[a].currentCost - GivenUpCosts(db, c, order, a)) {
        ReleasedIsGivenUp(db, c, order, a);
      }
    }
  }

  // ---------------------------------------------------------------- deleting and updating

  /** A deleted row takes its notifications and its charge with it, and its subscription when
      Twitch carries the delete out for the app that holds it. */
  lemma DeleteLocalOutcome(db: Db, w: World, r: RowId, x: SubId)
    requires RowsInRange(db) && r in db.rows
    ensures var db' := DeleteLocal(db, w, r); var row := db.rows[r];
      && db'.rows == db.rows - {r}
      && (forall n :: n in db'.notes <==> n in db.notes && db.notes[n].row != r)
      && (forall n <- db'.notes :: db'.notes[n] == db.notes[n])
      && db'.apps == db.apps[row.app := db.apps[row.app].(currentCost := db.apps[row.app].currentCost - row.cost)]
      && (x in db'.remote <==>
            x in db.remote && !(row.sub == Some(x) && db.remote[x] == row.app && w.deletes(x)))
      && (x in db'.remote ==> db'.remote[x] == db.remote[x])
  {
  }

  /** A subscription only Twitch knows goes exactly when no row carries it, the named app holds
      it and Twitch carries the delete out; no other subscription and no table changes. */
  lemma DeleteTwitchOnlyOutcome(db: Db, w: World, sub: SubId, app: AppId, x: SubId)
    ensures var db' := DeleteTwitchOnly(db, w, sub, app);
      var unknown := forall r <- db.rows :: db.rows[r].sub != Some(sub);
      && db' == db.(remote := db'.remote)
      && (x in db'.remote <==> x in db.remote && !(x == sub && unknown && db.remote[x] == app && w.deletes(x)))
      && (x in db'.remote ==> db'.remote[x] == db.remote[x])
  {
  }

  /** A status report writes the status of its row; an update of a notification writes its cost
      type and reactivates it; the flags of a streamer are written as given. Nothing else changes. */
  lemma SmallWrites(db: Db, r: RowId, status: EventStatus, n: NoteId, funding: Funding, s: StreamerId, linked: bool, allow: bool)
    requires r in db.rows && n in db.notes
    ensures Exec(db, OpStatus(r, status)) == db.(rows := db.rows[r := Row(db.rows[r].streamer, db.rows[r].event,
      db.rows[r].app, db.rows[r].cost, db.rows[r].sub, status)])
    ensures Exec(db, OpUpdateNote(n, funding)) == db.(notes := db.notes[n := Note(db.notes[n].kind, db.notes[n].row, funding, false)])
    ensures Exec(db, OpSetStreamer(s, linked, allow)) == db.(streamers := db.streamers[s := Streamer(linked, allow)])
  {
  }
}
