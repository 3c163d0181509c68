/** The cost ledger: each app's counter against the costs of its rows. */
module Ledger {
  import opened Wrappers
  import opened SubscriptionDb

  function Share(rows: map<RowId, Row>, a: AppId, r: RowId): nat {
    if r in rows && rows[r].app == a then rows[r].cost else 0
  }

  /** The costs of the app's rows with ids below `n`. */
  function SumCost(rows: map<RowId, Row>, a: AppId, n: RowId): nat {
    if n == 0 then 0 else SumCost(rows, a, n - 1) + Share(rows, a, n - 1)
  }

  predicate RowsInRange(db: Db) {
    forall r <- db.rows :: r < db.nextRow && db.rows[r].app in db.apps
  }

  /** How much the costs of the app's rows exceed its counter. */
  function Gap(db: Db, a: AppId): int
    requires a in db.apps
  {
    SumCost(db.rows, a, db.nextRow) - db.apps[a].currentCost
  }

  predicate InternalRowsAreFree(db: Db) {
    forall r <- db.rows :: db.rows[r].app in InternalApps(db) ==> db.rows[r].cost == 0
  }

  lemma {:induction false} SumOfSameShares(rows: map<RowId, Row>, rows': map<RowId, Row>, a: AppId, n: RowId)
    requires forall i: RowId :: i < n ==> Share(rows, a, i) == Share(rows', a, i)
    ensures SumCost(rows, a, n) == SumCost(rows', a, n)
  {
    if n > 0 {
      SumOfSameShares(rows, rows', a, n - 1);
    }
  }

  lemma {:induction false} SumOfOneChange(rows: map<RowId, Row>, rows': map<RowId, Row>, a: AppId, n: RowId, r: RowId)
    requires r < n
    requires forall i: RowId :: i != r ==> Share(rows, a, i) == Share(rows', a, i)
    ensures SumCost(rows', a, n) == SumCost(rows, a, n) - Share(rows, a, r) + Share(rows', a, r)
  {
    if n - 1 == r {
      SumOfSameShares(rows, rows', a, n - 1);
    } else {
      SumOfOneChange(rows, rows', a, n - 1, r);
    }
  }

  // ---------------------------------------------------------------- each operation

  /** An operation keeps the ids in range, the apps and their statuses, and moves the gap of
      every app by `drift(a)`. */
  ghost predicate MovesGapBy(db: Db, db': Db, drift: AppId -> int) {
    && RowsInRange(db')
    && db'.apps.Keys == db.apps.Keys
    && (forall a <- db.apps :: db'.apps[a].status == db.apps[a].status)
    && (forall a <- db.apps :: Gap(db', a) == Gap(db, a) + drift(a))
    && (InternalRowsAreFree(db) ==> InternalRowsAreFree(db'))
  }

  const NoDrift: AppId -> int := (a: AppId) => 0

  /** Adding, changing or removing one row, with the counters moved by the difference. */
  lemma OneRowChanges(db: Db, db': Db, r: RowId, drift: AppId -> int)
    requires RowsInRange(db) && RowsInRange(db')
    requires db.nextRow <= db'.nextRow <= db.nextRow + 1 && r < db'.nextRow
    requires forall i: RowId :: i != r ==> (i in db.rows <==> i in db'.rows) && (i in db.rows ==> db.rows[i] == db'.rows[i])
    requires db'.apps.Keys == db.apps.Keys
    requires forall a <- db.apps ::
      db'.apps[a] == db.apps[a].(currentCost :=
        db.apps[a].currentCost + Share(db'.rows, a, r) - Share(db.rows, a, r) - drift(a))
    requires r in db'.rows && db'.rows[r].app in InternalApps(db) ==> db'.rows[r].cost == 0
    ensures MovesGapBy(db, db', drift)
  {
    forall a <- db.apps ensures Gap(db', a) == Gap(db, a) + drift(a) {
      assert db.nextRow < db'.nextRow ==> Share(db.rows, a, db.nextRow) == 0;
      assert SumCost(db.rows, a, db'.nextRow) == SumCost(db.rows, a, db.nextRow);
      SumOfOneChange(db.rows, db'.rows, a, db'.nextRow, r);
    }
    assert InternalApps(db') == InternalApps(db);
  }

  lemma RowsUnchanged(db: Db, db': Db)
    requires RowsInRange(db) && db'.rows == db.rows && db'.apps == db.apps
    requires db.nextRow <= db'.nextRow <= db.nextRow + 1
    ensures MovesGapBy(db, db', NoDrift)
  {
    forall a <- db.apps ensures Gap(db', a) == Gap(db, a) {
      assert db.nextRow < db'.nextRow ==> Share(db.rows, a, db.nextRow) == 0;
    }
    assert InternalApps(db') == InternalApps(db);
  }

  lemma GapsAdd(db: Db, db1: Db, db2: Db, d1: AppId -> int, d2: AppId -> int, d: AppId -> int)
    requires MovesGapBy(db, db1, d1) && MovesGapBy(db1, db2, d2)
    requires forall a <- db.apps :: d(a) == d1(a) + d2(a)
    ensures MovesGapBy(db, db2, d)
  {
  }

  /** A rejected registration leaves a row of cost 1 that no counter knows about. */
  function RegisterDrift(result: RegisterResult): AppId -> int {
    (a: AppId) => if result == Rejected(a) then 1 else 0
  }

  lemma AppHasNoInternal(db: Db, w: World, s: StreamerId)
    requires ValidWorld(w) && RowsInRange(db)
    ensures AppForBroadcaster(db, w, s).Some? ==>
      AppForBroadcaster(db, w, s).value in db.apps && AppForBroadcaster(db, w, s).value !in InternalApps(db)
      && HasRoom(db.apps[AppForBroadcaster(db, w, s).value])
  {
    if SharedRows(db, s) != {} {
      assert w.chooseRow(SharedRows(db, s)) in SharedRows(db, s);
    }
    if LeastLoaded(db) != {} {
      assert w.chooseApp(db.nextRow, LeastLoaded(db)) in LeastLoaded(db);
    }
  }

  lemma RejectedLedger(db: Db, app: AppId, s: StreamerId, e: EventType)
    requires RowsInRange(db) && app in db.apps && app !in InternalApps(db)
    ensures var r := db.nextRow;
      MovesGapBy(db, db.(rows := db.rows[r := Row(s, e, app, 1, None, Pending)], nextRow := r + 1), RegisterDrift(Rejected(app)))
  {
    var r := db.nextRow;
    OneRowChanges(db, db.(rows := db.rows[r := Row(s, e, app, 1, None, Pending)], nextRow := r + 1), r, RegisterDrift(Rejected(app)));
  }

  lemma AcceptedLedger(db: Db, db': Db, app: AppId, row: Row)
    requires RowsInRange(db) && app in db.apps && app !in InternalApps(db) && row.app == app
    requires db'.rows == db.rows[db.nextRow := row] && db'.nextRow == db.nextRow + 1
    requires db'.apps == AddCost(db.apps, app, row.cost as int)
    ensures MovesGapBy(db, db', RegisterDrift(Registered(db.nextRow)))
  {
    OneRowChanges(db, db', db.nextRow, RegisterDrift(Registered(db.nextRow)));
  }

  lemma RegisterWithAppTokenLedger(db: Db, w: World, s: StreamerId, e: EventType)
    requires ValidWorld(w) && RowsInRange(db)
    ensures var (db', result) := RegisterWithAppToken(db, w, s, e); MovesGapBy(db, db', RegisterDrift(result))
  {
    AppHasNoInternal(db, w, s);
    var (db', result) := RegisterWithAppToken(db, w, s, e);
    match AppForBroadcaster(db, w, s)
    case None =>
      RowsUnchanged(db, db');
      GapsAdd(db, db', db', NoDrift, RegisterDrift(result), RegisterDrift(result));
    case Some(app) =>
      if w.reply(db.nextRow).Refused? {
        RejectedLedger(db, app, s, e);
      } else {
        AcceptedLedger(db, db', app, db'.rows[db.nextRow]);
      }
  }

  lemma RegisterWithUserTokenLedger(db: Db, w: World, s: StreamerId, e: EventType)
    requires ValidWorld(w) && RowsInRange(db)
    ensures MovesGapBy(db, RegisterWithUserToken(db, w, s, e).0, NoDrift)
  {
    var (db', row) := RegisterWithUserToken(db, w, s, e);
    if row.None? {
      RowsUnchanged(db, db');
    } else {
      assert w.chooseInternal(InternalApps(db)) in InternalApps(db);
      OneRowChanges(db, db', db.nextRow, NoDrift);
    }
  }

  lemma RegisterEitherLedger(db: Db, w: World, s: StreamerId, e: EventType)
    requires ValidWorld(w) && RowsInRange(db)
    ensures var (db', result) := RegisterEither(db, w, s, e); MovesGapBy(db, db', RegisterDrift(result))
  {
    var (db', result) := RegisterEither(db, w, s, e);
    var drift := RegisterDrift(result);
    if !IsPersonal(db, s) {
      RegisterWithAppTokenLedger(db, w, s, e);
    } else {
      var (db1, row) := RegisterWithUserToken(db, w, s, e);
      RegisterWithUserTokenLedger(db, w, s, e);
      if row.Some? {
        GapsAdd(db, db1, db1, NoDrift, NoDrift, drift) by { RowsUnchanged(db1, db1); }
      } else {
        RegisterWithAppTokenLedger(db1, w, s, e);
        GapsAdd(db, db1, db', NoDrift, drift, drift);
      }
    }
  }

  lemma RegisterLedger(db: Db, w: World, s: StreamerId, e: EventType)
    requires ValidWorld(w) && RowsInRange(db)
    ensures var (db', result) := Register(db, w, s, e); MovesGapBy(db, db', RegisterDrift(result))
  {
    var (db', result) := Register(db, w, s, e);
    var drift := RegisterDrift(result);
    var db1 := WithStreamer(db, s);
    RowsUnchanged(db, db1);
    if w.streamerFound && RowsOf(db1, s, e) == {} {
      RegisterEitherLedger(db1, w, s, e);
      GapsAdd(db, db1, db', NoDrift, drift, drift);
    } else {
      RowsUnchanged(db, db');
      RowsUnchanged(db', db');
      GapsAdd(db, db', db', NoDrift, NoDrift, drift);
    }
  }

  lemma GetOrCreateLedger(db: Db, w: World, s: StreamerId, e: EventType)
    requires ValidWorld(w) && RowsInRange(db)
    ensures var (db', result) := GetOrCreateEvent(db, w, s, e); MovesGapBy(db, db', RegisterDrift(result))
  {
    RegisterLedger(db, w, s, e);
    RowsUnchanged(db, db);
    var (db', result) := GetOrCreateEvent(db, w, s, e);
    if s in db.streamers && RowsOf(db, s, e) != {} {
      GapsAdd(db, db, db', NoDrift, NoDrift, RegisterDrift(result));
    }
  }

  lemma MigrateRowLedger(db: Db, w: World, internal: AppId, r: RowId)
    requires RowsInRange(db) && internal in InternalApps(db)
    requires r in db.rows ==> db.rows[r].app != internal
    ensures MovesGapBy(db, MigrateRow(db, w, internal, r), NoDrift)
  {
    var db' := MigrateRow(db, w, internal, r);
    if r !in db.rows || w.reply(r).Refused? {
      RowsUnchanged(db, db');
    } else {
      OneRowChanges(db, db', r, NoDrift);
    }
  }

  lemma {:induction false} MigrateRowsLedger(db: Db, w: World, internal: AppId, order: seq<RowId>)
    requires RowsInRange(db) && internal in InternalApps(db)
    requires forall i, j :: 0 <= i < j < |order| ==> order[i] != order[j]
    requires forall r <- order :: r in db.rows ==> db.rows[r].app != internal
    ensures MovesGapBy(db, MigrateRows(db, w, internal, order), NoDrift)
    decreases |order|
  {
    if order == [] {
      RowsUnchanged(db, db);
    } else {
      var db1 := MigrateRow(db, w, internal, order[0]);
      MigrateRowLedger(db, w, internal, order[0]);
      assert InternalApps(db1) == InternalApps(db);
      assert forall r <- order[1..] :: r != order[0];
      MigrateRowsLedger(db1, w, internal, order[1..]);
      GapsAdd(db, db1, MigrateRows(db, w, internal, order), NoDrift, NoDrift, NoDrift);
    }
  }

  lemma DowngradeRowLedger(db: Db, w: World, r: RowId)
    requires ValidWorld(w) && RowsInRange(db)
    requires r in db.rows ==> db.rows[r].cost == 0
    ensures MovesGapBy(db, DowngradeRow(db, w, r), NoDrift)
  {
    var db' := DowngradeRow(db, w, r);
    if LeastLoaded(db) != {} {
      assert w.chooseApp(r, LeastLoaded(db)) in LeastLoaded(db);
    }
    if db' == db {
      RowsUnchanged(db, db');
    } else {
      OneRowChanges(db, db', r, NoDrift);
    }
  }

  lemma {:induction false} DowngradeRowsLedger(db: Db, w: World, order: seq<RowId>)
    requires ValidWorld(w) && RowsInRange(db)
    requires forall i, j :: 0 <= i < j < |order| ==> order[i] != order[j]
    requires forall r <- order :: r in db.rows ==> db.rows[r].cost == 0
    ensures MovesGapBy(db, DowngradeRows(db, w, order), NoDrift)
    decreases |order|
  {
    if order == [] {
      RowsUnchanged(db, db);
    } else {
      var db1 := DowngradeRow(db, w, order[0]);
      DowngradeRowLedger(db, w, order[0]);
      assert forall r <- order[1..] :: r != order[0];
      DowngradeRowsLedger(db1, w, order[1..]);
      GapsAdd(db, db1, DowngradeRows(db, w, order), NoDrift, NoDrift, NoDrift);
    }
  }

  lemma DeleteLocalLedger(db: Db, w: World, r: RowId)
    requires RowsInRange(db)
    ensures MovesGapBy(db, DeleteLocal(db, w, r), NoDrift)
  {
    if r in db.rows {
      OneRowChanges(db, DeleteLocal(db, w, r), r, NoDrift);
    } else {
      RowsUnchanged(db, db);
    }
  }

  function CronDrift(db: Db, c: CronWorld, order: seq<RowId>): AppId -> int {
    (a: AppId) => if ApiAnswers(db, c, order) then Released(db, c, order, a) else 0
  }

  lemma CronSum(db: Db, c: CronWorld, order: seq<RowId>, a: AppId)
    ensures var db' := Cron(db, c, order); SumCost(db'.rows, a, db'.nextRow) == SumCost(db.rows, a, db.nextRow)
  {
    SumOfSameShares(db.rows, Cron(db, c, order).rows, a, db.nextRow);
  }

  lemma CronLedger(db: Db, c: CronWorld, order: seq<RowId>)
    requires RowsInRange(db)
    ensures MovesGapBy(db, Cron(db, c, order), CronDrift(db, c, order))
  {
    var db' := Cron(db, c, order);
    forall a <- db.apps ensures Gap(db', a) == Gap(db, a) + CronDrift(db, c, order)(a) {
      CronSum(db, c, order, a);
    }
    assert InternalApps(db') == InternalApps(db);
  }

  // ---------------------------------------------------------------- every run

  /** The two events that separate an app's counter from the costs of its rows. */
  function Drift(db: Db, op: Op): AppId -> int {
    match op
    case OpRegister(s, e, w) => RegisterDrift(Register(db, w, s, e).1)
    case OpCreateNote(s, e, _, _, _, w) => RegisterDrift(GetOrCreateEvent(db, w, s, e).1)
    case OpCron(c, stale, order) => CronDrift(db, c, order)
    case _ => NoDrift
  }

  lemma OpLedger(db: Db, op: Op)
    requires Possible(db, op) && RowsInRange(db) && InternalRowsAreFree(db)
    ensures MovesGapBy(db, Exec(db, op), Drift(db, op))
  {
    RowsUnchanged(db, db);
    match op
    case OpRegister(s, e, w) => RegisterLedger(db, w, s, e);
    case OpMigrate(s, w, order) =>
      if CanMigrate(db, w, s) {
        var internal := FindInternalApp(db, w).value;
        MigrateRowsLedger(db, w, internal, order);
      }
    case OpDowngrade(s, w, order) =>
      if FindInternalApp(db, w).Some? {
        DowngradeRowsLedger(db, w, order);
      }
    case OpDeleteLocal(r, w) => DeleteLocalLedger(db, w, r);
    case OpDeleteTwitchOnly(sub, app, w) => RowsUnchanged(db, Exec(db, op));
    case OpStatus(r, status) =>
      if r in db.rows {
        OneRowChanges(db, Exec(db, op), r, NoDrift);
      }
    case OpCron(c, stale, order) => CronLedger(db, c, order);
    case OpUpdateNote(_, _) => RowsUnchanged(db, Exec(db, op));
    case OpSetStreamer(_, _, _) => RowsUnchanged(db, Exec(db, op));
    case OpCreateNote(s, e, kind, funding, funded, w) =>
      var (db1, result) := GetOrCreateEvent(db, w, s, e);
      GetOrCreateLedger(db, w, s, e);
      RowsUnchanged(db1, Exec(db, op));
      GapsAdd(db, db1, Exec(db, op), RegisterDrift(result), NoDrift, RegisterDrift(result));
    case OpDeleteNote(n, w) =>
      if n in db.notes {
        var db1 := db.(notes := db.notes - {n});
        RowsUnchanged(db, db1);
        RowsUnchanged(db1, db1);
        DeleteLocalLedger(db1, w, db.notes[n].row);
        GapsAdd(db, db1, Exec(db, op), NoDrift, NoDrift, NoDrift);
      }
  }

  function TotalDrift(db: Db, ops: seq<Op>, a: AppId): int
    decreases |ops|
  {
    if ops == [] then 0 else Drift(db, ops[0])(a) + TotalDrift(Exec(db, ops[0]), ops[1..], a)
  }

  /** The exact ledger over every run: an app's counter is the cost of its rows minus a drift
      that grows only at a rejected app-token registration and at a cron release; rows on an
      internal app always cost nothing. */
  lemma {:induction false} LedgerOverRuns(db: Db, ops: seq<Op>)
    requires PossibleRun(db, ops) && RowsInRange(db) && InternalRowsAreFree(db)
    ensures var db' := Run(db, ops);
      && RowsInRange(db') && InternalRowsAreFree(db') && db'.apps.Keys == db.apps.Keys
      && forall a <- db.apps :: Gap(db', a) == Gap(db, a) + TotalDrift(db, ops, a)
    decreases |ops|
  {
    if ops != [] {
      OpLedger(db, ops[0]);
      LedgerOverRuns(Exec(db, ops[0]), ops[1..]);
    }
  }

  /** The drift never shrinks, and stays put exactly when neither event touches the app. */
  lemma {:induction false} DriftOnlyGrows(db: Db, ops: seq<Op>, a: AppId)
    ensures TotalDrift(db, ops, a) >= 0
    ensures TotalDrift(db, ops, a) == 0 <==> DriftFree(db, ops, a)
    decreases |ops|
  {
    if ops != [] {
      DriftOnlyGrows(Exec(db, ops[0]), ops[1..], a);
    }
  }

  /** No registration on the app was rejected and the cron released nothing for it. */
  predicate DriftFree(db: Db, ops: seq<Op>, a: AppId)
    decreases |ops|
  {
    ops != [] ==>
      && (match ops[0]
          case OpRegister(s, e, w) => Register(db, w, s, e).1 != Rejected(a)
          case OpCreateNote(s, e, _, _, _, w) => GetOrCreateEvent(db, w, s, e).1 != Rejected(a)
          case OpCron(c, _, order) => ApiAnswers(db, c, order) ==> Released(db, c, order, a) == 0
          case _ => true)
      && DriftFree(Exec(db, ops[0]), ops[1..], a)
  }

  /** Starting in balance, an app's counter equals the cost of its rows at the end of a run
      exactly when neither event touched it. */
  lemma BalancedIffDriftFree(db: Db, ops: seq<Op>, a: AppId)
    requires PossibleRun(db, ops) && RowsInRange(db) && InternalRowsAreFree(db)
    requires a in db.apps && Gap(db, a) == 0
    ensures var db' := Run(db, ops);
      a in db'.apps && (db'.apps[a].currentCost == SumCost(db'.rows, a, db'.nextRow) <==> DriftFree(db, ops, a))
  {
    LedgerOverRuns(db, ops);
    DriftOnlyGrows(db, ops, a);
  }
}
