/** Local rows against the live subscriptions at Twitch. */
module Agreement {
  import opened Wrappers
  import opened SubscriptionDb
  import opened Ledger

  predicate Holds(db: Db, r: RowId, sub: SubId) {
    r in db.rows && db.rows[r].sub == Some(sub)
  }

  predicate HoldsLive(db: Db, r: RowId, sub: SubId) {
    Holds(db, r, sub) && !db.rows[r].status.Deactivated?
  }

  predicate SubsInRange(db: Db) {
    && (forall x <- db.remote :: x < db.nextSub)
    && (forall r <- db.rows :: db.rows[r].sub.Some? ==> db.rows[r].sub.value < db.nextSub)
  }

  ghost predicate SubsDistinct(db: Db) {
    forall r, r', x :: Holds(db, r, x) && Holds(db, r', x) ==> r == r'
  }

  /** Every row in force has its subscription at Twitch, held by the row's own app. */
  ghost predicate RowsAreLive(db: Db) {
    forall r, x :: HoldsLive(db, r, x) ==> x in db.remote && db.remote[x] == db.rows[r].app
  }

  /** Every live subscription belongs to a row in force. */
  ghost predicate RemoteIsOwned(db: Db) {
    forall x <- db.remote :: exists r :: HoldsLive(db, r, x)
  }

  ghost predicate RowsAgree(db: Db) {
    RowsInRange(db) && SubsInRange(db) && SubsDistinct(db) && RowsAreLive(db)
  }

  ghost predicate Agree(db: Db) {
    RowsAgree(db) && RemoteIsOwned(db)
  }

  /** Remark: spelt out, agreement is a bijection between live subscriptions and the rows in force that carry
      one, and it respects the holding app. */
  lemma AgreementIsBijection(db: Db)
    requires Agree(db)
    ensures forall x <- db.remote :: exists r :: HoldsLive(db, r, x) && db.rows[r].app == db.remote[x]
    ensures forall r, r', x :: HoldsLive(db, r, x) && HoldsLive(db, r', x) ==> r == r'
    ensures forall r, x :: HoldsLive(db, r, x) ==> x in db.remote
  {
    forall x <- db.remote ensures exists r :: HoldsLive(db, r, x) && db.rows[r].app == db.remote[x] {
      var r :| HoldsLive(db, r, x);
      assert db.rows[r].app == db.remote[x];
    }
  }

  // ---------------------------------------------------------------- each operation

  ghost predicate DeletesWork(w: World) {
    forall x :: w.deletes(x)
  }

  /** Agreement survives: its first half always, the whole of it when `deletesWork`. */
  ghost predicate Keeps(db: Db, db': Db, deletesWork: bool) {
    RowsAgree(db') && (deletesWork && RemoteIsOwned(db) ==> RemoteIsOwned(db'))
  }

  /** One row is added or replaced by one that holds a fresh subscription or none. */
  lemma RowGetsFreshSub(db: Db, db': Db, r: RowId, deletesWork: bool)
    requires RowsAgree(db) && RowsInRange(db') && r in db'.rows
    requires forall i: RowId :: i != r ==> (i in db.rows <==> i in db'.rows) && (i in db.rows ==> db.rows[i] == db'.rows[i])
    requires db.nextSub <= db'.nextSub
    requires db'.rows[r].sub.Some? ==>
      db'.rows[r].sub.value == db.nextSub < db'.nextSub && db.nextSub in db'.remote
      && db'.remote[db.nextSub] == db'.rows[r].app && !db'.rows[r].status.Deactivated?
    requires db'.rows[r].sub.None? ==> db.nextSub !in db'.remote
    requires forall x <- db'.remote :: x == db.nextSub || (x in db.remote && db'.remote[x] == db.remote[x])
    requires forall x <- db.remote :: x in db'.remote || Holds(db, r, x)
    requires deletesWork ==> forall x <- db'.remote :: !HoldsLive(db, r, x)
    ensures Keeps(db, db', deletesWork)
  {
    forall q, x | HoldsLive(db', q, x) ensures x in db'.remote && db'.remote[x] == db'.rows[q].app {
      if q != r {
        assert HoldsLive(db, q, x);
        assert !Holds(db, r, x);
      }
    }
    assert SubsDistinct(db') by {
      forall p, q, x | Holds(db', p, x) && Holds(db', q, x) ensures p == q {
        assert p != r ==> Holds(db, p, x);
        assert q != r ==> Holds(db, q, x);
      }
    }
    if deletesWork && RemoteIsOwned(db) {
      forall x <- db'.remote ensures exists q :: HoldsLive(db', q, x) {
        if x == db.nextSub {
          assert HoldsLive(db', r, x);
        } else {
          var q :| HoldsLive(db, q, x);
          assert HoldsLive(db', q, x);
        }
      }
    }
  }

  /** One row leaves force or disappears, and its subscription may go with it. */
  lemma RowLeaves(db: Db, db': Db, r: RowId, deletesWork: bool)
    requires RowsAgree(db) && RowsInRange(db') && db'.nextSub == db.nextSub
    requires forall i: RowId :: i != r ==> (i in db.rows <==> i in db'.rows) && (i in db.rows ==> db.rows[i] == db'.rows[i])
    requires r in db'.rows ==> r in db.rows && db'.rows[r] == db.rows[r].(status := Deactivated)
    requires forall x <- db'.remote :: x in db.remote && db'.remote[x] == db.remote[x]
    requires forall x <- db.remote :: x in db'.remote || Holds(db, r, x)
    requires deletesWork ==> forall x <- db'.remote :: !HoldsLive(db, r, x)
    ensures Keeps(db, db', deletesWork)
  {
    forall q, x | HoldsLive(db', q, x) ensures x in db'.remote && db'.remote[x] == db'.rows[q].app {
      assert HoldsLive(db, q, x);
      assert !Holds(db, r, x);
    }
    assert SubsDistinct(db') by {
      forall p, q, x | Holds(db', p, x) && Holds(db', q, x) ensures p == q {
        assert Holds(db, p, x) && Holds(db, q, x);
      }
    }
    if deletesWork && RemoteIsOwned(db) {
      forall x <- db'.remote ensures exists q :: HoldsLive(db', q, x) {
        var q :| HoldsLive(db, q, x);
        assert HoldsLive(db', q, x);
      }
    }
  }

  /** Rows keep their subscriptions and stay in force or out of it; the remote side is the same. */
  lemma SameInForce(db: Db, db': Db, deletesWork: bool)
    requires RowsAgree(db) && RowsInRange(db') && db'.nextSub == db.nextSub && db'.remote == db.remote
    requires db'.rows.Keys == db.rows.Keys
    requires forall r <- db.rows :: (db'.rows[r].sub == db.rows[r].sub && db'.rows[r].app == db.rows[r].app
      && (db'.rows[r].status.Deactivated? <==> db.rows[r].status.Deactivated?))
    ensures Keeps(db, db', deletesWork)
  {
    assert forall q, x :: HoldsLive(db', q, x) <==> HoldsLive(db, q, x);
    assert forall q, x :: Holds(db', q, x) <==> Holds(db, q, x);
    if RemoteIsOwned(db) {
      forall x <- db'.remote ensures exists q :: HoldsLive(db', q, x) {
        var q :| HoldsLive(db, q, x);
        assert HoldsLive(db', q, x);
      }
    }
  }

  lemma KeepsChains(db: Db, db1: Db, db2: Db, deletesWork: bool)
    requires Keeps(db, db1, deletesWork) && Keeps(db1, db2, deletesWork)
    ensures Keeps(db, db2, deletesWork)
  {
  }

  lemma RegisterWithUserTokenAgrees(db: Db, w: World, s: StreamerId, e: EventType, deletesWork: bool)
    requires ValidWorld(w) && RowsAgree(db)
    ensures Keeps(db, RegisterWithUserToken(db, w, s, e).0, deletesWork)
  {
    var (db', row) := RegisterWithUserToken(db, w, s, e);
    RegisterWithUserTokenLedger(db, w, s, e);
    if row.Some? {
      RowGetsFreshSub(db, db', db.nextRow, deletesWork);
    } else {
      SameInForce(db, db', deletesWork);
    }
  }

  lemma RegisterWithAppTokenAgrees(db: Db, w: World, s: StreamerId, e: EventType, deletesWork: bool)
    requires ValidWorld(w) && RowsAgree(db)
    ensures Keeps(db, RegisterWithAppToken(db, w, s, e).0, deletesWork)
  {
    var (db', result) := RegisterWithAppToken(db, w, s, e);
    RegisterWithAppTokenLedger(db, w, s, e);
    if result.NoApp? {
      SameInForce(db, db', deletesWork);
    } else {
      RowGetsFreshSub(db, db', db.nextRow, deletesWork);
    }
  }

  lemma GetOrCreateAgrees(db: Db, w: World, s: StreamerId, e: EventType, deletesWork: bool)
    requires ValidWorld(w) && RowsAgree(db)
    ensures Keeps(db, Register(db, w, s, e).0, deletesWork)
    ensures Keeps(db, GetOrCreateEvent(db, w, s, e).0, deletesWork)
  {
    var db1 := WithStreamer(db, s);
    SameInForce(db, db, deletesWork);
    SameInForce(db, db1, deletesWork);
    RegisterWithAppTokenAgrees(db1, w, s, e, deletesWork);
    RegisterWithUserTokenAgrees(db1, w, s, e, deletesWork);
    var db2 := RegisterWithUserToken(db1, w, s, e).0;
    RegisterWithAppTokenAgrees(db2, w, s, e, deletesWork);
    KeepsChains(db1, db2, RegisterWithAppToken(db2, w, s, e).0, deletesWork);
    KeepsChains(db, db1, RegisterEither(db1, w, s, e).0, deletesWork);
  }

  lemma MigrateRowAgrees(db: Db, w: World, internal: AppId, r: RowId)
    requires RowsAgree(db) && internal in db.apps
    ensures Keeps(db, MigrateRow(db, w, internal, r), DeletesWork(w))
  {
    var db' := MigrateRow(db, w, internal, r);
    if r in db.rows && w.reply(r).Accepted? {
      RowGetsFreshSub(db, db', r, DeletesWork(w));
    } else {
      SameInForce(db, db', DeletesWork(w));
    }
  }

  lemma {:induction false} MigrateRowsAgree(db: Db, w: World, internal: AppId, order: seq<RowId>)
    requires RowsAgree(db) && internal in db.apps
    ensures Keeps(db, MigrateRows(db, w, internal, order), DeletesWork(w))
    decreases |order|
  {
    if order == [] {
      SameInForce(db, db, DeletesWork(w));
    } else {
      var db1 := MigrateRow(db, w, internal, order[0]);
      MigrateRowAgrees(db, w, internal, order[0]);
      MigrateRowsAgree(db1, w, internal, order[1..]);
      KeepsChains(db, db1, MigrateRows(db, w, internal, order), DeletesWork(w));
    }
  }

  lemma MovedRowAgrees(db: Db, w: World, r: RowId)
    requires ValidWorld(w) && RowsAgree(db) && NonCredit(db, r) && DowngradeRow(db, w, r) != db
    ensures Keeps(db, DowngradeRow(db, w, r), DeletesWork(w))
  {
    assert w.chooseApp(r, LeastLoaded(db)) in LeastLoaded(db);
    RowGetsFreshSub(db, DowngradeRow(db, w, r), r, DeletesWork(w));
  }

  lemma SwitchedOffRowAgrees(db: Db, w: World, r: RowId)
    requires RowsAgree(db) && !NonCredit(db, r) && r in db.rows
    ensures Keeps(db, DowngradeRow(db, w, r), DeletesWork(w))
  {
    RowLeaves(db, DowngradeRow(db, w, r), r, DeletesWork(w));
  }

  lemma DowngradeRowAgrees(db: Db, w: World, r: RowId)
    requires ValidWorld(w) && RowsAgree(db)
    ensures Keeps(db, DowngradeRow(db, w, r), DeletesWork(w))
  {
    if r !in db.rows {
      SameInForce(db, db, DeletesWork(w));
    } else if !NonCredit(db, r) {
      SwitchedOffRowAgrees(db, w, r);
    } else if DowngradeRow(db, w, r) != db {
      MovedRowAgrees(db, w, r);
    } else {
      SameInForce(db, db, DeletesWork(w));
    }
  }

  lemma {:induction false} DowngradeRowsAgree(db: Db, w: World, order: seq<RowId>)
    requires ValidWorld(w) && RowsAgree(db)
    ensures Keeps(db, DowngradeRows(db, w, order), DeletesWork(w))
    decreases |order|
  {
    if order == [] {
      SameInForce(db, db, DeletesWork(w));
    } else {
      var db1 := DowngradeRow(db, w, order[0]);
      DowngradeRowAgrees(db, w, order[0]);
      DowngradeRowsAgree(db1, w, order[1..]);
      KeepsChains(db, db1, DowngradeRows(db, w, order), DeletesWork(w));
    }
  }

  lemma DeleteLocalAgrees(db: Db, w: World, r: RowId)
    requires RowsAgree(db)
    ensures Keeps(db, DeleteLocal(db, w, r), DeletesWork(w))
  {
    if r in db.rows {
      DeleteLocalLedger(db, w, r);
      RowLeaves(db, DeleteLocal(db, w, r), r, DeletesWork(w));
    } else {
      SameInForce(db, db, DeletesWork(w));
    }
  }

  lemma DeleteTwitchOnlyAgrees(db: Db, w: World, sub: SubId, app: AppId)
    requires RowsAgree(db)
    ensures Keeps(db, DeleteTwitchOnly(db, w, sub, app), true)
  {
    var db' := DeleteTwitchOnly(db, w, sub, app);
    assert forall q, x :: HoldsLive(db', q, x) <==> HoldsLive(db, q, x);
    assert forall q, x :: Holds(db', q, x) <==> Holds(db, q, x);
    if db' != db {
      assert forall q :: !HoldsLive(db, q, sub);
    }
    if RemoteIsOwned(db) {
      forall x <- db'.remote ensures exists q :: HoldsLive(db', q, x) {
        var q :| HoldsLive(db, q, x);
        assert HoldsLive(db', q, x);
      }
    }
  }

  /** A status report leaves agreement alone exactly when it does not put a deactivated row
      with a subscription back in force. */
  predicate StatusIsHarmless(db: Db, r: RowId, status: EventStatus) {
    r in db.rows && db.rows[r].sub.Some? ==>
      (db.rows[r].status.Deactivated? <==> status.Deactivated?)
  }

  lemma StatusAgreesIff(db: Db, r: RowId, status: EventStatus)
    requires Agree(db)
    ensures Agree(ChangeEventStatus(db, r, status)) <==> StatusIsHarmless(db, r, status)
  {
    var db' := ChangeEventStatus(db, r, status);
    if StatusIsHarmless(db, r, status) {
      StatusAgrees(db, r, status, true);
    } else {
      var x := db.rows[r].sub.value;
      assert Holds(db, r, x);
      assert forall q :: HoldsLive(db, q, x) ==> Holds(db, q, x);
      assert forall q :: HoldsLive(db', q, x) ==> Holds(db, q, x);
      assert status.Deactivated? ==> HoldsLive(db, r, x);
      assert !status.Deactivated? ==> HoldsLive(db', r, x);
    }
  }

  lemma StatusAgrees(db: Db, r: RowId, status: EventStatus, deletesWork: bool)
    requires RowsAgree(db) && StatusIsHarmless(db, r, status)
    ensures Keeps(db, ChangeEventStatus(db, r, status), deletesWork)
  {
    var db' := ChangeEventStatus(db, r, status);
    assert forall q, x :: HoldsLive(db', q, x) <==> HoldsLive(db, q, x);
    assert forall q, x :: Holds(db', q, x) <==> Holds(db, q, x);
    if RemoteIsOwned(db) {
      forall x <- db'.remote ensures exists q :: HoldsLive(db', q, x) {
        var q :| HoldsLive(db, q, x);
        assert HoldsLive(db', q, x);
      }
    }
  }

  lemma RefusedDeleteDisagrees(db: Db, w: World, r: RowId, x: SubId)
    requires Agree(db) && HoldsLive(db, r, x) && !w.deletes(x)
    ensures !Agree(DeleteLocal(db, w, r))
  {
    var db' := DeleteLocal(db, w, r);
    assert forall q :: HoldsLive(db', q, x) ==> Holds(db, q, x) && Holds(db, r, x);
    assert x in db'.remote;
  }

  lemma WorkingDeleteAgrees(db: Db, w: World, r: RowId, x: SubId)
    requires Agree(db) && HoldsLive(db, r, x) && w.deletes(x)
    ensures Agree(DeleteLocal(db, w, r))
  {
    DeleteLocalLedger(db, w, r);
    RowLeaves(db, DeleteLocal(db, w, r), r, true);
  }

  /** Deleting a row in force agrees with Twitch exactly when Twitch carries the delete out:
      otherwise its subscription lives on with no row to own it. */
  lemma DeleteAgreesIff(db: Db, w: World, r: RowId, x: SubId)
    requires Agree(db) && HoldsLive(db, r, x)
    ensures Agree(DeleteLocal(db, w, r)) <==> w.deletes(x)
  {
    if w.deletes(x) {
      WorkingDeleteAgrees(db, w, r, x);
    } else {
      RefusedDeleteDisagrees(db, w, r, x);
    }
  }

  // ---------------------------------------------------------------- every run

  ghost predicate OpDeletesWork(op: Op) {
    match op
    case OpMigrate(_, w, _) => DeletesWork(w)
    case OpDowngrade(_, w, _) => DeletesWork(w)
    case OpDeleteLocal(_, w) => DeletesWork(w)
    case OpDeleteNote(_, w) => DeletesWork(w)
    case _ => true
  }

  /** No status report revives a deactivated row, and none deactivates one. */
  predicate Harmless(db: Db, op: Op) {
    op.OpStatus? ==> StatusIsHarmless(db, op.r, op.status)
  }

  lemma OpAgrees(db: Db, op: Op)
    requires Possible(db, op) && RowsAgree(db) && Harmless(db, op)
    ensures Keeps(db, Exec(db, op), OpDeletesWork(op))
  {
    var works := OpDeletesWork(op);
    SameInForce(db, db, works);
    match op
    case OpRegister(s, e, w) => GetOrCreateAgrees(db, w, s, e, works);
    case OpMigrate(s, w, order) =>
      if CanMigrate(db, w, s) {
        assert w.chooseInternal(InternalApps(db)) in InternalApps(db);
        MigrateRowsAgree(db, w, FindInternalApp(db, w).value, order);
      }
    case OpDowngrade(s, w, order) => DowngradeRowsAgree(db, w, order);
    case OpDeleteLocal(r, w) => DeleteLocalAgrees(db, w, r);
    case OpDeleteTwitchOnly(sub, app, w) => DeleteTwitchOnlyAgrees(db, w, sub, app);
    case OpStatus(r, status) => StatusAgrees(db, r, status, works);
    case OpUpdateNote(_, _) => SameInForce(db, Exec(db, op), works);
    case OpSetStreamer(_, _, _) => SameInForce(db, Exec(db, op), works);
    case OpCron(c, stale, order) => CronAgrees(db, c, stale, order, works);
    case OpCreateNote(s, e, kind, funding, funded, w) =>
      var db1 := GetOrCreateEvent(db, w, s, e).0;
      GetOrCreateAgrees(db, w, s, e, works);
      SameInForce(db1, Exec(db, op), works);
      KeepsChains(db, db1, Exec(db, op), works);
    case OpDeleteNote(n, w) =>
      if n in db.notes {
        var db1 := db.(notes := db.notes - {n});
        SameInForce(db, db1, works);
        DeleteLocalAgrees(db1, w, db.notes[n].row);
        KeepsChains(db, db1, DeleteLocal(db1, w, db.notes[n].row), works);
      }
  }

  lemma CronAgrees(db: Db, c: CronWorld, stale: RowId -> bool, order: seq<RowId>, deletesWork: bool)
    requires RowsAgree(db) && Lists(order, StaleRows(db, stale))
    ensures Keeps(db, Cron(db, c, order), deletesWork)
  {
    SameInForce(db, Cron(db, c, order), deletesWork);
  }

  ghost predicate HarmlessRun(db: Db, ops: seq<Op>)
    decreases |ops|
  {
    ops != [] ==> Harmless(db, ops[0]) && HarmlessRun(Exec(db, ops[0]), ops[1..])
  }

  /** On every run with no removal by Twitch itself: rows in force keep a live subscription
      held by their own app, and ids stay distinct, whatever deletes fail; when no delete
      fails, the two sides are in bijection throughout. */
  lemma {:induction false} AgreementOverRuns(db: Db, ops: seq<Op>)
    requires PossibleRun(db, ops) && HarmlessRun(db, ops) && RowsAgree(db)
    ensures RowsAgree(Run(db, ops))
    ensures Agree(db) && (forall op <- ops :: OpDeletesWork(op)) ==> Agree(Run(db, ops))
    decreases |ops|
  {
    if ops != [] {
      OpAgrees(db, ops[0]);
      AgreementOverRuns(Exec(db, ops[0]), ops[1..]);
    }
  }
}
