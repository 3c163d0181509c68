/** Notifications and the event rows they refer to: reference counting, and what a downgrade
    leaves behind. */
module References {
  import opened SubscriptionDb
  import opened Ledger

  // ---------------------------------------------------------------- no dangling notification

  predicate NotesRefer(db: Db) {
    forall n <- db.notes :: n < db.nextNote && db.notes[n].row in db.rows
  }

  /** Rows only appear, and notifications keep their rows. */
  predicate RowsOnlyGrow(db: Db, db': Db) {
    db.rows.Keys <= db'.rows.Keys && db'.nextNote == db.nextNote && db'.notes.Keys == db.notes.Keys
    && forall n <- db.notes :: db'.notes[n].row == db.notes[n].row
  }

  lemma {:induction false} MigrateRowsGrow(db: Db, w: World, internal: AppId, order: seq<RowId>)
    ensures RowsOnlyGrow(db, MigrateRows(db, w, internal, order))
    decreases |order|
  {
    if order != [] {
      MigrateRowsGrow(MigrateRow(db, w, internal, order[0]), w, internal, order[1..]);
    }
  }

  lemma {:induction false} DowngradeRowsGrow(db: Db, w: World, order: seq<RowId>)
    ensures RowsOnlyGrow(db, DowngradeRows(db, w, order))
    decreases |order|
  {
    if order != [] {
      DowngradeRowsGrow(DowngradeRow(db, w, order[0]), w, order[1..]);
    }
  }

  /** Rows only appear, and a registration that reports a row has it. */
  predicate GrowsTo(db: Db, db': Db, result: RegisterResult) {
    RowsOnlyGrow(db, db') && (result.Registered? ==> result.row in db'.rows)
  }

  lemma RegisterEitherGrows(db: Db, w: World, s: StreamerId, e: EventType)
    ensures GrowsTo(db, RegisterEither(db, w, s, e).0, RegisterEither(db, w, s, e).1)
  {
    var db1 := RegisterWithUserToken(db, w, s, e).0;
    assert RowsOnlyGrow(db, db1);
    AppTokenGrows(db, w, s, e);
    AppTokenGrows(db1, w, s, e);
  }

  lemma AppTokenGrows(db: Db, w: World, s: StreamerId, e: EventType)
    ensures GrowsTo(db, RegisterWithAppToken(db, w, s, e).0, RegisterWithAppToken(db, w, s, e).1)
  {
  }

  lemma RegisterGrows(db: Db, w: World, s: StreamerId, e: EventType)
    requires ValidWorld(w)
    ensures GrowsTo(db, Register(db, w, s, e).0, Register(db, w, s, e).1)
    ensures GrowsTo(db, GetOrCreateEvent(db, w, s, e).0, GetOrCreateEvent(db, w, s, e).1)
  {
    RegisterEitherGrows(WithStreamer(db, s), w, s, e);
    if RowsOf(db, s, e) != {} {
      assert w.chooseRow(RowsOf(db, s, e)) in RowsOf(db, s, e);
    }
  }

  lemma OpKeepsReferences(db: Db, op: Op)
    requires Possible(db, op) && RowsInRange(db) && NotesRefer(db)
    ensures NotesRefer(Exec(db, op))
  {
    match op
    case OpRegister(s, e, w) => RegisterGrows(db, w, s, e);
    case OpCreateNote(s, e, _, _, _, w) => RegisterGrows(db, w, s, e);
    case OpMigrate(s, w, order) =>
      if CanMigrate(db, w, s) { MigrateRowsGrow(db, w, FindInternalApp(db, w).value, order); }
    case OpDowngrade(s, w, order) => DowngradeRowsGrow(db, w, order);
    case _ =>
  }

  /** On every run no notification refers to a missing event row. */
  lemma {:induction false} ReferencesOverRuns(db: Db, ops: seq<Op>)
    requires PossibleRun(db, ops) && RowsInRange(db) && InternalRowsAreFree(db) && NotesRefer(db)
    ensures NotesRefer(Run(db, ops))
    decreases |ops|
  {
    if ops != [] {
      OpKeepsReferences(db, ops[0]);
      OpLedger(db, ops[0]);
      ReferencesOverRuns(Exec(db, ops[0]), ops[1..]);
    }
  }

  // ---------------------------------------------------------------- deletion frees the last reference

  predicate OtherRefers(db: Db, n: NoteId) {
    n in db.notes && exists m <- db.notes :: m != n && db.notes[m].row == db.notes[n].row
  }

  /** After a notification is deleted, by any of the three paths, its event row, the row's
      remote subscription and its charged cost remain exactly when another notification of
      either kind refers to the row; no other row, notification or app changes. */
  lemma DeletionFreesLastReference(db: Db, w: World, n: NoteId)
    requires RowsInRange(db) && NotesRefer(db) && n in db.notes
    ensures var r := db.notes[n].row; var row := db.rows[r]; var db' := DeleteNote(db, w, n);
      && db'.notes == db.notes - {n}
      && (r in db'.rows <==> OtherRefers(db, n))
      && (OtherRefers(db, n) ==> db'.rows == db.rows && db'.remote == db.remote && db'.apps == db.apps)
      && (!OtherRefers(db, n) ==>
            && db'.rows == db.rows - {r}
            && db'.apps == db.apps[row.app := db.apps[row.app].(currentCost := db.apps[row.app].currentCost - row.cost)]
            && db'.remote == DeleteRemote(db, w, row))
  {
    var r := db.notes[n].row;
    var db1 := db.(notes := db.notes - {n});
    assert Referenced(db1, r) <==> OtherRefers(db, n) by {
      if OtherRefers(db, n) {
        var m :| m in db.notes && m != n && db.notes[m].row == r;
        assert m in db1.notes && db1.notes[m].row == r;
      }
    }
    if !OtherRefers(db, n) {
      assert DeleteNote(db, w, n).notes == db1.notes;
    }
  }

  // ---------------------------------------------------------------- downgrade

  lemma {:induction false} DowngradeSplits(db: Db, w: World, a: seq<RowId>, b: seq<RowId>)
    ensures DowngradeRows(db, w, a + b) == DowngradeRows(DowngradeRows(db, w, a), w, b)
    decreases |a|
  {
    if a == [] {
      assert a + b == b;
    } else {
      assert (a + b)[1..] == a[1..] + b;
      DowngradeSplits(DowngradeRow(db, w, a[0]), w, a[1..], b);
    }
  }

  /** The row, and everything that refers to it, is as before. */
  predicate SameRow(db: Db, db': Db, r: RowId) {
    && (r in db.rows <==> r in db'.rows) && (r in db.rows ==> db'.rows[r] == db.rows[r])
    && db'.notes.Keys == db.notes.Keys
    && (forall n <- db.notes :: db'.notes[n].row == db.notes[n].row && db'.notes[n].funding == db.notes[n].funding)
    && (forall n <- db.notes :: db.notes[n].row == r ==> db'.notes[n] == db.notes[n])
  }

  lemma {:induction false} DowngradeLeavesOthers(db: Db, w: World, order: seq<RowId>, q: RowId)
    requires q !in order
    ensures SameRow(db, DowngradeRows(db, w, order), q)
    ensures NonCredit(DowngradeRows(db, w, order), q) == NonCredit(db, q)
    decreases |order|
  {
    if order != [] {
      var db1 := DowngradeRow(db, w, order[0]);
      assert SameRow(db, db1, q);
      assert NonCredit(db1, q) == NonCredit(db, q) by {
        if NonCredit(db, q) {
          var n :| n in db.notes && db.notes[n].row == q && db.notes[n].funding != Credit;
          assert db1.notes[n].row == q && db1.notes[n].funding != Credit;
        }
      }
      DowngradeLeavesOthers(db1, w, order[1..], q);
    }
  }

  predicate Moved(db: Db, db': Db, r: RowId) {
    r in db.rows && r in db'.rows && db'.rows[r].app in db.apps && db.apps[db'.rows[r].app].status.Active?
    && db'.rows[r].status.Pending? && db'.rows[r].sub.Some? && db'.rows[r].sub.value >= db.nextSub
    && db'.rows[r].streamer == db.rows[r].streamer && db'.rows[r].event == db.rows[r].event
    && forall n <- db.notes :: n in db'.notes && (db.notes[n].row == r ==> db'.notes[n] == db.notes[n])
  }

  predicate SwitchedOff(db: Db, db': Db, r: RowId) {
    r in db.rows && r in db'.rows && db'.rows[r] == db.rows[r].(status := Deactivated)
    && forall n <- db.notes :: n in db'.notes && (db.notes[n].row == r ==> db'.notes[n] == db.notes[n].(suspended := true))
  }

  lemma {:induction false} DowngradeKeepsApps(db: Db, w: World, order: seq<RowId>)
    ensures var db' := DowngradeRows(db, w, order);
      db'.apps.Keys == db.apps.Keys && db'.nextSub >= db.nextSub
      && forall a <- db.apps :: db'.apps[a].status == db.apps[a].status
    decreases |order|
  {
    if order != [] {
      DowngradeKeepsApps(DowngradeRow(db, w, order[0]), w, order[1..]);
    }
  }

  /** What one turn of the loop does to its row, decided by three guards in this order. */
  lemma DowngradeTurn(db: Db, w: World, r: RowId)
    requires ValidWorld(w) && r in db.rows
    ensures var db' := DowngradeRow(db, w, r);
      && (!NonCredit(db, r) ==> SwitchedOff(db, db', r))
      && (NonCredit(db, r) && LeastLoaded(db) != {} && w.reply(r).Accepted? ==> Moved(db, db', r))
      && (NonCredit(db, r) && (LeastLoaded(db) == {} || w.reply(r).Refused?) ==> db' == db)
  {
    if LeastLoaded(db) != {} {
      assert w.chooseApp(r, LeastLoaded(db)) in LeastLoaded(db);
    }
  }

  /** After a downgrade each listed row is in exactly one of three states, by what was true
      of it: off with all its notifications suspended when every one of them is funded by
      credit, moved to an active app and pending when an app had room at its turn and Twitch
      accepted, and otherwise untouched. */
  lemma DowngradeOutcome(db: Db, w: World, order: seq<RowId>, i: nat)
    requires ValidWorld(w)
    requires forall j, k :: 0 <= j < k < |order| ==> order[j] != order[k]
    requires i < |order| && order[i] in db.rows
    ensures var r := order[i]; var turn := DowngradeRows(db, w, order[..i]); var db' := DowngradeRows(db, w, order);
      && (!NonCredit(db, r) ==> SwitchedOff(db, db', r))
      && (NonCredit(db, r) && LeastLoaded(turn) != {} && w.reply(r).Accepted? ==> Moved(db, db', r))
      && (NonCredit(db, r) && (LeastLoaded(turn) == {} || w.reply(r).Refused?) ==> SameRow(db, db', r))
  {
    var r := order[i];
    var turn := DowngradeRows(db, w, order[..i]);
    var done := DowngradeRow(turn, w, r);
    assert order == order[..i] + order[i..] && order[i..][1..] == order[i + 1..] && order[i..][0] == r;
    DowngradeSplits(db, w, order[..i], order[i..]);
    DowngradeLeavesOthers(db, w, order[..i], r);
    DowngradeLeavesOthers(done, w, order[i + 1..], r);
    DowngradeKeepsApps(db, w, order[..i]);
    DowngradeTurn(turn, w, r);
    DowngradeRowsGrow(turn, w, [r]);
  }

  /** Rows of other streamers, and of the streamer on other apps, never change. */
  lemma DowngradeSparesOthers(db: Db, w: World, s: StreamerId, order: seq<RowId>, q: RowId)
    requires FindInternalApp(db, w).Some? && Lists(order, RowsToDowngrade(db, s, FindInternalApp(db, w).value))
    requires q in db.rows && (db.rows[q].streamer != s || db.rows[q].app != FindInternalApp(db, w).value)
    ensures SameRow(db, Downgrade(db, w, order), q)
  {
    assert q !in order;
    DowngradeLeavesOthers(db, w, order, q);
  }
}
