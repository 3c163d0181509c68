/** Event rows that no notification refers to: which operations leave one behind, and which
    runs end with one. */
module Orphans {
  import opened Wrappers
  import opened SubscriptionDb
  import opened Ledger
  import opened References

  predicate Orphan(db: Db, r: RowId) {
    r in db.rows && !Referenced(db, r)
  }

  /** The result of the registration that the operation makes, if it makes one. */
  function Registration(db: Db, op: Op): RegisterResult {
    match op
    case OpRegister(s, e, w) => Register(db, w, s, e).1
    case OpCreateNote(s, e, _, _, _, w) => GetOrCreateEvent(db, w, s, e).1
    case _ => NoApp
  }

  predicate Adds(result: RegisterResult) {
    result.Registered? || result.Rejected?
  }

  /** The operation adds this row and no notification for it: an administrator's registration,
      a registration that Twitch refuses, or a creation whose payload or charge fails after its
      event was registered. */
  predicate Leaks(db: Db, op: Op, r: RowId) {
    r !in db.rows && r in Exec(db, op).rows
    && (op.OpRegister? || Registration(db, op).Rejected? || (op.OpCreateNote? && !op.funded))
  }

  /** The operation gives this row a notification or deletes the row. */
  predicate Clears(db: Db, op: Op, r: RowId) {
    match op
    case OpDeleteLocal(q, _) => q == r
    case OpCreateNote(_, _, _, _, funded, _) => funded && Registration(db, op) == Registered(r)
    case _ => false
  }

  /** The same rows, and every notification refers to the row it referred to. */
  predicate SameReferences(db: Db, db': Db) {
    && db'.rows.Keys == db.rows.Keys && db'.notes.Keys == db.notes.Keys
    && forall n <- db.notes :: db'.notes[n].row == db.notes[n].row
  }

  lemma SameOrphans(db: Db, db': Db, r: RowId)
    requires SameReferences(db, db')
    ensures Orphan(db', r) <==> Orphan(db, r)
  {
    if Referenced(db, r) {
      var n :| n in db.notes && db.notes[n].row == r;
      assert db'.notes[n].row == r;
    }
  }

  lemma {:induction false} MigrateKeepsReferences(db: Db, w: World, internal: AppId, order: seq<RowId>)
    ensures SameReferences(db, MigrateRows(db, w, internal, order))
    decreases |order|
  {
    if order != [] {
      MigrateKeepsReferences(MigrateRow(db, w, internal, order[0]), w, internal, order[1..]);
    }
  }

  lemma {:induction false} DowngradeKeepsReferences(db: Db, w: World, order: seq<RowId>)
    ensures SameReferences(db, DowngradeRows(db, w, order))
    decreases |order|
  {
    if order != [] {
      DowngradeKeepsReferences(DowngradeRow(db, w, order[0]), w, order[1..]);
    }
  }

  /** A registration touches no notification and adds exactly one row, or none. */
  ghost predicate AddsOneRow(db: Db, db': Db, result: RegisterResult) {
    && db'.notes == db.notes
    && (!Adds(result) ==> db'.rows == db.rows)
    && (Adds(result) ==> exists r :: r !in db.rows && db'.rows.Keys == db.rows.Keys + {r} && (result.Registered? ==> result.row == r))
  }

  lemma AppTokenAddsOne(db: Db, w: World, s: StreamerId, e: EventType)
    requires RowsInRange(db)
    ensures AddsOneRow(db, RegisterWithAppToken(db, w, s, e).0, RegisterWithAppToken(db, w, s, e).1)
  {
    var (db', result) := RegisterWithAppToken(db, w, s, e);
    if Adds(result) {
      assert db.nextRow !in db.rows && db'.rows.Keys == db.rows.Keys + {db.nextRow};
    }
  }

  lemma EitherAddsOne(db: Db, w: World, s: StreamerId, e: EventType)
    requires RowsInRange(db)
    ensures AddsOneRow(db, RegisterEither(db, w, s, e).0, RegisterEither(db, w, s, e).1)
  {
    var (db1, row) := RegisterWithUserToken(db, w, s, e);
    if IsPersonal(db, s) && row.Some? {
      assert db.nextRow !in db.rows && db1.rows.Keys == db.rows.Keys + {db.nextRow};
    } else {
      AppTokenAddsOne(db, w, s, e);
      if row.None? { AppTokenAddsOne(db1, w, s, e); }
    }
  }

  lemma RegisterAddsOne(db: Db, w: World, s: StreamerId, e: EventType)
    requires RowsInRange(db)
    ensures AddsOneRow(db, Register(db, w, s, e).0, Register(db, w, s, e).1)
  {
    EitherAddsOne(WithStreamer(db, s), w, s, e);
  }

  lemma RegisterLeaksIff(db: Db, op: Op, r: RowId)
    requires op.OpRegister? && RowsInRange(db) && NotesRefer(db)
    ensures Orphan(Exec(db, op), r) <==> Orphan(db, r) || Leaks(db, op, r)
  {
    RegisterAddsOne(db, op.w, op.s, op.e);
    assert Referenced(Exec(db, op), r) <==> Referenced(db, r);
  }

  lemma NoteRefers(db: Db, note: Note, r: RowId)
    requires NotesRefer(db)
    ensures Referenced(db.(notes := db.notes[db.nextNote := note], nextNote := db.nextNote + 1), r) <==>
      Referenced(db, r) || note.row == r
  {
    var db' := db.(notes := db.notes[db.nextNote := note], nextNote := db.nextNote + 1);
    if Referenced(db, r) {
      var n :| n in db.notes && db.notes[n].row == r;
      assert n in db'.notes && db'.notes[n].row == r;
    }
    assert db'.notes[db.nextNote] == note;
  }

  lemma CreateLeaksIff(db: Db, op: Op, r: RowId)
    requires op.OpCreateNote? && Possible(db, op) && RowsInRange(db) && NotesRefer(db)
    ensures Orphan(Exec(db, op), r) <==> (Orphan(db, r) && !Clears(db, op, r)) || Leaks(db, op, r)
  {
    var (db1, result) := GetOrCreateEvent(db, op.w, op.s, op.e);
    RegisterAddsOne(db, op.w, op.s, op.e);
    RegisterGrows(db, op.w, op.s, op.e);
    assert db1.notes == db.notes;
    assert Referenced(db1, r) <==> Referenced(db, r);
    if result.Registered? && op.funded {
      NoteRefers(db1, Note(op.kind, result.row, op.funding, false), r);
    }
  }

  lemma DeleteNoteLeaksNothing(db: Db, w: World, n: NoteId, r: RowId)
    requires NotesRefer(db)
    ensures Orphan(DeleteNote(db, w, n), r) <==> Orphan(db, r)
  {
    if n in db.notes {
      var q := db.notes[n].row;
      var db1 := db.(notes := db.notes - {n});
      assert Referenced(db1, r) && r != q ==> Referenced(db, r);
      if Referenced(db, r) && r != q {
        var m :| m in db.notes && db.notes[m].row == r;
        assert m in db1.notes && db1.notes[m].row == r;
      }
      assert Referenced(db, q);
      DeleteLocalLeaksNothing(db1, w, q, r);
    }
  }

  lemma DeleteLocalLeaksNothing(db: Db, w: World, q: RowId, r: RowId)
    ensures Orphan(DeleteLocal(db, w, q), r) <==> Orphan(db, r) && r != q
  {
    var db' := DeleteLocal(db, w, q);
    if Referenced(db, r) && r != q && q in db.rows {
      var m :| m in db.notes && db.notes[m].row == r;
      assert m in db'.notes && db'.notes[m].row == r;
    }
  }

  /** One operation: a row is unreferenced afterwards exactly when the operation leaks it, or
      it was unreferenced before and the operation does not clear it. */
  lemma OrphanStepIff(db: Db, op: Op, r: RowId)
    requires Possible(db, op) && RowsInRange(db) && NotesRefer(db)
    ensures Orphan(Exec(db, op), r) <==> (Orphan(db, r) && !Clears(db, op, r)) || Leaks(db, op, r)
  {
    match op
    case OpRegister(s, e, w) => RegisterLeaksIff(db, op, r);
    case OpCreateNote(_, _, _, _, _, w) => CreateLeaksIff(db, op, r);
    case OpMigrate(s, w, order) =>
      if CanMigrate(db, w, s) { MigrateKeepsReferences(db, w, FindInternalApp(db, w).value, order); }
      SameOrphans(db, Exec(db, op), r);
    case OpDowngrade(s, w, order) =>
      DowngradeKeepsReferences(db, w, order);
      SameOrphans(db, Exec(db, op), r);
    case OpDeleteLocal(q, w) => DeleteLocalLeaksNothing(db, w, q, r);
    case OpDeleteNote(n, w) => DeleteNoteLeaksNothing(db, w, n, r);
    case _ => SameOrphans(db, Exec(db, op), r);
  }

  // ---------------------------------------------------------------- whole runs

  lemma {:induction false} RunLast(db: Db, ops: seq<Op>, op: Op)
    ensures Run(db, ops + [op]) == Exec(Run(db, ops), op)
    ensures PossibleRun(db, ops + [op]) <==> PossibleRun(db, ops) && Possible(Run(db, ops), op)
    decreases |ops|
  {
    if ops == [] {
      assert ops + [op] == [op] && [op][1..] == [];
      assert Run(db, [op]) == Run(Exec(db, op), []);
      assert PossibleRun(Exec(db, op), []);
    } else {
      assert (ops + [op])[1..] == ops[1..] + [op];
      RunLast(Exec(db, ops[0]), ops[1..], op);
    }
  }

  predicate LeaksAt(db: Db, ops: seq<Op>, k: nat, r: RowId)
    requires k < |ops|
  {
    Leaks(Run(db, ops[..k]), ops[k], r)
  }

  predicate ClearsAt(db: Db, ops: seq<Op>, k: nat, r: RowId)
    requires k < |ops|
  {
    Clears(Run(db, ops[..k]), ops[k], r)
  }

  predicate ClearedNowhere(db: Db, ops: seq<Op>, from: nat, r: RowId) {
    forall j :: from <= j < |ops| ==> !ClearsAt(db, ops, j, r)
  }

  /** Some operation of the run leaks the row and none after it clears it. */
  predicate LeakedForGood(db: Db, ops: seq<Op>, r: RowId) {
    exists k :: 0 <= k < |ops| && LeaksAt(db, ops, k, r) && ClearedNowhere(db, ops, k + 1, r)
  }

  lemma SameBefore(db: Db, ops: seq<Op>, op: Op, k: nat, r: RowId)
    requires k <= |ops|
    ensures k < |ops| ==> (LeaksAt(db, ops + [op], k, r) <==> LeaksAt(db, ops, k, r))
    ensures k < |ops| ==> (ClearsAt(db, ops + [op], k, r) <==> ClearsAt(db, ops, k, r))
    ensures k == |ops| ==> (LeaksAt(db, ops + [op], k, r) <==> Leaks(Run(db, ops), op, r))
    ensures k == |ops| ==> (ClearsAt(db, ops + [op], k, r) <==> Clears(Run(db, ops), op, r))
  {
    assert (ops + [op])[..k] == ops[..k];
    assert ops[..|ops|] == ops;
  }

  lemma ClearedNowhereLast(db: Db, ops: seq<Op>, op: Op, from: nat, r: RowId)
    requires from <= |ops|
    ensures ClearedNowhere(db, ops + [op], from, r) <==> ClearedNowhere(db, ops, from, r) && !Clears(Run(db, ops), op, r)
  {
    forall j | from <= j <= |ops| {
      SameBefore(db, ops, op, j, r);
    }
    if ClearedNowhere(db, ops + [op], from, r) {
      assert !ClearsAt(db, ops + [op], |ops|, r);
      forall j | from <= j < |ops| ensures !ClearsAt(db, ops, j, r) {
        assert !ClearsAt(db, ops + [op], j, r);
      }
    }
  }

  lemma LeakedForGoodLast(db: Db, ops: seq<Op>, op: Op, r: RowId)
    ensures LeakedForGood(db, ops + [op], r) <==>
      (LeakedForGood(db, ops, r) && !Clears(Run(db, ops), op, r)) || Leaks(Run(db, ops), op, r)
  {
    var all := ops + [op];
    SameBefore(db, ops, op, |ops|, r);
    if LeakedForGood(db, all, r) {
      var k :| 0 <= k < |all| && LeaksAt(db, all, k, r) && ClearedNowhere(db, all, k + 1, r);
      if k < |ops| {
        SameBefore(db, ops, op, k, r);
        ClearedNowhereLast(db, ops, op, k + 1, r);
      }
    }
    if LeakedForGood(db, ops, r) && !Clears(Run(db, ops), op, r) {
      var k :| 0 <= k < |ops| && LeaksAt(db, ops, k, r) && ClearedNowhere(db, ops, k + 1, r);
      SameBefore(db, ops, op, k, r);
      ClearedNowhereLast(db, ops, op, k + 1, r);
      assert LeaksAt(db, all, k, r);
    }
    if Leaks(Run(db, ops), op, r) {
      assert LeaksAt(db, all, |ops|, r) && ClearedNowhere(db, all, |ops| + 1, r);
    }
  }

  lemma {:induction false} KeepsRunning(db: Db, ops: seq<Op>)
    requires PossibleRun(db, ops) && RowsInRange(db) && InternalRowsAreFree(db) && NotesRefer(db)
    ensures RowsInRange(Run(db, ops)) && NotesRefer(Run(db, ops))
  {
    LedgerOverRuns(db, ops);
    ReferencesOverRuns(db, ops);
  }

  /** A run from tables without unreferenced rows ends with one exactly when some operation
      leaked it and none after that cleared it. */
  lemma {:induction false} OrphanOverRunsIff(db: Db, ops: seq<Op>, r: RowId)
    requires PossibleRun(db, ops) && RowsInRange(db) && InternalRowsAreFree(db) && NotesRefer(db)
    requires forall q <- db.rows :: Referenced(db, q)
    ensures Orphan(Run(db, ops), r) <==> LeakedForGood(db, ops, r)
    decreases |ops|
  {
    if ops != [] {
      var init, op := ops[..|ops| - 1], ops[|ops| - 1];
      assert ops == init + [op];
      RunLast(db, init, op);
      KeepsRunning(db, init);
      OrphanOverRunsIff(db, init, r);
      OrphanStepIff(Run(db, init), op, r);
      LeakedForGoodLast(db, init, op, r);
    }
  }

  /** The creation that fails late: its new row stays, with a live subscription. */
  lemma FailedCreationLeaks(db: Db, w: World, s: StreamerId, e: EventType, kind: Kind, funding: Funding)
    requires ValidWorld(w) && RowsInRange(db) && NotesRefer(db)
    requires !(s in db.streamers && RowsOf(db, s, e) != {}) && Register(db, w, s, e).1.Registered?
    ensures var db' := CreateNote(db, w, s, e, kind, funding, false); var r := Register(db, w, s, e).1.row;
      Orphan(db', r) && LiveRow(db', r)
  {
    var op := OpCreateNote(s, e, kind, funding, false, w);
    var r := Register(db, w, s, e).1.row;
    RegisterAddsOne(db, w, s, e);
    RegisteredIsLive(db, w, s, e);
    CreateLeaksIff(db, op, r);
    assert CreateNote(db, w, s, e, kind, funding, false) == Register(db, w, s, e).0;
  }

  predicate LiveRow(db: Db, r: RowId) {
    r in db.rows && db.rows[r].sub.Some? && db.rows[r].sub.value in db.remote
  }

  lemma EitherIsLive(db: Db, w: World, s: StreamerId, e: EventType)
    ensures var (db', result) := RegisterEither(db, w, s, e); result.Registered? ==> LiveRow(db', result.row)
  {
  }

  lemma RegisteredIsLive(db: Db, w: World, s: StreamerId, e: EventType)
    ensures var (db', result) := Register(db, w, s, e); result.Registered? ==> LiveRow(db', result.row)
  {
    EitherIsLive(WithStreamer(db, s), w, s, e);
  }
}
