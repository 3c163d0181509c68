/** The counters of the Twitch apps over whole runs of subscription operations: how far above
    its limit an app can be charged when operations come one after another. */
module Load {
  import opened SubscriptionDb

  /** No app is more than one charge of `most` above the last counter with room. */
  predicate Within(apps: map<AppId, App>, most: nat) {
    forall a <- apps :: apps[a].currentCost <= apps[a].maxCost - 1 + most
  }

  ghost predicate RepliesCostAtMost(w: World, most: nat) {
    forall r: RowId :: w.reply(r).Accepted? ==> CostOf(w.reply(r)) <= most
  }

  ghost predicate OpCostsAtMost(op: Op, most: nat) {
    match op
    case OpRegister(_, _, w) => RepliesCostAtMost(w, most)
    case OpDowngrade(_, w, _) => RepliesCostAtMost(w, most)
    case OpCreateNote(_, _, _, _, _, w) => RepliesCostAtMost(w, most)
    case _ => true
  }

  lemma ChosenAppHasRoom(db: Db, w: World, s: StreamerId)
    requires ValidWorld(w)
    ensures AppForBroadcaster(db, w, s).Some? ==>
      AppForBroadcaster(db, w, s).value in db.apps && HasRoom(db.apps[AppForBroadcaster(db, w, s).value])
  {
    if LeastLoaded(db) != {} {
      assert w.chooseApp(db.nextRow, LeastLoaded(db)) in LeastLoaded(db);
    }
  }

  lemma ChargeStaysWithin(apps: map<AppId, App>, a: AppId, amount: int, most: nat)
    requires Within(apps, most) && amount <= most
    requires amount > 0 && a in apps ==> HasRoom(apps[a])
    ensures Within(AddCost(apps, a, amount), most)
  {
  }

  lemma RegisterWithin(db: Db, w: World, s: StreamerId, e: EventType, most: nat)
    requires ValidWorld(w) && RepliesCostAtMost(w, most) && Within(db.apps, most)
    ensures Within(RegisterWithAppToken(db, w, s, e).0.apps, most)
  {
    ChosenAppHasRoom(db, w, s);
    if AppForBroadcaster(db, w, s).Some? && w.reply(db.nextRow).Accepted? {
      ChargeStaysWithin(db.apps, AppForBroadcaster(db, w, s).value, CostOf(w.reply(db.nextRow)), most);
    }
  }

  lemma RegisterEitherWithin(db: Db, w: World, s: StreamerId, e: EventType, most: nat)
    requires ValidWorld(w) && RepliesCostAtMost(w, most) && Within(db.apps, most)
    ensures Within(RegisterEither(db, w, s, e).0.apps, most)
  {
    var db1 := RegisterWithUserToken(db, w, s, e).0;
    assert db1.apps == db.apps;
    RegisterWithin(db, w, s, e, most);
    RegisterWithin(db1, w, s, e, most);
  }

  lemma RegisterAnyWithin(db: Db, w: World, s: StreamerId, e: EventType, most: nat)
    requires ValidWorld(w) && RepliesCostAtMost(w, most) && Within(db.apps, most)
    ensures Within(Register(db, w, s, e).0.apps, most)
  {
    RegisterEitherWithin(WithStreamer(db, s), w, s, e, most);
  }

  lemma GetOrCreateWithin(db: Db, w: World, s: StreamerId, e: EventType, most: nat)
    requires ValidWorld(w) && RepliesCostAtMost(w, most) && Within(db.apps, most)
    ensures Within(GetOrCreateEvent(db, w, s, e).0.apps, most)
  {
    RegisterAnyWithin(db, w, s, e, most);
  }

  lemma {:induction false} MigrateWithin(db: Db, w: World, internal: AppId, order: seq<RowId>, most: nat)
    requires Within(db.apps, most)
    ensures Within(MigrateRows(db, w, internal, order).apps, most)
    decreases |order|
  {
    if order != [] {
      if order[0] in db.rows {
        ChargeStaysWithin(db.apps, db.rows[order[0]].app, -(db.rows[order[0]].cost as int), most);
      }
      MigrateWithin(MigrateRow(db, w, internal, order[0]), w, internal, order[1..], most);
    }
  }

  lemma DowngradeRowWithin(db: Db, w: World, r: RowId, most: nat)
    requires ValidWorld(w) && RepliesCostAtMost(w, most) && Within(db.apps, most)
    ensures Within(DowngradeRow(db, w, r).apps, most)
  {
    if LeastLoaded(db) != {} {
      var app := w.chooseApp(r, LeastLoaded(db));
      assert app in LeastLoaded(db);
      if w.reply(r).Accepted? {
        ChargeStaysWithin(db.apps, app, CostOf(w.reply(r)), most);
      }
    }
  }

  lemma {:induction false} DowngradeWithin(db: Db, w: World, order: seq<RowId>, most: nat)
    requires ValidWorld(w) && RepliesCostAtMost(w, most) && Within(db.apps, most)
    ensures Within(DowngradeRows(db, w, order).apps, most)
    decreases |order|
  {
    if order != [] {
      DowngradeRowWithin(db, w, order[0], most);
      DowngradeWithin(DowngradeRow(db, w, order[0]), w, order[1..], most);
    }
  }

  lemma DeleteWithin(db: Db, w: World, r: RowId, most: nat)
    requires Within(db.apps, most)
    ensures Within(DeleteLocal(db, w, r).apps, most)
  {
    if r in db.rows {
      ChargeStaysWithin(db.apps, db.rows[r].app, -(db.rows[r].cost as int), most);
    }
  }

  lemma OpStaysWithin(db: Db, op: Op, most: nat)
    requires Possible(db, op) && OpCostsAtMost(op, most) && Within(db.apps, most)
    ensures Within(Exec(db, op).apps, most)
  {
    match op
    case OpRegister(s, e, w) => RegisterAnyWithin(db, w, s, e, most);
    case OpCreateNote(s, e, _, _, _, w) => GetOrCreateWithin(db, w, s, e, most);
    case OpMigrate(s, w, order) =>
      if CanMigrate(db, w, s) { MigrateWithin(db, w, FindInternalApp(db, w).value, order, most); }
    case OpDowngrade(s, w, order) => DowngradeWithin(db, w, order, most);
    case OpDeleteLocal(r, w) => DeleteWithin(db, w, r, most);
    case OpDeleteNote(n, w) =>
      if n in db.notes { DeleteWithin(db.(notes := db.notes - {n}), w, db.notes[n].row, most); }
    case _ =>
  }

  /** On every run of complete operations whose registrations cost at most `most`, no app
      exceeds `maxCost - 1 + most`: registrations, downgrades of any length and creations only
      ever charge an app that has room at that moment. */
  lemma {:induction false} LoadOverRuns(db: Db, ops: seq<Op>, most: nat)
    requires PossibleRun(db, ops) && Within(db.apps, most)
    requires forall op <- ops :: OpCostsAtMost(op, most)
    ensures Within(Run(db, ops).apps, most)
    decreases |ops|
  {
    if ops != [] {
      OpStaysWithin(db, ops[0], most);
      LoadOverRuns(Exec(db, ops[0]), ops[1..], most);
    }
  }
}
