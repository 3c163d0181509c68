/** The tables and the remote state behind Twitch subscriptions, and what each operation of
    the subscription service, its cron and the notification service does to them. */
module SubscriptionDb {
  import opened Wrappers

  type AppId = nat
  type RowId = nat
  type SubId = nat
  type NoteId = nat
  type StreamerId = nat
  type EventType = nat

  datatype AppStatus = Active | Internal | Locked
  datatype App = App(status: AppStatus, currentCost: int, maxCost: int)

  datatype EventStatus = Pending | Verified | Revoked | Deactivated
  datatype Row = Row(streamer: StreamerId, event: EventType, app: AppId, cost: nat, sub: Option<SubId>, status: EventStatus)

  datatype Kind = Discord | Webhook
  datatype Funding = Personal | Credit | Guild
  datatype Note = Note(kind: Kind, row: RowId, funding: Funding, suspended: bool)

  datatype Streamer = Streamer(linked: bool, allowPersonal: bool)

  datatype Db = Db(
    apps: map<AppId, App>,
    streamers: map<StreamerId, Streamer>,
    rows: map<RowId, Row>,
    nextRow: RowId,
    notes: map<NoteId, Note>,
    nextNote: NoteId,
    remote: map<SubId, AppId>,                    // live subscriptions at Twitch and who holds them
    nextSub: SubId)

  /** Twitch's answer to a registration; the cost may be missing. */
  datatype Reply = Refused | Accepted(cost: Option<nat>)

  /** What one operation meets outside the service: answers of Twitch, and which of several
      matching records an unordered query returns. */
  datatype World = World(
    streamerFound: bool,
    userToken: bool,
    reply: RowId -> Reply,
    deletes: SubId -> bool,
    chooseInternal: set<AppId> -> AppId,
    chooseApp: (RowId, set<AppId>) -> AppId,
    chooseRow: set<RowId> -> RowId)

  ghost predicate ValidWorld(w: World) {
    && (forall S: set<AppId> | S != {} :: w.chooseInternal(S) in S)
    && (forall r: RowId, S: set<AppId> | S != {} :: w.chooseApp(r, S) in S)
    && (forall S: set<RowId> | S != {} :: w.chooseRow(S) in S)
  }

  // ---------------------------------------------------------------- queries

  function InternalApps(db: Db): set<AppId> {
    set a | a in db.apps && db.apps[a].status.Internal?
  }

  function FindInternalApp(db: Db, w: World): Option<AppId> {
    if InternalApps(db) == {} then None else Some(w.chooseInternal(InternalApps(db)))
  }

  predicate HasRoom(app: App) {
    app.currentCost < app.maxCost
  }

  function Candidates(db: Db): set<AppId> {
    set a | a in db.apps && db.apps[a].status.Active? && HasRoom(db.apps[a])
  }

  /** Active apps with room and the least current cost. */
  function LeastLoaded(db: Db): set<AppId> {
    set a | a in Candidates(db) && forall b <- Candidates(db) :: db.apps[a].currentCost <= db.apps[b].currentCost
  }

  function FindLeastLoaded(db: Db, w: World, r: RowId): Option<AppId> {
    if LeastLoaded(db) == {} then None else Some(w.chooseApp(r, LeastLoaded(db)))
  }

  /** Rows of the streamer on an app that is not internal. */
  function SharedRows(db: Db, s: StreamerId): set<RowId> {
    set r | r in db.rows && db.rows[r].streamer == s
      && !(db.rows[r].app in db.apps && db.apps[db.rows[r].app].status.Internal?)
  }

  /** `getTwitchAppForBroadcaster`: the app of another subscription of the streamer if it has
      room, else a least loaded one. */
  function AppForBroadcaster(db: Db, w: World, s: StreamerId): Option<AppId> {
    var shared := SharedRows(db, s);
    var r := w.chooseRow(shared);
    if shared != {} && r in db.rows && db.rows[r].app in db.apps && HasRoom(db.apps[db.rows[r].app])
    then Some(db.rows[r].app)
    else FindLeastLoaded(db, w, db.nextRow)
  }

  function RowsOf(db: Db, s: StreamerId, e: EventType): set<RowId> {
    set r | r in db.rows && db.rows[r].streamer == s && db.rows[r].event == e
  }

  predicate NonCredit(db: Db, r: RowId) {
    exists n <- db.notes :: db.notes[n].row == r && db.notes[n].funding != Credit
  }

  predicate Referenced(db: Db, r: RowId) {
    exists n <- db.notes :: db.notes[n].row == r
  }

  // ---------------------------------------------------------------- single effects

  function CostOf(reply: Reply): nat
    requires reply.Accepted?
  {
    if reply.cost.Some? then reply.cost.value else 1
  }

  /** `consumeAppCost` with a positive amount, `releaseAppCost` with a negative one. */
  function AddCost(apps: map<AppId, App>, a: AppId, amount: int): map<AppId, App> {
    if a in apps then apps[a := apps[a].(currentCost := apps[a].currentCost + amount)] else apps
  }

  /** Deleting at Twitch works only for the app that holds the subscription; a failure is
      swallowed by every caller that uses this. */
  function DeleteRemote(db: Db, w: World, row: Row): map<SubId, AppId> {
    if row.sub.Some? && row.sub.value in db.remote && db.remote[row.sub.value] == row.app && w.deletes(row.sub.value)
    then db.remote - {row.sub.value}
    else db.remote
  }

  function SuspendNotes(notes: map<NoteId, Note>, r: RowId): map<NoteId, Note> {
    map n | n in notes :: if notes[n].row == r then notes[n].(suspended := true) else notes[n]
  }

  // ---------------------------------------------------------------- registering

  datatype RegisterResult =
    | Registered(row: RowId)
    | NoSuchStreamer
    | NoApp
    | Rejected(app: AppId)                        // Twitch refused; the row stays behind
    | Duplicate                                   // the unique (event, streamer) index

  /** `tryRegisterWithUserToken`: None when the caller must fall back to an app token. */
  function RegisterWithUserToken(db: Db, w: World, s: StreamerId, e: EventType): (Db, Option<RowId>) {
    if !w.userToken || FindInternalApp(db, w).None? then (db, None)
    else
      var app := FindInternalApp(db, w).value;
      var r := db.nextRow;
      if w.reply(r).Refused? then (db.(nextRow := r + 1), None)
      else
        (db.(rows := db.rows[r := Row(s, e, app, 0, Some(db.nextSub), Pending)], nextRow := r + 1,
             remote := db.remote[db.nextSub := app], nextSub := db.nextSub + 1), Some(r))
  }

  function RegisterWithAppToken(db: Db, w: World, s: StreamerId, e: EventType): (Db, RegisterResult) {
    match AppForBroadcaster(db, w, s)
    case None => (db, NoApp)
    case Some(app) =>
      var r := db.nextRow;
      if w.reply(r).Refused? then
        (db.(rows := db.rows[r := Row(s, e, app, 1, None, Pending)], nextRow := r + 1), Rejected(app))
      else
        var cost := CostOf(w.reply(r));
        (db.(rows := db.rows[r := Row(s, e, app, cost, Some(db.nextSub), Pending)], nextRow := r + 1,
             remote := db.remote[db.nextSub := app], nextSub := db.nextSub + 1,
             apps := AddCost(db.apps, app, cost)), Registered(r))
  }

  function WithStreamer(db: Db, s: StreamerId): Db {
    if s in db.streamers then db else db.(streamers := db.streamers[s := Streamer(false, true)])
  }

  predicate IsPersonal(db: Db, s: StreamerId) {
    s in db.streamers && db.streamers[s].linked && db.streamers[s].allowPersonal
  }

  function RegisterEither(db: Db, w: World, s: StreamerId, e: EventType): (Db, RegisterResult) {
    if !IsPersonal(db, s) then RegisterWithAppToken(db, w, s, e)
    else
      var (db1, row) := RegisterWithUserToken(db, w, s, e);
      if row.Some? then (db1, Registered(row.value)) else RegisterWithAppToken(db1, w, s, e)
  }

  /** `registerSubscription`. A second row for the pair is stopped by the unique index, on
      whichever path tries to save it first. */
  function Register(db: Db, w: World, s: StreamerId, e: EventType): (Db, RegisterResult) {
    if !w.streamerFound then (db, NoSuchStreamer)
    else
      var db1 := WithStreamer(db, s);
      if RowsOf(db1, s, e) == {} then RegisterEither(db1, w, s, e)
      else if IsPersonal(db1, s) && w.userToken && FindInternalApp(db1, w).Some? then (db1, Duplicate)
      else if AppForBroadcaster(db1, w, s).None? then (db1, NoApp)
      else (db1, Duplicate)
  }

  function GetOrCreateEvent(db: Db, w: World, s: StreamerId, e: EventType): (Db, RegisterResult) {
    if s in db.streamers && RowsOf(db, s, e) != {} then (db, Registered(w.chooseRow(RowsOf(db, s, e))))
    else Register(db, w, s, e)
  }

  // ---------------------------------------------------------------- migrating and downgrading

  /** The query returned each matching row once, in some order. */
  predicate Lists(order: seq<RowId>, rows: set<RowId>) {
    && (forall i, j :: 0 <= i < j < |order| ==> order[i] != order[j])
    && (forall r <- order :: r in rows)
    && (forall r <- rows :: r in order)
  }

  function RowsToMigrate(db: Db, s: StreamerId, internal: AppId): set<RowId> {
    set r | r in db.rows && db.rows[r].streamer == s && db.rows[r].app != internal
  }

  function MigrateRow(db: Db, w: World, internal: AppId, r: RowId): Db {
    if r !in db.rows || w.reply(r).Refused? then db
    else
      var row := db.rows[r];
      var moved := row.(sub := Some(db.nextSub), app := internal, cost := 0, status := Pending);
      var registered := db.(rows := db.rows[r := moved], remote := db.remote[db.nextSub := internal], nextSub := db.nextSub + 1);
      registered.(remote := DeleteRemote(registered, w, row), apps := AddCost(db.apps, row.app, -(row.cost as int)))
  }

  function MigrateRows(db: Db, w: World, internal: AppId, order: seq<RowId>): Db
    decreases |order|
  {
    if order == [] then db else MigrateRows(MigrateRow(db, w, internal, order[0]), w, internal, order[1..])
  }

  predicate CanMigrate(db: Db, w: World, s: StreamerId) {
    s in db.streamers && db.streamers[s].allowPersonal && w.userToken && FindInternalApp(db, w).Some?
  }

  function Migrate(db: Db, w: World, s: StreamerId, order: seq<RowId>): Db {
    if CanMigrate(db, w, s) then MigrateRows(db, w, FindInternalApp(db, w).value, order) else db
  }

  function RowsToDowngrade(db: Db, s: StreamerId, internal: AppId): set<RowId> {
    set r | r in db.rows && db.rows[r].streamer == s && db.rows[r].app == internal
  }

  function DowngradeRow(db: Db, w: World, r: RowId): Db {
    if r !in db.rows then db
    else
      var row := db.rows[r];
      if !NonCredit(db, r) then
        db.(remote := DeleteRemote(db, w, row), rows := db.rows[r := row.(status := Deactivated)],
            notes := SuspendNotes(db.notes, r))
      else
        match FindLeastLoaded(db, w, r)
        case None => db
        case Some(app) =>
          if w.reply(r).Refused? then db
          else
            var cost := CostOf(w.reply(r));
            var moved := row.(sub := Some(db.nextSub), app := app, cost := cost, status := Pending);
            var registered := db.(remote := db.remote[db.nextSub := app], nextSub := db.nextSub + 1);
            registered.(remote := DeleteRemote(registered, w, row), rows := db.rows[r := moved],
                        apps := AddCost(db.apps, app, cost))
  }

  function DowngradeRows(db: Db, w: World, order: seq<RowId>): Db
    decreases |order|
  {
    if order == [] then db else DowngradeRows(DowngradeRow(db, w, order[0]), w, order[1..])
  }

  function Downgrade(db: Db, w: World, order: seq<RowId>): Db {
    if FindInternalApp(db, w).None? then db else DowngradeRows(db, w, order)
  }

  // ---------------------------------------------------------------- deleting

  /** Removing a row cascades to the notifications that refer to it. */
  function DeleteLocal(db: Db, w: World, r: RowId): Db {
    if r !in db.rows then db
    else
      var row := db.rows[r];
      db.(remote := DeleteRemote(db, w, row), apps := AddCost(db.apps, row.app, -(row.cost as int)), rows := db.rows - {r},
          notes := map n | n in db.notes && db.notes[n].row != r :: db.notes[n])
  }

  predicate HasRowWithSub(db: Db, sub: SubId) {
    exists r <- db.rows :: db.rows[r].sub == Some(sub)
  }

  function DeleteTwitchOnly(db: Db, w: World, sub: SubId, app: AppId): Db {
    if HasRowWithSub(db, sub) || sub !in db.remote || db.remote[sub] != app || !w.deletes(sub) then db
    else db.(remote := db.remote - {sub})
  }

  function ChangeEventStatus(db: Db, r: RowId, status: EventStatus): Db {
    if r in db.rows then db.(rows := db.rows[r := db.rows[r].(status := status)]) else db
  }

  // ---------------------------------------------------------------- notifications

  /** `createDiscordNotification` and `createWebhookNotification`; `funded` says whether the
      payload was valid and the charge succeeded. */
  function CreateNote(db: Db, w: World, s: StreamerId, e: EventType, kind: Kind, funding: Funding, funded: bool): Db {
    var (db1, result) := GetOrCreateEvent(db, w, s, e);
    if result.Registered? && funded then
      db1.(notes := db1.notes[db1.nextNote := Note(kind, result.row, funding, false)], nextNote := db1.nextNote + 1)
    else db1
  }

  function CleanupIfUnused(db: Db, w: World, r: RowId): Db {
    if Referenced(db, r) then db else DeleteLocal(db, w, r)
  }

  function DeleteNote(db: Db, w: World, n: NoteId): Db {
    if n !in db.notes then db else CleanupIfUnused(db.(notes := db.notes - {n}), w, db.notes[n].row)
  }

  /** An update rewrites the cost type without a charge and reactivates the notification. */
  function UpdateNote(db: Db, n: NoteId, funding: Funding): Db {
    if n in db.notes then db.(notes := db.notes[n := db.notes[n].(funding := funding, suspended := false)]) else db
  }

  /** Linking or unlinking a Twitch account, or switching personal subscriptions, before or
      after the migration or downgrade that goes with it. */
  function SetStreamer(db: Db, s: StreamerId, linked: bool, allowPersonal: bool): Db {
    db.(streamers := db.streamers[s := Streamer(linked, allowPersonal)])
  }

  // ---------------------------------------------------------------- the cron

  datatype ApiStatus = Enabled | VerificationPending | VerificationFailed | AuthorizationRevoked | UserRemoved | OtherStatus
  datatype ApiSub = ApiSub(status: ApiStatus, cost: Option<nat>)

  /** Answers to the cron: per app a list of subscriptions or an error, and per row whether
      it counts as older than an hour. */
  datatype CronWorld = CronWorld(api: AppId -> Option<map<SubId, ApiSub>>, aged: RowId -> bool)

  function ApiSubOf(db: Db, c: CronWorld, r: RowId): Option<ApiSub> {
    if r !in db.rows || db.rows[r].sub.None? then None
    else
      match c.api(db.rows[r].app)
      case None => None
      case Some(subs) => if db.rows[r].sub.value in subs then Some(subs[db.rows[r].sub.value]) else None
  }

  predicate IsFailed(db: Db, c: CronWorld, r: RowId) {
    match ApiSubOf(db, c, r)
    case None => true
    case Some(sub) => sub.status.VerificationFailed? || sub.status.AuthorizationRevoked? || sub.status.UserRemoved?
  }

  function ReleaseOf(db: Db, c: CronWorld, r: RowId): nat {
    if IsFailed(db, c, r) && c.aged(r) && ApiSubOf(db, c, r).Some? && ApiSubOf(db, c, r).value.cost.Some?
    then ApiSubOf(db, c, r).value.cost.value else 0
  }

  function OnApp(db: Db, order: seq<RowId>, a: AppId): seq<RowId> {
    if order == [] then []
    else (if order[0] in db.rows && db.rows[order[0]].app == a then [order[0]] else []) + OnApp(db, order[1..], a)
  }

  function SumReleases(db: Db, c: CronWorld, order: seq<RowId>): nat {
    if order == [] then 0 else ReleaseOf(db, c, order[0]) + SumReleases(db, c, order[1..])
  }

  /** What the cron gives back to an app. */
  function Released(db: Db, c: CronWorld, order: seq<RowId>, a: AppId): nat {
    SumReleases(db, c, OnApp(db, order, a))
  }

  function StaleRows(db: Db, stale: RowId -> bool): set<RowId> {
    set r | r in db.rows && db.rows[r].status.Pending? && stale(r)
  }

  function CronStatus(db: Db, c: CronWorld, order: seq<RowId>, r: RowId): EventStatus
    requires r in db.rows
  {
    if r !in order then db.rows[r].status
    else if !IsFailed(db, c, r) then Verified
    else if c.aged(r) then Revoked
    else db.rows[r].status
  }

  predicate ApiAnswers(db: Db, c: CronWorld, order: seq<RowId>) {
    forall r <- order :: r in db.rows ==> c.api(db.rows[r].app).Some?
  }

  /** `syncStaleSubscriptions`: nothing is written when a Twitch call fails. */
  function Cron(db: Db, c: CronWorld, order: seq<RowId>): Db {
    if !ApiAnswers(db, c, order) then db
    else
      db.(rows := map r | r in db.rows :: db.rows[r].(status := CronStatus(db, c, order, r)),
          apps := map a | a in db.apps :: db.apps[a].(currentCost := db.apps[a].currentCost - Released(db, c, order, a)))
  }

  // ---------------------------------------------------------------- runs

  datatype Op =
    | OpRegister(s: StreamerId, e: EventType, w: World)
    | OpMigrate(s: StreamerId, w: World, order: seq<RowId>)
    | OpDowngrade(s: StreamerId, w: World, order: seq<RowId>)
    | OpDeleteLocal(r: RowId, w: World)
    | OpDeleteTwitchOnly(sub: SubId, app: AppId, w: World)
    | OpStatus(r: RowId, status: EventStatus)
    | OpCron(c: CronWorld, stale: RowId -> bool, order: seq<RowId>)
    | OpCreateNote(s: StreamerId, e: EventType, kind: Kind, funding: Funding, funded: bool, w: World)
    | OpUpdateNote(n: NoteId, funding: Funding)
    | OpDeleteNote(n: NoteId, w: World)
    | OpSetStreamer(s: StreamerId, linked: bool, allowPersonal: bool)

  function Exec(db: Db, op: Op): Db {
    match op
    case OpRegister(s, e, w) => Register(db, w, s, e).0
    case OpMigrate(s, w, order) => Migrate(db, w, s, order)
    case OpDowngrade(s, w, order) => Downgrade(db, w, order)
    case OpDeleteLocal(r, w) => DeleteLocal(db, w, r)
    case OpDeleteTwitchOnly(sub, app, w) => DeleteTwitchOnly(db, w, sub, app)
    case OpStatus(r, status) => ChangeEventStatus(db, r, status)
    case OpCron(c, stale, order) => Cron(db, c, order)
    case OpCreateNote(s, e, kind, funding, funded, w) => CreateNote(db, w, s, e, kind, funding, funded)
    case OpUpdateNote(n, funding) => UpdateNote(db, n, funding)
    case OpDeleteNote(n, w) => DeleteNote(db, w, n)
    case OpSetStreamer(s, linked, allowPersonal) => SetStreamer(db, s, linked, allowPersonal)
  }

  /** The answers given to the operation are ones the outside could give. */
  ghost predicate Possible(db: Db, op: Op) {
    match op
    case OpMigrate(s, w, order) =>
      ValidWorld(w) && (CanMigrate(db, w, s) ==> Lists(order, RowsToMigrate(db, s, FindInternalApp(db, w).value)))
    case OpDowngrade(s, w, order) =>
      ValidWorld(w) && (FindInternalApp(db, w).Some? ==> Lists(order, RowsToDowngrade(db, s, FindInternalApp(db, w).value)))
    case OpCron(c, stale, order) => Lists(order, StaleRows(db, stale))
    case OpRegister(_, _, w) => ValidWorld(w)
    case OpCreateNote(_, _, _, _, _, w) => ValidWorld(w)
    case _ => true
  }

  function Run(db: Db, ops: seq<Op>): Db
    decreases |ops|
  {
    if ops == [] then db else Run(Exec(db, ops[0]), ops[1..])
  }

  ghost predicate PossibleRun(db: Db, ops: seq<Op>)
    decreases |ops|
  {
    ops != [] ==> Possible(db, ops[0]) && PossibleRun(Exec(db, ops[0]), ops[1..])
  }
}
