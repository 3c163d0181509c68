/** Who may see and manage a Discord guild: the permission bits, the access rule, the cached
    verdicts under Redis keys, and their removal by a key pattern. */
module GuildAccess {
  import opened Wrappers

  // ---------------------------------------------------------------- permission bits

  /** The bitwise AND of two arbitrarily long non-negative integers. */
  function BitAnd(a: nat, b: nat): nat
    decreases a + b
  {
    if a == 0 || b == 0 then 0
    else (if a % 2 == 1 && b % 2 == 1 then 1 else 0) + 2 * BitAnd(a / 2, b / 2)
  }

  predicate Bit(a: nat, i: nat)
    decreases i
  {
    if i == 0 then a % 2 == 1 else Bit(a / 2, i - 1)
  }

  predicate HasPermission(permissions: nat, flag: nat) {
    BitAnd(permissions, flag) == flag
  }

  ghost predicate Covers(permissions: nat, flag: nat) {
    forall i: nat :: Bit(flag, i) ==> Bit(permissions, i)
  }

  lemma {:induction false} ZeroHasNoBits(i: nat)
    ensures !Bit(0, i)
    decreases i
  {
    if i > 0 { ZeroHasNoBits(i - 1); }
  }

  lemma {:induction false} PositiveHasABit(a: nat) returns (i: nat)
    requires a > 0
    ensures Bit(a, i)
    decreases a
  {
    if a % 2 == 1 {
      i := 0;
    } else {
      var k := PositiveHasABit(a / 2);
      i := k + 1;
    }
  }

  lemma CoversHalves(p: nat, f: nat)
    ensures Covers(p, f) <==> (f % 2 == 1 ==> p % 2 == 1) && Covers(p / 2, f / 2)
  {
    if Covers(p, f) {
      assert Bit(f, 0) ==> Bit(p, 0);
      forall i: nat | Bit(f / 2, i) ensures Bit(p / 2, i) {
        assert Bit(f, i + 1);
        assert Bit(p, i + 1);
      }
    }
    if (f % 2 == 1 ==> p % 2 == 1) && Covers(p / 2, f / 2) {
      forall i: nat | Bit(f, i) ensures Bit(p, i) {
        if i > 0 {
          assert Bit(f / 2, i - 1);
        }
      }
    }
  }

  /** The mask test holds exactly when every bit of the required flag is among the member's bits. */
  lemma {:induction false} HasPermissionIffCovers(p: nat, f: nat)
    ensures HasPermission(p, f) <==> Covers(p, f)
    decreases f
  {
    if f == 0 {
      forall i: nat ensures !Bit(f, i) { ZeroHasNoBits(i); }
    } else if p == 0 {
      var i := PositiveHasABit(f);
      ZeroHasNoBits(i);
    } else {
      HasPermissionIffCovers(p / 2, f / 2);
      CoversHalves(p, f);
      AndHalves(p, f);
    }
  }

  lemma AndHalves(p: nat, f: nat)
    requires p > 0 && f > 0
    ensures HasPermission(p, f) <==> (f % 2 == 1 ==> p % 2 == 1) && HasPermission(p / 2, f / 2)
  {
    assert f == 2 * (f / 2) + f % 2;
  }

  // ---------------------------------------------------------------- key strings

  const ACCESS_PREFIX := "discord:guild_access:"

  function UserKey(guild: string, user: string): string { ACCESS_PREFIX + guild + ":" + user }
  function AdminKey(guild: string, user: string): string { ACCESS_PREFIX + guild + ":" + user + ":admin" }
  function GuildPattern(guild: string): string { ACCESS_PREFIX + guild + ":*" }

  /** The key patterns of Redis without bracket classes: a star is any text, a question mark any
      one character, and a backslash quotes the next character. */
  predicate Matches(pattern: string, s: string)
    requires '[' !in pattern
    decreases |pattern| + |s|
  {
    if pattern == "" then s == ""
    else if pattern[0] == '*' then Matches(pattern[1..], s) || (s != "" && Matches(pattern, s[1..]))
    else if pattern[0] == '?' then s != "" && Matches(pattern[1..], s[1..])
    else if pattern[0] == '\\' && |pattern| > 1 then s != "" && s[0] == pattern[1] && Matches(pattern[2..], s[1..])
    else s != "" && s[0] == pattern[0] && Matches(pattern[1..], s[1..])
  }

  predicate IsLiteral(s: string) {
    forall c <- s :: c !in ['*', '?', '[', '\\']
  }

  /** Ids as Discord and the user table issue them: no separator and no pattern character. */
  predicate IsId(s: string) {
    IsLiteral(s) && ':' !in s
  }

  lemma {:induction false} StarMatchesAll(s: string)
    ensures Matches("*", s)
    decreases |s|
  {
    if s != "" { StarMatchesAll(s[1..]); }
  }

  lemma {:induction false} LiteralStarIsPrefix(l: string, s: string)
    requires IsLiteral(l)
    ensures '[' !in l + "*" && (Matches(l + "*", s) <==> l <= s)
    decreases |l|
  {
    if l == "" {
      StarMatchesAll(s);
      assert l + "*" == "*";
    } else {
      assert l[0] in l;
      assert (l + "*")[1..] == l[1..] + "*";
      LiteralStarIsPrefix(l[1..], if s == "" then s else s[1..]);
      assert s != "" ==> (l <= s <==> l[0] == s[0] && l[1..] <= s[1..]);
    }
  }

  lemma SeparatorEndsTheGuild(prefix: string, g: string, h: string, rest: string)
    requires ':' !in g && ':' !in h
    ensures prefix + g + ":" <= prefix + h + ":" + rest <==> g == h
  {
    var a, b, n := prefix + g + ":", prefix + h + ":" + rest, |prefix|;
    assert b[n + |h|] == ':' && a[n + |g|] == ':';
    if a <= b {
      assert forall i :: 0 <= i < |a| ==> a[i] == b[i];
      assert forall i :: 0 <= i < |g| ==> a[n + i] == g[i];
      assert forall i :: 0 <= i < |h| ==> b[n + i] == h[i];
      assert |g| == |h|;
      assert a[n..n + |g|] == g && b[n..n + |h|] == h;
    }
  }

  /** Deleting by a guild's pattern hits all keys of that guild and no key of another. */
  lemma PatternHitsExactlyTheGuild(g: string, h: string, user: string)
    requires IsId(g) && IsId(h)
    ensures '[' !in GuildPattern(g)
    ensures Matches(GuildPattern(g), UserKey(h, user)) <==> g == h
    ensures Matches(GuildPattern(g), AdminKey(h, user)) <==> g == h
  {
    var l := ACCESS_PREFIX + g + ":";
    assert IsLiteral(l);
    assert GuildPattern(g) == l + "*";
    LiteralStarIsPrefix(l, UserKey(h, user));
    LiteralStarIsPrefix(l, AdminKey(h, user));
    SeparatorEndsTheGuild(ACCESS_PREFIX, g, h, user);
    SeparatorEndsTheGuild(ACCESS_PREFIX, g, h, user + ":admin");
    assert AdminKey(h, user) == ACCESS_PREFIX + h + ":" + (user + ":admin");
  }

  lemma SplitAtSeparator(prefix: string, g: string, h: string, a: string, b: string)
    requires ':' !in g && ':' !in h
    requires prefix + g + ":" + a == prefix + h + ":" + b
    ensures g == h && a == b
  {
    assert prefix + g + ":" <= prefix + h + ":" + b;
    SeparatorEndsTheGuild(prefix, g, h, b);
    assert (prefix + g + ":" + a)[|prefix + g + ":"|..] == a;
    assert (prefix + h + ":" + b)[|prefix + h + ":"|..] == b;
  }

  /** No two verdicts share a key: neither two users, nor two guilds, nor the two questions. */
  lemma KeysAreDistinct(g: string, u: string, h: string, v: string)
    requires IsId(g) && IsId(u) && IsId(h) && IsId(v)
    ensures UserKey(g, u) == UserKey(h, v) ==> g == h && u == v
    ensures AdminKey(g, u) == AdminKey(h, v) ==> g == h && u == v
    ensures UserKey(g, u) != AdminKey(h, v)
  {
    var p := ACCESS_PREFIX;
    assert AdminKey(h, v) == p + h + ":" + (v + ":admin");
    assert AdminKey(g, u) == p + g + ":" + (u + ":admin");
    if UserKey(g, u) == UserKey(h, v) {
      SplitAtSeparator(p, g, h, u, v);
    }
    if AdminKey(g, u) == AdminKey(h, v) {
      SplitAtSeparator(p, g, h, u + ":admin", v + ":admin");
      assert (u + ":admin")[..|u|] == u && (v + ":admin")[..|v|] == v;
    }
    assert (v + ":admin")[|v|] == ':';
    if UserKey(g, u) == AdminKey(h, v) {
      SplitAtSeparator(p, g, h, u, v + ":admin");
    }
  }

  // ---------------------------------------------------------------- the access rule

  type UserId = s: string | IsId(s) witness "u"
  type GuildId = s: string | IsId(s) witness "g"

  datatype Guild = Guild(id: GuildId, owner: bool, permissions: nat)

  const ADMINISTRATOR: nat := 8

  type LookupId = nat

  /** A verdict resolved under some rows and not stored yet. */
  datatype Lookup = Lookup(user: UserId, id: GuildId, admin: bool, rows: map<GuildId, Option<nat>>, verdict: bool)

  datatype State = State(
    guildsOf: map<UserId, seq<Guild>>,            // what Discord lists for a user
    rows: map<GuildId, Option<nat>>,              // guild rows with their manager permission
    cache: map<string, bool>,                     // the live Redis keys
    lookups: map<LookupId, Lookup>)               // lookups in flight

  function FindGuild(guilds: seq<Guild>, id: GuildId): Option<Guild> {
    if guilds == [] then None
    else if guilds[0].id == id then Some(guilds[0])
    else FindGuild(guilds[1..], id)
  }

  predicate IsManager(rows: map<GuildId, Option<nat>>, g: Guild) {
    g.id in rows && rows[g.id].Some? && HasPermission(g.permissions, rows[g.id].value)
  }

  function GuildsOf(s: State, user: UserId): seq<Guild> {
    if user in s.guildsOf then s.guildsOf[user] else []
  }

  /** None where the lookup throws: a user without that guild is an error, not a refusal. */
  function ResolveAccess(s: State, user: UserId, id: GuildId, shouldBeAdmin: bool): Option<bool> {
    match FindGuild(GuildsOf(s, user), id)
    case None => None
    case Some(g) =>
      if g.owner then Some(true)
      else if HasPermission(g.permissions, ADMINISTRATOR) then Some(true)
      else if shouldBeAdmin then Some(false)
      else Some(IsManager(s.rows, g))
  }

  function VerdictKey(user: UserId, id: GuildId, admin: bool): string {
    if admin then AdminKey(id, user) else UserKey(id, user)
  }

  /** A cached verdict is returned whether it is true or false; a fresh one is stored. */
  function Check(s: State, user: UserId, id: GuildId, admin: bool): (State, Option<bool>) {
    var key := VerdictKey(user, id, admin);
    if key in s.cache then (s, Some(s.cache[key]))
    else
      var v := ResolveAccess(s, user, id, admin);
      (if v.Some? then s.(cache := s.cache[key := v.value]) else s, v)
  }

  function SetPermission(s: State, id: GuildId, permission: Option<nat>): State {
    var rows := if id in s.rows then s.rows[id := permission] else s.rows;
    LiteralStarIsPrefix(ACCESS_PREFIX + id + ":", "");
    assert GuildPattern(id) == ACCESS_PREFIX + id + ":" + "*";
    s.(rows := rows, cache := map k | k in s.cache && !Matches(GuildPattern(id), k) :: s.cache[k])
  }

  /** The first half of a check that misses the cache. */
  function BeginLookup(s: State, l: LookupId, user: UserId, id: GuildId, admin: bool): State {
    var v := ResolveAccess(s, user, id, admin);
    if l in s.lookups || VerdictKey(user, id, admin) in s.cache || v.None? then s
    else s.(lookups := s.lookups[l := Lookup(user, id, admin, s.rows, v.value)])
  }

  /** The second half. */
  function StoreVerdict(s: State, l: LookupId): State {
    if l !in s.lookups then s
    else
      var k := s.lookups[l];
      s.(cache := s.cache[VerdictKey(k.user, k.id, k.admin) := k.verdict], lookups := s.lookups - {l})
  }

  /** The pattern delete leaves no key of the guild and every key of the others. */
  lemma PatternSparesOthers(s: State, id: GuildId, permission: Option<nat>)
    ensures forall user: UserId, admin: bool :: VerdictKey(user, id, admin) !in SetPermission(s, id, permission).cache
    ensures forall user: UserId, h: GuildId, admin: bool {:trigger VerdictKey(user, h, admin)} :: h != id ==>
      (VerdictKey(user, h, admin) in SetPermission(s, id, permission).cache <==> VerdictKey(user, h, admin) in s.cache)
  {
    forall user: UserId, h: GuildId {
      PatternHitsExactlyTheGuild(id, h, user);
    }
  }

  function CreateGuild(s: State, id: GuildId): State {
    if id in s.rows then s else s.(rows := s.rows[id := None])
  }

  function VisibleGuilds(rows: map<GuildId, Option<nat>>, guilds: seq<Guild>): seq<Guild> {
    if guilds == [] then [] else
      var g, rest := guilds[0], VisibleGuilds(rows, guilds[1..]);
      if g.owner then [g] + rest
      else if HasPermission(g.permissions, ADMINISTRATOR) then [g] + rest
      else if IsManager(rows, g) then [g] + rest
      else rest
  }

  // ---------------------------------------------------------------- runs

  datatype Op =
    | OpCheck(user: UserId, id: GuildId, admin: bool)
    | OpBegin(l: LookupId, user: UserId, id: GuildId, admin: bool)
    | OpStore(l: LookupId)
    | OpSetPermission(id: GuildId, permission: Option<nat>)
    | OpCreateGuild(id: GuildId)
    | OpExpire(key: string)

  function Exec(s: State, op: Op): State {
    match op
    case OpCheck(user, id, admin) => Check(s, user, id, admin).0
    case OpBegin(l, user, id, admin) => BeginLookup(s, l, user, id, admin)
    case OpStore(l) => StoreVerdict(s, l)
    case OpSetPermission(id, permission) => SetPermission(s, id, permission)
    case OpCreateGuild(id) => CreateGuild(s, id)
    case OpExpire(key) => s.(cache := s.cache - {key})
  }

  function Run(s: State, ops: seq<Op>): State
    decreases |ops|
  {
    if ops == [] then s else Run(Exec(s, ops[0]), ops[1..])
  }

  ghost predicate Coherent(s: State) {
    forall user: UserId, id: GuildId, admin: bool {:trigger VerdictKey(user, id, admin)} ::
      VerdictKey(user, id, admin) in s.cache ==>
        ResolveAccess(s, user, id, admin) == Some(s.cache[VerdictKey(user, id, admin)])
  }

  lemma OtherGuildsUnaffected(s: State, t: State, user: UserId, id: GuildId, admin: bool)
    requires t.guildsOf == s.guildsOf
    requires (id in t.rows && t.rows[id].Some?) == (id in s.rows && s.rows[id].Some?)
    requires id in t.rows && t.rows[id].Some? ==> id in s.rows && t.rows[id] == s.rows[id]
    ensures ResolveAccess(t, user, id, admin) == ResolveAccess(s, user, id, admin)
  {
    FoundHasId(GuildsOf(s, user), id);
  }

  lemma {:induction false} FoundHasId(guilds: seq<Guild>, id: GuildId)
    ensures FindGuild(guilds, id).Some? ==> FindGuild(guilds, id).value.id == id
    decreases |guilds|
  {
    if guilds != [] { FoundHasId(guilds[1..], id); }
  }

  lemma CheckKeepsCoherent(s: State, user: UserId, id: GuildId, admin: bool)
    requires Coherent(s)
    ensures Coherent(Check(s, user, id, admin).0)
    ensures Check(s, user, id, admin).1 == ResolveAccess(s, user, id, admin)
  {
    var t := Check(s, user, id, admin).0;
    forall u: UserId, g: GuildId, a: bool | VerdictKey(u, g, a) in t.cache
      ensures ResolveAccess(t, u, g, a) == Some(t.cache[VerdictKey(u, g, a)])
    {
      KeysAreDistinct(g, u, id, user);
      KeysAreDistinct(id, user, g, u);
      OtherGuildsUnaffected(s, t, u, g, a);
    }
  }

  lemma SetPermissionKeepsCoherent(s: State, id: GuildId, permission: Option<nat>)
    requires Coherent(s)
    ensures Coherent(SetPermission(s, id, permission))
  {
    var t := SetPermission(s, id, permission);
    forall u: UserId, g: GuildId, a: bool | VerdictKey(u, g, a) in t.cache
      ensures ResolveAccess(t, u, g, a) == Some(t.cache[VerdictKey(u, g, a)])
    {
      PatternHitsExactlyTheGuild(id, g, u);
      OtherGuildsUnaffected(s, t, u, g, a);
    }
  }

  // ---------------------------------------------------------------- the rule, by the data alone

  /** The lookup throws exactly when Discord lists no such guild for the user. For a listed guild,
      with pairwise different ids: an owner and a holder of the administrator bit, which is 8, may
      access and manage it; anybody else may never manage it, and may access it exactly when its
      row names a manager permission all of whose bits the member has. */
  lemma AccessOutcome(s: State, user: UserId, g: Guild)
    requires user in s.guildsOf && g in s.guildsOf[user]
    requires forall i, j :: 0 <= i < j < |s.guildsOf[user]| ==> s.guildsOf[user][i].id != s.guildsOf[user][j].id
    ensures ResolveAccess(s, user, g.id, true) == Some(g.owner || Bit(g.permissions, 3))
    ensures ResolveAccess(s, user, g.id, false) == Some(g.owner || Bit(g.permissions, 3) || HasManagerBits(s, g))
  {
    assert DistinctIds(s.guildsOf[user]);
    FindsItself(s.guildsOf[user], g);
    AdministratorIsBitThree(g.permissions);
    if g.id in s.rows && s.rows[g.id].Some? {
      HasPermissionIffCovers(g.permissions, s.rows[g.id].value);
    }
  }

  ghost predicate HasManagerBits(s: State, g: Guild) {
    g.id in s.rows && s.rows[g.id].Some? && forall i: nat :: Bit(s.rows[g.id].value, i) ==> Bit(g.permissions, i)
  }

  lemma AdministratorIsBitThree(p: nat)
    ensures HasPermission(p, ADMINISTRATOR) <==> Bit(p, 3)
  {
    HasPermissionIffCovers(p, 8);
    assert Bit(8, 3) by { assert Bit(4, 2) && Bit(2, 1) && Bit(1, 0); }
    forall i: nat | Bit(8, i) ensures i == 3 {
      if i > 3 {
        assert Bit(4, i - 1) && Bit(2, i - 2) && Bit(1, i - 3) && Bit(0, i - 4);
        ZeroHasNoBits(i - 4);
      } else {
        assert !Bit(8, 0) && !Bit(4, 0) && !Bit(2, 0);
      }
    }
  }

  lemma {:induction false} FoundIff(guilds: seq<Guild>, id: GuildId)
    ensures FindGuild(guilds, id).Some? <==> exists g <- guilds :: g.id == id
    decreases |guilds|
  {
    if guilds != [] {
      FoundIff(guilds[1..], id);
      assert forall g :: g in guilds <==> g == guilds[0] || g in guilds[1..];
    }
  }

  lemma AccessFails(s: State, user: UserId, id: GuildId, admin: bool)
    ensures ResolveAccess(s, user, id, admin).None? <==> !(user in s.guildsOf && exists g <- s.guildsOf[user] :: g.id == id)
  {
    FoundIff(GuildsOf(s, user), id);
  }

  // ---------------------------------------------------------------- lookups in flight

  /** Each verdict in flight was right under the rows it was resolved with. */
  ghost predicate LookupsAreRight(s: State) {
    forall l <- s.lookups :: LookupIsRight(s, s.lookups[l])
  }

  /** Nothing the verdict depends on has changed since: it never depended on the manager
      permission, or whether the member is a manager is still the same. */
  predicate Settled(s: State, k: Lookup) {
    match FindGuild(GuildsOf(s, k.user), k.id)
    case None => true
    case Some(g) =>
      k.admin || g.owner || HasPermission(g.permissions, ADMINISTRATOR) || IsManager(k.rows, g) == IsManager(s.rows, g)
  }

  lemma SettledIffSame(s: State, k: Lookup)
    requires LookupIsRight(s, k)
    ensures ResolveAccess(s, k.user, k.id, k.admin) == Some(k.verdict) <==> Settled(s, k)
  {
  }

  lemma StoreKeepsCoherentIffSame(s: State, l: LookupId)
    requires Coherent(s) && l in s.lookups
    ensures var k := s.lookups[l];
      (Coherent(StoreVerdict(s, l)) <==> ResolveAccess(s, k.user, k.id, k.admin) == Some(k.verdict))
  {
    var k := s.lookups[l];
    var t := StoreVerdict(s, l);
    OtherGuildsUnaffected(s, t, k.user, k.id, k.admin);
    if ResolveAccess(s, k.user, k.id, k.admin) == Some(k.verdict) {
      forall u: UserId, g: GuildId, a: bool | VerdictKey(u, g, a) in t.cache
        ensures ResolveAccess(t, u, g, a) == Some(t.cache[VerdictKey(u, g, a)])
      {
        KeysAreDistinct(g, u, k.id, k.user);
        KeysAreDistinct(k.id, k.user, g, u);
        OtherGuildsUnaffected(s, t, u, g, a);
      }
    }
  }

  /** Storing a verdict that was in flight keeps the cache current exactly when it is about
      management, or about an owner or administrator, or whether the member is a manager has
      not changed since it was resolved. The pattern delete does not reach it before. */
  lemma LateStoreIsCurrentIff(s: State, l: LookupId)
    requires Coherent(s) && LookupsAreRight(s) && l in s.lookups
    ensures Coherent(StoreVerdict(s, l)) <==> Settled(s, s.lookups[l])
  {
    StoreKeepsCoherentIffSame(s, l);
    SettledIffSame(s, s.lookups[l]);
  }

  predicate Calm(s: State, op: Op) {
    op.OpStore? && op.l in s.lookups ==> Settled(s, s.lookups[op.l])
  }

  /** No verdict is stored after a change of the manager permission that overturned it. */
  predicate CalmRun(s: State, ops: seq<Op>)
    decreases |ops|
  {
    ops != [] ==> Calm(s, ops[0]) && CalmRun(Exec(s, ops[0]), ops[1..])
  }

  predicate LookupIsRight(s: State, k: Lookup) {
    ResolveAccess(s.(rows := k.rows), k.user, k.id, k.admin) == Some(k.verdict)
  }

  lemma RightAnywhere(s: State, t: State, k: Lookup)
    requires t.guildsOf == s.guildsOf && LookupIsRight(s, k)
    ensures LookupIsRight(t, k)
  {
  }

  lemma NewLookupIsRight(s: State, l: LookupId, user: UserId, id: GuildId, admin: bool)
    requires LookupsAreRight(s)
    ensures LookupsAreRight(BeginLookup(s, l, user, id, admin))
  {
    var t := BeginLookup(s, l, user, id, admin);
    forall x <- t.lookups ensures LookupIsRight(t, t.lookups[x]) {
      if x in s.lookups {
        RightAnywhere(s, t, t.lookups[x]);
      } else {
        assert s.(rows := s.rows) == s;
        RightAnywhere(s, t, t.lookups[x]);
      }
    }
  }

  lemma StepKeepsLookups(s: State, op: Op)
    requires LookupsAreRight(s)
    ensures LookupsAreRight(Exec(s, op))
  {
    match op
    case OpBegin(l, user, id, admin) => NewLookupIsRight(s, l, user, id, admin);
    case _ =>
      var t := Exec(s, op);
      forall l <- t.lookups ensures LookupIsRight(t, t.lookups[l]) {
        assert l in s.lookups && t.lookups[l] == s.lookups[l];
        RightAnywhere(s, t, t.lookups[l]);
      }
  }

  lemma SameRowsKeepCoherent(s: State, t: State)
    requires Coherent(s) && t.guildsOf == s.guildsOf
    requires forall key <- t.cache :: key in s.cache && t.cache[key] == s.cache[key]
    requires forall id: GuildId :: (id in t.rows && t.rows[id].Some?) == (id in s.rows && s.rows[id].Some?)
    requires forall id: GuildId :: id in t.rows && t.rows[id].Some? ==> id in s.rows && t.rows[id] == s.rows[id]
    ensures Coherent(t)
  {
    forall u: UserId, g: GuildId, a: bool ensures ResolveAccess(t, u, g, a) == ResolveAccess(s, u, g, a) {
      OtherGuildsUnaffected(s, t, u, g, a);
    }
  }

  lemma StepKeepsCoherent(s: State, op: Op)
    requires Coherent(s) && LookupsAreRight(s) && Calm(s, op)
    ensures Coherent(Exec(s, op))
  {
    match op
    case OpCheck(user, id, admin) => CheckKeepsCoherent(s, user, id, admin);
    case OpStore(l) =>
      if l in s.lookups { LateStoreIsCurrentIff(s, l); }
    case OpSetPermission(id, permission) => SetPermissionKeepsCoherent(s, id, permission);
    case _ => SameRowsKeepCoherent(s, Exec(s, op));
  }

  lemma {:induction false} RunKeepsCoherent(s: State, ops: seq<Op>)
    requires Coherent(s) && LookupsAreRight(s) && CalmRun(s, ops)
    ensures Coherent(Run(s, ops)) && LookupsAreRight(Run(s, ops))
    decreases |ops|
  {
    if ops != [] {
      StepKeepsCoherent(s, ops[0]);
      StepKeepsLookups(s, ops[0]);
      RunKeepsCoherent(Exec(s, ops[0]), ops[1..]);
    }
  }

  /** After any run of checks, lookups in flight, permission changes, guild creations and
      expiries from an empty cache, in which no overturned verdict is stored late, both checks
      answer what a direct lookup under the current manager permission answers, and a user who
      may manage a guild may access it. */
  lemma CachedVerdictsAreCurrent(s: State, ops: seq<Op>, user: UserId, id: GuildId)
    requires s.cache == map[] && s.lookups == map[] && CalmRun(s, ops)
    ensures var t := Run(s, ops);
      && Check(t, user, id, false).1 == ResolveAccess(t, user, id, false)
      && Check(t, user, id, true).1 == ResolveAccess(t, user, id, true)
      && (Check(t, user, id, true).1 == Some(true) ==> Check(t, user, id, false).1 == Some(true))
  {
    RunKeepsCoherent(s, ops);
    CheckKeepsCoherent(Run(s, ops), user, id, false);
    CheckKeepsCoherent(Run(s, ops), user, id, true);
  }

  lemma RunOfThree(s: State, a: Op, b: Op, c: Op)
    ensures Run(s, [a, b, c]) == Exec(Exec(Exec(s, a), b), c)
  {
    assert [a, b, c][1..] == [b, c] && [b, c][1..] == [c] && [c][1..] == [];
    assert Run(Exec(Exec(s, a), b), [c]) == Exec(Exec(Exec(s, a), b), c);
  }

  /** From every state: a manager's lookup that is in flight while the manager permission is
      withdrawn ends with the stale verdict in the cache, and the next check answers it. */
  lemma WithdrawalIsMissed(s: State, l: LookupId, user: UserId, g: Guild)
    requires FindGuild(GuildsOf(s, user), g.id) == Some(g)
    requires !g.owner && !HasPermission(g.permissions, ADMINISTRATOR) && IsManager(s.rows, g)
    requires l !in s.lookups && UserKey(g.id, user) !in s.cache
    ensures var t := Run(s, [OpBegin(l, user, g.id, false), OpSetPermission(g.id, None), OpStore(l)]);
      Check(t, user, g.id, false).1 == Some(true) && ResolveAccess(t, user, g.id, false) == Some(false)
  {
    RunOfThree(s, OpBegin(l, user, g.id, false), OpSetPermission(g.id, None), OpStore(l));
    var s1 := BeginLookup(s, l, user, g.id, false);
    assert s1.lookups[l] == Lookup(user, g.id, false, s.rows, true);
    var s2 := SetPermission(s1, g.id, None);
    assert s2.lookups == s1.lookups && s2.guildsOf == s.guildsOf && s2.rows[g.id] == None;
  }

  const MEMBER := Guild("7", false, 32)
  const BEFORE := State(map["1" := [MEMBER]], map["7" := Some(32)], map[], map[])

  /** One such run, with the manage-server permission, from an empty cache. */
  lemma StaleRun()
    ensures var t := Run(BEFORE, [OpBegin(0, "1", "7", false), OpSetPermission("7", None), OpStore(0)]);
      Check(t, "1", "7", false).1 == Some(true) && ResolveAccess(t, "1", "7", false) == Some(false)
  {
    assert BitAnd(4, 4) == 4 && BitAnd(32, 32) == 32;
    assert BitAnd(16, 4) == 0 && BitAnd(32, 8) == 0;
    WithdrawalIsMissed(BEFORE, 0, "1", MEMBER);
  }

  // ---------------------------------------------------------------- the services

  class DiscordGuildAccessService {
    var state: State

    constructor (state: State)
      ensures this.state == state
    {
      this.state := state;
    }

    method CanAccessGuild(user: UserId, id: GuildId) returns (verdict: Option<bool>)
      modifies this
      ensures (state, verdict) == Check(old(state), user, id, false)
      ensures Coherent(old(state)) ==> Coherent(state) && verdict == ResolveAccess(old(state), user, id, false)
    {
      verdict := GetOrSet(user, id, false);
    }

    method CanManageGuild(user: UserId, id: GuildId) returns (verdict: Option<bool>)
      modifies this
      ensures (state, verdict) == Check(old(state), user, id, true)
      ensures Coherent(old(state)) ==> Coherent(state) && verdict == ResolveAccess(old(state), user, id, true)
    {
      verdict := GetOrSet(user, id, true);
    }

    method GetOrSet(user: UserId, id: GuildId, admin: bool) returns (verdict: Option<bool>)
      modifies this
      ensures (state, verdict) == Check(old(state), user, id, admin)
      ensures verdict.None? || VerdictKey(user, id, admin) in old(state).cache ==> state == old(state)
      ensures verdict.Some? ==> VerdictKey(user, id, admin) in state.cache && state.cache[VerdictKey(user, id, admin)] == verdict.value
      ensures Coherent(old(state)) ==> Coherent(state) && verdict == ResolveAccess(old(state), user, id, admin)
    {
      if Coherent(state) {
        CheckKeepsCoherent(state, user, id, admin);
      }
      var key := VerdictKey(user, id, admin);
      if key in state.cache {
        return Some(state.cache[key]);
      }
      verdict := ResolveAccess(state, user, id, admin);
      if verdict.Some? {
        state := state.(cache := state.cache[key := verdict.value]);
      }
    }

    method SetManagerPermission(id: GuildId, permission: Option<nat>)
      modifies this
      ensures state == SetPermission(old(state), id, permission)
      ensures state.rows == if id in old(state).rows then old(state).rows[id := permission] else old(state).rows
      ensures state.guildsOf == old(state).guildsOf && state.lookups == old(state).lookups
      ensures forall user: UserId, admin: bool :: VerdictKey(user, id, admin) !in state.cache
      ensures forall user: UserId, h: GuildId, admin: bool {:trigger VerdictKey(user, h, admin)} :: h != id ==>
        (VerdictKey(user, h, admin) in state.cache <==> VerdictKey(user, h, admin) in old(state.cache))
      ensures forall key <- state.cache :: key in old(state.cache) && state.cache[key] == old(state.cache)[key]
      ensures Coherent(old(state)) ==> Coherent(state)
    {
      if Coherent(state) {
        SetPermissionKeepsCoherent(state, id, permission);
      }
      PatternSparesOthers(state, id, permission);
      if id in state.rows {
        state := state.(rows := state.rows[id := permission]);
      }
      LiteralStarIsPrefix(ACCESS_PREFIX + id + ":", "");
      assert GuildPattern(id) == ACCESS_PREFIX + id + ":" + "*";
      var kept := map k | k in state.cache && !Matches(GuildPattern(id), k) :: state.cache[k];
      state := state.(cache := kept);
    }
  }

  // ---------------------------------------------------------------- the guild list

  predicate DistinctIds(guilds: seq<Guild>) {
    forall i, j :: 0 <= i < j < |guilds| ==> guilds[i].id != guilds[j].id
  }

  lemma {:induction false} FindsItself(guilds: seq<Guild>, g: Guild)
    requires DistinctIds(guilds) && g in guilds
    ensures FindGuild(guilds, g.id) == Some(g)
    decreases |guilds|
  {
    if guilds[0] != g {
      FindsItself(guilds[1..], g);
    }
  }

  lemma {:induction false} VisibleIff(rows: map<GuildId, Option<nat>>, guilds: seq<Guild>, g: Guild)
    ensures g in VisibleGuilds(rows, guilds) <==>
      g in guilds && (g.owner || HasPermission(g.permissions, ADMINISTRATOR) || IsManager(rows, g))
    decreases |guilds|
  {
    if guilds != [] {
      VisibleIff(rows, guilds[1..], g);
      assert g in guilds <==> g == guilds[0] || g in guilds[1..];
    }
  }

  /** The guild list of a user keeps exactly the guilds the user may access, although it
      evaluates the rule itself instead of asking the access service. */
  lemma ListKeepsExactlyAccessible(s: State, user: UserId, g: Guild)
    requires user in s.guildsOf && DistinctIds(s.guildsOf[user])
    ensures g in VisibleGuilds(s.rows, s.guildsOf[user]) <==>
      g in s.guildsOf[user] && ResolveAccess(s, user, g.id, false) == Some(true)
  {
    VisibleIff(s.rows, s.guildsOf[user], g);
    if g in s.guildsOf[user] {
      FindsItself(s.guildsOf[user], g);
    }
  }

  /** The list keeps its order and shows every visible guild once: one more guild at its end is
      appended if it is accessible and dropped if not. */
  lemma {:induction false} ListKeepsOrder(rows: map<GuildId, Option<nat>>, guilds: seq<Guild>, g: Guild)
    ensures VisibleGuilds(rows, []) == []
    ensures VisibleGuilds(rows, guilds + [g]) == VisibleGuilds(rows, guilds)
      + if g.owner || Bit(g.permissions, 3) || IsManager(rows, g) then [g] else []
    decreases |guilds|
  {
    AdministratorIsBitThree(g.permissions);
    if guilds == [] {
      assert guilds + [g] == [g] && [g][1..] == [];
    } else {
      assert (guilds + [g])[1..] == guilds[1..] + [g];
      ListKeepsOrder(rows, guilds[1..], g);
    }
  }

  /** With pairwise different ids, a permission flag of several bits included, a manager sees
      the guild exactly when the required bits are all among the member's. */
  lemma ManagerSeesIff(s: State, user: UserId, g: Guild, flag: nat)
    requires user in s.guildsOf && DistinctIds(s.guildsOf[user]) && g in s.guildsOf[user]
    requires g.id in s.rows && s.rows[g.id] == Some(flag)
    requires !g.owner && !Covers(g.permissions, ADMINISTRATOR)
    ensures ResolveAccess(s, user, g.id, false) == Some(true) <==> Covers(g.permissions, flag)
    ensures ResolveAccess(s, user, g.id, true) == Some(false)
  {
    FindsItself(s.guildsOf[user], g);
    HasPermissionIffCovers(g.permissions, flag);
    HasPermissionIffCovers(g.permissions, ADMINISTRATOR);
  }
}
