/** Roles with priorities and permissions, and who may create, edit, delete and assign them. */
module Roles {
  import opened Wrappers

  type RoleId = nat
  type UserId = nat

  datatype Permission = Admin | ReadApps | ManageApps | ReadRoles | ManageRoles

  datatype Role = Role(priority: nat, permissions: set<Permission>)

  datatype State = State(roles: map<RoleId, Role>, users: map<UserId, seq<RoleId>>)

  datatype Outcome = Done | Forbidden | Missing

  function Held(s: State, user: UserId): seq<RoleId> {
    if user in s.users then s.users[user] else []
  }

  /** The largest priority among the listed roles, and 0 when there is none. */
  function MaxPriority(roles: map<RoleId, Role>, ids: seq<RoleId>): nat {
    if ids == [] then 0
    else
      var rest := MaxPriority(roles, ids[1..]);
      if ids[0] in roles && roles[ids[0]].priority > rest then roles[ids[0]].priority else rest
  }

  function Top(s: State, user: UserId): nat {
    MaxPriority(s.roles, Held(s, user))
  }

  /** rolesToAccess: everything any of the listed roles permits. */
  function Access(roles: map<RoleId, Role>, ids: seq<RoleId>): set<Permission> {
    if ids == [] then {}
    else (if ids[0] in roles then roles[ids[0]].permissions else {}) + Access(roles, ids[1..])
  }

  predicate MayGrant(s: State, user: UserId, permissions: set<Permission>) {
    var own := Access(s.roles, Held(s, user));
    Admin in own || permissions <= own
  }

  function Without(ids: seq<RoleId>, id: RoleId): seq<RoleId> {
    if ids == [] then []
    else (if ids[0] == id then [] else [ids[0]]) + Without(ids[1..], id)
  }

  /** The existing roles among the given ids, each once. */
  function Existing(roles: map<RoleId, Role>, ids: seq<RoleId>): seq<RoleId> {
    if ids == [] then []
    else
      var rest := Existing(roles, ids[1..]);
      if ids[0] in roles && ids[0] !in rest then [ids[0]] + rest else rest
  }

  function CreateRole(s: State, actor: UserId, id: RoleId, priority: nat, permissions: set<Permission>): (State, Outcome)
    requires id !in s.roles
  {
    if actor !in s.users then (s, Missing)
    else if !MayGrant(s, actor, permissions) then (s, Forbidden)
    else (s.(roles := s.roles[id := Role(priority, permissions)]), Done)
  }

  /** The actor needs a role strictly above the edited one. A new priority must stay below the
      actor's highest role, except that 0 is not compared; none keeps the old priority. */
  function EditRole(s: State, actor: UserId, id: RoleId, priority: Option<nat>, permissions: set<Permission>): (State, Outcome) {
    if id !in s.roles then (s, Missing)
    else if Top(s, actor) <= s.roles[id].priority then (s, Forbidden)
    else if priority.Some? && priority.value != 0 && Top(s, actor) <= priority.value then (s, Forbidden)
    else if !MayGrant(s, actor, s.roles[id].permissions) || !MayGrant(s, actor, permissions) then (s, Forbidden)
    else
      var p := if priority.Some? then priority.value else s.roles[id].priority;
      (s.(roles := s.roles[id := Role(p, permissions)]), Done)
  }

  function DeleteRole(s: State, actor: UserId, id: RoleId): (State, Outcome) {
    if id !in s.roles || Top(s, actor) <= s.roles[id].priority then (s, Missing)
    else (State(s.roles - {id}, map u | u in s.users :: Without(s.users[u], id)), Done)
  }

  /** tokenIsAdmin is what the caller's access token says, not what the tables say. */
  function UpdateUserRoles(s: State, actor: UserId, tokenIsAdmin: bool, target: UserId, ids: seq<RoleId>): (State, Outcome) {
    var chosen := Existing(s.roles, ids);
    if target !in s.users then (s, Missing)
    else if !tokenIsAdmin && Top(s, target) >= Top(s, actor) then (s, Forbidden)
    else if !tokenIsAdmin && MaxPriority(s.roles, chosen) >= Top(s, actor) then (s, Forbidden)
    else (s.(users := s.users[target := chosen]), Done)
  }

  // ---------------------------------------------------------------- the services

  class RolesService {
    var state: State

    constructor (state: State)
      ensures this.state == state
    {
      this.state := state;
    }

    /** The query for the highest of the user's roles above a priority. */
    method FindHighestAbove(user: UserId, priority: nat) returns (found: Option<Role>)
      ensures found.Some? <==> Top(state, user) > priority
      ensures found.Some? ==> found.value.priority == Top(state, user)
    {
      found := None;
      var ids := Held(state, user);
      var i := |ids|;
      while i > 0
        invariant 0 <= i <= |ids|
        invariant found.Some? <==> MaxPriority(state.roles, ids[i..]) > priority
        invariant found.Some? ==> found.value.priority == MaxPriority(state.roles, ids[i..])
      {
        i := i - 1;
        assert ids[i..][1..] == ids[i + 1..];
        if ids[i] in state.roles {
          var role := state.roles[ids[i]];
          if role.priority > priority && (found.None? || role.priority > found.value.priority) {
            found := Some(role);
          }
        }
      }
    }

    /** Math.max(0, ...priorities). */
    method HighestPriority(ids: seq<RoleId>) returns (p: nat)
      ensures p == MaxPriority(state.roles, ids)
    {
      p := 0;
      var i := |ids|;
      while i > 0
        invariant 0 <= i <= |ids|
        invariant p == MaxPriority(state.roles, ids[i..])
      {
        i := i - 1;
        assert ids[i..][1..] == ids[i + 1..];
        if ids[i] in state.roles && state.roles[ids[i]].priority > p {
          p := state.roles[ids[i]].priority;
        }
      }
    }

    method Create(actor: UserId, id: RoleId, priority: nat, permissions: set<Permission>) returns (r: Outcome)
      requires id !in state.roles                 // a new UUID
      modifies this
      ensures (state, r) == CreateRole(old(state), actor, id, priority, permissions)
      ensures r.Done? <==> actor in old(state).users && HoldsAll(old(state), actor, permissions)
      ensures state.users == old(state).users
      ensures state.roles == if r.Done? then old(state).roles[id := Role(priority, permissions)] else old(state).roles
      ensures WellFormed(old(state)) ==> forall user: UserId :: Top(state, user) == Top(old(state), user)
    {
      MayGrantIff(state, actor, permissions);
      if WellFormed(state) {
        CreateMovesNobody(state, actor, id, priority, permissions);
      }
      if actor !in state.users {
        return Missing;
      }
      if !MayGrant(state, actor, permissions) {
        return Forbidden;
      }
      state := state.(roles := state.roles[id := Role(priority, permissions)]);
      return Done;
    }

    method Edit(actor: UserId, id: RoleId, priority: Option<nat>, permissions: set<Permission>) returns (r: Outcome)
      modifies this
      ensures (state, r) == EditRole(old(state), actor, id, priority, permissions)
    {
      if id !in state.roles {
        return Missing;
      }
      var current := state.roles[id];
      var userRole := FindHighestAbove(actor, current.priority);
      if userRole.None? {
        return Forbidden;
      }
      if priority.Some? && priority.value != 0 && userRole.value.priority <= priority.value {
        return Forbidden;
      }
      if !MayGrant(state, actor, current.permissions) {
        return Forbidden;
      }
      if !MayGrant(state, actor, permissions) {
        return Forbidden;
      }
      var p := if priority.Some? then priority.value else current.priority;
      state := state.(roles := state.roles[id := Role(p, permissions)]);
      return Done;
    }

    method Delete(actor: UserId, id: RoleId) returns (r: Outcome)
      modifies this
      ensures (state, r) == DeleteRole(old(state), actor, id)
    {
      if id !in state.roles {
        return Missing;
      }
      var userRole := FindHighestAbove(actor, state.roles[id].priority);
      if userRole.None? {
        return Missing;
      }
      state := State(state.roles - {id}, map u | u in state.users :: Without(state.users[u], id));
      return Done;
    }

    method AssignRoles(actor: UserId, tokenIsAdmin: bool, target: UserId, ids: seq<RoleId>) returns (r: Outcome)
      modifies this
      ensures (state, r) == UpdateUserRoles(old(state), actor, tokenIsAdmin, target, ids)
    {
      var newRoles := Existing(state.roles, ids);
      if !tokenIsAdmin {
        if target !in state.users {
          return Missing;
        }
        var currentMax := HighestPriority(Held(state, actor));
        var targetMax := HighestPriority(Held(state, target));
        if targetMax >= currentMax {
          return Forbidden;
        }
        var newMax := HighestPriority(newRoles);
        if newMax >= currentMax {
          return Forbidden;
        }
      }
      if target !in state.users {
        return Missing;
      }
      state := state.(users := state.users[target := newRoles]);
      return Done;
    }
  }

  // ---------------------------------------------------------------- what the sums mean

  /** MaxPriority is the least bound: it bounds every listed role and, unless 0, is reached. */
  lemma {:induction false} MaxPriorityIsLeast(roles: map<RoleId, Role>, ids: seq<RoleId>, bound: nat)
    ensures MaxPriority(roles, ids) <= bound <==> forall id <- ids :: id in roles ==> roles[id].priority <= bound
    decreases |ids|
  {
    if ids != [] {
      MaxPriorityIsLeast(roles, ids[1..], bound);
      assert forall id :: id in ids <==> id == ids[0] || id in ids[1..];
    }
  }

  lemma {:induction false} AccessIff(roles: map<RoleId, Role>, ids: seq<RoleId>, p: Permission)
    ensures p in Access(roles, ids) <==> exists id <- ids :: id in roles && p in roles[id].permissions
    decreases |ids|
  {
    if ids != [] {
      AccessIff(roles, ids[1..], p);
      assert forall id :: id in ids <==> id == ids[0] || id in ids[1..];
    }
  }

  lemma {:induction false} ExistingIff(roles: map<RoleId, Role>, ids: seq<RoleId>, id: RoleId)
    ensures id in Existing(roles, ids) <==> id in ids && id in roles
    decreases |ids|
  {
    if ids != [] {
      ExistingIff(roles, ids[1..], id);
      if ids[0] in roles { ExistingIff(roles, ids[1..], ids[0]); }
    }
  }

  predicate Once(ids: seq<RoleId>) {
    forall i, j :: 0 <= i < j < |ids| ==> ids[i] != ids[j]
  }

  lemma PrependOnce(id: RoleId, rest: seq<RoleId>)
    requires Once(rest) && id !in rest
    ensures Once([id] + rest)
  {
  }

  /** A role named twice is assigned once. */
  lemma {:induction false} ExistingOnce(roles: map<RoleId, Role>, ids: seq<RoleId>)
    ensures Once(Existing(roles, ids))
    decreases |ids|
  {
    if ids != [] {
      var rest := Existing(roles, ids[1..]);
      ExistingOnce(roles, ids[1..]);
      if ids[0] in roles && ids[0] !in rest {
        PrependOnce(ids[0], rest);
      }
    }
  }

  lemma {:induction false} WithoutIff(ids: seq<RoleId>, id: RoleId, other: RoleId)
    ensures other in Without(ids, id) <==> other in ids && other != id
    decreases |ids|
  {
    if ids != [] {
      WithoutIff(ids[1..], id, other);
    }
  }

  predicate HoldsPermission(s: State, user: UserId, p: Permission) {
    exists id <- Held(s, user) :: id in s.roles && p in s.roles[id].permissions
  }

  /** Some held role has ADMIN, or each permission is in some held role. */
  predicate HoldsAll(s: State, user: UserId, permissions: set<Permission>) {
    HoldsPermission(s, user, Admin) || forall p <- permissions :: HoldsPermission(s, user, p)
  }

  lemma MayGrantIff(s: State, user: UserId, permissions: set<Permission>)
    ensures MayGrant(s, user, permissions) <==> HoldsAll(s, user, permissions)
  {
    AccessIff(s.roles, Held(s, user), Admin);
    forall p <- permissions { AccessIff(s.roles, Held(s, user), p); }
  }

  /** A new role is held by nobody, so it moves nobody. */
  lemma CreateMovesNobody(s: State, actor: UserId, id: RoleId, priority: nat, permissions: set<Permission>)
    requires WellFormed(s) && id !in s.roles
    ensures forall user: UserId :: Top(CreateRole(s, actor, id, priority, permissions).0, user) == Top(s, user)
  {
    forall user: UserId {
      MaxIgnoresUnlisted(s.roles, CreateRole(s, actor, id, priority, permissions).0.roles, Held(s, user));
    }
  }

  // ---------------------------------------------------------------- outcomes, by the tables alone

  /** Some role the user holds has a priority above p. */
  predicate HoldsAbove(s: State, user: UserId, p: nat) {
    user in s.users && exists id <- s.users[user] :: id in s.roles && s.roles[id].priority > p
  }

  lemma HoldsAboveIff(s: State, user: UserId, p: nat)
    ensures HoldsAbove(s, user, p) <==> Top(s, user) > p
  {
    MaxPriorityIsLeast(s.roles, Held(s, user), p);
  }

  /** An edit goes through exactly when the actor holds a role above the edited one and, unless the
      new priority is missing or 0, above the new priority, and holds ADMIN or every permission the
      role had and every permission it gets. It then writes the permissions and the priority, or
      keeps the priority when none is given; otherwise nothing changes. */
  lemma EditOutcome(s: State, actor: UserId, id: RoleId, priority: Option<nat>, permissions: set<Permission>)
    ensures var (t, r) := EditRole(s, actor, id, priority, permissions);
      && (r.Done? <==>
            && id in s.roles && HoldsAbove(s, actor, s.roles[id].priority)
            && (priority.Some? && priority.value > 0 ==> HoldsAbove(s, actor, priority.value))
            && HoldsAll(s, actor, s.roles[id].permissions) && HoldsAll(s, actor, permissions))
      && t.users == s.users
      && t.roles == (if r.Done?
           then s.roles[id := Role(if priority.Some? then priority.value else s.roles[id].priority, permissions)] else s.roles)
      && (r.Missing? <==> id !in s.roles)
  {
    if id in s.roles {
      HoldsAboveIff(s, actor, s.roles[id].priority);
      MayGrantIff(s, actor, s.roles[id].permissions);
    }
    if priority.Some? {
      HoldsAboveIff(s, actor, priority.value);
    }
    MayGrantIff(s, actor, permissions);
  }

  /** A role is deleted exactly when the actor holds one above it; it then leaves the table and
      every user, who keeps all others. */
  lemma DeleteOutcome(s: State, actor: UserId, id: RoleId, user: UserId, other: RoleId)
    requires user in s.users
    ensures var (t, r) := DeleteRole(s, actor, id);
      && (r.Done? <==> id in s.roles && HoldsAbove(s, actor, s.roles[id].priority))
      && t.roles == (if r.Done? then s.roles - {id} else s.roles)
      && t.users.Keys == s.users.Keys
      && (other in t.users[user] <==> other in s.users[user] && !(r.Done? && other == id))
  {
    if id in s.roles {
      HoldsAboveIff(s, actor, s.roles[id].priority);
      WithoutIff(s.users[user], id, other);
    }
  }

  /** An assignment goes through exactly when the target is known and, unless the token says ADMIN,
      the actor holds a role above all roles of the target and above all roles given, and any at
      all. The target then holds exactly the existing roles among those given, each once: roles held
      before are replaced, not added to. Nobody else's roles and no role change. */
  lemma AssignOutcome(s: State, actor: UserId, tokenIsAdmin: bool, target: UserId, ids: seq<RoleId>, id: RoleId)
    ensures var (t, r) := UpdateUserRoles(s, actor, tokenIsAdmin, target, ids);
      && (r.Done? <==> target in s.users && (tokenIsAdmin || (OutranksAll(s, actor, s.users[target]) && OutranksAll(s, actor, ids))))
      && t.roles == s.roles
      && (r.Done? ==> t.users == s.users[target := t.users[target]] && (id in t.users[target] <==> id in ids && id in s.roles))
      && (r.Done? ==> Once(t.users[target]))
      && (!r.Done? ==> t == s)
  {
    ExistingIff(s.roles, ids, id);
    ExistingOnce(s.roles, ids);
    if target in s.users {
      OutranksIff(s, actor, s.users[target]);
    }
    OutranksIff(s, actor, Existing(s.roles, ids));
    forall x: RoleId { ExistingIff(s.roles, ids, x); }
    assert OutranksAll(s, actor, ids) <==> OutranksAll(s, actor, Existing(s.roles, ids));
  }

  /** One role of the actor is above every existing role of the list, and above 0. */
  predicate OutranksAll(s: State, actor: UserId, ids: seq<RoleId>) {
    actor in s.users && exists own <- s.users[actor] ::
      own in s.roles && s.roles[own].priority > 0 && forall id <- ids :: id in s.roles ==> s.roles[id].priority < s.roles[own].priority
  }

  lemma {:induction false} MaxIsHeld(roles: map<RoleId, Role>, ids: seq<RoleId>) returns (id: RoleId)
    requires MaxPriority(roles, ids) > 0
    ensures id in ids && id in roles && roles[id].priority == MaxPriority(roles, ids)
    decreases |ids|
  {
    if ids[0] in roles && roles[ids[0]].priority == MaxPriority(roles, ids) {
      id := ids[0];
    } else {
      id := MaxIsHeld(roles, ids[1..]);
    }
  }

  lemma OutranksIff(s: State, actor: UserId, ids: seq<RoleId>)
    ensures OutranksAll(s, actor, ids) <==> Top(s, actor) > MaxPriority(s.roles, ids)
  {
    if OutranksAll(s, actor, ids) {
      var own :| own in s.users[actor] && own in s.roles && s.roles[own].priority > 0
        && forall id <- ids :: id in s.roles ==> s.roles[id].priority < s.roles[own].priority;
      MaxPriorityIsLeast(s.roles, ids, s.roles[own].priority - 1);
      MaxPriorityIsLeast(s.roles, Held(s, actor), s.roles[own].priority - 1);
    }
    if Top(s, actor) > MaxPriority(s.roles, ids) {
      var own := MaxIsHeld(s.roles, Held(s, actor));
      MaxPriorityIsLeast(s.roles, ids, s.roles[own].priority - 1);
    }
  }

  // ---------------------------------------------------------------- runs

  datatype Op =
    | OpCreate(actor: UserId, id: RoleId, priority: nat, permissions: set<Permission>)
    | OpEdit(actor: UserId, id: RoleId, newPriority: Option<nat>, permissions: set<Permission>)
    | OpDelete(actor: UserId, id: RoleId)
    | OpAssign(actor: UserId, tokenIsAdmin: bool, target: UserId, ids: seq<RoleId>)

  function Exec(s: State, op: Op): State {
    match op
    case OpCreate(actor, id, priority, permissions) =>
      if id in s.roles then s else CreateRole(s, actor, id, priority, permissions).0
    case OpEdit(actor, id, priority, permissions) => EditRole(s, actor, id, priority, permissions).0
    case OpDelete(actor, id) => DeleteRole(s, actor, id).0
    case OpAssign(actor, tokenIsAdmin, target, ids) => UpdateUserRoles(s, actor, tokenIsAdmin, target, ids).0
  }

  function Run(s: State, ops: seq<Op>): State
    decreases |ops|
  {
    if ops == [] then s else Run(Exec(s, ops[0]), ops[1..])
  }

  /** Every held role exists, as the foreign keys of the join table demand. */
  predicate WellFormed(s: State) {
    forall u <- s.users :: forall id <- s.users[u] :: id in s.roles
  }

  lemma StepKeepsWellFormed(s: State, op: Op)
    requires WellFormed(s)
    ensures WellFormed(Exec(s, op))
  {
    var t := Exec(s, op);
    forall u <- t.users, id <- t.users[u] ensures id in t.roles {
      match op
      case OpDelete(_, gone) =>
        WithoutIff(s.users[u], gone, id);
      case OpAssign(_, _, target, ids) =>
        ExistingIff(s.roles, ids, id);
      case _ =>
    }
  }

  predicate TokenLacksAdmin(op: Op) {
    op.OpAssign? ==> !op.tokenIsAdmin
  }

  /** Changing or removing one role below a level neither lifts anyone to that level nor moves
      anyone who has reached it. */
  lemma {:induction false} ChangeBelow(before: map<RoleId, Role>, after: map<RoleId, Role>, ids: seq<RoleId>, id: RoleId, level: nat)
    requires forall r :: r != id ==> (r in before <==> r in after) && (r in before ==> before[r].priority == after[r].priority)
    requires id in before ==> before[id].priority < level
    requires id in after ==> after[id].priority < level
    requires level > 0
    ensures MaxPriority(before, ids) >= level ==> MaxPriority(after, ids) == MaxPriority(before, ids)
    ensures MaxPriority(before, ids) < level ==> MaxPriority(after, ids) < level
    decreases |ids|
  {
    if ids != [] {
      ChangeBelow(before, after, ids[1..], id, level);
    }
  }

  lemma {:induction false} MaxIgnoresRemoved(roles: map<RoleId, Role>, ids: seq<RoleId>, id: RoleId)
    requires id !in roles
    ensures MaxPriority(roles, Without(ids, id)) == MaxPriority(roles, ids)
    decreases |ids|
  {
    if ids != [] {
      MaxIgnoresRemoved(roles, ids[1..], id);
      if ids[0] == id {
        assert Without(ids, id) == Without(ids[1..], id);
      } else {
        assert Without(ids, id)[1..] == Without(ids[1..], id);
      }
    }
  }

  lemma {:induction false} MaxIgnoresUnlisted(before: map<RoleId, Role>, after: map<RoleId, Role>, ids: seq<RoleId>)
    requires forall id <- ids :: id in before && id in after && before[id].priority == after[id].priority
    ensures MaxPriority(after, ids) == MaxPriority(before, ids)
    decreases |ids|
  {
    if ids != [] {
      MaxIgnoresUnlisted(before, after, ids[1..]);
    }
  }

  /** One operation without an ADMIN token moves only users below the actor, and none of them
      up to the actor: whoever stands at the actor's level or above keeps that level. */
  lemma OnlyInferiorsMove(s: State, op: Op, user: UserId)
    requires WellFormed(s) && TokenLacksAdmin(op)
    ensures Top(s, user) >= Top(s, op.actor) ==> Top(Exec(s, op), user) == Top(s, user)
    ensures Top(s, user) < Top(s, op.actor) ==> Top(Exec(s, op), user) < Top(s, op.actor)
  {
    var t := Exec(s, op);
    var level := Top(s, op.actor);
    match op
    case OpCreate(_, _, _, _) =>
      MaxIgnoresUnlisted(s.roles, t.roles, Held(s, user));
    case OpEdit(_, id, _, _) =>
      if t != s {
        ChangeBelow(s.roles, t.roles, Held(s, user), id, level);
      }
    case OpDelete(_, id) =>
      if t != s {
        ChangeBelow(s.roles, t.roles, Held(s, user), id, level);
        MaxIgnoresRemoved(t.roles, Held(s, user), id);
      }
    case OpAssign(_, _, target, ids) =>
  }

  ghost predicate NobodyAbove(s: State, bound: nat) {
    forall user: UserId :: Top(s, user) <= bound
  }

  /** The highest priority held by anyone never rises on a run without ADMIN tokens. */
  lemma {:induction false} TopNeverRises(s: State, ops: seq<Op>, bound: nat)
    requires WellFormed(s) && NobodyAbove(s, bound)
    requires forall op <- ops :: TokenLacksAdmin(op)
    ensures NobodyAbove(Run(s, ops), bound)
    decreases |ops|
  {
    if ops != [] {
      var t := Exec(s, ops[0]);
      forall user: UserId ensures Top(t, user) <= bound {
        OnlyInferiorsMove(s, ops[0], user);
        assert Top(s, user) <= bound && Top(s, ops[0].actor) <= bound;
      }
      StepKeepsWellFormed(s, ops[0]);
      TopNeverRises(t, ops[1..], bound);
    }
  }

  predicate ActorsAtMost(s: State, ops: seq<Op>, level: nat)
    decreases |ops|
  {
    ops != [] ==> Top(s, ops[0].actor) <= level && ActorsAtMost(Exec(s, ops[0]), ops[1..], level)
  }

  /** A user whose level no actor of the run exceeds keeps that level to the end, the user's
      own edits, deletions and assignments included. */
  lemma {:induction false} TopIsKept(s: State, ops: seq<Op>, user: UserId)
    requires WellFormed(s) && ActorsAtMost(s, ops, Top(s, user))
    requires forall op <- ops :: TokenLacksAdmin(op)
    ensures Top(Run(s, ops), user) == Top(s, user)
    decreases |ops|
  {
    if ops != [] {
      OnlyInferiorsMove(s, ops[0], user);
      StepKeepsWellFormed(s, ops[0]);
      TopIsKept(Exec(s, ops[0]), ops[1..], user);
    }
  }

  /** Run of a user acting alone: the special case the role screens are written for. */
  lemma OwnRunKeepsOwnTop(s: State, ops: seq<Op>, user: UserId)
    requires WellFormed(s) && forall op <- ops :: TokenLacksAdmin(op) && op.actor == user
    ensures Top(Run(s, ops), user) == Top(s, user)
  {
    OwnActions(s, ops, user, Top(s, user));
    TopIsKept(s, ops, user);
  }

  lemma {:induction false} OwnActions(s: State, ops: seq<Op>, user: UserId, level: nat)
    requires WellFormed(s) && forall op <- ops :: TokenLacksAdmin(op) && op.actor == user
    requires Top(s, user) == level
    ensures ActorsAtMost(s, ops, level)
    decreases |ops|
  {
    if ops != [] {
      OnlyInferiorsMove(s, ops[0], user);
      StepKeepsWellFormed(s, ops[0]);
      OwnActions(Exec(s, ops[0]), ops[1..], user, level);
    }
  }

  // ---------------------------------------------------------------- permissions

  ghost predicate SomeRolePermits(s: State, p: Permission) {
    exists id <- s.roles :: p in s.roles[id].permissions
  }

  predicate ActorLacksAdmin(s: State, op: Op) {
    Admin !in Access(s.roles, Held(s, op.actor))
  }

  predicate ByNonAdmins(s: State, ops: seq<Op>)
    decreases |ops|
  {
    ops != [] ==> ActorLacksAdmin(s, ops[0]) && ByNonAdmins(Exec(s, ops[0]), ops[1..])
  }

  lemma PermissionsStep(s: State, op: Op, p: Permission)
    requires ActorLacksAdmin(s, op) && SomeRolePermits(Exec(s, op), p)
    ensures SomeRolePermits(s, p)
  {
    AccessIff(s.roles, Held(s, op.actor), p);
    var id :| id in Exec(s, op).roles && p in Exec(s, op).roles[id].permissions;
    if id in s.roles && p in s.roles[id].permissions {
    } else {
      assert p in Access(s.roles, Held(s, op.actor));
    }
  }

  /** On a run by users who lack ADMIN when they act, no role ever permits anything that no
      role permitted at the start: the union of all permissions never grows. */
  lemma {:induction false} UnionNeverGrows(s: State, ops: seq<Op>, p: Permission)
    requires ByNonAdmins(s, ops) && SomeRolePermits(Run(s, ops), p)
    ensures SomeRolePermits(s, p)
    decreases |ops|
  {
    if ops != [] {
      UnionNeverGrows(Exec(s, ops[0]), ops[1..], p);
      PermissionsStep(s, ops[0], p);
    }
  }

  lemma OwnAccessStep(s: State, op: Op, p: Permission)
    requires WellFormed(s) && TokenLacksAdmin(op) && ActorLacksAdmin(s, op)
    requires p in Access(Exec(s, op).roles, Held(Exec(s, op), op.actor))
    ensures p in Access(s.roles, Held(s, op.actor))
  {
    var t, user := Exec(s, op), op.actor;
    AccessIff(s.roles, Held(s, user), p);
    AccessIff(t.roles, Held(t, user), p);
    var id :| id in Held(t, user) && id in t.roles && p in t.roles[id].permissions;
    if op.OpDelete? && t != s && user in s.users {
      WithoutIff(s.users[user], op.id, id);
    }
  }

  /** A user without ADMIN gains no permission by any sequence of own actions. */
  lemma {:induction false} OwnAccessNeverGrows(s: State, ops: seq<Op>, user: UserId)
    requires WellFormed(s) && Admin !in Access(s.roles, Held(s, user))
    requires forall op <- ops :: TokenLacksAdmin(op) && op.actor == user
    ensures Access(Run(s, ops).roles, Held(Run(s, ops), user)) <= Access(s.roles, Held(s, user))
    decreases |ops|
  {
    if ops != [] {
      var t := Exec(s, ops[0]);
      forall p | p in Access(t.roles, Held(t, user)) ensures p in Access(s.roles, Held(s, user)) {
        OwnAccessStep(s, ops[0], p);
      }
      StepKeepsWellFormed(s, ops[0]);
      OwnAccessNeverGrows(t, ops[1..], user);
    }
  }

  /** That an edit does not compare a new priority of 0 lets nothing more through: an edit is
      allowed with a new priority exactly when it is allowed without one and the new priority is
      below the actor's highest. */
  lemma ZeroIsNoException(s: State, actor: UserId, id: RoleId, p: nat, permissions: set<Permission>)
    ensures EditRole(s, actor, id, Some(p), permissions).1.Done? <==>
      EditRole(s, actor, id, None, permissions).1.Done? && p < Top(s, actor)
  {}
}
