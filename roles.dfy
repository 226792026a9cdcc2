/** exec_report_dev.py: the role flags of a user, their memoising cache, and the
    developer commands /promote_user, /demote_user and /resetonboarding. */
module Roles {
  import opened PyStr
  import opened Store

  /** The dict get_user_roles returns. */
  datatype RoleFlags = RoleFlags(admin: bool, executive: bool, user: bool, none: bool)

  /** get_user_roles, applied to the users row of the user (or None). */
  function GetUserRoles(row: Option<UserRow>): (r: RoleFlags)
    ensures r.admin || r.executive || r.user || r.none
    ensures r.none <==> row.None?
    ensures r.none ==> !r.admin && !r.executive && !r.user
    ensures r.user <==> !r.none && !r.admin && !r.executive
    ensures row.Some? ==> r.admin == row.value.admin && r.executive == row.value.executive
  {
    match row
    case None => RoleFlags(false, false, false, true)
    case Some(u) => RoleFlags(u.admin, u.executive, !(u.admin || u.executive), false)
  }

  /** What a call of the lru_cache-wrapped get_user_roles answers: the memoised flags when uid
      is cached, the flags of the current row otherwise. */
  function CachedRoles(entries: map<UserId, RoleFlags>, users: map<UserId, UserRow>, uid: UserId): (r: RoleFlags)
    ensures uid !in entries ==> r == GetUserRoles(LookupUser(users, uid))
  {
    if uid in entries then entries[uid] else GetUserRoles(LookupUser(users, uid))
  }

  /** Every memoised entry agrees with the current table. */
  ghost predicate Coherent(entries: map<UserId, RoleFlags>, users: map<UserId, UserRow>) {
    forall u :: u in entries ==> entries[u] == GetUserRoles(LookupUser(users, u))
  }

  /** The memo table of @lru_cache on get_user_roles. */
  class RoleCache {
    var entries: map<UserId, RoleFlags>

    constructor ()
      ensures entries == map[]
    {
      entries := map[];
    }

    /** get_user_roles(uid): a hit returns the memoised flags; a miss reads the row and memoises. */
    method Get(db: Database, uid: UserId) returns (r: RoleFlags)
      modifies this
      ensures r == CachedRoles(old(entries), db.users, uid)
      ensures entries == old(entries)[uid := r]
    {
      if uid in entries {
        r := entries[uid];
      } else {
        r := GetUserRoles(LookupUser(db.users, uid));
        entries := entries[uid := r];
      }
    }

    /** clear_user_roles_cache: lru_cache has no per-key eviction, so every call empties the whole memo. */
    method ClearUserRolesCache(uid: Option<UserId>)
      modifies this
      ensures entries == map[]
    {
      entries := map[];
    }
  }

  /** A read through a coherent cache is a read of the table. */
  lemma CoherentReadsTable(entries: map<UserId, RoleFlags>, users: map<UserId, UserRow>, uid: UserId)
    requires Coherent(entries, users)
    ensures CachedRoles(entries, users, uid) == GetUserRoles(LookupUser(users, uid))
    ensures Coherent(entries[uid := CachedRoles(entries, users, uid)], users)
  {
  }

  // ---------------------------------------------------------------------------
  // /promote_user and /demote_user

  datatype Role = Admin | Executive

  /** The role argument after .lower(); only "admin" and "executive" name a flag. */
  function ParseRole(lowered: string): (r: Option<Role>)
    ensures r == Some(Admin) <==> lowered == "admin"
    ensures r == Some(Executive) <==> lowered == "executive"
  {
    if lowered == "admin" then Some(Admin)
    else if lowered == "executive" then Some(Executive)
    else None
  }

  /** int(context.args[0]) and context.args[1].lower(); None where either raises IndexError or ValueError. */
  function RoleArgs(args: seq<string>): (r: Option<(UserId, string)>)
    ensures |args| < 2 ==> r.None?
    ensures r.Some? <==> |args| >= 2 && ParseInt(args[0]).Some?
    ensures r.Some? ==> r.value == (ParseInt(args[0]).value, Lower(args[1]))
  {
    if |args| == 0 then None
    else
      match ParseInt(args[0])
      case None => None
      case Some(t) => if |args| < 2 then None else Some((t, Lower(args[1])))
  }

  /** UPDATE users SET <role>=<value> WHERE user_id=target. */
  function SetRoleFlag(users: map<UserId, UserRow>, target: UserId, role: Role, value: bool): (r: map<UserId, UserRow>)
    ensures r.Keys == users.Keys
    ensures forall u :: u in users && u != target ==> r[u] == users[u]
    ensures target in users ==> (if role == Admin then r[target].admin else r[target].executive) == value
    ensures target in users ==> r[target].(admin := users[target].admin, executive := users[target].executive) == users[target]
    ensures target in users ==> (if role == Admin then r[target].executive == users[target].executive
                                 else r[target].admin == users[target].admin)
  {
    if target !in users then users
    else if role == Admin then users[target := users[target].(admin := value)]
    else users[target := users[target].(executive := value)]
  }

  /** Of two writes of the same flag, the later one wins: a demotion undoes any earlier promotion. */
  lemma SetRoleFlagLastWins(users: map<UserId, UserRow>, target: UserId, role: Role, first: bool, second: bool)
    ensures SetRoleFlag(SetRoleFlag(users, target, role, first), target, role, second) == SetRoleFlag(users, target, role, second)
  {
  }

  /** Promoting or demoting twice is the same as doing it once. */
  lemma SetRoleFlagIdempotent(users: map<UserId, UserRow>, target: UserId, role: Role, value: bool)
    ensures SetRoleFlag(SetRoleFlag(users, target, role, value), target, role, value) == SetRoleFlag(users, target, role, value)
  {
  }

  /** The name in the reply: f"{first_name} {surname}".strip() of the row, else f"User {target_id}". */
  function FullName(users: map<UserId, UserRow>, target: UserId): (name: string)
    ensures target !in users ==> name == "User " + IntToString(target)
  {
    if target in users then Strip(users[target].firstName + " " + users[target].surname)
    else "User " + IntToString(target)
  }

  /** The replies of the developer commands. */
  datatype DevReply =
    | NotAllowed
    | Usage
    | InvalidUserId
    | BadRole
    | RoleChanged(fullName: string, promoted: bool, role: string)
    | ResetDone(target: UserId)
    | NoSuchUser(target: UserId)

  /** Whether a caller may promote or demote: admin or executive by the (cached) roles, or a developer. */
  predicate MayChangeRoles(roles: RoleFlags, caller: UserId, devIds: set<UserId>) {
    roles.admin || roles.executive || caller in devIds
  }

  /** The body shared by promote_user (value true) and demote_user (value false). */
  method ChangeRole(db: Database, cache: RoleCache, devIds: set<UserId>, caller: UserId, args: seq<string>, value: bool)
    returns (reply: DevReply)
    requires db.Valid()
    modifies db, cache
    ensures db.Valid()
    ensures db.organizations == old(db.organizations) && db.updates == old(db.updates)
    ensures db.visits == old(db.visits) && db.clock == old(db.clock)
    ensures var roles := CachedRoles(old(cache.entries), old(db.users), caller);
            !MayChangeRoles(roles, caller, devIds) ==>
              reply == NotAllowed && db.users == old(db.users) && cache.entries == old(cache.entries)[caller := roles]
    ensures var roles := CachedRoles(old(cache.entries), old(db.users), caller);
            MayChangeRoles(roles, caller, devIds) && RoleArgs(args).None? ==>
              reply == Usage && db.users == old(db.users) && cache.entries == old(cache.entries)[caller := roles]
    ensures var roles := CachedRoles(old(cache.entries), old(db.users), caller);
            MayChangeRoles(roles, caller, devIds) && RoleArgs(args).Some? && ParseRole(RoleArgs(args).value.1).None? ==>
              reply == BadRole && db.users == old(db.users) && cache.entries == old(cache.entries)[caller := roles]
    ensures var roles := CachedRoles(old(cache.entries), old(db.users), caller);
            MayChangeRoles(roles, caller, devIds) && RoleArgs(args).Some? && ParseRole(RoleArgs(args).value.1).Some? ==>
              var (target, role) := RoleArgs(args).value;
              && db.users == SetRoleFlag(old(db.users), target, ParseRole(role).value, value)
              && cache.entries == map[]
              && reply == RoleChanged(FullName(old(db.users), target), value, role)
  {
    var roles := cache.Get(db, caller);
    if !MayChangeRoles(roles, caller, devIds) {
      return NotAllowed;
    }
    var parsed := RoleArgs(args);
    if parsed.None? {
      return Usage;
    }
    var (target, role) := parsed.value;
    var flag := ParseRole(role);
    if flag.None? {
      return BadRole;
    }
    db.users := SetRoleFlag(db.users, target, flag.value, value);
    var name := FullName(db.users, target);
    cache.ClearUserRolesCache(Some(target));
    reply := RoleChanged(name, value, role);
  }

  /** Whether /promote_user or /demote_user with these arguments reaches its UPDATE statement. */
  ghost predicate ReachesUpdate(entries: map<UserId, RoleFlags>, users: map<UserId, UserRow>, devIds: set<UserId>,
                                caller: UserId, args: seq<string>)
  {
    && MayChangeRoles(CachedRoles(entries, users, caller), caller, devIds)
    && RoleArgs(args).Some?
    && ParseRole(RoleArgs(args).value.1).Some?
  }

  /** /promote_user <user_id> <admin|executive>: sets the named flag to 1. */
  method PromoteUser(db: Database, cache: RoleCache, devIds: set<UserId>, caller: UserId, args: seq<string>)
    returns (reply: DevReply)
    requires db.Valid()
    modifies db, cache
    ensures db.Valid()
    ensures db.organizations == old(db.organizations) && db.updates == old(db.updates)
    ensures db.visits == old(db.visits) && db.clock == old(db.clock)
    ensures ReachesUpdate(old(cache.entries), old(db.users), devIds, caller, args) ==>
              var (target, role) := RoleArgs(args).value;
              && db.users == SetRoleFlag(old(db.users), target, ParseRole(role).value, true)
              && cache.entries == map[]
              && reply == RoleChanged(FullName(old(db.users), target), true, role)
    ensures var roles := CachedRoles(old(cache.entries), old(db.users), caller);
            !ReachesUpdate(old(cache.entries), old(db.users), devIds, caller, args) ==>
              && db.users == old(db.users)
              && cache.entries == old(cache.entries)[caller := roles]
              && reply == if !MayChangeRoles(roles, caller, devIds) then NotAllowed
                          else if RoleArgs(args).None? then Usage
                          else BadRole
  {
    reply := ChangeRole(db, cache, devIds, caller, args, true);
  }

  /** /demote_user <user_id> <admin|executive>: sets the named flag to 0. */
  method DemoteUser(db: Database, cache: RoleCache, devIds: set<UserId>, caller: UserId, args: seq<string>)
    returns (reply: DevReply)
    requires db.Valid()
    modifies db, cache
    ensures db.Valid()
    ensures db.organizations == old(db.organizations) && db.updates == old(db.updates)
    ensures db.visits == old(db.visits) && db.clock == old(db.clock)
    ensures ReachesUpdate(old(cache.entries), old(db.users), devIds, caller, args) ==>
              var (target, role) := RoleArgs(args).value;
              && db.users == SetRoleFlag(old(db.users), target, ParseRole(role).value, false)
              && cache.entries == map[]
              && reply == RoleChanged(FullName(old(db.users), target), false, role)
    ensures var roles := CachedRoles(old(cache.entries), old(db.users), caller);
            !ReachesUpdate(old(cache.entries), old(db.users), devIds, caller, args) ==>
              && db.users == old(db.users)
              && cache.entries == old(cache.entries)[caller := roles]
              && reply == if !MayChangeRoles(roles, caller, devIds) then NotAllowed
                          else if RoleArgs(args).None? then Usage
                          else BadRole
  {
    reply := ChangeRole(db, cache, devIds, caller, args, false);
  }

  // ---------------------------------------------------------------------------
  // /resetonboarding

  /** /resetonboarding <user_id> (developers only): deletes the user's row and every update they wrote.
      The role cache is not a parameter: reset leaves it as it was. */
  method ResetOnboarding(db: Database, devIds: set<UserId>, caller: UserId, args: seq<string>)
    returns (reply: DevReply)
    requires db.Valid()
    modifies db
    ensures db.Valid()
    ensures db.organizations == old(db.organizations) && db.visits == old(db.visits) && db.clock == old(db.clock)
    ensures caller !in devIds ==> reply == NotAllowed && db.users == old(db.users) && db.updates == old(db.updates)
    ensures caller in devIds && args == [] ==> reply == Usage && db.users == old(db.users) && db.updates == old(db.updates)
    ensures caller in devIds && args != [] && ParseInt(args[0]).None? ==>
              reply == InvalidUserId && db.users == old(db.users) && db.updates == old(db.updates)
    ensures caller in devIds && args != [] && ParseInt(args[0]).Some? ==>
              var target := ParseInt(args[0]).value;
              && db.users == old(db.users) - {target}
              && db.updates == WithoutAuthor(old(db.updates), target)
              && reply == (if target in old(db.users) then ResetDone(target) else NoSuchUser(target))
  {
    if caller !in devIds {
      return NotAllowed;
    }
    if args == [] {
      return Usage;
    }
    var parsed := ParseInt(args[0]);
    if parsed.None? {
      return InvalidUserId;
    }
    var target := parsed.value;
    var deleted := target in db.users;
    db.users := db.users - {target};
    WithoutAuthorChronological(db.updates, target, db.clock);
    db.updates := WithoutAuthor(db.updates, target);
    reply := if deleted then ResetDone(target) else NoSuchUser(target);
  }

  /** Reset does not touch the role cache, so a memoised admin stays an admin after their row is gone. */
  lemma ResetLeavesStaleRoles(entries: map<UserId, RoleFlags>, users: map<UserId, UserRow>, target: UserId)
    requires target in entries && entries[target].admin
    ensures CachedRoles(entries, users - {target}, target).admin
    ensures GetUserRoles(LookupUser(users - {target}, target)).none
  {
  }
}
