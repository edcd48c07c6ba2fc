/** What reads put into the cache and what each call takes out of it, told entry by entry. */
module CacheEffects {
  import opened CacheKeys
  import opened Schema
  import opened Permissions
  import opened Listing
  import opened Rbac
  import opened Coherence
  import opened RoleCoherence
  import opened ListCoherence
  import opened StaleCaches
  import opened StalePages

  // ---------- Reads ----------

  /** Outside some keys two caches hold the same. */
  ghost predicate SameBut(before: map<string, Entry>, after: map<string, Entry>, keys: set<string>) {
    forall k :: k !in keys ==> (k in after <==> k in before) && (k in after ==> after[k] == before[k])
  }

  /** A read of a user's groups answers with the entry, if there is one, and leaves one; it writes nothing else. */
  lemma GroupsRemembered(s: State, user: Id)
    ensures var (s', groups) := ReadGroups(s, user); var key := GroupsKey(user);
      && key in s'.cache && s'.cache[key] == GroupsEntry(groups)
      && (key in s.cache && s.cache[key].GroupsEntry? ==> s.cache[key] == GroupsEntry(groups))
      && s'.db == s.db && SameBut(s.cache, s'.cache, {key})
  {
  }

  /** So does a read of a user's roles, with the groups entry beside it. */
  lemma RolesRemembered(s: State, user: Id)
    requires Plain(user)
    ensures var (s', pairs) := ReadRoles(s, user); var key := RolesKey(user);
      && key in s'.cache && s'.cache[key] == RolesEntry(pairs)
      && (key in s.cache && s.cache[key].RolesEntry? ==> s.cache[key] == RolesEntry(pairs))
      && GroupsKey(user) in s'.cache && s'.cache[GroupsKey(user)] == GroupsEntry(ReadGroups(s, user).1)
      && s'.db == s.db && SameBut(s.cache, s'.cache, {key, GroupsKey(user)})
  {
    UserKeysDiffer(user, user);
  }

  /** A page is computed once: reading it answers with its entry, if there is one, and leaves one. */
  lemma PageRemembered(s: State, tenant: Id, user: Id, q: ListQuery)
    requires Plain(user) && Plain(tenant) && PlainQuery(q)
    ensures var (s', items) := ReadList(s, tenant, user, q); var key := ListKey(tenant, user, q);
      && key in s'.cache && s'.cache[key] == ListEntry(items)
      && (key in s.cache && s.cache[key].ListEntry? ==> s.cache[key] == ListEntry(items))
      && s'.db == s.db && SameBut(s.cache, s'.cache, {key, RolesKey(user), GroupsKey(user)})
  {
    ResourceKeysDiffer(user, tenant, user, q, "");
    RolesRemembered(s, user);
  }

  /** A detail entry holds the resource as it was when it was first read; a resource that is not there leaves no entry. */
  lemma DetailRemembered(s: State, tenant: Id, user: Id, agent: Id)
    requires Plain(user) && Plain(tenant) && Plain(agent)
    ensures var (s', item) := ReadDetail(s, tenant, user, agent); var key := DetailKey(tenant, agent);
      && (item.Some? ==> item.value.id == agent && key in s'.cache && s'.cache[key] == DetailEntry(item.value.agent))
      && (key in s.cache && s.cache[key].DetailEntry? ==> item.Some? && s.cache[key] == DetailEntry(item.value.agent))
      && (item.None? ==> s' == s && !AgentIn(s.db, tenant, agent))
      && s'.db == s.db && SameBut(s.cache, s'.cache, {key, RolesKey(user), GroupsKey(user)})
  {
    DetailKeyDiffers(user, tenant, agent);
    RolesRemembered(s, user);
    var key := DetailKey(tenant, agent);
    if AgentIn(s.db, tenant, agent) {
      RolesRemembered(s.(cache := s.cache[key := DetailEntry(s.db.agents[agent])]), user);
    }
  }

  // ---------- Calls ----------

  /** The ids a call names are plain. */
  predicate Named(op: Op) {
    match op
    case SetRoleOp(t, p, _, _, actor) => Plain(t) && Plain(p) && Plain(actor)
    case DeleteRoleOp(t, p, _, _) => Plain(t) && Plain(p)
    case SetMemberOp(t, g, p, _, _, actor, _) => Plain(t) && Plain(g) && Plain(p) && Plain(actor)
    case RemoveMemberOp(t, g, p) => Plain(t) && Plain(g) && Plain(p)
    case CreateGroupOp(t, g, creator, _) => Plain(t) && Plain(g) && Plain(creator)
    case DeleteGroupOp(t, g) => Plain(t) && Plain(g)
    case CreateTenantOp(t, _, _, creator) => Plain(t) && Plain(creator)
    case DeleteTenantOp(t) => Plain(t)
    case CreateAgentOp(a, data, creator, _) => Plain(a) && Plain(data.tenant) && Plain(creator)
    case DuplicateAgentOp(t, source, a, creator, _, _) => Plain(t) && Plain(source) && Plain(a) && Plain(creator)
    case UpdateAgentOp(t, a, _, _, _) => Plain(t) && Plain(a)
    case DeleteAgentOp(t, a) => Plain(t) && Plain(a)
    case SetPermissionOp(t, a, p, _, _, _) => Plain(t) && Plain(a) && Plain(p)
    case DeletePermissionOp(t, a, p, _, _) => Plain(t) && Plain(a) && Plain(p)
  }

  ghost predicate PlainCall(db: Db, op: Op) {
    PrincipalsOk(db) && PlainIds(db) && Named(op)
  }

  /** A user who is a member of a custom group. */
  ghost predicate UserInGroup(db: Db, group: Id, user: Id) {
    exists t, row, action :: GroupRow(row, t, group, user, action) in db.groupRows
                             && (t, user) in db.principals && db.principals[(t, user)] == IdentityUser
  }

  /** The users a call is about: the user named, the users of the custom group named, and whoever acts where the call says so. */
  ghost predicate About(db: Db, op: Op, user: Id) {
    match op
    case SetRoleOp(_, p, kind, _, actor) => RoleAbout(db, p, kind, user) || (actor != "" && user == actor)
    case DeleteRoleOp(_, p, kind, _) => RoleAbout(db, p, kind, user)
    case SetMemberOp(_, _, p, _, _, actor, _) => user == p || user == actor
    case RemoveMemberOp(t, g, p) => user == p && exists row, action :: GroupRow(row, t, g, p, action) in db.groupRows
    case CreateGroupOp(_, _, creator, _) => user == creator
    case CreateTenantOp(_, _, _, creator) => user == creator
    case SetPermissionOp(_, _, p, kind, _, _) => kind == IdentityUser && user == p
    case DeletePermissionOp(_, _, p, kind, _) => kind == IdentityUser && user == p
    case _ => false
  }

  ghost predicate RoleAbout(db: Db, principal: Id, kind: Kind, user: Id) {
    (kind == IdentityUser && user == principal) || (kind == CustomGroup && UserInGroup(db, principal, user))
  }

  lemma ClearedAreAbout(db: Db, op: Op, user: Id)
    ensures user in ClearedUsers(db, op) <==> About(db, op, user)
  {
    match op
    case SetRoleOp(_, p, kind, _, _) => GroupUsers(db, p, user);
    case DeleteRoleOp(_, p, kind, _) => GroupUsers(db, p, user);
    case RemoveMemberOp(t, g, p) =>
      forall r | r in GroupMembership(db, t, g, p) ensures GroupRow(r.id, t, g, p, r.action) in db.groupRows {}
      if row, action :| GroupRow(row, t, g, p, action) in db.groupRows {
        assert GroupRow(row, t, g, p, action) in GroupMembership(db, t, g, p);
      }
    case _ =>
  }

  lemma GroupUsers(db: Db, group: Id, user: Id)
    ensures user in UsersToInvalidate(db, group, CustomGroup) <==> UserInGroup(db, group, user)
  {
    if user in UsersToInvalidate(db, group, CustomGroup) {
      var r :| r in db.groupRows && r.group == group && (r.tenant, r.principal) in db.principals
               && db.principals[(r.tenant, r.principal)] == IdentityUser && r.principal == user;
      assert GroupRow(r.id, r.tenant, group, user, r.action) in db.groupRows;
    }
  }

  lemma ClearedArePlain(db: Db, op: Op, user: Id)
    requires PlainCall(db, op) && user in ClearedUsers(db, op)
    ensures Plain(user)
  {
    ClearedAreAbout(db, op, user);
  }

  /** The patterns of a call, one by one. */
  predicate Reaches(op: Op, key: string) {
    match op
    case SetRoleOp(_, _, kind, _, _) => Reached(RoleChangePatterns(kind), key)
    case DeleteRoleOp(_, _, kind, _) => Reached(RoleChangePatterns(kind), key)
    case CreateGroupOp(t, _, _, _) => Glob(ListPattern("custom_groups", t), key)
    case DeleteGroupOp(t, _) => Glob(ListPattern("custom_groups", t), key) || Glob(DELETED_GROUP_PATTERN, key)
    case CreateTenantOp(_, _, _, _) => Reached(TENANT_LISTS, key)
    case DeleteTenantOp(t) => Reached(TENANT_LISTS + [TenantPattern(t), ALL_TENANT_ROLES_PATTERN], key)
    case CreateAgentOp(_, data, _, _) => Glob(ListPattern(PREFIX, data.tenant), key)
    case DuplicateAgentOp(t, _, _, _, _, _) => Glob(ListPattern(PREFIX, t), key)
    case UpdateAgentOp(t, _, _, _, _) => Glob(ListPattern(PREFIX, t), key)
    case DeleteAgentOp(t, a) => Glob(ListPattern(PREFIX, t), key) || Glob(PermissionsPattern(PREFIX, t, "chat_agent", a), key)
    case SetPermissionOp(t, a, _, _, _, _) => Glob(ListPattern(PREFIX, t), key) || Glob(PermissionsPattern(PREFIX, t, "res", a), key)
    case DeletePermissionOp(t, a, _, _, _) => Glob(ListPattern(PREFIX, t), key) || Glob(PermissionsPattern(PREFIX, t, "res", a), key)
    case _ => false
  }

  lemma OneByOne(op: Op, key: string)
    ensures Reached(ClearedPatterns(op), key) <==> Reaches(op, key)
  {
    match op
    case CreateGroupOp(t, _, _, _) => One(ListPattern("custom_groups", t), key);
    case DeleteGroupOp(t, _) => Two(ListPattern("custom_groups", t), DELETED_GROUP_PATTERN, key);
    case CreateAgentOp(_, data, _, _) => One(ListPattern(PREFIX, data.tenant), key);
    case DuplicateAgentOp(t, _, _, _, _, _) => One(ListPattern(PREFIX, t), key);
    case UpdateAgentOp(t, _, _, _, _) => One(ListPattern(PREFIX, t), key);
    case DeleteAgentOp(t, a) => Two(ListPattern(PREFIX, t), PermissionsPattern(PREFIX, t, "chat_agent", a), key);
    case SetPermissionOp(t, a, _, _, _, _) => Two(PermissionsPattern(PREFIX, t, "res", a), ListPattern(PREFIX, t), key);
    case DeletePermissionOp(t, a, _, _, _) => Two(PermissionsPattern(PREFIX, t, "res", a), ListPattern(PREFIX, t), key);
    case _ =>
  }

  lemma One(p: string, key: string)
    ensures Reached([p], key) <==> Glob(p, key)
  {
    assert p in [p];
  }

  lemma Two(p: string, r: string, key: string)
    ensures Reached([p, r], key) <==> Glob(p, key) || Glob(r, key)
  {
    assert p in [p, r] && r in [p, r];
  }

  /** An entry goes if the patterns of a user the call is about reach it, its other patterns or its keys do. */
  lemma StaysUnlessCleared(s: State, op: Op, key: string, about: bool, swept: bool)
    requires Apply(s.db, op).Some?
    requires (exists w :: w in ClearedUsers(s.db, op) && Reached(UserPatterns(w), key)) <==> about
    requires swept <==> Reaches(op, key) || key in ClearedKeys(op)
    ensures key in Step(s, op).cache <==> key in s.cache && !about && !swept
    ensures key in Step(s, op).cache ==> Step(s, op).cache[key] == s.cache[key]
  {
    OneByOne(op, key);
  }

  // ---------- What stays of a user's roles and groups ----------

  lemma PatternsOnRoles(op: Op, u: Id)
    requires Named(op) && Plain(u)
    ensures Reaches(op, RolesKey(u)) <==> ClearsAllRoles(op)
  {
    if OnResources(op) {
      ResourcePatternsMiss(op, TenantsSegments(u));
    } else {
      TenantListsMissRoles(u);
      match op
      case CreateGroupOp(t, _, _, _) => ListPatternMisses("custom_groups", t, TenantsSegments(u));
      case SetRoleOp(_, _, kind, _, _) => RoleChangeOnRoles(kind, u);
      case DeleteRoleOp(_, _, kind, _) => RoleChangeOnRoles(kind, u);
      case DeleteGroupOp(_, _) => DeletedGroupReaches(u, PREFIX, "", ListQuery(0, 0, "", "", ""));
      case DeleteTenantOp(t) =>
        AllTenantRolesReached(u);
        assert ALL_TENANT_ROLES_PATTERN in TENANT_LISTS + [TenantPattern(t), ALL_TENANT_ROLES_PATTERN];
      case _ =>
    }
  }

  lemma RolesSweptIff(op: Op, u: Id)
    requires Named(op) && Plain(u)
    ensures Reaches(op, RolesKey(u)) || RolesKey(u) in ClearedKeys(op) <==> ClearsAllRoles(op)
  {
    PatternsOnRoles(op, u);
    KeysMiss(op, TenantsSegments(u));
  }

  lemma RoleChangeOnRoles(kind: Kind, u: Id)
    requires Plain(u)
    ensures Reached(RoleChangePatterns(kind), RolesKey(u)) <==> kind == IdentityGroup
  {
    TenantListsMissRoles(u);
    AllTenantRolesReached(u);
    if kind == IdentityGroup {
      assert ALL_TENANT_ROLES_PATTERN in RoleChangePatterns(kind);
    } else {
      assert RoleChangePatterns(kind) == TENANT_LISTS;
    }
  }

  /** The key is no list page or permission list of this resource type. */
  predicate NoListKey(key: seq<string>) {
    key != [] && AllPlain(key) && (key[0] == PREFIX ==> |key| > 1 && key[1] == "detail")
  }

  /** Calls on resources clear nothing else by pattern. */
  lemma ResourcePatternsMiss(op: Op, key: seq<string>)
    requires Named(op) && NoListKey(key) && OnResources(op)
    ensures !Reaches(op, Key(key))
  {
    match op
    case CreateAgentOp(_, data, _, _) => ListPatternMisses(PREFIX, data.tenant, key);
    case DuplicateAgentOp(t, _, _, _, _, _) => ListPatternMisses(PREFIX, t, key);
    case UpdateAgentOp(t, _, _, _, _) => ListPatternMisses(PREFIX, t, key);
    case DeleteAgentOp(t, a) => BothMiss(t, "chat_agent", a, key);
    case SetPermissionOp(t, a, _, _, _, _) => BothMiss(t, "res", a, key);
    case DeletePermissionOp(t, a, _, _, _) => BothMiss(t, "res", a, key);
    case _ =>
  }

  lemma BothMiss(t: Id, word: string, a: Id, key: seq<string>)
    requires Plain(t) && Plain(word) && Plain(a) && NoListKey(key)
    ensures !Glob(ListPattern(PREFIX, t), Key(key)) && !Glob(PermissionsPattern(PREFIX, t, word, a), Key(key))
  {
    ListPatternMisses(PREFIX, t, key);
    PermissionsPatternMisses(t, word, a, key);
  }

  lemma ListPatternMisses(prefix: string, t: Id, key: seq<string>)
    requires Plain(prefix) && Plain(t) && key != [] && AllPlain(key)
    requires key[0] == prefix ==> |key| > 1 && key[1] == "detail"
    ensures !Glob(ListPattern(prefix, t), Key(key))
  {
    var lead := [prefix, "list", "tenant", t];
    PrefixMatches(lead, key);
    assert lead[0] == prefix && lead[1] == "list";
  }

  lemma PermissionsPatternMisses(t: Id, word: string, a: Id, key: seq<string>)
    requires Plain(t) && Plain(word) && Plain(a) && key != [] && AllPlain(key)
    requires key[0] == PREFIX ==> |key| > 1 && key[1] in {"detail", "list"}
    ensures !Glob(PermissionsPattern(PREFIX, t, word, a), Key(key))
  {
    var lead := [PREFIX, "permissions", "tenant", t, word, a];
    PrefixMatches(lead, key);
    assert lead[0] == PREFIX && lead[1] == "permissions";
    assert |lead[1]| == 11 && |"detail"| == 6 && |"list"| == 4;
  }

  lemma TenantListsMiss(key: seq<string>)
    requires key != [] && AllPlain(key) && key[0] != "tenants"
    ensures !Reached(TENANT_LISTS, Key(key))
  {
    PrefixMatches(["tenants", "list"], key);
    assert ["tenants", "list"][0] == "tenants";
  }

  lemma KeysMiss(op: Op, key: seq<string>)
    requires Named(op) && key != [] && AllPlain(key) && key[0] !in {PREFIX, "custom_groups"}
    ensures Key(key) !in ClearedKeys(op)
  {
    if op.UpdateAgentOp? || op.DeleteAgentOp? {
      FirstSegmentsDiffer(key, DetailSegments(PREFIX, op.tenant, "chat_agent", op.agent));
    } else if op.DeleteGroupOp? {
      FirstSegmentsDiffer(key, DetailSegments("custom_groups", op.tenant, "group", op.group));
    }
  }

  lemma UsersOnRoles(db: Db, op: Op, u: Id)
    requires PlainCall(db, op) && Plain(u)
    ensures (exists w :: w in ClearedUsers(db, op) && Reached(UserPatterns(w), RolesKey(u))) <==> About(db, op, u)
  {
    ClearedAreAbout(db, op, u);
    forall w | w in ClearedUsers(db, op) ensures Reached(UserPatterns(w), RolesKey(u)) <==> w == u {
      ClearedArePlain(db, op, w);
      ClearingReachesOnlyOwnRoles(w, u);
    }
  }

  /** A call takes a user's role entry exactly if it is about the user, changes a role of an identity group, or deletes a custom group or a
      tenant; otherwise the entry stays as it is. */
  lemma RolesEntryStaysIff(s: State, op: Op, u: Id)
    requires PlainCall(s.db, op) && Plain(u) && Apply(s.db, op).Some?
    ensures var before, after := s.cache, Step(s, op).cache;
      && (RolesKey(u) in after <==>
          && RolesKey(u) in before && !About(s.db, op, u)
          && !((op.SetRoleOp? || op.DeleteRoleOp?) && op.kind == IdentityGroup) && !op.DeleteGroupOp? && !op.DeleteTenantOp?)
      && (RolesKey(u) in after ==> after[RolesKey(u)] == before[RolesKey(u)])
  {
    RolesSweptIff(op, u);
    UsersOnRoles(s.db, op, u);
    StaysUnlessCleared(s, op, RolesKey(u), About(s.db, op, u), ClearsAllRoles(op));
  }

  lemma PatternsOnGroups(op: Op, u: Id)
    requires Named(op) && Plain(u)
    ensures Reaches(op, GroupsKey(u)) <==> ChangesGroupRole(op)
  {
    if OnResources(op) {
      ResourcePatternsMiss(op, GroupsSegments(u));
    } else {
      TenantListsMiss(GroupsSegments(u));
      match op
      case CreateGroupOp(t, _, _, _) => ListPatternMisses("custom_groups", t, GroupsSegments(u));
      case SetRoleOp(_, _, kind, _, _) => RoleChangeOnGroups(kind, u);
      case DeleteRoleOp(_, _, kind, _) => RoleChangeOnGroups(kind, u);
      case DeleteGroupOp(t, _) => DeletedGroupOnGroups(t, u);
      case DeleteTenantOp(t) => TenantPatternsMissResources(t, GroupsSegments(u));
      case _ =>
    }
  }

  lemma DeletedGroupOnGroups(t: Id, u: Id)
    requires Plain(t) && Plain(u)
    ensures !Glob(ListPattern("custom_groups", t), GroupsKey(u)) && !Glob(DELETED_GROUP_PATTERN, GroupsKey(u))
  {
    DeletedGroupMissesGroups(u);
    ListPatternMisses("custom_groups", t, GroupsSegments(u));
  }

  lemma GroupsSweptIff(op: Op, u: Id)
    requires Named(op) && Plain(u)
    ensures Reaches(op, GroupsKey(u)) || GroupsKey(u) in ClearedKeys(op) <==> ChangesGroupRole(op)
  {
    PatternsOnGroups(op, u);
    KeysMiss(op, GroupsSegments(u));
  }

  lemma RoleChangeOnGroups(kind: Kind, u: Id)
    requires Plain(u)
    ensures Reached(RoleChangePatterns(kind), GroupsKey(u)) <==> kind == IdentityGroup
  {
    TenantListsMiss(GroupsSegments(u));
    AllGroupsReached(u);
    if kind == IdentityGroup {
      assert ALL_GROUPS_PATTERN in RoleChangePatterns(kind);
    } else {
      assert RoleChangePatterns(kind) == TENANT_LISTS;
    }
  }

  lemma UsersOnGroups(db: Db, op: Op, u: Id)
    requires PlainCall(db, op) && Plain(u)
    ensures (exists w :: w in ClearedUsers(db, op) && Reached(UserPatterns(w), GroupsKey(u))) <==> About(db, op, u)
  {
    ClearedAreAbout(db, op, u);
    forall w | w in ClearedUsers(db, op) ensures Reached(UserPatterns(w), GroupsKey(u)) <==> w == u {
      ClearedArePlain(db, op, w);
      ClearingReachesOnlyOwnGroups(w, u);
    }
  }

  /** The group entry goes in the first two of these cases only: deleting a group or a tenant leaves it naming what is gone. */
  lemma GroupsEntryStaysIff(s: State, op: Op, u: Id)
    requires PlainCall(s.db, op) && Plain(u) && Apply(s.db, op).Some?
    ensures var before, after := s.cache, Step(s, op).cache;
      && (GroupsKey(u) in after <==>
          && GroupsKey(u) in before && !About(s.db, op, u) && !((op.SetRoleOp? || op.DeleteRoleOp?) && op.kind == IdentityGroup))
      && (GroupsKey(u) in after ==> after[GroupsKey(u)] == before[GroupsKey(u)])
  {
    GroupsSweptIff(op, u);
    UsersOnGroups(s.db, op, u);
    StaysUnlessCleared(s, op, GroupsKey(u), About(s.db, op, u), ChangesGroupRole(op));
  }

  // ---------- What stays of pages and details ----------

  /** The call is on a resource of the tenant. */
  predicate OnResourceOf(op: Op, tenant: Id) {
    match op
    case CreateAgentOp(_, data, _, _) => data.tenant == tenant
    case DuplicateAgentOp(t, _, _, _, _, _) => t == tenant
    case UpdateAgentOp(t, _, _, _, _) => t == tenant
    case DeleteAgentOp(t, _) => t == tenant
    case SetPermissionOp(t, _, _, _, _, _) => t == tenant
    case DeletePermissionOp(t, _, _, _, _) => t == tenant
    case _ => false
  }

  lemma PatternsOnPages(op: Op, v: Id, u: Id, q: ListQuery)
    requires Named(op) && Plain(v) && Plain(u) && PlainQuery(q)
    ensures Reaches(op, ListKey(v, u, q)) <==> OnResourceOf(op, v) || op.DeleteGroupOp?
  {
    if OnResources(op) {
      ResourcePatternsOnPages(op, v, u, q);
    } else {
      ListSegmentsPlain(PREFIX, v, u, q);
      PrincipalPatternsMiss(op, ListSegments(PREFIX, v, u, q));
      DeletedGroupReaches(u, PREFIX, v, q);
    }
  }

  /** The other calls clear nothing of a resource by pattern, unless they delete a custom group. */
  lemma PrincipalPatternsMiss(op: Op, key: seq<string>)
    requires Named(op) && key != [] && AllPlain(key) && key[0] == PREFIX && !OnResources(op)
    ensures Reaches(op, Key(key)) ==> op.DeleteGroupOp?
  {
    TenantListsMiss(key);
    match op
    case CreateGroupOp(t, _, _, _) => ListPatternMisses("custom_groups", t, key);
    case SetRoleOp(_, _, kind, _, _) => RoleChangeMissesResources(kind, key);
    case DeleteRoleOp(_, _, kind, _) => RoleChangeMissesResources(kind, key);
    case DeleteTenantOp(t) => TenantPatternsMissResources(t, key);
    case _ =>
  }

  lemma RoleChangeMissesResources(kind: Kind, key: seq<string>)
    requires key != [] && AllPlain(key) && key[0] == PREFIX
    ensures !Reached(RoleChangePatterns(kind), Key(key))
  {
    RoleChangePatternsMiss(key);
    TenantListsMiss(key);
    assert kind != IdentityGroup ==> RoleChangePatterns(kind) == TENANT_LISTS;
  }

  lemma ResourcePatternsOnPages(op: Op, v: Id, u: Id, q: ListQuery)
    requires Named(op) && Plain(v) && Plain(u) && PlainQuery(q) && OnResources(op)
    ensures Reaches(op, ListKey(v, u, q)) <==> OnResourceOf(op, v)
  {
    match op
    case CreateAgentOp(_, data, _, _) => ListPatternExact(PREFIX, data.tenant, PREFIX, v, u, q);
    case DuplicateAgentOp(t, _, _, _, _, _) => ListPatternExact(PREFIX, t, PREFIX, v, u, q);
    case UpdateAgentOp(t, _, _, _, _) => ListPatternExact(PREFIX, t, PREFIX, v, u, q);
    case DeleteAgentOp(t, a) => TwoPatternsOnPages(t, "chat_agent", a, v, u, q);
    case SetPermissionOp(t, a, _, _, _, _) => TwoPatternsOnPages(t, "res", a, v, u, q);
    case DeletePermissionOp(t, a, _, _, _) => TwoPatternsOnPages(t, "res", a, v, u, q);
    case _ =>
  }

  lemma TwoPatternsOnPages(t: Id, word: string, a: Id, v: Id, u: Id, q: ListQuery)
    requires Plain(t) && Plain(word) && Plain(a) && Plain(v) && Plain(u) && PlainQuery(q)
    ensures Glob(ListPattern(PREFIX, t), ListKey(v, u, q)) <==> t == v
    ensures !Glob(PermissionsPattern(PREFIX, t, word, a), ListKey(v, u, q))
  {
    ListSegmentsPlain(PREFIX, v, u, q);
    ListPatternExact(PREFIX, t, PREFIX, v, u, q);
    PermissionsPatternMisses(t, word, a, ListSegments(PREFIX, v, u, q));
  }

  lemma KeysMissPages(op: Op, v: Id, u: Id, q: ListQuery)
    requires Named(op) && Plain(v) && Plain(u) && PlainQuery(q)
    ensures ListKey(v, u, q) !in ClearedKeys(op)
  {
    ListSegmentsPlain(PREFIX, v, u, q);
    var key := ListSegments(PREFIX, v, u, q);
    if op.UpdateAgentOp? || op.DeleteAgentOp? {
      SameKey(key, DetailSegments(PREFIX, op.tenant, "chat_agent", op.agent));
    } else if op.DeleteGroupOp? {
      SameKey(key, DetailSegments("custom_groups", op.tenant, "group", op.group));
    }
  }

  lemma UsersOnPages(db: Db, op: Op, v: Id, u: Id, q: ListQuery)
    requires PlainCall(db, op) && Plain(v) && Plain(u) && PlainQuery(q)
    requires forall w :: About(db, op, w) ==> NoKeyWord(w, q)
    ensures (exists w :: w in ClearedUsers(db, op) && Reached(UserPatterns(w), ListKey(v, u, q))) <==> About(db, op, u)
  {
    ClearedAreAbout(db, op, u);
    forall w | w in ClearedUsers(db, op) ensures Reached(UserPatterns(w), ListKey(v, u, q)) <==> w == u {
      ClearedArePlain(db, op, w);
      ClearedAreAbout(db, op, w);
      ClearingReachesOnlyOwnPages(w, v, u, q);
    }
  }

  /** A call takes a user's page of a tenant exactly if it is about the user, on a resource of that tenant, or deletes a custom group. The
      ids of users are none of the words a page key is made of. */
  lemma PageStaysIff(s: State, op: Op, v: Id, u: Id, q: ListQuery)
    requires PlainCall(s.db, op) && Plain(v) && Plain(u) && PlainQuery(q) && Apply(s.db, op).Some?
    requires forall w :: About(s.db, op, w) ==> NoKeyWord(w, q)
    ensures var key, before, after := ListKey(v, u, q), s.cache, Step(s, op).cache;
      && (key in after <==> key in before && !About(s.db, op, u) && !OnResourceOf(op, v) && !op.DeleteGroupOp?)
      && (key in after ==> after[key] == before[key])
  {
    PatternsOnPages(op, v, u, q);
    KeysMissPages(op, v, u, q);
    UsersOnPages(s.db, op, v, u, q);
    StaysUnlessCleared(s, op, ListKey(v, u, q), About(s.db, op, u), OnResourceOf(op, v) || op.DeleteGroupOp?);
  }

  // ---------- Details ----------

  lemma PatternsOnDetails(op: Op, v: Id, a: Id)
    requires Named(op) && Plain(v) && Plain(a) && !op.DeleteGroupOp?
    ensures !Reaches(op, DetailKey(v, a))
  {
    if OnResources(op) {
      ResourcePatternsMiss(op, DetailSegments(PREFIX, v, "chat_agent", a));
    } else {
      PrincipalPatternsMiss(op, DetailSegments(PREFIX, v, "chat_agent", a));
    }
  }

  lemma UserPatternsMissDetails(w: Id, v: Id, a: Id)
    requires Plain(w) && Plain(v) && Plain(a) && v != "user"
    ensures !Reached(UserPatterns(w), DetailKey(v, a))
  {
    var key := DetailSegments(PREFIX, v, "chat_agent", a);
    UserPatternsReach(w, key);
    forall j: nat { RunHead("user", w, key, j); }
    assert key[|key| - 3..] == [v, "chat_agent", a] && [v, "chat_agent", a][1] == "chat_agent";
    assert ["groups", "user", w][1] == "user" && ["custom_groups", "user", w][1] == "user";
  }

  lemma KeysOnDetails(op: Op, v: Id, a: Id)
    requires Named(op) && Plain(v) && Plain(a) && !op.DeleteGroupOp?
    ensures DetailKey(v, a) in ClearedKeys(op) <==> (op.UpdateAgentOp? || op.DeleteAgentOp?) && (op.tenant, op.agent) == (v, a)
  {
    if op.UpdateAgentOp? || op.DeleteAgentOp? {
      var mine, named := DetailSegments(PREFIX, v, "chat_agent", a), DetailSegments(PREFIX, op.tenant, "chat_agent", op.agent);
      SameKey(mine, named);
      assert mine[3] == v && named[3] == op.tenant && mine[5] == a && named[5] == op.agent;
    }
  }

  /** No call but the deletion of a custom group takes a detail entry of a tenant, unless it updates or deletes that resource. */
  lemma DetailStaysIff(s: State, op: Op, v: Id, a: Id)
    requires PlainCall(s.db, op) && Plain(v) && Plain(a) && v != "user" && Apply(s.db, op).Some? && !op.DeleteGroupOp?
    ensures var key, before, after := DetailKey(v, a), s.cache, Step(s, op).cache;
      && (key in after <==> key in before && !((op.UpdateAgentOp? || op.DeleteAgentOp?) && (op.tenant, op.agent) == (v, a)))
      && (key in after ==> after[key] == before[key])
  {
    PatternsOnDetails(op, v, a);
    KeysOnDetails(op, v, a);
    forall w | w in ClearedUsers(s.db, op) ensures !Reached(UserPatterns(w), DetailKey(v, a)) {
      ClearedArePlain(s.db, op, w);
      UserPatternsMissDetails(w, v, a);
    }
    StaysUnlessCleared(s, op, DetailKey(v, a), false, (op.UpdateAgentOp? || op.DeleteAgentOp?) && (op.tenant, op.agent) == (v, a));
  }
}
