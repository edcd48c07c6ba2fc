/** Caching is transparent for one reader of one tenant: list pages and details read through the groups, the tenant roles
    and the page or detail caches equal uncached ones, over every run whose calls spare that reader. */
module ListCoherence {
  import opened CacheKeys
  import opened Schema
  import opened Permissions
  import opened Listing
  import opened Rbac
  import opened Coherence
  import opened RoleCoherence
  import opened Contexts
  import Effects

  /** The user's cached groups have all registered identity groups of the user's. */
  ghost predicate ContextCovers(s: State, user: Id) {
    CachedGroups(s, user).Some? ==>
      IdentityWithin(s.db, user, CachedGroups(s, user).value)
      && IdentityGroupsOf(s.db, user) <= IdsOfKind(CachedGroups(s, user).value, IdentityGroup)
  }

  ghost predicate PageRight(s: State, tenant: Id, user: Id, q: ListQuery) {
    var key := ListKey(tenant, user, q);
    key in s.cache ==> s.cache[key] == ListEntry(FreshList(s.db, tenant, user, q))
  }

  ghost predicate DetailRight(s: State, tenant: Id, agent: Id) {
    var key := DetailKey(tenant, agent);
    key in s.cache ==> AgentIn(s.db, tenant, agent) && s.cache[key] == DetailEntry(s.db.agents[agent])
  }

  ghost predicate PagesRight(s: State, tenant: Id, user: Id) {
    forall q :: PlainQuery(q) ==> PageRight(s, tenant, user, q)
  }

  ghost predicate DetailsRight(s: State, tenant: Id) {
    forall a :: Plain(a) ==> DetailRight(s, tenant, a)
  }

  /** Everything the reader's list and detail reads can meet in the cache is right. */
  ghost predicate ReaderInv(s: State, tenant: Id, user: Id) {
    RolesInv(s) && ContextCovers(s, user) && PagesRight(s, tenant, user) && DetailsRight(s, tenant)
  }

  // ---------- What a fresh page depends on ----------

  lemma FreshListIsMine(db: Db, tenant: Id, user: Id, q: ListQuery)
    requires Integrity(db)
    ensures FreshList(db, tenant, user, q)
      == ListPage(db.agents, db.members, tenant, Access(FreshAccess(db, user, tenant).admin, Mine(db, user)), q)
  {
    forall a { FreshActions(db, user, tenant, a); }
    PageDependsOn(db.agents, db.members, FreshAccess(db, user, tenant), db.agents, db.members,
                  Access(FreshAccess(db, user, tenant).admin, Mine(db, user)), tenant, q);
  }

  ghost predicate SameTenantRows(db: Db, db': Db, tenant: Id) {
    && (forall a :: AgentIn(db', tenant, a) <==> AgentIn(db, tenant, a))
    && (forall a :: AgentIn(db, tenant, a) ==> db'.agents[a] == db.agents[a])
    && forall m: MemberRow :: m.tenant == tenant ==> (m in db'.members <==> m in db.members)
  }

  /** Among the principals of a tenant, the user's are the same. */
  ghost predicate SameMine(db: Db, db': Db, tenant: Id, user: Id) {
    forall p :: (tenant, p) in db.principals && (tenant, p) in db'.principals ==> (p in Mine(db', user) <==> p in Mine(db, user))
  }

  /** A page is the same wherever the tenant's rows, the user's principals in it and administration are. */
  lemma SamePage(db: Db, db': Db, tenant: Id, user: Id, q: ListQuery)
    requires Integrity(db) && Integrity(db') && SameTenantRows(db, db', tenant) && SameMine(db, db', tenant, user)
    ensures FreshList(db', tenant, user, q)
      == ListPage(db.agents, db.members, tenant, Access(FreshAccess(db', user, tenant).admin, Mine(db, user)), q)
  {
    FreshListIsMine(db', tenant, user, q);
    SameMineActions(db, db', tenant, user);
    assert forall a :: a in InTenant(db.agents, tenant) <==> AgentIn(db, tenant, a);
    assert forall a :: a in InTenant(db'.agents, tenant) <==> AgentIn(db', tenant, a);
    PageDependsOn(db'.agents, db'.members, Access(FreshAccess(db', user, tenant).admin, Mine(db', user)), db.agents, db.members,
                  Access(FreshAccess(db', user, tenant).admin, Mine(db, user)), tenant, q);
  }

  lemma SameMineActions(db: Db, db': Db, tenant: Id, user: Id)
    requires Integrity(db) && Integrity(db') && SameTenantRows(db, db', tenant) && SameMine(db, db', tenant, user)
    ensures forall a :: ActionsOn(db'.members, tenant, a, Mine(db', user)) == ActionsOn(db.members, tenant, a, Mine(db, user))
  {
    forall m: MemberRow | m.tenant == tenant
      ensures m in db'.members && m.principal in Mine(db', user) <==> m in db.members && m.principal in Mine(db, user)
    {
      assert m in db.members ==> (tenant, m.principal) in db.principals && (tenant, m.principal) in db'.principals;
    }
    forall a ensures ActionsOn(db'.members, tenant, a, Mine(db', user)) == ActionsOn(db.members, tenant, a, Mine(db, user)) {}
  }

  lemma AdminByRow(db: Db, user: Id, v: Id)
    ensures FreshAccess(db, user, v).admin <==>
      exists r :: r in db.roles && r.tenant == v && v in db.tenants && r.principal in Mine(db, user) && IsAdminRole(r.role)
  {
    FreshRolesAreMine(db, user);
    if r :| r in db.roles && r.tenant == v && v in db.tenants && r.principal in Mine(db, user) && IsAdminRole(r.role) {
      assert (r.tenant, r.role) in RolePairs(db, Mine(db, user));
    }
  }

  // ---------- The tables after each kind of call ----------

  /** The tenant whose resource or member rows a call changes. */
  function TouchedTenant(op: Op): Option<Id> {
    match op
    case CreateAgentOp(_, data, _, _) => Some(data.tenant)
    case DuplicateAgentOp(t, _, _, _, _, _) => Some(t)
    case UpdateAgentOp(t, _, _, _, _) => Some(t)
    case DeleteAgentOp(t, _) => Some(t)
    case SetPermissionOp(t, _, _, _, _, _) => Some(t)
    case DeletePermissionOp(t, _, _, _, _) => Some(t)
    case _ => None
  }

  /** The rows of every other tenant stay as they are. */
  lemma OtherTenantsKept(s: State, op: Op, tenant: Id)
    requires Integrity(s.db) && NewIds(s, op) && Apply(s.db, op).Some?
    requires TouchedTenant(op) != Some(tenant) && !op.DeleteGroupOp? && (op.DeleteTenantOp? ==> op.tenant != tenant)
    ensures SameTenantRows(s.db, Apply(s.db, op).value, tenant)
  {
    if op.DeleteTenantOp? {
      OtherTenantStays(s.db, op.tenant, tenant);
    } else if TouchedTenant(op).None? {
      NoResourceRowsTouched(s.db, op);
    } else if op.CreateAgentOp? || op.DuplicateAgentOp? {
      OtherAgentMade(s, op, tenant);
    } else if op.UpdateAgentOp? || op.DeleteAgentOp? {
      OtherAgentsKept(s.db, op, tenant);
    } else {
      OtherGrantsKept(s.db, op, tenant);
    }
  }

  lemma NoResourceRowsTouched(db: Db, op: Op)
    requires Apply(db, op).Some? && TouchedTenant(op).None? && !op.DeleteGroupOp? && !op.DeleteTenantOp?
    ensures Apply(db, op).value.agents == db.agents && Apply(db, op).value.members == db.members
  {
  }

  lemma OtherTenantStays(db: Db, deleted: Id, tenant: Id)
    requires DeleteTenant(db, deleted).Some? && deleted != tenant
    ensures SameTenantRows(db, DeleteTenant(db, deleted).value, tenant)
  {
  }

  lemma OtherAgentMade(s: State, op: Op, tenant: Id)
    requires NewIds(s, op) && Apply(s.db, op).Some? && TouchedTenant(op) != Some(tenant) && (op.CreateAgentOp? || op.DuplicateAgentOp?)
    ensures SameTenantRows(s.db, Apply(s.db, op).value, tenant)
  {
  }

  lemma OtherAgentsKept(db: Db, op: Op, tenant: Id)
    requires Integrity(db) && Apply(db, op).Some? && TouchedTenant(op) != Some(tenant) && (op.UpdateAgentOp? || op.DeleteAgentOp?)
    ensures SameTenantRows(db, Apply(db, op).value, tenant)
  {
  }

  lemma OtherGrantsKept(db: Db, op: Op, tenant: Id)
    requires Apply(db, op).Some? && TouchedTenant(op) != Some(tenant) && (op.SetPermissionOp? || op.DeletePermissionOp?)
    ensures SameTenantRows(db, Apply(db, op).value, tenant)
  {
  }

  /** Deleting a tenant leaves the user's principals in every other tenant, and what they administer there. */
  lemma OtherTenantAccess(db: Db, deleted: Id, tenant: Id, user: Id)
    requires Integrity(db) && DeleteTenant(db, deleted).Some? && deleted != tenant
    ensures var db' := DeleteTenant(db, deleted).value;
      SameMine(db, db', tenant, user) && FreshAccess(db', user, tenant).admin == FreshAccess(db, user, tenant).admin
  {
    var db' := DeleteTenant(db, deleted).value;
    forall g | (tenant, g) in db.principals ensures g in CustomGroupsOf(db', user) <==> g in CustomGroupsOf(db, user) {
      OtherTenantGroup(db, deleted, tenant, user, g);
    }
    AdminByRow(db, user, tenant);
    AdminByRow(db', user, tenant);
    assert forall r :: r in db.roles ==> (r.tenant, r.principal) in db.principals;
    assert forall r: RoleRow :: r.tenant == tenant ==> (r in db'.roles <==> r in db.roles);
  }

  lemma OtherTenantGroup(db: Db, deleted: Id, tenant: Id, user: Id, group: Id)
    requires Integrity(db) && DeleteTenant(db, deleted).Some? && deleted != tenant && (tenant, group) in db.principals
    ensures group in CustomGroupsOf(DeleteTenant(db, deleted).value, user) <==> group in CustomGroupsOf(db, user)
  {
    var db' := DeleteTenant(db, deleted).value;
    if r :| r in db.groupRows && r.principal == user && IsCustomGroup(db, r.tenant, r.group) && r.group == group {
      assert r.tenant == tenant;
      assert r in db'.groupRows && IsCustomGroup(db', r.tenant, r.group);
    }
    if r :| r in db'.groupRows && r.principal == user && IsCustomGroup(db', r.tenant, r.group) && r.group == group {
      assert IsCustomGroup(db, r.tenant, r.group);
    }
  }

  /** What a new role of an identity group makes of administration. */
  lemma AdminAfterRole(db: Db, t: Id, p: Id, role: string, tenant: Id, user: Id)
    requires SetRole(db, t, p, IdentityGroup, role).Some?
    ensures var db' := SetRole(db, t, p, IdentityGroup, role).value;
      && CustomGroupsOf(db', user) == CustomGroupsOf(db, user)
      && db'.agents == db.agents && db'.members == db.members && db'.directory == db.directory
      && FreshAccess(db', user, tenant).admin ==
          (FreshAccess(db, user, tenant).admin || (tenant == t && IsAdminRole(role) && p in Mine(db, user)))
  {
    var d, db' := EnsurePrincipal(db, t, p, IdentityGroup).value, SetRole(db, t, p, IdentityGroup, role).value;
    EnsureChangesNothing(db, t, p, IdentityGroup, user);
    assert forall t', g :: IsCustomGroup(db', t', g) <==> IsCustomGroup(d, t', g);
    Effects.RoleReachesItsPrincipals(db, t, p, IdentityGroup, role, user, tenant, TENANT_GLOBAL_ADMIN);
    Effects.RoleReachesItsPrincipals(db, t, p, IdentityGroup, role, user, tenant, CHAT_AGENTS_ADMIN);
  }

  /** ... and its deletion. */
  lemma AdminAfterDeletion(db: Db, t: Id, p: Id, role: string, tenant: Id, user: Id)
    requires DeleteRole(db, t, p, role).Some?
    ensures var db', removed := DeleteRole(db, t, p, role).value, RoleRow(t, p, role);
      && CustomGroupsOf(db', user) == CustomGroupsOf(db, user)
      && db'.agents == db.agents && db'.members == db.members && db'.directory == db.directory
      && (FreshAccess(db', user, tenant).admin ==> FreshAccess(db, user, tenant).admin)
      && (FreshAccess(db', user, tenant).admin == FreshAccess(db, user, tenant).admin <==>
          tenant != t || removed !in db.roles || !IsAdminRole(role) || p !in Mine(db, user) || OtherAdminRow(db, user, removed))
  {
    var db', removed := DeleteRole(db, t, p, role).value, RoleRow(t, p, role);
    assert forall t', g :: IsCustomGroup(db', t', g) <==> IsCustomGroup(db, t', g);
    AdminByRow(db, user, tenant);
    AdminByRow(db', user, tenant);
    assert Mine(db', user) == Mine(db, user);
    assert forall r :: r in db'.roles <==> r in db.roles && r != removed;
  }

  predicate ChangesGroupRole(op: Op) {
    (op.SetRoleOp? || op.DeleteRoleOp?) && op.kind == IdentityGroup
  }

  /** What a call that spares a reader leaves of the reader's principals and administration. */
  lemma AccessKept(s: State, op: Op, tenant: Id, user: Id)
    requires Integrity(s.db) && Admits(Reader(tenant, user), s, Call(op)) && Apply(s.db, op).Some? && user in s.db.directory.users
    requires user !in ClearedUsers(s.db, op) && !op.DeleteGroupOp?
    ensures var db' := Apply(s.db, op).value;
      SameMine(s.db, db', tenant, user) && FreshAccess(db', user, tenant).admin == FreshAccess(s.db, user, tenant).admin
  {
    if op.DeleteTenantOp? {
      OtherTenantAccess(s.db, op.tenant, tenant, user);
    } else if op.SetRoleOp? && op.kind == IdentityGroup {
      AdminAfterRole(s.db, op.tenant, op.principal, op.role, tenant, user);
    } else if op.DeleteRoleOp? && op.kind == IdentityGroup {
      AdminAfterDeletion(s.db, op.tenant, op.principal, op.role, tenant, user);
    } else {
      RolesKept(s, op, user);
      CustomGroupsKept(s, op, user);
      ApplyKeepsIntegrity(s, op);
    }
  }

  // ---------- The reader's entries after a call ----------

  /** Calls that touch a tenant's rows clear every page cached for it. */
  lemma TouchedTenantCleared(db: Db, op: Op, tenant: Id, user: Id, q: ListQuery)
    requires TouchedTenant(op) == Some(tenant) && Plain(tenant) && Plain(user) && PlainQuery(q)
    ensures Clears(db, op, ListKey(tenant, user, q))
  {
    ListPatternExact(PREFIX, tenant, PREFIX, tenant, user, q);
    assert ListPattern(PREFIX, tenant) in ClearedPatterns(op);
  }

  /** A page that survives a call belongs to an uncleared user and an untouched tenant. */
  lemma SurvivingPage(db: Db, op: Op, t: Id, u: Id, q: ListQuery)
    requires Plain(t) && Plain(u) && PlainQuery(q) && !Clears(db, op, ListKey(t, u, q))
    ensures u !in ClearedUsers(db, op) && TouchedTenant(op) != Some(t) && !op.DeleteGroupOp?
  {
    if u in ClearedUsers(db, op) {
      ClearedUserPage(db, op, t, u, q);
    } else if TouchedTenant(op) == Some(t) {
      TouchedTenantCleared(db, op, t, u, q);
    } else if op.DeleteGroupOp? {
      DeletedGroupPage(db, op, t, u, q);
    }
  }

  lemma ClearedUserPage(db: Db, op: Op, t: Id, u: Id, q: ListQuery)
    requires Plain(t) && Plain(u) && PlainQuery(q) && u in ClearedUsers(db, op)
    ensures Clears(db, op, ListKey(t, u, q))
  {
    ClearingReachesList(u, PREFIX, t, q);
  }

  lemma DeletedGroupPage(db: Db, op: Op, t: Id, u: Id, q: ListQuery)
    requires Plain(t) && Plain(u) && PlainQuery(q) && op.DeleteGroupOp?
    ensures Clears(db, op, ListKey(t, u, q))
  {
    DeletedGroupReaches(u, PREFIX, t, q);
    assert DELETED_GROUP_PATTERN in ClearedPatterns(op);
  }

  lemma PageStaysRight(s: State, op: Op, t: Id, u: Id, q: ListQuery)
    requires RolesInv(s) && PageRight(s, t, u, q) && Admits(Reader(t, u), s, Call(op)) && Apply(s.db, op).Some?
    requires u in s.db.directory.users && Plain(t) && PlainQuery(q)
    ensures PageRight(Step(s, op), t, u, q)
  {
    if !Clears(s.db, op, ListKey(t, u, q)) {
      FreshPageKept(s, op, t, u, q);
    }
  }

  lemma FreshPageKept(s: State, op: Op, t: Id, u: Id, q: ListQuery)
    requires Integrity(s.db) && PlainIds(s.db) && Admits(Reader(t, u), s, Call(op)) && Apply(s.db, op).Some?
    requires u in s.db.directory.users && Plain(t) && PlainQuery(q) && !Clears(s.db, op, ListKey(t, u, q))
    ensures FreshList(Apply(s.db, op).value, t, u, q) == FreshList(s.db, t, u, q)
  {
    SurvivingPage(s.db, op, t, u, q);
    AccessKept(s, op, t, u);
    OtherTenantsKept(s, op, t);
    ApplyKeepsIntegrity(s, op);
    SamePage(s.db, Apply(s.db, op).value, t, u, q);
    FreshListIsMine(s.db, t, u, q);
  }

  lemma DetailStaysRight(s: State, op: Op, t: Id, a: Id)
    requires DetailRight(s, t, a) && NewIds(s, op) && Apply(s.db, op).Some? && (op.DeleteTenantOp? ==> op.tenant != t)
    ensures DetailRight(Step(s, op), t, a)
  {
    if DetailKey(t, a) in s.cache && DetailKey(t, a) !in ClearedKeys(op) {
      if op.UpdateAgentOp? || op.DeleteAgentOp? {
        assert (op.tenant, op.agent) != (t, a);
      } else {
        OthersKeepAgent(s.db, op, t, a);
      }
    }
  }

  lemma OthersKeepAgent(db: Db, op: Op, t: Id, a: Id)
    requires Apply(db, op).Some? && !op.UpdateAgentOp? && !op.DeleteAgentOp? && (op.DeleteTenantOp? ==> op.tenant != t)
    requires op.CreateAgentOp? || op.DuplicateAgentOp? ==> op.agent !in db.agents
    requires AgentIn(db, t, a)
    ensures AgentIn(Apply(db, op).value, t, a) && Apply(db, op).value.agents[a] == db.agents[a]
  {
  }

  /** An identity group registered by a call was registered, or is the principal the call names. */
  lemma RegisteredBy(db: Db, op: Op, k: (Id, Id))
    requires Apply(db, op).Some? && k in Apply(db, op).value.principals && Apply(db, op).value.principals[k] == IdentityGroup
    ensures (k in db.principals && db.principals[k] == IdentityGroup)
      || ((op.SetRoleOp? || op.SetMemberOp? || op.SetPermissionOp?)
          && op.kind == IdentityGroup && k == (op.tenant, op.principal) && k !in db.principals)
  {
  }

  lemma GroupRoleClearsGroups(db: Db, op: Op, user: Id)
    requires Plain(user) && ChangesGroupRole(op)
    ensures Clears(db, op, GroupsKey(user))
  {
    AllGroupsReached(user);
    assert ALL_GROUPS_PATTERN in ClearedPatterns(op);
  }

  lemma ContextStaysCovering(s: State, op: Op, t: Id, u: Id)
    requires RolesInv(s) && ContextCovers(s, u) && Admits(Reader(t, u), s, Call(op)) && Apply(s.db, op).Some?
    requires u in s.db.directory.users
    ensures ContextCovers(Step(s, op), u)
  {
    var s', key := Step(s, op), GroupsKey(u);
    ApplyKeepsIntegrity(s, op);
    if key in s'.cache && s'.cache[key].GroupsEntry? {
      if ChangesGroupRole(op) { GroupRoleClearsGroups(s.db, op, u); }
      forall k | k in s'.db.principals && s'.db.principals[k] == IdentityGroup && k.1 in IdpGroups(s.db, u)
        ensures k.1 in IdsOfKind(s.cache[key].groups, IdentityGroup)
      {
        RegisteredBy(s.db, op, k);
        assert k in s.db.principals && s.db.principals[k] == IdentityGroup ==> k.1 in IdentityGroupsOf(s.db, u);
      }
    }
  }

  /** A call that spares a reader keeps everything right for that reader. */
  lemma CallKeepsReader(s: State, op: Op, t: Id, u: Id)
    requires ReaderInv(s, t, u) && Admits(Reader(t, u), s, Call(op)) && u in s.db.directory.users && Plain(t)
    ensures ReaderInv(Step(s, op), t, u)
  {
    CallKeepsRoles(s, op);
    if Apply(s.db, op).Some? {
      ContextStaysCovering(s, op, t, u);
      forall q | PlainQuery(q) ensures PageRight(Step(s, op), t, u, q) {
        PageStaysRight(s, op, t, u, q);
      }
      forall a | Plain(a) ensures DetailRight(Step(s, op), t, a) {
        DetailStaysRight(s, op, t, a);
      }
    }
  }

  // ---------- Reads ----------

  /** Entries of other keys, and right ones, keep everything right for the reader. */
  lemma StoringKeepsReader(s: State, t: Id, u: Id, key: string, entry: Entry)
    requires ReaderInv(s, t, u) && RolesInv(s.(cache := s.cache[key := entry]))
    requires key == GroupsKey(u) ==> entry == GroupsEntry(FreshGroups(s.db, u))
    requires forall q :: PlainQuery(q) && key == ListKey(t, u, q) ==> entry == ListEntry(FreshList(s.db, t, u, q))
    requires forall a :: Plain(a) && key == DetailKey(t, a) ==> AgentIn(s.db, t, a) && entry == DetailEntry(s.db.agents[a])
    ensures ReaderInv(s.(cache := s.cache[key := entry]), t, u)
  {
    var s' := s.(cache := s.cache[key := entry]);
    FreshIdentityIds(s.db, u);
    forall q | PlainQuery(q) ensures PageRight(s', t, u, q) {
      assert PageRight(s, t, u, q);
    }
    forall a | Plain(a) ensures DetailRight(s', t, a) {
      assert DetailRight(s, t, a);
    }
  }

  lemma ReadGroupsKeepsReader(s: State, v: Id, t: Id, u: Id)
    requires ReaderInv(s, t, u) && {u, v} <= s.db.directory.users && Plain(t)
    ensures ReaderInv(ReadGroups(s, v).0, t, u)
  {
    ReadGroupsKeepsRoles(s, v);
    if !(GroupsKey(v) in s.cache && s.cache[GroupsKey(v)].GroupsEntry?) {
      UserKeysDiffer(u, v);
      forall q | PlainQuery(q) { ResourceKeysDiffer(v, t, u, q, ""); }
      forall a | Plain(a) { DetailKeyDiffers(v, t, a); }
      StoringKeepsReader(s, t, u, GroupsKey(v), GroupsEntry(FreshGroups(s.db, v)));
    }
  }

  lemma ReadRolesKeepsReader(s: State, v: Id, t: Id, u: Id)
    requires ReaderInv(s, t, u) && {u, v} <= s.db.directory.users && Plain(t)
    ensures ReaderInv(ReadRoles(s, v).0, t, u) && ReadRoles(s, v).0.db == s.db
  {
    ReadGroupsKeepsReader(s, v, t, u);
    ReadRolesIsFresh(s, v);
    var (s1, groups) := ReadGroups(s, v);
    if !(RolesKey(v) in s1.cache && s1.cache[RolesKey(v)].RolesEntry?) {
      UserKeysDiffer(v, u);
      forall q | PlainQuery(q) { ResourceKeysDiffer(v, t, u, q, ""); }
      forall a | Plain(a) { DetailKeyDiffers(v, t, a); }
      StoringKeepsReader(s1, t, u, RolesKey(v), RolesEntry(RolePairs(s1.db, RolePrincipals(s1.db, v, groups))));
    }
  }

  /** A page computed from a covering context is the fresh one. */
  lemma ComputedPageIsFresh(s: State, t: Id, u: Id, q: ListQuery)
    requires RolesInv(s) && ContextCovers(s, u) && u in s.db.directory.users
    ensures ListPage(s.db.agents, s.db.members, t, ReadAccess(s, u, t).1, q) == FreshList(s.db, t, u, q)
  {
    ContextRead(s, u, t);
    ContextPageIff(s.db, u, GroupsRead(s, u), t, q);
    FreshIdentityIds(s.db, u);
    forall a { CoveringMissesNothing(s.db, t, u, a, GroupsRead(s, u)); }
  }

  /** A list read answers with the uncached page, hit or miss. */
  lemma ReadListIsFresh(s: State, t: Id, u: Id, q: ListQuery)
    requires RolesInv(s) && ContextCovers(s, u) && PageRight(s, t, u, q) && u in s.db.directory.users && Plain(t) && PlainQuery(q)
    ensures ReadList(s, t, u, q).1 == FreshList(s.db, t, u, q)
  {
    PageIsRead(s, t, u, q);
    ComputedPageIsFresh(s, t, u, q);
  }

  /** A detail read answers as without a cache, not-found included, with the caller's own permission on a hit. */
  lemma ReadDetailIsFresh(s: State, t: Id, u: Id, a: Id)
    requires RolesInv(s) && ContextCovers(s, u) && DetailRight(s, t, a) && u in s.db.directory.users && Plain(t) && Plain(a)
    ensures ReadDetail(s, t, u, a).1 == FreshDetail(s.db, t, u, a)
  {
    DetailFreshIff(s, t, u, a);
    if GroupsKey(u) in s.cache {
      CoveringMissesNothing(s.db, t, u, a, s.cache[GroupsKey(u)].groups);
    }
  }

  /** List reads by anybody, of any tenant, keep everything right for the reader. */
  lemma ListReadKeepsReader(s: State, v: Id, w: Id, q: ListQuery, t: Id, u: Id)
    requires ReaderInv(s, t, u) && {u, w} <= s.db.directory.users && Plain(t) && Plain(v) && PlainQuery(q)
    ensures ReaderInv(ReadList(s, v, w, q).0, t, u)
  {
    ReadRolesKeepsReader(s, w, t, u);
    ListReadKeepsRoles(s, v, w, q);
    var (s1, access) := ReadAccess(s, w, v);
    assert s1 == ReadRoles(s, w).0;
    if (v, w) == (t, u) { ComputedPageIsFresh(s, t, u, q); }
    ResourceKeysDiffer(u, v, w, q, "");
    forall q' | PlainQuery(q') { ListEntriesDiffer(v, w, q, t, u, q', ""); }
    forall a | Plain(a) { ListEntriesDiffer(v, w, q, t, w, q, a); }
    if !(ListKey(v, w, q) in s1.cache && s1.cache[ListKey(v, w, q)].ListEntry?) {
      StoringKeepsReader(s1, t, u, ListKey(v, w, q), ListEntry(ListPage(s1.db.agents, s1.db.members, v, access, q)));
    }
  }

  lemma StoringDetailKeepsReader(s: State, v: Id, a: Id, t: Id, u: Id)
    requires ReaderInv(s, t, u) && u in s.db.directory.users && Plain(t) && Plain(v) && Plain(a) && AgentIn(s.db, v, a)
    ensures ReaderInv(s.(cache := s.cache[DetailKey(v, a) := DetailEntry(s.db.agents[a])]), t, u)
  {
    forall w | w in s.db.directory.users ensures DetailKey(v, a) !in {RolesKey(w), GroupsKey(w)} {
      DetailKeyDiffers(w, v, a);
    }
    StoringResourceKeepsRoles(s, DetailKey(v, a), DetailEntry(s.db.agents[a]));
    forall q | PlainQuery(q) { ListEntriesDiffer(t, u, q, v, u, q, a); }
    forall b | Plain(b) { DetailEntriesDiffer(v, a, t, b); }
    StoringKeepsReader(s, t, u, DetailKey(v, a), DetailEntry(s.db.agents[a]));
  }

  lemma DetailReadKeepsReader(s: State, v: Id, w: Id, a: Id, t: Id, u: Id)
    requires ReaderInv(s, t, u) && {u, w} <= s.db.directory.users && Plain(t) && Plain(v) && Plain(a)
    ensures ReaderInv(ReadDetail(s, v, w, a).0, t, u)
  {
    var key := DetailKey(v, a);
    if key in s.cache && s.cache[key].DetailEntry? {
      ReadRolesKeepsReader(s, w, t, u);
    } else if AgentIn(s.db, v, a) {
      StoringDetailKeepsReader(s, v, a, t, u);
      ReadRolesKeepsReader(s.(cache := s.cache[key := DetailEntry(s.db.agents[a])]), w, t, u);
    }
  }

  lemma NextKeepsReader(s: State, e: Event, t: Id, u: Id)
    requires ReaderInv(s, t, u) && Admits(Reader(t, u), s, e) && u in s.db.directory.users && Plain(t)
    ensures ReaderInv(Next(s, e), t, u)
  {
    match e
    case Call(op) => CallKeepsReader(s, op, t, u);
    case RolesRead(v) => ReadRolesKeepsReader(s, v, t, u);
    case ListRead(v, w, q) => ListReadKeepsReader(s, v, w, q, t, u);
    case DetailRead(v, w, a) => DetailReadKeepsReader(s, v, w, a, t, u);
  }

  lemma {:induction false} ReaderAlways(s: State, events: seq<Event>, t: Id, u: Id)
    requires ReaderInv(s, t, u) && AdmitsAll(Reader(t, u), s, events) && u in s.db.directory.users && Plain(t)
    ensures ReaderInv(Run(s, events), t, u) && Run(s, events).db.directory == s.db.directory
    decreases |events|
  {
    if events != [] {
      NextKeepsReader(s, events[0], t, u);
      DirectoryFixed(s, events[0]);
      ReaderAlways(Next(s, events[0]), events[1..], t, u);
    }
  }

  /** Caching is transparent for a reader of a tenant over every run of calls that spare that reader, interleaved with reads
      by any users of any tenants. */
  lemma ListsFreshAlways(s: State, events: seq<Event>, tenant: Id, user: Id, q: ListQuery, agent: Id)
    requires ReaderInv(s, tenant, user) && AdmitsAll(Reader(tenant, user), s, events)
    requires user in s.db.directory.users && Plain(tenant) && PlainQuery(q) && Plain(agent)
    ensures ReadList(Run(s, events), tenant, user, q).1 == FreshList(Run(s, events).db, tenant, user, q)
    ensures ReadDetail(Run(s, events), tenant, user, agent).1 == FreshDetail(Run(s, events).db, tenant, user, agent)
  {
    ReaderAlways(s, events, tenant, user);
    assert PageRight(Run(s, events), tenant, user, q) && DetailRight(Run(s, events), tenant, agent);
    ReadListIsFresh(Run(s, events), tenant, user, q);
    ReadDetailIsFresh(Run(s, events), tenant, user, agent);
  }

  /** An empty system is a start for every such run. */
  lemma EmptySystemIsRight(directory: Directory, tenant: Id, user: Id)
    requires DirectoryOk(directory) && forall u :: u in directory.users ==> Plain(u)
    ensures ReaderInv(EmptySystem(directory), tenant, user)
  {
    EmptySystemIsCoherent(directory);
  }
}
