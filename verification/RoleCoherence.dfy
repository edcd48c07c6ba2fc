/** The cached tenant roles of every user equal a fresh computation in every reachable state. */
module RoleCoherence {
  import opened CacheKeys
  import opened Schema
  import opened Rbac
  import opened Coherence
  import Listing

  /** A deleted group's id: nobody's principal, and never again, because new ids are new. */
  ghost predicate Dead(db: Db, id: Id) {
    UnusedPrincipal(db, id)
  }

  /** A cached group entry has all current custom groups; whatever else it calls a custom group is dead. */
  ghost predicate CustomAgree(db: Db, user: Id, groups: set<Group>) {
    && CustomGroupsOf(db, user) <= IdsOfKind(groups, CustomGroup)
    && forall g :: g in IdsOfKind(groups, CustomGroup) && g !in CustomGroupsOf(db, user) ==> Dead(db, g)
  }

  ghost predicate GroupsCoherent(s: State) {
    forall u :: u in s.db.directory.users && GroupsKey(u) in s.cache ==>
      s.cache[GroupsKey(u)].GroupsEntry? && CustomAgree(s.db, u, s.cache[GroupsKey(u)].groups)
  }

  ghost predicate RolesCoherent(s: State) {
    forall u :: u in s.db.directory.users && RolesKey(u) in s.cache ==> s.cache[RolesKey(u)] == RolesEntry(FreshRoles(s.db, u))
  }

  ghost predicate RolesInv(s: State) {
    Integrity(s.db) && PlainIds(s.db) && GroupsCoherent(s) && RolesCoherent(s)
  }

  // ---------- Stale group ids do no harm ----------

  lemma FreshCustomIds(db: Db, user: Id)
    ensures IdsOfKind(FreshGroups(db, user), CustomGroup) == CustomGroupsOf(db, user)
  {
    forall g | g in CustomGroupsOf(db, user) ensures g in IdsOfKind(FreshGroups(db, user), CustomGroup) {
      assert Group(g, CustomGroup) in FreshGroups(db, user);
    }
  }

  /** Roles computed from an agreeing group entry are the fresh roles: no role row names a dead id. */
  lemma RolesFromAgreeingGroups(db: Db, user: Id, groups: set<Group>)
    requires Integrity(db) && CustomAgree(db, user, groups)
    ensures RolePairs(db, RolePrincipals(db, user, groups)) == FreshRoles(db, user)
  {
    FreshCustomIds(db, user);
    forall r | r in db.roles && r.principal in RolePrincipals(db, user, groups)
      ensures r.principal in RolePrincipals(db, user, FreshGroups(db, user))
    {
      assert (r.tenant, r.principal) in db.principals;
    }
  }

  // ---------- What one call leaves alone ----------

  /** The calls that drop every user's role entry. */
  predicate ClearsAllRoles(op: Op) {
    match op
    case SetRoleOp(_, _, kind, _, _) => kind == IdentityGroup
    case DeleteRoleOp(_, _, kind, _) => kind == IdentityGroup
    case DeleteGroupOp(_, _) => true
    case DeleteTenantOp(_) => true
    case _ => false
  }

  lemma RoleEntryCleared(db: Db, op: Op, user: Id)
    requires Plain(user) && (user in ClearedUsers(db, op) || ClearsAllRoles(op))
    ensures Clears(db, op, RolesKey(user))
  {
    if user in ClearedUsers(db, op) {
      ClearingReachesUser(user, PREFIX, "", ListQuery(0, 0, "", "", ""));
    } else {
      AllTenantRolesReached(user);
      DeletedGroupReaches(user, PREFIX, "", ListQuery(0, 0, "", "", ""));
      if op.DeleteGroupOp? {
        assert DELETED_GROUP_PATTERN in ClearedPatterns(op);
      } else {
        assert ALL_TENANT_ROLES_PATTERN in ClearedPatterns(op);
      }
    }
  }

  lemma GroupEntryCleared(db: Db, op: Op, user: Id)
    requires Plain(user) && user in ClearedUsers(db, op)
    ensures Clears(db, op, GroupsKey(user))
  {
    ClearingReachesUser(user, PREFIX, "", ListQuery(0, 0, "", "", ""));
  }

  /** A role row of a principal stored under its true type concerns exactly the users whose entries are cleared. */
  lemma RoleRowConcerns(db: Db, tenant: Id, principal: Id, user: Id)
    requires Integrity(db) && user in db.directory.users
    requires (tenant, principal) in db.principals && db.principals[(tenant, principal)] != IdentityGroup
    requires principal in RolePrincipals(db, user, FreshGroups(db, user))
    ensures user in UsersToInvalidate(db, principal, db.principals[(tenant, principal)])
  {
    FreshCustomIds(db, user);
    assert principal !in db.directory.groups;
    if principal != user {
      assert principal in CustomGroupsOf(db, user);
      var r :| r in db.groupRows && r.principal == user && IsCustomGroup(db, r.tenant, r.group) && r.group == principal;
      assert (r.tenant, r.principal) in db.principals;
      assert db.principals[(r.tenant, r.principal)] == IdentityUser;
    }
  }

  /** Registering a principal changes nobody's custom groups and nobody's roles. */
  lemma EnsureChangesNothing(db: Db, tenant: Id, principal: Id, kind: Kind, user: Id)
    requires EnsurePrincipal(db, tenant, principal, kind).Some?
    ensures var d := EnsurePrincipal(db, tenant, principal, kind).value;
      && d.directory == db.directory && d.roles == db.roles && d.groupRows == db.groupRows && d.tenants == db.tenants
      && d.agents == db.agents && d.members == db.members
      && (forall t, g :: IsCustomGroup(d, t, g) <==> IsCustomGroup(db, t, g))
      && CustomGroupsOf(d, user) == CustomGroupsOf(db, user)
  {
    var d := EnsurePrincipal(db, tenant, principal, kind).value;
    assert forall t, g :: IsCustomGroup(d, t, g) <==> IsCustomGroup(db, t, g);
  }

  /** A user none of whose entries a call clears keeps the same custom groups, unless a group or tenant is deleted. */
  lemma CustomGroupsKept(s: State, op: Op, user: Id)
    requires Integrity(s.db) && NewIds(s, op) && Apply(s.db, op).Some?
    requires user !in ClearedUsers(s.db, op) && !op.DeleteGroupOp? && !op.DeleteTenantOp?
    ensures CustomGroupsOf(Apply(s.db, op).value, user) == CustomGroupsOf(s.db, user)
  {
    if op.SetMemberOp? || op.RemoveMemberOp? || op.CreateGroupOp? {
      OtherMembershipsKept(s.db, op, user);
    } else {
      NoGroupRowsTouched(s.db, op, user);
    }
  }

  /** A user's custom groups depend on the group rows that name the user, and on which groups exist. */
  lemma OtherMembershipsKept(db: Db, op: Op, user: Id)
    requires Integrity(db) && Apply(db, op).Some? && user !in ClearedUsers(db, op)
    requires op.SetMemberOp? || op.RemoveMemberOp? || (op.CreateGroupOp? && UnusedPrincipal(db, op.group))
    ensures CustomGroupsOf(Apply(db, op).value, user) == CustomGroupsOf(db, user)
  {
    if op.CreateGroupOp? {
      NewGroupKeepsOthers(db, op.tenant, op.group, op.creator, op.row, user);
    } else {
      MembershipKeepsOthers(db, op, user);
    }
  }

  lemma MembershipKeepsOthers(db: Db, op: Op, user: Id)
    requires Apply(db, op).Some? && user !in ClearedUsers(db, op) && (op.SetMemberOp? || op.RemoveMemberOp?)
    ensures CustomGroupsOf(Apply(db, op).value, user) == CustomGroupsOf(db, user)
  {
    var db' := Apply(db, op).value;
    if op.SetMemberOp? {
      EnsureChangesNothing(db, op.tenant, op.principal, op.kind, user);
    }
    assert forall t, g :: IsCustomGroup(db', t, g) <==> IsCustomGroup(db, t, g);
    assert forall r: GroupRow :: r.principal == user ==> (r in db'.groupRows <==> r in db.groupRows);
  }

  lemma NewGroupKeepsOthers(db: Db, tenant: Id, group: Id, creator: Id, row: Id, user: Id)
    requires Integrity(db) && UnusedPrincipal(db, group) && CreateGroup(db, tenant, group, creator, row).Some? && user != creator
    ensures CustomGroupsOf(CreateGroup(db, tenant, group, creator, row).value, user) == CustomGroupsOf(db, user)
  {
    var c, db' := db.(principals := db.principals[(tenant, group) := CustomGroup]), CreateGroup(db, tenant, group, creator, row).value;
    EnsureChangesNothing(c, tenant, creator, IdentityUser, user);
    assert forall t, g :: g != group ==> (IsCustomGroup(db', t, g) <==> IsCustomGroup(db, t, g));
    assert forall r :: r in db.groupRows ==> r.group != group;
    assert forall r: GroupRow :: r.principal == user ==> (r in db'.groupRows <==> r in db.groupRows);
  }

  lemma NoGroupRowsTouched(db: Db, op: Op, user: Id)
    requires Apply(db, op).Some? && !op.DeleteGroupOp? && !op.DeleteTenantOp?
    requires !op.SetMemberOp? && !op.RemoveMemberOp? && !op.CreateGroupOp?
    ensures CustomGroupsOf(Apply(db, op).value, user) == CustomGroupsOf(db, user)
  {
    var db' := Apply(db, op).value;
    assert db'.groupRows == db.groupRows;
    assert forall t, g :: IsCustomGroup(db', t, g) <==> IsCustomGroup(db, t, g);
  }

  lemma FreshRolesAreMine(db: Db, user: Id)
    ensures FreshRoles(db, user) == RolePairs(db, Mine(db, user))
  {
    FreshCustomIds(db, user);
  }

  predicate ChangesRoleRows(op: Op) {
    op.SetRoleOp? || op.DeleteRoleOp? || op.CreateTenantOp? || op.DeleteTenantOp? || op.DeleteGroupOp?
  }

  lemma RoleRowsKept(db: Db, op: Op)
    requires Apply(db, op).Some? && !ChangesRoleRows(op)
    ensures Apply(db, op).value.roles == db.roles && Apply(db, op).value.tenants == db.tenants
  {
  }

  lemma SetRoleConcerns(db: Db, tenant: Id, principal: Id, kind: Kind, role: string, user: Id)
    requires Integrity(db) && user in db.directory.users && kind != IdentityGroup
    requires SetRole(db, tenant, principal, kind, role).Some?
    requires (tenant, principal) in db.principals ==> db.principals[(tenant, principal)] == kind
    requires user !in UsersToInvalidate(db, principal, kind)
    ensures principal !in Mine(db, user)
  {
    FreshCustomIds(db, user);
    if principal in Mine(db, user) {
      EnsureKeepsIntegrity(db, tenant, principal, kind);
      EnsureChangesNothing(db, tenant, principal, kind, user);
      var d := EnsurePrincipal(db, tenant, principal, kind).value;
      FreshCustomIds(d, user);
      assert UsersToInvalidate(d, principal, kind) == UsersToInvalidate(db, principal, kind);
      RoleRowConcerns(d, tenant, principal, user);
    }
  }

  /** ... and the same roles. */
  lemma RolesKept(s: State, op: Op, user: Id)
    requires Integrity(s.db) && NewIds(s, op) && StoredType(s.db, op) && Apply(s.db, op).Some? && user in s.db.directory.users
    requires user !in ClearedUsers(s.db, op) && !ClearsAllRoles(op)
    ensures FreshRoles(Apply(s.db, op).value, user) == FreshRoles(s.db, user)
  {
    var db, db' := s.db, Apply(s.db, op).value;
    CustomGroupsKept(s, op, user);
    ApplyKeepsIntegrity(s, op);
    FreshRolesAreMine(db, user);
    FreshRolesAreMine(db', user);
    assert Mine(db, user) == Mine(db', user);
    if !ChangesRoleRows(op) {
      RoleRowsKept(db, op);
    } else {
      RoleChangeKept(db, op, user);
    }
  }

  /** A change of role rows that clears nothing of a user changes no row of the user's principals. */
  lemma RoleChangeKept(db: Db, op: Op, user: Id)
    requires Integrity(db) && StoredType(db, op) && Apply(db, op).Some? && user in db.directory.users
    requires op.CreateTenantOp? ==> op.tenant !in db.tenants
    requires user !in ClearedUsers(db, op) && !ClearsAllRoles(op) && ChangesRoleRows(op)
    ensures RolePairs(Apply(db, op).value, Mine(db, user)) == RolePairs(db, Mine(db, user))
  {
    if op.SetRoleOp? {
      SetRoleConcerns(db, op.tenant, op.principal, op.kind, op.role, user);
    } else if op.DeleteRoleOp? {
      if RoleRow(op.tenant, op.principal, op.role) in db.roles {
        FreshCustomIds(db, user);
        if op.principal in Mine(db, user) {
          RoleRowConcerns(db, op.tenant, op.principal, user);
        }
      }
    } else {
      NewTenantConcerns(db, op.tenant, op.organization, op.name, op.creator, user);
    }
  }

  lemma NewTenantConcerns(db: Db, tenant: Id, organization: Option<Id>, name: string, creator: Id, user: Id)
    requires Integrity(db) && user in db.directory.users && tenant !in db.tenants && user != creator
    requires CreateTenant(db, tenant, organization, name, creator).Some?
    ensures RolePairs(CreateTenant(db, tenant, organization, name, creator).value, Mine(db, user)) == RolePairs(db, Mine(db, user))
  {
    var d := db.(tenants := db.tenants[tenant := Tenant(organization.value, name, SANDBOX, true)]);
    NewTenantKeepsIntegrity(db, tenant, organization.value, name);
    assert forall t, g :: IsCustomGroup(d, t, g) <==> IsCustomGroup(db, t, g);
    assert CustomGroupsOf(d, user) == CustomGroupsOf(db, user);
    SetRoleConcerns(d, tenant, creator, IdentityUser, TENANT_GLOBAL_ADMIN, user);
    assert forall r :: r in db.roles ==> r.tenant in db.tenants;
    EnsureChangesNothing(d, tenant, creator, IdentityUser, user);
  }

  // ---------- The invariant is kept ----------

  /** A deleted group leaves only dead ids behind in the surviving group entries. */
  lemma CustomAgreeKept(s: State, op: Op, user: Id, groups: set<Group>)
    requires Integrity(s.db) && NewIds(s, op) && Apply(s.db, op).Some? && CustomAgree(s.db, user, groups)
    requires op.CreateGroupOp? ==> Group(op.group, CustomGroup) !in groups
    requires user in s.db.directory.users && user !in ClearedUsers(s.db, op)
    ensures CustomAgree(Apply(s.db, op).value, user, groups)
  {
    var db, db' := s.db, Apply(s.db, op).value;
    ApplyKeepsIntegrity(s, op);
    if op.DeleteGroupOp? || op.DeleteTenantOp? {
      assert forall t, g :: IsCustomGroup(db', t, g) ==> IsCustomGroup(db, t, g);
      forall g | g in CustomGroupsOf(db, user) && g !in CustomGroupsOf(db', user) ensures Dead(db', g) {
        LostGroupIsDead(db, op, user, g);
      }
    } else {
      CustomGroupsKept(s, op, user);
      forall g | g in IdsOfKind(groups, CustomGroup) && g !in CustomGroupsOf(db, user) ensures Dead(db', g) {
        DeadStaysDead(db, op, g);
      }
    }
  }

  lemma LostGroupIsDead(db: Db, op: Op, user: Id, group: Id)
    requires Integrity(db) && Apply(db, op).Some? && (op.DeleteGroupOp? || op.DeleteTenantOp?)
    requires user in db.directory.users && group in CustomGroupsOf(db, user) && group !in CustomGroupsOf(Apply(db, op).value, user)
    ensures Dead(Apply(db, op).value, group)
  {
    var db' := Apply(db, op).value;
    var r :| r in db.groupRows && r.principal == user && IsCustomGroup(db, r.tenant, r.group) && r.group == group;
    assert (r.tenant, r.group) in db.principals && (r.tenant, r.principal) in db.principals;
    forall k | k in db'.principals ensures k.1 != group {
      if k.1 == group {
        assert IsCustomGroup(db, r.tenant, group) && (k.0, group) in db.principals;
        assert k.0 == r.tenant;
        assert IsCustomGroup(db', r.tenant, group);
      }
    }
  }

  lemma DeadStaysDead(db: Db, op: Op, id: Id)
    requires Apply(db, op).Some? && Dead(db, id)
    requires op.CreateGroupOp? ==> op.group != id
    ensures Dead(Apply(db, op).value, id)
  {
  }

  lemma TenantsAfter(db: Db, op: Op)
    requires Apply(db, op).Some?
    ensures forall t :: t in Apply(db, op).value.tenants ==> t in db.tenants || (op.CreateTenantOp? && t == op.tenant)
  {
  }

  lemma AgentsAfter(db: Db, op: Op)
    requires Apply(db, op).Some?
    ensures forall a :: a in Apply(db, op).value.agents ==>
      a in db.agents || ((op.CreateAgentOp? || op.DuplicateAgentOp?) && a == op.agent)
  {
  }

  lemma PlainIdsKept(s: State, op: Op)
    requires PlainIds(s.db) && NewIds(s, op) && Apply(s.db, op).Some? && Integrity(s.db)
    ensures PlainIds(Apply(s.db, op).value)
  {
    ApplyKeepsIntegrity(s, op);
    TenantsAfter(s.db, op);
    AgentsAfter(s.db, op);
    NewIdsPlain(s, op);
  }

  lemma NewIdsPlain(s: State, op: Op)
    requires NewIds(s, op)
    ensures op.CreateTenantOp? ==> Plain(op.tenant)
    ensures op.CreateAgentOp? || op.DuplicateAgentOp? ==> Plain(op.agent)
  {
  }

  lemma CallKeepsRoles(s: State, op: Op)
    requires RolesInv(s) && NewIds(s, op) && StoredType(s.db, op)
    ensures RolesInv(Step(s, op))
  {
    if Apply(s.db, op).Some? {
      var s' := Step(s, op);
      ApplyKeepsIntegrity(s, op);
      PlainIdsKept(s, op);
      forall u | u in s'.db.directory.users && GroupsKey(u) in s'.cache
        ensures s'.cache[GroupsKey(u)].GroupsEntry? && CustomAgree(s'.db, u, s'.cache[GroupsKey(u)].groups)
      {
        if u in ClearedUsers(s.db, op) { GroupEntryCleared(s.db, op, u); }
        CustomAgreeKept(s, op, u, s.cache[GroupsKey(u)].groups);
      }
      forall u | u in s'.db.directory.users && RolesKey(u) in s'.cache
        ensures s'.cache[RolesKey(u)] == RolesEntry(FreshRoles(s'.db, u))
      {
        if u in ClearedUsers(s.db, op) || ClearsAllRoles(op) { RoleEntryCleared(s.db, op, u); }
        RolesKept(s, op, u);
      }
    }
  }

  /** Keys of different kinds, or of different users, are different. */
  lemma UserKeysDiffer(u: Id, v: Id)
    requires Plain(u) && Plain(v)
    ensures RolesKey(u) != GroupsKey(v) && GroupsKey(u) != RolesKey(v)
    ensures RolesKey(u) == RolesKey(v) ==> u == v
    ensures GroupsKey(u) == GroupsKey(v) ==> u == v
  {
    KindsDiffer(u, v);
    KindsDiffer(v, u);
    RoleUsersDiffer(u, v);
    GroupUsersDiffer(u, v);
  }

  lemma KindsDiffer(u: Id, v: Id)
    requires Plain(u) && Plain(v)
    ensures RolesKey(u) != GroupsKey(v)
  {
    FirstSegmentsDiffer(TenantsSegments(u), GroupsSegments(v));
  }

  lemma RoleUsersDiffer(u: Id, v: Id)
    requires Plain(u) && Plain(v)
    ensures RolesKey(u) == RolesKey(v) ==> u == v
  {
    SameKey(TenantsSegments(u), TenantsSegments(v));
    assert TenantsSegments(u)[2] == u && TenantsSegments(v)[2] == v;
  }

  lemma GroupUsersDiffer(u: Id, v: Id)
    requires Plain(u) && Plain(v)
    ensures GroupsKey(u) == GroupsKey(v) ==> u == v
  {
    SameKey(GroupsSegments(u), GroupsSegments(v));
    assert GroupsSegments(u)[3] == u && GroupsSegments(v)[3] == v;
  }

  lemma ReadGroupsKeepsRoles(s: State, user: Id)
    requires RolesInv(s) && user in s.db.directory.users
    ensures RolesInv(ReadGroups(s, user).0)
    ensures CustomAgree(s.db, user, ReadGroups(s, user).1)
  {
    FreshCustomIds(s.db, user);
    forall u | u in s.db.directory.users { UserKeysDiffer(u, user); }
  }

  /** Read through both caches, a user's roles are the fresh ones, and the read leaves the caches coherent. */
  lemma ReadRolesIsFresh(s: State, user: Id)
    requires RolesInv(s) && user in s.db.directory.users
    ensures ReadRoles(s, user).1 == FreshRoles(s.db, user)
    ensures RolesInv(ReadRoles(s, user).0)
  {
    ReadGroupsKeepsRoles(s, user);
    RolesFromAgreeingGroups(s.db, user, ReadGroups(s, user).1);
    forall u | u in s.db.directory.users { UserKeysDiffer(u, user); }
  }

  /** List and detail entries live under other keys. */
  lemma ResourceKeysDiffer(user: Id, tenant: Id, v: Id, q: ListQuery, agent: Id)
    requires Plain(user) && Plain(tenant) && Plain(v) && PlainQuery(q) && Plain(agent)
    ensures ListKey(tenant, v, q) !in {RolesKey(user), GroupsKey(user)}
    ensures DetailKey(tenant, agent) !in {RolesKey(user), GroupsKey(user)}
  {
    ListKeyDiffers(user, tenant, v, q);
    DetailKeyDiffers(user, tenant, agent);
  }

  lemma ListKeyDiffers(user: Id, tenant: Id, v: Id, q: ListQuery)
    requires Plain(user) && Plain(tenant) && Plain(v) && PlainQuery(q)
    ensures ListKey(tenant, v, q) !in {RolesKey(user), GroupsKey(user)}
  {
    ListSegmentsPlain(PREFIX, tenant, v, q);
    var key := ListSegments(PREFIX, tenant, v, q);
    assert key[0] == PREFIX && AllPlain(key);
    PrefixDiffers(user, key);
  }

  /** A key of resources is no key of a user. */
  lemma PrefixDiffers(user: Id, key: seq<string>)
    requires Plain(user) && key != [] && AllPlain(key) && key[0] == PREFIX
    ensures Key(key) !in {RolesKey(user), GroupsKey(user)}
  {
    assert PREFIX != "tenants" && PREFIX != "identity";
    FirstSegmentsDiffer(key, TenantsSegments(user));
    FirstSegmentsDiffer(key, GroupsSegments(user));
  }

  lemma DetailKeyDiffers(user: Id, tenant: Id, agent: Id)
    requires Plain(user) && Plain(tenant) && Plain(agent)
    ensures DetailKey(tenant, agent) !in {RolesKey(user), GroupsKey(user)}
  {
    PrefixDiffers(user, DetailSegments(PREFIX, tenant, "chat_agent", agent));
  }

  lemma StoringResourceKeepsRoles(s: State, key: string, entry: Entry)
    requires RolesInv(s) && forall u :: u in s.db.directory.users ==> key !in {RolesKey(u), GroupsKey(u)}
    ensures RolesInv(s.(cache := s.cache[key := entry]))
  {
  }

  lemma NextKeepsRoles(s: State, e: Event)
    requires RolesInv(s) && Admits(Roles, s, e)
    ensures RolesInv(Next(s, e))
  {
    match e
    case Call(op) => CallKeepsRoles(s, op);
    case RolesRead(user) => ReadRolesIsFresh(s, user);
    case ListRead(tenant, user, q) => ListReadKeepsRoles(s, tenant, user, q);
    case DetailRead(tenant, user, agent) => DetailReadKeepsRoles(s, tenant, user, agent);
  }

  lemma ListReadKeepsRoles(s: State, tenant: Id, user: Id, q: ListQuery)
    requires RolesInv(s) && user in s.db.directory.users && Plain(tenant) && PlainQuery(q)
    ensures RolesInv(ReadList(s, tenant, user, q).0)
  {
    ReadRolesIsFresh(s, user);
    var (s1, access) := ReadAccess(s, user, tenant);
    forall u | u in s.db.directory.users ensures ListKey(tenant, user, q) !in {RolesKey(u), GroupsKey(u)} {
      ResourceKeysDiffer(u, tenant, user, q, "");
    }
    StoringResourceKeepsRoles(s1, ListKey(tenant, user, q), ListEntry(Listing.ListPage(s.db.agents, s.db.members, tenant, access, q)));
  }

  lemma DetailReadKeepsRoles(s: State, tenant: Id, user: Id, agent: Id)
    requires RolesInv(s) && user in s.db.directory.users && Plain(tenant) && Plain(agent)
    ensures RolesInv(ReadDetail(s, tenant, user, agent).0)
  {
    forall u | u in s.db.directory.users ensures DetailKey(tenant, agent) !in {RolesKey(u), GroupsKey(u)} {
      DetailKeyDiffers(u, tenant, agent);
    }
    var key := DetailKey(tenant, agent);
    if key in s.cache && s.cache[key].DetailEntry? {
      ReadRolesIsFresh(s, user);
    } else if AgentIn(s.db, tenant, agent) {
      var filled := s.(cache := s.cache[key := DetailEntry(s.db.agents[agent])]);
      StoringResourceKeepsRoles(s, key, DetailEntry(s.db.agents[agent]));
      ReadRolesIsFresh(filled, user);
    }
  }

  /** In every reachable state of role changes under stored types, group membership changes, group and tenant creation
      and deletion, resource calls and reads, every user's roles read through the caches are the fresh ones. */
  lemma {:induction false} RolesFreshAlways(s: State, events: seq<Event>, user: Id)
    requires RolesInv(s) && AdmitsAll(Roles, s, events) && user in s.db.directory.users
    ensures RolesInv(Run(s, events))
    ensures ReadRoles(Run(s, events), user).1 == FreshRoles(Run(s, events).db, user)
    decreases |events|
  {
    if events == [] {
      ReadRolesIsFresh(s, user);
    } else {
      NextKeepsRoles(s, events[0]);
      DirectoryFixed(s, events[0]);
      RolesFreshAlways(Next(s, events[0]), events[1..], user);
    }
  }

  lemma DirectoryFixed(s: State, e: Event)
    requires Integrity(s.db) && Admits(Tables, s, e)
    ensures Next(s, e).db.directory == s.db.directory
  {
    if e.Call? && Apply(s.db, e.op).Some? {
      ApplyKeepsIntegrity(s, e.op);
    }
  }

  /** An empty system is a start for every run. */
  lemma EmptySystemIsCoherent(directory: Directory)
    requires DirectoryOk(directory) && forall u :: u in directory.users ==> Plain(u)
    ensures RolesInv(EmptySystem(directory))
  {
  }
}
