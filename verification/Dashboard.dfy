/** Dashboard statistics: four tables counted under a permission filter of their own, and kept in a cache that nothing
    but time invalidates. */
module Dashboard {
  import opened Schema
  import opened Permissions
  import CacheKeys
  import Text
  import opened Rbac
  import opened Coherence
  import Effects

  datatype EntityStats = EntityStats(total: nat, active: nat, inactive: int)

  datatype Stats = Stats(agents: EntityStats, workflows: EntityStats, conversations: EntityStats, externalApps: EntityStats)

  /** A resource table and its member table. */
  datatype Table = Table(resources: map<Id, Agent>, members: set<MemberRow>)

  datatype Tables = Tables(agents: Table, workflows: Table, conversations: Table, externalApps: Table)

  /** The rows the count looks at. Only the global administrator skips the member filter. */
  function Counted(table: Table, user: User, tenant: Id): set<Id> {
    Visible(table.resources, table.members,
            Access(CheckIsAdmin(user, tenant, [TENANT_GLOBAL_ADMIN]), set p | p in AllPrincipalIds(user)), tenant)
  }

  /** The user administers one resource type without being global administrator. */
  predicate TypeAdminOnly(user: User, tenant: Id, adminRole: string) {
    CheckIsAdmin(user, tenant, [TENANT_GLOBAL_ADMIN, adminRole]) && !CheckIsAdmin(user, tenant, [TENANT_GLOBAL_ADMIN])
  }

  function CountOf(resources: map<Id, Agent>, ids: set<Id>, hasActive: bool): EntityStats
    requires ids <= resources.Keys
  {
    var active := if hasActive then |set a | a in ids && resources[a].active| else |ids|;
    EntityStats(|ids|, active, |ids| - active)
  }

  function CountEntity(table: Table, user: User, tenant: Id, hasActive: bool): EntityStats {
    CountOf(table.resources, Counted(table, user, tenant), hasActive)
  }

  function ComputeStats(tables: Tables, user: User, tenant: Id): Stats {
    Stats(CountEntity(tables.agents, user, tenant, true), CountEntity(tables.workflows, user, tenant, false),
          CountEntity(tables.conversations, user, tenant, false), CountEntity(tables.externalApps, user, tenant, false))
  }

  lemma SmallerSet<T>(a: set<T>, b: set<T>)
    requires a <= b
    ensures |a| <= |b| && (|a| == |b| <==> a == b)
  {
    assert b == a + (b - a);
  }

  /** The dashboard's total is the length of the unpaged list exactly unless the user administers the type without being
      global administrator and some resource of the tenant has not been shared with them; it never exceeds it. */
  lemma TotalIsListLengthIff(table: Table, adminRole: string, user: User, tenant: Id, hasActive: bool)
    ensures var total, listed := CountEntity(table, user, tenant, hasActive).total,
                                 ListVisible(table.resources, table.members, adminRole, user, tenant);
      && total <= |listed|
      && (total == |listed| <==>
          !TypeAdminOnly(user, tenant, adminRole)
          || InTenant(table.resources, tenant) <= MemberOf(table.members, tenant, set p | p in AllPrincipalIds(user)))
  {
    AdminForms(user, tenant, adminRole);
    assert CheckIsAdmin(user, tenant, [TENANT_GLOBAL_ADMIN]) ==> CheckIsAdmin(user, tenant, [TENANT_GLOBAL_ADMIN, adminRole]) by {
      assert TENANT_GLOBAL_ADMIN in [TENANT_GLOBAL_ADMIN];
    }
    SmallerSet(Counted(table, user, tenant), ListVisible(table.resources, table.members, adminRole, user, tenant));
  }

  /** Active and inactive resources are the counted ones, split. */
  lemma ActiveAndInactive(table: Table, user: User, tenant: Id)
    ensures var stats := CountEntity(table, user, tenant, true);
      && stats.active == |set a | a in Counted(table, user, tenant) && table.resources[a].active|
      && stats.inactive == |set a | a in Counted(table, user, tenant) && !table.resources[a].active|
  {
    var ids := Counted(table, user, tenant);
    var active, rest := set a | a in ids && table.resources[a].active, set a | a in ids && !table.resources[a].active;
    assert ids == active + rest && active !! rest;
  }

  // ---------- A cached answer after a grant ----------

  function AgentTable(db: Db): Table {
    Table(db.agents, db.members)
  }

  function PrincipalsOf(user: User): set<Id> {
    set p | p in AllPrincipalIds(user)
  }

  /** A grant that shows a user nothing new. */
  predicate ShowsNothing(db: Db, user: User, tenant: Id, agent: Id, principal: Id) {
    || CheckIsAdmin(user, tenant, [TENANT_GLOBAL_ADMIN])
    || principal !in PrincipalsOf(user)
    || agent in MemberOf(db.members, tenant, PrincipalsOf(user))
  }

  /** After a grant the user sees the granted resource and what was seen before. */
  lemma GrantShows(db: Db, tenant: Id, agent: Id, principal: Id, kind: Kind, action: Action, row: Id, user: User)
    requires Integrity(db) && SetPermission(db, tenant, agent, principal, kind, action, row).Some?
    ensures var db' := SetPermission(db, tenant, agent, principal, kind, action, row).value;
      && db'.agents == db.agents
      && Counted(AgentTable(db'), user, tenant) ==
          Counted(AgentTable(db), user, tenant) + if ShowsNothing(db, user, tenant, agent, principal) then {} else {agent}
  {
    var db' := SetPermission(db, tenant, agent, principal, kind, action, row).value;
    var principals := PrincipalsOf(user);
    forall a ensures a in MemberOf(db'.members, tenant, principals) <==>
      a in MemberOf(db.members, tenant, principals) || (a == agent && principal in principals)
    {
      GrantSeen(db, tenant, agent, principal, kind, action, row, a, principals);
    }
  }

  lemma GrantSeen(db: Db, tenant: Id, agent: Id, principal: Id, kind: Kind, action: Action, row: Id, a: Id, principals: set<Id>)
    requires Integrity(db) && SetPermission(db, tenant, agent, principal, kind, action, row).Some?
    ensures a in MemberOf(SetPermission(db, tenant, agent, principal, kind, action, row).value.members, tenant, principals) <==>
      a in MemberOf(db.members, tenant, principals) || (a == agent && principal in principals)
  {
    var members := SetPermission(db, tenant, agent, principal, kind, action, row).value.members;
    forall p ensures ActionsOn(members, tenant, a, {p}) != {} <==>
      ActionsOn(db.members, tenant, a, {p}) != {} || (a == agent && p == principal)
    {
      Effects.GrantSetsLevel(db, tenant, agent, principal, kind, action, row, tenant, a, p);
    }
    SeenThroughOne(members, tenant, a, principals);
    SeenThroughOne(db.members, tenant, a, principals);
  }

  /** A resource is seen through some one principal. */
  lemma SeenThroughOne(members: set<MemberRow>, tenant: Id, a: Id, principals: set<Id>)
    ensures a in MemberOf(members, tenant, principals) <==>
      exists p :: p in principals && ActionsOn(members, tenant, a, {p}) != {}
  {
    if a in MemberOf(members, tenant, principals) {
      var m :| m in members && m.tenant == tenant && m.principal in principals && m.resource == a;
      assert m.action in ActionsOn(members, tenant, a, {m.principal});
    }
    if p :| p in principals && ActionsOn(members, tenant, a, {p}) != {} {
      var x :| x in ActionsOn(members, tenant, a, {p});
      var m :| m in members && m.tenant == tenant && m.resource == a && m.principal == p && m.action == x;
    }
  }

  /** Statistics computed before a grant, such as the cached ones that no grant clears, are those after it exactly when the
      grant shows the user nothing new. */
  lemma GrantKeepsDashboardIff(db: Db, tables: Tables, tenant: Id, agent: Id, principal: Id, kind: Kind, action: Action, row: Id, user: User)
    requires Integrity(db) && SetPermission(db, tenant, agent, principal, kind, action, row).Some?
    requires tables.agents == AgentTable(db)
    ensures var db' := SetPermission(db, tenant, agent, principal, kind, action, row).value;
      ComputeStats(tables, user, tenant) == ComputeStats(tables.(agents := AgentTable(db')), user, tenant) <==>
        ShowsNothing(db, user, tenant, agent, principal)
  {
    GrantShows(db, tenant, agent, principal, kind, action, row, user);
    var before := Counted(AgentTable(db), user, tenant);
    assert AgentIn(db, tenant, agent);
    assert !ShowsNothing(db, user, tenant, agent, principal) ==> agent !in before;
  }

  /** A revocation that hides nothing from a user. */
  predicate HidesNothing(db: Db, user: User, tenant: Id, agent: Id, principal: Id) {
    || CheckIsAdmin(user, tenant, [TENANT_GLOBAL_ADMIN])
    || principal !in PrincipalsOf(user)
    || agent in MemberOf(db.members, tenant, PrincipalsOf(user) - {principal})
  }

  lemma RevokeSeen(db: Db, tenant: Id, agent: Id, principal: Id, action: Action, a: Id, principals: set<Id>)
    requires Integrity(db) && DeletePermission(db, tenant, agent, principal, action).Some?
    ensures a in MemberOf(DeletePermission(db, tenant, agent, principal, action).value.members, tenant, principals) <==>
      a in MemberOf(db.members, tenant, if a == agent then principals - {principal} else principals)
  {
    var members := DeletePermission(db, tenant, agent, principal, action).value.members;
    forall p ensures ActionsOn(members, tenant, a, {p}) ==
      if (a, p) == (agent, principal) then {} else ActionsOn(db.members, tenant, a, {p})
    {
      Effects.RevokeRemovesLevel(db, tenant, agent, principal, action, tenant, a, p);
    }
    SeenThroughOne(members, tenant, a, principals);
    SeenThroughOne(db.members, tenant, a, principals);
    SeenThroughOne(db.members, tenant, a, principals - {principal});
  }

  lemma RevokeHides(db: Db, tenant: Id, agent: Id, principal: Id, action: Action, user: User)
    requires Integrity(db) && DeletePermission(db, tenant, agent, principal, action).Some?
    ensures var db' := DeletePermission(db, tenant, agent, principal, action).value;
      && db'.agents == db.agents
      && Counted(AgentTable(db'), user, tenant) ==
          Counted(AgentTable(db), user, tenant) - if HidesNothing(db, user, tenant, agent, principal) then {} else {agent}
  {
    var db' := DeletePermission(db, tenant, agent, principal, action).value;
    var principals := PrincipalsOf(user);
    forall a ensures a in MemberOf(db'.members, tenant, principals) <==>
      a in MemberOf(db.members, tenant, if a == agent then principals - {principal} else principals)
    {
      RevokeSeen(db, tenant, agent, principal, action, a, principals);
    }
    assert principal !in principals ==> principals - {principal} == principals;
    assert MemberOf(db.members, tenant, principals - {principal}) <= MemberOf(db.members, tenant, principals);
  }

  /** Statistics from before a revocation are those after it exactly when it hides nothing from the user. */
  lemma RevokeKeepsDashboardIff(db: Db, tables: Tables, tenant: Id, agent: Id, principal: Id, action: Action, user: User)
    requires Integrity(db) && DeletePermission(db, tenant, agent, principal, action).Some?
    requires tables.agents == AgentTable(db)
    ensures var db' := DeletePermission(db, tenant, agent, principal, action).value;
      ComputeStats(tables, user, tenant) == ComputeStats(tables.(agents := AgentTable(db')), user, tenant) <==>
        HidesNothing(db, user, tenant, agent, principal)
  {
    RevokeHides(db, tenant, agent, principal, action, user);
    RevokedWasSeen(db, tenant, agent, principal, action, user);
  }

  /** What a revocation hides was counted. */
  lemma RevokedWasSeen(db: Db, tenant: Id, agent: Id, principal: Id, action: Action, user: User)
    requires Integrity(db) && DeletePermission(db, tenant, agent, principal, action).Some?
    ensures !HidesNothing(db, user, tenant, agent, principal) ==> agent in Counted(AgentTable(db), user, tenant)
  {
    assert AgentIn(db, tenant, agent);
    Effects.RevokeRemovesLevel(db, tenant, agent, principal, action, tenant, agent, principal);
    SeenThroughOne(db.members, tenant, agent, PrincipalsOf(user));
    assert ActionsOn(db.members, tenant, agent, {principal}) == {action};
  }

  lemma CountedAfterDeletion(db: Db, tenant: Id, agent: Id, user: User)
    requires DeleteAgent(db, tenant, agent).Some?
    ensures var db' := DeleteAgent(db, tenant, agent).value;
      && Counted(AgentTable(db'), user, tenant) == Counted(AgentTable(db), user, tenant) - {agent}
      && forall a :: a in db.agents && a != agent ==> a in db'.agents && db'.agents[a] == db.agents[a]
  {
    var db' := DeleteAgent(db, tenant, agent).value;
    assert InTenant(db'.agents, tenant) == InTenant(db.agents, tenant) - {agent};
    assert MemberOf(db'.members, tenant, PrincipalsOf(user)) == MemberOf(db.members, tenant, PrincipalsOf(user)) - {agent};
  }

  /** A count changes exactly when a counted resource goes. */
  lemma CountWithout(before: map<Id, Agent>, after: map<Id, Agent>, ids: set<Id>, agent: Id)
    requires ids <= before.Keys && ids - {agent} <= after.Keys
    requires forall a :: a in ids && a != agent ==> after[a] == before[a]
    ensures CountOf(before, ids, true) == CountOf(after, ids - {agent}, true) <==> agent !in ids
  {
    if agent in ids {
      assert |ids - {agent}| == |ids| - 1;
      assert CountOf(after, ids - {agent}, true).total != CountOf(before, ids, true).total;
    } else {
      assert ids - {agent} == ids;
      SameActive(before, after, ids);
    }
  }

  lemma SameActive(before: map<Id, Agent>, after: map<Id, Agent>, ids: set<Id>)
    requires ids <= before.Keys && ids <= after.Keys && forall a :: a in ids ==> after[a] == before[a]
    ensures (set a | a in ids && after[a].active) == set a | a in ids && before[a].active
  {
  }

  /** Statistics from before a resource is deleted are those after it exactly when the user's did not count it. */
  lemma DeletionKeepsDashboardIff(db: Db, tables: Tables, tenant: Id, agent: Id, user: User)
    requires DeleteAgent(db, tenant, agent).Some? && tables.agents == AgentTable(db)
    ensures var db' := DeleteAgent(db, tenant, agent).value;
      ComputeStats(tables, user, tenant) == ComputeStats(tables.(agents := AgentTable(db')), user, tenant) <==>
        agent !in Counted(AgentTable(db), user, tenant)
  {
    var db' := DeleteAgent(db, tenant, agent).value;
    CountedAfterDeletion(db, tenant, agent, user);
    CountWithout(db.agents, db'.agents, Counted(AgentTable(db), user, tenant), agent);
  }

  /** Everything of the tenant in a table has been shared with the user. */
  predicate AllShared(table: Table, user: User, tenant: Id) {
    InTenant(table.resources, tenant) <= MemberOf(table.members, tenant, PrincipalsOf(user))
  }

  lemma CountAfterRole(table: Table, user: User, admin: User, tenant: Id, hasActive: bool)
    requires !CheckIsAdmin(user, tenant, [TENANT_GLOBAL_ADMIN]) && CheckIsAdmin(admin, tenant, [TENANT_GLOBAL_ADMIN])
    ensures CountEntity(table, user, tenant, hasActive) == CountEntity(table, admin, tenant, hasActive) <==> AllShared(table, user, tenant)
  {
    SmallerSet(Counted(table, user, tenant), Counted(table, admin, tenant));
  }

  /** A user who becomes global administrator, or stops being one, keeps right statistics exactly when everything counted has been
      shared with the user anyway. */
  lemma RoleKeepsDashboardIff(tables: Tables, user: User, admin: User, tenant: Id)
    requires !CheckIsAdmin(user, tenant, [TENANT_GLOBAL_ADMIN]) && CheckIsAdmin(admin, tenant, [TENANT_GLOBAL_ADMIN])
    ensures ComputeStats(tables, user, tenant) == ComputeStats(tables, admin, tenant) <==>
      && AllShared(tables.agents, user, tenant) && AllShared(tables.workflows, user, tenant)
      && AllShared(tables.conversations, user, tenant) && AllShared(tables.externalApps, user, tenant)
  {
    CountAfterRole(tables.agents, user, admin, tenant, true);
    CountAfterRole(tables.workflows, user, admin, tenant, false);
    CountAfterRole(tables.conversations, user, admin, tenant, false);
    CountAfterRole(tables.externalApps, user, admin, tenant, false);
  }

  lemma GrantLeavesDashboard(db: Db, tenant: Id, agent: Id, principal: Id, kind: Kind, action: Action, row: Id, user: Id)
    requires CacheKeys.Plain(tenant) && CacheKeys.Plain(agent) && CacheKeys.Plain(principal) && CacheKeys.Plain(user)
    requires tenant !in {"user", "groups", "custom_groups"}
    ensures !Clears(db, SetPermissionOp(tenant, agent, principal, kind, action, row), CacheKeys.Key(CacheKeys.DashboardSegments(tenant, user)))
  {
    ResourcePatternsMiss(tenant, agent, user);
    UserPatternsMiss(principal, tenant, user);
  }

  lemma ResourcePatternsMiss(tenant: Id, agent: Id, user: Id)
    requires CacheKeys.Plain(tenant) && CacheKeys.Plain(agent) && CacheKeys.Plain(user)
    ensures !CacheKeys.Reached([CacheKeys.PermissionsPattern(PREFIX, tenant, "res", agent), CacheKeys.ListPattern(PREFIX, tenant)],
                               CacheKeys.Key(CacheKeys.DashboardSegments(tenant, user)))
  {
    var key := CacheKeys.DashboardSegments(tenant, user);
    CacheKeys.PrefixMatches([PREFIX, "permissions", "tenant", tenant, "res", agent], key);
    CacheKeys.PrefixMatches([PREFIX, "list", "tenant", tenant], key);
    assert key[0] == "dashboard" && PREFIX != "dashboard";
  }

  lemma UserPatternsMiss(principal: Id, tenant: Id, user: Id)
    requires CacheKeys.Plain(tenant) && CacheKeys.Plain(principal) && CacheKeys.Plain(user)
    requires tenant !in {"user", "groups", "custom_groups"}
    ensures !CacheKeys.Reached(CacheKeys.UserPatterns(principal), CacheKeys.Key(CacheKeys.DashboardSegments(tenant, user)))
  {
    var key := CacheKeys.DashboardSegments(tenant, user);
    CacheKeys.UserPatternsReach(principal, key);
    forall j: nat ensures !Text.RunAt(["user", principal], key, j) {
      CacheKeys.RunHead("user", principal, key, j);
    }
    assert key[|key| - 3..] == [tenant, "user", user] && [tenant, "user", user][0] == tenant;
  }

  class Handler {
    var cache: map<string, Stats>

    constructor ()
      ensures cache == map[]
    {
      cache := map[];
    }

    /** A cached answer is served as it is; anything else is computed and replaces the entry. */
    method GetDashboardStats(tables: Tables, user: User, tenant: Id, useCache: bool) returns (stats: Stats)
      modifies this
      ensures var key := CacheKeys.Key(CacheKeys.DashboardSegments(tenant, user.id));
        && (useCache && key in old(cache) ==> stats == old(cache)[key] && cache == old(cache))
        && (!(useCache && key in old(cache)) ==>
            stats == ComputeStats(tables, user, tenant) && cache == old(cache)[key := stats])
    {
      var key := CacheKeys.Key(CacheKeys.DashboardSegments(tenant, user.id));
      if useCache && key in cache {
        return cache[key];
      }
      stats := ComputeStats(tables, user, tenant);
      cache := cache[key := stats];
    }
  }

  /** The members of the tenant's rows a user counts: all of them for a global administrator, the shared ones for anybody else. */
  ghost predicate CountedFor(table: Table, user: User, tenant: Id, a: Id) {
    && a in table.resources && table.resources[a].tenant == tenant
    && (Holds(user, tenant, "TENANT_GLOBAL_ADMIN")
        || exists m :: m in table.members && m.tenant == tenant && m.resource == a
                       && (m.principal == user.id || exists g :: g in user.groups && g.id == m.principal))
  }

  /** Each part of the response counts its own table, and only agents are split by activity. */
  lemma StatsCountTheirTables(tables: Tables, user: User, tenant: Id)
    ensures var stats := ComputeStats(tables, user, tenant);
      && stats.agents.total == |set a | a in tables.agents.resources && CountedFor(tables.agents, user, tenant, a)|
      && stats.agents.active ==
          |set a | a in tables.agents.resources && CountedFor(tables.agents, user, tenant, a) && tables.agents.resources[a].active|
      && stats.agents.inactive ==
          |set a | a in tables.agents.resources && CountedFor(tables.agents, user, tenant, a) && !tables.agents.resources[a].active|
      && (var n := |set a | a in tables.workflows.resources && CountedFor(tables.workflows, user, tenant, a)|;
          stats.workflows == EntityStats(n, n, 0))
      && (var n := |set a | a in tables.conversations.resources && CountedFor(tables.conversations, user, tenant, a)|;
          stats.conversations == EntityStats(n, n, 0))
      && (var n := |set a | a in tables.externalApps.resources && CountedFor(tables.externalApps, user, tenant, a)|;
          stats.externalApps == EntityStats(n, n, 0))
  {
    CountedAre(tables.agents, user, tenant);
    CountedAre(tables.workflows, user, tenant);
    CountedAre(tables.conversations, user, tenant);
    CountedAre(tables.externalApps, user, tenant);
    ActiveAndInactive(tables.agents, user, tenant);
    var table := tables.agents;
    assert (set a | a in Counted(table, user, tenant) && table.resources[a].active)
      == set a | a in table.resources && CountedFor(table, user, tenant, a) && table.resources[a].active;
    assert (set a | a in Counted(table, user, tenant) && !table.resources[a].active)
      == set a | a in table.resources && CountedFor(table, user, tenant, a) && !table.resources[a].active;
  }

  lemma CountedAre(table: Table, user: User, tenant: Id)
    ensures Counted(table, user, tenant) == set a | a in table.resources && CountedFor(table, user, tenant, a)
  {
    AdminHolds(user, tenant, [TENANT_GLOBAL_ADMIN]);
    assert TENANT_GLOBAL_ADMIN in [TENANT_GLOBAL_ADMIN];
    forall p ensures p in PrincipalsOf(user) <==> p == user.id || exists g :: g in user.groups && g.id == p {
      PrincipalIdsAre(user, p);
    }
    forall a | a in table.resources && table.resources[a].tenant == tenant
      ensures a in Counted(table, user, tenant) <==> CountedFor(table, user, tenant, a)
    {
      if a in MemberOf(table.members, tenant, PrincipalsOf(user)) {
        var m :| m in table.members && m.tenant == tenant && m.principal in PrincipalsOf(user) && m.resource == a;
      }
    }
  }
}
