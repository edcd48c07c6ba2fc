/** What each handler call does to the membership tables, and the integrity every call keeps.
    A call returns None when it raises: its session is rolled back and no row changes. */
module Rbac {
  import opened Schema
  import CopyNames

  // ---------- Lookups ----------

  predicate IsCustomGroup(db: Db, tenant: Id, group: Id) {
    (tenant, group) in db.principals && db.principals[(tenant, group)] == CustomGroup
  }

  function GroupMembership(db: Db, tenant: Id, group: Id, principal: Id): set<GroupRow> {
    set r | r in db.groupRows && r.tenant == tenant && r.group == group && r.principal == principal
  }

  function ResourceMembership(db: Db, tenant: Id, resource: Id, principal: Id): set<MemberRow> {
    set m | m in db.members && m.tenant == tenant && m.resource == resource && m.principal == principal
  }

  /** `scalar_one_or_none` raises on a second row. */
  predicate AtMostOne<T(!new)>(rows: set<T>) {
    forall a, b :: a in rows && b in rows ==> a == b
  }

  predicate AgentIn(db: Db, tenant: Id, agent: Id) {
    agent in db.agents && db.agents[agent].tenant == tenant
  }

  function NamesIn(db: Db, tenant: Id): map<Id, string> {
    map a | a in db.agents && db.agents[a].tenant == tenant :: db.agents[a].name
  }

  // ---------- principals_helper.py ----------

  /** Custom groups must exist; users and identity groups are fetched from the identity provider, which may not know them. */
  function EnsurePrincipal(db: Db, tenant: Id, principal: Id, kind: Kind): Option<Db> {
    if (tenant, principal) in db.principals then Some(db)
    else if tenant !in db.tenants || kind == CustomGroup then None
    else if kind == IdentityUser && principal !in db.directory.users then None
    else if kind == IdentityGroup && principal !in db.directory.groups then None
    else Some(db.(principals := db.principals[(tenant, principal) := kind]))
  }

  // ---------- principals.py, tenants.py ----------

  function SetRole(db: Db, tenant: Id, principal: Id, kind: Kind, role: string): Option<Db> {
    if tenant !in db.tenants then None
    else
      var d := EnsurePrincipal(db, tenant, principal, kind);
      if d.None? then None
      else Some(d.value.(roles := d.value.roles + {RoleRow(tenant, principal, role)}))
  }

  function DeleteRole(db: Db, tenant: Id, principal: Id, role: string): Option<Db> {
    if tenant !in db.tenants then None
    else Some(db.(roles := db.roles - {RoleRow(tenant, principal, role)}))
  }

  predicate TenantTaken(db: Db, organization: Id, name: string, environment: string) {
    exists t :: t in db.tenants && db.tenants[t].organization == organization && db.tenants[t].name == name
                && db.tenants[t].environment == environment
  }

  /** A sandbox in the creator's organization, if there is one and it has none of that name. */
  function CreateTenant(db: Db, tenant: Id, organization: Option<Id>, name: string, creator: Id): Option<Db> {
    if organization.None? || !CopyNames.NameFits(name) || TenantTaken(db, organization.value, name, SANDBOX) then None
    else
      var row := Tenant(organization.value, name, SANDBOX, true);
      SetRole(db.(tenants := db.tenants[tenant := row]), tenant, creator, IdentityUser, TENANT_GLOBAL_ADMIN)
  }

  /** Deleting the tenant row cascades to everything that references the tenant. */
  function DeleteTenant(db: Db, tenant: Id): Option<Db> {
    if tenant !in db.tenants || !db.tenants[tenant].deletable then None
    else Some(db.(
      tenants := db.tenants - {tenant},
      principals := (map k | k in db.principals && k.0 != tenant :: db.principals[k]),
      roles := (set r | r in db.roles && r.tenant != tenant),
      groupRows := (set r | r in db.groupRows && r.tenant != tenant),
      agents := (map a | a in db.agents && db.agents[a].tenant != tenant :: db.agents[a]),
      members := (set m | m in db.members && m.tenant != tenant)))
  }

  // ---------- custom_groups.py ----------

  function CreateGroup(db: Db, tenant: Id, group: Id, creator: Id, row: Id): Option<Db> {
    if tenant !in db.tenants then None
    else
      var d := EnsurePrincipal(db.(principals := db.principals[(tenant, group) := CustomGroup]), tenant, creator, IdentityUser);
      if d.None? then None
      else Some(d.value.(groupRows := d.value.groupRows + {GroupRow(row, tenant, group, creator, Admin)}))
  }

  function SetMember(db: Db, tenant: Id, group: Id, principal: Id, kind: Kind, action: Action, row: Id): Option<Db> {
    if !IsCustomGroup(db, tenant, group) then None
    else
      var d := EnsurePrincipal(db, tenant, principal, kind);
      if d.None? then None else UpsertGroupRow(d.value, tenant, group, principal, action, row)
  }

  /** Insert a membership, or change the role of the one there is. */
  function UpsertGroupRow(db: Db, tenant: Id, group: Id, principal: Id, action: Action, row: Id): Option<Db> {
    var found := GroupMembership(db, tenant, group, principal);
    if !AtMostOne(found) then None
    else if found == {} then Some(db.(groupRows := db.groupRows + {GroupRow(row, tenant, group, principal, action)}))
    else Some(db.(groupRows := db.groupRows - found + set r | r in found :: r.(action := action)))
  }

  function RemoveMember(db: Db, tenant: Id, group: Id, principal: Id): Option<Db> {
    var found := GroupMembership(db, tenant, group, principal);
    if !IsCustomGroup(db, tenant, group) || !AtMostOne(found) then None
    else Some(db.(groupRows := db.groupRows - found))
  }

  /** Deleting the group's principal row cascades to every row that names it. */
  function DeleteGroup(db: Db, tenant: Id, group: Id): Option<Db> {
    if !IsCustomGroup(db, tenant, group) then None
    else Some(db.(
      principals := db.principals - {(tenant, group)},
      roles := (set r | r in db.roles && !(r.tenant == tenant && r.principal == group)),
      groupRows := (set r | r in db.groupRows && !(r.tenant == tenant && (r.group == group || r.principal == group))),
      members := (set m | m in db.members && !(m.tenant == tenant && m.principal == group))))
  }

  // ---------- chat_agents.py ----------

  /** Insert the agent and grant its creator ADMIN, in one transaction; the name must fit its column and be free in the tenant. */
  function CreateAgent(db: Db, agent: Id, data: Agent, creator: Id, row: Id): Option<Db> {
    if data.tenant !in db.tenants || !CopyNames.NameFits(data.name) || CopyNames.Taken(NamesIn(db, data.tenant), data.name) then None
    else
      var d := EnsurePrincipal(db.(agents := db.agents[agent := data]), data.tenant, creator, IdentityUser);
      if d.None? then None
      else Some(d.value.(members := d.value.members + {MemberRow(row, data.tenant, agent, creator, Admin)}))
  }

  /** Everything is copied but the tags. */
  function Copied(source: Agent, name: string, now: nat): Agent {
    source.(name := name, tags := {}, created := now)
  }

  function DuplicateAgent(db: Db, tenant: Id, source: Id, agent: Id, creator: Id, row: Id, now: nat): Option<Db> {
    if !AgentIn(db, tenant, source) then None
    else
      var name := CopyNames.GenerateCopyName(NamesIn(db, tenant), db.agents[source].name);
      CreateAgent(db, agent, Copied(db.agents[source], name, now), creator, row)
  }

  function UpdateAgent(db: Db, tenant: Id, agent: Id, name: string, content: string, active: bool): Option<Db> {
    if !AgentIn(db, tenant, agent) || !CopyNames.NameFits(name) || CopyNames.Taken(NamesIn(db, tenant) - {agent}, name) then None
    else Some(db.(agents := db.agents[agent := db.agents[agent].(name := name, content := content, active := active)]))
  }

  function DeleteAgent(db: Db, tenant: Id, agent: Id): Option<Db> {
    if !AgentIn(db, tenant, agent) then None
    else Some(db.(agents := db.agents - {agent}, members := (set m | m in db.members && m.resource != agent)))
  }

  // ---------- resource_permissions.py ----------

  function SetPermission(db: Db, tenant: Id, agent: Id, principal: Id, kind: Kind, action: Action, row: Id): Option<Db> {
    if !AgentIn(db, tenant, agent) then None
    else
      var d := EnsurePrincipal(db, tenant, principal, kind);
      if d.None? then None else UpsertMemberRow(d.value, tenant, agent, principal, action, row)
  }

  function UpsertMemberRow(db: Db, tenant: Id, agent: Id, principal: Id, action: Action, row: Id): Option<Db> {
    var found := ResourceMembership(db, tenant, agent, principal);
    if !AtMostOne(found) then None
    else if found == {} then Some(db.(members := db.members + {MemberRow(row, tenant, agent, principal, action)}))
    else Some(db.(members := db.members - found + set m | m in found :: m.(action := action)))
  }

  function DeletePermission(db: Db, tenant: Id, agent: Id, principal: Id, action: Action): Option<Db> {
    var found := set m | m in ResourceMembership(db, tenant, agent, principal) && m.action == action;
    if !AgentIn(db, tenant, agent) || found == {} || !AtMostOne(found) then None
    else Some(db.(members := db.members - found))
  }

  // ---------- Integrity ----------

  ghost predicate DirectoryOk(d: Directory) {
    d.users !! d.groups && forall u :: u in d.memberOf ==> d.memberOf[u] <= d.groups
  }

  /** Principals belong to existing tenants and have the type the identity provider gives them. */
  ghost predicate PrincipalsOk(db: Db) {
    forall k :: k in db.principals ==>
      && k.0 in db.tenants
      && (db.principals[k] == IdentityUser ==> k.1 in db.directory.users)
      && (db.principals[k] == IdentityGroup ==> k.1 in db.directory.groups)
      && (db.principals[k] == CustomGroup ==> k.1 !in db.directory.users && k.1 !in db.directory.groups)
  }

  /** A custom group's id names one group in one tenant. */
  ghost predicate GroupIdsOk(db: Db) {
    forall t, t', g :: IsCustomGroup(db, t, g) && (t', g) in db.principals ==> t == t'
  }

  ghost predicate RolesOk(db: Db) {
    forall r :: r in db.roles ==> (r.tenant, r.principal) in db.principals
  }

  /** Group rows join a custom group and a principal of the same tenant, at most one row for each pair. */
  ghost predicate GroupRowsOk(db: Db) {
    && (forall r :: r in db.groupRows ==> IsCustomGroup(db, r.tenant, r.group) && (r.tenant, r.principal) in db.principals)
    && (forall r, r' | r in db.groupRows && r' in db.groupRows && r.tenant == r'.tenant && r.group == r'.group ::
         r.principal == r'.principal ==> r == r')
  }

  ghost predicate AgentsOk(db: Db) {
    && (forall a :: a in db.agents ==> db.agents[a].tenant in db.tenants)
    && (forall a, b | a in db.agents && b in db.agents && db.agents[a].tenant == db.agents[b].tenant ::
         db.agents[a].name == db.agents[b].name ==> a == b)
  }

  /** Member rows join a resource and a principal of the same tenant, at most one row for each pair. */
  ghost predicate MembersOk(db: Db) {
    && (forall m :: m in db.members ==> AgentIn(db, m.tenant, m.resource) && (m.tenant, m.principal) in db.principals)
    && (forall m, m' | m in db.members && m' in db.members && m.resource == m'.resource ::
         m.principal == m'.principal ==> m == m')
  }

  ghost predicate TenantsOk(tenants: map<Id, Tenant>) {
    forall t, t' | t in tenants && t' in tenants && tenants[t].organization == tenants[t'].organization ::
      tenants[t].name == tenants[t'].name && tenants[t].environment == tenants[t'].environment ==> t == t'
  }

  ghost predicate Integrity(db: Db) {
    && DirectoryOk(db.directory) && TenantsOk(db.tenants) && PrincipalsOk(db) && GroupIdsOk(db)
    && RolesOk(db) && GroupRowsOk(db) && AgentsOk(db) && MembersOk(db)
  }

  /** An id uuid4 has just made: nothing carries it yet. */
  ghost predicate UnusedPrincipal(db: Db, id: Id) {
    && id !in db.directory.users && id !in db.directory.groups
    && forall k :: k in db.principals ==> k.1 != id
  }

  lemma EnsureKeepsIntegrity(db: Db, tenant: Id, principal: Id, kind: Kind)
    requires Integrity(db) && EnsurePrincipal(db, tenant, principal, kind).Some?
    ensures Integrity(EnsurePrincipal(db, tenant, principal, kind).value)
    ensures (tenant, principal) in EnsurePrincipal(db, tenant, principal, kind).value.principals
  {
    var d := EnsurePrincipal(db, tenant, principal, kind).value;
    forall t, t', g | IsCustomGroup(d, t, g) && (t', g) in d.principals ensures t == t' {
      assert IsCustomGroup(db, t, g);
    }
    assert forall t, g :: IsCustomGroup(db, t, g) ==> IsCustomGroup(d, t, g);
  }

  lemma SetRoleKeepsIntegrity(db: Db, tenant: Id, principal: Id, kind: Kind, role: string)
    requires Integrity(db) && SetRole(db, tenant, principal, kind, role).Some?
    ensures Integrity(SetRole(db, tenant, principal, kind, role).value)
  {
    EnsureKeepsIntegrity(db, tenant, principal, kind);
    var d := EnsurePrincipal(db, tenant, principal, kind).value;
    var e := SetRole(db, tenant, principal, kind, role).value;
    assert forall t, g :: IsCustomGroup(e, t, g) <==> IsCustomGroup(d, t, g);
    assert forall t, a :: AgentIn(e, t, a) <==> AgentIn(d, t, a);
  }

  lemma NewTenantKeepsIntegrity(db: Db, tenant: Id, organization: Id, name: string)
    requires Integrity(db) && tenant !in db.tenants && !TenantTaken(db, organization, name, SANDBOX)
    ensures Integrity(db.(tenants := db.tenants[tenant := Tenant(organization, name, SANDBOX, true)]))
  {
    var d := db.(tenants := db.tenants[tenant := Tenant(organization, name, SANDBOX, true)]);
    assert forall t, g :: IsCustomGroup(d, t, g) <==> IsCustomGroup(db, t, g);
    assert forall t, a :: AgentIn(d, t, a) <==> AgentIn(db, t, a);
    assert TenantsOk(d.tenants);
  }

  lemma CreateTenantKeepsIntegrity(db: Db, tenant: Id, organization: Option<Id>, name: string, creator: Id)
    requires Integrity(db) && tenant !in db.tenants && CreateTenant(db, tenant, organization, name, creator).Some?
    ensures Integrity(CreateTenant(db, tenant, organization, name, creator).value)
  {
    NewTenantKeepsIntegrity(db, tenant, organization.value, name);
    SetRoleKeepsIntegrity(db.(tenants := db.tenants[tenant := Tenant(organization.value, name, SANDBOX, true)]),
                          tenant, creator, IdentityUser, TENANT_GLOBAL_ADMIN);
  }

  lemma DeleteRoleKeepsIntegrity(db: Db, tenant: Id, principal: Id, role: string)
    requires Integrity(db) && DeleteRole(db, tenant, principal, role).Some?
    ensures Integrity(DeleteRole(db, tenant, principal, role).value)
  {
    var e := DeleteRole(db, tenant, principal, role).value;
    assert forall t, g :: IsCustomGroup(e, t, g) <==> IsCustomGroup(db, t, g);
    assert forall t, a :: AgentIn(e, t, a) <==> AgentIn(db, t, a);
  }

  lemma DeleteTenantKeepsIntegrity(db: Db, tenant: Id)
    requires Integrity(db) && DeleteTenant(db, tenant).Some?
    ensures Integrity(DeleteTenant(db, tenant).value)
  {
    var e := DeleteTenant(db, tenant).value;
    assert forall t, g :: IsCustomGroup(e, t, g) <==> t != tenant && IsCustomGroup(db, t, g);
    assert forall t, a :: AgentIn(e, t, a) <==> t != tenant && AgentIn(db, t, a);
  }

  lemma NewGroupKeepsIntegrity(db: Db, tenant: Id, group: Id)
    requires Integrity(db) && UnusedPrincipal(db, group) && tenant in db.tenants
    ensures Integrity(db.(principals := db.principals[(tenant, group) := CustomGroup]))
  {
    var c := db.(principals := db.principals[(tenant, group) := CustomGroup]);
    assert forall t, g :: IsCustomGroup(c, t, g) <==> (t, g) == (tenant, group) || IsCustomGroup(db, t, g);
    assert forall t, a :: AgentIn(c, t, a) <==> AgentIn(db, t, a);
    assert (tenant, group) !in db.principals;
    assert PrincipalsOk(c) && GroupIdsOk(c);
    assert RolesOk(c) && AgentsOk(c);
  }

  lemma CreateGroupKeepsIntegrity(db: Db, tenant: Id, group: Id, creator: Id, row: Id)
    requires Integrity(db) && UnusedPrincipal(db, group) && CreateGroup(db, tenant, group, creator, row).Some?
    ensures Integrity(CreateGroup(db, tenant, group, creator, row).value)
  {
    var c := db.(principals := db.principals[(tenant, group) := CustomGroup]);
    NewGroupKeepsIntegrity(db, tenant, group);
    EnsureKeepsIntegrity(c, tenant, creator, IdentityUser);
    var d := EnsurePrincipal(c, tenant, creator, IdentityUser).value;
    assert IsCustomGroup(d, tenant, group);
    assert forall r :: r in db.groupRows ==> r.group != group;
    ReplacedGroupRowKeepsIntegrity(d, {}, GroupRow(row, tenant, group, creator, Admin));
    assert d.groupRows - {} == d.groupRows;
  }

  lemma SetMemberKeepsIntegrity(db: Db, tenant: Id, group: Id, principal: Id, kind: Kind, action: Action, row: Id)
    requires Integrity(db) && SetMember(db, tenant, group, principal, kind, action, row).Some?
    ensures Integrity(SetMember(db, tenant, group, principal, kind, action, row).value)
  {
    EnsureKeepsIntegrity(db, tenant, principal, kind);
    var d := EnsurePrincipal(db, tenant, principal, kind).value;
    assert IsCustomGroup(d, tenant, group);
    UpsertGroupRowKeepsIntegrity(d, tenant, group, principal, action, row);
  }

  lemma UpsertGroupRowKeepsIntegrity(d: Db, tenant: Id, group: Id, principal: Id, action: Action, row: Id)
    requires Integrity(d) && IsCustomGroup(d, tenant, group) && (tenant, principal) in d.principals
    ensures UpsertGroupRow(d, tenant, group, principal, action, row).Some?
    ensures Integrity(UpsertGroupRow(d, tenant, group, principal, action, row).value)
  {
    var found := GroupMembership(d, tenant, group, principal);
    var put := GroupRow(row, tenant, group, principal, action);
    if found != {} {
      var r :| r in found;
      assert found == {r};
      put := r.(action := action);
      assert (set r | r in found :: r.(action := action)) == {put};
    }
    assert UpsertGroupRow(d, tenant, group, principal, action, row).value == d.(groupRows := d.groupRows - found + {put});
    ReplacedGroupRowKeepsIntegrity(d, found, put);
  }

  lemma ReplacedGroupRowKeepsIntegrity(d: Db, found: set<GroupRow>, put: GroupRow)
    requires Integrity(d) && IsCustomGroup(d, put.tenant, put.group) && (put.tenant, put.principal) in d.principals
    requires forall r :: r in d.groupRows && r.tenant == put.tenant && r.group == put.group && r.principal == put.principal ==> r in found
    ensures Integrity(d.(groupRows := d.groupRows - found + {put}))
  {
    var e := d.(groupRows := d.groupRows - found + {put});
    assert forall t, g :: IsCustomGroup(e, t, g) <==> IsCustomGroup(d, t, g);
    assert forall t, a :: AgentIn(e, t, a) <==> AgentIn(d, t, a);
  }

  lemma RemoveMemberKeepsIntegrity(db: Db, tenant: Id, group: Id, principal: Id)
    requires Integrity(db) && RemoveMember(db, tenant, group, principal).Some?
    ensures Integrity(RemoveMember(db, tenant, group, principal).value)
  {
    var e := RemoveMember(db, tenant, group, principal).value;
    assert forall t, g :: IsCustomGroup(e, t, g) <==> IsCustomGroup(db, t, g);
    assert forall t, a :: AgentIn(e, t, a) <==> AgentIn(db, t, a);
  }

  lemma DeleteGroupKeepsIntegrity(db: Db, tenant: Id, group: Id)
    requires Integrity(db) && DeleteGroup(db, tenant, group).Some?
    ensures Integrity(DeleteGroup(db, tenant, group).value)
  {
    var e := DeleteGroup(db, tenant, group).value;
    assert forall t, g :: IsCustomGroup(e, t, g) <==> (t, g) != (tenant, group) && IsCustomGroup(db, t, g);
    assert forall t, a :: AgentIn(e, t, a) <==> AgentIn(db, t, a);
  }

  lemma CreateAgentKeepsIntegrity(db: Db, agent: Id, data: Agent, creator: Id, row: Id)
    requires Integrity(db) && agent !in db.agents && CreateAgent(db, agent, data, creator, row).Some?
    ensures Integrity(CreateAgent(db, agent, data, creator, row).value)
  {
    var c := db.(agents := db.agents[agent := data]);
    AddedAgentKeepsIntegrity(db, agent, data);
    EnsureKeepsIntegrity(c, data.tenant, creator, IdentityUser);
    var d := EnsurePrincipal(c, data.tenant, creator, IdentityUser).value;
    assert AgentIn(d, data.tenant, agent);
    assert forall m :: m in db.members ==> m.resource != agent;
    ReplacedMemberKeepsIntegrity(d, {}, MemberRow(row, data.tenant, agent, creator, Admin));
    assert d.members - {} == d.members;
  }

  lemma AddedAgentKeepsIntegrity(db: Db, agent: Id, data: Agent)
    requires Integrity(db) && agent !in db.agents && data.tenant in db.tenants && !CopyNames.Taken(NamesIn(db, data.tenant), data.name)
    ensures Integrity(db.(agents := db.agents[agent := data]))
  {
    var c := db.(agents := db.agents[agent := data]);
    assert forall t, g :: IsCustomGroup(c, t, g) <==> IsCustomGroup(db, t, g);
    assert forall t, a :: AgentIn(db, t, a) ==> AgentIn(c, t, a);
    forall a | a in db.agents && db.agents[a].tenant == data.tenant ensures db.agents[a].name != data.name {
      assert a in NamesIn(db, data.tenant);
    }
  }

  lemma UpdateAgentKeepsIntegrity(db: Db, tenant: Id, agent: Id, name: string, content: string, active: bool)
    requires Integrity(db) && UpdateAgent(db, tenant, agent, name, content, active).Some?
    ensures Integrity(UpdateAgent(db, tenant, agent, name, content, active).value)
  {
    var e := UpdateAgent(db, tenant, agent, name, content, active).value;
    assert forall t, g :: IsCustomGroup(e, t, g) <==> IsCustomGroup(db, t, g);
    assert forall t, a :: AgentIn(e, t, a) <==> AgentIn(db, t, a);
    forall a | a in db.agents && a != agent && db.agents[a].tenant == tenant ensures db.agents[a].name != name {
      assert a in NamesIn(db, tenant) - {agent};
    }
  }

  lemma DeleteAgentKeepsIntegrity(db: Db, tenant: Id, agent: Id)
    requires Integrity(db) && DeleteAgent(db, tenant, agent).Some?
    ensures Integrity(DeleteAgent(db, tenant, agent).value)
  {
    var e := DeleteAgent(db, tenant, agent).value;
    assert forall t, g :: IsCustomGroup(e, t, g) <==> IsCustomGroup(db, t, g);
    assert forall t, a :: AgentIn(e, t, a) <==> a != agent && AgentIn(db, t, a);
  }

  lemma SetPermissionKeepsIntegrity(db: Db, tenant: Id, agent: Id, principal: Id, kind: Kind, action: Action, row: Id)
    requires Integrity(db) && SetPermission(db, tenant, agent, principal, kind, action, row).Some?
    ensures Integrity(SetPermission(db, tenant, agent, principal, kind, action, row).value)
  {
    EnsureKeepsIntegrity(db, tenant, principal, kind);
    var d := EnsurePrincipal(db, tenant, principal, kind).value;
    assert AgentIn(d, tenant, agent);
    UpsertMemberRowKeepsIntegrity(d, tenant, agent, principal, action, row);
  }

  /** Granting never meets a second row for the pair, and leaves exactly one. */
  lemma UpsertMemberRowKeepsIntegrity(d: Db, tenant: Id, agent: Id, principal: Id, action: Action, row: Id)
    requires Integrity(d) && AgentIn(d, tenant, agent) && (tenant, principal) in d.principals
    ensures UpsertMemberRow(d, tenant, agent, principal, action, row).Some?
    ensures Integrity(UpsertMemberRow(d, tenant, agent, principal, action, row).value)
  {
    var found := ResourceMembership(d, tenant, agent, principal);
    assert forall m :: m in d.members && m.resource == agent && m.principal == principal ==> m in found;
    var put := MemberRow(row, tenant, agent, principal, action);
    if found != {} {
      var m :| m in found;
      assert found == {m};
      put := m.(action := action);
      assert (set m | m in found :: m.(action := action)) == {put};
    }
    var e := UpsertMemberRow(d, tenant, agent, principal, action, row).value;
    assert e == d.(members := d.members - found + {put});
    ReplacedMemberKeepsIntegrity(d, found, put);
  }

  lemma ReplacedMemberKeepsIntegrity(d: Db, found: set<MemberRow>, put: MemberRow)
    requires Integrity(d) && AgentIn(d, put.tenant, put.resource) && (put.tenant, put.principal) in d.principals
    requires forall m :: m in d.members && m.resource == put.resource && m.principal == put.principal ==> m in found
    ensures Integrity(d.(members := d.members - found + {put}))
  {
    var e := d.(members := d.members - found + {put});
    assert forall t, g :: IsCustomGroup(e, t, g) <==> IsCustomGroup(d, t, g);
    assert forall t, a :: AgentIn(e, t, a) <==> AgentIn(d, t, a);
  }

  lemma DeletePermissionKeepsIntegrity(db: Db, tenant: Id, agent: Id, principal: Id, action: Action)
    requires Integrity(db) && DeletePermission(db, tenant, agent, principal, action).Some?
    ensures Integrity(DeletePermission(db, tenant, agent, principal, action).value)
  {
    var e := DeletePermission(db, tenant, agent, principal, action).value;
    assert forall t, g :: IsCustomGroup(e, t, g) <==> IsCustomGroup(db, t, g);
    assert forall t, a :: AgentIn(e, t, a) <==> AgentIn(db, t, a);
  }
}
