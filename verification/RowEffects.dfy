/** When a call goes through and what it leaves in the tables, told without the functions that compute it. */
module RowEffects {
  import opened Schema
  import opened Permissions
  import opened Rbac
  import CopyNames
  import Wildcard
  import Effects

  /** The roles a principal holds in a group. */
  function RolesInGroup(rows: set<GroupRow>, tenant: Id, group: Id, principal: Id): set<Action> {
    set r | r in rows && r.tenant == tenant && r.group == group && r.principal == principal :: r.action
  }

  /** Registered already, or the identity provider knows it under the type passed. */
  predicate Known(db: Db, tenant: Id, principal: Id, kind: Kind) {
    || (tenant, principal) in db.principals
    || (tenant in db.tenants && ((kind == IdentityUser && principal in db.directory.users)
                                 || (kind == IdentityGroup && principal in db.directory.groups)))
  }

  /** Nothing but the principal is registered, under the type passed unless it was known under another. */
  ghost predicate Registers(before: map<(Id, Id), Kind>, after: map<(Id, Id), Kind>, tenant: Id, principal: Id, kind: Kind) {
    after == if (tenant, principal) in before then before else before[(tenant, principal) := kind]
  }

  lemma EnsureRegisters(db: Db, tenant: Id, principal: Id, kind: Kind)
    ensures EnsurePrincipal(db, tenant, principal, kind).Some? <==> Known(db, tenant, principal, kind)
    ensures var d := EnsurePrincipal(db, tenant, principal, kind);
      d.Some? ==> Registers(db.principals, d.value.principals, tenant, principal, kind) && d.value == db.(principals := d.value.principals)
  {
  }

  // ---------- Tenants and their roles ----------

  /** A new tenant is a deletable sandbox of the creator's organization whose only role is the creator's global administration. */
  lemma CreateTenantWrites(db: Db, tenant: Id, organization: Option<Id>, name: string, creator: Id)
    requires Integrity(db) && tenant !in db.tenants
    ensures var d := CreateTenant(db, tenant, organization, name, creator);
      && (d.Some? <==>
          && organization.Some? && 1 <= |name| <= 255 && creator in db.directory.users
          && forall t :: t in db.tenants && db.tenants[t].environment == "SANDBOX" && db.tenants[t].organization == organization.value ==>
               db.tenants[t].name != name)
      && (d.Some? ==>
          d.value == db.(tenants := db.tenants[tenant := Tenant(organization.value, name, "SANDBOX", true)],
                         principals := db.principals[(tenant, creator) := IdentityUser],
                         roles := db.roles + {RoleRow(tenant, creator, "TENANT_GLOBAL_ADMIN")}))
  {
    assert forall k :: k in db.principals ==> k.0 in db.tenants;
    assert (tenant, creator) !in db.principals;
  }

  /** Deletable tenants go with everything that is theirs, and nothing else does. */
  lemma DeleteTenantWrites(db: Db, tenant: Id)
    ensures var d := DeleteTenant(db, tenant);
      && (d.Some? <==> tenant in db.tenants && db.tenants[tenant].deletable)
      && (d.Some? ==>
          && (forall t :: t in d.value.tenants <==> t in db.tenants && t != tenant)
          && (forall k :: k in d.value.principals <==> k in db.principals && k.0 != tenant)
          && (forall r :: r in d.value.roles <==> r in db.roles && r.tenant != tenant)
          && (forall r :: r in d.value.groupRows <==> r in db.groupRows && r.tenant != tenant)
          && (forall a :: a in d.value.agents <==> a in db.agents && db.agents[a].tenant != tenant)
          && (forall m :: m in d.value.members <==> m in db.members && m.tenant != tenant))
  {
  }

  /** Setting a role adds its row and, if need be, the principal. */
  lemma SetRoleWrites(db: Db, tenant: Id, principal: Id, kind: Kind, role: string)
    requires Integrity(db)
    ensures var d := SetRole(db, tenant, principal, kind, role);
      && (d.Some? <==> tenant in db.tenants && Known(db, tenant, principal, kind))
      && (d.Some? ==>
          && Registers(db.principals, d.value.principals, tenant, principal, kind)
          && d.value == db.(principals := d.value.principals, roles := db.roles + {RoleRow(tenant, principal, role)}))
  {
    EnsureRegisters(db, tenant, principal, kind);
  }

  // ---------- Groups ----------

  /** After a role in a group is set, its principal has exactly that role there; every other role in every group stays. */
  lemma SetMemberWrites(db: Db, tenant: Id, group: Id, principal: Id, kind: Kind, action: Action, row: Id, t: Id, g: Id, p: Id)
    requires Integrity(db)
    ensures var d := SetMember(db, tenant, group, principal, kind, action, row);
      && (d.Some? <==> (tenant, group) in db.principals && db.principals[(tenant, group)] == CustomGroup && Known(db, tenant, principal, kind))
      && (d.Some? ==>
          && RolesInGroup(d.value.groupRows, t, g, p) ==
              (if (t, g, p) == (tenant, group, principal) then {action} else RolesInGroup(db.groupRows, t, g, p))
          && Registers(db.principals, d.value.principals, tenant, principal, kind)
          && d.value == db.(principals := d.value.principals, groupRows := d.value.groupRows))
  {
    EnsureRegisters(db, tenant, principal, kind);
    if IsCustomGroup(db, tenant, group) && Known(db, tenant, principal, kind) {
      var d := EnsurePrincipal(db, tenant, principal, kind).value;
      EnsureKeepsIntegrity(db, tenant, principal, kind);
      assert IsCustomGroup(d, tenant, group);
      UpsertGroupRowKeepsIntegrity(d, tenant, group, principal, action, row);
      UpsertSetsRole(d, tenant, group, principal, action, row, t, g, p);
    }
  }

  lemma UpsertSetsRole(d: Db, tenant: Id, group: Id, principal: Id, action: Action, row: Id, t: Id, g: Id, p: Id)
    requires Integrity(d) && UpsertGroupRow(d, tenant, group, principal, action, row).Some?
    ensures var e := UpsertGroupRow(d, tenant, group, principal, action, row).value;
      && RolesInGroup(e.groupRows, t, g, p) ==
          (if (t, g, p) == (tenant, group, principal) then {action} else RolesInGroup(d.groupRows, t, g, p))
      && e == d.(groupRows := e.groupRows)
  {
    var found := GroupMembership(d, tenant, group, principal);
    var put := GroupRow(row, tenant, group, principal, action);
    if found != {} {
      var r :| r in found;
      assert found == {r};
      put := r.(action := action);
      assert (set n | n in found :: n.(action := action)) == {put};
    }
    assert UpsertGroupRow(d, tenant, group, principal, action, row).value == d.(groupRows := d.groupRows - found + {put});
    OneGroupRowPut(d.groupRows, found, put, t, g, p);
  }

  lemma OneGroupRowPut(rows: set<GroupRow>, found: set<GroupRow>, put: GroupRow, t: Id, g: Id, p: Id)
    requires forall r :: r in found <==> r in rows && r.tenant == put.tenant && r.group == put.group && r.principal == put.principal
    ensures RolesInGroup(rows - found + {put}, t, g, p) ==
      if (t, g, p) == (put.tenant, put.group, put.principal) then {put.action} else RolesInGroup(rows, t, g, p)
  {
    var after := rows - found + {put};
    assert put in after;
    forall r | r in rows && (r.tenant, r.group, r.principal) != (put.tenant, put.group, put.principal) ensures r in after {}
    forall x | x in RolesInGroup(rows, t, g, p) && (t, g, p) != (put.tenant, put.group, put.principal)
      ensures x in RolesInGroup(after, t, g, p)
    {
      var r :| r in rows && r.tenant == t && r.group == g && r.principal == p && r.action == x;
      assert r in after;
    }
  }

  /** After a removal the principal has no role in the group; every other role stays. */
  lemma RemoveMemberWrites(db: Db, tenant: Id, group: Id, principal: Id, t: Id, g: Id, p: Id)
    requires Integrity(db)
    ensures var d := RemoveMember(db, tenant, group, principal);
      && (d.Some? <==> (tenant, group) in db.principals && db.principals[(tenant, group)] == CustomGroup)
      && (d.Some? ==>
          && RolesInGroup(d.value.groupRows, t, g, p) ==
              (if (t, g, p) == (tenant, group, principal) then {} else RolesInGroup(db.groupRows, t, g, p))
          && d.value == db.(groupRows := d.value.groupRows))
  {
    var found := GroupMembership(db, tenant, group, principal);
    assert AtMostOne(found);
    forall x | x in RolesInGroup(db.groupRows, t, g, p) && (t, g, p) != (tenant, group, principal)
      ensures x in RolesInGroup(db.groupRows - found, t, g, p)
    {
      var r :| r in db.groupRows && r.tenant == t && r.group == g && r.principal == p && r.action == x;
      assert r in db.groupRows - found;
    }
  }

  /** A new group is a custom group whose only member is its creator, as its ADMIN. */
  lemma CreateGroupWrites(db: Db, tenant: Id, group: Id, creator: Id, row: Id, t: Id, g: Id, p: Id)
    requires Integrity(db) && UnusedPrincipal(db, group) && creator != group
    ensures var d := CreateGroup(db, tenant, group, creator, row);
      && (d.Some? <==> tenant in db.tenants && Known(db, tenant, creator, IdentityUser))
      && (d.Some? ==>
          && RolesInGroup(d.value.groupRows, t, g, p) ==
              (if (t, g, p) == (tenant, group, creator) then {Admin} else RolesInGroup(db.groupRows, t, g, p))
          && (tenant, group) in d.value.principals && d.value.principals[(tenant, group)] == CustomGroup
          && Registers(db.principals[(tenant, group) := CustomGroup], d.value.principals, tenant, creator, IdentityUser)
          && d.value == db.(principals := d.value.principals, groupRows := d.value.groupRows))
  {
    var c := db.(principals := db.principals[(tenant, group) := CustomGroup]);
    EnsureRegisters(c, tenant, creator, IdentityUser);
    NoRowsOfNewGroup(db, tenant, group);
    var put := GroupRow(row, tenant, group, creator, Admin);
    OneGroupRowPut(db.groupRows, {}, put, t, g, p);
    assert db.groupRows - {} == db.groupRows;
    assert group !in db.directory.users;
  }

  lemma NoRowsOfNewGroup(db: Db, tenant: Id, group: Id)
    requires Integrity(db) && UnusedPrincipal(db, group)
    ensures forall r :: r in db.groupRows ==> r.group != group
    ensures (tenant, group) !in db.principals
  {
    forall r | r in db.groupRows ensures r.group != group {
      assert (r.tenant, r.group) in db.principals;
    }
  }

  // ---------- Resources ----------

  /** A new resource's row is the one given, and its creator is the only one with a level on it, ADMIN. */
  lemma CreateAgentWrites(db: Db, agent: Id, data: Agent, creator: Id, row: Id, t: Id, a: Id, p: Id)
    requires Integrity(db) && agent !in db.agents
    ensures var d := CreateAgent(db, agent, data, creator, row);
      && (d.Some? <==>
          && data.tenant in db.tenants && 1 <= |data.name| <= 255 && Known(db, data.tenant, creator, IdentityUser)
          && forall b :: b in db.agents && db.agents[b].tenant == data.tenant ==> db.agents[b].name != data.name)
      && (d.Some? ==>
          && d.value.agents == db.agents[agent := data]
          && ActionsOn(d.value.members, t, a, {p}) ==
              (if (t, a, p) == (data.tenant, agent, creator) then {Admin} else ActionsOn(db.members, t, a, {p}))
          && Registers(db.principals, d.value.principals, data.tenant, creator, IdentityUser)
          && d.value == db.(principals := d.value.principals, agents := d.value.agents, members := d.value.members))
  {
    var c := db.(agents := db.agents[agent := data]);
    EnsureRegisters(c, data.tenant, creator, IdentityUser);
    NameTakenIff(db, data.tenant, {}, data.name);
    assert NamesIn(db, data.tenant) - {} == NamesIn(db, data.tenant);
    assert forall m :: m in db.members ==> m.resource != agent;
    OneMemberAdded(db.members, MemberRow(row, data.tenant, agent, creator, Admin), t, a, p);
  }

  lemma NameTakenIff(db: Db, tenant: Id, except: set<Id>, name: string)
    ensures CopyNames.Taken(NamesIn(db, tenant) - except, name) <==>
      exists b :: b in db.agents && b !in except && db.agents[b].tenant == tenant && db.agents[b].name == name
  {
    if b :| b in db.agents && b !in except && db.agents[b].tenant == tenant && db.agents[b].name == name {
      assert b in NamesIn(db, tenant) - except && (NamesIn(db, tenant) - except)[b] == name;
    }
  }

  lemma OneMemberAdded(members: set<MemberRow>, put: MemberRow, t: Id, a: Id, p: Id)
    requires forall m :: m in members ==> m.resource != put.resource
    ensures ActionsOn(members + {put}, t, a, {p}) ==
      if (t, a, p) == (put.tenant, put.resource, put.principal) then {put.action} else ActionsOn(members, t, a, {p})
  {
    assert put in members + {put};
    assert a == put.resource ==> ActionsOn(members, t, a, {p}) == {};
  }

  /** A duplicate has the source's content and activity, a name of its own, no tags, its own creation time and its own creator; the
      source and every level on it stay as they are. */
  lemma DuplicateAgentWrites(db: Db, tenant: Id, source: Id, agent: Id, creator: Id, row: Id, now: nat, t: Id, a: Id, p: Id)
    requires Integrity(db) && agent !in db.agents && DuplicateAgent(db, tenant, source, agent, creator, row, now).Some?
    ensures var d := DuplicateAgent(db, tenant, source, agent, creator, row, now).value;
      && source in db.agents && db.agents[source].tenant == tenant && agent in d.agents
      && d.agents[agent] == Agent(tenant, d.agents[agent].name, db.agents[source].content, {}, db.agents[source].active, now)
      && db.agents[source].name + " Copy" <= d.agents[agent].name
      && (forall b :: b in db.agents ==> b in d.agents && d.agents[b] == db.agents[b])
      && (forall b :: b in db.agents && db.agents[b].tenant == tenant ==> db.agents[b].name != d.agents[agent].name)
      && ActionsOn(d.members, t, a, {p}) ==
          (if (t, a, p) == (tenant, agent, creator) then {Admin} else ActionsOn(db.members, t, a, {p}))
  {
    var name := CopyNames.GenerateCopyName(NamesIn(db, tenant), db.agents[source].name);
    CreateAgentWrites(db, agent, Copied(db.agents[source], name, now), creator, row, t, a, p);
  }

  /** A duplication goes through exactly if the source is there, the caller is known and the copy's name fits and is free. */
  lemma DuplicateAgentGoesIff(db: Db, tenant: Id, source: Id, agent: Id, creator: Id, row: Id, now: nat)
    requires Integrity(db) && agent !in db.agents
    ensures DuplicateAgent(db, tenant, source, agent, creator, row, now).Some? <==>
      && source in db.agents && db.agents[source].tenant == tenant && Known(db, tenant, creator, IdentityUser)
      && var name := CopyNames.GenerateCopyName(NamesIn(db, tenant), db.agents[source].name);
         1 <= |name| <= 255 && forall b :: b in db.agents && db.agents[b].tenant == tenant ==> db.agents[b].name != name
  {
    if AgentIn(db, tenant, source) {
      var name := CopyNames.GenerateCopyName(NamesIn(db, tenant), db.agents[source].name);
      CreateAgentWrites(db, agent, Copied(db.agents[source], name, now), creator, row, tenant, agent, creator);
    }
  }

  /** What the copy is called: the tenant's names that the pattern `<name> Copy%` finds are counted. */
  lemma DuplicateIsCalled(db: Db, tenant: Id, source: Id, agent: Id, creator: Id, row: Id, now: nat, found: set<Id>)
    requires Integrity(db) && agent !in db.agents && DuplicateAgent(db, tenant, source, agent, creator, row, now).Some?
    requires source in db.agents && forall b :: b in found <==>
      b in db.agents && db.agents[b].tenant == tenant && Wildcard.Like(db.agents[source].name + " Copy%", db.agents[b].name)
    ensures var original, name := db.agents[source].name, DuplicateAgent(db, tenant, source, agent, creator, row, now).value.agents[agent].name;
      && (found == {} ==> name == original + " Copy")
      && (found != {} ==> CopyNames.Numbered(name, original, |found| + 1))
  {
    CopyNames.CopyNameSpelled(NamesIn(db, tenant), db.agents[source].name, found);
  }

  /** An update writes name, content and activity of the one resource and nothing else. */
  lemma UpdateAgentWrites(db: Db, tenant: Id, agent: Id, name: string, content: string, active: bool)
    ensures var d := UpdateAgent(db, tenant, agent, name, content, active);
      && (d.Some? <==>
          && agent in db.agents && db.agents[agent].tenant == tenant && 1 <= |name| <= 255
          && forall b :: b in db.agents && b != agent && db.agents[b].tenant == tenant ==> db.agents[b].name != name)
      && (d.Some? ==>
          && d.value == db.(agents := d.value.agents)
          && d.value.agents.Keys == db.agents.Keys
          && (forall b :: b in db.agents && b != agent ==> d.value.agents[b] == db.agents[b])
          && var before, after := db.agents[agent], d.value.agents[agent];
             after == Agent(before.tenant, name, content, before.tags, active, before.created))
  {
    NameTakenIff(db, tenant, {agent}, name);
  }

  /** Deleting a resource takes its row and every level on it, and nothing else. */
  lemma DeleteAgentWrites(db: Db, tenant: Id, agent: Id, t: Id, a: Id, p: Id)
    requires Integrity(db)
    ensures var d := DeleteAgent(db, tenant, agent);
      && (d.Some? <==> agent in db.agents && db.agents[agent].tenant == tenant)
      && (d.Some? ==>
          && (forall b :: b in d.value.agents <==> b in db.agents && b != agent)
          && (forall b :: b in d.value.agents ==> d.value.agents[b] == db.agents[b])
          && ActionsOn(d.value.members, t, a, {p}) == (if a == agent then {} else ActionsOn(db.members, t, a, {p}))
          && d.value == db.(agents := d.value.agents, members := d.value.members))
  {
    var d := DeleteAgent(db, tenant, agent);
    if d.Some? {
      forall x | x in ActionsOn(db.members, t, a, {p}) && a != agent ensures x in ActionsOn(d.value.members, t, a, {p}) {
        var m :| m in db.members && m.tenant == t && m.resource == a && m.principal in {p} && m.action == x;
        assert m in d.value.members;
      }
    }
  }

  /** A grant goes through for every resource of the tenant and every known principal, and writes nothing but levels and the
      principal. */
  lemma SetPermissionWrites(db: Db, tenant: Id, agent: Id, principal: Id, kind: Kind, action: Action, row: Id, t: Id, a: Id, p: Id)
    requires Integrity(db)
    ensures var d := SetPermission(db, tenant, agent, principal, kind, action, row);
      && (d.Some? <==> agent in db.agents && db.agents[agent].tenant == tenant && Known(db, tenant, principal, kind))
      && (d.Some? ==>
          && ActionsOn(d.value.members, t, a, {p}) ==
              (if (t, a, p) == (tenant, agent, principal) then {action} else ActionsOn(db.members, t, a, {p}))
          && Registers(db.principals, d.value.principals, tenant, principal, kind)
          && d.value == db.(principals := d.value.principals, members := d.value.members))
  {
    EnsureRegisters(db, tenant, principal, kind);
    if AgentIn(db, tenant, agent) && Known(db, tenant, principal, kind) {
      EnsureKeepsIntegrity(db, tenant, principal, kind);
      UpsertMemberRowKeepsIntegrity(EnsurePrincipal(db, tenant, principal, kind).value, tenant, agent, principal, action, row);
      Effects.GrantSetsLevel(db, tenant, agent, principal, kind, action, row, t, a, p);
    }
  }

  // ---------- Deletions ----------

  /** Deleting a role takes that one row away, if it is there. */
  lemma DeleteRoleWrites(db: Db, tenant: Id, principal: Id, role: string)
    ensures var d := DeleteRole(db, tenant, principal, role);
      && (d.Some? <==> tenant in db.tenants)
      && (d.Some? ==>
          && (forall r :: r in d.value.roles <==> r in db.roles && (r.tenant, r.principal, r.role) != (tenant, principal, role))
          && d.value == db.(roles := d.value.roles))
  {
  }

  /** Revoking goes through if the principal has that level on a resource of the tenant, and takes only that. */
  lemma DeletePermissionWrites(db: Db, tenant: Id, agent: Id, principal: Id, action: Action, t: Id, a: Id, p: Id)
    requires Integrity(db)
    ensures var d := DeletePermission(db, tenant, agent, principal, action);
      && (d.Some? <==>
          agent in db.agents && db.agents[agent].tenant == tenant && ActionsOn(db.members, tenant, agent, {principal}) == {action})
      && (d.Some? ==>
          && ActionsOn(d.value.members, t, a, {p}) == (if (t, a, p) == (tenant, agent, principal) then {} else ActionsOn(db.members, t, a, {p}))
          && d.value == db.(members := d.value.members))
  {
    if AgentIn(db, tenant, agent) {
      Effects.RevokeRemovesLevel(db, tenant, agent, principal, action, t, a, p);
    }
  }

  /** Deleting a group takes the group, its members, its own memberships, roles and levels with it, in its tenant, and nothing else. */
  lemma DeleteGroupWrites(db: Db, tenant: Id, group: Id)
    ensures var d := DeleteGroup(db, tenant, group);
      && (d.Some? <==> (tenant, group) in db.principals && db.principals[(tenant, group)] == CustomGroup)
      && (d.Some? ==>
          && d.value.principals == db.principals - {(tenant, group)}
          && (forall r :: r in d.value.roles <==> r in db.roles && (r.tenant, r.principal) != (tenant, group))
          && (forall r :: r in d.value.groupRows <==>
                r in db.groupRows && (r.tenant, r.group) != (tenant, group) && (r.tenant, r.principal) != (tenant, group))
          && (forall m :: m in d.value.members <==> m in db.members && (m.tenant, m.principal) != (tenant, group))
          && (d.value.directory, d.value.tenants, d.value.agents) == (db.directory, db.tenants, db.agents))
  {
  }
}
