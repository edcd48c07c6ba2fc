/** What calls mean for the people they concern, and which calls undo each other. */
module Effects {
  import opened Schema
  import opened Permissions
  import opened Rbac
  import opened Coherence
  import opened RoleCoherence
  import CopyNames

  // ---------- Tenant roles ----------

  /** After a role is set, exactly the users the principal speaks for have gained it. */
  lemma RoleReachesItsPrincipals(db: Db, tenant: Id, principal: Id, kind: Kind, role: string, user: Id, t: Id, r: string)
    requires SetRole(db, tenant, principal, kind, role).Some?
    ensures (t, r) in FreshRoles(SetRole(db, tenant, principal, kind, role).value, user) <==>
      (t, r) in FreshRoles(db, user) || ((t, r) == (tenant, role) && principal in Mine(db, user))
  {
    var db' := SetRole(db, tenant, principal, kind, role).value;
    EnsureChangesNothing(db, tenant, principal, kind, user);
    FreshRolesAreMine(db, user);
    FreshRolesAreMine(db', user);
    assert forall t, g :: IsCustomGroup(db', t, g) <==> IsCustomGroup(EnsurePrincipal(db, tenant, principal, kind).value, t, g);
    assert Mine(db', user) == Mine(db, user);
    assert RoleRow(tenant, principal, role) in db'.roles;
  }

  /** After it is deleted, a user has it exactly when another of the user's principals still holds it. */
  lemma DeletedRoleLeavesOthers(db: Db, tenant: Id, principal: Id, role: string, user: Id, t: Id, r: string)
    requires DeleteRole(db, tenant, principal, role).Some?
    ensures (t, r) in FreshRoles(DeleteRole(db, tenant, principal, role).value, user) <==>
      t in db.tenants && exists p :: p in Mine(db, user) && RoleRow(t, p, r) in db.roles && (t, p, r) != (tenant, principal, role)
  {
    var db' := DeleteRole(db, tenant, principal, role).value;
    FreshRolesAreMine(db', user);
    assert forall t, g :: IsCustomGroup(db', t, g) <==> IsCustomGroup(db, t, g);
    assert Mine(db', user) == Mine(db, user);
    if p :| p in Mine(db, user) && RoleRow(t, p, r) in db.roles && (t, p, r) != (tenant, principal, role) {
      assert RoleRow(t, p, r) in db'.roles;
    }
  }

  /** Deleting a role that has just been given restores the tables. */
  lemma RoleRoundTrip(db: Db, tenant: Id, principal: Id, kind: Kind, role: string)
    requires tenant in db.tenants && (tenant, principal) in db.principals && RoleRow(tenant, principal, role) !in db.roles
    ensures SetRole(db, tenant, principal, kind, role).Some?
    ensures DeleteRole(SetRole(db, tenant, principal, kind, role).value, tenant, principal, role) == Some(db)
  {
    assert db.roles + {RoleRow(tenant, principal, role)} - {RoleRow(tenant, principal, role)} == db.roles;
  }

  // ---------- Resource permissions ----------

  /** A grant replaces whatever its principal held on the resource, and changes nothing for any other principal or
      resource. */
  lemma GrantSetsLevel(db: Db, tenant: Id, agent: Id, principal: Id, kind: Kind, action: Action, row: Id, t: Id, a: Id, p: Id)
    requires Integrity(db) && SetPermission(db, tenant, agent, principal, kind, action, row).Some?
    ensures ActionsOn(SetPermission(db, tenant, agent, principal, kind, action, row).value.members, t, a, {p}) ==
      if (t, a, p) == (tenant, agent, principal) then {action} else ActionsOn(db.members, t, a, {p})
  {
    EnsureKeepsIntegrity(db, tenant, principal, kind);
    var d := EnsurePrincipal(db, tenant, principal, kind).value;
    var members := UpsertMemberRow(d, tenant, agent, principal, action, row).value.members;
    UpsertPutsOne(d, tenant, agent, principal, action, row);
    forall x ensures x in ActionsOn(members, t, a, {p}) <==>
      if (t, a, p) == (tenant, agent, principal) then x == action else x in ActionsOn(db.members, t, a, {p})
    {
      OneUpserted(d, members, tenant, agent, principal, action, t, a, p, x);
    }
  }

  /** The upsert takes the pair's row away, if there is one, and puts one row with the new level. */
  lemma UpsertPutsOne(d: Db, tenant: Id, agent: Id, principal: Id, action: Action, row: Id)
    requires Integrity(d) && UpsertMemberRow(d, tenant, agent, principal, action, row).Some?
    ensures exists put: MemberRow ::
      (put.tenant == tenant && put.resource == agent && put.principal == principal && put.action == action
       && UpsertMemberRow(d, tenant, agent, principal, action, row).value.members
            == d.members - ResourceMembership(d, tenant, agent, principal) + {put})
  {
    var found := ResourceMembership(d, tenant, agent, principal);
    var members := UpsertMemberRow(d, tenant, agent, principal, action, row).value.members;
    if found == {} {
      var put := MemberRow(row, tenant, agent, principal, action);
      assert members == d.members - found + {put};
    } else {
      var m :| m in found;
      assert found == {m};
      var put := m.(action := action);
      assert (set n | n in found :: n.(action := action)) == {put};
      assert members == d.members - found + {put};
    }
  }

  lemma OneUpserted(d: Db, members: set<MemberRow>, tenant: Id, agent: Id, principal: Id, action: Action, t: Id, a: Id, p: Id, x: Action)
    requires exists put: MemberRow ::
      (put.tenant == tenant && put.resource == agent && put.principal == principal && put.action == action
       && members == d.members - ResourceMembership(d, tenant, agent, principal) + {put})
    ensures x in ActionsOn(members, t, a, {p}) <==>
      if (t, a, p) == (tenant, agent, principal) then x == action else x in ActionsOn(d.members, t, a, {p})
  {
    var found := ResourceMembership(d, tenant, agent, principal);
    var put: MemberRow :| put.tenant == tenant && put.resource == agent && put.principal == principal
      && put.action == action && members == d.members - found + {put};
    assert put in members;
    if m :| m in d.members && m.tenant == t && m.resource == a && m.principal == p && m.action == x && m !in found {
      assert m in members;
    }
  }

  /** Revoking takes away all its principal held on the resource, and only that; it fails unless that level is held. */
  lemma RevokeRemovesLevel(db: Db, tenant: Id, agent: Id, principal: Id, action: Action, t: Id, a: Id, p: Id)
    requires Integrity(db) && AgentIn(db, tenant, agent)
    ensures DeletePermission(db, tenant, agent, principal, action).Some? <==>
      ActionsOn(db.members, tenant, agent, {principal}) == {action}
    ensures DeletePermission(db, tenant, agent, principal, action).Some? ==>
      ActionsOn(DeletePermission(db, tenant, agent, principal, action).value.members, t, a, {p}) ==
        if (t, a, p) == (tenant, agent, principal) then {} else ActionsOn(db.members, t, a, {p})
  {
    var found := set m | m in ResourceMembership(db, tenant, agent, principal) && m.action == action;
    OnlyOneRow(db, tenant, agent, principal, action);
    if found != {} {
      OneRemoved(db, found, tenant, agent, principal, t, a, p);
    }
  }

  /** A principal has at most one row on a resource: it is the revoked one exactly when it has that level. */
  lemma OnlyOneRow(db: Db, tenant: Id, agent: Id, principal: Id, action: Action)
    requires Integrity(db) && AgentIn(db, tenant, agent)
    ensures var all := ResourceMembership(db, tenant, agent, principal); var found := set m | m in all && m.action == action;
      && AtMostOne(found) && (found != {} ==> found == all)
      && (found != {} <==> ActionsOn(db.members, tenant, agent, {principal}) == {action})
  {
    var all := ResourceMembership(db, tenant, agent, principal);
    assert AtMostOne(all);
    HeldIsMembership(db, tenant, agent, principal);
    if m :| m in all {
      assert all == {m};
      assert ActionsOn(db.members, tenant, agent, {principal}) == {m.action};
      assert (set n | n in all && n.action == action) == if m.action == action then {m} else {};
      assert m.action in {m.action};
    }
  }

  lemma HeldIsMembership(db: Db, tenant: Id, agent: Id, principal: Id)
    ensures ActionsOn(db.members, tenant, agent, {principal}) == set m | m in ResourceMembership(db, tenant, agent, principal) :: m.action
  {
    forall x | x in ActionsOn(db.members, tenant, agent, {principal})
      ensures x in set m | m in ResourceMembership(db, tenant, agent, principal) :: m.action
    {
      var m :| m in db.members && m.tenant == tenant && m.resource == agent && m.principal in {principal} && m.action == x;
      assert m in ResourceMembership(db, tenant, agent, principal);
    }
  }

  lemma OneRemoved(db: Db, found: set<MemberRow>, tenant: Id, agent: Id, principal: Id, t: Id, a: Id, p: Id)
    requires found == ResourceMembership(db, tenant, agent, principal)
    ensures ActionsOn(db.members - found, t, a, {p}) ==
      if (t, a, p) == (tenant, agent, principal) then {} else ActionsOn(db.members, t, a, {p})
  {
    forall x | x in ActionsOn(db.members, t, a, {p}) && (t, a, p) != (tenant, agent, principal)
      ensures x in ActionsOn(db.members - found, t, a, {p})
    {
      var n :| n in db.members && n.tenant == t && n.resource == a && n.principal == p && n.action == x;
      assert n in db.members - found;
    }
  }

  /** Revoking a first grant restores the tables. */
  lemma GrantRoundTrip(db: Db, tenant: Id, agent: Id, principal: Id, kind: Kind, action: Action, row: Id)
    requires AgentIn(db, tenant, agent) && (tenant, principal) in db.principals
    requires ResourceMembership(db, tenant, agent, principal) == {}
    ensures SetPermission(db, tenant, agent, principal, kind, action, row).Some?
    ensures DeletePermission(SetPermission(db, tenant, agent, principal, kind, action, row).value, tenant, agent, principal, action) == Some(db)
  {
    var put := MemberRow(row, tenant, agent, principal, action);
    var d := db.(members := db.members + {put});
    assert put !in db.members by { assert put in db.members ==> put in ResourceMembership(db, tenant, agent, principal); }
    forall m | m in ResourceMembership(d, tenant, agent, principal) ensures m == put {
      assert m != put ==> m in ResourceMembership(db, tenant, agent, principal);
    }
    assert ResourceMembership(d, tenant, agent, principal) == {put};
    assert SetPermission(db, tenant, agent, principal, kind, action, row) == Some(d);
    assert (set m | m in ResourceMembership(d, tenant, agent, principal) && m.action == action) == {put};
    assert AgentIn(d, tenant, agent) && AtMostOne({put});
    assert d.members - {put} == db.members;
  }

  // ---------- Groups ----------

  /** Setting a member's role puts exactly that user into the group; removing takes exactly that user out. */
  lemma MembershipDecidesGroups(db: Db, tenant: Id, group: Id, user: Id, kind: Kind, action: Action, row: Id, u: Id, g: Id)
    requires Integrity(db) && SetMember(db, tenant, group, user, kind, action, row).Some?
    ensures g in CustomGroupsOf(SetMember(db, tenant, group, user, kind, action, row).value, u) <==>
      g in CustomGroupsOf(db, u) || (u == user && g == group)
  {
    var db' := SetMember(db, tenant, group, user, kind, action, row).value;
    assert forall t, g :: IsCustomGroup(db', t, g) <==> IsCustomGroup(db, t, g);
    var found := GroupMembership(db, tenant, group, user);
    if found == {} {
      assert GroupRow(row, tenant, group, user, action) in db'.groupRows;
    } else {
      var r :| r in found;
      assert r.(action := action) in db'.groupRows;
    }
    if g in CustomGroupsOf(db, u) && !(u == user && g == group) {
      var r :| r in db.groupRows && r.principal == u && IsCustomGroup(db, r.tenant, r.group) && r.group == g;
      assert r in db'.groupRows;
    }
  }

  lemma RemovalDecidesGroups(db: Db, tenant: Id, group: Id, user: Id, u: Id, g: Id)
    requires Integrity(db) && RemoveMember(db, tenant, group, user).Some?
    ensures g in CustomGroupsOf(RemoveMember(db, tenant, group, user).value, u) <==>
      g in CustomGroupsOf(db, u) && !(u == user && g == group)
  {
    var db' := RemoveMember(db, tenant, group, user).value;
    assert forall t, g :: IsCustomGroup(db', t, g) <==> IsCustomGroup(db, t, g);
    if g in CustomGroupsOf(db, u) && !(u == user && g == group) {
      var r :| r in db.groupRows && r.principal == u && IsCustomGroup(db, r.tenant, r.group) && r.group == g;
      assert r in db'.groupRows;
    }
    if g in CustomGroupsOf(db', u) {
      var r :| r in db'.groupRows && r.principal == u && IsCustomGroup(db, r.tenant, r.group) && r.group == g;
      assert IsCustomGroup(db, tenant, group);
      assert (r.tenant, r.group) in db.principals;
      assert r !in GroupMembership(db, tenant, group, user);
    }
  }

  /** Removing a first membership restores the tables. */
  lemma MembershipRoundTrip(db: Db, tenant: Id, group: Id, principal: Id, kind: Kind, action: Action, row: Id)
    requires IsCustomGroup(db, tenant, group) && (tenant, principal) in db.principals
    requires GroupMembership(db, tenant, group, principal) == {}
    ensures SetMember(db, tenant, group, principal, kind, action, row).Some?
    ensures RemoveMember(SetMember(db, tenant, group, principal, kind, action, row).value, tenant, group, principal) == Some(db)
  {
    var put := GroupRow(row, tenant, group, principal, action);
    var d := db.(groupRows := db.groupRows + {put});
    assert put !in db.groupRows by { assert put in db.groupRows ==> put in GroupMembership(db, tenant, group, principal); }
    forall r | r in GroupMembership(d, tenant, group, principal) ensures r == put {
      assert r != put ==> r in GroupMembership(db, tenant, group, principal);
    }
    assert GroupMembership(d, tenant, group, principal) == {put};
    assert d.groupRows - {put} == db.groupRows;
  }

  /** Deleting a group that has just been created restores the tables: the cascade reaches nothing else. */
  lemma GroupRoundTrip(db: Db, tenant: Id, group: Id, creator: Id, row: Id)
    requires Integrity(db) && UnusedPrincipal(db, group) && tenant in db.tenants && (tenant, creator) in db.principals
    ensures CreateGroup(db, tenant, group, creator, row).Some?
    ensures DeleteGroup(CreateGroup(db, tenant, group, creator, row).value, tenant, group) == Some(db)
  {
    GroupIsNew(db, tenant, group);
    var e := DeleteGroup(CreateGroup(db, tenant, group, creator, row).value, tenant, group).value;
    assert e.principals == db.principals && e.groupRows == db.groupRows;
    assert e.roles == db.roles && e.members == db.members;
  }

  /** No row names a principal that does not exist. */
  lemma GroupIsNew(db: Db, tenant: Id, group: Id)
    requires Integrity(db) && UnusedPrincipal(db, group)
    ensures (tenant, group) !in db.principals && (forall r :: r in db.groupRows ==> r.group != group && r.principal != group)
    ensures (forall r :: r in db.roles ==> r.principal != group) && forall m :: m in db.members ==> m.principal != group
  {
    forall r | r in db.groupRows ensures r.group != group && r.principal != group {
      assert (r.tenant, r.group) in db.principals && (r.tenant, r.principal) in db.principals;
    }
    forall r | r in db.roles ensures r.principal != group { assert (r.tenant, r.principal) in db.principals; }
    forall m | m in db.members ensures m.principal != group { assert (m.tenant, m.principal) in db.principals; }
  }

  // ---------- Resources and tenants ----------

  /** Deleting a resource that has just been created, or duplicated, restores the tables. */
  lemma AgentRoundTrip(db: Db, agent: Id, data: Agent, creator: Id, row: Id)
    requires Integrity(db) && agent !in db.agents && (data.tenant, creator) in db.principals
    requires CopyNames.NameFits(data.name) && !CopyNames.Taken(NamesIn(db, data.tenant), data.name)
    ensures CreateAgent(db, agent, data, creator, row).Some?
    ensures DeleteAgent(CreateAgent(db, agent, data, creator, row).value, data.tenant, agent) == Some(db)
  {
    var d := CreateAgent(db, agent, data, creator, row).value;
    var e := DeleteAgent(d, data.tenant, agent).value;
    assert forall m :: m in db.members ==> m.resource != agent;
    assert e.agents == db.agents && e.members == db.members;
  }

  /** Deleting a new tenant restores the tables, with everything made in it gone. */
  lemma TenantRoundTrip(db: Db, tenant: Id, organization: Option<Id>, name: string, creator: Id)
    requires Integrity(db) && tenant !in db.tenants && CreateTenant(db, tenant, organization, name, creator).Some?
    ensures DeleteTenant(CreateTenant(db, tenant, organization, name, creator).value, tenant) == Some(db)
  {
    TenantIsNew(db, tenant);
    var e := DeleteTenant(CreateTenant(db, tenant, organization, name, creator).value, tenant).value;
    assert e.tenants == db.tenants && e.principals == db.principals && e.agents == db.agents;
    assert e.roles == db.roles && e.groupRows == db.groupRows && e.members == db.members;
  }

  /** No row names a tenant that does not exist. */
  lemma TenantIsNew(db: Db, tenant: Id)
    requires Integrity(db) && tenant !in db.tenants
    ensures (forall k :: k in db.principals ==> k.0 != tenant) && forall r :: r in db.roles ==> r.tenant != tenant
    ensures (forall r :: r in db.groupRows ==> r.tenant != tenant) && forall m :: m in db.members ==> m.tenant != tenant
    ensures forall a :: a in db.agents ==> db.agents[a].tenant != tenant
  {
    forall r | r in db.roles ensures r.tenant != tenant { assert (r.tenant, r.principal) in db.principals; }
    forall r | r in db.groupRows ensures r.tenant != tenant { assert (r.tenant, r.principal) in db.principals; }
    forall m | m in db.members ensures m.tenant != tenant { assert (m.tenant, m.principal) in db.principals; }
  }
}
