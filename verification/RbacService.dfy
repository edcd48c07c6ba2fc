/** The handlers as they run: each call works on its session, commits the rows in place and then deletes cache entries
    one invalidation at a time. Every method is proved to be the step of the state machine whose runs the coherence
    theorems are about. */
module RbacService {
  import opened CacheKeys
  import opened CacheClient
  import opened Schema
  import opened Permissions
  import opened Listing
  import opened Rbac
  import opened Coherence
  import CopyNames

  /** What is left after clearing some users. */
  function WithoutUsers(entries: map<string, Entry>, users: set<Id>): map<string, Entry> {
    map k | k in entries && !(exists u :: u in users && Reached(UserPatterns(u), k)) :: entries[k]
  }

  lemma WithoutBoth(entries: map<string, Entry>, a: seq<string>, b: seq<string>)
    ensures WithoutAll(WithoutAll(entries, a), b) == WithoutAll(entries, a + b)
  {
  }

  lemma WithoutUsersTwice(entries: map<string, Entry>, a: set<Id>, b: set<Id>)
    ensures WithoutUsers(WithoutUsers(entries, a), b) == WithoutUsers(entries, a + b)
  {
  }

  lemma WithoutCommutes(entries: map<string, Entry>, patterns: seq<string>, users: set<Id>)
    ensures WithoutUsers(WithoutAll(entries, patterns), users) == WithoutAll(WithoutUsers(entries, users), patterns)
  {
  }

  /** Clearing users, then patterns, then keys, in any order, drops exactly what the call clears. */
  lemma InvalidationIsStep(s: State, op: Op, left: map<string, Entry>)
    requires Apply(s.db, op).Some?
    requires forall k :: k in left <==> k in s.cache && !Clears(s.db, op, k)
    requires forall k :: k in left ==> left[k] == s.cache[k]
    ensures State(Apply(s.db, op).value, left) == Step(s, op)
  {
    assert left == map k | k in s.cache && !Clears(s.db, op, k) :: s.cache[k];
  }

  /** A permission change clears two patterns, then the user it names. */
  lemma PermissionStep(s: State, op: Op, left: map<string, Entry>)
    requires (op.SetPermissionOp? || op.DeletePermissionOp?) && Apply(s.db, op).Some?
    requires left == WithoutUsers(
      WithoutAll(s.cache, [PermissionsPattern(PREFIX, op.tenant, "res", op.agent), ListPattern(PREFIX, op.tenant)]),
      if op.kind == IdentityUser then {op.principal} else {})
    ensures State(Apply(s.db, op).value, left) == Step(s, op)
  {
    assert ClearedUsers(s.db, op) == if op.kind == IdentityUser then {op.principal} else {};
    assert ClearedKeys(op) == {};
    InvalidationIsStep(s, op, left);
  }

  /** A tenant-role change clears the users it affects, then the patterns of the principal's type. */
  lemma RoleStep(s: State, op: Op, left: map<string, Entry>)
    requires (op.SetRoleOp? || op.DeleteRoleOp?) && Apply(s.db, op).Some?
    requires left == WithoutAll(WithoutUsers(s.cache, ClearedUsers(s.db, op)), RoleChangePatterns(op.kind))
    ensures State(Apply(s.db, op).value, left) == Step(s, op)
  {
    assert ClearedPatterns(op) == RoleChangePatterns(op.kind) && ClearedKeys(op) == {};
    InvalidationIsStep(s, op, left);
  }

  /** The answer to the member-row query of a list. */
  ghost predicate RowsAnswer(db: Db, tenant: Id, access: Access, queried: seq<Id>, roleRows: seq<(Id, Action)>) {
    forall r, a :: (r, a) in roleRows <==> r in queried && a in ActionsOn(db.members, tenant, r, access.principals)
  }

  /** The answers to both queries under the context that the caches give. */
  ghost predicate Answers(s: State, tenant: Id, user: Id, q: ListQuery, queried: seq<Id>, roleRows: seq<(Id, Action)>) {
    var access := ReadAccess(s, user, tenant).1;
    && PageIds(ListPage(s.db.agents, s.db.members, tenant, access, q), queried)
    && RowsAnswer(s.db, tenant, access, queried, roleRows)
  }

  ghost predicate PageIds(page: seq<Item>, ids: seq<Id>) {
    |ids| == |page| && forall i :: 0 <= i < |ids| ==> ids[i] == page[i].id
  }

  lemma PageItems(db: Db, tenant: Id, access: Access, q: ListQuery, i: nat)
    requires i < |ListPage(db.agents, db.members, tenant, access, q)|
    ensures var item := ListPage(db.agents, db.members, tenant, access, q)[i];
      item.id in db.agents && item == Item(item.id, db.agents[item.id], Resolve(db.members, access, tenant, item.id))
  {
    var rows := Rows(db.agents, db.members, tenant, access, q);
    ArrangeIsSortedPermutation(OrderOf(q), rows, rows.Keys);
    var item := ListPage(db.agents, db.members, tenant, access, q)[i];
    assert item in Arrange(OrderOf(q), rows, rows.Keys);
  }

  lemma PageFromAnswers(db: Db, tenant: Id, access: Access, q: ListQuery, queried: seq<Id>, items: seq<Item>)
    requires PageIds(ListPage(db.agents, db.members, tenant, access, q), queried) && |items| == |queried|
    requires forall a :: a in queried ==> a in db.agents
    requires forall i :: 0 <= i < |queried| ==>
      items[i] == Item(queried[i], db.agents[queried[i]], Resolve(db.members, access, tenant, queried[i]))
    ensures items == ListPage(db.agents, db.members, tenant, access, q)
  {
    forall i | 0 <= i < |items| ensures items[i] == ListPage(db.agents, db.members, tenant, access, q)[i] {
      PageItems(db, tenant, access, q, i);
    }
  }

  lemma QueriedExist(db: Db, tenant: Id, access: Access, q: ListQuery, queried: seq<Id>)
    requires PageIds(ListPage(db.agents, db.members, tenant, access, q), queried)
    ensures forall a :: a in queried ==> a in db.agents
  {
    forall i | 0 <= i < |queried| ensures queried[i] in db.agents {
      PageItems(db, tenant, access, q, i);
    }
  }

  class Service {
    var db: Db
    const cache: Cache<Entry>

    /** The chat agents' invalidator. */
    const agents: ResourceCacheInvalidator<Entry>

    constructor (directory: Directory)
      ensures Now() == EmptySystem(directory) && Wired() && fresh(cache)
    {
      db := Db(directory, map[], map[], {}, {}, map[], {});
      var entries := new Cache<Entry>();
      cache := entries;
      agents := new ResourceCacheInvalidator<Entry>(entries, PREFIX, "chat_agent");
    }

    predicate Wired() {
      agents.cache == cache && agents.prefix == PREFIX && agents.resourceKey == "chat_agent"
    }

    ghost function Now(): State
      reads this, cache
    {
      State(db, cache.entries)
    }

    /** `for user in users_to_invalidate: clear_cache_for_user(user)` */
    method ClearUsers(users: set<Id>)
      modifies cache
      ensures cache.entries == WithoutUsers(old(cache.entries), users)
    {
      var rest := users;
      while rest != {}
        invariant rest <= users
        invariant cache.entries == WithoutUsers(old(cache.entries), users - rest)
        decreases rest
      {
        var user :| user in rest;
        var _ := cache.ClearCacheForUser(user);
        rest := rest - {user};
      }
      assert users - {} == users;
    }

    method DeletePatterns(patterns: seq<string>)
      modifies cache
      ensures cache.entries == WithoutAll(old(cache.entries), patterns)
    {
      for i := 0 to |patterns|
        invariant cache.entries == WithoutAll(old(cache.entries), patterns[..i])
      {
        WithoutOneMore(old(cache.entries), patterns, i);
        var _ := cache.DeletePattern(patterns[i]);
      }
      assert patterns[..|patterns|] == patterns;
    }

    // ---------- principals.py ----------

    method InvalidateCacheForPrincipal(principal: Id, kind: Kind, actor: Id)
      modifies cache
      ensures cache.entries == WithoutAll(
        WithoutUsers(old(cache.entries), UsersToInvalidate(db, principal, kind) + IfNamed(actor)), RoleChangePatterns(kind))
    {
      ghost var before := cache.entries;
      var users: set<Id> := {};
      match kind {
        case IdentityUser =>
          users := users + {principal};
        case CustomGroup =>
          var members := set r | r in db.groupRows && r.group == principal && (r.tenant, r.principal) in db.principals
                                 && db.principals[(r.tenant, r.principal)] == IdentityUser :: r.principal;
          users := users + members;
        case IdentityGroup =>
          DeletePatterns([ALL_GROUPS_PATTERN, ALL_TENANT_ROLES_PATTERN]);
      }
      assert users == UsersToInvalidate(db, principal, kind);
      ghost var wide := if kind == IdentityGroup then [ALL_GROUPS_PATTERN, ALL_TENANT_ROLES_PATTERN] else [];
      assert cache.entries == WithoutAll(before, wide);
      ClearUsers(users);
      WithoutCommutes(before, wide, users);
      if actor != "" {
        ClearUsers({actor});
      }
      assert cache.entries == WithoutAll(WithoutUsers(before, users + IfNamed(actor)), wide) by {
        WithoutCommutes(WithoutUsers(before, users), wide, IfNamed(actor));
        WithoutUsersTwice(before, users, IfNamed(actor));
        assert actor == "" ==> users + IfNamed(actor) == users;
      }
      DeletePatterns([ALL_TENANT_LISTS_PATTERN]);
      WithoutBoth(WithoutUsers(before, users + IfNamed(actor)), wide, [ALL_TENANT_LISTS_PATTERN]);
    }

    method SetPrincipalPermission(tenant: Id, principal: Id, kind: Kind, role: string, actor: Id) returns (ok: bool)
      requires Integrity(db)
      modifies this, cache
      ensures ok == SetRole(old(db), tenant, principal, kind, role).Some?
      ensures Now() == Step(old(Now()), SetRoleOp(tenant, principal, kind, role, actor))
    {
      if tenant !in db.tenants {
        return false;
      }
      var ensured := EnsurePrincipal(db, tenant, principal, kind);
      if ensured.None? {
        return false;
      }
      var session := ensured.value;
      if RoleRow(tenant, principal, role) !in session.roles {
        session := session.(roles := session.roles + {RoleRow(tenant, principal, role)});
      } else {
        assert session.roles + {RoleRow(tenant, principal, role)} == session.roles;
      }
      db := session;
      InvalidateCacheForPrincipal(principal, kind, actor);
      ok := true;
      assert UsersToInvalidate(db, principal, kind) == UsersToInvalidate(old(db), principal, kind);
      RoleStep(old(Now()), SetRoleOp(tenant, principal, kind, role, actor), cache.entries);
    }

    method DeletePrincipalPermission(tenant: Id, principal: Id, kind: Kind, role: string) returns (ok: bool)
      modifies this, cache
      ensures ok == (tenant in old(db).tenants)
      ensures Now() == Step(old(Now()), DeleteRoleOp(tenant, principal, kind, role))
    {
      if tenant !in db.tenants {
        return false;
      }
      if RoleRow(tenant, principal, role) in db.roles {
        db := db.(roles := db.roles - {RoleRow(tenant, principal, role)});
      } else {
        assert db.roles - {RoleRow(tenant, principal, role)} == db.roles;
      }
      InvalidateCacheForPrincipal(principal, kind, "");
      ok := true;
      assert UsersToInvalidate(db, principal, kind) == UsersToInvalidate(old(db), principal, kind);
      assert IfNamed("") == {};
      RoleStep(old(Now()), DeleteRoleOp(tenant, principal, kind, role), cache.entries);
    }

    // ---------- tenants.py ----------

    method CreateTenant(tenant: Id, organization: Option<Id>, name: string, creator: Id) returns (ok: bool)
      modifies this, cache
      ensures ok == Rbac.CreateTenant(old(db), tenant, organization, name, creator).Some?
      ensures Now() == Step(old(Now()), CreateTenantOp(tenant, organization, name, creator))
    {
      if organization.None? || !CopyNames.NameFits(name) || TenantTaken(db, organization.value, name, SANDBOX) {
        return false;
      }
      var session := db.(tenants := db.tenants[tenant := Tenant(organization.value, name, SANDBOX, true)]);
      var ensured := EnsurePrincipal(session, tenant, creator, IdentityUser);
      if ensured.None? {
        return false;
      }
      session := ensured.value;
      db := session.(roles := session.roles + {RoleRow(tenant, creator, TENANT_GLOBAL_ADMIN)});
      DeletePatterns([ALL_TENANT_LISTS_PATTERN]);
      ClearUsers({creator});
      ok := true;
      InvalidationIsStep(old(Now()), CreateTenantOp(tenant, organization, name, creator), cache.entries);
    }

    method DeleteTenant(tenant: Id) returns (ok: bool)
      modifies this, cache
      ensures ok == (tenant in old(db).tenants && old(db).tenants[tenant].deletable)
      ensures Now() == Step(old(Now()), DeleteTenantOp(tenant))
    {
      if tenant !in db.tenants || !db.tenants[tenant].deletable {
        return false;
      }
      db := Rbac.DeleteTenant(db, tenant).value;
      DeletePatterns([ALL_TENANT_LISTS_PATTERN]);
      DeletePatterns([TenantPattern(tenant)]);
      DeletePatterns([ALL_TENANT_ROLES_PATTERN]);
      ok := true;
      assert ClearedPatterns(DeleteTenantOp(tenant)) ==
        [ALL_TENANT_LISTS_PATTERN] + [TenantPattern(tenant)] + [ALL_TENANT_ROLES_PATTERN];
      WithoutBoth(old(cache.entries), [ALL_TENANT_LISTS_PATTERN], [TenantPattern(tenant)]);
      WithoutBoth(old(cache.entries), [ALL_TENANT_LISTS_PATTERN] + [TenantPattern(tenant)], [ALL_TENANT_ROLES_PATTERN]);
      InvalidationIsStep(old(Now()), DeleteTenantOp(tenant), cache.entries);
    }

    // ---------- custom_groups.py ----------

    method CreateCustomGroup(tenant: Id, group: Id, creator: Id, row: Id) returns (ok: bool)
      modifies this, cache
      ensures ok == CreateGroup(old(db), tenant, group, creator, row).Some?
      ensures Now() == Step(old(Now()), CreateGroupOp(tenant, group, creator, row))
    {
      if tenant !in db.tenants {
        return false;
      }
      var session := db.(principals := db.principals[(tenant, group) := CustomGroup]);
      var ensured := EnsurePrincipal(session, tenant, creator, IdentityUser);
      if ensured.None? {
        return false;
      }
      session := ensured.value;
      db := session.(groupRows := session.groupRows + {GroupRow(row, tenant, group, creator, Admin)});
      DeletePatterns([ListPattern("custom_groups", tenant)]);
      ClearUsers({creator});
      ok := true;
      InvalidationIsStep(old(Now()), CreateGroupOp(tenant, group, creator, row), cache.entries);
    }

    method InsertOrChangeMember(session: Db, tenant: Id, group: Id, principal: Id, action: Action, row: Id) returns (changed: Db)
      requires GroupRowsOk(session)
      ensures Some(changed) == UpsertGroupRow(session, tenant, group, principal, action, row)
    {
      var found := GroupMembership(session, tenant, group, principal);
      if found == {} {
        return session.(groupRows := session.groupRows + {GroupRow(row, tenant, group, principal, action)});
      }
      var member :| member in found;
      assert found == {member};
      assert (set r | r in found :: r.(action := action)) == {member.(action := action)};
      if member.action == action {
        assert session.groupRows - found + {member} == session.groupRows;
        return session;
      }
      changed := session.(groupRows := session.groupRows - {member} + {member.(action := action)});
    }

    method SetMemberRole(tenant: Id, group: Id, principal: Id, kind: Kind, action: Action, actor: Id, row: Id) returns (ok: bool)
      requires Integrity(db)
      modifies this, cache
      ensures ok == SetMember(old(db), tenant, group, principal, kind, action, row).Some?
      ensures Now() == Step(old(Now()), SetMemberOp(tenant, group, principal, kind, action, actor, row))
    {
      ok := UpsertMembership(tenant, group, principal, kind, action, row);
      if ok {
        ClearUsers({principal});
        ClearUsers({actor});
        WithoutUsersTwice(old(cache.entries), {principal}, {actor});
        assert {principal} + {actor} == {principal, actor};
        InvalidationIsStep(old(Now()), SetMemberOp(tenant, group, principal, kind, action, actor, row), cache.entries);
      }
    }

    method UpsertMembership(tenant: Id, group: Id, principal: Id, kind: Kind, action: Action, row: Id) returns (ok: bool)
      requires Integrity(db)
      modifies `db
      ensures ok == SetMember(old(db), tenant, group, principal, kind, action, row).Some?
      ensures db == if ok then SetMember(old(db), tenant, group, principal, kind, action, row).value else old(db)
    {
      if !IsCustomGroup(db, tenant, group) {
        return false;
      }
      var ensured := EnsurePrincipal(db, tenant, principal, kind);
      if ensured.None? {
        return false;
      }
      EnsureKeepsIntegrity(db, tenant, principal, kind);
      db := InsertOrChangeMember(ensured.value, tenant, group, principal, action, row);
      ok := true;
    }

    method DeleteMember(tenant: Id, group: Id, principal: Id) returns (ok: bool)
      requires Integrity(db)
      modifies this, cache
      ensures ok == IsCustomGroup(old(db), tenant, group)
      ensures Now() == Step(old(Now()), RemoveMemberOp(tenant, group, principal))
    {
      if !IsCustomGroup(db, tenant, group) {
        return false;
      }
      var found := GroupMembership(db, tenant, group, principal);
      if found != {} {
        db := db.(groupRows := db.groupRows - found);
        ClearUsers({principal});
      } else {
        assert db.groupRows - found == db.groupRows;
      }
      ok := true;
      InvalidationIsStep(old(Now()), RemoveMemberOp(tenant, group, principal), cache.entries);
    }

    method DeleteCustomGroup(tenant: Id, group: Id) returns (ok: bool)
      modifies this, cache
      ensures ok == IsCustomGroup(old(db), tenant, group)
      ensures Now() == Step(old(Now()), DeleteGroupOp(tenant, group))
    {
      if !IsCustomGroup(db, tenant, group) {
        return false;
      }
      db := DeleteGroup(db, tenant, group).value;
      DeletePatterns([ListPattern("custom_groups", tenant)]);
      cache.entries := cache.entries - {Key(DetailSegments("custom_groups", tenant, "group", group))};
      DeletePatterns([DELETED_GROUP_PATTERN]);
      ok := true;
      InvalidationIsStep(old(Now()), DeleteGroupOp(tenant, group), cache.entries);
    }

    // ---------- chat_agents.py ----------

    method CreateChatAgent(agent: Id, data: Agent, creator: Id, row: Id) returns (ok: bool)
      requires Wired()
      modifies this, cache
      ensures ok == CreateAgent(old(db), agent, data, creator, row).Some?
      ensures Now() == Step(old(Now()), CreateAgentOp(agent, data, creator, row))
    {
      ok := InsertAgent(agent, data, creator, row);
      if ok {
        agents.InvalidateList(data.tenant);
        InvalidationIsStep(old(Now()), CreateAgentOp(agent, data, creator, row), cache.entries);
      }
    }

    /** One transaction: the row, its creator's principal and the creator's ADMIN grant, or nothing. */
    method InsertAgent(agent: Id, data: Agent, creator: Id, row: Id) returns (ok: bool)
      modifies this
      ensures ok == CreateAgent(old(db), agent, data, creator, row).Some?
      ensures db == if ok then CreateAgent(old(db), agent, data, creator, row).value else old(db)
    {
      if data.tenant !in db.tenants || !CopyNames.NameFits(data.name) || CopyNames.Taken(NamesIn(db, data.tenant), data.name) {
        return false;
      }
      var session := db.(agents := db.agents[agent := data]);
      var ensured := EnsurePrincipal(session, data.tenant, creator, IdentityUser);
      if ensured.None? {
        return false;
      }
      session := ensured.value;
      db := session.(members := session.members + {MemberRow(row, data.tenant, agent, creator, Admin)});
      ok := true;
    }

    method DuplicateChatAgent(tenant: Id, source: Id, agent: Id, creator: Id, row: Id, now: nat) returns (ok: bool)
      requires Wired()
      modifies this, cache
      ensures ok == DuplicateAgent(old(db), tenant, source, agent, creator, row, now).Some?
      ensures Now() == Step(old(Now()), DuplicateAgentOp(tenant, source, agent, creator, row, now))
    {
      if !AgentIn(db, tenant, source) {
        return false;
      }
      var name := CopyNames.GenerateCopyName(NamesIn(db, tenant), db.agents[source].name);
      ok := InsertAgent(agent, Copied(db.agents[source], name, now), creator, row);
      if ok {
        agents.InvalidateList(tenant);
        InvalidationIsStep(old(Now()), DuplicateAgentOp(tenant, source, agent, creator, row, now), cache.entries);
      }
    }

    method UpdateChatAgent(tenant: Id, agent: Id, name: string, content: string, active: bool) returns (ok: bool)
      requires Wired()
      modifies this, cache
      ensures ok == UpdateAgent(old(db), tenant, agent, name, content, active).Some?
      ensures Now() == Step(old(Now()), UpdateAgentOp(tenant, agent, name, content, active))
    {
      if !AgentIn(db, tenant, agent) || !CopyNames.NameFits(name) || CopyNames.Taken(NamesIn(db, tenant) - {agent}, name) {
        return false;
      }
      var row := db.agents[agent];
      row := row.(name := name);
      row := row.(content := content);
      row := row.(active := active);
      db := db.(agents := db.agents[agent := row]);
      agents.InvalidateList(tenant);
      agents.InvalidateDetail(tenant, agent);
      ok := true;
      InvalidationIsStep(old(Now()), UpdateAgentOp(tenant, agent, name, content, active), cache.entries);
    }

    method DeleteChatAgent(tenant: Id, agent: Id) returns (ok: bool)
      requires Wired()
      modifies this, cache
      ensures ok == AgentIn(old(db), tenant, agent)
      ensures Now() == Step(old(Now()), DeleteAgentOp(tenant, agent))
    {
      if !AgentIn(db, tenant, agent) {
        return false;
      }
      db := DeleteAgent(db, tenant, agent).value;
      agents.InvalidateList(tenant);
      agents.InvalidateDetail(tenant, agent);
      agents.InvalidatePermissions(tenant, agent);
      ok := true;
      InvalidationIsStep(old(Now()), DeleteAgentOp(tenant, agent), cache.entries);
    }

    // ---------- resource_permissions.py ----------

    method InsertOrChangeGrant(session: Db, tenant: Id, agent: Id, principal: Id, action: Action, row: Id) returns (changed: Db)
      requires MembersOk(session)
      ensures Some(changed) == UpsertMemberRow(session, tenant, agent, principal, action, row)
    {
      var found := ResourceMembership(session, tenant, agent, principal);
      if found == {} {
        return session.(members := session.members + {MemberRow(row, tenant, agent, principal, action)});
      }
      var member :| member in found;
      assert found == {member};
      assert (set m | m in found :: m.(action := action)) == {member.(action := action)};
      if member.action == action {
        assert session.members - found + {member} == session.members;
        return session;
      }
      changed := session.(members := session.members - {member} + {member.(action := action)});
    }

    method GrantPermission(tenant: Id, agent: Id, principal: Id, kind: Kind, action: Action, row: Id) returns (ok: bool)
      requires Integrity(db)
      modifies this, cache
      ensures ok == SetPermission(old(db), tenant, agent, principal, kind, action, row).Some?
      ensures Now() == Step(old(Now()), SetPermissionOp(tenant, agent, principal, kind, action, row))
    {
      ok := UpsertGrant(tenant, agent, principal, kind, action, row);
      if ok {
        InvalidatePermissions(tenant, agent, principal, kind);
        PermissionStep(old(Now()), SetPermissionOp(tenant, agent, principal, kind, action, row), cache.entries);
      }
    }

    method UpsertGrant(tenant: Id, agent: Id, principal: Id, kind: Kind, action: Action, row: Id) returns (ok: bool)
      requires Integrity(db)
      modifies `db
      ensures ok == SetPermission(old(db), tenant, agent, principal, kind, action, row).Some?
      ensures db == if ok then SetPermission(old(db), tenant, agent, principal, kind, action, row).value else old(db)
    {
      if !AgentIn(db, tenant, agent) {
        return false;
      }
      var ensured := EnsurePrincipal(db, tenant, principal, kind);
      if ensured.None? {
        return false;
      }
      EnsureKeepsIntegrity(db, tenant, principal, kind);
      db := InsertOrChangeGrant(ensured.value, tenant, agent, principal, action, row);
      ok := true;
    }

    method RevokePermission(tenant: Id, agent: Id, principal: Id, kind: Kind, action: Action) returns (ok: bool)
      requires Integrity(db)
      modifies this, cache
      ensures ok == DeletePermission(old(db), tenant, agent, principal, action).Some?
      ensures Now() == Step(old(Now()), DeletePermissionOp(tenant, agent, principal, kind, action))
    {
      ok := RemoveGrant(tenant, agent, principal, action);
      if ok {
        InvalidatePermissions(tenant, agent, principal, kind);
        PermissionStep(old(Now()), DeletePermissionOp(tenant, agent, principal, kind, action), cache.entries);
      }
    }

    method RemoveGrant(tenant: Id, agent: Id, principal: Id, action: Action) returns (ok: bool)
      requires Integrity(db)
      modifies `db
      ensures ok == DeletePermission(old(db), tenant, agent, principal, action).Some?
      ensures db == if ok then DeletePermission(old(db), tenant, agent, principal, action).value else old(db)
    {
      if !AgentIn(db, tenant, agent) {
        return false;
      }
      var found := set m | m in ResourceMembership(db, tenant, agent, principal) && m.action == action;
      if found == {} {
        return false;
      }
      db := db.(members := db.members - found);
      ok := true;
    }

    method InvalidatePermissions(tenant: Id, agent: Id, principal: Id, kind: Kind)
      modifies cache
      ensures cache.entries == WithoutUsers(
        WithoutAll(old(cache.entries), [PermissionsPattern(PREFIX, tenant, "res", agent), ListPattern(PREFIX, tenant)]),
        if kind == IdentityUser then {principal} else {})
    {
      DeletePatterns([PermissionsPattern(PREFIX, tenant, "res", agent)]);
      DeletePatterns([ListPattern(PREFIX, tenant)]);
      WithoutBoth(old(cache.entries), [PermissionsPattern(PREFIX, tenant, "res", agent)], [ListPattern(PREFIX, tenant)]);
      assert [PermissionsPattern(PREFIX, tenant, "res", agent)] + [ListPattern(PREFIX, tenant)]
        == [PermissionsPattern(PREFIX, tenant, "res", agent), ListPattern(PREFIX, tenant)];
      if kind == IdentityUser {
        ClearUsers({principal});
      }
    }

    // ---------- Reads ----------

    method Groups(user: Id) returns (groups: set<Group>)
      modifies cache
      ensures (Now(), groups) == ReadGroups(old(Now()), user)
    {
      var key := GroupsKey(user);
      if key in cache.entries && cache.entries[key].GroupsEntry? {
        return cache.entries[key].groups;
      }
      groups := FreshGroups(db, user);
      cache.entries := cache.entries[key := GroupsEntry(groups)];
    }

    method TenantRolesOf(user: Id) returns (pairs: set<(Id, string)>)
      modifies cache
      ensures (Now(), pairs) == ReadRoles(old(Now()), user)
    {
      var groups := Groups(user);
      var key := RolesKey(user);
      if key in cache.entries && cache.entries[key].RolesEntry? {
        return cache.entries[key].pairs;
      }
      pairs := RolePairs(db, RolePrincipals(db, user, groups));
      cache.entries := cache.entries[key := RolesEntry(pairs)];
    }

    /** The list. `queried` and `roleRows` are what the database answers to the two queries of a miss: the ids of the page
        in order, and the member rows of those ids under the context's principals. */
    method ListChatAgents(tenant: Id, user: Id, q: ListQuery, queried: seq<Id>, roleRows: seq<(Id, Action)>) returns (items: seq<Item>)
      requires Answers(Now(), tenant, user, q, queried, roleRows)
      modifies cache
      ensures (Now(), items) == ReadList(old(Now()), tenant, user, q)
    {
      var groups := Groups(user);
      var pairs := TenantRolesOf(user);
      AccessReadTwice(old(Now()), user, tenant);
      var access := AccessWith(user, groups, pairs, tenant);
      var key := ListKey(tenant, user, q);
      if key in cache.entries && cache.entries[key].ListEntry? {
        return cache.entries[key].items;
      }
      QueriedExist(db, tenant, access, q, queried);
      items := BuildItems(access, tenant, queried, roleRows);
      PageFromAnswers(db, tenant, access, q, queried, items);
      cache.entries := cache.entries[key := ListEntry(items)];
    }

    /** Administrators get ADMIN on every row; everybody else what the bulk resolver finds, or nothing. */
    method BuildItems(access: Access, tenant: Id, queried: seq<Id>, roleRows: seq<(Id, Action)>) returns (items: seq<Item>)
      requires forall a :: a in queried ==> a in db.agents
      requires RowsAnswer(db, tenant, access, queried, roleRows)
      ensures |items| == |queried|
      ensures forall i :: 0 <= i < |queried| ==>
        items[i] == Item(queried[i], db.agents[queried[i]], Resolve(db.members, access, tenant, queried[i]))
    {
      var permissions := ResolveMyPermissionsBulk(roleRows);
      items := [];
      for i := 0 to |queried|
        invariant |items| == i
        invariant forall j :: 0 <= j < i ==>
          items[j] == Item(queried[j], db.agents[queried[j]], Resolve(db.members, access, tenant, queried[j]))
      {
        var agent := queried[i];
        BulkIsPointwise(roleRows, db.members, tenant, (set a | a in queried), access.principals, agent);
        var permission := if access.admin then Some(Admin) else if agent in permissions then Some(permissions[agent]) else None;
        items := items + [Item(agent, db.agents[agent], permission)];
      }
    }

    method GetChatAgent(tenant: Id, user: Id, agent: Id) returns (found: Option<Item>)
      modifies cache
      ensures (Now(), found) == ReadDetail(old(Now()), tenant, user, agent)
    {
      var key := DetailKey(tenant, agent);
      var data;
      if key in cache.entries && cache.entries[key].DetailEntry? {
        data := cache.entries[key].agent;
      } else if !AgentIn(db, tenant, agent) {
        return None;
      } else {
        data := db.agents[agent];
        cache.entries := cache.entries[key := DetailEntry(data)];
      }
      ghost var filled := Now();
      var groups := Groups(user);
      var pairs := TenantRolesOf(user);
      AccessReadTwice(filled, user, tenant);
      var access := AccessWith(user, groups, pairs, tenant);
      found := Some(Item(agent, data, Resolve(db.members, access, tenant, agent)));
    }
  }

  /** Reading the groups once more, as the roles do, finds the entry just stored. */
  lemma AccessReadTwice(s: State, user: Id, tenant: Id)
    ensures ReadRoles(ReadGroups(s, user).0, user) == ReadRoles(s, user)
    ensures ReadAccess(s, user, tenant).0 == ReadRoles(s, user).0
    ensures ReadAccess(s, user, tenant).1 == AccessWith(user, ReadGroups(s, user).1, ReadRoles(s, user).1, tenant)
  {
  }
}
