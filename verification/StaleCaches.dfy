/** Tenant-role changes under any type the caller passes: which entries they reach, and exactly when the cached roles of a
    user stay right. */
module StaleCaches {
  import opened Text
  import opened Wildcard
  import opened CacheKeys
  import opened Schema
  import opened Rbac
  import opened Coherence
  import opened RoleCoherence
  import opened Effects

  /** Clearing a user reaches the role entry of that user and of nobody else. */
  lemma ClearingReachesOnlyOwnRoles(cleared: Id, user: Id)
    requires Plain(cleared) && Plain(user)
    ensures Reached(UserPatterns(cleared), RolesKey(user)) <==> cleared == user
  {
    var key := TenantsSegments(user);
    UserPatternsReach(cleared, key);
    forall j: nat { RunHead("user", cleared, key, j); }
    if cleared == user {
      assert RunAt(["user", user], key, 1);
    }
    assert key[1..] == ["user", user, "with_permissions"] && ["user", user, "with_permissions"][0] == "user";
    assert ["groups", "user", cleared][0] == "groups" && ["custom_groups", "user", cleared][0] == "custom_groups";
  }

  /** ... and so it is with group entries. */
  lemma ClearingReachesOnlyOwnGroups(cleared: Id, user: Id)
    requires Plain(cleared) && Plain(user)
    ensures Reached(UserPatterns(cleared), GroupsKey(user)) <==> cleared == user
  {
    var key := GroupsSegments(user);
    UserPatternsReach(cleared, key);
    forall j: nat { RunHead("user", cleared, key, j); }
    assert key[1..] == ["groups", "user", user] && ["groups", "user", user][2] == user;
    assert ["groups", "user", cleared][2] == cleared && ["custom_groups", "user", cleared][2] == cleared;
  }

  /** A pattern that fixes the first segments misses every key with another first segment. */
  lemma OtherPrefixMisses(prefix: seq<string>, rest: string, key: seq<string>)
    requires prefix != [] && key != [] && AllPlain(prefix) && AllPlain(key) && prefix[0] != key[0]
    ensures !Glob(Key(prefix) + ":" + rest, Key(key))
  {
    JoinIsLiteral(prefix);
    MatchesLiteral('*', '?', Key(prefix) + ":", rest, Key(key));
    StartsWithSegments(':', prefix, key);
  }

  /** An identity group's role change clears no list page at all (beyond the acting user's own). */
  lemma IdentityGroupRoleMissesPages(t: Id, u: Id, q: ListQuery)
    requires Plain(t) && Plain(u) && PlainQuery(q)
    ensures !Reached(RoleChangePatterns(IdentityGroup), ListKey(t, u, q))
  {
    ListSegmentsPlain(PREFIX, t, u, q);
    var key := ListSegments(PREFIX, t, u, q);
    assert key[0] == "chat_agents";
    RoleChangePatternsMiss(key);
  }

  lemma RoleChangePatternsMiss(key: seq<string>)
    requires key != [] && AllPlain(key) && key[0] !in {"identity", "tenants"}
    ensures !Reached(RoleChangePatterns(IdentityGroup), Key(key))
  {
    PrefixMatches(["identity", "groups", "user"], key);
    PrefixMatches(["tenants", "list"], key);
    OtherPrefixMisses(["tenants", "user"], "*" + ":with_permissions", key);
    assert ["identity", "groups", "user"][0] == "identity" && ["tenants", "list"][0] == "tenants";
  }

  /** A grant to a resource clears entries under the resource prefix only. */
  lemma GrantMissesGroups(t: Id, a: Id, u: Id)
    requires Plain(t) && Plain(a) && Plain(u)
    ensures !Reached([PermissionsPattern(PREFIX, t, "res", a), ListPattern(PREFIX, t)], GroupsKey(u))
  {
    PrefixMatches([PREFIX, "permissions", "tenant", t, "res", a], GroupsSegments(u));
    PrefixMatches([PREFIX, "list", "tenant", t], GroupsSegments(u));
    assert GroupsSegments(u)[0] == "identity";
  }

  lemma TenantListsMissRoles(u: Id)
    requires Plain(u)
    ensures !Reached(TENANT_LISTS, RolesKey(u))
  {
    PrefixMatches(["tenants", "list"], TenantsSegments(u));
    assert TenantsSegments(u)[1] == "user";
  }

  // ---------- Reading roles after a call ----------

  /** Whatever a call clears, a user's group entry agrees with the tables afterwards or is computed from them. */
  lemma GroupsAgreeAfter(s: State, op: Op, u: Id)
    requires RolesInv(s) && NewIds(s, op) && Apply(s.db, op).Some? && u in s.db.directory.users
    ensures CustomAgree(Step(s, op).db, u, ReadGroups(Step(s, op), u).1)
  {
    var s' := Step(s, op);
    FreshCustomIds(s'.db, u);
    if GroupsKey(u) in s'.cache {
      if u in ClearedUsers(s.db, op) { GroupEntryCleared(s.db, op, u); }
      CustomAgreeKept(s, op, u, s.cache[GroupsKey(u)].groups);
    }
  }

  /** After any call a role entry that survived answers with the roles before it; one that did not, with those after. */
  lemma RolesReadAfter(s: State, op: Op, u: Id)
    requires RolesInv(s) && NewIds(s, op) && Apply(s.db, op).Some? && u in s.db.directory.users
    ensures ReadRoles(Step(s, op), u).1 ==
      if RolesKey(u) in Step(s, op).cache then FreshRoles(s.db, u) else FreshRoles(Step(s, op).db, u)
  {
    var s' := Step(s, op);
    ApplyKeepsIntegrity(s, op);
    GroupsAgreeAfter(s, op, u);
    RolesFromAgreeingGroups(s'.db, u, ReadGroups(s', u).1);
    UserKeysDiffer(u, u);
  }

  /** A role change of a user or custom group keeps the role entries of exactly the users it does not clear. */
  lemma RoleEntryKeptIff(s: State, op: Op, u: Id)
    requires RolesInv(s) && Apply(s.db, op).Some? && u in s.db.directory.users
    requires (op.SetRoleOp? && Plain(op.actor)) || op.DeleteRoleOp?
    requires Plain(op.principal)
    ensures RolesKey(u) in Step(s, op).cache <==>
      RolesKey(u) in s.cache && op.kind != IdentityGroup && u !in ClearedUsers(s.db, op)
  {
    if op.kind == IdentityGroup || u in ClearedUsers(s.db, op) {
      RoleEntryCleared(s.db, op, u);
    } else {
      TenantListsMissRoles(u);
      assert ClearedPatterns(op) == TENANT_LISTS;
      forall v | v in ClearedUsers(s.db, op) ensures !Reached(UserPatterns(v), RolesKey(u)) {
        ClearingReachesOnlyOwnRoles(v, u);
      }
    }
  }

  // ---------- Exactly when they stay right ----------

  /** After a role is set, whatever type its principal is passed as, a user's cached roles are the fresh ones exactly when
      there were none, the change reached them, or it gave the user nothing. */
  lemma SetRoleFreshIff(s: State, t: Id, p: Id, kind: Kind, role: string, actor: Id, u: Id)
    requires RolesInv(s) && u in s.db.directory.users && Plain(p) && Plain(actor)
    requires SetRole(s.db, t, p, kind, role).Some?
    ensures var s' := Step(s, SetRoleOp(t, p, kind, role, actor));
      ReadRoles(s', u).1 == FreshRoles(s'.db, u) <==>
        || RolesKey(u) !in s.cache
        || kind == IdentityGroup || u in UsersToInvalidate(s.db, p, kind) || u in IfNamed(actor)
        || p !in Mine(s.db, u) || (t, role) in FreshRoles(s.db, u)
  {
    var op := SetRoleOp(t, p, kind, role, actor);
    var s' := Step(s, op);
    RolesReadAfter(s, op, u);
    RoleEntryKeptIff(s, op, u);
    forall tenant, r ensures (tenant, r) in FreshRoles(s'.db, u) <==>
      (tenant, r) in FreshRoles(s.db, u) || ((tenant, r) == (t, role) && p in Mine(s.db, u))
    {
      RoleReachesItsPrincipals(s.db, t, p, kind, role, u, tenant, r);
    }
  }

  /** After a role is deleted: exactly when there were none, the change reached them, or it took nothing from the user. */
  lemma DeleteRoleFreshIff(s: State, t: Id, p: Id, kind: Kind, role: string, u: Id)
    requires RolesInv(s) && u in s.db.directory.users && Plain(p)
    requires DeleteRole(s.db, t, p, role).Some?
    ensures var s' := Step(s, DeleteRoleOp(t, p, kind, role));
      ReadRoles(s', u).1 == FreshRoles(s'.db, u) <==>
        || RolesKey(u) !in s.cache
        || kind == IdentityGroup || u in UsersToInvalidate(s.db, p, kind)
        || p !in Mine(s.db, u) || RoleRow(t, p, role) !in s.db.roles
        || exists other :: other != p && other in Mine(s.db, u) && RoleRow(t, other, role) in s.db.roles
  {
    var op := DeleteRoleOp(t, p, kind, role);
    var s' := Step(s, op);
    RolesReadAfter(s, op, u);
    RoleEntryKeptIff(s, op, u);
    FreshRolesAreMine(s.db, u);
    forall tenant, r ensures (tenant, r) in FreshRoles(s'.db, u) <==>
      tenant in s.db.tenants && exists q :: q in Mine(s.db, u) && RoleRow(tenant, q, r) in s.db.roles && (tenant, q, r) != (t, p, role)
    {
      DeletedRoleLeavesOthers(s.db, t, p, role, u, tenant, r);
    }
    OnlyOneRoleLost(s.db, s'.db, t, p, role, u);
  }

  lemma OnlyOneRoleLost(db: Db, db': Db, t: Id, p: Id, role: string, u: Id)
    requires t in db.tenants && FreshRoles(db, u) == RolePairs(db, Mine(db, u))
    requires forall tenant, r :: (tenant, r) in FreshRoles(db', u) <==>
      tenant in db.tenants && exists q :: q in Mine(db, u) && RoleRow(tenant, q, r) in db.roles && (tenant, q, r) != (t, p, role)
    ensures FreshRoles(db', u) == FreshRoles(db, u) <==>
      p !in Mine(db, u) || RoleRow(t, p, role) !in db.roles
      || exists other :: other != p && other in Mine(db, u) && RoleRow(t, other, role) in db.roles
  {
    forall tenant, r | (tenant, r) != (t, role) ensures (tenant, r) in FreshRoles(db', u) <==> (tenant, r) in FreshRoles(db, u) {
      if (tenant, r) in FreshRoles(db, u) {
        var row :| row in db.roles && row.principal in Mine(db, u) && row.tenant in db.tenants && (row.tenant, row.role) == (tenant, r);
        assert RoleRow(tenant, row.principal, r) == row;
      }
    }
    if RoleRow(t, p, role) in db.roles && p in Mine(db, u) {
      assert (t, role) in FreshRoles(db, u);
    }
    if (t, role) in FreshRoles(db, u) {
      var row :| row in db.roles && row.principal in Mine(db, u) && row.tenant in db.tenants && (row.tenant, row.role) == (t, role);
      assert RoleRow(t, row.principal, role) == row;
    }
  }
}
