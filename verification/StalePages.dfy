/** The calls whose invalidation does not reach list pages: role changes of identity groups and tenant deletions, and exactly
    when a page or a detail stays right after them. */
module StalePages {
  import Text
  import opened CacheKeys
  import opened Schema
  import opened Permissions
  import opened Listing
  import opened Rbac
  import opened Coherence
  import opened RoleCoherence
  import opened Contexts
  import opened ListCoherence
  import opened StaleCaches

  // ---------- An administrator's list against a member's ----------

  /** Some principals hold ADMIN on everything the query can show. */
  predicate HoldAdmin(agents: map<Id, Agent>, members: set<MemberRow>, principals: set<Id>, tenant: Id, q: ListQuery) {
    forall a :: a in Candidates(agents, tenant, q) ==> Admin in ActionsOn(members, tenant, a, principals)
  }

  /** A member's page is an administrator's if the member holds ADMIN on everything; a whole list only then. */
  lemma AdminListIff(agents: map<Id, Agent>, members: set<MemberRow>, tenant: Id, mine: Access, all: Access, q: ListQuery)
    requires !mine.admin && all.admin
    ensures HoldAdmin(agents, members, mine.principals, tenant, q) ==>
      ListPage(agents, members, tenant, mine, q) == ListPage(agents, members, tenant, all, q)
    ensures Unpaged(agents, tenant, q) && ListPage(agents, members, tenant, mine, q) == ListPage(agents, members, tenant, all, q) ==>
      HoldAdmin(agents, members, mine.principals, tenant, q)
  {
    SamePageIff(agents, members, tenant, mine, all, q);
    forall a | a in Candidates(agents, tenant, q)
      ensures Admin in ActionsOn(members, tenant, a, mine.principals) <==> Resolve(members, mine, tenant, a) == Some(Admin)
    {
    }
  }

  // ---------- Role changes of identity groups ----------

  /** The acting user's id is none of the words that can follow a user segment in a page key. */
  predicate NoKeyWord(id: Id, q: ListQuery) {
    id !in {"user", "skip", "active", "type", q.direction}
  }

  /** Clearing a user reaches exactly that user's own pages. */
  lemma ClearingReachesOnlyOwnPages(cleared: Id, tenant: Id, user: Id, q: ListQuery)
    requires Plain(cleared) && Plain(tenant) && Plain(user) && PlainQuery(q) && NoKeyWord(cleared, q)
    ensures Reached(UserPatterns(cleared), ListKey(tenant, user, q)) <==> cleared == user
  {
    if cleared == user {
      ClearingReachesList(user, PREFIX, tenant, q);
    } else {
      ListSegmentsPlain(PREFIX, tenant, user, q);
      var key := ListSegments(PREFIX, tenant, user, q);
      UserPatternsReach(cleared, key);
      forall j: nat ensures !Text.RunAt(["user", cleared], key, j) {
        RunHead("user", cleared, key, j);
        NoOtherUserPair(cleared, tenant, user, q, j);
      }
      assert key[|key| - 3..] == [q.active, "type", "all"];
      assert [q.active, "type", "all"][1] == "type";
    }
  }

  lemma NoOtherUserPair(cleared: Id, tenant: Id, user: Id, q: ListQuery, j: nat)
    requires NoKeyWord(cleared, q) && cleared != user
    ensures var key := ListSegments(PREFIX, tenant, user, q);
      j + 2 < |key| ==> !(key[j] == "user" && key[j + 1] == cleared)
  {
    FixedSegments(tenant, user, q);
  }

  /** The segments that may equal "user" are followed by a fixed word, the user or the direction. */
  lemma FixedSegments(tenant: Id, user: Id, q: ListQuery)
    ensures var key := ListSegments(PREFIX, tenant, user, q);
      && |key| == 19
      && "user" !in [key[0], key[1], key[2], key[6], key[8], key[10], key[11], key[12], key[15], key[17], key[18]]
      && key[4] == "user" && key[5] == user && key[6] == "skip" && key[8] == "limit" && key[10] == "view"
      && key[7] == Text.Decimal(q.skip) && key[9] == Text.Decimal(q.limit)
      && "user" !in [key[7], key[9]]
      && key[14] == q.direction && key[15] == "active" && key[17] == "type"
  {
    DecimalIsNoWord(q.skip);
    DecimalIsNoWord(q.limit);
  }

  lemma DecimalIsNoWord(n: nat)
    ensures Text.Decimal(n) != "user"
  {
    assert forall c :: c in Text.Decimal(n) ==> Text.IsDigit(c);
    assert 'u' in "user" by { assert "user"[0] == 'u'; }
  }

  predicate PlainActor(op: Op, q: ListQuery) {
    op.SetRoleOp? ==> Plain(op.actor) && NoKeyWord(op.actor, q)
  }

  predicate ActedBy(op: Op, user: Id) {
    op.SetRoleOp? && user in IfNamed(op.actor)
  }

  /** They leave every page but the acting user's own. */
  lemma PageKeptIff(s: State, op: Op, v: Id, u: Id, q: ListQuery)
    requires Apply(s.db, op).Some? && Plain(v) && Plain(u) && PlainQuery(q) && ChangesGroupRole(op) && PlainActor(op, q)
    ensures var key, cache := ListKey(v, u, q), Step(s, op).cache;
      && (key in cache <==> key in s.cache && !ActedBy(op, u))
      && (key in cache ==> cache[key] == s.cache[key])
  {
    IdentityGroupRoleMissesPages(v, u, q);
    assert ClearedPatterns(op) == RoleChangePatterns(IdentityGroup);
    if op.SetRoleOp? {
      assert ClearedUsers(s.db, op) == IfNamed(op.actor);
      ClearingReachesOnlyOwnPages(op.actor, v, u, q);
    }
  }

  /** They clear every cached context, so the next one is fresh. */
  lemma ContextIsFresh(s: State, op: Op, u: Id, v: Id)
    requires Apply(s.db, op).Some? && Plain(u) && ChangesGroupRole(op)
    ensures ReadAccess(Step(s, op), u, v).1 == FreshAccess(Step(s, op).db, u, v)
  {
    GroupRoleClearsGroups(s.db, op, u);
    RoleEntryCleared(s.db, op, u);
    UserKeysDiffer(u, u);
  }

  /** A page after such a change is the one before, if it was cached and is not the acting user's; otherwise a fresh one. */
  lemma PageReadAfter(s: State, op: Op, v: Id, u: Id, q: ListQuery)
    requires PageRight(s, v, u, q) && Plain(u) && Apply(s.db, op).Some?
    requires Plain(v) && PlainQuery(q) && ChangesGroupRole(op) && PlainActor(op, q)
    ensures ReadList(Step(s, op), v, u, q).1 ==
      if ListKey(v, u, q) in s.cache && !ActedBy(op, u) then FreshList(s.db, v, u, q)
      else FreshList(Step(s, op).db, v, u, q)
  {
    PageKeptIff(s, op, v, u, q);
    ContextIsFresh(s, op, u, v);
    PageIsRead(Step(s, op), v, u, q);
  }

  /** What such a change makes of a user's page, computed fresh: the same rows seen with or without administration. */
  lemma PageWithAdmin(db: Db, db': Db, v: Id, u: Id, q: ListQuery)
    requires Integrity(db) && Integrity(db') && db'.members == db.members && db'.agents == db.agents && db'.directory == db.directory
    requires CustomGroupsOf(db', u) == CustomGroupsOf(db, u)
    ensures FreshList(db', v, u, q) ==
      ListPage(db.agents, db.members, v, Access(FreshAccess(db', u, v).admin, Mine(db, u)), q)
    ensures FreshList(db, v, u, q) ==
      ListPage(db.agents, db.members, v, Access(FreshAccess(db, u, v).admin, Mine(db, u)), q)
  {
    SamePage(db, db', v, u, q);
    FreshListIsMine(db, v, u, q);
  }

  /** After a role is set for an identity group a page stays right if there was none, it is the acting user's or another
      tenant's, the role administers nothing here, it does not reach the user, the user was administrator already, or held
      ADMIN on everything the query can show. A whole list stays right only then. */
  lemma GroupRolePageFreshIff(s: State, t: Id, p: Id, role: string, actor: Id, v: Id, u: Id, q: ListQuery)
    requires RolesInv(s) && PageRight(s, v, u, q) && u in s.db.directory.users && Plain(v) && PlainQuery(q)
    requires Plain(actor) && NoKeyWord(actor, q)
    requires SetRole(s.db, t, p, IdentityGroup, role).Some?
    ensures var s' := Step(s, SetRoleOp(t, p, IdentityGroup, role, actor));
      var right := ReadList(s', v, u, q).1 == FreshList(s'.db, v, u, q);
      var spared :=
        || ListKey(v, u, q) !in s.cache || u in IfNamed(actor) || v != t || !IsAdminRole(role) || p !in Mine(s.db, u)
        || FreshAccess(s.db, u, v).admin
        || HoldAdmin(s.db.agents, s.db.members, Mine(s.db, u), v, q);
      (spared ==> right) && (Unpaged(s.db.agents, v, q) && right ==> spared)
  {
    var op := SetRoleOp(t, p, IdentityGroup, role, actor);
    var db, db' := s.db, SetRole(s.db, t, p, IdentityGroup, role).value;
    PageReadAfter(s, op, v, u, q);
    SetRoleKeepsIntegrity(db, t, p, IdentityGroup, role);
    AdminAfterRole(db, t, p, role, v, u);
    PageWithAdmin(db, db', v, u, q);
    if !FreshAccess(db, u, v).admin {
      AdminListIff(db.agents, db.members, v, Access(false, Mine(db, u)), Access(true, Mine(db, u)), q);
    }
  }

  /** After a role of an identity group is deleted: if there was no page, it is another tenant's, the row was not there,
      administers nothing here or does not reach the user, another row does the same, or the user holds ADMIN on everything
      anyway. A whole list stays right only then. */
  lemma GroupRoleRemovalPageFreshIff(s: State, t: Id, p: Id, role: string, v: Id, u: Id, q: ListQuery)
    requires RolesInv(s) && PageRight(s, v, u, q) && u in s.db.directory.users && Plain(v) && PlainQuery(q)
    requires DeleteRole(s.db, t, p, role).Some?
    ensures var s' := Step(s, DeleteRoleOp(t, p, IdentityGroup, role));
      var right := ReadList(s', v, u, q).1 == FreshList(s'.db, v, u, q);
      var spared :=
        || ListKey(v, u, q) !in s.cache || v != t || RoleRow(t, p, role) !in s.db.roles || !IsAdminRole(role)
        || p !in Mine(s.db, u) || OtherAdminRow(s.db, u, RoleRow(t, p, role))
        || HoldAdmin(s.db.agents, s.db.members, Mine(s.db, u), v, q);
      (spared ==> right) && (Unpaged(s.db.agents, v, q) && right ==> spared)
  {
    var op := DeleteRoleOp(t, p, IdentityGroup, role);
    var db, db' := s.db, DeleteRole(s.db, t, p, role).value;
    PageReadAfter(s, op, v, u, q);
    DeleteRoleKeepsIntegrity(db, t, p, role);
    AdminAfterDeletion(db, t, p, role, v, u);
    PageWithAdmin(db, db', v, u, q);
    AdminListIff(db.agents, db.members, v, Access(false, Mine(db, u)), Access(true, Mine(db, u)), q);
  }

  // ---------- Tenant deletion ----------

  lemma TenantPatternsMissResources(t: Id, key: seq<string>)
    requires Plain(t) && key != [] && AllPlain(key) && key[0] != "tenants"
    ensures !Reached(ClearedPatterns(DeleteTenantOp(t)), Key(key))
  {
    PrefixMatches(["tenants", "list"], key);
    PrefixMatches(["tenants", "detail", t], key);
    OtherPrefixMisses(["tenants", "user"], "*" + ":with_permissions", key);
    assert ["tenants", "list"][0] == ["tenants", "detail", t][0] == "tenants";
  }

  lemma TenantDeletionMissesResources(s: State, t: Id, key: seq<string>)
    requires Plain(t) && key != [] && AllPlain(key) && key[0] == PREFIX
    ensures !Clears(s.db, DeleteTenantOp(t), Key(key))
  {
    assert PREFIX[0] != "tenants"[0];
    TenantPatternsMissResources(t, key);
  }

  /** Deleting a tenant leaves every page and every detail entry as it is. */
  lemma PageEntryKept(s: State, t: Id, v: Id, u: Id, q: ListQuery)
    requires Plain(t) && Plain(v) && Plain(u) && PlainQuery(q) && DeleteTenant(s.db, t).Some?
    ensures SameEntry(s.cache, Step(s, DeleteTenantOp(t)).cache, ListKey(v, u, q))
  {
    ListSegmentsPlain(PREFIX, v, u, q);
    TenantDeletionMissesResources(s, t, ListSegments(PREFIX, v, u, q));
  }

  lemma DetailEntryKept(s: State, t: Id, v: Id, a: Id)
    requires Plain(t) && Plain(v) && Plain(a) && DeleteTenant(s.db, t).Some?
    ensures SameEntry(s.cache, Step(s, DeleteTenantOp(t)).cache, DetailKey(v, a))
  {
    TenantDeletionMissesResources(s, t, DetailSegments(PREFIX, v, "chat_agent", a));
  }

  ghost predicate SameEntry(before: map<string, Entry>, after: map<string, Entry>, key: string) {
    (key in after <==> key in before) && (key in after ==> after[key] == before[key])
  }

  /** A tenant deletion keeps a reader's context covering, even the readers of that tenant. */
  lemma ContextAfterDeletion(s: State, t: Id, u: Id)
    requires RolesInv(s) && ContextCovers(s, u) && u in s.db.directory.users && DeleteTenant(s.db, t).Some?
    ensures var s' := Step(s, DeleteTenantOp(t));
      RolesInv(s') && ContextCovers(s', u) && s'.db == DeleteTenant(s.db, t).value && s'.db.directory == s.db.directory
  {
    var s' := Step(s, DeleteTenantOp(t));
    CallKeepsRoles(s, DeleteTenantOp(t));
    assert IdentityGroupsOf(s'.db, u) <= IdentityGroupsOf(s.db, u);
  }

  lemma FreshPageAfterDeletion(db: Db, t: Id, v: Id, u: Id, q: ListQuery)
    requires Integrity(db) && DeleteTenant(db, t).Some?
    ensures FreshList(DeleteTenant(db, t).value, v, u, q) == if v == t then [] else FreshList(db, v, u, q)
  {
    var db' := DeleteTenant(db, t).value;
    if v != t {
      DeleteTenantKeepsIntegrity(db, t);
      OtherTenantStays(db, t, v);
      OtherTenantAccess(db, t, v, u);
      SamePage(db, db', v, u, q);
      FreshListIsMine(db, v, u, q);
    } else {
      NothingLeft(db', t, FreshAccess(db', u, t), q);
    }
  }

  lemma NothingLeft(db: Db, t: Id, access: Access, q: ListQuery)
    requires InTenant(db.agents, t) == {}
    ensures ListPage(db.agents, db.members, t, access, q) == []
  {
    assert Rows(db.agents, db.members, t, access, q).Keys == {};
  }

  /** After a tenant is deleted a page stays right exactly when it belongs to another tenant, was not cached, or was empty. */
  lemma TenantDeletionPageFreshIff(s: State, t: Id, v: Id, u: Id, q: ListQuery)
    requires RolesInv(s) && ContextCovers(s, u) && PageRight(s, v, u, q)
    requires u in s.db.directory.users && Plain(v) && PlainQuery(q) && DeleteTenant(s.db, t).Some?
    ensures var s' := Step(s, DeleteTenantOp(t));
      ReadList(s', v, u, q).1 == FreshList(s'.db, v, u, q) <==>
        v != t || ListKey(v, u, q) !in s.cache || FreshList(s.db, v, u, q) == []
  {
    PageEntryKept(s, t, v, u, q);
    ContextAfterDeletion(s, t, u);
    FreshPageAfterDeletion(s.db, t, v, u, q);
    KeptPageRightIff(s, Step(s, DeleteTenantOp(t)), v, u, q);
  }

  /** A page kept over a change is right exactly when it was not cached or the fresh page has not changed. */
  lemma KeptPageRightIff(s: State, s': State, v: Id, u: Id, q: ListQuery)
    requires PageRight(s, v, u, q) && SameEntry(s.cache, s'.cache, ListKey(v, u, q))
    requires RolesInv(s') && ContextCovers(s', u) && u in s'.db.directory.users && Plain(v) && PlainQuery(q)
    ensures ReadList(s', v, u, q).1 == FreshList(s'.db, v, u, q) <==>
      ListKey(v, u, q) !in s.cache || FreshList(s'.db, v, u, q) == FreshList(s.db, v, u, q)
  {
    PageIsRead(s', v, u, q);
    ComputedPageIsFresh(s', v, u, q);
  }

  /** A detail stays right exactly when it belongs to another tenant or was not cached. */
  lemma TenantDeletionDetailFreshIff(s: State, t: Id, v: Id, u: Id, a: Id)
    requires RolesInv(s) && ContextCovers(s, u) && DetailRight(s, v, a)
    requires u in s.db.directory.users && Plain(v) && Plain(a) && DeleteTenant(s.db, t).Some?
    ensures var s' := Step(s, DeleteTenantOp(t));
      ReadDetail(s', v, u, a).1 == FreshDetail(s'.db, v, u, a) <==> v != t || DetailKey(v, a) !in s.cache
  {
    var s' := Step(s, DeleteTenantOp(t));
    DetailEntryKept(s, t, v, a);
    ContextAfterDeletion(s, t, u);
    SeesWhenCovered(s', v, u, a);
    DetailFreshIff(s', v, u, a);
  }

  lemma SeesWhenCovered(s: State, t: Id, u: Id, a: Id)
    requires RolesInv(s) && ContextCovers(s, u)
    ensures Sees(s, t, u, a)
  {
    if GroupsKey(u) in s.cache && s.cache[GroupsKey(u)].GroupsEntry? {
      CoveringMissesNothing(s.db, t, u, a, s.cache[GroupsKey(u)].groups);
    }
  }
}
