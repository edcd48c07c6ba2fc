/** What a read makes of a cached group entry that no longer names all of the user's groups: exactly when its details and
    pages are the fresh ones, in every reachable state. */
module Contexts {
  import opened CacheKeys
  import opened Schema
  import opened Permissions
  import opened Listing
  import opened Rbac
  import opened Coherence
  import opened RoleCoherence

  /** The ids a context looks member rows up for. */
  function Named(user: Id, groups: set<Group>): set<Id> {
    {user} + set g | g in groups :: g.id
  }

  /** Some action of the set weighs at least as much. */
  predicate HoldsAtLeast(actions: set<Action>, action: Action) {
    Best(actions).Some? && Weight(Best(actions).value) >= Weight(action)
  }

  /** Every grant of a resource to an identity group of the user that the context does not name gives no more than the
      context has. */
  ghost predicate MissesNothing(db: Db, tenant: Id, user: Id, agent: Id, groups: set<Group>) {
    forall m :: m in db.members && m.tenant == tenant && m.resource == agent && m.principal in IdpGroups(db, user) - Named(user, groups) ==>
      HoldsAtLeast(ActionsOn(db.members, tenant, agent, Named(user, groups)), m.action)
  }

  /** The identity groups a context names are the user's, and it names no user. */
  ghost predicate IdentityWithin(db: Db, user: Id, groups: set<Group>) {
    IdsOfKind(groups, IdentityGroup) <= IdpGroups(db, user) && forall g :: g in groups ==> g.kind != IdentityUser
  }

  // ---------- Member rows seen through a context ----------

  lemma FreshIdentityIds(db: Db, user: Id)
    ensures IdsOfKind(FreshGroups(db, user), IdentityGroup) == IdentityGroupsOf(db, user)
  {
    forall g | g in IdentityGroupsOf(db, user) ensures g in IdsOfKind(FreshGroups(db, user), IdentityGroup) {
      assert Group(g, IdentityGroup) in FreshGroups(db, user);
    }
  }

  /** A context names only principals of the user: an id of anybody else's it may name is dead. */
  lemma NamedIsMine(db: Db, user: Id, groups: set<Group>, tenant: Id, principal: Id)
    requires CustomAgree(db, user, groups) && IdentityWithin(db, user, groups)
    requires (tenant, principal) in db.principals
    ensures principal in Named(user, groups) ==> principal in Mine(db, user)
    ensures principal in Mine(db, user) - Named(user, groups) ==> principal in IdpGroups(db, user)
  {
    if g :| g in groups && g.id == principal {
      assert principal in IdsOfKind(groups, g.kind);
    }
    if principal in CustomGroupsOf(db, user) {
      assert principal in IdsOfKind(groups, CustomGroup);
    }
  }

  /** A fresh context names every registered principal of the user. */
  lemma FreshNamesMine(db: Db, user: Id, tenant: Id, principal: Id)
    requires Integrity(db) && (tenant, principal) in db.principals
    ensures principal in Named(user, FreshGroups(db, user)) <==> principal in Mine(db, user)
  {
    FreshIdentityIds(db, user);
    FreshCustomIds(db, user);
    if principal in IdpGroups(db, user) {
      assert db.principals[(tenant, principal)] == IdentityGroup;
      assert (tenant, principal).1 in IdentityGroupsOf(db, user);
    }
    if g :| g in FreshGroups(db, user) && g.id == principal {
      assert principal in IdsOfKind(FreshGroups(db, user), g.kind);
    }
    if principal in IdentityGroupsOf(db, user) + CustomGroupsOf(db, user) {
      assert Group(principal, IdentityGroup) in FreshGroups(db, user) || Group(principal, CustomGroup) in FreshGroups(db, user);
    }
  }

  /** What the user holds through all of the user's principals is what a fresh context sees. */
  lemma FreshActions(db: Db, user: Id, tenant: Id, agent: Id)
    requires Integrity(db)
    ensures ActionsOn(db.members, tenant, agent, FreshAccess(db, user, tenant).principals)
         == ActionsOn(db.members, tenant, agent, Mine(db, user))
  {
    forall m | m in db.members && m.tenant == tenant
      ensures m.principal in FreshAccess(db, user, tenant).principals <==> m.principal in Mine(db, user)
    {
      FreshNamesMine(db, user, tenant, m.principal);
    }
  }

  /** The levels of the grants a context misses. */
  function Missed(db: Db, tenant: Id, user: Id, agent: Id, groups: set<Group>): set<Action> {
    ActionsOn(db.members, tenant, agent, IdpGroups(db, user) - Named(user, groups))
  }

  lemma ContextActions(db: Db, user: Id, groups: set<Group>, tenant: Id, agent: Id)
    requires Integrity(db) && CustomAgree(db, user, groups) && IdentityWithin(db, user, groups)
    ensures ActionsOn(db.members, tenant, agent, Mine(db, user))
         == ActionsOn(db.members, tenant, agent, Named(user, groups)) + Missed(db, tenant, user, agent, groups)
  {
    forall m | m in db.members && m.tenant == tenant
      ensures m.principal in Mine(db, user) <==> m.principal in Named(user, groups) + (IdpGroups(db, user) - Named(user, groups))
    {
      NamedIsMine(db, user, groups, tenant, m.principal);
    }
  }

  lemma MissesNothingIff(db: Db, tenant: Id, user: Id, agent: Id, groups: set<Group>)
    ensures MissesNothing(db, tenant, user, agent, groups) <==>
      forall b :: b in Missed(db, tenant, user, agent, groups) ==>
        HoldsAtLeast(ActionsOn(db.members, tenant, agent, Named(user, groups)), b)
  {
    forall m | m in db.members && m.tenant == tenant && m.resource == agent && m.principal in IdpGroups(db, user) - Named(user, groups)
      ensures m.action in Missed(db, tenant, user, agent, groups)
    {
    }
  }

  /** More actions leave the heaviest alone exactly when each is outweighed. */
  lemma SameBestIff(held: set<Action>, more: set<Action>)
    ensures Best(held + more) == Best(held) <==> forall b :: b in more ==> HoldsAtLeast(held, b)
  {
    if Best(held).Some? {
      BestIsHeaviest(held, Best(held).value);
      BestIsHeaviest(held + more, Best(held).value);
    } else {
      BestIsHeaviest(held, Read);
      BestIsHeaviest(held + more, Read);
      assert forall b :: b in more ==> b in held + more;
    }
  }

  /** A context with fresh roles resolves what a fresh one does exactly when it is an administrator's or misses nothing. */
  lemma ContextResolvesIff(db: Db, user: Id, groups: set<Group>, tenant: Id, agent: Id)
    requires Integrity(db) && CustomAgree(db, user, groups) && IdentityWithin(db, user, groups)
    ensures var mine := AccessWith(user, groups, FreshRoles(db, user), tenant);
      Resolve(db.members, mine, tenant, agent) == Resolve(db.members, FreshAccess(db, user, tenant), tenant, agent) <==>
        FreshAccess(db, user, tenant).admin || MissesNothing(db, tenant, user, agent, groups)
  {
    FreshActions(db, user, tenant, agent);
    ContextActions(db, user, groups, tenant, agent);
    MissesNothingIff(db, tenant, user, agent, groups);
    SameBestIff(ActionsOn(db.members, tenant, agent, Named(user, groups)), Missed(db, tenant, user, agent, groups));
    assert AccessWith(user, groups, FreshRoles(db, user), tenant).principals == Named(user, groups);
  }

  /** A page from such a context is the fresh one if that holds for everything the query can show; a whole list only then. */
  lemma ContextPageIff(db: Db, user: Id, groups: set<Group>, tenant: Id, q: ListQuery)
    requires Integrity(db) && CustomAgree(db, user, groups) && IdentityWithin(db, user, groups)
    ensures var page := ListPage(db.agents, db.members, tenant, AccessWith(user, groups, FreshRoles(db, user), tenant), q);
      var sees := forall a :: a in Candidates(db.agents, tenant, q) ==>
        FreshAccess(db, user, tenant).admin || MissesNothing(db, tenant, user, a, groups);
      && (sees ==> page == FreshList(db, tenant, user, q))
      && (Unpaged(db.agents, tenant, q) && page == FreshList(db, tenant, user, q) ==> sees)
  {
    var mine := AccessWith(user, groups, FreshRoles(db, user), tenant);
    SamePageIff(db.agents, db.members, tenant, mine, FreshAccess(db, user, tenant), q);
    forall a { ContextResolvesIff(db, user, groups, tenant, a); }
  }

  /** A context that names every registered identity group of the user misses nothing. */
  lemma CoveringMissesNothing(db: Db, tenant: Id, user: Id, agent: Id, groups: set<Group>)
    requires Integrity(db) && IdentityGroupsOf(db, user) <= IdsOfKind(groups, IdentityGroup)
    ensures MissesNothing(db, tenant, user, agent, groups)
  {
    forall m | m in db.members && m.principal in IdpGroups(db, user) ensures m.principal in Named(user, groups) {
      assert (m.tenant, m.principal) in db.principals && db.principals[(m.tenant, m.principal)] == IdentityGroup;
      assert (m.tenant, m.principal).1 in IdentityGroupsOf(db, user);
      assert m.principal in IdsOfKind(groups, IdentityGroup);
    }
  }

  // ---------- What holds in every reachable state ----------

  ghost predicate ContextWithin(s: State, user: Id) {
    CachedGroups(s, user).Some? ==> IdentityWithin(s.db, user, CachedGroups(s, user).value)
  }

  /** A cached detail is the row's, if its resource still exists. */
  ghost predicate DetailSound(s: State, tenant: Id, agent: Id) {
    var key := DetailKey(tenant, agent);
    key in s.cache ==> s.cache[key].DetailEntry? && (AgentIn(s.db, tenant, agent) ==> s.cache[key] == DetailEntry(s.db.agents[agent]))
  }

  ghost predicate ContextsWithin(s: State) {
    forall u :: u in s.db.directory.users ==> ContextWithin(s, u)
  }

  ghost predicate DetailsSound(s: State) {
    forall t, a :: Plain(t) && Plain(a) ==> DetailSound(s, t, a)
  }

  ghost predicate WideInv(s: State) {
    RolesInv(s) && ContextsWithin(s) && DetailsSound(s)
  }

  /** The user's groups are not cached, the user is an administrator, or the cached groups miss nothing of the resource. */
  ghost predicate Sees(s: State, tenant: Id, user: Id, agent: Id) {
    || CachedGroups(s, user).None?
    || FreshAccess(s.db, user, tenant).admin
    || MissesNothing(s.db, tenant, user, agent, CachedGroups(s, user).value)
  }

  /** ... of any resource the query can show. */
  ghost predicate SeesAll(s: State, tenant: Id, user: Id, q: ListQuery) {
    forall a :: a in Candidates(s.db.agents, tenant, q) ==> Sees(s, tenant, user, a)
  }

  /** The groups a read of the user's context uses. */
  function GroupsRead(s: State, user: Id): set<Group> {
    ReadGroups(s, user).1
  }

  /** Whatever groups are read, they name nothing foreign, and the roles read with them are fresh. */
  lemma ContextRead(s: State, user: Id, tenant: Id)
    requires RolesInv(s) && ContextWithin(s, user) && user in s.db.directory.users
    ensures CustomAgree(s.db, user, GroupsRead(s, user)) && IdentityWithin(s.db, user, GroupsRead(s, user))
    ensures ReadAccess(s, user, tenant).1 == AccessWith(user, GroupsRead(s, user), FreshRoles(s.db, user), tenant)
  {
    ReadGroupsKeepsRoles(s, user);
    ReadRolesIsFresh(s, user);
    FreshIdentityIds(s.db, user);
  }

  /** Groups read from the tables miss nothing. */
  lemma FreshMissesNothing(s: State, user: Id, tenant: Id, agent: Id)
    requires RolesInv(s) && GroupsKey(user) !in s.cache
    ensures MissesNothing(s.db, tenant, user, agent, GroupsRead(s, user))
  {
    FreshIdentityIds(s.db, user);
    CoveringMissesNothing(s.db, tenant, user, agent, FreshGroups(s.db, user));
  }

  /** A detail read is the entry, or else the row, with the permission the context gives. */
  lemma DetailIsRead(s: State, v: Id, u: Id, a: Id)
    requires Plain(v) && Plain(u) && Plain(a)
    requires DetailKey(v, a) in s.cache ==> s.cache[DetailKey(v, a)].DetailEntry?
    ensures ReadDetail(s, v, u, a).1 ==
      if DetailKey(v, a) in s.cache then
        Some(Item(a, s.cache[DetailKey(v, a)].agent, Resolve(s.db.members, ReadAccess(s, u, v).1, v, a)))
      else if AgentIn(s.db, v, a) then Some(Item(a, s.db.agents[a], Resolve(s.db.members, ReadAccess(s, u, v).1, v, a)))
      else None
  {
    DetailKeyDiffers(u, v, a);
  }

  lemma PageIsRead(s: State, v: Id, u: Id, q: ListQuery)
    requires Plain(v) && Plain(u) && PlainQuery(q)
    requires ListKey(v, u, q) in s.cache ==> s.cache[ListKey(v, u, q)].ListEntry?
    ensures ReadList(s, v, u, q).1 ==
      if ListKey(v, u, q) in s.cache then s.cache[ListKey(v, u, q)].items
      else ListPage(s.db.agents, s.db.members, v, ReadAccess(s, u, v).1, q)
  {
    ResourceKeysDiffer(u, v, u, q, "");
  }

  lemma SeesIff(s: State, tenant: Id, user: Id, agent: Id)
    requires RolesInv(s) && ContextWithin(s, user) && user in s.db.directory.users
    ensures Sees(s, tenant, user, agent) <==>
      FreshAccess(s.db, user, tenant).admin || MissesNothing(s.db, tenant, user, agent, GroupsRead(s, user))
  {
    if GroupsKey(user) !in s.cache {
      FreshMissesNothing(s, user, tenant, agent);
    }
  }

  /** A detail read is right exactly when the resource exists and the context read sees all of it, or it does not exist and no
      detail of it is cached. */
  lemma DetailFreshIff(s: State, tenant: Id, user: Id, agent: Id)
    requires RolesInv(s) && ContextWithin(s, user) && DetailSound(s, tenant, agent)
    requires user in s.db.directory.users && Plain(tenant) && Plain(agent)
    ensures ReadDetail(s, tenant, user, agent).1 == FreshDetail(s.db, tenant, user, agent) <==>
      if AgentIn(s.db, tenant, agent) then Sees(s, tenant, user, agent) else DetailKey(tenant, agent) !in s.cache
  {
    DetailIsRead(s, tenant, user, agent);
    ContextRead(s, user, tenant);
    ContextResolvesIff(s.db, user, GroupsRead(s, user), tenant, agent);
    SeesIff(s, tenant, user, agent);
  }

  /** A page that is not cached is right if the context read sees all of what the query can show; a whole list only then. */
  lemma PageFreshIff(s: State, tenant: Id, user: Id, q: ListQuery)
    requires RolesInv(s) && ContextWithin(s, user) && ListKey(tenant, user, q) !in s.cache
    requires user in s.db.directory.users && Plain(tenant) && PlainQuery(q)
    ensures var right := ReadList(s, tenant, user, q).1 == FreshList(s.db, tenant, user, q);
      && (SeesAll(s, tenant, user, q) ==> right)
      && (Unpaged(s.db.agents, tenant, q) && right ==> SeesAll(s, tenant, user, q))
  {
    PageIsRead(s, tenant, user, q);
    ContextRead(s, user, tenant);
    ContextPageIff(s.db, user, GroupsRead(s, user), tenant, q);
    forall a { SeesIff(s, tenant, user, a); }
  }

  // ---------- Every call and every read keeps it ----------

  /** A resource that is in a tenant after a call was there before, unchanged, unless the call made it or updated it. */
  lemma AgentOlder(db: Db, op: Op, tenant: Id, agent: Id)
    requires Apply(db, op).Some? && AgentIn(Apply(db, op).value, tenant, agent)
    requires op.CreateAgentOp? || op.DuplicateAgentOp? ==> op.agent != agent
    requires op.UpdateAgentOp? ==> (op.tenant, op.agent) != (tenant, agent)
    ensures AgentIn(db, tenant, agent) && Apply(db, op).value.agents[agent] == db.agents[agent]
  {
  }

  lemma DetailStaysSound(s: State, op: Op, tenant: Id, agent: Id)
    requires NewIds(s, op) && Apply(s.db, op).Some? && Plain(tenant) && Plain(agent) && DetailSound(s, tenant, agent)
    ensures DetailSound(Step(s, op), tenant, agent)
  {
    var s' := Step(s, op);
    if DetailKey(tenant, agent) in s'.cache && AgentIn(s'.db, tenant, agent) {
      if op.UpdateAgentOp? {
        assert DetailKey(tenant, agent) !in ClearedKeys(op);
      }
      AgentOlder(s.db, op, tenant, agent);
    }
  }

  lemma CallKeepsWide(s: State, op: Op)
    requires WideInv(s) && NewIds(s, op) && StoredType(s.db, op)
    ensures WideInv(Step(s, op))
  {
    CallKeepsRoles(s, op);
    if Apply(s.db, op).Some? {
      var s' := Step(s, op);
      ApplyKeepsIntegrity(s, op);
      forall u | u in s'.db.directory.users ensures ContextWithin(s', u) {
        assert ContextWithin(s, u);
      }
      forall t, a | Plain(t) && Plain(a) ensures DetailSound(s', t, a) {
        DetailStaysSound(s, op, t, a);
      }
    }
  }

  /** Entries of other keys do not disturb details and contexts. */
  lemma StoringKeepsSound(s: State, key: string, entry: Entry)
    requires ContextsWithin(s) && DetailsSound(s)
    requires forall u :: u in s.db.directory.users && key == GroupsKey(u) && entry.GroupsEntry? ==> IdentityWithin(s.db, u, entry.groups)
    requires forall t, a :: Plain(t) && Plain(a) && key == DetailKey(t, a) ==> AgentIn(s.db, t, a) && entry == DetailEntry(s.db.agents[a])
    ensures var s' := s.(cache := s.cache[key := entry]); ContextsWithin(s') && DetailsSound(s')
  {
    var s' := s.(cache := s.cache[key := entry]);
    forall u | u in s'.db.directory.users ensures ContextWithin(s', u) {
      assert ContextWithin(s, u);
    }
    forall t, a | Plain(t) && Plain(a) ensures DetailSound(s', t, a) {
      assert DetailSound(s, t, a);
    }
  }

  lemma ReadGroupsKeepsWide(s: State, user: Id)
    requires WideInv(s) && user in s.db.directory.users
    ensures WideInv(ReadGroups(s, user).0)
  {
    ReadGroupsKeepsRoles(s, user);
    FreshIdentityIds(s.db, user);
    forall u | u in s.db.directory.users { UserKeysDiffer(u, user); }
    forall t, a | Plain(t) && Plain(a) { DetailKeyDiffers(user, t, a); }
    StoringKeepsSound(s, GroupsKey(user), GroupsEntry(FreshGroups(s.db, user)));
  }

  lemma ReadRolesKeepsWide(s: State, user: Id)
    requires WideInv(s) && user in s.db.directory.users
    ensures WideInv(ReadRoles(s, user).0) && ReadRoles(s, user).0.db == s.db
  {
    ReadGroupsKeepsWide(s, user);
    ReadRolesIsFresh(s, user);
    forall u | u in s.db.directory.users { UserKeysDiffer(user, u); }
    forall t, a | Plain(t) && Plain(a) { DetailKeyDiffers(user, t, a); }
    var (s1, groups) := ReadGroups(s, user);
    StoringKeepsSound(s1, RolesKey(user), RolesEntry(RolePairs(s1.db, RolePrincipals(s1.db, user, groups))));
  }

  lemma ListEntriesDiffer(t: Id, u: Id, q: ListQuery, t': Id, u': Id, q': ListQuery, a: Id)
    requires Plain(t) && Plain(u) && PlainQuery(q) && Plain(t') && Plain(u') && PlainQuery(q') && Plain(a)
    ensures ListKey(t, u, q) == ListKey(t', u', q') ==> t == t' && u == u' && q == q'
    ensures ListKey(t, u, q) != DetailKey(t', a)
  {
    if ListKey(t, u, q) == ListKey(t', u', q') {
      ListKeyInjective(PREFIX, t, u, q, t', u', q');
    }
    ListSegmentsPlain(PREFIX, t, u, q);
    SameKey(ListSegments(PREFIX, t, u, q), DetailSegments(PREFIX, t', "chat_agent", a));
    assert ListSegments(PREFIX, t, u, q)[1] != DetailSegments(PREFIX, t', "chat_agent", a)[1];
  }

  lemma DetailEntriesDiffer(t: Id, a: Id, t': Id, a': Id)
    requires Plain(t) && Plain(a) && Plain(t') && Plain(a')
    ensures DetailKey(t, a) == DetailKey(t', a') ==> t == t' && a == a'
  {
    var x, y := DetailSegments(PREFIX, t, "chat_agent", a), DetailSegments(PREFIX, t', "chat_agent", a');
    SameKey(x, y);
    assert x[3] == t && y[3] == t' && x[5] == a && y[5] == a';
  }

  lemma ListReadKeepsWide(s: State, tenant: Id, user: Id, q: ListQuery)
    requires WideInv(s) && user in s.db.directory.users && Plain(tenant) && PlainQuery(q)
    ensures WideInv(ReadList(s, tenant, user, q).0)
  {
    ReadRolesKeepsWide(s, user);
    ListReadKeepsRoles(s, tenant, user, q);
    var (s1, access) := ReadAccess(s, user, tenant);
    assert s1 == ReadRoles(s, user).0;
    forall u | u in s.db.directory.users { ResourceKeysDiffer(u, tenant, user, q, ""); }
    forall t, a | Plain(t) && Plain(a) { ListEntriesDiffer(tenant, user, q, t, user, q, a); }
    StoringKeepsSound(s1, ListKey(tenant, user, q), ListEntry(ListPage(s1.db.agents, s1.db.members, tenant, access, q)));
  }

  lemma StoringDetailKeepsWide(s: State, tenant: Id, agent: Id)
    requires WideInv(s) && Plain(tenant) && Plain(agent) && AgentIn(s.db, tenant, agent)
    ensures WideInv(s.(cache := s.cache[DetailKey(tenant, agent) := DetailEntry(s.db.agents[agent])]))
  {
    forall u | u in s.db.directory.users ensures DetailKey(tenant, agent) !in {RolesKey(u), GroupsKey(u)} {
      DetailKeyDiffers(u, tenant, agent);
    }
    forall t, a | Plain(t) && Plain(a) { DetailEntriesDiffer(tenant, agent, t, a); }
    StoringResourceKeepsRoles(s, DetailKey(tenant, agent), DetailEntry(s.db.agents[agent]));
    StoringKeepsSound(s, DetailKey(tenant, agent), DetailEntry(s.db.agents[agent]));
  }

  lemma DetailReadKeepsWide(s: State, tenant: Id, user: Id, agent: Id)
    requires WideInv(s) && user in s.db.directory.users && Plain(tenant) && Plain(agent)
    ensures WideInv(ReadDetail(s, tenant, user, agent).0)
  {
    var key := DetailKey(tenant, agent);
    assert DetailSound(s, tenant, agent);
    if key in s.cache {
      ReadRolesKeepsWide(s, user);
    } else if AgentIn(s.db, tenant, agent) {
      StoringDetailKeepsWide(s, tenant, agent);
      ReadRolesKeepsWide(s.(cache := s.cache[key := DetailEntry(s.db.agents[agent])]), user);
    }
  }

  lemma NextKeepsWide(s: State, e: Event)
    requires WideInv(s) && Admits(Roles, s, e)
    ensures WideInv(Next(s, e))
  {
    match e
    case Call(op) => CallKeepsWide(s, op);
    case RolesRead(user) => ReadRolesKeepsWide(s, user);
    case ListRead(tenant, user, q) => ListReadKeepsWide(s, tenant, user, q);
    case DetailRead(tenant, user, agent) => DetailReadKeepsWide(s, tenant, user, agent);
  }

  lemma {:induction false} WideAlways(s: State, events: seq<Event>)
    requires WideInv(s) && AdmitsAll(Roles, s, events)
    ensures WideInv(Run(s, events)) && Run(s, events).db.directory == s.db.directory
    decreases |events|
  {
    if events != [] {
      NextKeepsWide(s, events[0]);
      DirectoryFixed(s, events[0]);
      WideAlways(Next(s, events[0]), events[1..]);
    }
  }

  /** In every reachable state, whatever grants, memberships, role changes of groups and deletions came before: exactly when a
      detail read is right. */
  lemma DetailFreshIffAlways(s: State, events: seq<Event>, tenant: Id, user: Id, agent: Id)
    requires WideInv(s) && AdmitsAll(Roles, s, events)
    requires user in s.db.directory.users && Plain(tenant) && Plain(agent)
    ensures var end := Run(s, events);
      ReadDetail(end, tenant, user, agent).1 == FreshDetail(end.db, tenant, user, agent) <==>
        if AgentIn(end.db, tenant, agent) then Sees(end, tenant, user, agent) else DetailKey(tenant, agent) !in end.cache
  {
    WideAlways(s, events);
    WideParts(Run(s, events), user, tenant, agent);
    DetailFreshIff(Run(s, events), tenant, user, agent);
  }

  /** ... and when a page is that has to be computed. */
  lemma PageFreshIffAlways(s: State, events: seq<Event>, tenant: Id, user: Id, q: ListQuery)
    requires WideInv(s) && AdmitsAll(Roles, s, events)
    requires user in s.db.directory.users && Plain(tenant) && PlainQuery(q)
    requires ListKey(tenant, user, q) !in Run(s, events).cache
    ensures var end := Run(s, events);
      var right := ReadList(end, tenant, user, q).1 == FreshList(end.db, tenant, user, q);
      && (SeesAll(end, tenant, user, q) ==> right)
      && (Unpaged(end.db.agents, tenant, q) && right ==> SeesAll(end, tenant, user, q))
  {
    WideAlways(s, events);
    WideParts(Run(s, events), user, tenant, "");
    PageFreshIff(Run(s, events), tenant, user, q);
  }

  lemma WideParts(s: State, user: Id, tenant: Id, agent: Id)
    requires WideInv(s) && user in s.db.directory.users && Plain(tenant) && Plain(agent)
    ensures RolesInv(s) && ContextWithin(s, user) && DetailSound(s, tenant, agent)
  {
  }

  /** An empty system is a start for every run. */
  lemma EmptySystemIsWide(directory: Directory)
    requires DirectoryOk(directory) && forall u :: u in directory.users ==> Plain(u)
    ensures WideInv(EmptySystem(directory))
  {
    EmptySystemIsCoherent(directory);
  }
}
