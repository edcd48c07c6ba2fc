/** A resource grant to a group leaves cached group entries alone: exactly when reads of the resource and computed pages of its
    tenant are right after it, told from the tables and the cache before it. */
module StaleGrants {
  import opened CacheKeys
  import opened Schema
  import opened Permissions
  import opened Listing
  import opened Rbac
  import opened Coherence
  import opened RoleCoherence
  import opened Contexts
  import opened ListCoherence
  import opened StaleCaches
  import Effects

  /** What principals hold on the resource once p is granted a level: p's own level is replaced. */
  function Granted(db: Db, t: Id, a: Id, p: Id, action: Action, principals: set<Id>): set<Action> {
    ActionsOn(db.members, t, a, principals - {p}) + if p in principals then {action} else {}
  }

  /** What the unnamed identity groups of the user hold after the grant weighs no more than what the named principals do. */
  ghost predicate GrantMissesNothing(db: Db, t: Id, a: Id, p: Id, action: Action, u: Id, groups: set<Group>) {
    forall b :: b in Granted(db, t, a, p, action, IdpGroups(db, u) - Named(u, groups)) ==>
      HoldsAtLeast(Granted(db, t, a, p, action, Named(u, groups)), b)
  }

  // ---------- The tables after a grant ----------

  /** A level is held through some one principal. */
  lemma HeldThroughOne(members: set<MemberRow>, t: Id, a: Id, principals: set<Id>, x: Action)
    ensures x in ActionsOn(members, t, a, principals) <==> exists p :: p in principals && x in ActionsOn(members, t, a, {p})
  {
    if x in ActionsOn(members, t, a, principals) {
      var m :| m in members && m.tenant == t && m.resource == a && m.principal in principals && m.action == x;
      assert x in ActionsOn(members, t, a, {m.principal});
    }
    if p :| p in principals && x in ActionsOn(members, t, a, {p}) {
      var m :| m in members && m.tenant == t && m.resource == a && m.principal in {p} && m.action == x;
    }
  }

  lemma ActionsAfterGrant(db: Db, t: Id, a: Id, p: Id, kind: Kind, action: Action, row: Id, principals: set<Id>, b: Id)
    requires Integrity(db) && SetPermission(db, t, a, p, kind, action, row).Some?
    ensures ActionsOn(SetPermission(db, t, a, p, kind, action, row).value.members, t, b, principals) ==
      if b == a then Granted(db, t, a, p, action, principals) else ActionsOn(db.members, t, b, principals)
  {
    forall q { Effects.GrantSetsLevel(db, t, a, p, kind, action, row, t, b, q); }
    OneLevelReplaced(db, SetPermission(db, t, a, p, kind, action, row).value.members, t, a, p, action, principals, b);
  }

  lemma OneLevelReplaced(db: Db, members: set<MemberRow>, t: Id, a: Id, p: Id, action: Action, principals: set<Id>, b: Id)
    requires forall q :: ActionsOn(members, t, b, {q}) == if (b, q) == (a, p) then {action} else ActionsOn(db.members, t, b, {q})
    ensures ActionsOn(members, t, b, principals) ==
      if b == a then Granted(db, t, a, p, action, principals) else ActionsOn(db.members, t, b, principals)
  {
    forall x ensures x in ActionsOn(members, t, b, principals) <==>
      if b == a then x in Granted(db, t, a, p, action, principals) else x in ActionsOn(db.members, t, b, principals)
    {
      HeldThroughOne(members, t, b, principals, x);
      HeldThroughOne(db.members, t, b, principals, x);
      HeldThroughOne(db.members, t, b, principals - {p}, x);
    }
  }

  /** What a context misses after a grant, told from the tables before it. */
  lemma MissedAfterGrant(db: Db, t: Id, a: Id, p: Id, kind: Kind, action: Action, row: Id, u: Id, groups: set<Group>, b: Id)
    requires Integrity(db) && SetPermission(db, t, a, p, kind, action, row).Some?
    ensures MissesNothing(SetPermission(db, t, a, p, kind, action, row).value, t, u, b, groups) <==>
      if b == a then GrantMissesNothing(db, t, a, p, action, u, groups) else MissesNothing(db, t, u, b, groups)
  {
    var db' := SetPermission(db, t, a, p, kind, action, row).value;
    SetPermissionKeepsIntegrity(db, t, a, p, kind, action, row);
    EnsureChangesNothing(db, t, p, kind, u);
    ActionsAfterGrant(db, t, a, p, kind, action, row, Named(u, groups), b);
    ActionsAfterGrant(db, t, a, p, kind, action, row, IdpGroups(db, u) - Named(u, groups), b);
    MissesNothingIff(db', t, u, b, groups);
    MissesNothingIff(db, t, u, b, groups);
  }

  // ---------- The entries after a grant ----------

  /** A step that leaves a user's context as it was and is sound for the resource. */
  ghost predicate KeepsContext(s: State, s': State, t: Id, a: Id, u: Id) {
    && RolesInv(s') && ContextWithin(s', u) && DetailSound(s', t, a) && u in s'.db.directory.users
    && CachedGroups(s', u) == CachedGroups(s, u)
    && FreshAccess(s'.db, u, t).admin == FreshAccess(s.db, u, t).admin
  }

  /** No group entry goes. */
  lemma GroupsKeptByGrant(s: State, t: Id, a: Id, p: Id, kind: Kind, action: Action, row: Id, u: Id)
    requires RolesInv(s) && u in s.db.directory.users && kind != IdentityUser
    requires SetPermission(s.db, t, a, p, kind, action, row).Some?
    ensures CachedGroups(Step(s, SetPermissionOp(t, a, p, kind, action, row)), u) == CachedGroups(s, u)
  {
    GrantMissesGroups(t, a, u);
    var op := SetPermissionOp(t, a, p, kind, action, row);
    assert ClearedUsers(s.db, op) == {} && ClearedKeys(op) == {};
    assert !Clears(s.db, op, GroupsKey(u));
  }

  lemma GrantKeepsContext(s: State, t: Id, a: Id, p: Id, kind: Kind, action: Action, row: Id, u: Id)
    requires RolesInv(s) && ContextWithin(s, u) && DetailSound(s, t, a) && u in s.db.directory.users && kind != IdentityUser
    requires SetPermission(s.db, t, a, p, kind, action, row).Some?
    ensures var s' := Step(s, SetPermissionOp(t, a, p, kind, action, row));
      KeepsContext(s, s', t, a, u) && s'.db == SetPermission(s.db, t, a, p, kind, action, row).value
  {
    var op := SetPermissionOp(t, a, p, kind, action, row);
    CallKeepsRoles(s, op);
    RolesKept(s, op, u);
    ApplyKeepsIntegrity(s, op);
    GroupsKeptByGrant(s, t, a, p, kind, action, row, u);
    DetailStaysSound(s, op, t, a);
  }

  // ---------- The reads after a grant ----------

  /** The user's groups are not cached, the user is an administrator, or the cached groups will miss nothing of resource b after
      p is granted a level on a. */
  ghost predicate SeesAfterGrant(s: State, t: Id, a: Id, p: Id, action: Action, u: Id, b: Id) {
    || CachedGroups(s, u).None?
    || FreshAccess(s.db, u, t).admin
    || if b == a then GrantMissesNothing(s.db, t, a, p, action, u, CachedGroups(s, u).value)
       else MissesNothing(s.db, t, u, b, CachedGroups(s, u).value)
  }

  lemma SeesAfterGrantIff(s: State, s': State, t: Id, a: Id, p: Id, kind: Kind, action: Action, row: Id, u: Id, b: Id)
    requires Integrity(s.db) && SetPermission(s.db, t, a, p, kind, action, row) == Some(s'.db) && KeepsContext(s, s', t, a, u)
    ensures Sees(s', t, u, b) <==> SeesAfterGrant(s, t, a, p, action, u, b)
  {
    if CachedGroups(s, u).Some? {
      MissedAfterGrant(s.db, t, a, p, kind, action, row, u, CachedGroups(s, u).value, b);
    }
  }

  /** After a grant to a group any user's read of the resource is right exactly when the user's groups were not cached, the user
      is an administrator, or the cached groups miss nothing of it. */
  lemma GroupGrantFreshIff(s: State, t: Id, a: Id, p: Id, kind: Kind, action: Action, row: Id, u: Id)
    requires RolesInv(s) && ContextWithin(s, u) && DetailSound(s, t, a) && u in s.db.directory.users && kind != IdentityUser
    requires SetPermission(s.db, t, a, p, kind, action, row).Some?
    ensures var s' := Step(s, SetPermissionOp(t, a, p, kind, action, row));
      ReadDetail(s', t, u, a).1 == FreshDetail(s'.db, t, u, a) <==> SeesAfterGrant(s, t, a, p, action, u, a)
  {
    var s' := Step(s, SetPermissionOp(t, a, p, kind, action, row));
    GrantKeepsContext(s, t, a, p, kind, action, row, u);
    GrantedAgentStays(s.db, t, a, p, kind, action, row);
    SeesAfterGrantIff(s, s', t, a, p, kind, action, row, u, a);
    DetailFreshIff(s', t, u, a);
  }

  lemma GrantedAgentStays(db: Db, t: Id, a: Id, p: Id, kind: Kind, action: Action, row: Id)
    requires SetPermission(db, t, a, p, kind, action, row).Some?
    ensures AgentIn(db, t, a) && SetPermission(db, t, a, p, kind, action, row).value.agents == db.agents
  {
  }

  /** Every page of the tenant is computed anew: it is right if that holds for everything it can show; a whole list only then. */
  lemma GroupGrantPageFreshIff(s: State, t: Id, a: Id, p: Id, kind: Kind, action: Action, row: Id, u: Id, q: ListQuery)
    requires RolesInv(s) && ContextWithin(s, u) && DetailSound(s, t, a) && u in s.db.directory.users && kind != IdentityUser
    requires SetPermission(s.db, t, a, p, kind, action, row).Some? && PlainQuery(q)
    ensures var s' := Step(s, SetPermissionOp(t, a, p, kind, action, row));
      var right := ReadList(s', t, u, q).1 == FreshList(s'.db, t, u, q);
      var spared := forall b :: b in Candidates(s.db.agents, t, q) ==> SeesAfterGrant(s, t, a, p, action, u, b);
      (spared ==> right) && (Unpaged(s.db.agents, t, q) && right ==> spared)
  {
    var op := SetPermissionOp(t, a, p, kind, action, row);
    GrantKeepsContext(s, t, a, p, kind, action, row, u);
    GrantedAgentStays(s.db, t, a, p, kind, action, row);
    PageGoneAfterGrant(s, t, a, p, kind, action, row, u, q);
    ComputedAfterGrant(s, Step(s, op), t, a, p, kind, action, row, u, q);
  }

  lemma PageGoneAfterGrant(s: State, t: Id, a: Id, p: Id, kind: Kind, action: Action, row: Id, u: Id, q: ListQuery)
    requires Plain(t) && Plain(u) && PlainQuery(q) && SetPermission(s.db, t, a, p, kind, action, row).Some?
    ensures ListKey(t, u, q) !in Step(s, SetPermissionOp(t, a, p, kind, action, row)).cache
  {
    TouchedTenantCleared(s.db, SetPermissionOp(t, a, p, kind, action, row), t, u, q);
  }

  lemma ComputedAfterGrant(s: State, s': State, t: Id, a: Id, p: Id, kind: Kind, action: Action, row: Id, u: Id, q: ListQuery)
    requires Integrity(s.db) && SetPermission(s.db, t, a, p, kind, action, row) == Some(s'.db) && s'.db.agents == s.db.agents
    requires KeepsContext(s, s', t, a, u) && ListKey(t, u, q) !in s'.cache && Plain(t) && PlainQuery(q)
    ensures var right := ReadList(s', t, u, q).1 == FreshList(s'.db, t, u, q);
      var spared := forall b :: b in Candidates(s.db.agents, t, q) ==> SeesAfterGrant(s, t, a, p, action, u, b);
      (spared ==> right) && (Unpaged(s.db.agents, t, q) && right ==> spared)
  {
    PageFreshIff(s', t, u, q);
    forall b { SeesAfterGrantIff(s, s', t, a, p, kind, action, row, u, b); }
  }

  /** A group of the user's that the cached groups do not name: a read that was right stays right exactly when the user is an
      administrator or holds that level through what they do name. Whether some tenant knew the group does not matter. */
  lemma UnnamedGrantFreshIff(s: State, t: Id, a: Id, p: Id, kind: Kind, action: Action, row: Id, u: Id, groups: set<Group>)
    requires RolesInv(s) && ContextWithin(s, u) && DetailSound(s, t, a) && u in s.db.directory.users && kind != IdentityUser
    requires SetPermission(s.db, t, a, p, kind, action, row).Some?
    requires ReadDetail(s, t, u, a).1 == FreshDetail(s.db, t, u, a)
    requires CachedGroups(s, u) == Some(groups) && p in IdpGroups(s.db, u) - Named(u, groups)
    ensures var s' := Step(s, SetPermissionOp(t, a, p, kind, action, row));
      ReadDetail(s', t, u, a).1 == FreshDetail(s'.db, t, u, a) <==>
        FreshAccess(s.db, u, t).admin || HoldsAtLeast(ActionsOn(s.db.members, t, a, Named(u, groups)), action)
  {
    SawBefore(s, t, u, a);
    GroupGrantFreshIff(s, t, a, p, kind, action, row, u);
    GrantedAgentStays(s.db, t, a, p, kind, action, row);
    if !FreshAccess(s.db, u, t).admin {
      UnnamedGrant(s.db, t, a, p, action, u, groups);
    }
  }

  lemma SawBefore(s: State, t: Id, u: Id, a: Id)
    requires RolesInv(s) && ContextWithin(s, u) && DetailSound(s, t, a) && u in s.db.directory.users && Plain(t) && Plain(a)
    requires ReadDetail(s, t, u, a).1 == FreshDetail(s.db, t, u, a)
    ensures AgentIn(s.db, t, a) ==> Sees(s, t, u, a)
  {
    DetailFreshIff(s, t, u, a);
  }

  lemma UnnamedGrant(db: Db, t: Id, a: Id, p: Id, action: Action, u: Id, groups: set<Group>)
    requires p in IdpGroups(db, u) - Named(u, groups) && MissesNothing(db, t, u, a, groups)
    ensures GrantMissesNothing(db, t, a, p, action, u, groups) <==>
      HoldsAtLeast(ActionsOn(db.members, t, a, Named(u, groups)), action)
  {
    var held, unnamed := ActionsOn(db.members, t, a, Named(u, groups)), IdpGroups(db, u) - Named(u, groups);
    assert Named(u, groups) - {p} == Named(u, groups);
    assert Granted(db, t, a, p, action, Named(u, groups)) == held;
    MissesNothingIff(db, t, u, a, groups);
    assert ActionsOn(db.members, t, a, unnamed - {p}) <= ActionsOn(db.members, t, a, unnamed);
    assert action in Granted(db, t, a, p, action, unnamed);
  }
}
