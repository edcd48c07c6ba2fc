/** The four ways a user's access to a resource is read: the permission check, the resolved permission, its bulk form
    and the list filters, against one hierarchy ADMIN > WRITE > READ. */
module Permissions {
  import opened Schema

  // ---------- The hierarchy, as the two modules that use it write it down ----------

  function Weight(a: Action): nat {
    match a
    case Admin => 3
    case Write => 2
    case Read => 1
  }

  function AllowedRoles(required: Action): set<Action> {
    match required
    case Read => {Read, Write, Admin}
    case Write => {Write, Admin}
    case Admin => {Admin}
  }

  /** The heaviest action of a set. */
  function Best(actions: set<Action>): Option<Action> {
    if Admin in actions then Some(Admin)
    else if Write in actions then Some(Write)
    else if Read in actions then Some(Read)
    else None
  }

  lemma BestIsHeaviest(actions: set<Action>, a: Action)
    ensures Best(actions) == Some(a) <==> a in actions && forall b :: b in actions ==> Weight(b) <= Weight(a)
    ensures Best(actions) == None <==> actions == {}
  {
    if actions != {} {
      var b :| b in actions;
      assert b == Admin || b == Write || b == Read;
    }
  }

  lemma BestWithOneMore(actions: set<Action>, a: Action)
    ensures Best(actions + {a}) ==
      if Best(actions).Some? && Weight(a) <= Weight(Best(actions).value) then Best(actions) else Some(a)
  {
    assert a == Admin || a == Write || a == Read;
  }

  // ---------- Row queries ----------

  /** The roles `principals` hold on one resource of a tenant. */
  function ActionsOn(members: set<MemberRow>, tenant: Id, resource: Id, principals: set<Id>): set<Action> {
    set m | m in members && m.tenant == tenant && m.resource == resource && m.principal in principals :: m.action
  }

  /** The member subquery of the list, search and dashboard handlers. */
  function MemberOf(members: set<MemberRow>, tenant: Id, principals: set<Id>): set<Id> {
    set m | m in members && m.tenant == tenant && m.principal in principals :: m.resource
  }

  function InTenant(resources: map<Id, Agent>, tenant: Id): set<Id> {
    set r | r in resources && resources[r].tenant == tenant
  }

  /** Membership in the subquery is having some role on the resource. */
  lemma MemberHasActions(members: set<MemberRow>, tenant: Id, resource: Id, principals: set<Id>)
    ensures resource in MemberOf(members, tenant, principals) <==> ActionsOn(members, tenant, resource, principals) != {}
  {
    if a :| a in ActionsOn(members, tenant, resource, principals) {
      var m :| m in members && m.tenant == tenant && m.resource == resource && m.principal in principals && m.action == a;
      assert m.resource in MemberOf(members, tenant, principals);
    }
    if resource in MemberOf(members, tenant, principals) {
      var m :| m in members && m.tenant == tenant && m.principal in principals && m.resource == resource;
      assert m.action in ActionsOn(members, tenant, resource, principals);
    }
  }

  /** What a user context amounts to for one tenant and resource type: administrator or not, and which principals. */
  datatype Access = Access(admin: bool, principals: set<Id>)

  function Resolve(members: set<MemberRow>, access: Access, tenant: Id, resource: Id): Option<Action> {
    if access.admin then Some(Admin) else Best(ActionsOn(members, tenant, resource, access.principals))
  }

  /** The resources of an unfiltered, unpaged list: all of the tenant's, or those the member subquery finds. */
  function Visible(resources: map<Id, Agent>, members: set<MemberRow>, access: Access, tenant: Id): set<Id> {
    if access.admin then InTenant(resources, tenant)
    else InTenant(resources, tenant) * MemberOf(members, tenant, access.principals)
  }

  // ---------- The user context ----------

  function FindTenant(tenants: seq<TenantRoles>, tenant: Id): Option<TenantRoles> {
    if tenants == [] then None
    else if tenants[0].tenant == tenant then Some(tenants[0])
    else FindTenant(tenants[1..], tenant)
  }

  predicate CheckIsAdmin(user: User, tenant: Id, adminRoles: seq<string>) {
    var found := FindTenant(user.tenants, tenant);
    found.Some? && exists r :: r in adminRoles && r in found.value.roles
  }

  function GroupIds(groups: seq<Group>, kind: Kind): seq<Id> {
    if groups == [] then []
    else (if groups[0].kind == kind then [groups[0].id] else []) + GroupIds(groups[1..], kind)
  }

  function Ids(groups: seq<Group>): seq<Id> {
    if groups == [] then [] else [groups[0].id] + Ids(groups[1..])
  }

  /** Principal ids as the permission check, search and the workflow list collect them. */
  function TypedPrincipalIds(user: User): seq<Id> {
    [user.id] + GroupIds(user.groups, IdentityGroup) + GroupIds(user.groups, CustomGroup)
  }

  /** Principal ids as the resolver, the chat agent list and the dashboard collect them: all groups, then the custom
      groups once more. */
  function AllPrincipalIds(user: User): seq<Id> {
    [user.id] + Ids(user.groups) + GroupIds(user.groups, CustomGroup)
  }

  /** Every group of the context is an identity group or a custom group, as the identity layer builds it. */
  predicate TypedGroups(groups: seq<Group>) {
    forall g :: g in groups ==> g.kind != IdentityUser
  }

  lemma {:induction false} GroupIdsSplit(groups: seq<Group>, id: Id)
    requires TypedGroups(groups)
    ensures id in Ids(groups) <==> id in GroupIds(groups, IdentityGroup) || id in GroupIds(groups, CustomGroup)
  {
    if groups != [] {
      assert groups[0] in groups;
      assert forall g :: g in groups[1..] ==> g in groups;
      GroupIdsSplit(groups[1..], id);
    }
  }

  /** Both ways of collecting principal ids name the same principals. */
  lemma SamePrincipals(user: User)
    requires TypedGroups(user.groups)
    ensures (set p | p in TypedPrincipalIds(user)) == (set p | p in AllPrincipalIds(user))
  {
    forall id ensures id in TypedPrincipalIds(user) <==> id in AllPrincipalIds(user) {
      GroupIdsSplit(user.groups, id);
    }
  }

  function AccessOf(user: User, tenant: Id, adminRole: string): Access {
    Access(CheckIsAdmin(user, tenant, [TENANT_GLOBAL_ADMIN, adminRole]), set p | p in AllPrincipalIds(user))
  }

  // ---------- The four readings ----------

  predicate CheckUserPermission(members: set<MemberRow>, adminRole: string, user: User, tenant: Id, resource: Id, required: Action) {
    var found := FindTenant(user.tenants, tenant);
    || (found.Some? && TENANT_GLOBAL_ADMIN in found.value.roles)
    || (found.Some? && adminRole in found.value.roles)
    || exists m :: m in members && m.resource == resource && m.tenant == tenant
                   && m.principal in TypedPrincipalIds(user) && m.action in AllowedRoles(required)
  }

  function ResolveUserPermission(members: set<MemberRow>, adminRole: string, user: User, tenant: Id, resource: Id): Option<Action> {
    Resolve(members, AccessOf(user, tenant, adminRole), tenant, resource)
  }

  /** The chat agent list. */
  function ListVisible(resources: map<Id, Agent>, members: set<MemberRow>, adminRole: string, user: User, tenant: Id): set<Id> {
    Visible(resources, members, AccessOf(user, tenant, adminRole), tenant)
  }

  /** The workflow list: resources joined with their member rows, filtered by principal and made distinct. The join
      does not look at the member row's tenant. */
  function ListJoined(resources: map<Id, Agent>, members: set<MemberRow>, adminRole: string, user: User, tenant: Id): set<Id> {
    if CheckIsAdmin(user, tenant, [TENANT_GLOBAL_ADMIN, adminRole]) then InTenant(resources, tenant)
    else set m | m in members && m.resource in resources && resources[m.resource].tenant == tenant
                 && (m.principal == user.id || m.principal in GroupIds(user.groups, IdentityGroup)
                     || m.principal in GroupIds(user.groups, CustomGroup)) :: m.resource
  }

  // ---------- They agree ----------

  lemma AdminForms(user: User, tenant: Id, adminRole: string)
    ensures CheckIsAdmin(user, tenant, [TENANT_GLOBAL_ADMIN, adminRole]) <==>
      var found := FindTenant(user.tenants, tenant);
      found.Some? && (TENANT_GLOBAL_ADMIN in found.value.roles || adminRole in found.value.roles)
  {
    assert TENANT_GLOBAL_ADMIN in [TENANT_GLOBAL_ADMIN, adminRole] && adminRole in [TENANT_GLOBAL_ADMIN, adminRole];
  }

  /** The check grants exactly the levels up to the resolved permission. */
  lemma CheckIsResolvedLevel(members: set<MemberRow>, adminRole: string, user: User, tenant: Id, resource: Id, required: Action)
    requires TypedGroups(user.groups)
    ensures CheckUserPermission(members, adminRole, user, tenant, resource, required) <==>
      var mine := ResolveUserPermission(members, adminRole, user, tenant, resource);
      mine.Some? && Weight(mine.value) >= Weight(required)
  {
    AdminForms(user, tenant, adminRole);
    SamePrincipals(user);
    var principals := set p | p in AllPrincipalIds(user);
    assert forall p :: p in TypedPrincipalIds(user) <==> p in principals;
    var actions := ActionsOn(members, tenant, resource, principals);
    if Best(actions).Some? {
      BestIsHeaviest(actions, Best(actions).value);
    }
    if a :| a in actions && a in AllowedRoles(required) {
      var m :| m in members && m.tenant == tenant && m.resource == resource && m.principal in principals && m.action == a;
      assert m.principal in TypedPrincipalIds(user);
      assert Best(actions).Some?;
    }
  }

  /** For every resource of the tenant: listed, resolved to something, and granted READ are one and the same. */
  lemma ListResolveCheckAgree(resources: map<Id, Agent>, members: set<MemberRow>, adminRole: string, user: User, tenant: Id, resource: Id)
    requires TypedGroups(user.groups)
    requires resource in resources && resources[resource].tenant == tenant
    ensures resource in ListVisible(resources, members, adminRole, user, tenant) <==>
      ResolveUserPermission(members, adminRole, user, tenant, resource).Some?
    ensures resource in ListVisible(resources, members, adminRole, user, tenant) <==>
      CheckUserPermission(members, adminRole, user, tenant, resource, Read)
  {
    CheckIsResolvedLevel(members, adminRole, user, tenant, resource, Read);
    var principals := set p | p in AllPrincipalIds(user);
    var actions := ActionsOn(members, tenant, resource, principals);
    BestIsHeaviest(actions, Read);
    MemberHasActions(members, tenant, resource, principals);
  }

  /** The join form lists the same resources as the subquery form when member rows carry their resource's tenant. */
  lemma JoinListsTheSame(resources: map<Id, Agent>, members: set<MemberRow>, adminRole: string, user: User, tenant: Id)
    requires TypedGroups(user.groups)
    requires forall m :: m in members ==> m.resource in resources && resources[m.resource].tenant == m.tenant
    ensures ListJoined(resources, members, adminRole, user, tenant) == ListVisible(resources, members, adminRole, user, tenant)
  {
    SamePrincipals(user);
    var principals := set p | p in AllPrincipalIds(user);
    assert forall p :: p in principals <==> p in TypedPrincipalIds(user);
  }

  // ---------- The loops ----------

  /** `max(roles, key=weight)` over the fetched roles. */
  method ResolveMyPermission(roles: seq<Action>) returns (best: Option<Action>)
    ensures best == Best(set a | a in roles)
  {
    if roles == [] {
      return None;
    }
    var top := roles[0];
    for i := 1 to |roles|
      invariant top in roles[..i]
      invariant forall a :: a in roles[..i] ==> Weight(a) <= Weight(top)
    {
      if Weight(roles[i]) > Weight(top) {
        top := roles[i];
      }
    }
    best := Some(top);
    assert roles[..|roles|] == roles;
    BestIsHeaviest((set a | a in roles), top);
  }

  /** The roles a result row list gives one resource. */
  function RolesOf(rows: seq<(Id, Action)>, resource: Id): set<Action> {
    set i | 0 <= i < |rows| && rows[i].0 == resource :: rows[i].1
  }

  /** The dictionary fold over (resource, role) rows, in whatever order the query returns them. */
  method ResolveMyPermissionsBulk(rows: seq<(Id, Action)>) returns (result: map<Id, Action>)
    ensures forall resource :: (if resource in result then Some(result[resource]) else None) == Best(RolesOf(rows, resource))
  {
    result := map[];
    for i := 0 to |rows|
      invariant forall resource ::
        (if resource in result then Some(result[resource]) else None) == Best(RolesOf(rows[..i], resource))
    {
      var (resource, role) := rows[i];
      ghost var before := result;
      if resource !in result || Weight(role) > Weight(result[resource]) {
        result := result[resource := role];
      }
      forall other ensures (if other in result then Some(result[other]) else None) == Best(RolesOf(rows[..i + 1], other)) {
        RolesOfNext(rows, i, other);
        var earlier := RolesOf(rows[..i], other);
        assert (if other in before then Some(before[other]) else None) == Best(earlier);
        BestWithOneMore(earlier, role);
        assert earlier + {} == earlier;
      }
    }
    assert rows[..|rows|] == rows;
  }

  lemma RolesOfNext(rows: seq<(Id, Action)>, i: nat, resource: Id)
    requires i < |rows|
    ensures RolesOf(rows[..i + 1], resource) ==
      RolesOf(rows[..i], resource) + if rows[i].0 == resource then {rows[i].1} else {}
  {
    var a, b := rows[..i], rows[..i + 1];
    assert forall j :: 0 <= j < i ==> a[j] == b[j];
    assert b[i] == rows[i];
  }

  /** On rows that are exactly the query's, the bulk value of every requested id is the single-resource permission,
      absence included, and unrequested ids are absent. */
  lemma BulkIsPointwise(rows: seq<(Id, Action)>, members: set<MemberRow>, tenant: Id, requested: set<Id>, principals: set<Id>, resource: Id)
    requires forall r, a :: (r, a) in rows <==> r in requested && a in ActionsOn(members, tenant, r, principals)
    ensures Best(RolesOf(rows, resource)) ==
      if resource in requested then Best(ActionsOn(members, tenant, resource, principals)) else None
  {
    forall a ensures a in RolesOf(rows, resource) <==> (resource, a) in rows {
      if a in RolesOf(rows, resource) {
        var i :| 0 <= i < |rows| && rows[i].0 == resource && rows[i].1 == a;
        assert rows[i] == (resource, a);
      }
    }
    if resource in requested {
      assert RolesOf(rows, resource) == ActionsOn(members, tenant, resource, principals);
    } else {
      assert RolesOf(rows, resource) == {};
    }
  }

  // ---------- Who the caller is ----------

  lemma {:induction false} IdsAre(groups: seq<Group>, id: Id)
    ensures id in Ids(groups) <==> exists g :: g in groups && g.id == id
  {
    if groups != [] {
      IdsAre(groups[1..], id);
      assert groups == [groups[0]] + groups[1..];
    }
  }

  lemma {:induction false} GroupIdsAre(groups: seq<Group>, kind: Kind, id: Id)
    ensures id in GroupIds(groups, kind) <==> Group(id, kind) in groups
  {
    if groups != [] {
      GroupIdsAre(groups[1..], kind, id);
      assert groups == [groups[0]] + groups[1..];
    }
  }

  /** The caller's principals are the user and the groups of the context. */
  lemma PrincipalIdsAre(user: User, id: Id)
    ensures id in AllPrincipalIds(user) <==> id == user.id || exists g :: g in user.groups && g.id == id
  {
    IdsAre(user.groups, id);
    GroupIdsAre(user.groups, CustomGroup, id);
    if id in GroupIds(user.groups, CustomGroup) {
      assert Group(id, CustomGroup).id == id;
    }
  }

  /** The caller holds a role of a tenant if the first entry of the context for that tenant names it. */
  ghost predicate Holds(user: User, tenant: Id, role: string) {
    exists i :: 0 <= i < |user.tenants| && user.tenants[i].tenant == tenant && role in user.tenants[i].roles
                && forall j :: 0 <= j < i ==> user.tenants[j].tenant != tenant
  }

  /** An administrator is a caller who holds one of the administrating roles. */
  lemma AdminHolds(user: User, tenant: Id, adminRoles: seq<string>)
    ensures CheckIsAdmin(user, tenant, adminRoles) <==> exists role :: role in adminRoles && Holds(user, tenant, role)
  {
    FirstEntry(user.tenants, tenant);
    forall role ensures Holds(user, tenant, role) <==>
      FindTenant(user.tenants, tenant).Some? && role in FindTenant(user.tenants, tenant).value.roles
    {
    }
  }

  lemma {:induction false} FirstEntry(tenants: seq<TenantRoles>, tenant: Id)
    ensures FindTenant(tenants, tenant).None? ==> forall i :: 0 <= i < |tenants| ==> tenants[i].tenant != tenant
    ensures FindTenant(tenants, tenant).Some? ==>
      exists i :: 0 <= i < |tenants| && tenants[i] == FindTenant(tenants, tenant).value && tenants[i].tenant == tenant
                  && forall j :: 0 <= j < i ==> tenants[j].tenant != tenant
  {
    if tenants != [] && tenants[0].tenant != tenant {
      FirstEntry(tenants[1..], tenant);
      var found := FindTenant(tenants[1..], tenant);
      if found.Some? {
        var i :| 0 <= i < |tenants[1..]| && tenants[1..][i] == found.value && tenants[1..][i].tenant == tenant
                 && forall j :: 0 <= j < i ==> tenants[1..][j].tenant != tenant;
        assert tenants[i + 1] == found.value;
        assert forall j :: 0 < j < i + 1 ==> tenants[j] == tenants[1..][j - 1];
      }
    }
  }
}
