/** Handler calls as steps over the tables and the Redis cache together: what each call writes, what it invalidates,
    and how the three cached readings (groups, tenant roles, lists) fill and use the cache. */
module Coherence {
  import opened CacheKeys
  import opened Schema
  import opened Permissions
  import opened Listing
  import opened Rbac

  datatype Entry =
    | RolesEntry(pairs: set<(Id, string)>)
    | GroupsEntry(groups: set<Group>)
    | ListEntry(items: seq<Item>)
    | DetailEntry(agent: Agent)

  datatype State = State(db: Db, cache: map<string, Entry>)

  const PREFIX := "chat_agents"

  function RolesKey(user: Id): string { Key(TenantsSegments(user)) }
  function GroupsKey(user: Id): string { Key(GroupsSegments(user)) }
  function ListKey(tenant: Id, user: Id, q: ListQuery): string { Key(ListSegments(PREFIX, tenant, user, q)) }
  function DetailKey(tenant: Id, agent: Id): string { Key(DetailSegments(PREFIX, tenant, "chat_agent", agent)) }

  // ---------- Computed from the tables ----------

  function IdpGroups(db: Db, user: Id): set<Id> {
    if user in db.directory.memberOf then db.directory.memberOf[user] else {}
  }

  function CustomGroupsOf(db: Db, user: Id): set<Id> {
    set r | r in db.groupRows && r.principal == user && IsCustomGroup(db, r.tenant, r.group) :: r.group
  }

  /** The user's identity groups that some tenant has registered as principals. */
  function IdentityGroupsOf(db: Db, user: Id): set<Id> {
    set k | k in db.principals && db.principals[k] == IdentityGroup && k.1 in IdpGroups(db, user) :: k.1
  }

  function FreshGroups(db: Db, user: Id): set<Group> {
    (set g | g in IdentityGroupsOf(db, user) :: Group(g, IdentityGroup))
    + (set g | g in CustomGroupsOf(db, user) :: Group(g, CustomGroup))
  }

  function IdsOfKind(groups: set<Group>, kind: Kind): set<Id> {
    set g | g in groups && g.kind == kind :: g.id
  }

  /** The tenant-member rows of some principals: which tenants, with which roles. */
  function RolePairs(db: Db, principals: set<Id>): set<(Id, string)> {
    set r | r in db.roles && r.principal in principals && r.tenant in db.tenants :: (r.tenant, r.role)
  }

  /** Roles are looked up for the user, all identity provider groups and the custom groups of the context. */
  function RolePrincipals(db: Db, user: Id, groups: set<Group>): set<Id> {
    {user} + IdpGroups(db, user) + IdsOfKind(groups, CustomGroup)
  }

  function FreshRoles(db: Db, user: Id): set<(Id, string)> {
    RolePairs(db, RolePrincipals(db, user, FreshGroups(db, user)))
  }

  function AccessWith(user: Id, groups: set<Group>, pairs: set<(Id, string)>, tenant: Id): Access {
    Access((tenant, TENANT_GLOBAL_ADMIN) in pairs || (tenant, CHAT_AGENTS_ADMIN) in pairs,
           {user} + set g | g in groups :: g.id)
  }

  function FreshAccess(db: Db, user: Id, tenant: Id): Access {
    AccessWith(user, FreshGroups(db, user), FreshRoles(db, user), tenant)
  }

  ghost function FreshList(db: Db, tenant: Id, user: Id, q: ListQuery): seq<Item> {
    ListPage(db.agents, db.members, tenant, FreshAccess(db, user, tenant), q)
  }

  function FreshDetail(db: Db, tenant: Id, user: Id, agent: Id): Option<Item> {
    if !AgentIn(db, tenant, agent) then None
    else Some(Item(agent, db.agents[agent], Resolve(db.members, FreshAccess(db, user, tenant), tenant, agent)))
  }

  // ---------- Read through the cache ----------

  function ReadGroups(s: State, user: Id): (State, set<Group>) {
    var key := GroupsKey(user);
    if key in s.cache && s.cache[key].GroupsEntry? then (s, s.cache[key].groups)
    else
      var groups := FreshGroups(s.db, user);
      (s.(cache := s.cache[key := GroupsEntry(groups)]), groups)
  }

  /** The groups are read first, through their own entry; on a miss the roles are computed from what it returned. */
  function ReadRoles(s: State, user: Id): (State, set<(Id, string)>) {
    var (s, groups) := ReadGroups(s, user);
    var key := RolesKey(user);
    if key in s.cache && s.cache[key].RolesEntry? then (s, s.cache[key].pairs)
    else
      var pairs := RolePairs(s.db, RolePrincipals(s.db, user, groups));
      (s.(cache := s.cache[key := RolesEntry(pairs)]), pairs)
  }

  function ReadAccess(s: State, user: Id, tenant: Id): (State, Access) {
    var groups := ReadGroups(s, user).1;
    var (s, pairs) := ReadRoles(s, user);
    (s, AccessWith(user, groups, pairs, tenant))
  }

  ghost function ReadList(s: State, tenant: Id, user: Id, q: ListQuery): (State, seq<Item>) {
    var (s, access) := ReadAccess(s, user, tenant);
    var key := ListKey(tenant, user, q);
    if key in s.cache && s.cache[key].ListEntry? then (s, s.cache[key].items)
    else
      var items := ListPage(s.db.agents, s.db.members, tenant, access, q);
      (s.(cache := s.cache[key := ListEntry(items)]), items)
  }

  /** A detail entry holds the resource only; the caller's permission is resolved on every read, hit or miss. */
  function ReadDetail(s: State, tenant: Id, user: Id, agent: Id): (State, Option<Item>) {
    var key := DetailKey(tenant, agent);
    var hit := key in s.cache && s.cache[key].DetailEntry?;
    if !hit && !AgentIn(s.db, tenant, agent) then (s, None)
    else
      var data := if hit then s.cache[key].agent else s.db.agents[agent];
      var filled := if hit then s else s.(cache := s.cache[key := DetailEntry(data)]);
      var (s, access) := ReadAccess(filled, user, tenant);
      (s, Some(Item(agent, data, Resolve(s.db.members, access, tenant, agent))))
  }

  // ---------- Calls ----------

  datatype Op =
    | SetRoleOp(tenant: Id, principal: Id, kind: Kind, role: string, actor: Id)
    | DeleteRoleOp(tenant: Id, principal: Id, kind: Kind, role: string)
    | SetMemberOp(tenant: Id, group: Id, principal: Id, kind: Kind, action: Action, actor: Id, row: Id)
    | RemoveMemberOp(tenant: Id, group: Id, principal: Id)
    | CreateGroupOp(tenant: Id, group: Id, creator: Id, row: Id)
    | DeleteGroupOp(tenant: Id, group: Id)
    | CreateTenantOp(tenant: Id, organization: Option<Id>, name: string, creator: Id)
    | DeleteTenantOp(tenant: Id)
    | CreateAgentOp(agent: Id, data: Agent, creator: Id, row: Id)
    | DuplicateAgentOp(tenant: Id, source: Id, agent: Id, creator: Id, row: Id, now: nat)
    | UpdateAgentOp(tenant: Id, agent: Id, name: string, content: string, active: bool)
    | DeleteAgentOp(tenant: Id, agent: Id)
    | SetPermissionOp(tenant: Id, agent: Id, principal: Id, kind: Kind, action: Action, row: Id)
    | DeletePermissionOp(tenant: Id, agent: Id, principal: Id, kind: Kind, action: Action)

  function Apply(db: Db, op: Op): Option<Db> {
    match op
    case SetRoleOp(t, p, kind, role, _) => SetRole(db, t, p, kind, role)
    case DeleteRoleOp(t, p, _, role) => DeleteRole(db, t, p, role)
    case SetMemberOp(t, g, p, kind, action, _, row) => SetMember(db, t, g, p, kind, action, row)
    case RemoveMemberOp(t, g, p) => RemoveMember(db, t, g, p)
    case CreateGroupOp(t, g, creator, row) => CreateGroup(db, t, g, creator, row)
    case DeleteGroupOp(t, g) => DeleteGroup(db, t, g)
    case CreateTenantOp(t, organization, name, creator) => CreateTenant(db, t, organization, name, creator)
    case DeleteTenantOp(t) => DeleteTenant(db, t)
    case CreateAgentOp(a, data, creator, row) => CreateAgent(db, a, data, creator, row)
    case DuplicateAgentOp(t, source, a, creator, row, now) => DuplicateAgent(db, t, source, a, creator, row, now)
    case UpdateAgentOp(t, a, name, content, active) => UpdateAgent(db, t, a, name, content, active)
    case DeleteAgentOp(t, a) => DeleteAgent(db, t, a)
    case SetPermissionOp(t, a, p, kind, action, row) => SetPermission(db, t, a, p, kind, action, row)
    case DeletePermissionOp(t, a, p, _, action) => DeletePermission(db, t, a, p, action)
  }

  // ---------- Invalidation ----------

  /** The users a tenant-role change affects, by the type the caller passed: the user, or the group's direct users.
      An identity group has no member rows, so everyone's entries go instead. */
  function UsersToInvalidate(db: Db, principal: Id, kind: Kind): set<Id> {
    match kind
    case IdentityUser => {principal}
    case CustomGroup =>
      set r | r in db.groupRows && r.group == principal && (r.tenant, r.principal) in db.principals
              && db.principals[(r.tenant, r.principal)] == IdentityUser :: r.principal
    case IdentityGroup => {}
  }

  function IfNamed(actor: Id): set<Id> {
    if actor == "" then {} else {actor}
  }

  /** The users whose entries a call clears. */
  function ClearedUsers(db: Db, op: Op): set<Id> {
    match op
    case SetRoleOp(_, p, kind, _, actor) => UsersToInvalidate(db, p, kind) + IfNamed(actor)
    case DeleteRoleOp(_, p, kind, _) => UsersToInvalidate(db, p, kind)
    case SetMemberOp(_, _, p, _, _, actor, _) => {p, actor}
    case RemoveMemberOp(t, g, p) => if GroupMembership(db, t, g, p) == {} then {} else {p}
    case CreateGroupOp(_, _, creator, _) => {creator}
    case CreateTenantOp(_, _, _, creator) => {creator}
    case SetPermissionOp(_, _, p, kind, _, _) => if kind == IdentityUser then {p} else {}
    case DeletePermissionOp(_, _, p, kind, _) => if kind == IdentityUser then {p} else {}
    case _ => {}
  }

  const TENANT_LISTS := [ALL_TENANT_LISTS_PATTERN]

  /** The other patterns it clears. */
  function ClearedPatterns(op: Op): seq<string> {
    match op
    case SetRoleOp(_, _, kind, _, _) => RoleChangePatterns(kind)
    case DeleteRoleOp(_, _, kind, _) => RoleChangePatterns(kind)
    case SetMemberOp(_, _, _, _, _, _, _) => []
    case RemoveMemberOp(_, _, _) => []
    case CreateGroupOp(t, _, _, _) => [ListPattern("custom_groups", t)]
    case DeleteGroupOp(t, _) => [ListPattern("custom_groups", t), DELETED_GROUP_PATTERN]
    case CreateTenantOp(_, _, _, _) => TENANT_LISTS
    case DeleteTenantOp(t) => TENANT_LISTS + [TenantPattern(t), ALL_TENANT_ROLES_PATTERN]
    case CreateAgentOp(_, data, _, _) => [ListPattern(PREFIX, data.tenant)]
    case DuplicateAgentOp(t, _, _, _, _, _) => [ListPattern(PREFIX, t)]
    case UpdateAgentOp(t, _, _, _, _) => [ListPattern(PREFIX, t)]
    case DeleteAgentOp(t, a) => [ListPattern(PREFIX, t), PermissionsPattern(PREFIX, t, "chat_agent", a)]
    case SetPermissionOp(t, a, _, _, _, _) => [PermissionsPattern(PREFIX, t, "res", a), ListPattern(PREFIX, t)]
    case DeletePermissionOp(t, a, _, _, _) => [PermissionsPattern(PREFIX, t, "res", a), ListPattern(PREFIX, t)]
  }

  function RoleChangePatterns(kind: Kind): seq<string> {
    (if kind == IdentityGroup then [ALL_GROUPS_PATTERN, ALL_TENANT_ROLES_PATTERN] else []) + TENANT_LISTS
  }

  /** The single keys it deletes. */
  function ClearedKeys(op: Op): set<string> {
    match op
    case UpdateAgentOp(t, a, _, _, _) => {DetailKey(t, a)}
    case DeleteAgentOp(t, a) => {DetailKey(t, a)}
    case DeleteGroupOp(t, g) => {Key(DetailSegments("custom_groups", t, "group", g))}
    case _ => {}
  }

  predicate Clears(db: Db, op: Op, key: string) {
    || (exists u :: u in ClearedUsers(db, op) && Reached(UserPatterns(u), key))
    || Reached(ClearedPatterns(op), key)
    || key in ClearedKeys(op)
  }

  /** A call that raises changes nothing; one that succeeds changes the rows and drops what it invalidates. */
  function Step(s: State, op: Op): State {
    var applied := Apply(s.db, op);
    if applied.None? then s
    else State(applied.value, map k | k in s.cache && !Clears(s.db, op, k) :: s.cache[k])
  }

  // ---------- Runs: calls and reads interleaved ----------

  datatype Event =
    | Call(op: Op)
    | RolesRead(user: Id)
    | ListRead(tenant: Id, user: Id, q: ListQuery)
    | DetailRead(tenant: Id, user: Id, agent: Id)

  ghost function Next(s: State, e: Event): State {
    match e
    case Call(op) => Step(s, op)
    case RolesRead(user) => ReadRoles(s, user).0
    case ListRead(tenant, user, q) => ReadList(s, tenant, user, q).0
    case DetailRead(tenant, user, agent) => ReadDetail(s, tenant, user, agent).0
  }

  ghost function Run(s: State, events: seq<Event>): State
    decreases |events|
  {
    if events == [] then s else Run(Next(s, events[0]), events[1..])
  }

  function EmptySystem(directory: Directory): State {
    State(Db(directory, map[], map[], {}, {}, map[], {}), map[])
  }

  // ---------- What the calls may assume ----------

  predicate PlainIds(db: Db) {
    && (forall u :: u in db.directory.users ==> Plain(u))
    && (forall t :: t in db.tenants ==> Plain(t))
    && (forall a :: a in db.agents ==> Plain(a))
  }

  /** No cached group entry names the id. */
  ghost predicate UnusedInCache(s: State, id: Id) {
    forall k :: k in s.cache && s.cache[k].GroupsEntry? ==> Group(id, CustomGroup) !in s.cache[k].groups
  }

  /** No tenant has a detail cached under the id. */
  ghost predicate NoDetailCached(s: State, agent: Id) {
    forall t :: Plain(t) ==> DetailKey(t, agent) !in s.cache
  }

  /** Ids made by uuid4 are new and plain. */
  ghost predicate NewIds(s: State, op: Op) {
    match op
    case CreateGroupOp(_, g, _, _) => UnusedPrincipal(s.db, g) && UnusedInCache(s, g)
    case CreateTenantOp(t, _, _, _) => t !in s.db.tenants && Plain(t)
    case CreateAgentOp(a, _, _, _) => a !in s.db.agents && Plain(a) && NoDetailCached(s, a)
    case DuplicateAgentOp(_, _, a, _, _, _) => a !in s.db.agents && Plain(a) && NoDetailCached(s, a)
    case _ => true
  }

  /** Tenant-role calls name the principal with the type it is stored under. */
  predicate StoredType(db: Db, op: Op) {
    match op
    case SetRoleOp(t, p, kind, _, _) => (t, p) in db.principals ==> db.principals[(t, p)] == kind
    case DeleteRoleOp(t, p, kind, _) => (t, p) in db.principals ==> db.principals[(t, p)] == kind
    case _ => true
  }

  predicate OnResources(op: Op) {
    op.CreateAgentOp? || op.DuplicateAgentOp? || op.UpdateAgentOp? || op.DeleteAgentOp? || op.SetPermissionOp? || op.DeletePermissionOp?
  }

  lemma ApplyKeepsIntegrity(s: State, op: Op)
    requires Integrity(s.db) && NewIds(s, op) && Apply(s.db, op).Some?
    ensures Integrity(Apply(s.db, op).value)
    ensures Apply(s.db, op).value.directory == s.db.directory
  {
    if OnResources(op) {
      ResourceCallKeepsIntegrity(s, op);
    } else {
      PrincipalCallKeepsIntegrity(s, op);
    }
  }

  lemma PrincipalCallKeepsIntegrity(s: State, op: Op)
    requires Integrity(s.db) && NewIds(s, op) && Apply(s.db, op).Some? && !OnResources(op)
    ensures Integrity(Apply(s.db, op).value)
    ensures Apply(s.db, op).value.directory == s.db.directory
  {
    match op
    case SetRoleOp(t, p, kind, role, _) => SetRoleKeepsIntegrity(s.db, t, p, kind, role);
    case DeleteRoleOp(t, p, _, role) => DeleteRoleKeepsIntegrity(s.db, t, p, role);
    case SetMemberOp(t, g, p, kind, action, _, row) => SetMemberKeepsIntegrity(s.db, t, g, p, kind, action, row);
    case RemoveMemberOp(t, g, p) => RemoveMemberKeepsIntegrity(s.db, t, g, p);
    case CreateGroupOp(t, g, creator, row) => CreateGroupKeepsIntegrity(s.db, t, g, creator, row);
    case DeleteGroupOp(t, g) => DeleteGroupKeepsIntegrity(s.db, t, g);
    case CreateTenantOp(t, organization, name, creator) => CreateTenantKeepsIntegrity(s.db, t, organization, name, creator);
    case DeleteTenantOp(t) => DeleteTenantKeepsIntegrity(s.db, t);
    case _ =>
  }

  lemma ResourceCallKeepsIntegrity(s: State, op: Op)
    requires Integrity(s.db) && NewIds(s, op) && Apply(s.db, op).Some? && OnResources(op)
    ensures Integrity(Apply(s.db, op).value)
    ensures Apply(s.db, op).value.directory == s.db.directory
  {
    match op
    case CreateAgentOp(a, data, creator, row) => CreateAgentKeepsIntegrity(s.db, a, data, creator, row);
    case DuplicateAgentOp(t, source, a, creator, row, now) =>
      var name := CopyNames.GenerateCopyName(NamesIn(s.db, t), s.db.agents[source].name);
      CreateAgentKeepsIntegrity(s.db, a, Copied(s.db.agents[source], name, now), creator, row);
    case UpdateAgentOp(t, a, name, content, active) => UpdateAgentKeepsIntegrity(s.db, t, a, name, content, active);
    case DeleteAgentOp(t, a) => DeleteAgentKeepsIntegrity(s.db, t, a);
    case SetPermissionOp(t, a, p, kind, action, row) => SetPermissionKeepsIntegrity(s.db, t, a, p, kind, action, row);
    case DeletePermissionOp(t, a, p, _, action) => DeletePermissionKeepsIntegrity(s.db, t, a, p, action);
    case _ =>
  }

  // ---------- Which runs a theorem covers ----------

  /** The principals whose role and member rows count for a user. */
  function Mine(db: Db, user: Id): set<Id> {
    {user} + IdpGroups(db, user) + CustomGroupsOf(db, user)
  }

  predicate IsAdminRole(role: string) {
    role == TENANT_GLOBAL_ADMIN || role == CHAT_AGENTS_ADMIN
  }

  /** Some other row still makes a user administrator of a tenant. */
  predicate OtherAdminRow(db: Db, user: Id, removed: RoleRow) {
    exists r :: r in db.roles && r != removed && r.tenant == removed.tenant && r.principal in Mine(db, user) && IsAdminRole(r.role)
  }

  function CachedGroups(s: State, user: Id): Option<set<Group>> {
    var key := GroupsKey(user);
    if key in s.cache && s.cache[key].GroupsEntry? then Some(s.cache[key].groups) else None
  }

  /** The user's cached groups, if there are any, name the identity group or the user is not in it. */
  predicate KnownInCache(s: State, user: Id, group: Id) {
    CachedGroups(s, user).Some? && group in IdpGroups(s.db, user) ==>
      Group(group, IdentityGroup) in CachedGroups(s, user).value
  }

  /** The calls that do not concern one reader of one tenant behind the cache's back. Excluded are only: setting or deleting,
      for one of the reader's identity groups, a role that makes or unmakes the reader administrator here; deleting the
      tenant; and a grant or membership that registers an identity group of the reader's which the reader's cached groups
      do not name. */
  predicate Spares(s: State, op: Op, tenant: Id, user: Id) {
    match op
    case SetRoleOp(t, p, kind, role, _) =>
      kind == IdentityGroup ==>
        t != tenant || !IsAdminRole(role) || p !in Mine(s.db, user) || FreshAccess(s.db, user, tenant).admin
    case DeleteRoleOp(t, p, kind, role) =>
      kind == IdentityGroup ==>
        || t != tenant || !IsAdminRole(role) || p !in Mine(s.db, user)
        || RoleRow(t, p, role) !in s.db.roles || OtherAdminRow(s.db, user, RoleRow(t, p, role))
    case DeleteTenantOp(t) => t != tenant
    case SetMemberOp(t, _, p, kind, _, _, _) =>
      kind == IdentityGroup && (t, p) !in s.db.principals ==> KnownInCache(s, user, p)
    case SetPermissionOp(t, _, p, kind, _, _) =>
      kind == IdentityGroup && (t, p) !in s.db.principals ==> KnownInCache(s, user, p)
    case _ => true
  }

  /** `Tables`: any call. `Roles`: tenant-role calls pass stored types. `Reader`: and every call spares that reader. */
  datatype Scope = Tables | Roles | Reader(tenant: Id, user: Id)

  /** Every scope takes new ids to be new; reads are by users the identity provider knows. */
  ghost predicate Admits(scope: Scope, s: State, e: Event) {
    match e
    case Call(op) =>
      && NewIds(s, op)
      && (scope != Tables ==> StoredType(s.db, op))
      && (scope.Reader? ==> Spares(s, op, scope.tenant, scope.user))
    case RolesRead(user) => user in s.db.directory.users
    case ListRead(tenant, user, q) => user in s.db.directory.users && Plain(tenant) && PlainQuery(q)
    case DetailRead(tenant, user, agent) => user in s.db.directory.users && Plain(tenant) && Plain(agent)
  }

  ghost predicate AdmitsAll(scope: Scope, s: State, events: seq<Event>)
    decreases |events|
  {
    events == [] || (Admits(scope, s, events[0]) && AdmitsAll(scope, Next(s, events[0]), events[1..]))
  }

  /** Referential integrity and row uniqueness hold after every run of calls and reads, whatever types, roles and
      existing ids the callers pass. */
  lemma {:induction false} IntegrityAlways(s: State, events: seq<Event>)
    requires Integrity(s.db) && AdmitsAll(Tables, s, events)
    ensures Integrity(Run(s, events).db)
    decreases |events|
  {
    if events != [] {
      if events[0].Call? && Apply(s.db, events[0].op).Some? {
        ApplyKeepsIntegrity(s, events[0].op);
      }
      IntegrityAlways(Next(s, events[0]), events[1..]);
    }
  }
}
