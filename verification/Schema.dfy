/** The rows the handlers read and write, and the users and groups known to the identity provider. */
module Schema {

  type Id = string

  datatype Option<+T> = None | Some(value: T)

  datatype Kind = IdentityUser | IdentityGroup | CustomGroup

  datatype Action = Read | Write | Admin

  const TENANT_GLOBAL_ADMIN := "TENANT_GLOBAL_ADMIN"
  const CHAT_AGENTS_ADMIN := "CHAT_AGENTS_ADMIN"

  /** tenant_members: unique on (tenant, principal, role). */
  datatype RoleRow = RoleRow(tenant: Id, principal: Id, role: string)

  /** custom_group_members. */
  datatype GroupRow = GroupRow(id: Id, tenant: Id, group: Id, principal: Id, action: Action)

  /** chat_agent_members, and the same table of every other resource type. */
  datatype MemberRow = MemberRow(id: Id, tenant: Id, resource: Id, principal: Id, action: Action)

  /** A resource row with its tags; `content` stands for the columns no query here looks at. */
  datatype Agent = Agent(tenant: Id, name: string, content: string, tags: set<Id>, active: bool, created: nat)

  /** The identity provider: who its users and groups are, and which groups each user is in. */
  datatype Directory = Directory(users: set<Id>, groups: set<Id>, memberOf: map<Id, set<Id>>)

  /** Unique on (organization, name, environment). */
  datatype Tenant = Tenant(organization: Id, name: string, environment: string, deletable: bool)

  const SANDBOX := "SANDBOX"

  datatype Db = Db(
    directory: Directory,
    tenants: map<Id, Tenant>,
    principals: map<(Id, Id), Kind>,    // (tenant, principal) -> type
    roles: set<RoleRow>,
    groupRows: set<GroupRow>,
    agents: map<Id, Agent>,
    members: set<MemberRow>)

  // ---------- The user context the identity layer hands to the handlers ----------

  datatype Group = Group(id: Id, kind: Kind)

  datatype TenantRoles = TenantRoles(tenant: Id, roles: seq<string>)

  datatype User = User(id: Id, groups: seq<Group>, tenants: seq<TenantRoles>)
}
