/** What a resource list shows, in which order and on which page, told from the rows and the caller alone. */
module ListContents {
  import opened Schema
  import opened Permissions
  import opened CacheKeys
  import opened Listing
  import opened Rbac
  import opened Coherence
  import RoleCoherence
  import Sequences
  import Text

  /** The caller has a member row on the resource. */
  predicate SharedWith(members: set<MemberRow>, tenant: Id, resource: Id, principals: set<Id>, action: Action) {
    exists m :: m in members && m.tenant == tenant && m.resource == resource && m.principal in principals && m.action == action
  }

  /** The highest level any of the caller's rows gives. */
  predicate HighestLevel(members: set<MemberRow>, tenant: Id, resource: Id, principals: set<Id>, level: Option<Action>) {
    if SharedWith(members, tenant, resource, principals, Admin) then level == Some(Admin)
    else if SharedWith(members, tenant, resource, principals, Write) then level == Some(Write)
    else if SharedWith(members, tenant, resource, principals, Read) then level == Some(Read)
    else level == None
  }

  lemma ResolvedIsHighest(members: set<MemberRow>, access: Access, tenant: Id, resource: Id)
    ensures if access.admin then Resolve(members, access, tenant, resource) == Some(Admin)
            else HighestLevel(members, tenant, resource, access.principals, Resolve(members, access, tenant, resource))
  {
    forall action ensures action in ActionsOn(members, tenant, resource, access.principals) <==>
      SharedWith(members, tenant, resource, access.principals, action)
    {
    }
  }

  /** The whole list shows a resource exactly if it belongs to the tenant, passes the active filter, and the caller is an
      administrator or has a member row on it; it shows the row as it is, with ADMIN or the highest level of those rows. */
  lemma WholeListShows(agents: map<Id, Agent>, members: set<MemberRow>, tenant: Id, access: Access, q: ListQuery, item: Item)
    requires Unpaged(agents, tenant, q)
    ensures item in ListPage(agents, members, tenant, access, q) <==>
      && item.id in agents && item.agent == agents[item.id] && item.agent.tenant == tenant
      && (q.active == "all" || (if q.active == "0" then !item.agent.active else item.agent.active))
      && (if access.admin then item.permission == Some(Admin)
          else item.permission.Some? && HighestLevel(members, tenant, item.id, access.principals, item.permission))
  {
    var rows := Rows(agents, members, tenant, access, q);
    WholeList(agents, members, tenant, access, q);
    ArrangeIsSortedPermutation(OrderOf(q), rows, rows.Keys);
    ResolvedIsHighest(members, access, tenant, item.id);
    MemberHasActions(members, tenant, item.id, access.principals);
    BestIsHeaviest(ActionsOn(members, tenant, item.id, access.principals), Read);
    assert item.id in rows ==> rows[item.id] == Item(item.id, agents[item.id], Resolve(members, access, tenant, item.id));
  }

  // ---------- The active filter ----------

  function WithActive(q: ListQuery, active: string): ListQuery {
    q.(active := active)
  }

  /** Any page under "1" holds active resources only, under "0" inactive ones only. */
  lemma ActivePages(agents: map<Id, Agent>, members: set<MemberRow>, tenant: Id, access: Access, q: ListQuery, item: Item)
    requires item in ListPage(agents, members, tenant, access, q)
    ensures q.active == "1" ==> item.agent.active
    ensures q.active == "0" ==> !item.agent.active
  {
    var rows := Rows(agents, members, tenant, access, q);
    ArrangeIsSortedPermutation(OrderOf(q), rows, rows.Keys);
    Sequences.SlicedMembers(Arrange(OrderOf(q), rows, rows.Keys), q.skip, q.limit);
    assert item.id in rows && rows[item.id] == item;
    assert "1" != "all" && "0" != "all" && "1" != "0" by { assert |"1"| != |"all"| && "1"[0] != "0"[0]; }
  }

  /** The two filtered whole lists are the unfiltered one, split: each of its items is on exactly one of them, and nothing else
      is on either. */
  lemma ActiveListsSplit(agents: map<Id, Agent>, members: set<MemberRow>, tenant: Id, access: Access, q: ListQuery, item: Item)
    requires Unpaged(agents, tenant, q)
    ensures var all := ListPage(agents, members, tenant, access, WithActive(q, "all"));
      var on, off := ListPage(agents, members, tenant, access, WithActive(q, "1")), ListPage(agents, members, tenant, access, WithActive(q, "0"));
      && (item in on <==> item in all && item.agent.active)
      && (item in off <==> item in all && !item.agent.active)
      && |all| == |on| + |off|
  {
    assert |"1"| != |"all"| && |"0"| != |"all"| && "1"[0] != "0"[0];
    WholeListShows(agents, members, tenant, access, WithActive(q, "all"), item);
    WholeListShows(agents, members, tenant, access, WithActive(q, "1"), item);
    WholeListShows(agents, members, tenant, access, WithActive(q, "0"), item);
    ActiveSizes(agents, members, tenant, access, q);
  }

  lemma ActiveSizes(agents: map<Id, Agent>, members: set<MemberRow>, tenant: Id, access: Access, q: ListQuery)
    requires Unpaged(agents, tenant, q)
    ensures |ListPage(agents, members, tenant, access, WithActive(q, "all"))| ==
      |ListPage(agents, members, tenant, access, WithActive(q, "1"))| + |ListPage(agents, members, tenant, access, WithActive(q, "0"))|
  {
    WholeListSize(agents, members, tenant, access, WithActive(q, "all"));
    WholeListSize(agents, members, tenant, access, WithActive(q, "1"));
    WholeListSize(agents, members, tenant, access, WithActive(q, "0"));
    RowsSplit(agents, members, tenant, access, q);
    SplitSize(Rows(agents, members, tenant, access, WithActive(q, "all")).Keys,
              Rows(agents, members, tenant, access, WithActive(q, "1")).Keys,
              Rows(agents, members, tenant, access, WithActive(q, "0")).Keys);
  }

  lemma SplitSize(all: set<Id>, on: set<Id>, off: set<Id>)
    requires on !! off && all == on + off
    ensures |all| == |on| + |off|
  {
  }

  lemma RowsSplit(agents: map<Id, Agent>, members: set<MemberRow>, tenant: Id, access: Access, q: ListQuery)
    ensures var all := Rows(agents, members, tenant, access, WithActive(q, "all")).Keys;
      var on, off := Rows(agents, members, tenant, access, WithActive(q, "1")).Keys, Rows(agents, members, tenant, access, WithActive(q, "0")).Keys;
      on !! off && all == on + off
  {
    assert |"1"| != |"all"| && |"0"| != |"all"| && "1"[0] != "0"[0];
  }

  lemma WholeListSize(agents: map<Id, Agent>, members: set<MemberRow>, tenant: Id, access: Access, q: ListQuery)
    requires Unpaged(agents, tenant, q)
    ensures |ListPage(agents, members, tenant, access, q)| == |Rows(agents, members, tenant, access, q).Keys|
  {
    var rows := Rows(agents, members, tenant, access, q);
    WholeList(agents, members, tenant, access, q);
    ArrangeIsSortedPermutation(OrderOf(q), rows, rows.Keys);
  }

  // ---------- Order and pages ----------

  /** What an order by one column says of two resources. */
  predicate InOrder(column: string, direction: string, x: Agent, y: Agent) {
    && (column == "name" && direction != "desc" ==> Text.Leq(x.name, y.name))
    && (column == "name" && direction == "desc" ==> Text.Leq(y.name, x.name))
    && (column == "created_at" && direction != "desc" ==> x.created <= y.created)
    && (column == "created_at" && direction == "desc" ==> x.created >= y.created)
    && (column !in {"name", "created_at"} ==> x.created >= y.created)
  }

  lemma BeforeIsInOrder(o: Order, x: Agent, y: Agent)
    requires Before(o, x, y)
    ensures InOrder(o.column, o.direction, x, y)
  {
    assert "name"[0] != "created_at"[0];
  }

  /** Every page runs by name or creation time in the direction asked for, and newest first if asked for neither. */
  lemma PagesAreOrdered(agents: map<Id, Agent>, members: set<MemberRow>, tenant: Id, access: Access, q: ListQuery, i: nat, j: nat)
    requires i < j < |ListPage(agents, members, tenant, access, q)|
    ensures var page := ListPage(agents, members, tenant, access, q);
      InOrder(q.orderBy, q.direction, page[i].agent, page[j].agent)
  {
    var rows := Rows(agents, members, tenant, access, q);
    var all := Arrange(OrderOf(q), rows, rows.Keys);
    ArrangeIsSortedPermutation(OrderOf(q), rows, rows.Keys);
    SlicedInOrder(all, OrderOf(q), q.skip, q.limit, i, j);
  }

  lemma SlicedInOrder(all: seq<Item>, o: Order, skip: nat, limit: nat, i: nat, j: nat)
    requires i < j < |Sequences.Slice(all, skip, limit)|
    requires forall m, n :: 0 <= m < n < |all| ==> Before(o, all[m].agent, all[n].agent)
    ensures var page := Sequences.Slice(all, skip, limit);
      InOrder(o.column, o.direction, page[i].agent, page[j].agent)
  {
    var from := if skip <= |all| then skip else |all|;
    BeforeIsInOrder(o, all[from + i].agent, all[from + j].agent);
  }

  /** A page is the stretch of the whole list, in the same order and under the same filter, that its offset and limit name: pages
      that follow each other repeat and lose nothing. */
  lemma PageIsStretch(agents: map<Id, Agent>, members: set<MemberRow>, tenant: Id, access: Access, q: ListQuery, size: nat)
    requires Unpaged(agents, tenant, q.(skip := 0, limit := size))
    ensures var whole, page := ListPage(agents, members, tenant, access, q.(skip := 0, limit := size)), ListPage(agents, members, tenant, access, q);
      && |page| == (if q.skip >= |whole| then 0 else if q.skip + q.limit >= |whole| then |whole| - q.skip else q.limit)
      && forall i :: 0 <= i < |page| ==> page[i] == whole[q.skip + i]
  {
    var wide := q.(skip := 0, limit := size);
    WholeList(agents, members, tenant, access, wide);
    assert OrderOf(wide) == OrderOf(q);
    assert Rows(agents, members, tenant, access, wide) == Rows(agents, members, tenant, access, q);
  }

  // ---------- The caller, told from the tables ----------

  /** A row with this principal counts for the user: it is the user, one of the identity provider's groups of the user, or a custom group
      the user is a member of. */
  ghost predicate CountsFor(db: Db, user: Id, principal: Id) {
    || principal == user
    || (user in db.directory.memberOf && principal in db.directory.memberOf[user])
    || InCustomGroup(db, user, principal)
  }

  ghost predicate InCustomGroup(db: Db, user: Id, group: Id) {
    exists t, row, action :: GroupRow(row, t, group, user, action) in db.groupRows
                             && (t, group) in db.principals && db.principals[(t, group)] == CustomGroup
  }

  lemma CustomGroupsAre(db: Db, user: Id, group: Id)
    ensures group in CustomGroupsOf(db, user) <==> InCustomGroup(db, user, group)
  {
    if group in CustomGroupsOf(db, user) {
      var r :| r in db.groupRows && r.principal == user && IsCustomGroup(db, r.tenant, r.group) && r.group == group;
      assert GroupRow(r.id, r.tenant, group, user, r.action) in db.groupRows;
    }
    if t, row, action :| GroupRow(row, t, group, user, action) in db.groupRows
                         && (t, group) in db.principals && db.principals[(t, group)] == CustomGroup {
      assert IsCustomGroup(db, t, group);
    }
  }

  /** A user has the roles of an existing tenant that a row gives to a principal which counts for the user. */
  lemma RolesAre(db: Db, user: Id, tenant: Id, role: string)
    ensures (tenant, role) in FreshRoles(db, user) <==>
      tenant in db.tenants && exists p :: CountsFor(db, user, p) && RoleRow(tenant, p, role) in db.roles
  {
    RoleCoherence.FreshRolesAreMine(db, user);
    forall p ensures p in Mine(db, user) <==> CountsFor(db, user, p) { CustomGroupsAre(db, user, p); }
    if p :| CountsFor(db, user, p) && RoleRow(tenant, p, role) in db.roles {
      assert RoleRow(tenant, p, role).principal in Mine(db, user);
    }
    if (tenant, role) in FreshRoles(db, user) {
      var r :| r in db.roles && r.principal in Mine(db, user) && r.tenant in db.tenants && (r.tenant, r.role) == (tenant, role);
      assert RoleRow(tenant, r.principal, role) == r;
    }
  }

  /** Who administers a tenant's resources of this type: whoever has the global role or the type's own. */
  lemma AdministratorsAre(db: Db, user: Id, tenant: Id)
    ensures FreshAccess(db, user, tenant).admin <==>
      (tenant, "TENANT_GLOBAL_ADMIN") in FreshRoles(db, user) || (tenant, "CHAT_AGENTS_ADMIN") in FreshRoles(db, user)
  {
    assert "TENANT_GLOBAL_ADMIN" == TENANT_GLOBAL_ADMIN && "CHAT_AGENTS_ADMIN" == CHAT_AGENTS_ADMIN;
  }

  /** Whose member rows count: the user's, the user's custom groups' and those of the user's identity groups that some tenant knows. */
  lemma PrincipalsAre(db: Db, user: Id, tenant: Id, principal: Id)
    ensures principal in FreshAccess(db, user, tenant).principals <==>
      || principal == user || InCustomGroup(db, user, principal)
      || (user in db.directory.memberOf && principal in db.directory.memberOf[user]
          && exists t :: (t, principal) in db.principals && db.principals[(t, principal)] == IdentityGroup)
  {
    CustomGroupsAre(db, user, principal);
    GroupNamed(db, user, principal);
    if t :| (t, principal) in db.principals && db.principals[(t, principal)] == IdentityGroup && principal in IdpGroups(db, user) {
      assert (t, principal).1 in IdentityGroupsOf(db, user);
    }
  }

  lemma GroupNamed(db: Db, user: Id, principal: Id)
    ensures principal in (set g | g in FreshGroups(db, user) :: g.id) <==>
      principal in IdentityGroupsOf(db, user) || principal in CustomGroupsOf(db, user)
  {
    if principal in IdentityGroupsOf(db, user) {
      assert Group(principal, IdentityGroup) in FreshGroups(db, user);
    }
    if principal in CustomGroupsOf(db, user) {
      assert Group(principal, CustomGroup) in FreshGroups(db, user);
    }
  }

  /** A detail shows a resource of the tenant, as it is, to anyone, with the level the caller has on it. */
  lemma DetailShows(db: Db, tenant: Id, user: Id, agent: Id)
    ensures var shown, access := FreshDetail(db, tenant, user, agent), FreshAccess(db, user, tenant);
      && (shown.Some? <==> agent in db.agents && db.agents[agent].tenant == tenant)
      && (shown.Some? ==>
          && shown.value.id == agent && shown.value.agent == db.agents[agent]
          && (if access.admin then shown.value.permission == Some(Admin)
              else HighestLevel(db.members, tenant, agent, access.principals, shown.value.permission)))
  {
    ResolvedIsHighest(db.members, FreshAccess(db, user, tenant), tenant, agent);
  }
}
