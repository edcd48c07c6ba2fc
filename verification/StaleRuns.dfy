/** One run from the empty system for each way a cached reading goes wrong. */
module StaleRuns {
  import opened CacheKeys
  import opened Schema
  import opened Permissions
  import opened Listing
  import opened Rbac
  import opened Coherence
  import opened RoleCoherence
  import opened Contexts
  import opened ListCoherence
  import opened StaleCaches
  import opened StalePages
  import opened StaleGrants
  import CopyNames

  const ANN := "ann"
  const BOB := "bob"
  const TEAM := "team"
  const T := "t"
  const A := "a"
  const MINE := ListQuery(0, 10, "", "", "all")

  /** Ann is in the team; Bob creates everything. */
  const DIRECTORY := Directory({ANN, BOB}, {TEAM}, map[ANN := {TEAM}])

  const TENANT := Tenant("o", "n", SANDBOX, true)
  const NEW_TENANT := CreateTenantOp(T, Some("o"), "n", BOB)

  const AGENT := Agent(T, "x", "", {}, true, 0)

  function Start(): State { EmptySystem(DIRECTORY) }

  ghost predicate RolesWrong(s: State, u: Id) {
    ReadRoles(s, u).1 != FreshRoles(s.db, u)
  }

  ghost predicate ListWrong(s: State, u: Id) {
    ReadList(s, T, u, MINE).1 != FreshList(s.db, T, u, MINE)
  }

  ghost predicate DetailWrong(s: State, u: Id, a: Id) {
    ReadDetail(s, T, u, a).1 != FreshDetail(s.db, T, u, a)
  }

  lemma Words()
    ensures Plain(ANN) && Plain(BOB) && Plain(TEAM) && Plain(T) && Plain(A) && PlainQuery(MINE) && NoKeyWord(BOB, MINE)
    ensures ANN != BOB && TEAM !in {ANN, BOB} && "READER" != TENANT_GLOBAL_ADMIN && "READER" != CHAT_AGENTS_ADMIN
    ensures CHAT_AGENTS_ADMIN != TENANT_GLOBAL_ADMIN && BOB != ""
  {
    assert ANN[0] != BOB[0] && |TEAM| != |ANN| && |TEAM| != |BOB|;
    assert "READER"[0] == 'R' && TENANT_GLOBAL_ADMIN[0] == 'T' && CHAT_AGENTS_ADMIN[0] == 'C';
  }

  lemma StartIsCoherent()
    ensures RolesInv(Start())
  {
    Words();
    EmptySystemIsCoherent(DIRECTORY);
  }

  lemma NothingCached(db: Db, u: Id)
    requires RolesInv(State(db, map[]))
    ensures WideInv(State(db, map[])) && ReaderInv(State(db, map[]), T, u)
  {
  }

  // ---------- The tables after the first calls ----------

  const DB_TENANT := Db(DIRECTORY, map[T := TENANT], map[(T, BOB) := IdentityUser], {RoleRow(T, BOB, TENANT_GLOBAL_ADMIN)}, {}, map[], {})

  const DB_AGENT := DB_TENANT.(agents := map[A := AGENT], members := {MemberRow("m", T, A, BOB, Admin)})

  function WithTeamRole(db: Db, role: string): Db {
    db.(principals := db.principals[(T, TEAM) := IdentityGroup], roles := db.roles + {RoleRow(T, TEAM, role)})
  }

  /** A call on an empty cache leaves it empty. */
  lemma StepOnEmptyCache(db: Db, op: Op, db': Db)
    requires Apply(db, op) == Some(db')
    ensures Step(State(db, map[]), op) == State(db', map[])
  {
  }

  lemma TenantMade()
    ensures Step(Start(), NEW_TENANT) == State(DB_TENANT, map[])
  {
    var empty := Start().db;
    assert empty.tenants[T := TENANT] == map[T := TENANT];
    assert empty.principals[(T, BOB) := IdentityUser] == map[(T, BOB) := IdentityUser];
    assert empty.roles + {RoleRow(T, BOB, TENANT_GLOBAL_ADMIN)} == {RoleRow(T, BOB, TENANT_GLOBAL_ADMIN)};
    assert Apply(Start().db, NEW_TENANT) == Some(DB_TENANT);
    StepOnEmptyCache(Start().db, NEW_TENANT, DB_TENANT);
  }

  lemma AgentMade()
    ensures Step(State(DB_TENANT, map[]), CreateAgentOp(A, AGENT, BOB, "m")) == State(DB_AGENT, map[])
  {
    assert NamesIn(DB_TENANT, T) == map[];
    assert DB_TENANT.agents[A := AGENT] == map[A := AGENT];
    assert DB_TENANT.members + {MemberRow("m", T, A, BOB, Admin)} == {MemberRow("m", T, A, BOB, Admin)};
    assert Apply(DB_TENANT, CreateAgentOp(A, AGENT, BOB, "m")) == Some(DB_AGENT);
    StepOnEmptyCache(DB_TENANT, CreateAgentOp(A, AGENT, BOB, "m"), DB_AGENT);
  }

  lemma TeamGetsRole(db: Db, role: string)
    requires db == DB_TENANT || db == DB_AGENT
    ensures Step(State(db, map[]), SetRoleOp(T, TEAM, IdentityGroup, role, BOB)) == State(WithTeamRole(db, role), map[])
  {
    Words();
    StepOnEmptyCache(db, SetRoleOp(T, TEAM, IdentityGroup, role, BOB), WithTeamRole(db, role));
  }

  /** Which principals and roles Ann has in such tables. */
  lemma AnnsRoles(db: Db, role: string)
    requires db == DB_TENANT || db == DB_AGENT
    ensures Mine(db, ANN) == {ANN, TEAM} && FreshRoles(db, ANN) == {}
    ensures Mine(WithTeamRole(db, role), ANN) == {ANN, TEAM} && FreshRoles(WithTeamRole(db, role), ANN) == {(T, role)}
  {
    Words();
    var db' := WithTeamRole(db, role);
    assert CustomGroupsOf(db, ANN) == {} && CustomGroupsOf(db', ANN) == {};
    assert IdpGroups(db, ANN) == {TEAM};
    FreshRolesAreMine(db, ANN);
    FreshRolesAreMine(db', ANN);
    assert forall r :: r in db.roles ==> r.principal == BOB;
    assert RoleRow(T, TEAM, role) in db'.roles;
  }

  lemma {:induction false} RunAppend(s: State, events: seq<Event>, e: Event)
    ensures Run(s, events + [e]) == Next(Run(s, events), e)
    decreases |events|
  {
    if events == [] {
      assert [e][1..] == [];
    } else {
      assert (events + [e])[1..] == events[1..] + [e];
      RunAppend(Next(s, events[0]), events[1..], e);
    }
  }

  // ---------- The runs ----------

  lemma RolesReadCaches(s: State, u: Id)
    requires RolesInv(s) && u in s.db.directory.users
    ensures var s' := ReadRoles(s, u).0; s'.db == s.db && RolesKey(u) in s'.cache && GroupsKey(u) in s'.cache
  {
    UserKeysDiffer(u, u);
  }

  lemma ListReadCaches(s: State, t: Id, u: Id, q: ListQuery)
    requires Plain(t) && Plain(u) && PlainQuery(q)
    ensures var s' := ReadList(s, t, u, q).0; s'.db == s.db && ListKey(t, u, q) in s'.cache
  {
  }

  /** The tables hold together after each of the first calls. */
  lemma FirstStatesCoherent(role: string)
    ensures RolesInv(State(DB_TENANT, map[])) && RolesInv(State(DB_AGENT, map[]))
    ensures RolesInv(State(WithTeamRole(DB_TENANT, role), map[]))
  {
    Words();
    StartIsCoherent();
    TenantMade();
    CallKeepsRoles(Start(), NEW_TENANT);
    AgentMade();
    CallKeepsRoles(State(DB_TENANT, map[]), CreateAgentOp(A, AGENT, BOB, "m"));
    TeamGetsRole(DB_TENANT, role);
    CallKeepsRoles(State(DB_TENANT, map[]), SetRoleOp(T, TEAM, IdentityGroup, role, BOB));
  }

  /** Ann's roles, cached after the team got a role. */
  ghost function RolesCached(role: string): State {
    ReadRoles(State(WithTeamRole(DB_TENANT, role), map[]), ANN).0
  }

  lemma RolesCachedCoherent(role: string)
    ensures RolesInv(RolesCached(role)) && RolesCached(role).db == WithTeamRole(DB_TENANT, role)
    ensures RolesKey(ANN) in RolesCached(role).cache
  {
    FirstStatesCoherent(role);
    ReadRolesIsFresh(State(WithTeamRole(DB_TENANT, role), map[]), ANN);
    RolesReadCaches(State(WithTeamRole(DB_TENANT, role), map[]), ANN);
  }

  /** Create the tenant, give the team a role, read Ann's roles, and one call more. */
  function RoleRun(role: string, op: Op): seq<Event> {
    [Call(NEW_TENANT), Call(SetRoleOp(T, TEAM, IdentityGroup, role, BOB)), RolesRead(ANN), Call(op)]
  }

  lemma RoleRunEnds(role: string, op: Op)
    ensures Run(Start(), RoleRun(role, op)) == Step(RolesCached(role), op)
  {
    RunFour(Start(), RoleRun(role, op));
    TenantMade();
    TeamGetsRole(DB_TENANT, role);
  }

  /** The team becomes administrator, passed as a user: Ann's cached roles miss it. */
  lemma RoleSetUnseen()
    ensures RolesWrong(Run(Start(), RoleRun("READER", SetRoleOp(T, TEAM, IdentityUser, CHAT_AGENTS_ADMIN, BOB))), ANN)
  {
    RolesCachedCoherent("READER");
    RoleSetStale(RolesCached("READER"));
    RoleRunEnds("READER", SetRoleOp(T, TEAM, IdentityUser, CHAT_AGENTS_ADMIN, BOB));
  }

  lemma RoleSetStale(s: State)
    requires RolesInv(s) && s.db == WithTeamRole(DB_TENANT, "READER") && RolesKey(ANN) in s.cache
    ensures RolesWrong(Step(s, SetRoleOp(T, TEAM, IdentityUser, CHAT_AGENTS_ADMIN, BOB)), ANN)
  {
    TeamAsUser();
    SetRoleFreshIff(s, T, TEAM, IdentityUser, CHAT_AGENTS_ADMIN, BOB, ANN);
  }

  /** Passed as a user, the team stands for nobody but itself. */
  lemma TeamAsUser()
    ensures var db := WithTeamRole(DB_TENANT, "READER");
      && SetRole(db, T, TEAM, IdentityUser, CHAT_AGENTS_ADMIN).Some? && ANN in db.directory.users
      && ANN !in UsersToInvalidate(db, TEAM, IdentityUser) && ANN !in IfNamed(BOB)
      && TEAM in Mine(db, ANN) && (T, CHAT_AGENTS_ADMIN) !in FreshRoles(db, ANN)
    ensures Plain(TEAM) && Plain(BOB)
  {
    Words();
    AnnsRoles(DB_TENANT, "READER");
  }

  /** The team's role is deleted, passed as a user's: Ann's cached roles keep it. */
  lemma RoleDeletionUnseen()
    ensures RolesWrong(Run(Start(), RoleRun(CHAT_AGENTS_ADMIN, DeleteRoleOp(T, TEAM, IdentityUser, CHAT_AGENTS_ADMIN))), ANN)
  {
    RolesCachedCoherent(CHAT_AGENTS_ADMIN);
    RoleDeletionStale(RolesCached(CHAT_AGENTS_ADMIN));
    RoleRunEnds(CHAT_AGENTS_ADMIN, DeleteRoleOp(T, TEAM, IdentityUser, CHAT_AGENTS_ADMIN));
  }

  lemma RoleDeletionStale(s: State)
    requires RolesInv(s) && s.db == WithTeamRole(DB_TENANT, CHAT_AGENTS_ADMIN) && RolesKey(ANN) in s.cache
    ensures RolesWrong(Step(s, DeleteRoleOp(T, TEAM, IdentityUser, CHAT_AGENTS_ADMIN)), ANN)
  {
    TeamAdminAsUser();
    DeleteRoleFreshIff(s, T, TEAM, IdentityUser, CHAT_AGENTS_ADMIN, ANN);
  }

  lemma TeamAdminAsUser()
    ensures var db := WithTeamRole(DB_TENANT, CHAT_AGENTS_ADMIN);
      && DeleteRole(db, T, TEAM, CHAT_AGENTS_ADMIN).Some? && ANN in db.directory.users
      && ANN !in UsersToInvalidate(db, TEAM, IdentityUser)
      && TEAM in Mine(db, ANN) && RoleRow(T, TEAM, CHAT_AGENTS_ADMIN) in db.roles
      && forall other :: other != TEAM && other in Mine(db, ANN) ==> RoleRow(T, other, CHAT_AGENTS_ADMIN) !in db.roles
    ensures Plain(TEAM)
  {
    Words();
    AnnsRoles(DB_TENANT, CHAT_AGENTS_ADMIN);
  }

  // ---------- Pages and details ----------

  /** Create the tenant and an agent in it, read something, and one call more. */
  function AgentRun(read: Event, op: Op): seq<Event> {
    [Call(NEW_TENANT), Call(CreateAgentOp(A, AGENT, BOB, "m")), read, Call(op)]
  }

  lemma PageRunEnds(u: Id, op: Op)
    ensures Run(Start(), AgentRun(ListRead(T, u, MINE), op)) == Step(PageState(u), op)
  {
    AgentRunEnds(ListRead(T, u, MINE), op);
  }

  lemma AgentRunEnds(read: Event, op: Op)
    ensures Run(Start(), AgentRun(read, op)) == Step(Next(State(DB_AGENT, map[]), read), op)
  {
    RunFour(Start(), AgentRun(read, op));
    TenantMade();
    AgentMade();
  }

  /** A user's page is cached, and right, over given tables. */
  ghost predicate PageReady(s: State, db: Db, u: Id) {
    RolesInv(s) && ContextCovers(s, u) && PageRight(s, T, u, MINE) && s.db == db && ListKey(T, u, MINE) in s.cache
  }

  lemma PageCached(db: Db, u: Id)
    requires RolesInv(State(db, map[])) && u in db.directory.users
    ensures PageReady(ReadList(State(db, map[]), T, u, MINE).0, db, u)
  {
    NothingCached(db, u);
    PageRead(State(db, map[]), u);
  }

  lemma PageRead(s: State, u: Id)
    requires ReaderInv(s, T, u) && u in s.db.directory.users
    ensures PageReady(ReadList(s, T, u, MINE).0, s.db, u)
  {
    PlainWords();
    PlainUser(s, u);
    var read := ReadList(s, T, u, MINE).0;
    assert ReaderInv(read, T, u) by { ListReadKeepsReader(s, T, u, MINE, T, u); }
    assert read.db == s.db && ListKey(T, u, MINE) in read.cache by { ListReadCaches(s, T, u, MINE); }
    ReaderPageReady(read, u);
  }

  lemma PlainUser(s: State, u: Id)
    requires RolesInv(s) && u in s.db.directory.users
    ensures Plain(u)
  {
  }

  lemma PlainWords()
    ensures Plain(T) && PlainQuery(MINE)
  {
  }

  lemma ReaderPageReady(s: State, u: Id)
    requires ReaderInv(s, T, u) && ListKey(T, u, MINE) in s.cache
    ensures PageReady(s, s.db, u)
  {
    Words();
  }

  /** Ann's principals hold nothing, and the query can show the agent. */
  lemma AnnHoldsNothing()
    ensures Mine(DB_AGENT, ANN) == {ANN, TEAM} && !FreshAccess(DB_AGENT, ANN, T).admin
    ensures InTenant(DB_AGENT.agents, T) == {A} && A in Candidates(DB_AGENT.agents, T, MINE)
    ensures !HoldAdmin(DB_AGENT.agents, DB_AGENT.members, {ANN, TEAM}, T, MINE)
  {
    Words();
    AnnsRoles(DB_AGENT, "");
    assert ActionsOn(DB_AGENT.members, T, A, {ANN, TEAM}) == {};
    assert A in Candidates(DB_AGENT.agents, T, MINE);
  }

  ghost function PageState(u: Id): State {
    ReadList(State(DB_AGENT, map[]), T, u, MINE).0
  }

  lemma AdminRoleStale(s: State)
    requires PageReady(s, DB_AGENT, ANN)
    ensures ListWrong(Step(s, SetRoleOp(T, TEAM, IdentityGroup, CHAT_AGENTS_ADMIN, BOB)), ANN)
  {
    Words();
    TeamRoleReachesAnn();
    GroupRolePageFreshIff(s, T, TEAM, CHAT_AGENTS_ADMIN, BOB, T, ANN, MINE);
  }

  lemma TeamRoleReachesAnn()
    ensures SetRole(DB_AGENT, T, TEAM, IdentityGroup, CHAT_AGENTS_ADMIN).Some?
    ensures Unpaged(DB_AGENT.agents, T, MINE) && TEAM in Mine(DB_AGENT, ANN) && IsAdminRole(CHAT_AGENTS_ADMIN)
    ensures ANN !in IfNamed(BOB) && ANN in DB_AGENT.directory.users && !FreshAccess(DB_AGENT, ANN, T).admin
    ensures !HoldAdmin(DB_AGENT.agents, DB_AGENT.members, Mine(DB_AGENT, ANN), T, MINE)
  {
    Words();
    AnnHoldsNothing();
  }

  lemma AdminRoleStaleOnceCached()
    ensures ListWrong(Step(PageState(ANN), SetRoleOp(T, TEAM, IdentityGroup, CHAT_AGENTS_ADMIN, BOB)), ANN)
  {
    Words();
    FirstStatesCoherent("");
    PageCached(DB_AGENT, ANN);
    AdminRoleStale(PageState(ANN));
  }

  /** The team becomes administrator: Ann's empty list stays empty. */
  lemma AdminRoleUnseen()
    ensures ListWrong(Run(Start(), AgentRun(ListRead(T, ANN, MINE), SetRoleOp(T, TEAM, IdentityGroup, CHAT_AGENTS_ADMIN, BOB))), ANN)
  {
    AdminRoleStaleOnceCached();
    PageRunEnds(ANN, SetRoleOp(T, TEAM, IdentityGroup, CHAT_AGENTS_ADMIN, BOB));
  }

  const DB_ADMIN := WithTeamRole(DB_AGENT, CHAT_AGENTS_ADMIN)

  lemma AnnIsAdminByTeam()
    ensures RoleRow(T, TEAM, CHAT_AGENTS_ADMIN) in DB_ADMIN.roles && TEAM in Mine(DB_ADMIN, ANN) && IsAdminRole(CHAT_AGENTS_ADMIN)
    ensures Unpaged(DB_ADMIN.agents, T, MINE) && T in DB_ADMIN.tenants && ANN in DB_ADMIN.directory.users
    ensures !OtherAdminRow(DB_ADMIN, ANN, RoleRow(T, TEAM, CHAT_AGENTS_ADMIN))
    ensures !HoldAdmin(DB_ADMIN.agents, DB_ADMIN.members, Mine(DB_ADMIN, ANN), T, MINE)
  {
    Words();
    AnnHoldsNothing();
    AnnsRoles(DB_AGENT, CHAT_AGENTS_ADMIN);
    assert forall r :: r in DB_ADMIN.roles ==> r.principal == BOB || r == RoleRow(T, TEAM, CHAT_AGENTS_ADMIN);
  }

  lemma AdminRemovalStale(s: State)
    requires PageReady(s, DB_ADMIN, ANN)
    ensures ListWrong(Step(s, DeleteRoleOp(T, TEAM, IdentityGroup, CHAT_AGENTS_ADMIN)), ANN)
  {
    Words();
    AnnIsAdminByTeam();
    GroupRoleRemovalPageFreshIff(s, T, TEAM, CHAT_AGENTS_ADMIN, T, ANN, MINE);
  }

  function AdminRun(): seq<Event> {
    [Call(NEW_TENANT), Call(CreateAgentOp(A, AGENT, BOB, "m")),
     Call(SetRoleOp(T, TEAM, IdentityGroup, CHAT_AGENTS_ADMIN, BOB)), ListRead(T, ANN, MINE)]
  }

  ghost function AdminPageState(): State {
    ReadList(State(DB_ADMIN, map[]), T, ANN, MINE).0
  }

  lemma AdminRunEnds()
    ensures Run(Start(), AdminRun()) == AdminPageState()
  {
    RunFour(Start(), AdminRun());
    TenantMade();
    AgentMade();
    TeamGetsRole(DB_AGENT, CHAT_AGENTS_ADMIN);
  }

  /** The team is administrator, Ann's list is cached, the team stops being administrator: Ann's list keeps its agent. */
  lemma AdminRemovalUnseen()
    ensures ListWrong(Run(Start(), AdminRun() + [Call(DeleteRoleOp(T, TEAM, IdentityGroup, CHAT_AGENTS_ADMIN))]), ANN)
  {
    RunAppend(Start(), AdminRun(), Call(DeleteRoleOp(T, TEAM, IdentityGroup, CHAT_AGENTS_ADMIN)));
    AdminRunEnds();
    AdminPageCached();
    AdminRemovalStale(AdminPageState());
  }

  lemma AdminPageCached()
    ensures PageReady(AdminPageState(), DB_ADMIN, ANN)
  {
    Words();
    FirstStatesCoherent("");
    TeamGetsRole(DB_AGENT, CHAT_AGENTS_ADMIN);
    CallKeepsRoles(State(DB_AGENT, map[]), SetRoleOp(T, TEAM, IdentityGroup, CHAT_AGENTS_ADMIN, BOB));
    PageCached(DB_ADMIN, ANN);
  }

  lemma TenantDeletionStale(s: State)
    requires PageReady(s, DB_AGENT, BOB)
    ensures ListWrong(Step(s, DeleteTenantOp(T)), BOB)
  {
    Words();
    FreshRolesAreMine(DB_AGENT, BOB);
    assert RoleRow(T, BOB, TENANT_GLOBAL_ADMIN) in DB_AGENT.roles;
    AdminSeesAgent(FreshAccess(DB_AGENT, BOB, T));
    TenantDeletionPageFreshIff(s, T, T, BOB, MINE);
  }

  lemma TenantDeletionStaleOnceCached()
    ensures ListWrong(Step(PageState(BOB), DeleteTenantOp(T)), BOB)
  {
    Words();
    FirstStatesCoherent("");
    PageCached(DB_AGENT, BOB);
    TenantDeletionStale(PageState(BOB));
  }

  /** The tenant is deleted: Bob's list keeps its agent. */
  lemma TenantDeletionUnseen()
    ensures ListWrong(Run(Start(), AgentRun(ListRead(T, BOB, MINE), DeleteTenantOp(T))), BOB)
  {
    TenantDeletionStaleOnceCached();
    PageRunEnds(BOB, DeleteTenantOp(T));
  }

  lemma AdminSeesAgent(access: Access)
    requires access.admin
    ensures ListPage(DB_AGENT.agents, DB_AGENT.members, T, access, MINE) != []
  {
    AnnHoldsNothing();
    var rows := Rows(DB_AGENT.agents, DB_AGENT.members, T, access, MINE);
    ArrangeIsSortedPermutation(OrderOf(MINE), rows, rows.Keys);
    assert A in rows.Keys;
    WholeList(DB_AGENT.agents, DB_AGENT.members, T, access, MINE);
  }

  // ---------- Grants to a group the cached groups do not name ----------

  const B := "b"
  const AGENT_B := Agent(T, "y", "", {}, true, 0)

  const DB_TWO := DB_AGENT.(agents := DB_AGENT.agents[B := AGENT_B], members := DB_AGENT.members + {MemberRow("n", T, B, BOB, Admin)})

  lemma SecondAgentMade()
    ensures Step(State(DB_AGENT, map[]), CreateAgentOp(B, AGENT_B, BOB, "n")) == State(DB_TWO, map[])
  {
    assert "x"[0] != "y"[0];
    assert forall a :: a in NamesIn(DB_AGENT, T) ==> NamesIn(DB_AGENT, T)[a] == "x";
    assert Apply(DB_AGENT, CreateAgentOp(B, AGENT_B, BOB, "n")) == Some(DB_TWO);
    StepOnEmptyCache(DB_AGENT, CreateAgentOp(B, AGENT_B, BOB, "n"), DB_TWO);
  }

  lemma TwoAgentsCoherent()
    ensures RolesInv(State(DB_TWO, map[]))
  {
    FirstStatesCoherent("");
    SecondAgentMade();
    NewSecondAgent();
    CallKeepsRoles(State(DB_AGENT, map[]), CreateAgentOp(B, AGENT_B, BOB, "n"));
  }

  lemma NewSecondAgent()
    ensures NewIds(State(DB_AGENT, map[]), CreateAgentOp(B, AGENT_B, BOB, "n"))
  {
    assert A[0] != B[0];
  }

  /** Ann's groups, cached while no tenant knows the team: none. */
  ghost function GroupsCached(): State {
    ReadRoles(State(DB_TWO, map[]), ANN).0
  }

  lemma NoGroupsCached()
    ensures GroupsReady(GroupsCached(), DB_TWO)
  {
    TwoAgentsCoherent();
    AnnHasNoGroups();
    GroupsReadReady(DB_TWO);
  }

  /** No group of Ann's is cached, over given tables. */
  ghost predicate GroupsReady(s: State, db: Db) {
    WideInv(s) && s.db == db && CachedGroups(s, ANN) == Some({})
  }

  lemma GroupsReadReady(db: Db)
    requires RolesInv(State(db, map[])) && ANN in db.directory.users && FreshGroups(db, ANN) == {}
    ensures GroupsReady(ReadRoles(State(db, map[]), ANN).0, db)
  {
    NothingCached(db, ANN);
    RolesReadReady(State(db, map[]));
    GroupsReadCached(db, ANN);
  }

  lemma RolesReadReady(s: State)
    requires WideInv(s) && ANN in s.db.directory.users
    ensures WideInv(ReadRoles(s, ANN).0) && ReadRoles(s, ANN).0.db == s.db && Plain(ANN)
  {
    ReadRolesKeepsWide(s, ANN);
  }

  lemma GroupsReadCached(db: Db, u: Id)
    requires Plain(u)
    ensures CachedGroups(ReadRoles(State(db, map[]), u).0, u) == Some(FreshGroups(db, u))
  {
    UserKeysDiffer(u, u);
  }

  lemma AnnHasNoGroups()
    ensures FreshGroups(DB_TWO, ANN) == {}
  {
    Words();
    assert IdentityGroupsOf(DB_TWO, ANN) == {} && CustomGroupsOf(DB_TWO, ANN) == {};
  }

  const GRANT_A := SetPermissionOp(T, A, TEAM, IdentityGroup, Read, "g")
  const GRANT_B := SetPermissionOp(T, B, TEAM, IdentityGroup, Read, "h")

  const DB_GRANTED := DB_TWO.(principals := DB_TWO.principals[(T, TEAM) := IdentityGroup],
                             members := DB_TWO.members + {MemberRow("g", T, A, TEAM, Read)})

  lemma FirstGrantRows()
    ensures SetPermission(DB_TWO, T, A, TEAM, IdentityGroup, Read, "g") == Some(DB_GRANTED)
  {
    Words();
    var d := DB_TWO.(principals := DB_TWO.principals[(T, TEAM) := IdentityGroup]);
    assert ResourceMembership(d, T, A, TEAM) == {};
  }

  /** Without groups Ann sees nothing of the agent, rightly, and the team can be granted it. */
  ghost predicate GrantWouldShow(db: Db, a: Id, row: Id) {
    && ANN in db.directory.users && AgentIn(db, T, a) && !FreshAccess(db, ANN, T).admin && IdpGroups(db, ANN) == {TEAM}
    && ActionsOn(db.members, T, a, {ANN}) == {} && MissesNothing(db, T, ANN, a, {})
    && SetPermission(db, T, a, TEAM, IdentityGroup, Read, row).Some?
  }

  lemma FirstGrantWouldShow()
    ensures GrantWouldShow(DB_TWO, A, "g")
  {
    Words();
    FirstGrantRows();
    AdminByRow(DB_TWO, ANN, T);
    assert CustomGroupsOf(DB_TWO, ANN) == {};
  }

  lemma SecondGrantWouldShow()
    ensures GrantWouldShow(DB_GRANTED, B, "h")
  {
    Words();
    assert A[0] != B[0];
    AdminByRow(DB_GRANTED, ANN, T);
    assert CustomGroupsOf(DB_GRANTED, ANN) == {};
    assert ResourceMembership(DB_GRANTED, T, B, TEAM) == {};
  }

  lemma RightSoFar(s: State, a: Id, row: Id)
    requires GroupsReady(s, s.db) && GrantWouldShow(s.db, a, row) && Plain(a)
    ensures RolesInv(s) && ContextWithin(s, ANN) && DetailSound(s, T, a) && ANN in s.db.directory.users && !DetailWrong(s, ANN, a)
  {
    Words();
    WideParts(s, ANN, T, a);
    DetailFreshIff(s, T, ANN, a);
  }

  /** With no group cached, a read that was right is wrong after a grant to the team, known or not. */
  lemma UnnamedGrantStale(s: State, a: Id, row: Id)
    requires GroupsReady(s, s.db) && GrantWouldShow(s.db, a, row) && Plain(a)
    ensures !DetailWrong(s, ANN, a) && DetailWrong(Step(s, SetPermissionOp(T, a, TEAM, IdentityGroup, Read, row)), ANN, a)
  {
    Words();
    RightSoFar(s, a, row);
    assert Named(ANN, {}) == {ANN};
    UnnamedGrantFreshIff(s, T, a, TEAM, IdentityGroup, Read, row, ANN, {});
  }

  function GrantRun(): seq<Event> {
    [Call(NEW_TENANT), Call(CreateAgentOp(A, AGENT, BOB, "m")), Call(CreateAgentOp(B, AGENT_B, BOB, "n")), RolesRead(ANN)]
  }

  lemma GrantRunEnds()
    ensures Run(Start(), GrantRun()) == GroupsCached()
  {
    RunFour(Start(), GrantRun());
    TenantMade();
    AgentMade();
    SecondAgentMade();
  }

  /** The state after the first grant. */
  ghost function GrantedState(): State {
    Step(GroupsCached(), GRANT_A)
  }

  lemma GrantedStateKnown()
    ensures GroupsReady(GrantedState(), DB_GRANTED)
  {
    Words();
    NoGroupsCached();
    FirstGrantRows();
    CallKeepsWide(GroupsCached(), GRANT_A);
    GroupsKeptByGrant(GroupsCached(), T, A, TEAM, IdentityGroup, Read, "g", ANN);
  }

  /** Ann's groups are cached, then the team is granted agent a, which no tenant knew: Ann's read of a is wrong. */
  lemma FirstGrantUnseen()
    ensures DetailWrong(Run(Start(), GrantRun() + [Call(GRANT_A)]), ANN, A)
  {
    GrantRunEnds();
    RunAppend(Start(), GrantRun(), Call(GRANT_A));
    NoGroupsCached();
    Words();
    FirstGrantWouldShow();
    UnnamedGrantStale(GroupsCached(), A, "g");
  }

  /** Now the tenant knows the team and Ann's read of agent b is right, and a grant of b still makes it wrong. */
  lemma KnownGrantUnseen()
    ensures var known := Run(Start(), GrantRun() + [Call(GRANT_A)]);
      (T, TEAM) in known.db.principals && !DetailWrong(known, ANN, B) && DetailWrong(Step(known, GRANT_B), ANN, B)
  {
    GrantRunEnds();
    RunAppend(Start(), GrantRun(), Call(GRANT_A));
    GrantedStateKnown();
    SecondGrantWouldShow();
    assert Plain(B);
    UnnamedGrantStale(GrantedState(), B, "h");
  }

  // ---------- A membership that registers the group ----------

  const G := "g"
  const JOIN := SetMemberOp(T, G, TEAM, IdentityGroup, Read, BOB, "q")

  const DB_GROUP := DB_AGENT.(principals := DB_AGENT.principals[(T, G) := CustomGroup], groupRows := {GroupRow("r", T, G, BOB, Admin)})
  const DB_JOINED := DB_GROUP.(principals := DB_GROUP.principals[(T, TEAM) := IdentityGroup],
                              groupRows := DB_GROUP.groupRows + {GroupRow("q", T, G, TEAM, Read)})

  lemma GroupMade()
    ensures Step(State(DB_AGENT, map[]), CreateGroupOp(T, G, BOB, "r")) == State(DB_GROUP, map[])
  {
    GroupIdIsNew();
    assert DB_AGENT.groupRows + {GroupRow("r", T, G, BOB, Admin)} == {GroupRow("r", T, G, BOB, Admin)};
    assert Apply(DB_AGENT, CreateGroupOp(T, G, BOB, "r")) == Some(DB_GROUP);
    StepOnEmptyCache(DB_AGENT, CreateGroupOp(T, G, BOB, "r"), DB_GROUP);
  }

  lemma GroupIdIsNew()
    ensures G !in {ANN, BOB, TEAM}
  {
    assert |ANN| == 3 && |BOB| == 3 && |TEAM| == 4 && |G| == 1;
  }

  lemma GroupCoherent()
    ensures RolesInv(State(DB_GROUP, map[]))
  {
    FirstStatesCoherent("");
    GroupMade();
    GroupIdIsNew();
    CallKeepsRoles(State(DB_AGENT, map[]), CreateGroupOp(T, G, BOB, "r"));
  }

  /** Ann's groups, cached before the team joins the group. */
  ghost function BeforeJoin(): State {
    ReadRoles(State(DB_GROUP, map[]), ANN).0
  }

  lemma BeforeJoinReady()
    ensures GroupsReady(BeforeJoin(), DB_GROUP)
  {
    Words();
    GroupCoherent();
    assert IdentityGroupsOf(DB_GROUP, ANN) == {} && CustomGroupsOf(DB_GROUP, ANN) == {};
    assert FreshGroups(DB_GROUP, ANN) == {};
    GroupsReadReady(DB_GROUP);
  }

  lemma TeamJoins()
    ensures Apply(DB_GROUP, JOIN) == Some(DB_JOINED)
  {
    Words();
    GroupIdIsNew();
    var d := DB_GROUP.(principals := DB_GROUP.principals[(T, TEAM) := IdentityGroup]);
    assert GroupMembership(d, T, G, TEAM) == {};
  }

  /** The membership clears the entries of the team and of Bob, not Ann's. */
  lemma JoinKeepsGroups(s: State)
    requires GroupsReady(s, DB_GROUP)
    ensures GroupsReady(Step(s, JOIN), DB_JOINED)
  {
    Words();
    TeamJoins();
    CallKeepsWide(s, JOIN);
    JoinMissesGroups();
  }

  lemma JoinMissesGroups()
    ensures !Clears(DB_GROUP, JOIN, GroupsKey(ANN))
  {
    Words();
    ClearingReachesOnlyOwnGroups(TEAM, ANN);
    ClearingReachesOnlyOwnGroups(BOB, ANN);
    assert ClearedUsers(DB_GROUP, JOIN) == {TEAM, BOB} && ClearedPatterns(JOIN) == [] && ClearedKeys(JOIN) == {};
  }

  lemma JoinedGrantWouldShow()
    ensures GrantWouldShow(DB_JOINED, A, "g")
  {
    Words();
    AdminByRow(DB_JOINED, ANN, T);
    assert CustomGroupsOf(DB_JOINED, ANN) == {};
    assert ResourceMembership(DB_JOINED, T, A, TEAM) == {};
  }

  function JoinRun(): seq<Event> {
    [Call(NEW_TENANT), Call(CreateAgentOp(A, AGENT, BOB, "m")), Call(CreateGroupOp(T, G, BOB, "r")), RolesRead(ANN)]
  }

  lemma JoinRunEnds()
    ensures Run(Start(), JoinRun()) == BeforeJoin()
  {
    RunFour(Start(), JoinRun());
    TenantMade();
    AgentMade();
    GroupMade();
  }

  /** Ann's groups are cached, the team becomes a member of a group, which registers it, and is granted the agent: Ann's read,
      right until then, is wrong. */
  lemma MembershipUnseen()
    ensures var joined := Run(Start(), JoinRun() + [Call(JOIN)]);
      (T, TEAM) in joined.db.principals && !DetailWrong(joined, ANN, A) && DetailWrong(Step(joined, GRANT_A), ANN, A)
  {
    JoinRunEnds();
    RunAppend(Start(), JoinRun(), Call(JOIN));
    BeforeJoinReady();
    JoinKeepsGroups(BeforeJoin());
    JoinedGrantWouldShow();
    Words();
    UnnamedGrantStale(Step(BeforeJoin(), JOIN), A, "g");
  }

  lemma RunFour(s: State, events: seq<Event>)
    requires |events| == 4
    ensures Run(s, events) == Next(Next(Next(Next(s, events[0]), events[1]), events[2]), events[3])
  {
    assert events == [] + [events[0]] + [events[1]] + [events[2]] + [events[3]];
    RunAppend(s, [], events[0]);
    RunAppend(s, [] + [events[0]], events[1]);
    RunAppend(s, [] + [events[0]] + [events[1]], events[2]);
    RunAppend(s, [] + [events[0]] + [events[1]] + [events[2]], events[3]);
  }
}
