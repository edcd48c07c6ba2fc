/** Freshness of copy names carried to the state machine: while no resource is deleted or renamed, no duplication is ever
    refused for its name. */
module CopyNameRuns {
  import opened Schema
  import opened Rbac
  import opened Coherence
  import CopyNames

  ghost predicate NamesOk(db: Db) {
    forall t :: CopyNames.NumbersBelowCount(NamesIn(db, t))
  }

  /** No deletion, no renaming, and no name given by a user is of the form `X Copy(n)`. */
  ghost predicate KeepsNames(db: Db, op: Op) {
    match op
    case CreateAgentOp(_, data, _, _) => !CopyNames.LooksNumbered(data.name)
    case UpdateAgentOp(t, a, name, _, _) => AgentIn(db, t, a) ==> name == db.agents[a].name
    case DeleteAgentOp(_, _) => false
    case _ => true
  }

  ghost predicate AllKeepNames(s: State, events: seq<Event>)
    decreases |events|
  {
    events == [] || ((events[0].Call? ==> KeepsNames(s.db, events[0].op)) && AllKeepNames(Next(s, events[0]), events[1..]))
  }

  lemma AddedName(db: Db, agents: map<Id, Agent>, agent: Id, data: Agent, source: string)
    requires NamesOk(db) && agent !in db.agents && agents == db.agents[agent := data]
    requires !CopyNames.LooksNumbered(data.name) || data.name == CopyNames.GenerateCopyName(NamesIn(db, data.tenant), source)
    ensures NamesOk(db.(agents := agents))
  {
    var db' := db.(agents := agents);
    forall t ensures CopyNames.NumbersBelowCount(NamesIn(db', t)) {
      if t == data.tenant {
        CopyNames.AddingKeepsInvariant(NamesIn(db, t), agent, data.name, source);
        assert NamesIn(db', t) == NamesIn(db, t)[agent := data.name];
      } else {
        assert NamesIn(db', t) == NamesIn(db, t);
      }
    }
  }

  lemma SameAgentsSameNames(db: Db, db': Db)
    requires NamesOk(db) && db'.agents == db.agents
    ensures NamesOk(db')
  {
    forall t ensures CopyNames.NumbersBelowCount(NamesIn(db', t)) {
      assert NamesIn(db', t) == NamesIn(db, t);
    }
  }

  lemma GoneTenantNames(db: Db, tenant: Id)
    requires NamesOk(db) && DeleteTenant(db, tenant).Some?
    ensures NamesOk(DeleteTenant(db, tenant).value)
  {
    var db' := DeleteTenant(db, tenant).value;
    forall t ensures CopyNames.NumbersBelowCount(NamesIn(db', t)) {
      assert NamesIn(db', t) == if t == tenant then map[] else NamesIn(db, t);
    }
  }

  lemma UnchangedNames(db: Db, tenant: Id, agent: Id, content: string, active: bool)
    requires NamesOk(db) && AgentIn(db, tenant, agent)
    requires UpdateAgent(db, tenant, agent, db.agents[agent].name, content, active).Some?
    ensures NamesOk(UpdateAgent(db, tenant, agent, db.agents[agent].name, content, active).value)
  {
    var db' := UpdateAgent(db, tenant, agent, db.agents[agent].name, content, active).value;
    forall t ensures CopyNames.NumbersBelowCount(NamesIn(db', t)) {
      assert NamesIn(db', t) == NamesIn(db, t);
    }
  }

  lemma CallKeepsNames(s: State, op: Op)
    requires NamesOk(s.db) && NewIds(s, op) && KeepsNames(s.db, op) && Apply(s.db, op).Some?
    ensures NamesOk(Apply(s.db, op).value)
  {
    var db, db' := s.db, Apply(s.db, op).value;
    match op
    case CreateAgentOp(agent, data, _, _) =>
      AddedName(db, db'.agents, agent, data, "");
      SameAgentsSameNames(db.(agents := db'.agents), db');
    case DuplicateAgentOp(t, source, agent, _, _, now) =>
      var original := db.agents[source].name;
      var name := CopyNames.GenerateCopyName(NamesIn(db, t), original);
      AddedName(db, db'.agents, agent, Copied(db.agents[source], name, now), original);
      SameAgentsSameNames(db.(agents := db'.agents), db');
    case UpdateAgentOp(t, agent, _, content, active) => UnchangedNames(db, t, agent, content, active);
    case DeleteTenantOp(t) => GoneTenantNames(db, t);
    case _ => SameAgentsSameNames(db, db');
  }

  /** The name the next duplicate of a resource would get fits its column. */
  predicate NextNameFits(db: Db, t: Id, source: Id)
    requires source in db.agents
  {
    CopyNames.NameFits(CopyNames.GenerateCopyName(NamesIn(db, t), db.agents[source].name))
  }

  /** A duplication of a resource whose name's pattern finds its copies goes through exactly when its creator is known and the
      new name fits. */
  ghost predicate DuplicationsGoThrough(db: Db) {
    forall t, source, agent, creator, row, now ::
      AgentIn(db, t, source) && CopyNames.CountsCopies(db.agents[source].name) ==>
        (DuplicateAgent(db, t, source, agent, creator, row, now).Some? <==>
          EnsurePrincipal(db, t, creator, IdentityUser).Some? && NextNameFits(db, t, source))
  }

  lemma NoDuplicationClashes(db: Db)
    requires NamesOk(db) && AgentsOk(db)
    ensures DuplicationsGoThrough(db)
  {
    forall t, source, agent, creator, row, now | AgentIn(db, t, source) && CopyNames.CountsCopies(db.agents[source].name)
      ensures DuplicateAgent(db, t, source, agent, creator, row, now).Some? <==>
        EnsurePrincipal(db, t, creator, IdentityUser).Some? && NextNameFits(db, t, source)
    {
      CopyNames.GeneratedNameUnused(NamesIn(db, t), db.agents[source].name);
    }
  }

  lemma {:induction false} NamesStayOk(s: State, events: seq<Event>)
    requires Integrity(s.db) && NamesOk(s.db) && AdmitsAll(Tables, s, events) && AllKeepNames(s, events)
    ensures NamesOk(Run(s, events).db) && Integrity(Run(s, events).db)
    decreases |events|
  {
    if events != [] {
      NextKeepsNames(s, events[0]);
      NamesStayOk(Next(s, events[0]), events[1..]);
    }
  }

  lemma NextKeepsNames(s: State, e: Event)
    requires Integrity(s.db) && NamesOk(s.db) && Admits(Tables, s, e) && (e.Call? ==> KeepsNames(s.db, e.op))
    ensures NamesOk(Next(s, e).db) && Integrity(Next(s, e).db)
  {
    if e.Call? && Apply(s.db, e.op).Some? {
      CallKeepsNames(s, e.op);
      ApplyKeepsIntegrity(s, e.op);
    }
  }

  /** On every run without deleting or renaming resources, every duplication of a resource whose name's pattern finds
      its copies goes through, given that its creator is known and the new name is not too long: no name is ever taken. */
  lemma DuplicationsAlwaysGoThrough(s: State, events: seq<Event>)
    requires Integrity(s.db) && NamesOk(s.db) && AdmitsAll(Tables, s, events) && AllKeepNames(s, events)
    ensures DuplicationsGoThrough(Run(s, events).db)
  {
    NamesStayOk(s, events);
    NoDuplicationClashes(Run(s, events).db);
  }

  /** An empty system is a start for every such run. */
  lemma EmptySystemHasNoNames(directory: Directory)
    ensures NamesOk(Db(directory, map[], map[], {}, {}, map[], {}))
  {
    var db := Db(directory, map[], map[], {}, {}, map[], {});
    forall t ensures CopyNames.NumbersBelowCount(NamesIn(db, t)) {
      assert NamesIn(db, t) == map[];
    }
  }

  // ---------- The names alone ----------

  function Left(db: Db, called: Option<Db>): Db {
    if called.Some? then called.value else db
  }

  /** What calls on resources make of a tenant's names, whether they go through or not, is what the steps over the names alone make of
      them, as long as the caller is known. */
  lemma CallsAreNameSteps(db: Db, t: Id, agent: Id, data: Agent, source: Id, creator: Id, row: Id, now: nat, active: bool)
    requires agent !in db.agents && data.tenant == t && EnsurePrincipal(db, t, creator, IdentityUser).Some? && t in db.tenants
    ensures NamesIn(Left(db, CreateAgent(db, agent, data, creator, row)), t) ==
      CopyNames.Step(NamesIn(db, t), CopyNames.Create(agent, data.name))
    ensures NamesIn(Left(db, DuplicateAgent(db, t, source, agent, creator, row, now)), t) ==
      CopyNames.Step(NamesIn(db, t), CopyNames.Duplicate(agent, source))
    ensures NamesIn(Left(db, UpdateAgent(db, t, source, data.name, data.content, active)), t) ==
      CopyNames.Step(NamesIn(db, t), CopyNames.Rename(source, data.name))
    ensures NamesIn(Left(db, DeleteAgent(db, t, source)), t) == CopyNames.Step(NamesIn(db, t), CopyNames.Delete(source))
  {
    CreationIsStep(db, t, agent, data, creator, row);
    if AgentIn(db, t, source) {
      var name := CopyNames.GenerateCopyName(NamesIn(db, t), db.agents[source].name);
      CreationIsStep(db, t, agent, Copied(db.agents[source], name, now), creator, row);
    }
    RenameIsStep(db, t, source, data.name, data.content, active);
    DeletionIsStep(db, t, source);
  }

  lemma CreationIsStep(db: Db, t: Id, agent: Id, data: Agent, creator: Id, row: Id)
    requires agent !in db.agents && data.tenant == t && EnsurePrincipal(db, t, creator, IdentityUser).Some? && t in db.tenants
    ensures NamesIn(Left(db, CreateAgent(db, agent, data, creator, row)), t) ==
      CopyNames.Step(NamesIn(db, t), CopyNames.Create(agent, data.name))
  {
    var called := CreateAgent(db, agent, data, creator, row);
    if called.Some? {
      assert called.value.agents == db.agents[agent := data];
      assert NamesIn(called.value, t) == NamesIn(db, t)[agent := data.name];
    }
  }

  lemma RenameIsStep(db: Db, t: Id, agent: Id, name: string, content: string, active: bool)
    ensures NamesIn(Left(db, UpdateAgent(db, t, agent, name, content, active)), t) ==
      CopyNames.Step(NamesIn(db, t), CopyNames.Rename(agent, name))
  {
    var called := UpdateAgent(db, t, agent, name, content, active);
    if called.Some? {
      assert NamesIn(called.value, t) == NamesIn(db, t)[agent := name];
    }
  }

  lemma DeletionIsStep(db: Db, t: Id, agent: Id)
    ensures NamesIn(Left(db, DeleteAgent(db, t, agent)), t) == CopyNames.Step(NamesIn(db, t), CopyNames.Delete(agent))
  {
    assert NamesIn(Left(db, DeleteAgent(db, t, agent)), t) == NamesIn(db, t) - {agent};
  }
}
