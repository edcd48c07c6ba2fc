/** One page of a resource list as a caller sees it: permission filter, active filter, order, offset and limit. */
module Listing {
  import opened Schema
  import opened Permissions
  import opened CacheKeys
  import Sequences
  import Text

  datatype Item = Item(id: Id, agent: Agent, permission: Option<Action>)

  predicate MatchesActive(q: ListQuery, agent: Agent) {
    q.active == "all" || agent.active == (q.active != "0")
  }

  /** The rows of the filtered query, each with the caller's permission on it. */
  function Rows(agents: map<Id, Agent>, members: set<MemberRow>, tenant: Id, access: Access, q: ListQuery): map<Id, Item> {
    map a | a in Visible(agents, members, access, tenant) && MatchesActive(q, agents[a])
      :: Item(a, agents[a], Resolve(members, access, tenant, a))
  }

  /** What a query asks its rows to be ordered by. */
  datatype Order = Order(column: string, direction: string)

  function OrderOf(q: ListQuery): Order {
    Order(q.orderBy, q.direction)
  }

  /** ORDER BY name or created_at, in either direction; newest first when no such column is named. */
  predicate Before(o: Order, x: Agent, y: Agent) {
    if o.column == "name" then
      if o.direction == "desc" then Text.Leq(y.name, x.name) else Text.Leq(x.name, y.name)
    else if o.column == "created_at" && o.direction != "desc" then x.created <= y.created
    else y.created <= x.created
  }

  predicate IsFirst(o: Order, rows: map<Id, Item>, ids: set<Id>, first: Id)
    requires ids <= rows.Keys
  {
    first in ids && forall b :: b in ids ==> Before(o, rows[first].agent, rows[b].agent)
  }

  lemma {:induction false} SomeFirst(o: Order, rows: map<Id, Item>, ids: set<Id>)
    requires ids != {} && ids <= rows.Keys
    ensures exists first :: IsFirst(o, rows, ids, first)
    decreases |ids|
  {
    var a :| a in ids;
    BeforeTotal(o, rows[a].agent, rows[a].agent);
    if ids == {a} {
      assert IsFirst(o, rows, ids, a);
    } else {
      assert ids == (ids - {a}) + {a};
      SomeFirst(o, rows, ids - {a});
      var b :| IsFirst(o, rows, ids - {a}, b);
      BeforeTotal(o, rows[a].agent, rows[b].agent);
      if Before(o, rows[a].agent, rows[b].agent) {
        forall c | c in ids - {a} ensures Before(o, rows[a].agent, rows[c].agent) {
          BeforeTransitive(o, rows[a].agent, rows[b].agent, rows[c].agent);
        }
        assert IsFirst(o, rows, ids, a);
      } else {
        assert IsFirst(o, rows, ids, b);
      }
    }
  }

  lemma BeforeTotal(o: Order, x: Agent, y: Agent)
    ensures Before(o, x, y) || Before(o, y, x)
  {
    Text.LeqTotal(x.name, y.name);
  }

  lemma BeforeTransitive(o: Order, x: Agent, y: Agent, z: Agent)
    requires Before(o, x, y) && Before(o, y, z)
    ensures Before(o, x, z)
  {
    if o.column == "name" {
      if o.direction == "desc" {
        Text.LeqTransitive(z.name, y.name, x.name);
      } else {
        Text.LeqTransitive(x.name, y.name, z.name);
      }
    }
  }

  /** The rows in order. Rows the order does not separate come in the database's own, fixed order. */
  ghost function Arrange(o: Order, rows: map<Id, Item>, ids: set<Id>): (ordered: seq<Item>)
    requires ids <= rows.Keys
    decreases |ids|
  {
    if ids == {} then []
    else
      SomeFirst(o, rows, ids);
      var first :| IsFirst(o, rows, ids, first);
      [rows[first]] + Arrange(o, rows, ids - {first})
  }

  /** Ordering loses nothing, repeats nothing and respects the order. */
  lemma {:induction false} ArrangeIsSortedPermutation(o: Order, rows: map<Id, Item>, ids: set<Id>)
    requires ids <= rows.Keys && forall a :: a in rows ==> rows[a].id == a
    ensures |Arrange(o, rows, ids)| == |ids|
    ensures forall item :: item in Arrange(o, rows, ids) <==> item.id in ids && item == rows[item.id]
    ensures forall i, j :: 0 <= i < j < |ids| ==>
      Before(o, Arrange(o, rows, ids)[i].agent, Arrange(o, rows, ids)[j].agent)
    decreases |ids|
  {
    if ids != {} {
      SomeFirst(o, rows, ids);
      var first :| IsFirst(o, rows, ids, first)
        && Arrange(o, rows, ids) == [rows[first]] + Arrange(o, rows, ids - {first});
      ArrangeIsSortedPermutation(o, rows, ids - {first});
      FirstInFront(o, rows, ids, first, Arrange(o, rows, ids - {first}));
    }
  }

  lemma FirstInFront(o: Order, rows: map<Id, Item>, ids: set<Id>, first: Id, rest: seq<Item>)
    requires ids <= rows.Keys && IsFirst(o, rows, ids, first) && rows[first].id == first
    requires forall item :: item in rest <==> item.id in ids - {first} && item == rows[item.id]
    requires forall i, j :: 0 <= i < j < |rest| ==> Before(o, rest[i].agent, rest[j].agent)
    ensures var all := [rows[first]] + rest;
      && (forall item :: item in all <==> item.id in ids && item == rows[item.id])
      && forall i, j :: 0 <= i < j < |all| ==> Before(o, all[i].agent, all[j].agent)
  {
    var all := [rows[first]] + rest;
    forall i, j | 0 <= i < j < |all| ensures Before(o, all[i].agent, all[j].agent) {
      assert all[j] == rest[j - 1] && rest[j - 1] in rest;
      assert i > 0 ==> all[i] == rest[i - 1];
    }
  }

  ghost function ListPage(agents: map<Id, Agent>, members: set<MemberRow>, tenant: Id, access: Access, q: ListQuery): seq<Item> {
    var rows := Rows(agents, members, tenant, access, q);
    Sequences.Slice(Arrange(OrderOf(q), rows, rows.Keys), q.skip, q.limit)
  }

  /** A page depends on the two tables only through the tenant's resources and the caller's roles on them. */
  lemma PageDependsOn(agents: map<Id, Agent>, members: set<MemberRow>, access: Access,
                      agents': map<Id, Agent>, members': set<MemberRow>, access': Access, tenant: Id, q: ListQuery)
    requires access.admin == access'.admin
    requires forall a :: a in InTenant(agents, tenant) <==> a in InTenant(agents', tenant)
    requires forall a :: a in InTenant(agents, tenant) ==> agents[a] == agents'[a]
    requires forall a :: a in InTenant(agents, tenant) ==>
      ActionsOn(members, tenant, a, access.principals) == ActionsOn(members', tenant, a, access'.principals)
    ensures ListPage(agents, members, tenant, access, q) == ListPage(agents', members', tenant, access', q)
  {
    forall a | a in InTenant(agents, tenant)
      ensures a in Visible(agents, members, access, tenant) <==> a in Visible(agents', members', access', tenant)
      ensures Resolve(members, access, tenant, a) == Resolve(members', access', tenant, a)
    {
      MemberHasActions(members, tenant, a, access.principals);
      MemberHasActions(members', tenant, a, access'.principals);
    }
    assert Rows(agents, members, tenant, access, q) == Rows(agents', members', tenant, access', q);
  }

  // ---------- Two callers' pages of one query ----------

  /** Every resource the query can show. */
  function Candidates(agents: map<Id, Agent>, tenant: Id, q: ListQuery): set<Id> {
    set a | a in InTenant(agents, tenant) && MatchesActive(q, agents[a])
  }

  /** The page is the whole list. */
  predicate Unpaged(agents: map<Id, Agent>, tenant: Id, q: ListQuery) {
    q.skip == 0 && q.limit >= |InTenant(agents, tenant)|
  }

  /** Two callers have the same permission on everything the query can show. */
  ghost predicate ResolveAlike(agents: map<Id, Agent>, members: set<MemberRow>, tenant: Id, mine: Access, other: Access, q: ListQuery) {
    forall a :: a in Candidates(agents, tenant, q) ==> Resolve(members, mine, tenant, a) == Resolve(members, other, tenant, a)
  }

  /** A resource of the tenant is shown exactly when some permission on it resolves. */
  lemma ShownIfResolved(agents: map<Id, Agent>, members: set<MemberRow>, tenant: Id, access: Access, q: ListQuery, a: Id)
    requires a in Candidates(agents, tenant, q)
    ensures a in Rows(agents, members, tenant, access, q) <==> Resolve(members, access, tenant, a).Some?
  {
    MemberHasActions(members, tenant, a, access.principals);
    BestIsHeaviest(ActionsOn(members, tenant, a, access.principals), Read);
  }

  lemma SameRowsIff(agents: map<Id, Agent>, members: set<MemberRow>, tenant: Id, mine: Access, other: Access, q: ListQuery)
    ensures Rows(agents, members, tenant, mine, q) == Rows(agents, members, tenant, other, q) <==>
      ResolveAlike(agents, members, tenant, mine, other, q)
  {
    var r1, r2 := Rows(agents, members, tenant, mine, q), Rows(agents, members, tenant, other, q);
    forall a | a in Candidates(agents, tenant, q)
      ensures a in r1 <==> Resolve(members, mine, tenant, a).Some?
      ensures a in r2 <==> Resolve(members, other, tenant, a).Some?
    {
      ShownIfResolved(agents, members, tenant, mine, q, a);
      ShownIfResolved(agents, members, tenant, other, q, a);
    }
    assert forall a :: a in r1 || a in r2 ==> a in Candidates(agents, tenant, q);
    if r1 == r2 {
      forall a | a in Candidates(agents, tenant, q) ensures Resolve(members, mine, tenant, a) == Resolve(members, other, tenant, a) {
        assert a in r1 ==> r1[a] == r2[a];
      }
    }
  }

  lemma WholeList(agents: map<Id, Agent>, members: set<MemberRow>, tenant: Id, access: Access, q: ListQuery)
    requires Unpaged(agents, tenant, q)
    ensures ListPage(agents, members, tenant, access, q)
      == Arrange(OrderOf(q), Rows(agents, members, tenant, access, q), Rows(agents, members, tenant, access, q).Keys)
  {
    var rows := Rows(agents, members, tenant, access, q);
    ArrangeIsSortedPermutation(OrderOf(q), rows, rows.Keys);
    SubsetSize(rows.Keys, InTenant(agents, tenant));
  }

  lemma SubsetSize(a: set<Id>, b: set<Id>)
    requires a <= b
    ensures |a| <= |b|
  {
    assert b == a + (b - a);
  }

  /** Different rows make different whole lists. */
  lemma SameListSameRows(agents: map<Id, Agent>, members: set<MemberRow>, tenant: Id, a1: Access, a2: Access, q: ListQuery)
    requires Unpaged(agents, tenant, q)
    requires ListPage(agents, members, tenant, a1, q) == ListPage(agents, members, tenant, a2, q)
    ensures Rows(agents, members, tenant, a1, q) == Rows(agents, members, tenant, a2, q)
  {
    var r1, r2 := Rows(agents, members, tenant, a1, q), Rows(agents, members, tenant, a2, q);
    WholeList(agents, members, tenant, a1, q);
    WholeList(agents, members, tenant, a2, q);
    ArrangeIsSortedPermutation(OrderOf(q), r1, r1.Keys);
    ArrangeIsSortedPermutation(OrderOf(q), r2, r2.Keys);
    RowsFromList(r1, r2, Arrange(OrderOf(q), r1, r1.Keys));
  }

  lemma RowsFromList(r1: map<Id, Item>, r2: map<Id, Item>, items: seq<Item>)
    requires forall item :: item in items <==> item.id in r1 && item == r1[item.id]
    requires forall item :: item in items <==> item.id in r2 && item == r2[item.id]
    requires (forall a :: a in r1 ==> r1[a].id == a) && forall a :: a in r2 ==> r2[a].id == a
    ensures r1 == r2
  {
    forall a | a in r1 ensures a in r2 && r2[a] == r1[a] {
      assert r1[a] in items;
    }
    forall a | a in r2 ensures a in r1 {
      assert r2[a] in items;
    }
  }

  /** Two callers get one page if they have the same permission on everything the query can show; one whole list only then. */
  lemma SamePageIff(agents: map<Id, Agent>, members: set<MemberRow>, tenant: Id, mine: Access, other: Access, q: ListQuery)
    ensures ResolveAlike(agents, members, tenant, mine, other, q) ==>
      ListPage(agents, members, tenant, mine, q) == ListPage(agents, members, tenant, other, q)
    ensures Unpaged(agents, tenant, q) && ListPage(agents, members, tenant, mine, q) == ListPage(agents, members, tenant, other, q) ==>
      ResolveAlike(agents, members, tenant, mine, other, q)
  {
    SameRowsIff(agents, members, tenant, mine, other, q);
    if Unpaged(agents, tenant, q) && ListPage(agents, members, tenant, mine, q) == ListPage(agents, members, tenant, other, q) {
      SameListSameRows(agents, members, tenant, mine, other, q);
    }
  }
}
