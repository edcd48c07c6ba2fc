/** Global search: one subquery per entity type, put together, counted, ordered by name, paged and tagged. */
module Search {
  import opened Schema
  import opened Sequences
  import opened Permissions
  import opened Text
  import opened Wildcard

  /** A row of any searchable table: its type, its key and the columns that are searched and not null. */
  datatype Row = Row(kind: string, tenant: Id, id: Id, name: string, searched: seq<string>)

  datatype TagRow = TagRow(kind: string, tenant: Id, entity: Id, tag: string)

  /** Member rows per type; tag rows joined with their names. */
  datatype Store = Store(rows: seq<Row>, members: map<string, set<MemberRow>>, tags: seq<TagRow>)

  datatype Item = Item(kind: string, id: Id, name: string, matchField: string, tags: seq<string>)

  datatype Response = Response(items: seq<Item>, total: nat, query: string)

  // ---------- Types ----------

  const MEMBER_TYPES := {"chat_agent", "workflow", "conversation", "chat_widget", "external_app", "credential"}
  const ADMIN_TYPES := {"tenant_ai_model", "principal", "custom_group"}
  const VALID_SEARCH_TYPES := MEMBER_TYPES + ADMIN_TYPES
  const TAGGED_TYPES := VALID_SEARCH_TYPES - {"conversation", "principal", "custom_group"}

  /** The role that administers one type besides the global administrator; principals have none of their own. */
  function AdminRole(kind: string): string {
    if kind == "chat_agent" then CHAT_AGENTS_ADMIN
    else if kind == "workflow" then "WORKFLOWS_ADMIN"
    else if kind == "conversation" then "CONVERSATIONS_ADMIN"
    else if kind == "chat_widget" then "CHAT_WIDGETS_ADMIN"
    else if kind == "external_app" then "EXTERNAL_APPS_ADMIN"
    else if kind == "credential" then "CREDENTIALS_ADMIN"
    else if kind == "tenant_ai_model" then "TENANT_AI_MODELS_ADMIN"
    else if kind == "custom_group" then "CUSTOM_GROUPS_ADMIN"
    else TENANT_GLOBAL_ADMIN
  }

  function SearchTypes(types: seq<string>): set<string> {
    if types == [] then VALID_SEARCH_TYPES else VALID_SEARCH_TYPES * (set t | t in types)
  }

  function MembersOfType(store: Store, kind: string): set<MemberRow> {
    if kind in store.members then store.members[kind] else {}
  }

  // ---------- Matching ----------

  /** The characters str.strip() takes for whitespace. */
  predicate IsSpace(c: char) {
    || '\t' <= c <= '\r' || '\U{1C}' <= c <= ' ' || '\U{2000}' <= c <= '\U{200A}'
    || c in {'\U{85}', '\U{A0}', '\U{1680}', '\U{2028}', '\U{2029}', '\U{202F}', '\U{205F}', '\U{3000}'}
  }

  function StripLeft(s: string): string {
    if s != "" && IsSpace(s[0]) then StripLeft(s[1..]) else s
  }

  function StripRight(s: string): string {
    if s != "" && IsSpace(s[|s| - 1]) then StripRight(s[..|s| - 1]) else s
  }

  function Strip(s: string): string {
    StripRight(StripLeft(s))
  }

  /** ILIKE '%query%' on any searched column. `fold` is the case folding in use. */
  predicate Hit(fold: string -> string, query: string, row: Row) {
    exists c :: c in row.searched && Like(['%'] + (fold(query) + ['%']), fold(c))
  }

  predicate Includes(s: string, needle: string) {
    exists i :: 0 <= i <= |s| && OccursAt(needle, s, i)
  }

  /** A query whose wildcards are all escaped hits exactly the rows with a column that contains what it stands for; a backslash
      in it is an escape and finds no backslash. A query without wildcards and backslashes stands for itself. */
  lemma HitIsContainment(fold: string -> string, query: string, row: Row)
    requires Quoted(fold(query))
    ensures Hit(fold, query, row) <==> exists c :: c in row.searched && Includes(fold(c), Unquoted(fold(query)))
    ensures (forall c :: c in fold(query) ==> c !in {'%', '_', '\\'}) ==> Unquoted(fold(query)) == fold(query)
  {
    forall c | c in row.searched
      ensures Like(['%'] + (fold(query) + ['%']), fold(c)) <==> Includes(fold(c), Unquoted(fold(query)))
    {
      LikeInfix(fold(query), fold(c));
    }
    if forall c :: c in fold(query) ==> c !in {'%', '_', '\\'} {
      PlainTextIsQuoted(fold(query));
    }
  }

  // ---------- Subqueries ----------

  predicate Admits(store: Store, user: User, tenant: Id, kind: string, id: Id) {
    || CheckIsAdmin(user, tenant, [TENANT_GLOBAL_ADMIN, AdminRole(kind)])
    || (kind in MEMBER_TYPES && id in MemberOf(MembersOfType(store, kind), tenant, set p | p in TypedPrincipalIds(user)))
  }

  function Subquery(store: Store, fold: string -> string, query: string, user: User, tenant: Id, kind: string): seq<Row> {
    Filter(store.rows, (r: Row) => r.kind == kind && r.tenant == tenant && Hit(fold, query, r) && Admits(store, user, tenant, kind, r.id))
  }

  /** The three subquery builders; only the one for resources with members ever runs for a caller who is no admin. */
  function BuildSubquery(store: Store, fold: string -> string, query: string, user: User, tenant: Id, kind: string, isAdmin: bool): seq<Row> {
    var principals := set p | p in TypedPrincipalIds(user);
    Filter(store.rows, (r: Row) => r.kind == kind && r.tenant == tenant && Hit(fold, query, r)
      && (isAdmin || r.id in MemberOf(MembersOfType(store, kind), tenant, principals)))
  }

  /** A type whose subquery is not built contributes no rows. */
  lemma BuiltOrEmpty(store: Store, fold: string -> string, query: string, user: User, tenant: Id, kind: string)
    ensures var isAdmin := CheckIsAdmin(user, tenant, [TENANT_GLOBAL_ADMIN, AdminRole(kind)]);
      Subquery(store, fold, query, user, tenant, kind) ==
        if kind in MEMBER_TYPES || isAdmin then BuildSubquery(store, fold, query, user, tenant, kind, isAdmin) else []
  {
    var isAdmin := CheckIsAdmin(user, tenant, [TENANT_GLOBAL_ADMIN, AdminRole(kind)]);
    var principals := set p | p in TypedPrincipalIds(user);
    var admitted := (r: Row) => r.kind == kind && r.tenant == tenant && Hit(fold, query, r) && Admits(store, user, tenant, kind, r.id);
    SameFilter(store.rows, admitted, (r: Row) => r.kind == kind && r.tenant == tenant && Hit(fold, query, r)
      && (isAdmin || r.id in MemberOf(MembersOfType(store, kind), tenant, principals)));
    if kind !in MEMBER_TYPES && !isAdmin {
      NothingPasses(store.rows, admitted);
    }
  }

  lemma {:induction false} NothingPasses(rows: seq<Row>, p: Row -> bool)
    requires forall r :: !p(r)
    ensures Filter(rows, p) == []
  {
    if rows != [] {
      NothingPasses(rows[1..], p);
    }
  }

  /** UNION ALL over the types, in the order the set of types is iterated. */
  function Combined(store: Store, fold: string -> string, query: string, user: User, tenant: Id, kinds: seq<string>): seq<Row> {
    if kinds == [] then []
    else Combined(store, fold, query, user, tenant, kinds[..|kinds| - 1])
         + Subquery(store, fold, query, user, tenant, kinds[|kinds| - 1])
  }

  predicate ByName(x: Row, y: Row) {
    Leq(x.name, y.name)
  }

  /** ORDER BY name; rows of one name stay in the order of the union. */
  function Arranged(store: Store, fold: string -> string, query: string, user: User, tenant: Id, kinds: seq<string>): seq<Row> {
    SortBy(Combined(store, fold, query, user, tenant, kinds), ByName)
  }

  // ---------- Who may see a row ----------

  /** Resources with members: whoever the permission check grants READ. Everything else: administrators. */
  predicate VisibleTo(store: Store, user: User, tenant: Id, row: Row) {
    if row.kind in MEMBER_TYPES then
      CheckUserPermission(MembersOfType(store, row.kind), AdminRole(row.kind), user, tenant, row.id, Read)
    else
      CheckIsAdmin(user, tenant, [TENANT_GLOBAL_ADMIN, AdminRole(row.kind)])
  }

  predicate Wanted(store: Store, fold: string -> string, query: string, user: User, tenant: Id, types: set<string>, row: Row) {
    row in store.rows && row.tenant == tenant && row.kind in types && Hit(fold, query, row) && VisibleTo(store, user, tenant, row)
  }

  lemma AdmitsIsVisible(store: Store, user: User, tenant: Id, row: Row)
    ensures Admits(store, user, tenant, row.kind, row.id) <==> VisibleTo(store, user, tenant, row)
  {
    AdminForms(user, tenant, AdminRole(row.kind));
    if row.kind in MEMBER_TYPES {
      var members, principals := MembersOfType(store, row.kind), set p | p in TypedPrincipalIds(user);
      forall a: Action ensures a in AllowedRoles(Read) { assert a == Read || a == Write || a == Admin; }
      assert row.id in MemberOf(members, tenant, principals) <==>
        exists m :: m in members && m.resource == row.id && m.tenant == tenant && m.principal in TypedPrincipalIds(user);
    }
  }

  lemma {:induction false} CombinedMembers(store: Store, fold: string -> string, query: string, user: User, tenant: Id, kinds: seq<string>)
    requires NoRepeats(kinds)
    ensures forall r :: r in Combined(store, fold, query, user, tenant, kinds) <==>
      r in store.rows && r.tenant == tenant && r.kind in kinds && Hit(fold, query, r) && Admits(store, user, tenant, r.kind, r.id)
    ensures NoRepeats(store.rows) ==> NoRepeats(Combined(store, fold, query, user, tenant, kinds))
  {
    if kinds != [] {
      var front, kind := kinds[..|kinds| - 1], kinds[|kinds| - 1];
      assert kinds == front + [kind];
      CombinedMembers(store, fold, query, user, tenant, front);
      var p := (r: Row) => r.kind == kind && r.tenant == tenant && Hit(fold, query, r) && Admits(store, user, tenant, kind, r.id);
      FilterMembers(store.rows, p);
      if NoRepeats(store.rows) {
        FilterNoRepeats(store.rows, p);
        AppendNoRepeats(Combined(store, fold, query, user, tenant, front), Filter(store.rows, p));
      }
    }
  }

  /** A row is identified by its type and id within its tenant. */
  ghost predicate Keyed(rows: seq<Row>) {
    && NoRepeats(rows)
    && forall r, s :: r in rows && s in rows && r.kind == s.kind && r.tenant == s.tenant && r.id == s.id ==> r == s
  }

  /** The whole result: exactly the wanted rows, each key once, ordered by name, and counted by the total. */
  lemma SearchFindsWanted(store: Store, fold: string -> string, query: string, user: User, tenant: Id, types: set<string>, kinds: seq<string>)
    requires Keyed(store.rows) && NoRepeats(kinds) && forall k :: k in kinds <==> k in types
    ensures var found := Arranged(store, fold, query, user, tenant, kinds);
      && (forall r :: r in found <==> Wanted(store, fold, query, user, tenant, types, r))
      && (forall i, j :: 0 <= i < j < |found| ==> (found[i].kind, found[i].id) != (found[j].kind, found[j].id))
      && (forall i, j :: 0 <= i < j < |found| ==> Leq(found[i].name, found[j].name))
      && |found| == |Combined(store, fold, query, user, tenant, kinds)|
            == |set r | r in store.rows && Wanted(store, fold, query, user, tenant, types, r)|
  {
    var combined, found := Combined(store, fold, query, user, tenant, kinds), Arranged(store, fold, query, user, tenant, kinds);
    CombinedMembers(store, fold, query, user, tenant, kinds);
    NameIsTotalPreorder();
    SortByPermutes(combined, ByName);
    PermutedNoRepeats(combined, found);
    forall r ensures r in found <==> Wanted(store, fold, query, user, tenant, types, r) {
      AdmitsIsVisible(store, user, tenant, r);
    }
    forall i, j | 0 <= i < j < |found| ensures (found[i].kind, found[i].id) != (found[j].kind, found[j].id) {
      assert found[i] in found && found[j] in found && found[i] != found[j];
    }
    NoRepeatsSize(found, set r | r in store.rows && Wanted(store, fold, query, user, tenant, types, r));
  }

  /** Consecutive pages of any positive size, once they reach the total, are that result. */
  lemma PagesEnumerateSearch(store: Store, fold: string -> string, query: string, user: User, tenant: Id, types: set<string>,
                             kinds: seq<string>, size: nat, count: nat)
    requires Keyed(store.rows) && NoRepeats(kinds) && forall k :: k in kinds <==> k in types
    requires count * size >= |Combined(store, fold, query, user, tenant, kinds)|
    ensures var shown := Pages(Arranged(store, fold, query, user, tenant, kinds), size, count);
      && (forall r :: r in shown <==> Wanted(store, fold, query, user, tenant, types, r))
      && (forall i, j :: 0 <= i < j < |shown| ==> (shown[i].kind, shown[i].id) != (shown[j].kind, shown[j].id))
  {
    SearchFindsWanted(store, fold, query, user, tenant, types, kinds);
    PagesCover(Arranged(store, fold, query, user, tenant, kinds), size, count);
  }

  lemma NameIsTotalPreorder()
    ensures TotalPreorder(ByName)
  {
    forall x, y ensures ByName(x, y) || ByName(y, x) { LeqTotal(x.name, y.name); }
    forall x, y, z | ByName(x, y) && ByName(y, z) ensures ByName(x, z) { LeqTransitive(x.name, y.name, z.name); }
  }

  // ---------- Tags ----------

  /** The tag rows of some entities of one type, in row order. */
  function TagPairs(tags: seq<TagRow>, kind: string, tenant: Id, ids: seq<Id>): seq<(Id, string)> {
    if tags == [] then []
    else
      var last := tags[|tags| - 1];
      TagPairs(tags[..|tags| - 1], kind, tenant, ids)
      + if last.kind == kind && last.tenant == tenant && last.entity in ids then [(last.entity, last.tag)] else []
  }

  /** The names of one entity's tags. */
  function OwnTags(tags: seq<TagRow>, kind: string, tenant: Id, id: Id): seq<string> {
    if tags == [] then []
    else
      var last := tags[|tags| - 1];
      OwnTags(tags[..|tags| - 1], kind, tenant, id)
      + if last.kind == kind && last.tenant == tenant && last.entity == id then [last.tag] else []
  }

  lemma {:induction false} LoadedTagsAreOwn(tags: seq<TagRow>, kind: string, tenant: Id, ids: seq<Id>, id: Id)
    requires id in ids
    ensures Values(TagPairs(tags, kind, tenant, ids), id) == OwnTags(tags, kind, tenant, id)
  {
    if tags != [] {
      var front, last := tags[..|tags| - 1], tags[|tags| - 1];
      LoadedTagsAreOwn(front, kind, tenant, ids, id);
      var pairs := TagPairs(front, kind, tenant, ids);
      assert (pairs + [(last.entity, last.tag)])[..|pairs|] == pairs;
      assert pairs + [] == pairs;
    }
  }

  /** `loaded.get(id, [])` */
  function Lookup(loaded: map<Id, seq<string>>, id: Id): seq<string> {
    if id in loaded then loaded[id] else []
  }

  method LoadTagsForEntities(tags: seq<TagRow>, kind: string, tenant: Id, ids: seq<Id>) returns (loaded: map<Id, seq<string>>)
    ensures forall id :: id in ids ==> Lookup(loaded, id) == OwnTags(tags, kind, tenant, id)
  {
    if ids == [] {
      return map[];
    }
    var pairs := TagPairs(tags, kind, tenant, ids);
    var keys;
    keys, loaded := GroupByKey(pairs);
    forall id | id in ids ensures Lookup(loaded, id) == OwnTags(tags, kind, tenant, id) {
      LoadedTagsAreOwn(tags, kind, tenant, ids, id);
      AbsentKey(pairs, id);
    }
  }

  // ---------- The response ----------

  function ItemOf(store: Store, fold: string -> string, query: string, tenant: Id, row: Row): Item {
    Item(row.kind, row.id, row.name,
         if Includes(fold(row.name), fold(query)) then "name" else "description",
         if row.kind in TAGGED_TYPES then OwnTags(store.tags, row.kind, tenant, row.id) else [])
  }

  function KindIds(rows: seq<Row>): (pairs: seq<(string, Id)>)
    ensures |pairs| == |rows|
  {
    seq(|rows|, i requires 0 <= i < |rows| => (rows[i].kind, rows[i].id))
  }

  /** The tags of every page row of the types done so far can be looked up. */
  ghost predicate TagsLoaded(loaded: map<string, map<Id, seq<string>>>, store: Store, tenant: Id, pairs: seq<(string, Id)>, kinds: seq<string>) {
    && (forall kind :: kind in loaded <==> kind in kinds && kind in TAGGED_TYPES)
    && forall kind, id :: kind in loaded && id in Values(pairs, kind) ==>
        Lookup(loaded[kind], id) == OwnTags(store.tags, kind, tenant, id)
  }

  method LoadTags(store: Store, tenant: Id, rows: seq<Row>) returns (loaded: map<string, map<Id, seq<string>>>)
    ensures TagsLoaded(loaded, store, tenant, KindIds(rows), Keys(KindIds(rows)))
  {
    var pairs := KindIds(rows);
    var kinds, idsByKind := GroupByKey(pairs);
    loaded := map[];
    for i := 0 to |kinds|
      invariant TagsLoaded(loaded, store, tenant, pairs, kinds[..i])
    {
      var kind := kinds[i];
      if kind in TAGGED_TYPES {
        var tags := LoadTagsForEntities(store.tags, kind, tenant, idsByKind[kind]);
        loaded := loaded[kind := tags];
      }
      assert kinds[..i + 1] == kinds[..i] + [kind];
    }
    assert kinds[..|kinds|] == kinds;
  }

  /** What the response loop makes of one row. */
  function MakeItem(loaded: map<string, map<Id, seq<string>>>, fold: string -> string, query: string, row: Row): Item {
    var matchField := if Includes(fold(row.name), fold(query)) then "name" else "description";
    var tags := if row.kind in loaded then Lookup(loaded[row.kind], row.id) else [];
    Item(row.kind, row.id, row.name, matchField, tags)
  }

  method Results(store: Store, fold: string -> string, query: string, tenant: Id, rows: seq<Row>) returns (items: seq<Item>)
    ensures |items| == |rows| && forall i :: 0 <= i < |rows| ==> items[i] == ItemOf(store, fold, query, tenant, rows[i])
  {
    var loaded := LoadTags(store, tenant, rows);
    items := [];
    for i := 0 to |rows|
      invariant |items| == i && forall j :: 0 <= j < i ==> items[j] == MakeItem(loaded, fold, query, rows[j])
    {
      items := items + [MakeItem(loaded, fold, query, rows[i])];
    }
    forall i | 0 <= i < |rows| ensures items[i] == ItemOf(store, fold, query, tenant, rows[i]) {
      MadeItem(loaded, store, fold, query, tenant, rows, i);
    }
  }

  lemma MadeItem(loaded: map<string, map<Id, seq<string>>>, store: Store, fold: string -> string, query: string, tenant: Id,
                 rows: seq<Row>, i: nat)
    requires i < |rows| && TagsLoaded(loaded, store, tenant, KindIds(rows), Keys(KindIds(rows)))
    ensures MakeItem(loaded, fold, query, rows[i]) == ItemOf(store, fold, query, tenant, rows[i])
  {
    var pairs := KindIds(rows);
    GroupingKeepsRows(pairs);
    assert pairs[i] in pairs;
    assert rows[i].id in Values(pairs, rows[i].kind);
  }

  /** `kinds` is the order in which the set of search types happens to be iterated. */
  method Search(store: Store, fold: string -> string, query: string, user: User, tenant: Id, types: seq<string>,
                kinds: seq<string>, limit: nat, offset: nat) returns (response: Response)
    requires NoRepeats(kinds) && forall k :: k in kinds <==> k in SearchTypes(types)
    ensures Strip(query) == "" ==> response == Response([], 0, query)
    ensures Strip(query) != "" ==>
      var page := Slice(Arranged(store, fold, Strip(query), user, tenant, kinds), offset, limit);
      && response.query == Strip(query)
      && response.total == |Combined(store, fold, Strip(query), user, tenant, kinds)|
      && |response.items| == |page|
      && forall i :: 0 <= i < |page| ==> response.items[i] == ItemOf(store, fold, Strip(query), tenant, page[i])
  {
    var q := Strip(query);
    if q == "" {
      return Response([], 0, query);
    }
    var combined: seq<Row> := [];
    for i := 0 to |kinds|
      invariant combined == Combined(store, fold, q, user, tenant, kinds[..i])
    {
      assert kinds[..i + 1][..i] == kinds[..i];
      var kind := kinds[i];
      BuiltOrEmpty(store, fold, q, user, tenant, kind);
      var isAdmin := CheckIsAdmin(user, tenant, [TENANT_GLOBAL_ADMIN, AdminRole(kind)]);
      if kind in MEMBER_TYPES || isAdmin {
        combined := combined + BuildSubquery(store, fold, q, user, tenant, kind, isAdmin);
      }
    }
    assert kinds[..|kinds|] == kinds;
    var page := Slice(SortBy(combined, ByName), offset, limit);
    var items := Results(store, fold, q, tenant, page);
    response := Response(items, |combined|, q);
  }

  // ---------- What a search shows, told without its definitions ----------

  /** The roles that administer a searchable type. */
  predicate Opens(role: string, kind: string) {
    role == "TENANT_GLOBAL_ADMIN" || (kind, role) in {
      ("chat_agent", "CHAT_AGENTS_ADMIN"), ("workflow", "WORKFLOWS_ADMIN"), ("conversation", "CONVERSATIONS_ADMIN"),
      ("chat_widget", "CHAT_WIDGETS_ADMIN"), ("external_app", "EXTERNAL_APPS_ADMIN"), ("credential", "CREDENTIALS_ADMIN"),
      ("tenant_ai_model", "TENANT_AI_MODELS_ADMIN"), ("custom_group", "CUSTOM_GROUPS_ADMIN")}
  }

  /** A member row of the type's table gives the caller, or one of the caller's identity or custom groups, a role on the row. */
  ghost predicate GivenTo(store: Store, user: User, tenant: Id, row: Row) {
    exists m :: row.kind in store.members && m in store.members[row.kind] && m.tenant == tenant && m.resource == row.id
                && (m.principal == user.id || Group(m.principal, IdentityGroup) in user.groups || Group(m.principal, CustomGroup) in user.groups)
  }

  ghost predicate Opened(user: User, tenant: Id, kind: string) {
    exists role :: Opens(role, kind) && Holds(user, tenant, role)
  }

  lemma OpenedToAdmins(user: User, tenant: Id, kind: string)
    requires kind in VALID_SEARCH_TYPES
    ensures CheckIsAdmin(user, tenant, [TENANT_GLOBAL_ADMIN, AdminRole(kind)]) <==> Opened(user, tenant, kind)
  {
    AdminHolds(user, tenant, [TENANT_GLOBAL_ADMIN, AdminRole(kind)]);
    assert forall role :: role in [TENANT_GLOBAL_ADMIN, AdminRole(kind)] <==> Opens(role, kind);
  }

  lemma GivenToMembers(store: Store, user: User, tenant: Id, row: Row)
    ensures row.id in MemberOf(MembersOfType(store, row.kind), tenant, set p | p in TypedPrincipalIds(user)) <==> GivenTo(store, user, tenant, row)
  {
    forall p ensures p in TypedPrincipalIds(user) <==>
      p == user.id || Group(p, IdentityGroup) in user.groups || Group(p, CustomGroup) in user.groups
    {
      GroupIdsAre(user.groups, IdentityGroup, p);
      GroupIdsAre(user.groups, CustomGroup, p);
    }
  }

  /** Which rows a search shows: those of the tenant and of the types asked for, or of any of the nine types if none is named, that the
      query hits and whose type the caller administers or, for the six types with members, that a member row gives to the caller. */
  lemma SearchShows(store: Store, fold: string -> string, query: string, user: User, tenant: Id, types: seq<string>, kinds: seq<string>, row: Row)
    requires NoRepeats(kinds) && forall k :: k in kinds <==> k in SearchTypes(types)
    ensures row in Arranged(store, fold, query, user, tenant, kinds) <==>
      && row in store.rows && row.tenant == tenant && Hit(fold, query, row)
      && (types == [] || row.kind in types)
      && row.kind in {"chat_agent", "workflow", "conversation", "chat_widget", "external_app", "credential", "tenant_ai_model",
                      "principal", "custom_group"}
      && (Opened(user, tenant, row.kind)
          || (row.kind !in {"tenant_ai_model", "principal", "custom_group"} && GivenTo(store, user, tenant, row)))
  {
    ArrangedMembers(store, fold, query, user, tenant, kinds, row);
    if row.kind in VALID_SEARCH_TYPES {
      AdmitsIs(store, user, tenant, row);
    }
  }

  lemma ArrangedMembers(store: Store, fold: string -> string, query: string, user: User, tenant: Id, kinds: seq<string>, row: Row)
    requires NoRepeats(kinds)
    ensures row in Arranged(store, fold, query, user, tenant, kinds) <==>
      row in store.rows && row.tenant == tenant && row.kind in kinds && Hit(fold, query, row) && Admits(store, user, tenant, row.kind, row.id)
  {
    var combined := Combined(store, fold, query, user, tenant, kinds);
    CombinedMembers(store, fold, query, user, tenant, kinds);
    NameIsTotalPreorder();
    SortByPermutes(combined, ByName);
    var found := Arranged(store, fold, query, user, tenant, kinds);
    assert row in combined <==> row in multiset(combined);
    assert row in found <==> row in multiset(found);
  }

  lemma AdmitsIs(store: Store, user: User, tenant: Id, row: Row)
    requires row.kind in VALID_SEARCH_TYPES
    ensures Admits(store, user, tenant, row.kind, row.id) <==>
      Opened(user, tenant, row.kind)
      || (row.kind !in {"tenant_ai_model", "principal", "custom_group"} && GivenTo(store, user, tenant, row))
  {
    OpenedToAdmins(user, tenant, row.kind);
    GivenToMembers(store, user, tenant, row);
  }

  /** The whitespace characters by number. */
  lemma SpaceIs(c: char)
    ensures IsSpace(c) <==> c as int in {
      9, 10, 11, 12, 13, 28, 29, 30, 31, 32, 133, 160, 5760, 8192, 8193, 8194, 8195, 8196, 8197, 8198, 8199, 8200, 8201, 8202,
      8232, 8233, 8239, 8287, 12288}
  {
  }

  /** What the query is stripped of: whitespace at both ends, and all of it. */
  lemma StripIs(s: string)
    ensures exists a: string, b: string :: s == a + Strip(s) + b && (forall c :: c in a + b ==> IsSpace(c))
    ensures Strip(s) != "" ==> !IsSpace(Strip(s)[0]) && !IsSpace(Strip(s)[|Strip(s)| - 1])
  {
    var a := StripLeftIs(s);
    var b := StripRightIs(StripLeft(s));
    assert s == a + Strip(s) + b;
    assert forall c :: c in a + b ==> c in a || c in b;
  }

  lemma {:induction false} StripLeftIs(s: string) returns (a: string)
    ensures s == a + StripLeft(s) && (forall c :: c in a ==> IsSpace(c))
    ensures StripLeft(s) != "" ==> !IsSpace(StripLeft(s)[0])
  {
    a := "";
    if s != "" && IsSpace(s[0]) {
      a := StripLeftIs(s[1..]);
      a := [s[0]] + a;
    }
  }

  lemma {:induction false} StripRightIs(s: string) returns (b: string)
    ensures s == StripRight(s) + b && (forall c :: c in b ==> IsSpace(c))
    ensures StripRight(s) != "" ==> StripRight(s)[0] == s[0] && !IsSpace(StripRight(s)[|StripRight(s)| - 1])
  {
    b := "";
    if s != "" && IsSpace(s[|s| - 1]) {
      b := StripRightIs(s[..|s| - 1]);
      b := b + [s[|s| - 1]];
    }
  }

  /** What a response says of a row: its key and name, whether the query is in the name or else in another column, and the tags of the six
      types that have tags. */
  lemma ItemsSay(store: Store, fold: string -> string, query: string, tenant: Id, row: Row, tag: string)
    ensures var item := ItemOf(store, fold, query, tenant, row);
      && (item.kind, item.id, item.name) == (row.kind, row.id, row.name)
      && (item.matchField == "name" <==> exists a: string, b: string :: fold(row.name) == a + fold(query) + b)
      && (item.matchField != "name" ==> item.matchField == "description")
      && (tag in item.tags <==>
            row.kind in {"chat_agent", "workflow", "chat_widget", "external_app", "credential", "tenant_ai_model"}
            && TagRow(row.kind, tenant, row.id, tag) in store.tags)
  {
    var name, text := fold(row.name), fold(query);
    assert |"name"| != |"description"|;
    if i :| 0 <= i <= |name| && OccursAt(text, name, i) {
      assert name == name[..i] + text + name[i..][|text|..];
    }
    if a: string, b: string :| name == a + text + b {
      assert name[|a|..] == text + b;
      assert OccursAt(text, name, |a|);
    }
    OwnTagsAre(store.tags, row.kind, tenant, row.id, tag);
  }

  lemma {:induction false} OwnTagsAre(tags: seq<TagRow>, kind: string, tenant: Id, id: Id, tag: string)
    ensures tag in OwnTags(tags, kind, tenant, id) <==> TagRow(kind, tenant, id, tag) in tags
  {
    if tags != [] {
      OwnTagsAre(tags[..|tags| - 1], kind, tenant, id, tag);
      assert tags == tags[..|tags| - 1] + [tags[|tags| - 1]];
    }
  }
}
