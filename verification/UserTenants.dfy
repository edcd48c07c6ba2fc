/** `get_user_tenants_with_permissions`: the tenant-member rows of a user's principals grouped by tenant, and what the
    admin check makes of the result. */
module UserTenants {
  import opened Schema
  import opened Sequences
  import opened Permissions
  import opened Rbac
  import opened Coherence
  import Text

  ghost predicate StrictlySorted(roles: seq<string>) {
    SortedBy(roles, Text.Leq) && NoRepeats(roles)
  }

  /** The response carries exactly the (tenant, role) pairs: each tenant once, in the order the rows first name it, with
      its roles sorted and without duplicates. */
  ghost predicate Represents(response: seq<TenantRoles>, rows: seq<(Id, string)>) {
    && |response| == |Keys(rows)|
    && forall i :: 0 <= i < |response| ==>
      && response[i].tenant == Keys(rows)[i]
      && StrictlySorted(response[i].roles)
      && forall role :: role in response[i].roles <==> (response[i].tenant, role) in rows
  }

  lemma LeqIsTotalPreorder()
    ensures TotalPreorder(Text.Leq)
  {
    forall x, y ensures Text.Leq(x, y) || Text.Leq(y, x) { Text.LeqTotal(x, y); }
    forall x, y, z | Text.Leq(x, y) && Text.Leq(y, z) ensures Text.Leq(x, z) { Text.LeqTransitive(x, y, z); }
  }

  lemma InsertRole(role: string, sorted: seq<string>)
    requires StrictlySorted(sorted) && role !in sorted
    ensures StrictlySorted(Insert(role, sorted, Text.Leq))
    ensures forall r :: r in Insert(role, sorted, Text.Leq) <==> r == role || r in sorted
  {
    LeqIsTotalPreorder();
    InsertSorted(role, sorted, Text.Leq);
    var next := Insert(role, sorted, Text.Leq);
    assert multiset(next) == multiset([role] + sorted);
    PermutedNoRepeats([role] + sorted, next);
    assert forall r :: r in next <==> r in multiset(next);
    assert forall r :: r in multiset([role] + sorted) <==> r == role || r in sorted;
  }

  /** `sorted(list(roles))` */
  method SortRoles(roles: set<string>) returns (sorted: seq<string>)
    ensures StrictlySorted(sorted)
    ensures forall r :: r in sorted <==> r in roles
  {
    var rest := roles;
    sorted := [];
    while rest != {}
      invariant rest <= roles
      invariant StrictlySorted(sorted)
      invariant forall r :: r in sorted <==> r in roles - rest
      decreases rest
    {
      var role :| role in rest;
      InsertRole(role, sorted);
      sorted, rest := Insert(role, sorted, Text.Leq), rest - {role};
    }
  }

  /** Group the rows by tenant into sets, then turn each set into a sorted list. */
  method GroupUserTenants(rows: seq<(Id, string)>) returns (response: seq<TenantRoles>)
    ensures Represents(response, rows)
  {
    var tenants, roles := GroupIntoSets(rows);
    GroupingKeepsRows(rows);
    response := [];
    for i := 0 to |tenants|
      invariant |response| == i
      invariant forall j :: 0 <= j < i ==>
        && response[j].tenant == tenants[j] && StrictlySorted(response[j].roles)
        && forall role :: role in response[j].roles <==> (tenants[j], role) in rows
    {
      var tenant := tenants[i];
      var sorted := SortRoles(roles[tenant]);
      assert forall role :: role in sorted <==> role in Values(rows, tenant);
      response := response + [TenantRoles(tenant, sorted)];
    }
  }

  // ---------- What the admin check makes of it ----------

  lemma {:induction false} FindTenantFinds(tenants: seq<TenantRoles>, tenant: Id)
    ensures FindTenant(tenants, tenant).Some? ==> FindTenant(tenants, tenant).value in tenants && FindTenant(tenants, tenant).value.tenant == tenant
    ensures FindTenant(tenants, tenant).None? ==> forall t :: t in tenants ==> t.tenant != tenant
  {
    if tenants != [] {
      FindTenantFinds(tenants[1..], tenant);
      assert tenants == [tenants[0]] + tenants[1..];
    }
  }

  /** The admin check over the response is a question about the rows. */
  lemma AdminCheckReadsRows(response: seq<TenantRoles>, rows: seq<(Id, string)>, user: User, tenant: Id, adminRoles: seq<string>)
    requires Represents(response, rows) && user.tenants == response
    ensures CheckIsAdmin(user, tenant, adminRoles) <==> exists role :: role in adminRoles && (tenant, role) in rows
  {
    FindTenantFinds(response, tenant);
    GroupingKeepsRows(rows);
    forall role | (tenant, role) in rows ensures FindTenant(response, tenant).Some? {
      assert tenant in Keys(rows) by { assert role in Values(rows, tenant); }
      var i :| 0 <= i < |Keys(rows)| && Keys(rows)[i] == tenant;
      assert response[i] in response;
    }
  }

  /** End to end: the check holds exactly when some tenant-member row gives one of the user's principals one of the
      roles in that tenant. */
  lemma AdminCheckIsMembership(db: Db, principals: set<Id>, rows: seq<(Id, string)>, response: seq<TenantRoles>,
                               user: User, tenant: Id, adminRoles: seq<string>)
    requires Integrity(db)
    requires forall t, r :: (t, r) in rows <==> (t, r) in RolePairs(db, principals)
    requires Represents(response, rows) && user.tenants == response
    ensures CheckIsAdmin(user, tenant, adminRoles) <==>
      exists row :: row in db.roles && row.tenant == tenant && row.principal in principals && row.role in adminRoles
  {
    AdminCheckReadsRows(response, rows, user, tenant, adminRoles);
    forall row | row in db.roles && row.principal in principals
      ensures (row.tenant, row.role) in RolePairs(db, principals)
    {
      assert (row.tenant, row.principal) in db.principals;
    }
    if role :| role in adminRoles && (tenant, role) in rows {
      assert (tenant, role) in RolePairs(db, principals);
    }
  }

  /** More groups never take a role away: whatever the response for fewer principals lists, the one for more lists. */
  lemma RolesAreMonotone(db: Db, fewer: set<Id>, a: seq<TenantRoles>, rows: seq<(Id, string)>,
                         more: set<Id>, b: seq<TenantRoles>, rows': seq<(Id, string)>, tenant: Id, role: string)
    requires fewer <= more && Represents(a, rows) && Represents(b, rows')
    requires forall t, r :: (t, r) in rows <==> (t, r) in RolePairs(db, fewer)
    requires forall t, r :: (t, r) in rows' <==> (t, r) in RolePairs(db, more)
    requires FindTenant(a, tenant).Some? && role in FindTenant(a, tenant).value.roles
    ensures FindTenant(b, tenant).Some? && role in FindTenant(b, tenant).value.roles
  {
    FindTenantFinds(a, tenant);
    FindTenantFinds(b, tenant);
    assert (tenant, role) in RolePairs(db, fewer) && RolePairs(db, fewer) <= RolePairs(db, more);
    assert (tenant, role) in rows';
    RepresentedTenants(b, rows', tenant);
  }

  /** Two responses for the same pairs list the same roles, in the same order, for every tenant. */
  lemma RolesAreDetermined(a: seq<TenantRoles>, rows: seq<(Id, string)>, b: seq<TenantRoles>, rows': seq<(Id, string)>, tenant: Id)
    requires Represents(a, rows) && Represents(b, rows')
    requires forall t, r :: (t, r) in rows <==> (t, r) in rows'
    ensures FindTenant(a, tenant) == FindTenant(b, tenant)
  {
    GroupingKeepsRows(rows);
    GroupingKeepsRows(rows');
    FindTenantFinds(a, tenant);
    FindTenantFinds(b, tenant);
    RepresentedTenants(a, rows, tenant);
    RepresentedTenants(b, rows', tenant);
    if FindTenant(a, tenant).Some? && FindTenant(b, tenant).Some? {
      SortedIsUnique(FindTenant(a, tenant).value.roles, FindTenant(b, tenant).value.roles);
    }
  }

  lemma RepresentedTenants(response: seq<TenantRoles>, rows: seq<(Id, string)>, tenant: Id)
    requires Represents(response, rows)
    ensures FindTenant(response, tenant).Some? <==> exists role :: (tenant, role) in rows
  {
    GroupingKeepsRows(rows);
    FindTenantFinds(response, tenant);
    if FindTenant(response, tenant).Some? {
      var i :| 0 <= i < |response| && response[i].tenant == tenant;
      assert tenant in Keys(rows);
      var role := Values(rows, tenant)[0];
      assert role in Values(rows, tenant);
    }
    if role :| (tenant, role) in rows {
      assert role in Values(rows, tenant);
      var i :| 0 <= i < |Keys(rows)| && Keys(rows)[i] == tenant;
      assert response[i] in response;
    }
  }

  lemma {:induction false} SortedIsUnique(a: seq<string>, b: seq<string>)
    requires StrictlySorted(a) && StrictlySorted(b) && forall x :: x in a <==> x in b
    ensures a == b
    decreases |a|
  {
    if a == [] {
      assert forall k :: 0 <= k < |b| ==> b[k] in b;
    } else {
      assert a[0] in b && b[0] in a;
      Text.LeqTotal(a[0], b[0]);
      assert a[0] == b[0];
      assert a == [a[0]] + a[1..] && b == [b[0]] + b[1..];
      assert a[0] !in a[1..] && b[0] !in b[1..];
      forall x ensures x in a[1..] <==> x in b[1..] {
        assert x in a <==> x == a[0] || x in a[1..];
        assert x in b <==> x == b[0] || x in b[1..];
      }
      SortedIsUnique(a[1..], b[1..]);
    }
  }
}
