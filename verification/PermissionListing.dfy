/** `list_permissions` and `list_tenant_principals`: member rows joined with their principals, grouped by principal,
    sorted by display name and paged. Generic in the principal id, the role and the joined principal record. */
module PermissionListing {
  import opened Sequences
  import Text

  /** One principal of the response: its record comes from the first row, its roles from all of them. */
  datatype Listed<K, R, P> = Listed(principal: K, record: P, roles: seq<R>)

  function RolesIn<R, P>(joined: seq<(R, P)>): (roles: seq<R>)
    ensures |roles| == |joined|
  {
    Firsts(joined)
  }

  function EntryFor<K(==), R(==), P>(rows: seq<(K, (R, P))>, key: K): Listed<K, R, P>
    requires Values(rows, key) != []
  {
    Listed(key, Values(rows, key)[0].1, Distinct(RolesIn(Values(rows, key))))
  }

  function Grouped<K(==), R(==), P>(rows: seq<(K, (R, P))>): seq<Listed<K, R, P>> {
    seq(|Keys(rows)|, i requires 0 <= i < |Keys(rows)| =>
      AbsentKey(rows, Keys(rows)[i]);
      EntryFor(rows, Keys(rows)[i]))
  }

  /** The dictionary holds every principal of the rows, each with its entry. */
  ghost predicate Indexes<K, R, P>(keys: seq<K>, byPrincipal: map<K, Listed<K, R, P>>, rows: seq<(K, (R, P))>) {
    && keys == Keys(rows)
    && byPrincipal.Keys == (set k | k in keys)
    && forall k :: k in byPrincipal ==> Values(rows, k) != [] && byPrincipal[k] == EntryFor(rows, k)
  }

  /** One more row of `key` turns an index of `before` into an index of `after`. */
  lemma IndexesStep<K(!new), R, P>(keys: seq<K>, byPrincipal: map<K, Listed<K, R, P>>, before: seq<(K, (R, P))>,
                                   after: seq<(K, (R, P))>, key: K, joined: (R, P))
    requires Indexes(keys, byPrincipal, before)
    requires Keys(after) == if key in keys then keys else keys + [key]
    requires forall k :: k != key ==> Values(after, k) == Values(before, k)
    requires Values(after, key) != [] && EntryFor(after, key) == Extended(before, key, joined)
    ensures Indexes(if key in keys then keys else keys + [key], byPrincipal[key := Extended(before, key, joined)], after)
  {
    var next := byPrincipal[key := Extended(before, key, joined)];
    forall k | k in next ensures Values(after, k) != [] && next[k] == EntryFor(after, k) {
      assert k != key ==> k in byPrincipal;
    }
  }

  /** The entry a row extends is the one the dictionary holds, if it holds one. */
  lemma IndexedEntry<K(!new), R, P>(keys: seq<K>, byPrincipal: map<K, Listed<K, R, P>>, before: seq<(K, (R, P))>, key: K, joined: (R, P))
    requires Indexes(keys, byPrincipal, before)
    ensures key in keys <==> key in byPrincipal
    ensures Extended(before, key, joined) ==
      var entry := if key in byPrincipal then byPrincipal[key] else Listed(key, joined.1, []);
      if joined.0 in entry.roles then entry else entry.(roles := entry.roles + [joined.0])
  {
    AbsentKey(before, key);
  }

  lemma RowsNext<K, V>(rows: seq<(K, V)>, i: nat)
    requires i < |rows|
    ensures Keys(rows[..i + 1]) == if rows[i].0 in Keys(rows[..i]) then Keys(rows[..i]) else Keys(rows[..i]) + [rows[i].0]
    ensures forall k :: k != rows[i].0 ==> Values(rows[..i + 1], k) == Values(rows[..i], k)
  {
    GroupNext(rows, i);
    forall k | k != rows[i].0 ensures Values(rows[..i + 1], k) == Values(rows[..i], k) { ValuesNext(rows, i, k); }
  }

  /** The dictionary loop: a new principal gets an entry, a role it does not list yet is appended. */
  method GroupPermissions<K(==, !new), R(==), P>(rows: seq<(K, (R, P))>) returns (entries: seq<Listed<K, R, P>>)
    ensures entries == Grouped(rows)
  {
    var keys: seq<K>, byPrincipal: map<K, Listed<K, R, P>> := [], map[];
    for i := 0 to |rows|
      invariant Indexes(keys, byPrincipal, rows[..i])
    {
      RowsNext(rows, i);
      EntryNext(rows, i);
      IndexedEntry(keys, byPrincipal, rows[..i], rows[i].0, rows[i].1);
      IndexesStep(keys, byPrincipal, rows[..i], rows[..i + 1], rows[i].0, rows[i].1);
      keys, byPrincipal := AddRow(keys, byPrincipal, rows[i].0, rows[i].1);
    }
    assert rows[..|rows|] == rows;
    entries := ListEntries(rows, keys, byPrincipal);
  }

  method AddRow<K(==), R(==), P>(keys: seq<K>, byPrincipal: map<K, Listed<K, R, P>>, key: K, joined: (R, P))
    returns (keys': seq<K>, byPrincipal': map<K, Listed<K, R, P>>)
    ensures keys' == if key in byPrincipal then keys else keys + [key]
    ensures byPrincipal' ==
      var entry := if key in byPrincipal then byPrincipal[key] else Listed(key, joined.1, []);
      byPrincipal[key := if joined.0 in entry.roles then entry else entry.(roles := entry.roles + [joined.0])]
  {
    keys', byPrincipal' := keys, byPrincipal;
    if key !in byPrincipal {
      keys' := keys + [key];
      byPrincipal' := byPrincipal[key := Listed(key, joined.1, [])];
    }
    var entry := byPrincipal'[key];
    if joined.0 !in entry.roles {
      byPrincipal' := byPrincipal'[key := entry.(roles := entry.roles + [joined.0])];
    }
  }

  /** `list(principals_dict.values())` */
  method ListEntries<K(==, !new), R(==), P>(ghost rows: seq<(K, (R, P))>, keys: seq<K>, byPrincipal: map<K, Listed<K, R, P>>)
    returns (entries: seq<Listed<K, R, P>>)
    requires Indexes(keys, byPrincipal, rows)
    ensures entries == Grouped(rows)
  {
    entries := [];
    for i := 0 to |keys|
      invariant |entries| == i && forall j :: 0 <= j < i ==> keys[j] in byPrincipal && entries[j] == byPrincipal[keys[j]]
    {
      entries := entries + [byPrincipal[keys[i]]];
    }
    ListedAll(rows, keys, byPrincipal, entries);
  }

  lemma ListedAll<K(!new), R, P>(rows: seq<(K, (R, P))>, keys: seq<K>, byPrincipal: map<K, Listed<K, R, P>>, entries: seq<Listed<K, R, P>>)
    requires Indexes(keys, byPrincipal, rows) && |entries| == |keys|
    requires forall j :: 0 <= j < |keys| ==> keys[j] in byPrincipal && entries[j] == byPrincipal[keys[j]]
    ensures entries == Grouped(rows)
  {
    var grouped := Grouped(rows);
    forall j | 0 <= j < |keys| ensures entries[j] == grouped[j] {
      assert grouped[j] == EntryFor(rows, keys[j]);
    }
  }

  ghost predicate ListsRole<K, R, P>(entries: seq<Listed<K, R, P>>, key: K, role: R) {
    exists e :: e in entries && e.principal == key && role in e.roles
  }

  ghost predicate HasRow<K, R, P(!new)>(rows: seq<(K, (R, P))>, key: K, role: R) {
    exists p :: (key, (role, p)) in rows
  }

  /** What one more row makes of its principal's entry. */
  function Extended<K(==), R(==), P>(rows: seq<(K, (R, P))>, key: K, joined: (R, P)): Listed<K, R, P> {
    var entry := if Values(rows, key) == [] then Listed(key, joined.1, []) else EntryFor(rows, key);
    if joined.0 in entry.roles then entry else entry.(roles := entry.roles + [joined.0])
  }

  lemma EntryNext<K, R, P>(rows: seq<(K, (R, P))>, i: nat)
    requires i < |rows|
    ensures Values(rows[..i + 1], rows[i].0) != []
    ensures EntryFor(rows[..i + 1], rows[i].0) == Extended(rows[..i], rows[i].0, rows[i].1)
  {
    var (key, joined) := rows[i];
    ValuesNext(rows, i, key);
    RolesNext(Values(rows[..i], key), joined);
  }

  lemma RolesNext<R, P>(before: seq<(R, P)>, joined: (R, P))
    ensures Distinct(RolesIn(before + [joined])) ==
      if joined.0 in Distinct(RolesIn(before)) then Distinct(RolesIn(before)) else Distinct(RolesIn(before)) + [joined.0]
  {
    assert (before + [joined])[..|before|] == before;
    var all := RolesIn(before + [joined]);
    assert all == RolesIn(before) + [joined.0];
    assert all[..|all| - 1] == RolesIn(before);
  }

  lemma FirstsMembers<R, P>(joined: seq<(R, P)>, role: R)
    ensures role in RolesIn(joined) <==> exists p :: (role, p) in joined
  {
    if joined != [] {
      var front, last := joined[..|joined| - 1], joined[|joined| - 1];
      assert joined == front + [last];
      FirstsMembers(front, role);
      if role in RolesIn(front) {
        var p :| (role, p) in front;
        assert (role, p) in joined;
      }
      if last.0 == role {
        assert (role, last.1) in joined;
      }
    }
  }

  /** Grouping loses and invents nothing: every principal of the rows once, with each of its roles once. */
  lemma GroupingLosesNothing<K(!new), R(!new), P(!new)>(rows: seq<(K, (R, P))>)
    ensures forall i, j :: 0 <= i < j < |Grouped(rows)| ==> Grouped(rows)[i].principal != Grouped(rows)[j].principal
    ensures forall e :: e in Grouped(rows) ==> NoRepeats(e.roles)
    ensures forall k, r :: ListsRole(Grouped(rows), k, r) <==> HasRow(rows, k, r)
  {
    GroupingKeepsRows(rows);
    var entries := Grouped(rows);
    forall e | e in entries ensures NoRepeats(e.roles) {
      DistinctKeepsAll(RolesIn(Values(rows, e.principal)));
    }
    forall k, r ensures ListsRole(entries, k, r) <==> HasRow(rows, k, r) {
      FirstsMembers(Values(rows, k), r);
      DistinctKeepsAll(RolesIn(Values(rows, k)));
      if p :| (k, (r, p)) in rows {
        assert (r, p) in Values(rows, k);
        var i :| 0 <= i < |Keys(rows)| && Keys(rows)[i] == k;
        assert entries[i] in entries && r in entries[i].roles;
      }
      if e :| e in entries && e.principal == k && r in e.roles {
        var p :| (r, p) in Values(rows, k);
        assert (k, (r, p)) in rows;
      }
    }
  }

  // ---------- Sorting and paging ----------

  /** Ascending or descending by a key such as the lower-cased display name. */
  function ByKey<T>(key: T -> string, descending: bool): (T, T) -> bool {
    (x, y) => if descending then Text.Leq(key(y), key(x)) else Text.Leq(key(x), key(y))
  }

  lemma ByKeyIsTotalPreorder<T(!new)>(key: T -> string, descending: bool)
    ensures TotalPreorder(ByKey(key, descending))
  {
    var leq := ByKey(key, descending);
    forall x, y ensures leq(x, y) || leq(y, x) { Text.LeqTotal(key(x), key(y)); }
    forall x, y, z | leq(x, y) && leq(y, z) ensures leq(x, z) {
      if descending {
        Text.LeqTransitive(key(z), key(y), key(x));
      } else {
        Text.LeqTransitive(key(x), key(y), key(z));
      }
    }
  }

  function Ordered<T>(entries: seq<T>, key: T -> string, sorted: bool, descending: bool): seq<T> {
    if sorted then SortBy(entries, ByKey(key, descending)) else entries
  }

  method ListPermissions<K(==, !new), R(==), P>(rows: seq<(K, (R, P))>, name: Listed<K, R, P> -> string,
                                          sorted: bool, descending: bool, skip: nat, limit: nat)
    returns (page: seq<Listed<K, R, P>>)
    ensures page == Slice(Ordered(Grouped(rows), name, sorted, descending), skip, limit)
  {
    var entries := GroupPermissions(rows);
    if sorted {
      entries := SortBy(entries, ByKey(name, descending));
    }
    page := Slice(entries, skip, limit);
  }

  /** The pages of any positive size, put together, are one ordering of the grouped principals: sorted by name, those
      with the same name in grouping order, and none lost or repeated across page boundaries. */
  lemma PagesListEveryone<K(!new), R(!new), P(!new)>(rows: seq<(K, (R, P))>, name: Listed<K, R, P> -> string,
                                                    descending: bool, size: nat, count: nat, same: string)
    requires count * size >= |Grouped(rows)|
    ensures var all := Pages(Ordered(Grouped(rows), name, true, descending), size, count);
      && multiset(all) == multiset(Grouped(rows))
      && SortedBy(all, ByKey(name, descending))
      && Filter(all, e => name(e) == same) == Filter(Grouped(rows), e => name(e) == same)
  {
    var leq := ByKey(name, descending);
    ByKeyIsTotalPreorder(name, descending);
    SortByPermutes(Grouped(rows), leq);
    PagesCover(SortBy(Grouped(rows), leq), size, count);
    var tie := (e: Listed<K, R, P>) => name(e) == same;
    Text.LeqTotal(same, same);
    assert Tied(leq, tie);
    SortByStable(Grouped(rows), leq, tie);
  }

  /** The listing, told from the rows: sorted pages run by name in the direction asked for, unsorted ones in the order in which the
      principals first occur; each entry has the record of its principal's first row. */
  lemma ListedInOrder<K(!new), R(!new), P(!new)>(rows: seq<(K, (R, P))>, name: Listed<K, R, P> -> string, descending: bool, skip: nat, limit: nat)
    ensures var page := Slice(Ordered(Grouped(rows), name, true, descending), skip, limit);
      forall i, j :: 0 <= i < j < |page| ==>
        if descending then Text.Leq(name(page[j]), name(page[i])) else Text.Leq(name(page[i]), name(page[j]))
    ensures var page := Slice(Ordered(Grouped(rows), name, false, descending), skip, limit);
      forall i, j :: 0 <= i < j < |page| ==> FirstRow(rows, page[i].principal) < FirstRow(rows, page[j].principal)
  {
    var leq := ByKey(name, descending);
    ByKeyIsTotalPreorder(name, descending);
    SortByPermutes(Grouped(rows), leq);
    SliceSorted(SortBy(Grouped(rows), leq), skip, limit, leq);
    var page := Slice(Ordered(Grouped(rows), name, true, descending), skip, limit);
    assert forall i, j :: 0 <= i < j < |page| ==> leq(page[i], page[j]);
    GroupedInRowOrder(rows);
  }

  /** The position of the first row of a principal. */
  function FirstRow<K(==), V>(rows: seq<(K, V)>, key: K): (first: nat)
    ensures first <= |rows| && (first < |rows| ==> rows[first].0 == key)
    ensures forall i :: 0 <= i < first ==> rows[i].0 != key
  {
    if rows == [] then 0
    else
      var before := FirstRow(rows[..|rows| - 1], key);
      if before < |rows| - 1 || rows[|rows| - 1].0 == key then before else |rows|
  }

  lemma FirstRowNext<K, V>(rows: seq<(K, V)>, key: K)
    requires rows != []
    ensures var before := FirstRow(rows[..|rows| - 1], key);
      FirstRow(rows, key) == if before < |rows| - 1 || rows[|rows| - 1].0 == key then before else |rows|
  {
  }

  lemma {:induction false} KeysInRowOrder<K(!new), V>(rows: seq<(K, V)>)
    ensures forall k :: k in Keys(rows) <==> FirstRow(rows, k) < |rows|
    ensures forall i, j :: 0 <= i < j < |Keys(rows)| ==> FirstRow(rows, Keys(rows)[i]) < FirstRow(rows, Keys(rows)[j])
  {
    if rows != [] {
      var n := |rows| - 1;
      var front := rows[..n];
      KeysInRowOrder(front);
      GroupNext(rows, n);
      assert rows[..n + 1] == rows;
      forall k ensures k in Keys(front) ==> FirstRow(rows, k) == FirstRow(front, k)
        ensures k !in Keys(front) ==> FirstRow(rows, k) == if rows[n].0 == k then n else |rows|
      {
        FirstRowNext(rows, k);
      }
    }
  }

  lemma GroupedInRowOrder<K(!new), R, P>(rows: seq<(K, (R, P))>)
    ensures forall i, j :: 0 <= i < j < |Grouped(rows)| ==>
      FirstRow(rows, Grouped(rows)[i].principal) < FirstRow(rows, Grouped(rows)[j].principal)
    ensures forall i :: 0 <= i < |Grouped(rows)| ==>
      var first := FirstRow(rows, Grouped(rows)[i].principal);
      first < |rows| && Grouped(rows)[i].record == rows[first].1.1 && |Grouped(rows)[i].roles| > 0 && Grouped(rows)[i].roles[0] == rows[first].1.0
  {
    KeysInRowOrder(rows);
    forall i | 0 <= i < |Grouped(rows)|
      ensures var first := FirstRow(rows, Grouped(rows)[i].principal);
        first < |rows| && Grouped(rows)[i].record == rows[first].1.1 && |Grouped(rows)[i].roles| > 0 && Grouped(rows)[i].roles[0] == rows[first].1.0
    {
      var k := Keys(rows)[i];
      assert k in Keys(rows);
      FirstValue(rows, k);
      FirstDistinct(RolesIn(Values(rows, k)));
      FirstOfFirsts(Values(rows, k));
      AbsentKey(rows, k);
    }
  }

  lemma {:induction false} FirstValue<K, V>(rows: seq<(K, V)>, key: K)
    ensures FirstRow(rows, key) < |rows| ==> Values(rows, key) != [] && Values(rows, key)[0] == rows[FirstRow(rows, key)].1
    ensures FirstRow(rows, key) == |rows| ==> Values(rows, key) == []
  {
    if rows != [] {
      FirstValue(rows[..|rows| - 1], key);
    }
  }

  lemma {:induction false} FirstDistinct<T>(s: seq<T>)
    ensures s != [] ==> Distinct(s) != [] && Distinct(s)[0] == s[0]
  {
    if |s| > 1 {
      FirstDistinct(s[..|s| - 1]);
    }
  }

  lemma {:induction false} FirstOfFirsts<R, P>(joined: seq<(R, P)>)
    ensures joined != [] ==> RolesIn(joined) != [] && RolesIn(joined)[0] == joined[0].0
  {
    if |joined| > 1 {
      FirstOfFirsts(joined[..|joined| - 1]);
    }
  }
}
