/** Recent visits: a batch upsert, an eviction down to fifty rows, and a listing that fetches twice as many rows as it
    needs so that deleted resources can be dropped. */
module RecentVisits {
  import opened Schema
  import opened Sequences

  const MAX_VISITS_PER_USER := 50

  /** Rows are unique on all four columns. */
  datatype VisitKey = VisitKey(tenant: Id, user: Id, resourceType: string, resource: Id)

  datatype Visit = Visit(name: string, at: nat)

  datatype Item = Item(resourceType: string, resource: Id, name: string)

  type Table = map<VisitKey, Visit>

  function UserKeys(table: Table, tenant: Id, user: Id): set<VisitKey> {
    set k | k in table && k.tenant == tenant && k.user == user
  }

  function KeyOf(tenant: Id, user: Id, item: Item): VisitKey {
    VisitKey(tenant, user, item.resourceType, item.resource)
  }

  function KeysOf(tenant: Id, user: Id, items: seq<Item>): seq<VisitKey> {
    seq(|items|, i requires 0 <= i < |items| => KeyOf(tenant, user, items[i]))
  }

  // ---------- The batch upsert ----------

  /** The items that find no committed row. The session does not flush before it queries, so an item whose key an
      earlier item of the same request is about to insert is among them too. */
  function NewItems(table: Table, tenant: Id, user: Id, items: seq<Item>): seq<Item> {
    if items == [] then []
    else
      var last := items[|items| - 1];
      NewItems(table, tenant, user, items[..|items| - 1])
      + if KeyOf(tenant, user, last) in table then [] else [last]
  }

  /** Updates of existing rows read the clock one by one: `clock(i)` is the i-th reading ever taken. */
  function Updated(table: Table, tenant: Id, user: Id, items: seq<Item>, clock: nat -> nat, taken: nat): (Table, nat) {
    if items == [] then (table, taken)
    else
      var (t, n) := Updated(table, tenant, user, items[..|items| - 1], clock, taken);
      var last := items[|items| - 1];
      var key := KeyOf(tenant, user, last);
      if key in table then (t[key := Visit(last.name, clock(n))], n + 1) else (t, n)
  }

  /** Inserts read it when they are flushed, in the order they were added. */
  function Inserted(table: Table, tenant: Id, user: Id, items: seq<Item>, clock: nat -> nat, taken: nat): (Table, nat) {
    if items == [] then (table, taken)
    else
      var (t, n) := Inserted(table, tenant, user, items[..|items| - 1], clock, taken);
      var last := items[|items| - 1];
      (t[KeyOf(tenant, user, last) := Visit(last.name, clock(n))], n + 1)
  }

  /** The rows after the first commit, when it succeeds. */
  function Committed(table: Table, tenant: Id, user: Id, items: seq<Item>, clock: nat -> nat, taken: nat): (Table, nat) {
    var (t, n) := Updated(table, tenant, user, items, clock, taken);
    Inserted(t, tenant, user, NewItems(table, tenant, user, items), clock, n)
  }

  const ALLOWED_RESOURCE_TYPES := {"chat_agent", "workflow", "external_app", "chat_widget"}
  const MAX_VISITS := 50
  const MAX_RESOURCE_NAME := 255
  const MAX_RESOURCE_ID := 36

  /** What the request model demands; it sets no limit to the resource ids. */
  predicate Accepted(items: seq<Item>) {
    |items| <= MAX_VISITS && forall i :: i in items ==> i.resourceType in ALLOWED_RESOURCE_TYPES && |i.name| <= MAX_RESOURCE_NAME
  }

  /** The ids of new rows fit their column. */
  predicate IdsFit(items: seq<Item>) {
    forall i :: i in items ==> |i.resource| <= MAX_RESOURCE_ID
  }

  /** The database accepts the batch exactly when no new key is requested twice and the new ids fit. */
  predicate CommitSucceeds(table: Table, tenant: Id, user: Id, items: seq<Item>) {
    var added := NewItems(table, tenant, user, items);
    NoRepeats(KeysOf(tenant, user, added)) && IdsFit(added)
  }

  /** No two places of a request name the same unknown key. */
  ghost predicate UnknownOnce(table: Table, tenant: Id, user: Id, items: seq<Item>) {
    forall i, j :: 0 <= i < j < |items| && KeyOf(tenant, user, items[i]) == KeyOf(tenant, user, items[j]) ==>
      KeyOf(tenant, user, items[i]) in table
  }

  /** Told from the request: no two places name the same unknown key, and every id that is too long is known. */
  lemma CommitSucceedsIff(table: Table, tenant: Id, user: Id, items: seq<Item>)
    ensures CommitSucceeds(table, tenant, user, items) <==>
      && UnknownOnce(table, tenant, user, items)
      && forall i :: i in items && KeyOf(tenant, user, i) !in table ==> |i.resource| <= MAX_RESOURCE_ID
  {
    NewItemsMembers(table, tenant, user, items);
    NewItemsRepeat(table, tenant, user, items);
  }

  lemma {:induction false} NewItemsRepeat(table: Table, tenant: Id, user: Id, items: seq<Item>)
    ensures NoRepeats(KeysOf(tenant, user, NewItems(table, tenant, user, items))) <==> UnknownOnce(table, tenant, user, items)
  {
    if items != [] {
      var front, last := items[..|items| - 1], items[|items| - 1];
      var before, key := NewItems(table, tenant, user, front), KeyOf(tenant, user, last);
      NewItemsRepeat(table, tenant, user, front);
      UnknownNext(table, tenant, user, front, last);
      assert items == front + [last];
      if key !in table {
        NoRepeatsNext(KeysOf(tenant, user, before), key);
        assert KeysOf(tenant, user, before + [last]) == KeysOf(tenant, user, before) + [key];
        NewKeysMembers(table, tenant, user, front, key);
      } else {
        assert before + [] == before;
      }
    }
  }

  lemma UnknownNext(table: Table, tenant: Id, user: Id, front: seq<Item>, last: Item)
    ensures var key := KeyOf(tenant, user, last);
      UnknownOnce(table, tenant, user, front + [last]) <==>
        && UnknownOnce(table, tenant, user, front)
        && (key !in table ==> forall i :: 0 <= i < |front| ==> KeyOf(tenant, user, front[i]) != key)
  {
    var items := front + [last];
    assert forall i :: 0 <= i < |front| ==> items[i] == front[i];
    assert items[|front|] == last;
  }

  lemma NoRepeatsNext<T>(s: seq<T>, x: T)
    ensures NoRepeats(s + [x]) <==> NoRepeats(s) && x !in s
  {
    var next := s + [x];
    assert next[|s|] == x && forall i :: 0 <= i < |s| ==> next[i] == s[i];
  }

  lemma NewKeysMembers(table: Table, tenant: Id, user: Id, items: seq<Item>, key: VisitKey)
    requires key !in table
    ensures key in KeysOf(tenant, user, NewItems(table, tenant, user, items)) <==>
      exists i :: 0 <= i < |items| && KeyOf(tenant, user, items[i]) == key
  {
    var added := NewItems(table, tenant, user, items);
    var keys := KeysOf(tenant, user, added);
    NewItemsMembers(table, tenant, user, items);
    assert forall k :: 0 <= k < |added| ==> keys[k] == KeyOf(tenant, user, added[k]) && added[k] in items;
    if i :| 0 <= i < |items| && KeyOf(tenant, user, items[i]) == key {
      assert items[i] in added;
      var k :| 0 <= k < |added| && added[k] == items[i];
      assert keys[k] == key;
    }
  }

  ghost predicate NonDecreasing(clock: nat -> nat) {
    forall i: nat, j: nat :: i <= j ==> clock(i) <= clock(j)
  }

  ghost predicate Increasing(clock: nat -> nat) {
    forall i: nat, j: nat :: i < j ==> clock(i) < clock(j)
  }

  /** Every stamp in the table is a reading already taken. */
  ghost predicate StampsTaken(table: Table, clock: nat -> nat, taken: nat) {
    forall k :: k in table ==> exists i: nat :: i < taken && table[k].at == clock(i)
  }

  lemma {:induction false} NewItemsMembers(table: Table, tenant: Id, user: Id, items: seq<Item>)
    ensures forall i :: i in NewItems(table, tenant, user, items) <==> i in items && KeyOf(tenant, user, i) !in table
  {
    if items != [] {
      NewItemsMembers(table, tenant, user, items[..|items| - 1]);
      assert items == items[..|items| - 1] + [items[|items| - 1]];
    }
  }

  /** What a pass over some items changes: their rows get new readings as stamps, no other row changes. */
  ghost predicate Stamped(before: Table, after: Table, keys: set<VisitKey>, clock: nat -> nat, taken: nat, taken': nat) {
    && after.Keys == before.Keys + keys
    && taken <= taken'
    && (forall k :: k in after && k !in keys ==> after[k] == before[k])
    && (forall k :: k in keys ==> exists i: nat :: taken <= i < taken' && after[k].at == clock(i))
  }

  /** One more stamp. */
  lemma StampedNext(before: Table, t: Table, keys: set<VisitKey>, clock: nat -> nat, taken: nat, n: nat, key: VisitKey, name: string)
    requires Stamped(before, t, keys, clock, taken, n)
    ensures Stamped(before, t[key := Visit(name, clock(n))], keys + {key}, clock, taken, n + 1)
  {
    var after := t[key := Visit(name, clock(n))];
    forall k | k in keys + {key} ensures exists i: nat :: taken <= i < n + 1 && after[k].at == clock(i) {
      if k == key {
        assert after[k].at == clock(n);
      } else {
        var i: nat :| taken <= i < n && t[k].at == clock(i);
        assert after[k].at == clock(i);
      }
    }
  }

  function KnownKeys(table: Table, tenant: Id, user: Id, items: seq<Item>): set<VisitKey> {
    set i | i in items && KeyOf(tenant, user, i) in table :: KeyOf(tenant, user, i)
  }

  function RequestedKeys(tenant: Id, user: Id, items: seq<Item>): set<VisitKey> {
    set i | i in items :: KeyOf(tenant, user, i)
  }

  lemma {:induction false} UpdatedStamps(table: Table, tenant: Id, user: Id, items: seq<Item>, clock: nat -> nat, taken: nat)
    ensures var (t, n) := Updated(table, tenant, user, items, clock, taken);
      Stamped(table, t, KnownKeys(table, tenant, user, items), clock, taken, n)
  {
    if items != [] {
      var front, last := items[..|items| - 1], items[|items| - 1];
      UpdatedStamps(table, tenant, user, front, clock, taken);
      assert items == front + [last];
      var (t, n) := Updated(table, tenant, user, front, clock, taken);
      var key, keys := KeyOf(tenant, user, last), KnownKeys(table, tenant, user, front);
      assert KnownKeys(table, tenant, user, items) == keys + if key in table then {key} else {};
      if key in table {
        StampedNext(table, t, keys, clock, taken, n, key, last.name);
        assert table.Keys + (keys + {key}) == table.Keys + keys;
      } else {
        assert keys + {} == keys;
      }
    }
  }

  lemma {:induction false} InsertedStamps(table: Table, tenant: Id, user: Id, items: seq<Item>, clock: nat -> nat, taken: nat)
    ensures var (t, n) := Inserted(table, tenant, user, items, clock, taken);
      Stamped(table, t, RequestedKeys(tenant, user, items), clock, taken, n)
  {
    if items != [] {
      var front, last := items[..|items| - 1], items[|items| - 1];
      InsertedStamps(table, tenant, user, front, clock, taken);
      assert items == front + [last];
      var (t, n) := Inserted(table, tenant, user, front, clock, taken);
      var key, keys := KeyOf(tenant, user, last), RequestedKeys(tenant, user, front);
      assert RequestedKeys(tenant, user, items) == keys + {key};
      StampedNext(table, t, keys, clock, taken, n, key, last.name);
    }
  }

  /** After the commit exactly the requested rows carry readings taken during the call; no other row changes. */
  lemma CommittedStamps(table: Table, tenant: Id, user: Id, items: seq<Item>, clock: nat -> nat, taken: nat)
    ensures var (t, n) := Committed(table, tenant, user, items, clock, taken);
      Stamped(table, t, RequestedKeys(tenant, user, items), clock, taken, n)
  {
    var (t, n) := Updated(table, tenant, user, items, clock, taken);
    var added := NewItems(table, tenant, user, items);
    UpdatedStamps(table, tenant, user, items, clock, taken);
    InsertedStamps(t, tenant, user, added, clock, n);
    NewItemsMembers(table, tenant, user, items);
    var updated, inserted := KnownKeys(table, tenant, user, items), RequestedKeys(tenant, user, added);
    assert RequestedKeys(tenant, user, items) == updated + inserted;
    StampedTwice(table, t, Inserted(t, tenant, user, added, clock, n).0, updated, inserted, clock, taken, n,
                 Inserted(t, tenant, user, added, clock, n).1);
  }

  lemma StampedTwice(a: Table, b: Table, c: Table, first: set<VisitKey>, second: set<VisitKey>,
                     clock: nat -> nat, taken: nat, n: nat, n': nat)
    requires Stamped(a, b, first, clock, taken, n) && Stamped(b, c, second, clock, n, n')
    ensures Stamped(a, c, first + second, clock, taken, n')
  {
    forall k | k in first + second ensures exists i: nat :: taken <= i < n' && c[k].at == clock(i) {
      if k in second {
        var i: nat :| n <= i < n' && c[k].at == clock(i);
      } else {
        var i: nat :| taken <= i < n && b[k].at == clock(i);
        assert c[k].at == clock(i);
      }
    }
  }

  /** Stamps are readings already taken, in every state a call leaves. */
  lemma StampsStayTaken(before: Table, after: Table, keys: set<VisitKey>, clock: nat -> nat, taken: nat, taken': nat)
    requires StampsTaken(before, clock, taken) && Stamped(before, after, keys, clock, taken, taken')
    ensures StampsTaken(after, clock, taken')
  {
    forall k | k in after ensures exists i: nat :: i < taken' && after[k].at == clock(i) {
      if k in keys {
        var i: nat :| taken <= i < taken' && after[k].at == clock(i);
      } else {
        var i: nat :| i < taken && before[k].at == clock(i);
        assert after[k].at == clock(i);
      }
    }
  }

  /** With a clock that never goes back nothing in the table is newer than a requested row; with one that always advances
      everything else is older. */
  lemma RequestedAreNewest(table: Table, tenant: Id, user: Id, items: seq<Item>, clock: nat -> nat, taken: nat, key: VisitKey, other: VisitKey)
    requires StampsTaken(table, clock, taken)
    requires key in RequestedKeys(tenant, user, items) && other in table && other !in RequestedKeys(tenant, user, items)
    ensures var t := Committed(table, tenant, user, items, clock, taken).0;
      && key in t && other in t
      && (NonDecreasing(clock) ==> t[other].at <= t[key].at)
      && (Increasing(clock) ==> t[other].at < t[key].at)
  {
    CommittedStamps(table, tenant, user, items, clock, taken);
    var (t, n) := Committed(table, tenant, user, items, clock, taken);
    var i: nat :| i < taken && table[other].at == clock(i);
    var j: nat :| taken <= j < n && t[key].at == clock(j);
    assert t[other] == table[other];
  }

  // ---------- The names ----------

  /** The name of the last item of a request for a resource. */
  function LastName(items: seq<Item>, resourceType: string, resource: Id): Option<string> {
    if items == [] then None
    else
      var last := items[|items| - 1];
      if last.resourceType == resourceType && last.resource == resource then Some(last.name)
      else LastName(items[..|items| - 1], resourceType, resource)
  }

  lemma {:induction false} LastNameIs(items: seq<Item>, i: nat)
    requires i < |items|
    requires forall j :: i < j < |items| ==> (items[j].resourceType, items[j].resource) != (items[i].resourceType, items[i].resource)
    ensures LastName(items, items[i].resourceType, items[i].resource) == Some(items[i].name)
    decreases |items|
  {
    if i < |items| - 1 {
      LastNameIs(items[..|items| - 1], i);
    }
  }

  predicate HasName(table: Table, key: VisitKey, name: string) {
    key in table && table[key].name == name
  }

  lemma {:induction false} UpdatedNames(table: Table, tenant: Id, user: Id, items: seq<Item>, clock: nat -> nat, taken: nat, t: string, r: Id)
    ensures var key, after := VisitKey(tenant, user, t, r), Updated(table, tenant, user, items, clock, taken).0;
      && (key in after <==> key in table)
      && (key in table ==> HasName(after, key, if LastName(items, t, r).Some? then LastName(items, t, r).value else table[key].name))
  {
    if items != [] {
      UpdatedNames(table, tenant, user, items[..|items| - 1], clock, taken, t, r);
    }
  }

  lemma {:induction false} InsertedNames(table: Table, tenant: Id, user: Id, items: seq<Item>, clock: nat -> nat, taken: nat, t: string, r: Id)
    ensures var key, after := VisitKey(tenant, user, t, r), Inserted(table, tenant, user, items, clock, taken).0;
      if LastName(items, t, r).Some? then HasName(after, key, LastName(items, t, r).value)
      else (key in after <==> key in table) && (key in table ==> HasName(after, key, table[key].name))
  {
    if items != [] {
      InsertedNames(table, tenant, user, items[..|items| - 1], clock, taken, t, r);
    }
  }

  lemma {:induction false} NewItemsNames(table: Table, tenant: Id, user: Id, items: seq<Item>, t: string, r: Id)
    ensures LastName(NewItems(table, tenant, user, items), t, r) ==
      if VisitKey(tenant, user, t, r) in table then None else LastName(items, t, r)
  {
    if items != [] {
      var front, last := items[..|items| - 1], items[|items| - 1];
      NewItemsNames(table, tenant, user, front, t, r);
      var before := NewItems(table, tenant, user, front);
      assert (before + [last])[..|before|] == before && before + [] == before;
    }
  }

  /** After the commit the row of every requested resource, updated or inserted, bears the name the request's last item for it gives;
      every other row of the table is as it was. */
  lemma CommittedNames(table: Table, tenant: Id, user: Id, items: seq<Item>, clock: nat -> nat, taken: nat, i: nat)
    requires i < |items|
    requires forall j :: i < j < |items| ==> (items[j].resourceType, items[j].resource) != (items[i].resourceType, items[i].resource)
    ensures var t, key := Committed(table, tenant, user, items, clock, taken).0, VisitKey(tenant, user, items[i].resourceType, items[i].resource);
      key in t && t[key].name == items[i].name
    ensures var t := Committed(table, tenant, user, items, clock, taken).0;
      forall key :: key in table && (forall item :: item in items ==> key != VisitKey(tenant, user, item.resourceType, item.resource)) ==>
        key in t && t[key] == table[key]
  {
    var kind, resource := items[i].resourceType, items[i].resource;
    var (t, n) := Updated(table, tenant, user, items, clock, taken);
    LastNameIs(items, i);
    UpdatedNames(table, tenant, user, items, clock, taken, kind, resource);
    NewItemsNames(table, tenant, user, items, kind, resource);
    InsertedNames(t, tenant, user, NewItems(table, tenant, user, items), clock, n, kind, resource);
    CommittedStamps(table, tenant, user, items, clock, taken);
  }

  // ---------- The order of the stamps ----------

  /** No later item names the same resource. */
  ghost predicate LastOf(items: seq<Item>, i: nat) {
    i < |items| && forall j :: i < j < |items| ==> (items[j].resourceType, items[j].resource) != (items[i].resourceType, items[i].resource)
  }

  predicate Earlier(table: Table, key: VisitKey, other: VisitKey) {
    key in table && other in table && table[key].at < table[other].at
  }

  lemma {:induction false} UpdatedInOrder(table: Table, tenant: Id, user: Id, items: seq<Item>, clock: nat -> nat, taken: nat, i: nat, j: nat)
    requires Increasing(clock) && i < j && LastOf(items, i) && LastOf(items, j)
    requires KeyOf(tenant, user, items[i]) in table && KeyOf(tenant, user, items[j]) in table
    ensures Earlier(Updated(table, tenant, user, items, clock, taken).0, KeyOf(tenant, user, items[i]), KeyOf(tenant, user, items[j]))
    decreases |items|
  {
    var front := items[..|items| - 1];
    if j < |items| - 1 {
      UpdatedInOrder(table, tenant, user, front, clock, taken, i, j);
    } else {
      UpdatedStamps(table, tenant, user, front, clock, taken);
      assert front[i] in front && KeyOf(tenant, user, items[i]) in KnownKeys(table, tenant, user, front);
    }
  }

  lemma InsertedNext(table: Table, t: Table, tenant: Id, user: Id, items: seq<Item>, clock: nat -> nat, n: nat)
    requires items != []
    ensures var before := Inserted(t, tenant, user, NewItems(table, tenant, user, items[..|items| - 1]), clock, n).0;
      var after, key := Inserted(t, tenant, user, NewItems(table, tenant, user, items), clock, n).0, KeyOf(tenant, user, items[|items| - 1]);
      forall k :: k != key ==> (k in after <==> k in before) && (k in after ==> after[k] == before[k])
  {
    var before := NewItems(table, tenant, user, items[..|items| - 1]);
    assert (before + [items[|items| - 1]])[..|before|] == before && before + [] == before;
  }

  lemma {:induction false} InsertedInOrder(table: Table, t: Table, tenant: Id, user: Id, items: seq<Item>, clock: nat -> nat, n: nat, i: nat, j: nat)
    requires Increasing(clock) && i < j && LastOf(items, i) && LastOf(items, j)
    requires KeyOf(tenant, user, items[i]) !in table && KeyOf(tenant, user, items[j]) !in table
    ensures Earlier(Inserted(t, tenant, user, NewItems(table, tenant, user, items), clock, n).0,
                    KeyOf(tenant, user, items[i]), KeyOf(tenant, user, items[j]))
    decreases |items|
  {
    var front, last := items[..|items| - 1], items[|items| - 1];
    if j < |items| - 1 {
      InsertedInOrder(table, t, tenant, user, front, clock, n, i, j);
      InsertedNext(table, t, tenant, user, items, clock, n);
    } else {
      var before := NewItems(table, tenant, user, front);
      NewItemsMembers(table, tenant, user, front);
      assert front[i] in before;
      InsertedLast(t, tenant, user, before, last, clock, n, front[i]);
    }
  }

  lemma InsertedLast(t: Table, tenant: Id, user: Id, before: seq<Item>, last: Item, clock: nat -> nat, n: nat, item: Item)
    requires Increasing(clock) && item in before && KeyOf(tenant, user, item) != KeyOf(tenant, user, last)
    ensures Earlier(Inserted(t, tenant, user, before + [last], clock, n).0, KeyOf(tenant, user, item), KeyOf(tenant, user, last))
  {
    assert (before + [last])[..|before|] == before;
    InsertedStamps(t, tenant, user, before, clock, n);
    assert KeyOf(tenant, user, item) in RequestedKeys(tenant, user, before);
  }

  /** Under an advancing clock rows that were there are stamped in the order of their last mention, new ones after all of them in the
      order of theirs. */
  lemma CommittedInOrder(table: Table, tenant: Id, user: Id, items: seq<Item>, clock: nat -> nat, taken: nat, i: nat, j: nat)
    requires Increasing(clock) && i < j && LastOf(items, i) && LastOf(items, j)
    ensures var t := Committed(table, tenant, user, items, clock, taken).0;
      var first, second := VisitKey(tenant, user, items[i].resourceType, items[i].resource),
                           VisitKey(tenant, user, items[j].resourceType, items[j].resource);
      if first in table || second !in table then Earlier(t, first, second) else Earlier(t, second, first)
  {
    var (t, n) := Updated(table, tenant, user, items, clock, taken);
    var first, second, added := KeyOf(tenant, user, items[i]), KeyOf(tenant, user, items[j]), NewItems(table, tenant, user, items);
    UpdatedStamps(table, tenant, user, items, clock, taken);
    InsertedStamps(t, tenant, user, added, clock, n);
    NewItemsMembers(table, tenant, user, items);
    assert items[i] in items && items[j] in items;
    assert first in table <==> first in KnownKeys(table, tenant, user, items);
    assert second in table <==> second in KnownKeys(table, tenant, user, items);
    assert (first !in table ==> items[i] in added) && (second !in table ==> items[j] in added);
    if first in table && second in table {
      UpdatedInOrder(table, tenant, user, items, clock, taken, i, j);
    } else if first !in table && second !in table {
      InsertedInOrder(table, t, tenant, user, items, clock, n, i, j);
    }
  }

  // ---------- Eviction ----------

  /** The user keeps at most fifty rows, the newest ones; nobody else loses any. */
  ghost predicate Evicts(before: Table, after: Table, tenant: Id, user: Id) {
    && after.Keys <= before.Keys && (forall k :: k in after ==> after[k] == before[k])
    && (forall k :: k in before && !(k.tenant == tenant && k.user == user) ==> k in after)
    && |UserKeys(after, tenant, user)| ==
        (if |UserKeys(before, tenant, user)| <= MAX_VISITS_PER_USER then |UserKeys(before, tenant, user)| else MAX_VISITS_PER_USER)
    && forall kept, gone :: kept in UserKeys(after, tenant, user) && gone in before && gone !in after ==>
        before[gone].at <= before[kept].at
  }

  lemma SubsetSize<T>(a: set<T>, b: set<T>)
    requires a <= b
    ensures |a| <= |b| && (|a| == |b| ==> a == b)
  {
    assert b == a + (b - a);
    if |a| == |b| {
      assert |b - a| == 0;
    }
  }

  /** With a clock that advances from reading to reading, every visit of a request for at most fifty resources survives its
      own eviction. */
  lemma SyncedVisitsSurvive(table: Table, after: Table, tenant: Id, user: Id, items: seq<Item>, clock: nat -> nat, taken: nat, item: Item)
    requires StampsTaken(table, clock, taken) && Increasing(clock) && item in items
    requires |RequestedKeys(tenant, user, items)| <= MAX_VISITS_PER_USER
    requires Evicts(Committed(table, tenant, user, items, clock, taken).0, after, tenant, user)
    ensures KeyOf(tenant, user, item) in after
  {
    CommittedStamps(table, tenant, user, items, clock, taken);
    var committed := Committed(table, tenant, user, items, clock, taken).0;
    var requested, kept := RequestedKeys(tenant, user, items), UserKeys(after, tenant, user);
    var key := KeyOf(tenant, user, item);
    assert key in requested && key in committed;
    if key !in after {
      forall k | k in kept ensures k in requested {
        if k !in requested {
          RequestedAreNewest(table, tenant, user, items, clock, taken, key, k);
        }
      }
      SubsetSize(kept, UserKeys(committed, tenant, user));
      assert key in UserKeys(committed, tenant, user) && key !in kept;
      SubsetSize(kept, requested);
    }
  }

  // ---------- The overfetching list ----------

  /** Which resources exist in the tenant, for the types that have a table. */
  type Existing = map<string, set<Id>>

  predicate Live(existing: Existing, v: VisitKey) {
    v.resourceType in existing && v.resource in existing[v.resourceType]
  }

  /** The grouped check asks only whether the id exists under the type of some fetched visit. */
  predicate LiveUnderSomeType(existing: Existing, visits: seq<VisitKey>, v: VisitKey) {
    exists w :: w in visits && w.resource == v.resource && Live(existing, w)
  }

  function Naive(ordered: seq<VisitKey>, existing: Existing, limit: nat): seq<VisitKey> {
    Slice(Filter(ordered, v => Live(existing, v)), 0, limit)
  }

  /** Fetch 2 * limit, filter, cut. */
  function Overfetched(ordered: seq<VisitKey>, existing: Existing, limit: nat): seq<VisitKey> {
    Slice(Filter(Slice(ordered, 0, limit * 2), v => Live(existing, v)), 0, limit)
  }

  /** The overfetched list is the naive one exactly when the window fills the limit or nothing live lies beyond it. */
  lemma OverfetchIsNaiveIff(ordered: seq<VisitKey>, existing: Existing, limit: nat)
    ensures var window := Slice(ordered, 0, limit * 2); var live := (v: VisitKey) => Live(existing, v);
      Overfetched(ordered, existing, limit) == Naive(ordered, existing, limit) <==>
        |Filter(window, live)| >= limit || Filter(ordered[|window|..], live) == []
  {
    var window := Slice(ordered, 0, limit * 2);
    var live := (v: VisitKey) => Live(existing, v);
    var rest := ordered[|window|..];
    assert ordered == window + rest;
    FilterAppend(window, rest, live);
    var a, b := Filter(window, live), Filter(rest, live);
    if |a| >= limit {
      assert Slice(a + b, 0, limit) == Slice(a, 0, limit);
    } else if b != [] {
      assert |Slice(a + b, 0, limit)| > |a| >= |Slice(a, 0, limit)|;
    } else {
      assert a + b == a;
    }
  }

  /** In particular when at most `limit` of the visits in the window are dead. */
  lemma FewDeadVisits(ordered: seq<VisitKey>, existing: Existing, limit: nat)
    requires |Filter(Slice(ordered, 0, limit * 2), v => !Live(existing, v))| <= limit
    ensures Overfetched(ordered, existing, limit) == Naive(ordered, existing, limit)
  {
    var window := Slice(ordered, 0, limit * 2);
    LiveAndDead(window, existing);
    OverfetchIsNaiveIff(ordered, existing, limit);
    if |window| < limit * 2 {
      assert ordered[|window|..] == [];
    }
  }

  lemma {:induction false} LiveAndDead(visits: seq<VisitKey>, existing: Existing)
    ensures |Filter(visits, v => Live(existing, v))| + |Filter(visits, v => !Live(existing, v))| == |visits|
  {
    if visits != [] {
      LiveAndDead(visits[1..], existing);
    }
  }

  /** The grouped existence check keeps the visits a per-visit check keeps exactly when no dead visit shares its id with
      a live visit of another type. */
  lemma GroupedCheckIsPerVisitIff(visits: seq<VisitKey>, existing: Existing)
    ensures Filter(visits, v => LiveUnderSomeType(existing, visits, v)) == Filter(visits, v => Live(existing, v)) <==>
      forall v, w :: v in visits && w in visits && v.resource == w.resource && Live(existing, w) ==> Live(existing, v)
  {
    SameFilter(visits, v => LiveUnderSomeType(existing, visits, v), v => Live(existing, v));
    if forall v :: v in visits ==> (LiveUnderSomeType(existing, visits, v) <==> Live(existing, v)) {
      forall v, w | v in visits && w in visits && v.resource == w.resource && Live(existing, w) ensures Live(existing, v) {
        assert LiveUnderSomeType(existing, visits, v);
      }
    }
  }

  /** ... which globally unique ids guarantee. */
  lemma UniqueIdsGroupWell(visits: seq<VisitKey>, existing: Existing)
    requires forall v, w :: v in visits && w in visits && v.resource == w.resource ==> v.resourceType == w.resourceType
    ensures Filter(visits, v => LiveUnderSomeType(existing, visits, v)) == Filter(visits, v => Live(existing, v))
  {
    GroupedCheckIsPerVisitIff(visits, existing);
  }

  function UserKeysOfTypes(table: Table, tenant: Id, user: Id, types: seq<string>): set<VisitKey> {
    set k | k in UserKeys(table, tenant, user) && (types == [] || k.resourceType in types)
  }

  /** What the list answers with, of visits in the order of the query. */
  ghost function Listed(ordered: seq<VisitKey>, existing: Existing, limit: nat): seq<VisitKey> {
    var window := Slice(ordered, 0, limit * 2);
    Slice(Filter(window, v => LiveUnderSomeType(existing, window, v)), 0, limit)
  }

  /** All of some keys in order of time; equal times in any order. */
  ghost predicate InTimeOrder(table: Table, keys: set<VisitKey>, ordered: seq<VisitKey>, newestFirst: bool) {
    && keys <= table.Keys
    && NoRepeats(ordered) && (forall k :: k in ordered <==> k in keys)
    && forall i, j :: 0 <= i < j < |ordered| ==>
        if newestFirst then table[ordered[j]].at <= table[ordered[i]].at else table[ordered[i]].at <= table[ordered[j]].at
  }

  /** `answer` is the list over some arrangement of the keys by time. */
  ghost predicate IsListing(table: Table, keys: set<VisitKey>, existing: Existing, limit: nat, answer: seq<VisitKey>) {
    exists ordered :: InTimeOrder(table, keys, ordered, true) && answer == Listed(ordered, existing, limit)
  }

  predicate NoEarlier(table: Table, v: VisitKey, w: VisitKey) {
    v in table && w in table && table[w].at <= table[v].at
  }

  /** With ids unique across types the answer holds live visits of the user only, newest first, at most `limit` of them,
      and is the overfetched form the lemmas above compare with the naive one. */
  lemma ListShowsNewestLive(table: Table, keys: set<VisitKey>, ordered: seq<VisitKey>, existing: Existing, limit: nat)
    requires InTimeOrder(table, keys, ordered, true)
    requires forall v, w :: v in ordered && w in ordered && v.resource == w.resource ==> v.resourceType == w.resourceType
    ensures var answer := Listed(ordered, existing, limit);
      && answer == Overfetched(ordered, existing, limit)
      && |answer| <= limit
      && SortedBy(answer, (v, w) => NoEarlier(table, v, w))
      && forall v :: v in answer ==> v in keys && Live(existing, v)
  {
    var window, newer := Slice(ordered, 0, limit * 2), (v, w) => NoEarlier(table, v, w);
    var live := v => Live(existing, v);
    SlicedMembers(ordered, 0, limit * 2);
    UniqueIdsGroupWell(window, existing);
    NewestSorted(table, keys, ordered);
    SliceSorted(ordered, 0, limit * 2, newer);
    FilterSorted(window, live, newer);
    FilterMembers(window, live);
    SliceSorted(Filter(window, live), 0, limit, newer);
    SlicedMembers(Filter(window, live), 0, limit);
  }

  lemma NewestSorted(table: Table, keys: set<VisitKey>, ordered: seq<VisitKey>)
    requires InTimeOrder(table, keys, ordered, true)
    ensures SortedBy(ordered, (v, w) => NoEarlier(table, v, w))
  {
    forall i, j | 0 <= i < j < |ordered| ensures NoEarlier(table, ordered[i], ordered[j]) {
      assert ordered[i] in keys && ordered[j] in keys;
    }
  }

  /** A list of some types holds the user's visits of those types only; a list of no types, of any. */
  lemma ListIsOfTypes(table: Table, tenant: Id, user: Id, types: seq<string>, existing: Existing, limit: nat, answer: seq<VisitKey>, v: VisitKey)
    requires IsListing(table, UserKeysOfTypes(table, tenant, user, types), existing, limit, answer) && v in answer
    ensures v in table && v.tenant == tenant && v.user == user && (types != [] ==> v.resourceType in types)
  {
    var ordered :| InTimeOrder(table, UserKeysOfTypes(table, tenant, user, types), ordered, true) && answer == Listed(ordered, existing, limit);
    var window := Slice(ordered, 0, limit * 2);
    SlicedMembers(ordered, 0, limit * 2);
    FilterMembers(window, v => LiveUnderSomeType(existing, window, v));
    SlicedMembers(Filter(window, v => LiveUnderSomeType(existing, window, v)), 0, limit);
  }

  /** A list holds each visit once, newest first, and no more than it may. */
  lemma ListIsNewestFirst(table: Table, keys: set<VisitKey>, existing: Existing, limit: nat, answer: seq<VisitKey>)
    requires IsListing(table, keys, existing, limit, answer)
    ensures |answer| <= limit
    ensures forall i, j :: 0 <= i < j < |answer| ==>
      answer[i] != answer[j] && answer[i] in table && answer[j] in table && table[answer[j]].at <= table[answer[i]].at
  {
    var ordered :| InTimeOrder(table, keys, ordered, true) && answer == Listed(ordered, existing, limit);
    var window, later := Slice(ordered, 0, limit * 2), (v, w) => v != w && NoEarlier(table, v, w);
    assert SortedBy(ordered, later);
    SliceSorted(ordered, 0, limit * 2, later);
    var shown := v => LiveUnderSomeType(existing, window, v);
    FilterSorted(window, shown, later);
    SliceSorted(Filter(window, shown), 0, limit, later);
    SlicedMembers(Filter(window, shown), 0, limit);
    forall i, j | 0 <= i < j < |answer|
      ensures answer[i] != answer[j] && answer[i] in table && answer[j] in table && table[answer[j]].at <= table[answer[i]].at
    {
      assert later(answer[i], answer[j]);
    }
  }

  /** While there are no more visits than asked for, a list shows those whose id exists under the type of some of them, their own or
      another. */
  lemma ListShowsExistingIds(table: Table, keys: set<VisitKey>, existing: Existing, limit: nat, answer: seq<VisitKey>, v: VisitKey)
    requires IsListing(table, keys, existing, limit, answer) && |keys| <= limit
    ensures v in answer <==>
      v in keys && exists w :: w in keys && w.resource == v.resource && w.resourceType in existing && w.resource in existing[w.resourceType]
  {
    var ordered :| InTimeOrder(table, keys, ordered, true) && answer == Listed(ordered, existing, limit);
    NoRepeatsSize(ordered, keys);
    assert Slice(ordered, 0, limit * 2) == ordered;
    FilterMembers(ordered, v => LiveUnderSomeType(existing, ordered, v));
    FilterIsShorter(ordered, v => LiveUnderSomeType(existing, ordered, v));
    assert LiveUnderSomeType(existing, ordered, v) <==>
      exists w :: w in keys && w.resource == v.resource && w.resourceType in existing && w.resource in existing[w.resourceType];
  }

  lemma {:induction false} FilterIsShorter<T>(s: seq<T>, p: T -> bool)
    ensures |Filter(s, p)| <= |s|
  {
    if s != [] {
      FilterIsShorter(s[1..], p);
    }
  }

  /** A live visit of the user's, of a type asked for, that a list leaves out although it is not full: at least 2 * limit other visits
      of those types are no older. */
  lemma LeftOutIsOlder(table: Table, tenant: Id, user: Id, types: seq<string>, existing: Existing, limit: nat, answer: seq<VisitKey>, v: VisitKey)
    requires v in table && v.tenant == tenant && v.user == user && (types == [] || v.resourceType in types) && Live(existing, v)
    requires IsListing(table, UserKeysOfTypes(table, tenant, user, types), existing, limit, answer)
    requires v !in answer && |answer| < limit
    ensures |set k | k in UserKeysOfTypes(table, tenant, user, types) && k != v && k in table && table[k].at >= table[v].at| >= 2 * limit
  {
    var keys := UserKeysOfTypes(table, tenant, user, types);
    var ordered :| InTimeOrder(table, keys, ordered, true) && answer == Listed(ordered, existing, limit);
    BeyondWindow(table, keys, existing, limit, ordered, v);
    var window := ordered[..2 * limit];
    var earlier, all := set k | k in window, set k | k in keys && k != v && k in table && table[k].at >= table[v].at;
    NoRepeatsSize(window, earlier);
    forall k | k in earlier ensures k in all {
      var i :| 0 <= i < 2 * limit && window[i] == k;
      assert ordered[i] == k && k in ordered;
    }
    SubsetSize(earlier, all);
  }

  lemma BeyondWindow(table: Table, keys: set<VisitKey>, existing: Existing, limit: nat, ordered: seq<VisitKey>, v: VisitKey)
    requires v in keys && Live(existing, v) && InTimeOrder(table, keys, ordered, true)
    requires v !in Listed(ordered, existing, limit) && |Listed(ordered, existing, limit)| < limit
    ensures |ordered| > 2 * limit && v !in ordered[..2 * limit]
    ensures forall i :: 0 <= i < 2 * limit ==> table[v].at <= table[ordered[i]].at
  {
    var window := Slice(ordered, 0, limit * 2);
    var kept := Filter(window, v => LiveUnderSomeType(existing, window, v));
    assert v in ordered;
    var k :| 0 <= k < |ordered| && ordered[k] == v;
    FilterMembers(window, v => LiveUnderSomeType(existing, window, v));
    assert |kept| < limit && Listed(ordered, existing, limit) == kept;
    assert v !in window;
    assert forall i :: 0 <= i < |window| ==> window[i] == ordered[i];
  }

  /** Eviction leaves a user at most fifty rows, and drops none of fifty. */
  lemma EvictionKeepsFifty(before: Table, after: Table, tenant: Id, user: Id)
    requires Evicts(before, after, tenant, user)
    ensures var had, has := set k | k in before && k.tenant == tenant && k.user == user, set k | k in after && k.tenant == tenant && k.user == user;
      has <= had && |has| == if |had| <= 50 then |had| else 50
    ensures (forall kept, gone :: kept in after && kept.tenant == tenant && kept.user == user && gone in before && gone !in after ==>
      before[gone].at <= before[kept].at)
  {
    assert (set k | k in before && k.tenant == tenant && k.user == user) == UserKeys(before, tenant, user);
    assert (set k | k in after && k.tenant == tenant && k.user == user) == UserKeys(after, tenant, user);
  }
}
