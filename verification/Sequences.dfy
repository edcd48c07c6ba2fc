/** Sequence idioms the handlers share: first occurrences, insertion-ordered dictionaries, stable sorting and paging. */
module Sequences {

  // ---------- Distinct values, in order of first occurrence ----------

  function Distinct<T(==)>(s: seq<T>): seq<T> {
    if s == [] then []
    else
      var d, x := Distinct(s[..|s| - 1]), s[|s| - 1];
      if x in d then d else d + [x]
  }

  predicate NoRepeats<T(==)>(s: seq<T>) {
    forall i, j :: 0 <= i < j < |s| ==> s[i] != s[j]
  }

  lemma {:induction false} DistinctKeepsAll<T>(s: seq<T>)
    ensures forall x :: x in Distinct(s) <==> x in s
    ensures NoRepeats(Distinct(s))
  {
    if s != [] {
      DistinctKeepsAll(s[..|s| - 1]);
      assert s == s[..|s| - 1] + [s[|s| - 1]];
    }
  }

  // ---------- Rows grouped by key ----------

  function Firsts<K, V>(rows: seq<(K, V)>): (keys: seq<K>)
    ensures |keys| == |rows|
  {
    if rows == [] then [] else Firsts(rows[..|rows| - 1]) + [rows[|rows| - 1].0]
  }

  /** The values of one key, in row order. */
  function Values<K(==), V>(rows: seq<(K, V)>, key: K): seq<V> {
    if rows == [] then []
    else Values(rows[..|rows| - 1], key) + if rows[|rows| - 1].0 == key then [rows[|rows| - 1].1] else []
  }

  function Keys<K(==), V>(rows: seq<(K, V)>): seq<K> {
    Distinct(Firsts(rows))
  }

  lemma {:induction false} GroupingKeepsRows<K, V>(rows: seq<(K, V)>)
    ensures forall k, v :: (k, v) in rows <==> v in Values(rows, k)
    ensures forall k :: k in Keys(rows) <==> Values(rows, k) != []
    ensures NoRepeats(Keys(rows))
  {
    DistinctKeepsAll(Firsts(rows));
    if rows != [] {
      var front, last := rows[..|rows| - 1], rows[|rows| - 1];
      assert rows == front + [last];
      GroupingKeepsRows(front);
      DistinctKeepsAll(Firsts(front));
    }
  }

  lemma GroupNext<K, V>(rows: seq<(K, V)>, i: nat)
    requires i < |rows|
    ensures forall k :: Values(rows[..i + 1], k) == Values(rows[..i], k) + if rows[i].0 == k then [rows[i].1] else []
    ensures Keys(rows[..i + 1]) == if rows[i].0 in Keys(rows[..i]) then Keys(rows[..i]) else Keys(rows[..i]) + [rows[i].0]
  {
    assert rows[..i + 1][..i] == rows[..i];
    var f := Firsts(rows[..i + 1]);
    assert f[..i] == Firsts(rows[..i]);
  }

  lemma ValuesNext<K, V>(rows: seq<(K, V)>, i: nat, key: K)
    requires i < |rows|
    ensures Values(rows[..i + 1], key) == if rows[i].0 == key then Values(rows[..i], key) + [rows[i].1] else Values(rows[..i], key)
  {
    assert rows[..i + 1][..i] == rows[..i];
  }

  lemma AbsentKey<K, V>(rows: seq<(K, V)>, key: K)
    ensures key !in Keys(rows) <==> Values(rows, key) == []
  {
    GroupingKeepsRows(rows);
  }

  ghost predicate ListsOf<K(!new), V>(keys: seq<K>, groups: map<K, seq<V>>, rows: seq<(K, V)>) {
    && keys == Keys(rows)
    && groups.Keys == (set k | k in keys)
    && forall k :: k in groups ==> groups[k] == Values(rows, k)
  }

  lemma ListsOfNext<K(!new), V>(keys: seq<K>, groups: map<K, seq<V>>, before: seq<(K, V)>, after: seq<(K, V)>, key: K, value: V)
    requires ListsOf(keys, groups, before)
    requires Keys(after) == if key in keys then keys else keys + [key]
    requires forall k :: Values(after, k) == Values(before, k) + if k == key then [value] else []
    requires key !in groups ==> Values(before, key) == []
    ensures ListsOf(if key in groups then keys else keys + [key],
                    groups[key := (if key in groups then groups[key] else []) + [value]], after)
  {
    var next := groups[key := (if key in groups then groups[key] else []) + [value]];
    forall k | k in next ensures next[k] == Values(after, k) {
      assert Values(after, k) == Values(before, k) + if k == key then [value] else [];
      assert k != key ==> next[k] == groups[k] == Values(before, k);
    }
    assert next.Keys == groups.Keys + {key};
  }

  /** `groups.setdefault(key, []).append(value)` over all rows. */
  method GroupByKey<K(==, !new), V>(rows: seq<(K, V)>) returns (keys: seq<K>, groups: map<K, seq<V>>)
    ensures keys == Keys(rows)
    ensures groups.Keys == set k | k in keys
    ensures forall k :: k in groups ==> groups[k] == Values(rows, k)
  {
    keys, groups := [], map[];
    for i := 0 to |rows|
      invariant ListsOf(keys, groups, rows[..i])
    {
      var key, value := rows[i].0, rows[i].1;
      GroupNext(rows, i);
      AbsentKey(rows[..i], key);
      ListsOfNext(keys, groups, rows[..i], rows[..i + 1], key, value);
      keys := if key in groups then keys else keys + [key];
      groups := groups[key := (if key in groups then groups[key] else []) + [value]];
    }
    assert rows[..|rows|] == rows;
  }

  ghost predicate SameElements<V(!new)>(elements: set<V>, s: seq<V>) {
    forall v :: v in elements <==> v in s
  }

  ghost predicate SetsOf<K(!new), V(!new)>(keys: seq<K>, groups: map<K, set<V>>, rows: seq<(K, V)>) {
    && keys == Keys(rows)
    && groups.Keys == (set k | k in keys)
    && forall k :: k in groups ==> SameElements(groups[k], Values(rows, k))
  }

  lemma SetsOfNext<K(!new), V(!new)>(keys: seq<K>, groups: map<K, set<V>>, before: seq<(K, V)>, after: seq<(K, V)>, key: K, value: V)
    requires SetsOf(keys, groups, before)
    requires Keys(after) == if key in keys then keys else keys + [key]
    requires forall k :: Values(after, k) == Values(before, k) + if k == key then [value] else []
    requires key !in groups ==> Values(before, key) == []
    ensures SetsOf(if key in groups then keys else keys + [key],
                   groups[key := (if key in groups then groups[key] else {}) + {value}], after)
  {
  }

  /** `groups.setdefault(key, set()).add(value)` over all rows. */
  method GroupIntoSets<K(==, !new), V(==, !new)>(rows: seq<(K, V)>) returns (keys: seq<K>, groups: map<K, set<V>>)
    ensures keys == Keys(rows)
    ensures groups.Keys == set k | k in keys
    ensures forall k :: k in groups ==> SameElements(groups[k], Values(rows, k))
  {
    keys, groups := [], map[];
    for i := 0 to |rows|
      invariant SetsOf(keys, groups, rows[..i])
    {
      var key, value := rows[i].0, rows[i].1;
      GroupNext(rows, i);
      AbsentKey(rows[..i], key);
      SetsOfNext(keys, groups, rows[..i], rows[..i + 1], key, value);
      keys := if key in groups then keys else keys + [key];
      groups := groups[key := (if key in groups then groups[key] else {}) + {value}];
    }
    assert rows[..|rows|] == rows;
  }

  // ---------- Filtering ----------

  function Filter<T>(s: seq<T>, p: T -> bool): seq<T> {
    if s == [] then [] else (if p(s[0]) then [s[0]] else []) + Filter(s[1..], p)
  }

  lemma {:induction false} FilterAppend<T>(a: seq<T>, b: seq<T>, p: T -> bool)
    ensures Filter(a + b, p) == Filter(a, p) + Filter(b, p)
  {
    if a == [] {
      assert a + b == b;
    } else {
      var x, rest := a[0], a[1..];
      FilterAppend(rest, b, p);
      assert a == [x] + rest && a + b == [x] + (rest + b);
      FilterCons(x, rest, p);
      FilterCons(x, rest + b, p);
      assert [x] + (Filter(rest, p) + Filter(b, p)) == [x] + Filter(rest, p) + Filter(b, p);
    }
  }

  lemma {:induction false} FilterMembers<T(!new)>(s: seq<T>, p: T -> bool)
    ensures forall x :: x in Filter(s, p) <==> x in s && p(x)
    ensures |Filter(s, p)| <= |s|
  {
    if s != [] {
      FilterMembers(s[1..], p);
      assert s == [s[0]] + s[1..];
    }
  }

  lemma {:induction false} SameFilter<T(!new)>(s: seq<T>, p: T -> bool, q: T -> bool)
    ensures Filter(s, p) == Filter(s, q) <==> forall x :: x in s ==> (p(x) <==> q(x))
  {
    FilterMembers(s, p);
    FilterMembers(s, q);
    if s != [] {
      SameFilter(s[1..], p, q);
      assert s == [s[0]] + s[1..];
    }
  }

  lemma {:induction false} AllPass<T>(s: seq<T>)
    ensures Filter(s, x => true) == s
  {
    if s != [] {
      AllPass(s[1..]);
    }
  }

  lemma {:induction false} FilteredCount<T(!new)>(s: seq<T>, p: T -> bool, x: T)
    ensures multiset(Filter(s, p))[x] == if p(x) then multiset(s)[x] else 0
  {
    if s != [] {
      FilteredCount(s[1..], p, x);
      assert s == [s[0]] + s[1..];
    }
  }

  /** A permutation holds as many elements of a class. */
  lemma FilterPermuted<T(!new)>(a: seq<T>, b: seq<T>, p: T -> bool)
    requires multiset(a) == multiset(b)
    ensures |Filter(a, p)| == |Filter(b, p)|
  {
    forall x ensures multiset(Filter(a, p))[x] == multiset(Filter(b, p))[x] {
      FilteredCount(a, p, x);
      FilteredCount(b, p, x);
    }
    assert multiset(Filter(a, p)) == multiset(Filter(b, p));
    assert |multiset(Filter(a, p))| == |Filter(a, p)|;
  }

  // ---------- Stable sorting ----------

  ghost predicate TotalPreorder<T(!new)>(leq: (T, T) -> bool) {
    (forall x, y :: leq(x, y) || leq(y, x)) && forall x, y, z :: leq(x, y) && leq(y, z) ==> leq(x, z)
  }

  /** Insert before the first element that is not strictly smaller, so equal elements keep their order. */
  function Insert<T>(x: T, s: seq<T>, leq: (T, T) -> bool): seq<T> {
    if s == [] then [x]
    else if leq(x, s[0]) then [x] + s
    else [s[0]] + Insert(x, s[1..], leq)
  }

  function SortBy<T>(s: seq<T>, leq: (T, T) -> bool): seq<T> {
    if s == [] then [] else Insert(s[0], SortBy(s[1..], leq), leq)
  }

  predicate SortedBy<T>(s: seq<T>, leq: (T, T) -> bool) {
    forall i, j :: 0 <= i < j < |s| ==> leq(s[i], s[j])
  }

  lemma {:induction false} InsertPermutes<T>(x: T, s: seq<T>, leq: (T, T) -> bool)
    ensures multiset(Insert(x, s, leq)) == multiset{x} + multiset(s)
    ensures forall y :: y in Insert(x, s, leq) <==> y == x || y in s
  {
    if s != [] {
      assert s == [s[0]] + s[1..];
      InsertPermutes(x, s[1..], leq);
    }
  }

  lemma ConsSorted<T>(x: T, s: seq<T>, leq: (T, T) -> bool)
    requires SortedBy(s, leq) && forall y :: y in s ==> leq(x, y)
    ensures SortedBy([x] + s, leq)
  {
    forall i, j | 0 <= i < j < |s| + 1 ensures leq(([x] + s)[i], ([x] + s)[j]) {
      assert s[j - 1] in s;
    }
  }

  lemma {:induction false} InsertSorted<T(!new)>(x: T, s: seq<T>, leq: (T, T) -> bool)
    requires TotalPreorder(leq) && SortedBy(s, leq)
    ensures SortedBy(Insert(x, s, leq), leq)
    ensures multiset(Insert(x, s, leq)) == multiset{x} + multiset(s)
  {
    InsertPermutes(x, s, leq);
    if s != [] {
      var y, rest := s[0], s[1..];
      assert forall z :: z in rest ==> leq(y, z);
      if leq(x, y) {
        assert forall z :: z in s ==> z == y || z in rest;
        ConsSorted(x, s, leq);
      } else {
        InsertSorted(x, rest, leq);
        InsertPermutes(x, rest, leq);
        ConsSorted(y, Insert(x, rest, leq), leq);
      }
    }
  }

  lemma {:induction false} SortByPermutes<T(!new)>(s: seq<T>, leq: (T, T) -> bool)
    requires TotalPreorder(leq)
    ensures SortedBy(SortBy(s, leq), leq)
    ensures multiset(SortBy(s, leq)) == multiset(s)
    ensures |SortBy(s, leq)| == |s|
    ensures forall x :: x in SortBy(s, leq) <==> x in s
  {
    if s != [] {
      SortByPermutes(s[1..], leq);
      InsertSorted(s[0], SortBy(s[1..], leq), leq);
      assert s == [s[0]] + s[1..];
    }
    var sorted := SortBy(s, leq);
    assert |multiset(sorted)| == |sorted| && |multiset(s)| == |s|;
    assert forall x :: x in sorted <==> x in multiset(sorted);
  }

  lemma {:induction false} FilterSorted<T(!new)>(s: seq<T>, p: T -> bool, leq: (T, T) -> bool)
    requires SortedBy(s, leq)
    ensures SortedBy(Filter(s, p), leq)
  {
    if s != [] {
      var rest := s[1..];
      FilterSorted(rest, p, leq);
      FilterMembers(rest, p);
      var kept := Filter(rest, p);
      forall j | 0 <= j < |kept| ensures leq(s[0], kept[j]) {
        var x := kept[j];
        assert x in kept;
        assert x in rest;
        var i :| 0 <= i < |rest| && rest[i] == x;
        assert s[i + 1] == x;
      }
    }
  }

  lemma FilterNoRepeats<T(!new)>(s: seq<T>, p: T -> bool)
    requires NoRepeats(s)
    ensures NoRepeats(Filter(s, p))
  {
    var differs := (x, y) => x != y;
    FilterSorted(s, p, differs);
    var kept := Filter(s, p);
    assert forall i, j :: 0 <= i < j < |kept| ==> differs(kept[i], kept[j]);
  }

  lemma AppendNoRepeats<T>(a: seq<T>, b: seq<T>)
    requires NoRepeats(a) && NoRepeats(b) && forall x :: x in a ==> x !in b
    ensures NoRepeats(a + b)
  {
    forall i, j | 0 <= i < j < |a + b| ensures (a + b)[i] != (a + b)[j] {
      assert i < |a| ==> a[i] in a;
      assert j >= |a| ==> b[j - |a|] in b;
    }
  }

  lemma {:induction false} NoRepeatsSize<T>(s: seq<T>, elements: set<T>)
    requires NoRepeats(s) && forall x :: x in s <==> x in elements
    ensures |s| == |elements|
    decreases |s|
  {
    if s == [] {
      assert elements == {} by { assert forall x :: x in elements ==> x in s; }
    } else {
      var front, last := s[..|s| - 1], s[|s| - 1];
      assert s == front + [last];
      NoRepeatsSize(front, elements - {last});
    }
  }

  /** All elements of the class `p` compare equal. */
  ghost predicate Tied<T(!new)>(leq: (T, T) -> bool, p: T -> bool) {
    forall a, b :: p(a) && p(b) ==> leq(a, b)
  }

  lemma FilterCons<T>(x: T, s: seq<T>, p: T -> bool)
    ensures Filter([x] + s, p) == if p(x) then [x] + Filter(s, p) else Filter(s, p)
  {
    assert ([x] + s)[1..] == s;
  }

  lemma {:induction false} InsertStable<T(!new)>(x: T, s: seq<T>, leq: (T, T) -> bool, p: T -> bool)
    requires Tied(leq, p)
    ensures Filter(Insert(x, s, leq), p) == Filter([x] + s, p)
  {
    FilterCons(x, s, p);
    if s == [] {
      assert [x] + s == [x];
    } else if !leq(x, s[0]) {
      var y, rest := s[0], s[1..];
      assert s == [y] + rest;
      FilterCons(y, rest, p);
      FilterCons(y, Insert(x, rest, leq), p);
      FilterCons(x, rest, p);
      InsertStable(x, rest, leq, p);
      assert !(p(x) && p(y));
    }
  }

  /** Elements that compare equal keep their relative order. */
  lemma {:induction false} SortByStable<T(!new)>(s: seq<T>, leq: (T, T) -> bool, p: T -> bool)
    requires Tied(leq, p)
    ensures Filter(SortBy(s, leq), p) == Filter(s, p)
  {
    if s != [] {
      SortByStable(s[1..], leq, p);
      FilterCons(s[0], SortBy(s[1..], leq), p);
      InsertStable(s[0], SortBy(s[1..], leq), leq, p);
    }
  }

  lemma {:induction false} NoRepeatsCount<T(!new)>(s: seq<T>)
    ensures NoRepeats(s) <==> forall x :: x in s ==> multiset(s)[x] == 1
  {
    if s != [] {
      var front, last := s[..|s| - 1], s[|s| - 1];
      assert s == front + [last];
      NoRepeatsCount(front);
      assert NoRepeats(s) <==> NoRepeats(front) && last !in front;
      if NoRepeats(front) && last in front {
        assert multiset(s)[last] == 2;
      }
      if exists x :: x in front && multiset(front)[x] != 1 {
        var x :| x in front && multiset(front)[x] != 1;
        assert multiset(s)[x] != 1;
      }
    }
  }

  /** A permutation of a sequence without repeats has none either. */
  lemma PermutedNoRepeats<T(!new)>(a: seq<T>, b: seq<T>)
    requires multiset(a) == multiset(b) && NoRepeats(a)
    ensures NoRepeats(b)
  {
    NoRepeatsCount(a);
    NoRepeatsCount(b);
    assert forall x :: x in b ==> x in multiset(a);
  }

  // ---------- Paging ----------

  /** Python's s[skip : skip + limit] and SQL's OFFSET skip LIMIT limit. */
  function Slice<T>(s: seq<T>, skip: nat, limit: nat): seq<T> {
    var from := if skip <= |s| then skip else |s|;
    var to := if from + limit <= |s| then from + limit else |s|;
    s[from..to]
  }

  lemma SlicedMembers<T>(s: seq<T>, skip: nat, limit: nat)
    ensures |Slice(s, skip, limit)| <= limit
    ensures forall x :: x in Slice(s, skip, limit) ==> x in s
  {
  }

  lemma SliceSorted<T>(s: seq<T>, skip: nat, limit: nat, leq: (T, T) -> bool)
    requires SortedBy(s, leq)
    ensures SortedBy(Slice(s, skip, limit), leq)
  {
    var from := if skip <= |s| then skip else |s|;
    forall i, j | 0 <= i < j < |Slice(s, skip, limit)|
      ensures leq(Slice(s, skip, limit)[i], Slice(s, skip, limit)[j])
    {
      assert leq(s[from + i], s[from + j]);
    }
  }

  /** The first `count` pages of a size, one after the other. */
  function Pages<T>(s: seq<T>, size: nat, count: nat): seq<T> {
    if count == 0 then [] else Pages(s, size, count - 1) + Slice(s, (count - 1) * size, size)
  }

  /** Pages put together are the beginning of the list; enough of them are the whole list. */
  lemma {:induction false} PagesCover<T>(s: seq<T>, size: nat, count: nat)
    ensures Pages(s, size, count) == Slice(s, 0, count * size)
    ensures count * size >= |s| ==> Pages(s, size, count) == s
  {
    if count > 0 {
      PagesCover(s, size, count - 1);
      Product(count, size);
      NextSlice(s, (count - 1) * size, size);
    }
  }

  lemma Product(count: nat, size: nat)
    ensures count > 0 ==> count * size == (count - 1) * size + size && (count - 1) * size >= 0
  {
  }

  lemma NextSlice<T>(s: seq<T>, skip: nat, size: nat)
    ensures Slice(s, 0, skip) + Slice(s, skip, size) == Slice(s, 0, skip + size)
  {
  }
}
