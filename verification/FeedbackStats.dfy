/** Feedback statistics: the same rows counted, ranked, put on a timeline and split by agent along separate routes. */
module FeedbackStats {
  import opened Schema
  import opened Sequences

  datatype Rating = ThumbsUp | ThumbsDown

  datatype Feedback = Feedback(id: Id, tenant: Id, conversation: Id, rating: Rating, reasons: seq<string>, at: int)

  datatype Conversation = Conversation(tenant: Id, agent: Id)

  /** `agents == []` filters by no agent. */
  datatype Query = Query(tenant: Id, agents: seq<Id>, since: Option<int>, until: Option<int>)

  datatype ReasonCount = ReasonCount(reason: string, count: nat)

  datatype Point = Point(at: int, delta: int, cumulative: int)

  datatype AgentStats = AgentStats(agent: Id, total: nat, up: nat, down: nat, score: Option<nat>)

  /** Scores are in thousandths. */
  datatype Stats = Stats(total: nat, up: nat, down: nat, score: Option<nat>, breakdown: seq<ReasonCount>,
                         negative: seq<Feedback>, positive: seq<Feedback>, timeline: seq<Point>, perAgent: seq<AgentStats>)

  const RECENT := 100

  predicate Selects(conversations: map<Id, Conversation>, q: Query, f: Feedback) {
    && f.tenant == q.tenant
    && (q.agents == [] || (f.conversation in conversations
                           && conversations[f.conversation].tenant == q.tenant
                           && conversations[f.conversation].agent in q.agents))
    && (q.since.Some? ==> q.since.value <= f.at)
    && (q.until.Some? ==> f.at <= q.until.value)
  }

  function Selected(table: seq<Feedback>, conversations: map<Id, Conversation>, q: Query): seq<Feedback> {
    Filter(table, f => Selects(conversations, q, f))
  }

  /** Each row belongs to a conversation, each conversation to an agent: two foreign keys that are not nullable. */
  predicate Attached(rows: seq<Feedback>, conversations: map<Id, Conversation>) {
    forall f :: f in rows ==> f.conversation in conversations
  }

  function Rated(rows: seq<Feedback>, rating: Rating): seq<Feedback> {
    Filter(rows, (f: Feedback) => f.rating == rating)
  }

  // ---------- Rounding ----------

  // `round(up / total, 3)` rounds a binary floating-point quotient. Halfway between two multiples of 0.001 the binary error
  // decides which of them it is, unless the quotient is a binary fraction and therefore exact: then it is the even one.

  /** `n` thousandths are nearest to up / total. */
  predicate Nearest(n: int, up: nat, total: nat) {
    var error := 2 * (n * total - 1000 * up);
    error <= total && -error <= total
  }

  /** ... and so is a neighbour of `n`. */
  predicate Halfway(n: int, up: nat, total: nat) {
    var error := 2 * (n * total - 1000 * up);
    error == total || -error == total
  }

  /** The score: a nearest multiple, at a halfway quotient that is a binary fraction (a sixteenth) the even one. */
  predicate ScoreOf(n: int, up: nat, total: nat)
    requires total > 0
  {
    Nearest(n, up, total) && (Halfway(n, up, total) && 16 * up % total == 0 ==> n % 2 == 0)
  }

  predicate IsScore(score: Option<nat>, up: nat, total: nat) {
    if total == 0 then score.None? else score.Some? && ScoreOf(score.value, up, total)
  }

  function Pow2(k: nat): nat {
    if k == 0 then 1 else 2 * Pow2(k - 1)
  }

  ghost predicate BinaryFraction(up: nat, total: nat)
    requires total > 0
  {
    exists k :: up * Pow2(k) % total == 0
  }

  /** A factor 125 does not come from a power of two. */
  lemma {:induction false} OddPartStays(x: nat, k: nat, z: nat) returns (w: nat)
    requires x * Pow2(k) == 125 * z
    ensures x == 125 * w
  {
    if k == 0 {
      w := z;
    } else {
      var y := x * Pow2(k - 1);
      assert x * Pow2(k) == 2 * y;
      Halve(y, z);
      w := OddPartStays(x, k - 1, z / 2);
    }
  }

  lemma Halve(y: nat, z: nat)
    requires 2 * y == 125 * z
    ensures y == 125 * (z / 2)
  {
  }

  /** Of the halfway quotients exactly the sixteenths are binary fractions. */
  lemma HalfwayIsBinaryIff(n: nat, up: nat, total: nat)
    requires total > 0 && Halfway(n, up, total)
    ensures BinaryFraction(up, total) <==> 16 * up % total == 0
  {
    var j := if 2 * (n * total - 1000 * up) == total then 2 * n - 1 else 2 * n + 1;
    OddThousandths(n, j, up, total);
    assert up * Pow2(4) == 16 * up by { assert Pow2(1) == 2 && Pow2(2) == 4 && Pow2(3) == 8; }
    if k :| up * Pow2(k) % total == 0 {
      BinaryIsSixteenth(up, total, j, k);
    }
  }

  lemma OddThousandths(n: nat, j: int, up: nat, total: nat)
    requires total > 0 && Halfway(n, up, total)
    requires j == if 2 * (n * total - 1000 * up) == total then 2 * n - 1 else 2 * n + 1
    ensures 2000 * up == j * total && j >= 0
  {
    Distributes(2 * n, 1, total);
    Distributes(2 * n, -1, total);
    assert (2 * n) * total == 2 * (n * total);
    if j < 0 {
      NegativeProduct(j, total);
    }
  }

  lemma BinaryIsSixteenth(up: nat, total: nat, j: nat, k: nat)
    requires total > 0 && 2000 * up == j * total && up * Pow2(k) % total == 0
    ensures 16 * up % total == 0
  {
    var m := up * Pow2(k) / total;
    ManySixteenths(up, total, j, Pow2(k), m);
    assert j * Pow2(k) == 125 * (16 * m);
    var i := OddPartStays(j, k, 16 * m);
    SixteenthsOf(up, total, i);
  }

  lemma ManySixteenths(up: nat, total: nat, j: int, power: nat, m: nat)
    requires total > 0 && 2000 * up == j * total && up * power == m * total
    ensures 2000 * m == j * power
  {
    assert 2000 * (up * power) == (2000 * up) * power;
    assert (2000 * m) * total == (j * power) * total;
    Cancel(2000 * m, j * power, total);
  }

  lemma Cancel(a: int, b: int, t: int)
    requires t > 0 && a * t == b * t
    ensures a == b
  {
    Distributes(a, b, t);
    TimesAtLeast(a - b, 1, t);
    TimesAtLeast(b - a, 1, t);
  }

  lemma NegativeProduct(j: int, t: int)
    requires j < 0 && t > 0
    ensures j * t < 0
  {
  }

  lemma SixteenthsOf(up: nat, total: nat, i: nat)
    requires total > 0 && 2000 * up == 125 * i * total
    ensures 16 * up % total == 0
  {
    assert 125 * (16 * up) == 125 * (i * total);
    MultipleLeavesNothing(i, total);
  }

  lemma MultipleLeavesNothing(i: nat, t: nat)
    requires t > 0
    ensures i * t % t == 0
  {
    var q, r := i * t / t, i * t % t;
    assert (i - q) * t == r;
    TimesAtLeast(i - q, 1, t);
    if i - q < 0 {
      NegativeProduct(i - q, t);
    }
  }

  /** Some score exists, between 0 and 1000. */
  lemma ScoreExists(up: nat, total: nat)
    requires 0 < total && up <= total
    ensures exists n: nat :: n <= 1000 && ScoreOf(n, up, total)
  {
    var q, r := 1000 * up / total, 1000 * up % total;
    var n := if 2 * r < total || (2 * r == total && q % 2 == 0) then q else q + 1;
    RoundedIsScore(q, r, n, up, total);
    ScoreInRange(n, up, total);
  }

  lemma RoundedIsScore(q: nat, r: nat, n: nat, up: nat, total: nat)
    requires 1000 * up == q * total + r && r < total
    requires n == if 2 * r < total || (2 * r == total && q % 2 == 0) then q else q + 1
    ensures ScoreOf(n, up, total)
  {
    Distributes(q + 1, q, total);
  }

  lemma ScoreInRange(n: int, up: nat, total: nat)
    requires 0 < total && up <= total && Nearest(n, up, total)
    ensures 0 <= n <= 1000
  {
    TimesAtLeast(n, 1001, total);
    TimesAtLeast(-n, 1, total);
  }

  lemma Distributes(a: int, b: int, t: int)
    ensures (a - b) * t == a * t - b * t && (b - a) * t == b * t - a * t
    ensures a - b == 1 ==> a * t - b * t == t
    ensures b - a == 1 ==> b * t - a * t == t
  {
  }

  lemma TimesAtLeast(d: int, k: int, t: int)
    requires 0 < t
    ensures d >= k ==> d * t >= k * t
  {
  }

  /** The score is determined exactly unless the quotient is halfway and no binary fraction. */
  lemma ScoreIsUniqueIff(n: int, up: nat, total: nat)
    requires 0 < total && ScoreOf(n, up, total)
    ensures (forall m :: ScoreOf(m, up, total) ==> m == n) <==> !(Halfway(n, up, total) && 16 * up % total != 0)
  {
    forall m | ScoreOf(m, up, total) && m != n ensures Halfway(n, up, total) && Halfway(m, up, total) && (m == n + 1 || m == n - 1) {
      Distributes(n, m, total);
      TimesAtLeast(n - m, 1, total);
      TimesAtLeast(m - n, 1, total);
      TimesAtLeast(n - m, 2, total);
      TimesAtLeast(m - n, 2, total);
    }
    if Halfway(n, up, total) && 16 * up % total != 0 {
      var m := if 2 * (n * total - 1000 * up) == total then n - 1 else n + 1;
      Distributes(n, m, total);
      assert ScoreOf(m, up, total);
    }
  }

  /** Rounding a quotient that is off by no more than double precision allows still gives a nearest multiple, for up to
      nine million million rows. */
  lemma FloatScoreIsNearest(n: int, quotient: real, up: nat, total: nat)
    requires 0 < total <= 9_000_000_000_000
    requires -1.0 <= 18014398509481984.0 * (quotient - up as real / total as real) <= 1.0
    requires -0.5 <= 1000.0 * quotient - n as real <= 0.5
    ensures Nearest(n, up, total)
  {
    var t, e, m := total as real, up as real / total as real, n as real;
    DivideBack(up as real, t);
    RealProduct(n, total);
    var d := 1000.0 * e - m;
    assert d * t == 1000.0 * (e * t) - m * t;
    assert d * t == (1000 * up - n * total) as real;
    JustOverHalf(t);
    BelowOneMore(d, JUST_OVER_HALF, t);
    BelowOneMore(-d, JUST_OVER_HALF, t);
  }

  lemma BelowOneMore(d: real, c: real, t: real)
    requires 0.0 < t && d < c && 2.0 * (c * t) < t + 1.0
    ensures 2.0 * (d * t) < t + 1.0
  {
    BelowLimit(d, c, t);
  }

  /** More than a half and what the error can add to it, less than a half and one part in two totals. */
  const JUST_OVER_HALF := 0.500000000000055555

  lemma JustOverHalf(t: real)
    requires 0.0 < t <= 9000000000000.0
    ensures 2.0 * (JUST_OVER_HALF * t) < t + 1.0
  {
  }

  lemma BelowLimit(d: real, c: real, t: real)
    requires 0.0 < t && d < c
    ensures d * t < c * t
  {
    PositiveProduct(c - d, t);
    DistributesReal(c, d, t);
  }

  lemma DistributesReal(a: real, b: real, t: real)
    ensures (a - b) * t == a * t - b * t
  {
  }

  /** The score lies in [0, 1], within 0.0005 of the exact quotient. */
  lemma ScoreError(n: int, up: nat, total: nat)
    requires 0 < total && up <= total && ScoreOf(n, up, total)
    ensures var score, exact := n as real / 1000.0, up as real / total as real;
      && 0.0 <= score <= 1.0
      && -0.0005 <= score - exact <= 0.0005
  {
    ScoreInRange(n, up, total);
    Quotient(n, up as int, total as int);
  }

  method RoundScore(up: nat, total: nat) returns (score: Option<nat>)
    requires up <= total
    ensures IsScore(score, up, total)
  {
    if total == 0 {
      return None;
    }
    ScoreExists(up, total);
    var n: nat :| n <= 1000 && ScoreOf(n, up, total);
    score := Some(n);
  }

  lemma Quotient(n: int, up: int, total: int)
    requires 0 < total && 2 * (n * total - 1000 * up) <= total && 2 * (1000 * up - n * total) <= total
    ensures -0.0005 <= n as real / 1000.0 - up as real / total as real <= 0.0005
  {
    var t, e, m := total as real, up as real / total as real, n as real;
    RealProduct(n, total);
    DivideBack(up as real, t);
    var x, u := (n * total) as real, up as real;
    assert 2.0 * (x - 1000.0 * u) <= t && 2.0 * (1000.0 * u - x) <= t;
    assert m * t == x && e * t == u;
    Scale(m, e, t, x, u);
  }

  lemma RealProduct(n: int, total: int)
    ensures (n * total) as real == n as real * total as real
  {
  }

  lemma DivideBack(u: real, t: real)
    requires t > 0.0
    ensures u / t * t == u
  {
  }

  lemma Scale(m: real, e: real, t: real, x: real, u: real)
    requires t > 0.0 && m * t == x && e * t == u
    requires 2.0 * (x - 1000.0 * u) <= t && 2.0 * (1000.0 * u - x) <= t
    ensures -0.0005 <= m / 1000.0 - e <= 0.0005
  {
    var error := m - 1000.0 * e;
    assert error * t == x - 1000.0 * u;
    PositiveProduct(error - 0.5, t);
    PositiveProduct(-error - 0.5, t);
    assert m / 1000.0 - e == error / 1000.0;
  }

  lemma PositiveProduct(x: real, t: real)
    requires t > 0.0
    ensures x > 0.0 ==> x * t > 0.0
  {
  }

  // ---------- The reason histogram ----------

  function Reasons(rows: seq<Feedback>): seq<string> {
    if rows == [] then [] else Reasons(rows[..|rows| - 1]) + rows[|rows| - 1].reasons
  }

  /** `counts` is a dictionary over what has been `seen`, its keys in order of insertion. */
  ghost predicate Counts<T>(keys: seq<T>, counts: map<T, nat>, seen: seq<T>) {
    && keys == Distinct(seen)
    && counts.Keys == (set k | k in keys)
    && forall k :: k in counts ==> counts[k] == multiset(seen)[k]
  }

  lemma CountsStep<T>(keys: seq<T>, counts: map<T, nat>, seen: seq<T>, x: T)
    requires Counts(keys, counts, seen)
    ensures Counts(if x in keys then keys else keys + [x], counts[x := (if x in counts then counts[x] else 0) + 1], seen + [x])
  {
    var counts' := counts[x := (if x in counts then counts[x] else 0) + 1];
    DistinctKeepsAll(seen);
    OneMoreSeen(seen, x);
    forall k | k in counts' ensures counts'[k] == multiset(seen + [x])[k] {
      assert k != x ==> k in counts;
    }
  }

  lemma OneMoreSeen<T>(seen: seq<T>, x: T)
    ensures Distinct(seen + [x]) == if x in Distinct(seen) then Distinct(seen) else Distinct(seen) + [x]
    ensures multiset(seen + [x]) == multiset(seen) + multiset{x}
    ensures x !in seen ==> multiset(seen)[x] == 0
  {
    assert (seen + [x])[..|seen|] == seen;
  }

  /** `counts[item] = counts.get(item, 0) + 1` for every item. */
  method CountInto<T(==)>(keys: seq<T>, counts: map<T, nat>, items: seq<T>, ghost seen: seq<T>)
    returns (keys': seq<T>, counts': map<T, nat>)
    requires Counts(keys, counts, seen)
    ensures Counts(keys', counts', seen + items)
  {
    keys', counts' := keys, counts;
    assert seen + items[..0] == seen;
    for j := 0 to |items|
      invariant Counts(keys', counts', seen + items[..j])
    {
      CountsNext(keys', counts', seen, items, j);
      var item := items[j];
      if item !in counts' {
        keys' := keys' + [item];
      }
      counts' := counts'[item := (if item in counts' then counts'[item] else 0) + 1];
    }
    assert items[..|items|] == items;
  }

  lemma CountsNext<T>(keys: seq<T>, counts: map<T, nat>, seen: seq<T>, items: seq<T>, j: nat)
    requires j < |items| && Counts(keys, counts, seen + items[..j])
    ensures var x := items[j];
      Counts(if x in counts then keys else keys + [x], counts[x := (if x in counts then counts[x] else 0) + 1], seen + items[..j + 1])
  {
    SeenNext(seen, items, j);
    CountsStep(keys, counts, seen + items[..j], items[j]);
  }

  lemma SeenNext<T>(seen: seq<T>, items: seq<T>, j: nat)
    requires j < |items|
    ensures seen + items[..j + 1] == seen + items[..j] + [items[j]]
  {
    assert items[..j + 1] == items[..j] + [items[j]];
  }

  method CountReasons(rows: seq<Feedback>) returns (keys: seq<string>, counts: map<string, nat>)
    ensures Counts(keys, counts, Reasons(rows))
  {
    keys, counts := [], map[];
    for i := 0 to |rows|
      invariant Counts(keys, counts, Reasons(rows[..i]))
    {
      assert rows[..i + 1][..i] == rows[..i];
      keys, counts := CountInto(keys, counts, rows[i].reasons, Reasons(rows[..i]));
    }
    assert rows[..|rows|] == rows;
  }

  predicate CountDescending(x: ReasonCount, y: ReasonCount) {
    y.count <= x.count
  }

  /** Every reason of some rows once, with the number of its occurrences, most frequent first. */
  ghost predicate IsBreakdown(breakdown: seq<ReasonCount>, rows: seq<Feedback>) {
    && SortedBy(breakdown, CountDescending)
    && (forall i, j :: 0 <= i < j < |breakdown| ==> breakdown[i].reason != breakdown[j].reason)
    && (forall e :: e in breakdown ==> e.count == multiset(Reasons(rows))[e.reason] > 0)
    && forall r :: r in Reasons(rows) ==> ReasonCount(r, multiset(Reasons(rows))[r]) in breakdown
  }

  lemma {:induction false} ReasonsAppend(a: seq<Feedback>, b: seq<Feedback>)
    ensures Reasons(a + b) == Reasons(a) + Reasons(b)
  {
    if b == [] {
      assert a + b == a;
    } else {
      assert (a + b)[..|a + b| - 1] == a + b[..|b| - 1];
      ReasonsAppend(a, b[..|b| - 1]);
    }
  }

  lemma WithoutOne<T>(a: seq<T>, b: seq<T>, i: nat)
    requires a != [] && multiset(a) == multiset(b) && i < |b| && b[i] == a[|a| - 1]
    ensures multiset(a[..|a| - 1]) == multiset(b[..i] + b[i + 1..])
    ensures b == b[..i] + [b[i]] + b[i + 1..]
  {
    TakenOut(a, |a| - 1);
    TakenOut(b, i);
    assert a[..|a| - 1] + a[|a|..] == a[..|a| - 1];
  }

  lemma TakenOut<T>(s: seq<T>, i: nat)
    requires i < |s|
    ensures s == s[..i] + [s[i]] + s[i + 1..]
    ensures multiset(s[..i] + s[i + 1..]) == multiset(s) - multiset{s[i]}
  {
    assert s == s[..i] + [s[i]] + s[i + 1..];
    assert multiset(s) == multiset(s[..i]) + multiset{s[i]} + multiset(s[i + 1..]);
  }

  lemma ReasonsWithoutOne(pre: seq<Feedback>, x: Feedback, post: seq<Feedback>)
    ensures multiset(Reasons(pre + [x] + post)) == multiset(Reasons(pre + post)) + multiset(x.reasons)
  {
    ReasonsAppend(pre, post);
    ReasonsAppend(pre + [x], post);
    assert (pre + [x])[..|pre|] == pre;
    assert Reasons(pre + [x]) == Reasons(pre) + x.reasons;
  }

  /** The histogram does not depend on the order of the rows. */
  lemma {:induction false} ReasonsPermuted(a: seq<Feedback>, b: seq<Feedback>)
    requires multiset(a) == multiset(b)
    ensures multiset(Reasons(a)) == multiset(Reasons(b))
    decreases |a|
  {
    if a == [] {
      assert |multiset(b)| == 0;
    } else {
      assert a[|a| - 1] in multiset(b);
      var i :| 0 <= i < |b| && b[i] == a[|a| - 1];
      WithoutOne(a, b, i);
      ReasonsPermuted(a[..|a| - 1], b[..i] + b[i + 1..]);
      ReasonsWithoutOne(b[..i], b[i], b[i + 1..]);
    }
  }

  /** Two lists with the same histogram have the same breakdown. */
  lemma BreakdownPermuted(breakdown: seq<ReasonCount>, a: seq<Feedback>, b: seq<Feedback>)
    requires multiset(a) == multiset(b) && IsBreakdown(breakdown, a)
    ensures IsBreakdown(breakdown, b)
  {
    ReasonsPermuted(a, b);
    assert forall r :: r in Reasons(b) ==> r in multiset(Reasons(b));
  }

  lemma DescendingIsTotalPreorder()
    ensures TotalPreorder(CountDescending)
  {
  }

  /** `sorted(..., key=count, reverse=True)` over the dictionary's items. */
  method RankReasons(keys: seq<string>, counts: map<string, nat>, ghost rows: seq<Feedback>) returns (breakdown: seq<ReasonCount>)
    requires Counts(keys, counts, Reasons(rows))
    ensures IsBreakdown(breakdown, rows)
  {
    var entries := seq(|keys|, i requires 0 <= i < |keys| => ReasonCount(keys[i], counts[keys[i]]));
    breakdown := SortBy(entries, CountDescending);
    DescendingIsTotalPreorder();
    SortByPermutes(entries, CountDescending);
    RankedOnce(keys, counts, entries, breakdown, Reasons(rows));
  }

  lemma RankedOnce(keys: seq<string>, counts: map<string, nat>, entries: seq<ReasonCount>, breakdown: seq<ReasonCount>, seen: seq<string>)
    requires Counts(keys, counts, seen) && |entries| == |keys|
    requires forall i :: 0 <= i < |keys| ==> entries[i] == ReasonCount(keys[i], counts[keys[i]])
    requires multiset(breakdown) == multiset(entries) && forall e :: e in breakdown <==> e in entries
    ensures forall i, j :: 0 <= i < j < |breakdown| ==> breakdown[i].reason != breakdown[j].reason
    ensures forall e :: e in breakdown ==> e.count == multiset(seen)[e.reason] > 0
    ensures forall r :: r in seen ==> ReasonCount(r, multiset(seen)[r]) in breakdown
  {
    DistinctKeepsAll(seen);
    PermutedNoRepeats(entries, breakdown);
    forall e | e in breakdown ensures e.count == multiset(seen)[e.reason] > 0 {
      var i :| 0 <= i < |entries| && entries[i] == e;
      assert keys[i] in seen;
    }
    forall i, j | 0 <= i < j < |breakdown| ensures breakdown[i].reason != breakdown[j].reason {
      assert breakdown[i] in breakdown && breakdown[j] in breakdown && breakdown[i] != breakdown[j];
    }
    forall r | r in seen ensures ReasonCount(r, multiset(seen)[r]) in breakdown {
      var i :| 0 <= i < |keys| && keys[i] == r;
      assert entries[i] in entries;
    }
  }

  // ---------- Newest rows ----------

  predicate Newer(x: Feedback, y: Feedback) {
    y.at <= x.at
  }

  predicate Older(x: Feedback, y: Feedback) {
    x.at <= y.at
  }

  lemma TimeIsTotalPreorder()
    ensures TotalPreorder(Newer) && TotalPreorder(Older)
  {
  }

  /** A hundred newest rows, or all of them when there are no more. */
  lemma RecentOf(rated: seq<Feedback>)
    ensures var recent := Slice(SortBy(rated, Newer), 0, RECENT);
      && |recent| == (if |rated| <= RECENT then |rated| else RECENT)
      && SortedBy(recent, Newer)
      && (|rated| <= RECENT ==> multiset(recent) == multiset(rated))
      && IsPrefixOfTime(recent, rated)
  {
    var sorted := SortBy(rated, Newer);
    TimeIsTotalPreorder();
    SortByPermutes(rated, Newer);
    SliceSorted(sorted, 0, RECENT, Newer);
    var recent := Slice(sorted, 0, RECENT);
    var rest := sorted[|recent|..];
    assert sorted == recent + rest;
    NewerThanRest(recent, rest);
    assert multiset(rated) == multiset(recent) + multiset(rest);
  }

  ghost predicate NoneNewer(recent: seq<Feedback>, rest: seq<Feedback>) {
    forall kept, left :: kept in recent && left in rest ==> Newer(kept, left)
  }

  /** What a list leaves out of the rows is no newer than what it holds. */
  ghost predicate IsPrefixOfTime(recent: seq<Feedback>, rows: seq<Feedback>) {
    exists rest :: multiset(rows) == multiset(recent) + multiset(rest) && NoneNewer(recent, rest)
  }

  lemma NewerThanRest(recent: seq<Feedback>, rest: seq<Feedback>)
    requires SortedBy(recent + rest, Newer)
    ensures NoneNewer(recent, rest)
  {
    forall kept, left | kept in recent && left in rest ensures Newer(kept, left) {
      var i :| 0 <= i < |recent| && recent[i] == kept;
      var j :| 0 <= j < |rest| && rest[j] == left;
      assert Newer((recent + rest)[i], (recent + rest)[|recent| + j]);
    }
  }

  /** ORDER BY created_at DESC LIMIT 100 over the rows of one rating. */
  function Recent(rows: seq<Feedback>, rating: Rating): seq<Feedback> {
    Slice(SortBy(Rated(rows, rating), Newer), 0, RECENT)
  }

  /** The recent list counted once is enough while it is complete; above a hundred everything is counted again. Either
      way the breakdown is the histogram over all negative feedback. */
  method ReasonBreakdown(rows: seq<Feedback>, down: nat) returns (breakdown: seq<ReasonCount>)
    requires down == |Rated(rows, ThumbsDown)|
    ensures IsBreakdown(breakdown, Rated(rows, ThumbsDown))
  {
    var recent, negative := Recent(rows, ThumbsDown), Rated(rows, ThumbsDown);
    RecentOf(negative);
    var keys, counts := CountReasons(recent);
    if down > RECENT {
      keys, counts := CountReasons(negative);
      breakdown := RankReasons(keys, counts, negative);
    } else {
      breakdown := RankReasons(keys, counts, recent);
      BreakdownPermuted(breakdown, recent, negative);
    }
  }

  // ---------- The timeline ----------

  function Delta(f: Feedback): int {
    if f.rating == ThumbsUp then 1 else -1
  }

  function Sum(rows: seq<Feedback>): int {
    if rows == [] then 0 else Sum(rows[..|rows| - 1]) + Delta(rows[|rows| - 1])
  }

  lemma SumNext(rows: seq<Feedback>, i: nat)
    requires i < |rows|
    ensures Sum(rows[..i + 1]) == Sum(rows[..i]) + Delta(rows[i]) && Sum(rows[..0]) == 0
  {
    assert rows[..i + 1][..i] == rows[..i];
  }

  /** One point per row, oldest first, each with the sum of all deltas up to it. */
  ghost predicate IsTimeline(timeline: seq<Point>, rows: seq<Feedback>) {
    var ordered := SortBy(rows, Older);
    && |timeline| == |ordered|
    && forall i :: 0 <= i < |timeline| ==> timeline[i] == Point(ordered[i].at, Delta(ordered[i]), Sum(ordered[..i + 1]))
  }

  method Timeline(rows: seq<Feedback>) returns (timeline: seq<Point>)
    ensures IsTimeline(timeline, rows)
  {
    var ordered, cumulative := SortBy(rows, Older), 0;
    timeline := [];
    assert Sum(ordered[..0]) == 0;
    for i := 0 to |ordered|
      invariant cumulative == Sum(ordered[..i])
      invariant |timeline| == i
      invariant forall j :: 0 <= j < i ==> timeline[j] == Point(ordered[j].at, Delta(ordered[j]), Sum(ordered[..j + 1]))
    {
      SumNext(ordered, i);
      var delta := if ordered[i].rating == ThumbsUp then 1 else -1;
      cumulative := cumulative + delta;
      timeline := timeline + [Point(ordered[i].at, delta, cumulative)];
    }
  }

  lemma {:induction false} SumIsBalance(rows: seq<Feedback>)
    ensures Sum(rows) == |Rated(rows, ThumbsUp)| - |Rated(rows, ThumbsDown)|
    ensures |rows| == |Rated(rows, ThumbsUp)| + |Rated(rows, ThumbsDown)|
  {
    if rows != [] {
      var front, last := rows[..|rows| - 1], rows[|rows| - 1];
      assert rows == front + [last];
      SumIsBalance(front);
      FilterAppend(front, [last], (f: Feedback) => f.rating == ThumbsUp);
      FilterAppend(front, [last], (f: Feedback) => f.rating == ThumbsDown);
    }
  }

  // ---------- Per agent ----------

  function ByAgent(rows: seq<Feedback>, conversations: map<Id, Conversation>): seq<(Id, Feedback)>
    requires Attached(rows, conversations)
  {
    seq(|rows|, i requires 0 <= i < |rows| => (conversations[rows[i].conversation].agent, rows[i]))
  }

  predicate IsStatsOf(entry: AgentStats, agent: Id, rows: seq<Feedback>) {
    && entry.agent == agent && entry.total == |rows|
    && entry.up == |Rated(rows, ThumbsUp)| && entry.down == |Rated(rows, ThumbsDown)|
    && IsScore(entry.score, entry.up, entry.up + entry.down)
  }

  /** One entry for each agent with feedback, over exactly its rows. */
  ghost predicate IsPerAgent(perAgent: seq<AgentStats>, grouped: seq<(Id, Feedback)>) {
    && |perAgent| == |Keys(grouped)|
    && forall i :: 0 <= i < |perAgent| ==> IsStatsOf(perAgent[i], Keys(grouped)[i], Values(grouped, Keys(grouped)[i]))
  }

  method AgentEntry(agent: Id, group: seq<Feedback>) returns (entry: AgentStats)
    ensures IsStatsOf(entry, agent, group)
  {
    var total, up, down := |group|, |Rated(group, ThumbsUp)|, |Rated(group, ThumbsDown)|;
    var score := RoundScore(up, up + down);
    entry := AgentStats(agent, total, up, down, score);
  }

  /** GROUP BY agent, then one response entry a group. */
  method PerAgent(rows: seq<Feedback>, conversations: map<Id, Conversation>) returns (perAgent: seq<AgentStats>)
    requires Attached(rows, conversations)
    ensures IsPerAgent(perAgent, ByAgent(rows, conversations))
  {
    var grouped := ByAgent(rows, conversations);
    var agents, groups := GroupByKey(grouped);
    perAgent := [];
    for i := 0 to |agents|
      invariant |perAgent| == i
      invariant forall j :: 0 <= j < i ==> IsStatsOf(perAgent[j], agents[j], groups[agents[j]])
    {
      var entry := AgentEntry(agents[i], groups[agents[i]]);
      perAgent := perAgent + [entry];
    }
  }

  function Total<T>(s: seq<T>, f: T -> nat): nat {
    if s == [] then 0 else Total(s[..|s| - 1], f) + f(s[|s| - 1])
  }

  lemma {:induction false} TotalsChangedAtOne<K>(keys: seq<K>, f: K -> nat, g: K -> nat, key: K, extra: nat)
    requires NoRepeats(keys)
    requires forall k :: k in keys && k != key ==> g(k) == f(k)
    requires key in keys ==> g(key) == f(key) + extra
    ensures Total(keys, g) == Total(keys, f) + if key in keys then extra else 0
  {
    if keys != [] {
      var front := keys[..|keys| - 1];
      assert keys == front + [keys[|keys| - 1]];
      TotalsChangedAtOne(front, f, g, key, extra);
    }
  }

  function Seconds<K, V>(rows: seq<(K, V)>): (s: seq<V>)
    ensures |s| == |rows|
  {
    if rows == [] then [] else Seconds(rows[..|rows| - 1]) + [rows[|rows| - 1].1]
  }

  function Rate<K(==), V>(rows: seq<(K, V)>, p: V -> bool): K -> nat {
    k => |Filter(Values(rows, k), p)|
  }

  lemma RateNext<K, V>(rows: seq<(K, V)>, n: nat, p: V -> bool, k: K)
    requires n < |rows|
    ensures Rate(rows[..n + 1], p)(k) == Rate(rows[..n], p)(k) + if k == rows[n].0 && p(rows[n].1) then 1 else 0
  {
    ValuesNext(rows, n, k);
    FilterAppend(Values(rows[..n], k), [rows[n].1], p);
  }

  /** Counting a class group by group counts it once. */
  lemma {:induction false} GroupsPartition<K(!new), V>(rows: seq<(K, V)>, p: V -> bool)
    ensures Total(Keys(rows), Rate(rows, p)) == |Filter(Seconds(rows), p)|
  {
    if rows != [] {
      var n := |rows| - 1;
      var front, key, value := rows[..n], rows[n].0, rows[n].1;
      GroupsPartition(front, p);
      assert rows[..n + 1] == rows;
      var extra := if p(value) then 1 else 0;
      forall k ensures Rate(rows, p)(k) == Rate(front, p)(k) + if k == key then extra else 0 {
        RateNext(rows, n, p, k);
      }
      FilterAppend(Seconds(front), [value], p);
      forall k | k !in Keys(front) ensures Rate(front, p)(k) == 0 { AbsentKey(front, k); }
      KeysTotal(rows, front, Rate(front, p), Rate(rows, p), extra);
    }
  }

  lemma KeysTotal<K(!new), V>(rows: seq<(K, V)>, front: seq<(K, V)>, f: K -> nat, g: K -> nat, extra: nat)
    requires rows != [] && front == rows[..|rows| - 1]
    requires forall k :: g(k) == f(k) + if k == rows[|rows| - 1].0 then extra else 0
    requires forall k :: k !in Keys(front) ==> f(k) == 0
    ensures Total(Keys(rows), g) == Total(Keys(front), f) + extra
  {
    var key := rows[|rows| - 1].0;
    assert rows[..|rows|] == rows;
    GroupNext(rows, |rows| - 1);
    GroupingKeepsRows(front);
    TotalsChangedAtOne(Keys(front), f, g, key, extra);
    if key !in Keys(front) {
      assert (Keys(front) + [key])[..|Keys(front)|] == Keys(front);
    }
  }

  // ---------- The whole response ----------

  ghost predicate Reports(stats: Stats, rows: seq<Feedback>, conversations: map<Id, Conversation>)
    requires Attached(rows, conversations)
  {
    && stats.total == |rows|
    && stats.up == |Rated(rows, ThumbsUp)|
    && stats.down == |Rated(rows, ThumbsDown)|
    && IsScore(stats.score, stats.up, stats.total)
    && IsBreakdown(stats.breakdown, Rated(rows, ThumbsDown))
    && stats.negative == Recent(rows, ThumbsDown)
    && stats.positive == Recent(rows, ThumbsUp)
    && IsTimeline(stats.timeline, rows)
    && IsPerAgent(stats.perAgent, ByAgent(rows, conversations))
  }

  method GetFeedbackStats(table: seq<Feedback>, conversations: map<Id, Conversation>, q: Query) returns (stats: Stats)
    requires Attached(Selected(table, conversations, q), conversations)
    ensures Reports(stats, Selected(table, conversations, q), conversations)
  {
    var rows := Selected(table, conversations, q);
    var total, up, down := |rows|, |Rated(rows, ThumbsUp)|, |Rated(rows, ThumbsDown)|;
    SumIsBalance(rows);
    var score := RoundScore(up, total);
    var negative, positive := Recent(rows, ThumbsDown), Recent(rows, ThumbsUp);
    var breakdown := ReasonBreakdown(rows, down);
    var timeline := Timeline(rows);
    var perAgent := PerAgent(rows, conversations);
    stats := Stats(total, up, down, score, breakdown, negative, positive, timeline, perAgent);
  }

  lemma {:induction false} SameTotals<S, T>(s: seq<S>, t: seq<T>, f: S -> nat, g: T -> nat)
    requires |s| == |t| && forall i :: 0 <= i < |s| ==> f(s[i]) == g(t[i])
    ensures Total(s, f) == Total(t, g)
  {
    if s != [] {
      SameTotals(s[..|s| - 1], t[..|t| - 1], f, g);
    }
  }

  lemma {:induction false} SecondsOf(rows: seq<Feedback>, grouped: seq<(Id, Feedback)>)
    requires |grouped| == |rows| && forall i :: 0 <= i < |rows| ==> grouped[i].1 == rows[i]
    ensures Seconds(grouped) == rows
  {
    if rows != [] {
      SecondsOf(rows[..|rows| - 1], grouped[..|rows| - 1]);
      assert rows == rows[..|rows| - 1] + [rows[|rows| - 1]];
    }
  }

  /** Counting a class of feedback in the per-agent entries counts it once. */
  lemma AgentsPartition(perAgent: seq<AgentStats>, rows: seq<Feedback>, grouped: seq<(Id, Feedback)>, f: AgentStats -> nat, p: Feedback -> bool)
    requires IsPerAgent(perAgent, grouped) && Seconds(grouped) == rows
    requires forall entry, agent, group :: IsStatsOf(entry, agent, group) ==> f(entry) == |Filter(group, p)|
    ensures Total(perAgent, f) == |Filter(rows, p)|
  {
    GroupsPartition(grouped, p);
    SameTotals(perAgent, Keys(grouped), f, Rate(grouped, p));
  }

  /** Every route counts the same feedback: the aggregate, the timeline and the agents agree on how much there is, how
      much of it is positive and negative, and on the balance. */
  lemma FeedbackIsConserved(stats: Stats, rows: seq<Feedback>, conversations: map<Id, Conversation>)
    requires Attached(rows, conversations) && Reports(stats, rows, conversations)
    ensures stats.total == stats.up + stats.down == |stats.timeline|
    ensures stats.total == Total(stats.perAgent, (a: AgentStats) => a.total)
    ensures stats.up == Total(stats.perAgent, (a: AgentStats) => a.up)
    ensures stats.down == Total(stats.perAgent, (a: AgentStats) => a.down)
    ensures stats.timeline != [] ==> stats.timeline[|stats.timeline| - 1].cumulative == stats.up - stats.down
  {
    SumIsBalance(rows);
    TimelineEndsInBalance(stats.timeline, rows);
    var grouped := ByAgent(rows, conversations);
    SecondsOf(rows, grouped);
    AllPass(rows);
    forall entry, agent, group | IsStatsOf(entry, agent, group) ensures entry.total == |Filter(group, (f: Feedback) => true)| {
      AllPass(group);
    }
    AgentsPartition(stats.perAgent, rows, grouped, (a: AgentStats) => a.total, f => true);
    AgentsPartition(stats.perAgent, rows, grouped, (a: AgentStats) => a.up, (f: Feedback) => f.rating == ThumbsUp);
    AgentsPartition(stats.perAgent, rows, grouped, (a: AgentStats) => a.down, (f: Feedback) => f.rating == ThumbsDown);
  }

  lemma TimelineEndsInBalance(timeline: seq<Point>, rows: seq<Feedback>)
    requires IsTimeline(timeline, rows)
    ensures |timeline| == |rows|
    ensures timeline != [] ==> timeline[|timeline| - 1].cumulative == Sum(rows)
  {
    var ordered := SortBy(rows, Older);
    TimeIsTotalPreorder();
    SortByPermutes(rows, Older);
    SumIsBalance(rows);
    SumIsBalance(ordered);
    FilterPermuted(rows, ordered, (f: Feedback) => f.rating == ThumbsUp);
    FilterPermuted(rows, ordered, (f: Feedback) => f.rating == ThumbsDown);
    assert ordered[..|ordered|] == ordered;
  }

  // ---------- The response, told from the selected rows ----------

  /** What the filters let through: the tenant's feedback, of the agents asked for, from `since` to `until`, both included. */
  lemma SelectedAre(table: seq<Feedback>, conversations: map<Id, Conversation>, q: Query, f: Feedback)
    ensures f in Selected(table, conversations, q) <==>
      && f in table && f.tenant == q.tenant
      && (q.agents != [] ==> exists agent :: agent in q.agents && f.conversation in conversations
                                             && conversations[f.conversation] == Conversation(q.tenant, agent))
      && !(q.since.Some? && f.at < q.since.value) && !(q.until.Some? && f.at > q.until.value)
  {
    FilterMembers(table, f => Selects(conversations, q, f));
    if f.conversation in conversations {
      var c := conversations[f.conversation];
      assert c == Conversation(c.tenant, c.agent);
    }
  }

  /** A list of the newest hundred rows of one rating: nothing else, as many as there are up to a hundred, newest first, and none
      left out that is newer than one listed. */
  ghost predicate NewestHundred(recent: seq<Feedback>, rows: seq<Feedback>, rating: Rating) {
    && (forall f :: f in recent ==> f in rows && f.rating == rating)
    && (forall i, j :: 0 <= i < j < |recent| ==> recent[i].at >= recent[j].at)
    && LeavesOutOlder(recent, Rated(rows, rating))
  }

  ghost predicate LeavesOutOlder(recent: seq<Feedback>, rated: seq<Feedback>) {
    exists rest :: multiset(rated) == multiset(recent) + multiset(rest) && (rest == [] || |recent| == 100) && NoLater(recent, rest)
  }

  ghost predicate NoLater(recent: seq<Feedback>, rest: seq<Feedback>) {
    forall kept, left :: kept in recent && left in rest ==> kept.at >= left.at
  }

  lemma RatedAre(rows: seq<Feedback>, rating: Rating)
    ensures forall f :: f in Rated(rows, rating) <==> f in rows && f.rating == rating
  {
    FilterMembers(rows, (f: Feedback) => f.rating == rating);
  }

  lemma OlderLeftOut(recent: seq<Feedback>, rated: seq<Feedback>)
    requires IsPrefixOfTime(recent, rated) && (|recent| == 100 || multiset(recent) == multiset(rated))
    ensures LeavesOutOlder(recent, rated) && forall f :: f in recent ==> f in rated
  {
    var rest :| multiset(rated) == multiset(recent) + multiset(rest) && NoneNewer(recent, rest);
    assert NoLater(recent, rest);
    forall f | f in recent ensures f in rated { assert f in multiset(recent) + multiset(rest); }
    assert rest != [] ==> rest[0] in multiset(rest);
  }

  lemma NewestAreNewest(rows: seq<Feedback>, rating: Rating, recent: seq<Feedback>)
    requires recent == Slice(SortBy(Rated(rows, rating), Newer), 0, RECENT)
    ensures NewestHundred(recent, rows, rating)
    ensures |recent| == if |Rated(rows, rating)| <= 100 then |Rated(rows, rating)| else 100
  {
    RecentOf(Rated(rows, rating));
    OlderLeftOut(recent, Rated(rows, rating));
    RatedAre(rows, rating);
    assert forall i, j :: 0 <= i < j < |recent| ==> Newer(recent[i], recent[j]);
  }

  /** The response lists the newest hundred of either rating, newest first. */
  lemma ListsAreNewest(stats: Stats, rows: seq<Feedback>, conversations: map<Id, Conversation>)
    requires Attached(rows, conversations) && Reports(stats, rows, conversations)
    ensures NewestHundred(stats.positive, rows, ThumbsUp) && |stats.positive| == if stats.up <= 100 then stats.up else 100
    ensures NewestHundred(stats.negative, rows, ThumbsDown) && |stats.negative| == if stats.down <= 100 then stats.down else 100
  {
    NewestAreNewest(rows, ThumbsUp, stats.positive);
    NewestAreNewest(rows, ThumbsDown, stats.negative);
  }

  /** The counts are those of the ratings. */
  lemma CountsAre(stats: Stats, rows: seq<Feedback>, conversations: map<Id, Conversation>)
    requires Attached(rows, conversations) && Reports(stats, rows, conversations)
    ensures stats.total == |rows|
    ensures stats.up == |set i | 0 <= i < |rows| && rows[i].rating == ThumbsUp|
    ensures stats.down == |set i | 0 <= i < |rows| && rows[i].rating == ThumbsDown|
  {
    RatedCount(rows, ThumbsUp);
    RatedCount(rows, ThumbsDown);
  }

  lemma {:induction false} RatedCount(rows: seq<Feedback>, rating: Rating)
    ensures |Rated(rows, rating)| == |set i | 0 <= i < |rows| && rows[i].rating == rating|
  {
    if rows != [] {
      var n := |rows| - 1;
      RatedCount(rows[..n], rating);
      assert rows == rows[..n] + [rows[n]];
      FilterAppend(rows[..n], [rows[n]], (f: Feedback) => f.rating == rating);
      RatedPlaces(rows, rating);
    }
  }

  lemma RatedPlaces(rows: seq<Feedback>, rating: Rating)
    requires rows != []
    ensures var n := |rows| - 1;
      |set i | 0 <= i < |rows| && rows[i].rating == rating| ==
      |set i | 0 <= i < |rows[..n]| && rows[..n][i].rating == rating| + if rows[n].rating == rating then 1 else 0
  {
    var n := |rows| - 1;
    var before := set i | 0 <= i < |rows[..n]| && rows[..n][i].rating == rating;
    var all := set i | 0 <= i < |rows| && rows[i].rating == rating;
    assert all == before + if n in all then {n} else {};
  }

  /** A score is there exactly if there is feedback; it is a number of thousandths no other is nearer than to the share of positive rows. */
  lemma ScoreReads(score: Option<nat>, up: nat, total: nat, other: nat)
    requires IsScore(score, up, total) && up <= total
    ensures score.None? <==> total == 0
    ensures score.Some? ==> score.value <= 1000 && Distance(score.value * total, 1000 * up) <= Distance(other * total, 1000 * up)
  {
    if total > 0 {
      ScoreInRange(score.value, up, total);
      Apart(score.value, other, total);
      Closest(score.value * total, other * total, 1000 * up, total);
    }
  }

  /** Two multiples are the same or at least one step apart. */
  lemma Apart(n: int, other: int, total: nat)
    ensures other * total <= n * total - total || other * total == n * total || other * total >= n * total + total
  {
    if other < n {
      Times(other, n - 1, total);
      OneStep(n - 1, total);
    } else if other > n {
      Times(n + 1, other, total);
      OneStep(n, total);
    }
  }

  lemma OneStep(n: int, total: nat)
    ensures (n + 1) * total == n * total + total
  {
  }

  lemma Closest(mine: int, other: int, exact: int, total: nat)
    requires 2 * (mine - exact) <= total && 2 * (exact - mine) <= total
    requires other <= mine - total || other == mine || other >= mine + total
    ensures Distance(mine, exact) <= Distance(other, exact)
  {
  }

  /** The scores of the response: over all its rows, and over each agent's. */
  lemma ScoresRead(stats: Stats, rows: seq<Feedback>, conversations: map<Id, Conversation>, k: nat, other: nat)
    requires Attached(rows, conversations) && Reports(stats, rows, conversations) && k < |stats.perAgent|
    ensures stats.score.None? <==> rows == []
    ensures stats.score.Some? ==> Distance(stats.score.value * |rows|, 1000 * stats.up) <= Distance(other * |rows|, 1000 * stats.up)
    ensures var entry := stats.perAgent[k];
      entry.score.Some? && Distance(entry.score.value * entry.total, 1000 * entry.up) <= Distance(other * entry.total, 1000 * entry.up)
  {
    var entry := stats.perAgent[k];
    SumIsBalance(rows);
    ScoreReads(stats.score, stats.up, stats.total, other);
    EntryCounts(stats, rows, conversations, k);
    var grouped := ByAgent(rows, conversations);
    SumIsBalance(Values(grouped, Keys(grouped)[k]));
    ScoreReads(entry.score, entry.up, entry.total, other);
  }

  function Distance(x: int, y: int): nat {
    if x < y then y - x else x - y
  }

  lemma Times(a: int, b: int, total: nat)
    requires a <= b
    ensures a * total <= b * total
  {
    assert b * total - a * total == (b - a) * total;
  }

  /** The places where negative rows name a reason. */
  function Places(rows: seq<Feedback>, reason: string): set<(int, int)> {
    set i, j | 0 <= i < |rows| && 0 <= j < |rows[i].reasons| && rows[i].rating == ThumbsDown && rows[i].reasons[j] == reason :: (i, j)
  }

  /** The breakdown has every reason some negative row names, once, with the number of places that name it, most frequent first. */
  lemma BreakdownCounts(stats: Stats, rows: seq<Feedback>, conversations: map<Id, Conversation>, reason: string)
    requires Attached(rows, conversations) && Reports(stats, rows, conversations)
    ensures var breakdown := stats.breakdown;
      && (forall i, j :: 0 <= i < j < |breakdown| ==>
            breakdown[i].count >= breakdown[j].count && breakdown[i].reason != breakdown[j].reason)
      && (forall e :: e in breakdown ==> e.count > 0)
      && ((exists e :: e in breakdown && e.reason == reason) <==> Places(rows, reason) != {})
      && forall e :: e in breakdown && e.reason == reason ==> e.count == |Places(rows, reason)|
  {
    ReasonsCounted(stats.breakdown, rows, reason);
  }

  lemma ReasonsCounted(breakdown: seq<ReasonCount>, rows: seq<Feedback>, reason: string)
    requires IsBreakdown(breakdown, Rated(rows, ThumbsDown))
    ensures forall i, j :: 0 <= i < j < |breakdown| ==>
      breakdown[i].count >= breakdown[j].count && breakdown[i].reason != breakdown[j].reason
    ensures forall e :: e in breakdown ==> e.count > 0
    ensures (exists e :: e in breakdown && e.reason == reason) <==> Places(rows, reason) != {}
    ensures forall e :: e in breakdown && e.reason == reason ==> e.count == |Places(rows, reason)|
  {
    assert forall i, j :: 0 <= i < j < |breakdown| ==> CountDescending(breakdown[i], breakdown[j]);
    NamedInPlaces(rows, reason);
    var named := multiset(Reasons(Rated(rows, ThumbsDown)));
    assert named[reason] > 0 <==> reason in Reasons(Rated(rows, ThumbsDown));
    if reason in Reasons(Rated(rows, ThumbsDown)) {
      assert ReasonCount(reason, named[reason]) in breakdown;
    }
  }

  lemma {:induction false} NamedInPlaces(rows: seq<Feedback>, reason: string)
    ensures multiset(Reasons(Rated(rows, ThumbsDown)))[reason] == |Places(rows, reason)|
  {
    if rows != [] {
      var n := |rows| - 1;
      var front, last := rows[..n], rows[n];
      NamedInPlaces(front, reason);
      assert rows == front + [last];
      FilterAppend(front, [last], (f: Feedback) => f.rating == ThumbsDown);
      ReasonsAppend(Rated(front, ThumbsDown), Rated([last], ThumbsDown));
      LastPlaces(rows, reason);
    }
  }

  lemma LastPlaces(rows: seq<Feedback>, reason: string)
    requires rows != []
    ensures var n := |rows| - 1;
      |Places(rows, reason)| == |Places(rows[..n], reason)| + multiset(Reasons(Rated(rows[n..], ThumbsDown)))[reason]
  {
    var n := |rows| - 1;
    var reasons := if rows[n].rating == ThumbsDown then rows[n].reasons else [];
    var own := set j | 0 <= j < |reasons| && reasons[j] == reason;
    PlacesSplit(rows, reason, reasons, own);
    InRowSize(own, n);
    OwnPlaces(reasons, reason);
    assert rows[n..] == [rows[n]];
    OneRowsReasons(rows[n]);
  }

  function InRow<T>(own: set<T>, n: int): set<(int, T)> {
    set j | j in own :: (n, j)
  }

  lemma PlacesSplit(rows: seq<Feedback>, reason: string, reasons: seq<string>, own: set<int>)
    requires rows != [] && reasons == if rows[|rows| - 1].rating == ThumbsDown then rows[|rows| - 1].reasons else []
    requires forall j :: j in own <==> 0 <= j < |reasons| && reasons[j] == reason
    ensures var n := |rows| - 1;
      Places(rows, reason) == Places(rows[..n], reason) + InRow(own, n) && Places(rows[..n], reason) !! InRow(own, n)
  {
    var n := |rows| - 1;
    forall i, j ensures (i, j) in Places(rows, reason) <==> (i, j) in Places(rows[..n], reason) + InRow(own, n) {
      assert (i, j) in InRow(own, n) <==> i == n && j in own;
    }
  }

  lemma OneRowsReasons(f: Feedback)
    ensures Reasons(Rated([f], ThumbsDown)) == if f.rating == ThumbsDown then f.reasons else []
  {
    assert [f][..0] == [];
    FilterCons(f, [], (f: Feedback) => f.rating == ThumbsDown);
    assert [f] + [] == [f];
  }

  lemma {:induction false} InRowSize<T>(own: set<T>, n: int)
    ensures |InRow(own, n)| == |own|
    decreases |own|
  {
    if k :| k in own {
      InRowSize(own - {k}, n);
      assert InRow(own, n) == InRow(own - {k}, n) + {(n, k)};
    } else {
      assert own == {} && InRow(own, n) == {};
    }
  }

  lemma {:induction false} OwnPlaces(reasons: seq<string>, reason: string)
    ensures multiset(reasons)[reason] == |set j | 0 <= j < |reasons| && reasons[j] == reason|
  {
    if reasons != [] {
      var n := |reasons| - 1;
      OwnPlaces(reasons[..n], reason);
      assert reasons == reasons[..n] + [reasons[n]];
      var before, all := set j | 0 <= j < |reasons[..n]| && reasons[..n][j] == reason, set j | 0 <= j < |reasons| && reasons[j] == reason;
      assert all == before + if n in all then {n} else {};
    }
  }

  /** One point a row, at its time, one up or one down. */
  ghost predicate PointsOf(timeline: seq<Point>, ordered: seq<Feedback>) {
    && |ordered| == |timeline|
    && forall i :: 0 <= i < |timeline| ==>
      timeline[i].at == ordered[i].at && timeline[i].delta == if ordered[i].rating == ThumbsUp then 1 else -1
  }

  /** Each point adds its own to the sum of those before it. */
  ghost predicate RunningSum(timeline: seq<Point>) {
    forall i :: 0 <= i < |timeline| ==>
      timeline[i].cumulative == (if i == 0 then 0 else timeline[i - 1].cumulative) + timeline[i].delta
  }

  /** The timeline runs forward in time, each point one up for a positive row and one down for a negative one, starting from
      nothing. */
  lemma TimelineRuns(stats: Stats, rows: seq<Feedback>, conversations: map<Id, Conversation>)
    requires Attached(rows, conversations) && Reports(stats, rows, conversations)
    ensures forall i, j :: 0 <= i < j < |stats.timeline| ==> stats.timeline[i].at <= stats.timeline[j].at
    ensures RunningSum(stats.timeline)
    ensures exists ordered :: multiset(ordered) == multiset(rows) && PointsOf(stats.timeline, ordered)
  {
    PointsRun(stats.timeline, rows);
  }

  lemma PointsRun(timeline: seq<Point>, rows: seq<Feedback>)
    requires IsTimeline(timeline, rows)
    ensures forall i, j :: 0 <= i < j < |timeline| ==> timeline[i].at <= timeline[j].at
    ensures RunningSum(timeline)
    ensures exists ordered :: multiset(ordered) == multiset(rows) && PointsOf(timeline, ordered)
  {
    var ordered := SortBy(rows, Older);
    TimeIsTotalPreorder();
    SortByPermutes(rows, Older);
    forall i | 0 <= i < |timeline|
      ensures timeline[i].cumulative == (if i == 0 then 0 else timeline[i - 1].cumulative) + timeline[i].delta
    {
      SumNext(ordered, i);
    }
    assert forall i, j :: 0 <= i < j < |ordered| ==> Older(ordered[i], ordered[j]);
    assert PointsOf(timeline, ordered);
  }

  /** An agent's entry counts the rows of the agent's conversations. */
  lemma EntryCounts(stats: Stats, rows: seq<Feedback>, conversations: map<Id, Conversation>, k: nat)
    requires Attached(rows, conversations) && Reports(stats, rows, conversations) && k < |stats.perAgent|
    ensures var agent := stats.perAgent[k].agent;
      var of := Filter(rows, (f: Feedback) => f.conversation in conversations && conversations[f.conversation].agent == agent);
      && stats.perAgent[k].total == |of| > 0
      && stats.perAgent[k].up == |Rated(of, ThumbsUp)| && stats.perAgent[k].down == |Rated(of, ThumbsDown)|
  {
    var grouped := ByAgent(rows, conversations);
    ValuesAreFiltered(rows, conversations, stats.perAgent[k].agent, grouped);
    GroupingKeepsRows(grouped);
    assert Keys(grouped)[k] in Keys(grouped);
  }

  lemma {:induction false} ValuesAreFiltered(rows: seq<Feedback>, conversations: map<Id, Conversation>, agent: Id, grouped: seq<(Id, Feedback)>)
    requires Attached(rows, conversations) && |grouped| == |rows|
    requires forall i :: 0 <= i < |rows| ==> grouped[i] == (conversations[rows[i].conversation].agent, rows[i])
    ensures Values(grouped, agent) ==
      Filter(rows, (f: Feedback) => f.conversation in conversations && conversations[f.conversation].agent == agent)
  {
    if rows != [] {
      var n := |rows| - 1;
      var of := (f: Feedback) => f.conversation in conversations && conversations[f.conversation].agent == agent;
      ValuesAreFiltered(rows[..n], conversations, agent, grouped[..n]);
      assert rows == rows[..n] + [rows[n]];
      FilterAppend(rows[..n], [rows[n]], of);
    }
  }
}
