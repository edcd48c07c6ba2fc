/** Strings as the service builds them: decimal numerals, separator-joined keys, and the
    code-point order the database sorts names by. */
module Text {

  // ---------- Decimal numerals: str(n) for n >= 0 ----------

  function Digit(d: nat): (c: char)
    requires d < 10
    ensures '0' <= c <= '9'
  {
    '0' + d as char
  }

  predicate IsDigit(c: char) {
    '0' <= c <= '9'
  }

  function Decimal(n: nat): (s: string)
    ensures |s| > 0
    ensures forall c :: c in s ==> IsDigit(c)
  {
    if n < 10 then [Digit(n)] else Decimal(n / 10) + [Digit(n % 10)]
  }

  lemma {:induction false} DecimalInjective(a: nat, b: nat)
    requires Decimal(a) == Decimal(b)
    ensures a == b
    decreases a
  {
    var s, t := Decimal(a), Decimal(b);
    assert s[|s| - 1] == Digit(a % 10) && t[|t| - 1] == Digit(b % 10);
    if a >= 10 && b >= 10 {
      assert s[..|s| - 1] == Decimal(a / 10) && t[..|t| - 1] == Decimal(b / 10);
      DecimalInjective(a / 10, b / 10);
    }
  }

  /** The number a string of digits stands for. */
  function Number(digits: string): int {
    if digits == "" then 0 else 10 * Number(digits[..|digits| - 1]) + (digits[|digits| - 1] as int - '0' as int)
  }

  /** A numeral stands for its number, without leading zeros. */
  lemma {:induction false} DecimalStandsFor(n: nat)
    ensures Number(Decimal(n)) == n
    ensures n > 0 ==> Decimal(n)[0] != '0'
  {
    if n >= 10 {
      DecimalStandsFor(n / 10);
      var s := Decimal(n);
      assert s[..|s| - 1] == Decimal(n / 10);
    }
  }

  // ---------- Joined keys: f"{a}:{b}:{c}" ----------

  function Join(sep: char, segments: seq<string>): (s: string)
    requires segments != []
  {
    if |segments| == 1 then segments[0] else segments[0] + [sep] + Join(sep, segments[1..])
  }

  /** No segment contains the separator, so the boundaries can be read back. */
  predicate Unambiguous(sep: char, segments: seq<string>) {
    forall i :: 0 <= i < |segments| ==> sep !in segments[i]
  }

  /** The first separator ends the first segment. */
  lemma FirstSegment(sep: char, a: string, x: string, b: string, y: string)
    requires sep !in a && sep !in b
    requires a + [sep] + x == b + [sep] + y
    ensures a == b && x == y
  {
    var s, t := a + [sep] + x, b + [sep] + y;
    assert s[|a|] == sep && t[|b|] == sep;
    assert forall j :: 0 <= j < |a| ==> s[j] == a[j];
    assert forall j :: 0 <= j < |b| ==> t[j] == b[j];
    assert a == s[..|a|] && b == t[..|b|];
    assert x == s[|a| + 1..] && y == t[|b| + 1..];
  }

  /** A joined key contains the separator exactly when it has more than one segment. */
  lemma SeparatorCount(sep: char, key: seq<string>)
    requires key != [] && Unambiguous(sep, key)
    ensures sep in Join(sep, key) <==> |key| > 1
  {
    if |key| > 1 {
      assert Join(sep, key)[|key[0]|] == sep;
    }
  }

  /** Joining is injective: two keys are the same string exactly when they have the same segments. */
  lemma {:induction false} JoinInjective(sep: char, a: seq<string>, b: seq<string>)
    requires a != [] && b != []
    requires Unambiguous(sep, a) && Unambiguous(sep, b)
    ensures Join(sep, a) == Join(sep, b) <==> a == b
    decreases |a|
  {
    SeparatorCount(sep, a);
    SeparatorCount(sep, b);
    if Join(sep, a) == Join(sep, b) {
      if |a| > 1 && |b| > 1 {
        FirstSegment(sep, a[0], Join(sep, a[1..]), b[0], Join(sep, b[1..]));
        JoinInjective(sep, a[1..], b[1..]);
        assert a == [a[0]] + a[1..] && b == [b[0]] + b[1..];
      }
    }
  }

  /** A key starts with `Join(prefix) + sep` exactly when the prefix's segments begin it and more follow. */
  lemma {:induction false} StartsWithSegments(sep: char, prefix: seq<string>, key: seq<string>)
    requires prefix != [] && key != []
    requires Unambiguous(sep, prefix) && Unambiguous(sep, key)
    ensures Join(sep, prefix) + [sep] <= Join(sep, key) <==> prefix < key
    decreases |prefix|
  {
    SeparatorCount(sep, key);
    if |key| == 1 {
      assert (Join(sep, prefix) + [sep])[|Join(sep, prefix)|] == sep;
    } else if |prefix| == 1 {
      FirstThenMore(sep, prefix[0], "", key[0], Join(sep, key[1..]));
      assert prefix == [prefix[0]];
    } else {
      var q := Join(sep, prefix[1..]) + [sep];
      StartsWithSegments(sep, prefix[1..], key[1..]);
      assert Join(sep, prefix) + [sep] == prefix[0] + [sep] + q;
      FirstThenMore(sep, prefix[0], q, key[0], Join(sep, key[1..]));
      FirstAndRest(prefix, key);
    }
  }

  lemma FirstAndRest(prefix: seq<string>, key: seq<string>)
    requires prefix != [] && key != []
    ensures prefix < key <==> prefix[0] == key[0] && prefix[1..] < key[1..]
  {
    assert prefix == [prefix[0]] + prefix[1..] && key == [key[0]] + key[1..];
  }

  /** Two texts whose first segments end at a separator begin alike when the segments and what follows do. */
  lemma FirstThenMore(sep: char, a: string, q: string, b: string, rest: string)
    requires sep !in a && sep !in b
    ensures a + [sep] + q <= b + [sep] + rest <==> a == b && q <= rest
  {
    var p, k := a + [sep] + q, b + [sep] + rest;
    if p <= k {
      assert k == a + [sep] + (q + k[|p|..]);
      FirstSegment(sep, a, q + k[|p|..], b, rest);
    }
    if a == b && q <= rest {
      assert k == p + rest[|q|..];
    }
  }

  /** `needle` occurs in `s` at position `i`. */
  predicate OccursAt(needle: string, s: string, i: nat) {
    i <= |s| && needle <= s[i..]
  }

  /** Something that starts with the separator occurs either at the first separator or after it. */
  lemma OccursAfterFirst(sep: char, a: string, rest: string, x: string, i: nat)
    requires sep !in a
    ensures OccursAt([sep] + x, a + [sep] + rest, i)
            <==> (i == |a| && x <= rest) || (i > |a| && OccursAt([sep] + x, rest, i - |a| - 1))
  {
    var k := a + [sep] + rest;
    if i < |a| {
      assert k[i] == a[i];
    } else if i == |a| {
      assert k[i..] == [sep] + rest;
      assert x == ([sep] + x)[1..] && rest == ([sep] + rest)[1..];
    } else if i <= |k| {
      assert k[i..] == rest[i - |a| - 1..];
    }
  }

  /** The segments `run` appear consecutively in `key` from position `j`, with something on either side. */
  predicate RunAt(run: seq<string>, key: seq<string>, j: nat) {
    1 <= j && j + |run| < |key| && key[j..j + |run|] == run
  }

  lemma SliceAfterFirst(key: seq<string>, j: nat, n: nat)
    requires 1 <= j && j + n <= |key|
    ensures key[j..j + n] == key[1..][j - 1..j - 1 + n]
  {
    var a, b := key[j..j + n], key[1..][j - 1..j - 1 + n];
    assert |a| == |b|;
    forall k | 0 <= k < n ensures a[k] == b[k] {
      assert a[k] == key[j + k] && b[k] == key[1..][j - 1 + k];
    }
  }

  lemma RunAfterFirst(run: seq<string>, key: seq<string>, j: nat)
    requires run != [] && |key| > 1
    ensures RunAt(run, key, j) <==> (j == 1 && run < key[1..]) || (j > 1 && RunAt(run, key[1..], j - 1))
  {
    if 1 <= j && j + |run| < |key| {
      SliceAfterFirst(key, j, |run|);
    }
  }

  ghost predicate Contains(s: string, needle: string) {
    exists i: nat :: OccursAt(needle, s, i)
  }

  ghost predicate HasRun(key: seq<string>, run: seq<string>) {
    exists j: nat :: RunAt(run, key, j)
  }

  predicate EndsWith(s: string, suffix: string) {
    |suffix| <= |s| && s[|s| - |suffix|..] == suffix
  }

  /** Anything contained, as an infix or as an ending, brings its first character with it. */
  lemma HeadContained(s: string, needle: string)
    requires needle != ""
    ensures Contains(s, needle) || EndsWith(s, needle) ==> needle[0] in s
  {
    if Contains(s, needle) {
      var i: nat :| OccursAt(needle, s, i);
      assert s[i] == needle[0];
    } else if EndsWith(s, needle) {
      assert s[|s| - |needle|] == needle[0];
    }
  }

  lemma ContainsAfterFirst(sep: char, a: string, rest: string, x: string)
    requires sep !in a
    ensures Contains(a + [sep] + rest, [sep] + x) <==> x <= rest || Contains(rest, [sep] + x)
  {
    forall i: nat { OccursAfterFirst(sep, a, rest, x, i); }
    if Contains(rest, [sep] + x) {
      var i: nat :| OccursAt([sep] + x, rest, i);
      assert OccursAt([sep] + x, a + [sep] + rest, i + |a| + 1);
    }
    assert x <= rest ==> OccursAt([sep] + x, a + [sep] + rest, |a|);
  }

  lemma HasRunAfterFirst(key: seq<string>, run: seq<string>)
    requires run != [] && |key| > 1
    ensures HasRun(key, run) <==> run < key[1..] || HasRun(key[1..], run)
  {
    forall j: nat { RunAfterFirst(run, key, j); }
    if HasRun(key[1..], run) {
      var j: nat :| RunAt(run, key[1..], j);
      assert RunAt(run, key, j + 1);
    }
    assert run < key[1..] ==> RunAt(run, key, 1);
  }

  /** A key contains `sep + Join(run) + sep` exactly when `run` is a strictly interior run of its segments. */
  lemma {:induction false} ContainsSegments(sep: char, run: seq<string>, key: seq<string>)
    requires run != [] && key != []
    requires Unambiguous(sep, run) && Unambiguous(sep, key)
    ensures Contains(Join(sep, key), [sep] + (Join(sep, run) + [sep])) <==> HasRun(key, run)
    decreases |key|
  {
    if |key| == 1 {
      HeadContained(key[0], [sep] + (Join(sep, run) + [sep]));
    } else {
      StartsWithSegments(sep, run, key[1..]);
      ContainsAfterFirst(sep, key[0], Join(sep, key[1..]), Join(sep, run) + [sep]);
      ContainsSegments(sep, run, key[1..]);
      HasRunAfterFirst(key, run);
    }
  }

  lemma EndsAfterFirst(sep: char, a: string, rest: string, x: string)
    requires sep !in a
    ensures EndsWith(a + [sep] + rest, [sep] + x) <==> rest == x || EndsWith(rest, [sep] + x)
  {
    var k, suffix := a + [sep] + rest, [sep] + x;
    var at := |k| - |suffix|;
    if 0 <= at < |a| {
      assert k[at] == a[at];
      assert k[at..][0] == k[at];
    } else if at == |a| {
      assert k[at..] == [sep] + rest;
      assert suffix[1..] == x && ([sep] + rest)[1..] == rest;
    } else if at > |a| {
      assert k[at..] == rest[at - |a| - 1..];
    }
  }

  predicate LastSegments(key: seq<string>, last: seq<string>) {
    |last| < |key| && key[|key| - |last|..] == last
  }

  lemma LastAfterFirst(key: seq<string>, last: seq<string>)
    requires last != [] && |key| > 1
    ensures LastSegments(key, last) <==> key[1..] == last || LastSegments(key[1..], last)
  {
    if |last| < |key| - 1 {
      assert key[1..][|key| - 1 - |last|..] == key[|key| - |last|..];
    }
  }

  /** A key ends with `sep + Join(last)` exactly when those segments end it and something precedes them. */
  lemma {:induction false} EndsWithSegments(sep: char, last: seq<string>, key: seq<string>)
    requires last != [] && key != []
    requires Unambiguous(sep, last) && Unambiguous(sep, key)
    ensures EndsWith(Join(sep, key), [sep] + Join(sep, last)) <==> LastSegments(key, last)
    decreases |key|
  {
    if |key| == 1 {
      HeadContained(key[0], [sep] + Join(sep, last));
    } else {
      EndsAfterFirst(sep, key[0], Join(sep, key[1..]), Join(sep, last));
      EndsWithSegments(sep, last, key[1..]);
      JoinInjective(sep, last, key[1..]);
      LastAfterFirst(key, last);
    }
  }

  // ---------- Code-point order ----------

  predicate Leq(a: string, b: string) {
    a == "" || (b != "" && (a[0] < b[0] || (a[0] == b[0] && Leq(a[1..], b[1..]))))
  }

  lemma {:induction false} LeqTotal(a: string, b: string)
    ensures Leq(a, b) || Leq(b, a)
    ensures Leq(a, b) && Leq(b, a) ==> a == b
  {
    if a != "" && b != "" {
      LeqTotal(a[1..], b[1..]);
      assert a == [a[0]] + a[1..] && b == [b[0]] + b[1..];
    }
  }

  lemma {:induction false} LeqTransitive(a: string, b: string, c: string)
    requires Leq(a, b) && Leq(b, c)
    ensures Leq(a, c)
  {
    if a != "" && b != "" && c != "" && a[0] == b[0] == c[0] {
      LeqTransitive(a[1..], b[1..], c[1..]);
    }
  }

  /** Both texts begin alike, and where they first differ `a` has the smaller character. */
  predicate LessAt(a: string, b: string, i: nat) {
    i < |a| && i < |b| && a[..i] == b[..i] && a[i] < b[i]
  }

  /** The order is the lexicographic one: a text comes before what it begins and before what first differs in a larger character. */
  lemma {:induction false} LeqIsLexicographic(a: string, b: string)
    ensures Leq(a, b) <==> a <= b || exists i: nat :: LessAt(a, b, i)
  {
    if a != "" && b != "" {
      LeqIsLexicographic(a[1..], b[1..]);
      assert a == [a[0]] + a[1..] && b == [b[0]] + b[1..];
      if a[0] == b[0] {
        forall i: nat ensures LessAt(a, b, i) <==> i > 0 && LessAt(a[1..], b[1..], i - 1) {
          LessAfterFirst(a, b, i);
        }
        forall i: nat | LessAt(a[1..], b[1..], i) ensures LessAt(a, b, i + 1) {
          LessAfterFirst(a, b, i + 1);
        }
      } else {
        FirstDiffers(a, b);
      }
    }
  }

  lemma LessAfterFirst(a: string, b: string, i: nat)
    requires a != "" && b != "" && a[0] == b[0]
    ensures LessAt(a, b, i) <==> i > 0 && LessAt(a[1..], b[1..], i - 1)
  {
    if 0 < i < |a| && i < |b| {
      assert a[..i] == [a[0]] + a[1..][..i - 1] && b[..i] == [b[0]] + b[1..][..i - 1];
      assert a[1..][..i - 1] == a[..i][1..] && b[1..][..i - 1] == b[..i][1..];
    }
  }

  lemma FirstDiffers(a: string, b: string)
    requires a != "" && b != "" && a[0] != b[0]
    ensures !(a <= b) && ((exists i: nat :: LessAt(a, b, i)) <==> a[0] < b[0])
  {
    if a[0] < b[0] {
      assert LessAt(a, b, 0);
    }
    forall i: nat | 0 < i < |a| && i < |b| ensures a[..i] != b[..i] {
      assert a[..i][0] == a[0] && b[..i][0] == b[0];
    }
  }
}
