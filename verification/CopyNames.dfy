/** How duplicates are named: a LIKE count over the tenant's names picks the number, and a unique constraint on
    (tenant, name) rejects a clash. The table is the names of one tenant by row id. */
module CopyNames {
  import opened Text
  import opened Wildcard

  type Names = map<string, string>

  const MAX_NAME := 255

  /** Names have at least one character and fit their column. */
  predicate NameFits(name: string) {
    1 <= |name| <= MAX_NAME
  }

  /** No LIKE escape character. Wildcards are allowed: in a pattern they match themselves, and more. */
  predicate PlainName(name: string) {
    '\\' !in name
  }

  function CopyOf(original: string): string {
    original + " Copy"
  }

  function NumberedCopy(original: string, n: nat): string {
    CopyOf(original) + ("(" + (Decimal(n) + ")"))
  }

  /** The rows `name LIKE '<original> Copy%'` finds. */
  function Similar(names: Names, original: string): set<string> {
    set id | id in names && IsSimilar(names[id], original)
  }

  function GenerateCopyName(names: Names, original: string): string {
    var count := |Similar(names, original)|;
    if count == 0 then CopyOf(original) else NumberedCopy(original, count + 1)
  }

  /** `name` is the original's name, the word Copy and the number in brackets, written without leading zeros. */
  ghost predicate Numbered(name: string, original: string, n: int) {
    exists digits: string :: Number(digits) == n && digits != "" && digits[0] != '0' && name == original + " Copy(" + digits + ")"
  }

  lemma NumberedCopyReads(original: string, n: nat)
    requires n > 0
    ensures Numbered(NumberedCopy(original, n), original, n)
  {
    DecimalStandsFor(n);
    NumberSpelled(original, Decimal(n));
  }

  /** The generated name: the number, if there is one, is one more than the count of the names found. */
  lemma CopyNameSpelled(names: Names, original: string, found: set<string>)
    requires forall id :: id in found <==> id in names && Like(original + " Copy%", names[id])
    ensures found == {} ==> GenerateCopyName(names, original) == original + " Copy"
    ensures found != {} ==> Numbered(GenerateCopyName(names, original), original, |found| + 1)
  {
    PatternSpelled(original);
    assert found == Similar(names, original);
    NumberedCopyReads(original, |found| + 1);
  }

  lemma PatternSpelled(original: string)
    ensures original + " Copy%" == CopyOf(original) + "%"
  {
    assert " Copy%" == " Copy" + "%";
  }

  lemma NumberSpelled(original: string, digits: string)
    ensures CopyOf(original) + ("(" + (digits + ")")) == original + " Copy(" + digits + ")"
  {
    assert " Copy(" == " Copy" + "(";
    assert CopyOf(original) + "(" == original + " Copy(";
  }

  predicate Taken(names: Names, name: string) {
    exists id :: id in names && names[id] == name
  }

  // ---------- Reading a copy name back ----------

  lemma CopySuffix()
    ensures " Copy" == " Cop" + "y" && |" Copy"| == 5
  {
  }

  /** A numbered copy determines its original and its number. */
  lemma NumberedCopyInjective(a: string, m: nat, b: string, n: nat)
    requires NumberedCopy(a, m) == NumberedCopy(b, n)
    ensures a == b && m == n
  {
    var s, t := NumberedCopy(a, m), NumberedCopy(b, n);
    var i, j := |CopyOf(a)|, |CopyOf(b)|;
    ParenAfter(a, m);
    ParenAfter(b, n);
    assert i == j;
    assert s[..i] == CopyOf(a) && t[..j] == CopyOf(b);
    assert s[..i][..|a|] == a && t[..j][..|b|] == b;
    assert s[i + 1..|s| - 1] == Decimal(m) && t[j + 1..|t| - 1] == Decimal(n);
    DecimalInjective(m, n);
  }

  /** The last '(' of a numbered copy is the one in front of its number. */
  lemma ParenAfter(a: string, m: nat)
    ensures var s, i := NumberedCopy(a, m), |CopyOf(a)|;
      i < |s| && s[i] == '(' && s[|s| - 1] == ')' && forall k :: i < k < |s| ==> s[k] != '('
  {
    var s, i := NumberedCopy(a, m), |CopyOf(a)|;
    forall k | i < k < |s| ensures s[k] != '(' {
      if k < |s| - 1 {
        assert s[k] == Decimal(m)[k - i - 1] && s[k] in Decimal(m);
      }
    }
  }

  /** A plain first copy is never a numbered one. */
  lemma FirstCopyNotNumbered(a: string, b: string, n: nat)
    ensures CopyOf(a) != NumberedCopy(b, n)
  {
    CopySuffix();
    ParenAfter(b, n);
    assert CopyOf(a)[|CopyOf(a)| - 1] == 'y';
  }

  predicate IsSimilar(name: string, original: string) {
    Like(CopyOf(original) + "%", name)
  }

  /** A text without escapes matches itself as a pattern, wildcards and all, and so does any continuation of it. */
  lemma {:induction false} SelfMatches(text: string, rest: string)
    requires PlainName(text)
    ensures Like(text + "%", text + rest)
  {
    if text == "" {
      assert text + "%" == ['%'] + "" && text + rest == rest;
      LikeMany("", rest);
      assert rest[|rest|..] == "";
    } else {
      var p, s := text + "%", text + rest;
      SelfMatches(text[1..], rest);
      assert p[1..] == text[1..] + "%" && s[1..] == text[1..] + rest;
      if text[0] == '%' {
        LikeMany(text[1..] + "%", s);
        assert p == ['%'] + (text[1..] + "%");
        assert Like(text[1..] + "%", s[1..]);
      }
    }
  }

  /** The pattern of a name finds the name's own first copy. */
  predicate CountsCopies(original: string) {
    IsSimilar(CopyOf(original), original)
  }

  /** It does for every name without a backslash ... */
  lemma PlainCountsCopies(original: string)
    requires PlainName(original)
    ensures CountsCopies(original)
  {
    assert PlainName(" Copy");
    SelfMatches(CopyOf(original), "");
    assert CopyOf(original) + "" == CopyOf(original);
  }

  /** A pattern that ends in a bare '%' goes on matching however the text goes on. */
  lemma {:induction false} LikeExtends(text: string, s: string, rest: string)
    requires Like(text + "%", s) && (text != "" ==> text[|text| - 1] != '\\')
    ensures Like(text + "%", s + rest)
    decreases |text| + |s|
  {
    var p := text + "%";
    if text == "" {
      assert p == ['%'] + "";
      LikeMany("", s + rest);
      assert (s + rest)[|s + rest|..] == "";
    } else {
      assert p[1..] == text[1..] + "%";
      assert s != "" ==> (s + rest)[1..] == s[1..] + rest;
      if text[0] == '%' {
        if Like(p[1..], s) {
          LikeExtends(text[1..], s, rest);
        } else {
          LikeExtends(text, s[1..], rest);
        }
      } else if text[0] == '\\' {
        assert p[2..] == text[2..] + "%";
        LikeExtends(text[2..], s[1..], rest);
      } else {
        LikeExtends(text[1..], s[1..], rest);
      }
    }
  }

  /** ... and then it finds every numbered copy too. */
  lemma CopiesAreSimilar(original: string, n: nat)
    requires CountsCopies(original)
    ensures IsSimilar(CopyOf(original), original) && IsSimilar(NumberedCopy(original, n), original)
  {
    CopySuffix();
    LikeExtends(CopyOf(original), CopyOf(original), "(" + (Decimal(n) + ")"));
  }

  /** A character that is not special occurs in a matching text at least as often as in the pattern. */
  lemma {:induction false} MatchNeeds(pattern: string, s: string, c: char)
    requires Like(pattern, s) && c !in {'%', '_', '\\'}
    ensures multiset(pattern)[c] <= multiset(s)[c]
    decreases |pattern| + |s|
  {
    if pattern != "" {
      assert pattern == [pattern[0]] + pattern[1..];
      assert s != "" ==> s == [s[0]] + s[1..];
      if pattern[0] == '%' && !Like(pattern[1..], s) {
        MatchNeeds(pattern, s[1..], c);
      } else if pattern[0] == '%' {
        MatchNeeds(pattern[1..], s, c);
      } else if pattern[0] == '\\' {
        assert pattern == [pattern[0]] + [pattern[1]] + pattern[2..];
        MatchNeeds(pattern[2..], s[1..], c);
      } else {
        MatchNeeds(pattern[1..], s[1..], c);
      }
    }
  }

  /** No name is similar to itself. */
  lemma NotItsOwnCopy(name: string)
    ensures !IsSimilar(name, name)
  {
    if IsSimilar(name, name) {
      MatchNeeds(CopyOf(name) + "%", name, 'C');
      CopyHasMore(name);
    }
  }

  lemma CopyHasMore(name: string)
    ensures multiset(CopyOf(name) + "%")['C'] > multiset(name)['C']
  {
    assert " Copy%"[1] == 'C' && 'C' in multiset(" Copy%");
    assert CopyOf(name) + "%" == name + " Copy%";
  }

  // ---------- The invariant ----------

  /** Every numbered copy's number is at most the count the next copy would be numbered from. */
  ghost predicate NumbersBelowCount(names: Names) {
    forall id, original: string, n: nat ::
      id in names && CountsCopies(original) && names[id] == NumberedCopy(original, n) ==> n <= |Similar(names, original)|
  }

  /** Under the invariant the generated name is unused. */
  lemma GeneratedNameUnused(names: Names, original: string)
    requires NumbersBelowCount(names) && CountsCopies(original)
    ensures !Taken(names, GenerateCopyName(names, original))
  {
    var similar := Similar(names, original);
    CopiesAreSimilar(original, 0);
    forall id | id in names ensures names[id] != GenerateCopyName(names, original) {
      if |similar| == 0 {
        assert id !in similar;
      } else if names[id] == NumberedCopy(original, |similar| + 1) {
        assert false;
      }
    }
  }

  lemma SimilarGrows(names: Names, id: string, name: string, original: string)
    requires id !in names
    ensures Similar(names[id := name], original) ==
      Similar(names, original) + if IsSimilar(name, original) then {id} else {}
    ensures |Similar(names, original)| <= |Similar(names[id := name], original)|
    ensures IsSimilar(name, original) ==>
      |Similar(names[id := name], original)| == |Similar(names, original)| + 1
  {
    assert Similar(names[id := name], original) ==
      Similar(names, original) + if IsSimilar(name, original) then {id} else {};
  }

  /** A user-supplied name of the form `X Copy(n)`. */
  ghost predicate LooksNumbered(name: string) {
    exists original: string, n: nat :: CountsCopies(original) && name == NumberedCopy(original, n)
  }

  /** Adding a name that is not a numbered copy keeps the invariant, and so does adding a generated one. */
  lemma AddingKeepsInvariant(names: Names, id: string, name: string, source: string)
    requires NumbersBelowCount(names) && id !in names
    requires !LooksNumbered(name) || name == GenerateCopyName(names, source)
    ensures NumbersBelowCount(names[id := name])
  {
    var names' := names[id := name];
    forall i, original: string, n: nat |
        i in names' && CountsCopies(original) && names'[i] == NumberedCopy(original, n)
      ensures n <= |Similar(names', original)|
    {
      SimilarGrows(names, id, name, original);
      if i == id {
        assert LooksNumbered(name);
        FirstCopyNotNumbered(source, original, n);
        NumberedCopyInjective(source, |Similar(names, source)| + 1, original, n);
        CopiesAreSimilar(original, n);
      }
    }
  }

  // ---------- Runs ----------

  datatype NameOp =
    | Create(id: string, name: string)
    | Duplicate(id: string, source: string)
    | Rename(id: string, name: string)
    | Delete(id: string)

  /** A name that is too long or taken, in an insert or update, is an error that changes nothing. */
  function Step(names: Names, op: NameOp): Names {
    match op
    case Create(id, name) => if !NameFits(name) || Taken(names, name) then names else names[id := name]
    case Duplicate(id, source) =>
      if source !in names then names
      else
        var name := GenerateCopyName(names, names[source]);
        if !NameFits(name) || Taken(names, name) then names else names[id := name]
    case Rename(id, name) => if id !in names || !NameFits(name) || Taken(names - {id}, name) then names else names[id := name]
    case Delete(id) => names - {id}
  }

  function Run(names: Names, ops: seq<NameOp>): Names
    decreases |ops|
  {
    if ops == [] then names else Run(Step(names, ops[0]), ops[1..])
  }

  /** Creations with fresh ids and names not of the form `X Copy(n)`, and duplications with fresh ids. */
  ghost predicate OnlyAdds(names: Names, ops: seq<NameOp>)
    decreases |ops|
  {
    ops == [] || (AddsRow(names, ops[0]) && OnlyAdds(Step(names, ops[0]), ops[1..]))
  }

  ghost predicate AddsRow(names: Names, op: NameOp) {
    match op
    case Create(id, name) => id !in names && !LooksNumbered(name)
    case Duplicate(id, _) => id !in names
    case _ => false
  }

  /** On every run without deletes or renames, every later duplication of a row whose pattern finds its copies gets an unused name. */
  lemma {:induction false} CopyNamesStayFresh(names: Names, ops: seq<NameOp>)
    requires NumbersBelowCount(names) && OnlyAdds(names, ops)
    ensures NumbersBelowCount(Run(names, ops))
    ensures forall source :: source in Run(names, ops) && CountsCopies(Run(names, ops)[source]) ==>
      !Taken(Run(names, ops), GenerateCopyName(Run(names, ops), Run(names, ops)[source]))
    decreases |ops|
  {
    if ops == [] {
      forall source | source in names && CountsCopies(names[source]) ensures !Taken(names, GenerateCopyName(names, names[source])) {
        GeneratedNameUnused(names, names[source]);
      }
    } else {
      match ops[0] {
        case Create(id, name) =>
          AddingKeepsInvariant(names, id, name, name);
        case Duplicate(id, source) =>
          if source in names {
            AddingKeepsInvariant(names, id, GenerateCopyName(names, names[source]), names[source]);
          }
        case _ =>
      }
      CopyNamesStayFresh(Step(names, ops[0]), ops[1..]);
    }
  }

  // ---------- After deletes ----------

  /** A row similar to some original, and whether it was made by duplicating that original while there was another. */
  datatype Match = Match(id: string, numbered: bool)

  /** The similar row a call adds, if it adds one. */
  function Added(names: Names, op: NameOp, original: string): seq<Match> {
    var after := Step(names, op);
    match op
    case Create(id, _) =>
      if id !in names && id in after && IsSimilar(after[id], original) then [Match(id, false)] else []
    case Duplicate(id, source) =>
      if id !in names && id in after && IsSimilar(after[id], original)
      then [Match(id, names[source] == original && Similar(names, original) != {})] else []
    case _ => []
  }

  /** The similar rows after a run, oldest first, given those before it. */
  function History(history: seq<Match>, names: Names, ops: seq<NameOp>, original: string): seq<Match>
    decreases |ops|
  {
    if ops == [] then history
    else History(history + Added(names, ops[0], original), Step(names, ops[0]), ops[1..], original)
  }

  function Ids(history: seq<Match>): set<string> {
    set m | m in history :: m.id
  }

  /** Numbered entries are numbered copies that bear their own position. */
  ghost predicate PositionsNumbered(history: seq<Match>, names: Names, original: string) {
    forall k :: 0 <= k < |history| && history[k].numbered ==>
      k >= 1 && history[k].id in names && names[history[k].id] == NumberedCopy(original, k + 1)
  }

  /** Numbered copies are numbered entries at the position they bear. */
  ghost predicate NumbersPositioned(history: seq<Match>, names: Names, original: string) {
    forall id, n: nat :: id in names && names[id] == NumberedCopy(original, n) ==>
      1 <= n <= |history| && history[n - 1] == Match(id, true)
  }

  /** The history names the similar rows, each once, and its numbered entries are exactly the numbered copies. */
  ghost predicate Chronicles(history: seq<Match>, names: Names, original: string) {
    && Ids(history) == Similar(names, original) && |history| == |Similar(names, original)|
    && PositionsNumbered(history, names, original) && NumbersPositioned(history, names, original)
  }

  /** What a call of a run of adds does to the table: nothing, or one new row. */
  lemma AddStep(names: Names, op: NameOp)
    requires (op.Create? || op.Duplicate?) && op.id !in names
    ensures Step(names, op) == names || (op.id in Step(names, op) && Step(names, op) == names[op.id := Step(names, op)[op.id]])
  {
  }

  lemma NewNumber(names: Names, op: NameOp, original: string, n: nat)
    requires AddsRow(names, op) && CountsCopies(original) && op.id in Step(names, op)
    requires Step(names, op)[op.id] == NumberedCopy(original, n)
    ensures op.Duplicate? && op.source in names && names[op.source] == original
    ensures Similar(names, original) != {} && n == |Similar(names, original)| + 1
  {
    if op.Create? {
      assert LooksNumbered(op.name);
    } else {
      var source := names[op.source];
      FirstCopyNotNumbered(source, original, n);
      NumberedCopyInjective(source, |Similar(names, source)| + 1, original, n);
    }
  }

  lemma ChroniclesStep(history: seq<Match>, names: Names, op: NameOp, original: string)
    requires Chronicles(history, names, original) && AddsRow(names, op) && CountsCopies(original)
    ensures Chronicles(history + Added(names, op, original), Step(names, op), original)
  {
    var added := Added(names, op, original);
    AddStep(names, op);
    if op.id !in Step(names, op) {
      assert history + added == history;
    } else {
      AddedSimilar(names, op, original);
      AddedIds(history, added);
      NewEntry(history, names, op, original);
      NewPosition(history, names, op, original);
    }
  }

  lemma AddedSimilar(names: Names, op: NameOp, original: string)
    requires AddsRow(names, op) && op.id in Step(names, op)
    ensures Similar(Step(names, op), original) == Similar(names, original) + Ids(Added(names, op, original))
    ensures |Similar(Step(names, op), original)| == |Similar(names, original)| + |Added(names, op, original)|
  {
    var added := Added(names, op, original);
    AddStep(names, op);
    SimilarGrows(names, op.id, Step(names, op)[op.id], original);
    assert added == [] || (|added| == 1 && added[0].id == op.id);
    assert Ids(added) == if added == [] then {} else {op.id};
  }

  lemma AddedIds(history: seq<Match>, added: seq<Match>)
    ensures Ids(history + added) == Ids(history) + Ids(added)
  {
  }

  lemma NewPosition(history: seq<Match>, names: Names, op: NameOp, original: string)
    requires Chronicles(history, names, original) && AddsRow(names, op) && CountsCopies(original) && op.id in Step(names, op)
    ensures NumbersPositioned(history + Added(names, op, original), Step(names, op), original)
  {
    var after, next := Step(names, op), history + Added(names, op, original);
    AddStep(names, op);
    forall id, n: nat | id in after && after[id] == NumberedCopy(original, n)
      ensures 1 <= n <= |next| && next[n - 1] == Match(id, true)
    {
      if id == op.id {
        OwnPosition(history, names, op, original, n);
      }
    }
  }

  lemma OwnPosition(history: seq<Match>, names: Names, op: NameOp, original: string, n: nat)
    requires |history| == |Similar(names, original)| && AddsRow(names, op) && CountsCopies(original)
    requires op.id in Step(names, op) && Step(names, op)[op.id] == NumberedCopy(original, n)
    ensures var next := history + Added(names, op, original); 1 <= n <= |next| && next[n - 1] == Match(op.id, true)
  {
    NewNumber(names, op, original, n);
    CopiesAreSimilar(original, n);
  }

  /** A numbered entry is a copy numbered with its own position. */
  lemma NewEntry(history: seq<Match>, names: Names, op: NameOp, original: string)
    requires Chronicles(history, names, original) && AddsRow(names, op) && op.id in Step(names, op)
    ensures PositionsNumbered(history + Added(names, op, original), Step(names, op), original)
  {
    AddStep(names, op);
    if op.Duplicate? && op.source in names && names[op.source] == original && Similar(names, original) != {} {
      assert |Similar(names, original)| != 0;
    }
  }

  lemma {:induction false} ChroniclesRun(history: seq<Match>, names: Names, ops: seq<NameOp>, original: string)
    requires Chronicles(history, names, original) && OnlyAdds(names, ops) && CountsCopies(original)
    ensures Chronicles(History(history, names, ops, original), Run(names, ops), original)
    decreases |ops|
  {
    if ops != [] {
      ChroniclesStep(history, names, ops[0], original);
      ChroniclesRun(history + Added(names, ops[0], original), Step(names, ops[0]), ops[1..], original);
    }
  }

  /** After a run of adds from the empty table and the deletion of any rows, `gone` of them similar to X, the next
      duplication of X clashes exactly when some but not all similar rows are gone and the `gone`-th newest of them
      survives and was made by duplicating X while there was another. */
  lemma ClashAfterDeletes(ops: seq<NameOp>, deleted: set<string>, original: string)
    requires OnlyAdds(map[], ops) && CountsCopies(original)
    ensures var names, history := Run(map[], ops), History([], map[], ops, original);
      var left, gone := names - deleted, |Similar(names, original) * deleted|;
      Taken(left, GenerateCopyName(left, original)) <==>
        0 < gone < |history| && history[|history| - gone].numbered && history[|history| - gone].id !in deleted
  {
    ChroniclesFromEmpty(ops, original);
    ClashInTable(History([], map[], ops, original), Run(map[], ops), deleted, original);
  }

  lemma ChroniclesFromEmpty(ops: seq<NameOp>, original: string)
    requires OnlyAdds(map[], ops) && CountsCopies(original)
    ensures Chronicles(History([], map[], ops, original), Run(map[], ops), original)
  {
    assert Similar(map[], original) == {};
    ChroniclesRun([], map[], ops, original);
  }

  lemma ClashInTable(history: seq<Match>, names: Names, deleted: set<string>, original: string)
    requires Chronicles(history, names, original) && CountsCopies(original)
    ensures var left, gone := names - deleted, |Similar(names, original) * deleted|;
      Taken(left, GenerateCopyName(left, original)) <==>
        0 < gone < |history| && history[|history| - gone].numbered && history[|history| - gone].id !in deleted
  {
    var left, similar := names - deleted, Similar(names, original);
    assert Similar(left, original) == similar - deleted;
    SplitSize(similar, deleted);
    var count := |similar - deleted|;
    if count == 0 {
      FirstCopyCounts(left, original);
    } else {
      NumberLeftIff(history, names, deleted, original, count);
    }
  }

  /** A numbered copy is left exactly when the entry at its position is numbered and not deleted. */
  lemma NumberLeftIff(history: seq<Match>, names: Names, deleted: set<string>, original: string, k: nat)
    requires PositionsNumbered(history, names, original) && NumbersPositioned(history, names, original)
    ensures Taken(names - deleted, NumberedCopy(original, k + 1)) <==>
      k < |history| && history[k].numbered && history[k].id !in deleted
  {
    var left, name := names - deleted, NumberedCopy(original, k + 1);
    if k < |history| && history[k].numbered && history[k].id !in deleted {
      assert left[history[k].id] == name;
    }
    if id :| id in left && left[id] == name {
      assert history[k] == Match(id, true);
    }
  }

  lemma SplitSize<T>(a: set<T>, b: set<T>)
    ensures |a| == |a - b| + |a * b|
  {
    assert a == (a - b) + a * b;
  }

  /** With one row deleted: exactly when it was a similar one and the newest similar row is another one, made by
      duplicating X while there was another. */
  lemma ClashAfterDelete(ops: seq<NameOp>, id: string, original: string)
    requires OnlyAdds(map[], ops) && CountsCopies(original)
    ensures var names, history := Run(map[], ops), History([], map[], ops, original);
      Taken(names - {id}, GenerateCopyName(names - {id}, original)) <==>
        id in Similar(names, original) && history != []
        && history[|history| - 1].numbered && history[|history| - 1].id != id
  {
    ChroniclesFromEmpty(ops, original);
    ClashAfterDeletes(ops, {id}, original);
    OneGone(Similar(Run(map[], ops), original), id);
  }

  lemma OneGone<T>(s: set<T>, x: T)
    ensures |s * {x}| == if x in s then 1 else 0
  {
    assert s * {x} == if x in s then {x} else {};
  }

  /** Renaming a row to a name that is not similar to X has the same effect on duplications of X as deleting it. */
  lemma RenamedAwayIsDeleted(names: Names, id: string, name: string, original: string)
    requires id in names && CountsCopies(original) && !IsSimilar(name, original)
    ensures GenerateCopyName(names[id := name], original) == GenerateCopyName(names - {id}, original)
    ensures Taken(names[id := name], GenerateCopyName(names[id := name], original))
        <==> Taken(names - {id}, GenerateCopyName(names - {id}, original))
  {
    var renamed, left := names[id := name], names - {id};
    assert Similar(renamed, original) == Similar(left, original);
    var generated := GenerateCopyName(left, original);
    CopiesAreSimilar(original, |Similar(left, original)| + 1);
    if i :| i in left && left[i] == generated {
      assert i in renamed && renamed[i] == generated;
    }
    if i :| i in renamed && renamed[i] == generated {
      assert i in left && left[i] == generated;
    }
  }

  // ---------- After any run ----------

  ghost predicate Numbers(name: string, original: string) {
    exists n: nat :: name == NumberedCopy(original, n)
  }

  /** Fresh ids, and no name given by a user is a numbered copy of X; keeping a name is no rename. */
  ghost predicate LeavesNumbers(names: Names, op: NameOp, original: string) {
    match op
    case Create(id, name) => id !in names && !Numbers(name, original)
    case Duplicate(id, _) => id !in names
    case Rename(id, name) => id in names ==> name == names[id] || !Numbers(name, original)
    case Delete(_) => true
  }

  ghost predicate AllLeaveNumbers(names: Names, ops: seq<NameOp>, original: string)
    decreases |ops|
  {
    ops == [] || (LeavesNumbers(names, ops[0], original) && AllLeaveNumbers(Step(names, ops[0]), ops[1..], original))
  }

  /** For each row made by duplicating X while something was similar to it: how many rows were. A rename or deletion of the row
      ends its record. */
  function Recorded(made: map<string, nat>, names: Names, op: NameOp, original: string): map<string, nat> {
    var after := Step(names, op);
    match op
    case Create(_, _) => made
    case Duplicate(id, source) =>
      if id in after && source in names && names[source] == original && Similar(names, original) != {}
      then made[id := |Similar(names, original)|] else made
    case Rename(id, _) => if id in names && after[id] != names[id] then made - {id} else made
    case Delete(id) => made - {id}
  }

  function Records(made: map<string, nat>, names: Names, ops: seq<NameOp>, original: string): map<string, nat>
    decreases |ops|
  {
    if ops == [] then made else Records(Recorded(made, names, ops[0], original), Step(names, ops[0]), ops[1..], original)
  }

  /** The recorded rows are the numbered copies of X, each numbered with one more than its record. */
  ghost predicate RecordsNumbers(made: map<string, nat>, names: Names, original: string) {
    && (forall id :: id in made ==> id in names && names[id] == NumberedCopy(original, made[id] + 1))
    && forall id, n: nat :: id in names && names[id] == NumberedCopy(original, n) ==> id in made && n == made[id] + 1
  }

  /** Some recorded row was made when so many were similar. */
  ghost predicate MadeAmong(made: map<string, nat>, count: nat) {
    exists id :: id in made && made[id] == count
  }

  lemma RecordedStep(made: map<string, nat>, names: Names, op: NameOp, original: string)
    requires RecordsNumbers(made, names, original) && LeavesNumbers(names, op, original)
    ensures RecordsNumbers(Recorded(made, names, op, original), Step(names, op), original)
  {
    match op
    case Create(id, name) => CreateRecorded(made, names, id, name, original);
    case Duplicate(id, source) => if id in Step(names, op) { DuplicateRecorded(made, names, id, source, original); }
    case Rename(id, name) => RenameRecorded(made, names, id, name, original);
    case Delete(id) =>
  }

  lemma CreateRecorded(made: map<string, nat>, names: Names, id: string, name: string, original: string)
    requires RecordsNumbers(made, names, original) && id !in names && !Numbers(name, original)
    ensures RecordsNumbers(made, Step(names, Create(id, name)), original)
  {
  }

  lemma RenameRecorded(made: map<string, nat>, names: Names, id: string, name: string, original: string)
    requires RecordsNumbers(made, names, original) && LeavesNumbers(names, Rename(id, name), original)
    ensures RecordsNumbers(Recorded(made, names, Rename(id, name), original), Step(names, Rename(id, name)), original)
  {
    if Step(names, Rename(id, name)) != names {
      assert name != names[id];
      NewNameRecorded(made, names, id, name, original);
    }
  }

  lemma NewNameRecorded(made: map<string, nat>, names: Names, id: string, name: string, original: string)
    requires RecordsNumbers(made, names, original) && id in names && !Numbers(name, original)
    ensures RecordsNumbers(made - {id}, names[id := name], original)
  {
  }

  lemma DuplicateRecorded(made: map<string, nat>, names: Names, id: string, source: string, original: string)
    requires RecordsNumbers(made, names, original) && id !in names && id in Step(names, Duplicate(id, source))
    ensures RecordsNumbers(Recorded(made, names, Duplicate(id, source), original), Step(names, Duplicate(id, source)), original)
  {
    forall n: nat {
      GeneratedNumber(names, names[source], original, n);
    }
  }

  /** A generated name is a numbered copy of X only if it was generated for X, with something similar to X. */
  lemma GeneratedNumber(names: Names, x: string, original: string, n: nat)
    ensures GenerateCopyName(names, x) == NumberedCopy(original, n) ==>
      x == original && Similar(names, original) != {} && n == |Similar(names, original)| + 1
  {
    FirstCopyNotNumbered(x, original, n);
    if GenerateCopyName(names, x) == NumberedCopy(original, n) {
      NumberedCopyInjective(x, |Similar(names, x)| + 1, original, n);
    }
  }

  lemma {:induction false} RecordsRun(made: map<string, nat>, names: Names, ops: seq<NameOp>, original: string)
    requires RecordsNumbers(made, names, original) && AllLeaveNumbers(names, ops, original)
    ensures RecordsNumbers(Records(made, names, ops, original), Run(names, ops), original)
    decreases |ops|
  {
    if ops != [] {
      RecordedStep(made, names, ops[0], original);
      RecordsRun(Recorded(made, names, ops[0], original), Step(names, ops[0]), ops[1..], original);
    }
  }

  /** After any run of creations, duplications, renames and deletions the next duplication of X clashes exactly when some row
      that was made by duplicating X, and kept its name since, was made when as many rows were similar to X as are now; or, with
      none similar now, when "X Copy" itself is taken, which it can be only for an X whose pattern misses its copies. */
  lemma ClashIff(ops: seq<NameOp>, original: string)
    requires AllLeaveNumbers(map[], ops, original)
    ensures var names, made := Run(map[], ops), Records(map[], map[], ops, original);
      var now := |Similar(names, original)|;
      && (Taken(names, GenerateCopyName(names, original)) <==>
          if now == 0 then Taken(names, CopyOf(original)) else MadeAmong(made, now))
      && (CountsCopies(original) && now == 0 ==> !Taken(names, CopyOf(original)))
  {
    RecordsRun(map[], map[], ops, original);
    ClashByRecord(Records(map[], map[], ops, original), Run(map[], ops), original);
  }

  lemma ClashByRecord(made: map<string, nat>, names: Names, original: string)
    requires RecordsNumbers(made, names, original)
    ensures var now := |Similar(names, original)|;
      && (Taken(names, GenerateCopyName(names, original)) <==>
          if now == 0 then Taken(names, CopyOf(original)) else MadeAmong(made, now))
      && (CountsCopies(original) && now == 0 ==> !Taken(names, CopyOf(original)))
  {
    var now := |Similar(names, original)|;
    NumberTakenIff(made, names, original, now);
    assert GenerateCopyName(names, original) == if now == 0 then CopyOf(original) else NumberedCopy(original, now + 1);
    if CountsCopies(original) {
      FirstCopyCounts(names, original);
    }
  }

  lemma NumberTakenIff(made: map<string, nat>, names: Names, original: string, now: nat)
    requires RecordsNumbers(made, names, original)
    ensures Taken(names, NumberedCopy(original, now + 1)) <==> MadeAmong(made, now)
  {
    var generated := NumberedCopy(original, now + 1);
    if id :| id in made && made[id] == now {
      assert names[id] == generated;
    }
  }

  lemma FirstCopyCounts(names: Names, original: string)
    requires CountsCopies(original)
    ensures Taken(names, CopyOf(original)) ==> |Similar(names, original)| != 0
  {
    CopiesAreSimilar(original, 0);
    if id :| id in names && names[id] == CopyOf(original) {
      assert id in Similar(names, original);
    }
  }

  // ---------- Names with a backslash ----------

  /** Taking the escapes off a text takes off backslashes only, and at least one if there is any. */
  lemma {:induction false} UnquotedKeeps(text: string, c: char)
    requires Quoted(text) && c != '\\'
    ensures multiset(Unquoted(text))[c] == multiset(text)[c]
    ensures |Unquoted(text)| <= |text| && ('\\' in text ==> |Unquoted(text)| < |text|)
    decreases |text|
  {
    if text != "" {
      var n := if text[0] == '\\' then 2 else 1;
      UnquotedKeeps(text[n..], c);
      assert text == text[..n] + text[n..];
      assert text[..n] == if n == 2 then [text[0]] + [text[1]] else [text[0]];
    }
  }

  lemma {:induction false} QuotedCopy(x: string)
    requires Quoted(x)
    ensures Quoted(CopyOf(x))
    decreases |x|
  {
    if x == "" {
      PlainTextIsQuoted(" Copy");
      assert CopyOf(x) == " Copy";
    } else {
      var n := if x[0] == '\\' then 2 else 1;
      QuotedCopy(x[n..]);
      assert CopyOf(x)[n..] == CopyOf(x[n..]);
    }
  }

  /** A name that holds a backslash and no bare wildcard: its pattern does not find its own copies. */
  lemma BackslashMissesCopies(x: string)
    requires Quoted(x) && '\\' in x
    ensures !CountsCopies(x)
  {
    var copy := CopyOf(x);
    QuotedCopy(x);
    LikePrefix(copy, copy);
    UnquotedKeeps(copy, 'y');
    CopySuffix();
    assert '\\' in copy && copy[|copy| - 1] == 'y';
    NoProperPrefix(Unquoted(copy), copy);
  }

  lemma ProperPrefixHasFewer(a: string, b: string)
    requires a < b
    ensures multiset(a)[b[|b| - 1]] < multiset(b)[b[|b| - 1]]
  {
    var tail := b[|a|..];
    assert b == a + tail && tail[|tail| - 1] == b[|b| - 1];
    assert b[|b| - 1] in tail;
  }

  lemma NoProperPrefix(a: string, b: string)
    requires |a| < |b| && multiset(a)[b[|b| - 1]] == multiset(b)[b[|b| - 1]]
    ensures !(a <= b)
  {
    if a <= b {
      ProperPrefixHasFewer(a, b);
    }
  }

  /** Create X and duplicate it: the next duplication invents a taken name exactly when the pattern of X misses X's own copies,
      so the runs above start from a condition on X that cannot be dropped. */
  lemma SecondDuplicateClashesIff(x: string)
    requires RoomForCopies(x)
    ensures var names := Run(map[], [Create("1", x), Duplicate("2", "1")]);
      names == map["1" := x, "2" := CopyOf(x)] && (Taken(names, GenerateCopyName(names, x)) <==> !CountsCopies(x))
  {
    var n0: Names := map[];
    var n1, n2 := n0["1" := x], n0["1" := x]["2" := CopyOf(x)];
    var ops := [Create("1", x), Duplicate("2", "1")];
    CopiesFit(x);
    NotItsOwnCopy(x);
    assert Similar(n1, x) == {};
    assert Similar(n2, x) == if CountsCopies(x) then {"2"} else {};
    assert Step(n0, ops[0]) == n1 && Step(n1, ops[1]) == n2;
    assert ops[1..][1..] == [] && ops[1..] == [ops[1]];
    assert Run(n1, ops[1..]) == Run(Step(n1, ops[1]), ops[1..][1..]);
    assert n2["2"] == CopyOf(x);
    FirstCopyNotNumbered(x, x, 2);
    assert |NumberedCopy(x, 2)| > |x|;
  }

  // ---------- One run of each kind ----------

  /** A name short enough for its first numbered copy. */
  predicate RoomForCopies(x: string) {
    1 <= |x| && |x| + 8 <= MAX_NAME
  }

  lemma CopiesFit(x: string)
    requires RoomForCopies(x)
    ensures NameFits(x) && NameFits(CopyOf(x)) && NameFits(NumberedCopy(x, 2))
    ensures |NumberedCopy(x, 2)| > |CopyOf(x)| > |x|
  {
    assert Decimal(2) == "2";
  }

  /** The tables of creating X and duplicating it twice. */
  lemma TwoCopies(x: string)
    requires CountsCopies(x) && RoomForCopies(x)
    ensures Run(map[], [Create("1", x), Duplicate("2", "1"), Duplicate("3", "1")])
      == map["1" := x, "2" := CopyOf(x), "3" := NumberedCopy(x, 2)]
    ensures GenerateCopyName(map["1" := x, "3" := NumberedCopy(x, 2)], x) == NumberedCopy(x, 2)
  {
    var n0: Names := map[];
    var n1 := n0["1" := x];
    var n2 := n1["2" := CopyOf(x)];
    var n3 := n2["3" := NumberedCopy(x, 2)];
    NotItsOwnCopy(x);
    CopiesAreSimilar(x, 2);
    CopiesFit(x);
    assert Similar(n1, x) == {};
    assert Similar(n2, x) == {"2"};
    assert Similar(map["1" := x, "3" := NumberedCopy(x, 2)], x) == {"3"};
    var ops := [Create("1", x), Duplicate("2", "1"), Duplicate("3", "1")];
    assert Step(n0, ops[0]) == n1 && Step(n1, ops[1]) == n2 && Step(n2, ops[2]) == n3;
    RunThree(n0, ops);
    assert n3 == map["1" := x, "2" := CopyOf(x), "3" := NumberedCopy(x, 2)];
  }

  lemma RunThree(names: Names, ops: seq<NameOp>)
    requires |ops| == 3
    ensures Run(names, ops) == Step(Step(Step(names, ops[0]), ops[1]), ops[2])
  {
    assert ops[1..][1..] == ops[2..] && ops[2..][1..] == [];
    var n := Step(names, ops[0]);
    assert Run(n, ops[1..]) == Run(Step(n, ops[1]), ops[2..]);
    assert Run(Step(n, ops[1]), ops[2..]) == Run(Step(Step(n, ops[1]), ops[2]), []);
  }

  /** Create X, duplicate it twice, then delete the first copy, or rename it to something else: the next duplication
      invents "X Copy(2)", which exists. */
  lemma DeleteRefutesFreshness(x: string, other: string)
    requires CountsCopies(x) && RoomForCopies(x) && NameFits(other) && !IsSimilar(other, x) && other != x
    ensures var names := Run(map[], [Create("1", x), Duplicate("2", "1"), Duplicate("3", "1")]);
      && (var deleted := Step(names, Delete("2"));
          "1" in deleted && deleted["1"] == x && Taken(deleted, GenerateCopyName(deleted, x)))
      && (var renamed := Step(names, Rename("2", other));
          "1" in renamed && renamed["1"] == x && "2" in renamed && renamed["2"] == other && Taken(renamed, GenerateCopyName(renamed, x)))
  {
    TwoCopies(x);
    var names: Names := map["1" := x, "2" := CopyOf(x), "3" := NumberedCopy(x, 2)];
    var left: Names := map["1" := x, "3" := NumberedCopy(x, 2)];
    assert names - {"2"} == left && left["3"] == NumberedCopy(x, 2);
    CopiesAreSimilar(x, 2);
    RenamedAwayIsDeleted(names, "2", other, x);
    assert !Taken(left, other);
  }
}
