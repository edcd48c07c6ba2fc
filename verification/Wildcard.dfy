/** Wildcard patterns: `many` stands for any run of characters and `one` for any single character.
    Redis globs use ('*', '?'); SQL LIKE uses ('%', '_') and a backslash that takes the next character as it is. */
module Wildcard {
  import opened Text

  predicate Matches(many: char, one: char, pattern: string, s: string)
    decreases |pattern| + |s|
  {
    if pattern == "" then s == ""
    else if pattern[0] == many then
      Matches(many, one, pattern[1..], s) || (s != "" && Matches(many, one, pattern, s[1..]))
    else
      s != "" && (pattern[0] == one || pattern[0] == s[0]) && Matches(many, one, pattern[1..], s[1..])
  }

  /** No character of `s` is special in a pattern. */
  predicate Literal(many: char, one: char, s: string) {
    many !in s && one !in s
  }

  /** A literal start of a pattern matches exactly itself. */
  lemma {:induction false} MatchesLiteral(many: char, one: char, lit: string, pattern: string, s: string)
    requires Literal(many, one, lit)
    ensures Matches(many, one, lit + pattern, s) <==> lit <= s && Matches(many, one, pattern, s[|lit|..])
    decreases |lit|
  {
    if lit == "" {
      assert lit + pattern == pattern && s[0..] == s;
    } else {
      assert (lit + pattern)[1..] == lit[1..] + pattern;
      if s != "" {
        MatchesLiteral(many, one, lit[1..], pattern, s[1..]);
        assert lit <= s <==> lit[0] == s[0] && lit[1..] <= s[1..] by {
          assert s == [s[0]] + s[1..] && lit == [lit[0]] + lit[1..];
        }
        if lit <= s {
          assert s[1..][|lit| - 1..] == s[|lit|..];
        }
      }
    }
  }

  /** ... so it can be stripped from both sides. */
  lemma StripLiteral(many: char, one: char, lit: string, pattern: string, rest: string)
    requires Literal(many, one, lit)
    ensures Matches(many, one, lit + pattern, lit + rest) <==> Matches(many, one, pattern, rest)
  {
    MatchesLiteral(many, one, lit, pattern, lit + rest);
    assert (lit + rest)[|lit|..] == rest;
  }

  /** A leading `many` skips any number of characters. */
  lemma {:induction false} MatchesMany(many: char, one: char, pattern: string, s: string)
    ensures Matches(many, one, [many] + pattern, s)
            <==> exists i: nat :: i <= |s| && Matches(many, one, pattern, s[i..])
    decreases |s|
  {
    var p := [many] + pattern;
    assert p[1..] == pattern && s[0..] == s;
    if s != "" {
      MatchesMany(many, one, pattern, s[1..]);
      forall i: nat | 1 <= i <= |s| ensures s[i..] == s[1..][i - 1..] {}
      if Matches(many, one, p, s[1..]) {
        var i: nat :| i <= |s[1..]| && Matches(many, one, pattern, s[1..][i..]);
        assert s[i + 1..] == s[1..][i..];
      }
    }
  }

  /** `lit%` matches exactly the strings that start with `lit`. */
  lemma PrefixPattern(many: char, one: char, lit: string, s: string)
    requires many != one && Literal(many, one, lit)
    ensures Matches(many, one, lit + [many], s) <==> lit <= s
  {
    MatchesLiteral(many, one, lit, [many], s);
    if lit <= s {
      var rest := s[|lit|..];
      MatchesMany(many, one, "", rest);
      assert [many] + "" == [many];
      assert rest[|rest|..] == "";
    }
  }

  /** `*lit` matches exactly the strings that end with `lit`. */
  lemma SuffixPattern(many: char, one: char, lit: string, s: string)
    requires many != one && Literal(many, one, lit)
    ensures Matches(many, one, [many] + lit, s) <==> EndsWith(s, lit)
  {
    MatchesMany(many, one, lit, s);
    forall i: nat | i <= |s| ensures Matches(many, one, lit, s[i..]) <==> s[i..] == lit {
      MatchesLiteral(many, one, lit, "", s[i..]);
      assert lit + "" == lit;
    }
  }

  /** `*lit*` matches exactly the strings that contain `lit`. */
  lemma InfixPattern(many: char, one: char, lit: string, s: string)
    requires many != one && Literal(many, one, lit)
    ensures Matches(many, one, [many] + (lit + [many]), s) <==> Contains(s, lit)
  {
    MatchesMany(many, one, lit + [many], s);
    forall i: nat | i <= |s| ensures Matches(many, one, lit + [many], s[i..]) <==> OccursAt(lit, s, i) {
      PrefixPattern(many, one, lit, s[i..]);
    }
  }

  // ---------- LIKE ----------

  /** PostgreSQL's LIKE. No pattern here ends in a backslash that escapes nothing. */
  predicate Like(pattern: string, s: string)
    decreases |pattern| + |s|
  {
    if pattern == "" then s == ""
    else if pattern[0] == '%' then
      Like(pattern[1..], s) || (s != "" && Like(pattern, s[1..]))
    else if pattern[0] == '\\' then
      |pattern| > 1 && s != "" && pattern[1] == s[0] && Like(pattern[2..], s[1..])
    else
      s != "" && (pattern[0] == '_' || pattern[0] == s[0]) && Like(pattern[1..], s[1..])
  }

  /** A text without wildcards, but for escaped ones, whose escapes are complete. */
  predicate Quoted(text: string) {
    if text == "" then true
    else if text[0] == '\\' then |text| > 1 && Quoted(text[2..])
    else text[0] != '%' && text[0] != '_' && Quoted(text[1..])
  }

  /** What it stands for. */
  function Unquoted(text: string): string
    requires Quoted(text)
  {
    if text == "" then ""
    else if text[0] == '\\' then [text[1]] + Unquoted(text[2..])
    else [text[0]] + Unquoted(text[1..])
  }

  lemma {:induction false} PlainTextIsQuoted(text: string)
    requires '%' !in text && '_' !in text && '\\' !in text
    ensures Quoted(text) && Unquoted(text) == text
  {
    if text != "" {
      PlainTextIsQuoted(text[1..]);
      assert text == [text[0]] + text[1..];
    }
  }

  /** Such a start of a pattern matches exactly what it stands for. */
  lemma {:induction false} LikeQuoted(text: string, pattern: string, s: string)
    requires Quoted(text)
    ensures Like(text + pattern, s) <==> Unquoted(text) <= s && Like(pattern, s[|Unquoted(text)|..])
    decreases |text|
  {
    if text == "" {
      assert text + pattern == pattern && s[0..] == s;
    } else {
      var n := if text[0] == '\\' then 2 else 1;
      assert (text + pattern)[n..] == text[n..] + pattern;
      if s != "" {
        LikeQuoted(text[n..], pattern, s[1..]);
        var first, rest := [Unquoted(text)[0]], Unquoted(text[n..]);
        assert Unquoted(text) == first + rest && s == [s[0]] + s[1..];
        assert first + rest <= s <==> first[0] == s[0] && rest <= s[1..];
        if Unquoted(text) <= s {
          assert s[1..][|rest|..] == s[|rest| + 1..];
        }
      }
    }
  }

  /** A leading '%' skips any number of characters. */
  lemma {:induction false} LikeMany(pattern: string, s: string)
    ensures Like(['%'] + pattern, s) <==> exists i: nat :: i <= |s| && Like(pattern, s[i..])
    decreases |s|
  {
    var p := ['%'] + pattern;
    assert p[1..] == pattern && s[0..] == s;
    if s != "" {
      LikeMany(pattern, s[1..]);
      forall i: nat | 1 <= i <= |s| ensures s[i..] == s[1..][i - 1..] {}
      if Like(p, s[1..]) {
        var i: nat :| i <= |s[1..]| && Like(pattern, s[1..][i..]);
        assert s[i + 1..] == s[1..][i..];
      }
    }
  }

  /** `text%` matches exactly the strings that start with what the text stands for. */
  lemma LikePrefix(text: string, s: string)
    requires Quoted(text)
    ensures Like(text + ['%'], s) <==> Unquoted(text) <= s
  {
    LikeQuoted(text, ['%'], s);
    if Unquoted(text) <= s {
      var rest := s[|Unquoted(text)|..];
      LikeMany("", rest);
      assert ['%'] + "" == ['%'] && rest[|rest|..] == "";
    }
  }

  /** `%text%` matches exactly the strings that contain it. */
  lemma LikeInfix(text: string, s: string)
    requires Quoted(text)
    ensures Like(['%'] + (text + ['%']), s) <==> Contains(s, Unquoted(text))
  {
    LikeMany(text + ['%'], s);
    forall i: nat | i <= |s| ensures Like(text + ['%'], s[i..]) <==> OccursAt(Unquoted(text), s, i) {
      LikePrefix(text, s[i..]);
    }
  }

  /** Underscores stand for as many characters, whichever they are. */
  lemma {:induction false} LikeAny(n: nat, pattern: string, s: string)
    ensures Like(seq(n, _ => '_') + pattern, s) <==> n <= |s| && Like(pattern, s[n..])
  {
    var p := seq(n, _ => '_') + pattern;
    if n == 0 {
      assert p == pattern && s[0..] == s;
    } else {
      assert p[0] == '_' && p[1..] == seq(n - 1, _ => '_') + pattern;
      if s != "" {
        LikeAny(n - 1, pattern, s[1..]);
        assert n <= |s| ==> s[1..][n - 1..] == s[n..];
      }
    }
  }
}
