/** The Postgres `ILIKE` operator, as the lead search uses it: `%` matches any
    run of characters, `_` matches exactly one, a backslash makes the next
    character literal, and letters compare without regard to (ASCII) case. */
module SqlLike {

  datatype Token = AnyRun | AnyChar | Literal(c: char)

  /** ASCII lower-casing of one character. */
  function FoldChar(c: char): char {
    if 'A' <= c <= 'Z' then (c as int + 32) as char else c
  }

  /** ASCII lower-casing of a string, character by character. */
  function Fold(s: string): (r: string)
    ensures |r| == |s|
    ensures forall i :: 0 <= i < |s| ==> r[i] == FoldChar(s[i])
  {
    seq(|s|, i requires 0 <= i < |s| => FoldChar(s[i]))
  }

  /** Splits a LIKE pattern into tokens. A backslash escapes the character after it;
      a lone trailing backslash (which Postgres rejects) never arises from the
      `%...%` patterns built by the search, and is read as a literal here. */
  function Tokens(p: string): seq<Token>
    decreases |p|
  {
    if p == [] then []
    else if p[0] == '\\' && |p| >= 2 then [Literal(p[1])] + Tokens(p[2..])
    else if p[0] == '%' then [AnyRun] + Tokens(p[1..])
    else if p[0] == '_' then [AnyChar] + Tokens(p[1..])
    else [Literal(p[0])] + Tokens(p[1..])
  }

  /** Does the token sequence match the whole of `t`? */
  predicate MatchTokens(ts: seq<Token>, t: string)
    decreases |ts|, |t|
  {
    if ts == [] then t == []
    else match ts[0]
      case AnyRun => MatchTokens(ts[1..], t) || (t != [] && MatchTokens(ts, t[1..]))
      case AnyChar => t != [] && MatchTokens(ts[1..], t[1..])
      case Literal(c) => t != [] && FoldChar(c) == FoldChar(t[0]) && MatchTokens(ts[1..], t[1..])
  }

  /** `t ILIKE pattern`. */
  predicate ILike(t: string, pattern: string) {
    MatchTokens(Tokens(pattern), t)
  }

  /** A search string in which no character has a special meaning to LIKE. */
  predicate WildcardFree(s: string) {
    forall i :: 0 <= i < |s| ==> s[i] != '%' && s[i] != '_' && s[i] != '\\'
  }

  /** `a` occurs in `b` starting at index `k`. */
  predicate OccursAt(a: string, b: string, k: int) {
    0 <= k && k + |a| <= |b| && b[k..k + |a|] == a
  }

  /** `a` occurs as a contiguous piece of `b`. */
  predicate IsSubstring(a: string, b: string) {
    exists k :: 0 <= k <= |b| && OccursAt(a, b, k)
  }

  /** Literal tokens for every character of `s`. */
  function Literals(s: string): (ts: seq<Token>)
    ensures |ts| == |s|
    ensures forall i :: 0 <= i < |s| ==> ts[i] == Literal(s[i])
  {
    seq(|s|, i requires 0 <= i < |s| => Literal(s[i]))
  }

  lemma {:induction false} TokensOfLiteralText(s: string, rest: string)
    requires WildcardFree(s)
    ensures Tokens(s + rest) == Literals(s) + Tokens(rest)
    decreases |s|
  {
    if s == [] {
      assert s + rest == rest;
    } else {
      assert (s + rest)[1..] == s[1..] + rest;
      TokensOfLiteralText(s[1..], rest);
      assert Literals(s) == [Literal(s[0])] + Literals(s[1..]);
    }
  }

  lemma {:induction false} TrailingRunMatchesAll(t: string)
    ensures MatchTokens([AnyRun], t)
    decreases |t|
  {
    assert [AnyRun][1..] == [];
    if t != [] {
      TrailingRunMatchesAll(t[1..]);
    }
  }

  /** Literals followed by `%` match exactly the strings that start, up to case,
      with the literal text. */
  lemma {:induction false} LiteralsThenRun(s: string, t: string)
    ensures MatchTokens(Literals(s) + [AnyRun], t) <==> |s| <= |t| && Fold(t[..|s|]) == Fold(s)
    decreases |s|
  {
    if s == [] {
      assert Literals(s) + [AnyRun] == [AnyRun];
      TrailingRunMatchesAll(t);
      assert Fold(t[..0]) == Fold(s);
    } else {
      var ts := Literals(s) + [AnyRun];
      assert ts[0] == Literal(s[0]);
      assert ts[1..] == Literals(s[1..]) + [AnyRun];
      if t != [] {
        LiteralsThenRun(s[1..], t[1..]);
        if |s| <= |t| {
          assert t[1..][..|s| - 1] == t[..|s|][1..];
          var a, b := Fold(t[..|s|]), Fold(s);
          assert a == b <==> a[0] == b[0] && a[1..] == b[1..];
          assert a[1..] == Fold(t[1..][..|s| - 1]);
          assert b[1..] == Fold(s[1..]);
        }
      }
    }
  }

  /** Literal tokens alone match exactly the strings equal, up to case, to the text. */
  lemma {:induction false} LiteralsMatch(s: string, t: string)
    ensures MatchTokens(Literals(s), t) <==> Fold(t) == Fold(s)
    decreases |s|
  {
    if s == [] {
      assert Literals(s) == [];
      assert |Fold(t)| == |t|;
    } else {
      var ts := Literals(s);
      assert ts[0] == Literal(s[0]);
      assert ts[1..] == Literals(s[1..]);
      if t != [] {
        LiteralsMatch(s[1..], t[1..]);
        var a, b := Fold(t), Fold(s);
        assert a == b <==> a[0] == b[0] && a[1..] == b[1..];
        assert a[1..] == Fold(t[1..]);
        assert b[1..] == Fold(s[1..]);
      } else {
        assert |Fold(t)| == 0 < |Fold(s)|;
      }
    }
  }

  /** Without metacharacters, `t ILIKE s` is equality ignoring ASCII case. */
  lemma ILikeWithoutWildcards(t: string, s: string)
    requires WildcardFree(s)
    ensures ILike(t, s) <==> Fold(t) == Fold(s)
  {
    TokensOfLiteralText(s, []);
    assert s + [] == s;
    assert Literals(s) + Tokens([]) == Literals(s);
    LiteralsMatch(s, t);
  }

  /** A leading `%` lets the rest of the pattern match any suffix. */
  lemma {:induction false} LeadingRun(q: seq<Token>, t: string)
    ensures MatchTokens([AnyRun] + q, t) <==> exists k :: 0 <= k <= |t| && MatchTokens(q, t[k..])
    decreases |t|
  {
    var ts := [AnyRun] + q;
    assert ts[1..] == q;
    assert t[0..] == t;
    if t != [] {
      LeadingRun(q, t[1..]);
      if MatchTokens(ts, t[1..]) {
        var k :| 0 <= k <= |t[1..]| && MatchTokens(q, t[1..][k..]);
        assert t[1..][k..] == t[k + 1..];
      }
      if exists k :: 0 <= k <= |t| && MatchTokens(q, t[k..]) {
        var k :| 0 <= k <= |t| && MatchTokens(q, t[k..]);
        if k > 0 {
          assert t[1..][k - 1..] == t[k..];
        }
      }
    }
  }

  lemma PatternTokens(s: string)
    requires WildcardFree(s)
    ensures Tokens("%" + s + "%") == [AnyRun] + (Literals(s) + [AnyRun])
  {
    assert "%" + s + "%" == "%" + (s + "%");
    TokensOfLiteralText(s, "%");
    assert Tokens("%") == [AnyRun];
  }

  /** Matching `s%` at offset `k` of `t` is an occurrence of `s` at `k`, up to case. */
  lemma MatchAtIsOccurrence(s: string, t: string, k: int)
    requires 0 <= k <= |t|
    ensures MatchTokens(Literals(s) + [AnyRun], t[k..]) <==> OccursAt(Fold(s), Fold(t), k)
  {
    LiteralsThenRun(s, t[k..]);
    var ft, fs := Fold(t), Fold(s);
    if k + |s| <= |t| {
      assert t[k..][..|s|] == t[k..k + |s|];
      assert ft[k..k + |fs|] == Fold(t[k..k + |s|]);
    }
  }

  /** For a search string without LIKE metacharacters, `t ILIKE '%s%'` holds exactly
      when `s` occurs in `t`, ignoring ASCII case. */
  lemma ContainsPattern(t: string, s: string)
    requires WildcardFree(s)
    ensures ILike(t, "%" + s + "%") <==> IsSubstring(Fold(s), Fold(t))
  {
    PatternTokens(s);
    var q := Literals(s) + [AnyRun];
    LeadingRun(q, t);
    var ft, fs := Fold(t), Fold(s);
    if ILike(t, "%" + s + "%") {
      var k :| 0 <= k <= |t| && MatchTokens(q, t[k..]);
      MatchAtIsOccurrence(s, t, k);
    }
    if IsSubstring(fs, ft) {
      var k :| 0 <= k <= |ft| && OccursAt(fs, ft, k);
      MatchAtIsOccurrence(s, t, k);
    }
  }
}
