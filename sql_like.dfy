/**
 * SQL `LIKE`, as the hand-written JPQL queries use it: `%` matches any run of characters, `_`
 * exactly one character, and a backslash makes the character after it literal (the default
 * escape character of MySQL, H2 and PostgreSQL). A `:term` bound into `'%' || term || '%'` is
 * not escaped, so its own `%`, `_` and `\` keep these meanings.
 */
module SqlLike {
  import opened JavaText

  /** The characters `LIKE` gives a meaning to. */
  predicate IsLikeSpecial(c: char)
  {
    c == '%' || c == '_' || c == '\\'
  }

  /** A term in which `LIKE` sees only literal characters. */
  predicate IsPlain(t: string)
  {
    forall k :: 0 <= k < |t| ==> !IsLikeSpecial(t[k])
  }

  /** `s LIKE pattern`; a backslash at the very end of the pattern stands for itself. */
  predicate LikeMatch(s: string, pattern: string)
    decreases |pattern|, |s|
  {
    if pattern == [] then s == []
    else if pattern[0] == '%' then LikeMatch(s, pattern[1..]) || (s != [] && LikeMatch(s[1..], pattern))
    else if pattern[0] == '\\' && |pattern| >= 2 then s != [] && s[0] == pattern[1] && LikeMatch(s[1..], pattern[2..])
    else if pattern[0] == '_' then s != [] && LikeMatch(s[1..], pattern[1..])
    else s != [] && s[0] == pattern[0] && LikeMatch(s[1..], pattern[1..])
  }

  /** `CONCAT('%', term, '%')`, the pattern of a "contains" search. */
  function ContainingPattern(term: string): string
  {
    "%" + term + "%"
  }

  /** `%` alone matches every string. */
  lemma {:induction false} PercentMatchesAll(s: string)
    ensures LikeMatch(s, "%")
    decreases |s|
  {
    assert "%"[1..] == [];
    if s != [] {
      PercentMatchesAll(s[1..]);
    }
  }

  /** A pattern without a backslash matches itself: each `%` and `_` can stand for its own character. */
  lemma {:induction false} PatternMatchesItself(t: string)
    requires '\\' !in t
    ensures LikeMatch(t, t)
    decreases |t|
  {
    if t != [] {
      assert '\\' !in t[1..] by { assert forall k :: 0 <= k < |t[1..]| ==> t[1..][k] == t[k + 1]; }
      PatternMatchesItself(t[1..]);
      if t[0] == '%' {
        assert LikeMatch(t[1..], t);
      }
    }
  }

  /** Matches of two patterns, the first without a backslash, concatenate. */
  lemma {:induction false} LikeConcat(a: string, p: string, b: string, q: string)
    requires '\\' !in p
    requires LikeMatch(a, p) && LikeMatch(b, q)
    ensures LikeMatch(a + b, p + q)
    decreases |p|, |a|
  {
    if p == [] {
      assert a == [] && a + b == b && p + q == q;
    } else {
      assert (p + q)[0] == p[0] && (p + q)[1..] == p[1..] + q;
      assert '\\' !in p[1..] by { assert forall k :: 0 <= k < |p[1..]| ==> p[1..][k] == p[k + 1]; }
      if p[0] == '%' {
        if LikeMatch(a, p[1..]) {
          LikeConcat(a, p[1..], b, q);
        } else {
          LikeConcat(a[1..], p, b, q);
          assert (a + b)[1..] == a[1..] + b;
        }
      } else {
        LikeConcat(a[1..], p[1..], b, q);
        assert (a + b)[0] == a[0] && (a + b)[1..] == a[1..] + b;
      }
    }
  }

  /** An occurrence of a backslash-free term makes the "contains" pattern match. */
  lemma OccurrenceMatches(s: string, t: string, i: int)
    requires '\\' !in t && OccursAt(s, t, i)
    ensures LikeMatch(s, ContainingPattern(t))
  {
    var before, after := s[..i], s[i + |t|..];
    assert s == before + t + after;
    PercentMatchesAll(before);
    PercentMatchesAll(after);
    PatternMatchesItself(t);
    LikeConcat(before, "%", t, t);
    assert '\\' !in "%" + t;
    LikeConcat(before + t, "%" + t, after, "%");
  }

  /** A leading `%` skips some prefix of the string. */
  lemma {:induction false} PercentSkipsPrefix(s: string, q: string)
    requires LikeMatch(s, "%" + q)
    ensures exists k :: 0 <= k <= |s| && LikeMatch(s[k..], q)
    decreases |s|
  {
    assert ("%" + q)[0] == '%' && ("%" + q)[1..] == q;
    if LikeMatch(s, q) {
      assert s[0..] == s;
    } else {
      PercentSkipsPrefix(s[1..], q);
      var k :| 0 <= k <= |s[1..]| && LikeMatch(s[1..][k..], q);
      assert s[1..][k..] == s[k + 1..];
    }
  }

  /** A plain term followed by `%` matches exactly the strings it begins. */
  lemma {:induction false} PlainPrefix(s: string, t: string)
    requires IsPlain(t) && LikeMatch(s, t + "%")
    ensures t <= s
    decreases |t|
  {
    if t != [] {
      assert (t + "%")[0] == t[0] && (t + "%")[1..] == t[1..] + "%";
      assert !IsLikeSpecial(t[0]);
      assert IsPlain(t[1..]) by { assert forall k :: 0 <= k < |t[1..]| ==> t[1..][k] == t[k + 1]; }
      PlainPrefix(s[1..], t[1..]);
    }
  }

  /** For a term without `%`, `_` or a backslash, the "contains" pattern is exactly a substring test. */
  lemma PlainTermLikeIsContains(s: string, t: string)
    requires IsPlain(t)
    ensures LikeMatch(s, ContainingPattern(t)) <==> Contains(s, t)
  {
    ContainsIff(s, t);
    assert '\\' !in t by { assert forall k :: 0 <= k < |t| ==> !IsLikeSpecial(t[k]); }
    if LikeMatch(s, ContainingPattern(t)) {
      assert ContainingPattern(t) == "%" + (t + "%");
      PercentSkipsPrefix(s, t + "%");
      var k :| 0 <= k <= |s| && LikeMatch(s[k..], t + "%");
      PlainPrefix(s[k..], t);
      assert s[k..k + |t|] == s[k..][..|t|];
      assert OccursAt(s, t, k);
    }
    if Contains(s, t) {
      var i :| OccursAt(s, t, i);
      OccurrenceMatches(s, t, i);
    }
  }

  /** The term `_` is a wildcard: it finds every non-empty string. */
  lemma UnderscoreFindsEveryNonEmpty(s: string)
    ensures LikeMatch(s, ContainingPattern("_")) <==> s != []
  {
    assert ContainingPattern("_") == "%_%";
    assert "%_%"[1..] == "_%" && "_%"[1..] == "%";
    if s != [] {
      PercentMatchesAll(s[1..]);
      assert LikeMatch(s, "_%");
    }
  }

  /** A backslash term does not even find itself: `%\%` asks for a string ending in `%`. */
  lemma BackslashTermMissesItself()
    ensures Contains("\\", "\\")
    ensures !LikeMatch("\\", ContainingPattern("\\"))
  {
    assert ContainingPattern("\\") == "%\\%";
    assert "%\\%"[1..] == "\\%" && "\\%"[2..] == [];
    assert "\\" <= "\\";
    assert "\\"[1..] == [];
  }
}
