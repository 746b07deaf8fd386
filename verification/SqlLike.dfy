/** SQL's LIKE with backslash as escape character, and the escaping that makes it a plain substring
    test. */
module SqlLike {
  import opened Strings

  predicate Like(p: string, s: string)
    decreases |p| + |s|
  {
    if p == "" then s == ""
    else if p[0] == '%' then Like(p[1..], s) || (s != "" && Like(p, s[1..]))
    else if p[0] == '\\' then |p| > 1 && s != "" && s[0] == p[1] && Like(p[2..], s[1..])
    else s != "" && (p[0] == '_' || p[0] == s[0]) && Like(p[1..], s[1..])
  }

  predicate Special(c: char) { c == '\\' || c == '%' || c == '_' }

  function EscapeLike(s: string): string
  {
    if s == "" then "" else (if Special(s[0]) then ['\\', s[0]] else [s[0]]) + EscapeLike(s[1..])
  }

  lemma {:induction false} EscapedIsLiteral(v: string, rest: string, s: string)
    ensures Like(EscapeLike(v) + rest, s) <==> v <= s && Like(rest, s[|v|..])
    decreases |v|
  {
    if v == "" {
      assert EscapeLike(v) + rest == rest && s[0..] == s;
    } else {
      var p := EscapeLike(v) + rest;
      var more := EscapeLike(v[1..]) + rest;
      assert p == (if Special(v[0]) then ['\\', v[0]] else [v[0]]) + more;
      if Special(v[0]) {
        assert p[0] == '\\' && p[1] == v[0] && p[2..] == more;
      } else {
        assert p[0] == v[0] && p[1..] == more;
      }
      if s != "" {
        EscapedIsLiteral(v[1..], rest, s[1..]);
        assert v[0] == s[0] ==> (v <= s <==> v[1..] <= s[1..]);
        assert v <= s ==> s[1..][|v| - 1..] == s[|v|..];
      }
    }
  }

  lemma {:induction false} AnythingGoes(s: string)
    ensures Like("%", s)
  {
    if s == "" {
      assert Like("%"[1..], s);
    } else {
      AnythingGoes(s[1..]);
    }
  }

  lemma {:induction false} SomewhereIn(p: string, s: string)
    ensures Like("%" + p, s) <==> exists i :: 0 <= i <= |s| && Like(p, s[i..])
    decreases |s|
  {
    var q := "%" + p;
    assert q[0] == '%' && q[1..] == p && s[0..] == s;
    if s != "" {
      SomewhereIn(p, s[1..]);
      if Like(q, s[1..]) {
        var i :| 0 <= i <= |s[1..]| && Like(p, s[1..][i..]);
        assert s[1..][i..] == s[i + 1..];
      }
      if i :| 0 <= i <= |s| && Like(p, s[i..]) && i > 0 {
        assert s[1..][i - 1..] == s[i..];
      }
    }
  }

  /** LIKE over an escaped term between percent signs is containment of the term as written. */
  lemma LikeIsContainment(v: string, s: string)
    ensures Like("%" + EscapeLike(v) + "%", s) <==> Contains(s, v)
  {
    var p := EscapeLike(v) + "%";
    assert "%" + EscapeLike(v) + "%" == "%" + p;
    SomewhereIn(p, s);
    forall i | 0 <= i <= |s| ensures Like(p, s[i..]) <==> v <= s[i..] {
      EscapedIsLiteral(v, "%", s[i..]);
      if v <= s[i..] {
        AnythingGoes(s[i..][|v|..]);
      }
    }
  }

  lemma LowerConcat(a: string, b: string)
    ensures Lower(a + b) == Lower(a) + Lower(b)
  {
  }

  lemma {:induction false} LowerEscaped(v: string)
    ensures Lower(EscapeLike(v)) == EscapeLike(Lower(v))
  {
    if v != "" {
      LowerEscaped(v[1..]);
      assert Lower(v)[1..] == Lower(v[1..]) && Lower(v)[0] == LowerChar(v[0]);
      LowerConcat(if Special(v[0]) then ['\\', v[0]] else [v[0]], EscapeLike(v[1..]));
      assert Special(LowerChar(v[0])) <==> Special(v[0]);
    }
  }

  /** Folding both sides, as the statements do it. */
  lemma FoldedLikeIsContainment(v: string, s: string)
    ensures Like(Lower("%" + EscapeLike(v) + "%"), Lower(s)) <==> Contains(Lower(s), Lower(v))
  {
    LowerConcat("%" + EscapeLike(v), "%");
    LowerConcat("%", EscapeLike(v));
    assert Lower("%") == "%";
    LowerEscaped(v);
    LikeIsContainment(Lower(v), Lower(s));
  }

  /** A name equal to the term up to case contains it. */
  lemma EqualFoldContains(v: string, s: string)
    requires Lower(s) == Lower(v)
    ensures Contains(Lower(s), Lower(v))
  {
    assert Lower(v) <= Lower(s)[0..];
  }
}
