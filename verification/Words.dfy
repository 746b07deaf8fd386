/** What the decomposition of a name into words keeps, and where it cuts. */
module Words {
  import opened Strings
  import opened Units

  function Glued(words: seq<string>): string { if words == [] then "" else words[0] + Glued(words[1..]) }

  /** The letters and digits of a name, in lower case. */
  function Letters(s: string): string
  {
    if s == "" then "" else (if IsIdentChar(s[0]) && s[0] != '_' then [LowerChar(s[0])] else "") + Letters(s[1..])
  }

  lemma {:induction false} GluedConcat(a: seq<string>, b: seq<string>)
    ensures Glued(a + b) == Glued(a) + Glued(b)
  {
    if a == [] {
      assert a + b == b;
    } else {
      GluedConcat(a[1..], b);
      assert (a + b)[1..] == a[1..] + b && (a + b)[0] == a[0];
      Regroup(a[0], Glued(a[1..]), Glued(b));
    }
  }

  lemma {:induction false} LettersConcat(a: string, b: string)
    ensures Letters(a + b) == Letters(a) + Letters(b)
  {
    if a == "" {
      assert a + b == b;
    } else {
      LettersConcat(a[1..], b);
      assert (a + b)[1..] == a[1..] + b && (a + b)[0] == a[0];
      Regroup(Letters([a[0]]), Letters(a[1..]), Letters(b));
    }
  }

  ghost predicate AllIdent(s: string) { forall j :: 0 <= j < |s| ==> IsIdentChar(s[j]) }

  lemma {:induction false} LettersOfPlain(s: string)
    requires forall i :: 0 <= i < |s| ==> IsIdentChar(s[i]) && s[i] != '_'
    ensures Letters(s) == Lower(s)
  {
    if s != "" {
      LettersOfPlain(s[1..]);
      assert Lower(s) == [LowerChar(s[0])] + Lower(s[1..]);
    }
  }

  lemma Regroup<T>(a: seq<T>, b: seq<T>, c: seq<T>)
    ensures a + b + c == a + (b + c)
  {
  }

  lemma LettersNext(cur: string, tok: string, i: nat)
    requires i < |tok|
    ensures Letters(cur + tok[i..]) == Letters(cur) + (Letters([tok[i]]) + Letters(tok[i + 1..]))
  {
    assert tok[i..] == [tok[i]] + tok[i + 1..];
    LettersConcat(cur, tok[i..]);
    LettersConcat([tok[i]], tok[i + 1..]);
  }

  lemma NothingAdds(s: string)
    ensures "" + s == s
  {
  }

  ghost predicate Plain(cur: string) { forall j :: 0 <= j < |cur| ==> IsIdentChar(cur[j]) && cur[j] != '_' }

  lemma PlainNext(cur: string, c: char)
    requires Plain(cur) && IsIdentChar(c) && c != '_'
    ensures Plain(cur + [c]) && Plain([c])
  {
  }

  lemma {:induction false} TokenSpells(tok: string, i: nat, cur: string)
    requires i <= |tok| && AllIdent(tok) && Plain(cur)
    ensures Glued(SplitToken(tok, i, cur)) == Letters(cur + tok[i..])
    decreases |tok| - i
  {
    LettersOfPlain(cur);
    FlushSpells(cur);
    if i == |tok| {
      assert cur + tok[i..] == cur;
    } else {
      LettersNext(cur, tok, i);
      if tok[i] == '_' {
        TokenSpells(tok, i + 1, "");
        NothingAdds(tok[i + 1..]);
        GluedConcat(Flush(Lower(cur)), SplitToken(tok, i + 1, ""));
        assert Letters([tok[i]]) == "" && "" + Letters(tok[i + 1..]) == Letters(tok[i + 1..]);
      } else {
        PlainNext(cur, tok[i]);
        TokenGoesOn(tok, i, cur);
      }
    }
  }

  lemma {:induction false} TokenGoesOn(tok: string, i: nat, cur: string)
    requires i < |tok| && AllIdent(tok) && Plain(cur) && tok[i] != '_' && Plain([tok[i]]) && Plain(cur + [tok[i]])
    requires Glued(Flush(Lower(cur))) == Lower(cur) == Letters(cur)
    ensures Glued(SplitToken(tok, i, cur)) == Letters(cur + tok[i..])
    decreases |tok| - i, 0
  {
    if OpensWord(tok, i) {
      TokenSpells(tok, i + 1, [tok[i]]);
      GluedConcat(Flush(Lower(cur)), SplitToken(tok, i + 1, [tok[i]]));
      LettersNext(cur, tok, i);
      LettersConcat([tok[i]], tok[i + 1..]);
    } else {
      TokenSpells(tok, i + 1, cur + [tok[i]]);
      Regroup(cur, [tok[i]], tok[i + 1..]);
      assert tok[i..] == [tok[i]] + tok[i + 1..];
    }
  }

  lemma FlushSpells(cur: string)
    ensures Glued(Flush(Lower(cur))) == Lower(cur)
  {
    if Lower(cur) != "" {
      assert Flush(Lower(cur))[1..] == [];
    }
  }

  lemma {:induction false} TokensSpell(s: string, cur: string)
    requires AllIdent(cur)
    ensures Glued(SplitTokens(Tokens(s, cur))) == Letters(cur + s)
    decreases |s|
  {
    FlushedSpells(cur);
    if s == "" {
      assert cur + s == cur;
    } else if IsIdentChar(s[0]) {
      TokensSpell(s[1..], cur + [s[0]]);
      Regroup(cur, [s[0]], s[1..]);
      assert [s[0]] + s[1..] == s;
    } else {
      TokensSpell(s[1..], "");
      NothingAdds(s[1..]);
      PastSeparator(s, cur);
    }
  }

  lemma PastSeparator(s: string, cur: string)
    requires s != "" && !IsIdentChar(s[0])
    requires Glued(SplitTokens(Flush(cur))) == Letters(cur) && Glued(SplitTokens(Tokens(s[1..], ""))) == Letters(s[1..])
    ensures Glued(SplitTokens(Tokens(s, cur))) == Letters(cur + s)
  {
    SplitTokensConcat(Flush(cur), Tokens(s[1..], ""));
    GluedConcat(SplitTokens(Flush(cur)), SplitTokens(Tokens(s[1..], "")));
    LettersConcat(cur, s);
    NothingAdds(Letters(s[1..]));
  }

  lemma FlushedIsSplit(tok: string)
    requires tok != ""
    ensures SplitTokens(Flush(tok)) == SplitToken(tok, 0, "")
  {
    assert Flush(tok)[1..] == [] && Flush(tok)[0] == tok;
    assert SplitToken(tok, 0, "") + [] == SplitToken(tok, 0, "");
  }

  lemma FlushedSpells(cur: string)
    requires AllIdent(cur)
    ensures Glued(SplitTokens(Flush(cur))) == Letters(cur)
  {
    if cur != "" {
      TokenSpells(cur, 0, "");
      NothingAdds(cur[0..]);
      FlushedIsSplit(cur);
      assert cur[0..] == cur;
    }
  }

  lemma {:induction false} SplitTokensConcat(a: seq<string>, b: seq<string>)
    ensures SplitTokens(a + b) == SplitTokens(a) + SplitTokens(b)
  {
    if a == [] {
      assert a + b == b;
    } else {
      SplitTokensConcat(a[1..], b);
      assert (a + b)[1..] == a[1..] + b && (a + b)[0] == a[0];
      Regroup(SplitToken(a[0], 0, ""), SplitTokens(a[1..]), SplitTokens(b));
    }
  }

  /** The words of a name, glued together, are its letters and digits in lower case: none is lost, added or
      moved. */
  lemma WordsSpellName(s: string)
    ensures Glued(WordComponents(s)) == Letters(s)
  {
    TokensSpell(s, "");
    assert "" + s == s;
  }

  lemma {:induction false} TokensAcross(a: string, c: char, b: string, cur: string)
    requires !IsIdentChar(c)
    ensures Tokens(a + [c] + b, cur) == Tokens(a, cur) + Tokens(b, "")
    decreases |a|
  {
    var s := a + [c] + b;
    if a == "" {
      assert s[0] == c && s[1..] == b;
    } else {
      assert s[0] == a[0] && s[1..] == a[1..] + [c] + b;
      if IsIdentChar(a[0]) {
        TokensAcross(a[1..], c, b, cur + [a[0]]);
      } else {
        TokensAcross(a[1..], c, b, "");
      }
    }
  }

  /** A character that is in no identifier separates words. */
  lemma SeparatorCuts(a: string, c: char, b: string)
    requires !IsIdentChar(c)
    ensures WordComponents(a + [c] + b) == WordComponents(a) + WordComponents(b)
  {
    TokensAcross(a, c, b, "");
    SplitTokensConcat(Tokens(a, ""), Tokens(b, ""));
  }

  /** So do an underscore, a capital after anything else, and a capital before a small letter. */
  lemma CaseCuts(a: string, b: string)
    requires AllIdent(a) && AllIdent(b) && a != "" && b != ""
    requires b[0] == '_' || ('A' <= b[0] <= 'Z' && (!('A' <= a[|a| - 1] <= 'Z') || (|b| > 1 && 'a' <= b[1] <= 'z')))
    ensures WordComponents(a + b) == WordComponents(a) + WordComponents(b)
  {
    OneToken(a);
    OneToken(b);
    OneToken(a + b);
    SplitAcross(a, b, 0, "");
  }

  /** Nothing else does: an identifier with no such place in it is one word. */
  lemma OtherwiseWhole(s: string)
    requires AllIdent(s) && s != "" && '_' !in s
    requires forall i :: 0 < i < |s| && 'A' <= s[i] <= 'Z' ==> 'A' <= s[i - 1] <= 'Z' && (i + 1 < |s| ==> !('a' <= s[i + 1] <= 'z'))
    ensures WordComponents(s) == [Lower(s)]
  {
    OneToken(s);
    NeverCut(s, 0, "");
    NothingAdds(s[0..]);
    assert s[0..] == s && Lower(s) != "";
  }

  /** And an underscore is in no word. */
  lemma UnderscoreIsDropped(s: string)
    requires AllIdent(s) && s != ""
    ensures WordComponents("_" + s) == WordComponents(s)
  {
    OneToken(s);
    OneToken("_" + s);
    var t := "_" + s;
    assert t[0] == '_' && t[1] == s[0] && |t| == |s| + 1;
    assert SplitToken(t, 0, "") == SplitToken(t, 1, "");
    SplitShifted("_", s, 1, if s[0] == '_' then "" else [s[0]]);
    assert "" + [s[0]] == [s[0]];
  }

  lemma {:induction false} SplitShifted(a: string, b: string, j: nat, cur: string)
    requires 0 < j <= |b|
    ensures SplitToken(a + b, |a| + j, cur) == SplitToken(b, j, cur)
    decreases |b| - j
  {
    if j < |b| {
      assert (a + b)[|a| + j] == b[j] && (a + b)[|a| + j - 1] == b[j - 1];
      assert OpensWord(a + b, |a| + j) <==> OpensWord(b, j);
      SplitShifted(a, b, j + 1, if b[j] == '_' then "" else if OpensWord(b, j) then [b[j]] else cur + [b[j]]);
    }
  }

  lemma {:induction false} SplitAcross(a: string, b: string, i: nat, cur: string)
    requires i <= |a| && b != "" && a != ""
    requires b[0] == '_' || (IsUpper(b[0]) && (!IsUpper(a[|a| - 1]) || (|b| > 1 && IsLower(b[1]))))
    ensures SplitToken(a + b, i, cur) == SplitToken(a, i, cur) + SplitToken(b, 0, "")
    decreases |a| - i
  {
    var t := a + b;
    if i == |a| {
      assert t[i] == b[0] && t[i - 1] == a[i - 1];
      assert b[0] != '_' ==> OpensWord(t, i);
      SplitShifted(a, b, 1, if b[0] == '_' then "" else [b[0]]);
      assert "" + [b[0]] == [b[0]];
    } else {
      assert t[i] == a[i] && (i > 0 ==> t[i - 1] == a[i - 1]) && t[i + 1] == if i + 1 < |a| then a[i + 1] else b[0];
      assert OpensWord(t, i) <==> OpensWord(a, i);
      var next := if a[i] == '_' then "" else if OpensWord(a, i) then [a[i]] else cur + [a[i]];
      SplitAcross(a, b, i + 1, next);
      Regroup(Flush(Lower(cur)), SplitToken(a, i + 1, next), SplitToken(b, 0, ""));
    }
  }

  lemma {:induction false} NeverCut(s: string, i: nat, cur: string)
    requires i <= |s| && '_' !in s && forall k :: 0 <= k < |s| ==> !OpensWord(s, k)
    ensures SplitToken(s, i, cur) == Flush(Lower(cur + s[i..]))
    decreases |s| - i
  {
    if i == |s| {
      assert cur + s[i..] == cur;
    } else {
      NeverCut(s, i + 1, cur + [s[i]]);
      assert cur + [s[i]] + s[i + 1..] == cur + s[i..];
    }
  }

  lemma {:induction false} IdentIsToken(s: string, cur: string)
    requires AllIdent(s)
    ensures Tokens(s, cur) == Flush(cur + s)
    decreases |s|
  {
    if s == "" {
      assert cur + s == cur;
    } else {
      IdentIsToken(s[1..], cur + [s[0]]);
      assert cur + [s[0]] + s[1..] == cur + s;
    }
  }

  lemma OneToken(s: string)
    requires AllIdent(s) && s != ""
    ensures WordComponents(s) == SplitToken(s, 0, "")
  {
    IdentIsToken(s, "");
    NothingAdds(s);
    FlushedIsSplit(s);
  }
}
