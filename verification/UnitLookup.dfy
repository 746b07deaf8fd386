/** The symbol lookup: two statements, the second only for a short page, that together return what one
    ranked query over every containing name would. */
module UnitLookup {
  import opened Wrappers
  import opened Strings
  import opened SqlLike
  import opened SqlBuilder
  import Sorting

  datatype Opts = Opts(
    repo: string, repos: seq<string>, file: string, language: string, kind: string, kinds: seq<string>,
    name: string, qualified: string, nameOrQualified: string, suffix: string, line: int, limit: int, fallback: bool)

  datatype Tier = Exact | Substring | HandWritten | Remainder

  predicate Loose(t: Tier) { t.Substring? || t.Remainder? }

  // ---------------------------------------------------------------------------
  // What a tier matches
  // ---------------------------------------------------------------------------

  predicate InRepo(o: Opts, r: Row) { (o.repo != "" ==> r.repo == o.repo) && (o.repos != [] ==> r.repo in o.repos) }

  predicate OfFile(o: Opts, r: Row) { (o.file != "" ==> r.file == o.file) && (o.language != "" ==> r.language == o.language) }

  predicate OfKind(o: Opts, r: Row) { (o.kind != "" ==> r.kind == o.kind) && (o.kinds != [] ==> r.kind in o.kinds) }

  predicate CoversLine(r: Row, line: int)
  {
    Compares(Cell(r, StartLine), AtMost, Number(line)) && Compares(Cell(r, EndLine), AtLeast, Number(line))
  }

  lemma CoversLineInRange(r: Row, line: int)
    ensures CoversLine(r, line) <==> r.startLine <= line <= r.endLine
  {
  }

  predicate AtLine(o: Opts, r: Row)
  {
    && (o.suffix != "" ==> HasSuffix(r.qualified, o.suffix))
    && (o.line > 0 ==> r.startLine <= o.line <= r.endLine)
  }

  predicate Terms(o: Opts, r: Row, like: bool)
  {
    && (o.name != "" ==> TermMatches(r.name, o.name, like))
    && (o.qualified != "" ==> TermMatches(r.qualified, o.qualified, like))
    && (o.nameOrQualified != "" ==> TermMatches(r.name, o.nameOrQualified, like) || TermMatches(r.qualified, o.nameOrQualified, like))
  }

  predicate Matches(o: Opts, tier: Tier, r: Row)
  {
    && InRepo(o, r) && OfFile(o, r) && OfKind(o, r) && AtLine(o, r)
    && Terms(o, r, Loose(tier)) && (tier.HandWritten? ==> !Penalized(r.file))
  }

  /** A name that is the term contains it. */
  lemma ExactIsLoose(o: Opts, r: Row)
    ensures Terms(o, r, false) ==> Terms(o, r, true)
  {
    forall s: string, v: string | TermMatches(s, v, false) ensures TermMatches(s, v, true) {
      EqualFoldContains(v, s);
    }
  }

  // ---------------------------------------------------------------------------
  // Composing the filters
  // ---------------------------------------------------------------------------

  function Texts(ss: seq<string>): (r: seq<Value>)
    ensures |r| == |ss| && forall s :: Text(s) in r <==> s in ss
  {
    var r := seq(|ss|, i requires 0 <= i < |ss| => Text(ss[i]));
    assert forall i :: 0 <= i < |ss| ==> r[i] == Text(ss[i]);
    r
  }

  method Repos(b: Builder, o: Opts)
    modifies b
    ensures Adds(old(b.conds), old(b.args), b.conds, b.args)
    ensures forall r :: Asks(old(b.conds), b.conds, b.args, r) <==> InRepo(o, r)
  {
    ghost var c0, a0 := b.conds, b.args;
    b.EqIf(Repo, o.repo);
    ghost var c1, a1 := b.conds, b.args;
    b.AmongIf(Repo, Texts(o.repos), false);
    AddsCompose(c0, a0, c1, a1, b.conds, b.args);
  }

  method Files(b: Builder, o: Opts)
    modifies b
    ensures Adds(old(b.conds), old(b.args), b.conds, b.args)
    ensures forall r :: Asks(old(b.conds), b.conds, b.args, r) <==> OfFile(o, r)
  {
    ghost var c0, a0 := b.conds, b.args;
    FileIf(b, o.file);
    ghost var c1, a1 := b.conds, b.args;
    LanguageIf(b, o.language);
    AddsCompose(c0, a0, c1, a1, b.conds, b.args);
  }

  method FileIf(b: Builder, file: string)
    modifies b
    ensures Adds(old(b.conds), old(b.args), b.conds, b.args)
    ensures forall r :: Asks(old(b.conds), b.conds, b.args, r) <==> (file != "" ==> r.file == file)
  {
    b.EqIf(File, file);
  }

  method LanguageIf(b: Builder, language: string)
    modifies b
    ensures Adds(old(b.conds), old(b.args), b.conds, b.args)
    ensures forall r :: Asks(old(b.conds), b.conds, b.args, r) <==> (language != "" ==> r.language == language)
  {
    b.EqIf(Language, language);
  }

  method Kinds(b: Builder, o: Opts)
    modifies b
    ensures Adds(old(b.conds), old(b.args), b.conds, b.args)
    ensures forall r :: Asks(old(b.conds), b.conds, b.args, r) <==> OfKind(o, r)
  {
    ghost var c0, a0 := b.conds, b.args;
    b.EqIf(Kind, o.kind);
    ghost var c1, a1 := b.conds, b.args;
    b.AmongIf(Kind, Texts(o.kinds), false);
    AddsCompose(c0, a0, c1, a1, b.conds, b.args);
  }

  method TermIf(b: Builder, cols: seq<Column>, v: string, like: bool)
    requires cols != []
    modifies b
    ensures Adds(old(b.conds), old(b.args), b.conds, b.args)
    ensures |b.conds| == |old(b.conds)| + (if v != "" then 1 else 0) && (v == "" ==> b.args == old(b.args))
    ensures forall r :: Asks(old(b.conds), b.conds, b.args, r) <==> (v != "" ==> AnyMatches(r, cols, v, like))
  {
    if v == "" {
      AddsNothing(b.conds, b.args);
      return;
    }
    b.NameTerm(cols, v, like);
  }

  lemma ColumnsMatch(r: Row, v: string, like: bool)
    ensures AnyMatches(r, [Name], v, like) <==> TermMatches(r.name, v, like)
    ensures AnyMatches(r, [Qualified], v, like) <==> TermMatches(r.qualified, v, like)
    ensures AnyMatches(r, [Name, Qualified], v, like) <==> TermMatches(r.name, v, like) || TermMatches(r.qualified, v, like)
  {
    assert [Name][0] == Name && [Qualified][0] == Qualified && [Name, Qualified][0] == Name && [Name, Qualified][1] == Qualified;
  }

  /** unitTerms. */
  method UnitTerms(b: Builder, o: Opts, tier: Tier)
    modifies b
    ensures Adds(old(b.conds), old(b.args), b.conds, b.args)
    ensures if HasTerm(o) then |b.conds| > |old(b.conds)| else |b.conds| == |old(b.conds)| && b.args == old(b.args)
    ensures forall r :: Asks(old(b.conds), b.conds, b.args, r) <==> Terms(o, r, Loose(tier))
  {
    ghost var c0, a0 := b.conds, b.args;
    TermIf(b, [Name], o.name, Loose(tier));
    ghost var c1, a1 := b.conds, b.args;
    TermIf(b, [Qualified], o.qualified, Loose(tier));
    AddsCompose(c0, a0, c1, a1, b.conds, b.args);
    ghost var c2, a2 := b.conds, b.args;
    TermIf(b, [Name, Qualified], o.nameOrQualified, Loose(tier));
    AddsCompose(c0, a0, c2, a2, b.conds, b.args);
    forall r: Row, v: string
      ensures AnyMatches(r, [Name], v, Loose(tier)) <==> TermMatches(r.name, v, Loose(tier))
      ensures AnyMatches(r, [Qualified], v, Loose(tier)) <==> TermMatches(r.qualified, v, Loose(tier))
      ensures AnyMatches(r, [Name, Qualified], v, Loose(tier)) <==> TermMatches(r.name, v, Loose(tier)) || TermMatches(r.qualified, v, Loose(tier))
    {
      ColumnsMatch(r, v, Loose(tier));
    }
  }

  method Line(b: Builder, line: int)
    modifies b
    ensures Adds(old(b.conds), old(b.args), b.conds, b.args)
    ensures forall r :: Asks(old(b.conds), b.conds, b.args, r) <==> CoversLine(r, line)
  {
    ghost var c0, a0 := b.conds, b.args;
    b.Where(StartLine, AtMost, Number(line));
    ghost var c1, a1 := b.conds, b.args;
    b.Where(EndLine, AtLeast, Number(line));
    AddsCompose(c0, a0, c1, a1, b.conds, b.args);
  }

  method LineIf(b: Builder, line: int)
    modifies b
    ensures Adds(old(b.conds), old(b.args), b.conds, b.args)
    ensures forall r :: Asks(old(b.conds), b.conds, b.args, r) <==> (line > 0 ==> CoversLine(r, line))
  {
    if line <= 0 {
      AddsNothing(b.conds, b.args);
      return;
    }
    Line(b, line);
  }

  method SuffixAndLine(b: Builder, o: Opts)
    modifies b
    ensures Adds(old(b.conds), old(b.args), b.conds, b.args)
    ensures forall r :: Asks(old(b.conds), b.conds, b.args, r) <==> AtLine(o, r)
  {
    ghost var c0, a0 := b.conds, b.args;
    b.Suffix(Qualified, o.suffix);
    ghost var c1, a1 := b.conds, b.args;
    LineIf(b, o.line);
    AddsCompose(c0, a0, c1, a1, b.conds, b.args);
    forall r ensures CoversLine(r, o.line) <==> r.startLine <= o.line <= r.endLine {
      CoversLineInRange(r, o.line);
    }
  }

  method RepoFileKind(b: Builder, o: Opts)
    modifies b
    ensures Adds(old(b.conds), old(b.args), b.conds, b.args)
    ensures forall r :: Asks(old(b.conds), b.conds, b.args, r) <==> InRepo(o, r) && OfFile(o, r) && OfKind(o, r)
  {
    ghost var c0, a0 := b.conds, b.args;
    Repos(b, o);
    ghost var c1, a1 := b.conds, b.args;
    Files(b, o);
    AddsCompose(c0, a0, c1, a1, b.conds, b.args);
    ghost var c2, a2 := b.conds, b.args;
    Kinds(b, o);
    AddsCompose(c0, a0, c2, a2, b.conds, b.args);
  }

  /** UnitFilters: what is added asks a row to match at the tier. */
  method UnitFilters(b: Builder, o: Opts, tier: Tier)
    modifies b
    ensures Adds(old(b.conds), old(b.args), b.conds, b.args)
    ensures forall r :: Asks(old(b.conds), b.conds, b.args, r) <==> Matches(o, tier, r)
  {
    ghost var c0, a0 := b.conds, b.args;
    RepoFileKind(b, o);
    ghost var c1, a1 := b.conds, b.args;
    UnitTerms(b, o, tier);
    AddsCompose(c0, a0, c1, a1, b.conds, b.args);
    ghost var c2, a2 := b.conds, b.args;
    SuffixAndLine(b, o);
    AddsCompose(c0, a0, c2, a2, b.conds, b.args);
    if tier.HandWritten? {
      ghost var c3, a3 := b.conds, b.args;
      b.Raw();
      AddsCompose(c0, a0, c3, a3, b.conds, b.args);
    }
  }

  // ---------------------------------------------------------------------------
  // Ranking
  // ---------------------------------------------------------------------------

  type Key = seq<Value>

  predicate ValueLess(a: Value, b: Value)
  {
    match (a, b)
    case (Number(x), Number(y)) => x < y
    case (Text(x), Text(y)) => Less(x, y)
    case (Number(_), Text(_)) => true
    case (Text(_), Number(_)) => false
  }

  predicate KeyLess(x: Key, y: Key)
  {
    y != [] && (x == [] || ValueLess(x[0], y[0]) || (x[0] == y[0] && KeyLess(x[1..], y[1..])))
  }

  lemma ValuesOrdered(a: Value, b: Value)
    ensures !(ValueLess(a, b) && ValueLess(b, a)) && !ValueLess(a, a)
    ensures ValueLess(a, b) || ValueLess(b, a) || a == b
  {
    if a.Text? && b.Text? {
      LessIsStrict(a.text, b.text);
      LessTotal(a.text, b.text);
    }
    if a.Text? {
      LessIsStrict(a.text, a.text);
    }
  }

  lemma ValuesChain(a: Value, b: Value, c: Value)
    requires ValueLess(a, b) && ValueLess(b, c)
    ensures ValueLess(a, c)
  {
    if a.Text? && b.Text? && c.Text? {
      LessTransitive(a.text, b.text, c.text);
    }
  }

  lemma {:induction false} KeysOrdered(x: Key, y: Key)
    ensures !(KeyLess(x, y) && KeyLess(y, x)) && (KeyLess(x, y) ==> x != y)
    ensures KeyLess(x, y) || KeyLess(y, x) || x == y
  {
    if x != [] && y != [] {
      ValuesOrdered(x[0], y[0]);
      KeysOrdered(x[1..], y[1..]);
      assert x == [x[0]] + x[1..] && y == [y[0]] + y[1..];
    }
  }

  lemma {:induction false} KeysChain(x: Key, y: Key, z: Key)
    requires KeyLess(x, y) && KeyLess(y, z)
    ensures KeyLess(x, z)
  {
    if x != [] {
      if ValueLess(x[0], y[0]) && ValueLess(y[0], z[0]) {
        ValuesChain(x[0], y[0], z[0]);
      } else if x[0] == y[0] && y[0] == z[0] {
        KeysChain(x[1..], y[1..], z[1..]);
      }
    }
  }

  function Flag(b: bool): Value { Number(if b then 1 else 0) }

  /** Name length, then where the unit is, then its id. */
  function KeyTail(r: Row): Key
  {
    [Number(|r.name|), Text(r.repo), Text(r.file), Number(r.startLine), Number(r.startByte), Text(r.kind), Text(r.name), Text(r.qualified), Number(r.id)]
  }

  /** The rank of a row: path penalty first, then, where the statement holds both, exactness. */
  function RowKey(o: Opts, ranked: bool, r: Row): Key
  {
    [Flag(Penalized(r.file))] + (if ranked then [Flag(!Terms(o, r, false))] else []) + KeyTail(r)
  }

  predicate Before(o: Opts, ranked: bool, a: Row, b: Row) { KeyLess(RowKey(o, ranked, a), RowKey(o, ranked, b)) }

  lemma KeyNamesRow(o: Opts, ranked: bool, a: Row, b: Row)
    requires RowKey(o, ranked, a) == RowKey(o, ranked, b)
    ensures a.id == b.id
  {
    var x, y := RowKey(o, ranked, a), RowKey(o, ranked, b);
    assert x[|x| - 1] == Number(a.id) && y[|y| - 1] == Number(b.id);
  }

  lemma HeadDecides(v: Value, x: Key, w: Value, y: Key)
    ensures KeyLess([v] + x, [w] + y) <==> ValueLess(v, w) || (v == w && KeyLess(x, y))
  {
    assert ([v] + x)[1..] == x && ([w] + y)[1..] == y;
  }

  lemma PlainBefore(o: Opts, a: Row, b: Row)
    requires Penalized(a.file) == Penalized(b.file)
    ensures Before(o, false, a, b) <==> KeyLess(KeyTail(a), KeyTail(b))
  {
    var v := Flag(Penalized(a.file));
    assert RowKey(o, false, a) == [v] + KeyTail(a) && RowKey(o, false, b) == [v] + KeyTail(b);
    HeadDecides(v, KeyTail(a), v, KeyTail(b));
  }

  lemma RankedBefore(o: Opts, a: Row, b: Row)
    ensures Before(o, true, a, b) <==>
              if Penalized(a.file) != Penalized(b.file) then Penalized(b.file)
              else if Terms(o, a, false) != Terms(o, b, false) then Terms(o, a, false)
              else KeyLess(KeyTail(a), KeyTail(b))
  {
    var x, y := [Flag(!Terms(o, a, false))] + KeyTail(a), [Flag(!Terms(o, b, false))] + KeyTail(b);
    assert RowKey(o, true, a) == [Flag(Penalized(a.file))] + x && RowKey(o, true, b) == [Flag(Penalized(b.file))] + y;
    HeadDecides(Flag(Penalized(a.file)), x, Flag(Penalized(b.file)), y);
    HeadDecides(Flag(!Terms(o, a, false)), KeyTail(a), Flag(!Terms(o, b, false)), KeyTail(b));
  }

  // ---------------------------------------------------------------------------
  // Ranked lists
  // ---------------------------------------------------------------------------

  ghost predicate UniqueIds(rows: set<Row>) { forall a, b :: a in rows && b in rows && a.id == b.id ==> a == b }

  /** `list` holds the rows, each once, best rank first. */
  ghost predicate Ranks(list: seq<Row>, rows: set<Row>, o: Opts, ranked: bool)
  {
    && (forall r :: r in list <==> r in rows)
    && (forall i, j :: 0 <= i < j < |list| ==> Before(o, ranked, list[i], list[j]))
  }

  function First(list: seq<Row>, n: nat): seq<Row> { if |list| > n then list[..n] else list }

  lemma Distinct(list: seq<Row>, rows: set<Row>, o: Opts, ranked: bool)
    requires Ranks(list, rows, o, ranked)
    ensures forall i, j :: 0 <= i < j < |list| ==> list[i] != list[j]
  {
    forall i, j | 0 <= i < j < |list| ensures list[i] != list[j] {
      KeysOrdered(RowKey(o, ranked, list[i]), RowKey(o, ranked, list[j]));
    }
  }

  lemma RanksTail(list: seq<Row>, rows: set<Row>, o: Opts, ranked: bool)
    requires Ranks(list, rows, o, ranked) && list != []
    ensures Ranks(list[1..], rows - {list[0]}, o, ranked)
  {
    Distinct(list, rows, o, ranked);
    forall r ensures r in list[1..] <==> r in rows - {list[0]} {
      assert list == [list[0]] + list[1..];
      if r in list[1..] {
        var i :| 0 <= i < |list[1..]| && list[1..][i] == r;
        assert list[i + 1] == r;
      }
    }
  }

  /** A ranked list of some of the rows, all of them ranked before the rest, begins every ranked list. */
  lemma {:induction false} BestComeFirst(h: seq<Row>, some: set<Row>, list: seq<Row>, rows: set<Row>, o: Opts, ranked: bool)
    requires Ranks(h, some, o, ranked) && Ranks(list, rows, o, ranked) && some <= rows
    requires forall a, b :: a in some && b in rows - some ==> Before(o, ranked, a, b)
    ensures h <= list
    decreases |h|
  {
    if h != [] {
      SameHead(h, some, list, rows, o, ranked);
      RanksTail(h, some, o, ranked);
      RanksTail(list, rows, o, ranked);
      assert (rows - {h[0]}) - (some - {h[0]}) == rows - some;
      BestComeFirst(h[1..], some - {h[0]}, list[1..], rows - {h[0]}, o, ranked);
      assert h == [h[0]] + h[1..] && list == [list[0]] + list[1..];
    }
  }

  lemma SameHead(h: seq<Row>, some: set<Row>, list: seq<Row>, rows: set<Row>, o: Opts, ranked: bool)
    requires Ranks(h, some, o, ranked) && Ranks(list, rows, o, ranked) && some <= rows && h != []
    requires forall a, b :: a in some && b in rows - some ==> Before(o, ranked, a, b)
    ensures list != [] && list[0] == h[0]
  {
    assert h[0] in some && h[0] in list;
    var i :| 0 <= i < |list| && list[i] == h[0];
    if list[0] != h[0] {
      assert Before(o, ranked, list[0], h[0]);
      assert list[0] in rows;
      if list[0] in some {
        assert list[0] in h;
        var j :| 0 <= j < |h| && h[j] == list[0];
      }
      assert Before(o, ranked, h[0], list[0]);
      KeysOrdered(RowKey(o, ranked, h[0]), RowKey(o, ranked, list[0]));
    }
  }

  /** There is one ranked list of a set of rows. */
  lemma RankingIsUnique(a: seq<Row>, b: seq<Row>, rows: set<Row>, o: Opts, ranked: bool)
    requires Ranks(a, rows, o, ranked) && Ranks(b, rows, o, ranked)
    ensures a == b
  {
    BestComeFirst(a, rows, b, rows, o, ranked);
    BestComeFirst(b, rows, a, rows, o, ranked);
  }

  lemma {:induction false} InsertRank(list: seq<Row>, rows: set<Row>, x: Row, o: Opts, ranked: bool) returns (longer: seq<Row>)
    requires Ranks(list, rows, o, ranked) && x !in rows && UniqueIds(rows + {x})
    ensures Ranks(longer, rows + {x}, o, ranked)
    decreases |list|
  {
    if list == [] {
      return [x];
    }
    var y := list[0];
    assert y in rows;
    if RowKey(o, ranked, x) == RowKey(o, ranked, y) {
      KeyNamesRow(o, ranked, x, y);
    }
    KeysOrdered(RowKey(o, ranked, x), RowKey(o, ranked, y));
    RanksTail(list, rows, o, ranked);
    if Before(o, ranked, x, y) {
      longer := [x] + list;
      PrependRank(x, list, rows, o, ranked);
    } else {
      var rest := InsertRank(list[1..], rows - {y}, x, o, ranked);
      assert (rows - {y} + {x}) + {y} == rows + {x};
      forall r | r in rest ensures Before(o, ranked, y, r) {
        if r != x {
          assert r in list[1..];
          var i :| 0 <= i < |list[1..]| && list[1..][i] == r;
          assert list[i + 1] == r;
        }
      }
      longer := [y] + rest;
      ConsRank(y, rest, rows - {y} + {x}, o, ranked);
    }
  }

  lemma ConsRank(y: Row, list: seq<Row>, rows: set<Row>, o: Opts, ranked: bool)
    requires Ranks(list, rows, o, ranked) && forall r :: r in list ==> Before(o, ranked, y, r)
    ensures Ranks([y] + list, rows + {y}, o, ranked)
  {
  }

  lemma PrependRank(x: Row, list: seq<Row>, rows: set<Row>, o: Opts, ranked: bool)
    requires Ranks(list, rows, o, ranked) && list != [] && Before(o, ranked, x, list[0])
    ensures Ranks([x] + list, rows + {x}, o, ranked)
  {
    forall r | r in list ensures Before(o, ranked, x, r) {
      var i :| 0 <= i < |list| && list[i] == r;
      if i > 0 {
        KeysChain(RowKey(o, ranked, x), RowKey(o, ranked, list[0]), RowKey(o, ranked, r));
      }
    }
    ConsRank(x, list, rows, o, ranked);
  }

  lemma {:induction false} RankingExists(rows: set<Row>, o: Opts, ranked: bool) returns (list: seq<Row>)
    requires UniqueIds(rows)
    ensures Ranks(list, rows, o, ranked)
    decreases |rows|
  {
    if rows == {} {
      return [];
    }
    var x :| x in rows;
    var rest := RankingExists(rows - {x}, o, ranked);
    list := InsertRank(rest, rows - {x}, x, o, ranked);
    assert rows - {x} + {x} == rows;
  }

  // ---------------------------------------------------------------------------
  // One statement
  // ---------------------------------------------------------------------------

  /** The ORDER BY clause: `exact` holds the conditions of its exactness term, if it has one. */
  datatype Statement = Statement(where: seq<Cond>, exact: Option<seq<Cond>>, limit: Option<nat>, args: seq<Value>)

  /** The placeholders of the statement in the order of its text. */
  function TextPhs(st: Statement): seq<nat>
  {
    AllPhs(st.where) + (if st.exact.Some? then AllPhs(st.exact.value) else []) + (if st.limit.Some? then [st.limit.value] else [])
  }

  function StatementKey(st: Statement, r: Row): Key
  {
    [Flag(LikeMarker(MARKERS, r.file))] + (if st.exact.Some? then [Flag(!AllHold(st.exact.value, r, st.args))] else []) + KeyTail(r)
  }

  predicate HasTerm(o: Opts) { o.name != "" || o.qualified != "" || o.nameOrQualified != "" }

  predicate Ranked(o: Opts, tier: Tier) { tier.Remainder? && HasTerm(o) }

  /** unitTermConds: the exact conditions with their arguments registered, out of the WHERE clause. */
  method UnitTermConds(b: Builder, o: Opts) returns (exact: seq<Cond>)
    modifies b
    ensures b.conds == old(b.conds) && old(b.args) <= b.args && AllPhs(exact) == Numbers(|old(b.args)|, |b.args|)
    ensures forall r :: AllHold(exact, r, b.args) <==> Terms(o, r, false)
    ensures exact == [] ==> !HasTerm(o)
    ensures !HasTerm(o) ==> exact == [] && b.args == old(b.args)
  {
    var start := |b.conds|;
    ghost var c0 := b.conds;
    UnitTerms(b, o, Exact);
    exact := b.conds[start..];
    forall r ensures AllHold(exact, r, b.args) <==> Terms(o, r, false) {
      assert Asks(c0, b.conds, b.args, r) <==> Terms(o, r, false);
    }
    b.conds := b.conds[..start];
  }

  /** UnitQuery: every placeholder binds the argument at its place in the text, and the statement
      selects and ranks as the tier says. */
  method UnitQuery(o: Opts, tier: Tier, limit: int, exclude: seq<Value>) returns (st: Statement)
    ensures Composed(st, o, tier, limit, exclude)
  {
    var b := new Builder();
    UnitFilters(b, o, tier);
    ghost var c1, a1 := b.conds, b.args;
    b.AmongIf(Id, exclude, true);
    AddsCompose([], [], c1, a1, b.conds, b.args);
    ghost var a2 := b.args;
    var exact: Option<seq<Cond>> := None;
    if tier.Remainder? {
      var conds := UnitTermConds(b, o);
      exact := if |conds| == 0 then None else Some(conds);
    }
    ghost var a3 := b.args;
    var lim: Option<nat> := None;
    if limit > 0 {
      var ph := b.Next(Number(limit));
      lim := Some(ph);
    }
    st := Statement(b.conds, exact, lim, b.args);
    SelectsAsComposed(st, o, tier, exclude, a2);
    RanksAsComposed(st, o, tier, a2, a3);
    NumberedAsComposed(st, a2, a3);
  }

  /** The statement asks for the tier's rows but the excluded, ranks them as the tier does, and binds
      every argument once, in the order of the text. */
  ghost predicate Composed(st: Statement, o: Opts, tier: Tier, limit: int, exclude: seq<Value>)
  {
    && TextPhs(st) == Numbers(0, |st.args|)
    && (forall r :: AllHold(st.where, r, st.args) <==> Matches(o, tier, r) && Number(r.id) !in exclude)
    && (forall r :: StatementKey(st, r) == RowKey(o, Ranked(o, tier), r))
    && if limit > 0 then st.limit.Some? && Arg(st.args, st.limit.value) == Number(limit) else st.limit.None?
  }

  lemma SelectsAsComposed(st: Statement, o: Opts, tier: Tier, exclude: seq<Value>, a2: seq<Value>)
    requires Adds([], [], st.where, a2) && a2 <= st.args
    requires forall r :: Asks([], st.where, a2, r) <==> Matches(o, tier, r) && (exclude != [] ==> Number(r.id) !in exclude)
    ensures forall r :: AllHold(st.where, r, st.args) <==> Matches(o, tier, r) && Number(r.id) !in exclude
  {
    assert st.where[0..] == st.where;
    forall r ensures AllHold(st.where, r, st.args) <==> Matches(o, tier, r) && Number(r.id) !in exclude {
      AllHoldStays(st.where, r, a2, st.args);
      assert Asks([], st.where, a2, r) <==> AllHold(st.where, r, a2);
    }
  }

  lemma RanksAsComposed(st: Statement, o: Opts, tier: Tier, a2: seq<Value>, a3: seq<Value>)
    requires a2 <= a3 <= st.args && (st.exact.Some? <==> Ranked(o, tier))
    requires st.exact.Some? ==> AllPhs(st.exact.value) == Numbers(|a2|, |a3|) && forall r :: AllHold(st.exact.value, r, a3) <==> Terms(o, r, false)
    ensures forall r :: StatementKey(st, r) == RowKey(o, Ranked(o, tier), r)
  {
    forall r ensures StatementKey(st, r) == RowKey(o, Ranked(o, tier), r) {
      PenaltyIsMarkers(MARKERS, r.file);
      if st.exact.Some? {
        AllHoldStays(st.exact.value, r, a3, st.args);
      }
    }
  }

  lemma NumberedAsComposed(st: Statement, a2: seq<Value>, a3: seq<Value>)
    requires AllPhs(st.where) == Numbers(0, |a2|) && a2 <= a3 <= st.args
    requires if st.exact.Some? then AllPhs(st.exact.value) == Numbers(|a2|, |a3|) else a3 == a2
    requires if st.limit.Some? then st.limit.value == |st.args| == |a3| + 1 else st.args == a3
    ensures TextPhs(st) == Numbers(0, |st.args|)
  {
    NumbersConcat(0, |a2|, |a3|);
  }

  // ---------------------------------------------------------------------------
  // Running statements
  // ---------------------------------------------------------------------------

  ghost predicate DistinctIds(table: seq<Row>) { forall i, j :: 0 <= i < j < |table| ==> table[i].id != table[j].id }

  function Found(table: seq<Row>, o: Opts, tier: Tier, exclude: seq<Value>): set<Row>
  {
    set r | r in table && Matches(o, tier, r) && Number(r.id) !in exclude
  }

  lemma FoundHasUniqueIds(table: seq<Row>, o: Opts, tier: Tier, exclude: seq<Value>)
    requires DistinctIds(table)
    ensures UniqueIds(Found(table, o, tier, exclude))
  {
  }

  function StatementLess(st: Statement): (Row, Row) -> bool { (a: Row, b: Row) => KeyLess(StatementKey(st, a), StatementKey(st, b)) }

  lemma StatementOrders(st: Statement, rows: seq<Row>)
    ensures Sorting.WeakOrder(rows, StatementLess(st))
  {
    forall i, j | 0 <= i < |rows| && 0 <= j < |rows| && StatementLess(st)(rows[i], rows[j]) ensures !StatementLess(st)(rows[j], rows[i]) {
      KeysOrdered(StatementKey(st, rows[i]), StatementKey(st, rows[j]));
    }
    forall i, j, k | 0 <= i < |rows| && 0 <= j < |rows| && 0 <= k < |rows| && !StatementLess(st)(rows[i], rows[j]) && !StatementLess(st)(rows[j], rows[k])
      ensures !StatementLess(st)(rows[i], rows[k])
    {
      var x, y, z := StatementKey(st, rows[i]), StatementKey(st, rows[j]), StatementKey(st, rows[k]);
      KeysOrdered(x, y);
      KeysOrdered(y, z);
      KeysOrdered(x, z);
      if KeyLess(y, x) && KeyLess(z, y) {
        KeysChain(z, y, x);
      }
    }
  }

  method Select(table: seq<Row>, st: Statement) returns (rows: seq<Row>)
    requires DistinctIds(table)
    ensures DistinctIds(rows) && forall r :: r in rows <==> r in table && AllHold(st.where, r, st.args)
  {
    rows := [];
    for i := 0 to |table|
      invariant DistinctIds(rows) && forall r :: r in rows <==> r in table[..i] && AllHold(st.where, r, st.args)
    {
      assert table[..i + 1] == table[..i] + [table[i]];
      if AllHold(st.where, table[i], st.args) {
        forall r | r in rows ensures r.id != table[i].id {
          assert r in table[..i];
        }
        rows := rows + [table[i]];
      }
    }
    assert table[..|table|] == table;
  }

  lemma SortedRanks(sorted: seq<Row>, rows: seq<Row>, st: Statement, o: Opts, tier: Tier, limit: int, exclude: seq<Value>, table: seq<Row>)
    requires Composed(st, o, tier, limit, exclude) && DistinctIds(rows)
    requires forall r :: r in rows <==> r in table && AllHold(st.where, r, st.args)
    requires multiset(sorted) == multiset(rows) && Sorting.Sorted(sorted, StatementLess(st))
    ensures Ranks(sorted, Found(table, o, tier, exclude), o, Ranked(o, tier))
  {
    forall r ensures r in sorted <==> r in rows {
      assert r in sorted <==> r in multiset(sorted);
      assert r in rows <==> r in multiset(rows);
    }
    DistinctAfterSorting(sorted, rows);
    forall i, j | 0 <= i < j < |sorted| ensures Before(o, Ranked(o, tier), sorted[i], sorted[j]) {
      assert !StatementLess(st)(sorted[j], sorted[i]);
      KeysOrdered(StatementKey(st, sorted[i]), StatementKey(st, sorted[j]));
      assert StatementKey(st, sorted[i]) == RowKey(o, Ranked(o, tier), sorted[i]);
      assert StatementKey(st, sorted[j]) == RowKey(o, Ranked(o, tier), sorted[j]);
      assert RowKey(o, Ranked(o, tier), sorted[i]) != RowKey(o, Ranked(o, tier), sorted[j]) by {
        if RowKey(o, Ranked(o, tier), sorted[i]) == RowKey(o, Ranked(o, tier), sorted[j]) {
          KeyNamesRow(o, Ranked(o, tier), sorted[i], sorted[j]);
        }
      }
    }
  }

  lemma {:induction false} DistinctAfterSorting(sorted: seq<Row>, rows: seq<Row>)
    requires multiset(sorted) == multiset(rows) && DistinctIds(rows)
    ensures DistinctIds(sorted)
  {
    forall r | r in multiset(rows) ensures multiset(rows)[r] == 1 {
      OnceEach(rows, r);
    }
    forall i, j | 0 <= i < j < |sorted| ensures sorted[i].id != sorted[j].id {
      assert sorted[i] in multiset(sorted) && sorted[j] in multiset(sorted);
      assert sorted[i] in rows && sorted[j] in rows;
      if sorted[i] == sorted[j] {
        TwiceCounts(sorted, i, j);
      }
    }
  }

  lemma {:induction false} OnceEach(rows: seq<Row>, r: Row)
    requires DistinctIds(rows)
    ensures multiset(rows)[r] == if r in rows then 1 else 0
  {
    if rows != [] {
      var front, last := rows[..|rows| - 1], rows[|rows| - 1];
      assert rows == front + [last];
      assert forall j :: 0 <= j < |front| ==> front[j].id == rows[j].id != last.id;
      OnceEach(front, r);
      assert multiset(rows) == multiset(front) + multiset{last};
    }
  }

  lemma TwiceCounts(rows: seq<Row>, i: nat, j: nat)
    requires i < j < |rows| && rows[i] == rows[j]
    ensures multiset(rows)[rows[i]] >= 2
  {
    var a, b := rows[..j], rows[j..];
    assert rows == a + b;
    assert a[i] in multiset(a) && b[0] in multiset(b);
    assert multiset(rows) == multiset(a) + multiset(b);
  }

  /** The engine: the rows the WHERE clause holds of, in the statement's order, up to its limit. */
  method Scan(table: seq<Row>, st: Statement, ghost o: Opts, ghost tier: Tier, ghost limit: int, ghost exclude: seq<Value>)
    returns (rows: seq<Row>, ghost all: seq<Row>)
    requires DistinctIds(table) && Composed(st, o, tier, limit, exclude)
    ensures Ranks(all, Found(table, o, tier, exclude), o, Ranked(o, tier))
    ensures rows == if limit > 0 then First(all, limit) else all
  {
    var selected := Select(table, st);
    StatementOrders(st, selected);
    var sorted := Sorting.Slice(selected, StatementLess(st));
    SortedRanks(sorted, selected, st, o, tier, limit, exclude, table);
    all, rows := sorted, sorted;
    if st.limit.Some? {
      var n := NumberOf(Arg(st.args, st.limit.value));
      if 0 <= n < |sorted| {
        rows := sorted[..n];
      }
    }
  }

  // ---------------------------------------------------------------------------
  // The lookup
  // ---------------------------------------------------------------------------

  predicate Widens(o: Opts) { o.fallback && o.limit > 0 && HasTerm(o) }

  /** Hand-written rows matching as written rank alike with and without the exactness term. */
  lemma HandWrittenRanksAlike(h: seq<Row>, table: seq<Row>, o: Opts)
    requires Ranks(h, Found(table, o, HandWritten, []), o, false)
    ensures Ranks(h, Found(table, o, HandWritten, []), o, true)
  {
    forall i, j | 0 <= i < j < |h| ensures Before(o, true, h[i], h[j]) {
      assert h[i] in Found(table, o, HandWritten, []) && h[j] in Found(table, o, HandWritten, []);
      assert Before(o, false, h[i], h[j]);
      PlainBefore(o, h[i], h[j]);
      RankedBefore(o, h[i], h[j]);
    }
  }

  /** The first statement finds a part of what one query would, and all of it ranks before the rest. */
  lemma HandWrittenComesFirst(table: seq<Row>, o: Opts)
    ensures var h, f := Found(table, o, HandWritten, []), Found(table, o, Substring, []);
            h <= f && forall a, b :: a in h && b in f - h ==> Before(o, true, a, b)
  {
    var h, f := Found(table, o, HandWritten, []), Found(table, o, Substring, []);
    forall r | r in h ensures r in f {
      ExactIsLoose(o, r);
    }
    forall a, b | a in h && b in f - h ensures Before(o, true, a, b) {
      RankedBefore(o, a, b);
    }
  }

  /** Excluding the ids of the first page leaves exactly the rest. */
  lemma RestIsExcluded(table: seq<Row>, o: Opts, h: seq<Row>, ids: seq<Value>)
    requires DistinctIds(table) && forall r :: r in h <==> r in Found(table, o, HandWritten, [])
    requires forall v :: v in ids <==> exists r :: r in h && v == Number(r.id)
    ensures Found(table, o, Remainder, ids) == Found(table, o, Substring, []) - Found(table, o, HandWritten, [])
  {
    forall r | r in table ensures Number(r.id) in ids <==> r in Found(table, o, HandWritten, []) {
      if Number(r.id) in ids {
        var q :| q in h && Number(r.id) == Number(q.id);
        assert q in table;
      }
    }
  }

  lemma RanksJoin(a: seq<Row>, some: set<Row>, b: seq<Row>, rest: set<Row>, o: Opts)
    requires Ranks(a, some, o, true) && Ranks(b, rest, o, true)
    requires forall x, y :: x in some && y in rest ==> Before(o, true, x, y)
    ensures Ranks(a + b, some + rest, o, true)
  {
    forall i, j | 0 <= i < j < |a + b| ensures Before(o, true, (a + b)[i], (a + b)[j]) {
      if i < |a| <= j {
        assert a[i] in some && b[j - |a|] in rest;
      }
    }
  }

  method Ids(rows: seq<Row>) returns (ids: seq<Value>)
    ensures forall v :: v in ids <==> exists r :: r in rows && v == Number(r.id)
  {
    ids := [];
    for i := 0 to |rows|
      invariant |ids| == i && forall j :: 0 <= j < i ==> ids[j] == Number(rows[j].id)
    {
      ids := ids + [Number(rows[i].id)];
    }
    forall v | v in ids ensures exists r :: r in rows && v == Number(r.id) {
      var j :| 0 <= j < |ids| && ids[j] == v;
      assert rows[j] in rows;
    }
    forall r | r in rows ensures Number(r.id) in ids {
      var j :| 0 <= j < |rows| && rows[j] == r;
      assert ids[j] == Number(r.id);
    }
  }

  /** The one ranked list of some rows. */
  ghost function RankedList(rows: set<Row>, o: Opts, ranked: bool): (list: seq<Row>)
    requires UniqueIds(rows)
    ensures Ranks(list, rows, o, ranked)
  {
    assert exists list :: Ranks(list, rows, o, ranked) by {
      var some := RankingExists(rows, o, ranked);
    }
    var list :| Ranks(list, rows, o, ranked);
    list
  }

  ghost function AllFound(table: seq<Row>, o: Opts, tier: Tier): seq<Row>
    requires DistinctIds(table)
  {
    FoundHasUniqueIds(table, o, tier, []);
    RankedList(Found(table, o, tier, []), o, tier.Substring?)
  }

  /** QueryUnits.  Widened, the answer is the first rows of everything a name of which contains the
      term, each once, ranked by path penalty, exactness, name length and place. */
  method QueryUnits(table: seq<Row>, o: Opts) returns (out: seq<Row>)
    requires DistinctIds(table)
    ensures Widens(o) ==> out == First(AllFound(table, o, Substring), o.limit)
    ensures !Widens(o) ==> out == if o.limit > 0 then First(AllFound(table, o, Exact), o.limit) else AllFound(table, o, Exact)
    ensures Answered(table, o, o.fallback && o.limit > 0 && (o.name != "" || o.qualified != "" || o.nameOrQualified != ""), out)
  {
    ghost var all;
    if Widens(o) {
      out, all := QueryTwice(table, o);
      RankingIsUnique(all, AllFound(table, o, Substring), Found(table, o, Substring, []), o, true);
      FirstAnswers(table, o, true, all, out);
    } else {
      var st := UnitQuery(o, Exact, o.limit, []);
      out, all := Scan(table, st, o, Exact, o.limit, []);
      RankingIsUnique(all, AllFound(table, o, Exact), Found(table, o, Exact, []), o, false);
      FirstAnswers(table, o, false, all, out);
    }
  }

  /** A full hand-written page is the first page of everything. */
  lemma FullPageIsFirst(table: seq<Row>, o: Opts, h: seq<Row>) returns (all: seq<Row>)
    requires DistinctIds(table) && o.limit > 0 && |h| >= o.limit
    requires Ranks(h, Found(table, o, HandWritten, []), o, false)
    ensures Ranks(all, Found(table, o, Substring, []), o, true) && First(h, o.limit) == First(all, o.limit)
  {
    HandWrittenRanksAlike(h, table, o);
    HandWrittenComesFirst(table, o);
    FoundHasUniqueIds(table, o, Substring, []);
    all := RankingExists(Found(table, o, Substring, []), o, true);
    BestComeFirst(h, Found(table, o, HandWritten, []), all, Found(table, o, Substring, []), o, true);
    assert all[..o.limit] == h[..o.limit];
  }

  /** The remainder behind the hand-written rows makes up everything. */
  lemma RemainderFollows(table: seq<Row>, o: Opts, h: seq<Row>, exclude: seq<Value>, rest: seq<Row>)
    requires DistinctIds(table) && forall v :: v in exclude <==> exists r :: r in h && v == Number(r.id)
    requires Ranks(h, Found(table, o, HandWritten, []), o, false)
    requires Ranks(rest, Found(table, o, Remainder, exclude), o, true)
    ensures Ranks(h + rest, Found(table, o, Substring, []), o, true)
  {
    HandWrittenRanksAlike(h, table, o);
    HandWrittenComesFirst(table, o);
    RestIsExcluded(table, o, h, exclude);
    RanksJoin(h, Found(table, o, HandWritten, []), rest, Found(table, o, Remainder, exclude), o);
    assert Found(table, o, HandWritten, []) + Found(table, o, Remainder, exclude) == Found(table, o, Substring, []);
  }

  /** The hand-written page and, when it is short, the remainder: a prefix of one ranked list. */
  method QueryTwice(table: seq<Row>, o: Opts) returns (out: seq<Row>, ghost all: seq<Row>)
    requires DistinctIds(table) && Widens(o)
    ensures Ranks(all, Found(table, o, Substring, []), o, true) && out == First(all, o.limit)
  {
    var st := UnitQuery(o, HandWritten, o.limit, []);
    var page;
    ghost var h;
    page, h := Scan(table, st, o, HandWritten, o.limit, []);
    if |page| >= o.limit {
      all := FullPageIsFirst(table, o, h);
      return page, all;
    }
    var exclude := Ids(page);
    st := UnitQuery(o, Remainder, o.limit - |page|, exclude);
    var more;
    ghost var rest;
    more, rest := Scan(table, st, o, Remainder, o.limit - |page|, exclude);
    RemainderFollows(table, o, h, exclude, rest);
    all := h + rest;
    out := page + more;
  }

  // ---------------------------------------------------------------------------
  // The answer, field by field
  // ---------------------------------------------------------------------------

  /** The row is one the options ask for, the name terms aside. */
  predicate Asked(o: Opts, r: Row)
  {
    && (o.repo != "" ==> r.repo == o.repo) && (o.repos != [] ==> r.repo in o.repos)
    && (o.file != "" ==> r.file == o.file) && (o.language != "" ==> r.language == o.language)
    && (o.kind != "" ==> r.kind == o.kind) && (o.kinds != [] ==> r.kind in o.kinds)
    && (o.suffix != "" ==> |o.suffix| <= |r.qualified| && r.qualified[|r.qualified| - |o.suffix|..] == o.suffix)
    && (o.line > 0 ==> r.startLine <= o.line <= r.endLine)
  }

  predicate NamedAsWritten(o: Opts, r: Row)
  {
    && (o.name != "" ==> Lower(r.name) == Lower(o.name))
    && (o.qualified != "" ==> Lower(r.qualified) == Lower(o.qualified))
    && (o.nameOrQualified != "" ==> Lower(r.name) == Lower(o.nameOrQualified) || Lower(r.qualified) == Lower(o.nameOrQualified))
  }

  predicate NameContains(o: Opts, r: Row)
  {
    && (o.name != "" ==> Contains(Lower(r.name), Lower(o.name)))
    && (o.qualified != "" ==> Contains(Lower(r.qualified), Lower(o.qualified)))
    && (o.nameOrQualified != "" ==> Contains(Lower(r.name), Lower(o.nameOrQualified)) || Contains(Lower(r.qualified), Lower(o.nameOrQualified)))
  }

  /** The path of generated, test, mock or vendored code. */
  predicate Demoted(r: Row) { exists i :: 0 <= i < |MARKERS| && Contains("/" + Lower(r.file), MARKERS[i]) }

  /** a stands before b by place: repository, file, line, byte, kind, name, qualified name, id. */
  predicate PlacedBefore(a: Row, b: Row)
  {
    if a.repo != b.repo then Less(a.repo, b.repo)
    else if a.file != b.file then Less(a.file, b.file)
    else if a.startLine != b.startLine then a.startLine < b.startLine
    else if a.startByte != b.startByte then a.startByte < b.startByte
    else if a.kind != b.kind then Less(a.kind, b.kind)
    else if a.name != b.name then Less(a.name, b.name)
    else if a.qualified != b.qualified then Less(a.qualified, b.qualified)
    else a.id < b.id
  }

  /** a ranks before b: hand-written code first, then in a widened lookup what is named as written, then the
      shorter name, then the place. */
  predicate RanksBefore(o: Opts, widened: bool, a: Row, b: Row)
  {
    if Demoted(a) != Demoted(b) then Demoted(b)
    else if widened && NamedAsWritten(o, a) != NamedAsWritten(o, b) then NamedAsWritten(o, a)
    else if |a.name| != |b.name| then |a.name| < |b.name|
    else PlacedBefore(a, b)
  }

  predicate Answers(o: Opts, widened: bool, r: Row) { Asked(o, r) && if widened then NameContains(o, r) else NamedAsWritten(o, r) }

  /** The answer holds rows of the table that answer, in rank order, up to the limit, and leaves out none
      but those that rank behind a full page. */
  ghost predicate Answered(table: seq<Row>, o: Opts, widened: bool, out: seq<Row>)
  {
    && (forall i :: 0 <= i < |out| ==> out[i] in table && Answers(o, widened, out[i]))
    && (forall i, j :: 0 <= i < j < |out| ==> RanksBefore(o, widened, out[i], out[j]))
    && (o.limit > 0 ==> |out| <= o.limit)
    && (forall r :: r in table && Answers(o, widened, r) && r !in out ==>
          o.limit > 0 && |out| == o.limit && forall i :: 0 <= i < |out| ==> RanksBefore(o, widened, out[i], r))
  }

  lemma EndDecides(v: Value, w: Value)
    ensures KeyLess([v], [w]) <==> ValueLess(v, w)
  {
    HeadDecides(v, [], w, []);
    assert [v] + [] == [v] && [w] + [] == [w];
  }

  /** The end of a rank key: kind, name, qualified name and id. */
  lemma LateFieldsDecide(a: Row, b: Row)
    ensures KeyLess([Text(a.kind), Text(a.name), Text(a.qualified), Number(a.id)], [Text(b.kind), Text(b.name), Text(b.qualified), Number(b.id)]) <==>
              if a.kind != b.kind then Less(a.kind, b.kind)
              else if a.name != b.name then Less(a.name, b.name)
              else if a.qualified != b.qualified then Less(a.qualified, b.qualified)
              else a.id < b.id
  {
    LessIsStrict(a.kind, a.kind);
    LessIsStrict(a.name, a.name);
    LessIsStrict(a.qualified, a.qualified);
    EndDecides(Number(a.id), Number(b.id));
    HeadDecides(Text(a.qualified), [Number(a.id)], Text(b.qualified), [Number(b.id)]);
    HeadDecides(Text(a.name), [Text(a.qualified), Number(a.id)], Text(b.name), [Text(b.qualified), Number(b.id)]);
    HeadDecides(Text(a.kind), [Text(a.name), Text(a.qualified), Number(a.id)], Text(b.kind), [Text(b.name), Text(b.qualified), Number(b.id)]);
  }

  lemma TailDecides(a: Row, b: Row)
    ensures KeyLess(KeyTail(a), KeyTail(b)) <==> if |a.name| != |b.name| then |a.name| < |b.name| else PlacedBefore(a, b)
  {
    LessIsStrict(a.repo, a.repo);
    LessIsStrict(a.file, a.file);
    LateFieldsDecide(a, b);
    var x4, y4 := [Text(a.kind), Text(a.name), Text(a.qualified), Number(a.id)], [Text(b.kind), Text(b.name), Text(b.qualified), Number(b.id)];
    var x3, y3 := [Number(a.startByte)] + x4, [Number(b.startByte)] + y4;
    var x2, y2 := [Number(a.startLine)] + x3, [Number(b.startLine)] + y3;
    var x1, y1 := [Text(a.file)] + x2, [Text(b.file)] + y2;
    var x0, y0 := [Text(a.repo)] + x1, [Text(b.repo)] + y1;
    HeadDecides(Number(a.startByte), x4, Number(b.startByte), y4);
    HeadDecides(Number(a.startLine), x3, Number(b.startLine), y3);
    HeadDecides(Text(a.file), x2, Text(b.file), y2);
    HeadDecides(Text(a.repo), x1, Text(b.repo), y1);
    HeadDecides(Number(|a.name|), x0, Number(|b.name|), y0);
    assert KeyTail(a) == [Number(|a.name|)] + x0 && KeyTail(b) == [Number(|b.name|)] + y0;
  }

  lemma RankIs(o: Opts, ranked: bool, a: Row, b: Row)
    ensures Before(o, ranked, a, b) <==> RanksBefore(o, ranked, a, b)
  {
    TailDecides(a, b);
    if ranked {
      RankedBefore(o, a, b);
    } else {
      var v, w := Flag(Penalized(a.file)), Flag(Penalized(b.file));
      assert RowKey(o, false, a) == [v] + KeyTail(a) && RowKey(o, false, b) == [w] + KeyTail(b);
      HeadDecides(v, KeyTail(a), w, KeyTail(b));
    }
  }

  /** The first rows of the ranked list of what a lookup finds are its answer. */
  lemma FirstAnswers(table: seq<Row>, o: Opts, widened: bool, all: seq<Row>, out: seq<Row>)
    requires Ranks(all, Found(table, o, if widened then Substring else Exact, []), o, widened)
    requires out == if o.limit > 0 then First(all, o.limit) else all
    ensures Answered(table, o, widened, out)
  {
    var found := Found(table, o, if widened then Substring else Exact, []);
    forall r ensures r in found <==> r in table && Answers(o, widened, r) {
    }
    forall i, j | 0 <= i < j < |all| ensures RanksBefore(o, widened, all[i], all[j]) {
      RankIs(o, widened, all[i], all[j]);
    }
    forall i | 0 <= i < |out| ensures out[i] in table && Answers(o, widened, out[i]) {
      assert out[i] == all[i] && all[i] in all;
    }
    forall r | r in table && Answers(o, widened, r) && r !in out
      ensures o.limit > 0 && |out| == o.limit && forall i :: 0 <= i < |out| ==> RanksBefore(o, widened, out[i], r)
    {
      assert r in found && r in all;
      var k :| 0 <= k < |all| && all[k] == r;
      assert forall i :: 0 <= i < |out| ==> out[i] == all[i] != r;
    }
  }
}
