/** Composing WHERE conditions and their arguments: what the conditions select, and that the
    placeholders of the text bind the arguments in order. */
module SqlBuilder {
  import opened Strings
  import opened SqlLike

  datatype Value = Text(text: string) | Number(num: int)

  datatype Row = Row(
    id: int, repo: string, file: string, language: string, kind: string, name: string, qualified: string,
    startLine: int, endLine: int, startByte: int)

  datatype Column = Id | Repo | File | Language | Kind | Name | Qualified | StartLine | EndLine

  function Cell(r: Row, col: Column): Value
  {
    match col
    case Id => Number(r.id)
    case Repo => Text(r.repo)
    case File => Text(r.file)
    case Language => Text(r.language)
    case Kind => Text(r.kind)
    case Name => Text(r.name)
    case Qualified => Text(r.qualified)
    case StartLine => Number(r.startLine)
    case EndLine => Number(r.endLine)
  }

  function TextOf(v: Value): string { if v.Text? then v.text else "" }

  function NumberOf(v: Value): int { if v.Number? then v.num else 0 }

  // ---------------------------------------------------------------------------
  // Paths a question is never about
  // ---------------------------------------------------------------------------

  const MARKERS: seq<string> := [
    "/genproto/", "/generated/", ".pb.go", ".pb.cc", ".pb.h", "_pb2.", "_pb2_", "_pb.js", "_pb.d.ts", ".proto",
    "/test/", "/tests/", "/testing/", "/testdata/", "/__tests__/", "/mocks/", "/mock/", "/fixtures/", "/vendor/",
    "/node_modules/", "_test.", ".test.", ".spec."]

  predicate HasMarker(markers: seq<string>, path: string)
  {
    exists i :: 0 <= i < |markers| && Contains("/" + Lower(path), markers[i])
  }

  /** The same judgment as a condition of the statement text. */
  predicate LikeMarker(markers: seq<string>, path: string)
  {
    exists i :: 0 <= i < |markers| && Like("%" + EscapeLike(markers[i]) + "%", Lower("/" + path))
  }

  lemma PenaltyIsMarkers(markers: seq<string>, path: string)
    ensures LikeMarker(markers, path) <==> HasMarker(markers, path)
  {
    LowerConcat("/", path);
    assert Lower("/") == "/";
    forall i | 0 <= i < |markers|
      ensures Like("%" + EscapeLike(markers[i]) + "%", Lower("/" + path)) <==> Contains("/" + Lower(path), markers[i])
    {
      LikeIsContainment(markers[i], Lower("/" + path));
    }
  }

  predicate Penalized(path: string) { HasMarker(MARKERS, path) }

  // ---------------------------------------------------------------------------
  // Conditions
  // ---------------------------------------------------------------------------

  datatype Op = Equal | AtMost | AtLeast | EndsWith

  /** One alternative of a name condition: the folded column equals the folded argument, or is LIKE it. */
  datatype Alt = Alt(col: Column, ph: nat, like: bool)

  /** A condition of the text; `ph` are the numbers of the arguments it binds. */
  datatype Cond =
    | Compare(col: Column, op: Op, ph: nat)
    | Among(col: Column, phs: seq<nat>, negated: bool)
    | AnyOf(alts: seq<Alt>)
    | HandWrittenOnly

  function Arg(args: seq<Value>, ph: nat): Value { if 1 <= ph <= |args| then args[ph - 1] else Text("") }

  predicate Compares(cell: Value, op: Op, v: Value)
  {
    match op
    case Equal => cell == v
    case AtMost => NumberOf(cell) <= NumberOf(v)
    case AtLeast => NumberOf(cell) >= NumberOf(v)
    case EndsWith => HasSuffix(TextOf(cell), TextOf(v))
  }

  predicate AltHolds(a: Alt, r: Row, args: seq<Value>)
  {
    var cell, v := Lower(TextOf(Cell(r, a.col))), Lower(TextOf(Arg(args, a.ph)));
    if a.like then Like(v, cell) else cell == v
  }

  predicate Holds(c: Cond, r: Row, args: seq<Value>)
  {
    match c
    case Compare(col, op, ph) => Compares(Cell(r, col), op, Arg(args, ph))
    case Among(col, phs, negated) => (exists i :: 0 <= i < |phs| && Cell(r, col) == Arg(args, phs[i])) != negated
    case AnyOf(alts) => exists i :: 0 <= i < |alts| && AltHolds(alts[i], r, args)
    case HandWrittenOnly => !LikeMarker(MARKERS, r.file)
  }

  predicate AllHold(cs: seq<Cond>, r: Row, args: seq<Value>) { forall i :: 0 <= i < |cs| ==> Holds(cs[i], r, args) }

  function AltPhs(alts: seq<Alt>): (r: seq<nat>)
    ensures |r| == |alts| && forall i :: 0 <= i < |alts| ==> r[i] == alts[i].ph
  {
    seq(|alts|, i requires 0 <= i < |alts| => alts[i].ph)
  }

  function CondPhs(c: Cond): seq<nat>
  {
    match c
    case Compare(_, _, ph) => [ph]
    case Among(_, phs, _) => phs
    case AnyOf(alts) => AltPhs(alts)
    case HandWrittenOnly => []
  }

  /** The placeholders in the order of the text. */
  function AllPhs(cs: seq<Cond>): seq<nat>
  {
    if cs == [] then [] else AllPhs(cs[..|cs| - 1]) + CondPhs(cs[|cs| - 1])
  }

  function Numbers(a: nat, b: nat): (r: seq<nat>)
    requires a <= b
    ensures |r| == b - a && forall i :: 0 <= i < b - a ==> r[i] == a + 1 + i
  {
    seq(b - a, i requires 0 <= i => a + 1 + i)
  }

  lemma PhsAssociate(x: seq<nat>, y: seq<nat>, z: seq<nat>)
    ensures (x + y) + z == x + (y + z)
  {
  }

  lemma {:induction false} PhsOfConcat(a: seq<Cond>, b: seq<Cond>)
    ensures AllPhs(a + b) == AllPhs(a) + AllPhs(b)
  {
    if b == [] {
      assert a + b == a;
    } else {
      var front, last := b[..|b| - 1], b[|b| - 1];
      assert (a + b)[..|a + b| - 1] == a + front && (a + b)[|a + b| - 1] == last;
      PhsOfConcat(a, front);
      PhsAssociate(AllPhs(a), AllPhs(front), CondPhs(last));
    }
  }

  lemma {:induction false} PhsOfMember(cs: seq<Cond>, i: nat, x: nat)
    requires i < |cs| && x in CondPhs(cs[i])
    ensures x in AllPhs(cs)
  {
    if i < |cs| - 1 {
      PhsOfMember(cs[..|cs| - 1], i, x);
    }
  }

  /** A condition's meaning depends on the arguments it binds only. */
  lemma HoldsStays(c: Cond, r: Row, args: seq<Value>, more: seq<Value>)
    requires args <= more && forall x :: x in CondPhs(c) ==> x <= |args|
    ensures Holds(c, r, args) <==> Holds(c, r, more)
  {
    forall x | x in CondPhs(c) ensures Arg(args, x) == Arg(more, x) {
    }
    match c
    case Compare(_, _, ph) => assert ph in CondPhs(c);
    case Among(_, phs, _) =>
    case AnyOf(alts) =>
      forall i | 0 <= i < |alts| ensures AltHolds(alts[i], r, args) <==> AltHolds(alts[i], r, more) {
        assert AltPhs(alts)[i] in CondPhs(c);
      }
    case HandWrittenOnly =>
  }

  lemma AllHoldStays(cs: seq<Cond>, r: Row, args: seq<Value>, more: seq<Value>)
    requires args <= more && forall x :: x in AllPhs(cs) ==> x <= |args|
    ensures AllHold(cs, r, args) <==> AllHold(cs, r, more)
  {
    forall i | 0 <= i < |cs| ensures Holds(cs[i], r, args) <==> Holds(cs[i], r, more) {
      forall x | x in CondPhs(cs[i]) ensures x <= |args| {
        PhsOfMember(cs, i, x);
      }
      HoldsStays(cs[i], r, args, more);
    }
  }

  // ---------------------------------------------------------------------------
  // Growing
  // ---------------------------------------------------------------------------

  /** From (c0, a0) to (c1, a1) conditions and arguments were only added, each new argument bound once,
      in order, by the new conditions. */
  ghost predicate Adds(c0: seq<Cond>, a0: seq<Value>, c1: seq<Cond>, a1: seq<Value>)
  {
    c0 <= c1 && a0 <= a1 && AllPhs(c1[|c0|..]) == Numbers(|a0|, |a1|)
  }

  /** What the added conditions ask of a row. */
  ghost predicate Asks(c0: seq<Cond>, c1: seq<Cond>, a1: seq<Value>, r: Row)
    requires c0 <= c1
  {
    AllHold(c1[|c0|..], r, a1)
  }

  lemma NumbersConcat(a: nat, b: nat, c: nat)
    requires a <= b <= c
    ensures Numbers(a, b) + Numbers(b, c) == Numbers(a, c)
  {
  }

  lemma AddedTwice(c0: seq<Cond>, c1: seq<Cond>, c2: seq<Cond>)
    requires c0 <= c1 <= c2
    ensures c2[|c0|..] == c1[|c0|..] + c2[|c1|..]
  {
  }

  lemma AddsChain(c0: seq<Cond>, a0: seq<Value>, c1: seq<Cond>, a1: seq<Value>, c2: seq<Cond>, a2: seq<Value>)
    requires Adds(c0, a0, c1, a1) && Adds(c1, a1, c2, a2)
    ensures Adds(c0, a0, c2, a2)
  {
    AddedTwice(c0, c1, c2);
    PhsOfConcat(c1[|c0|..], c2[|c1|..]);
    NumbersConcat(|a0|, |a1|, |a2|);
  }

  lemma AddsCompose(c0: seq<Cond>, a0: seq<Value>, c1: seq<Cond>, a1: seq<Value>, c2: seq<Cond>, a2: seq<Value>)
    requires Adds(c0, a0, c1, a1) && Adds(c1, a1, c2, a2)
    ensures Adds(c0, a0, c2, a2)
    ensures forall r :: Asks(c0, c2, a2, r) <==> Asks(c0, c1, a1, r) && Asks(c1, c2, a2, r)
  {
    AddsChain(c0, a0, c1, a1, c2, a2);
    forall r ensures Asks(c0, c2, a2, r) <==> Asks(c0, c1, a1, r) && Asks(c1, c2, a2, r) {
      AsksBoth(c0, a0, c1, a1, c2, a2, r);
    }
  }

  lemma AsksBoth(c0: seq<Cond>, a0: seq<Value>, c1: seq<Cond>, a1: seq<Value>, c2: seq<Cond>, a2: seq<Value>, r: Row)
    requires Adds(c0, a0, c1, a1) && Adds(c1, a1, c2, a2)
    ensures Asks(c0, c2, a2, r) <==> Asks(c0, c1, a1, r) && Asks(c1, c2, a2, r)
  {
    var x, y := c1[|c0|..], c2[|c1|..];
    AddedTwice(c0, c1, c2);
    AllHoldStays(x, r, a1, a2);
    AllHoldConcat(x, y, r, a2);
  }

  lemma AllHoldConcat(x: seq<Cond>, y: seq<Cond>, r: Row, args: seq<Value>)
    ensures AllHold(x + y, r, args) <==> AllHold(x, r, args) && AllHold(y, r, args)
  {
    assert forall i :: 0 <= i < |x| ==> (x + y)[i] == x[i];
    assert forall i :: 0 <= i < |y| ==> (x + y)[|x| + i] == y[i];
  }

  lemma AddsNothing(c0: seq<Cond>, a0: seq<Value>)
    ensures Adds(c0, a0, c0, a0) && forall r :: Asks(c0, c0, a0, r)
  {
    assert c0[|c0|..] == [];
  }

  lemma AddsOne(c0: seq<Cond>, a0: seq<Value>, c: Cond, a1: seq<Value>)
    requires a0 <= a1 && CondPhs(c) == Numbers(|a0|, |a1|)
    ensures Adds(c0, a0, c0 + [c], a1)
    ensures forall r :: Asks(c0, c0 + [c], a1, r) <==> Holds(c, r, a1)
  {
    assert (c0 + [c])[|c0|..] == [c] && [c][..0] == [];
    assert AllPhs([c]) == [] + CondPhs(c);
  }

  // ---------------------------------------------------------------------------
  // The builder
  // ---------------------------------------------------------------------------

  class Builder {
    var conds: seq<Cond>
    var args: seq<Value>

    constructor ()
      ensures conds == [] && args == []
    {
      conds, args := [], [];
    }

    method Next(v: Value) returns (ph: nat)
      modifies this`args
      ensures args == old(args) + [v] && ph == |args|
    {
      args := args + [v];
      ph := |args|;
    }

    /** Adds a condition binding the arguments registered since a0. */
    method Push(c: Cond, ghost a0: seq<Value>)
      requires a0 <= args && CondPhs(c) == Numbers(|a0|, |args|)
      modifies this`conds
      ensures Adds(old(conds), a0, conds, args) && |conds| == |old(conds)| + 1
      ensures forall r :: Asks(old(conds), conds, args, r) <==> Holds(c, r, args)
    {
      AddsOne(conds, a0, c, args);
      conds := conds + [c];
    }

    /** Eq, Lte and Gte. */
    method Where(col: Column, op: Op, v: Value)
      modifies this
      ensures Adds(old(conds), old(args), conds, args)
      ensures forall r :: Asks(old(conds), conds, args, r) <==> Compares(Cell(r, col), op, v)
    {
      var ph := Next(v);
      Push(Cond.Compare(col, op, ph), old(args));
    }

    method Suffix(col: Column, suffix: string)
      modifies this
      ensures Adds(old(conds), old(args), conds, args)
      ensures forall r :: Asks(old(conds), conds, args, r) <==> (suffix != "" ==> HasSuffix(TextOf(Cell(r, col)), suffix))
    {
      if suffix == "" {
        AddsNothing(conds, args);
        return;
      }
      Where(col, EndsWith, Text(suffix));
    }

    /** Eq, for the callers that filter only by a value they were given. */
    method EqIf(col: Column, v: string)
      modifies this
      ensures Adds(old(conds), old(args), conds, args)
      ensures forall r :: Asks(old(conds), conds, args, r) <==> (v != "" ==> Cell(r, col) == Text(v))
    {
      if v == "" {
        AddsNothing(conds, args);
        return;
      }
      Where(col, Equal, Text(v));
    }

    method BindAll(vals: seq<Value>) returns (phs: seq<nat>)
      modifies this`args
      ensures args == old(args) + vals && phs == Numbers(|old(args)|, |args|)
    {
      phs := [];
      assert old(args) + vals[..0] == old(args);
      for i := 0 to |vals|
        invariant args == old(args) + vals[..i] && phs == Numbers(|old(args)|, |args|)
      {
        var ph := Next(vals[i]);
        assert vals[..i + 1] == vals[..i] + [vals[i]];
        phs := phs + [ph];
      }
      assert vals[..|vals|] == vals;
    }

    /** In and NotIn: nothing for no values. */
    method AmongIf(col: Column, vals: seq<Value>, negated: bool)
      modifies this
      ensures Adds(old(conds), old(args), conds, args)
      ensures forall r :: Asks(old(conds), conds, args, r) <==> (vals != [] ==> (Cell(r, col) in vals) != negated)
    {
      if |vals| == 0 {
        AddsNothing(conds, args);
        return;
      }
      var phs := BindAll(vals);
      Push(Among(col, phs, negated), old(args));
      forall r ensures Holds(Among(col, phs, negated), r, args) <==> (Cell(r, col) in vals) != negated {
        AmongMeans(col, phs, negated, old(args), vals, r);
      }
    }

    method BindEach(cols: seq<Column>, v: Value, like: bool) returns (alts: seq<Alt>)
      modifies this`args
      ensures |alts| == |cols| && args == old(args) + seq(|cols|, _ => v)
      ensures forall j :: 0 <= j < |cols| ==> alts[j] == Alt(cols[j], |old(args)| + 1 + j, like)
    {
      alts := [];
      for i := 0 to |cols|
        invariant |alts| == i && args == old(args) + seq(i, _ => v)
        invariant forall j :: 0 <= j < i ==> alts[j] == Alt(cols[j], |old(args)| + 1 + j, like)
      {
        var ph := Next(v);
        alts := alts + [Alt(cols[i], ph, like)];
      }
    }

    /** EqFold and ContainsFold over the columns: the term as one argument for each of them. */
    method NameTerm(cols: seq<Column>, v: string, like: bool)
      requires cols != []
      modifies this
      ensures Adds(old(conds), old(args), conds, args) && |conds| == |old(conds)| + 1
      ensures forall r :: Asks(old(conds), conds, args, r) <==> AnyMatches(r, cols, v, like)
    {
      var alts := BindEach(cols, Bound(v, like), like);
      assert AltPhs(alts) == Numbers(|old(args)|, |args|);
      Push(AnyOf(alts), old(args));
      forall r ensures Holds(AnyOf(alts), r, args) <==> AnyMatches(r, cols, v, like) {
        AltsMatch(alts, cols, old(args), args, v, like, r);
      }
    }

    method Raw()
      modifies this
      ensures Adds(old(conds), old(args), conds, args)
      ensures forall r :: Asks(old(conds), conds, args, r) <==> !Penalized(r.file)
    {
      Push(HandWrittenOnly, args);
      forall r: Row ensures Holds(HandWrittenOnly, r, args) <==> !Penalized(r.file) {
        PenaltyIsMarkers(MARKERS, r.file);
      }
    }
  }

  lemma AmongMeans(col: Column, phs: seq<nat>, negated: bool, before: seq<Value>, vals: seq<Value>, r: Row)
    requires phs == Numbers(|before|, |before + vals|)
    ensures Holds(Among(col, phs, negated), r, before + vals) <==> (Cell(r, col) in vals) != negated
  {
    forall i | 0 <= i < |phs| ensures Arg(before + vals, phs[i]) == vals[i] {
    }
  }

  /** A name matches a term as written, or contains it, case aside. */
  predicate TermMatches(s: string, v: string, like: bool)
  {
    if like then Contains(Lower(s), Lower(v)) else Lower(s) == Lower(v)
  }

  predicate AnyMatches(r: Row, cols: seq<Column>, v: string, like: bool)
  {
    exists i :: 0 <= i < |cols| && TermMatches(TextOf(Cell(r, cols[i])), v, like)
  }

  function Bound(v: string, like: bool): Value { Text(if like then "%" + EscapeLike(v) + "%" else v) }

  lemma AltMatches(a: Alt, args: seq<Value>, v: string, r: Row)
    requires Arg(args, a.ph) == Bound(v, a.like)
    ensures AltHolds(a, r, args) <==> TermMatches(TextOf(Cell(r, a.col)), v, a.like)
  {
    FoldedLikeIsContainment(v, TextOf(Cell(r, a.col)));
  }

  lemma AltsMatch(alts: seq<Alt>, cols: seq<Column>, before: seq<Value>, args: seq<Value>, v: string, like: bool, r: Row)
    requires |alts| == |cols| && args == before + seq(|cols|, _ => Bound(v, like))
    requires forall j :: 0 <= j < |cols| ==> alts[j] == Alt(cols[j], |before| + 1 + j, like)
    ensures Holds(AnyOf(alts), r, args) <==> AnyMatches(r, cols, v, like)
  {
    forall i | 0 <= i < |cols| ensures AltHolds(alts[i], r, args) <==> TermMatches(TextOf(Cell(r, cols[i])), v, like) {
      assert Arg(args, alts[i].ph) == Bound(v, like);
      AltMatches(alts[i], args, v, r);
    }
  }
}
