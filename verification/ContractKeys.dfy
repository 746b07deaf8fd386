/** Contract join keys: how an HTTP route or a topic becomes a key, and how the linker reads it back. */
module ContractKeys {
  import opened Wrappers
  import opened Strings

  // ---------------------------------------------------------------------------
  // Topics
  // ---------------------------------------------------------------------------

  const TOPIC_PREFIX := "topic:"
  const TOPIC_REF_PREFIX := "topic:${"

  function Topic(name: string): string { TOPIC_PREFIX + name }

  /** The REF of an unresolved reference "topic:${REF}". */
  function ParseTopicRef(key: string): (ref: Option<string>)
    ensures ref.Some? <==> HasPrefix(key, TOPIC_REF_PREFIX) && HasSuffix(key, "}")
  {
    if HasPrefix(key, TOPIC_REF_PREFIX) && HasSuffix(key, "}") then
      assert key[|TOPIC_REF_PREFIX| - 1] == '{' && key[|key| - 1] == '}';
      Some(key[|TOPIC_REF_PREFIX|..|key| - 1])
    else None
  }

  // ---------------------------------------------------------------------------
  // Path parameters
  // ---------------------------------------------------------------------------

  predicate IsPathParam(seg: string)
  {
    seg != "" && (seg[0] in "{:[<" || seg == "*" || seg == "**")
  }

  /** The text of a segment outside its brace groups, each outermost group reduced to "{}". */
  function Scan(seg: string, depth: nat): string
  {
    if seg == "" then ""
    else if seg[0] == '{' then (if depth == 0 then "{}" else "") + Scan(seg[1..], depth + 1)
    else if seg[0] == '}' then Scan(seg[1..], if depth > 0 then depth - 1 else 0)
    else (if depth == 0 then [seg[0]] else "") + Scan(seg[1..], depth)
  }

  function Reduced(seg: string): string
  {
    if seg == "" then seg
    else if seg[0] in ":<[" || seg == "*" || seg == "**" then "{}"
    else if '{' !in seg then seg
    else Scan(seg, 0)
  }

  function ReducedAll(segs: seq<string>): (r: seq<string>)
    ensures |r| == |segs| && forall i :: 0 <= i < |segs| ==> r[i] == Reduced(segs[i])
  {
    seq(|segs|, i requires 0 <= i < |segs| => Reduced(segs[i]))
  }

  function ReducedPath(path: string): string { Join(ReducedAll(Split(path, '/')), '/') }

  /** What a parameter is replaced by: a segment that is one is "{}", text outside braces stays, and a group in
      braces, whatever is nested in it, is "{}". */
  lemma SegmentReduces(seg: string)
    ensures seg != "" && seg[0] in ":<[" ==> Reduced(seg) == "{}"
    ensures seg == "*" || seg == "**" ==> Reduced(seg) == "{}"
    ensures '{' !in seg && !(seg != "" && seg[0] in ":<[") && seg != "*" && seg != "**" ==> Reduced(seg) == seg
    ensures '{' in seg && seg[0] !in ":<[" ==> Reduced(seg) == Scan(seg, 0)
  {
  }

  lemma {:induction false} TextStays(a: string, rest: string)
    requires '{' !in a && '}' !in a
    ensures Scan(a + rest, 0) == a + Scan(rest, 0)
  {
    if a == "" {
      assert a + rest == rest;
    } else {
      TextStays(a[1..], rest);
      assert (a + rest)[0] == a[0] && (a + rest)[1..] == a[1..] + rest;
      assert a[0] in a;
    }
  }

  lemma {:induction false} InsideGoes(a: string, rest: string, depth: nat)
    requires '{' !in a && '}' !in a && depth > 0
    ensures Scan(a + rest, depth) == Scan(rest, depth)
  {
    if a == "" {
      assert a + rest == rest;
    } else {
      InsideGoes(a[1..], rest, depth);
      assert (a + rest)[0] == a[0] && (a + rest)[1..] == a[1..] + rest;
      assert a[0] in a;
    }
  }

  lemma BracesCount(rest: string, depth: nat)
    ensures Scan("{" + rest, depth) == (if depth == 0 then "{}" else "") + Scan(rest, depth + 1)
    ensures Scan("}" + rest, depth + 1) == Scan(rest, depth)
  {
    assert ("{" + rest)[1..] == rest && ("}" + rest)[1..] == rest;
  }

  lemma GroupReduces(text: string, name: string, rest: string)
    requires '{' !in text && '}' !in text && '{' !in name && '}' !in name
    ensures Scan(text + ("{" + (name + ("}" + rest))), 0) == text + ("{}" + Scan(rest, 0))
  {
    TextStays(text, "{" + (name + ("}" + rest)));
    BracesCount(name + ("}" + rest), 0);
    InsideGoes(name, "}" + rest, 1);
    BracesCount(rest, 0);
  }

  lemma ScanCons(seg: string, i: nat, depth: nat)
    requires i < |seg|
    ensures seg[i..] == [seg[i]] + seg[i + 1..]
  {
  }

  method ReduceSegment(seg: string) returns (r: string)
    ensures r == Reduced(seg)
  {
    if seg == "" {
      return seg;
    }
    if seg[0] in ":<[" {
      return "{}";
    }
    if seg == "*" || seg == "**" {
      return "{}";
    }
    if '{' !in seg {
      return seg;
    }
    r := "";
    var depth := 0;
    for i := 0 to |seg|
      invariant 0 <= depth
      invariant r + Scan(seg[i..], depth) == Scan(seg, 0)
    {
      ScanCons(seg, i, depth);
      if seg[i] == '{' {
        if depth == 0 {
          r := r + "{}";
        }
        depth := depth + 1;
      } else if seg[i] == '}' {
        if depth > 0 {
          depth := depth - 1;
        }
      } else if depth == 0 {
        r := r + [seg[i]];
      }
    }
  }

  method ReducePath(path: string) returns (r: string)
    ensures r == ReducedPath(path)
  {
    if forall i :: 0 <= i < |path| ==> path[i] !in "{:<[*" {
      PlainPathReduces(path);
      return path;
    }
    var segs := Split(path, '/');
    var out: seq<string> := [];
    for i := 0 to |segs|
      invariant out == ReducedAll(segs)[..i]
    {
      var s := ReduceSegment(segs[i]);
      out := out + [s];
    }
    assert out == ReducedAll(segs);
    r := Join(out, '/');
  }

  lemma {:induction false} SplitKeepsChars(s: string, c: char, chars: set<char>)
    requires forall i :: 0 <= i < |s| ==> s[i] !in chars
    ensures forall k, i :: 0 <= k < |Split(s, c)| && 0 <= i < |Split(s, c)[k]| ==> Split(s, c)[k][i] !in chars
  {
    if s != "" {
      SplitKeepsChars(s[1..], c, chars);
    }
  }

  lemma PlainPathReduces(path: string)
    requires forall i :: 0 <= i < |path| ==> path[i] !in "{:<[*"
    ensures ReducedPath(path) == path
  {
    SplitKeepsChars(path, '/', {'{', ':', '<', '[', '*'});
    var segs := Split(path, '/');
    forall k | 0 <= k < |segs| ensures Reduced(segs[k]) == segs[k] {
      assert segs[k] != "" ==> segs[k][0] !in {'{', ':', '<', '[', '*'};
    }
    assert ReducedAll(segs) == segs;
    JoinOfSplit(path, '/');
  }

  // ---------------------------------------------------------------------------
  // When reduction is idempotent
  // ---------------------------------------------------------------------------

  lemma {:induction false} ScanIsStable(seg: string, depth: nat)
    ensures Scan(Scan(seg, depth), 0) == Scan(seg, depth)
  {
    if seg != "" {
      var rest := Scan(seg[1..], if seg[0] == '{' then depth + 1 else if seg[0] == '}' then (if depth > 0 then depth - 1 else 0) else depth);
      ScanIsStable(seg[1..], if seg[0] == '{' then depth + 1 else if seg[0] == '}' then (if depth > 0 then depth - 1 else 0) else depth);
      if seg[0] == '{' && depth == 0 {
        assert ("{}" + rest)[1..] == "}" + rest;
        assert ("}" + rest)[1..] == rest;
        assert Scan("{}" + rest, 0) == "{}" + Scan("}" + rest, 1);
      } else if seg[0] != '{' && seg[0] != '}' && depth == 0 {
        assert ([seg[0]] + rest)[1..] == rest;
      } else {
        assert Scan(seg, depth) == rest;
      }
    }
  }

  function SkipClosers(seg: string): string
  {
    if seg != "" && seg[0] == '}' then SkipClosers(seg[1..]) else seg
  }

  lemma {:induction false} ScanSkipsClosers(seg: string)
    ensures Scan(seg, 0) == Scan(SkipClosers(seg), 0)
    ensures '{' in seg <==> '{' in SkipClosers(seg)
    ensures SkipClosers(seg) != "" ==> SkipClosers(seg)[0] != '}'
  {
    if seg != "" && seg[0] == '}' {
      ScanSkipsClosers(seg[1..]);
      assert seg == [seg[0]] + seg[1..];
    }
  }

  /** The one family reduction does not settle in a single pass: stray closers in front of a
      whole-segment parameter marker, in a segment that also has a brace group. */
  predicate HidesMarker(seg: string)
  {
    && seg != "" && seg[0] == '}' && '{' in seg
    && SkipClosers(seg) != "" && SkipClosers(seg)[0] in ":<["
  }

  lemma {:induction false} ScanKeepsBrace(seg: string)
    requires '{' in seg
    ensures '{' in Scan(seg, 0)
  {
    if seg[0] != '{' {
      assert seg == [seg[0]] + seg[1..];
      ScanKeepsBrace(seg[1..]);
    }
  }

  lemma ReductionIsIdempotent(seg: string)
    ensures Reduced(Reduced(seg)) == Reduced(seg) <==> !HidesMarker(seg)
  {
    assert Scan("}", 1) == Scan("", 0) && Scan("{}", 0) == "{}" + Scan("}", 1) && Reduced("{}") == "{}";
    if seg != "" && seg[0] !in ":<[" && '{' in seg {
      var out := Scan(seg, 0);
      ScanIsStable(seg, 0);
      ScanSkipsClosers(seg);
      ScanKeepsBrace(seg);
      var open := SkipClosers(seg);
      assert out == Scan(open, 0);
      assert open != "" && (open[0] == '{' ==> out[0] == '{') && (open[0] != '{' ==> out[0] == open[0]);
      assert '{' in out && out != "*" && out != "**";
    }
  }

  /** Some closer stands outside every brace group. */
  predicate Closes(seg: string, depth: nat)
  {
    seg != "" &&
    ((seg[0] == '}' && depth == 0)
     || Closes(seg[1..], if seg[0] == '{' then depth + 1 else if seg[0] == '}' && depth > 0 then depth - 1 else depth))
  }

  /** In particular reduction is idempotent on every segment without such a closer. */
  lemma BalancedReductionIsIdempotent(seg: string)
    requires !Closes(seg, 0)
    ensures Reduced(Reduced(seg)) == Reduced(seg)
  {
    ReductionIsIdempotent(seg);
  }

  // ---------------------------------------------------------------------------
  // HTTP keys
  // ---------------------------------------------------------------------------

  const HTTP_PREFIX := "http:"
  const SPACES := {' ', '\t', '\n', '\U{0B}', '\U{0C}', '\r'}

  function TrimQuery(path: string): string { path[..IndexAny(path, {'?', '#'})] }

  /** The method a key is stored under: trimmed, upper-case, "ANY" when there is none. */
  function NormMethod(method_: string): string
  {
    var m := Upper(Trim(method_, SPACES));
    if m == "" then "ANY" else m
  }

  /** The path a key is built from: one leading slash, no trailing one, no query. */
  function NormPath(path: string): string { "/" + Trim(TrimQuery(Trim(path, SPACES)), {'/'}) }

  function HTTP(method_: string, path: string): string
  {
    HTTP_PREFIX + NormMethod(method_) + " " + ReducedPath(NormPath(path))
  }

  datatype Route = Route(verb: string, path: string)

  function ParseHTTP(key: string): Option<Route>
  {
    if !HasPrefix(key, HTTP_PREFIX) then None
    else
      var rest := key[|HTTP_PREFIX|..];
      var i := IndexAny(rest, {' '});
      if i == |rest| then None else Some(Route(rest[..i], TrimQuery(rest[i + 1..])))
  }

  lemma {:induction false} IndexAnyOfConcat(a: string, x: char, b: string, chars: set<char>)
    requires x in chars && forall i :: 0 <= i < |a| ==> a[i] !in chars
    ensures IndexAny(a + [x] + b, chars) == |a|
  {
    if a == "" {
      assert a + [x] + b == [x] + b;
    } else {
      IndexAnyOfConcat(a[1..], x, b, chars);
      assert (a + [x] + b)[1..] == a[1..] + [x] + b;
    }
  }

  lemma {:induction false} ScanKeepsFree(seg: string, depth: nat, chars: set<char>)
    requires '{' !in chars && '}' !in chars && forall i :: 0 <= i < |seg| ==> seg[i] !in chars
    ensures forall i :: 0 <= i < |Scan(seg, depth)| ==> Scan(seg, depth)[i] !in chars
  {
    if seg != "" {
      ScanKeepsFree(seg[1..], if seg[0] == '{' then depth + 1 else if seg[0] == '}' then (if depth > 0 then depth - 1 else 0) else depth, chars);
    }
  }

  lemma {:induction false} JoinKeepsFree(parts: seq<string>, c: char, chars: set<char>)
    requires c !in chars && forall k, i :: 0 <= k < |parts| && 0 <= i < |parts[k]| ==> parts[k][i] !in chars
    ensures forall i :: 0 <= i < |Join(parts, c)| ==> Join(parts, c)[i] !in chars
  {
    if |parts| > 1 {
      forall k, i | 0 <= k < |parts[1..]| && 0 <= i < |parts[1..][k]| ensures parts[1..][k][i] !in chars {
        assert parts[1..][k] == parts[k + 1];
      }
      JoinKeepsFree(parts[1..], c, chars);
    }
  }

  lemma ReducedPathKeepsFree(path: string, chars: set<char>)
    requires chars !! {'{', '}', '/'} && forall i :: 0 <= i < |path| ==> path[i] !in chars
    ensures forall i :: 0 <= i < |ReducedPath(path)| ==> ReducedPath(path)[i] !in chars
  {
    var segs := Split(path, '/');
    SplitKeepsChars(path, '/', chars);
    forall k, i | 0 <= k < |segs| && 0 <= i < |Reduced(segs[k])| ensures Reduced(segs[k])[i] !in chars {
      ScanKeepsFree(segs[k], 0, chars);
    }
    JoinKeepsFree(ReducedAll(segs), '/', chars);
  }

  lemma {:induction false} NoIndexAny(s: string, chars: set<char>)
    requires forall i :: 0 <= i < |s| ==> s[i] !in chars
    ensures IndexAny(s, chars) == |s|
  {
    if s != "" {
      NoIndexAny(s[1..], chars);
    }
  }

  lemma NormPathHasNoQuery(path: string)
    ensures forall i :: 0 <= i < |NormPath(path)| ==> NormPath(path)[i] !in {'?', '#'}
  {
    var trimmed := Trim(path, SPACES);
    var cut := TrimQuery(trimmed);
    assert forall x :: x in cut ==> x !in {'?', '#'};
    TrimKeepsChars(cut, {'/'});
    TrimKeepsChars(TrimLeft(cut, {'/'}), {'/'});
    forall i | 0 <= i < |NormPath(path)| ensures NormPath(path)[i] !in {'?', '#'} {
      if i > 0 {
        assert NormPath(path)[i] == Trim(cut, {'/'})[i - 1] && Trim(cut, {'/'})[i - 1] in Trim(cut, {'/'});
      }
    }
  }

  /** A verb without blanks around it is kept in upper case, a missing one is "ANY". */
  lemma VerbIs(verb: string)
    ensures verb != "" && verb[0] !in SPACES && verb[|verb| - 1] !in SPACES ==> NormMethod(verb) == Upper(verb)
    ensures (forall i :: 0 <= i < |verb| ==> verb[i] in SPACES) ==> NormMethod(verb) == "ANY"
  {
    if forall i :: 0 <= i < |verb| ==> verb[i] in SPACES {
      BlankTrims(verb);
    }
  }

  lemma {:induction false} BlankTrims(s: string)
    requires forall i :: 0 <= i < |s| ==> s[i] in SPACES
    ensures TrimLeft(s, SPACES) == ""
  {
    if s != "" {
      BlankTrims(s[1..]);
    }
  }

  lemma CutAtSpace(m: string, p: string)
    ensures var rest, i := m + [' '] + p, IndexAny(m + [' '] + p, {' '});
            i < |rest| && if ' ' in m then |rest[..i]| < |m| else rest[..i] == m && rest[i + 1..] == p
  {
    var rest := m + [' '] + p;
    assert rest[|m|] == ' ';
    if ' ' in m {
      var j :| 0 <= j < |m| && m[j] == ' ';
      assert rest[j] == ' ';
    } else {
      IndexAnyOfConcat(m, ' ', p, {' '});
    }
  }

  /** Reading a built key back gives the normalised method and the reduced path exactly when the
      normalised method has no space in it. */
  lemma HTTPRoundTrip(verb: string, path: string)
    ensures ParseHTTP(HTTP(verb, path)) == Some(Route(NormMethod(verb), ReducedPath(NormPath(path)))) <==> ' ' !in NormMethod(verb)
  {
    var m, p := NormMethod(verb), ReducedPath(NormPath(path));
    var rest := HTTP(verb, path)[|HTTP_PREFIX|..];
    assert rest == m + [' '] + p;
    CutAtSpace(m, p);
    if ' ' !in m {
      NormPathHasNoQuery(path);
      ReducedPathKeepsFree(NormPath(path), {'?', '#'});
      NoIndexAny(p, {'?', '#'});
      assert TrimQuery(p) == p;
    }
  }
}
