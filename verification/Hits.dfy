/** A search result: a line span of one file with a score and the reasons it was found. */
module Hits {
  import opened Wrappers

  datatype Hit = Hit(repo: string, path: string, line: int, endLine: int, symbol: string, score: real, reason: string)

  /** The end of the line span; an indexer that knows only the start leaves endLine zero. */
  function End(h: Hit): (e: int)
    ensures e >= h.line && (h.endLine >= h.line ==> e == h.endLine)
  {
    if h.endLine < h.line then h.line else h.endLine
  }

  predicate Overlaps(a: Hit, b: Hit) { a.repo == b.repo && a.path == b.path && a.line <= End(b) && b.line <= End(a) }

  predicate HasLine(h: Hit, repo: string, path: string, l: int) { h.repo == repo && h.path == path && h.line <= l <= End(h) }

  /** What the rendered keys below stand for. */
  datatype SpanKey = SpanKey(repo: string, path: string, line: int, endLine: int)

  datatype FileKey = FileKey(repo: string, path: string)

  function Key(h: Hit): SpanKey { SpanKey(h.repo, h.path, h.line, h.endLine) }

  function FileOf(h: Hit): FileKey { FileKey(h.repo, h.path) }

  function NonNil(hits: seq<Option<Hit>>): nat
  {
    if hits == [] then 0 else NonNil(hits[..|hits| - 1]) + if hits[|hits| - 1].Some? then 1 else 0
  }

  // ---------------------------------------------------------------------------
  // Places by file
  // ---------------------------------------------------------------------------

  type FileIndex = map<FileKey, seq<nat>>

  function InFile(byFile: FileIndex, key: FileKey): seq<nat> { if key in byFile then byFile[key] else [] }

  ghost predicate Increasing(ns: seq<nat>) { forall a, b :: 0 <= a < b < |ns| ==> ns[a] < ns[b] }

  /** ns lists, in order, at least the places of `key` in `files`. */
  ghost predicate ListsFile(ns: seq<nat>, files: seq<FileKey>, key: FileKey)
  {
    && Increasing(ns) && (forall a :: 0 <= a < |ns| ==> ns[a] < |files|)
    && forall i: nat :: i < |files| && files[i] == key ==> i in ns
  }

  ghost predicate IndexesFiles(byFile: FileIndex, files: seq<FileKey>)
  {
    forall key: FileKey :: ListsFile(InFile(byFile, key), files, key)
  }

  lemma ListGrows(ns: seq<nat>, files: seq<FileKey>, key: FileKey)
    requires ListsFile(ns, files, key)
    ensures ListsFile(ns + [|files|], files + [key], key)
  {
    assert (ns + [|files|])[|ns|] == |files|;
  }

  lemma IndexGrows(byFile: FileIndex, files: seq<FileKey>, file: FileKey)
    requires IndexesFiles(byFile, files)
    ensures IndexesFiles(byFile[file := InFile(byFile, file) + [|files|]], files + [file])
  {
    var next := byFile[file := InFile(byFile, file) + [|files|]];
    forall key: FileKey ensures ListsFile(InFile(next, key), files + [file], key) {
      assert ListsFile(InFile(byFile, key), files, key);
      if key == file {
        ListGrows(InFile(byFile, key), files, key);
      }
    }
  }

  // ---------------------------------------------------------------------------
  // Keys as strings
  // ---------------------------------------------------------------------------

  function Digits(n: nat): string
  {
    if n < 10 then [('0' as int + n) as char] else Digits(n / 10) + [('0' as int + n % 10) as char]
  }

  function Decimal(n: int): string { if n < 0 then "-" + Digits(-n) else Digits(n) }

  function KeyText(h: Hit): string { h.repo + ":" + h.path + ":" + Decimal(h.line) + ":" + Decimal(h.endLine) }

  function FileText(h: Hit): string { h.repo + "\0" + h.path }

  lemma {:induction false} DigitsAreDigits(n: nat)
    ensures Digits(n) != "" && forall c :: c in Digits(n) ==> '0' <= c <= '9'
  {
    if n >= 10 {
      DigitsAreDigits(n / 10);
    }
  }

  lemma {:induction false} DigitsInjective(m: nat, n: nat)
    requires Digits(m) == Digits(n)
    ensures m == n
  {
    DigitsAreDigits(m / 10);
    DigitsAreDigits(n / 10);
    var d, e := Digits(m), Digits(n);
    assert d[|d| - 1] == ('0' as int + m % 10) as char && e[|e| - 1] == ('0' as int + n % 10) as char;
    assert m % 10 == n % 10;
    if m >= 10 || n >= 10 {
      assert m >= 10 ==> d[..|d| - 1] == Digits(m / 10);
      assert n >= 10 ==> e[..|e| - 1] == Digits(n / 10);
      DigitsInjective(m / 10, n / 10);
    }
  }

  lemma DecimalFacts(m: int, n: int)
    ensures ':' !in Decimal(m)
    ensures Decimal(m) == Decimal(n) ==> m == n
  {
    DigitsAreDigits(if m < 0 then -m else m);
    DigitsAreDigits(if n < 0 then -n else n);
    if Decimal(m) == Decimal(n) {
      assert m < 0 <==> n < 0 by {
        assert m < 0 ==> Decimal(m)[0] == '-';
        assert n < 0 ==> Decimal(n)[0] == '-';
        assert m >= 0 ==> Decimal(m)[0] in Digits(m);
        assert n >= 0 ==> Decimal(n)[0] in Digits(n);
      }
      if m < 0 {
        assert Decimal(m)[1..] == Digits(-m) && Decimal(n)[1..] == Digits(-n);
        DigitsInjective(-m, -n);
      } else {
        DigitsInjective(m, n);
      }
    }
  }

  lemma {:induction false} CutFirst(a: string, b: string, c: string, d: string, x: char)
    requires x !in a && x !in c && a + [x] + b == c + [x] + d
    ensures a == c && b == d
  {
    var s, t := a + [x] + b, c + [x] + d;
    assert s[0] == t[0] && s[1..] == t[1..];
    if a == "" || c == "" {
      assert a == c == "";
    } else {
      assert s[1..] == a[1..] + [x] + b && t[1..] == c[1..] + [x] + d;
      CutFirst(a[1..], b, c[1..], d, x);
    }
  }

  lemma {:induction false} CutLast(a: string, b: string, c: string, d: string)
    requires ':' !in b && ':' !in d && a + ":" + b == c + ":" + d
    ensures a == c && b == d
  {
    var s, t := a + ":" + b, c + ":" + d;
    var n := |s| - 1;
    assert s[n] == t[n] && s[..n] == t[..n];
    if b == "" || d == "" {
      assert b == d == "";
      assert s[..n] == a && t[..n] == c;
    } else {
      assert s[..n] == a + ":" + b[..|b| - 1] && t[..n] == c + ":" + d[..|d| - 1];
      CutLast(a, b[..|b| - 1], c, d[..|d| - 1]);
      assert b == b[..|b| - 1] + [s[n]] && d == d[..|d| - 1] + [t[n]];
    }
  }

  /** While repository ids hold no colon, equal strings mean the same span of the same file. */
  lemma KeyTextIsInjective(x: Hit, y: Hit)
    requires ':' !in x.repo && ':' !in y.repo
    ensures KeyText(x) == KeyText(y) <==> Key(x) == Key(y)
  {
    if KeyText(x) == KeyText(y) {
      DecimalFacts(x.line, y.line);
      DecimalFacts(y.line, x.line);
      DecimalFacts(x.endLine, y.endLine);
      DecimalFacts(y.endLine, x.endLine);
      CutLast(x.repo + ":" + x.path + ":" + Decimal(x.line), Decimal(x.endLine), y.repo + ":" + y.path + ":" + Decimal(y.line), Decimal(y.endLine));
      CutLast(x.repo + ":" + x.path, Decimal(x.line), y.repo + ":" + y.path, Decimal(y.line));
      CutFirst(x.repo, x.path, y.repo, y.path, ':');
    }
  }

  lemma FileTextIsInjective(x: Hit, y: Hit)
    requires '\0' !in x.repo && '\0' !in y.repo
    ensures FileText(x) == FileText(y) <==> FileOf(x) == FileOf(y)
  {
    if FileText(x) == FileText(y) {
      CutFirst(x.repo, x.path, y.repo, y.path, '\0');
    }
  }
}
