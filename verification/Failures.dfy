/** Pinning an indexer's failures on files from its error entries, and when that goes wrong. */
module Failures {
  import opened Wrappers

  datatype File = File(path: string, content: string)

  function Paths(batch: seq<File>): set<string> { set f | f in batch :: f.path }

  /** Where the first ": " starts, or the length. */
  function CutAt(e: string): (i: nat)
    ensures i <= |e|
    ensures i < |e| ==> i + 1 < |e| && e[i] == ':' && e[i + 1] == ' '
    ensures forall j :: 0 <= j < i && j + 1 < |e| ==> !(e[j] == ':' && e[j + 1] == ' ')
  {
    if |e| < 2 then |e|
    else if e[0] == ':' && e[1] == ' ' then 0
    else 1 + CutAt(e[1..])
  }

  /** The path an error entry names, if it has the form "path: message" for a file of the batch. */
  function NamedBy(e: string, known: set<string>): Option<string>
  {
    if CutAt(e) < |e| && e[..CutAt(e)] in known then Some(e[..CutAt(e)]) else None
  }

  function CountNamed(errs: seq<string>, known: set<string>): nat
  {
    if errs == [] then 0
    else CountNamed(errs[..|errs| - 1], known) + if NamedBy(errs[|errs| - 1], known).Some? then 1 else 0
  }

  function Named(errs: seq<string>, known: set<string>): set<string>
  {
    set e | e in errs && NamedBy(e, known).Some? :: NamedBy(e, known).value
  }

  /** What one indexer's report marks as failed: the files it names, or the whole batch when it counts
      more failures than it names. */
  function Marked(filesFailed: nat, errs: seq<string>, known: set<string>): set<string>
  {
    if CountNamed(errs, known) < filesFailed then known else Named(errs, known)
  }

  method AttributeFailures(errs: seq<string>, batch: seq<File>, failed: set<string>) returns (attributed: nat, failed': set<string>)
    ensures attributed == CountNamed(errs, Paths(batch)) && failed' == failed + Named(errs, Paths(batch))
  {
    var known := Paths(batch);
    attributed, failed' := 0, failed;
    for i := 0 to |errs|
      invariant attributed == CountNamed(errs[..i], known) && failed' == failed + Named(errs[..i], known)
    {
      assert errs[..i + 1][..i] == errs[..i];
      NamedNext(errs, i, known);
      var cut := CutAt(errs[i]);
      if cut == |errs[i]| || errs[i][..cut] !in known {
        continue;
      }
      failed' := failed' + {errs[i][..cut]};
      attributed := attributed + 1;
    }
    assert errs[..|errs|] == errs;
  }

  lemma NamedNext(errs: seq<string>, i: nat, known: set<string>)
    requires i < |errs|
    ensures Named(errs[..i + 1], known) ==
              Named(errs[..i], known) + if NamedBy(errs[i], known).Some? then {NamedBy(errs[i], known).value} else {}
  {
    forall e ensures e in errs[..i + 1] <==> e in errs[..i] || e == errs[i] {
      assert errs[..i + 1] == errs[..i] + [errs[i]];
    }
  }

  lemma {:induction false} CutOfPrefixed(p: string, rest: string)
    ensures CutAt(p + ": " + rest) == if CutAt(p) < |p| then CutAt(p) else |p|
    decreases |p|
  {
    var e := p + ": " + rest;
    if |p| == 0 {
      assert e[0] == ':' && e[1] == ' ';
    } else {
      assert e[1..] == p[1..] + ": " + rest;
      CutOfPrefixed(p[1..], rest);
      if |p| == 1 {
        assert e[1] == ':';
      } else {
        assert e[0] == p[0] && e[1] == p[1];
      }
    }
  }

  /** A file whose own name starts with another batch file's name and ": ". */
  predicate Shadowed(p: string, known: set<string>) { CutAt(p) < |p| && p[..CutAt(p)] in known }

  lemma NamesItself(p: string, msg: string, known: set<string>)
    requires p in known
    ensures CutAt(p) == |p| ==> NamedBy(p + ": " + msg, known) == Some(p)
    ensures CutAt(p) < |p| && !Shadowed(p, known) ==> NamedBy(p + ": " + msg, known) == None
    ensures Shadowed(p, known) ==> NamedBy(p + ": " + msg, known) == Some(p[..CutAt(p)])
  {
    CutOfPrefixed(p, msg);
    var e := p + ": " + msg;
    assert e[..|p|] == p;
    if CutAt(p) < |p| {
      assert e[..CutAt(p)] == p[..CutAt(p)];
    }
  }

  /** A single failure is pinned on its own file, or on the whole batch, exactly when the file's name
      is not shadowed; otherwise another file is marked and the broken one is recorded as indexed. */
  lemma FailureIsMarkedIff(p: string, msg: string, known: set<string>)
    requires p in known
    ensures p in Marked(1, [p + ": " + msg], known) <==> !Shadowed(p, known)
  {
    NamesItself(p, msg, known);
    var errs := [p + ": " + msg];
    assert errs[..0] == [] && CountNamed(errs, known) == if NamedBy(errs[0], known).Some? then 1 else 0;
    assert errs[0] in errs;
    assert forall e :: e in errs ==> e == errs[0];
  }

  /** A failure of a file whose name has no ": " in it marks that file and no other. */
  lemma OnlyItIsMarked(p: string, msg: string, known: set<string>)
    requires p in known && forall j :: 0 <= j < |p| - 1 ==> !(p[j] == ':' && p[j + 1] == ' ')
    ensures Marked(1, [p + ": " + msg], known) == {p}
  {
    NamesItself(p, msg, known);
    var errs := [p + ": " + msg];
    assert errs[..0] == [] && CountNamed(errs, known) == 1;
    assert errs[0] in errs && forall e :: e in errs ==> e == errs[0];
  }

  /** Of the files "a" and "a: b", the failure of the second is pinned on the first. */
  lemma ShadowedFailureGoesAstray()
    ensures "a: b" !in Marked(1, ["a: b: broke"], {"a", "a: b"}) && "a" in Marked(1, ["a: b: broke"], {"a", "a: b"})
  {
    var p, known := "a: b", {"a", "a: b"};
    assert CutAt(p[1..]) == 0 && p[..1] == "a" && p[0] == 'a';
    assert CutAt(p) == 1 && Shadowed(p, known);
    assert p + ": " + "broke" == "a: b: broke";
    FailureIsMarkedIff(p, "broke", known);
    NamesItself(p, "broke", known);
    var errs := ["a: b: broke"];
    assert errs[..0] == [] && CountNamed(errs, known) == 1;
    assert errs[0] in errs;
  }

  /** What an indexer counts: one event for each failure, about a broken file or about no file in
      particular, of which at most the first ones got an entry.  A file may break more than once. */
  ghost predicate Reports(errs: seq<string>, broken: set<string>, filesFailed: nat)
  {
    exists about: seq<Option<string>>, msgs: seq<string> :: Accounts(errs, broken, filesFailed, about, msgs)
  }

  ghost predicate Accounts(errs: seq<string>, broken: set<string>, filesFailed: nat, about: seq<Option<string>>, msgs: seq<string>)
  {
    && |about| == |msgs| == filesFailed && |errs| <= filesFailed
    && (forall i :: 0 <= i < |errs| && about[i].Some? ==> errs[i] == about[i].value + ": " + msgs[i])
    && (forall p :: p in broken ==> Some(p) in about)
  }

  ghost predicate NoneShadowed(known: set<string>) { forall p :: p in known ==> !Shadowed(p, known) }

  lemma {:induction false} CountsAtMost(errs: seq<string>, known: set<string>)
    ensures CountNamed(errs, known) <= |errs|
    ensures CountNamed(errs, known) == |errs| ==> forall i :: 0 <= i < |errs| ==> NamedBy(errs[i], known).Some?
  {
    if errs != [] {
      CountsAtMost(errs[..|errs| - 1], known);
    }
  }

  /** Without shadowed names no broken file escapes: all are named, or everything is marked. */
  lemma EveryFailureIsMarked(errs: seq<string>, broken: set<string>, filesFailed: nat, known: set<string>)
    requires Reports(errs, broken, filesFailed) && broken <= known && NoneShadowed(known)
    ensures broken <= Marked(filesFailed, errs, known)
  {
    CountsAtMost(errs, known);
    if CountNamed(errs, known) >= filesFailed {
      var about: seq<Option<string>>, msgs: seq<string> :| Accounts(errs, broken, filesFailed, about, msgs);
      forall p | p in broken ensures p in Named(errs, known) {
        assert Some(p) in about;
        var i :| 0 <= i < |about| && about[i] == Some(p);
        NamesItself(p, msgs[i], known);
        assert errs[i] in errs && NamedBy(errs[i], known) == Some(p);
      }
    }
  }
}
