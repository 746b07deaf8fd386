/** The few functions of Go's `strings` package the model needs, over sequences of ASCII characters,
    with the facts about splitting, trimming and comparing that the proofs rest on. */
module Strings {

  // ---------------------------------------------------------------------------
  // Case
  // ---------------------------------------------------------------------------

  function LowerChar(c: char): char { if 'A' <= c <= 'Z' then c + 32 as char else c }

  function UpperChar(c: char): char { if 'a' <= c <= 'z' then c - 32 as char else c }

  function Lower(s: string): (r: string)
    ensures |r| == |s| && forall i :: 0 <= i < |s| ==> r[i] == LowerChar(s[i])
  {
    seq(|s|, i requires 0 <= i < |s| => LowerChar(s[i]))
  }

  function Upper(s: string): (r: string)
    ensures |r| == |s| && forall i :: 0 <= i < |s| ==> r[i] == UpperChar(s[i])
  {
    seq(|s|, i requires 0 <= i < |s| => UpperChar(s[i]))
  }

  predicate EqualFold(a: string, b: string) { Lower(a) == Lower(b) }

  // ---------------------------------------------------------------------------
  // Lexicographic order
  // ---------------------------------------------------------------------------

  predicate Less(a: string, b: string)
  {
    b != "" && (a == "" || a[0] < b[0] || (a[0] == b[0] && Less(a[1..], b[1..])))
  }

  /** The first difference decides, and a proper prefix comes first. */
  lemma {:induction false} LessIs(a: string, b: string)
    ensures Less(a, b) <==>
              exists i :: 0 <= i <= |a| && i < |b| && a[..i] == b[..i] && (i == |a| || a[i] < b[i])
  {
    if a != "" && b != "" && a[0] == b[0] {
      LessIs(a[1..], b[1..]);
      if i :| 0 <= i <= |a[1..]| && i < |b[1..]| && a[1..][..i] == b[1..][..i] && (i == |a[1..]| || a[1..][i] < b[1..][i]) {
        assert a[..i + 1] == [a[0]] + a[1..][..i] && b[..i + 1] == [b[0]] + b[1..][..i];
      }
      if i :| 0 <= i <= |a| && i < |b| && a[..i] == b[..i] && (i == |a| || a[i] < b[i]) {
        assert i > 0 && a[1..][..i - 1] == a[..i][1..] && b[1..][..i - 1] == b[..i][1..];
      }
    } else if b != "" && (a == "" || a[0] < b[0]) {
      assert a[..0] == b[..0];
    } else if a != "" && b != "" {
      forall i | 0 < i <= |a| && i < |b| ensures a[..i] != b[..i] {
        assert a[..i][0] == a[0] && b[..i][0] == b[0];
      }
    }
  }

  lemma LessIsStrict(a: string, b: string)
    ensures !(Less(a, b) && Less(b, a))
    ensures !Less(a, a)
  {
  }

  lemma {:induction false} LessTotal(a: string, b: string)
    ensures Less(a, b) || Less(b, a) || a == b
  {
    if a != "" && b != "" && a[0] == b[0] {
      LessTotal(a[1..], b[1..]);
      assert a == [a[0]] + a[1..] && b == [b[0]] + b[1..];
    }
  }

  lemma LessTransitive(a: string, b: string, c: string)
    requires Less(a, b) && Less(b, c)
    ensures Less(a, c)
  {
  }

  // ---------------------------------------------------------------------------
  // Split and Join on one character
  // ---------------------------------------------------------------------------

  function Split(s: string, c: char): (r: seq<string>)
    ensures |r| >= 1
    ensures forall i :: 0 <= i < |r| ==> c !in r[i]
  {
    if s == "" then [""]
    else if s[0] == c then [""] + Split(s[1..], c)
    else
      var rest := Split(s[1..], c);
      [[s[0]] + rest[0]] + rest[1..]
  }

  function Join(parts: seq<string>, c: char): string
  {
    if parts == [] then ""
    else if |parts| == 1 then parts[0]
    else parts[0] + [c] + Join(parts[1..], c)
  }

  lemma {:induction false} SplitPrefix(p: string, s: string, c: char)
    requires c !in p
    ensures Split(p + s, c) == [p + Split(s, c)[0]] + Split(s, c)[1..]
  {
    if p == "" {
      assert p + s == s && p + Split(s, c)[0] == Split(s, c)[0];
    } else {
      SplitPrefix(p[1..], s, c);
      assert (p + s)[1..] == p[1..] + s;
      assert p[0] in p;
      assert [p[0]] + (p[1..] + Split(s, c)[0]) == p + Split(s, c)[0];
    }
  }

  lemma {:induction false} SplitOfJoin(parts: seq<string>, c: char)
    requires parts != [] && forall i :: 0 <= i < |parts| ==> c !in parts[i]
    ensures Split(Join(parts, c), c) == parts
  {
    if |parts| == 1 {
      SplitPrefix(parts[0], "", c);
      assert parts[0] + "" == parts[0];
    } else {
      var rest := [c] + Join(parts[1..], c);
      SplitOfJoin(parts[1..], c);
      assert rest[1..] == Join(parts[1..], c);
      SplitPrefix(parts[0], rest, c);
      assert parts[0] + [c] + Join(parts[1..], c) == parts[0] + rest;
      assert parts[0] + "" == parts[0];
    }
  }

  lemma {:induction false} JoinOfSplit(s: string, c: char)
    ensures Join(Split(s, c), c) == s
  {
    if s != "" {
      JoinOfSplit(s[1..], c);
      var rest := Split(s[1..], c);
      if s[0] == c {
        assert Split(s, c)[1..] == rest;
        assert s == [c] + s[1..];
      } else {
        assert Split(s, c)[1..] == rest[1..];
        assert s == [s[0]] + s[1..];
      }
    }
  }

  /** Appending the separator opens a new empty part. */
  lemma {:induction false} SplitSnocSeparator(s: string, c: char)
    ensures Split(s + [c], c) == Split(s, c) + [""]
  {
    if s == "" {
      assert s + [c] == [c] && [c][1..] == "";
    } else {
      SplitSnocSeparator(s[1..], c);
      assert (s + [c])[1..] == s[1..] + [c];
    }
  }

  // ---------------------------------------------------------------------------
  // Trim
  // ---------------------------------------------------------------------------

  function TrimLeft(s: string, cut: set<char>): string
  {
    if s != "" && s[0] in cut then TrimLeft(s[1..], cut) else s
  }

  function TrimRight(s: string, cut: set<char>): string
  {
    if s != "" && s[|s| - 1] in cut then TrimRight(s[..|s| - 1], cut) else s
  }

  function Trim(s: string, cut: set<char>): string { TrimRight(TrimLeft(s, cut), cut) }

  lemma TrimKeepsChars(s: string, cut: set<char>)
    ensures forall x :: x in TrimLeft(s, cut) ==> x in s
    ensures forall x :: x in TrimRight(s, cut) ==> x in s
  {
  }

  /** Leading separators are leading empty parts. */
  function DropLead(parts: seq<string>): seq<string>
  {
    if |parts| > 1 && parts[0] == "" then DropLead(parts[1..]) else parts
  }

  function DropTrail(parts: seq<string>): seq<string>
  {
    if |parts| > 1 && parts[|parts| - 1] == "" then DropTrail(parts[..|parts| - 1]) else parts
  }

  lemma {:induction false} SplitTrimLeft(s: string, c: char)
    ensures Split(TrimLeft(s, {c}), c) == DropLead(Split(s, c))
  {
    if s != "" && s[0] == c {
      SplitTrimLeft(s[1..], c);
      assert Split(s, c)[1..] == Split(s[1..], c);
    }
  }

  lemma {:induction false} LastPartNotEmpty(s: string, c: char)
    requires s != "" && s[|s| - 1] != c
    ensures Split(s, c)[|Split(s, c)| - 1] != ""
  {
    if |s| > 1 {
      LastPartNotEmpty(s[1..], c);
    }
  }

  lemma {:induction false} SplitTrimRight(s: string, c: char)
    ensures Split(TrimRight(s, {c}), c) == DropTrail(Split(s, c))
  {
    if s != "" {
      var front, x := s[..|s| - 1], s[|s| - 1];
      assert s == front + [x];
      if x == c {
        SplitSnocSeparator(front, c);
        SplitTrimRight(front, c);
        assert Split(s, c)[..|Split(s, c)| - 1] == Split(front, c);
      } else {
        LastPartNotEmpty(s, c);
      }
    }
  }

  // ---------------------------------------------------------------------------
  // Prefixes, suffixes, cutting
  // ---------------------------------------------------------------------------

  predicate HasPrefix(s: string, p: string) { p <= s }

  predicate HasSuffix(s: string, p: string) { |p| <= |s| && s[|s| - |p|..] == p }

  function TrimPrefix(s: string, p: string): string { if HasPrefix(s, p) then s[|p|..] else s }

  /** The index of the first character in `set`, or |s|. */
  function IndexAny(s: string, chars: set<char>): (i: nat)
    ensures i <= |s|
    ensures forall j :: 0 <= j < i ==> s[j] !in chars
    ensures i < |s| ==> s[i] in chars
  {
    if s == "" || s[0] in chars then 0 else 1 + IndexAny(s[1..], chars)
  }

  predicate Contains(s: string, sub: string)
  {
    exists i :: 0 <= i <= |s| && sub <= s[i..]
  }
}
