/** AST units, and the decomposition of identifiers into words that every name match goes through. */
module Units {
  import opened Strings

  datatype Unit = Unit(
    id: string, repo: string, file: string, kind: string, name: string, qualified: string,
    startLine: int, startByte: int, signature: string)

  // ---------------------------------------------------------------------------
  // Words
  // ---------------------------------------------------------------------------

  predicate IsIdentChar(c: char) { c == '_' || 'a' <= c <= 'z' || 'A' <= c <= 'Z' || '0' <= c <= '9' }

  predicate IsUpper(c: char) { 'A' <= c <= 'Z' }

  predicate IsLower(c: char) { 'a' <= c <= 'z' }

  function Flush(cur: string): seq<string> { if cur == "" then [] else [cur] }

  /** The maximal runs of identifier characters of `cur + s`, `cur` being the run so far. */
  function Tokens(s: string, cur: string): (r: seq<string>)
    ensures "" !in r
  {
    if s == "" then Flush(cur)
    else if IsIdentChar(s[0]) then Tokens(s[1..], cur + [s[0]])
    else Flush(cur) + Tokens(s[1..], "")
  }

  /** An upper-case letter opens a new word after a lower-case one, or closes an acronym. */
  predicate OpensWord(tok: string, i: nat)
    requires i < |tok|
  {
    IsUpper(tok[i]) && i > 0 && (!IsUpper(tok[i - 1]) || (i + 1 < |tok| && IsLower(tok[i + 1])))
  }

  function SplitToken(tok: string, i: nat, cur: string): (r: seq<string>)
    requires i <= |tok|
    ensures "" !in r
    decreases |tok| - i
  {
    if i == |tok| then Flush(Lower(cur))
    else if tok[i] == '_' then Flush(Lower(cur)) + SplitToken(tok, i + 1, "")
    else if OpensWord(tok, i) then Flush(Lower(cur)) + SplitToken(tok, i + 1, [tok[i]])
    else SplitToken(tok, i + 1, cur + [tok[i]])
  }

  function SplitTokens(toks: seq<string>): (r: seq<string>)
    ensures "" !in r
  {
    if toks == [] then [] else SplitToken(toks[0], 0, "") + SplitTokens(toks[1..])
  }

  function WordComponents(s: string): (r: seq<string>)
    ensures "" !in r
  {
    SplitTokens(Tokens(s, ""))
  }

  predicate HasComponentSuffix(words: seq<string>, suffix: seq<string>)
  {
    suffix != [] && |suffix| <= |words| && words[|words| - |suffix|..] == suffix
  }

  function Last<T>(s: seq<T>): T
    requires s != []
  {
    s[|s| - 1]
  }

  lemma SuffixSharesLast(words: seq<string>, suffix: seq<string>)
    requires HasComponentSuffix(words, suffix)
    ensures words != [] && Last(words) == Last(suffix)
  {
    assert Last(suffix) == words[|words| - |suffix|..][|suffix| - 1];
  }

  // ---------------------------------------------------------------------------
  // Buckets
  // ---------------------------------------------------------------------------

  /** The entry of a map of lists, the empty list when the key is absent (Go's map of slices). */
  function Bucket<K, V>(m: map<K, seq<V>>, k: K): seq<V> { if k in m then m[k] else [] }

  function Filter<T>(s: seq<T>, p: T -> bool): (r: seq<T>)
    ensures forall i :: 0 <= i < |r| ==> r[i] in s && p(r[i])
    ensures forall i :: 0 <= i < |s| && p(s[i]) ==> s[i] in r
    ensures |r| <= |s|
  {
    if s == [] then []
    else
      var rest := Filter(s[..|s| - 1], p);
      if p(Last(s)) then rest + [Last(s)] else rest
  }
}
