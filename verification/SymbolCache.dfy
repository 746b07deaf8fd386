/** The bounded hand-over of parsed symbols between indexers: a map of live entries and an insertion
    order that keeps holes and duplicates until it is compacted. */
module SymbolCache {
  import opened Wrappers

  type Key = string

  datatype Cache<V> = Cache(byKey: map<Key, V>, order: seq<Key>)

  datatype Op<V> = Put(key: Key, value: V) | Take(key: Key)

  // ---------------------------------------------------------------------------
  // Keys
  // ---------------------------------------------------------------------------

  const NUL: char := '\0'

  function SymbolKey(repo: string, path: string, hash: string): Key { repo + [NUL] + path + [NUL] + hash }

  lemma {:induction false} CutAtNul(a: string, b: string, c: string, d: string)
    requires NUL !in a && NUL !in c && a + [NUL] + b == c + [NUL] + d
    ensures a == c && b == d
  {
    var s, t := a + [NUL] + b, c + [NUL] + d;
    assert s[0] == t[0] && s[1..] == t[1..];
    if a == "" || c == "" {
      assert a == c == "";
    } else {
      assert s[1..] == a[1..] + [NUL] + b && t[1..] == c[1..] + [NUL] + d;
      CutAtNul(a[1..], b, c[1..], d);
    }
  }

  /** Two files, or two contents of one, never share an entry: a path or repository id with a NUL in
      it would be needed for that. */
  lemma KeysAreInjective(r1: string, p1: string, h1: string, r2: string, p2: string, h2: string)
    requires NUL !in r1 && NUL !in p1 && NUL !in r2 && NUL !in p2
    ensures SymbolKey(r1, p1, h1) == SymbolKey(r2, p2, h2) <==> r1 == r2 && p1 == p2 && h1 == h2
  {
    if SymbolKey(r1, p1, h1) == SymbolKey(r2, p2, h2) {
      var b, d := p1 + [NUL] + h1, p2 + [NUL] + h2;
      assert SymbolKey(r1, p1, h1) == r1 + [NUL] + b && SymbolKey(r2, p2, h2) == r2 + [NUL] + d;
      CutAtNul(r1, b, r2, d);
      CutAtNul(p1, h1, p2, h2);
    }
  }

  // ---------------------------------------------------------------------------
  // What the operations do
  // ---------------------------------------------------------------------------

  function Pop<V>(c: Cache<V>): Cache<V>
    requires c.order != []
  {
    Cache(c.byKey - {c.order[0]}, c.order[1..])
  }

  function Pops<V>(c: Cache<V>, cap: nat): Cache<V>
    decreases |c.order|
  {
    if |c.byKey| >= cap && c.order != [] then Pops(Pop(c), cap) else c
  }

  function Live<V>(order: seq<Key>, byKey: map<Key, V>): seq<Key>
  {
    if order == [] then []
    else
      var front := Live(order[..|order| - 1], byKey);
      if order[|order| - 1] in byKey then front + [order[|order| - 1]] else front
  }

  function Compact<V>(c: Cache<V>, cap: nat): Cache<V>
  {
    if |c.order| > 2 * cap then c.(order := Live(c.order, c.byKey)) else c
  }

  function DoPut<V>(c: Cache<V>, key: Key, value: V, cap: nat): Cache<V>
  {
    if key in c.byKey then c.(byKey := c.byKey[key := value])
    else
      var room := Compact(Pops(c, cap), cap);
      Cache(room.byKey[key := value], room.order + [key])
  }

  function DoTake<V>(c: Cache<V>, key: Key): Cache<V> { c.(byKey := c.byKey - {key}) }

  function Do<V>(c: Cache<V>, op: Op<V>, cap: nat): Cache<V>
  {
    match op
    case Put(key, value) => DoPut(c, key, value, cap)
    case Take(key) => DoTake(c, key)
  }

  function Run<V>(ops: seq<Op<V>>, cap: nat): Cache<V>
  {
    if ops == [] then Cache(map[], []) else Do(Run(ops[..|ops| - 1], cap), ops[|ops| - 1], cap)
  }

  // ---------------------------------------------------------------------------
  // Bounds
  // ---------------------------------------------------------------------------

  /** At most `cap` live entries, every one of them in the order, and an order that holes and
      duplicates cannot make longer than three times the capacity. */
  ghost predicate Bounded<V>(c: Cache<V>, cap: nat)
  {
    && |c.byKey| <= cap
    && (forall k :: k in c.byKey ==> k in c.order)
    && |Live(c.order, c.byKey)| <= 2 * cap + |c.byKey|
    && |c.order| <= 3 * cap
  }

  lemma {:induction false} LiveMembers<V>(order: seq<Key>, byKey: map<Key, V>)
    ensures |Live(order, byKey)| <= |order|
    ensures forall k :: k in Live(order, byKey) <==> k in order && k in byKey
  {
    if order != [] {
      LiveMembers(order[..|order| - 1], byKey);
    }
  }

  lemma {:induction false} LiveOfLive<V>(order: seq<Key>, byKey: map<Key, V>)
    ensures Live(Live(order, byKey), byKey) == Live(order, byKey)
  {
    if order != [] {
      var front := Live(order[..|order| - 1], byKey);
      LiveOfLive(order[..|order| - 1], byKey);
      assert (front + [order[|order| - 1]])[..|front|] == front;
    }
  }

  /** Losing one live key loses at least one live place, and no other key's places. */
  lemma {:induction false} LiveWithout<V>(order: seq<Key>, byKey: map<Key, V>, k: Key)
    ensures |Live(order, byKey - {k})| <= |Live(order, byKey)|
    ensures k in order && k in byKey ==> |Live(order, byKey - {k})| < |Live(order, byKey)|
  {
    if order != [] {
      LiveWithout(order[..|order| - 1], byKey, k);
    }
  }

  lemma {:induction false} LiveTail<V>(order: seq<Key>, byKey: map<Key, V>)
    requires order != []
    ensures Live(order, byKey) == (if order[0] in byKey then [order[0]] else []) + Live(order[1..], byKey)
  {
    if |order| > 1 {
      LiveTail(order[..|order| - 1], byKey);
      assert order[..|order| - 1][1..] == order[1..][..|order| - 2];
    }
  }

  lemma {:induction false} LiveWith<V>(order: seq<Key>, byKey: map<Key, V>, k: Key, v: V)
    requires k !in order
    ensures Live(order, byKey[k := v]) == Live(order, byKey)
  {
    if order != [] {
      LiveWith(order[..|order| - 1], byKey, k, v);
    }
  }

  lemma SizeWithout<V>(m: map<Key, V>, k: Key)
    ensures |m - {k}| == if k in m then |m| - 1 else |m|
  {
    assert (m - {k}).Keys == m.Keys - {k};
  }

  lemma SizeWith<V>(m: map<Key, V>, k: Key, v: V)
    requires k !in m
    ensures |m[k := v]| == |m| + 1
  {
    assert m[k := v].Keys == m.Keys + {k};
  }

  lemma PopKeepsBounds<V>(c: Cache<V>, cap: nat)
    requires Bounded(c, cap) && c.order != []
    ensures Bounded(Pop(c), cap)
  {
    var k := c.order[0];
    SizeWithout(c.byKey, k);
    LiveWithout(c.order, c.byKey, k);
    LiveTail(c.order, c.byKey - {k});
  }

  lemma {:induction false} PopsMakesRoom<V>(c: Cache<V>, cap: nat)
    requires Bounded(c, cap) && cap >= 1
    ensures Bounded(Pops(c, cap), cap) && |Pops(c, cap).byKey| < cap
    ensures Pops(c, cap).byKey.Keys <= c.byKey.Keys
    decreases |c.order|
  {
    if |c.byKey| >= cap {
      assert c.order != [] by {
        var k :| k in c.byKey;
      }
      PopKeepsBounds(c, cap);
      PopsMakesRoom(Pop(c), cap);
    }
  }

  /** After eviction there is room for one more key, in a short order or one without holes. */
  ghost predicate Roomy<V>(c: Cache<V>, cap: nat)
  {
    && |c.byKey| < cap
    && (forall k :: k in c.byKey ==> k in c.order)
    && (|c.order| <= 2 * cap || (Live(c.order, c.byKey) == c.order && |c.order| <= 2 * cap + |c.byKey|))
  }

  lemma EvictionMakesRoom<V>(c: Cache<V>, cap: nat)
    requires Bounded(c, cap) && cap >= 1
    ensures Roomy(Compact(Pops(c, cap), cap), cap)
    ensures Pops(c, cap).byKey.Keys <= c.byKey.Keys
  {
    PopsMakesRoom(c, cap);
    var room := Pops(c, cap);
    LiveMembers(room.order, room.byKey);
    LiveOfLive(room.order, room.byKey);
  }

  lemma AddKeepsBounds<V>(c: Cache<V>, key: Key, value: V, cap: nat)
    requires Roomy(c, cap) && key !in c.byKey
    ensures Bounded(Cache(c.byKey[key := value], c.order + [key]), cap)
  {
    SizeWith(c.byKey, key, value);
    assert (c.order + [key])[..|c.order|] == c.order;
    if |c.order| <= 2 * cap {
      LiveMembers(c.order, c.byKey[key := value]);
    } else {
      LiveMembers(c.order, c.byKey);
      LiveWith(c.order, c.byKey, key, value);
    }
  }

  lemma PutKeepsBounds<V>(c: Cache<V>, key: Key, value: V, cap: nat)
    requires Bounded(c, cap) && cap >= 1
    ensures Bounded(DoPut(c, key, value, cap), cap)
  {
    if key in c.byKey {
      SameKeysSameLive(c.order, c.byKey, c.byKey[key := value]);
      assert c.byKey[key := value].Keys == c.byKey.Keys;
    } else {
      EvictionMakesRoom(c, cap);
      assert key !in Pops(c, cap).byKey.Keys;
      AddKeepsBounds(Compact(Pops(c, cap), cap), key, value, cap);
    }
  }

  lemma {:induction false} SameKeysSameLive<V>(order: seq<Key>, a: map<Key, V>, b: map<Key, V>)
    requires a.Keys == b.Keys
    ensures Live(order, a) == Live(order, b)
  {
    if order != [] {
      SameKeysSameLive(order[..|order| - 1], a, b);
      assert order[|order| - 1] in a.Keys <==> order[|order| - 1] in b.Keys;
    }
  }

  lemma TakeKeepsBounds<V>(c: Cache<V>, key: Key, cap: nat)
    requires Bounded(c, cap)
    ensures Bounded(DoTake(c, key), cap)
  {
    SizeWithout(c.byKey, key);
    LiveWithout(c.order, c.byKey, key);
  }

  lemma {:induction false} RunIsBounded<V>(ops: seq<Op<V>>, cap: nat)
    requires cap >= 1
    ensures Bounded(Run(ops, cap), cap)
  {
    if ops != [] {
      var c := Run(ops[..|ops| - 1], cap);
      RunIsBounded(ops[..|ops| - 1], cap);
      match ops[|ops| - 1]
      case Put(k, v) => PutKeepsBounds(c, k, v, cap);
      case Take(k) => TakeKeepsBounds(c, k, cap);
    }
  }

  // ---------------------------------------------------------------------------
  // What a Take returns
  // ---------------------------------------------------------------------------

  function Lookup<V>(c: Cache<V>, k: Key): Option<V> { if k in c.byKey then Some(c.byKey[k]) else None }

  /** Step `i` of the run drops k to make room for another key. */
  predicate EvictedAt<V>(ops: seq<Op<V>>, k: Key, cap: nat, i: nat)
    requires i < |ops|
  {
    ops[i].Put? && ops[i].key != k && k in Run(ops[..i], cap).byKey && k !in Run(ops[..i + 1], cap).byKey
  }

  /** No step from i on touches or evicts k. */
  ghost predicate Untouched<V>(ops: seq<Op<V>>, k: Key, cap: nat, i: nat)
  {
    forall j: nat :: i <= j < |ops| ==> ops[j].key != k && !EvictedAt(ops, k, cap, j)
  }

  /** Step `i` puts v under k and no later step touches or evicts k. */
  ghost predicate LastPutAt<V>(ops: seq<Op<V>>, k: Key, v: V, cap: nat, i: nat)
  {
    i < |ops| && ops[i] == Put(k, v) && Untouched(ops, k, cap, i + 1)
  }

  /** v is the value of the last Put of k that no later Take or eviction of it undid. */
  ghost predicate Published<V>(ops: seq<Op<V>>, k: Key, v: V, cap: nat)
  {
    exists i: nat :: LastPutAt(ops, k, v, cap, i)
  }

  lemma {:induction false} PopsKeep<V>(c: Cache<V>, cap: nat, k: Key)
    ensures Lookup(Pops(c, cap), k) == Lookup(c, k) || Lookup(Pops(c, cap), k) == None
    decreases |c.order|
  {
    if |c.byKey| >= cap && c.order != [] {
      PopsKeep(Pop(c), cap, k);
    }
  }

  lemma PrefixesAgree<V>(ops: seq<Op<V>>, n: nat, i: nat)
    requires i <= n <= |ops|
    ensures ops[..n][..i] == ops[..i]
  {
  }

  lemma EvictedInPrefix<V>(ops: seq<Op<V>>, n: nat, k: Key, cap: nat, j: nat)
    requires j < n <= |ops|
    ensures EvictedAt(ops[..n], k, cap, j) == EvictedAt(ops, k, cap, j)
  {
    PrefixesAgree(ops, n, j);
    PrefixesAgree(ops, n, j + 1);
  }

  lemma UntouchedStep<V>(ops: seq<Op<V>>, k: Key, cap: nat, i: nat, n: nat)
    requires |ops| == n + 1 && i <= n
    ensures Untouched(ops, k, cap, i) <==> Untouched(ops[..n], k, cap, i) && ops[n].key != k && !EvictedAt(ops, k, cap, n)
  {
    forall j: nat | j < n ensures ops[..n][j] == ops[j] && EvictedAt(ops[..n], k, cap, j) == EvictedAt(ops, k, cap, j) {
      EvictedInPrefix(ops, n, k, cap, j);
    }
  }

  lemma PublishedStep<V>(ops: seq<Op<V>>, k: Key, v: V, cap: nat)
    requires ops != []
    ensures Published(ops, k, v, cap) <==>
              || ops[|ops| - 1] == Put(k, v)
              || (Published(ops[..|ops| - 1], k, v, cap) && ops[|ops| - 1].key != k && !EvictedAt(ops, k, cap, |ops| - 1))
  {
    var n := |ops| - 1;
    forall i: nat | i < n
      ensures LastPutAt(ops, k, v, cap, i) <==>
                LastPutAt(ops[..n], k, v, cap, i) && ops[n].key != k && !EvictedAt(ops, k, cap, n)
    {
      UntouchedStep(ops, k, cap, i + 1, n);
    }
    if ops[n] == Put(k, v) {
      assert LastPutAt(ops, k, v, cap, n);
    }
  }

  /** A Take answers exactly with the last published value, for every run. */
  lemma {:induction false} TakeReturnsLastPublished<V>(ops: seq<Op<V>>, k: Key, v: V, cap: nat)
    requires cap >= 1
    ensures Lookup(Run(ops, cap), k) == Some(v) <==> Published(ops, k, v, cap)
  {
    if ops != [] {
      var n := |ops| - 1;
      assert ops[..n + 1] == ops;
      TakeReturnsLastPublished(ops[..n], k, v, cap);
      PublishedStep(ops, k, v, cap);
      if ops[n].key != k && ops[n].Put? {
        PopsKeep(Run(ops[..n], cap), cap, k);
      }
    }
  }

  // ---------------------------------------------------------------------------
  // Which entry is evicted
  // ---------------------------------------------------------------------------

  /** The step that made the live entry k. */
  function Born<V>(ops: seq<Op<V>>, k: Key, cap: nat): nat
  {
    if ops == [] then 0
    else
      var front := ops[..|ops| - 1];
      if ops[|ops| - 1].Put? && ops[|ops| - 1].key == k && k !in Run(front, cap).byKey then |front| else Born(front, k, cap)
  }

  /** The last place of k in the order. */
  function LastPlace(order: seq<Key>, k: Key): (i: nat)
    requires k in order
    ensures i < |order| && order[i] == k
  {
    if order[|order| - 1] == k then |order| - 1 else LastPlace(order[..|order| - 1], k)
  }

  /** a and b are live and a's last place is the earlier one. */
  predicate StandsBefore<V>(c: Cache<V>, a: Key, b: Key)
  {
    a in c.byKey && b in c.byKey && a in c.order && b in c.order && LastPlace(c.order, a) < LastPlace(c.order, b)
  }

  lemma LastPlaceIs(order: seq<Key>, k: Key, i: nat)
    requires i < |order| && order[i] == k && forall j :: i < j < |order| ==> order[j] != k
    ensures LastPlace(order, k) == i
    decreases |order|
  {
    if i < |order| - 1 {
      LastPlaceIs(order[..|order| - 1], k, i);
    }
  }

  lemma {:induction false} NoneAfterLast(order: seq<Key>, k: Key)
    requires k in order
    ensures forall j :: LastPlace(order, k) < j < |order| ==> order[j] != k
  {
    if order[|order| - 1] != k {
      NoneAfterLast(order[..|order| - 1], k);
    }
  }

  lemma LastPlaceInTail(order: seq<Key>, k: Key)
    requires order != [] && k in order && k != order[0]
    ensures k in order[1..] && LastPlace(order[1..], k) == LastPlace(order, k) - 1
  {
    NoneAfterLast(order, k);
    LastPlaceIs(order[1..], k, LastPlace(order, k) - 1);
  }

  /** Dropping holes keeps who stands before whom. */
  lemma {:induction false} LiveKeepsPlaces<V>(order: seq<Key>, byKey: map<Key, V>, a: Key, b: Key)
    requires a in order && b in order && a in byKey && b in byKey
    ensures a in Live(order, byKey) && b in Live(order, byKey)
    ensures LastPlace(Live(order, byKey), a) < LastPlace(Live(order, byKey), b) <==> LastPlace(order, a) < LastPlace(order, b)
  {
    LiveMembers(order, byKey);
    var n := |order| - 1;
    var front := Live(order[..n], byKey);
    LiveMembers(order[..n], byKey);
    if order[n] in byKey {
      assert (front + [order[n]])[..|front|] == front;
    }
    if order[n] != a && order[n] != b {
      LiveKeepsPlaces(order[..n], byKey, a, b);
    }
  }

  /** From c to d live keys only went, and those left stand as they did. */
  ghost predicate KeepsPlaces<V>(c: Cache<V>, d: Cache<V>)
  {
    && (forall k :: k in d.byKey ==> k in c.byKey && k in c.order && k in d.order)
    && (forall a, b :: a in d.byKey && b in d.byKey ==> (StandsBefore(d, a, b) <==> StandsBefore(c, a, b)))
  }

  lemma KeepsPlacesTwice<V>(c: Cache<V>, d: Cache<V>, e: Cache<V>)
    requires KeepsPlaces(c, d) && KeepsPlaces(d, e)
    ensures KeepsPlaces(c, e)
  {
  }

  lemma PopKeepsPlaces<V>(c: Cache<V>)
    requires c.order != [] && forall k :: k in c.byKey ==> k in c.order
    ensures KeepsPlaces(c, Pop(c))
  {
    forall k | k in Pop(c).byKey ensures k in c.order && k in Pop(c).order && LastPlace(Pop(c).order, k) == LastPlace(c.order, k) - 1 {
      LastPlaceInTail(c.order, k);
    }
  }

  lemma {:induction false} PopsKeepsPlaces<V>(c: Cache<V>, cap: nat)
    requires forall k :: k in c.byKey ==> k in c.order
    ensures KeepsPlaces(c, Pops(c, cap))
    decreases |c.order|
  {
    if |c.byKey| >= cap && c.order != [] {
      PopKeepsPlaces(c);
      PopsKeepsPlaces(Pop(c), cap);
      KeepsPlacesTwice(c, Pop(c), Pops(c, cap));
    }
  }

  lemma CompactKeepsPlaces<V>(c: Cache<V>, cap: nat)
    requires forall k :: k in c.byKey ==> k in c.order
    ensures KeepsPlaces(c, Compact(c, cap))
  {
    LiveMembers(c.order, c.byKey);
    forall a, b | a in c.byKey && b in c.byKey ensures StandsBefore(Compact(c, cap), a, b) <==> StandsBefore(c, a, b) {
      LiveKeepsPlaces(c.order, c.byKey, a, b);
    }
  }

  /** Every live key is in the order, and live keys stand in it, by their last places, in the order
      they were born. */
  ghost predicate StandsByAge<V>(c: Cache<V>, ops: seq<Op<V>>, cap: nat)
  {
    && (forall k :: k in c.byKey ==> k in c.order && Born(ops, k, cap) < |ops|)
    && (forall a, b :: a in c.byKey && b in c.byKey ==> (Born(ops, a, cap) < Born(ops, b, cap) <==> StandsBefore(c, a, b)))
  }

  lemma RunStep<V>(ops: seq<Op<V>>, op: Op<V>, cap: nat)
    ensures Run(ops + [op], cap) == Do(Run(ops, cap), op, cap)
  {
    assert (ops + [op])[..|ops|] == ops;
  }

  lemma BornStep<V>(ops: seq<Op<V>>, op: Op<V>, k: Key, cap: nat)
    ensures Born(ops + [op], k, cap) == if op.Put? && op.key == k && k !in Run(ops, cap).byKey then |ops| else Born(ops, k, cap)
  {
    assert (ops + [op])[..|ops|] == ops;
  }

  lemma SameOrderSameAge<V>(c: Cache<V>, d: Cache<V>, ops: seq<Op<V>>, next: seq<Op<V>>, cap: nat)
    requires StandsByAge(c, ops, cap) && d.order == c.order && |next| >= |ops|
    requires forall k :: k in d.byKey ==> k in c.byKey && Born(next, k, cap) == Born(ops, k, cap)
    ensures StandsByAge(d, next, cap)
  {
    forall a, b | a in d.byKey && b in d.byKey ensures StandsBefore(d, a, b) <==> StandsBefore(c, a, b) {
      assert a in c.byKey && b in c.byKey;
    }
  }

  /** A step that makes no entry leaves births and places as they are. */
  lemma QuietStepKeepsAge<V>(ops: seq<Op<V>>, op: Op<V>, cap: nat)
    requires StandsByAge(Run(ops, cap), ops, cap) && (op.Put? ==> op.key in Run(ops, cap).byKey)
    ensures StandsByAge(Run(ops + [op], cap), ops + [op], cap)
  {
    var c, d := Run(ops, cap), Do(Run(ops, cap), op, cap);
    RunStep(ops, op, cap);
    forall k | k in d.byKey ensures k in c.byKey && Born(ops + [op], k, cap) == Born(ops, k, cap) {
      BornStep(ops, op, k, cap);
    }
    SameOrderSameAge(c, d, ops, ops + [op], cap);
  }

  lemma AppendedStandsLast<V>(c: Cache<V>, k: Key, v: V, a: Key, b: Key)
    requires k !in c.byKey && a in c.byKey && b in c.byKey && a in c.order && b in c.order
    ensures var d := Cache(c.byKey[k := v], c.order + [k]);
            (StandsBefore(d, a, b) <==> StandsBefore(c, a, b)) && StandsBefore(d, a, k) && !StandsBefore(d, k, a) && !StandsBefore(d, k, k)
  {
    assert (c.order + [k])[..|c.order|] == c.order;
  }

  lemma NewEntryKeepsAge<V>(ops: seq<Op<V>>, k: Key, v: V, cap: nat)
    requires cap >= 1 && StandsByAge(Run(ops, cap), ops, cap) && k !in Run(ops, cap).byKey
    ensures StandsByAge(Run(ops + [Put(k, v)], cap), ops + [Put(k, v)], cap)
  {
    var c, next := Run(ops, cap), ops + [Put(k, v)];
    var room := Compact(Pops(c, cap), cap);
    RunStep(ops, Put(k, v), cap);
    BornStep(ops, Put(k, v), k, cap);
    PopsKeepsPlaces(c, cap);
    CompactKeepsPlaces(Pops(c, cap), cap);
    KeepsPlacesTwice(c, Pops(c, cap), room);
    var d := Cache(room.byKey[k := v], room.order + [k]);
    forall a | a in room.byKey ensures a != k && Born(next, a, cap) == Born(ops, a, cap) < |ops| && StandsBefore(d, a, k) && !StandsBefore(d, k, a) {
      BornStep(ops, Put(k, v), a, cap);
      AppendedStandsLast(room, k, v, a, a);
    }
    forall a, b | a in room.byKey && b in room.byKey ensures StandsBefore(d, a, b) <==> Born(next, a, cap) < Born(next, b, cap) {
      AppendedStandsLast(room, k, v, a, b);
    }
    assert !StandsBefore(d, k, k);
  }

  lemma {:induction false} RunStandsByAge<V>(ops: seq<Op<V>>, cap: nat)
    requires cap >= 1
    ensures StandsByAge(Run(ops, cap), ops, cap)
  {
    if ops != [] {
      var front, op := ops[..|ops| - 1], ops[|ops| - 1];
      assert ops == front + [op];
      RunStandsByAge(front, cap);
      if op.Put? && op.key !in Run(front, cap).byKey {
        NewEntryKeepsAge(front, op.key, op.value, cap);
      } else {
        QuietStepKeepsAge(front, op, cap);
      }
    }
  }

  /** Everything the next put of k evicts is older than everything it keeps. */
  ghost predicate EvictsOldest<V>(ops: seq<Op<V>>, k: Key, v: V, cap: nat)
  {
    var before, after := Run(ops, cap).byKey, DoPut(Run(ops, cap), k, v, cap).byKey;
    forall gone, kept :: gone in before && gone !in after && kept in before && kept in after ==> Born(ops, gone, cap) < Born(ops, kept, cap)
  }

  ghost predicate HasLive<V>(c: Cache<V>) { exists x :: x in c.order && x in c.byKey }

  /** The first live key in the order, which is the one a put of another key into a full cache evicts. */
  function FirstLive<V>(c: Cache<V>): (k: Key)
    requires HasLive(c)
    ensures k in c.order && k in c.byKey
    decreases |c.order|
  {
    if c.order[0] in c.byKey then c.order[0]
    else
      assert HasLive(Cache(c.byKey, c.order[1..])) by {
        var x :| x in c.order && x in c.byKey;
        assert c.order == [c.order[0]] + c.order[1..];
      }
      FirstLive(Cache(c.byKey, c.order[1..]))
  }

  lemma FullHasLive<V>(c: Cache<V>)
    requires |c.byKey| >= 1 && forall k :: k in c.byKey ==> k in c.order
    ensures HasLive(c) && c.order != []
  {
    assert c.byKey != map[];
    var x :| x in c.byKey;
    assert x in c.order;
  }

  lemma HoleFirst<V>(c: Cache<V>)
    requires c.order != [] && c.order[0] !in c.byKey && forall k :: k in c.byKey ==> k in c.order
    ensures Pop(c) == Cache(c.byKey, c.order[1..]) && forall k :: k in c.byKey ==> k in c.order[1..]
  {
    assert c.byKey - {c.order[0]} == c.byKey;
    assert c.order == [c.order[0]] + c.order[1..];
  }

  lemma {:induction false} PopsTakesFirstLive<V>(c: Cache<V>, cap: nat)
    requires cap >= 1 && |c.byKey| == cap && forall k :: k in c.byKey ==> k in c.order
    ensures HasLive(c) && Pops(c, cap).byKey == c.byKey - {FirstLive(c)}
    decreases |c.order|
  {
    FullHasLive(c);
    if c.order[0] in c.byKey {
      SizeWithout(c.byKey, c.order[0]);
      NothingToPop(Pop(c), cap);
    } else {
      HoleFirst(c);
      PopsTakesFirstLive(Pop(c), cap);
    }
  }

  lemma OneIsEvicted<V>(c: Cache<V>, k: Key, v: V, cap: nat)
    requires cap >= 1 && k !in c.byKey && |c.byKey| == cap && forall x :: x in c.byKey ==> x in c.order
    ensures HasLive(c) && DoPut(c, k, v, cap).byKey == (c.byKey - {FirstLive(c)})[k := v]
  {
    PopsTakesFirstLive(c, cap);
  }

  lemma OldestIffBefore<V>(c: Cache<V>, ops: seq<Op<V>>, victim: Key, k: Key, v: V, cap: nat)
    requires c == Run(ops, cap) && StandsByAge(c, ops, cap) && victim in c.byKey && k !in c.byKey
    requires DoPut(c, k, v, cap).byKey == (c.byKey - {victim})[k := v]
    ensures EvictsOldest(ops, k, v, cap) <==> forall kept :: kept in c.byKey && kept != victim ==> StandsBefore(c, victim, kept)
  {
    forall kept | kept in c.byKey && kept != victim ensures kept in DoPut(c, k, v, cap).byKey {
    }
  }

  /** A put into a full cache evicts one entry, and that one is the oldest exactly when the last place in
      the order of the first live key lies before that of every other live key. */
  lemma EvictsOldestIff<V>(ops: seq<Op<V>>, k: Key, v: V, cap: nat)
    requires cap >= 1 && k !in Run(ops, cap).byKey && |Run(ops, cap).byKey| == cap
    ensures var c := Run(ops, cap);
            && HasLive(c)
            && DoPut(c, k, v, cap).byKey == (c.byKey - {FirstLive(c)})[k := v]
            && (EvictsOldest(ops, k, v, cap) <==> forall kept :: kept in c.byKey && kept != FirstLive(c) ==> StandsBefore(c, FirstLive(c), kept))
  {
    RunStandsByAge(ops, cap);
    OneIsEvicted(Run(ops, cap), k, v, cap);
    OldestIffBefore(Run(ops, cap), ops, FirstLive(Run(ops, cap)), k, v, cap);
  }

  /** With room left, or for a live key, nothing is evicted. */
  lemma NothingEvicted<V>(ops: seq<Op<V>>, k: Key, v: V, cap: nat)
    requires k in Run(ops, cap).byKey || |Run(ops, cap).byKey| < cap
    ensures EvictsOldest(ops, k, v, cap)
  {
    if k !in Run(ops, cap).byKey {
      NothingToPop(Run(ops, cap), cap);
    }
  }

  // ---------------------------------------------------------------------------
  // Keys that are taken for good
  // ---------------------------------------------------------------------------

  /** A key that was taken is not put again. */
  ghost predicate TakenForGood<V>(ops: seq<Op<V>>)
  {
    forall i, j :: 0 <= i < j < |ops| && ops[i].Take? && ops[j].Put? ==> ops[i].key != ops[j].key
  }

  function TakenIn<V>(ops: seq<Op<V>>): set<Key> { set i | 0 <= i < |ops| && ops[i].Take? :: ops[i].key }

  /** No key stands in the order twice, and what is not live there was taken. */
  ghost predicate Plain<V>(c: Cache<V>, taken: set<Key>)
  {
    && (forall i, j :: 0 <= i < j < |c.order| ==> c.order[i] != c.order[j])
    && (forall i :: 0 <= i < |c.order| ==> c.order[i] in c.byKey || c.order[i] in taken)
  }

  lemma {:induction false} PopsStaysPlain<V>(c: Cache<V>, cap: nat, taken: set<Key>)
    requires Plain(c, taken)
    ensures Plain(Pops(c, cap), taken)
    decreases |c.order|
  {
    if |c.byKey| >= cap && c.order != [] {
      assert Plain(Pop(c), taken);
      PopsStaysPlain(Pop(c), cap, taken);
    }
  }

  lemma {:induction false} LiveStaysPlain<V>(order: seq<Key>, byKey: map<Key, V>)
    requires forall i, j :: 0 <= i < j < |order| ==> order[i] != order[j]
    ensures forall i, j :: 0 <= i < j < |Live(order, byKey)| ==> Live(order, byKey)[i] != Live(order, byKey)[j]
  {
    if order != [] {
      var n := |order| - 1;
      LiveStaysPlain(order[..n], byKey);
      LiveMembers(order[..n], byKey);
      assert forall x :: x in order[..n] ==> x != order[n];
    }
  }

  lemma TakenGrows<V>(ops: seq<Op<V>>, op: Op<V>)
    ensures TakenIn(ops + [op]) == TakenIn(ops) + if op.Take? then {op.key} else {}
  {
    var next := ops + [op];
    assert forall i :: 0 <= i < |ops| ==> next[i] == ops[i];
    forall k | k in TakenIn(ops) ensures k in TakenIn(next) {
      var i :| 0 <= i < |ops| && ops[i].Take? && ops[i].key == k;
      assert next[i] == ops[i];
    }
    if op.Take? {
      assert next[|ops|] == op;
    }
  }

  lemma NotTaken<V>(front: seq<Op<V>>, k: Key, v: V)
    requires TakenForGood(front + [Put(k, v)])
    ensures k !in TakenIn(front)
  {
    var ops := front + [Put(k, v)];
    forall t | 0 <= t < |front| && front[t].Take? ensures front[t].key != k {
      assert ops[t] == front[t] && ops[|front|] == Put(k, v);
    }
  }

  lemma NewEntryStaysPlain<V>(c: Cache<V>, k: Key, v: V, cap: nat, taken: set<Key>)
    requires Plain(c, taken) && k !in c.byKey && k !in taken
    ensures Plain(DoPut(c, k, v, cap), taken)
  {
    PopsStaysPlain(c, cap, taken);
    PopsKeep(c, cap, k);
    var some := Pops(c, cap);
    LiveStaysPlain(some.order, some.byKey);
    LiveMembers(some.order, some.byKey);
    var room := Compact(some, cap);
    assert Plain(room, taken) && k !in room.byKey;
    assert forall i :: 0 <= i < |room.order| ==> room.order[i] != k;
  }

  lemma {:induction false} RunStaysPlain<V>(ops: seq<Op<V>>, cap: nat)
    requires TakenForGood(ops)
    ensures Plain(Run(ops, cap), TakenIn(ops))
  {
    if ops != [] {
      var front, op := ops[..|ops| - 1], ops[|ops| - 1];
      assert ops == front + [op];
      RunStaysPlain(front, cap);
      TakenGrows(front, op);
      RunStep(front, op, cap);
      if op.Put? && op.key !in Run(front, cap).byKey {
        NotTaken(front, op.key, op.value);
        NewEntryStaysPlain(Run(front, cap), op.key, op.value, cap, TakenIn(front));
      }
    }
  }

  lemma {:induction false} FirstLiveIsFirst<V>(c: Cache<V>, taken: set<Key>, kept: Key)
    requires Plain(c, taken) && kept in c.order && kept in c.byKey && kept != FirstLive(c)
    ensures StandsBefore(c, FirstLive(c), kept)
    decreases |c.order|
  {
    var k := FirstLive(c);
    assert c.order == [c.order[0]] + c.order[1..];
    if c.order[0] == k {
      LastPlaceIs(c.order, k, 0);
    } else {
      var tail := Cache(c.byKey, c.order[1..]);
      assert Plain(tail, taken);
      FirstLiveIsFirst(tail, taken, kept);
      LastPlaceInTail(c.order, k);
      LastPlaceInTail(c.order, kept);
    }
  }

  /** While no taken key comes back, eviction is oldest-first. */
  lemma EvictsOldestFirst<V>(ops: seq<Op<V>>, k: Key, v: V, cap: nat)
    requires cap >= 1 && TakenForGood(ops)
    ensures EvictsOldest(ops, k, v, cap)
  {
    var c := Run(ops, cap);
    RunIsBounded(ops, cap);
    if k in c.byKey || |c.byKey| < cap {
      NothingEvicted(ops, k, v, cap);
    } else {
      EvictsOldestIff(ops, k, v, cap);
      RunStaysPlain(ops, cap);
      forall kept | kept in c.byKey && kept != FirstLive(c) ensures StandsBefore(c, FirstLive(c), kept) {
        FirstLiveIsFirst(c, TakenIn(ops), kept);
      }
    }
  }

  /** With a taken key put again it is not: the stale first place of `a` makes the newest entry go. */
  lemma ReputEvictsNewest<V>(a: Key, b: Key, c: Key, v: V)
    requires a != b && b != c && a != c
    ensures var ops := [Put(a, v)] + [Take(a)] + [Put(b, v)] + [Put(a, v)];
            && a in Run(ops, 2).byKey && b in Run(ops, 2).byKey && Born(ops, b, 2) < Born(ops, a, 2)
            && DoPut(Run(ops, 2), c, v, 2).byKey == map[b := v, c := v]
            && !EvictsOldest(ops, c, v, 2)
  {
    var o3 := [Put(a, v)] + [Take(a)] + [Put(b, v)];
    ThenPutOther(a, b, v);
    SizeWith<V>(map[], b, v);
    NothingToPop(Cache(map[b := v], [a, b]), 2);
    RunStep(o3, Put(a, v), 2);
    BornStep(o3, Put(a, v), a, 2);
    BornStep(o3, Put(a, v), b, 2);
    BornInRun(o3, b, 2);
    StaleFirstPlace(a, b, c, v);
  }

  lemma NothingToPop<V>(c: Cache<V>, cap: nat)
    requires |c.byKey| < cap
    ensures Pops(c, cap) == c
  {
  }

  lemma ThenPutOther<V>(a: Key, b: Key, v: V)
    requires a != b
    ensures Run([Put(a, v)] + [Take(a)] + [Put(b, v)], 2) == Cache(map[b := v], [a, b])
  {
    PutThenTake(a, v);
    NothingToPop(Cache<V>.Cache(map[], [a]), 2);
    RunStep([Put(a, v)] + [Take(a)], Put(b, v), 2);
  }

  lemma PutThenTake<V>(a: Key, v: V)
    ensures Run([Put(a, v)] + [Take(a)], 2) == Cache(map[], [a])
  {
    var empty: Cache<V> := Cache(map[], []);
    assert [Put(a, v)] == [] + [Put(a, v)];
    RunStep([], Put(a, v), 2);
    assert Pops(empty, 2) == empty;
    assert Run([Put(a, v)], 2) == Cache(map[a := v], [a]);
    RunStep([Put(a, v)], Take(a), 2);
    assert map[a := v] - {a} == map[];
  }

  lemma StaleFirstPlace<V>(a: Key, b: Key, c: Key, v: V)
    requires a != b && b != c && a != c
    ensures DoPut(Cache(map[b := v][a := v], [a, b] + [a]), c, v, 2).byKey == map[b := v, c := v]
  {
    var full := Cache(map[b := v][a := v], [a, b] + [a]);
    SizeWith<V>(map[], b, v);
    SizeWith(map[b := v], a, v);
    assert Pop(full) == Cache(map[b := v], [b, a]);
    assert Pops(Pop(full), 2) == Pop(full);
  }

  lemma {:induction false} BornInRun<V>(ops: seq<Op<V>>, k: Key, cap: nat)
    requires ops != []
    ensures Born(ops, k, cap) < |ops|
  {
    if |ops| > 1 {
      BornInRun(ops[..|ops| - 1], k, cap);
    }
  }

  // ---------------------------------------------------------------------------
  // The cache itself
  // ---------------------------------------------------------------------------

  class SymbolCache<V(0)> {
    var byKey: map<Key, V>
    var order: seq<Key>
    const cap: nat

    ghost function State(): Cache<V>
      reads this
    {
      Cache(byKey, order)
    }

    ghost predicate Valid()
      reads this
    {
      cap >= 1 && Bounded(State(), cap)
    }

    constructor (capacity: int)
      ensures Valid() && cap == (if capacity < 1 then 1 else capacity) && State() == Cache(map[], [])
    {
      cap := if capacity < 1 then 1 else capacity;
      byKey, order := map[], [];
    }

    method Put(repo: string, path: string, hash: string, value: V)
      requires Valid()
      modifies this
      ensures Valid() && State() == DoPut(old(State()), SymbolKey(repo, path, hash), value, cap)
    {
      var k := SymbolKey(repo, path, hash);
      PutKeepsBounds(State(), k, value, cap);
      if k !in byKey {
        EvictLocked();
        order := order + [k];
      }
      byKey := byKey[k := value];
    }

    method Take(repo: string, path: string, hash: string) returns (found: Option<V>)
      requires Valid()
      modifies this
      ensures Valid() && State() == DoTake(old(State()), SymbolKey(repo, path, hash))
      ensures found == Lookup(old(State()), SymbolKey(repo, path, hash))
    {
      var k := SymbolKey(repo, path, hash);
      TakeKeepsBounds(State(), k, cap);
      if k in byKey {
        found := Some(byKey[k]);
        byKey := byKey - {k};
      } else {
        found := None;
        assert byKey - {k} == byKey;
      }
    }

    method EvictLocked()
      modifies this
      ensures State() == Compact(Pops(old(State()), cap), cap)
    {
      while |byKey| >= cap && |order| > 0
        invariant Pops(State(), cap) == Pops(old(State()), cap)
        decreases |order|
      {
        var oldest := order[0];
        order := order[1..];
        byKey := byKey - {oldest};
      }
      if |order| > 2 * cap {
        var live := [];
        for i := 0 to |order|
          invariant live == Live(order[..i], byKey)
        {
          assert order[..i + 1][..i] == order[..i];
          if order[i] in byKey {
            live := live + [order[i]];
          }
        }
        assert order[..|order|] == order;
        order := live;
      }
    }
  }
}
