/** The scanner's LRU cache against the full history of its calls. */
module LruCache {
  import opened Common

  /** Keys matter only up to equality. */
  type Key = int

  datatype Call<V> = Put(key: Key, value: V) | Get(key: Key) | Clear

  function Without(s: seq<Key>, k: Key): (r: seq<Key>)
    ensures k !in s ==> r == s
    ensures forall x :: x in r ==> x in s
  {
    if s == [] then [] else
    assert s == [s[0]] + s[1..];
    if s[0] == k then s[1..] else [s[0]] + Without(s[1..], k)
  }

  // ---- the specification: recency over the whole history, without a limit ----

  /** Does this call touch a key? Puts do, and gets of a key among the n most recent ones. */
  predicate Touches<V>(call: Call<V>, recency: seq<Key>, n: nat) {
    call.Put? || (call.Get? && call.key in Last(recency, n))
  }

  /** The distinct keys touched since the last clear, the least recent first. */
  function Recency<V>(log: seq<Call<V>>, n: nat): seq<Key> {
    if log == [] then [] else
    var call, before := log[|log| - 1], Recency(log[..|log| - 1], n);
    if call.Clear? then []
    else if Touches(call, before, n) then Without(before, call.key) + [call.key]
    else before
  }

  /** The position of the call that last touched the key since the last clear, or -1. */
  function LastTouch<V>(log: seq<Call<V>>, n: nat, k: Key): (i: int)
    ensures -1 <= i < |log|
  {
    if log == [] then -1 else
    var call := log[|log| - 1];
    if call.Clear? then -1
    else if Touches(call, Recency(log[..|log| - 1], n), n) && call.key == k then |log| - 1
    else LastTouch(log[..|log| - 1], n, k)
  }

  /** The value last put for the key. */
  function LastPut<V>(log: seq<Call<V>>, k: Key): Option<V> {
    if log == [] then None else
    var call := log[|log| - 1];
    if call.Put? && call.key == k then Some(call.value) else LastPut(log[..|log| - 1], k)
  }

  predicate Distinct(s: seq<Key>) {
    forall i, j :: 0 <= i < j < |s| ==> s[i] != s[j]
  }

  function Place(s: seq<Key>, k: Key): (p: nat)
    ensures p <= |s| && (p < |s| <==> k in s) && (p < |s| ==> s[p] == k)
  {
    if s == [] || s[0] == k then 0 else
    assert s == [s[0]] + s[1..];
    1 + Place(s[1..], k)
  }

  lemma {:induction false} WithoutAt(s: seq<Key>, k: Key)
    ensures |Without(s, k)| == |s| - if k in s then 1 else 0
    ensures forall i :: 0 <= i < |Without(s, k)| ==> Without(s, k)[i] == s[if i < Place(s, k) then i else i + 1]
  {
    if s != [] && s[0] != k {
      var r := Without(s[1..], k);
      WithoutAt(s[1..], k);
      assert s == [s[0]] + s[1..];
      forall i | 0 <= i < |Without(s, k)| ensures Without(s, k)[i] == s[if i < Place(s, k) then i else i + 1] {
        assert i > 0 ==> Without(s, k)[i] == r[i - 1];
      }
    }
  }

  lemma {:induction false} WithoutConcat(a: seq<Key>, b: seq<Key>, k: Key)
    ensures k in a ==> Without(a + b, k) == Without(a, k) + b
    ensures k !in a ==> Without(a + b, k) == a + Without(b, k)
  {
    if a == [] {
      assert a + b == b && a + Without(b, k) == Without(b, k);
    } else {
      var rest := a[1..];
      assert a == [a[0]] + rest && (a + b)[0] == a[0] && (a + b)[1..] == rest + b;
      if a[0] != k {
        WithoutConcat(rest, b, k);
        Regroup([a[0]], Without(rest, k), b);
        Regroup([a[0]], rest, Without(b, k));
      }
    }
  }

  lemma TouchedList(s: seq<Key>, k: Key)
    requires Distinct(s)
    ensures Distinct(Without(s, k) + [k])
    ensures forall x :: x in Without(s, k) + [k] <==> x in s || x == k
  {
    WithoutAt(s, k);
    forall x | x in s && x != k
      ensures x in Without(s, k)
    {
      var i :| 0 <= i < |s| && s[i] == x;
      var p := Place(s, k);
      assert Without(s, k)[if i < p then i else i - 1] == x;
    }
  }

  lemma Origin(s: seq<Key>, k: Key, i: int)
    requires Distinct(s) && 0 <= i < |Without(s, k)|
    ensures var a := if i < Place(s, k) then i else i + 1;
            a < |s| && Without(s, k)[i] == s[a] && s[a] != k
  {
    WithoutAt(s, k);
  }

  lemma TouchUnfolds<V>(log: seq<Call<V>>, n: nat, call: Call<V>, x: Key)
    requires !call.Clear? && Touches(call, Recency(log, n), n)
    ensures LastTouch(log + [call], n, x) == if x == call.key then |log| else LastTouch(log, n, x)
  {
    assert (log + [call])[..|log|] == log;
  }

  lemma TouchedPair<V>(log: seq<Call<V>>, n: nat, call: Call<V>, r: seq<Key>, i: int, j: int)
    requires !call.Clear? && r == Recency(log, n) && InOrder(log, n) && Touches(call, r, n) && Distinct(r)
    requires 0 <= i < j < |Without(r, call.key)| + 1
    ensures var q := Without(r, call.key) + [call.key];
            LastTouch(log + [call], n, q[i]) < LastTouch(log + [call], n, q[j])
  {
    var q := Without(r, call.key) + [call.key];
    Origin(r, call.key, i);
    TouchUnfolds(log, n, call, q[i]);
    TouchUnfolds(log, n, call, q[j]);
    if j < |q| - 1 {
      Origin(r, call.key, j);
    }
  }

  /** After a touch the list is again in the order of last touches. */
  lemma TouchedInOrder<V>(log: seq<Call<V>>, n: nat, call: Call<V>)
    requires !call.Clear? && InOrder(log, n) && Touches(call, Recency(log, n), n)
    requires Distinct(Recency(log, n))
    ensures InOrder(log + [call], n)
  {
    var k, r := call.key, Recency(log, n);
    RecencyGrows(log, call, n);
    TouchedList(r, k);
    forall x
      ensures x in Without(r, k) + [k] <==> LastTouch(log + [call], n, x) >= 0
    {
      TouchUnfolds(log, n, call, x);
    }
    forall i, j | 0 <= i < j < |Without(r, k) + [k]|
      ensures LastTouch(log + [call], n, (Without(r, k) + [k])[i]) < LastTouch(log + [call], n, (Without(r, k) + [k])[j])
    {
      TouchedPair(log, n, call, r, i, j);
    }
  }

  /** The list holds exactly the touched keys, ordered by their last touch. */
  ghost predicate InOrder<V>(log: seq<Call<V>>, n: nat) {
    var r := Recency(log, n);
    && (forall k :: k in r <==> LastTouch(log, n, k) >= 0)
    && (forall i, j :: 0 <= i < j < |r| ==> LastTouch(log, n, r[i]) < LastTouch(log, n, r[j]))
  }

  lemma {:induction false} RecencyIsByLastTouch<V>(log: seq<Call<V>>, n: nat)
    ensures InOrder(log, n)
  {
    if log != [] {
      var call, before := log[|log| - 1], log[..|log| - 1];
      assert log == before + [call];
      RecencyIsByLastTouch(before, n);
      if !call.Clear? && Touches(call, Recency(before, n), n) {
        TouchedInOrder(before, n, call);
      }
    }
  }

  lemma RecencyIsDistinct<V>(log: seq<Call<V>>, n: nat)
    ensures Distinct(Recency(log, n))
  {
    RecencyIsByLastTouch(log, n);
  }

  lemma LastOfConcat(a: seq<Key>, b: seq<Key>, n: nat)
    requires |b| >= n
    ensures Last(a + b, n) == Last(b, n)
  {
  }

  /** Touching a key changes the last n keys just as it changes a list of at most n. */
  lemma TouchCommutes(r: seq<Key>, n: nat, k: Key)
    requires Distinct(r)
    ensures Last(Without(r, k) + [k], n) == Last(Without(Last(r, n), k) + [k], n)
  {
    if |r| > n {
      var p, c := r[..|r| - n], r[|r| - n..];
      assert r == p + c;
      TouchTail(p, c, n, k);
    }
  }

  lemma TouchTail(p: seq<Key>, c: seq<Key>, n: nat, k: Key)
    requires Distinct(p + c) && |c| == n
    ensures Last(Without(p + c, k) + [k], n) == Last(Without(c, k) + [k], n)
  {
    WithoutConcat(p, c, k);
    if k in p {
      NotInBoth(p, c, k);
      assert (Without(p, k) + c) + [k] == Without(p, k) + (c + [k]);
      LastOfConcat(Without(p, k), c + [k], n);
    } else {
      WithoutAt(c, k);
      assert (p + Without(c, k)) + [k] == p + (Without(c, k) + [k]);
      LastOfConcat(p, Without(c, k) + [k], n);
    }
  }

  lemma HitFits(c: seq<Key>, n: nat, k: Key)
    requires |c| <= n && k in c
    ensures Last(Without(c, k) + [k], n) == Without(c, k) + [k]
  {
    WithoutAt(c, k);
  }

  lemma NotInBoth(a: seq<Key>, b: seq<Key>, k: Key)
    requires Distinct(a + b) && k in a
    ensures k !in b
  {
    var i :| 0 <= i < |a| && a[i] == k;
    forall j | 0 <= j < |b|
      ensures b[j] != k
    {
      assert (a + b)[i] != (a + b)[|a| + j];
    }
  }

  lemma LastPutGrows<V>(log: seq<Call<V>>, call: Call<V>, k: Key)
    ensures LastPut(log + [call], k) == if call.Put? && call.key == k then Some(call.value) else LastPut(log, k)
  {
    assert (log + [call])[..|log|] == log;
  }

  lemma RecencyGrows<V>(log: seq<Call<V>>, call: Call<V>, n: nat)
    ensures var r := Recency(log, n);
            Recency(log + [call], n) ==
              if call.Clear? then []
              else if Touches(call, r, n) then Without(r, call.key) + [call.key]
              else r
  {
    assert (log + [call])[..|log|] == log;
  }

  lemma LastIsDistinct(r: seq<Key>, n: nat)
    requires Distinct(r)
    ensures Distinct(Last(r, n))
  {
  }

  /** What a put or a get does to the bounded list. */
  lemma ListMoves<V>(log: seq<Call<V>>, call: Call<V>, n: nat, r: seq<Key>)
    requires r == Recency(log, n) && !call.Clear?
    ensures var order, next := Last(r, n), Last(Recency(log + [call], n), n);
            && (call.Put? ==> next == Last(Without(order, call.key) + [call.key], n))
            && (call.Get? && call.key in order ==> next == Without(order, call.key) + [call.key])
            && (call.Get? && call.key !in order ==> next == order)
    ensures Distinct(Last(r, n))
  {
    RecencyGrows(log, call, n);
    RecencyIsDistinct(log, n);
    LastIsDistinct(r, n);
    TouchCommutes(r, n, call.key);
    if call.key in Last(r, n) {
      HitFits(Last(r, n), n, call.key);
    }
  }

  /** The map has the listed keys, each with its last put value. */
  ghost predicate Mirrors<V>(cache: map<Key, V>, order: seq<Key>, log: seq<Call<V>>) {
    && (forall k :: k in cache <==> k in order)
    && (forall k :: k in cache ==> LastPut(log, k) == Some(cache[k]))
  }

  lemma PutMirrors<V>(cache: map<Key, V>, order: seq<Key>, log: seq<Call<V>>, key: Key, value: V)
    requires Mirrors(cache, order, log) && Distinct(order)
    ensures Mirrors(cache[key := value], Without(order, key) + [key], log + [Put(key, value)])
  {
    TouchedList(order, key);
    forall k
      ensures LastPut(log + [Put(key, value)], k) == if k == key then Some(value) else LastPut(log, k)
    {
      LastPutGrows(log, Put(key, value), k);
    }
  }

  lemma GetMirrors<V>(cache: map<Key, V>, order: seq<Key>, log: seq<Call<V>>, key: Key)
    requires Mirrors(cache, order, log) && Distinct(order)
    ensures Mirrors(cache, order, log + [Get(key)])
    ensures key in order ==> Mirrors(cache, Without(order, key) + [key], log + [Get(key)])
  {
    TouchedList(order, key);
    forall k
      ensures LastPut(log + [Get(key)], k) == LastPut(log, k)
    {
      LastPutGrows(log, Get(key), k);
    }
  }

  lemma EvictMirrors<V>(cache: map<Key, V>, order: seq<Key>, log: seq<Call<V>>)
    requires Mirrors(cache, order, log) && Distinct(order) && order != []
    ensures Mirrors(cache - {order[0]}, order[1..], log) && Distinct(order[1..])
  {
    assert order == [order[0]] + order[1..];
  }

  class LRUCache<V> {
    const maxSize: nat
    var order: seq<Key>
    var cache: map<Key, V>
    ghost var log: seq<Call<V>>

    /** The cache holds the maxSize most recently touched keys, each with its last put value. */
    ghost predicate Valid()
      reads this
    {
      order == Last(Recency(log, maxSize), maxSize) && Mirrors(cache, order, log)
    }

    constructor (maxSize: nat)
      ensures Valid() && log == [] && this.maxSize == maxSize
    {
      this.maxSize := maxSize;
      order, cache, log := [], map[], [];
    }

    method Lookup(key: Key) returns (r: Option<V>)
      requires Valid()
      modifies this
      ensures Valid() && log == old(log) + [Get(key)]
      ensures r == if key in old(order) then LastPut(old(log), key) else None
    {
      ListMoves(log, Get(key), maxSize, Recency(log, maxSize));
      GetMirrors(cache, order, log, key);
      log := log + [Get(key)];
      if key in cache {
        order := Without(order, key) + [key];
        return Some(cache[key]);
      }
      r := None;
    }

    method Store(key: Key, value: V)
      requires Valid()
      modifies this
      ensures Valid() && log == old(log) + [Put(key, value)]
    {
      ListMoves(log, Put(key, value), maxSize, Recency(log, maxSize));
      PutMirrors(cache, order, log, key, value);
      TouchedList(order, key);
      ghost var all := log + [Put(key, value)];
      ghost var moved := Without(order, key) + [key];
      if key in cache {
        order := Without(order, key);
      }
      order := order + [key];
      cache := cache[key := value];
      assert order == moved;
      Evict(all);
      log := all;
    }

    /** The least recent entries go while there are too many. */
    method Evict(ghost all: seq<Call<V>>)
      requires Mirrors(cache, order, all) && Distinct(order)
      modifies this`order, this`cache
      ensures order == Last(old(order), maxSize) && Mirrors(cache, order, all)
    {
      while |order| > maxSize
        invariant Mirrors(cache, order, all) && Distinct(order)
        invariant Last(order, maxSize) == Last(old(order), maxSize)
      {
        EvictMirrors(cache, order, all);
        cache := cache - {order[0]};
        order := order[1..];
      }
    }

    method Empty()
      requires Valid()
      modifies this
      ensures Valid() && log == old(log) + [Clear]
    {
      order, cache, log := [], map[], log + [Clear];
    }
  }

  /** The keys touched after the last touch of k, since the last clear. */
  ghost function LaterKeys<V>(log: seq<Call<V>>, n: nat, k: Key): set<Key> {
    set x | x in Recency(log, n) && LastTouch(log, n, x) > LastTouch(log, n, k)
  }

  lemma {:induction false} DistinctCount(s: seq<Key>)
    requires Distinct(s)
    ensures |set x | x in s| == |s|
  {
    if s != [] {
      DistinctCount(s[1..]);
      assert s == [s[0]] + s[1..];
      assert (set x | x in s) == (set x | x in s[1..]) + {s[0]};
    }
  }

  lemma LaterIsTail<V>(log: seq<Call<V>>, n: nat, i: nat)
    requires i < |Recency(log, n)|
    ensures var r := Recency(log, n);
            var later := r[i + 1..];
            LaterKeys(log, n, r[i]) == set x | x in later
  {
    RecencyIsByLastTouch(log, n);
    var r := Recency(log, n);
    forall x | x in r
      ensures x in r[i + 1..] <==> LastTouch(log, n, x) > LastTouch(log, n, r[i])
    {
      var j :| 0 <= j < |r| && r[j] == x;
      if j > i {
        assert r[i + 1..][j - i - 1] == x;
      }
    }
  }

  /** A key is cached exactly when it was touched since the last clear and fewer than n other keys were touched
      after it. */
  lemma CachedIff<V>(log: seq<Call<V>>, n: nat, k: Key)
    ensures k in Last(Recency(log, n), n) <==> LastTouch(log, n, k) >= 0 && |LaterKeys(log, n, k)| < n
  {
    var r := Recency(log, n);
    RecencyIsByLastTouch(log, n);
    RecencyIsDistinct(log, n);
    if k in r {
      var i :| 0 <= i < |r| && r[i] == k;
      LaterIsTail(log, n, i);
      DistinctCount(r[i + 1..]);
      InLastIff(r, n, i);
    }
  }

  lemma InLastIff(r: seq<Key>, n: nat, i: nat)
    requires Distinct(r) && i < |r|
    ensures r[i] in Last(r, n) <==> |r| - i <= n
  {
  }
}
