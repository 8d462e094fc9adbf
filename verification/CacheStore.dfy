/** `_cache_store`, updating the cache in place. */
module CacheStore {
  import opened Prelude
  import opened ResponseCache

  predicate Distinct<T(==)>(xs: seq<T>) {
    forall i, j | 0 <= i < j < |xs| :: xs[i] != xs[j]
  }

  lemma {:induction false} DistinctCount<T>(xs: seq<T>)
    requires Distinct(xs)
    ensures |set x | x in xs| == |xs|
  {
    if xs == [] {
      assert (set x | x in xs) == {};
    } else {
      DistinctCount(xs[1..]);
      assert xs == [xs[0]] + xs[1..];
      assert (set x | x in xs) == {xs[0]} + set x | x in xs[1..];
    }
  }

  /** Some entry among `keys` that was stored no later than any other. */
  method Oldest(m: map<Key, Hit>, keys: set<Key>) returns (k: Key)
    requires keys != {} && keys <= m.Keys
    ensures k in keys && forall j | j in keys :: m[k].ts <= m[j].ts
  {
    k :| k in keys;
    var rest := keys - {k};
    while rest != {}
      invariant rest <= keys && k in keys
      invariant forall j | j in keys - rest :: m[k].ts <= m[j].ts
      decreases rest
    {
      var j :| j in rest;
      if m[j].ts < m[k].ts {
        k := j;
      }
      rest := rest - {j};
    }
  }

  /** All keys but `rest`, each once, oldest entry first. */
  ghost predicate ByAge(m: map<Key, Hit>, order: seq<Key>, rest: set<Key>) {
    && Distinct(order)
    && (forall i | 0 <= i < |order| :: order[i] in m && order[i] !in rest)
    && (forall k | k in m && k !in rest :: k in order)
    && (forall i, j | 0 <= i < j < |order| :: m[order[i]].ts <= m[order[j]].ts)
    && (forall i, k | 0 <= i < |order| && k in rest && k in m :: m[order[i]].ts <= m[k].ts)
  }

  /** `sorted(_resp_cache, key=...)`. */
  method SortedByAge(m: map<Key, Hit>) returns (order: seq<Key>)
    ensures ByAge(m, order, {})
  {
    order := [];
    var rest := m.Keys;
    while rest != {}
      invariant rest <= m.Keys && ByAge(m, order, rest)
      decreases rest
    {
      var k := Oldest(m, rest);
      forall j | j in m && j !in rest - {k} ensures j in order + [k] {}
      order := order + [k];
      rest := rest - {k};
    }
  }

  ghost function First(order: seq<Key>, n: nat): set<Key>
    requires n <= |order|
  {
    set k | k in order[..n]
  }

  /** The front of the order is what eviction may take. */
  lemma FrontIsEvictable(m: map<Key, Hit>, order: seq<Key>)
    requires ByAge(m, order, {}) && |m| >= RESP_CACHE_MAX
    ensures |order| >= EVICTED && Evictable(m, First(order, EVICTED))
  {
    DistinctCount(order);
    assert (set k | k in order) == m.Keys;
    assert |m.Keys| == |m|;
    DistinctCount(order[..EVICTED]);
    var victims := First(order, EVICTED);
    forall v, k | v in victims && k in m.Keys - victims
      ensures m[v].ts <= m[k].ts
    {
      var i :| 0 <= i < EVICTED && order[i] == v;
      var j :| 0 <= j < |order| && order[j] == k;
    }
  }

  class RespCache {
    var entries: map<Key, Hit>

    constructor ()
      ensures entries == map[]
    {
      entries := map[];
    }

    /** The pops of a full cache. */
    method Pop(order: seq<Key>)
      requires EVICTED <= |order|
      modifies this
      ensures entries == old(entries) - First(order, EVICTED)
    {
      for i := 0 to EVICTED
        invariant entries == old(entries) - First(order, i)
      {
        assert order[..i + 1] == order[..i] + [order[i]];
        entries := entries - {order[i]};
      }
    }

    /** Make room by dropping the oldest quarter when full, then put the entry in. */
    method Store(key: Key, now: real, val: Payload) returns (r: Payload, ghost victims: set<Key>)
      requires |entries| <= RESP_CACHE_MAX
      modifies this
      ensures r == val
      ensures Evictable(old(entries), victims)
      ensures entries == AfterStore(old(entries), victims, key, Hit(now, val))
      ensures |entries| <= RESP_CACHE_MAX
    {
      victims := {};
      if |entries| >= RESP_CACHE_MAX {
        var order := SortedByAge(entries);
        FrontIsEvictable(entries, order);
        Pop(order);
        victims := First(order, EVICTED);
      }
      assert entries == old(entries) - victims;
      StoreKeepsTheLimit(old(entries), victims, key, Hit(now, val));
      entries := entries[key := Hit(now, val)];
      r := val;
    }
  }
}
