/** An index from keys to lists, as a key/value store keeps it: no empty list is stored.  Changes are
    made in a cache of lists that is filled on demand from the store and written back at the end.
    What an index shows is the set of (key, element) pairs in it. */
module ListIndex {
  import opened Core

  /** The list of a key, seen through the cache. */
  function Peek<K, V>(cache: map<K, seq<V>>, store: map<K, seq<V>>, k: K): seq<V> {
    if k in cache then cache[k] else if k in store then store[k] else []
  }

  ghost predicate Shows<K(!new), V(!new)>(cache: map<K, seq<V>>, store: map<K, seq<V>>, items: set<(K, V)>) {
    && (forall k :: NoDup(Peek(cache, store, k)))
    && (forall k, v :: v in Peek(cache, store, k) <==> (k, v) in items)
  }

  ghost predicate Indexes<K(!new), V(!new)>(store: map<K, seq<V>>, items: set<(K, V)>) {
    && (forall k :: k in store ==> store[k] != [])
    && Shows(map[], store, items)
  }

  /** The element at `i` is overwritten with the last one, and the list shortened. */
  function SwapRemove<V>(s: seq<V>, i: nat): seq<V>
    requires i < |s|
  {
    s[i := s[|s| - 1]][..|s| - 1]
  }

  function RemoveAt<V>(s: seq<V>, i: nat): seq<V>
    requires i < |s|
  {
    s[..i] + s[i + 1..]
  }

  lemma {:induction false} SwapRemoveElements<V>(s: seq<V>, i: nat)
    requires i < |s| && NoDup(s)
    ensures NoDup(SwapRemove(s, i))
    ensures forall v :: v in SwapRemove(s, i) <==> v in s && v != s[i]
  {
    var t := SwapRemove(s, i);
    forall v | v in s && v != s[i] ensures v in t {
      var j :| 0 <= j < |s| && s[j] == v;
      if j == |s| - 1 {
        assert t[i] == v;
      } else {
        assert t[j] == v;
      }
    }
  }

  lemma {:induction false} RemoveAtElements<V>(s: seq<V>, i: nat)
    requires i < |s| && NoDup(s)
    ensures NoDup(RemoveAt(s, i))
    ensures forall v :: v in RemoveAt(s, i) <==> v in s && v != s[i]
  {
  }

  // ----- The cache -----

  lemma {:induction false} Loaded<K(!new), V(!new)>(cache: map<K, seq<V>>, store: map<K, seq<V>>, items: set<(K, V)>, k: K)
    requires Shows(cache, store, items)
    ensures Shows(cache[k := Peek(cache, store, k)], store, items)
  {
    var cache' := cache[k := Peek(cache, store, k)];
    assert forall j :: Peek(cache', store, j) == Peek(cache, store, j);
  }

  lemma {:induction false} Appended<K(!new), V(!new)>(cache: map<K, seq<V>>, store: map<K, seq<V>>, items: set<(K, V)>, k: K, v: V)
    requires Shows(cache, store, items) && (k, v) !in items
    ensures Shows(cache[k := Peek(cache, store, k) + [v]], store, items + {(k, v)})
  {
    var cache' := cache[k := Peek(cache, store, k) + [v]];
    assert v !in Peek(cache, store, k);
    assert forall j :: j != k ==> Peek(cache', store, j) == Peek(cache, store, j);
    assert Peek(cache', store, k) == Peek(cache, store, k) + [v];
  }

  /** Replacing a list by one without one of its elements. */
  lemma {:induction false} Removed<K(!new), V(!new)>(cache: map<K, seq<V>>, store: map<K, seq<V>>, items: set<(K, V)>, k: K, v: V, list: seq<V>)
    requires Shows(cache, store, items)
    requires NoDup(list) && forall w :: w in list <==> w in Peek(cache, store, k) && w != v
    ensures Shows(cache[k := list], store, items - {(k, v)})
  {
    var cache' := cache[k := list];
    assert forall j :: j != k ==> Peek(cache', store, j) == Peek(cache, store, j);
    assert Peek(cache', store, k) == list;
  }

  /** Write the cache back: an empty list deletes its key. */
  method Flush<K(==, !new), V(!new)>(cache: map<K, seq<V>>, store: map<K, seq<V>>) returns (store': map<K, seq<V>>)
    ensures forall k :: k in store' <==> if k in cache then cache[k] != [] else k in store
    ensures forall k :: k in store' ==> store'[k] == Peek(cache, store, k)
  {
    store' := store;
    var keys := cache.Keys;
    while keys != {}
      invariant keys <= cache.Keys
      invariant forall k :: k in store' <==> if k in cache && k !in keys then cache[k] != [] else k in store
      invariant forall k :: k in store' ==> store'[k] == if k in keys then store[k] else Peek(cache, store, k)
      decreases |keys|
    {
      var k :| k in keys;
      if cache[k] == [] {
        store' := store' - {k};
      } else {
        store' := store'[k := cache[k]];
      }
      keys := keys - {k};
    }
  }

  lemma {:induction false} Flushed<K(!new), V(!new)>(cache: map<K, seq<V>>, store: map<K, seq<V>>, store': map<K, seq<V>>, items: set<(K, V)>)
    requires forall k :: k in store ==> store[k] != []
    requires Shows(cache, store, items)
    requires forall k :: k in store' <==> if k in cache then cache[k] != [] else k in store
    requires forall k :: k in store' ==> store'[k] == Peek(cache, store, k)
    ensures Indexes(store', items)
  {
  }

  // ----- Lists up to order -----

  lemma {:induction false} SameElementsSameMultiset<V>(s: seq<V>, t: seq<V>)
    requires NoDup(s) && NoDup(t)
    requires forall v :: v in s <==> v in t
    ensures multiset(s) == multiset(t)
  {
    forall v ensures multiset(s)[v] == multiset(t)[v] {
      CountNoDup(s, v);
      CountNoDup(t, v);
    }
  }

  lemma {:induction false} CountNoDup<V>(s: seq<V>, v: V)
    requires NoDup(s)
    ensures multiset(s)[v] == if v in s then 1 else 0
  {
    if s != [] {
      var last := |s| - 1;
      CountNoDup(s[..last], v);
      assert s == s[..last] + [s[last]];
    }
  }

  ghost predicate SameUpToOrder<K, V>(a: map<K, seq<V>>, b: map<K, seq<V>>) {
    && a.Keys == b.Keys
    && forall k :: k in a ==> multiset(a[k]) == multiset(b[k])
  }

  /** Two indexes that show the same pairs are equal up to the order of their lists. */
  lemma {:induction false} IndexUnique<K(!new), V(!new)>(a: map<K, seq<V>>, b: map<K, seq<V>>, items: set<(K, V)>)
    requires Indexes(a, items) && Indexes(b, items)
    ensures SameUpToOrder(a, b)
  {
    forall k ensures k in a <==> k in b {
      if k in a {
        assert a[k][0] in Peek(map[], a, k);
        assert (k, a[k][0]) in items;
        assert a[k][0] in Peek(map[], b, k);
      }
      if k in b {
        assert b[k][0] in Peek(map[], b, k);
        assert (k, b[k][0]) in items;
        assert b[k][0] in Peek(map[], a, k);
      }
    }
    forall k | k in a ensures multiset(a[k]) == multiset(b[k]) {
      assert Peek(map[], a, k) == a[k] && Peek(map[], b, k) == b[k];
      forall v ensures v in a[k] <==> v in b[k] {
        assert v in Peek(map[], a, k) <==> (k, v) in items;
        assert v in Peek(map[], b, k) <==> (k, v) in items;
      }
      SameElementsSameMultiset(a[k], b[k]);
    }
  }
}
