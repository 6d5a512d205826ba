// Listings built by iterating over a map whose iteration order the program does not control
// (a HashMap's entry set, a blob-store listing): the result holds one entry per key, each
// computed from the key and its value, in some order.

module Listings {

  /** `entries` holds, for exactly the keys in `listed`, each once, the entry `entryOf` makes
      from the key and its value in `m`; `keyOf` reads the key back from an entry. */
  ghost predicate ListsSome<K, V, E>(entries: seq<E>, listed: set<K>, m: map<K, V>, entryOf: (K, V) -> E, keyOf: E -> K) {
    && |entries| == |listed|
    && (forall i :: 0 <= i < |entries| ==>
          keyOf(entries[i]) in listed && keyOf(entries[i]) in m && entries[i] == entryOf(keyOf(entries[i]), m[keyOf(entries[i])]))
    && (forall i, j :: 0 <= i < j < |entries| ==> keyOf(entries[i]) != keyOf(entries[j]))
    && (forall k :: k in listed ==> exists i :: 0 <= i < |entries| && keyOf(entries[i]) == k)
  }

  /** One entry per key of `m`, each once. */
  ghost predicate Lists<K, V, E>(entries: seq<E>, m: map<K, V>, entryOf: (K, V) -> E, keyOf: E -> K) {
    ListsSome(entries, m.Keys, m, entryOf, keyOf)
  }

  lemma ListOneMore<K, V, E>(entries: seq<E>, listed: set<K>, m: map<K, V>, entryOf: (K, V) -> E, keyOf: E -> K, k: K)
    requires forall k', v :: keyOf(entryOf(k', v)) == k'
    requires ListsSome(entries, listed, m, entryOf, keyOf) && k in m && k !in listed
    ensures ListsSome(entries + [entryOf(k, m[k])], listed + {k}, m, entryOf, keyOf)
  {
    var next := entries + [entryOf(k, m[k])];
    assert keyOf(next[|entries|]) == k;
    forall i | 0 <= i < |next|
      ensures keyOf(next[i]) in listed + {k} && keyOf(next[i]) in m && next[i] == entryOf(keyOf(next[i]), m[keyOf(next[i])])
    {
      if i < |entries| {
        assert next[i] == entries[i];
      }
    }
    forall i, j | 0 <= i < j < |next|
      ensures keyOf(next[i]) != keyOf(next[j])
    {
      assert next[i] == entries[i];
      if j < |entries| {
        assert next[j] == entries[j];
      }
    }
    forall k' | k' in listed + {k}
      ensures exists i :: 0 <= i < |next| && keyOf(next[i]) == k'
    {
      if k' == k {
        assert keyOf(next[|entries|]) == k';
      } else {
        var i :| 0 <= i < |entries| && keyOf(entries[i]) == k';
        assert next[i] == entries[i];
      }
    }
  }

  /** The iteration itself: visits the keys in an order the model leaves open. */
  method ListAll<K(==), V, E>(m: map<K, V>, entryOf: (K, V) -> E, keyOf: E -> K) returns (entries: seq<E>)
    requires forall k, v :: keyOf(entryOf(k, v)) == k
    ensures Lists(entries, m, entryOf, keyOf)
  {
    var pending := m.Keys;
    ghost var listed: set<K> := {};
    entries := [];
    while pending != {}
      invariant pending !! listed && pending + listed == m.Keys
      invariant ListsSome(entries, listed, m, entryOf, keyOf)
      invariant forall k, v :: keyOf(entryOf(k, v)) == k
      decreases pending
    {
      var k :| k in pending;
      ListOneMore(entries, listed, m, entryOf, keyOf, k);
      entries := entries + [entryOf(k, m[k])];
      pending := pending - {k};
      listed := listed + {k};
    }
  }
}
