/**
 * A JavaScript `Map<K, V>`: a finite mapping that also remembers the order in
 * which its keys were first inserted. `set` on a present key replaces the
 * value and keeps the key's position; on a new key it appends. Iteration
 * (`forEach`) visits the values in that order.
 */
module JsMaps {
  import opened Wrappers

  datatype JsMap<K(==, !new), V> = JsMap(order: seq<K>, entries: map<K, V>) {

    /** The keys in `order` are distinct and are exactly the keys of `entries`. */
    ghost predicate Valid() {
      && (forall i, j :: 0 <= i < j < |order| ==> order[i] != order[j])
      && (forall k :: k in entries <==> k in order)
    }

    /** `m.get(k)` */
    function Get(k: K): Option<V> {
      if k in entries then Some(entries[k]) else None
    }

    /** `m.set(k, v)` */
    function Set(k: K, v: V): (m: JsMap<K, V>)
      requires Valid()
      ensures m.Valid()
      ensures m.Get(k) == Some(v)
      ensures forall k' :: k' != k ==> m.Get(k') == Get(k')
      ensures k in entries ==> m.order == order
      ensures k !in entries ==> m.order == order + [k]
    {
      if k in entries then JsMap(order, entries[k := v])
      else JsMap(order + [k], entries[k := v])
    }

    /** The values in iteration order, as `forEach` visits them. */
    function Values(): seq<V>
      requires Valid()
    {
      ValuesOf(order, entries)
    }
  }

  /** `new Map()` */
  function Empty<K(==, !new), V>(): (m: JsMap<K, V>)
    ensures m.Valid() && m.order == []
    ensures forall k :: m.Get(k) == None
  {
    JsMap([], map[])
  }

  function ValuesOf<K(==, !new), V>(order: seq<K>, entries: map<K, V>): (vs: seq<V>)
    requires forall k :: k in order ==> k in entries
    ensures |vs| == |order|
    ensures forall i :: 0 <= i < |order| ==> vs[i] == entries[order[i]]
  {
    if order == [] then []
    else ValuesOf(order[..|order| - 1], entries) + [entries[order[|order| - 1]]]
  }

  /** Two valid maps with the same key order and the same lookups are equal. */
  lemma Extensionality<K(!new), V>(m1: JsMap<K, V>, m2: JsMap<K, V>)
    requires m1.Valid() && m2.Valid()
    requires m1.order == m2.order
    requires forall k :: m1.Get(k) == m2.Get(k)
    ensures m1 == m2
  {
    assert forall k :: k in m1.entries <==> k in m2.entries;
    forall k | k in m1.entries ensures m1.entries[k] == m2.entries[k] {
      assert m1.Get(k) == m2.Get(k);
    }
    assert m1.entries == m2.entries;
  }

  /** The map without its first key, as `m.delete(k)` on that key leaves it. */
  function DropFirst<K(==, !new), V>(m: JsMap<K, V>): (d: JsMap<K, V>)
    requires m.Valid() && m.order != []
    ensures d.Valid()
    ensures forall k :: d.Get(k) == if k == m.order[0] then None else m.Get(k)
  {
    var d := JsMap(m.order[1..], m.entries - {m.order[0]});
    assert forall k :: k in d.order ==> k in m.order[1..];
    d
  }

  /** Dropping the first key drops the first value. */
  lemma DropFirstValues<K(!new), V>(m: JsMap<K, V>)
    requires m.Valid() && m.order != []
    ensures DropFirst(m).Values() == m.Values()[1..]
  {
    var d, vs := DropFirst(m), m.Values();
    forall i | 0 <= i < |d.order| ensures d.Values()[i] == vs[1..][i] {
      assert d.order[i] == m.order[i + 1] != m.order[0];
    }
  }

  // ---------------------------------------------------------------------------
  // Setting a sequence of pairs in turn

  /** `for (const [k, v] of kvs) m.set(k, v)`: the map after setting each pair in turn. */
  function SetAll<K(==, !new), V>(m: JsMap<K, V>, kvs: seq<(K, V)>): (r: JsMap<K, V>)
    requires m.Valid()
    ensures r.Valid()
  {
    if kvs == [] then m
    else SetAll(m, kvs[..|kvs| - 1]).Set(kvs[|kvs| - 1].0, kvs[|kvs| - 1].1)
  }

  /** The value of the last pair with key `k`, if any. */
  function LastFor<K(==), V>(kvs: seq<(K, V)>, k: K): Option<V> {
    if kvs == [] then None
    else if kvs[|kvs| - 1].0 == k then Some(kvs[|kvs| - 1].1)
    else LastFor(kvs[..|kvs| - 1], k)
  }

  /** One more pair is one more `set`. */
  lemma SetAllStep<K(!new), V>(m: JsMap<K, V>, kvs: seq<(K, V)>, i: nat)
    requires m.Valid() && i < |kvs|
    ensures SetAll(m, kvs[..i + 1]) == SetAll(m, kvs[..i]).Set(kvs[i].0, kvs[i].1)
  {
    var prefix := kvs[..i + 1];
    assert prefix[..|prefix| - 1] == kvs[..i];
    assert prefix[|prefix| - 1] == kvs[i];
  }

  /** The value `LastFor` finds comes from a pair with that key. */
  lemma {:induction false} LastForIndex<K, V>(kvs: seq<(K, V)>, k: K) returns (i: nat)
    requires LastFor(kvs, k).Some?
    ensures i < |kvs| && kvs[i] == (k, LastFor(kvs, k).value)
  {
    var n := |kvs| - 1;
    if kvs[n].0 == k {
      i := n;
    } else {
      i := LastForIndex(kvs[..n], k);
    }
  }

  /** Whenever some pair has key `k`, `LastFor` finds a value for it. */
  lemma {:induction false} LastForFound<K, V>(kvs: seq<(K, V)>, k: K, i: nat)
    requires i < |kvs| && kvs[i].0 == k
    ensures LastFor(kvs, k).Some?
  {
    var n := |kvs| - 1;
    if kvs[n].0 != k {
      assert kvs[..n][i] == kvs[i];
      LastForFound(kvs[..n], k, i);
    }
  }

  /** After the pairs, a key holds the last value set for it; any other key keeps its value. */
  lemma {:induction false} SetAllGet<K(!new), V>(m: JsMap<K, V>, kvs: seq<(K, V)>, k: K)
    requires m.Valid()
    ensures SetAll(m, kvs).Get(k) == if LastFor(kvs, k).Some? then LastFor(kvs, k) else m.Get(k)
  {
    if kvs != [] {
      SetAllGet(m, kvs[..|kvs| - 1], k);
    }
  }

  /**
   * Keys already present keep their positions and new keys follow them; when
   * every pair's key is already present, the order does not change at all.
   */
  lemma {:induction false} SetAllOrder<K(!new), V>(m: JsMap<K, V>, kvs: seq<(K, V)>)
    requires m.Valid()
    ensures m.order <= SetAll(m, kvs).order
    ensures (forall i :: 0 <= i < |kvs| ==> kvs[i].0 in m.entries) ==> SetAll(m, kvs).order == m.order
  {
    if kvs != [] {
      var n := |kvs| - 1;
      SetAllOrder(m, kvs[..n]);
      if forall i :: 0 <= i < |kvs| ==> kvs[i].0 in m.entries {
        assert forall i :: 0 <= i < n ==> kvs[..n][i] == kvs[i];
        assert kvs[n].0 in SetAll(m, kvs[..n]).order;
      }
    }
  }

  /** Setting pairs that the map already holds, as their last values, changes nothing. */
  lemma SetAllFixpoint<K(!new), V>(m: JsMap<K, V>, kvs: seq<(K, V)>)
    requires m.Valid()
    requires forall k :: LastFor(kvs, k).Some? ==> m.Get(k) == LastFor(kvs, k)
    ensures SetAll(m, kvs) == m
  {
    forall i | 0 <= i < |kvs| ensures kvs[i].0 in m.entries {
      LastForFound(kvs, kvs[i].0, i);
    }
    SetAllOrder(m, kvs);
    forall k ensures SetAll(m, kvs).Get(k) == m.Get(k) {
      SetAllGet(m, kvs, k);
    }
    Extensionality(SetAll(m, kvs), m);
  }

  /** The (key, value) pairs of a map in iteration order, as `m.entries()` lists them. */
  function Entries<K(==, !new), V>(m: JsMap<K, V>): (kvs: seq<(K, V)>)
    requires m.Valid()
    ensures |kvs| == |m.order|
    ensures forall i :: 0 <= i < |kvs| ==> kvs[i] == (m.order[i], m.entries[m.order[i]])
  {
    seq(|m.order|, i requires 0 <= i < |m.order| => (m.order[i], m.entries[m.order[i]]))
  }

  lemma PrefixSnoc<T>(s: seq<T>, n: nat)
    requires 0 < n <= |s|
    ensures s[..n - 1] + [s[n - 1]] == s[..n]
  {
  }

  /** The first `n` entries of a map. */
  function Prefix<K(==, !new), V>(m: JsMap<K, V>, n: nat): (p: JsMap<K, V>)
    requires m.Valid() && n <= |m.order|
    ensures p.Valid()
  {
    JsMap(m.order[..n], map k | k in m.order[..n] :: m.entries[k])
  }

  /** All of a map's entries are the map. */
  lemma PrefixAll<K(!new), V>(m: JsMap<K, V>)
    requires m.Valid()
    ensures Prefix(m, |m.order|) == m
  {
    assert m.order[..|m.order|] == m.order;
  }

  /** Setting the next entry of a map extends the prefix by that entry. */
  lemma PrefixStep<K(!new), V>(m: JsMap<K, V>, n: nat)
    requires m.Valid() && 0 < n <= |m.order|
    ensures Prefix(m, n - 1).Set(Entries(m)[n - 1].0, Entries(m)[n - 1].1) == Prefix(m, n)
  {
    var prev, key := Prefix(m, n - 1), m.order[n - 1];
    assert Entries(m)[n - 1] == (key, m.entries[key]);
    assert key !in prev.entries;
    var next := prev.Set(key, m.entries[key]);
    PrefixSnoc(m.order, n);
    assert next.entries == Prefix(m, n).entries by {
      forall k ensures k in next.entries <==> k in Prefix(m, n).entries {
        assert k in m.order[..n] <==> k in m.order[..n - 1] || k == key;
      }
    }
  }

  lemma {:induction false} SetAllEntriesPrefix<K(!new), V>(m: JsMap<K, V>, n: nat)
    requires m.Valid() && n <= |m.order|
    ensures SetAll(Empty(), Entries(m)[..n]) == Prefix(m, n)
  {
    if n > 0 {
      var kvs := Entries(m);
      SetAllStep(Empty(), kvs, n - 1);
      SetAllEntriesPrefix(m, n - 1);
      PrefixStep(m, n);
    }
  }

  /** Setting a map's own entries, in order, into a new map rebuilds it. */
  lemma SetAllEntries<K(!new), V>(m: JsMap<K, V>)
    requires m.Valid()
    ensures SetAll(Empty(), Entries(m)) == m
  {
    var n := |m.order|;
    SetAllEntriesPrefix(m, n);
    PrefixAll(m);
    assert Entries(m)[..n] == Entries(m);
  }
}
