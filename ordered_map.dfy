/** A JavaScript `Map` with string keys. Besides its entries it remembers the order in
    which keys were first inserted, which is the order `values()` yields them in. */
module OrderedMap {
  import opened Wrappers

  /** No key occurs twice. */
  ghost predicate NoDuplicates(s: seq<string>) {
    s == [] || (s[0] !in s[1..] && NoDuplicates(s[1..]))
  }

  /** `entries` holds the key/value pairs; `order` lists each key once, oldest first. */
  datatype OMap<V> = OMap(order: seq<string>, entries: map<string, V>)

  ghost predicate Valid<V>(m: OMap<V>) {
    && NoDuplicates(m.order)
    && (forall k :: k in m.entries <==> k in m.order)
  }

  /** No two keys hold the same value (true of a table whose records carry their own key). */
  ghost predicate Injective<V>(e: map<string, V>) {
    forall k1, k2 :: k1 in e && k2 in e && e[k1] == e[k2] ==> k1 == k2
  }

  /** `new Map()` */
  function Empty<V>(): (m: OMap<V>)
    ensures Valid(m) && m.entries == map[] && m.order == []
  {
    OMap([], map[])
  }

  /** `map.get(k)` */
  function Get<V>(m: OMap<V>, k: string): (r: Option<V>)
    ensures r.Some? <==> k in m.entries
    ensures r.Some? ==> r.value == m.entries[k]
  {
    if k in m.entries then Some(m.entries[k]) else None
  }

  lemma {:induction false} AppendFresh(s: seq<string>, k: string)
    requires NoDuplicates(s) && k !in s
    ensures NoDuplicates(s + [k])
  {
    if s != [] {
      assert (s + [k])[1..] == s[1..] + [k];
      AppendFresh(s[1..], k);
    }
  }

  /** `map.set(k, v)`: a new key goes to the end of the order, a present key keeps its place. */
  function Put<V>(m: OMap<V>, k: string, v: V): (r: OMap<V>)
    requires Valid(m)
    ensures Valid(r)
    ensures r.entries == m.entries[k := v]
    ensures r.order == if k in m.entries then m.order else m.order + [k]
  {
    if k in m.entries then OMap(m.order, m.entries[k := v])
    else
      AppendFresh(m.order, k);
      OMap(m.order + [k], m.entries[k := v])
  }

  /** The keys of `s` other than `k`, in their order. */
  function RemoveKey(s: seq<string>, k: string): (r: seq<string>)
    ensures forall x :: x in r <==> x in s && x != k
    ensures NoDuplicates(s) ==> NoDuplicates(r)
  {
    if s == [] then []
    else if s[0] == k then RemoveKey(s[1..], k)
    else
      var rest := RemoveKey(s[1..], k);
      assert ([s[0]] + rest)[1..] == rest;
      [s[0]] + rest
  }

  /** `map.delete(k)`; the boolean the source returns is `k in m.entries` beforehand. */
  function Remove<V>(m: OMap<V>, k: string): (r: OMap<V>)
    requires Valid(m)
    ensures Valid(r)
    ensures r.entries == m.entries - {k}
    ensures r.order == RemoveKey(m.order, k)
  {
    OMap(RemoveKey(m.order, k), m.entries - {k})
  }

  /** The values stored under `order`, in that order. */
  function ValuesOf<V>(order: seq<string>, entries: map<string, V>): (r: seq<V>)
    requires forall k :: k in order ==> k in entries
    ensures |r| == |order|
    ensures forall i :: 0 <= i < |order| ==> r[i] == entries[order[i]]
  {
    if order == [] then [] else [entries[order[0]]] + ValuesOf(order[1..], entries)
  }

  /** `Array.from(map.values())` */
  function Values<V>(m: OMap<V>): (r: seq<V>)
    requires Valid(m)
    ensures |r| == |m.order|
    ensures forall i :: 0 <= i < |r| ==> r[i] == m.entries[m.order[i]]
  {
    ValuesOf(m.order, m.entries)
  }

  lemma {:induction false} ValuesOfCount<V>(order: seq<string>, entries: map<string, V>, v: V)
    requires forall k :: k in order ==> k in entries
    requires NoDuplicates(order) && Injective(entries)
    ensures multiset(ValuesOf(order, entries))[v]
         == if exists k :: k in order && entries[k] == v then 1 else 0
  {
    if order != [] {
      var rest := order[1..];
      ValuesOfCount(rest, entries, v);
      assert ValuesOf(order, entries) == [entries[order[0]]] + ValuesOf(rest, entries);
      if entries[order[0]] == v {
        assert order[0] !in rest;
        assert !exists k :: k in rest && entries[k] == v;
      } else {
        assert (exists k :: k in order && entries[k] == v)
           <==> (exists k :: k in rest && entries[k] == v) by {
          forall k | k in order && entries[k] == v ensures k in rest {
            assert k == order[0] || k in rest;
          }
        }
      }
    }
  }

  /** Every stored value once, and nothing else, when keys hold distinct values. */
  lemma ValuesCount<V>(m: OMap<V>)
    requires Valid(m) && Injective(m.entries)
    ensures forall v :: multiset(Values(m))[v] == if v in m.entries.Values then 1 else 0
  {
    forall v ensures multiset(Values(m))[v] == if v in m.entries.Values then 1 else 0 {
      ValuesOfCount(m.order, m.entries, v);
      if v in m.entries.Values {
        var k :| k in m.entries && m.entries[k] == v;
        assert k in m.order;
      }
    }
  }

  /** Reading a key right after setting it gives the value set. */
  lemma GetAfterPut<V>(m: OMap<V>, k: string, v: V, other: string)
    requires Valid(m)
    ensures Get(Put(m, k, v), k) == Some(v)
    ensures other != k ==> Get(Put(m, k, v), other) == Get(m, other)
  {
  }
}
