/** An insertion-ordered dictionary, as Python's `dict` behaves: a sequence of
    (key, value) pairs with distinct keys. Assigning to an existing key keeps
    its position; assigning to a new key appends it. */
module OrderedMap {
  import opened Wrappers

  type OrderedMap<K, V> = seq<(K, V)>

  function Keys<K, V>(m: OrderedMap<K, V>): (ks: seq<K>)
    ensures |ks| == |m|
    ensures forall i :: 0 <= i < |m| ==> ks[i] == m[i].0
  {
    seq(|m|, i requires 0 <= i < |m| => m[i].0)
  }

  /** Every key occurs once, which every Python dict guarantees. */
  predicate Valid<K(==), V>(m: OrderedMap<K, V>) {
    forall i, j :: 0 <= i < j < |m| ==> m[i].0 != m[j].0
  }

  /** `m.get(k)`: the value stored under `k`, if any. */
  function Get<K(==), V>(m: OrderedMap<K, V>, k: K): (r: Option<V>)
    ensures r.Some? <==> k in Keys(m)
    decreases |m|
  {
    if |m| == 0 then None
    else if m[0].0 == k then Some(m[0].1)
    else Get(m[1..], k)
  }

  /** `m[k] = v`. */
  function Put<K(==), V>(m: OrderedMap<K, V>, k: K, v: V): OrderedMap<K, V>
    decreases |m|
  {
    if |m| == 0 then [(k, v)]
    else if m[0].0 == k then [(k, v)] + m[1..]
    else [m[0]] + Put(m[1..], k, v)
  }

  /** `m.update(other)`: the entries of `other` assigned one by one, in order. */
  function Update<K(==), V>(m: OrderedMap<K, V>, other: OrderedMap<K, V>): OrderedMap<K, V>
    decreases |other|
  {
    if |other| == 0 then m
    else Update(Put(m, other[0].0, other[0].1), other[1..])
  }

  /** The first entry under a key is the one a lookup finds. */
  lemma {:induction false} GetFirst<K, V>(m: OrderedMap<K, V>, i: nat)
    requires i < |m|
    requires forall j :: 0 <= j < i ==> m[j].0 != m[i].0
    ensures Get(m, m[i].0) == Some(m[i].1)
    decreases i
  {
    if i > 0 {
      GetFirst(m[1..], i - 1);
    }
  }

  /** After `m[k] = v`, looking up `k` gives `v`. */
  lemma {:induction false} PutGetSame<K, V>(m: OrderedMap<K, V>, k: K, v: V)
    ensures Get(Put(m, k, v), k) == Some(v)
    decreases |m|
  {
    if |m| > 0 && m[0].0 != k {
      PutGetSame(m[1..], k, v);
    }
  }

  /** After `m[k] = v`, every other key keeps its value (or its absence). */
  lemma {:induction false} PutGetOther<K, V>(m: OrderedMap<K, V>, k: K, v: V, k': K)
    requires k' != k
    ensures Get(Put(m, k, v), k') == Get(m, k')
    decreases |m|
  {
    if |m| > 0 && m[0].0 != k {
      PutGetOther(m[1..], k, v, k');
    }
  }

  /** Setting one key leaves every other key's lookup alone. */
  lemma PutGetOthers<K, V>(m: OrderedMap<K, V>, k: K, v: V)
    ensures forall k' :: k' != k ==> Get(Put(m, k, v), k') == Get(m, k')
  {
    forall k' | k' != k
      ensures Get(Put(m, k, v), k') == Get(m, k')
    {
      PutGetOther(m, k, v, k');
    }
  }

  /** Overwriting keeps the key order; a new key goes last. */
  lemma {:induction false} PutKeys<K, V>(m: OrderedMap<K, V>, k: K, v: V)
    ensures Keys(Put(m, k, v)) == if k in Keys(m) then Keys(m) else Keys(m) + [k]
    decreases |m|
  {
    if |m| > 0 {
      assert Keys(m) == [m[0].0] + Keys(m[1..]);
      if m[0].0 != k {
        PutKeys(m[1..], k, v);
        assert Keys(Put(m, k, v)) == [m[0].0] + Keys(Put(m[1..], k, v));
      } else {
        assert Keys(Put(m, k, v)) == [k] + Keys(m[1..]);
      }
    }
  }

  lemma KeysDistinctValid<K, V>(m: OrderedMap<K, V>)
    requires forall i, j :: 0 <= i < j < |Keys(m)| ==> Keys(m)[i] != Keys(m)[j]
    ensures Valid(m)
  {
    forall i, j | 0 <= i < j < |m|
      ensures m[i].0 != m[j].0
    {
      assert Keys(m)[i] == m[i].0 && Keys(m)[j] == m[j].0;
    }
  }

  /** `m[k] = v` keeps the keys distinct. */
  lemma PutValid<K, V>(m: OrderedMap<K, V>, k: K, v: V)
    requires Valid(m)
    ensures Valid(Put(m, k, v))
  {
    PutKeys(m, k, v);
    var ks := Keys(Put(m, k, v));
    forall i, j | 0 <= i < j < |ks|
      ensures ks[i] != ks[j]
    {
      if k !in Keys(m) && j == |m| {
        assert ks[i] == Keys(m)[i];
      } else {
        assert ks[i] == m[i].0 && ks[j] == m[j].0;
      }
    }
    KeysDistinctValid(Put(m, k, v));
  }

  /** `m.update(other)` is a shallow merge: keys of `other` take its value,
      every other key keeps the value it had in `m`. */
  lemma {:induction false} UpdateGet<K, V>(m: OrderedMap<K, V>, other: OrderedMap<K, V>, k: K)
    requires Valid(other)
    ensures Get(Update(m, other), k) == if k in Keys(other) then Get(other, k) else Get(m, k)
    decreases |other|
  {
    if |other| > 0 {
      var m' := Put(m, other[0].0, other[0].1);
      assert Valid(other[1..]);
      UpdateGet(m', other[1..], k);
      assert Keys(other) == [other[0].0] + Keys(other[1..]);
      if k == other[0].0 {
        PutGetSame(m, k, other[0].1);
        assert k !in Keys(other[1..]);
      } else {
        PutGetOther(m, other[0].0, other[0].1, k);
      }
    }
  }

  /** `m.update(other)` keeps the keys distinct. */
  lemma {:induction false} UpdateValid<K, V>(m: OrderedMap<K, V>, other: OrderedMap<K, V>)
    requires Valid(m)
    ensures Valid(Update(m, other))
    decreases |other|
  {
    if |other| > 0 {
      PutValid(m, other[0].0, other[0].1);
      UpdateValid(Put(m, other[0].0, other[0].1), other[1..]);
    }
  }
}
