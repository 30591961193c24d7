/** The fragment of PHP's value model that the core relies on: ordered arrays
    with unique keys, the values stored in them, array indexing, and the
    Illuminate Collection that wraps an array. */
module Php {
  import opened PhpAmqpLib

  datatype Option<T> = None | Some(value: T)

  /** An array key: PHP keys are integers or strings. */
  datatype Key = IntKey(i: int) | StrKey(s: string)

  /** A PHP value as it appears in the configuration arrays of the core.
      The two library constants are kept symbolic. */
  datatype Value =
    | Null
    | Bool(b: bool)
    | Int(i: int)
    | Str(s: string)
    | Array(items: seq<(Key, Value)>)
    | ExchangeTypeConst(t: ExchangeType)
    | DeliveryModeConst(m: DeliveryMode)

  /** No key occurs twice: every PHP array has this property. */
  ghost predicate DistinctKeys<K, V>(a: seq<(K, V)>) {
    forall i, j :: 0 <= i < j < |a| ==> a[i].0 != a[j].0
  }

  /** A PHP array: its entries in insertion order, each key once. */
  type PhpArray<K, V> = a: seq<(K, V)> | DistinctKeys(a) witness []

  /** The keys of an array, in order. */
  function Keys<K, V>(a: seq<(K, V)>): seq<K> {
    seq(|a|, i requires 0 <= i < |a| => a[i].0)
  }

  /** `$a[$k]`: the value stored under `k`, or None when no entry has that key
      (PHP then warns and evaluates to null). */
  function Lookup<K(==), V>(a: seq<(K, V)>, k: K): (r: Option<V>)
    ensures r.None? <==> forall i :: 0 <= i < |a| ==> a[i].0 != k
    ensures r.Some? ==> (k, r.value) in a
  {
    if a == [] then None
    else if a[0].0 == k then Some(a[0].1)
    else Lookup(a[1..], k)
  }

  /** In an array with unique keys, indexing finds exactly the stored entry. */
  lemma {:induction false} LookupStored<K, V>(a: PhpArray<K, V>, k: K, v: V)
    ensures Lookup(a, k) == Some(v) <==> (k, v) in a
  {
    if a != [] {
      var tail: PhpArray<K, V> := a[1..];
      if a[0].0 != k {
        LookupStored(tail, k, v);
        assert (k, v) in a <==> (k, v) in tail by {
          assert a == [a[0]] + tail;
        }
      }
    }
  }

  /** Indexing an array by the key of its i-th entry yields that entry's value. */
  lemma LookupAt<K, V>(a: PhpArray<K, V>, i: nat)
    requires i < |a|
    ensures Lookup(a, a[i].0) == Some(a[i].1)
  {
    LookupStored(a, a[i].0, a[i].1);
  }

  /** Illuminate\Support\Collection, reduced to the array it wraps. */
  datatype Collection = Collection(items: PhpArray<Key, Value>) {

    /** `$collection->get($key, $default)`: the stored value when the key is
        present, the default otherwise. */
    function Get(key: Key, default: Value := Null): (v: Value)
      ensures (key, v) in items || (key !in Keys(items) && v == default)
      ensures forall w :: (key, w) in items ==> v == w
    {
      LookupStored(items, key, default);
      match Lookup(items, key)
      case Some(w) =>
        assert forall w' :: (key, w') in items ==> w' == w by {
          forall w' | (key, w') in items ensures w' == w { LookupStored(items, key, w'); }
        }
        w
      case None => default
    }
  }
}
