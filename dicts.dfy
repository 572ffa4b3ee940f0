/**
  Python dictionaries built from pairs, `dict(zip(keys, values))` or a
  dict comprehension: pairs are inserted left to right, so a repeated key
  keeps the value of its last occurrence.
 */
module Dicts {

  function ZipMap<K, V>(keys: seq<K>, values: seq<V>): map<K, V>
    requires |keys| == |values|
  {
    if |keys| == 0 then map[]
    else ZipMap(keys[..|keys| - 1], values[..|keys| - 1])[keys[|keys| - 1] := values[|keys| - 1]]
  }

  /** Every value of the dictionary is one of the listed values. */
  lemma {:induction false} ZipMapValues<K, V>(keys: seq<K>, values: seq<V>)
    requires |keys| == |values|
    ensures forall k :: k in ZipMap(keys, values) ==> ZipMap(keys, values)[k] in values
  {
    if |keys| > 0 {
      var n := |keys| - 1;
      ZipMapValues(keys[..n], values[..n]);
      assert forall v :: v in values[..n] ==> v in values;
    }
  }

  /** The keys of the dictionary are exactly the listed keys. */
  lemma {:induction false} ZipMapKeys<K, V>(keys: seq<K>, values: seq<V>, k: K)
    requires |keys| == |values|
    ensures k in ZipMap(keys, values) <==> k in keys
  {
    if |keys| > 0 {
      var n := |keys| - 1;
      ZipMapKeys(keys[..n], values[..n], k);
      assert keys == keys[..n] + [keys[n]];
    }
  }

  /** A key's value is the one paired with its last occurrence. */
  lemma {:induction false} ZipMapLast<K, V>(keys: seq<K>, values: seq<V>, i: nat)
    requires |keys| == |values| && i < |keys|
    requires forall j :: i < j < |keys| ==> keys[j] != keys[i]
    ensures keys[i] in ZipMap(keys, values) && ZipMap(keys, values)[keys[i]] == values[i]
  {
    var n := |keys| - 1;
    if i < n {
      ZipMapLast(keys[..n], values[..n], i);
    }
  }

  /** With distinct keys, each key's value is the one paired with it. */
  lemma ZipMapDistinct<K, V>(keys: seq<K>, values: seq<V>, i: nat)
    requires |keys| == |values| && i < |keys|
    requires forall a, b :: 0 <= a < b < |keys| ==> keys[a] != keys[b]
    ensures keys[i] in ZipMap(keys, values) && ZipMap(keys, values)[keys[i]] == values[i]
  {
    ZipMapLast(keys, values, i);
  }
}
