/** Dictionaries that remember the order in which their keys were first stored. */
module OrderedDict {
  datatype Dict<V> = Dict(keys: seq<string>, at: map<string, V>) {
    ghost predicate Valid() {
      && (forall k :: k in keys <==> k in at)
      && (forall i, j :: 0 <= i < j < |keys| ==> keys[i] != keys[j])
    }
  }

  function Put<V>(d: Dict<V>, k: string, v: V): (r: Dict<V>)
    ensures d.Valid() ==> r.Valid()
  {
    if k in d.at then d.(at := d.at[k := v]) else Dict(d.keys + [k], d.at[k := v])
  }

  function Without(keys: seq<string>, k: string): (r: seq<string>) {
    if keys == [] then []
    else Without(keys[..|keys| - 1], k) + if keys[|keys| - 1] == k then [] else [keys[|keys| - 1]]
  }

  lemma {:induction false} WithoutElements(keys: seq<string>, k: string, x: string)
    ensures x in Without(keys, k) <==> x in keys && x != k
  {
    if keys != [] {
      var t := keys[..|keys| - 1];
      WithoutElements(t, k, x);
      assert keys == t + [keys[|keys| - 1]];
    }
  }

  lemma {:induction false} WithoutDistinct(keys: seq<string>, k: string)
    requires forall i, j :: 0 <= i < j < |keys| ==> keys[i] != keys[j]
    ensures forall i, j :: 0 <= i < j < |Without(keys, k)| ==> Without(keys, k)[i] != Without(keys, k)[j]
  {
    if keys != [] {
      var t, last := keys[..|keys| - 1], keys[|keys| - 1];
      WithoutDistinct(t, k);
      WithoutElements(t, k, last);
      assert last !in t;
    }
  }

  function Pop<V>(d: Dict<V>, k: string): (r: Dict<V>)
    ensures d.Valid() ==> r.Valid()
    ensures r.at == d.at - {k}
  {
    assert d.Valid() ==> (forall x :: x in Without(d.keys, k) <==> x in d.at - {k}) by {
      forall x { WithoutElements(d.keys, k, x); }
    }
    assert d.Valid() ==> Dict(Without(d.keys, k), d.at - {k}).Valid() by {
      if d.Valid() { WithoutDistinct(d.keys, k); }
    }
    Dict(Without(d.keys, k), d.at - {k})
  }

  lemma {:induction false} DistinctCount(keys: seq<string>)
    requires forall i, j :: 0 <= i < j < |keys| ==> keys[i] != keys[j]
    ensures |set k | k in keys| == |keys|
  {
    if keys != [] {
      var t, last := keys[..|keys| - 1], keys[|keys| - 1];
      DistinctCount(t);
      assert keys == t + [last] && last !in t;
      assert (set k | k in keys) == (set k | k in t) + {last};
    }
  }

  lemma KeyCount<V>(d: Dict<V>)
    requires d.Valid()
    ensures |d.keys| == |d.at.Keys|
  {
    DistinctCount(d.keys);
    assert (set k | k in d.keys) == d.at.Keys;
  }
}
