/**
  An insertion-ordered dictionary, as a Python `dict` behaves: `keys` lists the
  keys in the order they were first inserted, `vals` holds the current value of
  each key. Assigning to a key that is already present replaces its value and
  keeps its position.
*/
module OrderedDict {

  datatype ODict<K, V> = ODict(keys: seq<K>, vals: map<K, V>)

  /** No key is listed twice, and exactly the listed keys have a value. */
  ghost predicate Valid<K, V>(d: ODict<K, V>) {
    && (forall i, j :: 0 <= i < j < |d.keys| ==> d.keys[i] != d.keys[j])
    && d.vals.Keys == set k | k in d.keys
  }

  function Empty<K, V>(): (d: ODict<K, V>)
    ensures Valid(d) && d.keys == []
  {
    ODict([], map[])
  }

  /** `d[k] = v` */
  function Put<K, V>(d: ODict<K, V>, k: K, v: V): (r: ODict<K, V>)
    requires Valid(d)
    ensures Valid(r)
    ensures k in r.vals && r.vals[k] == v
    ensures r.vals.Keys == d.vals.Keys + {k}
    ensures forall k' :: k' != k && k' in d.vals ==> r.vals[k'] == d.vals[k']
    ensures k in d.vals ==> r.keys == d.keys
    ensures k !in d.vals ==> r.keys == d.keys + [k]
  {
    ODict(if k in d.vals then d.keys else d.keys + [k], d.vals[k := v])
  }

  /**
    The dictionary built by assigning `vs[i]` to `ks[i]` for i = 0, 1, ... in
    turn, starting from an empty dictionary.
  */
  function FromSeqs<K, V>(ks: seq<K>, vs: seq<V>): (d: ODict<K, V>)
    requires |ks| == |vs|
    ensures Valid(d)
  {
    if ks == [] then Empty()
    else Put(FromSeqs(ks[..|ks| - 1], vs[..|vs| - 1]), ks[|ks| - 1], vs[|vs| - 1])
  }

  /** The next key is not among the keys before it. */
  lemma NextKey<K, V>(d: ODict<K, V>, i: nat)
    requires Valid(d) && i < |d.keys|
    ensures d.keys[i] !in d.keys[..i]
    ensures d.keys[..i + 1] == d.keys[..i] + [d.keys[i]]
  {
  }

  /** Building from one more pair of a prefix is one more `Put`. */
  lemma FromSeqsPrefixStep<K, V>(ks: seq<K>, vs: seq<V>, j: nat)
    requires |ks| == |vs| && j < |ks|
    ensures FromSeqs(ks[..j + 1], vs[..j + 1]) == Put(FromSeqs(ks[..j], vs[..j]), ks[j], vs[j])
  {
    assert ks[..j + 1][..j] == ks[..j];
    assert vs[..j + 1][..j] == vs[..j];
  }

  /** Position of the first occurrence of `k` in `ks`. */
  function FirstIndex<K(==)>(ks: seq<K>, k: K): (i: nat)
    requires k in ks
    ensures i < |ks| && ks[i] == k && k !in ks[..i]
  {
    if ks[0] == k then 0 else 1 + FirstIndex(ks[1..], k)
  }

  lemma {:induction false} FirstIndexOfPrefix<K>(ks: seq<K>, x: K, k: K)
    requires k in ks
    ensures FirstIndex(ks + [x], k) == FirstIndex(ks, k)
  {
    if ks[0] != k {
      assert (ks + [x])[1..] == ks[1..] + [x];
      FirstIndexOfPrefix(ks[1..], x, k);
    }
  }

  lemma FirstIndexOfNew<K>(ks: seq<K>, k: K)
    requires k !in ks
    ensures FirstIndex(ks + [k], k) == |ks|
  {
  }

  /** The keys are exactly the assigned keys, each listed once. */
  lemma {:induction false} FromSeqsKeys<K, V>(ks: seq<K>, vs: seq<V>)
    requires |ks| == |vs|
    ensures FromSeqs(ks, vs).vals.Keys == set k | k in ks
    ensures forall k :: k in FromSeqs(ks, vs).keys <==> k in ks
  {
    if ks != [] {
      var n := |ks| - 1;
      assert ks == ks[..n] + [ks[n]];
      FromSeqsKeys(ks[..n], vs[..n]);
    }
  }

  /** Each key holds the value of its last assignment. */
  lemma {:induction false} FromSeqsLastWins<K, V>(ks: seq<K>, vs: seq<V>)
    requires |ks| == |vs|
    ensures forall i :: 0 <= i < |ks| && ks[i] !in ks[i + 1..] ==>
              ks[i] in FromSeqs(ks, vs).vals && FromSeqs(ks, vs).vals[ks[i]] == vs[i]
  {
    if ks != [] {
      var n := |ks| - 1;
      var ks', vs' := ks[..n], vs[..n];
      FromSeqsLastWins(ks', vs');
      var d := FromSeqs(ks, vs);
      forall i | 0 <= i < |ks| && ks[i] !in ks[i + 1..]
        ensures ks[i] in d.vals && d.vals[ks[i]] == vs[i]
      {
        if i < n {
          assert ks[n] in ks[i + 1..];
          assert ks'[i + 1..] == ks[i + 1..n];
          assert ks'[i] !in ks'[i + 1..];
        }
      }
    }
  }

  /** `keys` are drawn from `ks` and listed in the order of their first occurrence there. */
  ghost predicate InFirstOrder<K>(keys: seq<K>, ks: seq<K>) {
    (forall k :: k in keys ==> k in ks) &&
    forall a, b :: 0 <= a < b < |keys| ==> FirstIndex(ks, keys[a]) < FirstIndex(ks, keys[b])
  }

  /** The keys are listed in the order of their first assignment. */
  lemma {:induction false} FromSeqsOrder<K, V>(ks: seq<K>, vs: seq<V>)
    requires |ks| == |vs|
    ensures InFirstOrder(FromSeqs(ks, vs).keys, ks)
  {
    if ks != [] {
      var n := |ks| - 1;
      assert ks == ks[..n] + [ks[n]];
      FromSeqsOrder(ks[..n], vs[..n]);
      FromSeqsKeys(ks[..n], vs[..n]);
      PutKeepsOrder(FromSeqs(ks[..n], vs[..n]), ks[..n], ks[n], vs[n]);
    }
  }

  /** One more assignment keeps the keys in first-assignment order. */
  lemma PutKeepsOrder<K, V>(d: ODict<K, V>, ks: seq<K>, k: K, v: V)
    requires Valid(d)
    requires forall x :: x in d.keys <==> x in ks
    requires InFirstOrder(d.keys, ks)
    ensures InFirstOrder(Put(d, k, v).keys, ks + [k])
  {
    FirstIndicesOfPrefix(d.keys, ks, k);
    if k !in d.vals {
      FirstIndexOfNew(ks, k);
      AppendNewKeepsOrder(d.keys, ks, k);
    } else {
      SameOrderAfterAppend(d.keys, ks, k);
    }
  }

  lemma SameOrderAfterAppend<K>(keys: seq<K>, ks: seq<K>, k: K)
    requires InFirstOrder(keys, ks)
    requires forall x :: x in keys ==> FirstIndex(ks + [k], x) == FirstIndex(ks, x)
    ensures InFirstOrder(keys, ks + [k])
  {
    forall a, b | 0 <= a < b < |keys|
      ensures FirstIndex(ks + [k], keys[a]) < FirstIndex(ks + [k], keys[b])
    {
      assert keys[a] in keys && keys[b] in keys;
    }
  }

  lemma FirstIndicesOfPrefix<K>(keys: seq<K>, ks: seq<K>, k: K)
    requires forall x :: x in keys ==> x in ks
    ensures forall x :: x in keys ==> FirstIndex(ks + [k], x) == FirstIndex(ks, x)
  {
    forall x | x in keys
      ensures FirstIndex(ks + [k], x) == FirstIndex(ks, x)
    {
      FirstIndexOfPrefix(ks, k, x);
    }
  }

  lemma AppendNewKeepsOrder<K>(keys: seq<K>, ks: seq<K>, k: K)
    requires InFirstOrder(keys, ks)
    requires k !in ks
    requires forall x :: x in keys ==> FirstIndex(ks + [k], x) == FirstIndex(ks, x)
    requires FirstIndex(ks + [k], k) == |ks|
    ensures InFirstOrder(keys + [k], ks + [k])
  {
    var r := keys + [k];
    forall a, b | 0 <= a < b < |r|
      ensures FirstIndex(ks + [k], r[a]) < FirstIndex(ks + [k], r[b])
    {
      assert r[a] == keys[a] && keys[a] in keys;
      if b == |keys| {
        assert FirstIndex(ks, keys[a]) < |ks|;
      } else {
        assert r[b] == keys[b] && keys[b] in keys;
      }
    }
  }
}
