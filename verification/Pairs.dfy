/** Lists of pairs laid out flat, one element after the other, and read back. */
module Pairs {
  import opened Options

  datatype Pair<T> = Pair(key: T, value: T)

  function Flat<T>(pairs: seq<Pair<T>>): seq<T> {
    if pairs == [] then [] else Flat(pairs[..|pairs| - 1]) + [pairs[|pairs| - 1].key, pairs[|pairs| - 1].value]
  }

  function ReadPairs<T>(flat: seq<T>): Option<seq<Pair<T>>> {
    if flat == [] then Some([])
    else if |flat| == 1 then None
    else
      var init := ReadPairs(flat[..|flat| - 2]);
      if init.None? then None else Some(init.value + [Pair(flat[|flat| - 2], flat[|flat| - 1])])
  }

  lemma FlatMore<T>(pairs: seq<Pair<T>>, p: Pair<T>)
    ensures Flat(pairs + [p]) == Flat(pairs) + [p.key, p.value]
  {
    assert (pairs + [p])[..|pairs|] == pairs;
  }

  lemma ReadMore<T>(flat: seq<T>, p: Pair<T>)
    requires ReadPairs(flat).Some?
    ensures ReadPairs(flat + [p.key, p.value]) == Some(ReadPairs(flat).value + [p])
  {
    var longer := flat + [p.key, p.value];
    assert longer[..|longer| - 2] == flat;
  }

  lemma ReadInvertsMore<T>(init: seq<Pair<T>>, p: Pair<T>)
    requires ReadPairs(Flat(init)) == Some(init)
    ensures ReadPairs(Flat(init + [p])) == Some(init + [p])
  {
    FlatMore(init, p);
    ReadMore(Flat(init), p);
  }

  lemma {:induction false} ReadInvertsFlat<T>(pairs: seq<Pair<T>>)
    ensures ReadPairs(Flat(pairs)) == Some(pairs)
    decreases |pairs|
  {
    if |pairs| == 0 {
      assert pairs == [];
    } else {
      var init, last := InitAndLast(pairs);
      ReadInvertsFlat(init);
      ReadInvertsMore(init, last);
    }
  }

  lemma InitAndLast<T>(pairs: seq<Pair<T>>) returns (init: seq<Pair<T>>, last: Pair<T>)
    requires |pairs| > 0
    ensures pairs == init + [last] && |init| < |pairs|
  {
    init, last := pairs[..|pairs| - 1], pairs[|pairs| - 1];
  }

  lemma {:induction false} FlatCount<T>(pairs: seq<Pair<T>>)
    ensures |Flat(pairs)| == 2 * |pairs|
  {
    if pairs != [] {
      FlatCount(pairs[..|pairs| - 1]);
    }
  }

  function PairsOf<T>(keys: seq<T>, fields: map<T, T>): (pairs: seq<Pair<T>>)
    requires forall k :: k in keys ==> k in fields
    ensures |pairs| == |keys|
  {
    if keys == [] then [] else PairsOf(keys[..|keys| - 1], fields) + [Pair(keys[|keys| - 1], fields[keys[|keys| - 1]])]
  }

  lemma PairsMore<T>(keys: seq<T>, k: T, fields: map<T, T>)
    requires k in fields && forall x :: x in keys ==> x in fields
    ensures PairsOf(keys + [k], fields) == PairsOf(keys, fields) + [Pair(k, fields[k])]
  {
    assert (keys + [k])[..|keys|] == keys;
  }

  lemma FlatPairsMore<T>(keys: seq<T>, k: T, fields: map<T, T>)
    requires k in fields && forall x :: x in keys ==> x in fields
    ensures Flat(PairsOf(keys + [k], fields)) == Flat(PairsOf(keys, fields)) + [k, fields[k]]
  {
    PairsMore(keys, k, fields);
    FlatMore(PairsOf(keys, fields), Pair(k, fields[k]));
  }

  lemma TwoPairs<T>(a: T, b: T, fields: map<T, T>)
    requires a in fields && b in fields
    ensures Flat(PairsOf([a, b], fields)) == [a, fields[a], b, fields[b]]
  {
    FlatPairsMore([], a, fields);
    FlatPairsMore([a], b, fields);
    assert [] + [a] == [a] && [a] + [b] == [a, b];
  }

  /** Four pairs at once, grouped in threes. */
  lemma FourPairs<T>(a: T, b: T, c: T, d: T, fields: map<T, T>)
    requires a in fields && b in fields && c in fields && d in fields
    ensures Flat(PairsOf([a, b, c, d], fields)) == [a, fields[a], b, fields[b]] + [c, fields[c]] + [d, fields[d]]
  {
    TwoPairs(a, b, fields);
    FlatPairsMore([a, b], c, fields);
    FlatPairsMore([a, b, c], d, fields);
    assert [a, b] + [c] == [a, b, c] && [a, b, c] + [d] == [a, b, c, d];
  }

  /** Reading pairs into a dictionary: a later pair with the same key wins. */
  function MapOf<T>(pairs: seq<Pair<T>>): map<T, T> {
    if pairs == [] then map[] else MapOf(pairs[..|pairs| - 1])[pairs[|pairs| - 1].key := pairs[|pairs| - 1].value]
  }

  lemma {:induction false} MapOfPairs<T>(keys: seq<T>, fields: map<T, T>)
    requires forall k :: k in keys ==> k in fields
    ensures MapOf(PairsOf(keys, fields)) == map k | k in keys :: fields[k]
  {
    if keys != [] {
      var n := |keys| - 1;
      var pairs := PairsOf(keys, fields);
      MapOfPairs(keys[..n], fields);
      assert pairs[..n] == PairsOf(keys[..n], fields);
      assert keys == keys[..n] + [keys[n]];
    }
  }

  lemma {:induction false} FlatAt<T>(pairs: seq<Pair<T>>)
    ensures |Flat(pairs)| == 2 * |pairs|
    ensures forall i :: 0 <= i < |pairs| ==>
                          Flat(pairs)[2 * i] == pairs[i].key && Flat(pairs)[2 * i + 1] == pairs[i].value
    decreases |pairs|
  {
    if pairs != [] {
      var n := |pairs| - 1;
      FlatAt(pairs[..n]);
      forall i | 0 <= i < n
        ensures Flat(pairs)[2 * i] == pairs[i].key && Flat(pairs)[2 * i + 1] == pairs[i].value
      {
        assert pairs[..n][i] == pairs[i];
      }
    }
  }

  lemma {:induction false} PairsOfAt<T>(keys: seq<T>, fields: map<T, T>)
    requires forall k :: k in keys ==> k in fields
    ensures forall i :: 0 <= i < |keys| ==> PairsOf(keys, fields)[i] == Pair(keys[i], fields[keys[i]])
    decreases |keys|
  {
    if keys != [] {
      PairsOfAt(keys[..|keys| - 1], fields);
    }
  }

  function KeysOf<T>(pairs: seq<Pair<T>>): (keys: seq<T>)
    ensures |keys| == |pairs| && forall i :: 0 <= i < |pairs| ==> keys[i] == pairs[i].key
  {
    seq(|pairs|, i requires 0 <= i < |pairs| => pairs[i].key)
  }

  function ValuesOf<T>(pairs: seq<Pair<T>>): (values: seq<T>)
    ensures |values| == |pairs| && forall i :: 0 <= i < |pairs| ==> values[i] == pairs[i].value
  {
    seq(|pairs|, i requires 0 <= i < |pairs| => pairs[i].value)
  }

  predicate Distinct<T(==)>(keys: seq<T>) {
    forall i, j :: 0 <= i < j < |keys| ==> keys[i] != keys[j]
  }

  /** With distinct keys the dictionary holds every pair and nothing else. */
  lemma {:induction false} MapOfDistinct<T>(pairs: seq<Pair<T>>)
    requires Distinct(KeysOf(pairs))
    ensures forall k :: k in MapOf(pairs) <==> k in KeysOf(pairs)
    ensures forall i ::
              0 <= i < |pairs| ==> pairs[i].key in MapOf(pairs) && MapOf(pairs)[pairs[i].key] == pairs[i].value
    decreases |pairs|
  {
    if pairs != [] {
      var n := |pairs| - 1;
      var init := pairs[..n];
      assert KeysOf(init) == KeysOf(pairs)[..n];
      MapOfDistinct(init);
      assert KeysOf(pairs) == KeysOf(init) + [pairs[n].key];
      forall i | 0 <= i < n
        ensures pairs[i].key in MapOf(pairs) && MapOf(pairs)[pairs[i].key] == pairs[i].value
      {
        assert init[i] == pairs[i] && KeysOf(pairs)[i] != KeysOf(pairs)[n];
      }
    }
  }

  /** The dictionary of distinct pairs, read off in the order of its keys, gives the pairs back. */
  lemma PairsOfMapOf<T>(pairs: seq<Pair<T>>)
    requires Distinct(KeysOf(pairs))
    ensures forall k :: k in KeysOf(pairs) ==> k in MapOf(pairs)
    ensures PairsOf(KeysOf(pairs), MapOf(pairs)) == pairs
  {
    MapOfDistinct(pairs);
    PairsOfAt(KeysOf(pairs), MapOf(pairs));
    assert forall i :: 0 <= i < |pairs| ==> PairsOf(KeysOf(pairs), MapOf(pairs))[i] == pairs[i];
  }
}
