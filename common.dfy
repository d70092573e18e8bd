/** Value wrappers shared by every module, and the insertion-ordered
    dictionary that Python's `dict` is: a sequence of key/value pairs with
    distinct keys, where re-assigning a key keeps its original position. */
module Common {

  datatype Option<+T> = None | Some(value: T)

  datatype Result<+T, +E> = Ok(value: T) | Err(error: E)

  /** The keys of an ordered dictionary, in insertion order. */
  function KeysOf<K, V>(d: seq<(K, V)>): (ks: seq<K>)
    ensures |ks| == |d|
    ensures forall i :: 0 <= i < |d| ==> ks[i] == d[i].0
  {
    if d == [] then [] else [d[0].0] + KeysOf(d[1..])
  }

  /** The values of an ordered dictionary, in insertion order (`dict.values()`). */
  function ValuesOf<K, V>(d: seq<(K, V)>): (vs: seq<V>)
    ensures |vs| == |d|
    ensures forall i :: 0 <= i < |d| ==> vs[i] == d[i].1
  {
    if d == [] then [] else [d[0].1] + ValuesOf(d[1..])
  }

  ghost predicate DistinctKeys<K, V>(d: seq<(K, V)>) {
    forall i, j :: 0 <= i < j < |d| ==> d[i].0 != d[j].0
  }

  function Lookup<K(==), V>(d: seq<(K, V)>, k: K): (r: Option<V>)
    ensures r.Some? <==> k in KeysOf(d)
  {
    if d == [] then None
    else if d[0].0 == k then Some(d[0].1)
    else Lookup(d[1..], k)
  }

  /** `d[k] = v`: an existing key keeps its place and takes the new value,
      a new key goes to the end. */
  function Put<K(==,!new), V>(d: seq<(K, V)>, k: K, v: V): (r: seq<(K, V)>)
    ensures k in KeysOf(d) ==> KeysOf(r) == KeysOf(d)
    ensures k !in KeysOf(d) ==> KeysOf(r) == KeysOf(d) + [k]
    ensures Lookup(r, k) == Some(v)
    ensures forall k' :: k' != k ==> Lookup(r, k') == Lookup(d, k')
  {
    if d == [] then [(k, v)]
    else if d[0].0 == k then [(k, v)] + d[1..]
    else
      var rest := Put(d[1..], k, v);
      assert ([d[0]] + rest)[1..] == rest;
      [d[0]] + rest
  }

  lemma {:induction false} PutKeepsDistinct<K(!new), V>(d: seq<(K, V)>, k: K, v: V)
    requires DistinctKeys(d)
    ensures DistinctKeys(Put(d, k, v))
  {
    var r := Put(d, k, v);
    forall i, j | 0 <= i < j < |r| ensures r[i].0 != r[j].0 {
      assert KeysOf(r)[i] == r[i].0 && KeysOf(r)[j] == r[j].0;
      if k !in KeysOf(d) {
        if j < |d| {
          assert KeysOf(d)[i] == d[i].0 && KeysOf(d)[j] == d[j].0;
        } else {
          assert KeysOf(d)[i] == d[i].0;
        }
      } else {
        assert KeysOf(d)[i] == d[i].0 && KeysOf(d)[j] == d[j].0;
      }
    }
  }

  /** The dictionary built by assigning each pair in turn, left to right
      (`{k: v for k, v in pairs}`). */
  function FromPairs<K(==,!new), V>(ps: seq<(K, V)>): seq<(K, V)>
  {
    if ps == [] then []
    else Put(FromPairs(ps[..|ps| - 1]), ps[|ps| - 1].0, ps[|ps| - 1].1)
  }

  /** The value of the last pair whose key is `k`. */
  function LastValue<K(==), V>(ps: seq<(K, V)>, k: K): Option<V>
  {
    if ps == [] then None
    else if ps[|ps| - 1].0 == k then Some(ps[|ps| - 1].1)
    else LastValue(ps[..|ps| - 1], k)
  }

  /** Building a dictionary from pairs: every key occurs once, the keys are
      exactly those of the pairs, and a later pair overrides an earlier one. */
  lemma {:induction false} FromPairsSpec<K(!new), V>(ps: seq<(K, V)>)
    ensures DistinctKeys(FromPairs(ps))
    ensures forall k :: k in KeysOf(FromPairs(ps)) <==> k in KeysOf(ps)
    ensures forall k :: Lookup(FromPairs(ps), k) == LastValue(ps, k)
  {
    if ps != [] {
      var init := ps[..|ps| - 1];
      var last := ps[|ps| - 1];
      var d := FromPairs(init);
      assert FromPairs(ps) == Put(d, last.0, last.1);
      FromPairsSpec(init);
      PutKeepsDistinct(d, last.0, last.1);
      forall i | 0 <= i < |ps| ensures KeysOf(ps)[i] == (KeysOf(init) + [last.0])[i] {
        if i < |init| {
          assert ps[i] == init[i];
        }
      }
      assert KeysOf(ps) == KeysOf(init) + [last.0];
      forall k ensures k in KeysOf(FromPairs(ps)) <==> k in KeysOf(ps) {
        assert k in KeysOf(d) <==> k in KeysOf(init);
      }
      forall k ensures Lookup(FromPairs(ps), k) == LastValue(ps, k) {
        if k != last.0 {
          assert LastValue(ps, k) == LastValue(init, k);
        }
      }
    }
  }

  /** Assigning one more pair is one more `Put`. */
  lemma FromPairsSnoc<K(!new), V>(ps: seq<(K, V)>, k: K, v: V)
    ensures FromPairs(ps + [(k, v)]) == Put(FromPairs(ps), k, v)
  {
    assert (ps + [(k, v)])[..|ps|] == ps;
  }
}
