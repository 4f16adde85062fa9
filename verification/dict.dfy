/** Python's insertion-ordered `dict`, as a sequence of key/value pairs
    with distinct keys. Assigning to a present key replaces its value in
    place; a new key goes to the end. */
module OrderedDict {

  import opened Base
  import opened Seqs

  type Dict<K, V> = seq<(K, V)>

  function Keys<K, V>(d: Dict<K, V>): (r: seq<K>)
    ensures |r| == |d|
  {
    seq(|d|, i requires 0 <= i < |d| => d[i].0)
  }

  /** `d.get(k)` */
  function Lookup<K(==), V>(d: Dict<K, V>, k: K): (r: Option<V>)
    ensures r.None? <==> k !in Keys(d)
    ensures r.Some? ==> exists i :: 0 <= i < |d| && d[i] == (k, r.value)
  {
    if d == [] then None
    else if d[0].0 == k then assert Keys(d)[0] == k; Some(d[0].1)
    else
      assert Keys(d) == [d[0].0] + Keys(d[1..]);
      var r := Lookup(d[1..], k);
      assert r.Some? ==> exists i :: 0 <= i < |d[1..]| && d[1..][i] == (k, r.value);
      r
  }

  lemma {:induction false} KeysCons<K, V>(p: (K, V), d: Dict<K, V>)
    ensures Keys([p] + d) == [p.0] + Keys(d)
  {
  }

  /** `d[k] = v` */
  function Put<K(==), V>(d: Dict<K, V>, k: K, v: V): (r: Dict<K, V>)
    ensures Lookup(r, k) == Some(v)
    ensures Keys(r) == if k in Keys(d) then Keys(d) else Keys(d) + [k]
  {
    if d == [] then [(k, v)]
    else if d[0].0 == k then
      assert Keys(d)[0] == k;
      KeysCons((k, v), d[1..]);
      KeysCons(d[0], d[1..]);
      assert d == [d[0]] + d[1..];
      [(k, v)] + d[1..]
    else
      var rest := Put(d[1..], k, v);
      KeysCons(d[0], d[1..]);
      assert d == [d[0]] + d[1..];
      KeysCons(d[0], rest);
      [d[0]] + rest
  }

  /** Assigning `k` changes what `k` reads back and nothing else. */
  lemma {:induction false} PutLookup<K, V>(d: Dict<K, V>, k: K, v: V, j: K)
    ensures Lookup(Put(d, k, v), j) == if j == k then Some(v) else Lookup(d, j)
  {
    if d != [] && d[0].0 != k {
      PutLookup(d[1..], k, v, j);
    }
  }

  /** The value the last pair with key `k` carries. */
  function LastFor<K(==), V>(ps: seq<(K, V)>, k: K): Option<V> {
    if ps == [] then None
    else if ps[|ps| - 1].0 == k then Some(ps[|ps| - 1].1)
    else LastFor(ps[..|ps| - 1], k)
  }

  /** The position of the last pair with key `k`, or -1. */
  function LastIndex<K(==), V>(ps: seq<(K, V)>, k: K): (r: int)
    ensures -1 <= r < |ps|
    ensures r >= 0 ==> ps[r].0 == k && forall j :: r < j < |ps| ==> ps[j].0 != k
    ensures r < 0 ==> forall j :: 0 <= j < |ps| ==> ps[j].0 != k
  {
    if ps == [] then -1
    else if ps[|ps| - 1].0 == k then |ps| - 1
    else LastIndex(ps[..|ps| - 1], k)
  }

  /** `LastFor` reads the pair at `LastIndex`. */
  lemma {:induction false} LastForAt<K, V>(ps: seq<(K, V)>, k: K)
    ensures LastFor(ps, k) == if LastIndex(ps, k) < 0 then None else Some(ps[LastIndex(ps, k)].1)
  {
    if ps != [] && ps[|ps| - 1].0 != k {
      LastForAt(ps[..|ps| - 1], k);
    }
  }

  /** Where the last pair with a key sits depends on the keys alone. */
  lemma {:induction false} LastIndexOfKeys<K, V, W>(p1: seq<(K, V)>, p2: seq<(K, W)>, k: K)
    requires Keys(p1) == Keys(p2)
    ensures LastIndex(p1, k) == LastIndex(p2, k)
  {
    var r1, r2 := LastIndex(p1, k), LastIndex(p2, k);
    assert forall j :: 0 <= j < |p1| ==> p1[j].0 == Keys(p1)[j] == Keys(p2)[j] == p2[j].0;
  }

  /** So do the keys of the dict the pairs build. */
  lemma {:induction false} FromPairsKeysOfKeys<K, V, W>(p1: seq<(K, V)>, p2: seq<(K, W)>)
    requires Keys(p1) == Keys(p2)
    ensures Keys(FromPairs(p1)) == Keys(FromPairs(p2))
  {
    if p1 != [] {
      var n := |p1| - 1;
      assert Keys(p1[..n]) == Keys(p2[..n]) by {
        assert forall j :: 0 <= j < n ==> Keys(p1[..n])[j] == Keys(p1)[j] == Keys(p2)[j] == Keys(p2[..n])[j];
      }
      assert p1[n].0 == Keys(p1)[n] == Keys(p2)[n] == p2[n].0;
      FromPairsKeysOfKeys(p1[..n], p2[..n]);
    }
  }

  /** `{k: v for (k, v) in ps}`: the pairs assigned left to right. */
  function FromPairs<K(==), V>(ps: seq<(K, V)>): (r: Dict<K, V>)
    ensures Distinct(Keys(r))
  {
    if ps == [] then []
    else
      var d := FromPairs(ps[..|ps| - 1]);
      var k := ps[|ps| - 1].0;
      if k in Keys(d) then Put(d, k, ps[|ps| - 1].1)
      else DistinctSnoc(Keys(d), k); Put(d, k, ps[|ps| - 1].1)
  }

  /** Every key of the dict reads back the value of the last pair that
      assigned it; no other key is present. */
  lemma {:induction false} FromPairsLookup<K, V>(ps: seq<(K, V)>, k: K)
    ensures Lookup(FromPairs(ps), k) == LastFor(ps, k)
  {
    if ps != [] {
      FromPairsLookup(ps[..|ps| - 1], k);
      PutLookup(FromPairs(ps[..|ps| - 1]), ps[|ps| - 1].0, ps[|ps| - 1].1, k);
    }
  }

  lemma {:induction false} KeysSnoc<K, V>(ps: seq<(K, V)>)
    requires ps != []
    ensures Keys(ps) == Keys(ps[..|ps| - 1]) + [ps[|ps| - 1].0]
  {
    assert forall i :: 0 <= i < |ps| - 1 ==> Keys(ps)[i] == Keys(ps[..|ps| - 1])[i];
  }

  lemma {:induction false} FromPairsKeySet<K, V>(ps: seq<(K, V)>)
    ensures ToSet(Keys(FromPairs(ps))) == ToSet(Keys(ps))
  {
    if ps != [] {
      var init, last := ps[..|ps| - 1], ps[|ps| - 1];
      var d := FromPairs(init);
      FromPairsKeySet(init);
      KeysSnoc(ps);
      ToSetSnoc(Keys(init), last.0);
      if last.0 !in Keys(d) {
        ToSetSnoc(Keys(d), last.0);
      }
    } else {
      assert ToSet(Keys(ps)) == {};
    }
  }

  /** The dict's keys are the pairs' keys, each once, in the order of their
      first assignment; so its length is the number of distinct keys. */
  lemma {:induction false} FromPairsKeys<K, V>(ps: seq<(K, V)>)
    ensures ToSet(Keys(FromPairs(ps))) == ToSet(Keys(ps))
    ensures |FromPairs(ps)| == |ToSet(Keys(ps))|
  {
    FromPairsKeySet(ps);
    DistinctCardinality(Keys(FromPairs(ps)));
  }

  /** One more pair is one more assignment. */
  lemma {:induction false} FromPairsSnoc<K, V>(ps: seq<(K, V)>)
    requires ps != []
    ensures FromPairs(ps) == Put(FromPairs(ps[..|ps| - 1]), ps[|ps| - 1].0, ps[|ps| - 1].1)
  {
  }

  /** Pairs whose keys are already distinct make the dict of exactly those
      pairs, in the same order. */
  lemma {:induction false} FromDistinctPairs<K, V>(ps: seq<(K, V)>)
    requires Distinct(Keys(ps))
    ensures FromPairs(ps) == ps
  {
    if ps != [] {
      var init := ps[..|ps| - 1];
      var last := ps[|ps| - 1];
      assert Distinct(Keys(init)) && last.0 !in Keys(init) by {
        KeysSnoc(ps);
        DistinctInit(Keys(init), last.0);
      }
      assert FromPairs(init) == init by {
        FromDistinctPairs(init);
      }
      assert FromPairs(ps) == Put(init, last.0, last.1) by {
        FromPairsSnoc(ps);
      }
      assert Put(init, last.0, last.1) == init + [last] by {
        PutNewKey(init, last.0, last.1);
      }
      assert init + [last] == ps;
    }
  }

  lemma {:induction false} PutNewKey<K, V>(d: Dict<K, V>, k: K, v: V)
    requires k !in Keys(d)
    ensures Put(d, k, v) == d + [(k, v)]
  {
    if d != [] {
      KeysCons(d[0], d[1..]);
      assert d == [d[0]] + d[1..];
      PutNewKey(d[1..], k, v);
      assert [d[0]] + (d[1..] + [(k, v)]) == d + [(k, v)];
    }
  }
}
