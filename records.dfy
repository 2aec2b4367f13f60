/** A JavaScript object used as a dictionary (`Record<string, V>`): its
    entries in insertion order. Reading a key that is absent gives
    `undefined` (here `None`); assigning to a key keeps the position of an
    existing entry and appends a new one at the end. */
module Records {
  import opened Seqs

  type Entries<V> = seq<(string, V)>

  function Keys<V>(e: Entries<V>): set<string>
  {
    set k | 0 <= k < |e| :: e[k].0
  }

  lemma KeysCons<V>(x: (string, V), e: Entries<V>)
    ensures Keys([x] + e) == {x.0} + Keys(e)
  {
    var c := [x] + e;
    forall key | key in Keys(c) ensures key in {x.0} + Keys(e) {
      var k :| 0 <= k < |c| && c[k].0 == key;
      if k > 0 {
        assert e[k - 1].0 == key;
      }
    }
    forall key | key in Keys(e) ensures key in Keys(c) {
      var k :| 0 <= k < |e| && e[k].0 == key;
      assert c[k + 1].0 == key;
    }
    assert c[0].0 == x.0;
  }

  ghost predicate DistinctKeys<V>(e: Entries<V>) {
    forall i, j :: 0 <= i < j < |e| ==> e[i].0 != e[j].0
  }

  /** `e[key]`. */
  function Lookup<V>(e: Entries<V>, key: string): (r: Option<V>)
    ensures r.Some? <==> key in Keys(e)
    ensures r.Some? ==> exists k :: 0 <= k < |e| && e[k] == (key, r.value)
  {
    if e == [] then None
    else if e[0].0 == key then Some(e[0].1)
    else
      assert Keys(e) == {e[0].0} + Keys(e[1..]) by {
        assert e == [e[0]] + e[1..];
        KeysCons(e[0], e[1..]);
      }
      var r := Lookup(e[1..], key);
      assert r.Some? ==> exists k :: 0 <= k < |e| && e[k] == (key, r.value) by {
        if r.Some? {
          var k :| 0 <= k < |e[1..]| && e[1..][k] == (key, r.value);
          assert e[k + 1] == (key, r.value);
        }
      }
      r
  }

  /** With distinct keys every entry is what its key looks up. */
  lemma {:induction false} LookupDistinct<V>(e: Entries<V>, k: nat)
    requires DistinctKeys(e) && k < |e|
    ensures Lookup(e, e[k].0) == Some(e[k].1)
  {
    if k > 0 {
      assert e[0].0 != e[k].0;
      assert e[1..][k - 1] == e[k];
      LookupDistinct(e[1..], k - 1);
    }
  }

  /** `e[key] = v`. */
  function Put<V>(e: Entries<V>, key: string, v: V): (r: Entries<V>)
    ensures Lookup(r, key) == Some(v)
    ensures forall k :: k != key ==> Lookup(r, k) == Lookup(e, k)
    ensures Keys(r) == Keys(e) + {key}
    ensures |r| == if key in Keys(e) then |e| else |e| + 1
    ensures DistinctKeys(e) ==> DistinctKeys(r)
  {
    assert Keys(e) == (if e == [] then {} else {e[0].0} + Keys(e[1..])) by {
      if e != [] {
        assert e == [e[0]] + e[1..];
        KeysCons(e[0], e[1..]);
      }
    }
    if e == [] then
      [(key, v)]
    else if e[0].0 == key then
      var r := [(key, v)] + e[1..];
      assert r[1..] == e[1..];
      KeysCons((key, v), e[1..]);
      assert DistinctKeys(e) ==> DistinctKeys(r) by {
        if DistinctKeys(e) {
          forall i, j | 0 <= i < j < |r| ensures r[i].0 != r[j].0 {
            assert r[j] == e[j];
          }
        }
      }
      r
    else
      var rest := Put(e[1..], key, v);
      var r := [e[0]] + rest;
      assert r[1..] == rest;
      KeysCons(e[0], rest);
      assert DistinctKeys(e) ==> DistinctKeys(r) by {
        if DistinctKeys(e) {
          assert DistinctKeys(e[1..]);
          assert e[0].0 !in Keys(e[1..]);
          forall i, j | 0 <= i < j < |r| ensures r[i].0 != r[j].0 {
            if i == 0 {
              assert r[j] == rest[j - 1];
              assert r[j].0 in Keys(rest);
            } else {
              assert r[i] == rest[i - 1] && r[j] == rest[j - 1];
            }
          }
        }
      }
      r
  }
}
