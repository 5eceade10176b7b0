/** A JavaScript object with string keys, as the source uses `Record<string, V>`.
    Such an object is modelled as an association list in property order: for
    string keys that are not array indices, `Object.entries` and `Object.keys`
    list the properties in insertion order (section 10.1.11.1,
    OrdinaryOwnPropertyKeys, of ECMA-262), which is the order of this list. */
module Records {
  import opened Wrappers

  type Record<V> = seq<(string, V)>

  /** The keys in property order. */
  function Keys<V>(m: Record<V>): (ks: seq<string>)
    ensures |ks| == |m|
    ensures forall i :: 0 <= i < |m| ==> ks[i] == m[i].0
  {
    seq(|m|, i requires 0 <= i < |m| => m[i].0)
  }

  /** A genuine object has every key once. */
  ghost predicate UniqueKeys<V>(m: Record<V>) {
    forall i, j :: 0 <= i < j < |m| ==> m[i].0 != m[j].0
  }

  /** Property read `m[k]`: the value stored under `k`, or None (`undefined`). */
  function Get<V>(m: Record<V>, k: string): (r: Option<V>)
    ensures r.None? <==> k !in Keys(m)
    ensures r.Some? ==> (k, r.value) in m
  {
    if m == [] then None
    else if m[0].0 == k then Some(m[0].1)
    else
      assert Keys(m) == [m[0].0] + Keys(m[1..]);
      Get(m[1..], k)
  }

  /** In a genuine object a read returns the one value stored under the key. */
  lemma {:induction false} GetUnique<V>(m: Record<V>, i: nat)
    requires UniqueKeys(m) && i < |m|
    ensures Get(m, m[i].0) == Some(m[i].1)
  {
    if i > 0 {
      assert m[0].0 != m[i].0;
      assert UniqueKeys(m[1..]) by {
        forall a, b | 0 <= a < b < |m[1..]| ensures m[1..][a].0 != m[1..][b].0 {
          assert m[1..][a] == m[a + 1] && m[1..][b] == m[b + 1];
        }
      }
      assert m[1..][i - 1] == m[i];
      GetUnique(m[1..], i - 1);
    }
  }

  /** Object spread with one computed property, `{ ...m, [k]: v }`: an existing
      property keeps its position and takes the new value; a new one goes last. */
  function Set<V>(m: Record<V>, k: string, v: V): (r: Record<V>)
    requires UniqueKeys(m)
    ensures UniqueKeys(r)
    ensures Keys(r) == if k in Keys(m) then Keys(m) else Keys(m) + [k]
    ensures forall i :: 0 <= i < |r| && r[i].0 == k ==> r[i].1 == v
  {
    var r := if k in Keys(m) then seq(|m|, i requires 0 <= i < |m| => if m[i].0 == k then (k, v) else m[i])
             else m + [(k, v)];
    assert Keys(r) == if k in Keys(m) then Keys(m) else Keys(m) + [k];
    r
  }

  /** Reading back the property just set gives the new value. */
  lemma SetThenGet<V>(m: Record<V>, k: string, v: V)
    requires UniqueKeys(m)
    ensures Get(Set(m, k, v), k) == Some(v)
  {
    var r := Set(m, k, v);
    assert k in Keys(r);
    var i :| 0 <= i < |r| && Keys(r)[i] == k;
    GetUnique(r, i);
  }

  /** Setting one property leaves every other property's value as it was. */
  lemma SetOthersUnchanged<V>(m: Record<V>, k: string, v: V, other: string)
    requires UniqueKeys(m) && other != k
    ensures Get(Set(m, k, v), other) == Get(m, other)
  {
    var r := Set(m, k, v);
    if other in Keys(m) {
      var i :| 0 <= i < |m| && Keys(m)[i] == other;
      GetUnique(m, i);
      assert Keys(r)[i] == other;
      assert r[i] == m[i];
      GetUnique(r, i);
    } else {
      assert other !in Keys(r);
    }
  }

  /** Adding a new property at the end leaves every earlier read as it was. */
  lemma {:induction false} GetAppend<V>(m: Record<V>, k: string, v: V, x: string)
    ensures Get(m + [(k, v)], x) == if x in Keys(m) then Get(m, x) else if x == k then Some(v) else None
  {
    if m == [] {
      assert m + [(k, v)] == [(k, v)];
    } else {
      assert (m + [(k, v)])[1..] == m[1..] + [(k, v)];
      assert Keys(m) == [m[0].0] + Keys(m[1..]);
      GetAppend(m[1..], k, v, x);
    }
  }
}
