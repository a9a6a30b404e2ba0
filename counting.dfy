/** Python's counting idiom `d[k] = d.get(k, 0) + 1` over a sequence of keys,
    with a dictionary modelled as a `map` from key to count, and the total
    length of a list of lists. */
module Counting {

  /** The dictionary the idiom builds after seeing `keys` in order: it has
      exactly the keys that occur, each mapped to its number of occurrences. */
  function Tally<K(!new)>(keys: seq<K>): (m: map<K, nat>)
    ensures forall k :: k in m <==> k in keys
    ensures forall k :: k in m ==> m[k] == multiset(keys)[k] && m[k] >= 1
  {
    if keys == [] then map[]
    else
      var prefix, k := keys[..|keys| - 1], keys[|keys| - 1];
      assert keys == prefix + [k];
      var m := Tally(prefix);
      m[k := Get(m, k, 0) + 1]
  }

  /** `d.get(k, default)`. */
  function Get<K, V>(d: map<K, V>, k: K, default: V): (v: V)
    ensures k in d ==> v == d[k]
    ensures k !in d ==> v == default
  {
    if k in d then d[k] else default
  }

  /** Seeing one more key adds one to its count, starting from zero. */
  lemma TallyStep<K(!new)>(keys: seq<K>, i: nat)
    requires i < |keys|
    ensures Tally(keys[..i + 1]) == Tally(keys[..i])[keys[i] := Get(Tally(keys[..i]), keys[i], 0) + 1]
  {
    assert keys[..i + 1][..i] == keys[..i];
  }

  /** The sum of the values of a map. */
  ghost function SumValues<K(!new)>(m: map<K, nat>): nat
    decreases |m|
  {
    if m == map[] then 0
    else
      var k :| k in m;
      assert |(m - {k}).Keys| < |m.Keys| by { assert (m - {k}).Keys == m.Keys - {k}; }
      m[k] + SumValues(m - {k})
  }

  /** The sum does not depend on which key is taken out first. */
  lemma {:induction false} SumValuesRemove<K(!new)>(m: map<K, nat>, k: K)
    requires k in m
    ensures SumValues(m) == m[k] + SumValues(m - {k})
    decreases |m|
  {
    var j :| j in m && SumValues(m) == m[j] + SumValues(m - {j});
    if j != k {
      assert (m - {j}).Keys == m.Keys - {j};
      assert (m - {k}).Keys == m.Keys - {k};
      SumValuesRemove(m - {j}, k);
      SumValuesRemove(m - {k}, j);
      assert m - {j} - {k} == m - {k} - {j};
    }
  }

  /** The counts of a tally add up to the number of keys seen. */
  lemma {:induction false} TallySum<K(!new)>(keys: seq<K>)
    ensures SumValues(Tally(keys)) == |keys|
  {
    if keys != [] {
      var prefix, k := keys[..|keys| - 1], keys[|keys| - 1];
      var m := Tally(prefix);
      var m' := Tally(keys);
      TallySum(prefix);
      SumValuesRemove(m', k);
      assert m' - {k} == m - {k};
      if k in m {
        SumValuesRemove(m, k);
      } else {
        assert m - {k} == m;
      }
    }
  }

  /** The total length of a list of lists. */
  function SumLengths<T>(groups: seq<seq<T>>): nat {
    if groups == [] then 0 else SumLengths(groups[..|groups| - 1]) + |groups[|groups| - 1]|
  }

  lemma {:induction false} SumLengthsEmpty<T>(n: nat)
    ensures SumLengths(seq<seq<T>>(n, _ => [])) == 0
  {
    if n > 0 {
      SumLengthsEmpty<T>(n - 1);
      assert seq<seq<T>>(n, _ => [])[..n - 1] == seq<seq<T>>(n - 1, _ => []);
    }
  }

  /** Appending to one list adds one to the total. */
  lemma {:induction false} SumLengthsAppend<T>(groups: seq<seq<T>>, k: nat, x: T)
    requires k < |groups|
    ensures SumLengths(groups[k := groups[k] + [x]]) == SumLengths(groups) + 1
  {
    var last := |groups| - 1;
    var updated := groups[k := groups[k] + [x]];
    assert updated[..last] == if k < last then groups[..last][k := groups[k] + [x]] else groups[..last];
    if k < last {
      SumLengthsAppend(groups[..last], k, x);
    }
  }
}
