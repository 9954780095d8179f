/** Sums over the entries of a map, in no particular order. */
module MapSums {

  ghost function AnyKey<K, V>(m: map<K, V>): (k: K)
    requires m != map[]
    ensures k in m
  {
    var k :| k in m;
    k
  }

  ghost function Total<K, V>(m: map<K, V>, size: V -> nat): nat
    decreases |m|
  {
    if m == map[] then 0
    else
      var k := AnyKey(m);
      size(m[k]) + Total(m - {k}, size)
  }

  lemma {:induction false} TotalWithout<K, V>(m: map<K, V>, size: V -> nat, k: K)
    requires k in m
    ensures Total(m, size) == size(m[k]) + Total(m - {k}, size)
    decreases |m|
  {
    var first := AnyKey(m);
    if first != k {
      TotalWithout(m - {first}, size, k);
      TotalWithout(m - {k}, size, first);
      assert m - {first} - {k} == m - {k} - {first};
    }
  }

  lemma TotalPut<K, V>(m: map<K, V>, size: V -> nat, k: K, v: V)
    ensures Total(m[k := v], size) == size(v) + Total(m - {k}, size)
  {
    TotalWithout(m[k := v], size, k);
    assert m[k := v] - {k} == m - {k};
  }

  // Part of a map, with no entry larger, comes to no more than all of it.
  lemma {:induction false} TotalOfPart<K, V>(part: map<K, V>, m: map<K, V>, size: V -> nat)
    requires forall k :: k in part ==> k in m && size(part[k]) <= size(m[k])
    ensures Total(part, size) <= Total(m, size)
    decreases |part|
  {
    if part != map[] {
      var k := AnyKey(part);
      TotalWithout(m, size, k);
      TotalOfPart(part - {k}, m - {k}, size);
    }
  }
}
