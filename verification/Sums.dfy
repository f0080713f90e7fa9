/** Totals over finite maps, independent of the order in which a map is walked. */
module Sums {

  ghost function Pick<K, V>(m: map<K, V>): (k: K)
    requires m != map[]
    ensures k in m
  {
    var k :| k in m; k
  }

  /** The sum of f over the values of m. */
  ghost function MapTotal<K, V>(m: map<K, V>, f: V -> int): int
    decreases |m|
  {
    if m == map[] then 0
    else
      var k := Pick(m);
      assert |m - {k}| < |m| by { RemoveShrinks(m, k); }
      f(m[k]) + MapTotal(m - {k}, f)
  }

  lemma RemoveShrinks<K, V>(m: map<K, V>, k: K)
    requires k in m
    ensures |m - {k}| < |m|
  {
    assert (m - {k}).Keys == m.Keys - {k};
    assert |m.Keys - {k}| < |m.Keys|;
  }

  /** Any key may be taken out first. */
  lemma {:induction false} TotalRemove<K, V>(m: map<K, V>, k: K, f: V -> int)
    requires k in m
    ensures MapTotal(m, f) == f(m[k]) + MapTotal(m - {k}, f)
    decreases |m|
  {
    var j := Pick(m);
    if j != k {
      RemoveShrinks(m, j);
      RemoveShrinks(m, k);
      TotalRemove(m - {j}, k, f);
      TotalRemove(m - {k}, j, f);
      assert m - {j} - {k} == m - {k} - {j};
    }
  }

  lemma TotalUpdate<K, V>(m: map<K, V>, k: K, v: V, f: V -> int)
    ensures MapTotal(m[k := v], f) == f(v) + MapTotal(m - {k}, f)
    ensures k !in m ==> MapTotal(m[k := v], f) == f(v) + MapTotal(m, f)
    ensures k in m ==> MapTotal(m[k := v], f) == MapTotal(m, f) - f(m[k]) + f(v)
  {
    var u := m[k := v];
    TotalRemove(u, k, f);
    assert u - {k} == m - {k};
    if k in m {
      TotalRemove(m, k, f);
    } else {
      assert m - {k} == m;
    }
  }

  /** Totals are linear in the summed function. */
  lemma {:induction false} TotalLinear<K, V(!new)>(m: map<K, V>, f: V -> int, g: V -> int, h: V -> int)
    requires forall k :: k in m ==> f(m[k]) == g(m[k]) + h(m[k])
    ensures MapTotal(m, f) == MapTotal(m, g) + MapTotal(m, h)
    decreases |m|
  {
    if m != map[] {
      var k := Pick(m);
      RemoveShrinks(m, k);
      TotalLinear(m - {k}, f, g, h);
    }
  }

  function Same(): int -> int {
    (x: int) => x
  }

  /** The sum of a map's values. */
  ghost function MapSum<K>(m: map<K, int>): int {
    MapTotal(m, Same())
  }

  /** One step of ranging over a map or a set, which may visit the elements in any order. */
  method NextKey<T>(rest: set<T>) returns (k: T)
    requires rest != {}
    ensures k in rest
  {
    k :| k in rest;
  }
}
