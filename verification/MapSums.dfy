/** The sum of a map's values, which does not depend on the order of summation. */
module MapSums {
  import opened Common

  function Get<K>(m: map<K, real>, k: K): real {
    if k in m then m[k] else 0.0
  }

  ghost function Sum<K>(m: map<K, real>): real
    decreases |m|
  {
    if m == map[] then 0.0
    else
      var k :| k in m;
      RemovalShrinks(m, k);
      m[k] + Sum(m - {k})
  }

  lemma RemovalShrinks<K>(m: map<K, real>, k: K)
    requires k in m
    ensures |m - {k}| == |m| - 1
  {
    assert (m - {k}).Keys == m.Keys - {k};
    assert |m.Keys - {k}| == |m.Keys| - 1;
  }

  /** Any key may be taken out first. */
  lemma {:induction false} SumWithout<K>(m: map<K, real>, k: K)
    ensures Sum(m) == Get(m, k) + Sum(m - {k})
    decreases |m|
  {
    if k !in m {
      assert m - {k} == m;
    } else {
      var first :| first in m && Sum(m) == m[first] + Sum(m - {first});
      if first != k {
        RemovalShrinks(m, first);
        RemovalShrinks(m, k);
        SumWithout(m - {first}, k);
        SumWithout(m - {k}, first);
        assert m - {first} - {k} == m - {k} - {first};
      }
    }
  }

  method SumValues<K(==)>(m: map<K, real>) returns (total: real)
    ensures total == Sum(m)
  {
    total := 0.0;
    var rest := m;
    while rest != map[]
      invariant total + Sum(rest) == Sum(m)
      decreases |rest|
    {
      var k :| k in rest;
      SumWithout(rest, k);
      RemovalShrinks(rest, k);
      total := total + rest[k];
      rest := rest - {k};
    }
  }

  // ---- Sums of related maps ----

  predicate AdditiveAt(g: real -> real, x: real, y: real) {
    g(x + y) == g(x) + g(y)
  }

  /** Mapping every value by an additive function maps the sum by it. */
  lemma {:induction false} SumOfMapped<K>(m: map<K, real>, mapped: map<K, real>, g: real -> real)
    requires g(0.0) == 0.0 && forall x, y :: AdditiveAt(g, x, y)
    requires mapped.Keys == m.Keys && forall k :: k in m ==> mapped[k] == g(m[k])
    ensures Sum(mapped) == g(Sum(m))
    decreases |m|
  {
    if m == map[] {
      assert mapped == map[];
    } else {
      var k :| k in m;
      RemovalShrinks(m, k);
      SumOfMapped(m - {k}, mapped - {k}, g);
      SumWithout(m, k);
      SumWithout(mapped, k);
      assert AdditiveAt(g, m[k], Sum(m - {k}));
    }
  }

  /** `n` times `x`, for the bounds below. */
  function Times(n: nat, x: real): real {
    if n == 0 then 0.0 else Times(n - 1, x) + x
  }

  lemma {:induction false} TimesIsProduct(n: nat, x: real)
    ensures Times(n, x) == n as real * x
  {
    if n > 0 {
      TimesIsProduct(n - 1, x);
    }
  }

  /** Maps whose values differ by at most `tolerance` on their keys have close sums. */
  lemma {:induction false} SumsClose<K>(a: map<K, real>, b: map<K, real>, keys: set<K>, tolerance: real)
    requires a.Keys <= keys && b.Keys <= keys
    requires forall k :: k in keys ==> -tolerance <= Get(a, k) - Get(b, k) <= tolerance
    ensures -Times(|keys|, tolerance) <= Sum(a) - Sum(b) <= Times(|keys|, tolerance)
    decreases keys
  {
    if keys == {} {
      assert a == map[] && b == map[];
    } else {
      var k :| k in keys;
      SumsClose(a - {k}, b - {k}, keys - {k}, tolerance);
      SumWithout(a, k);
      SumWithout(b, k);
      assert |keys - {k}| == |keys| - 1;
    }
  }

  /** Values within bounds sum up to within the bounds times their number. */
  lemma {:induction false} SumBounds<K>(m: map<K, real>, low: real, high: real)
    requires forall k :: k in m ==> low <= m[k] <= high
    ensures Times(|m|, low) <= Sum(m) <= Times(|m|, high)
    decreases |m|
  {
    if m != map[] {
      var k :| k in m;
      RemovalShrinks(m, k);
      SumBounds(m - {k}, low, high);
      SumWithout(m, k);
    }
  }

  /** Values outside `keys` that are 0 do not matter. */
  lemma {:induction false} SumOfSupport<K>(m: map<K, real>, part: map<K, real>)
    requires part.Keys <= m.Keys
    requires forall k :: k in m ==> m[k] == Get(part, k)
    ensures Sum(m) == Sum(part)
    decreases |m|
  {
    if m == map[] {
      assert part == map[];
    } else {
      var k :| k in m;
      RemovalShrinks(m, k);
      SumOfSupport(m - {k}, part - {k});
      SumWithout(m, k);
      SumWithout(part, k);
    }
  }

  function Combine(x: real, a: real, y: real, b: real): real {
    x * a + y * b
  }

  function Combined<K>(a: map<K, real>, b: map<K, real>, x: real, y: real): map<K, real> {
    map k | k in a.Keys + b.Keys :: Combine(x, Get(a, k), y, Get(b, k))
  }

  lemma CombineAdds(x: real, y: real, a: real, b: real, sa: real, sb: real)
    ensures Combine(x, a, y, b) + Combine(x, sa, y, sb) == Combine(x, a + sa, y, b + sb)
    ensures Combine(x, 0.0, y, 0.0) == 0.0
  {
  }

  lemma CombinedWithout<K>(a: map<K, real>, b: map<K, real>, x: real, y: real, k: K)
    ensures Combined(a, b, x, y) - {k} == Combined(a - {k}, b - {k}, x, y)
  {
    var c, d := Combined(a, b, x, y) - {k}, Combined(a - {k}, b - {k}, x, y);
    assert c.Keys == d.Keys;
    forall j | j in c
      ensures c[j] == d[j]
    {
      assert Get(a - {k}, j) == Get(a, j) && Get(b - {k}, j) == Get(b, j);
    }
  }

  /** The sum is linear. */
  lemma {:induction false} SumOfCombined<K>(a: map<K, real>, b: map<K, real>, x: real, y: real)
    ensures Sum(Combined(a, b, x, y)) == Combine(x, Sum(a), y, Sum(b))
    decreases a.Keys + b.Keys
  {
    var c := Combined(a, b, x, y);
    if a.Keys + b.Keys == {} {
      assert a == map[] && b == map[] && c == map[];
    } else {
      var k := AnElement(a.Keys + b.Keys);
      SumOfCombined(a - {k}, b - {k}, x, y);
      CombinedWithout(a, b, x, y, k);
      SumWithout(a, k);
      SumWithout(b, k);
      SumWithout(c, k);
      CombineAdds(x, y, Get(a, k), Get(b, k), Sum(a - {k}), Sum(b - {k}));
    }
  }
}
