/** Floor division by a variable divisor, and sums over finite maps. */
module Arithmetic {

  lemma MulMono(a: nat, b: nat, c: nat)
    requires a <= b
    ensures a * c <= b * c && c * a <= c * b
  {}

  /** The quotient is at least `q` exactly when the dividend is at least `q * d`. */
  lemma DivAtLeast(x: nat, d: nat, q: nat)
    requires d > 0
    ensures q <= x / d <==> q * d <= x
  {
    assert x == d * (x / d) + x % d;
    if q <= x / d {
      MulMono(q, x / d, d);
    } else {
      MulMono(x / d + 1, q, d);
      assert (x / d + 1) * d == d * (x / d) + d;
    }
  }

  lemma DivMono(x: nat, y: nat, d: nat)
    requires d > 0 && x <= y
    ensures x / d <= y / d
  {
    DivAtLeast(x, d, x / d);
    DivAtLeast(y, d, x / d);
  }

  /** `floor(x / d)` is the only number whose multiple of `d` is at most `x` and within `d` of it. */
  lemma DivIs(x: nat, d: nat, q: nat)
    requires d > 0 && q * d <= x < (q + 1) * d
    ensures x / d == q
  {
    DivAtLeast(x, d, q);
    DivAtLeast(x, d, q + 1);
  }

  lemma DivBounds(x: nat, d: nat)
    requires d > 0
    ensures x / d * d <= x < (x / d + 1) * d
  {
    DivAtLeast(x, d, x / d);
    DivAtLeast(x, d, x / d + 1);
  }

  /** Dividing twice is dividing once by the product. */
  lemma DivDiv(x: nat, d: nat, e: nat, n: nat)
    requires d > 0 && e > 0 && n > 0 && n == d * e
    ensures x / d / e == x / n
  {
    var y := x / d;
    var q := y / e;
    DivBounds(x, d);
    DivBounds(y, e);
    NestedBounds(x, y, q, d, e, n);
    DivIs(x, n, q);
  }

  lemma NestedBounds(x: nat, y: nat, q: nat, d: nat, e: nat, n: nat)
    requires n == d * e
    requires y * d <= x < (y + 1) * d && q * e <= y < (q + 1) * e
    ensures q * n <= x < (q + 1) * n
  {
    Regroup(q, d, e);
    MulMono(q * e, y, d);
    Regroup(q + 1, d, e);
    MulMono(y + 1, (q + 1) * e, d);
  }

  lemma Regroup(q: nat, d: nat, e: nat)
    ensures q * (d * e) == q * e * d
  {}

  lemma SmallModulus(n: nat, m: nat)
    requires n < m
    ensures n % m == n
  {
    DivIs(n, m, 0);
  }

  // ----- sums over finite maps -----

  ghost function Sum<K(!new)>(m: map<K, nat>): nat
    decreases |m|
  {
    if m == map[] then 0
    else
      var k :| k in m;
      Smaller(m, k);
      m[k] + Sum(m - {k})
  }

  /** The sum does not depend on the order of the keys. */
  lemma {:induction false} SumPick<K(!new)>(m: map<K, nat>, k: K)
    requires k in m
    ensures Sum(m) == m[k] + Sum(m - {k})
    decreases |m|
  {
    var j :| j in m && Sum(m) == m[j] + Sum(m - {j});
    if j != k {
      Smaller(m, j);
      Smaller(m, k);
      SumPick(m - {j}, k);
      SumPick(m - {k}, j);
      assert m - {j} - {k} == m - {k} - {j};
    }
  }

  lemma SumUpdate<K(!new)>(m: map<K, nat>, k: K, v: nat)
    ensures Sum(m[k := v]) == Sum(m) + v - (if k in m then m[k] else 0)
  {
    SumPick(m[k := v], k);
    assert m[k := v] - {k} == m - {k};
    if k in m {
      SumPick(m, k);
    } else {
      assert m - {k} == m;
    }
  }

  lemma SumAtLeast<K(!new)>(m: map<K, nat>, k: K)
    requires k in m
    ensures m[k] <= Sum(m)
  {
    SumPick(m, k);
  }

  lemma SumAtLeastTwo<K(!new)>(m: map<K, nat>, j: K, k: K)
    requires j in m && k in m && j != k
    ensures m[j] + m[k] <= Sum(m)
  {
    SumPick(m, k);
    SumPick(m - {k}, j);
  }

  lemma AddScaled(x: nat, y: nat, a: nat, u: nat, v: nat, b: nat)
    requires x * a <= u * b && y * a <= v * b
    ensures (x + y) * a <= (u + v) * b
  {}

  /** Removing a key makes a map smaller. */
  lemma Smaller<K(!new)>(m: map<K, nat>, k: K)
    requires k in m
    ensures |m - {k}| < |m|
  {
    assert m.Keys == (m - {k}).Keys + {k};
  }

  /** Term-by-term comparison of two sums on different scales. */
  lemma {:induction false} SumScaled<K(!new)>(f: map<K, nat>, g: map<K, nat>, a: nat, b: nat)
    requires f.Keys == g.Keys
    requires forall k :: k in f ==> f[k] * a <= g[k] * b
    ensures Sum(f) * a <= Sum(g) * b
    decreases |f|
  {
    if f == map[] {
      assert g == map[];
    } else {
      var k :| k in f;
      Smaller(f, k);
      SumPick(f, k);
      SumPick(g, k);
      SumScaled(f - {k}, g - {k}, a, b);
      AddScaled(f[k], Sum(f - {k}), a, g[k], Sum(g - {k}), b);
    }
  }
}
