/** Real-valued sums over the rows of a table. */
module RealSums {
  import opened Sums

  ghost function RealSum<K, V>(m: map<K, V>, f: V -> real): real
    decreases |m|
  {
    if m == map[] then 0.0
    else
      var k :| k in m;
      f(m[k]) + RealSum(m - {k}, f)
  }

  lemma {:induction false} RealSumRemove<K, V>(m: map<K, V>, k: K, f: V -> real)
    requires k in m
    ensures RealSum(m, f) == f(m[k]) + RealSum(m - {k}, f)
    decreases |m|
  {
    var j :| j in m && RealSum(m, f) == f(m[j]) + RealSum(m - {j}, f);
    if j != k {
      RealSumRemove(m - {j}, k, f);
      RealSumRemove(m - {k}, j, f);
      assert m - {j} - {k} == m - {k} - {j};
    }
  }

  lemma {:induction false} RealSumSplit<K, V>(m: map<K, V>, h: V -> real, f: V -> real, g: V -> real)
    requires forall k :: k in m ==> h(m[k]) == f(m[k]) + g(m[k])
    ensures RealSum(m, h) == RealSum(m, f) + RealSum(m, g)
    decreases |m|
  {
    if m != map[] {
      var k :| k in m && RealSum(m, h) == h(m[k]) + RealSum(m - {k}, h);
      RealSumRemove(m, k, f);
      RealSumRemove(m, k, g);
      RealSumSplit(m - {k}, h, f, g);
    }
  }

  ghost predicate Adds(scale: int -> real, x: int, y: int) {
    scale(x + y) == scale(x) + scale(y)
  }

  lemma AddsUp(scale: int -> real, x: int, y: int)
    requires forall a, b :: Adds(scale, a, b)
    ensures scale(x + y) == scale(x) + scale(y)
    ensures scale(0) == 0.0
  {
    assert Adds(scale, x, y) && Adds(scale, 0, 0);
  }

  /** Adding up scaled values is scaling their sum. */
  lemma {:induction false} RealSumScale<K, V>(m: map<K, V>, f: V -> int, g: V -> real, scale: int -> real)
    requires forall x, y :: Adds(scale, x, y)
    requires forall k :: k in m ==> g(m[k]) == scale(f(m[k]))
    ensures RealSum(m, g) == scale(Sum(m, f))
    decreases |m|
  {
    if m == map[] {
      AddsUp(scale, 0, 0);
    } else {
      var k :| k in m && RealSum(m, g) == g(m[k]) + RealSum(m - {k}, g);
      var rest := m - {k};
      RealSumScale(rest, f, g, scale);
      var here, there := f(m[k]), Sum(rest, f);
      assert Sum(m, f) == here + there by { SumRemove(m, k, f); }
      AddsUp(scale, here, there);
    }
  }
}
