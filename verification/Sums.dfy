/** Finite sums over the values of a map. */
module Sums {

  ghost function Sum<K>(m: map<K, int>): int
  {
    if m == map[] then 0 else
      var k :| k in m;
      m[k] + Sum(m - {k})
  }

  /** Any key can be split off first: the sum does not depend on the order of summation. */
  lemma {:induction false} SumSplit<K>(m: map<K, int>, k: K)
    requires k in m
    ensures Sum(m) == m[k] + Sum(m - {k})
    decreases |m|
  {
    var j :| j in m && Sum(m) == m[j] + Sum(m - {j});
    if j != k {
      SumSplit(m - {j}, k);
      SumSplit(m - {k}, j);
      assert m - {j} - {k} == m - {k} - {j};
    }
  }

  /** A map with `k` bound to `v` sums to `v` plus everything else. */
  lemma SumUpdate<K>(m: map<K, int>, k: K, v: int)
    ensures Sum(m[k := v]) == v + Sum(m - {k})
  {
    SumSplit(m[k := v], k);
    assert m[k := v] - {k} == m - {k};
  }

  /** Replacing the value at `k` changes the sum by the difference of the two values. */
  lemma SumReplace<K>(m: map<K, int>, k: K, v: int)
    ensures Sum(m[k := v]) == Sum(m) + v - (if k in m then m[k] else 0)
  {
    SumUpdate(m, k, v);
    if k in m {
      SumSplit(m, k);
    } else {
      assert m - {k} == m;
    }
  }

  lemma {:induction false} SumOfZeros<K>(m: map<K, int>)
    requires forall k :: k in m ==> m[k] == 0
    ensures Sum(m) == 0
    decreases |m|
  {
    if m != map[] {
      var k :| k in m;
      SumSplit(m, k);
      SumOfZeros(m - {k});
    }
  }

  lemma {:induction false} SumIsMonotone<K>(m: map<K, int>, n: map<K, int>)
    requires m.Keys == n.Keys
    requires forall k :: k in m ==> m[k] <= n[k]
    ensures Sum(m) <= Sum(n)
    decreases |m|
  {
    if m != map[] {
      var k :| k in m;
      SumSplit(m, k);
      SumSplit(n, k);
      SumIsMonotone(m - {k}, n - {k});
    } else {
      assert n == map[];
    }
  }

  ghost function Fiber<K, L>(m: map<K, int>, f: K -> L, l: L): map<K, int> {
    map k | k in m && f(k) == l :: m[k]
  }

  ghost function FiberSums<K, L>(m: map<K, int>, f: K -> L, labels: set<L>): map<L, int> {
    map l | l in labels :: Sum(Fiber(m, f, l))
  }

  /** Summing label by label gives the whole sum, when every key carries one of the labels. */
  lemma {:induction false} SumByFibers<K, L>(m: map<K, int>, f: K -> L, labels: set<L>)
    requires forall k :: k in m ==> f(k) in labels
    ensures Sum(m) == Sum(FiberSums(m, f, labels))
    decreases |m|
  {
    if m == map[] {
      FiberSumsOfNothing(f, labels);
    } else {
      var k :| k in m;
      SumSplit(m, k);
      SumByFibers(m - {k}, f, labels);
      FiberSumsGrow(m, f, labels, k);
    }
  }

  lemma FiberSumsOfNothing<K, L>(f: K -> L, labels: set<L>)
    ensures Sum(FiberSums(map[], f, labels)) == 0
  {
    forall l | l in labels ensures Sum(Fiber(map[], f, l)) == 0 {
      SumOfZeros(Fiber(map[], f, l));
    }
    SumOfZeros(FiberSums(map[], f, labels));
  }

  lemma FiberSumsGrow<K, L>(m: map<K, int>, f: K -> L, labels: set<L>, k: K)
    requires k in m && f(k) in labels
    ensures Sum(FiberSums(m, f, labels)) == m[k] + Sum(FiberSums(m - {k}, f, labels))
  {
    FiberSumsSplit(m, f, labels, k);
    var sums := FiberSums(m - {k}, f, labels);
    SumReplace(sums, f(k), m[k] + sums[f(k)]);
  }

  lemma FiberSumsSplit<K, L>(m: map<K, int>, f: K -> L, labels: set<L>, k: K)
    requires k in m && f(k) in labels
    ensures var sums := FiberSums(m - {k}, f, labels);
      FiberSums(m, f, labels) == sums[f(k) := m[k] + sums[f(k)]]
  {
    SumSplit(Fiber(m, f, f(k)), k);
    assert Fiber(m, f, f(k)) - {k} == Fiber(m - {k}, f, f(k));
    forall l | l in labels && l != f(k) ensures Sum(Fiber(m, f, l)) == Sum(Fiber(m - {k}, f, l)) {
      assert Fiber(m, f, l) == Fiber(m - {k}, f, l);
    }
  }
}
