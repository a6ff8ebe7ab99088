/** Sums over the values of a finite map, in no particular order, and products by addition. */
module Sums {

  ghost function SumOf(w: map<string, int>): int {
    if w == map[] then 0
    else
      var k :| k in w;
      w[k] + SumOf(w - {k})
  }

  lemma {:induction false} SumRemove(w: map<string, int>, k: string)
    requires k in w
    ensures SumOf(w) == w[k] + SumOf(w - {k})
    decreases |w|
  {
    var j :| j in w && SumOf(w) == w[j] + SumOf(w - {j});
    if j != k {
      SumRemove(w - {j}, k);
      SumRemove(w - {k}, j);
      assert w - {j} - {k} == w - {k} - {j};
    }
  }

  lemma SumUpdate(w: map<string, int>, k: string, v: int)
    requires k in w
    ensures SumOf(w[k := v]) == SumOf(w) - w[k] + v
  {
    SumRemove(w, k);
    SumRemove(w[k := v], k);
    assert w[k := v] - {k} == w - {k};
  }

  lemma {:induction false} SumNonNegative(w: map<string, int>)
    requires forall k :: k in w ==> w[k] >= 0
    ensures SumOf(w) >= 0
    decreases |w|
  {
    if w != map[] {
      var j :| j in w && SumOf(w) == w[j] + SumOf(w - {j});
      SumNonNegative(w - {j});
    }
  }

  /** If each value rises by at most its allowance, so does the sum. */
  lemma {:induction false} SumGrowth(w: map<string, int>, u: map<string, int>, allowance: map<string, int>)
    requires w.Keys == u.Keys == allowance.Keys
    requires forall k :: k in w ==> u[k] <= w[k] + allowance[k]
    ensures SumOf(u) <= SumOf(w) + SumOf(allowance)
    decreases |w|
  {
    if w == map[] {
      assert u == map[] && allowance == map[];
    } else {
      var k :| k in w;
      SumRemove(w, k);
      SumRemove(u, k);
      SumRemove(allowance, k);
      SumGrowth(w - {k}, u - {k}, allowance - {k});
    }
  }

  /** As above, with `x` more on the side of `n`. */
  lemma SumGrowthAt(w: map<string, int>, u: map<string, int>, allowance: map<string, int>, n: string, x: int)
    requires w.Keys == u.Keys == allowance.Keys && n in w
    requires forall k :: k in w ==> u[k] + (if k == n then x else 0) <= w[k] + allowance[k]
    ensures SumOf(u) + x <= SumOf(w) + SumOf(allowance)
  {
    var v := Raised(u, n, x);
    SumGrowth(w, v, allowance);
  }

  ghost function Raised(u: map<string, int>, n: string, x: int): (v: map<string, int>)
    requires n in u
    ensures v.Keys == u.Keys && SumOf(v) == SumOf(u) + x
    ensures forall k :: k in u ==> v[k] == u[k] + if k == n then x else 0
  {
    SumUpdate(u, n, u[n] + x);
    u[n := u[n] + x]
  }

  /** `a` taken `k` times, by addition alone. */
  function Times(a: nat, k: nat): nat {
    if k == 0 then 0 else a + Times(a, k - 1)
  }

  lemma {:induction false} TimesMonotone(a: nat, j: nat, k: nat)
    requires j <= k
    ensures Times(a, j) <= Times(a, k)
    decreases k
  {
    if j < k {
      TimesMonotone(a, j, k - 1);
    }
  }

  lemma Subset<T>(a: set<T>, b: set<T>)
    requires a <= b
    ensures |a| <= |b|
  {
    assert b == a + (b - a);
  }
}
