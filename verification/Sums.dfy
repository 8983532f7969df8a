/** Sums over finite maps. */
module Sums {
  ghost function Pick<K, V>(m: map<K, V>): (k: K)
    requires m != map[]
    ensures k in m
  {
    assert m.Keys == {} ==> m == map[];
    var k :| k in m;
    k
  }

  ghost function Sum<K, V>(m: map<K, V>, w: (K, V) -> nat): nat {
    if m == map[] then 0
    else
      var k := Pick(m);
      w(k, m[k]) + Sum(m - {k}, w)
  }

  lemma {:induction false} SumRemove<K, V>(m: map<K, V>, w: (K, V) -> nat, k: K)
    requires k in m
    ensures Sum(m, w) == w(k, m[k]) + Sum(m - {k}, w)
  {
    var p := Pick(m);
    if p != k {
      assert (m - {p}) - {k} == (m - {k}) - {p};
      SumRemove(m - {p}, w, k);
      SumRemove(m - {k}, w, p);
    }
  }

  lemma SumUpdate<K, V>(m: map<K, V>, w: (K, V) -> nat, k: K, v: V)
    ensures Sum(m[k := v], w) + (if k in m then w(k, m[k]) else 0) == Sum(m, w) + w(k, v)
  {
    SumRemove(m[k := v], w, k);
    if k in m {
      SumRemove(m, w, k);
      assert m[k := v] - {k} == m - {k};
    } else {
      assert m[k := v] - {k} == m;
    }
  }

  lemma {:induction false} SumSplit<K, V>(m: map<K, V>, w: (K, V) -> nat, a: (K, V) -> nat, b: (K, V) -> nat)
    requires forall k :: k in m ==> w(k, m[k]) == a(k, m[k]) + b(k, m[k])
    ensures Sum(m, w) == Sum(m, a) + Sum(m, b)
    decreases |m|
  {
    if m != map[] {
      var k := Pick(m);
      assert |m - {k}| < |m| by { assert (m - {k}).Keys == m.Keys - {k}; }
      SumSplit(m - {k}, w, a, b);
    }
  }

  lemma {:induction false} SumZero<K, V>(m: map<K, V>, w: (K, V) -> nat)
    requires forall k :: k in m ==> w(k, m[k]) == 0
    ensures Sum(m, w) == 0
    decreases |m|
  {
    if m != map[] {
      var k := Pick(m);
      assert |m - {k}| < |m| by { assert (m - {k}).Keys == m.Keys - {k}; }
      SumZero(m - {k}, w);
    }
  }

  /** `f` pairs the entries of two maps off, with equal weights. */
  ghost predicate Matched<K(!new), V, L, U>(m: map<K, V>, w: (K, V) -> nat, n: map<L, U>, x: (L, U) -> nat, f: K -> L) {
    && (forall k :: k in m ==> f(k) in n && w(k, m[k]) == x(f(k), n[f(k)]))
    && (forall j, k :: j in m && k in m && f(j) == f(k) ==> j == k)
    && (forall l :: l in n ==> exists k :: k in m && f(k) == l)
  }

  lemma {:induction false} SumMatched<K(!new), V, L, U>(m: map<K, V>, w: (K, V) -> nat, n: map<L, U>,
                                                        x: (L, U) -> nat, f: K -> L)
    requires Matched(m, w, n, x, f)
    ensures Sum(m, w) == Sum(n, x)
    decreases |m|
  {
    if m == map[] {
      assert n == map[];
    } else {
      var k := Pick(m);
      SumRemove(m, w, k);
      SumRemove(n, x, f(k));
      assert |m - {k}| < |m| by { assert (m - {k}).Keys == m.Keys - {k}; }
      SumMatched(m - {k}, w, n - {f(k)}, x, f);
    }
  }
}
