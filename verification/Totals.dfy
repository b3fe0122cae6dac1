/** Sums of a weight over the values of a finite map.

    Every counter in the server (units in use, units per tier, streams per worker) is meant to equal
    such a sum over the objects that are alive, so one small theory of sums serves all the models. */
module Totals {

  /** The sum of w(m[k]) over all keys k of m. */
  ghost function Total<K, V>(m: map<K, V>, w: V -> int): int
    decreases |m|
  {
    if m == map[] then 0
    else
      var k :| k in m;
      w(m[k]) + Total(m - {k}, w)
  }

  /** A total splits at any key, whichever key the definition happens to pick first. */
  lemma {:induction false} TotalSplit<K, V>(m: map<K, V>, k: K, w: V -> int)
    requires k in m
    ensures Total(m, w) == w(m[k]) + Total(m - {k}, w)
    decreases |m|
  {
    var j :| j in m && Total(m, w) == w(m[j]) + Total(m - {j}, w);
    if j != k {
      TotalSplit(m - {j}, k, w);
      assert k in m - {j} && j in m - {k};
      TotalSplit(m - {k}, j, w);
      assert m - {j} - {k} == m - {k} - {j};
    }
  }

  /** What a map contributes at one key; zero when the key is absent. */
  ghost function WeightAt<K, V>(m: map<K, V>, k: K, w: V -> int): int {
    if k in m then w(m[k]) else 0
  }

  lemma TotalUpdate<K, V>(m: map<K, V>, k: K, v: V, w: V -> int)
    ensures Total(m[k := v], w) == Total(m, w) - WeightAt(m, k, w) + w(v)
  {
    TotalSplit(m[k := v], k, w);
    assert m[k := v] - {k} == m - {k};
    if k in m {
      TotalSplit(m, k, w);
    } else {
      assert m - {k} == m;
    }
  }

  lemma TotalRemove<K, V>(m: map<K, V>, k: K, w: V -> int)
    ensures Total(m - {k}, w) == Total(m, w) - WeightAt(m, k, w)
  {
    if k in m {
      TotalSplit(m, k, w);
    } else {
      assert m - {k} == m;
    }
  }

  lemma {:induction false} TotalNonNegative<K, V>(m: map<K, V>, w: V -> int)
    requires forall k :: k in m ==> w(m[k]) >= 0
    ensures Total(m, w) >= 0
    decreases |m|
  {
    if m != map[] {
      var k :| k in m && Total(m, w) == w(m[k]) + Total(m - {k}, w);
      TotalNonNegative(m - {k}, w);
    }
  }

  /** Non-negative weights: no single key weighs more than the whole. */
  lemma TotalAtLeast<K, V>(m: map<K, V>, k: K, w: V -> int)
    requires forall j :: j in m ==> w(m[j]) >= 0
    ensures WeightAt(m, k, w) <= Total(m, w)
  {
    TotalRemove(m, k, w);
    TotalNonNegative(m - {k}, w);
  }

  /** Pointwise comparison of two weights lifts to their totals. */
  lemma {:induction false} TotalMonotone<K, V>(m: map<K, V>, w: V -> int, w': V -> int)
    requires forall k :: k in m ==> w(m[k]) <= w'(m[k])
    ensures Total(m, w) <= Total(m, w')
    decreases |m|
  {
    if m != map[] {
      var k :| k in m && Total(m, w) == w(m[k]) + Total(m - {k}, w);
      TotalSplit(m, k, w');
      TotalMonotone(m - {k}, w, w');
    }
  }

  /** Weights that add up pointwise add up in total. */
  lemma {:induction false} TotalSum<K, V>(m: map<K, V>, w: V -> int, x: V -> int, y: V -> int)
    requires forall k :: k in m ==> w(m[k]) == x(m[k]) + y(m[k])
    ensures Total(m, w) == Total(m, x) + Total(m, y)
    decreases |m|
  {
    if m != map[] {
      var k :| k in m && Total(m, w) == w(m[k]) + Total(m - {k}, w);
      TotalSplit(m, k, x);
      TotalSplit(m, k, y);
      TotalSum(m - {k}, w, x, y);
    }
  }

  /** A total of zero-or-one style weights that is zero has no contributor. */
  lemma TotalZero<K, V>(m: map<K, V>, w: V -> int)
    requires forall k :: k in m ==> w(m[k]) >= 0
    requires Total(m, w) == 0
    ensures forall k :: k in m ==> w(m[k]) == 0
  {
    forall k | k in m
      ensures w(m[k]) == 0
    {
      TotalAtLeast(m, k, w);
    }
  }

  /** A positive total has a contributor. */
  lemma {:induction false} TotalPositive<K, V>(m: map<K, V>, w: V -> int) returns (k: K)
    requires Total(m, w) > 0
    ensures k in m && w(m[k]) > 0
    decreases |m|
  {
    var j :| j in m && Total(m, w) == w(m[j]) + Total(m - {j}, w);
    if w(m[j]) > 0 {
      k := j;
    } else {
      k := TotalPositive(m - {j}, w);
    }
  }

  /** Weights that are all zero add up to zero. */
  lemma {:induction false} TotalOfNothing<K, V>(m: map<K, V>, w: V -> int)
    requires forall k :: k in m ==> w(m[k]) == 0
    ensures Total(m, w) == 0
    decreases |m|
  {
    if m != map[] {
      var k :| k in m && Total(m, w) == w(m[k]) + Total(m - {k}, w);
      TotalOfNothing(m - {k}, w);
    }
  }

  /** A total of zeros and ones counts the ones. */
  lemma {:induction false} TotalCounts<K, V>(m: map<K, V>, w: V -> int, ones: set<K>)
    requires forall k :: k in m ==> 0 <= w(m[k]) <= 1
    requires forall k :: k in ones <==> k in m && w(m[k]) == 1
    ensures Total(m, w) == |ones|
    decreases |m|
  {
    if m == map[] {
      assert ones == {};
    } else {
      var k :| k in m && Total(m, w) == w(m[k]) + Total(m - {k}, w);
      TotalCounts(m - {k}, w, ones - {k});
    }
  }
}
