/** Finite sums over the values of a map, in no particular order. */
module Sums {

  ghost function MapSum(m: map<nat, int>): (r: int)
    decreases |m|
  {
    if m == map[] then 0
    else
      var k :| k in m;
      assert |m - {k}| < |m| by { assert (m - {k}).Keys == m.Keys - {k}; }
      m[k] + MapSum(m - {k})
  }

  lemma Shrinks(m: map<nat, int>, k: nat)
    requires k in m
    ensures (m - {k}).Keys == m.Keys - {k} && |m - {k}| < |m|
  {
  }

  /** Any key may be taken out first. */
  lemma {:induction false} TakeOut(m: map<nat, int>, k: nat)
    requires k in m
    ensures MapSum(m) == m[k] + MapSum(m - {k})
    decreases |m|
  {
    var c :| c in m && MapSum(m) == m[c] + MapSum(m - {c});
    if c != k {
      Shrinks(m, c);
      Shrinks(m, k);
      TakeOut(m - {c}, k);
      TakeOut(m - {k}, c);
      assert (m - {c}) - {k} == (m - {k}) - {c};
    }
  }

  lemma SameMap(a: map<nat, int>, b: map<nat, int>)
    requires a.Keys == b.Keys && forall k | k in a :: b[k] == a[k]
    ensures a == b
  {
  }

  lemma Remove(m: map<nat, int>, k: nat) returns (r: map<nat, int>)
    requires k in m
    ensures r == m - {k} && r.Keys == m.Keys - {k} && |r| < |m|
    ensures forall j | j in r :: r[j] == m[j]
    ensures MapSum(m) == m[k] + MapSum(r)
  {
    r := m - {k};
    Shrinks(m, k);
    TakeOut(m, k);
  }

  lemma PutIn(m: map<nat, int>, k: nat, v: int)
    requires k !in m
    ensures MapSum(m[k := v]) == MapSum(m) + v
  {
    TakeOut(m[k := v], k);
    assert m[k := v] - {k} == m;
  }

  lemma {:induction false} SumIsMonotone(a: map<nat, int>, b: map<nat, int>)
    requires a.Keys == b.Keys && forall k | k in a :: a[k] <= b[k]
    ensures MapSum(a) <= MapSum(b)
    ensures (exists k | k in a :: a[k] < b[k]) ==> MapSum(a) < MapSum(b)
    decreases |a|
  {
    if a.Keys != {} {
      var k :| k in a && ((exists j | j in a :: a[j] < b[j]) ==> a[k] < b[k]);
      var a', b' := a - {k}, b - {k};
      Shrinks(a, k);
      Shrinks(b, k);
      TakeOut(a, k);
      TakeOut(b, k);
      SumIsMonotone(a', b');
    } else {
      assert a == map[] && b == map[];
    }
  }

  lemma {:induction false} SumIsNonNegative(m: map<nat, int>)
    requires forall k | k in m :: 0 <= m[k]
    ensures 0 <= MapSum(m)
    decreases |m|
  {
    if m.Keys != {} {
      var k :| k in m;
      var rest := Remove(m, k);
      SumIsNonNegative(rest);
    } else {
      assert m == map[];
    }
  }

  lemma {:induction false} SumAdds(a: map<nat, int>, b: map<nat, int>, c: map<nat, int>)
    requires a.Keys == b.Keys == c.Keys && forall k | k in a :: c[k] == a[k] + b[k]
    ensures MapSum(c) == MapSum(a) + MapSum(b)
    decreases |a|
  {
    if a.Keys != {} {
      var k :| k in a;
      var a' := Remove(a, k);
      var b' := Remove(b, k);
      var c' := Remove(c, k);
      SumAdds(a', b', c');
    } else {
      assert a == map[] && b == map[] && c == map[];
    }
  }

  lemma KeysSplit(a: set<nat>, b: set<nat>, k: nat)
    requires a !! b && k in b
    ensures (a + b) - {k} == a + (b - {k})
  {
  }

  /** Splitting the keys of `c` into those of `a` and those of `b`. */
  lemma {:induction false} SumOfUnion(a: map<nat, int>, b: map<nat, int>, c: map<nat, int>)
    requires a.Keys !! b.Keys && c.Keys == a.Keys + b.Keys
    requires (forall k | k in a :: c[k] == a[k]) && (forall k | k in b :: c[k] == b[k])
    ensures MapSum(c) == MapSum(a) + MapSum(b)
    decreases |b|
  {
    if b.Keys != {} {
      var k :| k in b;
      KeysSplit(a.Keys, b.Keys, k);
      var b' := Remove(b, k);
      var c' := Remove(c, k);
      SumOfUnion(a, b', c');
    } else {
      SameMap(a, c);
      assert b == map[];
    }
  }

  // ---------------------------------------------------------------- reals

  ghost function RealSum(m: map<nat, real>): (r: real)
    decreases |m|
  {
    if m == map[] then 0.0
    else
      var k :| k in m;
      assert |m - {k}| < |m| by { assert (m - {k}).Keys == m.Keys - {k}; }
      m[k] + RealSum(m - {k})
  }

  lemma RealShrinks(m: map<nat, real>, k: nat)
    requires k in m
    ensures (m - {k}).Keys == m.Keys - {k} && |m - {k}| < |m|
  {
  }

  lemma {:induction false} RealTakeOut(m: map<nat, real>, k: nat)
    requires k in m
    ensures RealSum(m) == m[k] + RealSum(m - {k})
    decreases |m|
  {
    var c :| c in m && RealSum(m) == m[c] + RealSum(m - {c});
    if c != k {
      RealShrinks(m, c);
      RealShrinks(m, k);
      RealTakeOut(m - {c}, k);
      RealTakeOut(m - {k}, c);
      assert (m - {c}) - {k} == (m - {k}) - {c};
    }
  }

  lemma RealPutIn(m: map<nat, real>, k: nat, v: real)
    requires k !in m
    ensures RealSum(m[k := v]) == RealSum(m) + v
  {
    RealTakeOut(m[k := v], k);
    assert m[k := v] - {k} == m;
  }

  ghost function Mean(m: map<nat, real>): real {
    if m == map[] then 0.0 else RealSum(m) / |m| as real
  }

  ghost function SquaredDeviations(m: map<nat, real>, mean: real): map<nat, real> {
    map k | k in m :: (m[k] - mean) * (m[k] - mean)
  }

  ghost function Variance(m: map<nat, real>): real {
    if m == map[] then 0.0 else RealSum(SquaredDeviations(m, Mean(m))) / |m| as real
  }
}
