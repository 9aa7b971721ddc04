/** What Least Loaded minimises: the mean of the CPU and memory shares a node has given away. */
module LoadOrder {
  import opened Domain
  import opened Arithmetic
  import opened Schedulers

  /** CPU share and memory share of what a node has given away, brought over a common denominator. */
  function SharesGiven(n: NodeSnapshot): int {
    n.cpuAllocated * n.memoryCapacity + n.memoryAllocated * n.cpuCapacity
  }

  function Denominator(n: NodeSnapshot): (d: int)
    ensures 0 < d
  {
    Positive(n.cpuCapacity, n.memoryCapacity);
    n.cpuCapacity * n.memoryCapacity
  }

  lemma Positive(a: pos, b: pos)
    ensures 0 < a * b
  {
    MulMono(1, a, b);
  }

  /** n has given away no larger a share than m, CPU and memory counting the same; names decide a tie. */
  predicate NoMoreLoaded(n: NodeSnapshot, m: NodeSnapshot) {
    var left, right := SharesGiven(n) * Denominator(m), SharesGiven(m) * Denominator(n);
    left < right || (left == right && n.id <= m.id)
  }

  lemma QuotientTimes(x: real, y: real)
    requires y > 0.0
    ensures x / y * y == x
  {
  }

  /** The score is the mean of the two shares. */
  lemma ScoreIs(n: NodeSnapshot)
    ensures LoadScore(n) * (2.0 * Denominator(n) as real) == SharesGiven(n) as real
  {
    var a, b := n.cpuAllocated as real, n.memoryAllocated as real;
    var c, d := n.cpuCapacity as real, n.memoryCapacity as real;
    var x, y := a / c, b / d;
    QuotientTimes(a, c);
    QuotientTimes(b, d);
    assert Denominator(n) as real == c * d;
    assert SharesGiven(n) as real == a * d + b * c;
    calc {
      LoadScore(n) * (2.0 * (c * d));
      (0.5 * x + 0.5 * y) * (2.0 * (c * d));
      { HalvesTimes(x, y, c * d); }
      x * (c * d) + y * (c * d);
      { Regroup(x, y, c, d); }
      (x * c) * d + (y * d) * c;
      a * d + b * c;
    }
  }

  lemma HalvesTimes(x: real, y: real, z: real)
    ensures (0.5 * x + 0.5 * y) * (2.0 * z) == x * z + y * z
  {
  }

  lemma Regroup(x: real, y: real, c: real, d: real)
    ensures x * (c * d) + y * (c * d) == (x * c) * d + (y * d) * c
  {
  }

  lemma CrossMultiply(s: real, t: real, u: real, v: real)
    requires u > 0.0 && v > 0.0
    ensures s < t <==> (s * (2.0 * u)) * v < (t * (2.0 * v)) * u
    ensures s == t <==> (s * (2.0 * u)) * v == (t * (2.0 * v)) * u
  {
    var w := 2.0 * (u * v);
    ProductPositive(u, v);
    assert (s * (2.0 * u)) * v == s * w && (t * (2.0 * v)) * u == t * w;
    ScaleKeepsOrder(s, t, w);
  }

  lemma ProductPositive(u: real, v: real)
    requires u > 0.0 && v > 0.0
    ensures u * v > 0.0
  {
  }

  lemma ScaleKeepsOrder(s: real, t: real, w: real)
    requires w > 0.0
    ensures s < t <==> s * w < t * w
    ensures s == t <==> s * w == t * w
  {
    if s < t {
      ProductPositive(t - s, w);
      assert (t - s) * w == t * w - s * w;
    } else if t < s {
      ProductPositive(s - t, w);
      assert (s - t) * w == s * w - t * w;
    }
  }

  lemma LighterMeansLessLoaded(n: NodeSnapshot, m: NodeSnapshot)
    requires LighterThan(n, m)
    ensures NoMoreLoaded(n, m)
  {
    var u, v := Denominator(n) as real, Denominator(m) as real;
    ScoreIs(n);
    ScoreIs(m);
    CrossMultiply(LoadScore(n), LoadScore(m), u, v);
    assert (SharesGiven(n) * Denominator(m)) as real == SharesGiven(n) as real * v;
    assert (SharesGiven(m) * Denominator(n)) as real == SharesGiven(m) as real * u;
  }

  /** The chosen node fits, and of all that fit none is less loaded; names decide a tie. */
  ghost predicate LeastLoadedFit(p: Process, nodes: set<NodeSnapshot>, id: Id) {
    exists n | n in nodes :: n.id == id && n.CanFit(p) && forall m | m in nodes && m.CanFit(p) :: NoMoreLoaded(n, m)
  }

  lemma LightestIsLeastLoaded(p: Process, nodes: set<NodeSnapshot>)
    requires LightestFit(p, nodes).Some?
    ensures LeastLoadedFit(p, nodes, LightestFit(p, nodes).value)
  {
    hide LighterThan, NoMoreLoaded;
    var n :| IsLightestFit(p, nodes, n) && n.id == LightestFit(p, nodes).value;
    forall m | m in nodes && m.CanFit(p) ensures NoMoreLoaded(n, m) {
      if m == n {
        NoMoreThanItself(n);
      } else {
        LighterMeansLessLoaded(n, m);
      }
    }
  }

  lemma NoMoreThanItself(n: NodeSnapshot)
    ensures NoMoreLoaded(n, n)
  {
  }

  /** Least Loaded and Priority-Aware place on a least loaded node that fits, and fail exactly if none fits. */
  lemma LeastLoadedResult(policy: Policy, p: Process, nodes: set<NodeSnapshot>)
    requires DistinctIds(nodes) && !policy.RoundRobin?
    ensures var (choice, after) := Select(policy, p, nodes);
      && after == policy
      && (choice.Some? <==> exists n | n in nodes :: n.CanFit(p))
      && (choice.Some? ==> LeastLoadedFit(p, nodes, choice.value))
  {
    hide LightestFit, LeastLoadedFit;
    SelectIsExact(policy, p, nodes);
    if Select(policy, p, nodes).0.Some? {
      LightestIsLeastLoaded(p, nodes);
    }
  }
}
