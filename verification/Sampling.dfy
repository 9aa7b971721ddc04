/** Utilization sampling: the totals and the load variance, accumulated over the node table in any order. */
module Sampling {
  import opened Domain
  import opened Ordering
  import opened Sums
  import opened Schedulers
  import opened Cluster

  ghost function Only(nodes: map<Id, Node>, seen: set<Id>): map<Id, Node> {
    map n | n in nodes && n in seen :: nodes[n]
  }

  lemma OneMoreNode(nodes: map<Id, Node>, seen: set<Id>, id: Id, r: Resource)
    requires id in nodes && id !in seen
    ensures TotalCapacity(Only(nodes, seen + {id}), r) == TotalCapacity(Only(nodes, seen), r) + nodes[id].Capacity(r)
    ensures TotalAllocated(Only(nodes, seen + {id}), r)
        == TotalAllocated(Only(nodes, seen), r) + nodes[id].AllocatedOf(r)
  {
    PutIn(Capacities(Only(nodes, seen), r), id, nodes[id].Capacity(r));
    assert Capacities(Only(nodes, seen + {id}), r) == Capacities(Only(nodes, seen), r)[id := nodes[id].Capacity(r)];
    PutIn(Allocations(Only(nodes, seen), r), id, nodes[id].AllocatedOf(r));
    assert Allocations(Only(nodes, seen + {id}), r)
        == Allocations(Only(nodes, seen), r)[id := nodes[id].AllocatedOf(r)];
  }

  lemma OnlyEnds(nodes: map<Id, Node>)
    ensures Only(nodes, nodes.Keys) == nodes
    ensures forall r :: TotalCapacity(Only(nodes, {}), r) == 0 && TotalAllocated(Only(nodes, {}), r) == 0
  {
    assert forall r :: Capacities(Only(nodes, {}), r) == map[] && Allocations(Only(nodes, {}), r) == map[];
  }

  /** Capacity and allocation over all nodes. */
  method Totals(nodes: map<Id, Node>)
    returns (totalCpu: int, allocatedCpu: int, totalMemory: int, allocatedMemory: int)
    ensures totalCpu == TotalCapacity(nodes, CPU) && allocatedCpu == TotalAllocated(nodes, CPU)
    ensures totalMemory == TotalCapacity(nodes, Memory) && allocatedMemory == TotalAllocated(nodes, Memory)
  {
    hide TotalCapacity, TotalAllocated, Only;
    totalCpu, allocatedCpu, totalMemory, allocatedMemory := 0, 0, 0, 0;
    var todo := nodes.Keys;
    ghost var seen: set<Id> := {};
    OnlyEnds(nodes);
    while todo != {}
      invariant seen <= nodes.Keys && todo == nodes.Keys - seen
      invariant totalCpu == TotalCapacity(Only(nodes, seen), CPU)
      invariant allocatedCpu == TotalAllocated(Only(nodes, seen), CPU)
      invariant totalMemory == TotalCapacity(Only(nodes, seen), Memory)
      invariant allocatedMemory == TotalAllocated(Only(nodes, seen), Memory)
      decreases |todo|
    {
      var id :| id in todo;
      var node := nodes[id];
      OneMoreNode(nodes, seen, id, CPU);
      OneMoreNode(nodes, seen, id, Memory);
      totalCpu := totalCpu + node.cpuCapacity;
      allocatedCpu := allocatedCpu + node.cpuAllocated;
      totalMemory := totalMemory + node.memoryCapacity;
      allocatedMemory := allocatedMemory + node.memoryAllocated;
      todo := todo - {id};
      seen := seen + {id};
    }
    assert seen == nodes.Keys;
  }

  /** Utilization of both resources; 0 without capacity. */
  method CurrentUtilization(nodes: map<Id, Node>) returns (cpu: real, memory: real)
    ensures cpu == Utilization(nodes, CPU) && memory == Utilization(nodes, Memory)
  {
    hide TotalCapacity, TotalAllocated;
    var totalCpu, allocatedCpu, totalMemory, allocatedMemory := Totals(nodes);
    cpu, memory := 0.0, 0.0;
    if totalCpu > 0 {
      cpu := allocatedCpu as real / totalCpu as real;
    }
    if totalMemory > 0 {
      memory := allocatedMemory as real / totalMemory as real;
    }
  }

  // ---------------------------------------------------------------- a slice of loads

  /** The slice lists the values of the table, each key once, in the order it was ranged over. */
  ghost predicate Lists(xs: seq<real>, order: seq<Id>, m: map<Id, real>) {
    && |xs| == |order| && Elements(order) == m.Keys
    && (forall i, j | 0 <= i < j < |order| :: order[i] != order[j])
    && forall i | 0 <= i < |xs| :: order[i] in m && xs[i] == m[order[i]]
  }

  ghost function Listed(m: map<Id, real>, order: seq<Id>): map<Id, real> {
    map id | id in order && id in m :: m[id]
  }

  lemma OneMoreListed(m: map<Id, real>, order: seq<Id>, i: nat)
    requires i < |order| && order[i] in m && forall j, k | 0 <= j < k < |order| :: order[j] != order[k]
    ensures RealSum(Listed(m, order[..i + 1])) == RealSum(Listed(m, order[..i])) + m[order[i]]
  {
    assert order[..i + 1] == order[..i] + [order[i]];
    assert order[i] !in order[..i];
    RealPutIn(Listed(m, order[..i]), order[i], m[order[i]]);
    assert Listed(m, order[..i + 1]) == Listed(m, order[..i])[order[i] := m[order[i]]];
  }

  lemma ListedEnds(m: map<Id, real>, order: seq<Id>)
    requires Elements(order) == m.Keys
    ensures Listed(m, order[..|order|]) == m && RealSum(Listed(m, order[..0])) == 0.0
  {
    assert order[..|order|] == order;
    assert forall id | id in m :: id in Elements(order);
    assert Listed(m, order[..0]) == map[];
  }

  /** The mean of the loads, whatever order they were appended in. */
  method MeanOf(loads: seq<real>, ghost order: seq<Id>, ghost m: map<Id, real>) returns (mean: real)
    requires Lists(loads, order, m) && loads != []
    ensures mean == Mean(m)
  {
    hide RealSum, Listed;
    ListedEnds(m, order);
    var sum := 0.0;
    for i := 0 to |loads|
      invariant sum == RealSum(Listed(m, order[..i]))
    {
      OneMoreListed(m, order, i);
      sum := sum + loads[i];
    }
    SizeOfListing(order);
    mean := sum / |loads| as real;
    assert order[0] in m;
  }

  lemma {:induction false} SizeOfListing(order: seq<Id>)
    requires forall i, j | 0 <= i < j < |order| :: order[i] != order[j]
    ensures |Elements(order)| == |order|
  {
    if order == [] {
      assert Elements(order) == {};
    } else {
      SizeOfListing(order[1..]);
      assert Elements(order) == Elements(order[1..]) + {order[0]};
      assert order[0] !in order[1..];
    }
  }

  lemma SquaresAre(m: map<Id, real>, mean: real)
    ensures SquaredDeviations(m, mean).Keys == m.Keys
    ensures forall id | id in m :: SquaredDeviations(m, mean)[id] == (m[id] - mean) * (m[id] - mean)
  {
  }

  method VarianceOf(loads: seq<real>, ghost order: seq<Id>, ghost m: map<Id, real>) returns (variance: real)
    requires Lists(loads, order, m) && loads != []
    ensures variance == Variance(m)
  {
    hide RealSum, Listed, Mean, Elements, SquaredDeviations;
    var mean := MeanOf(loads, order, m);
    ghost var squares := SquaredDeviations(m, mean);
    SquaresAre(m, mean);
    ListedEnds(squares, order);
    var squaredDifference := 0.0;
    for i := 0 to |loads|
      invariant squaredDifference == RealSum(Listed(squares, order[..i]))
    {
      OneMoreListed(squares, order, i);
      var difference := loads[i] - mean;
      squaredDifference := squaredDifference + difference * difference;
    }
    SizeOfListing(order);
    variance := squaredDifference / |loads| as real;
    assert order[0] in m;
  }

  lemma NoElements<T>()
    ensures Elements<T>([]) == {}
  {
  }

  lemma ElementsAppend<T>(q: seq<T>, x: T)
    ensures Elements(q + [x]) == Elements(q) + {x}
    ensures forall i | 0 <= i < |q| :: q[i] in Elements(q)
  {
  }

  /** The loads of all nodes, appended in the order the table is ranged over. */
  method CollectLoads(nodes: map<Id, Node>) returns (loads: seq<real>, ghost order: seq<Id>)
    ensures Lists(loads, order, Loads(nodes))
  {
    hide LoadScore, Elements;
    loads, order := [], [];
    var todo := nodes.Keys;
    NoElements<Id>();
    while todo != {}
      invariant todo == nodes.Keys - Elements(order) && |loads| == |order| && Elements(order) <= nodes.Keys
      invariant forall i, j | 0 <= i < j < |order| :: order[i] != order[j]
      invariant forall i | 0 <= i < |loads| :: order[i] in nodes && loads[i] == LoadScore(nodes[order[i]].Snapshot())
      decreases |todo|
    {
      var id :| id in todo;
      ElementsAppend(order, id);
      loads := loads + [LoadScore(nodes[id].Snapshot())];
      order := order + [id];
      todo := todo - {id};
    }
    assert Elements(order) == nodes.Keys;
  }

  /** `sampleUtilizationLocked`: what is added to the statistics. */
  method Sample(s: State) returns (stats: Statistics)
    ensures stats == SampleUtilization(s).stats
  {
    hide Utilization, Variance, Lists, Loads;
    var cpu, memory := CurrentUtilization(s.nodes);
    var loads, order := CollectLoads(s.nodes);
    var variances := [];
    LoadsOfSome(s.nodes, loads, order);
    if |loads| > 0 {
      var variance := VarianceOf(loads, order, Loads(s.nodes));
      variances := [variance];
    }
    stats := s.stats.(cpuUtilizationSum := s.stats.cpuUtilizationSum + cpu,
                      memoryUtilizationSum := s.stats.memoryUtilizationSum + memory,
                      loadVariances := s.stats.loadVariances + variances,
                      utilizationSamples := s.stats.utilizationSamples + 1);
  }

  lemma LoadsOfSome(nodes: map<Id, Node>, loads: seq<real>, order: seq<Id>)
    requires Lists(loads, order, Loads(nodes))
    ensures loads == [] <==> nodes == map[]
  {
    if loads == [] {
      assert Elements(order) == {} && Loads(nodes).Keys == nodes.Keys;
    } else {
      assert order[0] in nodes;
    }
  }
}
