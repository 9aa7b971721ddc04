/** Slices collected from the tables of the cluster, in whatever order a table is ranged over, and sorted. */
module Collecting {
  import opened Domain
  import opened Ordering
  import opened Schedulers
  import opened LiveSchedulers
  import opened Cluster
  import opened StableSorting

  lemma Appended<T>(q: seq<T>, x: T)
    ensures Elements(q + [x]) == Elements(q) + {x}
    ensures x !in q && (forall i, j | 0 <= i < j < |q| :: q[i] != q[j]) ==> NoDuplicates(q + [x])
  {
  }

  /** The keys of a table, sorted. */
  method SortedNames(keys: set<Id>) returns (ids: seq<Id>)
    ensures ids == SortedIds(keys)
  {
    ids := [];
    var todo := keys;
    while todo != {}
      invariant todo <= keys && NoDuplicates(ids)
      invariant forall id :: id in ids <==> id in keys && id !in todo
      decreases |todo|
    {
      var id :| id in todo;
      Appended(ids, id);
      ids := ids + [id];
      todo := todo - {id};
    }
    assert Elements(ids) == keys;
    ids := SortIds(ids);
  }

  method TableNames(nodes: set<Id>, processes: set<Id>) returns (nodeIds: seq<Id>, processIds: seq<Id>)
    ensures nodeIds == SortedIds(nodes) && processIds == SortedIds(processes)
  {
    nodeIds := SortedNames(nodes);
    processIds := SortedNames(processes);
  }

  /** The processes to execute. */
  method RunningIds(s: State) returns (ids: seq<Id>)
    ensures ids == SortedIds(RunningSet(s))
  {
    ids := [];
    var todo := s.processes.Keys;
    while todo != {}
      invariant todo <= s.processes.Keys && NoDuplicates(ids)
      invariant forall id :: id in ids <==> id in s.processes && id !in todo && s.processes[id].state == Running
      decreases |todo|
    {
      var id :| id in todo;
      if s.processes[id].state == Running {
        Appended(ids, id);
        ids := ids + [id];
      }
      todo := todo - {id};
    }
    assert Elements(ids) == RunningSet(s);
    ids := SortIds(ids);
  }

  /** The ONLINE nodes whose last heartbeat is too old. */
  method StaleIds(s: State) returns (ids: seq<Id>)
    ensures ids == SortedIds(StaleNodes(s))
  {
    ids := [];
    var todo := s.nodes.Keys;
    while todo != {}
      invariant todo <= s.nodes.Keys && NoDuplicates(ids)
      invariant forall id :: id in ids <==> id !in todo && id in StaleNodes(s)
      decreases |todo|
    {
      var id :| id in todo;
      var node := s.nodes[id];
      if node.status == Online && s.tick - node.lastHeartbeat > s.heartbeatTimeout {
        Appended(ids, id);
        ids := ids + [id];
      }
      todo := todo - {id};
    }
    assert Elements(ids) == StaleNodes(s);
    ids := SortIds(ids);
  }

  ghost predicate OwnNames(processes: map<Id, Process>) {
    forall id | id in processes :: processes[id].id == id
  }

  ghost predicate OwnNodeNames(nodes: map<Id, Node>) {
    forall id | id in nodes :: nodes[id].id == id
  }

  /** The READY processes, unsorted. */
  method ReadyProcesses(s: State) returns (ready: seq<Process>)
    requires OwnNames(s.processes)
    ensures Elements(ready) == ReadySet(s) && NoDuplicates(ready) && DistinctProcesses(Elements(ready))
  {
    ready := [];
    var todo := s.processes.Keys;
    while todo != {}
      invariant todo <= s.processes.Keys && NoDuplicates(ready)
      invariant forall p ::
        p in ready <==> p.id in s.processes && p.id !in todo && p == s.processes[p.id] && p.state == Ready
      decreases |todo|
    {
      var id :| id in todo;
      if s.processes[id].state == Ready {
        Appended(ready, s.processes[id]);
        ready := ready + [s.processes[id]];
      }
      todo := todo - {id};
    }
    assert Elements(ready) == ReadySet(s);
  }

  /** `nodeSnapshotsLocked`. */
  method NodeSnapshots(nodes: map<Id, Node>) returns (snapshots: seq<NodeSnapshot>)
    requires OwnNodeNames(nodes)
    ensures Candidates(snapshots) && Elements(snapshots) == Snapshots(nodes)
  {
    hide Arrange;
    snapshots := [];
    var todo := nodes.Keys;
    while todo != {}
      invariant todo <= nodes.Keys && NoDuplicates(snapshots)
      invariant forall n :: n in snapshots <==> n.id in nodes && n.id !in todo && n == nodes[n.id].Snapshot()
      decreases |todo|
    {
      var id :| id in todo;
      Appended(snapshots, nodes[id].Snapshot());
      snapshots := snapshots + [nodes[id].Snapshot()];
      todo := todo - {id};
    }
    assert Elements(snapshots) == Snapshots(nodes);
    ByNodeIdIsTotal(Elements(snapshots));
    ArrangeSorts(Elements(snapshots), ByNodeId());
    snapshots := Sort(snapshots, ByNodeId());
    SortedAreDistinct(snapshots);
  }

  lemma SortedAreDistinct(q: seq<NodeSnapshot>)
    requires Ascending(ByNodeId(), q)
    ensures NoDuplicates(q)
  {
    assert forall i, j | 0 <= i < j < |q| :: ByNodeId()(q[i], q[j]);
  }

  /** After a placement, the cached snapshot of the node is replaced by a new one. */
  method Refresh(nodes: seq<NodeSnapshot>, snapshot: NodeSnapshot) returns (after: seq<NodeSnapshot>)
    requires Candidates(nodes)
    ensures Refreshed(nodes, after, snapshot)
  {
    assert forall i | 0 <= i < |nodes| :: nodes[i] in Elements(nodes);
    for index := 0 to |nodes|
      invariant forall i | 0 <= i < index :: nodes[i].id != snapshot.id
    {
      if nodes[index].id == snapshot.id {
        return nodes[index := snapshot];
      }
    }
    after := nodes;
  }

  ghost predicate Refreshed(cached: seq<NodeSnapshot>, after: seq<NodeSnapshot>, snapshot: NodeSnapshot) {
    |after| == |cached|
    && forall i | 0 <= i < |cached| :: after[i] == if cached[i].id == snapshot.id then snapshot else cached[i]
  }

  lemma RefreshedAreCandidates(cached: seq<NodeSnapshot>, after: seq<NodeSnapshot>, snapshot: NodeSnapshot)
    requires Candidates(cached) && Refreshed(cached, after, snapshot)
    ensures Candidates(after)
  {
    forall i, j | 0 <= i < j < |after| ensures after[i].id != after[j].id {
      assert cached[i] in Elements(cached) && cached[j] in Elements(cached) && cached[i] != cached[j];
    }
    forall a, b | a in Elements(after) && b in Elements(after) && a != b ensures a.id != b.id {
      var i :| 0 <= i < |after| && after[i] == a;
      var j :| 0 <= j < |after| && after[j] == b;
    }
  }

  /** The cache stays what a fresh look at the nodes would give. */
  lemma RefreshTracks(nodes: map<Id, Node>, cached: seq<NodeSnapshot>, id: Id, n: Node, after: seq<NodeSnapshot>)
    requires OwnNodeNames(nodes) && id in nodes && n.id == id
    requires Candidates(cached) && Elements(cached) == Snapshots(nodes) && Refreshed(cached, after, n.Snapshot())
    ensures Candidates(after) && Elements(after) == Snapshots(nodes[id := n])
  {
    hide Candidates;
    RefreshedAreCandidates(cached, after, n.Snapshot());
    forall x | x in after ensures x in Snapshots(nodes[id := n]) {
      var i :| 0 <= i < |after| && after[i] == x;
      assert cached[i] in Elements(cached);
      var m :| m in nodes && cached[i] == nodes[m].Snapshot();
      assert x == nodes[id := n][m].Snapshot();
    }
    forall x | x in Snapshots(nodes[id := n]) ensures x in after {
      var m :| m in nodes[id := n] && x == nodes[id := n][m].Snapshot();
      assert nodes[m].Snapshot() in Elements(cached);
      var i :| 0 <= i < |cached| && cached[i] == nodes[m].Snapshot();
      assert after[i] == x;
    }
  }

  // ---------------------------------------------------------------- due submissions

  method InsertStably(d: ProcessDefinition, q: seq<ProcessDefinition>) returns (r: seq<ProcessDefinition>)
    ensures r == InsertDefinition(d, q)
  {
    var k := |q|;
    assert q[..k] == q && q[k..] == [];
    while k > 0 && d.id < q[k - 1].id
      invariant 0 <= k <= |q|
      invariant InsertDefinition(d, q) == InsertDefinition(d, q[..k]) + q[k..]
    {
      assert q[..k][..k - 1] == q[..k - 1];
      assert q[k - 1..] == [q[k - 1]] + q[k..];
      k := k - 1;
    }
    r := q[..k] + [d] + q[k..];
  }

  /** `sort.SliceStable` by name, by insertion. */
  method StableSort(q: seq<ProcessDefinition>) returns (r: seq<ProcessDefinition>)
    ensures StablySorted(q, r) && r == SortDefinitions(q)
  {
    SortIsStable(q);
    r := [];
    for i := 0 to |q|
      invariant r == SortDefinitions(q[..i])
    {
      assert q[..i + 1][..i] == q[..i];
      r := InsertStably(q[i], r);
    }
    assert q[..|q|] == q;
  }
}
