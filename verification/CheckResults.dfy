/** What the runtime check accepts, without its loops: where the table of nodes and the table of processes agree. */
module CheckResults {
  import opened Domain
  import opened Ordering
  import opened Sums
  import opened Cluster
  import opened Conservation

  /** The processes that, by their own records, run on this node. */
  ghost function Residents(processes: map<Id, Process>, n: Id): set<Id> {
    set p | p in processes && processes[p].state == Running && processes[p].nodeId == n
  }

  ghost function TotalRequest(processes: map<Id, Process>, ids: set<Id>, r: Resource): int {
    MapSum(map p | p in ids && p in processes ::
      match r case CPU => processes[p].cpuRequest case Memory => processes[p].memoryRequest)
  }

  /** A node is named, lists its residents, each once, and has given away what they ask for, within its capacity. */
  ghost predicate NodeAgrees(node: Node, n: Id, processes: map<Id, Process>) {
    && node.id != NO_ID && node.name != ""
    && NoDuplicates(node.running) && Elements(node.running) == Residents(processes, n)
    && node.cpuAllocated == TotalRequest(processes, Residents(processes, n), CPU)
    && node.memoryAllocated == TotalRequest(processes, Residents(processes, n), Memory)
    && 0 <= node.cpuAllocated <= node.cpuCapacity && 0 <= node.memoryAllocated <= node.memoryCapacity
  }

  /** A process has a place exactly if it runs, and then the place is a node there is. */
  ghost predicate TablesAgree(nodes: map<Id, Node>, processes: map<Id, Process>) {
    && (forall n | n in nodes :: NodeAgrees(nodes[n], n, processes))
    && (forall p | p in processes ::
          if processes[p].state == Running then processes[p].nodeId != NO_ID && processes[p].nodeId in nodes
          else processes[p].nodeId == NO_ID)
  }

  lemma TotalIsDemand(processes: map<Id, Process>, ids: set<Id>, r: Resource)
    ensures TotalRequest(processes, ids, r) == Demand(processes, ids, r)
  {
    assert (map p | p in ids && p in processes ::
      match r case CPU => processes[p].cpuRequest case Memory => processes[p].memoryRequest)
      == Requests(processes, ids, r);
  }

  lemma Counters(q: seq<Id>, processes: map<Id, Process>, r: Resource)
    requires NoDuplicates(q) && forall p | p in q :: p in processes
    ensures RequestSum(q, processes, r) == TotalRequest(processes, Elements(q), r)
  {
    ListDemand(q, processes, r);
    TotalIsDemand(processes, Elements(q), r);
  }

  lemma HostIsThere(nodes: map<Id, Node>, processes: map<Id, Process>, p: Id)
    requires InvariantsHold(nodes, processes) && p in processes && processes[p].state == Running
    ensures processes[p].nodeId in nodes && p in nodes[processes[p].nodeId].running
  {
    var hosts := HostsOf(nodes, p);
    assert hosts != {};
    var n :| n in hosts;
    assert NodeConsistent(nodes, processes, n);
  }

  lemma AcceptedAgrees(nodes: map<Id, Node>, processes: map<Id, Process>)
    requires InvariantsHold(nodes, processes)
    ensures TablesAgree(nodes, processes)
  {
    hide TotalRequest, RequestSum;
    forall n | n in nodes ensures NodeAgrees(nodes[n], n, processes) {
      var q := nodes[n].running;
      assert NodeConsistent(nodes, processes, n);
      forall p ensures p in q <==> p in Residents(processes, n) {
        if p in Residents(processes, n) {
          HostIsThere(nodes, processes, p);
        }
      }
      assert Elements(q) == Residents(processes, n);
      Counters(q, processes, CPU);
      Counters(q, processes, Memory);
    }
    forall p | p in processes && processes[p].state == Running
      ensures processes[p].nodeId != NO_ID && processes[p].nodeId in nodes
    {
      HostIsThere(nodes, processes, p);
    }
  }

  lemma AgreeingIsAccepted(nodes: map<Id, Node>, processes: map<Id, Process>)
    requires TablesAgree(nodes, processes)
    ensures InvariantsHold(nodes, processes)
  {
    hide TotalRequest, RequestSum;
    forall n | n in nodes ensures NodeConsistent(nodes, processes, n) {
      var q := nodes[n].running;
      assert NodeAgrees(nodes[n], n, processes);
      assert forall p :: p in q <==> p in Elements(q);
      Counters(q, processes, CPU);
      Counters(q, processes, Memory);
    }
    forall p | p in processes && processes[p].state == Running ensures |HostsOf(nodes, p)| == 1 {
      var host := processes[p].nodeId;
      forall n | n in nodes ensures p in nodes[n].running <==> n == host {
        assert NodeAgrees(nodes[n], n, processes);
        assert p in nodes[n].running <==> p in Elements(nodes[n].running);
      }
      assert HostsOf(nodes, p) == {host};
    }
  }

  /** The runtime check accepts exactly the tables that agree. */
  lemma CheckIsExact(nodes: map<Id, Node>, processes: map<Id, Process>)
    ensures InvariantsHold(nodes, processes) <==> TablesAgree(nodes, processes)
  {
    hide InvariantsHold, TablesAgree;
    if InvariantsHold(nodes, processes) {
      AcceptedAgrees(nodes, processes);
    }
    if TablesAgree(nodes, processes) {
      AgreeingIsAccepted(nodes, processes);
    }
  }
}
