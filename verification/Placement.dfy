/** Where processes are: node lists, node counters and `nodeId` agree. */
module Placement {
  import opened Domain
  import opened Cluster

  /** A node's lists and counters are right. `orphans` are RUNNING processes that no node lists:
      there are none between commands, only in the middle of a failure or a release. */
  ghost predicate NodeOk(n: Node, id: Id, processes: map<Id, Process>, orphans: set<Id>) {
    && n.id == id && n.Validate() && NoDuplicates(n.running)
    && (forall p | p in n.running ::
         p in processes && processes[p].state == Running && processes[p].nodeId == id && p !in orphans)
    && n.cpuAllocated == RequestSum(n.running, processes, CPU)
    && n.memoryAllocated == RequestSum(n.running, processes, Memory)
    && (!n.status.MayHost() ==> n.running == [])
  }

  ghost predicate Hosted(p: Process, nodes: map<Id, Node>) {
    p.nodeId in nodes && p.id in nodes[p.nodeId].running
  }

  ghost predicate Stranded(p: Process, nodes: map<Id, Node>) {
    p.nodeId == NO_ID || (p.nodeId in nodes && nodes[p.nodeId].status == NodeFailed)
  }

  ghost predicate PlacedOk(p: Process, id: Id, nodes: map<Id, Node>, orphans: set<Id>) {
    && p.id == id && id != NO_ID && 0 < p.cpuRequest && 0 < p.memoryRequest
    && if p.state == Running then (if id in orphans then Stranded(p, nodes) else Hosted(p, nodes))
       else p.nodeId == NO_ID && id !in orphans
  }

  ghost predicate Placed(nodes: map<Id, Node>, processes: map<Id, Process>, orphans: set<Id>) {
    && (forall n | n in nodes :: NodeOk(nodes[n], n, processes, orphans))
    && (forall p | p in processes :: PlacedOk(processes[p], p, nodes, orphans))
    && orphans <= processes.Keys
  }

  // ---------------------------------------------------------------- sums of requests

  /** Requests of listed processes are all that matters. */
  ghost predicate SameRequests(a: map<Id, Process>, b: map<Id, Process>) {
    forall p | p in a :: p in b && a[p].cpuRequest == b[p].cpuRequest && a[p].memoryRequest == b[p].memoryRequest
  }

  lemma {:induction false} RequestSumFrame(q: seq<Id>, a: map<Id, Process>, b: map<Id, Process>, r: Resource)
    requires SameRequests(a, b) && forall p | p in q :: p in a
    ensures RequestSum(q, a, r) == RequestSum(q, b, r)
  {
    if q != [] {
      assert q[0] in q;
      RequestSumFrame(q[1..], a, b, r);
    }
  }

  lemma {:induction false} RequestSumAppend(q: seq<Id>, p: Id, processes: map<Id, Process>, r: Resource)
    requires p in processes
    ensures RequestSum(q + [p], processes, r) == RequestSum(q, processes, r) + processes[p].Request(r)
  {
    if q == [] {
      assert q + [p] == [p];
      assert [p][1..] == [];
    } else {
      assert (q + [p])[1..] == q[1..] + [p];
      RequestSumAppend(q[1..], p, processes, r);
    }
  }

  lemma {:induction false} RequestSumWithout(q: seq<Id>, p: Id, processes: map<Id, Process>, r: Resource)
    requires p in q && p in processes
    ensures RequestSum(Without(q, p), processes, r) == RequestSum(q, processes, r) - processes[p].Request(r)
  {
    if q[0] != p {
      assert p in q[1..];
      RequestSumWithout(q[1..], p, processes, r);
      assert ([q[0]] + Without(q[1..], p))[1..] == Without(q[1..], p);
    }
  }

  lemma {:induction false} RequestSumAtLeast(q: seq<Id>, p: Id, processes: map<Id, Process>, r: Resource)
    requires p in q && forall x | x in q :: x in processes && 0 < processes[x].Request(r)
    ensures RequestSum(q, processes, r) >= processes[p].Request(r)
  {
    RequestSumNonNegative(q[1..], processes, r);
    if q[0] != p {
      assert p in q[1..];
      assert q[0] in q;
      RequestSumAtLeast(q[1..], p, processes, r);
    }
  }

  lemma {:induction false} RequestSumNonNegative(q: seq<Id>, processes: map<Id, Process>, r: Resource)
    requires forall x | x in q :: x in processes && 0 < processes[x].Request(r)
    ensures RequestSum(q, processes, r) >= 0
    ensures RequestSum(q, processes, r) == 0 ==> q == []
  {
    if q != [] {
      assert q[0] in q;
      RequestSumNonNegative(q[1..], processes, r);
    }
  }

  lemma {:induction false} WithoutElements(q: seq<Id>, p: Id)
    requires NoDuplicates(q)
    ensures NoDuplicates(Without(q, p))
    ensures forall x :: x in Without(q, p) <==> x in q && x != p
  {
    if q != [] {
      assert forall x :: x in q <==> x == q[0] || x in q[1..];
      assert q[0] !in q[1..];
      WithoutElements(q[1..], p);
      if q[0] != p {
        var w := Without(q[1..], p);
        assert Without(q, p) == [q[0]] + w;
        assert q[0] !in w;
        assert forall i | 0 <= i < |w| :: w[i] in w;
        assert forall x :: x in [q[0]] + w <==> x == q[0] || x in w;
      }
    }
  }

  // ---------------------------------------------------------------- one node

  lemma {:induction false} WithoutFirst(q: seq<Id>, x: Id, i: nat)
    requires i < |q| && q[i] == x && x !in q[..i]
    ensures Without(q, x) == q[..i] + q[i + 1..]
  {
    if i > 0 {
      assert q[0] in q[..i];
      assert q[1..][..i - 1] == q[..i][1..];
      WithoutFirst(q[1..], x, i - 1);
      assert q[..i] == [q[0]] + q[1..][..i - 1] && q[1..][i..] == q[i + 1..];
    }
  }

  /** A node that lists a process, and has at least its request given away, gets it back and drops the first
      mention of it; else it stays as it is. */
  lemma ReleaseResult(n: Node, p: Process, i: nat)
    requires p.id in n.running ==> i < |n.running| && n.running[i] == p.id && p.id !in n.running[..i]
    ensures var (m, error) := n.Release(p);
      && error == (if p.id !in n.running || n.cpuAllocated < p.cpuRequest || n.memoryAllocated < p.memoryRequest
                   then InvalidInput else Nil)
      && m == (if error != Nil then n
               else n.(cpuAllocated := n.cpuAllocated - p.cpuRequest,
                       memoryAllocated := n.memoryAllocated - p.memoryRequest,
                       running := n.running[..i] + n.running[i + 1..]))
  {
    hide Without;
    if p.id in n.running {
      WithoutFirst(n.running, p.id, i);
    }
  }

  /** An ONLINE node with room takes a process it does not list yet, and else stays as it is; a release undoes
      what an allocation did. */
  lemma AllocateThenRelease(n: Node, p: Process)
    ensures var (m, error) := n.Allocate(p);
      && error == (if n.status != Online || n.cpuCapacity - n.cpuAllocated < p.cpuRequest
                      || n.memoryCapacity - n.memoryAllocated < p.memoryRequest then InsufficientResources
                   else if p.id in n.running then InvalidInput else Nil)
      && (error != Nil ==> m == n)
      && (error == Nil ==>
            && m == n.(cpuAllocated := n.cpuAllocated + p.cpuRequest,
                       memoryAllocated := n.memoryAllocated + p.memoryRequest, running := n.running + [p.id])
            && (0 <= n.cpuAllocated && 0 <= n.memoryAllocated ==> m.Release(p) == (n, Nil)))
  {
    hide Without;
    var (m, error) := n.Allocate(p);
    if error == Nil {
      WithoutFirst(m.running, p.id, |n.running|);
      assert m.running[..|n.running|] + m.running[|n.running| + 1..] == n.running;
    }
  }

  // ---------------------------------------------------------------- moves that keep placement

  /** A node whose listed processes are untouched stays right. */
  lemma NodeFrame(n: Node, id: Id, a: map<Id, Process>, b: map<Id, Process>, o1: set<Id>, o2: set<Id>)
    requires NodeOk(n, id, a, o1) && SameRequests(a, b)
    requires forall p | p in n.running :: b[p].state == Running && b[p].nodeId == id && p !in o2
    ensures NodeOk(n, id, b, o2)
  {
    RequestSumFrame(n.running, a, b, CPU);
    RequestSumFrame(n.running, a, b, Memory);
  }

  /** A process that no node lists may leave RUNNING, or move between other states. */
  lemma PlacedUpdate(nodes: map<Id, Node>, processes: map<Id, Process>, orphans: set<Id>, p: Process)
    requires Placed(nodes, processes, orphans) && p.id in processes
    requires processes[p.id].state == Running ==> p.id in orphans
    requires p.state != Running && p.nodeId == NO_ID
    requires p.cpuRequest == processes[p.id].cpuRequest && p.memoryRequest == processes[p.id].memoryRequest
    ensures Placed(nodes, processes[p.id := p], orphans - {p.id})
  {
    var after := processes[p.id := p];
    forall n | n in nodes ensures NodeOk(nodes[n], n, after, orphans - {p.id}) {
      NodeFrame(nodes[n], n, processes, after, orphans, orphans - {p.id});
    }
  }

  /** Record fields other than state, place and requests are free. */
  lemma PlacedTouch(nodes: map<Id, Node>, processes: map<Id, Process>, orphans: set<Id>, p: Process)
    requires Placed(nodes, processes, orphans) && p.id in processes
    requires p.state == processes[p.id].state && p.nodeId == processes[p.id].nodeId
    requires p.cpuRequest == processes[p.id].cpuRequest && p.memoryRequest == processes[p.id].memoryRequest
    ensures Placed(nodes, processes[p.id := p], orphans)
  {
    var after := processes[p.id := p];
    forall n | n in nodes ensures NodeOk(nodes[n], n, after, orphans) {
      NodeFrame(nodes[n], n, processes, after, orphans, orphans);
    }
  }

  /** An orphan's stale node reference may be cleared. */
  lemma PlacedClear(nodes: map<Id, Node>, processes: map<Id, Process>, orphans: set<Id>, id: Id)
    requires Placed(nodes, processes, orphans) && id in orphans
    ensures Placed(nodes, processes[id := processes[id].(nodeId := NO_ID)], orphans)
  {
    var after := processes[id := processes[id].(nodeId := NO_ID)];
    forall n | n in nodes ensures NodeOk(nodes[n], n, after, orphans) {
      NodeFrame(nodes[n], n, processes, after, orphans, orphans);
    }
  }

  lemma PlacedSubmit(nodes: map<Id, Node>, processes: map<Id, Process>, orphans: set<Id>, p: Process)
    requires Placed(nodes, processes, orphans) && p.id !in processes
    requires p.id != NO_ID && 0 < p.cpuRequest && 0 < p.memoryRequest
    requires p.state != Running && p.nodeId == NO_ID
    ensures Placed(nodes, processes[p.id := p], orphans)
  {
    var after := processes[p.id := p];
    forall n | n in nodes ensures NodeOk(nodes[n], n, after, orphans) {
      NodeFrame(nodes[n], n, processes, after, orphans, orphans);
    }
  }

  /** A node that lists a process can release it, and is right without it. */
  lemma ReleasedNodeOk(n: Node, nodeId: Id, processes: map<Id, Process>, orphans: set<Id>, id: Id)
    requires NodeOk(n, nodeId, processes, orphans) && id in n.running && processes[id].id == id
    requires forall x | x in n.running :: 0 < processes[x].cpuRequest && 0 < processes[x].memoryRequest
    ensures n.Release(processes[id]).1 == Nil
    ensures NodeOk(n.Release(processes[id]).0, nodeId, processes, orphans)
    ensures forall x :: x in n.Release(processes[id]).0.running <==> x in n.running && x != id
  {
    RequestSumAtLeast(n.running, id, processes, CPU);
    RequestSumAtLeast(n.running, id, processes, Memory);
    WithoutElements(n.running, id);
    RequestSumWithout(n.running, id, processes, CPU);
    RequestSumWithout(n.running, id, processes, Memory);
    RequestSumNonNegative(Without(n.running, id), processes, CPU);
    RequestSumNonNegative(Without(n.running, id), processes, Memory);
  }

  /** A hosted process can always be released, and becomes an orphan. */
  lemma PlacedRelease(nodes: map<Id, Node>, processes: map<Id, Process>, orphans: set<Id>, id: Id)
    requires Placed(nodes, processes, orphans) && id in processes
    requires processes[id].state == Running && id !in orphans
    ensures var p := processes[id];
      && p.nodeId in nodes && nodes[p.nodeId].Release(p).1 == Nil
      && Placed(nodes[p.nodeId := nodes[p.nodeId].Release(p).0],
                processes[id := p.(nodeId := NO_ID)], orphans + {id})
  {
    hide RequestSum, Without, Node.Release;
    var p := processes[id];
    assert PlacedOk(p, id, nodes, orphans);
    var n := nodes[p.nodeId];
    assert NodeOk(n, p.nodeId, processes, orphans);
    assert forall x | x in n.running :: PlacedOk(processes[x], x, nodes, orphans);
    ReleasedNodeOk(n, p.nodeId, processes, orphans, id);
    var n' := n.Release(p).0;
    ReleaseKeepsStatus(n, p);
    var after := processes[id := p.(nodeId := NO_ID)];
    var nodes' := nodes[p.nodeId := n'];
    forall m | m in nodes' ensures NodeOk(nodes'[m], m, after, orphans + {id}) {
      NodeFrame(nodes'[m], m, processes, after, orphans, orphans + {id});
    }
    forall q | q in after ensures PlacedOk(after[q], q, nodes', orphans + {id}) {
      assert PlacedOk(processes[q], q, nodes, orphans);
    }
  }

  lemma ReleaseKeepsStatus(n: Node, p: Process)
    ensures n.Release(p).0.status == n.status
  {
  }

  /** A node with room for a process can take it, and is right with it. */
  lemma AllocatedNodeOk(n: Node, nodeId: Id, processes: map<Id, Process>, id: Id, p: Process)
    requires NodeOk(n, nodeId, processes, {}) && id in processes && processes[id].state != Running
        && processes[id].id == id
    requires n.CanFit(processes[id]) && 0 < processes[id].cpuRequest && 0 < processes[id].memoryRequest
    requires p.id == id && p.state == Running && p.nodeId == nodeId
    requires p.cpuRequest == processes[id].cpuRequest && p.memoryRequest == processes[id].memoryRequest
    ensures var n' := n.Allocate(processes[id]).0;
      && n.Allocate(processes[id]).1 == Nil && NodeOk(n', nodeId, processes[id := p], {})
      && n'.running == n.running + [id]
  {
    var n', after := n.Allocate(processes[id]).0, processes[id := p];
    RequestSumAppend(n.running, id, processes, CPU);
    RequestSumAppend(n.running, id, processes, Memory);
    RequestSumFrame(n'.running, processes, after, CPU);
    RequestSumFrame(n'.running, processes, after, Memory);
  }

  /** A READY process that fits a node can be allocated there. */
  lemma PlacedAllocate(nodes: map<Id, Node>, processes: map<Id, Process>, id: Id, nodeId: Id, p: Process)
    requires Placed(nodes, processes, {}) && id in processes && nodeId in nodes
    requires processes[id].state != Running && nodes[nodeId].CanFit(processes[id])
    requires p.id == id && p.state == Running && p.nodeId == nodeId
    requires p.cpuRequest == processes[id].cpuRequest && p.memoryRequest == processes[id].memoryRequest
    ensures nodes[nodeId].Allocate(processes[id]).1 == Nil
    ensures Placed(nodes[nodeId := nodes[nodeId].Allocate(processes[id]).0], processes[id := p], {})
  {
    hide RequestSum, Node.Allocate, Node.CanFit;
    var n := nodes[nodeId];
    assert NodeOk(n, nodeId, processes, {}) && PlacedOk(processes[id], id, nodes, {});
    var n' := n.Allocate(processes[id]).0;
    var after := processes[id := p];
    AllocatedNodeOk(n, nodeId, processes, id, p);
    var nodes' := nodes[nodeId := n'];
    forall m | m in nodes' ensures NodeOk(nodes'[m], m, after, {}) {
      if m != nodeId {
        assert NodeOk(nodes[m], m, processes, {});
        NodeFrame(nodes[m], m, processes, after, {}, {});
      }
    }
    forall q | q in after ensures PlacedOk(after[q], q, nodes', {}) {
      assert PlacedOk(processes[q], q, nodes, {});
    }
  }

  /** A node that goes down strands exactly the processes it listed. */
  lemma PlacedNodeDown(nodes: map<Id, Node>, processes: map<Id, Process>, id: Id, n: Node)
    requires Placed(nodes, processes, {}) && id in nodes
    requires n == nodes[id].(status := NodeFailed, cpuAllocated := 0, memoryAllocated := 0, running := [])
    ensures Placed(nodes[id := n], processes, set p | p in nodes[id].running)
  {
    var lost := set p | p in nodes[id].running;
    assert NodeOk(nodes[id], id, processes, {});
    var nodes' := nodes[id := n];
    forall m | m in nodes' ensures NodeOk(nodes'[m], m, processes, lost) {
      if m != id {
        assert NodeOk(nodes[m], m, processes, {});
        NodeFrame(nodes[m], m, processes, processes, {}, lost);
      }
    }
    forall q | q in processes ensures PlacedOk(processes[q], q, nodes', lost) {
      assert PlacedOk(processes[q], q, nodes, {});
    }
  }

  /** Status and heartbeat changes that leave non-hosting nodes empty. */
  lemma PlacedNodeChange(nodes: map<Id, Node>, processes: map<Id, Process>, id: Id, n: Node)
    requires Placed(nodes, processes, {}) && id in nodes
    requires n == nodes[id].(status := n.status, lastHeartbeat := n.lastHeartbeat)
    requires !n.status.MayHost() ==> n.running == []
    ensures Placed(nodes[id := n], processes, {})
  {
    assert NodeOk(nodes[id], id, processes, {});
    assert forall q | q in processes :: PlacedOk(processes[q], q, nodes, {});
  }

  lemma PlacedNodeAdd(nodes: map<Id, Node>, processes: map<Id, Process>, n: Node)
    requires Placed(nodes, processes, {}) && n.id !in nodes && n.Validate()
    requires n.running == [] && n.cpuAllocated == 0 && n.memoryAllocated == 0
    ensures Placed(nodes[n.id := n], processes, {})
  {
    assert forall q | q in processes :: PlacedOk(processes[q], q, nodes, {});
  }

  lemma PlacedNodeRemove(nodes: map<Id, Node>, processes: map<Id, Process>, id: Id)
    requires Placed(nodes, processes, {}) && id in nodes && nodes[id].running == []
    ensures Placed(nodes - {id}, processes, {})
  {
    assert forall q | q in processes :: PlacedOk(processes[q], q, nodes, {});
  }

  // ---------------------------------------------------------------- the runtime check accepts

  /** The strengthened invariant implies everything `validateInvariantsLocked` looks at. */
  lemma PlacedPassesCheck(nodes: map<Id, Node>, processes: map<Id, Process>)
    requires Placed(nodes, processes, {})
    ensures InvariantsHold(nodes, processes)
  {
    forall n | n in nodes ensures NodeConsistent(nodes, processes, n) {
      assert NodeOk(nodes[n], n, processes, {});
    }
    forall p | p in processes
      ensures if processes[p].state == Running then processes[p].nodeId != NO_ID && |HostsOf(nodes, p)| == 1
              else processes[p].nodeId == NO_ID
    {
      assert PlacedOk(processes[p], p, nodes, {});
      if processes[p].state == Running {
        var home := processes[p].nodeId;
        assert NodeOk(nodes[home], home, processes, {});
        forall n | n in HostsOf(nodes, p) ensures n == home {
          assert NodeOk(nodes[n], n, processes, {});
        }
        assert HostsOf(nodes, p) == {home};
      }
    }
  }
}
