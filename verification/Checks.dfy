/** The read-only loops of internal/cluster: the runtime check, and the two stopping conditions.
    A table is ranged over in any order. */
module Checks {
  import opened Domain
  import opened Ordering
  import opened Cluster
  import opened Placement

  // ---------------------------------------------------------------- validateInvariantsLocked

  function Tally(placements: map<Id, nat>, p: Id): nat {
    if p in placements then placements[p] else 0
  }

  lemma NoRequests(processes: map<Id, Process>)
    ensures forall r :: RequestSum([], processes, r) == 0
  {
  }

  /** One node: its counters, and its list without repetitions. */
  method CheckNode(nodes: map<Id, Node>, processes: map<Id, Process>, id: Id, placements: map<Id, nat>)
    returns (error: Error, after: map<Id, nat>)
    requires id in nodes
    ensures error == Nil || error == InvalidInput
    ensures error == Nil <==> NodeConsistent(nodes, processes, id)
    ensures error == Nil ==>
      forall p :: Tally(after, p) == Tally(placements, p) + if p in nodes[id].running then 1 else 0
  {
    hide RequestSum;
    NoRequests(processes);
    var n := nodes[id];
    after := placements;
    if !n.Validate() {
      return InvalidInput, after;
    }
    var expectedCpu, expectedMemory := 0, 0;
    var seen: set<Id> := {};
    for i := 0 to |n.running|
      invariant seen == Elements(n.running[..i])
      invariant forall j, k | 0 <= j < k < i :: n.running[j] != n.running[k]
      invariant forall j | 0 <= j < i ::
        n.running[j] in processes && processes[n.running[j]].state == Running && processes[n.running[j]].nodeId == id
      invariant expectedCpu == RequestSum(n.running[..i], processes, CPU)
      invariant expectedMemory == RequestSum(n.running[..i], processes, Memory)
      invariant forall p :: Tally(after, p) == Tally(placements, p) + if p in n.running[..i] then 1 else 0
    {
      var p := n.running[i];
      if p in seen {
        return InvalidInput, after;
      }
      seen := seen + {p};
      assert p in n.running;
      if p !in processes {
        return InvalidInput, after;
      }
      var process := processes[p];
      if process.state != Running || process.nodeId != id {
        return InvalidInput, after;
      }
      assert n.running[..i + 1] == n.running[..i] + [p];
      RequestSumAppend(n.running[..i], p, processes, CPU);
      RequestSumAppend(n.running[..i], p, processes, Memory);
      expectedCpu := expectedCpu + process.cpuRequest;
      expectedMemory := expectedMemory + process.memoryRequest;
      after := after[p := Tally(after, p) + 1];
    }
    assert n.running[..|n.running|] == n.running;
    if n.cpuAllocated != expectedCpu || n.memoryAllocated != expectedMemory {
      return InvalidInput, after;
    }
    error := Nil;
  }

  /** The nodes among `checked` that list p. */
  ghost function HostsAmong(nodes: map<Id, Node>, checked: set<Id>, p: Id): set<Id> {
    set n | n in checked && n in nodes && p in nodes[n].running
  }

  lemma OneMoreHost(nodes: map<Id, Node>, checked: set<Id>, id: Id, p: Id)
    requires id in nodes && id !in checked
    ensures |HostsAmong(nodes, checked + {id}, p)|
         == |HostsAmong(nodes, checked, p)| + if p in nodes[id].running then 1 else 0
  {
    if p in nodes[id].running {
      assert HostsAmong(nodes, checked + {id}, p) == HostsAmong(nodes, checked, p) + {id};
    } else {
      assert HostsAmong(nodes, checked + {id}, p) == HostsAmong(nodes, checked, p);
    }
  }

  /** What the second half of the runtime check demands of one process. */
  ghost predicate PlacementAgrees(nodes: map<Id, Node>, p: Process, id: Id) {
    if p.state == Running then p.nodeId != NO_ID && |HostsOf(nodes, id)| == 1 else p.nodeId == NO_ID
  }

  method CheckPlacements(nodes: map<Id, Node>, processes: map<Id, Process>, placements: map<Id, nat>)
      returns (error: Error)
    requires forall p :: Tally(placements, p) == |HostsOf(nodes, p)|
    ensures error == Nil || error == InvalidInput
    ensures error == Nil <==> forall p | p in processes :: PlacementAgrees(nodes, processes[p], p)
  {
    hide HostsOf;
    var left := processes.Keys;
    while left != {}
      invariant left <= processes.Keys
      invariant forall p | p in processes && p !in left :: PlacementAgrees(nodes, processes[p], p)
      decreases |left|
    {
      var id :| id in left;
      var process := processes[id];
      if process.state == Running {
        if process.nodeId == NO_ID || Tally(placements, id) != 1 {
          return InvalidInput;
        }
      } else if process.nodeId != NO_ID {
        return InvalidInput;
      }
      left := left - {id};
    }
    error := Nil;
  }

  /** The runtime check accepts exactly the states whose three records of placement agree. */
  method ValidateInvariants(nodes: map<Id, Node>, processes: map<Id, Process>) returns (error: Error)
    ensures error == Nil || error == InvalidInput
    ensures error == Nil <==> InvariantsHold(nodes, processes)
  {
    hide NodeConsistent, HostsAmong, HostsOf, Tally;
    var placements: map<Id, nat> := map[];
    var todo := nodes.Keys;
    ghost var checked: set<Id> := {};
    NoHostsYet(nodes, placements);
    while todo != {}
      invariant checked <= nodes.Keys && todo == nodes.Keys - checked
      invariant forall n | n in checked :: NodeConsistent(nodes, processes, n)
      invariant forall p :: Tally(placements, p) == |HostsAmong(nodes, checked, p)|
      decreases |todo|
    {
      var id :| id in todo;
      forall p {
        OneMoreHost(nodes, checked, id, p);
      }
      error, placements := CheckNode(nodes, processes, id, placements);
      if error != Nil {
        return;
      }
      checked := checked + {id};
      todo := todo - {id};
    }
    AllHosts(nodes, checked);
    error := CheckPlacements(nodes, processes, placements);
  }

  lemma NoHostsYet(nodes: map<Id, Node>, placements: map<Id, nat>)
    requires placements == map[]
    ensures forall p :: Tally(placements, p) == |HostsAmong(nodes, {}, p)|
  {
    assert forall p :: HostsAmong(nodes, {}, p) == {};
  }

  lemma AllHosts(nodes: map<Id, Node>, checked: set<Id>)
    requires checked == nodes.Keys
    ensures forall p :: HostsAmong(nodes, checked, p) == HostsOf(nodes, p)
  {
  }

  // ---------------------------------------------------------------- stopping

  /** `allProcessesTerminalLocked`. */
  method AllProcessesDone(s: State) returns (yes: bool)
    ensures yes <==> AllProcessesTerminal(s)
  {
    if s.pending != map[] {
      return false;
    }
    var todo := s.processes.Keys;
    while todo != {}
      invariant todo <= s.processes.Keys
      invariant forall id | id in s.processes && id !in todo :: s.processes[id].state.IsTerminal()
      decreases |todo|
    {
      var id :| id in todo;
      if !s.processes[id].state.IsTerminal() {
        return false;
      }
      todo := todo - {id};
    }
    yes := true;
  }

  method FitsAny(s: State, p: Process) returns (yes: bool)
    ensures yes <==> FitsSomewhere(s, p)
  {
    var todo := s.nodes.Keys;
    while todo != {}
      invariant todo <= s.nodes.Keys
      invariant forall n | n in s.nodes && n !in todo :: !s.nodes[n].CanFit(p)
      decreases |todo|
    {
      var n :| n in todo;
      if s.nodes[n].Snapshot().CanFit(p) {
        return true;
      }
      todo := todo - {n};
    }
    yes := false;
  }

  /** `progressBlockReasonLocked`. */
  method ProgressBlockReason(s: State) returns (reason: FinishReason)
    ensures reason == BlockReason(s)
  {
    hide FitsSomewhere;
    if s.pending != map[] || s.failures != map[] {
      return Unfinished;
    }
    var hasReady, hasExternallyBlocked := false, false;
    var todo := s.processes.Keys;
    while todo != {}
      invariant todo <= s.processes.Keys
      invariant forall id | id in s.processes && id !in todo :: s.processes[id].state != Running
      invariant forall id | id in s.processes && id !in todo && s.processes[id].state == Ready ::
        !FitsSomewhere(s, s.processes[id])
      invariant hasReady <==> exists id | id in s.processes && id !in todo :: s.processes[id].state == Ready
      invariant hasExternallyBlocked <==>
        exists id | id in s.processes && id !in todo :: s.processes[id].state in {Waiting, Paused}
      decreases |todo|
    {
      var id :| id in todo;
      var process := s.processes[id];
      if process.state == Running {
        assert HasIn(s, {Running});
        return Unfinished;
      }
      if process.state == Ready {
        hasReady := true;
        var fits := FitsAny(s, process);
        if fits {
          return Unfinished;
        }
      } else if process.state == Waiting || process.state == Paused {
        hasExternallyBlocked := true;
      }
      todo := todo - {id};
    }
    assert hasReady <==> HasIn(s, {Ready});
    if hasReady {
      return NoOnlineCapacity;
    }
    if hasExternallyBlocked {
      return ExternallyBlocked;
    }
    reason := Unfinished;
  }
}
