/** The structs of internal/domain that are changed in place, and the deep copy that rollback rests on. */
module Objects {
  import opened Domain
  import opened Cluster
  import Placement

  class LiveNode {
    const id: Id
    const name: string
    const cpuCapacity: pos
    const memoryCapacity: pos
    var status: NodeStatus
    var cpuAllocated: int
    var memoryAllocated: int
    var running: seq<Id>
    var lastHeartbeat: int

    constructor (r: Node)
      ensures View() == r
    {
      id, name, cpuCapacity, memoryCapacity := r.id, r.name, r.cpuCapacity, r.memoryCapacity;
      status, cpuAllocated, memoryAllocated := r.status, r.cpuAllocated, r.memoryAllocated;
      running, lastHeartbeat := r.running, r.lastHeartbeat;
    }

    function View(): Node
      reads this
    {
      Node(id, name, status, cpuCapacity, memoryCapacity, cpuAllocated, memoryAllocated, running, lastHeartbeat)
    }

    method Allocate(p: Process) returns (error: Error)
      modifies this
      ensures (View(), error) == old(View()).Allocate(p)
    {
      if !View().Snapshot().CanFit(p) {
        return InsufficientResources;
      }
      if p.id in running {
        return InvalidInput;
      }
      cpuAllocated := cpuAllocated + p.cpuRequest;
      memoryAllocated := memoryAllocated + p.memoryRequest;
      running := running + [p.id];
      error := Nil;
    }

    method Release(p: Process) returns (error: Error)
      modifies this
      ensures (View(), error) == old(View()).Release(p)
    {
      hide IndexOf, Without;
      var index := IndexOf(running, p.id);
      if index == |running| {
        return InvalidInput;
      }
      if cpuAllocated < p.cpuRequest || memoryAllocated < p.memoryRequest {
        return InvalidInput;
      }
      cpuAllocated := cpuAllocated - p.cpuRequest;
      memoryAllocated := memoryAllocated - p.memoryRequest;
      Placement.WithoutFirst(running, p.id, index);
      running := running[..index] + running[index + 1..];
      error := Nil;
    }

    method Mark(status: NodeStatus, lastHeartbeat: int)
      modifies this
      ensures View() == old(View()).(status := status, lastHeartbeat := lastHeartbeat)
    {
      this.status := status;
      this.lastHeartbeat := lastHeartbeat;
    }

    /** What a failure of the node writes. */
    method GoDown()
      modifies this
      ensures View() == old(View()).(status := NodeFailed, cpuAllocated := 0, memoryAllocated := 0, running := [])
    {
      status := NodeFailed;
      cpuAllocated := 0;
      memoryAllocated := 0;
      running := [];
    }

    method Clone() returns (clone: LiveNode)
      ensures fresh(clone) && clone.View() == View()
    {
      clone := new LiveNode(View());
    }
  }

  class LiveProcess {
    const id: Id
    const name: string
    const priority: int
    const cpuRequest: int
    const memoryRequest: int
    const totalTicks: int
    const restartPolicy: RestartPolicy
    const maxRestarts: int
    const submittedAt: int
    var state: ProcessState
    var remainingTicks: int
    var nodeId: Id
    var restartCount: int
    var startedAt: Option<int>
    var finishedAt: Option<int>
    var lastReadyAt: int
    var waitingTicks: int

    constructor (r: Process)
      ensures View() == r
    {
      id, name, priority, cpuRequest, memoryRequest := r.id, r.name, r.priority, r.cpuRequest, r.memoryRequest;
      totalTicks, restartPolicy, maxRestarts, submittedAt := r.totalTicks, r.restartPolicy, r.maxRestarts,
          r.submittedAt;
      state, remainingTicks, nodeId, restartCount := r.state, r.remainingTicks, r.nodeId, r.restartCount;
      startedAt, finishedAt, lastReadyAt, waitingTicks := r.startedAt, r.finishedAt, r.lastReadyAt, r.waitingTicks;
    }

    function View(): Process
      reads this
    {
      Process(id, name, state, priority, cpuRequest, memoryRequest, totalTicks, remainingTicks, nodeId,
              restartPolicy, restartCount, maxRestarts, submittedAt, startedAt, finishedAt, lastReadyAt, waitingTicks)
    }

    method Transition(to: ProcessState) returns (error: Error)
      modifies this
      ensures error == if old(state).CanBecome(to) then Nil else InvalidStateTransition
      ensures View() == if error == Nil then old(View()).(state := to) else old(View())
    {
      if !state.CanBecome(to) {
        return InvalidStateTransition;
      }
      state := to;
      error := Nil;
    }

    /** Assigns the fields that change over a process's life. */
    method Store(r: Process)
      requires Follows(r, View())
      modifies this
      ensures View() == r
    {
      state, remainingTicks, nodeId, restartCount := r.state, r.remainingTicks, r.nodeId, r.restartCount;
      startedAt, finishedAt, lastReadyAt, waitingTicks := r.startedAt, r.finishedAt, r.lastReadyAt, r.waitingTicks;
    }

    /** A transition, and the fields that are set with it. */
    method MoveTo(to: ProcessState, r: Process) returns (error: Error)
      requires Follows(r, View()) && r.state == to
      modifies this
      ensures error == if old(state).CanBecome(to) then Nil else InvalidStateTransition
      ensures View() == if error == Nil then r else old(View())
    {
      error := Transition(to);
      if error == Nil {
        Store(r);
      }
    }

    method Clone() returns (clone: LiveProcess)
      ensures fresh(clone) && clone.View() == View()
    {
      clone := new LiveProcess(View());
    }
  }

  lemma NewIsNew(def: ProcessDefinition, tick: int)
    ensures NewProcess(def, tick).Some? ==> NewProcess(def, tick).value.state == New
  {
  }

  /** A NEW process can always become READY. */
  method MakeReady(r: Process) returns (process: LiveProcess)
    requires r.state == New
    ensures fresh(process) && process.View() == r.(state := Ready)
  {
    process := new LiveProcess(r);
    var error := process.Transition(Ready);
    assert error == Nil;
  }

  /** `r` differs from `p` in fields that are assigned after construction only. */
  predicate Follows(r: Process, p: Process) {
    r == p.(state := r.state, remainingTicks := r.remainingTicks, nodeId := r.nodeId,
            restartCount := r.restartCount, startedAt := r.startedAt, finishedAt := r.finishedAt,
            lastReadyAt := r.lastReadyAt, waitingTicks := r.waitingTicks)
  }

  // ---------------------------------------------------------------- tables of objects

  function NodeViews(nodes: map<Id, LiveNode>): map<Id, Node>
    reads nodes.Values
  {
    map id | id in nodes :: nodes[id].View()
  }

  function ProcessViews(processes: map<Id, LiveProcess>): map<Id, Process>
    reads processes.Values
  {
    map id | id in processes :: processes[id].View()
  }

  ghost predicate Injective<T>(m: map<Id, T>) {
    forall i, j | i in m && j in m && m[i] == m[j] :: i == j
  }

  lemma NodeViewsAre(nodes: map<Id, LiveNode>)
    ensures NodeViews(nodes).Keys == nodes.Keys
    ensures forall n | n in nodes :: NodeViews(nodes)[n] == nodes[n].View()
  {
  }

  lemma ProcessViewsAre(processes: map<Id, LiveProcess>)
    ensures ProcessViews(processes).Keys == processes.Keys
    ensures forall p | p in processes :: ProcessViews(processes)[p] == processes[p].View()
  {
  }

  /** Writing to one object of a table changes that entry of its view. */
  lemma OneNodeWritten(nodes: map<Id, LiveNode>, before: map<Id, Node>, id: Id)
    requires id in nodes && before.Keys == nodes.Keys
    requires forall n | n in nodes && n != id :: nodes[n].View() == before[n]
    ensures NodeViews(nodes) == before[id := nodes[id].View()]
  {
  }

  lemma OneProcessWritten(processes: map<Id, LiveProcess>, before: map<Id, Process>, id: Id)
    requires id in processes && before.Keys == processes.Keys
    requires forall p | p in processes && p != id :: processes[p].View() == before[p]
    ensures ProcessViews(processes) == before[id := processes[id].View()]
  {
  }

  lemma ValuesGrow<T>(m: map<Id, T>, id: Id, x: T)
    requires id !in m
    ensures m[id := x].Values == m.Values + {x}
  {
    forall y | y in m.Values ensures y in m[id := x].Values {
      var k :| k in m && m[k] == y;
      assert m[id := x][k] == y;
    }
    assert m[id := x][id] == x;
  }

  lemma OneNodeAdded(nodes: map<Id, LiveNode>, before: map<Id, Node>, id: Id, node: LiveNode)
    requires before.Keys == nodes.Keys && forall n | n in nodes :: nodes[n].View() == before[n]
    ensures NodeViews(nodes[id := node]) == before[id := node.View()]
  {
  }

  lemma OneProcessAdded(processes: map<Id, LiveProcess>, before: map<Id, Process>, id: Id, process: LiveProcess)
    requires before.Keys == processes.Keys && forall p | p in processes :: processes[p].View() == before[p]
    ensures ProcessViews(processes[id := process]) == before[id := process.View()]
  {
  }

  lemma SameNodeViews(nodes: map<Id, LiveNode>, views: map<Id, Node>)
    requires views.Keys == nodes.Keys && forall n | n in nodes :: nodes[n].View() == views[n]
    ensures NodeViews(nodes) == views
  {
  }

  lemma SameProcessViews(processes: map<Id, LiveProcess>, views: map<Id, Process>)
    requires views.Keys == processes.Keys && forall p | p in processes :: processes[p].View() == views[p]
    ensures ProcessViews(processes) == views
  {
  }

  /** New objects for the given records, one each. */
  method BuildNodeObjects(records: map<Id, Node>) returns (nodes: map<Id, LiveNode>)
    ensures fresh(nodes.Values) && Injective(nodes)
    ensures NodeViews(nodes) == records
  {
    hide NodeViews, LiveNode.View;
    nodes := map[];
    var todo := records.Keys;
    while todo != {}
      invariant todo <= records.Keys && nodes.Keys == records.Keys - todo
      invariant forall id | id in nodes :: fresh(nodes[id])
      invariant forall id | id in nodes :: nodes[id].View() == records[id]
      invariant Injective(nodes)
      decreases |todo|
    {
      var id :| id in todo;
      var node := new LiveNode(records[id]);
      nodes := nodes[id := node];
      todo := todo - {id};
    }
    SameNodeViews(nodes, records);
  }

  method BuildProcessObjects(records: map<Id, Process>) returns (processes: map<Id, LiveProcess>)
    ensures fresh(processes.Values) && Injective(processes)
    ensures ProcessViews(processes) == records
  {
    hide ProcessViews, LiveProcess.View;
    processes := map[];
    var todo := records.Keys;
    while todo != {}
      invariant todo <= records.Keys && processes.Keys == records.Keys - todo
      invariant forall id | id in processes :: fresh(processes[id])
      invariant forall id | id in processes :: processes[id].View() == records[id]
      invariant Injective(processes)
      decreases |todo|
    {
      var id :| id in todo;
      var process := new LiveProcess(records[id]);
      processes := processes[id := process];
      todo := todo - {id};
    }
    SameProcessViews(processes, records);
  }

  // ---------------------------------------------------------------- the cluster record

  class LiveCluster {
    var nodes: map<Id, LiveNode>
    var processes: map<Id, LiveProcess>
    var currentTick: int
    var status: SimulationStatus
    var reason: FinishReason
    var maxTicks: int
    var stats: Statistics

    constructor ()
      ensures nodes == map[] && processes == map[] && currentTick == 0 && status == Idle && reason == Unfinished
      ensures maxTicks == 0 && stats == NO_STATISTICS
    {
      nodes, processes, currentTick, status, reason := map[], map[], 0, Idle, Unfinished;
      maxTicks, stats := 0, NO_STATISTICS;
    }

    constructor Of(nodes: map<Id, LiveNode>, processes: map<Id, LiveProcess>, currentTick: int,
                   status: SimulationStatus, reason: FinishReason, maxTicks: int, stats: Statistics)
      ensures this.nodes == nodes && this.processes == processes && this.currentTick == currentTick
      ensures this.status == status && this.reason == reason && this.maxTicks == maxTicks && this.stats == stats
    {
      this.nodes, this.processes, this.currentTick, this.status := nodes, processes, currentTick, status;
      this.reason, this.maxTicks, this.stats := reason, maxTicks, stats;
    }

    /** Every record is its own object, filed under its own name. */
    ghost predicate Owned()
      reads this
    {
      && Injective(nodes) && Injective(processes)
      && (forall n | n in nodes :: nodes[n].id == n)
      && (forall p | p in processes :: processes[p].id == p)
    }

    /** A deep copy: the same values in objects of its own. */
    method Clone() returns (clone: LiveCluster)
      requires Owned()
      ensures fresh(clone) && fresh(clone.nodes.Values) && fresh(clone.processes.Values) && clone.Owned()
      ensures NodeViews(clone.nodes) == NodeViews(nodes) && ProcessViews(clone.processes) == ProcessViews(processes)
      ensures clone.currentTick == currentTick && clone.status == status && clone.reason == reason
      ensures clone.maxTicks == maxTicks && clone.stats == stats
    {
      hide NodeViews, ProcessViews, LiveNode.View, LiveProcess.View, Injective;
      var copies := BuildNodeObjects(NodeViews(nodes));
      NamesKept(nodes, copies);
      var made := BuildProcessObjects(ProcessViews(processes));
      ProcessNamesKept(processes, made);
      clone := new LiveCluster.Of(copies, made, currentTick, status, reason, maxTicks, stats);
    }
  }

  lemma NamesKept(a: map<Id, LiveNode>, b: map<Id, LiveNode>)
    requires NodeViews(a) == NodeViews(b) && forall n | n in a :: a[n].id == n
    ensures a.Keys == b.Keys && forall n | n in b :: b[n].id == n
  {
    NodeViewsAre(a);
    NodeViewsAre(b);
    assert forall n | n in b :: b[n].View().id == n;
  }

  lemma ProcessNamesKept(a: map<Id, LiveProcess>, b: map<Id, LiveProcess>)
    requires ProcessViews(a) == ProcessViews(b) && forall p | p in a :: a[p].id == p
    ensures a.Keys == b.Keys && forall p | p in b :: b[p].id == p
  {
    ProcessViewsAre(a);
    ProcessViewsAre(b);
    assert forall p | p in b :: b[p].View().id == p;
  }
}
