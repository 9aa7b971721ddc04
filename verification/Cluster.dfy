/** The control node of internal/cluster as a state machine: every public command of the
    controller, and every phase of a tick, as a function from state to state. */
module Cluster {
  import opened Domain
  import opened Ordering
  import opened Sums
  import opened Schedulers

  datatype Statistics = Statistics(
    cpuUtilizationSum: real, memoryUtilizationSum: real, loadVariances: seq<real>,
    utilizationSamples: nat, schedulingDeferred: nat, nodeFailures: nat, reschedulings: nat)

  const NO_STATISTICS := Statistics(0.0, 0.0, [], 0, 0, 0, 0)

  /** The controller's fields, with the cluster record they point to spread out. */
  datatype State = State(
    nodes: map<Id, Node>, processes: map<Id, Process>, tick: int, status: SimulationStatus,
    reason: FinishReason, maxTicks: int, stats: Statistics,
    events: seq<Event>, sequence: nat,
    pending: map<int, seq<ProcessDefinition>>, failures: map<int, seq<FailureDefinition>>,
    policy: Policy, heartbeatTimeout: int, maxNodes: int, maxProcesses: int)

  datatype Reply = Reply(state: State, error: Error)

  // ---------------------------------------------------------------- events and small helpers

  function Emit(s: State, kind: EventKind, process: Id, node: Id): State {
    s.(sequence := s.sequence + 1,
       events := s.events + [Event(s.sequence + 1, s.tick, kind, process, node)])
  }

  function WithProcess(s: State, p: Process): State {
    s.(processes := s.processes[p.id := p])
  }

  function WithNode(s: State, n: Node): State {
    s.(nodes := s.nodes[n.id := n])
  }

  ghost function Snapshots(nodes: map<Id, Node>): set<NodeSnapshot> {
    set n | n in nodes :: nodes[n].Snapshot()
  }

  // ---------------------------------------------------------------- process commands

  function Submit(s: State, def: ProcessDefinition): Reply {
    if |s.processes| >= s.maxProcesses then Reply(s, InvalidInput)
    else
      match NewProcess(def, s.tick)
      case None => Reply(s, InvalidInput)
      case Some(p) =>
        if p.id in s.processes then Reply(s, DuplicateProcess)
        else
          var s1 := WithProcess(s, p.(state := Ready));
          var s2 := if s1.status == Completed then s1.(status := Idle, reason := Unfinished) else s1;
          Reply(Emit(s2, Submitted, p.id, NO_ID), Nil)
  }

  /** `releaseLocked` for the process registered under `id`. */
  function Release(s: State, id: Id): Reply
    requires id in s.processes
  {
    var p := s.processes[id];
    if p.nodeId !in s.nodes then Reply(s, NodeNotFound)
    else
      var (n, error) := s.nodes[p.nodeId].Release(p);
      if error != Nil then Reply(s, error)
      else
        var s1 := s.(nodes := s.nodes[p.nodeId := n], processes := s.processes[id := p.(nodeId := NO_ID)]);
        Reply(Emit(s1, Released, id, p.nodeId), Nil)
  }

  /** Release, transition, event: the common shape of pause and wait. */
  function Suspend(s: State, id: Id, to: ProcessState, kind: EventKind): Reply {
    if id !in s.processes then Reply(s, ProcessNotFound)
    else if s.processes[id].state != Running then Reply(s, InvalidStateTransition)
    else
      var r := Release(s, id);
      if r.error != Nil then r
      else
        var p := r.state.processes[id];
        if !p.state.CanBecome(to) then Reply(r.state, InvalidStateTransition)
        else Reply(Emit(r.state.(processes := r.state.processes[id := p.(state := to)]), kind, id, NO_ID), Nil)
  }

  function PauseProcess(s: State, id: Id): Reply {
    Suspend(s, id, Paused, PausedEvent)
  }

  function WaitProcess(s: State, id: Id): Reply {
    Suspend(s, id, Waiting, WaitingEvent)
  }

  /** Back to the ready queue: the common shape of resume and wake. */
  function Requeue(s: State, id: Id, from: ProcessState, kind: EventKind): Reply {
    if id !in s.processes then Reply(s, ProcessNotFound)
    else
      var p := s.processes[id];
      if p.state != from then Reply(s, InvalidStateTransition)
      else if !p.state.CanBecome(Ready) then Reply(s, InvalidStateTransition)
      else
        var s1 := s.(processes := s.processes[id := p.(state := Ready, lastReadyAt := s.tick)]);
        Reply(Emit(s1, kind, id, NO_ID), Nil)
  }

  function ResumeProcess(s: State, id: Id): Reply {
    Requeue(s, id, Paused, Resumed)
  }

  function WakeProcess(s: State, id: Id): Reply {
    Requeue(s, id, Waiting, IOCompleted)
  }

  function KillProcess(s: State, id: Id): Reply {
    if id !in s.processes then Reply(s, ProcessNotFound)
    else if s.processes[id].state.IsTerminal() then Reply(s, InvalidStateTransition)
    else
      var r := if s.processes[id].state == Running then Release(s, id) else Reply(s, Nil);
      if r.error != Nil then r
      else
        var p := r.state.processes[id];
        if !p.state.CanBecome(Killed) then Reply(r.state, InvalidStateTransition)
        else
          var p' := p.(state := Killed, finishedAt := Some(s.tick));
          Reply(Emit(r.state.(processes := r.state.processes[id := p']), KilledEvent, id, NO_ID), Nil)
  }

  // ---------------------------------------------------------------- failures

  /** `failProcessLocked`. */
  function FailProcessLocked(s: State, id: Id): Reply
    requires id in s.processes
  {
    var p := s.processes[id];
    if p.state.IsTerminal() then Reply(s, InvalidStateTransition)
    else
      var r :=
        if p.state == Running && p.nodeId != NO_ID then
          if p.nodeId in s.nodes && s.nodes[p.nodeId].status != NodeFailed then Release(s, id)
          else Reply(s.(processes := s.processes[id := p.(nodeId := NO_ID)]), Nil)
        else Reply(s, Nil);
      if r.error != Nil then r
      else
        var q := r.state.processes[id];
        if !q.state.CanBecome(Failed) then Reply(r.state, InvalidStateTransition)
        else FailedReply(r.state, q.(state := Failed), id, p.nodeId)
  }

  /** The rest of `failProcessLocked`, once the record `q` is FAILED. */
  function FailedReply(s: State, q: Process, id: Id, nodeId: Id): Reply {
    var s1 := Emit(s.(processes := s.processes[id := q]), FailedEvent, id, nodeId);
    if q.CanRestart() then
      if !q.state.CanBecome(Ready) then Reply(s1, InvalidStateTransition)
      else
        var q' := q.(restartCount := q.restartCount + 1, remainingTicks := q.totalTicks,
                     finishedAt := None, state := Ready, lastReadyAt := s.tick);
        Reply(Emit(s1.(processes := s1.processes[id := q']), Restarted, id, NO_ID), Nil)
    else Reply(s1.(processes := s1.processes[id := q.(finishedAt := Some(s.tick))]), Nil)
  }

  /** The loop of `failNodeLocked` over the processes the node was running. */
  function FailHosted(s: State, ids: seq<Id>): Reply
    decreases |ids|
  {
    if ids == [] then Reply(s, Nil)
    else if ids[0] !in s.processes then FailHosted(s, ids[1..])
    else
      var s1 := s.(processes := s.processes[ids[0] := s.processes[ids[0]].(nodeId := NO_ID)]);
      var r := FailProcessLocked(s1, ids[0]);
      if r.error != Nil then r else FailHosted(r.state, ids[1..])
  }

  function MarkNodeFailed(s: State, n: Node, id: Id): State {
    var n' := n.(status := NodeFailed, cpuAllocated := 0, memoryAllocated := 0, running := []);
    Emit(s.(nodes := s.nodes[id := n'],
            stats := s.stats.(nodeFailures := s.stats.nodeFailures + 1)), NodeDown, NO_ID, id)
  }

  /** `failNodeLocked`. */
  ghost function FailNodeLocked(s: State, id: Id): Reply
    requires id in s.nodes
  {
    var n := s.nodes[id];
    if n.status == NodeFailed then Reply(s, InvalidStateTransition)
    else FailHosted(MarkNodeFailed(s, n, id), SortedIds(Elements(n.running)))
  }

  function FailProcess(s: State, id: Id): Reply {
    if id !in s.processes then Reply(s, ProcessNotFound) else FailProcessLocked(s, id)
  }

  ghost function FailNode(s: State, id: Id): Reply {
    if id !in s.nodes then Reply(s, NodeNotFound) else FailNodeLocked(s, id)
  }

  // ---------------------------------------------------------------- node commands

  function RegisterNode(s: State, def: NodeDefinition): Reply {
    if |s.nodes| >= s.maxNodes then Reply(s, InvalidInput)
    else
      match NewNode(def, s.tick)
      case None => Reply(s, InvalidInput)
      case Some(n) =>
        if n.id in s.nodes then Reply(s, DuplicateNode)
        else Reply(Emit(WithNode(s, n), NodeRegistered, NO_ID, n.id), Nil)
  }

  function RemoveNode(s: State, id: Id): Reply {
    if id !in s.nodes then Reply(s, NodeNotFound)
    else
      var n := s.nodes[id];
      if n.running != [] || n.cpuAllocated != 0 || n.memoryAllocated != 0 then Reply(s, InvalidStateTransition)
      else Reply(Emit(s.(nodes := s.nodes - {id}), NodeRemoved, NO_ID, id), Nil)
  }

  ghost function ChangeNodeStatus(s: State, id: Id, status: NodeStatus): Reply {
    if id !in s.nodes then Reply(s, NodeNotFound)
    else
      var n := s.nodes[id];
      if status == NodeFailed then FailNodeLocked(s, id)
      else if !n.status.CanBecome(status) then Reply(s, InvalidStateTransition)
      else if status == Offline && n.running != [] then Reply(s, InvalidStateTransition)
      else
        var n1 := n.(status := status);
        var n2 := if status == Online then n1.(lastHeartbeat := s.tick) else n1;
        Reply(Emit(s.(nodes := s.nodes[id := n2]), NodeStatusChanged, NO_ID, id), Nil)
  }

  function RecoverNode(s: State, id: Id): Reply {
    if id !in s.nodes then Reply(s, NodeNotFound)
    else
      var n := s.nodes[id];
      if n.status != NodeFailed && n.status != Offline then Reply(s, InvalidStateTransition)
      else
        var s1 := Emit(s.(nodes := s.nodes[id := n.(status := Recovering)]), NodeStatusChanged, NO_ID, id);
        var n2 := n.(status := Online, lastHeartbeat := s.tick);
        Reply(Emit(s1.(nodes := s1.nodes[id := n2]), NodeRecovered, NO_ID, id), Nil)
  }

  function Heartbeat(s: State, id: Id): Reply {
    if id !in s.nodes then Reply(s, NodeNotFound)
    else
      var n := s.nodes[id];
      if n.status != Online && n.status != Draining then Reply(s, InvalidStateTransition)
      else Reply(s.(nodes := s.nodes[id := n.(lastHeartbeat := s.tick)]), Nil)
  }

  // ---------------------------------------------------------------- simulation control

  function SetScheduler(s: State, name: SchedulerName): Reply {
    match NewScheduler(name)
    case None => Reply(s, InvalidInput)
    case Some(policy) => Reply(Emit(s.(policy := policy), SchedulerChanged, NO_ID, NO_ID), Nil)
  }

  function Start(s: State): State {
    if s.status == SimRunning then s
    else Emit(s.(status := SimRunning, reason := Unfinished), SimulationStarted, NO_ID, NO_ID)
  }

  function PauseSimulation(s: State): State {
    if s.status != SimRunning then s
    else Emit(s.(status := SimPaused), SimulationPaused, NO_ID, NO_ID)
  }

  /** An empty cluster under the given policy; limits and timeout are configuration. */
  function Fresh(policy: Policy, heartbeatTimeout: int, maxNodes: int, maxProcesses: int): State {
    State(map[], map[], 0, Idle, Unfinished, 0, NO_STATISTICS, [], 0, map[], map[],
          policy, heartbeatTimeout, maxNodes, maxProcesses)
  }

  /** `Reset` keeps the scheduler object, and so the Round Robin cursor. */
  function Reset(s: State): State {
    Emit(Fresh(s.policy, s.heartbeatTimeout, s.maxNodes, s.maxProcesses), SimulationReset, NO_ID, NO_ID)
  }

  function FinishLocked(s: State, reason: FinishReason): State {
    Emit(s.(status := Completed, reason := reason), SimulationFinished, NO_ID, NO_ID)
  }

  function Finish(s: State, reason: FinishReason): State {
    if s.status == Completed then s else FinishLocked(s, reason)
  }

  // ---------------------------------------------------------------- a tick: scheduled actions

  ghost function SortDefinitions(q: seq<ProcessDefinition>): (r: seq<ProcessDefinition>)
    ensures |r| == |q|
    decreases |q|
  {
    if q == [] then [] else InsertDefinition(q[|q| - 1], SortDefinitions(q[..|q| - 1]))
  }

  /** Stable insertion by identifier: after every definition that is not greater. */
  ghost function InsertDefinition(d: ProcessDefinition, q: seq<ProcessDefinition>): (r: seq<ProcessDefinition>)
    ensures |r| == |q| + 1
  {
    if q == [] then [d]
    else if d.id < q[|q| - 1].id then InsertDefinition(d, q[..|q| - 1]) + [q[|q| - 1]]
    else q + [d]
  }

  function SubmitAll(s: State, defs: seq<ProcessDefinition>): Reply
    decreases |defs|
  {
    if defs == [] then Reply(s, Nil)
    else
      var r := Submit(s, defs[0]);
      if r.error != Nil then r else SubmitAll(r.state, defs[1..])
  }

  ghost function ApplyFailure(s: State, f: FailureDefinition): Reply {
    match f.kind
    case NodeFailure => FailNode(s, f.nodeId)
    case ProcessFailure => FailProcess(s, f.processId)
    case UnsupportedFailure => Reply(s, Nil)
  }

  ghost function ApplyFailures(s: State, fs: seq<FailureDefinition>): Reply
    decreases |fs|
  {
    if fs == [] then Reply(s, Nil)
    else
      var r := ApplyFailure(s, fs[0]);
      if r.error != Nil then r else ApplyFailures(r.state, fs[1..])
  }

  function DueSubmissions(s: State, tick: int): seq<ProcessDefinition> {
    if tick in s.pending then s.pending[tick] else []
  }

  function DueFailures(s: State, tick: int): seq<FailureDefinition> {
    if tick in s.failures then s.failures[tick] else []
  }

  /** `applyScheduledLocked`. */
  ghost function ApplyScheduled(s: State): Reply {
    var due := DueSubmissions(s, s.tick);
    var r := if |due| > 0 then SubmitAll(s, SortDefinitions(due)) else Reply(s, Nil);
    if r.error != Nil then r
    else
      var s1 := if |due| > 0 then r.state.(pending := r.state.pending - {s.tick}) else r.state;
      var r2 := ApplyFailures(s1, DueFailures(s1, s.tick));
      if r2.error != Nil then r2
      else Reply(r2.state.(failures := r2.state.failures - {s.tick}), Nil)
  }

  // ---------------------------------------------------------------- a tick: heartbeats

  ghost function StaleNodes(s: State): set<Id> {
    set n | n in s.nodes && s.nodes[n].status == Online
            && s.tick - s.nodes[n].lastHeartbeat > s.heartbeatTimeout
  }

  /** The loop of `detectMissedHeartbeatsLocked`, which ignores the error of each failure. */
  ghost function FailStale(s: State, ids: seq<Id>): State
    decreases |ids|
  {
    if ids == [] then s
    else if ids[0] !in s.nodes then FailStale(s, ids[1..])
    else FailStale(FailNodeLocked(Emit(s, HeartbeatMissed, NO_ID, ids[0]), ids[0]).state, ids[1..])
  }

  ghost function DetectMissedHeartbeats(s: State): State {
    if s.heartbeatTimeout <= 0 then s else FailStale(s, SortedIds(StaleNodes(s)))
  }

  // ---------------------------------------------------------------- a tick: scheduling

  ghost function ReadySet(s: State): set<Process> {
    set id | id in s.processes && s.processes[id].state == Ready :: s.processes[id]
  }

  ghost function ReadyQueue(s: State): seq<Process> {
    Arrange(ReadySet(s), ReadyOrder(s.policy, s.tick))
  }

  function Defer(s: State, p: Process, node: Id): State {
    Emit(s.(stats := s.stats.(schedulingDeferred := s.stats.schedulingDeferred + 1)), Deferred, p.id, node)
  }

  /** The record of a process that is placed. */
  function PlacedRecord(p: Process, tick: int, nodeId: Id): Process {
    p.(state := Running, nodeId := nodeId, waitingTicks := p.waitingTicks + (tick - p.lastReadyAt),
       startedAt := if p.startedAt == None then Some(tick) else p.startedAt)
  }

  /** The events and statistics of a placement: a first start, or a rescheduling. */
  function Announced(s: State, id: Id, nodeId: Id, first: bool): State {
    var s1 := if first then Emit(s, Started, id, nodeId)
              else s.(stats := s.stats.(reschedulings := s.stats.reschedulings + 1));
    Emit(Emit(s1, Scheduled, id, nodeId), Allocated, id, nodeId)
  }

  /** What a successful placement does once `n` holds the allocation. */
  function Place(s: State, p: Process, n: Node, nodeId: Id): State {
    Announced(s.(nodes := s.nodes[nodeId := n], processes := s.processes[p.id := PlacedRecord(p, s.tick, nodeId)]),
              p.id, nodeId, p.startedAt == None)
  }

  /** One iteration of the loop of `scheduleReadyLocked`. */
  ghost function ScheduleOne(s: State, p: Process): State {
    var (choice, policy) := Select(s.policy, p, Snapshots(s.nodes));
    var s1 := s.(policy := policy);
    match choice
    case None => Defer(s1, p, NO_ID)
    case Some(nodeId) =>
      if nodeId !in s.nodes then Defer(s1, p, nodeId)
      else
        var (n, error) := s.nodes[nodeId].Allocate(p);
        if error != Nil then Defer(s1, p, nodeId)
        else if !p.state.CanBecome(Running) then s1.(nodes := s.nodes[nodeId := n.Release(p).0])
        else Place(s1, p, n, nodeId)
  }

  ghost function ScheduleAll(s: State, queue: seq<Process>): State
    decreases |queue|
  {
    if queue == [] then s else ScheduleAll(ScheduleOne(s, queue[0]), queue[1..])
  }

  ghost function ScheduleReady(s: State): State {
    ScheduleAll(s, ReadyQueue(s))
  }

  // ---------------------------------------------------------------- a tick: utilization

  ghost function Capacities(nodes: map<Id, Node>, r: Resource): map<Id, int> {
    map n | n in nodes :: nodes[n].Capacity(r)
  }

  ghost function Allocations(nodes: map<Id, Node>, r: Resource): map<Id, int> {
    map n | n in nodes :: nodes[n].AllocatedOf(r)
  }

  ghost function TotalCapacity(nodes: map<Id, Node>, r: Resource): int {
    MapSum(Capacities(nodes, r))
  }

  ghost function TotalAllocated(nodes: map<Id, Node>, r: Resource): int {
    MapSum(Allocations(nodes, r))
  }

  ghost function Utilization(nodes: map<Id, Node>, r: Resource): real {
    if TotalCapacity(nodes, r) > 0 then TotalAllocated(nodes, r) as real / TotalCapacity(nodes, r) as real
    else 0.0
  }

  ghost function Loads(nodes: map<Id, Node>): map<Id, real> {
    map n | n in nodes :: LoadScore(nodes[n].Snapshot())
  }

  /** The sampled statistics; the program adds the square root of the variance to a sum. */
  ghost function SampleUtilization(s: State): State {
    s.(stats := s.stats.(
      cpuUtilizationSum := s.stats.cpuUtilizationSum + Utilization(s.nodes, CPU),
      memoryUtilizationSum := s.stats.memoryUtilizationSum + Utilization(s.nodes, Memory),
      loadVariances := s.stats.loadVariances + if s.nodes == map[] then [] else [Variance(Loads(s.nodes))],
      utilizationSamples := s.stats.utilizationSamples + 1))
  }

  // ---------------------------------------------------------------- a tick: execution

  ghost function RunningSet(s: State): set<Id> {
    set id | id in s.processes && s.processes[id].state == Running
  }

  /** One iteration of the loop of `executeRunningLocked`. */
  function ExecuteOne(s: State, id: Id): State {
    if id !in s.processes then s
    else
      var p := s.processes[id];
      var s1 := s.(processes := s.processes[id := p.(remainingTicks := p.remainingTicks - 1)]);
      if p.remainingTicks - 1 > 0 then s1
      else
        var r := Release(s1, id);
        if r.error != Nil then r.state
        else
          var q := r.state.processes[id];
          if !q.state.CanBecome(Terminated) then r.state
          else
            var q' := q.(state := Terminated, finishedAt := Some(s.tick));
            Emit(r.state.(processes := r.state.processes[id := q']), CompletedEvent, id, NO_ID)
  }

  function ExecuteAll(s: State, ids: seq<Id>): State
    decreases |ids|
  {
    if ids == [] then s else ExecuteAll(ExecuteOne(s, ids[0]), ids[1..])
  }

  ghost function ExecuteRunning(s: State): State {
    ExecuteAll(s, SortedIds(RunningSet(s)))
  }

  // ---------------------------------------------------------------- a tick: stopping

  ghost predicate AllProcessesTerminal(s: State) {
    s.pending == map[] && forall id | id in s.processes :: s.processes[id].state.IsTerminal()
  }

  ghost predicate FitsSomewhere(s: State, p: Process) {
    exists n | n in s.nodes :: s.nodes[n].CanFit(p)
  }

  ghost predicate HasIn(s: State, states: set<ProcessState>) {
    exists id | id in s.processes :: s.processes[id].state in states
  }

  /** `progressBlockReasonLocked`; Unfinished stands for the empty reason. */
  ghost function BlockReason(s: State): FinishReason {
    if s.pending != map[] || s.failures != map[] then Unfinished
    else if HasIn(s, {Running}) then Unfinished
    else if exists id | id in s.processes :: s.processes[id].state == Ready && FitsSomewhere(s, s.processes[id])
      then Unfinished
    else if HasIn(s, {Ready}) then NoOnlineCapacity
    else if HasIn(s, {Waiting, Paused}) then ExternallyBlocked
    else Unfinished
  }

  ghost function StopIfDone(s: State): State {
    if s.processes != map[] && AllProcessesTerminal(s) then FinishLocked(s, AllTerminal)
    else if s.maxTicks > 0 && s.tick >= s.maxTicks then FinishLocked(s, MaxTicksReached)
    else if BlockReason(s) != Unfinished then FinishLocked(s, BlockReason(s))
    else s
  }

  // ---------------------------------------------------------------- a tick: the runtime check

  function RequestSum(q: seq<Id>, processes: map<Id, Process>, r: Resource): int {
    if q == [] then 0
    else (if q[0] in processes then processes[q[0]].Request(r) else 0) + RequestSum(q[1..], processes, r)
  }

  ghost predicate NodeConsistent(nodes: map<Id, Node>, processes: map<Id, Process>, id: Id)
    requires id in nodes
  {
    var n := nodes[id];
    && n.Validate()
    && NoDuplicates(n.running)
    && (forall p | p in n.running :: p in processes && processes[p].state == Running && processes[p].nodeId == id)
    && n.cpuAllocated == RequestSum(n.running, processes, CPU)
    && n.memoryAllocated == RequestSum(n.running, processes, Memory)
  }

  ghost function HostsOf(nodes: map<Id, Node>, p: Id): set<Id> {
    set n | n in nodes && p in nodes[n].running
  }

  /** What `validateInvariantsLocked` accepts. */
  ghost predicate InvariantsHold(nodes: map<Id, Node>, processes: map<Id, Process>) {
    && (forall n | n in nodes :: NodeConsistent(nodes, processes, n))
    && (forall p | p in processes ::
         if processes[p].state == Running then processes[p].nodeId != NO_ID && |HostsOf(nodes, p)| == 1
         else processes[p].nodeId == NO_ID)
  }

  // ---------------------------------------------------------------- a tick

  function BeginTick(s: State): State {
    var s1 := if s.status != SimRunning then Emit(s.(status := SimRunning), SimulationStarted, NO_ID, NO_ID) else s;
    s1.(tick := s1.tick + 1)
  }

  /** The rollback of `Step` restores everything it saved; the scheduler is not among it. */
  function Rollback(before: State, now: State): State {
    before.(policy := now.policy)
  }

  /** The work of a tick, without the rollback. */
  ghost function Attempt(s: State): Reply {
    var r := ApplyScheduled(BeginTick(s));
    if r.error != Nil then r
    else
      var s2 := DetectMissedHeartbeats(r.state);
      var s3 := ScheduleReady(s2);
      var s4 := SampleUtilization(s3);
      var s5 := ExecuteRunning(s4);
      var s6 := StopIfDone(s5);
      if !InvariantsHold(s6.nodes, s6.processes) then Reply(s6, InvalidInput) else Reply(s6, Nil)
  }

  ghost function Step(s: State): Reply {
    if s.status == Completed then Reply(s, InvalidStateTransition)
    else
      var r := Attempt(s);
      if r.error != Nil then Reply(Rollback(s, r.state), r.error) else r
  }

  ghost function StepLoop(s: State, count: nat): Reply
    decreases count
  {
    if count == 0 then Reply(s, Nil)
    else
      var r := Step(s);
      if r.error == InvalidStateTransition && r.state.status == Completed then Reply(r.state, Nil)
      else if r.error != Nil then r
      else if r.state.status == Completed then Reply(r.state, Nil)
      else StepLoop(r.state, count - 1)
  }

  ghost function Steps(s: State, count: int): Reply {
    if count <= 0 then Reply(s, InvalidInput) else StepLoop(s, count)
  }
}
