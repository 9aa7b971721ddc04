/** The invariant of the controller: placement, log, and every process's own history;
    and the exact effect of each move on a state that satisfies it. */
module Invariants {
  import opened Domain
  import opened Cluster
  import opened Placement
  import opened EventLog

  // ---------------------------------------------------------------- one process's history

  ghost predicate LifecycleOk(p: Process) {
    && p.state != New
    && 0 < p.totalTicks && 0 <= p.restartCount <= p.maxRestarts
    && (p.restartPolicy == Never || p.restartPolicy == OnFailure)
    && (p.restartPolicy == Never ==> p.restartCount == 0)
    && (p.state == Failed ==> !p.CanRestart())
    && (p.finishedAt.Some? <==> p.state.IsTerminal())
    && (if p.state == Terminated then p.remainingTicks == 0 else 1 <= p.remainingTicks <= p.totalTicks)
    && (p.state == Running || p.state == Waiting || p.state == Paused || p.state == Terminated ==> p.startedAt.Some?)
  }

  /** The last moment a process could have waited to: its finish, its last ready tick, or now. */
  function WaitHorizon(p: Process, tick: int): int {
    if p.state == Ready then p.lastReadyAt
    else if p.finishedAt.Some? then p.finishedAt.value
    else tick
  }

  ghost predicate ClockOk(p: Process, tick: int) {
    && 0 <= p.submittedAt <= p.lastReadyAt <= WaitHorizon(p, tick) <= tick
    && 0 <= p.waitingTicks <= WaitHorizon(p, tick) - p.submittedAt
    && (p.startedAt.None? ==> p.waitingTicks == 0)
    && (p.startedAt.Some? ==> p.submittedAt <= p.startedAt.value <= WaitHorizon(p, tick))
  }

  /** A process that never failed, paused or waited. `lag` is 1 while this tick's work is still due. */
  ghost predicate UninterruptedOk(p: Process, tick: int, lag: int) {
    match p.state
    case Ready => p.startedAt == None && p.lastReadyAt == p.submittedAt && p.remainingTicks == p.totalTicks
    case Running =>
      && p.startedAt.Some? && p.waitingTicks == p.startedAt.value - p.submittedAt
      && p.totalTicks - p.remainingTicks == tick - p.startedAt.value + 1 - lag
    case Terminated =>
      && p.finishedAt.Some?
      && p.finishedAt.value - p.submittedAt == p.waitingTicks + p.totalTicks - 1
    case Killed => true
    case _ => false
  }

  ghost predicate RecordOk(p: Process, interrupted: bool, tick: int, lag: int) {
    LifecycleOk(p) && ClockOk(p, tick) && (!interrupted ==> UninterruptedOk(p, tick, lag))
  }

  /** Between ticks, or inside one with the processes that already did this tick's work. */
  datatype Phase = Rest | Mid(done: set<Id>)

  function Lag(phase: Phase, id: Id): int {
    if phase.Rest? || id in phase.done then 0 else 1
  }

  ghost predicate RecordsOk(processes: map<Id, Process>, interrupted: set<Id>, tick: int, phase: Phase) {
    forall p | p in processes :: RecordOk(processes[p], p in interrupted, tick, Lag(phase, p))
  }

  ghost predicate Inv(s: State, orphans: set<Id>, phase: Phase) {
    && 0 <= s.tick
    && Placed(s.nodes, s.processes, orphans)
    && Logged(s, orphans)
    && RecordsOk(s.processes, Replay(s.events).interrupted, s.tick, phase)
  }

  /** The invariant between commands. */
  ghost predicate Valid(s: State) {
    Inv(s, {}, Rest)
  }

  lemma InvParts(s: State, orphans: set<Id>, phase: Phase)
    requires Inv(s, orphans, phase)
    ensures Placed(s.nodes, s.processes, orphans) && Logged(s, orphans) && 0 <= s.tick
    ensures Chronicle(s.events, s.sequence, s.tick)
    ensures RecordsOk(s.processes, Replay(s.events).interrupted, s.tick, phase)
  {
  }

  ghost predicate SameSamples(a: Statistics, b: Statistics) {
    && a.cpuUtilizationSum == b.cpuUtilizationSum && a.memoryUtilizationSum == b.memoryUtilizationSum
    && a.loadVariances == b.loadVariances && a.utilizationSamples == b.utilizationSamples
  }

  /** Fields no process or node command touches. */
  ghost predicate SameSetting(a: State, b: State) {
    && a.tick == b.tick && a.maxTicks == b.maxTicks && a.pending == b.pending && a.failures == b.failures
    && a.policy == b.policy && a.heartbeatTimeout == b.heartbeatTimeout
    && a.maxNodes == b.maxNodes && a.maxProcesses == b.maxProcesses && SameSamples(a.stats, b.stats)
  }

  // ---------------------------------------------------------------- events that move no process

  predicate IsNeutral(kind: EventKind) {
    match kind
    case NodeRegistered | NodeRemoved | NodeStatusChanged | HeartbeatMissed | NodeRecovered => true
    case SimulationStarted | SimulationPaused | SimulationReset | SimulationFinished => true
    case SchedulerChanged | ScenarioLoaded => true
    case _ => false
  }

  lemma EmitNeutral(s: State, orphans: set<Id>, phase: Phase, kind: EventKind, node: Id)
    requires Inv(s, orphans, phase) && IsNeutral(kind)
    ensures Inv(Emit(s, kind, NO_ID, node), orphans, phase)
  {
    Emitted(s, kind, NO_ID, node);
  }

  // ---------------------------------------------------------------- submission

  lemma SubmitLogged(s: State, p: Process, status: SimulationStatus, reason: FinishReason)
    requires Logged(s, {}) && p.id !in s.processes
    requires p.state == Ready && p.nodeId == NO_ID && p.restartCount == 0
    ensures var s1 := s.(processes := s.processes[p.id := p], status := status, reason := reason);
      && Logged(Emit(s1, Submitted, p.id, NO_ID), {})
      && Replay(Emit(s1, Submitted, p.id, NO_ID).events).interrupted == Replay(s.events).interrupted
  {
    ViewSubmit(s.processes, {}, p);
    Emitted(s, Submitted, p.id, NO_ID);
    var s1 := s.(processes := s.processes[p.id := p], status := status, reason := reason);
    assert Emit(s1, Submitted, p.id, NO_ID).events == Emit(s, Submitted, p.id, NO_ID).events;
  }

  function SubmittedRecord(def: ProcessDefinition, tick: int): Process {
    match NewProcess(def, tick)
    case Some(p) => p.(state := Ready)
    case None => Process(0, "", Ready, 0, 0, 0, 0, 0, 0, Never, 0, 0, tick, None, None, tick, 0)
  }

  lemma NameOfNew(d: ProcessDefinition, tick: int)
    ensures NewProcess(d, tick).Some? ==> NewProcess(d, tick).value.id == d.id
  {
  }

  lemma FreshRecordOk(def: ProcessDefinition, tick: int, lag: int)
    requires 0 <= tick && NewProcess(def, tick).Some?
    ensures RecordOk(SubmittedRecord(def, tick), false, tick, lag)
  {
  }

  lemma SubmitKeeps(s: State, phase: Phase, def: ProcessDefinition)
    requires Inv(s, {}, phase) && Submit(s, def).error == Nil
    ensures Inv(Submit(s, def).state, {}, phase)
  {
    var p := SubmittedRecord(def, s.tick);
    PlacedSubmit(s.nodes, s.processes, {}, p);
    var after := Submit(s, def).state;
    SubmitLogged(s, p, after.status, after.reason);
    FreshRecordOk(def, s.tick, Lag(phase, p.id));
    assert p.id !in Replay(s.events).interrupted;
    RecordsTouch(s.processes, Replay(s.events).interrupted, s.tick, phase, p);
  }

  // ---------------------------------------------------------------- release and leave

  lemma RecordsTouch(processes: map<Id, Process>, interrupted: set<Id>, tick: int, phase: Phase, p: Process)
    requires RecordsOk(processes, interrupted, tick, phase)
    requires RecordOk(p, p.id in interrupted, tick, Lag(phase, p.id))
    ensures RecordsOk(processes[p.id := p], interrupted, tick, phase)
  {
  }

  lemma RecordsInterrupt(processes: map<Id, Process>, interrupted: set<Id>, tick: int, phase: Phase, p: Process)
    requires RecordsOk(processes, interrupted, tick, phase)
    requires RecordOk(p, true, tick, Lag(phase, p.id))
    ensures RecordsOk(processes[p.id := p], interrupted + {p.id}, tick, phase)
  {
  }

  ghost function Unhosted(s: State, id: Id): State
    requires id in s.processes && s.processes[id].nodeId in s.nodes
  {
    var p := s.processes[id];
    Emit(s.(nodes := s.nodes[p.nodeId := s.nodes[p.nodeId].Release(p).0],
            processes := s.processes[id := p.(nodeId := NO_ID)]), Released, id, p.nodeId)
  }

  /** Releasing a hosted process never fails. */
  lemma ReleaseExact(s: State, orphans: set<Id>, phase: Phase, id: Id)
    requires Inv(s, orphans, phase) && id in s.processes
    requires s.processes[id].state == Running && id !in orphans
    ensures s.processes[id].nodeId in s.nodes
    ensures Release(s, id) == Reply(Unhosted(s, id), Nil)
    ensures Inv(Unhosted(s, id), orphans + {id}, phase)
  {
    hide Placed, Logged, RecordsOk, Replay, RecordOk, Node.Release, Chronicle;
    var p := s.processes[id];
    HistoryOf(s, orphans, phase, id);
    PlacedRelease(s.nodes, s.processes, orphans, id);
    ReleaseLogged(s, orphans, id);
    PlaceIsFree(p, id in Replay(s.events).interrupted, s.tick, Lag(phase, id));
    RecordsTouch(s.processes, Replay(s.events).interrupted, s.tick, phase, p.(nodeId := NO_ID));
  }

  lemma PlaceIsFree(p: Process, interrupted: bool, tick: int, lag: int)
    requires RecordOk(p, interrupted, tick, lag)
    ensures RecordOk(p.(nodeId := NO_ID), interrupted, tick, lag)
  {
  }

  lemma ReleaseLogged(s: State, orphans: set<Id>, id: Id)
    requires Logged(s, orphans) && id in s.processes && id !in orphans
    requires s.processes[id].nodeId in s.nodes
    ensures Logged(Unhosted(s, id), orphans + {id})
    ensures Replay(Unhosted(s, id).events).interrupted == Replay(s.events).interrupted
  {
    hide Chronicle, Replay, Node.Release;
    ViewRelease(s.processes, orphans, id);
    Emitted(s, Released, id, s.processes[id].nodeId);
    assert Unhosted(s, id).events == Emit(s, Released, id, s.processes[id].nodeId).events;
  }

  /** The state an event of this kind puts a process in. */
  function TargetOf(kind: EventKind): Option<ProcessState> {
    match kind
    case PausedEvent => Some(Paused)
    case WaitingEvent => Some(Waiting)
    case Resumed => Some(Ready)
    case IOCompleted => Some(Ready)
    case CompletedEvent => Some(Terminated)
    case KilledEvent => Some(Killed)
    case FailedEvent => Some(Failed)
    case _ => None
  }

  /** Same requests and restart count: all that placement and log keep of a record that moves. */
  predicate SameIdentity(p: Process, q: Process) {
    p.cpuRequest == q.cpuRequest && p.memoryRequest == q.memoryRequest && p.restartCount == q.restartCount
  }

  /** A process that no node lists moves to another state, and the log says so. */
  lemma Leave(s: State, orphans: set<Id>, phase: Phase, p: Process, kind: EventKind, node: Id)
    requires Inv(s, orphans, phase) && p.id in s.processes
    requires s.processes[p.id].state == Running ==> p.id in orphans
    requires p.state != Running && p.nodeId == NO_ID && TargetOf(kind) == Some(p.state)
    requires SameIdentity(p, s.processes[p.id])
    requires RecordOk(p, p.id in Replay(s.events).interrupted || IsInterruption(kind), s.tick, Lag(phase, p.id))
    ensures Inv(Emit(s.(processes := s.processes[p.id := p]), kind, p.id, node), orphans - {p.id}, phase)
  {
    hide Placed, Logged, RecordsOk, RecordOk, Replay, SameIdentity;
    LeavePlaced(s, orphans, p);
    UnhostedElsewhere(s, orphans, p.id);
    LeaveLogged(s, orphans, p, kind, node);
    if IsInterruption(kind) {
      RecordsInterrupt(s.processes, Replay(s.events).interrupted, s.tick, phase, p);
    } else {
      RecordsTouch(s.processes, Replay(s.events).interrupted, s.tick, phase, p);
    }
  }

  lemma UnhostedElsewhere(s: State, orphans: set<Id>, id: Id)
    requires Placed(s.nodes, s.processes, orphans) && id in s.processes
    requires s.processes[id].state == Running ==> id in orphans
    ensures id in orphans || s.processes[id].nodeId == NO_ID
  {
    assert PlacedOk(s.processes[id], id, s.nodes, orphans);
  }

  lemma LeavePlaced(s: State, orphans: set<Id>, p: Process)
    requires Placed(s.nodes, s.processes, orphans) && p.id in s.processes
    requires s.processes[p.id].state == Running ==> p.id in orphans
    requires p.state != Running && p.nodeId == NO_ID && SameIdentity(p, s.processes[p.id])
    ensures Placed(s.nodes, s.processes[p.id := p], orphans - {p.id})
  {
    PlacedUpdate(s.nodes, s.processes, orphans, p);
  }

  /** An event of this kind moves one process in the ledger, and may mark it interrupted. */
  lemma RecordMove(l: Ledger, e: Event)
    requires TargetOf(e.kind).Some? && e.process in l.views
    ensures Record(l, e) ==
      l.(views := l.views[e.process := l.views[e.process].(state := TargetOf(e.kind).value)],
         interrupted := if IsInterruption(e.kind) then l.interrupted + {e.process} else l.interrupted)
  {
  }

  lemma LeaveLogged(s: State, orphans: set<Id>, p: Process, kind: EventKind, node: Id)
    requires Logged(s, orphans) && p.id in s.processes && TargetOf(kind) == Some(p.state) && p.nodeId == NO_ID
    requires SameIdentity(p, s.processes[p.id])
    requires p.id in orphans || s.processes[p.id].nodeId == NO_ID
    ensures var after := Emit(s.(processes := s.processes[p.id := p]), kind, p.id, node);
      && Logged(after, orphans - {p.id})
      && Replay(after.events).interrupted
         == if IsInterruption(kind) then Replay(s.events).interrupted + {p.id} else Replay(s.events).interrupted
  {
    hide Chronicle, Record, Replay;
    ViewUpdate(s.processes, orphans, p);
    Emitted(s, kind, p.id, node);
    RecordMove(Replay(s.events), Event(s.sequence + 1, s.tick, kind, p.id, node));
    SameEvents(s, s.processes[p.id := p], kind, p.id, node);
  }

  lemma SameEvents(s: State, processes: map<Id, Process>, kind: EventKind, id: Id, node: Id)
    ensures var a, b := Emit(s.(processes := processes), kind, id, node), Emit(s, kind, id, node);
      a == b.(processes := processes)
  {
  }

  lemma HistoryOf(s: State, orphans: set<Id>, phase: Phase, id: Id)
    requires Inv(s, orphans, phase) && id in s.processes
    ensures s.processes[id].id == id && id != NO_ID && s.processes[id].state != New
    ensures RecordOk(s.processes[id], id in Replay(s.events).interrupted, s.tick, Lag(phase, id))
    ensures PlacedOk(s.processes[id], id, s.nodes, orphans)
  {
    assert PlacedOk(s.processes[id], id, s.nodes, orphans);
  }

  lemma HostIsUp(s: State, orphans: set<Id>, phase: Phase, id: Id)
    requires Inv(s, orphans, phase) && id in s.processes
    requires s.processes[id].state == Running && id !in orphans
    ensures var p := s.processes[id];
      && p.nodeId in s.nodes && p.nodeId != NO_ID && id in s.nodes[p.nodeId].running
      && s.nodes[p.nodeId].status.MayHost()
  {
    assert PlacedOk(s.processes[id], id, s.nodes, orphans);
    assert NodeOk(s.nodes[s.processes[id].nodeId], s.processes[id].nodeId, s.processes, orphans);
  }

  // ---------------------------------------------------------------- pause, wait, resume, wake, kill

  /** A node without one of its processes. */
  function Unloaded(n: Node, p: Process): Node {
    n.(cpuAllocated := n.cpuAllocated - p.cpuRequest, memoryAllocated := n.memoryAllocated - p.memoryRequest,
       running := Without(n.running, p.id))
  }

  /** The node table once `p` is off its node, if it ran. */
  ghost function NodesWithout(nodes: map<Id, Node>, p: Process): map<Id, Node> {
    if p.state == Running && p.nodeId in nodes then nodes[p.nodeId := Unloaded(nodes[p.nodeId], p)] else nodes
  }

  /** `b` is `a` but for node and process table and for what the log gained. */
  ghost predicate SameButTables(a: State, b: State) {
    && b == a.(nodes := b.nodes, processes := b.processes, events := b.events, sequence := b.sequence)
    && a.events <= b.events
  }

  lemma ReleaseUnloads(s: State, orphans: set<Id>, phase: Phase, id: Id)
    requires Inv(s, orphans, phase) && id in s.processes
    requires s.processes[id].state == Running && id !in orphans
    ensures s.processes[id].nodeId in s.nodes
    ensures Unhosted(s, id).nodes == NodesWithout(s.nodes, s.processes[id])
    ensures Unhosted(s, id).processes == s.processes[id := s.processes[id].(nodeId := NO_ID)]
    ensures SameButTables(s, Unhosted(s, id))
  {
    hide RequestSum, RecordOk, Replay;
    HistoryOf(s, orphans, phase, id);
    PlacedRelease(s.nodes, s.processes, orphans, id);
  }

  /** Exactly a RUNNING process can be paused or made to wait. It then holds no place, its node has its
      request back, and nothing else has changed but for two events. */
  lemma SuspendExact(s: State, id: Id, to: ProcessState, kind: EventKind)
    requires Valid(s)
    requires (to == Paused && kind == PausedEvent) || (to == Waiting && kind == WaitingEvent)
    ensures var r := Suspend(s, id, to, kind);
      && Valid(r.state) && (r.error != Nil ==> r.state == s)
      && (r.error == Nil <==> id in s.processes && s.processes[id].state == Running)
      && (r.error == Nil ==>
            && SameButTables(s, r.state)
            && r.state.nodes == NodesWithout(s.nodes, s.processes[id])
            && r.state.processes == s.processes[id := s.processes[id].(state := to, nodeId := NO_ID)])
  {
    hide Placed, Logged, RecordsOk, Replay, Release, Unloaded, Node.Release;
    if id in s.processes && s.processes[id].state == Running {
      ReleaseExact(s, {}, Rest, id);
      ReleaseUnloads(s, {}, Rest, id);
      LeaveRunning(s, Unhosted(s, id), id, to, kind);
    }
  }

  lemma LeaveRunning(s: State, s1: State, id: Id, to: ProcessState, kind: EventKind)
    requires Inv(s1, {} + {id}, Rest) && id in s1.processes && s1.processes[id].state == Running
    requires s1.processes[id].nodeId == NO_ID
    requires (to == Paused && kind == PausedEvent) || (to == Waiting && kind == WaitingEvent)
    ensures Valid(Emit(s1.(processes := s1.processes[id := s1.processes[id].(state := to)]), kind, id, NO_ID))
  {
    hide Placed, Logged, RecordsOk, Replay;
    HistoryOf(s1, {} + {id}, Rest, id);
    Leave(s1, {} + {id}, Rest, s1.processes[id].(state := to), kind, NO_ID);
    assert ({} + {id}) - {id} == {};
  }

  /** Exactly a PAUSED process can be resumed and a WAITING one woken; it is READY as of now. */
  lemma RequeueExact(s: State, id: Id, from: ProcessState, kind: EventKind)
    requires Valid(s)
    requires (from == Paused && kind == Resumed) || (from == Waiting && kind == IOCompleted)
    ensures var r := Requeue(s, id, from, kind);
      && Valid(r.state) && (r.error != Nil ==> r.state == s)
      && (r.error == Nil <==> id in s.processes && s.processes[id].state == from)
      && (r.error == Nil ==>
            && SameButTables(s, r.state) && r.state.nodes == s.nodes
            && r.state.processes == s.processes[id := s.processes[id].(state := Ready, lastReadyAt := s.tick)])
  {
    hide Placed, Logged, RecordsOk, Replay;
    if id in s.processes && s.processes[id].state == from {
      HistoryOf(s, {}, Rest, id);
      Leave(s, {}, Rest, s.processes[id].(state := Ready, lastReadyAt := s.tick), kind, NO_ID);
      assert {} - {id} == {};
    }
  }

  lemma KilledRecordOk(p: Process, interrupted: bool, tick: int)
    requires RecordOk(p, interrupted, tick, 0) && !p.state.IsTerminal()
    ensures RecordOk(p.(state := Killed, finishedAt := Some(tick)), interrupted, tick, 0)
  {
  }

  /** Exactly a process that is not terminal can be killed; if it ran, its node has its request back. */
  lemma KillExact(s: State, id: Id)
    requires Valid(s)
    ensures var r := KillProcess(s, id);
      && Valid(r.state) && (r.error != Nil ==> r.state == s)
      && (r.error == Nil <==> id in s.processes && !s.processes[id].state.IsTerminal())
      && (r.error == Nil ==>
            && SameButTables(s, r.state)
            && r.state.nodes == NodesWithout(s.nodes, s.processes[id])
            && r.state.processes
                 == s.processes[id := s.processes[id].(state := Killed, nodeId := NO_ID, finishedAt := Some(s.tick))])
  {
    hide Placed, Logged, RecordsOk, RecordOk, Replay, Release, Unloaded, Node.Release;
    if id in s.processes && !s.processes[id].state.IsTerminal() {
      HistoryOf(s, {}, Rest, id);
      var orphans: set<Id> := if s.processes[id].state == Running then {} + {id} else {};
      if s.processes[id].state == Running {
        ReleaseExact(s, {}, Rest, id);
        ReleaseUnloads(s, {}, Rest, id);
      }
      var s1 := if s.processes[id].state == Running then Unhosted(s, id) else s;
      HistoryOf(s1, orphans, Rest, id);
      KilledRecordOk(s1.processes[id], id in Replay(s1.events).interrupted, s.tick);
      Leave(s1, orphans, Rest, s1.processes[id].(state := Killed, finishedAt := Some(s.tick)), KilledEvent, NO_ID);
      assert orphans - {id} == {};
    }
  }

  // ---------------------------------------------------------------- process failure

  /** What a failure leaves of a process record. */
  function FailedRecord(p: Process, tick: int): Process {
    if p.CanRestart() then
      p.(state := Ready, nodeId := NO_ID, restartCount := p.restartCount + 1, remainingTicks := p.totalTicks,
         finishedAt := None, lastReadyAt := tick)
    else p.(state := Failed, nodeId := NO_ID, finishedAt := Some(tick))
  }

  function AfterFailure(s: State, id: Id, node: Id): State
    requires id in s.processes
  {
    var p := s.processes[id];
    var s1 := s.(processes := s.processes[id := FailedRecord(p, s.tick)]);
    if p.CanRestart() then Emit(Emit(s1, FailedEvent, id, node), Restarted, id, NO_ID)
    else Emit(s1, FailedEvent, id, node)
  }

  /** The record change and its events keep the invariant. */
  lemma FailureKeeps(s: State, orphans: set<Id>, phase: Phase, id: Id, node: Id)
    requires Inv(s, orphans, phase) && id in s.processes && !s.processes[id].state.IsTerminal()
    requires s.processes[id].state == Running ==> id in orphans
    ensures Inv(AfterFailure(s, id, node), orphans - {id}, phase)
  {
    hide Placed, Logged, RecordsOk, RecordOk, Replay;
    HistoryOf(s, orphans, phase, id);
    var p := FailedRecord(s.processes[id], s.tick);
    FailedRecordOk(s.processes[id], id in Replay(s.events).interrupted, s.tick, Lag(phase, id));
    PlacedUpdate(s.nodes, s.processes, orphans, p);
    UnhostedElsewhere(s, orphans, id);
    RecordsInterrupt(s.processes, Replay(s.events).interrupted, s.tick, phase, p);
    FailureLogged(s, orphans, id, node);
  }

  lemma FailedRecordOk(p: Process, interrupted: bool, tick: int, lag: int)
    requires RecordOk(p, interrupted, tick, lag) && !p.state.IsTerminal()
    ensures RecordOk(FailedRecord(p, tick), true, tick, lag)
  {
  }

  lemma RecordFailure(l: Ledger, id: Id, number: nat, tick: int, node: Id)
    requires id in l.views
    ensures var v := l.views[id];
      var failed := Record(l, Event(number, tick, FailedEvent, id, node));
      && failed == l.(views := l.views[id := v.(state := Failed)], interrupted := l.interrupted + {id})
      && Record(failed, Event(number + 1, tick, Restarted, id, NO_ID))
         == failed.(views := l.views[id := v.(state := Ready, restarts := v.restarts + 1)])
  {
    var v := l.views[id];
    var views := l.views[id := v.(state := Failed)];
    assert views[id := v.(state := Ready, restarts := v.restarts + 1)]
        == l.views[id := v.(state := Ready, restarts := v.restarts + 1)];
  }

  lemma FailureReplay(s: State, id: Id, node: Id)
    requires Chronicle(s.events, s.sequence, s.tick)
    requires id in s.processes && id in Replay(s.events).views
    ensures var l := Replay(s.events);
      var after := AfterFailure(s, id, node);
      && Chronicle(after.events, after.sequence, after.tick)
      && Replay(after.events) == l.(interrupted := l.interrupted + {id}, views := l.views[id :=
           if s.processes[id].CanRestart() then l.views[id].(state := Ready, restarts := l.views[id].restarts + 1)
           else l.views[id].(state := Failed)])
  {
    hide Chronicle, Record, Replay;
    RecordFailure(Replay(s.events), id, s.sequence + 1, s.tick, node);
    Emitted(s, FailedEvent, id, node);
    var s1 := Emit(s, FailedEvent, id, node);
    var after := AfterFailure(s, id, node);
    if s.processes[id].CanRestart() {
      Emitted(s1, Restarted, id, NO_ID);
      assert after.events == Emit(s1, Restarted, id, NO_ID).events;
    } else {
      assert after.events == s1.events;
    }
  }

  lemma FailureLogged(s: State, orphans: set<Id>, id: Id, node: Id)
    requires Logged(s, orphans) && id in s.processes && s.processes[id].id == id
    requires id in orphans || s.processes[id].nodeId == NO_ID
    ensures Logged(AfterFailure(s, id, node), orphans - {id})
    ensures Replay(AfterFailure(s, id, node).events).interrupted == Replay(s.events).interrupted + {id}
  {
    hide Chronicle, Record, Replay;
    var p := FailedRecord(s.processes[id], s.tick);
    ViewUpdate(s.processes, orphans, p);
    FailureReplay(s, id, node);
  }
}
