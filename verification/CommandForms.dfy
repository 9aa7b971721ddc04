/** Facts about the specification functions in the shape the controller's methods need them:
    which commands keep the invariant, and each function cut where a method calls another one. */
module CommandForms {
  import opened Domain
  import opened Ordering
  import opened Schedulers
  import opened Objects
  import opened LiveSchedulers
  import opened Scenarios
  import opened Runs
  import Placement
  import Invariants
  import Failures
  import Tick
  import AppendOnly
  import Atomicity
  import Loading
  import opened Scheduling
  import opened Collecting
  import C = Cluster

  lemma ProcessCommandsSettle(s: C.State, id: Id)
    requires Settled(s)
    ensures Settled(C.PauseProcess(s, id).state) && Settled(C.WaitProcess(s, id).state)
    ensures Settled(C.ResumeProcess(s, id).state) && Settled(C.WakeProcess(s, id).state)
    ensures Settled(C.KillProcess(s, id).state) && Settled(C.FailProcess(s, id).state)
  {
    hide Settled, C.PauseProcess, C.WaitProcess, C.ResumeProcess, C.WakeProcess, C.KillProcess, C.FailProcess;
    SettledCommand(s, CmdPause(id));
    SettledCommand(s, CmdWait(id));
    SettledCommand(s, CmdResume(id));
    SettledCommand(s, CmdWake(id));
    SettledCommand(s, CmdKill(id));
    SettledCommand(s, CmdFailProcess(id));
  }

  lemma NodeCommandsSettle(s: C.State, id: Id, to: NodeStatus)
    requires Settled(s)
    ensures Settled(C.RemoveNode(s, id).state) && Settled(C.ChangeNodeStatus(s, id, to).state)
    ensures Settled(C.FailNode(s, id).state) && Settled(C.RecoverNode(s, id).state) && Settled(C.Heartbeat(s, id).state)
  {
    hide Settled, C.RemoveNode, C.ChangeNodeStatus, C.FailNode, C.RecoverNode, C.Heartbeat;
    SettledCommand(s, CmdRemoveNode(id));
    SettledCommand(s, CmdChangeNodeStatus(id, to));
    SettledCommand(s, CmdFailNode(id));
    SettledCommand(s, CmdRecoverNode(id));
    SettledCommand(s, CmdHeartbeat(id));
  }

  lemma SubmitSettles(s: C.State, def: ProcessDefinition)
    requires Settled(s)
    ensures Settled(C.Submit(s, def).state)
  {
    hide Settled, C.Submit;
    SettledCommand(s, CmdSubmit(def));
  }

  lemma RegisterSettles(s: C.State, def: NodeDefinition)
    requires Settled(s)
    ensures Settled(C.RegisterNode(s, def).state)
  {
    hide Settled, C.RegisterNode;
    SettledCommand(s, CmdRegisterNode(def));
  }

  lemma ControlSettles(s: C.State, reason: FinishReason)
    requires Settled(s)
    ensures Settled(C.Start(s)) && Settled(C.PauseSimulation(s)) && Settled(C.Reset(s))
    ensures reason.Requested? ==> Settled(C.Finish(s, reason))
  {
    hide Settled, C.Start, C.PauseSimulation, C.Reset, C.Finish;
    SettledCommand(s, CmdStart);
    SettledCommand(s, CmdPauseSimulation);
    SettledCommand(s, CmdReset);
    if reason.Requested? {
      SettledCommand(s, CmdFinish(reason.message));
    }
  }

  lemma NewNodeName(def: NodeDefinition, tick: int)
    ensures NewNode(def, tick).Some? ==> NewNode(def, tick).value.id == def.id
  {
  }

  /** Node lists name known processes, each once. */
  lemma ListsKnown(s: C.State, phase: Invariants.Phase)
    requires Invariants.Inv(s, {}, phase) || Settled(s)
    ensures forall n | n in s.nodes ::
      NoDuplicates(s.nodes[n].running) && forall p | p in s.nodes[n].running :: p in s.processes
  {
    assert forall n | n in s.nodes :: Placement.NodeOk(s.nodes[n], n, s.processes, {});
  }

  lemma ReleaseKeepsTick(s: C.State, id: Id)
    requires id in s.processes
    ensures C.Release(s, id).state.tick == s.tick
  {
  }

  /** `failProcessLocked` up to the transition. */
  function Detached(s: C.State, id: Id): C.Reply
    requires id in s.processes
  {
    var p := s.processes[id];
    if p.state == Running && p.nodeId != NO_ID then
      if p.nodeId in s.nodes && s.nodes[p.nodeId].status != NodeFailed then C.Release(s, id)
      else C.Reply(s.(processes := s.processes[id := p.(nodeId := NO_ID)]), Nil)
    else C.Reply(s, Nil)
  }

  lemma FailureForm(s: C.State, id: Id)
    requires id in s.processes && !s.processes[id].state.IsTerminal()
    ensures id in Detached(s, id).state.processes
    ensures C.FailProcessLocked(s, id) ==
      var r := Detached(s, id);
      if r.error != Nil then r
      else if !r.state.processes[id].state.CanBecome(Failed) then C.Reply(r.state, InvalidStateTransition)
      else C.FailedReply(r.state, r.state.processes[id].(state := Failed), id, s.processes[id].nodeId)
  {
    hide C.FailedReply;
  }

  /** What follows once a failed process is marked and announced. */
  function AfterFailed(s: C.State, q: Process, id: Id): C.State {
    if q.CanRestart() then
      var q' := q.(restartCount := q.restartCount + 1, remainingTicks := q.totalTicks,
                   finishedAt := None, state := Ready, lastReadyAt := s.tick);
      C.Emit(s.(processes := s.processes[id := q']), Restarted, id, NO_ID)
    else s.(processes := s.processes[id := q.(finishedAt := Some(s.tick))])
  }

  lemma FailedForm(s: C.State, q: Process, id: Id, nodeId: Id)
    requires q.state == Failed
    ensures C.FailedReply(s, q, id, nodeId)
         == C.Reply(AfterFailed(C.Emit(s.(processes := s.processes[id := q]), FailedEvent, id, nodeId), q, id), Nil)
  {
  }

  lemma AlreadyDown(s: C.State, id: Id)
    ensures id in s.nodes && s.nodes[id].status == NodeFailed ==>
      C.FailNodeLocked(s, id) == C.Reply(s, InvalidStateTransition)
  {
  }

  lemma FailNodeForm(s: C.State, id: Id)
    requires id in s.nodes && s.nodes[id].status != NodeFailed
    ensures C.FailNodeLocked(s, id)
         == C.FailHosted(C.MarkNodeFailed(s, s.nodes[id], id), SortedIds(Elements(s.nodes[id].running)))
  {
  }

  /** `applyScheduledLocked` up to the failures. */
  ghost function SubmitDue(s: C.State): C.Reply {
    var due := C.DueSubmissions(s, s.tick);
    if |due| > 0 then
      var r := C.SubmitAll(s, C.SortDefinitions(due));
      if r.error != Nil then r else C.Reply(r.state.(pending := r.state.pending - {s.tick}), Nil)
    else C.Reply(s, Nil)
  }

  lemma DueForm(s: C.State)
    requires Invariants.Inv(s, {}, MID) && SubmitDue(s).error == Nil
    ensures var t := SubmitDue(s).state;
      && Invariants.Inv(t, {}, MID) && t.tick == s.tick && t.failures == s.failures
      && C.ApplyScheduled(s) ==
           var r := C.ApplyFailures(t, C.DueFailures(t, t.tick));
           if r.error != Nil then r else C.Reply(r.state.(failures := r.state.failures - {s.tick}), Nil)
  {
    hide Invariants.Inv, C.SubmitAll, C.ApplyFailures, C.SortDefinitions;
    var due := C.DueSubmissions(s, s.tick);
    Tick.SubmitAllKeeps(s, C.SortDefinitions(due));
    var r := C.SubmitAll(s, C.SortDefinitions(due));
    Tick.StatusIsFree(r.state, {}, MID, r.state.(pending := r.state.pending - {s.tick}));
  }

  /** An iteration of the scheduling loop from the choice of a node on. */
  ghost function PlaceOn(s: C.State, p: Process, nodeId: Id): C.State
    requires nodeId in s.nodes
  {
    var (n, error) := s.nodes[nodeId].Allocate(p);
    if error != Nil then C.Defer(s, p, nodeId)
    else if !p.state.CanBecome(Running) then s.(nodes := s.nodes[nodeId := n.Release(p).0])
    else C.Place(s, p, n, nodeId)
  }

  lemma ScheduleForm(s: C.State, p: Process)
    ensures var (choice, policy) := Select(s.policy, p, C.Snapshots(s.nodes));
      var s1 := s.(policy := policy);
      C.ScheduleOne(s, p) == if choice.None? then C.Defer(s1, p, NO_ID)
                             else if choice.value !in s.nodes then C.Defer(s1, p, choice.value)
                             else PlaceOn(s1, p, choice.value)
  {
    hide Select, C.Snapshots, C.Defer, C.Emit;
  }

  lemma DeferKeepsNodes(s: C.State, p: Process, nodeId: Id)
    ensures C.Defer(s, p, nodeId).nodes == s.nodes
  {
  }

  lemma Overwritten(nodes: map<Id, Node>, id: Id, n: Node, m: Node)
    ensures nodes[id := n][id := m] == nodes[id := m]
  {
  }

  lemma FailedRelease(nodes: map<Id, Node>, id: Id, p: Process)
    requires id in nodes && nodes[id].Release(p).1 != Nil
    ensures nodes[id := nodes[id].Release(p).0] == nodes
  {
  }

  lemma SameSnapshots(nodes: map<Id, Node>, id: Id, n: Node)
    requires id in nodes && n.Snapshot() == nodes[id].Snapshot()
    ensures C.Snapshots(nodes[id := n]) == C.Snapshots(nodes)
  {
    forall x | x in C.Snapshots(nodes) ensures x in C.Snapshots(nodes[id := n]) {
      var m :| m in nodes && x == nodes[m].Snapshot();
      assert nodes[id := n][m].Snapshot() == x;
    }
  }

  /** Undoing an allocation gives back what was taken. */
  lemma UndoneAllocation(n: Node, p: Process)
    requires 0 <= n.cpuAllocated && 0 <= n.memoryAllocated && n.Allocate(p).1 == Nil
    ensures n.Allocate(p).0.Release(p).0.Snapshot() == n.Snapshot()
  {
    assert (n.running + [p.id])[|n.running|] == p.id;
  }

  /** The cached snapshots stay a true picture of the nodes. */
  lemma PlaceTracks(s: C.State, p: Process, nodeId: Id, cached: seq<NodeSnapshot>, after: seq<NodeSnapshot>)
    requires nodeId in s.nodes && OwnNodeNames(s.nodes)
    requires 0 <= s.nodes[nodeId].cpuAllocated && 0 <= s.nodes[nodeId].memoryAllocated
    requires Candidates(cached) && Elements(cached) == C.Snapshots(s.nodes)
    requires if s.nodes[nodeId].Allocate(p).1 == Nil && p.state.CanBecome(Running)
             then Refreshed(cached, after, PlaceOn(s, p, nodeId).nodes[nodeId].Snapshot()) else after == cached
    ensures Candidates(after) && Elements(after) == C.Snapshots(PlaceOn(s, p, nodeId).nodes)
  {
    hide Candidates, C.Snapshots, Refreshed;
    var n := s.nodes[nodeId];
    if n.Allocate(p).1 == Nil {
      if p.state.CanBecome(Running) {
        RefreshTracks(s.nodes, cached, nodeId, n.Allocate(p).0, after);
      } else {
        UndoneAllocation(n, p);
        SameSnapshots(s.nodes, nodeId, n.Allocate(p).0.Release(p).0);
      }
    }
  }

  lemma QueueIsOk(s: C.State)
    requires Invariants.Inv(s, {}, MID)
    ensures QueueOk(s, C.ReadyQueue(s))
  {
    ReadyQueueOk(s);
  }

  lemma QueueHead(s: C.State, queue: seq<Process>)
    requires QueueOk(s, queue) && queue != []
    ensures queue[0].id in s.processes && s.processes[queue[0].id] == queue[0]
  {
  }

  /** A tick after its scheduled actions. */
  ghost function Phases(s: C.State): C.Reply {
    var t := C.StopIfDone(C.ExecuteRunning(C.SampleUtilization(C.ScheduleReady(C.DetectMissedHeartbeats(s)))));
    if !C.InvariantsHold(t.nodes, t.processes) then C.Reply(t, InvalidInput) else C.Reply(t, Nil)
  }

  lemma AttemptForm(s: C.State)
    requires Settled(s)
    ensures var r := C.ApplyScheduled(C.BeginTick(s));
      && Invariants.Inv(C.BeginTick(s), {}, MID) && Invariants.Inv(r.state, {}, MID)
      && C.Attempt(s) == if r.error != Nil then r else Phases(r.state)
    ensures s.events <= C.Attempt(s).state.events
  {
    hide Invariants.Inv, Invariants.Valid, C.BeginTick, C.ApplyScheduled, C.DetectMissedHeartbeats, C.ScheduleReady,
         C.SampleUtilization, C.ExecuteRunning, C.StopIfDone, C.InvariantsHold;
    Tick.BeginTickKeeps(s);
    Tick.ApplyScheduledKeeps(C.BeginTick(s));
    AppendOnly.AttemptExtends(s);
  }

  lemma StepSettles(s: C.State)
    requires Settled(s)
    ensures Settled(C.Step(s).state)
    ensures s.status == Completed ==> C.Step(s) == C.Reply(s, InvalidStateTransition)
    ensures s.status != Completed ==>
      C.Step(s) == var r := C.Attempt(s);
        if r.error != Nil then C.Reply(C.Rollback(s, r.state), r.error) else r
  {
    hide Settled, C.Attempt;
    SettledTick(s);
  }

  lemma SchedulerSettles(s: C.State, name: SchedulerName)
    requires Settled(s)
    ensures Settled(C.SetScheduler(s, name).state)
  {
    hide Settled, C.SetScheduler;
    SettledCommand(s, CmdSetScheduler(name));
  }

  lemma LoopEnds(s: C.State)
    ensures C.StepLoop(s, 0) == C.Reply(s, Nil)
  {
  }

  ghost predicate PreparedNames(p: Prepared) {
    OwnNodeNames(p.nodes) && OwnNames(p.processes)
  }

  lemma PreparedFacts(sc: Scenario, maxNodes: int, maxProcesses: int)
    ensures var (p, e) := Prepare(sc, maxNodes, maxProcesses);
      && (p.Some? ==> e == Nil && PreparedNames(p.value) && exists name :: NewScheduler(name) == Some(p.value.policy))
      && (p.None? ==> e != Nil)
  {
    hide Validate;
    Loading.PrepareErrors(sc, maxNodes, maxProcesses);
    Loading.PrepareOk(sc, maxNodes, maxProcesses);
    var (p, e) := Prepare(sc, maxNodes, maxProcesses);
    if p.Some? {
      assert forall n | n in p.value.nodes :: Loading.NewNodeOk(p.value.nodes[n], n);
      assert forall id | id in p.value.processes :: Loading.NewProcessOk(p.value.processes[id], id);
      assert NewScheduler(sc.scheduler) == Some(p.value.policy);
    }
  }

  lemma LoadSettles(s: C.State, sc: Scenario)
    requires Settled(s)
    ensures Settled(Scenarios.LoadScenario(s, sc).state)
  {
    hide Settled, Scenarios.LoadScenario;
    SettledCommand(s, CmdLoadScenario(sc));
  }

  lemma InstallForm(s: C.State, p: Prepared)
    ensures Loading.Bare(s, p).nodes.Keys == p.nodes.Keys && Loading.Bare(s, p).processes.Keys == p.processes.Keys
    ensures Install(s, p) ==
      C.Emit(EmitProcesses(EmitNodes(Loading.Bare(s, p), SortedIds(p.nodes.Keys)), SortedIds(p.processes.Keys)),
             ScenarioLoaded, NO_ID, NO_ID)
  {
    hide EmitNodes, EmitProcesses, C.Emit;
  }

  lemma NodeNames(nodes: map<Id, LiveNode>)
    ensures OwnNodeNames(NodeViews(nodes)) ==> forall n | n in nodes :: nodes[n].id == n
  {
    assert forall n | n in nodes :: NodeViews(nodes)[n].id == nodes[n].id;
  }

  lemma ProcessNames(processes: map<Id, LiveProcess>)
    ensures OwnNames(ProcessViews(processes)) ==> forall p | p in processes :: processes[p].id == p
  {
    assert forall p | p in processes :: ProcessViews(processes)[p].id == processes[p].id;
  }

  lemma EmitKeeps(s: C.State, kind: EventKind, process: Id, node: Id)
    ensures var t := C.Emit(s, kind, process, node);
      t == s.(events := t.events, sequence := t.sequence)
  {
  }

  ghost function Footprint(saved: LiveCluster): set<object>
    reads saved
  {
    {saved} + saved.nodes.Values + saved.processes.Values
  }

  /** A saved cluster record holds the values of a state. */
  ghost predicate Copies(saved: LiveCluster, s: C.State)
    reads saved, saved.nodes.Values, saved.processes.Values
  {
    && NodeViews(saved.nodes) == s.nodes && ProcessViews(saved.processes) == s.processes
    && saved.currentTick == s.tick && saved.status == s.status && saved.reason == s.reason
    && saved.maxTicks == s.maxTicks && saved.stats == s.stats
  }
}
