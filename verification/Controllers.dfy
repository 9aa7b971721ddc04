/** The controller of internal/cluster: the object whose methods change the cluster in place.
    `View` is the state the specification functions talk about; every method is proved to change
    it exactly as its specification says, whatever order tables are ranged over in. */
module Controllers {
  import opened Domain
  import opened Ordering
  import opened Schedulers
  import opened Objects
  import opened LiveSchedulers
  import opened Scenarios
  import opened Runs
  import Placement
  import Invariants
  import Failures
  import Tick
  import Sums
  import AppendOnly
  import Atomicity
  import Loading
  import opened ScenarioLoops
  import opened CommandForms
  import opened Scheduling
  import opened Checks
  import opened Sampling
  import opened Collecting
  import C = Cluster

  class Controller {
    var state: LiveCluster
    var scheduler: Scheduler
    var events: seq<Event>
    var eventSequence: nat
    var pending: map<int, seq<ProcessDefinition>>
    var failures: map<int, seq<FailureDefinition>>
    const heartbeatTimeout: int
    const maxNodes: int
    const maxProcesses: int

    constructor (scheduler: Scheduler, heartbeatTimeout: int, maxNodes: int, maxProcesses: int)
      ensures Owned() && fresh(Repr() - scheduler.Parts())
      ensures View() == C.Fresh(scheduler.AsPolicy(), heartbeatTimeout, maxNodes, maxProcesses)
    {
      this.state := new LiveCluster();
      this.scheduler, this.heartbeatTimeout := scheduler, heartbeatTimeout;
      this.maxNodes, this.maxProcesses := maxNodes, maxProcesses;
      this.events, this.eventSequence, this.pending, this.failures := [], 0, map[], map[];
    }

    // ---------------------------------------------------------------- the view

    ghost function Repr(): set<object>
      reads this, state
    {
      {this, state} + state.nodes.Values + state.processes.Values + scheduler.Parts()
    }

    function View(): C.State
      reads this, state, state.nodes.Values, state.processes.Values, scheduler.Parts()
    {
      C.State(NodeViews(state.nodes), ProcessViews(state.processes), state.currentTick, state.status, state.reason,
              state.maxTicks, state.stats, events, eventSequence, pending, failures, scheduler.AsPolicy(),
              heartbeatTimeout, maxNodes, maxProcesses)
    }

    ghost predicate Owned()
      reads this, state
    {
      state.Owned()
    }

    /** What holds between commands. */
    ghost predicate Valid()
      reads this, state, Repr()
    {
      Owned() && Settled(View())
    }

    /** The same objects as before, still each under its own name. */
    twostate predicate Kept()
      reads this, state
    {
      && Owned()
      && state == old(state) && scheduler == old(scheduler)
      && state.nodes == old(state.nodes) && state.processes == old(state.processes)
      && Repr() == old(Repr())
    }

    ghost predicate Holds(process: LiveProcess)
      reads this, state
    {
      process.id in state.processes && state.processes[process.id] == process
    }

    ghost predicate HoldsNode(node: LiveNode)
      reads this, state
    {
      node.id in state.nodes && state.nodes[node.id] == node
    }

    lemma Records()
      ensures View().processes.Keys == state.processes.Keys && View().nodes.Keys == state.nodes.Keys
      ensures forall p | p in state.processes :: View().processes[p] == state.processes[p].View()
      ensures forall n | n in state.nodes :: View().nodes[n] == state.nodes[n].View()
    {
    }

    lemma Settings()
      ensures View().maxNodes == maxNodes && View().maxProcesses == maxProcesses
      ensures View().heartbeatTimeout == heartbeatTimeout && View().status == state.status
          && View().reason == state.reason
      ensures View().tick == state.currentTick && View().maxTicks == state.maxTicks && View().stats == state.stats
      ensures View().pending == pending && View().failures == failures && View().policy == scheduler.AsPolicy()
      ensures View().events == events && View().sequence == eventSequence
    {
    }

    lemma Named()
      requires Owned()
      ensures OwnNodeNames(View().nodes) && OwnNames(View().processes)
    {
    }

    lemma Sizes()
      ensures |View().processes| == |state.processes| && |View().nodes| == |state.nodes|
    {
      assert View().processes.Keys == state.processes.Keys && View().nodes.Keys == state.nodes.Keys;
    }

    lemma Record(process: LiveProcess)
      requires Holds(process)
      ensures process.id in View().processes && View().processes[process.id] == process.View()
    {
    }

    // ---------------------------------------------------------------- one write at a time

    method EmitLocked(kind: EventKind, process: Id, node: Id)
      requires Owned()
      modifies `events, `eventSequence
      ensures Kept() && View() == C.Emit(old(View()), kind, process, node)
    {
      hide NodeViews, ProcessViews, LiveNode.View, LiveProcess.View;
      eventSequence := eventSequence + 1;
      events := events + [Event(eventSequence, state.currentTick, kind, process, node)];
    }

    method SetStatus(status: SimulationStatus, reason: FinishReason)
      requires Owned()
      modifies state
      ensures Kept() && View() == old(View()).(status := status, reason := reason)
    {
      hide NodeViews, ProcessViews, LiveNode.View, LiveProcess.View;
      state.status, state.reason := status, reason;
    }

    method SetStatistics(stats: C.Statistics)
      requires Owned()
      modifies state
      ensures Kept() && View() == old(View()).(stats := stats)
    {
      hide NodeViews, ProcessViews, LiveNode.View, LiveProcess.View;
      state.stats := stats;
    }

    method Transition(process: LiveProcess, to: ProcessState) returns (error: Error)
      requires Owned() && Holds(process)
      modifies process
      ensures Kept()
      ensures error == if old(process.state).CanBecome(to) then Nil else InvalidStateTransition
      ensures process.View() == if error == Nil then old(process.View()).(state := to) else old(process.View())
      ensures View() == if error != Nil then old(View())
                        else old(View()).(processes := old(View()).processes[process.id := process.View()])
    {
      hide NodeViews, ProcessViews, LiveNode.View, LiveProcess.View;
      ProcessViewsAre(state.processes);
      ghost var before := ProcessViews(state.processes);
      error := process.Transition(to);
      OneProcessWritten(state.processes, before, process.id);
      assert before[process.id := before[process.id]] == before;
    }

    method Store(process: LiveProcess, r: Process)
      requires Owned() && Holds(process) && Follows(r, process.View())
      modifies process
      ensures Kept() && process.View() == r
      ensures View() == old(View()).(processes := old(View()).processes[process.id := r])
    {
      hide NodeViews, ProcessViews, LiveNode.View, LiveProcess.View;
      ProcessViewsAre(state.processes);
      ghost var before := ProcessViews(state.processes);
      process.Store(r);
      OneProcessWritten(state.processes, before, process.id);
    }

    /** A transition, and the fields that are set with it. */
    method MoveTo(process: LiveProcess, to: ProcessState, r: Process) returns (error: Error)
      requires Owned() && Holds(process) && Follows(r, process.View()) && r.state == to
      modifies process
      ensures Kept()
      ensures error == if old(process.state).CanBecome(to) then Nil else InvalidStateTransition
      ensures process.View() == if error == Nil then r else old(process.View())
      ensures View() == if error != Nil then old(View())
                        else old(View()).(processes := old(View()).processes[process.id := r])
    {
      hide NodeViews, ProcessViews, LiveNode.View, LiveProcess.View;
      ProcessViewsAre(state.processes);
      ghost var before := ProcessViews(state.processes);
      error := process.MoveTo(to, r);
      OneProcessWritten(state.processes, before, process.id);
      assert before[process.id := before[process.id]] == before;
    }

    method ReleaseFrom(node: LiveNode, p: Process) returns (error: Error)
      requires Owned() && HoldsNode(node)
      modifies node
      ensures Kept()
      ensures error == old(node.View()).Release(p).1
      ensures View() == if error != Nil then old(View())
                        else old(View()).(nodes := old(View()).nodes[node.id := old(node.View()).Release(p).0])
    {
      hide NodeViews, ProcessViews, LiveNode.View, LiveProcess.View;
      NodeViewsAre(state.nodes);
      ghost var before := NodeViews(state.nodes);
      error := node.Release(p);
      OneNodeWritten(state.nodes, before, node.id);
      assert before[node.id := before[node.id]] == before;
    }

    method AllocateOn(node: LiveNode, p: Process) returns (error: Error)
      requires Owned() && HoldsNode(node)
      modifies node
      ensures Kept()
      ensures error == old(node.View()).Allocate(p).1
      ensures View() == if error != Nil then old(View())
                        else old(View()).(nodes := old(View()).nodes[node.id := old(node.View()).Allocate(p).0])
    {
      hide NodeViews, ProcessViews, LiveNode.View, LiveProcess.View;
      NodeViewsAre(state.nodes);
      ghost var before := NodeViews(state.nodes);
      error := node.Allocate(p);
      OneNodeWritten(state.nodes, before, node.id);
      assert before[node.id := before[node.id]] == before;
    }

    method TakeDown(node: LiveNode)
      requires Owned() && HoldsNode(node)
      modifies node
      ensures Kept()
      ensures node.View()
           == old(node.View()).(status := NodeFailed, cpuAllocated := 0, memoryAllocated := 0, running := [])
      ensures View() == old(View()).(nodes := old(View()).nodes[node.id := node.View()])
    {
      hide NodeViews, ProcessViews, LiveNode.View, LiveProcess.View;
      NodeViewsAre(state.nodes);
      ghost var before := NodeViews(state.nodes);
      node.GoDown();
      OneNodeWritten(state.nodes, before, node.id);
    }

    method SetNode(node: LiveNode, status: NodeStatus, lastHeartbeat: int)
      requires Owned() && HoldsNode(node)
      modifies node
      ensures Kept()
      ensures node.View() == old(node.View()).(status := status, lastHeartbeat := lastHeartbeat)
      ensures View() == old(View()).(nodes := old(View()).nodes[node.id := node.View()])
    {
      hide NodeViews, ProcessViews, LiveNode.View, LiveProcess.View;
      NodeViewsAre(state.nodes);
      ghost var before := NodeViews(state.nodes);
      node.Mark(status, lastHeartbeat);
      OneNodeWritten(state.nodes, before, node.id);
    }

    /** A new record, made READY, in an object of its own. */
    method FreshProcess(r: Process) returns (process: LiveProcess)
      requires Owned() && r.state == New
      ensures Kept() && View() == old(View())
      ensures fresh(process) && process.View() == r.(state := Ready)
    {
      hide NodeViews, ProcessViews, LiveNode.View, LiveProcess.View;
      process := MakeReady(r);
    }

    method FreshNode(r: Node) returns (node: LiveNode)
      requires Owned()
      ensures Kept() && View() == old(View())
      ensures fresh(node) && node.View() == r
    {
      hide NodeViews, ProcessViews, LiveNode.View, LiveProcess.View;
      node := new LiveNode(r);
    }

    method AddProcess(process: LiveProcess)
      requires Owned() && process.id !in state.processes && process !in state.processes.Values
      modifies state
      ensures Owned() && state == old(state) && Repr() == old(Repr()) + {process}
      ensures scheduler == old(scheduler) && state.nodes == old(state.nodes)
      ensures View() == old(View()).(processes := old(View()).processes[process.id := process.View()])
    {
      hide NodeViews, ProcessViews, LiveNode.View, LiveProcess.View;
      ProcessViewsAre(state.processes);
      OneProcessAdded(state.processes, ProcessViews(state.processes), process.id, process);
      ValuesGrow(state.processes, process.id, process);
      state.processes := state.processes[process.id := process];
      assert Repr() == old(Repr()) + {process};
    }

    method AddNode(node: LiveNode)
      requires Owned() && node.id !in state.nodes && node !in state.nodes.Values
      modifies state
      ensures Owned() && state == old(state) && Repr() == old(Repr()) + {node}
      ensures scheduler == old(scheduler) && state.processes == old(state.processes)
      ensures View() == old(View()).(nodes := old(View()).nodes[node.id := node.View()])
    {
      hide NodeViews, ProcessViews, LiveNode.View, LiveProcess.View;
      NodeViewsAre(state.nodes);
      OneNodeAdded(state.nodes, NodeViews(state.nodes), node.id, node);
      ValuesGrow(state.nodes, node.id, node);
      state.nodes := state.nodes[node.id := node];
      assert Repr() == old(Repr()) + {node};
    }

    // ---------------------------------------------------------------- processes

    method ReleaseLocked(process: LiveProcess) returns (error: Error)
      requires Owned() && Holds(process)
      modifies Repr()
      ensures Kept()
      ensures C.Reply(View(), error) == C.Release(old(View()), process.id)
    {
      hide View, LiveNode.View, Node.Release;
      Records();
      var nodeId := process.nodeId;
      if nodeId !in state.nodes {
        return NodeNotFound;
      }
      var node := state.nodes[nodeId];
      error := ReleaseFrom(node, process.View());
      if error != Nil {
        return;
      }
      Store(process, process.View().(nodeId := NO_ID));
      EmitLocked(Released, process.id, nodeId);
    }

    method UnloadLocked(process: LiveProcess) returns (error: Error)
      requires Owned() && Holds(process)
      modifies Repr()
      ensures Kept()
      ensures C.Reply(View(), error) == if old(process.state) == Running then C.Release(old(View()), process.id)
                                        else C.Reply(old(View()), Nil)
    {
      error := Nil;
      if process.state == Running {
        error := ReleaseLocked(process);
      }
    }

    method SubmitProcessLocked(def: ProcessDefinition) returns (error: Error)
      requires Owned()
      modifies Repr()
      ensures Owned() && state == old(state) && scheduler == old(scheduler) && fresh(Repr() - old(Repr()))
      ensures C.Reply(View(), error) == C.Submit(old(View()), def)
    {
      hide View, NewProcess, C.Emit, LiveNode.View;
      NewIsNew(def, state.currentTick);
      Records();
      Sizes();
      Settings();
      if |state.processes| >= maxProcesses {
        return InvalidInput;
      }
      var made := NewProcess(def, state.currentTick);
      if made.None? {
        return InvalidInput;
      }
      if made.value.id in state.processes {
        return DuplicateProcess;
      }
      var process := FreshProcess(made.value);
      AddProcess(process);
      AnnounceLocked(process.id);
      error := Nil;
    }

    /** A submission wakes up a completed simulation. */
    method AnnounceLocked(id: Id)
      requires Owned()
      modifies this, state
      ensures Kept()
      ensures View() == C.Emit(if old(View()).status == Completed
                               then old(View()).(status := Idle, reason := Unfinished)
                               else old(View()), Submitted, id, NO_ID)
    {
      Settings();
      if state.status == Completed {
        SetStatus(Idle, Unfinished);
      }
      EmitLocked(Submitted, id, NO_ID);
    }

    method SubmitProcess(def: ProcessDefinition) returns (error: Error)
      requires Valid()
      modifies Repr()
      ensures Valid() && state == old(state) && scheduler == old(scheduler) && fresh(Repr() - old(Repr()))
      ensures C.Reply(View(), error) == C.Submit(old(View()), def)
    {
      hide View, Settled, C.Submit;
      SubmitSettles(View(), def);
      error := SubmitProcessLocked(def);
    }

    method PauseProcess(id: Id) returns (error: Error)
      requires Valid()
      modifies Repr()
      ensures Valid() && Kept()
      ensures C.Reply(View(), error) == C.PauseProcess(old(View()), id)
    {
      hide View, C.Release, C.Emit, Settled;
      ProcessCommandsSettle(View(), id);
      Records();
      if id !in state.processes {
        return ProcessNotFound;
      }
      var process := state.processes[id];
      if process.state != Running {
        return InvalidStateTransition;
      }
      error := ReleaseLocked(process);
      if error != Nil {
        return;
      }
      Record(process);
      error := Transition(process, Paused);
      if error != Nil {
        return;
      }
      EmitLocked(PausedEvent, process.id, NO_ID);
    }

    method WaitProcess(id: Id) returns (error: Error)
      requires Valid()
      modifies Repr()
      ensures Valid() && Kept()
      ensures C.Reply(View(), error) == C.WaitProcess(old(View()), id)
    {
      hide View, C.Release, C.Emit, Settled;
      ProcessCommandsSettle(View(), id);
      Records();
      if id !in state.processes {
        return ProcessNotFound;
      }
      var process := state.processes[id];
      if process.state != Running {
        return InvalidStateTransition;
      }
      error := ReleaseLocked(process);
      if error != Nil {
        return;
      }
      Record(process);
      error := Transition(process, Waiting);
      if error != Nil {
        return;
      }
      EmitLocked(WaitingEvent, process.id, NO_ID);
    }

    method ResumeProcess(id: Id) returns (error: Error)
      requires Valid()
      modifies Repr()
      ensures Valid() && Kept()
      ensures C.Reply(View(), error) == C.ResumeProcess(old(View()), id)
    {
      hide View, C.Emit, Settled;
      ProcessCommandsSettle(View(), id);
      Records();
      if id !in state.processes {
        return ProcessNotFound;
      }
      var process := state.processes[id];
      if process.state != Paused {
        return InvalidStateTransition;
      }
      error := RequeueLocked(process, Resumed);
    }

    method WakeProcess(id: Id) returns (error: Error)
      requires Valid()
      modifies Repr()
      ensures Valid() && Kept()
      ensures C.Reply(View(), error) == C.WakeProcess(old(View()), id)
    {
      hide View, C.Emit, Settled;
      ProcessCommandsSettle(View(), id);
      Records();
      if id !in state.processes {
        return ProcessNotFound;
      }
      var process := state.processes[id];
      if process.state != Waiting {
        return InvalidStateTransition;
      }
      error := RequeueLocked(process, IOCompleted);
    }

    /** Back to the ready queue. */
    method RequeueLocked(process: LiveProcess, kind: EventKind) returns (error: Error)
      requires Owned() && Holds(process)
      modifies Repr()
      ensures Kept()
      ensures C.Reply(View(), error) == C.Requeue(old(View()), process.id, old(process.state), kind)
    {
      hide View, C.Emit;
      Record(process);
      error := MoveTo(process, Ready, process.View().(state := Ready, lastReadyAt := Now()));
      if error != Nil {
        return;
      }
      EmitLocked(kind, process.id, NO_ID);
    }

    /** `c.state.CurrentTick`. */
    function Now(): (tick: int)
      reads this, state, Repr()
      ensures tick == View().tick
    {
      state.currentTick
    }

    method KillProcess(id: Id) returns (error: Error)
      requires Valid()
      modifies Repr()
      ensures Valid() && Kept()
      ensures C.Reply(View(), error) == C.KillProcess(old(View()), id)
    {
      hide View, C.Release, C.Emit, Settled;
      ProcessCommandsSettle(View(), id);
      Records();
      if id !in state.processes {
        return ProcessNotFound;
      }
      var process := state.processes[id];
      if process.state.IsTerminal() {
        return InvalidStateTransition;
      }
      ReleaseKeepsTick(View(), id);
      error := UnloadLocked(process);
      if error != Nil {
        return;
      }
      Record(process);
      error := MoveTo(process, Killed, process.View().(state := Killed, finishedAt := Some(Now())));
      if error != Nil {
        return;
      }
      EmitLocked(KilledEvent, process.id, NO_ID);
    }

    // ---------------------------------------------------------------- failures

    /** Off its node, if that is still up. */
    method DetachLocked(process: LiveProcess) returns (error: Error)
      requires Owned() && Holds(process)
      modifies Repr()
      ensures Kept()
      ensures C.Reply(View(), error) == Detached(old(View()), process.id)
    {
      hide View, C.Release;
      Records();
      error := Nil;
      if process.state == Running && process.nodeId != NO_ID {
        if process.nodeId in state.nodes && state.nodes[process.nodeId].status != NodeFailed {
          error := ReleaseLocked(process);
        } else {
          Store(process, process.View().(nodeId := NO_ID));
        }
      }
    }

    method FailProcessLocked(process: LiveProcess) returns (error: Error)
      requires Owned() && Holds(process)
      modifies Repr()
      ensures Kept()
      ensures C.Reply(View(), error) == C.FailProcessLocked(old(View()), process.id)
    {
      hide View, C.Emit, C.FailedReply, Detached;
      Record(process);
      if process.state.IsTerminal() {
        return InvalidStateTransition;
      }
      var nodeId := process.nodeId;
      FailureForm(View(), process.id);
      error := DetachLocked(process);
      if error != Nil {
        return;
      }
      Record(process);
      if !process.state.CanBecome(Failed) {
        return InvalidStateTransition;
      }
      error := MarkFailedLocked(process, nodeId);
    }

    /** Queued again after a failure, or finished. */
    method RestartLocked(process: LiveProcess)
      requires Owned() && Holds(process) && process.state == Failed
      modifies Repr()
      ensures Kept()
      ensures View() == AfterFailed(old(View()), old(process.View()), process.id)
    {
      hide View, C.Emit, LiveNode.View;
      Record(process);
      var p := process.View();
      if p.CanRestart() {
        var _ := MoveTo(process, Ready, p.(restartCount := p.restartCount + 1, remainingTicks := p.totalTicks,
                                           finishedAt := None, state := Ready, lastReadyAt := Now()));
        EmitLocked(Restarted, process.id, NO_ID);
      } else {
        Store(process, p.(finishedAt := Some(Now())));
      }
    }

    method MarkFailedLocked(process: LiveProcess, nodeId: Id) returns (error: Error)
      requires Owned() && Holds(process) && process.state.CanBecome(Failed)
      modifies Repr()
      ensures Kept()
      ensures C.Reply(View(), error)
           == C.FailedReply(old(View()), old(process.View()).(state := Failed), process.id, nodeId)
    {
      hide View, C.Emit, LiveNode.View, AfterFailed, C.FailedReply;
      Record(process);
      FailedForm(View(), process.View().(state := Failed), process.id, nodeId);
      error := Transition(process, Failed);
      EmitLocked(FailedEvent, process.id, nodeId);
      RestartLocked(process);
    }

    method FailNodeLocked(node: LiveNode) returns (error: Error)
      requires Owned() && HoldsNode(node) && NoDuplicates(node.running)
      requires forall p | p in node.running :: p in state.processes
      modifies Repr()
      ensures Kept()
      ensures C.Reply(View(), error) == C.FailNodeLocked(old(View()), node.id)
    {
      hide View, C.Emit, C.FailHosted, C.MarkNodeFailed;
      AlreadyDown(View(), node.id);
      Records();
      if node.status == NodeFailed {
        return InvalidStateTransition;
      }
      var runningIds := SortIds(node.running);
      ghost var n := node.View();
      assert View().nodes[node.id] == n && forall p | p in runningIds :: p in n.running;
      FailNodeForm(View(), node.id);
      MarkDownLocked(node);
      error := FailHostedLocked(runningIds);
    }

    method MarkDownLocked(node: LiveNode)
      requires Owned() && HoldsNode(node)
      modifies Repr()
      ensures Kept()
      ensures View() == C.MarkNodeFailed(old(View()), old(node.View()), node.id)
    {
      hide View, C.Emit;
      TakeDown(node);
      Settings();
      SetStatistics(state.stats.(nodeFailures := state.stats.nodeFailures + 1));
      EmitLocked(NodeDown, NO_ID, node.id);
    }

    /** Every process the node was running fails, in the order of names. */
    method FailHostedLocked(ids: seq<Id>) returns (error: Error)
      requires Owned() && forall p | p in ids :: p in state.processes
      modifies Repr()
      ensures Kept()
      ensures C.Reply(View(), error) == C.FailHosted(old(View()), ids)
    {
      hide View, C.FailProcessLocked;
      error := Nil;
      for i := 0 to |ids|
        invariant Kept()
        invariant error == Nil && C.FailHosted(View(), ids[i..]) == C.FailHosted(old(View()), ids)
      {
        var process := state.processes[ids[i]];
        assert ids[i..][0] == ids[i] && ids[i..][1..] == ids[i + 1..];
        Record(process);
        Store(process, process.View().(nodeId := NO_ID));
        error := FailProcessLocked(process);
        if error != Nil {
          return;
        }
      }
      assert ids[|ids|..] == [];
    }

    method FailProcess(id: Id) returns (error: Error)
      requires Valid()
      modifies Repr()
      ensures Valid() && Kept()
      ensures C.Reply(View(), error) == C.FailProcess(old(View()), id)
    {
      hide View, C.FailProcessLocked, Settled;
      ProcessCommandsSettle(View(), id);
      Records();
      if id !in state.processes {
        return ProcessNotFound;
      }
      error := FailProcessLocked(state.processes[id]);
    }

    // ---------------------------------------------------------------- nodes

    method RegisterNode(def: NodeDefinition) returns (error: Error)
      requires Valid()
      modifies Repr()
      ensures Valid() && state == old(state) && scheduler == old(scheduler) && fresh(Repr() - old(Repr()))
      ensures C.Reply(View(), error) == C.RegisterNode(old(View()), def)
    {
      hide View, NewNode, C.Emit, Settled;
      RegisterSettles(View(), def);
      NewNodeName(def, state.currentTick);
      Records();
      Sizes();
      Settings();
      if |state.nodes| >= maxNodes {
        return InvalidInput;
      }
      var made := NewNode(def, state.currentTick);
      if made.None? {
        return InvalidInput;
      }
      if made.value.id in state.nodes {
        return DuplicateNode;
      }
      var node := FreshNode(made.value);
      AddNode(node);
      EmitLocked(NodeRegistered, NO_ID, node.id);
      error := Nil;
    }

    method RemoveNode(id: Id) returns (error: Error)
      requires Valid()
      modifies Repr()
      ensures Valid() && state == old(state) && scheduler == old(scheduler) && Repr() <= old(Repr())
      ensures C.Reply(View(), error) == C.RemoveNode(old(View()), id)
    {
      hide View, C.Emit, Settled;
      NodeCommandsSettle(View(), id, Online);
      Records();
      if id !in state.nodes {
        return NodeNotFound;
      }
      var node := state.nodes[id];
      if node.running != [] || node.cpuAllocated != 0 || node.memoryAllocated != 0 {
        return InvalidStateTransition;
      }
      DropNode(id);
      EmitLocked(NodeRemoved, NO_ID, id);
      error := Nil;
    }

    method DropNode(id: Id)
      requires Owned() && id in state.nodes
      modifies state
      ensures Owned() && state == old(state) && Repr() <= old(Repr())
      ensures scheduler == old(scheduler) && state.processes == old(state.processes)
      ensures View() == old(View()).(nodes := old(View()).nodes - {id})
    {
      hide NodeViews, ProcessViews, LiveNode.View, LiveProcess.View;
      NodeViewsAre(state.nodes);
      SameNodeViews(state.nodes - {id}, NodeViews(state.nodes) - {id});
      state.nodes := state.nodes - {id};
    }

    method ChangeNodeStatus(id: Id, status: NodeStatus) returns (error: Error)
      requires Valid()
      modifies Repr()
      ensures Valid() && Kept()
      ensures C.Reply(View(), error) == C.ChangeNodeStatus(old(View()), id, status)
    {
      hide View, C.Emit, C.FailNodeLocked, Settled;
      NodeCommandsSettle(View(), id, status);
      Records();
      if id !in state.nodes {
        return NodeNotFound;
      }
      var node := state.nodes[id];
      if status == NodeFailed {
        ListsKnown(View(), Invariants.Rest);
        error := FailNodeLocked(node);
        return;
      }
      if !node.status.CanBecome(status) {
        return InvalidStateTransition;
      }
      if status == Offline && node.running != [] {
        return InvalidStateTransition;
      }
      SetNode(node, status, if status == Online then Now() else node.lastHeartbeat);
      EmitLocked(NodeStatusChanged, NO_ID, node.id);
      error := Nil;
    }

    method FailNode(id: Id) returns (error: Error)
      requires Valid()
      modifies Repr()
      ensures Valid() && Kept()
      ensures C.Reply(View(), error) == C.FailNode(old(View()), id)
    {
      hide View, C.FailNodeLocked, Settled;
      NodeCommandsSettle(View(), id, Online);
      Records();
      if id !in state.nodes {
        return NodeNotFound;
      }
      ListsKnown(View(), Invariants.Rest);
      error := FailNodeLocked(state.nodes[id]);
    }

    method RecoverNode(id: Id) returns (error: Error)
      requires Valid()
      modifies Repr()
      ensures Valid() && Kept()
      ensures C.Reply(View(), error) == C.RecoverNode(old(View()), id)
    {
      hide View, C.Emit, Settled;
      NodeCommandsSettle(View(), id, Online);
      Records();
      if id !in state.nodes {
        return NodeNotFound;
      }
      var node := state.nodes[id];
      if node.status != NodeFailed && node.status != Offline {
        return InvalidStateTransition;
      }
      SetNode(node, Recovering, node.lastHeartbeat);
      EmitKeeps(View(), NodeStatusChanged, NO_ID, node.id);
      EmitLocked(NodeStatusChanged, NO_ID, node.id);
      SetNode(node, Online, Now());
      EmitLocked(NodeRecovered, NO_ID, node.id);
      error := Nil;
    }

    method Heartbeat(id: Id) returns (error: Error)
      requires Valid()
      modifies Repr()
      ensures Valid() && Kept()
      ensures C.Reply(View(), error) == C.Heartbeat(old(View()), id)
    {
      hide View, Settled;
      NodeCommandsSettle(View(), id, Online);
      Records();
      if id !in state.nodes {
        return NodeNotFound;
      }
      var node := state.nodes[id];
      if node.status != Online && node.status != Draining {
        return InvalidStateTransition;
      }
      SetNode(node, node.status, Now());
      error := Nil;
    }

    // ---------------------------------------------------------------- simulation control

    method Start()
      requires Valid()
      modifies Repr()
      ensures Valid() && Kept()
      ensures View() == C.Start(old(View()))
    {
      hide View, C.Emit, Settled;
      ControlSettles(View(), Unfinished);
      Settings();
      if state.status == SimRunning {
        return;
      }
      SetStatus(SimRunning, Unfinished);
      EmitLocked(SimulationStarted, NO_ID, NO_ID);
    }

    method PauseSimulation()
      requires Valid()
      modifies Repr()
      ensures Valid() && Kept()
      ensures View() == C.PauseSimulation(old(View()))
    {
      hide View, C.Emit, Settled;
      ControlSettles(View(), Unfinished);
      Settings();
      if state.status != SimRunning {
        return;
      }
      SetStatus(SimPaused, state.reason);
      EmitLocked(SimulationPaused, NO_ID, NO_ID);
    }

    method FinishLocked(reason: FinishReason)
      requires Owned()
      modifies Repr()
      ensures Kept()
      ensures View() == C.FinishLocked(old(View()), reason)
    {
      hide View, C.Emit;
      SetStatus(Completed, reason);
      EmitLocked(SimulationFinished, NO_ID, NO_ID);
    }

    method Finish(reason: string)
      requires Valid()
      modifies Repr()
      ensures Valid() && Kept()
      ensures View() == C.Finish(old(View()), Requested(reason))
    {
      hide View, C.FinishLocked, Settled;
      ControlSettles(View(), Requested(reason));
      Settings();
      if state.status == Completed {
        return;
      }
      FinishLocked(Requested(reason));
    }

    // ---------------------------------------------------------------- a tick: scheduled actions

    method ForgetSubmissions(tick: int)
      requires Owned()
      modifies `pending
      ensures Kept() && View() == old(View()).(pending := old(View()).pending - {tick})
    {
      hide NodeViews, ProcessViews;
      pending := pending - {tick};
    }

    method ForgetFailures(tick: int)
      requires Owned()
      modifies `failures
      ensures Kept() && View() == old(View()).(failures := old(View()).failures - {tick})
    {
      hide NodeViews, ProcessViews;
      failures := failures - {tick};
    }

    method SubmitAllLocked(definitions: seq<ProcessDefinition>) returns (error: Error)
      requires Owned()
      modifies Repr()
      ensures Owned() && state == old(state) && scheduler == old(scheduler) && fresh(Repr() - old(Repr()))
      ensures C.Reply(View(), error) == C.SubmitAll(old(View()), definitions)
    {
      hide View, C.Submit;
      error := Nil;
      for i := 0 to |definitions|
        invariant Owned() && state == old(state) && scheduler == old(scheduler) && fresh(Repr() - old(Repr()))
        invariant error == Nil && C.SubmitAll(View(), definitions[i..]) == C.SubmitAll(old(View()), definitions)
      {
        assert definitions[i..][0] == definitions[i] && definitions[i..][1..] == definitions[i + 1..];
        error := SubmitProcessLocked(definitions[i]);
        if error != Nil {
          return;
        }
      }
      assert definitions[|definitions|..] == [];
    }

    method ApplyFailureLocked(failure: FailureDefinition) returns (error: Error)
      requires Owned() && Invariants.Inv(View(), {}, MID)
      modifies Repr()
      ensures Kept() && Invariants.Inv(View(), {}, MID)
      ensures C.Reply(View(), error) == C.ApplyFailure(old(View()), failure)
    {
      hide View, C.FailNodeLocked, C.FailProcessLocked, Invariants.Inv;
      Records();
      Tick.ApplyFailureExact(View(), failure);
      ListsKnown(View(), MID);
      match failure.kind {
        case NodeFailure =>
          if failure.nodeId !in state.nodes {
            return NodeNotFound;
          }
          error := FailNodeLocked(state.nodes[failure.nodeId]);
        case ProcessFailure =>
          if failure.processId !in state.processes {
            return ProcessNotFound;
          }
          error := FailProcessLocked(state.processes[failure.processId]);
        case UnsupportedFailure =>
          error := Nil;
      }
    }

    method ApplyFailuresLocked(definitions: seq<FailureDefinition>) returns (error: Error)
      requires Owned() && Invariants.Inv(View(), {}, MID)
      modifies Repr()
      ensures Kept() && Invariants.Inv(View(), {}, MID)
      ensures C.Reply(View(), error) == C.ApplyFailures(old(View()), definitions)
    {
      hide View, C.ApplyFailure, Invariants.Inv;
      error := Nil;
      for i := 0 to |definitions|
        invariant Kept() && Invariants.Inv(View(), {}, MID)
        invariant error == Nil && C.ApplyFailures(View(), definitions[i..]) == C.ApplyFailures(old(View()), definitions)
      {
        assert definitions[i..][0] == definitions[i] && definitions[i..][1..] == definitions[i + 1..];
        error := ApplyFailureLocked(definitions[i]);
        if error != Nil {
          return;
        }
      }
      assert definitions[|definitions|..] == [];
    }

    method ApplyScheduledLocked() returns (error: Error)
      requires Owned() && Invariants.Inv(View(), {}, MID)
      modifies Repr()
      ensures Owned() && state == old(state) && scheduler == old(scheduler) && fresh(Repr() - old(Repr()))
      ensures C.Reply(View(), error) == C.ApplyScheduled(old(View()))
    {
      hide View, C.SubmitAll, C.ApplyFailures, C.SortDefinitions, Invariants.Inv;
      error := SubmitDueLocked();
      if error != Nil {
        return;
      }
      DueForm(old(View()));
      Settings();
      var tick := state.currentTick;
      error := ApplyFailuresLocked(if tick in failures then failures[tick] else []);
      if error != Nil {
        return;
      }
      ForgetFailures(tick);
    }

    /** The submissions that are due, in the order of names. */
    method SubmitDueLocked() returns (error: Error)
      requires Owned()
      modifies Repr()
      ensures Owned() && state == old(state) && scheduler == old(scheduler) && fresh(Repr() - old(Repr()))
      ensures C.Reply(View(), error) == SubmitDue(old(View()))
    {
      hide View, C.SubmitAll, C.SortDefinitions;
      Settings();
      var tick := state.currentTick;
      error := Nil;
      if tick in pending && |pending[tick]| > 0 {
        error := SubmitSortedLocked(pending[tick]);
        if error != Nil {
          return;
        }
        ForgetSubmissions(tick);
      }
    }

    method SubmitSortedLocked(due: seq<ProcessDefinition>) returns (error: Error)
      requires Owned()
      modifies Repr()
      ensures Owned() && state == old(state) && scheduler == old(scheduler) && fresh(Repr() - old(Repr()))
      ensures C.Reply(View(), error) == C.SubmitAll(old(View()), C.SortDefinitions(due))
    {
      hide View, C.SubmitAll;
      var definitions := StableSort(due);
      error := SubmitAllLocked(definitions);
    }

    // ---------------------------------------------------------------- a tick: heartbeats

    method FailStaleLocked(ids: seq<Id>)
      requires Owned() && Invariants.Inv(View(), {}, MID) && forall n | n in ids :: n in state.nodes
      modifies Repr()
      ensures Kept()
      ensures View() == C.FailStale(old(View()), ids)
    {
      hide View, C.FailNodeLocked, Invariants.Inv, C.Emit;
      for i := 0 to |ids|
        invariant Kept() && Invariants.Inv(View(), {}, MID)
        invariant C.FailStale(View(), ids[i..]) == C.FailStale(old(View()), ids)
      {
        assert ids[i..][0] == ids[i] && ids[i..][1..] == ids[i + 1..];
        Records();
        var node := state.nodes[ids[i]];
        EmitKeeps(View(), HeartbeatMissed, NO_ID, ids[i]);
        Invariants.EmitNeutral(View(), {}, MID, HeartbeatMissed, ids[i]);
        EmitLocked(HeartbeatMissed, NO_ID, ids[i]);
        ListsKnown(View(), MID);
        Records();
        Failures.FailNodeExact(View(), MID, ids[i]);
        var _ := FailNodeLocked(node);
      }
      assert ids[|ids|..] == [];
    }

    method DetectMissedHeartbeatsLocked()
      requires Owned() && Invariants.Inv(View(), {}, MID)
      modifies Repr()
      ensures Kept()
      ensures View() == C.DetectMissedHeartbeats(old(View()))
    {
      hide View, C.FailStale, Invariants.Inv;
      Settings();
      if heartbeatTimeout <= 0 {
        return;
      }
      var ids := StaleNodesLocked();
      FailStaleLocked(ids);
    }

    method StaleNodesLocked() returns (ids: seq<Id>)
      requires Owned()
      ensures Kept() && View() == old(View())
      ensures ids == SortedIds(C.StaleNodes(View())) && forall n | n in ids :: n in state.nodes
    {
      hide NodeViews, ProcessViews, LiveNode.View, LiveProcess.View;
      NodeViewsAre(state.nodes);
      ids := StaleIds(View());
      assert forall n | n in ids :: n in C.StaleNodes(View());
    }

    // ---------------------------------------------------------------- a tick: execution

    method ExecuteOneLocked(process: LiveProcess)
      requires Owned() && Holds(process)
      modifies Repr()
      ensures Kept()
      ensures View() == C.ExecuteOne(old(View()), process.id)
    {
      hide View, C.Release, C.Emit;
      Record(process);
      Store(process, process.View().(remainingTicks := process.remainingTicks - 1));
      if process.remainingTicks > 0 {
        return;
      }
      ReleaseKeepsTick(View(), process.id);
      var error := ReleaseLocked(process);
      if error != Nil {
        return;
      }
      Record(process);
      error := MoveTo(process, Terminated, process.View().(state := Terminated, finishedAt := Some(Now())));
      if error != Nil {
        return;
      }
      EmitLocked(CompletedEvent, process.id, NO_ID);
    }

    method ExecuteRunningLocked()
      requires Owned()
      modifies Repr()
      ensures Kept()
      ensures View() == C.ExecuteRunning(old(View()))
    {
      hide View, C.ExecuteOne;
      var ids := RunningLocked();
      ExecuteAllLocked(ids);
    }

    method RunningLocked() returns (ids: seq<Id>)
      requires Owned()
      ensures Kept() && View() == old(View())
      ensures ids == SortedIds(C.RunningSet(View())) && forall p | p in ids :: p in state.processes
    {
      hide NodeViews, ProcessViews, LiveNode.View, LiveProcess.View;
      ProcessViewsAre(state.processes);
      ids := RunningIds(View());
      assert forall p | p in ids :: p in C.RunningSet(View());
    }

    method ExecuteAllLocked(ids: seq<Id>)
      requires Owned() && forall p | p in ids :: p in state.processes
      modifies Repr()
      ensures Kept()
      ensures View() == C.ExecuteAll(old(View()), ids)
    {
      hide View, C.ExecuteOne;
      for i := 0 to |ids|
        invariant Kept()
        invariant C.ExecuteAll(View(), ids[i..]) == C.ExecuteAll(old(View()), ids)
      {
        assert ids[i..][0] == ids[i] && ids[i..][1..] == ids[i + 1..];
        ExecuteOneLocked(state.processes[ids[i]]);
      }
      assert ids[|ids|..] == [];
    }

    method SampleUtilizationLocked()
      requires Owned()
      modifies Repr()
      ensures Kept()
      ensures View() == C.SampleUtilization(old(View()))
    {
      hide View, C.Utilization, Sums.Variance;
      var stats := Sample(View());
      SetStatistics(stats);
    }

    method AllProcessesTerminalLocked() returns (done: bool)
      requires Owned()
      ensures Kept() && View() == old(View())
      ensures done <==> C.AllProcessesTerminal(View())
    {
      hide NodeViews, ProcessViews, LiveNode.View, LiveProcess.View, C.AllProcessesTerminal;
      done := AllProcessesDone(View());
    }

    method ProgressBlockReasonLocked() returns (reason: FinishReason)
      requires Owned()
      ensures Kept() && View() == old(View())
      ensures reason == C.BlockReason(View())
    {
      hide NodeViews, ProcessViews, LiveNode.View, LiveProcess.View, C.BlockReason;
      reason := ProgressBlockReason(View());
    }

    method StopIfDoneLocked()
      requires Owned()
      modifies Repr()
      ensures Kept()
      ensures View() == C.StopIfDone(old(View()))
    {
      hide View, C.AllProcessesTerminal, C.BlockReason, C.FinishLocked;
      Records();
      Settings();
      var done := AllProcessesTerminalLocked();
      assert state.processes == map[] <==> View().processes == map[];
      if state.processes != map[] && done {
        FinishLocked(AllTerminal);
      } else if state.maxTicks > 0 && state.currentTick >= state.maxTicks {
        FinishLocked(MaxTicksReached);
      } else {
        var reason := ProgressBlockReasonLocked();
        if reason != Unfinished {
          FinishLocked(reason);
        }
      }
    }

    // ---------------------------------------------------------------- a tick: scheduling

    method SelectLocked(process: LiveProcess, nodes: seq<NodeSnapshot>) returns (choice: Option<Id>)
      requires Owned() && Candidates(nodes) && Elements(nodes) == C.Snapshots(View().nodes)
      modifies scheduler.Parts()
      ensures Kept()
      ensures (choice, View().policy) == Select(old(View()).policy, old(process.View()), C.Snapshots(old(View()).nodes))
      ensures View() == old(View()).(policy := View().policy)
    {
      hide NodeViews, ProcessViews, LiveNode.View, LiveProcess.View, Select, C.Snapshots, Candidates;
      choice := scheduler.SelectNode(process.View(), nodes);
    }

    method DeferLocked(process: LiveProcess, nodeId: Id)
      requires Owned() && Holds(process)
      modifies Repr()
      ensures Kept()
      ensures View() == C.Defer(old(View()), old(process.View()), nodeId)
    {
      hide View, C.Emit;
      Settings();
      SetStatistics(state.stats.(schedulingDeferred := state.stats.schedulingDeferred + 1));
      EmitLocked(Deferred, process.id, nodeId);
    }

    method AnnounceStart(id: Id, nodeId: Id, first: bool)
      requires Owned()
      modifies Repr()
      ensures Kept()
      ensures View() == C.Announced(old(View()), id, nodeId, first)
    {
      hide View, C.Emit;
      Settings();
      if first {
        EmitLocked(Started, id, nodeId);
      } else {
        SetStatistics(state.stats.(reschedulings := state.stats.reschedulings + 1));
      }
      EmitLocked(EventKind.Scheduled, id, nodeId);
      EmitLocked(Allocated, id, nodeId);
    }

    method UndoLocked(process: LiveProcess, node: LiveNode)
      requires Owned() && Holds(process) && HoldsNode(node)
      modifies node
      ensures Kept()
      ensures node.id in old(View()).nodes
      ensures View() == old(View()).(nodes := old(View()).nodes[node.id :=
                          old(View()).nodes[node.id].Release(old(process.View())).0])
    {
      hide View, Node.Release, LiveNode.View, LiveProcess.View;
      Records();
      var error := ReleaseFrom(node, process.View());
      if error != Nil {
        FailedRelease(old(View()).nodes, node.id, old(process.View()));
      }
    }

    /** From the choice of a node on. */
    method PlaceLocked(process: LiveProcess, node: LiveNode) returns (placed: bool)
      requires Owned() && Holds(process) && HoldsNode(node)
      modifies Repr()
      ensures Kept()
      ensures View() == PlaceOn(old(View()), old(process.View()), node.id)
      ensures placed <==> old(node.View()).Allocate(old(process.View())).1 == Nil
                          && old(process.View()).state.CanBecome(Running)
    {
      hide View, LiveNode.View, Node.Allocate, Node.Release, C.Announced, C.Defer;
      Records();
      var p := process.View();
      ghost var before := View();
      var error := AllocateOn(node, p);
      if error != Nil {
        DeferLocked(process, node.id);
        return false;
      }
      error := MoveTo(process, Running, C.PlacedRecord(p, Now(), node.id));
      if error != Nil {
        UndoLocked(process, node);
        Overwritten(before.nodes, node.id, before.nodes[node.id].Allocate(p).0,
                    before.nodes[node.id].Allocate(p).0.Release(p).0);
        return false;
      }
      AnnounceStart(process.id, node.id, p.startedAt == None);
      placed := true;
    }

    /** Placement, with the cached snapshot of the node taken again if it succeeded. */
    method PlaceChosenLocked(process: LiveProcess, node: LiveNode, nodes: seq<NodeSnapshot>)
      returns (after: seq<NodeSnapshot>)
      requires Owned() && Holds(process) && HoldsNode(node)
      requires Candidates(nodes) && Elements(nodes) == C.Snapshots(View().nodes)
      requires 0 <= node.cpuAllocated && 0 <= node.memoryAllocated
      modifies Repr()
      ensures Kept()
      ensures View() == PlaceOn(old(View()), old(process.View()), node.id)
      ensures Candidates(after) && Elements(after) == C.Snapshots(View().nodes)
    {
      hide View, LiveProcess.View, NodeViews, ProcessViews, Candidates, C.Snapshots, PlaceOn, Node.Allocate;
      ghost var p := process.View();
      ghost var chosen := View();
      Records();
      Named();
      after := nodes;
      var placed := PlaceLocked(process, node);
      Records();
      if placed {
        after := Refresh(nodes, node.View().Snapshot());
      }
      PlaceTracks(chosen, p, node.id, nodes, after);
    }

    /** One process of the queue. The snapshots that were taken before the loop are kept up to date. */
    method ScheduleOneLocked(process: LiveProcess, nodes: seq<NodeSnapshot>) returns (after: seq<NodeSnapshot>)
      requires Owned() && Holds(process)
      requires Candidates(nodes) && Elements(nodes) == C.Snapshots(View().nodes)
      requires forall n | n in state.nodes :: 0 <= state.nodes[n].cpuAllocated && 0 <= state.nodes[n].memoryAllocated
      modifies Repr()
      ensures Kept()
      ensures View() == C.ScheduleOne(old(View()), old(process.View()))
      ensures Candidates(after) && Elements(after) == C.Snapshots(View().nodes)
    {
      hide View, LiveNode.View, LiveProcess.View, Select, Candidates, C.Snapshots, PlaceOn, C.Defer, C.ScheduleOne;
      ghost var p := process.View();
      ScheduleForm(View(), p);
      after := nodes;
      var choice := SelectLocked(process, nodes);
      Records();
      if choice.None? || choice.value !in state.nodes {
        var nodeId := if choice.None? then NO_ID else choice.value;
        DeferKeepsNodes(View(), p, nodeId);
        DeferLocked(process, nodeId);
      } else {
        after := PlaceChosenLocked(process, state.nodes[choice.value], nodes);
      }
    }

    /** The queue in the order of arrival, then in the order of the policy if it has one of its own. */
    method ReadyQueueLocked() returns (queue: seq<Process>)
      requires Owned()
      ensures Kept() && View() == old(View())
      ensures queue == C.ReadyQueue(View())
    {
      hide NodeViews, ProcessViews, LiveNode.View, LiveProcess.View;
      Named();
      var ready := ReadyProcesses(View());
      queue := OrderQueue(scheduler, ready, state.currentTick);
    }

    method NodeSnapshotsLocked() returns (nodes: seq<NodeSnapshot>)
      requires Owned()
      ensures Kept() && View() == old(View())
      ensures Candidates(nodes) && Elements(nodes) == C.Snapshots(View().nodes)
    {
      hide NodeViews, ProcessViews, LiveNode.View, LiveProcess.View, Candidates, C.Snapshots;
      Named();
      nodes := NodeSnapshots(View().nodes);
    }

    method ScheduleReadyLocked()
      requires Owned() && Invariants.Inv(View(), {}, MID)
      modifies Repr()
      ensures Kept()
      ensures View() == C.ScheduleReady(old(View()))
    {
      hide View, Invariants.Inv, C.ScheduleOne, C.ReadyQueue, Candidates, C.Snapshots, QueueOk, LiveNode.View,
           LiveProcess.View;
      QueueIsOk(View());
      var queue := ReadyQueueLocked();
      var nodes := NodeSnapshotsLocked();
      assert queue[0..] == queue;
      for i := 0 to |queue|
        invariant Kept() && Invariants.Inv(View(), {}, MID) && QueueOk(View(), queue[i..])
        invariant Candidates(nodes) && Elements(nodes) == C.Snapshots(View().nodes)
        invariant C.ScheduleAll(View(), queue[i..]) == C.ScheduleAll(old(View()), queue)
      {
        assert queue[i..][0] == queue[i] && queue[i..][1..] == queue[i + 1..];
        QueueHead(View(), queue[i..]);
        Records();
        var process := state.processes[queue[i].id];
        ghost var nodeId := StepOfPass(View(), queue[i..]);
        CountersPositive();
        nodes := ScheduleOneLocked(process, nodes);
      }
      assert queue[|queue|..] == [];
    }

    lemma CountersPositive()
      requires Owned() && Invariants.Inv(View(), {}, MID)
      ensures forall n | n in state.nodes :: 0 <= state.nodes[n].cpuAllocated && 0 <= state.nodes[n].memoryAllocated
    {
      Records();
      forall n | n in state.nodes ensures 0 <= state.nodes[n].cpuAllocated && 0 <= state.nodes[n].memoryAllocated {
        assert Placement.NodeOk(View().nodes[n], n, View().processes, {});
      }
    }

    // ---------------------------------------------------------------- a tick

    method ValidateInvariantsLocked() returns (error: Error)
      requires Owned()
      ensures Kept() && View() == old(View())
      ensures error == Nil || error == InvalidInput
      ensures error == Nil <==> C.InvariantsHold(View().nodes, View().processes)
    {
      hide NodeViews, ProcessViews, LiveNode.View, LiveProcess.View, C.InvariantsHold;
      error := ValidateInvariants(View().nodes, View().processes);
    }

    method BeginTickLocked()
      requires Owned()
      modifies Repr()
      ensures Kept()
      ensures View() == C.BeginTick(old(View()))
    {
      hide View, C.Emit;
      Settings();
      EmitKeeps(View().(status := SimRunning), SimulationStarted, NO_ID, NO_ID);
      if state.status != SimRunning {
        SetStatus(SimRunning, state.reason);
        EmitLocked(SimulationStarted, NO_ID, NO_ID);
      }
      AdvanceClock();
    }

    method AdvanceClock()
      requires Owned()
      modifies state
      ensures Kept() && View() == old(View()).(tick := old(View()).tick + 1)
    {
      hide NodeViews, ProcessViews;
      state.currentTick := state.currentTick + 1;
    }

    /** The phases of a tick after its scheduled actions. */
    method RunPhasesLocked() returns (error: Error)
      requires Owned() && Invariants.Inv(View(), {}, MID)
      modifies Repr()
      ensures Kept()
      ensures C.Reply(View(), error) == Phases(old(View()))
    {
      hide View, Invariants.Inv, C.DetectMissedHeartbeats, C.ScheduleReady, C.SampleUtilization, C.ExecuteRunning,
           C.StopIfDone, C.InvariantsHold;
      Tick.DetectExact(View());
      DetectMissedHeartbeatsLocked();
      ScheduleReadyLocked();
      SampleUtilizationLocked();
      ExecuteRunningLocked();
      StopIfDoneLocked();
      error := ValidateInvariantsLocked();
    }

    method AttemptLocked() returns (error: Error)
      requires Valid()
      modifies Repr()
      ensures Owned() && state == old(state) && scheduler == old(scheduler) && fresh(Repr() - old(Repr()))
      ensures C.Reply(View(), error) == C.Attempt(old(View()))
      ensures old(events) <= events
    {
      hide View, Settled, C.Attempt, C.BeginTick, C.ApplyScheduled, Phases;
      ghost var before := View();
      AttemptForm(before);
      Settings();
      BeginTickLocked();
      error := ApplyScheduledLocked();
      if error == Nil {
        error := RunPhasesLocked();
      }
      Settings();
    }

    /** A deep copy of the cluster record. */
    method CloneState() returns (saved: LiveCluster)
      requires Owned()
      ensures Kept() && View() == old(View())
      ensures fresh(Footprint(saved)) && saved.Owned() && Copies(saved, View()) && Footprint(saved) !! Repr()
    {
      hide NodeViews, ProcessViews, LiveNode.View, LiveProcess.View, Injective;
      saved := state.Clone();
    }

    /** What the rollback of a tick assigns. */
    method Restore(saved: LiveCluster, eventCount: nat, sequence: nat, pending: map<int, seq<ProcessDefinition>>,
                   failures: map<int, seq<FailureDefinition>>, ghost before: C.State)
      requires saved.Owned() && Copies(saved, before) && eventCount <= |events| && before.events == events[..eventCount]
      requires sequence == before.sequence && pending == before.pending && failures == before.failures
      requires before.heartbeatTimeout == heartbeatTimeout && before.maxNodes == maxNodes
          && before.maxProcesses == maxProcesses
      modifies this
      ensures Owned() && state == saved && scheduler == old(scheduler)
      ensures View() == C.Rollback(before, old(View()))
    {
      hide NodeViews, ProcessViews, LiveNode.View, LiveProcess.View, Injective;
      state, events, eventSequence := saved, events[..eventCount], sequence;
      this.pending, this.failures := pending, failures;
    }

    /** Nothing a tick does reaches a copy that shares no object with the controller. */
    method AttemptBesideLocked(ghost saved: LiveCluster, ghost before: C.State) returns (error: Error)
      requires Valid() && Footprint(saved) !! Repr() && Copies(saved, before) && saved.Owned()
      modifies Repr()
      ensures Footprint(saved) == old(Footprint(saved)) && saved.Owned()
      ensures Owned() && scheduler == old(scheduler) && fresh(Repr() - old(Repr()))
      ensures C.Reply(View(), error) == C.Attempt(old(View()))
      ensures old(events) <= events && Copies(saved, before)
    {
      hide View, Settled, C.Attempt, NodeViews, ProcessViews, LiveNode.View, LiveProcess.View, Repr;
      assert forall o: object | o in Footprint(saved) :: o !in Repr();
      error := AttemptLocked();
    }

    /** One tick. What a failing tick changed is restored from deep copies taken before it. */
    method Step() returns (error: Error)
      requires Valid()
      modifies Repr()
      ensures Valid() && scheduler == old(scheduler) && fresh(Repr() - old(Repr()))
      ensures C.Reply(View(), error) == C.Step(old(View()))
    {
      hide View, Settled, C.Step, C.Attempt, NodeViews, ProcessViews, Copies, LiveNode.View, LiveProcess.View;
      StepSettles(View());
      Settings();
      if state.status == Completed {
        return InvalidStateTransition;
      }
      var previousState := CloneState();
      var previousEventCount, previousSequence := |events|, eventSequence;
      var previousPending, previousFailures := pending, failures;
      error := AttemptBesideLocked(previousState, old(View()));
      if error != Nil {
        Settings();
        assert events[..previousEventCount] == old(events);
        Restore(previousState, previousEventCount, previousSequence, previousPending, previousFailures, old(View()));
      }
    }

    method Steps(count: int) returns (error: Error)
      requires Valid()
      modifies Repr()
      ensures Valid() && scheduler == old(scheduler) && fresh(Repr() - old(Repr()))
      ensures C.Reply(View(), error) == C.Steps(old(View()), count)
    {
      hide View, Settled, C.Step, C.StepLoop, LiveNode.View, LiveProcess.View;
      if count <= 0 {
        return InvalidInput;
      }
      error := Nil;
      for i := 0 to count
        invariant Valid() && scheduler == old(scheduler) && fresh(Repr() - old(Repr()))
        invariant error == Nil && C.StepLoop(View(), count - i) == C.StepLoop(old(View()), count)
      {
        Atomicity.LoopOnce(View(), count - i);
        error := Step();
        Settings();
        if error == InvalidStateTransition && state.status == Completed {
          return Nil;
        }
        if error != Nil {
          return;
        }
        if state.status == Completed {
          return;
        }
      }
      LoopEnds(View());
    }

    // ---------------------------------------------------------------- scheduler, reset, copies

    method SetScheduler(name: SchedulerName) returns (error: Error)
      requires Valid()
      modifies Repr()
      ensures Valid() && state == old(state) && fresh(Repr() - old(Repr()))
      ensures C.Reply(View(), error) == C.SetScheduler(old(View()), name)
    {
      hide View, C.Emit, Settled;
      SchedulerSettles(View(), name);
      error := InstallScheduler(name);
      if error == Nil {
        EmitLocked(SchedulerChanged, NO_ID, NO_ID);
      }
    }

    method InstallScheduler(name: SchedulerName) returns (error: Error)
      requires Owned()
      modifies this
      ensures Owned() && state == old(state) && fresh(Repr() - old(Repr()))
      ensures error == if NewScheduler(name).None? then InvalidInput else Nil
      ensures View() == if error == Nil then old(View()).(policy := NewScheduler(name).value) else old(View())
    {
      hide NodeViews, ProcessViews, LiveNode.View, LiveProcess.View, Injective, NewScheduler;
      var made := MakeScheduler(name);
      if made.None? {
        return InvalidInput;
      }
      scheduler := made.value;
      error := Nil;
    }

    /** A new empty cluster. The scheduler object is kept, and with it the Round Robin cursor. */
    method Reset()
      requires Valid()
      modifies Repr()
      ensures Valid() && scheduler == old(scheduler) && fresh(Repr() - old(Repr()))
      ensures View() == C.Reset(old(View()))
    {
      hide View, C.Emit, Settled;
      ControlSettles(View(), Unfinished);
      Clear();
      EmitLocked(SimulationReset, NO_ID, NO_ID);
    }

    method Clear()
      requires Owned()
      modifies this
      ensures Owned() && scheduler == old(scheduler) && fresh(Repr() - old(Repr()))
      ensures View() == C.Fresh(old(View()).policy, heartbeatTimeout, maxNodes, maxProcesses)
      ensures old(View()).heartbeatTimeout == heartbeatTimeout && old(View()).maxNodes == maxNodes
      ensures old(View()).maxProcesses == maxProcesses
    {
      hide LiveNode.View, LiveProcess.View;
      state := new LiveCluster();
      events, eventSequence := [], 0;
      pending, failures := map[], map[];
    }

    /** `Snapshot`: callers get objects of their own. */
    method Snapshot() returns (saved: LiveCluster)
      requires Valid()
      ensures Kept() && View() == old(View())
      ensures fresh(Footprint(saved)) && Copies(saved, View())
    {
      saved := CloneState();
    }

    method GetProcess(id: Id) returns (error: Error, copy: LiveProcess?)
      requires Valid()
      ensures error == if id in View().processes then Nil else ProcessNotFound
      ensures error == Nil <==> copy != null
      ensures copy != null ==> fresh(copy) && copy.View() == View().processes[id]
    {
      hide View, Settled, LiveNode.View, LiveProcess.View;
      Records();
      if id !in state.processes {
        return ProcessNotFound, null;
      }
      copy := state.processes[id].Clone();
      error := Nil;
      Records();
    }

    // ---------------------------------------------------------------- scenarios

    /** The cluster, scheduler and calendar of a scenario, with an empty log. */
    method InstallLocked(p: Prepared)
      requires Owned() && PreparedNames(p)
      requires exists name :: NewScheduler(name) == Some(p.policy)
      modifies this
      ensures Owned() && fresh(Repr() - {this})
      ensures View() == Loading.Bare(old(View()), p)
    {
      hide NodeViews, ProcessViews, LiveNode.View, LiveProcess.View, LiveCluster.Owned;
      var cluster := BuildCluster(p);
      var made := SchedulerFor(p.policy);
      Assign(cluster, made, p.pending, p.failures);
    }

    method Assign(cluster: LiveCluster, made: Scheduler, pending: map<int, seq<ProcessDefinition>>,
                  failures: map<int, seq<FailureDefinition>>)
      modifies this
      ensures state == cluster && scheduler == made && events == [] && eventSequence == 0
      ensures this.pending == pending && this.failures == failures
    {
      state, scheduler, events, eventSequence := cluster, made, [], 0;
      this.pending, this.failures := pending, failures;
    }

    method EmitNodesLocked(ids: seq<Id>)
      requires Owned()
      modifies Repr()
      ensures Kept() && View() == EmitNodes(old(View()), ids)
    {
      hide View, C.Emit;
      for i := 0 to |ids|
        invariant Kept() && EmitNodes(View(), ids[i..]) == EmitNodes(old(View()), ids)
      {
        assert ids[i..][0] == ids[i] && ids[i..][1..] == ids[i + 1..];
        EmitLocked(NodeRegistered, NO_ID, ids[i]);
      }
      assert ids[|ids|..] == [];
    }

    method EmitProcessesLocked(ids: seq<Id>)
      requires Owned()
      modifies Repr()
      ensures Kept() && View() == EmitProcesses(old(View()), ids)
    {
      hide View, C.Emit;
      for i := 0 to |ids|
        invariant Kept() && EmitProcesses(View(), ids[i..]) == EmitProcesses(old(View()), ids)
      {
        assert ids[i..][0] == ids[i] && ids[i..][1..] == ids[i + 1..];
        EmitLocked(Submitted, ids[i], NO_ID);
      }
      assert ids[|ids|..] == [];
    }

    /** The names of the loaded nodes and processes, sorted. */
    method LoadedNames() returns (nodeIds: seq<Id>, processIds: seq<Id>)
      requires Owned()
      ensures Kept() && View() == old(View())
      ensures nodeIds == SortedIds(View().nodes.Keys) && processIds == SortedIds(View().processes.Keys)
    {
      hide NodeViews, ProcessViews, LiveNode.View, LiveProcess.View;
      nodeIds, processIds := TableNames(View().nodes.Keys, View().processes.Keys);
    }

    method PrepareLocked(sc: Scenario) returns (prepared: Option<Prepared>, error: Error)
      requires Owned()
      ensures Kept() && View() == old(View())
      ensures (prepared, error) == Prepare(sc, View().maxNodes, View().maxProcesses)
    {
      hide NodeViews, ProcessViews, LiveNode.View, LiveProcess.View, Prepare;
      prepared, error := PrepareScenario(sc, maxNodes, maxProcesses);
    }

    method ValidateScenario(sc: Scenario) returns (error: Error)
      requires Valid()
      ensures Kept() && View() == old(View())
      ensures error == Prepare(sc, View().maxNodes, View().maxProcesses).1
    {
      var prepared;
      prepared, error := PrepareLocked(sc);
    }

    method EnterLocked(p: Prepared)
      requires Owned() && PreparedNames(p)
      requires exists name :: NewScheduler(name) == Some(p.policy)
      modifies Repr()
      ensures Owned() && fresh(Repr() - old(Repr()))
      ensures View() == Install(old(View()), p)
    {
      hide View, C.Emit, Install, Loading.Bare, EmitNodes, EmitProcesses, PreparedNames;
      InstallForm(View(), p);
      InstallLocked(p);
      var nodeIds, processIds := LoadedNames();
      EmitNodesLocked(nodeIds);
      EmitProcessesLocked(processIds);
      EmitLocked(ScenarioLoaded, NO_ID, NO_ID);
    }

    method LoadScenario(sc: Scenario) returns (error: Error)
      requires Valid()
      modifies Repr()
      ensures Valid() && fresh(Repr() - old(Repr()))
      ensures C.Reply(View(), error) == Scenarios.LoadScenario(old(View()), sc)
    {
      hide View, Settled, Prepare, Install, PreparedNames;
      LoadSettles(View(), sc);
      PreparedFacts(sc, View().maxNodes, View().maxProcesses);
      var prepared;
      prepared, error := PrepareLocked(sc);
      if prepared.Some? {
        EnterLocked(prepared.value);
      }
    }
  }

  /** The objects of a prepared scenario. */
  method BuildCluster(p: Prepared) returns (cluster: LiveCluster)
    requires PreparedNames(p)
    ensures fresh(Footprint(cluster)) && cluster.Owned()
    ensures NodeViews(cluster.nodes) == p.nodes && ProcessViews(cluster.processes) == p.processes
    ensures cluster.currentTick == 0 && cluster.status == Idle && cluster.reason == Unfinished
    ensures cluster.maxTicks == p.maxTicks && cluster.stats == C.NO_STATISTICS
  {
    hide NodeViews, ProcessViews, LiveNode.View, LiveProcess.View, Injective;
    var nodes := BuildNodeObjects(p.nodes);
    NodeNames(nodes);
    var processes := BuildProcessObjects(p.processes);
    ProcessNames(processes);
    cluster := new LiveCluster.Of(nodes, processes, 0, Idle, Unfinished, p.maxTicks, C.NO_STATISTICS);
  }

  lemma NewForm(config: Config, name: SchedulerName, maxNodes: int, maxProcesses: int)
    requires name == if config.scheduler == Blank then LeastLoadedName else config.scheduler
    requires maxNodes == if config.maxNodes == 0 then 100 else config.maxNodes
    requires maxProcesses == if config.maxProcesses == 0 then 10000 else config.maxProcesses
    ensures NewController(config) ==
      if maxNodes < 1 || maxProcesses < 1 || config.heartbeatTimeout < 0 || NewScheduler(name).None? then
        (None, InvalidInput)
      else (Some(C.Fresh(NewScheduler(name).value, config.heartbeatTimeout, maxNodes, maxProcesses)), Nil)
  {
    hide NewScheduler, C.Fresh;
  }

  /** `cluster.New`. */
  method NewLiveController(config: Config) returns (c: Controller?, error: Error)
    ensures c != null <==> error == Nil
    ensures error == NewController(config).1
    ensures c != null ==> c.Valid() && fresh(c.Repr()) && Some(c.View()) == NewController(config).0
  {
    hide Settled, Controller.View, C.Fresh, LiveCluster.Owned, NewController, NewScheduler;
    NewIsSettled(config);
    var name := if config.scheduler == Blank then LeastLoadedName else config.scheduler;
    var maxNodes := if config.maxNodes == 0 then 100 else config.maxNodes;
    var maxProcesses := if config.maxProcesses == 0 then 10000 else config.maxProcesses;
    NewForm(config, name, maxNodes, maxProcesses);
    if maxNodes < 1 || maxProcesses < 1 || config.heartbeatTimeout < 0 {
      return null, InvalidInput;
    }
    var selected := MakeScheduler(name);
    if selected.None? {
      return null, InvalidInput;
    }
    c := new Controller(selected.value, config.heartbeatTimeout, maxNodes, maxProcesses);
    error := Nil;
  }
}
