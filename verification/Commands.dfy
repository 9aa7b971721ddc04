/** Every command other than a tick keeps the invariant, and a rejected command changes nothing. */
module Commands {
  import opened Domain
  import opened Ordering
  import opened Schedulers
  import opened Cluster
  import opened Placement
  import opened EventLog
  import opened Invariants
  import opened Failures

  lemma ValidIsPlaced(s: State)
    requires Valid(s)
    ensures Placed(s.nodes, s.processes, {})
    ensures forall n | n in s.nodes :: NodeOk(s.nodes[n], n, s.processes, {})
  {
  }

  /** Node changes that no process notices. */
  lemma NodesOnly(s: State, nodes: map<Id, Node>)
    requires Valid(s) && Placed(nodes, s.processes, {})
    ensures Valid(s.(nodes := nodes))
  {
  }

  lemma Announce(s: State, kind: EventKind, id: Id)
    requires Valid(s) && IsNeutral(kind)
    ensures Valid(Emit(s, kind, NO_ID, id))
  {
    EmitNeutral(s, {}, Rest, kind, id);
  }

  /** Fields outside the cluster record do not matter to the invariant. */
  lemma SettingIsFree(s: State, t: State)
    requires Valid(s)
    requires t == s.(status := t.status, reason := t.reason, policy := t.policy)
    ensures Valid(t)
  {
  }

  // ---------------------------------------------------------------- node commands

  lemma RegisterNodeExact(s: State, def: NodeDefinition)
    requires Valid(s)
    ensures var r := RegisterNode(s, def);
      && Valid(r.state) && (r.error != Nil ==> r.state == s)
      && (r.error == Nil <==> |s.nodes| < s.maxNodes && NewNode(def, s.tick).Some? && def.id !in s.nodes)
      && (r.error == Nil ==> r.state.nodes == s.nodes[def.id := NewNode(def, s.tick).value])
  {
    hide Valid, Placed, NodeOk;
    if RegisterNode(s, def).error == Nil {
      var nodes := s.nodes[def.id := NewNode(def, s.tick).value];
      ValidIsPlaced(s);
      PlacedNodeAdd(s.nodes, s.processes, NewNode(def, s.tick).value);
      NodesOnly(s, nodes);
      Announce(s.(nodes := nodes), NodeRegistered, def.id);
    }
  }

  /** Only an empty node can be removed, and its counters need no second look. */
  lemma RemoveNodeExact(s: State, id: Id)
    requires Valid(s)
    ensures var r := RemoveNode(s, id);
      && Valid(r.state) && (r.error != Nil ==> r.state == s)
      && (r.error == Nil <==> id in s.nodes && s.nodes[id].running == [])
      && (r.error == Nil ==> r.state.nodes == s.nodes - {id})
  {
    hide Valid, Placed;
    ValidIsPlaced(s);
    if id in s.nodes && s.nodes[id].running == [] {
      assert NodeOk(s.nodes[id], id, s.processes, {});
      PlacedNodeRemove(s.nodes, s.processes, id);
      NodesOnly(s, s.nodes - {id});
      Announce(s.(nodes := s.nodes - {id}), NodeRemoved, id);
    }
  }

  lemma NodeChange(s: State, id: Id, status: NodeStatus, heartbeat: int)
    requires Valid(s) && id in s.nodes
    requires !status.MayHost() ==> s.nodes[id].running == []
    ensures Valid(s.(nodes := s.nodes[id := s.nodes[id].(status := status, lastHeartbeat := heartbeat)]))
  {
    hide Valid, Placed, NodeOk;
    var n := s.nodes[id].(status := status, lastHeartbeat := heartbeat);
    ValidIsPlaced(s);
    PlacedNodeChange(s.nodes, s.processes, id, n);
    NodesOnly(s, s.nodes[id := n]);
  }

  /** A node that holds no hosting status is empty. */
  lemma IdleNodeIsEmpty(s: State, id: Id)
    requires Valid(s) && id in s.nodes && !s.nodes[id].status.MayHost()
    ensures s.nodes[id].running == [] && s.nodes[id].cpuAllocated == 0 && s.nodes[id].memoryAllocated == 0
  {
    assert NodeOk(s.nodes[id], id, s.processes, {});
  }

  /** The node ends FAILED and empty, each process it listed has failed once, and no other record changes. */
  ghost predicate NodeLost(s: State, t: State, id: Id)
    requires id in s.nodes
  {
    && t.nodes == s.nodes[id := DownNode(s.nodes[id])]
    && t.processes == AllFailed(s.processes, Elements(s.nodes[id].running), s.tick)
    && SameButTables(s, t.(stats := s.stats))
    && t.stats == s.stats.(nodeFailures := s.stats.nodeFailures + 1)
  }

  lemma FailNodeCommand(s: State, id: Id)
    requires Valid(s)
    ensures var r := FailNode(s, id);
      && Valid(r.state) && (r.error != Nil ==> r.state == s)
      && (r.error == Nil <==> id in s.nodes && s.nodes[id].status != NodeFailed)
      && (r.error == Nil ==> NodeLost(s, r.state, id))
  {
    hide Inv;
    if id in s.nodes {
      FailNodeExact(s, Rest, id);
    }
  }

  /** The transition table, the emptiness rule for OFFLINE and the failure path decide; only the status
      changes, and going ONLINE counts as a heartbeat. */
  lemma ChangeNodeStatusExact(s: State, id: Id, to: NodeStatus)
    requires Valid(s)
    ensures var r := ChangeNodeStatus(s, id, to);
      && Valid(r.state) && (r.error != Nil ==> r.state == s)
      && (r.error == Nil ==>
            if to == NodeFailed then NodeLost(s, r.state, id)
            else
              && SameButTables(s, r.state) && r.state.processes == s.processes
              && r.state.nodes == s.nodes[id := s.nodes[id].(
                   status := to, lastHeartbeat := if to == Online then s.tick else s.nodes[id].lastHeartbeat)])
      && (r.error == Nil <==>
            && id in s.nodes
            && (if to == NodeFailed then s.nodes[id].status != NodeFailed
                else s.nodes[id].status.CanBecome(to) && (to == Offline ==> s.nodes[id].running == [])))
  {
    hide Valid, FailNodeLocked;
    FailNodeCommand(s, id);
    if id in s.nodes && to != NodeFailed && s.nodes[id].status.CanBecome(to)
       && (to == Offline ==> s.nodes[id].running == []) {
      var heartbeat := if to == Online then s.tick else s.nodes[id].lastHeartbeat;
      if to == Recovering {
        IdleNodeIsEmpty(s, id);
      }
      NodeChange(s, id, to, heartbeat);
      Announce(s.(nodes := s.nodes[id := s.nodes[id].(status := to, lastHeartbeat := heartbeat)]),
               NodeStatusChanged, id);
    }
  }

  lemma RecoverNodeExact(s: State, id: Id)
    requires Valid(s)
    ensures var r := RecoverNode(s, id);
      && Valid(r.state) && (r.error != Nil ==> r.state == s)
      && (r.error == Nil <==> id in s.nodes && (s.nodes[id].status == NodeFailed || s.nodes[id].status == Offline))
      && (r.error == Nil ==>
            r.state.nodes == s.nodes[id := s.nodes[id].(status := Online, lastHeartbeat := s.tick)])
  {
    hide Valid;
    if id in s.nodes && (s.nodes[id].status == NodeFailed || s.nodes[id].status == Offline) {
      var n := s.nodes[id];
      IdleNodeIsEmpty(s, id);
      NodeChange(s, id, Recovering, n.lastHeartbeat);
      var s1 := s.(nodes := s.nodes[id := n.(status := Recovering)]);
      Announce(s1, NodeStatusChanged, id);
      var s2 := Emit(s1, NodeStatusChanged, NO_ID, id);
      NodeChange(s2, id, Online, s.tick);
      var n2 := n.(status := Online, lastHeartbeat := s.tick);
      assert s1.nodes[id := n2] == s.nodes[id := n2];
      Announce(s2.(nodes := s1.nodes[id := n2]), NodeRecovered, id);
    }
  }

  /** Exactly ONLINE and DRAINING nodes are marked as heard from now, and not even the log changes. */
  lemma HeartbeatExact(s: State, id: Id)
    requires Valid(s)
    ensures var r := Heartbeat(s, id);
      && Valid(r.state) && (r.error != Nil ==> r.state == s)
      && (r.error == Nil <==> id in s.nodes && s.nodes[id].status.MayHost())
      && (r.error == Nil ==>
            && r.state == s.(nodes := r.state.nodes)
            && r.state.nodes == s.nodes[id := s.nodes[id].(lastHeartbeat := s.tick)])
  {
    hide Valid;
    if id in s.nodes && s.nodes[id].status.MayHost() {
      NodeChange(s, id, s.nodes[id].status, s.tick);
    }
  }

  // ---------------------------------------------------------------- process commands

  /** A record as it enters: all its work ahead, never started, READY as of its submission. */
  predicate JustSubmitted(p: Process, def: ProcessDefinition, tick: int) {
    && p.id == def.id && p.name == def.name && p.priority == def.priority
    && p.cpuRequest == def.cpuRequest && p.memoryRequest == def.memoryRequest
    && p.totalTicks == def.totalTicks && p.remainingTicks == def.totalTicks && p.maxRestarts == def.maxRestarts
    && p.restartPolicy == (if def.restartPolicy == Unset then Never else def.restartPolicy) && p.restartCount == 0
    && p.state == Ready && p.nodeId == NO_ID && p.startedAt == None && p.finishedAt == None
    && p.submittedAt == tick && p.lastReadyAt == tick && p.waitingTicks == 0
  }

  /** One READY record more, and nothing else changes; a completed simulation is idle again. */
  lemma SubmitExact(s: State, def: ProcessDefinition)
    requires Valid(s)
    ensures var r := Submit(s, def);
      && Valid(r.state) && (r.error != Nil ==> r.state == s)
      && (r.error == Nil <==>
            |s.processes| < s.maxProcesses && NewProcess(def, s.tick).Some? && def.id !in s.processes)
      && (r.error == Nil ==>
            && def.id in r.state.processes && JustSubmitted(r.state.processes[def.id], def, s.tick)
            && r.state.processes == s.processes[def.id := r.state.processes[def.id]]
            && SameButTables(s, r.state.(status := s.status, reason := s.reason)) && r.state.nodes == s.nodes
            && (if s.status == Completed then r.state.status == Idle && r.state.reason == Unfinished
                else r.state.status == s.status && r.state.reason == s.reason))
  {
    hide Inv;
    if Submit(s, def).error == Nil {
      SubmitKeeps(s, Rest, def);
    }
  }

  /** The process restarts or ends FAILED; if it ran, its node has its request back; nothing else changes. */
  lemma FailProcessCommand(s: State, id: Id)
    requires Valid(s)
    ensures var r := FailProcess(s, id);
      && Valid(r.state) && (r.error != Nil ==> r.state == s)
      && (r.error == Nil <==> id in s.processes && !s.processes[id].state.IsTerminal())
      && (r.error == Nil ==>
            && r.state.processes == s.processes[id := FailedRecord(s.processes[id], s.tick)]
            && r.state.nodes == NodesWithout(s.nodes, s.processes[id])
            && SameButTables(s, r.state))
  {
    hide Inv;
    if id in s.processes {
      FailProcessExact(s, {}, Rest, id);
      assert {} - {id} == {};
      if s.processes[id].state == Running {
        ReleaseUnloads(s, {}, Rest, id);
      }
    }
  }

  // ---------------------------------------------------------------- simulation control

  lemma ControlKeeps(s: State, name: SchedulerName, reason: FinishReason)
    requires Valid(s)
    ensures Valid(SetScheduler(s, name).state) && Valid(Start(s)) && Valid(PauseSimulation(s))
    ensures Valid(Finish(s, reason)) && Valid(FinishLocked(s, reason))
  {
    hide Valid;
    if NewScheduler(name).Some? {
      var s1 := s.(policy := NewScheduler(name).value);
      SettingIsFree(s, s1);
      Announce(s1, SchedulerChanged, NO_ID);
    }
    var s2 := s.(status := SimRunning, reason := Unfinished);
    SettingIsFree(s, s2);
    Announce(s2, SimulationStarted, NO_ID);
    var s3 := s.(status := SimPaused);
    SettingIsFree(s, s3);
    Announce(s3, SimulationPaused, NO_ID);
    var s4 := s.(status := Completed, reason := reason);
    SettingIsFree(s, s4);
    Announce(s4, SimulationFinished, NO_ID);
  }

  lemma FreshIsValid(policy: Policy, heartbeatTimeout: int, maxNodes: int, maxProcesses: int)
    ensures Valid(Fresh(policy, heartbeatTimeout, maxNodes, maxProcesses))
  {
    var s := Fresh(policy, heartbeatTimeout, maxNodes, maxProcesses);
    assert Views(s.processes, {}) == map[];
  }

  lemma ResetKeeps(s: State)
    ensures Valid(Reset(s))
  {
    hide Valid;
    FreshIsValid(s.policy, s.heartbeatTimeout, s.maxNodes, s.maxProcesses);
    Announce(Fresh(s.policy, s.heartbeatTimeout, s.maxNodes, s.maxProcesses), SimulationReset, NO_ID);
  }
}
