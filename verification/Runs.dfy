/** Every run: what holds in each state the controller can reach, by any sequence of commands. */
module Runs {
  import opened Domain
  import opened Schedulers
  import opened Cluster
  import opened Scenarios
  import opened Invariants
  import opened Failures
  import opened Commands
  import opened Scheduling
  import opened Tick
  import opened Progress
  import opened Loading

  // ---------------------------------------------------------------- fresh heartbeats

  predicate FreshNode(n: Node, tick: int, timeout: int) {
    n.status == Online && 0 < timeout ==> tick - n.lastHeartbeat <= timeout
  }

  /** No ONLINE node has missed its heartbeat for longer than the timeout. */
  ghost predicate FreshHeartbeats(s: State) {
    forall n | n in s.nodes :: FreshNode(s.nodes[n], s.tick, s.heartbeatTimeout)
  }

  /** What holds between commands in every run. */
  ghost predicate Settled(s: State) {
    Valid(s) && Calendar(s) && FreshHeartbeats(s) && 0 <= s.heartbeatTimeout
  }

  /** Nodes only change in ways that cannot make an ONLINE node stale at this tick. */
  ghost predicate Calm(a: map<Id, Node>, b: map<Id, Node>, tick: int) {
    forall n | n in b ::
      || b[n].status != Online
      || b[n].lastHeartbeat == tick
      || (n in a && a[n].status == Online && a[n].lastHeartbeat == b[n].lastHeartbeat)
  }

  lemma CalmKeepsFresh(s: State, t: State)
    requires FreshHeartbeats(s) && Calm(s.nodes, t.nodes, s.tick) && 0 <= s.heartbeatTimeout
    requires t.tick == s.tick && t.heartbeatTimeout == s.heartbeatTimeout
    ensures FreshHeartbeats(t)
  {
    forall n | n in t.nodes ensures FreshNode(t.nodes[n], t.tick, t.heartbeatTimeout) {
      if n in s.nodes {
        assert FreshNode(s.nodes[n], s.tick, s.heartbeatTimeout);
      }
    }
  }

  /** Commands that neither tick, nor load, nor reset. */
  predicate IsPlain(c: Command) {
    !c.CmdStep? && !c.CmdSteps? && !c.CmdLoadScenario? && !c.CmdReset?
  }

  predicate SameCalendar(a: State, b: State) {
    a.tick == b.tick && a.pending == b.pending && a.failures == b.failures && a.heartbeatTimeout == b.heartbeatTimeout
    && a.maxTicks == b.maxTicks && a.maxNodes == b.maxNodes && a.maxProcesses == b.maxProcesses
  }

  ghost predicate Plainly(s: State, t: State) {
    SameCalendar(s, t) && Calm(s.nodes, t.nodes, s.tick)
  }

  lemma ReleaseIsCalm(s: State, id: Id)
    requires id in s.processes
    ensures Plainly(s, Release(s, id).state) && id in Release(s, id).state.processes
  {
  }

  lemma SuspendIsCalm(s: State, id: Id, to: ProcessState, kind: EventKind)
    ensures Plainly(s, Suspend(s, id, to, kind).state)
  {
    hide Release;
    if id in s.processes { ReleaseIsCalm(s, id); }
  }

  lemma EmitIsCalm(s: State, processes: map<Id, Process>, kind: EventKind, id: Id, node: Id)
    ensures Plainly(s, Emit(s.(processes := processes), kind, id, node))
    ensures Plainly(s, s)
  {
  }

  lemma RequeueIsCalm(s: State, id: Id, from: ProcessState, kind: EventKind)
    ensures Plainly(s, Requeue(s, id, from, kind).state)
  {
    hide Plainly, Emit;
    if id in s.processes {
      EmitIsCalm(s, s.processes[id := s.processes[id].(state := Ready, lastReadyAt := s.tick)], kind, id, NO_ID);
    } else {
      EmitIsCalm(s, s.processes, kind, id, NO_ID);
    }
  }

  lemma KillIsCalm(s: State, id: Id)
    ensures Plainly(s, KillProcess(s, id).state)
  {
    hide Release;
    if id in s.processes { ReleaseIsCalm(s, id); }
  }

  lemma SubmitIsCalm(s: State, d: ProcessDefinition)
    ensures Plainly(s, Submit(s, d).state)
  {
  }

  lemma PlainProcessCommand(s: State, c: Command)
    requires c.CmdSubmit? || c.CmdPause? || c.CmdResume? || c.CmdWait? || c.CmdWake? || c.CmdKill?
    ensures Plainly(s, Execute(s, c).state)
  {
    hide Plainly, Suspend, Requeue, KillProcess, Submit, Step, Steps, RegisterNode, RemoveNode, ChangeNodeStatus,
         FailNode, RecoverNode, Heartbeat, FailProcess, SetScheduler, Start, PauseSimulation, Reset, Finish,
         LoadScenario;
    match c
    case CmdSubmit(d) => SubmitIsCalm(s, d);
    case CmdPause(id) => SuspendIsCalm(s, id, Paused, PausedEvent);
    case CmdWait(id) => SuspendIsCalm(s, id, Waiting, WaitingEvent);
    case CmdResume(id) => RequeueIsCalm(s, id, Paused, Resumed);
    case CmdWake(id) => RequeueIsCalm(s, id, Waiting, IOCompleted);
    case CmdKill(id) => KillIsCalm(s, id);
  }

  lemma PlainFailure(s: State, c: Command)
    requires Valid(s) && (c.CmdFailProcess? || c.CmdFailNode? || (c.CmdChangeNodeStatus? && c.to == NodeFailed))
    ensures var t := Execute(s, c).state; SameCalendar(s, t) && Calm(s.nodes, t.nodes, s.tick)
  {
    hide Inv, FailNodeLocked, FailProcessLocked, AllFailed, FailedRecord, Step, Steps, Submit, Suspend, Requeue,
         KillProcess, RegisterNode, RemoveNode, RecoverNode, Heartbeat, SetScheduler, Start, PauseSimulation, Reset,
         Finish, LoadScenario;
    if c.CmdFailProcess? {
      if c.id in s.processes { FailProcessExact(s, {}, Rest, c.id); }
    } else if c.id in s.nodes {
      FailNodeExact(s, Rest, c.id);
    }
  }

  lemma PlainNodeCommand(s: State, c: Command)
    requires Valid(s)
    requires c.CmdRegisterNode? || c.CmdRemoveNode? || c.CmdRecoverNode? || c.CmdHeartbeat?
             || (c.CmdChangeNodeStatus? && c.to != NodeFailed)
    ensures var t := Execute(s, c).state; SameCalendar(s, t) && Calm(s.nodes, t.nodes, s.tick)
  {
    hide Valid, Step, Steps, Submit, Suspend, Requeue, KillProcess, FailNode, FailNodeLocked, FailProcess,
         SetScheduler, Start, PauseSimulation, Reset, Finish, LoadScenario, RecoverNode, ChangeNodeStatus;
    match c
    case CmdRecoverNode(id) => RecoveryIsCalm(s, id);
    case CmdChangeNodeStatus(id, to) => ChangeIsCalm(s, id, to);
    case _ =>
  }

  lemma RecoveryIsCalm(s: State, id: Id)
    ensures Plainly(s, RecoverNode(s, id).state)
  {
  }

  lemma ChangeIsCalm(s: State, id: Id, to: NodeStatus)
    requires to != NodeFailed
    ensures Plainly(s, ChangeNodeStatus(s, id, to).state)
  {
    hide FailNodeLocked;
  }

  lemma PlainControl(s: State, c: Command)
    requires c.CmdSetScheduler? || c.CmdStart? || c.CmdPauseSimulation? || c.CmdFinish?
    ensures var t := Execute(s, c).state; SameCalendar(s, t) && t.nodes == s.nodes && t.processes == s.processes
  {
    hide Step, Steps, Submit, Suspend, Requeue, KillProcess, FailNode, FailProcess, RegisterNode, RemoveNode,
         ChangeNodeStatus, RecoverNode, Heartbeat, Reset, LoadScenario;
  }

  /** Every command keeps the invariant, and a rejected command, ticks included, changes nothing. */
  lemma PlainKeepsValid(s: State, c: Command)
    requires Valid(s) && IsPlain(c)
    ensures Valid(Execute(s, c).state)
    ensures Execute(s, c).error != Nil ==> Execute(s, c).state == s
  {
    hide Valid, Step, StepLoop, FailNodeLocked, FailProcessLocked, Requeue, Suspend, Submit, KillProcess, RegisterNode,
         RemoveNode, RecoverNode, Heartbeat, ChangeNodeStatus, FailNode, FailProcess, Start, PauseSimulation, Finish;
    match c
    case CmdRegisterNode(d) => RegisterNodeExact(s, d);
    case CmdRemoveNode(id) => RemoveNodeExact(s, id);
    case CmdChangeNodeStatus(id, to) => ChangeNodeStatusExact(s, id, to);
    case CmdFailNode(id) => FailNodeCommand(s, id);
    case CmdRecoverNode(id) => RecoverNodeExact(s, id);
    case CmdHeartbeat(id) => HeartbeatExact(s, id);
    case CmdSubmit(d) => SubmitExact(s, d);
    case CmdPause(id) => SuspendExact(s, id, Paused, PausedEvent);
    case CmdResume(id) => RequeueExact(s, id, Paused, Resumed);
    case CmdWait(id) => SuspendExact(s, id, Waiting, WaitingEvent);
    case CmdWake(id) => RequeueExact(s, id, Waiting, IOCompleted);
    case CmdKill(id) => KillExact(s, id);
    case CmdFailProcess(id) => FailProcessCommand(s, id);
    case CmdSetScheduler(name) => ControlKeeps(s, name, Unfinished);
    case CmdStart => ControlKeeps(s, Blank, Unfinished);
    case CmdPauseSimulation => ControlKeeps(s, Blank, Unfinished);
    case CmdFinish(reason) => ControlKeeps(s, Blank, Requested(reason));
  }

  lemma PlainIsCalm(s: State, c: Command)
    requires Valid(s) && IsPlain(c)
    ensures var t := Execute(s, c).state; SameCalendar(s, t) && Calm(s.nodes, t.nodes, s.tick)
  {
    hide Valid, Execute;
    match c
    case CmdRegisterNode(_) => PlainNodeCommand(s, c);
    case CmdRemoveNode(_) => PlainNodeCommand(s, c);
    case CmdRecoverNode(_) => PlainNodeCommand(s, c);
    case CmdHeartbeat(_) => PlainNodeCommand(s, c);
    case CmdChangeNodeStatus(_, to) => if to == NodeFailed { PlainFailure(s, c); } else { PlainNodeCommand(s, c); }
    case CmdFailNode(_) => PlainFailure(s, c);
    case CmdFailProcess(_) => PlainFailure(s, c);
    case CmdSubmit(_) => PlainProcessCommand(s, c);
    case CmdPause(_) => PlainProcessCommand(s, c);
    case CmdResume(_) => PlainProcessCommand(s, c);
    case CmdWait(_) => PlainProcessCommand(s, c);
    case CmdWake(_) => PlainProcessCommand(s, c);
    case CmdKill(_) => PlainProcessCommand(s, c);
    case CmdSetScheduler(_) => PlainControl(s, c);
    case CmdStart => PlainControl(s, c);
    case CmdPauseSimulation => PlainControl(s, c);
    case CmdFinish(_) => PlainControl(s, c);
  }

  // ---------------------------------------------------------------- heartbeats over a tick

  lemma DetectionFreshens(s: State, t: State)
    requires t.nodes == Downed(s.nodes, StaleNow(s)) && t.tick == s.tick && t.heartbeatTimeout == s.heartbeatTimeout
    ensures FreshHeartbeats(t)
  {
  }

  lemma FillingKeepsFresh(s: State, t: State)
    requires FreshHeartbeats(s) && (AllFuller(s.nodes, t.nodes) || AllFuller(t.nodes, s.nodes))
    requires t.tick == s.tick && t.heartbeatTimeout == s.heartbeatTimeout
    ensures FreshHeartbeats(t)
  {
    assert AllFuller(s.nodes, t.nodes) ==> forall n | n in s.nodes :: Fuller(s.nodes[n], t.nodes[n]);
    assert AllFuller(t.nodes, s.nodes) ==> forall n | n in t.nodes :: Fuller(t.nodes[n], s.nodes[n]);
    forall n | n in t.nodes ensures FreshNode(t.nodes[n], t.tick, t.heartbeatTimeout) {
      assert FreshNode(s.nodes[n], s.tick, s.heartbeatTimeout);
    }
  }

  /** Whatever the state before, the scheduling pass of a tick and the state after it see no stale node. */
  lemma TickIsFresh(s: State)
    requires Valid(s)
    ensures FreshHeartbeats(TrailOf(s).alive)
    ensures Step(s).error == Nil ==>
      FreshHeartbeats(Step(s).state) && Step(s).state.heartbeatTimeout == s.heartbeatTimeout
  {
    hide Inv, Valid, Step, TrailOf, PassEffect, AllFuller, FreshHeartbeats, StaleNodes;
    StepExact(s);
    TrailEffects(s);
    var t := TrailOf(s);
    DetectionFreshens(t.acted, t.alive);
    PassFills(t.alive, t.scheduled, ReadyQueue(t.alive));
    PassSettings(s);
    FillingKeepsFresh(t.alive, t.scheduled);
    FillingKeepsFresh(t.scheduled, t.executed);
    FreshDependsOn(t.executed, t.final);
  }

  /** The pass of a tick places no process on a node that has missed its heartbeats: whoever starts
      running in it runs on a node that is ONLINE and fresh. */
  lemma NothingPlacedOnStale(s: State, id: Id)
    requires Valid(s) && id in TrailOf(s).alive.processes && TrailOf(s).alive.processes[id].state == Ready
    ensures var a, t := TrailOf(s).alive, TrailOf(s).scheduled;
      && id in t.processes
      && (t.processes[id].state == Running ==>
            && IsOnline(a.nodes, t.processes[id].nodeId)
            && (0 < a.heartbeatTimeout ==>
                  a.tick - a.nodes[t.processes[id].nodeId].lastHeartbeat <= a.heartbeatTimeout))
  {
    hide Inv, Valid, Step, TrailOf, AllFuller, StaleNodes, ReadyQueue, FitsSomewhere;
    TrailIsValid(s);
    TrailEffects(s);
    TickIsFresh(s);
    var a, t := TrailOf(s).alive, TrailOf(s).scheduled;
    var host := if id in t.processes then t.processes[id].nodeId else NO_ID;
    assert host in a.nodes ==> FreshNode(a.nodes[host], a.tick, a.heartbeatTimeout);
  }

  lemma FreshDependsOn(s: State, t: State)
    requires FreshHeartbeats(s) && s.nodes == t.nodes && s.tick == t.tick && s.heartbeatTimeout == t.heartbeatTimeout
    ensures FreshHeartbeats(t)
  {
  }

  // ---------------------------------------------------------------- all commands, all runs

  lemma NoCommands(s: State)
    ensures Run(s, []) == s
  {
  }

  lemma RunTwo(s: State, commands: seq<Command>, c: Command, d: Command)
    ensures Run(s, commands + [c, d]) == Execute(Execute(Run(s, commands), c).state, d).state
  {
    hide Execute;
    var all := commands + [c, d];
    assert all[..|all| - 1] == commands + [c];
    assert (commands + [c])[..|commands|] == commands;
  }

  lemma SettledTick(s: State)
    requires Settled(s)
    ensures Settled(Step(s).state)
  {
    hide Valid, Step, Calendar, FreshHeartbeats, TrailOf;
    StepExact(s);
    if Step(s).error == Nil {
      CalendarTick(s);
      TickIsFresh(s);
    }
  }

  lemma {:induction false} SettledLoop(s: State, count: nat)
    requires Settled(s)
    ensures Settled(StepLoop(s, count).state)
    decreases count
  {
    hide Settled, Step;
    if count > 0 {
      SettledTick(s);
      SettledLoop(Step(s).state, count - 1);
    }
  }

  lemma SettledPlain(s: State, c: Command)
    requires Settled(s) && IsPlain(c)
    ensures Settled(Execute(s, c).state)
  {
    hide Valid, Execute, Calm, FreshHeartbeats;
    PlainKeepsValid(s, c);
    PlainIsCalm(s, c);
    CalmKeepsFresh(s, Execute(s, c).state);
  }

  lemma SettledLoad(s: State, sc: Scenario)
    requires Settled(s)
    ensures Settled(LoadScenario(s, sc).state)
  {
    hide Valid, Calendar, NewNodeOk, NewProcessOk;
    LoadExact(s, sc);
    PrepareOk(sc, s.maxNodes, s.maxProcesses);
    var (p, e) := Prepare(sc, s.maxNodes, s.maxProcesses);
    if p.Some? {
      LoadedLogs(s, p.value);
      LoadedFresh(s, p.value);
    }
  }

  lemma LoadedFresh(s: State, p: Prepared)
    requires PreparedOk(p) && 0 <= s.heartbeatTimeout
    ensures FreshHeartbeats(Install(s, p)) && Install(s, p).heartbeatTimeout == s.heartbeatTimeout
  {
    LoadedLogs(s, p);
    assert forall n | n in p.nodes :: NewNodeOk(p.nodes[n], n);
  }

  lemma SettledReset(s: State)
    requires Settled(s)
    ensures Settled(Reset(s))
  {
    hide Valid;
    ResetKeeps(s);
  }

  lemma SettledCommand(s: State, c: Command)
    requires Settled(s)
    ensures Settled(Execute(s, c).state)
  {
    hide Settled, Step, StepLoop, LoadScenario, Reset;
    if IsPlain(c) {
      SettledPlain(s, c);
    } else {
      match c
      case CmdStep => SettledTick(s);
      case CmdSteps(n) => if n > 0 { SettledLoop(s, n); }
      case CmdReset => SettledReset(s);
      case CmdLoadScenario(sc) => SettledLoad(s, sc);
    }
  }

  lemma NewIsSettled(config: Config)
    ensures NewController(config).0.Some? ==> Settled(NewController(config).0.value)
  {
    hide Valid;
    if NewController(config).0.Some? {
      var s := NewController(config).0.value;
      FreshIsValid(s.policy, s.heartbeatTimeout, s.maxNodes, s.maxProcesses);
    }
  }

  lemma {:induction false} RunIsSettled(s: State, commands: seq<Command>)
    requires Settled(s)
    ensures Settled(Run(s, commands))
    decreases |commands|
  {
    hide Settled, Execute;
    if commands != [] {
      RunIsSettled(s, commands[..|commands| - 1]);
      SettledCommand(Run(s, commands[..|commands| - 1]), commands[|commands| - 1]);
    }
  }

  /** Every reachable state, whatever commands were given and whichever of them failed: placement is
      consistent and idle nodes are empty, the log tells the state, every record's history is in order,
      scheduled actions lie ahead, and no ONLINE node is stale. */
  lemma ReachableIsSettled(s: State)
    requires Reachable(s)
    ensures Settled(s) && InvariantsHold(s.nodes, s.processes)
  {
    hide Run, Valid, Calendar, FreshHeartbeats, InvariantsHold;
    var config, commands :| NewController(config).0.Some? && s == Run(NewController(config).0.value, commands);
    NewIsSettled(config);
    RunIsSettled(NewController(config).0.value, commands);
    InvariantCheckPasses(s);
  }
}
