/** Scenarios: validation (internal/domain/scenario.go), loading (internal/cluster/scenario.go),
    the command set of the controller, and its runs. */
module Scenarios {
  import opened Domain
  import opened Ordering
  import opened Schedulers
  import opened Cluster

  datatype Scenario = Scenario(
    name: string, scheduler: SchedulerName, maxTicks: int,
    nodes: seq<NodeDefinition>, processes: seq<ProcessDefinition>, failures: seq<FailureDefinition>)

  function Max(a: int, b: int): int {
    if a < b then b else a
  }

  // ---------------------------------------------------------------- Scenario.Validate

  function ValidateNodes(defs: seq<NodeDefinition>, seen: set<Id>): Error {
    if defs == [] then Nil
    else if NewNode(defs[0], 0) == None then InvalidInput
    else if defs[0].id in seen then DuplicateNode
    else ValidateNodes(defs[1..], seen + {defs[0].id})
  }

  function ValidateProcesses(defs: seq<ProcessDefinition>, seen: set<Id>, maxTicks: int): Error {
    if defs == [] then Nil
    else if NewProcess(defs[0], Max(defs[0].submitAtTick, 0)) == None then InvalidInput
    else if defs[0].id in seen then DuplicateProcess
    else if defs[0].submitAtTick > maxTicks then InvalidInput
    else ValidateProcesses(defs[1..], seen + {defs[0].id}, maxTicks)
  }

  function NodeIds(defs: seq<NodeDefinition>): set<Id> {
    set d | d in defs :: d.id
  }

  function ProcessIds(defs: seq<ProcessDefinition>): set<Id> {
    set d | d in defs :: d.id
  }

  ghost function DefinitionOf(defs: seq<ProcessDefinition>, id: Id): Option<ProcessDefinition> {
    if exists d :: d in defs && d.id == id then
      var d :| d in defs && d.id == id;
      Some(d)
    else None
  }

  ghost function ValidateFailure(f: FailureDefinition, sc: Scenario): Error {
    if f.tick <= 0 || f.tick > sc.maxTicks then InvalidInput
    else
      match f.kind
      case NodeFailure =>
        if f.nodeId == NO_ID then InvalidInput
        else if f.nodeId !in NodeIds(sc.nodes) then NodeNotFound
        else Nil
      case ProcessFailure =>
        if f.processId == NO_ID then InvalidInput
        else
          (match DefinitionOf(sc.processes, f.processId)
           case None => ProcessNotFound
           case Some(d) => if f.tick < Max(d.submitAtTick, 1) then InvalidInput else Nil)
      case UnsupportedFailure => InvalidInput
  }

  ghost function ValidateFailures(fs: seq<FailureDefinition>, seen: set<FailureDefinition>, sc: Scenario): Error
    decreases |fs|
  {
    if fs == [] then Nil
    else if fs[0].tick <= 0 || fs[0].tick > sc.maxTicks then InvalidInput
    else if fs[0] in seen then InvalidInput
    else if ValidateFailure(fs[0], sc) != Nil then ValidateFailure(fs[0], sc)
    else ValidateFailures(fs[1..], seen + {fs[0]}, sc)
  }

  ghost function Validate(sc: Scenario): Error {
    if sc.name == "" || sc.scheduler == Blank || sc.maxTicks <= 0 || sc.nodes == [] then InvalidInput
    else if ValidateNodes(sc.nodes, {}) != Nil then ValidateNodes(sc.nodes, {})
    else if ValidateProcesses(sc.processes, {}, sc.maxTicks) != Nil then
      ValidateProcesses(sc.processes, {}, sc.maxTicks)
    else ValidateFailures(sc.failures, {}, sc)
  }

  // ---------------------------------------------------------------- prepareScenario

  function BuildNodes(defs: seq<NodeDefinition>, nodes: map<Id, Node>): (map<Id, Node>, Error) {
    if defs == [] then (nodes, Nil)
    else
      match NewNode(defs[0], 0)
      case None => (nodes, InvalidInput)
      case Some(n) =>
        if n.id in nodes then (nodes, DuplicateNode) else BuildNodes(defs[1..], nodes[n.id := n])
  }

  /** Processes due at tick 0 or before enter at once; the others wait under their tick. */
  datatype Intake = Intake(ids: set<Id>, processes: map<Id, Process>, pending: map<int, seq<ProcessDefinition>>)

  function Append<T>(m: map<int, seq<T>>, tick: int, x: T): map<int, seq<T>> {
    m[tick := (if tick in m then m[tick] else []) + [x]]
  }

  function BuildProcesses(defs: seq<ProcessDefinition>, acc: Intake): (Intake, Error) {
    if defs == [] then (acc, Nil)
    else
      var d := defs[0];
      match NewProcess(d, Max(d.submitAtTick, 0))
      case None => (acc, InvalidInput)
      case Some(p) =>
        if p.id in acc.ids then (acc, DuplicateProcess)
        else if d.submitAtTick > 0 then
          BuildProcesses(defs[1..], acc.(ids := acc.ids + {p.id}, pending := Append(acc.pending, d.submitAtTick, d)))
        else
          BuildProcesses(defs[1..], acc.(ids := acc.ids + {p.id},
                                         processes := acc.processes[p.id := p.(state := Ready)]))
  }

  function BuildFailures(fs: seq<FailureDefinition>, nodes: map<Id, Node>, ids: set<Id>,
                         acc: map<int, seq<FailureDefinition>>): (map<int, seq<FailureDefinition>>, Error) {
    if fs == [] then (acc, Nil)
    else if fs[0].kind == NodeFailure && fs[0].nodeId !in nodes then (acc, NodeNotFound)
    else if fs[0].kind != NodeFailure && fs[0].processId !in ids then (acc, ProcessNotFound)
    else BuildFailures(fs[1..], nodes, ids, Append(acc, fs[0].tick, fs[0]))
  }

  datatype Prepared = Prepared(
    nodes: map<Id, Node>, processes: map<Id, Process>, policy: Policy,
    pending: map<int, seq<ProcessDefinition>>, failures: map<int, seq<FailureDefinition>>, maxTicks: int)

  ghost function Prepare(sc: Scenario, maxNodes: int, maxProcesses: int): (Option<Prepared>, Error) {
    if Validate(sc) != Nil then (None, Validate(sc))
    else
      match NewScheduler(sc.scheduler)
      case None => (None, InvalidInput)
      case Some(policy) =>
        if |sc.nodes| > maxNodes || |sc.processes| > maxProcesses then (None, InvalidInput)
        else
          var (nodes, e1) := BuildNodes(sc.nodes, map[]);
          if e1 != Nil then (None, e1)
          else
            var (intake, e2) := BuildProcesses(sc.processes, Intake({}, map[], map[]));
            if e2 != Nil then (None, e2)
            else
              var (failures, e3) := BuildFailures(sc.failures, nodes, intake.ids, map[]);
              if e3 != Nil then (None, e3)
              else (Some(Prepared(nodes, intake.processes, policy, intake.pending, failures, sc.maxTicks)), Nil)
  }

  // ---------------------------------------------------------------- LoadScenario

  function EmitNodes(s: State, ids: seq<Id>): State
    decreases |ids|
  {
    if ids == [] then s else EmitNodes(Emit(s, NodeRegistered, NO_ID, ids[0]), ids[1..])
  }

  function EmitProcesses(s: State, ids: seq<Id>): State
    decreases |ids|
  {
    if ids == [] then s else EmitProcesses(Emit(s, Submitted, ids[0], NO_ID), ids[1..])
  }

  ghost function Install(s: State, p: Prepared): State {
    var s0 := Fresh(p.policy, s.heartbeatTimeout, s.maxNodes, s.maxProcesses)
      .(nodes := p.nodes, processes := p.processes, pending := p.pending, failures := p.failures,
        maxTicks := p.maxTicks);
    var s1 := EmitNodes(s0, SortedIds(p.nodes.Keys));
    var s2 := EmitProcesses(s1, SortedIds(p.processes.Keys));
    Emit(s2, ScenarioLoaded, NO_ID, NO_ID)
  }

  ghost function LoadScenario(s: State, sc: Scenario): Reply {
    var (prepared, error) := Prepare(sc, s.maxNodes, s.maxProcesses);
    if prepared.None? then Reply(s, error) else Reply(Install(s, prepared.value), Nil)
  }

  // ---------------------------------------------------------------- commands and runs

  datatype Command =
    | CmdRegisterNode(node: NodeDefinition)
    | CmdRemoveNode(id: Id)
    | CmdChangeNodeStatus(id: Id, to: NodeStatus)
    | CmdFailNode(id: Id)
    | CmdRecoverNode(id: Id)
    | CmdHeartbeat(id: Id)
    | CmdSubmit(process: ProcessDefinition)
    | CmdPause(id: Id)
    | CmdResume(id: Id)
    | CmdWait(id: Id)
    | CmdWake(id: Id)
    | CmdKill(id: Id)
    | CmdFailProcess(id: Id)
    | CmdSetScheduler(name: SchedulerName)
    | CmdStart
    | CmdPauseSimulation
    | CmdReset
    | CmdFinish(reason: string)
    | CmdLoadScenario(scenario: Scenario)
    | CmdStep
    | CmdSteps(count: int)

  ghost function Execute(s: State, c: Command): Reply {
    match c
    case CmdRegisterNode(d) => RegisterNode(s, d)
    case CmdRemoveNode(id) => RemoveNode(s, id)
    case CmdChangeNodeStatus(id, to) => ChangeNodeStatus(s, id, to)
    case CmdFailNode(id) => FailNode(s, id)
    case CmdRecoverNode(id) => RecoverNode(s, id)
    case CmdHeartbeat(id) => Heartbeat(s, id)
    case CmdSubmit(d) => Submit(s, d)
    case CmdPause(id) => PauseProcess(s, id)
    case CmdResume(id) => ResumeProcess(s, id)
    case CmdWait(id) => WaitProcess(s, id)
    case CmdWake(id) => WakeProcess(s, id)
    case CmdKill(id) => KillProcess(s, id)
    case CmdFailProcess(id) => FailProcess(s, id)
    case CmdSetScheduler(name) => SetScheduler(s, name)
    case CmdStart => Reply(Start(s), Nil)
    case CmdPauseSimulation => Reply(PauseSimulation(s), Nil)
    case CmdReset => Reply(Reset(s), Nil)
    case CmdFinish(reason) => Reply(Finish(s, Requested(reason)), Nil)
    case CmdLoadScenario(sc) => LoadScenario(s, sc)
    case CmdStep => Step(s)
    case CmdSteps(n) => Steps(s, n)
  }

  /** The state after a sequence of commands, failed ones included. */
  ghost function Run(s: State, commands: seq<Command>): State
    decreases |commands|
  {
    if commands == [] then s
    else Execute(Run(s, commands[..|commands| - 1]), commands[|commands| - 1]).state
  }

  datatype Config = Config(scheduler: SchedulerName, heartbeatTimeout: int, maxNodes: int, maxProcesses: int)

  /** `cluster.New`: a blank scheduler means Least Loaded, zero limits mean 100 and 10000. */
  function NewController(config: Config): (Option<State>, Error) {
    var name := if config.scheduler == Blank then LeastLoadedName else config.scheduler;
    var maxNodes := if config.maxNodes == 0 then 100 else config.maxNodes;
    var maxProcesses := if config.maxProcesses == 0 then 10000 else config.maxProcesses;
    if maxNodes < 1 || maxProcesses < 1 || config.heartbeatTimeout < 0 then (None, InvalidInput)
    else
      match NewScheduler(name)
      case None => (None, InvalidInput)
      case Some(policy) => (Some(Fresh(policy, config.heartbeatTimeout, maxNodes, maxProcesses)), Nil)
  }

  ghost predicate Reachable(s: State) {
    exists config, commands :: NewController(config).0.Some? && s == Run(NewController(config).0.value, commands)
  }
}
