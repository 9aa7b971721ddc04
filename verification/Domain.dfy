/** The value types of internal/domain: states, definitions, and the records that
    Node, Process and NodeSnapshot structs hold, with the pure part of their methods. */
module Domain {

  /** Identifiers are abstract: a natural number stands for a (trimmed) string, 0 for the
      empty one, and `<` for the string order the program sorts by. */
  type Id = nat

  const NO_ID: Id := 0

  type pos = x: int | 0 < x witness 1

  datatype Option<+T> = None | Some(value: T)

  datatype Error =
    | Nil
    | NodeNotFound
    | ProcessNotFound
    | DuplicateNode
    | DuplicateProcess
    | InsufficientResources
    | InvalidStateTransition
    | NoSchedulableNode
    | InvalidInput

  datatype ProcessState = New | Ready | Running | Waiting | Paused | Terminated | Failed | Killed {
    predicate IsTerminal() {
      this == Terminated || this == Failed || this == Killed
    }

    /** The transition table `processTransitions`. */
    predicate CanBecome(to: ProcessState) {
      match this
      case New => to == Ready
      case Ready => to == Running || to == Failed || to == Killed
      case Running => to == Ready || to == Waiting || to == Paused || to == Terminated || to == Failed || to == Killed
      case Waiting => to == Ready || to == Failed || to == Killed
      case Paused => to == Ready || to == Failed || to == Killed
      case Failed => to == Ready
      case Terminated => false
      case Killed => false
    }
  }

  datatype NodeStatus = Online | Draining | Offline | NodeFailed | Recovering {
    /** `validNodeTransition`. */
    predicate CanBecome(to: NodeStatus) {
      || this == to
      || match this
         case Online => to == Draining || to == Offline
         case Draining => to == Online || to == Offline
         case Offline => to == Online || to == Recovering
         case Recovering => to == Online
         case NodeFailed => false
    }

    /** The statuses under which a node may hold processes. */
    predicate MayHost() {
      this == Online || this == Draining
    }
  }

  datatype SimulationStatus = Idle | SimRunning | SimPaused | Completed

  datatype FinishReason =
    | Unfinished
    | AllTerminal
    | MaxTicksReached
    | NoOnlineCapacity
    | ExternallyBlocked
    | Requested(message: string)

  datatype RestartPolicy = Unset | Never | OnFailure | Unsupported

  datatype EventKind =
    | NodeRegistered | NodeRemoved | NodeStatusChanged | HeartbeatMissed | NodeDown | NodeRecovered
    | Submitted | Scheduled | Started | PausedEvent | Resumed | WaitingEvent | IOCompleted
    | CompletedEvent | FailedEvent | Restarted | KilledEvent | Deferred | Allocated | Released
    | SimulationStarted | SimulationPaused | SimulationReset | SimulationFinished
    | SchedulerChanged | ScenarioLoaded

  datatype Event = Event(number: nat, tick: int, kind: EventKind, process: Id, node: Id)

  datatype Resource = CPU | Memory

  // ---------------------------------------------------------------- processes

  datatype ProcessDefinition = ProcessDefinition(
    id: Id, name: string, priority: int, cpuRequest: int, memoryRequest: int, totalTicks: int,
    restartPolicy: RestartPolicy, maxRestarts: int, submitAtTick: int)

  datatype Process = Process(
    id: Id, name: string, state: ProcessState, priority: int, cpuRequest: int, memoryRequest: int,
    totalTicks: int, remainingTicks: int, nodeId: Id, restartPolicy: RestartPolicy,
    restartCount: int, maxRestarts: int, submittedAt: int, startedAt: Option<int>,
    finishedAt: Option<int>, lastReadyAt: int, waitingTicks: int)
  {
    predicate Validate() {
      && id != NO_ID && name != ""
      && 0 < cpuRequest && 0 < memoryRequest && 0 < totalTicks && 0 <= maxRestarts
      && (restartPolicy == Never || restartPolicy == OnFailure)
    }

    predicate CanRestart() {
      restartPolicy == OnFailure && restartCount < maxRestarts
    }

    function Request(r: Resource): int {
      match r case CPU => cpuRequest case Memory => memoryRequest
    }
  }

  function NewProcess(def: ProcessDefinition, tick: int): (r: Option<Process>) {
    var policy := if def.restartPolicy == Unset then Never else def.restartPolicy;
    var p := Process(def.id, def.name, New, def.priority, def.cpuRequest, def.memoryRequest,
                     def.totalTicks, def.totalTicks, NO_ID, policy, 0, def.maxRestarts, tick,
                     None, None, tick, 0);
    if p.Validate() then Some(p) else None
  }

  // ---------------------------------------------------------------- nodes

  datatype NodeDefinition = NodeDefinition(id: Id, name: string, cpuCapacity: int, memoryCapacity: int)

  datatype NodeSnapshot = NodeSnapshot(
    id: Id, name: string, status: NodeStatus, cpuCapacity: pos, memoryCapacity: pos,
    cpuAllocated: int, memoryAllocated: int)
  {
    predicate CanFit(p: Process) {
      && status == Online
      && cpuCapacity - cpuAllocated >= p.cpuRequest
      && memoryCapacity - memoryAllocated >= p.memoryRequest
    }
  }

  datatype Node = Node(
    id: Id, name: string, status: NodeStatus, cpuCapacity: pos, memoryCapacity: pos,
    cpuAllocated: int, memoryAllocated: int, running: seq<Id>, lastHeartbeat: int)
  {
    predicate Validate() {
      && id != NO_ID && name != ""
      && 0 <= cpuAllocated <= cpuCapacity
      && 0 <= memoryAllocated <= memoryCapacity
    }

    function Snapshot(): NodeSnapshot {
      NodeSnapshot(id, name, status, cpuCapacity, memoryCapacity, cpuAllocated, memoryAllocated)
    }

    predicate CanFit(p: Process) {
      Snapshot().CanFit(p)
    }

    function Capacity(r: Resource): int {
      match r case CPU => cpuCapacity case Memory => memoryCapacity
    }

    function AllocatedOf(r: Resource): int {
      match r case CPU => cpuAllocated case Memory => memoryAllocated
    }

    /** The record after a successful `Allocate`, or the error it returns. */
    function Allocate(p: Process): (r: (Node, Error)) {
      if !CanFit(p) then (this, InsufficientResources)
      else if p.id in running then (this, InvalidInput)
      else (this.(cpuAllocated := cpuAllocated + p.cpuRequest,
                  memoryAllocated := memoryAllocated + p.memoryRequest,
                  running := running + [p.id]), Nil)
    }

    /** The record after a successful `Release`, or the error it returns. */
    function Release(p: Process): (r: (Node, Error)) {
      if p.id !in running then (this, InvalidInput)
      else if cpuAllocated < p.cpuRequest || memoryAllocated < p.memoryRequest then (this, InvalidInput)
      else (this.(cpuAllocated := cpuAllocated - p.cpuRequest,
                  memoryAllocated := memoryAllocated - p.memoryRequest,
                  running := Without(running, p.id)), Nil)
    }
  }

  function NewNode(def: NodeDefinition, tick: int): (r: Option<Node>) {
    if def.id == NO_ID || def.name == "" || def.cpuCapacity <= 0 || def.memoryCapacity <= 0 then None
    else Some(Node(def.id, def.name, Online, def.cpuCapacity, def.memoryCapacity, 0, 0, [], tick))
  }

  // ---------------------------------------------------------------- scheduled failures

  datatype FailureKind = NodeFailure | ProcessFailure | UnsupportedFailure

  datatype FailureDefinition = FailureDefinition(tick: int, kind: FailureKind, nodeId: Id, processId: Id)

  // ---------------------------------------------------------------- sequences

  ghost predicate NoDuplicates<T>(q: seq<T>) {
    forall i, j | 0 <= i < j < |q| :: q[i] != q[j]
  }

  /** `q` without its first occurrence of `x`. */
  function Without(q: seq<Id>, x: Id): (r: seq<Id>)
  {
    if q == [] then []
    else if q[0] == x then q[1..]
    else [q[0]] + Without(q[1..], x)
  }

  function IndexOf(q: seq<Id>, x: Id): (i: int)
    ensures x in q <==> 0 <= i < |q|
    ensures 0 <= i <= |q|
    ensures i < |q| ==> q[i] == x && x !in q[..i]
  {
    if q == [] then 0
    else if q[0] == x then 0
    else
      var j := IndexOf(q[1..], x);
      assert forall y | y in q :: y == q[0] || y in q[1..];
      assert q[..j+1] == [q[0]] + q[1..][..j];
      j + 1
  }
}
