/** What aging does not give: under the Priority-Aware policy a large job can be overtaken tick after tick,
    for as long as small ones keep arriving. */
module Starvation {
  import opened Domain
  import opened Schedulers
  import opened Cluster
  import opened Scenarios
  import opened Placement
  import opened EventLog
  import opened Invariants
  import opened Commands
  import opened Scheduling
  import opened Tick
  import opened Progress
  import opened Runs

  // ---------------------------------------------------------------- a tick with one job that fits

  /** Nothing scheduled, no heartbeats, no tick limit, and not over. */
  ghost predicate Quiet(s: State) {
    s.pending == map[] && s.failures == map[] && s.heartbeatTimeout <= 0 && s.maxTicks <= 0 && s.status != Completed
  }

  lemma RefusedInPass(s: State, p: Id)
    requires Inv(s, {}, MID) && p in s.processes && s.processes[p].state == Ready && !FitsSomewhere(s, s.processes[p])
    ensures p in ScheduleReady(s).processes && ScheduleReady(s).processes[p] == s.processes[p]
  {
    hide Inv, ScheduleAll, ReadyQueue, FitsSomewhere;
    InvParts(s, {}, MID);
    ReadyQueueOk(s);
    HistoryOf(s, {}, MID, p);
    var queue := ReadyQueue(s);
    var j :| 0 <= j < |queue| && queue[j].id == p;
    RefusedStaysRefused(s, queue, queue[j], j);
  }

  /** Of all that wait, only q fits. */
  ghost predicate OnlyFit(s: State, q: Id) {
    && q in s.processes && s.processes[q].state == Ready && FitsSomewhere(s, s.processes[q])
    && forall p | p in s.processes && s.processes[p].state == Ready && p != q :: !FitsSomewhere(s, s.processes[p])
  }

  /** Then the pass places q and nobody else. */
  lemma OnlyFitIsPlaced(s: State, q: Id)
    requires Inv(s, {}, MID) && OnlyFit(s, q)
    ensures var t := ScheduleReady(s);
      && q in t.processes && IsOnline(s.nodes, t.processes[q].nodeId)
      && t.processes == s.processes[q := PlacedRecord(s.processes[q], s.tick, t.processes[q].nodeId)]
  {
    hide Inv, ScheduleReady, ReadyQueue, FitsSomewhere, Precedes, AllFuller, SameButPolicy, PlacedRecord, IsOnline;
    InvParts(s, {}, MID);
    NothingPrecedesItself(s, q);
    FirstThatFitsIsPlaced(s, q);
    PassIsMaximal(s);
    ReadyQueueOk(s);
    OthersStay(s, q);
    assert Decided(s, ScheduleReady(s), q);
  }

  lemma OthersStay(s: State, q: Id)
    requires Inv(s, {}, MID) && OnlyFit(s, q)
    ensures var t := ScheduleReady(s);
      s.processes.Keys == t.processes.Keys
      && forall p | p in s.processes && p != q :: t.processes[p] == s.processes[p]
  {
    hide Inv, ScheduleReady, ReadyQueue, FitsSomewhere, Decided, AllFuller, SameButPolicy;
    InvParts(s, {}, MID);
    PassIsMaximal(s);
    ReadyQueueOk(s);
    forall p | p in s.processes && p != q ensures ScheduleReady(s).processes[p] == s.processes[p] {
      if s.processes[p].state == Ready {
        RefusedInPass(s, p);
      }
    }
  }

  lemma NothingPrecedesItself(s: State, q: Id)
    requires q in s.processes
    ensures !Precedes(s.policy, s.tick, s.processes[q], s.processes[q])
  {
  }

  /** A pass under the Priority-Aware policy leaves the policy as it is. */
  lemma {:induction false} PriorityStays(s: State, queue: seq<Process>)
    requires s.policy.PriorityAware?
    ensures ScheduleAll(s, queue).policy == s.policy
    decreases |queue|
  {
    if queue != [] {
      PriorityStaysOnce(s, queue[0]);
      PriorityStays(ScheduleOne(s, queue[0]), queue[1..]);
    }
  }

  lemma PriorityStaysOnce(s: State, p: Process)
    requires s.policy.PriorityAware?
    ensures ScheduleOne(s, p).policy == s.policy
  {
    hide Select, Place, Defer, Node.Allocate, Node.Release;
    SelectKeepsPriority(s.policy, p, Snapshots(s.nodes));
    var choice := Select(s.policy, p, Snapshots(s.nodes)).0;
    DeferFields(s, p, if choice.Some? then choice.value else NO_ID);
    if choice.Some? && choice.value in s.nodes {
      PlaceFields(s, p, s.nodes[choice.value].Allocate(p).0, choice.value);
    }
  }

  lemma SelectKeepsPriority(policy: Policy, p: Process, nodes: set<NodeSnapshot>)
    requires policy.PriorityAware?
    ensures Select(policy, p, nodes).1 == policy
  {
  }

  lemma BusyDoesNotStop(s: State, r: Id)
    requires r in s.processes && s.processes[r].state == Running
    requires s.maxTicks <= 0 || s.tick < s.maxTicks
    ensures StopIfDone(s) == s
  {
    assert HasIn(s, {Running});
  }

  /** Up to its end a quiet tick only schedules and works. */
  lemma QuietTrail(s: State)
    requires Valid(s) && Quiet(s) && s.policy.PriorityAware?
    ensures Step(s).error == Nil && Step(s).state == TrailOf(s).final
    ensures var t := TrailOf(s);
      && Inv(t.alive, {}, MID) && t.scheduled == ScheduleReady(t.alive)
      && t.alive.nodes == s.nodes && t.alive.processes == s.processes
      && SameSetting(s, t.alive.(tick := s.tick)) && t.alive.tick == s.tick + 1
      && AllFuller(s.nodes, t.scheduled.nodes) && AllFuller(t.final.nodes, t.scheduled.nodes)
      && t.final.processes == AllExecuted(t.scheduled.processes, RunningSet(t.scheduled), s.tick + 1)
      && t.executed.processes == t.final.processes && t.final == StopIfDone(t.executed)
      && t.executed.status == SimRunning
      && SameSetting(s, t.final.(tick := s.tick, stats := s.stats)) && t.final.tick == s.tick + 1
      && t.executed.maxTicks == s.maxTicks
  {
    hide Inv, Valid, TrailOf, BeginTick, Step, PassEffect, AllFuller, StopIfDone, ScheduleReady, ReadyQueue,
         AllExecuted;
    StepExact(s);
    BeginFields(s);
    NothingScheduled(BeginTick(s));
    TrailIsValid(s);
    TrailEffects(s);
    TrailActs(s);
    var t := TrailOf(s);
    NothingDowned(s.nodes, s.processes, t.acted.tick);
    PassFills(t.alive, t.scheduled, ReadyQueue(t.alive));
    PassSettings(s);
    PassPolicy(t.alive);
  }

  lemma PassPolicy(s: State)
    requires s.policy.PriorityAware?
    ensures ScheduleReady(s).policy == s.policy
  {
    PriorityStays(s, ReadyQueue(s));
  }

  /** A quiet tick starts the only job that fits, and works on it and on those that ran before. */
  lemma OnlyFitTick(s: State, q: Id)
    requires Valid(s) && Quiet(s) && s.policy.PriorityAware? && OnlyFit(s, q) && s.processes[q].remainingTicks > 1
    ensures Step(s).error == Nil
    ensures var t := Step(s).state;
      && Valid(t) && Quiet(t) && t.tick == s.tick + 1
      && SameSetting(s, t.(tick := s.tick, stats := s.stats))
      && q in t.processes
      && t.processes == AllExecuted(s.processes[q := PlacedRecord(s.processes[q], t.tick, t.processes[q].nodeId)],
                                    RunningSet(s) + {q}, t.tick)
      && t.nodes.Keys == s.nodes.Keys
      && (forall n | n in s.nodes :: t.nodes[n].status == s.nodes[n].status
            && t.nodes[n].cpuCapacity == s.nodes[n].cpuCapacity
                && t.nodes[n].memoryCapacity == s.nodes[n].memoryCapacity)
  {
    hide Inv, Valid, TrailOf, Step, AllFuller, StopIfDone, ScheduleReady, FitsSomewhere;
    StepExact(s);
    QuietTrail(s);
    var t := TrailOf(s);
    FitsDependsOnNodes(s, t.alive);
    OnlyFitIsPlaced(t.alive, q);
    FillingAgrees(s.nodes, t.scheduled.nodes, t.final.nodes);
    assert RunningSet(t.scheduled) == RunningSet(s) + {q};
    assert t.executed.processes[q].state == Running;
    BusyDoesNotStop(t.executed, q);
  }

  // ---------------------------------------------------------------- small jobs that keep arriving

  const NODE: Id := 1
  const LARGE: Id := 1

  function Small(k: nat): Id {
    2 + k
  }

  const NODE_DEFINITION := NodeDefinition(NODE, "node", 2, 2)

  /** Asks for the whole node, and has the higher priority. */
  const LARGE_DEFINITION := ProcessDefinition(LARGE, "large", 1, 2, 2, 1, Never, 0, 0)

  /** Asks for half of it, for two ticks. */
  function SmallDefinition(k: nat): ProcessDefinition {
    ProcessDefinition(Small(k), "small", 0, 1, 1, 2, Never, 0, 0)
  }

  function Settings(limit: int): Config {
    Config(PriorityAwareName, 0, 1, limit)
  }

  /** One small job starts, the large one is submitted, and then before each of k ticks another small job is. */
  function Crowding(k: nat): seq<Command> {
    if k == 0 then
      [CmdRegisterNode(NODE_DEFINITION), CmdSubmit(SmallDefinition(0)), CmdStep, CmdSubmit(LARGE_DEFINITION)]
    else Crowding(k - 1) + [CmdSubmit(SmallDefinition(k)), CmdStep]
  }

  function Empty(limit: int): State {
    Fresh(Policy.PriorityAware(5), 0, 1, limit)
  }

  lemma NewIsEmpty(limit: int)
    requires 0 < limit
    ensures NewController(Settings(limit)) == (Some(Empty(limit)), Nil)
  {
  }

  ghost function Crowded(limit: int, k: nat): State {
    Run(Empty(limit), Crowding(k))
  }

  lemma CrowdedIsReachable(limit: int, k: nat)
    requires 0 < limit
    ensures Reachable(Crowded(limit, k))
  {
    hide NewController, Run;
    NewIsEmpty(limit);
  }

  function LargeRecord(): Process {
    Process(LARGE, "large", Ready, 1, 2, 2, 1, 1, NO_ID, Never, 0, 0, 1, None, None, 1, 0)
  }

  /** Half of the only node is taken by the k-th small job, in its last tick; the large one waits. */
  ghost predicate Crowd(s: State, limit: int, k: nat) {
    && Valid(s) && Quiet(s) && s.policy == Policy.PriorityAware(5) && s.tick == k + 1
    && s.maxProcesses == limit && |s.processes| == k + 2
    && s.nodes.Keys == {NODE} && s.nodes[NODE].status == Online
    && s.nodes[NODE].cpuCapacity == 2 && s.nodes[NODE].memoryCapacity == 2
    && LARGE in s.processes && s.processes[LARGE] == LargeRecord()
    && Small(k) in s.processes && HalfDone(s.processes[Small(k)])
    && forall p | p in s.processes :: p <= Small(k)
        && (p == LARGE || p == Small(k) || s.processes[p].state.IsTerminal())
  }

  predicate HalfDone(p: Process) {
    p.state == Running && p.cpuRequest == 1 && p.memoryRequest == 1 && p.remainingTicks == 1
  }

  // ---------------------------------------------------------------- one more small job

  lemma TwoDiffer(q: seq<Id>, x: Id)
    requires NoDuplicates(q) && |q| > 1
    ensures exists y | y in q :: y != x
  {
    assert q[0] in q && q[1] in q && q[0] != q[1];
  }

  /** A node on which at most one process runs has given away no more than that one asks for. */
  lemma OneTenant(s: State, phase: Phase, n: Id, r: Id)
    requires Inv(s, {}, phase) && n in s.nodes && r in s.processes
    requires forall p | p in s.processes && s.processes[p].state == Running :: p == r
    ensures s.nodes[n].cpuAllocated <= s.processes[r].cpuRequest
    ensures s.nodes[n].memoryAllocated <= s.processes[r].memoryRequest
  {
    hide Logged, RecordsOk, RecordOk;
    var running := s.nodes[n].running;
    assert NodeOk(s.nodes[n], n, s.processes, {});
    assert PlacedOk(s.processes[r], r, s.nodes, {});
    if |running| > 1 {
      TwoDiffer(running, r);
    }
    if running != [] {
      assert running[0] in running;
      assert running == [r];
      assert RequestSum([r], s.processes, CPU) == s.processes[r].cpuRequest by { assert [r][1..] == []; }
      assert RequestSum([r], s.processes, Memory) == s.processes[r].memoryRequest by { assert [r][1..] == []; }
    }
  }

  lemma FitsBeside(s: State, k: nat, q: Process)
    requires Valid(s) && s.nodes.Keys == {NODE} && s.nodes[NODE].status == Online
    requires s.nodes[NODE].cpuCapacity == 2 && s.nodes[NODE].memoryCapacity == 2
    requires Small(k) in s.processes && HalfDone(s.processes[Small(k)])
    requires forall p | p in s.processes && s.processes[p].state == Running :: p == Small(k)
    ensures q.cpuRequest == 1 && q.memoryRequest == 1 ==> FitsSomewhere(s, q)
    ensures q.cpuRequest == 2 ==> !FitsSomewhere(s, q)
  {
    hide Placed, Logged, RecordsOk;
    OneTenant(s, Rest, NODE, Small(k));
    HostIsUp(s, {}, Rest, Small(k));
    HostTakes(s, Small(k));
    assert q.cpuRequest == 1 && q.memoryRequest == 1 ==> s.nodes[NODE].CanFit(q);
  }

  lemma HostTakes(s: State, r: Id)
    requires Valid(s) && r in s.processes && s.processes[r].state == Running
    ensures s.processes[r].nodeId in s.nodes && s.nodes[s.processes[r].nodeId].cpuAllocated >= s.processes[r].cpuRequest
  {
    hide Logged, RecordsOk;
    HostIsUp(s, {}, Rest, r);
    var host := s.processes[r].nodeId;
    assert NodeOk(s.nodes[host], host, s.processes, {});
    assert forall x | x in s.nodes[host].running :: PlacedOk(s.processes[x], x, s.nodes, {});
    RequestSumAtLeast(s.nodes[host].running, r, s.processes, CPU);
  }

  lemma SmallEnters(s: State, limit: int, k: nat)
    requires Crowd(s, limit, k) && k + 3 <= limit
    ensures Execute(s, CmdSubmit(SmallDefinition(k + 1))).error == Nil
    ensures var t := Execute(s, CmdSubmit(SmallDefinition(k + 1))).state;
      && Valid(t) && Quiet(t) && SameSetting(s, t) && t.nodes == s.nodes
      && t.processes == s.processes[Small(k + 1) := SmallRecord(k + 1)]
      && Small(k + 1) !in s.processes
  {
    hide Valid;
    SubmitExact(s, SmallDefinition(k + 1));
  }

  /** The k-th small job as it is submitted. */
  function SmallRecord(k: nat): Process {
    Process(Small(k), "small", Ready, 0, 1, 1, 2, 2, NO_ID, Never, 0, 0, k, None, None, k, 0)
  }

  /** Of the two that wait, only the small one fits beside the one that runs. */
  lemma SmallFits(s: State, t: State, limit: int, k: nat)
    requires Crowd(s, limit, k) && Valid(t) && t.nodes == s.nodes
    requires t.processes == s.processes[Small(k + 1) := SmallRecord(k + 1)]
    ensures OnlyFit(t, Small(k + 1)) && RunningSet(t) == {Small(k)}
  {
    hide Valid, Quiet, FitsSomewhere;
    FitsBeside(t, k, LargeRecord());
    FitsBeside(t, k, SmallRecord(k + 1));
  }

  /** The process table over such a tick: the k-th small job ends, the next one starts. */
  lemma CrowdTable(a: map<Id, Process>, b: map<Id, Process>, k: nat, host: Id)
    requires |a| == k + 2 && LARGE in a && a[LARGE] == LargeRecord() && Small(k) in a && HalfDone(a[Small(k)])
    requires forall p | p in a :: p <= Small(k) && (p == LARGE || p == Small(k) || a[p].state.IsTerminal())
    requires b == AllExecuted(a[Small(k + 1) := PlacedRecord(SmallRecord(k + 1), k + 2, host)],
                              {Small(k)} + {Small(k + 1)}, k + 2)
    ensures |b| == k + 3 && LARGE in b && b[LARGE] == LargeRecord()
    ensures Small(k + 1) in b && HalfDone(b[Small(k + 1)])
    ensures var q := b[Small(k + 1)];
      q.startedAt == Some(k + 2) && q.priority == 0 && q.submittedAt == k + 1 && q.lastReadyAt == k + 1
    ensures forall p | p in b :: p <= Small(k + 1) && (p == LARGE || p == Small(k + 1) || b[p].state.IsTerminal())
  {
    assert b.Keys == a.Keys + {Small(k + 1)} && Small(k + 1) !in a.Keys;
    assert |a.Keys| == |a| && |b.Keys| == |b|;
  }

  lemma CrowdTick(s: State, limit: int, k: nat)
    requires Crowd(s, limit, k) && k + 3 <= limit
    ensures var submitted := Execute(s, CmdSubmit(SmallDefinition(k + 1))).state;
      var t := Execute(submitted, CmdStep).state;
      && Crowd(t, limit, k + 1)
      && Small(k + 1) !in s.processes
      && t.processes[Small(k + 1)].startedAt == Some(t.tick) && t.processes[Small(k + 1)].priority == 0
      && t.processes[Small(k + 1)].submittedAt == k + 1 && t.processes[Small(k + 1)].lastReadyAt == k + 1
  {
    hide Valid, Quiet, FitsSomewhere, Step, OnlyFit, HalfDone, PlacedRecord, AllExecuted, RunningSet, Submit;
    SmallEnters(s, limit, k);
    var submitted := Execute(s, CmdSubmit(SmallDefinition(k + 1))).state;
    SmallFits(s, submitted, limit, k);
    SmallIsNew(k + 1);
    OnlyFitTick(submitted, Small(k + 1));
    var t := Step(submitted).state;
    var placed := PlacedRecord(SmallRecord(k + 1), k + 2, t.processes[Small(k + 1)].nodeId);
    assert submitted.processes[Small(k + 1) := placed] == s.processes[Small(k + 1) := placed];
    CrowdTable(s.processes, t.processes, k, t.processes[Small(k + 1)].nodeId);
  }

  lemma SmallIsNew(k: nat)
    ensures SmallRecord(k).remainingTicks > 1
  {
  }

  // ---------------------------------------------------------------- how it starts

  ghost function Opened(limit: int): State {
    var s := RegisterNode(Empty(limit), NODE_DEFINITION).state;
    Submit(s, SmallDefinition(0)).state
  }

  lemma OpensWithOne(limit: int)
    requires 2 <= limit
    ensures var s := Opened(limit);
      && Valid(s) && Quiet(s) && s.policy == Policy.PriorityAware(5) && s.tick == 0 && s.maxProcesses == limit
      && s.processes == map[Small(0) := SmallRecord(0)]
      && s.nodes == map[NODE := Node(NODE, "node", Online, 2, 2, 0, 0, [], 0)]
  {
    hide Valid;
    var s0 := Empty(limit);
    FreshIsValid(Policy.PriorityAware(5), 0, 1, limit);
    RegisterNodeExact(s0, NODE_DEFINITION);
    SubmitExact(RegisterNode(s0, NODE_DEFINITION).state, SmallDefinition(0));
  }

  lemma FirstFits(s: State)
    requires s.processes == map[Small(0) := SmallRecord(0)]
    requires s.nodes == map[NODE := Node(NODE, "node", Online, 2, 2, 0, 0, [], 0)]
    ensures OnlyFit(s, Small(0)) && RunningSet(s) == {}
  {
    assert s.nodes[NODE].CanFit(SmallRecord(0));
  }

  lemma FirstTable(a: map<Id, Process>, b: map<Id, Process>, host: Id)
    requires a == map[Small(0) := SmallRecord(0)]
    requires b == AllExecuted(a[Small(0) := PlacedRecord(SmallRecord(0), 1, host)], {} + {Small(0)}, 1)
    ensures b.Keys == {Small(0)} && HalfDone(b[Small(0)]) && |b| == 1
  {
    assert b.Keys == {Small(0)};
    assert |b| == |b.Keys|;
  }

  lemma FirstTick(limit: int)
    requires 2 <= limit
    ensures var s := Step(Opened(limit)).state;
      && Valid(s) && Quiet(s) && s.policy == Policy.PriorityAware(5) && s.tick == 1 && s.maxProcesses == limit
      && s.processes.Keys == {Small(0)} && HalfDone(s.processes[Small(0)]) && |s.processes| == 1
      && s.nodes.Keys == {NODE} && s.nodes[NODE].status == Online
      && s.nodes[NODE].cpuCapacity == 2 && s.nodes[NODE].memoryCapacity == 2
  {
    hide Valid, Quiet, OnlyFit, Step, PlacedRecord, AllExecuted, RunningSet, HalfDone, Opened;
    OpensWithOne(limit);
    var s := Opened(limit);
    FirstFits(s);
    SmallIsNew(0);
    OnlyFitTick(s, Small(0));
    FirstTable(s.processes, Step(s).state.processes, Step(s).state.processes[Small(0)].nodeId);
  }

  lemma LargeEnters(s: State, limit: int)
    requires Valid(s) && Quiet(s) && s.policy == Policy.PriorityAware(5) && s.tick == 1 && s.maxProcesses == limit
    requires 2 <= limit && s.processes.Keys == {Small(0)} && HalfDone(s.processes[Small(0)]) && |s.processes| == 1
    requires s.nodes.Keys == {NODE} && s.nodes[NODE].status == Online
    requires s.nodes[NODE].cpuCapacity == 2 && s.nodes[NODE].memoryCapacity == 2
    ensures Crowd(Submit(s, LARGE_DEFINITION).state, limit, 0)
  {
    hide Valid, HalfDone;
    SubmitExact(s, LARGE_DEFINITION);
    var t := Submit(s, LARGE_DEFINITION).state;
    assert t.processes.Keys == {Small(0), LARGE};
    assert |t.processes.Keys| == 2;
  }

  lemma CrowdStarts(limit: int)
    requires 2 <= limit
    ensures Crowd(Crowded(limit, 0), limit, 0)
  {
    hide Crowd, Run, Valid, Quiet, Submit, Step, RegisterNode;
    var s0 := Empty(limit);
    NoCommands(s0);
    var register, small := CmdRegisterNode(NODE_DEFINITION), CmdSubmit(SmallDefinition(0));
    assert Crowding(0) == ([] + [register, small]) + [CmdStep, CmdSubmit(LARGE_DEFINITION)];
    RunTwo(s0, [], register, small);
    RunTwo(s0, [] + [register, small], CmdStep, CmdSubmit(LARGE_DEFINITION));
    FirstTick(limit);
    LargeEnters(Step(Opened(limit)).state, limit);
  }

  // ---------------------------------------------------------------- and never ends

  lemma {:induction false} CrowdStays(limit: int, k: nat)
    requires k + 2 <= limit
    ensures Crowd(Crowded(limit, k), limit, k)
    decreases k
  {
    hide Crowd, Execute, Run;
    if k == 0 {
      CrowdStarts(limit);
    } else {
      CrowdStays(limit, k - 1);
      CrowdTick(Crowded(limit, k - 1), limit, k - 1);
      CrowdGrows(limit, k - 1);
    }
  }

  lemma CrowdGrows(limit: int, k: nat)
    ensures Crowded(limit, k + 1)
         == Execute(Execute(Crowded(limit, k), CmdSubmit(SmallDefinition(k + 1))).state, CmdStep).state
  {
    hide Execute, Run;
    RunTwo(Empty(limit), Crowding(k), CmdSubmit(SmallDefinition(k + 1)), CmdStep);
  }

  /** q came after p and ranks below it, and yet a pass has just placed q and left p waiting. */
  ghost predicate PassedOver(s: State, t: State, p: Id, q: Id) {
    && p in s.processes && s.processes[p].state == Ready && p in t.processes && t.processes[p] == s.processes[p]
    && q !in s.processes && q in t.processes && t.processes[q].state == Running
    && t.processes[q].startedAt == Some(t.tick)
    && t.policy.PriorityAware?
    && Precedes(t.policy, t.tick, t.processes[p], t.processes[q])
  }

  /** Aging does not prevent starvation. From a new controller under the Priority-Aware policy, with aging
      interval 5, there is for every k a run in which the large job, which the only node would have room for
      and which ranks first all the time, is passed over in each of k ticks by a job submitted after it,
      while its effective priority grows with k. Only the limit on process records ends the arrivals. */
  lemma LargeJobStarves(limit: int, k: nat)
    requires k + 3 <= limit
    ensures var s, t := Crowded(limit, k), Crowded(limit, k + 1);
      && Reachable(s) && Reachable(t)
      && s.tick == k + 1 && t.tick == k + 2 && t.policy == Policy.PriorityAware(5)
      && PassedOver(s, t, LARGE, Small(k + 1))
      && EffectivePriority(5, t.processes[LARGE], t.tick) >= 1 + k / 5
      && t.nodes.Keys == {NODE} && t.nodes[NODE].status == Online
      && t.nodes[NODE].cpuCapacity >= t.processes[LARGE].cpuRequest
      && t.nodes[NODE].memoryCapacity >= t.processes[LARGE].memoryRequest
  {
    hide Run, Execute, Valid, Quiet, Crowded, Reachable;
    CrowdedIsReachable(limit, k);
    CrowdedIsReachable(limit, k + 1);
    CrowdStays(limit, k);
    CrowdStays(limit, k + 1);
    CrowdTick(Crowded(limit, k), limit, k);
    CrowdGrows(limit, k);
    Ranks(k);
  }

  lemma Ranks(k: nat)
    ensures (k + 1) / 5 >= k / 5 && (k + 2 - (k + 1)) / 5 == 0
  {
  }
}
