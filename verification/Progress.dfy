/** When the simulation stops for lack of progress, and why it always stops. */
module Progress {
  import opened Domain
  import opened Sums
  import opened Schedulers
  import opened Cluster
  import opened Scenarios
  import opened Placement
  import opened EventLog
  import opened Invariants
  import opened Failures
  import opened Commands
  import opened Scheduling
  import opened Tick

  // ---------------------------------------------------------------- nothing can move

  /** Nothing is scheduled, nothing runs, and nothing that is READY fits anywhere. */
  ghost predicate Stuck(s: State) {
    && s.pending == map[] && s.failures == map[]
    && forall id | id in s.processes ::
         && s.processes[id].state != Running
         && (s.processes[id].state == Ready ==> !FitsSomewhere(s, s.processes[id]))
  }

  lemma BlockReasonMeansStuck(s: State)
    ensures BlockReason(s) in {NoOnlineCapacity, ExternallyBlocked} ==> Stuck(s)
    ensures BlockReason(s) in {Unfinished, NoOnlineCapacity, ExternallyBlocked}
  {
    hide FitsSomewhere;
    if BlockReason(s) != Unfinished {
      assert !HasIn(s, {Running});
      forall id | id in s.processes ensures s.processes[id].state != Running {
      }
    }
  }

  /** A tick that stops for lack of progress leaves a stuck state. */
  lemma BlockedTickIsStuck(s: State)
    requires Valid(s) && Step(s).error == Nil
    requires Step(s).state.status == Completed && Step(s).state.reason in {NoOnlineCapacity, ExternallyBlocked}
    ensures Stuck(Step(s).state)
  {
    hide Inv, Valid, Step, TrailOf, AllProcessesTerminal, BlockReason, FitsSomewhere, PassEffect, AllFuller;
    StepExact(s);
    TrailEffects(s);
    BlockReasonMeansStuck(TrailOf(s).executed);
    StopForm(s);
    FitsDependsOnNodes(TrailOf(s).executed, TrailOf(s).final);
  }

  lemma StopForm(s: State)
    ensures TrailOf(s).final == StopIfDone(TrailOf(s).executed)
  {
  }

  /** If nothing READY fits, a scheduling pass moves nothing. */
  lemma PassMovesNothing(s: State)
    requires Inv(s, {}, MID)
    requires forall id | id in s.processes && s.processes[id].state == Ready :: !FitsSomewhere(s, s.processes[id])
    ensures ScheduleReady(s).processes == s.processes
  {
    hide Inv, ScheduleAll, ReadyQueue, FitsSomewhere, Decided, AllFuller, SameButPolicy, Placed, Logged, RecordsOk;
    InvParts(s, {}, MID);
    PassIsMaximal(s);
    ReadyQueueOk(s);
    var queue, t := ReadyQueue(s), ScheduleReady(s);
    forall id | id in s.processes ensures t.processes[id] == s.processes[id] {
      if InQueue(queue, id) {
        var j :| 0 <= j < |queue| && queue[j].id == id;
        RefusedStaysRefused(s, queue, queue[j], j);
      }
    }
  }

  lemma NothingRunsOn(processes: map<Id, Process>, hosts: set<Id>, tick: int)
    requires forall id | id in processes :: processes[id].state != Running
    ensures AllFailed(processes, RunningOn(processes, hosts), tick) == processes
  {
  }

  lemma DownedFitsLess(s: State, t: State, stale: set<Id>, p: Process)
    requires t.nodes == Downed(s.nodes, stale) && !FitsSomewhere(s, p)
    ensures !FitsSomewhere(t, p)
  {
    forall n | n in t.nodes ensures !t.nodes[n].CanFit(p) {
      assert !s.nodes[n].CanFit(p);
    }
  }

  lemma FullerFitsLess(s: State, t: State, p: Process)
    requires AllFuller(s.nodes, t.nodes) && !FitsSomewhere(s, p)
    ensures !FitsSomewhere(t, p)
  {
    StillUnfit(s, t, p, p);
  }

  lemma NothingScheduled(s: State)
    requires s.pending == map[] && s.failures == map[]
    ensures ApplyScheduled(s) == Reply(s, Nil)
  {
    var left := s.failures - {s.tick};
    assert left == s.failures;
    assert s.(failures := left) == s;
    assert ApplyFailures(s, []) == Reply(s, Nil);
  }

  /** The phases of a tick from a stuck state leave every process record as it was. */
  lemma StuckTrail(s: State)
    requires Valid(s) && Stuck(s)
    ensures var t := TrailOf(s);
      && t.final.processes == s.processes && RunningSet(t.scheduled) == {}
      && t.final.pending == s.pending && t.final.failures == s.failures
      && (forall id | id in s.processes && s.processes[id].state == Ready ::
            !FitsSomewhere(t.alive, s.processes[id]))
  {
    hide Inv, Valid, Step, BeginTick, DetectMissedHeartbeats, ScheduleReady, ExecuteRunning, StopIfDone,
         ApplyScheduled, FitsSomewhere, PassEffect, AllFuller, TrailOf, ReadyQueue;
    TrailIsValid(s);
    TrailEffects(s);
    TrailActs(s);
    PassSettings(s);
    var t := TrailOf(s);
    NothingScheduled(BeginTick(s));
    NothingRunsOn(s.processes, StaleNow(t.acted), t.acted.tick);
    FitsDependsOnNodes(s, t.acted);
    forall id | id in s.processes && s.processes[id].state == Ready ensures !FitsSomewhere(t.alive, s.processes[id]) {
      DownedFitsLess(t.acted, t.alive, StaleNow(t.acted), s.processes[id]);
    }
    PassMovesNothing(t.alive);
    assert RunningSet(t.scheduled) == {};
    assert AllExecuted(s.processes, {}, t.scheduled.tick) == s.processes;
  }

  lemma TrailNodes(s: State, p: Process)
    requires Valid(s) && !FitsSomewhere(TrailOf(s).alive, p)
    ensures RunningSet(TrailOf(s).scheduled) == {} ==> !FitsSomewhere(TrailOf(s).final, p)
  {
    hide Inv, Valid, FitsSomewhere, PassEffect, AllFuller, TrailOf, ReadyQueue;
    TrailEffects(s);
    var t := TrailOf(s);
    PassFills(t.alive, t.scheduled, ReadyQueue(t.alive));
    FullerFitsLess(t.alive, t.scheduled, p);
    if RunningSet(t.scheduled) == {} {
      FitsDependsOnNodes(t.scheduled, t.final);
    }
  }

  /** From a stuck state a tick may fail nodes, but it changes no process record, and the state stays stuck. */
  lemma StuckTick(s: State)
    requires Valid(s) && Stuck(s)
    ensures Step(s).state.processes == s.processes && Stuck(Step(s).state) && Valid(Step(s).state)
  {
    hide Inv, Valid, Step, FitsSomewhere, TrailOf;
    StepExact(s);
    if Step(s).error == Nil {
      StuckTrail(s);
      forall id | id in s.processes && s.processes[id].state == Ready
        ensures !FitsSomewhere(TrailOf(s).final, s.processes[id])
      {
        TrailNodes(s, s.processes[id]);
      }
    }
  }

  lemma PassFills(s: State, t: State, queue: seq<Process>)
    requires PassEffect(s, t, queue)
    ensures AllFuller(s.nodes, t.nodes)
  {
  }

  lemma {:induction false} StuckLoop(s: State, count: nat)
    requires Valid(s) && Stuck(s)
    ensures var t := StepLoop(s, count).state;
      t.processes == s.processes && Stuck(t) && Valid(t)
    decreases count
  {
    hide Valid, Stuck, Step;
    if count > 0 {
      StuckTick(s);
      StuckLoop(Step(s).state, count - 1);
    }
  }

  /** Commands that neither give nor take work: clock, pause, finish, heartbeats, scheduler choice. */
  predicate IsPassive(c: Command) {
    c.CmdStep? || c.CmdSteps? || c.CmdStart? || c.CmdPauseSimulation? || c.CmdFinish? || c.CmdHeartbeat?
    || c.CmdSetScheduler?
  }

  lemma HeartbeatFits(s: State, id: Id)
    ensures forall p :: FitsSomewhere(Heartbeat(s, id).state, p) == FitsSomewhere(s, p)
  {
    var t := Heartbeat(s, id).state;
    forall p ensures FitsSomewhere(t, p) == FitsSomewhere(s, p) {
      assert forall n | n in s.nodes :: t.nodes[n].CanFit(p) == s.nodes[n].CanFit(p);
    }
  }

  lemma StuckCommand(s: State, c: Command)
    requires Valid(s) && Stuck(s) && IsPassive(c)
    ensures var t := Execute(s, c).state;
      t.processes == s.processes && Stuck(t) && Valid(t)
  {
    hide Valid, Step, StepLoop, Stuck, SetScheduler, Start, PauseSimulation, Finish, Heartbeat;
    match c
    case CmdStep => StuckTick(s);
    case CmdSteps(n) => if n > 0 { StuckLoop(s, n); }
    case CmdHeartbeat(id) => StuckHeartbeat(s, id);
    case CmdSetScheduler(name) => ControlKeeps(s, name, Unfinished); StuckControl(s, c);
    case CmdStart => ControlKeeps(s, Blank, Unfinished); StuckControl(s, c);
    case CmdPauseSimulation => ControlKeeps(s, Blank, Unfinished); StuckControl(s, c);
    case CmdFinish(reason) => ControlKeeps(s, Blank, Requested(reason)); StuckControl(s, c);
  }

  lemma StuckHeartbeat(s: State, id: Id)
    requires Valid(s) && Stuck(s)
    ensures var t := Heartbeat(s, id).state;
      t.processes == s.processes && Stuck(t) && Valid(t)
  {
    hide Valid, FitsSomewhere, Heartbeat;
    HeartbeatFits(s, id);
    HeartbeatExact(s, id);
  }

  /** What does not touch tables and calendar leaves a state stuck. */
  lemma StuckDependsOn(s: State, t: State)
    requires Stuck(s) && SameTables(s, t)
    ensures Stuck(t) && t.processes == s.processes
  {
    hide FitsSomewhere;
    FitsDependsOnNodes(s, t);
  }

  ghost predicate SameTables(s: State, t: State) {
    t.nodes == s.nodes && t.processes == s.processes && t.pending == s.pending && t.failures == s.failures
  }

  lemma ChoiceKeepsTables(s: State, name: SchedulerName)
    ensures SameTables(s, SetScheduler(s, name).state)
  {
    hide NewScheduler;
  }

  lemma StartKeepsTables(s: State)
    ensures SameTables(s, Start(s))
  {
  }

  lemma PauseKeepsTables(s: State)
    ensures SameTables(s, PauseSimulation(s))
  {
  }

  lemma FinishKeepsTables(s: State, reason: FinishReason)
    ensures SameTables(s, Finish(s, reason))
  {
  }

  lemma StuckControl(s: State, c: Command)
    requires Stuck(s) && (c.CmdSetScheduler? || c.CmdStart? || c.CmdPauseSimulation? || c.CmdFinish?)
    ensures Stuck(Execute(s, c).state) && Execute(s, c).state.processes == s.processes
  {
    hide Stuck, SameTables, Execute;
    ControlKeepsTables(s, c);
    StuckDependsOn(s, Execute(s, c).state);
  }

  lemma ControlKeepsTables(s: State, c: Command)
    requires c.CmdSetScheduler? || c.CmdStart? || c.CmdPauseSimulation? || c.CmdFinish?
    ensures SameTables(s, Execute(s, c).state)
  {
    hide SetScheduler, Start, PauseSimulation, Finish, SameTables, Step, StepLoop;
    match c
    case CmdSetScheduler(name) => ChoiceKeepsTables(s, name);
    case CmdStart => StartKeepsTables(s);
    case CmdPauseSimulation => PauseKeepsTables(s);
    case CmdFinish(reason) => FinishKeepsTables(s, Requested(reason));
  }

  /** The no-progress stop is right: once a tick has stopped the simulation for lack of progress, no
      sequence of restarts, ticks and other passive commands ever changes a process record. */
  lemma {:induction false} StopIsForGood(s: State, commands: seq<Command>)
    requires Valid(s) && Step(s).error == Nil
    requires Step(s).state.status == Completed && Step(s).state.reason in {NoOnlineCapacity, ExternallyBlocked}
    requires forall c | c in commands :: IsPassive(c)
    ensures var stopped := Step(s).state;
      var t := Run(stopped, commands);
      t.processes == stopped.processes && Stuck(t) && Valid(t)
    decreases |commands|
  {
    hide Valid, Stuck, Step, Execute;
    if commands == [] {
      BlockedTickIsStuck(s);
      StepExact(s);
    } else {
      var last := |commands| - 1;
      StopIsForGood(s, commands[..last]);
      assert commands[last] in commands;
      StuckCommand(Run(Step(s).state, commands[..last]), commands[last]);
    }
  }

  // ---------------------------------------------------------------- and never premature

  ghost predicate CanMove(s: State) {
    || s.pending != map[] || s.failures != map[]
    || exists id | id in s.processes ::
         || s.processes[id].state == Running
         || (s.processes[id].state == Ready && FitsSomewhere(s, s.processes[id]))
  }

  lemma NoReasonMeansCanMove(s: State)
    requires Valid(s) && BlockReason(s) == Unfinished && s.processes != map[]
    requires !AllProcessesTerminal(s)
    ensures CanMove(s)
  {
    hide Placed, Logged, FitsSomewhere;
    if s.pending == map[] && s.failures == map[] {
      var id :| id in s.processes && !s.processes[id].state.IsTerminal();
      HistoryOf(s, {}, Rest, id);
      assert s.processes[id].state in {Ready, Running, Waiting, Paused};
      assert s.processes[id].state == Ready ==> HasIn(s, {Ready});
      assert s.processes[id].state in {Waiting, Paused} ==> HasIn(s, {Waiting, Paused});
      if HasIn(s, {Running}) {
        var q :| q in s.processes && s.processes[q].state in {Running};
        assert s.processes[q].state == Running;
      }
    }
  }

  /** A tick that leaves a non-empty simulation uncompleted leaves something that can still happen. */
  lemma UnfinishedTickCanMove(s: State)
    requires Valid(s) && Step(s).error == Nil
    requires Step(s).state.status != Completed && Step(s).state.processes != map[]
    ensures CanMove(Step(s).state)
  {
    hide Inv, Valid, Step, TrailOf, AllProcessesTerminal, BlockReason, CanMove, PassEffect, AllFuller, AllFailed,
         AllExecuted, Downed, Stuck;
    StepExact(s);
    TrailEffects(s);
    TrailIsValid(s);
    StopForm(s);
    BlockReasonMeansStuck(TrailOf(s).executed);
    NoReasonMeansCanMove(TrailOf(s).executed);
  }

  // ---------------------------------------------------------------- why it always stops

  ghost function ScheduledTicks(s: State): set<int> {
    s.pending.Keys + s.failures.Keys
  }

  /** Everything scheduled lies in the future and is not empty. */
  ghost predicate Calendar(s: State) {
    && (forall t | t in s.pending :: t > s.tick && s.pending[t] != [])
    && (forall t | t in s.failures :: t > s.tick && s.failures[t] != [])
  }

  ghost predicate IsLatest(ticks: set<int>, t: int) {
    t in ticks && forall u | u in ticks :: u <= t
  }

  lemma {:induction false} LatestExists(ticks: set<int>)
    requires ticks != {}
    ensures exists t :: IsLatest(ticks, t)
    decreases |ticks|
  {
    assert (forall x: int :: x !in ticks) ==> ticks == {};
    var x :| x in ticks;
    var rest := ticks - {x};
    assert ticks == rest + {x};
    if rest == {} {
      assert IsLatest(ticks, x);
    } else {
      LatestExists(rest);
      var u :| IsLatest(rest, u);
      assert IsLatest(ticks, if u < x then x else u);
    }
  }

  ghost function Latest(ticks: set<int>): (t: int)
    requires ticks != {}
    ensures IsLatest(ticks, t)
  {
    LatestExists(ticks);
    var t :| IsLatest(ticks, t);
    t
  }

  /** How far ahead the last scheduled action lies; 0 if there is none. */
  ghost function Horizon(s: State): int {
    if ScheduledTicks(s) == {} then 0 else Latest(ScheduledTicks(s)) - s.tick
  }

  ghost function OnlineNodes(nodes: map<Id, Node>): set<Id> {
    set n | n in nodes && nodes[n].status == Online
  }

  function WorkLeft(p: Process): int {
    if p.state.IsTerminal() then 0 else p.remainingTicks
  }

  ghost function TotalWork(processes: map<Id, Process>): int {
    MapSum(map id | id in processes :: WorkLeft(processes[id]))
  }

  ghost predicate Decreases(s: State, t: State) {
    || Horizon(t) < Horizon(s)
    || (Horizon(t) == Horizon(s) && |OnlineNodes(t.nodes)| < |OnlineNodes(s.nodes)|)
    || (Horizon(t) == Horizon(s) && |OnlineNodes(t.nodes)| == |OnlineNodes(s.nodes)|
        && TotalWork(t.processes) < TotalWork(s.processes))
  }

  /** The calendar fields over a tick. */
  lemma CalendarFields(s: State)
    requires Valid(s) && Step(s).error == Nil
    ensures var t := Step(s).state;
      && t.tick == s.tick + 1 && t.failures == s.failures - {s.tick + 1}
      && t.pending == if DueSubmissions(s, s.tick + 1) != [] then s.pending - {s.tick + 1} else s.pending
  {
    hide Inv, Valid, Step, ApplyScheduled, TrailOf, PassEffect, AllFuller, Emit;
    StepExact(s);
    BeginTickKeeps(s);
    BeginFields(s);
    ApplyScheduledKeeps(BeginTick(s));
    TrailEffects(s);
    TrailActs(s);
    PassSettings(s);
  }

  lemma BeginFields(s: State)
    ensures SameSetting(s, BeginTick(s).(tick := s.tick)) && BeginTick(s).tick == s.tick + 1
    ensures BeginTick(s).processes == s.processes && BeginTick(s).nodes == s.nodes
  {
  }

  /** A successful tick takes its own actions off the calendar, which stays in the future. */
  lemma CalendarTick(s: State)
    requires Valid(s) && Calendar(s) && Step(s).error == Nil
    ensures var t := Step(s).state;
      && Calendar(t) && t.tick == s.tick + 1
      && t.pending == s.pending - {s.tick + 1} && t.failures == s.failures - {s.tick + 1}
      && ScheduledTicks(t) == ScheduledTicks(s) - {s.tick + 1}
  {
    hide Valid, Step;
    CalendarFields(s);
    var t := Step(s).state;
    assert t.pending == s.pending - {s.tick + 1};
    assert t.failures == s.failures - {s.tick + 1};
  }

  lemma TrailActs(s: State)
    ensures TrailOf(s).acted == ApplyScheduled(BeginTick(s)).state
    ensures TrailOf(s).sampled == SampleUtilization(TrailOf(s).scheduled)
    ensures TrailOf(s).scheduled == ScheduleReady(TrailOf(s).alive)
    ensures TrailOf(s).executed == ExecuteRunning(TrailOf(s).sampled)
    ensures TrailOf(s).final == StopIfDone(TrailOf(s).executed)
  {
  }

  lemma PassSettings(s: State)
    requires Valid(s)
    ensures SameButPolicy(TrailOf(s).alive, TrailOf(s).scheduled)
  {
    hide Inv, Valid, TrailOf;
    TrailEffects(s);
    PassSettingOf(TrailOf(s).alive, TrailOf(s).scheduled, ReadyQueue(TrailOf(s).alive));
  }

  lemma PassSettingOf(s: State, t: State, queue: seq<Process>)
    requires PassEffect(s, t, queue)
    ensures SameButPolicy(s, t)
  {
  }

  lemma HorizonShrinks(s: State, t: State)
    requires Calendar(s) && ScheduledTicks(s) != {} && t.tick == s.tick + 1
    requires ScheduledTicks(t) == ScheduledTicks(s) - {s.tick + 1}
    ensures Horizon(t) < Horizon(s)
  {
    var last := Latest(ScheduledTicks(s));
    assert last > s.tick;
    if ScheduledTicks(t) != {} {
      assert Latest(ScheduledTicks(t)) in ScheduledTicks(s);
    }
  }

  lemma DowningShrinks(nodes: map<Id, Node>, stale: set<Id>)
    requires stale != {} && forall n | n in stale :: n in nodes && nodes[n].status == Online
    ensures |OnlineNodes(Downed(nodes, stale))| < |OnlineNodes(nodes)|
  {
    var before, after := OnlineNodes(nodes), OnlineNodes(Downed(nodes, stale));
    var x :| x in stale;
    assert after <= before - {x};
    SubsetSize(after, before - {x});
  }

  lemma {:induction false} SubsetSize(a: set<Id>, b: set<Id>)
    requires a <= b
    ensures |a| <= |b|
    decreases a
  {
    if a != {} {
      var x :| x in a;
      SubsetSize(a - {x}, b - {x});
    }
  }

  lemma StatusesSurvive(a: map<Id, Node>, b: map<Id, Node>)
    requires AllFuller(a, b)
    ensures OnlineNodes(a) == OnlineNodes(b)
  {
    assert forall n | n in a :: Fuller(a[n], b[n]);
  }

  lemma NothingDowned(nodes: map<Id, Node>, processes: map<Id, Process>, tick: int)
    ensures Downed(nodes, {}) == nodes
    ensures AllFailed(processes, RunningOn(processes, {}), tick) == processes
  {
    assert Downed(nodes, {}) == nodes;
    assert AllFailed(processes, RunningOn(processes, {}), tick) == processes;
  }

  lemma WorkOfOne(s: State, placed: State, queue: seq<Process>, id: Id)
    requires Inv(placed, {}, MID) && PassEffect(s, placed, queue) && id in s.processes
    requires InQueue(queue, id) ==> s.processes[id].state == Ready
    ensures id in placed.processes
    ensures WorkLeft(placed.processes[id]) == WorkLeft(s.processes[id])
    ensures id in RunningSet(placed) ==>
              WorkLeft(ExecutedRecord(placed.processes[id], placed.tick)) < WorkLeft(s.processes[id])
  {
    hide Placed, Logged, FitsSomewhere, AllFuller;
    HistoryOf(placed, {}, MID, id);
    assert if InQueue(queue, id) then Decided(s, placed, id) else placed.processes[id] == s.processes[id];
  }

  /** Placement costs no work; execution of at least one process does. */
  lemma WorkShrinks(s: State, placed: State, queue: seq<Process>, after: map<Id, Process>)
    requires Inv(placed, {}, MID) && PassEffect(s, placed, queue)
    requires forall id | id in s.processes && InQueue(queue, id) :: s.processes[id].state == Ready
    requires after == AllExecuted(placed.processes, RunningSet(placed), placed.tick) && RunningSet(placed) != {}
    ensures TotalWork(after) < TotalWork(s.processes)
  {
    hide Inv, AllFuller, WorkLeft, ExecutedRecord;
    var before := map id | id in s.processes :: WorkLeft(s.processes[id]);
    var left := map id | id in after :: WorkLeft(after[id]);
    forall id | id in left ensures left[id] <= before[id] && (id in RunningSet(placed) ==> left[id] < before[id]) {
      WorkOfOne(s, placed, queue, id);
    }
    var worked :| worked in RunningSet(placed);
    assert left[worked] < before[worked];
    SumIsMonotone(left, before);
  }

  /** A non-empty simulation in which nothing can move is stopped. */
  lemma ImmovableStops(s: State)
    requires Valid(s) && s.processes != map[] && !CanMove(s)
    ensures StopIfDone(s).status == Completed
  {
    hide Valid, AllProcessesTerminal, BlockReason, CanMove;
    if BlockReason(s) == Unfinished && !AllProcessesTerminal(s) {
      NoReasonMeansCanMove(s);
    }
  }

  /** If nothing is scheduled, nothing ran, a tick leaves nothing that can move. */
  lemma IdleTrailIsImmovable(s: State)
    requires Valid(s) && s.pending == map[] && s.failures == map[]
    requires RunningSet(TrailOf(s).scheduled) == {}
    ensures !CanMove(TrailOf(s).executed)
    ensures TrailOf(s).executed.processes.Keys == s.processes.Keys
  {
    hide Inv, Valid, TrailOf, ScheduleReady, ApplyScheduled, AllFuller, FitsSomewhere, StopIfDone, ReadyQueue,
         BeginTick;
    TrailIsValid(s);
    TrailEffects(s);
    TrailActs(s);
    BeginFields(s);
    NothingScheduled(BeginTick(s));
    PassSettings(s);
    var t := TrailOf(s);
    PassIsMaximal(t.alive);
    assert AllExecuted(t.scheduled.processes, {}, t.scheduled.tick) == t.scheduled.processes;
    FitsDependsOnNodes(t.scheduled, t.executed);
    assert forall id | id in t.scheduled.processes && t.scheduled.processes[id].state == Running ::
      id in RunningSet(t.scheduled);
  }

  /** Without scheduled actions a tick that neither stops nor fails a node does work. */
  lemma QuietTick(s: State)
    requires Valid(s) && Step(s).error == Nil && s.pending == map[] && s.failures == map[]
    requires s.processes != map[] && Step(s).state.status != Completed
    ensures var t := Step(s).state;
      || |OnlineNodes(t.nodes)| < |OnlineNodes(s.nodes)|
      || (|OnlineNodes(t.nodes)| == |OnlineNodes(s.nodes)| && TotalWork(t.processes) < TotalWork(s.processes))
  {
    hide Inv, Valid, Step, TrailOf, ApplyScheduled, AllFuller, StopIfDone, ReadyQueue, BeginTick, CanMove,
         PassEffect, RunningOn, ScheduleReady, TotalWork;
    StepExact(s);
    TrailIsValid(s);
    TrailEffects(s);
    TrailActs(s);
    BeginFields(s);
    NothingScheduled(BeginTick(s));
    var t := TrailOf(s);
    assert t.acted.nodes == s.nodes && t.acted.processes == s.processes;
    PassFills(t.alive, t.scheduled, ReadyQueue(t.alive));
    StatusesSurvive(t.alive.nodes, t.scheduled.nodes);
    StatusesSurvive(t.executed.nodes, t.scheduled.nodes);
    var stale := StaleNow(t.acted);
    if stale != {} {
      DowningShrinks(s.nodes, stale);
    } else {
      NothingDowned(s.nodes, s.processes, t.acted.tick);
      if RunningSet(t.scheduled) == {} {
        IdleTrailIsImmovable(s);
        ImmovableStops(t.executed);
      }
      InvParts(t.alive, {}, MID);
      ReadyQueueOk(t.alive);
      WorkShrinks(t.alive, t.scheduled, ReadyQueue(t.alive), t.executed.processes);
    }
  }

  /** Every successful tick that leaves a non-empty simulation running brings it closer to its end:
      the calendar shrinks, or else a node is lost, or else work is done. */
  lemma TickMakesProgress(s: State)
    requires Valid(s) && Calendar(s) && Step(s).error == Nil
    requires s.processes != map[] && Step(s).state.status != Completed
    ensures Decreases(s, Step(s).state)
  {
    hide Valid, Step, TotalWork, OnlineNodes;
    CalendarTick(s);
    if ScheduledTicks(s) != {} {
      HorizonShrinks(s, Step(s).state);
    } else {
      assert s.pending.Keys == {} && s.failures.Keys == {};
      assert s.pending == map[] && s.failures == map[];
      QuietTick(s);
    }
  }

  lemma WorkIsNonNegative(s: State)
    requires Valid(s)
    ensures 0 <= TotalWork(s.processes)
  {
    hide Placed, Logged;
    var work := map id | id in s.processes :: WorkLeft(s.processes[id]);
    forall id | id in work ensures 0 <= work[id] {
      HistoryOf(s, {}, Rest, id);
    }
    SumIsNonNegative(work);
  }

  lemma HorizonIsNonNegative(s: State)
    requires Calendar(s)
    ensures 0 <= Horizon(s)
  {
  }

  lemma KeysSurvive(s: State)
    requires Valid(s)
    ensures TrailOf(s).final.processes.Keys == TrailOf(s).acted.processes.Keys
  {
    hide Inv, Valid, TrailOf, AllFuller;
    TrailEffects(s);
  }

  lemma ProcessesRemain(s: State)
    requires Valid(s) && Step(s).error == Nil
    ensures s.processes.Keys <= Step(s).state.processes.Keys
  {
    hide Inv, Valid, Step, TrailOf, ApplyScheduled, BeginTick;
    StepExact(s);
    BeginTickKeeps(s);
    BeginFields(s);
    TrailActs(s);
    KeysSurvive(s);
    ActionsOnlyAdd(BeginTick(s));
  }

  lemma OneTickCloser(s: State)
    requires Valid(s) && Calendar(s) && s.processes != map[] && Step(s).error == Nil
    requires Step(s).state.status != Completed
    ensures var t := Step(s).state;
      && Valid(t) && Calendar(t) && t.processes != map[] && Decreases(s, t)
      && 0 <= Horizon(s) && 0 <= TotalWork(s.processes)
  {
    hide Valid, Step, OnlineNodes, TotalWork, Calendar, Horizon;
    ProcessesRemain(s);
    TickMakesProgress(s);
    HorizonIsNonNegative(s);
    WorkIsNonNegative(s);
    CalendarTick(s);
    StepExact(s);
  }

  /** Left alone, a non-empty simulation stops: after finitely many ticks it has completed, or a
      scheduled action fails. No tick limit is needed. */
  lemma {:induction false} SimulationStops(s: State) returns (ticks: nat)
    requires Valid(s) && Calendar(s) && s.processes != map[] && s.status != Completed
    ensures var r := StepLoop(s, ticks);
      r.error != Nil || r.state.status == Completed
    decreases Horizon(s), |OnlineNodes(s.nodes)|, TotalWork(s.processes)
  {
    hide Valid, Step, OnlineNodes, TotalWork, Calendar, Horizon;
    var r := Step(s);
    if r.error != Nil || r.state.status == Completed {
      ticks := 1;
    } else {
      OneTickCloser(s);
      var n := SimulationStops(r.state);
      ticks := n + 1;
    }
  }
}
