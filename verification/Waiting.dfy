/** Waiting time: what the report observes, how it is bounded, and exactly when it goes back. */
module WaitingTime {
  import opened Domain
  import opened Ordering
  import opened Schedulers
  import opened Cluster
  import opened Scenarios
  import opened Placement
  import opened EventLog
  import opened Invariants
  import opened Failures
  import opened Commands
  import opened Scheduling
  import opened Tick
  import opened TickErrors
  import opened Progress
  import opened Runs
  import opened Histories

  /** `observedWaitingTicks`. */
  function ObservedWaiting(p: Process, tick: int): int {
    var w1 := if p.state == Ready && tick > p.lastReadyAt then p.waitingTicks + (tick - p.lastReadyAt)
              else p.waitingTicks;
    var w2 :=
      if p.startedAt == None && p.state != Ready then
        var end := match p.finishedAt case Some(f) => f case None => tick;
        if end - p.submittedAt > w1 then end - p.submittedAt else w1
      else w1;
    if w2 < 0 then 0 else w2
  }

  // ---------------------------------------------------------------- bounds

  lemma ObservedIsBounded(p: Process, interrupted: bool, tick: int)
    requires RecordOk(p, interrupted, tick, 0)
    ensures 0 <= ObservedWaiting(p, tick) <= tick - p.submittedAt
    ensures p.finishedAt.Some? ==> ObservedWaiting(p, tick) <= p.finishedAt.value - p.submittedAt
  {
  }

  /** In every reachable state a process has waited no longer than it has been there, and a finished
      one no longer than its turnaround. */
  lemma WaitingIsBounded(s: State, id: Id)
    requires Reachable(s) && id in s.processes
    ensures var p := s.processes[id];
      && 0 <= ObservedWaiting(p, s.tick) <= s.tick - p.submittedAt
      && (p.finishedAt.Some? ==> ObservedWaiting(p, s.tick) <= p.finishedAt.value - p.submittedAt)
  {
    hide Reachable, Inv, Valid, Settled, RecordOk, ObservedWaiting;
    ReachableIsSettled(s);
    SettledParts(s);
    HistoryOf(s, {}, Rest, id);
    ObservedIsBounded(s.processes[id], id in Replay(s.events).interrupted, s.tick);
  }

  /** The log holds no failure, pause or wait of this process. */
  ghost predicate NeverInterrupted(s: State, id: Id) {
    forall i | 0 <= i < |s.events| :: s.events[i].process == id ==> !IsInterruption(s.events[i].kind)
  }

  /** A process that ran to its end undisturbed spent its turnaround waiting and then working, one
      tick of work falling on the tick it started. */
  lemma TurnaroundIsWaitingPlusWork(s: State, id: Id)
    requires Reachable(s) && id in s.processes
    requires s.processes[id].state == Terminated && NeverInterrupted(s, id)
    ensures var p := s.processes[id];
      && p.finishedAt.Some?
      && p.finishedAt.value - p.submittedAt == p.waitingTicks + p.totalTicks - 1
  {
    hide Reachable, Inv, Valid, Settled;
    ReachableIsSettled(s);
    SettledParts(s);
    HistoryOf(s, {}, Rest, id);
    ReplayInterrupted(s.events, id);
  }

  /** While it runs undisturbed, its start, waiting and remaining work account for every tick so far. */
  lemma RunningIsAccountedFor(s: State, id: Id)
    requires Reachable(s) && id in s.processes
    requires s.processes[id].state == Running && NeverInterrupted(s, id)
    ensures var p := s.processes[id];
      s.tick - p.submittedAt == p.waitingTicks + (p.totalTicks - p.remainingTicks) - 1
  {
    hide Reachable, Inv, Valid, Settled;
    ReachableIsSettled(s);
    SettledParts(s);
    HistoryOf(s, {}, Rest, id);
    ReplayInterrupted(s.events, id);
  }

  // ---------------------------------------------------------------- when waiting goes back

  /** The wait since the last ready tick is dropped when a READY process fails and restarts, or leaves
      the queue for good after having started before. */
  predicate LosesWait(p: Process, tick: int, killed: bool) {
    p.state == Ready && tick > p.lastReadyAt && (p.startedAt.Some? || (!killed && p.CanRestart()))
  }

  lemma FailureWaiting(p: Process, interrupted: bool, tick: int)
    requires RecordOk(p, interrupted, tick, 0) && !p.state.IsTerminal()
    ensures ObservedWaiting(FailedRecord(p, tick), tick) < ObservedWaiting(p, tick) <==> LosesWait(p, tick, false)
    ensures p.state == Running ==> ObservedWaiting(FailedRecord(p, tick), tick) == ObservedWaiting(p, tick)
  {
  }

  lemma KillWaiting(p: Process, interrupted: bool, tick: int, q: Process)
    requires RecordOk(p, interrupted, tick, 0) && !p.state.IsTerminal()
    requires q == p.(state := Killed, nodeId := q.nodeId, finishedAt := Some(tick))
    ensures ObservedWaiting(q, tick) < ObservedWaiting(p, tick) <==> LosesWait(p, tick, true)
  {
  }

  lemma FailProcessWaiting(s: State, id: Id)
    requires Valid(s) && id in s.processes
    ensures id in FailProcess(s, id).state.processes
    ensures ObservedWaiting(FailProcess(s, id).state.processes[id], s.tick) < ObservedWaiting(s.processes[id], s.tick)
       <==> LosesWait(s.processes[id], s.tick, false)
  {
    hide Inv, FailProcessLocked, RecordOk, FailedRecord, ObservedWaiting;
    FailProcessExact(s, {}, Rest, id);
    HistoryOf(s, {}, Rest, id);
    if !s.processes[id].state.IsTerminal() {
      FailureWaiting(s.processes[id], id in Replay(s.events).interrupted, s.tick);
    }
  }

  lemma KillProcessWaiting(s: State, id: Id)
    requires Valid(s) && id in s.processes
    ensures id in KillProcess(s, id).state.processes
    ensures ObservedWaiting(KillProcess(s, id).state.processes[id], s.tick) < ObservedWaiting(s.processes[id], s.tick)
       <==> LosesWait(s.processes[id], s.tick, true)
  {
    hide Inv, RecordOk, ObservedWaiting, Release;
    KillExact(s, id);
    HistoryOf(s, {}, Rest, id);
    if !s.processes[id].state.IsTerminal() {
      if s.processes[id].state == Running {
        ReleaseExact(s, {}, Rest, id);
      }
      KillWaiting(s.processes[id], id in Replay(s.events).interrupted, s.tick, KillProcess(s, id).state.processes[id]);
    }
  }

  const JOB := ProcessDefinition(1, "job", 0, 1, 1, 1, OnFailure, 1, 0)

  const JOB_CONFIG := Config(LeastLoadedName, 0, 1, 1)

  /** A controller without nodes in which JOB is submitted. */
  ghost function JobSubmitted(): State {
    Submit(Fresh(LeastLoaded, 0, 1, 1), JOB).state
  }

  lemma JobIsStuck()
    ensures var s := JobSubmitted();
      && Valid(s) && Stuck(s) && Calendar(s) && s.tick == 0 && s.status != Completed && s.pending == map[]
      && s.failures == map[] && JOB.id in s.processes && JustSubmitted(s.processes[JOB.id], JOB, 0)
  {
    hide Valid;
    FreshIsValid(LeastLoaded, 0, 1, 1);
    SubmitExact(Fresh(LeastLoaded, 0, 1, 1), JOB);
  }

  /** One tick later it has waited a tick. */
  lemma JobWaits()
    ensures var s := Step(JobSubmitted()).state;
      && Valid(s) && s.tick == 1 && JOB.id in s.processes && JustSubmitted(s.processes[JOB.id], JOB, 0)
  {
    hide Valid, Stuck, Step, JobSubmitted, BeginTick;
    JobIsStuck();
    var s := JobSubmitted();
    StuckTick(s);
    StepExact(s);
    BeginFields(s);
    NothingScheduled(BeginTick(s));
    CalendarTick(s);
  }

  lemma JobRun()
    ensures NewController(JOB_CONFIG) == (Some(Fresh(LeastLoaded, 0, 1, 1)), Nil)
    ensures Run(Fresh(LeastLoaded, 0, 1, 1), [CmdSubmit(JOB), CmdStep]) == Step(JobSubmitted()).state
  {
    hide Run, Step, Submit;
    var s0 := Fresh(LeastLoaded, 0, 1, 1);
    NoCommands(s0);
    RunTwo(s0, [], CmdSubmit(JOB), CmdStep);
    assert [] + [CmdSubmit(JOB), CmdStep] == [CmdSubmit(JOB), CmdStep];
  }

  /** Observed waiting is not monotone: a job that a new controller cannot place for a tick, and that then
      fails and restarts, has waited less than before. */
  lemma RestartDropsWaiting()
    ensures NewController(JOB_CONFIG).0.Some?
    ensures var s := Run(NewController(JOB_CONFIG).0.value, [CmdSubmit(JOB), CmdStep]);
      var t := Execute(s, CmdFailProcess(JOB.id)).state;
      && Reachable(s) && JOB.id in s.processes && JOB.id in t.processes && t.tick == s.tick
      && ObservedWaiting(t.processes[JOB.id], t.tick) < ObservedWaiting(s.processes[JOB.id], s.tick)
  {
    hide Valid, Run, Step, JobSubmitted, FailProcess, NewController;
    JobRun();
    JobWaits();
    FailProcessCommand(Step(JobSubmitted()).state, JOB.id);
  }

  // ---------------------------------------------------------------- other commands

  lemma LossesSameWait(s: State, phase: Phase, lost: set<Id>, id: Id)
    requires Inv(s, {}, phase) && id in s.processes
    requires id in lost ==> s.processes[id].state == Running
    ensures ObservedWaiting(AllFailed(s.processes, lost, s.tick)[id], s.tick)
         == ObservedWaiting(s.processes[id], s.tick)
  {
    hide Placed, Logged;
    HistoryOf(s, {}, phase, id);
  }

  lemma NodeLossSameWait(s: State, node: Id, id: Id)
    requires Valid(s) && id in s.processes
    ensures id in FailNode(s, node).state.processes
    ensures ObservedWaiting(FailNode(s, node).state.processes[id], s.tick) == ObservedWaiting(s.processes[id], s.tick)
  {
    hide Inv, FailNodeLocked, ObservedWaiting, FailedRecord;
    FailNodeCommand(s, node);
    if node in s.nodes {
      ListIsRunningOn(s, Rest, node);
      LossesSameWait(s, Rest, Elements(s.nodes[node].running), id);
    }
  }

  lemma SuspendSameWait(s: State, id: Id, to: ProcessState, kind: EventKind, q: Id)
    requires Valid(s) && q in s.processes
    requires (to == Paused && kind == PausedEvent) || (to == Waiting && kind == WaitingEvent)
    ensures q in Suspend(s, id, to, kind).state.processes
    ensures ObservedWaiting(Suspend(s, id, to, kind).state.processes[q], s.tick)
         == ObservedWaiting(s.processes[q], s.tick)
  {
    hide Inv, Suspend;
    SuspendExact(s, id, to, kind);
    HistoryOf(s, {}, Rest, q);
  }

  lemma RequeueSameWait(s: State, id: Id, from: ProcessState, kind: EventKind, q: Id)
    requires Valid(s) && q in s.processes
    requires (from == Paused && kind == Resumed) || (from == Waiting && kind == IOCompleted)
    ensures q in Requeue(s, id, from, kind).state.processes
    ensures ObservedWaiting(Requeue(s, id, from, kind).state.processes[q], s.tick)
         == ObservedWaiting(s.processes[q], s.tick)
  {
    hide Inv, Requeue;
    RequeueExact(s, id, from, kind);
    HistoryOf(s, {}, Rest, q);
  }

  lemma OthersSameWait(s: State, c: Command, q: Id)
    requires Valid(s) && q in s.processes
    requires c.CmdSubmit? || c.CmdRegisterNode? || c.CmdRemoveNode? || c.CmdRecoverNode? || c.CmdHeartbeat?
             || c.CmdSetScheduler? || c.CmdStart? || c.CmdPauseSimulation? || c.CmdFinish?
             || (c.CmdChangeNodeStatus? && c.to != NodeFailed)
             || (c.CmdFailProcess? && c.id != q) || (c.CmdKill? && c.id != q)
    ensures q in Execute(s, c).state.processes && Execute(s, c).state.processes[q] == s.processes[q]
  {
    hide Inv, Valid, FailProcess, KillProcess, Submit, Suspend, Requeue, FailNodeLocked, Step, StepLoop, LoadScenario,
         ObservedWaiting, Emit;
    match c
    case CmdSubmit(d) => SubmitExact(s, d);
    case CmdFailProcess(id) => FailProcessCommand(s, id);
    case CmdKill(id) => KillExact(s, id);
    case _ => SameRecords(s, c);
  }

  lemma SameRecords(s: State, c: Command)
    requires c.CmdRegisterNode? || c.CmdRemoveNode? || c.CmdRecoverNode? || c.CmdHeartbeat?
             || c.CmdSetScheduler? || c.CmdStart? || c.CmdPauseSimulation? || c.CmdFinish?
             || (c.CmdChangeNodeStatus? && c.to != NodeFailed)
    ensures Execute(s, c).state.processes == s.processes
  {
    hide Execute;
    if c.CmdSetScheduler? || c.CmdStart? || c.CmdPauseSimulation? || c.CmdFinish? {
      ControlKeepsTables(s, c);
    } else if c.CmdChangeNodeStatus? {
      StatusKeepsRecords(s, c.id, c.to);
    } else {
      NodeCommandKeepsRecords(s, c);
    }
  }

  lemma StatusKeepsRecords(s: State, id: Id, to: NodeStatus)
    requires to != NodeFailed
    ensures Execute(s, CmdChangeNodeStatus(id, to)).state.processes == s.processes
  {
    hide FailNodeLocked, Step, StepLoop;
  }

  lemma NodeCommandKeepsRecords(s: State, c: Command)
    requires c.CmdRegisterNode? || c.CmdRemoveNode? || c.CmdRecoverNode? || c.CmdHeartbeat?
    ensures Execute(s, c).state.processes == s.processes
  {
    hide NewNode, Submit, Suspend, Requeue, KillProcess, FailNode, FailNodeLocked, FailProcess, Step, StepLoop,
         ChangeNodeStatus, SetScheduler, Start, PauseSimulation, Finish, Reset, LoadScenario;
  }

  /** Between ticks, resets and loads exactly two commands can lower the observed waiting of a process: its own
      failure and its own kill, and these exactly when it loses a wait by them. Every other one leaves it. */
  lemma PlainCommandWaiting(s: State, c: Command, id: Id)
    requires Valid(s) && IsPlain(c) && id in s.processes
    ensures id in Execute(s, c).state.processes
    ensures var before, after := ObservedWaiting(s.processes[id], s.tick),
                                 ObservedWaiting(Execute(s, c).state.processes[id], s.tick);
      && (after < before <==>
            || (c == CmdFailProcess(id) && LosesWait(s.processes[id], s.tick, false))
            || (c == CmdKill(id) && LosesWait(s.processes[id], s.tick, true)))
      && (c != CmdFailProcess(id) && c != CmdKill(id) ==> after == before)
  {
    hide Valid, FailProcess, KillProcess, FailNodeLocked, Submit, Suspend, Requeue, Step, StepLoop, LoadScenario,
         ObservedWaiting, LosesWait, RegisterNode, RemoveNode, RecoverNode, Heartbeat, SetScheduler, Start,
         PauseSimulation, Finish;
    match c
    case CmdFailProcess(p) => if p == id { FailProcessWaiting(s, id); } else { OthersSameWait(s, c, id); }
    case CmdKill(p) => if p == id { KillProcessWaiting(s, id); } else { OthersSameWait(s, c, id); }
    case CmdFailNode(n) => NodeLossSameWait(s, n, id);
    case CmdChangeNodeStatus(n, to) =>
      if to == NodeFailed { NodeLossSameWait(s, n, id); } else { OthersSameWait(s, c, id); }
    case CmdPause(p) => SuspendSameWait(s, p, Paused, PausedEvent, id);
    case CmdWait(p) => SuspendSameWait(s, p, Waiting, WaitingEvent, id);
    case CmdResume(p) => RequeueSameWait(s, p, Paused, Resumed, id);
    case CmdWake(p) => RequeueSameWait(s, p, Waiting, IOCompleted, id);
    case _ => OthersSameWait(s, c, id);
  }

  // ---------------------------------------------------------------- ticks

  /** What the failures due in a tick have made of a process by the time the tick schedules. */
  lemma ActedRecord(s: State, id: Id)
    requires Inv(s, {}, MID) && ApplyScheduled(s).error == Nil && id in s.processes
    ensures var t := ApplyScheduled(s).state;
      var hits := Hits(s.processes[id], DueFailures(s, s.tick));
      && id in t.processes && t.processes[id] == FailedTimes(s.processes[id], hits, s.tick)
      && hits <= Lives(s.processes[id])
  {
    hide Inv, SubmitAll, ApplyFailures, SortDefinitions, Hits, Lives, FailedTimes;
    var due := DueSubmissions(s, s.tick);
    SubmitAllKeeps(s, SortDefinitions(due));
    SubmissionsKeepRecords(s, SortDefinitions(due));
    DueStays(s, SortDefinitions(due));
    var r := if |due| > 0 then SubmitAll(s, SortDefinitions(due)) else Reply(s, Nil);
    var s1 := if |due| > 0 then r.state.(pending := r.state.pending - {s.tick}) else r.state;
    StatusIsFree(r.state, {}, MID, s1);
    ApplyFailuresExact(s1, DueFailures(s1, s.tick));
    ApplyFailuresKeeps(s1, DueFailures(s1, s.tick));
    var t := ApplyFailures(s1, DueFailures(s1, s.tick)).state;
    assert HitBy(s1.processes[id], t.processes[id], DueFailures(s1, s.tick), s1.tick);
    LivesLeft(t, id);
  }

  lemma LivesLeft(s: State, id: Id)
    requires Inv(s, {}, MID) && id in s.processes
    ensures 0 <= Lives(s.processes[id])
  {
    hide Placed, Logged;
    HistoryOf(s, {}, MID, id);
  }

  lemma {:induction false} SubmissionsKeepRecords(s: State, defs: seq<ProcessDefinition>)
    ensures var t := SubmitAll(s, defs).state;
      forall id | id in s.processes :: id in t.processes && t.processes[id] == s.processes[id]
    decreases |defs|
  {
    if defs != [] && Submit(s, defs[0]).error == Nil {
      SubmissionsKeepRecords(Submit(s, defs[0]).state, defs[1..]);
    }
  }

  lemma {:induction false} DueStays(s: State, defs: seq<ProcessDefinition>)
    ensures SubmitAll(s, defs).state.failures == s.failures && SubmitAll(s, defs).state.tick == s.tick
    decreases |defs|
  {
    if defs != [] {
      SubmitFrame(s, defs[0]);
      if Submit(s, defs[0]).error == Nil {
        DueStays(Submit(s, defs[0]).state, defs[1..]);
      }
    }
  }

  /** Every process of `a` is in `b`, having waited as long at this tick. */
  ghost predicate SameWaits(a: map<Id, Process>, b: map<Id, Process>, tick: int) {
    forall id | id in a :: id in b && ObservedWaiting(b[id], tick) == ObservedWaiting(a[id], tick)
  }

  lemma SameWaitsTransitive(a: map<Id, Process>, b: map<Id, Process>, c: map<Id, Process>, tick: int)
    requires SameWaits(a, b, tick) && SameWaits(b, c, tick)
    ensures SameWaits(a, c, tick)
  {
  }

  lemma DetectionSameWaits(s: State, hosts: set<Id>)
    requires Inv(s, {}, MID)
    ensures SameWaits(s.processes, AllFailed(s.processes, RunningOn(s.processes, hosts), s.tick), s.tick)
  {
    hide Inv, ObservedWaiting, FailedRecord;
    forall id | id in s.processes
      ensures ObservedWaiting(AllFailed(s.processes, RunningOn(s.processes, hosts), s.tick)[id], s.tick)
           == ObservedWaiting(s.processes[id], s.tick)
    {
      LossesSameWait(s, MID, RunningOn(s.processes, hosts), id);
    }
  }

  lemma PassSameWaits(s: State, t: State)
    requires Inv(s, {}, MID) && PassEffect(s, t, ReadyQueue(s))
    ensures SameWaits(s.processes, t.processes, s.tick)
  {
    hide Placed, Logged, ReadyQueue, FitsSomewhere;
    InvParts(s, {}, MID);
    ReadyQueueOk(s);
    forall id | id in s.processes
      ensures ObservedWaiting(t.processes[id], s.tick) == ObservedWaiting(s.processes[id], s.tick)
    {
      HistoryOf(s, {}, MID, id);
      assert if InQueue(ReadyQueue(s), id) then Decided(s, t, id) else t.processes[id] == s.processes[id];
    }
  }

  lemma ExecutionSameWaits(s: State)
    requires Inv(s, {}, MID)
    ensures SameWaits(s.processes, AllExecuted(s.processes, RunningSet(s), s.tick), s.tick)
  {
    hide Placed, Logged;
    forall id | id in RunningSet(s)
      ensures ObservedWaiting(ExecutedRecord(s.processes[id], s.tick), s.tick)
           == ObservedWaiting(s.processes[id], s.tick)
    {
      HistoryOf(s, {}, MID, id);
    }
  }

  /** After its scheduled actions a tick changes nobody's observed waiting. */
  lemma TrailSameWaits(s: State)
    requires Valid(s)
    ensures SameWaits(TrailOf(s).acted.processes, TrailOf(s).final.processes, s.tick + 1)
  {
    hide Inv, Valid, TrailOf, BeginTick, PassEffect, AllFuller, AllFailed, AllExecuted, SameWaits, ReadyQueue;
    TrailIsValid(s);
    BeginFields(s);
    TrailEffects(s);
    PassSettings(s);
    var t := TrailOf(s);
    var now := s.tick + 1;
    DetectionSameWaits(t.acted, StaleNow(t.acted));
    PassSameWaits(t.alive, t.scheduled);
    ExecutionSameWaits(t.scheduled);
    SameWaitsTransitive(t.acted.processes, t.alive.processes, t.scheduled.processes, now);
    SameWaitsTransitive(t.acted.processes, t.scheduled.processes, t.final.processes, now);
  }

  /** What a process has waited after a successful tick is what it has waited after the failures due in it. */
  lemma TickWaitingIs(s: State, id: Id)
    requires Valid(s) && Step(s).error == Nil && id in s.processes
    ensures var hits := Hits(s.processes[id], DueFailures(s, s.tick + 1));
      && id in Step(s).state.processes
      && ObservedWaiting(Step(s).state.processes[id], s.tick + 1)
           == ObservedWaiting(FailedTimes(s.processes[id], hits, s.tick + 1), s.tick + 1)
      && hits <= Lives(s.processes[id])
  {
    hide Inv, Valid, Step, TrailOf, ApplyScheduled, BeginTick, ObservedWaiting, Hits, Lives, FailedTimes;
    StepExact(s);
    BeginFields(s);
    BeginTickKeeps(s);
    TrailActs(s);
    ActedRecord(BeginTick(s), id);
    TrailSameWaits(s);
  }

  /** A record that has failed n times at a tick, as long as it had the lives for it. */
  lemma {:induction false} FailedTimesRecord(p: Process, interrupted: bool, n: nat, tick: int)
    requires RecordOk(p, interrupted, tick, 1) && n <= Lives(p)
    ensures var q := FailedTimes(p, n, tick);
      && q.startedAt == p.startedAt && q.submittedAt == p.submittedAt && q.waitingTicks == p.waitingTicks
      && q.restartPolicy == p.restartPolicy && q.maxRestarts == p.maxRestarts
      && (0 < n < Lives(p) ==> q.state == Ready && q.lastReadyAt == tick && q.restartCount == p.restartCount + n)
      && (0 < n == Lives(p) ==> q.state == Failed && q.finishedAt == Some(tick))
  {
    if n > 0 {
      FailedTimesRecord(p, interrupted, n - 1, tick);
    }
  }

  /** The wait of a READY process since its last ready tick is lost when failures due in the tick hit it, unless
      it ends by them without ever having started. */
  ghost predicate TickLosesWait(s: State, id: Id)
    requires id in s.processes
  {
    var p := s.processes[id];
    var hits := Hits(p, DueFailures(s, s.tick + 1));
    p.state == Ready && s.tick > p.lastReadyAt && 0 < hits && (p.startedAt.Some? || hits < Lives(p))
  }

  lemma FailedTimesWaiting(p: Process, interrupted: bool, n: nat, tick: int)
    requires RecordOk(p, interrupted, tick, 0) && n <= Lives(p)
    ensures ObservedWaiting(FailedTimes(p, n, tick + 1), tick + 1) < ObservedWaiting(p, tick) <==>
              p.state == Ready && tick > p.lastReadyAt && 0 < n && (p.startedAt.Some? || n < Lives(p))
  {
    hide FailedTimes;
    RecordAges(p, interrupted, tick);
    FailedTimesRecord(p, interrupted, n, tick + 1);
    NoFailure(p, tick + 1);
  }

  lemma NoFailure(p: Process, tick: int)
    ensures FailedTimes(p, 0, tick) == p
  {
  }

  /** A successful tick lowers the observed waiting of a process exactly if it loses its wait by the failures
      due in it. */
  lemma TickWaiting(s: State, id: Id)
    requires Valid(s) && Step(s).error == Nil && id in s.processes
    ensures id in Step(s).state.processes && Step(s).state.tick == s.tick + 1
    ensures ObservedWaiting(Step(s).state.processes[id], s.tick + 1) < ObservedWaiting(s.processes[id], s.tick)
       <==> TickLosesWait(s, id)
  {
    hide Inv, Step, ObservedWaiting, Hits, Lives, FailedTimes, RecordOk;
    CalendarFields(s);
    TickWaitingIs(s, id);
    HistoryOf(s, {}, Rest, id);
    FailedTimesWaiting(s.processes[id], id in Replay(s.events).interrupted,
                       Hits(s.processes[id], DueFailures(s, s.tick + 1)), s.tick);
  }

  /** Every process of `a` is in `b`, having waited at least as long. */
  ghost predicate WaitsKept(a: map<Id, Process>, t: int, b: map<Id, Process>, u: int) {
    forall id | id in a :: id in b && ObservedWaiting(b[id], u) >= ObservedWaiting(a[id], t)
  }

  /** So a tick keeps everybody's observed waiting if and only if it fails or nobody loses a wait by it:
      submissions, timeouts of nodes, placement and work never lower it. */
  lemma TickKeepsWaits(s: State)
    requires Valid(s)
    ensures WaitsKept(s.processes, s.tick, Step(s).state.processes, Step(s).state.tick)
       <==> Step(s).error != Nil || forall id | id in s.processes :: !TickLosesWait(s, id)
  {
    hide Inv, Valid, Step, ObservedWaiting, TickLosesWait;
    StepExact(s);
    if Step(s).error == Nil {
      forall id | id in s.processes
        ensures id in Step(s).state.processes && Step(s).state.tick == s.tick + 1
        ensures ObservedWaiting(Step(s).state.processes[id], s.tick + 1) < ObservedWaiting(s.processes[id], s.tick)
           <==> TickLosesWait(s, id)
      {
        TickWaiting(s, id);
      }
    }
  }
}
