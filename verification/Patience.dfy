/** What aging does give: under the Priority-Aware policy a process that asks for no more than any other is
    placed once those that were ready before its deadline have done their work, whatever is submitted. */
module Patience {
  import opened Domain
  import opened Ordering
  import opened Sums
  import opened Schedulers
  import opened Cluster
  import opened Scenarios
  import opened Placement
  import opened EventLog
  import opened Invariants
  import opened Failures
  import opened Commands
  import opened Scheduling
  import opened Tick
  import opened TickErrors
  import opened Progress
  import opened Runs
  import opened Aging
  import opened WaitingTime
  import Conservation

  // ---------------------------------------------------------------- work that can come first

  /** From this tick on, whoever becomes ready with a priority of at most `most` stays behind p. */
  function Deadline(p: Process, aging: pos, most: int): int {
    p.lastReadyAt + aging * (most - p.priority + 1)
  }

  /** What is left of a process that runs, or has been ready since before the deadline. */
  function Burden(q: Process, deadline: int): int {
    if q.state == Running || (q.state == Ready && q.lastReadyAt < deadline) then q.remainingTicks else 0
  }

  function Burdens(processes: map<Id, Process>, p: Id, deadline: int): map<Id, int> {
    map id | id in processes :: if id == p then 0 else Burden(processes[id], deadline)
  }

  /** The work that can still come before p. */
  ghost function WorkAhead(processes: map<Id, Process>, p: Id, deadline: int): int {
    MapSum(Burdens(processes, p, deadline))
  }

  ghost predicate Lighter(a: map<Id, Process>, b: map<Id, Process>, p: Id, deadline: int, id: Id)
    requires id in b
  {
    Burden(b[id], deadline) <= if id in a then Burden(a[id], deadline) else 0
  }

  /** No burden has grown, and none has come up. */
  ghost predicate Wanes(a: map<Id, Process>, b: map<Id, Process>, p: Id, deadline: int) {
    a.Keys <= b.Keys && forall id | id in b && id != p :: Lighter(a, b, p, deadline, id)
  }

  lemma WanesTransitive(a: map<Id, Process>, b: map<Id, Process>, c: map<Id, Process>, p: Id, deadline: int)
    requires Wanes(a, b, p, deadline) && Wanes(b, c, p, deadline)
    ensures Wanes(a, c, p, deadline)
  {
    forall id | id in c && id != p ensures Lighter(a, c, p, deadline, id) {
      assert Lighter(b, c, p, deadline, id);
      assert id in b ==> Lighter(a, b, p, deadline, id);
    }
  }

  lemma WaneSums(a: map<Id, Process>, b: map<Id, Process>, p: Id, deadline: int)
    requires Wanes(a, b, p, deadline)
    ensures WorkAhead(b, p, deadline) <= WorkAhead(a, p, deadline)
    ensures (exists id | id in a && id in b && id != p :: Burden(b[id], deadline) < Burden(a[id], deadline)) ==>
              WorkAhead(b, p, deadline) < WorkAhead(a, p, deadline)
  {
    hide Burden;
    var before, after := Burdens(a, p, deadline), Burdens(b, p, deadline);
    var padded := map id | id in b :: if id in a then before[id] else 0;
    Conservation.PadWithZeros(before, padded);
    forall id | id in after ensures after[id] <= padded[id] {
      assert id != p ==> Lighter(a, b, p, deadline, id);
    }
    SumIsMonotone(after, padded);
    if id :| id in a && id in b && id != p && Burden(b[id], deadline) < Burden(a[id], deadline) {
      assert after[id] < padded[id];
    }
  }

  lemma BurdenIsNonNegative(s: State, p: Id, deadline: int)
    requires Valid(s)
    ensures 0 <= WorkAhead(s.processes, p, deadline)
  {
    hide Placed, Logged;
    forall id | id in s.processes ensures 0 <= Burden(s.processes[id], deadline) {
      HistoryOf(s, {}, Rest, id);
    }
    SumIsNonNegative(Burdens(s.processes, p, deadline));
  }

  // ---------------------------------------------------------------- what failures leave

  /** A record that failed at or after the deadline is no burden. */
  lemma FailedIsNoBurden(p: Process, interrupted: bool, n: nat, tick: int, deadline: int)
    requires RecordOk(p, interrupted, tick, 1) && n <= Lives(p) && deadline <= tick
    ensures Burden(FailedTimes(p, n, tick), deadline) <= Burden(p, deadline)
  {
    hide FailedTimes, RecordOk;
    FailedTimesRecord(p, interrupted, n, tick);
    NoFailure(p, tick);
    NoNegativeWork(p, interrupted, tick);
  }

  lemma NoNegativeWork(p: Process, interrupted: bool, tick: int)
    requires RecordOk(p, interrupted, tick, 1)
    ensures 0 <= p.remainingTicks
  {
  }

  lemma {:induction false} SubmittedAreNoBurden(s: State, defs: seq<ProcessDefinition>, p: Id, deadline: int)
    requires deadline <= s.tick
    ensures Wanes(s.processes, SubmitAll(s, defs).state.processes, p, deadline)
    decreases |defs|
  {
    if defs != [] && Submit(s, defs[0]).error == Nil {
      var s1 := Submit(s, defs[0]).state;
      SubmittedAreNoBurden(s1, defs[1..], p, deadline);
      WanesTransitive(s.processes, s1.processes, SubmitAll(s1, defs[1..]).state.processes, p, deadline);
    }
  }

  lemma HitsAreNoBurden(s: State, fs: seq<FailureDefinition>, p: Id, deadline: int)
    requires Inv(s, {}, MID) && ApplyFailures(s, fs).error == Nil && deadline <= s.tick
    ensures Wanes(s.processes, ApplyFailures(s, fs).state.processes, p, deadline)
  {
    hide Inv, ApplyFailures, Hits, Lives, FailedTimes, Burden, RecordOk;
    ApplyFailuresExact(s, fs);
    ApplyFailuresKeeps(s, fs);
    var t := ApplyFailures(s, fs).state;
    forall id | id in t.processes && id != p ensures Lighter(s.processes, t.processes, p, deadline, id) {
      assert HitBy(s.processes[id], t.processes[id], fs, s.tick);
      LivesLeft(t, id);
      HistoryOf(s, {}, MID, id);
      FailedIsNoBurden(s.processes[id], id in Replay(s.events).interrupted, Hits(s.processes[id], fs), s.tick,
          deadline);
    }
  }

  lemma ActionsWane(s: State, p: Id, deadline: int)
    requires Inv(s, {}, MID) && ApplyScheduled(s).error == Nil && deadline <= s.tick
    ensures Wanes(s.processes, ApplyScheduled(s).state.processes, p, deadline)
  {
    hide Inv, SubmitAll, ApplyFailures, SortDefinitions, Wanes;
    var due := DueSubmissions(s, s.tick);
    SubmitAllKeeps(s, SortDefinitions(due));
    SubmittedAreNoBurden(s, SortDefinitions(due), p, deadline);
    SubmittedAreNoBurden(s, [], p, deadline);
    NoneSubmitted(s);
    var r := if |due| > 0 then SubmitAll(s, SortDefinitions(due)) else Reply(s, Nil);
    var s1 := if |due| > 0 then r.state.(pending := r.state.pending - {s.tick}) else r.state;
    StatusIsFree(r.state, {}, MID, s1);
    HitsAreNoBurden(s1, DueFailures(s1, s.tick), p, deadline);
    WanesTransitive(s.processes, s1.processes, ApplyFailures(s1, DueFailures(s1, s.tick)).state.processes, p, deadline);
  }

  lemma NoneSubmitted(s: State)
    ensures SubmitAll(s, []) == Reply(s, Nil)
  {
  }

  lemma LossesWane(s: State, phase: Phase, lost: set<Id>, p: Id, deadline: int)
    requires Inv(s, {}, phase) && deadline <= s.tick
    requires forall id | id in lost && id in s.processes :: s.processes[id].state == Running
    ensures Wanes(s.processes, AllFailed(s.processes, lost, s.tick), p, deadline)
  {
    hide Placed, Logged;
    forall id | id in s.processes && id != p
      ensures Lighter(s.processes, AllFailed(s.processes, lost, s.tick), p, deadline, id)
    {
      HistoryOf(s, {}, phase, id);
    }
  }

  // ---------------------------------------------------------------- a tick

  /** Under aging, with a node that has room for p when it is empty, and everybody else asking for at least as
      much with a priority of at most `most`. */
  ghost predicate Kept(s: State, p: Process, host: Id, aging: pos, most: int) {
    && s.policy == Policy.PriorityAware(aging)
    && host in s.nodes && s.nodes[host].status == Online
    && p.cpuRequest <= s.nodes[host].cpuCapacity && p.memoryRequest <= s.nodes[host].memoryCapacity
    && forall q | q in s.processes && q != p.id ::
         NoLarger(p, s.processes[q]) && s.processes[q].priority <= most
  }

  ghost predicate Waits(processes: map<Id, Process>, p: Process) {
    p.state == Ready && p.id in processes && processes[p.id] == p
  }

  /** The process that a pass places is no newcomer, as long as p waits. */
  lemma PlacedIsNoNewcomer(s: State, p: Process, q: Id, aging: pos, most: int)
    requires Inv(s, {}, MID) && s.policy == Policy.PriorityAware(aging) && Waits(s.processes, p)
    requires q in s.processes && q != p.id && s.processes[q].state == Ready
    requires NoLarger(p, s.processes[q]) && s.processes[q].priority <= most
    requires p.id in ScheduleReady(s).processes && ScheduleReady(s).processes[p.id].state == Ready
    requires q in ScheduleReady(s).processes && ScheduleReady(s).processes[q].state == Running
    ensures s.processes[q].lastReadyAt < Deadline(p, aging, most)
  {
    hide Inv, ScheduleReady, NoLarger;
    if s.processes[q].lastReadyAt >= Deadline(p, aging, most) {
      MulGrows(aging, s.processes[q].priority - p.priority + 1, most - p.priority + 1);
      AgedIsNotOvertaken(s, p.id, q);
    }
  }

  lemma MulGrows(a: pos, x: int, y: int)
    requires x <= y
    ensures a * x <= a * y
  {
  }

  lemma PassWanes(s: State, p: Process, aging: pos, most: int)
    requires Inv(s, {}, MID) && s.policy == Policy.PriorityAware(aging) && Waits(s.processes, p)
    requires forall q | q in s.processes && q != p.id :: NoLarger(p, s.processes[q]) && s.processes[q].priority <= most
    requires p.id in ScheduleReady(s).processes && ScheduleReady(s).processes[p.id].state == Ready
    ensures Wanes(s.processes, ScheduleReady(s).processes, p.id, Deadline(p, aging, most))
  {
    hide Inv, ScheduleReady, ReadyQueue, FitsSomewhere, AllFuller, SameButPolicy, NoLarger, Deadline, IsOnline;
    InvParts(s, {}, MID);
    PassIsMaximal(s);
    ReadyQueueOk(s);
    var t, deadline := ScheduleReady(s), Deadline(p, aging, most);
    forall q | q in t.processes && q != p.id ensures Lighter(s.processes, t.processes, p.id, deadline, q) {
      assert if InQueue(ReadyQueue(s), q) then Decided(s, t, q) else t.processes[q] == s.processes[q];
      if t.processes[q] != s.processes[q] {
        PlacedIsNoNewcomer(s, p, q, aging, most);
      }
    }
  }

  lemma ExecutionWanes(s: State, p: Id, deadline: int)
    requires Inv(s, {}, MID)
    ensures var after := AllExecuted(s.processes, RunningSet(s), s.tick);
      && Wanes(s.processes, after, p, deadline)
      && forall q | q in RunningSet(s) :: Burden(after[q], deadline) < Burden(s.processes[q], deadline)
  {
    hide Placed, Logged;
    forall q | q in s.processes
      ensures var after := AllExecuted(s.processes, RunningSet(s), s.tick);
        && (q in RunningSet(s) ==> Burden(after[q], deadline) < Burden(s.processes[q], deadline))
        && (q !in RunningSet(s) ==> after[q] == s.processes[q])
    {
      HistoryOf(s, {}, MID, q);
    }
  }

  lemma SomeoneIn(q: seq<Id>)
    requires q != []
    ensures exists x :: x in q
  {
    assert q[0] in q;
  }

  /** Where nothing runs, everything that has the capacity fits. */
  lemma EmptyFits(s: State, p: Process, host: Id)
    requires Inv(s, {}, MID) && RunningSet(s) == {} && host in s.nodes && s.nodes[host].status == Online
    requires p.cpuRequest <= s.nodes[host].cpuCapacity && p.memoryRequest <= s.nodes[host].memoryCapacity
    ensures FitsSomewhere(s, p)
  {
    hide Logged, RecordsOk, RecordOk;
    assert NodeOk(s.nodes[host], host, s.processes, {});
    assert forall x | x in s.nodes[host].running :: x in RunningSet(s);
    if s.nodes[host].running != [] {
      SomeoneIn(s.nodes[host].running);
    }
    assert s.nodes[host].CanFit(p);
  }

  /** A pass that leaves p waiting leaves something running. */
  lemma SomethingRuns(s: State, p: Process, host: Id)
    requires Inv(s, {}, MID) && host in s.nodes && s.nodes[host].status == Online
    requires p.cpuRequest <= s.nodes[host].cpuCapacity && p.memoryRequest <= s.nodes[host].memoryCapacity
    requires Waits(ScheduleReady(s).processes, p)
    ensures RunningSet(ScheduleReady(s)) != {}
  {
    hide Inv, ScheduleReady, ReadyQueue, FitsSomewhere, SameButPolicy, Decided;
    PassIsMaximal(s);
    var t := ScheduleReady(s);
    assert Fuller(s.nodes[host], t.nodes[host]);
    if RunningSet(t) == {} {
      EmptyFits(t, p, host);
    }
  }

  lemma PassKeepsClaims(s: State)
    requires Inv(s, {}, MID)
    ensures var t := ScheduleReady(s);
      && t.processes.Keys == s.processes.Keys
      && (forall q | q in s.processes :: SameClaim(s.processes[q], t.processes[q]))
      && (forall q | q in s.processes && t.processes[q].state == Ready :: t.processes[q] == s.processes[q])
      && AllFuller(s.nodes, t.nodes)
  {
    hide Inv, ScheduleReady, ReadyQueue, FitsSomewhere, AllFuller, SameButPolicy, IsOnline;
    InvParts(s, {}, MID);
    PassIsMaximal(s);
    ReadyQueueOk(s);
    var t := ScheduleReady(s);
    forall q | q in s.processes ensures SameClaim(s.processes[q], t.processes[q]) {
      assert if InQueue(ReadyQueue(s), q) then Decided(s, t, q) else t.processes[q] == s.processes[q];
    }
  }

  lemma ExecutionKeepsClaims(processes: map<Id, Process>, ids: set<Id>, tick: int)
    requires forall q | q in ids :: q in processes && processes[q].state == Running
    ensures var after := AllExecuted(processes, ids, tick);
      && (forall q | q in processes :: SameClaim(processes[q], after[q]))
      && (forall q | q in processes && after[q].state == Ready :: after[q] == processes[q])
  {
  }

  lemma KeptBefore(s: State, t: State, p: Process, host: Id, aging: pos, most: int)
    requires Kept(t, p, host, aging, most) && s.policy == Policy.PriorityAware(aging)
    requires s.nodes.Keys == t.nodes.Keys && s.processes.Keys == t.processes.Keys
    requires forall n | n in s.nodes :: t.nodes[n].status == s.nodes[n].status
               && t.nodes[n].cpuCapacity == s.nodes[n].cpuCapacity
                   && t.nodes[n].memoryCapacity == s.nodes[n].memoryCapacity
    requires forall q | q in s.processes :: SameClaim(s.processes[q], t.processes[q])
    ensures Kept(s, p, host, aging, most)
  {
    forall q | q in s.processes && q != p.id
      ensures NoLarger(p, s.processes[q]) && s.processes[q].priority <= most
    {
      assert SameClaim(s.processes[q], t.processes[q]);
      assert NoLarger(p, t.processes[q]) && t.processes[q].priority <= most;
    }
  }

  /** If p still waits after a tick, it waited when the tick scheduled, among the same processes and nodes. */
  lemma TrailKept(s: State, p: Process, host: Id, aging: pos, most: int)
    requires Valid(s) && Step(s).error == Nil && s.policy == Policy.PriorityAware(aging)
    requires Kept(Step(s).state, p, host, aging, most) && Waits(Step(s).state.processes, p)
    ensures var t := TrailOf(s);
      && Kept(t.alive, p, host, aging, most) && Waits(t.alive.processes, p) && Waits(t.scheduled.processes, p)
  {
    hide Inv, Valid, Step, TrailOf, BeginTick, ScheduleReady, AllExecuted, AllFailed, Downed, PassEffect, AllFuller,
         Kept, StaleNow;
    StepExact(s);
    BeginFields(s);
    TrailIsValid(s);
    TrailEffects(s);
    TrailActs(s);
    var t := TrailOf(s);
    PassKeepsClaims(t.alive);
    ExecutionKeepsClaims(t.scheduled.processes, RunningSet(t.scheduled), t.scheduled.tick);
    FillingAgrees(t.alive.nodes, t.scheduled.nodes, t.final.nodes);
    KeysOfExecuted(t.scheduled.processes, RunningSet(t.scheduled), t.scheduled.tick);
    forall q | q in t.alive.processes ensures SameClaim(t.alive.processes[q], t.final.processes[q]) {
      assert SameClaim(t.alive.processes[q], t.scheduled.processes[q]);
      assert SameClaim(t.scheduled.processes[q], t.final.processes[q]);
    }
    KeptBefore(t.alive, t.final, p, host, aging, most);
  }

  lemma KeysOfExecuted(processes: map<Id, Process>, ids: set<Id>, tick: int)
    ensures AllExecuted(processes, ids, tick).Keys == processes.Keys
  {
  }

  predicate SameClaim(p: Process, q: Process) {
    p.cpuRequest == q.cpuRequest && p.memoryRequest == q.memoryRequest && p.priority == q.priority
  }

  /** From its deadline on, every tick that leaves p waiting does some of the work that can come before it. */
  lemma TickWanes(s: State, p: Process, host: Id, aging: pos, most: int)
    requires Valid(s) && Step(s).error == Nil && Deadline(p, aging, most) <= s.tick + 1
    requires s.policy == Policy.PriorityAware(aging)
    requires Kept(Step(s).state, p, host, aging, most) && Waits(Step(s).state.processes, p)
    ensures WorkAhead(Step(s).state.processes, p.id, Deadline(p, aging, most))
          < WorkAhead(s.processes, p.id, Deadline(p, aging, most))
  {
    hide Inv, Valid, Step, TrailOf, BeginTick, ReadyQueue, AllFuller, NoLarger, PassEffect, Wanes, Burden, AllExecuted,
         AllFailed, ApplyScheduled, ScheduleReady, Deadline;
    var deadline := Deadline(p, aging, most);
    StepExact(s);
    BeginFields(s);
    BeginTickKeeps(s);
    TrailIsValid(s);
    TrailEffects(s);
    TrailActs(s);
    PassSettings(s);
    TrailKept(s, p, host, aging, most);
    var t := TrailOf(s);
    ActionsWane(BeginTick(s), p.id, deadline);
    LossesWane(t.acted, MID, RunningOn(t.acted.processes, StaleNow(t.acted)), p.id, deadline);
    PassWanes(t.alive, p, aging, most);
    SomethingRuns(t.alive, p, host);
    ExecutionWanes(t.scheduled, p.id, deadline);
    WanesTransitive(s.processes, t.acted.processes, t.alive.processes, p.id, deadline);
    WanesTransitive(s.processes, t.alive.processes, t.scheduled.processes, p.id, deadline);
    WaneSums(s.processes, t.scheduled.processes, p.id, deadline);
    WaneSums(t.scheduled.processes, t.final.processes, p.id, deadline);
    var q :| q in RunningSet(t.scheduled);
    assert q != p.id;
    KeysOfExecuted(t.scheduled.processes, RunningSet(t.scheduled), t.scheduled.tick);
  }

  // ---------------------------------------------------------------- other commands

  lemma OneWanes(a: map<Id, Process>, id: Id, q: Process, p: Id, deadline: int)
    requires id in a && Burden(q, deadline) == 0 <= Burden(a[id], deadline)
    ensures Wanes(a, a[id := q], p, deadline)
  {
    hide Burden;
    forall x | x in a && x != p ensures Lighter(a, a[id := q], p, deadline, x) {
    }
  }

  lemma SameWane(a: map<Id, Process>, p: Id, deadline: int)
    ensures Wanes(a, a, p, deadline)
  {
  }

  lemma NoBurdenYet(s: State, id: Id, deadline: int)
    requires Valid(s) && id in s.processes
    ensures 0 <= Burden(s.processes[id], deadline)
  {
    hide Placed, Logged;
    HistoryOf(s, {}, Rest, id);
  }

  /** A command on a process leaves it READY as of now, or not in the queue at all. */
  lemma ProcessCommandRecord(s: State, c: Command)
    requires c.CmdPause? || c.CmdResume? || c.CmdWait? || c.CmdWake? || c.CmdKill? || c.CmdFailProcess?
    requires Valid(s) && c.id in s.processes
    ensures var t := Execute(s, c).state.processes;
      && c.id in t && t == s.processes[c.id := t[c.id]]
      && (t[c.id] == s.processes[c.id] || (t[c.id].state == Ready && t[c.id].lastReadyAt == s.tick)
          || (t[c.id].state != Ready && t[c.id].state != Running))
  {
    hide Valid, Suspend, Requeue, KillProcess, FailProcess, Step, StepLoop, LoadScenario;
    assert s.processes[c.id := s.processes[c.id]] == s.processes;
    match c {
      case CmdPause(id) => SuspendExact(s, id, Paused, PausedEvent);
      case CmdWait(id) => SuspendExact(s, id, Waiting, WaitingEvent);
      case CmdResume(id) => RequeueExact(s, id, Paused, Resumed);
      case CmdWake(id) => RequeueExact(s, id, Waiting, IOCompleted);
      case CmdKill(id) => KillExact(s, id);
      case CmdFailProcess(id) => FailProcessCommand(s, id);
    }
  }

  lemma ProcessCommandWanes(s: State, c: Command, p: Id, deadline: int)
    requires Valid(s) && deadline <= s.tick
    requires c.CmdPause? || c.CmdResume? || c.CmdWait? || c.CmdWake? || c.CmdKill? || c.CmdFailProcess?
    ensures Wanes(s.processes, Execute(s, c).state.processes, p, deadline)
  {
    hide Valid, Execute, Wanes;
    SameWane(s.processes, p, deadline);
    if c.id in s.processes {
      NoBurdenYet(s, c.id, deadline);
      ProcessCommandRecord(s, c);
      if Execute(s, c).state.processes != s.processes {
        OneWanes(s.processes, c.id, Execute(s, c).state.processes[c.id], p, deadline);
      }
    } else {
      UnknownProcess(s, c);
    }
  }

  lemma UnknownProcess(s: State, c: Command)
    requires c.CmdPause? || c.CmdResume? || c.CmdWait? || c.CmdWake? || c.CmdKill? || c.CmdFailProcess?
    requires c.id !in s.processes
    ensures Execute(s, c).state == s
  {
  }

  /** Nothing done to the cluster between ticks adds to the work that can come before p. */
  lemma PlainWanes(s: State, c: Command, p: Id, deadline: int)
    requires Valid(s) && IsPlain(c) && deadline <= s.tick
    ensures Wanes(s.processes, Execute(s, c).state.processes, p, deadline)
  {
    hide Inv, Suspend, Requeue, KillProcess, FailProcess, Submit, FailNodeLocked, Wanes, Step, StepLoop, LoadScenario,
         RegisterNode, RemoveNode, RecoverNode, Heartbeat, SetScheduler, Start, PauseSimulation, Finish;
    SameWane(s.processes, p, deadline);
    match c
    case CmdPause(_) => ProcessCommandWanes(s, c, p, deadline);
    case CmdWait(_) => ProcessCommandWanes(s, c, p, deadline);
    case CmdResume(_) => ProcessCommandWanes(s, c, p, deadline);
    case CmdWake(_) => ProcessCommandWanes(s, c, p, deadline);
    case CmdKill(_) => ProcessCommandWanes(s, c, p, deadline);
    case CmdFailProcess(_) => ProcessCommandWanes(s, c, p, deadline);
    case CmdSubmit(d) => SubmissionWanes(s, d, p, deadline);
    case CmdFailNode(n) => NodeLossWanes(s, n, p, deadline);
    case CmdChangeNodeStatus(n, to) =>
      if to == NodeFailed { NodeLossWanes(s, n, p, deadline); } else { SameRecords(s, c); }
    case _ => SameRecords(s, c);
  }

  lemma SubmissionWanes(s: State, d: ProcessDefinition, p: Id, deadline: int)
    requires deadline <= s.tick
    ensures Wanes(s.processes, Submit(s, d).state.processes, p, deadline)
  {
  }

  lemma NodeLossWanes(s: State, n: Id, p: Id, deadline: int)
    requires Valid(s) && deadline <= s.tick
    ensures Wanes(s.processes, FailNode(s, n).state.processes, p, deadline)
  {
    hide Inv, FailNodeLocked, Wanes;
    FailNodeCommand(s, n);
    SameWane(s.processes, p, deadline);
    if n in s.nodes {
      ListIsRunningOn(s, Rest, n);
      LossesWane(s, Rest, Elements(s.nodes[n].running), p, deadline);
    }
  }

  // ---------------------------------------------------------------- runs

  /** How many ticks of a run succeed. */
  ghost function TicksDone(s: State, commands: seq<Command>): nat
    decreases |commands|
  {
    if commands == [] then 0
    else
      var front, last := commands[..|commands| - 1], commands[|commands| - 1];
      TicksDone(s, front) + if last.CmdStep? && Execute(Run(s, front), last).error == Nil then 1 else 0
  }

  predicate Ordinary(c: Command) {
    IsPlain(c) || c.CmdStep?
  }

  lemma OrdinaryKeepsValid(s: State, c: Command)
    requires Valid(s) && Ordinary(c)
    ensures var t := Execute(s, c).state;
      && Valid(t)
      && t.tick == s.tick + (if c.CmdStep? && Execute(s, c).error == Nil then 1 else 0)
      && (c.CmdStep? && Execute(s, c).error != Nil ==> t == s)
  {
    hide Valid, Execute, Step, Calm;
    if IsPlain(c) {
      PlainKeepsValid(s, c);
      PlainIsCalm(s, c);
    } else {
      StepCommand(s);
      StepExact(s);
      if Step(s).error == Nil {
        CalendarFields(s);
      }
    }
  }

  lemma StepCommand(s: State)
    ensures Execute(s, CmdStep) == Step(s)
  {
    hide Step;
  }

  /** One more command: a tick that succeeds pays for itself, and everything else is free. */
  lemma CommandIsPaidFor(s: State, c: Command, p: Process, host: Id, aging: pos, most: int)
    requires Valid(s) && Ordinary(c) && Deadline(p, aging, most) <= s.tick
    requires Kept(s, p, host, aging, most) && Waits(s.processes, p)
    requires Kept(Execute(s, c).state, p, host, aging, most) && Waits(Execute(s, c).state.processes, p)
    ensures var deadline := Deadline(p, aging, most);
      WorkAhead(Execute(s, c).state.processes, p.id, deadline)
        + (if c.CmdStep? && Execute(s, c).error == Nil then 1 else 0)
        <= WorkAhead(s.processes, p.id, deadline)
  {
    hide Valid, Execute, Step, WorkAhead, Wanes, Deadline;
    var deadline := Deadline(p, aging, most);
    if IsPlain(c) {
      PlainWanes(s, c, p.id, deadline);
      WaneSums(s.processes, Execute(s, c).state.processes, p.id, deadline);
    } else {
      StepCommand(s);
      StepExact(s);
      if Step(s).error == Nil {
        TickWanes(s, p, host, aging, most);
      }
    }
  }

  /** The ticks for which p is left waiting after its deadline are paid for by work that can come before it. */
  lemma {:induction false} WaitIsPaidFor(s: State, p: Process, host: Id, aging: pos, most: int, commands: seq<Command>)
    requires Valid(s) && Deadline(p, aging, most) <= s.tick && forall c | c in commands :: Ordinary(c)
    requires forall k | 0 <= k <= |commands| :: var t := Run(s, commands[..k]);
               Kept(t, p, host, aging, most) && Waits(t.processes, p)
    ensures var t, deadline := Run(s, commands), Deadline(p, aging, most);
      && Valid(t) && deadline <= t.tick
      && TicksDone(s, commands) + WorkAhead(t.processes, p.id, deadline) <= WorkAhead(s.processes, p.id, deadline)
    decreases |commands|
  {
    hide Valid, Execute, WorkAhead, Deadline, Kept, Waits, Ordinary;
    if commands != [] {
      var front, last := commands[..|commands| - 1], commands[|commands| - 1];
      assert forall k | 0 <= k <= |front| :: front[..k] == commands[..k];
      assert commands[..|commands|] == commands;
      assert last in commands && forall c | c in front :: c in commands;
      WaitIsPaidFor(s, p, host, aging, most, front);
      assert Kept(Run(s, front), p, host, aging, most) && Waits(Run(s, front).processes, p);
      OrdinaryKeepsValid(Run(s, front), last);
      CommandIsPaidFor(Run(s, front), last, p, host, aging, most);
    }
  }

  // ---------------------------------------------------------------- service

  /** A command that neither kills nor fails p, and no tick on which p's failure is due. */
  ghost predicate Spares(s: State, c: Command, p: Id) {
    && Ordinary(c) && c != CmdKill(p) && c != CmdFailProcess(p)
    && (c.CmdStep? ==> forall f | f in DueFailures(s, s.tick + 1) :: !(f.kind == ProcessFailure && f.processId == p))
  }

  /** A tick whose pass places p. */
  ghost predicate Serves(s: State, c: Command, p: Id) {
    var t := TrailOf(s);
    && c.CmdStep? && Step(s).error == Nil
    && p in t.alive.processes && t.alive.processes[p].state == Ready
    && p in t.scheduled.processes && t.scheduled.processes[p].state == Running
  }

  lemma {:induction false} SparedIsNotHit(p: Process, fs: seq<FailureDefinition>)
    requires p.state == Ready && forall f | f in fs :: !(f.kind == ProcessFailure && f.processId == p.id)
    ensures Hits(p, fs) == 0
  {
    if fs != [] {
      assert fs[|fs| - 1] in fs;
      SparedIsNotHit(p, fs[..|fs| - 1]);
    }
  }

  lemma SparedIsNotActedOn(s: State, p: Process)
    requires Inv(s, {}, MID) && ApplyScheduled(s).error == Nil && Waits(s.processes, p)
    requires forall f | f in DueFailures(s, s.tick) :: !(f.kind == ProcessFailure && f.processId == p.id)
    ensures Waits(ApplyScheduled(s).state.processes, p)
  {
    hide Inv, ApplyScheduled, Hits, Lives, FailedTimes;
    ActedRecord(s, p.id);
    SparedIsNotHit(p, DueFailures(s, s.tick));
    NoFailure(p, s.tick);
  }

  lemma NotRunningNotLost(processes: map<Id, Process>, hosts: set<Id>, tick: int, p: Process)
    requires Waits(processes, p)
    ensures Waits(AllFailed(processes, RunningOn(processes, hosts), tick), p)
  {
  }

  lemma BecomesAlive(s: State)
    requires Valid(s)
    ensures var t := TrailOf(s);
      && t.acted == ApplyScheduled(BeginTick(s)).state
      && t.alive.processes
           == AllFailed(t.acted.processes, RunningOn(t.acted.processes, StaleNow(t.acted)), t.acted.tick)
  {
    hide Inv, Valid, TrailOf, BeginTick, ApplyScheduled, AllFuller, PassEffect, Downed, AllExecuted, AllFailed,
         RunningOn;
    TrailEffects(s);
    TrailActs(s);
  }

  /** Up to the pass nothing happens to a process that is spared. */
  lemma SparedIsAlive(s: State, p: Process)
    requires Valid(s) && Waits(s.processes, p) && Spares(s, CmdStep, p.id) && Step(s).error == Nil
    ensures Waits(TrailOf(s).alive.processes, p)
  {
    hide Inv, Valid, Step, TrailOf, BeginTick, ApplyScheduled, AllFuller, PassEffect, Downed, AllExecuted, AllFailed,
         RunningOn, Waits;
    StepExact(s);
    BeginFields(s);
    BeginTickKeeps(s);
    BecomesAlive(s);
    SparedIsNotActedOn(BeginTick(s), p);
    var t := TrailOf(s);
    NotRunningNotLost(t.acted.processes, StaleNow(t.acted), t.acted.tick, p);
  }

  lemma UnservedTickKeeps(s: State, p: Process)
    requires Valid(s) && Waits(s.processes, p) && Spares(s, CmdStep, p.id) && !Serves(s, CmdStep, p.id)
    ensures Waits(Step(s).state.processes, p)
  {
    hide Inv, Valid, Step, TrailOf, BeginTick, Spares, ScheduleReady, AllFuller, PassEffect, Downed, AllFailed;
    StepExact(s);
    if Step(s).error == Nil {
      SparedIsAlive(s, p);
      TrailIsValid(s);
      TrailEffects(s);
      TrailActs(s);
      PassKeepsClaims(TrailOf(s).alive);
      UnplacedStays(TrailOf(s).alive, p.id);
    }
  }

  lemma UnplacedStays(s: State, id: Id)
    requires Inv(s, {}, MID) && id in s.processes && s.processes[id].state == Ready
    requires id in ScheduleReady(s).processes && ScheduleReady(s).processes[id].state != Running
    ensures ScheduleReady(s).processes[id] == s.processes[id]
  {
    hide Inv, ScheduleReady, ReadyQueue, FitsSomewhere, AllFuller, SameButPolicy, IsOnline;
    InvParts(s, {}, MID);
    PassIsMaximal(s);
    ReadyQueueOk(s);
    assert Decided(s, ScheduleReady(s), id);
  }

  lemma QueueCommandKeeps(s: State, c: Command, p: Process)
    requires Valid(s) && Waits(s.processes, p) && (c.CmdPause? || c.CmdResume? || c.CmdWait? || c.CmdWake?)
    ensures Waits(Execute(s, c).state.processes, p)
  {
    hide Inv, Valid, Suspend, Requeue, Step, StepLoop, LoadScenario, SameButTables, NodesWithout, KillProcess,
         FailProcess, RegisterNode, RemoveNode, RecoverNode, Heartbeat, SetScheduler, Start, PauseSimulation, Finish,
         Reset, FailNode, ChangeNodeStatus, Submit;
    match c
    case CmdPause(id) => SuspendExact(s, id, Paused, PausedEvent);
    case CmdWait(id) => SuspendExact(s, id, Waiting, WaitingEvent);
    case CmdResume(id) => RequeueExact(s, id, Paused, Resumed);
    case CmdWake(id) => RequeueExact(s, id, Waiting, IOCompleted);
  }

  lemma SparedCommandKeeps(s: State, c: Command, p: Process)
    requires Valid(s) && Waits(s.processes, p) && IsPlain(c) && Spares(s, c, p.id)
    ensures Waits(Execute(s, c).state.processes, p)
  {
    hide Valid, Suspend, Requeue, KillProcess, FailProcess, Submit, FailNodeLocked, Step, StepLoop, LoadScenario,
         RegisterNode, RemoveNode, RecoverNode, Heartbeat, SetScheduler, Start, PauseSimulation, Finish;
    match c
    case CmdPause(_) => QueueCommandKeeps(s, c, p);
    case CmdWait(_) => QueueCommandKeeps(s, c, p);
    case CmdResume(_) => QueueCommandKeeps(s, c, p);
    case CmdWake(_) => QueueCommandKeeps(s, c, p);
    case CmdFailNode(n) => NodeLossKeepsReady(s, n, p);
    case CmdChangeNodeStatus(n, to) =>
      if to == NodeFailed { NodeLossKeepsReady(s, n, p); } else { SameRecords(s, c); }
    case _ => OthersSameWait(s, c, p.id);
  }

  lemma NodeLossKeepsReady(s: State, n: Id, p: Process)
    requires Valid(s) && Waits(s.processes, p)
    ensures Waits(FailNode(s, n).state.processes, p)
  {
    hide Inv, FailNodeLocked;
    FailNodeCommand(s, n);
    if n in s.nodes {
      ListIsRunningOn(s, Rest, n);
    }
  }

  lemma UnservedKeeps(s: State, c: Command, p: Process)
    requires Valid(s) && Waits(s.processes, p) && Spares(s, c, p.id) && !Serves(s, c, p.id)
    ensures Valid(Execute(s, c).state) && Waits(Execute(s, c).state.processes, p)
  {
    hide Valid, Waits, Execute, Serves;
    OrdinaryKeepsValid(s, c);
    if IsPlain(c) {
      SparedCommandKeeps(s, c, p);
    } else {
      StepCommand(s);
      UnservedTickKeeps(s, p);
    }
  }

  lemma {:induction false} UnservedWaits(s: State, p: Process, commands: seq<Command>)
    requires Valid(s) && Waits(s.processes, p)
    requires forall k | 0 <= k < |commands| :: var t := Run(s, commands[..k]);
               Spares(t, commands[k], p.id) && !Serves(t, commands[k], p.id)
    ensures Valid(Run(s, commands))
    ensures forall k | 0 <= k <= |commands| :: Waits(Run(s, commands[..k]).processes, p)
    decreases |commands|
  {
    hide Valid, Waits, Execute, Spares, Serves;
    assert commands[..|commands|] == commands;
    if commands != [] {
      var last := |commands| - 1;
      var front := commands[..last];
      assert forall k | 0 <= k <= |front| :: front[..k] == commands[..k];
      UnservedWaits(s, p, front);
      assert Waits(Run(s, front[..|front|]).processes, p) && front[..|front|] == front;
      assert Spares(Run(s, commands[..last]), commands[last], p.id);
      UnservedKeeps(Run(s, front), commands[last], p);
    }
  }

  lemma SparedAreOrdinary(s: State, p: Id, commands: seq<Command>)
    requires forall k | 0 <= k < |commands| :: Spares(Run(s, commands[..k]), commands[k], p)
    ensures forall c | c in commands :: Ordinary(c)
  {
    hide Run;
    forall c | c in commands ensures Ordinary(c) {
      var k :| 0 <= k < |commands| && commands[k] == c;
      assert Spares(Run(s, commands[..k]), commands[k], p);
    }
  }

  /** Aging keeps its promise to small jobs. Let p wait under Priority-Aware at or after its deadline, and let
      any commands and ticks follow, submissions of any number included, in which p is neither killed nor made
      to fail, some node with room for it stays ONLINE, and everyone asks for at least as much with a priority
      of at most `most`. Once more ticks have succeeded than there was work ahead of p, it has been placed. */
  lemma SmallJobIsServed(s: State, p: Process, host: Id, aging: pos, most: int, commands: seq<Command>)
    requires Valid(s) && Waits(s.processes, p) && Deadline(p, aging, most) <= s.tick
    requires forall k | 0 <= k <= |commands| :: Kept(Run(s, commands[..k]), p, host, aging, most)
    requires forall k | 0 <= k < |commands| :: Spares(Run(s, commands[..k]), commands[k], p.id)
    requires TicksDone(s, commands) > WorkAhead(s.processes, p.id, Deadline(p, aging, most))
    ensures exists k | 0 <= k < |commands| :: Serves(Run(s, commands[..k]), commands[k], p.id)
  {
    hide Valid, Waits, Run, Kept, Spares, Serves, TicksDone, WorkAhead, Deadline, Ordinary;
    if forall k | 0 <= k < |commands| :: !Serves(Run(s, commands[..k]), commands[k], p.id) {
      UnservedWaits(s, p, commands);
      SparedAreOrdinary(s, p.id, commands);
      WaitIsPaidFor(s, p, host, aging, most, commands);
      BurdenIsNonNegative(Run(s, commands), p.id, Deadline(p, aging, most));
    }
  }
}
