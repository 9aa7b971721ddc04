/** The log tells every time in every record: when a process was submitted, first started and finished, since when
    it is in the queue, and how long it has waited there. */
module Clocks {
  import opened Domain
  import opened Ordering
  import opened Schedulers
  import opened Cluster
  import opened Scenarios
  import opened Placement
  import opened Invariants
  import opened Scheduling
  import opened Tick
  import opened Loading
  import opened Runs
  import opened Atomicity

  datatype Clock = Clock(submitted: int, started: Option<int>, finished: Option<int>, ready: int, waited: int)

  // ---------------------------------------------------------------- reading the log

  /** What an event says about the times of its process. */
  function Advanced(c: Clock, kind: EventKind, tick: int): Clock {
    match kind
    case Started => c.(started := Some(tick))
    case Scheduled => c.(waited := c.waited + (tick - c.ready))
    case Resumed => c.(ready := tick)
    case IOCompleted => c.(ready := tick)
    case CompletedEvent => c.(finished := Some(tick))
    case KilledEvent => c.(finished := Some(tick))
    case FailedEvent => c.(finished := Some(tick))
    case Restarted => c.(finished := None, ready := tick)
    case _ => c
  }

  function Noted(clocks: map<Id, Clock>, e: Event): map<Id, Clock> {
    if e.kind == Submitted then clocks[e.process := Clock(e.tick, None, None, e.tick, 0)]
    else if e.process in clocks then clocks[e.process := Advanced(clocks[e.process], e.kind, e.tick)]
    else clocks
  }

  function ReadClocks(events: seq<Event>): map<Id, Clock> {
    if events == [] then map[] else Noted(ReadClocks(events[..|events| - 1]), events[|events| - 1])
  }

  function ClockOf(p: Process): Clock {
    Clock(p.submittedAt, p.startedAt, p.finishedAt, p.lastReadyAt, p.waitingTicks)
  }

  ghost function ClocksOf(processes: map<Id, Process>): map<Id, Clock> {
    map id | id in processes :: ClockOf(processes[id])
  }

  ghost predicate Timed(s: State) {
    ReadClocks(s.events) == ClocksOf(s.processes)
  }

  // ---------------------------------------------------------------- one event

  /** An event that tells nothing about the times of a process. */
  predicate Silent(kind: EventKind) {
    kind != Submitted && kind != Started && kind != Scheduled && kind != Resumed && kind != IOCompleted
    && kind != CompletedEvent && kind != KilledEvent && kind != FailedEvent && kind != Restarted
  }

  lemma Reads(s: State, kind: EventKind, process: Id, node: Id)
    ensures ReadClocks(Emit(s, kind, process, node).events)
         == Noted(ReadClocks(s.events), Event(s.sequence + 1, s.tick, kind, process, node))
  {
    var events := Emit(s, kind, process, node).events;
    assert events[..|events| - 1] == s.events;
  }

  ghost predicate Quietly(a: seq<Event>, b: seq<Event>) {
    a <= b && forall i | |a| <= i < |b| :: Silent(b[i].kind)
  }

  lemma {:induction false} QuietRead(a: seq<Event>, b: seq<Event>)
    requires Quietly(a, b)
    ensures ReadClocks(a) == ReadClocks(b)
    decreases |b|
  {
    if a != b {
      QuietRead(a, b[..|b| - 1]);
    }
  }

  lemma StaysTimed(s: State, t: State)
    requires Timed(s) && Quietly(s.events, t.events) && t.processes == s.processes
    ensures Timed(t)
  {
    hide ReadClocks;
    QuietRead(s.events, t.events);
  }

  /** An event about one process, written together with its record. */
  lemma OneAdvances(s: State, id: Id, p: Process, kind: EventKind, node: Id)
    requires Timed(s) && id in s.processes && kind != Submitted
    requires ClockOf(p) == Advanced(ClockOf(s.processes[id]), kind, s.tick)
    ensures Timed(Emit(s.(processes := s.processes[id := p]), kind, id, node))
  {
    hide Advanced, ReadClocks;
    Reads(s.(processes := s.processes[id := p]), kind, id, node);
  }

  lemma SameClock(s: State, id: Id, p: Process)
    requires Timed(s) && id in s.processes && ClockOf(p) == ClockOf(s.processes[id])
    ensures Timed(s.(processes := s.processes[id := p]))
  {
    hide ReadClocks;
    assert ClocksOf(s.processes[id := p]) == ClocksOf(s.processes);
  }

  // ---------------------------------------------------------------- commands about one process

  lemma SubmitTimed(s: State, d: ProcessDefinition)
    requires Timed(s)
    ensures Timed(Submit(s, d).state)
  {
    hide ReadClocks;
    var t := Submit(s, d).state;
    if Submit(s, d).error == Nil {
      var p := NewProcess(d, s.tick).value.(state := Ready);
      var s1 := WithProcess(s, p);
      var s2 := if s1.status == Completed then s1.(status := Idle, reason := Unfinished) else s1;
      Reads(s2, Submitted, p.id, NO_ID);
      assert ClocksOf(t.processes) == ClocksOf(s.processes)[p.id := ClockOf(p)];
    }
  }

  lemma ReleaseTimed(s: State, id: Id)
    requires Timed(s) && id in s.processes
    ensures var t := Release(s, id).state;
      Timed(t) && id in t.processes && ClockOf(t.processes[id]) == ClockOf(s.processes[id]) && t.tick == s.tick
  {
    hide Timed, Node.Release;
    var p := s.processes[id];
    if Release(s, id).error == Nil {
      var s1 := s.(processes := s.processes[id := p.(nodeId := NO_ID)]);
      SameClock(s, id, p.(nodeId := NO_ID));
      var t := Release(s, id).state;
      StaysTimed(s1, t);
    }
  }

  lemma SuspendTimed(s: State, id: Id, to: ProcessState, kind: EventKind)
    requires Timed(s) && Silent(kind)
    ensures Timed(Suspend(s, id, to, kind).state)
  {
    hide Timed, Release, Silent;
    if id in s.processes && s.processes[id].state == Running {
      ReleaseTimed(s, id);
      var t := Release(s, id).state;
      var t1 := t.(processes := t.processes[id := t.processes[id].(state := to)]);
      SameClock(t, id, t.processes[id].(state := to));
      Appended(t1, kind, id, NO_ID);
      StaysTimed(t1, Emit(t1, kind, id, NO_ID));
    }
  }

  lemma RequeueTimed(s: State, id: Id, from: ProcessState, kind: EventKind)
    requires Timed(s) && (kind == Resumed || kind == IOCompleted)
    ensures Timed(Requeue(s, id, from, kind).state)
  {
    hide Timed;
    if id in s.processes {
      OneAdvances(s, id, s.processes[id].(state := Ready, lastReadyAt := s.tick), kind, NO_ID);
    }
  }

  lemma KillTimed(s: State, id: Id)
    requires Timed(s)
    ensures Timed(KillProcess(s, id).state)
  {
    hide Timed, Release;
    if id in s.processes && !s.processes[id].state.IsTerminal() {
      ReleaseTimed(s, id);
      var t := if s.processes[id].state == Running then Release(s, id).state else s;
      OneAdvances(t, id, t.processes[id].(state := Killed, finishedAt := Some(s.tick)), KilledEvent, NO_ID);
    }
  }

  // ---------------------------------------------------------------- failures

  lemma FailedReplyTimed(s: State, q: Process, id: Id, nodeId: Id)
    requires Timed(s) && id in s.processes && ClockOf(q) == ClockOf(s.processes[id]) && q.state == Failed
    ensures Timed(FailedReply(s, q, id, nodeId).state)
  {
    hide Timed, Emit;
    var ended := q.(finishedAt := Some(s.tick));
    var s1 := Emit(s.(processes := s.processes[id := ended]), FailedEvent, id, nodeId);
    OneAdvances(s, id, ended, FailedEvent, nodeId);
    EmitFrame(s.(processes := s.processes[id := ended]), s.(processes := s.processes[id := q]), FailedEvent, id,
              nodeId);
    if q.CanRestart() {
      var q' := q.(restartCount := q.restartCount + 1, remainingTicks := q.totalTicks,
                   finishedAt := None, state := Ready, lastReadyAt := s.tick);
      OneAdvances(s1, id, q', Restarted, NO_ID);
      assert s.processes[id := ended][id := q'] == s.processes[id := q][id := q'];
    } else {
      assert s.processes[id := ended] == s.processes[id := q][id := ended];
    }
  }

  /** The log does not depend on the tables. */
  lemma EmitFrame(s: State, t: State, kind: EventKind, process: Id, node: Id)
    requires s == t.(processes := s.processes)
    ensures Emit(s, kind, process, node) == Emit(t, kind, process, node).(processes := s.processes)
    ensures Emit(t, kind, process, node).processes == t.processes && Emit(t, kind, process, node).tick == t.tick
  {
  }

  lemma FailProcessTimed(s: State, id: Id)
    requires Timed(s) && id in s.processes
    ensures Timed(FailProcessLocked(s, id).state)
  {
    hide Timed, Release, FailedReply;
    var p := s.processes[id];
    if !p.state.IsTerminal() {
      ReleaseTimed(s, id);
      SameClock(s, id, p.(nodeId := NO_ID));
      var r := if p.state == Running && p.nodeId != NO_ID then
                 if p.nodeId in s.nodes && s.nodes[p.nodeId].status != NodeFailed then Release(s, id)
                 else Reply(s.(processes := s.processes[id := p.(nodeId := NO_ID)]), Nil)
               else Reply(s, Nil);
      FailedReplyTimed(r.state, r.state.processes[id].(state := Failed), id, p.nodeId);
    }
  }

  lemma {:induction false} FailHostedTimed(s: State, ids: seq<Id>)
    requires Timed(s)
    ensures Timed(FailHosted(s, ids).state)
    decreases |ids|
  {
    hide Timed, FailProcessLocked;
    if ids != [] {
      if ids[0] in s.processes {
        SameClock(s, ids[0], s.processes[ids[0]].(nodeId := NO_ID));
        var s1 := s.(processes := s.processes[ids[0] := s.processes[ids[0]].(nodeId := NO_ID)]);
        FailProcessTimed(s1, ids[0]);
        FailHostedTimed(FailProcessLocked(s1, ids[0]).state, ids[1..]);
      } else {
        FailHostedTimed(s, ids[1..]);
      }
    }
  }

  lemma FailNodeTimed(s: State, id: Id)
    requires Timed(s) && id in s.nodes
    ensures Timed(FailNodeLocked(s, id).state)
  {
    hide Timed, FailHosted;
    var n := s.nodes[id];
    if n.status != NodeFailed {
      var marked := MarkNodeFailed(s, n, id);
      StaysTimed(s, marked);
      FailHostedTimed(marked, SortedIds(Elements(n.running)));
    }
  }

  // ---------------------------------------------------------------- the phases of a tick

  lemma {:induction false} SubmitAllTimed(s: State, defs: seq<ProcessDefinition>)
    requires Timed(s)
    ensures Timed(SubmitAll(s, defs).state)
    decreases |defs|
  {
    hide Timed, Submit;
    if defs != [] {
      SubmitTimed(s, defs[0]);
      SubmitAllTimed(Submit(s, defs[0]).state, defs[1..]);
    }
  }

  lemma FailureTimed(s: State, f: FailureDefinition)
    requires Timed(s)
    ensures Timed(ApplyFailure(s, f).state)
  {
    hide Timed, FailNodeLocked, FailProcessLocked;
    if f.kind == NodeFailure && f.nodeId in s.nodes { FailNodeTimed(s, f.nodeId); }
    if f.kind == ProcessFailure && f.processId in s.processes { FailProcessTimed(s, f.processId); }
  }

  lemma {:induction false} FailuresTimed(s: State, fs: seq<FailureDefinition>)
    requires Timed(s)
    ensures Timed(ApplyFailures(s, fs).state)
    decreases |fs|
  {
    hide Timed, ApplyFailure;
    if fs != [] {
      FailureTimed(s, fs[0]);
      FailuresTimed(ApplyFailure(s, fs[0]).state, fs[1..]);
    }
  }

  lemma ActionsTimed(s: State)
    requires Timed(s)
    ensures Timed(ApplyScheduled(s).state)
  {
    hide SubmitAll, ApplyFailures, SortDefinitions, ReadClocks, ClocksOf;
    var due := DueSubmissions(s, s.tick);
    SubmitAllTimed(s, SortDefinitions(due));
    var r := if |due| > 0 then SubmitAll(s, SortDefinitions(due)) else Reply(s, Nil);
    var s1 := if |due| > 0 then r.state.(pending := r.state.pending - {s.tick}) else r.state;
    FailuresTimed(s1, DueFailures(s1, s.tick));
  }

  lemma {:induction false} FailStaleTimed(s: State, ids: seq<Id>)
    requires Timed(s)
    ensures Timed(FailStale(s, ids))
    decreases |ids|
  {
    hide Timed, FailNodeLocked;
    if ids != [] {
      if ids[0] in s.nodes {
        var s1 := Emit(s, HeartbeatMissed, NO_ID, ids[0]);
        StaysTimed(s, s1);
        FailNodeTimed(s1, ids[0]);
        FailStaleTimed(FailNodeLocked(s1, ids[0]).state, ids[1..]);
      } else {
        FailStaleTimed(s, ids[1..]);
      }
    }
  }

  lemma DeferTimed(s: State, policy: Policy, p: Process, node: Id)
    requires Timed(s)
    ensures Timed(Defer(s.(policy := policy), p, node))
  {
    hide Timed;
    var t := Defer(s.(policy := policy), p, node);
    StaysTimed(s, t);
  }

  lemma FirstRead(s: State, id: Id, nodeId: Id, first: bool)
    requires id in ReadClocks(s.events)
    ensures var t := if first then Emit(s, Started, id, nodeId) else s;
      var c := ReadClocks(s.events)[id];
      ReadClocks(t.events) == ReadClocks(s.events)[id := if first then c.(started := Some(s.tick)) else c]
  {
    hide ReadClocks;
    Reads(s, Started, id, nodeId);
  }

  lemma AnnouncedRead(s: State, id: Id, nodeId: Id, first: bool)
    requires id in ReadClocks(s.events)
    ensures var c := ReadClocks(s.events)[id];
      ReadClocks(Announced(s, id, nodeId, first).events) == ReadClocks(s.events)[id :=
        c.(started := if first then Some(s.tick) else c.started, waited := c.waited + (s.tick - c.ready))]
  {
    hide ReadClocks;
    FirstRead(s, id, nodeId, first);
    var s1 := if first then Emit(s, Started, id, nodeId)
              else s.(stats := s.stats.(reschedulings := s.stats.reschedulings + 1));
    Reads(s1, Scheduled, id, nodeId);
    Appended(Emit(s1, Scheduled, id, nodeId), Allocated, id, nodeId);
    QuietRead(Emit(s1, Scheduled, id, nodeId).events, Announced(s, id, nodeId, first).events);
  }

  lemma PlaceTimed(s: State, p: Process, n: Node, nodeId: Id)
    requires Timed(s) && p.id in s.processes && s.processes[p.id] == p
    ensures Timed(Place(s, p, n, nodeId))
    ensures Place(s, p, n, nodeId).processes == s.processes[p.id := PlacedRecord(p, s.tick, nodeId)]
  {
    hide Announced, ReadClocks;
    PlaceFields(s, p, n, nodeId);
    var q := PlacedRecord(p, s.tick, nodeId);
    AnnouncedRead(s.(nodes := s.nodes[nodeId := n], processes := s.processes[p.id := q]),
                  p.id, nodeId, p.startedAt == None);
    assert ClocksOf(s.processes[p.id := q]) == ClocksOf(s.processes)[p.id := ClockOf(q)];
  }

  lemma ScheduleOneTimed(s: State, p: Process)
    requires Timed(s) && p.id in s.processes && s.processes[p.id] == p
    ensures var t := ScheduleOne(s, p);
      && Timed(t) && t.processes.Keys == s.processes.Keys
      && forall id | id in s.processes && id != p.id :: t.processes[id] == s.processes[id]
  {
    hide Timed, Place, Defer, Select, Node.Allocate, Node.Release;
    var (choice, policy) := Select(s.policy, p, Snapshots(s.nodes));
    var s1 := s.(policy := policy);
    DeferTimed(s, policy, p, NO_ID);
    DeferFields(s1, p, NO_ID);
    StaysTimed(s, s1);
    if choice.Some? {
      DeferTimed(s, policy, p, choice.value);
      DeferFields(s1, p, choice.value);
      if choice.value in s.nodes {
        var n := s.nodes[choice.value].Allocate(p).0;
        StaysTimed(s, s1.(nodes := s.nodes[choice.value := n.Release(p).0]));
        PlaceTimed(s1, p, n, choice.value);
      }
    }
  }

  lemma {:induction false} ScheduleAllTimed(s: State, queue: seq<Process>)
    requires Timed(s) && QueueOk(s, queue)
    ensures Timed(ScheduleAll(s, queue))
    decreases |queue|
  {
    hide Timed, ScheduleOne;
    if queue != [] {
      ScheduleOneTimed(s, queue[0]);
      assert QueueOk(ScheduleOne(s, queue[0]), queue[1..]);
      ScheduleAllTimed(ScheduleOne(s, queue[0]), queue[1..]);
    }
  }

  lemma ExecuteOneTimed(s: State, id: Id)
    requires Timed(s)
    ensures Timed(ExecuteOne(s, id))
  {
    hide Timed, Release;
    if id in s.processes {
      var p := s.processes[id];
      var s1 := s.(processes := s.processes[id := p.(remainingTicks := p.remainingTicks - 1)]);
      SameClock(s, id, p.(remainingTicks := p.remainingTicks - 1));
      ReleaseTimed(s1, id);
      var t := Release(s1, id).state;
      OneAdvances(t, id, t.processes[id].(state := Terminated, finishedAt := Some(s.tick)), CompletedEvent, NO_ID);
    }
  }

  lemma {:induction false} ExecuteAllTimed(s: State, ids: seq<Id>)
    requires Timed(s)
    ensures Timed(ExecuteAll(s, ids))
    decreases |ids|
  {
    hide Timed, ExecuteOne;
    if ids != [] {
      ExecuteOneTimed(s, ids[0]);
      ExecuteAllTimed(ExecuteOne(s, ids[0]), ids[1..]);
    }
  }

  lemma BeginTimed(s: State)
    requires Timed(s)
    ensures Timed(BeginTick(s))
  {
    hide Timed;
    StaysTimed(s, BeginTick(s));
  }

  lemma SampleTimed(s: State)
    requires Timed(s)
    ensures Timed(SampleUtilization(s))
  {
    hide Timed, Utilization;
    StaysTimed(s, SampleUtilization(s));
  }

  lemma StopTimed(s: State)
    requires Timed(s)
    ensures Timed(StopIfDone(s))
  {
    hide Timed, AllProcessesTerminal, BlockReason;
    StaysTimed(s, StopIfDone(s));
  }

  lemma DetectTimed(s: State)
    requires Timed(s)
    ensures Timed(DetectMissedHeartbeats(s))
  {
    hide Timed, FailStale, StaleNodes;
    FailStaleTimed(s, SortedIds(StaleNodes(s)));
  }

  lemma PassTimed(s: State)
    requires Timed(s) && Inv(s, {}, MID)
    ensures Timed(ScheduleReady(s))
  {
    hide Timed, ScheduleAll, ReadyQueue, RecordsOk, Placed;
    ReadyQueueOk(s);
    ScheduleAllTimed(s, ReadyQueue(s));
  }

  lemma ExecuteTimed(s: State)
    requires Timed(s)
    ensures Timed(ExecuteRunning(s))
  {
    hide Timed, ExecuteAll, RunningSet;
    ExecuteAllTimed(s, SortedIds(RunningSet(s)));
  }

  lemma StepTimed(s: State)
    requires Valid(s) && Timed(s)
    ensures Timed(Step(s).state)
  {
    hide Timed, Inv, Valid, BeginTick, ApplyScheduled, DetectMissedHeartbeats, ScheduleReady, SampleUtilization,
         ExecuteRunning, StopIfDone, Step;
    StepExact(s);
    if Step(s).error == Nil {
      TrailIsValid(s);
      var t := TrailOf(s);
      BeginTimed(s);
      ActionsTimed(BeginTick(s));
      DetectTimed(t.acted);
      PassTimed(t.alive);
      SampleTimed(t.scheduled);
      ExecuteTimed(t.sampled);
      StopTimed(t.executed);
    }
  }

  lemma {:induction false} LoopTimed(s: State, count: nat)
    requires Valid(s) && Timed(s)
    ensures Timed(StepLoop(s, count).state)
    decreases count
  {
    hide Timed, Valid, Step, TrailOf;
    if count > 0 {
      StepTimed(s);
      StepExact(s);
      LoopOnce(s, count);
      LoopTimed(Step(s).state, count - 1);
    }
  }

  // ---------------------------------------------------------------- loading

  lemma {:induction false} EmitNodesTimes(s: State, ids: seq<Id>)
    ensures Quietly(s.events, EmitNodes(s, ids).events)
    ensures EmitNodes(s, ids).tick == s.tick && EmitNodes(s, ids).processes == s.processes
    decreases |ids|
  {
    if ids != [] {
      EmitNodesTimes(Emit(s, NodeRegistered, NO_ID, ids[0]), ids[1..]);
    }
  }

  ghost function NewClocks(ids: set<Id>, tick: int): map<Id, Clock> {
    map id | id in ids :: Clock(tick, None, None, tick, 0)
  }

  lemma {:induction false} EmitProcessesTimes(s: State, ids: seq<Id>)
    ensures ReadClocks(EmitProcesses(s, ids).events) == ReadClocks(s.events) + NewClocks(Elements(ids), s.tick)
    ensures EmitProcesses(s, ids).processes == s.processes
    decreases |ids|
  {
    hide ReadClocks, NewClocks, Noted;
    if ids == [] {
      NoneMore(ReadClocks(s.events), s.tick);
    } else {
      SubmittedRead(s, ids[0]);
      EmitProcessesTimes(Emit(s, Submitted, ids[0], NO_ID), ids[1..]);
      OneMore(ReadClocks(s.events), ids, s.tick);
    }
  }

  lemma SubmittedRead(s: State, id: Id)
    ensures ReadClocks(Emit(s, Submitted, id, NO_ID).events)
         == ReadClocks(s.events)[id := Clock(s.tick, None, None, s.tick, 0)]
  {
    hide ReadClocks;
    Reads(s, Submitted, id, NO_ID);
  }

  lemma NoneMore(clocks: map<Id, Clock>, tick: int)
    ensures clocks + NewClocks(Elements([]), tick) == clocks
  {
  }

  lemma OneMore(clocks: map<Id, Clock>, ids: seq<Id>, tick: int)
    requires ids != []
    ensures clocks[ids[0] := Clock(tick, None, None, tick, 0)] + NewClocks(Elements(ids[1..]), tick)
         == clocks + NewClocks(Elements(ids), tick)
  {
    assert forall x | x in ids :: x == ids[0] || x in ids[1..];
  }

  lemma InstallTimed(s: State, p: Prepared)
    requires forall id | id in p.processes :: ClockOf(p.processes[id]) == Clock(0, None, None, 0, 0)
    ensures Timed(Install(s, p))
  {
    hide EmitNodes, EmitProcesses, ReadClocks, ClocksOf, Quietly;
    var s1 := EmitNodes(Bare(s, p), SortedIds(p.nodes.Keys));
    EmitNodesTimes(Bare(s, p), SortedIds(p.nodes.Keys));
    QuietRead([], s1.events);
    NothingRead();
    EmitProcessesTimes(s1, SortedIds(p.processes.Keys));
    NewTable(p.processes);
    var s2 := EmitProcesses(s1, SortedIds(p.processes.Keys));
    assert Timed(s2);
    Appended(s2, ScenarioLoaded, NO_ID, NO_ID);
    StaysTimed(s2, Emit(s2, ScenarioLoaded, NO_ID, NO_ID));
  }

  lemma NothingRead()
    ensures ReadClocks([]) == map[]
  {
  }

  lemma Appended(s: State, kind: EventKind, process: Id, node: Id)
    requires Silent(kind)
    ensures Quietly(s.events, Emit(s, kind, process, node).events)
  {
  }

  lemma NewTable(processes: map<Id, Process>)
    requires forall id | id in processes :: ClockOf(processes[id]) == Clock(0, None, None, 0, 0)
    ensures map[] + NewClocks(Elements(SortedIds(processes.Keys)), 0) == ClocksOf(processes)
  {
  }

  lemma NewRecordClock(p: Process, id: Id)
    requires NewProcessOk(p, id)
    ensures ClockOf(p) == Clock(0, None, None, 0, 0)
  {
    assert RecordOk(p, false, 0, 0);
  }

  lemma LoadTimed(s: State, sc: Scenario)
    requires Timed(s)
    ensures Timed(LoadScenario(s, sc).state)
  {
    hide Timed, Install, Prepare, NewProcessOk, NewNodeOk;
    PrepareOk(sc, s.maxNodes, s.maxProcesses);
    var p := Prepare(sc, s.maxNodes, s.maxProcesses).0;
    if p.Some? {
      forall id | id in p.value.processes ensures ClockOf(p.value.processes[id]) == Clock(0, None, None, 0, 0) {
        NewRecordClock(p.value.processes[id], id);
      }
      InstallTimed(s, p.value);
    }
  }

  // ---------------------------------------------------------------- every command, every run

  lemma RegisterTimed(s: State, d: NodeDefinition)
    requires Timed(s)
    ensures Timed(RegisterNode(s, d).state)
  {
    hide Timed;
    StaysTimed(s, RegisterNode(s, d).state);
  }

  lemma RemoveTimed(s: State, id: Id)
    requires Timed(s)
    ensures Timed(RemoveNode(s, id).state)
  {
    hide Timed;
    StaysTimed(s, RemoveNode(s, id).state);
  }

  lemma RecoverTimed(s: State, id: Id)
    requires Timed(s)
    ensures Timed(RecoverNode(s, id).state) && Timed(Heartbeat(s, id).state)
  {
    hide Timed;
    StaysTimed(s, RecoverNode(s, id).state);
    StaysTimed(s, Heartbeat(s, id).state);
  }

  lemma StatusTimed(s: State, id: Id, to: NodeStatus)
    requires Timed(s)
    ensures Timed(ChangeNodeStatus(s, id, to).state)
  {
    hide Timed, FailNodeLocked;
    if to != NodeFailed {
      StaysTimed(s, ChangeNodeStatus(s, id, to).state);
    } else if id in s.nodes {
      FailNodeTimed(s, id);
    }
  }

  lemma ControlTimed(s: State, c: Command)
    requires Timed(s) && (c.CmdSetScheduler? || c.CmdStart? || c.CmdPauseSimulation? || c.CmdFinish?)
    ensures Timed(Execute(s, c).state)
  {
    hide Timed, Step, Steps, Submit, Suspend, Requeue, KillProcess, FailNode, FailProcess, RegisterNode, RemoveNode,
         RecoverNode, Heartbeat, ChangeNodeStatus, Reset, LoadScenario;
    StaysTimed(s, Execute(s, c).state);
  }

  lemma ResetTimed(s: State)
    ensures Timed(Reset(s))
  {
    var t := Fresh(s.policy, s.heartbeatTimeout, s.maxNodes, s.maxProcesses);
    StaysTimed(t, Reset(s));
  }

  lemma CommandTimed(s: State, c: Command)
    requires Valid(s) && Timed(s)
    ensures Timed(Execute(s, c).state)
  {
    hide Timed, Valid, Step, StepLoop, Submit, Suspend, Requeue, KillProcess, RegisterNode, RemoveNode, RecoverNode,
         Heartbeat, ChangeNodeStatus, FailNodeLocked, FailProcessLocked, SetScheduler, Start, PauseSimulation, Finish,
         Reset, LoadScenario;
    match c
    case CmdSubmit(d) => SubmitTimed(s, d);
    case CmdPause(id) => SuspendTimed(s, id, Paused, PausedEvent);
    case CmdWait(id) => SuspendTimed(s, id, Waiting, WaitingEvent);
    case CmdResume(id) => RequeueTimed(s, id, Paused, Resumed);
    case CmdWake(id) => RequeueTimed(s, id, Waiting, IOCompleted);
    case CmdKill(id) => KillTimed(s, id);
    case CmdFailProcess(id) => if id in s.processes { FailProcessTimed(s, id); }
    case CmdFailNode(id) => if id in s.nodes { FailNodeTimed(s, id); }
    case CmdChangeNodeStatus(id, to) => StatusTimed(s, id, to);
    case CmdStep => StepTimed(s);
    case CmdSteps(n) => if n > 0 { LoopTimed(s, n); }
    case CmdLoadScenario(sc) => LoadTimed(s, sc);
    case CmdRegisterNode(d) => RegisterTimed(s, d);
    case CmdRemoveNode(id) => RemoveTimed(s, id);
    case CmdRecoverNode(id) => RecoverTimed(s, id);
    case CmdHeartbeat(id) => RecoverTimed(s, id);
    case CmdReset => ResetTimed(s);
    case _ => ControlTimed(s, c);
  }

  lemma {:induction false} RunTimed(s: State, commands: seq<Command>)
    requires Settled(s) && Timed(s)
    ensures Timed(Run(s, commands))
    decreases |commands|
  {
    hide Timed, Valid, FreshHeartbeats, Execute;
    if commands != [] {
      var front, last := commands[..|commands| - 1], commands[|commands| - 1];
      RunTimed(s, front);
      RunIsSettled(s, front);
      CommandTimed(Run(s, front), last);
    }
  }

  lemma NewTimed(config: Config)
    ensures NewController(config).0.Some? ==> Timed(NewController(config).0.value)
  {
  }

  /** In every reachable state the log alone gives every process its times: when it was submitted, its first start,
      its end if it is over and not restarted, since when it is in the queue, and how long it waited there before
      each placement. */
  lemma LogTellsTimes(s: State)
    requires Reachable(s)
    ensures ReadClocks(s.events).Keys == s.processes.Keys
    ensures forall id | id in s.processes ::
      var p := s.processes[id];
      ReadClocks(s.events)[id] == Clock(p.submittedAt, p.startedAt, p.finishedAt, p.lastReadyAt, p.waitingTicks)
  {
    hide Run, Settled, ReadClocks, NewController;
    var config, commands :| NewController(config).0.Some? && s == Run(NewController(config).0.value, commands);
    NewIsSettled(config);
    NewTimed(config);
    RunTimed(NewController(config).0.value, commands);
  }
}
