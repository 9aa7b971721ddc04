/** The other phases of a tick, and the tick as a whole, on a valid state. */
module Tick {
  import opened Domain
  import opened Ordering
  import opened Cluster
  import opened Placement
  import opened EventLog
  import opened Invariants
  import opened Failures
  import opened Scheduling

  // ---------------------------------------------------------------- the clock

  lemma RecordAges(p: Process, interrupted: bool, tick: int)
    requires RecordOk(p, interrupted, tick, 0)
    ensures RecordOk(p, interrupted, tick + 1, 1)
  {
  }

  lemma ClockAdvances(s: State)
    requires Valid(s)
    ensures Inv(s.(tick := s.tick + 1), {}, MID)
  {
    hide RecordOk, Placed;
    forall p | p in s.processes
      ensures RecordOk(s.processes[p], p in Replay(s.events).interrupted, s.tick + 1, Lag(MID, p))
    {
      RecordAges(s.processes[p], p in Replay(s.events).interrupted, s.tick);
    }
  }

  lemma StatusIsFree(s: State, orphans: set<Id>, phase: Phase, t: State)
    requires Inv(s, orphans, phase)
    requires t == s.(status := t.status, reason := t.reason, pending := t.pending, failures := t.failures)
    ensures Inv(t, orphans, phase)
  {
  }

  lemma BeginTickKeeps(s: State)
    requires Valid(s)
    ensures Inv(BeginTick(s), {}, MID)
  {
    hide Inv;
    if s.status != SimRunning {
      var s1 := s.(status := SimRunning);
      StatusIsFree(s, {}, Rest, s1);
      EmitNeutral(s1, {}, Rest, SimulationStarted, NO_ID);
      ClockAdvances(Emit(s1, SimulationStarted, NO_ID, NO_ID));
    } else {
      ClockAdvances(s);
    }
  }

  // ---------------------------------------------------------------- scheduled actions

  lemma SubmitFrame(s: State, def: ProcessDefinition)
    ensures var t := Submit(s, def).state;
      && SameSetting(s, t) && t.nodes == s.nodes
      && (Submit(s, def).error != Nil ==> t == s)
      && (s.status != Completed ==> t.status == s.status)
  {
  }

  lemma {:induction false} SubmitAllKeeps(s: State, defs: seq<ProcessDefinition>)
    requires Inv(s, {}, MID)
    ensures var r := SubmitAll(s, defs);
      && Inv(r.state, {}, MID) && SameSetting(s, r.state) && r.state.nodes == s.nodes
      && (s.status != Completed ==> r.state.status == s.status)
    decreases |defs|
  {
    hide Inv, Submit;
    if defs != [] {
      SubmitFrame(s, defs[0]);
      if Submit(s, defs[0]).error == Nil {
        SubmitKeeps(s, MID, defs[0]);
        SubmitAllKeeps(Submit(s, defs[0]).state, defs[1..]);
      }
    }
  }

  /** A scheduled failure is applicable unless its target is missing or already down. */
  ghost predicate FailureApplies(s: State, f: FailureDefinition) {
    match f.kind
    case NodeFailure => f.nodeId in s.nodes && s.nodes[f.nodeId].status != NodeFailed
    case ProcessFailure => f.processId in s.processes && !s.processes[f.processId].state.IsTerminal()
    case UnsupportedFailure => true
  }

  lemma ApplyFailureExact(s: State, f: FailureDefinition)
    requires Inv(s, {}, MID)
    ensures var r := ApplyFailure(s, f);
      && Inv(r.state, {}, MID) && SameSetting(s, r.state) && r.state.status == s.status
      && (r.error == Nil <==> FailureApplies(s, f))
      && (r.error != Nil ==> r.state == s)
  {
    hide Inv, FailNodeLocked, FailProcessLocked;
    if f.kind == NodeFailure && f.nodeId in s.nodes {
      FailNodeExact(s, MID, f.nodeId);
    } else if f.kind == ProcessFailure && f.processId in s.processes {
      FailProcessExact(s, {}, MID, f.processId);
      assert {} - {f.processId} == {};
    }
  }

  lemma {:induction false} ApplyFailuresKeeps(s: State, fs: seq<FailureDefinition>)
    requires Inv(s, {}, MID)
    ensures var r := ApplyFailures(s, fs);
      Inv(r.state, {}, MID) && SameSetting(s, r.state) && r.state.status == s.status
    decreases |fs|
  {
    hide Inv, ApplyFailure;
    if fs != [] {
      ApplyFailureExact(s, fs[0]);
      if FailureApplies(s, fs[0]) {
        ApplyFailuresKeeps(ApplyFailure(s, fs[0]).state, fs[1..]);
      }
    }
  }

  /** Fields a tick's scheduled actions leave alone, success or not. */
  ghost predicate SameButActions(a: State, b: State) {
    SameSetting(a, b.(pending := a.pending, failures := a.failures))
  }

  lemma ApplyScheduledKeeps(s: State)
    requires Inv(s, {}, MID)
    ensures var r := ApplyScheduled(s);
      && Inv(r.state, {}, MID) && SameButActions(s, r.state)
      && (s.status != Completed ==> r.state.status == s.status)
      && (r.error == Nil ==> r.state.failures == s.failures - {s.tick}
                             && r.state.pending
                                == if DueSubmissions(s, s.tick) != [] then s.pending - {s.tick} else s.pending)
  {
    hide Inv, SubmitAll, ApplyFailures, SortDefinitions;
    var due := DueSubmissions(s, s.tick);
    SubmitAllKeeps(s, SortDefinitions(due));
    var r := if |due| > 0 then SubmitAll(s, SortDefinitions(due)) else Reply(s, Nil);
    if r.error == Nil {
      var s1 := if |due| > 0 then r.state.(pending := r.state.pending - {s.tick}) else r.state;
      StatusIsFree(r.state, {}, MID, s1);
      ApplyFailuresKeeps(s1, DueFailures(s1, s.tick));
      var s2 := ApplyFailures(s1, DueFailures(s1, s.tick)).state;
      StatusIsFree(s2, {}, MID, s2.(failures := s2.failures - {s.tick}));
    }
  }

  // ---------------------------------------------------------------- what actions do to the process table

  lemma SubmitOnlyAdds(s: State, d: ProcessDefinition)
    ensures s.processes.Keys <= Submit(s, d).state.processes.Keys
  {
  }

  lemma {:induction false} SubmitAllOnlyAdds(s: State, defs: seq<ProcessDefinition>)
    ensures s.processes.Keys <= SubmitAll(s, defs).state.processes.Keys
    decreases |defs|
  {
    hide Submit;
    if defs != [] {
      SubmitOnlyAdds(s, defs[0]);
      if Submit(s, defs[0]).error == Nil {
        SubmitAllOnlyAdds(Submit(s, defs[0]).state, defs[1..]);
      }
    }
  }

  lemma FailureOnlyChanges(s: State, f: FailureDefinition)
    requires Inv(s, {}, MID)
    ensures ApplyFailure(s, f).state.processes.Keys == s.processes.Keys
  {
    hide Inv, FailNodeLocked, FailProcessLocked;
    ApplyFailureExact(s, f);
    if f.kind == NodeFailure && f.nodeId in s.nodes {
      FailNodeExact(s, MID, f.nodeId);
    } else if f.kind == ProcessFailure && f.processId in s.processes {
      FailProcessExact(s, {}, MID, f.processId);
    }
  }

  lemma {:induction false} FailuresOnlyChange(s: State, fs: seq<FailureDefinition>)
    requires Inv(s, {}, MID)
    ensures ApplyFailures(s, fs).state.processes.Keys == s.processes.Keys
    decreases |fs|
  {
    hide Inv, ApplyFailure;
    if fs != [] {
      ApplyFailureExact(s, fs[0]);
      FailureOnlyChanges(s, fs[0]);
      if FailureApplies(s, fs[0]) {
        FailuresOnlyChange(ApplyFailure(s, fs[0]).state, fs[1..]);
      }
    }
  }

  lemma ActionsOnlyAdd(s: State)
    requires Inv(s, {}, MID)
    ensures s.processes.Keys <= ApplyScheduled(s).state.processes.Keys
  {
    hide Inv, SubmitAll, ApplyFailures, SortDefinitions;
    var due := DueSubmissions(s, s.tick);
    SubmitAllKeeps(s, SortDefinitions(due));
    SubmitAllOnlyAdds(s, SortDefinitions(due));
    var r := if |due| > 0 then SubmitAll(s, SortDefinitions(due)) else Reply(s, Nil);
    if r.error == Nil {
      var s1 := if |due| > 0 then r.state.(pending := r.state.pending - {s.tick}) else r.state;
      StatusIsFree(r.state, {}, MID, s1);
      FailuresOnlyChange(s1, DueFailures(s1, s.tick));
    }
  }

  // ---------------------------------------------------------------- heartbeats

  ghost function Downed(nodes: map<Id, Node>, stale: set<Id>): map<Id, Node> {
    map n | n in nodes :: if n in stale then DownNode(nodes[n]) else nodes[n]
  }

  ghost function RunningOn(processes: map<Id, Process>, hosts: set<Id>): set<Id> {
    set p | p in processes && processes[p].state == Running && processes[p].nodeId in hosts
  }

  lemma ListIsRunningOn(s: State, phase: Phase, n: Id)
    requires Inv(s, {}, phase) && n in s.nodes
    ensures Elements(s.nodes[n].running) == RunningOn(s.processes, {n})
  {
    hide Logged, RecordsOk;
    assert NodeOk(s.nodes[n], n, s.processes, {});
    forall p | p in RunningOn(s.processes, {n}) ensures p in s.nodes[n].running {
      assert PlacedOk(s.processes[p], p, s.nodes, {});
    }
  }

  /** Failing an already failed or moved process never happens: the losses of two nodes are disjoint. */
  lemma LossesCompose(processes: map<Id, Process>, n: Id, rest: set<Id>, tick: int)
    requires n !in rest && n != NO_ID && NO_ID !in rest
    ensures var first := AllFailed(processes, RunningOn(processes, {n}), tick);
      AllFailed(first, RunningOn(first, rest), tick) == AllFailed(processes, RunningOn(processes, rest + {n}), tick)
  {
    var first := AllFailed(processes, RunningOn(processes, {n}), tick);
    assert forall p | p in processes ::
      p in RunningOn(first, rest) <==> p in RunningOn(processes, rest);
  }

  lemma {:induction false} FailStaleExact(s: State, ids: seq<Id>)
    requires Inv(s, {}, MID) && NoDuplicates(ids)
    requires forall i | 0 <= i < |ids| :: ids[i] in s.nodes && s.nodes[ids[i]].status == Online
    ensures var t := FailStale(s, ids);
      && Inv(t, {}, MID) && SameSetting(s, t) && t.status == s.status
      && t.nodes == Downed(s.nodes, Elements(ids))
      && t.processes == AllFailed(s.processes, RunningOn(s.processes, Elements(ids)), s.tick)
    decreases |ids|
  {
    hide Inv, FailNodeLocked, FailedRecord;
    if ids == [] {
      assert Elements(ids) == {};
      assert Downed(s.nodes, {}) == s.nodes;
      assert AllFailed(s.processes, RunningOn(s.processes, {}), s.tick) == s.processes;
    } else {
      var id, rest := ids[0], ids[1..];
      EmitNeutral(s, {}, MID, HeartbeatMissed, id);
      var s1 := Emit(s, HeartbeatMissed, NO_ID, id);
      FailNodeExact(s1, MID, id);
      var s2 := FailNodeLocked(s1, id).state;
      HeadAndRest(ids);
      FailStaleExact(s2, rest);
      ListIsRunningOn(s, MID, id);
      assert Downed(s2.nodes, Elements(rest)) == Downed(s.nodes, Elements(ids));
      NodeIdsAreNamed(s, MID);
      assert forall i | 0 <= i < |ids| :: ids[i] in s.nodes && ids[i] != NO_ID;
      assert forall i | 0 <= i < |rest| :: rest[i] == ids[i+1] && rest[i] != NO_ID;
      assert NO_ID !in Elements(rest) && id !in Elements(rest);
      LossesCompose(s.processes, id, Elements(rest), s.tick);
    }
  }

  lemma NodeIdsAreNamed(s: State, phase: Phase)
    requires Inv(s, {}, phase)
    ensures forall n | n in s.nodes :: n != NO_ID
  {
    assert forall n | n in s.nodes :: NodeOk(s.nodes[n], n, s.processes, {});
  }

  ghost function StaleNow(s: State): set<Id> {
    if s.heartbeatTimeout <= 0 then {} else StaleNodes(s)
  }

  /** Heartbeat detection downs exactly the stale nodes and fails exactly what ran on them. */
  lemma DetectExact(s: State)
    requires Inv(s, {}, MID)
    ensures var t := DetectMissedHeartbeats(s);
      && Inv(t, {}, MID) && SameSetting(s, t) && t.status == s.status
      && t.nodes == Downed(s.nodes, StaleNow(s))
      && t.processes == AllFailed(s.processes, RunningOn(s.processes, StaleNow(s)), s.tick)
  {
    hide Inv, FailStale;
    if s.heartbeatTimeout > 0 {
      var ids := SortedIds(StaleNodes(s));
      assert forall i | 0 <= i < |ids| :: ids[i] in ids && ids[i] in StaleNodes(s);
      FailStaleExact(s, ids);
    } else {
      assert Downed(s.nodes, {}) == s.nodes;
      assert AllFailed(s.processes, RunningOn(s.processes, {}), s.tick) == s.processes;
    }
  }

  // ---------------------------------------------------------------- sampling

  lemma SampleKeeps(s: State)
    requires Inv(s, {}, MID)
    ensures var t := SampleUtilization(s);
      Inv(t, {}, MID) && t == s.(stats := t.stats)
  {
  }

  // ---------------------------------------------------------------- execution

  function ExecutedRecord(p: Process, tick: int): Process {
    if p.remainingTicks - 1 > 0 then p.(remainingTicks := p.remainingTicks - 1)
    else p.(remainingTicks := p.remainingTicks - 1, nodeId := NO_ID, state := Terminated, finishedAt := Some(tick))
  }

  lemma ExecutedRecordOk(p: Process, interrupted: bool, tick: int)
    requires RecordOk(p, interrupted, tick, 1) && p.state == Running
    ensures RecordOk(ExecutedRecord(p, tick), interrupted, tick, 0)
    ensures ExecutedRecord(p, tick).state == Terminated ==> RecordOk(ExecutedRecord(p, tick), interrupted, tick, 1)
  {
  }

  lemma RecordsWorked(processes: map<Id, Process>, interrupted: set<Id>, tick: int, done: set<Id>, p: Process)
    requires RecordsOk(processes, interrupted, tick, Mid(done))
    requires RecordOk(p, p.id in interrupted, tick, 0)
    ensures RecordsOk(processes[p.id := p], interrupted, tick, Mid(done + {p.id}))
  {
  }

  lemma WorkedOn(s: State, done: set<Id>, id: Id)
    requires Inv(s, {}, Mid(done)) && id in s.processes
    requires s.processes[id].state == Running && id !in done && s.processes[id].remainingTicks - 1 > 0
    ensures ExecuteOne(s, id) == s.(processes := s.processes[id := ExecutedRecord(s.processes[id], s.tick)])
    ensures Inv(ExecuteOne(s, id), {}, Mid(done + {id}))
  {
    hide Placed, RecordOk, Chronicle, Replay, Record;
    HistoryOf(s, {}, Mid(done), id);
    var p := ExecutedRecord(s.processes[id], s.tick);
    ExecutedRecordOk(s.processes[id], id in Replay(s.events).interrupted, s.tick);
    PlacedTouch(s.nodes, s.processes, {}, p);
    ViewTouch(s.processes, {}, p);
    RecordsWorked(s.processes, Replay(s.events).interrupted, s.tick, done, p);
  }

  /** A finishing process is taken off its node, then recorded as TERMINATED. */
  ghost function Completion(s: State, id: Id): State
    requires id in s.processes && s.processes[id].nodeId in s.nodes
  {
    var s1 := Unhosted(s, id);
    Emit(s1.(processes := s1.processes[id := ExecutedRecord(s.processes[id], s.tick)]), CompletedEvent, id, NO_ID)
  }

  lemma CompletionForm(s: State, id: Id)
    requires id in s.processes && s.processes[id].nodeId in s.nodes && s.processes[id].state == Running
    requires s.nodes[s.processes[id].nodeId].Release(s.processes[id]).1 == Nil
    requires s.processes[id].remainingTicks - 1 <= 0
    ensures ExecuteOne(s, id) == Completion(s, id)
    ensures Completion(s, id).processes == s.processes[id := ExecutedRecord(s.processes[id], s.tick)]
  {
    var p := s.processes[id];
    var worked := p.(remainingTicks := p.remainingTicks - 1);
    var final := ExecutedRecord(p, s.tick);
    assert s.processes[id := worked][id := worked.(nodeId := NO_ID)][id := final] == s.processes[id := final];
    assert s.processes[id := p.(nodeId := NO_ID)][id := final] == s.processes[id := final];
    assert s.nodes[p.nodeId].Release(worked) == s.nodes[p.nodeId].Release(p);
  }

  lemma PhaseAdvances(s: State, done: set<Id>, id: Id)
    requires Inv(s, {}, Mid(done)) && id in s.processes && s.processes[id].state != Running
    ensures Inv(s, {}, Mid(done + {id}))
  {
    hide Placed, Logged;
  }

  lemma Completes(s: State, done: set<Id>, id: Id)
    requires Inv(s, {}, Mid(done)) && id in s.processes
    requires s.processes[id].state == Running && id !in done && s.processes[id].remainingTicks - 1 <= 0
    ensures s.processes[id].nodeId in s.nodes
    ensures ExecuteOne(s, id) == Completion(s, id)
    ensures Completion(s, id).processes == s.processes[id := ExecutedRecord(s.processes[id], s.tick)]
    ensures Inv(Completion(s, id), {}, Mid(done + {id}))
  {
    hide Inv, Placed, RecordOk, ExecuteOne, Emit;
    InvParts(s, {}, Mid(done));
    ReleaseExact(s, {}, Mid(done), id);
    HistoryOf(s, {}, Mid(done), id);
    ReleaseSucceeds(s, {}, Mid(done), id);
    CompletionForm(s, id);
    var s1 := Unhosted(s, id);
    UnhostedFields(s, id);
    HistoryOf(s1, {} + {id}, Mid(done), id);
    var p := ExecutedRecord(s.processes[id], s.tick);
    ExecutedRecordOk(s.processes[id], id in Replay(s.events).interrupted, s.tick);
    Leave(s1, {} + {id}, Mid(done), p, CompletedEvent, NO_ID);
    assert {} + {id} - {id} == {};
    PhaseAdvances(Completion(s, id), done, id);
  }

  lemma ReleaseSucceeds(s: State, orphans: set<Id>, phase: Phase, id: Id)
    requires Inv(s, orphans, phase) && id in s.processes && s.processes[id].state == Running && id !in orphans
    ensures s.processes[id].nodeId in s.nodes
    ensures s.nodes[s.processes[id].nodeId].Release(s.processes[id]).1 == Nil
  {
    PlacedRelease(s.nodes, s.processes, orphans, id);
  }

  lemma UnhostedFields(s: State, id: Id)
    requires id in s.processes && s.processes[id].nodeId in s.nodes && Chronicle(s.events, s.sequence, s.tick)
    ensures var s1 := Unhosted(s, id);
      && s1.processes == s.processes[id := s.processes[id].(nodeId := NO_ID)] && SameSetting(s, s1)
      && Replay(s1.events).interrupted == Replay(s.events).interrupted
  {
    Emitted(s, Released, id, s.processes[id].nodeId);
    assert Unhosted(s, id).events == Emit(s, Released, id, s.processes[id].nodeId).events;
  }

  lemma NodeShrinks(nodes: map<Id, Node>, n: Id, p: Process)
    requires n in nodes && 0 < p.cpuRequest && 0 < p.memoryRequest
    ensures AllFuller(nodes[n := nodes[n].Release(p).0], nodes)
  {
  }

  lemma ExecuteOneExact(s: State, done: set<Id>, id: Id)
    requires Inv(s, {}, Mid(done)) && id in s.processes && s.processes[id].state == Running && id !in done
    ensures var t := ExecuteOne(s, id);
      && Inv(t, {}, Mid(done + {id})) && SameSetting(s, t) && t.status == s.status
      && t.processes == s.processes[id := ExecutedRecord(s.processes[id], s.tick)]
      && AllFuller(t.nodes, s.nodes)
  {
    hide Inv, ExecuteOne, ExecutedRecord;
    if s.processes[id].remainingTicks - 1 > 0 {
      WorkedOn(s, done, id);
    } else {
      Completes(s, done, id);
      HistoryOf(s, {}, Mid(done), id);
      NodeShrinks(s.nodes, s.processes[id].nodeId, s.processes[id]);
    }
  }

  ghost function AllExecuted(processes: map<Id, Process>, ids: set<Id>, tick: int): map<Id, Process> {
    map id | id in processes :: if id in ids then ExecutedRecord(processes[id], tick) else processes[id]
  }

  lemma {:induction false} ExecuteAllExact(s: State, done: set<Id>, ids: seq<Id>)
    requires Inv(s, {}, Mid(done)) && NoDuplicates(ids)
    requires forall i | 0 <= i < |ids| ::
      ids[i] in s.processes && s.processes[ids[i]].state == Running && ids[i] !in done
    ensures var t := ExecuteAll(s, ids);
      && Inv(t, {}, Mid(done + Elements(ids))) && SameSetting(s, t) && t.status == s.status
      && t.processes == AllExecuted(s.processes, Elements(ids), s.tick)
      && AllFuller(t.nodes, s.nodes)
      && (ids == [] ==> t == s)
    decreases |ids|
  {
    hide Inv, ExecuteOne, ExecutedRecord;
    if ids == [] {
      assert Elements(ids) == {};
      assert done + {} == done;
      assert AllExecuted(s.processes, {}, s.tick) == s.processes;
    } else {
      var id, rest := ids[0], ids[1..];
      ExecuteOneExact(s, done, id);
      var s1 := ExecuteOne(s, id);
      HeadAndRest(ids);
      assert forall i | 0 <= i < |rest| :: rest[i] == ids[i+1] && rest[i] != id;
      ExecuteAllExact(s1, done + {id}, rest);
      assert done + {id} + Elements(rest) == done + Elements(ids);
      assert AllExecuted(s1.processes, Elements(rest), s.tick) == AllExecuted(s.processes, Elements(ids), s.tick);
    }
  }

  lemma AllWorked(s: State, done: set<Id>)
    requires Inv(s, {}, Mid(done))
    requires forall id | id in s.processes && s.processes[id].state == Running :: id in done
    ensures Valid(s)
  {
    hide Placed, Logged;
  }

  /** Execution works on exactly the RUNNING processes, one tick each. */
  lemma ExecuteExact(s: State)
    requires Inv(s, {}, MID)
    ensures var t := ExecuteRunning(s);
      && Valid(t) && SameSetting(s, t) && t.status == s.status
      && t.processes == AllExecuted(s.processes, RunningSet(s), s.tick)
      && AllFuller(t.nodes, s.nodes)
      && (RunningSet(s) == {} ==> t == s)
  {
    hide Inv, ExecuteAll, Valid;
    var ids := SortedIds(RunningSet(s));
    assert forall i | 0 <= i < |ids| :: ids[i] in ids && ids[i] in RunningSet(s);
    ExecuteAllExact(s, {}, ids);
    assert {} + Elements(ids) == RunningSet(s);
    AllWorked(ExecuteRunning(s), RunningSet(s));
  }

  // ---------------------------------------------------------------- the tick

  lemma StopKeeps(s: State)
    requires Valid(s)
    ensures var t := StopIfDone(s);
      && Valid(t) && SameSetting(s, t) && t.nodes == s.nodes && t.processes == s.processes
      && (t == s || t.status == Completed)
  {
    hide Valid, AllProcessesTerminal, BlockReason;
    FinishKeeps(s, AllTerminal);
    FinishKeeps(s, MaxTicksReached);
    FinishKeeps(s, BlockReason(s));
  }

  lemma FinishKeeps(s: State, reason: FinishReason)
    requires Valid(s)
    ensures Valid(FinishLocked(s, reason))
  {
    var t := s.(status := Completed, reason := reason);
    StatusIsFree(s, {}, Rest, t);
    EmitNeutral(t, {}, Rest, SimulationFinished, NO_ID);
  }

  /** The states a successful tick passes through. */
  datatype Trail = Trail(acted: State, alive: State, scheduled: State, sampled: State, executed: State, final: State)

  ghost function TrailOf(s: State): Trail {
    var acted := ApplyScheduled(BeginTick(s)).state;
    var alive := DetectMissedHeartbeats(acted);
    var scheduled := ScheduleReady(alive);
    var sampled := SampleUtilization(scheduled);
    var executed := ExecuteRunning(sampled);
    Trail(acted, alive, scheduled, sampled, executed, StopIfDone(executed))
  }

  lemma TrailIsValid(s: State)
    requires Valid(s)
    ensures var t := TrailOf(s);
      && Inv(BeginTick(s), {}, MID) && Inv(t.acted, {}, MID) && Inv(t.alive, {}, MID) && Inv(t.scheduled, {}, MID)
      && Inv(t.sampled, {}, MID) && Valid(t.executed) && Valid(t.final)
  {
    hide Inv, Valid, ApplyScheduled, DetectMissedHeartbeats, ScheduleReady, SampleUtilization, ExecuteRunning,
         StopIfDone;
    BeginTickKeeps(s);
    ApplyScheduledKeeps(BeginTick(s));
    var t := TrailOf(s);
    DetectExact(t.acted);
    PassIsMaximal(t.alive);
    SampleKeeps(t.scheduled);
    ExecuteExact(t.sampled);
    StopKeeps(t.executed);
  }

  lemma InvariantCheckPasses(s: State)
    requires Valid(s)
    ensures InvariantsHold(s.nodes, s.processes)
  {
    PlacedPassesCheck(s.nodes, s.processes);
  }

  /** A tick from a valid state fails only when the simulation is over or a scheduled action does not
      apply; it then changes nothing at all, the Round Robin cursor included. The runtime check never fails. */
  lemma StepExact(s: State)
    requires Valid(s)
    ensures var r := Step(s);
      && Valid(r.state)
      && (r.error == Nil <==> s.status != Completed && ApplyScheduled(BeginTick(s)).error == Nil)
      && (r.error != Nil ==> r.state == s)
      && (r.error == Nil ==> r.state == TrailOf(s).final)
  {
    hide Inv, Valid, ApplyScheduled, DetectMissedHeartbeats, ScheduleReady, SampleUtilization, ExecuteRunning,
         StopIfDone, InvariantsHold;
    TrailIsValid(s);
    ApplyScheduledKeeps(BeginTick(s));
    InvariantCheckPasses(TrailOf(s).final);
    assert BeginTick(s).policy == s.policy;
  }

  /** What each phase of a tick does to nodes and processes. */
  lemma TrailEffects(s: State)
    requires Valid(s)
    ensures var t := TrailOf(s);
      var b := BeginTick(s);
      && b == s.(tick := s.tick + 1, status := SimRunning, events := b.events, sequence := b.sequence)
      && SameButActions(b, t.acted)
      && SameSetting(t.acted, t.alive)
      && t.alive.nodes == Downed(t.acted.nodes, StaleNow(t.acted))
      && t.alive.processes
          == AllFailed(t.acted.processes, RunningOn(t.acted.processes, StaleNow(t.acted)), t.acted.tick)
      && PassEffect(t.alive, t.scheduled, ReadyQueue(t.alive))
      && t.sampled == t.scheduled.(stats := t.sampled.stats)
      && SameSetting(t.sampled, t.executed)
      && t.executed.processes == AllExecuted(t.scheduled.processes, RunningSet(t.scheduled), t.scheduled.tick)
      && AllFuller(t.executed.nodes, t.scheduled.nodes)
      && (RunningSet(t.scheduled) == {} ==> t.executed.nodes == t.scheduled.nodes)
      && SameSetting(t.executed, t.final)
      && t.final.nodes == t.executed.nodes && t.final.processes == t.executed.processes
      && t.executed.status == SimRunning
  {
    hide Inv, Valid, ApplyScheduled, DetectMissedHeartbeats, ScheduleReady, ExecuteRunning, StopIfDone,
         PassEffect, AllFuller;
    TrailIsValid(s);
    var t := TrailOf(s);
    ApplyScheduledKeeps(BeginTick(s));
    DetectExact(t.acted);
    PassIsMaximal(t.alive);
    PassSetting(t.alive);
    ExecuteExact(t.sampled);
    StopKeeps(t.executed);
  }

  lemma PassSetting(s: State)
    requires PassEffect(s, ScheduleReady(s), ReadyQueue(s))
    ensures SameButPolicy(s, ScheduleReady(s))
  {
  }
}
