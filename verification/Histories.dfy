/** What every run says about single processes, the log, and time. */
module Histories {
  import opened Domain
  import opened Ordering
  import opened Cluster
  import opened Scenarios
  import opened Placement
  import opened EventLog
  import opened Invariants
  import opened Failures
  import opened Scheduling
  import opened Tick
  import opened Atomicity
  import opened Progress
  import opened Runs

  // ---------------------------------------------------------------- the log

  /** In every reachable state, replaying the log gives each process's state, node and restart count,
      the statistics equal the event counts, and the log is numbered and chronological. */
  lemma LogTellsState(s: State)
    requires Reachable(s)
    ensures Replay(s.events).views.Keys == s.processes.Keys
    ensures forall id | id in s.processes ::
      Replay(s.events).views[id] == View(s.processes[id].state, s.processes[id].nodeId, s.processes[id].restartCount)
    ensures s.stats.schedulingDeferred == Count(s.events, Deferred)
    ensures s.stats.nodeFailures == Count(s.events, NodeDown)
    ensures s.stats.reschedulings == Count(s.events, Scheduled) - Count(s.events, Started)
    ensures s.sequence == |s.events| && forall i | 0 <= i < |s.events| :: s.events[i].number == i + 1
    ensures forall i, j | 0 <= i < j < |s.events| :: s.events[i].tick <= s.events[j].tick <= s.tick
  {
    hide Reachable, Inv, Valid, Settled, Logged, Replay, Count, Chronicle;
    ReachableIsSettled(s);
    SettledParts(s);
    InvParts(s, {}, Rest);
    ReplayCounts(s.events);
    LedgerTells(s);
    ChronicleTells(s);
  }

  lemma LedgerTells(s: State)
    requires Logged(s, {})
    ensures var l := Replay(s.events);
      && l.views.Keys == s.processes.Keys
      && (forall id | id in s.processes ::
            l.views[id] == View(s.processes[id].state, s.processes[id].nodeId, s.processes[id].restartCount))
      && s.stats.schedulingDeferred == l.deferred && s.stats.nodeFailures == l.nodeFailures
      && s.stats.reschedulings == l.scheduled - l.started
  {
    hide Replay, Chronicle;
  }

  lemma ChronicleTells(s: State)
    requires Chronicle(s.events, s.sequence, s.tick)
    ensures s.sequence == |s.events| && forall i | 0 <= i < |s.events| :: s.events[i].number == i + 1
    ensures forall i, j | 0 <= i < j < |s.events| :: s.events[i].tick <= s.events[j].tick <= s.tick
  {
  }

  lemma SettledParts(s: State)
    requires Settled(s)
    ensures Valid(s) && Inv(s, {}, Rest) && Calendar(s) && FreshHeartbeats(s)
  {
  }

  // ---------------------------------------------------------------- lifecycle

  /** In every reachable state: restarts stay within the limit, a resting FAILED process cannot restart,
      a finish time is set exactly in terminal states, and no work remains exactly in TERMINATED. */
  lemma LifecycleInOrder(s: State, id: Id)
    requires Reachable(s) && id in s.processes
    ensures var p := s.processes[id];
      && 0 <= p.restartCount <= p.maxRestarts
      && (p.state == Failed ==> !p.CanRestart())
      && (p.finishedAt.Some? <==> p.state.IsTerminal())
      && (p.remainingTicks == 0 <==> p.state == Terminated)
      && (p.state != Terminated ==> 1 <= p.remainingTicks <= p.totalTicks)
      && (p.state == Running <==> p.nodeId != NO_ID)
  {
    hide Reachable, Inv, Valid, Settled;
    ReachableIsSettled(s);
    SettledParts(s);
    HistoryOf(s, {}, Rest, id);
    if s.processes[id].state == Running {
      HostIsUp(s, {}, Rest, id);
    }
  }

  /** Terminal records keep every field. */
  ghost predicate TerminalFrozen(a: map<Id, Process>, b: map<Id, Process>) {
    forall id | id in a && a[id].state.IsTerminal() :: id in b && b[id] == a[id]
  }

  lemma FrozenTransitive(a: map<Id, Process>, b: map<Id, Process>, c: map<Id, Process>)
    requires TerminalFrozen(a, b) && TerminalFrozen(b, c)
    ensures TerminalFrozen(a, c)
  {
  }

  lemma SubmitFreezes(s: State, d: ProcessDefinition)
    ensures TerminalFrozen(s.processes, Submit(s, d).state.processes)
  {
  }

  lemma {:induction false} SubmitAllFreezes(s: State, defs: seq<ProcessDefinition>)
    ensures TerminalFrozen(s.processes, SubmitAll(s, defs).state.processes)
    decreases |defs|
  {
    hide Submit;
    if defs != [] {
      SubmitFreezes(s, defs[0]);
      if Submit(s, defs[0]).error == Nil {
        SubmitAllFreezes(Submit(s, defs[0]).state, defs[1..]);
      }
    }
  }

  lemma LossesFreeze(s: State, phase: Phase, n: Id)
    requires Inv(s, {}, phase) && n in s.nodes
    ensures TerminalFrozen(s.processes, AllFailed(s.processes, Elements(s.nodes[n].running), s.tick))
  {
    hide Logged, RecordsOk;
    assert NodeOk(s.nodes[n], n, s.processes, {});
  }

  lemma FailureFreezes(s: State, phase: Phase, f: FailureDefinition)
    requires Inv(s, {}, phase)
    ensures TerminalFrozen(s.processes, ApplyFailure(s, f).state.processes)
  {
    hide Inv, FailNodeLocked, FailProcessLocked, AllFailed, FailedRecord;
    if f.kind == NodeFailure && f.nodeId in s.nodes {
      FailNodeExact(s, phase, f.nodeId);
      LossesFreeze(s, phase, f.nodeId);
    } else if f.kind == ProcessFailure && f.processId in s.processes {
      FailProcessExact(s, {}, phase, f.processId);
    }
  }

  lemma {:induction false} FailuresFreeze(s: State, fs: seq<FailureDefinition>)
    requires Inv(s, {}, MID)
    ensures TerminalFrozen(s.processes, ApplyFailures(s, fs).state.processes)
    decreases |fs|
  {
    hide Inv, ApplyFailure;
    if fs != [] {
      ApplyFailureExact(s, fs[0]);
      FailureFreezes(s, MID, fs[0]);
      if FailureApplies(s, fs[0]) {
        FailuresFreeze(ApplyFailure(s, fs[0]).state, fs[1..]);
      }
    }
  }

  lemma ActionsFreeze(s: State)
    requires Inv(s, {}, MID)
    ensures TerminalFrozen(s.processes, ApplyScheduled(s).state.processes)
  {
    hide Inv, SubmitAll, ApplyFailures, SortDefinitions;
    var due := DueSubmissions(s, s.tick);
    SubmitAllKeeps(s, SortDefinitions(due));
    SubmitAllFreezes(s, SortDefinitions(due));
    var r := if |due| > 0 then SubmitAll(s, SortDefinitions(due)) else Reply(s, Nil);
    if r.error == Nil {
      var s1 := if |due| > 0 then r.state.(pending := r.state.pending - {s.tick}) else r.state;
      StatusIsFree(r.state, {}, MID, s1);
      FailuresFreeze(s1, DueFailures(s1, s.tick));
    }
  }

  lemma RestOfTickFreezes(s: State, a: State, b: State)
    requires Inv(a, {}, MID) && PassEffect(a, b, ReadyQueue(a))
    requires a.processes == AllFailed(s.processes, RunningOn(s.processes, StaleNow(s)), s.tick)
    ensures TerminalFrozen(s.processes, b.processes)
    ensures TerminalFrozen(b.processes, AllExecuted(b.processes, RunningSet(b), b.tick))
  {
    hide Logged, RecordsOk, FailedRecord, ReadyQueue;
    InvParts(a, {}, MID);
    ReadyQueueOk(a);
    forall id | id in s.processes && s.processes[id].state.IsTerminal() ensures b.processes[id] == s.processes[id] {
      assert a.processes[id] == s.processes[id];
      assert !InQueue(ReadyQueue(a), id);
    }
  }

  lemma TickFreezes(s: State)
    requires Valid(s)
    ensures TerminalFrozen(s.processes, Step(s).state.processes)
  {
    hide Inv, Valid, Step, TrailOf, ApplyScheduled, BeginTick, PassEffect, AllFuller, AllFailed, AllExecuted,
         TerminalFrozen;
    StepExact(s);
    FrozenReflexive(s.processes);
    if Step(s).error == Nil {
      TrailIsValid(s);
      BeginFields(s);
      ActionsFreeze(BeginTick(s));
      TrailActs(s);
      TrailEffects(s);
      var t := TrailOf(s);
      RestOfTickFreezes(t.acted, t.alive, t.scheduled);
      FrozenTransitive(s.processes, t.acted.processes, t.scheduled.processes);
      FrozenTransitive(s.processes, t.scheduled.processes, t.final.processes);
    }
  }

  lemma FrozenReflexive(a: map<Id, Process>)
    ensures TerminalFrozen(a, a)
  {
  }

  lemma {:induction false} LoopFreezes(s: State, count: nat)
    requires Valid(s)
    ensures TerminalFrozen(s.processes, StepLoop(s, count).state.processes)
    decreases count
  {
    hide Valid, Step, TrailOf, TerminalFrozen;
    FrozenReflexive(s.processes);
    if count > 0 {
      TickFreezes(s);
      StepExact(s);
      LoopOnce(s, count);
      LoopFreezes(Step(s).state, count - 1);
      FrozenTransitive(s.processes, Step(s).state.processes, StepLoop(Step(s).state, count - 1).state.processes);
    }
  }

  lemma ReleaseFreezes(s: State, id: Id)
    requires id in s.processes && s.processes[id].state == Running
    ensures TerminalFrozen(s.processes, Release(s, id).state.processes)
    ensures id in Release(s, id).state.processes && Release(s, id).state.processes[id].state == Running
    ensures forall x | x in s.processes && x != id ::
      x in Release(s, id).state.processes && Release(s, id).state.processes[x] == s.processes[x]
  {
  }

  lemma SuspendFreezes(s: State, id: Id, to: ProcessState, kind: EventKind)
    ensures TerminalFrozen(s.processes, Suspend(s, id, to, kind).state.processes)
  {
    hide Release;
    if id in s.processes && s.processes[id].state == Running {
      ReleaseFreezes(s, id);
    }
  }

  lemma RequeueFreezes(s: State, id: Id, from: ProcessState, kind: EventKind)
    requires !from.IsTerminal()
    ensures TerminalFrozen(s.processes, Requeue(s, id, from, kind).state.processes)
  {
    hide TerminalFrozen, Requeue;
    RequeueTable(s, id, from, kind);
    if id in s.processes {
      OneFreezes(s.processes, id, s.processes[id].(state := Ready, lastReadyAt := s.tick));
    }
    NoneFreezes(s.processes);
  }

  lemma RequeueTable(s: State, id: Id, from: ProcessState, kind: EventKind)
    ensures var t := Requeue(s, id, from, kind).state;
      || t.processes == s.processes
      || (id in s.processes && s.processes[id].state == from
          && t.processes == s.processes[id := s.processes[id].(state := Ready, lastReadyAt := s.tick)])
  {
  }

  lemma OneFreezes(a: map<Id, Process>, id: Id, p: Process)
    ensures id in a && !a[id].state.IsTerminal() ==> TerminalFrozen(a, a[id := p])
  {
  }

  lemma NoneFreezes(a: map<Id, Process>)
    ensures TerminalFrozen(a, a)
  {
  }

  lemma KillFreezes(s: State, id: Id)
    ensures TerminalFrozen(s.processes, KillProcess(s, id).state.processes)
  {
    hide Release;
    if id in s.processes && s.processes[id].state == Running {
      ReleaseFreezes(s, id);
    }
  }

  lemma FailureCommandFreezes(s: State, c: Command)
    requires Valid(s) && (c.CmdFailProcess? || c.CmdFailNode? || (c.CmdChangeNodeStatus? && c.to == NodeFailed))
    ensures TerminalFrozen(s.processes, Execute(s, c).state.processes)
  {
    hide Inv, FailNodeLocked, FailProcessLocked, AllFailed, FailedRecord, Step, Steps, Submit, Suspend, Requeue,
         KillProcess, RegisterNode, RemoveNode, RecoverNode, Heartbeat, SetScheduler, Start, PauseSimulation, Reset,
         Finish, LoadScenario;
    if c.CmdFailProcess? {
      if c.id in s.processes { FailProcessExact(s, {}, Rest, c.id); }
    } else if c.id in s.nodes {
      FailNodeExact(s, Rest, c.id);
      LossesFreeze(s, Rest, c.id);
    }
  }

  lemma NodeCommandFreezes(s: State, c: Command)
    requires c.CmdRegisterNode? || c.CmdRemoveNode? || c.CmdRecoverNode? || c.CmdHeartbeat?
             || (c.CmdChangeNodeStatus? && c.to != NodeFailed)
    ensures Execute(s, c).state.processes == s.processes
  {
    hide Step, Steps, Submit, Suspend, Requeue, KillProcess, FailNode, FailNodeLocked, FailProcess,
         SetScheduler, Start, PauseSimulation, Reset, Finish, LoadScenario;
  }

  /** Whatever the transition table allows, TERMINATED, KILLED and resting FAILED are final: no command
      but Reset and LoadScenario changes any field of such a record. */
  lemma TerminalIsFinal(s: State, c: Command)
    requires Valid(s) && !c.CmdReset? && !c.CmdLoadScenario?
    ensures TerminalFrozen(s.processes, Execute(s, c).state.processes)
  {
    hide Valid, TerminalFrozen, Step, StepLoop, Submit, Suspend, Requeue, KillProcess, FailNode, FailNodeLocked,
         FailProcess, RegisterNode, RemoveNode, RecoverNode, Heartbeat, ChangeNodeStatus, SetScheduler, Start,
         PauseSimulation, Reset, Finish, LoadScenario;
    FrozenReflexive(s.processes);
    match c
    case CmdSubmit(d) => SubmitFreezes(s, d);
    case CmdPause(id) => SuspendFreezes(s, id, Paused, PausedEvent);
    case CmdWait(id) => SuspendFreezes(s, id, Waiting, WaitingEvent);
    case CmdResume(id) => RequeueFreezes(s, id, Paused, Resumed);
    case CmdWake(id) => RequeueFreezes(s, id, Waiting, IOCompleted);
    case CmdKill(id) => KillFreezes(s, id);
    case CmdFailProcess(_) => FailureCommandFreezes(s, c);
    case CmdFailNode(_) => FailureCommandFreezes(s, c);
    case CmdChangeNodeStatus(_, to) =>
      if to == NodeFailed { FailureCommandFreezes(s, c); } else { NodeCommandFreezes(s, c); }
    case CmdRegisterNode(_) => NodeCommandFreezes(s, c);
    case CmdRemoveNode(_) => NodeCommandFreezes(s, c);
    case CmdRecoverNode(_) => NodeCommandFreezes(s, c);
    case CmdHeartbeat(_) => NodeCommandFreezes(s, c);
    case CmdSetScheduler(_) => PlainControl(s, c);
    case CmdStart => PlainControl(s, c);
    case CmdPauseSimulation => PlainControl(s, c);
    case CmdFinish(_) => PlainControl(s, c);
    case CmdStep => TickFreezes(s);
    case CmdSteps(n) => if n > 0 { LoopFreezes(s, n); }
  }
}
