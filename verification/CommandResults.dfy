/** Each public command of the controller in full: the error it returns, the tables it leaves, and what it
    writes to the log. */
module CommandResults {
  import opened Domain
  import opened Ordering
  import opened Schedulers
  import opened Cluster
  import opened Scenarios
  import opened Validation
  import opened Placement
  import opened EventLog
  import opened Invariants
  import opened Failures
  import opened Commands

  // ---------------------------------------------------------------- what the log gains

  datatype Entry = Entry(kind: EventKind, process: Id, node: Id)

  /** The log has gained these events, numbered on from the last one and stamped with the tick. */
  ghost predicate Gains(s: State, t: State, entries: seq<Entry>) {
    && t.sequence == s.sequence + |entries|
    && |t.events| == |s.events| + |entries| && s.events <= t.events
    && forall i | 0 <= i < |entries| ::
         t.events[|s.events| + i]
           == Event(s.sequence + 1 + i, s.tick, entries[i].kind, entries[i].process, entries[i].node)
  }

  lemma EmitGains(s: State, kind: EventKind, process: Id, node: Id)
    ensures Gains(s, Emit(s, kind, process, node), [Entry(kind, process, node)])
  {
  }

  lemma GainsNothing(s: State)
    ensures Gains(s, s, [])
  {
  }

  lemma GainsCompose(s: State, t: State, u: State, a: seq<Entry>, b: seq<Entry>)
    requires Gains(s, t, a) && Gains(t, u, b) && t.tick == s.tick
    ensures Gains(s, u, a + b)
  {
    forall i | 0 <= i < |a + b|
      ensures u.events[|s.events| + i]
           == Event(s.sequence + 1 + i, s.tick, (a + b)[i].kind, (a + b)[i].process, (a + b)[i].node)
    {
      if i < |a| {
        assert u.events[|s.events| + i] == t.events[|s.events| + i];
      } else {
        assert u.events[|t.events| + (i - |a|)] == u.events[|s.events| + i];
      }
    }
  }

  /** Only log and number of events count. */
  lemma GainsDependsOn(s: State, s': State, t: State, t': State, entries: seq<Entry>)
    requires Gains(s, t, entries) && s'.events == s.events && s'.sequence == s.sequence && s'.tick == s.tick
    requires t'.events == t.events && t'.sequence == t.sequence
    ensures Gains(s', t', entries)
  {
  }

  lemma EmitTwice(s: State, a: Entry, b: Entry)
    ensures Gains(s, Emit(Emit(s, a.kind, a.process, a.node), b.kind, b.process, b.node), [a, b])
  {
    var t := Emit(s, a.kind, a.process, a.node);
    EmitGains(s, a.kind, a.process, a.node);
    EmitGains(t, b.kind, b.process, b.node);
    GainsCompose(s, t, Emit(t, b.kind, b.process, b.node), [a], [b]);
    assert [a] + [b] == [a, b];
  }

  // ---------------------------------------------------------------- the life of a process

  /** What can become of a process: it is admitted, scheduled, paused or put in waiting and taken back, sent back
      to the queue, completed, failed, or killed; and a failed attempt may be followed by another one. */
  const PROCESS_MOVES: set<(ProcessState, ProcessState)> :=
    {(New, Ready), (Ready, Running), (Running, Ready), (Running, Waiting), (Running, Paused), (Waiting, Ready),
     (Paused, Ready), (Running, Terminated), (Ready, Failed), (Running, Failed), (Waiting, Failed), (Paused, Failed),
     (Ready, Killed), (Running, Killed), (Waiting, Killed), (Paused, Killed), (Failed, Ready)}

  lemma ProcessMoves(from: ProcessState, to: ProcessState)
    ensures from.CanBecome(to) <==> (from, to) in PROCESS_MOVES
    ensures from.IsTerminal() <==> from in {Terminated, Failed, Killed}
  {
  }

  // ---------------------------------------------------------------- pause, wait, resume, wake

  /** A RUNNING process leaves its node for another state; anything else is refused. */
  ghost predicate Suspended(s: State, r: Reply, id: Id, to: ProcessState, kind: EventKind) {
    && r.error == (if id !in s.processes then ProcessNotFound
                   else if s.processes[id].state != Running then InvalidStateTransition else Nil)
    && (r.error != Nil ==> r.state == s)
    && (r.error == Nil ==>
          && SameButTables(s, r.state)
          && r.state.processes == s.processes[id := s.processes[id].(state := to, nodeId := NO_ID)]
          && r.state.nodes == NodesWithout(s.nodes, s.processes[id])
          && Gains(s, r.state, [Entry(Released, id, s.processes[id].nodeId), Entry(kind, id, NO_ID)]))
  }

  /** A process in this state is READY as of now; anything else is refused. */
  ghost predicate Requeued(s: State, r: Reply, id: Id, from: ProcessState, kind: EventKind) {
    && r.error == (if id !in s.processes then ProcessNotFound
                   else if s.processes[id].state != from then InvalidStateTransition else Nil)
    && (r.error != Nil ==> r.state == s)
    && (r.error == Nil ==>
          && SameButTables(s, r.state)
          && r.state.processes == s.processes[id := s.processes[id].(state := Ready, lastReadyAt := s.tick)]
          && r.state.nodes == s.nodes
          && Gains(s, r.state, [Entry(kind, id, NO_ID)]))
  }

  lemma SuspendResult(s: State, id: Id, to: ProcessState, kind: EventKind)
    requires Valid(s)
    requires (to == Paused && kind == PausedEvent) || (to == Waiting && kind == WaitingEvent)
    ensures Suspended(s, Suspend(s, id, to, kind), id, to, kind)
  {
    hide Inv, Replay, Release, Unloaded, Node.Release, Gains;
    SuspendExact(s, id, to, kind);
    if id in s.processes && s.processes[id].state == Running {
      ReleaseExact(s, {}, Rest, id);
      SuspendLog(s, id, to, kind);
    }
  }

  lemma SuspendLog(s: State, id: Id, to: ProcessState, kind: EventKind)
    requires id in s.processes && s.processes[id].state == Running && s.processes[id].nodeId in s.nodes
    requires Release(s, id) == Reply(Unhosted(s, id), Nil)
    requires to == Paused || to == Waiting
    ensures Gains(s, Suspend(s, id, to, kind).state,
                  [Entry(Released, id, s.processes[id].nodeId), Entry(kind, id, NO_ID)])
  {
    hide Gains, Release;
    var released, entered := Entry(Released, id, s.processes[id].nodeId), Entry(kind, id, NO_ID);
    var t := Suspend(s, id, to, kind).state;
    EmitTwice(s, released, entered);
    var e := Emit(Emit(s, Released, id, s.processes[id].nodeId), kind, id, NO_ID);
    assert t.events == e.events && t.sequence == e.sequence;
    GainsDependsOn(s, s, e, t, [released, entered]);
  }

  lemma RequeueResult(s: State, id: Id, from: ProcessState, kind: EventKind)
    requires Valid(s)
    requires (from == Paused && kind == Resumed) || (from == Waiting && kind == IOCompleted)
    ensures Requeued(s, Requeue(s, id, from, kind), id, from, kind)
  {
    hide Inv, Replay, Gains;
    RequeueExact(s, id, from, kind);
    if id in s.processes && s.processes[id].state == from {
      var t := Requeue(s, id, from, kind).state;
      EmitGains(s, kind, id, NO_ID);
      GainsDependsOn(s, s, Emit(s, kind, id, NO_ID), t, [Entry(kind, id, NO_ID)]);
    }
  }

  /** Pausing takes a RUNNING process off its node and leaves it PAUSED. */
  lemma PauseResult(s: State, id: Id)
    requires Valid(s)
    ensures Suspended(s, Execute(s, CmdPause(id)), id, Paused, PausedEvent)
  {
    hide Valid, Suspend, Suspended;
    SuspendResult(s, id, Paused, PausedEvent);
  }

  /** Waiting takes a RUNNING process off its node and leaves it WAITING. */
  lemma WaitResult(s: State, id: Id)
    requires Valid(s)
    ensures Suspended(s, Execute(s, CmdWait(id)), id, Waiting, WaitingEvent)
  {
    hide Valid, Suspend, Suspended;
    SuspendResult(s, id, Waiting, WaitingEvent);
  }

  /** Resuming puts a PAUSED process back into the queue. */
  lemma ResumeResult(s: State, id: Id)
    requires Valid(s)
    ensures Requeued(s, Execute(s, CmdResume(id)), id, Paused, Resumed)
  {
    hide Valid, Requeue, Requeued;
    RequeueResult(s, id, Paused, Resumed);
  }

  /** Waking puts a WAITING process back into the queue. */
  lemma WakeResult(s: State, id: Id)
    requires Valid(s)
    ensures Requeued(s, Execute(s, CmdWake(id)), id, Waiting, IOCompleted)
  {
    hide Valid, Requeue, Requeued;
    RequeueResult(s, id, Waiting, IOCompleted);
  }

  /** What leaves the queue on its way through a pause or a wait comes back as it was, READY as of now. */
  ghost predicate BackInQueue(s: State, t: State, id: Id)
    requires id in s.processes
  {
    t.processes == s.processes[id := s.processes[id].(state := Ready, nodeId := NO_ID, lastReadyAt := s.tick)]
    && t.nodes == NodesWithout(s.nodes, s.processes[id]) && SameButTables(s, t)
  }

  /** A paused process can be resumed, and not woken; and then it is back in the queue. */
  lemma PauseAndResume(s: State, id: Id)
    requires Valid(s) && Execute(s, CmdPause(id)).error == Nil
    ensures id in s.processes
    ensures var t := Execute(s, CmdPause(id)).state;
      && Execute(t, CmdWake(id)) == Reply(t, InvalidStateTransition)
      && Execute(t, CmdResume(id)).error == Nil && BackInQueue(s, Execute(t, CmdResume(id)).state, id)
  {
    hide Execute, Gains, NodesWithout, Valid;
    PauseKeepsValid(s, id);
    PauseResult(s, id);
    var t := Execute(s, CmdPause(id)).state;
    WakeResult(t, id);
    ResumeResult(t, id);
    TwiceSet(s.processes, id, t.processes[id], t.processes[id].(state := Ready, lastReadyAt := s.tick));
  }

  /** A waiting process can be woken, and not resumed; and then it is back in the queue. */
  lemma WaitAndWake(s: State, id: Id)
    requires Valid(s) && Execute(s, CmdWait(id)).error == Nil
    ensures id in s.processes
    ensures var t := Execute(s, CmdWait(id)).state;
      && Execute(t, CmdResume(id)) == Reply(t, InvalidStateTransition)
      && Execute(t, CmdWake(id)).error == Nil && BackInQueue(s, Execute(t, CmdWake(id)).state, id)
  {
    hide Execute, Gains, NodesWithout, Valid;
    PauseKeepsValid(s, id);
    WaitResult(s, id);
    var t := Execute(s, CmdWait(id)).state;
    WakeResult(t, id);
    ResumeResult(t, id);
    TwiceSet(s.processes, id, t.processes[id], t.processes[id].(state := Ready, lastReadyAt := s.tick));
  }

  lemma TwiceSet(processes: map<Id, Process>, id: Id, p: Process, q: Process)
    ensures processes[id := p][id := q] == processes[id := q]
  {
  }

  lemma PauseKeepsValid(s: State, id: Id)
    requires Valid(s)
    ensures Valid(Execute(s, CmdPause(id)).state) && Valid(Execute(s, CmdWait(id)).state)
  {
    hide Valid, Suspend;
    SuspendExact(s, id, Paused, PausedEvent);
    SuspendExact(s, id, Waiting, WaitingEvent);
  }

  // ---------------------------------------------------------------- kill, failure, submission

  /** A process that is over: it has ended by itself, by a failure, or by a kill. */
  predicate Over(p: Process) {
    p.state in {Terminated, Failed, Killed}
  }

  function ReleasedFirst(p: Process): seq<Entry> {
    if p.state == Running then [Entry(Released, p.id, p.nodeId)] else []
  }

  /** The state in which a process that ran is off its node. */
  ghost function Detached(s: State, id: Id): State
    requires id in s.processes
  {
    if s.processes[id].state == Running && s.processes[id].nodeId in s.nodes then Unhosted(s, id) else s
  }

  lemma DetachedGains(s: State, phase: Phase, id: Id)
    requires Inv(s, {}, phase) && id in s.processes
    ensures Gains(s, Detached(s, id), ReleasedFirst(s.processes[id])) && Detached(s, id).tick == s.tick
    ensures id in Detached(s, id).processes && SameButTables(s, Detached(s, id))
  {
    hide Placed, Logged, RecordsOk, RecordOk, Gains, Node.Release;
    HistoryOf(s, {}, phase, id);
    var p := s.processes[id];
    GainsNothing(s);
    if p.state == Running {
      HostIsUp(s, {}, phase, id);
      EmitGains(s, Released, id, p.nodeId);
      GainsDependsOn(s, s, Emit(s, Released, id, p.nodeId), Unhosted(s, id), ReleasedFirst(p));
    }
  }

  /** A kill ends any process that is not over, at once. */
  ghost predicate KilledNow(s: State, r: Reply, id: Id) {
    && r.error == (if id !in s.processes then ProcessNotFound
                   else if Over(s.processes[id]) then InvalidStateTransition else Nil)
    && (r.error != Nil ==> r.state == s)
    && (r.error == Nil ==>
          && SameButTables(s, r.state)
          && r.state.processes
               == s.processes[id := s.processes[id].(state := Killed, nodeId := NO_ID, finishedAt := Some(s.tick))]
          && r.state.nodes == NodesWithout(s.nodes, s.processes[id])
          && Gains(s, r.state, ReleasedFirst(s.processes[id]) + [Entry(KilledEvent, id, NO_ID)]))
  }

  lemma KillLog(s: State, id: Id)
    requires Valid(s) && id in s.processes && !Over(s.processes[id])
    ensures Gains(s, KillProcess(s, id).state, ReleasedFirst(s.processes[id]) + [Entry(KilledEvent, id, NO_ID)])
  {
    hide Placed, Logged, RecordsOk, RecordOk, Gains, Release, Replay;
    HistoryOf(s, {}, Rest, id);
    if s.processes[id].state == Running {
      ReleaseExact(s, {}, Rest, id);
    }
    DetachedGains(s, Rest, id);
    var t := Detached(s, id);
    var e := Emit(t, KilledEvent, id, NO_ID);
    EmitGains(t, KilledEvent, id, NO_ID);
    GainsCompose(s, t, e, ReleasedFirst(s.processes[id]), [Entry(KilledEvent, id, NO_ID)]);
    GainsDependsOn(s, s, e, KillProcess(s, id).state, ReleasedFirst(s.processes[id]) + [Entry(KilledEvent, id, NO_ID)]);
  }

  lemma KillResult(s: State, id: Id)
    requires Valid(s)
    ensures KilledNow(s, Execute(s, CmdKill(id)), id)
  {
    hide Inv, Gains, NodesWithout, SameButTables;
    KillExact(s, id);
    KillErrors(s, id);
    if id in s.processes && !Over(s.processes[id]) {
      KillLog(s, id);
    }
  }

  lemma KillErrors(s: State, id: Id)
    requires Valid(s)
    ensures id !in s.processes ==> KillProcess(s, id).error == ProcessNotFound
    ensures id in s.processes && Over(s.processes[id]) ==> KillProcess(s, id).error == InvalidStateTransition
  {
    hide Inv, Release;
  }

  /** A failed attempt starts again from the beginning, if the process has a restart left, and else is final. */
  function AfterAttempt(p: Process, tick: int): Process {
    if p.restartPolicy == OnFailure && p.restartCount < p.maxRestarts then
      p.(state := Ready, nodeId := NO_ID, restartCount := p.restartCount + 1, remainingTicks := p.totalTicks,
         lastReadyAt := tick, finishedAt := None)
    else p.(state := Failed, nodeId := NO_ID, finishedAt := Some(tick))
  }

  /** What the log says of a failure: the attempt has failed, and perhaps a new one is made. */
  function AttemptEntries(p: Process, node: Id): seq<Entry> {
    [Entry(FailedEvent, p.id, node)]
    + if p.restartPolicy == OnFailure && p.restartCount < p.maxRestarts then [Entry(Restarted, p.id, NO_ID)] else []
  }

  ghost predicate FailedNow(s: State, r: Reply, id: Id) {
    && r.error == (if id !in s.processes then ProcessNotFound
                   else if Over(s.processes[id]) then InvalidStateTransition else Nil)
    && (r.error != Nil ==> r.state == s)
    && (r.error == Nil ==>
          && SameButTables(s, r.state)
          && r.state.processes == s.processes[id := AfterAttempt(s.processes[id], s.tick)]
          && r.state.nodes == NodesWithout(s.nodes, s.processes[id])
          && Gains(s, r.state,
                   ReleasedFirst(s.processes[id]) + AttemptEntries(s.processes[id], s.processes[id].nodeId)))
  }

  lemma AttemptGains(s: State, id: Id, node: Id)
    requires id in s.processes && s.processes[id].id == id
    ensures Gains(s, AfterFailure(s, id, node), AttemptEntries(s.processes[id], node))
  {
    hide Gains;
    var p, failed := s.processes[id], Entry(FailedEvent, id, node);
    var t := AfterFailure(s, id, node);
    if p.CanRestart() {
      var e := Emit(Emit(s, FailedEvent, id, node), Restarted, id, NO_ID);
      EmitTwice(s, failed, Entry(Restarted, id, NO_ID));
      assert AttemptEntries(p, node) == [failed, Entry(Restarted, id, NO_ID)];
      GainsDependsOn(s, s, e, t, AttemptEntries(p, node));
    } else {
      EmitGains(s, FailedEvent, id, node);
      assert AttemptEntries(p, node) == [failed];
      GainsDependsOn(s, s, Emit(s, FailedEvent, id, node), t, AttemptEntries(p, node));
    }
  }

  lemma FailureLog(s: State, phase: Phase, id: Id)
    requires Inv(s, {}, phase) && id in s.processes && !Over(s.processes[id])
    ensures Gains(s, FailProcessLocked(s, id).state,
                  ReleasedFirst(s.processes[id]) + AttemptEntries(s.processes[id], s.processes[id].nodeId))
  {
    hide Placed, Logged, RecordsOk, RecordOk, Gains, Release, Replay, FailProcessLocked, AfterFailure, AttemptEntries;
    HistoryOf(s, {}, phase, id);
    FailProcessForm(s, {}, phase, id);
    DetachedGains(s, phase, id);
    var t, p := Detached(s, id), s.processes[id];
    assert t == OffNode(s, {}, id);
    SameAttempt(p, t.processes[id], p.nodeId);
    AttemptGains(t, id, p.nodeId);
    GainsCompose(s, t, AfterFailure(t, id, p.nodeId), ReleasedFirst(p), AttemptEntries(p, p.nodeId));
  }

  lemma SameAttempt(p: Process, q: Process, node: Id)
    requires q.id == p.id && q.restartPolicy == p.restartPolicy && q.restartCount == p.restartCount
    requires q.maxRestarts == p.maxRestarts
    ensures AttemptEntries(p, node) == AttemptEntries(q, node)
  {
  }

  lemma FailProcessResult(s: State, id: Id)
    requires Valid(s)
    ensures FailedNow(s, Execute(s, CmdFailProcess(id)), id)
  {
    hide Inv, Gains, NodesWithout, SameButTables, FailProcessLocked;
    FailProcessCommand(s, id);
    if id in s.processes {
      FailProcessExact(s, {}, Rest, id);
      if !Over(s.processes[id]) {
        FailureLog(s, Rest, id);
      }
    }
  }

  /** A new process enters under its own name: READY, with all its work ahead. */
  ghost predicate SubmittedNow(s: State, r: Reply, d: ProcessDefinition) {
    && r.error == (if |s.processes| >= s.maxProcesses || !ProcessWellFormed(d) then InvalidInput
                   else if d.id in s.processes then DuplicateProcess else Nil)
    && (r.error != Nil ==> r.state == s)
    && (r.error == Nil ==>
          && d.id in r.state.processes && JustSubmitted(r.state.processes[d.id], d, s.tick)
          && r.state.processes == s.processes[d.id := r.state.processes[d.id]]
          && SameButTables(s, r.state.(status := s.status, reason := s.reason)) && r.state.nodes == s.nodes
          && (if s.status == Completed then r.state.status == Idle && r.state.reason == Unfinished
              else r.state.status == s.status && r.state.reason == s.reason)
          && Gains(s, r.state, [Entry(Submitted, d.id, NO_ID)]))
  }

  lemma SubmitErrors(s: State, d: ProcessDefinition)
    ensures Submit(s, d).error == (if |s.processes| >= s.maxProcesses || !ProcessWellFormed(d) then InvalidInput
                                   else if d.id in s.processes then DuplicateProcess else Nil)
  {
  }

  lemma SubmitLog(s: State, d: ProcessDefinition)
    requires Submit(s, d).error == Nil
    ensures Gains(s, Submit(s, d).state, [Entry(Submitted, d.id, NO_ID)])
  {
    hide Gains;
    EmitGains(s, Submitted, d.id, NO_ID);
    GainsDependsOn(s, s, Emit(s, Submitted, d.id, NO_ID), Submit(s, d).state, [Entry(Submitted, d.id, NO_ID)]);
  }

  lemma SubmitResult(s: State, d: ProcessDefinition)
    requires Valid(s)
    ensures SubmittedNow(s, Execute(s, CmdSubmit(d)), d)
  {
    hide Inv, Gains, SameButTables, Submit, JustSubmitted;
    SubmitExact(s, d);
    SubmitErrors(s, d);
    if Submit(s, d).error == Nil {
      SubmitLog(s, d);
    }
  }

  // ---------------------------------------------------------------- nodes

  /** What the log says of the processes a failed node had, in the order of their names; they have no node by then. */
  function LossEntries(processes: map<Id, Process>, ids: seq<Id>): seq<Entry> {
    if ids == [] then []
    else
      (if ids[0] in processes then AttemptEntries(processes[ids[0]], NO_ID) else [])
      + LossEntries(processes, ids[1..])
  }

  lemma {:induction false} LossEntriesFrame(a: map<Id, Process>, b: map<Id, Process>, ids: seq<Id>)
    requires forall i | 0 <= i < |ids| :: ids[i] in a && ids[i] in b && a[ids[i]] == b[ids[i]]
    ensures LossEntries(a, ids) == LossEntries(b, ids)
  {
    if ids != [] {
      LossEntriesFrame(a, b, ids[1..]);
    }
  }

  lemma {:induction false} HostedLog(s: State, phase: Phase, ids: seq<Id>)
    requires Inv(s, Elements(ids), phase) && NoDuplicates(ids)
    ensures Gains(s, FailHosted(s, ids).state, LossEntries(s.processes, ids))
    decreases |ids|
  {
    hide Placed, Logged, RecordsOk, RecordOk, FailProcessLocked, FailedRecord, Gains, AttemptEntries, PlacedOk;
    if ids == [] {
      GainsNothing(s);
    } else {
      var id, rest, orphans := ids[0], ids[1..], Elements(ids);
      assert id in orphans;
      ClearKeeps(s, orphans, phase, id);
      HistoryOf(s, orphans, phase, id);
      var s1 := s.(processes := s.processes[id := s.processes[id].(nodeId := NO_ID)]);
      FailProcessExact(s1, orphans, phase, id);
      var s2 := FailProcessLocked(s1, id).state;
      HeadAndRest(ids);
      HostedLog(s2, phase, rest);
      OrphanLog(s1, orphans, phase, id);
      SameAttempt(s.processes[id], s1.processes[id], NO_ID);
      GainsDependsOn(s1, s, s2, s2, AttemptEntries(s.processes[id], NO_ID));
      OrphansKnown(s, orphans, phase);
      assert forall i | 0 <= i < |rest| :: rest[i] == ids[i + 1] && rest[i] != id && rest[i] in orphans;
      LossEntriesFrame(s2.processes, s.processes, rest);
      GainsCompose(s, s2, FailHosted(s2, rest).state, AttemptEntries(s.processes[id], NO_ID),
                   LossEntries(s2.processes, rest));
    }
  }

  lemma OrphansKnown(s: State, orphans: set<Id>, phase: Phase)
    requires Inv(s, orphans, phase)
    ensures orphans <= s.processes.Keys
  {
  }

  lemma OrphanLog(s: State, orphans: set<Id>, phase: Phase, id: Id)
    requires Inv(s, orphans, phase) && id in orphans && id in s.processes && s.processes[id].nodeId == NO_ID
    ensures Gains(s, FailProcessLocked(s, id).state, AttemptEntries(s.processes[id], NO_ID))
  {
    hide Placed, Logged, RecordsOk, RecordOk, FailProcessLocked, Gains, AttemptEntries, AfterFailure;
    HistoryOf(s, orphans, phase, id);
    OrphanRuns(s, orphans, phase, id);
    FailProcessForm(s, orphans, phase, id);
    AttemptGains(s, id, NO_ID);
  }

  lemma OrphanRuns(s: State, orphans: set<Id>, phase: Phase, id: Id)
    requires Inv(s, orphans, phase) && id in orphans && id in s.processes
    ensures s.processes[id].state == Running
  {
    assert PlacedOk(s.processes[id], id, s.nodes, orphans);
  }

  /** The node is down and empty, each process it had has failed once, in the order of names. */
  ghost predicate NodeDownNow(s: State, r: Reply, id: Id) {
    && r.error == (if id !in s.nodes then NodeNotFound
                   else if s.nodes[id].status == NodeFailed then InvalidStateTransition else Nil)
    && (r.error != Nil ==> r.state == s)
    && (r.error == Nil ==>
          && SameButTables(s, r.state.(stats := s.stats))
          && r.state.stats == s.stats.(nodeFailures := s.stats.nodeFailures + 1)
          && r.state.nodes == s.nodes[id := s.nodes[id].(
               status := NodeFailed, cpuAllocated := 0, memoryAllocated := 0, running := [])]
          && r.state.processes == (map p | p in s.processes ::
               if p in s.nodes[id].running then AfterAttempt(s.processes[p], s.tick) else s.processes[p])
          && Gains(s, r.state, [Entry(NodeDown, NO_ID, id)]
                               + LossEntries(s.processes, SortedIds(Elements(s.nodes[id].running)))))
  }

  lemma NodeDownLog(s: State, phase: Phase, id: Id)
    requires Inv(s, {}, phase) && id in s.nodes && s.nodes[id].status != NodeFailed
    ensures Gains(s, FailNodeLocked(s, id).state,
                  [Entry(NodeDown, NO_ID, id)] + LossEntries(s.processes, SortedIds(Elements(s.nodes[id].running))))
  {
    hide Inv, Gains, FailHosted, LossEntries;
    var ids := SortedIds(Elements(s.nodes[id].running));
    MarkKeeps(s, phase, id);
    MarkFields(s, id);
    var t := MarkNodeFailed(s, s.nodes[id], id);
    HostedLog(t, phase, ids);
    EmitGains(s, NodeDown, NO_ID, id);
    GainsDependsOn(s, s, Emit(s, NodeDown, NO_ID, id), t, [Entry(NodeDown, NO_ID, id)]);
    GainsCompose(s, t, FailHosted(t, ids).state, [Entry(NodeDown, NO_ID, id)], LossEntries(t.processes, ids));
  }

  lemma NodeDownResult(s: State, id: Id)
    requires Valid(s)
    ensures NodeDownNow(s, FailNode(s, id), id)
  {
    hide Inv, Gains, SameButTables, FailNodeLocked;
    FailNodeCommand(s, id);
    if id in s.nodes {
      FailNodeExact(s, Rest, id);
      if s.nodes[id].status != NodeFailed {
        NodeDownLog(s, Rest, id);
      }
    }
  }

  lemma FailNodeResult(s: State, id: Id)
    requires Valid(s)
    ensures NodeDownNow(s, Execute(s, CmdFailNode(id)), id)
  {
    hide Valid, NodeDownNow, FailNode;
    NodeDownResult(s, id);
  }

  /** What an operator may do to the status of a node, besides leaving it as it is: drain it and take it back,
      take it out of service, put it back or into recovery, and finish a recovery. */
  const OPERATOR_MOVES: set<(NodeStatus, NodeStatus)> :=
    {(Online, Draining), (Online, Offline), (Draining, Online), (Draining, Offline),
     (Offline, Online), (Offline, Recovering), (Recovering, Online)}

  lemma StatusMoves(from: NodeStatus, to: NodeStatus)
    ensures from.CanBecome(to) <==> from == to || (from, to) in OPERATOR_MOVES
  {
  }

  ghost predicate StatusChangedNow(s: State, r: Reply, id: Id, to: NodeStatus) {
    && r.error == (if id !in s.nodes then NodeNotFound
                   else if s.nodes[id].status != to && (s.nodes[id].status, to) !in OPERATOR_MOVES
                     then InvalidStateTransition
                   else if to == Offline && s.nodes[id].running != [] then InvalidStateTransition
                   else Nil)
    && (r.error != Nil ==> r.state == s)
    && (r.error == Nil ==>
          && SameButTables(s, r.state) && r.state.processes == s.processes
          && r.state.nodes == s.nodes[id := s.nodes[id].(
               status := to, lastHeartbeat := if to == Online then s.tick else s.nodes[id].lastHeartbeat)]
          && Gains(s, r.state, [Entry(NodeStatusChanged, NO_ID, id)]))
  }

  /** FAILED is reached by way of a node failure; every other change is an operator's move. */
  lemma ChangeNodeStatusResult(s: State, id: Id, to: NodeStatus)
    requires Valid(s)
    ensures var r := Execute(s, CmdChangeNodeStatus(id, to));
      if to == NodeFailed then NodeDownNow(s, r, id) else StatusChangedNow(s, r, id, to)
  {
    hide Inv, Gains, SameButTables, FailNodeLocked, NodeDownNow, NodeStatus.CanBecome;
    ChangeNodeStatusExact(s, id, to);
    if to == NodeFailed {
      NodeDownResult(s, id);
      FailingIsFailing(s, id);
    } else if id in s.nodes {
      StatusMoves(s.nodes[id].status, to);
      StatusErrors(s, id, to);
      if Execute(s, CmdChangeNodeStatus(id, to)).error == Nil {
        StatusLog(s, id, to);
      }
    }
  }

  lemma FailingIsFailing(s: State, id: Id)
    ensures ChangeNodeStatus(s, id, NodeFailed) == FailNode(s, id)
  {
    hide FailNodeLocked;
  }

  lemma StatusErrors(s: State, id: Id, to: NodeStatus)
    requires to != NodeFailed && id in s.nodes
    ensures ChangeNodeStatus(s, id, to).error in {Nil, InvalidStateTransition}
  {
    hide FailNodeLocked;
  }

  lemma StatusLog(s: State, id: Id, to: NodeStatus)
    requires to != NodeFailed && ChangeNodeStatus(s, id, to).error == Nil && id in s.nodes
    ensures Gains(s, ChangeNodeStatus(s, id, to).state, [Entry(NodeStatusChanged, NO_ID, id)])
  {
    hide FailNodeLocked, Gains;
    EmitGains(s, NodeStatusChanged, NO_ID, id);
    GainsDependsOn(s, s, Emit(s, NodeStatusChanged, NO_ID, id), ChangeNodeStatus(s, id, to).state,
                   [Entry(NodeStatusChanged, NO_ID, id)]);
  }

  /** A node that is down or out of service comes back ONLINE by way of recovery, with a fresh heartbeat. */
  ghost predicate RecoveredNow(s: State, r: Reply, id: Id) {
    && r.error == (if id !in s.nodes then NodeNotFound
                   else if s.nodes[id].status !in {NodeFailed, Offline} then InvalidStateTransition else Nil)
    && (r.error != Nil ==> r.state == s)
    && (r.error == Nil ==>
          && SameButTables(s, r.state) && r.state.processes == s.processes
          && r.state.nodes == s.nodes[id := s.nodes[id].(status := Online, lastHeartbeat := s.tick)]
          && Gains(s, r.state, [Entry(NodeStatusChanged, NO_ID, id), Entry(NodeRecovered, NO_ID, id)]))
  }

  lemma RecoverNodeResult(s: State, id: Id)
    requires Valid(s)
    ensures RecoveredNow(s, RecoverNode(s, id), id) && Execute(s, CmdRecoverNode(id)) == RecoverNode(s, id)
  {
    hide Inv, Gains;
    RecoverNodeExact(s, id);
    if RecoverNode(s, id).error == Nil {
      EmitTwice(s, Entry(NodeStatusChanged, NO_ID, id), Entry(NodeRecovered, NO_ID, id));
      var e := Emit(Emit(s, NodeStatusChanged, NO_ID, id), NodeRecovered, NO_ID, id);
      GainsDependsOn(s, s, e, RecoverNode(s, id).state,
                     [Entry(NodeStatusChanged, NO_ID, id), Entry(NodeRecovered, NO_ID, id)]);
    }
  }

  ghost predicate HeardNow(s: State, r: Reply, id: Id) {
    && r.error == (if id !in s.nodes then NodeNotFound
                   else if s.nodes[id].status !in {Online, Draining} then InvalidStateTransition else Nil)
    && r.state == (if r.error != Nil then s
                   else s.(nodes := s.nodes[id := s.nodes[id].(lastHeartbeat := s.tick)]))
  }

  lemma HeartbeatResult(s: State, id: Id)
    requires Valid(s)
    ensures HeardNow(s, Execute(s, CmdHeartbeat(id)), id)
  {
    hide Valid;
    HeartbeatExact(s, id);
  }

  /** A new node is ONLINE and empty, with what its definition gives it, and heard from now. */
  ghost predicate RegisteredNow(s: State, r: Reply, d: NodeDefinition) {
    && r.error == (if |s.nodes| >= s.maxNodes || !NodeWellFormed(d) then InvalidInput
                   else if d.id in s.nodes then DuplicateNode else Nil)
    && (r.error != Nil ==> r.state == s)
    && (r.error == Nil ==>
          && NodeWellFormed(d) && SameButTables(s, r.state) && r.state.processes == s.processes
          && r.state.nodes
               == s.nodes[d.id := Node(d.id, d.name, Online, d.cpuCapacity, d.memoryCapacity, 0, 0, [], s.tick)]
          && Gains(s, r.state, [Entry(NodeRegistered, NO_ID, d.id)]))
  }

  lemma RegisterNodeResult(s: State, d: NodeDefinition)
    ensures RegisteredNow(s, RegisterNode(s, d), d) && Execute(s, CmdRegisterNode(d)) == RegisterNode(s, d)
  {
    hide Gains;
    if RegisterNode(s, d).error == Nil {
      EmitGains(s, NodeRegistered, NO_ID, d.id);
      GainsDependsOn(s, s, Emit(s, NodeRegistered, NO_ID, d.id), RegisterNode(s, d).state,
                     [Entry(NodeRegistered, NO_ID, d.id)]);
    }
  }

  ghost predicate RemovedNow(s: State, r: Reply, id: Id) {
    && r.error == (if id !in s.nodes then NodeNotFound
                   else if s.nodes[id].running != [] then InvalidStateTransition else Nil)
    && (r.error != Nil ==> r.state == s)
    && (r.error == Nil ==>
          && SameButTables(s, r.state) && r.state.processes == s.processes && r.state.nodes == s.nodes - {id}
          && Gains(s, r.state, [Entry(NodeRemoved, NO_ID, id)]))
  }

  lemma RemoveNodeResult(s: State, id: Id)
    requires Valid(s)
    ensures RemovedNow(s, RemoveNode(s, id), id) && Execute(s, CmdRemoveNode(id)) == RemoveNode(s, id)
  {
    hide Inv, Gains;
    RemoveNodeExact(s, id);
    if RemoveNode(s, id).error == Nil {
      EmitGains(s, NodeRemoved, NO_ID, id);
      GainsDependsOn(s, s, Emit(s, NodeRemoved, NO_ID, id), RemoveNode(s, id).state, [Entry(NodeRemoved, NO_ID, id)]);
    }
  }

  // ---------------------------------------------------------------- control

  /** Only status and reason differ, and what the log gains. */
  ghost predicate OnlyStatus(s: State, t: State) {
    SameButTables(s, t.(status := s.status, reason := s.reason)) && t.nodes == s.nodes && t.processes == s.processes
  }

  /** Any simulation that is not RUNNING starts to run, and forgets why it had stopped. */
  lemma StartResult(s: State)
    ensures var t := Execute(s, CmdStart).state;
      && Execute(s, CmdStart).error == Nil && OnlyStatus(s, t) && t.status == SimRunning
      && (s.status == SimRunning ==> t == s)
      && (s.status != SimRunning ==> t.reason == Unfinished && Gains(s, t, [Entry(SimulationStarted, NO_ID, NO_ID)]))
  {
    hide Gains;
    EmitGains(s, SimulationStarted, NO_ID, NO_ID);
    if s.status != SimRunning {
      GainsDependsOn(s, s, Emit(s, SimulationStarted, NO_ID, NO_ID), Start(s),
          [Entry(SimulationStarted, NO_ID, NO_ID)]);
    }
  }

  /** Only a RUNNING simulation is paused. */
  lemma PauseSimulationResult(s: State)
    ensures var t := Execute(s, CmdPauseSimulation).state;
      && Execute(s, CmdPauseSimulation).error == Nil && OnlyStatus(s, t) && t.reason == s.reason
      && (s.status != SimRunning ==> t == s)
      && (s.status == SimRunning ==> t.status == SimPaused && Gains(s, t, [Entry(SimulationPaused, NO_ID, NO_ID)]))
  {
    hide Gains;
    EmitGains(s, SimulationPaused, NO_ID, NO_ID);
    if s.status == SimRunning {
      GainsDependsOn(s, s, Emit(s, SimulationPaused, NO_ID, NO_ID), PauseSimulation(s),
                     [Entry(SimulationPaused, NO_ID, NO_ID)]);
    }
  }

  /** A simulation finishes once, with the reason given; a second finish is without effect. */
  lemma FinishResult(s: State, reason: string)
    ensures var t := Execute(s, CmdFinish(reason)).state;
      && Execute(s, CmdFinish(reason)).error == Nil && OnlyStatus(s, t) && t.status == Completed
      && (s.status == Completed ==> t == s)
      && (s.status != Completed ==>
            t.reason == Requested(reason) && Gains(s, t, [Entry(SimulationFinished, NO_ID, NO_ID)]))
  {
    hide Gains;
    EmitGains(s, SimulationFinished, NO_ID, NO_ID);
    if s.status != Completed {
      GainsDependsOn(s, s, Emit(s, SimulationFinished, NO_ID, NO_ID), Finish(s, Requested(reason)),
                     [Entry(SimulationFinished, NO_ID, NO_ID)]);
    }
  }

  /** Each known name gives its own policy, fresh; the empty name means Round Robin; an unknown one is refused. */
  lemma SetSchedulerResult(s: State, name: SchedulerName)
    ensures var r := Execute(s, CmdSetScheduler(name));
      && r.error == (if name == UnknownName then InvalidInput else Nil)
      && (r.error != Nil ==> r.state == s)
      && (r.error == Nil ==>
            && r.state.policy == (if name == LeastLoadedName then LeastLoaded
                                  else if name == PriorityAwareName then Policy.PriorityAware(5)
                                  else RoundRobin(0))
            && SameButTables(s, r.state.(policy := s.policy))
            && r.state.nodes == s.nodes && r.state.processes == s.processes
            && Gains(s, r.state, [Entry(SchedulerChanged, NO_ID, NO_ID)]))
  {
    hide Gains;
    EmitGains(s, SchedulerChanged, NO_ID, NO_ID);
    if name != UnknownName {
      GainsDependsOn(s, s, Emit(s, SchedulerChanged, NO_ID, NO_ID), SetScheduler(s, name).state,
                     [Entry(SchedulerChanged, NO_ID, NO_ID)]);
    }
  }

  /** Nothing has happened yet: no nodes, no processes, no calendar, no statistics. */
  ghost predicate Pristine(s: State) {
    && s.nodes == map[] && s.processes == map[] && s.pending == map[] && s.failures == map[]
    && s.tick == 0 && s.maxTicks == 0 && s.status == Idle && s.reason == Unfinished
    && s.stats == Statistics(0.0, 0.0, [], 0, 0, 0, 0)
  }

  /** A reset forgets everything but the configuration and the scheduler, cursor included. */
  lemma ResetResult(s: State)
    ensures var r := Execute(s, CmdReset);
      && r.error == Nil && Pristine(r.state) && r.state.policy == s.policy
          && r.state.heartbeatTimeout == s.heartbeatTimeout
      && r.state.maxNodes == s.maxNodes && r.state.maxProcesses == s.maxProcesses
      && r.state.sequence == 1 && r.state.events == [Event(1, 0, SimulationReset, NO_ID, NO_ID)]
  {
  }

  /** A controller is made for any known scheduler and limits that are not negative, 0 meaning 100 nodes and
      10000 processes and no name meaning Least Loaded; it starts with nothing. */
  lemma NewControllerResult(config: Config)
    ensures var (made, error) := NewController(config);
      && error == (if config.maxNodes < 0 || config.maxProcesses < 0 || config.heartbeatTimeout < 0
                      || config.scheduler == UnknownName then InvalidInput else Nil)
      && (made.None? <==> error != Nil)
      && (made.Some? ==>
            && Pristine(made.value) && made.value.events == [] && made.value.sequence == 0
            && made.value.policy == (if config.scheduler == RoundRobinName then RoundRobin(0)
                                     else if config.scheduler == PriorityAwareName then Policy.PriorityAware(5)
                                     else LeastLoaded)
            && made.value.heartbeatTimeout == config.heartbeatTimeout
            && made.value.maxNodes == (if config.maxNodes == 0 then 100 else config.maxNodes)
            && made.value.maxProcesses == (if config.maxProcesses == 0 then 10000 else config.maxProcesses))
  {
  }
}
