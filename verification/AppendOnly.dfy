/** The event log is append-only: a prefix taken before a command is still there after it. */
module AppendOnly {
  import opened Domain
  import opened Ordering
  import opened Schedulers
  import opened Cluster
  import opened Scenarios

  ghost predicate Extends(s: State, t: State) {
    s.events <= t.events
  }

  lemma ExtendsTransitive(s: State, t: State, u: State)
    requires Extends(s, t) && Extends(t, u)
    ensures Extends(s, u)
  {
  }

  lemma ReleaseExtends(s: State, id: Id)
    requires id in s.processes
    ensures Extends(s, Release(s, id).state) && id in Release(s, id).state.processes
  {
  }

  lemma SubmitExtends(s: State, d: ProcessDefinition)
    ensures Extends(s, Submit(s, d).state)
  {
  }

  lemma SuspendExtends(s: State, id: Id, to: ProcessState, kind: EventKind)
    ensures Extends(s, Suspend(s, id, to, kind).state)
  {
    hide Release;
    if id in s.processes { ReleaseExtends(s, id); }
  }

  lemma KillExtends(s: State, id: Id)
    ensures Extends(s, KillProcess(s, id).state)
  {
    hide Release;
    if id in s.processes { ReleaseExtends(s, id); }
  }

  // ---------------------------------------------------------------- failures

  lemma FailedReplyExtends(s: State, q: Process, id: Id, nodeId: Id)
    ensures Extends(s, FailedReply(s, q, id, nodeId).state)
  {
  }

  lemma FailProcessExtends(s: State, id: Id)
    requires id in s.processes
    ensures Extends(s, FailProcessLocked(s, id).state)
  {
    hide Release, FailedReply, Extends;
    SameExtends(s, s.(processes := s.processes[id := s.processes[id].(nodeId := NO_ID)]));
    SameExtends(s, s);
    ReleaseExtends(s, id);
    var p := s.processes[id];
    var s1 := if p.state == Running && p.nodeId != NO_ID then
                (if p.nodeId in s.nodes && s.nodes[p.nodeId].status != NodeFailed then Release(s, id).state
                 else s.(processes := s.processes[id := p.(nodeId := NO_ID)]))
              else s;
    var q := s1.processes[id].(state := Failed);
    FailedReplyExtends(s1, q, id, p.nodeId);
    ExtendsTransitive(s, s1, FailedReply(s1, q, id, p.nodeId).state);
  }

  lemma SameExtends(s: State, t: State)
    requires s.events == t.events
    ensures Extends(s, t)
  {
  }

  lemma {:induction false} FailHostedExtends(s: State, ids: seq<Id>)
    ensures Extends(s, FailHosted(s, ids).state)
    decreases |ids|
  {
    hide FailProcessLocked;
    if ids != [] {
      if ids[0] in s.processes {
        var s1 := s.(processes := s.processes[ids[0] := s.processes[ids[0]].(nodeId := NO_ID)]);
        FailProcessExtends(s1, ids[0]);
        FailHostedExtends(FailProcessLocked(s1, ids[0]).state, ids[1..]);
      } else {
        FailHostedExtends(s, ids[1..]);
      }
    }
  }

  lemma FailNodeExtends(s: State, id: Id)
    requires id in s.nodes
    ensures Extends(s, FailNodeLocked(s, id).state)
  {
    hide FailHosted;
    var n := s.nodes[id];
    FailHostedExtends(MarkNodeFailed(s, n, id), SortedIds(Elements(n.running)));
  }

  // ---------------------------------------------------------------- the phases of a tick

  lemma {:induction false} SubmitAllExtends(s: State, defs: seq<ProcessDefinition>)
    ensures Extends(s, SubmitAll(s, defs).state)
    decreases |defs|
  {
    hide Submit;
    if defs != [] {
      SubmitExtends(s, defs[0]);
      SubmitAllExtends(Submit(s, defs[0]).state, defs[1..]);
    }
  }

  lemma {:induction false} ApplyFailuresExtends(s: State, fs: seq<FailureDefinition>)
    ensures Extends(s, ApplyFailures(s, fs).state)
    decreases |fs|
  {
    hide FailNodeLocked, FailProcessLocked;
    if fs != [] {
      if fs[0].kind == NodeFailure && fs[0].nodeId in s.nodes { FailNodeExtends(s, fs[0].nodeId); }
      if fs[0].kind == ProcessFailure && fs[0].processId in s.processes { FailProcessExtends(s, fs[0].processId); }
      ApplyFailuresExtends(ApplyFailure(s, fs[0]).state, fs[1..]);
    }
  }

  lemma ActionsExtend(s: State)
    ensures Extends(s, ApplyScheduled(s).state)
  {
    hide SubmitAll, ApplyFailures, SortDefinitions;
    var due := DueSubmissions(s, s.tick);
    SubmitAllExtends(s, SortDefinitions(due));
    var r := if |due| > 0 then SubmitAll(s, SortDefinitions(due)) else Reply(s, Nil);
    var s1 := if |due| > 0 then r.state.(pending := r.state.pending - {s.tick}) else r.state;
    ApplyFailuresExtends(s1, DueFailures(s1, s.tick));
  }

  lemma {:induction false} FailStaleExtends(s: State, ids: seq<Id>)
    ensures Extends(s, FailStale(s, ids))
    decreases |ids|
  {
    hide FailNodeLocked;
    if ids != [] {
      if ids[0] in s.nodes {
        var s1 := Emit(s, HeartbeatMissed, NO_ID, ids[0]);
        FailNodeExtends(s1, ids[0]);
        FailStaleExtends(FailNodeLocked(s1, ids[0]).state, ids[1..]);
      } else {
        FailStaleExtends(s, ids[1..]);
      }
    }
  }

  lemma ScheduleOneExtends(s: State, p: Process)
    ensures Extends(s, ScheduleOne(s, p))
  {
    hide Select;
  }

  lemma {:induction false} ScheduleAllExtends(s: State, queue: seq<Process>)
    ensures Extends(s, ScheduleAll(s, queue))
    decreases |queue|
  {
    hide ScheduleOne;
    if queue != [] {
      ScheduleOneExtends(s, queue[0]);
      ScheduleAllExtends(ScheduleOne(s, queue[0]), queue[1..]);
    }
  }

  lemma ExecuteOneExtends(s: State, id: Id)
    ensures Extends(s, ExecuteOne(s, id))
  {
    hide Release;
    if id in s.processes {
      var p := s.processes[id];
      ReleaseExtends(s.(processes := s.processes[id := p.(remainingTicks := p.remainingTicks - 1)]), id);
    }
  }

  lemma {:induction false} ExecuteAllExtends(s: State, ids: seq<Id>)
    ensures Extends(s, ExecuteAll(s, ids))
    decreases |ids|
  {
    hide ExecuteOne;
    if ids != [] {
      ExecuteOneExtends(s, ids[0]);
      ExecuteAllExtends(ExecuteOne(s, ids[0]), ids[1..]);
    }
  }

  lemma OuterPhasesExtend(s: State)
    ensures Extends(s, BeginTick(s)) && Extends(s, StopIfDone(s))
  {
    hide AllProcessesTerminal, BlockReason;
  }

  lemma SampleExtends(s: State)
    ensures Extends(s, SampleUtilization(s))
  {
    hide Utilization;
  }

  lemma LoopPhasesExtend(s: State)
    ensures Extends(s, DetectMissedHeartbeats(s)) && Extends(s, ScheduleReady(s)) && Extends(s, ExecuteRunning(s))
  {
    hide Extends, FailStale, ScheduleAll, ExecuteAll, StaleNodes, ReadyQueue, RunningSet;
    SameExtends(s, s);
    FailStaleExtends(s, SortedIds(StaleNodes(s)));
    ScheduleAllExtends(s, ReadyQueue(s));
    ExecuteAllExtends(s, SortedIds(RunningSet(s)));
  }

  /** Each phase of a tick only appends. */
  lemma PhasesExtend(s: State)
    ensures Extends(s, BeginTick(s)) && Extends(s, DetectMissedHeartbeats(s)) && Extends(s, ScheduleReady(s))
    ensures Extends(s, SampleUtilization(s)) && Extends(s, ExecuteRunning(s)) && Extends(s, StopIfDone(s))
  {
    hide Extends, BeginTick, DetectMissedHeartbeats, ScheduleReady, SampleUtilization, ExecuteRunning, StopIfDone;
    OuterPhasesExtend(s);
    SampleExtends(s);
    LoopPhasesExtend(s);
  }

  lemma AttemptExtends(s: State)
    ensures Extends(s, Attempt(s).state)
  {
    hide Extends, BeginTick, ApplyScheduled, DetectMissedHeartbeats, ScheduleReady, SampleUtilization, ExecuteRunning,
         StopIfDone, InvariantsHold;
    PhasesExtend(s);
    var s1 := BeginTick(s);
    ActionsExtend(s1);
    var s2 := ApplyScheduled(s1).state;
    ExtendsTransitive(s, s1, s2);
    PhasesExtend(s2);
    var s3 := DetectMissedHeartbeats(s2);
    ExtendsTransitive(s, s2, s3);
    PhasesExtend(s3);
    var s4 := ScheduleReady(s3);
    ExtendsTransitive(s, s3, s4);
    PhasesExtend(s4);
    var s5 := SampleUtilization(s4);
    ExtendsTransitive(s, s4, s5);
    PhasesExtend(s5);
    var s6 := ExecuteRunning(s5);
    ExtendsTransitive(s, s5, s6);
    PhasesExtend(s6);
    ExtendsTransitive(s, s6, StopIfDone(s6));
  }

  lemma StepExtends(s: State)
    ensures Extends(s, Step(s).state)
  {
    hide Attempt;
    AttemptExtends(s);
  }

  lemma {:induction false} StepLoopExtends(s: State, count: nat)
    ensures Extends(s, StepLoop(s, count).state)
    decreases count
  {
    hide Step;
    if count > 0 {
      StepExtends(s);
      StepLoopExtends(Step(s).state, count - 1);
    }
  }

  lemma NodeCommandExtends(s: State, c: Command)
    requires c.CmdRegisterNode? || c.CmdRemoveNode? || c.CmdRecoverNode? || c.CmdHeartbeat?
             || c.CmdFailNode? || c.CmdChangeNodeStatus? || c.CmdFailProcess?
    ensures Extends(s, Execute(s, c).state)
  {
    hide Step, Steps, Submit, Suspend, Requeue, KillProcess, FailNodeLocked, FailProcessLocked,
         SetScheduler, Start, PauseSimulation, Reset, Finish, LoadScenario;
    if (c.CmdFailNode? || c.CmdChangeNodeStatus?) && c.id in s.nodes { FailNodeExtends(s, c.id); }
    if c.CmdFailProcess? && c.id in s.processes { FailProcessExtends(s, c.id); }
  }

  /** No command but Reset and LoadScenario drops or rewrites an event. */
  lemma LogOnlyGrows(s: State, c: Command)
    requires !c.CmdReset? && !c.CmdLoadScenario?
    ensures s.events <= Execute(s, c).state.events
  {
    hide Step, StepLoop, Submit, Suspend, KillProcess, RegisterNode, RemoveNode, RecoverNode, Heartbeat, FailNode,
         FailProcess, ChangeNodeStatus, Reset, LoadScenario;
    match c
    case CmdSubmit(d) => SubmitExtends(s, d);
    case CmdPause(id) => SuspendExtends(s, id, Paused, PausedEvent);
    case CmdWait(id) => SuspendExtends(s, id, Waiting, WaitingEvent);
    case CmdKill(id) => KillExtends(s, id);
    case CmdStep => StepExtends(s);
    case CmdSteps(n) => if n > 0 { StepLoopExtends(s, n); }
    case CmdRegisterNode(_) => NodeCommandExtends(s, c);
    case CmdRemoveNode(_) => NodeCommandExtends(s, c);
    case CmdRecoverNode(_) => NodeCommandExtends(s, c);
    case CmdHeartbeat(_) => NodeCommandExtends(s, c);
    case CmdFailNode(_) => NodeCommandExtends(s, c);
    case CmdFailProcess(_) => NodeCommandExtends(s, c);
    case CmdChangeNodeStatus(_, _) => NodeCommandExtends(s, c);
    case _ =>
  }
}
