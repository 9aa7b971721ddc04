/** A tick in terms of what can be read off before and after it: which nodes time out, and why a simulation ends. */
module TickResults {
  import opened Domain
  import opened Ordering
  import opened Cluster
  import opened Placement
  import opened EventLog
  import opened Invariants
  import opened Failures
  import opened Scheduling
  import opened Tick
  import opened TickErrors
  import opened Progress
  import opened CommandResults

  // ---------------------------------------------------------------- heartbeats

  /** A node has been silent for longer than the timeout, if there is one. */
  predicate TimedOut(n: Node, timeout: int, tick: int) {
    0 < timeout && n.lastHeartbeat + timeout < tick
  }

  /** Detection fails exactly the ONLINE nodes that have timed out; every other node stays as it is. */
  lemma DetectionResult(s: State, n: Id)
    requires Inv(s, {}, MID) && n in s.nodes
    ensures var t := DetectMissedHeartbeats(s);
      && t.nodes.Keys == s.nodes.Keys
      && (if s.nodes[n].status == Online && TimedOut(s.nodes[n], s.heartbeatTimeout, s.tick)
          then t.nodes[n] == s.nodes[n].(status := NodeFailed, cpuAllocated := 0, memoryAllocated := 0, running := [])
          else t.nodes[n] == s.nodes[n])
  {
    hide Inv, DetectMissedHeartbeats;
    DetectExact(s);
  }

  /** Every process on such a node fails once; every other process stays as it is. */
  lemma DetectionLosses(s: State, p: Id)
    requires Inv(s, {}, MID) && p in s.processes
    ensures var t := DetectMissedHeartbeats(s);
      && t.processes.Keys == s.processes.Keys
      && (if exists n | n in s.nodes :: p in s.nodes[n].running && s.nodes[n].status == Online
                                        && TimedOut(s.nodes[n], s.heartbeatTimeout, s.tick)
          then t.processes[p] == AfterAttempt(s.processes[p], s.tick) else t.processes[p] == s.processes[p])
  {
    hide Logged, RecordsOk, DetectMissedHeartbeats;
    DetectExact(s);
    forall n | n in s.nodes ensures p in s.nodes[n].running <==> p in RunningOn(s.processes, {n}) {
      ListIsRunningOn(s, MID, n);
      assert p in Elements(s.nodes[n].running) <==> p in s.nodes[n].running;
    }
  }

  /** Scheduled actions change nothing of a node but what runs on it, unless they bring it down. */
  ghost predicate OnlyLoad(a: Node, b: Node) {
    b == a.(cpuAllocated := b.cpuAllocated, memoryAllocated := b.memoryAllocated, running := b.running)
  }

  ghost predicate NodesActedOn(a: map<Id, Node>, b: map<Id, Node>, fs: seq<FailureDefinition>) {
    a.Keys == b.Keys
    && forall n | n in a ::
         && (!Downs(fs, n) ==> OnlyLoad(a[n], b[n]))
         && (Downs(fs, n) ==> b[n].status == NodeFailed)
  }

  lemma FailureActsOnNodes(s: State, before: seq<FailureDefinition>, t: State, f: FailureDefinition)
    requires Inv(t, {}, MID) && NodesActedOn(s.nodes, t.nodes, before) && FailureApplies(t, f)
    ensures NodesActedOn(s.nodes, ApplyFailure(t, f).state.nodes, before + [f])
  {
    hide Inv, Downs, FailNodeLocked, FailProcessLocked;
    forall n ensures Downs(before + [f], n) <==> Downs(before, n) || (f.kind == NodeFailure && f.nodeId == n) {
      DownsOnce(before, f, n);
    }
    if f.kind == NodeFailure {
      FailNodeExact(t, MID, f.nodeId);
    } else if f.kind == ProcessFailure {
      FailProcessExact(t, {}, MID, f.processId);
      OffNodeLoad(t, f.processId);
    }
  }

  lemma OffNodeLoad(s: State, id: Id)
    requires id in s.processes
    ensures OffNode(s, {}, id).nodes.Keys == s.nodes.Keys
    ensures forall n | n in s.nodes :: OnlyLoad(s.nodes[n], OffNode(s, {}, id).nodes[n])
  {
  }

  lemma {:induction false} FailuresActOnNodes(s: State, fs: seq<FailureDefinition>)
    requires Inv(s, {}, MID) && ApplyFailures(s, fs).error == Nil
    ensures NodesActedOn(s.nodes, ApplyFailures(s, fs).state.nodes, fs)
    decreases |fs|
  {
    hide Inv, ApplyFailure, NodesActedOn, FailureApplies;
    if fs == [] {
      NoActions(s.nodes);
    } else {
      var before, f := fs[..|fs| - 1], fs[|fs| - 1];
      assert fs == before + [f];
      ApplySplits(s, before, f);
      FailuresActOnNodes(s, before);
      ApplyFailuresKeeps(s, before);
      var t := ApplyFailures(s, before).state;
      ApplyFailureExact(t, f);
      FailureActsOnNodes(s, before, t, f);
    }
  }

  lemma NoActions(nodes: map<Id, Node>)
    ensures NodesActedOn(nodes, nodes, [])
  {
  }

  lemma ActionsOnNodes(s: State)
    requires Inv(s, {}, MID) && ApplyScheduled(s).error == Nil
    ensures NodesActedOn(s.nodes, ApplyScheduled(s).state.nodes, DueFailures(s, s.tick))
  {
    hide Inv, SubmitAll, ApplyFailures, SortDefinitions, NodesActedOn;
    var due := DueSubmissions(s, s.tick);
    SubmitAllKeeps(s, SortDefinitions(due));
    var r := if |due| > 0 then SubmitAll(s, SortDefinitions(due)) else Reply(s, Nil);
    var s1 := if |due| > 0 then r.state.(pending := r.state.pending - {s.tick}) else r.state;
    StatusIsFree(r.state, {}, MID, s1);
    FailuresActOnNodes(s1, DueFailures(s1, s.tick));
  }

  /** Over a whole tick: an ONLINE node that no due failure names is still ONLINE afterwards if and only if it
      has been heard from within the timeout, or there is none. */
  lemma TickTimeout(s: State, n: Id)
    requires Valid(s) && Step(s).error == Nil && n in s.nodes && s.nodes[n].status == Online
    requires forall f | f in DueFailures(s, s.tick + 1) :: !(f.kind == NodeFailure && f.nodeId == n)
    ensures n in Step(s).state.nodes
    ensures Step(s).state.nodes[n].status == (if TimedOut(s.nodes[n], s.heartbeatTimeout, s.tick + 1) then NodeFailed
                                              else Online)
  {
    hide Inv, Valid, Step, TrailOf, BeginTick, ApplyScheduled, AllFuller, PassEffect, DetectMissedHeartbeats, Downs;
    StepExact(s);
    BeginTickKeeps(s);
    BeginFields(s);
    BeginCalendar(s);
    TrailIsValid(s);
    TrailActs(s);
    DetectedTrail(s);
    ActionsOnNodes(BeginTick(s));
    var t := TrailOf(s);
    NotDowned(DueFailures(s, s.tick + 1), n);
    DetectionResult(t.acted, n);
    TrailStatuses(s);
  }

  lemma NotDowned(fs: seq<FailureDefinition>, n: Id)
    requires forall f | f in fs :: !(f.kind == NodeFailure && f.nodeId == n)
    ensures !Downs(fs, n)
  {
  }

  lemma BeginCalendar(s: State)
    ensures DueFailures(BeginTick(s), s.tick + 1) == DueFailures(s, s.tick + 1)
    ensures DueSubmissions(BeginTick(s), s.tick + 1) == DueSubmissions(s, s.tick + 1)
  {
  }

  lemma DetectedTrail(s: State)
    requires Valid(s)
    ensures TrailOf(s).alive == DetectMissedHeartbeats(TrailOf(s).acted)
    ensures TrailOf(s).acted.tick == s.tick + 1 && TrailOf(s).acted.heartbeatTimeout == s.heartbeatTimeout
  {
    hide Inv, Valid, BeginTick, ApplyScheduled, DetectMissedHeartbeats;
    BeginTickKeeps(s);
    BeginFields(s);
    ApplyScheduledKeeps(BeginTick(s));
  }

  /** From detection on a tick changes no node's status. */
  lemma TrailStatuses(s: State)
    requires Valid(s)
    ensures var t := TrailOf(s);
      && t.final.nodes.Keys == t.alive.nodes.Keys
      && forall n | n in t.alive.nodes :: t.final.nodes[n].status == t.alive.nodes[n].status
  {
    hide Inv, Valid, TrailOf, AllFuller;
    TrailEffects(s);
    var t := TrailOf(s);
    PassFills(t.alive, t.scheduled, ReadyQueue(t.alive));
    FillingAgrees(t.alive.nodes, t.scheduled.nodes, t.final.nodes);
  }

  // ---------------------------------------------------------------- why a simulation ends

  /** There are processes, none is still to come, and all are over. */
  ghost predicate AllOver(t: State) {
    t.processes != map[] && t.pending == map[] && forall p | p in t.processes :: Over(t.processes[p])
  }

  predicate OutOfTicks(t: State) {
    0 < t.maxTicks <= t.tick
  }

  /** Nothing is to come, nothing runs, nothing that waits for a node fits one, and yet something is not over. */
  ghost predicate NothingCanHappen(t: State) {
    && t.pending == map[] && t.failures == map[]
    && (forall p | p in t.processes :: t.processes[p].state != Running)
    && (forall p, n | p in t.processes && n in t.nodes && t.processes[p].state == Ready ::
          !t.nodes[n].CanFit(t.processes[p]))
    && exists p | p in t.processes :: !Over(t.processes[p])
  }

  ghost predicate SomeReady(t: State) {
    exists p | p in t.processes :: t.processes[p].state == Ready
  }

  lemma BlockedExactly(s: State)
    requires Valid(s)
    ensures BlockReason(s) != Unfinished <==> NothingCanHappen(s)
    ensures NothingCanHappen(s) ==> BlockReason(s) == if SomeReady(s) then NoOnlineCapacity else ExternallyBlocked
    ensures NothingCanHappen(s) && !SomeReady(s) ==>
      exists p | p in s.processes :: s.processes[p].state == Waiting || s.processes[p].state == Paused
  {
    hide Placed, Logged, FitsSomewhere;
    FitsNone(s);
    assert HasIn(s, {Ready}) <==> SomeReady(s);
    forall p | p in s.processes
      ensures s.processes[p].state != New
    {
      HistoryOf(s, {}, Rest, p);
    }
  }

  lemma FitsNone(s: State)
    ensures forall p :: FitsSomewhere(s, p) <==> exists n | n in s.nodes :: s.nodes[n].CanFit(p)
  {
  }

  lemma StopExactly(s: State)
    requires Valid(s) && s.status != Completed
    ensures var t := StopIfDone(s);
      && (t.status == Completed <==> AllOver(s) || OutOfTicks(s) || NothingCanHappen(s))
      && (t.status == Completed ==>
            && t.reason == (if AllOver(s) then AllTerminal else if OutOfTicks(s) then MaxTicksReached
                            else if SomeReady(s) then NoOnlineCapacity else ExternallyBlocked)
            && Gains(s, t, [Entry(SimulationFinished, NO_ID, NO_ID)]))
      && (t.status != Completed ==> t == s)
  {
    hide Valid, BlockReason, Gains, NothingCanHappen;
    BlockedExactly(s);
    EmitGains(s, SimulationFinished, NO_ID, NO_ID);
    if StopIfDone(s).status == Completed {
      GainsDependsOn(s, s, Emit(s, SimulationFinished, NO_ID, NO_ID), StopIfDone(s),
                     [Entry(SimulationFinished, NO_ID, NO_ID)]);
    }
  }

  /** A successful tick ends the simulation exactly if all processes are over, the ticks are used up, or nothing
      can happen any more; the first of these that holds is the reason, and where nothing can happen it is missing
      capacity if a process is READY, and otherwise that those left are WAITING or PAUSED. */
  lemma TickEnds(s: State)
    requires Valid(s) && Step(s).error == Nil
    ensures var t := Step(s).state;
      && (t.status == Completed <==> AllOver(t) || OutOfTicks(t) || NothingCanHappen(t))
      && (t.status != Completed ==> t.status == SimRunning)
      && (t.status == Completed ==>
            t.reason == if AllOver(t) then AllTerminal else if OutOfTicks(t) then MaxTicksReached
                        else if SomeReady(t) then NoOnlineCapacity else ExternallyBlocked)
      && (t.status == Completed && t.reason == ExternallyBlocked ==>
            exists p | p in t.processes :: t.processes[p].state == Waiting || t.processes[p].state == Paused)
  {
    hide Inv, Valid, Step, TrailOf, StopIfDone, Gains, AllOver, OutOfTicks, NothingCanHappen, SomeReady, PassEffect,
         AllFuller;
    StepExact(s);
    TrailIsValid(s);
    TrailEffects(s);
    TrailActs(s);
    var t := TrailOf(s);
    StopExactly(t.executed);
    BlockedExactly(t.executed);
    SameEnd(t.executed, t.final);
  }

  lemma SameEnd(s: State, t: State)
    requires s.nodes == t.nodes && s.processes == t.processes && s.pending == t.pending && s.failures == t.failures
    requires s.tick == t.tick && s.maxTicks == t.maxTicks
    ensures AllOver(s) == AllOver(t) && OutOfTicks(s) == OutOfTicks(t)
    ensures NothingCanHappen(s) == NothingCanHappen(t) && SomeReady(s) == SomeReady(t)
  {
  }
}
