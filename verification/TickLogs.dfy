/** What a tick writes to the log, entry by entry: every phase goes through its processes or nodes in a fixed
    order, so the log of a tick is determined by the state before it. */
module TickLogs {
  import opened Domain
  import opened Ordering
  import opened Schedulers
  import opened Cluster
  import opened Placement
  import opened EventLog
  import opened Invariants
  import opened Failures
  import opened Scheduling
  import opened Tick
  import opened Progress
  import opened CommandResults
  import opened LoadResults
  import opened TickResults

  // ---------------------------------------------------------------- submissions and failures

  function NamesOf(defs: seq<ProcessDefinition>): seq<Id> {
    if defs == [] then [] else [defs[0].id] + NamesOf(defs[1..])
  }

  lemma {:induction false} SubmissionsLog(s: State, defs: seq<ProcessDefinition>)
    requires SubmitAll(s, defs).error == Nil
    ensures Gains(s, SubmitAll(s, defs).state, ProcessEntries(NamesOf(defs)))
    decreases |defs|
  {
    hide Gains, Submit;
    if defs == [] {
      GainsNothing(s);
    } else {
      var t := Submit(s, defs[0]).state;
      SubmitFrame(s, defs[0]);
      SubmitLog(s, defs[0]);
      SubmissionsLog(t, defs[1..]);
      GainsCompose(s, t, SubmitAll(t, defs[1..]).state, [Entry(Submitted, defs[0].id, NO_ID)],
                   ProcessEntries(NamesOf(defs[1..])));
      var names := NamesOf(defs);
      assert names[0] == defs[0].id && names[1..] == NamesOf(defs[1..]);
    }
  }

  /** What the log says of one failure due. */
  ghost function FailureEntries(s: State, f: FailureDefinition): seq<Entry> {
    match f.kind
    case NodeFailure =>
      if f.nodeId !in s.nodes then []
      else [Entry(NodeDown, NO_ID, f.nodeId)]
           + LossEntries(s.processes, SortedIds(Elements(s.nodes[f.nodeId].running)))
    case ProcessFailure =>
      if f.processId !in s.processes then []
      else ReleasedFirst(s.processes[f.processId])
           + AttemptEntries(s.processes[f.processId], s.processes[f.processId].nodeId)
    case UnsupportedFailure => []
  }

  /** The failures due are taken in the order in which they are listed. */
  ghost function FailuresEntries(s: State, fs: seq<FailureDefinition>): seq<Entry>
    decreases |fs|
  {
    if fs == [] then []
    else FailureEntries(s, fs[0]) + FailuresEntries(ApplyFailure(s, fs[0]).state, fs[1..])
  }

  lemma ProcessFailureLog(s: State, id: Id)
    requires Inv(s, {}, MID) && id in s.processes && !Over(s.processes[id])
    ensures Gains(s, FailProcessLocked(s, id).state,
                  ReleasedFirst(s.processes[id]) + AttemptEntries(s.processes[id], s.processes[id].nodeId))
  {
    hide Inv, Gains, FailProcessLocked, AttemptEntries;
    FailureLog(s, MID, id);
  }

  lemma OneFailureLog(s: State, f: FailureDefinition)
    requires Inv(s, {}, MID) && FailureApplies(s, f)
    ensures Gains(s, ApplyFailure(s, f).state, FailureEntries(s, f))
  {
    hide Inv, Gains, FailNodeLocked, FailProcessLocked, AttemptEntries, LossEntries, ReleasedFirst;
    match f.kind
    case NodeFailure => NodeDownLog(s, MID, f.nodeId);
    case ProcessFailure => ProcessFailureLog(s, f.processId);
    case UnsupportedFailure => GainsNothing(s);
  }

  lemma {:induction false} FailuresLog(s: State, fs: seq<FailureDefinition>)
    requires Inv(s, {}, MID) && ApplyFailures(s, fs).error == Nil
    ensures Gains(s, ApplyFailures(s, fs).state, FailuresEntries(s, fs))
    decreases |fs|
  {
    hide Inv, Gains, ApplyFailure, FailureEntries, FailureApplies;
    if fs == [] {
      GainsNothing(s);
    } else {
      ApplyFailureExact(s, fs[0]);
      OneFailureLog(s, fs[0]);
      var t := ApplyFailure(s, fs[0]).state;
      FailuresLog(t, fs[1..]);
      GainsCompose(s, t, ApplyFailures(t, fs[1..]).state, FailureEntries(s, fs[0]), FailuresEntries(t, fs[1..]));
    }
  }

  // ---------------------------------------------------------------- heartbeats

  /** Stale nodes go down in the order of their names, each taking its processes with it. */
  ghost function StaleEntries(nodes: map<Id, Node>, processes: map<Id, Process>, ids: seq<Id>): seq<Entry> {
    if ids == [] then []
    else
      [Entry(HeartbeatMissed, NO_ID, ids[0]), Entry(NodeDown, NO_ID, ids[0])]
      + (if ids[0] in nodes then LossEntries(processes, SortedIds(Elements(nodes[ids[0]].running))) else [])
      + StaleEntries(nodes, processes, ids[1..])
  }

  lemma {:induction false} StaleEntriesFrame(a: map<Id, Node>, p: map<Id, Process>, b: map<Id, Node>,
                                             q: map<Id, Process>, ids: seq<Id>)
    requires forall i | 0 <= i < |ids| :: ids[i] in a && ids[i] in b && a[ids[i]] == b[ids[i]]
               && forall x | x in a[ids[i]].running :: x in p && x in q && p[x] == q[x]
    ensures StaleEntries(a, p, ids) == StaleEntries(b, q, ids)
  {
    hide LossEntries;
    if ids != [] {
      StaleEntriesFrame(a, p, b, q, ids[1..]);
      var list := SortedIds(Elements(a[ids[0]].running));
      assert forall i | 0 <= i < |list| :: list[i] in list && list[i] in a[ids[0]].running;
      LossEntriesFrame(p, q, list);
    }
  }

  /** The processes of another node do not change when a node goes down. */
  lemma OthersUntouched(s: State, t: State, id: Id, n: Id)
    requires Inv(s, {}, MID) && id in s.nodes && n in s.nodes && id != n
    requires t.processes == AllFailed(s.processes, Elements(s.nodes[id].running), s.tick)
    ensures forall x | x in s.nodes[n].running ::
      x in s.processes && x in t.processes && t.processes[x] == s.processes[x]
  {
    hide Logged, RecordsOk;
    assert NodeOk(s.nodes[n], n, s.processes, {}) && NodeOk(s.nodes[id], id, s.processes, {});
  }

  lemma {:induction false} StaleLog(s: State, ids: seq<Id>)
    requires Inv(s, {}, MID) && NoDuplicates(ids)
    requires forall i | 0 <= i < |ids| :: ids[i] in s.nodes && s.nodes[ids[i]].status == Online
    ensures Gains(s, FailStale(s, ids), StaleEntries(s.nodes, s.processes, ids))
    decreases |ids|
  {
    hide Inv, FailNodeLocked, LossEntries, Gains, AllFailed;
    if ids == [] {
      GainsNothing(s);
    } else {
      var id, rest := ids[0], ids[1..];
      EmitNeutral(s, {}, MID, HeartbeatMissed, id);
      var s1 := Emit(s, HeartbeatMissed, NO_ID, id);
      FailNodeExact(s1, MID, id);
      var s2 := FailNodeLocked(s1, id).state;
      HeadAndRest(ids);
      assert forall i | 0 <= i < |rest| :: rest[i] == ids[i + 1] && rest[i] != id;
      StaleLog(s2, rest);
      NodeDownLog(s1, MID, id);
      EmitGains(s, HeartbeatMissed, NO_ID, id);
      var losses := LossEntries(s.processes, SortedIds(Elements(s.nodes[id].running)));
      var missed, down := Entry(HeartbeatMissed, NO_ID, id), Entry(NodeDown, NO_ID, id);
      GainsCompose(s, s1, s2, [missed], [down] + losses);
      assert [missed] + ([down] + losses) == [missed, down] + losses;
      forall i | 0 <= i < |rest|
        ensures forall x | x in s.nodes[rest[i]].running ::
                  x in s.processes && x in s2.processes && s2.processes[x] == s.processes[x]
      {
        OthersUntouched(s, s2, id, rest[i]);
      }
      StaleEntriesFrame(s2.nodes, s2.processes, s.nodes, s.processes, rest);
      GainsCompose(s, s2, FailStale(s2, rest), [missed, down] + losses, StaleEntries(s.nodes, s.processes, rest));
    }
  }

  // ---------------------------------------------------------------- the pass

  /** The decision on one process: deferred, or started if it never was, scheduled and given its node. */
  function DecisionEntries(p: Process, after: Process): seq<Entry> {
    if after.state != Running then [Entry(Deferred, p.id, NO_ID)]
    else
      (if p.startedAt == None then [Entry(Started, p.id, after.nodeId)] else [])
      + [Entry(Scheduled, p.id, after.nodeId), Entry(Allocated, p.id, after.nodeId)]
  }

  /** One decision for each waiting process, in the order of the queue. */
  function PassEntries(queue: seq<Process>, after: map<Id, Process>): seq<Entry> {
    if queue == [] then []
    else (if queue[0].id in after then DecisionEntries(queue[0], after[queue[0].id]) else [])
         + PassEntries(queue[1..], after)
  }

  lemma AnnouncedGains(s: State, id: Id, nodeId: Id, first: bool)
    ensures Gains(s, Announced(s, id, nodeId, first),
                  (if first then [Entry(Started, id, nodeId)] else [])
                  + [Entry(Scheduled, id, nodeId), Entry(Allocated, id, nodeId)])
  {
    hide Gains;
    var s1 := if first then Emit(s, Started, id, nodeId)
              else s.(stats := s.stats.(reschedulings := s.stats.reschedulings + 1));
    var begun := if first then [Entry(Started, id, nodeId)] else [];
    EmitGains(s, Started, id, nodeId);
    GainsNothing(s);
    GainsDependsOn(s, s, if first then s1 else s, s1, begun);
    EmitTwice(s1, Entry(Scheduled, id, nodeId), Entry(Allocated, id, nodeId));
    GainsCompose(s, s1, Announced(s, id, nodeId, first), begun,
                 [Entry(Scheduled, id, nodeId), Entry(Allocated, id, nodeId)]);
  }

  lemma DecisionLog(s: State, p: Process)
    requires Inv(s, {}, MID) && p.id in s.processes && s.processes[p.id] == p && p.state == Ready
    ensures var t := ScheduleOne(s, p);
      p.id in t.processes && Gains(s, t, DecisionEntries(p, t.processes[p.id]))
  {
    hide Inv, Gains, Announced;
    var _ := ScheduleOneExact(s, p);
    SelectionOn(s, p);
    var (choice, policy) := Select(s.policy, p, Snapshots(s.nodes));
    var s1 := s.(policy := policy);
    if choice.Some? {
      PlaceKeepsFor(s, policy, p, choice.value);
      var n := s.nodes[choice.value].Allocate(p).0;
      var s2 := s1.(nodes := s.nodes[choice.value := n],
                    processes := s.processes[p.id := PlacedRecord(p, s.tick, choice.value)]);
      AnnouncedGains(s2, p.id, choice.value, p.startedAt == None);
      GainsDependsOn(s2, s, Place(s1, p, n, choice.value), Place(s1, p, n, choice.value),
                     DecisionEntries(p, PlacedRecord(p, s.tick, choice.value)));
      PlaceFields(s1, p, n, choice.value);
    } else {
      EmitGains(s, Deferred, p.id, NO_ID);
      GainsDependsOn(s, s, Emit(s, Deferred, p.id, NO_ID), Defer(s1, p, NO_ID), [Entry(Deferred, p.id, NO_ID)]);
    }
  }

  lemma SelectionOn(s: State, p: Process)
    requires Inv(s, {}, MID)
    ensures var choice := Select(s.policy, p, Snapshots(s.nodes)).0;
      choice.Some? ==> choice.value in s.nodes && s.nodes[choice.value].CanFit(p)
  {
    hide Logged, RecordsOk, Select, Placed;
    InvParts(s, {}, MID);
    SelectionIsExact(s, p);
  }

  lemma PlaceKeepsFor(s: State, policy: Policy, p: Process, nodeId: Id)
    requires Inv(s, {}, MID) && p.id in s.processes && s.processes[p.id] == p && p.state == Ready
    requires nodeId in s.nodes && s.nodes[nodeId].CanFit(p)
    ensures s.nodes[nodeId].Allocate(p).1 == Nil
  {
    hide Inv, Place;
    PolicyIsFree(s, policy);
    PlaceKeeps(s.(policy := policy), p, nodeId);
  }

  lemma {:induction false} PassLog(s: State, queue: seq<Process>)
    requires Inv(s, {}, MID) && QueueOk(s, queue)
    ensures Gains(s, ScheduleAll(s, queue), PassEntries(queue, ScheduleAll(s, queue).processes))
    decreases |queue|
  {
    hide Inv, ScheduleOne, Gains, DecisionEntries, FitsSomewhere, AllFuller, Decided;
    if queue == [] {
      GainsNothing(s);
    } else {
      var p, rest := queue[0], queue[1..];
      var _ := StepOfPass(s, queue);
      var s1 := ScheduleOne(s, p);
      DecisionLog(s, p);
      PassIsDecisive(s1, rest);
      NotInRest(queue);
      PassLog(s1, rest);
      var t := ScheduleAll(s1, rest);
      assert t.processes[p.id] == s1.processes[p.id];
      GainsCompose(s, s1, t, DecisionEntries(p, s1.processes[p.id]), PassEntries(rest, t.processes));
    }
  }

  // ---------------------------------------------------------------- execution

  /** The processes that end in this tick, in the order of their names. */
  function WorkEntries(processes: map<Id, Process>, ids: seq<Id>): seq<Entry> {
    if ids == [] then []
    else
      (if ids[0] in processes && processes[ids[0]].remainingTicks <= 1
       then [Entry(Released, ids[0], processes[ids[0]].nodeId), Entry(CompletedEvent, ids[0], NO_ID)] else [])
      + WorkEntries(processes, ids[1..])
  }

  lemma {:induction false} WorkEntriesFrame(a: map<Id, Process>, b: map<Id, Process>, ids: seq<Id>)
    requires forall i | 0 <= i < |ids| :: ids[i] in a && ids[i] in b && a[ids[i]] == b[ids[i]]
    ensures WorkEntries(a, ids) == WorkEntries(b, ids)
  {
    if ids != [] {
      WorkEntriesFrame(a, b, ids[1..]);
    }
  }

  lemma OneWorkLog(s: State, done: set<Id>, id: Id)
    requires Inv(s, {}, Mid(done)) && id in s.processes && s.processes[id].state == Running && id !in done
    ensures Gains(s, ExecuteOne(s, id), WorkEntries(s.processes, [id]))
  {
    hide Inv, Gains, ExecuteOne, Unhosted;
    var p := s.processes[id];
    assert [id][1..] == [];
    if p.remainingTicks - 1 > 0 {
      WorkedOn(s, done, id);
      assert WorkEntries(s.processes, [id]) == [];
      GainsNothing(s);
      GainsDependsOn(s, s, s, ExecuteOne(s, id), []);
    } else {
      Completes(s, done, id);
      var released, completed := Entry(Released, id, p.nodeId), Entry(CompletedEvent, id, NO_ID);
      assert WorkEntries(s.processes, [id]) == [released, completed];
      EmitTwice(s, released, completed);
      CompletionEvents(s, id);
      var e := Emit(Emit(s, Released, id, p.nodeId), CompletedEvent, id, NO_ID);
      GainsDependsOn(s, s, e, Completion(s, id), [released, completed]);
    }
  }

  lemma CompletionEvents(s: State, id: Id)
    requires id in s.processes && s.processes[id].nodeId in s.nodes
    ensures var e := Emit(Emit(s, Released, id, s.processes[id].nodeId), CompletedEvent, id, NO_ID);
      Completion(s, id).events == e.events && Completion(s, id).sequence == e.sequence
  {
  }

  lemma {:induction false} WorkLog(s: State, done: set<Id>, ids: seq<Id>)
    requires Inv(s, {}, Mid(done)) && NoDuplicates(ids)
    requires forall i | 0 <= i < |ids| ::
      ids[i] in s.processes && s.processes[ids[i]].state == Running && ids[i] !in done
    ensures Gains(s, ExecuteAll(s, ids), WorkEntries(s.processes, ids))
    decreases |ids|
  {
    hide Inv, ExecuteOne, ExecutedRecord, Gains;
    if ids == [] {
      GainsNothing(s);
    } else {
      var id, rest := ids[0], ids[1..];
      ExecuteOneExact(s, done, id);
      OneWorkLog(s, done, id);
      var s1 := ExecuteOne(s, id);
      HeadAndRest(ids);
      assert forall i | 0 <= i < |rest| :: rest[i] == ids[i + 1] && rest[i] != id;
      WorkLog(s1, done + {id}, rest);
      WorkEntriesFrame(s1.processes, s.processes, rest);
      GainsCompose(s, s1, ExecuteAll(s1, rest), WorkEntries(s.processes, [id]), WorkEntries(s.processes, rest));
      assert [id][1..] == [];
      assert WorkEntries(s.processes, [id]) + WorkEntries(s.processes, rest) == WorkEntries(s.processes, ids);
    }
  }

  // ---------------------------------------------------------------- the whole tick

  /** The state once the due submissions are in. */
  ghost function AfterIntake(s: State): State {
    var due := DueSubmissions(s, s.tick);
    if |due| > 0 then
      var t := SubmitAll(s, SortDefinitions(due)).state;
      t.(pending := t.pending - {s.tick})
    else s
  }

  ghost function ActionEntries(s: State): seq<Entry> {
    ProcessEntries(NamesOf(SortDefinitions(DueSubmissions(s, s.tick))))
    + FailuresEntries(AfterIntake(s), DueFailures(s, s.tick))
  }

  lemma IntakeLog(s: State)
    requires Inv(s, {}, MID) && ApplyScheduled(s).error == Nil
    ensures Inv(AfterIntake(s), {}, MID) && AfterIntake(s).tick == s.tick && AfterIntake(s).failures == s.failures
    ensures Gains(s, AfterIntake(s), ProcessEntries(NamesOf(SortDefinitions(DueSubmissions(s, s.tick)))))
  {
    hide Inv, SubmitAll, ApplyFailures, Gains, SortDefinitions, ProcessEntries, NamesOf;
    var due := DueSubmissions(s, s.tick);
    if |due| > 0 {
      SubmitAllKeeps(s, SortDefinitions(due));
      SubmissionsLog(s, SortDefinitions(due));
      var t := SubmitAll(s, SortDefinitions(due)).state;
      StatusIsFree(t, {}, MID, AfterIntake(s));
      GainsDependsOn(s, s, t, AfterIntake(s), ProcessEntries(NamesOf(SortDefinitions(due))));
    } else {
      NoEntries(due);
      GainsNothing(s);
    }
  }

  lemma NoEntries(due: seq<ProcessDefinition>)
    requires |due| == 0
    ensures ProcessEntries(NamesOf(SortDefinitions(due))) == []
  {
  }

  lemma ActionsForm(s: State)
    requires ApplyScheduled(s).error == Nil
    ensures var r := ApplyFailures(AfterIntake(s), DueFailures(AfterIntake(s), s.tick));
      r.error == Nil && ApplyScheduled(s).state == r.state.(failures := r.state.failures - {s.tick})
  {
    hide SubmitAll, ApplyFailures, SortDefinitions;
  }

  lemma ActionsLog(s: State)
    requires Inv(s, {}, MID) && ApplyScheduled(s).error == Nil
    ensures Gains(s, ApplyScheduled(s).state, ActionEntries(s))
  {
    hide Inv, ApplyScheduled, ApplyFailures, AfterIntake, Gains, ProcessEntries, NamesOf, SortDefinitions,
         FailuresEntries;
    IntakeLog(s);
    ActionsForm(s);
    var t, fs := AfterIntake(s), DueFailures(s, s.tick);
    FailuresLog(t, fs);
    var u := ApplyFailures(t, fs).state;
    GainsDependsOn(t, t, u, ApplyScheduled(s).state, FailuresEntries(t, fs));
    GainsCompose(s, t, ApplyScheduled(s).state,
                 ProcessEntries(NamesOf(SortDefinitions(DueSubmissions(s, s.tick)))), FailuresEntries(t, fs));
  }

  lemma DetectionLog(s: State)
    requires Inv(s, {}, MID)
    ensures Gains(s, DetectMissedHeartbeats(s), StaleEntries(s.nodes, s.processes, SortedIds(StaleNow(s))))
  {
    hide Inv, FailStale, Gains, StaleEntries;
    var ids := SortedIds(StaleNow(s));
    if s.heartbeatTimeout > 0 {
      assert forall i | 0 <= i < |ids| :: ids[i] in ids && ids[i] in StaleNodes(s);
      StaleLog(s, ids);
    } else {
      NoneStale(s.nodes, s.processes);
      GainsNothing(s);
    }
  }

  lemma NoneStale(nodes: map<Id, Node>, processes: map<Id, Process>)
    ensures StaleEntries(nodes, processes, SortedIds({})) == []
  {
  }

  lemma ScheduleLog(s: State)
    requires Inv(s, {}, MID)
    ensures Gains(s, ScheduleReady(s), PassEntries(ReadyQueue(s), ScheduleReady(s).processes))
  {
    hide Inv, ReadyQueue, ScheduleAll, Gains, PassEntries;
    InvParts(s, {}, MID);
    ReadyQueueOk(s);
    PassLog(s, ReadyQueue(s));
  }

  lemma ExecutionLog(s: State)
    requires Inv(s, {}, MID)
    ensures Gains(s, ExecuteRunning(s), WorkEntries(s.processes, SortedIds(RunningSet(s))))
  {
    hide Inv, ExecuteAll, Gains, WorkEntries;
    var ids := SortedIds(RunningSet(s));
    assert forall i | 0 <= i < |ids| :: ids[i] in ids && ids[i] in RunningSet(s);
    WorkLog(s, {}, ids);
  }

  /** What a tick writes: submissions, failures, timeouts, decisions, completions, and perhaps the end. */
  ghost function TickEntries(s: State): seq<Entry> {
    var t := TrailOf(s);
    ActionEntries(BeginTick(s))
    + StaleEntries(t.acted.nodes, t.acted.processes, SortedIds(StaleNow(t.acted)))
    + PassEntries(ReadyQueue(t.alive), t.scheduled.processes)
    + WorkEntries(t.scheduled.processes, SortedIds(RunningSet(t.scheduled)))
    + if t.final.status == Completed then [Entry(SimulationFinished, NO_ID, NO_ID)] else []
  }

  lemma BeginLog(s: State)
    ensures Gains(s, BeginTick(s), if s.status == SimRunning then [] else [Entry(SimulationStarted, NO_ID, NO_ID)])
  {
    EmitGains(s, SimulationStarted, NO_ID, NO_ID);
    GainsNothing(s);
  }

  lemma FinalLog(s: State)
    requires Valid(s)
    ensures var t := TrailOf(s);
      Gains(t.sampled, t.final,
            WorkEntries(t.sampled.processes, SortedIds(RunningSet(t.sampled)))
            + if t.final.status == Completed then [Entry(SimulationFinished, NO_ID, NO_ID)] else [])
  {
    hide Inv, Valid, TrailOf, Gains, WorkEntries, AllOver, OutOfTicks, NothingCanHappen, StopIfDone, PassEffect,
         AllFuller;
    TrailIsValid(s);
    TrailEffects(s);
    TrailActs(s);
    var t := TrailOf(s);
    ExecutionLog(t.sampled);
    StopExactly(t.executed);
    GainsNothing(t.executed);
    GainsCompose(t.sampled, t.executed, t.final, WorkEntries(t.sampled.processes, SortedIds(RunningSet(t.sampled))),
                 if t.final.status == Completed then [Entry(SimulationFinished, NO_ID, NO_ID)] else []);
  }

  /** The log of a tick: a started simulation is noted at the tick before, and the rest at the new one, phase by
      phase and in each phase in its fixed order. */
  lemma TickLog(s: State)
    requires Valid(s) && Step(s).error == Nil
    ensures Gains(s, BeginTick(s), if s.status == SimRunning then [] else [Entry(SimulationStarted, NO_ID, NO_ID)])
    ensures BeginTick(s).tick == s.tick + 1
    ensures Gains(BeginTick(s), Step(s).state, TickEntries(s))
  {
    hide Inv, Valid, Step, TrailOf, Gains, BeginTick, ApplyScheduled, ActionEntries, StaleEntries, PassEntries,
         WorkEntries, ScheduleReady, DetectMissedHeartbeats, PassEffect, AllFuller, ReadyQueue;
    BeginLog(s);
    BeginFields(s);
    StepExact(s);
    TrailIsValid(s);
    TrailEffects(s);
    TrailActs(s);
    DetectedTrail(s);
    PassSettings(s);
    var b, t := BeginTick(s), TrailOf(s);
    var finish := if t.final.status == Completed then [Entry(SimulationFinished, NO_ID, NO_ID)] else [];
    var stale := StaleEntries(t.acted.nodes, t.acted.processes, SortedIds(StaleNow(t.acted)));
    var pass := PassEntries(ReadyQueue(t.alive), t.scheduled.processes);
    var work := WorkEntries(t.scheduled.processes, SortedIds(RunningSet(t.scheduled)));
    ActionsLog(b);
    DetectionLog(t.acted);
    ScheduleLog(t.alive);
    FinalLog(s);
    assert RunningSet(t.sampled) == RunningSet(t.scheduled);
    GainsDependsOn(t.alive, t.alive, t.scheduled, t.sampled, pass);
    GainsCompose(b, t.acted, t.alive, ActionEntries(b), stale);
    GainsCompose(b, t.alive, t.sampled, ActionEntries(b) + stale, pass);
    GainsCompose(b, t.sampled, t.final, ActionEntries(b) + stale + pass, work + finish);
    assert ActionEntries(b) + stale + pass + (work + finish) == TickEntries(s);
  }
}
