/** What is sampled is what is worked: CPU-ticks and memory-ticks are conserved over any run of ticks. */
module Conservation {
  import opened Domain
  import opened Ordering
  import opened Sums
  import opened Cluster
  import opened Placement
  import opened EventLog
  import opened Invariants
  import opened Failures
  import opened Scheduling
  import opened Tick
  import opened Progress

  // ---------------------------------------------------------------- allocation is demand

  ghost function Requests(processes: map<Id, Process>, ids: set<Id>, r: Resource): map<Id, int> {
    map p | p in ids && p in processes :: processes[p].Request(r)
  }

  ghost function Demand(processes: map<Id, Process>, ids: set<Id>, r: Resource): int {
    MapSum(Requests(processes, ids, r))
  }

  lemma DemandGrows(processes: map<Id, Process>, ids: set<Id>, x: Id, r: Resource)
    requires x in processes && x !in ids
    ensures Demand(processes, ids + {x}, r) == Demand(processes, ids, r) + processes[x].Request(r)
  {
    PutIn(Requests(processes, ids, r), x, processes[x].Request(r));
    assert Requests(processes, ids + {x}, r) == Requests(processes, ids, r)[x := processes[x].Request(r)];
  }

  lemma {:induction false} ListDemand(q: seq<Id>, processes: map<Id, Process>, r: Resource)
    requires NoDuplicates(q) && forall p | p in q :: p in processes
    ensures RequestSum(q, processes, r) == Demand(processes, Elements(q), r)
  {
    if q == [] {
      assert Requests(processes, Elements(q), r) == map[];
    } else {
      HeadAndRest(q);
      ListDemand(q[1..], processes, r);
      DemandGrows(processes, Elements(q[1..]), q[0], r);
    }
  }

  lemma DemandSplits(processes: map<Id, Process>, a: set<Id>, b: set<Id>, r: Resource)
    requires a !! b
    ensures Demand(processes, a + b, r) == Demand(processes, a, r) + Demand(processes, b, r)
  {
    SumOfUnion(Requests(processes, a, r), Requests(processes, b, r), Requests(processes, a + b, r));
  }

  ghost function AllocationsOn(nodes: map<Id, Node>, hosts: set<Id>, r: Resource): map<Id, int> {
    map n | n in hosts && n in nodes :: nodes[n].AllocatedOf(r)
  }

  lemma NodeDemand(s: State, phase: Phase, n: Id, r: Resource)
    requires Inv(s, {}, phase) && n in s.nodes
    ensures s.nodes[n].AllocatedOf(r) == Demand(s.processes, RunningOn(s.processes, {n}), r)
  {
    hide Logged, RecordsOk;
    assert NodeOk(s.nodes[n], n, s.processes, {});
    ListIsRunningOn(s, phase, n);
    ListDemand(s.nodes[n].running, s.processes, r);
  }

  lemma {:induction false} HostsDemand(s: State, phase: Phase, hosts: set<Id>, r: Resource)
    requires Inv(s, {}, phase) && hosts <= s.nodes.Keys
    ensures MapSum(AllocationsOn(s.nodes, hosts, r)) == Demand(s.processes, RunningOn(s.processes, hosts), r)
    decreases |hosts|
  {
    hide Inv, Demand;
    if hosts == {} {
      assert AllocationsOn(s.nodes, hosts, r) == map[];
      EmptyDemand(s.processes, RunningOn(s.processes, {}), r);
    } else {
      var n :| n in hosts;
      var rest := hosts - {n};
      assert hosts == rest + {n};
      HostsDemand(s, phase, rest, r);
      NodeDemand(s, phase, n, r);
      PutIn(AllocationsOn(s.nodes, rest, r), n, s.nodes[n].AllocatedOf(r));
      assert AllocationsOn(s.nodes, hosts, r) == AllocationsOn(s.nodes, rest, r)[n := s.nodes[n].AllocatedOf(r)];
      DemandSplits(s.processes, RunningOn(s.processes, rest), RunningOn(s.processes, {n}), r);
      assert RunningOn(s.processes, hosts) == RunningOn(s.processes, rest) + RunningOn(s.processes, {n});
    }
  }

  lemma EmptyDemand(processes: map<Id, Process>, ids: set<Id>, r: Resource)
    requires ids == {}
    ensures Demand(processes, ids, r) == 0
  {
    assert Requests(processes, ids, r) == map[];
  }

  /** In a valid state the allocation over all nodes is the demand of exactly the RUNNING processes. */
  lemma AllocationIsDemand(s: State, phase: Phase, r: Resource)
    requires Inv(s, {}, phase)
    ensures TotalAllocated(s.nodes, r) == Demand(s.processes, RunningSet(s), r)
  {
    hide Logged, RecordsOk, Demand;
    HostsDemand(s, phase, s.nodes.Keys, r);
    assert AllocationsOn(s.nodes, s.nodes.Keys, r) == Allocations(s.nodes, r);
    assert forall p | p in s.processes :: PlacedOk(s.processes[p], p, s.nodes, {});
    assert RunningOn(s.processes, s.nodes.Keys) == RunningSet(s);
  }

  // ---------------------------------------------------------------- one tick

  ghost function UtilizationSum(s: State, r: Resource): real {
    match r case CPU => s.stats.cpuUtilizationSum case Memory => s.stats.memoryUtilizationSum
  }

  /** The processes a successful tick works on: those RUNNING when utilization is sampled. */
  ghost function Worked(s: State): set<Id> {
    if Step(s).error == Nil then RunningSet(TrailOf(s).scheduled) else {}
  }

  // ---------------------------------------------------------------- what a tick does before it works

  ghost predicate SameShape(a: map<Id, Node>, b: map<Id, Node>) {
    a.Keys == b.Keys
    && forall n | n in a :: a[n].cpuCapacity == b[n].cpuCapacity && a[n].memoryCapacity == b[n].memoryCapacity
  }

  lemma ShapeKeepsCapacity(a: map<Id, Node>, b: map<Id, Node>, r: Resource)
    requires SameShape(a, b)
    ensures TotalCapacity(a, r) == TotalCapacity(b, r)
  {
    assert Capacities(a, r) == Capacities(b, r);
  }

  /** The same job later: either no restart and no work undone, or restarted from the beginning. */
  ghost predicate Carried(p: Process, q: Process) {
    && SameJob(p, q)
    && ((q.restartCount == p.restartCount && q.remainingTicks == p.remainingTicks)
        || (q.restartCount > p.restartCount && q.remainingTicks == q.totalTicks))
  }

  predicate SameJob(p: Process, q: Process) {
    && q.id == p.id && q.cpuRequest == p.cpuRequest && q.memoryRequest == p.memoryRequest
    && q.totalTicks == p.totalTicks && q.submittedAt == p.submittedAt
  }

  /** What happens to the process table before work is done: jobs are carried over or new. */
  ghost predicate CarriedOver(a: map<Id, Process>, b: map<Id, Process>) {
    && a.Keys <= b.Keys
    && (forall id | id in a :: Carried(a[id], b[id]))
    && (forall id | id in b && id !in a :: b[id].remainingTicks == b[id].totalTicks && 0 <= b[id].restartCount)
  }

  lemma CarriedOverTransitive(a: map<Id, Process>, b: map<Id, Process>, c: map<Id, Process>)
    requires CarriedOver(a, b) && CarriedOver(b, c)
    ensures CarriedOver(a, c)
  {
  }

  lemma SubmitCarries(s: State, d: ProcessDefinition)
    ensures CarriedOver(s.processes, Submit(s, d).state.processes)
  {
  }

  lemma {:induction false} SubmitAllCarries(s: State, defs: seq<ProcessDefinition>)
    ensures CarriedOver(s.processes, SubmitAll(s, defs).state.processes)
    decreases |defs|
  {
    hide Submit, CarriedOver;
    if defs == [] {
      CarriedOverReflexive(s.processes);
    } else {
      SubmitCarries(s, defs[0]);
      var s1 := Submit(s, defs[0]).state;
      if Submit(s, defs[0]).error == Nil {
        SubmitAllCarries(s1, defs[1..]);
        CarriedOverTransitive(s.processes, s1.processes, SubmitAll(s1, defs[1..]).state.processes);
      }
    }
  }

  lemma CarriedOverReflexive(a: map<Id, Process>)
    ensures CarriedOver(a, a)
  {
  }

  lemma FailedIsCarried(p: Process, tick: int)
    ensures Carried(p, FailedRecord(p, tick))
  {
  }

  lemma FailureCarries(processes: map<Id, Process>, lost: set<Id>, tick: int)
    ensures CarriedOver(processes, AllFailed(processes, lost, tick))
  {
    forall id | id in processes ensures Carried(processes[id], AllFailed(processes, lost, tick)[id]) {
      FailedIsCarried(processes[id], tick);
    }
  }

  lemma OneFailureCarries(processes: map<Id, Process>, id: Id, tick: int)
    requires id in processes
    ensures CarriedOver(processes, processes[id := FailedRecord(processes[id], tick)])
  {
    FailedIsCarried(processes[id], tick);
  }

  lemma ApplyFailureCarries(s: State, f: FailureDefinition)
    requires Inv(s, {}, MID)
    ensures var t := ApplyFailure(s, f).state;
      CarriedOver(s.processes, t.processes) && SameShape(s.nodes, t.nodes)
  {
    hide Inv, FailNodeLocked, FailProcessLocked, CarriedOver, FailedRecord;
    ApplyFailureExact(s, f);
    CarriedOverReflexive(s.processes);
    if f.kind == NodeFailure && f.nodeId in s.nodes {
      FailNodeExact(s, MID, f.nodeId);
      FailureCarries(s.processes, Elements(s.nodes[f.nodeId].running), s.tick);
    } else if f.kind == ProcessFailure && f.processId in s.processes {
      FailProcessExact(s, {}, MID, f.processId);
      OneFailureCarries(s.processes, f.processId, s.tick);
    }
  }

  lemma ShapeTransitive(a: map<Id, Node>, b: map<Id, Node>, c: map<Id, Node>)
    requires SameShape(a, b) && SameShape(b, c)
    ensures SameShape(a, c)
  {
  }

  lemma {:induction false} ApplyFailuresCarry(s: State, fs: seq<FailureDefinition>)
    requires Inv(s, {}, MID)
    ensures var t := ApplyFailures(s, fs).state;
      CarriedOver(s.processes, t.processes) && SameShape(s.nodes, t.nodes)
    decreases |fs|
  {
    hide Inv, ApplyFailure, CarriedOver, SameShape;
    if fs == [] {
      CarriedOverReflexive(s.processes);
      ShapeReflexive(s.nodes);
    } else {
      ApplyFailureExact(s, fs[0]);
      ApplyFailureCarries(s, fs[0]);
      var s1 := ApplyFailure(s, fs[0]).state;
      if FailureApplies(s, fs[0]) {
        ApplyFailuresCarry(s1, fs[1..]);
        CarriedOverTransitive(s.processes, s1.processes, ApplyFailures(s1, fs[1..]).state.processes);
        ShapeTransitive(s.nodes, s1.nodes, ApplyFailures(s1, fs[1..]).state.nodes);
      }
    }
  }

  lemma ShapeReflexive(a: map<Id, Node>)
    ensures SameShape(a, a)
  {
  }

  lemma ActionsCarry(s: State)
    requires Inv(s, {}, MID)
    ensures var t := ApplyScheduled(s).state;
      CarriedOver(s.processes, t.processes) && SameShape(s.nodes, t.nodes)
  {
    hide Inv, SubmitAll, ApplyFailures, SortDefinitions, CarriedOver, SameShape;
    var due := DueSubmissions(s, s.tick);
    SubmitAllKeeps(s, SortDefinitions(due));
    SubmitAllCarries(s, SortDefinitions(due));
    CarriedOverReflexive(s.processes);
    ShapeReflexive(s.nodes);
    var r := if |due| > 0 then SubmitAll(s, SortDefinitions(due)) else Reply(s, Nil);
    if r.error == Nil {
      var s1 := if |due| > 0 then r.state.(pending := r.state.pending - {s.tick}) else r.state;
      StatusIsFree(r.state, {}, MID, s1);
      ApplyFailuresCarry(s1, DueFailures(s1, s.tick));
      CarriedOverTransitive(s.processes, s1.processes, ApplyFailures(s1, DueFailures(s1, s.tick)).state.processes);
    }
  }

  lemma PassCarries(s: State, t: State, queue: seq<Process>)
    requires PassEffect(s, t, queue)
    ensures CarriedOver(s.processes, t.processes) && SameShape(s.nodes, t.nodes)
  {
    assert forall n | n in s.nodes :: Fuller(s.nodes[n], t.nodes[n]);
    forall id | id in s.processes ensures Carried(s.processes[id], t.processes[id]) {
      assert if InQueue(queue, id) then Decided(s, t, id) else t.processes[id] == s.processes[id];
    }
  }

  /** Up to the moment of sampling, a tick only carries jobs over. */
  lemma TrailCarries(s: State)
    requires Valid(s)
    ensures var t := TrailOf(s);
      && CarriedOver(s.processes, t.scheduled.processes)
      && SameShape(s.nodes, t.scheduled.nodes) && SameShape(s.nodes, t.final.nodes)
  {
    hide Inv, Valid, TrailOf, ApplyScheduled, BeginTick, PassEffect, CarriedOver, ReadyQueue, AllFailed, AllExecuted;
    BeginTickKeeps(s);
    BeginFields(s);
    ActionsCarry(BeginTick(s));
    TrailActs(s);
    TrailEffects(s);
    var t := TrailOf(s);
    FailureCarries(t.acted.processes, RunningOn(t.acted.processes, StaleNow(t.acted)), t.acted.tick);
    CarriedOverTransitive(s.processes, t.acted.processes, t.alive.processes);
    assert SameShape(t.acted.nodes, t.alive.nodes);
    PassCarries(t.alive, t.scheduled, ReadyQueue(t.alive));
    CarriedOverTransitive(s.processes, t.alive.processes, t.scheduled.processes);
    ShapeTransitive(s.nodes, t.acted.nodes, t.alive.nodes);
    ShapeTransitive(s.nodes, t.alive.nodes, t.scheduled.nodes);
    FillingKeepsShape(t.executed.nodes, t.scheduled.nodes);
    ShapeTransitive(s.nodes, t.scheduled.nodes, t.executed.nodes);
  }

  lemma FillingKeepsShape(a: map<Id, Node>, b: map<Id, Node>)
    requires AllFuller(a, b)
    ensures SameShape(b, a)
  {
    assert forall n | n in a :: Fuller(a[n], b[n]);
  }

  // ---------------------------------------------------------------- one tick

  lemma SamplingAdds(s: State, r: Resource)
    ensures UtilizationSum(SampleUtilization(s), r) == UtilizationSum(s, r) + Utilization(s.nodes, r)
  {
  }

  lemma TrailSamples(s: State, r: Resource)
    requires Valid(s)
    ensures UtilizationSum(TrailOf(s).final, r)
         == UtilizationSum(s, r) + Utilization(TrailOf(s).scheduled.nodes, r)
  {
    hide Inv, Valid, TrailOf, ApplyScheduled, Utilization, PassEffect, AllFuller;
    BeginTickKeeps(s);
    BeginFields(s);
    ApplyScheduledKeeps(BeginTick(s));
    TrailActs(s);
    TrailEffects(s);
    PassSettings(s);
    SamplingAdds(TrailOf(s).scheduled, r);
  }

  lemma AllocatedWithinCapacity(s: State, phase: Phase, r: Resource)
    requires Inv(s, {}, phase)
    ensures 0 <= TotalAllocated(s.nodes, r) <= TotalCapacity(s.nodes, r)
  {
    hide Logged, RecordsOk;
    assert forall n | n in s.nodes :: NodeOk(s.nodes[n], n, s.processes, {});
    SumIsNonNegative(Allocations(s.nodes, r));
    SumIsMonotone(Allocations(s.nodes, r), Capacities(s.nodes, r));
  }

  /** Utilization times capacity is allocation, also on an empty cluster. */
  lemma UtilizationTimesCapacity(s: State, phase: Phase, r: Resource)
    requires Inv(s, {}, phase)
    ensures Utilization(s.nodes, r) * TotalCapacity(s.nodes, r) as real == TotalAllocated(s.nodes, r) as real
    ensures 0.0 <= Utilization(s.nodes, r) <= 1.0
  {
    hide Inv, TotalAllocated, TotalCapacity;
    AllocatedWithinCapacity(s, phase, r);
    if TotalCapacity(s.nodes, r) > 0 {
      RatioTimesWhole(TotalAllocated(s.nodes, r) as real, TotalCapacity(s.nodes, r) as real);
    }
  }

  lemma RatioTimesWhole(part: real, whole: real)
    requires 0.0 <= part <= whole && 0.0 < whole
    ensures part / whole * whole == part && 0.0 <= part / whole <= 1.0
  {
  }

  /** One tick: utilization gained times capacity is the demand of exactly the processes worked on. */
  lemma TickConserves(s: State, r: Resource)
    requires Valid(s)
    ensures (UtilizationSum(Step(s).state, r) - UtilizationSum(s, r)) * TotalCapacity(s.nodes, r) as real
         == Demand(TrailOf(s).scheduled.processes, Worked(s), r) as real
    ensures TotalCapacity(Step(s).state.nodes, r) == TotalCapacity(s.nodes, r)
  {
    hide Inv, Valid, TrailOf, Step, Utilization, TotalCapacity, TotalAllocated, Demand, SameShape, CarriedOver;
    StepExact(s);
    if Step(s).error == Nil {
      var t := TrailOf(s);
      TrailIsValid(s);
      TrailCarries(s);
      ShapeKeepsCapacity(s.nodes, t.scheduled.nodes, r);
      ShapeKeepsCapacity(s.nodes, t.final.nodes, r);
      TrailSamples(s, r);
      UtilizationTimesCapacity(t.scheduled, MID, r);
      AllocationIsDemand(t.scheduled, MID, r);
    } else {
      EmptyDemand(TrailOf(s).scheduled.processes, {}, r);
    }
  }

  /** One tick, process by process: a process the tick did not restart lost one remaining tick if it was
      worked on, and none otherwise; one it restarted, or a new one, starts from its full length. */
  lemma TickWorks(s: State, id: Id)
    requires Valid(s) && id in Step(s).state.processes
    ensures var q := Step(s).state.processes[id];
      var worked := if id in Worked(s) then 1 else 0;
      if id in s.processes then
        && SameJob(s.processes[id], q) && s.processes[id].restartCount <= q.restartCount
        && (q.restartCount == s.processes[id].restartCount ==>
              q.remainingTicks == s.processes[id].remainingTicks - worked)
        && (q.restartCount > s.processes[id].restartCount ==> q.remainingTicks == q.totalTicks - worked)
      else q.remainingTicks == q.totalTicks - worked && 0 <= q.restartCount
    ensures Step(s).error == Nil || id in s.processes
  {
    hide Inv, Valid, TrailOf, Step, SameShape, AllFuller, PassEffect;
    StepExact(s);
    if Step(s).error == Nil {
      TrailCarries(s);
      TrailEffects(s);
      var t := TrailOf(s);
      assert t.final.processes[id] == if id in Worked(s)
                                      then ExecutedRecord(t.scheduled.processes[id], t.scheduled.tick)
                                      else t.scheduled.processes[id];
    }
  }

  // ---------------------------------------------------------------- runs of ticks

  /** The state after k ticks, failing ones included. */
  ghost function AfterTicks(s: State, k: nat): State {
    if k == 0 then s else Step(AfterTicks(s, k - 1)).state
  }

  /** In how many of the first k ticks the process was worked on. */
  ghost function TicksWorked(s: State, k: nat, id: Id): nat {
    if k == 0 then 0
    else TicksWorked(s, k - 1, id) + if id in Worked(AfterTicks(s, k - 1)) then 1 else 0
  }

  ghost function WorkDone(s: State, k: nat, r: Resource): map<Id, int> {
    var processes := AfterTicks(s, k).processes;
    map id | id in processes :: processes[id].Request(r) * TicksWorked(s, k, id)
  }

  lemma {:induction false} AfterTicksValid(s: State, k: nat)
    requires Valid(s)
    ensures Valid(AfterTicks(s, k))
  {
    hide Valid, Step;
    if k > 0 {
      AfterTicksValid(s, k - 1);
      StepExact(AfterTicks(s, k - 1));
    }
  }

  lemma WorkedAreRunning(s: State)
    requires Valid(s)
    ensures Worked(s) <= TrailOf(s).scheduled.processes.Keys
    ensures Step(s).error == Nil ==> Step(s).state.processes.Keys == TrailOf(s).scheduled.processes.Keys
  {
    hide Inv, Valid, TrailOf, Step, PassEffect, AllFuller;
    StepExact(s);
    TrailEffects(s);
  }

  lemma {:induction false} OnlyKnownAreWorked(s: State, k: nat, id: Id)
    requires Valid(s) && id !in AfterTicks(s, k).processes
    ensures TicksWorked(s, k, id) == 0
  {
    hide Valid, Step, Worked, TrailOf;
    if k > 0 {
      var t := AfterTicks(s, k - 1);
      AfterTicksValid(s, k - 1);
      WorkedAreRunning(t);
      TablesGrow(t);
      OnlyKnownAreWorked(s, k - 1, id);
      NotWorkedUnlessOk(t);
    }
  }

  lemma NotWorkedUnlessOk(s: State)
    ensures Step(s).error != Nil ==> Worked(s) == {}
  {
  }

  lemma TablesGrow(s: State)
    requires Valid(s)
    ensures s.processes.Keys <= Step(s).state.processes.Keys
  {
    hide Valid, Step;
    StepExact(s);
    if Step(s).error == Nil {
      ProcessesRemain(s);
    }
  }

  /** Earlier work, over the process table one tick later. */
  ghost function EarlierWork(s: State, k: nat, r: Resource): map<Id, int> {
    var processes := AfterTicks(s, k + 1).processes;
    map id | id in processes :: processes[id].Request(r) * TicksWorked(s, k, id)
  }

  ghost function WorkNow(processes: map<Id, Process>, worked: set<Id>, r: Resource): map<Id, int> {
    map id | id in processes :: if id in worked then processes[id].Request(r) else 0
  }

  lemma WorkOfEach(s: State, k: nat, r: Resource, id: Id)
    requires Valid(s) && id in AfterTicks(s, k + 1).processes
    ensures var t, u := AfterTicks(s, k), AfterTicks(s, k + 1);
      && WorkDone(s, k + 1, r)[id] == EarlierWork(s, k, r)[id] + WorkNow(u.processes, Worked(t), r)[id]
      && EarlierWork(s, k, r)[id] == if id in t.processes then WorkDone(s, k, r)[id] else 0
  {
    hide Valid, Step, Worked, TrailOf;
    var t, u := AfterTicks(s, k), AfterTicks(s, k + 1);
    AfterTicksValid(s, k);
    TickWorks(t, id);
    if id in t.processes {
      assert u.processes[id].Request(r) == t.processes[id].Request(r);
    } else {
      OnlyKnownAreWorked(s, k, id);
    }
    var n := TicksWorked(s, k, id);
    assert u.processes[id].Request(r) * (n + 1) == u.processes[id].Request(r) * n + u.processes[id].Request(r);
  }

  lemma DemandIsWorkNow(processes: map<Id, Process>, worked: set<Id>, r: Resource)
    requires worked <= processes.Keys
    ensures Demand(processes, worked, r) == MapSum(WorkNow(processes, worked, r))
  {
    PadWithZeros(Requests(processes, worked, r), WorkNow(processes, worked, r));
  }

  /** The work of one tick, added to the work of the ticks before. */
  lemma WorkAdds(s: State, k: nat, r: Resource)
    requires Valid(s)
    ensures var t := AfterTicks(s, k);
      MapSum(WorkDone(s, k + 1, r)) == MapSum(WorkDone(s, k, r)) + Demand(TrailOf(t).scheduled.processes, Worked(t), r)
  {
    hide Valid, Step, Worked, TrailOf, Demand, TicksWorked;
    var t, u := AfterTicks(s, k), AfterTicks(s, k + 1);
    AfterTicksValid(s, k);
    TablesGrow(t);
    WorkedAreRunning(t);
    NotWorkedUnlessOk(t);
    forall id | id in u.processes
      ensures WorkDone(s, k + 1, r)[id] == EarlierWork(s, k, r)[id] + WorkNow(u.processes, Worked(t), r)[id]
      ensures EarlierWork(s, k, r)[id] == if id in t.processes then WorkDone(s, k, r)[id] else 0
    {
      WorkOfEach(s, k, r, id);
    }
    SumAdds(EarlierWork(s, k, r), WorkNow(u.processes, Worked(t), r), WorkDone(s, k + 1, r));
    PadWithZeros(WorkDone(s, k, r), EarlierWork(s, k, r));
    SameDemand(t, u, r);
    DemandIsWorkNow(u.processes, Worked(t), r);
  }

  /** Keys with value 0 do not change a sum. */
  lemma {:induction false} PadWithZeros(a: map<Id, int>, b: map<Id, int>)
    requires a.Keys <= b.Keys
    requires forall k | k in b :: b[k] == if k in a then a[k] else 0
    ensures MapSum(a) == MapSum(b)
    decreases |b|
  {
    if b.Keys == {} {
      SameMap(b, a);
    } else {
      var k :| k in b;
      var b' := Remove(b, k);
      if k in a {
        var a' := Remove(a, k);
        PadWithZeros(a', b');
      } else {
        PadWithZeros(a, b');
      }
    }
  }

  lemma SameDemand(t: State, u: State, r: Resource)
    requires Valid(t) && u == Step(t).state
    ensures Demand(TrailOf(t).scheduled.processes, Worked(t), r) == Demand(u.processes, Worked(t), r)
  {
    hide Valid, Step, TrailOf, PassEffect, AllFuller;
    StepExact(t);
    TrailEffects(t);
    NotWorkedUnlessOk(t);
    if Step(t).error == Nil {
      var p := TrailOf(t).scheduled.processes;
      assert Requests(p, Worked(t), r) == Requests(u.processes, Worked(t), r);
    } else {
      EmptyDemand(TrailOf(t).scheduled.processes, Worked(t), r);
      EmptyDemand(u.processes, Worked(t), r);
    }
  }

  /** CPU-tick and memory-tick conservation over any run of ticks: summed utilization times the
      cluster's capacity is the sum over all processes of request times ticks worked. */
  lemma {:induction false} RunConserves(s: State, k: nat, r: Resource)
    requires Valid(s)
    ensures (UtilizationSum(AfterTicks(s, k), r) - UtilizationSum(s, r)) * TotalCapacity(s.nodes, r) as real
         == MapSum(WorkDone(s, k, r)) as real
    ensures TotalCapacity(AfterTicks(s, k).nodes, r) == TotalCapacity(s.nodes, r)
  {
    hide Valid, Step, Worked, TrailOf, TotalCapacity, Demand, UtilizationSum, WorkDone, MapSum;
    if k == 0 {
      NoWorkYet(s, r);
    } else {
      RunConserves(s, k - 1, r);
      AfterTicksValid(s, k - 1);
      TickConserves(AfterTicks(s, k - 1), r);
      WorkAdds(s, k - 1, r);
      InTwoSteps(UtilizationSum(s, r), UtilizationSum(AfterTicks(s, k - 1), r), UtilizationSum(AfterTicks(s, k), r),
                 TotalCapacity(s.nodes, r) as real);
    }
  }

  lemma InTwoSteps(a: real, b: real, c: real, capacity: real)
    ensures (c - a) * capacity == (b - a) * capacity + (c - b) * capacity
  {
  }

  lemma NoWorkYet(s: State, r: Resource)
    ensures MapSum(WorkDone(s, 0, r)) == 0
  {
    PadWithZeros(map[], WorkDone(s, 0, r));
  }

  /** Without restarts, ticks worked are exactly the ticks no longer remaining. */
  lemma {:induction false} WorkIsProgress(s: State, k: nat, id: Id)
    requires Valid(s) && id in AfterTicks(s, k).processes
    ensures var q := AfterTicks(s, k).processes[id];
      && (id in s.processes ==> s.processes[id].restartCount <= q.restartCount && SameJob(s.processes[id], q))
      && (id !in s.processes ==> 0 <= q.restartCount)
      && (q.restartCount == (if id in s.processes then s.processes[id].restartCount else 0) ==>
            TicksWorked(s, k, id)
            == (if id in s.processes then s.processes[id].remainingTicks else q.totalTicks) - q.remainingTicks)
  {
    hide Valid, Step, Worked;
    if k > 0 {
      var t := AfterTicks(s, k - 1);
      AfterTicksValid(s, k - 1);
      TickWorks(t, id);
      if id in t.processes {
        WorkIsProgress(s, k - 1, id);
      } else {
        OnlyKnownAreWorked(s, k - 1, id);
        TablesOnlyGrow(s, k - 1);
      }
    }
  }

  lemma {:induction false} TablesOnlyGrow(s: State, k: nat)
    requires Valid(s)
    ensures s.processes.Keys <= AfterTicks(s, k).processes.Keys
  {
    hide Valid, Step;
    if k > 0 {
      TablesOnlyGrow(s, k - 1);
      AfterTicksValid(s, k - 1);
      TablesGrow(AfterTicks(s, k - 1));
    }
  }

  ghost function Progressed(s: State, r: Resource): map<Id, int> {
    map id | id in s.processes ::
        s.processes[id].Request(r) * (s.processes[id].totalTicks - s.processes[id].remainingTicks)
  }

  /** A run from a state in which no work has been done yet: if nothing was ever restarted, summed
      utilization times capacity is the sum of request times ticks progressed. */
  lemma FreshRunConserves(s: State, k: nat, r: Resource)
    requires Valid(s) && UtilizationSum(s, r) == 0.0
    requires forall id | id in s.processes ::
      s.processes[id].remainingTicks == s.processes[id].totalTicks && s.processes[id].restartCount == 0
    requires forall id | id in AfterTicks(s, k).processes :: AfterTicks(s, k).processes[id].restartCount == 0
    ensures UtilizationSum(AfterTicks(s, k), r) * TotalCapacity(s.nodes, r) as real
         == MapSum(Progressed(AfterTicks(s, k), r)) as real
  {
    hide Valid, AfterTicks, TicksWorked;
    RunConserves(s, k, r);
    forall id | id in AfterTicks(s, k).processes ensures WorkDone(s, k, r)[id] == Progressed(AfterTicks(s, k), r)[id] {
      WorkIsProgress(s, k, id);
    }
    assert WorkDone(s, k, r) == Progressed(AfterTicks(s, k), r);
  }
}
