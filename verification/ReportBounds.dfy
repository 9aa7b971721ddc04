/** What a report can show, in any reachable state. */
module ReportBounds {
  import opened Domain
  import opened Sums
  import opened Schedulers
  import opened Cluster
  import opened Scenarios
  import opened Placement
  import opened EventLog
  import opened Invariants
  import opened Failures
  import opened Scheduling
  import opened Tick
  import opened Progress
  import opened Conservation
  import opened Loading
  import opened Runs
  import opened Histories
  import opened WaitingTime
  import opened Reports
  import opened Sampling

  // ---------------------------------------------------------------- variance of values between 0 and 1

  ghost predicate UnitValues(m: map<Id, real>) {
    forall k | k in m :: 0.0 <= m[k] <= 1.0
  }

  /** The sum of squared deviations from c of n unit values, if every value equalled its own square. */
  function Bound(sum: real, n: real, c: real): real {
    sum - 2.0 * c * sum + n * c * c
  }

  /** Squared deviations from c, when every value is at least its own square. */
  lemma {:induction false} DeviationsBounded(m: map<Id, real>, c: real)
    requires UnitValues(m)
    ensures 0.0 <= RealSum(SquaredDeviations(m, c)) <= Bound(RealSum(m), |m| as real, c)
    decreases |m|
  {
    hide RealSum, SquaredDeviations, Bound;
    if m.Keys == {} {
      assert m == map[];
      NoDeviations(c);
    } else {
      var k :| k in m;
      RealTakeOut(m, k);
      DeviationsSplit(m, c, k);
      DeviationsBounded(m - {k}, c);
      OneDeviation(m[k], c);
      OneFewer(m, k);
      Combine(m[k], c, RealSum(m - {k}), RealSum(SquaredDeviations(m - {k}, c)), |m - {k}| as real);
    }
  }

  /** The bound for one value more. */
  lemma Combine(x: real, c: real, sum: real, deviations: real, n: real)
    requires 0.0 <= (x - c) * (x - c) <= x - 2.0 * c * x + c * c
    requires 0.0 <= deviations <= Bound(sum, n, c)
    ensures 0.0 <= (x - c) * (x - c) + deviations <= Bound(x + sum, n + 1.0, c)
  {
    MoreDeviations(x, c, sum, n);
  }

  lemma NoDeviations(c: real)
    ensures RealSum(map[]) == 0.0 && RealSum(SquaredDeviations(map[], c)) == 0.0 && Bound(0.0, 0.0, c) == 0.0
  {
    assert SquaredDeviations(map[], c) == map[];
  }

  lemma DeviationsSplit(m: map<Id, real>, c: real, k: Id)
    requires k in m
    ensures RealSum(SquaredDeviations(m, c)) == (m[k] - c) * (m[k] - c) + RealSum(SquaredDeviations(m - {k}, c))
  {
    hide SquaredDeviations, RealSum;
    SquaresAre(m, c);
    SquaresAre(m - {k}, c);
    RealTakeOut(SquaredDeviations(m, c), k);
    var a, b := SquaredDeviations(m, c) - {k}, SquaredDeviations(m - {k}, c);
    assert a.Keys == m.Keys - {k} && b.Keys == m.Keys - {k};
    forall j | j in a ensures a[j] == b[j] {
      assert (m - {k})[j] == m[j];
    }
    assert a == b;
  }

  lemma OneFewer(m: map<Id, real>, k: Id)
    requires k in m
    ensures |m| == |m - {k}| + 1
  {
    assert m.Keys == (m - {k}).Keys + {k};
    assert k !in (m - {k}).Keys;
    assert |m.Keys| == |(m - {k}).Keys| + 1;
  }

  lemma OneDeviation(x: real, c: real)
    requires 0.0 <= x <= 1.0
    ensures 0.0 <= (x - c) * (x - c) <= x - 2.0 * c * x + c * c
  {
    assert x * x <= x by { assert x * (1.0 - x) >= 0.0; }
    assert (x - c) * (x - c) == x * x - 2.0 * c * x + c * c;
    SquareNonNegative(x - c);
  }

  lemma SquareNonNegative(x: real)
    ensures x * x >= 0.0
  {
  }

  lemma MoreDeviations(x: real, c: real, sum: real, n: real)
    ensures (x - 2.0 * c * x + c * c) + (sum - 2.0 * c * sum + n * c * c)
         == (x + sum) - 2.0 * c * (x + sum) + (n + 1.0) * c * c
  {
  }

  lemma MeanBound(n: real, sum: real, mean: real)
    requires n > 0.0 && mean * n == sum
    ensures Bound(sum, n, mean) <= n * 0.25
  {
    assert sum - 2.0 * mean * sum + n * mean * mean == n * (mean - mean * mean);
    SquareNonNegative(mean - 0.5);
    assert (mean - 0.5) * (mean - 0.5) == mean * mean - mean + 0.25;
    var slack := 0.25 - (mean - mean * mean);
    assert slack >= 0.0 && n * slack >= 0.0;
    assert n * slack == n * 0.25 - n * (mean - mean * mean);
  }

  /** The variance of values between 0 and 1 is at most 1/4. */
  lemma VarianceAtMostQuarter(m: map<Id, real>)
    requires UnitValues(m)
    ensures 0.0 <= Variance(m) <= 0.25
  {
    hide RealSum, SquaredDeviations, Bound;
    if m != map[] {
      var mean := Mean(m);
      var n := |m| as real;
      DeviationsBounded(m, mean);
      assert |m| > 0 by { assert m.Keys != {}; }
      assert mean * n == RealSum(m);
      MeanBound(n, RealSum(m), mean);
      Divide(RealSum(SquaredDeviations(m, mean)), n);
    }
  }

  lemma Divide(x: real, n: real)
    requires n > 0.0 && 0.0 <= x <= n * 0.25
    ensures 0.0 <= x / n <= 0.25
  {
  }

  lemma LoadsAreUnit(s: State, phase: Phase)
    requires Inv(s, {}, phase)
    ensures UnitValues(Loads(s.nodes))
  {
    hide Logged, RecordsOk;
    forall n | n in s.nodes ensures 0.0 <= LoadScore(s.nodes[n].Snapshot()) <= 1.0 {
      assert NodeOk(s.nodes[n], n, s.processes, {});
      Share(s.nodes[n].cpuAllocated, s.nodes[n].cpuCapacity);
      Share(s.nodes[n].memoryAllocated, s.nodes[n].memoryCapacity);
    }
  }

  lemma Share(a: int, b: pos)
    requires 0 <= a <= b
    ensures 0.0 <= a as real / b as real <= 1.0
  {
  }

  // ---------------------------------------------------------------- the samples of a run

  /** Each sample added between 0 and 1 to the utilization sums, and at most one variance of at most 1/4. */
  ghost predicate SamplesOk(stats: Statistics) {
    && 0.0 <= stats.cpuUtilizationSum <= stats.utilizationSamples as real
    && 0.0 <= stats.memoryUtilizationSum <= stats.utilizationSamples as real
    && |stats.loadVariances| <= stats.utilizationSamples
    && forall i | 0 <= i < |stats.loadVariances| :: 0.0 <= stats.loadVariances[i] <= 0.25
  }

  lemma SampleAdds(s: State)
    requires Inv(s, {}, MID) && SamplesOk(s.stats)
    ensures SamplesOk(SampleUtilization(s).stats)
  {
    hide Inv, Utilization, Variance, Loads;
    UtilizationTimesCapacity(s, MID, CPU);
    UtilizationTimesCapacity(s, MID, Memory);
    LoadsAreUnit(s, MID);
    VarianceAtMostQuarter(Loads(s.nodes));
  }

  lemma SamplesDependOn(a: Statistics, b: Statistics)
    requires SamplesOk(a) && SameSamples(a, b)
    ensures SamplesOk(b)
  {
  }

  lemma TickSamples(s: State)
    requires Valid(s) && SamplesOk(s.stats)
    ensures SamplesOk(Step(s).state.stats)
  {
    hide Inv, Valid, Step, TrailOf, ApplyScheduled, BeginTick, PassEffect, AllFuller, SamplesOk, SampleUtilization;
    StepExact(s);
    if Step(s).error == Nil {
      TrailIsValid(s);
      TrailActs(s);
      TrailEffects(s);
      PassSettings(s);
      var t := TrailOf(s);
      SamplesDependOn(s.stats, t.scheduled.stats);
      SampleAdds(t.scheduled);
      SamplesDependOn(t.sampled.stats, t.final.stats);
    }
  }

  lemma {:induction false} LoopSamples(s: State, count: nat)
    requires Valid(s) && SamplesOk(s.stats)
    ensures SamplesOk(StepLoop(s, count).state.stats)
    decreases count
  {
    hide Valid, Step, SamplesOk, TrailOf;
    if count > 0 {
      TickSamples(s);
      StepExact(s);
      LoopSamples(Step(s).state, count - 1);
    }
  }

  lemma ReleaseSamples(s: State, id: Id)
    requires id in s.processes
    ensures SameSamples(s.stats, Release(s, id).state.stats) && id in Release(s, id).state.processes
  {
  }

  lemma ProcessCommandSamples(s: State, c: Command)
    requires c.CmdSubmit? || c.CmdPause? || c.CmdResume? || c.CmdWait? || c.CmdWake? || c.CmdKill?
    ensures SameSamples(s.stats, Execute(s, c).state.stats)
  {
    hide Release, Step, Steps, RegisterNode, RemoveNode, ChangeNodeStatus, FailNode, RecoverNode, Heartbeat,
         FailProcess, SetScheduler, Start, PauseSimulation, Reset, Finish, LoadScenario, NewProcess;
    if !c.CmdSubmit? && c.id in s.processes {
      ReleaseSamples(s, c.id);
    }
  }

  lemma FailureSamples(s: State, c: Command)
    requires Valid(s) && (c.CmdFailProcess? || c.CmdFailNode? || (c.CmdChangeNodeStatus? && c.to == NodeFailed))
    ensures SameSamples(s.stats, Execute(s, c).state.stats)
  {
    hide Inv, FailNodeLocked, FailProcessLocked, Step, Steps, Submit, Suspend, Requeue, KillProcess, RegisterNode,
         RemoveNode, RecoverNode, Heartbeat, SetScheduler, Start, PauseSimulation, Reset, Finish, LoadScenario;
    if c.CmdFailProcess? {
      if c.id in s.processes { FailProcessExact(s, {}, Rest, c.id); }
    } else if c.id in s.nodes {
      FailNodeExact(s, Rest, c.id);
    }
  }

  lemma OtherSamples(s: State, c: Command)
    requires c.CmdRegisterNode? || c.CmdRemoveNode? || c.CmdRecoverNode? || c.CmdHeartbeat?
             || (c.CmdChangeNodeStatus? && c.to != NodeFailed)
             || c.CmdSetScheduler? || c.CmdStart? || c.CmdPauseSimulation? || c.CmdFinish?
    ensures SameSamples(s.stats, Execute(s, c).state.stats)
  {
    hide Step, Steps, Submit, Suspend, Requeue, KillProcess, FailNode, FailNodeLocked, FailProcess, Reset, LoadScenario;
  }

  lemma LoadSamples(s: State, sc: Scenario)
    requires SamplesOk(s.stats)
    ensures SamplesOk(LoadScenario(s, sc).state.stats)
  {
    hide Prepare, Install, PreparedOk, NewProcessOk;
    PrepareOk(sc, s.maxNodes, s.maxProcesses);
    var p := Prepare(sc, s.maxNodes, s.maxProcesses).0;
    if p.Some? {
      LoadedStatistics(s, p.value);
    }
  }

  lemma LoadedStatistics(s: State, p: Prepared)
    requires PreparedOk(p)
    ensures Install(s, p).stats == NO_STATISTICS
  {
    hide Install;
    LoadedLogs(s, p);
  }

  lemma CommandSamples(s: State, c: Command)
    requires Settled(s) && SamplesOk(s.stats)
    ensures SamplesOk(Execute(s, c).state.stats)
  {
    hide Execute, Valid, SamplesOk;
    ExecuteTick(s, if c.CmdSteps? then c.count else 0);
    if c.CmdStep? {
      TickSamples(s);
    } else if c.CmdSteps? {
      if c.count > 0 { LoopSamples(s, c.count); }
    } else if c.CmdReset? || c.CmdLoadScenario? {
      ExecuteFresh(s, c);
      if c.CmdLoadScenario? { LoadSamples(s, c.scenario); }
    } else {
      PlainSamples(s, c);
      SamplesDependOn(s.stats, Execute(s, c).state.stats);
    }
  }

  lemma PlainSamples(s: State, c: Command)
    requires Valid(s) && IsPlain(c)
    ensures SameSamples(s.stats, Execute(s, c).state.stats)
  {
    hide Execute, Valid;
    if c.CmdSubmit? || c.CmdPause? || c.CmdResume? || c.CmdWait? || c.CmdWake? || c.CmdKill? {
      ProcessCommandSamples(s, c);
    } else if c.CmdFailProcess? || c.CmdFailNode? || (c.CmdChangeNodeStatus? && c.to == NodeFailed) {
      FailureSamples(s, c);
    } else {
      OtherSamples(s, c);
    }
  }

  lemma ExecuteTick(s: State, n: int)
    ensures Execute(s, CmdStep) == Step(s)
    ensures Execute(s, CmdSteps(n)) == if n <= 0 then Reply(s, InvalidInput) else StepLoop(s, n)
  {
    hide Step, StepLoop;
  }

  lemma ExecuteFresh(s: State, c: Command)
    requires c.CmdReset? || c.CmdLoadScenario?
    ensures c.CmdReset? ==> SamplesOk(Execute(s, c).state.stats)
    ensures c.CmdLoadScenario? ==> Execute(s, c) == LoadScenario(s, c.scenario)
  {
    hide LoadScenario, Step, Steps;
  }

  lemma {:induction false} RunSamples(s: State, commands: seq<Command>)
    requires Settled(s) && SamplesOk(s.stats)
    ensures Settled(Run(s, commands)) && SamplesOk(Run(s, commands).stats)
    decreases |commands|
  {
    hide Settled, Execute, SamplesOk;
    if commands != [] {
      RunSamples(s, commands[..|commands| - 1]);
      SettledCommand(Run(s, commands[..|commands| - 1]), commands[|commands| - 1]);
      CommandSamples(Run(s, commands[..|commands| - 1]), commands[|commands| - 1]);
    }
  }

  lemma ReachableSamples(s: State)
    requires Reachable(s)
    ensures Settled(s) && SamplesOk(s.stats)
  {
    hide Run, Settled;
    var config, commands :| NewController(config).0.Some? && s == Run(NewController(config).0.value, commands);
    NewIsSettled(config);
    RunSamples(NewController(config).0.value, commands);
  }

  // ---------------------------------------------------------------- what a report can show

  /** `roots` are the standard deviations the program sampled: the non-negative roots of the variances. */
  ghost predicate Roots(roots: seq<real>, variances: seq<real>) {
    |roots| == |variances| && forall i | 0 <= i < |roots| :: roots[i] >= 0.0 && roots[i] * roots[i] == variances[i]
  }

  function SumOf(xs: seq<real>): real {
    if xs == [] then 0.0 else SumOf(xs[..|xs| - 1]) + xs[|xs| - 1]
  }

  lemma RootAtMostHalf(r: real)
    requires r >= 0.0 && r * r <= 0.25
    ensures r <= 0.5
  {
    MoreThanHalf(r);
  }

  lemma MoreThanHalf(r: real)
    ensures r > 0.5 ==> r * r > 0.25
  {
    if r > 0.5 { assert r * r > 0.5 * r; }
  }

  lemma {:induction false} RootsSum(roots: seq<real>, variances: seq<real>)
    requires Roots(roots, variances) && forall i | 0 <= i < |variances| :: variances[i] <= 0.25
    ensures 0.0 <= SumOf(roots) <= 0.5 * |roots| as real
  {
    if roots != [] {
      var last := |roots| - 1;
      RootsSum(roots[..last], variances[..last]);
      assert roots[last] * roots[last] == variances[last];
      RootAtMostHalf(roots[last]);
    }
  }

  lemma RatioBounded(a: real, b: nat, c: real)
    requires 0.0 <= a <= c * b as real && 0.0 <= c
    ensures 0.0 <= Ratio(a, b) <= c
  {
  }

  /** Every process is in exactly one of the seven states a report counts. */
  lemma StatesPartition(processes: map<Id, Process>, among: set<Id>)
    requires among <= processes.Keys && forall id | id in among :: processes[id].state != New
    ensures |among| == |InState(processes, among, Ready)| + |InState(processes, among, Running)|
                     + |InState(processes, among, Paused)| + |InState(processes, among, Waiting)|
                     + |InState(processes, among, Terminated)| + |InState(processes, among, Failed)|
                     + |InState(processes, among, Killed)|
    decreases |among|
  {
    hide InState;
    if among == {} {
      NoneInState(processes);
    } else {
      var id :| id in among;
      StatesPartition(processes, among - {id});
      forall st { OneMoreInState(processes, among - {id}, id, st); }
      assert among == (among - {id}) + {id};
    }
  }

  lemma NoneInState(processes: map<Id, Process>)
    ensures forall st :: |InState(processes, {}, st)| == 0
  {
    assert forall st :: InState(processes, {}, st) == {};
  }

  lemma MaximaOrdered(r: Report, t: Totals, processes: map<Id, Process>, tick: int)
    requires Totalled(r, t, processes, processes.Keys, tick) && 0 <= tick
    requires forall id | id in processes :: ObservedWaiting(processes[id], tick) <= tick
    ensures 0 <= r.maximumWaitingStarted <= r.maximumWaitingAll <= tick
  {
    hide ObservedWaiting;
    var waits := Waits(processes, processes.Keys, tick);
    var started := Waits(processes, EverStarted(processes, processes.Keys), tick);
    assert forall id | id in started :: id in waits && waits[id] == started[id];
  }

  lemma WaitsWithinTick(s: State)
    requires Reachable(s)
    ensures 0 <= s.tick
    ensures forall id | id in s.processes ::
      s.processes[id].state != New && ObservedWaiting(s.processes[id], s.tick) <= s.tick
  {
    hide Reachable, Inv, Valid, Settled, ObservedWaiting;
    ReachableIsSettled(s);
    SettledParts(s);
    InvParts(s, {}, Rest);
    forall id | id in s.processes
      ensures s.processes[id].state != New && ObservedWaiting(s.processes[id], s.tick) <= s.tick
    {
      WaitingIsBounded(s, id);
      HistoryOf(s, {}, Rest, id);
    }
  }

  lemma CountsAddUp(s: State, r: Report)
    requires Counted(r, s.processes, s.processes.Keys) && r.submitted == |s.processes|
    requires forall id | id in s.processes :: s.processes[id].state != New
    ensures r.submitted == r.started + r.neverStarted
    ensures r.submitted == r.ready + r.running + r.paused + r.waiting + r.terminated + r.failed + r.killed
  {
    hide InState, EverStarted, Restarts;
    StatesPartition(s.processes, s.processes.Keys);
  }

  lemma AveragesBounded(s: State, roots: seq<real>)
    requires SamplesOk(s.stats) && Roots(roots, s.stats.loadVariances)
    ensures 0.0 <= Ratio(s.stats.cpuUtilizationSum, s.stats.utilizationSamples) <= 1.0
    ensures 0.0 <= Ratio(s.stats.memoryUtilizationSum, s.stats.utilizationSamples) <= 1.0
    ensures 0.0 <= Ratio(SumOf(roots), s.stats.utilizationSamples) <= 0.5
  {
    hide Ratio, SumOf;
    RatioBounded(s.stats.cpuUtilizationSum, s.stats.utilizationSamples, 1.0);
    RatioBounded(s.stats.memoryUtilizationSum, s.stats.utilizationSamples, 1.0);
    RootsSum(roots, s.stats.loadVariances);
    RatioBounded(SumOf(roots), s.stats.utilizationSamples, 0.5);
  }

  /** A report of any reachable state is consistent: the processes counted by state, and by having
      started or not, add up; utilization lies between 0 and 1; the averaged standard deviation of the
      load is at most 1/2; and the longest waits are ordered and no longer than the simulation. */
  lemma ReportIsConsistent(s: State, r: Report, roots: seq<real>)
    requires Reachable(s) && Describes(r, s, SumOf(roots)) && Roots(roots, s.stats.loadVariances)
    ensures r.submitted == r.started + r.neverStarted
    ensures r.submitted == r.ready + r.running + r.paused + r.waiting + r.terminated + r.failed + r.killed
    ensures 0.0 <= r.averageCpu <= 1.0 && 0.0 <= r.averageMemory <= 1.0
    ensures 0.0 <= r.currentCpu <= 1.0 && 0.0 <= r.currentMemory <= 1.0
    ensures 0.0 <= r.loadStdDev <= 0.5
    ensures 0 <= r.maximumWaitingStarted <= r.maximumWaitingAll <= r.totalTicks
    ensures 0.0 <= r.successRate <= 1.0
  {
    hide Reachable, Settled, Inv, Utilization, Totalled, Counted, Ratio, SamplesOk, Roots, SumOf;
    ReachableSamples(s);
    WaitsWithinTick(s);
    SettledParts(s);
    CountsAddUp(s, r);
    UtilizationTimesCapacity(s, Rest, CPU);
    UtilizationTimesCapacity(s, Rest, Memory);
    AveragesBounded(s, roots);
    RatioBounded(r.terminated as real, r.submitted, 1.0);
    var t: Totals :| Totalled(r, t, s.processes, s.processes.Keys, s.tick);
    MaximaOrdered(r, t, s.processes, s.tick);
  }
}
