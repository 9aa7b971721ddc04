/** What samples and reports mean, in terms of the tables: no averages of averages. */
module ReportResults {
  import opened Domain
  import opened Sums
  import LoadOrder
  import opened Schedulers
  import opened Cluster
  import opened Scenarios
  import opened Invariants
  import opened Scheduling
  import opened Conservation
  import opened EventLog
  import opened Runs
  import opened Histories
  import opened WaitingTime
  import opened Reports
  import opened ReportBounds

  // ---------------------------------------------------------------- variance

  ghost function Squares(m: map<Id, real>): map<Id, real> {
    map k | k in m :: m[k] * m[k]
  }

  lemma SquaresSplit(m: map<Id, real>, k: Id)
    requires k in m
    ensures RealSum(Squares(m)) == m[k] * m[k] + RealSum(Squares(m - {k}))
  {
    hide RealSum;
    RealTakeOut(Squares(m), k);
    var a, b := Squares(m) - {k}, Squares(m - {k});
    assert a.Keys == m.Keys - {k} && b.Keys == m.Keys - {k};
    forall j | j in a ensures a[j] == b[j] {
      assert (m - {k})[j] == m[j];
    }
    assert a == b;
  }

  lemma NoSquares(c: real)
    ensures RealSum(map[]) == 0.0 && RealSum(Squares(map[])) == 0.0
  {
    assert Squares(map[]) == map[];
  }

  lemma Expand(x: real, c: real, squares: real, sum: real, n: real)
    ensures (x - c) * (x - c) + (squares - 2.0 * c * sum + n * (c * c))
         == (x * x + squares) - 2.0 * c * (x + sum) + (n + 1.0) * (c * c)
  {
    assert (x - c) * (x - c) == x * x - 2.0 * c * x + c * c;
    assert 2.0 * c * (x + sum) == 2.0 * c * x + 2.0 * c * sum;
    assert (n + 1.0) * (c * c) == n * (c * c) + c * c;
  }

  lemma {:induction false} DeviationsExpand(m: map<Id, real>, c: real)
    ensures RealSum(SquaredDeviations(m, c))
         == RealSum(Squares(m)) - 2.0 * c * RealSum(m) + |m| as real * (c * c)
    decreases |m|
  {
    hide RealSum, SquaredDeviations, Squares;
    if m.Keys == {} {
      assert m == map[];
      NoDeviations(c);
      NoSquares(c);
    } else {
      var k :| k in m;
      var rest := m - {k};
      RealTakeOut(m, k);
      DeviationsSplit(m, c, k);
      SquaresSplit(m, k);
      OneFewer(m, k);
      DeviationsExpand(rest, c);
      Expand(m[k], c, RealSum(Squares(rest)), RealSum(rest), |rest| as real);
    }
  }

  /** The variance is what the mean of the squares is more than the square of the mean. */
  lemma VarianceIs(m: map<Id, real>)
    requires m != map[]
    ensures RealSum(m) == |m| as real * Mean(m)
    ensures |m| as real * (Variance(m) + Mean(m) * Mean(m)) == RealSum(Squares(m))
  {
    hide RealSum, SquaredDeviations, Squares;
    assert |m| > 0 by { assert m.Keys != {}; }
    var n, c := |m| as real, Mean(m);
    assert c * n == RealSum(m);
    DeviationsExpand(m, c);
    var deviations := RealSum(SquaredDeviations(m, c));
    assert Variance(m) * n == deviations;
    Distribute(n, Variance(m), c * c);
    assert 2.0 * c * RealSum(m) == 2.0 * (n * (c * c));
  }

  lemma Distribute(n: real, x: real, y: real)
    ensures n * (x + y) == x * n + n * y
  {
  }

  // ---------------------------------------------------------------- one sample

  /** The load of a node: the mean of its CPU and memory shares. */
  ghost predicate LoadIs(load: real, n: Node) {
    load * (2.0 * (n.cpuCapacity as real * n.memoryCapacity as real))
      == n.cpuAllocated as real * n.memoryCapacity as real + n.memoryAllocated as real * n.cpuCapacity as real
  }

  /** These are the loads of the nodes, their mean and their variance. */
  ghost predicate SpreadIs(variance: real, mean: real, loads: map<Id, real>, nodes: map<Id, Node>) {
    && loads.Keys == nodes.Keys && (forall n | n in nodes :: LoadIs(loads[n], nodes[n]))
    && RealSum(loads) == |loads| as real * mean
    && |loads| as real * (variance + mean * mean) == RealSum(Squares(loads))
  }

  lemma LoadsAre(nodes: map<Id, Node>, n: Id)
    requires n in nodes
    ensures LoadIs(Loads(nodes)[n], nodes[n])
  {
    LoadOrder.ScoreIs(nodes[n].Snapshot());
    Denominators(nodes[n]);
  }

  lemma Denominators(n: Node)
    ensures LoadOrder.Denominator(n.Snapshot()) as real == n.cpuCapacity as real * n.memoryCapacity as real
    ensures LoadOrder.SharesGiven(n.Snapshot()) as real
         == n.cpuAllocated as real * n.memoryCapacity as real + n.memoryAllocated as real * n.cpuCapacity as real
  {
    var a, b, c, d := n.cpuAllocated, n.memoryAllocated, n.cpuCapacity, n.memoryCapacity;
    assert (a * d + b * c) as real == a as real * d as real + b as real * c as real;
  }

  /** A sample counts once, adds for each resource what share of all capacity is given away, and notes the spread
      of the nodes' loads if there are nodes. */
  lemma SampleResult(s: State)
    requires Inv(s, {}, MID)
    ensures var t := SampleUtilization(s);
      && t == s.(stats := t.stats)
      && t.stats == s.stats.(cpuUtilizationSum := t.stats.cpuUtilizationSum,
                             memoryUtilizationSum := t.stats.memoryUtilizationSum,
                             loadVariances := t.stats.loadVariances, utilizationSamples := t.stats.utilizationSamples)
      && t.stats.utilizationSamples == s.stats.utilizationSamples + 1
      && (t.stats.cpuUtilizationSum - s.stats.cpuUtilizationSum) * TotalCapacity(s.nodes, CPU) as real
           == TotalAllocated(s.nodes, CPU) as real
      && (t.stats.memoryUtilizationSum - s.stats.memoryUtilizationSum) * TotalCapacity(s.nodes, Memory) as real
           == TotalAllocated(s.nodes, Memory) as real
      && (s.nodes == map[] ==> t.stats.loadVariances == s.stats.loadVariances)
      && (s.nodes != map[] ==> exists variance, mean, loads ::
            t.stats.loadVariances == s.stats.loadVariances + [variance] && SpreadIs(variance, mean, loads, s.nodes))
  {
    hide Inv, Utilization, Variance, Loads, TotalCapacity, TotalAllocated, LoadIs, SpreadIs;
    UtilizationTimesCapacity(s, MID, CPU);
    UtilizationTimesCapacity(s, MID, Memory);
    if s.nodes != map[] {
      SpreadOf(s.nodes);
    }
  }

  lemma SpreadOf(nodes: map<Id, Node>)
    requires nodes != map[]
    ensures SpreadIs(Variance(Loads(nodes)), Mean(Loads(nodes)), Loads(nodes), nodes)
  {
    hide LoadIs, Variance, Mean, RealSum, Squares, LoadScore;
    var loads := Loads(nodes);
    assert loads.Keys == nodes.Keys;
    assert loads != map[] by { assert nodes.Keys != {}; }
    forall n | n in nodes ensures LoadIs(loads[n], nodes[n]) {
      LoadsAre(nodes, n);
    }
    VarianceIs(loads);
  }

  // ---------------------------------------------------------------- averages

  lemma RatioTimes(a: real, b: int)
    ensures b > 0 ==> Ratio(a, b) * b as real == a
    ensures b <= 0 ==> Ratio(a, b) == 0.0
  {
  }

  /** An average times the number of those it is over is their total, and 0 if there are none. */
  ghost predicate IsAverage(average: real, total: real, number: int) {
    if number > 0 then average * number as real == total else average == 0.0
  }

  /** How long a process has waited: what it had collected, and since when it is READY; one that never started
      has waited since its submission, until its end if it has one. */
  ghost predicate WaitIs(w: int, p: Process, tick: int) {
    if p.state == Ready then w == p.waitingTicks + (tick - p.lastReadyAt)
    else if p.startedAt.None? then w == (if p.finishedAt.Some? then p.finishedAt.value else tick) - p.submittedAt
    else w == p.waitingTicks
  }

  lemma WaitingIs(s: State, id: Id)
    requires Reachable(s) && id in s.processes
    ensures WaitIs(ObservedWaiting(s.processes[id], s.tick), s.processes[id], s.tick)
  {
    hide Reachable, Inv, Valid, Settled, RecordOk, ObservedWaiting, WaitIs;
    ReachableIsSettled(s);
    SettledParts(s);
    HistoryOf(s, {}, Rest, id);
    RecordWaits(s.processes[id], id in Replay(s.events).interrupted, s.tick);
  }

  lemma RecordWaits(p: Process, interrupted: bool, tick: int)
    requires RecordOk(p, interrupted, tick, 0)
    ensures WaitIs(ObservedWaiting(p, tick), p, tick)
  {
  }

  /** The processes of a state, those that ever started and those that are finished, with how long each has waited
      and how long each was there. */
  ghost predicate AccountOf(s: State, waits: map<Id, int>, startedWaits: map<Id, int>, stays: map<Id, int>) {
    && waits.Keys == s.processes.Keys && (forall id | id in waits :: WaitIs(waits[id], s.processes[id], s.tick))
    && (forall id :: id in startedWaits <==> id in s.processes && s.processes[id].startedAt.Some?)
    && (forall id | id in startedWaits :: startedWaits[id] == waits[id])
    && (forall id :: id in stays <==> id in s.processes && s.processes[id].finishedAt.Some?)
    && (forall id | id in stays :: stays[id] == s.processes[id].finishedAt.value - s.processes[id].submittedAt)
  }

  lemma AccountIsUnique(s: State, waits: map<Id, int>, startedWaits: map<Id, int>, stays: map<Id, int>)
    requires Reachable(s) && AccountOf(s, waits, startedWaits, stays)
    ensures waits == Waits(s.processes, s.processes.Keys, s.tick) && waits.Keys == s.processes.Keys
    ensures startedWaits == Waits(s.processes, EverStarted(s.processes, s.processes.Keys), s.tick)
    ensures stays == Turnarounds(s.processes, s.processes.Keys)
    ensures startedWaits.Keys == EverStarted(s.processes, s.processes.Keys)
    ensures stays.Keys == EverFinished(s.processes, s.processes.Keys)
  {
    hide Reachable, ObservedWaiting;
    forall id | id in s.processes ensures waits[id] == ObservedWaiting(s.processes[id], s.tick) {
      WaitingIs(s, id);
    }
  }

  /** In a report of a reachable state waiting is averaged over all processes and over those that ever started,
      turnaround over those that are finished, and the maxima are the largest of those waits; throughput is
      completions per tick and the success rate completions per process. */
  lemma AveragesAre(s: State, r: Report, stdDevSum: real, waits: map<Id, int>, startedWaits: map<Id, int>,
                    stays: map<Id, int>)
    requires Reachable(s) && Describes(r, s, stdDevSum) && AccountOf(s, waits, startedWaits, stays)
    ensures IsAverage(r.averageWaitingAll, MapSum(waits) as real, |waits|)
    ensures IsAverage(r.averageWaitingStarted, MapSum(startedWaits) as real, |startedWaits|)
    ensures IsAverage(r.averageTurnaround, MapSum(stays) as real, |stays|)
    ensures IsMaximum(waits, r.maximumWaitingAll) && IsMaximum(startedWaits, r.maximumWaitingStarted)
    ensures r.started == |startedWaits| && r.neverStarted == |s.processes| - |startedWaits|
    ensures IsAverage(r.throughput, r.terminated as real, s.tick)
    ensures IsAverage(r.successRate, r.terminated as real, |s.processes|)
    ensures IsAverage(r.averageCpu, s.stats.cpuUtilizationSum, s.stats.utilizationSamples)
    ensures IsAverage(r.averageMemory, s.stats.memoryUtilizationSum, s.stats.utilizationSamples)
    ensures IsAverage(r.loadStdDev, stdDevSum, s.stats.utilizationSamples)
  {
    hide Reachable, AccountOf, Ratio, Waits, EverStarted, EverFinished, InState, Turnarounds, MapSum,
         Utilization, IsMaximum;
    AccountIsUnique(s, waits, startedWaits, stays);
    forall a: real, b: int ensures IsAverage(Ratio(a, b), a, b) {
      RatioTimes(a, b);
    }
    assert |waits| == |waits.Keys| && |startedWaits| == |startedWaits.Keys| && |stays| == |stays.Keys|;
  }

  // ---------------------------------------------------------------- the report and the log

  ghost function LoggedIn(l: Ledger, state: ProcessState): set<Id> {
    set id | id in l.views && l.views[id].state == state
  }

  ghost function LoggedRestarts(l: Ledger): map<Id, int> {
    map id | id in l.views :: l.views[id].restarts
  }

  /** In every reachable state the counters of the report can be read off the log: how many processes are in each
      state, how often they were restarted, and how many placements were put off, nodes lost and processes placed
      again. */
  lemma ReportTellsLog(s: State, r: Report, stdDevSum: real)
    requires Reachable(s) && Describes(r, s, stdDevSum)
    ensures var l := Replay(s.events);
      && r.submitted == |l.views|
      && r.ready == |LoggedIn(l, Ready)| && r.running == |LoggedIn(l, Running)|
      && r.paused == |LoggedIn(l, Paused)| && r.waiting == |LoggedIn(l, Waiting)|
      && r.terminated == |LoggedIn(l, Terminated)| && r.failed == |LoggedIn(l, Failed)|
      && r.killed == |LoggedIn(l, Killed)|
      && r.restarts == MapSum(LoggedRestarts(l))
    ensures r.deferrals == Count(s.events, Deferred) && r.nodeFailures == Count(s.events, NodeDown)
    ensures r.reschedulings == Count(s.events, Scheduled) - Count(s.events, Started)
  {
    hide Reachable, Replay, Count, MapSum, Ratio, Utilization, Totalled, EverStarted, InState, Restarts, LoggedIn,
         LoggedRestarts;
    LogTellsState(s);
    ViewsTell(Replay(s.events), s.processes);
  }

  lemma ViewsTell(l: Ledger, processes: map<Id, Process>)
    requires l.views.Keys == processes.Keys
    requires forall id | id in processes ::
      l.views[id] == View(processes[id].state, processes[id].nodeId, processes[id].restartCount)
    ensures forall state :: LoggedIn(l, state) == InState(processes, processes.Keys, state)
    ensures LoggedRestarts(l) == Restarts(processes, processes.Keys) && |l.views| == |processes|
  {
    assert |l.views| == |l.views.Keys| && |processes| == |processes.Keys|;
  }
}
