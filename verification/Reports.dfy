/** The report of internal/metrics: what `Build` computes, and what it can show in any run. */
module Reports {
  import opened Domain
  import opened Sums
  import opened Cluster
  import opened Sampling
  import opened WaitingTime

  datatype Report = Report(
    nodeCount: nat, submitted: nat, started: nat, neverStarted: nat,
    ready: nat, running: nat, paused: nat, waiting: nat, terminated: nat, failed: nat, killed: nat,
    restarts: int, averageWaitingStarted: real, averageWaitingAll: real, maximumWaitingStarted: int,
    maximumWaitingAll: int, averageTurnaround: real, throughput: real, successRate: real,
    currentCpu: real, currentMemory: real, averageCpu: real, averageMemory: real, loadStdDev: real,
    deferrals: nat, nodeFailures: nat, reschedulings: nat, totalTicks: int, finishReason: FinishReason)

  const EMPTY_REPORT := Report(0, 0, 0, 0, 0, 0, 0, 0, 0, 0, 0, 0, 0.0, 0.0, 0, 0, 0.0, 0.0, 0.0,
                               0.0, 0.0, 0.0, 0.0, 0.0, 0, 0, 0, 0, Unfinished)

  // ---------------------------------------------------------------- what the counters mean

  ghost function InState(processes: map<Id, Process>, among: set<Id>, state: ProcessState): set<Id> {
    set id | id in among && id in processes && processes[id].state == state
  }

  ghost function EverStarted(processes: map<Id, Process>, among: set<Id>): set<Id> {
    set id | id in among && id in processes && processes[id].startedAt.Some?
  }

  ghost function EverFinished(processes: map<Id, Process>, among: set<Id>): set<Id> {
    set id | id in among && id in processes && processes[id].finishedAt.Some?
  }

  ghost function Waits(processes: map<Id, Process>, among: set<Id>, tick: int): map<Id, int> {
    map id | id in among && id in processes :: ObservedWaiting(processes[id], tick)
  }

  ghost function Restarts(processes: map<Id, Process>, among: set<Id>): map<Id, int> {
    map id | id in among && id in processes :: processes[id].restartCount
  }

  ghost function Turnarounds(processes: map<Id, Process>, among: set<Id>): map<Id, int> {
    map id | id in EverFinished(processes, among) :: processes[id].finishedAt.value - processes[id].submittedAt
  }

  /** The largest value, and at least 0. */
  ghost predicate IsMaximum(waits: map<Id, int>, maximum: int) {
    && (forall id | id in waits :: waits[id] <= maximum)
    && 0 <= maximum && (maximum == 0 || exists id | id in waits :: waits[id] == maximum)
  }

  /** The counters over the processes looked at so far. */
  ghost predicate Counted(r: Report, processes: map<Id, Process>, among: set<Id>) {
    && r.started == |EverStarted(processes, among)|
    && r.neverStarted == |among| - |EverStarted(processes, among)|
    && r.ready == |InState(processes, among, Ready)| && r.running == |InState(processes, among, Running)|
    && r.paused == |InState(processes, among, Paused)| && r.waiting == |InState(processes, among, Waiting)|
    && r.terminated == |InState(processes, among, Terminated)| && r.failed == |InState(processes, among, Failed)|
    && r.killed == |InState(processes, among, Killed)|
    && r.restarts == MapSum(Restarts(processes, among))
  }

  /** The running totals of waiting and turnaround. */
  datatype Totals = Totals(waitingStarted: int, waitingAll: int, turnaround: int, finished: nat)

  ghost predicate Totalled(r: Report, t: Totals, processes: map<Id, Process>, among: set<Id>, tick: int) {
    && t.waitingAll == MapSum(Waits(processes, among, tick))
    && t.waitingStarted == MapSum(Waits(processes, EverStarted(processes, among), tick))
    && t.turnaround == MapSum(Turnarounds(processes, among)) && t.finished == |EverFinished(processes, among)|
    && IsMaximum(Waits(processes, among, tick), r.maximumWaitingAll)
    && IsMaximum(Waits(processes, EverStarted(processes, among), tick), r.maximumWaitingStarted)
  }

  // ---------------------------------------------------------------- one process more

  lemma OneMoreInState(processes: map<Id, Process>, among: set<Id>, id: Id, state: ProcessState)
    requires id in processes && id !in among
    ensures |InState(processes, among + {id}, state)|
         == |InState(processes, among, state)| + if processes[id].state == state then 1 else 0
  {
    var before, after := InState(processes, among, state), InState(processes, among + {id}, state);
    assert id !in before;
    if processes[id].state == state {
      assert after == before + {id};
    } else {
      assert after == before;
    }
  }

  lemma OneMoreStarted(processes: map<Id, Process>, among: set<Id>, id: Id)
    requires id in processes && id !in among
    ensures EverStarted(processes, among + {id})
         == if processes[id].startedAt.Some? then EverStarted(processes, among) + {id}
             else EverStarted(processes, among)
    ensures id !in EverStarted(processes, among)
  {
  }

  lemma OneMoreRestart(processes: map<Id, Process>, among: set<Id>, id: Id)
    requires id in processes && id !in among
    ensures MapSum(Restarts(processes, among + {id})) == MapSum(Restarts(processes, among)) + processes[id].restartCount
  {
    PutIn(Restarts(processes, among), id, processes[id].restartCount);
    assert Restarts(processes, among + {id}) == Restarts(processes, among)[id := processes[id].restartCount];
  }

  lemma OneMoreWait(processes: map<Id, Process>, among: set<Id>, id: Id, tick: int)
    requires id in processes && id !in among
    ensures Waits(processes, among + {id}, tick)
        == Waits(processes, among, tick)[id := ObservedWaiting(processes[id], tick)]
    ensures MapSum(Waits(processes, among + {id}, tick))
         == MapSum(Waits(processes, among, tick)) + ObservedWaiting(processes[id], tick)
  {
    hide ObservedWaiting;
    assert Waits(processes, among + {id}, tick)
        == Waits(processes, among, tick)[id := ObservedWaiting(processes[id], tick)];
    PutIn(Waits(processes, among, tick), id, ObservedWaiting(processes[id], tick));
  }

  lemma OneMoreFinished(processes: map<Id, Process>, among: set<Id>, id: Id)
    requires id in processes && id !in among
    ensures var p := processes[id];
      if p.finishedAt.Some? then
        && |EverFinished(processes, among + {id})| == |EverFinished(processes, among)| + 1
        && MapSum(Turnarounds(processes, among + {id}))
           == MapSum(Turnarounds(processes, among)) + (p.finishedAt.value - p.submittedAt)
      else
        && EverFinished(processes, among + {id}) == EverFinished(processes, among)
        && Turnarounds(processes, among + {id}) == Turnarounds(processes, among)
  {
    var p := processes[id];
    if p.finishedAt.Some? {
      assert EverFinished(processes, among + {id}) == EverFinished(processes, among) + {id};
      PutIn(Turnarounds(processes, among), id, p.finishedAt.value - p.submittedAt);
      assert Turnarounds(processes, among + {id})
          == Turnarounds(processes, among)[id := p.finishedAt.value - p.submittedAt];
    } else {
      assert EverFinished(processes, among + {id}) == EverFinished(processes, among);
      assert Turnarounds(processes, among + {id}) == Turnarounds(processes, among);
    }
  }

  lemma MaximumWith(waits: map<Id, int>, maximum: int, id: Id, w: int)
    requires IsMaximum(waits, maximum) && id !in waits
    ensures IsMaximum(waits[id := w], if w > maximum then w else maximum)
  {
    var after := waits[id := w];
    if w > maximum {
      assert after[id] == w;
    } else if maximum != 0 {
      var k :| k in waits && waits[k] == maximum;
      assert after[k] == maximum;
    }
  }

  lemma NothingYet(processes: map<Id, Process>, tick: int)
    ensures Counted(EMPTY_REPORT, processes, {}) && Totalled(EMPTY_REPORT, Totals(0, 0, 0, 0), processes, {}, tick)
  {
    assert forall st :: InState(processes, {}, st) == {};
    assert EverStarted(processes, {}) == {} && EverFinished(processes, {}) == {};
    assert Waits(processes, {}, tick) == map[] && Restarts(processes, {}) == map[]
        && Turnarounds(processes, {}) == map[];
  }

  // ---------------------------------------------------------------- the loop

  /** `observedWaitingTicks`. */
  method ObservedWaitingTicks(p: Process, tick: int) returns (waitingTicks: int)
    ensures waitingTicks == ObservedWaiting(p, tick)
  {
    waitingTicks := p.waitingTicks;
    if p.state == Ready && tick > p.lastReadyAt {
      waitingTicks := waitingTicks + (tick - p.lastReadyAt);
    }
    if p.startedAt == None && p.state != Ready {
      var endTick := tick;
      if p.finishedAt.Some? {
        endTick := p.finishedAt.value;
      }
      var elapsed := endTick - p.submittedAt;
      if elapsed > waitingTicks {
        waitingTicks := elapsed;
      }
    }
    if waitingTicks < 0 {
      return 0;
    }
  }

  /** One process, into the counters. */
  method CountProcess(r: Report, processes: map<Id, Process>, ghost among: set<Id>, id: Id) returns (after: Report)
    requires id in processes && id !in among && Counted(r, processes, among)
    ensures Counted(after, processes, among + {id})
    ensures after == r.(restarts := after.restarts, started := after.started, neverStarted := after.neverStarted,
                        ready := after.ready, running := after.running, paused := after.paused,
                        waiting := after.waiting,
                        terminated := after.terminated, failed := after.failed, killed := after.killed)
  {
    hide InState, EverStarted, Restarts, MapSum;
    var p := processes[id];
    OneMoreRestart(processes, among, id);
    OneMoreStarted(processes, among, id);
    forall st {
      OneMoreInState(processes, among, id, st);
    }
    after := r.(restarts := r.restarts + p.restartCount);
    if p.startedAt.Some? {
      after := after.(started := after.started + 1);
    } else {
      after := after.(neverStarted := after.neverStarted + 1);
    }
    match p.state {
      case New =>
      case Ready => after := after.(ready := after.ready + 1);
      case Running => after := after.(running := after.running + 1);
      case Paused => after := after.(paused := after.paused + 1);
      case Waiting => after := after.(waiting := after.waiting + 1);
      case Terminated => after := after.(terminated := after.terminated + 1);
      case Failed => after := after.(failed := after.failed + 1);
      case Killed => after := after.(killed := after.killed + 1);
    }
  }

  /** One process, into the totals and maxima. */
  method TotalProcess(r: Report, t: Totals, processes: map<Id, Process>, ghost among: set<Id>, id: Id, tick: int)
    returns (after: Report, totals: Totals)
    requires id in processes && id !in among && Totalled(r, t, processes, among, tick)
    ensures Totalled(after, totals, processes, among + {id}, tick)
    ensures after == r.(maximumWaitingAll := after.maximumWaitingAll,
        maximumWaitingStarted := after.maximumWaitingStarted)
  {
    hide ObservedWaiting, EverStarted, EverFinished, Waits, Turnarounds, MapSum, IsMaximum;
    var p := processes[id];
    var waitingTicks := ObservedWaitingTicks(p, tick);
    OneMoreStarted(processes, among, id);
    OneMoreWait(processes, among, id, tick);
    OneMoreFinished(processes, among, id);
    NotListed(processes, among, id, tick);
    MaximumWith(Waits(processes, among, tick), r.maximumWaitingAll, id, waitingTicks);
    after, totals := r, t.(waitingAll := t.waitingAll + waitingTicks);
    if waitingTicks > after.maximumWaitingAll {
      after := after.(maximumWaitingAll := waitingTicks);
    }
    if p.startedAt.Some? {
      OneMoreWait(processes, EverStarted(processes, among), id, tick);
      MaximumWith(Waits(processes, EverStarted(processes, among), tick), r.maximumWaitingStarted, id, waitingTicks);
      totals := totals.(waitingStarted := totals.waitingStarted + waitingTicks);
      if waitingTicks > after.maximumWaitingStarted {
        after := after.(maximumWaitingStarted := waitingTicks);
      }
    }
    if p.finishedAt.Some? {
      totals := totals.(turnaround := totals.turnaround + (p.finishedAt.value - p.submittedAt),
                        finished := totals.finished + 1);
    }
  }

  lemma NotListed(processes: map<Id, Process>, among: set<Id>, id: Id, tick: int)
    requires id !in among
    ensures id !in Waits(processes, among, tick) && id !in Waits(processes, EverStarted(processes, among), tick)
  {
  }

  /** The loop of `Build` over the process table. */
  method SummariseProcesses(processes: map<Id, Process>, tick: int) returns (report: Report, totals: Totals)
    ensures Counted(report, processes, processes.Keys) && Totalled(report, totals, processes, processes.Keys, tick)
  {
    hide Counted, Totalled;
    report, totals := EMPTY_REPORT, Totals(0, 0, 0, 0);
    NothingYet(processes, tick);
    var todo := processes.Keys;
    ghost var among: set<Id> := {};
    while todo != {}
      invariant among <= processes.Keys && todo == processes.Keys - among
      invariant Counted(report, processes, among) && Totalled(report, totals, processes, among, tick)
      decreases |todo|
    {
      var id :| id in todo;
      var counted := CountProcess(report, processes, among, id);
      CountedDependsOn(report, counted, totals, processes, among, tick);
      report, totals := TotalProcess(counted, totals, processes, among, id, tick);
      TotalledDependsOn(counted, report, processes, among + {id});
      todo := todo - {id};
      among := among + {id};
    }
    assert among == processes.Keys;
  }

  lemma CountedDependsOn(a: Report, b: Report, t: Totals, processes: map<Id, Process>, among: set<Id>, tick: int)
    requires Totalled(a, t, processes, among, tick)
    requires a.maximumWaitingAll == b.maximumWaitingAll && a.maximumWaitingStarted == b.maximumWaitingStarted
    ensures Totalled(b, t, processes, among, tick)
  {
  }

  lemma TotalledDependsOn(a: Report, b: Report, processes: map<Id, Process>, among: set<Id>)
    requires Counted(a, processes, among)
    requires b == a.(maximumWaitingAll := b.maximumWaitingAll, maximumWaitingStarted := b.maximumWaitingStarted)
    ensures Counted(b, processes, among)
  {
  }

  // ---------------------------------------------------------------- the whole report

  function Ratio(a: real, b: int): real {
    if b > 0 then a / b as real else 0.0
  }

  /** What the report says about a state, with `stdDevSum` the sum of the sampled standard deviations. */
  ghost predicate Describes(r: Report, s: State, stdDevSum: real) {
    && Counted(r, s.processes, s.processes.Keys)
    && r.submitted == |s.processes| && r.nodeCount == |s.nodes|
    && (exists t: Totals ::
          && Totalled(r, t, s.processes, s.processes.Keys, s.tick)
          && r.averageWaitingStarted == Ratio(t.waitingStarted as real, r.started)
          && r.averageWaitingAll == Ratio(t.waitingAll as real, r.submitted)
          && r.averageTurnaround == Ratio(t.turnaround as real, t.finished))
    && r.throughput == Ratio(r.terminated as real, s.tick)
    && r.successRate == Ratio(r.terminated as real, r.submitted)
    && r.averageCpu == Ratio(s.stats.cpuUtilizationSum, s.stats.utilizationSamples)
    && r.averageMemory == Ratio(s.stats.memoryUtilizationSum, s.stats.utilizationSamples)
    && r.loadStdDev == Ratio(stdDevSum, s.stats.utilizationSamples)
    && r.currentCpu == Utilization(s.nodes, CPU) && r.currentMemory == Utilization(s.nodes, Memory)
    && r.deferrals == s.stats.schedulingDeferred && r.nodeFailures == s.stats.nodeFailures
    && r.reschedulings == s.stats.reschedulings && r.totalTicks == s.tick && r.finishReason == s.reason
  }

  /** An average, left at 0 where there is nothing to average over. */
  method Average(a: real, b: int) returns (r: real)
    ensures r == Ratio(a, b)
  {
    r := 0.0;
    if b > 0 {
      r := a / b as real;
    }
  }

  method Build(s: State, stdDevSum: real) returns (report: Report)
    ensures Describes(report, s, stdDevSum)
  {
    hide Counted, Totalled, Utilization, Ratio;
    var summary, totals := SummariseProcesses(s.processes, s.tick);
    var submitted, samples := |s.processes|, s.stats.utilizationSamples;
    var averageWaitingStarted := Average(totals.waitingStarted as real, summary.started);
    var averageWaitingAll := Average(totals.waitingAll as real, submitted);
    var averageTurnaround := Average(totals.turnaround as real, totals.finished);
    var throughput := Average(summary.terminated as real, s.tick);
    var successRate := Average(summary.terminated as real, submitted);
    var averageCpu := Average(s.stats.cpuUtilizationSum, samples);
    var averageMemory := Average(s.stats.memoryUtilizationSum, samples);
    var loadStdDev := Average(stdDevSum, samples);
    var cpu, memory := CurrentUtilization(s.nodes);
    report := summary.(
      nodeCount := |s.nodes|, submitted := submitted,
      deferrals := s.stats.schedulingDeferred, nodeFailures := s.stats.nodeFailures,
      reschedulings := s.stats.reschedulings, totalTicks := s.tick, finishReason := s.reason,
      averageWaitingStarted := averageWaitingStarted, averageWaitingAll := averageWaitingAll,
      averageTurnaround := averageTurnaround, throughput := throughput, successRate := successRate,
      averageCpu := averageCpu, averageMemory := averageMemory, loadStdDev := loadStdDev,
      currentCpu := cpu, currentMemory := memory);
    SameSummary(summary, report, totals, s.processes, s.tick);
  }

  lemma SameSummary(a: Report, b: Report, t: Totals, processes: map<Id, Process>, tick: int)
    requires Counted(a, processes, processes.Keys) && Totalled(a, t, processes, processes.Keys, tick)
    requires b.started == a.started && b.neverStarted == a.neverStarted && b.ready == a.ready && b.running == a.running
    requires b.paused == a.paused && b.waiting == a.waiting && b.terminated == a.terminated && b.failed == a.failed
    requires b.killed == a.killed && b.restarts == a.restarts
    requires b.maximumWaitingAll == a.maximumWaitingAll && b.maximumWaitingStarted == a.maximumWaitingStarted
    ensures Counted(b, processes, processes.Keys) && Totalled(b, t, processes, processes.Keys, tick)
  {
  }
}
