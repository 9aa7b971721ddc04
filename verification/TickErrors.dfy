/** Exactly when a tick fails, read off the state before it: from its tables and its calendar alone. */
module TickErrors {
  import opened Domain
  import opened Cluster
  import opened Placement
  import opened Invariants
  import opened EventLog
  import opened Failures
  import opened Scheduling
  import opened Tick
  import opened Progress
  import opened Atomicity

  // ---------------------------------------------------------------- submissions

  /** There is room for all of them, they are well-formed, and all their names are new and different. */
  ghost predicate AllEnter(s: State, defs: seq<ProcessDefinition>, tick: int) {
    && (defs != [] ==> |s.processes| + |defs| <= s.maxProcesses)
    && (forall i | 0 <= i < |defs| :: NewProcess(defs[i], tick).Some? && defs[i].id !in s.processes)
    && (forall i, j | 0 <= i < j < |defs| :: defs[i].id != defs[j].id)
  }

  function Joined(processes: map<Id, Process>, defs: seq<ProcessDefinition>, tick: int): map<Id, Process>
    decreases |defs|
  {
    if defs == [] then processes
    else Joined(processes[defs[0].id := SubmittedRecord(defs[0], tick)], defs[1..], tick)
  }

  lemma EntersFirst(s: State, d: ProcessDefinition)
    ensures Submit(s, d).error == Nil <==> SubmissionApplies(s, d)
    ensures SubmissionApplies(s, d) ==> var t := Submit(s, d).state;
      && t.processes == s.processes[d.id := SubmittedRecord(d, s.tick)] && |t.processes| == |s.processes| + 1
      && t.maxProcesses == s.maxProcesses && t.tick == s.tick && t.nodes == s.nodes && t.failures == s.failures
  {
    hide NewProcess;
    SubmitErrs(s, d);
    NameOfNew(d, s.tick);
    if SubmissionApplies(s, d) {
      OneMore(s.processes, d.id, SubmittedRecord(d, s.tick));
    }
  }

  lemma OneMore(processes: map<Id, Process>, id: Id, p: Process)
    requires id !in processes
    ensures |processes[id := p]| == |processes| + 1
  {
    assert processes[id := p].Keys == processes.Keys + {id};
    assert |processes[id := p].Keys| == |processes[id := p]| && |processes.Keys| == |processes|;
  }

  lemma EnterSplits(s: State, t: State, defs: seq<ProcessDefinition>)
    requires defs != [] && t.maxProcesses == s.maxProcesses
    requires SubmissionApplies(s, defs[0])
    requires t.processes == s.processes[defs[0].id := SubmittedRecord(defs[0], s.tick)]
    requires |t.processes| == |s.processes| + 1
    ensures AllEnter(s, defs, s.tick) <==> AllEnter(t, defs[1..], s.tick)
  {
    var rest := defs[1..];
    assert forall i | 0 <= i < |rest| :: rest[i] == defs[i + 1];
    if AllEnter(t, rest, s.tick) {
      forall i | 0 <= i < |defs| ensures NewProcess(defs[i], s.tick).Some? && defs[i].id !in s.processes {
        assert i > 0 ==> rest[i - 1] == defs[i];
      }
      forall i, j | 0 <= i < j < |defs| ensures defs[i].id != defs[j].id {
        assert rest[j - 1] == defs[j];
        assert i > 0 ==> rest[i - 1] == defs[i];
      }
    }
  }

  lemma {:induction false} SubmitAllExact(s: State, defs: seq<ProcessDefinition>)
    ensures SubmitAll(s, defs).error == Nil <==> AllEnter(s, defs, s.tick)
    ensures AllEnter(s, defs, s.tick) ==> var t := SubmitAll(s, defs).state;
      t.processes == Joined(s.processes, defs, s.tick) && t.nodes == s.nodes && t.failures == s.failures
          && t.tick == s.tick
    decreases |defs|
  {
    hide Submit, AllEnter, SubmissionApplies;
    if defs == [] {
      NobodyEnters(s);
    } else {
      EntersFirst(s, defs[0]);
      if SubmissionApplies(s, defs[0]) {
        var t := Submit(s, defs[0]).state;
        EnterSplits(s, t, defs);
        SubmitAllExact(t, defs[1..]);
      } else {
        FirstMustEnter(s, defs);
      }
    }
  }

  lemma NobodyEnters(s: State)
    ensures AllEnter(s, [], s.tick)
  {
  }

  lemma FirstMustEnter(s: State, defs: seq<ProcessDefinition>)
    requires defs != [] && !SubmissionApplies(s, defs[0])
    ensures !AllEnter(s, defs, s.tick)
  {
  }

  // ---------------------------------------------------------------- failures

  /** How many failures a process can still take before it is terminal. */
  function Lives(p: Process): int {
    if p.state.IsTerminal() then 0
    else 1 + if p.restartPolicy == OnFailure then p.maxRestarts - p.restartCount else 0
  }

  /** How often a list of failures hits a process: each time by name, and with its node while it still runs there. */
  function Hits(p: Process, fs: seq<FailureDefinition>): nat {
    if fs == [] then 0
    else
      var f, before := fs[|fs| - 1], Hits(p, fs[..|fs| - 1]);
      match f.kind
      case ProcessFailure => if f.processId == p.id then before + 1 else before
      case NodeFailure => if p.state == Running && p.nodeId == f.nodeId && before == 0 then 1 else before
      case UnsupportedFailure => before
  }

  predicate Downs(fs: seq<FailureDefinition>, n: Id) {
    exists i | 0 <= i < |fs| :: fs[i].kind == NodeFailure && fs[i].nodeId == n
  }

  /** A failure finds its target up, or alive, after those before it on the list. */
  ghost predicate Lands(nodes: map<Id, Node>, processes: map<Id, Process>, before: seq<FailureDefinition>,
      f: FailureDefinition) {
    match f.kind
    case NodeFailure => f.nodeId in nodes && nodes[f.nodeId].status != NodeFailed && !Downs(before, f.nodeId)
    case ProcessFailure =>
      f.processId in processes && Hits(processes[f.processId], before) < Lives(processes[f.processId])
    case UnsupportedFailure => true
  }

  ghost predicate AllLand(nodes: map<Id, Node>, processes: map<Id, Process>, fs: seq<FailureDefinition>) {
    forall k | 0 <= k < |fs| :: Lands(nodes, processes, fs[..k], fs[k])
  }

  /** The record after n failures at this tick. */
  function FailedTimes(p: Process, n: nat, tick: int): Process {
    if n == 0 then p else FailedRecord(FailedTimes(p, n - 1, tick), tick)
  }

  /** What a list of failures that all landed has left of a process. */
  ghost predicate HitBy(p: Process, q: Process, fs: seq<FailureDefinition>, tick: int) {
    && q == FailedTimes(p, Hits(p, fs), tick)
    && q.id == p.id && Lives(q) == Lives(p) - Hits(p, fs)
    && (q.state == Running <==> p.state == Running && Hits(p, fs) == 0)
    && (q.state == Running ==> q.nodeId == p.nodeId)
  }

  ghost predicate AfterHits(s: State, t: State, fs: seq<FailureDefinition>) {
    && t.tick == s.tick
    && t.nodes.Keys == s.nodes.Keys && t.processes.Keys == s.processes.Keys
    && (forall n | n in s.nodes :: t.nodes[n].status == NodeFailed <==> s.nodes[n].status == NodeFailed || Downs(fs, n))
    && (forall p | p in s.processes :: HitBy(s.processes[p], t.processes[p], fs, s.tick))
  }

  lemma LandsExact(s: State, t: State, before: seq<FailureDefinition>, f: FailureDefinition)
    requires Inv(t, {}, MID) && AfterHits(s, t, before)
    ensures FailureApplies(t, f) <==> Lands(s.nodes, s.processes, before, f)
  {
    hide Placed, Logged;
    if f.kind == ProcessFailure && f.processId in s.processes {
      HistoryOf(t, {}, MID, f.processId);
      assert HitBy(s.processes[f.processId], t.processes[f.processId], before, s.tick);
    }
  }

  lemma HitsOnce(p: Process, before: seq<FailureDefinition>, f: FailureDefinition)
    ensures Hits(p, before + [f]) ==
      match f.kind
      case ProcessFailure => Hits(p, before) + (if f.processId == p.id then 1 else 0)
      case NodeFailure =>
        if p.state == Running && p.nodeId == f.nodeId && Hits(p, before) == 0 then 1 else Hits(p, before)
      case UnsupportedFailure => Hits(p, before)
  {
    assert (before + [f])[..|before|] == before;
  }

  lemma DownsOnce(before: seq<FailureDefinition>, f: FailureDefinition, n: Id)
    ensures Downs(before + [f], n) <==> Downs(before, n) || (f.kind == NodeFailure && f.nodeId == n)
  {
    var fs := before + [f];
    assert fs[|before|] == f;
    if Downs(before, n) {
      var i :| 0 <= i < |before| && before[i].kind == NodeFailure && before[i].nodeId == n;
      assert fs[i] == before[i];
    }
  }

  /** A failure that lands takes exactly one life. */
  lemma FailureTakesALife(q: Process, interrupted: bool, tick: int)
    requires RecordOk(q, interrupted, tick, 1) && !q.state.IsTerminal()
    ensures Lives(FailedRecord(q, tick)) == Lives(q) - 1 && FailedRecord(q, tick).state != Running
    ensures FailedRecord(q, tick).id == q.id
  {
  }

  lemma HitGrows(p: Process, q: Process, before: seq<FailureDefinition>, f: FailureDefinition, tick: int,
                 interrupted: bool)
    requires HitBy(p, q, before, tick) && Hits(p, before + [f]) == Hits(p, before) + 1
    requires RecordOk(q, interrupted, tick, 1) && !q.state.IsTerminal()
    ensures HitBy(p, FailedRecord(q, tick), before + [f], tick)
  {
    hide Hits, Lives, FailedRecord, RecordOk;
    FailureTakesALife(q, interrupted, tick);
  }

  lemma HitStays(p: Process, q: Process, before: seq<FailureDefinition>, after: seq<FailureDefinition>, tick: int)
    requires HitBy(p, q, before, tick) && Hits(p, after) == Hits(p, before)
    ensures HitBy(p, q, after, tick)
  {
  }

  lemma ProcessHit(s: State, t: State, before: seq<FailureDefinition>, f: FailureDefinition)
    requires Inv(t, {}, MID) && AfterHits(s, t, before) && FailureApplies(t, f) && f.kind == ProcessFailure
    requires forall p | p in s.processes :: s.processes[p].id == p
    ensures AfterHits(s, ApplyFailure(t, f).state, before + [f])
  {
    hide Inv, Hits, Downs, Lives, FailedRecord, FailedTimes, FailProcessLocked, RecordOk, OffNode, PlacedOk, HitBy;
    FailProcessExact(t, {}, MID, f.processId);
    HistoryOf(t, {}, MID, f.processId);
    OffNodeStatuses(t, f.processId);
    forall n | n in s.nodes ensures Downs(before + [f], n) <==> Downs(before, n) {
      DownsOnce(before, f, n);
    }
    forall p | p in s.processes
      ensures HitBy(s.processes[p], ApplyFailure(t, f).state.processes[p], before + [f], s.tick)
    {
      HitsOnce(s.processes[p], before, f);
      if p == f.processId {
        HitGrows(s.processes[p], t.processes[p], before, f, s.tick, p in Replay(t.events).interrupted);
      } else {
        HitStays(s.processes[p], t.processes[p], before, before + [f], s.tick);
      }
    }
  }

  lemma OffNodeStatuses(s: State, id: Id)
    requires id in s.processes
    ensures OffNode(s, {}, id).nodes.Keys == s.nodes.Keys
    ensures forall n | n in s.nodes :: OffNode(s, {}, id).nodes[n].status == s.nodes[n].status
  {
  }

  lemma NodeHit(s: State, t: State, before: seq<FailureDefinition>, f: FailureDefinition)
    requires Inv(t, {}, MID) && AfterHits(s, t, before) && FailureApplies(t, f) && f.kind == NodeFailure
    requires forall p | p in s.processes :: s.processes[p].id == p
    ensures AfterHits(s, ApplyFailure(t, f).state, before + [f])
  {
    hide Inv, Hits, Downs, Lives, FailedRecord, FailNodeLocked, RecordOk;
    FailNodeExact(t, MID, f.nodeId);
    ListIsRunningOn(t, MID, f.nodeId);
    forall n | n in s.nodes ensures Downs(before + [f], n) <==> Downs(before, n) || n == f.nodeId {
      DownsOnce(before, f, n);
    }
    forall p | p in s.processes
      ensures HitBy(s.processes[p], ApplyFailure(t, f).state.processes[p], before + [f], s.tick)
    {
      HitsOnce(s.processes[p], before, f);
      assert HitBy(s.processes[p], t.processes[p], before, s.tick);
      HistoryOf(t, {}, MID, p);
      if t.processes[p].state == Running {
        FailureTakesALife(t.processes[p], p in Replay(t.events).interrupted, t.tick);
      }
    }
  }

  lemma OneMoreHit(s: State, t: State, before: seq<FailureDefinition>, f: FailureDefinition)
    requires Inv(t, {}, MID) && AfterHits(s, t, before) && FailureApplies(t, f)
    requires forall p | p in s.processes :: s.processes[p].id == p
    ensures AfterHits(s, ApplyFailure(t, f).state, before + [f])
  {
    hide Inv, Hits, Downs, Lives;
    match f.kind
    case ProcessFailure => ProcessHit(s, t, before, f);
    case NodeFailure => NodeHit(s, t, before, f);
    case UnsupportedFailure =>
      forall n ensures Downs(before + [f], n) <==> Downs(before, n) { DownsOnce(before, f, n); }
      forall p ensures Hits(p, before + [f]) == Hits(p, before) { HitsOnce(p, before, f); }
  }

  lemma {:induction false} ApplySplits(s: State, before: seq<FailureDefinition>, f: FailureDefinition)
    ensures var r := ApplyFailures(s, before);
      ApplyFailures(s, before + [f]) == if r.error != Nil then r else ApplyFailure(r.state, f)
    decreases |before|
  {
    hide ApplyFailure;
    if before == [] {
      assert ApplyFailures(ApplyFailure(s, f).state, [f][1..]) == Reply(ApplyFailure(s, f).state, Nil);
      assert before + [f] == [f];
    } else {
      assert (before + [f])[1..] == before[1..] + [f];
      if ApplyFailure(s, before[0]).error == Nil {
        ApplySplits(ApplyFailure(s, before[0]).state, before[1..], f);
      }
    }
  }

  lemma AllLandSplits(nodes: map<Id, Node>, processes: map<Id, Process>, before: seq<FailureDefinition>,
      f: FailureDefinition)
    ensures AllLand(nodes, processes, before + [f]) <==>
              AllLand(nodes, processes, before) && Lands(nodes, processes, before, f)
  {
    hide Lands;
    var fs := before + [f];
    assert fs[..|before|] == before && fs[|before|] == f;
    assert forall k | 0 <= k < |before| :: fs[..k] == before[..k] && fs[k] == before[k];
  }

  lemma {:induction false} ApplyFailuresExact(s: State, fs: seq<FailureDefinition>)
    requires Inv(s, {}, MID)
    ensures ApplyFailures(s, fs).error == Nil <==> AllLand(s.nodes, s.processes, fs)
    ensures ApplyFailures(s, fs).error == Nil ==> AfterHits(s, ApplyFailures(s, fs).state, fs)
    decreases |fs|
  {
    hide Inv, ApplyFailure, Lands, AfterHits, FailureApplies;
    if fs == [] {
      NothingHits(s);
    } else {
      var before, f := fs[..|fs| - 1], fs[|fs| - 1];
      assert fs == before + [f];
      ApplyFailuresExact(s, before);
      ApplySplits(s, before, f);
      AllLandSplits(s.nodes, s.processes, before, f);
      ApplyFailuresKeeps(s, before);
      var r := ApplyFailures(s, before);
      if r.error == Nil {
        LandsExact(s, r.state, before, f);
        ApplyFailureExact(r.state, f);
        if FailureApplies(r.state, f) {
          RecordsNamed(s);
          OneMoreHit(s, r.state, before, f);
        }
      }
    }
  }

  lemma NothingHits(s: State)
    ensures AfterHits(s, s, [])
  {
  }

  lemma RecordsNamed(s: State)
    requires Inv(s, {}, MID)
    ensures forall p | p in s.processes :: s.processes[p].id == p
  {
    assert forall p | p in s.processes :: PlacedOk(s.processes[p], p, s.nodes, {});
  }

  // ---------------------------------------------------------------- the tick

  /** From a valid state a tick succeeds if and only if the simulation is not over, every submission due can
      enter, and every failure due lands: all read off the state before the tick. */
  lemma TickSucceedsExactly(s: State)
    requires Valid(s)
    ensures var defs := SortDefinitions(DueSubmissions(s, s.tick + 1));
      Step(s).error == Nil <==>
        && s.status != Completed
        && AllEnter(s, defs, s.tick + 1)
        && AllLand(s.nodes, Joined(s.processes, defs, s.tick + 1), DueFailures(s, s.tick + 1))
  {
    hide Inv, Valid, Step, BeginTick, ApplyScheduled, AllEnter, AllLand, SortDefinitions, Joined;
    StepExact(s);
    BeginTickKeeps(s);
    BeginFields(s);
    var b := BeginTick(s);
    ActionsSucceedExactly(b);
    EnterDependsOn(s, b, SortDefinitions(DueSubmissions(b, b.tick)), b.tick);
  }

  lemma ActionsSucceedExactly(b: State)
    requires Inv(b, {}, MID)
    ensures var defs := SortDefinitions(DueSubmissions(b, b.tick));
      ApplyScheduled(b).error == Nil <==>
        && AllEnter(b, defs, b.tick)
        && AllLand(b.nodes, Joined(b.processes, defs, b.tick), DueFailures(b, b.tick))
  {
    hide Inv, SubmitAll, ApplyFailures, AllEnter, AllLand, SortDefinitions, Joined;
    var due := DueSubmissions(b, b.tick);
    SubmitAllExact(b, SortDefinitions(due));
    SubmitAllKeeps(b, SortDefinitions(due));
    NothingDue(b);
    if SubmitAll(b, SortDefinitions(due)).error == Nil {
      var r := SubmitAll(b, SortDefinitions(due)).state;
      var s1 := if |due| > 0 then r.(pending := r.pending - {b.tick}) else r;
      StatusIsFree(r, {}, MID, s1);
      ApplyFailuresExact(s1, DueFailures(s1, b.tick));
    }
  }

  lemma EnterDependsOn(s: State, t: State, defs: seq<ProcessDefinition>, tick: int)
    requires s.processes == t.processes && s.maxProcesses == t.maxProcesses
    ensures AllEnter(s, defs, tick) == AllEnter(t, defs, tick)
  {
  }
}
