/** Whole scenario runs (internal/engine/engine.go `RunScenario`): what loads, who enters and when, and how a run
    ends. */
module ScenarioRuns {
  import opened Domain
  import opened Sums
  import opened Schedulers
  import opened Cluster
  import opened Scenarios
  import opened Invariants
  import opened Failures
  import opened Scheduling
  import opened Tick
  import opened Atomicity
  import opened Progress
  import opened Conservation
  import opened Loading
  import opened Runs

  // ---------------------------------------------------------------- what loads

  lemma {:induction false} ValidNodesBuild(defs: seq<NodeDefinition>, acc: map<Id, Node>)
    requires ValidateNodes(defs, acc.Keys) == Nil
    ensures BuildNodes(defs, acc).1 == Nil
    ensures BuildNodes(defs, acc).0.Keys == acc.Keys + NodeIds(defs)
  {
    if defs != [] {
      var n := NewNode(defs[0], 0).value;
      assert acc[n.id := n].Keys == acc.Keys + {defs[0].id};
      ValidNodesBuild(defs[1..], acc[n.id := n]);
      assert NodeIds(defs) == NodeIds(defs[1..]) + {defs[0].id} by {
        assert forall d | d in defs :: d == defs[0] || d in defs[1..];
      }
    }
  }

  lemma {:induction false} ValidProcessesBuild(defs: seq<ProcessDefinition>, acc: Intake, maxTicks: int)
    requires ValidateProcesses(defs, acc.ids, maxTicks) == Nil
    ensures BuildProcesses(defs, acc).1 == Nil
    ensures BuildProcesses(defs, acc).0.ids == acc.ids + ProcessIds(defs)
  {
    hide NewProcess, Append;
    if defs != [] {
      NameOfNew(defs[0], Max(defs[0].submitAtTick, 0));
      ValidProcessesBuild(defs[1..], Taken(acc, defs[0]), maxTicks);
      assert ProcessIds(defs) == ProcessIds(defs[1..]) + {defs[0].id} by {
        assert forall d | d in defs :: d == defs[0] || d in defs[1..];
      }
    }
  }

  /** The intake after one more definition. */
  function Taken(acc: Intake, d: ProcessDefinition): Intake {
    if d.submitAtTick > 0 then acc.(ids := acc.ids + {d.id}, pending := Append(acc.pending, d.submitAtTick, d))
    else
      match NewProcess(d, Max(d.submitAtTick, 0))
      case None => acc
      case Some(p) => acc.(ids := acc.ids + {p.id}, processes := acc.processes[p.id := p.(state := Ready)])
  }

  lemma {:induction false} ValidFailuresBuild(fs: seq<FailureDefinition>, seen: set<FailureDefinition>, sc: Scenario,
                                              nodes: map<Id, Node>, ids: set<Id>, acc: map<int, seq<FailureDefinition>>)
    requires ValidateFailures(fs, seen, sc) == Nil
    requires nodes.Keys == NodeIds(sc.nodes) && ids == ProcessIds(sc.processes)
    ensures BuildFailures(fs, nodes, ids, acc).1 == Nil
    decreases |fs|
  {
    hide Append;
    if fs != [] {
      assert ValidateFailure(fs[0], sc) == Nil;
      ValidFailuresBuild(fs[1..], seen + {fs[0]}, sc, nodes, ids, Append(acc, fs[0].tick, fs[0]));
    }
  }

  /** A scenario is accepted exactly when it validates, its scheduler is known, and it is within the
      limits; the further checks made while it is prepared never fail. */
  lemma PrepareAcceptsExactly(sc: Scenario, maxNodes: int, maxProcesses: int)
    ensures Prepare(sc, maxNodes, maxProcesses).0.Some? <==>
      && Validate(sc) == Nil && NewScheduler(sc.scheduler).Some?
      && |sc.nodes| <= maxNodes && |sc.processes| <= maxProcesses
  {
    hide BuildNodes, BuildProcesses, BuildFailures, ValidateNodes, ValidateProcesses, ValidateFailures;
    if Validate(sc) == Nil {
      var none: map<Id, Node> := map[];
      assert none.Keys == {};
      ValidNodesBuild(sc.nodes, none);
      ValidProcessesBuild(sc.processes, Intake({}, map[], map[]), sc.maxTicks);
      assert {} + NodeIds(sc.nodes) == NodeIds(sc.nodes) && {} + ProcessIds(sc.processes) == ProcessIds(sc.processes);
      ValidFailuresBuild(sc.failures, {}, sc, BuildNodes(sc.nodes, none).0,
                         BuildProcesses(sc.processes, Intake({}, map[], map[])).0.ids, map[]);
    }
  }

  // ---------------------------------------------------------------- who has entered

  ghost predicate DistinctNames(defs: seq<ProcessDefinition>) {
    forall i, j | 0 <= i < j < |defs| :: defs[i].id != defs[j].id
  }

  ghost predicate IsPending(pending: map<int, seq<ProcessDefinition>>, d: ProcessDefinition) {
    d.submitAtTick in pending && d in pending[d.submitAtTick]
  }

  /** Every definition is either pending under its own tick or has entered, once, at that tick (or at
      0 if it was due before the start); and no other process exists. */
  ghost predicate Roster(processes: map<Id, Process>, pending: map<int, seq<ProcessDefinition>>,
                         defs: seq<ProcessDefinition>) {
    && (forall t | t in pending ::
          DistinctNames(pending[t]) && forall d | d in pending[t] :: d in defs && d.submitAtTick == t)
    && (forall d | d in defs :: d.id in processes <==> !IsPending(pending, d))
    && (forall d | d in defs && d.id in processes ::
          processes[d.id].id == d.id && processes[d.id].submittedAt == Max(d.submitAtTick, 0))
    && (forall id | id in processes :: id in ProcessIds(defs))
  }

  lemma {:induction false} ValidNamesDistinct(defs: seq<ProcessDefinition>, seen: set<Id>, maxTicks: int)
    requires ValidateProcesses(defs, seen, maxTicks) == Nil
    ensures DistinctNames(defs) && forall d | d in defs :: d.id !in seen
  {
    if defs != [] {
      ValidNamesDistinct(defs[1..], seen + {defs[0].id}, maxTicks);
      assert forall i | 0 < i < |defs| :: defs[i] == defs[1..][i - 1] && defs[i] in defs[1..];
      assert forall d | d in defs :: d == defs[0] || d in defs[1..];
    }
  }

  lemma AppendRoster(processes: map<Id, Process>, pending: map<int, seq<ProcessDefinition>>,
                     defs: seq<ProcessDefinition>, d: ProcessDefinition)
    requires Roster(processes, pending, defs) && d.id !in ProcessIds(defs)
    ensures Roster(processes, Append(pending, d.submitAtTick, d), defs + [d])
  {
    hide NewProcess;
    var after := Append(pending, d.submitAtTick, d);
    var t := d.submitAtTick;
    var before := if t in pending then pending[t] else [];
    assert after[t] == before + [d];
    OneMoreId(defs, d);
    assert forall e | e in defs :: e.id in ProcessIds(defs);
    OneMoreName(before, d);
    forall e | e in defs + [d] ensures e.id in processes <==> !IsPending(after, e) {
      if e in defs { assert IsPending(after, e) <==> IsPending(pending, e); }
    }
  }

  lemma OneMoreId(defs: seq<ProcessDefinition>, d: ProcessDefinition)
    ensures ProcessIds(defs + [d]) == ProcessIds(defs) + {d.id}
  {
    assert forall e :: e in defs + [d] <==> e in defs || e == d;
  }

  lemma EnterRoster(processes: map<Id, Process>, pending: map<int, seq<ProcessDefinition>>,
                    defs: seq<ProcessDefinition>, d: ProcessDefinition, p: Process)
    requires Roster(processes, pending, defs) && d.id !in ProcessIds(defs)
    requires p.id == d.id && p.submittedAt == Max(d.submitAtTick, 0)
    ensures Roster(processes[p.id := p], pending, defs + [d])
  {
    var after := processes[p.id := p];
    assert forall e | e in defs :: e.id in ProcessIds(defs);
    assert IsPending(pending, d) ==> d in defs;
    forall e | e in defs + [d] ensures e.id in after <==> !IsPending(pending, e) {
      assert e in defs || e == d;
    }
    assert ProcessIds(defs + [d]) == ProcessIds(defs) + {d.id} by {
      assert forall e :: e in defs + [d] <==> e in defs || e == d;
    }
  }

  lemma {:induction false} BuildRoster(defs: seq<ProcessDefinition>, acc: Intake, done: seq<ProcessDefinition>)
    requires BuildProcesses(defs, acc).1 == Nil
    requires Roster(acc.processes, acc.pending, done) && acc.ids == ProcessIds(done)
    ensures var r := BuildProcesses(defs, acc).0; Roster(r.processes, r.pending, done + defs)
  {
    hide NewProcess, Append, Roster;
    if defs == [] {
      assert done + defs == done;
    } else {
      var d := defs[0];
      NewRecord(d, Max(d.submitAtTick, 0));
      var made := NewProcess(d, Max(d.submitAtTick, 0)).value;
      if d.submitAtTick > 0 {
        AppendRoster(acc.processes, acc.pending, done, d);
      } else {
        EnterRoster(acc.processes, acc.pending, done, d, made.(state := Ready));
      }
      assert ProcessIds(done + [d]) == ProcessIds(done) + {d.id} by {
        assert forall e :: e in done + [d] <==> e in done || e == d;
      }
      BuildRoster(defs[1..], Taken(acc, d), done + [d]);
      assert done + [d] + defs[1..] == done + defs;
    }
  }

  lemma NewRecord(d: ProcessDefinition, tick: int)
    ensures NewProcess(d, tick).Some? ==>
      NewProcess(d, tick).value.id == d.id && NewProcess(d, tick).value.submittedAt == tick
  {
  }

  // ---------------------------------------------------------------- due submissions enter

  lemma {:induction false} InsertKeeps(d: ProcessDefinition, q: seq<ProcessDefinition>)
    ensures forall x :: x in InsertDefinition(d, q) <==> x == d || x in q
    ensures DistinctNames(q) && (forall x | x in q :: x.id != d.id) ==> DistinctNames(InsertDefinition(d, q))
  {
    hide DistinctNames;
    if q != [] && d.id < q[|q| - 1].id {
      var front, last := q[..|q| - 1], q[|q| - 1];
      InsertKeeps(d, front);
      assert q == front + [last];
      var r := InsertDefinition(d, front);
      if DistinctNames(q) && forall x | x in q :: x.id != d.id {
        FrontDistinct(q);
        OneMoreName(r, last);
      }
    } else if DistinctNames(q) && forall x | x in q :: x.id != d.id {
      OneMoreName(q, d);
      assert q == [] ==> q + [d] == [d];
    }
  }

  lemma OneMoreName(q: seq<ProcessDefinition>, d: ProcessDefinition)
    requires DistinctNames(q) && forall x | x in q :: x.id != d.id
    ensures DistinctNames(q + [d])
  {
    assert forall i | 0 <= i < |q| :: q[i] in q;
  }

  lemma FrontDistinct(q: seq<ProcessDefinition>)
    requires DistinctNames(q) && q != []
    ensures DistinctNames(q[..|q| - 1]) && forall x | x in q[..|q| - 1] :: x.id != q[|q| - 1].id
  {
    forall x | x in q[..|q| - 1] ensures x.id != q[|q| - 1].id {
      var i :| 0 <= i < |q| - 1 && q[..|q| - 1][i] == x;
    }
  }

  /** Sorting the due definitions keeps them all. */
  lemma {:induction false} SortKeeps(q: seq<ProcessDefinition>)
    ensures forall x :: x in SortDefinitions(q) <==> x in q
    ensures DistinctNames(q) ==> DistinctNames(SortDefinitions(q))
  {
    if q != [] {
      var front := q[..|q| - 1];
      SortKeeps(front);
      assert q == front + [q[|q| - 1]];
      assert forall i | 0 <= i < |front| :: q[i] == front[i] && front[i] in front;
      InsertKeeps(q[|q| - 1], SortDefinitions(front));
      if DistinctNames(q) {
        forall x | x in front ensures x.id != q[|q| - 1].id {
          var i :| 0 <= i < |front| && front[i] == x;
        }
      }
    }
  }

  /** The submitted processes, and nothing else, are new. */
  ghost predicate Entered(s: State, t: State, defs: seq<ProcessDefinition>) {
    && (forall id :: id in t.processes <==> id in s.processes || id in ProcessIds(defs))
    && (forall id | id in s.processes :: t.processes[id] == s.processes[id])
    && (forall d | d in defs ::
          d.id in t.processes && t.processes[d.id].id == d.id && t.processes[d.id].submittedAt == s.tick)
  }

  lemma SubmitEnters(s: State, d: ProcessDefinition)
    requires Submit(s, d).error == Nil
    ensures Entered(s, Submit(s, d).state, [d]) && d.id !in s.processes && Submit(s, d).state.tick == s.tick
  {
  }

  lemma {:induction false} SubmitAllEnters(s: State, defs: seq<ProcessDefinition>)
    requires SubmitAll(s, defs).error == Nil
    ensures Entered(s, SubmitAll(s, defs).state, defs)
    decreases |defs|
  {
    hide Submit;
    if defs != [] {
      SubmitEnters(s, defs[0]);
      var s1 := Submit(s, defs[0]).state;
      SubmitAllEnters(s1, defs[1..]);
      assert forall d | d in defs :: d == defs[0] || d in defs[1..];
      assert defs[0] in [defs[0]];
      EnteredCompose(s, s1, SubmitAll(s1, defs[1..]).state, defs);
    }
  }

  lemma EnteredCompose(s: State, s1: State, t: State, defs: seq<ProcessDefinition>)
    requires defs != [] && Entered(s, s1, [defs[0]]) && Entered(s1, t, defs[1..]) && s1.tick == s.tick
    ensures Entered(s, t, defs)
  {
    assert forall d | d in defs :: d == defs[0] || d in defs[1..];
    assert defs[0] in [defs[0]];
    assert ProcessIds(defs) == ProcessIds(defs[1..]) + {defs[0].id};
    assert ProcessIds([defs[0]]) == {defs[0].id};
  }

  ghost predicate SameJobs(a: map<Id, Process>, b: map<Id, Process>) {
    a.Keys == b.Keys && forall id | id in a :: SameJob(a[id], b[id])
  }

  lemma SameJobsTransitive(a: map<Id, Process>, b: map<Id, Process>, c: map<Id, Process>)
    requires SameJobs(a, b) && SameJobs(b, c)
    ensures SameJobs(a, c)
  {
  }

  lemma RosterOfSameJobs(a: map<Id, Process>, b: map<Id, Process>, pending: map<int, seq<ProcessDefinition>>,
                         defs: seq<ProcessDefinition>)
    requires Roster(a, pending, defs) && SameJobs(a, b)
    ensures Roster(b, pending, defs)
  {
  }

  /** The due definitions leave the calendar as they enter. */
  lemma DueRoster(s: State, t: State, defs: seq<ProcessDefinition>, due: seq<ProcessDefinition>,
      sorted: seq<ProcessDefinition>)
    requires Roster(s.processes, s.pending, defs) && DistinctNames(defs) && 0 <= s.tick
    requires due == DueSubmissions(s, s.tick) && (forall x :: x in sorted <==> x in due) && Entered(s, t, sorted)
    ensures Roster(t.processes, s.pending - {s.tick}, defs)
  {
    var left := s.pending - {s.tick};
    forall d | d in defs ensures d.id in t.processes <==> !IsPending(left, d) {
      if d in sorted {
        assert d in s.pending[s.tick] && d.submitAtTick == s.tick;
      } else {
        assert IsPending(left, d) <==> IsPending(s.pending, d);
        if d.id in ProcessIds(sorted) {
          var e :| e in sorted && e.id == d.id;
          SameNameSameDefinition(defs, d, e);
        }
      }
    }
    forall d | d in defs && d.id in t.processes ensures t.processes[d.id].submittedAt == Max(d.submitAtTick, 0) {
      if d.id !in s.processes {
        var e :| e in sorted && e.id == d.id;
        SameNameSameDefinition(defs, d, e);
      }
    }
    forall id | id in t.processes ensures id in ProcessIds(defs) {
      if id !in s.processes {
        var e :| e in sorted && e.id == id;
        assert e in defs;
      }
    }
  }

  lemma SameNameSameDefinition(defs: seq<ProcessDefinition>, d: ProcessDefinition, e: ProcessDefinition)
    requires DistinctNames(defs) && d in defs && e in defs && d.id == e.id
    ensures d == e
  {
    var i :| 0 <= i < |defs| && defs[i] == d;
    var j :| 0 <= j < |defs| && defs[j] == e;
  }

  // ---------------------------------------------------------------- the roster over a tick

  lemma CarriedJobs(a: map<Id, Process>, b: map<Id, Process>)
    requires CarriedOver(a, b) && a.Keys == b.Keys
    ensures SameJobs(a, b)
  {
    assert forall id | id in a :: Carried(a[id], b[id]);
  }

  lemma ExecutedJobs(processes: map<Id, Process>, ids: set<Id>, tick: int)
    ensures SameJobs(processes, AllExecuted(processes, ids, tick))
  {
  }

  /** After its scheduled actions a tick changes no job. */
  lemma TrailKeepsJobs(s: State)
    requires Valid(s)
    ensures SameJobs(TrailOf(s).acted.processes, TrailOf(s).final.processes)
  {
    hide Inv, Valid, TrailOf, PassEffect, CarriedOver, SameJobs, AllFailed, AllExecuted, ReadyQueue;
    TrailEffects(s);
    var t := TrailOf(s);
    FailureCarries(t.acted.processes, RunningOn(t.acted.processes, StaleNow(t.acted)), t.acted.tick);
    FailedKeys(t.acted.processes, RunningOn(t.acted.processes, StaleNow(t.acted)), t.acted.tick);
    CarriedJobs(t.acted.processes, t.alive.processes);
    PassCarries(t.alive, t.scheduled, ReadyQueue(t.alive));
    PassKeys(t.alive, t.scheduled, ReadyQueue(t.alive));
    CarriedJobs(t.alive.processes, t.scheduled.processes);
    ExecutedJobs(t.scheduled.processes, RunningSet(t.scheduled), t.scheduled.tick);
    SameJobsTransitive(t.acted.processes, t.alive.processes, t.scheduled.processes);
    SameJobsTransitive(t.acted.processes, t.scheduled.processes, t.final.processes);
  }

  lemma FailedKeys(processes: map<Id, Process>, lost: set<Id>, tick: int)
    ensures AllFailed(processes, lost, tick).Keys == processes.Keys
  {
  }

  lemma PassKeys(s: State, t: State, queue: seq<Process>)
    requires PassEffect(s, t, queue)
    ensures s.processes.Keys == t.processes.Keys
  {
  }

  /** Scheduled actions let the due definitions in and change no other job. */
  lemma ActionsRoster(s: State, defs: seq<ProcessDefinition>)
    requires Inv(s, {}, MID) && ApplyScheduled(s).error == Nil
    requires Roster(s.processes, s.pending, defs) && DistinctNames(defs)
    ensures Roster(ApplyScheduled(s).state.processes, s.pending - {s.tick}, defs)
  {
    hide Inv, SubmitAll, ApplyFailures, SortDefinitions, Roster, Entered, CarriedOver, SameJobs;
    var due := DueSubmissions(s, s.tick);
    var sorted := SortDefinitions(due);
    InvTick(s);
    SortKeeps(due);
    SubmitAllKeeps(s, sorted);
    NothingDue(s);
    SubmitAllEnters(s, sorted);
    var t := SubmitAll(s, sorted).state;
    DueRoster(s, t, defs, due, sorted);
    var s1 := if |due| > 0 then t.(pending := t.pending - {s.tick}) else t;
    StatusIsFree(t, {}, MID, s1);
    ApplyFailuresCarry(s1, DueFailures(s1, s.tick));
    FailuresOnlyChange(s1, DueFailures(s1, s.tick));
    var u := ApplyFailures(s1, DueFailures(s1, s.tick)).state;
    CarriedJobs(s1.processes, u.processes);
    RosterOfSameJobs(s1.processes, u.processes, s.pending - {s.tick}, defs);
  }

  lemma InvTick(s: State)
    requires Inv(s, {}, MID)
    ensures 0 <= s.tick
  {
  }

  /** A successful tick keeps the roster; the definitions due at it enter. */
  lemma TickRoster(s: State, defs: seq<ProcessDefinition>)
    requires Valid(s) && Calendar(s) && Roster(s.processes, s.pending, defs) && DistinctNames(defs)
    ensures Roster(Step(s).state.processes, Step(s).state.pending, defs)
  {
    hide Inv, Valid, Step, TrailOf, BeginTick, ApplyScheduled, Roster, SameJobs, Calendar;
    StepExact(s);
    if Step(s).error == Nil {
      BeginTickKeeps(s);
      BeginFields(s);
      ActionsRoster(BeginTick(s), defs);
      TrailActs(s);
      TrailKeepsJobs(s);
      CalendarTick(s);
      RosterOfSameJobs(TrailOf(s).acted.processes, TrailOf(s).final.processes, Step(s).state.pending, defs);
    }
  }

  lemma PreparedRoster(sc: Scenario, maxNodes: int, maxProcesses: int)
    ensures var p := Prepare(sc, maxNodes, maxProcesses).0;
      p.Some? ==> Roster(p.value.processes, p.value.pending, sc.processes) && DistinctNames(sc.processes)
  {
    hide Validate, BuildNodes, BuildProcesses, BuildFailures, Roster;
    if Prepare(sc, maxNodes, maxProcesses).0.Some? {
      EmptyRoster();
      BuildRoster(sc.processes, Intake({}, map[], map[]), []);
      assert [] + sc.processes == sc.processes;
      ValidParts(sc);
      ValidNamesDistinct(sc.processes, {}, sc.maxTicks);
    }
  }

  /** A loaded scenario, field by field. */
  lemma LoadedFields(s: State, sc: Scenario)
    requires LoadScenario(s, sc).error == Nil
    ensures var p := Prepare(sc, s.maxNodes, s.maxProcesses).0;
      var t := LoadScenario(s, sc).state;
      && p.Some? && PreparedOk(p.value) && t == Install(s, p.value)
      && t == Bare(s, p.value).(events := t.events, sequence := t.sequence)
  {
    hide Prepare, Install, PreparedOk, Bare, NewNodeOk, NewProcessOk;
    PrepareOk(sc, s.maxNodes, s.maxProcesses);
    PrepareErrors(sc, s.maxNodes, s.maxProcesses);
    var p := Prepare(sc, s.maxNodes, s.maxProcesses).0.value;
    PreparedProcesses(p);
    LoadedLogs(s, p);
  }

  lemma PreparedProcesses(p: Prepared)
    requires PreparedOk(p)
    ensures forall id | id in p.processes :: NewProcessOk(p.processes[id], id)
  {
  }

  lemma LoadedRoster(s: State, sc: Scenario)
    requires LoadScenario(s, sc).error == Nil
    ensures var t := LoadScenario(s, sc).state;
      Roster(t.processes, t.pending, sc.processes) && DistinctNames(sc.processes)
  {
    hide Roster, LoadScenario, Prepare, Install, PreparedOk, DistinctNames;
    LoadedFields(s, sc);
    PreparedRoster(sc, s.maxNodes, s.maxProcesses);
  }

  lemma EmptyRoster()
    ensures Roster(map[], map[], [])
  {
  }

  lemma ValidParts(sc: Scenario)
    requires Validate(sc) == Nil
    ensures ValidateNodes(sc.nodes, {}) == Nil && ValidateProcesses(sc.processes, {}, sc.maxTicks) == Nil
    ensures ValidateFailures(sc.failures, {}, sc) == Nil && sc.maxTicks > 0
  {
    hide ValidateNodes, ValidateProcesses, ValidateFailures;
  }

  /** The names still waiting for their tick. */
  ghost function PendingNames(pending: map<int, seq<ProcessDefinition>>, defs: seq<ProcessDefinition>): set<Id> {
    set d | d in defs && IsPending(pending, d) :: d.id
  }

  lemma RosterCounts(processes: map<Id, Process>, pending: map<int, seq<ProcessDefinition>>,
      defs: seq<ProcessDefinition>)
    requires Roster(processes, pending, defs) && DistinctNames(defs)
    ensures processes.Keys !! PendingNames(pending, defs)
    ensures |processes| + |PendingNames(pending, defs)| == |defs|
  {
    var waiting := PendingNames(pending, defs);
    forall id | id in waiting ensures id !in processes {
      var d :| d in defs && IsPending(pending, d) && d.id == id;
    }
    forall id | id in ProcessIds(defs) ensures id in processes || id in waiting {
      var d :| d in defs && d.id == id;
    }
    assert ProcessIds(defs) == processes.Keys + waiting;
    NamesCount(defs);
  }

  lemma {:induction false} NamesCount(defs: seq<ProcessDefinition>)
    requires DistinctNames(defs)
    ensures |ProcessIds(defs)| == |defs|
  {
    hide DistinctNames, ProcessIds;
    if defs == [] {
      NoNames();
    } else {
      NamesSplit(defs);
      NamesCount(defs[1..]);
    }
  }

  lemma NoNames()
    ensures ProcessIds([]) == {}
  {
  }

  lemma NamesSplit(defs: seq<ProcessDefinition>)
    requires DistinctNames(defs) && defs != []
    ensures DistinctNames(defs[1..]) && defs[0].id !in ProcessIds(defs[1..])
    ensures ProcessIds(defs) == ProcessIds(defs[1..]) + {defs[0].id}
  {
    assert forall d | d in defs :: d == defs[0] || d in defs[1..];
    forall d | d in defs[1..] ensures d.id != defs[0].id {
      var i :| 0 <= i < |defs[1..]| && defs[1..][i] == d;
      assert defs[i + 1] == d;
    }
  }

  /** Over any number of ticks of a loaded scenario: every definition enters exactly once, at the later
      of its tick and 0; live and pending processes together stay as many as there are definitions;
      and everything still scheduled lies ahead. */
  lemma {:induction false} EveryDefinitionEntersOnce(s: State, sc: Scenario, k: nat)
    requires LoadScenario(s, sc).error == Nil
    ensures var t := AfterTicks(LoadScenario(s, sc).state, k);
      && Roster(t.processes, t.pending, sc.processes) && Valid(t) && Calendar(t)
      && |t.processes| + |PendingNames(t.pending, sc.processes)| == |sc.processes|
  {
    hide Valid, Step, Roster, LoadScenario, PendingNames, Calendar;
    LoadedRoster(s, sc);
    LoadExact(s, sc);
    var t0 := LoadScenario(s, sc).state;
    if k > 0 {
      EveryDefinitionEntersOnce(s, sc, k - 1);
      var t := AfterTicks(t0, k - 1);
      TickRoster(t, sc.processes);
      StepExact(t);
      if Step(t).error == Nil { CalendarTick(t); }
    }
    RosterCounts(AfterTicks(t0, k).processes, AfterTicks(t0, k).pending, sc.processes);
  }

  // ---------------------------------------------------------------- how a run ends

  const OUT_OF_TICKS := Requested("maximum tick count reached")

  /** The loop of `RunScenario`, and the `Finish` behind it. */
  ghost function RunLoop(s: State, count: nat): Reply
    decreases count
  {
    if count == 0 then Reply(Finish(s, OUT_OF_TICKS), Nil)
    else
      var r := Step(s);
      if r.error != Nil || r.state.status == Completed then r else RunLoop(r.state, count - 1)
  }

  ghost function RunScenario(s: State, sc: Scenario): Reply {
    if Prepare(sc, s.maxNodes, s.maxProcesses).0.None? then Reply(s, Prepare(sc, s.maxNodes, s.maxProcesses).1)
    else
      var r := LoadScenario(s, sc);
      if r.error != Nil || sc.maxTicks < 0 then r else RunLoop(r.state, sc.maxTicks)
  }

  /** A scenario run forgets what came before it: under the same configuration, the same scenario gives
      the same log, statistics, records and outcome, whatever the controller did earlier. */
  lemma SameScenarioSameResult(s: State, t: State, sc: Scenario)
    requires s.heartbeatTimeout == t.heartbeatTimeout && s.maxNodes == t.maxNodes && s.maxProcesses == t.maxProcesses
    ensures RunScenario(s, sc).error == RunScenario(t, sc).error
    ensures Prepare(sc, s.maxNodes, s.maxProcesses).0.Some? ==> RunScenario(s, sc) == RunScenario(t, sc)
  {
    hide Prepare, LoadScenario, RunLoop, Valid, Calendar;
    LoadExact(s, sc);
    LoadExact(t, sc);
    if Prepare(sc, s.maxNodes, s.maxProcesses).0.Some? {
      LoadForgets(s, t, sc);
    }
  }

  /** The tick at which the limit is reached stops the simulation, and never with a requested reason. */
  lemma LimitStops(s: State)
    requires Valid(s) && Step(s).error == Nil && s.maxTicks > 0
    ensures var t := Step(s).state;
      && t.tick == s.tick + 1 && t.maxTicks == s.maxTicks && t.maxProcesses == s.maxProcesses
      && t.maxNodes == s.maxNodes && t.heartbeatTimeout == s.heartbeatTimeout
      && (t.tick >= t.maxTicks ==> t.status == Completed)
      && (t.status == Completed ==> !t.reason.Requested?)
  {
    hide Inv, Valid, Step, TrailOf, ApplyScheduled, BeginTick, AllProcessesTerminal, BlockReason, PassEffect, AllFuller;
    StepExact(s);
    BeginTickKeeps(s);
    BeginFields(s);
    ApplyScheduledKeeps(BeginTick(s));
    TrailActs(s);
    TrailEffects(s);
    PassSettings(s);
    BlockReasonMeansStuck(TrailOf(s).executed);
  }

  /** The loop ends inside: with an error, or completed by a tick no later than the limit. */
  lemma {:induction false} LoopEndsByLimit(s: State, count: nat)
    requires Valid(s) && s.maxTicks > 0 && s.tick + count == s.maxTicks && 0 < count
    ensures var r := RunLoop(s, count);
      r.error == Nil ==> r.state.status == Completed && !r.state.reason.Requested? && r.state.tick <= s.maxTicks
    decreases count
  {
    hide Valid, Step;
    StepExact(s);
    if Step(s).error == Nil {
      LimitStops(s);
      if Step(s).state.status != Completed {
        LoopEndsByLimit(Step(s).state, count - 1);
      }
    }
  }

  /** Every scenario run without an error completes at a tick by its limit; the `Finish` behind the loop
      is never reached. */
  lemma RunsEndByLimit(s: State, sc: Scenario)
    requires RunScenario(s, sc).error == Nil
    ensures var t := RunScenario(s, sc).state;
      t.status == Completed && !t.reason.Requested? && t.tick <= sc.maxTicks
  {
    hide Valid, Step, Prepare, LoadScenario, RunLoop, Calendar;
    LoadExact(s, sc);
    PrepareErrors(sc, s.maxNodes, s.maxProcesses);
    LoadedLimit(s, sc);
    LoopEndsByLimit(LoadScenario(s, sc).state, sc.maxTicks);
  }

  lemma LoadedLimit(s: State, sc: Scenario)
    requires Prepare(sc, s.maxNodes, s.maxProcesses).0.Some?
    ensures sc.maxTicks > 0
  {
    hide ValidateNodes, ValidateProcesses, ValidateFailures, BuildNodes, BuildProcesses, BuildFailures;
    ValidParts(sc);
  }

  // ---------------------------------------------------------------- what a run conserves

  lemma {:induction false} TicksShift(s: State, k: nat)
    ensures AfterTicks(Step(s).state, k) == AfterTicks(s, k + 1)
  {
    hide Step;
    if k > 0 {
      TicksShift(s, k - 1);
    }
  }

  ghost predicate SameCluster(a: State, b: State) {
    a.processes == b.processes && a.nodes == b.nodes && a.stats == b.stats
  }

  lemma {:induction false} LoopIsTicks(s: State, count: nat) returns (k: nat)
    ensures SameCluster(RunLoop(s, count).state, AfterTicks(s, k))
    decreases count
  {
    hide Step;
    k := 0;
    if count > 0 {
      var r := Step(s);
      if r.error != Nil || r.state.status == Completed {
        k := 1;
        assert AfterTicks(s, 0) == s;
      } else {
        k := LoopIsTicks(r.state, count - 1);
        TicksShift(s, k);
        k := k + 1;
      }
    }
  }

  lemma LoadedIsFresh(s: State, sc: Scenario, r: Resource)
    requires LoadScenario(s, sc).error == Nil
    ensures var t := LoadScenario(s, sc).state;
      && UtilizationSum(t, r) == 0.0
      && forall id | id in t.processes ::
           t.processes[id].remainingTicks == t.processes[id].totalTicks && t.processes[id].restartCount == 0
  {
    hide Prepare, LoadScenario, Install, NewNodeOk, RecordOk;
    LoadedFields(s, sc);
    var p := Prepare(sc, s.maxNodes, s.maxProcesses).0.value;
    assert forall id | id in p.processes :: NewProcessOk(p.processes[id], id);
  }

  /** Over a whole scenario run in which nothing was restarted, however it ends, summed utilization times
      capacity is what each process asks for times the ticks it has worked. */
  lemma ScenarioConserves(s: State, sc: Scenario, r: Resource)
    requires Prepare(sc, s.maxNodes, s.maxProcesses).0.Some?
    requires forall id | id in RunScenario(s, sc).state.processes ::
      RunScenario(s, sc).state.processes[id].restartCount == 0
    ensures var t := RunScenario(s, sc).state;
      UtilizationSum(t, r) * TotalCapacity(LoadScenario(s, sc).state.nodes, r) as real
        == MapSum(Progressed(t, r)) as real
  {
    hide Valid, Step, Prepare, LoadScenario, RunLoop, Calendar, AfterTicks, TotalCapacity;
    LoadExact(s, sc);
    LoadedLimit(s, sc);
    LoadedIsFresh(s, sc, r);
    var loaded := LoadScenario(s, sc).state;
    var k := LoopIsTicks(loaded, sc.maxTicks);
    assert RunScenario(s, sc) == RunLoop(loaded, sc.maxTicks);
    assert AfterTicks(loaded, k).processes == RunScenario(s, sc).state.processes;
    FreshRunConserves(loaded, k, r);
  }

  // ---------------------------------------------------------------- runs without errors

  ghost predicate NodeFailuresOn(fs: seq<FailureDefinition>, nodes: map<Id, Node>) {
    && (forall i | 0 <= i < |fs| ::
          fs[i].kind == NodeFailure && fs[i].nodeId in nodes && nodes[fs[i].nodeId].status != NodeFailed)
    && (forall i, j | 0 <= i < j < |fs| :: fs[i].nodeId != fs[j].nodeId)
  }

  ghost function Targets(fs: seq<FailureDefinition>): set<Id> {
    set f | f in fs :: f.nodeId
  }

  /** Failures of distinct nodes that are up all apply, and touch no other node. */
  lemma {:induction false} NodeFailuresApply(s: State, fs: seq<FailureDefinition>)
    requires Inv(s, {}, MID) && NodeFailuresOn(fs, s.nodes)
    ensures ApplyFailures(s, fs).error == Nil
    ensures var t := ApplyFailures(s, fs).state;
      && t.nodes.Keys == s.nodes.Keys && forall n | n in s.nodes && n !in Targets(fs) :: t.nodes[n] == s.nodes[n]
    decreases |fs|
  {
    hide Inv, ApplyFailure, FailNodeLocked;
    if fs != [] {
      var id := fs[0].nodeId;
      ApplyFailureExact(s, fs[0]);
      OneNodeFails(s, fs[0]);
      var s1 := ApplyFailure(s, fs[0]).state;
      assert forall i | 0 < i < |fs| :: fs[1..][i - 1] == fs[i];
      NodeFailuresApply(s1, fs[1..]);
      assert forall f | f in fs :: f == fs[0] || f in fs[1..];
      assert forall n | n !in Targets(fs) :: n !in Targets(fs[1..]) && n != id by {
        assert fs[0] in fs;
        assert forall f | f in fs[1..] :: f in fs;
      }
    }
  }

  lemma OneNodeFails(s: State, f: FailureDefinition)
    requires Inv(s, {}, MID) && f.kind == NodeFailure && f.nodeId in s.nodes && s.nodes[f.nodeId].status != NodeFailed
    ensures ApplyFailure(s, f).state.nodes == s.nodes[f.nodeId := DownNode(s.nodes[f.nodeId])]
  {
    hide Inv, FailNodeLocked;
    FailNodeExact(s, MID, f.nodeId);
  }

  lemma {:induction false} SubmitAllApplies(s: State, defs: seq<ProcessDefinition>)
    requires DistinctNames(defs) && |s.processes| + |defs| <= s.maxProcesses
    requires forall d | d in defs :: d.id !in s.processes && NewProcess(d, s.tick).Some?
    ensures SubmitAll(s, defs).error == Nil
    decreases |defs|
  {
    hide Submit, NewProcess;
    if defs != [] {
      assert defs[0] in defs;
      SubmitErrs(s, defs[0]);
      SubmitGrows(s, defs[0]);
      assert forall d | d in defs[1..] :: d in defs;
      assert forall i | 0 < i < |defs| :: defs[1..][i - 1] == defs[i];
      SubmitAllApplies(Submit(s, defs[0]).state, defs[1..]);
    }
  }

  lemma SubmitGrows(s: State, d: ProcessDefinition)
    requires Submit(s, d).error == Nil
    ensures var t := Submit(s, d).state;
      && |t.processes| == |s.processes| + 1 && t.tick == s.tick && t.maxProcesses == s.maxProcesses
      && forall id :: id in t.processes <==> id in s.processes || id == d.id
  {
    var t := Submit(s, d).state;
    assert t.processes.Keys == s.processes.Keys + {d.id};
  }

  /** What is planned for the nodes: one failure at most for each, none of them down yet, and no heartbeats. */
  ghost predicate Planned(s: State) {
    && s.heartbeatTimeout <= 0
    && (forall t | t in s.failures :: NodeFailuresOn(s.failures[t], s.nodes))
    && DistinctTargets(s.failures)
  }

  ghost predicate DistinctTargets(failures: map<int, seq<FailureDefinition>>) {
    forall t, u | t in failures && u in failures && t != u :: Targets(failures[t]) !! Targets(failures[u])
  }

  /** The definitions are well-formed and few enough. */
  ghost predicate Admissible(defs: seq<ProcessDefinition>, maxProcesses: int) {
    && DistinctNames(defs) && |defs| <= maxProcesses
    && forall d | d in defs :: NewProcess(d, 0).Some?
  }

  lemma FormIsTimeless(d: ProcessDefinition, t: int, u: int)
    ensures NewProcess(d, t).Some? <==> NewProcess(d, u).Some?
  {
  }

  lemma DueApply(s: State, defs: seq<ProcessDefinition>)
    requires Roster(s.processes, s.pending, defs) && Admissible(defs, s.maxProcesses)
    ensures SubmitAll(s, SortDefinitions(DueSubmissions(s, s.tick))).error == Nil
  {
    hide NewProcess, SubmitAll, SortDefinitions;
    var due := DueSubmissions(s, s.tick);
    SortKeeps(due);
    var sorted := SortDefinitions(due);
    forall d | d in sorted ensures d.id !in s.processes && NewProcess(d, s.tick).Some? && d in defs {
      assert d in s.pending[s.tick] && IsPending(s.pending, d);
      FormIsTimeless(d, 0, s.tick);
    }
    RosterCounts(s.processes, s.pending, defs);
    NamesCount(sorted);
    var waiting := PendingNames(s.pending, defs);
    forall id | id in ProcessIds(sorted) ensures id in waiting {
      var d :| d in sorted && d.id == id;
      assert IsPending(s.pending, d);
    }
    SubsetSize(ProcessIds(sorted), waiting);
    SubmitAllApplies(s, sorted);
  }

  /** Nothing scheduled for the new tick can fail. */
  lemma ActionsApply(s: State, defs: seq<ProcessDefinition>)
    requires Inv(s, {}, MID) && Planned(s)
    requires Roster(s.processes, s.pending, defs) && Admissible(defs, s.maxProcesses)
    ensures ApplyScheduled(s).error == Nil
    ensures var t := ApplyScheduled(s).state;
      && t.nodes.Keys == s.nodes.Keys
      && forall n | n in s.nodes && n !in Targets(DueFailures(s, s.tick)) :: t.nodes[n] == s.nodes[n]
  {
    hide Inv, SubmitAll, ApplyFailures, SortDefinitions, Roster, Admissible, DistinctTargets;
    DueApply(s, defs);
    var due := DueSubmissions(s, s.tick);
    SubmitAllKeeps(s, SortDefinitions(due));
    NothingDue(s);
    var t := SubmitAll(s, SortDefinitions(due)).state;
    var s1 := if |due| > 0 then t.(pending := t.pending - {s.tick}) else t;
    StatusIsFree(t, {}, MID, s1);
    NodeFailuresApply(s1, DueFailures(s1, s.tick));
  }

  lemma AttemptedNodes(s: State)
    requires Valid(s) && s.heartbeatTimeout <= 0
    ensures SameStatuses(TrailOf(s).acted.nodes, TrailOf(s).final.nodes)
  {
    hide Inv, Valid, TrailOf, ApplyScheduled, BeginTick, PassEffect, AllFailed, AllExecuted, ReadyQueue, AllFuller,
         SameStatuses, Downed, RunningOn;
    BeginTickKeeps(s);
    BeginFields(s);
    ApplyScheduledKeeps(BeginTick(s));
    TrailActs(s);
    TrailEffects(s);
    var t := TrailOf(s);
    NothingDowned(t.acted.nodes, t.acted.processes, t.acted.tick);
    PassFills(t.alive, t.scheduled, ReadyQueue(t.alive));
    FillingKeepsStatuses(t.alive.nodes, t.scheduled.nodes);
    FillingKeepsStatuses(t.executed.nodes, t.scheduled.nodes);
    StatusesCompose(t.alive.nodes, t.scheduled.nodes, t.executed.nodes);
  }

  ghost predicate SameStatuses(a: map<Id, Node>, b: map<Id, Node>) {
    b.Keys == a.Keys && forall n | n in a :: b[n].status == a[n].status
  }

  lemma FillingKeepsStatuses(a: map<Id, Node>, b: map<Id, Node>)
    requires AllFuller(a, b)
    ensures SameStatuses(a, b)
  {
    assert forall n | n in a :: Fuller(a[n], b[n]);
  }

  lemma StatusesCompose(a: map<Id, Node>, b: map<Id, Node>, c: map<Id, Node>)
    requires SameStatuses(a, b) && SameStatuses(c, b)
    ensures SameStatuses(a, c)
  {
  }

  /** A planned tick succeeds, and leaves a plan. */
  lemma PlannedTick(s: State, defs: seq<ProcessDefinition>)
    requires Valid(s) && Calendar(s) && Planned(s) && s.status != Completed
    requires Roster(s.processes, s.pending, defs) && Admissible(defs, s.maxProcesses)
    ensures Step(s).error == Nil && Planned(Step(s).state)
  {
    hide Inv, Valid, Step, TrailOf, ApplyScheduled, BeginTick, Roster, Admissible, NodeFailuresOn, DistinctTargets,
         Targets;
    StepExact(s);
    BeginTickKeeps(s);
    BeginFields(s);
    var b := BeginTick(s);
    ActionsApply(b, defs);
    TrailActs(s);
    AttemptedNodes(s);
    CalendarTick(s);
    var t := Step(s).state;
    StepKeepsTimeout(s);
    forall u | u in t.failures ensures NodeFailuresOn(t.failures[u], t.nodes) {
      PlanSurvives(s.failures, s.nodes, t.nodes, s.tick + 1, u);
    }
    FewerTargets(s.failures, t.failures);
  }

  lemma StepKeepsTimeout(s: State)
    requires Valid(s) && Step(s).error == Nil
    ensures Step(s).state.heartbeatTimeout == s.heartbeatTimeout
  {
    hide Valid, Step;
    TickIsFresh(s);
  }

  lemma PlanSurvives(failures: map<int, seq<FailureDefinition>>, before: map<Id, Node>, after: map<Id, Node>,
      tick: int, u: int)
    requires u in failures && u != tick && DistinctTargets(failures) && NodeFailuresOn(failures[u], before)
    requires before.Keys == after.Keys
    requires forall n | n in before && n !in Targets(if tick in failures then failures[tick] else []) ::
      after[n].status == before[n].status
    ensures NodeFailuresOn(failures[u], after)
  {
    var fs := failures[u];
    forall i | 0 <= i < |fs| ensures fs[i].nodeId in after && after[fs[i].nodeId].status != NodeFailed {
      assert fs[i] in fs && fs[i].nodeId in Targets(fs);
    }
  }

  lemma FewerTargets(a: map<int, seq<FailureDefinition>>, b: map<int, seq<FailureDefinition>>)
    requires DistinctTargets(a) && forall t | t in b :: t in a && b[t] == a[t]
    ensures DistinctTargets(b)
  {
  }

  /** The loop of a planned run never meets an error. */
  lemma {:induction false} PlannedLoop(s: State, defs: seq<ProcessDefinition>, count: nat)
    requires Valid(s) && Calendar(s) && Planned(s) && s.status != Completed && s.maxTicks > 0
    requires Roster(s.processes, s.pending, defs) && Admissible(defs, s.maxProcesses)
    ensures RunLoop(s, count).error == Nil
    decreases count
  {
    hide Valid, Step, Calendar, Planned, Roster, Admissible;
    if count > 0 {
      PlannedTick(s, defs);
      AdmittedRoster(s, defs);
      StepExact(s);
      CalendarTick(s);
      LimitStops(s);
      if Step(s).state.status != Completed {
        PlannedLoop(Step(s).state, defs, count - 1);
      }
    }
  }

  lemma AdmittedRoster(s: State, defs: seq<ProcessDefinition>)
    requires Valid(s) && Calendar(s) && Roster(s.processes, s.pending, defs) && Admissible(defs, s.maxProcesses)
    ensures Roster(Step(s).state.processes, Step(s).state.pending, defs)
  {
    hide Valid, Step, Calendar, Roster;
    TickRoster(s, defs);
  }

  // ---------------------------------------------------------------- the plan of a scenario

  ghost predicate DistinctNodeFailures(fs: seq<FailureDefinition>) {
    && (forall i | 0 <= i < |fs| :: fs[i].kind == NodeFailure)
    && (forall i, j | 0 <= i < j < |fs| :: fs[i].nodeId != fs[j].nodeId)
  }

  ghost function AllTargets(m: map<int, seq<FailureDefinition>>): set<Id> {
    set t, f | t in m && f in m[t] :: f.nodeId
  }

  ghost predicate PlanOk(m: map<int, seq<FailureDefinition>>, nodes: map<Id, Node>) {
    DistinctTargets(m) && forall t | t in m :: NodeFailuresOn(m[t], nodes)
  }

  lemma AppendTargets(m: map<int, seq<FailureDefinition>>, f: FailureDefinition)
    ensures AllTargets(Append(m, f.tick, f)) == AllTargets(m) + {f.nodeId}
  {
    var after := Append(m, f.tick, f);
    var before := if f.tick in m then m[f.tick] else [];
    assert after[f.tick] == before + [f];
    assert f in after[f.tick];
    forall x | x in AllTargets(m) ensures x in AllTargets(after) {
      var t: int, g: FailureDefinition :| t in m && g in m[t] && g.nodeId == x;
      assert g in after[t];
    }
    forall x | x in AllTargets(after) && x != f.nodeId ensures x in AllTargets(m) {
      var t: int, g: FailureDefinition :| t in after && g in after[t] && g.nodeId == x;
      assert g in m[t];
    }
  }

  lemma AppendPlan(m: map<int, seq<FailureDefinition>>, nodes: map<Id, Node>, f: FailureDefinition)
    requires PlanOk(m, nodes) && f.nodeId !in AllTargets(m)
    requires f.kind == NodeFailure && f.nodeId in nodes && nodes[f.nodeId].status != NodeFailed
    ensures PlanOk(Append(m, f.tick, f), nodes)
  {
    hide NodeFailuresOn, Targets, AllTargets;
    var after := Append(m, f.tick, f);
    var before := if f.tick in m then m[f.tick] else [];
    assert after[f.tick] == before + [f];
    forall t | t in m ensures Targets(m[t]) <= AllTargets(m) {
      TargetsAmongAll(m, t);
    }
    NoTargets(nodes);
    OneMoreTarget(before, nodes, f);
  }

  lemma TargetsAmongAll(m: map<int, seq<FailureDefinition>>, t: int)
    requires t in m
    ensures Targets(m[t]) <= AllTargets(m)
  {
  }

  lemma NoTargets(nodes: map<Id, Node>)
    ensures NodeFailuresOn([], nodes) && Targets([]) == {}
  {
  }

  lemma OneMoreTarget(fs: seq<FailureDefinition>, nodes: map<Id, Node>, f: FailureDefinition)
    requires NodeFailuresOn(fs, nodes) && f.nodeId !in Targets(fs)
    requires f.kind == NodeFailure && f.nodeId in nodes && nodes[f.nodeId].status != NodeFailed
    ensures NodeFailuresOn(fs + [f], nodes) && Targets(fs + [f]) == Targets(fs) + {f.nodeId}
  {
    assert forall i | 0 <= i < |fs| :: fs[i] in fs;
    assert forall g :: g in fs + [f] <==> g in fs || g == f;
  }

  lemma {:induction false} BuildPlan(fs: seq<FailureDefinition>, nodes: map<Id, Node>, ids: set<Id>,
                                     acc: map<int, seq<FailureDefinition>>)
    requires DistinctNodeFailures(fs) && PlanOk(acc, nodes)
    requires forall f | f in fs :: f.nodeId !in AllTargets(acc)
    requires forall n | n in nodes :: nodes[n].status != NodeFailed
    requires BuildFailures(fs, nodes, ids, acc).1 == Nil
    ensures PlanOk(BuildFailures(fs, nodes, ids, acc).0, nodes)
  {
    hide Append, PlanOk, AllTargets;
    if fs != [] {
      assert fs[0] in fs;
      AppendPlan(acc, nodes, fs[0]);
      AppendTargets(acc, fs[0]);
      assert forall i | 0 < i < |fs| :: fs[1..][i - 1] == fs[i];
      forall f | f in fs[1..] ensures f.nodeId !in AllTargets(Append(acc, fs[0].tick, fs[0])) {
        var i :| 0 <= i < |fs[1..]| && fs[1..][i] == f;
        assert fs[i + 1] == f && f in fs;
      }
      BuildPlan(fs[1..], nodes, ids, Append(acc, fs[0].tick, fs[0]));
    }
  }

  lemma PreparedPlan(sc: Scenario, maxNodes: int, maxProcesses: int)
    requires DistinctNodeFailures(sc.failures) && Prepare(sc, maxNodes, maxProcesses).0.Some?
    ensures var p := Prepare(sc, maxNodes, maxProcesses).0.value; PlanOk(p.failures, p.nodes)
  {
    hide Validate, BuildNodes, BuildProcesses, BuildFailures, PlanOk, NewNodeOk, NewProcessOk, DistinctNodeFailures;
    PrepareOk(sc, maxNodes, maxProcesses);
    var p := Prepare(sc, maxNodes, maxProcesses).0.value;
    NewNodesAreUp(p);
    EmptyPlan(p.nodes);
    BuildPlan(sc.failures, p.nodes, BuildProcesses(sc.processes, Intake({}, map[], map[])).0.ids, map[]);
  }

  lemma NewNodesAreUp(p: Prepared)
    requires PreparedOk(p)
    ensures forall n | n in p.nodes :: p.nodes[n].status != NodeFailed
  {
    assert forall n | n in p.nodes :: NewNodeOk(p.nodes[n], n);
  }

  lemma EmptyPlan(nodes: map<Id, Node>)
    ensures PlanOk(map[], nodes) && AllTargets(map[]) == {}
  {
    var none: map<int, seq<FailureDefinition>> := map[];
    assert AllTargets(none) == {};
  }

  lemma {:induction false} ValidDefinitionsForm(defs: seq<ProcessDefinition>, seen: set<Id>, maxTicks: int)
    requires ValidateProcesses(defs, seen, maxTicks) == Nil
    ensures forall d | d in defs :: NewProcess(d, 0).Some?
  {
    hide NewProcess;
    if defs != [] {
      ValidDefinitionsForm(defs[1..], seen + {defs[0].id}, maxTicks);
      FormIsTimeless(defs[0], 0, Max(defs[0].submitAtTick, 0));
      assert forall d | d in defs :: d == defs[0] || d in defs[1..];
    }
  }

  lemma LoadedPlan(s: State, sc: Scenario)
    requires LoadScenario(s, sc).error == Nil && s.heartbeatTimeout <= 0 && DistinctNodeFailures(sc.failures)
    ensures var t := LoadScenario(s, sc).state;
      && Planned(t) && Admissible(sc.processes, t.maxProcesses) && t.maxTicks == sc.maxTicks && t.tick == 0
      && t.status == Idle
  {
    hide Prepare, LoadScenario, Install, PreparedOk, NodeFailuresOn, DistinctTargets, DistinctNodeFailures, NewProcess;
    LoadedFields(s, sc);
    PreparedPlan(sc, s.maxNodes, s.maxProcesses);
    PrepareAcceptsExactly(sc, s.maxNodes, s.maxProcesses);
    ValidParts(sc);
    ValidNamesDistinct(sc.processes, {}, sc.maxTicks);
    ValidDefinitionsForm(sc.processes, {}, sc.maxTicks);
    PreparedLimit(sc, s.maxNodes, s.maxProcesses);
  }

  lemma PreparedLimit(sc: Scenario, maxNodes: int, maxProcesses: int)
    ensures var p := Prepare(sc, maxNodes, maxProcesses).0; p.Some? ==> p.value.maxTicks == sc.maxTicks
  {
    hide Validate, BuildNodes, BuildProcesses, BuildFailures;
  }

  /** A valid scenario with a known scheduler and within the limits, run without heartbeats and with only
      node failures, on distinct nodes, never errors: it completes, at a tick by its limit. */
  lemma PlannedScenarioCompletes(s: State, sc: Scenario)
    requires Validate(sc) == Nil && NewScheduler(sc.scheduler).Some?
    requires |sc.nodes| <= s.maxNodes && |sc.processes| <= s.maxProcesses
    requires s.heartbeatTimeout <= 0 && DistinctNodeFailures(sc.failures)
    ensures var r := RunScenario(s, sc);
      && r.error == Nil && r.state.status == Completed && !r.state.reason.Requested? && r.state.tick <= sc.maxTicks
  {
    hide Validate, Prepare, LoadScenario, RunLoop, Valid, Calendar, Planned, Roster, Admissible, DistinctNodeFailures;
    PrepareAcceptsExactly(sc, s.maxNodes, s.maxProcesses);
    LoadExact(s, sc);
    LoadedRoster(s, sc);
    LoadedPlan(s, sc);
    LoadedLimit(s, sc);
    PlannedLoop(LoadScenario(s, sc).state, sc.processes, sc.maxTicks);
    RunsEndByLimit(s, sc);
  }
}
