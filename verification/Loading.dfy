/** Loading a scenario: what validation guarantees, and that the loaded state is valid. */
module Loading {
  import opened Domain
  import opened Ordering
  import opened Cluster
  import opened Scenarios
  import opened Placement
  import opened EventLog
  import opened Invariants
  import opened Progress

  // ---------------------------------------------------------------- what the builders produce

  ghost predicate NewNodeOk(n: Node, id: Id) {
    && n.id == id && n.Validate() && n.status == Online && n.running == []
    && n.cpuAllocated == 0 && n.memoryAllocated == 0 && n.lastHeartbeat == 0
  }

  ghost predicate NewProcessOk(p: Process, id: Id) {
    && p.id == id && id != NO_ID && p.state == Ready && p.nodeId == NO_ID && p.restartCount == 0
    && 0 < p.cpuRequest && 0 < p.memoryRequest && p.submittedAt == 0 && p.lastReadyAt == 0
    && p.remainingTicks == p.totalTicks
    && forall lag :: RecordOk(p, false, 0, lag)
  }

  lemma {:induction false} BuildNodesOk(defs: seq<NodeDefinition>, acc: map<Id, Node>)
    requires forall n | n in acc :: NewNodeOk(acc[n], n)
    ensures forall n | n in BuildNodes(defs, acc).0 :: NewNodeOk(BuildNodes(defs, acc).0[n], n)
  {
    if defs != [] && NewNode(defs[0], 0).Some? && defs[0].id !in acc {
      BuildNodesOk(defs[1..], acc[defs[0].id := NewNode(defs[0], 0).value]);
    }
  }

  ghost predicate FutureLists<T>(m: map<int, seq<T>>) {
    forall t | t in m :: t > 0 && m[t] != []
  }

  ghost predicate IntakeOk(a: Intake) {
    (forall p | p in a.processes :: NewProcessOk(a.processes[p], p)) && FutureLists(a.pending)
  }

  lemma SubmittedIsNew(d: ProcessDefinition)
    requires NewProcess(d, 0).Some?
    ensures NewProcessOk(NewProcess(d, 0).value.(state := Ready), d.id)
  {
  }

  lemma {:induction false} BuildProcessesOk(defs: seq<ProcessDefinition>, acc: Intake)
    requires IntakeOk(acc)
    ensures IntakeOk(BuildProcesses(defs, acc).0)
  {
    hide NewProcessOk;
    if defs != [] {
      var d := defs[0];
      var made := NewProcess(d, Max(d.submitAtTick, 0));
      if made.Some? && d.id !in acc.ids {
        if d.submitAtTick > 0 {
          BuildProcessesOk(defs[1..], acc.(ids := acc.ids + {d.id}, pending := Append(acc.pending, d.submitAtTick, d)));
        } else {
          SubmittedIsNew(d);
          BuildProcessesOk(defs[1..], acc.(ids := acc.ids + {d.id},
                                           processes := acc.processes[d.id := made.value.(state := Ready)]));
        }
      }
    }
  }

  lemma {:induction false} BuildFailuresOk(fs: seq<FailureDefinition>, nodes: map<Id, Node>, ids: set<Id>,
                                           acc: map<int, seq<FailureDefinition>>)
    requires FutureLists(acc) && forall f | f in fs :: f.tick > 0
    ensures FutureLists(BuildFailures(fs, nodes, ids, acc).0)
  {
    if fs != [] {
      assert fs[0] in fs;
      BuildFailuresOk(fs[1..], nodes, ids, Append(acc, fs[0].tick, fs[0]));
    }
  }

  lemma {:induction false} ValidFailureTicks(fs: seq<FailureDefinition>, seen: set<FailureDefinition>, sc: Scenario)
    requires ValidateFailures(fs, seen, sc) == Nil
    ensures forall f | f in fs :: 0 < f.tick <= sc.maxTicks
    decreases |fs|
  {
    if fs != [] {
      ValidFailureTicks(fs[1..], seen + {fs[0]}, sc);
      assert forall f | f in fs :: f == fs[0] || f in fs[1..];
    }
  }

  // ---------------------------------------------------------------- the loaded log

  lemma {:induction false} EmitNodesLog(s: State, ids: seq<Id>)
    requires Chronicle(s.events, s.sequence, s.tick)
    ensures var t := EmitNodes(s, ids);
      && Chronicle(t.events, t.sequence, t.tick) && Replay(t.events) == Replay(s.events)
      && t == s.(events := t.events, sequence := t.sequence)
    decreases |ids|
  {
    if ids != [] {
      Emitted(s, NodeRegistered, NO_ID, ids[0]);
      EmitNodesLog(Emit(s, NodeRegistered, NO_ID, ids[0]), ids[1..]);
    }
  }

  ghost function ReadyViews(ids: set<Id>): map<Id, View> {
    map id | id in ids :: View(Ready, NO_ID, 0)
  }

  lemma {:induction false} EmitProcessesLog(s: State, ids: seq<Id>)
    requires Chronicle(s.events, s.sequence, s.tick)
    ensures var t := EmitProcesses(s, ids);
      var l := Replay(s.events);
      && Chronicle(t.events, t.sequence, t.tick)
      && Replay(t.events) == l.(views := l.views + ReadyViews(Elements(ids)))
      && t == s.(events := t.events, sequence := t.sequence)
    decreases |ids|
  {
    hide Chronicle, Replay, ReadyViews;
    if ids == [] {
      NoViews(Replay(s.events).views, ids);
    } else {
      Emitted(s, Submitted, ids[0], NO_ID);
      var s1 := Emit(s, Submitted, ids[0], NO_ID);
      EmitProcessesLog(s1, ids[1..]);
      OneViewMore(Replay(s.events).views, ids);
    }
  }

  lemma NoViews(views: map<Id, View>, ids: seq<Id>)
    requires ids == []
    ensures views + ReadyViews(Elements(ids)) == views
  {
    assert ReadyViews(Elements(ids)) == map[];
  }

  lemma OneViewMore(views: map<Id, View>, ids: seq<Id>)
    requires ids != []
    ensures views[ids[0] := View(Ready, NO_ID, 0)] + ReadyViews(Elements(ids[1..])) == views + ReadyViews(Elements(ids))
  {
    assert forall x | x in ids :: x == ids[0] || x in ids[1..];
  }

  ghost function Bare(s: State, p: Prepared): State {
    Fresh(p.policy, s.heartbeatTimeout, s.maxNodes, s.maxProcesses)
      .(nodes := p.nodes, processes := p.processes, pending := p.pending, failures := p.failures,
        maxTicks := p.maxTicks)
  }

  lemma InstallReplay(s: State, p: Prepared)
    ensures var t := Install(s, p);
      && Chronicle(t.events, t.sequence, t.tick)
      && Replay(t.events) == EMPTY_LEDGER.(views := ReadyViews(p.processes.Keys))
      && t == Bare(s, p).(events := t.events, sequence := t.sequence)
  {
    hide EmitNodes, EmitProcesses, ReadyViews;
    var s0 := Bare(s, p);
    var s1 := EmitNodes(s0, SortedIds(p.nodes.Keys));
    EmitNodesLog(s0, SortedIds(p.nodes.Keys));
    var s2 := EmitProcesses(s1, SortedIds(p.processes.Keys));
    IntakeReplay(s1, p.processes.Keys);
    Emitted(s2, ScenarioLoaded, NO_ID, NO_ID);
  }

  lemma IntakeReplay(s: State, ids: set<Id>)
    requires Chronicle(s.events, s.sequence, s.tick) && Replay(s.events) == EMPTY_LEDGER
    ensures var t := EmitProcesses(s, SortedIds(ids));
      && Chronicle(t.events, t.sequence, t.tick)
      && Replay(t.events) == EMPTY_LEDGER.(views := ReadyViews(ids))
      && t == s.(events := t.events, sequence := t.sequence)
  {
    hide EmitProcesses, Chronicle, Replay;
    EmitProcessesLog(s, SortedIds(ids));
    assert map[] + ReadyViews(ids) == ReadyViews(ids);
  }

  lemma LoadedLogs(s: State, p: Prepared)
    requires forall id | id in p.processes :: NewProcessOk(p.processes[id], id)
    ensures var t := Install(s, p);
      && Logged(t, {}) && Replay(t.events).interrupted == {}
      && t == Bare(s, p).(events := t.events, sequence := t.sequence)
  {
    hide Install, Chronicle, Replay, RecordOk;
    InstallReplay(s, p);
    assert ReadyViews(p.processes.Keys) == Views(p.processes, {}) by {
      assert forall id | id in p.processes :: NewProcessOk(p.processes[id], id);
    }
  }

  ghost predicate PreparedOk(p: Prepared) {
    && (forall n | n in p.nodes :: NewNodeOk(p.nodes[n], n))
    && (forall id | id in p.processes :: NewProcessOk(p.processes[id], id))
    && FutureLists(p.pending) && FutureLists(p.failures)
  }

  lemma PrepareOk(sc: Scenario, maxNodes: int, maxProcesses: int)
    ensures var (p, e) := Prepare(sc, maxNodes, maxProcesses);
      p.Some? ==> PreparedOk(p.value) && Validate(sc) == Nil && p.value.maxTicks == sc.maxTicks
  {
    hide NewNodeOk, NewProcessOk;
    var (p, e) := Prepare(sc, maxNodes, maxProcesses);
    if p.Some? {
      BuildNodesOk(sc.nodes, map[]);
      BuildProcessesOk(sc.processes, Intake({}, map[], map[]));
      ValidFailureTicks(sc.failures, {}, sc);
      BuildFailuresOk(sc.failures, p.value.nodes, BuildProcesses(sc.processes, Intake({}, map[], map[])).0.ids, map[]);
    }
  }

  lemma InstallIsValid(s: State, p: Prepared)
    requires PreparedOk(p)
    ensures Valid(Install(s, p)) && Calendar(Install(s, p))
  {
    hide Install, Replay;
    LoadedLogs(s, p);
    var t := Install(s, p);
    assert Placed(t.nodes, t.processes, {}) by {
      forall n | n in t.nodes ensures NodeOk(t.nodes[n], n, t.processes, {}) {
        assert NewNodeOk(p.nodes[n], n);
      }
      forall id | id in t.processes ensures PlacedOk(t.processes[id], id, t.nodes, {}) {
        assert NewProcessOk(p.processes[id], id);
      }
    }
    assert RecordsOk(t.processes, {}, 0, Rest) by {
      assert forall id | id in t.processes :: NewProcessOk(p.processes[id], id);
    }
  }

  /** A scenario either loads into a valid state with a future calendar, or is refused without effect. */
  lemma LoadExact(s: State, sc: Scenario)
    ensures var r := LoadScenario(s, sc);
      && (r.error == Nil <==> Prepare(sc, s.maxNodes, s.maxProcesses).0.Some?)
      && (r.error != Nil ==> r.state == s)
      && (r.error == Nil ==>
            Valid(r.state) && Calendar(r.state) && r.state.tick == 0 && r.state.maxTicks == sc.maxTicks
            && r.state.status == Idle)
  {
    hide Install, Valid, Calendar, PreparedOk, Validate;
    PrepareOk(sc, s.maxNodes, s.maxProcesses);
    PrepareErrors(sc, s.maxNodes, s.maxProcesses);
    var (p, e) := Prepare(sc, s.maxNodes, s.maxProcesses);
    if p.Some? {
      InstallIsValid(s, p.value);
      InstallFields(s, p.value);
    }
  }

  lemma InstallFields(s: State, p: Prepared)
    requires PreparedOk(p)
    ensures Install(s, p).tick == 0 && Install(s, p).maxTicks == p.maxTicks && Install(s, p).status == Idle
  {
    LoadedLogs(s, p);
  }

  lemma PrepareErrors(sc: Scenario, maxNodes: int, maxProcesses: int)
    ensures var (p, e) := Prepare(sc, maxNodes, maxProcesses);
      p.None? <==> e != Nil
  {
  }

  /** What a scenario loads into depends on the configured limits only, not on any earlier state. */
  lemma LoadForgets(s: State, t: State, sc: Scenario)
    requires s.heartbeatTimeout == t.heartbeatTimeout && s.maxNodes == t.maxNodes && s.maxProcesses == t.maxProcesses
    requires LoadScenario(s, sc).error == Nil
    ensures LoadScenario(s, sc) == LoadScenario(t, sc)
  {
  }
}
