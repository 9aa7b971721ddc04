/** What a scenario load installs, in full. */
module LoadResults {
  import opened Domain
  import opened Ordering
  import opened Schedulers
  import opened Cluster
  import opened Scenarios
  import opened Validation
  import opened Invariants
  import opened Commands
  import opened Loading
  import opened ScenarioRuns
  import opened CommandResults

  // ---------------------------------------------------------------- calendars

  /** The definitions submitted at this tick, in the order in which the scenario lists them. */
  function SubmittedAt(defs: seq<ProcessDefinition>, tick: int): seq<ProcessDefinition> {
    if defs == [] then []
    else (if defs[0].submitAtTick == tick then [defs[0]] else []) + SubmittedAt(defs[1..], tick)
  }

  /** The failures due at this tick, in the order in which the scenario lists them. */
  function FailingAt(fs: seq<FailureDefinition>, tick: int): seq<FailureDefinition> {
    if fs == [] then [] else (if fs[0].tick == tick then [fs[0]] else []) + FailingAt(fs[1..], tick)
  }

  function At<T>(m: map<int, seq<T>>, tick: int): seq<T> {
    if tick in m then m[tick] else []
  }

  /** Nothing is listed under a tick at which nothing happens. */
  ghost predicate NoEmptyLists<T>(m: map<int, seq<T>>) {
    forall t | t in m :: m[t] != []
  }

  lemma AppendAt<T>(m: map<int, seq<T>>, tick: int, x: T, t: int)
    ensures At(Append(m, tick, x), t) == At(m, t) + if t == tick then [x] else []
    ensures NoEmptyLists(m) ==> NoEmptyLists(Append(m, tick, x))
  {
  }

  lemma {:induction false} BuiltFailures(fs: seq<FailureDefinition>, nodes: map<Id, Node>, ids: set<Id>,
                                         acc: map<int, seq<FailureDefinition>>, t: int)
    requires BuildFailures(fs, nodes, ids, acc).1 == Nil
    ensures At(BuildFailures(fs, nodes, ids, acc).0, t) == At(acc, t) + FailingAt(fs, t)
    ensures NoEmptyLists(acc) ==> NoEmptyLists(BuildFailures(fs, nodes, ids, acc).0)
  {
    hide Append, At, NoEmptyLists;
    if fs == [] {
      assert At(acc, t) + [] == At(acc, t);
    } else {
      hide BuildFailures;
      FailureStep(fs, nodes, ids, acc);
      AppendAt(acc, fs[0].tick, fs[0], t);
      BuiltFailures(fs[1..], nodes, ids, Append(acc, fs[0].tick, fs[0]), t);
      assert FailingAt(fs, t) == (if fs[0].tick == t then [fs[0]] else []) + FailingAt(fs[1..], t);
    }
  }

  lemma FailureStep(fs: seq<FailureDefinition>, nodes: map<Id, Node>, ids: set<Id>,
                    acc: map<int, seq<FailureDefinition>>)
    requires fs != [] && BuildFailures(fs, nodes, ids, acc).1 == Nil
    ensures BuildFailures(fs, nodes, ids, acc)
         == BuildFailures(fs[1..], nodes, ids, Append(acc, fs[0].tick, fs[0]))
  {
    hide Append;
  }

  lemma BuildStep(defs: seq<ProcessDefinition>, acc: Intake)
    requires defs != [] && BuildProcesses(defs, acc).1 == Nil
    ensures BuildProcesses(defs, acc) == BuildProcesses(defs[1..], Taken(acc, defs[0]))
    ensures NewProcess(defs[0], Max(defs[0].submitAtTick, 0)).Some? && defs[0].id !in acc.ids
  {
    hide Append;
    NameOfNew(defs[0], Max(defs[0].submitAtTick, 0));
  }

  lemma TakenPending(acc: Intake, d: ProcessDefinition)
    ensures Taken(acc, d).pending == if d.submitAtTick > 0 then Append(acc.pending, d.submitAtTick, d) else acc.pending
  {
    hide NewProcess, Append;
  }

  lemma NoneBuilt(acc: Intake)
    ensures BuildProcesses([], acc) == (acc, Nil)
  {
  }

  lemma {:induction false} BuiltPending(defs: seq<ProcessDefinition>, acc: Intake, t: int)
    requires BuildProcesses(defs, acc).1 == Nil
    ensures At(BuildProcesses(defs, acc).0.pending, t)
         == At(acc.pending, t) + if t > 0 then SubmittedAt(defs, t) else []
    ensures NoEmptyLists(acc.pending) ==> NoEmptyLists(BuildProcesses(defs, acc).0.pending)
  {
    hide Append, At, NoEmptyLists, NewProcess, BuildProcesses, Taken;
    if defs == [] {
      NoneBuilt(acc);
      assert At(acc.pending, t) + [] == At(acc.pending, t);
    } else {
      var d, rest := defs[0], SubmittedAt(defs[1..], t);
      var head := if d.submitAtTick == t then [d] else [];
      BuildStep(defs, acc);
      TakenPending(acc, d);
      AppendAt(acc.pending, d.submitAtTick, d, t);
      BuiltPending(defs[1..], Taken(acc, d), t);
      assert SubmittedAt(defs, t) == head + rest;
      if t > 0 {
        assert At(Taken(acc, d).pending, t) == At(acc.pending, t) + head;
        assert (At(acc.pending, t) + head) + rest == At(acc.pending, t) + (head + rest);
      } else {
        assert At(Taken(acc, d).pending, t) == At(acc.pending, t) + [];
      }
    }
  }

  // ---------------------------------------------------------------- tables

  /** ONLINE and empty, as its definition says, heard from at tick 0. */
  predicate IsNewNode(n: Node, d: NodeDefinition) {
    && NodeWellFormed(d)
    && n == Node(d.id, d.name, Online, d.cpuCapacity, d.memoryCapacity, 0, 0, [], 0)
  }

  lemma {:induction false} BuiltNodes(defs: seq<NodeDefinition>, acc: map<Id, Node>)
    requires BuildNodes(defs, acc).1 == Nil
    ensures BuildNodes(defs, acc).0.Keys == acc.Keys + NodeIds(defs)
    ensures forall n | n in acc :: n in BuildNodes(defs, acc).0 && BuildNodes(defs, acc).0[n] == acc[n]
    ensures forall d | d in defs :: d.id in BuildNodes(defs, acc).0 && IsNewNode(BuildNodes(defs, acc).0[d.id], d)
  {
    hide IsNewNode, NewNode;
    if defs != [] {
      NewNodeIs(defs[0]);
      var n := NewNode(defs[0], 0).value;
      BuiltNodes(defs[1..], acc[n.id := n]);
      assert forall d | d in defs :: d == defs[0] || d in defs[1..];
      assert NodeIds(defs) == NodeIds(defs[1..]) + {defs[0].id};
    }
  }

  lemma NewNodeIs(d: NodeDefinition)
    ensures NewNode(d, 0).Some? ==> IsNewNode(NewNode(d, 0).value, d) && NewNode(d, 0).value.id == d.id
  {
  }

  /** The names of those that are there from the start. */
  ghost function EarlyIds(defs: seq<ProcessDefinition>): set<Id> {
    set d | d in defs && d.submitAtTick <= 0 :: d.id
  }

  lemma {:induction false} BuiltProcesses(defs: seq<ProcessDefinition>, acc: Intake)
    requires BuildProcesses(defs, acc).1 == Nil && acc.processes.Keys <= acc.ids
    ensures var built := BuildProcesses(defs, acc).0.processes;
      && built.Keys == acc.processes.Keys + EarlyIds(defs)
      && (forall p | p in acc.processes :: p in built && built[p] == acc.processes[p])
      && (forall d | d in defs && d.submitAtTick <= 0 :: d.id in built && JustSubmitted(built[d.id], d, 0))
  {
    hide JustSubmitted, NewProcess, Append, BuildProcesses;
    if defs == [] {
      NoneBuilt(acc);
      assert EarlyIds(defs) == {};
    } else {
      var d := defs[0];
      BuildStep(defs, acc);
      NewProcessIs(d);
      BuiltProcesses(defs[1..], Taken(acc, d));
      assert forall e | e in defs :: e == d || e in defs[1..];
      assert EarlyIds(defs) == EarlyIds(defs[1..]) + if d.submitAtTick <= 0 then {d.id} else {};
    }
  }

  lemma NewProcessIs(d: ProcessDefinition)
    ensures var p := NewProcess(d, Max(d.submitAtTick, 0));
      p.Some? ==> p.value.id == d.id && (d.submitAtTick <= 0 ==> JustSubmitted(p.value.(state := Ready), d, 0))
  {
  }

  // ---------------------------------------------------------------- the log

  function NodeEntries(ids: seq<Id>): seq<Entry> {
    if ids == [] then [] else [Entry(NodeRegistered, NO_ID, ids[0])] + NodeEntries(ids[1..])
  }

  function ProcessEntries(ids: seq<Id>): seq<Entry> {
    if ids == [] then [] else [Entry(Submitted, ids[0], NO_ID)] + ProcessEntries(ids[1..])
  }

  lemma {:induction false} NodesLog(s: State, ids: seq<Id>)
    ensures Gains(s, EmitNodes(s, ids), NodeEntries(ids)) && EmitNodes(s, ids).tick == s.tick
    decreases |ids|
  {
    hide Gains;
    if ids == [] {
      GainsNothing(s);
    } else {
      var t := Emit(s, NodeRegistered, NO_ID, ids[0]);
      EmitGains(s, NodeRegistered, NO_ID, ids[0]);
      NodesLog(t, ids[1..]);
      GainsCompose(s, t, EmitNodes(t, ids[1..]), [Entry(NodeRegistered, NO_ID, ids[0])], NodeEntries(ids[1..]));
    }
  }

  lemma {:induction false} ProcessesLog(s: State, ids: seq<Id>)
    ensures Gains(s, EmitProcesses(s, ids), ProcessEntries(ids)) && EmitProcesses(s, ids).tick == s.tick
    decreases |ids|
  {
    hide Gains;
    if ids == [] {
      GainsNothing(s);
    } else {
      var t := Emit(s, Submitted, ids[0], NO_ID);
      EmitGains(s, Submitted, ids[0], NO_ID);
      ProcessesLog(t, ids[1..]);
      GainsCompose(s, t, EmitProcesses(t, ids[1..]), [Entry(Submitted, ids[0], NO_ID)], ProcessEntries(ids[1..]));
    }
  }

  /** A loaded log tells of the nodes and then of the processes, each in the order of names. */
  lemma InstallLog(s: State, p: Prepared)
    ensures Gains(Bare(s, p), Install(s, p),
                  NodeEntries(SortedIds(p.nodes.Keys)) + ProcessEntries(SortedIds(p.processes.Keys))
                  + [Entry(ScenarioLoaded, NO_ID, NO_ID)])
  {
    hide Gains, EmitNodes, EmitProcesses, NodeEntries, ProcessEntries;
    var s0 := Bare(s, p);
    var nodeIds, processIds := SortedIds(p.nodes.Keys), SortedIds(p.processes.Keys);
    var s1 := EmitNodes(s0, nodeIds);
    var s2 := EmitProcesses(s1, processIds);
    NodesLog(s0, nodeIds);
    ProcessesLog(s1, processIds);
    EmitGains(s2, ScenarioLoaded, NO_ID, NO_ID);
    GainsCompose(s0, s1, s2, NodeEntries(nodeIds), ProcessEntries(processIds));
    GainsCompose(s0, s2, Install(s, p), NodeEntries(nodeIds) + ProcessEntries(processIds),
                 [Entry(ScenarioLoaded, NO_ID, NO_ID)]);
  }

  // ---------------------------------------------------------------- the load

  /** What the scenario says is what there is, and nothing else: a fresh start under its own scheduler. */
  ghost predicate Loaded(s: State, t: State, sc: Scenario) {
    && t.nodes.Keys == NodeIds(sc.nodes) && (forall d | d in sc.nodes :: IsNewNode(t.nodes[d.id], d))
    && t.processes.Keys == EarlyIds(sc.processes)
    && (forall d | d in sc.processes && d.submitAtTick <= 0 :: JustSubmitted(t.processes[d.id], d, 0))
    && (forall tick | 0 < tick :: At(t.pending, tick) == SubmittedAt(sc.processes, tick))
    && (forall tick :: At(t.failures, tick) == FailingAt(sc.failures, tick))
    && NoEmptyLists(t.pending) && NoEmptyLists(t.failures)
    && t.tick == 0 && t.maxTicks == sc.maxTicks && t.status == Idle && t.reason == Unfinished
    && t.stats == Statistics(0.0, 0.0, [], 0, 0, 0, 0)
    && t.policy == (if sc.scheduler == LeastLoadedName then LeastLoaded
                    else if sc.scheduler == PriorityAwareName then Policy.PriorityAware(5)
                    else RoundRobin(0))
    && t.heartbeatTimeout == s.heartbeatTimeout && t.maxNodes == s.maxNodes && t.maxProcesses == s.maxProcesses
    && Gains(t.(events := [], sequence := 0), t,
             NodeEntries(SortedIds(t.nodes.Keys)) + ProcessEntries(SortedIds(t.processes.Keys))
             + [Entry(ScenarioLoaded, NO_ID, NO_ID)])
  }

  lemma PreparedParts(sc: Scenario, maxNodes: int, maxProcesses: int)
    requires Prepare(sc, maxNodes, maxProcesses).0.Some?
    ensures var p := Prepare(sc, maxNodes, maxProcesses).0.value;
      && BuildNodes(sc.nodes, map[]) == (p.nodes, Nil)
      && BuildProcesses(sc.processes, Intake({}, map[], map[])).1 == Nil
      && BuildProcesses(sc.processes, Intake({}, map[], map[])).0.processes == p.processes
      && BuildProcesses(sc.processes, Intake({}, map[], map[])).0.pending == p.pending
      && BuildFailures(sc.failures, p.nodes, BuildProcesses(sc.processes, Intake({}, map[], map[])).0.ids, map[])
           == (p.failures, Nil)
      && NewScheduler(sc.scheduler) == Some(p.policy) && p.maxTicks == sc.maxTicks && sc.scheduler != Blank
  {
    hide BuildNodes, BuildProcesses, BuildFailures, ValidateNodes, ValidateProcesses, ValidateFailures;
  }

  lemma PreparedIs(sc: Scenario, maxNodes: int, maxProcesses: int)
    requires Prepare(sc, maxNodes, maxProcesses).0.Some?
    ensures var p := Prepare(sc, maxNodes, maxProcesses).0.value;
      && p.nodes.Keys == NodeIds(sc.nodes) && (forall d | d in sc.nodes :: IsNewNode(p.nodes[d.id], d))
      && p.processes.Keys == EarlyIds(sc.processes)
      && (forall d | d in sc.processes && d.submitAtTick <= 0 :: JustSubmitted(p.processes[d.id], d, 0))
      && (forall tick | 0 < tick :: At(p.pending, tick) == SubmittedAt(sc.processes, tick))
      && (forall tick :: At(p.failures, tick) == FailingAt(sc.failures, tick))
      && NoEmptyLists(p.pending) && NoEmptyLists(p.failures)
  {
    hide Prepare, IsNewNode, JustSubmitted, BuildNodes, BuildProcesses, BuildFailures, SubmittedAt, FailingAt;
    PreparedParts(sc, maxNodes, maxProcesses);
    var p := Prepare(sc, maxNodes, maxProcesses).0.value;
    var none: map<Id, Node> := map[];
    BuiltNodes(sc.nodes, none);
    BuiltProcesses(sc.processes, Intake({}, map[], map[]));
    var ids := BuildProcesses(sc.processes, Intake({}, map[], map[])).0.ids;
    BuiltPending(sc.processes, Intake({}, map[], map[]), 0);
    BuiltFailures(sc.failures, p.nodes, ids, map[], 0);
    forall tick | 0 < tick ensures At(p.pending, tick) == SubmittedAt(sc.processes, tick) {
      BuiltPending(sc.processes, Intake({}, map[], map[]), tick);
    }
    forall tick ensures At(p.failures, tick) == FailingAt(sc.failures, tick) {
      BuiltFailures(sc.failures, p.nodes, ids, map[], tick);
    }
  }

  /** A scenario that is valid, within the limits and under a known scheduler is installed as it stands; any
      other is refused, with the error of its validation if that fails, and without effect. */
  lemma LoadResult(s: State, sc: Scenario)
    ensures var r := Execute(s, CmdLoadScenario(sc));
      && r.error == (if Validate(sc) != Nil then Validate(sc)
                     else if sc.scheduler == UnknownName || |sc.nodes| > s.maxNodes || |sc.processes| > s.maxProcesses
                       then InvalidInput
                     else Nil)
      && (r.error != Nil ==> r.state == s)
      && (r.error == Nil ==> Loaded(s, r.state, sc))
  {
    hide Loaded, Step, StepLoop, Validate, Install, Prepare;
    LoadErrors(s, sc);
    if LoadScenario(s, sc).error == Nil {
      LoadedIs(s, sc);
    }
  }

  lemma LoadErrors(s: State, sc: Scenario)
    ensures var r := LoadScenario(s, sc);
      && r.error == (if Validate(sc) != Nil then Validate(sc)
                     else if sc.scheduler == UnknownName || |sc.nodes| > s.maxNodes || |sc.processes| > s.maxProcesses
                       then InvalidInput
                     else Nil)
      && (r.error != Nil ==> r.state == s)
  {
    hide Validate, Install, BuildNodes, BuildProcesses, BuildFailures;
    PrepareAcceptsExactly(sc, s.maxNodes, s.maxProcesses);
  }

  lemma LoadedIs(s: State, sc: Scenario)
    requires LoadScenario(s, sc).error == Nil
    ensures Loaded(s, LoadScenario(s, sc).state, sc)
  {
    hide Prepare, Install, LoadScenario, PreparedOk, IsNewNode, JustSubmitted, At, NoEmptyLists, Gains,
         NodeEntries, ProcessEntries;
    LoadedFields(s, sc);
    var p := Prepare(sc, s.maxNodes, s.maxProcesses).0.value;
    PreparedIs(sc, s.maxNodes, s.maxProcesses);
    PreparedParts(sc, s.maxNodes, s.maxProcesses);
    InstallLog(s, p);
    var t := LoadScenario(s, sc).state;
    GainsDependsOn(Bare(s, p), t.(events := [], sequence := 0), t, t,
                   NodeEntries(SortedIds(p.nodes.Keys)) + ProcessEntries(SortedIds(p.processes.Keys))
                   + [Entry(ScenarioLoaded, NO_ID, NO_ID)]);
  }
}
