/** The loops of `Scenario.Validate` and `prepareScenario`, against their specification. */
module ScenarioLoops {
  import opened Domain
  import opened Schedulers
  import opened Scenarios

  // ---------------------------------------------------------------- Scenario.Validate

  method CheckNodes(defs: seq<NodeDefinition>) returns (error: Error, names: set<Id>)
    ensures error == ValidateNodes(defs, {})
    ensures error == Nil ==> names == NodeIds(defs)
  {
    names := {};
    for i := 0 to |defs|
      invariant names == NodeIds(defs[..i])
      invariant ValidateNodes(defs[i..], names) == ValidateNodes(defs, {})
    {
      var d := defs[i];
      assert defs[i..][0] == d && defs[i..][1..] == defs[i + 1..];
      if NewNode(d, 0) == None {
        return InvalidInput, names;
      }
      if d.id in names {
        return DuplicateNode, names;
      }
      assert defs[..i + 1] == defs[..i] + [d];
      names := names + {d.id};
    }
    assert defs[..|defs|] == defs && defs[|defs|..] == [];
    error := Nil;
  }

  /** The definitions filed under their names. */
  ghost predicate Filed(defs: seq<ProcessDefinition>, known: map<Id, ProcessDefinition>) {
    && known.Keys == ProcessIds(defs)
    && (forall d | d in defs :: known[d.id] == d)
  }

  method CheckProcesses(defs: seq<ProcessDefinition>, maxTicks: int)
    returns (error: Error, known: map<Id, ProcessDefinition>)
    ensures error == ValidateProcesses(defs, {}, maxTicks)
    ensures error == Nil ==> Filed(defs, known)
  {
    hide NewProcess;
    known := map[];
    assert known.Keys == {} && defs[0..] == defs;
    for i := 0 to |defs|
      invariant Filed(defs[..i], known)
      invariant ValidateProcesses(defs[i..], known.Keys, maxTicks) == ValidateProcesses(defs, {}, maxTicks)
    {
      var d := defs[i];
      assert defs[i..][0] == d && defs[i..][1..] == defs[i + 1..];
      if NewProcess(d, Max(d.submitAtTick, 0)) == None {
        return InvalidInput, known;
      }
      if d.id in known {
        return DuplicateProcess, known;
      }
      if d.submitAtTick > maxTicks {
        return InvalidInput, known;
      }
      FiledOneMore(defs, i, known);
      known := known[d.id := d];
    }
    assert defs[..|defs|] == defs && defs[|defs|..] == [];
    error := Nil;
  }

  lemma FiledOneMore(defs: seq<ProcessDefinition>, i: nat, known: map<Id, ProcessDefinition>)
    requires i < |defs| && Filed(defs[..i], known) && defs[i].id !in known
    ensures Filed(defs[..i + 1], known[defs[i].id := defs[i]])
    ensures known[defs[i].id := defs[i]].Keys == known.Keys + {defs[i].id}
  {
    assert defs[..i + 1] == defs[..i] + [defs[i]];
    assert forall d | d in defs[..i] :: d.id in ProcessIds(defs[..i]);
  }

  /** A filed name has exactly one definition. */
  lemma FiledDefinition(defs: seq<ProcessDefinition>, known: map<Id, ProcessDefinition>, id: Id)
    requires Filed(defs, known)
    ensures DefinitionOf(defs, id) == if id in known then Some(known[id]) else None
  {
    assert forall d | d in defs :: d.id in ProcessIds(defs);
    if id in known {
      var d :| d in defs && d.id == id;
      assert known[id] in defs;
    }
  }

  method CheckFailure(f: FailureDefinition, sc: Scenario, names: set<Id>, known: map<Id, ProcessDefinition>)
    returns (error: Error)
    requires names == NodeIds(sc.nodes) && Filed(sc.processes, known)
    requires 0 < f.tick <= sc.maxTicks
    ensures error == ValidateFailure(f, sc)
  {
    FiledDefinition(sc.processes, known, f.processId);
    match f.kind {
      case NodeFailure =>
        if f.nodeId == NO_ID {
          return InvalidInput;
        }
        if f.nodeId !in names {
          return NodeNotFound;
        }
        error := Nil;
      case ProcessFailure =>
        if f.processId == NO_ID {
          return InvalidInput;
        }
        if f.processId !in known {
          return ProcessNotFound;
        }
        if f.tick < Max(known[f.processId].submitAtTick, 1) {
          return InvalidInput;
        }
        error := Nil;
      case UnsupportedFailure =>
        error := InvalidInput;
    }
  }

  method CheckFailures(sc: Scenario, names: set<Id>, known: map<Id, ProcessDefinition>) returns (error: Error)
    requires names == NodeIds(sc.nodes) && Filed(sc.processes, known)
    ensures error == ValidateFailures(sc.failures, {}, sc)
  {
    hide ValidateFailure, Filed;
    var keys: set<FailureDefinition> := {};
    for i := 0 to |sc.failures|
      invariant ValidateFailures(sc.failures[i..], keys, sc) == ValidateFailures(sc.failures, {}, sc)
    {
      var f := sc.failures[i];
      assert sc.failures[i..][0] == f && sc.failures[i..][1..] == sc.failures[i + 1..];
      if f.tick <= 0 || f.tick > sc.maxTicks {
        return InvalidInput;
      }
      if f in keys {
        return InvalidInput;
      }
      error := CheckFailure(f, sc, names, known);
      if error != Nil {
        return;
      }
      keys := keys + {f};
    }
    assert sc.failures[|sc.failures|..] == [];
    error := Nil;
  }

  method ValidateScenario(sc: Scenario) returns (error: Error)
    ensures error == Validate(sc)
  {
    hide ValidateNodes, ValidateProcesses, ValidateFailures, NodeIds, Filed;
    if sc.name == "" || sc.scheduler == Blank || sc.maxTicks <= 0 || sc.nodes == [] {
      return InvalidInput;
    }
    var names, known;
    error, names := CheckNodes(sc.nodes);
    if error != Nil {
      return;
    }
    error, known := CheckProcesses(sc.processes, sc.maxTicks);
    if error != Nil {
      return;
    }
    error := CheckFailures(sc, names, known);
  }

  // ---------------------------------------------------------------- prepareScenario

  method CollectNodes(defs: seq<NodeDefinition>) returns (nodes: map<Id, Node>, error: Error)
    ensures (nodes, error) == BuildNodes(defs, map[])
  {
    nodes := map[];
    for i := 0 to |defs|
      invariant BuildNodes(defs[i..], nodes) == BuildNodes(defs, map[])
    {
      assert defs[i..][0] == defs[i] && defs[i..][1..] == defs[i + 1..];
      var made := NewNode(defs[i], 0);
      if made.None? {
        return nodes, InvalidInput;
      }
      if made.value.id in nodes {
        return nodes, DuplicateNode;
      }
      nodes := nodes[made.value.id := made.value];
    }
    assert defs[|defs|..] == [];
    error := Nil;
  }

  method CollectProcesses(defs: seq<ProcessDefinition>) returns (intake: Intake, error: Error)
    ensures (intake, error) == BuildProcesses(defs, Intake({}, map[], map[]))
  {
    hide NewProcess, Append;
    var ids: set<Id> := {};
    var processes: map<Id, Process> := map[];
    var pending: map<int, seq<ProcessDefinition>> := map[];
    for i := 0 to |defs|
      invariant BuildProcesses(defs[i..], Intake(ids, processes, pending))
          == BuildProcesses(defs, Intake({}, map[], map[]))
    {
      var d := defs[i];
      assert defs[i..][0] == d && defs[i..][1..] == defs[i + 1..];
      var made := NewProcess(d, Max(d.submitAtTick, 0));
      if made.None? {
        return Intake(ids, processes, pending), InvalidInput;
      }
      if made.value.id in ids {
        return Intake(ids, processes, pending), DuplicateProcess;
      }
      ids := ids + {made.value.id};
      if d.submitAtTick > 0 {
        pending := Append(pending, d.submitAtTick, d);
        continue;
      }
      processes := processes[made.value.id := made.value.(state := Ready)];
    }
    assert defs[|defs|..] == [];
    intake, error := Intake(ids, processes, pending), Nil;
  }

  method CollectFailures(fs: seq<FailureDefinition>, nodes: map<Id, Node>, ids: set<Id>)
    returns (failures: map<int, seq<FailureDefinition>>, error: Error)
    ensures (failures, error) == BuildFailures(fs, nodes, ids, map[])
  {
    hide Append;
    failures := map[];
    for i := 0 to |fs|
      invariant BuildFailures(fs[i..], nodes, ids, failures) == BuildFailures(fs, nodes, ids, map[])
    {
      var f := fs[i];
      assert fs[i..][0] == f && fs[i..][1..] == fs[i + 1..];
      if f.kind == NodeFailure {
        if f.nodeId !in nodes {
          return failures, NodeNotFound;
        }
      } else if f.processId !in ids {
        return failures, ProcessNotFound;
      }
      failures := Append(failures, f.tick, f);
    }
    assert fs[|fs|..] == [];
    error := Nil;
  }

  method PrepareScenario(sc: Scenario, maxNodes: int, maxProcesses: int)
      returns (prepared: Option<Prepared>, error: Error)
    ensures (prepared, error) == Prepare(sc, maxNodes, maxProcesses)
  {
    hide Validate, BuildNodes, BuildProcesses, BuildFailures;
    error := ValidateScenario(sc);
    if error != Nil {
      return None, error;
    }
    var selected := NewScheduler(sc.scheduler);
    if selected.None? {
      return None, InvalidInput;
    }
    if |sc.nodes| > maxNodes || |sc.processes| > maxProcesses {
      return None, InvalidInput;
    }
    var nodes, intake, failures;
    nodes, error := CollectNodes(sc.nodes);
    if error != Nil {
      return None, error;
    }
    intake, error := CollectProcesses(sc.processes);
    if error != Nil {
      return None, error;
    }
    failures, error := CollectFailures(sc.failures, nodes, intake.ids);
    if error != Nil {
      return None, error;
    }
    prepared := Some(Prepared(nodes, intake.processes, selected.value, intake.pending, failures, sc.maxTicks));
  }
}
