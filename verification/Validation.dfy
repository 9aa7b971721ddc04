/** What a valid scenario is, in closed form. */
module Validation {
  import opened Domain
  import opened Schedulers
  import opened Scenarios

  predicate HeaderOk(sc: Scenario) {
    sc.name != "" && sc.scheduler != Blank && 0 < sc.maxTicks && sc.nodes != []
  }

  predicate NodeWellFormed(d: NodeDefinition) {
    d.id != NO_ID && d.name != "" && 0 < d.cpuCapacity && 0 < d.memoryCapacity
  }

  predicate ProcessWellFormed(d: ProcessDefinition) {
    && d.id != NO_ID && d.name != "" && 0 < d.cpuRequest && 0 < d.memoryRequest
    && 0 < d.totalTicks && 0 <= d.maxRestarts && d.restartPolicy != Unsupported
  }

  /** Well-formed, and no two of one name. */
  ghost predicate NodesOk(defs: seq<NodeDefinition>) {
    && (forall i | 0 <= i < |defs| :: NodeWellFormed(defs[i]))
    && (forall i, j | 0 <= i < j < |defs| :: defs[i].id != defs[j].id)
  }

  /** Well-formed, no two of one name, and none submitted after the last tick. */
  ghost predicate ProcessesOk(defs: seq<ProcessDefinition>, maxTicks: int) {
    && (forall i | 0 <= i < |defs| :: ProcessWellFormed(defs[i]) && defs[i].submitAtTick <= maxTicks)
    && (forall i, j | 0 <= i < j < |defs| :: defs[i].id != defs[j].id)
  }

  /** Within the ticks of the scenario, and of a node, or of a process that is submitted by then. */
  ghost predicate FailureOk(f: FailureDefinition, sc: Scenario) {
    && 1 <= f.tick <= sc.maxTicks
    && match f.kind
       case NodeFailure => f.nodeId != NO_ID && exists d :: d in sc.nodes && d.id == f.nodeId
       case ProcessFailure =>
         f.processId != NO_ID && exists d :: d in sc.processes && d.id == f.processId && d.submitAtTick <= f.tick
       case UnsupportedFailure => false
  }

  ghost predicate FailuresOk(sc: Scenario) {
    && (forall i | 0 <= i < |sc.failures| :: FailureOk(sc.failures[i], sc))
    && (forall i, j | 0 <= i < j < |sc.failures| :: sc.failures[i] != sc.failures[j])
  }

  // ---------------------------------------------------------------- the loops, without recursion

  lemma {:induction false} NodesExact(defs: seq<NodeDefinition>, seen: set<Id>)
    ensures ValidateNodes(defs, seen) == Nil <==>
              NodesOk(defs) && forall i | 0 <= i < |defs| :: defs[i].id !in seen
  {
    if defs != [] {
      var first, rest := defs[0], defs[1..];
      NodesExact(rest, seen + {first.id});
      assert forall i | 0 <= i < |rest| :: rest[i] == defs[i + 1];
      assert forall i | 0 < i < |defs| :: defs[i] == rest[i - 1];
    }
  }

  lemma {:induction false} ProcessesExact(defs: seq<ProcessDefinition>, seen: set<Id>, maxTicks: int)
    ensures ValidateProcesses(defs, seen, maxTicks) == Nil <==>
              ProcessesOk(defs, maxTicks) && forall i | 0 <= i < |defs| :: defs[i].id !in seen
  {
    if defs != [] {
      var first, rest := defs[0], defs[1..];
      ProcessesExact(rest, seen + {first.id}, maxTicks);
      assert NewProcess(first, Max(first.submitAtTick, 0)).Some? <==> ProcessWellFormed(first);
      assert forall i | 0 <= i < |rest| :: rest[i] == defs[i + 1];
      assert forall i | 0 < i < |defs| :: defs[i] == rest[i - 1];
    }
  }

  /** With distinct names there is one definition to ask. */
  lemma DefinitionIs(defs: seq<ProcessDefinition>, maxTicks: int, id: Id, d: ProcessDefinition)
    requires ProcessesOk(defs, maxTicks) && d in defs && d.id == id
    ensures DefinitionOf(defs, id) == Some(d)
  {
    var e := DefinitionOf(defs, id).value;
    var i :| 0 <= i < |defs| && defs[i] == d;
    var j :| 0 <= j < |defs| && defs[j] == e;
  }

  lemma FailureExact(f: FailureDefinition, sc: Scenario)
    requires ProcessesOk(sc.processes, sc.maxTicks)
    ensures ValidateFailure(f, sc) == Nil <==> FailureOk(f, sc)
  {
    if f.kind == NodeFailure {
      assert f.nodeId in NodeIds(sc.nodes) <==> exists d :: d in sc.nodes && d.id == f.nodeId;
    } else if f.kind == ProcessFailure {
      if exists d :: d in sc.processes && d.id == f.processId {
        var d :| d in sc.processes && d.id == f.processId;
        DefinitionIs(sc.processes, sc.maxTicks, f.processId, d);
        assert forall e | e in sc.processes && e.id == f.processId :: e == d by {
          forall e | e in sc.processes && e.id == f.processId ensures e == d {
            DefinitionIs(sc.processes, sc.maxTicks, f.processId, e);
          }
        }
      }
    }
  }

  lemma {:induction false} FailuresExact(fs: seq<FailureDefinition>, seen: set<FailureDefinition>, sc: Scenario)
    requires ProcessesOk(sc.processes, sc.maxTicks)
    ensures ValidateFailures(fs, seen, sc) == Nil <==>
      && (forall i | 0 <= i < |fs| :: FailureOk(fs[i], sc) && fs[i] !in seen)
      && (forall i, j | 0 <= i < j < |fs| :: fs[i] != fs[j])
    decreases |fs|
  {
    hide ValidateFailure, FailureOk, ProcessesOk;
    if fs != [] {
      var first, rest := fs[0], fs[1..];
      FailuresExact(rest, seen + {first}, sc);
      FailureExact(first, sc);
      FailureInTime(first, sc);
      assert forall i | 0 <= i < |rest| :: rest[i] == fs[i + 1];
      assert forall i | 0 < i < |fs| :: fs[i] == rest[i - 1];
    }
  }

  lemma FailureInTime(f: FailureDefinition, sc: Scenario)
    ensures FailureOk(f, sc) ==> 1 <= f.tick <= sc.maxTicks
  {
  }

  /** A scenario is valid if and only if its header is complete, its nodes and processes are well-formed with
      distinct names, no process is submitted after the last tick, and its failures are distinct, in time, and
      of something that is there by then. */
  lemma ValidatesExactly(sc: Scenario)
    ensures Validate(sc) == Nil <==>
      HeaderOk(sc) && NodesOk(sc.nodes) && ProcessesOk(sc.processes, sc.maxTicks) && FailuresOk(sc)
  {
    hide ValidateNodes, ValidateProcesses, ValidateFailures, NodesOk, ProcessesOk, FailureOk;
    NodesExact(sc.nodes, {});
    ProcessesExact(sc.processes, {}, sc.maxTicks);
    if ProcessesOk(sc.processes, sc.maxTicks) {
      FailuresExact(sc.failures, {}, sc);
    }
  }
}
