/** Which error a refused scenario, batch or tick gives: that of the first entry at fault. */
module Verdicts {
  import opened Domain
  import opened Cluster
  import opened Scenarios
  import opened Validation
  import opened Invariants
  import opened Tick
  import opened Atomicity

  // ---------------------------------------------------------------- scenarios

  function NodeFault(defs: seq<NodeDefinition>, seen: set<Id>, k: nat): Error
    requires k < |defs|
  {
    if !NodeWellFormed(defs[k]) then InvalidInput
    else if defs[k].id in seen || exists i | 0 <= i < k :: defs[i].id == defs[k].id then DuplicateNode
    else Nil
  }

  function ProcessFault(defs: seq<ProcessDefinition>, seen: set<Id>, maxTicks: int, k: nat): Error
    requires k < |defs|
  {
    if !ProcessWellFormed(defs[k]) then InvalidInput
    else if defs[k].id in seen || exists i | 0 <= i < k :: defs[i].id == defs[k].id then DuplicateProcess
    else if maxTicks < defs[k].submitAtTick then InvalidInput
    else Nil
  }

  /** A failure of a node or a process that the scenario does not define. */
  ghost predicate OfNobody(f: FailureDefinition, sc: Scenario) {
    match f.kind
    case NodeFailure => f.nodeId != NO_ID && !exists d :: d in sc.nodes && d.id == f.nodeId
    case ProcessFailure => f.processId != NO_ID && !exists d :: d in sc.processes && d.id == f.processId
    case UnsupportedFailure => false
  }

  ghost function FailureFault(fs: seq<FailureDefinition>, seen: set<FailureDefinition>, sc: Scenario, k: nat): Error
    requires k < |fs|
  {
    if !(1 <= fs[k].tick <= sc.maxTicks) || fs[k] in seen || fs[k] in fs[..k] then InvalidInput
    else if OfNobody(fs[k], sc) then if fs[k].kind == NodeFailure then NodeNotFound else ProcessNotFound
    else if FailureOk(fs[k], sc) then Nil
    else InvalidInput
  }

  lemma {:induction false} NodesVerdict(defs: seq<NodeDefinition>, seen: set<Id>)
    ensures var e := ValidateNodes(defs, seen);
      if e == Nil then forall k | 0 <= k < |defs| :: NodeFault(defs, seen, k) == Nil
      else exists k | 0 <= k < |defs| :: NodeFault(defs, seen, k) == e && NoNodeFault(defs, seen, k)
  {
    if defs != [] {
      var rest, more := defs[1..], seen + {defs[0].id};
      assert NewNode(defs[0], 0) == None <==> !NodeWellFormed(defs[0]);
      if NodeFault(defs, seen, 0) == Nil {
        NodesVerdict(rest, more);
        forall k | 0 <= k < |rest| ensures NodeFault(rest, more, k) == NodeFault(defs, seen, k + 1) {
          assert rest[k] == defs[k + 1];
          assert forall i | 0 <= i < k :: rest[i] == defs[i + 1];
          assert forall i | 0 < i < k + 1 :: defs[i] == rest[i - 1];
        }
        if ValidateNodes(rest, more) != Nil {
          var k :| 0 <= k < |rest| && NodeFault(rest, more, k) == ValidateNodes(rest, more)
            && NoNodeFault(rest, more, k);
          assert NoNodeFault(defs, seen, k + 1) by {
            forall i | 0 <= i < k + 1 ensures NodeFault(defs, seen, i) == Nil {
              if i > 0 { assert NodeFault(rest, more, i - 1) == Nil; }
            }
          }
        } else {
          forall k | 0 <= k < |defs| ensures NodeFault(defs, seen, k) == Nil {
            if k > 0 { assert NodeFault(rest, more, k - 1) == Nil; }
          }
        }
      } else {
        assert NoNodeFault(defs, seen, 0);
      }
    }
  }

  predicate NoNodeFault(defs: seq<NodeDefinition>, seen: set<Id>, k: nat)
    requires k <= |defs|
  {
    forall i | 0 <= i < k :: NodeFault(defs, seen, i) == Nil
  }

  predicate NoProcessFault(defs: seq<ProcessDefinition>, seen: set<Id>, maxTicks: int, k: nat)
    requires k <= |defs|
  {
    forall i | 0 <= i < k :: ProcessFault(defs, seen, maxTicks, i) == Nil
  }

  ghost predicate NoFailureFault(fs: seq<FailureDefinition>, seen: set<FailureDefinition>, sc: Scenario, k: nat)
    requires k <= |fs|
  {
    forall i | 0 <= i < k :: FailureFault(fs, seen, sc, i) == Nil
  }

  lemma {:induction false} ProcessesVerdict(defs: seq<ProcessDefinition>, seen: set<Id>, maxTicks: int)
    ensures var e := ValidateProcesses(defs, seen, maxTicks);
      if e == Nil then NoProcessFault(defs, seen, maxTicks, |defs|)
      else exists k | 0 <= k < |defs| ::
        ProcessFault(defs, seen, maxTicks, k) == e && NoProcessFault(defs, seen, maxTicks, k)
  {
    if defs != [] {
      var rest, more := defs[1..], seen + {defs[0].id};
      assert NewProcess(defs[0], Max(defs[0].submitAtTick, 0)).Some? <==> ProcessWellFormed(defs[0]);
      if ProcessFault(defs, seen, maxTicks, 0) == Nil {
        ProcessesVerdict(rest, more, maxTicks);
        forall k | 0 <= k < |rest|
          ensures ProcessFault(rest, more, maxTicks, k) == ProcessFault(defs, seen, maxTicks, k + 1)
        {
          assert rest[k] == defs[k + 1];
          assert forall i | 0 <= i < k :: rest[i] == defs[i + 1];
          assert forall i | 0 < i < k + 1 :: defs[i] == rest[i - 1];
        }
        ghost var e := ValidateProcesses(rest, more, maxTicks);
        var k: nat := |rest|;
        if e != Nil {
          k :| 0 <= k < |rest| && ProcessFault(rest, more, maxTicks, k) == e && NoProcessFault(rest, more, maxTicks, k);
        }
        forall i | 0 <= i < k + 1 ensures ProcessFault(defs, seen, maxTicks, i) == Nil {
          if i > 0 { assert ProcessFault(rest, more, maxTicks, i - 1) == Nil; }
        }
        assert NoProcessFault(defs, seen, maxTicks, k + 1);
      } else {
        assert NoProcessFault(defs, seen, maxTicks, 0);
      }
    }
  }

  lemma FailureVerdict(f: FailureDefinition, sc: Scenario)
    requires ProcessesOk(sc.processes, sc.maxTicks) && 1 <= f.tick <= sc.maxTicks
    ensures ValidateFailure(f, sc) == FailureFault([f], {}, sc, 0)
  {
    FailureExact(f, sc);
    assert f.nodeId in NodeIds(sc.nodes) <==> exists d :: d in sc.nodes && d.id == f.nodeId;
  }

  lemma {:induction false} FailuresVerdict(fs: seq<FailureDefinition>, seen: set<FailureDefinition>, sc: Scenario)
    requires ProcessesOk(sc.processes, sc.maxTicks)
    ensures var e := ValidateFailures(fs, seen, sc);
      if e == Nil then NoFailureFault(fs, seen, sc, |fs|)
      else exists k | 0 <= k < |fs| :: FailureFault(fs, seen, sc, k) == e && NoFailureFault(fs, seen, sc, k)
    decreases |fs|
  {
    hide ValidateFailure, OfNobody, FailureOk, ProcessesOk;
    if fs != [] {
      var rest, more := fs[1..], seen + {fs[0]};
      if 1 <= fs[0].tick <= sc.maxTicks { FailureVerdict(fs[0], sc); }
      if FailureFault(fs, seen, sc, 0) == Nil {
        FailuresVerdict(rest, more, sc);
        forall k | 0 <= k < |rest| ensures FailureFault(rest, more, sc, k) == FailureFault(fs, seen, sc, k + 1) {
          assert rest[k] == fs[k + 1] && fs[..k + 1] == [fs[0]] + rest[..k];
        }
        ghost var e := ValidateFailures(rest, more, sc);
        var k: nat := |rest|;
        if e != Nil {
          k :| 0 <= k < |rest| && FailureFault(rest, more, sc, k) == e && NoFailureFault(rest, more, sc, k);
        }
        forall i | 0 <= i < k + 1 ensures FailureFault(fs, seen, sc, i) == Nil {
          if i > 0 { assert FailureFault(rest, more, sc, i - 1) == Nil; }
        }
        assert NoFailureFault(fs, seen, sc, k + 1);
      } else {
        assert NoFailureFault(fs, seen, sc, 0);
      }
    }
  }

  /** A scenario is judged header first, then its nodes, its processes and its failures in their order, and
      the first entry at fault gives the error: a bad entry is invalid, a second one of a name is a
      duplicate, and a failure of a node or a process that is not defined is not found. */
  lemma ValidationVerdict(sc: Scenario)
    ensures var e := Validate(sc);
      if !HeaderOk(sc) then e == InvalidInput
      else if !NodesOk(sc.nodes) then
        exists k | 0 <= k < |sc.nodes| :: e == NodeFault(sc.nodes, {}, k) != Nil && NoNodeFault(sc.nodes, {}, k)
      else if !ProcessesOk(sc.processes, sc.maxTicks) then
        exists k | 0 <= k < |sc.processes| ::
          && e == ProcessFault(sc.processes, {}, sc.maxTicks, k) != Nil
          && NoProcessFault(sc.processes, {}, sc.maxTicks, k)
      else if !FailuresOk(sc) then
        exists k | 0 <= k < |sc.failures| ::
          e == FailureFault(sc.failures, {}, sc, k) != Nil && NoFailureFault(sc.failures, {}, sc, k)
      else e == Nil
  {
    hide ValidateNodes, ValidateProcesses, ValidateFailures, NodesOk, ProcessesOk, NodeFault, ProcessFault,
         FailureFault, FailuresOk, NoNodeFault, NoProcessFault, NoFailureFault;
    ValidatesExactly(sc);
    NodesExact(sc.nodes, {});
    NodesVerdict(sc.nodes, {});
    ProcessesExact(sc.processes, {}, sc.maxTicks);
    ProcessesVerdict(sc.processes, {}, sc.maxTicks);
    if ProcessesOk(sc.processes, sc.maxTicks) {
      FailuresVerdict(sc.failures, {}, sc);
    }
  }

  // ---------------------------------------------------------------- ticks and batches

  /** A list of submissions that fails gives the error of one that does not apply, at its turn. */
  lemma {:induction false} SubmissionsVerdict(s: State, defs: seq<ProcessDefinition>) returns (k: nat)
    requires SubmitAll(s, defs).error != Nil
    ensures k < |defs| && SubmitAll(s, defs[..k]).error == Nil
    ensures SubmitAll(s, defs).error == Submit(SubmitAll(s, defs[..k]).state, defs[k]).error
    decreases |defs|
  {
    hide Submit;
    k := 0;
    assert defs[..0] == [];
    if Submit(s, defs[0]).error == Nil {
      var j := SubmissionsVerdict(Submit(s, defs[0]).state, defs[1..]);
      k := j + 1;
      assert defs[..k][1..] == defs[1..][..j] && defs[..k][0] == defs[0];
    }
  }

  lemma {:induction false} FailuresAppliedVerdict(s: State, fs: seq<FailureDefinition>) returns (k: nat)
    requires ApplyFailures(s, fs).error != Nil
    ensures k < |fs| && ApplyFailures(s, fs[..k]).error == Nil
    ensures ApplyFailures(s, fs).error == ApplyFailure(ApplyFailures(s, fs[..k]).state, fs[k]).error
    decreases |fs|
  {
    hide ApplyFailure;
    k := 0;
    assert fs[..0] == [];
    if ApplyFailure(s, fs[0]).error == Nil {
      var j := FailuresAppliedVerdict(ApplyFailure(s, fs[0]).state, fs[1..]);
      k := j + 1;
      assert fs[..k][1..] == fs[1..][..j] && fs[..k][0] == fs[0];
    }
  }

  /** The error of the actions scheduled for the tick of `b`: that of the first one that does not apply. */
  ghost predicate ErrorOfActions(b: State, e: Error) {
    if SubmissionBlocked(b) then
      var subs := SortDefinitions(DueSubmissions(b, b.tick));
      exists k | 0 <= k < |subs| ::
        SubmitAll(b, subs[..k]).error == Nil && e == Submit(AtSubmission(b, k), subs[k]).error
    else
      var fails := DueFailures(AfterSubmissions(b), b.tick);
      exists k | 0 <= k < |fails| ::
        && ApplyFailures(AfterSubmissions(b), fails[..k]).error == Nil
        && e == ApplyFailure(AtFailure(b, k), fails[k]).error
  }

  lemma ActionsVerdict(b: State)
    requires ApplyScheduled(b).error != Nil
    ensures ErrorOfActions(b, ApplyScheduled(b).error)
  {
    hide SubmitAll, ApplyFailures, SubmissionApplies, SortDefinitions, Submit, ApplyFailure;
    var subs := SortDefinitions(DueSubmissions(b, b.tick));
    NothingDue(b);
    SubmitAllErrs(b, subs);
    if SubmitAll(b, subs).error != Nil {
      var _ := SubmissionsVerdict(b, subs);
    } else {
      var _ := FailuresAppliedVerdict(AfterSubmissions(b), DueFailures(AfterSubmissions(b), b.tick));
    }
  }

  /** What a failing tick answers: nothing can be stepped when the simulation is over; otherwise the first
      scheduled action that does not apply gives its own error. */
  lemma TickVerdict(s: State)
    requires Valid(s) && Step(s).error != Nil
    ensures if s.status == Completed then Step(s).error == InvalidStateTransition
            else ErrorOfActions(BeginTick(s), Step(s).error)
  {
    hide Inv, Valid, BeginTick, ErrorOfActions, ApplyScheduled, DetectMissedHeartbeats, ScheduleReady,
         SampleUtilization, ExecuteRunning, StopIfDone, InvariantsHold;
    StepExact(s);
    if s.status != Completed {
      ActionsVerdict(BeginTick(s));
    }
  }

  /** A batch needs a positive count. One that starts when the simulation is over changes nothing and is no
      error; any other gives the error of the tick that failed, and stops there. */
  lemma StepsResult(s: State, count: int)
    requires Valid(s)
    ensures count <= 0 ==> Steps(s, count) == Reply(s, InvalidInput)
    ensures 0 < count && s.status == Completed ==> Steps(s, count) == Reply(s, Nil)
    ensures 0 < count && s.status != Completed && Step(s).error != Nil
            ==> Steps(s, count) == Step(s)
    ensures 0 < count && Step(s).error == Nil && (count == 1 || Step(s).state.status == Completed)
            ==> Steps(s, count) == Step(s)
    ensures 1 < count && Step(s).error == Nil && Step(s).state.status != Completed
            ==> Steps(s, count) == Steps(Step(s).state, count - 1)
  {
    hide Step, Valid, TrailOf;
    if 0 < count {
      LoopOnce(s, count);
      StepExact(s);
      if s.status == Completed { OverIsOver(s); }
    }
  }
}
