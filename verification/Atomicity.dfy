/** Ticks are atomic, their errors are exact, and batches of ticks compose. */
module Atomicity {
  import opened Domain
  import opened Cluster
  import opened Invariants
  import opened Scheduling
  import opened Tick

  // ---------------------------------------------------------------- exactly when a tick fails

  /** A definition can be submitted unless the limit is reached, it is malformed, or its name is taken. */
  predicate SubmissionApplies(s: State, d: ProcessDefinition) {
    |s.processes| < s.maxProcesses && NewProcess(d, s.tick).Some? && d.id !in s.processes
  }

  /** The state in which the k-th due submission has its turn. */
  ghost function AtSubmission(s: State, k: nat): State
    requires k <= |SortDefinitions(DueSubmissions(s, s.tick))|
  {
    SubmitAll(s, SortDefinitions(DueSubmissions(s, s.tick))[..k]).state
  }

  ghost function AfterSubmissions(s: State): State {
    var due := DueSubmissions(s, s.tick);
    var t := SubmitAll(s, SortDefinitions(due)).state;
    if |due| > 0 then t.(pending := t.pending - {s.tick}) else t
  }

  /** The state in which the k-th due failure has its turn. */
  ghost function AtFailure(s: State, k: nat): State
    requires k <= |DueFailures(AfterSubmissions(s), s.tick)|
  {
    ApplyFailures(AfterSubmissions(s), DueFailures(AfterSubmissions(s), s.tick)[..k]).state
  }

  ghost predicate SubmissionBlocked(s: State) {
    var subs := SortDefinitions(DueSubmissions(s, s.tick));
    exists k | 0 <= k < |subs| :: !SubmissionApplies(AtSubmission(s, k), subs[k])
  }

  ghost predicate FailureBlocked(s: State) {
    var fails := DueFailures(AfterSubmissions(s), s.tick);
    exists k | 0 <= k < |fails| :: !FailureApplies(AtFailure(s, k), fails[k])
  }

  lemma SubmitErrs(s: State, d: ProcessDefinition)
    ensures Submit(s, d).error == Nil <==> SubmissionApplies(s, d)
    ensures Submit(s, d).error != Nil ==> Submit(s, d).state == s
  {
  }

  lemma {:induction false} SubmitAllErrs(s: State, defs: seq<ProcessDefinition>)
    ensures SubmitAll(s, defs).error != Nil <==>
      exists k | 0 <= k < |defs| :: !SubmissionApplies(SubmitAll(s, defs[..k]).state, defs[k])
    decreases |defs|
  {
    hide Submit, SubmissionApplies;
    if defs != [] {
      SubmitErrs(s, defs[0]);
      var rest := defs[1..];
      assert defs[..0] == [];
      if SubmissionApplies(s, defs[0]) {
        var s1 := Submit(s, defs[0]).state;
        SubmitAllErrs(s1, rest);
        forall k | 0 <= k < |rest|
          ensures SubmitAll(s, defs[..k+1]).state == SubmitAll(s1, rest[..k]).state && defs[k+1] == rest[k]
        {
          assert defs[..k+1][1..] == rest[..k];
        }
        if SubmitAll(s1, rest).error != Nil {
          var k :| 0 <= k < |rest| && !SubmissionApplies(SubmitAll(s1, rest[..k]).state, rest[k]);
          assert !SubmissionApplies(SubmitAll(s, defs[..k+1]).state, defs[k+1]);
        }
        forall k | 0 <= k < |defs| && !SubmissionApplies(SubmitAll(s, defs[..k]).state, defs[k])
          ensures SubmitAll(s1, rest).error != Nil
        {
          if k > 0 {
            assert SubmitAll(s, defs[..(k-1)+1]).state == SubmitAll(s1, rest[..k-1]).state;
          }
        }
      } else {
        assert !SubmissionApplies(SubmitAll(s, defs[..0]).state, defs[0]);
      }
    }
  }

  lemma {:induction false} ApplyFailuresErrs(s: State, fs: seq<FailureDefinition>)
    requires Inv(s, {}, MID)
    ensures ApplyFailures(s, fs).error != Nil <==>
      exists k | 0 <= k < |fs| :: !FailureApplies(ApplyFailures(s, fs[..k]).state, fs[k])
    decreases |fs|
  {
    hide Inv, ApplyFailure, FailureApplies;
    if fs != [] {
      ApplyFailureExact(s, fs[0]);
      var rest := fs[1..];
      assert fs[..0] == [];
      if FailureApplies(s, fs[0]) {
        var s1 := ApplyFailure(s, fs[0]).state;
        ApplyFailuresErrs(s1, rest);
        forall k | 0 <= k < |rest|
          ensures ApplyFailures(s, fs[..k+1]).state == ApplyFailures(s1, rest[..k]).state && fs[k+1] == rest[k]
        {
          assert fs[..k+1][1..] == rest[..k];
        }
        if ApplyFailures(s1, rest).error != Nil {
          var k :| 0 <= k < |rest| && !FailureApplies(ApplyFailures(s1, rest[..k]).state, rest[k]);
          assert !FailureApplies(ApplyFailures(s, fs[..k+1]).state, fs[k+1]);
        }
        forall k | 0 <= k < |fs| && !FailureApplies(ApplyFailures(s, fs[..k]).state, fs[k])
          ensures ApplyFailures(s1, rest).error != Nil
        {
          if k > 0 {
            assert ApplyFailures(s, fs[..(k-1)+1]).state == ApplyFailures(s1, rest[..k-1]).state;
          }
        }
      } else {
        assert !FailureApplies(ApplyFailures(s, fs[..0]).state, fs[0]);
      }
    }
  }

  /** A tick fails if and only if the simulation is over, or some action scheduled for the new tick
      does not apply at its turn; and a failing tick changes nothing. */
  lemma StepFailsExactly(s: State)
    requires Valid(s)
    ensures Step(s).error != Nil <==>
      s.status == Completed || SubmissionBlocked(BeginTick(s)) || FailureBlocked(BeginTick(s))
    ensures Step(s).error != Nil ==> Step(s).state == s
  {
    hide Inv, Valid, Step, BeginTick, SubmitAll, ApplyFailures, SubmissionApplies, FailureApplies, SortDefinitions;
    StepExact(s);
    BeginTickKeeps(s);
    var b := BeginTick(s);
    var due := DueSubmissions(b, b.tick);
    var subs := SortDefinitions(due);
    SubmitAllErrs(b, subs);
    SubmitAllKeeps(b, subs);
    if SubmitAll(b, subs).error == Nil {
      var s1 := AfterSubmissions(b);
      StatusIsFree(SubmitAll(b, subs).state, {}, MID, s1);
      ApplyFailuresErrs(s1, DueFailures(s1, b.tick));
      NothingDue(b);
      assert ApplyScheduled(b).error == ApplyFailures(s1, DueFailures(s1, b.tick)).error;
    } else {
      NothingDue(b);
    }
  }

  lemma NothingDue(s: State)
    ensures DueSubmissions(s, s.tick) == [] ==>
      SubmitAll(s, SortDefinitions(DueSubmissions(s, s.tick))) == Reply(s, Nil)
  {
  }

  // ---------------------------------------------------------------- batches

  lemma LoopOnce(s: State, n: nat)
    requires 0 < n
    ensures var r := Step(s);
      StepLoop(s, n) == if r.error == Nil && r.state.status != Completed then StepLoop(r.state, n - 1)
                        else if r.error == Nil || (r.error == InvalidStateTransition && r.state.status == Completed)
                          then Reply(r.state, Nil)
                        else r
  {
    hide Step;
  }

  /** After an error a batch stays where it is: the same tick fails the same way again. */
  lemma {:induction false} LoopsCompose(s: State, a: nat, b: nat)
    requires Valid(s) && 0 < b
    ensures StepLoop(s, a + b) == StepLoop(StepLoop(s, a).state, b)
    decreases a
  {
    hide Valid, Step, TrailOf;
    if a > 0 {
      StepExact(s);
      var r := Step(s);
      LoopOnce(s, a + b);
      LoopOnce(s, a);
      LoopOnce(s, b);
      if r.error == Nil && r.state.status != Completed {
        LoopsCompose(r.state, a - 1, b);
        assert a + b - 1 == a - 1 + b;
      } else if r.error == Nil {
        OverIsOver(r.state);
        LoopOnce(r.state, b);
      }
    } else {
      assert StepLoop(s, 0).state == s;
    }
  }

  lemma OverIsOver(s: State)
    requires s.status == Completed
    ensures Step(s) == Reply(s, InvalidStateTransition)
  {
  }

  /** Running `Steps(a)` and then `Steps(b)` ends where `Steps(a + b)` does, with the same error,
      whatever fails on the way. */
  lemma BatchesCompose(s: State, a: int, b: int)
    requires Valid(s) && 0 < a && 0 < b
    ensures Steps(Steps(s, a).state, b) == Steps(s, a + b)
  {
    hide Valid, StepLoop;
    LoopsCompose(s, a, b);
  }
}
