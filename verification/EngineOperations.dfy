/** What each engine operation does to the loop: which ones stop it, which ones validate first, and that a refused
    call leaves it alone. */
module EngineOperations {
  import opened Domain
  import opened EngineProtocol

  // ---------------------------------------------------------------- how an operation begins

  /** Loading or running a scenario looks at the scenario before it touches the loop. */
  predicate TakesScenario(op: Op) {
    op.LoadScenario? || op.RunScenario?
  }

  /** With control in hand, `Start` goes for the handle, an operation on a scenario validates it, and every other
      one begins to stop the loop. */
  lemma OperationBegins(e: Engine, t: Caller, op: Op, flag: bool, slack: nat)
    requires t in e.callers && e.callers[t] == WantControl(op) && e.controlMu == None
    ensures var a := Proceed(t, flag, slack);
      && Enabled(e, a)
      && Apply(e, a) == e.(controlMu := Some(t), callers := e.callers[t :=
           if op.Start? then StartWantMu else if TakesScenario(op) then Validating(op) else WantMu(op)])
  {
  }

  /** Once the loop is stopped, an operation goes on with the next call into the controller, or leaves: after its
      last one, and after one that failed. */
  lemma OperationActs(e: Engine, t: Caller, op: Op, left: nat, flag: bool, slack: nat)
    requires t in e.callers && e.callers[t] == Acting(op, left)
    ensures var a := Proceed(t, flag, slack);
      && Enabled(e, a)
      && Apply(e, a) == e.(callers := e.callers[t := if flag && 0 < left then Acting(op, left - 1) else Leaving])
  {
  }

  /** How often an operation calls into the controller once the loop is stopped, if nothing goes wrong. */
  lemma CallsToController(op: Op)
    ensures match op
      case Start => op.Work() == 0
      case Close => op.Work() == 0
      case Pause => op.Work() == 1
      case Reset => op.Work() == 1
      case LoadScenario => op.Work() == 1
      case RunSteps(ticks) => op.Work() == ticks
      case RunScenario(maxTicks) => op.Work() == 1 + maxTicks + 1
  {
  }

  // ---------------------------------------------------------------- the loop is left alone

  ghost predicate SameLoop(e: Engine, f: Engine) {
    f.loops == e.loops && f.cancel == e.cancel && f.done == e.done
  }

  /** The action is a step of this caller. */
  predicate IsOf(a: Action, t: Caller) {
    (a.Call? || a.Proceed?) && a.caller == t
  }

  /** Places in an operation from which the next step leaves the loop alone, whatever it is. */
  predicate Harmless(pc: Pc) {
    pc.Idle? || pc.WantControl? || pc.Validating? || pc.Leaving? || pc.Acting? || pc.StartWantMu? || pc.WantMu?
    || pc.HoldMu?
  }

  lemma HarmlessStep(e: Engine, a: Action, t: Caller)
    requires Enabled(e, a) && IsOf(a, t) && Harmless(e.callers[t])
    ensures SameLoop(e, Apply(e, a))
  {
  }

  /** Starting a loop where there is one already is refused, and leaves it alone. */
  lemma SecondStartIsRefused(e: Engine, t: Caller, flag: bool, slack: nat)
    requires t in e.callers && e.callers[t] == StartHoldMu && e.cancel.Some?
    ensures var a := Proceed(t, flag, slack);
      Enabled(e, a) && SameLoop(e, Apply(e, a)) && Apply(e, a).callers[t] == Leaving
  {
  }

  // ---------------------------------------------------------------- traces

  /** The state before the k-th action. */
  ghost function StateAt(callers: set<Caller>, actions: seq<Action>, k: nat): Engine
    requires k <= |actions| && Run(callers, actions).Some?
  {
    RunPrefix(callers, actions, k);
    Run(callers, actions[..k]).value
  }

  lemma {:induction false} RunPrefix(callers: set<Caller>, actions: seq<Action>, k: nat)
    requires k <= |actions| && Run(callers, actions).Some?
    ensures Run(callers, actions[..k]).Some?
    decreases |actions|
  {
    hide Enabled, Apply;
    if k == |actions| {
      assert actions[..k] == actions;
    } else {
      var front := actions[..|actions| - 1];
      RunPrefix(callers, front, k);
      assert front[..k] == actions[..k];
    }
  }

  lemma NextState(callers: set<Caller>, actions: seq<Action>, k: nat)
    requires k < |actions| && Run(callers, actions).Some?
    ensures Enabled(StateAt(callers, actions, k), actions[k])
    ensures StateAt(callers, actions, k + 1) == Apply(StateAt(callers, actions, k), actions[k])
  {
    hide Enabled, Apply;
    RunPrefix(callers, actions, k);
    RunPrefix(callers, actions, k + 1);
    var longer := actions[..k + 1];
    assert longer[..|longer| - 1] == actions[..k] && longer[|longer| - 1] == actions[k];
  }

  lemma {:induction false} CallersAt(callers: set<Caller>, actions: seq<Action>, k: nat)
    requires k <= |actions| && Run(callers, actions).Some?
    ensures StateAt(callers, actions, k).callers.Keys == callers
  {
    hide Enabled, Apply, Run;
    if k == 0 {
      FirstState(callers, actions);
    } else {
      NextState(callers, actions, k - 1);
      CallersAt(callers, actions, k - 1);
      CallersStay(StateAt(callers, actions, k - 1), actions[k - 1]);
    }
  }

  lemma FirstState(callers: set<Caller>, actions: seq<Action>)
    requires Run(callers, actions).Some?
    ensures StateAt(callers, actions, 0) == NewEngine(callers) && NewEngine(callers).callers.Keys == callers
    ensures forall t | t in callers :: NewEngine(callers).callers[t] == Pc.Idle
  {
    assert actions[..0] == [];
  }

  // ---------------------------------------------------------------- validation comes first

  /** On its way through the stop of the loop and the work that follows it. */
  predicate PastValidation(pc: Pc, op: Op) {
    || pc == WantMu(op) || pc == HoldMu(op)
    || (pc.Cancelling? && pc.op == op) || (pc.Awaiting? && pc.op == op) || (pc.Acting? && pc.op == op)
  }

  lemma OnlyByValidation(e: Engine, a: Action, t: Caller, op: Op)
    requires Enabled(e, a) && t in e.callers && TakesScenario(op)
    requires t in Apply(e, a).callers && PastValidation(Apply(e, a).callers[t], op)
    ensures PastValidation(e.callers[t], op)
         || (e.callers[t] == Validating(op) && a.Proceed? && a.caller == t && a.flag)
  {
  }

  /** A caller on its way to stop the loop for a scenario has had that scenario accepted, in this very call. */
  lemma {:induction false} ValidationComesFirst(callers: set<Caller>, actions: seq<Action>, k: nat, t: Caller, op: Op)
    returns (i: nat)
    requires k <= |actions| && Run(callers, actions).Some? && t in callers && TakesScenario(op)
    requires t in StateAt(callers, actions, k).callers && PastValidation(StateAt(callers, actions, k).callers[t], op)
    ensures i < k && actions[i].Proceed? && actions[i].caller == t && actions[i].flag
    ensures t in StateAt(callers, actions, i).callers && StateAt(callers, actions, i).callers[t] == Validating(op)
    ensures forall j | i < j <= k ::
      t in StateAt(callers, actions, j).callers && PastValidation(StateAt(callers, actions, j).callers[t], op)
  {
    hide Enabled, Apply, Run, StateAt, PastValidation;
    if k == 0 {
      FirstState(callers, actions);
      IdleIsNotPast(op);
    } else {
      NextState(callers, actions, k - 1);
      CallersAt(callers, actions, k - 1);
      OnlyByValidation(StateAt(callers, actions, k - 1), actions[k - 1], t, op);
      if PastValidation(StateAt(callers, actions, k - 1).callers[t], op) {
        i := ValidationComesFirst(callers, actions, k - 1, t, op);
      } else {
        i := k - 1;
      }
    }
  }

  lemma IdleIsNotPast(op: Op)
    ensures !PastValidation(Pc.Idle, op)
  {
  }

  // ---------------------------------------------------------------- a refused call

  /** Before the verdict on its scenario. */
  predicate BeforeVerdict(pc: Pc, op: Op) {
    pc == WantControl(op) || pc == Validating(op)
  }

  lemma VerdictBackwards(e: Engine, a: Action, t: Caller, op: Op)
    requires Enabled(e, a) && t in e.callers && TakesScenario(op) && !(a.Call? && a.caller == t)
    requires t in Apply(e, a).callers && BeforeVerdict(Apply(e, a).callers[t], op)
    ensures BeforeVerdict(e.callers[t], op)
  {
  }

  /** After the refusal there is only the way out. */
  predicate OnItsWayOut(pc: Pc) {
    pc.Leaving? || pc.Idle?
  }

  lemma WayOutForwards(e: Engine, a: Action, t: Caller)
    requires Enabled(e, a) && t in e.callers && OnItsWayOut(e.callers[t]) && !(a.Call? && a.caller == t)
    ensures t in Apply(e, a).callers && OnItsWayOut(Apply(e, a).callers[t])
  {
  }

  /** Between these actions the caller makes no new call. */
  ghost predicate OneCall(actions: seq<Action>, i: nat, j: nat, t: Caller)
    requires i <= j <= |actions|
  {
    forall k | i < k < j :: !(actions[k].Call? && actions[k].caller == t)
  }

  lemma {:induction false} BeforeRefusal(callers: set<Caller>, actions: seq<Action>, k: nat, r: nat, t: Caller, op: Op)
    requires k <= r <= |actions| && Run(callers, actions).Some? && t in callers && TakesScenario(op)
    requires forall m | k <= m < r :: !(actions[m].Call? && actions[m].caller == t)
    requires t in StateAt(callers, actions, r).callers && BeforeVerdict(StateAt(callers, actions, r).callers[t], op)
    ensures t in StateAt(callers, actions, k).callers && BeforeVerdict(StateAt(callers, actions, k).callers[t], op)
    decreases r - k
  {
    hide Enabled, Apply, Run, StateAt, BeforeVerdict;
    if k < r {
      NextState(callers, actions, r - 1);
      CallersAt(callers, actions, r - 1);
      VerdictBackwards(StateAt(callers, actions, r - 1), actions[r - 1], t, op);
      BeforeRefusal(callers, actions, k, r - 1, t, op);
    }
  }

  lemma {:induction false} AfterRefusal(callers: set<Caller>, actions: seq<Action>, r: nat, k: nat, t: Caller)
    requires r <= k <= |actions| && Run(callers, actions).Some? && t in callers
    requires forall m | r <= m < k :: !(actions[m].Call? && actions[m].caller == t)
    requires t in StateAt(callers, actions, r).callers && OnItsWayOut(StateAt(callers, actions, r).callers[t])
    ensures t in StateAt(callers, actions, k).callers && OnItsWayOut(StateAt(callers, actions, k).callers[t])
    decreases k - r
  {
    hide Enabled, Apply, Run, StateAt, OnItsWayOut;
    if r < k {
      AfterRefusal(callers, actions, r, k - 1, t);
      NextState(callers, actions, k - 1);
      CallersAt(callers, actions, k - 1);
      WayOutForwards(StateAt(callers, actions, k - 1), actions[k - 1], t);
    }
  }

  lemma RefusalLeaves(e: Engine, a: Action, t: Caller, op: Op)
    requires Enabled(e, a) && a.Proceed? && a.caller == t && !a.flag && e.callers[t] == Validating(op)
    ensures t in Apply(e, a).callers && OnItsWayOut(Apply(e, a).callers[t])
  {
  }

  lemma BothAreHarmless(pc: Pc, op: Op)
    ensures BeforeVerdict(pc, op) || OnItsWayOut(pc) ==> Harmless(pc)
  {
  }

  /** A call that loads or runs a scenario and has it refused leaves the loop alone with every step it makes, from
      the call until its next one: what runs goes on running, under the same handle. */
  lemma RefusedCallIsHarmless(callers: set<Caller>, actions: seq<Action>, i: nat, r: nat, j: nat, t: Caller, op: Op)
    requires i < r < j <= |actions| && Run(callers, actions).Some? && t in callers && TakesScenario(op)
    requires actions[i] == Call(t, op) && OneCall(actions, i, j, t)
    requires actions[r].Proceed? && actions[r].caller == t && !actions[r].flag
    requires t in StateAt(callers, actions, r).callers && StateAt(callers, actions, r).callers[t] == Validating(op)
    ensures forall k | i <= k < j && IsOf(actions[k], t) ::
      SameLoop(StateAt(callers, actions, k), StateAt(callers, actions, k + 1))
  {
    hide Enabled, Apply, Run, StateAt, SameLoop, Harmless, OnItsWayOut;
    NextState(callers, actions, r);
    RefusalLeaves(StateAt(callers, actions, r), actions[r], t, op);
    forall k | i <= k < j && IsOf(actions[k], t)
      ensures SameLoop(StateAt(callers, actions, k), StateAt(callers, actions, k + 1))
    {
      NextState(callers, actions, k);
      if k == i {
        CallIsHarmless(StateAt(callers, actions, k), actions[k], t);
      } else {
        if k <= r {
          BeforeRefusal(callers, actions, k, r, t, op);
        } else {
          AfterRefusal(callers, actions, r + 1, k, t);
        }
        BothAreHarmless(StateAt(callers, actions, k).callers[t], op);
        HarmlessStep(StateAt(callers, actions, k), actions[k], t);
      }
    }
  }

  lemma CallIsHarmless(e: Engine, a: Action, t: Caller)
    requires Enabled(e, a) && a.Call? && a.caller == t
    ensures SameLoop(e, Apply(e, a))
  {
  }

  // ---------------------------------------------------------------- how a loop ends

  lemma ActionKeepsLoop(e: Engine, a: Action, g: LoopId)
    requires Inv(e) && Enabled(e, a) && g < |e.loops|
    ensures g < |Apply(e, a).loops|
    ensures !e.loops[g].pc.CanStep() ==> !Apply(e, a).loops[g].pc.CanStep()
    ensures e.loops[g].pc.CanStep() && (a.LoopProceed? ==> a.loop != g) ==> Apply(e, a).loops[g].pc.CanStep()
  {
    hide ControlOk, MuOk, HandleOk, SpawnOk;
  }

  lemma {:induction false} EndedForGood(e: Engine, actions: seq<Action>, g: LoopId)
    requires Inv(e) && g < |e.loops| && !e.loops[g].pc.CanStep()
    ensures var f := Continue(e, actions);
      f.Some? ==> g < |f.value.loops| && !f.value.loops[g].pc.CanStep()
    decreases |actions|
  {
    hide Inv, Enabled, Apply, LoopPc.CanStep;
    if actions != [] && Enabled(e, actions[0]) {
      ActionKeepsLoop(e, actions[0], g);
      StepKeepsInv(e, actions[0]);
      EndedForGood(Apply(e, actions[0]), actions[1..], g);
    }
  }

  /** The step a loop ends with: its select takes the cancellation, its tick fails, or the simulation is over. */
  predicate EndsLoop(e: Engine, a: Action, g: LoopId)
    requires g < |e.loops|
  {
    && a.LoopProceed? && a.loop == g
    && match e.loops[g].pc
       case Selecting => !a.flag
       case Ticking => a.flag
       case Checking => a.flag
       case _ => false
  }

  /** In every interleaving a loop that steps the controller goes on exactly until it notices its cancellation, a
      tick of its fails, or the simulation is over; then it never steps the controller again. */
  lemma LoopEndsExactly(callers: set<Caller>, actions: seq<Action>, a: Action, g: LoopId, more: seq<Action>)
    requires Run(callers, actions).Some?
    requires var e := Run(callers, actions).value; Enabled(e, a) && g < |e.loops| && e.loops[g].pc.CanStep()
    ensures var e := Run(callers, actions).value;
      && g < |Apply(e, a).loops|
      && (Apply(e, a).loops[g].pc.CanStep() <==> !EndsLoop(e, a, g))
      && (EndsLoop(e, a, g) && Continue(Apply(e, a), more).Some? ==>
            var f := Continue(Apply(e, a), more).value;
            g < |f.loops| && !f.loops[g].pc.CanStep())
  {
    hide Run, Continue, Inv;
    RunKeepsInv(callers, actions);
    var e := Run(callers, actions).value;
    ActionKeepsLoop(e, a, g);
    if EndsLoop(e, a, g) {
      StepKeepsInv(e, a);
      EndedForGood(Apply(e, a), more, g);
    }
  }
}
