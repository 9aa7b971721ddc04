/** The real-time engine of internal/engine as a concurrent protocol: callers and loops that take turns in
    atomic steps, two mutexes, a cancel function and a done channel. Every interleaving is a run. */
module EngineProtocol {
  import opened Domain

  type Caller = nat
  type LoopId = nat

  datatype Op = Start | Pause | Close | RunSteps(ticks: nat) | LoadScenario | Reset | RunScenario(maxTicks: nat) {
    /** How many calls into the controller follow `stopRealtime`. */
    function Work(): nat {
      match this
      case Start => 0
      case Pause => 1
      case Close => 0
      case RunSteps(n) => n
      case LoadScenario => 1
      case Reset => 1
      case RunScenario(n) => n + 2
    }

    predicate ValidatesFirst() {
      LoadScenario? || RunScenario?
    }
  }

  /** Where a caller is in its operation. */
  datatype Pc =
    | Idle
    | WantControl(op: Op)
    | Validating(op: Op)
    | StartWantMu
    | StartHoldMu
    | Launching(loop: LoopId)
    | Spawning(loop: LoopId)
    | WantMu(op: Op)
    | HoldMu(op: Op)
    | Cancelling(op: Op, cancel: LoopId, done: Option<LoopId>)
    | Awaiting(op: Op, done: Option<LoopId>)
    | Acting(op: Op, left: nat)
    | Leaving
  {
    predicate InControl() {
      !Idle? && !WantControl?
    }

    predicate HoldsMu() {
      StartHoldMu? || HoldMu?
    }

    /** After `stopRealtime` has returned. */
    predicate HasStopped() {
      Acting?
    }
  }

  datatype LoopPc = Unspawned | Selecting | Ticking | Checking | WantingMu | Clearing | Closing | Gone {
    /** The loop may still call `controller.Step`. */
    predicate CanStep() {
      Unspawned? || Selecting? || Ticking? || Checking?
    }

    /** The loop has not given up its handle yet. */
    predicate BeforeClear() {
      !Closing? && !Gone?
    }
  }

  /** `slack` is how often the select of a cancelled loop still takes the tick: a choice between two
      ready channels is free, but does not go the same way forever. */
  datatype Loop = Loop(pc: LoopPc, cancelled: bool, slack: nat)

  datatype Owner = ByCaller(caller: Caller) | ByLoop(loop: LoopId)

  datatype Engine = Engine(
    controlMu: Option<Caller>, mu: Option<Owner>, cancel: Option<LoopId>, done: Option<LoopId>,
    loops: seq<Loop>, callers: map<Caller, Pc>)

  datatype Action =
    | Call(caller: Caller, op: Op)
    | Proceed(caller: Caller, flag: bool, slack: nat)
    | LoopProceed(loop: LoopId, flag: bool)
    | ParentCancels(loop: LoopId, slack: nat)

  // ---------------------------------------------------------------- steps

  function At(e: Engine, t: Caller, pc: Pc): Engine {
    e.(callers := e.callers[t := pc])
  }

  function LoopAt(e: Engine, g: LoopId, pc: LoopPc): Engine
    requires g < |e.loops|
  {
    e.(loops := e.loops[g := e.loops[g].(pc := pc)])
  }

  function Cancelled(l: Loop, slack: nat): Loop {
    if l.cancelled then l else l.(cancelled := true, slack := slack)
  }

  predicate CallerEnabled(e: Engine, pc: Pc) {
    match pc
    case Idle => false
    case WantControl(_) => e.controlMu == None
    case StartWantMu => e.mu == None
    case WantMu(_) => e.mu == None
    case Cancelling(_, g, _) => g < |e.loops|
    case Awaiting(_, d) => d.Some? && d.value < |e.loops| && e.loops[d.value].pc == Gone
    case Launching(g) => g < |e.loops|
    case Spawning(g) => g < |e.loops|
    case _ => true
  }

  /** One step of a caller. */
  function CallerStep(e: Engine, t: Caller, pc: Pc, flag: bool, slack: nat): Engine
    requires CallerEnabled(e, pc)
  {
    match pc
    case WantControl(op) =>
      At(e.(controlMu := Some(t)), t,
         if op.Start? then StartWantMu else if op.ValidatesFirst() then Validating(op) else WantMu(op))
    case Validating(op) => At(e, t, if flag then WantMu(op) else Leaving)
    case StartWantMu => At(e.(mu := Some(ByCaller(t))), t, StartHoldMu)
    case StartHoldMu =>
      if e.cancel.Some? then At(e.(mu := None), t, Leaving)
      else
        var g := |e.loops|;
        At(e.(mu := None, cancel := Some(g), done := Some(g), loops := e.loops + [Loop(Unspawned, flag, slack)]),
           t, Launching(g))
    case Launching(g) => At(e, t, Spawning(g))
    case Spawning(g) => At(LoopAt(e, g, Selecting), t, Leaving)
    case WantMu(op) => At(e.(mu := Some(ByCaller(t))), t, HoldMu(op))
    case HoldMu(op) =>
      (match e.cancel
       case None => At(e.(mu := None), t, Acting(op, op.Work()))
       case Some(g) => At(e.(mu := None), t, Cancelling(op, g, e.done)))
    case Cancelling(op, g, d) => At(e.(loops := e.loops[g := Cancelled(e.loops[g], slack)]), t, Awaiting(op, d))
    case Awaiting(op, _) => At(e, t, Acting(op, op.Work()))
    case Acting(op, left) => At(e, t, if left == 0 || !flag then Leaving else Acting(op, left - 1))
    case Leaving => At(e.(controlMu := None), t, Pc.Idle)
    case Idle => e
  }

  predicate LoopEnabled(e: Engine, g: LoopId, flag: bool)
    requires g < |e.loops|
  {
    match e.loops[g].pc
    case Unspawned => false
    case Selecting => if flag then !e.loops[g].cancelled || e.loops[g].slack > 0 else e.loops[g].cancelled
    case WantingMu => e.mu == None
    case Gone => false
    case _ => true
  }

  /** One step of a loop: `flag` is the branch of a select, a failed step, or a completed simulation. */
  function LoopStep(e: Engine, g: LoopId, flag: bool): Engine
    requires g < |e.loops| && LoopEnabled(e, g, flag)
  {
    var l := e.loops[g];
    match l.pc
    case Selecting =>
      if flag then
        var slack := if l.cancelled && l.slack > 0 then l.slack - 1 else l.slack;
        e.(loops := e.loops[g := l.(pc := Ticking, slack := slack)])
      else LoopAt(e, g, WantingMu)
    case Ticking => LoopAt(e, g, if flag then WantingMu else Checking)
    case Checking => LoopAt(e, g, if flag then WantingMu else Selecting)
    case WantingMu => LoopAt(e.(mu := Some(ByLoop(g))), g, Clearing)
    case Clearing =>
      LoopAt(e.(mu := None, cancel := if e.done == Some(g) then None else e.cancel,
                done := if e.done == Some(g) then None else e.done), g, Closing)
    case Closing => LoopAt(e, g, Gone)
    case Unspawned => e
    case Gone => e
  }

  predicate Enabled(e: Engine, a: Action) {
    match a
    case Call(t, _) => t in e.callers && e.callers[t] == Pc.Idle
    case Proceed(t, _, _) => t in e.callers && CallerEnabled(e, e.callers[t])
    case LoopProceed(g, flag) => g < |e.loops| && LoopEnabled(e, g, flag)
    case ParentCancels(g, _) => g < |e.loops|
  }

  function Apply(e: Engine, a: Action): Engine
    requires Enabled(e, a)
  {
    match a
    case Call(t, op) => At(e, t, WantControl(op))
    case Proceed(t, flag, slack) => CallerStep(e, t, e.callers[t], flag, slack)
    case LoopProceed(g, flag) => LoopStep(e, g, flag)
    case ParentCancels(g, slack) => e.(loops := e.loops[g := Cancelled(e.loops[g], slack)])
  }

  /** A new engine, with any number of callers that have not called anything. */
  function NewEngine(callers: set<Caller>): Engine {
    Engine(None, None, None, None, [], map t | t in callers :: Pc.Idle)
  }

  /** The state after a sequence of actions, if each was enabled in its turn. */
  ghost function Run(callers: set<Caller>, actions: seq<Action>): Option<Engine> {
    if actions == [] then Some(NewEngine(callers))
    else
      match Run(callers, actions[..|actions| - 1])
      case None => None
      case Some(e) => if Enabled(e, actions[|actions| - 1]) then Some(Apply(e, actions[|actions| - 1])) else None
  }

  // ---------------------------------------------------------------- the invariant

  /** What a caller knows at its place in the code. */
  ghost predicate CallerOk(e: Engine, pc: Pc) {
    match pc
    case Launching(g) => g < |e.loops| && e.loops[g].pc == Unspawned
    case Spawning(g) => g < |e.loops| && e.loops[g].pc == Unspawned
    case Cancelling(_, g, d) => d == Some(g) && g < |e.loops| && OnlyLive(e, g)
    case Awaiting(_, d) => d.Some? && d.value < |e.loops| && OnlyLive(e, d.value) && e.loops[d.value].cancelled
    case Acting(_, _) => NoneLive(e)
    case _ => true
  }

  ghost predicate OnlyLive(e: Engine, g: LoopId) {
    forall h | 0 <= h < |e.loops| :: e.loops[h].pc.BeforeClear() ==> h == g
  }

  ghost predicate NoneLive(e: Engine) {
    forall h | 0 <= h < |e.loops| :: !e.loops[h].pc.BeforeClear()
  }

  ghost predicate ControlOk(e: Engine) {
    && (forall t | t in e.callers :: e.callers[t].InControl() <==> e.controlMu == Some(t))
    && (e.controlMu.Some? ==> e.controlMu.value in e.callers)
  }

  ghost predicate MuOfCallers(e: Engine) {
    && (forall t | t in e.callers :: e.callers[t].HoldsMu() <==> e.mu == Some(ByCaller(t)))
    && (e.mu.Some? && e.mu.value.ByCaller? ==> e.mu.value.caller in e.callers)
  }

  ghost predicate MuOfLoops(e: Engine) {
    && (forall g | 0 <= g < |e.loops| :: e.loops[g].pc == Clearing <==> e.mu == Some(ByLoop(g)))
    && (e.mu.Some? && e.mu.value.ByLoop? ==> e.mu.value.loop < |e.loops|)
  }

  ghost predicate MuOk(e: Engine) {
    MuOfCallers(e) && MuOfLoops(e)
  }

  /** The handle names the one loop that has not cleared it. */
  ghost predicate HandleOk(e: Engine) {
    && e.cancel == e.done
    && (e.done.Some? ==> e.done.value < |e.loops| && e.loops[e.done.value].pc.BeforeClear())
    && (forall g | 0 <= g < |e.loops| && e.loops[g].pc.BeforeClear() :: e.done == Some(g))
  }

  /** A loop that is not running yet is being started by the caller in control. */
  ghost predicate SpawnOk(e: Engine) {
    forall g | 0 <= g < |e.loops| && e.loops[g].pc == Unspawned ::
      && e.controlMu.Some? && e.controlMu.value in e.callers
      && (e.callers[e.controlMu.value] == Launching(g) || e.callers[e.controlMu.value] == Spawning(g))
  }

  ghost predicate Inv(e: Engine) {
    && ControlOk(e) && MuOk(e) && HandleOk(e) && SpawnOk(e)
    && forall t | t in e.callers :: CallerOk(e, e.callers[t])
  }

  lemma CallerKeepsControl(e: Engine, t: Caller, flag: bool, slack: nat)
    requires Inv(e) && t in e.callers && CallerEnabled(e, e.callers[t])
    ensures ControlOk(CallerStep(e, t, e.callers[t], flag, slack))
  {
    hide MuOk, HandleOk, SpawnOk, CallerOk;
  }

  lemma CallerKeepsMu(e: Engine, t: Caller, flag: bool, slack: nat)
    requires Inv(e) && t in e.callers && CallerEnabled(e, e.callers[t])
    ensures MuOk(CallerStep(e, t, e.callers[t], flag, slack))
  {
    hide ControlOk, HandleOk, SpawnOk, OnlyLive, NoneLive, MuOfCallers, MuOfLoops;
    MuAmongCallers(e, t, flag, slack);
    MuAmongLoops(e, t, flag, slack);
  }

  lemma MuAmongCallers(e: Engine, t: Caller, flag: bool, slack: nat)
    requires Inv(e) && t in e.callers && CallerEnabled(e, e.callers[t])
    ensures MuOfCallers(CallerStep(e, t, e.callers[t], flag, slack))
  {
    hide ControlOk, HandleOk, SpawnOk, CallerOk, MuOfLoops;
  }

  lemma MuAmongLoops(e: Engine, t: Caller, flag: bool, slack: nat)
    requires Inv(e) && t in e.callers && CallerEnabled(e, e.callers[t])
    ensures MuOfLoops(CallerStep(e, t, e.callers[t], flag, slack))
  {
    hide ControlOk, HandleOk, SpawnOk, OnlyLive, NoneLive;
  }

  lemma CallerKeepsHandle(e: Engine, t: Caller, flag: bool, slack: nat)
    requires Inv(e) && t in e.callers && CallerEnabled(e, e.callers[t])
    ensures HandleOk(CallerStep(e, t, e.callers[t], flag, slack))
  {
    hide ControlOk, MuOk, SpawnOk, OnlyLive, NoneLive;
  }

  lemma CallerKeepsSpawn(e: Engine, t: Caller, flag: bool, slack: nat)
    requires Inv(e) && t in e.callers && CallerEnabled(e, e.callers[t])
    ensures SpawnOk(CallerStep(e, t, e.callers[t], flag, slack))
  {
    hide MuOk, HandleOk, OnlyLive, NoneLive;
  }

  /** The caller that moves knows what it has to at its next place. */
  lemma CallerKeepsItself(e: Engine, t: Caller, flag: bool, slack: nat)
    requires Inv(e) && t in e.callers && CallerEnabled(e, e.callers[t])
    ensures var f := CallerStep(e, t, e.callers[t], flag, slack);
      t in f.callers && CallerOk(f, f.callers[t])
  {
    hide ControlOk, MuOk, SpawnOk;
  }

  lemma OnlyOneMoves(e: Engine, t: Caller, flag: bool, slack: nat)
    requires ControlOk(e) && t in e.callers && CallerEnabled(e, e.callers[t])
    ensures var f := CallerStep(e, t, e.callers[t], flag, slack);
      && f.callers.Keys == e.callers.Keys
      && forall u | u in f.callers && u != t :: f.callers[u] == e.callers[u] && !f.callers[u].InControl()
  {
  }

  lemma CallerKeepsCallers(e: Engine, t: Caller, flag: bool, slack: nat)
    requires Inv(e) && t in e.callers && CallerEnabled(e, e.callers[t])
    ensures var f := CallerStep(e, t, e.callers[t], flag, slack);
      forall u | u in f.callers :: CallerOk(f, f.callers[u])
  {
    hide ControlOk, MuOk, HandleOk, SpawnOk, CallerStep, OnlyLive, NoneLive;
    OnlyOneMoves(e, t, flag, slack);
    CallerKeepsItself(e, t, flag, slack);
  }

  lemma CallerKeepsInv(e: Engine, t: Caller, flag: bool, slack: nat)
    requires Inv(e) && t in e.callers && CallerEnabled(e, e.callers[t])
    ensures Inv(CallerStep(e, t, e.callers[t], flag, slack))
  {
    hide CallerStep, ControlOk, MuOk, HandleOk, SpawnOk, CallerOk;
    CallerKeepsControl(e, t, flag, slack);
    CallerKeepsMu(e, t, flag, slack);
    CallerKeepsHandle(e, t, flag, slack);
    CallerKeepsSpawn(e, t, flag, slack);
    CallerKeepsCallers(e, t, flag, slack);
  }

  lemma LoopKeepsMu(e: Engine, g: LoopId, flag: bool)
    requires Inv(e) && g < |e.loops| && LoopEnabled(e, g, flag)
    ensures MuOk(LoopStep(e, g, flag)) && ControlOk(LoopStep(e, g, flag))
  {
    hide HandleOk, SpawnOk, CallerOk;
  }

  lemma LoopKeepsHandle(e: Engine, g: LoopId, flag: bool)
    requires Inv(e) && g < |e.loops| && LoopEnabled(e, g, flag)
    ensures HandleOk(LoopStep(e, g, flag)) && SpawnOk(LoopStep(e, g, flag))
  {
    hide ControlOk, MuOk, CallerOk;
  }

  /** Loops only move towards their end. */
  ghost predicate LoopsFade(e: Engine, f: Engine) {
    |e.loops| == |f.loops|
    && forall h | 0 <= h < |e.loops| ::
         && (f.loops[h].pc.BeforeClear() ==> e.loops[h].pc.BeforeClear())
         && (e.loops[h].cancelled ==> f.loops[h].cancelled)
         && (e.loops[h].pc == Unspawned ==> f.loops[h].pc == Unspawned)
  }

  lemma FadingKeepsCaller(e: Engine, f: Engine, pc: Pc)
    requires LoopsFade(e, f) && CallerOk(e, pc)
    ensures CallerOk(f, pc)
  {
  }

  lemma LoopStepFades(e: Engine, g: LoopId, flag: bool)
    requires g < |e.loops| && LoopEnabled(e, g, flag)
    ensures LoopsFade(e, LoopStep(e, g, flag)) && LoopStep(e, g, flag).callers == e.callers
  {
  }

  lemma LoopKeepsCallers(e: Engine, g: LoopId, flag: bool)
    requires Inv(e) && g < |e.loops| && LoopEnabled(e, g, flag)
    ensures var f := LoopStep(e, g, flag);
      forall u | u in f.callers :: CallerOk(f, f.callers[u])
  {
    hide ControlOk, MuOk, HandleOk, SpawnOk, CallerOk, LoopStep, LoopsFade;
    LoopStepFades(e, g, flag);
    forall u | u in e.callers ensures CallerOk(LoopStep(e, g, flag), e.callers[u]) {
      FadingKeepsCaller(e, LoopStep(e, g, flag), e.callers[u]);
    }
  }

  lemma LoopKeepsInv(e: Engine, g: LoopId, flag: bool)
    requires Inv(e) && g < |e.loops| && LoopEnabled(e, g, flag)
    ensures Inv(LoopStep(e, g, flag))
  {
    hide LoopStep, ControlOk, MuOk, HandleOk, SpawnOk, CallerOk;
    LoopKeepsMu(e, g, flag);
    LoopKeepsHandle(e, g, flag);
    LoopKeepsCallers(e, g, flag);
  }

  lemma CallKeepsInv(e: Engine, t: Caller, op: Op)
    requires Inv(e) && t in e.callers && e.callers[t] == Pc.Idle
    ensures Inv(At(e, t, WantControl(op)))
  {
    hide OnlyLive, NoneLive, CallerOk, HandleOk, MuOfLoops;
    var f := At(e, t, WantControl(op));
    assert HandleOk(f) by { SameLoops(e, f); }
    assert MuOfLoops(f) by { SameLoops(e, f); }
    forall u | u in f.callers ensures CallerOk(f, f.callers[u]) {
      SameLoopsKeepCaller(e, f, if u == t then Pc.Idle else e.callers[u]);
      WaitingKnowsNothing(f, op);
    }
  }

  lemma SameLoops(e: Engine, f: Engine)
    requires f == e.(callers := f.callers)
    ensures HandleOk(e) ==> HandleOk(f)
    ensures MuOfLoops(e) ==> MuOfLoops(f)
  {
  }

  lemma SameLoopsKeepCaller(e: Engine, f: Engine, pc: Pc)
    requires f == e.(callers := f.callers) && CallerOk(e, pc)
    ensures CallerOk(f, pc)
  {
  }

  lemma WaitingKnowsNothing(e: Engine, op: Op)
    ensures CallerOk(e, WantControl(op))
  {
  }

  lemma CancelKeepsInv(e: Engine, g: LoopId, slack: nat)
    requires Inv(e) && g < |e.loops|
    ensures Inv(e.(loops := e.loops[g := Cancelled(e.loops[g], slack)]))
  {
  }

  lemma StepKeepsInv(e: Engine, a: Action)
    requires Inv(e) && Enabled(e, a)
    ensures Inv(Apply(e, a))
  {
    hide Inv, CallerStep, LoopStep, LoopEnabled, CallerEnabled, At, Cancelled;
    match a
    case Call(t, op) => CallKeepsInv(e, t, op);
    case Proceed(t, flag, slack) => CallerKeepsInv(e, t, flag, slack);
    case LoopProceed(g, flag) => LoopKeepsInv(e, g, flag);
    case ParentCancels(g, slack) => CancelKeepsInv(e, g, slack);
  }

  lemma {:induction false} RunKeepsInv(callers: set<Caller>, actions: seq<Action>)
    ensures Run(callers, actions).Some? ==> Inv(Run(callers, actions).value)
    decreases |actions|
  {
    hide Inv, Enabled, Apply;
    if actions == [] {
      NewKeepsInv(callers);
    } else {
      RunKeepsInv(callers, actions[..|actions| - 1]);
      var before := Run(callers, actions[..|actions| - 1]);
      if before.Some? && Enabled(before.value, actions[|actions| - 1]) {
        StepKeepsInv(before.value, actions[|actions| - 1]);
      }
    }
  }

  lemma CallersStay(e: Engine, a: Action)
    requires Enabled(e, a)
    ensures Apply(e, a).callers.Keys == e.callers.Keys
  {
  }

  lemma NewKeepsInv(callers: set<Caller>)
    ensures Inv(NewEngine(callers))
  {
  }

  // ---------------------------------------------------------------- safety

  /** In every interleaving: at most one loop has not given up its handle, and only that one can ever
      step the controller again. */
  lemma OneLiveLoop(callers: set<Caller>, actions: seq<Action>)
    ensures var r := Run(callers, actions);
      r.Some? ==>
        && (forall g, h | 0 <= g < |r.value.loops| && 0 <= h < |r.value.loops|
                          && r.value.loops[g].pc.BeforeClear() && r.value.loops[h].pc.BeforeClear() :: g == h)
        && (forall g | 0 <= g < |r.value.loops| && r.value.loops[g].pc.CanStep() ::
              r.value.cancel == Some(g) && r.value.done == Some(g))
  {
    hide Run, ControlOk, MuOk, SpawnOk, CallerOk;
    RunKeepsInv(callers, actions);
  }

  /** The step that clears the handle finds it unchanged, and leaves none. */
  lemma LoopClearsItsOwn(e: Engine, g: LoopId, flag: bool)
    requires Inv(e) && g < |e.loops| && e.loops[g].pc == Clearing
    ensures LoopEnabled(e, g, flag) && e.done == Some(g)
    ensures LoopStep(e, g, flag).cancel == None && LoopStep(e, g, flag).done == None
  {
    hide ControlOk, MuOk, SpawnOk, CallerOk;
  }

  /** After `stopRealtime` has returned, and for as long as its caller goes on to act, no loop can step
      the controller, and no other caller does. */
  lemma NoStepAfterStop(callers: set<Caller>, actions: seq<Action>)
    ensures var r := Run(callers, actions);
      r.Some? ==> forall t | t in r.value.callers && r.value.callers[t].HasStopped() ::
        && (forall g | 0 <= g < |r.value.loops| :: !r.value.loops[g].pc.CanStep())
        && (forall u | u in r.value.callers && u != t :: !r.value.callers[u].InControl())
  {
    hide Run, MuOk, HandleOk, SpawnOk;
    RunKeepsInv(callers, actions);
  }

  /** A loop that has given up its handle never gets it back. */
  lemma GoneStaysGone(e: Engine, a: Action, g: LoopId)
    requires Inv(e) && Enabled(e, a) && g < |e.loops| && !e.loops[g].pc.BeforeClear()
    ensures g < |Apply(e, a).loops| && !Apply(e, a).loops[g].pc.BeforeClear()
  {
    hide ControlOk, MuOk, HandleOk, SpawnOk;
  }

  /** Further actions from a state, if each is enabled in its turn. */
  ghost function Continue(e: Engine, actions: seq<Action>): Option<Engine>
    decreases |actions|
  {
    if actions == [] then Some(e)
    else if Enabled(e, actions[0]) then Continue(Apply(e, actions[0]), actions[1..])
    else None
  }

  lemma {:induction false} ClearedForGood(e: Engine, actions: seq<Action>, g: LoopId)
    requires Inv(e) && g < |e.loops| && !e.loops[g].pc.BeforeClear()
    ensures var f := Continue(e, actions);
      f.Some? ==> g < |f.value.loops| && !f.value.loops[g].pc.BeforeClear()
    decreases |actions|
  {
    hide Inv, Enabled, Apply, LoopPc.BeforeClear;
    if actions != [] && Enabled(e, actions[0]) {
      GoneStaysGone(e, actions[0], g);
      StepKeepsInv(e, actions[0]);
      ClearedForGood(Apply(e, actions[0]), actions[1..], g);
    }
  }

  /** No loop that existed when `stopRealtime` returned ever steps the controller again, whatever happens
      afterwards. */
  lemma StoppedForGood(callers: set<Caller>, actions: seq<Action>, t: Caller, more: seq<Action>, g: LoopId)
    requires Run(callers, actions).Some?
    requires var e := Run(callers, actions).value; t in e.callers && e.callers[t].HasStopped() && g < |e.loops|
    ensures var f := Continue(Run(callers, actions).value, more);
      f.Some? ==> g < |f.value.loops| && !f.value.loops[g].pc.CanStep()
  {
    hide Run, Continue, MuOk, HandleOk, SpawnOk;
    RunKeepsInv(callers, actions);
    ClearedForGood(Run(callers, actions).value, more, g);
  }

  // ---------------------------------------------------------------- progress

  /** How many steps of its own the caller in control still has to make, at most. */
  function CallerRank(pc: Pc): nat {
    match pc
    case Idle => 0
    case WantControl(_) => 0
    case Leaving => 1
    case Spawning(_) => 2
    case Launching(_) => 3
    case StartHoldMu => 4
    case StartWantMu => 5
    case Acting(_, left) => 2 + left
    case Awaiting(op, _) => 3 + op.Work()
    case Cancelling(op, _, _) => 4 + op.Work()
    case HoldMu(op) => 5 + op.Work()
    case WantMu(op) => 6 + op.Work()
    case Validating(op) => 7 + op.Work()
  }

  /** How many steps a cancelled loop still has to make, at most. */
  function LoopRank(l: Loop): nat {
    match l.pc
    case Unspawned => 7 + 3 * l.slack
    case Ticking => 6 + 3 * l.slack
    case Checking => 5 + 3 * l.slack
    case Selecting => 4 + 3 * l.slack
    case WantingMu => 3
    case Clearing => 2
    case Closing => 1
    case Gone => 0
  }

  /** How much of the live loop's way out the caller depends on. */
  ghost function Help(e: Engine, pc: Pc): nat {
    match pc
    case Awaiting(_, d) => if d.Some? && d.value < |e.loops| then LoopRank(e.loops[d.value]) else 0
    case StartWantMu => MuHelp(e)
    case WantMu(_) => MuHelp(e)
    case _ => 0
  }

  ghost function MuHelp(e: Engine): nat {
    if e.done.None? || e.done.value >= |e.loops| then 0
    else if e.loops[e.done.value].pc == Clearing then 1
    else 2
  }

  ghost predicate Closer(e: Engine, f: Engine, t: Caller)
    requires t in e.callers && t in f.callers
  {
    || CallerRank(f.callers[t]) < CallerRank(e.callers[t])
    || (f.callers[t] == e.callers[t] && Help(f, f.callers[t]) < Help(e, e.callers[t]))
  }

  ghost predicate NoFurther(e: Engine, f: Engine, t: Caller)
    requires t in e.callers && t in f.callers
  {
    Closer(e, f, t) || (f.callers[t] == e.callers[t] && Help(f, f.callers[t]) == Help(e, e.callers[t]))
  }

  /** Whoever holds `mu` can go on at once, and its next step gives `mu` back. */
  lemma MuIsBrief(e: Engine, flag: bool, slack: nat)
    requires Inv(e) && e.mu.Some?
    ensures var a := if e.mu.value.ByCaller? then Proceed(e.mu.value.caller, flag, slack)
        else LoopProceed(e.mu.value.loop, flag);
      Enabled(e, a) && Apply(e, a).mu == None
  {
    hide ControlOk, HandleOk, SpawnOk, OnlyLive, NoneLive;
  }

  /** The action that brings the caller in control closer to giving control back. */
  ghost function Helpful(e: Engine): Action
    requires Inv(e) && e.controlMu.Some?
  {
    var t := e.controlMu.value;
    var pc := e.callers[t];
    if CallerEnabled(e, pc) then Proceed(t, true, 0)
    else if pc.Awaiting? then LoopProceed(pc.done.value, e.loops[pc.done.value].pc != Selecting)
    else if e.mu.Some? && e.mu.value.ByLoop? then LoopProceed(e.mu.value.loop, true)
    else Proceed(t, true, 0)
  }

  lemma CallerAdvances(e: Engine, t: Caller, flag: bool, slack: nat)
    requires t in e.callers && e.callers[t].InControl() && CallerEnabled(e, e.callers[t])
    ensures var f := CallerStep(e, t, e.callers[t], flag, slack);
      t in f.callers && CallerRank(f.callers[t]) < CallerRank(e.callers[t])
  {
  }

  lemma AwaitedLoopAdvances(e: Engine, g: LoopId, flag: bool)
    requires g < |e.loops| && LoopEnabled(e, g, flag) && e.loops[g].cancelled
    ensures LoopRank(LoopStep(e, g, flag).loops[g]) < LoopRank(e.loops[g])
    ensures LoopStep(e, g, flag).callers == e.callers && |LoopStep(e, g, flag).loops| == |e.loops|
  {
  }

  /** A loop that is waited for is never blocked itself. */
  lemma AwaitedLoopEnabled(e: Engine, t: Caller, g: LoopId)
    requires Inv(e) && t in e.callers && e.callers[t].Awaiting? && e.callers[t].done == Some(g)
    ensures g < |e.loops| && e.loops[g].cancelled
    ensures e.loops[g].pc != Gone ==> LoopEnabled(e, g, e.loops[g].pc != Selecting)
  {
    hide HandleOk;
    assert e.controlMu == Some(t);
  }

  /** A caller that wants `mu` waits for a loop that is about to give it back, or not at all. */
  lemma MuIsHeldByLoop(e: Engine, t: Caller)
    requires Inv(e) && t in e.callers && (e.callers[t].WantMu? || e.callers[t].StartWantMu?) && e.mu.Some?
    ensures e.mu.value.ByLoop? && e.mu.value.loop < |e.loops| && e.loops[e.mu.value.loop].pc == Clearing
    ensures e.done == Some(e.mu.value.loop)
  {
    hide SpawnOk, CallerOk;
  }

  /** No deadlock: whenever an operation is in control, some step is enabled that brings it closer to its end. */
  lemma ControlIsHelped(e: Engine)
    requires Inv(e) && e.controlMu.Some?
    ensures e.controlMu.value in e.callers && Enabled(e, Helpful(e))
    ensures var f := Apply(e, Helpful(e));
      e.controlMu.value in f.callers && Closer(e, f, e.controlMu.value)
  {
    hide HandleOk, MuOk, SpawnOk, CallerStep, LoopStep, CallerRank, LoopRank;
    var t := e.controlMu.value;
    var pc := e.callers[t];
    if CallerEnabled(e, pc) {
      CallerAdvances(e, t, true, 0);
    } else if pc.Awaiting? {
      var g := pc.done.value;
      AwaitedLoopEnabled(e, t, g);
      AwaitedLoopAdvances(e, g, e.loops[g].pc != Selecting);
    } else {
      MuIsHeldByLoop(e, t);
      var g := e.mu.value.loop;
      LoopClearsItsOwn(e, g, true);
      LoopKeepsCaller(e, g, true);
    }
  }

  lemma LoopKeepsCaller(e: Engine, g: LoopId, flag: bool)
    requires g < |e.loops| && LoopEnabled(e, g, flag)
    ensures LoopStep(e, g, flag).callers == e.callers
  {
  }

  lemma OtherCallerIsIdle(e: Engine, t: Caller, u: Caller, flag: bool, slack: nat)
    requires Inv(e) && e.controlMu == Some(t) && u in e.callers && u != t
    ensures !CallerEnabled(e, e.callers[u])
  {
    hide MuOk, HandleOk, SpawnOk, CallerOk;
  }

  lemma LoopDoesNotHinder(e: Engine, g: LoopId, flag: bool, t: Caller)
    requires Inv(e) && g < |e.loops| && LoopEnabled(e, g, flag) && t in e.callers
    ensures LoopStep(e, g, flag).callers == e.callers
    ensures NoFurther(e, LoopStep(e, g, flag), t)
  {
    hide ControlOk, MuOk, SpawnOk, CallerRank;
  }

  lemma CancelDoesNotHinder(e: Engine, g: LoopId, slack: nat, t: Caller)
    requires Inv(e) && g < |e.loops| && t in e.callers
    ensures NoFurther(e, e.(loops := e.loops[g := Cancelled(e.loops[g], slack)]), t)
  {
    hide ControlOk, MuOk, SpawnOk, CallerRank;
  }

  /** Nobody else's step takes an operation in control further from its end. */
  lemma NobodyHinders(e: Engine, a: Action)
    requires Inv(e) && Enabled(e, a) && e.controlMu.Some?
    ensures e.controlMu.value in e.callers && e.controlMu.value in Apply(e, a).callers
    ensures NoFurther(e, Apply(e, a), e.controlMu.value)
  {
    hide MuOk, HandleOk, SpawnOk, CallerOk, CallerStep, LoopStep, LoopEnabled, CallerEnabled, CallerRank, Help,
         Cancelled;
    var t := e.controlMu.value;
    match a
    case Call(_, _) => CallDoesNotHinder(e, t, a);
    case Proceed(u, flag, slack) =>
      if u == t { CallerAdvances(e, t, flag, slack); } else { OtherCallerIsIdle(e, t, u, flag, slack); }
    case LoopProceed(g, flag) => LoopDoesNotHinder(e, g, flag, t);
    case ParentCancels(g, slack) => CancelDoesNotHinder(e, g, slack, t);
  }

  lemma CallDoesNotHinder(e: Engine, t: Caller, a: Action)
    requires t in e.callers && e.callers[t].InControl() && a.Call? && Enabled(e, a)
    ensures t in Apply(e, a).callers && NoFurther(e, Apply(e, a), t)
  {
  }

  lemma CloserKeepsControl(e: Engine, a: Action)
    requires Inv(e) && Enabled(e, a) && e.controlMu.Some?
    ensures Apply(e, a).controlMu == e.controlMu || Apply(e, a).controlMu == None
    ensures Apply(e, a).controlMu == None ==>
      e.controlMu.value in Apply(e, a).callers && Apply(e, a).callers[e.controlMu.value] == Pc.Idle
  {
    hide MuOk, HandleOk, SpawnOk, CallerOk;
  }

  /** From every state an operation in control can be brought to its end: it returns and gives control back. */
  lemma {:induction false} ControlIsReleased(e: Engine) returns (actions: seq<Action>)
    requires Inv(e) && e.controlMu.Some? && e.controlMu.value in e.callers
    ensures Continue(e, actions).Some?
    ensures var f := Continue(e, actions).value;
      && Inv(f) && f.controlMu == None
      && e.controlMu.value in f.callers && f.callers[e.controlMu.value] == Pc.Idle
    decreases CallerRank(e.callers[e.controlMu.value]), Help(e, e.callers[e.controlMu.value])
  {
    hide Inv, Apply, Enabled, Helpful, CallerRank, Help;
    ControlIsHelped(e);
    var a := Helpful(e);
    StepKeepsInv(e, a);
    CloserKeepsControl(e, a);
    var f := Apply(e, a);
    if f.controlMu == None {
      actions := [a];
      assert Continue(f, []) == Some(f);
      assert [a][1..] == [];
    } else {
      var rest := ControlIsReleased(f);
      actions := [a] + rest;
      assert actions[1..] == rest;
    }
  }
}
