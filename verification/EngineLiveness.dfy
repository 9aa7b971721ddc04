/** Nobody blocks forever on `done`, `mu` or `controlMu`: every infinite interleaving in which no thread
    that could go on is passed over forever. */
module EngineLiveness {
  import opened Domain
  import opened EngineProtocol

  // ---------------------------------------------------------------- infinite runs

  /** The states and the actions of an interleaving that never ends. */
  type States = nat -> Engine
  type Schedule = nat -> Action

  ghost predicate IsRun(callers: set<Caller>, run: States, sch: Schedule) {
    && run(0) == NewEngine(callers)
    && forall n: nat :: Enabled(run(n), sch(n)) && run(n + 1) == Apply(run(n), sch(n))
  }

  predicate Moves(a: Action, w: Owner) {
    (a.Proceed? && w == ByCaller(a.caller)) || (a.LoopProceed? && w == ByLoop(a.loop))
  }

  predicate CanMove(e: Engine, w: Owner) {
    match w
    case ByCaller(t) => t in e.callers && CallerEnabled(e, e.callers[t])
    case ByLoop(g) => g < |e.loops| && (LoopEnabled(e, g, true) || LoopEnabled(e, g, false))
  }

  /** At n or later the thread moves, or cannot. */
  ghost predicate Served(run: States, sch: Schedule, n: nat, w: Owner) {
    exists k: nat :: n <= k && (Moves(sch(k), w) || !CanMove(run(k), w))
  }

  /** The scheduler of the runtime: a thread that can go on and stays so, goes on. */
  ghost predicate Fair(run: States, sch: Schedule) {
    forall n: nat, w: Owner :: Served(run, sch, n, w)
  }

  lemma {:induction false} RunIsSound(callers: set<Caller>, run: States, sch: Schedule, n: nat)
    requires IsRun(callers, run, sch)
    ensures Inv(run(n)) && run(n).callers.Keys == callers
  {
    hide Inv, Apply, Enabled;
    if n == 0 {
      NewKeepsInv(callers);
      assert NewEngine(callers).callers.Keys == callers;
    } else {
      RunIsSound(callers, run, sch, n - 1);
      assert Enabled(run(n - 1), sch(n - 1)) && run(n - 1 + 1) == Apply(run(n - 1), sch(n - 1));
      StepKeepsInv(run(n - 1), sch(n - 1));
      CallersStay(run(n - 1), sch(n - 1));
    }
  }

  // ---------------------------------------------------------------- one step

  /** The thread that can bring the operation in control closer to its end. */
  ghost function Helper(e: Engine): Owner
    requires Inv(e) && e.controlMu.Some?
  {
    if Helpful(e).Proceed? then ByCaller(e.controlMu.value) else ByLoop(Helpful(e).loop)
  }

  lemma HelperCanMove(e: Engine)
    requires Inv(e) && e.controlMu.Some?
    ensures CanMove(e, Helper(e))
  {
    hide Inv, CallerEnabled, LoopEnabled;
    ControlIsHelped(e);
    HelpfulForm(e);
  }

  lemma HelpfulForm(e: Engine)
    requires Inv(e) && e.controlMu.Some?
    ensures Helpful(e).Proceed? || Helpful(e).LoopProceed?
    ensures Helpful(e).Proceed? ==> Helpful(e).caller == e.controlMu.value
  {
    hide CallerEnabled;
  }

  /** Whatever the helper does, the operation comes closer to its end. */
  lemma HelperHelps(e: Engine, a: Action)
    requires Inv(e) && e.controlMu.Some? && Enabled(e, a) && Moves(a, Helper(e))
    ensures e.controlMu.value in e.callers && e.controlMu.value in Apply(e, a).callers
    ensures Closer(e, Apply(e, a), e.controlMu.value)
  {
    hide HandleOk, MuOk, SpawnOk, CallerStep, LoopStep, CallerRank, LoopRank;
    var t := e.controlMu.value;
    var pc := e.callers[t];
    HelpfulForm(e);
    if a.Proceed? {
      CallerAdvances(e, t, a.flag, a.slack);
    } else if pc.Awaiting? {
      var g := pc.done.value;
      AwaitedLoopEnabled(e, t, g);
      AwaitedLoopAdvances(e, g, a.flag);
    } else {
      MuIsHeldByLoop(e, t);
      LoopClearsItsOwn(e, e.mu.value.loop, a.flag);
      LoopKeepsCaller(e, e.mu.value.loop, a.flag);
    }
  }

  /** Same operation in control at the same place, with the same thread to help it. */
  ghost predicate SameWait(e: Engine, f: Engine)
    requires Inv(e) && Inv(f) && e.controlMu.Some? && e.controlMu.value in e.callers
  {
    && f.controlMu == e.controlMu && e.controlMu.value in f.callers
    && f.callers[e.controlMu.value] == e.callers[e.controlMu.value]
    && Help(f, f.callers[e.controlMu.value]) == Help(e, e.callers[e.controlMu.value])
    && Helper(f) == Helper(e)
  }

  /** Whatever anyone else does, the operation comes closer to its end or waits as before. */
  lemma OthersLeaveTheWait(e: Engine, a: Action)
    requires Inv(e) && e.controlMu.Some? && Enabled(e, a) && !Moves(a, Helper(e))
    ensures e.controlMu.value in e.callers && e.controlMu.value in Apply(e, a).callers && Inv(Apply(e, a))
    ensures Closer(e, Apply(e, a), e.controlMu.value) || SameWait(e, Apply(e, a))
  {
    hide Inv, Helper, Enabled, Apply, Closer, SameWait;
    StepKeepsInv(e, a);
    match a
    case Call(_, _) => CallLeavesTheWait(e, a);
    case Proceed(_, _, _) => CallersLeaveTheWait(e, a);
    case LoopProceed(_, _) => LoopsLeaveTheWait(e, a);
    case ParentCancels(_, _) => CancelLeavesTheWait(e, a);
  }

  lemma CallLeavesTheWait(e: Engine, a: Action)
    requires Inv(e) && e.controlMu.Some? && Enabled(e, a) && a.Call? && Inv(Apply(e, a))
    ensures e.controlMu.value in e.callers && e.controlMu.value in Apply(e, a).callers && SameWait(e, Apply(e, a))
  {
    hide HandleOk, MuOk, SpawnOk, CallerOk, CallerRank, LoopRank;
  }

  /** Nobody but the caller in control can go on, and it is the helper if it can. */
  lemma CallersLeaveTheWait(e: Engine, a: Action)
    requires Inv(e) && e.controlMu.Some? && Enabled(e, a) && a.Proceed? && Inv(Apply(e, a))
    ensures Moves(a, Helper(e))
  {
    hide HandleOk, MuOk, SpawnOk, CallerOk, CallerStep, CallerRank, LoopRank;
    var t := e.controlMu.value;
    if a.caller != t {
      OtherCallerIsIdle(e, t, a.caller, a.flag, a.slack);
    }
  }

  lemma CancelLeavesTheWait(e: Engine, a: Action)
    requires Inv(e) && e.controlMu.Some? && Enabled(e, a) && a.ParentCancels? && Inv(Apply(e, a))
    ensures e.controlMu.value in e.callers && e.controlMu.value in Apply(e, a).callers && SameWait(e, Apply(e, a))
  {
    hide HandleOk, MuOk, SpawnOk, CallerRank;
  }

  /** A loop's step leaves the callers, the number of loops and every other loop alone. */
  lemma LoopStepFrame(e: Engine, g: LoopId, flag: bool)
    requires g < |e.loops| && LoopEnabled(e, g, flag)
    ensures var f := LoopStep(e, g, flag);
      && f.callers == e.callers && f.controlMu == e.controlMu && |f.loops| == |e.loops|
      && (forall h | 0 <= h < |e.loops| && h != g :: f.loops[h] == e.loops[h])
      && (f.mu == e.mu || e.loops[g].pc == WantingMu || e.loops[g].pc == Clearing)
      && (f.done == e.done || e.loops[g].pc == Clearing)
      && (e.loops[g].pc == WantingMu ==> e.mu == None && f.loops[g].pc == Clearing)
      && (f.loops[g].pc == Clearing ==> e.loops[g].pc == WantingMu)
  {
  }

  lemma LoopsLeaveAwaiting(e: Engine, g: LoopId, flag: bool)
    requires Inv(e) && e.controlMu.Some? && g < |e.loops| && LoopEnabled(e, g, flag) && Inv(LoopStep(e, g, flag))
    requires Helper(e) != ByLoop(g)
    requires e.controlMu.value in e.callers && e.callers[e.controlMu.value].Awaiting?
    ensures SameWait(e, LoopStep(e, g, flag))
  {
    hide ControlOk, MuOk, HandleOk, SpawnOk, OnlyLive, LoopStep, CallerRank, LoopRank;
    LoopStepFrame(e, g, flag);
    AwaitedLoopEnabled(e, e.controlMu.value, e.callers[e.controlMu.value].done.value);
  }

  lemma LoopsLeaveWanting(e: Engine, g: LoopId, flag: bool)
    requires Inv(e) && e.controlMu.Some? && g < |e.loops| && LoopEnabled(e, g, flag) && Inv(LoopStep(e, g, flag))
    requires Helper(e) != ByLoop(g)
    requires e.controlMu.value in e.callers
    requires e.callers[e.controlMu.value].WantMu? || e.callers[e.controlMu.value].StartWantMu?
    ensures var t, f := e.controlMu.value, LoopStep(e, g, flag);
      t in f.callers && (Closer(e, f, t) || SameWait(e, f))
  {
    hide ControlOk, MuOfCallers, SpawnOk, CallerOk, LoopStep, LoopEnabled, CallerRank, LoopRank;
    LoopStepFrame(e, g, flag);
    var t := e.controlMu.value;
    if e.mu.Some? {
      MuIsHeldByLoop(e, t);
    }
  }

  lemma LoopsLeaveTheRest(e: Engine, g: LoopId, flag: bool)
    requires Inv(e) && e.controlMu.Some? && g < |e.loops| && LoopEnabled(e, g, flag) && Inv(LoopStep(e, g, flag))
    requires e.controlMu.value in e.callers && e.callers[e.controlMu.value].InControl()
    requires var pc := e.callers[e.controlMu.value]; !pc.Awaiting? && !pc.WantMu? && !pc.StartWantMu?
    ensures SameWait(e, LoopStep(e, g, flag))
  {
    hide ControlOk, MuOk, HandleOk, SpawnOk, OnlyLive, NoneLive, LoopStep, LoopEnabled, CallerRank, LoopRank;
    LoopStepFrame(e, g, flag);
  }

  lemma LoopsLeaveTheWait(e: Engine, a: Action)
    requires Inv(e) && e.controlMu.Some? && Enabled(e, a) && a.LoopProceed? && Inv(Apply(e, a))
    requires !Moves(a, Helper(e))
    ensures e.controlMu.value in e.callers && e.controlMu.value in Apply(e, a).callers
    ensures Closer(e, Apply(e, a), e.controlMu.value) || SameWait(e, Apply(e, a))
  {
    hide MuOk, HandleOk, SpawnOk, CallerOk, LoopStep, LoopEnabled, CallerRank, LoopRank, Closer, SameWait, Helper;
    LoopStepFrame(e, a.loop, a.flag);
    var pc := e.callers[e.controlMu.value];
    if pc.Awaiting? {
      LoopsLeaveAwaiting(e, a.loop, a.flag);
    } else if pc.WantMu? || pc.StartWantMu? {
      LoopsLeaveWanting(e, a.loop, a.flag);
    } else {
      LoopsLeaveTheRest(e, a.loop, a.flag);
    }
  }

  // ---------------------------------------------------------------- control comes back

  /** Control was given back: the operation that held it has returned. */
  ghost predicate GivenBack(e: Engine, f: Engine)
    requires e.controlMu.Some?
  {
    && f.controlMu == None
    && e.controlMu.value in f.callers && f.callers[e.controlMu.value] == Pc.Idle
  }

  /** The operation that was in control has returned, or is closer to its end. */
  ghost predicate Nearer(e: Engine, f: Engine)
    requires e.controlMu.Some? && e.controlMu.value in e.callers
  {
    || GivenBack(e, f)
    || (f.controlMu == e.controlMu && e.controlMu.value in f.callers && Closer(e, f, e.controlMu.value))
  }

  /** What is left of the operation in control, and of the loop it depends on. */
  ghost function Left(e: Engine): (nat, nat) {
    if e.controlMu.Some? && e.controlMu.value in e.callers
    then (CallerRank(e.callers[e.controlMu.value]), Help(e, e.callers[e.controlMu.value]))
    else (0, 0)
  }

  lemma ControlInCallers(e: Engine)
    requires Inv(e) && e.controlMu.Some?
    ensures e.controlMu.value in e.callers
  {
  }

  lemma OneStepNearer(e: Engine, a: Action)
    requires Inv(e) && e.controlMu.Some? && Enabled(e, a)
    ensures Inv(Apply(e, a)) && e.controlMu.value in e.callers
    ensures Nearer(e, Apply(e, a)) || SameWait(e, Apply(e, a))
    ensures Moves(a, Helper(e)) ==> Nearer(e, Apply(e, a))
  {
    hide Inv, Apply, Enabled, Helper, Help, CallerRank;
    ControlInCallers(e);
    StepKeepsInv(e, a);
    CloserKeepsControl(e, a);
    if Moves(a, Helper(e)) {
      HelperHelps(e, a);
    } else {
      OthersLeaveTheWait(e, a);
    }
  }

  /** From n on, until the helper moves. */
  lemma {:induction false} GetsNearer(callers: set<Caller>, run: States, sch: Schedule, n: nat, k: nat) returns (m: nat)
    requires IsRun(callers, run, sch) && Inv(run(n)) && run(n).controlMu.Some? && n <= k
    requires Moves(sch(k), Helper(run(n))) || !CanMove(run(k), Helper(run(n)))
    ensures n < m && run(n).controlMu.value in run(n).callers && Nearer(run(n), run(m))
    decreases k - n
  {
    hide Inv, Apply, Enabled, Helper, Help, CallerRank, Moves, CanMove;
    assert Enabled(run(n), sch(n)) && run(n + 1) == Apply(run(n), sch(n));
    OneStepNearer(run(n), sch(n));
    if Nearer(run(n), run(n + 1)) {
      m := n + 1;
    } else {
      HelperCanMove(run(n));
      m := GetsNearer(callers, run, sch, n + 1, k);
    }
  }

  /** In every fair interleaving every operation in control comes to its end and gives `controlMu` back. */
  lemma {:induction false} ControlComesBack(callers: set<Caller>, run: States, sch: Schedule, n: nat) returns (m: nat)
    requires IsRun(callers, run, sch) && Fair(run, sch) && run(n).controlMu.Some?
    ensures n < m && GivenBack(run(n), run(m))
    decreases Left(run(n)).0, Left(run(n)).1
  {
    hide Inv, IsRun, Helper, Help, CallerRank, Moves, CanMove;
    RunIsSound(callers, run, sch, n);
    ControlInCallers(run(n));
    assert Served(run, sch, n, Helper(run(n)));
    var k: nat :| n <= k && (Moves(sch(k), Helper(run(n))) || !CanMove(run(k), Helper(run(n))));
    m := GetsNearer(callers, run, sch, n, k);
    if !GivenBack(run(n), run(m)) {
      m := ControlComesBack(callers, run, sch, m);
    }
  }

  lemma InControlHasControl(e: Engine, t: Caller)
    requires Inv(e) && t in e.callers && e.callers[t].InControl()
    ensures e.controlMu == Some(t)
  {
  }

  /** So no caller blocks forever inside an operation: wherever it is in it, waiting for `mu` or for a loop
      to close `done` included, it returns. */
  lemma WaitingEnds(callers: set<Caller>, run: States, sch: Schedule, n: nat, t: Caller) returns (m: nat)
    requires IsRun(callers, run, sch) && Fair(run, sch) && t in run(n).callers && run(n).callers[t].InControl()
    ensures n < m && t in run(m).callers && run(m).callers[t] == Pc.Idle
  {
    hide Inv, IsRun, Fair;
    RunIsSound(callers, run, sch, n);
    InControlHasControl(run(n), t);
    m := ControlComesBack(callers, run, sch, n);
  }

  // ---------------------------------------------------------------- everybody is served

  ghost predicate MovesAfter(sch: Schedule, n: nat, w: Owner) {
    exists k: nat :: n <= k && Moves(sch(k), w)
  }

  ghost predicate StuckFrom(run: States, m: nat, w: Owner) {
    forall k: nat | m <= k :: !CanMove(run(k), w)
  }

  /** The mutexes of the runtime are fair as well: a thread that gets the chance again and again takes it. */
  ghost predicate StronglyFair(run: States, sch: Schedule) {
    forall n: nat, w: Owner :: MovesAfter(sch, n, w) || exists m: nat :: n <= m && StuckFrom(run, m, w)
  }

  lemma StronglyFairIsFair(run: States, sch: Schedule)
    requires StronglyFair(run, sch)
    ensures Fair(run, sch)
  {
    hide Moves, CanMove;
    forall n: nat, w: Owner ensures Served(run, sch, n, w) {
      if MovesAfter(sch, n, w) {
        var k: nat :| n <= k && Moves(sch(k), w);
      } else {
        var m: nat :| n <= m && StuckFrom(run, m, w);
        assert !CanMove(run(m), w);
      }
    }
  }

  /** A caller in the queue for control stays there until it moves itself. */
  lemma QueuedStays(e: Engine, a: Action, t: Caller)
    requires Enabled(e, a) && t in e.callers && e.callers[t].WantControl? && !Moves(a, ByCaller(t))
    ensures t in Apply(e, a).callers && Apply(e, a).callers[t] == e.callers[t]
  {
  }

  lemma QueuedGoesOn(e: Engine, a: Action, t: Caller)
    requires Enabled(e, a) && t in e.callers && e.callers[t].WantControl? && Moves(a, ByCaller(t))
    ensures t in Apply(e, a).callers && Apply(e, a).callers[t].InControl()
  {
  }

  lemma {:induction false} QueuedUntil(callers: set<Caller>, run: States, sch: Schedule, n: nat, k: nat, t: Caller)
    returns (m: nat)
    requires IsRun(callers, run, sch) && t in run(n).callers && run(n).callers[t].WantControl? && n <= k
    ensures n <= m && t in run(m).callers
    ensures run(m).callers[t].InControl() || (m == k && run(m).callers[t].WantControl?)
    decreases k - n
  {
    hide Apply, Enabled, Moves;
    m := n;
    if n < k {
      assert Enabled(run(n), sch(n)) && run(n + 1) == Apply(run(n), sch(n));
      if Moves(sch(n), ByCaller(t)) {
        QueuedGoesOn(run(n), sch(n), t);
        m := n + 1;
      } else {
        QueuedStays(run(n), sch(n), t);
        m := QueuedUntil(callers, run, sch, n + 1, k, t);
      }
    }
  }

  lemma {:induction false} FreeControl(callers: set<Caller>, run: States, sch: Schedule, n: nat) returns (m: nat)
    requires IsRun(callers, run, sch) && Fair(run, sch)
    ensures n <= m && run(m).controlMu == None
  {
    hide Inv, IsRun, Fair;
    m := n;
    if run(n).controlMu.Some? {
      m := ControlComesBack(callers, run, sch, n);
    }
  }

  /** A thread that never moves again gets no chance from some moment on. */
  lemma NoMoveNoChance(run: States, sch: Schedule, n: nat, w: Owner) returns (m: nat)
    requires StronglyFair(run, sch) && !MovesAfter(sch, n, w)
    ensures n <= m && forall k: nat | m <= k :: !CanMove(run(k), w)
  {
    hide MovesAfter, CanMove;
    m :| n <= m && StuckFrom(run, m, w);
  }

  /** With fair mutexes every call gets control. */
  lemma QueuedIsServed(callers: set<Caller>, run: States, sch: Schedule, n: nat, t: Caller) returns (m: nat)
    requires IsRun(callers, run, sch) && StronglyFair(run, sch)
    requires t in run(n).callers && run(n).callers[t].WantControl?
    ensures n <= m && t in run(m).callers && run(m).callers[t].InControl()
  {
    hide Inv, Fair, Apply, Enabled, Moves, StronglyFair;
    if MovesAfter(sch, n, ByCaller(t)) {
      var k: nat :| n <= k && Moves(sch(k), ByCaller(t));
      m := QueuedUntil(callers, run, sch, n, k, t);
      if !run(m).callers[t].InControl() {
        assert Enabled(run(k), sch(k)) && run(k + 1) == Apply(run(k), sch(k));
        QueuedGoesOn(run(k), sch(k), t);
        m := k + 1;
      }
    } else {
      StronglyFairIsFair(run, sch);
      var never := NoMoveNoChance(run, sch, n, ByCaller(t));
      var free := FreeControl(callers, run, sch, never);
      m := QueuedUntil(callers, run, sch, n, free, t);
    }
  }

  /** With fair mutexes every call returns, whatever the others do. */
  lemma EveryCallReturns(callers: set<Caller>, run: States, sch: Schedule, n: nat, t: Caller) returns (m: nat)
    requires IsRun(callers, run, sch) && StronglyFair(run, sch) && t in callers
    ensures n <= m && t in run(m).callers && run(m).callers[t] == Pc.Idle
  {
    hide Inv, IsRun, Fair, StronglyFair;
    StronglyFairIsFair(run, sch);
    RunIsSound(callers, run, sch, n);
    m := n;
    if run(m).callers[t].WantControl? {
      m := QueuedIsServed(callers, run, sch, n, t);
    }
    if run(m).callers[t].InControl() {
      m := WaitingEnds(callers, run, sch, m, t);
    }
  }

  // ---------------------------------------------------------------- loops end

  /** `mu` changes hands only by its holder's next step. */
  lemma MuIsKept(e: Engine, a: Action)
    requires Inv(e) && Enabled(e, a) && e.mu.Some?
    ensures CanMove(e, e.mu.value)
    ensures Apply(e, a).mu == if Moves(a, e.mu.value) then None else e.mu
  {
    hide ControlOk, HandleOk, SpawnOk, CallerOk;
  }

  lemma {:induction false} FreeMuBy(callers: set<Caller>, run: States, sch: Schedule, n: nat, k: nat) returns (m: nat)
    requires IsRun(callers, run, sch) && n <= k && run(n).mu.Some?
    requires Moves(sch(k), run(n).mu.value) || !CanMove(run(k), run(n).mu.value)
    ensures n <= m && run(m).mu == None
    decreases k - n
  {
    hide Inv, Apply, Enabled, Moves, CanMove;
    RunIsSound(callers, run, sch, n);
    assert Enabled(run(n), sch(n)) && run(n + 1) == Apply(run(n), sch(n));
    MuIsKept(run(n), sch(n));
    if run(n + 1).mu == None {
      m := n + 1;
    } else {
      m := FreeMuBy(callers, run, sch, n + 1, k);
    }
  }

  lemma FreeMu(callers: set<Caller>, run: States, sch: Schedule, n: nat) returns (m: nat)
    requires IsRun(callers, run, sch) && Fair(run, sch)
    ensures n <= m && run(m).mu == None
  {
    hide Inv, IsRun, Moves, CanMove;
    m := n;
    if run(n).mu.Some? {
      assert Served(run, sch, n, run(n).mu.value);
      var k: nat :| n <= k && (Moves(sch(k), run(n).mu.value) || !CanMove(run(k), run(n).mu.value));
      m := FreeMuBy(callers, run, sch, n, k);
    }
  }

  /** A cancelled loop that runs moves only by itself, and then towards its end. */
  lemma LoopAdvances(e: Engine, a: Action, g: LoopId)
    requires Inv(e) && Enabled(e, a) && g < |e.loops| && e.loops[g].cancelled && e.loops[g].pc != Unspawned
    ensures var f := Apply(e, a);
      && g < |f.loops| && f.loops[g].cancelled && f.loops[g].pc != Unspawned
      && (if Moves(a, ByLoop(g)) then LoopRank(f.loops[g]) < LoopRank(e.loops[g])
          else f.loops[g] == e.loops[g])
  {
    hide ControlOk, MuOk, HandleOk, SpawnOk, OnlyLive, NoneLive;
  }

  /** Only a held `mu` stops a loop. */
  lemma LoopCanMove(e: Engine, g: LoopId)
    requires Inv(e) && g < |e.loops| && e.loops[g].cancelled
    requires e.loops[g].pc != Unspawned && e.loops[g].pc != Gone && e.mu == None
    ensures CanMove(e, ByLoop(g))
  {
  }

  ghost predicate Doomed(e: Engine, g: LoopId) {
    g < |e.loops| && e.loops[g].cancelled && e.loops[g].pc != Unspawned
  }

  lemma {:induction false} LoopUntil(callers: set<Caller>, run: States, sch: Schedule, n: nat, k: nat, g: LoopId)
    returns (m: nat)
    requires IsRun(callers, run, sch) && Doomed(run(n), g) && n <= k
    ensures n <= m && Doomed(run(m), g)
    ensures LoopRank(run(m).loops[g]) < LoopRank(run(n).loops[g]) || (m == k && run(m).loops[g] == run(n).loops[g])
    decreases k - n
  {
    hide Inv, Apply, Enabled, Moves, LoopRank;
    m := n;
    if n < k {
      RunIsSound(callers, run, sch, n);
      assert Enabled(run(n), sch(n)) && run(n + 1) == Apply(run(n), sch(n));
      LoopAdvances(run(n), sch(n), g);
      if Moves(sch(n), ByLoop(g)) {
        m := n + 1;
      } else {
        m := LoopUntil(callers, run, sch, n + 1, k, g);
      }
    }
  }

  lemma LoopGetsOn(callers: set<Caller>, run: States, sch: Schedule, n: nat, g: LoopId) returns (m: nat)
    requires IsRun(callers, run, sch) && StronglyFair(run, sch) && Doomed(run(n), g) && run(n).loops[g].pc != Gone
    ensures n <= m && Doomed(run(m), g) && LoopRank(run(m).loops[g]) < LoopRank(run(n).loops[g])
  {
    hide Inv, Fair, Apply, Enabled, Moves, StronglyFair, LoopRank, CanMove;
    if MovesAfter(sch, n, ByLoop(g)) {
      var k: nat :| n <= k && Moves(sch(k), ByLoop(g));
      m := LoopUntil(callers, run, sch, n, k, g);
      if run(m).loops[g] == run(n).loops[g] {
        RunIsSound(callers, run, sch, k);
        assert Enabled(run(k), sch(k)) && run(k + 1) == Apply(run(k), sch(k));
        LoopAdvances(run(k), sch(k), g);
        m := k + 1;
      }
    } else {
      StronglyFairIsFair(run, sch);
      var never := NoMoveNoChance(run, sch, n, ByLoop(g));
      var free := FreeMu(callers, run, sch, never);
      m := LoopUntil(callers, run, sch, n, free, g);
      if run(m).loops[g] == run(n).loops[g] {
        RunIsSound(callers, run, sch, free);
        LoopCanMove(run(free), g);
      }
    }
  }

  lemma {:induction false} DoomedLoopEnds(callers: set<Caller>, run: States, sch: Schedule, n: nat, g: LoopId)
    returns (m: nat)
    requires IsRun(callers, run, sch) && StronglyFair(run, sch) && Doomed(run(n), g)
    ensures n <= m && g < |run(m).loops| && run(m).loops[g].pc == Gone
    decreases LoopRank(run(n).loops[g])
  {
    hide IsRun, StronglyFair, LoopRank;
    m := n;
    if run(n).loops[g].pc != Gone {
      m := LoopGetsOn(callers, run, sch, n, g);
      m := DoomedLoopEnds(callers, run, sch, m, g);
    }
  }

  lemma CancelledStays(e: Engine, a: Action, g: LoopId)
    requires Enabled(e, a) && g < |e.loops| && e.loops[g].cancelled
    ensures g < |Apply(e, a).loops| && Apply(e, a).loops[g].cancelled
  {
  }

  lemma {:induction false} CancelledUntil(callers: set<Caller>, run: States, sch: Schedule, n: nat, k: nat, g: LoopId)
    requires IsRun(callers, run, sch) && g < |run(n).loops| && run(n).loops[g].cancelled && n <= k
    ensures g < |run(k).loops| && run(k).loops[g].cancelled
    decreases k - n
  {
    hide Apply, Enabled;
    if n < k {
      assert Enabled(run(n), sch(n)) && run(n + 1) == Apply(run(n), sch(n));
      CancelledStays(run(n), sch(n), g);
      CancelledUntil(callers, run, sch, n + 1, k, g);
    }
  }

  lemma FreeMeansSpawned(e: Engine)
    requires Inv(e) && e.controlMu == None
    ensures forall g | 0 <= g < |e.loops| :: e.loops[g].pc != Unspawned
  {
    hide ControlOk, MuOk, HandleOk, CallerOk;
  }

  /** With fair mutexes every loop whose context is cancelled, by an operation or by its parent, clears
      its handle and closes its `done` channel. */
  lemma CancelledLoopEnds(callers: set<Caller>, run: States, sch: Schedule, n: nat, g: LoopId) returns (m: nat)
    requires IsRun(callers, run, sch) && StronglyFair(run, sch)
    requires g < |run(n).loops| && run(n).loops[g].cancelled
    ensures n <= m && g < |run(m).loops| && run(m).loops[g].pc == Gone
  {
    hide Inv, IsRun, Fair, StronglyFair;
    StronglyFairIsFair(run, sch);
    var free := FreeControl(callers, run, sch, n);
    CancelledUntil(callers, run, sch, n, free, g);
    RunIsSound(callers, run, sch, free);
    FreeMeansSpawned(run(free));
    m := DoomedLoopEnds(callers, run, sch, free, g);
  }

  // ---------------------------------------------------------------- there are such runs

  /** One caller, at this place of its operation. */
  function Solo(pc: Pc, mu: Option<Owner>, handle: Option<LoopId>, loops: seq<Loop>): Engine {
    Engine(if pc.InControl() then Some(0) else None, mu, handle, handle, loops, map[0 := pc])
  }

  function OneLoop(pc: LoopPc, cancelled: bool): seq<Loop> {
    [Loop(pc, cancelled, 0)]
  }

  /** The caller starts a loop. */
  function StartingState(n: nat): Engine {
    var held := if n == 3 then Some(ByCaller(0)) else None;
    match n
    case 0 => Solo(Pc.Idle, None, None, [])
    case 1 => Solo(WantControl(Start), None, None, [])
    case 2 => Solo(StartWantMu, None, None, [])
    case 3 => Solo(StartHoldMu, held, None, [])
    case 4 => Solo(Launching(0), None, Some(0), OneLoop(Unspawned, false))
    case 5 => Solo(Spawning(0), None, Some(0), OneLoop(Unspawned, false))
    case _ => Solo(Leaving, None, Some(0), OneLoop(Selecting, false))
  }

  /** The loop steps the controller once, and the caller decides to close the engine. */
  function SteppingState(n: nat): Engine {
    match n
    case 7 => Solo(Pc.Idle, None, Some(0), OneLoop(Selecting, false))
    case 8 => Solo(Pc.Idle, None, Some(0), OneLoop(Ticking, false))
    case 9 => Solo(Pc.Idle, None, Some(0), OneLoop(Checking, false))
    case 10 => Solo(Pc.Idle, None, Some(0), OneLoop(Selecting, false))
    case 11 => Solo(WantControl(Close), None, Some(0), OneLoop(Selecting, false))
    case 12 => Solo(WantMu(Close), None, Some(0), OneLoop(Selecting, false))
    case 13 => Solo(HoldMu(Close), Some(ByCaller(0)), Some(0), OneLoop(Selecting, false))
    case _ => Solo(Cancelling(Close, 0, Some(0)), None, Some(0), OneLoop(Selecting, false))
  }

  /** It waits until the loop has cleared its handle and closed its channel. */
  function StoppingState(n: nat): Engine {
    var waiting := Awaiting(Close, Some(0));
    match n
    case 15 => Solo(waiting, None, Some(0), OneLoop(Selecting, true))
    case 16 => Solo(waiting, None, Some(0), OneLoop(WantingMu, true))
    case 17 => Solo(waiting, Some(ByLoop(0)), Some(0), OneLoop(Clearing, true))
    case 18 => Solo(waiting, None, None, OneLoop(Closing, true))
    case 19 => Solo(waiting, None, None, OneLoop(Gone, true))
    case 20 => Solo(Acting(Close, 0), None, None, OneLoop(Gone, true))
    case _ => Solo(Leaving, None, None, OneLoop(Gone, true))
  }

  /** From then on it closes the engine over and over, in six steps each time. */
  function ClosingState(n: nat): Engine {
    var mu := if n % 6 == 3 then Some(ByCaller(0)) else None;
    var pc := match n % 6
              case 0 => Pc.Idle
              case 1 => WantControl(Close)
              case 2 => WantMu(Close)
              case 3 => HoldMu(Close)
              case 4 => Acting(Close, 0)
              case _ => Leaving;
    Solo(pc, mu, None, OneLoop(Gone, true))
  }

  const STOPPED: nat := 22

  function SoloState(n: nat): Engine {
    if n < 7 then StartingState(n)
    else if n < 15 then SteppingState(n)
    else if n < STOPPED then StoppingState(n)
    else ClosingState(n - STOPPED)
  }

  function SoloAction(n: nat): Action {
    if n == 0 then Call(0, Start)
    else if n == 10 || (STOPPED <= n && (n - STOPPED) % 6 == 0) then Call(0, Close)
    else if n == 7 then LoopProceed(0, true)
    else if n == 8 || n == 9 || 15 <= n < 19 then LoopProceed(0, false)
    else Proceed(0, false, 0)
  }

  lemma CallingStep(n: nat)
    requires n < 3
    ensures Enabled(SoloState(n), SoloAction(n)) && SoloState(n + 1) == Apply(SoloState(n), SoloAction(n))
  {
  }

  lemma StartingStep(n: nat)
    requires 3 <= n < 7
    ensures Enabled(SoloState(n), SoloAction(n)) && SoloState(n + 1) == Apply(SoloState(n), SoloAction(n))
  {
  }

  lemma SteppingStep(n: nat)
    requires 7 <= n < 11
    ensures Enabled(SoloState(n), SoloAction(n)) && SoloState(n + 1) == Apply(SoloState(n), SoloAction(n))
  {
  }

  lemma CancellingStep(n: nat)
    requires 11 <= n < 15
    ensures Enabled(SoloState(n), SoloAction(n)) && SoloState(n + 1) == Apply(SoloState(n), SoloAction(n))
  {
  }

  lemma StoppingStep(n: nat)
    requires 15 <= n < 19
    ensures Enabled(SoloState(n), SoloAction(n)) && SoloState(n + 1) == Apply(SoloState(n), SoloAction(n))
  {
  }

  lemma ReturningStep(n: nat)
    requires 19 <= n < STOPPED
    ensures Enabled(SoloState(n), SoloAction(n)) && SoloState(n + 1) == Apply(SoloState(n), SoloAction(n))
  {
  }

  lemma ClosingStep(n: nat)
    requires STOPPED <= n
    ensures Enabled(SoloState(n), SoloAction(n)) && SoloState(n + 1) == Apply(SoloState(n), SoloAction(n))
  {
    var k := n - STOPPED;
    assert (k + 1) % 6 == if k % 6 == 5 then 0 else k % 6 + 1;
  }

  /** What is claimed of every fair interleaving is claimed of something: here a caller starts a loop, the loop
      steps the controller, the caller closes the engine and waits for the cancelled loop to end. */
  lemma FairRunsExist() returns (callers: set<Caller>, run: States, sch: Schedule)
    ensures IsRun(callers, run, sch) && StronglyFair(run, sch)
    ensures exists n: nat :: |run(n).loops| == 1 && run(n).loops[0].pc.Ticking?
    ensures exists n: nat, t ::
      && t in run(n).callers && run(n).callers[t] == Awaiting(Close, Some(0))
      && |run(n).loops| == 1 && run(n).loops[0].cancelled && run(n).loops[0].pc.CanStep()
  {
    hide Apply, Enabled;
    callers, run, sch := {0}, SoloState, SoloAction;
    assert NewEngine(callers).callers == map[0 := Pc.Idle];
    forall n: nat ensures Enabled(run(n), sch(n)) && run(n + 1) == Apply(run(n), sch(n)) {
      if n < 3 {
        CallingStep(n);
      } else if n < 7 {
        StartingStep(n);
      } else if n < 11 {
        SteppingStep(n);
      } else if n < 15 {
        CancellingStep(n);
      } else if n < 19 {
        StoppingStep(n);
      } else if n < STOPPED {
        ReturningStep(n);
      } else {
        ClosingStep(n);
      }
    }
    forall n: nat, w: Owner
      ensures MovesAfter(sch, n, w) || exists m: nat :: n <= m && StuckFrom(run, m, w)
    {
      if w == ByCaller(0) {
        assert Moves(sch(STOPPED + 6 * n + 1), w);
      } else {
        assert StuckFrom(run, STOPPED + n, w);
      }
    }
    assert run(8).loops[0].pc.Ticking?;
    assert 0 in run(15).callers && run(15).callers[0] == Awaiting(Close, Some(0)) && run(15).loops[0].cancelled;
  }
}
