/** The exact condition for being overtaken under aging, over all runs: whoever can be overtaken in some valid
    state is overtaken in a run that continues the present one. */
module OvertakingRuns {
  import opened Domain
  import opened Ordering
  import opened Schedulers
  import opened Cluster
  import opened Scenarios
  import opened Invariants
  import opened Failures
  import opened Commands
  import opened Scheduling
  import opened Tick
  import opened Atomicity
  import opened Progress
  import opened Loading
  import opened Runs
  import opened Aging
  import opened Overtaking
  import opened Starvation
  import opened Patience
  import Conservation

  // ---------------------------------------------------------------- runs compose

  lemma {:induction false} RunsCompose(s: State, a: seq<Command>, b: seq<Command>)
    ensures Run(s, a + b) == Run(Run(s, a), b)
    decreases |b|
  {
    hide Execute;
    if b == [] {
      assert a + b == a;
    } else {
      var all := a + b;
      assert all[..|all| - 1] == a + b[..|b| - 1] && all[|all| - 1] == b[|b| - 1];
      RunsCompose(s, a, b[..|b| - 1]);
    }
  }

  lemma RunOfOne(s: State, c: Command)
    ensures Run(s, [c]) == Execute(s, c).state
  {
    hide Execute;
    assert [c][..0] == [];
  }

  /** What a controller is made with stays. */
  ghost predicate SameLimits(s: State, t: State) {
    s.maxNodes == t.maxNodes && s.maxProcesses == t.maxProcesses && s.heartbeatTimeout == t.heartbeatTimeout
  }

  lemma TickKeepsLimits(s: State)
    requires Valid(s)
    ensures SameLimits(s, Step(s).state)
  {
    hide Inv, Valid, Step, TrailOf, BeginTick, AllFuller, PassEffect;
    StepExact(s);
    if Step(s).error == Nil {
      BeginFields(s);
      TrailEffects(s);
      PassSettings(s);
    }
  }

  lemma {:induction false} LoopKeepsLimits(s: State, count: nat)
    requires Valid(s)
    ensures SameLimits(s, StepLoop(s, count).state)
    decreases count
  {
    hide Valid, Step, TrailOf, StepLoop;
    if count == 0 {
      NoTicks(s);
    } else {
      TickKeepsLimits(s);
      StepExact(s);
      LoopOnce(s, count);
      LoopKeepsLimits(Step(s).state, count - 1);
    }
  }

  lemma NoTicks(s: State)
    ensures StepLoop(s, 0) == Reply(s, Nil)
  {
  }

  lemma LoadKeepsLimits(s: State, sc: Scenario)
    ensures SameLimits(s, LoadScenario(s, sc).state)
  {
    hide Prepare, PreparedOk;
    PrepareOk(sc, s.maxNodes, s.maxProcesses);
    var (p, e) := Prepare(sc, s.maxNodes, s.maxProcesses);
    if p.Some? {
      InstallReplay(s, p.value);
    }
  }

  lemma CommandKeepsLimits(s: State, c: Command)
    requires Valid(s)
    ensures SameLimits(s, Execute(s, c).state)
  {
    hide Valid, Step, StepLoop, LoadScenario, Calm;
    if IsPlain(c) {
      PlainIsCalm(s, c);
    } else {
      match c
      case CmdStep => TickKeepsLimits(s);
      case CmdSteps(n) => if n > 0 { LoopKeepsLimits(s, n); }
      case CmdReset =>
      case CmdLoadScenario(sc) => LoadKeepsLimits(s, sc);
    }
  }

  lemma {:induction false} RunKeepsLimits(s: State, commands: seq<Command>)
    requires Settled(s)
    ensures SameLimits(s, Run(s, commands))
    decreases |commands|
  {
    hide Settled, Execute;
    if commands != [] {
      var front := commands[..|commands| - 1];
      RunKeepsLimits(s, front);
      RunIsSettled(s, front);
      SettledIsValid(Run(s, front));
      CommandKeepsLimits(Run(s, front), commands[|commands| - 1]);
    }
  }

  lemma SettledIsValid(s: State)
    requires Settled(s)
    ensures Valid(s) && Calendar(s) && 0 <= s.heartbeatTimeout
  {
  }

  lemma ReachableHasRoom(s: State)
    requires Reachable(s)
    ensures Settled(s) && 0 < s.maxNodes
  {
    hide Settled, Run;
    var config, commands :| NewController(config).0.Some? && s == Run(NewController(config).0.value, commands);
    var s0 := NewController(config).0.value;
    NewIsSettled(config);
    RunIsSettled(s0, commands);
    RunKeepsLimits(s0, commands);
  }

  // ---------------------------------------------------------------- clearing the stage

  /** Both wait, under aging, and nothing is scheduled. */
  ghost predicate Scene(s: State, aging: pos, p: Process, q: Process) {
    && Settled(s) && 0 < s.maxNodes && s.pending == map[] && s.failures == map[]
    && s.policy == Policy.PriorityAware(aging)
    && p.id != q.id && Waits(s.processes, p) && Waits(s.processes, q)
  }

  ghost function Extras(s: State, p: Process, q: Process): set<Id> {
    set id | id in s.processes && !s.processes[id].state.IsTerminal() && id != p.id && id != q.id
  }

  lemma KillClears(s: State, aging: pos, p: Process, q: Process, id: Id)
    requires Scene(s, aging, p, q) && id in Extras(s, p, q)
    ensures var t := Execute(s, CmdKill(id)).state;
      Scene(t, aging, p, q) && t.tick == s.tick && Extras(t, p, q) == Extras(s, p, q) - {id}
  {
    assert id in s.processes && !s.processes[id].state.IsTerminal();
    hide Settled, Valid, Execute, Extras, ProcessState.IsTerminal;
    SettledIsValid(s);
    SettledCommand(s, CmdKill(id));
    KillIs(s, id);
    CommandKeepsLimits(s, CmdKill(id));
    ExtrasWithout(s, Execute(s, CmdKill(id)).state, p, q, id);
  }

  lemma KillIs(s: State, id: Id)
    requires Valid(s) && id in s.processes && !s.processes[id].state.IsTerminal()
    ensures var t := Execute(s, CmdKill(id)).state;
      && t.tick == s.tick && t.pending == s.pending && t.failures == s.failures && t.policy == s.policy
      && id in t.processes && t.processes == s.processes[id := t.processes[id]] && t.processes[id].state.IsTerminal()
  {
    hide Valid, KillProcess;
    KillExact(s, id);
  }

  lemma ExtrasWithout(s: State, t: State, p: Process, q: Process, id: Id)
    requires id in t.processes && t.processes == s.processes[id := t.processes[id]] && id in Extras(s, p, q)
    requires t.processes[id].state.IsTerminal()
    ensures Extras(t, p, q) == Extras(s, p, q) - {id} && id != p.id && id != q.id
  {
  }

  lemma {:induction false} KillOthers(s: State, aging: pos, p: Process, q: Process) returns (commands: seq<Command>)
    requires Scene(s, aging, p, q)
    ensures var t := Run(s, commands);
      Scene(t, aging, p, q) && t.tick == s.tick && Extras(t, p, q) == {}
    decreases Extras(s, p, q)
  {
    hide Scene, Execute, Run, Extras;
    if Extras(s, p, q) == {} {
      commands := [];
      NoCommands(s);
    } else {
      var id :| id in Extras(s, p, q);
      KillClears(s, aging, p, q, id);
      var rest := KillOthers(Execute(s, CmdKill(id)).state, aging, p, q);
      commands := [CmdKill(id)] + rest;
      RunsCompose(s, [CmdKill(id)], rest);
      RunOfOne(s, CmdKill(id));
    }
  }

  lemma RemovalClears(s: State, aging: pos, p: Process, q: Process, n: Id)
    requires Scene(s, aging, p, q) && Extras(s, p, q) == {} && n in s.nodes
    ensures var t := Execute(s, CmdRemoveNode(n)).state;
      && Scene(t, aging, p, q) && t.tick == s.tick && Extras(t, p, q) == {} && t.nodes == s.nodes - {n}
  {
    hide Settled, Inv;
    SettledIsValid(s);
    SettledCommand(s, CmdRemoveNode(n));
    ListIsRunningOn(s, Rest, n);
    NobodyRuns(s, aging, p, q);
    assert RunningOn(s.processes, {n}) == {};
    if s.nodes[n].running != [] {
      SomeElement(s.nodes[n].running);
    }
    RemoveNodeExact(s, n);
  }

  lemma SomeElement(q: seq<Id>)
    requires q != []
    ensures Elements(q) != {}
  {
    assert q[0] in Elements(q);
  }

  lemma NobodyRuns(s: State, aging: pos, p: Process, q: Process)
    requires Scene(s, aging, p, q) && Extras(s, p, q) == {}
    ensures forall id | id in s.processes :: s.processes[id].state != Running
    ensures forall id | id in s.processes && s.processes[id].state == Ready :: id == p.id || id == q.id
  {
    hide Settled;
    forall id | id in s.processes && id != p.id && id != q.id ensures s.processes[id].state.IsTerminal() {
      assert id !in Extras(s, p, q);
    }
  }

  lemma {:induction false} RemoveNodes(s: State, aging: pos, p: Process, q: Process) returns (commands: seq<Command>)
    requires Scene(s, aging, p, q) && Extras(s, p, q) == {}
    ensures var t := Run(s, commands);
      Scene(t, aging, p, q) && t.tick == s.tick && Extras(t, p, q) == {} && t.nodes == map[]
    decreases s.nodes.Keys
  {
    hide Scene, Execute, Run, Extras;
    if s.nodes.Keys == {} {
      commands := [];
      NoCommands(s);
    } else {
      var n :| n in s.nodes;
      RemovalClears(s, aging, p, q, n);
      var t := Execute(s, CmdRemoveNode(n)).state;
      assert t.nodes.Keys == s.nodes.Keys - {n};
      var rest := RemoveNodes(t, aging, p, q);
      commands := [CmdRemoveNode(n)] + rest;
      RunsCompose(s, [CmdRemoveNode(n)], rest);
      RunOfOne(s, CmdRemoveNode(n));
    }
  }

  // ---------------------------------------------------------------- letting time pass

  lemma StartIsHarmless(s: State, aging: pos, p: Process, q: Process)
    requires Scene(s, aging, p, q)
    ensures var t := Execute(s, CmdStart).state;
      && Scene(t, aging, p, q) && t.tick == s.tick && t.status == SimRunning
      && t.nodes == s.nodes && t.processes == s.processes && Extras(t, p, q) == Extras(s, p, q)
  {
    hide Settled;
    SettledCommand(s, CmdStart);
  }

  lemma TickKeepsPriority(s: State)
    requires Valid(s) && s.policy.PriorityAware? && Step(s).error == Nil
    ensures Step(s).state.policy == s.policy && Step(s).state.nodes.Keys == s.nodes.Keys
  {
    hide Inv, Valid, Step, TrailOf, BeginTick, AllFuller, PassEffect, ScheduleReady;
    StepExact(s);
    BeginFields(s);
    TrailEffects(s);
    TrailActs(s);
    PassPolicy(TrailOf(s).alive);
    Conservation.TrailCarries(s);
  }

  lemma EmptyTick(s: State, aging: pos, p: Process, q: Process)
    requires Scene(s, aging, p, q) && Extras(s, p, q) == {} && s.nodes == map[] && s.status == SimRunning
    ensures var t := Execute(s, CmdStep).state;
      && Scene(t, aging, p, q) && Extras(t, p, q) == {} && t.nodes == map[] && t.tick == s.tick + 1
  {
    hide Settled, Valid, Step, Calendar, BeginTick;
    SettledIsValid(s);
    StepCommand(s);
    SettledCommand(s, CmdStep);
    NobodyRuns(s, aging, p, q);
    StepExact(s);
    BeginFields(s);
    NothingScheduled(BeginTick(s));
    StuckTick(s);
    CalendarTick(s);
    TickKeepsPriority(s);
    CommandKeepsLimits(s, CmdStep);
    assert Step(s).state.nodes.Keys == {};
  }

  /** Without nodes time passes for as long as one likes: a stopped simulation can be started again. */
  lemma {:induction false} Idle(s: State, aging: pos, p: Process, q: Process, k: nat) returns (commands: seq<Command>)
    requires Scene(s, aging, p, q) && Extras(s, p, q) == {} && s.nodes == map[]
    ensures var t := Run(s, commands);
      && Scene(t, aging, p, q) && Extras(t, p, q) == {} && t.nodes == map[] && t.tick == s.tick + k
  {
    hide Scene, Execute, Run, Extras;
    commands := [];
    NoCommands(s);
    if k > 0 {
      var before := Idle(s, aging, p, q, k - 1);
      var t := Run(s, before);
      StartIsHarmless(t, aging, p, q);
      EmptyTick(Execute(t, CmdStart).state, aging, p, q);
      commands := before + [CmdStart, CmdStep];
      RunTwo(s, before, CmdStart, CmdStep);
    }
  }

  // ---------------------------------------------------------------- the last tick

  /** The next tick succeeds, and its pass places q and leaves p waiting. */
  ghost predicate NextTickOvertakes(s: State, aging: pos, p: Process, q: Process) {
    var alive := TrailOf(s).alive;
    && Step(s).error == Nil && alive.policy == Policy.PriorityAware(aging)
    && Waits(alive.processes, p) && Waits(alive.processes, q) && Overtaken(alive, p, q)
  }

  function SnugDefinition(q: Process): NodeDefinition {
    NodeDefinition(ONLY, "node", q.cpuRequest, q.memoryRequest)
  }

  lemma NodeEnters(s: State, aging: pos, p: Process, q: Process)
    requires Scene(s, aging, p, q) && Extras(s, p, q) == {} && s.nodes == map[]
    ensures var t := Execute(s, CmdRegisterNode(SnugDefinition(q))).state;
      && Scene(t, aging, p, q) && Extras(t, p, q) == {} && t.tick == s.tick && t.nodes.Keys == {ONLY}
      && Snug(t.nodes[ONLY], q) && t.nodes[ONLY].lastHeartbeat == s.tick
  {
    hide Settled, Inv;
    SettledIsValid(s);
    HistoryOf(s, {}, Rest, q.id);
    SettledCommand(s, CmdRegisterNode(SnugDefinition(q)));
    RegisterNodeExact(s, SnugDefinition(q));
  }

  lemma FreshNodeStays(s: State, node: Node)
    requires Valid(s) && s.pending == map[] && s.failures == map[] && s.status == SimRunning && 0 <= s.heartbeatTimeout
    requires s.nodes == map[ONLY := node] && node.lastHeartbeat == s.tick
    ensures Step(s).error == Nil
    ensures var t := TrailOf(s).alive;
      && Inv(t, {}, MID) && t.nodes == s.nodes && t.processes == s.processes && t.policy == s.policy
      && t.tick == s.tick + 1
  {
    hide Inv, Valid, Step, TrailOf, BeginTick, PassEffect, AllFuller, AllFailed, AllExecuted, Downed, RunningOn;
    StepExact(s);
    BeginFields(s);
    NothingScheduled(BeginTick(s));
    TrailIsValid(s);
    TrailEffects(s);
    TrailActs(s);
    var t := TrailOf(s);
    assert t.acted.nodes[ONLY].lastHeartbeat == t.acted.tick - 1;
    assert StaleNow(t.acted) == {};
    NothingDowned(s.nodes, s.processes, t.acted.tick);
  }

  lemma SnugTick(s: State, aging: pos, p: Process, q: Process)
    requires Scene(s, aging, p, q) && Extras(s, p, q) == {} && s.status == SimRunning
    requires s.nodes.Keys == {ONLY} && Snug(s.nodes[ONLY], q) && s.nodes[ONLY].lastHeartbeat == s.tick
    requires !Precedes(Policy.PriorityAware(aging), s.tick + 1, p, q) || !NoLarger(p, q)
    ensures NextTickOvertakes(s, aging, p, q)
  {
    hide Settled, Inv, Valid, Step, TrailOf, Snug, Precedes, NoLarger, Overtaken, Extras;
    SettledIsValid(s);
    assert s.nodes == map[ONLY := s.nodes[ONLY]];
    FreshNodeStays(s, s.nodes[ONLY]);
    NobodyRuns(s, aging, p, q);
    SnugOvertakes(TrailOf(s).alive, p, q, s.nodes[ONLY]);
  }

  // ---------------------------------------------------------------- the exact condition

  /** From any scene, if p does not come first at some later tick, or asks for more, q can be made to overtake it. */
  lemma OvertakenAt(s: State, aging: pos, p: Process, q: Process, tick: int) returns (commands: seq<Command>)
    requires Scene(s, aging, p, q) && s.tick < tick
    requires !Precedes(Policy.PriorityAware(aging), tick, p, q) || !NoLarger(p, q)
    ensures NextTickOvertakes(Run(s, commands), aging, p, q)
  {
    hide Scene, Execute, Run, Extras, Precedes, NoLarger, NextTickOvertakes, Snug;
    var kills := KillOthers(s, aging, p, q);
    var removals := RemoveNodes(Run(s, kills), aging, p, q);
    RunsCompose(s, kills, removals);
    var waits := Idle(Run(s, kills + removals), aging, p, q, tick - 1 - s.tick);
    RunsCompose(s, kills + removals, waits);
    var before := kills + removals + waits;
    var register := CmdRegisterNode(SnugDefinition(q));
    NodeEnters(Run(s, before), aging, p, q);
    StartIsHarmless(Execute(Run(s, before), register).state, aging, p, q);
    commands := before + [register, CmdStart];
    RunTwo(s, before, register, CmdStart);
    SnugTick(Run(s, commands), aging, p, q);
  }

  lemma AheadIsSafe(s: State, aging: pos, p: Process, q: Process)
    requires Settled(s) && StaysAhead(aging, p, q) && NoLarger(p, q)
    ensures !NextTickOvertakes(s, aging, p, q)
  {
    hide Settled, Inv, Valid, Step, TrailOf, StaysAhead, NoLarger, ScheduleReady;
    SettledIsValid(s);
    TrailIsValid(s);
    var alive := TrailOf(s).alive;
    if alive.policy == Policy.PriorityAware(aging) && Waits(alive.processes, p) && Waits(alive.processes, q) {
      AgedIsNotOvertaken(alive, p.id, q.id);
    }
  }

  /** Let p and q wait in a reachable state under aging, with nothing scheduled. No run that goes on from it,
      whatever the commands, ever comes to a tick in which q overtakes p if and only if p has waited long
      enough to make up for q's priority and asks for no more. */
  lemma NeverOvertakenInAnyRun(s: State, aging: pos, p: Process, q: Process)
    requires Reachable(s) && s.pending == map[] && s.failures == map[] && s.policy == Policy.PriorityAware(aging)
    requires p.id != q.id && Waits(s.processes, p) && Waits(s.processes, q)
    ensures (forall commands: seq<Command> :: !NextTickOvertakes(Run(s, commands), aging, p, q))
       <==> StaysAhead(aging, p, q) && NoLarger(p, q)
  {
    hide Reachable, Settled, Run, Waits, StaysAhead, NoLarger, Precedes, NextTickOvertakes;
    ReachableHasRoom(s);
    if StaysAhead(aging, p, q) && NoLarger(p, q) {
      forall commands: seq<Command> ensures !NextTickOvertakes(Run(s, commands), aging, p, q) {
        RunIsSettled(s, commands);
        AheadIsSafe(Run(s, commands), aging, p, q);
      }
    } else {
      var tick := s.tick + 1;
      if !StaysAhead(aging, p, q) {
        tick := FallsBehindLater(aging, p, q, s.tick + 1);
      }
      var commands := OvertakenAt(s, aging, p, q, tick);
    }
  }
}
