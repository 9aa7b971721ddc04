/** `Engine.RunScenario` on the controller object. */
module ScenarioEngine {
  import opened Domain
  import opened Scenarios
  import opened Controllers
  import opened ScenarioRuns
  import opened Runs
  import Loading
  import C = Cluster

  lemma LoopForm(s: C.State, count: nat)
    ensures count == 0 ==> RunLoop(s, count) == C.Reply(C.Finish(s, OUT_OF_TICKS), Nil)
    ensures var r := C.Step(s);
      count > 0 ==>
        RunLoop(s, count) == if r.error != Nil || r.state.status == Completed then r else RunLoop(r.state, count - 1)
  {
    hide C.Step;
  }

  lemma RunForm(s: C.State, sc: Scenario)
    ensures var (p, e) := Prepare(sc, s.maxNodes, s.maxProcesses);
      && (p.None? <==> e != Nil)
      && (e != Nil ==> RunScenario(s, sc) == C.Reply(s, e))
      && (e == Nil ==> LoadScenario(s, sc).error == Nil && sc.maxTicks > 0
                       && RunScenario(s, sc) == RunLoop(LoadScenario(s, sc).state, sc.maxTicks))
  {
    hide Prepare, LoadScenario, RunLoop;
    Loading.PrepareErrors(sc, s.maxNodes, s.maxProcesses);
    Loading.LoadExact(s, sc);
    if Prepare(sc, s.maxNodes, s.maxProcesses).0.Some? {
      LoadedLimit(s, sc);
    }
  }

  /** Ticks until the simulation completes, a tick fails, or the count is used up. */
  method TickToEnd(c: Controller, count: nat) returns (error: Error)
    requires c.Valid()
    modifies c.Repr()
    ensures c.Valid() && fresh(c.Repr() - old(c.Repr()))
    ensures C.Reply(c.View(), error) == RunLoop(old(c.View()), count)
  {
    hide Controller.View, Controller.Owned, Settled, C.Step, RunLoop, C.Finish;
    error := Nil;
    for i := 0 to count
      invariant c.Valid() && fresh(c.Repr() - old(c.Repr()))
      invariant error == Nil && RunLoop(c.View(), count - i) == RunLoop(old(c.View()), count)
    {
      LoopForm(c.View(), count - i);
      error := c.Step();
      if error != Nil {
        return;
      }
      c.Settings();
      if c.state.status == Completed {
        return;
      }
    }
    LoopForm(c.View(), 0);
    c.Finish("maximum tick count reached");
  }

  /** Loads the scenario and runs it. */
  method RunToEnd(c: Controller, sc: Scenario) returns (error: Error)
    requires c.Valid()
    modifies c.Repr()
    ensures c.Valid() && fresh(c.Repr() - old(c.Repr()))
    ensures C.Reply(c.View(), error) == RunScenario(old(c.View()), sc)
  {
    hide Controller.View, Controller.Owned, Settled, RunLoop, Prepare, LoadScenario, RunScenario;
    RunForm(c.View(), sc);
    error := c.ValidateScenario(sc);
    if error != Nil {
      return;
    }
    error := c.LoadScenario(sc);
    if error == Nil {
      error := TickToEnd(c, sc.maxTicks);
    }
  }
}
