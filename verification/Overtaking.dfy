/** Who can be overtaken in the ready queue: the exact condition, for every policy, and under aging for all
    later ticks. */
module Overtaking {
  import opened Domain
  import opened Schedulers
  import opened Cluster
  import opened Placement
  import opened EventLog
  import opened Invariants
  import opened Scheduling
  import opened Aging

  /** A record as it can wait in the queue at this tick. */
  ghost predicate Queued(p: Process, tick: int) {
    && p.id != NO_ID && p.state == Ready && p.nodeId == NO_ID && 0 < p.cpuRequest && 0 < p.memoryRequest
    && RecordOk(p, true, tick, 1)
  }

  /** A valid state at the start of a scheduling pass, in which both wait. */
  ghost predicate BothWait(s: State, p: Process, q: Process) {
    && Inv(s, {}, MID)
    && p.id in s.processes && s.processes[p.id] == p && p.state == Ready
    && q.id in s.processes && s.processes[q.id] == q && q.state == Ready
  }

  /** The pass places q and leaves p waiting. */
  ghost predicate Overtaken(s: State, p: Process, q: Process) {
    var t := ScheduleReady(s).processes;
    && p.id in t && t[p.id].state == Ready
    && q.id in t && t[q.id].state == Running
  }

  lemma WaitingIsQueued(s: State, p: Id)
    requires Inv(s, {}, MID) && p in s.processes && s.processes[p].state == Ready
    ensures Queued(s.processes[p], s.tick)
  {
    hide Placed, Logged;
    HistoryOf(s, {}, MID, p);
    assert RecordOk(s.processes[p], true, s.tick, 1);
  }

  // ---------------------------------------------------------------- a state in which q overtakes p

  /** A log that leaves a process READY after n restarts. */
  function Told(s: State, id: Id, n: nat): State {
    if n == 0 then Emit(Emit(Emit(s, Submitted, id, NO_ID), PausedEvent, id, NO_ID), Resumed, id, NO_ID)
    else Emit(Told(s, id, n - 1), Restarted, id, NO_ID)
  }

  lemma ToldOnce(l: Ledger, id: Id, number: nat, tick: int)
    ensures var l1 := Record(l, Event(number + 1, tick, Submitted, id, NO_ID));
      var l2 := Record(l1, Event(number + 2, tick, PausedEvent, id, NO_ID));
      Record(l2, Event(number + 3, tick, Resumed, id, NO_ID))
        == l.(views := l.views[id := View(Ready, NO_ID, 0)], interrupted := l.interrupted + {id})
  {
    var views: map<Id, View> := l.views[id := View(Ready, NO_ID, 0)];
    assert views[id := View(Paused, NO_ID, 0)][id := View(Ready, NO_ID, 0)] == views;
  }

  lemma ToldAgain(l: Ledger, id: Id, n: nat, e: Event)
    requires e.kind == Restarted && e.process == id
    ensures Record(l.(views := l.views[id := View(Ready, NO_ID, n)]), e)
         == l.(views := l.views[id := View(Ready, NO_ID, n + 1)])
  {
    assert l.views[id := View(Ready, NO_ID, n)][id := View(Ready, NO_ID, n + 1)]
        == l.views[id := View(Ready, NO_ID, n + 1)];
  }

  lemma {:induction false} ToldReplays(s: State, id: Id, n: nat)
    requires Chronicle(s.events, s.sequence, s.tick)
    ensures var t, l := Told(s, id, n), Replay(s.events);
      && t == s.(events := t.events, sequence := t.sequence)
      && Chronicle(t.events, t.sequence, t.tick)
      && Replay(t.events) == l.(views := l.views[id := View(Ready, NO_ID, n)], interrupted := l.interrupted + {id})
  {
    hide Chronicle, Replay, Record;
    var l := Replay(s.events);
    if n == 0 {
      var s1 := Emit(s, Submitted, id, NO_ID);
      Emitted(s, Submitted, id, NO_ID);
      Emitted(s1, PausedEvent, id, NO_ID);
      Emitted(Emit(s1, PausedEvent, id, NO_ID), Resumed, id, NO_ID);
      ToldOnce(l, id, s.sequence, s.tick);
    } else {
      ToldReplays(s, id, n - 1);
      var t := Told(s, id, n - 1);
      Emitted(t, Restarted, id, NO_ID);
      ToldAgain(l.(interrupted := l.interrupted + {id}), id, n - 1,
          Event(t.sequence + 1, t.tick, Restarted, id, NO_ID));
    }
  }

  const ONLY: Id := 1

  /** A cluster with one node, which has just what q asks for. */
  function TightNode(q: Process, tick: int): Node
    requires 0 < q.cpuRequest && 0 < q.memoryRequest
  {
    Node(ONLY, "node", Online, q.cpuRequest, q.memoryRequest, 0, 0, [], tick)
  }

  ghost function Tight(policy: Policy, tick: int, p: Process, q: Process): State
    requires 0 < q.cpuRequest && 0 < q.memoryRequest && 0 <= p.restartCount && 0 <= q.restartCount
  {
    var s := Fresh(policy, 0, 1, 2).(tick := tick);
    Told(Told(s, p.id, p.restartCount), q.id, q.restartCount)
      .(nodes := map[ONLY := TightNode(q, tick)], processes := map[p.id := p, q.id := q])
  }

  lemma QueuedCounts(p: Process, tick: int)
    requires Queued(p, tick)
    ensures 0 <= p.restartCount && 0 <= tick
  {
  }

  lemma TightIsLogged(policy: Policy, tick: int, p: Process, q: Process)
    requires p.id != q.id && Queued(p, tick) && Queued(q, tick) && 0 <= p.restartCount && 0 <= q.restartCount
    ensures var s := Tight(policy, tick, p, q);
      && Logged(s, {}) && Replay(s.events).interrupted == {p.id, q.id}
      && s.policy == policy && s.tick == tick
  {
    hide Chronicle, Replay, Told, RecordOk;
    var s0 := Fresh(policy, 0, 1, 2).(tick := tick);
    EmptyChronicle(s0);
    ToldReplays(s0, p.id, p.restartCount);
    ToldReplays(Told(s0, p.id, p.restartCount), q.id, q.restartCount);
    var s := Tight(policy, tick, p, q);
    assert Views(s.processes, {}) == map[p.id := View(Ready, NO_ID, p.restartCount)]
                                        [q.id := View(Ready, NO_ID, q.restartCount)];
    assert {} + {p.id} + {q.id} == {p.id, q.id};
  }

  lemma EmptyChronicle(s: State)
    requires s.events == [] && s.sequence == 0
    ensures Chronicle(s.events, s.sequence, s.tick) && Replay(s.events) == EMPTY_LEDGER
  {
  }

  lemma TightIsPlaced(p: Process, q: Process, tick: int)
    requires p.id != q.id && Queued(p, tick) && Queued(q, tick)
    ensures Placed(map[ONLY := TightNode(q, tick)], map[p.id := p, q.id := q], {})
  {
    hide RecordOk;
  }

  lemma TightIsValid(policy: Policy, tick: int, p: Process, q: Process)
    requires p.id != q.id && Queued(p, tick) && Queued(q, tick) && 0 <= p.restartCount && 0 <= q.restartCount
    ensures var s := Tight(policy, tick, p, q);
      BothWait(s, p, q) && s.policy == policy && s.tick == tick
  {
    hide Logged, Placed, RecordOk, Told, Replay;
    QueuedCounts(p, tick);
    TightIsLogged(policy, tick, p, q);
    TightIsPlaced(p, q, tick);
    var s := Tight(policy, tick, p, q);
    assert s.nodes == map[ONLY := TightNode(q, tick)] && s.processes == map[p.id := p, q.id := q];
  }

  /** A node that runs two processes has room for both. */
  lemma RoomForBoth(s: State, phase: Phase, n: Id, p: Id, q: Id)
    requires Inv(s, {}, phase) && n in s.nodes && p in s.processes && q in s.processes && p != q
    requires s.processes[p].state == Running && s.processes[p].nodeId == n
    requires s.processes[q].state == Running && s.processes[q].nodeId == n
    ensures s.processes[p].cpuRequest + s.processes[q].cpuRequest <= s.nodes[n].cpuCapacity
    ensures s.processes[p].memoryRequest + s.processes[q].memoryRequest <= s.nodes[n].memoryCapacity
  {
    hide Logged, RecordsOk, RecordOk;
    var running := s.nodes[n].running;
    assert NodeOk(s.nodes[n], n, s.processes, {});
    assert PlacedOk(s.processes[p], p, s.nodes, {}) && PlacedOk(s.processes[q], q, s.nodes, {});
    assert forall x | x in running :: PlacedOk(s.processes[x], x, s.nodes, {});
    WithoutElements(running, q);
    RequestSumWithout(running, q, s.processes, CPU);
    RequestSumWithout(running, q, s.processes, Memory);
    RequestSumAtLeast(Without(running, q), p, s.processes, CPU);
    RequestSumAtLeast(Without(running, q), p, s.processes, Memory);
  }

  /** A node that has just what q asks for, all of it free. */
  predicate Snug(node: Node, q: Process) {
    && node.status == Online && node.cpuAllocated == 0 && node.memoryAllocated == 0
    && node.cpuCapacity == q.cpuRequest && node.memoryCapacity == q.memoryRequest
  }

  lemma SnugFits(s: State, node: Node, p: Process, q: Process)
    requires s.nodes == map[ONLY := node] && Snug(node, q)
    ensures FitsSomewhere(s, p) <==> NoLarger(p, q)
    ensures FitsSomewhere(s, q)
  {
    assert s.nodes[ONLY] == node && node.CanFit(q);
  }

  lemma TightTables(policy: Policy, tick: int, p: Process, q: Process)
    requires 0 < q.cpuRequest && 0 < q.memoryRequest && 0 <= p.restartCount && 0 <= q.restartCount
    ensures var s := Tight(policy, tick, p, q);
      && s.processes == map[p.id := p, q.id := q] && s.nodes == map[ONLY := TightNode(q, tick)]
  {
  }

  lemma NotBeforeItself(policy: Policy, tick: int, p: Process)
    ensures !Precedes(policy, tick, p, p)
  {
  }

  lemma DecidedOnTight(s: State, t: State, p: Id, node: Node)
    requires p in s.processes && p in t.processes && Decided(s, t, p) && s.nodes == map[ONLY := node]
    ensures t.processes[p] == s.processes[p] || (t.processes[p].state == Running && t.processes[p].nodeId == ONLY)
    ensures SameRequest(t.processes[p], s.processes[p])
  {
    hide FitsSomewhere;
  }

  predicate SameRequest(p: Process, q: Process) {
    p.cpuRequest == q.cpuRequest && p.memoryRequest == q.memoryRequest
  }

  lemma CapacityStays(s: State, t: State, node: Node)
    requires AllFuller(s.nodes, t.nodes) && s.nodes == map[ONLY := node]
    ensures ONLY in t.nodes && t.nodes[ONLY].cpuCapacity == node.cpuCapacity
  {
    assert Fuller(s.nodes[ONLY], t.nodes[ONLY]);
  }

  /** Both cannot run on a snug node. */
  lemma SnugRunsOne(s: State, t: State, p: Process, q: Process, node: Node)
    requires Inv(t, {}, MID) && PassEffect(s, t, ReadyQueue(s)) && p.id != q.id
    requires 0 < p.cpuRequest
    requires BothWait(s, p, q) && s.nodes == map[ONLY := node] && Snug(node, q)
    ensures p.id in t.processes && q.id in t.processes
    ensures t.processes[q.id].state == Running ==> t.processes[p.id] == p
  {
    hide Inv, Logged, RecordsOk, ReadyQueue, Decided, AllFuller, InQueue, Placed, SameButPolicy;
    InvParts(s, {}, MID);
    ReadyQueueOk(s);
    DecidedOnTight(s, t, p.id, node);
    DecidedOnTight(s, t, q.id, node);
    CapacityStays(s, t, node);
    if t.processes[q.id].state == Running && t.processes[p.id] != p {
      RoomForBoth(t, MID, ONLY, p.id, q.id);
    }
  }

  /** If only the two wait, and the only node is snug for q, then q overtakes p unless p comes first and asks
      for no more. */
  lemma SnugOvertakes(s: State, p: Process, q: Process, node: Node)
    requires BothWait(s, p, q) && p.id != q.id && s.nodes == map[ONLY := node] && Snug(node, q)
    requires forall x | x in s.processes && s.processes[x].state == Ready :: x == p.id || x == q.id
    requires !Precedes(s.policy, s.tick, p, q) || !NoLarger(p, q)
    ensures Overtaken(s, p, q)
  {
    hide Inv, ReadyQueue, ScheduleReady, FitsSomewhere, PassEffect, Precedes, NoLarger, RecordOk, Snug;
    HistoryOf(s, {}, MID, p.id);
    SnugFits(s, node, p, q);
    NotBeforeItself(s.policy, s.tick, q);
    FirstThatFitsIsPlaced(s, q.id);
    PassIsMaximal(s);
    SnugRunsOne(s, ScheduleReady(s), p, q, node);
  }

  /** So on the tight cluster. */
  lemma TightOvertakes(policy: Policy, tick: int, p: Process, q: Process)
    requires p.id != q.id && Queued(p, tick) && Queued(q, tick) && 0 <= p.restartCount && 0 <= q.restartCount
    requires !Precedes(policy, tick, p, q) || !NoLarger(p, q)
    ensures Overtaken(Tight(policy, tick, p, q), p, q)
  {
    hide Inv, ReadyQueue, ScheduleReady, FitsSomewhere, PassEffect, Precedes, NoLarger, RecordOk, Tight;
    var s := Tight(policy, tick, p, q);
    TightIsValid(policy, tick, p, q);
    TightTables(policy, tick, p, q);
    SnugOvertakes(s, p, q, TightNode(q, tick));
  }

  // ---------------------------------------------------------------- the exact conditions

  /** Under every policy: no pass at this tick, of any valid state, places q and leaves p waiting if and
      only if p comes first and asks for no more. */
  lemma OvertakingIsExact(policy: Policy, tick: int, p: Process, q: Process)
    requires p.id != q.id && Queued(p, tick) && Queued(q, tick)
    ensures (forall s | BothWait(s, p, q) && s.policy == policy && s.tick == tick :: !Overtaken(s, p, q))
       <==> Precedes(policy, tick, p, q) && NoLarger(p, q)
  {
    hide Inv, Queued, ScheduleReady, Precedes, NoLarger, Tight;
    QueuedCounts(p, tick);
    QueuedCounts(q, tick);
    if Precedes(policy, tick, p, q) && NoLarger(p, q) {
      forall s | BothWait(s, p, q) && s.policy == policy && s.tick == tick ensures !Overtaken(s, p, q) {
        NoLargerJobOvertakes(s, p.id, q.id);
      }
    } else {
      TightIsValid(policy, tick, p, q);
      TightOvertakes(policy, tick, p, q);
    }
  }

  lemma QueuedLater(p: Process, tick: int, later: int)
    requires Queued(p, tick) && p.lastReadyAt <= later
    ensures Queued(p, later)
  {
  }

  /** Under aging: q never overtakes p, at no tick and in no valid state in which both wait, if and only if
      p has waited long enough to make up for q's priority and asks for no more. */
  lemma NeverOvertakenIsExact(aging: pos, tick: int, p: Process, q: Process)
    requires p.id != q.id && Queued(p, tick) && Queued(q, tick)
    ensures (forall s | BothWait(s, p, q) && s.policy == Policy.PriorityAware(aging) :: !Overtaken(s, p, q))
       <==> StaysAhead(aging, p, q) && NoLarger(p, q)
  {
    hide Inv, Queued, ScheduleReady, Precedes, NoLarger, StaysAhead, Overtaken;
    var policy := Policy.PriorityAware(aging);
    AgingIsExact(aging, p, q);
    if StaysAhead(aging, p, q) && NoLarger(p, q) {
      forall s | BothWait(s, p, q) && s.policy == policy ensures !Overtaken(s, p, q) {
        WaitingIsQueued(s, p.id);
        WaitingIsQueued(s, q.id);
        ReadySince(p, s.tick);
        ReadySince(q, s.tick);
        OvertakingIsExact(policy, s.tick, p, q);
      }
    } else {
      var worst := tick;
      ReadySince(p, tick);
      ReadySince(q, tick);
      if !StaysAhead(aging, p, q) {
        worst :| p.lastReadyAt <= worst && q.lastReadyAt <= worst && !Precedes(policy, worst, p, q);
      }
      QueuedLater(p, tick, worst);
      QueuedLater(q, tick, worst);
      OvertakingIsExact(policy, worst, p, q);
      var s :| BothWait(s, p, q) && s.policy == policy && s.tick == worst && Overtaken(s, p, q);
    }
  }

  lemma ReadySince(p: Process, tick: int)
    requires Queued(p, tick)
    ensures p.lastReadyAt <= tick
  {
  }
}
