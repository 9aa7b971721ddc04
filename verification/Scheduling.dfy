/** The scheduling pass: exact effect of one iteration, and of the whole pass. */
module Scheduling {
  import opened Domain
  import opened Ordering
  import opened Schedulers
  import opened Cluster
  import opened Placement
  import opened EventLog
  import opened Invariants

  const MID := Mid({})

  /** Like SameSetting, but the scheduler may have moved on. */
  ghost predicate SameButPolicy(a: State, b: State) {
    SameSetting(a, b.(policy := a.policy)) && a.status == b.status && a.reason == b.reason
  }

  // ---------------------------------------------------------------- what the policies look at

  lemma SnapshotsAreDistinct(s: State)
    requires Placed(s.nodes, s.processes, {})
    ensures DistinctIds(Snapshots(s.nodes))
    ensures forall n | n in s.nodes :: s.nodes[n].id == n
  {
    assert forall n | n in s.nodes :: NodeOk(s.nodes[n], n, s.processes, {});
  }

  /** The policy picks a node that really fits, and fails only when none does. */
  lemma SelectionIsExact(s: State, p: Process)
    requires Placed(s.nodes, s.processes, {})
    ensures var choice := Select(s.policy, p, Snapshots(s.nodes)).0;
      && (choice.Some? <==> FitsSomewhere(s, p))
      && (choice.Some? ==> choice.value in s.nodes && s.nodes[choice.value].CanFit(p))
  {
    hide Placed, Select;
    SnapshotsAreDistinct(s);
    var nodes := Snapshots(s.nodes);
    SelectIsExact(s.policy, p, nodes);
    if FitsSomewhere(s, p) {
      var n :| n in s.nodes && s.nodes[n].CanFit(p);
      assert s.nodes[n].Snapshot() in nodes;
    }
  }

  // ---------------------------------------------------------------- deferral

  lemma DeferKeeps(s: State, policy: Policy, p: Process, node: Id)
    requires Inv(s, {}, MID)
    ensures Inv(Defer(s.(policy := policy), p, node), {}, MID)
  {
    hide Placed, RecordOk;
    Emitted(s, Deferred, p.id, node);
    assert Defer(s.(policy := policy), p, node).events == Emit(s, Deferred, p.id, node).events;
  }

  // ---------------------------------------------------------------- placement

  lemma PlacedRecordOk(p: Process, tick: int, nodeId: Id, interrupted: bool, lag: int)
    requires RecordOk(p, interrupted, tick, lag) && p.state == Ready
    ensures RecordOk(PlacedRecord(p, tick, nodeId), interrupted, tick, 1)
  {
  }

  lemma RecordPlacement(l: Ledger, id: Id, nodeId: Id, number: nat, tick: int, restarts: int)
    requires id in l.views && l.views[id] == View(Ready, NO_ID, restarts)
    ensures var l1 := Record(l, Event(number, tick, Scheduled, id, nodeId));
      Record(l1, Event(number + 1, tick, Allocated, id, nodeId))
        == l.(views := l.views[id := View(Running, nodeId, restarts)], scheduled := l.scheduled + 1)
  {
    var l1 := Record(l, Event(number, tick, Scheduled, id, nodeId));
    assert l1.views[id := l1.views[id].(nodeId := nodeId)] == l.views[id := View(Running, nodeId, restarts)];
  }

  ghost function AfterStarted(s: State, id: Id, nodeId: Id, first: bool): State {
    if first then Emit(s, Started, id, nodeId) else s
  }

  lemma StartedIsCounted(l: Ledger, id: Id, nodeId: Id, number: nat, tick: int)
    ensures Record(l, Event(number, tick, Started, id, nodeId)) == l.(started := l.started + 1)
  {
  }

  lemma LedgerOf(s: State, p: Process)
    requires Logged(s, {}) && p.id in s.processes && s.processes[p.id] == p
    ensures p.id in Replay(s.events).views
    ensures Replay(s.events).views[p.id] == View(p.state, p.nodeId, p.restartCount)
  {
  }

  lemma PlaceReplay(s: State, p: Process, n: Node, nodeId: Id)
    requires Logged(s, {}) && p.id in s.processes && s.processes[p.id] == p && p.state == Ready && p.nodeId == NO_ID
    ensures var t := Place(s, p, n, nodeId);
      var l := Replay(s.events);
      && Chronicle(t.events, t.sequence, t.tick)
      && Replay(t.events) == l.(views := l.views[p.id := View(Running, nodeId, p.restartCount)],
                                scheduled := l.scheduled + 1,
                                started := l.started + if p.startedAt == None then 1 else 0)
  {
    hide Chronicle, Replay, Record;
    var first := p.startedAt == None;
    LedgerOf(s, p);
    StartedIsCounted(Replay(s.events), p.id, nodeId, s.sequence + 1, s.tick);
    Emitted(s, Started, p.id, nodeId);
    var s1 := AfterStarted(s, p.id, nodeId, first);
    Emitted(s1, Scheduled, p.id, nodeId);
    var s2 := Emit(s1, Scheduled, p.id, nodeId);
    Emitted(s2, Allocated, p.id, nodeId);
    RecordPlacement(Replay(s1.events), p.id, nodeId, s1.sequence + 1, s.tick, p.restartCount);
    assert Place(s, p, n, nodeId).events == Emit(s2, Allocated, p.id, nodeId).events;
  }

  lemma PlaceLogged(s: State, p: Process, n: Node, nodeId: Id)
    requires Logged(s, {}) && p.id in s.processes && s.processes[p.id] == p && p.state == Ready && p.nodeId == NO_ID
    ensures Logged(Place(s, p, n, nodeId), {})
    ensures Replay(Place(s, p, n, nodeId).events).interrupted == Replay(s.events).interrupted
  {
    hide Chronicle, Replay, Record, Place;
    PlaceReplay(s, p, n, nodeId);
    PlaceFields(s, p, n, nodeId);
    ViewPlace(s.processes, PlacedRecord(p, s.tick, nodeId));
  }

  /** Allocation on a fitting node cannot fail, and keeps the invariant. */
  lemma PlaceKeeps(s: State, p: Process, nodeId: Id)
    requires Inv(s, {}, MID) && p.id in s.processes && s.processes[p.id] == p && p.state == Ready
    requires nodeId in s.nodes && s.nodes[nodeId].CanFit(p)
    ensures s.nodes[nodeId].Allocate(p).1 == Nil
    ensures Inv(Place(s, p, s.nodes[nodeId].Allocate(p).0, nodeId), {}, MID)
  {
    hide Placed, Logged, RecordOk, Replay, Emit;
    HistoryOf(s, {}, MID, p.id);
    var p1 := PlacedRecord(p, s.tick, nodeId);
    PlacedAllocate(s.nodes, s.processes, p.id, nodeId, p1);
    PlaceLogged(s, p, s.nodes[nodeId].Allocate(p).0, nodeId);
    PlacedRecordOk(p, s.tick, nodeId, p.id in Replay(s.events).interrupted, 1);
    RecordsTouch(s.processes, Replay(s.events).interrupted, s.tick, MID, p1);
    PlaceFields(s, p, s.nodes[nodeId].Allocate(p).0, nodeId);
  }

  lemma PlaceFields(s: State, p: Process, n: Node, nodeId: Id)
    ensures var t := Place(s, p, n, nodeId);
      && t.nodes == s.nodes[nodeId := n] && t.processes == s.processes[p.id := PlacedRecord(p, s.tick, nodeId)]
      && SameSetting(s, t) && t.status == s.status && t.reason == s.reason
      && t.stats.schedulingDeferred == s.stats.schedulingDeferred && t.stats.nodeFailures == s.stats.nodeFailures
      && t.stats.reschedulings == s.stats.reschedulings + if p.startedAt == None then 0 else 1
  {
    hide Announced, PlacedRecord;
    AnnouncedFields(s.(nodes := s.nodes[nodeId := n],
                       processes := s.processes[p.id := PlacedRecord(p, s.tick, nodeId)]),
                    p.id, nodeId, p.startedAt == None);
  }

  lemma AnnouncedFields(s: State, id: Id, nodeId: Id, first: bool)
    ensures var t := Announced(s, id, nodeId, first);
      && t == s.(events := t.events, sequence := t.sequence, stats := t.stats)
      && t.stats == s.stats.(reschedulings := s.stats.reschedulings + if first then 0 else 1)
  {
  }

  // ---------------------------------------------------------------- one iteration

  /** One iteration either defers, exactly when no node fits, or places the process on a node that fits. */
  lemma ScheduleOneExact(s: State, p: Process) returns (nodeId: Id)
    requires Inv(s, {}, MID) && p.id in s.processes && s.processes[p.id] == p && p.state == Ready
    ensures var t := ScheduleOne(s, p);
      && Inv(t, {}, MID) && SameButPolicy(s, t)
      && (!FitsSomewhere(s, p) ==>
            && t == Defer(s.(policy := t.policy), p, NO_ID) && t.policy == s.policy)
      && (FitsSomewhere(s, p) ==>
            && nodeId in s.nodes && s.nodes[nodeId].CanFit(p) && s.nodes[nodeId].Allocate(p).1 == Nil
            && t.nodes == s.nodes[nodeId := s.nodes[nodeId].Allocate(p).0]
            && t.processes == s.processes[p.id := PlacedRecord(p, s.tick, nodeId)])
  {
    hide Placed, Logged, RecordsOk, RecordOk, Place, Defer;
    SelectionIsExact(s, p);
    var (choice, policy) := Select(s.policy, p, Snapshots(s.nodes));
    var s1 := s.(policy := policy);
    nodeId := NO_ID;
    if choice.Some? {
      nodeId := choice.value;
      PolicyIsFree(s, policy);
      PlaceKeeps(s1, p, nodeId);
      PlaceFields(s1, p, s.nodes[nodeId].Allocate(p).0, nodeId);
    } else {
      DeferKeeps(s, policy, p, NO_ID);
      DeferFields(s1, p, NO_ID);
      NoChoiceKeepsPolicy(s.policy, p, Snapshots(s.nodes));
    }
  }

  lemma PolicyIsFree(s: State, policy: Policy)
    requires Inv(s, {}, MID)
    ensures Inv(s.(policy := policy), {}, MID)
  {
  }

  lemma DeferFields(s: State, p: Process, node: Id)
    ensures var t := Defer(s, p, node);
      && t.nodes == s.nodes && t.processes == s.processes && SameSetting(s, t) && t.status == s.status
      && t.reason == s.reason
  {
  }

  lemma NoChoiceKeepsPolicy(policy: Policy, p: Process, nodes: set<NodeSnapshot>)
    requires Select(policy, p, nodes).0.None?
    ensures Select(policy, p, nodes).1 == policy
  {
  }

  // ---------------------------------------------------------------- the whole pass

  /** `b` is `a` with no less allocated. */
  ghost predicate Fuller(a: Node, b: Node) {
    && b == a.(cpuAllocated := b.cpuAllocated, memoryAllocated := b.memoryAllocated, running := b.running)
    && a.cpuAllocated <= b.cpuAllocated && a.memoryAllocated <= b.memoryAllocated
  }

  ghost predicate AllFuller(a: map<Id, Node>, b: map<Id, Node>) {
    a.Keys == b.Keys && forall n | n in a :: Fuller(a[n], b[n])
  }

  predicate NoLarger(p: Process, q: Process) {
    p.cpuRequest <= q.cpuRequest && p.memoryRequest <= q.memoryRequest
  }

  /** What does not fit now fits no later in the pass, nor does anything larger. */
  lemma StillUnfit(s: State, t: State, p: Process, q: Process)
    requires AllFuller(s.nodes, t.nodes) && NoLarger(p, q) && !FitsSomewhere(s, p)
    ensures !FitsSomewhere(t, q)
  {
    forall n | n in t.nodes ensures !t.nodes[n].CanFit(q) {
      assert !s.nodes[n].CanFit(p);
      assert Fuller(s.nodes[n], t.nodes[n]);
    }
  }

  /** A queue of distinct READY processes, as the state holds them. */
  ghost predicate QueueOk(s: State, queue: seq<Process>) {
    && (forall i | 0 <= i < |queue| ::
         queue[i].id in s.processes && s.processes[queue[i].id] == queue[i] && queue[i].state == Ready)
    && (forall i, j | 0 <= i < j < |queue| :: queue[i].id != queue[j].id)
  }

  ghost predicate InQueue(queue: seq<Process>, id: Id) {
    exists i | 0 <= i < |queue| :: queue[i].id == id
  }

  ghost predicate IsOnline(nodes: map<Id, Node>, id: Id) {
    id in nodes && nodes[id].status == Online
  }

  /** After the pass a queued process is untouched and fits no node, or has been placed on an ONLINE one. */
  ghost predicate Decided(s: State, t: State, id: Id)
    requires id in s.processes && id in t.processes
  {
    || (t.processes[id] == s.processes[id] && !FitsSomewhere(t, s.processes[id]))
    || (t.processes[id] == PlacedRecord(s.processes[id], s.tick, t.processes[id].nodeId)
        && IsOnline(s.nodes, t.processes[id].nodeId))
  }

  ghost predicate PassEffect(s: State, t: State, queue: seq<Process>) {
    && SameButPolicy(s, t) && AllFuller(s.nodes, t.nodes) && s.processes.Keys == t.processes.Keys
    && forall id | id in s.processes ::
         if InQueue(queue, id) then Decided(s, t, id) else t.processes[id] == s.processes[id]
  }

  lemma OneIsFuller(s: State, nodeId: Id, p: Process)
    requires nodeId in s.nodes && 0 < p.cpuRequest && 0 < p.memoryRequest
    ensures AllFuller(s.nodes, s.nodes[nodeId := s.nodes[nodeId].Allocate(p).0])
  {
  }

  lemma StepOfPass(s: State, queue: seq<Process>) returns (nodeId: Id)
    requires Inv(s, {}, MID) && QueueOk(s, queue) && queue != []
    ensures var p, s1 := queue[0], ScheduleOne(s, queue[0]);
      && Inv(s1, {}, MID) && SameButPolicy(s, s1) && QueueOk(s1, queue[1..]) && AllFuller(s.nodes, s1.nodes)
      && (FitsSomewhere(s, p) ==>
            IsOnline(s.nodes, nodeId) && s1.processes == s.processes[p.id := PlacedRecord(p, s.tick, nodeId)])
      && (!FitsSomewhere(s, p) ==> s1.processes == s.processes && s1.nodes == s.nodes)
  {
    hide Inv, ScheduleOne;
    var p := queue[0];
    nodeId := ScheduleOneExact(s, p);
    HistoryOf(s, {}, MID, p.id);
    if FitsSomewhere(s, p) {
      OneIsFuller(s, nodeId, p);
    }
  }

  lemma {:induction false} PassIsDecisive(s: State, queue: seq<Process>)
    requires Inv(s, {}, MID) && QueueOk(s, queue)
    ensures Inv(ScheduleAll(s, queue), {}, MID) && PassEffect(s, ScheduleAll(s, queue), queue)
    decreases |queue|
  {
    hide Inv, ScheduleOne;
    if queue != [] {
      var p, rest := queue[0], queue[1..];
      var nodeId := StepOfPass(s, queue);
      var s1 := ScheduleOne(s, p);
      PassIsDecisive(s1, rest);
      var t := ScheduleAll(s1, rest);
      if !FitsSomewhere(s, p) {
        StillUnfit(s, t, p, p);
      }
      PassComposes(s, s1, t, queue, nodeId);
    }
  }

  lemma FullerTransitive(a: map<Id, Node>, b: map<Id, Node>, c: map<Id, Node>)
    requires AllFuller(a, b) && AllFuller(b, c)
    ensures AllFuller(a, c)
  {
    assert forall n | n in a :: Fuller(a[n], b[n]) && Fuller(b[n], c[n]);
  }

  /** Two tables with a common filling have the same nodes, but for what runs on them. */
  lemma FillingAgrees(a: map<Id, Node>, b: map<Id, Node>, c: map<Id, Node>)
    requires AllFuller(a, b) && AllFuller(c, b)
    ensures a.Keys == c.Keys
    ensures forall n | n in a :: c[n].status == a[n].status
              && c[n].cpuCapacity == a[n].cpuCapacity && c[n].memoryCapacity == a[n].memoryCapacity
  {
    assert forall n | n in a :: Fuller(a[n], b[n]) && Fuller(c[n], b[n]);
  }

  lemma SameOnline(a: map<Id, Node>, b: map<Id, Node>)
    requires AllFuller(a, b)
    ensures forall n :: IsOnline(a, n) == IsOnline(b, n)
  {
    assert forall n | n in a :: Fuller(a[n], b[n]);
  }

  lemma PassComposes(s: State, s1: State, t: State, queue: seq<Process>, nodeId: Id)
    requires QueueOk(s, queue) && queue != []
    requires SameButPolicy(s, s1) && AllFuller(s.nodes, s1.nodes) && PassEffect(s1, t, queue[1..])
    requires var p := queue[0];
      || (IsOnline(s.nodes, nodeId) && s1.processes == s.processes[p.id := PlacedRecord(p, s.tick, nodeId)])
      || (s1.processes == s.processes && !FitsSomewhere(t, p))
    ensures PassEffect(s, t, queue)
  {
    hide FitsSomewhere, AllFuller, IsOnline;
    SameOnline(s.nodes, s1.nodes);
    FullerTransitive(s.nodes, s1.nodes, t.nodes);
    var p := queue[0];
    forall id | id in s.processes
      ensures if InQueue(queue, id) then Decided(s, t, id) else t.processes[id] == s.processes[id]
    {
      QueueSplit(queue, id);
      if id == p.id {
        assert !InQueue(queue[1..], id);
      }
    }
  }

  lemma QueueSplit(queue: seq<Process>, id: Id)
    requires queue != []
    ensures InQueue(queue, id) <==> queue[0].id == id || InQueue(queue[1..], id)
  {
    if InQueue(queue, id) && queue[0].id != id {
      var i :| 0 <= i < |queue| && queue[i].id == id;
      assert queue[1..][i-1].id == id;
    }
    if InQueue(queue[1..], id) {
      var i :| 0 <= i < |queue[1..]| && queue[1..][i].id == id;
      assert queue[i+1].id == id;
    }
  }

  /** Once a process has been refused, a later one that asks for at least as much is refused too. */
  lemma {:induction false} RefusedStaysRefused(s: State, queue: seq<Process>, p: Process, j: nat)
    requires Inv(s, {}, MID) && QueueOk(s, queue) && j < |queue|
    requires !FitsSomewhere(s, p) && NoLarger(p, queue[j])
    ensures queue[j].id in ScheduleAll(s, queue).processes
    ensures ScheduleAll(s, queue).processes[queue[j].id] == queue[j]
    decreases |queue|
  {
    hide Inv, ScheduleOne;
    var s1 := ScheduleOne(s, queue[0]);
    var nodeId := StepOfPass(s, queue);
    PassIsDecisive(s1, queue[1..]);
    if j == 0 {
      StillUnfit(s, s, p, queue[0]);
      NotInRest(queue);
    } else {
      StillUnfit(s, s1, p, p);
      RefusedStaysRefused(s1, queue[1..], p, j - 1);
    }
  }

  lemma NotInRest(queue: seq<Process>)
    requires queue != [] && forall i, j | 0 <= i < j < |queue| :: queue[i].id != queue[j].id
    ensures !InQueue(queue[1..], queue[0].id)
  {
  }

  /** No larger process overtakes: if a later one that asks for at least as much is placed, so is the earlier. */
  lemma {:induction false} NoOvertakingInQueue(s: State, queue: seq<Process>, i: nat, j: nat)
    requires Inv(s, {}, MID) && QueueOk(s, queue) && i < j < |queue| && NoLarger(queue[i], queue[j])
    ensures queue[i].id in ScheduleAll(s, queue).processes && queue[j].id in ScheduleAll(s, queue).processes
    ensures ScheduleAll(s, queue).processes[queue[j].id].state == Running ==>
              ScheduleAll(s, queue).processes[queue[i].id].state == Running
    decreases |queue|
  {
    hide Inv, ScheduleOne, FitsSomewhere, AllFuller, SameButPolicy, InQueue, Decided;
    var s1 := ScheduleOne(s, queue[0]);
    var nodeId := StepOfPass(s, queue);
    if i > 0 {
      NoOvertakingInQueue(s1, queue[1..], i - 1, j - 1);
    } else {
      FirstIsNotOvertaken(s, queue, j);
    }
  }

  lemma FirstIsNotOvertaken(s: State, queue: seq<Process>, j: nat)
    requires Inv(s, {}, MID) && QueueOk(s, queue) && 0 < j < |queue| && NoLarger(queue[0], queue[j])
    ensures queue[0].id in ScheduleAll(s, queue).processes && queue[j].id in ScheduleAll(s, queue).processes
    ensures ScheduleAll(s, queue).processes[queue[j].id].state == Running ==>
              ScheduleAll(s, queue).processes[queue[0].id].state == Running
  {
    hide Inv, ScheduleOne, FitsSomewhere, AllFuller, SameButPolicy, Decided;
    var p := queue[0];
    var s1 := ScheduleOne(s, p);
    var nodeId := StepOfPass(s, queue);
    PassIsDecisive(s, queue);
    if FitsSomewhere(s, p) {
      PassIsDecisive(s1, queue[1..]);
      NotInRest(queue);
    } else {
      StillUnfit(s, s1, p, p);
      RefusedStaysRefused(s1, queue[1..], p, j - 1);
    }
  }

  // ---------------------------------------------------------------- the pass a tick makes

  lemma ReadyQueueOk(s: State)
    requires Placed(s.nodes, s.processes, {})
    ensures QueueOk(s, ReadyQueue(s))
    ensures forall id | id in s.processes :: InQueue(ReadyQueue(s), id) <==> s.processes[id].state == Ready
    ensures forall i, j | 0 <= i < j < |ReadyQueue(s)| ::
      Precedes(s.policy, s.tick, ReadyQueue(s)[i], ReadyQueue(s)[j])
  {
    var S, less, queue := ReadySet(s), ReadyOrder(s.policy, s.tick), ReadyQueue(s);
    assert forall id | id in s.processes :: PlacedOk(s.processes[id], id, s.nodes, {});
    assert DistinctProcesses(S);
    ReadyOrderIsTotal(s.policy, s.tick, S);
    ArrangeSorts(S, less);
    assert forall i | 0 <= i < |queue| :: queue[i] in Elements(queue);
    assert forall i, j | 0 <= i < j < |queue| :: less(queue[i], queue[j]);
    forall i, j | 0 <= i < j < |queue| ensures queue[i].id != queue[j].id {
      assert less(queue[i], queue[j]) && queue[i] in S && queue[j] in S;
    }
    forall id | id in s.processes && s.processes[id].state == Ready ensures InQueue(queue, id) {
      assert s.processes[id] in S;
      assert s.processes[id] in Elements(queue);
    }
  }

  /** The pass is maximal: afterwards no READY process fits any node that is ONLINE. */
  lemma PassIsMaximal(s: State)
    requires Inv(s, {}, MID)
    ensures var t := ScheduleReady(s);
      && Inv(t, {}, MID) && PassEffect(s, t, ReadyQueue(s))
      && (forall id | id in t.processes && t.processes[id].state == Ready ::
            id in s.processes && t.processes[id] == s.processes[id] && !FitsSomewhere(t, t.processes[id]))
  {
    hide Placed, Logged, RecordsOk, ScheduleAll, ReadyQueue;
    ReadyQueueOk(s);
    PassIsDecisive(s, ReadyQueue(s));
  }

  /** Under every policy: if p comes first in the policy's order, asks for no more than q, and q is
      placed by a pass, then p is placed by it too. */
  lemma NoLargerJobOvertakes(s: State, p: Id, q: Id)
    requires Inv(s, {}, MID) && p in s.processes && q in s.processes
    requires s.processes[p].state == Ready && s.processes[q].state == Ready
    requires Precedes(s.policy, s.tick, s.processes[p], s.processes[q])
    requires NoLarger(s.processes[p], s.processes[q])
    ensures p in ScheduleReady(s).processes && q in ScheduleReady(s).processes
    ensures ScheduleReady(s).processes[q].state == Running ==> ScheduleReady(s).processes[p].state == Running
  {
    hide Placed, Logged, RecordsOk, ScheduleAll, ReadyQueue, Precedes;
    ReadyQueueOk(s);
    HistoryOf(s, {}, MID, p);
    HistoryOf(s, {}, MID, q);
    var queue := ReadyQueue(s);
    var i :| 0 <= i < |queue| && queue[i].id == p;
    var j :| 0 <= j < |queue| && queue[j].id == q;
    PrecedesIsAsymmetric(s.policy, s.tick, s.processes[p], s.processes[q]);
    assert i < j;
    NoOvertakingInQueue(s, queue, i, j);
  }

  /** If nothing before it in the queue fits anywhere and it does, a queued process is placed. */
  lemma {:induction false} PlacedAfterRefusals(s: State, queue: seq<Process>, j: nat)
    requires Inv(s, {}, MID) && QueueOk(s, queue) && j < |queue| && FitsSomewhere(s, queue[j])
    requires forall i | 0 <= i < j :: !FitsSomewhere(s, queue[i])
    ensures queue[j].id in ScheduleAll(s, queue).processes
    ensures ScheduleAll(s, queue).processes[queue[j].id].state == Running
    decreases |queue|
  {
    hide Inv, ScheduleOne, AllFuller, SameButPolicy;
    var s1 := ScheduleOne(s, queue[0]);
    var nodeId := StepOfPass(s, queue);
    if j == 0 {
      PassIsDecisive(s1, queue[1..]);
      NotInRest(queue);
    } else {
      FitsDependsOnNodes(s, s1);
      PlacedAfterRefusals(s1, queue[1..], j - 1);
    }
  }

  lemma FitsDependsOnNodes(s: State, t: State)
    requires s.nodes == t.nodes
    ensures forall p :: FitsSomewhere(s, p) == FitsSomewhere(t, p)
  {
  }

  /** A READY process that fits is placed, unless one that comes before it fits as well: those that do not
      fit never hold it up. */
  lemma FirstThatFitsIsPlaced(s: State, q: Id)
    requires Inv(s, {}, MID) && q in s.processes && s.processes[q].state == Ready
    requires FitsSomewhere(s, s.processes[q])
    requires forall p | p in s.processes && s.processes[p].state == Ready
               && Precedes(s.policy, s.tick, s.processes[p], s.processes[q]) :: !FitsSomewhere(s, s.processes[p])
    ensures q in ScheduleReady(s).processes && ScheduleReady(s).processes[q].state == Running
  {
    hide Placed, Logged, RecordsOk, ScheduleAll, ReadyQueue, Precedes, FitsSomewhere;
    ReadyQueueOk(s);
    HistoryOf(s, {}, MID, q);
    var queue := ReadyQueue(s);
    var j :| 0 <= j < |queue| && queue[j].id == q;
    PlacedAfterRefusals(s, queue, j);
  }

  lemma PrecedesIsAsymmetric(policy: Policy, tick: int, a: Process, b: Process)
    requires Precedes(policy, tick, a, b)
    ensures !Precedes(policy, tick, b, a) && a != b
  {
  }
}
