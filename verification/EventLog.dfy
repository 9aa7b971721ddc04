/** The event log as a second copy of the state: replaying it gives every process's state,
    place and restart count, and the event counts behind the statistics. */
module EventLog {
  import opened Domain
  import opened Cluster
  import opened Placement

  datatype View = View(state: ProcessState, nodeId: Id, restarts: int)

  /** What a reader of the log knows. `interrupted` holds the processes that ever failed,
      were paused, or were put in waiting. */
  datatype Ledger = Ledger(
    views: map<Id, View>, interrupted: set<Id>,
    deferred: nat, nodeFailures: nat, scheduled: nat, started: nat)

  const EMPTY_LEDGER := Ledger(map[], {}, 0, 0, 0, 0)

  function Moved(l: Ledger, id: Id, to: ProcessState): Ledger {
    if id in l.views then l.(views := l.views[id := l.views[id].(state := to)]) else l
  }

  function Relocated(l: Ledger, id: Id, nodeId: Id): Ledger {
    if id in l.views then l.(views := l.views[id := l.views[id].(nodeId := nodeId)]) else l
  }

  function Interrupted(l: Ledger, id: Id): Ledger {
    l.(interrupted := l.interrupted + {id})
  }

  function Cleared(views: map<Id, View>, nodeId: Id): map<Id, View> {
    map id | id in views :: if views[id].nodeId == nodeId then views[id].(nodeId := NO_ID) else views[id]
  }

  function Record(l: Ledger, e: Event): Ledger {
    match e.kind
    case Submitted => l.(views := l.views[e.process := View(Ready, NO_ID, 0)])
    case Scheduled => Moved(l, e.process, Running).(scheduled := l.scheduled + 1)
    case Started => l.(started := l.started + 1)
    case Allocated => Relocated(l, e.process, e.node)
    case Released => Relocated(l, e.process, NO_ID)
    case NodeDown => l.(views := Cleared(l.views, e.node), nodeFailures := l.nodeFailures + 1)
    case PausedEvent => Interrupted(Moved(l, e.process, Paused), e.process)
    case WaitingEvent => Interrupted(Moved(l, e.process, Waiting), e.process)
    case Resumed => Moved(l, e.process, Ready)
    case IOCompleted => Moved(l, e.process, Ready)
    case CompletedEvent => Moved(l, e.process, Terminated)
    case KilledEvent => Moved(l, e.process, Killed)
    case FailedEvent => Interrupted(Moved(l, e.process, Failed), e.process)
    case Restarted =>
      if e.process in l.views then
        var v := l.views[e.process];
        l.(views := l.views[e.process := v.(state := Ready, restarts := v.restarts + 1)])
      else l
    case Deferred => l.(deferred := l.deferred + 1)
    case _ => l
  }

  function Replay(events: seq<Event>): Ledger {
    if events == [] then EMPTY_LEDGER
    else Record(Replay(events[..|events| - 1]), events[|events| - 1])
  }

  /** Numbered from 1 without gaps, and never going back in time. */
  ghost predicate Chronicle(events: seq<Event>, sequence: nat, tick: int) {
    && sequence == |events|
    && (forall i | 0 <= i < |events| :: events[i].number == i + 1 && events[i].tick <= tick)
    && (forall i, j | 0 <= i < j < |events| :: events[i].tick <= events[j].tick)
  }

  ghost function Views(processes: map<Id, Process>, orphans: set<Id>): map<Id, View> {
    map id | id in processes ::
      View(processes[id].state, if id in orphans then NO_ID else processes[id].nodeId, processes[id].restartCount)
  }

  ghost predicate LedgerMatches(l: Ledger, processes: map<Id, Process>, stats: Statistics, orphans: set<Id>) {
    && l.views == Views(processes, orphans)
    && l.interrupted <= processes.Keys
    && l.deferred == stats.schedulingDeferred
    && l.nodeFailures == stats.nodeFailures
    && l.scheduled == l.started + stats.reschedulings
  }

  /** The log tells the live state, orphans counting as already off their node. */
  ghost predicate Logged(s: State, orphans: set<Id>) {
    && Chronicle(s.events, s.sequence, s.tick)
    && LedgerMatches(Replay(s.events), s.processes, s.stats, orphans)
  }

  lemma Emitted(s: State, kind: EventKind, process: Id, node: Id)
    requires Chronicle(s.events, s.sequence, s.tick)
    ensures var e := Emit(s, kind, process, node);
      && Chronicle(e.events, e.sequence, e.tick)
      && Replay(e.events) == Record(Replay(s.events), Event(s.sequence + 1, s.tick, kind, process, node))
  {
    var events := Emit(s, kind, process, node).events;
    assert events[..|events| - 1] == s.events;
  }

  /** How often each kind of event occurs: the counts a reader of the log would make. */
  function Count(events: seq<Event>, kind: EventKind): nat {
    if events == [] then 0
    else Count(events[..|events| - 1], kind) + if events[|events| - 1].kind == kind then 1 else 0
  }

  lemma {:induction false} ReplayCounts(events: seq<Event>)
    ensures Replay(events).deferred == Count(events, Deferred)
    ensures Replay(events).nodeFailures == Count(events, NodeDown)
    ensures Replay(events).scheduled == Count(events, Scheduled)
    ensures Replay(events).started == Count(events, Started)
  {
    if events != [] {
      ReplayCounts(events[..|events| - 1]);
    }
  }

  predicate IsInterruption(kind: EventKind) {
    kind == PausedEvent || kind == WaitingEvent || kind == FailedEvent
  }

  lemma {:induction false} ReplayInterrupted(events: seq<Event>, id: Id)
    ensures id in Replay(events).interrupted <==>
      exists i | 0 <= i < |events| :: events[i].process == id && IsInterruption(events[i].kind)
  {
    if events != [] {
      var front := events[..|events| - 1];
      ReplayInterrupted(front, id);
      var last := |events| - 1;
      assert forall i | 0 <= i < last :: events[i] == front[i];
    }
  }

  // ---------------------------------------------------------------- moves, as the log sees them

  lemma ViewUpdate(processes: map<Id, Process>, orphans: set<Id>, p: Process)
    requires p.id in processes && p.nodeId == NO_ID
    ensures Views(processes[p.id := p], orphans - {p.id})
         == Views(processes, orphans)[p.id := View(p.state, NO_ID, p.restartCount)]
  {
  }

  lemma ViewSubmit(processes: map<Id, Process>, orphans: set<Id>, p: Process)
    requires p.id !in processes && p.id !in orphans && p.nodeId == NO_ID
    ensures Views(processes[p.id := p], orphans)
         == Views(processes, orphans)[p.id := View(p.state, NO_ID, p.restartCount)]
  {
  }

  lemma ViewPlace(processes: map<Id, Process>, p: Process)
    requires p.id in processes
    ensures Views(processes[p.id := p], {})
         == Views(processes, {})[p.id := View(p.state, p.nodeId, p.restartCount)]
  {
  }

  lemma ViewTouch(processes: map<Id, Process>, orphans: set<Id>, p: Process)
    requires p.id in processes && p.state == processes[p.id].state && p.restartCount == processes[p.id].restartCount
    requires p.nodeId == processes[p.id].nodeId || p.id in orphans
    ensures Views(processes[p.id := p], orphans) == Views(processes, orphans)
  {
  }

  lemma ViewRelease(processes: map<Id, Process>, orphans: set<Id>, id: Id)
    requires id in processes
    ensures Views(processes[id := processes[id].(nodeId := NO_ID)], orphans + {id})
         == Views(processes, orphans)[id := View(processes[id].state, NO_ID, processes[id].restartCount)]
  {
  }

  /** A NODE_FAILED event clears exactly the processes the node listed. */
  lemma ViewNodeDown(nodes: map<Id, Node>, processes: map<Id, Process>, id: Id)
    requires Placed(nodes, processes, {}) && id in nodes
    ensures Views(processes, set p | p in nodes[id].running) == Cleared(Views(processes, {}), id)
  {
    assert NodeOk(nodes[id], id, processes, {});
    assert forall p | p in processes :: PlacedOk(processes[p], p, nodes, {});
  }
}
