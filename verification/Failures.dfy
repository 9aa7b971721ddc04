/** Process and node failures: their exact effect on a valid state (internal/cluster/recovery.go). */
module Failures {
  import opened Domain
  import opened Ordering
  import opened Cluster
  import opened Placement
  import opened EventLog
  import opened Invariants

  // ---------------------------------------------------------------- one process

  lemma FailedReplyExact(s: State, id: Id, node: Id)
    requires id in s.processes && s.processes[id].nodeId == NO_ID
    ensures FailedReply(s, s.processes[id].(state := Failed), id, node) == Reply(AfterFailure(s, id, node), Nil)
  {
    var p := s.processes[id];
    var q := p.(state := Failed);
    assert q.CanRestart() == p.CanRestart();
    assert s.processes[id := q][id := FailedRecord(p, s.tick)] == s.processes[id := FailedRecord(p, s.tick)];
  }

  /** The state in which `failProcessLocked` marks the process FAILED: off its node, if it had one. */
  ghost function OffNode(s: State, orphans: set<Id>, id: Id): State
    requires id in s.processes
  {
    if s.processes[id].state == Running && id !in orphans && s.processes[id].nodeId in s.nodes
    then Unhosted(s, id) else s
  }

  lemma FailProcessForm(s: State, orphans: set<Id>, phase: Phase, id: Id)
    requires Inv(s, orphans, phase) && id in s.processes && !s.processes[id].state.IsTerminal()
    requires id in orphans ==> s.processes[id].nodeId == NO_ID
    ensures id in OffNode(s, orphans, id).processes
    ensures FailProcessLocked(s, id)
         == Reply(AfterFailure(OffNode(s, orphans, id), id, s.processes[id].nodeId), Nil)
  {
    hide Placed, Logged, RecordsOk, RecordOk;
    var p := s.processes[id];
    HistoryOf(s, orphans, phase, id);
    if p.state == Running && id !in orphans {
      HostIsUp(s, orphans, phase, id);
      ReleaseExact(s, orphans, phase, id);
    }
    FailedReplyExact(OffNode(s, orphans, id), id, p.nodeId);
  }

  lemma OffNodeKeeps(s: State, orphans: set<Id>, phase: Phase, id: Id)
    requires Inv(s, orphans, phase) && id in s.processes
    ensures var s1 := OffNode(s, orphans, id);
      && id in s1.processes
      && (Inv(s1, orphans, phase) || Inv(s1, orphans + {id}, phase))
      && (s.processes[id].state == Running && id !in orphans ==> Inv(s1, orphans + {id}, phase))
      && (s.processes[id].state != Running || id in orphans ==> s1 == s)
  {
    hide Inv, Release;
    if s.processes[id].state == Running && id !in orphans {
      ReleaseExact(s, orphans, phase, id);
    }
  }

  lemma TerminalFails(s: State, id: Id)
    requires id in s.processes
    ensures s.processes[id].state.IsTerminal() ==> FailProcessLocked(s, id) == Reply(s, InvalidStateTransition)
  {
    hide Release, FailedReply;
  }

  /** Nothing but node and process table differs, and the log has only grown. */
  lemma OffNodeFrame(s: State, orphans: set<Id>, id: Id)
    requires id in s.processes
    ensures SameButTables(s, OffNode(s, orphans, id)) && id in OffNode(s, orphans, id).processes
    ensures OffNode(s, orphans, id).processes
         == s.processes[id := OffNode(s, orphans, id).processes[id]]
    ensures var p, q := s.processes[id], OffNode(s, orphans, id).processes[id];
      q == p || q == p.(nodeId := NO_ID)
  {
    assert s.processes[id := s.processes[id]] == s.processes;
  }

  lemma FailureFrame(s: State, id: Id, node: Id)
    requires id in s.processes
    ensures var t := AfterFailure(s, id, node);
      && SameButTables(s, t) && t.nodes == s.nodes
      && t.processes == s.processes[id := FailedRecord(s.processes[id], s.tick)]
  {
  }

  /** `failProcessLocked` fails only on a terminal process, and then changes nothing. */
  lemma FailProcessExact(s: State, orphans: set<Id>, phase: Phase, id: Id)
    requires Inv(s, orphans, phase) && id in s.processes
    requires id in orphans ==> s.processes[id].nodeId == NO_ID
    ensures var r := FailProcessLocked(s, id);
      && (r.error == Nil <==> !s.processes[id].state.IsTerminal())
      && (r.error != Nil ==> r == Reply(s, InvalidStateTransition))
      && (r.error == Nil ==>
            && Inv(r.state, orphans - {id}, phase)
            && r.state.processes == s.processes[id := FailedRecord(s.processes[id], s.tick)]
            && r.state.nodes == OffNode(s, orphans, id).nodes
            && SameButTables(s, r.state))
  {
    hide Inv, Release, FailedReply, FailProcessLocked, ProcessState.IsTerminal, OffNode, AfterFailure;
    TerminalFails(s, id);
    if !s.processes[id].state.IsTerminal() {
      FailProcessForm(s, orphans, phase, id);
      OffNodeKeeps(s, orphans, phase, id);
      var s1 := OffNode(s, orphans, id);
      OffNodeFrame(s, orphans, id);
      FailureFrame(s1, id, s.processes[id].nodeId);
      if s.processes[id].state == Running && id !in orphans {
        FailureKeeps(s1, orphans + {id}, phase, id, s.processes[id].nodeId);
        assert orphans + {id} - {id} == orphans - {id};
      } else {
        FailureKeeps(s, orphans, phase, id, s.processes[id].nodeId);
      }
      assert s1.processes[id := FailedRecord(s1.processes[id], s.tick)]
          == s.processes[id := FailedRecord(s.processes[id], s.tick)];
    }
  }

  // ---------------------------------------------------------------- one node

  /** The processes of a node that went down, each failed once. */
  ghost function AllFailed(processes: map<Id, Process>, lost: set<Id>, tick: int): map<Id, Process> {
    map id | id in processes :: if id in lost then FailedRecord(processes[id], tick) else processes[id]
  }

  lemma ClearKeeps(s: State, orphans: set<Id>, phase: Phase, id: Id)
    requires Inv(s, orphans, phase) && id in orphans
    ensures id in s.processes
    ensures Inv(s.(processes := s.processes[id := s.processes[id].(nodeId := NO_ID)]), orphans, phase)
  {
    HistoryOf(s, orphans, phase, id);
    var p := s.processes[id].(nodeId := NO_ID);
    PlacedClear(s.nodes, s.processes, orphans, id);
    ViewTouch(s.processes, orphans, p);
    RecordsTouch(s.processes, Replay(s.events).interrupted, s.tick, phase, p);
  }

  lemma {:induction false} FailHostedExact(s: State, phase: Phase, ids: seq<Id>)
    requires Inv(s, Elements(ids), phase) && NoDuplicates(ids)
    ensures var r := FailHosted(s, ids);
      && r.error == Nil && Inv(r.state, {}, phase)
      && r.state.nodes == s.nodes && r.state.processes == AllFailed(s.processes, Elements(ids), s.tick)
      && SameButTables(s, r.state)
    decreases |ids|
  {
    hide Placed, Logged, RecordsOk, RecordOk, FailProcessLocked, FailedRecord, AllFailed, PlacedOk;
    if ids == [] {
      NobodyFailed(s.processes, s.tick);
      assert Elements(ids) == {};
    } else {
      var id, rest, orphans := ids[0], ids[1..], Elements(ids);
      assert id in orphans;
      ClearKeeps(s, orphans, phase, id);
      HistoryOf(s, orphans, phase, id);
      var s1 := s.(processes := s.processes[id := s.processes[id].(nodeId := NO_ID)]);
      FailProcessExact(s1, orphans, phase, id);
      var s2 := FailProcessLocked(s1, id).state;
      HeadAndRest(ids);
      FailHostedExact(s2, phase, rest);
      OneFailedFirst(s.processes, s.processes[id].(nodeId := NO_ID), id, Elements(rest), s.tick);
      assert s1.processes[id := FailedRecord(s1.processes[id], s.tick)]
          == s.processes[id := FailedRecord(s.processes[id].(nodeId := NO_ID), s.tick)];
    }
  }

  lemma NobodyFailed(processes: map<Id, Process>, tick: int)
    ensures AllFailed(processes, {}, tick) == processes
  {
  }

  /** Failing one process and then the rest is failing them all; whether its place was cleared first is the same. */
  lemma OneFailedFirst(processes: map<Id, Process>, p: Process, id: Id, rest: set<Id>, tick: int)
    requires id in processes && id !in rest && p == processes[id].(nodeId := NO_ID)
    ensures AllFailed(processes[id := FailedRecord(p, tick)], rest, tick) == AllFailed(processes, rest + {id}, tick)
  {
    assert FailedRecord(p, tick) == FailedRecord(processes[id], tick);
  }

  lemma HeadAndRest(ids: seq<Id>)
    requires ids != [] && NoDuplicates(ids)
    ensures NoDuplicates(ids[1..]) && Elements(ids) - {ids[0]} == Elements(ids[1..]) && ids[0] !in ids[1..]
    ensures Elements(ids) == Elements(ids[1..]) + {ids[0]}
  {
    assert forall x | x in ids :: x == ids[0] || x in ids[1..];
  }

  ghost function DownNode(n: Node): Node {
    n.(status := NodeFailed, cpuAllocated := 0, memoryAllocated := 0, running := [])
  }

  lemma MarkLogged(s: State, id: Id)
    requires Placed(s.nodes, s.processes, {}) && Logged(s, {}) && id in s.nodes
    ensures var s1 := MarkNodeFailed(s, s.nodes[id], id);
      && Logged(s1, set p | p in s.nodes[id].running)
      && Replay(s1.events).interrupted == Replay(s.events).interrupted
  {
    hide Placed;
    ViewNodeDown(s.nodes, s.processes, id);
    Emitted(s, NodeDown, NO_ID, id);
    assert MarkNodeFailed(s, s.nodes[id], id).events == Emit(s, NodeDown, NO_ID, id).events;
  }

  lemma MarkKeeps(s: State, phase: Phase, id: Id)
    requires Inv(s, {}, phase) && id in s.nodes
    ensures Inv(MarkNodeFailed(s, s.nodes[id], id), Elements(s.nodes[id].running), phase)
  {
    hide RecordOk, Placed;
    var lost := set p | p in s.nodes[id].running;
    assert lost == Elements(s.nodes[id].running);
    PlacedNodeDown(s.nodes, s.processes, id, DownNode(s.nodes[id]));
    MarkLogged(s, id);
  }

  /** `failNodeLocked` fails only on a node that is already down, and then changes nothing;
      otherwise the node ends empty and FAILED, and each process it listed has failed once. */
  lemma FailNodeExact(s: State, phase: Phase, id: Id)
    requires Inv(s, {}, phase) && id in s.nodes
    ensures var r := FailNodeLocked(s, id);
      && (r.error == Nil <==> s.nodes[id].status != NodeFailed)
      && (r.error != Nil ==> r == Reply(s, InvalidStateTransition))
      && (r.error == Nil ==>
            && Inv(r.state, {}, phase)
            && r.state.nodes == s.nodes[id := DownNode(s.nodes[id])]
            && r.state.processes == AllFailed(s.processes, Elements(s.nodes[id].running), s.tick)
            && SameButTables(s, r.state.(stats := s.stats))
            && r.state.stats == s.stats.(nodeFailures := s.stats.nodeFailures + 1))
  {
    hide Inv, FailHosted, MarkNodeFailed;
    if s.nodes[id].status != NodeFailed {
      var n := s.nodes[id];
      MarkKeeps(s, phase, id);
      MarkFields(s, id);
      var ids := SortedIds(Elements(n.running));
      FailHostedExact(MarkNodeFailed(s, n, id), phase, ids);
    }
  }

  lemma MarkFields(s: State, id: Id)
    requires id in s.nodes
    ensures var t := MarkNodeFailed(s, s.nodes[id], id);
      && t.nodes == s.nodes[id := DownNode(s.nodes[id])] && t.processes == s.processes
      && t == s.(nodes := t.nodes, events := t.events, sequence := t.sequence, stats := t.stats)
      && t.stats == s.stats.(nodeFailures := s.stats.nodeFailures + 1) && s.events <= t.events
  {
  }
}
