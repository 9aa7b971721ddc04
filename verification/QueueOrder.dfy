/** The order of the ready queue, policy by policy, and what it means for who is placed. */
module QueueOrder {
  import opened Domain
  import opened Schedulers
  import opened Cluster
  import opened Invariants
  import opened Scheduling

  /** Who was submitted first, names deciding among those of one tick. */
  predicate Earlier(a: Process, b: Process) {
    a.submittedAt < b.submittedAt || (a.submittedAt == b.submittedAt && a.id < b.id)
  }

  /** The priority a process has gained by waiting: one for every whole interval. */
  function Raised(aging: pos, p: Process, tick: int): int {
    p.priority + (if tick <= p.lastReadyAt then 0 else (tick - p.lastReadyAt) / aging)
  }

  /** Round Robin and Least Loaded take the queue as it was submitted; Priority-Aware takes the highest raised
      priority first, and equal ones as they were submitted. */
  lemma QueueOrderIs(policy: Policy, tick: int, a: Process, b: Process)
    ensures Precedes(policy, tick, a, b) <==>
      match policy
      case PriorityAware(aging) =>
        || Raised(aging, a, tick) > Raised(aging, b, tick)
        || (Raised(aging, a, tick) == Raised(aging, b, tick) && Earlier(a, b))
      case _ => Earlier(a, b)
  {
  }

  /** First come, first served, under Round Robin and Least Loaded: of two waiting processes the one submitted
      earlier is placed if the other is, unless it asks for more. */
  lemma FirstComeFirstServed(s: State, p: Id, q: Id)
    requires Inv(s, {}, MID) && !s.policy.PriorityAware? && p in s.processes && q in s.processes
    requires s.processes[p].state == Ready && s.processes[q].state == Ready
    requires Earlier(s.processes[p], s.processes[q]) && NoLarger(s.processes[p], s.processes[q])
    ensures p in ScheduleReady(s).processes && q in ScheduleReady(s).processes
    ensures ScheduleReady(s).processes[q].state == Running ==> ScheduleReady(s).processes[p].state == Running
  {
    hide Inv, ScheduleReady, NoLarger, Precedes, Earlier;
    QueueOrderIs(s.policy, s.tick, s.processes[p], s.processes[q]);
    NoLargerJobOvertakes(s, p, q);
  }

  /** Under Priority-Aware, of two processes that became ready together the one of higher priority, or the one
      submitted earlier if priorities are equal, is placed if the other is, unless it asks for more. */
  lemma HigherPriorityFirst(s: State, p: Id, q: Id)
    requires Inv(s, {}, MID) && s.policy.PriorityAware? && p in s.processes && q in s.processes
    requires s.processes[p].state == Ready && s.processes[q].state == Ready
    requires s.processes[p].lastReadyAt == s.processes[q].lastReadyAt
    requires s.processes[p].priority > s.processes[q].priority
             || (s.processes[p].priority == s.processes[q].priority && Earlier(s.processes[p], s.processes[q]))
    requires NoLarger(s.processes[p], s.processes[q])
    ensures p in ScheduleReady(s).processes && q in ScheduleReady(s).processes
    ensures ScheduleReady(s).processes[q].state == Running ==> ScheduleReady(s).processes[p].state == Running
  {
    hide Inv, ScheduleReady, NoLarger, Precedes, Earlier;
    QueueOrderIs(s.policy, s.tick, s.processes[p], s.processes[q]);
    NoLargerJobOvertakes(s, p, q);
  }
}
