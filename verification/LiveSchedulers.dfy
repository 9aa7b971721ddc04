/** The scheduler objects of internal/scheduler. */
module LiveSchedulers {
  import opened Domain
  import opened Ordering
  import opened Schedulers
  import opened LoadOrder

  /** Candidates as the controller passes them: one snapshot per node. */
  ghost predicate Candidates(nodes: seq<NodeSnapshot>) {
    NoDuplicates(nodes) && DistinctIds(Elements(nodes))
  }

  class RoundRobin {
    var cursor: nat

    constructor ()
      ensures cursor == 0
    {
      cursor := 0;
    }

    /** A rotating first fit over the nodes in the order of their names. */
    method SelectNode(p: Process, nodes: seq<NodeSnapshot>) returns (choice: Option<Id>)
      requires Candidates(nodes)
      modifies this
      ensures (choice, Policy.RoundRobin(cursor)) == Select(Policy.RoundRobin(old(cursor)), p, Elements(nodes))
    {
      hide Arrange, StrictTotalOn, DistinctIds, NodeSnapshot.CanFit;
      ByNodeIdIsTotal(Elements(nodes));
      var ordered := Sort(nodes, ByNodeId());
      if |ordered| == 0 {
        return None;
      }
      var start := cursor % |ordered|;
      for offset := 0 to |ordered|
        invariant cursor == old(cursor)
        invariant CyclicScan(p, ordered, start, offset) == RoundRobinPick(p, ordered, old(cursor))
      {
        var index := (start + offset) % |ordered|;
        if ordered[index].CanFit(p) {
          cursor := (index + 1) % |ordered|;
          return Some(ordered[index].id);
        }
      }
      choice := None;
    }
  }

  class LeastLoaded {
    constructor () {}

    /** The least loaded node that fits, the first by name among equals. */
    method SelectNode(p: Process, nodes: seq<NodeSnapshot>) returns (choice: Option<Id>)
      requires Candidates(nodes)
      ensures choice == LightestFit(p, Elements(nodes))
      ensures choice.Some? ==> LeastLoadedFit(p, Elements(nodes), choice.value)
    {
      var selected: Option<Id> := None;
      var selectedScore := 0.0;
      ghost var best: Option<NodeSnapshot> := None;
      for k := 0 to |nodes|
        invariant best.None? ==> selected.None? && forall i | 0 <= i < k :: !nodes[i].CanFit(p)
        invariant best.Some? ==>
          && selected == Some(best.value.id) && selectedScore == LoadScore(best.value)
          && best.value in nodes && best.value.CanFit(p)
          && forall i | 0 <= i < k && nodes[i].CanFit(p) && nodes[i] != best.value :: LighterThan(best.value, nodes[i])
      {
        var node := nodes[k];
        if !node.CanFit(p) {
          continue;
        }
        var score := LoadScore(node);
        assert node in Elements(nodes);
        assert best.Some? ==> best.value in Elements(nodes);
        if selected.None? || score < selectedScore || (score == selectedScore && node.id < selected.value) {
          selected := Some(node.id);
          selectedScore := score;
          best := Some(node);
        }
      }
      if best.Some? {
        assert IsLightestFit(p, Elements(nodes), best.value);
        LightestFitIsUnique(p, Elements(nodes), best.value);
      } else {
        assert forall n :: !IsLightestFit(p, Elements(nodes), n);
      }
      choice := selected;
      if choice.Some? {
        LightestIsLeastLoaded(p, Elements(nodes));
      }
    }
  }

  class PriorityAware {
    const leastLoaded: LeastLoaded
    const agingInterval: pos

    constructor (agingInterval: int)
      ensures this.agingInterval == if agingInterval <= 0 then 5 else agingInterval
    {
      this.leastLoaded := new LeastLoaded();
      this.agingInterval := if agingInterval <= 0 then 5 else agingInterval;
    }

    method SelectNode(p: Process, nodes: seq<NodeSnapshot>) returns (choice: Option<Id>)
      requires Candidates(nodes)
      ensures choice == LightestFit(p, Elements(nodes))
      ensures choice.Some? ==> LeastLoadedFit(p, Elements(nodes), choice.value)
    {
      choice := leastLoaded.SelectNode(p, nodes);
    }

    /** Sorts the ready queue in place by effective priority, then arrival. */
    method OrderReady(processes: array<Process>, tick: int)
      requires DistinctProcesses(Elements(processes[..])) && NoDuplicates(processes[..])
      modifies processes
      ensures processes[..]
          == Arrange(Elements(old(processes[..])), ReadyOrder(Policy.PriorityAware(agingInterval), tick))
    {
      var less := ReadyOrder(Policy.PriorityAware(agingInterval), tick);
      ReadyOrderIsTotal(Policy.PriorityAware(agingInterval), tick, Elements(processes[..]));
      SortInPlace(processes, less);
    }
  }

  /** `sort.SliceStable` and `slices.SortStableFunc` on a slice without equal elements. */
  method SortInPlace<T(!new, ==)>(a: array<T>, less: (T, T) -> bool)
    requires StrictTotalOn(less, Elements(a[..])) && NoDuplicates(a[..])
    modifies a
    ensures a[..] == Arrange(Elements(old(a[..])), less)
  {
    hide Arrange, StrictTotalOn, Ascending;
    var sorted := Sort(a[..], less);
    ArrangeSorts(Elements(a[..]), less);
    DistinctSize(a[..]);
    forall i | 0 <= i < a.Length {
      a[i] := sorted[i];
    }
    assert a[..] == sorted;
  }

  lemma {:induction false} DistinctSize<T>(q: seq<T>)
    requires forall i, j | 0 <= i < j < |q| :: q[i] != q[j]
    ensures |Elements(q)| == |q|
  {
    if q != [] {
      var front := q[..|q| - 1];
      DistinctSize(front);
      assert q == front + [q[|q| - 1]];
      assert Elements(q) == Elements(front) + {q[|q| - 1]};
      assert q[|q| - 1] !in front;
    } else {
      assert Elements(q) == {};
    }
  }

  datatype Scheduler =
    | UsesRoundRobin(rr: RoundRobin)
    | UsesLeastLoaded(ll: LeastLoaded)
    | UsesPriority(pa: PriorityAware)
  {
    function Parts(): set<object> {
      if UsesRoundRobin? then {rr} else {}
    }

    function AsPolicy(): Policy
      reads Parts()
    {
      match this
      case UsesRoundRobin(r) => Policy.RoundRobin(r.cursor)
      case UsesLeastLoaded(_) => Policy.LeastLoaded
      case UsesPriority(p) => Policy.PriorityAware(p.agingInterval)
    }

    method SelectNode(p: Process, nodes: seq<NodeSnapshot>) returns (choice: Option<Id>)
      requires Candidates(nodes)
      modifies Parts()
      ensures (choice, AsPolicy()) == Select(old(AsPolicy()), p, Elements(nodes))
    {
      match this {
        case UsesRoundRobin(r) => choice := r.SelectNode(p, nodes);
        case UsesLeastLoaded(l) => choice := l.SelectNode(p, nodes);
        case UsesPriority(q) => choice := q.SelectNode(p, nodes);
      }
    }
  }

  /** `scheduler.New`. */
  method MakeScheduler(name: SchedulerName) returns (r: Option<Scheduler>)
    ensures r.Some? <==> NewScheduler(name).Some?
    ensures r.Some? ==> fresh(r.value.Parts()) && r.value.AsPolicy() == NewScheduler(name).value
  {
    match name
    case Blank => var rr := new RoundRobin(); r := Some(UsesRoundRobin(rr));
    case RoundRobinName => var rr := new RoundRobin(); r := Some(UsesRoundRobin(rr));
    case LeastLoadedName => var ll := new LeastLoaded(); r := Some(UsesLeastLoaded(ll));
    case PriorityAwareName => var pa := new PriorityAware(5); r := Some(UsesPriority(pa));
    case UnknownName => r := None;
  }

  /** The scheduler object that a freshly made policy describes. */
  method SchedulerFor(policy: Policy) returns (r: Scheduler)
    requires exists name :: NewScheduler(name) == Some(policy)
    ensures fresh(r.Parts()) && r.AsPolicy() == policy
  {
    match policy
    case RoundRobin(_) => var rr := new RoundRobin(); r := UsesRoundRobin(rr);
    case LeastLoaded => var ll := new LeastLoaded(); r := UsesLeastLoaded(ll);
    case PriorityAware(aging) => var pa := new PriorityAware(aging); r := UsesPriority(pa);
  }

  // ---------------------------------------------------------------- the ready queue

  function ArrivalOrder(): (Process, Process) -> bool {
    (a: Process, b: Process) => ArrivedBefore(a, b)
  }

  lemma ArrivalIsTotal(S: set<Process>)
    requires DistinctProcesses(S)
    ensures StrictTotalOn(ArrivalOrder(), S)
  {
    assert forall a: Process, b: Process :: ArrivalOrder()(a, b) <==> ArrivedBefore(a, b);
  }

  lemma ArrivalIsDistinct(q: seq<Process>)
    requires Ascending(ArrivalOrder(), q)
    ensures NoDuplicates(q)
  {
    assert forall i, j | 0 <= i < j < |q| :: ArrivalOrder()(q[i], q[j]);
  }

  /** Policies without an order of their own leave the queue in the order of arrival. */
  lemma ArrivalIsReadyOrder(q: seq<Process>, S: set<Process>, policy: Policy, tick: int)
    requires DistinctProcesses(S) && Elements(q) == S && Ascending(ArrivalOrder(), q) && !policy.PriorityAware?
    ensures q == Arrange(S, ReadyOrder(policy, tick))
  {
    ReadyOrderIsTotal(policy, tick, S);
    var less := ReadyOrder(policy, tick);
    forall i, j | 0 <= i < j < |q| ensures less(q[i], q[j]) {
      assert ArrivalOrder()(q[i], q[j]);
    }
    ArrangeIsUnique(q, S, less);
  }

  /** The queue in the order of arrival, then in the order of the policy if it has one of its own. */
  method OrderQueue(scheduler: Scheduler, ready: seq<Process>, tick: int) returns (queue: seq<Process>)
    requires NoDuplicates(ready) && DistinctProcesses(Elements(ready))
    ensures queue == Arrange(Elements(ready), ReadyOrder(scheduler.AsPolicy(), tick))
  {
    hide Arrange;
    var slice := new Process[|ready|](i requires 0 <= i < |ready| => ready[i]);
    assert slice[..] == ready;
    ghost var S := Elements(ready);
    ArrivalIsTotal(S);
    SortInPlace(slice, ArrivalOrder());
    ArrangeSorts(S, ArrivalOrder());
    ArrivalIsDistinct(slice[..]);
    if scheduler.UsesPriority? {
      scheduler.pa.OrderReady(slice, tick);
    } else {
      ArrivalIsReadyOrder(slice[..], S, scheduler.AsPolicy(), tick);
    }
    queue := slice[..];
  }
}
