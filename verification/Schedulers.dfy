/** internal/scheduler: what each policy chooses, as functions of the candidate nodes. */
module Schedulers {
  import opened Domain
  import opened Arithmetic
  import opened Ordering

  datatype SchedulerName = Blank | RoundRobinName | LeastLoadedName | PriorityAwareName | UnknownName

  datatype Policy = RoundRobin(cursor: nat) | LeastLoaded | PriorityAware(agingInterval: pos)

  /** `scheduler.New`: fresh policies start with cursor 0 and aging interval 5. */
  function NewScheduler(name: SchedulerName): Option<Policy> {
    match name
    case Blank => Some(RoundRobin(0))
    case RoundRobinName => Some(RoundRobin(0))
    case LeastLoadedName => Some(LeastLoaded)
    case PriorityAwareName => Some(PriorityAware(5))
    case UnknownName => None
  }

  // ---------------------------------------------------------------- least loaded

  function LoadScore(n: NodeSnapshot): real {
    0.5 * (n.cpuAllocated as real / n.cpuCapacity as real)
    + 0.5 * (n.memoryAllocated as real / n.memoryCapacity as real)
  }

  /** The order Least Loaded minimises: score first, identifier on a tie. */
  predicate LighterThan(a: NodeSnapshot, b: NodeSnapshot) {
    LoadScore(a) < LoadScore(b) || (LoadScore(a) == LoadScore(b) && a.id < b.id)
  }

  ghost predicate DistinctIds(nodes: set<NodeSnapshot>) {
    forall a, b | a in nodes && b in nodes && a != b :: a.id != b.id
  }

  ghost predicate Fits(p: Process, nodes: set<NodeSnapshot>) {
    exists n | n in nodes :: n.CanFit(p)
  }

  ghost predicate IsLightestFit(p: Process, nodes: set<NodeSnapshot>, n: NodeSnapshot) {
    && n in nodes && n.CanFit(p)
    && forall m | m in nodes && m.CanFit(p) && m != n :: LighterThan(n, m)
  }

  ghost function LightestFit(p: Process, nodes: set<NodeSnapshot>): (r: Option<Id>)
    ensures r.Some? <==> exists n :: IsLightestFit(p, nodes, n)
    ensures r.Some? ==> exists n :: IsLightestFit(p, nodes, n) && n.id == r.value
  {
    if exists n :: IsLightestFit(p, nodes, n) then
      var n :| IsLightestFit(p, nodes, n);
      Some(n.id)
    else None
  }

  // ---------------------------------------------------------------- round robin

  function ByNodeId(): (NodeSnapshot, NodeSnapshot) -> bool {
    (a: NodeSnapshot, b: NodeSnapshot) => a.id < b.id
  }

  /** The first index at or after `offset` places past `start`, cyclically, that fits. */
  function CyclicScan(p: Process, ordered: seq<NodeSnapshot>, start: nat, offset: nat): (r: Option<nat>)
    ensures r.Some? ==> r.value < |ordered| && ordered[r.value].CanFit(p)
    decreases |ordered| - offset
  {
    if offset >= |ordered| then None
    else
      var index := (start + offset) % |ordered|;
      if ordered[index].CanFit(p) then Some(index)
      else CyclicScan(p, ordered, start, offset + 1)
  }

  function RoundRobinPick(p: Process, ordered: seq<NodeSnapshot>, cursor: nat): (r: Option<nat>)
    ensures r.Some? ==> r.value < |ordered| && ordered[r.value].CanFit(p)
  {
    if ordered == [] then None else CyclicScan(p, ordered, cursor % |ordered|, 0)
  }

  // ---------------------------------------------------------------- any policy

  /** `SelectNode`: the chosen node, and the policy afterwards. */
  ghost function Select(policy: Policy, p: Process, nodes: set<NodeSnapshot>): (Option<Id>, Policy) {
    match policy
    case RoundRobin(cursor) =>
      var ordered := Arrange(nodes, ByNodeId());
      var pick := RoundRobinPick(p, ordered, cursor);
      (match pick
       case None => (None, policy)
       case Some(i) => (Some(ordered[i].id), RoundRobin((i + 1) % |ordered|)))
    case LeastLoaded => (LightestFit(p, nodes), policy)
    case PriorityAware(_) => (LightestFit(p, nodes), policy)
  }

  // ---------------------------------------------------------------- ordering the ready queue

  function EffectivePriority(aging: pos, p: Process, tick: int): int {
    var waited := if tick - p.lastReadyAt < 0 then 0 else tick - p.lastReadyAt;
    p.priority + waited / aging
  }

  predicate ArrivedBefore(a: Process, b: Process) {
    a.submittedAt < b.submittedAt || (a.submittedAt == b.submittedAt && a.id < b.id)
  }

  predicate Precedes(policy: Policy, tick: int, a: Process, b: Process) {
    match policy
    case PriorityAware(aging) =>
      var x, y := EffectivePriority(aging, a, tick), EffectivePriority(aging, b, tick);
      x > y || (x == y && ArrivedBefore(a, b))
    case _ => ArrivedBefore(a, b)
  }

  function ReadyOrder(policy: Policy, tick: int): (Process, Process) -> bool {
    (a: Process, b: Process) => Precedes(policy, tick, a, b)
  }

  ghost predicate DistinctProcesses(S: set<Process>) {
    forall a, b | a in S && b in S && a != b :: a.id != b.id
  }

  lemma ReadyOrderIsTotal(policy: Policy, tick: int, S: set<Process>)
    requires DistinctProcesses(S)
    ensures StrictTotalOn(ReadyOrder(policy, tick), S)
  {
    var less := ReadyOrder(policy, tick);
    assert forall a: Process, b: Process :: less(a, b) <==> Precedes(policy, tick, a, b);
  }

  lemma ByNodeIdIsTotal(nodes: set<NodeSnapshot>)
    requires DistinctIds(nodes)
    ensures StrictTotalOn(ByNodeId(), nodes)
  {
    var less := ByNodeId();
    assert forall a: NodeSnapshot, b: NodeSnapshot :: less(a, b) <==> a.id < b.id;
  }

  // ---------------------------------------------------------------- selection is sound and complete

  lemma {:induction false} LightestFitExists(p: Process, nodes: set<NodeSnapshot>) returns (n: NodeSnapshot)
    requires DistinctIds(nodes) && Fits(p, nodes)
    ensures IsLightestFit(p, nodes, n)
    decreases |nodes|
  {
    var x :| x in nodes && x.CanFit(p);
    var rest := nodes - {x};
    if Fits(p, rest) {
      var y := LightestFitExists(p, rest);
      n := if LighterThan(x, y) then x else y;
    } else {
      n := x;
    }
  }

  lemma LighterIsAsymmetric(a: NodeSnapshot, b: NodeSnapshot)
    requires LighterThan(a, b)
    ensures !LighterThan(b, a)
  {
  }

  lemma LightestFitIsUnique(p: Process, nodes: set<NodeSnapshot>, n: NodeSnapshot)
    requires IsLightestFit(p, nodes, n)
    ensures LightestFit(p, nodes) == Some(n.id)
  {
    assert n in nodes && n.CanFit(p);
    var id := LightestFit(p, nodes).value;
    var m :| IsLightestFit(p, nodes, m) && m.id == id;
    if m != n {
      assert m in nodes && m.CanFit(p);
      LighterIsAsymmetric(n, m);
    }
  }

  lemma {:induction false} ScanFindsFit(p: Process, ordered: seq<NodeSnapshot>, start: nat, offset: nat, d: nat)
    requires start < |ordered| && offset <= d < |ordered|
    requires ordered[(start + d) % |ordered|].CanFit(p)
    ensures CyclicScan(p, ordered, start, offset).Some?
    decreases d - offset
  {
    if offset < d && !ordered[(start + offset) % |ordered|].CanFit(p) {
      ScanFindsFit(p, ordered, start, offset + 1, d);
    }
  }

  /** How far `index` lies past `start` on a cycle of n places. */
  function CyclicDistance(n: pos, start: nat, index: nat): (d: nat)
    requires start < n && index < n
    ensures d < n
    ensures (start + d) % n == index
  {
    ModSmall(index, n);
    ModWrap(index + n, n);
    if start <= index then index - start else index + n - start
  }

  lemma RoundRobinFindsFit(p: Process, ordered: seq<NodeSnapshot>, cursor: nat, i: nat)
    requires i < |ordered| && ordered[i].CanFit(p)
    ensures RoundRobinPick(p, ordered, cursor).Some?
  {
    var start := cursor % |ordered|;
    ScanFindsFit(p, ordered, start, 0, CyclicDistance(|ordered|, start, i));
  }

  /** An error is returned exactly when no candidate fits, and a chosen node is a fitting candidate. */
  lemma SelectIsExact(policy: Policy, p: Process, nodes: set<NodeSnapshot>)
    requires DistinctIds(nodes)
    ensures Select(policy, p, nodes).0.Some? <==> Fits(p, nodes)
    ensures Select(policy, p, nodes).0.Some? ==>
      exists n | n in nodes :: n.CanFit(p) && n.id == Select(policy, p, nodes).0.value
  {
    if policy.RoundRobin? {
      var ordered := Arrange(nodes, ByNodeId());
      ByNodeIdIsTotal(nodes);
      ArrangeSorts(nodes, ByNodeId());
      var pick := RoundRobinPick(p, ordered, policy.cursor);
      if pick.Some? {
        assert ordered[pick.value] in Elements(ordered);
      }
      if Fits(p, nodes) {
        var n :| n in nodes && n.CanFit(p);
        assert n in Elements(ordered);
        var i :| 0 <= i < |ordered| && ordered[i] == n;
        RoundRobinFindsFit(p, ordered, policy.cursor, i);
      }
    } else {
      if Fits(p, nodes) {
        var n := LightestFitExists(p, nodes);
        LightestFitIsUnique(p, nodes, n);
      }
    }
  }
}
