/** Round Robin is fair: its cursor starves no node that keeps fitting. */
module Fairness {
  import opened Domain
  import opened Arithmetic
  import opened Ordering
  import opened Schedulers

  // ---------------------------------------------------------------- places on a cycle

  /** Quotients from products: how a bound on n * t becomes a bound on t. */
  lemma QuotientBounds(i: nat, n: pos, t: nat)
    requires i - n < n * t < i + n
    ensures i / n <= t <= (i + n - 1) / n
  {
    QuotientAtMost(i, n, t);
    QuotientAtLeast(i + n - 1, n, t);
  }

  lemma QuotientAtMost(i: nat, n: pos, t: nat)
    requires i < n * t + n
    ensures i / n <= t
  {
    DivMod(i, n);
    if i / n > t { MulMono(t + 1, i / n, n); }
  }

  lemma QuotientAtLeast(i: nat, n: pos, t: nat)
    requires n * t <= i
    ensures t <= i / n
  {
    DivMod(i, n);
    if t > i / n { MulMono(i / n + 1, t, n); }
  }

  /** The next place on a cycle of n. */
  function Next(n: pos, x: nat): (y: nat)
    requires x < n
    ensures y < n && y == (x + 1) % n
  {
    var y := if x + 1 == n then 0 else x + 1;
    assert y == (x + 1) % n by {
      if x + 1 == n { ModWrap(n, n); } else { ModSmall(x + 1, n); }
    }
    y
  }

  /** The place `e` places after `x`. */
  lemma PlaceAfter(n: pos, x: nat, e: nat)
    requires x < n && e < n
    ensures (x + e) % n == if x + e < n then x + e else x + e - n
  {
    if x + e < n { ModSmall(x + e, n); } else { ModWrap(x + e, n); }
  }

  // ---------------------------------------------------------------- one selection, by position

  ghost function Names(nodes: set<NodeSnapshot>): set<Id> {
    set n | n in nodes :: n.id
  }

  ghost function IdsOf(ordered: seq<NodeSnapshot>): seq<Id> {
    seq(|ordered|, i requires 0 <= i < |ordered| => ordered[i].id)
  }

  /** However loaded the nodes are, the scheduler sees them in the order of their names. */
  lemma OrderOfNames(nodes: set<NodeSnapshot>)
    requires DistinctIds(nodes)
    ensures IdsOf(Arrange(nodes, ByNodeId())) == SortedIds(Names(nodes))
    ensures Elements(Arrange(nodes, ByNodeId())) == nodes
  {
    hide Arrange, StrictTotalOn, Names;
    ByNodeIdIsTotal(nodes);
    ArrangeSorts(nodes, ByNodeId());
    var ordered := Arrange(nodes, ByNodeId());
    var ids := IdsOf(ordered);
    assert forall i, j | 0 <= i < j < |ordered| :: ByNodeId()(ordered[i], ordered[j]);
    IdsListNames(nodes, ordered);
    assert Elements(ids) == Names(nodes);
    ByIdIsTotal(Names(nodes));
    ArrangeIsUnique(ids, Names(nodes), ById());
  }

  lemma IdsListNames(nodes: set<NodeSnapshot>, ordered: seq<NodeSnapshot>)
    requires Elements(ordered) == nodes
    ensures forall x :: x in IdsOf(ordered) <==> x in Names(nodes)
  {
    var ids := IdsOf(ordered);
    forall x ensures x in ids <==> x in Names(nodes) {
      if x in ids {
        var i :| 0 <= i < |ids| && ids[i] == x;
        assert ordered[i] in Elements(ordered);
      }
      if x in Names(nodes) {
        var n :| n in nodes && n.id == x;
        assert n in Elements(ordered);
        var i :| 0 <= i < |ordered| && ordered[i] == n;
        assert ids[i] == x;
      }
    }
  }

  /** Of two cyclic offsets below n, the smaller one comes first in the scan. */
  lemma {:induction false} ScanStopsBy(p: Process, ordered: seq<NodeSnapshot>, start: nat, offset: nat, d: nat)
      returns (e: nat)
    requires start < |ordered| && offset <= d < |ordered| && ordered[(start + d) % |ordered|].CanFit(p)
    ensures offset <= e <= d && CyclicScan(p, ordered, start, offset) == Some((start + e) % |ordered|)
    decreases d - offset
  {
    if ordered[(start + offset) % |ordered|].CanFit(p) {
      e := offset;
    } else {
      e := ScanStopsBy(p, ordered, start, offset + 1, d);
    }
  }

  /** Scanning from the cursor stops at k, or short of it; then the next cursor is closer to k. */
  lemma StopShort(n: pos, start: nat, k: nat, e: nat)
    requires start < n && k < n && e <= CyclicDistance(n, start, k)
    ensures var i := (start + e) % n;
      if e == CyclicDistance(n, start, k) then i == k
      else CyclicDistance(n, Next(n, i), k) < CyclicDistance(n, start, k)
  {
    PlaceAfter(n, start, e);
  }

  /** One selection while node k fits: k itself is chosen, or the cursor comes closer to it. */
  lemma SelectionApproaches(p: Process, ordered: seq<NodeSnapshot>, cursor: nat, k: nat)
    requires k < |ordered| && ordered[k].CanFit(p)
    ensures var pick := RoundRobinPick(p, ordered, cursor);
      && pick.Some?
      && (pick.value != k ==>
            CyclicDistance(|ordered|, Next(|ordered|, pick.value), k)
              < CyclicDistance(|ordered|, cursor % |ordered|, k))
  {
    hide Next, CyclicDistance, CyclicScan, NodeSnapshot.CanFit;
    var n: pos := |ordered|;
    DivMod(cursor, n);
    var start := cursor % n;
    var e := ScanStopsBy(p, ordered, start, 0, CyclicDistance(n, start, k));
    StopShort(n, start, k, e);
  }

  // ---------------------------------------------------------------- many selections

  /** A placement request, with the nodes as they are at that moment. */
  datatype Round = Round(process: Process, nodes: set<NodeSnapshot>)

  ghost predicate SameNodes(rounds: seq<Round>, names: set<Id>) {
    forall i | 0 <= i < |rounds| :: DistinctIds(rounds[i].nodes) && Names(rounds[i].nodes) == names
  }

  ghost predicate FitsIn(r: Round, id: Id) {
    exists n | n in r.nodes :: n.id == id && n.CanFit(r.process)
  }

  /** The scheduler after a number of rounds. */
  ghost function After(policy: Policy, rounds: seq<Round>): Policy {
    if rounds == [] then policy
    else
      var last := rounds[|rounds| - 1];
      Select(After(policy, rounds[..|rounds| - 1]), last.process, last.nodes).1
  }

  /** The node chosen in round i. */
  ghost function Choice(policy: Policy, rounds: seq<Round>, i: nat): Option<Id>
    requires i < |rounds|
  {
    Select(After(policy, rounds[..i]), rounds[i].process, rounds[i].nodes).0
  }

  /** The position of a name among the names, in order. */
  ghost function Position(names: set<Id>, id: Id): (k: nat)
    requires id in names
    ensures k < |names| && SortedIds(names)[k] == id
  {
    var k :| 0 <= k < |SortedIds(names)| && SortedIds(names)[k] == id;
    k
  }

  lemma PositionIsUnique(names: set<Id>, k: nat)
    requires k < |names|
    ensures SortedIds(names)[k] in names && Position(names, SortedIds(names)[k]) == k
  {
    assert SortedIds(names)[k] in SortedIds(names);
  }

  lemma FittingPosition(r: Round, id: Id)
    requires DistinctIds(r.nodes) && FitsIn(r, id)
    ensures id in Names(r.nodes)
    ensures var ordered := Arrange(r.nodes, ByNodeId());
      |ordered| == |Names(r.nodes)| && ordered[Position(Names(r.nodes), id)].CanFit(r.process)
  {
    OrderOfNames(r.nodes);
    var ordered := Arrange(r.nodes, ByNodeId());
    var n :| n in r.nodes && n.id == id && n.CanFit(r.process);
    assert n in Elements(ordered);
    var i :| 0 <= i < |ordered| && ordered[i] == n;
    assert IdsOf(ordered)[i] == id && |IdsOf(ordered)| == |ordered|;
    PositionIsUnique(Names(r.nodes), i);
  }

  /** How far the cursor is from a node. */
  ghost function Gap(policy: Policy, names: set<Id>, id: Id): (d: nat)
    requires policy.RoundRobin? && id in names
    ensures d < |names|
  {
    DivMod(policy.cursor, |names|);
    CyclicDistance(|names|, policy.cursor % |names|, Position(names, id))
  }

  /** In a round in which a node fits, it is chosen or the gap to it gets smaller. */
  lemma RoundApproaches(policy: Policy, r: Round, id: Id)
    requires policy.RoundRobin? && DistinctIds(r.nodes) && FitsIn(r, id)
    ensures id in Names(r.nodes)
    ensures var (choice, next) := Select(policy, r.process, r.nodes);
      && choice.Some? && next.RoundRobin?
      && (choice != Some(id) ==> Gap(next, Names(r.nodes), id) < Gap(policy, Names(r.nodes), id))
  {
    hide CyclicDistance, NodeSnapshot.CanFit, Arrange, Next, FitsIn, RoundRobinPick, Names;
    FittingPosition(r, id);
    OrderOfNames(r.nodes);
    var ordered := Arrange(r.nodes, ByNodeId());
    var k := Position(Names(r.nodes), id);
    SelectionApproaches(r.process, ordered, policy.cursor, k);
    var pick := RoundRobinPick(r.process, ordered, policy.cursor).value;
    assert IdsOf(ordered)[pick] == ordered[pick].id;
    PositionIsUnique(Names(r.nodes), pick);
    if pick == k {
      assert ordered[pick].id == id;
    }
    ModSmall(Next(|ordered|, pick), |ordered|);
  }

  lemma ScanDistance(p: Process, ordered: seq<NodeSnapshot>, cursor: nat, k: nat)
    requires k < |ordered| && ordered[k].CanFit(p)
    ensures var n, pick := |ordered|, RoundRobinPick(p, ordered, cursor);
      pick.Some? && CyclicDistance(n, cursor % n, pick.value) <= CyclicDistance(n, cursor % n, k)
  {
    hide Next, CyclicDistance, CyclicScan, NodeSnapshot.CanFit;
    var n: pos := |ordered|;
    DivMod(cursor, n);
    var start := cursor % n;
    var e := ScanStopsBy(p, ordered, start, 0, CyclicDistance(n, start, k));
    DistanceAfter(n, start, e);
  }

  lemma DistanceAfter(n: pos, start: nat, e: nat)
    requires start < n && e < n
    ensures (start + e) % n < n && CyclicDistance(n, start, (start + e) % n) == e
  {
    PlaceAfter(n, start, e);
  }

  /** The next node in the order of names, cyclically from the cursor, that fits; then the cursor is behind it. */
  lemma RoundRobinResult(policy: Policy, r: Round)
    requires policy.RoundRobin? && DistinctIds(r.nodes)
    ensures var (choice, next) := Select(policy, r.process, r.nodes);
      var names := Names(r.nodes);
      && (choice.None? ==> next == policy && forall n | n in r.nodes :: !n.CanFit(r.process))
      && (choice.Some? ==>
            && choice.value in names && FitsIn(r, choice.value)
            && next == RoundRobin((Position(names, choice.value) + 1) % |names|)
            && forall m | m in r.nodes && m.CanFit(r.process) ::
                 Gap(policy, names, choice.value) <= Gap(policy, names, m.id))
  {
    hide CyclicDistance, NodeSnapshot.CanFit, Arrange, RoundRobinPick, Names;
    SelectIsExact(policy, r.process, r.nodes);
    OrderOfNames(r.nodes);
    var ordered, names := Arrange(r.nodes, ByNodeId()), Names(r.nodes);
    if Select(policy, r.process, r.nodes).0.Some? {
      var pick := RoundRobinPick(r.process, ordered, policy.cursor).value;
      assert IdsOf(ordered)[pick] == ordered[pick].id;
      assert ordered[pick] in Elements(ordered);
      PositionIsUnique(names, pick);
      forall m | m in r.nodes && m.CanFit(r.process)
        ensures m.id in names
        ensures Gap(policy, names, ordered[pick].id) <= Gap(policy, names, m.id)
      {
        assert FitsIn(r, m.id);
        FittingPosition(r, m.id);
        ScanDistance(r.process, ordered, policy.cursor, Position(names, m.id));
      }
    }
  }

  lemma {:induction false} StillWaiting(policy: Policy, rounds: seq<Round>, names: set<Id>, id: Id)
    requires policy.RoundRobin? && SameNodes(rounds, names) && id in names
    requires forall i | 0 <= i < |rounds| :: FitsIn(rounds[i], id)
    requires forall i | 0 <= i < |rounds| :: Choice(policy, rounds, i) != Some(id)
    ensures After(policy, rounds).RoundRobin?
    ensures |rounds| <= Gap(policy, names, id) - Gap(After(policy, rounds), names, id)
  {
    hide Select, FitsIn, Gap;
    if rounds != [] {
      var front := rounds[..|rounds| - 1];
      var last := rounds[|rounds| - 1];
      forall i | 0 <= i < |front| ensures Choice(policy, front, i) == Choice(policy, rounds, i) {
        assert front[..i] == rounds[..i];
      }
      StillWaiting(policy, front, names, id);
      RoundApproaches(After(policy, front), last, id);
      assert Choice(policy, rounds, |rounds| - 1) == Select(After(policy, front), last.process, last.nodes).0;
    }
  }

  /** No starvation: over a fixed set of n nodes, a node that fits in each of n consecutive rounds is
      chosen in one of them, whatever else fits and wherever the cursor starts. */
  lemma FittingNodeIsChosen(policy: Policy, rounds: seq<Round>, names: set<Id>, id: Id)
    requires policy.RoundRobin? && SameNodes(rounds, names) && id in names && |rounds| >= |names|
    requires forall i | 0 <= i < |rounds| :: FitsIn(rounds[i], id)
    ensures exists i | 0 <= i < |rounds| :: Choice(policy, rounds, i) == Some(id)
  {
    hide Select, FitsIn, CyclicDistance;
    if forall i | 0 <= i < |rounds| :: Choice(policy, rounds, i) != Some(id) {
      StillWaiting(policy, rounds, names, id);
    }
  }

  // ---------------------------------------------------------------- when every node always fits

  ghost predicate AllFit(r: Round) {
    r.nodes != {} && forall n | n in r.nodes :: n.CanFit(r.process)
  }

  /** The scan stops at once. */
  lemma FirstStop(p: Process, ordered: seq<NodeSnapshot>, cursor: nat)
    requires ordered != [] && forall i | 0 <= i < |ordered| :: ordered[i].CanFit(p)
    ensures RoundRobinPick(p, ordered, cursor) == Some(cursor % |ordered|)
  {
    DivMod(cursor, |ordered|);
    ModSmall(cursor % |ordered|, |ordered|);
  }

  /** With every node fitting, the scheduler goes to the node at the cursor and steps on. */
  lemma PlainRotation(policy: Policy, r: Round)
    requires policy.RoundRobin? && DistinctIds(r.nodes) && AllFit(r)
    ensures var n := |Names(r.nodes)|;
      && n > 0 && 0 <= policy.cursor % n < n
      && Select(policy, r.process, r.nodes)
        == (Some(SortedIds(Names(r.nodes))[policy.cursor % n]), Policy.RoundRobin(Next(n, policy.cursor % n)))
  {
    hide Arrange, NodeSnapshot.CanFit, RoundRobinPick, Names;
    OrderOfNames(r.nodes);
    var ordered := Arrange(r.nodes, ByNodeId());
    assert IdsOf(ordered) == SortedIds(Names(r.nodes)) && |IdsOf(ordered)| == |ordered|;
    assert ordered != [] by {
      var x :| x in r.nodes;
      assert x in Elements(ordered);
    }
    forall i | 0 <= i < |ordered| ensures ordered[i].CanFit(r.process) {
      assert ordered[i] in Elements(ordered);
    }
    DivMod(policy.cursor, |ordered|);
    FirstStop(r.process, ordered, policy.cursor);
    assert IdsOf(ordered)[policy.cursor % |ordered|] == ordered[policy.cursor % |ordered|].id;
  }

  /** In how many of the first k rounds a node was chosen. */
  ghost function TimesChosen(policy: Policy, rounds: seq<Round>, k: nat, id: Id): nat
    requires k <= |rounds|
  {
    if k == 0 then 0
    else TimesChosen(policy, rounds, k - 1, id) + if Choice(policy, rounds, k - 1) == Some(id) then 1 else 0
  }

  /** A round in which all fit brings the cursor one place closer to a node, or starts a new lap. */
  lemma RotationStep(policy: Policy, r: Round, id: Id)
    requires policy.RoundRobin? && DistinctIds(r.nodes) && AllFit(r) && id in Names(r.nodes)
    ensures var names := Names(r.nodes);
      var (choice, next) := Select(policy, r.process, r.nodes);
      && next.RoundRobin?
      && (choice == Some(id) <==> Gap(policy, names, id) == 0)
      && Gap(next, names, id) == if Gap(policy, names, id) == 0 then |names| - 1 else Gap(policy, names, id) - 1
  {
    hide Select, AllFit, Names, DistinctIds;
    PlainRotation(policy, r);
    var names := Names(r.nodes);
    var n: pos := |names|;
    var at := policy.cursor % n;
    PositionIsUnique(names, at);
    ModSmall(Next(n, at), n);
  }

  lemma OneTurnMore(n: int, t: int)
    ensures n * (t + 1) == n * t + n && n * (t + 0) == n * t
  {
  }

  /** Laps: n times the number of turns, plus the way still to go, counts the rounds. */
  lemma {:induction false} TurnsExact(policy: Policy, rounds: seq<Round>, names: set<Id>, id: Id, k: nat)
    requires policy.RoundRobin? && SameNodes(rounds, names) && id in names && k <= |rounds|
    requires forall i | 0 <= i < |rounds| :: AllFit(rounds[i])
    ensures After(policy, rounds[..k]).RoundRobin?
    ensures |names| * TimesChosen(policy, rounds, k, id)
         == k + Gap(After(policy, rounds[..k]), names, id) - Gap(policy, names, id)
  {
    hide Select, AllFit, Gap, Names, DistinctIds;
    if k > 0 {
      TurnsExact(policy, rounds, names, id, k - 1);
      assert rounds[..k][..k - 1] == rounds[..k - 1] && rounds[..k][k - 1] == rounds[k - 1];
      var before := After(policy, rounds[..k - 1]);
      RotationStep(before, rounds[k - 1], id);
      assert Names(rounds[k - 1].nodes) == names;
      OneTurnMore(|names|, TimesChosen(policy, rounds, k - 1, id));
    } else {
      assert rounds[..0] == [];
    }
  }

  /** Equal shares: if every node fits in every round, then after k rounds over n nodes each node has
      been chosen k/n times, rounded down or up. */
  lemma EqualShares(policy: Policy, rounds: seq<Round>, names: set<Id>, id: Id, k: nat)
    requires policy.RoundRobin? && SameNodes(rounds, names) && id in names && k <= |rounds|
    requires forall i | 0 <= i < |rounds| :: AllFit(rounds[i])
    ensures |names| > 0
    ensures k / |names| <= TimesChosen(policy, rounds, k, id) <= (k + |names| - 1) / |names|
  {
    hide Select, AllFit, Gap;
    TurnsExact(policy, rounds, names, id, k);
    QuotientBounds(k, |names|, TimesChosen(policy, rounds, k, id));
  }
}
