/** Aging under the Priority-Aware policy: exactly when one waiting process stays ahead of another, and
    what that guarantees. */
module Aging {
  import opened Domain
  import opened Arithmetic
  import opened Schedulers
  import opened Cluster
  import opened Placement
  import opened EventLog
  import opened Invariants
  import opened Scheduling
  import opened Tick
  import opened Progress

  // ---------------------------------------------------------------- floors

  lemma QuotientIs(x: int, a: pos, q: int)
    requires q * a <= x < q * a + a
    ensures x / a == q
  {
    DivMod(x, a);
    if x / a < q { MulMono(x / a + 1, q, a); }
    if x / a > q { MulMono(q + 1, x / a, a); }
  }

  /** A head start of g is worth at least g/a, rounded down, at any later time. */
  lemma HeadStart(x: int, g: int, a: pos)
    ensures (x + g) / a >= x / a + g / a
  {
    DivMod(x, a);
    DivMod(g, a);
    DivMod(x + g, a);
    var q := x / a + g / a;
    assert q * a == (x / a) * a + (g / a) * a;
    if (x + g) / a < q { MulMono((x + g) / a + 1, q, a); }
  }

  /** And exactly that at multiples of a. */
  lemma HeadStartIsTight(m: int, g: int, a: pos)
    ensures (m * a + g) / a == m + g / a && (m * a) / a == m
  {
    DivMod(g, a);
    assert (m + g / a) * a == m * a + (g / a) * a;
    QuotientIs(m * a + g, a, m + g / a);
    QuotientIs(m * a, a, m);
  }

  lemma FloorAtLeast(g: int, a: pos, d: int)
    ensures g / a >= d <==> g >= a * d
  {
    DivMod(g, a);
    if g / a >= d { MulMono(d, g / a, a); }
    if g / a < d { MulMono(g / a + 1, d, a); }
  }

  // ---------------------------------------------------------------- who stays ahead

  /** p has waited long enough to make up for q's priority: by a whole interval more, or, if p also
      arrived first, exactly. */
  predicate StaysAhead(aging: pos, p: Process, q: Process) {
    var headStart := q.lastReadyAt - p.lastReadyAt;
    var handicap := q.priority - p.priority;
    headStart >= aging * (handicap + 1) || (headStart >= aging * handicap && ArrivedBefore(p, q))
  }

  lemma PriorityGap(aging: pos, p: Process, q: Process, tick: int)
    requires p.lastReadyAt <= tick && q.lastReadyAt <= tick
    ensures EffectivePriority(aging, p, tick) - EffectivePriority(aging, q, tick)
         == p.priority - q.priority + (tick - p.lastReadyAt) / aging - (tick - q.lastReadyAt) / aging
  {
  }

  /** At some ticks the head start counts for as little as it can. */
  lemma TightAt(aging: pos, p: Process, q: Process, m: nat)
    requires p.lastReadyAt <= q.lastReadyAt + m * aging
    ensures var t := q.lastReadyAt + m * aging;
      && q.lastReadyAt <= t
      && EffectivePriority(aging, p, t) - EffectivePriority(aging, q, t)
           == p.priority - q.priority + (q.lastReadyAt - p.lastReadyAt) / aging
  {
    hide EffectivePriority;
    var t := q.lastReadyAt + m * aging;
    var g := q.lastReadyAt - p.lastReadyAt;
    MulMono(0, m, aging);
    PriorityGap(aging, p, q, t);
    HeadStartIsTight(m, g, aging);
    assert t - p.lastReadyAt == m * aging + g && t - q.lastReadyAt == m * aging;
  }

  /** A process that does not stay ahead falls behind again and again. */
  lemma FallsBehindLater(aging: pos, p: Process, q: Process, from: int) returns (tick: int)
    requires !StaysAhead(aging, p, q)
    ensures from <= tick && p.lastReadyAt <= tick && q.lastReadyAt <= tick
    ensures !Precedes(Policy.PriorityAware(aging), tick, p, q)
  {
    hide EffectivePriority;
    var g, d := q.lastReadyAt - p.lastReadyAt, q.priority - p.priority;
    var far := if from < p.lastReadyAt then p.lastReadyAt else from;
    var m := if far <= q.lastReadyAt then 0 else far - q.lastReadyAt;
    MulMono(1, aging, if m > 0 then m else 1);
    assert m * aging >= m by { if m > 0 { MulMono(1, aging, m); } }
    tick := q.lastReadyAt + m * aging;
    TightAt(aging, p, q, m);
    FloorAtLeast(g, aging, d + 1);
    FloorAtLeast(g, aging, d);
  }

  /** While both wait, p comes before q at every tick if and only if `StaysAhead`. */
  lemma AgingIsExact(aging: pos, p: Process, q: Process)
    ensures StaysAhead(aging, p, q) <==>
      forall tick | p.lastReadyAt <= tick && q.lastReadyAt <= tick :: Precedes(Policy.PriorityAware(aging), tick, p, q)
  {
    hide EffectivePriority, ArrivedBefore;
    var g, d := q.lastReadyAt - p.lastReadyAt, q.priority - p.priority;
    FloorAtLeast(g, aging, d + 1);
    FloorAtLeast(g, aging, d);
    if StaysAhead(aging, p, q) {
      forall tick | p.lastReadyAt <= tick && q.lastReadyAt <= tick
        ensures Precedes(Policy.PriorityAware(aging), tick, p, q)
      {
        PriorityGap(aging, p, q, tick);
        HeadStart(tick - q.lastReadyAt, g, aging);
        assert tick - q.lastReadyAt + g == tick - p.lastReadyAt;
      }
    } else {
      var tick := FallsBehindLater(aging, p, q, p.lastReadyAt);
      assert !Precedes(Policy.PriorityAware(aging), tick, p, q);
    }
  }

  // ---------------------------------------------------------------- what follows for a tick

  /** No pass places q and leaves p waiting, if p stays ahead and asks for no more. */
  lemma AgedIsNotOvertaken(s: State, p: Id, q: Id)
    requires Inv(s, {}, MID) && s.policy.PriorityAware? && p in s.processes && q in s.processes
    requires s.processes[p].state == Ready && s.processes[q].state == Ready
    requires StaysAhead(s.policy.agingInterval, s.processes[p], s.processes[q])
    requires NoLarger(s.processes[p], s.processes[q])
    ensures p in ScheduleReady(s).processes && q in ScheduleReady(s).processes
    ensures ScheduleReady(s).processes[q].state == Running ==> ScheduleReady(s).processes[p].state == Running
  {
    hide Placed, Logged, ScheduleReady, StaysAhead, Precedes, NoLarger;
    AgingIsExact(s.policy.agingInterval, s.processes[p], s.processes[q]);
    HistoryOf(s, {}, MID, p);
    HistoryOf(s, {}, MID, q);
    NoLargerJobOvertakes(s, p, q);
  }

  /** The same over a whole tick: if q is running when the tick samples, so is p. */
  lemma TickDoesNotOvertake(s: State, p: Id, q: Id)
    requires Valid(s)
    requires var a := TrailOf(s).alive;
      && a.policy.PriorityAware? && p in a.processes && q in a.processes
      && a.processes[p].state == Ready && a.processes[q].state == Ready
      && StaysAhead(a.policy.agingInterval, a.processes[p], a.processes[q])
      && NoLarger(a.processes[p], a.processes[q])
    ensures var t := TrailOf(s).scheduled;
      && p in t.processes && q in t.processes
      && (t.processes[q].state == Running ==> t.processes[p].state == Running)
  {
    hide Inv, Valid, TrailOf, ScheduleReady, StaysAhead, NoLarger;
    TrailIsValid(s);
    TrailActs(s);
    AgedIsNotOvertaken(TrailOf(s).alive, p, q);
  }
}
