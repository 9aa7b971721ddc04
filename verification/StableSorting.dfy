/** Due submissions are taken in the order of their names, and those of one name in the order in which they
    were scheduled: what any stable sort gives. */
module StableSorting {
  import opened Domain
  import opened Cluster

  ghost predicate ByName(q: seq<ProcessDefinition>) {
    forall i, j | 0 <= i < j < |q| :: q[i].id <= q[j].id
  }

  /** The definitions with this name, in their order. */
  function WithName(q: seq<ProcessDefinition>, id: Id): seq<ProcessDefinition> {
    if q == [] then []
    else
      var front, last := q[..|q| - 1], q[|q| - 1];
      WithName(front, id) + if last.id == id then [last] else []
  }

  /** r is q in the order of names: the same definitions as often, and equal names in their old order. */
  ghost predicate StablySorted(q: seq<ProcessDefinition>, r: seq<ProcessDefinition>) {
    && ByName(r)
    && multiset(r) == multiset(q)
    && forall id :: WithName(r, id) == WithName(q, id)
  }

  lemma WithNameLast(q: seq<ProcessDefinition>, d: ProcessDefinition, id: Id)
    ensures WithName(q + [d], id) == WithName(q, id) + if d.id == id then [d] else []
  {
    assert (q + [d])[..|q|] == q;
  }

  lemma LastOf(q: seq<ProcessDefinition>)
    requires q != []
    ensures q == q[..|q| - 1] + [q[|q| - 1]]
    ensures multiset(q) == multiset(q[..|q| - 1]) + multiset{q[|q| - 1]}
  {
    assert q == q[..|q| - 1] + [q[|q| - 1]];
  }

  lemma ByNameLast(q: seq<ProcessDefinition>, d: ProcessDefinition)
    requires ByName(q) && forall x | x in q :: x.id <= d.id
    ensures ByName(q + [d])
  {
  }

  lemma FrontsByName(q: seq<ProcessDefinition>)
    requires q != [] && ByName(q)
    ensures ByName(q[..|q| - 1])
    ensures forall x | x in q :: x.id <= q[|q| - 1].id
  {
  }

  lemma InsertForm(d: ProcessDefinition, q: seq<ProcessDefinition>)
    ensures q == [] ==> InsertDefinition(d, q) == [d]
    ensures q != [] ==> var front, last := q[..|q| - 1], q[|q| - 1];
      InsertDefinition(d, q) == if d.id < last.id then InsertDefinition(d, front) + [last] else q + [d]
  {
  }

  lemma {:induction false} InsertSorts(d: ProcessDefinition, q: seq<ProcessDefinition>)
    requires ByName(q)
    ensures ByName(InsertDefinition(d, q))
    ensures multiset(InsertDefinition(d, q)) == multiset(q) + multiset{d}
    decreases |q|
  {
    hide ByName, InsertDefinition;
    InsertForm(d, q);
    if q == [] {
      OneByName(d);
    } else {
      var front, last := q[..|q| - 1], q[|q| - 1];
      LastOf(q);
      FrontsByName(q);
      if d.id < last.id {
        InsertSorts(d, front);
        var r := InsertDefinition(d, front);
        forall x | x in r ensures x.id <= last.id {
          assert x in multiset(r);
          assert x in multiset(front) || x == d;
        }
        ByNameLast(r, last);
      } else {
        ByNameLast(q, d);
      }
    }
  }

  lemma OneByName(d: ProcessDefinition)
    ensures ByName([d])
  {
  }

  /** An insertion goes behind everything of the same name. */
  lemma {:induction false} InsertIsStable(d: ProcessDefinition, q: seq<ProcessDefinition>, id: Id)
    ensures WithName(InsertDefinition(d, q), id) == WithName(q + [d], id)
    decreases |q|
  {
    hide WithName, InsertDefinition;
    InsertForm(d, q);
    if q == [] {
      assert q + [d] == [d];
    } else {
      var front, last := q[..|q| - 1], q[|q| - 1];
      LastOf(q);
      WithNameLast(q, d, id);
      if d.id < last.id {
        InsertIsStable(d, front, id);
        WithNameLast(InsertDefinition(d, front), last, id);
        WithNameLast(front, d, id);
        WithNameLast(front, last, id);
      }
    }
  }

  /** Due submissions are stably sorted by name. */
  lemma {:induction false} SortIsStable(q: seq<ProcessDefinition>)
    ensures StablySorted(q, SortDefinitions(q))
    decreases |q|
  {
    hide InsertDefinition;
    if q != [] {
      var front, last := q[..|q| - 1], q[|q| - 1];
      var r := SortDefinitions(front);
      SortIsStable(front);
      LastOf(q);
      InsertSorts(last, r);
      forall id ensures WithName(SortDefinitions(q), id) == WithName(q, id) {
        InsertIsStable(last, r, id);
        WithNameLast(r, last, id);
        WithNameLast(front, last, id);
      }
    }
  }

  lemma LastHasGreatestName(q: seq<ProcessDefinition>, r: seq<ProcessDefinition>)
    requires q != [] && r != [] && ByName(q) && ByName(r) && multiset(q) == multiset(r)
    ensures q[|q| - 1].id == r[|r| - 1].id
  {
    var x, y := q[|q| - 1], r[|r| - 1];
    assert x in multiset(q) && y in multiset(r);
    assert x in r && y in q;
  }

  lemma LastsAgree(a: seq<ProcessDefinition>, x: ProcessDefinition, b: seq<ProcessDefinition>, y: ProcessDefinition)
    requires a + [x] == b + [y]
    ensures a == b && x == y
  {
    assert |a + [x]| == |a| + 1 && |b + [y]| == |b| + 1;
    assert (a + [x])[|a|] == x && (b + [y])[|b|] == y;
    assert a == (a + [x])[..|a|] && b == (b + [y])[..|b|];
  }

  /** Those three facts leave no choice: there is only one stable order. */
  lemma {:induction false} StableOrderIsUnique(q: seq<ProcessDefinition>, r: seq<ProcessDefinition>)
    requires ByName(q) && ByName(r) && multiset(q) == multiset(r)
    requires forall id :: WithName(q, id) == WithName(r, id)
    ensures q == r
    decreases |q|
  {
    hide ByName, WithName;
    assert |q| == |multiset(q)| && |r| == |multiset(r)|;
    if q != [] {
      var a, x, b, y := q[..|q| - 1], q[|q| - 1], r[..|r| - 1], r[|r| - 1];
      LastHasGreatestName(q, r);
      LastOf(q);
      LastOf(r);
      forall id ensures WithName(a, id) == WithName(b, id) && (id == x.id ==> x == y) {
        assert WithName(q, id) == WithName(r, id);
        WithNameLast(a, x, id);
        WithNameLast(b, y, id);
        if id == x.id {
          LastsAgree(WithName(a, id), x, WithName(b, id), y);
        } else {
          assert WithName(a, id) + [] == WithName(a, id) && WithName(b, id) + [] == WithName(b, id);
        }
      }
      assert x == y by { assert WithName(a, x.id) == WithName(b, x.id); }
      FrontsByName(q);
      FrontsByName(r);
      assert multiset(a) == multiset(q) - multiset{x} && multiset(b) == multiset(r) - multiset{y};
      StableOrderIsUnique(a, b);
    }
  }

  /** So a sequence is the order in which due submissions are taken if and only if it is stably sorted. */
  lemma SortedExactly(q: seq<ProcessDefinition>, r: seq<ProcessDefinition>)
    ensures StablySorted(q, r) <==> r == SortDefinitions(q)
  {
    hide SortDefinitions;
    SortIsStable(q);
    if StablySorted(q, r) {
      StableOrderIsUnique(r, SortDefinitions(q));
    }
  }
}
