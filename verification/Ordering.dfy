/** Enumerating a set in the order of a strict total order: what `sort.Slice` over keys
    collected from a map computes, whatever order the map was ranged over in. */
module Ordering {

  ghost predicate StrictTotalOn<T(!new)>(less: (T, T) -> bool, S: set<T>) {
    && (forall a | a in S :: !less(a, a))
    && (forall a, b | a in S && b in S && a != b :: less(a, b) || less(b, a))
    && (forall a, b, c | a in S && b in S && c in S && less(a, b) && less(b, c) :: less(a, c))
  }

  ghost predicate IsLeast<T(!new)>(less: (T, T) -> bool, S: set<T>, x: T) {
    x in S && forall y | y in S && y != x :: less(x, y)
  }

  ghost predicate Ascending<T(!new)>(less: (T, T) -> bool, q: seq<T>) {
    forall i, j | 0 <= i < j < |q| :: less(q[i], q[j])
  }

  ghost function Elements<T>(q: seq<T>): set<T> {
    set x | x in q
  }

  /** The elements of S, least first. */
  ghost function Arrange<T(!new)>(S: set<T>, less: (T, T) -> bool): (q: seq<T>)
    decreases |S|
  {
    if S == {} then []
    else
      var x := if exists m :: IsLeast(less, S, m) then (var m :| IsLeast(less, S, m); m)
               else (var m :| m in S; m);
      [x] + Arrange(S - {x}, less)
  }

  lemma {:induction false} LeastExists<T(!new)>(less: (T, T) -> bool, S: set<T>) returns (m: T)
    requires S != {} && StrictTotalOn(less, S)
    ensures IsLeast(less, S, m)
    decreases |S|
  {
    var x :| x in S;
    var rest := S - {x};
    if rest == {} {
      assert S == {x};
      m := x;
    } else {
      var y := LeastExists(less, rest);
      m := if less(x, y) then x else y;
      forall z | z in S && z != m ensures less(m, z) {
        assert z == x || z in rest;
      }
    }
  }

  lemma Prepend<T(!new)>(x: T, tail: seq<T>, S: set<T>, less: (T, T) -> bool)
    requires IsLeast(less, S, x)
    requires Elements(tail) == S - {x} && Ascending(less, tail)
    ensures Elements([x] + tail) == S && Ascending(less, [x] + tail)
  {
    var q := [x] + tail;
    assert forall i | 0 <= i < |tail| :: tail[i] in Elements(tail);
    assert forall y | y in S - {x} :: y in Elements(tail);
    assert forall y :: y in q <==> y == x || y in Elements(tail);
  }

  lemma {:induction false} ArrangeSorts<T(!new)>(S: set<T>, less: (T, T) -> bool)
    requires StrictTotalOn(less, S)
    ensures Elements(Arrange(S, less)) == S
    ensures Ascending(less, Arrange(S, less))
    ensures |Arrange(S, less)| == |S|
    decreases |S|
  {
    if S != {} {
      var _ := LeastExists(less, S);
      var q := Arrange(S, less);
      assert IsLeast(less, S, q[0]);
      ArrangeSorts(S - {q[0]}, less);
      assert q == [q[0]] + Arrange(S - {q[0]}, less);
      Prepend(q[0], Arrange(S - {q[0]}, less), S, less);
    }
  }

  lemma LeastIsUnique<T(!new)>(less: (T, T) -> bool, S: set<T>, x: T, y: T)
    requires StrictTotalOn(less, S) && IsLeast(less, S, x) && IsLeast(less, S, y)
    ensures x == y
  {
    assert x != y ==> less(x, y) && less(y, x) && less(x, x);
  }

  /** The first of an ascending sequence is least, and the rest lists the others. */
  lemma HeadAndTail<T(!new)>(q: seq<T>, S: set<T>, less: (T, T) -> bool)
    requires StrictTotalOn(less, S) && Elements(q) == S && Ascending(less, q) && q != []
    ensures IsLeast(less, S, q[0])
    ensures Elements(q[1..]) == S - {q[0]} && Ascending(less, q[1..])
  {
    assert forall x | x in S :: x in q;
    assert forall i | 0 <= i < |q| :: q[i] in Elements(q);
    assert forall i | 0 < i < |q| :: less(q[0], q[i]) && q[i] != q[0] && q[1..][i - 1] == q[i];
  }

  /** A sorted enumeration is unique: any ascending sequence with the elements of S is
      `Arrange(S, less)`, so the order the elements were collected in does not matter. */
  lemma {:induction false} ArrangeIsUnique<T(!new)>(q: seq<T>, S: set<T>, less: (T, T) -> bool)
    requires StrictTotalOn(less, S) && Elements(q) == S && Ascending(less, q)
    ensures q == Arrange(S, less)
    decreases |S|
  {
    hide Ascending, IsLeast;
    assert forall x | x in q :: x in Elements(q);
    assert q != [] ==> q[0] in q;
    if S != {} {
      assert q != [] by { assert Elements(q) != {}; }
      HeadAndTail(q, S, less);
      var a := Arrange(S, less);
      assert IsLeast(less, S, a[0]);
      LeastIsUnique(less, S, q[0], a[0]);
      ArrangeIsUnique(q[1..], S - {q[0]}, less);
      assert q == [q[0]] + q[1..];
    }
  }

  function ById(): (nat, nat) -> bool {
    (a: nat, b: nat) => a < b
  }

  lemma ByIdIsTotal(S: set<nat>)
    ensures StrictTotalOn(ById(), S)
  {
  }

  ghost function SortedIds(S: set<nat>): (q: seq<nat>)
    ensures Elements(q) == S && Ascending(ById(), q) && |q| == |S|
    ensures forall i, j | 0 <= i < j < |q| :: q[i] < q[j]
    ensures forall x :: x in q <==> x in S
  {
    ByIdIsTotal(S);
    ArrangeSorts(S, ById());
    var q := Arrange(S, ById());
    assert forall i, j | 0 <= i < j < |q| :: ById()(q[i], q[j]);
    assert forall x :: x in q <==> x in Elements(q);
    q
  }

  /** What `sort.Slice` does to a slice of distinct keys. */
  method Sort<T(!new, ==)>(q: seq<T>, less: (T, T) -> bool) returns (r: seq<T>)
    requires StrictTotalOn(less, Elements(q))
    requires forall i, j | 0 <= i < j < |q| :: q[i] != q[j]
    ensures r == Arrange(Elements(q), less)
  {
    r := [];
    var i := 0;
    while i < |q|
      invariant 0 <= i <= |q|
      invariant Elements(r) == Elements(q[..i])
      invariant Ascending(less, r)
    {
      assert forall x | x in r :: x in Elements(q[..i]);
      assert q[i] !in q[..i];
      assert q[i] in Elements(q);
      assert Elements(r) <= Elements(q) by { assert forall x | x in Elements(r) :: x in q[..i]; }
      r := Insert(r, q[i], less, Elements(q));
      assert q[..i+1] == q[..i] + [q[i]];
      assert Elements(q[..i+1]) == Elements(q[..i]) + {q[i]};
      i := i + 1;
    }
    assert q[..i] == q;
    ArrangeIsUnique(r, Elements(q), less);
  }

  method Insert<T(!new, ==)>(q: seq<T>, x: T, less: (T, T) -> bool, ghost S: set<T>) returns (r: seq<T>)
    requires StrictTotalOn(less, S) && x in S && Elements(q) <= S
    requires x !in q && Ascending(less, q)
    ensures Elements(r) == Elements(q) + {x} && Ascending(less, r)
  {
    var k := 0;
    while k < |q| && less(q[k], x)
      invariant 0 <= k <= |q|
      invariant forall i | 0 <= i < k :: less(q[i], x)
    {
      k := k + 1;
    }
    r := q[..k] + [x] + q[k..];
    InsertKeepsOrder(q, x, less, S, k);
    InsertKeepsElements(q, x, k);
  }

  lemma InsertKeepsOrder<T(!new)>(q: seq<T>, x: T, less: (T, T) -> bool, S: set<T>, k: nat)
    requires StrictTotalOn(less, S) && x in S && Elements(q) <= S && x !in q && Ascending(less, q)
    requires k <= |q| && (forall i | 0 <= i < k :: less(q[i], x)) && (k < |q| ==> !less(q[k], x))
    ensures Ascending(less, q[..k] + [x] + q[k..])
  {
    assert forall i | 0 <= i < |q| :: q[i] in Elements(q);
    forall i | k <= i < |q| ensures less(x, q[i]) {
      assert q[k] in S && q[i] in S;
      assert less(x, q[k]);
    }
  }

  lemma InsertKeepsElements<T>(q: seq<T>, x: T, k: nat)
    requires k <= |q|
    ensures Elements(q[..k] + [x] + q[k..]) == Elements(q) + {x}
  {
    assert q == q[..k] + q[k..];
    assert forall y :: y in q[..k] + [x] + q[k..] <==> y in q[..k] || y == x || y in q[k..];
  }

  /** `sort.Strings` on distinct names. */
  method SortIds(ids: seq<nat>) returns (r: seq<nat>)
    requires forall i, j | 0 <= i < j < |ids| :: ids[i] != ids[j]
    ensures r == SortedIds(Elements(ids))
  {
    ByIdIsTotal(Elements(ids));
    r := Sort(ids, ById());
  }
}
