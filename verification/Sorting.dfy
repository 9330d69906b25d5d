/** Ascending enumeration of finite sets of numbers, as ordered maps and sorted vectors give it. */
module Sorting {

  ghost predicate Ascending(q: seq<nat>) {
    forall i, j :: 0 <= i < j < |q| ==> q[i] < q[j]
  }

  predicate IsMin(s: set<nat>, m: nat) {
    m in s && forall x :: x in s ==> m <= x
  }

  lemma {:induction false} MinExists(s: set<nat>) returns (m: nat)
    requires s != {}
    ensures IsMin(s, m)
  {
    var x :| x in s;
    m := x;
    if s == {x} {
    } else {
      assert s - {x} != {};
      var rest := MinExists(s - {x});
      m := if rest < x then rest else x;
      assert forall y :: y in s ==> y == x || y in s - {x};
    }
  }

  /** The elements of `s` in ascending order. */
  ghost function Sorted(s: set<nat>): seq<nat> {
    if s == {} then []
    else
      assert exists m :: IsMin(s, m) by { var m := MinExists(s); }
      var m :| IsMin(s, m);
      [m] + Sorted(s - {m})
  }

  lemma {:induction false} SortedMembers(s: set<nat>)
    ensures forall x :: x in Sorted(s) <==> x in s
  {
    if s == {} {
    } else {
      var m := MinExists(s);
      SortedHead(s, m);
      SortedMembers(s - {m});
    }
  }

  lemma {:induction false} SortedIsAscending(s: set<nat>)
    ensures Ascending(Sorted(s))
  {
    if s == {} {
    } else {
      var m := MinExists(s);
      var rest := Sorted(s - {m});
      SortedHead(s, m);
      SortedMembers(s - {m});
      SortedIsAscending(s - {m});
      forall i, j | 0 <= i < j < |rest| + 1
        ensures ([m] + rest)[i] < ([m] + rest)[j]
      {
        assert rest[j - 1] in s - {m};
      }
    }
  }

  lemma SortedHead(s: set<nat>, m: nat)
    requires IsMin(s, m)
    ensures Sorted(s) == [m] + Sorted(s - {m})
  {
    assert forall n :: IsMin(s, n) ==> n == m;
  }

  method SortedElements(s: set<nat>) returns (q: seq<nat>)
    ensures q == Sorted(s)
  {
    q := [];
    var todo := s;
    while todo != {}
      invariant q + Sorted(todo) == Sorted(s)
      decreases |todo|
    {
      assert exists m :: m in todo && IsMin(todo, m) by { var m := MinExists(todo); }
      var m :| m in todo && IsMin(todo, m);
      SortedHead(todo, m);
      assert (q + [m]) + Sorted(todo - {m}) == q + ([m] + Sorted(todo - {m}));
      q := q + [m];
      todo := todo - {m};
    }
    assert q + Sorted({}) == q;
  }
}
