/** The maximum of a set of numbers and its elements in order: SQL's `max` and `ORDER BY`. */
module Ordering {
  lemma HasElement(s: set<int>)
    ensures s == {} || exists x :: x in s
  {
    if forall x :: x !in s {
      assert s == {};
    }
  }

  function MaxOf(s: set<int>): (m: int)
    requires s != {}
    ensures m in s && forall x :: x in s ==> x <= m
  {
    MaxExists(s);
    var x :| x in s && forall y :: y in s ==> y <= x;
    x
  }

  lemma {:induction false} MaxExists(s: set<int>)
    requires s != {}
    ensures exists x :: x in s && forall y :: y in s ==> y <= x
    decreases |s|
  {
    HasElement(s);
    var x :| x in s;
    var rest := s - {x};
    assert forall y :: y in s ==> y == x || y in rest;
    if rest == {} {
      assert x in s && forall y :: y in s ==> y <= x;
    } else {
      MaxExists(rest);
      var m :| m in rest && forall y :: y in rest ==> y <= m;
      var top := if x > m then x else m;
      assert top in s && forall y :: y in s ==> y <= top;
    }
  }

  ghost predicate Ascending(xs: seq<int>) {
    forall i, j :: 0 <= i < j < |xs| ==> xs[i] < xs[j]
  }

  /** The elements of a set, smallest first. */
  function Sorted(s: set<int>): (xs: seq<int>)
    ensures Ascending(xs)
    ensures forall x :: x in s <==> x in xs
    decreases |s|
  {
    if s == {} then []
    else
      var m := MaxOf(s);
      var front := Sorted(s - {m});
      assert forall x :: x in front ==> x in s - {m};
      front + [m]
  }

  lemma {:induction false} SortedSize(s: set<int>)
    ensures |Sorted(s)| == |s|
    decreases |s|
  {
    if s != {} {
      SortedSize(s - {MaxOf(s)});
    }
  }
}
