/** Sums, filters and the stable sort that the Python built-ins `sum`, the list comprehension
    and `sorted` stand for. */
module Sequences {

  // ---- sums ---------------------------------------------------------------------------

  function Sum(xs: seq<real>): real {
    if xs == [] then 0.0 else Sum(xs[..|xs| - 1]) + xs[|xs| - 1]
  }

  lemma SumSnoc(xs: seq<real>, x: real)
    ensures Sum(xs + [x]) == Sum(xs) + x
  {
    assert (xs + [x])[..|xs|] == xs;
  }

  lemma {:induction false} SumAppend(xs: seq<real>, ys: seq<real>)
    ensures Sum(xs + ys) == Sum(xs) + Sum(ys)
  {
    if ys == [] {
      assert xs + ys == xs;
    } else {
      var front := ys[..|ys| - 1];
      SumAppend(xs, front);
      assert (xs + ys)[..|xs + ys| - 1] == xs + front;
    }
  }

  lemma SumCons(x: real, xs: seq<real>)
    ensures Sum([x] + xs) == x + Sum(xs)
  {
    SumAppend([x], xs);
    assert [x][..0] == [];
  }

  /** A sum splits at any cut. */
  lemma SumSplit(xs: seq<real>, i: nat, j: nat, k: nat)
    requires i <= j <= k <= |xs|
    ensures Sum(xs[i..k]) == Sum(xs[i..j]) + Sum(xs[j..k])
  {
    SumAppend(xs[i..j], xs[j..k]);
    assert xs[i..j] + xs[j..k] == xs[i..k];
  }

  /** Taking one more element on the right adds it. */
  lemma SumStep(xs: seq<real>, i: nat, j: nat)
    requires i <= j < |xs|
    ensures Sum(xs[i..j + 1]) == Sum(xs[i..j]) + xs[j]
  {
    assert xs[i..j + 1] == xs[i..j] + [xs[j]];
    SumSnoc(xs[i..j], xs[j]);
  }

  /** Taking one more element on the left adds it. */
  lemma SumStepLeft(xs: seq<real>, i: nat, j: nat)
    requires i < j <= |xs|
    ensures Sum(xs[i..j]) == xs[i] + Sum(xs[i + 1..j])
  {
    SumSplit(xs, i, i + 1, j);
    SumStep(xs, i, i);
    assert xs[i..i] == [];
  }

  ghost predicate NonNegative(xs: seq<real>) {
    forall i :: 0 <= i < |xs| ==> xs[i] >= 0.0
  }

  lemma {:induction false} SumNonNegative(xs: seq<real>)
    requires NonNegative(xs)
    ensures Sum(xs) >= 0.0
  {
    if xs != [] {
      SumNonNegative(xs[..|xs| - 1]);
    }
  }

  /** Scaling every term scales the sum. */
  lemma {:induction false} SumScale(xs: seq<real>, ys: seq<real>, k: real)
    requires |xs| == |ys|
    requires forall i :: 0 <= i < |xs| ==> ys[i] == k * xs[i]
    ensures Sum(ys) == k * Sum(xs)
  {
    if xs != [] {
      var n := |xs| - 1;
      SumScale(xs[..n], ys[..n], k);
      assert k * (Sum(xs[..n]) + xs[n]) == k * Sum(xs[..n]) + k * xs[n];
    }
  }

  /** Adding two vectors term by term adds their sums. */
  lemma {:induction false} SumPlus(xs: seq<real>, ys: seq<real>, zs: seq<real>)
    requires |xs| == |ys| == |zs|
    requires forall i :: 0 <= i < |xs| ==> zs[i] == xs[i] + ys[i]
    ensures Sum(zs) == Sum(xs) + Sum(ys)
  {
    if xs != [] {
      var n := |xs| - 1;
      SumPlus(xs[..n], ys[..n], zs[..n]);
    }
  }

  // ---- filter ---------------------------------------------------------------------------

  function Filter<T>(xs: seq<T>, keep: T -> bool): (ys: seq<T>)
    ensures forall y :: y in ys ==> y in xs && keep(y)
    ensures |ys| <= |xs|
  {
    if xs == [] then []
    else if keep(xs[0]) then [xs[0]] + Filter(xs[1..], keep)
    else Filter(xs[1..], keep)
  }

  lemma {:induction false} FilterComplete<T>(xs: seq<T>, keep: T -> bool, x: T)
    requires x in xs && keep(x)
    ensures x in Filter(xs, keep)
  {
    if xs[0] != x {
      FilterComplete(xs[1..], keep, x);
    }
  }

  lemma {:induction false} FilterNone<T>(xs: seq<T>, keep: T -> bool)
    requires forall i :: 0 <= i < |xs| ==> !keep(xs[i])
    ensures Filter(xs, keep) == []
  {
    if xs != [] {
      FilterNone(xs[1..], keep);
    }
  }

  lemma {:induction false} FilterAppend<T>(xs: seq<T>, ys: seq<T>, keep: T -> bool)
    ensures Filter(xs + ys, keep) == Filter(xs, keep) + Filter(ys, keep)
  {
    if xs == [] {
      assert xs + ys == ys;
    } else {
      assert (xs + ys)[1..] == xs[1..] + ys;
      FilterAppend(xs[1..], ys, keep);
    }
  }

  // ---- stable sort ------------------------------------------------------------------------

  ghost predicate TotalPreorder<T(!new)>(leq: (T, T) -> bool) {
    && (forall x, y :: leq(x, y) || leq(y, x))
    && (forall x, y, z :: leq(x, y) && leq(y, z) ==> leq(x, z))
  }

  ghost predicate SortedBy<T>(xs: seq<T>, leq: (T, T) -> bool) {
    forall i, j :: 0 <= i < j < |xs| ==> leq(xs[i], xs[j])
  }

  function Insert<T>(x: T, xs: seq<T>, leq: (T, T) -> bool): (ys: seq<T>)
    ensures multiset(ys) == multiset(xs) + multiset{x}
    ensures |ys| == |xs| + 1
  {
    if xs == [] then [x]
    else if leq(x, xs[0]) then assert [x] + xs == [x] + xs; [x] + xs
    else
      assert xs == [xs[0]] + xs[1..];
      [xs[0]] + Insert(x, xs[1..], leq)
  }

  /** Python's `sorted(xs, key=...)`: an insertion sort from the right, so equal keys keep
      their order. */
  function Sort<T>(xs: seq<T>, leq: (T, T) -> bool): (ys: seq<T>)
    ensures multiset(ys) == multiset(xs)
    ensures |ys| == |xs|
  {
    if xs == [] then []
    else
      assert xs == [xs[0]] + xs[1..];
      Insert(xs[0], Sort(xs[1..], leq), leq)
  }

  /** One step of the insertion sort, and of the insertion. */
  lemma SortStep<T>(x: T, rest: seq<T>, leq: (T, T) -> bool)
    ensures Sort([x] + rest, leq) == Insert(x, Sort(rest, leq), leq)
  {
    assert ([x] + rest)[1..] == rest;
  }

  lemma InsertStep<T>(x: T, y: T, rest: seq<T>, leq: (T, T) -> bool)
    ensures Insert(x, [y] + rest, leq) == if leq(x, y) then [x] + ([y] + rest) else [y] + Insert(x, rest, leq)
  {
    assert ([y] + rest)[1..] == rest;
  }

  lemma InMultiset<T>(xs: seq<T>, ys: seq<T>)
    requires multiset(xs) == multiset(ys)
    ensures forall x :: x in xs <==> x in ys
  {
    forall x ensures x in xs <==> x in ys {
      assert x in multiset(xs) <==> x in multiset(ys);
    }
  }

  lemma {:induction false} InsertSorted<T(!new)>(x: T, xs: seq<T>, leq: (T, T) -> bool)
    requires TotalPreorder(leq) && SortedBy(xs, leq)
    ensures SortedBy(Insert(x, xs, leq), leq)
  {
    if xs != [] && !leq(x, xs[0]) {
      InsertSorted(x, xs[1..], leq);
      var tail := Insert(x, xs[1..], leq);
      forall y | y in tail ensures leq(xs[0], y) {
        assert y in multiset(tail);
        assert y == x || y in xs[1..];
      }
    } else if xs != [] {
      forall j | 0 <= j < |xs| ensures leq(x, xs[j]) {
        assert j == 0 || leq(xs[0], xs[j]);
      }
    }
  }

  lemma {:induction false} SortSorted<T(!new)>(xs: seq<T>, leq: (T, T) -> bool)
    requires TotalPreorder(leq)
    ensures SortedBy(Sort(xs, leq), leq)
  {
    if xs != [] {
      SortSorted(xs[1..], leq);
      InsertSorted(xs[0], Sort(xs[1..], leq), leq);
    }
  }

  /** Sorting what is already in order changes nothing. */
  lemma {:induction false} SortFixed<T>(xs: seq<T>, leq: (T, T) -> bool)
    requires SortedBy(xs, leq)
    ensures Sort(xs, leq) == xs
  {
    if xs != [] {
      SortFixed(xs[1..], leq);
      assert xs == [xs[0]] + xs[1..];
      if |xs| > 1 {
        assert leq(xs[0], xs[1]);
      }
    }
  }

  lemma {:induction false} InsertLowest<T(!new)>(x: T, xs: seq<T>, leq: (T, T) -> bool)
    requires forall i :: 0 <= i < |xs| ==> leq(x, xs[i])
    ensures Insert(x, xs, leq) == [x] + xs
  {
  }

  lemma {:induction false} FilterOfInsert<T(!new)>(x: T, xs: seq<T>, leq: (T, T) -> bool, keep: T -> bool)
    requires TotalPreorder(leq) && SortedBy(xs, leq)
    ensures Filter(Insert(x, xs, leq), keep) == if keep(x) then Insert(x, Filter(xs, keep), leq) else Filter(xs, keep)
  {
    if xs != [] {
      if leq(x, xs[0]) {
        assert ([x] + xs)[1..] == xs;
        forall i | 0 <= i < |Filter(xs, keep)| ensures leq(x, Filter(xs, keep)[i]) {
          assert Filter(xs, keep)[i] in xs;
          var j :| 0 <= j < |xs| && xs[j] == Filter(xs, keep)[i];
          assert j == 0 || leq(xs[0], xs[j]);
        }
        InsertLowest(x, Filter(xs, keep), leq);
      } else {
        FilterOfInsert(x, xs[1..], leq, keep);
        assert ([xs[0]] + Insert(x, xs[1..], leq))[1..] == Insert(x, xs[1..], leq);
        if keep(x) && keep(xs[0]) {
          assert ([xs[0]] + Filter(xs[1..], keep))[1..] == Filter(xs[1..], keep);
        } else if keep(x) {
        }
      }
    }
  }

  /** Filtering a sorted list is sorting the filtered one. */
  lemma {:induction false} FilterOfSort<T(!new)>(xs: seq<T>, leq: (T, T) -> bool, keep: T -> bool)
    requires TotalPreorder(leq)
    ensures Filter(Sort(xs, leq), keep) == Sort(Filter(xs, keep), leq)
  {
    if xs != [] {
      FilterOfSort(xs[1..], leq, keep);
      SortSorted(xs[1..], leq);
      FilterOfInsert(xs[0], Sort(xs[1..], leq), leq, keep);
    }
  }

  lemma {:induction false} FilterOfFilter<T>(xs: seq<T>, keep: T -> bool, also: T -> bool)
    ensures Filter(Filter(xs, keep), also) == Filter(Filter(xs, also), keep)
  {
    if xs != [] {
      FilterOfFilter(xs[1..], keep, also);
    }
  }
}
