/** Purged and embargoed walk-forward cross-validation, `currentflow/ml/cv.py`.  Folds hold
    indices into the samples as given, which is what the code returns. */
module WalkForward {
  import opened Models
  import opened Sequences

  /** `date.max` as a day number: the label end of an unresolved sample. */
  const DATE_MAX: int := 3652059

  datatype Sample = Sample(t0: int, t1: Option<int>)

  datatype Fold = Fold(train: seq<int>, test: seq<int>)

  datatype CvError = BadFoldCount | InsufficientSamples

  function LabelEnd(s: Sample): int {
    match s.t1 case Some(d) => d case None => DATE_MAX
  }

  // ---- the t0 order ------------------------------------------------------------------------

  function Range(n: nat): (r: seq<int>)
    ensures |r| == n && forall i :: 0 <= i < n ==> r[i] == i
    ensures forall i :: i in r <==> 0 <= i < n
  {
    if n == 0 then [] else Range(n - 1) + [n - 1]
  }

  predicate AreIndices(samples: seq<Sample>, xs: seq<int>) {
    forall a :: 0 <= a < |xs| ==> 0 <= xs[a] < |samples|
  }

  predicate KeyLeq(samples: seq<Sample>, i: int, j: int) {
    if !(0 <= i < |samples|) then true
    else if !(0 <= j < |samples|) then false
    else samples[i].t0 < samples[j].t0
         || (samples[i].t0 == samples[j].t0 && LabelEnd(samples[i]) <= LabelEnd(samples[j]))
  }

  /** `sorted(range(n), key=(t0, label_end))`. */
  function Order(samples: seq<Sample>): (order: seq<int>)
    ensures |order| == |samples|
    ensures forall i :: i in order <==> 0 <= i < |samples|
    ensures AreIndices(samples, order)
  {
    var leq := (i: int, j: int) => KeyLeq(samples, i, j);
    var order := Sort(Range(|samples|), leq);
    InMultiset(order, Range(|samples|));
    assert forall a :: 0 <= a < |order| ==> order[a] in order;
    order
  }

  lemma OrderAscends(samples: seq<Sample>)
    ensures forall a, b :: 0 <= a <= b < |samples| ==>
              samples[Order(samples)[a]].t0 <= samples[Order(samples)[b]].t0
  {
    var leq := (i: int, j: int) => KeyLeq(samples, i, j);
    SortSorted(Range(|samples|), leq);
    var order := Order(samples);
    forall a, b | 0 <= a <= b < |samples| ensures samples[order[a]].t0 <= samples[order[b]].t0 {
      assert order[a] in order && order[b] in order;
      if a < b {
        assert leq(order[a], order[b]);
      }
    }
  }

  lemma OrderSorted(samples: seq<Sample>, i: nat, j: nat)
    requires i < j < |samples|
    ensures KeyLeq(samples, Order(samples)[i], Order(samples)[j])
  {
    var leq := (i: int, j: int) => KeyLeq(samples, i, j);
    SortSorted(Range(|samples|), leq);
    assert leq(Order(samples)[i], Order(samples)[j]);
  }

  /** The samples are given in the order they are sorted into. */
  ghost predicate GivenInOrder(samples: seq<Sample>) {
    forall i, j :: 0 <= i < j < |samples| ==> KeyLeq(samples, i, j)
  }

  /** Indices into the samples and positions in their sorted list are the same numbers exactly when
      the samples are given in order. */
  lemma PositionsAreIndicesIff(samples: seq<Sample>)
    ensures Order(samples) == Range(|samples|) <==> GivenInOrder(samples)
  {
    if GivenInOrder(samples) {
      InOrderIsRange(samples);
    }
    if Order(samples) == Range(|samples|) {
      forall i, j | 0 <= i < j < |samples| ensures KeyLeq(samples, i, j) {
        OrderSorted(samples, i, j);
      }
    }
  }

  lemma InOrderIsRange(samples: seq<Sample>)
    requires GivenInOrder(samples)
    ensures Order(samples) == Range(|samples|)
  {
    var leq, range := (i: int, j: int) => KeyLeq(samples, i, j), Range(|samples|);
    forall i, j | 0 <= i < j < |range| ensures leq(range[i], range[j]) {
      assert KeyLeq(samples, i, j);
    }
    SortFixed(range, leq);
  }

  lemma {:induction false} RangeNoDuplicates(n: nat, i: int)
    ensures multiset(Range(n))[i] == if 0 <= i < n then 1 else 0
  {
    hide Range;
    RangeStep(n);
    if n > 0 {
      RangeNoDuplicates(n - 1, i);
      CountOneMore(Range(n - 1), n - 1, i);
    }
  }

  lemma RangeStep(n: nat)
    ensures Range(n) == if n == 0 then [] else Range(n - 1) + [n - 1]
  {
  }

  lemma CountOneMore(xs: seq<int>, x: int, i: int)
    ensures multiset(xs + [x])[i] == multiset(xs)[i] + if i == x then 1 else 0
  {
  }

  /** No index appears twice in the order. */
  lemma OrderIsInjective(samples: seq<Sample>, a: nat, b: nat)
    requires a < b < |samples|
    ensures Order(samples)[a] != Order(samples)[b]
  {
    var order := Order(samples);
    RangeNoDuplicates(|samples|, order[a]);
    TwoPlaces(order, a, b);
  }

  lemma TwoPlaces(xs: seq<int>, a: nat, b: nat)
    requires a < b < |xs|
    ensures xs[a] == xs[b] ==> multiset(xs)[xs[a]] >= 2
  {
    assert xs == xs[..b] + ([xs[b]] + xs[b + 1..]);
    assert xs[..b] == xs[..a] + ([xs[a]] + xs[a + 1..b]);
  }

  // ---- contiguous segments -------------------------------------------------------------------

  /** Where segment `p` of `parts` starts: near-equal sizes, remainder to the front. */
  function Start(n: nat, parts: nat, p: nat): (s: nat)
    requires parts > 0
  {
    if p == 0 then 0 else Start(n, parts, p - 1) + SegmentSize(n, parts, p - 1)
  }

  function SegmentSize(n: nat, parts: nat, p: nat): nat
    requires parts > 0
  {
    n / parts + if p < n % parts then 1 else 0
  }

  lemma {:induction false} StartClosed(n: nat, parts: nat, p: nat)
    requires parts > 0
    ensures Start(n, parts, p) == p * (n / parts) + if p < n % parts then p else n % parts
  {
    if p > 0 {
      StartClosed(n, parts, p - 1);
      OneMoreTimes(p, n / parts);
    }
  }

  lemma OneMoreTimes(p: int, q: int)
    ensures p * q == (p - 1) * q + q
  {
  }

  lemma {:induction false} StartMonotone(n: nat, parts: nat, p: nat, q: nat)
    requires parts > 0 && p <= q
    ensures Start(n, parts, p) <= Start(n, parts, q)
  {
    if p < q {
      StartMonotone(n, parts, p, q - 1);
    }
  }

  lemma StartEnds(n: nat, parts: nat)
    requires parts > 0
    ensures Start(n, parts, 0) == 0 && Start(n, parts, parts) == n
  {
    StartClosed(n, parts, parts);
    assert n == parts * (n / parts) + n % parts;
  }

  lemma StartWithin(n: nat, parts: nat, p: nat)
    requires parts > 0 && p <= parts
    ensures Start(n, parts, p) <= n
  {
    StartMonotone(n, parts, p, parts);
    StartEnds(n, parts);
  }

  function Segment(order: seq<int>, parts: nat, p: nat): (r: seq<int>)
    requires parts > 0 && p < parts
    ensures Start(|order|, parts, p) + |r| == Start(|order|, parts, p + 1) <= |order|
    ensures |r| == SegmentSize(|order|, parts, p)
    ensures forall a :: 0 <= a < |r| ==> r[a] == order[Start(|order|, parts, p) + a]
  {
    StartWithin(|order|, parts, p + 1);
    order[Start(|order|, parts, p)..Start(|order|, parts, p + 1)]
  }

  /** Everything before segment `p`. */
  function Before(order: seq<int>, parts: nat, p: nat): seq<int>
    requires parts > 0 && p <= parts
  {
    StartWithin(|order|, parts, p);
    order[..Start(|order|, parts, p)]
  }

  /** `_contiguous_segments`. */
  method ContiguousSegments(order: seq<int>, parts: nat) returns (segments: seq<seq<int>>)
    requires parts > 0
    ensures |segments| == parts
    ensures forall p :: 0 <= p < parts ==> segments[p] == Segment(order, parts, p)
  {
    var n := |order|;
    var base, extra := n / parts, n % parts;
    segments := [];
    var cursor := 0;
    StartEnds(n, parts);
    for p := 0 to parts
      invariant |segments| == p && cursor == Start(n, parts, p)
      invariant forall q :: 0 <= q < p ==> segments[q] == Segment(order, parts, q)
    {
      var size := base + if p < extra then 1 else 0;
      StartWithin(n, parts, p + 1);
      segments := segments + [order[cursor..cursor + size]];
      cursor := cursor + size;
    }
  }

  lemma BeforeStep(order: seq<int>, parts: nat, p: nat)
    requires parts > 0 && p < parts
    ensures Before(order, parts, p + 1) == Before(order, parts, p) + Segment(order, parts, p)
  {
    StartMonotone(|order|, parts, p, p + 1);
    StartWithin(|order|, parts, p + 1);
  }

  function Flatten(segments: seq<seq<int>>): seq<int> {
    if segments == [] then [] else Flatten(segments[..|segments| - 1]) + segments[|segments| - 1]
  }

  lemma {:induction false} FlattenSegments(order: seq<int>, parts: nat, segments: seq<seq<int>>, k: nat)
    requires parts > 0 && k <= parts && |segments| == parts
    requires forall p :: 0 <= p < parts ==> segments[p] == Segment(order, parts, p)
    ensures Flatten(segments[..k]) == Before(order, parts, k)
  {
    if k > 0 {
      FlattenSegments(order, parts, segments, k - 1);
      BeforeStep(order, parts, k - 1);
      assert segments[..k][..k - 1] == segments[..k - 1];
    }
  }

  // ---- purge and embargo -----------------------------------------------------------------------

  function EarliestStart(samples: seq<Sample>, test: seq<int>): (d: int)
    requires test != [] && AreIndices(samples, test)
    ensures forall a :: 0 <= a < |test| ==> d <= samples[test[a]].t0
    ensures exists a :: 0 <= a < |test| && d == samples[test[a]].t0
  {
    var last := samples[test[|test| - 1]].t0;
    if |test| == 1 then last
    else
      var rest := EarliestStart(samples, test[..|test| - 1]);
      if rest <= last then rest else last
  }

  predicate EndsBefore(samples: seq<Sample>, day: int, i: int) {
    0 <= i < |samples| && LabelEnd(samples[i]) < day
  }

  function DropLast(xs: seq<int>, e: int): seq<int> {
    if e > 0 && xs != [] then (if e >= |xs| then [] else xs[..|xs| - e]) else xs
  }

  /** `_purge_and_embargo`. */
  function PurgeAndEmbargo(samples: seq<Sample>, prior: seq<int>, test: seq<int>, embargo: int): seq<int>
    requires test != [] && AreIndices(samples, test)
  {
    var day := EarliestStart(samples, test);
    DropLast(Filter(prior, i => EndsBefore(samples, day, i)), embargo)
  }

  function Ceil(x: real): int { -((-x).Floor) }

  ghost predicate IsWalkForward(samples: seq<Sample>, folds: nat, embargo: int, out: seq<Fold>)
    requires folds >= 1 && |samples| >= folds + 1
  {
    |out| == folds && forall k :: 0 <= k < folds ==> out[k] == FoldAt(samples, folds, embargo, k)
  }

  /** Segment `k + 1` of the order is the test block of fold `k`. */
  function TestAt(samples: seq<Sample>, folds: nat, k: nat): (test: seq<int>)
    requires folds >= 1 && |samples| >= folds + 1 && k < folds
    ensures test != [] && AreIndices(samples, test)
  {
    TestNonEmpty(samples, folds, k);
    var test := Segment(Order(samples), folds + 1, k + 1);
    assert AreIndices(samples, Order(samples)) ==> AreIndices(samples, test);
    test
  }

  /** Fold `k`: its test block against everything before it, purged and embargoed. */
  function FoldAt(samples: seq<Sample>, folds: nat, embargo: int, k: nat): (f: Fold)
    requires folds >= 1 && |samples| >= folds + 1 && k < folds
    ensures f.test == TestAt(samples, folds, k)
  {
    var test := TestAt(samples, folds, k);
    Fold(PurgeAndEmbargo(samples, Before(Order(samples), folds + 1, k + 1), test, embargo), test)
  }

  lemma TestNonEmpty(samples: seq<Sample>, folds: nat, k: nat)
    requires folds >= 1 && |samples| >= folds + 1 && k < folds
    ensures Segment(Order(samples), folds + 1, k + 1) != []
  {
    DivAtLeastOne(|Order(samples)|, folds + 1);
  }

  lemma DivAtLeastOne(n: nat, d: nat)
    requires d > 0 && n >= d
    ensures n / d >= 1
  {
  }

  /** `purged_walk_forward`. */
  method PurgedWalkForward(samples: seq<Sample>, folds: int, embargoFrac: real)
    returns (r: Result<seq<Fold>, CvError>)
    ensures r == Err(BadFoldCount) <==> folds < 1
    ensures r == Err(InsufficientSamples) <==> folds >= 1 && |samples| < folds + 1
    ensures r.Ok? ==> IsWalkForward(samples, folds, Ceil(embargoFrac * |samples| as real), r.value)
  {
    if folds < 1 {
      return Err(BadFoldCount);
    }
    if |samples| < folds + 1 {
      return Err(InsufficientSamples);
    }
    var segments := ContiguousSegments(Order(samples), folds + 1);
    var out := FoldsOf(samples, folds, Ceil(embargoFrac * |samples| as real), segments);
    return Ok(out);
  }

  /** Its loop over the segments after the warm-up. */
  method FoldsOf(samples: seq<Sample>, folds: nat, embargo: int, segments: seq<seq<int>>) returns (out: seq<Fold>)
    requires folds >= 1 && |samples| >= folds + 1 && |segments| == folds + 1
    requires forall p :: 0 <= p <= folds ==> segments[p] == Segment(Order(samples), folds + 1, p)
    ensures IsWalkForward(samples, folds, embargo, out)
  {
    hide FoldAt, PurgeAndEmbargo, Segment, Flatten, AreIndices;
    out := [];
    for k := 1 to folds + 1
      invariant |out| == k - 1
      invariant forall j :: 0 <= j < k - 1 ==> out[j] == FoldAt(samples, folds, embargo, j)
    {
      FoldOfSegments(samples, folds, embargo, k - 1, k, segments);
      var test := segments[k];
      var train := PurgeAndEmbargo(samples, Flatten(segments[..k]), test, embargo);
      out := out + [Fold(train, test)];
    }
  }

  lemma FoldOfSegments(samples: seq<Sample>, folds: nat, embargo: int, j: nat, k: nat, segments: seq<seq<int>>)
    requires folds >= 1 && |samples| >= folds + 1 && k == j + 1 <= folds && |segments| == folds + 1
    requires forall p :: 0 <= p <= folds ==> segments[p] == Segment(Order(samples), folds + 1, p)
    ensures segments[k] != [] && AreIndices(samples, segments[k])
    ensures Fold(PurgeAndEmbargo(samples, Flatten(segments[..k]), segments[k], embargo), segments[k])
            == FoldAt(samples, folds, embargo, j)
  {
    FlattenSegments(Order(samples), folds + 1, segments, k);
    TestIsSegment(samples, folds, j, k);
    FoldIs(samples, folds, embargo, j, k, Flatten(segments[..k]), segments[k]);
  }

  lemma TestIsSegment(samples: seq<Sample>, folds: nat, j: nat, k: nat)
    requires folds >= 1 && |samples| >= folds + 1 && k == j + 1 <= folds
    ensures TestAt(samples, folds, j) == Segment(Order(samples), folds + 1, k)
  {
  }

  lemma FoldIs(samples: seq<Sample>, folds: nat, embargo: int, j: nat, k: nat, prior: seq<int>, test: seq<int>)
    requires folds >= 1 && |samples| >= folds + 1 && k == j + 1 <= folds
    requires prior == Before(Order(samples), folds + 1, k) && test == TestAt(samples, folds, j)
    ensures Fold(PurgeAndEmbargo(samples, prior, test, embargo), test) == FoldAt(samples, folds, embargo, j)
  {
  }

  // ---- indices and positions -----------------------------------------------------------------------

  /** Segment `p`, as positions in the sorted list. */
  function Positions(n: nat, parts: nat, p: nat): seq<int>
    requires parts > 0 && p < parts
  {
    Segment(Range(n), parts, p)
  }

  /** The test block of a fold, the sample at each of its positions put back. */
  lemma TestIsPositions(samples: seq<Sample>, folds: nat, embargo: int, k: nat, a: nat)
    requires folds >= 1 && |samples| >= folds + 1 && k < folds
    requires a < |FoldAt(samples, folds, embargo, k).test|
    ensures var positions := Positions(|samples|, folds + 1, k + 1);
            && |positions| == |FoldAt(samples, folds, embargo, k).test| && 0 <= positions[a] < |samples|
            && FoldAt(samples, folds, embargo, k).test[a] == Order(samples)[positions[a]]
  {
    hide FoldAt, PurgeAndEmbargo, Start, SegmentSize;
    assert FoldAt(samples, folds, embargo, k).test == Segment(Order(samples), folds + 1, k + 1);
  }

  /** Segment `p` holds positions in the sorted list. */
  ghost predicate IsPositions(samples: seq<Sample>, parts: nat, p: nat)
    requires parts > 0 && p < parts
  {
    Segment(Order(samples), parts, p) == Positions(|samples|, parts, p)
  }

  ghost predicate AllPositions(samples: seq<Sample>, parts: nat)
    requires parts > 0
  {
    forall p: nat :: p < parts ==> IsPositions(samples, parts, p)
  }

  /** For any number of folds: the warm-up and all test blocks hold positions in the sorted list, as
      the documentation has it, exactly when the caller's list is already sorted. */
  lemma FoldsArePositionsIff(samples: seq<Sample>, folds: nat)
    requires folds >= 1 && |samples| >= folds + 1
    ensures AllPositions(samples, folds + 1) <==> GivenInOrder(samples)
  {
    var parts := folds + 1;
    PositionsAreIndicesIff(samples);
    if AllPositions(samples, parts) {
      forall a: nat | a < |samples| ensures Order(samples)[a] == a {
        StartEnds(|samples|, parts);
        var p := SegmentOf(|samples|, parts, a, parts);
        assert IsPositions(samples, parts, p);
        PositionAt(samples, parts, p, a);
      }
    }
  }

  lemma PositionAt(samples: seq<Sample>, parts: nat, p: nat, a: nat)
    requires parts > 0 && p < parts && IsPositions(samples, parts, p)
    requires Start(|samples|, parts, p) <= a < Start(|samples|, parts, p + 1)
    ensures a < |samples| && Order(samples)[a] == a
  {
    var b := a - Start(|samples|, parts, p);
    assert Segment(Order(samples), parts, p)[b] == Order(samples)[a];
    assert Positions(|samples|, parts, p)[b] == a;
  }

  lemma SecondPosition()
    ensures Positions(2, 2, 1) == [1]
  {
    assert Start(2, 2, 0) == 0 && Start(2, 2, 1) == 1 && Start(2, 2, 2) == 2;
  }

  /** Two samples given latest first: the one-fold test block is the sample given first, which is
      second in the sorted list. */
  lemma IndexIsNotPosition(embargo: int)
    ensures var samples := [Sample(5, None), Sample(1, Some(2))];
            FoldAt(samples, 1, embargo, 0).test == [0] && Positions(2, 2, 1) == [1]
  {
    hide Order, FoldAt, TestAt, Start, SegmentSize;
    var samples := [Sample(5, None), Sample(1, Some(2))];
    OrderAscends(samples);
    var order := Order(samples);
    assert 0 in order && 1 in order;
    assert order[0] in order && order[1] in order;
    assert samples[order[0]].t0 <= samples[order[1]].t0;
    OrderIsInjective(samples, 0, 1);
    assert order[1] == 0;
    SecondPosition();
    TestIsPositions(samples, 1, embargo, 0, 0);
  }

  // ---- what the folds promise --------------------------------------------------------------------

  /** No leakage: every training label ends strictly before every test sample starts. */
  lemma NoLeakage(samples: seq<Sample>, folds: nat, embargo: int, k: nat, i: int, j: int)
    requires folds >= 1 && |samples| >= folds + 1 && k < folds
    requires i in FoldAt(samples, folds, embargo, k).train && j in FoldAt(samples, folds, embargo, k).test
    ensures 0 <= i < |samples| && 0 <= j < |samples|
    ensures LabelEnd(samples[i]) < samples[j].t0
  {
    var f := FoldAt(samples, folds, embargo, k);
    var day := EarliestStart(samples, f.test);
    var order := Order(samples);
    var purged := Filter(Before(order, folds + 1, k + 1), i => EndsBefore(samples, day, i));
    assert f.train == DropLast(purged, embargo);
    assert i in purged;
  }

  /** Training samples come before the test block in the t0 order: walk-forward, never back. */
  lemma TrainPrecedesTest(samples: seq<Sample>, folds: nat, embargo: int, k: nat, i: int, j: int)
    requires folds >= 1 && |samples| >= folds + 1 && k < folds
    requires i in FoldAt(samples, folds, embargo, k).train && j in FoldAt(samples, folds, embargo, k).test
    ensures 0 <= i < |samples| && 0 <= j < |samples| && i != j && samples[i].t0 <= samples[j].t0
  {
    hide FoldAt, PurgeAndEmbargo, Order, Before, Start, SegmentSize;
    NoLeakage(samples, folds, embargo, k, i, j);
    TrainIsPrior(samples, folds, embargo, k, i);
    var a, b := PlacesInOrder(Order(samples), folds + 1, k + 1, i, j);
    OrderAscends(samples);
    OrderIsInjective(samples, a, b);
  }

  lemma TrainIsPrior(samples: seq<Sample>, folds: nat, embargo: int, k: nat, i: int)
    requires folds >= 1 && |samples| >= folds + 1 && k < folds
    requires i in FoldAt(samples, folds, embargo, k).train
    ensures i in Before(Order(samples), folds + 1, k + 1)
  {
    var day := EarliestStart(samples, FoldAt(samples, folds, embargo, k).test);
    assert i in Filter(Before(Order(samples), folds + 1, k + 1), i => EndsBefore(samples, day, i));
  }

  lemma PlacesInOrder(order: seq<int>, parts: nat, p: nat, i: int, j: int) returns (a: nat, b: nat)
    requires parts > 0 && p < parts
    requires i in Before(order, parts, p) && j in Segment(order, parts, p)
    ensures a < b < |order| && order[a] == i && order[b] == j
  {
    var before, segment := Before(order, parts, p), Segment(order, parts, p);
    a :| 0 <= a < |before| && before[a] == i;
    b :| 0 <= b < |segment| && segment[b] == j;
    b := Start(|order|, parts, p) + b;
  }

  /** Test blocks are near-equal: sizes differ by at most one. */
  lemma TestSizes(samples: seq<Sample>, folds: nat, embargo: int, k: nat)
    requires folds >= 1 && |samples| >= folds + 1 && k < folds
    ensures var size := |FoldAt(samples, folds, embargo, k).test|;
            |samples| / (folds + 1) <= size <= |samples| / (folds + 1) + 1 && size >= 1
  {
    TestNonEmpty(samples, folds, k);
  }

  /** The warm-up segment and the test blocks partition the samples: each sample is in the
      warm-up and in no test block, or in exactly one test block. */
  lemma TestsPartition(samples: seq<Sample>, folds: nat, embargo: int, i: int) returns (p: nat)
    requires folds >= 1 && |samples| >= folds + 1 && 0 <= i < |samples|
    ensures p <= folds
    ensures i in Segment(Order(samples), folds + 1, 0) <==> p == 0
    ensures forall k :: 0 <= k < folds ==> (i in FoldAt(samples, folds, embargo, k).test <==> p == k + 1)
  {
    var order, parts := Order(samples), folds + 1;
    assert i in order;
    var a :| 0 <= a < |order| && order[a] == i;
    StartEnds(|order|, parts);
    p := SegmentOf(|order|, parts, a, parts);
    forall q | 0 <= q < parts ensures i in Segment(order, parts, q) <==> q == p {
      SegmentIsUnique(samples, parts, a, p, q);
    }
    forall k | 0 <= k < folds ensures i in FoldAt(samples, folds, embargo, k).test <==> p == k + 1 {
      assert FoldAt(samples, folds, embargo, k).test == Segment(order, parts, k + 1);
    }
  }

  lemma {:induction false} SegmentOf(n: nat, parts: nat, a: nat, q: nat) returns (p: nat)
    requires parts > 0 && q <= parts && a < Start(n, parts, q)
    ensures p < q && Start(n, parts, p) <= a < Start(n, parts, p + 1)
  {
    StartEnds(n, parts);
    p := q - 1;
    if a < Start(n, parts, p) {
      p := SegmentOf(n, parts, a, p);
    }
  }

  lemma SegmentIsUnique(samples: seq<Sample>, parts: nat, a: nat, p: nat, q: nat)
    requires parts > 0 && p < parts && q < parts && a < |samples|
    requires Start(|samples|, parts, p) <= a < Start(|samples|, parts, p + 1)
    ensures Order(samples)[a] in Segment(Order(samples), parts, q) <==> q == p
  {
    hide Order, Start, SegmentSize;
    var order := Order(samples);
    var n := |order|;
    StartWithin(n, parts, p + 1);
    StartWithin(n, parts, q + 1);
    StartMonotone(n, parts, q, q + 1);
    if q == p {
      assert Segment(order, parts, p)[a - Start(n, parts, p)] == order[a];
    } else {
      if q < p { StartMonotone(n, parts, q + 1, p); } else { StartMonotone(n, parts, p + 1, q); }
      NotInSlice(samples, order, Start(n, parts, q), Start(n, parts, q + 1), a);
    }
  }

  lemma NotInSlice(samples: seq<Sample>, order: seq<int>, lo: nat, hi: nat, a: nat)
    requires order == Order(samples) && lo <= hi <= |order| && a < |order| && (a < lo || hi <= a)
    ensures order[a] !in order[lo..hi]
  {
    forall b | lo <= b < hi ensures order[b] != order[a] {
      OrderIsInjective(samples, if a < b then a else b, if a < b then b else a);
    }
  }

  // ---- nested training sets --------------------------------------------------------------------

  lemma {:induction false} FilterCountMonotone(xs: seq<int>, keep: int -> bool, more: int -> bool)
    requires forall a :: 0 <= a < |xs| && keep(xs[a]) ==> more(xs[a])
    ensures |Filter(xs, keep)| <= |Filter(xs, more)|
  {
    if xs != [] {
      FilterCountMonotone(xs[1..], keep, more);
    }
  }

  lemma {:induction false} PositionInFilter(xs: seq<int>, keep: int -> bool, q: nat) returns (p: nat)
    requires q < |Filter(xs, keep)|
    ensures p < |xs| && xs[p] == Filter(xs, keep)[q] && keep(xs[p])
    ensures |Filter(xs[p + 1..], keep)| == |Filter(xs, keep)| - q - 1
  {
    if keep(xs[0]) && q == 0 {
      p := 0;
    } else {
      var rest, first := xs[1..], if keep(xs[0]) then 1 else 0;
      assert Filter(xs, keep)[q] == Filter(rest, keep)[q - first];
      p := PositionInFilter(rest, keep, q - first);
      assert rest[p + 1..] == xs[p + 2..];
      p := p + 1;
    }
  }

  lemma KeptByEmbargo(xs: seq<int>, keep: int -> bool, e: int, x: int) returns (p: nat)
    requires x in DropLast(Filter(xs, keep), e)
    ensures p < |xs| && xs[p] == x && keep(x) && |Filter(xs[p + 1..], keep)| >= e
  {
    var kept := DropLast(Filter(xs, keep), e);
    var q :| 0 <= q < |kept| && kept[q] == x;
    p := PositionInFilter(xs, keep, q);
  }

  lemma FilterOne(x: int, keep: int -> bool)
    requires keep(x)
    ensures Filter([x], keep) == [x]
  {
    assert [x][1..] == [];
  }

  lemma EmbargoKeepsAt(xs: seq<int>, keep: int -> bool, e: int, p: nat)
    requires p < |xs| && keep(xs[p]) && |Filter(xs[p + 1..], keep)| >= e
    ensures xs[p] in DropLast(Filter(xs, keep), e)
  {
    hide Filter;
    var front, rest := Filter(xs[..p], keep), Filter(xs[p + 1..], keep);
    assert xs == xs[..p] + ([xs[p]] + xs[p + 1..]);
    FilterAppend(xs[..p], [xs[p]] + xs[p + 1..], keep);
    FilterAppend([xs[p]], xs[p + 1..], keep);
    FilterOne(xs[p], keep);
    assert Filter(xs, keep) == front + ([xs[p]] + rest);
    assert DropLast(Filter(xs, keep), e)[|front|] == xs[p];
  }

  /** A survivor of the purge survives the embargo exactly when enough survivors follow it. */
  lemma EmbargoKeeps(xs: seq<int>, keep: int -> bool, e: int, x: int)
    ensures x in DropLast(Filter(xs, keep), e)
            <==> exists p :: 0 <= p < |xs| && xs[p] == x && keep(x) && |Filter(xs[p + 1..], keep)| >= e
  {
    if x in DropLast(Filter(xs, keep), e) {
      var p := KeptByEmbargo(xs, keep, e, x);
      assert xs[p] == x;
    }
    if p :| 0 <= p < |xs| && xs[p] == x && keep(x) && |Filter(xs[p + 1..], keep)| >= e {
      EmbargoKeepsAt(xs, keep, e, p);
    }
  }

  /** Widening the purge and appending later samples never drops a trained sample. */
  lemma EmbargoMonotone(xs: seq<int>, ys: seq<int>, keep: int -> bool, more: int -> bool, e: int, x: int)
    requires forall a :: 0 <= a < |xs| && keep(xs[a]) ==> more(xs[a])
    requires x in DropLast(Filter(xs, keep), e)
    ensures x in DropLast(Filter(xs + ys, more), e)
  {
    var p := KeptByEmbargo(xs, keep, e, x);
    CountAfter(xs, ys, keep, more, p);
    assert (xs + ys)[p] == xs[p];
    EmbargoKeepsAt(xs + ys, more, e, p);
  }

  lemma CountAfter(xs: seq<int>, ys: seq<int>, keep: int -> bool, more: int -> bool, p: nat)
    requires p < |xs|
    requires forall a :: 0 <= a < |xs| && keep(xs[a]) ==> more(xs[a])
    ensures |Filter(xs[p + 1..], keep)| <= |Filter((xs + ys)[p + 1..], more)|
  {
    var rest := xs[p + 1..];
    FilterCountMonotone(rest, keep, more);
    FilterAppend(rest, ys, more);
    assert (xs + ys)[p + 1..] == rest + ys;
  }

  lemma SegmentStartsAscend(samples: seq<Sample>, parts: nat, p: nat, q: nat, one: seq<int>, next: seq<int>)
    requires parts > 0 && q == p + 1 < parts
    requires one == Segment(Order(samples), parts, p) && one != [] && AreIndices(samples, one)
    requires next == Segment(Order(samples), parts, q) && next != [] && AreIndices(samples, next)
    ensures EarliestStart(samples, one) <= EarliestStart(samples, next)
  {
    var order := Order(samples);
    var at, after := Start(|order|, parts, p), Start(|order|, parts, q);
    StartWithin(|order|, parts, q);
    OrderAscends(samples);
    forall b | 0 <= b < |next| ensures samples[one[0]].t0 <= samples[next[b]].t0 {
      StartsInOrder(samples, order, at, after + b);
    }
    EarliestIsEarlier(samples, one, next);
  }

  lemma StartsInOrder(samples: seq<Sample>, order: seq<int>, a: nat, b: nat)
    requires order == Order(samples) && a < b < |order|
    ensures AreIndices(samples, order) && samples[order[a]].t0 <= samples[order[b]].t0
  {
    OrderAscends(samples);
  }

  lemma EarliestIsEarlier(samples: seq<Sample>, one: seq<int>, next: seq<int>)
    requires one != [] && AreIndices(samples, one) && next != [] && AreIndices(samples, next)
    requires forall b :: 0 <= b < |next| ==> samples[one[0]].t0 <= samples[next[b]].t0
    ensures EarliestStart(samples, one) <= EarliestStart(samples, next)
  {
    var b :| 0 <= b < |next| && EarliestStart(samples, next) == samples[next[b]].t0;
  }

  /** The purge loosens from one test block to the next, and the embargo then drops no sample
      it kept before. */
  lemma PurgeIsNested(samples: seq<Sample>, prior: seq<int>, one: seq<int>, next: seq<int>, embargo: int, i: int)
    requires one != [] && AreIndices(samples, one) && next != [] && AreIndices(samples, next)
    requires EarliestStart(samples, one) <= EarliestStart(samples, next)
    requires i in PurgeAndEmbargo(samples, prior, one, embargo)
    ensures i in PurgeAndEmbargo(samples, prior + one, next, embargo)
  {
    var early, late := EarliestStart(samples, one), EarliestStart(samples, next);
    EmbargoMonotone(prior, one, j => EndsBefore(samples, early, j), j => EndsBefore(samples, late, j), embargo, i);
  }

  lemma FoldTrain(samples: seq<Sample>, folds: nat, embargo: int, k: nat, q: nat, prior: seq<int>, test: seq<int>)
    requires folds >= 1 && |samples| >= folds + 1 && q == k + 1 <= folds
    requires prior == Before(Order(samples), folds + 1, q) && test == TestAt(samples, folds, k)
    ensures FoldAt(samples, folds, embargo, k).train == PurgeAndEmbargo(samples, prior, test, embargo)
  {
  }

  lemma NextPrior(samples: seq<Sample>, folds: nat, k: nat, p: nat, q: nat, prior: seq<int>, one: seq<int>)
    requires folds >= 1 && |samples| >= folds + 1 && p == k + 1 < folds && q == k + 2
    requires prior == Before(Order(samples), folds + 1, p) && one == TestAt(samples, folds, k)
    ensures prior + one == Before(Order(samples), folds + 1, q)
  {
    BeforeStep(Order(samples), folds + 1, p);
  }

  lemma NextStart(samples: seq<Sample>, folds: nat, k: nat, one: seq<int>, next: seq<int>)
    requires folds >= 1 && |samples| >= folds + 1 && k + 1 < folds
    requires one == TestAt(samples, folds, k) && next == TestAt(samples, folds, k + 1)
    ensures EarliestStart(samples, one) <= EarliestStart(samples, next)
  {
    SegmentStartsAscend(samples, folds + 1, k + 1, k + 2, one, next);
  }

  lemma NextFoldKeeps(samples: seq<Sample>, folds: nat, embargo: int, k: nat, m: nat, q: nat, prior: seq<int>,
                      one: seq<int>, i: int)
    requires folds >= 1 && |samples| >= folds + 1 && m == k + 1 < folds && q == m + 1
    requires prior == Before(Order(samples), folds + 1, m) && one == TestAt(samples, folds, k)
    requires i in PurgeAndEmbargo(samples, prior, one, embargo)
    ensures i in FoldAt(samples, folds, embargo, m).train
  {
    hide FoldAt, PurgeAndEmbargo, Before, TestAt, Order;
    var next := TestAt(samples, folds, m);
    NextPrior(samples, folds, k, m, q, prior, one);
    NextStart(samples, folds, k, one, next);
    FoldTrain(samples, folds, embargo, m, q, prior + one, next);
    PurgeIsNested(samples, prior, one, next, embargo, i);
  }

  lemma StepIsNested(samples: seq<Sample>, folds: nat, embargo: int, k: nat, m: nat, i: int)
    requires folds >= 1 && |samples| >= folds + 1 && m == k + 1 < folds
    requires i in FoldAt(samples, folds, embargo, k).train
    ensures i in FoldAt(samples, folds, embargo, m).train
  {
    var prior, one := Before(Order(samples), folds + 1, m), TestAt(samples, folds, k);
    FoldTrain(samples, folds, embargo, k, m, prior, one);
    NextFoldKeeps(samples, folds, embargo, k, m, m + 1, prior, one, i);
  }

  /** Training sets only grow from fold to fold, even after the embargo. */
  lemma {:induction false} TrainingIsNested(samples: seq<Sample>, folds: nat, embargo: int, k: nat, m: nat, i: int)
    requires folds >= 1 && |samples| >= folds + 1 && k <= m < folds
    requires i in FoldAt(samples, folds, embargo, k).train
    ensures i in FoldAt(samples, folds, embargo, m).train
    decreases m - k
  {
    hide FoldAt;
    if k < m {
      var next := k + 1;
      StepIsNested(samples, folds, embargo, k, next, i);
      TrainingIsNested(samples, folds, embargo, next, m, i);
    }
  }
}
