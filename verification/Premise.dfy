/** Equal-count bucketing of a cross-section, `currentflow/research/premise.py`. */
module Premise {
  import opened Models
  import opened Sequences

  datatype Scored = Scored(symbol: string, feature: real, fwd: real)

  predicate ByFeature(a: Scored, b: Scored) { a.feature <= b.feature }

  function Ordered(scored: seq<Scored>): (r: seq<Scored>)
    ensures |r| == |scored|
  {
    Sort(scored, ByFeature)
  }

  function Returns(scored: seq<Scored>): (r: seq<real>)
    ensures |r| == |scored| && forall i :: 0 <= i < |r| ==> r[i] == scored[i].fwd
  {
    seq(|scored|, i requires 0 <= i < |scored| => scored[i].fwd)
  }

  /** `_bucket_of`. */
  function BucketOf(rank: nat, n: nat, buckets: nat): int
    requires n > 0
  {
    var k := rank * buckets / n;
    if k <= buckets - 1 then k else buckets - 1
  }

  /** First rank of bucket `k`: `k * n / buckets` rounded up. */
  function Boundary(k: nat, n: nat, buckets: nat): (r: nat)
    requires buckets > 0
  {
    (k * n + buckets - 1) / buckets
  }

  // ---- the counting ---------------------------------------------------------------------------------

  lemma FloorIff(x: int, d: int, q: int)
    requires d > 0
    ensures x / d == q <==> q * d <= x < q * d + d
  {
    var p, r := x / d, x % d;
    assert x == p * d + r;
    Monotone(p + 1, q, d);
    Monotone(q + 1, p, d);
    assert (p + 1) * d == p * d + d && (q + 1) * d == q * d + d;
  }

  lemma Monotone(a: int, b: int, d: int)
    requires d >= 0
    ensures a <= b ==> a * d <= b * d
  {
    assert b * d - a * d == (b - a) * d;
    if a <= b {
      assert (b - a) * d >= 0;
    }
  }

  /** `Boundary` is the least rank whose scaled value reaches `k * n`. */
  lemma BoundaryIsCeiling(k: nat, n: nat, buckets: nat, r: nat)
    requires buckets > 0
    ensures Boundary(k, n, buckets) <= r <==> k * n <= r * buckets
  {
    var c := Boundary(k, n, buckets);
    FloorIff(k * n + buckets - 1, buckets, c);
    if c <= r {
      Monotone(c, r, buckets);
    } else {
      Monotone(r + 1, c, buckets);
      assert (r + 1) * buckets == r * buckets + buckets;
    }
  }

  lemma FloorBetween(x: int, d: int, q: int, next: int)
    requires d > 0 && next == q + 1
    ensures x / d == q <==> q * d <= x && !(next * d <= x)
  {
    FloorIff(x, d, q);
    assert next * d == q * d + d;
  }

  /** Bucket `k` is the ranks from its boundary to the next. */
  lemma BucketIsSlice(rank: nat, n: nat, buckets: nat, k: nat, next: nat)
    requires rank < n && k < buckets && next == k + 1
    ensures BucketOf(rank, n, buckets) == k <==> Boundary(k, n, buckets) <= rank < Boundary(next, n, buckets)
  {
    RankBelow(rank, n, buckets);
    FloorBetween(rank * buckets, n, k, next);
    BoundaryIsCeiling(k, n, buckets, rank);
    BoundaryIsCeiling(next, n, buckets, rank);
  }

  /** The `min` in `_bucket_of` never acts. */
  lemma RankBelow(rank: nat, n: nat, buckets: nat)
    requires rank < n && buckets > 0
    ensures 0 <= rank * buckets / n < buckets
  {
    var x := rank * buckets;
    FloorIff(x, n, x / n);
    Monotone(rank + 1, n, buckets);
    assert (rank + 1) * buckets == x + buckets;
    var q := x / n;
    Monotone(buckets, q, n);
    assert x >= 0;
  }

  /** Bucket sizes are the floor or the ceiling of `n / buckets`. */
  lemma BucketSizes(k: nat, n: nat, buckets: nat, next: nat)
    requires buckets > 0 && next == k + 1
    ensures var size := Boundary(next, n, buckets) - Boundary(k, n, buckets);
            size == n / buckets || (size == n / buckets + 1 && n % buckets != 0)
  {
    var lo, hi, q := Boundary(k, n, buckets), Boundary(next, n, buckets), n / buckets;
    FloorIff(k * n + buckets - 1, buckets, lo);
    FloorIff(next * n + buckets - 1, buckets, hi);
    assert next * n == k * n + n;
    assert n == q * buckets + n % buckets;
    SizeBounds(hi - lo - q, buckets, n % buckets, hi * buckets - lo * buckets - q * buckets);
    assert (hi - lo - q) * buckets == hi * buckets - lo * buckets - q * buckets;
  }

  lemma SizeBounds(e: int, d: int, r: int, x: int)
    requires d > 0 && 0 <= r < d && x == e * d && r - d < x < r + d
    ensures e == 0 || (e == 1 && r != 0)
  {
    Monotone(2, e, d);
    Monotone(e, -1, d);
  }

  lemma BoundaryEnds(n: nat, buckets: nat)
    requires buckets > 0
    ensures Boundary(0, n, buckets) == 0 && Boundary(buckets, n, buckets) == n
  {
    FloorIff(buckets - 1, buckets, 0);
    FloorIff(buckets * n + buckets - 1, buckets, n);
  }

  lemma BoundaryAscends(j: nat, k: nat, n: nat, buckets: nat)
    requires buckets > 0 && j <= k
    ensures Boundary(j, n, buckets) <= Boundary(k, n, buckets)
    ensures k <= buckets ==> Boundary(k, n, buckets) <= n
  {
    var c := Boundary(k, n, buckets);
    BoundaryIsCeiling(k, n, buckets, c);
    BoundaryIsCeiling(j, n, buckets, c);
    Monotone(j, k, n);
    Monotone(k, buckets, n);
    BoundaryIsCeiling(k, n, buckets, n);
  }

  // ---- the buckets of a cross-section ------------------------------------------------------------------

  /** Cuts that split `n` ranks into consecutive pieces. */
  ghost predicate IsSplit(cuts: seq<nat>, n: nat) {
    && |cuts| > 1 && cuts[0] == 0 && cuts[|cuts| - 1] == n
    && forall j, k :: 0 <= j <= k < |cuts| ==> cuts[j] <= cuts[k] <= n
  }

  /** The cuts are where `_bucket_of` moves on. */
  ghost predicate Owns(cuts: seq<nat>, n: nat, buckets: nat)
    requires |cuts| == buckets + 1
  {
    forall i, k :: 0 <= i < n && 0 <= k < buckets ==> (BucketOf(i, n, buckets) == k <==> cuts[k] <= i < cuts[k + 1])
  }

  function Cuts(n: nat, buckets: nat): (cuts: seq<nat>)
    requires buckets > 0
    ensures |cuts| == buckets + 1 && IsSplit(cuts, n) && Owns(cuts, n, buckets)
  {
    var cuts: seq<nat> := seq(buckets + 1, k requires 0 <= k <= buckets => Boundary(k, n, buckets));
    assert IsSplit(cuts, n) by {
      BoundaryEnds(n, buckets);
      forall j: nat, k: nat | j <= k <= buckets ensures cuts[j] <= cuts[k] <= n {
        BoundaryAscends(j, k, n, buckets);
      }
    }
    assert Owns(cuts, n, buckets) by {
      forall i: nat, k: nat | i < n && k < buckets
        ensures BucketOf(i, n, buckets) == k <==> cuts[k] <= i < cuts[k + 1]
      {
        BucketIsSlice(i, n, buckets, k, k + 1);
      }
    }
    cuts
  }

  function Piece(k: nat, xs: seq<Scored>, cuts: seq<nat>): seq<Scored>
    requires IsSplit(cuts, |xs|) && k < |cuts| - 1
  {
    xs[cuts[k]..cuts[k + 1]]
  }

  datatype Section = Section(sums: seq<real>, counts: seq<nat>)

  function SectionOf(xs: seq<Scored>, cuts: seq<nat>): (r: Section)
    requires IsSplit(cuts, |xs|)
    ensures |r.sums| == |r.counts| == |cuts| - 1
  {
    Section(seq(|cuts| - 1, k requires 0 <= k < |cuts| - 1 => Sum(Returns(Piece(k, xs, cuts)))),
            seq(|cuts| - 1, k requires 0 <= k < |cuts| - 1 => |Piece(k, xs, cuts)|))
  }

  /** The members of bucket `k`: consecutive ranks of the sorted cross-section. */
  function Bucket(k: nat, scored: seq<Scored>, buckets: nat): seq<Scored>
    requires k < buckets
  {
    Piece(k, Ordered(scored), Cuts(|scored|, buckets))
  }

  function Bucketed(scored: seq<Scored>, buckets: nat): (r: Section)
    requires buckets > 0
    ensures |r.sums| == |r.counts| == buckets
  {
    SectionOf(Ordered(scored), Cuts(|scored|, buckets))
  }

  function Min(a: nat, b: nat): nat { if a <= b then a else b }

  /** Piece `k` as far as the first `i` ranks fill it. */
  function Filled(k: nat, i: nat, xs: seq<Scored>, cuts: seq<nat>): seq<Scored>
    requires IsSplit(cuts, |xs|) && k < |cuts| - 1 && i <= |xs|
  {
    xs[Min(cuts[k], i)..Min(cuts[k + 1], i)]
  }

  lemma FilledStep(k: nat, i: nat, xs: seq<Scored>, cuts: seq<nat>)
    requires IsSplit(cuts, |xs|) && k < |cuts| - 1 && i < |xs|
    ensures Filled(k, i + 1, xs, cuts)
            == if cuts[k] <= i < cuts[k + 1] then Filled(k, i, xs, cuts) + [xs[i]] else Filled(k, i, xs, cuts)
  {
  }

  lemma SumOfOneMore(xs: seq<Scored>, x: Scored)
    ensures Sum(Returns(xs + [x])) == Sum(Returns(xs)) + x.fwd
  {
    assert Returns(xs + [x]) == Returns(xs) + [x.fwd];
    SumSnoc(Returns(xs), x.fwd);
  }

  lemma BucketHasTwo(k: nat, scored: seq<Scored>, buckets: nat)
    requires k < buckets && |scored| >= 2 * buckets
    ensures |Bucket(k, scored, buckets)| >= 2
  {
    BucketSizes(k, |scored|, buckets, k + 1);
    QuotientOfTwo(|scored|, buckets);
  }

  lemma QuotientOfTwo(n: nat, d: nat)
    requires d > 0 && n >= 2 * d
    ensures n / d >= 2
  {
    FloorIff(n, d, n / d);
    Monotone(n / d + 1, 2, d);
    assert (n / d + 1) * d == n / d * d + d;
  }

  /** `_bucketize`: a cross-section that cannot give every bucket two names is refused, and only
      that; the empty-bucket guard after the loop never acts. */
  method Bucketize(scored: seq<Scored>, buckets: nat) returns (r: Option<Section>)
    requires buckets > 0
    ensures r == if |scored| < 2 * buckets then None else Some(Bucketed(scored, buckets))
  {
    if |scored| < buckets * 2 {
      return None;
    }
    var section := Tally(Ordered(scored), buckets, Cuts(|scored|, buckets));
    forall k: nat | k < buckets ensures section.counts[k] >= 2 {
      BucketHasTwo(k, scored, buckets);
    }
    if exists k :: 0 <= k < buckets && section.counts[k] == 0 {
      return None;
    }
    return Some(section);
  }

  /** The loop over the sorted cross-section. */
  method Tally(xs: seq<Scored>, buckets: nat, ghost cuts: seq<nat>) returns (r: Section)
    requires buckets > 0 && |cuts| == buckets + 1 && IsSplit(cuts, |xs|) && Owns(cuts, |xs|, buckets)
    ensures r == SectionOf(xs, cuts)
  {
    var sums: seq<real> := seq(buckets, _ => 0.0);
    var counts: seq<nat> := seq(buckets, _ => 0);
    for i := 0 to |xs|
      invariant Tallied(sums, counts, i, xs, cuts)
    {
      var b := FindBucket(i, |xs|, buckets, cuts);
      TallyStep(sums, counts, i, xs, cuts, b);
      sums, counts := sums[b := sums[b] + xs[i].fwd], counts[b := counts[b] + 1];
    }
    AllTallied(sums, counts, xs, cuts);
    return Section(sums, counts);
  }

  ghost predicate Tallied(sums: seq<real>, counts: seq<nat>, i: nat, xs: seq<Scored>, cuts: seq<nat>)
    requires IsSplit(cuts, |xs|) && i <= |xs|
  {
    && |sums| == |counts| == |cuts| - 1
    && forall k :: 0 <= k < |cuts| - 1 ==>
         sums[k] == Sum(Returns(Filled(k, i, xs, cuts))) && counts[k] == |Filled(k, i, xs, cuts)|
  }

  /** `_bucket_of` finds the piece that owns the rank. */
  method FindBucket(rank: nat, n: nat, buckets: nat, ghost cuts: seq<nat>) returns (b: nat)
    requires |cuts| == buckets + 1 && rank < n && buckets > 0 && Owns(cuts, n, buckets)
    ensures b < buckets && cuts[b] <= rank < cuts[b + 1]
  {
    RankBelow(rank, n, buckets);
    b := BucketOf(rank, n, buckets);
    ghost var first, next := cuts[b], cuts[b + 1];
    assert first <= rank < next;
  }

  lemma TallyStep(sums: seq<real>, counts: seq<nat>, i: nat, xs: seq<Scored>, cuts: seq<nat>, b: nat)
    requires IsSplit(cuts, |xs|) && i < |xs| && Tallied(sums, counts, i, xs, cuts)
    requires b < |cuts| - 1 && cuts[b] <= i < cuts[b + 1]
    ensures Tallied(sums[b := sums[b] + xs[i].fwd], counts[b := counts[b] + 1], i + 1, xs, cuts)
  {
    hide Filled, Returns;
    SumOfOneMore(Filled(b, i, xs, cuts), xs[i]);
    forall k: nat | k < |cuts| - 1
      ensures Filled(k, i + 1, xs, cuts) == if k == b then Filled(k, i, xs, cuts) + [xs[i]] else Filled(k, i, xs, cuts)
    {
      FilledStep(k, i, xs, cuts);
      assert k < b ==> cuts[k + 1] <= cuts[b];
      assert b < k ==> cuts[b + 1] <= cuts[k];
    }
  }

  lemma AllTallied(sums: seq<real>, counts: seq<nat>, xs: seq<Scored>, cuts: seq<nat>)
    requires IsSplit(cuts, |xs|) && Tallied(sums, counts, |xs|, xs, cuts)
    ensures Section(sums, counts) == SectionOf(xs, cuts)
  {
    forall k: nat | k < |cuts| - 1 ensures Filled(k, |xs|, xs, cuts) == Piece(k, xs, cuts) {
    }
    assert sums == SectionOf(xs, cuts).sums;
    assert counts == SectionOf(xs, cuts).counts;
  }

  // ---- what the buckets are -----------------------------------------------------------------------------

  lemma FeaturesOrdered(scored: seq<Scored>)
    ensures SortedBy(Ordered(scored), ByFeature)
  {
    SortSorted(scored, ByFeature);
  }

  /** No name in a lower bucket has a larger feature than one in a higher bucket. */
  lemma BucketsAreQuantiles(scored: seq<Scored>, buckets: nat, j: nat, k: nat, x: nat, y: nat)
    requires j < k < buckets && x < |Bucket(j, scored, buckets)| && y < |Bucket(k, scored, buckets)|
    ensures Bucket(j, scored, buckets)[x].feature <= Bucket(k, scored, buckets)[y].feature
  {
    FeaturesOrdered(scored);
    PiecesOrdered(Ordered(scored), Cuts(|scored|, buckets), j, k, x, y);
  }

  lemma PiecesOrdered(xs: seq<Scored>, cuts: seq<nat>, j: nat, k: nat, x: nat, y: nat)
    requires IsSplit(cuts, |xs|) && SortedBy(xs, ByFeature) && j < k < |cuts| - 1
    requires x < |Piece(j, xs, cuts)| && y < |Piece(k, xs, cuts)|
    ensures Piece(j, xs, cuts)[x].feature <= Piece(k, xs, cuts)[y].feature
  {
    assert cuts[j + 1] <= cuts[k];
    assert ByFeature(xs[cuts[j] + x], xs[cuts[k] + y]);
  }

  /** Every bucket has the floor of `n / buckets` names or one more, and one more only when they do
      not divide evenly. */
  lemma BucketsAreEqual(scored: seq<Scored>, buckets: nat, k: nat)
    requires k < buckets
    ensures var size := |Bucket(k, scored, buckets)|;
            size == |scored| / buckets || (size == |scored| / buckets + 1 && |scored| % buckets != 0)
  {
    BucketSizes(k, |scored|, buckets, k + 1);
  }

  lemma ReturnsCons(x: Scored, xs: seq<Scored>)
    ensures Sum(Returns([x] + xs)) == x.fwd + Sum(Returns(xs))
  {
    assert Returns([x] + xs) == [x.fwd] + Returns(xs);
    SumCons(x.fwd, Returns(xs));
  }

  lemma {:induction false} InsertReturns(x: Scored, xs: seq<Scored>)
    ensures Sum(Returns(Insert(x, xs, ByFeature))) == x.fwd + Sum(Returns(xs))
  {
    if xs == [] {
      ReturnsCons(x, []);
      assert [x] + [] == [x];
    } else {
      var y, rest := xs[0], xs[1..];
      assert xs == [y] + rest;
      InsertStep(x, y, rest, ByFeature);
      InsertReturns(x, rest);
      ReturnsCons(x, xs);
      ReturnsCons(y, rest);
      ReturnsCons(y, Insert(x, rest, ByFeature));
    }
  }

  lemma {:induction false} SortReturns(xs: seq<Scored>)
    ensures Sum(Returns(Ordered(xs))) == Sum(Returns(xs))
  {
    if xs != [] {
      var x, rest := xs[0], xs[1..];
      assert xs == [x] + rest;
      SortStep(x, rest, ByFeature);
      SortReturns(rest);
      InsertReturns(x, Ordered(rest));
      ReturnsCons(x, rest);
    }
  }

  function Total(xs: seq<nat>): nat {
    if xs == [] then 0 else Total(xs[..|xs| - 1]) + xs[|xs| - 1]
  }

  /** Bucketing loses no name and no return. */
  lemma BucketsConserve(scored: seq<Scored>, buckets: nat)
    requires buckets > 0
    ensures Sum(Bucketed(scored, buckets).sums) == Sum(Returns(scored))
    ensures Total(Bucketed(scored, buckets).counts) == |scored|
  {
    SortReturns(scored);
    PiecesConserve(Ordered(scored), Cuts(|scored|, buckets), buckets);
    var r := Bucketed(scored, buckets);
    assert r.sums[..buckets] == r.sums && r.counts[..buckets] == r.counts;
    assert Ordered(scored)[..|scored|] == Ordered(scored);
  }

  lemma {:induction false} PiecesConserve(xs: seq<Scored>, cuts: seq<nat>, k: nat)
    requires IsSplit(cuts, |xs|) && k < |cuts|
    ensures Sum(SectionOf(xs, cuts).sums[..k]) == Sum(Returns(xs[..cuts[k]]))
    ensures Total(SectionOf(xs, cuts).counts[..k]) == cuts[k]
  {
    if k > 0 {
      var sums, counts := SectionOf(xs, cuts).sums, SectionOf(xs, cuts).counts;
      var j := k - 1;
      PiecesConserve(xs, cuts, j);
      assert sums[..k] == sums[..j] + [sums[j]];
      SumSnoc(sums[..j], sums[j]);
      PieceAppends(xs, cuts[j], cuts[k]);
      assert counts[..k][..j] == counts[..j] && counts[j] == cuts[k] - cuts[j];
    }
  }

  lemma PieceAppends(xs: seq<Scored>, a: nat, b: nat)
    requires a <= b <= |xs|
    ensures Sum(Returns(xs[..b])) == Sum(Returns(xs[..a])) + Sum(Returns(xs[a..b]))
  {
    assert Returns(xs[..b]) == Returns(xs[..a]) + Returns(xs[a..b]);
    SumAppend(Returns(xs[..a]), Returns(xs[a..b]));
  }

  // ---- means and the spread --------------------------------------------------------------------------------

  function Mean(sums: seq<real>, counts: seq<nat>, k: nat): real
    requires k < |sums| == |counts| && counts[k] > 0
  {
    sums[k] / counts[k] as real
  }

  ghost predicate AllFilled(r: Section) {
    |r.sums| == |r.counts| > 0 && forall k :: 0 <= k < |r.counts| ==> r.counts[k] > 0
  }

  /** The day's spread: top bucket's mean less the bottom one's. */
  function Spread(r: Section): real
    requires AllFilled(r)
  {
    Mean(r.sums, r.counts, |r.sums| - 1) - Mean(r.sums, r.counts, 0)
  }

  lemma {:induction false} SumBetween(xs: seq<real>, low: real, high: real)
    requires forall i :: 0 <= i < |xs| ==> low <= xs[i] <= high
    ensures low * |xs| as real <= Sum(xs) <= high * |xs| as real
  {
    if xs != [] {
      var n := |xs| - 1;
      SumBetween(xs[..n], low, high);
      assert low * |xs| as real == low * n as real + low;
      assert high * |xs| as real == high * n as real + high;
    }
  }

  lemma MeanBetween(s: real, c: nat, low: real, high: real)
    requires c > 0 && low * c as real <= s <= high * c as real
    ensures low <= s / c as real <= high
  {
    var q, d := s / c as real, c as real;
    assert s == q * d;
    assert (q - low) * d >= 0.0 && (high - q) * d >= 0.0;
  }

  lemma MeanOfPiece(xs: seq<Scored>, cuts: seq<nat>, k: nat, low: real, high: real)
    requires IsSplit(cuts, |xs|) && k < |cuts| - 1 && Piece(k, xs, cuts) != []
    requires forall i :: cuts[k] <= i < cuts[k + 1] ==> low <= xs[i].fwd <= high
    ensures var r := SectionOf(xs, cuts); low <= Mean(r.sums, r.counts, k) <= high
  {
    SumBetween(Returns(Piece(k, xs, cuts)), low, high);
    MeanBetween(Sum(Returns(Piece(k, xs, cuts))), |Piece(k, xs, cuts)|, low, high);
  }

  /** When the returns of the day never fall as the feature rises, neither do the bucket means. */
  lemma MonotonePremiseShows(scored: seq<Scored>, buckets: nat, j: nat, k: nat)
    requires j < k < buckets && |scored| >= 2 * buckets
    requires forall x, y :: 0 <= x < y < |scored| ==> Ordered(scored)[x].fwd <= Ordered(scored)[y].fwd
    ensures var r := Bucketed(scored, buckets);
            r.counts[j] > 0 && r.counts[k] > 0 && Mean(r.sums, r.counts, j) <= Mean(r.sums, r.counts, k)
  {
    BucketHasTwo(j, scored, buckets);
    BucketHasTwo(k, scored, buckets);
    var xs, cuts := Ordered(scored), Cuts(|scored|, buckets);
    assert cuts[j] < cuts[j + 1] <= cuts[k] < cuts[k + 1];
    MeanOfPiece(xs, cuts, j, xs[cuts[j]].fwd, xs[cuts[j + 1] - 1].fwd);
    MeanOfPiece(xs, cuts, k, xs[cuts[k]].fwd, xs[cuts[k + 1] - 1].fwd);
  }

  /** And the day's spread, top bucket over bottom, is not negative. */
  lemma MonotonePremiseSpreads(scored: seq<Scored>, buckets: nat)
    requires 2 <= buckets && |scored| >= 2 * buckets
    requires forall x, y :: 0 <= x < y < |scored| ==> Ordered(scored)[x].fwd <= Ordered(scored)[y].fwd
    ensures var r := Bucketed(scored, buckets); AllFilled(r) && Spread(r) >= 0.0
  {
    forall k: nat | k < buckets ensures Bucketed(scored, buckets).counts[k] > 0 {
      BucketHasTwo(k, scored, buckets);
    }
    MonotonePremiseShows(scored, buckets, 0, buckets - 1);
  }

  // ---- the forward return ------------------------------------------------------------------------------------

  predicate Priced(b: DailyBar) { b.status == TRADED && b.close.Some? && b.close.value != 0.0 }

  function FirstFrom(traded: seq<DailyBar>, day: int): (i: nat)
    ensures i <= |traded| && (i < |traded| ==> traded[i].date >= day)
    ensures forall j :: 0 <= j < i ==> traded[j].date < day
  {
    if traded == [] || traded[0].date >= day then 0 else 1 + FirstFrom(traded[1..], day)
  }

  /** `forward_return`. */
  function ForwardReturn(bars: seq<DailyBar>, day: int, horizon: nat): Option<real> {
    var traded := Sort(Filter(bars, Priced), ByDate);
    var entry := FirstFrom(traded, day);
    if entry == |traded| || entry + horizon >= |traded| then None
    else
      InMultiset(traded, Filter(bars, Priced));
      assert traded[entry] in traded;
      assert traded[entry + horizon] in traded;
      Some(traded[entry + horizon].close.value / traded[entry].close.value - 1.0)
  }

  /** The bars dated on or after the day. */
  function From(bars: seq<DailyBar>, day: int): seq<DailyBar> { Filter(bars, (b: DailyBar) => b.date >= day) }

  lemma {:induction false} FirstFromIsFilter(traded: seq<DailyBar>, day: int)
    requires SortedBy(traded, ByDate)
    ensures From(traded, day) == traded[FirstFrom(traded, day)..]
  {
    if traded != [] {
      if traded[0].date < day {
        FirstFromIsFilter(traded[1..], day);
      } else {
        forall j | 0 <= j < |traded| ensures traded[j].date >= day {
          assert j == 0 || ByDate(traded[0], traded[j]);
        }
        FilterAll(traded, (b: DailyBar) => b.date >= day);
      }
    }
  }

  lemma {:induction false} FilterAll<T>(xs: seq<T>, keep: T -> bool)
    requires forall i :: 0 <= i < |xs| ==> keep(xs[i])
    ensures Filter(xs, keep) == xs
  {
    if xs != [] {
      FilterAll(xs[1..], keep);
    }
  }

  /** The bars a feature may see and those a return may see have no day in common: the return
      depends only on bars dated on or after the decision day, in whatever order they come. */
  lemma ReturnIgnoresThePast(bars: seq<DailyBar>, other: seq<DailyBar>, day: int, horizon: nat)
    requires From(bars, day) == From(other, day)
    ensures ForwardReturn(bars, day, horizon) == ForwardReturn(other, day, horizon)
  {
    WindowOf(bars, day);
    WindowOf(other, day);
    SameWindow(bars, other, day, horizon);
  }

  lemma SameWindow(bars: seq<DailyBar>, other: seq<DailyBar>, day: int, horizon: nat)
    requires Window(bars, day) == Window(other, day)
    ensures ForwardReturn(bars, day, horizon) == ForwardReturn(other, day, horizon)
  {
    ReturnOfWindow(bars, day, horizon);
    ReturnOfWindow(other, day, horizon);
  }

  function Window(bars: seq<DailyBar>, day: int): (w: seq<DailyBar>)
    ensures forall i :: 0 <= i < |w| ==> Priced(w[i])
  {
    var traded := Sort(Filter(bars, Priced), ByDate);
    InMultiset(traded, Filter(bars, Priced));
    assert forall i :: 0 <= i < |traded| ==> traded[i] in traded;
    traded[FirstFrom(traded, day)..]
  }

  lemma ReturnOfWindow(bars: seq<DailyBar>, day: int, horizon: nat)
    ensures ForwardReturn(bars, day, horizon)
            == var w := Window(bars, day);
               if w == [] || |w| <= horizon then None else Some(w[horizon].close.value / w[0].close.value - 1.0)
  {
  }

  lemma WindowOf(bars: seq<DailyBar>, day: int)
    ensures Window(bars, day) == Sort(Filter(From(bars, day), Priced), ByDate)
  {
    var keep := (b: DailyBar) => b.date >= day;
    SortSorted(Filter(bars, Priced), ByDate);
    FirstFromIsFilter(Sort(Filter(bars, Priced), ByDate), day);
    FilterOfSort(Filter(bars, Priced), ByDate, keep);
    FilterOfFilter(bars, Priced, keep);
  }
}
