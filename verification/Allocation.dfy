/** Volume at price, the first half of `currentflow/signals/volume_profile.py`: each bar's volume
    spread over the price buckets its own range covers.  Floats are modelled as reals. */
module Allocation {
  import opened Models
  import opened Sequences

  // ---- volume at price --------------------------------------------------------------------

  function IndexOf(price: real, lo: real, width: real, n: nat): (i: nat)
    requires width > 0.0 && n > 0
    ensures i < n
  {
    var i := Trunc((price - lo) / width);
    if i < 0 then 0 else if i >= n then n - 1 else i
  }

  function Min(a: real, b: real): real { if a <= b then a else b }
  function Max(a: real, b: real): real { if a >= b then a else b }

  /** Lower edge of bucket `i`, hence upper edge of bucket `i - 1`. */
  function Edge(lo: real, width: real, i: int): real {
    lo + i as real * width
  }

  lemma EdgeMonotone(lo: real, width: real, i: int, j: int)
    requires width > 0.0 && i <= j
    ensures Edge(lo, width, i) <= Edge(lo, width, j)
    ensures i < j ==> Edge(lo, width, i) + width <= Edge(lo, width, j)
  {
    assert (j - i) as real * width >= if i < j then width else 0.0;
    assert j as real * width == i as real * width + (j - i) as real * width;
  }

  /** The part of `[low, high]` inside `[a, b]`. */
  function Common(low: real, high: real, a: real, b: real): (r: real)
    ensures r >= 0.0
  {
    Max(0.0, Min(high, b) - Max(low, a))
  }

  /** Length of the intersection of the bar's range with bucket `i`, 0 when they miss. */
  function Overlap(b: Bar, lo: real, width: real, i: int): (r: real)
    ensures r >= 0.0
  {
    Common(b.low, b.high, Edge(lo, width, i), Edge(lo, width, i + 1))
  }

  /** The part of `volume` that falls on `overlap` out of `span`. */
  function Slice(volume: real, overlap: real, span: real): (r: real)
    requires volume > 0.0 && overlap >= 0.0 && span > 0.0
    ensures r >= 0.0
  {
    assert volume * overlap >= 0.0;
    volume * overlap / span
  }

  /** What "trade was uniform across the bar's own range" allots to bucket `i`, stated for
      every bucket of the window and without the index arithmetic of the loop. */
  function UniformShare(b: Bar, lo: real, width: real, n: nat, i: nat): (r: real)
    requires width > 0.0 && i < n
    ensures r >= 0.0
  {
    if b.volume <= 0.0 then 0.0
    else if b.high - b.low <= 0.0 then
      if i == IndexOf(b.low, lo, width, n) then b.volume else 0.0
    else
      Slice(b.volume, Overlap(b, lo, width, i), b.high - b.low)
  }

  /** The bar's own row of the profile: its share of each bucket. */
  function Row(b: Bar, lo: real, width: real, n: nat): (r: seq<real>)
    requires width > 0.0
    ensures |r| == n
    ensures forall i :: 0 <= i < n ==> r[i] == UniformShare(b, lo, width, n, i)
    ensures NonNegative(r)
  {
    seq(n, i requires 0 <= i < n => UniformShare(b, lo, width, n, i))
  }

  function PlusRow(xs: seq<real>, ys: seq<real>): (zs: seq<real>)
    requires |xs| == |ys|
    ensures |zs| == |xs|
    ensures forall i :: 0 <= i < |xs| ==> zs[i] == xs[i] + ys[i]
  {
    seq(|xs|, i requires 0 <= i < |xs| => xs[i] + ys[i])
  }

  /** The profile of a window: the bars' rows added up. */
  function Volumes(bars: seq<Bar>, lo: real, width: real, n: nat): (r: seq<real>)
    requires width > 0.0
    ensures |r| == n
    ensures NonNegative(r)
  {
    if bars == [] then seq(n, _ => 0.0)
    else PlusRow(Volumes(bars[..|bars| - 1], lo, width, n), Row(bars[|bars| - 1], lo, width, n))
  }

  function TradedVolume(b: Bar): real { if b.volume <= 0.0 then 0.0 else b.volume }

  function TotalTraded(bars: seq<Bar>): (t: real)
    ensures t >= 0.0
  {
    if bars == [] then 0.0
    else TotalTraded(bars[..|bars| - 1]) + TradedVolume(bars[|bars| - 1])
  }

  /** The bar lies inside the window's price range (only a bar with a range can stick out). */
  predicate InRange(b: Bar, lo: real, width: real, n: nat) {
    b.high - b.low > 0.0 ==> lo <= b.low && b.high <= Edge(lo, width, n)
  }

  lemma FloorOfQuotient(x: real, width: real, n: nat)
    requires width > 0.0 && 0.0 <= x <= n as real * width
    ensures 0 <= (x / width).Floor <= n
    ensures (x / width).Floor as real * width <= x < ((x / width).Floor + 1) as real * width
  {
    var q := x / width;
    QuotientTimes(x, width);
    QuotientWithin(q, x, n, width);
    QuotientFloor(q, x, width);
  }

  lemma QuotientTimes(x: real, width: real)
    requires width > 0.0
    ensures x / width * width == x
  {
  }

  lemma QuotientWithin(q: real, x: real, n: nat, w: real)
    requires w > 0.0 && 0.0 <= x <= n as real * w && q * w == x
    ensures 0 <= q.Floor <= n
  {
    if q < 0.0 { TimesStrict(q, 0.0, w); }
    if n as real < q { TimesStrict(n as real, q, w); }
  }

  lemma QuotientFloor(q: real, x: real, w: real)
    requires w > 0.0 && q * w == x
    ensures q.Floor as real * w <= x < (q.Floor + 1) as real * w
  {
    TimesBetween(q.Floor as real, q, (q.Floor + 1) as real, x, w);
  }

  lemma TimesBetween(a: real, q: real, b: real, x: real, w: real)
    requires w > 0.0 && q * w == x && a <= q < b
    ensures a * w <= x < b * w
  {
    TimesStrict(q, b, w);
    if a < q { TimesStrict(a, q, w); }
  }

  lemma TimesStrict(a: real, b: real, w: real)
    requires a < b && w > 0.0
    ensures a * w < b * w
  {
    assert (b - a) * w > 0.0;
  }

  /** The index of a price of the window brackets it, the top price going to the top bucket. */
  lemma IndexBrackets(price: real, lo: real, width: real, n: nat)
    requires width > 0.0 && n > 0
    requires lo <= price <= Edge(lo, width, n)
    ensures var i := IndexOf(price, lo, width, n);
            && Edge(lo, width, i) <= price <= Edge(lo, width, i + 1)
            && (price < Edge(lo, width, n) ==> price < Edge(lo, width, i + 1))
  {
    FloorOfQuotient(price - lo, width, n);
    if ((price - lo) / width).Floor == n {
      EdgeMonotone(lo, width, n - 1, n);
    }
  }

  lemma CommonTelescopes(low: real, high: real, a: real, b: real)
    requires low <= high && a <= b
    ensures Max(0.0, Min(high, b) - low) == Max(0.0, Min(high, a) - low) + Common(low, high, a, b)
  {
  }

  function Overlaps(b: Bar, lo: real, width: real, i: nat): (r: seq<real>)
    ensures |r| == i
    ensures forall j :: 0 <= j < i ==> r[j] == Overlap(b, lo, width, j)
  {
    seq(i, j => Overlap(b, lo, width, j))
  }

  /** Up to bucket `i` the overlaps have covered exactly the part of the range below the
      bucket's lower edge, so the overlaps telescope. */
  lemma {:induction false} OverlapTelescopes(b: Bar, lo: real, width: real, i: nat)
    requires width > 0.0 && lo <= b.low < b.high
    ensures Sum(Overlaps(b, lo, width, i)) == Max(0.0, Min(b.high, Edge(lo, width, i)) - b.low)
  {
    if i > 0 {
      var j := i - 1;
      OverlapTelescopes(b, lo, width, j);
      assert Overlaps(b, lo, width, i) == Overlaps(b, lo, width, j) + [Overlap(b, lo, width, j)];
      SumSnoc(Overlaps(b, lo, width, j), Overlap(b, lo, width, j));
      OverlapAdds(b, lo, width, j, i);
    }
  }

  lemma OverlapAdds(b: Bar, lo: real, width: real, j: nat, i: nat)
    requires width > 0.0 && b.low < b.high && i == j + 1
    ensures Max(0.0, Min(b.high, Edge(lo, width, i)) - b.low)
            == Max(0.0, Min(b.high, Edge(lo, width, j)) - b.low) + Overlap(b, lo, width, j)
  {
    EdgeMonotone(lo, width, j, i);
    CommonTelescopes(b.low, b.high, Edge(lo, width, j), Edge(lo, width, i));
  }

  /** Conservation for one bar: what it allots to the buckets is its whole volume. */
  lemma RowConserves(b: Bar, lo: real, width: real, n: nat)
    requires width > 0.0 && n > 0 && InRange(b, lo, width, n)
    ensures Sum(Row(b, lo, width, n)) == TradedVolume(b)
  {
    var row := Row(b, lo, width, n);
    if b.volume <= 0.0 {
      SumScale(row, row, 0.0);
    } else if b.high - b.low <= 0.0 {
      SumOfSpike(row, IndexOf(b.low, lo, width, n), b.volume);
    } else {
      SpreadConserves(b, lo, width, n);
    }
  }

  lemma SpreadConserves(b: Bar, lo: real, width: real, n: nat)
    requires width > 0.0 && n > 0 && b.volume > 0.0
    requires lo <= b.low < b.high <= Edge(lo, width, n)
    ensures Sum(Row(b, lo, width, n)) == b.volume
  {
    WholeCovered(b, lo, width, n);
    SpreadOver(b, lo, width, n, b.high - b.low, Sum(Row(b, lo, width, n)));
  }

  lemma SpreadOver(b: Bar, lo: real, width: real, n: nat, span: real, sum: real)
    requires width > 0.0 && b.volume > 0.0 && span == b.high - b.low > 0.0
    requires span == Sum(Overlaps(b, lo, width, n)) && sum == Sum(Row(b, lo, width, n))
    ensures sum == b.volume
  {
    var rate := Rate(b.volume, span);
    forall i | 0 <= i < n ensures IsProduct(Row(b, lo, width, n)[i], rate, Overlaps(b, lo, width, n)[i]) {
      ShareScaled(b, lo, width, n, span, rate, i);
    }
    ScaledSum(Overlaps(b, lo, width, n), Row(b, lo, width, n), rate, span, sum);
    SameProduct(b.volume, sum, rate, span);
  }

  ghost predicate IsProduct(x: real, k: real, y: real) { x == k * y }

  lemma SameProduct(x: real, z: real, k: real, y: real)
    requires IsProduct(x, k, y) && IsProduct(z, k, y)
    ensures x == z
  {
  }

  lemma WholeCovered(b: Bar, lo: real, width: real, n: nat)
    requires width > 0.0 && lo <= b.low < b.high <= Edge(lo, width, n)
    ensures Sum(Overlaps(b, lo, width, n)) == b.high - b.low
  {
    OverlapTelescopes(b, lo, width, n);
  }

  /** Volume per unit of price. */
  function Rate(volume: real, span: real): (rate: real)
    requires span > 0.0
    ensures IsProduct(volume, rate, span)
  {
    volume / span
  }

  lemma ShareScaled(b: Bar, lo: real, width: real, n: nat, span: real, rate: real, i: nat)
    requires width > 0.0 && b.volume > 0.0 && span == b.high - b.low > 0.0 && IsProduct(b.volume, rate, span) && i < n
    ensures IsProduct(Row(b, lo, width, n)[i], rate, Overlaps(b, lo, width, n)[i])
  {
    SliceIsShare(b.volume, Overlap(b, lo, width, i), span, rate);
  }

  lemma ScaledSum(xs: seq<real>, ys: seq<real>, k: real, x: real, y: real)
    requires |xs| == |ys| && x == Sum(xs) && y == Sum(ys)
    requires forall i :: 0 <= i < |xs| ==> IsProduct(ys[i], k, xs[i])
    ensures IsProduct(y, k, x)
  {
    SumScale(xs, ys, k);
  }

  lemma SliceIsShare(volume: real, overlap: real, span: real, rate: real)
    requires volume > 0.0 && overlap >= 0.0 && span > 0.0 && IsProduct(volume, rate, span)
    ensures IsProduct(Slice(volume, overlap, span), rate, overlap)
  {
    assert volume * overlap == rate * overlap * span;
  }

  lemma {:induction false} SumOfSpike(xs: seq<real>, at: nat, v: real)
    requires at < |xs|
    requires forall i :: 0 <= i < |xs| ==> xs[i] == if i == at then v else 0.0
    ensures Sum(xs) == v
  {
    var n := |xs| - 1;
    if at == n {
      SumScale(xs[..n], xs[..n], 0.0);
    } else {
      SumOfSpike(xs[..n], at, v);
    }
  }

  /** Conservation for the window: the buckets hold exactly the positive bar volumes. */
  lemma {:induction false} VolumesConserve(bars: seq<Bar>, lo: real, width: real, n: nat)
    requires width > 0.0 && n > 0
    requires forall k :: 0 <= k < |bars| ==> InRange(bars[k], lo, width, n)
    ensures Sum(Volumes(bars, lo, width, n)) == TotalTraded(bars)
  {
    if bars == [] {
      var zeros := Volumes(bars, lo, width, n);
      SumScale(zeros, zeros, 0.0);
    } else {
      var front, last := bars[..|bars| - 1], bars[|bars| - 1];
      VolumesConserve(front, lo, width, n);
      assert last == bars[|bars| - 1];
      RowConserves(last, lo, width, n);
      SumPlus(Volumes(front, lo, width, n), Row(last, lo, width, n), Volumes(bars, lo, width, n));
    }
  }

  /** Outside the buckets from the low's to the high's, the bar has no overlap. */
  lemma OutsideNoOverlap(b: Bar, lo: real, width: real, n: nat, i: nat)
    requires width > 0.0 && n > 0 && i < n
    requires lo <= b.low < b.high <= Edge(lo, width, n)
    requires i < IndexOf(b.low, lo, width, n) || i > IndexOf(b.high, lo, width, n)
    ensures Overlap(b, lo, width, i) == 0.0
  {
    IndexBrackets(b.low, lo, width, n);
    IndexBrackets(b.high, lo, width, n);
    if i < IndexOf(b.low, lo, width, n) {
      EdgeMonotone(lo, width, i + 1, IndexOf(b.low, lo, width, n));
    } else {
      EdgeMonotone(lo, width, IndexOf(b.high, lo, width, n) + 1, i);
    }
  }

  /** `_allocate`: the loops of the source, one bar at a time into the bucket list. */
  method Allocate(bars: seq<Bar>, lo: real, width: real, n: nat) returns (vols: array<real>)
    requires width > 0.0 && n > 0
    requires forall k :: 0 <= k < |bars| ==> InRange(bars[k], lo, width, n)
    ensures fresh(vols)
    ensures vols[..] == Volumes(bars, lo, width, n)
  {
    vols := new real[n](_ => 0.0);
    assert vols[..] == Volumes(bars[..0], lo, width, n);
    var k := 0;
    while k < |bars|
      invariant 0 <= k <= |bars|
      invariant vols[..] == Volumes(bars[..k], lo, width, n)
    {
      assert bars[..k + 1][..k] == bars[..k];
      AddBar(bars[k], lo, width, n, vols);
      k := k + 1;
    }
    assert bars[..k] == bars;
  }

  /** The body of the source's outer loop. */
  method AddBar(b: Bar, lo: real, width: real, n: nat, vols: array<real>)
    requires width > 0.0 && n > 0 && vols.Length == n && InRange(b, lo, width, n)
    modifies vols
    ensures vols[..] == PlusRow(old(vols[..]), Row(b, lo, width, n))
  {
    if b.volume <= 0.0 {
      assert vols[..] == PlusRow(old(vols[..]), Row(b, lo, width, n));
      return;
    }
    var span := b.high - b.low;
    if span <= 0.0 {
      var at := IndexOf(b.low, lo, width, n);
      vols[at] := vols[at] + b.volume;
      assert vols[..] == PlusRow(old(vols[..]), Row(b, lo, width, n));
      return;
    }
    Spread(b, lo, width, n, vols);
    assert vols[..] == PlusRow(old(vols[..]), Row(b, lo, width, n));
  }

  /** The source's inner loop: the buckets from the low's to the high's. */
  method Spread(b: Bar, lo: real, width: real, n: nat, vols: array<real>)
    requires width > 0.0 && n > 0 && vols.Length == n && b.volume > 0.0
    requires lo <= b.low < b.high <= Edge(lo, width, n)
    modifies vols
    ensures forall j :: 0 <= j < n ==> vols[j] == old(vols[j]) + UniformShare(b, lo, width, n, j)
  {
    var first, last := IndexOf(b.low, lo, width, n), IndexOf(b.high, lo, width, n);
    var i := first;
    while i <= last
      invariant first <= i <= n
      invariant i <= last + 1 || i == first
      invariant forall j :: 0 <= j < n ==>
        vols[j] == old(vols[j]) + if first <= j < i then UniformShare(b, lo, width, n, j) else 0.0
    {
      var overlap := Min(b.high, Edge(lo, width, i + 1)) - Max(b.low, Edge(lo, width, i));
      if overlap > 0.0 {
        vols[i] := vols[i] + Slice(b.volume, overlap, b.high - b.low);
      }
      i := i + 1;
    }
    forall j | 0 <= j < n && !(first <= j <= last) ensures UniformShare(b, lo, width, n, j) == 0.0 {
      OutsideNoOverlap(b, lo, width, n, j);
    }
  }
}
