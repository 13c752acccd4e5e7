/** The volume profile judges shape only: built from prices times `k` and volumes times `m`, its levels
    are the levels times `k`, and no confluence with a phase event appears or goes. */
module ProfileScale {
  import opened Models
  import opened Sequences
  import opened Bars
  import opened Vpa
  import Allocation
  import ValueArea
  import opened Profile
  import Phase
  import PhaseScale

  // ---- the window ----------------------------------------------------------------------------------------

  lemma {:induction false} FilterScaled(bars: seq<DailyBar>, k: real, m: real, p: DailyBar -> bool)
    requires forall b :: p(Scaled(b, k, m)) == p(b)
    ensures Filter(ScaledAll(bars, k, m), p) == ScaledAll(Filter(bars, p), k, m)
  {
    if bars != [] {
      FilterScaled(bars[1..], k, m, p);
      assert ScaledAll(bars, k, m)[1..] == ScaledAll(bars[1..], k, m);
      ScaledCons(bars[0], Filter(bars[1..], p), k, m);
    }
  }

  lemma ToBarScaled(b: DailyBar, k: real, m: real)
    requires Profile.IsComplete(b)
    ensures Profile.IsComplete(Scaled(b, k, m)) && Profile.ToBar(Scaled(b, k, m)) == ScaledBar(Profile.ToBar(b), k, m)
  {
    assert Mul(k, 0.0) == 0.0;
  }

  lemma ToBarsScaled(bars: seq<DailyBar>, k: real, m: real)
    requires forall b :: b in bars ==> Profile.IsComplete(b)
    ensures forall b :: b in ScaledAll(bars, k, m) ==> Profile.IsComplete(b)
    ensures ToBars(ScaledAll(bars, k, m)) == ScaledBars(ToBars(bars), k, m)
  {
    forall i | 0 <= i < |bars|
      ensures Profile.IsComplete(ScaledAll(bars, k, m)[i])
      ensures Profile.ToBar(ScaledAll(bars, k, m)[i]) == ScaledBar(Profile.ToBar(bars[i]), k, m)
    {
      assert bars[i] in bars;
      ToBarScaled(bars[i], k, m);
    }
  }

  lemma CompleteScaled(bars: seq<DailyBar>, k: real, m: real)
    ensures Profile.Complete(ScaledAll(bars, k, m)) == ScaledBars(Profile.Complete(bars), k, m)
  {
    var p := (b: DailyBar) => Profile.IsComplete(b);
    SortScaled(bars, k, m);
    FilterScaled(Sort(bars, ByDate), k, m, p);
    ToBarsScaled(Filter(Sort(bars, ByDate), p), k, m);
  }

  lemma UsableScaled(bars: seq<DailyBar>, window: Option<int>, k: real, m: real)
    ensures Usable(ScaledAll(bars, k, m), window) == ScaledBars(Usable(bars, window), k, m)
  {
    CompleteScaled(bars, k, m);
  }

  lemma {:induction false} LowestScaled(bars: seq<Bar>, k: real, m: real)
    requires bars != [] && k > 0.0
    ensures LowestLow(ScaledBars(bars, k, m)) == Mul(k, LowestLow(bars))
  {
    if |bars| > 1 {
      LowestScaled(bars[1..], k, m);
      assert ScaledBars(bars, k, m)[1..] == ScaledBars(bars[1..], k, m);
      OrderScaled(bars[0].low, LowestLow(bars[1..]), k);
    }
  }

  lemma {:induction false} HighestScaled(bars: seq<Bar>, k: real, m: real)
    requires bars != [] && k > 0.0
    ensures HighestHigh(ScaledBars(bars, k, m)) == Mul(k, HighestHigh(bars))
  {
    if |bars| > 1 {
      HighestScaled(bars[1..], k, m);
      assert ScaledBars(bars, k, m)[1..] == ScaledBars(bars[1..], k, m);
      OrderScaled(HighestHigh(bars[1..]), bars[0].high, k);
    }
  }

  lemma {:induction false} TradedScaled(bars: seq<Bar>, k: real, m: real)
    requires m > 0.0
    ensures Allocation.TotalTraded(ScaledBars(bars, k, m)) == Mul(m, Allocation.TotalTraded(bars))
  {
    if bars == [] {
      assert Mul(m, 0.0) == 0.0;
    } else {
      var n := |bars| - 1;
      TradedScaled(bars[..n], k, m);
      assert ScaledBars(bars, k, m)[..n] == ScaledBars(bars[..n], k, m);
      BarTradedScaled(bars[n], k, m);
      PlusScaled(Allocation.TotalTraded(bars[..n]), Allocation.TradedVolume(bars[n]), m);
    }
  }

  lemma BarTradedScaled(b: Bar, k: real, m: real)
    requires m > 0.0
    ensures Allocation.TradedVolume(ScaledBar(b, k, m)) == Mul(m, Allocation.TradedVolume(b))
  {
    SignScaled(b.volume, m);
  }

  lemma PlusScaled(x: real, y: real, k: real)
    ensures Mul(k, x) + Mul(k, y) == Mul(k, x + y)
  {
  }

  lemma ReadableScaled(bars: seq<Bar>, k: real, m: real)
    requires k > 0.0 && m > 0.0
    ensures Profile.Readable(ScaledBars(bars, k, m)) <==> Profile.Readable(bars)
  {
    if |bars| >= MIN_BARS {
      LowestScaled(bars, k, m);
      HighestScaled(bars, k, m);
      OrderScaled(LowestLow(bars), HighestHigh(bars), k);
      TradedScaled(bars, k, m);
      SignScaled(Allocation.TotalTraded(bars), m);
    }
  }

  lemma WidthScaled(bars: seq<Bar>, k: real, m: real)
    requires bars != [] && k > 0.0
    ensures BucketWidth(ScaledBars(bars, k, m)) == Mul(k, BucketWidth(bars))
  {
    hide HighestHigh, LowestLow, Mul;
    LowestScaled(bars, k, m);
    HighestScaled(bars, k, m);
    DifferenceScaled(HighestHigh(bars), LowestLow(bars), k);
    QuotientScaled(HighestHigh(bars) - LowestLow(bars), Mul(k, HighestHigh(bars) - LowestLow(bars)), BUCKETS as real,
                   k);
  }

  // ---- the allocation --------------------------------------------------------------------------------------

  lemma EdgeScaled(lo: real, width: real, i: int, k: real)
    ensures Allocation.Edge(Mul(k, lo), Mul(k, width), i) == Mul(k, Allocation.Edge(lo, width, i))
  {
    assert i as real * (k * width) == k * (i as real * width);
  }

  lemma MinMaxScaled(x: real, y: real, k: real)
    requires k > 0.0
    ensures Allocation.Min(Mul(k, x), Mul(k, y)) == Mul(k, Allocation.Min(x, y))
    ensures Allocation.Max(Mul(k, x), Mul(k, y)) == Mul(k, Allocation.Max(x, y))
  {
    OrderScaled(x, y, k);
    OrderScaled(y, x, k);
  }

  lemma CommonScaled(low: real, high: real, a: real, b: real, k: real)
    requires k > 0.0
    ensures Allocation.Common(Mul(k, low), Mul(k, high), Mul(k, a), Mul(k, b)) ==
            Mul(k, Allocation.Common(low, high, a, b))
  {
    var top, bottom := Allocation.Min(high, b), Allocation.Max(low, a);
    MinMaxScaled(high, b, k);
    MinMaxScaled(low, a, k);
    DifferenceScaled(top, bottom, k);
    MinMaxScaled(0.0, top - bottom, k);
    assert Mul(k, 0.0) == 0.0;
  }

  lemma OverlapScaled(b: Bar, lo: real, width: real, i: int, k: real, m: real)
    requires k > 0.0
    ensures Allocation.Overlap(ScaledBar(b, k, m), Mul(k, lo), Mul(k, width), i) ==
            Mul(k, Allocation.Overlap(b, lo, width, i))
  {
    EdgeScaled(lo, width, i, k);
    EdgeScaled(lo, width, i + 1, k);
    CommonScaled(b.low, b.high, Allocation.Edge(lo, width, i), Allocation.Edge(lo, width, i + 1), k);
  }

  lemma IndexScaled(price: real, lo: real, width: real, n: nat, k: real)
    requires k > 0.0 && width > 0.0 && Mul(k, width) > 0.0 && n > 0
    ensures Allocation.IndexOf(Mul(k, price), Mul(k, lo), Mul(k, width), n) == Allocation.IndexOf(price, lo, width, n)
  {
    DifferenceScaled(price, lo, k);
    RatioScaled(price - lo, width, k);
  }

  lemma SliceScaled(volume: real, overlap: real, span: real, k: real, m: real)
    requires k > 0.0 && m > 0.0 && volume > 0.0 && overlap >= 0.0 && span > 0.0
    requires Mul(m, volume) > 0.0 && Mul(k, overlap) >= 0.0 && Mul(k, span) > 0.0
    ensures Allocation.Slice(Mul(m, volume), Mul(k, overlap), Mul(k, span)) ==
            Mul(m, Allocation.Slice(volume, overlap, span))
  {
    var q := volume * overlap / span;
    assert volume * overlap == q * span;
    assert m * volume * (k * overlap) == m * k * (volume * overlap);
    assert m * k * (q * span) == m * q * (k * span);
    Divides(m * volume * (k * overlap), m * q, k * span);
  }

  lemma Divides(x: real, q: real, y: real)
    requires y > 0.0 && x == q * y
    ensures x / y == q
  {
  }

  lemma ShareScaled(b: Bar, lo: real, width: real, n: nat, i: nat, k: real, m: real)
    requires k > 0.0 && m > 0.0 && width > 0.0 && Mul(k, width) > 0.0 && i < n
    ensures Allocation.UniformShare(ScaledBar(b, k, m), Mul(k, lo), Mul(k, width), n, i)
            == Mul(m, Allocation.UniformShare(b, lo, width, n, i))
  {
    SignScaled(b.volume, m);
    SpreadScaled(b, k, m);
    SignScaled(Spread(b), k);
    IndexScaled(b.low, lo, width, n, k);
    assert Mul(m, 0.0) == 0.0;
    OverlapScaled(b, lo, width, i, k, m);
    if b.volume > 0.0 && Spread(b) > 0.0 {
      SliceScaled(b.volume, Allocation.Overlap(b, lo, width, i), Spread(b), k, m);
    }
  }

  /** Term by term. */
  ghost predicate AreScaled(xs: seq<real>, ys: seq<real>, m: real) {
    |ys| == |xs| && forall i :: 0 <= i < |xs| ==> ys[i] == Mul(m, xs[i])
  }

  lemma {:induction false} VolumesScaled(bars: seq<Bar>, lo: real, width: real, n: nat, k: real, m: real)
    requires k > 0.0 && m > 0.0 && width > 0.0 && Mul(k, width) > 0.0
    ensures AreScaled(Allocation.Volumes(bars, lo, width, n),
                      Allocation.Volumes(ScaledBars(bars, k, m), Mul(k, lo), Mul(k, width), n), m)
  {
    if bars == [] {
      assert Mul(m, 0.0) == 0.0;
    } else {
      var last := |bars| - 1;
      var front := bars[..last];
      VolumesScaled(front, lo, width, n, k, m);
      assert ScaledBars(bars, k, m)[..last] == ScaledBars(front, k, m);
      forall i: nat | i < n
        ensures Allocation.Volumes(ScaledBars(bars, k, m), Mul(k, lo), Mul(k, width), n)[i]
                == Mul(m, Allocation.Volumes(bars, lo, width, n)[i])
      {
        ShareScaled(bars[last], lo, width, n, i, k, m);
        PlusScaled(Allocation.Volumes(front, lo, width, n)[i], Allocation.UniformShare(bars[last], lo, width, n, i), m);
      }
    }
  }

  // ---- the levels ---------------------------------------------------------------------------------------

  lemma {:induction false} PocScaled(xs: seq<real>, ys: seq<real>, m: real)
    requires m > 0.0 && xs != [] && AreScaled(xs, ys, m)
    ensures PointOfControl(ys) == PointOfControl(xs)
  {
    if |xs| > 1 {
      var n := |xs| - 1;
      PocScaled(xs[..n], ys[..n], m);
      OrderScaled(xs[PointOfControl(xs[..n])], xs[n], m);
    }
  }

  lemma BandSumScaled(xs: seq<real>, ys: seq<real>, band: ValueArea.Band, m: real)
    requires AreScaled(xs, ys, m) && ValueArea.IsBand(xs, band)
    ensures ValueArea.BandSum(ys, band) == Mul(m, ValueArea.BandSum(xs, band))
  {
    SumScale(xs[band.lo..band.hi + 1], ys[band.lo..band.hi + 1], m);
  }

  lemma StepScaled(xs: seq<real>, ys: seq<real>, band: ValueArea.Band, m: real)
    requires m > 0.0 && AreScaled(xs, ys, m) && NonNegative(xs) && NonNegative(ys)
    requires ValueArea.IsBand(xs, band) && ValueArea.CanGrow(xs, band)
    ensures ValueArea.Step(ys, band) == ValueArea.Step(xs, band)
  {
    if band.lo > 0 && band.hi < |xs| - 1 {
      OrderScaled(xs[band.lo - 1], xs[band.hi + 1], m);
    }
  }

  lemma {:induction false} GrowScaled(xs: seq<real>, ys: seq<real>, target: real, band: ValueArea.Band, m: real)
    requires m > 0.0 && AreScaled(xs, ys, m) && NonNegative(xs) && NonNegative(ys) && ValueArea.IsBand(xs, band)
    ensures ValueArea.Grow(ys, Mul(m, target), band) == ValueArea.Grow(xs, target, band)
    decreases |xs| - ValueArea.Width(band)
  {
    BandSumScaled(xs, ys, band, m);
    OrderScaled(ValueArea.BandSum(xs, band), target, m);
    if ValueArea.BandSum(xs, band) < target && ValueArea.CanGrow(xs, band) {
      StepScaled(xs, ys, band, m);
      GrowScaled(xs, ys, target, ValueArea.Step(xs, band), m);
    }
  }

  lemma TargetScaled(total: real, m: real)
    ensures Target(Mul(m, total)) == Mul(m, Target(total))
  {
    assert m * total * VALUE_AREA_PCT == m * (total * VALUE_AREA_PCT);
  }

  /** `q`'s levels and bucket width are those of `p` times `k`. */
  ghost predicate LevelsScaled(p: VolumeProfile, q: VolumeProfile, k: real)
    requires p.Available? && q.Available?
  {
    && q.poc == Mul(k, p.poc) && q.val == Mul(k, p.val) && q.vah == Mul(k, p.vah)
    && p.buckets != [] && q.buckets != []
    && q.buckets[0].high - q.buckets[0].low == Mul(k, p.buckets[0].high - p.buckets[0].low)
  }

  lemma BucketScaled(lo: real, width: real, xs: seq<real>, ys: seq<real>, i: nat, k: real)
    requires |xs| == |ys| && i < |xs|
    ensures var a, b := BucketAt(lo, width, xs, i), BucketAt(Mul(k, lo), Mul(k, width), ys, i);
            b.low == Mul(k, a.low) && b.high == Mul(k, a.high) && Mid(b) == Mul(k, Mid(a))
  {
    var a := BucketAt(lo, width, xs, i);
    EdgeScaled(lo, width, i, k);
    EdgeScaled(lo, width, i + 1, k);
    PlusScaled(a.low, a.high, k);
    QuotientScaled(a.low + a.high, Mul(k, a.low + a.high), 2.0, k);
  }

  lemma WindowVolumesScaled(bars: seq<Bar>, k: real, m: real)
    requires k > 0.0 && m > 0.0 && Profile.Readable(bars) && Profile.Readable(ScaledBars(bars, k, m))
    ensures AreScaled(WindowVolumes(bars), WindowVolumes(ScaledBars(bars, k, m)), m)
  {
    LowestScaled(bars, k, m);
    WidthScaled(bars, k, m);
    VolumesScaled(bars, LowestLow(bars), BucketWidth(bars), BUCKETS, k, m);
  }

  /** The window's greedy band, and where it starts. */
  ghost function BandOf(vols: seq<real>, total: real): (band: ValueArea.Band)
    requires vols != []
    ensures band.lo < |vols| && band.hi < |vols|
  {
    ValueArea.Grow(vols, Target(total), ValueArea.Band(PointOfControl(vols), PointOfControl(vols)))
  }

  lemma BandScaled(xs: seq<real>, ys: seq<real>, total: real, m: real)
    requires m > 0.0 && xs != [] && AreScaled(xs, ys, m) && NonNegative(xs) && NonNegative(ys)
    ensures PointOfControl(ys) == PointOfControl(xs) && BandOf(ys, Mul(m, total)) == BandOf(xs, total)
  {
    PocScaled(xs, ys, m);
    TargetScaled(total, m);
    var poc := PointOfControl(xs);
    GrowScaled(xs, ys, Target(total), ValueArea.Band(poc, poc), m);
  }

  /** The levels a profile reads off its buckets. */
  ghost predicate HasLevels(p: VolumeProfile, lo: real, width: real, vols: seq<real>, total: real) {
    && p.Available? && vols != [] && p.buckets == Buckets(lo, width, vols)
    && p.poc == Mid(BucketAt(lo, width, vols, PointOfControl(vols)))
    && p.val == BucketAt(lo, width, vols, BandOf(vols, total).lo).low
    && p.vah == BucketAt(lo, width, vols, BandOf(vols, total).hi).high
  }

  lemma ReadsLevels(p: VolumeProfile, bars: seq<Bar>)
    requires p.Available? && Profile.Readable(bars) && ReadsAs(p, bars)
    ensures HasLevels(p, LowestLow(bars), BucketWidth(bars), WindowVolumes(bars), Allocation.TotalTraded(bars))
  {
  }

  lemma HasLevelsScaled(p: VolumeProfile, q: VolumeProfile, lo: real, width: real, xs: seq<real>, ys: seq<real>,
                        total: real, k: real, m: real)
    requires k > 0.0 && m > 0.0 && AreScaled(xs, ys, m) && NonNegative(xs) && NonNegative(ys)
    requires HasLevels(p, lo, width, xs, total) && HasLevels(q, Mul(k, lo), Mul(k, width), ys, Mul(m, total))
    ensures LevelsScaled(p, q, k)
  {
    hide PointOfControl, BandOf, BucketAt, Mid, Mul, NonNegative;
    BandScaled(xs, ys, total, m);
    BucketScaled(lo, width, xs, ys, PointOfControl(xs), k);
    BucketScaled(lo, width, xs, ys, BandOf(xs, total).lo, k);
    BucketScaled(lo, width, xs, ys, BandOf(xs, total).hi, k);
    FirstBucketScaled(lo, width, xs, ys, k);
  }

  lemma FirstBucketScaled(lo: real, width: real, xs: seq<real>, ys: seq<real>, k: real)
    requires |xs| == |ys| > 0
    ensures var a, b := Buckets(lo, width, xs)[0], Buckets(Mul(k, lo), Mul(k, width), ys)[0];
            b.high - b.low == Mul(k, a.high - a.low)
  {
    hide BucketAt, Mul;
    var a := BucketAt(lo, width, xs, 0);
    BucketScaled(lo, width, xs, ys, 0, k);
    DifferenceScaled(a.high, a.low, k);
  }

  lemma ReadingsScaled(p: VolumeProfile, q: VolumeProfile, bars: seq<Bar>, k: real, m: real)
    requires k > 0.0 && m > 0.0 && p.Available? && q.Available?
    requires Profile.Readable(bars) && Profile.Readable(ScaledBars(bars, k, m))
    requires ReadsAs(p, bars) && ReadsAs(q, ScaledBars(bars, k, m))
    ensures LevelsScaled(p, q, k)
  {
    ReadsLevels(p, bars);
    ReadsLevels(q, ScaledBars(bars, k, m));
    WindowVolumesScaled(bars, k, m);
    LowestScaled(bars, k, m);
    WidthScaled(bars, k, m);
    TradedScaled(bars, k, m);
    HasLevelsScaled(p, q, LowestLow(bars), BucketWidth(bars), WindowVolumes(bars),
                    WindowVolumes(ScaledBars(bars, k, m)), Allocation.TotalTraded(bars), k, m);
  }

  /** The profile of scaled bars is there exactly when the profile of the bars is, over the scaled
      window, with scaled levels. */
  lemma ProfileIsScaled(p: VolumeProfile, q: VolumeProfile, bars: seq<DailyBar>, window: Option<int>, k: real, m: real)
    requires k > 0.0 && m > 0.0 && IsProfileOf(p, bars, window) && IsProfileOf(q, ScaledAll(bars, k, m), window)
    ensures p.Available? == q.Available? && q.bars == ScaledBars(p.bars, k, m)
    ensures p.Available? ==> LevelsScaled(p, q, k)
  {
    UsableScaled(bars, window, k, m);
    ReadableScaled(Usable(bars, window), k, m);
    if p.Available? {
      ReadingsScaled(p, q, Usable(bars, window), k, m);
    }
  }

  // ---- confluences and notes ----------------------------------------------------------------------------

  lemma {:induction false} BarOnDayScaled(bars: seq<Bar>, day: int, k: real, m: real)
    ensures Phase.BarOnDay(ScaledBars(bars, k, m), day) == PhaseScale.ScaledFind(Phase.BarOnDay(bars, day), k, m)
  {
    if bars != [] {
      BarOnDayScaled(bars[1..], day, k, m);
      assert ScaledBars(bars, k, m)[1..] == ScaledBars(bars[1..], k, m);
    }
  }

  /** Reaching a level to within a tolerance. */
  lemma ReachScaled(price: real, level: real, tol: real, k: real)
    requires k > 0.0
    ensures Mul(k, price) <= Mul(k, level) + Mul(k, tol) <==> price <= level + tol
    ensures Mul(k, price) >= Mul(k, level) - Mul(k, tol) <==> price >= level - tol
    ensures Phase.Distance(Mul(k, price), Mul(k, level)) <= Mul(k, tol) <==> Phase.Distance(price, level) <= tol
  {
    PlusScaled(level, tol, k);
    DifferenceScaled(level, tol, k);
    OrderScaled(price, level + tol, k);
    OrderScaled(level - tol, price, k);
    OrderScaled(level, price, k);
    DifferenceScaled(price, level, k);
    DifferenceScaled(level, price, k);
    OrderScaled(price - level, tol, k);
    OrderScaled(level - price, tol, k);
  }

  lemma ConfluenceScaled(p: VolumeProfile, q: VolumeProfile, kind: EventKind, day: int, k: real, m: real)
    requires k > 0.0 && p.Available? == q.Available? && q.bars == ScaledBars(p.bars, k, m)
    requires p.Available? ==> LevelsScaled(p, q, k)
    ensures Phase.Confluence(Some(q), kind, day) == Phase.Confluence(Some(p), kind, day)
  {
    BarOnDayScaled(p.bars, day, k, m);
    var bar := Phase.BarOnDay(p.bars, day);
    if p.Available? && bar.Some? {
      var tol := p.buckets[0].high - p.buckets[0].low;
      ReachScaled(bar.value.low, p.val, tol, k);
      ReachScaled(bar.value.high, p.vah, tol, k);
      ReachScaled(bar.value.close, p.poc, tol, k);
    }
  }

  /** `phase.analyze`: bars classified with the readings built from those same bars. */
  ghost predicate IsAnalysis(c: Phase.Classification, bars: seq<DailyBar>, p: VolumeProfile) {
    IsProfileOf(p, bars, None) && c == Phase.Classify(bars, Some(Reading(bars, None)), Some(p))
  }

  /** The whole analysis is a judgement of shape, its notes included: with the readings built from the
      scaled bars themselves, nothing but the range changes. */
  lemma AnalysisIsScaleInvariant(c: Phase.Classification, d: Phase.Classification, bars: seq<DailyBar>,
                                 p: VolumeProfile, q: VolumeProfile, k: real, m: real)
    requires k > 0.0 && m > 0.0 && IsAnalysis(c, bars, p) && IsAnalysis(d, ScaledAll(bars, k, m), q)
    ensures d == c.(range := PhaseScale.ScaledOption(c.range, k, m))
  {
    ReadingIsScaleInvariant(bars, None, k, m);
    ProfileIsScaled(p, q, bars, None, k, m);
    Bars.CompleteScaled(bars, k, m);
    PhaseScale.VerdictScaled(Bars.Complete(bars), k, m);
    var v := Phase.VerdictOf(Bars.Complete(bars));
    SameNotes(v.events, Reading(bars, None), p, q, k, m);
  }

  lemma SameNotes(events: seq<Phase.PhaseEvent>, reading: VpaReading, p: VolumeProfile, q: VolumeProfile, k: real,
                  m: real)
    requires k > 0.0 && p.Available? == q.Available? && q.bars == ScaledBars(p.bars, k, m)
    requires p.Available? ==> LevelsScaled(p, q, k)
    ensures Phase.Corroborate(events, Some(reading), Some(q)) == Phase.Corroborate(events, Some(reading), Some(p))
  {
    forall i | 0 <= i < |events|
      ensures Phase.Confluence(Some(q), events[i].kind, events[i].date) ==
              Phase.Confluence(Some(p), events[i].kind, events[i].date)
    {
      ConfluenceScaled(p, q, events[i].kind, events[i].date, k, m);
    }
  }
}
