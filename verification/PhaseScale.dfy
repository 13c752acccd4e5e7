/** The phase gate and the trigger judge shape only: multiplying every price by `k` and every volume
    by `m` changes no verdict, no event, no reward-to-risk and no refusal. */
module PhaseScale {
  import opened Models
  import opened Sequences
  import opened Bars
  import opened Vpa
  import opened Phase
  import Profile
  import Trigger

  function ScaledRange(rng: TradingRange, k: real, m: real): TradingRange {
    TradingRange(Mul(k, rng.support), Mul(k, rng.resistance), rng.start, rng.end, Mul(m, rng.avgVolume))
  }

  // ---- measurements ------------------------------------------------------------------------------------

  lemma {:induction false} MinLowScaled(bars: seq<Bar>, k: real, m: real)
    requires bars != [] && k > 0.0
    ensures MinLow(ScaledBars(bars, k, m)) == Mul(k, MinLow(bars))
  {
    if |bars| > 1 {
      var front := bars[..|bars| - 1];
      MinLowScaled(front, k, m);
      assert ScaledBars(bars, k, m)[..|bars| - 1] == ScaledBars(front, k, m);
      OrderScaled(bars[|bars| - 1].low, MinLow(front), k);
    }
  }

  lemma {:induction false} MaxHighScaled(bars: seq<Bar>, k: real, m: real)
    requires bars != [] && k > 0.0
    ensures MaxHigh(ScaledBars(bars, k, m)) == Mul(k, MaxHigh(bars))
  {
    if |bars| > 1 {
      var front := bars[..|bars| - 1];
      MaxHighScaled(front, k, m);
      assert ScaledBars(bars, k, m)[..|bars| - 1] == ScaledBars(front, k, m);
      OrderScaled(MaxHigh(front), bars[|bars| - 1].high, k);
    }
  }

  lemma AvgVolumeScaled(bars: seq<Bar>, k: real, m: real)
    ensures AvgVolume(ScaledBars(bars, k, m)) == Mul(m, AvgVolume(bars))
  {
    VolumeMeanScaled(bars, k, m);
  }

  lemma ClosePositionScaled(b: Bar, k: real, m: real)
    requires k > 0.0
    ensures ClosePosition(ScaledBar(b, k, m)) == ClosePosition(b)
  {
    SpreadScaled(b, k, m);
    SignScaled(Spread(b), k);
    if Spread(b) > 0.0 {
      PositionScaled(b, k, m);
    }
  }

  lemma SliceScaled(bars: seq<Bar>, i: nat, n: nat, k: real, m: real)
    requires i <= |bars|
    ensures Slice(ScaledBars(bars, k, m), i, n) == ScaledBars(Slice(bars, i, n), k, m)
  {
  }

  lemma RecentScaled(window: seq<Bar>, k: real, m: real)
    ensures Recent(ScaledBars(window, k, m)) == ScaledBars(Recent(window), k, m)
    ensures BaseOf(ScaledBars(window, k, m)) == ScaledBars(BaseOf(window), k, m)
  {
  }

  // ---- the selling climax and the range -----------------------------------------------------------------

  /** `x` against `c` times `y`. */
  lemma MultipleScaled(x: real, c: real, y: real, k: real)
    requires k > 0.0
    ensures Mul(k, x) >= c * Mul(k, y) <==> x >= c * y
    ensures Mul(k, x) > c * Mul(k, y) <==> x > c * y
  {
    OrderScaled(c * y, x, k);
    assert k * (c * y) == c * (k * y);
  }

  predicate IsHeavy(b: Bar, prior: seq<Bar>) {
    AvgVolume(prior) > 0.0 && b.volume >= SC_VOLUME_MULT * AvgVolume(prior)
  }

  lemma HeavyScaled(b: Bar, prior: seq<Bar>, k: real, m: real)
    requires m > 0.0
    ensures IsHeavy(ScaledBar(b, k, m), ScaledBars(prior, k, m)) <==> IsHeavy(b, prior)
  {
    AvgVolumeScaled(prior, k, m);
    SignScaled(AvgVolume(prior), m);
    MultipleScaled(b.volume, SC_VOLUME_MULT, AvgVolume(prior), m);
  }

  predicate MakesLow(b: Bar, prior: seq<Bar>) { b.close < b.open && prior != [] && b.low <= MinLow(prior) }

  lemma MakesLowScaled(b: Bar, prior: seq<Bar>, k: real, m: real)
    requires k > 0.0
    ensures MakesLow(ScaledBar(b, k, m), ScaledBars(prior, k, m)) <==> MakesLow(b, prior)
  {
    OrderScaled(b.close, b.open, k);
    if prior != [] {
      MinLowScaled(prior, k, m);
      OrderScaled(b.low, MinLow(prior), k);
    }
  }

  predicate Rallies(high: real, low: real) { high > low * 1.02 }

  lemma RalliesScaled(high: real, low: real, k: real)
    requires k > 0.0
    ensures Rallies(Mul(k, high), Mul(k, low)) <==> Rallies(high, low)
  {
    MultipleScaled(high, 1.02, low, k);
  }

  predicate IsFollowed(b: Bar, after: seq<Bar>) { after != [] && Rallies(MaxHigh(after), b.low) }

  lemma FollowedScaled(b: Bar, after: seq<Bar>, k: real, m: real)
    requires k > 0.0
    ensures IsFollowed(ScaledBar(b, k, m), ScaledBars(after, k, m)) <==> IsFollowed(b, after)
  {
    if after != [] {
      MaxHighScaled(after, k, m);
      RalliesScaled(MaxHigh(after), b.low, k);
    }
  }

  function Prior(window: seq<Bar>, i: nat): seq<Bar>
    requires i <= |window|
  {
    window[if i >= ADV_WINDOW then i - ADV_WINDOW else 0..i]
  }

  lemma ClimaxParts(window: seq<Bar>, i: nat)
    requires i < |window|
    ensures IsClimax(window, i) <==>
            HasParts(window[i], Prior(window, i), Slice(window, i + 1, AR_SPAN))
  {
  }

  lemma ClimaxScaled(window: seq<Bar>, i: nat, k: real, m: real)
    requires i < |window| && k > 0.0 && m > 0.0
    ensures IsClimax(ScaledBars(window, k, m), i) <==> IsClimax(window, i)
  {
    ClimaxParts(window, i);
    ClimaxParts(ScaledBars(window, k, m), i);
    PriorScaled(window, i, k, m);
    SliceScaled(window, i + 1, AR_SPAN, k, m);
    PartsScaled(window[i], Prior(window, i), Slice(window, i + 1, AR_SPAN), k, m);
  }

  predicate HasParts(b: Bar, prior: seq<Bar>, after: seq<Bar>) {
    IsHeavy(b, prior) && MakesLow(b, prior) && IsFollowed(b, after)
  }

  lemma PartsScaled(b: Bar, prior: seq<Bar>, after: seq<Bar>, k: real, m: real)
    requires k > 0.0 && m > 0.0
    ensures HasParts(ScaledBar(b, k, m), ScaledBars(prior, k, m), ScaledBars(after, k, m)) <==>
            HasParts(b, prior, after)
  {
    HeavyScaled(b, prior, k, m);
    MakesLowScaled(b, prior, k, m);
    FollowedScaled(b, after, k, m);
  }

  lemma PriorScaled(window: seq<Bar>, i: nat, k: real, m: real)
    requires i <= |window|
    ensures Prior(ScaledBars(window, k, m), i) == ScaledBars(Prior(window, i), k, m)
  {
  }

  lemma {:induction false} HeaviestAgrees(marks: seq<bool>, x: seq<real>, y: seq<real>, end: nat)
    requires end <= |marks| == |x| == |y|
    requires forall i, j :: 0 <= i < |x| && 0 <= j < |x| ==> (x[i] > x[j] <==> y[i] > y[j])
    ensures Heaviest(marks, x, end) == Heaviest(marks, y, end)
  {
    if end > 2 {
      HeaviestAgrees(marks, x, y, end - 1);
    }
  }

  lemma SellingClimaxScaled(window: seq<Bar>, k: real, m: real)
    requires k > 0.0 && m > 0.0
    ensures SellingClimax(ScaledBars(window, k, m)) == SellingClimax(window)
  {
    var scaled := ScaledBars(window, k, m);
    forall i | 0 <= i < |window| ensures IsClimax(scaled, i) <==> IsClimax(window, i) {
      ClimaxScaled(window, i, k, m);
    }
    assert Climaxes(scaled) == Climaxes(window);
    var x, y := VolumesOf(scaled), VolumesOf(window);
    forall i, j | 0 <= i < |x| && 0 <= j < |x| ensures x[i] > x[j] <==> y[i] > y[j] {
      OrderScaled(y[j], y[i], m);
    }
    HeaviestAgrees(Climaxes(window), x, y, SearchEnd(|window|));
  }

  lemma RangeOfScaled(bars: seq<Bar>, over: seq<Bar>, start: int, end: int, k: real, m: real)
    requires bars != [] && k > 0.0 && m > 0.0
    ensures RangeOf(ScaledBars(bars, k, m), start, end, AvgVolume(ScaledBars(over, k, m)))
            == ScaledRange(RangeOf(bars, start, end, AvgVolume(over)), k, m)
  {
    MinLowScaled(bars, k, m);
    MaxHighScaled(bars, k, m);
    AvgVolumeScaled(over, k, m);
  }

  function ScaledOption(rng: Option<TradingRange>, k: real, m: real): Option<TradingRange> {
    if rng.None? then None else Some(ScaledRange(rng.value, k, m))
  }

  lemma EstablishRangeScaled(window: seq<Bar>, k: real, m: real)
    requires k > 0.0 && m > 0.0
    ensures EstablishRange(ScaledBars(window, k, m)) == ScaledOption(EstablishRange(window), k, m)
  {
    SellingClimaxScaled(window, k, m);
    RecentScaled(window, k, m);
    if SellingClimax(window).Some? {
      RangeAroundScaled(window, SellingClimax(window).value, k, m);
    } else {
      RangeOverScaled(BaseOf(window), k, m);
    }
  }

  lemma RangeAroundScaled(window: seq<Bar>, sc: nat, k: real, m: real)
    requires k > 0.0 && m > 0.0 && sc < |window|
    ensures RangeAround(ScaledBars(window, k, m), sc) == ScaledRange(RangeAround(window, sc), k, m)
  {
    var span, tail, start, end := Slice(window, sc, AR_SPAN), window[sc..], window[sc].date, window[|window| - 1].date;
    SliceScaled(window, sc, AR_SPAN, k, m);
    TailScaled(window, sc, k, m);
    assert span != [];
    assert RangeAround(ScaledBars(window, k, m), sc)
        == RangeOf(ScaledBars(span, k, m), start, end, AvgVolume(ScaledBars(tail, k, m)));
    RangeOfScaled(span, tail, start, end, k, m);
  }

  lemma TailScaled(window: seq<Bar>, sc: nat, k: real, m: real)
    requires sc < |window|
    ensures var scaled := ScaledBars(window, k, m);
            && scaled[sc..] == ScaledBars(window[sc..], k, m)
            && scaled[sc].date == window[sc].date && scaled[|scaled| - 1].date == window[|window| - 1].date
  {
  }

  lemma RangeOverScaled(base: seq<Bar>, k: real, m: real)
    requires k > 0.0 && m > 0.0
    ensures RangeOver(ScaledBars(base, k, m)) == ScaledOption(RangeOver(base), k, m)
  {
    var scaled := ScaledBars(base, k, m);
    if |base| >= RANGE_MIN_BARS {
      assert scaled[0].date == base[0].date && scaled[|base| - 1].date == base[|base| - 1].date;
      RangeOfScaled(base, base, base[0].date, base[|base| - 1].date, k, m);
    }
  }

  // ---- the trend ----------------------------------------------------------------------------------------

  lemma CrossTermScaled(x: real, c: real, meanY: real, k: real)
    ensures CrossTerm(x, Mul(k, c), Mul(k, meanY)) == Mul(k, CrossTerm(x, c, meanY))
  {
    assert x * (k * c - k * meanY) == k * (x * (c - meanY)) by {
      assert k * c - k * meanY == k * (c - meanY);
    }
  }

  lemma SumScaledBy(xs: seq<real>, ys: seq<real>, k: real)
    requires |xs| == |ys| && forall i :: 0 <= i < |xs| ==> ys[i] == Mul(k, xs[i])
    ensures Sum(ys) == Mul(k, Sum(xs))
  {
    SumScale(xs, ys, k);
  }

  lemma SlopeScaled(x: real, y: real, denom: real, k: real)
    requires y == Mul(k, x)
    ensures SlopeOf(y, denom) == Mul(k, SlopeOf(x, denom))
  {
    if denom != 0.0 {
      QuotientScaled(x, y, denom, k);
    }
  }

  lemma NormedScaled(slope: real, meanY: real, k: real)
    requires k > 0.0
    ensures Normed(Mul(k, slope), Mul(k, meanY)) == Normed(slope, meanY)
  {
    SignScaled(meanY, k);
    if meanY != 0.0 {
      RatioScaled(slope, meanY, k);
    }
  }

  lemma NormSlopeScaled(xs: seq<real>, ys: seq<real>, k: real)
    requires k > 0.0 && |xs| == |ys| && forall i :: 0 <= i < |xs| ==> ys[i] == Mul(k, xs[i])
    ensures NormSlope(ys) == NormSlope(xs)
  {
    var x, y := Mean(xs), Mean(ys);
    MeanScaled(xs, ys, k);
    var a, b := CrossTerms(xs, x), CrossTerms(ys, y);
    forall i | 0 <= i < |a| ensures b[i] == Mul(k, a[i]) {
      CrossTermScaled(i as real - MeanIndex(|xs|), xs[i], x, k);
    }
    SumScaledBy(a, b, k);
    var denom := Sum(IndexSquares(|xs|));
    SlopeScaled(Sum(a), Sum(b), denom, k);
    NormedScaled(SlopeOf(Sum(a), denom), x, k);
  }

  predicate NearBottom(close: real, support: real, resistance: real) {
    close <= support + 0.15 * (resistance - support)
  }

  lemma NearBottomScaled(close: real, support: real, resistance: real, k: real)
    requires k > 0.0
    ensures NearBottom(Mul(k, close), Mul(k, support), Mul(k, resistance)) <==> NearBottom(close, support, resistance)
  {
    OrderScaled(close, support + 0.15 * (resistance - support), k);
    assert k * (support + 0.15 * (resistance - support)) == k * support + 0.15 * (k * resistance - k * support);
  }

  lemma DowntrendParts(bars: seq<Bar>, rng: TradingRange)
    ensures IsDowntrend(bars, rng) <==>
            |bars| >= 3 && NormSlope(Closes(bars)) <= -0.003
            && NearBottom(bars[|bars| - 1].close, rng.support, rng.resistance)
  {
  }

  lemma DowntrendScaled(bars: seq<Bar>, rng: TradingRange, k: real, m: real)
    requires k > 0.0
    ensures IsDowntrend(ScaledBars(bars, k, m), ScaledRange(rng, k, m)) <==> IsDowntrend(bars, rng)
  {
    var scaled := ScaledBars(bars, k, m);
    DowntrendParts(bars, rng);
    DowntrendParts(scaled, ScaledRange(rng, k, m));
    NormSlopeScaled(Closes(bars), Closes(scaled), k);
    if |bars| >= 3 {
      NearBottomScaled(bars[|bars| - 1].close, rng.support, rng.resistance, k);
      assert scaled[|bars| - 1].close == Mul(k, bars[|bars| - 1].close);
    }
  }

  // ---- the detectors -------------------------------------------------------------------------------------

  /** `x` against a fraction of `y`. */
  lemma FractionScaled(x: real, y: real, c: real, k: real)
    requires k > 0.0
    ensures (Mul(k, x) < Mul(k, y) * c <==> x < y * c) && (Mul(k, x) <= Mul(k, y) * c <==> x <= y * c)
  {
    OrderScaled(x, y * c, k);
    assert k * (y * c) == k * y * c;
  }

  lemma VolumeCapScaled(volume: real, avg: real, c: real, m: real)
    requires m > 0.0
    ensures (Mul(m, avg) <= 0.0 || Mul(m, volume) <= c * Mul(m, avg)) <==> (avg <= 0.0 || volume <= c * avg)
    ensures (Mul(m, avg) <= 0.0 || Mul(m, volume) >= c * Mul(m, avg)) <==> (avg <= 0.0 || volume >= c * avg)
  {
    SignScaled(avg, m);
    MultipleScaled(volume, c, avg, m);
  }

  lemma SpringScaled(b: Bar, rng: TradingRange, k: real, m: real)
    requires k > 0.0 && m > 0.0
    ensures IsSpring(ScaledBar(b, k, m), ScaledRange(rng, k, m)) <==> IsSpring(b, rng)
  {
    FractionScaled(b.low, rng.support, 1.0 - SPRING_PENETRATION, k);
    OrderScaled(b.low, rng.support, k);
    OrderScaled(b.close, rng.support, k);
    VolumeCapScaled(b.volume, rng.avgVolume, SPRING_MAX_VOLUME_MULT, m);
  }

  predicate ClosesUp(b: Bar) { b.close > (if b.open != 0.0 then b.open else b.close) }

  lemma ClosesUpScaled(b: Bar, k: real, m: real)
    requires k > 0.0
    ensures ClosesUp(ScaledBar(b, k, m)) <==> ClosesUp(b)
  {
    SignScaled(b.open, k);
    OrderScaled(b.open, b.close, k);
  }

  lemma SosScaled(b: Bar, rng: TradingRange, k: real, m: real)
    requires k > 0.0 && m > 0.0
    ensures IsSos(ScaledBar(b, k, m), ScaledRange(rng, k, m)) <==> IsSos(b, rng)
  {
    OrderScaled(rng.resistance, b.high, k);
    ClosesUpScaled(b, k, m);
    assert IsSos(b, rng) <==> b.high >= rng.resistance && ClosesUp(b) && ClosePosition(b) >= 0.5
                              && (rng.avgVolume <= 0.0 || b.volume >= SOS_VOLUME_MULT * rng.avgVolume);
    ClosePositionScaled(b, k, m);
    VolumeCapScaled(b.volume, rng.avgVolume, SOS_VOLUME_MULT, m);
  }

  predicate AboveMid(x: real, support: real, resistance: real) { x >= support + 0.5 * (resistance - support) }

  lemma AboveMidScaled(x: real, support: real, resistance: real, k: real)
    requires k > 0.0
    ensures AboveMid(Mul(k, x), Mul(k, support), Mul(k, resistance)) <==> AboveMid(x, support, resistance)
  {
    OrderScaled(support + 0.5 * (resistance - support), x, k);
    assert k * (support + 0.5 * (resistance - support)) == k * support + 0.5 * (k * resistance - k * support);
  }

  lemma LpsScaled(b: Bar, rng: TradingRange, k: real, m: real)
    requires k > 0.0
    ensures IsLps(ScaledBar(b, k, m), ScaledRange(rng, k, m)) <==> IsLps(b, rng)
  {
    AboveMidScaled(b.low, rng.support, rng.resistance, k);
    AboveMidScaled(b.close, rng.support, rng.resistance, k);
    FractionScaled(b.close, rng.resistance, 1.0 + MARKUP_EXTENSION, k);
  }

  lemma UtadScaled(b: Bar, rng: TradingRange, k: real, m: real)
    requires k > 0.0
    ensures IsUtad(ScaledBar(b, k, m), ScaledRange(rng, k, m)) <==> IsUtad(b, rng)
  {
    OrderScaled(rng.resistance, b.high, k);
    OrderScaled(b.close, rng.resistance, k);
    ClosePositionScaled(b, k, m);
  }

  lemma WeakUpScaled(b: Bar, rng: TradingRange, k: real, m: real)
    requires k > 0.0 && m > 0.0
    ensures IsWeakUp(ScaledBar(b, k, m), ScaledRange(rng, k, m)) <==> IsWeakUp(b, rng)
  {
    OrderScaled(b.open, b.close, k);
    OrderScaled(rng.avgVolume, b.volume, m);
    ClosePositionScaled(b, k, m);
  }

  // ---- searches and structure -----------------------------------------------------------------------------

  lemma {:induction false} FindFirstScaled(bars: seq<Bar>, p: Bar -> bool, q: Bar -> bool, k: real, m: real)
    requires forall b :: q(ScaledBar(b, k, m)) == p(b)
    ensures FindFirst(ScaledBars(bars, k, m), q) == FindFirst(bars, p)
  {
    if bars != [] {
      FindFirstScaled(bars[1..], p, q, k, m);
      assert ScaledBars(bars, k, m)[1..] == ScaledBars(bars[1..], k, m);
    }
  }

  function ScaledFind(b: Option<Bar>, k: real, m: real): Option<Bar> {
    if b.None? then None else Some(ScaledBar(b.value, k, m))
  }

  lemma {:induction false} FindLastScaled(bars: seq<Bar>, p: Bar -> bool, q: Bar -> bool, k: real, m: real)
    requires forall b :: q(ScaledBar(b, k, m)) == p(b)
    ensures FindLast(ScaledBars(bars, k, m), q) == ScaledFind(FindLast(bars, p), k, m)
  {
    if bars != [] {
      var n := |bars| - 1;
      FindLastScaled(bars[..n], p, q, k, m);
      assert ScaledBars(bars, k, m)[..n] == ScaledBars(bars[..n], k, m);
    }
  }

  lemma {:induction false} CountScaled(bars: seq<Bar>, p: Bar -> bool, q: Bar -> bool, k: real, m: real)
    requires forall b :: q(ScaledBar(b, k, m)) == p(b)
    ensures |Filter(ScaledBars(bars, k, m), q)| == |Filter(bars, p)|
  {
    if bars != [] {
      CountScaled(bars[1..], p, q, k, m);
      assert ScaledBars(bars, k, m)[1..] == ScaledBars(bars[1..], k, m);
    }
  }

  lemma SpringFindScaled(window: seq<Bar>, rng: TradingRange, k: real, m: real)
    requires k > 0.0 && m > 0.0
    ensures Spring(ScaledBars(window, k, m), ScaledRange(rng, k, m)) == ScaledFind(Spring(window, rng), k, m)
  {
    var other := ScaledRange(rng, k, m);
    var p, q := (b: Bar) => IsSpring(b, rng), (b: Bar) => IsSpring(b, other);
    forall b ensures q(ScaledBar(b, k, m)) == p(b) {
      SpringScaled(b, rng, k, m);
    }
    RecentScaled(window, k, m);
    FindLastScaled(Recent(window), p, q, k, m);
  }

  lemma UtadFindScaled(window: seq<Bar>, rng: TradingRange, k: real, m: real)
    requires k > 0.0 && m > 0.0
    ensures Utad(ScaledBars(window, k, m), ScaledRange(rng, k, m)) == ScaledFind(Utad(window, rng), k, m)
  {
    var other := ScaledRange(rng, k, m);
    var p, q := (b: Bar) => IsUtad(b, rng), (b: Bar) => IsUtad(b, other);
    forall b ensures q(ScaledBar(b, k, m)) == p(b) {
      UtadScaled(b, rng, k, m);
    }
    RecentScaled(window, k, m);
    FindLastScaled(Recent(window), p, q, k, m);
  }

  lemma DistributesScaled(window: seq<Bar>, rng: TradingRange, k: real, m: real)
    requires k > 0.0 && m > 0.0
    ensures Distributes(ScaledBars(window, k, m), ScaledRange(rng, k, m)) <==> Distributes(window, rng)
  {
    var other := ScaledRange(rng, k, m);
    var p, q := (b: Bar) => IsWeakUp(b, rng), (b: Bar) => IsWeakUp(b, other);
    forall b ensures q(ScaledBar(b, k, m)) == p(b) {
      WeakUpScaled(b, rng, k, m);
    }
    RecentScaled(window, k, m);
    CountScaled(Recent(window), p, q, k, m);
  }

  lemma FindFromScaled(bars: seq<Bar>, start: nat, p: Bar -> bool, q: Bar -> bool, k: real, m: real)
    requires forall b :: q(ScaledBar(b, k, m)) == p(b)
    ensures FindFrom(ScaledBars(bars, k, m), start, q) == FindFrom(bars, start, p)
  {
    if start < |bars| {
      assert ScaledBars(bars, k, m)[start..] == ScaledBars(bars[start..], k, m);
      FindFirstScaled(bars[start..], p, q, k, m);
    }
  }

  lemma SosFindScaled(window: seq<Bar>, rng: TradingRange, k: real, m: real)
    requires k > 0.0 && m > 0.0
    ensures Sos(ScaledBars(window, k, m), ScaledRange(rng, k, m)) == Sos(window, rng)
  {
    hide IsSos, ScaledBar, ScaledRange, FindFrom;
    var other := ScaledRange(rng, k, m);
    var start := if |window| > EVENT_WINDOW + 1 then |window| - EVENT_WINDOW else 1;
    var p, q := (b: Bar) => IsSos(b, rng), (b: Bar) => IsSos(b, other);
    forall b ensures q(ScaledBar(b, k, m)) == p(b) {
      SosScaled(b, rng, k, m);
    }
    FindFromScaled(window, start, p, q, k, m);
  }

  lemma LpsFindScaled(window: seq<Bar>, rng: TradingRange, sos: nat, k: real, m: real)
    requires k > 0.0 && m > 0.0 && sos < |window|
    ensures Lps(ScaledBars(window, k, m), ScaledRange(rng, k, m), sos) == Lps(window, rng, sos)
  {
    hide IsLps, ScaledBar, ScaledRange;
    var other := ScaledRange(rng, k, m);
    var p, q := (b: Bar) => IsLps(b, rng), (b: Bar) => IsLps(b, other);
    forall b ensures q(ScaledBar(b, k, m)) == p(b) {
      LpsScaled(b, rng, k, m);
    }
    FindFromScaled(window, sos + 1, p, q, k, m);
  }

  lemma LpsAfterScaled(window: seq<Bar>, rng: TradingRange, k: real, m: real)
    requires k > 0.0 && m > 0.0
    ensures LpsAfter(ScaledBars(window, k, m), ScaledRange(rng, k, m)) == LpsAfter(window, rng)
  {
    SosFindScaled(window, rng, k, m);
    var sos := Sos(window, rng);
    if sos.Some? {
      LpsFindScaled(window, rng, sos.value, k, m);
    }
  }

  predicate TooWide(support: real, resistance: real)
    requires support > 0.0
  {
    (resistance - support) / support > RANGE_MAX_WIDTH
  }

  lemma TooWideScaled(support: real, resistance: real, k: real)
    requires k > 0.0 && support > 0.0 && Mul(k, support) > 0.0
    ensures TooWide(Mul(k, support), Mul(k, resistance)) <==> TooWide(support, resistance)
  {
    DifferenceScaled(resistance, support, k);
    RatioScaled(resistance - support, support, k);
  }

  lemma FallingScaled(window: seq<Bar>, rng: TradingRange, sc: Option<nat>, k: real, m: real)
    requires k > 0.0 && m > 0.0 && rng.support > 0.0 && (sc.Some? ==> sc.value <= |window|)
    ensures ScaledRange(rng, k, m).support > 0.0
    ensures StillFalling(ScaledBars(window, k, m), ScaledRange(rng, k, m), sc) <==> StillFalling(window, rng, sc)
  {
    hide IsDowntrend, BaseOf;
    SignScaled(rng.support, k);
    TooWideScaled(rng.support, rng.resistance, k);
    RecentScaled(window, k, m);
    var base := if sc.Some? then window[..sc.value] else BaseOf(window);
    var scaled := if sc.Some? then ScaledBars(window, k, m)[..sc.value] else BaseOf(ScaledBars(window, k, m));
    assert scaled == ScaledBars(base, k, m);
    DowntrendScaled(base, rng, k, m);
    assert StillFalling(window, rng, sc) <==>
           TooWide(rng.support, rng.resistance) || (base != [] && IsDowntrend(base, rng));
  }

  function ScaledStructure(st: Structure, k: real, m: real): Structure {
    Structure(ScaledFind(st.climax, k, m), st.youngClimax, Mul(k, st.last), ScaledFind(st.utad, k, m), st.distributes,
              st.falling, ScaledFind(st.spring, k, m), ScaledFind(st.sos, k, m), ScaledFind(st.lps, k, m))
  }

  lemma StructureScaled(window: seq<Bar>, rng: TradingRange, sc: Option<nat>, k: real, m: real)
    requires k > 0.0 && m > 0.0 && window != [] && rng.support > 0.0 && (sc.Some? ==> sc.value < |window|)
    ensures ScaledRange(rng, k, m).support > 0.0
    ensures StructureOf(ScaledBars(window, k, m), ScaledRange(rng, k, m), sc) ==
            ScaledStructure(StructureOf(window, rng, sc), k, m)
  {
    UtadFindScaled(window, rng, k, m);
    DistributesScaled(window, rng, k, m);
    FallingScaled(window, rng, sc, k, m);
    SpringFindScaled(window, rng, k, m);
    BarAtScaled(window, sc, k, m);
    SosBarScaled(window, rng, k, m);
    LpsBarScaled(window, rng, k, m);
    LastCloseScaled(window, k, m);
  }

  lemma SosBarScaled(window: seq<Bar>, rng: TradingRange, k: real, m: real)
    requires k > 0.0 && m > 0.0
    ensures BarAt(ScaledBars(window, k, m), Sos(ScaledBars(window, k, m), ScaledRange(rng, k, m)))
            == ScaledFind(BarAt(window, Sos(window, rng)), k, m)
  {
    SosFindScaled(window, rng, k, m);
    BarAtScaled(window, Sos(window, rng), k, m);
  }

  lemma LpsBarScaled(window: seq<Bar>, rng: TradingRange, k: real, m: real)
    requires k > 0.0 && m > 0.0
    ensures BarAt(ScaledBars(window, k, m), LpsAfter(ScaledBars(window, k, m), ScaledRange(rng, k, m)))
            == ScaledFind(BarAt(window, LpsAfter(window, rng)), k, m)
  {
    LpsAfterScaled(window, rng, k, m);
    BarAtScaled(window, LpsAfter(window, rng), k, m);
  }

  lemma BarAtScaled(window: seq<Bar>, i: Option<nat>, k: real, m: real)
    requires i.Some? ==> i.value < |window|
    ensures BarAt(ScaledBars(window, k, m), i) == ScaledFind(BarAt(window, i), k, m)
  {
  }

  lemma LastCloseScaled(window: seq<Bar>, k: real, m: real)
    requires window != []
    ensures ScaledBars(window, k, m)[|window| - 1].close == Mul(k, window[|window| - 1].close)
  {
  }

  // ---- the verdict and the trigger --------------------------------------------------------------------------

  function ScaledVerdict(v: Verdict, k: real, m: real): Verdict {
    Verdict(v.phase, ScaledOption(v.range, k, m), v.events)
  }

  lemma DecideScaled(st: Structure, rng: TradingRange, k: real, m: real)
    requires k > 0.0
    ensures Phase.Decide(ScaledStructure(st, k, m), ScaledRange(rng, k, m)) ==
            ScaledVerdict(Phase.Decide(st, rng), k, m)
  {
    FractionScaled(st.last, rng.resistance, 1.0 + MARKUP_EXTENSION, k);
    FractionScaled(st.last, rng.support, 1.0 - SPRING_PENETRATION, k);
  }

  lemma VerdictScaled(usable: seq<Bar>, k: real, m: real)
    requires k > 0.0 && m > 0.0
    ensures VerdictOf(ScaledBars(usable, k, m)) == ScaledVerdict(VerdictOf(usable), k, m)
  {
    var window, scaled := Last(usable, RANGE_LOOKBACK), ScaledBars(usable, k, m);
    assert Last(scaled, RANGE_LOOKBACK) == ScaledBars(window, k, m);
    var rng := EstablishRange(window);
    EstablishRangeScaled(window, k, m);
    SellingClimaxScaled(window, k, m);
    if |usable| >= MIN_BARS && rng.Some? {
      SignScaled(rng.value.support, k);
      if rng.value.support > 0.0 {
        StructureScaled(window, rng.value, SellingClimax(window), k, m);
        DecideScaled(StructureOf(window, rng.value, SellingClimax(window)), rng.value, k, m);
      }
    }
  }

  /** The same gate decision on a scaled range; notes may differ. */
  ghost predicate SameShape(a: Classification, b: Classification, k: real, m: real) {
    SameButForNotes(a, b.(range := a.range)) && b.range == ScaledOption(a.range, k, m)
  }

  /** The gate is a judgement of shape: phase, tradeability and dated events are the same for prices
      times `k` and volumes times `m`, and support and resistance scale along. */
  lemma GateIsScaleInvariant(bars: seq<DailyBar>, k: real, m: real, vpa: Option<VpaReading>,
                             vp: Option<Profile.VolumeProfile>)
    requires k > 0.0 && m > 0.0
    ensures SameShape(Classify(bars, vpa, vp), Classify(ScaledAll(bars, k, m), vpa, vp), k, m)
  {
    CompleteScaled(bars, k, m);
    VerdictScaled(Complete(bars), k, m);
  }

  function ScaledSignal(s: Trigger.Signal, k: real): Trigger.Signal {
    if s.Skip? then s
    else Trigger.Entry(s.kind, Mul(k, s.price), Mul(k, s.entry), Mul(k, s.stop), Mul(k, s.target), s.rr, s.valid)
  }

  lemma ConstantOut(x: real, c: real, k: real)
    ensures Mul(k, x) * c == Mul(k, x * c)
  {
    assert k * x * c == k * (x * c);
  }

  lemma RatioOfDifferences(a: real, b: real, c: real, d: real, k: real)
    requires k > 0.0 && c - d > 0.0
    ensures Mul(k, c) - Mul(k, d) > 0.0
    ensures (Mul(k, a) - Mul(k, b)) / (Mul(k, c) - Mul(k, d)) == (a - b) / (c - d)
  {
    DifferenceScaled(a, b, k);
    DifferenceScaled(c, d, k);
    SignScaled(c - d, k);
    RatioScaled(a - b, c - d, k);
  }

  lemma GeometryScaled(kind: Trigger.Kind, close: real, low: real, target: real, k: real)
    requires k > 0.0
    ensures Trigger.Geometry(kind, Mul(k, close), Mul(k, low), Mul(k, target)) ==
            ScaledSignal(Trigger.Geometry(kind, close, low, target), k)
  {
    var stop, entry := low * (1.0 - Trigger.STOP_BUFFER), close * (1.0 - Trigger.LIMIT_UNDERCUT);
    ConstantOut(low, 1.0 - Trigger.STOP_BUFFER, k);
    ConstantOut(close, 1.0 - Trigger.LIMIT_UNDERCUT, k);
    OrderScaled(stop, entry, k);
    OrderScaled(entry, target, k);
    if stop < entry {
      RatioOfDifferences(target, entry, entry, stop, k);
    }
  }

  lemma {:induction false} BarOnScaled(bars: seq<DailyBar>, day: int, k: real, m: real)
    ensures var a, b := Trigger.BarOn(bars, day), Trigger.BarOn(ScaledAll(bars, k, m), day);
            a.Some? == b.Some? && (a.Some? ==> b.value == Scaled(a.value, k, m))
  {
    if bars != [] {
      BarOnScaled(bars[1..], day, k, m);
      assert ScaledAll(bars, k, m)[1..] == ScaledAll(bars[1..], k, m);
    }
  }

  lemma TargetScaled(rng: TradingRange, k: real, m: real)
    ensures var s := ScaledRange(rng, k, m);
            s.resistance + Trigger.MEASURED_MOVE_MULT * s.Height() ==
              Mul(k, rng.resistance + Trigger.MEASURED_MOVE_MULT * rng.Height())
  {
    var r, h := rng.resistance, rng.Height();
    DifferenceScaled(rng.resistance, rng.support, k);
    assert k * r + Trigger.MEASURED_MOVE_MULT * (k * h) == k * (r + Trigger.MEASURED_MOVE_MULT * h);
  }

  lemma LocateScaled(a: seq<PhaseEvent>, b: seq<PhaseEvent>, kind: EventKind, bars: seq<DailyBar>, k: real, m: real)
    requires |a| == |b| && forall i :: 0 <= i < |a| ==> a[i].kind == b[i].kind && a[i].date == b[i].date
    ensures var x, y := Trigger.Locate(a, kind, bars), Trigger.Locate(b, kind, ScaledAll(bars, k, m));
            x.Some? == y.Some? && (x.Some? ==> y.value == Scaled(x.value, k, m))
  {
    EventDateOfNotes(a, b, kind);
    var day := EventDate(a, kind);
    if day.Some? {
      BarOnScaled(bars, day.value, k, m);
    }
  }

  /** So is the trigger: the same bar, the same refusal or validity and the same reward-to-risk, with
      entry, stop and target scaled. */
  lemma TriggerIsScaleInvariant(c: Classification, d: Classification, bars: seq<DailyBar>, k: real, m: real)
    requires k > 0.0 && m > 0.0 && SameShape(c, d, k, m)
    ensures Trigger.Detect(d, ScaledAll(bars, k, m)) == ScaledSignal(Trigger.Detect(c, bars), k)
  {
    var kind := if c.phase == C then SPRING else LPS;
    LocateScaled(c.events, d.events, kind, bars, k, m);
    var found := Trigger.Locate(c.events, kind, bars);
    if c.tradeable && c.range.Some? && found.Some? && found.value.close.Some? && found.value.low.Some? {
      var rng := c.range.value;
      TargetScaled(rng, k, m);
      GeometryScaled(if c.phase == C then Trigger.SpringTest else Trigger.LpsPullback, found.value.close.value,
                     found.value.low.value,
                     if c.phase == C then rng.resistance
                     else rng.resistance + Trigger.MEASURED_MOVE_MULT * rng.Height(), k);
    }
  }
}
