/** Bar characters of `currentflow/signals/vpa.py`: where a bar closed inside its own spread,
    against the recent bars. */
module Vpa {
  import opened Models
  import opened Sequences
  import opened Bars

  const CONTEXT_BARS: nat := 20
  const MIN_CONTEXT_BARS: nat := 5
  const HIGH_VOL_MULT := 1.5
  const LOW_VOL_MULT := 0.7
  const NARROW_SPREAD_MULT := 0.7
  const WIDE_SPREAD_MULT := 1.3
  const CLOSE_HIGH := 0.66
  const CLOSE_LOW := 0.34
  const TREND_BARS: nat := 5
  const TREND_PCT := 0.02
  const RIBBON_BARS: int := 20
  const FULL_CREDIT_BARS := 3.0

  datatype Character =
    | NO_DEMAND | NO_SUPPLY | ABSORPTION | STOPPING_VOLUME | SUPPLY_PRESENT
    | CHURN | DEMAND_CONFIRMED | NEUTRAL | UNREADABLE

  /** The ratios a readable bar is judged by. */
  datatype Ratios = Ratios(closePosition: real, spread: real, volume: real)

  datatype VpaBar =
    | Unreadable(date: int)
    | Readable(date: int, character: Character, up: bool, ratios: Ratios,
               effortWithoutResult: bool, resultWithoutEffort: bool)
  {
    predicate Available() { Readable? }
    function Kind(): Character { if Readable? then character else UNREADABLE }
  }

  // ---- one bar -----------------------------------------------------------------------------------------

  function Spread(b: Bar): real { b.high - b.low }

  function Spreads(bars: seq<Bar>): (r: seq<real>)
    ensures |r| == |bars| && forall i :: 0 <= i < |r| ==> r[i] == Spread(bars[i])
  {
    seq(|bars|, i requires 0 <= i < |bars| => Spread(bars[i]))
  }

  /** `history[-n - 1:-1]`: the `n` bars before the last. */
  function Before(history: seq<Bar>, n: nat): (r: seq<Bar>)
    requires history != []
    ensures |r| <= n && |r| < |history|
    ensures forall i :: 0 <= i < |r| ==> r[i] == history[|history| - 1 - |r| + i]
  {
    Last(history[..|history| - 1], n)
  }

  predicate MakesNewLow(bar: Bar, context: seq<Bar>) {
    forall i :: 0 <= i < |context| ==> bar.low <= context[i].low
  }

  /** The move over the trend base, when its first close is not zero. */
  function PriorMove(base: seq<Bar>): Option<real> {
    if |base| >= 2 && base[0].close != 0.0 then Some(base[|base| - 1].close / base[0].close - 1.0) else None
  }

  /** Where the last close sits against the one before it. */
  datatype Direction = UpBar | DownBar | LevelBar

  /** Everything the decision looks at. */
  datatype Evidence = Evidence(ratios: Ratios, direction: Direction, newLow: bool, move: Option<real>)

  function Decide(e: Evidence): (Character, bool, bool) {
    var highVol, lowVol := e.ratios.volume >= HIGH_VOL_MULT, e.ratios.volume <= LOW_VOL_MULT;
    var narrow, wide := e.ratios.spread <= NARROW_SPREAD_MULT, e.ratios.spread >= WIDE_SPREAD_MULT;
    var closedHigh, closedLow := e.ratios.closePosition >= CLOSE_HIGH, e.ratios.closePosition <= CLOSE_LOW;
    var up, down := e.direction == UpBar, e.direction == DownBar;
    if highVol then
      if narrow then (CHURN, true, false)
      else if closedHigh && !up then
        if e.newLow then (STOPPING_VOLUME, false, false) else (ABSORPTION, false, false)
      else if closedLow && up then (SUPPLY_PRESENT, true, false)
      else if closedHigh && up && wide then (DEMAND_CONFIRMED, false, false)
      else (NEUTRAL, false, false)
    else if lowVol && up && narrow && e.move.Some? && e.move.value >= TREND_PCT then (NO_DEMAND, false, false)
    else if lowVol && down && narrow && e.move.Some? && e.move.value <= -TREND_PCT then (NO_SUPPLY, false, false)
    else if lowVol && wide then (NEUTRAL, false, true)
    else (NEUTRAL, false, false)
  }

  function DirectionAgainst(bar: Bar, context: seq<Bar>): Direction
    requires context != []
  {
    var prev := context[|context| - 1];
    if bar.close > prev.close then UpBar else if bar.close < prev.close then DownBar else LevelBar
  }

  function Position(b: Bar): real
    requires Spread(b) > 0.0
  {
    (b.close - b.low) / Spread(b)
  }

  function SpreadRatio(bar: Bar, context: seq<Bar>): real
    requires Mean(Spreads(context)) > 0.0
  {
    Spread(bar) / Mean(Spreads(context))
  }

  function VolumeRatio(bar: Bar, context: seq<Bar>): real
    requires Mean(VolumesOf(context)) > 0.0
  {
    bar.volume / Mean(VolumesOf(context))
  }

  /** Enough context, a spread to sit in, and averages to compare with. */
  predicate CanRead(bar: Bar, context: seq<Bar>) {
    && |context| >= MIN_CONTEXT_BARS && Spread(bar) > 0.0
    && Mean(Spreads(context)) > 0.0 && Mean(VolumesOf(context)) > 0.0
  }

  /** What there is to judge a bar by. */
  function EvidenceFrom(bar: Bar, context: seq<Bar>, base: seq<Bar>): Evidence
    requires CanRead(bar, context)
  {
    Evidence(Ratios(Position(bar), SpreadRatio(bar, context), VolumeRatio(bar, context)),
             DirectionAgainst(bar, context), MakesNewLow(bar, context), PriorMove(base))
  }

  /** The last bar against those before it, or nothing when it cannot be read. */
  function EvidenceOf(history: seq<Bar>): Option<Evidence>
    requires history != []
  {
    EvidenceIn(history[|history| - 1], Before(history, CONTEXT_BARS), Before(history, TREND_BARS + 1))
  }

  function EvidenceIn(bar: Bar, context: seq<Bar>, base: seq<Bar>): Option<Evidence> {
    if CanRead(bar, context) then Some(EvidenceFrom(bar, context, base)) else None
  }

  /** `classify_bar`. */
  function ClassifyBar(history: seq<Bar>): VpaBar
    requires history != []
  {
    var date := history[|history| - 1].date;
    match EvidenceOf(history)
    case None => Unreadable(date)
    case Some(e) =>
      var (character, effort, result) := Decide(e);
      Readable(date, character, e.direction == UpBar, e.ratios, effort, result)
  }

  /** What each named character says of the bar: heavy or light volume, and a close or a spread that
      contradicts it. */
  lemma CharacterMeans(e: Evidence)
    ensures var (c, effort, result) := Decide(e); var v := e.ratios.volume;
            && (c in {CHURN, STOPPING_VOLUME, ABSORPTION, SUPPLY_PRESENT, DEMAND_CONFIRMED} ==> v >= HIGH_VOL_MULT)
            && (c in {NO_DEMAND, NO_SUPPLY} ==> v <= LOW_VOL_MULT && e.ratios.spread <= NARROW_SPREAD_MULT)
            && (c == STOPPING_VOLUME <==>
                (v >= HIGH_VOL_MULT && e.ratios.spread > NARROW_SPREAD_MULT
                 && e.ratios.closePosition >= CLOSE_HIGH && e.direction != UpBar && e.newLow))
            && (effort <==> c in {CHURN, SUPPLY_PRESENT})
            && !(effort && result) && c != UNREADABLE
  {
  }

  // ---- the ribbon --------------------------------------------------------------------------------------

  /** First prefix length of a ribbon of `span` bars. */
  function First(n: nat, span: int): (i: nat)
    ensures i >= 1
  {
    if n - span + 1 > 1 then n - span + 1 else 1
  }

  /** A reading of every prefix, from the `first` one on. */
  function Ends(usable: seq<Bar>, first: nat, read: seq<Bar> --> VpaBar): (r: seq<VpaBar>)
    requires first >= 1 && forall i :: first <= i <= |usable| ==> read.requires(usable[..i])
    ensures |r| == if first <= |usable| then |usable| + 1 - first else 0
    ensures forall i :: first <= i <= |usable| ==> r[i - first] == read(usable[..i])
    decreases |usable| + 1 - first
  {
    if first > |usable| then []
    else [read(usable[..first])] + Ends(usable, first + 1, read)
  }

  function Ribbon(usable: seq<Bar>, span: int): seq<VpaBar> { Ends(usable, First(|usable|, span), ClassifyBar) }

  function Span(window: Option<int>): int { if window.Some? then window.value else RIBBON_BARS }

  datatype VpaReading = VpaReading(bars: seq<VpaBar>, available: bool)

  function Reading(bars: seq<DailyBar>, window: Option<int>): VpaReading {
    var ribbon := Ribbon(Complete(bars), Span(window));
    VpaReading(ribbon, exists i :: 0 <= i < |ribbon| && ribbon[i].Available())
  }

  /** `build_reading`. */
  method BuildReading(bars: seq<DailyBar>, window: Option<int>) returns (r: VpaReading)
    ensures r == Reading(bars, window)
  {
    var usable, _ := CompleteBars(bars);
    var out := ReadEnds(usable, First(|usable|, Span(window)), ClassifyBar);
    r := VpaReading(out, exists j :: 0 <= j < |out| && out[j].Available());
  }

  /** The loop of `build_reading`. */
  method ReadEnds(usable: seq<Bar>, start: nat, read: seq<Bar> --> VpaBar) returns (out: seq<VpaBar>)
    requires start >= 1 && forall i :: start <= i <= |usable| ==> read.requires(usable[..i])
    ensures out == Ends(usable, start, read)
  {
    hide Ends;
    out := [];
    for i := start to if start <= |usable| then |usable| + 1 else start
      invariant |out| == i - start && out == Ends(usable, start, read)[..i - start]
    {
      out := out + [read(usable[..i])];
    }
  }

  /** Look-ahead safety bar by bar, for any per-bar reading: the bar a prefix ends in reads the same
      in every ribbon that holds it, however many bars have come after and wherever the ribbons
      start. */
  lemma RibbonIsStable(usable: seq<Bar>, n: nat, short: nat, long: nat, i: nat, read: seq<Bar> --> VpaBar)
    requires 1 <= short <= i <= n <= |usable| && 1 <= long <= i
    requires forall p: seq<Bar> :: p != [] ==> read.requires(p)
    ensures Ends(usable[..n], short, read)[i - short] == Ends(usable, long, read)[i - long]
  {
    assert usable[..n][..i] == usable[..i];
  }

  // ---- scale invariance -----------------------------------------------------------------------------------

  lemma RatioScaled(x: real, y: real, k: real)
    requires y != 0.0 && k != 0.0
    ensures Mul(k, y) != 0.0 && Mul(k, x) / Mul(k, y) == x / y
  {
    var q := x / y;
    assert x == q * y;
    assert k * x == q * (k * y);
  }

  lemma SignScaled(x: real, k: real)
    requires k > 0.0
    ensures (Mul(k, x) > 0.0 <==> x > 0.0) && (Mul(k, x) < 0.0 <==> x < 0.0)
  {
  }

  lemma OrderScaled(x: real, y: real, k: real)
    requires k > 0.0
    ensures (Mul(k, x) < Mul(k, y) <==> x < y) && (Mul(k, x) <= Mul(k, y) <==> x <= y)
  {
    SignScaled(y - x, k);
    assert k * (y - x) == k * y - k * x;
  }

  lemma MeanScaled(xs: seq<real>, ys: seq<real>, k: real)
    requires |xs| == |ys| && forall i :: 0 <= i < |xs| ==> ys[i] == Mul(k, xs[i])
    ensures Mean(ys) == Mul(k, Mean(xs))
  {
    SumScale(xs, ys, k);
    if xs != [] {
      QuotientScaled(Sum(xs), Sum(ys), |xs| as real, k);
    }
  }

  lemma QuotientScaled(x: real, y: real, n: real, k: real)
    requires n != 0.0 && y == Mul(k, x)
    ensures y / n == Mul(k, x / n)
  {
    var q := x / n;
    assert x == q * n;
    assert y == k * q * n;
  }

  lemma DifferenceScaled(x: real, y: real, k: real)
    ensures Mul(k, x) - Mul(k, y) == Mul(k, x - y)
  {
  }

  lemma SpreadScaled(b: Bar, k: real, m: real)
    ensures Spread(ScaledBar(b, k, m)) == Mul(k, Spread(b))
  {
    DifferenceScaled(b.high, b.low, k);
  }

  lemma PositionScaled(b: Bar, k: real, m: real)
    requires k > 0.0 && Spread(b) > 0.0
    ensures Spread(ScaledBar(b, k, m)) > 0.0 && Position(ScaledBar(b, k, m)) == Position(b)
  {
    SpreadScaled(b, k, m);
    SignScaled(Spread(b), k);
    RatioScaled(b.close - b.low, Spread(b), k);
    DifferenceScaled(b.close, b.low, k);
  }

  lemma SpreadMeanScaled(context: seq<Bar>, k: real, m: real)
    ensures Mean(Spreads(ScaledBars(context, k, m))) == Mul(k, Mean(Spreads(context)))
  {
    var scaled := ScaledBars(context, k, m);
    forall i | 0 <= i < |context| ensures Spreads(scaled)[i] == Mul(k, Spreads(context)[i]) {
      SpreadScaled(context[i], k, m);
    }
    MeanScaled(Spreads(context), Spreads(scaled), k);
  }

  lemma VolumeMeanScaled(context: seq<Bar>, k: real, m: real)
    ensures Mean(VolumesOf(ScaledBars(context, k, m))) == Mul(m, Mean(VolumesOf(context)))
  {
    MeanScaled(VolumesOf(context), VolumesOf(ScaledBars(context, k, m)), m);
  }

  lemma CanReadScaled(bar: Bar, context: seq<Bar>, k: real, m: real)
    requires k > 0.0 && m > 0.0
    ensures CanRead(ScaledBar(bar, k, m), ScaledBars(context, k, m)) <==> CanRead(bar, context)
  {
    SpreadMeanScaled(context, k, m);
    VolumeMeanScaled(context, k, m);
    SpreadScaled(bar, k, m);
    SignScaled(Spread(bar), k);
    SignScaled(Mean(Spreads(context)), k);
    SignScaled(Mean(VolumesOf(context)), m);
  }

  lemma SpreadRatioScaled(bar: Bar, context: seq<Bar>, k: real, m: real)
    requires k > 0.0 && Mean(Spreads(context)) > 0.0 && Mean(Spreads(ScaledBars(context, k, m))) > 0.0
    ensures SpreadRatio(ScaledBar(bar, k, m), ScaledBars(context, k, m)) == SpreadRatio(bar, context)
  {
    SpreadMeanScaled(context, k, m);
    SpreadScaled(bar, k, m);
    RatioScaled(Spread(bar), Mean(Spreads(context)), k);
  }

  lemma VolumeRatioScaled(bar: Bar, context: seq<Bar>, k: real, m: real)
    requires m > 0.0 && Mean(VolumesOf(context)) > 0.0 && Mean(VolumesOf(ScaledBars(context, k, m))) > 0.0
    ensures VolumeRatio(ScaledBar(bar, k, m), ScaledBars(context, k, m)) == VolumeRatio(bar, context)
  {
    VolumeMeanScaled(context, k, m);
    RatioScaled(bar.volume, Mean(VolumesOf(context)), m);
  }

  lemma DirectionScaled(bar: Bar, context: seq<Bar>, k: real, m: real)
    requires k > 0.0 && context != []
    ensures DirectionAgainst(ScaledBar(bar, k, m), ScaledBars(context, k, m)) == DirectionAgainst(bar, context)
  {
    var prev := context[|context| - 1];
    OrderScaled(bar.close, prev.close, k);
    OrderScaled(prev.close, bar.close, k);
  }

  lemma NewLowScaled(bar: Bar, context: seq<Bar>, k: real, m: real)
    requires k > 0.0
    ensures MakesNewLow(ScaledBar(bar, k, m), ScaledBars(context, k, m)) <==> MakesNewLow(bar, context)
  {
    forall i | 0 <= i < |context|
      ensures ScaledBar(bar, k, m).low <= ScaledBars(context, k, m)[i].low <==> bar.low <= context[i].low
    {
      OrderScaled(bar.low, context[i].low, k);
    }
  }

  lemma MoveScaled(base: seq<Bar>, k: real, m: real)
    requires k > 0.0
    ensures PriorMove(ScaledBars(base, k, m)) == PriorMove(base)
  {
    if |base| >= 2 {
      var x, y := base[|base| - 1].close, base[0].close;
      SignScaled(y, k);
      if y != 0.0 {
        RatioScaled(x, y, k);
        var scaled := ScaledBars(base, k, m);
        assert scaled[|base| - 1].close / scaled[0].close == x / y;
      }
    }
  }

  lemma BeforeScaled(history: seq<Bar>, n: nat, k: real, m: real)
    requires history != []
    ensures Before(ScaledBars(history, k, m), n) == ScaledBars(Before(history, n), k, m)
  {
    hide ScaledBar;
    assert ScaledBars(history, k, m)[..|history| - 1] == ScaledBars(history[..|history| - 1], k, m);
  }

  /** All evidence about a bar is unchanged when every price is multiplied by `k` and every volume by
      `m`. */
  lemma EvidenceScaled(history: seq<Bar>, k: real, m: real)
    requires history != [] && k > 0.0 && m > 0.0
    ensures EvidenceOf(ScaledBars(history, k, m)) == EvidenceOf(history)
  {
    hide EvidenceIn, Before, ScaledBar;
    var scaled := ScaledBars(history, k, m);
    BeforeScaled(history, CONTEXT_BARS, k, m);
    BeforeScaled(history, TREND_BARS + 1, k, m);
    var bar, context, base := history[|history| - 1], Before(history, CONTEXT_BARS), Before(history, TREND_BARS + 1);
    assert scaled[|scaled| - 1] == ScaledBar(bar, k, m);
    assert EvidenceOf(scaled) == EvidenceIn(ScaledBar(bar, k, m), ScaledBars(context, k, m), ScaledBars(base, k, m));
    EvidenceInScaled(bar, context, base, k, m);
  }

  lemma EvidenceInScaled(bar: Bar, context: seq<Bar>, base: seq<Bar>, k: real, m: real)
    requires k > 0.0 && m > 0.0
    ensures EvidenceIn(ScaledBar(bar, k, m), ScaledBars(context, k, m), ScaledBars(base, k, m)) ==
            EvidenceIn(bar, context, base)
  {
    CanReadScaled(bar, context, k, m);
    if CanRead(bar, context) {
      EvidenceFromScaled(bar, context, base, k, m);
    }
  }

  lemma EvidenceFromScaled(bar: Bar, context: seq<Bar>, base: seq<Bar>, k: real, m: real)
    requires k > 0.0 && m > 0.0 && CanRead(bar, context) && CanRead(ScaledBar(bar, k, m), ScaledBars(context, k, m))
    ensures EvidenceFrom(ScaledBar(bar, k, m), ScaledBars(context, k, m), ScaledBars(base, k, m))
            == EvidenceFrom(bar, context, base)
  {
    PositionScaled(bar, k, m);
    SpreadRatioScaled(bar, context, k, m);
    VolumeRatioScaled(bar, context, k, m);
    DirectionScaled(bar, context, k, m);
    NewLowScaled(bar, context, k, m);
    MoveScaled(base, k, m);
  }

  lemma {:induction false} EndsScaled(usable: seq<Bar>, first: nat, k: real, m: real, read: seq<Bar> --> VpaBar)
    requires first >= 1 && forall p: seq<Bar> :: p != [] ==> read.requires(p)
    requires forall p: seq<Bar> :: p != [] ==> read(ScaledBars(p, k, m)) == read(p)
    ensures Ends(ScaledBars(usable, k, m), first, read) == Ends(usable, first, read)
    decreases |usable| + 1 - first
  {
    if first <= |usable| {
      EndsScaled(usable, first + 1, k, m, read);
      assert ScaledBars(usable, k, m)[..first] == ScaledBars(usable[..first], k, m);
    }
  }

  lemma ClassifyScaled(history: seq<Bar>, k: real, m: real)
    requires history != [] && k > 0.0 && m > 0.0
    ensures ClassifyBar(ScaledBars(history, k, m)) == ClassifyBar(history)
  {
    hide EvidenceOf, ClassifyBar;
    EvidenceScaled(history, k, m);
    SameEvidence(history, ScaledBars(history, k, m));
  }

  lemma SameEvidence(a: seq<Bar>, b: seq<Bar>)
    requires a != [] && b != [] && a[|a| - 1].date == b[|b| - 1].date && EvidenceOf(a) == EvidenceOf(b)
    ensures ClassifyBar(a) == ClassifyBar(b)
  {
  }

  /** The whole reading, from raw bars through hygiene to the ribbon, is the same for a thin name and
      a large one: prices times `k`, volumes times `m`, nothing changes. */
  lemma ReadingIsScaleInvariant(bars: seq<DailyBar>, window: Option<int>, k: real, m: real)
    requires k > 0.0 && m > 0.0
    ensures Reading(ScaledAll(bars, k, m), window) == Reading(bars, window)
  {
    hide ClassifyBar, Complete, ScaledBars, ScaledAll, Ends;
    CompleteScaled(bars, k, m);
    forall p: seq<Bar> | p != [] ensures ClassifyBar(ScaledBars(p, k, m)) == ClassifyBar(p) {
      ClassifyScaled(p, k, m);
    }
    EndsScaled(Complete(bars), First(|Complete(bars)|, Span(window)), k, m, ClassifyBar);
  }

  // ---- what a reading is used for -----------------------------------------------------------------------

  datatype EventKind = SELLING_CLIMAX | SPRING | SOS | LPS | UTAD

  datatype Note = VpaConfirms(c: Character) | VpaDoesNotConfirm(c: Character) | ProfileConfirms(kind: EventKind)

  function Confirms(kind: EventKind): set<Character> {
    match kind
    case SPRING => {NO_SUPPLY, STOPPING_VOLUME, ABSORPTION}
    case LPS => {NO_SUPPLY, ABSORPTION}
    case SOS => {DEMAND_CONFIRMED}
    case UTAD => {SUPPLY_PRESENT, NO_DEMAND, CHURN}
    case SELLING_CLIMAX => {STOPPING_VOLUME, ABSORPTION}
  }

  function Contradicts(kind: EventKind): set<Character> {
    match kind
    case SPRING => {SUPPLY_PRESENT, CHURN}
    case LPS => {SUPPLY_PRESENT, NO_DEMAND}
    case SOS => {SUPPLY_PRESENT, CHURN, NO_DEMAND}
    case UTAD => {DEMAND_CONFIRMED}
    case SELLING_CLIMAX => {NO_DEMAND}
  }

  /** `by_date`: the last bar of the day wins. */
  function BarOn(bars: seq<VpaBar>, day: int): Option<VpaBar> {
    if bars == [] then None
    else if bars[|bars| - 1].date == day then Some(bars[|bars| - 1])
    else BarOn(bars[..|bars| - 1], day)
  }

  /** `corroboration`. */
  function Corroboration(reading: Option<VpaReading>, kind: EventKind, day: int): Option<Note> {
    if reading.None? then None
    else
      var bar := BarOn(reading.value.bars, day);
      if bar.None? || !bar.value.Available() || bar.value.Kind() in {NEUTRAL, UNREADABLE} then None
      else if bar.value.Kind() in Confirms(kind) then Some(VpaConfirms(bar.value.Kind()))
      else if bar.value.Kind() in Contradicts(kind) then Some(VpaDoesNotConfirm(bar.value.Kind()))
      else None
  }

  function DemandSide(bars: seq<VpaBar>): nat {
    if bars == [] then 0
    else
      DemandSide(bars[..|bars| - 1])
      + if bars[|bars| - 1].Kind() in {NO_SUPPLY, ABSORPTION, STOPPING_VOLUME} then 1 else 0
  }

  /** `subscore`. */
  function Subscore(reading: Option<VpaReading>): (r: (real, bool))
    ensures 0.0 <= r.0 <= 1.0
  {
    if reading.None? || !reading.value.available then (0.0, false)
    else
      var strength := DemandSide(reading.value.bars) as real / FULL_CREDIT_BARS;
      (if strength < 0.0 then 0.0 else if strength > 1.0 then 1.0 else strength, true)
  }
}
