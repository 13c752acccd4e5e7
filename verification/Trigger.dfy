/** The entry triggers of `currentflow/execution/trigger.py`, and what a phase verdict guarantees
    them. */
module Trigger {
  import opened Models
  import opened Sequences
  import opened Bars
  import opened Vpa
  import opened Phase
  import Profile

  const STOP_BUFFER := 0.005
  const LIMIT_UNDERCUT := 0.0
  const RR_MIN := 2.0
  const MEASURED_MOVE_MULT := 1.0
  const FAST_LIMIT_PREMIUM := 0.005

  datatype Kind = SpringTest | LpsPullback | NoTrigger | FastArmed

  datatype Why = NotTradeable | NotLocatable | Incoherent | NoClose

  datatype Signal =
    | Skip(kind: Kind, why: Why)
    | Entry(kind: Kind, price: real, entry: real, stop: real, target: real, rr: real, valid: bool)

  /** `_bar_on`: the first TRADED bar of the day. */
  function BarOn(bars: seq<DailyBar>, day: int): Option<DailyBar> {
    if bars == [] then None
    else if bars[0].date == day && bars[0].status == TRADED then Some(bars[0])
    else BarOn(bars[1..], day)
  }

  /** The levels hung on a bar, if they are in order. */
  function Geometry(kind: Kind, close: real, low: real, target: real): Signal {
    var stop := low * (1.0 - STOP_BUFFER);
    var entry := close * (1.0 - LIMIT_UNDERCUT);
    if !(stop < entry < target) then Skip(kind, Incoherent)
    else
      var rr := (target - entry) / (entry - stop);
      Entry(kind, close, entry, stop, target, rr, rr >= RR_MIN)
  }

  function Locate(events: seq<PhaseEvent>, kind: EventKind, bars: seq<DailyBar>): Option<DailyBar> {
    var day := EventDate(events, kind);
    if day.Some? then BarOn(bars, day.value) else None
  }

  /** `detect`. */
  function Detect(c: Classification, bars: seq<DailyBar>): Signal {
    if !c.tradeable || c.range.None? then Skip(NoTrigger, NotTradeable)
    else
      var rng := c.range.value;
      var spring := c.phase == C;
      var kind := if spring then SpringTest else LpsPullback;
      var bar := Locate(c.events, if spring then SPRING else LPS, bars);
      if bar.None? || bar.value.close.None? || bar.value.low.None? then Skip(kind, NotLocatable)
      else
        var target := if spring then rng.resistance else rng.resistance + MEASURED_MOVE_MULT * rng.Height();
        Geometry(kind, bar.value.close.value, bar.value.low.value, target)
  }

  /** The last TRADED bar with a close. */
  function LastClose(bars: seq<DailyBar>): Option<real> {
    if bars == [] then None
    else
      var b := bars[|bars| - 1];
      if b.status == TRADED && b.close.Some? then b.close else LastClose(bars[..|bars| - 1])
  }

  /** `fast_detect`. */
  function FastDetect(c: Classification, bars: seq<DailyBar>): Signal {
    if !c.tradeable || c.range.None? || c.range.value.support <= 0.0 then Skip(FastArmed, NotTradeable)
    else
      var close := LastClose(bars);
      if close.None? then Skip(FastArmed, NoClose)
      else
        var rng := c.range.value;
        var entry := close.value * (1.0 + FAST_LIMIT_PREMIUM);
        var stop := rng.support * (1.0 - STOP_BUFFER);
        var target := if c.phase == C then rng.resistance else rng.resistance + MEASURED_MOVE_MULT * rng.Height();
        if !(stop < entry) then Skip(FastArmed, Incoherent)
        else Entry(FastArmed, close.value, entry, stop, target, (target - entry) / (entry - stop), true)
  }

  // ---- the inputs the store guarantees, and those the exchange does -----------------------------------

  /** At most one bar a date. */
  ghost predicate DistinctDates(bars: seq<DailyBar>) {
    forall i, j :: 0 <= i < j < |bars| ==> bars[i].date != bars[j].date
  }

  /** Every complete bar closes between its low and its high. */
  ghost predicate Sane(bars: seq<DailyBar>) {
    forall i :: 0 <= i < |bars| && IsComplete(bars[i]) ==>
      bars[i].low.value <= bars[i].close.value <= bars[i].high.value
  }

  lemma {:induction false} BarOnFinds(bars: seq<DailyBar>, i: nat)
    requires DistinctDates(bars) && i < |bars| && bars[i].status == TRADED
    ensures BarOn(bars, bars[i].date) == Some(bars[i])
  {
    if i > 0 {
      assert bars[0].date != bars[i].date;
      assert bars[i] == bars[1..][i - 1];
      BarOnFinds(bars[1..], i - 1);
    }
  }

  /** A bar of the window is the one `_bar_on` finds again in the raw list. */
  lemma WindowBarIsFound(bars: seq<DailyBar>, b: Bar)
    requires DistinctDates(bars) && b in Window(bars)
    ensures Found(bars, b)
    ensures Sane(bars) ==> b.low <= b.close <= b.high
  {
    var all := Complete(bars);
    var k :| 0 <= k < |Window(bars)| && Window(bars)[k] == b;
    assert all[|all| - |Window(bars)| + k] == b;
    CompleteFrom(bars, b);
    var i :| 0 <= i < |bars| && IsComplete(bars[i]) && ToBar(bars[i]) == b;
    BarOnFinds(bars, i);
  }

  lemma StopBelow(low: real, close: real)
    requires 0.0 < low <= close
    ensures low * (1.0 - STOP_BUFFER) < close * (1.0 - LIMIT_UNDERCUT)
  {
  }

  lemma RewardRisk(reward: real, risk: real)
    requires risk > 0.0
    ensures reward / risk >= RR_MIN <==> reward >= RR_MIN * risk
  {
    var q := reward / risk;
    assert reward == q * risk;
    assert (q - RR_MIN) * risk == reward - RR_MIN * risk;
    if q >= RR_MIN {
      assert (q - RR_MIN) * risk >= 0.0;
    } else {
      assert (RR_MIN - q) * risk > 0.0;
    }
  }

  /** What the levels on a bar come to: refused exactly when the close is not below the target, and
      valid exactly when the reward is at least twice the risk. */
  lemma GeometryIs(kind: Kind, close: real, low: real, target: real)
    requires 0.0 < low <= close
    ensures var s := Geometry(kind, close, low, target); var stop := low * (1.0 - STOP_BUFFER);
            if close < target
            then s.Entry? && s.entry == close && s.stop == stop < s.entry < s.target == target
                 && (s.valid <==> target - close >= RR_MIN * (close - stop))
            else s == Skip(kind, Incoherent)
  {
    StopBelow(low, close);
    if close < target {
      RewardRisk(target - close, close - low * (1.0 - STOP_BUFFER));
    }
  }

  // ---- a verdict gives a trigger -----------------------------------------------------------------------

  /** A tradeable verdict always finds its bar: on the bars it was made from, `detect` answers with
      that bar's levels or says that they are out of order, and the last is exactly when the close
      is at or above the target.  The stop is below the entry in every case. */
  ghost predicate Triggers(s: Signal, kind: Kind, b: Bar, target: real) {
    var stop := b.low * (1.0 - STOP_BUFFER);
    && 0.0 < b.low && stop < b.close
    && if b.close < target
       then s.Entry? && s.kind == kind && s.entry == b.close && s.stop == stop < s.entry < s.target == target
            && (s.valid <==> target - b.close >= RR_MIN * (b.close - stop))
       else s == Skip(kind, Incoherent)
  }

  lemma TriggerOf(kind: Kind, b: Bar, target: real)
    requires 0.0 < b.low <= b.close
    ensures Triggers(Geometry(kind, b.close, b.low, target), kind, b, target)
  {
    GeometryIs(kind, b.close, b.low, target);
    StopBelow(b.low, b.close);
  }

  /** The bar is where the verdict's event says it is. */
  ghost predicate Found(bars: seq<DailyBar>, b: Bar) {
    var found := BarOn(bars, b.date);
    found.Some? && IsComplete(found.value) && ToBar(found.value) == b
  }

  lemma DetectOf(c: Classification, bars: seq<DailyBar>, b: Bar)
    requires c.tradeable && c.range.Some? && (c.phase == C || c.phase == D) && Found(bars, b)
    requires EventDate(c.events, if c.phase == C then SPRING else LPS) == Some(b.date)
    ensures var rng := c.range.value;
            Detect(c, bars) == if c.phase == C then Geometry(SpringTest, b.close, b.low, rng.resistance)
                               else Geometry(LpsPullback, b.close, b.low,
                                             rng.resistance + MEASURED_MOVE_MULT * rng.Height())
  {
  }

  /** Phase C needs no sane bars: the spring's own close is back above support. */
  lemma SpringGivesTrigger(bars: seq<DailyBar>, vpa: Option<VpaReading>, vp: Option<Profile.VolumeProfile>)
    returns (b: Bar)
    requires DistinctDates(bars) && Classify(bars, vpa, vp).phase == C
    ensures var c := Classify(bars, vpa, vp);
            && c.range.Some? && b in Recent(Window(bars)) && IsSpring(b, c.range.value)
            && Triggers(Detect(c, bars), SpringTest, b, c.range.value.resistance)
  {
    var c := Classify(bars, vpa, vp);
    b := SpringBehindC(bars, vpa, vp);
    SpringTrigger(c, bars, b, c.range.value);
  }

  lemma SpringTrigger(c: Classification, bars: seq<DailyBar>, b: Bar, rng: TradingRange)
    requires c.tradeable && c.phase == C && c.range == Some(rng) && rng.support > 0.0
    requires EventDate(c.events, SPRING) == Some(b.date) && DistinctDates(bars) && b in Window(bars) && IsSpring(b, rng)
    ensures Triggers(Detect(c, bars), SpringTest, b, rng.resistance)
  {
    WindowBarIsFound(bars, b);
    SpringPrices(b, rng);
    TriggerOf(SpringTest, b, rng.resistance);
    DetectOf(c, bars, b);
  }

  lemma SpringPrices(b: Bar, rng: TradingRange)
    requires rng.support > 0.0 && IsSpring(b, rng)
    ensures 0.0 < b.low < b.close
  {
  }

  lemma SupportGivesTrigger(bars: seq<DailyBar>, vpa: Option<VpaReading>, vp: Option<Profile.VolumeProfile>)
    returns (sos: Bar, lps: Bar)
    requires DistinctDates(bars) && Sane(bars) && Classify(bars, vpa, vp).phase == D
    ensures var c := Classify(bars, vpa, vp);
            && c.range.Some? && sos in Window(bars) && lps in Window(bars) && sos.date < lps.date
            && IsSos(sos, c.range.value) && IsLps(lps, c.range.value)
            && EventDate(c.events, SOS) == Some(sos.date)
            && Triggers(Detect(c, bars), LpsPullback, lps,
                        c.range.value.resistance + MEASURED_MOVE_MULT * c.range.value.Height())
  {
    var c := Classify(bars, vpa, vp);
    var i, j := SupportBehindD(bars, vpa, vp);
    sos, lps := Window(bars)[i], Window(bars)[j];
    WindowAscends(bars);
    RangeIsUpright(bars, c.range.value);
    LpsTrigger(c, bars, lps, c.range.value);
  }

  lemma LpsTrigger(c: Classification, bars: seq<DailyBar>, b: Bar, rng: TradingRange)
    requires c.tradeable && c.phase == D && c.range == Some(rng) && 0.0 < rng.support <= rng.resistance
    requires DistinctDates(bars) && Sane(bars) && b in Window(bars) && IsLps(b, rng)
    requires EventDate(c.events, LPS) == Some(b.date)
    ensures Triggers(Detect(c, bars), LpsPullback, b, rng.resistance + MEASURED_MOVE_MULT * rng.Height())
  {
    WindowBarIsFound(bars, b);
    LpsPrices(b, rng);
    TriggerOf(LpsPullback, b, rng.resistance + MEASURED_MOVE_MULT * rng.Height());
    DetectOf(c, bars, b);
  }

  lemma LpsPrices(b: Bar, rng: TradingRange)
    requires 0.0 < rng.support <= rng.resistance && IsLps(b, rng) && b.low <= b.close
    ensures 0.0 < b.low
  {
  }

  /** Whatever the readings, a tradeable verdict is always answered with levels or with their
      being out of order, and a valid answer keeps stop < entry < target at twice the risk. */
  lemma VerdictGivesTrigger(bars: seq<DailyBar>, vpa: Option<VpaReading>, vp: Option<Profile.VolumeProfile>)
    requires DistinctDates(bars) && Classify(bars, vpa, vp).tradeable
    requires Classify(bars, vpa, vp).phase == D ==> Sane(bars)
    ensures var s := Detect(Classify(bars, vpa, vp), bars);
            && (s.Skip? ==> s.why == Incoherent)
            && (s.Entry? ==> s.stop < s.entry < s.target)
            && (s.Entry? ==> (s.valid <==> s.target - s.entry >= RR_MIN * (s.entry - s.stop)))
  {
    if Classify(bars, vpa, vp).phase == C {
      var _ := SpringGivesTrigger(bars, vpa, vp);
    } else {
      var _, _ := SupportGivesTrigger(bars, vpa, vp);
    }
  }

  lemma {:induction false} LastCloseExists(bars: seq<DailyBar>, i: nat)
    requires i < |bars| && bars[i].status == TRADED && bars[i].close.Some?
    ensures LastClose(bars).Some?
  {
    if i < |bars| - 1 {
      LastCloseExists(bars[..|bars| - 1], i);
    }
  }

  /** A tradeable verdict gives the fast entry its close and its range; what is left is one
      comparison of that close with support. */
  lemma FastEntryIff(bars: seq<DailyBar>, vpa: Option<VpaReading>, vp: Option<Profile.VolumeProfile>)
    requires Classify(bars, vpa, vp).tradeable
    ensures var c := Classify(bars, vpa, vp); var s := FastDetect(c, bars);
            && c.range.Some? && c.range.value.support > 0.0 && LastClose(bars).Some?
            && (s.Skip? ==> s.why == Incoherent) && (s.Entry? ==> s.valid && s.stop < s.entry)
            && (s.Entry? <==>
                  c.range.value.support * (1.0 - STOP_BUFFER) < LastClose(bars).value * (1.0 + FAST_LIMIT_PREMIUM))
  {
    hide Complete, Phase.Decide, StructureOf, EstablishRange, ToBar, IsTradeable;
    TradeableIsDecided(bars);
    var all := Complete(bars);
    CompleteFrom(bars, all[0]);
    var i :| 0 <= i < |bars| && IsComplete(bars[i]) && ToBar(bars[i]) == all[0];
    LastCloseExists(bars, i);
  }

  // ---- order of the window, and the range's height --------------------------------------------------

  ghost predicate Ascending(bars: seq<Bar>) {
    forall i, j :: 0 <= i < j < |bars| ==> bars[i].date < bars[j].date
  }

  ghost predicate StrictlyByDate(bars: seq<DailyBar>) {
    forall i, j :: 0 <= i < j < |bars| ==> bars[i].date < bars[j].date
  }

  lemma {:induction false} KeptAscends(bars: seq<DailyBar>)
    requires StrictlyByDate(bars)
    ensures Ascending(Kept(bars))
    ensures forall i :: 0 <= i < |Kept(bars)| ==> exists j :: 0 <= j < |bars| && bars[j].date == Kept(bars)[i].date
  {
    if bars != [] {
      var rest := bars[1..];
      KeptAscends(rest);
      forall i | 0 <= i < |Kept(rest)|
        ensures exists j :: 0 < j < |bars| && bars[j].date == Kept(rest)[i].date
      {
        var j :| 0 <= j < |rest| && rest[j].date == Kept(rest)[i].date;
        assert bars[j + 1] == rest[j];
      }
    }
  }

  lemma {:induction false} InsertDistinct(b: DailyBar, bars: seq<DailyBar>)
    requires StrictlyByDate(bars) && forall i :: 0 <= i < |bars| ==> bars[i].date != b.date
    ensures StrictlyByDate(Insert(b, bars, ByDate))
  {
    if bars != [] && !ByDate(b, bars[0]) {
      var rest := bars[1..];
      InsertDistinct(b, rest);
      var tail := Insert(b, rest, ByDate);
      forall i | 0 <= i < |tail| ensures bars[0].date < tail[i].date {
        assert tail[i] in multiset(tail);
        assert tail[i] == b || tail[i] in rest;
      }
    }
  }

  lemma {:induction false} SortDistinct(bars: seq<DailyBar>)
    requires DistinctDates(bars)
    ensures StrictlyByDate(Sort(bars, ByDate))
  {
    if bars != [] {
      var rest := bars[1..];
      SortDistinct(rest);
      var sorted := Sort(rest, ByDate);
      InMultiset(rest, sorted);
      forall i | 0 <= i < |sorted| ensures sorted[i].date != bars[0].date {
        assert sorted[i] in sorted;
        var j :| 0 <= j < |rest| && rest[j] == sorted[i];
        assert bars[j + 1] == rest[j];
      }
      InsertDistinct(bars[0], sorted);
    }
  }

  lemma WindowAscends(bars: seq<DailyBar>)
    requires DistinctDates(bars)
    ensures Ascending(Window(bars))
  {
    SortDistinct(bars);
    KeptAscends(Sort(bars, ByDate));
  }

  /** With sane bars support is not above resistance, however the range was anchored. */
  lemma RangeIsUpright(bars: seq<DailyBar>, rng: TradingRange)
    requires DistinctDates(bars) && Sane(bars) && EstablishRange(Window(bars)) == Some(rng)
    ensures rng.support <= rng.resistance
  {
    var span := SpanOf(Window(bars), rng);
    var b := span[0];
    WindowBarIsFound(bars, b);
    assert MinLow(span) <= b.low && b.high <= MaxHigh(span);
  }

  /** The bars a range was measured over. */
  lemma SpanOf(window: seq<Bar>, rng: TradingRange) returns (span: seq<Bar>)
    requires EstablishRange(window) == Some(rng)
    ensures span != [] && span[0] in window && rng.support == MinLow(span) && rng.resistance == MaxHigh(span)
  {
    var sc := SellingClimax(window);
    span := if sc.Some? then Slice(window, sc.value, AR_SPAN) else BaseOf(window);
    assert span[0] == window[if sc.Some? then sc.value else 0];
  }
}
