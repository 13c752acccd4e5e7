/** The phase gate of `currentflow/signals/phase.py`: the trading range, the detectors that read the
    recent bars against it, and the verdict. */
module Phase {
  import opened Models
  import opened Sequences
  import opened Bars
  import opened Vpa
  import Profile

  const MIN_BARS: nat := 40
  const RANGE_LOOKBACK: nat := 60
  const RANGE_MIN_BARS: nat := 10
  const RANGE_MAX_WIDTH := 0.35
  const SC_VOLUME_MULT := 2.0
  const SOS_VOLUME_MULT := 1.5
  const SPRING_PENETRATION := 0.02
  const SPRING_MAX_VOLUME_MULT := 1.5
  const MARKUP_EXTENSION := 0.10
  const DIST_CLOSE_POSITION := 0.5
  const ADV_WINDOW: nat := 20
  const EVENT_WINDOW: nat := 8
  const AR_SPAN: nat := 15

  datatype WyckoffPhase = UNKNOWN | DOWNTREND | A | B | C | D | E | DISTRIBUTION

  datatype TradingRange = TradingRange(support: real, resistance: real, start: int, end: int, avgVolume: real)
  {
    function Height(): real { resistance - support }
  }

  datatype PhaseEvent = PhaseEvent(kind: EventKind, date: int, corroborators: seq<Note>)

  datatype Classification = Classification(
    phase: WyckoffPhase, tradeable: bool, range: Option<TradingRange>, events: seq<PhaseEvent>, barsUsed: nat)

  predicate IsTradeable(p: WyckoffPhase) { p in {C, D} }

  // ---- searches ----------------------------------------------------------------------------------------

  function FindFirst(bars: seq<Bar>, p: Bar -> bool): (k: nat)
    ensures k <= |bars| && (k < |bars| ==> p(bars[k]))
    ensures forall i :: 0 <= i < k ==> !p(bars[i])
  {
    if bars == [] || p(bars[0]) then 0 else 1 + FindFirst(bars[1..], p)
  }

  /** Index of the first bar with the property from `start` on. */
  function FindFrom(bars: seq<Bar>, start: nat, p: Bar -> bool): (r: Option<nat>)
    ensures r.Some? ==> start <= r.value < |bars| && p(bars[r.value])
  {
    if start >= |bars| then None
    else
      var k := FindFirst(bars[start..], p);
      if start + k < |bars| then Some(start + k) else None
  }

  /** The last bar with the property. */
  function FindLast(bars: seq<Bar>, p: Bar -> bool): (r: Option<Bar>)
    ensures r.Some? ==> r.value in bars && p(r.value)
    ensures r.None? ==> forall i :: 0 <= i < |bars| ==> !p(bars[i])
  {
    if bars == [] then None
    else if p(bars[|bars| - 1]) then Some(bars[|bars| - 1])
    else FindLast(bars[..|bars| - 1], p)
  }

  function MinLow(bars: seq<Bar>): (m: real)
    requires bars != []
    ensures forall i :: 0 <= i < |bars| ==> m <= bars[i].low
    ensures exists i :: 0 <= i < |bars| && m == bars[i].low
  {
    var last := bars[|bars| - 1];
    if |bars| == 1 then last.low
    else
      var m := MinLow(bars[..|bars| - 1]);
      if last.low < m then last.low else m
  }

  function MaxHigh(bars: seq<Bar>): (m: real)
    requires bars != []
    ensures forall i :: 0 <= i < |bars| ==> bars[i].high <= m
    ensures exists i :: 0 <= i < |bars| && m == bars[i].high
  {
    var last := bars[|bars| - 1];
    if |bars| == 1 then last.high
    else
      var m := MaxHigh(bars[..|bars| - 1]);
      if last.high > m then last.high else m
  }

  function AvgVolume(bars: seq<Bar>): real { Mean(VolumesOf(bars)) }

  function ClosePosition(b: Bar): real {
    if b.high - b.low <= 0.0 then 0.5 else (b.close - b.low) / (b.high - b.low)
  }

  /** `window[:-EVENT_WINDOW]`. */
  function BaseOf(window: seq<Bar>): seq<Bar> {
    if |window| <= EVENT_WINDOW then [] else window[..|window| - EVENT_WINDOW]
  }

  function Recent(window: seq<Bar>): seq<Bar> { Last(window, EVENT_WINDOW) }

  /** `xs[i:i + n]`. */
  function Slice(bars: seq<Bar>, i: nat, n: nat): (r: seq<Bar>)
    requires i <= |bars|
    ensures |r| == if i + n <= |bars| then n else |bars| - i
  {
    if i + n <= |bars| then bars[i..i + n] else bars[i..]
  }

  // ---- the trading range ---------------------------------------------------------------------------------

  /** Bar `i` is a selling climax: heavy volume, a down bar, a new low, and a rally after it. */
  predicate IsClimax(window: seq<Bar>, i: nat)
    requires i < |window|
  {
    var b := window[i];
    var prior := window[if i >= ADV_WINDOW then i - ADV_WINDOW else 0..i];
    var after := Slice(window, i + 1, AR_SPAN);
    && AvgVolume(prior) > 0.0
    && b.volume >= SC_VOLUME_MULT * AvgVolume(prior) && b.close < b.open
    && prior != [] && b.low <= MinLow(prior)
    && after != [] && MaxHigh(after) > b.low * 1.02
  }

  /** Where the search for a climax stops: the first seventy percent of the window. */
  function SearchEnd(n: nat): nat { 7 * n / 10 }

  function Climaxes(window: seq<Bar>): (marks: seq<bool>)
    ensures |marks| == |window| && forall i :: 0 <= i < |window| ==> marks[i] == IsClimax(window, i)
  {
    seq(|window|, i requires 0 <= i < |window| => IsClimax(window, i))
  }

  /** The earliest of the heaviest marked bars before `end`, the first two never counting. */
  function Heaviest(marks: seq<bool>, volumes: seq<real>, end: nat): (r: Option<nat>)
    requires end <= |marks| == |volumes|
    ensures r.Some? ==> 2 <= r.value < end && marks[r.value]
    ensures r.Some? ==> forall i :: 2 <= i < end && marks[i] ==> volumes[i] <= volumes[r.value]
    ensures r.Some? ==> forall i :: 2 <= i < r.value && marks[i] ==> volumes[i] < volumes[r.value]
    ensures r.None? ==> forall i :: 2 <= i < end ==> !marks[i]
  {
    if end <= 2 then None
    else
      var best := Heaviest(marks, volumes, end - 1);
      if marks[end - 1] && (best.None? || volumes[end - 1] > volumes[best.value]) then Some(end - 1) else best
  }

  function SellingClimax(window: seq<Bar>): (r: Option<nat>)
    ensures r.Some? ==> r.value < |window|
  {
    if |window| < RANGE_MIN_BARS then None else Heaviest(Climaxes(window), VolumesOf(window), SearchEnd(|window|))
  }

  /** `_detect_selling_climax`: of the climaxes in the first seventy percent of the window, the
      heaviest, and of equally heavy ones the earliest. */
  method DetectSellingClimax(window: seq<Bar>) returns (r: Option<nat>)
    ensures r == SellingClimax(window)
  {
    if |window| < RANGE_MIN_BARS {
      return None;
    }
    r := SearchHeaviest(Climaxes(window), VolumesOf(window), SearchEnd(|window|));
  }

  /** Its search loop. */
  method SearchHeaviest(marks: seq<bool>, volumes: seq<real>, end: nat) returns (r: Option<nat>)
    requires 2 <= end <= |marks| == |volumes|
    ensures r == Heaviest(marks, volumes, end)
  {
    r := None;
    for i := 2 to end
      invariant r == Heaviest(marks, volumes, i)
    {
      if marks[i] && (r.None? || volumes[i] > volumes[r.value]) {
        r := Some(i);
      }
    }
  }

  function RangeOf(bars: seq<Bar>, start: int, end: int, avgVolume: real): TradingRange
    requires bars != []
  {
    TradingRange(MinLow(bars), MaxHigh(bars), start, end, avgVolume)
  }

  /** `_establish_range`: around the climax when there is one, else over the base. */
  function EstablishRange(window: seq<Bar>): Option<TradingRange> {
    match SellingClimax(window)
    case Some(sc) => Some(RangeAround(window, sc))
    case None => RangeOver(BaseOf(window))
  }

  function RangeAround(window: seq<Bar>, sc: nat): TradingRange
    requires sc < |window|
  {
    RangeOf(Slice(window, sc, AR_SPAN), window[sc].date, window[|window| - 1].date, AvgVolume(window[sc..]))
  }

  function RangeOver(base: seq<Bar>): Option<TradingRange> {
    if |base| < RANGE_MIN_BARS then None
    else Some(RangeOf(base, base[0].date, base[|base| - 1].date, AvgVolume(base)))
  }

  function Closes(bars: seq<Bar>): (r: seq<real>)
    ensures |r| == |bars|
  {
    seq(|bars|, i requires 0 <= i < |bars| => bars[i].close)
  }

  function MeanIndex(n: int): real { (n - 1) as real / 2.0 }

  function IndexSquares(n: nat): (r: seq<real>)
    ensures |r| == n
  {
    seq(n, i => (i as real - MeanIndex(n)) * (i as real - MeanIndex(n)))
  }

  function CrossTerm(x: real, c: real, meanY: real): real { x * (c - meanY) }

  function CrossTerms(closes: seq<real>, meanY: real): (r: seq<real>)
    ensures |r| == |closes|
    ensures forall i :: 0 <= i < |r| ==> r[i] == CrossTerm(i as real - MeanIndex(|closes|), closes[i], meanY)
  {
    seq(|closes|, i requires 0 <= i < |closes| => CrossTerm(i as real - MeanIndex(|closes|), closes[i], meanY))
  }

  function SlopeOf(sum: real, denom: real): real { if denom != 0.0 then sum / denom else 0.0 }

  function Normed(slope: real, meanY: real): real { if meanY != 0.0 then slope / meanY else 0.0 }

  /** The least-squares slope of a list of closes over their mean, 0 when that is 0. */
  function NormSlope(closes: seq<real>): real {
    var meanY := Mean(closes);
    Normed(SlopeOf(Sum(CrossTerms(closes, meanY)), Sum(IndexSquares(|closes|))), meanY)
  }

  predicate IsDowntrend(bars: seq<Bar>, rng: TradingRange) {
    var closes := Closes(bars);
    && |closes| >= 3
    && NormSlope(closes) <= -0.003 && closes[|closes| - 1] <= rng.support + 0.15 * rng.Height()
  }

  // ---- the detectors --------------------------------------------------------------------------------------

  predicate IsSpring(b: Bar, rng: TradingRange) {
    && rng.support * (1.0 - SPRING_PENETRATION) <= b.low < rng.support
    && b.close >= rng.support
    && (rng.avgVolume <= 0.0 || b.volume <= SPRING_MAX_VOLUME_MULT * rng.avgVolume)
  }

  function Spring(window: seq<Bar>, rng: TradingRange): Option<Bar> {
    FindLast(Recent(window), (b: Bar) => IsSpring(b, rng))
  }

  predicate IsSos(b: Bar, rng: TradingRange) {
    && b.high >= rng.resistance
    && b.close > (if b.open != 0.0 then b.open else b.close) && ClosePosition(b) >= 0.5
    && (rng.avgVolume <= 0.0 || b.volume >= SOS_VOLUME_MULT * rng.avgVolume)
  }

  /** Index of the first sign of strength among the last bars, never the very first bar. */
  function Sos(window: seq<Bar>, rng: TradingRange): (r: Option<nat>)
    ensures r.Some? ==> r.value < |window| && IsSos(window[r.value], rng)
  {
    FindFrom(window, if |window| > EVENT_WINDOW + 1 then |window| - EVENT_WINDOW else 1, (b: Bar) => IsSos(b, rng))
  }

  predicate IsLps(b: Bar, rng: TradingRange) {
    var mid := rng.support + 0.5 * rng.Height();
    b.low >= mid && b.close >= mid && b.close < rng.resistance * (1.0 + MARKUP_EXTENSION)
  }

  /** Index of the first last-point-of-support after the sign of strength. */
  function Lps(window: seq<Bar>, rng: TradingRange, sos: nat): (r: Option<nat>)
    requires sos < |window|
    ensures r.Some? ==> sos < r.value < |window| && IsLps(window[r.value], rng)
  {
    FindFrom(window, sos + 1, (b: Bar) => IsLps(b, rng))
  }

  predicate IsUtad(b: Bar, rng: TradingRange) {
    b.high > rng.resistance && b.close < rng.resistance && ClosePosition(b) < DIST_CLOSE_POSITION
  }

  function Utad(window: seq<Bar>, rng: TradingRange): Option<Bar> {
    FindLast(Recent(window), (b: Bar) => IsUtad(b, rng))
  }

  predicate IsWeakUp(b: Bar, rng: TradingRange) {
    b.close > b.open && b.volume >= rng.avgVolume && ClosePosition(b) < DIST_CLOSE_POSITION
  }

  predicate Distributes(window: seq<Bar>, rng: TradingRange) {
    |Filter(Recent(window), (b: Bar) => IsWeakUp(b, rng))| >= 2
  }

  // ---- the verdict ----------------------------------------------------------------------------------------

  datatype Verdict = Verdict(phase: WyckoffPhase, range: Option<TradingRange>, events: seq<PhaseEvent>)

  function Event(kind: EventKind, b: Bar): PhaseEvent { PhaseEvent(kind, b.date, []) }

  /** Not an accumulation range: too wide, or still trending down. */
  predicate StillFalling(window: seq<Bar>, rng: TradingRange, sc: Option<nat>)
    requires rng.support > 0.0 && (sc.Some? ==> sc.value <= |window|)
  {
    var base := if sc.Some? then window[..sc.value] else BaseOf(window);
    rng.Height() / rng.support > RANGE_MAX_WIDTH || (base != [] && IsDowntrend(base, rng))
  }

  /** What the detectors found in a window. */
  datatype Structure = Structure(
    climax: Option<Bar>, youngClimax: bool, last: real, utad: Option<Bar>, distributes: bool, falling: bool,
    spring: Option<Bar>, sos: Option<Bar>, lps: Option<Bar>)

  function StructureOf(window: seq<Bar>, rng: TradingRange, sc: Option<nat>): Structure
    requires window != [] && rng.support > 0.0 && (sc.Some? ==> sc.value < |window|)
  {
    Structure(
      BarAt(window, sc), sc.Some? && |window| - sc.value <= AR_SPAN,
      window[|window| - 1].close, Utad(window, rng), Distributes(window, rng), StillFalling(window, rng, sc),
      Spring(window, rng), BarAt(window, Sos(window, rng)), BarAt(window, LpsAfter(window, rng)))
  }

  function BarAt(window: seq<Bar>, i: Option<nat>): Option<Bar>
    requires i.Some? ==> i.value < |window|
  {
    if i.Some? then Some(window[i.value]) else None
  }

  function LpsAfter(window: seq<Bar>, rng: TradingRange): (r: Option<nat>)
    ensures r.Some? ==> r.value < |window|
  {
    var sos := Sos(window, rng);
    if sos.Some? then Lps(window, rng, sos.value) else None
  }

  /** The decision over a window with a usable range. */
  function Decide(st: Structure, rng: TradingRange): Verdict {
    var events := if st.climax.Some? then [Event(SELLING_CLIMAX, st.climax.value)] else [];
    if st.last >= rng.resistance * (1.0 + MARKUP_EXTENSION) then Verdict(E, Some(rng), events)
    else if st.utad.Some? then Verdict(DISTRIBUTION, Some(rng), events + [Event(UTAD, st.utad.value)])
    else if st.distributes then Verdict(DISTRIBUTION, Some(rng), events)
    else if st.falling && st.last < rng.support * (1.0 - SPRING_PENETRATION) then Verdict(DOWNTREND, Some(rng), events)
    else if st.spring.Some? then Verdict(C, Some(rng), events + [Event(SPRING, st.spring.value)])
    else if st.sos.Some? && st.lps.Some? then
      Verdict(D, Some(rng), events + [Event(SOS, st.sos.value), Event(LPS, st.lps.value)])
    else if st.sos.Some? then Verdict(B, Some(rng), events + [Event(SOS, st.sos.value)])
    else if st.youngClimax then Verdict(A, Some(rng), events)
    else Verdict(B, Some(rng), events)
  }

  function VerdictOf(usable: seq<Bar>): Verdict {
    var window := Last(usable, RANGE_LOOKBACK);
    if |usable| < MIN_BARS then Verdict(UNKNOWN, None, [])
    else
      var rng := EstablishRange(window);
      if rng.None? || rng.value.support <= 0.0 then Verdict(UNKNOWN, None, [])
      else Decide(StructureOf(window, rng.value, SellingClimax(window)), rng.value)
  }

  /** The phases that stand on a structure, and nothing else: exactly when C and when D. */
  lemma DecideTradeable(st: Structure, rng: TradingRange)
    ensures var v := Decide(st, rng);
            var clean := st.last < rng.resistance * (1.0 + MARKUP_EXTENSION) && st.utad.None? && !st.distributes
                         && !(st.falling && st.last < rng.support * (1.0 - SPRING_PENETRATION));
            && (v.phase == C <==> clean && st.spring.Some?)
            && (v.phase == D <==> clean && st.spring.None? && st.sos.Some? && st.lps.Some?)
            && v.range == Some(rng)
            && (v.phase == C ==> EventDate(v.events, SPRING) == Some(st.spring.value.date))
            && (v.phase == D ==> EventDate(v.events, SOS) == Some(st.sos.value.date)
                                 && EventDate(v.events, LPS) == Some(st.lps.value.date))
  {
    var front := if st.climax.Some? then [Event(SELLING_CLIMAX, st.climax.value)] else [];
    if st.spring.Some? {
      var e := Event(SPRING, st.spring.value);
      EventDateAfter(front, e, []);
      assert front + [e] + [] == front + [e];
    }
    if st.sos.Some? && st.lps.Some? {
      var s, l := Event(SOS, st.sos.value), Event(LPS, st.lps.value);
      EventDateAfter(front, s, [l]);
      EventDateAfter(front + [s], l, []);
      assert front + [s] + [l] == front + [s, l];
      assert (front + [s]) + [l] + [] == front + [s, l];
    }
  }

  // ---- annotations ----------------------------------------------------------------------------------------

  const CONFLUENCE_BUCKETS := 1.0

  function BarOnDay(bars: seq<Bar>, day: int): Option<Bar> {
    if bars == [] then None else if bars[0].date == day then Some(bars[0]) else BarOnDay(bars[1..], day)
  }

  function Distance(x: real, y: real): real { if x >= y then x - y else y - x }

  /** `volume_profile.corroboration`: the event's own bar against the level it is read against. */
  function Confluence(profile: Option<Profile.VolumeProfile>, kind: EventKind, day: int): Option<Note> {
    if profile.None? || profile.value.Unavailable? then None
    else
      var p := profile.value;
      var bar := BarOnDay(p.bars, day);
      if bar.None? then None
      else
        var tol := CONFLUENCE_BUCKETS * if p.buckets == [] then 0.0 else p.buckets[0].high - p.buckets[0].low;
        var met :=
          match kind
          case SPRING => bar.value.low <= p.val + tol
          case UTAD => bar.value.high >= p.vah - tol
          case LPS => Distance(bar.value.close, p.poc) <= tol
          case _ => false;
        if met then Some(ProfileConfirms(kind)) else None
  }

  function ToSeq(note: Option<Note>): seq<Note> { if note.Some? then [note.value] else [] }

  /** `_corroborate`: notes hung on events already decided. */
  function Corroborate(events: seq<PhaseEvent>, vpa: Option<VpaReading>,
                       vp: Option<Profile.VolumeProfile>): (r: seq<PhaseEvent>)
    ensures |r| == |events|
    ensures forall i :: 0 <= i < |r| ==> r[i].kind == events[i].kind && r[i].date == events[i].date
  {
    if vpa.None? && vp.None? then events
    else
      seq(|events|, i requires 0 <= i < |events| =>
        var e := events[i];
        PhaseEvent(e.kind, e.date,
                   e.corroborators + ToSeq(Corroboration(vpa, e.kind, e.date)) + ToSeq(Confluence(vp, e.kind, e.date))))
  }

  /** `classify`. */
  function Classify(bars: seq<DailyBar>, vpa: Option<VpaReading>, vp: Option<Profile.VolumeProfile>): Classification {
    var usable := Complete(bars);
    var v := VerdictOf(usable);
    Classification(v.phase, IsTradeable(v.phase), v.range, Corroborate(v.events, vpa, vp), |usable|)
  }

  /** The same classification but for the notes. */
  ghost predicate SameButForNotes(a: Classification, b: Classification) {
    && a.phase == b.phase && a.tradeable == b.tradeable && a.range == b.range && a.barsUsed == b.barsUsed
    && |a.events| == |b.events|
    && forall i :: 0 <= i < |a.events| ==> a.events[i].kind == b.events[i].kind && a.events[i].date == b.events[i].date
  }

  /** No reading of bar character or volume profile moves the gate. */
  lemma NotesMoveNothing(bars: seq<DailyBar>, vpa: Option<VpaReading>, vp: Option<Profile.VolumeProfile>,
                         vpa': Option<VpaReading>, vp': Option<Profile.VolumeProfile>)
    ensures SameButForNotes(Classify(bars, vpa, vp), Classify(bars, vpa', vp'))
  {
  }

  // ---- what a tradeable verdict rests on --------------------------------------------------------------

  function Window(bars: seq<DailyBar>): seq<Bar> { Last(Complete(bars), RANGE_LOOKBACK) }

  /** Enough history, and a range with positive support. */
  ghost predicate HasRange(bars: seq<DailyBar>, range: Option<TradingRange>) {
    && |Complete(bars)| >= MIN_BARS && range.Some? && range.value.support > 0.0
    && range == EstablishRange(Window(bars))
  }

  /** A tradeable verdict is the decision on the window's structure. */
  lemma TradeableIsDecided(bars: seq<DailyBar>)
    requires IsTradeable(VerdictOf(Complete(bars)).phase)
    ensures var v := VerdictOf(Complete(bars));
            && HasRange(bars, v.range)
            && v == Decide(StructureOf(Window(bars), v.range.value, SellingClimax(Window(bars))), v.range.value)
  {
    var rng := EstablishRange(Window(bars));
    if |Complete(bars)| >= MIN_BARS && rng.Some? && rng.value.support > 0.0 {
      DecideTradeable(StructureOf(Window(bars), rng.value, SellingClimax(Window(bars))), rng.value);
    }
  }

  /** The first event of a kind. */
  function EventDate(events: seq<PhaseEvent>, kind: EventKind): Option<int> {
    if events == [] then None
    else if events[0].kind == kind then Some(events[0].date)
    else EventDate(events[1..], kind)
  }

  lemma {:induction false} EventDateOfNotes(a: seq<PhaseEvent>, b: seq<PhaseEvent>, kind: EventKind)
    requires |a| == |b| && forall i :: 0 <= i < |a| ==> a[i].kind == b[i].kind && a[i].date == b[i].date
    ensures EventDate(a, kind) == EventDate(b, kind)
  {
    if a != [] {
      EventDateOfNotes(a[1..], b[1..], kind);
    }
  }

  lemma EventDateAfter(front: seq<PhaseEvent>, e: PhaseEvent, rest: seq<PhaseEvent>)
    requires forall i :: 0 <= i < |front| ==> front[i].kind != e.kind
    ensures EventDate(front + [e] + rest, e.kind) == Some(e.date)
  {
    var all := front + [e] + rest;
    if front != [] {
      EventDateAfter(front[1..], e, rest);
      assert all[1..] == front[1..] + [e] + rest;
    }
  }

  lemma RecentIsIn(window: seq<Bar>, b: Bar)
    requires b in Recent(window)
    ensures b in window
  {
    var i :| 0 <= i < |Recent(window)| && Recent(window)[i] == b;
    assert window[|window| - |Recent(window)| + i] == b;
  }

  lemma NotesKeepDates(bars: seq<DailyBar>, vpa: Option<VpaReading>, vp: Option<Profile.VolumeProfile>, kind: EventKind)
    ensures EventDate(Classify(bars, vpa, vp).events, kind) == EventDate(VerdictOf(Complete(bars)).events, kind)
  {
    var v := VerdictOf(Complete(bars));
    EventDateOfNotes(Corroborate(v.events, vpa, vp), v.events, kind);
  }

  /** Phase C: a spring among the last bars, and the event is dated by its bar. */
  lemma SpringBehindC(bars: seq<DailyBar>, vpa: Option<VpaReading>, vp: Option<Profile.VolumeProfile>) returns (b: Bar)
    requires Classify(bars, vpa, vp).phase == C
    ensures var c := Classify(bars, vpa, vp);
            && HasRange(bars, c.range) && b in Recent(Window(bars)) && b in Window(bars) && IsSpring(b, c.range.value)
            && EventDate(c.events, SPRING) == Some(b.date)
  {
    var v := VerdictOf(Complete(bars));
    TradeableIsDecided(bars);
    NotesKeepDates(bars, vpa, vp, SPRING);
    var window, rng := Window(bars), v.range.value;
    var st := StructureOf(window, rng, SellingClimax(window));
    DecideTradeable(st, rng);
    b := st.spring.value;
    RecentIsIn(window, b);
  }

  /** Phase D: a sign of strength and, strictly later in the window, a last point of support. */
  lemma SupportBehindD(bars: seq<DailyBar>, vpa: Option<VpaReading>, vp: Option<Profile.VolumeProfile>)
    returns (sos: nat, lps: nat)
    requires Classify(bars, vpa, vp).phase == D
    ensures var c := Classify(bars, vpa, vp); var window := Window(bars);
            && HasRange(bars, c.range) && sos < lps < |window|
            && IsSos(window[sos], c.range.value) && IsLps(window[lps], c.range.value)
            && EventDate(c.events, SOS) == Some(window[sos].date) && EventDate(c.events, LPS) == Some(window[lps].date)
  {
    var v := VerdictOf(Complete(bars));
    TradeableIsDecided(bars);
    NotesKeepDates(bars, vpa, vp, SOS);
    NotesKeepDates(bars, vpa, vp, LPS);
    var window, rng := Window(bars), v.range.value;
    DecideTradeable(StructureOf(window, rng, SellingClimax(window)), rng);
    sos := Sos(window, rng).value;
    lps := Lps(window, rng, sos).value;
  }
}
