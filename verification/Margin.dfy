/** A name armed on a score that only rounds to the threshold: what the stored score hides. */
module Margin {
  import opened Models
  import opened Sequences
  import opened Ordering
  import opened Bars
  import opened Snapshots
  import opened Weights
  import opened Phase
  import opened Sms
  import opened Engine
  import Veto
  import BrokerFlow

  /** The least score that rounds to the threshold. */
  const MARGIN := 69.995

  // ---- the bars ------------------------------------------------------------------------------------------

  const DAYS: nat := 40

  /** The `i`-th weekday from a Monday on. */
  function DateAt(i: nat): int { i / 5 * 7 + i % 5 + 1 }

  lemma DatesAscend(i: nat, j: nat)
    requires i < j
    ensures DateAt(i) < DateAt(j)
  {
    assert i / 5 <= j / 5;
    assert i / 5 == j / 5 ==> i % 5 < j % 5;
  }

  lemma DateIsWeekday(i: nat)
    ensures IsWeekday(DateAt(i))
  {
    assert DateAt(i) - 1 == i / 5 * 7 + i % 5;
  }

  function FlatBar(i: nat, volume: real): DailyBar {
    DailyBar(DateAt(i), TRADED, Some(105.0), Some(110.0), Some(100.0), Some(105.0), Some(volume))
  }

  function SpringBar(i: nat): DailyBar {
    DailyBar(DateAt(i), TRADED, Some(101.0), Some(105.0), Some(99.0), Some(102.0), Some(100.0))
  }

  /** Thirty-eight flat bars between 100 and 110, one that dips to 99 and closes at 102, and a flat one on
      three times the volume. */
  function BarOf(i: nat): DailyBar {
    if i == DAYS - 2 then SpringBar(i) else FlatBar(i, if i == DAYS - 1 then 300.0 else 100.0)
  }

  ghost predicate IsDipped(bars: seq<DailyBar>) {
    |bars| == DAYS && forall i :: 0 <= i < DAYS ==> bars[i] == BarOf(i)
  }

  lemma {:induction false} KeptAll(bars: seq<DailyBar>)
    requires forall i :: 0 <= i < |bars| ==> IsComplete(bars[i])
    ensures |Kept(bars)| == |bars|
    ensures forall i :: 0 <= i < |bars| ==> IsComplete(bars[i]) && Kept(bars)[i] == ToBar(bars[i])
  {
    if bars != [] {
      KeptAll(bars[1..]);
    }
  }

  lemma {:induction false} QuotesAll(bars: seq<DailyBar>)
    requires forall i :: 0 <= i < |bars| ==> IsQuoted(bars[i])
    ensures |Quotes(bars)| == |bars|
    ensures forall i :: 0 <= i < |bars| ==>
              bars[i].close == Some(Quotes(bars)[i].close) && bars[i].volume == Some(Quotes(bars)[i].volume)
  {
    if bars != [] {
      QuotesAll(bars[1..]);
    }
  }

  lemma DippedInOrder(bars: seq<DailyBar>)
    requires IsDipped(bars)
    ensures Sort(bars, ByDate) == bars
  {
    forall i, j | 0 <= i < j < DAYS ensures ByDate(bars[i], bars[j]) {
      DatesAscend(i, j);
    }
    SortFixed(bars, ByDate);
  }

  // ---- the phase -----------------------------------------------------------------------------------------

  ghost predicate IsExample(window: seq<Bar>) {
    |window| == DAYS && forall i :: 0 <= i < DAYS ==> window[i] == ToBar(BarOf(i))
  }

  lemma DippedWindow(bars: seq<DailyBar>)
    requires IsDipped(bars)
    ensures IsExample(Window(bars)) && |Complete(bars)| >= MIN_BARS
  {
    DippedInOrder(bars);
    KeptAll(bars);
  }

  lemma {:induction false} SumConstant(xs: seq<real>, c: real)
    requires forall i :: 0 <= i < |xs| ==> xs[i] == c
    ensures Sum(xs) == |xs| as real * c
  {
    if xs != [] {
      var n := |xs| - 1;
      SumConstant(xs[..n], c);
      assert (n + 1) as real * c == n as real * c + c;
    }
  }

  lemma NoClimax(window: seq<Bar>)
    requires IsExample(window)
    ensures SellingClimax(window) == None
  {
    forall i | 2 <= i < SearchEnd(DAYS) ensures !Climaxes(window)[i] {
      assert window[i] == ToBar(BarOf(i));
      NotDown(window, i);
    }
  }

  lemma NotDown(window: seq<Bar>, i: nat)
    requires i < |window| && window[i].close >= window[i].open
    ensures !IsClimax(window, i)
  {
  }

  const RANGE := TradingRange(100.0, 110.0, 1, 44, 100.0)

  lemma ExampleRange(window: seq<Bar>)
    requires IsExample(window)
    ensures EstablishRange(window) == Some(RANGE)
  {
    var base := BaseOf(window);
    NoClimax(window);
    assert |base| == 32 && forall i :: 0 <= i < 32 ==> base[i] == ToBar(FlatBar(i, 100.0));
    BaseRange(base);
  }

  lemma BaseRange(base: seq<Bar>)
    requires |base| == 32 && forall i :: 0 <= i < 32 ==> base[i] == ToBar(FlatBar(i, 100.0))
    ensures RangeOver(base) == Some(RANGE)
  {
    hide BarOf, MinLow, MaxHigh, AvgVolume;
    assert MinLow(base) == 100.0 && MaxHigh(base) == 110.0;
    BaseVolume(base);
  }

  lemma BaseVolume(base: seq<Bar>)
    requires |base| == 32 && forall i :: 0 <= i < 32 ==> base[i].volume == 100.0
    ensures AvgVolume(base) == 100.0
  {
    SumConstant(VolumesOf(base), 100.0);
  }

  /** What a structure needs for C. */
  ghost predicate GivesC(st: Structure, rng: TradingRange) {
    && st.last < rng.resistance * (1.0 + MARKUP_EXTENSION) && st.utad.None? && !st.distributes && !st.falling
    && st.spring.Some?
  }

  lemma ExampleGivesC(window: seq<Bar>, rng: TradingRange)
    requires IsExample(window) && EstablishRange(window) == Some(rng)
    ensures rng.support > 0.0 && SellingClimax(window) == None && GivesC(StructureOf(window, rng, None), rng)
  {
    NoClimax(window);
    ExampleRange(window);
    ExampleStructure(window);
  }

  lemma ExampleStructure(window: seq<Bar>)
    requires IsExample(window)
    ensures GivesC(StructureOf(window, RANGE, None), RANGE)
  {
    var recent := Recent(window);
    forall i | 0 <= i < 8 ensures recent[i] == ToBar(BarOf(DAYS - 8 + i)) {
      assert recent[i] == window[DAYS - 8 + i];
    }
    var weak, utad, spring :=
      (b: Bar) => IsWeakUp(b, RANGE), (b: Bar) => IsUtad(b, RANGE), (b: Bar) => IsSpring(b, RANGE);
    forall i | 0 <= i < 8 ensures !weak(recent[i]) && !utad(recent[i]) {
      assert recent[i] == ToBar(BarOf(DAYS - 8 + i));
    }
    FilterNone(recent, weak);
    assert spring(recent[6]);
    var base := BaseOf(window);
    assert base[31] == ToBar(FlatBar(31, 100.0));
    assert !IsDowntrend(base, RANGE);
  }

  lemma DippedIsC(bars: seq<DailyBar>)
    requires IsDipped(bars)
    ensures Classify(bars, None, None).phase == C
  {
    hide *;
    DippedWindow(bars);
    var rng := RangeOfExample(Window(bars));
    ExampleGivesC(Window(bars), rng);
    GateGivesC(bars, rng);
  }

  lemma RangeOfExample(window: seq<Bar>) returns (rng: TradingRange)
    requires IsExample(window)
    ensures EstablishRange(window) == Some(rng)
  {
    ExampleRange(window);
    rng := RANGE;
  }

  lemma GateGivesC(bars: seq<DailyBar>, rng: TradingRange)
    requires |Complete(bars)| >= MIN_BARS && EstablishRange(Window(bars)) == Some(rng) && rng.support > 0.0
    requires SellingClimax(Window(bars)) == None && GivesC(StructureOf(Window(bars), rng, None), rng)
    ensures Classify(bars, None, None).phase == C
  {
    hide StructureOf, EstablishRange, SellingClimax, Complete;
    DecideTradeable(StructureOf(Window(bars), rng, None), rng);
  }

  // ---- the broker rows -----------------------------------------------------------------------------------

  /** A broker's net on each stored day, oldest first. */
  function History(s: BrokerSnapshot, code: string): (nets: seq<real>)
    ensures |nets| == |Sorted(s.daily.Keys)|
    ensures forall i :: 0 <= i < |nets| ==> nets[i] == Lookup(Veto.NetsOn(s, Sorted(s.daily.Keys)[i]), code)
  {
    var days := Sorted(s.daily.Keys);
    seq(|days|, i requires 0 <= i < |days| => Lookup(Veto.NetsOn(s, days[i]), code))
  }

  /** `streak` is how many of the latest entries in a row are positive. */
  ghost predicate IsStreak(nets: seq<real>, streak: nat) {
    && streak <= |nets| && (forall i :: |nets| - streak <= i < |nets| ==> nets[i] > 0.0)
    && (streak < |nets| ==> nets[|nets| - 1 - streak] <= 0.0)
  }

  /** A broker's line: what it bought less what it sold is its net over the stored days, and its
      persistence its run of net buying at their end. */
  ghost predicate IsLine(s: BrokerSnapshot, b: BrokerStat) {
    var nets := History(s, b.code);
    b.buy - b.sell == b.net == Sum(nets) && IsStreak(nets, b.persistence)
  }

  /** What `build_snapshot` puts together from daily nets. */
  ghost predicate IsSnapshot(s: BrokerSnapshot) {
    && s.daily != map[] && s.end == MaxOf(s.daily.Keys)
    && s.top2 == BrokerFlow.TopNShare(Values(s.daily[s.end]), 2)
    && (forall i :: 0 <= i < |s.brokers| ==> IsLine(s, s.brokers[i]))
    && forall i, j :: 0 <= i < j < |s.brokers| ==> s.brokers[i].net >= s.brokers[j].net
  }

  /** Half of the buying in one hand, all but a seven-thousandth in two, and one seller. */
  const NETS: seq<(string, real)> :=
    [("AA", 3500000000.0), ("BB", 3499000000.0), ("CC", 1000000.0), ("DD", -7000000000.0)]

  const TOP2 := 6999.0 / 7000.0

  function ExampleBrokers(): seq<BrokerStat> {
    [ BrokerStat("AA", false, 10500000000.0, 10500000000.0, 0.0, 3),
      BrokerStat("BB", false, 10497000000.0, 10497000000.0, 0.0, 3),
      BrokerStat("CC", false, 3000000.0, 3000000.0, 0.0, 3),
      BrokerStat("DD", false, -21000000000.0, 0.0, 21000000000.0, 0) ]
  }

  /** The same three days running. */
  ghost predicate IsFlow(s: BrokerSnapshot) {
    ThreeDays(s) && s.brokers == ExampleBrokers() && s.top2 == Some(TOP2)
  }

  ghost predicate ThreeDays(s: BrokerSnapshot) {
    && s.daily == map[52 := NETS, 53 := NETS, 54 := NETS] && s.end == DateAt(39)
  }

  lemma StoredKeys(s: BrokerSnapshot)
    requires ThreeDays(s)
    ensures |s.daily.Keys| == 3 && s.end in s.daily && s.end == 54
    ensures forall d :: d in s.daily ==> d <= 54 && s.daily[d] == NETS
  {
    assert s.daily.Keys == {52, 53, 54};
  }

  lemma StoredDays(s: BrokerSnapshot)
    requires ThreeDays(s)
    ensures |Sorted(s.daily.Keys)| == 3 && s.end in s.daily && s.end == MaxOf(s.daily.Keys)
    ensures Veto.NetsOn(s, s.end) == s.daily[s.end] == NETS
    ensures forall i :: 0 <= i < 3 ==> Veto.NetsOn(s, Sorted(s.daily.Keys)[i]) == NETS
  {
    hide ThreeDays, Sorted, MaxOf, NETS;
    StoredKeys(s);
    SortedSize(s.daily.Keys);
    forall i | 0 <= i < 3 ensures Veto.NetsOn(s, Sorted(s.daily.Keys)[i]) == NETS {
      assert Sorted(s.daily.Keys)[i] in Sorted(s.daily.Keys);
    }
  }

  lemma LineIs(s: BrokerSnapshot, b: BrokerStat, daily: real)
    requires ThreeDays(s) && Lookup(NETS, b.code) == daily && b.buy - b.sell == b.net == 3.0 * daily
    requires b.persistence == if daily > 0.0 then 3 else 0
    ensures IsLine(s, b)
  {
    StoredDays(s);
    SumConstant(History(s, b.code), daily);
  }

  lemma {:induction false} RankedFixed(buys: seq<real>)
    requires forall i, j :: 0 <= i < j < |buys| ==> buys[i] >= buys[j]
    ensures BrokerFlow.Ranked(buys) == buys
  {
    SortFixed(buys, BrokerFlow.Descending);
  }

  lemma BuysCons(x: real, rest: seq<real>)
    ensures BrokerFlow.Buys([x] + rest) == if x > 0.0 then [x] + BrokerFlow.Buys(rest) else BrokerFlow.Buys(rest)
  {
    assert ([x] + rest)[1..] == rest;
  }

  /** Three buyers, largest first, and a seller. */
  lemma ThreeBuyers(a: real, b: real, c: real, d: real)
    requires a >= b >= c > 0.0 >= d
    ensures BrokerFlow.Buys([a, b, c, d]) == [a, b, c] && BrokerFlow.Ranked([a, b, c]) == [a, b, c]
  {
    hide BrokerFlow.Buys, BrokerFlow.Ranked;
    NoBuyer(d);
    BuysCons(c, [d]);
    BuysCons(b, [c, d]);
    BuysCons(a, [b, c, d]);
    assert [c] + [d] == [c, d] && [b] + [c, d] == [b, c, d] && [a] + [b, c, d] == [a, b, c, d];
    RankedFixed([a, b, c]);
  }

  lemma NoBuyer(d: real)
    requires d <= 0.0
    ensures BrokerFlow.Buys([d]) == []
  {
    assert [d][1..] == [];
  }

  lemma SumThree(a: real, b: real, c: real)
    ensures Sum([a]) == a && Sum([a, b]) == a + b && Sum([a, b, c]) == a + b + c
  {
    SumSnoc([], a);
    SumSnoc([a], b);
    SumSnoc([a, b], c);
    assert [] + [a] == [a] && [a] + [b] == [a, b] && [a, b] + [c] == [a, b, c];
  }

  /** The shares of the largest and of the two largest buyers. */
  lemma TopShares(a: real, b: real, c: real, d: real, one: real, two: real)
    requires a >= b >= c > 0.0 >= d
    requires BrokerFlow.IsQuotient(one, a, a + b + c) && BrokerFlow.IsQuotient(two, a + b, a + b + c)
    ensures BrokerFlow.TopNShare([a, b, c, d], 1) == Some(one) && BrokerFlow.TopNShare([a, b, c, d], 2) == Some(two)
  {
    hide BrokerFlow.Buys, BrokerFlow.Ranked, BrokerFlow.IsQuotient, BrokerFlow.Ratio, Sum;
    ThreeBuyers(a, b, c, d);
    SumThree(a, b, c);
    assert BrokerFlow.Head([a, b, c], 1) == [a] && BrokerFlow.Head([a, b, c], 2) == [a, b];
    QuotientIs(one, a, a + b + c);
    QuotientIs(two, a + b, a + b + c);
  }

  lemma QuotientIs(q: real, x: real, y: real)
    requires y > 0.0 && BrokerFlow.IsQuotient(q, x, y)
    ensures BrokerFlow.Ratio(x, y) == q
  {
  }

  lemma NetsShares()
    ensures BrokerFlow.TopNShare(Values(NETS), 1) == Some(0.5) && BrokerFlow.TopNShare(Values(NETS), 2) == Some(TOP2)
  {
    assert Values(NETS) == [3500000000.0, 3499000000.0, 1000000.0, -7000000000.0];
    TopShares(3500000000.0, 3499000000.0, 1000000.0, -7000000000.0, 0.5, TOP2);
  }

  lemma FlowIsSnapshot(s: BrokerSnapshot)
    requires IsFlow(s)
    ensures IsSnapshot(s)
  {
    hide IsLine, ThreeDays, NETS, BrokerFlow.TopNShare;
    StoredDays(s);
    NetsShares();
    FlowLines(s);
  }

  lemma FlowLines(s: BrokerSnapshot)
    requires IsFlow(s)
    ensures forall i :: 0 <= i < |s.brokers| ==> IsLine(s, s.brokers[i])
  {
    hide IsLine, ThreeDays;
    LineIs(s, s.brokers[0], 3500000000.0);
    LineIs(s, s.brokers[1], 3499000000.0);
    LineIs(s, s.brokers[2], 1000000.0);
    LineIs(s, s.brokers[3], -7000000000.0);
  }

  // ---- the vetoes ----------------------------------------------------------------------------------------

  /** The quoted bars of the window. */
  ghost predicate IsQuotes(quotes: seq<Quote>) {
    && |quotes| == DAYS && (forall i :: 0 <= i < DAYS - 1 ==> quotes[i].volume == 100.0)
    && quotes[DAYS - 1].volume == 300.0 && quotes[DAYS - 1].close == 105.0 && quotes[DAYS - 2].close == 102.0
    && quotes[DAYS - 4].close == 105.0
  }

  lemma DippedQuotes(bars: seq<DailyBar>)
    requires IsDipped(bars)
    ensures IsQuotes(Quoted(bars))
  {
    DippedInOrder(bars);
    QuotesAll(bars);
    assert bars[DAYS - 1] == BarOf(DAYS - 1) && bars[DAYS - 2] == BarOf(DAYS - 2) && bars[DAYS - 4] == BarOf(DAYS - 4);
    forall i | 0 <= i < DAYS - 1 ensures Quotes(bars)[i].volume == 100.0 {
      assert bars[i] == BarOf(i);
    }
  }

  lemma QuotesPrior(quotes: seq<Quote>)
    requires IsQuotes(quotes)
    ensures PriorVolume(quotes, 20) == 100.0 && Sum(Volumes(quotes[..DAYS - 1])) == 3900.0
  {
    var front := quotes[..DAYS - 1];
    SumConstant(Volumes(front), 100.0);
    SumConstant(Volumes(front[DAYS - 21..]), 100.0);
  }

  lemma DippedIsNoMarkup(bars: seq<DailyBar>)
    requires IsQuotes(Quoted(bars))
    ensures !Veto.IsThinMarkup(bars)
  {
    QuotesPrior(Quoted(bars));
  }

  lemma NoMonopoly(s: BrokerSnapshot)
    requires IsFlow(s)
    ensures !Veto.IsMonopoly(s)
  {
    StoredDays(s);
    NetsShares();
  }

  lemma TopBuys()
    ensures Lookup(NETS, "AA") > 0.0
  {
  }

  lemma NoFlip(s: BrokerSnapshot)
    requires IsFlow(s)
    ensures !Veto.DominantFlips(s)
  {
    hide ThreeDays, NETS, Lookup, NetBuyers;
    StoredDays(s);
    FlowBuyers(s);
    TopBuys();
    var recent := Veto.LatestDays(s, Veto.FLIP_MIN_DAYS);
    assert recent[0] == Sorted(s.daily.Keys)[1];
  }

  /** The same hands every day. */
  lemma NoRotation(s: BrokerSnapshot)
    requires ThreeDays(s)
    ensures !Veto.IsRotation(s)
  {
    hide ThreeDays, NETS, Veto.TopBuyer;
    StoredDays(s);
    var nets := Veto.RecentNets(s);
    assert nets[0] == NETS && nets[1] == NETS;
    assert Veto.TopBuyer(nets[0]) == Veto.TopBuyer(nets[1]);
  }

  lemma FlowBuyers(s: BrokerSnapshot)
    requires IsFlow(s)
    ensures NetBuyers(s.brokers) == s.brokers[..3]
  {
    var p := (b: BrokerStat) => b.net > 0.0;
    var b := s.brokers;
    assert b == [b[0]] + [b[1]] + [b[2]] + [b[3]];
  }

  lemma NoWash(s: BrokerSnapshot)
    requires IsFlow(s)
    ensures !Veto.IsWashChurn(s) && !Veto.IsRetailFomo(s)
  {
    forall i | 0 <= i < 4 ensures s.brokers[i].buy == 0.0 || s.brokers[i].sell == 0.0 {}
    FilterNone(s.brokers, (b: BrokerStat) => b.retail);
  }

  // ---- the score -----------------------------------------------------------------------------------------

  lemma {:induction false} QuietCount(quotes: seq<Quote>, avg: real)
    requires forall i :: 0 <= i < |quotes| ==> quotes[i].volume < DIVERGENCE_HIVOL_MULT * avg
    ensures Count(quotes, avg).high == 0
  {
    if |quotes| >= 2 {
      QuietCount(quotes[..|quotes| - 1], avg);
    }
  }

  /** The one heavy bar moved, so there is no divergence whatever the correlation. */
  lemma NoDivergence(bars: seq<DailyBar>, corr: Correlation)
    requires IsQuotes(Quoted(bars))
    ensures Divergence(bars, corr).strength == 0.0
  {
    var quotes := Quoted(bars);
    QuotesPrior(quotes);
    QuietCount(quotes[..DAYS - 1], 100.0);
    assert Sms.Move(quotes[DAYS - 2], quotes[DAYS - 1]) > DIVERGENCE_FLAT_PCT;
    assert Count(quotes, 100.0).high == 1 && Count(quotes, 100.0).flat == 0;
  }

  lemma TwoPersist(a: BrokerStat, b: BrokerStat)
    requires a.persistence == b.persistence
    ensures MaxPersistence([a, b]) == a.persistence
  {
    assert [b][1..] == [] && MaxPersistence([b]) == b.persistence;
    assert [a, b][1..] == [b];
  }

  lemma TopTwoHeld(s: BrokerSnapshot, bars: seq<DailyBar>)
    requires IsFlow(s) && IsQuotes(Quoted(bars))
    ensures BrokerConcentration(s, bars).strength == TOP2
  {
    hide ThreeDays, NetBuyers, MaxPersistence;
    FlowBuyers(s);
    assert NetBuyers(s.brokers)[..2] == [s.brokers[0], s.brokers[1]];
    TwoPersist(s.brokers[0], s.brokers[1]);
  }

  lemma FullRvol(bars: seq<DailyBar>)
    requires IsQuotes(Quoted(bars))
    ensures Rvol(bars).strength == 1.0
  {
    QuotesPrior(Quoted(bars));
  }

  lemma FullBlock(s: BrokerSnapshot)
    requires IsFlow(s)
    ensures BlockTrade(s, None).strength == 1.0
  {
    assert MaxBuy(s.brokers) >= s.brokers[0].buy;
  }

  lemma SpringBonus(bars: seq<DailyBar>)
    requires Classify(bars, None, None).phase == C
    ensures PhaseBonus(Classify(bars, None, None)).strength == 1.0
  {
    var _ := SpringBehindC(bars, None, None);
  }

  lemma WeightedTerm(w: Vector, n: nat, s: Component -> real)
    requires n < 9
    ensures Weighted(w, COMPONENTS[..n + 1], s)
            == Weighted(w, COMPONENTS[..n], s) + Contribution(Weight(w, COMPONENTS[n]), s(COMPONENTS[n]))
  {
    assert COMPONENTS[..n + 1][..n] == COMPONENTS[..n];
  }

  lemma Unweighted(x: real)
    ensures Contribution(0, x) == 0.0
  {
  }

  /** Under the track B weights, five components. */
  lemma WeightedOnB(s: Component -> real)
    ensures Weighted(TRACK_B_WEIGHTS, COMPONENTS, s)
            == Contribution(30, s(DIVERGENCE)) + Contribution(35, s(BROKER_CONCENTRATION))
               + Contribution(15, s(RVOL)) + Contribution(10, s(BLOCK_TRADE)) + Contribution(10, s(PHASE_BONUS))
  {
    hide Weighted, Contribution;
    var w := TRACK_B_WEIGHTS;
    NoneWeighted(w, s);
    WeightedTerm(w, 0, s);
    WeightedTerm(w, 1, s);
    WeightedTerm(w, 2, s);
    WeightedTerm(w, 3, s);
    WeightedTerm(w, 4, s);
    WeightedTerm(w, 5, s);
    WeightedTerm(w, 6, s);
    WeightedTerm(w, 7, s);
    WeightedTerm(w, 8, s);
    Unweighted(s(FOREIGN_FLOW));
    Unweighted(s(OWNERSHIP_DELTA));
    Unweighted(s(BAR_CHARACTER));
    Unweighted(s(VP_CONFLUENCE));
    assert COMPONENTS[..9] == COMPONENTS;
  }

  lemma NoneWeighted(w: Vector, s: Component -> real)
    ensures Weighted(w, COMPONENTS[..0], s) == 0.0
  {
  }

  /** A track B name on these bars and this flow, no multiplier, no known average value. */
  ghost predicate IsMarginal(e: Sms.Evidence) {
    && e.track == "B" && IsDipped(e.bars) && IsFlow(e.broker) && e.foreign.None? && e.adv20.None?
    && e.multiplier == 1.0
  }

  lemma MarginalScore(e: Sms.Evidence)
    requires IsMarginal(e)
    ensures Score(TRACK_B_WEIGHTS, e, Classify(e.bars, None, None), NO_READINGS) == MARGIN
  {
    hide IsDipped, IsFlow, Classify, Weighted, Strengths;
    MarginalStrengths(e);
    WeightedOnB(Strengths(e, Classify(e.bars, None, None), NO_READINGS));
  }

  lemma MarginalStrengths(e: Sms.Evidence)
    requires IsMarginal(e)
    ensures var s := Strengths(e, Classify(e.bars, None, None), NO_READINGS);
            && s(DIVERGENCE) == 0.0 && s(BROKER_CONCENTRATION) == TOP2
            && s(RVOL) == s(BLOCK_TRADE) == s(PHASE_BONUS) == 1.0
  {
    hide IsDipped, IsFlow, Classify, Divergence, BrokerConcentration, Rvol, BlockTrade, PhaseBonus;
    DippedQuotes(e.bars);
    DippedIsC(e.bars);
    NoDivergence(e.bars, e.corr);
    TopTwoHeld(e.broker, e.bars);
    FullRvol(e.bars);
    FullBlock(e.broker);
    SpringBonus(e.bars);
  }

  lemma MarginalIsClear(e: Sms.Evidence)
    requires IsMarginal(e)
    ensures Veto.Observe(e.broker, e.bars).Clear()
  {
    DippedQuotes(e.bars);
    DippedIsNoMarkup(e.bars);
    NoMonopoly(e.broker);
    NoFlip(e.broker);
    NoRotation(e.broker);
    NoWash(e.broker);
  }

  lemma MarginRounds()
    ensures Round2(MARGIN) == 70.0
  {
    assert MARGIN * 100.0 == 6999.5;
    assert (MARGIN * 100.0).Floor == 6999;
  }

  lemma MarginalIsArmed(e: Sms.Evidence)
    requires IsMarginal(e)
    ensures var result := EvaluateWith(TRACK_B_WEIGHTS, e, false, NO_READINGS);
            result.state == ARMED && result.score == 70.0
  {
    MarginalScore(e);
    MarginalIsClear(e);
    DippedIsC(e.bars);
    MarginRounds();
    ArmedIff(TRACK_B_WEIGHTS, e, false, NO_READINGS);
  }

  /** A track B name, on weekday bars and a broker snapshot such as the program builds, at multiplier 1:
      armed with a score of 69.995, stored as 70, whatever the correlation and the three readings. */
  lemma ArmedBelowSeventy(corr: Correlation, r: Readings) returns (e: Sms.Evidence)
    ensures e.multiplier == 1.0 && e.corr == corr && IsSnapshot(e.broker)
    ensures forall i :: 0 <= i < |e.bars| ==> IsWeekday(e.bars[i].date)
    ensures var result := Evaluate(e, false, r);
            && result.Some? && result.value.state == ARMED && result.value.score == 70.0
            && Score(TRACK_B_WEIGHTS, e, result.value.phase, r) == MARGIN < 70.0
  {
    var bars := seq(DAYS, i requires 0 <= i < DAYS => BarOf(i));
    var broker := BrokerSnapshot(ExampleBrokers(), map[52 := NETS, 53 := NETS, 54 := NETS], 54, Some(TOP2));
    e := Sms.Evidence("B", bars, broker, None, None, 1.0, corr);
    FlowIsSnapshot(broker);
    forall i | 0 <= i < DAYS ensures IsWeekday(bars[i].date) {
      DateIsWeekday(i);
    }
    MarginalUnder(e, r);
  }

  lemma MarginalOnB(e: Sms.Evidence)
    requires IsMarginal(e)
    ensures TrackWeights(e.track) == Some(TRACK_B_WEIGHTS) && Unfunded(TRACK_B_WEIGHTS)
  {
    ConfiguredWeightsUnfunded("B");
  }

  lemma MarginalUnder(e: Sms.Evidence, r: Readings)
    requires IsMarginal(e)
    ensures var result := Evaluate(e, false, r);
            && result.Some? && result.value.state == ARMED && result.value.score == 70.0
            && Score(TRACK_B_WEIGHTS, e, result.value.phase, r) == MARGIN
  {
    hide IsMarginal, Classify, Score, Veto.Evaluate, Engine.Decide, Round2;
    var w := TRACK_B_WEIGHTS;
    MarginalOnB(e);
    MarginalIsArmed(e);
    MarginalScore(e);
    UnfundedDecideNothing(w, e, false, NO_READINGS, r);
    NotesMoveNothing(e.bars, None, None, r.vpa, r.vp);
    ScoreIgnores(w, e, Classify(e.bars, None, None), NO_READINGS, Classify(e.bars, r.vpa, r.vp), r);
  }
}
