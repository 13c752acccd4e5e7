/** The score of `currentflow/signals/sms.py`: nine sub-scores, the weights of
    `currentflow/config.py`, and the composite. */
module Sms {
  import opened Models
  import opened Sequences
  import opened Snapshots
  import opened Weights
  import opened Vpa
  import opened Phase
  import Profile

  const ADV_WINDOW_DAYS: nat := 20
  const DIVERGENCE_FLAT_PCT := 0.005
  const DIVERGENCE_CORR_MAX := 0.30
  const DIVERGENCE_HIVOL_MULT := 1.5
  const DIVERGENCE_WINDOW_DAYS: nat := 40
  const BROKER_PERSIST_DAYS: nat := 3
  const FOREIGN_SPIKE_MULT := 2.0
  const RVOL_MULT := 3.0
  const BLOCK_VALUE_IDR := 1000000000.0
  const BLOCK_ADV_PCT := 0.01
  const OWNERSHIP_FULL_CREDIT_PP := 2.0
  const FULL_CREDIT_CONFLUENCES := 2.0

  /** A sub-score and whether there was data behind it. */
  datatype Subscored = Subscored(strength: real, available: bool)

  function Abs(x: real): real { if x >= 0.0 then x else -x }

  // ---- divergence -------------------------------------------------------------------------------------

  /** Correlation of volume and absolute move, `None` when it cannot be measured. */
  type Correlation = seq<(real, real)> -> Option<real>

  /** `_corr_factor`. */
  function CorrFactor(corr: Option<real>): (f: real)
    ensures 0.5 <= f <= 1.0
  {
    if corr.None? then 0.5
    else if corr.value <= 0.0 then 1.0
    else
      var f := 1.0 - 0.5 * (corr.value / DIVERGENCE_CORR_MAX);
      assert corr.value / DIVERGENCE_CORR_MAX >= 0.0;
      if f < 0.5 then 0.5 else if f > 1.0 then 1.0 else f
  }

  function Move(prev: Quote, cur: Quote): real {
    if prev.close != 0.0 then Abs((cur.close - prev.close) / prev.close) else 0.0
  }

  datatype Counts = Counts(high: nat, flat: nat, moves: seq<(real, real)>)

  /** High-volume bars of a list after its first, and how many of them did not move. */
  function Count(quotes: seq<Quote>, avg: real): (r: Counts)
    ensures r.flat <= r.high
  {
    if |quotes| < 2 then Counts(0, 0, [])
    else
      var front := Count(quotes[..|quotes| - 1], avg);
      var cur := quotes[|quotes| - 1];
      var move := Move(quotes[|quotes| - 2], cur);
      var high := avg > 0.0 && cur.volume >= DIVERGENCE_HIVOL_MULT * avg;
      Counts(front.high + if high then 1 else 0,
             front.flat + if high && move <= DIVERGENCE_FLAT_PCT then 1 else 0,
             front.moves + [(cur.volume, move)])
  }

  method CountHighVolume(quotes: seq<Quote>, avg: real) returns (r: Counts)
    ensures r == Count(quotes, avg)
  {
    r := Counts(0, 0, []);
    if quotes == [] {
      return;
    }
    for i := 1 to |quotes|
      invariant r == Count(quotes[..i], avg)
    {
      assert quotes[..i + 1][..i] == quotes[..i];
      var move := Move(quotes[i - 1], quotes[i]);
      var high := avg > 0.0 && quotes[i].volume >= DIVERGENCE_HIVOL_MULT * avg;
      r := Counts(r.high + if high then 1 else 0,
                  r.flat + if high && move <= DIVERGENCE_FLAT_PCT then 1 else 0,
                  r.moves + [(quotes[i].volume, move)]);
    }
    assert quotes[..|quotes|] == quotes;
  }

  function DivergenceStrength(counts: Counts, corr: Correlation): real
    requires counts.flat <= counts.high
  {
    if counts.high == 0 then 0.0 else counts.flat as real / counts.high as real * CorrFactor(corr(counts.moves))
  }

  /** The clamp on the divergence sub-score never acts. */
  lemma DivergenceClampIsDead(counts: Counts, corr: Correlation)
    requires counts.flat <= counts.high
    ensures 0.0 <= DivergenceStrength(counts, corr) <= 1.0
  {
    if counts.high > 0 {
      var q, f := counts.flat as real / counts.high as real, CorrFactor(corr(counts.moves));
      assert q * counts.high as real == counts.flat as real;
      assert 0.0 <= q <= 1.0;
      assert 0.0 <= q * f <= q;
    }
  }

  function LastQuotes(quotes: seq<Quote>, n: nat): seq<Quote> {
    if |quotes| <= n then quotes else quotes[|quotes| - n..]
  }

  function Divergence(bars: seq<DailyBar>, corr: Correlation): Subscored {
    var usable := LastQuotes(Quoted(bars), DIVERGENCE_WINDOW_DAYS);
    if |usable| < 3 then Subscored(0.0, false)
    else
      var avg := Sum(Volumes(usable[..|usable| - 1])) / (|usable| - 1) as real;
      Subscored(Clamp01(DivergenceStrength(Count(usable, avg), corr)), true)
  }

  // ---- the other funded components ----------------------------------------------------------------------

  function RecentReturn(bars: seq<DailyBar>, days: nat): Option<real> {
    var usable := Quoted(bars);
    if |usable| <= days then None
    else
      var a, b := usable[|usable| - days - 1].close, usable[|usable| - 1].close;
      if a != 0.0 then Some((b - a) / a) else None
  }

  function MaxPersistence(brokers: seq<BrokerStat>): nat {
    if brokers == [] then 0
    else
      var rest := MaxPersistence(brokers[1..]);
      if brokers[0].persistence >= rest then brokers[0].persistence else rest
  }

  function BrokerConcentration(broker: BrokerSnapshot, bars: seq<DailyBar>): Subscored {
    var buyers := NetBuyers(broker.brokers);
    if broker.top2.None? || buyers == [] then Subscored(0.0, false)
    else
      var persistence := MaxPersistence(if |buyers| <= 2 then buyers else buyers[..2]);
      var ret := RecentReturn(bars, BROKER_PERSIST_DAYS);
      var flatDown := ret.None? || ret.value <= 0.02;
      Subscored(Clamp01(if persistence >= BROKER_PERSIST_DAYS && flatDown then broker.top2.value
                        else broker.top2.value * 0.5), true)
  }

  function ForeignFlow(foreign: Option<ForeignSnapshot>, track: string): Subscored {
    if track != "A" then Subscored(0.0, true)
    else if foreign.None? || foreign.value.vs20d.None? || foreign.value.netLast.None? then Subscored(0.0, false)
    else
      var rising := foreign.value.buying && foreign.value.netLast.value > 0.0;
      var spike := foreign.value.vs20d.value / FOREIGN_SPIKE_MULT;
      Subscored(if rising then Clamp01(spike / 2.0) else Clamp01(spike / 4.0), true)
  }

  function Rvol(bars: seq<DailyBar>): Subscored {
    var usable := Quoted(bars);
    if |usable| < 2 || PriorVolume(usable, ADV_WINDOW_DAYS) <= 0.0 then Subscored(0.0, false)
    else
      var rvol := usable[|usable| - 1].volume / PriorVolume(usable, ADV_WINDOW_DAYS);
      Subscored(Clamp01((rvol - 1.0) / (RVOL_MULT - 1.0)), true)
  }

  function MaxBuy(brokers: seq<BrokerStat>): real
    requires brokers != []
  {
    if |brokers| == 1 then brokers[0].buy
    else
      var rest := MaxBuy(brokers[1..]);
      if brokers[0].buy >= rest then brokers[0].buy else rest
  }

  function BlockTrade(broker: BrokerSnapshot, adv20: Option<real>): Subscored {
    if broker.brokers == [] then Subscored(0.0, false)
    else
      var top := MaxBuy(broker.brokers);
      Subscored(if adv20.Some? && adv20.value > 0.0 then Clamp01(top / adv20.value / BLOCK_ADV_PCT)
                else Clamp01(top / BLOCK_VALUE_IDR), true)
  }

  predicate HasEvent(events: seq<PhaseEvent>, kind: EventKind) { EventDate(events, kind).Some? }

  function PhaseBonus(c: Classification): Subscored {
    Subscored(if HasEvent(c.events, SPRING) || HasEvent(c.events, LPS) then 1.0
              else if HasEvent(c.events, SOS) then 0.5 else 0.0, true)
  }

  // ---- the candidates -----------------------------------------------------------------------------------

  function OwnershipDelta(own: Option<Ownership>): Subscored {
    if own.None? || !own.value.available || own.value.deltaPp.None? then Subscored(0.0, false)
    else Subscored(Clamp01(own.value.deltaPp.value / OWNERSHIP_FULL_CREDIT_PP), true)
  }

  function BarCharacter(reading: Option<VpaReading>): Subscored {
    var (strength, available) := Subscore(reading);
    Subscored(strength, available)
  }

  function Confluences(vp: Option<Profile.VolumeProfile>, events: seq<PhaseEvent>): nat {
    if events == [] then 0
    else
      var e := events[0];
      Confluences(vp, events[1..])
      + if e.kind in {SPRING, LPS} && Confluence(vp, e.kind, e.date).Some? then 1 else 0
  }

  function VpConfluence(vp: Option<Profile.VolumeProfile>, events: seq<PhaseEvent>): Subscored {
    if vp.None? || vp.value.Unavailable? then Subscored(0.0, false)
    else Subscored(Clamp01(Confluences(vp, events) as real / FULL_CREDIT_CONFLUENCES), true)
  }

  // ---- assembly -----------------------------------------------------------------------------------------

  /** What a score is computed from: the evidence every candidate leaves alone, and the three
      readings. */
  datatype Evidence = Evidence(
    track: string, bars: seq<DailyBar>, broker: BrokerSnapshot, foreign: Option<ForeignSnapshot>,
    adv20: Option<real>, multiplier: real, corr: Correlation)

  datatype Readings = Readings(own: Option<Ownership>, vpa: Option<VpaReading>, vp: Option<Profile.VolumeProfile>)

  function SubscoreOf(c: Component, e: Evidence, cls: Classification, r: Readings): (s: Subscored)
    ensures 0.0 <= s.strength <= 1.0
  {
    match c
    case DIVERGENCE => Divergence(e.bars, e.corr)
    case BROKER_CONCENTRATION => BrokerConcentration(e.broker, e.bars)
    case FOREIGN_FLOW => ForeignFlow(e.foreign, e.track)
    case RVOL => Rvol(e.bars)
    case BLOCK_TRADE => BlockTrade(e.broker, e.adv20)
    case PHASE_BONUS => PhaseBonus(cls)
    case OWNERSHIP_DELTA => OwnershipDelta(r.own)
    case BAR_CHARACTER => BarCharacter(r.vpa)
    case VP_CONFLUENCE => VpConfluence(r.vp, cls.events)
  }

  function Weight(w: Vector, c: Component): int { if c in w then w[c] else 0 }

  function Contribution(w: int, strength: real): real { w as real * strength }

  /** The weighted sum over the listed components. */
  function Weighted(w: Vector, keys: seq<Component>, strength: Component -> real): real {
    if keys == [] then 0.0
    else
      var c := keys[|keys| - 1];
      Weighted(w, keys[..|keys| - 1], strength) + Contribution(Weight(w, c), strength(c))
  }

  function Strengths(e: Evidence, cls: Classification, r: Readings): Component -> real {
    (c: Component) => SubscoreOf(c, e, cls, r).strength
  }

  /** The composite before the multiplier. */
  function Composite(w: Vector, e: Evidence, cls: Classification, r: Readings): real {
    Weighted(w, COMPONENTS, Strengths(e, cls, r))
  }

  function Multiplied(x: real, m: real): real { x * m }

  /** The score before it is rounded to two places. */
  function Score(w: Vector, e: Evidence, cls: Classification, r: Readings): real {
    Multiplied(Composite(w, e, cls, r), e.multiplier)
  }

  lemma ContributionBounded(w: int, s: real)
    requires w >= 0 && 0.0 <= s <= 1.0
    ensures 0.0 <= Contribution(w, s) <= w as real
  {
    assert w as real * (1.0 - s) >= 0.0;
  }

  lemma {:induction false} WeightedBounded(w: Vector, keys: seq<Component>, s: Component -> real)
    requires (forall c :: c in w ==> w[c] >= 0) && forall c: Component :: 0.0 <= s(c) <= 1.0
    ensures 0.0 <= Weighted(w, keys, s) <= Total(w, keys) as real
  {
    if keys != [] {
      var c, front := keys[|keys| - 1], keys[..|keys| - 1];
      WeightedBounded(w, front, s);
      ContributionBounded(Weight(w, c), s(c));
      assert Total(w, keys) == Total(w, front) + Weight(w, c);
    }
  }

  lemma StrengthsInUnit(e: Evidence, cls: Classification, r: Readings)
    ensures forall c: Component :: 0.0 <= Strengths(e, cls, r)(c) <= 1.0
  {
    forall c: Component ensures 0.0 <= Strengths(e, cls, r)(c) <= 1.0 {
      assert Strengths(e, cls, r)(c) == SubscoreOf(c, e, cls, r).strength;
    }
  }

  lemma Shrinks(x: real, m: real, top: real)
    requires 0.0 <= x <= top && 0.0 <= m <= 1.0
    ensures 0.0 <= Multiplied(x, m) <= top
  {
    assert x * (1.0 - m) >= 0.0;
  }

  /** With weights on the locked simplex the composite is on the 0 to 100 scale its type promises. */
  lemma CompositeOnScale(w: Vector, e: Evidence, cls: Classification, r: Readings)
    requires IsValid(e.track, w)
    ensures 0.0 <= Composite(w, e, cls, r) <= 100.0
  {
    StrengthsInUnit(e, cls, r);
    var keys := COMPONENTS;
    assert Total(w, keys) == WEIGHT_SUM;
    WeightedBounded(w, keys, Strengths(e, cls, r));
  }

  /** And a multiplier of at most 1 keeps the score there. */
  lemma ScoreOnScale(w: Vector, e: Evidence, cls: Classification, r: Readings)
    requires IsValid(e.track, w) && 0.0 <= e.multiplier <= 1.0
    ensures 0.0 <= Score(w, e, cls, r) <= 100.0
  {
    CompositeOnScale(w, e, cls, r);
    Shrinks(Composite(w, e, cls, r), e.multiplier, 100.0);
  }

  // ---- the candidates are inert exactly while they are unfunded ------------------------------------------

  const CANDIDATES: set<Component> := {OWNERSHIP_DELTA, BAR_CHARACTER, VP_CONFLUENCE}

  ghost predicate Unfunded(w: Vector) {
    forall c :: c in CANDIDATES ==> Weight(w, c) == 0
  }

  lemma {:induction false} WeightedAgrees(w: Vector, keys: seq<Component>, s: Component -> real, t: Component -> real)
    requires forall c: Component :: Weight(w, c) == 0 || s(c) == t(c)
    ensures Weighted(w, keys, s) == Weighted(w, keys, t)
  {
    if keys != [] {
      var c := keys[|keys| - 1];
      WeightedAgrees(w, keys[..|keys| - 1], s, t);
      assert Weight(w, c) == 0 || s(c) == t(c);
    }
  }

  lemma BonusIgnoresNotes(a: Classification, b: Classification)
    requires SameButForNotes(a, b)
    ensures PhaseBonus(a) == PhaseBonus(b)
  {
    EventDateOfNotes(a.events, b.events, SPRING);
    EventDateOfNotes(a.events, b.events, LPS);
    EventDateOfNotes(a.events, b.events, SOS);
  }

  lemma FundedStrengthsAgree(e: Evidence, a: Classification, r: Readings, b: Classification, q: Readings, c: Component)
    requires SameButForNotes(a, b) && c !in CANDIDATES
    ensures SubscoreOf(c, e, a, r) == SubscoreOf(c, e, b, q)
  {
    BonusIgnoresNotes(a, b);
  }

  /** Unfunded, the candidates and the notes they hang on events leave the composite alone. */
  lemma CompositeIgnores(w: Vector, e: Evidence, a: Classification, r: Readings, b: Classification, q: Readings)
    requires Unfunded(w) && SameButForNotes(a, b)
    ensures Composite(w, e, a, r) == Composite(w, e, b, q)
  {
    var s, t := Strengths(e, a, r), Strengths(e, b, q);
    forall c: Component ensures Weight(w, c) == 0 || s(c) == t(c) {
      if c !in CANDIDATES {
        FundedStrengthsAgree(e, a, r, b, q, c);
      }
    }
    WeightedAgrees(w, COMPONENTS, s, t);
  }

  lemma ScoreIgnores(w: Vector, e: Evidence, a: Classification, r: Readings, b: Classification, q: Readings)
    requires Unfunded(w) && SameButForNotes(a, b)
    ensures Score(w, e, a, r) == Score(w, e, b, q)
  {
    CompositeIgnores(w, e, a, r, b, q);
  }

  const NO_READINGS := Readings(None, None, None)

  /** Full institutional accumulation. */
  const FULL_OWNERSHIP := Ownership(false, false, true, Some(2.0))

  function Absorbing(date: int): VpaBar { Readable(date, ABSORPTION, false, Ratios(1.0, 1.0, 2.0), false, false) }

  /** A ribbon of three absorption bars. */
  const FULL_CHARACTER := VpaReading([Absorbing(1), Absorbing(2), Absorbing(3)], true)

  lemma FullStrengths()
    ensures OwnershipDelta(Some(FULL_OWNERSHIP)).strength == 1.0
    ensures BarCharacter(Some(FULL_CHARACTER)).strength == 1.0
  {
    var bars := FULL_CHARACTER.bars;
    assert bars[..2] == [Absorbing(1), Absorbing(2)] && bars[..2][..1] == [Absorbing(1)] && bars[..2][..1][..0] == [];
    assert DemandSide(bars[..2][..1]) == 1;
    assert DemandSide(bars[..2]) == 2;
    assert DemandSide(bars) == 3;
  }

  /** One strength raised from nothing to full adds its component's weight. */
  lemma {:induction false} WeightedChange(w: Vector, keys: seq<Component>, s: Component -> real, t: Component -> real,
                                          c: Component)
    requires forall i, j :: 0 <= i < j < |keys| ==> keys[i] != keys[j]
    requires s(c) == 0.0 && t(c) == 1.0 && forall d: Component :: d != c ==> s(d) == t(d)
    ensures Weighted(w, keys, t) == Weighted(w, keys, s) + if c in keys then Weight(w, c) as real else 0.0
  {
    if keys != [] {
      var n := |keys| - 1;
      var d := keys[n];
      WeightedChange(w, keys[..n], s, t, c);
      assert keys == keys[..n] + [d];
      if d == c {
        FullContribution(Weight(w, d));
      } else {
        assert s(d) == t(d);
      }
    }
  }

  lemma FullContribution(w: int)
    ensures Contribution(w, 1.0) == w as real && Contribution(w, 0.0) == 0.0
  {
  }

  /** The composite with only the ownership reading. */
  lemma OwnershipAdds(w: Vector, e: Evidence, cls: Classification, vp: Option<Profile.VolumeProfile>)
    ensures Composite(w, e, cls, Readings(Some(FULL_OWNERSHIP), None, vp))
            == Composite(w, e, cls, Readings(None, None, vp)) + Weight(w, OWNERSHIP_DELTA) as real
  {
    FullStrengths();
    var s, t :=
      Strengths(e, cls, Readings(None, None, vp)), Strengths(e, cls, Readings(Some(FULL_OWNERSHIP), None, vp));
    WeightedChange(w, COMPONENTS, s, t, OWNERSHIP_DELTA);
    assert COMPONENTS[6] == OWNERSHIP_DELTA;
    assert s(OWNERSHIP_DELTA) == 0.0 && t(OWNERSHIP_DELTA) == 1.0;
  }

  lemma CharacterAdds(w: Vector, e: Evidence, cls: Classification, vp: Option<Profile.VolumeProfile>)
    ensures Composite(w, e, cls, Readings(None, Some(FULL_CHARACTER), vp))
            == Composite(w, e, cls, Readings(None, None, vp)) + Weight(w, BAR_CHARACTER) as real
  {
    FullStrengths();
    var s, t :=
      Strengths(e, cls, Readings(None, None, vp)), Strengths(e, cls, Readings(None, Some(FULL_CHARACTER), vp));
    WeightedChange(w, COMPONENTS, s, t, BAR_CHARACTER);
    assert COMPONENTS[7] == BAR_CHARACTER;
    assert s(BAR_CHARACTER) == 0.0 && t(BAR_CHARACTER) == 1.0;
  }

  /** Whatever the ownership and bar-character readings, the composite is the one without them. */
  ghost predicate Inert(w: Vector, e: Evidence, cls: Classification, vp: Option<Profile.VolumeProfile>) {
    forall own, vpa :: Composite(w, e, cls, Readings(own, vpa, vp)) == Composite(w, e, cls, Readings(None, None, vp))
  }

  /** These two readings are inert if and only if neither component has weight. */
  lemma InertIffUnfunded(w: Vector, e: Evidence, cls: Classification, vp: Option<Profile.VolumeProfile>)
    ensures Inert(w, e, cls, vp) <==> Weight(w, OWNERSHIP_DELTA) == 0 && Weight(w, BAR_CHARACTER) == 0
  {
    OwnershipAdds(w, e, cls, vp);
    CharacterAdds(w, e, cls, vp);
    if Weight(w, OWNERSHIP_DELTA) == 0 && Weight(w, BAR_CHARACTER) == 0 {
      forall own, vpa
        ensures Composite(w, e, cls, Readings(own, vpa, vp)) == Composite(w, e, cls, Readings(None, None, vp)) {
        UnfundedAgree(w, e, cls, Readings(own, vpa, vp), Readings(None, None, vp));
      }
    }
  }

  lemma UnfundedAgree(w: Vector, e: Evidence, cls: Classification, r: Readings, q: Readings)
    requires Weight(w, OWNERSHIP_DELTA) == 0 && Weight(w, BAR_CHARACTER) == 0 && r.vp == q.vp
    ensures Composite(w, e, cls, r) == Composite(w, e, cls, q)
  {
    var s, t := Strengths(e, cls, r), Strengths(e, cls, q);
    forall c: Component ensures Weight(w, c) == 0 || s(c) == t(c) {
      if c !in {OWNERSHIP_DELTA, BAR_CHARACTER} {
        assert SubscoreOf(c, e, cls, r) == SubscoreOf(c, e, cls, q);
      }
    }
    WeightedAgrees(w, COMPONENTS, s, t);
  }
}
