/** The veto filters of `currentflow/signals/veto.py`. */
module Veto {
  import opened Models
  import opened Sequences
  import opened Ordering
  import opened Snapshots
  import opened Phase
  import BrokerFlow

  const MONOPOLY_SHARE := 0.60
  const RETAIL_FOMO_SHARE := 0.60
  const MARKUP_PRICE_PCT := 0.03
  const MARKUP_THIN_RVOL := 1.0
  const WASH_RATIO := 0.70
  const WASH_MATERIAL := 0.10
  const ROTATION_MIN_DAYS: nat := 3
  const ROTATION_SHARE := 0.4
  const FLIP_MIN_DAYS: nat := 2
  const ADV_WINDOW_DAYS: nat := 20

  datatype Reason =
    | SINGLE_BANDAR_MONOPOLY | DISTRIBUTION_DRESSED | MARKUP_ON_THIN_VOLUME | WASH_CHURN | BROKER_ROTATION
    | RETAIL_FOMO | EVENT_DRIVEN | PHASE_MISMATCH

  datatype Fired = Fired(reason: Reason, corroborated: bool)

  function When(hit: bool, reason: Reason): Option<Fired> { if hit then Some(Fired(reason, false)) else None }

  function NetsOn(broker: BrokerSnapshot, day: int): seq<(string, real)> {
    if day in broker.daily then broker.daily[day] else []
  }

  /** The latest `n` stored days, or fewer. */
  function LatestDays(broker: BrokerSnapshot, n: nat): seq<int> {
    var days := Sorted(broker.daily.Keys);
    if |days| <= n then days else days[|days| - n..]
  }

  function TopShare(nets: seq<(string, real)>): Option<real> { BrokerFlow.TopNShare(Values(nets), 1) }

  predicate IsMonopoly(broker: BrokerSnapshot) {
    var share := TopShare(NetsOn(broker, broker.end));
    share.Some? && share.value > MONOPOLY_SHARE
  }

  /** The window's top net buyer has sold on every one of the latest days. */
  predicate DominantFlips(broker: BrokerSnapshot) {
    var buyers, recent := NetBuyers(broker.brokers), LatestDays(broker, FLIP_MIN_DAYS);
    && buyers != [] && |recent| >= FLIP_MIN_DAYS
    && forall i :: 0 <= i < |recent| ==> Lookup(NetsOn(broker, recent[i]), buyers[0].code) < 0.0
  }

  /** `_corroborate`: nothing in, nothing out. */
  function Corroborate(v: Option<Fired>, own: Option<Ownership>): Option<Fired> {
    if v.None? || own.None? || !own.value.CorroboratesDistribution() then v else Some(Fired(v.value.reason, true))
  }

  predicate IsThinMarkup(bars: seq<DailyBar>) {
    var usable := Quoted(bars);
    && |usable| >= 2
    && var last, prev, avg := usable[|usable| - 1], usable[|usable| - 2], PriorVolume(usable, ADV_WINDOW_DAYS);
       && avg > 0.0 && prev.close != 0.0
       && (last.close - prev.close) / prev.close >= MARKUP_PRICE_PCT && last.volume / avg <= MARKUP_THIN_RVOL
  }

  function GrossTotal(brokers: seq<BrokerStat>): real {
    if brokers == [] then 0.0
    else GrossTotal(brokers[..|brokers| - 1]) + (brokers[|brokers| - 1].buy + brokers[|brokers| - 1].sell)
  }

  function BuyTotal(brokers: seq<BrokerStat>): real {
    if brokers == [] then 0.0 else BuyTotal(brokers[..|brokers| - 1]) + brokers[|brokers| - 1].buy
  }

  predicate Washes(b: BrokerStat, gross: real) {
    var hi, lo := if b.buy >= b.sell then b.buy else b.sell, if b.buy <= b.sell then b.buy else b.sell;
    hi > 0.0 && b.buy + b.sell >= WASH_MATERIAL * gross && lo / hi >= WASH_RATIO
  }

  predicate IsWashChurn(broker: BrokerSnapshot) {
    var gross := GrossTotal(broker.brokers);
    gross > 0.0 && exists i :: 0 <= i < |broker.brokers| && Washes(broker.brokers[i], gross)
  }

  /** The day's largest net buyer, the first of equals. */
  function TopBuyer(nets: seq<(string, real)>): Option<(string, real)> {
    if nets == [] then None
    else
      var front, last := TopBuyer(nets[..|nets| - 1]), nets[|nets| - 1];
      if last.1 > 0.0 && (front.None? || last.1 > front.value.1) then Some(last) else front
  }

  predicate Concentrated(nets: seq<(string, real)>) {
    TopBuyer(nets).Some? && TopShare(nets).Some? && TopShare(nets).value > ROTATION_SHARE
  }

  type DayNets = seq<(string, real)>

  /** The nets of the latest days, oldest first. */
  function RecentNets(broker: BrokerSnapshot): (r: seq<DayNets>)
    ensures |r| == |LatestDays(broker, ROTATION_MIN_DAYS)|
  {
    var days := LatestDays(broker, ROTATION_MIN_DAYS);
    seq(|days|, i requires 0 <= i < |days| => NetsOn(broker, days[i]))
  }

  /** Concentrated on every day, in different hands each day. */
  predicate Rotates(nets: seq<DayNets>) {
    && (forall i :: 0 <= i < |nets| ==> Concentrated(nets[i]))
    && forall i, j :: 0 <= i < j < |nets| ==> TopBuyer(nets[i]).value.0 != TopBuyer(nets[j]).value.0
  }

  predicate IsRotation(broker: BrokerSnapshot) {
    var nets := RecentNets(broker);
    |nets| >= ROTATION_MIN_DAYS && Rotates(nets)
  }

  /** `_broker_rotation`. */
  method BrokerRotation(broker: BrokerSnapshot) returns (hit: bool)
    ensures hit == IsRotation(broker)
  {
    var nets := RecentNets(broker);
    if |nets| < ROTATION_MIN_DAYS {
      return false;
    }
    hit := RotationOver(nets);
  }

  method RotationOver(nets: seq<DayNets>) returns (hit: bool)
    ensures hit == Rotates(nets)
  {
    var tops: seq<string> := [];
    for i := 0 to |nets|
      invariant |tops| == i
      invariant forall j :: 0 <= j < i ==> Concentrated(nets[j]) && tops[j] == TopBuyer(nets[j]).value.0
    {
      var concentrated := Concentrated(nets[i]);
      if !concentrated {
        return false;
      }
      tops := tops + [TopBuyer(nets[i]).value.0];
    }
    hit := forall i, j :: 0 <= i < j < |tops| ==> tops[i] != tops[j];
  }

  predicate IsRetailFomo(broker: BrokerSnapshot) {
    var total := BuyTotal(broker.brokers);
    total > 0.0 && BuyTotal(Filter(broker.brokers, (b: BrokerStat) => b.retail)) / total > RETAIL_FOMO_SHARE
  }

  // ---- all filters --------------------------------------------------------------------------------------

  /** The six filters that look at flow and price only. */
  datatype Hits = Hits(monopoly: bool, flips: bool, thinMarkup: bool, washChurn: bool, rotation: bool, retailFomo: bool)
  {
    predicate Clear() { !monopoly && !flips && !thinMarkup && !washChurn && !rotation && !retailFomo }
  }

  function Observe(broker: BrokerSnapshot, bars: seq<DailyBar>): Hits {
    Hits(IsMonopoly(broker), DominantFlips(broker), IsThinMarkup(bars), IsWashChurn(broker), IsRotation(broker),
         IsRetailFomo(broker))
  }

  function Distribution(flips: bool, c: Classification, own: Option<Ownership>): Option<Fired> {
    if c.phase == WyckoffPhase.DISTRIBUTION || flips then Corroborate(Some(Fired(DISTRIBUTION_DRESSED, false)), own)
    else None
  }

  function Candidates(h: Hits, c: Classification, news: bool, own: Option<Ownership>): seq<Option<Fired>> {
    [ When(h.monopoly, SINGLE_BANDAR_MONOPOLY), Distribution(h.flips, c, own),
      When(h.thinMarkup, MARKUP_ON_THIN_VOLUME), When(h.washChurn, WASH_CHURN),
      When(h.rotation, BROKER_ROTATION), When(h.retailFomo, RETAIL_FOMO),
      When(news, EVENT_DRIVEN), When(!IsTradeable(c.phase), PHASE_MISMATCH) ]
  }

  function Present(vetoes: seq<Option<Fired>>): seq<Fired> {
    if vetoes == [] then []
    else if vetoes[0].Some? then [vetoes[0].value] + Present(vetoes[1..])
    else Present(vetoes[1..])
  }

  /** `evaluate_vetoes`: every filter that fired, none short-circuiting another. */
  function Evaluate(broker: BrokerSnapshot, bars: seq<DailyBar>, c: Classification, news: bool,
                    own: Option<Ownership>): seq<Fired> {
    Present(Candidates(Observe(broker, bars), c, news, own))
  }

  function Reasons(vetoes: seq<Fired>): (r: seq<Reason>)
    ensures |r| == |vetoes| && forall i :: 0 <= i < |r| ==> r[i] == vetoes[i].reason
  {
    seq(|vetoes|, i requires 0 <= i < |vetoes| => vetoes[i].reason)
  }

  ghost predicate SameReason(a: Option<Fired>, b: Option<Fired>) {
    a.Some? == b.Some? && (a.Some? ==> a.value.reason == b.value.reason)
  }

  lemma {:induction false} PresentSameReasons(a: seq<Option<Fired>>, b: seq<Option<Fired>>)
    requires |a| == |b| && forall i :: 0 <= i < |a| ==> SameReason(a[i], b[i])
    ensures Reasons(Present(a)) == Reasons(Present(b))
  {
    if a != [] {
      assert SameReason(a[0], b[0]);
      PresentSameReasons(a[1..], b[1..]);
    }
  }

  /** Ownership and the notes on events change no veto's reason, and so not whether a name is
      rejected. */
  lemma OwnershipFiresNothing(broker: BrokerSnapshot, bars: seq<DailyBar>, a: Classification, b: Classification,
                              news: bool, own: Option<Ownership>, own': Option<Ownership>)
    requires a.phase == b.phase
    ensures Reasons(Evaluate(broker, bars, a, news, own)) == Reasons(Evaluate(broker, bars, b, news, own'))
  {
    SameCandidates(Observe(broker, bars), a, b, news, own, own');
    PresentSameReasons(Candidates(Observe(broker, bars), a, news, own),
                       Candidates(Observe(broker, bars), b, news, own'));
  }

  lemma SameCandidates(h: Hits, a: Classification, b: Classification, news: bool, own: Option<Ownership>,
                       own': Option<Ownership>)
    requires a.phase == b.phase
    ensures var x, y := Candidates(h, a, news, own), Candidates(h, b, news, own');
            forall i :: 0 <= i < |x| ==> SameReason(x[i], y[i])
  {
    hide When, Distribution;
    SameDistribution(h.flips, a, b, own, own');
  }

  lemma SameDistribution(flips: bool, a: Classification, b: Classification, own: Option<Ownership>,
                         own': Option<Ownership>)
    requires a.phase == b.phase
    ensures SameReason(Distribution(flips, a, own), Distribution(flips, b, own'))
  {
  }

  lemma {:induction false} PresentEmpty(vetoes: seq<Option<Fired>>)
    ensures Present(vetoes) == [] <==> forall i :: 0 <= i < |vetoes| ==> vetoes[i].None?
  {
    if vetoes != [] {
      PresentEmpty(vetoes[1..]);
      assert forall i :: 0 < i < |vetoes| ==> vetoes[i] == vetoes[1..][i - 1];
      assert forall i :: 0 <= i < |vetoes| - 1 ==> vetoes[1..][i] == vetoes[i + 1];
    }
  }

  /** A name passes exactly when its phase is C or D, nothing is in the news and no filter's own
      evidence holds. */
  lemma PassesIff(broker: BrokerSnapshot, bars: seq<DailyBar>, c: Classification, news: bool, own: Option<Ownership>)
    ensures Evaluate(broker, bars, c, news, own) == [] <==>
            IsTradeable(c.phase) && !news && Observe(broker, bars).Clear()
  {
    PassesOn(Observe(broker, bars), c, news, own);
  }

  lemma PassesOn(h: Hits, c: Classification, news: bool, own: Option<Ownership>)
    ensures Present(Candidates(h, c, news, own)) == [] <==> IsTradeable(c.phase) && !news && h.Clear()
  {
    var vetoes := Candidates(h, c, news, own);
    PresentEmpty(vetoes);
    assert |vetoes| == 8;
    assert vetoes[0] == When(h.monopoly, SINGLE_BANDAR_MONOPOLY) && vetoes[1] == Distribution(h.flips, c, own);
    assert vetoes[2] == When(h.thinMarkup, MARKUP_ON_THIN_VOLUME) && vetoes[3] == When(h.washChurn, WASH_CHURN);
    assert vetoes[4] == When(h.rotation, BROKER_ROTATION) && vetoes[5] == When(h.retailFomo, RETAIL_FOMO);
    assert vetoes[6] == When(news, EVENT_DRIVEN) && vetoes[7] == When(!IsTradeable(c.phase), PHASE_MISMATCH);
  }
}
