/** What the score and the vetoes read of a symbol besides its phase: broker flow, foreign flow,
    institutional ownership, and the bars that carry a close and a volume. */
module Snapshots {
  import opened Models
  import opened Sequences

  datatype BrokerStat = BrokerStat(code: string, retail: bool, net: real, buy: real, sell: real, persistence: nat)

  /** Brokers by net value, largest first; each stored day's nets in the feed's order. */
  datatype BrokerSnapshot = BrokerSnapshot(
    brokers: seq<BrokerStat>, daily: map<int, seq<(string, real)>>, end: int, top2: Option<real>)

  datatype ForeignSnapshot = ForeignSnapshot(vs20d: Option<real>, netLast: Option<real>, buying: bool)

  datatype Ownership = Ownership(distributionTell: bool, stale: bool, available: bool, deltaPp: Option<real>)
  {
    predicate CorroboratesDistribution() { distributionTell && !stale }
  }

  datatype Quote = Quote(date: int, close: real, volume: real)

  predicate IsQuoted(b: DailyBar) { b.status == TRADED && b.close.Some? && b.volume.Some? }

  function Quotes(bars: seq<DailyBar>): seq<Quote> {
    if bars == [] then []
    else if IsQuoted(bars[0]) then [Quote(bars[0].date, bars[0].close.value, bars[0].volume.value)] + Quotes(bars[1..])
    else Quotes(bars[1..])
  }

  /** `_complete` of `currentflow/signals/sms.py` and `currentflow/signals/veto.py`. */
  function Quoted(bars: seq<DailyBar>): seq<Quote> { Quotes(Sort(bars, ByDate)) }

  function Volumes(quotes: seq<Quote>): (r: seq<real>)
    ensures |r| == |quotes| && forall i :: 0 <= i < |r| ==> r[i] == quotes[i].volume
  {
    seq(|quotes|, i requires 0 <= i < |quotes| => quotes[i].volume)
  }

  /** Mean volume of the up to `n` quotes before the last, 0 without any. */
  function PriorVolume(quotes: seq<Quote>, n: nat): real
    requires quotes != []
  {
    var front := quotes[..|quotes| - 1];
    var prior := if |front| <= n then front else front[|front| - n..];
    if prior == [] then 0.0 else Sum(Volumes(prior)) / |prior| as real
  }

  function Values(nets: seq<(string, real)>): (r: seq<real>)
    ensures |r| == |nets|
  {
    seq(|nets|, i requires 0 <= i < |nets| => nets[i].1)
  }

  function Lookup(nets: seq<(string, real)>, code: string): real {
    if nets == [] then 0.0 else if nets[0].0 == code then nets[0].1 else Lookup(nets[1..], code)
  }

  function NetBuyers(brokers: seq<BrokerStat>): seq<BrokerStat> { Filter(brokers, (b: BrokerStat) => b.net > 0.0) }

  function Clamp01(x: real): (r: real)
    ensures 0.0 <= r <= 1.0
    ensures 0.0 <= x <= 1.0 ==> r == x
  {
    if x < 0.0 then 0.0 else if x > 1.0 then 1.0 else x
  }
}
