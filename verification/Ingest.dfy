/** `ingest_symbol` of `currentflow/ingest/pipeline.py` as a step protocol that may fail at any
    feed call and in the middle of any write.  Bars are written last and are the commit marker:
    a day counts as ingested once it has a stored bar. */
module Ingest {
  import opened Models
  import opened Sequences
  import opened Ordering
  import opened Store

  type BrokerRows = seq<(BrokerKey, BrokerRow)>
  type BarRows = seq<(BarKey, DailyBar)>

  /** The remote feed: the broker rows of one day, and the bar of one day if it traded. */
  datatype Feed = Feed(broker: (string, int) -> BrokerRows, bar: (string, int) -> Option<(BarKey, DailyBar)>)

  /** Where a run dies.  `AtBrokerCall(k)` fails the call for the (k+1)-th missing day; the
      write failures leave the given number of rows stored. */
  datatype Crash = Never | AtBrokerCall(call: nat) | AtBrokerWrite(rows: nat) | AtBarsCall | AtBarsWrite(rows: nat)

  datatype Counts = Counts(bars: nat, brokerRows: nat, skipped: nat)

  // ---- the days of a run -----------------------------------------------------------------

  /** `_weekdays`. */
  method Weekdays(start: int, end: int) returns (days: seq<int>)
    ensures days == WeekdaysFrom(start, end)
  {
    days := [];
    var d := start;
    while d <= end
      invariant start <= d
      invariant d <= end + 1 || d == start
      invariant days == WeekdaysFrom(start, d - 1)
    {
      if IsWeekday(d) {
        days := days + [d];
      }
      d := d + 1;
    }
    if d > end + 1 { EmptyRange(start, d - 1, end); }
  }

  function WeekdaysFrom(start: int, end: int): (days: seq<int>)
    ensures forall d :: d in days <==> start <= d <= end && IsWeekday(d)
    ensures Ascending(days)
    decreases end - start
  {
    if end < start then []
    else if IsWeekday(end) then
      var front := WeekdaysFrom(start, end - 1);
      assert forall i :: 0 <= i < |front| ==> front[i] in front;
      front + [end]
    else WeekdaysFrom(start, end - 1)
  }

  lemma EmptyRange(start: int, a: int, b: int)
    requires a < start && b < start
    ensures WeekdaysFrom(start, a) == WeekdaysFrom(start, b)
  {
  }

  ghost predicate Stored(t: BarTable, symbol: string, day: int) {
    exists k :: k in t && k.symbol == symbol && k.date == day
  }

  function StoredDates(t: BarTable, symbol: string): (dates: set<int>)
    ensures forall d :: d in dates <==> Stored(t, symbol, d)
  {
    set k | k in t && k.symbol == symbol :: k.date
  }

  function Missing(t: BarTable, symbol: string, start: int, end: int): (days: seq<int>)
    ensures forall d :: d in days <==> start <= d <= end && IsWeekday(d) && !Stored(t, symbol, d)
  {
    var dates := StoredDates(t, symbol);
    var days := Filter(WeekdaysFrom(start, end), d => d !in dates);
    assert forall d :: d in days <==> d in WeekdaysFrom(start, end) && d !in dates by {
      forall d | d in WeekdaysFrom(start, end) && d !in dates ensures d in days {
        FilterComplete(WeekdaysFrom(start, end), d => d !in dates, d);
      }
    }
    days
  }

  lemma {:induction false} FilterAscending(xs: seq<int>, keep: int -> bool)
    requires Ascending(xs)
    ensures Ascending(Filter(xs, keep))
  {
    if xs != [] {
      FilterAscending(xs[1..], keep);
      var rest := Filter(xs[1..], keep);
      forall i | 0 <= i < |rest| ensures xs[0] < rest[i] {
        assert rest[i] in xs[1..];
      }
      assert Ascending([xs[0]] + rest);
    }
  }

  lemma MissingAscending(t: BarTable, symbol: string, start: int, end: int)
    ensures Ascending(Missing(t, symbol, start, end))
  {
    var dates := StoredDates(t, symbol);
    var wanted := WeekdaysFrom(start, end);
    FilterAscending(wanted, d => d !in dates);
    assert Missing(t, symbol, start, end) == Filter(wanted, d => d !in dates);
  }

  // ---- what the feed answers ---------------------------------------------------------------

  /** One broker call a day, the answers appended. */
  function BrokerAnswers(feed: Feed, symbol: string, days: seq<int>): BrokerRows {
    if days == [] then []
    else BrokerAnswers(feed, symbol, days[..|days| - 1]) + feed.broker(symbol, days[|days| - 1])
  }

  /** One ranged bar call, newest page first. */
  function BarAnswers(feed: Feed, symbol: string, lo: int, hi: int): BarRows
    decreases hi - lo
  {
    if hi < lo then []
    else
      (match feed.bar(symbol, hi) case Some(row) => [row] case None => []) + BarAnswers(feed, symbol, lo, hi - 1)
  }

  /** The feed stamps its rows with the symbol and day asked for, and knows bars only for
      weekdays. */
  ghost predicate WellFormed(feed: Feed) {
    && (forall symbol, day, i :: 0 <= i < |feed.broker(symbol, day)| ==>
          var k := feed.broker(symbol, day)[i].0; k.symbol == symbol && k.date == day)
    && (forall symbol, day :: feed.bar(symbol, day).Some? ==>
          var k := feed.bar(symbol, day).value.0; k.symbol == symbol && k.date == day && IsWeekday(day))
  }

  // ---- one run -------------------------------------------------------------------------------

  function Cut<T>(rows: seq<T>, n: nat): (r: seq<T>)
    ensures exists m: nat :: m <= |rows| && r == rows[..m]
  {
    assert n <= |rows| || rows[..|rows|] == rows;
    if n <= |rows| then rows[..n] else rows
  }

  function BrokerStage(db: Db, feed: Feed, symbol: string, days: seq<int>, crash: Crash): Db {
    var rows := BrokerAnswers(feed, symbol, days);
    if crash.AtBrokerCall? && crash.call < |days| then db
    else if crash.AtBrokerWrite? then Apply(db, WriteBroker(Cut(rows, crash.rows)))
    else Apply(db, WriteBroker(rows))
  }

  predicate ReachesBars(days: seq<int>, crash: Crash) {
    match crash
    case Never => true
    case AtBrokerCall(k) => k >= |days|
    case AtBrokerWrite(_) => false
    case AtBarsCall => false
    case AtBarsWrite(_) => true
  }

  /** The store after a run over `[start, end]` that dies at `crash`. */
  function Run(db: Db, feed: Feed, symbol: string, start: int, end: int, crash: Crash): Db {
    var days := Missing(db.bars, symbol, start, end);
    if days == [] then db
    else
      var mid := BrokerStage(db, feed, symbol, days, crash);
      if ReachesBars(days, crash) then
        var rows := BarAnswers(feed, symbol, days[0], days[|days| - 1]);
        Apply(mid, WriteBars(if crash.AtBarsWrite? then Cut(rows, crash.rows) else rows))
      else mid
  }

  /** The broker rows of every missing day, or the exception of a call that fails. */
  method FetchBroker(feed: Feed, symbol: string, days: seq<int>, crash: Crash) returns (r: Option<BrokerRows>)
    ensures r == if crash.AtBrokerCall? && crash.call < |days| then None else Some(BrokerAnswers(feed, symbol, days))
  {
    var broker: BrokerRows := [];
    for i := 0 to |days|
      invariant broker == BrokerAnswers(feed, symbol, days[..i])
      invariant crash.AtBrokerCall? ==> i <= crash.call
    {
      if crash == AtBrokerCall(i) {
        return None;
      }
      assert days[..i + 1][..i] == days[..i];
      broker := broker + feed.broker(symbol, days[i]);
    }
    assert days[..|days|] == days;
    return Some(broker);
  }

  /** The days a run still has to fetch, and how many it skips. */
  method MissingDays(store: Store, symbol: string, start: int, end: int) returns (missing: seq<int>, skipped: nat)
    ensures missing == Missing(store.bars, symbol, start, end)
  {
    var already := store.IngestedDates(symbol);
    var wanted := Weekdays(start, end);
    missing := Filter(wanted, d => d !in already);
    assert already == StoredDates(store.bars, symbol);
    skipped := |wanted| - |missing|;
  }

  /** `ingest_symbol`: `None` stands for the exception that ends a failed run. */
  method IngestSymbol(store: Store, feed: Feed, symbol: string, start: int, end: int, crash: Crash)
    returns (result: Option<Counts>)
    modifies store
    ensures store.Contents() == Run(old(store.Contents()), feed, symbol, start, end, crash)
    ensures result.Some? ==>
              && |store.bars| == |old(store.bars)| + result.value.bars
              && |store.broker| == |old(store.broker)| + result.value.brokerRows
    ensures crash == Never ==> result.Some?
  {
    hide BrokerAnswers, BarAnswers, Missing;
    var missing, skipped := MissingDays(store, symbol, start, end);
    if missing == [] {
      return Some(Counts(0, 0, skipped));
    }
    var lo, hi := missing[0], missing[|missing| - 1];
    var fetched := FetchBroker(feed, symbol, missing, crash);
    if fetched.None? {
      return None;
    }
    var broker := fetched.value;
    assert broker[..|broker|] == broker;
    if crash.AtBrokerWrite? {
      var _ := store.WriteBrokerNet(broker, if crash.rows <= |broker| then crash.rows else |broker|);
      return None;
    }
    var brokerInserted := store.WriteBrokerNet(broker, |broker|);
    if crash.AtBarsCall? {
      return None;
    }
    var bars := BarAnswers(feed, symbol, lo, hi);
    assert bars[..|bars|] == bars;
    if crash.AtBarsWrite? {
      var _ := store.WriteDailyBars(bars, if crash.rows <= |bars| then crash.rows else |bars|);
      return None;
    }
    var barsInserted := store.WriteDailyBars(bars, |bars|);
    return Some(Counts(barsInserted, brokerInserted, skipped));
  }
}
