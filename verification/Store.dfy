/** The bitemporal store of `currentflow/store/db.py`: the daily-bar and broker tables, their
    ingest-once writes and their look-ahead-safe reads. */
module Store {
  import opened Models
  import opened Ordering
  import opened Tables

  /** Primary key of `daily_bar`. */
  datatype BarKey = BarKey(symbol: string, date: int, asOf: int)

  /** Primary key of `broker_net`. */
  datatype BrokerKey = BrokerKey(symbol: string, date: int, asOf: int, broker: string, side: Side)

  datatype BrokerRow = BrokerRow(investor: InvestorType, value: Option<real>)

  type BarTable = map<BarKey, DailyBar>
  type BrokerTable = map<BrokerKey, BrokerRow>

  datatype Db = Db(bars: BarTable, broker: BrokerTable)

  function BarAsOf(k: BarKey): int { k.asOf }
  function BrokerAsOf(k: BrokerKey): int { k.asOf }

  predicate Between(date: int, start: Option<int>, end: Option<int>) {
    (start.Some? ==> start.value <= date) && (end.Some? ==> date <= end.value)
  }

  // ---- bars ----------------------------------------------------------------------------------

  /** The WHERE clause of `_read`, with the look-ahead firewall. */
  predicate BarSeen(k: BarKey, symbol: string, ts: int, start: Option<int>, end: Option<int>) {
    k.symbol == symbol && k.asOf < ts && Between(k.date, start, end)
  }

  function SeenDates(t: BarTable, symbol: string, ts: int, start: Option<int>, end: Option<int>): set<int> {
    set k | k in t && BarSeen(k, symbol, ts, start, end) :: k.date
  }

  function Stamps(t: BarTable, symbol: string, ts: int, date: int): set<int> {
    set k | k in t && BarSeen(k, symbol, ts, Some(date), Some(date)) :: k.asOf
  }

  /** `row_number() OVER (PARTITION BY date ORDER BY as_of DESC) = 1`. */
  function LatestBar(t: BarTable, symbol: string, ts: int, date: int): (b: DailyBar)
    requires Stamps(t, symbol, ts, date) != {}
    ensures b.date == date
    ensures exists k :: k in t && BarSeen(k, symbol, ts, Some(date), Some(date))
              && b == t[k].(date := date)
              && forall j :: j in t && BarSeen(j, symbol, ts, Some(date), Some(date)) ==> j.asOf <= k.asOf
  {
    var stamp := MaxOf(Stamps(t, symbol, ts, date));
    var key := BarKey(symbol, date, stamp);
    assert key in t && forall j :: j in t && BarSeen(j, symbol, ts, Some(date), Some(date)) ==>
                         j.asOf in Stamps(t, symbol, ts, date);
    t[key].(date := date)
  }

  /** `read_daily_bars`: the latest visible row of each date, oldest date first. */
  function ReadBars(t: BarTable, symbol: string, ts: int, start: Option<int>, end: Option<int>): (r: seq<DailyBar>)
    ensures forall i, j :: 0 <= i < j < |r| ==> r[i].date < r[j].date
  {
    var dates := Sorted(SeenDates(t, symbol, ts, start, end));
    assert forall i :: 0 <= i < |dates| ==> dates[i] in SeenDates(t, symbol, ts, start, end);
    StampsNonEmpty(t, symbol, ts, start, end);
    seq(|dates|, i requires 0 <= i < |dates| => LatestBar(t, symbol, ts, dates[i]))
  }

  lemma StampsNonEmpty(t: BarTable, symbol: string, ts: int, start: Option<int>, end: Option<int>)
    ensures forall d :: d in SeenDates(t, symbol, ts, start, end) ==> Stamps(t, symbol, ts, d) != {}
  {
    forall d | d in SeenDates(t, symbol, ts, start, end) ensures Stamps(t, symbol, ts, d) != {} {
      var k :| k in t && BarSeen(k, symbol, ts, start, end) && k.date == d;
      assert k.asOf in Stamps(t, symbol, ts, d);
    }
  }

  /** A read holds one row for every date with something visible in range and for no other
      date, and that row is the newest visible one. */
  lemma ReadIsPointInTime(t: BarTable, symbol: string, ts: int, start: Option<int>, end: Option<int>, date: int)
    ensures var r := ReadBars(t, symbol, ts, start, end);
            && ((exists i :: 0 <= i < |r| && r[i].date == date)
                <==> exists k :: k in t && BarSeen(k, symbol, ts, start, end) && k.date == date)
            && (forall i :: 0 <= i < |r| ==>
                  exists k :: k in t && BarSeen(k, symbol, ts, start, end) && k.date == r[i].date
                    && r[i] == t[k].(date := k.date)
                    && forall j :: j in t && BarSeen(j, symbol, ts, start, end) && j.date == k.date ==>
                         j.asOf <= k.asOf)
  {
    var seen := SeenDates(t, symbol, ts, start, end);
    var dates := Sorted(seen);
    var r := ReadBars(t, symbol, ts, start, end);
    forall i | 0 <= i < |r|
      ensures exists k :: k in t && BarSeen(k, symbol, ts, start, end) && k.date == r[i].date
                && r[i] == t[k].(date := k.date)
                && forall j :: j in t && BarSeen(j, symbol, ts, start, end) && j.date == k.date ==>
                     j.asOf <= k.asOf
    {
      var d := dates[i];
      assert d in seen;
      StampsNonEmpty(t, symbol, ts, start, end);
      assert r[i] == LatestBar(t, symbol, ts, d);
      var k :| k in t && BarSeen(k, symbol, ts, Some(d), Some(d))
            && r[i] == t[k].(date := d)
            && forall j :: j in t && BarSeen(j, symbol, ts, Some(d), Some(d)) ==> j.asOf <= k.asOf;
      forall j | j in t && BarSeen(j, symbol, ts, start, end) && j.date == k.date
        ensures j.asOf <= k.asOf
      {
        assert BarSeen(j, symbol, ts, Some(d), Some(d));
      }
      assert BarSeen(k, symbol, ts, start, end);
    }
    if k :| k in t && BarSeen(k, symbol, ts, start, end) && k.date == date {
      assert date in seen;
      var i :| 0 <= i < |dates| && dates[i] == date;
      assert r[i].date == date;
    }
  }

  /** The read looks at nothing but the rows stamped before the decision. */
  lemma ReadUsesBelow(t: BarTable, symbol: string, ts: int, start: Option<int>, end: Option<int>)
    ensures ReadBars(Below(t, BarAsOf, ts), symbol, ts, start, end) == ReadBars(t, symbol, ts, start, end)
  {
    var dates := Sorted(SeenDates(t, symbol, ts, start, end));
    SeenBelow(t, symbol, ts, start, end);
    StampsNonEmpty(t, symbol, ts, start, end);
    forall i | 0 <= i < |dates|
      ensures ReadBars(Below(t, BarAsOf, ts), symbol, ts, start, end)[i] == ReadBars(t, symbol, ts, start, end)[i]
    {
      assert dates[i] in dates;
      LatestUsesBelow(t, symbol, ts, dates[i]);
    }
  }

  lemma SeenBelow(t: BarTable, symbol: string, ts: int, start: Option<int>, end: Option<int>)
    ensures SeenDates(Below(t, BarAsOf, ts), symbol, ts, start, end) == SeenDates(t, symbol, ts, start, end)
  {
    forall d | d in SeenDates(t, symbol, ts, start, end)
      ensures d in SeenDates(Below(t, BarAsOf, ts), symbol, ts, start, end) {
      var k :| k in t && BarSeen(k, symbol, ts, start, end) && k.date == d;
      assert k in Below(t, BarAsOf, ts);
    }
  }

  lemma LatestUsesBelow(t: BarTable, symbol: string, ts: int, date: int)
    requires Stamps(t, symbol, ts, date) != {}
    ensures Stamps(Below(t, BarAsOf, ts), symbol, ts, date) != {}
    ensures LatestBar(Below(t, BarAsOf, ts), symbol, ts, date) == LatestBar(t, symbol, ts, date)
  {
    var past := Below(t, BarAsOf, ts);
    assert Stamps(past, symbol, ts, date) == Stamps(t, symbol, ts, date) by {
      forall a | a in Stamps(t, symbol, ts, date) ensures a in Stamps(past, symbol, ts, date) {
        var k :| k in t && BarSeen(k, symbol, ts, Some(date), Some(date)) && k.asOf == a;
        assert k in past;
      }
    }
  }

  // ---- broker rows ---------------------------------------------------------------------------

  datatype Partition = Partition(date: int, broker: string, side: Side)

  predicate BrokerSeen(k: BrokerKey, symbol: string, ts: int, start: Option<int>, end: Option<int>) {
    k.symbol == symbol && k.asOf < ts && Between(k.date, start, end)
  }

  function PartitionOf(k: BrokerKey): Partition { Partition(k.date, k.broker, k.side) }

  function BrokerStamps(t: BrokerTable, symbol: string, ts: int, p: Partition): set<int> {
    set k | k in t && BrokerSeen(k, symbol, ts, Some(p.date), Some(p.date)) && PartitionOf(k) == p :: k.asOf
  }

  function SeenPartitions(t: BrokerTable, symbol: string, ts: int, start: Option<int>,
                          end: Option<int>): set<Partition> {
    set k | k in t && BrokerSeen(k, symbol, ts, start, end) :: PartitionOf(k)
  }

  lemma BrokerStampsNonEmpty(t: BrokerTable, symbol: string, ts: int, start: Option<int>, end: Option<int>)
    ensures forall p :: p in SeenPartitions(t, symbol, ts, start, end) ==> BrokerStamps(t, symbol, ts, p) != {}
  {
    forall p | p in SeenPartitions(t, symbol, ts, start, end) ensures BrokerStamps(t, symbol, ts, p) != {} {
      var k :| k in t && BrokerSeen(k, symbol, ts, start, end) && PartitionOf(k) == p;
      assert k.asOf in BrokerStamps(t, symbol, ts, p);
    }
  }

  function LatestBroker(t: BrokerTable, symbol: string, ts: int, p: Partition): (row: BrokerRow)
    requires BrokerStamps(t, symbol, ts, p) != {}
    ensures exists k :: k in t && row == t[k] && IsNewest(t, symbol, ts, Some(p.date), Some(p.date), p, k)
  {
    var stamp := MaxOf(BrokerStamps(t, symbol, ts, p));
    var key := BrokerKey(symbol, p.date, stamp, p.broker, p.side);
    assert forall j :: j in t && BrokerSeen(j, symbol, ts, Some(p.date), Some(p.date)) && PartitionOf(j) == p ==>
      j.asOf in BrokerStamps(t, symbol, ts, p);
    assert IsNewest(t, symbol, ts, Some(p.date), Some(p.date), p, key);
    t[key]
  }

  /** `read_broker_net`: the latest visible row of each (date, broker, side).  SQL leaves the
      order within a date open, so the read is a map. */
  function ReadBroker(t: BrokerTable, symbol: string, ts: int, start: Option<int>,
                      end: Option<int>): map<Partition, BrokerRow> {
    BrokerStampsNonEmpty(t, symbol, ts, start, end);
    map p | p in SeenPartitions(t, symbol, ts, start, end) :: LatestBroker(t, symbol, ts, p)
  }

  /** The key of the partition's newest row visible in a read. */
  ghost predicate IsNewest(t: BrokerTable, symbol: string, ts: int, start: Option<int>, end: Option<int>,
                           p: Partition, k: BrokerKey)
  {
    && k in t && BrokerSeen(k, symbol, ts, start, end) && PartitionOf(k) == p
    && forall j :: j in t && BrokerSeen(j, symbol, ts, start, end) && PartitionOf(j) == p ==> j.asOf <= k.asOf
  }

  /** A partition is in a read iff a visible key in range has it, and its row is the newest visible
      one. */
  lemma ReadBrokerIsPointInTime(t: BrokerTable, symbol: string, ts: int, start: Option<int>, end: Option<int>,
                                p: Partition)
    ensures var r := ReadBroker(t, symbol, ts, start, end);
            && (p in r <==> exists k :: k in t && BrokerSeen(k, symbol, ts, start, end) && PartitionOf(k) == p)
            && (p in r ==> exists k :: k in t && r[p] == t[k] && IsNewest(t, symbol, ts, start, end, p, k))
  {
    var r := ReadBroker(t, symbol, ts, start, end);
    BrokerStampsNonEmpty(t, symbol, ts, start, end);
    if p in r {
      assert r[p] == LatestBroker(t, symbol, ts, p);
      var seen :| seen in t && BrokerSeen(seen, symbol, ts, start, end) && PartitionOf(seen) == p;
      var day := Some(p.date);
      var k :| k in t && r[p] == t[k] && IsNewest(t, symbol, ts, day, day, p, k);
      forall j | j in t && BrokerSeen(j, symbol, ts, start, end) && PartitionOf(j) == p ensures j.asOf <= k.asOf {
        assert BrokerSeen(j, symbol, ts, day, day);
      }
      assert IsNewest(t, symbol, ts, start, end, p, k);
    }
  }

  lemma LatestBrokerUsesBelow(t: BrokerTable, symbol: string, ts: int, p: Partition)
    requires BrokerStamps(t, symbol, ts, p) != {}
    ensures BrokerStamps(Below(t, BrokerAsOf, ts), symbol, ts, p) != {}
    ensures LatestBroker(Below(t, BrokerAsOf, ts), symbol, ts, p) == LatestBroker(t, symbol, ts, p)
  {
    var past := Below(t, BrokerAsOf, ts);
    assert BrokerStamps(past, symbol, ts, p) == BrokerStamps(t, symbol, ts, p) by {
      forall a | a in BrokerStamps(t, symbol, ts, p) ensures a in BrokerStamps(past, symbol, ts, p) {
        var k :| k in t && BrokerSeen(k, symbol, ts, Some(p.date), Some(p.date)) && PartitionOf(k) == p && k.asOf == a;
        assert k in past;
      }
    }
  }

  lemma PartitionsUseBelow(t: BrokerTable, symbol: string, ts: int, start: Option<int>, end: Option<int>)
    ensures SeenPartitions(Below(t, BrokerAsOf, ts), symbol, ts, start, end)
         == SeenPartitions(t, symbol, ts, start, end)
  {
    var past := Below(t, BrokerAsOf, ts);
    var seen := SeenPartitions(t, symbol, ts, start, end);
    forall p | p in seen ensures p in SeenPartitions(past, symbol, ts, start, end) {
      var k :| k in t && BrokerSeen(k, symbol, ts, start, end) && PartitionOf(k) == p;
      assert k in past;
    }
  }

  lemma ReadBrokerUsesBelow(t: BrokerTable, symbol: string, ts: int, start: Option<int>, end: Option<int>)
    ensures ReadBroker(Below(t, BrokerAsOf, ts), symbol, ts, start, end) == ReadBroker(t, symbol, ts, start, end)
  {
    PartitionsUseBelow(t, symbol, ts, start, end);
    BrokerStampsNonEmpty(t, symbol, ts, start, end);
    forall p | p in SeenPartitions(t, symbol, ts, start, end)
      ensures BrokerStamps(Below(t, BrokerAsOf, ts), symbol, ts, p) != {}
      ensures LatestBroker(Below(t, BrokerAsOf, ts), symbol, ts, p) == LatestBroker(t, symbol, ts, p)
    {
      LatestBrokerUsesBelow(t, symbol, ts, p);
    }
  }

  // ---- the firewall over write histories -------------------------------------------------------

  /** Two stores look the same to a decision at `ts`. */
  ghost predicate AgreeBelow(a: Db, b: Db, ts: int) {
    && Below(a.bars, BarAsOf, ts) == Below(b.bars, BarAsOf, ts)
    && Below(a.broker, BrokerAsOf, ts) == Below(b.broker, BrokerAsOf, ts)
  }

  /** One `write_*` call. */
  datatype Write = WriteBars(barRows: seq<(BarKey, DailyBar)>) | WriteBroker(brokerRows: seq<(BrokerKey, BrokerRow)>)

  function Apply(db: Db, w: Write): Db {
    match w
    case WriteBars(rows) => db.(bars := InsertAll(db.bars, rows))
    case WriteBroker(rows) => db.(broker := InsertAll(db.broker, rows))
  }

  function ApplyAll(db: Db, history: seq<Write>): Db {
    if history == [] then db else Apply(ApplyAll(db, history[..|history| - 1]), history[|history| - 1])
  }

  /** The call as it would have been had its rows stamped at or after `ts` not existed. */
  function Past(w: Write, ts: int): Write {
    match w
    case WriteBars(rows) => WriteBars(Visible(rows, BarAsOf, ts))
    case WriteBroker(rows) => WriteBroker(Visible(rows, BrokerAsOf, ts))
  }

  function PastOf(history: seq<Write>, ts: int): (r: seq<Write>)
    ensures |r| == |history|
  {
    seq(|history|, i requires 0 <= i < |history| => Past(history[i], ts))
  }

  function DbBelow(db: Db, ts: int): Db {
    Db(Below(db.bars, BarAsOf, ts), Below(db.broker, BrokerAsOf, ts))
  }

  lemma {:induction false} HistoryBelow(db: Db, history: seq<Write>, ts: int)
    ensures DbBelow(ApplyAll(db, history), ts) == ApplyAll(DbBelow(db, ts), PastOf(history, ts))
  {
    if history != [] {
      var front, last := history[..|history| - 1], history[|history| - 1];
      HistoryBelow(db, front, ts);
      assert PastOf(history, ts)[..|front|] == PastOf(front, ts);
      var before := ApplyAll(db, front);
      match last
      case WriteBars(rows) => BelowOfInsert(before.bars, rows, BarAsOf, ts);
      case WriteBroker(rows) => BelowOfInsert(before.broker, rows, BrokerAsOf, ts);
    }
  }

  /** The firewall: two write histories that agree on every row stamped before `ts`, whatever
      they wrote later or stamped later, answer every read at `ts` alike. */
  lemma FutureCannotInfluenceReads(db: Db, one: seq<Write>, other: seq<Write>, ts: int,
                                   symbol: string, start: Option<int>, end: Option<int>)
    requires PastOf(one, ts) == PastOf(other, ts)
    ensures AgreeBelow(ApplyAll(db, one), ApplyAll(db, other), ts)
    ensures ReadBars(ApplyAll(db, one).bars, symbol, ts, start, end)
         == ReadBars(ApplyAll(db, other).bars, symbol, ts, start, end)
    ensures ReadBroker(ApplyAll(db, one).broker, symbol, ts, start, end)
         == ReadBroker(ApplyAll(db, other).broker, symbol, ts, start, end)
  {
    HistoryBelow(db, one, ts);
    HistoryBelow(db, other, ts);
    AgreeingStoresReadAlike(ApplyAll(db, one), ApplyAll(db, other), ts, symbol, start, end);
  }

  lemma AgreeingStoresReadAlike(a: Db, b: Db, ts: int, symbol: string, start: Option<int>, end: Option<int>)
    requires AgreeBelow(a, b, ts)
    ensures ReadBars(a.bars, symbol, ts, start, end) == ReadBars(b.bars, symbol, ts, start, end)
    ensures ReadBroker(a.broker, symbol, ts, start, end) == ReadBroker(b.broker, symbol, ts, start, end)
  {
    ReadUsesBelow(a.bars, symbol, ts, start, end);
    ReadUsesBelow(b.bars, symbol, ts, start, end);
    ReadBrokerUsesBelow(a.broker, symbol, ts, start, end);
    ReadBrokerUsesBelow(b.broker, symbol, ts, start, end);
  }

  lemma AgreeEarlier(a: Db, b: Db, ts: int, early: int)
    requires AgreeBelow(a, b, ts) && early <= ts
    ensures AgreeBelow(a, b, early)
  {
    BelowOfBelow(a.bars, BarAsOf, ts, early);
    BelowOfBelow(b.bars, BarAsOf, ts, early);
    BelowOfBelow(a.broker, BrokerAsOf, ts, early);
    BelowOfBelow(b.broker, BrokerAsOf, ts, early);
  }

  // ---- the store object ------------------------------------------------------------------------

  /** `_insert`: rows go in one at a time; a crash after `upTo` rows leaves those stored. */
  method InsertRows<K(==), V>(table: map<K, V>, rows: seq<(K, V)>, upTo: nat)
    returns (after: map<K, V>, inserted: nat)
    requires upTo <= |rows|
    ensures after == InsertAll(table, rows[..upTo])
    ensures |after| == |table| + inserted
  {
    after, inserted := table, 0;
    for i := 0 to upTo
      invariant after == InsertAll(table, rows[..i])
      invariant |after| == |table| + inserted
    {
      assert rows[..i + 1][..i] == rows[..i];
      var (k, v) := rows[i];
      if k !in after {
        after := after[k := v];
        inserted := inserted + 1;
      }
    }
  }

  class Store {
    var bars: BarTable
    var broker: BrokerTable

    constructor ()
      ensures Contents() == Db(map[], map[])
    {
      bars, broker := map[], map[];
    }

    function Contents(): Db
      reads this
    {
      Db(bars, broker)
    }

    method WriteDailyBars(rows: seq<(BarKey, DailyBar)>, upTo: nat) returns (inserted: nat)
      requires upTo <= |rows|
      modifies this`bars
      ensures Contents() == Apply(old(Contents()), WriteBars(rows[..upTo]))
      ensures |bars| == |old(bars)| + inserted
    {
      bars, inserted := InsertRows(bars, rows, upTo);
    }

    method WriteBrokerNet(rows: seq<(BrokerKey, BrokerRow)>, upTo: nat) returns (inserted: nat)
      requires upTo <= |rows|
      modifies this`broker
      ensures Contents() == Apply(old(Contents()), WriteBroker(rows[..upTo]))
      ensures |broker| == |old(broker)| + inserted
    {
      broker, inserted := InsertRows(broker, rows, upTo);
    }

    /** `ingested_dates`: every date with a stored bar, whatever its stamp. */
    function IngestedDates(symbol: string): (dates: set<int>)
      reads this
      ensures forall d :: d in dates <==> exists k :: k in bars && k.symbol == symbol && k.date == d
    {
      set k | k in bars && k.symbol == symbol :: k.date
    }
  }
}
