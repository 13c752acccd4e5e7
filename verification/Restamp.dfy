/** Ingest when the feed stamps its rows anew on every call: the stamps of a retry may differ, and
    what decisions read afterwards may not. */
module Restamp {
  import opened Models
  import opened Tables
  import opened Store
  import opened Ingest
  import opened Recovery

  /** The broker rows by what they say, the stamp aside. */
  type Content = BrokerKey -> BrokerRow

  function Unstamped(k: BrokerKey): BrokerKey { k.(asOf := 0) }

  /** Every row is what the market says of its date, broker and side. */
  ghost predicate Conforms(t: BrokerTable, says: Content) {
    forall k :: k in t ==> t[k] == says(Unstamped(k))
  }

  ghost predicate RowsConform(rows: BrokerRows, says: Content) {
    forall i :: 0 <= i < |rows| ==> rows[i].1 == says(Unstamped(rows[i].0))
  }

  /** A table with the stamps rubbed out. */
  ghost function Erased(t: BrokerTable, says: Content): BrokerTable {
    map e | e in (set k | k in t :: Unstamped(k)) :: says(e)
  }

  function UnstampedRows(rows: BrokerRows): (r: BrokerRows)
    ensures |r| == |rows|
    ensures forall i :: 0 <= i < |r| ==> r[i] == (Unstamped(rows[i].0), rows[i].1)
  {
    seq(|rows|, i requires 0 <= i < |rows| => (Unstamped(rows[i].0), rows[i].1))
  }

  lemma EraseRow(t: BrokerTable, row: (BrokerKey, BrokerRow), says: Content)
    requires row.1 == says(Unstamped(row.0))
    ensures Erased(InsertRow(t, row), says) == InsertRow(Erased(t, says), (Unstamped(row.0), row.1))
  {
    var more := InsertRow(t, row);
    assert row.0 in more;
    forall e ensures e in Erased(more, says) <==> e in Erased(t, says) || e == Unstamped(row.0) {
      if e in Erased(more, says) {
        var k :| k in more && Unstamped(k) == e;
        assert k in t || k == row.0;
      }
      if e in Erased(t, says) {
        var k :| k in t && Unstamped(k) == e;
        assert k in more;
      }
    }
  }

  /** Rubbing out the stamps commutes with writing. */
  lemma {:induction false} EraseWrite(t: BrokerTable, rows: BrokerRows, says: Content)
    requires RowsConform(rows, says)
    ensures Erased(InsertAll(t, rows), says) == InsertAll(Erased(t, says), UnstampedRows(rows))
  {
    if rows != [] {
      var front, last := rows[..|rows| - 1], rows[|rows| - 1];
      EraseWrite(t, front, says);
      EraseRow(InsertAll(t, front), last, says);
      assert UnstampedRows(rows)[..|front|] == UnstampedRows(front);
    }
  }

  lemma {:induction false} WriteConforms(t: BrokerTable, rows: BrokerRows, says: Content)
    requires Conforms(t, says) && RowsConform(rows, says)
    ensures Conforms(InsertAll(t, rows), says)
  {
    if rows != [] {
      WriteConforms(t, rows[..|rows| - 1], says);
    }
  }

  // ---- feeds that differ in their stamps -----------------------------------------------------------

  ghost predicate RestampsDay(feed: Feed, base: Feed, says: Content, symbol: string, day: int) {
    && UnstampedRows(feed.broker(symbol, day)) == base.broker(symbol, day)
    && RowsConform(feed.broker(symbol, day), says)
    && feed.bar(symbol, day) == base.bar(symbol, day)
  }

  /** `feed` answers as `base` does, but for the stamps of its broker rows. */
  ghost predicate Restamps(feed: Feed, base: Feed, says: Content) {
    forall symbol, day :: RestampsDay(feed, base, says, symbol, day)
  }

  lemma {:induction false} BrokerAnswersRestamp(feed: Feed, base: Feed, says: Content, symbol: string, days: seq<int>)
    requires Restamps(feed, base, says)
    ensures UnstampedRows(BrokerAnswers(feed, symbol, days)) == BrokerAnswers(base, symbol, days)
    ensures RowsConform(BrokerAnswers(feed, symbol, days), says)
  {
    if days != [] {
      BrokerAnswersRestamp(feed, base, says, symbol, days[..|days| - 1]);
      assert RestampsDay(feed, base, says, symbol, days[|days| - 1]);
    }
  }

  lemma {:induction false} BarAnswersRestamp(feed: Feed, base: Feed, says: Content, symbol: string, lo: int, hi: int)
    requires Restamps(feed, base, says)
    ensures BarAnswers(feed, symbol, lo, hi) == BarAnswers(base, symbol, lo, hi)
    decreases hi - lo
  {
    if lo <= hi {
      BarAnswersRestamp(feed, base, says, symbol, lo, hi - 1);
      assert RestampsDay(feed, base, says, symbol, hi);
    }
  }

  ghost function ErasedDb(db: Db, says: Content): Db { Db(db.bars, Erased(db.broker, says)) }

  lemma EraseBrokerStage(db: Db, feed: Feed, base: Feed, says: Content, symbol: string, days: seq<int>, crash: Crash)
    requires Restamps(feed, base, says) && Conforms(db.broker, says)
    ensures var after := BrokerStage(db, feed, symbol, days, crash);
            Conforms(after.broker, says)
            && ErasedDb(after, says) == BrokerStage(ErasedDb(db, says), base, symbol, days, crash)
  {
    hide BrokerAnswers, InsertAll, Conforms, Restamps;
    var rows := BrokerAnswers(feed, symbol, days);
    BrokerAnswersRestamp(feed, base, says, symbol, days);
    var written := if crash.AtBrokerWrite? then Cut(rows, crash.rows) else rows;
    assert RowsConform(written, says);
    EraseWrite(db.broker, written, says);
    WriteConforms(db.broker, written, says);
    if crash.AtBrokerWrite? {
      assert UnstampedRows(written) == Cut(UnstampedRows(rows), crash.rows);
    }
  }

  /** A run under any stamps is, stamps rubbed out, the run of the unstamped feed. */
  lemma EraseRun(db: Db, feed: Feed, base: Feed, says: Content, symbol: string, start: int, end: int, crash: Crash)
    requires Restamps(feed, base, says) && Conforms(db.broker, says)
    ensures var after := Run(db, feed, symbol, start, end, crash);
            Conforms(after.broker, says)
            && ErasedDb(after, says) == Run(ErasedDb(db, says), base, symbol, start, end, crash)
  {
    var days := Missing(db.bars, symbol, start, end);
    if days != [] {
      EraseBrokerStage(db, feed, base, says, symbol, days, crash);
      BarAnswersRestamp(feed, base, says, symbol, days[0], days[|days| - 1]);
    }
  }

  /** Attempts, each with the stamps of its own day. */
  datatype Stamping = Stamping(feed: Feed, attempt: Attempt)

  function RunStamped(db: Db, runs: seq<Stamping>): Db {
    if runs == [] then db
    else
      var last := runs[|runs| - 1];
      Run(RunStamped(db, runs[..|runs| - 1]), last.feed, last.attempt.symbol, last.attempt.start, last.attempt.end,
          last.attempt.crash)
  }

  function Attempts(runs: seq<Stamping>): (r: seq<Attempt>)
    ensures |r| == |runs| && forall i :: 0 <= i < |r| ==> r[i] == runs[i].attempt
  {
    seq(|runs|, i requires 0 <= i < |runs| => runs[i].attempt)
  }

  lemma {:induction false} EraseRuns(db: Db, runs: seq<Stamping>, base: Feed, says: Content)
    requires Conforms(db.broker, says) && forall i :: 0 <= i < |runs| ==> Restamps(runs[i].feed, base, says)
    ensures var after := RunStamped(db, runs);
            Conforms(after.broker, says) && ErasedDb(after, says) == RunAll(ErasedDb(db, says), base, Attempts(runs))
  {
    if runs != [] {
      var front, last := runs[..|runs| - 1], runs[|runs| - 1];
      EraseRuns(db, front, base, says);
      assert Attempts(runs)[..|front|] == Attempts(front);
      EraseRun(RunStamped(db, front), last.feed, base, says, last.attempt.symbol, last.attempt.start, last.attempt.end,
               last.attempt.crash);
    }
  }

  // ---- what is read afterwards ------------------------------------------------------------------------

  /** Everything stored is visible at the moment. */
  ghost predicate AllBefore(t: BrokerTable, ts: int) {
    forall k :: k in t ==> k.asOf < ts
  }

  function PlainKey(symbol: string, p: Partition): BrokerKey { BrokerKey(symbol, p.date, 0, p.broker, p.side) }

  lemma ReadOfErased(t: BrokerTable, says: Content, symbol: string, ts: int, start: Option<int>, end: Option<int>,
                     p: Partition)
    requires Conforms(t, says) && AllBefore(t, ts)
    ensures var r := ReadBroker(t, symbol, ts, start, end);
            && (p in r <==> PlainKey(symbol, p) in Erased(t, says) && Between(p.date, start, end))
            && (p in r ==> r[p] == says(PlainKey(symbol, p)))
  {
    ReadBrokerIsPointInTime(t, symbol, ts, start, end, p);
    if PlainKey(symbol, p) in Erased(t, says) && Between(p.date, start, end) {
      var k :| k in t && Unstamped(k) == PlainKey(symbol, p);
      assert BrokerSeen(k, symbol, ts, start, end) && PartitionOf(k) == p;
    }
  }

  ghost predicate SameAt(x: map<Partition, BrokerRow>, y: map<Partition, BrokerRow>, p: Partition) {
    (p in x <==> p in y) && (p in x ==> x[p] == y[p])
  }

  /** Tables that say the same read the same once everything in them is visible. */
  lemma SameContentReadsAlike(a: BrokerTable, b: BrokerTable, says: Content, symbol: string, ts: int,
                              start: Option<int>, end: Option<int>)
    requires Conforms(a, says) && Conforms(b, says) && AllBefore(a, ts) && AllBefore(b, ts)
    requires Erased(a, says) == Erased(b, says)
    ensures ReadBroker(a, symbol, ts, start, end) == ReadBroker(b, symbol, ts, start, end)
  {
    var x, y := ReadBroker(a, symbol, ts, start, end), ReadBroker(b, symbol, ts, start, end);
    forall p: Partition ensures SameAt(x, y, p) {
      ReadOfErased(a, says, symbol, ts, start, end, p);
      ReadOfErased(b, says, symbol, ts, start, end, p);
    }
    SameMaps(x, y);
  }

  lemma SameMaps(x: map<Partition, BrokerRow>, y: map<Partition, BrokerRow>)
    requires forall p: Partition :: SameAt(x, y, p)
    ensures x == y
  {
    assert forall p :: p in x ==> SameAt(x, y, p);
    assert forall p :: p in y ==> SameAt(x, y, p);
  }

  /** Recovery under moving stamps: attempts that fail anywhere, each stamped in its own way, then a
      clean run, leave the bars of one clean run, and every read made once all of it is visible
      answers as after that one run, however that one is stamped. */
  lemma RetryReadsAlike(first: Db, runs: seq<Stamping>, last: Feed, once: Feed, base: Feed, says: Content,
                        symbol: string, start: int, end: int, ts: int, who: string, from: Option<int>,
                         upTo: Option<int>)
    requires WellFormed(base) && Conforms(first.broker, says)
    requires Committed(ErasedDb(first, says), base) && Faithful(first.bars, base, symbol)
    requires Restamps(last, base, says) && Restamps(once, base, says)
    requires forall i :: 0 <= i < |runs| ==>
               && Restamps(runs[i].feed, base, says)
               && runs[i].attempt.symbol == symbol && start <= runs[i].attempt.start && runs[i].attempt.end <= end
    requires AllBefore(Run(RunStamped(first, runs), last, symbol, start, end, Never).broker, ts)
    requires AllBefore(Run(first, once, symbol, start, end, Never).broker, ts)
    ensures Run(RunStamped(first, runs), last, symbol, start, end, Never).bars ==
            Run(first, once, symbol, start, end, Never).bars
    ensures ReadBroker(Run(RunStamped(first, runs), last, symbol, start, end, Never).broker, who, ts, from, upTo)
            == ReadBroker(Run(first, once, symbol, start, end, Never).broker, who, ts, from, upTo)
  {
    EraseRuns(first, runs, base, says);
    EraseRun(RunStamped(first, runs), last, base, says, symbol, start, end, Never);
    EraseRun(first, once, base, says, symbol, start, end, Never);
    forall a | a in Attempts(runs) ensures a.symbol == symbol && start <= a.start && a.end <= end {
      var i :| 0 <= i < |runs| && Attempts(runs)[i] == a;
    }
    RetryEqualsCleanRun(ErasedDb(first, says), base, symbol, start, end, Attempts(runs));
    SameContentReadsAlike(Run(RunStamped(first, runs), last, symbol, start, end, Never).broker,
                          Run(first, once, symbol, start, end, Never).broker, says, who, ts, from, upTo);
  }

  /** A row fetched again under a new stamp is stored beside the old one. */
  lemma NewStampIsNewRow(t: BrokerTable, k: BrokerKey, row: BrokerRow, stamp: int)
    requires k in t && k.(asOf := stamp) !in t
    ensures InsertAll(t, [(k.(asOf := stamp), row)]).Keys == t.Keys + {k.(asOf := stamp)}
  {
    InsertOne(t, k.(asOf := stamp), row);
  }

  // ---- the rewrite of a retry --------------------------------------------------------------------------

  ghost predicate AllStored(t: BrokerTable, rows: BrokerRows) {
    forall i :: 0 <= i < |rows| ==> rows[i].0 in t
  }

  /** A run that dies at the bars call leaves every missing day's broker rows and no bar, so a retry asks
      for the same days again; its rewrite is a no-op exactly when every key it brings, stamp included,
      is stored. */
  lemma RetryRewrites(db: Db, one: Feed, two: Feed, symbol: string, start: int, end: int)
    ensures var days := Missing(db.bars, symbol, start, end);
            var dead := Run(db, one, symbol, start, end, AtBarsCall);
            var retried := Run(dead, two, symbol, start, end, Never);
            && dead == Db(db.bars, InsertAll(db.broker, BrokerAnswers(one, symbol, days)))
            && retried.broker == InsertAll(dead.broker, BrokerAnswers(two, symbol, days))
            && (retried.broker == dead.broker <==> AllStored(dead.broker, BrokerAnswers(two, symbol, days)))
  {
    hide Missing, BarAnswers;
    var days := Missing(db.bars, symbol, start, end);
    ReinsertIsNoOp(InsertAll(db.broker, BrokerAnswers(one, symbol, days)), BrokerAnswers(two, symbol, days));
  }

  function StampedKey(symbol: string, day: int, stamp: int): BrokerKey { BrokerKey(symbol, day, stamp, "AK", BUY) }

  /** One broker row a day, under the given stamp. */
  function OneRowFeed(row: BrokerRow, stamp: int): Feed {
    Feed((symbol, day) => [(StampedKey(symbol, day, stamp), row)], (symbol, day) => None)
  }

  lemma OneRowAnswer(row: BrokerRow, stamp: int, symbol: string, day: int)
    ensures BrokerAnswers(OneRowFeed(row, stamp), symbol, [day]) == [(StampedKey(symbol, day, stamp), row)]
  {
    assert [day][..0] == [];
    assert BrokerAnswers(OneRowFeed(row, stamp), symbol, []) == [];
  }

  lemma OneDayMissing(symbol: string, day: int)
    requires IsWeekday(day)
    ensures Missing(map[], symbol, day, day) == [day]
  {
    MissingAscending(map[], symbol, day, day);
    var days := Missing(map[], symbol, day, day);
    assert day in days;
    assert forall i :: 0 <= i < |days| ==> days[i] in days;
  }

  /** Such a run and its retry on an empty store: one row, and a second exactly when the stamp moved. */
  lemma MovedStampIsStoredTwice(row: BrokerRow, one: int, two: int, symbol: string, day: int)
    requires IsWeekday(day)
    ensures var dead := Run(Db(map[], map[]), OneRowFeed(row, one), symbol, day, day, AtBarsCall);
            var retried := Run(dead, OneRowFeed(row, two), symbol, day, day, Never);
            && dead.broker.Keys == {StampedKey(symbol, day, one)}
            && retried.broker.Keys == {StampedKey(symbol, day, one), StampedKey(symbol, day, two)}
            && (retried.broker == dead.broker <==> one == two)
  {
    hide Run, Missing, BrokerAnswers, OneRowFeed;
    OneDayMissing(symbol, day);
    OneRowAnswer(row, one, symbol, day);
    OneRowAnswer(row, two, symbol, day);
    RetryRewrites(Db(map[], map[]), OneRowFeed(row, one), OneRowFeed(row, two), symbol, day, day);
    InsertOne(map[], StampedKey(symbol, day, one), row);
    InsertOne(map[StampedKey(symbol, day, one) := row], StampedKey(symbol, day, two), row);
  }

  lemma InsertOne(t: BrokerTable, k: BrokerKey, row: BrokerRow)
    ensures InsertAll(t, [(k, row)]) == if k in t then t else t[k := row]
  {
    assert [(k, row)][..0] == [];
  }
}
