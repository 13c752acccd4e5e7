/** What the order of writes in `ingest_symbol` buys: no failure leaves a committed day without
    its broker rows, and retrying after any failures ends where one clean run would have. */
module Recovery {
  import opened Models
  import opened Ordering
  import opened Tables
  import opened Store
  import opened Ingest

  /** The broker rows of one day, first row of a key kept. */
  function DayTable(feed: Feed, symbol: string, day: int): BrokerTable {
    InsertAll(map[], feed.broker(symbol, day))
  }

  function DaysTable(feed: Feed, symbol: string, days: seq<int>): BrokerTable {
    InsertAll(map[], BrokerAnswers(feed, symbol, days))
  }

  lemma DayTableKeys(feed: Feed, symbol: string, day: int)
    requires WellFormed(feed)
    ensures forall k :: k in DayTable(feed, symbol, day) ==> k.symbol == symbol && k.date == day
  {
    InsertAllKeys<BrokerKey, BrokerRow>(map[], feed.broker(symbol, day));
  }

  /** The rows gathered over several days are, day by day, the rows of that day. */
  lemma {:induction false} DaysTableByDay(feed: Feed, symbol: string, days: seq<int>)
    requires WellFormed(feed)
    ensures forall k :: k in DaysTable(feed, symbol, days)
              <==> k.date in days && k in DayTable(feed, symbol, k.date)
    ensures forall k :: k in DaysTable(feed, symbol, days) ==>
              DaysTable(feed, symbol, days)[k] == DayTable(feed, symbol, k.date)[k]
  {
    if days == [] {
      assert BrokerAnswers(feed, symbol, days) == [];
    } else {
      var front, last := days[..|days| - 1], days[|days| - 1];
      DaysTableByDay(feed, symbol, front);
      InsertAllAppend<BrokerKey, BrokerRow>(map[], BrokerAnswers(feed, symbol, front), feed.broker(symbol, last));
      InsertAllOverlays(DaysTable(feed, symbol, front), feed.broker(symbol, last));
      assert DaysTable(feed, symbol, days) == DayTable(feed, symbol, last) + DaysTable(feed, symbol, front);
      DayTableKeys(feed, symbol, last);
    }
  }

  ghost predicate Answers(feed: Feed, symbol: string, lo: int, hi: int, row: (BarKey, DailyBar)) {
    exists d :: lo <= d <= hi && feed.bar(symbol, d) == Some(row)
  }

  /** The ranged bar call answers with the bars of the range and nothing else. */
  lemma {:induction false} BarAnswersAre(feed: Feed, symbol: string, lo: int, hi: int)
    ensures forall row :: row in BarAnswers(feed, symbol, lo, hi) <==> Answers(feed, symbol, lo, hi, row)
    decreases hi - lo
  {
    if lo <= hi {
      BarAnswersAre(feed, symbol, lo, hi - 1);
      var rest, all := BarAnswers(feed, symbol, lo, hi - 1), BarAnswers(feed, symbol, lo, hi);
      forall row ensures row in all <==> Answers(feed, symbol, lo, hi, row) {
        assert row in all <==> feed.bar(symbol, hi) == Some(row) || row in rest;
        if Answers(feed, symbol, lo, hi - 1, row) {
          var d :| lo <= d <= hi - 1 && feed.bar(symbol, d) == Some(row);
          assert lo <= d <= hi;
        }
        if Answers(feed, symbol, lo, hi, row) {
          var d :| lo <= d <= hi && feed.bar(symbol, d) == Some(row);
          assert d == hi || Answers(feed, symbol, lo, hi - 1, row);
        }
      }
    }
  }

  // ---- no committed day lacks its broker rows ------------------------------------------------

  /** A stored weekday bar implies all of that day's broker rows are stored. */
  ghost predicate Committed(db: Db, feed: Feed) {
    forall k, r :: k in db.bars && IsWeekday(k.date) && r in DayTable(feed, k.symbol, k.date) ==> r in db.broker
  }

  lemma BrokerStageKeeps(db: Db, feed: Feed, symbol: string, days: seq<int>, crash: Crash)
    ensures var mid := BrokerStage(db, feed, symbol, days, crash);
            && mid.bars == db.bars
            && Within(db.broker, mid.broker)
            && Within(mid.broker, DaysTable(feed, symbol, days) + db.broker)
            && (ReachesBars(days, crash) ==> mid.broker == DaysTable(feed, symbol, days) + db.broker)
  {
    var rows := BrokerAnswers(feed, symbol, days);
    InsertAllOverlays(db.broker, rows);
    if crash.AtBrokerWrite? {
      var m: nat :| m <= |rows| && Cut(rows, crash.rows) == rows[..m];
      InsertPrefixWithin(db.broker, rows, m);
      InsertAllKeys(db.broker, rows[..m]);
    }
  }

  /** The bars a run adds are the feed's, for days it found missing or already stored. */
  lemma BarStageAdds(db: Db, feed: Feed, symbol: string, start: int, end: int, crash: Crash)
    requires WellFormed(feed)
    ensures var after := Run(db, feed, symbol, start, end, crash).bars;
            && Within(db.bars, after)
            && forall k :: k in after && k !in db.bars ==>
                 && k.symbol == symbol && start <= k.date <= end && IsWeekday(k.date)
                 && feed.bar(symbol, k.date) == Some((k, after[k]))
                 && ReachesBars(Missing(db.bars, symbol, start, end), crash)
  {
    var days := Missing(db.bars, symbol, start, end);
    var after := Run(db, feed, symbol, start, end, crash).bars;
    if days != [] {
      BrokerStageKeeps(db, feed, symbol, days, crash);
      var lo, hi := days[0], days[|days| - 1];
      assert lo in days && hi in days;
      var rows := BarAnswers(feed, symbol, lo, hi);
      BarAnswersAre(feed, symbol, lo, hi);
      if ReachesBars(days, crash) {
        var written := if crash.AtBarsWrite? then Cut(rows, crash.rows) else rows;
        InsertAllKeys(db.bars, written);
        forall k | k in after && k !in db.bars
          ensures k.symbol == symbol && start <= k.date <= end && IsWeekday(k.date)
          ensures feed.bar(symbol, k.date) == Some((k, after[k]))
        {
          var i :| 0 <= i < |written| && written[i] == (k, after[k]);
          assert rows[i] in rows && written[i] == rows[i];
          var d :| lo <= d <= hi && feed.bar(symbol, d) == Some(rows[i]);
        }
      }
    }
  }

  /** Every run, whichever way it ends, keeps the commit marker honest. */
  lemma RunKeepsCommitted(db: Db, feed: Feed, symbol: string, start: int, end: int, crash: Crash)
    requires WellFormed(feed) && Committed(db, feed)
    ensures Committed(Run(db, feed, symbol, start, end, crash), feed)
  {
    var days := Missing(db.bars, symbol, start, end);
    if days != [] {
      var after := Run(db, feed, symbol, start, end, crash);
      BrokerStageKeeps(db, feed, symbol, days, crash);
      BarStageAdds(db, feed, symbol, start, end, crash);
      DaysTableByDay(feed, symbol, days);
      forall k, r | k in after.bars && IsWeekday(k.date) && r in DayTable(feed, k.symbol, k.date)
        ensures r in after.broker
      {
        if k !in db.bars {
          DayTableKeys(feed, symbol, k.date);
          if Stored(db.bars, symbol, k.date) {
            var stored :| stored in db.bars && stored.symbol == symbol && stored.date == k.date;
            assert r in db.broker;
          } else {
            assert r in DaysTable(feed, symbol, days);
          }
        }
      }
    }
  }

  datatype Attempt = Attempt(symbol: string, start: int, end: int, crash: Crash)

  function RunAll(db: Db, feed: Feed, attempts: seq<Attempt>): Db {
    if attempts == [] then db
    else
      var last := attempts[|attempts| - 1];
      Run(RunAll(db, feed, attempts[..|attempts| - 1]), feed, last.symbol, last.start, last.end, last.crash)
  }

  /** Every store reachable by runs over any symbols and ranges, failing anywhere. */
  lemma {:induction false} ReachableIsCommitted(db: Db, feed: Feed, attempts: seq<Attempt>)
    requires WellFormed(feed) && Committed(db, feed)
    ensures Committed(RunAll(db, feed, attempts), feed)
  {
    if attempts != [] {
      var last := attempts[|attempts| - 1];
      var before := RunAll(db, feed, attempts[..|attempts| - 1]);
      ReachableIsCommitted(db, feed, attempts[..|attempts| - 1]);
      RunKeepsCommitted(before, feed, last.symbol, last.start, last.end, last.crash);
    }
  }

  // ---- retry equals one clean run --------------------------------------------------------------

  /** The stored bars of the symbol are the feed's. */
  ghost predicate Faithful(t: BarTable, feed: Feed, symbol: string) {
    forall k :: k in t && k.symbol == symbol ==> feed.bar(symbol, k.date) == Some((k, t[k]))
  }

  /** `db` lies on the way from `first` to the store of a clean run over `[start, end]`. */
  ghost predicate OnTheWay(first: Db, db: Db, feed: Feed, symbol: string, start: int, end: int) {
    var days := Missing(first.bars, symbol, start, end);
    && Within(first.broker, db.broker)
    && Within(db.broker, DaysTable(feed, symbol, days) + first.broker)
    && Within(first.bars, db.bars)
    && (forall k :: k in db.bars && k !in first.bars ==>
          k.symbol == symbol && k.date in days && feed.bar(symbol, k.date) == Some((k, db.bars[k])))
    && Committed(db, feed)
  }

  lemma OnTheWayIsFaithful(first: Db, db: Db, feed: Feed, symbol: string, start: int, end: int)
    requires Faithful(first.bars, feed, symbol)
    requires OnTheWay(first, db, feed, symbol, start, end)
    ensures Faithful(db.bars, feed, symbol)
  {
  }

  /** The days still missing were missing at first. */
  lemma MissingShrinks(first: BarTable, later: BarTable, symbol: string, start: int, end: int, s: int, e: int)
    requires Within(first, later) && start <= s && e <= end
    ensures forall d :: d in Missing(later, symbol, s, e) ==> d in Missing(first, symbol, start, end)
  {
    forall d | Stored(first, symbol, d) ensures Stored(later, symbol, d) {
      var k :| k in first && k.symbol == symbol && k.date == d;
      assert k in later;
    }
  }

  lemma BrokerStageStaysOnTheWay(first: Db, db: Db, feed: Feed, symbol: string, start: int, end: int, days: seq<int>,
                                 crash: Crash)
    requires WellFormed(feed) && OnTheWay(first, db, feed, symbol, start, end)
    requires forall d :: d in days ==> d in Missing(first.bars, symbol, start, end)
    ensures var mid := BrokerStage(db, feed, symbol, days, crash);
            && Within(first.broker, mid.broker)
            && Within(mid.broker, DaysTable(feed, symbol, Missing(first.bars, symbol, start, end)) + first.broker)
  {
    var all := Missing(first.bars, symbol, start, end);
    var mid := BrokerStage(db, feed, symbol, days, crash);
    BrokerStageKeeps(db, feed, symbol, days, crash);
    DaysTableByDay(feed, symbol, days);
    DaysTableByDay(feed, symbol, all);
    forall k | k in mid.broker
      ensures k in DaysTable(feed, symbol, all) + first.broker
      ensures mid.broker[k] == (DaysTable(feed, symbol, all) + first.broker)[k]
    {
      if k !in db.broker {
        assert k in DaysTable(feed, symbol, days);
      }
    }
  }

  lemma StaysOnTheWay(first: Db, db: Db, feed: Feed, symbol: string, start: int, end: int, s: int, e: int, crash: Crash)
    requires WellFormed(feed) && Faithful(first.bars, feed, symbol)
    requires OnTheWay(first, db, feed, symbol, start, end)
    requires start <= s && e <= end
    ensures OnTheWay(first, Run(db, feed, symbol, s, e, crash), feed, symbol, start, end)
  {
    var days := Missing(db.bars, symbol, s, e);
    if days != [] {
      var after := Run(db, feed, symbol, s, e, crash);
      MissingShrinks(first.bars, db.bars, symbol, start, end, s, e);
      BrokerStageStaysOnTheWay(first, db, feed, symbol, start, end, days, crash);
      RunKeepsCommitted(db, feed, symbol, s, e, crash);
      BarStageAdds(db, feed, symbol, s, e, crash);
      OnTheWayIsFaithful(first, db, feed, symbol, start, end);
      assert after.broker == BrokerStage(db, feed, symbol, days, crash).broker;
      forall k | k in after.bars && k !in first.bars
        ensures k.symbol == symbol && k.date in Missing(first.bars, symbol, start, end)
        ensures feed.bar(symbol, k.date) == Some((k, after.bars[k]))
      {
        if k !in db.bars {
          NewBarsWereMissing(db, feed, symbol, s, e, k);
        }
      }
    }
  }

  /** A bar of the feed not yet in a faithful store belongs to a missing day. */
  lemma NewBarsWereMissing(db: Db, feed: Feed, symbol: string, s: int, e: int, k: BarKey)
    requires Faithful(db.bars, feed, symbol)
    requires k !in db.bars && s <= k.date <= e && IsWeekday(k.date)
    requires feed.bar(symbol, k.date).Some? && feed.bar(symbol, k.date).value.0 == k
    ensures k.date in Missing(db.bars, symbol, s, e)
  {
    assert forall j :: j in db.bars && j.symbol == symbol && j.date == k.date ==>
      feed.bar(symbol, k.date) == Some((j, db.bars[j]));
  }

  /** From anywhere on the way, one clean run arrives. */
  lemma CleanRunArrives(first: Db, db: Db, feed: Feed, symbol: string, start: int, end: int)
    requires WellFormed(feed) && Faithful(first.bars, feed, symbol)
    requires OnTheWay(first, db, feed, symbol, start, end)
    ensures var after := Run(db, feed, symbol, start, end, Never);
            var days := Missing(first.bars, symbol, start, end);
            && after.broker == DaysTable(feed, symbol, days) + first.broker
            && (forall k :: k in after.bars <==>
                  k in first.bars
                  || (k.date in days && feed.bar(symbol, k.date).Some? && feed.bar(symbol, k.date).value.0 == k))
  {
    StaysOnTheWay(first, db, feed, symbol, start, end, start, end, Never);
    CleanRunBroker(first, db, feed, symbol, start, end);
    var after := Run(db, feed, symbol, start, end, Never);
    var all := Missing(first.bars, symbol, start, end);
    forall k: BarKey | k.date in all && feed.bar(symbol, k.date).Some? && feed.bar(symbol, k.date).value.0 == k
      ensures k in after.bars
    {
      CleanRunStores(db, feed, symbol, start, end, k);
    }
  }

  lemma CleanRunStores(db: Db, feed: Feed, symbol: string, start: int, end: int, k: BarKey)
    requires WellFormed(feed)
    requires Faithful(db.bars, feed, symbol)
    requires start <= k.date <= end && IsWeekday(k.date)
    requires feed.bar(symbol, k.date).Some? && feed.bar(symbol, k.date).value.0 == k
    ensures k in Run(db, feed, symbol, start, end, Never).bars
  {
    if k in db.bars {
      StoredStays(db, feed, symbol, start, end, k);
    } else {
      NewBarsWereMissing(db, feed, symbol, start, end, k);
      MissingIsStored(db, feed, symbol, start, end, k);
    }
  }

  lemma StoredStays(db: Db, feed: Feed, symbol: string, start: int, end: int, k: BarKey)
    requires WellFormed(feed) && k in db.bars
    ensures k in Run(db, feed, symbol, start, end, Never).bars
  {
    BarStageAdds(db, feed, symbol, start, end, Never);
  }

  lemma MissingIsStored(db: Db, feed: Feed, symbol: string, start: int, end: int, k: BarKey)
    requires k.date in Missing(db.bars, symbol, start, end)
    requires feed.bar(symbol, k.date).Some? && feed.bar(symbol, k.date).value.0 == k
    ensures k in Run(db, feed, symbol, start, end, Never).bars
  {
    MissingAscending(db.bars, symbol, start, end);
    RunNeverBars(db, feed, symbol, start, end);
    FetchedBarsStored(db, feed, symbol, Missing(db.bars, symbol, start, end), k);
  }

  lemma RunNeverBars(db: Db, feed: Feed, symbol: string, start: int, end: int)
    requires Missing(db.bars, symbol, start, end) != []
    ensures var days := Missing(db.bars, symbol, start, end);
            Run(db, feed, symbol, start, end, Never).bars
            == InsertAll(db.bars, BarAnswers(feed, symbol, days[0], days[|days| - 1]))
  {
    BrokerStageKeeps(db, feed, symbol, Missing(db.bars, symbol, start, end), Never);
  }

  lemma FetchedBarsStored(db: Db, feed: Feed, symbol: string, days: seq<int>, k: BarKey)
    requires Ascending(days) && k.date in days
    requires feed.bar(symbol, k.date).Some? && feed.bar(symbol, k.date).value.0 == k
    ensures k in InsertAll(db.bars, BarAnswers(feed, symbol, days[0], days[|days| - 1]))
  {
    var lo, hi := days[0], days[|days| - 1];
    var rows := BarAnswers(feed, symbol, lo, hi);
    BarAnswersAre(feed, symbol, lo, hi);
    InsertAllKeys(db.bars, rows);
    assert lo <= k.date <= hi;
    assert Answers(feed, symbol, lo, hi, feed.bar(symbol, k.date).value);
    var i :| 0 <= i < |rows| && rows[i] == feed.bar(symbol, k.date).value;
    assert rows[i].0 == k;
  }

  /** The broker table of a clean run is the old one overlaid on the missing days' rows. */
  lemma RunNeverBroker(db: Db, feed: Feed, symbol: string, start: int, end: int)
    ensures Run(db, feed, symbol, start, end, Never).broker
         == DaysTable(feed, symbol, Missing(db.bars, symbol, start, end)) + db.broker
  {
    var days := Missing(db.bars, symbol, start, end);
    if days == [] {
      assert BrokerAnswers(feed, symbol, days) == [];
    } else {
      BrokerStageKeeps(db, feed, symbol, days, Never);
    }
  }

  lemma CleanRunBroker(first: Db, db: Db, feed: Feed, symbol: string, start: int, end: int)
    requires WellFormed(feed) && Faithful(first.bars, feed, symbol)
    requires OnTheWay(first, db, feed, symbol, start, end)
    ensures Run(db, feed, symbol, start, end, Never).broker
         == DaysTable(feed, symbol, Missing(first.bars, symbol, start, end)) + first.broker
  {
    var after := Run(db, feed, symbol, start, end, Never);
    StaysOnTheWay(first, db, feed, symbol, start, end, start, end, Never);
    RunNeverBroker(db, feed, symbol, start, end);
    var all := Missing(first.bars, symbol, start, end);
    forall r | r in DaysTable(feed, symbol, all) ensures r in after.broker {
      MissingRowsArrive(first, db, feed, symbol, start, end, r);
    }
  }

  lemma MissingRowsArrive(first: Db, db: Db, feed: Feed, symbol: string, start: int, end: int, r: BrokerKey)
    requires WellFormed(feed) && OnTheWay(first, db, feed, symbol, start, end)
    requires r in DaysTable(feed, symbol, Missing(first.bars, symbol, start, end))
    ensures r in DaysTable(feed, symbol, Missing(db.bars, symbol, start, end)) + db.broker
  {
    var all, days := Missing(first.bars, symbol, start, end), Missing(db.bars, symbol, start, end);
    DaysTableByDay(feed, symbol, all);
    if r.date in days {
      DaysTableByDay(feed, symbol, days);
    } else {
      assert Stored(db.bars, symbol, r.date);
      var k :| k in db.bars && k.symbol == symbol && k.date == r.date;
      assert r in DayTable(feed, symbol, k.date);
    }
  }

  lemma {:induction false} AttemptsStayOnTheWay(first: Db, feed: Feed, symbol: string, start: int, end: int,
                                                attempts: seq<Attempt>)
    requires WellFormed(feed) && Committed(first, feed) && Faithful(first.bars, feed, symbol)
    requires forall a :: a in attempts ==> a.symbol == symbol && start <= a.start && a.end <= end
    ensures OnTheWay(first, RunAll(first, feed, attempts), feed, symbol, start, end)
  {
    if attempts != [] {
      var front, last := attempts[..|attempts| - 1], attempts[|attempts| - 1];
      forall a | a in front ensures a.symbol == symbol && start <= a.start && a.end <= end {
        assert a in attempts;
      }
      AttemptsStayOnTheWay(first, feed, symbol, start, end, front);
      StaysOnTheWay(first, RunAll(first, feed, front), feed, symbol, start, end, last.start, last.end, last.crash);
    }
  }

  /** Recovery: any runs inside the range, each failing anywhere or not at all, followed by a
      successful run over the range leave exactly the store of that one successful run. */
  lemma RetryEqualsCleanRun(first: Db, feed: Feed, symbol: string, start: int, end: int, attempts: seq<Attempt>)
    requires WellFormed(feed) && Committed(first, feed) && Faithful(first.bars, feed, symbol)
    requires forall a :: a in attempts ==> a.symbol == symbol && start <= a.start && a.end <= end
    ensures Run(RunAll(first, feed, attempts), feed, symbol, start, end, Never)
         == Run(first, feed, symbol, start, end, Never)
  {
    var db := RunAll(first, feed, attempts);
    AttemptsStayOnTheWay(first, feed, symbol, start, end, attempts);
    CleanRunArrives(first, db, feed, symbol, start, end);
    CleanRunArrives(first, first, feed, symbol, start, end);
    StaysOnTheWay(first, db, feed, symbol, start, end, start, end, Never);
    StaysOnTheWay(first, first, feed, symbol, start, end, start, end, Never);
    SameBars(first, Run(db, feed, symbol, start, end, Never), Run(first, feed, symbol, start, end, Never),
             feed, symbol, start, end);
  }

  lemma SameBars(first: Db, a: Db, b: Db, feed: Feed, symbol: string, start: int, end: int)
    requires OnTheWay(first, a, feed, symbol, start, end) && OnTheWay(first, b, feed, symbol, start, end)
    requires forall k :: k in a.bars <==> k in b.bars
    ensures a.bars == b.bars
  {
    forall k | k in a.bars ensures a.bars[k] == b.bars[k] {
      if k !in first.bars {
        assert feed.bar(symbol, k.date) == Some((k, a.bars[k]));
        assert feed.bar(symbol, k.date) == Some((k, b.bars[k]));
      }
    }
  }
}
