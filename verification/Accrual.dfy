/** The instance table of `currentflow/store/db.py` and the scan-then-resolve run of
    `currentflow/patterns/accrual.py`, for one pattern and version. */
module Accrual {
  import opened Models
  import opened Sequences
  import opened Scan
  import opened Outcome

  datatype Key = Key(symbol: string, flagDate: int, horizon: Horizon)

  datatype Row = Row(resolution: Resolution, window: Window, asOf: int)

  type Table = map<Key, Row>

  /** `INSERT .. ON CONFLICT DO UPDATE`, row by row. */
  function Upsert(t: Table, xs: seq<(Key, Row)>): Table {
    if xs == [] then t else Upsert(t, xs[..|xs| - 1])[xs[|xs| - 1].0 := xs[|xs| - 1].1]
  }

  /** The row the scanner writes for a flag. */
  function OpenRow(k: Key, now: int): Row { Row(Resolution(Open, None), WindowFor(k.flagDate), now) }

  function KeyOf(inst: Instance): Key { Key(inst.symbol, inst.flagDate, inst.horizon) }

  function OpenRows(found: seq<Instance>, now: int): (xs: seq<(Key, Row)>)
    ensures |xs| == |found|
  {
    seq(|found|, i requires 0 <= i < |found| => (KeyOf(found[i]), OpenRow(KeyOf(found[i]), now)))
  }

  /** What a resolving pass reads: a symbol's bars as they are visible, and the market's latest
      bar date. */
  datatype Bars = Bars(of: string -> seq<DailyBar>, latest: Option<int>, now: int)

  function Traded(bars: Bars, symbol: string): seq<DailyBar> {
    Sort(Filter(bars.of(symbol), (b: DailyBar) => b.status == TRADED), ByDate)
  }

  function Settled(k: Key, r: Row, spec: OutcomeSpec, bars: Bars): Row {
    if r.resolution.verdict != Open then r
    else
      var found := Resolve(Traded(bars, k.symbol), k.flagDate, k.horizon, spec, bars.latest);
      if found.verdict == Open then r else Row(found, r.window, bars.now)
  }

  /** A whole resolving pass. */
  function SettleAll(t: Table, spec: OutcomeSpec, bars: Bars): Table {
    map k | k in t :: Settled(k, t[k], spec, bars)
  }

  /** The keys a scan over `days` flags. */
  function Flagged(days: seq<int>, p: Pattern, src: Sources): seq<Instance>
    requires p.horizons != [] && PointInTime(days, src)
  {
    FlagsInRange(days, p, src);
    RowsOf(VisitAll(days, p, src).flags, days, p.horizons)
  }

  /** One estimation run's effect on the table. */
  function AfterRun(t: Table, days: seq<int>, p: Pattern, src: Sources, spec: OutcomeSpec, bars: Bars): Table
    requires p.horizons != [] && PointInTime(days, src)
  {
    SettleAll(Upsert(t, OpenRows(Flagged(days, p, src), bars.now)), spec, bars)
  }

  lemma HasKey(s: set<Key>)
    ensures s == {} || exists k :: k in s
  {
    if forall k :: k !in s {
      assert s == {};
    }
  }

  type Cache = map<string, seq<DailyBar>>

  ghost predicate Cached(cache: Cache, bars: Bars) {
    forall s :: s in cache ==> cache[s] == Traded(bars, s)
  }

  /** A symbol's bars, read and sorted the first time only. */
  method ReadCached(cache: Cache, symbol: string, bars: Bars) returns (traded: seq<DailyBar>, more: Cache)
    requires Cached(cache, bars)
    ensures traded == Traded(bars, symbol) && Cached(more, bars)
  {
    if symbol in cache {
      return cache[symbol], cache;
    }
    traded := Traded(bars, symbol);
    more := cache[symbol := traded];
  }

  /** One open instance against its bars: the row to write back, if it is decided. */
  method Settle(k: Key, r: Row, traded: seq<DailyBar>, spec: OutcomeSpec, bars: Bars) returns (x: Option<Row>)
    requires r.resolution.verdict == Open && traded == Traded(bars, k.symbol)
    ensures Settled(k, r, spec, bars) == if x.Some? then x.value else r
  {
    var found := ResolveInstance(traded, k.flagDate, k.horizon, spec, bars.latest);
    x := if found.verdict == Open then None else Some(Row(found, r.window, bars.now));
  }

  /** The loop of `resolve_open`. */
  method Settlements(t: Table, open: seq<Key>, spec: OutcomeSpec, bars: Bars) returns (resolved: seq<(Key, Row)>)
    requires forall i :: 0 <= i < |open| ==> open[i] in t && t[open[i]].resolution.verdict == Open
    ensures SettledOnly(t, resolved, spec, bars) && AreSettled(t, open, resolved, spec, bars)
  {
    var cache: Cache := map[];
    resolved := [];
    for i := 0 to |open|
      invariant Cached(cache, bars)
      invariant SettledOnly(t, resolved, spec, bars)
      invariant AreSettled(t, open[..i], resolved, spec, bars)
    {
      var k := open[i];
      var traded;
      traded, cache := ReadCached(cache, k.symbol, bars);
      var x := Settle(k, t[k], traded, spec, bars);
      OneSettled(t, open, i, resolved, x, spec, bars);
      if x.Some? {
        resolved := resolved + [(k, x.value)];
      }
    }
    assert open[..|open|] == open;
  }

  function WithSettled(xs: seq<(Key, Row)>, k: Key, x: Option<Row>): seq<(Key, Row)> {
    if x.Some? then xs + [(k, x.value)] else xs
  }

  lemma OneSettled(t: Table, open: seq<Key>, i: nat, xs: seq<(Key, Row)>, x: Option<Row>, spec: OutcomeSpec,
                   bars: Bars)
    requires SettledOnly(t, xs, spec, bars) && i < |open| && AreSettled(t, open[..i], xs, spec, bars)
    requires open[i] in t && Settled(open[i], t[open[i]], spec, bars) == if x.Some? then x.value else t[open[i]]
    ensures var ys := WithSettled(xs, open[i], x);
            SettledOnly(t, ys, spec, bars) && AreSettled(t, open[..i + 1], ys, spec, bars)
  {
    hide Settled;
    var ys := WithSettled(xs, open[i], x);
    assert IsSettled(t, open[i], ys, spec, bars) by {
      if x.Some? {
        assert ys[|xs|] == (open[i], x.value);
      }
    }
    forall j | 0 <= j < i ensures IsSettled(t, open[j], ys, spec, bars) {
      assert IsSettled(t, open[..i][j], xs, spec, bars);
      if x.Some? {
        StaysSettled(t, open[j], xs, (open[i], x.value), spec, bars);
      }
    }
  }

  lemma StaysSettled(t: Table, k: Key, xs: seq<(Key, Row)>, x: (Key, Row), spec: OutcomeSpec, bars: Bars)
    requires IsSettled(t, k, xs, spec, bars)
    ensures IsSettled(t, k, xs + [x], spec, bars)
  {
  }

  class InstanceTable {
    var rows: Table

    constructor()
      ensures rows == map[]
    {
      rows := map[];
    }

    /** `write_pattern_instances`. */
    method WriteInstances(xs: seq<(Key, Row)>) returns (added: int)
      modifies this
      ensures rows == Upsert(old(rows), xs)
      ensures added == |rows| - |old(rows)|
    {
      var before := |rows|;
      for i := 0 to |xs|
        invariant rows == Upsert(old(rows), xs[..i])
      {
        assert xs[..i + 1][..i] == xs[..i];
        rows := rows[xs[i].0 := xs[i].1];
      }
      assert xs[..|xs|] == xs;
      added := |rows| - before;
    }

    /** The OPEN rows, in some order. */
    method ReadOpen() returns (keys: seq<Key>)
      ensures forall k :: k in keys <==> k in rows && rows[k].resolution.verdict == Open
      ensures forall i, j :: 0 <= i < j < |keys| ==> keys[i] != keys[j]
    {
      var todo := set k | k in rows && rows[k].resolution.verdict == Open;
      keys := [];
      while todo != {}
        invariant forall k :: k in todo || k in keys <==> k in rows && rows[k].resolution.verdict == Open
        invariant forall k :: k in keys ==> k !in todo
        invariant forall i, j :: 0 <= i < j < |keys| ==> keys[i] != keys[j]
      {
        HasKey(todo);
        var k :| k in todo;
        keys, todo := keys + [k], todo - {k};
      }
    }

    /** `resolve_open`. */
    method ResolveOpen(spec: OutcomeSpec, bars: Bars) returns (n: nat)
      modifies this
      ensures rows == SettleAll(old(rows), spec, bars)
      ensures rows.Keys == old(rows).Keys
    {
      var open := ReadOpen();
      var resolved := Settlements(rows, open, spec, bars);
      forall k | k in rows ensures IsSettled(rows, k, resolved, spec, bars) {
        if rows[k].resolution.verdict == Open {
          assert k in open;
        }
      }
      UpsertSettles(rows, resolved, spec, bars);
      var _ := WriteInstances(resolved);
      n := |resolved|;
    }

    /** `run_estimation` up to the estimate: nothing without a bar in the store; refused by the
        scanner, the table is left as it was. */
    method RunEstimation(days: seq<int>, p: Pattern, src: Sources, spec: OutcomeSpec, bars: Bars) returns (ok: bool)
      requires p.horizons != [] && SortedBy(days, (a: int, b: int) => a <= b)
      modifies this
      ensures ok <==> bars.latest.Some? && PointInTime(days, src)
      ensures rows == if ok then AfterRun(old(rows), days, p, src, spec, bars) else old(rows)
    {
      SortFixed(days, (a: int, b: int) => a <= b);
      if bars.latest.None? {
        return false;
      }
      var found := ScanPattern(days, p, src);
      if found.Err? {
        return false;
      }
      var _ := WriteInstances(OpenRows(found.value, bars.now));
      var _ := ResolveOpen(spec, bars);
      return true;
    }
  }

  /** The rows written back are settled rows of the table. */
  ghost predicate SettledOnly(t: Table, xs: seq<(Key, Row)>, spec: OutcomeSpec, bars: Bars) {
    forall i :: 0 <= i < |xs| ==> xs[i].0 in t && xs[i].1 == Settled(xs[i].0, t[xs[i].0], spec, bars)
  }

  /** The key's row does not move, or is among those written back. */
  ghost predicate IsSettled(t: Table, k: Key, xs: seq<(Key, Row)>, spec: OutcomeSpec, bars: Bars) {
    k in t && (Settled(k, t[k], spec, bars) == t[k] || (k, Settled(k, t[k], spec, bars)) in xs)
  }

  ghost predicate AreSettled(t: Table, ks: seq<Key>, xs: seq<(Key, Row)>, spec: OutcomeSpec, bars: Bars) {
    forall i :: 0 <= i < |ks| ==> IsSettled(t, ks[i], xs, spec, bars)
  }

  /** Writing back settled rows, if every row that moves is among them, is the whole pass. */
  lemma UpsertSettles(t: Table, xs: seq<(Key, Row)>, spec: OutcomeSpec, bars: Bars)
    requires SettledOnly(t, xs, spec, bars)
    requires forall k :: k in t ==> IsSettled(t, k, xs, spec, bars)
    ensures Upsert(t, xs) == SettleAll(t, spec, bars)
  {
    forall k | k in t ensures k in Upsert(t, xs) && Upsert(t, xs)[k] == Settled(k, t[k], spec, bars) {
      UpsertAt(t, xs, k);
      assert IsSettled(t, k, xs, spec, bars);
    }
    forall k | k in Upsert(t, xs) ensures k in t {
      UpsertAt(t, xs, k);
    }
  }

  /** A key holds one of the rows written for it, or else what it held. */
  lemma {:induction false} UpsertAt(t: Table, xs: seq<(Key, Row)>, k: Key)
    ensures k in Upsert(t, xs) <==> k in t || exists i :: 0 <= i < |xs| && xs[i].0 == k
    ensures k in Upsert(t, xs) ==>
              (k in t && Upsert(t, xs)[k] == t[k] && forall i :: 0 <= i < |xs| ==> xs[i].0 != k)
              || (k, Upsert(t, xs)[k]) in xs
  {
    if xs != [] {
      UpsertAt(t, xs[..|xs| - 1], k);
    }
  }

  // ---- a run over more days is a run from scratch --------------------------------------------------

  ghost predicate KeyIn(k: Key, found: seq<Instance>) {
    exists i :: 0 <= i < |found| && KeyOf(found[i]) == k
  }

  /** The row a run leaves at a flagged key: the outcome of the instance on the bars it read. */
  function FreshRow(k: Key, spec: OutcomeSpec, bars: Bars): Row {
    Settled(k, OpenRow(k, bars.now), spec, bars)
  }

  lemma RunAt(t: Table, days: seq<int>, p: Pattern, src: Sources, spec: OutcomeSpec, bars: Bars, k: Key)
    requires p.horizons != [] && PointInTime(days, src)
    ensures var after := AfterRun(t, days, p, src, spec, bars);
            && (k in after <==> k in t || KeyIn(k, Flagged(days, p, src)))
            && (KeyIn(k, Flagged(days, p, src)) ==> after[k] == FreshRow(k, spec, bars))
  {
    var found := Flagged(days, p, src);
    var xs := OpenRows(found, bars.now);
    UpsertAt(t, xs, k);
    forall i | 0 <= i < |xs| ensures xs[i].0 == KeyOf(found[i]) && xs[i].1 == OpenRow(xs[i].0, bars.now) {}
    if KeyIn(k, found) {
      var i :| 0 <= i < |found| && KeyOf(found[i]) == k;
      assert xs[i].0 == k;
    }
  }

  ghost predicate OnlyFlagged(t: Table, days: seq<int>, p: Pattern, src: Sources)
    requires p.horizons != [] && PointInTime(days, src)
  {
    forall k :: k in t ==> KeyIn(k, Flagged(days, p, src))
  }

  /** With nothing in the table but flags of these days, a run forgets the table: every row is
      opened again and decided from the bars as they now are. */
  lemma RunIsFromScratch(t: Table, days: seq<int>, p: Pattern, src: Sources, spec: OutcomeSpec, bars: Bars)
    requires p.horizons != [] && PointInTime(days, src) && OnlyFlagged(t, days, p, src)
    ensures AfterRun(t, days, p, src, spec, bars) == AfterRun(map[], days, p, src, spec, bars)
    ensures OnlyFlagged(AfterRun(t, days, p, src, spec, bars), days, p, src)
  {
    var a, b := AfterRun(t, days, p, src, spec, bars), AfterRun(map[], days, p, src, spec, bars);
    forall k ensures (k in a <==> k in b) && (k in a ==> a[k] == b[k] && KeyIn(k, Flagged(days, p, src))) {
      RunAt(t, days, p, src, spec, bars, k);
      RunAt(map[], days, p, src, spec, bars, k);
    }
  }

  lemma {:induction false} RowsOfPrefix(flags: seq<(string, int)>, more: seq<(string, int)>, days: seq<int>,
                                        later: seq<int>, hs: seq<Horizon>)
    requires flags <= more && days <= later && InRange(flags, |days|) && InRange(more, |later|)
    ensures RowsOf(flags, days, hs) <= RowsOf(more, later, hs)
    decreases |more|
  {
    if more != [] {
      var front := more[..|more| - 1];
      if |flags| < |more| {
        RowsOfPrefix(flags, front, days, later, hs);
      } else {
        assert flags == more;
        RowsOfSame(flags, days, later, hs);
      }
    }
  }

  lemma {:induction false} RowsOfSame(flags: seq<(string, int)>, days: seq<int>, later: seq<int>, hs: seq<Horizon>)
    requires days <= later && InRange(flags, |days|) && InRange(flags, |later|)
    ensures RowsOf(flags, days, hs) == RowsOf(flags, later, hs)
  {
    if flags != [] {
      RowsOfSame(flags[..|flags| - 1], days, later, hs);
      assert days[flags[|flags| - 1].1] == later[flags[|flags| - 1].1];
    }
  }

  /** What is flagged stays flagged when more days are scanned. */
  lemma FlaggedGrows(days: seq<int>, later: seq<int>, p: Pattern, src: Sources)
    requires p.horizons != [] && days <= later && PointInTime(later, src)
    ensures PointInTime(days, src) && Flagged(days, p, src) <= Flagged(later, p, src)
  {
    assert later[..|days|] == days;
    assert forall i :: 0 <= i < |days| ==> days[i] == later[i];
    LongerScanExtends(later, p, src, |days|);
    FlagsInRange(days, p, src);
    FlagsInRange(later, p, src);
    RowsOfPrefix(VisitAll(days, p, src).flags, VisitAll(later, p, src).flags, days, later, p.horizons);
  }

  lemma OnlyFlaggedGrows(t: Table, days: seq<int>, later: seq<int>, p: Pattern, src: Sources)
    requires p.horizons != [] && days <= later && PointInTime(later, src) && PointInTime(days, src)
    requires OnlyFlagged(t, days, p, src)
    ensures OnlyFlagged(t, later, p, src)
  {
    forall k | k in t ensures KeyIn(k, Flagged(later, p, src)) {
      FlaggedStays(days, later, p, src, k);
    }
  }

  // ---- histories of runs -------------------------------------------------------------------------------

  datatype Accrual = Accrual(days: seq<int>, bars: Bars)

  /** Runs over ever longer day lists, as the latest bar date moves on. */
  ghost predicate Growing(runs: seq<Accrual>, src: Sources) {
    && (forall i :: 0 <= i < |runs| ==> PointInTime(runs[i].days, src))
    && (forall i, j :: 0 <= i < j < |runs| ==> runs[i].days <= runs[j].days)
  }

  function After(runs: seq<Accrual>, p: Pattern, src: Sources, spec: OutcomeSpec): Table
    requires p.horizons != [] && forall i :: 0 <= i < |runs| ==> PointInTime(runs[i].days, src)
  {
    if runs == [] then map[]
    else
      var r := runs[|runs| - 1];
      AfterRun(After(runs[..|runs| - 1], p, src, spec), r.days, p, src, spec, r.bars)
  }

  /** However many runs came before, the table is the one the last run alone would have built. */
  lemma {:induction false} HistoryIsLastRun(runs: seq<Accrual>, p: Pattern, src: Sources, spec: OutcomeSpec)
    requires p.horizons != [] && Growing(runs, src) && runs != []
    ensures var r := runs[|runs| - 1];
            && After(runs, p, src, spec) == AfterRun(map[], r.days, p, src, spec, r.bars)
            && OnlyFlagged(After(runs, p, src, spec), r.days, p, src)
  {
    var n := |runs| - 1;
    var r := runs[n];
    var before := After(runs[..n], p, src, spec);
    if n > 0 {
      HistoryIsLastRun(runs[..n], p, src, spec);
      OnlyFlaggedGrows(before, runs[n - 1].days, r.days, p, src);
    }
    RunIsFromScratch(before, r.days, p, src, spec, r.bars);
  }

  ghost predicate BarsContinue(a: Bars, b: Bars) {
    forall s :: Continues(Traded(a, s), Traded(b, s))
  }

  /** Over any history of runs, an instance that was HIT or MISS after some run has the same
      outcome, settled on the same day, after every later one whose bars continue those read. */
  lemma SettledForever(runs: seq<Accrual>, n: nat, p: Pattern, src: Sources, spec: OutcomeSpec, k: Key)
    requires p.horizons != [] && Growing(runs, src) && 0 < n <= |runs|
    requires BarsContinue(runs[n - 1].bars, runs[|runs| - 1].bars)
    requires var t := After(runs[..n], p, src, spec); k in t && t[k].resolution.verdict in {Hit, Miss}
    ensures k in After(runs, p, src, spec)
    ensures After(runs, p, src, spec)[k].resolution == After(runs[..n], p, src, spec)[k].resolution
  {
    hide After, BarsContinue, KeyIn, Flagged, FreshRow, PointInTime;
    RowAfter(runs[..n], p, src, spec, k);
    RowAfter(runs, p, src, spec, k);
    FlaggedStays(runs[n - 1].days, runs[|runs| - 1].days, p, src, k);
    FreshRowStable(k, spec, runs[n - 1].bars, runs[|runs| - 1].bars);
  }

  lemma RowAfter(runs: seq<Accrual>, p: Pattern, src: Sources, spec: OutcomeSpec, k: Key)
    requires p.horizons != [] && Growing(runs, src) && runs != []
    ensures var r := runs[|runs| - 1];
            && (k in After(runs, p, src, spec) <==> KeyIn(k, Flagged(r.days, p, src)))
            && (k in After(runs, p, src, spec) ==> After(runs, p, src, spec)[k] == FreshRow(k, spec, r.bars))
  {
    var r := runs[|runs| - 1];
    HistoryIsLastRun(runs, p, src, spec);
    RunAt(map[], r.days, p, src, spec, r.bars, k);
  }

  lemma FlaggedStays(days: seq<int>, later: seq<int>, p: Pattern, src: Sources, k: Key)
    requires p.horizons != [] && days <= later && PointInTime(later, src) && PointInTime(days, src)
    ensures KeyIn(k, Flagged(days, p, src)) ==> KeyIn(k, Flagged(later, p, src))
  {
    FlaggedGrows(days, later, p, src);
    var few, many := Flagged(days, p, src), Flagged(later, p, src);
    if KeyIn(k, few) {
      var i :| 0 <= i < |few| && KeyOf(few[i]) == k;
      assert KeyOf(many[i]) == k;
    }
  }

  lemma FreshRowStable(k: Key, spec: OutcomeSpec, a: Bars, b: Bars)
    requires BarsContinue(a, b) && FreshRow(k, spec, a).resolution.verdict in {Hit, Miss}
    ensures FreshRow(k, spec, b).resolution == FreshRow(k, spec, a).resolution
  {
    SettledIsStable(Traded(a, k.symbol), Traded(b, k.symbol), k.flagDate, k.horizon, spec, a.latest, b.latest);
  }
}
