/** The pattern scanner of `currentflow/patterns/scan.py`: flags per symbol, a fresh flag
    suppressed while the longest horizon of the one before is still open. */
module Scan {
  import opened Models
  import opened Sequences

  /** First day of the out-of-sample window, 2026-01-01 as a day number. */
  const HOLDOUT_START: int := 739617

  datatype PitUniverse = PitUniverse(symbols: seq<string>, tracks: map<string, string>)

  datatype Window = EST | OOS

  datatype Instance = Instance(symbol: string, flagDate: int, horizon: Horizon, window: Window)

  datatype ScanError = NotPointInTime

  /** What the scanner consults: the universe of a day (`None` when the source is not a
      point-in-time one) and whether a symbol's features satisfy the pattern on that day. */
  datatype Sources = Sources(universe: int -> Option<PitUniverse>, hit: (string, int) -> bool)

  /** Forward horizons are counts of trading days. */
  type Horizon = h: int | h > 0 witness 1

  datatype Pattern = Pattern(track: string, horizons: seq<Horizon>)

  function MaxHorizon(hs: seq<Horizon>): (m: Horizon)
    requires hs != []
    ensures m in hs && forall i :: 0 <= i < |hs| ==> hs[i] <= m
  {
    var last := hs[|hs| - 1];
    if |hs| == 1 then last
    else
      var m := MaxHorizon(hs[..|hs| - 1]);
      if m >= last then m else last
  }

  predicate OnTrack(u: PitUniverse, symbol: string, track: string) {
    symbol in u.tracks && u.tracks[symbol] == track
  }

  // ---- the collapse of one symbol ----------------------------------------------------------

  /** The days kept from a run of hits: the first, then each hit at least `h` days after the
      last one kept. */
  function Greedy(hits: seq<bool>, h: int): (flags: seq<int>)
    ensures forall k :: 0 <= k < |flags| ==> 0 <= flags[k] < |hits| && hits[flags[k]]
  {
    if hits == [] then []
    else
      var i := |hits| - 1;
      var front := Greedy(hits[..i], h);
      if hits[i] && (front == [] || i - front[|front| - 1] >= h) then front + [i] else front
  }

  ghost predicate Separated(days: seq<int>, h: int) {
    forall k :: 0 < k < |days| ==> days[k] - days[k - 1] >= h
  }

  /** A choice of hit days with no two closer than `h`. */
  ghost predicate IsSelection(days: seq<int>, hits: seq<bool>, h: int) {
    Separated(days, h) && forall k :: 0 <= k < |days| ==> 0 <= days[k] < |hits| && hits[days[k]]
  }

  /** Flags are at least the longest horizon apart. */
  lemma {:induction false} GreedyIsSelection(hits: seq<bool>, h: int)
    ensures IsSelection(Greedy(hits, h), hits, h)
  {
    if hits != [] {
      GreedyIsSelection(hits[..|hits| - 1], h);
    }
  }

  /** Every hit is flagged or lies within the horizon after a flag. */
  lemma {:induction false} SuppressedHitIsCovered(hits: seq<bool>, h: int, i: nat)
    requires h >= 1 && i < |hits| && hits[i]
    ensures exists k :: 0 <= k < |Greedy(hits, h)| && Greedy(hits, h)[k] <= i < Greedy(hits, h)[k] + h
  {
    var n := |hits| - 1;
    var front, all := Greedy(hits[..n], h), Greedy(hits, h);
    if i < n {
      SuppressedHitIsCovered(hits[..n], h, i);
      var k :| 0 <= k < |front| && front[k] <= i < front[k] + h;
      assert all[k] == front[k];
    } else {
      var last := |all| - 1;
      assert all[last] <= i < all[last] + h;
    }
  }

  /** Cut at its last flag, a collapse loses exactly that flag. */
  lemma {:induction false} LastFlagSplits(hits: seq<bool>, h: int)
    requires Greedy(hits, h) != []
    ensures var flags := Greedy(hits, h); var last := flags[|flags| - 1];
            Greedy(hits[..last], h) == flags[..|flags| - 1]
  {
    var i := |hits| - 1;
    var front, flags := Greedy(hits[..i], h), Greedy(hits, h);
    assert flags == front || flags == front + [i];
    if flags == front {
      LastFlagSplits(hits[..i], h);
      PrefixOfPrefix(hits, i, flags[|flags| - 1]);
    } else {
      assert flags[..|flags| - 1] == front;
    }
  }

  lemma PrefixOfPrefix<T>(xs: seq<T>, i: nat, j: nat)
    requires j <= i <= |xs|
    ensures xs[..i][..j] == xs[..j]
  {
  }

  /** Optimality: no selection of hits, at least `h` apart, is larger than the flags. */
  lemma {:induction false} GreedyIsOptimal(hits: seq<bool>, h: int, days: seq<int>)
    requires h >= 1 && IsSelection(days, hits, h)
    ensures |days| <= |Greedy(hits, h)|
    decreases |hits|
  {
    if days != [] {
      var last := days[|days| - 1];
      assert 0 <= last < |hits|;
      var n := |hits| - 1;
      SelectionAscends(days, hits, h);
      if last < n {
        RestrictSelection(days, hits, h, n);
        GreedyIsOptimal(hits[..n], h, days);
      } else {
        var cut := Room(hits, h);
        var rest := days[..|days| - 1];
        RestrictSelection(rest, hits, h, cut);
        GreedyIsOptimal(hits[..cut], h, rest);
      }
    }
  }

  /** The hits up to which the collapse had one flag fewer: all but the last one when that was
      kept, those before the flag suppressing it when it was not. */
  lemma Room(hits: seq<bool>, h: int) returns (cut: nat)
    requires h >= 1 && hits != [] && hits[|hits| - 1]
    ensures |hits| - h <= cut < |hits| && |Greedy(hits[..cut], h)| + 1 == |Greedy(hits, h)|
  {
    cut := |hits| - 1;
    var front := Greedy(hits[..cut], h);
    if front != [] && cut - front[|front| - 1] < h {
      LastFlagSplits(hits[..cut], h);
      assert hits[..cut][..front[|front| - 1]] == hits[..front[|front| - 1]];
      cut := front[|front| - 1];
    }
  }

  lemma {:induction false} SelectionAscends(days: seq<int>, hits: seq<bool>, h: int)
    requires h >= 1 && IsSelection(days, hits, h) && days != []
    ensures forall k :: 0 <= k < |days| - 1 ==> days[k] <= days[|days| - 1] - h
  {
    if |days| > 1 {
      SelectionAscends(days[..|days| - 1], hits, h);
    }
  }

  lemma RestrictSelection(days: seq<int>, hits: seq<bool>, h: int, n: nat)
    requires n <= |hits| && IsSelection(days, hits, h)
    requires forall k :: 0 <= k < |days| ==> days[k] < n
    ensures IsSelection(days, hits[..n], h)
  {
  }

  // ---- the scan ------------------------------------------------------------------------------

  /** The scanner's memory: the index of each symbol's last flag, and the flags so far. */
  datatype Memory = Memory(last: map<string, int>, flags: seq<(string, int)>)

  /** One symbol's turn on day `i`. */
  function Visit(m: Memory, u: PitUniverse, symbol: string, i: int, day: int, p: Pattern, src: Sources): Memory
    requires p.horizons != []
  {
    if !OnTrack(u, symbol, p.track) then m
    else if symbol in m.last && i - m.last[symbol] < MaxHorizon(p.horizons) then m
    else if !src.hit(symbol, day) then m
    else Memory(m.last[symbol := i], m.flags + [(symbol, i)])
  }

  function VisitDay(m: Memory, u: PitUniverse, symbols: seq<string>, i: int, day: int, p: Pattern, src: Sources): Memory
    requires p.horizons != []
  {
    if symbols == [] then m
    else Visit(VisitDay(m, u, symbols[..|symbols| - 1], i, day, p, src), u, symbols[|symbols| - 1], i, day, p, src)
  }

  ghost predicate PointInTime(days: seq<int>, src: Sources) {
    forall i :: 0 <= i < |days| ==> src.universe(days[i]).Some?
  }

  function VisitAll(days: seq<int>, p: Pattern, src: Sources): Memory
    requires p.horizons != [] && PointInTime(days, src)
  {
    if days == [] then Memory(map[], [])
    else
      var i := |days| - 1;
      var u := src.universe(days[i]).value;
      VisitDay(VisitAll(days[..i], p, src), u, u.symbols, i, days[i], p, src)
  }

  /** `_window_for`. */
  function WindowFor(flagDate: int): Window { if flagDate >= HOLDOUT_START then OOS else EST }

  function Rows(symbol: string, day: int, horizons: seq<Horizon>): (r: seq<Instance>)
    ensures |r| == |horizons|
  {
    seq(|horizons|, k requires 0 <= k < |horizons| => Instance(symbol, day, horizons[k], WindowFor(day)))
  }

  ghost predicate InRange(flags: seq<(string, int)>, n: int) {
    forall k :: 0 <= k < |flags| ==> 0 <= flags[k].1 < n
  }

  /** The rows of a list of flags, one per horizon. */
  function RowsOf(flags: seq<(string, int)>, days: seq<int>, horizons: seq<Horizon>): seq<Instance>
    requires InRange(flags, |days|)
  {
    if flags == [] then []
    else
      var (symbol, i) := flags[|flags| - 1];
      RowsOf(flags[..|flags| - 1], days, horizons) + Rows(symbol, days[i], horizons)
  }

  lemma {:induction false} DayFlagsInRange(m: Memory, u: PitUniverse, symbols: seq<string>, i: int, day: int,
                                           p: Pattern, src: Sources, n: int)
    requires p.horizons != [] && 0 <= i < n && InRange(m.flags, n)
    ensures InRange(VisitDay(m, u, symbols, i, day, p, src).flags, n)
  {
    if symbols != [] {
      DayFlagsInRange(m, u, symbols[..|symbols| - 1], i, day, p, src, n);
    }
  }

  lemma {:induction false} FlagsInRange(days: seq<int>, p: Pattern, src: Sources)
    requires p.horizons != [] && PointInTime(days, src)
    ensures InRange(VisitAll(days, p, src).flags, |days|)
  {
    if days != [] {
      var i := |days| - 1;
      FlagsInRange(days[..i], p, src);
      var u := src.universe(days[i]).value;
      DayFlagsInRange(VisitAll(days[..i], p, src), u, u.symbols, i, days[i], p, src, |days|);
    }
  }

  function SortedDays(days: seq<int>): seq<int> { Sort(days, (a: int, b: int) => a <= b) }

  lemma NothingScanned(order: seq<int>, p: Pattern, src: Sources)
    requires p.horizons != []
    ensures VisitAll(order[..0], p, src) == Memory(map[], [])
    ensures InRange([], |order|) && RowsOf([], order, p.horizons) == []
  {
  }

  lemma OneMoreDay(order: seq<int>, i: nat, p: Pattern, src: Sources)
    requires p.horizons != [] && i < |order| && PointInTime(order[..i], src) && src.universe(order[i]).Some?
    ensures PointInTime(order[..i + 1], src)
    ensures var u := src.universe(order[i]).value;
            VisitAll(order[..i + 1], p, src) ==
            VisitDay(VisitAll(order[..i], p, src), u, u.symbols, i, order[i], p, src)
  {
    assert order[..i + 1][..i] == order[..i];
  }

  /** `scan_pattern`: refused when some day's source is not point-in-time. */
  method ScanPattern(days: seq<int>, p: Pattern, src: Sources) returns (r: Result<seq<Instance>, ScanError>)
    requires p.horizons != []
    ensures r.Ok? <==> PointInTime(SortedDays(days), src)
    ensures r.Ok? ==>
              var m := VisitAll(SortedDays(days), p, src);
              InRange(m.flags, |days|)
              && r.value == RowsOf(m.flags, SortedDays(days), p.horizons)
  {
    hide VisitAll, RowsOf, InRange;
    var order := SortedDays(days);
    NothingScanned(order, p, src);
    var last: map<string, int> := map[];
    var rows: seq<Instance> := [];
    ghost var flags: seq<(string, int)> := [];
    var i := 0;
    while i < |order|
      invariant 0 <= i <= |order| && PointInTime(order[..i], src)
      invariant Memory(last, flags) == VisitAll(order[..i], p, src)
      invariant InRange(flags, |order|)
      invariant rows == RowsOf(flags, order, p.horizons)
    {
      var day := order[i];
      var uni := src.universe(day);
      if uni.None? {
        return Err(NotPointInTime);
      }
      OneMoreDay(order, i, p, src);
      last, rows, flags := ScanDay(last, rows, flags, uni.value, i, order, p, src);
      i := i + 1;
    }
    assert order[..i] == order;
    return Ok(rows);
  }

  /** The inner loop: the symbols of one day. */
  method ScanDay(last0: map<string, int>, rows0: seq<Instance>, ghost flags0: seq<(string, int)>, u: PitUniverse,
                 i: nat, order: seq<int>, p: Pattern, src: Sources)
    returns (last: map<string, int>, rows: seq<Instance>, ghost flags: seq<(string, int)>)
    requires p.horizons != [] && i < |order|
    requires InRange(flags0, |order|)
    requires rows0 == RowsOf(flags0, order, p.horizons)
    ensures Memory(last, flags) == VisitDay(Memory(last0, flags0), u, u.symbols, i, order[i], p, src)
    ensures InRange(flags, |order|)
    ensures rows == RowsOf(flags, order, p.horizons)
  {
    last, rows, flags := last0, rows0, flags0;
    var maxH := MaxHorizon(p.horizons);
    for j := 0 to |u.symbols|
      invariant Memory(last, flags) == VisitDay(Memory(last0, flags0), u, u.symbols[..j], i, order[i], p, src)
      invariant InRange(flags, |order|)
      invariant rows == RowsOf(flags, order, p.horizons)
    {
      assert u.symbols[..j + 1][..j] == u.symbols[..j];
      var symbol := u.symbols[j];
      if OnTrack(u, symbol, p.track) && !(symbol in last && i - last[symbol] < maxH) && src.hit(symbol, order[i]) {
        last := last[symbol := i];
        rows := rows + Rows(symbol, order[i], p.horizons);
        assert (flags + [(symbol, i)])[..|flags|] == flags;
        flags := flags + [(symbol, i)];
      }
    }
    assert u.symbols[..|u.symbols|] == u.symbols;
  }

  // ---- the scan is the collapse, symbol by symbol -----------------------------------------------

  function FlagsOf(flags: seq<(string, int)>, symbol: string): seq<int> {
    if flags == [] then []
    else
      var (s, i) := flags[|flags| - 1];
      if s == symbol then FlagsOf(flags[..|flags| - 1], symbol) + [i] else FlagsOf(flags[..|flags| - 1], symbol)
  }

  predicate Hit(symbol: string, day: int, p: Pattern, src: Sources)
    requires src.universe(day).Some?
  {
    var u := src.universe(day).value;
    symbol in u.symbols && OnTrack(u, symbol, p.track) && src.hit(symbol, day)
  }

  /** The symbol's hits over the days, before any collapse. */
  function Hits(symbol: string, days: seq<int>, p: Pattern, src: Sources): (r: seq<bool>)
    requires PointInTime(days, src)
    ensures |r| == |days|
    ensures forall i :: 0 <= i < |days| ==> r[i] == Hit(symbol, days[i], p, src)
  {
    seq(|days|, i requires 0 <= i < |days| => Hit(symbol, days[i], p, src))
  }

  function LastOf(flags: seq<int>): Option<int> {
    if flags == [] then None else Some(flags[|flags| - 1])
  }

  function Lookup(m: map<string, int>, symbol: string): Option<int> {
    if symbol in m then Some(m[symbol]) else None
  }

  /** Where the symbol stands: its flags so far, remembered in `last`. */
  ghost predicate Stands(m: Memory, symbol: string, flags: seq<int>) {
    FlagsOf(m.flags, symbol) == flags && Lookup(m.last, symbol) == LastOf(flags)
  }

  function Next(flags: seq<int>, i: int, hit: bool, h: int): seq<int> {
    if hit && (flags == [] || i - flags[|flags| - 1] >= h) then flags + [i] else flags
  }

  lemma VisitOther(m: Memory, u: PitUniverse, visited: string, i: int, day: int, p: Pattern, src: Sources,
                   symbol: string, flags: seq<int>)
    requires p.horizons != [] && Stands(m, symbol, flags) && symbol != visited
    ensures Stands(Visit(m, u, visited, i, day, p, src), symbol, flags)
  {
    assert (m.flags + [(visited, i)])[..|m.flags|] == m.flags;
  }

  lemma VisitSelf(m: Memory, u: PitUniverse, i: int, day: int, p: Pattern, src: Sources, symbol: string,
                  flags: seq<int>)
    requires p.horizons != [] && Stands(m, symbol, flags)
    ensures Stands(Visit(m, u, symbol, i, day, p, src), symbol,
                   Next(flags, i, OnTrack(u, symbol, p.track) && src.hit(symbol, day), MaxHorizon(p.horizons)))
  {
    assert (m.flags + [(symbol, i)])[..|m.flags|] == m.flags;
  }

  /** A day moves the symbol on once if it is listed, however often, and not at all otherwise. */
  lemma {:induction false} DayCollapses(m: Memory, u: PitUniverse, symbols: seq<string>, i: int, day: int, p: Pattern,
                                        src: Sources, symbol: string, flags: seq<int>)
    requires p.horizons != [] && Stands(m, symbol, flags)
    ensures Stands(VisitDay(m, u, symbols, i, day, p, src), symbol,
                   Next(flags, i, symbol in symbols && OnTrack(u, symbol, p.track) && src.hit(symbol, day),
                        MaxHorizon(p.horizons)))
  {
    if symbols != [] {
      var front, last := symbols[..|symbols| - 1], symbols[|symbols| - 1];
      var h := MaxHorizon(p.horizons);
      var hit := OnTrack(u, symbol, p.track) && src.hit(symbol, day);
      DayCollapses(m, u, front, i, day, p, src, symbol, flags);
      var before := VisitDay(m, u, front, i, day, p, src);
      var sofar := Next(flags, i, symbol in front && hit, h);
      assert symbols == front + [last];
      if last == symbol {
        VisitSelf(before, u, i, day, p, src, symbol, sofar);
      } else {
        VisitOther(before, u, last, i, day, p, src, symbol, sofar);
      }
    }
  }

  /** What the scan flags for a symbol is the greedy collapse of its hits. */
  lemma {:induction false} ScanIsGreedy(days: seq<int>, p: Pattern, src: Sources, symbol: string)
    requires p.horizons != [] && PointInTime(days, src)
    ensures Stands(VisitAll(days, p, src), symbol, Greedy(Hits(symbol, days, p, src), MaxHorizon(p.horizons)))
  {
    if days != [] {
      var i := |days| - 1;
      ScanIsGreedy(days[..i], p, src, symbol);
      var u := src.universe(days[i]).value;
      var hits := Hits(symbol, days, p, src);
      assert hits[..i] == Hits(symbol, days[..i], p, src);
      DayCollapses(VisitAll(days[..i], p, src), u, u.symbols, i, days[i], p, src, symbol,
                   Greedy(hits[..i], MaxHorizon(p.horizons)));
    }
  }

  /** The scan as a whole: per symbol its flags are a largest possible selection of hits at least
      the longest horizon apart, and every other hit is within that horizon after a flag. */
  lemma ScanIsOptimal(days: seq<int>, p: Pattern, src: Sources, symbol: string, other: seq<int>)
    requires p.horizons != [] && PointInTime(days, src)
    requires IsSelection(other, Hits(symbol, days, p, src), MaxHorizon(p.horizons))
    ensures var flags, hits, h :=
              FlagsOf(VisitAll(days, p, src).flags, symbol), Hits(symbol, days, p, src), MaxHorizon(p.horizons);
            && IsSelection(flags, hits, h) && |other| <= |flags|
            && forall i :: 0 <= i < |days| && hits[i] ==> exists k :: 0 <= k < |flags| && flags[k] <= i < flags[k] + h
  {
    var hits, h := Hits(symbol, days, p, src), MaxHorizon(p.horizons);
    ScanIsGreedy(days, p, src, symbol);
    GreedyIsSelection(hits, h);
    GreedyIsOptimal(hits, h, other);
    forall i | 0 <= i < |days| && hits[i]
      ensures exists k :: 0 <= k < |Greedy(hits, h)| && Greedy(hits, h)[k] <= i < Greedy(hits, h)[k] + h
    {
      SuppressedHitIsCovered(hits, h, i);
    }
  }

  /** `more` starts with `flags`, and the rest are flags from day `n` on. */
  ghost predicate Extends(more: seq<(string, int)>, flags: seq<(string, int)>, n: int) {
    flags <= more && forall k :: |flags| <= k < |more| ==> more[k].1 >= n
  }

  /** Scanning more days keeps every earlier flag and adds none on the earlier days. */
  lemma {:induction false} LongerScanExtends(days: seq<int>, p: Pattern, src: Sources, n: nat)
    requires p.horizons != [] && PointInTime(days, src) && n <= |days|
    ensures Extends(VisitAll(days, p, src).flags, VisitAll(days[..n], p, src).flags, n)
    decreases |days|
  {
    if n == |days| {
      assert days[..n] == days;
    } else {
      var i := |days| - 1;
      LongerScanExtends(days[..i], p, src, n);
      assert days[..i][..n] == days[..n];
      var u := src.universe(days[i]).value;
      DayAppends(VisitAll(days[..i], p, src), u, u.symbols, i, days[i], p, src);
    }
  }

  lemma {:induction false} DayAppends(m: Memory, u: PitUniverse, symbols: seq<string>, i: int, day: int, p: Pattern,
                                      src: Sources)
    requires p.horizons != []
    ensures Extends(VisitDay(m, u, symbols, i, day, p, src).flags, m.flags, i)
  {
    if symbols != [] {
      DayAppends(m, u, symbols[..|symbols| - 1], i, day, p, src);
    }
  }
}
