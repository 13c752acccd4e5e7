/** `currentflow/patterns/outcome.py`: what became of one flagged instance. */
module Outcome {
  import opened Models
  import opened Sequences
  import opened Scan

  datatype Direction = Up | Down

  datatype OutcomeSpec = OutcomeSpec(target: real, direction: Direction)

  datatype Verdict = Open | Hit | Miss | TerminalDelist

  datatype Resolution = Resolution(verdict: Verdict, on: Option<int>)

  /** The bar has a close the source treats as true: present and not zero. */
  predicate Closed(b: DailyBar) { b.close.Some? && b.close.value != 0.0 }

  function Prior(traded: seq<DailyBar>, flag: int): seq<DailyBar> {
    Filter(traded, (b: DailyBar) => b.date < flag && Closed(b))
  }

  function Forward(traded: seq<DailyBar>, flag: int): seq<DailyBar> {
    Filter(traded, (b: DailyBar) => b.date >= flag && Closed(b))
  }

  function Take(xs: seq<DailyBar>, h: nat): (ys: seq<DailyBar>)
    ensures ys <= xs && |ys| <= h
  {
    if |xs| <= h then xs else xs[..h]
  }

  /** Entry: the last close strictly before the flag. */
  function Entry(traded: seq<DailyBar>, flag: int): (entry: real)
    requires Prior(traded, flag) != []
    ensures entry != 0.0
  {
    var prior := Prior(traded, flag);
    assert prior[|prior| - 1] in prior;
    prior[|prior| - 1].close.value
  }

  predicate Reaches(b: DailyBar, entry: real, spec: OutcomeSpec)
    requires Closed(b) && entry != 0.0
  {
    var ret := b.close.value / entry - 1.0;
    if spec.direction == Up then ret >= spec.target else ret <= spec.target
  }

  ghost predicate AllClosed(bars: seq<DailyBar>) {
    forall i :: 0 <= i < |bars| ==> Closed(bars[i])
  }

  lemma ForwardClosed(traded: seq<DailyBar>, flag: int)
    ensures AllClosed(Forward(traded, flag))
    ensures forall i :: 0 <= i < |Forward(traded, flag)| ==> Forward(traded, flag)[i].date >= flag
  {
    var fwd := Forward(traded, flag);
    forall i | 0 <= i < |fwd| ensures Closed(fwd[i]) && fwd[i].date >= flag {
      assert fwd[i] in fwd;
    }
  }

  function FirstHit(bars: seq<DailyBar>, entry: real, spec: OutcomeSpec): (k: nat)
    requires AllClosed(bars) && entry != 0.0
    ensures k <= |bars| && (k < |bars| ==> Reaches(bars[k], entry, spec))
    ensures forall i :: 0 <= i < k ==> !Reaches(bars[i], entry, spec)
  {
    if bars == [] || Reaches(bars[0], entry, spec) then 0 else 1 + FirstHit(bars[1..], entry, spec)
  }

  /** `resolve_instance`, as a function of its arguments. */
  function Resolve(traded: seq<DailyBar>, flag: int, horizon: Horizon, spec: OutcomeSpec,
                   latest: Option<int>): Resolution {
    if Prior(traded, flag) == [] then Resolution(Open, None)
    else
      ForwardClosed(traded, flag);
      var fwd := Take(Forward(traded, flag), horizon);
      var k := FirstHit(fwd, Entry(traded, flag), spec);
      var nameLast := if traded != [] then traded[|traded| - 1].date else flag;
      if k < |fwd| then Resolution(Hit, Some(fwd[k].date))
      else if |fwd| >= horizon then Resolution(Miss, Some(fwd[|fwd| - 1].date))
      else if latest.Some? && nameLast < latest.value then Resolution(TerminalDelist, Some(nameLast))
      else Resolution(Open, None)
  }

  method ResolveInstance(traded: seq<DailyBar>, flag: int, horizon: Horizon, spec: OutcomeSpec, latest: Option<int>)
    returns (r: Resolution)
    ensures r == Resolve(traded, flag, horizon, spec, latest)
  {
    var prior := Prior(traded, flag);
    if prior == [] {
      return Resolution(Open, None);
    }
    var entry := Entry(traded, flag);
    ForwardClosed(traded, flag);
    var fwd := Take(Forward(traded, flag), horizon);
    for k := 0 to |fwd|
      invariant forall i :: 0 <= i < k ==> !Reaches(fwd[i], entry, spec)
    {
      if Reaches(fwd[k], entry, spec) {
        return Resolution(Hit, Some(fwd[k].date));
      }
    }
    if |fwd| >= horizon {
      return Resolution(Miss, Some(fwd[|fwd| - 1].date));
    }
    var nameLast := if traded != [] then traded[|traded| - 1].date else flag;
    if latest.Some? && nameLast < latest.value {
      return Resolution(TerminalDelist, Some(nameLast));
    }
    return Resolution(Open, None);
  }

  // ---- a hit is the earliest qualifying bar of the window -------------------------------------

  lemma {:induction false} FilterRank<T>(xs: seq<T>, keep: T -> bool, j: nat)
    requires j < |xs| && keep(xs[j])
    ensures var k := |Filter(xs[..j], keep)|; k < |Filter(xs, keep)| && Filter(xs, keep)[k] == xs[j]
    ensures Filter(xs[..j], keep) <= Filter(xs, keep)
  {
    FilterAppend(xs[..j], xs[j..], keep);
    assert xs == xs[..j] + xs[j..];
  }

  lemma {:induction false} FilterSource<T>(xs: seq<T>, keep: T -> bool, k: nat) returns (j: nat)
    requires k < |Filter(xs, keep)|
    ensures j < |xs| && keep(xs[j]) && xs[j] == Filter(xs, keep)[k] && |Filter(xs[..j], keep)| == k
  {
    if keep(xs[0]) && k == 0 {
      j := 0;
    } else {
      var front := if keep(xs[0]) then 1 else 0;
      var i := FilterSource(xs[1..], keep, k - front);
      j := i + 1;
      assert xs[..j] == [xs[0]] + xs[1..][..i];
    }
  }

  /** Bar `j` is in the window of the flag and the first of it to reach the target. */
  ghost predicate FirstToReach(traded: seq<DailyBar>, flag: int, horizon: Horizon, spec: OutcomeSpec, j: nat)
    requires j < |traded| && Prior(traded, flag) != []
  {
    var entry := Entry(traded, flag);
    && InWindow(traded, flag, horizon, j) && Reaches(traded[j], entry, spec)
    && forall i :: 0 <= i < j && InWindow(traded, flag, horizon, i) ==> !Reaches(traded[i], entry, spec)
  }

  /** One of the first `horizon` closed bars from the flag day on. */
  ghost predicate InWindow(traded: seq<DailyBar>, flag: int, horizon: Horizon, j: nat)
    requires j < |traded|
  {
    traded[j].date >= flag && Closed(traded[j]) && |Forward(traded[..j], flag)| < horizon
  }

  /** HIT exactly when some bar of the window reaches the target, and then on the earliest one. */
  lemma HitIsEarliest(traded: seq<DailyBar>, flag: int, horizon: Horizon, spec: OutcomeSpec, latest: Option<int>)
    requires Prior(traded, flag) != []
    ensures var r := Resolve(traded, flag, horizon, spec, latest);
            && (r.verdict == Hit ==>
                  exists j: nat ::
                    j < |traded| && FirstToReach(traded, flag, horizon, spec, j) && r.on == Some(traded[j].date))
            && (forall j: nat ::
                  j < |traded| && FirstToReach(traded, flag, horizon, spec, j) ==>
                    r == Resolution(Hit, Some(traded[j].date)))
  {
    var keep := (b: DailyBar) => b.date >= flag && Closed(b);
    var entry, all := Entry(traded, flag), Forward(traded, flag);
    ForwardClosed(traded, flag);
    var fwd := Take(all, horizon);
    var k := FirstHit(fwd, entry, spec);
    forall j: nat | j < |traded| && InWindow(traded, flag, horizon, j)
      ensures |Forward(traded[..j], flag)| < |fwd| && fwd[|Forward(traded[..j], flag)|] == traded[j]
    {
      FilterRank(traded, keep, j);
    }
    if k < |fwd| {
      var j := FilterSource(traded, keep, k);
      SourceIsFirst(traded, flag, horizon, spec, fwd, k, j);
      forall i: nat | i < |traded| && FirstToReach(traded, flag, horizon, spec, i) ensures i == j {
        FirstIsUnique(traded, flag, horizon, spec, i, j);
      }
    }
  }

  lemma FirstIsUnique(traded: seq<DailyBar>, flag: int, horizon: Horizon, spec: OutcomeSpec, i: nat, j: nat)
    requires Prior(traded, flag) != [] && i < |traded| && j < |traded|
    requires FirstToReach(traded, flag, horizon, spec, i) && FirstToReach(traded, flag, horizon, spec, j)
    ensures i == j
  {
  }

  /** The bar behind the first hit of the window is the first to reach the target. */
  lemma SourceIsFirst(traded: seq<DailyBar>, flag: int, horizon: Horizon, spec: OutcomeSpec, fwd: seq<DailyBar>,
                      k: nat, j: nat)
    requires Prior(traded, flag) != [] && AllClosed(fwd) && k < |fwd| <= horizon
             && k == FirstHit(fwd, Entry(traded, flag), spec)
    requires j < |traded| && traded[j] == fwd[k] && traded[j].date >= flag && |Forward(traded[..j], flag)| == k
    requires forall i: nat :: i < |traded| && InWindow(traded, flag, horizon, i) ==>
               |Forward(traded[..i], flag)| < |fwd| && fwd[|Forward(traded[..i], flag)|] == traded[i]
    ensures FirstToReach(traded, flag, horizon, spec, j)
  {
    var keep := (b: DailyBar) => b.date >= flag && Closed(b);
    forall i | 0 <= i < j && InWindow(traded, flag, horizon, i) ensures !Reaches(traded[i], Entry(traded, flag), spec) {
      FilterRank(traded[..j], keep, i);
      assert traded[..j][..i] == traded[..i];
    }
  }

  // ---- horizons -----------------------------------------------------------------------------------

  /** A hit is the same hit at every longer horizon; a miss is a miss at every shorter one. */
  lemma LongerHorizonKeepsHit(traded: seq<DailyBar>, flag: int, short: Horizon, long: Horizon, spec: OutcomeSpec,
                              latest: Option<int>)
    requires short <= long
    ensures var r, q := Resolve(traded, flag, short, spec, latest), Resolve(traded, flag, long, spec, latest);
            && (r.verdict == Hit ==> q == r)
            && (q.verdict == Miss ==> r.verdict == Miss)
  {
    if Prior(traded, flag) != [] {
      ForwardClosed(traded, flag);
      var entry, all := Entry(traded, flag), Forward(traded, flag);
      assert Take(all, short) <= Take(all, long);
      HitsAgree(Take(all, short), Take(all, long), entry, spec);
    }
  }

  lemma HitsAgree(xs: seq<DailyBar>, ys: seq<DailyBar>, entry: real, spec: OutcomeSpec)
    requires xs <= ys && AllClosed(ys) && entry != 0.0
    ensures FirstHit(xs, entry, spec) < |xs| ==> FirstHit(ys, entry, spec) == FirstHit(xs, entry, spec)
    ensures FirstHit(xs, entry, spec) == |xs| ==> FirstHit(ys, entry, spec) >= |xs|
  {
    var i, j := FirstHit(xs, entry, spec), FirstHit(ys, entry, spec);
    assert i < |xs| ==> Reaches(ys[i], entry, spec);
    assert j < |xs| ==> Reaches(xs[j], entry, spec);
  }

  // ---- later bars ---------------------------------------------------------------------------------

  /** The bars read later: the same bars, with bars of no earlier date after them. */
  ghost predicate Continues(traded: seq<DailyBar>, more: seq<DailyBar>) {
    traded <= more && SortedBy(more, ByDate)
  }

  lemma PriorStable(traded: seq<DailyBar>, more: seq<DailyBar>, flag: int)
    requires Continues(traded, more) && Forward(traded, flag) != []
    ensures Prior(more, flag) == Prior(traded, flag)
    ensures Forward(traded, flag) <= Forward(more, flag)
  {
    var n := |traded|;
    var rest := more[n..];
    assert more == traded + rest;
    var before, from := (b: DailyBar) => b.date < flag && Closed(b), (b: DailyBar) => b.date >= flag && Closed(b);
    FilterAppend(traded, rest, before);
    FilterAppend(traded, rest, from);
    assert Forward(traded, flag)[0] in Forward(traded, flag);
    var i :| 0 <= i < n && traded[i].date >= flag;
    forall k | 0 <= k < |rest| ensures !before(rest[k]) {
      assert ByDate(more[i], more[n + k]);
    }
    FilterNone(rest, before);
  }

  /** HIT and MISS are unchanged when later bars arrive, whatever the market's latest date. */
  lemma SettledIsStable(traded: seq<DailyBar>, more: seq<DailyBar>, flag: int, horizon: Horizon, spec: OutcomeSpec,
                        before: Option<int>, after: Option<int>)
    requires Continues(traded, more)
    requires Resolve(traded, flag, horizon, spec, before).verdict in {Hit, Miss}
    ensures Resolve(more, flag, horizon, spec, after) == Resolve(traded, flag, horizon, spec, before)
  {
    ForwardClosed(traded, flag);
    ForwardClosed(more, flag);
    PriorStable(traded, more, flag);
    var xs, ys := Take(Forward(traded, flag), horizon), Take(Forward(more, flag), horizon);
    assert xs <= ys;
    HitsAgree(xs, ys, Entry(traded, flag), spec);
  }

  /** Later bars can still come before the flag: the name has printed nothing on or after it. */
  predicate BeforeFlag(traded: seq<DailyBar>, flag: int) {
    traded == [] || traded[|traded| - 1].date < flag
  }

  /** No bar and no market date can change the resolution. */
  ghost predicate IsFinal(traded: seq<DailyBar>, flag: int, horizon: Horizon, spec: OutcomeSpec, latest: Option<int>) {
    forall more, later :: Continues(traded, more) ==>
      Resolve(more, flag, horizon, spec, later) == Resolve(traded, flag, horizon, spec, latest)
  }

  /** Exactly which outcomes later bars cannot revise: HIT, MISS, and the OPEN of an instance that can
      no longer get an entry price.  A TERMINAL_DELIST is taken back when the name prints again. */
  lemma FinalIff(traded: seq<DailyBar>, flag: int, horizon: Horizon, spec: OutcomeSpec, latest: Option<int>)
    requires SortedBy(traded, ByDate)
    ensures IsFinal(traded, flag, horizon, spec, latest)
            <==> Resolve(traded, flag, horizon, spec, latest).verdict in {Hit, Miss}
                 || (Prior(traded, flag) == [] && !BeforeFlag(traded, flag))
  {
    var r := Resolve(traded, flag, horizon, spec, latest);
    if r.verdict in {Hit, Miss} {
      forall more, later | Continues(traded, more) ensures Resolve(more, flag, horizon, spec, later) == r {
        SettledIsStable(traded, more, flag, horizon, spec, latest, later);
      }
    } else if Prior(traded, flag) == [] && !BeforeFlag(traded, flag) {
      forall more, later | Continues(traded, more) ensures Resolve(more, flag, horizon, spec, later) == r {
        NoEntryIsOpen(traded, more, flag);
      }
    } else {
      OpenIsNotFinal(traded, flag, horizon, spec, latest);
    }
  }

  /** Without an entry price and with a bar on or after the flag, no entry price can come. */
  lemma NoEntryIsOpen(traded: seq<DailyBar>, more: seq<DailyBar>, flag: int)
    requires Continues(traded, more) && Prior(traded, flag) == [] && !BeforeFlag(traded, flag)
    ensures Prior(more, flag) == []
  {
    var n := |traded|;
    var rest := more[n..];
    assert more == traded + rest;
    var before := (b: DailyBar) => b.date < flag && Closed(b);
    FilterAppend(traded, rest, before);
    forall k | 0 <= k < |rest| ensures !before(rest[k]) {
      assert ByDate(more[n - 1], more[n + k]);
    }
    FilterNone(rest, before);
  }

  lemma OpenIsNotFinal(traded: seq<DailyBar>, flag: int, horizon: Horizon, spec: OutcomeSpec, latest: Option<int>)
    requires SortedBy(traded, ByDate) && Resolve(traded, flag, horizon, spec, latest).verdict in {Open, TerminalDelist}
    requires Prior(traded, flag) != [] || BeforeFlag(traded, flag)
    ensures !IsFinal(traded, flag, horizon, spec, latest)
  {
    if Resolve(traded, flag, horizon, spec, latest).verdict == TerminalDelist {
      TerminalReopens(traded, flag, horizon, spec, latest);
    } else if Prior(traded, flag) != [] {
      assert Continues(traded, traded);
      var later := Some(traded[|traded| - 1].date + 1);
      assert Resolve(traded, flag, horizon, spec, later).verdict == TerminalDelist;
    } else {
      EntryCanCome(traded, flag, horizon, spec);
    }
  }

  /** A name with no bar on or after the flag can still get an entry price, and then stop trading. */
  lemma EntryCanCome(traded: seq<DailyBar>, flag: int, horizon: Horizon, spec: OutcomeSpec)
    requires SortedBy(traded, ByDate) && BeforeFlag(traded, flag)
    ensures exists more, later ::
              Continues(traded, more) && Resolve(more, flag, horizon, spec, later).verdict == TerminalDelist
  {
    var bar := DailyBar(flag - 1, TRADED, None, None, None, Some(1.0), None);
    var more := traded + [bar];
    var before, from := (b: DailyBar) => b.date < flag && Closed(b), (b: DailyBar) => b.date >= flag && Closed(b);
    FilterAppend(traded, [bar], before);
    FilterComplete([bar], before, bar);
    if traded != [] {
      LaterBarContinues(traded, bar);
    }
    forall i | 0 <= i < |more| ensures !from(more[i]) {
      assert i < |traded| ==> i == |traded| - 1 || ByDate(traded[i], traded[|traded| - 1]);
    }
    FilterNone(more, from);
    assert Continues(traded, more);
    assert Resolve(more, flag, horizon, spec, Some(flag)).verdict == TerminalDelist;
  }

  lemma UnclosedBar(traded: seq<DailyBar>, bar: DailyBar, flag: int)
    requires !Closed(bar)
    ensures Prior(traded + [bar], flag) == Prior(traded, flag) && Forward(traded + [bar], flag) == Forward(traded, flag)
  {
    var before, from := (b: DailyBar) => b.date < flag && Closed(b), (b: DailyBar) => b.date >= flag && Closed(b);
    FilterAppend(traded, [bar], before);
    FilterAppend(traded, [bar], from);
    FilterNone([bar], before);
    FilterNone([bar], from);
  }

  lemma LaterBarContinues(traded: seq<DailyBar>, bar: DailyBar)
    requires SortedBy(traded, ByDate) && traded != [] && traded[|traded| - 1].date <= bar.date
    ensures Continues(traded, traded + [bar])
  {
    forall i | 0 <= i < |traded| ensures ByDate(traded[i], bar) {
      assert i == |traded| - 1 || ByDate(traded[i], traded[|traded| - 1]);
    }
  }

  /** A name that has printed on the market's latest date, whatever its closes, is not terminal; and
      every terminal outcome goes back to OPEN under one more bar, printed on that date without a
      close. */
  lemma TerminalReopens(traded: seq<DailyBar>, flag: int, horizon: Horizon, spec: OutcomeSpec, latest: Option<int>)
    requires SortedBy(traded, ByDate)
    requires Resolve(traded, flag, horizon, spec, latest).verdict == TerminalDelist
    ensures forall more: seq<DailyBar> :: Continues(traded, more) && more[|more| - 1].date >= latest.value ==>
              Resolve(more, flag, horizon, spec, latest).verdict != TerminalDelist
    ensures exists more :: Continues(traded, more) && Resolve(more, flag, horizon, spec, latest).verdict == Open
  {
    var bar := DailyBar(latest.value, TRADED, None, None, None, None, None);
    var more := traded + [bar];
    UnclosedBar(traded, bar, flag);
    LaterBarContinues(traded, bar);
    assert Continues(traded, more);
    assert Resolve(more, flag, horizon, spec, latest).verdict == Open;
  }
}
