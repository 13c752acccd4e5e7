/** Bar hygiene shared by the phase classifier and the bar-character ribbon: the `_complete` of
    `currentflow/signals/phase.py` and `currentflow/signals/vpa.py`. */
module Bars {
  import opened Models
  import opened Sequences

  predicate IsComplete(b: DailyBar) {
    b.status == TRADED && b.open.Some? && b.high.Some? && b.low.Some? && b.close.Some? && b.volume.Some?
  }

  function ToBar(b: DailyBar): Bar
    requires IsComplete(b)
  {
    Bar(b.date, b.open.value, b.high.value, b.low.value, b.close.value, b.volume.value)
  }

  /** The complete TRADED bars of a list in date order. */
  function Kept(bars: seq<DailyBar>): seq<Bar> {
    if bars == [] then []
    else if IsComplete(bars[0]) then [ToBar(bars[0])] + Kept(bars[1..])
    else Kept(bars[1..])
  }

  function Complete(bars: seq<DailyBar>): seq<Bar> { Kept(Sort(bars, ByDate)) }

  /** The last `n` elements. */
  function Last(bars: seq<Bar>, n: nat): (r: seq<Bar>)
    ensures |r| == if n <= |bars| then n else |bars|
    ensures forall i :: 0 <= i < |r| ==> r[i] == bars[|bars| - |r| + i]
  {
    if n >= |bars| then bars else bars[|bars| - n..]
  }

  function VolumesOf(bars: seq<Bar>): (r: seq<real>)
    ensures |r| == |bars| && forall i :: 0 <= i < |r| ==> r[i] == bars[i].volume
  {
    seq(|bars|, i requires 0 <= i < |bars| => bars[i].volume)
  }

  function Mean(xs: seq<real>): real { if xs == [] then 0.0 else Sum(xs) / |xs| as real }

  /** `_complete`. */
  method CompleteBars(bars: seq<DailyBar>) returns (r: seq<Bar>, dropped: nat)
    ensures r == Complete(bars)
    ensures dropped == |bars| - |r|
  {
    hide ToBar, IsComplete, Sort;
    var sorted := Sort(bars, ByDate);
    r, dropped := [], 0;
    for i := 0 to |sorted|
      invariant r + Kept(sorted[i..]) == Kept(sorted)
      invariant |r| + dropped == i
    {
      assert sorted[i..] == [sorted[i]] + sorted[i + 1..];
      if IsComplete(sorted[i]) {
        r := r + [ToBar(sorted[i])];
      } else {
        dropped := dropped + 1;
      }
    }
  }

  /** Every complete bar comes from the list, and each one of the list is there. */
  lemma {:induction false} KeptFrom(bars: seq<DailyBar>, b: Bar)
    ensures b in Kept(bars) <==> exists i :: 0 <= i < |bars| && IsComplete(bars[i]) && ToBar(bars[i]) == b
  {
    if bars != [] {
      KeptFrom(bars[1..], b);
      if IsComplete(bars[0]) {
        assert Kept(bars) == [ToBar(bars[0])] + Kept(bars[1..]);
      }
      assert forall i :: 0 < i < |bars| ==> bars[i] == bars[1..][i - 1];
      assert forall i :: 0 <= i < |bars| - 1 ==> bars[1..][i] == bars[i + 1];
    }
  }

  lemma CompleteFrom(bars: seq<DailyBar>, b: Bar)
    ensures b in Complete(bars) <==> exists i :: 0 <= i < |bars| && IsComplete(bars[i]) && ToBar(bars[i]) == b
  {
    var sorted := Sort(bars, ByDate);
    KeptFrom(sorted, b);
    InMultiset(bars, sorted);
    if b in Complete(bars) {
      var i :| 0 <= i < |sorted| && IsComplete(sorted[i]) && ToBar(sorted[i]) == b;
      assert sorted[i] in sorted;
      var j :| 0 <= j < |bars| && bars[j] == sorted[i];
    }
    if i :| 0 <= i < |bars| && IsComplete(bars[i]) && ToBar(bars[i]) == b {
      assert bars[i] in bars;
      var j :| 0 <= j < |sorted| && sorted[j] == bars[i];
    }
  }

  // ---- scaling -----------------------------------------------------------------------------------------

  function Mul(k: real, x: real): real { k * x }

  function Times(x: Option<real>, k: real): Option<real> { if x.Some? then Some(Mul(k, x.value)) else None }

  /** Every price times `k`, every volume times `m`. */
  function Scaled(b: DailyBar, k: real, m: real): DailyBar {
    DailyBar(b.date, b.status, Times(b.open, k), Times(b.high, k), Times(b.low, k), Times(b.close, k),
             Times(b.volume, m))
  }

  function ScaledBar(b: Bar, k: real, m: real): Bar {
    Bar(b.date, Mul(k, b.open), Mul(k, b.high), Mul(k, b.low), Mul(k, b.close), Mul(m, b.volume))
  }

  function ScaledAll(bars: seq<DailyBar>, k: real, m: real): (r: seq<DailyBar>)
    ensures |r| == |bars| && forall i :: 0 <= i < |r| ==> r[i] == Scaled(bars[i], k, m)
  {
    seq(|bars|, i requires 0 <= i < |bars| => Scaled(bars[i], k, m))
  }

  function ScaledBars(bars: seq<Bar>, k: real, m: real): (r: seq<Bar>)
    ensures |r| == |bars| && forall i :: 0 <= i < |r| ==> r[i] == ScaledBar(bars[i], k, m)
  {
    seq(|bars|, i requires 0 <= i < |bars| => ScaledBar(bars[i], k, m))
  }

  lemma ScaledCons(b: DailyBar, bars: seq<DailyBar>, k: real, m: real)
    ensures ScaledAll([b] + bars, k, m) == [Scaled(b, k, m)] + ScaledAll(bars, k, m)
  {
  }

  lemma ScaledBarsCons(b: Bar, bars: seq<Bar>, k: real, m: real)
    ensures ScaledBars([b] + bars, k, m) == [ScaledBar(b, k, m)] + ScaledBars(bars, k, m)
  {
  }

  lemma {:induction false} InsertScaled(b: DailyBar, bars: seq<DailyBar>, k: real, m: real)
    ensures ScaledAll(Insert(b, bars, ByDate), k, m) == Insert(Scaled(b, k, m), ScaledAll(bars, k, m), ByDate)
  {
    ScaledCons(b, bars, k, m);
    if bars != [] {
      var c, rest := bars[0], bars[1..];
      assert bars == [c] + rest;
      InsertStep(b, c, rest, ByDate);
      InsertStep(Scaled(b, k, m), Scaled(c, k, m), ScaledAll(rest, k, m), ByDate);
      InsertScaled(b, rest, k, m);
      ScaledCons(c, rest, k, m);
      ScaledCons(c, Insert(b, rest, ByDate), k, m);
    }
  }

  lemma {:induction false} SortScaled(bars: seq<DailyBar>, k: real, m: real)
    ensures ScaledAll(Sort(bars, ByDate), k, m) == Sort(ScaledAll(bars, k, m), ByDate)
  {
    if bars != [] {
      var b, rest := bars[0], bars[1..];
      assert bars == [b] + rest;
      SortStep(b, rest, ByDate);
      SortScaled(rest, k, m);
      InsertScaled(b, Sort(rest, ByDate), k, m);
      ScaledCons(b, rest, k, m);
      SortStep(Scaled(b, k, m), ScaledAll(rest, k, m), ByDate);
    }
  }

  lemma {:induction false} KeptScaled(bars: seq<DailyBar>, k: real, m: real)
    ensures ScaledBars(Kept(bars), k, m) == Kept(ScaledAll(bars, k, m))
  {
    if bars != [] {
      var b, rest := bars[0], bars[1..];
      KeptScaled(rest, k, m);
      assert ScaledAll(bars, k, m)[1..] == ScaledAll(rest, k, m);
      if IsComplete(b) {
        ScaledBarsCons(ToBar(b), Kept(rest), k, m);
        assert ToBar(Scaled(b, k, m)) == ScaledBar(ToBar(b), k, m);
      }
    }
  }

  /** Hygiene commutes with scaling: the same bars are complete, in the same order. */
  lemma CompleteScaled(bars: seq<DailyBar>, k: real, m: real)
    ensures Complete(ScaledAll(bars, k, m)) == ScaledBars(Complete(bars), k, m)
  {
    SortScaled(bars, k, m);
    KeptScaled(Sort(bars, ByDate), k, m);
  }
}
