/** The value area of `currentflow/signals/volume_profile.py`: a band grown from the point of
    control, one bucket at a time, always into the heavier neighbour, until it holds the target
    share of the volume. */
module ValueArea {
  import opened Sequences

  /** A band of buckets, both ends inclusive. */
  datatype Band = Band(lo: nat, hi: nat)

  predicate InBand(band: Band, i: int) { band.lo <= i <= band.hi }

  predicate IsBand(vols: seq<real>, band: Band) { band.lo <= band.hi < |vols| }

  function BandSum(vols: seq<real>, band: Band): real
    requires IsBand(vols, band)
  {
    Sum(vols[band.lo..band.hi + 1])
  }

  function Width(band: Band): int { band.hi + 1 - band.lo }

  predicate CanGrow(vols: seq<real>, band: Band) {
    band.lo > 0 || band.hi < |vols| - 1
  }

  /** One bucket more: the heavier neighbour, ties to the upper side. */
  function Step(vols: seq<real>, band: Band): (next: Band)
    requires IsBand(vols, band) && CanGrow(vols, band)
    ensures IsBand(vols, next)
    ensures next == Band(band.lo, band.hi + 1) || (band.lo > 0 && next == Band(band.lo - 1, band.hi))
  {
    var below := if band.lo > 0 then vols[band.lo - 1] else -1.0;
    var above := if band.hi < |vols| - 1 then vols[band.hi + 1] else -1.0;
    if above >= below && band.hi < |vols| - 1 then Band(band.lo, band.hi + 1)
    else if band.lo > 0 then Band(band.lo - 1, band.hi)
    else Band(band.lo, band.hi + 1)
  }

  function Grow(vols: seq<real>, target: real, band: Band): (final: Band)
    requires IsBand(vols, band)
    ensures IsBand(vols, final)
    ensures final.lo <= band.lo && band.hi <= final.hi
    decreases |vols| - Width(band)
  {
    if BandSum(vols, band) < target && CanGrow(vols, band) then Grow(vols, target, Step(vols, band))
    else band
  }

  lemma StepSum(vols: seq<real>, band: Band)
    requires IsBand(vols, band) && CanGrow(vols, band)
    ensures var next := Step(vols, band);
            BandSum(vols, next)
            == BandSum(vols, band) + if next.hi > band.hi then vols[next.hi] else vols[next.lo]
  {
    if Step(vols, band).hi > band.hi {
      SumStep(vols, band.lo, band.hi + 1);
    } else {
      SumStepLeft(vols, band.lo - 1, band.hi + 1);
    }
  }

  /** The loop body of `_value_area`: the heavier neighbour joins the band. */
  method TakeHeavier(vols: seq<real>, lo: nat, hi: nat, acc: real) returns (newLo: nat, newHi: nat, newAcc: real)
    requires NonNegative(vols) && lo <= hi < |vols| && CanGrow(vols, Band(lo, hi)) && acc == BandSum(vols, Band(lo, hi))
    ensures newLo <= newHi < |vols| && Band(newLo, newHi) == Step(vols, Band(lo, hi))
    ensures newAcc == BandSum(vols, Band(newLo, newHi))
  {
    var below := if lo > 0 then vols[lo - 1] else -1.0;
    var above := if hi < |vols| - 1 then vols[hi + 1] else -1.0;
    StepSum(vols, Band(lo, hi));
    if above >= below {
      newLo, newHi, newAcc := lo, hi + 1, acc + vols[hi + 1];
    } else {
      newLo, newHi, newAcc := lo - 1, hi, acc + vols[lo - 1];
    }
  }

  /** `_value_area`. */
  method Compute(vols: seq<real>, poc: nat, target: real) returns (band: Band, acc: real)
    requires poc < |vols| && NonNegative(vols)
    ensures band == Grow(vols, target, Band(poc, poc))
    ensures acc == BandSum(vols, band)
  {
    var lo, hi := poc, poc;
    ghost var goal := Grow(vols, target, Band(poc, poc));
    acc := vols[poc];
    assert vols[poc..poc + 1] == [] + [vols[poc]];
    SumSnoc([], vols[poc]);
    while acc < target && (lo > 0 || hi < |vols| - 1)
      invariant 0 <= lo <= hi < |vols|
      invariant acc == BandSum(vols, Band(lo, hi))
      invariant goal == Grow(vols, target, Band(lo, hi))
      decreases |vols| - (hi - lo)
    {
      lo, hi, acc := TakeHeavier(vols, lo, hi, acc);
    }
    band := Band(lo, hi);
  }

  // ---- what the band is worth -----------------------------------------------------------

  /** The band reaches the target whenever the whole window does. */
  lemma {:induction false} GrowReaches(vols: seq<real>, target: real, band: Band)
    requires IsBand(vols, band) && Sum(vols) >= target
    ensures BandSum(vols, Grow(vols, target, band)) >= target
    decreases |vols| - Width(band)
  {
    assert vols[0..|vols|] == vols;
    if BandSum(vols, band) < target && CanGrow(vols, band) {
      GrowReaches(vols, target, Step(vols, band));
    }
  }

  /** Nothing is taken beyond need: without the bucket taken last the band, when it is more than
      the start, falls short of the target. */
  lemma {:induction false} GrowIsTight(vols: seq<real>, target: real, band: Band)
    requires IsBand(vols, band)
    ensures IsTight(vols, target, band, Grow(vols, target, band))
    decreases |vols| - Width(band)
  {
    if BandSum(vols, band) < target && CanGrow(vols, band) {
      var next := Step(vols, band);
      GrowIsTight(vols, target, next);
      TightFromStep(vols, target, band, next, Grow(vols, target, next));
    }
  }

  ghost predicate FallsShort(vols: seq<real>, target: real, band: Band) {
    IsBand(vols, band) && BandSum(vols, band) < target
  }

  /** Nothing was taken, or without the last bucket taken the band falls short. */
  ghost predicate IsTight(vols: seq<real>, target: real, band: Band, final: Band) {
    || final == band
    || (final.lo < band.lo && FallsShort(vols, target, Band(final.lo + 1, final.hi)))
    || (band.hi < final.hi && FallsShort(vols, target, Band(final.lo, final.hi - 1)))
  }

  lemma TightFromStep(vols: seq<real>, target: real, band: Band, next: Band, final: Band)
    requires FallsShort(vols, target, band) && IsTight(vols, target, next, final)
    requires next == Band(band.lo, band.hi + 1) || (band.lo > 0 && next == Band(band.lo - 1, band.hi))
    ensures IsTight(vols, target, band, final)
  {
  }

  // ---- greedy is optimal on a single-peaked profile --------------------------------------

  ghost predicate Unimodal(vols: seq<real>, peak: nat) {
    && peak < |vols|
    && (forall i, j :: 0 <= i <= j <= peak ==> vols[i] <= vols[j])
    && (forall i, j :: peak <= i <= j < |vols| ==> vols[i] >= vols[j])
  }

  /** A choice of buckets, one flag a bucket. */
  function Chosen(pick: seq<bool>): (n: nat)
    ensures n <= |pick|
  {
    if pick == [] then 0 else Chosen(pick[..|pick| - 1]) + if pick[|pick| - 1] then 1 else 0
  }

  function PickSum(vols: seq<real>, pick: seq<bool>): real
    requires |vols| == |pick|
  {
    if pick == [] then 0.0
    else PickSum(vols[..|pick| - 1], pick[..|pick| - 1])
         + if pick[|pick| - 1] then vols[|pick| - 1] else 0.0
  }

  function BandPick(n: nat, band: Band): (pick: seq<bool>)
    ensures |pick| == n
    ensures forall i :: 0 <= i < n ==> pick[i] == InBand(band, i)
  {
    seq(n, i => InBand(band, i))
  }

  /** The band holds the heaviest buckets: no bucket outside outweighs one inside. */
  ghost predicate Dominates(vols: seq<real>, band: Band)
    requires IsBand(vols, band)
  {
    forall i, j :: 0 <= i < |vols| && !InBand(band, i) && 0 <= j < |vols| && InBand(band, j) ==>
      vols[i] <= vols[j]
  }

  lemma {:induction false} BandPickSum(vols: seq<real>, band: Band, n: nat)
    requires IsBand(vols, band) && n <= |vols|
    ensures PickSum(vols[..n], BandPick(n, band))
         == if n <= band.lo then 0.0
            else if n <= band.hi then Sum(vols[band.lo..n])
            else BandSum(vols, band)
    ensures Chosen(BandPick(n, band))
         == if n <= band.lo then 0 else if n <= band.hi then n - band.lo else Width(band)
  {
    if n > 0 {
      BandPickSum(vols, band, n - 1);
      assert BandPick(n, band)[..n - 1] == BandPick(n - 1, band);
      assert vols[..n][..n - 1] == vols[..n - 1];
      if n - 1 == band.lo {
        assert vols[band.lo..n - 1] == [];
      }
      if InBand(band, n - 1) {
        SumStep(vols, band.lo, n - 1);
      }
    }
  }

  /** Weights at least `theta` inside the first choice and at most `theta` outside it: `best`
      exceeds `theta` in total at least as much as `pick` does. */
  lemma {:induction false} Exchange(vols: seq<real>, best: seq<bool>, pick: seq<bool>, theta: real, tb: real, tp: real)
    requires |vols| == |best| == |pick|
    requires forall i :: 0 <= i < |vols| ==> if best[i] then vols[i] >= theta else vols[i] <= theta
    requires tb == Times(theta, Chosen(best)) && tp == Times(theta, Chosen(pick))
    ensures PickSum(vols, best) - tb >= PickSum(vols, pick) - tp
  {
    if vols != [] {
      var n := |vols| - 1;
      TimesStep(theta, Chosen(best[..n]));
      TimesStep(theta, Chosen(pick[..n]));
      Exchange(vols[..n], best[..n], pick[..n], theta,
               Times(theta, Chosen(best[..n])), Times(theta, Chosen(pick[..n])));
    }
  }

  function Times(theta: real, k: nat): real { theta * k as real }

  lemma TimesStep(theta: real, k: nat)
    ensures Times(theta, k + 1) == Times(theta, k) + theta
  {
  }

  lemma TimesMonotone(theta: real, j: nat, k: nat)
    requires theta >= 0.0 && j <= k
    ensures Times(theta, j) <= Times(theta, k)
  {
    assert theta * (k - j) as real >= 0.0;
  }

  /** A dominating band is worth at least any choice of as many buckets. */
  lemma DominatingBandIsBest(vols: seq<real>, band: Band, pick: seq<bool>)
    requires NonNegative(vols) && IsBand(vols, band) && Dominates(vols, band)
    requires |pick| == |vols| && Chosen(pick) <= Width(band)
    ensures PickSum(vols, pick) <= BandSum(vols, band)
  {
    var theta := LightestInside(vols, band);
    var best := BandPick(|vols|, band);
    BandIsChosen(vols, band);
    TimesMonotone(theta, Chosen(pick), Chosen(best));
    Exchange(vols, best, pick, theta, Times(theta, Chosen(best)), Times(theta, Chosen(pick)));
  }

  lemma BandIsChosen(vols: seq<real>, band: Band)
    requires IsBand(vols, band)
    ensures Chosen(BandPick(|vols|, band)) == Width(band)
    ensures PickSum(vols, BandPick(|vols|, band)) == BandSum(vols, band)
  {
    BandPickSum(vols, band, |vols|);
    assert vols[..|vols|] == vols;
  }

  lemma LightestInside(vols: seq<real>, band: Band) returns (theta: real)
    requires NonNegative(vols) && IsBand(vols, band) && Dominates(vols, band)
    ensures theta >= 0.0
    ensures forall i :: 0 <= i < |vols| ==> if InBand(band, i) then vols[i] >= theta else vols[i] <= theta
  {
    var at := band.lo;
    var k := band.lo;
    while k < band.hi
      invariant band.lo <= k <= band.hi && InBand(band, at)
      invariant forall j :: band.lo <= j <= k ==> vols[at] <= vols[j]
    {
      k := k + 1;
      if vols[k] < vols[at] { at := k; }
    }
    theta := vols[at];
  }

  /** On a single-peaked profile the greedy step keeps the band dominating. */
  lemma StepDominates(vols: seq<real>, band: Band, peak: nat)
    requires NonNegative(vols) && Unimodal(vols, peak)
    requires IsBand(vols, band) && InBand(band, peak) && CanGrow(vols, band)
    requires Dominates(vols, band)
    ensures Dominates(vols, Step(vols, band))
  {
    var next := Step(vols, band);
    var taken := if next.hi > band.hi then next.hi else next.lo;
    forall i, j | 0 <= i < |vols| && !InBand(next, i) && 0 <= j < |vols| && InBand(next, j)
      ensures vols[i] <= vols[j]
    {
      if i < band.lo {
        assert vols[i] <= vols[band.lo - 1];
      } else {
        assert vols[i] <= vols[band.hi + 1];
      }
      assert vols[i] <= vols[taken];
      assert InBand(band, j) || j == taken;
    }
  }

  /** Greedy optimality: on a single-peaked profile no choice of fewer buckets, contiguous or
      not, reaches the target. */
  lemma {:induction false} GrowIsOptimal(vols: seq<real>, target: real, band: Band, peak: nat, pick: seq<bool>)
    requires NonNegative(vols) && Unimodal(vols, peak)
    requires IsBand(vols, band) && InBand(band, peak) && Dominates(vols, band)
    requires |pick| == |vols| && Chosen(pick) < Width(Grow(vols, target, band))
    requires Width(band) <= Chosen(pick) || BandSum(vols, band) < target
    ensures PickSum(vols, pick) < target
    decreases |vols| - Width(band)
  {
    if Chosen(pick) <= Width(band) && BandSum(vols, band) < target {
      DominatingBandIsBest(vols, band, pick);
    } else {
      StepDominates(vols, band, peak);
      GrowIsOptimal(vols, target, Step(vols, band), peak, pick);
    }
  }

  lemma {:induction false} PickAtMost(vols: seq<real>, pick: seq<bool>)
    requires |vols| == |pick| && NonNegative(vols)
    ensures PickSum(vols, pick) <= Sum(vols)
  {
    if pick != [] {
      PickAtMost(vols[..|vols| - 1], pick[..|pick| - 1]);
    }
  }

  /** The same, from the point of control: if any choice of buckets reaches the target, the value area
      does, and with no more buckets. */
  lemma ValueAreaIsSmallest(vols: seq<real>, target: real, poc: nat, pick: seq<bool>)
    requires NonNegative(vols) && Unimodal(vols, poc) && target > 0.0
    requires |pick| == |vols|
    requires PickSum(vols, pick) >= target
    ensures BandSum(vols, Grow(vols, target, Band(poc, poc))) >= target
    ensures Chosen(pick) >= Width(Grow(vols, target, Band(poc, poc)))
  {
    PickAtMost(vols, pick);
    GrowReaches(vols, target, Band(poc, poc));
    if Chosen(pick) < Width(Grow(vols, target, Band(poc, poc))) {
      if Chosen(pick) == 0 {
        NothingChosen(vols, pick);
      } else {
        GrowIsOptimal(vols, target, Band(poc, poc), poc, pick);
      }
    }
  }

  lemma {:induction false} NothingChosen(vols: seq<real>, pick: seq<bool>)
    requires |vols| == |pick| && Chosen(pick) == 0
    ensures PickSum(vols, pick) == 0.0
  {
    if pick != [] {
      NothingChosen(vols[..|pick| - 1], pick[..|pick| - 1]);
    }
  }
}
