/** Tick bands and tick rounding of `currentflow/paper/fill.py`.  Prices are non-negative reals;
    the source's `round(n * tick, 6)` of a whole number of ticks is the number itself. */
module Ticks {
  import opened Models

  type Price = p: real | p >= 0.0 witness 0.0

  /** The tolerance of the "up" mode. */
  const EPSILON: real := 0.000000001

  // ---- bands ----------------------------------------------------------------------------------

  /** `TICK_BANDS`: lower bound and tick. */
  const TICK_BANDS: seq<(real, int)> := [(0.0, 1), (200.0, 2), (500.0, 5), (2000.0, 10), (5000.0, 25)]

  function TickSize(price: real): (tick: int)
    ensures tick > 0
  {
    if price >= 5000.0 then 25
    else if price >= 2000.0 then 10
    else if price >= 500.0 then 5
    else if price >= 200.0 then 2
    else 1
  }

  /** `tick_size`: the last band whose lower bound the price meets. */
  method ComputeTickSize(price: Price) returns (tick: int)
    ensures tick == TickSize(price)
  {
    tick := TICK_BANDS[0].1;
    var i := 0;
    while i < |TICK_BANDS|
      invariant 0 <= i <= |TICK_BANDS|
      invariant i > 0 ==> price >= TICK_BANDS[i - 1].0
      invariant tick == TICK_BANDS[if i == 0 then 0 else i - 1].1
    {
      if price < TICK_BANDS[i].0 {
        break;
      }
      tick := TICK_BANDS[i].1;
      i := i + 1;
    }
  }

  /** Lower bound of the price's band, in ticks of that band. */
  function BandFloor(price: real): int {
    if price >= 5000.0 then 200
    else if price >= 2000.0 then 200
    else if price >= 500.0 then 100
    else if price >= 200.0 then 100
    else 0
  }

  /** Upper bound of the price's band, in ticks of that band; the last band has none. */
  function BandCeiling(price: real): Option<int> {
    if price >= 5000.0 then None
    else if price >= 2000.0 then Some(500)
    else if price >= 500.0 then Some(400)
    else if price >= 200.0 then Some(250)
    else Some(200)
  }

  function Times(n: int, tick: int): real { n as real * tick as real }

  /** The price is a whole number of ticks of its own band. */
  ghost predicate OnTick(price: real) {
    exists n: int {:trigger Times(n, TickSize(price))} :: price == Times(n, TickSize(price))
  }

  // ---- rounding ---------------------------------------------------------------------------------

  datatype Mode = Nearest | Up | Down

  /** `abs(q - round(q)) < 1e-9`. */
  predicate NearWhole(q: real) {
    q - q.Floor as real < EPSILON || (q.Floor + 1) as real - q < EPSILON
  }

  function CountOf(q: real, mode: Mode): int {
    match mode
    case Up => if NearWhole(q) then Trunc(q) else Trunc(q) + 1
    case Down => Trunc(q)
    case Nearest => Trunc(q + 0.5)
  }

  function TickCount(price: real, tick: int, mode: Mode): int
    requires tick > 0
  {
    CountOf(price / tick as real, mode)
  }

  /** `round_to_tick`. */
  function RoundToTick(price: Price, mode: Mode): (r: Price)
  {
    CountIsNatural(price, TickSize(price), mode);
    Times(TickCount(price, TickSize(price), mode), TickSize(price))
  }

  lemma CountIsNatural(price: Price, tick: int, mode: Mode)
    requires tick > 0
    ensures Times(TickCount(price, tick, mode), tick) >= 0.0
  {
    QuotientBounds(price, tick, 0);
    CountFromBelow(price / tick as real, mode, 0);
  }

  lemma QuotientBounds(price: real, tick: int, n: int)
    requires tick > 0
    ensures Times(n, tick) <= price <==> n as real <= price / tick as real
    ensures price <= Times(n, tick) <==> price / tick as real <= n as real
  {
    var q := price / tick as real;
    assert q * tick as real == price;
    if n as real <= q { TimesMonotone(n as real, q, tick as real); }
    if q <= n as real { TimesMonotone(q, n as real, tick as real); }
  }

  lemma TimesMonotone(a: real, b: real, t: real)
    requires a <= b && t > 0.0
    ensures a * t <= b * t
    ensures a < b ==> a * t < b * t
  {
    assert b * t == a * t + (b - a) * t;
    PositiveTimes(b - a, t);
  }

  lemma PositiveTimes(d: real, t: real)
    requires d >= 0.0 && t > 0.0
    ensures d * t >= 0.0 && (d > 0.0 ==> d * t > 0.0)
  {
  }

  /** Rounding never falls below a whole number the quotient reaches. */
  lemma CountFromBelow(q: real, mode: Mode, a: nat)
    requires a as real <= q
    ensures a <= CountOf(q, mode)
  {
  }

  /** Rounding never passes a whole number the quotient does not pass. */
  lemma CountFromAbove(q: real, mode: Mode, b: nat)
    requires 0.0 <= q <= b as real
    ensures CountOf(q, mode) <= b
  {
  }

  lemma StepFromBelow(price: Price, tick: int, mode: Mode, a: nat)
    requires tick > 0 && Times(a, tick) <= price
    ensures Times(a, tick) <= Times(TickCount(price, tick, mode), tick)
  {
    QuotientBounds(price, tick, a);
    CountFromBelow(price / tick as real, mode, a);
    TimesMonotone(a as real, TickCount(price, tick, mode) as real, tick as real);
  }

  lemma StepFromAbove(price: Price, tick: int, mode: Mode, b: nat)
    requires tick > 0 && price <= Times(b, tick)
    ensures Times(TickCount(price, tick, mode), tick) <= Times(b, tick)
  {
    hide CountOf;
    QuotientBounds(price, tick, b);
    QuotientBounds(price, tick, 0);
    CountFromAbove(price / tick as real, mode, b);
    TimesMonotone(TickCount(price, tick, mode) as real, b as real, tick as real);
  }

  /** Rounding stays inside the price's band, its upper bound included. */
  lemma StaysInBand(price: Price, mode: Mode)
    ensures Times(BandFloor(price), TickSize(price)) <= RoundToTick(price, mode)
    ensures BandCeiling(price).Some? ==>
              RoundToTick(price, mode) <= Times(BandCeiling(price).value, TickSize(price))
  {
    var tick := TickSize(price);
    StepFromBelow(price, tick, mode, BandFloor(price));
    if BandCeiling(price).Some? {
      StepFromAbove(price, tick, mode, BandCeiling(price).value);
    }
  }

  /** A band's upper bound, and everything in it counted in its own ticks, is on tick. */
  lemma WholeTicksAreOnTick(price: Price, n: nat)
    requires BandFloor(price) <= n && (BandCeiling(price).Some? ==> n <= BandCeiling(price).value)
    ensures OnTick(Times(n, TickSize(price)))
  {
    var r := Times(n, TickSize(price));
    if BandCeiling(price).Some? && n == BandCeiling(price).value {
      if r == 200.0 { assert r == Times(100, TickSize(r)); }
      else if r == 500.0 { assert r == Times(100, TickSize(r)); }
      else if r == 2000.0 { assert r == Times(200, TickSize(r)); }
      else { assert r == Times(200, TickSize(r)); }
    } else {
      assert TickSize(r) == TickSize(price);
      assert r == Times(n, TickSize(r));
    }
  }

  lemma FromTimes(n: int, m: int, tick: int)
    requires tick > 0 && Times(n, tick) <= Times(m, tick)
    ensures n <= m
  {
    if m < n {
      TimesMonotone(m as real, n as real, tick as real);
    }
  }

  /** Every mode returns a multiple of the tick of the result's own band. */
  lemma RoundingIsOnTick(price: Price, mode: Mode)
    ensures OnTick(RoundToTick(price, mode))
  {
    StaysInBand(price, mode);
    var tick := TickSize(price);
    var n := TickCount(price, tick, mode);
    FromTimes(BandFloor(price), n, tick);
    if BandCeiling(price).Some? {
      FromTimes(n, BandCeiling(price).value, tick);
    }
    WholeTicksAreOnTick(price, n);
  }

  lemma BandsAscend(x: Price, y: Price)
    requires x <= y && TickSize(x) != TickSize(y)
    ensures BandCeiling(x).Some?
    ensures x < Times(BandCeiling(x).value, TickSize(x)) <= Times(BandFloor(y), TickSize(y)) <= y
  {
  }

  /** Rounding does not cross an on-tick price from above, in any mode and across bands. */
  lemma RoundsNotBelow(onTick: Price, price: Price, mode: Mode)
    requires OnTick(onTick) && onTick <= price
    ensures onTick <= RoundToTick(price, mode)
  {
    if TickSize(onTick) == TickSize(price) {
      var n: int :| onTick == Times(n, TickSize(onTick));
      assert n >= 0;
      StepFromBelow(price, TickSize(price), mode, n);
    } else {
      BandsAscend(onTick, price);
      StaysInBand(price, mode);
    }
  }

  /** Nor from below. */
  lemma RoundsNotAbove(price: Price, onTick: Price, mode: Mode)
    requires OnTick(onTick) && price <= onTick
    ensures RoundToTick(price, mode) <= onTick
  {
    if TickSize(onTick) == TickSize(price) {
      var n: int :| onTick == Times(n, TickSize(onTick));
      assert n >= 0;
      StepFromAbove(price, TickSize(price), mode, n);
    } else {
      BandsAscend(price, onTick);
      StaysInBand(price, mode);
    }
  }

  /** Rounding is idempotent: it fixes exactly the on-tick prices. */
  lemma RoundingFixesOnTick(price: Price, mode: Mode)
    ensures RoundToTick(price, mode) == price <==> OnTick(price)
    ensures RoundToTick(RoundToTick(price, mode), mode) == RoundToTick(price, mode)
  {
    RoundingIsOnTick(price, mode);
    var r := RoundToTick(price, mode);
    RoundsNotBelow(r, r, mode);
    RoundsNotAbove(r, r, mode);
    if OnTick(price) {
      RoundsNotBelow(price, price, mode);
      RoundsNotAbove(price, price, mode);
    }
  }

  lemma CountMonotone(p: real, q: real, mode: Mode)
    requires 0.0 <= p <= q && mode != Up
    ensures CountOf(p, mode) <= CountOf(q, mode)
  {
  }

  lemma QuotientMonotone(x: real, y: real, t: real)
    requires x <= y && t > 0.0
    ensures x / t <= y / t
  {
  }

  /** Rounding down and to nearest are monotone, across band edges too. */
  lemma RoundingIsMonotone(x: Price, y: Price, mode: Mode)
    requires x <= y && mode != Up
    ensures RoundToTick(x, mode) <= RoundToTick(y, mode)
  {
    var tick := TickSize(x);
    if tick == TickSize(y) {
      QuotientMonotone(x, y, tick as real);
      QuotientBounds(x, tick, 0);
      CountMonotone(x / tick as real, y / tick as real, mode);
      TimesMonotone(TickCount(x, tick, mode) as real, TickCount(y, tick, mode) as real, tick as real);
    } else {
      BandsAscend(x, y);
      StaysInBand(x, mode);
      StaysInBand(y, mode);
    }
  }

  lemma DownIsBelow(price: Price)
    ensures RoundToTick(price, Down) <= price
  {
    var tick := TickSize(price);
    QuotientBounds(price, tick, 0);
    QuotientBounds(price, tick, TickCount(price, tick, Down));
  }

  /** Off the tick, but by less than the tolerance. */
  predicate NearMiss(price: Price) {
    var q := price / TickSize(price) as real;
    q != q.Floor as real && NearWhole(q)
  }

  /** "Up" rounds up exactly when the price is not a near miss. */
  lemma UpRoundsUpIff(price: Price)
    ensures RoundToTick(price, Up) >= price <==> !NearMiss(price)
  {
    var tick := TickSize(price);
    QuotientBounds(price, tick, 0);
    QuotientBounds(price, tick, TickCount(price, tick, Up));
  }

  /** A price a hair below 200 is sent down to 199. */
  lemma UpCanRoundDown()
    ensures RoundToTick(199.9999999999, Up) == 199.0
  {
    assert TickSize(199.9999999999) == 1;
    assert (199.9999999999 / 1.0).Floor == 199;
  }

  /** A hair below a whole tick: what "up" sends down by a tick. */
  predicate MissFromBelow(price: Price) {
    var q := price / TickSize(price) as real;
    (q.Floor + 1) as real - q < EPSILON
  }

  /** No lower price rounds up past the rounded price. */
  ghost predicate UpMonotoneAt(y: Price) {
    forall x: Price :: x <= y ==> RoundToTick(x, Up) <= RoundToTick(y, Up)
  }

  lemma UpCountIs(price: Price)
    ensures var q := price / TickSize(price) as real;
            q >= 0.0 && RoundToTick(price, Up) == Times(if NearWhole(q) then q.Floor else q.Floor + 1, TickSize(price))
  {
    QuotientBounds(price, TickSize(price), 0);
  }

  /** Rounding up, too, is monotone exactly at the prices that do not miss a tick from below. */
  lemma UpIsMonotoneIff(y: Price)
    ensures UpMonotoneAt(y) <==> !MissFromBelow(y)
  {
    if MissFromBelow(y) {
      var x := HalfTickBelow(y);
      assert RoundToTick(x, Up) > RoundToTick(y, Up);
    } else {
      forall x: Price | x <= y ensures RoundToTick(x, Up) <= RoundToTick(y, Up) {
        UpStaysBelow(x, y);
      }
    }
  }

  /** Half a tick above what a price that misses from below is sent down to. */
  lemma HalfTickBelow(y: Price) returns (x: Price)
    requires MissFromBelow(y)
    ensures x <= y && RoundToTick(x, Up) > RoundToTick(y, Up)
  {
    hide RoundToTick, Times;
    var tick := TickSize(y);
    var n := (y / tick as real).Floor;
    UpOfMiss(y, tick, n);
    x := HalfOf(y, tick, y / tick as real, n);
    UpOfHalf(x, tick, n);
    TicksAscend(n, tick);
  }

  lemma UpOfMiss(y: Price, tick: int, n: int)
    requires tick == TickSize(y) && n == (y / tick as real).Floor && MissFromBelow(y)
    ensures RoundToTick(y, Up) == Times(n, tick)
  {
    hide RoundToTick, Times;
    UpCountIs(y);
  }

  lemma UpOfHalf(x: Price, tick: int, n: int)
    requires tick == TickSize(x) && x / tick as real == n as real + 0.5
    ensures RoundToTick(x, Up) == Times(n + 1, tick)
  {
    hide RoundToTick, Times;
    UpCountIs(x);
    assert (n as real + 0.5).Floor == n;
  }

  lemma TicksAscend(n: int, tick: int)
    requires tick > 0
    ensures Times(n, tick) < Times(n + 1, tick)
  {
    TimesMonotone(n as real, (n + 1) as real, tick as real);
  }

  lemma HalfOf(y: Price, tick: int, q: real, n: int) returns (x: Price)
    requires tick == TickSize(y) && q == y / tick as real && n == q.Floor && (n + 1) as real - q < EPSILON
    ensures x <= y && TickSize(x) == tick && x / tick as real == n as real + 0.5
  {
    QuotientBounds(y, tick, BandFloor(y));
    assert n >= BandFloor(y) >= 0;
    x := (n as real + 0.5) * tick as real;
    TimesMonotone(BandFloor(y) as real, n as real + 0.5, tick as real);
    TimesMonotone(n as real + 0.5, q, tick as real);
    assert q * tick as real == y;
  }

  lemma UpStaysBelow(x: Price, y: Price)
    requires x <= y && !MissFromBelow(y)
    ensures RoundToTick(x, Up) <= RoundToTick(y, Up)
  {
    var r := RoundToTick(y, Up);
    RoundingIsOnTick(y, Up);
    if x <= r {
      RoundsNotAbove(x, r, Up);
    } else {
      UpFromAbove(x, y);
    }
  }

  /** Between a tick and a price that misses it from above there is nothing to round up. */
  lemma UpFromAbove(x: Price, y: Price)
    requires RoundToTick(y, Up) < x <= y && !MissFromBelow(y)
    ensures RoundToTick(x, Up) <= RoundToTick(y, Up)
  {
    var tick := TickSize(y);
    var n := (y / tick as real).Floor;
    UpRoundsUpIff(y);
    UpCountIs(y);
    assert RoundToTick(y, Up) == Times(n, tick);
    SameBand(x, y, n);
    UpCountIs(x);
    SameCount(x / tick as real, y / tick as real, n);
  }

  lemma SameBand(x: Price, y: Price, n: int)
    requires n == (y / TickSize(y) as real).Floor && Times(n, TickSize(y)) <= x <= y
    ensures TickSize(x) == TickSize(y) && n as real <= x / TickSize(y) as real <= y / TickSize(y) as real
  {
    var tick := TickSize(y);
    QuotientBounds(y, tick, BandFloor(y));
    TimesMonotone(BandFloor(y) as real, n as real, tick as real);
    QuotientMonotone(x, y, tick as real);
    QuotientBounds(x, tick, n);
  }

  lemma SameCount(p: real, q: real, n: int)
    requires n as real <= p <= q && q.Floor == n && NearWhole(q) && (n + 1) as real - q >= EPSILON
    ensures p.Floor == n && NearWhole(p)
  {
  }

  /** A price on the 1e-6 grid. */
  ghost predicate OnGrid(price: Price) {
    exists k: int :: price == Millionths(k)
  }

  function Millionths(k: int): real { k as real / 1000000.0 }

  /** On the grid no price is a near miss, so there "up" always rounds up and every mode is
      monotone. */
  lemma GridHasNoNearMiss(price: Price)
    requires OnGrid(price)
    ensures !NearMiss(price) && !MissFromBelow(price)
  {
    var tick := TickSize(price);
    var q, n := price / tick as real, (price / tick as real).Floor;
    var k: int :| price == Millionths(k);
    assert q * tick as real == price;
    var whole := 1000000 * tick;
    assert q * whole as real == k as real;
    Remainder(q, n, whole, k);
  }

  /** How far `q = k / whole` is from the whole number below it is itself a count of `1 / whole`. */
  lemma Remainder(q: real, n: int, whole: int, k: int)
    requires 1000000 <= whole <= 25000000 && q * whole as real == k as real && n as real <= q < n as real + 1.0
    ensures q == n as real || q - n as real >= EPSILON
    ensures (n + 1) as real - q >= EPSILON
  {
    var r, d := k - n * whole, q - n as real;
    assert d * whole as real == r as real;
    if r <= 0 {
      assert d <= 0.0;
    } else {
      Quotient(d, whole as real, r as real);
    }
    var rest := 1.0 - d;
    assert rest * whole as real == (whole - r) as real;
    assert rest > 0.0;
    assert rest * whole as real > 0.0;
    Quotient(rest, whole as real, (whole - r) as real);
  }

  lemma Quotient(d: real, whole: real, r: real)
    requires 1000000.0 <= whole <= 25000000.0 && r >= 1.0 && d * whole == r
    ensures d >= EPSILON
  {
    assert (d - EPSILON) * whole == r - EPSILON * whole;
    Positive(d - EPSILON, whole);
  }

  lemma Positive(x: real, z: real)
    requires z > 0.0 && x * z > 0.0
    ensures x > 0.0
  {
  }
}
