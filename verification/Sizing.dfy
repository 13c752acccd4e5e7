/** Order sizing of `currentflow/execution/order.py`: one percent of equity at risk, whole lots,
    clamped by the exposure caps. */
module Sizing {
  import opened Models
  import Ticks
  import Fill

  const LOT_SIZE: int := 100
  const RISK_PCT: real := 0.01
  const CAP_NAME: real := 0.10
  const CAP_SECTOR: real := 0.30

  /** The part of a trigger signal that sizing reads. */
  datatype Trigger = Trigger(valid: bool, entryLimit: Option<real>, stop: Option<real>)

  /** Why there is no order; the last is the exception of a cap divided by an entry of zero. */
  datatype Rejection = CircuitOpen | NoTrigger | NoRisk | BelowOneLot | CapsBelowOneLot | ZeroDivision

  datatype SizedOrder = SizedOrder(limit: real, qty: int, stop: real, riskBudget: real)

  /** What sizing knows about the account: equity, the conviction multiplier, what the sector
      already holds, and whether the circuit breakers let new entries through. */
  datatype Account = Account(equity: real, multiplier: real, sectorNow: real, circuitOk: bool)

  /** `_lots`: whole shares, then whole lots. */
  function Lots(shares: real): (qty: int)
    ensures qty % LOT_SIZE == 0
  {
    Trunc(shares) / LOT_SIZE * LOT_SIZE
  }

  predicate IsLots(qty: int) { qty >= LOT_SIZE && qty % LOT_SIZE == 0 }

  /** `_lots` gives the largest whole number of lots that fits. */
  lemma LotsIsLargest(shares: real, qty: int)
    requires IsLots(qty)
    ensures qty as real <= shares <==> qty <= Lots(shares)
  {
    var t := Trunc(shares);
    assert qty as real <= shares <==> qty <= t;
    LotDivision(t, qty);
  }

  lemma LotDivision(t: int, qty: int)
    requires IsLots(qty)
    ensures qty <= t <==> qty <= t / LOT_SIZE * LOT_SIZE
    ensures t / LOT_SIZE * LOT_SIZE % LOT_SIZE == 0
  {
  }

  lemma QuotientFits(amount: real, unit: real, qty: int)
    requires unit > 0.0
    ensures qty as real <= amount / unit <==> qty as real * unit <= amount
  {
    var q := amount / unit;
    assert q * unit == amount;
    if qty as real <= q { Ticks.TimesMonotone(qty as real, q, unit); }
    if q < qty as real { Ticks.TimesMonotone(q, qty as real, unit); }
  }

  /** A lot count fits an amount at a price per share. */
  predicate Fits(qty: int, unit: real, amount: real) { qty as real * unit <= amount }

  lemma LotsFit(amount: real, unit: real, qty: int)
    requires unit > 0.0 && IsLots(qty)
    ensures Fits(qty, unit, amount) <==> qty <= Lots(amount / unit)
  {
    LotsIsLargest(amount / unit, qty);
    QuotientFits(amount, unit, qty);
  }

  function RiskBudget(a: Account): real { a.equity * RISK_PCT * a.multiplier }
  function NameCap(a: Account): real { a.equity * CAP_NAME }
  function SectorRoom(a: Account): real { a.equity * CAP_SECTOR - a.sectorNow }

  /** The three limits on a quantity. */
  predicate Allowed(qty: int, a: Account, entry: real, stop: real) {
    Fits(qty, entry - stop, RiskBudget(a)) && Fits(qty, entry, NameCap(a)) && Fits(qty, entry, SectorRoom(a))
  }

  predicate Sizable(a: Account, t: Trigger) {
    a.circuitOk && t.valid && t.entryLimit.Some? && t.stop.Some? && t.stop.value < t.entryLimit.value
  }

  function Max0(x: real): real { if x > 0.0 then x else 0.0 }

  /** One clamp: the quantity is cut to the lots that fit only when it does not fit. */
  function Clamp(qty: int, entry: real, amount: real, cut: real): int
    requires entry != 0.0 || amount >= 0.0
  {
    if qty as real * entry > amount then Lots(cut / entry) else qty
  }

  /** A clamp keeps exactly the lot counts that fit. */
  lemma ClampIsExact(qty: int, entry: real, amount: real, cut: real, m: int)
    requires entry > 0.0 && IsLots(m) && (cut == amount || cut == Max0(amount))
    ensures m <= Clamp(qty, entry, amount, cut) <==> m <= qty && Fits(m, entry, amount)
  {
    assert Clamp(qty, entry, amount, cut) == if Fits(qty, entry, amount) then qty else Lots(cut / entry);
    LotsFit(cut, entry, m);
    LotsNeedRoom(m, entry, amount);
    if m <= qty { FewerFit(m, qty, entry, amount); } else { FewerFit(qty, m, entry, amount); }
  }

  lemma FewerFit(few: int, many: int, unit: real, amount: real)
    requires unit > 0.0 && few <= many
    ensures Fits(many, unit, amount) ==> Fits(few, unit, amount)
  {
    Ticks.TimesMonotone(few as real, many as real, unit);
  }

  lemma LotsNeedRoom(m: int, entry: real, amount: real)
    requires entry > 0.0 && IsLots(m)
    ensures Fits(m, entry, Max0(amount)) <==> Fits(m, entry, amount)
  {
    PositiveCost(m, entry);
  }

  lemma PositiveCost(m: int, entry: real)
    requires entry > 0.0 && IsLots(m)
    ensures m as real * entry > 0.0
  {
  }

  /** An entry of zero against a cap below it. */
  predicate DividesByZero(a: Account, entry: real, stop: real)
    requires stop < entry
  {
    entry == 0.0 && Lots(RiskBudget(a) / (entry - stop)) >= LOT_SIZE && (NameCap(a) < 0.0 || SectorRoom(a) < 0.0)
  }

  /** The quantity before and after the two exposure clamps. */
  function Quantity(a: Account, entry: real, stop: real): int
    requires stop < entry && !DividesByZero(a, entry, stop)
  {
    var atRisk := Lots(RiskBudget(a) / (entry - stop));
    if atRisk < LOT_SIZE then atRisk
    else Clamp(Clamp(atRisk, entry, NameCap(a), NameCap(a)), entry, SectorRoom(a), Max0(SectorRoom(a)))
  }

  /** Sizing is maximal: the lot counts up to the quantity are exactly the allowed ones. */
  lemma QuantityIsExact(a: Account, entry: real, stop: real, m: int)
    requires entry > 0.0 && stop < entry && IsLots(m)
    ensures m <= Quantity(a, entry, stop) <==> Allowed(m, a, entry, stop)
  {
    var atRisk := Lots(RiskBudget(a) / (entry - stop));
    LotsFit(RiskBudget(a), entry - stop, m);
    if atRisk >= LOT_SIZE {
      ClampIsExact(atRisk, entry, NameCap(a), NameCap(a), m);
      ClampIsExact(Clamp(atRisk, entry, NameCap(a), NameCap(a)), entry, SectorRoom(a), Max0(SectorRoom(a)), m);
    }
  }

  lemma QuantityIsLots(a: Account, entry: real, stop: real)
    requires stop < entry && !DividesByZero(a, entry, stop)
    ensures Quantity(a, entry, stop) % LOT_SIZE == 0
  {
  }

  /** An accepted quantity is the largest whole number of lots within all three limits, and an
      order is refused only when not even one lot is. */
  lemma SizingIsMaximal(a: Account, entry: real, stop: real)
    requires entry > 0.0 && stop < entry
    ensures var qty := Quantity(a, entry, stop);
            && (qty >= LOT_SIZE <==> Allowed(LOT_SIZE, a, entry, stop))
            && (qty >= LOT_SIZE ==> IsLots(qty) && Allowed(qty, a, entry, stop))
            && (forall m :: IsLots(m) && Allowed(m, a, entry, stop) ==> m <= qty)
  {
    var qty := Quantity(a, entry, stop);
    QuantityIsLots(a, entry, stop);
    QuantityIsExact(a, entry, stop, LOT_SIZE);
    if qty >= LOT_SIZE {
      QuantityIsExact(a, entry, stop, qty);
    }
    forall m | IsLots(m) && Allowed(m, a, entry, stop) ensures m <= qty {
      QuantityIsExact(a, entry, stop, m);
    }
  }

  /** `generate_order`. */
  method GenerateOrder(t: Trigger, a: Account) returns (r: Result<SizedOrder, Rejection>)
    ensures r == Err(CircuitOpen) <==> !a.circuitOk
    ensures r == Err(NoTrigger) <==> a.circuitOk && (!t.valid || t.entryLimit.None? || t.stop.None?)
    ensures r == Err(ZeroDivision) <==> Sizable(a, t) && DividesByZero(a, t.entryLimit.value, t.stop.value)
    ensures r.Ok? <==>
              && Sizable(a, t) && !DividesByZero(a, t.entryLimit.value, t.stop.value)
              && Quantity(a, t.entryLimit.value, t.stop.value) >= LOT_SIZE
    ensures Sizable(a, t) && t.entryLimit.value > 0.0 ==>
              (r.Ok? <==> Allowed(LOT_SIZE, a, t.entryLimit.value, t.stop.value))
    ensures r.Ok? ==>
              r.value == SizedOrder(t.entryLimit.value, Quantity(a, t.entryLimit.value, t.stop.value),
                                    t.stop.value, RiskBudget(a))
  {
    if !a.circuitOk {
      return Err(CircuitOpen);
    }
    if !t.valid || t.entryLimit.None? || t.stop.None? {
      return Err(NoTrigger);
    }
    var entry, stop := t.entryLimit.value, t.stop.value;
    var riskPerShare := entry - stop;
    if riskPerShare <= 0.0 {
      return Err(NoRisk);
    }
    if entry > 0.0 {
      SizingIsMaximal(a, entry, stop);
    }
    var sized := Size(a, entry, stop);
    return match sized
      case Ok(qty) => Ok(SizedOrder(entry, qty, stop, RiskBudget(a)))
      case Err(why) => Err(why);
  }

  /** The clamping part of `generate_order`. */
  method Size(a: Account, entry: real, stop: real) returns (r: Result<int, Rejection>)
    requires stop < entry
    ensures r == if DividesByZero(a, entry, stop) then Err(ZeroDivision)
                 else if Quantity(a, entry, stop) >= LOT_SIZE then Ok(Quantity(a, entry, stop))
                 else if Lots(RiskBudget(a) / (entry - stop)) < LOT_SIZE then Err(BelowOneLot)
                 else Err(CapsBelowOneLot)
  {
    var qty := Lots(RiskBudget(a) / (entry - stop));
    if qty < LOT_SIZE {
      return Err(BelowOneLot);
    }
    if entry == 0.0 && NameCap(a) < 0.0 {
      return Err(ZeroDivision);
    }
    qty := Clamp(qty, entry, NameCap(a), NameCap(a));
    if entry == 0.0 && SectorRoom(a) < 0.0 {
      return Err(ZeroDivision);
    }
    qty := Clamp(qty, entry, SectorRoom(a), Max0(SectorRoom(a)));
    return if qty < LOT_SIZE then Err(CapsBelowOneLot) else Ok(qty);
  }

  // ---- from the order to the fill ---------------------------------------------------------------

  /** The buy the fill engine is handed for a sized order. */
  function ToBuy(o: SizedOrder, date: int, nextOpen: Ticks.Price, prevClose: real,
                 board: Fill.BoardType, tier: Fill.LiquidityTier): Fill.Order
    requires o.limit >= 0.0
  {
    Fill.Order(BUY, o.limit, o.qty, date, nextOpen, prevClose, board, tier, Fill.SETTLEMENT_DAYS)
  }

  /** The three limits hold at any price up to the limit price. */
  lemma LimitsHoldBelow(a: Account, qty: int, entry: real, stop: real, price: real)
    requires qty > 0 && Allowed(qty, a, entry, stop) && price <= entry
    ensures Fits(qty, price - stop, RiskBudget(a)) && Fits(qty, price, NameCap(a)) && Fits(qty, price, SectorRoom(a))
  {
    CheaperFits(qty, price - stop, entry - stop);
    CheaperFits(qty, price, entry);
  }

  lemma CheaperFits(qty: int, unit: real, dearer: real)
    requires qty > 0 && unit <= dearer
    ensures qty as real * unit <= qty as real * dearer
  {
  }

  /** The risk budget survives the fill: an accepted order is never refused for its lots, and
      whatever it fills at, the distance to the stop risks no more than was budgeted and the cost
      stays inside both exposure caps. */
  lemma RiskSurvivesTheFill(a: Account, o: SizedOrder, date: int, nextOpen: Ticks.Price, prevClose: real,
                            board: Fill.BoardType, tier: Fill.LiquidityTier)
    requires o.limit > 0.0 && o.stop < o.limit
    requires o.qty == Quantity(a, o.limit, o.stop) >= LOT_SIZE
    ensures var buy := ToBuy(o, date, nextOpen, prevClose, board, tier);
            && Fill.WholeLots(buy.qty)
            && (Fill.LimitReached(buy) ==> Allowed(o.qty, a, Fill.FillPrice(buy), o.stop))
  {
    var buy := ToBuy(o, date, nextOpen, prevClose, board, tier);
    SizingIsMaximal(a, o.limit, o.stop);
    if Fill.LimitReached(buy) {
      Fill.BuyBracket(buy);
      LimitsHoldBelow(a, o.qty, o.limit, o.stop, Fill.FillPrice(buy));
    }
  }
}
