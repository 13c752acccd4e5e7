/** The paper fill engine of `currentflow/paper/fill.py`, with the auto-reject bands of
    `currentflow/universe/bands.py`. */
module Fill {
  import opened Models
  import opened Ticks

  const LOT_SIZE: int := 100
  const SETTLEMENT_DAYS: int := 2

  datatype LiquidityTier = LARGE | MID | SMALL

  function SlippageFor(tier: LiquidityTier): real {
    match tier
    case LARGE => 0.001
    case MID => 0.0035
    case SMALL => 0.012
  }

  // ---- fees ------------------------------------------------------------------------------------

  const COMMISSION_BUY: real := 0.0015
  const COMMISSION_SELL: real := 0.0025
  const LEVY: real := 0.00043
  const VAT: real := 0.11
  const SELL_TAX: real := 0.001

  datatype FeeBreakdown = FeeBreakdown(commission: real, vat: real, levy: real, sellTax: real) {
    function Total(): real { commission + vat + levy + sellTax }
  }

  /** `compute_fees`. */
  function ComputeFees(notional: real, side: Side): FeeBreakdown {
    var commission := notional * (if side == BUY then COMMISSION_BUY else COMMISSION_SELL);
    FeeBreakdown(commission, commission * VAT, notional * LEVY, if side == SELL then notional * SELL_TAX else 0.0)
  }

  /** The whole stack as one rate per side. */
  function FeeRate(side: Side): real { if side == BUY then 0.002095 else 0.004205 }

  lemma FeesAreLinear(notional: real, side: Side)
    ensures ComputeFees(notional, side).Total() == notional * FeeRate(side)
  {
  }

  // ---- settlement --------------------------------------------------------------------------------

  /** Weekdays after `from`, up to and including `to`. */
  function WeekdaysAfter(from: int, to: int): (n: nat)
    decreases to - from
  {
    if to <= from then 0 else WeekdaysAfter(from, to - 1) + if IsWeekday(to) then 1 else 0
  }

  lemma {:induction false} WeekdaysAfterMonotone(from: int, a: int, b: int)
    requires a <= b
    ensures WeekdaysAfter(from, a) <= WeekdaysAfter(from, b)
    decreases b - a
  {
    if a < b {
      WeekdaysAfterMonotone(from, a, b - 1);
    }
  }

  /** `settlement_date`: the one weekday with `days` weekdays behind it, itself counted: every earlier
      date has fewer, every later weekday more. */
  method SettlementDate(fillDate: int, days: int) returns (d: int)
    ensures days <= 0 ==> d == fillDate
    ensures days > 0 ==> d > fillDate && IsWeekday(d) && WeekdaysAfter(fillDate, d) == days
    ensures forall e :: fillDate <= e < d ==> WeekdaysAfter(fillDate, e) < days
    ensures forall e :: e > d && IsWeekday(e) && days > 0 ==> WeekdaysAfter(fillDate, e) > days
  {
    d := fillDate;
    var added := 0;
    while added < days
      invariant d >= fillDate && added == WeekdaysAfter(fillDate, d)
      invariant added <= days || days <= 0
      invariant d > fillDate && added == days ==> IsWeekday(d)
      invariant d > fillDate ==> days > 0
      invariant forall e :: fillDate <= e < d ==> WeekdaysAfter(fillDate, e) < days
      decreases days - added, ToWeekday(d)
    {
      DayPasses(d);
      d := d + 1;
      if IsWeekday(d) {
        added := added + 1;
      }
    }
    LaterWeekdays(fillDate, d, days);
  }

  /** Days until the next weekday. */
  function ToWeekday(d: int): int { if Weekday(d) >= 4 then 7 - Weekday(d) else 1 }

  lemma DayPasses(d: int)
    ensures ToWeekday(d) > 0 && (!IsWeekday(d + 1) ==> ToWeekday(d + 1) < ToWeekday(d))
  {
  }

  lemma LaterWeekdays(from: int, d: int, days: int)
    requires days > 0 ==> d > from && WeekdaysAfter(from, d) == days
    ensures forall e :: e > d && IsWeekday(e) && days > 0 ==> WeekdaysAfter(from, e) > days
  {
    forall e | e > d && IsWeekday(e) && days > 0 ensures WeekdaysAfter(from, e) > days {
      WeekdaysAfterMonotone(from, d, e - 1);
    }
  }

  // ---- auto-reject bands -----------------------------------------------------------------------

  datatype BoardType = MAIN | DEVELOPMENT | UNKNOWN_BOARD

  datatype PinState = FREE | PINNED_ARA | PINNED_ARB

  const PIN_EPSILON: real := 0.005

  function BandPct(board: BoardType, prevClose: real): real {
    if board == DEVELOPMENT then (if prevClose >= 5000.0 then 0.10 else 0.25) else 0.07
  }

  /** `check_pinned`. */
  function CheckPinned(close: real, prevClose: real, board: BoardType): PinState
    requires prevClose > 0.0
  {
    var move := (close - prevClose) / prevClose;
    var size := if move >= 0.0 then move else -move;
    if size >= BandPct(board, prevClose) - PIN_EPSILON then (if move > 0.0 then PINNED_ARA else PINNED_ARB)
    else FREE
  }

  // ---- fill_order --------------------------------------------------------------------------------

  datatype Order = Order(side: Side, limit: Price, qty: int, date: int, nextOpen: Price, prevClose: real,
                         board: BoardType, tier: LiquidityTier, settleDays: int)

  datatype Fill =
    | Filled(price: Price, gross: real, fees: FeeBreakdown, cashFlow: real, settlement: int)
    | NoFill
    | RejectedBand
    | RejectedLot

  predicate WholeLots(qty: int) { qty > 0 && qty % LOT_SIZE == 0 }

  /** A locked open on the order's adverse side. */
  predicate LockedAgainst(o: Order) {
    o.prevClose > 0.0
    && CheckPinned(o.nextOpen, o.prevClose, o.board) == if o.side == BUY then PINNED_ARA else PINNED_ARB
  }

  predicate LimitReached(o: Order) {
    if o.side == BUY then o.nextOpen <= o.limit else o.nextOpen >= o.limit
  }

  /** The open moved against the order by its tier's slippage. */
  function Slipped(o: Order): (p: Price)
    ensures o.side == BUY ==> p >= o.nextOpen
    ensures o.side == SELL ==> p <= o.nextOpen
  {
    var slip := SlippageFor(o.tier);
    SlippedIsPrice(o.nextOpen, slip);
    if o.side == BUY then o.nextOpen * (1.0 + slip) else o.nextOpen * (1.0 - slip)
  }

  /** The slipped open, rounded to a tick, and held to the limit. */
  function FillPrice(o: Order): Price {
    HeldTo(o.side, RoundToTick(Slipped(o), Nearest), o.limit)
  }

  function HeldTo(side: Side, candidate: Price, limit: Price): Price {
    if side == BUY then (if candidate <= limit then candidate else RoundToTick(limit, Down))
    else (if candidate >= limit then candidate else RoundToTick(limit, Up))
  }

  lemma SlippedIsPrice(open: Price, slip: real)
    requires 0.0 <= slip <= 1.0
    ensures 0.0 <= open * (1.0 - slip) <= open <= open * (1.0 + slip)
  {
    assert open * slip >= 0.0;
    assert open * (1.0 - slip) >= 0.0;
  }

  /** Price, fee stack and signed cash flow of a fill. */
  function FilledAt(o: Order, settlement: int): Fill {
    var gross := FillPrice(o) * o.qty as real;
    var fees := ComputeFees(gross, o.side);
    Filled(FillPrice(o), gross, fees,
           if o.side == BUY then -(gross + fees.Total()) else gross - fees.Total(), settlement)
  }

  /** `fill_order`: lot integrity, then the auto-reject band, then the limit. */
  method FillOrder(o: Order) returns (f: Fill)
    ensures f == RejectedLot <==> !WholeLots(o.qty)
    ensures f == RejectedBand <==> WholeLots(o.qty) && LockedAgainst(o)
    ensures f == NoFill <==> WholeLots(o.qty) && !LockedAgainst(o) && !LimitReached(o)
    ensures f.Filled? ==> f == FilledAt(o, f.settlement)
    ensures f.Filled? && o.settleDays > 0 ==>
              f.settlement > o.date && IsWeekday(f.settlement)
              && WeekdaysAfter(o.date, f.settlement) == o.settleDays
  {
    if o.qty <= 0 || o.qty % LOT_SIZE != 0 {
      return RejectedLot;
    }
    if LockedAgainst(o) {
      return RejectedBand;
    }
    if !LimitReached(o) {
      return NoFill;
    }
    var settle := SettlementDate(o.date, o.settleDays);
    return FilledAt(o, settle);
  }

  // ---- the bracket --------------------------------------------------------------------------------

  /** A fill price is always a valid tick. */
  lemma FillIsOnTick(o: Order)
    ensures OnTick(FillPrice(o))
  {
    RoundingIsOnTick(Slipped(o), Nearest);
    RoundingIsOnTick(o.limit, if o.side == BUY then Down else Up);
  }

  /** A filled buy never pays above its limit, nor below a tick-aligned open. */
  lemma BuyBracket(o: Order)
    requires o.side == BUY && LimitReached(o)
    ensures FillPrice(o) <= o.limit
    ensures OnTick(o.nextOpen) ==> o.nextOpen <= FillPrice(o)
  {
    DownIsBelow(o.limit);
    if OnTick(o.nextOpen) {
      RoundsNotBelow(o.nextOpen, Slipped(o), Nearest);
      RoundsNotBelow(o.nextOpen, o.limit, Down);
    }
  }

  /** A filled sell never gets more than a tick-aligned open. */
  lemma SellBracket(o: Order)
    requires o.side == SELL && LimitReached(o) && OnTick(o.nextOpen)
    ensures FillPrice(o) <= o.nextOpen
  {
    RoundsNotAbove(Slipped(o), o.nextOpen, Nearest);
    RoundsNotAbove(o.limit, o.nextOpen, Up);
  }

  /** Whatever the open, a sell price respects its limit exactly when the slipped price does or the
      limit is not a near miss of a tick. */
  lemma SellLimitIff(o: Order)
    requires o.side == SELL
    ensures o.limit <= FillPrice(o) <==> o.limit <= RoundToTick(Slipped(o), Nearest) || !NearMiss(o.limit)
  {
    UpRoundsUpIff(o.limit);
  }

  /** On the 1e-6 grid no limit is a near miss, so there a sell filled at a tick-aligned open gets no less
      than its limit and no more than the open. */
  lemma SellOnGrid(o: Order)
    requires o.side == SELL && LimitReached(o) && OnTick(o.nextOpen) && OnGrid(o.limit)
    ensures o.limit <= FillPrice(o) <= o.nextOpen
  {
    GridHasNoNearMiss(o.limit);
    SellLimitIff(o);
    SellBracket(o);
  }

  /** The cash of a buy and a later sell of the same shares: a gain exactly when the sale covers
      both fee stacks, so a round trip at an unchanged price always loses. */
  lemma RoundTripGainIff(bought: Price, sold: Price, qty: int)
    requires WholeLots(qty)
    ensures var buy, sell := bought * qty as real, sold * qty as real;
            var cash := -(buy + ComputeFees(buy, BUY).Total()) + (sell - ComputeFees(sell, SELL).Total());
            && (cash > 0.0 <==> sold * (1.0 - FeeRate(SELL)) > bought * (1.0 + FeeRate(BUY)))
            && (sold <= bought && bought > 0.0 ==> cash < 0.0)
  {
    var q := qty as real;
    var buy, sell := bought * q, sold * q;
    FeesAreLinear(buy, BUY);
    FeesAreLinear(sell, SELL);
    var edge := sold * (1.0 - FeeRate(SELL)) - bought * (1.0 + FeeRate(BUY));
    var cash := -(buy + ComputeFees(buy, BUY).Total()) + (sell - ComputeFees(sell, SELL).Total());
    assert cash == q * edge;
    SignOfProduct(q, edge);
  }

  lemma SignOfProduct(q: real, x: real)
    requires q > 0.0
    ensures q * x > 0.0 <==> x > 0.0
    ensures q * x < 0.0 <==> x < 0.0
  {
  }
}
