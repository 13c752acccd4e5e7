/** Records shared by the modules: the optional value and the daily bar of
    `currentflow/dal/models.py`.  Dates are proleptic day numbers, timestamps are integers,
    prices and volumes are reals. */
module Models {
  datatype Option<+T> = None | Some(value: T)

  datatype Result<+T, +E> = Ok(value: T) | Err(error: E)

  /** Coverage status of a (symbol, date). */
  datatype RowStatus = TRADED | NO_TRADES | NOT_PUBLISHED | GAP

  datatype Side = BUY | SELL

  datatype InvestorType = FOREIGN | LOCAL | GOVERNMENT | UNKNOWN_INVESTOR

  datatype DailyBar = DailyBar(
    date: int,
    status: RowStatus,
    open: Option<real>,
    high: Option<real>,
    low: Option<real>,
    close: Option<real>,
    volume: Option<real>)

  predicate ByDate(a: DailyBar, b: DailyBar) { a.date <= b.date }

  /** A bar with every field present and a TRADED status, as the signal modules use it. */
  datatype Bar = Bar(date: int, open: real, high: real, low: real, close: real, volume: real)

  /** Python's `date.weekday()` on a proleptic day number: day 1 is a Monday, Monday is 0. */
  function Weekday(day: int): (w: int)
    ensures 0 <= w < 7
  {
    (day + 6) % 7
  }

  /** Monday to Friday, the repository's trading-calendar proxy. */
  predicate IsWeekday(day: int) {
    Weekday(day) < 5
  }

  /** Python's `int()` on a float: truncation toward zero. */
  function Trunc(x: real): int {
    if x >= 0.0 then x.Floor else -((-x).Floor)
  }
}
