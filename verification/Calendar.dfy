/** Due-math of `currentflow/scheduler/calendar.py`.  An instant counts microseconds, so that
    `t / DAY` is its date (a proleptic day number) and `t % DAY` its time of day. */
module Calendar {
  import opened Models

  const DAY: int := 86_400_000_000
  const MINUTE: int := 60_000_000
  const WINDOW_OPEN: int := 9 * 60 * MINUTE
  const WINDOW_CLOSE: int := 16 * 60 * MINUTE

  datatype Cadence =
    | DailyAt(at: int)
    | WeeklyAt(weekday: int, at: int)
    | Interval(minutes: int, sessionOnly: bool)
    | MonthlyAt(day: int, at: int)

  /** What the cadence types mean: a time of day, a weekday number, a day of the month, and an
      interval that lets time pass. */
  predicate WellFormed(c: Cadence) {
    match c
    case DailyAt(at) => 0 <= at < DAY
    case WeeklyAt(weekday, at) => 0 <= weekday < 7 && 0 <= at < DAY
    case Interval(minutes, _) => minutes > 0
    case MonthlyAt(day, at) => day >= 1 && 0 <= at < DAY
  }

  function DateOf(t: int): int { t / DAY }

  function At(date: int, at: int): int { date * DAY + at }

  lemma AtParts(date: int, at: int)
    requires 0 <= at < DAY
    ensures DateOf(At(date, at)) == date && At(date, at) % DAY == at
  {
  }

  lemma PartsAt(t: int)
    ensures t == At(DateOf(t), t % DAY) && 0 <= t % DAY < DAY
  {
  }

  // ---- the window -------------------------------------------------------------------------

  /** `is_trading_time`. */
  predicate IsTradingTime(now: int) {
    IsWeekday(DateOf(now)) && WINDOW_OPEN <= now % DAY <= WINDOW_CLOSE
  }

  /** `applies_now`. */
  predicate AppliesNow(c: Cadence, now: int) {
    if c.Interval? && !c.sessionOnly then IsWeekday(DateOf(now)) else IsTradingTime(now)
  }

  /** `previous_trading_day`: the latest weekday before `day`. */
  method PreviousTradingDay(day: int) returns (d: int)
    ensures d < day && IsWeekday(d)
    ensures forall e :: d < e < day ==> !IsWeekday(e)
  {
    d := day - 1;
    while Weekday(d) >= 5
      invariant d < day
      invariant forall e :: d < e < day ==> !IsWeekday(e)
      decreases Weekday(d)
    {
      d := d - 1;
    }
  }

  // ---- daily and weekly -------------------------------------------------------------------

  /** `_daily_next`. */
  function DailyNext(at: int, last: Option<int>, now: int): int {
    match last
    case None => At(DateOf(now), at)
    case Some(l) =>
      var sameDay := At(DateOf(l), at);
      if sameDay > l then sameDay else At(DateOf(l) + 1, at)
  }

  /** `_weekly_occurrence`: the instant in the Monday-based week of `date`. */
  function WeeklyOccurrence(date: int, weekday: int, at: int): int {
    At(date - Weekday(date) + weekday, at)
  }

  function WeeklyNext(weekday: int, at: int, last: Option<int>, now: int): int {
    match last
    case None => WeeklyOccurrence(DateOf(now), weekday, at)
    case Some(l) =>
      var occ := WeeklyOccurrence(DateOf(l), weekday, at);
      if occ <= l then occ + 7 * DAY else occ
  }

  /** `_weekly_next`, with the source's loop. */
  method ComputeWeeklyNext(weekday: int, at: int, last: Option<int>, now: int) returns (occ: int)
    requires 0 <= weekday < 7 && 0 <= at < DAY
    ensures occ == WeeklyNext(weekday, at, last, now)
  {
    if last.None? {
      return WeeklyOccurrence(DateOf(now), weekday, at);
    }
    occ := WeeklyOccurrence(DateOf(last.value), weekday, at);
    ghost var first := occ;
    assert first + 7 * DAY > last.value;
    while occ <= last.value
      invariant occ == first || (first <= last.value && occ == first + 7 * DAY)
      decreases last.value - occ
    {
      occ := occ + 7 * DAY;
    }
  }

  // ---- months -----------------------------------------------------------------------------

  predicate IsLeap(year: int) { year % 4 == 0 && (year % 100 != 0 || year % 400 == 0) }

  /** Months are numbered from January of year 1; `calendar.monthrange`. */
  function DaysIn(month: nat): (n: nat)
    ensures 28 <= n <= 31
  {
    var year, m := month / 12 + 1, month % 12 + 1;
    if m == 2 then (if IsLeap(year) then 29 else 28)
    else if m == 4 || m == 6 || m == 9 || m == 11 then 30
    else 31
  }

  /** Day number of the first of the month. */
  function MonthStart(month: nat): (d: nat)
    ensures d >= 1 + 28 * month
  {
    if month == 0 then 1 else MonthStart(month - 1) + DaysIn(month - 1)
  }

  function MonthFrom(month: nat, date: int): (m: nat)
    requires MonthStart(month) <= date
    ensures MonthStart(m) <= date < MonthStart(m + 1)
    decreases date - MonthStart(month)
  {
    if date < MonthStart(month + 1) then month else MonthFrom(month + 1, date)
  }

  function MonthOf(date: int): (m: nat)
    requires date >= 1
    ensures MonthStart(m) <= date < MonthStart(m + 1)
  {
    MonthFrom(0, date)
  }

  lemma {:induction false} MonthStartsAscend(a: nat, b: nat)
    requires a <= b
    ensures MonthStart(a) <= MonthStart(b)
    decreases b - a
  {
    if a < b {
      var c := b - 1;
      MonthStartsAscend(a, c);
      assert MonthStart(c) < MonthStart(b);
    }
  }

  lemma MonthIsUnique(month: nat, date: int)
    requires MonthStart(month) <= date < MonthStart(month + 1)
    ensures date >= 1 && MonthOf(date) == month
  {
    assert MonthStart(month) >= 1;
    var m := MonthOf(date);
    NotBefore(m, month, date);
    NotBefore(month, m, date);
  }

  lemma NotBefore(a: nat, b: nat, date: int)
    requires date < MonthStart(a + 1) && MonthStart(b) <= date
    ensures b <= a
  {
    var next := a + 1;
    if next <= b {
      MonthStartsAscend(next, b);
    }
  }

  /** `_first_of_next_month`: year and month roll over as the source computes them. */
  lemma NextMonthRollsOver(month: nat)
    ensures var year, m := month / 12 + 1, month % 12 + 1;
            var nextYear, nextM := year + m / 12, m % 12 + 1;
            (nextYear - 1) * 12 + (nextM - 1) == month + 1
  {
  }

  /** The instant of a month, `day` clamped to its length. */
  function MonthlyInstant(month: nat, day: int, at: int): int {
    At(MonthStart(month) + (if day <= DaysIn(month) then day else DaysIn(month)) - 1, at)
  }

  /** `_monthly_occurrence`. */
  function MonthlyOccurrence(date: int, day: int, at: int): int
    requires date >= 1
  {
    MonthlyInstant(MonthOf(date), day, at)
  }

  /** The clamped day of the month, as a day number. */
  function ClampedDate(month: nat, day: int): (d: int)
    requires day >= 1
    ensures MonthStart(month) <= d < MonthStart(month + 1)
  {
    MonthStart(month) + (if day <= DaysIn(month) then day else DaysIn(month)) - 1
  }

  lemma InstantInMonth(month: nat, day: int, at: int)
    requires day >= 1 && 0 <= at < DAY
    ensures DateOf(MonthlyInstant(month, day, at)) == ClampedDate(month, day) >= 1
    ensures MonthOf(DateOf(MonthlyInstant(month, day, at))) == month
  {
    AtParts(ClampedDate(month, day), at);
    MonthIsUnique(month, ClampedDate(month, day));
  }

  lemma DateOrders(s: int, t: int)
    requires DateOf(s) < DateOf(t)
    ensures s < t
  {
    PartsAt(s);
    PartsAt(t);
  }

  lemma InstantsAscend(a: nat, b: nat, day: int, at: int)
    requires day >= 1 && 0 <= at < DAY && a < b
    ensures MonthlyInstant(a, day, at) < MonthlyInstant(b, day, at)
  {
    InstantInMonth(a, day, at);
    InstantInMonth(b, day, at);
    MonthStartsAscend(a + 1, b);
    DateOrders(MonthlyInstant(a, day, at), MonthlyInstant(b, day, at));
  }

  function MonthlyNext(day: int, at: int, last: Option<int>, now: int): int
    requires DateOf(now) >= 1 && (last.Some? ==> DateOf(last.value) >= 1)
  {
    match last
    case None => MonthlyOccurrence(DateOf(now), day, at)
    case Some(l) =>
      var occ := MonthlyOccurrence(DateOf(l), day, at);
      if occ <= l then MonthlyInstant(MonthOf(DateOf(l)) + 1, day, at) else occ
  }

  /** The following month's instant is past the last run, so the loop turns at most once. */
  lemma InstantAfter(last: int, day: int, at: int)
    requires day >= 1 && 0 <= at < DAY && DateOf(last) >= 1
    ensures MonthlyInstant(MonthOf(DateOf(last)) + 1, day, at) > last
  {
    var next := MonthOf(DateOf(last)) + 1;
    InstantInMonth(next, day, at);
    DateOrders(last, MonthlyInstant(next, day, at));
  }

  /** An earlier month's instant is before the last run. */
  lemma InstantBefore(last: int, day: int, at: int, m: nat)
    requires day >= 1 && 0 <= at < DAY && DateOf(last) >= 1 && m < MonthOf(DateOf(last))
    ensures MonthlyInstant(m, day, at) < last
  {
    InstantInMonth(m, day, at);
    MonthStartsAscend(m + 1, MonthOf(DateOf(last)));
    DateOrders(MonthlyInstant(m, day, at), last);
  }

  /** The loop body of `_monthly_next`: on to the instant of the month after `month`. */
  method NextMonthInstant(occ: int, ghost month: nat, day: int, at: int) returns (next: int)
    requires day >= 1 && 0 <= at < DAY && occ == MonthlyInstant(month, day, at)
    ensures next == MonthlyInstant(month + 1, day, at)
  {
    InstantInMonth(month, day, at);
    var firstOfNext := MonthStart(MonthOf(DateOf(occ)) + 1);
    MonthIsUnique(month + 1, firstOfNext);
    next := MonthlyOccurrence(firstOfNext, day, at);
  }

  /** `_monthly_next`, with the source's loop. */
  method ComputeMonthlyNext(day: int, at: int, last: Option<int>, now: int) returns (occ: int)
    requires day >= 1 && 0 <= at < DAY
    requires DateOf(now) >= 1 && (last.Some? ==> DateOf(last.value) >= 1)
    ensures occ == MonthlyNext(day, at, last, now)
  {
    if last.None? {
      return MonthlyOccurrence(DateOf(now), day, at);
    }
    InstantAfter(last.value, day, at);
    occ :=
      RollForward(MonthlyOccurrence(DateOf(last.value), day, at), MonthOf(DateOf(last.value)), last.value, day, at);
  }

  /** The loop of `_monthly_next`. */
  method RollForward(first: int, ghost month: nat, last: int, day: int, at: int) returns (occ: int)
    requires day >= 1 && 0 <= at < DAY
    requires first == MonthlyInstant(month, day, at) && MonthlyInstant(month + 1, day, at) > last
    ensures occ == if first <= last then MonthlyInstant(month + 1, day, at) else first
  {
    occ := first;
    ghost var turns := 0;
    while occ <= last
      invariant turns == 0 ==> occ == first
      invariant turns != 0 ==> turns == 1 && first <= last && occ == MonthlyInstant(month + 1, day, at)
      decreases 1 - turns
    {
      occ := NextMonthInstant(occ, month, day, at);
      turns := turns + 1;
    }
  }

  // ---- next_fire ----------------------------------------------------------------------------

  /** Every instant of this model is on or after day 1, the first a Python date can be. */
  predicate IsInstant(t: int) { DateOf(t) >= 1 }

  function NextFire(c: Cadence, last: Option<int>, now: int): int
    requires IsInstant(now) && (last.Some? ==> IsInstant(last.value))
  {
    match c
    case DailyAt(at) => DailyNext(at, last, now)
    case WeeklyAt(weekday, at) => WeeklyNext(weekday, at, last, now)
    case Interval(minutes, _) => if last.None? then now else last.value + minutes * MINUTE
    case MonthlyAt(day, at) => MonthlyNext(day, at, last, now)
  }

  predicate IsDue(c: Cadence, last: Option<int>, now: int)
    requires IsInstant(now) && (last.Some? ==> IsInstant(last.value))
  {
    now >= NextFire(c, last, now)
  }

  /** The instants a calendar cadence names. */
  ghost predicate IsScheduled(c: Cadence, t: int) {
    match c
    case DailyAt(at) => t % DAY == at
    case WeeklyAt(weekday, at) => t % DAY == at && Weekday(DateOf(t)) == weekday
    case Interval(_, _) => false
    case MonthlyAt(day, at) => exists m: nat :: t == MonthlyInstant(m, day, at)
  }

  ghost predicate IsLeastAfter(c: Cadence, last: int, next: int) {
    IsScheduled(c, next) && next > last && forall t :: IsScheduled(c, t) && t > last ==> next <= t
  }

  lemma DailyNextIsLeast(at: int, last: int, now: int)
    requires 0 <= at < DAY
    ensures IsLeastAfter(DailyAt(at), last, DailyNext(at, Some(last), now))
  {
    var next := DailyNext(at, Some(last), now);
    AtParts(DateOf(last), at);
    AtParts(DateOf(last) + 1, at);
    forall t | IsScheduled(DailyAt(at), t) && t > last ensures next <= t {
      PartsAt(t);
      PartsAt(last);
    }
  }

  lemma SameWeekdayWeeksApart(d: int, e: int)
    requires Weekday(d) == Weekday(e) && d < e
    ensures d <= e - 7
  {
  }

  lemma WeeklyNextIsLeast(weekday: int, at: int, last: int, now: int)
    requires 0 <= weekday < 7 && 0 <= at < DAY
    ensures IsLeastAfter(WeeklyAt(weekday, at), last, WeeklyNext(weekday, at, Some(last), now))
  {
    var c := WeeklyAt(weekday, at);
    var date := DateOf(last) - Weekday(DateOf(last)) + weekday;
    var next := WeeklyNext(weekday, at, Some(last), now);
    var nextDate := if At(date, at) <= last then date + 7 else date;
    AtParts(nextDate, at);
    assert next == At(nextDate, at) && Weekday(nextDate) == weekday;
    PartsAt(last);
    forall t | IsScheduled(c, t) && t > last ensures next <= t {
      PartsAt(t);
      if DateOf(t) < nextDate {
        SameWeekdayWeeksApart(DateOf(t), nextDate);
      }
    }
  }

  lemma MonthlyNextIsLeast(day: int, at: int, last: int, now: int)
    requires day >= 1 && 0 <= at < DAY && IsInstant(last) && IsInstant(now)
    ensures IsLeastAfter(MonthlyAt(day, at), last, MonthlyNext(day, at, Some(last), now))
  {
    var c := MonthlyAt(day, at);
    var next := MonthlyNext(day, at, Some(last), now);
    InstantAfter(last, day, at);
    forall t | IsScheduled(c, t) && t > last ensures next <= t {
      var m: nat :| t == MonthlyInstant(m, day, at);
      MonthlyNextAtMost(day, at, last, now, m);
    }
  }

  lemma MonthlyNextAtMost(day: int, at: int, last: int, now: int, m: nat)
    requires day >= 1 && 0 <= at < DAY && IsInstant(last) && IsInstant(now) && MonthlyInstant(m, day, at) > last
    ensures MonthlyNext(day, at, Some(last), now) <= MonthlyInstant(m, day, at)
  {
    hide MonthlyInstant, MonthOf, DateOf;
    var month := MonthOf(DateOf(last));
    var after := month + 1;
    if m < month {
      InstantBefore(last, day, at, m);
    }
    if m > month {
      InstantsAscend(month, m, day, at);
    }
    if m > after {
      InstantsAscend(after, m, day, at);
    }
  }

  /** For daily, weekly and day-clamped monthly cadences the next fire is the least scheduled
      instant strictly after the last one. */
  lemma NextFireIsLeast(c: Cadence, last: int, now: int)
    requires WellFormed(c) && !c.Interval? && IsInstant(last) && IsInstant(now)
    ensures IsLeastAfter(c, last, NextFire(c, Some(last), now))
  {
    match c
    case DailyAt(at) => DailyNextIsLeast(at, last, now);
    case WeeklyAt(weekday, at) => WeeklyNextIsLeast(weekday, at, last, now);
    case MonthlyAt(day, at) => MonthlyNextIsLeast(day, at, last, now);
  }

  /** Whatever the cadence, a feed is not due again at the instant it last fired. */
  lemma NextFireIsLater(c: Cadence, last: int, now: int)
    requires WellFormed(c) && IsInstant(last) && IsInstant(now)
    ensures NextFire(c, Some(last), now) > last
  {
    if !c.Interval? {
      NextFireIsLeast(c, last, now);
    }
  }
}
