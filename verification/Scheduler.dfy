/** The tick of `currentflow/scheduler/runner.py` over its durable run table.  What a feed action
    does is an oracle: it finishes, fails with a recorded error, or fails authentication. */
module Scheduler {
  import opened Models
  import opened Calendar

  datatype FeedSchedule = FeedSchedule(feed: string, cadence: Cadence)

  /** A row of `scheduler_runs`, keyed by feed and instant. */
  datatype RunRow = RunRow(feed: string, firedAt: int, rowsWritten: nat, outcome: string)

  datatype Attempt = Finished(rows: nat, outcome: string) | FeedError | AuthFailure

  const OUTCOME_ERROR := "ERROR"

  // ---- the run table -------------------------------------------------------------------------

  /** The fires of one feed, in the order recorded. */
  function Fires(rows: seq<RunRow>, feed: string): seq<int> {
    if rows == [] then []
    else
      var last := rows[|rows| - 1];
      if last.feed == feed then Fires(rows[..|rows| - 1], feed) + [last.firedAt] else Fires(rows[..|rows| - 1], feed)
  }

  function MaxFire(fires: seq<int>): (m: int)
    requires fires != []
    ensures m in fires && forall t :: t in fires ==> t <= m
  {
    var last := fires[|fires| - 1];
    assert fires == fires[..|fires| - 1] + [last];
    if |fires| == 1 then last
    else
      var m := MaxFire(fires[..|fires| - 1]);
      if m >= last then m else last
  }

  /** `read_scheduler_run_latest`: the newest recorded fire. */
  function Latest(rows: seq<RunRow>, feed: string): Option<int> {
    var fires := Fires(rows, feed);
    if fires == [] then None else Some(MaxFire(fires))
  }

  /** `write_scheduler_run`: a row with a stored key is dropped. */
  function Record(rows: seq<RunRow>, row: RunRow): seq<RunRow> {
    if exists i :: 0 <= i < |rows| && rows[i].feed == row.feed && rows[i].firedAt == row.firedAt then rows
    else rows + [row]
  }

  // ---- one tick --------------------------------------------------------------------------------

  datatype Tick = Tick(rows: seq<RunRow>, fired: seq<RunRow>, halted: bool)

  predicate Instants(rows: seq<RunRow>) {
    forall i :: 0 <= i < |rows| ==> IsInstant(rows[i].firedAt)
  }

  lemma {:induction false} FiresAreInstants(rows: seq<RunRow>, feed: string)
    requires Instants(rows)
    ensures forall i :: 0 <= i < |Fires(rows, feed)| ==> IsInstant(Fires(rows, feed)[i])
  {
    if rows != [] {
      FiresAreInstants(rows[..|rows| - 1], feed);
    }
  }

  lemma LatestIsInstant(rows: seq<RunRow>, feed: string)
    requires Instants(rows)
    ensures Latest(rows, feed).Some? ==> IsInstant(Latest(rows, feed).value)
  {
    FiresAreInstants(rows, feed);
    if Fires(rows, feed) != [] {
      assert MaxFire(Fires(rows, feed)) in Fires(rows, feed);
    }
  }

  predicate CanFire(rows: seq<RunRow>, sched: FeedSchedule, now: int)
    requires Instants(rows) && IsInstant(now)
  {
    LatestIsInstant(rows, sched.feed);
    IsDue(sched.cadence, Latest(rows, sched.feed), now) && AppliesNow(sched.cadence, now)
  }

  function RowFor(feed: string, now: int, a: Attempt): RunRow
    requires !a.AuthFailure?
  {
    match a
    case Finished(n, outcome) => RunRow(feed, now, n, outcome)
    case FeedError => RunRow(feed, now, 0, OUTCOME_ERROR)
  }

  /** One feed's turn. */
  function Turn(t: Tick, sched: FeedSchedule, now: int, attempt: string -> Attempt): (r: Tick)
    requires Instants(t.rows) && IsInstant(now)
    ensures Instants(r.rows)
  {
    if t.halted || !CanFire(t.rows, sched, now) then t
    else if attempt(sched.feed).AuthFailure? then t.(halted := true)
    else
      var row := RowFor(sched.feed, now, attempt(sched.feed));
      Tick(Record(t.rows, row), t.fired + [row], false)
  }

  function TickOver(rows: seq<RunRow>, schedules: seq<FeedSchedule>, now: int, attempt: string -> Attempt): (r: Tick)
    requires Instants(rows) && IsInstant(now)
    ensures Instants(r.rows)
  {
    if schedules == [] then Tick(rows, [], false)
    else Turn(TickOver(rows, schedules[..|schedules| - 1], now, attempt), schedules[|schedules| - 1], now, attempt)
  }

  /** The durable table. */
  class RunLog {
    var rows: seq<RunRow>

    constructor ()
      ensures rows == []
    {
      rows := [];
    }

    /** `tick`: `halted` stands for the authentication error that propagates out of it. */
    method RunTick(schedules: seq<FeedSchedule>, now: int, attempt: string -> Attempt)
      returns (fired: seq<RunRow>, halted: bool)
      requires Instants(rows) && IsInstant(now)
      modifies this
      ensures Instants(rows)
      ensures Tick(rows, fired, halted) == TickOver(old(rows), schedules, now, attempt)
    {
      fired, halted := [], false;
      for i := 0 to |schedules|
        invariant Instants(rows) && !halted
        invariant Tick(rows, fired, false) == TickOver(old(rows), schedules[..i], now, attempt)
      {
        assert schedules[..i + 1][..i] == schedules[..i];
        var sched := schedules[i];
        LatestIsInstant(rows, sched.feed);
        var last := Latest(rows, sched.feed);
        if IsDue(sched.cadence, last, now) && AppliesNow(sched.cadence, now) {
          var a := attempt(sched.feed);
          if a.AuthFailure? {
            halted := true;
            HaltedStays(old(rows), schedules, now, attempt, i + 1);
            return;
          }
          var row := RowFor(sched.feed, now, a);
          rows := Record(rows, row);
          fired := fired + [row];
        }
      }
      assert schedules[..|schedules|] == schedules;
    }
  }

  lemma {:induction false} HaltedStays(rows: seq<RunRow>, schedules: seq<FeedSchedule>, now: int,
                                       attempt: string -> Attempt, n: nat)
    requires Instants(rows) && IsInstant(now) && n <= |schedules|
    requires TickOver(rows, schedules[..n], now, attempt).halted
    ensures TickOver(rows, schedules, now, attempt) == TickOver(rows, schedules[..n], now, attempt)
    decreases |schedules| - n
  {
    if n == |schedules| {
      assert schedules[..n] == schedules;
    } else {
      assert schedules[..n + 1][..n] == schedules[..n];
      HaltedStays(rows, schedules, now, attempt, n + 1);
    }
  }

  // ---- what every run keeps -----------------------------------------------------------------------

  ghost predicate UniqueFeeds(schedules: seq<FeedSchedule>) {
    forall i, j :: 0 <= i < j < |schedules| ==> schedules[i].feed != schedules[j].feed
  }

  ghost predicate WellFormedTable(schedules: seq<FeedSchedule>) {
    UniqueFeeds(schedules) && forall i :: 0 <= i < |schedules| ==> WellFormed(schedules[i].cadence)
  }

  function Before(fires: seq<int>): Option<int> {
    if fires == [] then None else Some(fires[|fires| - 1])
  }

  /** A lawful firing history: each fire was due after the one before it, and applicable. */
  ghost predicate Chain(c: Cadence, fires: seq<int>) {
    && (forall i :: 0 <= i < |fires| ==> IsInstant(fires[i]))
    && (forall i :: 0 <= i < |fires| ==> AppliesNow(c, fires[i]) && IsDue(c, Before(fires[..i]), fires[i]))
  }

  lemma ChainStep(c: Cadence, fires: seq<int>, j: nat)
    requires WellFormed(c) && Chain(c, fires) && 0 < j < |fires|
    ensures IsDue(c, Some(fires[j - 1]), fires[j]) && fires[j - 1] < fires[j]
  {
    assert Before(fires[..j]) == Some(fires[j - 1]);
    assert IsDue(c, Before(fires[..j]), fires[j]);
    NextFireIsLater(c, fires[j - 1], fires[j]);
  }

  lemma {:induction false} ChainAscends(c: Cadence, fires: seq<int>, i: nat, j: nat)
    requires WellFormed(c) && Chain(c, fires) && i < j < |fires|
    ensures fires[i] < fires[j]
  {
    hide *;
    ChainStep(c, fires, j);
    if i < j - 1 {
      ChainAscends(c, fires, i, j - 1);
    }
  }

  lemma LatestOfChain(c: Cadence, fires: seq<int>)
    requires WellFormed(c) && Chain(c, fires) && fires != []
    ensures MaxFire(fires) == fires[|fires| - 1]
  {
    hide *;
    var m := MaxFire(fires);
    var i :| 0 <= i < |fires| && fires[i] == m;
    if i < |fires| - 1 {
      ChainAscends(c, fires, i, |fires| - 1);
    }
    assert fires[|fires| - 1] in fires;
  }

  /** The table holds a lawful history for each scheduled feed. */
  ghost predicate Lawful(rows: seq<RunRow>, schedules: seq<FeedSchedule>) {
    Instants(rows) && forall i :: 0 <= i < |schedules| ==> Chain(schedules[i].cadence, Fires(rows, schedules[i].feed))
  }

  lemma ChainExtends(c: Cadence, fires: seq<int>, now: int)
    requires Chain(c, fires) && IsInstant(now) && AppliesNow(c, now) && IsDue(c, Before(fires), now)
    ensures Chain(c, fires + [now])
  {
    var more := fires + [now];
    forall i | 0 <= i < |more| ensures AppliesNow(c, more[i]) && IsDue(c, Before(more[..i]), more[i]) {
      if i < |fires| {
        assert more[..i] == fires[..i];
      } else {
        assert more[..i] == fires;
      }
    }
  }

  lemma {:induction false} RecordedFire(rows: seq<RunRow>, i: nat)
    requires i < |rows|
    ensures rows[i].firedAt in Fires(rows, rows[i].feed)
  {
    var n := |rows| - 1;
    if i < n {
      RecordedFire(rows[..n], i);
    }
  }

  /** A lawful fire is new to the table, so its row is never dropped as a duplicate. */
  lemma LawfulFireIsNew(rows: seq<RunRow>, sched: FeedSchedule, row: RunRow, now: int)
    requires Instants(rows) && IsInstant(now) && WellFormed(sched.cadence)
    requires Chain(sched.cadence, Fires(rows, sched.feed)) && CanFire(rows, sched, now)
    requires row.feed == sched.feed && row.firedAt == now
    ensures Record(rows, row) == rows + [row]
    ensures Latest(rows, sched.feed) == Before(Fires(rows, sched.feed))
  {
    hide Chain, IsDue, AppliesNow, Record, Fires;
    var fires := Fires(rows, sched.feed);
    if fires != [] {
      LatestOfChain(sched.cadence, fires);
      LatestIsInstant(rows, sched.feed);
      DueIsLater(sched.cadence, MaxFire(fires), now);
    }
    NewFireIsRecorded(rows, row);
  }

  lemma DueIsLater(c: Cadence, last: int, now: int)
    requires WellFormed(c) && IsInstant(last) && IsInstant(now) && IsDue(c, Some(last), now)
    ensures last < now
  {
    NextFireIsLater(c, last, now);
  }

  lemma NewFireIsRecorded(rows: seq<RunRow>, row: RunRow)
    requires forall t :: t in Fires(rows, row.feed) ==> t < row.firedAt
    ensures Record(rows, row) == rows + [row]
  {
    forall i | 0 <= i < |rows| && rows[i].feed == row.feed ensures rows[i].firedAt != row.firedAt {
      RecordedFire(rows, i);
    }
  }

  lemma FiresOfAppend(rows: seq<RunRow>, row: RunRow, feed: string)
    ensures Fires(rows + [row], feed) ==
            if row.feed == feed then Fires(rows, feed) + [row.firedAt] else Fires(rows, feed)
  {
    assert (rows + [row])[..|rows|] == rows;
  }

  lemma TurnIsLawful(t: Tick, schedules: seq<FeedSchedule>, k: nat, now: int, attempt: string -> Attempt)
    requires WellFormedTable(schedules) && k < |schedules| && IsInstant(now) && Lawful(t.rows, schedules)
    ensures Lawful(Turn(t, schedules[k], now, attempt).rows, schedules)
  {
    var sched := schedules[k];
    if !t.halted && CanFire(t.rows, sched, now) && !attempt(sched.feed).AuthFailure? {
      var row := RowFor(sched.feed, now, attempt(sched.feed));
      LawfulFireIsNew(t.rows, sched, row, now);
      RecordIsLawful(t.rows, schedules, k, row);
    }
  }

  lemma RecordIsLawful(rows: seq<RunRow>, schedules: seq<FeedSchedule>, k: nat, row: RunRow)
    requires WellFormedTable(schedules) && k < |schedules| && Lawful(rows, schedules)
    requires row.feed == schedules[k].feed && IsInstant(row.firedAt) && CanFire(rows, schedules[k], row.firedAt)
    requires Latest(rows, row.feed) == Before(Fires(rows, row.feed))
    ensures Lawful(rows + [row], schedules)
  {
    forall i | 0 <= i < |schedules| ensures Chain(schedules[i].cadence, Fires(rows + [row], schedules[i].feed)) {
      FiresOfAppend(rows, row, schedules[i].feed);
      if i == k {
        ChainExtends(schedules[k].cadence, Fires(rows, row.feed), row.firedAt);
      }
    }
  }

  lemma {:induction false} TickPrefixIsLawful(rows: seq<RunRow>, schedules: seq<FeedSchedule>, n: nat, now: int,
                                              attempt: string -> Attempt)
    requires WellFormedTable(schedules) && n <= |schedules| && IsInstant(now) && Lawful(rows, schedules)
    ensures Lawful(TickOver(rows, schedules[..n], now, attempt).rows, schedules)
  {
    if n > 0 {
      hide Lawful, WellFormedTable, Turn;
      TickPrefixIsLawful(rows, schedules, n - 1, now, attempt);
      assert schedules[..n][..n - 1] == schedules[..n - 1];
      TurnIsLawful(TickOver(rows, schedules[..n - 1], now, attempt), schedules, n - 1, now, attempt);
    }
  }

  /** One wake-up of the daemon: the clock's reading and what each feed would do. */
  datatype Wake = Wake(now: int, attempt: string -> Attempt)

  ghost predicate Clocked(wakes: seq<Wake>) {
    forall i :: 0 <= i < |wakes| ==> IsInstant(wakes[i].now)
  }

  function RunTicks(rows: seq<RunRow>, schedules: seq<FeedSchedule>, wakes: seq<Wake>): (r: seq<RunRow>)
    requires Instants(rows) && Clocked(wakes)
    ensures Instants(r)
  {
    if wakes == [] then rows
    else
      var last := wakes[|wakes| - 1];
      TickOver(RunTicks(rows, schedules, wakes[..|wakes| - 1]), schedules, last.now, last.attempt).rows
  }

  /** Over any run, whatever the clock reads (it may even go back) and however the actions end,
      every feed's recorded fires are a lawful history. */
  lemma {:induction false} EveryRunIsLawful(schedules: seq<FeedSchedule>, wakes: seq<Wake>)
    requires WellFormedTable(schedules) && Clocked(wakes)
    ensures Lawful(RunTicks([], schedules, wakes), schedules)
  {
    if wakes != [] {
      var front, last := wakes[..|wakes| - 1], wakes[|wakes| - 1];
      EveryRunIsLawful(schedules, front);
      TickPrefixIsLawful(RunTicks([], schedules, front), schedules, |schedules|, last.now, last.attempt);
      assert schedules[..|schedules|] == schedules;
    }
  }

  // ---- no instant fires twice --------------------------------------------------------------------

  /** The instant fire `j` answers: the least scheduled one after the fire before it, and for the
      first fire the scheduled one of its own day, week or month. */
  ghost predicate Answers(c: Cadence, fires: seq<int>, j: nat, instant: int)
    requires j < |fires| && !c.Interval? && forall i :: 0 <= i < |fires| ==> IsInstant(fires[i])
  {
    && instant <= fires[j]
    && if j == 0 then IsScheduled(c, instant) && instant == NextFire(c, None, fires[0])
       else IsLeastAfter(c, fires[j - 1], instant)
  }

  /** Every fire of a calendar cadence answers a scheduled instant. */
  lemma EveryFireAnswers(c: Cadence, fires: seq<int>, j: nat) returns (instant: int)
    requires WellFormed(c) && !c.Interval? && Chain(c, fires) && j < |fires|
    ensures Answers(c, fires, j, instant)
  {
    assert IsDue(c, Before(fires[..j]), fires[j]);
    if j == 0 {
      instant := NextFire(c, None, fires[0]);
      FirstIsScheduled(c, fires[0]);
    } else {
      instant := NextFire(c, Some(fires[j - 1]), fires[j]);
      assert Before(fires[..j]) == Some(fires[j - 1]);
      NextFireIsLeast(c, fires[j - 1], fires[j]);
    }
  }

  lemma FirstIsScheduled(c: Cadence, now: int)
    requires WellFormed(c) && !c.Interval? && IsInstant(now)
    ensures IsScheduled(c, NextFire(c, None, now))
  {
    match c
    case DailyAt(at) => AtParts(DateOf(now), at);
    case WeeklyAt(weekday, at) => AtParts(DateOf(now) - Weekday(DateOf(now)) + weekday, at);
    case MonthlyAt(day, at) => assert NextFire(c, None, now) == MonthlyInstant(MonthOf(DateOf(now)), day, at);
  }

  /** No scheduled instant is answered by two fires. */
  lemma AnswersDiffer(c: Cadence, fires: seq<int>, i: nat, j: nat, one: int, other: int)
    requires WellFormed(c) && !c.Interval? && Chain(c, fires) && i < j < |fires|
    requires Answers(c, fires, i, one) && Answers(c, fires, j, other)
    ensures one < other
  {
    hide *;
    ChainInstants(c, fires);
    if i < j - 1 {
      ChainAscends(c, fires, i, j - 1);
    }
    AnsweredBefore(c, fires, i, one);
    AnsweredAfter(c, fires, j, other);
  }

  lemma ChainInstants(c: Cadence, fires: seq<int>)
    requires Chain(c, fires)
    ensures forall i :: 0 <= i < |fires| ==> IsInstant(fires[i])
  {
  }

  lemma AnsweredBefore(c: Cadence, fires: seq<int>, i: nat, one: int)
    requires i < |fires| && !c.Interval? && forall k :: 0 <= k < |fires| ==> IsInstant(fires[k])
    requires Answers(c, fires, i, one)
    ensures one <= fires[i]
  {
  }

  lemma AnsweredAfter(c: Cadence, fires: seq<int>, j: nat, other: int)
    requires 0 < j < |fires| && !c.Interval? && forall k :: 0 <= k < |fires| ==> IsInstant(fires[k])
    requires Answers(c, fires, j, other)
    ensures fires[j - 1] < other
  {
  }

  /** No instant is skipped unanswered: between two consecutive fires the instant consumed is the
      first one scheduled, so a scheduled instant with no fire at or after it is still due. */
  lemma UnansweredInstantIsDue(c: Cadence, fires: seq<int>, t: int, now: int)
    requires WellFormed(c) && !c.Interval? && Chain(c, fires) && fires != []
    requires IsScheduled(c, t) && fires[|fires| - 1] < t <= now && IsInstant(now)
    ensures IsDue(c, Before(fires), now)
  {
    NextFireIsLeast(c, fires[|fires| - 1], now);
  }

  // ---- at most once a date -----------------------------------------------------------------------

  ghost predicate DatesAscend(fires: seq<int>) {
    forall i, j :: 0 <= i < j < |fires| ==> DateOf(fires[i]) < DateOf(fires[j])
  }

  /** The time of day of a calendar cadence. */
  function TimeOf(c: Cadence): int
    requires !c.Interval?
  {
    match c
    case DailyAt(at) => at
    case WeeklyAt(_, at) => at
    case MonthlyAt(_, at) => at
  }

  /** A scheduled time the window opens before, on a day it opens at all: there a catch-up and the
      scheduled fire can share a date. */
  predicate Collides(c: Cadence)
    requires !c.Interval?
  {
    WINDOW_OPEN < TimeOf(c) <= WINDOW_CLOSE && (c.WeeklyAt? ==> c.weekday < 5)
  }

  lemma ScheduledParts(c: Cadence, t: int)
    requires WellFormed(c) && !c.Interval? && IsScheduled(c, t)
    ensures t % DAY == TimeOf(c) && (c.WeeklyAt? ==> Weekday(DateOf(t)) == c.weekday)
  {
    if c.MonthlyAt? {
      var m: nat :| t == MonthlyInstant(m, c.day, c.at);
      AtParts(MonthStart(m) + (if c.day <= DaysIn(m) then c.day else DaysIn(m)) - 1, c.at);
    }
  }

  lemma DateStep(c: Cadence, before: int, now: int)
    requires WellFormed(c) && !c.Interval? && !Collides(c) && IsInstant(before) && IsInstant(now)
    requires IsTradingTime(before) && IsTradingTime(now) && IsDue(c, Some(before), now)
    ensures DateOf(before) < DateOf(now)
  {
    var next := NextFire(c, Some(before), now);
    NextFireIsLeast(c, before, now);
    ScheduledParts(c, next);
    SharedDate(before, next, now);
  }

  /** What lies between two fires of one date is on that date, at a time of the window past its
      opening. */
  lemma SharedDate(before: int, next: int, now: int)
    requires before < next <= now && IsTradingTime(before) && IsTradingTime(now)
    ensures DateOf(before) < DateOf(now)
            || (DateOf(next) == DateOf(now) && IsWeekday(DateOf(next)) && WINDOW_OPEN < next % DAY <= WINDOW_CLOSE)
  {
    hide DateOf, At, IsWeekday;
    PartsAt(before);
    PartsAt(next);
    PartsAt(now);
    SharedParts(DateOf(before), before % DAY, DateOf(next), next % DAY, DateOf(now), now % DAY);
  }

  lemma SharedParts(date: int, at: int, nextDate: int, nextAt: int, nowDate: int, nowAt: int)
    requires At(date, at) < At(nextDate, nextAt) <= At(nowDate, nowAt)
    requires WINDOW_OPEN <= at < DAY && 0 <= nextAt < DAY && 0 <= nowAt <= WINDOW_CLOSE < DAY
    ensures date < nowDate || (nextDate == nowDate && WINDOW_OPEN < nextAt <= WINDOW_CLOSE)
  {
    AtOrder(date, at, nextDate, nextAt);
    AtOrder(nextDate, nextAt, nowDate, nowAt);
  }

  lemma AtOrder(a: int, x: int, b: int, y: int)
    requires 0 <= x < DAY && 0 <= y < DAY && At(a, x) <= At(b, y)
    ensures a < b || (a == b && x <= y && (At(a, x) < At(b, y) ==> x < y))
  {
    assert (a - b) * DAY < DAY;
  }

  lemma {:induction false} ChainDates(c: Cadence, fires: seq<int>, i: nat, j: nat)
    requires WellFormed(c) && !c.Interval? && !Collides(c)
    requires Chain(c, fires) && i < j < |fires|
    ensures DateOf(fires[i]) < DateOf(fires[j])
  {
    hide *;
    ChainTrades(c, fires, j - 1);
    ChainTrades(c, fires, j);
    ChainStep(c, fires, j);
    DateStep(c, fires[j - 1], fires[j]);
    if i < j - 1 {
      ChainDates(c, fires, i, j - 1);
    }
  }

  lemma ChainTrades(c: Cadence, fires: seq<int>, i: nat)
    requires !c.Interval? && Chain(c, fires) && i < |fires|
    ensures IsInstant(fires[i]) && IsTradingTime(fires[i])
  {
  }

  /** Three fires: on `first` at the scheduled time, on `later` when the window opens, for the instant
      missed in between, and on `later` again at the scheduled time. */
  function DoubleFire(first: int, later: int, at: int): seq<int> {
    [At(first, at), At(later, WINDOW_OPEN), At(later, at)]
  }

  lemma DoubleFireIsLawful(c: Cadence, first: int, later: int)
    requires WellFormed(c) && !c.Interval? && WINDOW_OPEN < TimeOf(c) <= WINDOW_CLOSE
    requires 1 <= first < later && IsWeekday(first) && IsWeekday(later)
    requires IsInstant(At(first, TimeOf(c))) && IsInstant(At(later, WINDOW_OPEN)) && IsInstant(At(later, TimeOf(c)))
    requires IsDue(c, None, At(first, TimeOf(c)))
    requires IsDue(c, Some(At(first, TimeOf(c))), At(later, WINDOW_OPEN))
    requires IsDue(c, Some(At(later, WINDOW_OPEN)), At(later, TimeOf(c)))
    ensures Chain(c, DoubleFire(first, later, TimeOf(c))) && !DatesAscend(DoubleFire(first, later, TimeOf(c)))
  {
    var fires := DoubleFire(first, later, TimeOf(c));
    AtParts(first, TimeOf(c));
    AtParts(later, WINDOW_OPEN);
    AtParts(later, TimeOf(c));
    assert Before(fires[..0]) == None;
    assert Before(fires[..1]) == Some(fires[0]);
    assert Before(fires[..2]) == Some(fires[1]);
    assert DateOf(fires[1]) == DateOf(fires[2]);
  }

  /** Daily: Friday, and Monday twice, first for Saturday's instant. */
  lemma DailyDoubleFire(at: int)
    requires WINDOW_OPEN < at <= WINDOW_CLOSE
    ensures Chain(DailyAt(at), DoubleFire(5, 8, at)) && !DatesAscend(DoubleFire(5, 8, at))
  {
    AtParts(5, at);
    AtParts(8, WINDOW_OPEN);
    AtParts(8, at);
    DoubleFireIsLawful(DailyAt(at), 5, 8);
  }

  /** Weekly: one week, and the next but one twice. */
  lemma WeeklyDoubleFire(weekday: int, at: int)
    requires 0 <= weekday < 5 && WINDOW_OPEN < at <= WINDOW_CLOSE
    ensures Chain(WeeklyAt(weekday, at), DoubleFire(1 + weekday, 15 + weekday, at))
    ensures !DatesAscend(DoubleFire(1 + weekday, 15 + weekday, at))
  {
    AtParts(1 + weekday, at);
    AtParts(15 + weekday, WINDOW_OPEN);
    AtParts(15 + weekday, at);
    DoubleFireIsLawful(WeeklyAt(weekday, at), 1 + weekday, 15 + weekday);
  }

  /** The first weekday on or after a date. */
  function WeekdayFrom(date: int): (d: int)
    ensures IsWeekday(d) && date <= d <= date + 2
  {
    if Weekday(date) == 5 then date + 2 else if Weekday(date) == 6 then date + 1 else date
  }

  /** January of the first year, and a later month of 31 days in which the day is a weekday. */
  function FirstDate(day: int): int
    requires day >= 1
  {
    WeekdayFrom(if day <= 31 then day else 31)
  }

  function LaterMonth(day: int): nat
    requires day >= 1
  {
    if IsWeekday(59 + (if day <= 31 then day else 31)) then 2 else 4
  }

  function LaterDate(day: int): int
    requires day >= 1
  {
    MonthStart(LaterMonth(day)) + (if day <= 31 then day else 31) - 1
  }

  lemma FirstMonths()
    ensures MonthStart(0) == 1 && MonthStart(1) == 32 && MonthStart(2) == 60 && MonthStart(3) == 91
    ensures MonthStart(4) == 121 && MonthStart(5) == 152
    ensures DaysIn(0) == 31 && DaysIn(1) == 28 && DaysIn(2) == 31 && DaysIn(4) == 31
  {
    assert MonthStart(1) == MonthStart(0) + DaysIn(0);
    assert MonthStart(2) == MonthStart(1) + DaysIn(1);
    assert MonthStart(3) == MonthStart(2) + DaysIn(2);
    assert MonthStart(4) == MonthStart(3) + DaysIn(3);
    assert MonthStart(5) == MonthStart(4) + DaysIn(4);
  }

  lemma MonthlyDates(day: int)
    requires day >= 1
    ensures MonthOf(FirstDate(day)) == 0 && MonthOf(LaterDate(day)) == LaterMonth(day)
    ensures 1 <= FirstDate(day) <= 31 && LaterDate(day) >= 60
    ensures IsWeekday(FirstDate(day)) && IsWeekday(LaterDate(day))
  {
    FirstMonths();
    MonthIsUnique(0, FirstDate(day));
    MonthIsUnique(LaterMonth(day), LaterDate(day));
  }

  /** Monthly: one month, and a later one twice, first for the months missed. */
  lemma MonthlyDoubleFire(day: int, at: int)
    requires day >= 1 && WINDOW_OPEN < at <= WINDOW_CLOSE
    ensures Chain(MonthlyAt(day, at), DoubleFire(FirstDate(day), LaterDate(day), at))
    ensures !DatesAscend(DoubleFire(FirstDate(day), LaterDate(day), at))
  {
    var first, later := FirstDate(day), LaterDate(day);
    FirstMonths();
    MonthlyDates(day);
    AtParts(first, at);
    AtParts(later, WINDOW_OPEN);
    AtParts(later, at);
    DoubleFireIsLawful(MonthlyAt(day, at), first, later);
  }

  // ---- histories are runs ------------------------------------------------------------------------

  /** A daemon that wakes at the given instants, its actions all finishing. */
  function WakesAt(fires: seq<int>): (r: seq<Wake>)
    ensures |r| == |fires| && forall i :: 0 <= i < |r| ==> r[i] == WakeAt(fires[i])
  {
    seq(|fires|, i requires 0 <= i < |fires| => WakeAt(fires[i]))
  }

  function WakeAt(t: int): (w: Wake)
    ensures w.now == t && forall feed :: !w.attempt(feed).AuthFailure?
  {
    Wake(t, _ => Finished(0, ""))
  }

  lemma WakesAtClocked(c: Cadence, fires: seq<int>)
    requires Chain(c, fires)
    ensures Clocked(WakesAt(fires))
  {
  }

  lemma WakesAtSnoc(fires: seq<int>, t: int)
    ensures WakesAt(fires + [t]) == WakesAt(fires) + [WakeAt(t)]
  {
  }

  lemma ChainPrefix(c: Cadence, fires: seq<int>)
    requires Chain(c, fires) && fires != []
    ensures var n := |fires| - 1;
            && Chain(c, fires[..n]) && IsInstant(fires[n])
            && AppliesNow(c, fires[n]) && IsDue(c, Before(fires[..n]), fires[n])
  {
    var front := fires[..|fires| - 1];
    forall i | 0 <= i < |front| ensures AppliesNow(c, front[i]) && IsDue(c, Before(front[..i]), front[i]) {
      assert front[..i] == fires[..i];
    }
  }

  /** A tick over one feed records the fire that is due. */
  lemma OneFeedTick(rows: seq<RunRow>, s: FeedSchedule, now: int, attempt: string -> Attempt)
    requires WellFormed(s.cadence) && Instants(rows) && IsInstant(now) && Chain(s.cadence, Fires(rows, s.feed))
    requires AppliesNow(s.cadence, now) && IsDue(s.cadence, Before(Fires(rows, s.feed)), now)
    requires !attempt(s.feed).AuthFailure?
    ensures Fires(TickOver(rows, [s], now, attempt).rows, s.feed) == Fires(rows, s.feed) + [now]
  {
    hide Chain, IsDue, AppliesNow, Record;
    var fires, row := Fires(rows, s.feed), RowFor(s.feed, now, attempt(s.feed));
    if fires != [] {
      LatestOfChain(s.cadence, fires);
    }
    LawfulFireIsNew(rows, s, row, now);
    FiresOfAppend(rows, row, s.feed);
    assert [s][..0] == [];
  }

  lemma OneMoreTick(schedules: seq<FeedSchedule>, wakes: seq<Wake>, last: Wake)
    requires IsInstant(last.now) && Clocked(wakes)
    ensures var before := RunTicks([], schedules, wakes);
            RunTicks([], schedules, wakes + [last]) == TickOver(before, schedules, last.now, last.attempt).rows
  {
    assert (wakes + [last])[..|wakes|] == wakes;
  }

  lemma NoWakes(schedules: seq<FeedSchedule>, feed: string)
    ensures Fires(RunTicks([], schedules, WakesAt([])), feed) == []
  {
  }

  /** Every lawful history is the history of some run. */
  lemma {:induction false} ChainIsARun(c: Cadence, feed: string, fires: seq<int>)
    requires WellFormed(c) && Chain(c, fires)
    ensures Fires(RunTicks([], [FeedSchedule(feed, c)], WakesAt(fires)), feed) == fires
  {
    hide Chain, Clocked, Fires, TickOver, RunTicks, WakesAt, WakeAt;
    if fires == [] {
      NoWakes([FeedSchedule(feed, c)], feed);
    } else {
      var s, front, t := FeedSchedule(feed, c), fires[..|fires| - 1], fires[|fires| - 1];
      ChainPrefix(c, fires);
      WakesAtClocked(c, front);
      ChainIsARun(c, feed, front);
      WakesAtSnoc(front, t);
      OneMoreTick([s], WakesAt(front), WakeAt(t));
      OneFeedTick(RunTicks([], [s], WakesAt(front)), s, t, WakeAt(t).attempt);
      assert fires == front + [t];
    }
  }

  /** The wake-ups of a daemon whose table schedules the feed at the cadence. */
  ghost predicate IsRun(c: Cadence, feed: string, schedules: seq<FeedSchedule>, wakes: seq<Wake>) {
    WellFormedTable(schedules) && FeedSchedule(feed, c) in schedules && Clocked(wakes)
  }

  /** No run, of any table that schedules it, fires the feed twice on a date. */
  ghost predicate OncePerDate(c: Cadence) {
    forall feed, schedules, wakes :: IsRun(c, feed, schedules, wakes) ==>
      DatesAscend(Fires(RunTicks([], schedules, wakes), feed))
  }

  lemma RunDates(c: Cadence, feed: string, schedules: seq<FeedSchedule>, wakes: seq<Wake>)
    requires WellFormed(c) && !c.Interval? && !Collides(c) && IsRun(c, feed, schedules, wakes)
    ensures DatesAscend(Fires(RunTicks([], schedules, wakes), feed))
  {
    var fires := Fires(RunTicks([], schedules, wakes), feed);
    EveryRunIsLawful(schedules, wakes);
    var k :| 0 <= k < |schedules| && schedules[k] == FeedSchedule(feed, c);
    assert Chain(schedules[k].cadence, Fires(RunTicks([], schedules, wakes), schedules[k].feed));
    forall i, j | 0 <= i < j < |fires| ensures DateOf(fires[i]) < DateOf(fires[j]) {
      ChainDates(c, fires, i, j);
    }
  }

  /** A run whose fires are a history with two on one date. */
  lemma DoubleFireRuns(c: Cadence, fires: seq<int>)
    requires WellFormed(c) && Chain(c, fires) && !DatesAscend(fires)
    ensures !OncePerDate(c)
  {
    hide Chain, DatesAscend, WellFormed, Fires, RunTicks;
    var schedules := [FeedSchedule("", c)];
    ChainIsARun(c, "", fires);
    WakesAtClocked(c, fires);
    assert schedules[0] == FeedSchedule("", c);
    assert IsRun(c, "", schedules, WakesAt(fires));
  }

  /** "Never double-firing" holds per date over all runs of the daemon, for every calendar cadence,
      exactly when its time is not one the window opens before on a day it opens: a 09:05 daily feed
      fires twice on a Monday, a 09:00 feed and a Sunday feed cannot. */
  lemma OncePerDateIff(c: Cadence)
    requires WellFormed(c) && !c.Interval?
    ensures OncePerDate(c) <==> !Collides(c)
  {
    if Collides(c) {
      var fires := DoubleFireOf(c);
      DoubleFireRuns(c, fires);
    } else {
      forall feed, schedules, wakes | IsRun(c, feed, schedules, wakes)
        ensures DatesAscend(Fires(RunTicks([], schedules, wakes), feed)) {
        RunDates(c, feed, schedules, wakes);
      }
    }
  }

  lemma DoubleFireOf(c: Cadence) returns (fires: seq<int>)
    requires WellFormed(c) && !c.Interval? && Collides(c)
    ensures Chain(c, fires) && !DatesAscend(fires)
  {
    match c
    case DailyAt(at) =>
      DailyDoubleFire(at);
      fires := DoubleFire(5, 8, at);
    case WeeklyAt(weekday, at) =>
      WeeklyDoubleFire(weekday, at);
      fires := DoubleFire(1 + weekday, 15 + weekday, at);
    case MonthlyAt(day, at) =>
      MonthlyDoubleFire(day, at);
      fires := DoubleFire(FirstDate(day), LaterDate(day), at);
  }

  // ---- authentication failures and quiescence -------------------------------------------------------

  lemma OtherRecordKeeps(rows: seq<RunRow>, row: RunRow, feed: string)
    requires row.feed != feed
    ensures Fires(Record(rows, row), feed) == Fires(rows, feed)
  {
    FiresOfAppend(rows, row, feed);
  }

  /** A feed's turn leaves the run state of the others alone. */
  lemma OtherTurnKeeps(t: Tick, sched: FeedSchedule, now: int, attempt: string -> Attempt, feed: string)
    requires Instants(t.rows) && IsInstant(now) && sched.feed != feed
    ensures Fires(Turn(t, sched, now, attempt).rows, feed) == Fires(t.rows, feed)
  {
    if !attempt(sched.feed).AuthFailure? {
      OtherRecordKeeps(t.rows, RowFor(sched.feed, now, attempt(sched.feed)), feed);
    }
  }

  lemma {:induction false} TickAppends(rows: seq<RunRow>, schedules: seq<FeedSchedule>, n: nat, now: int,
                                       attempt: string -> Attempt, feed: string)
    requires Instants(rows) && IsInstant(now) && n <= |schedules|
    requires forall k :: 0 <= k < n ==> schedules[k].feed != feed
    ensures Fires(TickOver(rows, schedules[..n], now, attempt).rows, feed) == Fires(rows, feed)
  {
    if n > 0 {
      TickAppends(rows, schedules, n - 1, now, attempt, feed);
      assert schedules[..n][..n - 1] == schedules[..n - 1];
      OtherTurnKeeps(TickOver(rows, schedules[..n - 1], now, attempt), schedules[n - 1], now, attempt, feed);
    }
  }

  /** A halted tick was halted by a feed that was due: its run state and that of every feed after
      it are as they were, so the feed stays due. */
  lemma {:induction false} AuthFailureLeavesFeedDue(rows: seq<RunRow>, schedules: seq<FeedSchedule>, n: nat, now: int,
                                                    attempt: string -> Attempt)
    returns (k: nat)
    requires WellFormedTable(schedules) && Instants(rows) && IsInstant(now) && n <= |schedules|
    requires TickOver(rows, schedules[..n], now, attempt).halted
    ensures k < n && attempt(schedules[k].feed).AuthFailure?
    ensures CanFire(rows, schedules[k], now)
    ensures TickOver(rows, schedules[..n], now, attempt).rows == TickOver(rows, schedules[..k], now, attempt).rows
    ensures forall j :: k <= j < |schedules| ==>
              Fires(TickOver(rows, schedules[..n], now, attempt).rows, schedules[j].feed) ==
              Fires(rows, schedules[j].feed)
    ensures CanFire(TickOver(rows, schedules[..n], now, attempt).rows, schedules[k], now)
  {
    assert schedules[..n][..n - 1] == schedules[..n - 1];
    var t := TickOver(rows, schedules[..n - 1], now, attempt);
    assert TickOver(rows, schedules[..n], now, attempt) == Turn(t, schedules[n - 1], now, attempt);
    assert TickOver(rows, schedules[..n], now, attempt).rows == t.rows;
    if t.halted {
      k := AuthFailureLeavesFeedDue(rows, schedules, n - 1, now, attempt);
    } else {
      k := n - 1;
      forall j | k <= j < |schedules| ensures Fires(t.rows, schedules[j].feed) == Fires(rows, schedules[j].feed) {
        TickAppends(rows, schedules, k, now, attempt, schedules[j].feed);
      }
    }
  }

  /** After a tick that did not halt, nothing it visited can fire again at the same instant. */
  lemma {:induction false} TickIsQuiescent(rows: seq<RunRow>, schedules: seq<FeedSchedule>, n: nat, now: int,
                                           attempt: string -> Attempt, k: nat)
    requires WellFormedTable(schedules) && Lawful(rows, schedules) && IsInstant(now)
    requires k < n <= |schedules| && !TickOver(rows, schedules[..n], now, attempt).halted
    ensures !CanFire(TickOver(rows, schedules[..n], now, attempt).rows, schedules[k], now)
  {
    assert schedules[..n][..n - 1] == schedules[..n - 1];
    var t := TickOver(rows, schedules[..n - 1], now, attempt);
    TickPrefixIsLawful(rows, schedules, n - 1, now, attempt);
    if k < n - 1 {
      TickIsQuiescent(rows, schedules, n - 1, now, attempt, k);
      OtherTurnKeeps(t, schedules[n - 1], now, attempt, schedules[k].feed);
    } else {
      OwnTurnQuiets(t, schedules, k, now, attempt);
    }
  }

  lemma OwnTurnQuiets(t: Tick, schedules: seq<FeedSchedule>, k: nat, now: int, attempt: string -> Attempt)
    requires WellFormedTable(schedules) && Lawful(t.rows, schedules) && IsInstant(now) && k < |schedules|
    requires !Turn(t, schedules[k], now, attempt).halted
    ensures !CanFire(Turn(t, schedules[k], now, attempt).rows, schedules[k], now)
  {
    var sched := schedules[k];
    if CanFire(t.rows, sched, now) {
      var row := RowFor(sched.feed, now, attempt(sched.feed));
      LawfulFireIsNew(t.rows, sched, row, now);
      TurnIsLawful(t, schedules, k, now, attempt);
      assert (t.rows + [row])[..|t.rows|] == t.rows;
      LatestOfChain(sched.cadence, Fires(t.rows + [row], sched.feed));
      NextFireIsLater(sched.cadence, now, now);
    }
  }
}
