/** `currentflow/signals/replay.py` as a client of the store: one frame per weekday, each built
    from what was visible at that day's own decision moment. */
module Replay {
  import opened Models
  import opened Sequences
  import opened Tables
  import opened Store
  import Phase

  const MINUTES_PER_DAY: int := 1440
  const HISTORY_LOOKBACK_DAYS: int := 45
  const PHASE_LOOKBACK_DAYS: int := 150
  const AVG_WINDOW_DAYS: nat := 20

  datatype Frame = Frame(
    date: int, decisionTs: int,
    close: Option<real>, prevClose: Option<real>, changePct: Option<real>,
    volume: Option<real>, rvol: Option<real>,
    brokerNetTotal: Option<real>, phase: Phase.WyckoffPhase)

  /** The netting of the day's broker rows, which come in no particular order. */
  type Netting = map<Partition, BrokerRow> -> Option<real>

  /** `frame_decision_ts`: the next calendar day at the decision time (minutes). */
  function FrameTs(day: int, decisionTime: int): int {
    (day + 1) * MINUTES_PER_DAY + decisionTime
  }

  function LastClose(bars: seq<DailyBar>): Option<real> {
    if bars == [] then None else bars[|bars| - 1].close
  }

  function KnownVolumes(bars: seq<DailyBar>): seq<real> {
    if bars == [] then []
    else KnownVolumes(bars[..|bars| - 1])
         + match bars[|bars| - 1].volume { case Some(v) => [v] case None => [] }
  }

  function Tail<T>(xs: seq<T>, n: nat): seq<T> {
    if |xs| <= n then xs else xs[|xs| - n..]
  }

  function RelativeVolume(bar: Option<DailyBar>, prior: seq<DailyBar>): Option<real> {
    if bar.None? || bar.value.volume.None? then None
    else
      var vols := KnownVolumes(Tail(prior, AVG_WINDOW_DAYS));
      if vols == [] then None
      else
        var mean := Sum(vols) / |vols| as real;
        if mean > 0.0 then Some(bar.value.volume.value / mean) else None
  }

  /** The fields of a frame, from what was read for it. */
  function FrameFrom(day: int, ts: int, bars: seq<DailyBar>,
                     brokers: map<Partition, BrokerRow>, base: seq<DailyBar>, net: Netting): Frame
  {
    var bar := if bars != [] && bars[|bars| - 1].date == day then Some(bars[|bars| - 1]) else None;
    var prior := Filter(bars, (b: DailyBar) => b.date < day);
    var prevClose := LastClose(prior);
    var close := if bar.Some? then bar.value.close else None;
    var change := if close.Some? && prevClose.Some? && prevClose.value != 0.0
                  then Some((close.value - prevClose.value) / prevClose.value * 100.0) else None;
    Frame(day, ts, close, prevClose, change,
          if bar.Some? then bar.value.volume else None,
          RelativeVolume(bar, prior), net(brokers), Phase.Classify(base, None, None).phase)
  }

  /** `build_frame`. */
  function BuildFrame(db: Db, symbol: string, day: int, decisionTime: int, net: Netting): Frame {
    var ts := FrameTs(day, decisionTime);
    FrameFrom(day, ts,
              ReadBars(db.bars, symbol, ts, Some(day - HISTORY_LOOKBACK_DAYS), Some(day)),
              ReadBroker(db.broker, symbol, ts, Some(day), Some(day)),
              ReadBars(db.bars, symbol, ts, Some(day - PHASE_LOOKBACK_DAYS), Some(day)),
              net)
  }

  function Frames(db: Db, symbol: string, start: int, end: int, decisionTime: int, net: Netting): seq<Frame>
    decreases end - start
  {
    if end < start then []
    else if IsWeekday(end) then
      Frames(db, symbol, start, end - 1, decisionTime, net) + [BuildFrame(db, symbol, end, decisionTime, net)]
    else Frames(db, symbol, start, end - 1, decisionTime, net)
  }

  lemma FramesStep(db: Db, symbol: string, start: int, end: int, decisionTime: int, net: Netting)
    requires start <= end
    ensures Frames(db, symbol, start, end, decisionTime, net)
            == Frames(db, symbol, start, end - 1, decisionTime, net)
               + if IsWeekday(end) then [BuildFrame(db, symbol, end, decisionTime, net)] else []
  {
    hide BuildFrame;
  }

  /** `build_replay`. */
  method BuildReplay(store: Store, symbol: string, start: int, end: int, decisionTime: int, net: Netting)
    returns (frames: seq<Frame>)
    ensures frames == Frames(store.Contents(), symbol, start, end, decisionTime, net)
  {
    hide BuildFrame;
    frames := [];
    var d := start;
    while d <= end
      invariant start <= d
      invariant d <= end + 1 || d == start
      invariant frames == Frames(store.Contents(), symbol, start, d - 1, decisionTime, net)
    {
      FramesStep(store.Contents(), symbol, start, d, decisionTime, net);
      if IsWeekday(d) {
        frames := frames + [BuildFrame(store.Contents(), symbol, d, decisionTime, net)];
      }
      d := d + 1;
    }
  }

  /** A frame depends on nothing stamped at or after its own decision moment. */
  lemma FrameUsesItsPast(a: Db, b: Db, symbol: string, day: int, decisionTime: int, net: Netting)
    requires AgreeBelow(a, b, FrameTs(day, decisionTime))
    ensures BuildFrame(a, symbol, day, decisionTime, net) == BuildFrame(b, symbol, day, decisionTime, net)
  {
    var ts := FrameTs(day, decisionTime);
    AgreeingStoresReadAlike(a, b, ts, symbol, Some(day - HISTORY_LOOKBACK_DAYS), Some(day));
    AgreeingStoresReadAlike(a, b, ts, symbol, Some(day - PHASE_LOOKBACK_DAYS), Some(day));
    AgreeingStoresReadAlike(a, b, ts, symbol, Some(day), Some(day));
  }

  /** Stores that agree below the last frame's decision moment replay identically. */
  lemma {:induction false} ReplayUsesItsPast(a: Db, b: Db, symbol: string, start: int, end: int, decisionTime: int,
                                             net: Netting)
    requires AgreeBelow(a, b, FrameTs(end, decisionTime))
    ensures Frames(a, symbol, start, end, decisionTime, net) == Frames(b, symbol, start, end, decisionTime, net)
    decreases end - start
  {
    hide AgreeBelow, BuildFrame;
    if start <= end {
      AgreeEarlier(a, b, FrameTs(end, decisionTime), FrameTs(end - 1, decisionTime));
      ReplayUsesItsPast(a, b, symbol, start, end - 1, decisionTime, net);
      FrameUsesItsPast(a, b, symbol, end, decisionTime, net);
    }
  }

  /** A replay shows what a live read showed: whatever is written afterwards with later stamps,
      the frames of `[start, end]` stay what they were when `end`'s decision was due. */
  lemma ReplayIsStable(db: Db, later: seq<Write>, symbol: string, start: int, end: int, decisionTime: int, net: Netting)
    requires forall i :: 0 <= i < |later| ==> StampedFrom(later[i], FrameTs(end, decisionTime))
    ensures Frames(ApplyAll(db, later), symbol, start, end, decisionTime, net)
         == Frames(db, symbol, start, end, decisionTime, net)
  {
    LaterWritesAgree(db, later, FrameTs(end, decisionTime));
    ReplayUsesItsPast(ApplyAll(db, later), db, symbol, start, end, decisionTime, net);
  }

  /** Every row of the call is stamped at or after `ts`. */
  ghost predicate StampedFrom(w: Write, ts: int) {
    match w
    case WriteBars(rows) => forall i :: 0 <= i < |rows| ==> rows[i].0.asOf >= ts
    case WriteBroker(rows) => forall i :: 0 <= i < |rows| ==> rows[i].0.asOf >= ts
  }

  lemma {:induction false} LaterWritesAgree(db: Db, later: seq<Write>, ts: int)
    requires forall i :: 0 <= i < |later| ==> StampedFrom(later[i], ts)
    ensures AgreeBelow(ApplyAll(db, later), db, ts)
  {
    if later != [] {
      var front, last := later[..|later| - 1], later[|later| - 1];
      LaterWritesAgree(db, front, ts);
      var before := ApplyAll(db, front);
      match last
      case WriteBars(rows) => FutureRowsInvisible(before.bars, rows, BarAsOf, ts);
      case WriteBroker(rows) => FutureRowsInvisible(before.broker, rows, BrokerAsOf, ts);
    }
  }

  /** Extending a replay only appends frames. */
  lemma {:induction false} LongerReplayExtends(db: Db, symbol: string, start: int, mid: int, end: int,
                                               decisionTime: int, net: Netting)
    requires mid <= end
    ensures Frames(db, symbol, start, mid, decisionTime, net) <= Frames(db, symbol, start, end, decisionTime, net)
    decreases end - mid
  {
    if mid < end {
      LongerReplayExtends(db, symbol, start, mid, end - 1, decisionTime, net);
    }
  }
}
