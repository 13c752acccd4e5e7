/** The decision engine of `currentflow/signals/engine.py`: gate, score, vetoes and the ARMED
    state. */
module Engine {
  import opened Models
  import opened Weights
  import opened Phase
  import opened Sms
  import Veto
  import Trigger
  import Store

  const ARMED_THRESHOLD := 70.0

  datatype State = GATE_REJECTED | VETOED | WATCH | ARMED

  datatype EngineResult = EngineResult(phase: Classification, score: real, vetoes: seq<Veto.Fired>, state: State)

  /** Python's `round(x, 2)`: to the nearest hundredth, halves to the even one. */
  function Round2(x: real): real {
    var y := x * 100.0;
    var low := y.Floor;
    var half := y - low as real;
    (if half < 0.5 || (half == 0.5 && low % 2 == 0) then low else low + 1) as real / 100.0
  }

  /** `_decide`. */
  function Decide(tradeable: bool, rejected: bool, score: real): State {
    if !tradeable then GATE_REJECTED
    else if rejected then VETOED
    else if score >= ARMED_THRESHOLD then ARMED
    else WATCH
  }

  function Conclude(c: Classification, score: real, vetoes: seq<Veto.Fired>): EngineResult {
    EngineResult(c, Round2(score), vetoes, Decide(c.tradeable, vetoes != [], Round2(score)))
  }

  /** `evaluate` on what was read from the store, with the three readings as they may be. */
  function EvaluateWith(w: Vector, e: Sms.Evidence, news: bool, r: Readings): EngineResult {
    var c := Classify(e.bars, r.vpa, r.vp);
    Conclude(c, Score(w, e, c, r), Veto.Evaluate(e.broker, e.bars, c, news, r.own))
  }

  function TrackWeights(track: string): Option<Vector> {
    if track == "A" then Some(TRACK_A_WEIGHTS) else if track == "B" then Some(TRACK_B_WEIGHTS) else None
  }

  /** With the configured weights; an unknown track is refused. */
  function Evaluate(e: Sms.Evidence, news: bool, r: Readings): Option<EngineResult> {
    var w := TrackWeights(e.track);
    if w.None? then None else Some(EvaluateWith(w.value, e, news, r))
  }

  /** The same decision, whatever notes and corroborations it carries. */
  ghost predicate SameDecision(a: EngineResult, b: EngineResult) {
    && SameButForNotes(a.phase, b.phase) && a.score == b.score && a.state == b.state
    && Veto.Reasons(a.vetoes) == Veto.Reasons(b.vetoes)
  }

  lemma ConfiguredWeightsUnfunded(track: string)
    requires TrackWeights(track).Some?
    ensures Unfunded(TrackWeights(track).value)
  {
  }

  /** Under the configured weights ownership, bar character and volume profile are annotations only:
      phase, tradeability, score, veto reasons and state are the same whatever they read. */
  lemma AnnotationsDecideNothing(e: Sms.Evidence, news: bool, r: Readings, q: Readings)
    requires TrackWeights(e.track).Some?
    ensures SameDecision(Evaluate(e, news, r).value, Evaluate(e, news, q).value)
  {
    var w := TrackWeights(e.track).value;
    ConfiguredWeightsUnfunded(e.track);
    UnfundedDecideNothing(w, e, news, r, q);
  }

  /** And so under any weights that leave the three candidates unfunded. */
  lemma UnfundedDecideNothing(w: Vector, e: Sms.Evidence, news: bool, r: Readings, q: Readings)
    requires Unfunded(w)
    ensures SameDecision(EvaluateWith(w, e, news, r), EvaluateWith(w, e, news, q))
  {
    NotesMoveNothing(e.bars, r.vpa, r.vp, q.vpa, q.vp);
    var a, b := Classify(e.bars, r.vpa, r.vp), Classify(e.bars, q.vpa, q.vp);
    ScoreIgnores(w, e, a, r, b, q);
    Veto.OwnershipFiresNothing(e.broker, e.bars, a, b, news, r.own, q.own);
    SameConclusion(a, b, Score(w, e, a, r),
                   Veto.Evaluate(e.broker, e.bars, a, news, r.own), Veto.Evaluate(e.broker, e.bars, b, news, q.own));
  }

  lemma SameConclusion(a: Classification, b: Classification, score: real, x: seq<Veto.Fired>, y: seq<Veto.Fired>)
    requires SameButForNotes(a, b) && Veto.Reasons(x) == Veto.Reasons(y)
    ensures SameDecision(Conclude(a, score, x), Conclude(b, score, y))
  {
    SameLength(x, y);
  }

  lemma SameLength(a: seq<Veto.Fired>, b: seq<Veto.Fired>)
    requires Veto.Reasons(a) == Veto.Reasons(b)
    ensures a == [] <==> b == []
  {
    assert |Veto.Reasons(a)| == |a| && |Veto.Reasons(b)| == |b|;
  }

  // ---- when a name is armed -------------------------------------------------------------------------------

  lemma RoundReaches(x: real)
    ensures Round2(x) >= 70.0 <==> x >= 69.995
  {
    var y := x * 100.0;
    assert y >= 6999.5 <==> x >= 69.995;
    assert y.Floor as real <= y < y.Floor as real + 1.0;
  }

  /** ARMED is phase C or D, nothing vetoed, and a score that rounds to 70: one of 69.995 or more, not
      of 70 or more. */
  lemma ArmedIff(w: Vector, e: Sms.Evidence, news: bool, r: Readings)
    ensures var result := EvaluateWith(w, e, news, r);
            result.state == ARMED <==>
            && result.phase.phase in {C, D} && Score(w, e, result.phase, r) >= 69.995
            && !news && Veto.Observe(e.broker, e.bars).Clear()
  {
    var c := Classify(e.bars, r.vpa, r.vp);
    RoundReaches(Score(w, e, c, r));
    Veto.PassesIff(e.broker, e.bars, c, news, r.own);
  }

  /** What reaches the trigger: an armed name on bars read from the store always has its trigger bar,
      and a valid trigger keeps stop < entry < target at twice the risk. */
  lemma ArmedHasTrigger(t: Store.BarTable, symbol: string, ts: int, start: Option<int>, end: Option<int>,
                        w: Vector, e: Sms.Evidence, news: bool, r: Readings)
    requires e.bars == Store.ReadBars(t, symbol, ts, start, end)
    requires Classify(e.bars, r.vpa, r.vp).phase == D ==> Trigger.Sane(e.bars)
    requires EvaluateWith(w, e, news, r).state == ARMED
    ensures var s := Trigger.Detect(EvaluateWith(w, e, news, r).phase, e.bars);
            && (s.Skip? ==> s.why == Trigger.Incoherent)
            && (s.Entry? ==> s.stop < s.entry < s.target)
            && (s.Entry? && s.valid ==> s.target - s.entry >= Trigger.RR_MIN * (s.entry - s.stop))
  {
    Trigger.VerdictGivesTrigger(e.bars, r.vpa, r.vp);
  }
}
