/** `optimize_weights` of `currentflow/ml/optimizer.py`: coordinate ascent over the weight
    simplex.  A candidate's score is an abstract deterministic function of its weights. */
module Optimizer {
  import opened Models
  import opened Weights

  /** `_score`: in-sample objective, worst out-of-sample fold, number of trades. */
  datatype Score = Score(train: Option<real>, oos: Option<real>, trades: nat)

  type Evaluate = Vector -> Score

  datatype Proposal = Proposal(
    track: string, weights: Vector, incumbent: Vector,
    trainSharpe: Option<real>, oosSharpe: Option<real>, incumbentOos: Option<real>,
    trades: nat, improved: bool)

  datatype MlError = NotAdmitted | InvalidWeights

  // ---- the search ------------------------------------------------------------------------

  datatype State = State(current: Vector, best: Option<real>)

  /** Whether the inner loop takes a candidate. */
  predicate Beats(objective: Option<real>, best: Option<real>) {
    objective.Some? && (best.None? || objective.value > best.value)
  }

  function Consider(st: State, cand: Vector, eval: Evaluate): State {
    if Beats(eval(cand).train, st.best) then State(cand, eval(cand).train) else st
  }

  /** One pass over the candidates. */
  function Sweep(st: State, cands: seq<Vector>, eval: Evaluate): State {
    if cands == [] then st
    else Consider(Sweep(st, cands[..|cands| - 1], eval), cands[|cands| - 1], eval)
  }

  /** At most `iters` passes, stopping after one that accepts nothing.  The result lists the
      state at the start and after every accepting pass. */
  function Climb(track: string, st: State, step: int, iters: nat, eval: Evaluate): (path: seq<State>)
    requires Keyed(st.current)
    ensures path != [] && path[0] == st && |path| <= iters + 1
    ensures forall i :: 0 <= i < |path| ==> Keyed(path[i].current)
    decreases iters
  {
    if iters == 0 then [st]
    else
      var next := Sweep(st, Neighbours(track, st.current, step), eval);
      SweepIsKeyed(track, st, step, eval);
      if next == st then [st] else [st] + Climb(track, next, step, iters - 1, eval)
  }

  lemma MoveIsKeyed(track: string, w: Vector, step: int, v: Vector)
    requires Keyed(w) && v in Neighbours(track, w, step)
    ensures Keyed(v)
  {
    NeighboursAreMoves(track, w, step, v);
  }

  lemma SweepIsKeyed(track: string, st: State, step: int, eval: Evaluate)
    requires Keyed(st.current)
    ensures Keyed(Sweep(st, Neighbours(track, st.current, step), eval).current)
  {
    var cands := Neighbours(track, st.current, step);
    SweepPicks(st, cands, eval);
    var after := Sweep(st, cands, eval);
    if after != st {
      MoveIsKeyed(track, st.current, step, after.current);
    }
  }

  /** A pass either changes nothing, and then no candidate beats the state, or ends on the first
      candidate of the highest objective, and then that beats the state. */
  lemma {:induction false} SweepPicks(st: State, cands: seq<Vector>, eval: Evaluate)
    ensures var after := Sweep(st, cands, eval);
            && (forall i :: 0 <= i < |cands| ==> !Beats(eval(cands[i]).train, after.best))
            && (after == st
                || exists i :: 0 <= i < |cands| && cands[i] == after.current
                     && after.best == eval(after.current).train && Beats(after.best, st.best)
                     && forall j :: 0 <= j < i ==> Beats(after.best, eval(cands[j]).train))
  {
    if cands != [] {
      var front, last := cands[..|cands| - 1], cands[|cands| - 1];
      SweepPicks(st, front, eval);
      var mid, after := Sweep(st, front, eval), Sweep(st, cands, eval);
      if Beats(eval(last).train, mid.best) {
        assert cands[|cands| - 1] == after.current;
        assert forall j :: 0 <= j < |cands| - 1 ==> cands[j] == front[j];
      } else if mid != st {
        var i :| 0 <= i < |front| && front[i] == mid.current
          && mid.best == eval(mid.current).train && Beats(mid.best, st.best)
          && forall j :: 0 <= j < i ==> Beats(mid.best, eval(front[j]).train);
        assert cands[i] == after.current;
        assert forall j :: 0 <= j < i ==> cands[j] == front[j];
      }
    }
  }

  function Last(path: seq<State>): State
    requires path != []
  {
    path[|path| - 1]
  }

  lemma NoPass(track: string, st: State, step: int, eval: Evaluate)
    requires Keyed(st.current)
    ensures Last(Climb(track, st, step, 0, eval)) == st
  {
  }

  /** Where a search ends, by its first pass. */
  lemma ClimbStep(track: string, st: State, step: int, iters: nat, eval: Evaluate)
    requires Keyed(st.current) && iters > 0
    ensures var next := Sweep(st, Neighbours(track, st.current, step), eval);
            && Keyed(next.current)
            && Last(Climb(track, st, step, iters, eval))
               == if next == st then st else Last(Climb(track, next, step, iters - 1, eval))
  {
    SweepIsKeyed(track, st, step, eval);
  }

  function Start(incumbent: Vector, eval: Evaluate): State {
    State(incumbent, eval(incumbent).train)
  }

  function AtLeast(a: Option<real>, b: Option<real>): bool {
    b.None? || (a.Some? && a.value >= b.value)
  }

  function Improves(oos: Option<real>, incumbentOos: Option<real>, changed: bool): bool {
    oos.Some? && oos.value > 0.0 && AtLeast(oos, incumbentOos) && changed
  }

  /** What `optimize_weights` returns or raises. */
  function Optimize(track: string, admitted: bool, incumbent: Vector, step: int, maxIters: nat, eval: Evaluate)
    : Result<Proposal, MlError>
  {
    if !admitted then Err(NotAdmitted)
    else if !IsValid(track, incumbent) then Err(InvalidWeights)
    else
      ValidIsKeyed(track, incumbent);
      var found := Last(Climb(track, Start(incumbent, eval), step, maxIters, eval)).current;
      if !IsValid(track, found) then Err(InvalidWeights)
      else
        var score := eval(found);
        var was := eval(incumbent);
        Ok(Proposal(track, found, incumbent, score.train, score.oos, was.oos, score.trades,
                    Improves(score.oos, was.oos, found != incumbent)))
  }

  /** `optimize_weights`. */
  method OptimizeWeights(track: string, admitted: bool, incumbent: Vector, step: int, maxIters: nat, eval: Evaluate)
    returns (r: Result<Proposal, MlError>)
    ensures r == Optimize(track, admitted, incumbent, step, maxIters, eval)
  {
    hide Keyed, Climb, Last, Sweep, Neighbours;
    if !admitted {
      return Err(NotAdmitted);
    }
    if !IsValid(track, incumbent) {
      return Err(InvalidWeights);
    }
    ValidIsKeyed(track, incumbent);
    var current, best := incumbent, eval(incumbent).train;
    var iter := 0;
    var improvedHere := true;
    ghost var goal := Last(Climb(track, Start(incumbent, eval), step, maxIters, eval));
    while iter < maxIters && improvedHere
      invariant 0 <= iter <= maxIters && Keyed(current)
      invariant improvedHere ==> goal == Last(Climb(track, State(current, best), step, maxIters - iter, eval))
      invariant !improvedHere ==> goal == State(current, best)
    {
      var cands := ComputeNeighbours(track, current, step);
      var st := State(current, best);
      ClimbStep(track, st, step, maxIters - iter, eval);
      current, best, improvedHere := RunSweep(st, cands, eval);
      iter := iter + 1;
    }
    if improvedHere {
      NoPass(track, State(current, best), step, eval);
    }
    if !IsValid(track, current) {
      return Err(InvalidWeights);
    }
    var score, was := eval(current), eval(incumbent);
    return Ok(Proposal(track, current, incumbent, score.train, score.oos, was.oos, score.trades,
                       Improves(score.oos, was.oos, current != incumbent)));
  }

  /** The inner loop of the search. */
  method RunSweep(st: State, cands: seq<Vector>, eval: Evaluate)
    returns (current: Vector, best: Option<real>, improvedHere: bool)
    ensures State(current, best) == Sweep(st, cands, eval)
    ensures improvedHere <==> Sweep(st, cands, eval) != st
  {
    current, best, improvedHere := st.current, st.best, false;
    for i := 0 to |cands|
      invariant State(current, best) == Sweep(st, cands[..i], eval)
      invariant if improvedHere then Beats(best, st.best) else State(current, best) == st
    {
      assert cands[..i + 1][..i] == cands[..i];
      var objective := eval(cands[i]).train;
      if Beats(objective, best) {
        current, best, improvedHere := cands[i], objective, true;
      }
    }
    assert cands[..|cands|] == cands;
  }

  // ---- what the search promises --------------------------------------------------------------

  /** Each state of the path carries the objective of its weights. */
  ghost predicate Honest(st: State, eval: Evaluate) {
    st.best == eval(st.current).train
  }

  lemma SweepRises(track: string, st: State, step: int, eval: Evaluate)
    requires Keyed(st.current) && Honest(st, eval)
    ensures var next := Sweep(st, Neighbours(track, st.current, step), eval);
            Keyed(next.current) && Honest(next, eval) && (next != st ==> Beats(next.best, st.best))
  {
    SweepPicks(st, Neighbours(track, st.current, step), eval);
    SweepIsKeyed(track, st, step, eval);
  }

  /** The objective strictly rises along the path. */
  lemma {:induction false} ObjectiveRises(track: string, st: State, step: int, iters: nat, eval: Evaluate, i: nat,
                                          j: nat)
    requires Keyed(st.current) && Honest(st, eval)
    requires i < j < |Climb(track, st, step, iters, eval)|
    ensures var path := Climb(track, st, step, iters, eval);
            Honest(path[i], eval) && Honest(path[j], eval) && Beats(path[j].best, path[i].best)
    decreases iters
  {
    hide Honest, Beats, Keyed, Sweep, Neighbours;
    var next := Sweep(st, Neighbours(track, st.current, step), eval);
    SweepRises(track, st, step, eval);
    if i > 0 {
      ObjectiveRises(track, next, step, iters - 1, eval, i - 1, j - 1);
    } else if j > 1 {
      ObjectiveRises(track, next, step, iters - 1, eval, 0, j - 1);
      BeatsAgain(Climb(track, next, step, iters - 1, eval)[j - 1].best, next.best, st.best);
    }
  }

  lemma BeatsAgain(a: Option<real>, b: Option<real>, c: Option<real>)
    requires Beats(a, b) && Beats(b, c)
    ensures Beats(a, c)
  {
  }

  /** No weight vector is visited twice. */
  lemma NoVectorRepeats(track: string, incumbent: Vector, step: int, iters: nat, eval: Evaluate, i: nat, j: nat)
    requires Keyed(incumbent)
    requires i < j < |Climb(track, Start(incumbent, eval), step, iters, eval)|
    ensures var path := Climb(track, Start(incumbent, eval), step, iters, eval);
            path[i].current != path[j].current
  {
    ObjectiveRises(track, Start(incumbent, eval), step, iters, eval, i, j);
  }

  /** A path that ends before the pass limit ends on a local maximum over all neighbours. */
  lemma {:induction false} EarlyStopIsLocalMaximum(track: string, st: State, step: int, iters: nat, eval: Evaluate,
                                                   v: Vector)
    requires Keyed(st.current)
    requires |Climb(track, st, step, iters, eval)| <= iters
    requires v in Neighbours(track, Last(Climb(track, st, step, iters, eval)).current, step)
    ensures !Beats(eval(v).train, Last(Climb(track, st, step, iters, eval)).best)
    decreases iters
  {
    hide Keyed, Neighbours, Sweep, Beats;
    var cands := Neighbours(track, st.current, step);
    var next := Sweep(st, cands, eval);
    SweepPicks(st, cands, eval);
    SweepIsKeyed(track, st, step, eval);
    if next != st {
      EarlyStopIsLocalMaximum(track, next, step, iters - 1, eval, v);
    } else {
      var i :| 0 <= i < |cands| && cands[i] == v;
    }
  }

  ghost predicate Congruent(w: Vector, v: Vector, step: int)
    requires v.Keys == w.Keys
  {
    forall c :: c in w ==> exists k: int {:trigger k * step} :: v[c] == w[c] + k * step
  }

  lemma CongruentStep(w: Vector, v: Vector, u: Vector, step: int)
    requires w.Keys == v.Keys == u.Keys && Congruent(w, v, step) && WithinStep(v, u, step)
    ensures Congruent(w, u, step)
  {
    forall c | c in w ensures exists k: int {:trigger k * step} :: u[c] == w[c] + k * step {
      var k :| v[c] == w[c] + k * step;
      assert u[c] == w[c] + k * step || u[c] == w[c] + (k + 1) * step || u[c] == w[c] + (k - 1) * step;
    }
  }

  lemma CongruentToSelf(w: Vector, step: int)
    ensures Congruent(w, w, step)
  {
    assert 0 * step == 0;
  }

  /** The whole search stays on the locked simplex, on the grid of the incumbent. */
  lemma {:induction false} PathStaysValid(track: string, origin: Vector, st: State, step: int, iters: nat,
                                          eval: Evaluate)
    requires IsValid(track, st.current) && Keyed(st.current) && step >= 0
    requires origin.Keys == st.current.Keys && Congruent(origin, st.current, step)
    ensures var w := Last(Climb(track, st, step, iters, eval)).current;
            IsValid(track, w) && w.Keys == origin.Keys && Congruent(origin, w, step)
    decreases iters
  {
    hide IsValid, Congruent, Keyed, Sweep, Neighbours, Climb, Last;
    if iters == 0 {
      NoPass(track, st, step, eval);
    } else {
      var next := Sweep(st, Neighbours(track, st.current, step), eval);
      SweepStaysValid(track, origin, st, step, eval);
      ClimbStep(track, st, step, iters, eval);
      if next != st {
        PathStaysValid(track, origin, next, step, iters - 1, eval);
      }
    }
  }

  lemma SweepStaysValid(track: string, origin: Vector, st: State, step: int, eval: Evaluate)
    requires IsValid(track, st.current) && Keyed(st.current) && step >= 0
    requires origin.Keys == st.current.Keys && Congruent(origin, st.current, step)
    ensures var w := Sweep(st, Neighbours(track, st.current, step), eval).current;
            IsValid(track, w) && Keyed(w) && w.Keys == origin.Keys && Congruent(origin, w, step)
  {
    var cands := Neighbours(track, st.current, step);
    var next := Sweep(st, cands, eval);
    SweepPicks(st, cands, eval);
    if next != st {
      NeighbourIsValid(track, st.current, step, next.current);
      CongruentStep(origin, st.current, next.current, step);
    }
  }

  /** The search as a whole: from valid weights and a non-negative step it raises nothing, the
      proposal is valid and on the incumbent's grid, its objective is at least the incumbent's
      and strictly above it unless nothing changed. */
  lemma ProposalIsSound(track: string, incumbent: Vector, step: int, maxIters: nat, eval: Evaluate)
    requires IsValid(track, incumbent) && step >= 0
    ensures var r := Optimize(track, true, incumbent, step, maxIters, eval);
            && r.Ok? && IsValid(track, r.value.weights)
            && r.value.weights.Keys == incumbent.Keys && Congruent(incumbent, r.value.weights, step)
            && r.value.trainSharpe == eval(r.value.weights).train
            && (r.value.weights == incumbent || Beats(r.value.trainSharpe, eval(incumbent).train))
  {
    ValidIsKeyed(track, incumbent);
    var st := Start(incumbent, eval);
    var path := Climb(track, st, step, maxIters, eval);
    CongruentToSelf(incumbent, step);
    PathStaysValid(track, incumbent, st, step, maxIters, eval);
    if |path| > 1 {
      ObjectiveRises(track, st, step, maxIters, eval, 0, |path| - 1);
    }
  }

  /** An improved proposal never degrades the out-of-sample figure. */
  lemma ImprovedNeverDegrades(track: string, admitted: bool, incumbent: Vector, step: int, maxIters: nat,
                              eval: Evaluate)
    requires var r := Optimize(track, admitted, incumbent, step, maxIters, eval); r.Ok? && r.value.improved
    ensures var p := Optimize(track, admitted, incumbent, step, maxIters, eval).value;
            && eval(p.weights).oos.Some? && eval(p.weights).oos.value > 0.0
            && AtLeast(eval(p.weights).oos, eval(incumbent).oos) && p.weights != incumbent
  {
  }

  // ---- the final validation ------------------------------------------------------------------

  /** As many steps as there are passes. */
  function Reach(iters: nat, step: int): int {
    if iters == 0 then 0 else Reach(iters - 1, step) + step
  }

  lemma {:induction false} ReachIs(iters: nat, step: int)
    ensures Reach(iters, step) == iters * step
  {
    if iters > 0 {
      ReachIs(iters - 1, step);
      assert iters * step == (iters - 1) * step + step;
    }
  }

  /** `v` has the keys and the sum of `w`, its locked components, and no component lower by more
      than `drop`. */
  ghost predicate Lowered(track: string, w: Vector, v: Vector, drop: int) {
    && v.Keys == w.Keys && Total(v, COMPONENTS) == Total(w, COMPONENTS)
    && (forall c :: c in w && c in LockedZeros(track) ==> v[c] == w[c])
    && forall c :: c in w && c !in LockedZeros(track) ==> v[c] >= w[c] - drop
  }

  lemma NeighbourIsLowered(track: string, w: Vector, step: int, v: Vector)
    requires Keyed(w) && step < 0 && v in Neighbours(track, w, step)
    ensures Keyed(v) && Lowered(track, w, v, -step)
  {
    NeighboursAreMoves(track, w, step, v);
    var src, dst :| src in w && dst in w && src != dst && w[src] >= step
      && src !in LockedZeros(track) && dst !in LockedZeros(track) && v == Move(w, src, dst, step);
    MoveIsLowered(track, w, step, src, dst);
  }

  lemma MoveIsLowered(track: string, w: Vector, step: int, src: Component, dst: Component)
    requires Keyed(w) && step < 0 && src != dst
    requires src !in LockedZeros(track) && dst !in LockedZeros(track)
    ensures Lowered(track, w, Move(w, src, dst, step), -step)
  {
    EveryComponentListed(src);
    EveryComponentListed(dst);
    ComponentsDistinct();
    MoveKeepsTotal(w, src, dst, step, COMPONENTS);
  }

  lemma SweepIsLowered(track: string, st: State, step: int, eval: Evaluate)
    requires Keyed(st.current) && step < 0
    ensures var w := Sweep(st, Neighbours(track, st.current, step), eval).current;
            Keyed(w) && Lowered(track, st.current, w, -step)
  {
    var cands := Neighbours(track, st.current, step);
    var next := Sweep(st, cands, eval);
    SweepPicks(st, cands, eval);
    if next != st {
      NeighbourIsLowered(track, st.current, step, next.current);
    }
  }

  /** `iters` passes lower no unlocked component by more than `iters` steps. */
  lemma {:induction false} ClimbIsLowered(track: string, st: State, step: int, iters: nat, eval: Evaluate)
    requires Keyed(st.current) && step < 0
    ensures Lowered(track, st.current, Last(Climb(track, st, step, iters, eval)).current, -Reach(iters, step))
    decreases iters
  {
    hide Lowered, Keyed, Reach, Sweep, Neighbours, Climb, Last;
    var next := Sweep(st, Neighbours(track, st.current, step), eval);
    if iters == 0 {
      NoPass(track, st, step, eval);
      NotLowered(track, st.current, step, iters);
    } else if next == st {
      ClimbStep(track, st, step, iters, eval);
      NotLowered(track, st.current, step, iters);
    } else {
      SweepIsLowered(track, st, step, eval);
      ClimbIsLowered(track, next, step, iters - 1, eval);
      LoweredAgain(track, st.current, next.current, Last(Climb(track, next, step, iters - 1, eval)).current, step,
                   iters);
      ClimbStep(track, st, step, iters, eval);
    }
  }

  lemma NotLowered(track: string, w: Vector, step: int, iters: nat)
    requires step < 0
    ensures Lowered(track, w, w, -Reach(iters, step))
  {
    ReachNegative(iters, step);
  }

  lemma {:induction false} ReachNegative(iters: nat, step: int)
    requires step < 0
    ensures Reach(iters, step) <= 0
  {
    if iters > 0 {
      ReachNegative(iters - 1, step);
    }
  }

  lemma LoweredAgain(track: string, w: Vector, v: Vector, u: Vector, step: int, iters: nat)
    requires iters > 0 && Lowered(track, w, v, -step) && Lowered(track, v, u, -Reach(iters - 1, step))
    ensures Lowered(track, w, u, -Reach(iters, step))
  {
  }

  /** An evaluation that pays for lowering one component. */
  function Lowering(c: Component): Evaluate {
    v => Score(if c in v then Some(-v[c] as real) else None, None, 0)
  }

  /** Every component but `c` can give. */
  ghost predicate OthersHold(w: Vector, c: Component) {
    forall d :: d in w && d != c ==> w[d] >= 0
  }

  /** With a negative step, and paid to, one pass lowers the component by one step. */
  lemma LoweringPass(track: string, w: Vector, c: Component, step: int)
    requires Keyed(w) && c !in LockedZeros(track) && step < 0 && OthersHold(w, c)
    ensures var st := Start(w, Lowering(c)); var next := Sweep(st, Neighbours(track, w, step), Lowering(c));
            && next != st && next == Start(next.current, Lowering(c))
            && Keyed(next.current) && next.current[c] == w[c] + step && OthersHold(next.current, c)
  {
    var eval, cands := Lowering(c), Neighbours(track, w, step);
    var st := Start(w, eval);
    var next := Sweep(st, cands, eval);
    SweepPicks(st, cands, eval);
    var down := LowerNeighbour(track, w, c, step);
    var i :| 0 <= i < |cands| && cands[i] == down;
    assert !Beats(eval(cands[i]).train, next.best);
    assert next != st;
    LoweringMove(track, w, c, step, next.current);
  }

  /** The move that lowers `c`. */
  lemma LowerNeighbour(track: string, w: Vector, c: Component, step: int) returns (v: Vector)
    requires Keyed(w) && c !in LockedZeros(track) && step < 0 && OthersHold(w, c)
    ensures v in Neighbours(track, w, step) && c in v && v[c] == w[c] + step
  {
    var src := if c == DIVERGENCE then RVOL else DIVERGENCE;
    v := Move(w, src, c, step);
    assert IsMove(track, w, v, step);
    NeighboursAreMoves(track, w, step, v);
  }

  /** A neighbour with `c` lower by a step took nothing from the other components. */
  lemma LoweringMove(track: string, w: Vector, c: Component, step: int, v: Vector)
    requires Keyed(w) && step < 0 && OthersHold(w, c) && v in Neighbours(track, w, step)
    requires c in v && v[c] <= w[c] + step
    ensures Keyed(v) && v[c] == w[c] + step && OthersHold(v, c)
  {
    NeighboursAreMoves(track, w, step, v);
    var src, dst :| src in w && dst in w && src != dst && w[src] >= step
      && src !in LockedZeros(track) && dst !in LockedZeros(track) && v == Move(w, src, dst, step);
    MoveLowers(w, c, step, src, dst);
  }

  lemma MoveLowers(w: Vector, c: Component, step: int, src: Component, dst: Component)
    requires Keyed(w) && step < 0 && OthersHold(w, c) && src != dst
    requires Move(w, src, dst, step)[c] <= w[c] + step
    ensures var v := Move(w, src, dst, step); Keyed(v) && v[c] == w[c] + step && OthersHold(v, c)
  {
    assert dst == c;
  }

  lemma {:induction false} LoweringClimb(track: string, w: Vector, c: Component, step: int, iters: nat)
    requires Keyed(w) && c !in LockedZeros(track) && step < 0 && OthersHold(w, c)
    ensures var found := Last(Climb(track, Start(w, Lowering(c)), step, iters, Lowering(c))).current;
            c in found && found[c] == w[c] + Reach(iters, step)
    decreases iters
  {
    hide OthersHold, Lowering, Sweep, Neighbours, Climb, Last;
    if iters == 0 {
      NoPass(track, Start(w, Lowering(c)), step, Lowering(c));
    } else {
      LoweringPass(track, w, c, step);
      var next := Sweep(Start(w, Lowering(c)), Neighbours(track, w, step), Lowering(c));
      ClimbStep(track, Start(w, Lowering(c)), step, iters, Lowering(c));
      LoweringClimb(track, next.current, c, step, iters - 1);
    }
  }

  /** Every unlocked component holds enough for as many steps down as there are passes. */
  ghost predicate HoldsFor(track: string, w: Vector, drop: int) {
    forall c :: c in w && c !in LockedZeros(track) ==> w[c] >= drop
  }

  ghost predicate NeverRaises(track: string, incumbent: Vector, step: int, maxIters: nat) {
    forall eval: Evaluate :: Optimize(track, true, incumbent, step, maxIters, eval).Ok?
  }

  /** The second `validate_weights` is dead code exactly when the step is not negative or every
      unlocked component of the incumbent can be lowered in every pass and stay non-negative: from
      any other valid incumbent some evaluation leads the search off the simplex and the call
      raises. */
  lemma FinalValidationDeadIff(track: string, incumbent: Vector, step: int, maxIters: nat)
    requires IsValid(track, incumbent)
    ensures NeverRaises(track, incumbent, step, maxIters)
            <==> step >= 0 || HoldsFor(track, incumbent, maxIters * -step)
  {
    ReachIs(maxIters, step);
    assert maxIters * -step == -(maxIters * step);
    if step >= 0 {
      forall eval: Evaluate ensures Optimize(track, true, incumbent, step, maxIters, eval).Ok? {
        ProposalIsSound(track, incumbent, step, maxIters, eval);
      }
    } else if HoldsFor(track, incumbent, -Reach(maxIters, step)) {
      forall eval: Evaluate ensures Optimize(track, true, incumbent, step, maxIters, eval).Ok? {
        LoweredIsValid(track, incumbent, step, maxIters, eval);
      }
    } else {
      var c :| c in incumbent && c !in LockedZeros(track) && incumbent[c] < -Reach(maxIters, step);
      LoweringRaises(track, incumbent, c, step, maxIters);
    }
  }

  lemma LoweredIsValid(track: string, incumbent: Vector, step: int, maxIters: nat, eval: Evaluate)
    requires IsValid(track, incumbent) && step < 0 && HoldsFor(track, incumbent, -Reach(maxIters, step))
    ensures Optimize(track, true, incumbent, step, maxIters, eval).Ok?
  {
    hide Keyed, Climb, Reach;
    ValidIsKeyed(track, incumbent);
    ClimbIsLowered(track, Start(incumbent, eval), step, maxIters, eval);
  }

  lemma LoweringRaises(track: string, incumbent: Vector, c: Component, step: int, maxIters: nat)
    requires IsValid(track, incumbent) && step < 0
    requires c in incumbent && c !in LockedZeros(track) && incumbent[c] < -Reach(maxIters, step)
    ensures Optimize(track, true, incumbent, step, maxIters, Lowering(c)) == Err(InvalidWeights)
  {
    ValidIsKeyed(track, incumbent);
    LoweringClimb(track, incumbent, c, step, maxIters);
  }

  /** From either shipped table, where the candidates hold nothing, any negative step can raise. */
  lemma ShippedFinalValidationDeadIff(step: int, maxIters: nat)
    requires maxIters >= 1
    ensures NeverRaises("A", TRACK_A_WEIGHTS, step, maxIters) <==> step >= 0
    ensures NeverRaises("B", TRACK_B_WEIGHTS, step, maxIters) <==> step >= 0
  {
    hide NeverRaises, HoldsFor, IsValid;
    ShippedWeightsAreValid();
    FinalValidationDeadIff("A", TRACK_A_WEIGHTS, step, maxIters);
    FinalValidationDeadIff("B", TRACK_B_WEIGHTS, step, maxIters);
    if step < 0 {
      assert maxIters * -step >= 1;
      CandidateHoldsNothing("A", TRACK_A_WEIGHTS, maxIters * -step);
      CandidateHoldsNothing("B", TRACK_B_WEIGHTS, maxIters * -step);
    }
  }

  lemma CandidateHoldsNothing(track: string, w: Vector, drop: int)
    requires OWNERSHIP_DELTA in w && w[OWNERSHIP_DELTA] == 0 && drop >= 1
    ensures !HoldsFor(track, w, drop)
  {
    assert OWNERSHIP_DELTA !in LockedZeros(track);
  }
}
