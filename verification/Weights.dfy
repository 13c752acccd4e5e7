/** The locked structure of the score weights: `validate_weights` and `_neighbours` of
    `currentflow/ml/optimizer.py`, with the weight tables of `currentflow/config.py`. */
module Weights {

  datatype Component =
    | DIVERGENCE | BROKER_CONCENTRATION | FOREIGN_FLOW | RVOL | BLOCK_TRADE | PHASE_BONUS
    | OWNERSHIP_DELTA | BAR_CHARACTER | VP_CONFLUENCE

  /** `COMPONENT_KEYS`, in the order the search visits them. */
  const COMPONENTS: seq<Component> := [
    DIVERGENCE, BROKER_CONCENTRATION, FOREIGN_FLOW, RVOL, BLOCK_TRADE, PHASE_BONUS,
    OWNERSHIP_DELTA, BAR_CHARACTER, VP_CONFLUENCE]

  const WEIGHT_SUM: int := 100

  type Vector = map<Component, int>

  /** `SMS_WEIGHTS["A"]`: foreign flow co-leads, the candidates are unfunded. */
  const TRACK_A_WEIGHTS: Vector := map[
    DIVERGENCE := 30, BROKER_CONCENTRATION := 20, FOREIGN_FLOW := 25, RVOL := 10, BLOCK_TRADE := 5,
    PHASE_BONUS := 10, OWNERSHIP_DELTA := 0, BAR_CHARACTER := 0, VP_CONFLUENCE := 0]

  /** `SMS_WEIGHTS["B"]`: broker concentration leads, foreign flow is excluded. */
  const TRACK_B_WEIGHTS: Vector := map[
    DIVERGENCE := 30, BROKER_CONCENTRATION := 35, FOREIGN_FLOW := 0, RVOL := 15, BLOCK_TRADE := 10,
    PHASE_BONUS := 10, OWNERSHIP_DELTA := 0, BAR_CHARACTER := 0, VP_CONFLUENCE := 0]

  /** `ML_LOCKED_ZEROS`: track B never funds foreign flow. */
  function LockedZeros(track: string): set<Component> {
    if track == "B" then {FOREIGN_FLOW} else {}
  }

  ghost predicate Keyed(w: Vector) {
    forall c: Component :: c in w
  }

  lemma EveryComponentListed(c: Component)
    ensures c in COMPONENTS
  {
    match c
    case DIVERGENCE => assert COMPONENTS[0] == c;
    case BROKER_CONCENTRATION => assert COMPONENTS[1] == c;
    case FOREIGN_FLOW => assert COMPONENTS[2] == c;
    case RVOL => assert COMPONENTS[3] == c;
    case BLOCK_TRADE => assert COMPONENTS[4] == c;
    case PHASE_BONUS => assert COMPONENTS[5] == c;
    case OWNERSHIP_DELTA => assert COMPONENTS[6] == c;
    case BAR_CHARACTER => assert COMPONENTS[7] == c;
    case VP_CONFLUENCE => assert COMPONENTS[8] == c;
  }

  /** Sum of the weights of the listed components, an absent key counting 0. */
  function Total(w: Vector, keys: seq<Component>): int {
    if keys == [] then 0
    else Total(w, keys[..|keys| - 1]) + if keys[|keys| - 1] in w then w[keys[|keys| - 1]] else 0
  }

  predicate HasEveryKey(w: Vector) {
    forall i :: 0 <= i < |COMPONENTS| ==> COMPONENTS[i] in w
  }

  /** `validate_weights` passing. */
  predicate IsValid(track: string, w: Vector) {
    && HasEveryKey(w)
    && (forall c :: c in w ==> w[c] >= 0)
    && Total(w, COMPONENTS) == WEIGHT_SUM
    && (forall c :: c in LockedZeros(track) ==> (c in w ==> w[c] == 0))
  }

  lemma ValidIsKeyed(track: string, w: Vector)
    requires HasEveryKey(w)
    ensures Keyed(w)
  {
    forall c: Component ensures c in w {
      EveryComponentListed(c);
      var i :| 0 <= i < |COMPONENTS| && COMPONENTS[i] == c;
    }
  }

  // ---- coordinate moves ---------------------------------------------------------------------

  function Move(w: Vector, src: Component, dst: Component, step: int): Vector
    requires src in w && dst in w
  {
    var less := w[src := w[src] - step];
    less[dst := less[dst] + step]
  }

  function Movable(track: string, keys: seq<Component>): (r: seq<Component>)
    ensures forall c :: c in r <==> c in keys && c !in LockedZeros(track)
  {
    if keys == [] then []
    else
      var front, last := keys[..|keys| - 1], keys[|keys| - 1];
      assert keys == front + [last];
      if last in LockedZeros(track) then Movable(track, front) else Movable(track, front) + [last]
  }

  /** The moves out of one component, destinations in order. */
  function MovesFrom(w: Vector, src: Component, dsts: seq<Component>, step: int): (r: seq<Vector>)
    requires Keyed(w)
    ensures forall v :: v in r <==> exists i :: 0 <= i < |dsts| && dsts[i] != src && v == Move(w, src, dsts[i], step)
  {
    if dsts == [] then []
    else
      var front, last := dsts[..|dsts| - 1], dsts[|dsts| - 1];
      assert dsts == front + [last];
      if last == src then MovesFrom(w, src, front, step)
      else MovesFrom(w, src, front, step) + [Move(w, src, last, step)]
  }

  /** Every move of `step`, sources in order, a source holding less than `step` skipped. */
  function Moves(w: Vector, srcs: seq<Component>, dsts: seq<Component>, step: int): seq<Vector>
    requires Keyed(w)
  {
    if srcs == [] then []
    else
      var front, last := srcs[..|srcs| - 1], srcs[|srcs| - 1];
      if w[last] < step then Moves(w, front, dsts, step)
      else Moves(w, front, dsts, step) + MovesFrom(w, last, dsts, step)
  }

  function Neighbours(track: string, w: Vector, step: int): seq<Vector>
    requires Keyed(w)
  {
    var movable := Movable(track, COMPONENTS);
    Moves(w, movable, movable, step)
  }

  /** `_neighbours`: the nested loop. */
  method ComputeNeighbours(track: string, w: Vector, step: int) returns (out: seq<Vector>)
    requires Keyed(w)
    ensures out == Neighbours(track, w, step)
  {
    var movable := Movable(track, COMPONENTS);
    out := [];
    for i := 0 to |movable|
      invariant out == Moves(w, movable[..i], movable, step)
    {
      assert movable[..i + 1][..i] == movable[..i];
      var src := movable[i];
      if w[src] >= step {
        var row := ComputeMovesFrom(w, src, movable, step);
        out := out + row;
      }
    }
    assert movable[..|movable|] == movable;
  }

  /** The inner loop: `step` from one component to each other one. */
  method ComputeMovesFrom(w: Vector, src: Component, movable: seq<Component>, step: int) returns (row: seq<Vector>)
    requires Keyed(w)
    ensures row == MovesFrom(w, src, movable, step)
  {
    row := [];
    for j := 0 to |movable|
      invariant row == MovesFrom(w, src, movable[..j], step)
    {
      assert movable[..j + 1][..j] == movable[..j];
      if movable[j] != src {
        row := row + [Move(w, src, movable[j], step)];
      }
    }
    assert movable[..|movable|] == movable;
  }

  /** A neighbour moves `step` between two distinct unlocked components. */
  ghost predicate IsMove(track: string, w: Vector, v: Vector, step: int) {
    exists src, dst :: src in w && dst in w && src != dst && w[src] >= step
      && src !in LockedZeros(track) && dst !in LockedZeros(track) && v == Move(w, src, dst, step)
  }

  lemma {:induction false} MovesAre(track: string, w: Vector, srcs: seq<Component>, dsts: seq<Component>, step: int,
                                    v: Vector)
    requires Keyed(w)
    ensures v in Moves(w, srcs, dsts, step)
            <==> exists i, j :: 0 <= i < |srcs| && 0 <= j < |dsts| && srcs[i] != dsts[j]
                   && w[srcs[i]] >= step && v == Move(w, srcs[i], dsts[j], step)
  {
    if srcs != [] {
      var front, last := srcs[..|srcs| - 1], srcs[|srcs| - 1];
      MovesAre(track, w, front, dsts, step, v);
      if v in Moves(w, front, dsts, step) {
        var i, j :| 0 <= i < |front| && 0 <= j < |dsts| && front[i] != dsts[j]
                 && w[front[i]] >= step && v == Move(w, front[i], dsts[j], step);
        assert srcs[i] == front[i];
      }
    }
  }

  lemma MoveIsNeighbour(track: string, w: Vector, step: int, v: Vector)
    requires Keyed(w) && IsMove(track, w, v, step)
    ensures v in Neighbours(track, w, step)
  {
    var movable := Movable(track, COMPONENTS);
    var src, dst :| src in w && dst in w && src != dst && w[src] >= step
      && src !in LockedZeros(track) && dst !in LockedZeros(track) && v == Move(w, src, dst, step);
    EveryComponentListed(src);
    EveryComponentListed(dst);
    assert src in movable && dst in movable;
    var i :| 0 <= i < |movable| && movable[i] == src;
    var j :| 0 <= j < |movable| && movable[j] == dst;
    MovesAre(track, w, movable, movable, step, v);
    assert movable[i] != movable[j];
  }

  lemma NeighboursAreMoves(track: string, w: Vector, step: int, v: Vector)
    requires Keyed(w)
    ensures v in Neighbours(track, w, step) <==> IsMove(track, w, v, step)
  {
    var movable := Movable(track, COMPONENTS);
    MovesAre(track, w, movable, movable, step, v);
    if IsMove(track, w, v, step) {
      MoveIsNeighbour(track, w, step, v);
    }
    if v in Neighbours(track, w, step) {
      var i, j :| 0 <= i < |movable| && 0 <= j < |movable| && movable[i] != movable[j]
        && w[movable[i]] >= step && v == Move(w, movable[i], movable[j], step);
      assert movable[i] in movable && movable[j] in movable;
    }
  }

  ghost predicate Distinct(keys: seq<Component>) {
    forall i, j :: 0 <= i < j < |keys| ==> keys[i] != keys[j]
  }

  lemma {:induction false} TotalOfChange(w: Vector, v: Vector, keys: seq<Component>, c: Component, d: int)
    requires Distinct(keys) && c in w && v == w[c := w[c] + d]
    ensures Total(v, keys) == Total(w, keys) + if c in keys then d else 0
  {
    if keys != [] {
      var front := keys[..|keys| - 1];
      TotalOfChange(w, v, front, c, d);
      assert keys == front + [keys[|keys| - 1]];
    }
  }

  /** A move keeps the keys and the sum. */
  lemma MoveKeepsTotal(w: Vector, src: Component, dst: Component, step: int, keys: seq<Component>)
    requires src in w && dst in w && src != dst
    requires Distinct(keys) && src in keys && dst in keys
    ensures Move(w, src, dst, step).Keys == w.Keys
    ensures Total(Move(w, src, dst, step), keys) == Total(w, keys)
  {
    var less := w[src := w[src] - step];
    TotalOfChange(w, less, keys, src, -step);
    TotalOfChange(less, Move(w, src, dst, step), keys, dst, step);
  }

  lemma ComponentsDistinct()
    ensures Distinct(COMPONENTS)
  {
  }

  ghost predicate WithinStep(w: Vector, v: Vector, step: int)
    requires v.Keys == w.Keys
  {
    forall c :: c in w ==> v[c] == w[c] || v[c] == w[c] + step || v[c] == w[c] - step
  }

  lemma MoveIsValid(track: string, w: Vector, src: Component, dst: Component, step: int)
    requires IsValid(track, w) && step >= 0
    requires src in w && dst in w && src != dst && w[src] >= step
    requires src !in LockedZeros(track) && dst !in LockedZeros(track)
    ensures var v := Move(w, src, dst, step);
            v.Keys == w.Keys && IsValid(track, v) && WithinStep(w, v, step)
  {
    EveryComponentListed(src);
    EveryComponentListed(dst);
    ComponentsDistinct();
    MoveKeepsTotal(w, src, dst, step, COMPONENTS);
  }

  /** Locked simplex: every neighbour of valid weights is valid, for any non-negative step, and
      differs from them by 0 or plus or minus `step` in each component. */
  lemma NeighbourIsValid(track: string, w: Vector, step: int, v: Vector)
    requires IsValid(track, w) && Keyed(w) && step >= 0 && v in Neighbours(track, w, step)
    ensures v.Keys == w.Keys && IsValid(track, v) && WithinStep(w, v, step)
  {
    NeighboursAreMoves(track, w, step, v);
    var src, dst :| src in w && dst in w && src != dst && w[src] >= step
      && src !in LockedZeros(track) && dst !in LockedZeros(track) && v == Move(w, src, dst, step);
    MoveIsValid(track, w, src, dst, step);
  }

  lemma {:induction false} TotalNine(w: Vector)
    requires Keyed(w)
    ensures Total(w, COMPONENTS)
         == w[DIVERGENCE] + w[BROKER_CONCENTRATION] + w[FOREIGN_FLOW] + w[RVOL] + w[BLOCK_TRADE]
            + w[PHASE_BONUS] + w[OWNERSHIP_DELTA] + w[BAR_CHARACTER] + w[VP_CONFLUENCE]
  {
    TotalSnoc(w, COMPONENTS, 9);
    TotalSnoc(w, COMPONENTS, 8);
    TotalSnoc(w, COMPONENTS, 7);
    TotalSnoc(w, COMPONENTS, 6);
    TotalSnoc(w, COMPONENTS, 5);
    TotalSnoc(w, COMPONENTS, 4);
    TotalSnoc(w, COMPONENTS, 3);
    TotalSnoc(w, COMPONENTS, 2);
    TotalSnoc(w, COMPONENTS, 1);
    assert COMPONENTS[..9] == COMPONENTS;
  }

  lemma TotalSnoc(w: Vector, keys: seq<Component>, n: nat)
    requires Keyed(w) && 0 < n <= |keys|
    ensures Total(w, keys[..n]) == Total(w, keys[..n - 1]) + w[keys[n - 1]]
  {
    assert keys[..n][..n - 1] == keys[..n - 1];
  }

  /** The shipped weight tables respect the structure the optimizer must keep. */
  lemma ShippedWeightsAreValid()
    ensures IsValid("A", TRACK_A_WEIGHTS) && IsValid("B", TRACK_B_WEIGHTS)
  {
    NamedIsValid("A", TRACK_A_WEIGHTS);
    NamedIsValid("B", TRACK_B_WEIGHTS);
  }

  /** Validity, component by component. */
  lemma NamedIsValid(track: string, w: Vector)
    requires DIVERGENCE in w && BROKER_CONCENTRATION in w && FOREIGN_FLOW in w && RVOL in w && BLOCK_TRADE in w
    requires PHASE_BONUS in w && OWNERSHIP_DELTA in w && BAR_CHARACTER in w && VP_CONFLUENCE in w
    requires w[DIVERGENCE] + w[BROKER_CONCENTRATION] + w[FOREIGN_FLOW] + w[RVOL] + w[BLOCK_TRADE]
             + w[PHASE_BONUS] + w[OWNERSHIP_DELTA] + w[BAR_CHARACTER] + w[VP_CONFLUENCE] == WEIGHT_SUM
    requires (forall c :: c in w ==> w[c] >= 0) && (track == "B" ==> w[FOREIGN_FLOW] == 0)
    ensures IsValid(track, w)
  {
    hide Total;
    AllNamed(w);
    TotalNine(w);
  }

  lemma AllNamed(w: Vector)
    requires DIVERGENCE in w && BROKER_CONCENTRATION in w && FOREIGN_FLOW in w && RVOL in w && BLOCK_TRADE in w
    requires PHASE_BONUS in w && OWNERSHIP_DELTA in w && BAR_CHARACTER in w && VP_CONFLUENCE in w
    ensures HasEveryKey(w) && Keyed(w)
  {
    forall c: Component ensures c in w {
      match c
      case DIVERGENCE | BROKER_CONCENTRATION | FOREIGN_FLOW | RVOL | BLOCK_TRADE
         | PHASE_BONUS | OWNERSHIP_DELTA | BAR_CHARACTER | VP_CONFLUENCE =>
    }
  }
}
