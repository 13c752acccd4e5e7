/** The live weight surface of `currentflow/ml/weights_store.py`: proposals are its only writes. */
module WeightStore {
  import opened Models
  import opened Weights
  import opened Optimizer

  type Surface = map<string, Vector>

  /** The weights per track and the proposals applied so far. */
  datatype Book = Book(live: Surface, history: seq<Proposal>)

  /** `apply_proposal`: what it leaves behind. */
  function After(book: Book, p: Proposal, admitted: bool): Book {
    if admitted && p.improved && IsValid(p.track, p.weights)
    then Book(book.live[p.track := p.weights], book.history + [p])
    else book
  }

  /** `apply_proposal`: what it returns or raises. */
  function Answer(p: Proposal, admitted: bool): Result<bool, MlError> {
    if !admitted then Err(NotAdmitted)
    else if !p.improved then Ok(false)
    else if !IsValid(p.track, p.weights) then Err(InvalidWeights)
    else Ok(true)
  }

  /** The surface the audit trail describes. */
  function Replayed(initial: Surface, history: seq<Proposal>): Surface {
    if history == [] then initial
    else
      var last := history[|history| - 1];
      Replayed(initial, history[..|history| - 1])[last.track := last.weights]
  }

  ghost predicate AllValid(live: Surface) {
    forall track :: track in live ==> IsValid(track, live[track])
  }

  ghost predicate Audited(initial: Surface, book: Book) {
    && book.live == Replayed(initial, book.history)
    && forall i :: 0 <= i < |book.history| ==>
         book.history[i].improved && IsValid(book.history[i].track, book.history[i].weights)
  }

  class WeightStore {
    var live: Surface
    var history: seq<Proposal>
    ghost const initial: Surface

    ghost predicate Valid()
      reads this
    {
      Audited(initial, Book(live, history))
    }

    constructor (initial: Surface)
      ensures Valid() && this.initial == initial && live == initial && history == []
    {
      this.initial := initial;
      live, history := initial, [];
    }

    /** `apply_proposal`. */
    method ApplyProposal(p: Proposal, admitted: bool) returns (r: Result<bool, MlError>)
      requires Valid()
      modifies this
      ensures Valid()
      ensures r == Answer(p, admitted)
      ensures Book(live, history) == After(old(Book(live, history)), p, admitted)
      ensures r != Ok(true) ==> live == old(live) && history == old(history)
    {
      if !admitted {
        return Err(NotAdmitted);
      }
      if !p.improved {
        return Ok(false);
      }
      if !IsValid(p.track, p.weights) {
        return Err(InvalidWeights);
      }
      AuditKept(initial, Book(live, history), p, admitted);
      live := live[p.track := p.weights];
      history := history + [p];
      return Ok(true);
    }
  }

  lemma AuditKept(initial: Surface, book: Book, p: Proposal, admitted: bool)
    requires Audited(initial, book)
    ensures Audited(initial, After(book, p, admitted))
  {
    if After(book, p, admitted) != book {
      assert (book.history + [p])[..|book.history|] == book.history;
    }
  }

  // ---- whole runs -------------------------------------------------------------------------------

  datatype Call = Call(proposal: Proposal, admitted: bool)

  function RunCalls(book: Book, calls: seq<Call>): Book {
    if calls == [] then book
    else
      var last := calls[|calls| - 1];
      After(RunCalls(book, calls[..|calls| - 1]), last.proposal, last.admitted)
  }

  /** Over any run of calls from a valid start, whoever made the proposals, the live weights stay
      valid and are what replaying the history gives. */
  lemma {:induction false} EveryRunIsAudited(initial: Surface, calls: seq<Call>)
    requires AllValid(initial)
    ensures var book := RunCalls(Book(initial, []), calls);
            AllValid(book.live) && Audited(initial, book)
  {
    if calls != [] {
      var last := calls[|calls| - 1];
      EveryRunIsAudited(initial, calls[..|calls| - 1]);
      AuditKept(initial, RunCalls(Book(initial, []), calls[..|calls| - 1]), last.proposal, last.admitted);
    }
  }

  /** A tuning round: optimize from the live weights of a track, then apply the outcome. */
  datatype Round = Round(track: string, step: int, maxIters: nat, mayOptimize: bool, mayApply: bool)

  function Tune(book: Book, round: Round, eval: string -> Evaluate): Book {
    if round.track !in book.live then book
    else
      match Optimize(round.track, round.mayOptimize, book.live[round.track], round.step, round.maxIters,
                     eval(round.track))
      case Ok(p) => After(book, p, round.mayApply)
      case Err(_) => book
  }

  function TuneAll(book: Book, rounds: seq<Round>, eval: string -> Evaluate): Book {
    if rounds == [] then book
    else Tune(TuneAll(book, rounds[..|rounds| - 1], eval), rounds[|rounds| - 1], eval)
  }

  /** Tuning never degrades: over any rounds scored by the same evaluations, the out-of-sample
      figure of every track's live weights is at least what it was, and positive if they changed. */
  lemma {:induction false} TuningNeverDegrades(book: Book, rounds: seq<Round>, eval: string -> Evaluate, track: string)
    requires track in book.live
    ensures var after := TuneAll(book, rounds, eval);
            && track in after.live
            && AtLeast(eval(track)(after.live[track]).oos, eval(track)(book.live[track]).oos)
            && (after.live[track] != book.live[track] ==>
                  eval(track)(after.live[track]).oos.Some? && eval(track)(after.live[track]).oos.value > 0.0)
  {
    if rounds != [] {
      var before, round := TuneAll(book, rounds[..|rounds| - 1], eval), rounds[|rounds| - 1];
      TuningNeverDegrades(book, rounds[..|rounds| - 1], eval, track);
      if round.track == track {
        var r := Optimize(track, round.mayOptimize, before.live[track], round.step, round.maxIters, eval(track));
        if r.Ok? && r.value.improved {
          ImprovedNeverDegrades(track, round.mayOptimize, before.live[track], round.step, round.maxIters, eval(track));
        }
      }
    }
  }
}
