/**
 * The exercise board (apps/web/src/components/Chessboard/PuzzleBoard.tsx): the
 * step and status state machine that grades the trainee's moves, in the
 * version-2 mode (graded steps with alternatives) and the legacy mode (a flat
 * list of moves, the trainee on the even indices).
 *
 * Move application (chess.js `move` on a copy of the position) is the
 * parameter `apply`, `None` where chess.js throws. The opponent's reply, which
 * the component plays after a delay, is kept as a pending move and played by
 * `FireOpponent`.
 */
module Puzzle {
  import opened Optional
  import opened JsStrings
  import opened ChessTypes

  datatype Status = Playing | Correct | Wrong

  /** The quality shown in the feedback toast. */
  datatype FeedbackQuality = BestFeedback | GoodFeedback | AcceptableFeedback | WrongFeedback

  /** A call of the `onSolved` or `onFailed` callback. */
  datatype Event = Solved | Failed

  /** The argument of chess.js `move`: two squares and the promotion letter, if any. */
  datatype MoveRequest = MoveRequest(from: string, to: string, promotion: Option<char>)

  type ApplyMove = (string, MoveRequest) -> Option<string>

  /** An opponent reply waiting for its timer: the position it is played on, its UCI text, and the step it plays. */
  datatype Pending = Pending(game: string, uci: string, stepIndex: nat)

  /** The component's props: the start position, the legacy move list, the version-2 steps. */
  datatype Props = Props(fen: string, solution: Option<seq<string>>, steps: Option<seq<ExerciseStep>>)

  /** The component's state, with the pending replies and the callbacks fired so far. */
  datatype BoardState = BoardState(
    game: string,
    stepIndex: nat,
    status: Status,
    feedback: Option<FeedbackQuality>,
    pending: seq<Pending>,
    events: seq<Event>)

  datatype DropResult = DropResult(state: BoardState, accepted: bool)

  function Initial(props: Props): BoardState {
    BoardState(props.fen, 0, Playing, None, [], [])
  }

  // ---- UCI texts ----

  function FromSquare(uci: string): string { Slice(uci, 0, 2) }
  function ToSquare(uci: string): string { Slice(uci, 2, 4) }
  function UciPrefix(uci: string): string { Slice(uci, 0, 4) }
  function PromotionOf(uci: string): Option<char> { CharAt(uci, 4) }

  /** The request that plays a UCI move as written. */
  function RequestOf(uci: string): MoveRequest {
    MoveRequest(FromSquare(uci), ToSquare(uci), PromotionOf(uci))
  }

  // ---- the version-2 mode ----

  /** `currentPlayerStep`: the first step at or after `from` that the trainee plays. */
  function NextPlayerStep(steps: seq<ExerciseStep>, from: nat): (r: Option<nat>)
    decreases |steps| - from
    ensures r.Some? ==> from <= r.value < |steps| && steps[r.value].role == Player
    ensures forall i :: from <= i < |steps| && (r.None? || i < r.value) ==> steps[i].role != Player
  {
    if from >= |steps| then None
    else if steps[from].role == Player then Some(from)
    else NextPlayerStep(steps, from + 1)
  }

  /** `alternatives.find(a => userUCI === a.uci.slice(0, 4))` */
  function FirstAlternative(alternatives: seq<AcceptableMove>, userUci: string): (r: Option<AcceptableMove>)
    ensures r.Some? ==> r.value in alternatives && UciPrefix(r.value.uci) == userUci
    ensures r.None? ==> forall a :: a in alternatives ==> UciPrefix(a.uci) != userUci
    ensures r.Some? ==>
      exists k :: 0 <= k < |alternatives| && alternatives[k] == r.value && (forall j :: 0 <= j < k ==> UciPrefix(alternatives[j].uci) != userUci)
  {
    if |alternatives| == 0 then None
    else if UciPrefix(alternatives[0].uci) == userUci then Some(alternatives[0])
    else
      FirstAlternative(alternatives[1..], userUci)
  }

  function FeedbackOf(quality: MoveQuality): FeedbackQuality {
    match quality
    case Best => BestFeedback
    case Good => GoodFeedback
    case Acceptable => AcceptableFeedback
  }

  /** `playOpponentMoveV2`: a reply is scheduled only when the step at `next` is the opponent's. */
  function ScheduleV2(steps: seq<ExerciseStep>, st: BoardState, game: string, next: nat): BoardState {
    if next >= |steps| || steps[next].role != Opponent then st
    else st.(pending := st.pending + [Pending(game, steps[next].bestMove.uci, next)])
  }

  /** After an accepted trainee step at `index` with the new position `game`: finish, or go on to the next step. */
  function AdvanceV2(steps: seq<ExerciseStep>, st: BoardState, game: string, index: nat): DropResult {
    var next := index + 1;
    if next >= |steps| then
      DropResult(st.(game := game, status := Correct, stepIndex := next, events := st.events + [Solved]), true)
    else
      var moved := st.(game := game, stepIndex := next);
      if steps[next].role == Opponent then DropResult(ScheduleV2(steps, moved, game, next), true)
      else DropResult(moved, true)
  }

  /** `onDrop` in the version-2 mode, graded against the trainee step at `index`. */
  function DropV2(steps: seq<ExerciseStep>, apply: ApplyMove, st: BoardState,
                  source: string, target: string, index: nat): DropResult
    requires index < |steps|
  {
    var step := steps[index];
    var bestUci := step.bestMove.uci;
    var userUci := source + target;
    if userUci == UciPrefix(bestUci) then
      match apply(st.game, MoveRequest(source, target, PromotionOf(bestUci)))
      case None => DropResult(st, false)
      case Some(game) => AdvanceV2(steps, st.(feedback := Some(BestFeedback)), game, index)
    else
      match FirstAlternative(step.alternatives, userUci)
      case Some(alt) =>
        // the alternative is accepted, but the designated best move is played
        (match apply(st.game, RequestOf(bestUci))
         case None => DropResult(st, false)
         case Some(game) => AdvanceV2(steps, st.(feedback := Some(FeedbackOf(alt.quality))), game, index))
      case None =>
        DropResult(st.(status := Wrong, feedback := Some(WrongFeedback), events := st.events + [Failed]), false)
  }

  // ---- the legacy mode ----

  /** The legacy check: squares equal, and the promotion letter, if any, equal to the dropped piece's letter in lower case. */
  predicate LegacyCorrect(expected: string, source: string, target: string, piece: string) {
    && source == FromSquare(expected)
    && target == ToSquare(expected)
    && (PromotionOf(expected).None? ||
        (CharAt(piece, 1).Some? && LowerChar(CharAt(piece, 1).value) == PromotionOf(expected).value))
  }

  /** `playOpponentMoveLegacy`: a reply is scheduled only while the list has a move at `moveIndex`. */
  function ScheduleLegacy(solution: seq<string>, st: BoardState, game: string, moveIndex: nat): BoardState {
    if moveIndex >= |solution| then st
    else st.(pending := st.pending + [Pending(game, solution[moveIndex], moveIndex)])
  }

  /** `onDrop` in the legacy mode, on the trainee's turn. */
  function DropLegacy(solution: seq<string>, apply: ApplyMove, st: BoardState,
                      source: string, target: string, piece: string): DropResult
  {
    if st.stepIndex >= |solution| || solution[st.stepIndex] == "" then DropResult(st, false)
    else
      var expected := solution[st.stepIndex];
      if !LegacyCorrect(expected, source, target, piece) then
        DropResult(st.(status := Wrong, events := st.events + [Failed]), false)
      else
        match apply(st.game, MoveRequest(source, target, PromotionOf(expected)))
        case None => DropResult(st, false)
        case Some(game) =>
          var next := st.stepIndex + 1;
          if next >= |solution| then
            DropResult(st.(game := game, status := Correct, stepIndex := next, events := st.events + [Solved]), true)
          else
            DropResult(ScheduleLegacy(solution, st.(game := game, stepIndex := next), game, next), true)
  }

  // ---- the component ----

  /** `onDrop`: a drop is graded only while playing; the version-2 mode applies while a trainee step remains. */
  function Drop(props: Props, apply: ApplyMove, st: BoardState, source: string, target: string, piece: string): DropResult {
    if st.status != Playing then DropResult(st, false)
    else if props.steps.Some? && NextPlayerStep(props.steps.value, st.stepIndex).Some? then
      DropV2(props.steps.value, apply, st, source, target, NextPlayerStep(props.steps.value, st.stepIndex).value)
    else if props.solution.Some? && st.stepIndex % 2 == 0 then
      DropLegacy(props.solution.value, apply, st, source, target, piece)
    else DropResult(st, false)
  }

  /** The timer of the oldest pending reply fires: the reply is played on the position it was scheduled with. */
  function FireOpponent(apply: ApplyMove, st: BoardState): BoardState
    requires |st.pending| > 0
  {
    var p := st.pending[0];
    var rest := st.pending[1..];
    match apply(p.game, RequestOf(p.uci))
    case None => st.(pending := rest)
    case Some(game) => st.(game := game, stepIndex := p.stepIndex + 1, pending := rest)
  }

  /** `reset`: back to the start position; timers already set and callbacks already fired stay. */
  function ResetState(props: Props, st: BoardState): BoardState {
    BoardState(props.fen, 0, Playing, None, st.pending, st.events)
  }

  /** `isWaiting`: playing, with no trainee move to make now. */
  predicate IsWaiting(props: Props, st: BoardState) {
    if props.steps.Some? then NextPlayerStep(props.steps.value, st.stepIndex).None? && st.status == Playing
    else st.stepIndex % 2 != 0 && st.status == Playing
  }

  /** The component instance: its state variables as fields, its handlers as methods. */
  class PuzzleBoard {
    const props: Props
    const apply: ApplyMove
    var game: string
    var stepIndex: nat
    var status: Status
    var feedback: Option<FeedbackQuality>
    var pending: seq<Pending>
    var events: seq<Event>

    function State(): BoardState
      reads this
    {
      BoardState(game, stepIndex, status, feedback, pending, events)
    }

    constructor(props: Props, apply: ApplyMove)
      ensures this.props == props && this.apply == apply
      ensures State() == Initial(props)
    {
      this.props := props;
      this.apply := apply;
      game := props.fen;
      stepIndex := 0;
      status := Playing;
      feedback := None;
      pending := [];
      events := [];
    }

    /** The search loop of `currentPlayerStep`. */
    method CurrentPlayerStep() returns (r: Option<nat>)
      ensures props.steps.None? ==> r.None?
      ensures props.steps.Some? ==> r == NextPlayerStep(props.steps.value, stepIndex)
    {
      if props.steps.None? {
        return None;
      }
      var steps := props.steps.value;
      var i := stepIndex;
      while i < |steps|
        invariant stepIndex <= i
        invariant NextPlayerStep(steps, stepIndex) == NextPlayerStep(steps, i)
        decreases |steps| - i
      {
        if steps[i].role == Player {
          return Some(i);
        }
        i := i + 1;
      }
      return None;
    }

    method Advance(steps: seq<ExerciseStep>, newGame: string, index: nat)
      modifies this
      ensures State() == AdvanceV2(steps, old(State()), newGame, index).state
    {
      game := newGame;
      var next := index + 1;
      if next >= |steps| {
        status := Correct;
        stepIndex := next;
        events := events + [Solved];
        return;
      }
      stepIndex := next;
      if steps[next].role == Opponent {
        pending := pending + [Pending(newGame, steps[next].bestMove.uci, next)];
      }
    }

    /** `onDrop(sourceSquare, targetSquare, piece)`. */
    method OnDrop(source: string, target: string, piece: string) returns (accepted: bool)
      modifies this
      ensures DropResult(State(), accepted) == Drop(props, apply, old(State()), source, target, piece)
    {
      if status != Playing {
        return false;
      }
      var userUci := source + target;
      var current := CurrentPlayerStep();
      if current.Some? {
        var steps := props.steps.value;
        var index := current.value;
        var bestUci := steps[index].bestMove.uci;
        if userUci == UciPrefix(bestUci) {
          var newGame := apply(game, MoveRequest(source, target, PromotionOf(bestUci)));
          if newGame.None? {
            return false;
          }
          feedback := Some(BestFeedback);
          Advance(steps, newGame.value, index);
          return true;
        }
        var alt := FirstAlternative(steps[index].alternatives, userUci);
        if alt.Some? {
          var newGame := apply(game, RequestOf(bestUci));
          if newGame.None? {
            return false;
          }
          feedback := Some(FeedbackOf(alt.value.quality));
          Advance(steps, newGame.value, index);
          return true;
        }
        status := Wrong;
        feedback := Some(WrongFeedback);
        events := events + [Failed];
        return false;
      }
      if props.solution.Some? && stepIndex % 2 == 0 {
        var solution := props.solution.value;
        if stepIndex >= |solution| || solution[stepIndex] == "" {
          return false;
        }
        var expected := solution[stepIndex];
        if !LegacyCorrect(expected, source, target, piece) {
          status := Wrong;
          events := events + [Failed];
          return false;
        }
        var newGame := apply(game, MoveRequest(source, target, PromotionOf(expected)));
        if newGame.None? {
          return false;
        }
        game := newGame.value;
        var next := stepIndex + 1;
        if next >= |solution| {
          status := Correct;
          stepIndex := next;
          events := events + [Solved];
          return true;
        }
        stepIndex := next;
        pending := pending + [Pending(newGame.value, solution[next], next)];
        return true;
      }
      return false;
    }

    /** The timer callback of `playOpponentMoveV2` / `playOpponentMoveLegacy`. */
    method FireOpponentMove()
      requires |pending| > 0
      modifies this
      ensures State() == FireOpponent(apply, old(State()))
    {
      var p := pending[0];
      pending := pending[1..];
      var newGame := apply(p.game, RequestOf(p.uci));
      if newGame.Some? {
        game := newGame.value;
        stepIndex := p.stepIndex + 1;
      }
    }

    /** `reset` */
    method Reset()
      modifies this
      ensures State() == ResetState(props, old(State()))
    {
      game := props.fen;
      stepIndex := 0;
      status := Playing;
      feedback := None;
    }
  }

  // ---- properties ----

  /** Once the exercise is solved or failed, drops are refused and change nothing. */
  lemma FinishedRejectsDrops(props: Props, apply: ApplyMove, st: BoardState, source: string, target: string, piece: string)
    requires st.status != Playing
    ensures Drop(props, apply, st, source, target, piece) == DropResult(st, false)
  {
  }

  /** Only `reset` leaves a finished state: drops and opponent replies keep the status. */
  lemma OnlyResetRestarts(props: Props, apply: ApplyMove, st: BoardState, source: string, target: string, piece: string)
    requires st.status != Playing
    ensures Drop(props, apply, st, source, target, piece).state.status == st.status
    ensures |st.pending| > 0 ==> FireOpponent(apply, st).status == st.status
    ensures ResetState(props, st).status == Playing && ResetState(props, st).stepIndex == 0
  {
  }

  /** A drop on the best move's squares is graded best, never as an alternative, and plays the dropped move. */
  lemma BestMoveFirst(props: Props, apply: ApplyMove, st: BoardState, source: string, target: string, piece: string)
    requires st.status == Playing && props.steps.Some?
    requires var i := NextPlayerStep(props.steps.value, st.stepIndex);
      i.Some? && source + target == UciPrefix(props.steps.value[i.value].bestMove.uci)
    ensures var steps := props.steps.value;
      var i := NextPlayerStep(steps, st.stepIndex).value;
      var r := Drop(props, apply, st, source, target, piece);
      var played := apply(st.game, MoveRequest(source, target, PromotionOf(steps[i].bestMove.uci)));
      && (r.accepted <==> played.Some?)
      && (r.accepted ==> r.state.feedback == Some(BestFeedback) && r.state.game == played.value)
  {
  }

  /** An alternative is accepted with its own quality, but the board plays the designated best move. */
  lemma AlternativePlaysBestMove(props: Props, apply: ApplyMove, st: BoardState, source: string, target: string,
                                 piece: string, alt: AcceptableMove)
    requires st.status == Playing && props.steps.Some?
    requires var i := NextPlayerStep(props.steps.value, st.stepIndex);
      && i.Some?
      && source + target != UciPrefix(props.steps.value[i.value].bestMove.uci)
      && FirstAlternative(props.steps.value[i.value].alternatives, source + target) == Some(alt)
    ensures var steps := props.steps.value;
      var i := NextPlayerStep(steps, st.stepIndex).value;
      var r := Drop(props, apply, st, source, target, piece);
      var played := apply(st.game, RequestOf(steps[i].bestMove.uci));
      && (r.accepted <==> played.Some?)
      && (r.accepted ==> r.state.feedback == Some(FeedbackOf(alt.quality)) && r.state.game == played.value)
  {
  }

  /**
   * An accepted version-2 step at index i moves the step index to i + 1; the exercise is solved,
   * with exactly one `onSolved`, exactly when no step follows; otherwise it goes on playing.
   */
  lemma AcceptedStepAdvances(props: Props, apply: ApplyMove, st: BoardState, source: string, target: string, piece: string)
    requires st.status == Playing && props.steps.Some?
    requires NextPlayerStep(props.steps.value, st.stepIndex).Some?
    requires Drop(props, apply, st, source, target, piece).accepted
    ensures var steps := props.steps.value;
      var i := NextPlayerStep(steps, st.stepIndex).value;
      var r := Drop(props, apply, st, source, target, piece).state;
      && r.stepIndex == i + 1
      && (r.status == Correct <==> i + 1 >= |steps|)
      && (r.status != Correct ==> r.status == Playing && r.events == st.events)
      && (r.status == Correct ==> r.events == st.events + [Solved])
  {
  }

  /** A reply is scheduled only when the step after the trainee's is the opponent's, and then it is that step's best move. */
  lemma ReplyOnlyForOpponentStep(props: Props, apply: ApplyMove, st: BoardState, source: string, target: string, piece: string)
    requires st.status == Playing && props.steps.Some?
    requires NextPlayerStep(props.steps.value, st.stepIndex).Some?
    ensures var steps := props.steps.value;
      var i := NextPlayerStep(steps, st.stepIndex).value;
      var r := Drop(props, apply, st, source, target, piece).state;
      && |st.pending| <= |r.pending| <= |st.pending| + 1
      && r.pending[..|st.pending|] == st.pending
      && (|r.pending| > |st.pending| <==>
            Drop(props, apply, st, source, target, piece).accepted && i + 1 < |steps| && steps[i + 1].role == Opponent)
      && (|r.pending| > |st.pending| ==> r.pending[|st.pending|] == Pending(r.game, steps[i + 1].bestMove.uci, i + 1))
  {
  }

  /** A version-2 drop matching neither the best move nor an alternative fails the exercise, once. */
  lemma WrongMoveFails(props: Props, apply: ApplyMove, st: BoardState, source: string, target: string, piece: string)
    requires st.status == Playing && props.steps.Some?
    requires var i := NextPlayerStep(props.steps.value, st.stepIndex);
      && i.Some?
      && source + target != UciPrefix(props.steps.value[i.value].bestMove.uci)
      && FirstAlternative(props.steps.value[i.value].alternatives, source + target).None?
    ensures var r := Drop(props, apply, st, source, target, piece);
      && !r.accepted
      && r.state.status == Wrong
      && r.state.feedback == Some(WrongFeedback)
      && r.state.events == st.events + [Failed]
      && r.state.stepIndex == st.stepIndex && r.state.game == st.game
  {
  }

  /** Legacy mode: the trainee moves on even indices, and a drop is judged by `LegacyCorrect` against the expected move. */
  lemma LegacyGrading(props: Props, apply: ApplyMove, st: BoardState, source: string, target: string, piece: string)
    requires st.status == Playing && props.steps.None? && props.solution.Some?
    ensures var sol := props.solution.value;
      var r := Drop(props, apply, st, source, target, piece);
      && (st.stepIndex % 2 != 0 ==> r == DropResult(st, false))
      && (st.stepIndex % 2 == 0 && st.stepIndex < |sol| && sol[st.stepIndex] != "" ==>
            (!LegacyCorrect(sol[st.stepIndex], source, target, piece) <==> r.state.status == Wrong))
      && (r.accepted ==>
            && r.state.stepIndex == st.stepIndex + 1
            && (r.state.status == Correct <==> st.stepIndex + 1 >= |sol|))
  {
  }

  /**
   * Legacy mode on the trainee's turn (also when version-2 steps exist but none is left for the
   * trainee): an empty or missing expected move refuses the drop; a drop is accepted exactly when it
   * is the expected move and it can be played, and the position is then the dropped move played
   * with the expected promotion; a reply, the next move of the list, is scheduled exactly when the
   * accepted drop is not the last move. Legacy mode never shows feedback.
   */
  lemma LegacyReply(props: Props, apply: ApplyMove, st: BoardState, source: string, target: string, piece: string)
    requires st.status == Playing && props.solution.Some? && st.stepIndex % 2 == 0
    requires props.steps.None? || NextPlayerStep(props.steps.value, st.stepIndex).None?
    ensures var sol := props.solution.value;
      var i := st.stepIndex;
      var res := Drop(props, apply, st, source, target, piece);
      && (i >= |sol| || sol[i] == "" ==> res == DropResult(st, false))
      && (res.accepted <==>
            i < |sol| && sol[i] != "" && LegacyCorrect(sol[i], source, target, piece)
            && apply(st.game, MoveRequest(source, target, PromotionOf(sol[i]))).Some?)
      && (res.accepted ==> i < |sol| && apply(st.game, MoveRequest(source, target, PromotionOf(sol[i]))) == Some(res.state.game))
      && (res.accepted && i + 1 < |sol| ==> res.state.pending == st.pending + [Pending(res.state.game, sol[i + 1], i + 1)])
      && (!res.accepted || i + 1 >= |sol| ==> res.state.pending == st.pending)
      && res.state.feedback == st.feedback
  {
  }

  /** A drop fires at most one callback: `onSolved` exactly when it solves, `onFailed` exactly when it fails. */
  lemma OneCallbackPerDrop(props: Props, apply: ApplyMove, st: BoardState, source: string, target: string, piece: string)
    ensures var r := Drop(props, apply, st, source, target, piece).state;
      && (r.events == st.events || r.events == st.events + [Solved] || r.events == st.events + [Failed])
      && (r.events == st.events + [Solved] <==> st.status == Playing && r.status == Correct)
      && (r.events == st.events + [Failed] <==> st.status == Playing && r.status == Wrong)
  {
    assert (st.events + [Solved])[|st.events|] != (st.events + [Failed])[|st.events|];
  }

  /**
   * A version-2 exercise that ends on an opponent step is never solved: once the last reply has
   * been played, no trainee step remains, every drop is refused and the board waits for good.
   */
  lemma FinalOpponentStepWaitsForever(props: Props, apply: ApplyMove, st: BoardState, source: string, target: string, piece: string)
    requires props.steps.Some? && props.solution.None?
    requires st.status == Playing && st.stepIndex >= |props.steps.value|
    ensures Drop(props, apply, st, source, target, piece) == DropResult(st, false)
    ensures IsWaiting(props, st)
  {
  }

  /** The oldest reply, once played, moves the step index past the step it plays; an illegal reply is dropped silently. */
  lemma FiredReplyAdvances(apply: ApplyMove, st: BoardState)
    requires |st.pending| > 0
    ensures var p := st.pending[0];
      var r := FireOpponent(apply, st);
      && r.pending == st.pending[1..]
      && r.status == st.status && r.events == st.events
      && (apply(p.game, RequestOf(p.uci)).Some? ==> r.stepIndex == p.stepIndex + 1)
      && (apply(p.game, RequestOf(p.uci)).None? ==> r.stepIndex == st.stepIndex && r.game == st.game)
  {
  }
}
