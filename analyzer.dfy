/**
 * Mistake classification (packages/chess-engine/src/analyzer.ts): the
 * evaluation loss, the severity tier and the mistake type of one move.
 * The position, which the source receives as a FEN string, is given as the
 * board grid and full-move number that the phase detector reads from it.
 */
module Analyzer {
  import opened Optional
  import opened ChessTypes
  import opened PhaseDetector

  const BlunderThreshold := 200
  const MistakeThreshold := 80

  function Abs(x: int): (r: nat)
    ensures r == x || r == -x
  {
    if x < 0 then -x else x
  }

  /**
   * The tactical-theme detector. It is a stub in the source and finds
   * nothing, whatever the position.
   */
  function DetectTacticalTheme(): (theme: Option<TacticalTheme>)
    ensures theme.None?
  {
    None
  }

  /** The severity tier of an evaluation loss; the boundaries go to the higher tier. */
  function SeverityOf(loss: int): (s: Severity)
    ensures s == BlunderTier <==> loss >= BlunderThreshold
    ensures s == MistakeTier <==> MistakeThreshold <= loss < BlunderThreshold
    ensures s == InaccuracyTier <==> loss < MistakeThreshold
  {
    if loss >= 200 then BlunderTier
    else if loss >= 80 then MistakeTier
    else InaccuracyTier
  }

  /**
   * `classifyMistake`. The played and best moves are accepted and ignored,
   * as in the source.
   */
  function ClassifyMistake(board: Board, moveNumber: int, playedMove: string, bestMove: string,
                           evalBefore: int, evalAfter: int): (c: MistakeClassification)
    ensures c.evalLoss >= 0
    ensures c.evalLoss == evalBefore - evalAfter || c.evalLoss == evalAfter - evalBefore
    ensures c.severity == SeverityOf(c.evalLoss)
    ensures c.mistakeType != TacticalMiss && c.theme.None?
    ensures c.evalLoss >= BlunderThreshold ==>
      c.mistakeType == (if GamePhaseOf(board, moveNumber) == Endgame then EndgameError else BlunderPositional)
    ensures c.evalLoss < BlunderThreshold ==>
      c.mistakeType == (if GamePhaseOf(board, moveNumber) == Opening then OpeningDeviation else Inaccuracy)
  {
    var evalLoss := Abs(evalBefore - evalAfter);
    var phase := GamePhaseOf(board, moveNumber);
    var tacticalTheme := DetectTacticalTheme();
    var severity := SeverityOf(evalLoss);
    if evalLoss >= 200 then
      if tacticalTheme.Some? then MistakeClassification(TacticalMiss, tacticalTheme, evalLoss, severity)
      else if phase == Endgame then MistakeClassification(EndgameError, None, evalLoss, severity)
      else MistakeClassification(BlunderPositional, None, evalLoss, severity)
    else if phase == Opening then MistakeClassification(OpeningDeviation, None, evalLoss, severity)
    else MistakeClassification(Inaccuracy, None, evalLoss, severity)
  }

  // ---- properties ----

  /** The two blunder types are exactly the moves of severity `blunder`. */
  lemma BlunderTypesMatchSeverity(board: Board, moveNumber: int, played: string, best: string, before: int, after: int)
    ensures var c := ClassifyMistake(board, moveNumber, played, best, before, after);
      c.mistakeType in {EndgameError, BlunderPositional} <==> c.severity == BlunderTier
  {
  }

  /** An opening deviation only happens up to move 12, an endgame error only after it. */
  lemma TypeFollowsMoveNumber(board: Board, moveNumber: int, played: string, best: string, before: int, after: int)
    ensures var c := ClassifyMistake(board, moveNumber, played, best, before, after);
      (c.mistakeType == OpeningDeviation ==> moveNumber <= OpeningLastMove)
      && (c.mistakeType == EndgameError ==> moveNumber > OpeningLastMove)
  {
  }

  /** Swapping the two evaluations leaves the classification unchanged. */
  lemma ClassificationSymmetric(board: Board, moveNumber: int, played: string, best: string, before: int, after: int)
    ensures ClassifyMistake(board, moveNumber, played, best, before, after)
         == ClassifyMistake(board, moveNumber, played, best, after, before)
  {
  }

  /** The played and best moves have no influence on the classification. */
  lemma MovesIgnored(board: Board, moveNumber: int, p1: string, b1: string, p2: string, b2: string, before: int, after: int)
    ensures ClassifyMistake(board, moveNumber, p1, b1, before, after)
         == ClassifyMistake(board, moveNumber, p2, b2, before, after)
  {
  }

  /** The severity tiers are ordered by loss: a larger loss never gets a lower tier. */
  lemma SeverityMonotone(l1: int, l2: int)
    requires l1 <= l2
    ensures SeverityOf(l1) == BlunderTier ==> SeverityOf(l2) == BlunderTier
    ensures SeverityOf(l1) == MistakeTier ==> SeverityOf(l2) != InaccuracyTier
  {
  }
}
