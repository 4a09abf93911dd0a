/**
 * The shared vocabulary of the trainer (the string unions and records of
 * packages/types/src/index.ts), as datatypes.
 */
module ChessTypes {
  import opened Optional

  datatype MistakeType = TacticalMiss | OpeningDeviation | EndgameError | BlunderPositional | Inaccuracy

  datatype TacticalTheme =
    Fork | Pin | Skewer | BackRank | Discovery | Deflection | Decoy | MateInN | TrappedPiece

  /** The three severity tiers: 'blunder' | 'mistake' | 'inaccuracy'. */
  datatype Severity = BlunderTier | MistakeTier | InaccuracyTier

  datatype GamePhase = Opening | Middlegame | Endgame

  datatype MoveQuality = Best | Good | Acceptable

  datatype Role = Player | Opponent

  datatype Color = White | Black

  datatype PieceType = Pawn | Knight | Bishop | Rook | Queen | King

  datatype Piece = Piece(kind: PieceType, color: Color)

  /** One square of the board grid: empty (`null`) or holding a piece. */
  type Square = Option<Piece>

  /** The board as rows of squares, the shape of chess.js `board()`. */
  type Board = seq<seq<Square>>

  datatype MistakeClassification =
    MistakeClassification(mistakeType: MistakeType, theme: Option<TacticalTheme>, evalLoss: int, severity: Severity)

  /** A graded candidate move of an exercise step. */
  datatype AcceptableMove = AcceptableMove(uci: string, san: string, eval: int, rank: int, quality: MoveQuality)

  /** One ply of a version-2 exercise: who moves, the designated best move and the accepted alternatives. */
  datatype ExerciseStep = ExerciseStep(role: Role, bestMove: AcceptableMove, alternatives: seq<AcceptableMove>, fen: string)
}
