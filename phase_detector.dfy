/**
 * Game-phase detection (packages/chess-engine/src/phase-detector.ts): a
 * fold over the board grid sums the material and counts the queens, then
 * the move number and two material thresholds decide the phase. The grid
 * and the full-move number, which the source obtains from chess.js, are
 * inputs here.
 */
module PhaseDetector {
  import opened Optional
  import opened ChessTypes

  const OpeningLastMove := 12
  const EndgameMaterial := 16
  const QueenlessEndgameMaterial := 24

  /** Material points of a piece kind; the king counts nothing. */
  function PieceValue(kind: PieceType): nat {
    match kind
    case Queen => 9
    case Rook => 5
    case Bishop => 3
    case Knight => 3
    case Pawn => 1
    case King => 0
  }

  function SquareMaterial(sq: Square): nat {
    match sq
    case None => 0
    case Some(p) => PieceValue(p.kind)
  }

  function SquareQueens(sq: Square): nat {
    if sq.Some? && sq.value.kind == Queen then 1 else 0
  }

  /** Material on a row, summed square by square from the left. */
  function RowMaterial(row: seq<Square>): nat {
    if |row| == 0 then 0 else RowMaterial(row[..|row| - 1]) + SquareMaterial(row[|row| - 1])
  }

  function RowQueens(row: seq<Square>): nat {
    if |row| == 0 then 0 else RowQueens(row[..|row| - 1]) + SquareQueens(row[|row| - 1])
  }

  /** Material of both colours over the whole board. */
  function BoardMaterial(board: Board): nat {
    if |board| == 0 then 0 else BoardMaterial(board[..|board| - 1]) + RowMaterial(board[|board| - 1])
  }

  /** Queens of both colours over the whole board. */
  function BoardQueens(board: Board): nat {
    if |board| == 0 then 0 else BoardQueens(board[..|board| - 1]) + RowQueens(board[|board| - 1])
  }

  /** The phase thresholds applied to a material total and a queen count. */
  function PhaseOf(material: int, queens: int, moveNumber: int): (phase: GamePhase)
    ensures phase == Opening <==> moveNumber <= OpeningLastMove
    ensures phase == Endgame <==>
      moveNumber > OpeningLastMove
      && (material <= EndgameMaterial || (queens == 0 && material <= QueenlessEndgameMaterial))
  {
    if moveNumber <= OpeningLastMove then Opening
    else if material <= EndgameMaterial || (queens == 0 && material <= QueenlessEndgameMaterial) then Endgame
    else Middlegame
  }

  /** The phase of a position given by its board and full-move number. */
  function GamePhaseOf(board: Board, moveNumber: int): GamePhase {
    PhaseOf(BoardMaterial(board), BoardQueens(board), moveNumber)
  }

  /** `detectGamePhase`: the nested loop over rows and squares, then the thresholds. */
  method DetectGamePhase(board: Board, moveNumber: int) returns (phase: GamePhase)
    ensures phase == GamePhaseOf(board, moveNumber)
  {
    var totalMaterial := 0;
    var queenCount := 0;
    for i := 0 to |board|
      invariant totalMaterial == BoardMaterial(board[..i])
      invariant queenCount == BoardQueens(board[..i])
    {
      var row := board[i];
      for j := 0 to |row|
        invariant totalMaterial == BoardMaterial(board[..i]) + RowMaterial(row[..j])
        invariant queenCount == BoardQueens(board[..i]) + RowQueens(row[..j])
      {
        assert row[..j + 1][..j] == row[..j];
        match row[j]
        case None =>
        case Some(p) =>
          match p.kind
          case Queen => queenCount := queenCount + 1; totalMaterial := totalMaterial + 9;
          case Rook => totalMaterial := totalMaterial + 5;
          case Bishop => totalMaterial := totalMaterial + 3;
          case Knight => totalMaterial := totalMaterial + 3;
          case Pawn => totalMaterial := totalMaterial + 1;
          case King =>
      }
      assert row[..|row|] == row;
      assert board[..i + 1][..i] == board[..i];
    }
    assert board[..|board|] == board;
    if moveNumber <= 12 {
      phase := Opening;
    } else if totalMaterial <= 16 || (queenCount == 0 && totalMaterial <= 24) {
      phase := Endgame;
    } else {
      phase := Middlegame;
    }
  }

  // ---- properties ----

  lemma {:induction false} RowMaterialCoversQueens(row: seq<Square>)
    ensures RowMaterial(row) >= 9 * RowQueens(row)
  {
    if |row| > 0 {
      RowMaterialCoversQueens(row[..|row| - 1]);
    }
  }

  /** Every queen contributes 9 points, so the material is at least nine times the queen count. */
  lemma {:induction false} MaterialCoversQueens(board: Board)
    ensures BoardMaterial(board) >= 9 * BoardQueens(board)
  {
    if |board| > 0 {
      MaterialCoversQueens(board[..|board| - 1]);
      RowMaterialCoversQueens(board[|board| - 1]);
    }
  }

  /** Past move 12 the phase depends on the board only, never on the move number. */
  lemma PhaseIndependentOfLateMoveNumber(board: Board, m1: int, m2: int)
    requires m1 > OpeningLastMove && m2 > OpeningLastMove
    ensures GamePhaseOf(board, m1) == GamePhaseOf(board, m2)
  {
  }

  /** For a fixed board the phase never reverts to the opening as the move number grows. */
  lemma NeverRevertsToOpening(board: Board, m1: int, m2: int)
    requires m1 <= m2 && GamePhaseOf(board, m1) != Opening
    ensures GamePhaseOf(board, m2) != Opening
    ensures GamePhaseOf(board, m2) == GamePhaseOf(board, m1)
  {
  }

  /** The board with the square at (`r`, `c`) emptied. */
  function RemovePiece(board: Board, r: nat, c: nat): Board
    requires r < |board| && c < |board[r]|
  {
    board[r := board[r][c := None]]
  }

  lemma {:induction false} RowRemove(row: seq<Square>, c: nat)
    requires c < |row|
    ensures RowMaterial(row[c := None]) + SquareMaterial(row[c]) == RowMaterial(row)
    ensures RowQueens(row[c := None]) + SquareQueens(row[c]) == RowQueens(row)
  {
    var n := |row|;
    var row' := row[c := None];
    if c == n - 1 {
      assert row'[..n - 1] == row[..n - 1];
    } else {
      assert row'[..n - 1] == row[..n - 1][c := None];
      RowRemove(row[..n - 1], c);
    }
  }

  lemma {:induction false} BoardReplaceRow(board: Board, r: nat, row: seq<Square>)
    requires r < |board|
    ensures BoardMaterial(board[r := row]) + RowMaterial(board[r]) == BoardMaterial(board) + RowMaterial(row)
    ensures BoardQueens(board[r := row]) + RowQueens(board[r]) == BoardQueens(board) + RowQueens(row)
  {
    var n := |board|;
    var board' := board[r := row];
    if r == n - 1 {
      assert board'[..n - 1] == board[..n - 1];
    } else {
      assert board'[..n - 1] == board[..n - 1][r := row];
      BoardReplaceRow(board[..n - 1], r, row);
    }
  }

  /** Emptying a square removes exactly that square's material and queen. */
  lemma RemovePieceMaterial(board: Board, r: nat, c: nat)
    requires r < |board| && c < |board[r]|
    ensures BoardMaterial(RemovePiece(board, r, c)) + SquareMaterial(board[r][c]) == BoardMaterial(board)
    ensures BoardQueens(RemovePiece(board, r, c)) + SquareQueens(board[r][c]) == BoardQueens(board)
  {
    RowRemove(board[r], c);
    BoardReplaceRow(board, r, board[r][c := None]);
  }

  /** Removing any piece from an endgame position keeps it an endgame. */
  lemma RemovePieceKeepsEndgame(board: Board, moveNumber: int, r: nat, c: nat)
    requires r < |board| && c < |board[r]|
    requires GamePhaseOf(board, moveNumber) == Endgame
    ensures GamePhaseOf(RemovePiece(board, r, c), moveNumber) == Endgame
  {
    RemovePieceMaterial(board, r, c);
  }
}
