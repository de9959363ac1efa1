/*
 * The board object of the engine: an 8x8 array of pieces, the side to move,
 * the en-passant target and the move history, with the legality queries and
 * the one mutator, MovePiece. A ghost field mirrors the array as a grid
 * value, and every method is proved to compute what the function of the same
 * name in module Rules computes on Abs(), the value of the board.
 */
module Game {
  import opened Pieces
  import opened Rules

  /** One entry of the move history. Nothing in the engine reads it back. */
  datatype MoveRecord = MoveRecord(
    piece: Piece, fromRow: int, fromCol: int, toRow: int, toCol: int,
    captured: Piece?, isEnPassant: bool, isCastling: bool)

  /** The piece on (fr, fc) has no valid move (a row of hasLegalMoves' scan). */
  ghost predicate NoMoveFrom(p: Position, color: Color, fr: int, fc: int)
    requires OnBoard(fr, fc)
  {
    forall tr, tc | 0 <= tr < 8 && 0 <= tc < 8 :: !MoveOf(p, color, fr, fc, tr, tc)
  }

  /** No square holds a piece of colour color with a valid move: hasLegalMoves is false. */
  lemma NoMoveAnywhere(p: Position, color: Color)
    requires forall r, c | 0 <= r < 8 && 0 <= c < 8 :: NoMoveFrom(p, color, r, c)
    ensures !HasLegalMoves(p, color)
  {
    forall fr, fc, tr, tc | 0 <= fr < 8 && 0 <= fc < 8 && 0 <= tr < 8 && 0 <= tc < 8
      ensures !MoveOf(p, color, fr, fc, tr, tc)
    {
      assert NoMoveFrom(p, color, fr, fc);
    }
  }

  class GameBoard {
    const board: array2<Piece?>
    var currentTurn: Color
    var moveHistory: seq<MoveRecord>
    /** The en-passant target square; (-1, -1) when unset. */
    var enPassantTargetRow: int
    var enPassantTargetCol: int
    /** The pieces that may stand on the board. */
    ghost var pieces: set<Piece>
    /** The board array as a grid value. */
    ghost var cells: Grid

    ghost function ValOf(p: Piece): PieceVal
      reads p
    {
      PieceVal(p.kind, p.color, p.hasMoved)
    }

    ghost function CellOf(p: Piece?): Cell
      reads p
    {
      if p == null then Empty else Occupied(ValOf(p))
    }

    /** The board is 8x8, every piece on it is one of pieces, and cells mirrors it. */
    ghost predicate WellFormed()
      reads this`cells, this`pieces, board, pieces
    {
      && board.Length0 == 8 && board.Length1 == 8
      && (forall r, c | 0 <= r < 8 && 0 <= c < 8 :: board[r, c] != null ==> board[r, c] in pieces)
      && forall r, c {:trigger board[r, c]} | 0 <= r < 8 && 0 <= c < 8 :: At(cells, r, c) == CellOf(board[r, c])
    }

    /** Every piece on the board knows the cell it stands on. */
    ghost predicate Coordinates()
      requires WellFormed()
      reads this`cells, this`pieces, board, pieces
    {
      forall r, c | 0 <= r < 8 && 0 <= c < 8 ::
        board[r, c] != null ==> board[r, c].row == r && board[r, c].col == c
    }

    /**
     * The invariant kept between public calls: well formed, coordinates
     * consistent (so no piece stands on two cells), and the en-passant target
     * either unset or a square of the board.
     */
    ghost predicate Valid()
      reads this`cells, this`pieces, this`enPassantTargetRow, this`enPassantTargetCol, board, pieces
    {
      && WellFormed() && Coordinates()
      && ((enPassantTargetRow == -1 && enPassantTargetCol == -1)
          || OnBoard(enPassantTargetRow, enPassantTargetCol))
    }

    /** The position value of the whole board. */
    ghost function Abs(): Position
      reads this
    {
      Position(cells, currentTurn, enPassantTargetRow, enPassantTargetCol)
    }

    /** A new game: the standard layout, White to move, no en-passant target, no history. */
    constructor ()
      ensures Valid() && fresh(board) && fresh(pieces)
      ensures Abs() == Initial() && moveHistory == []
    {
      board := new Piece?[8, 8]((r, c) => null);
      currentTurn := White;
      moveHistory := [];
      enPassantTargetRow := -1;
      enPassantTargetCol := -1;
      pieces := {};
      cells := EmptyGrid();
      new;
      InitializeBoard();
    }

    /** initializeBoard: White on rows 0 and 1, Black on rows 6 and 7. */
    method InitializeBoard()
      requires WellFormed() && Coordinates() && cells == EmptyGrid()
      modifies this, board
      ensures WellFormed() && Coordinates() && cells == InitialGrid()
      ensures old(pieces) <= pieces && fresh(pieces - old(pieces))
      ensures currentTurn == old(currentTurn) && moveHistory == old(moveHistory)
      ensures enPassantTargetRow == old(enPassantTargetRow) && enPassantTargetCol == old(enPassantTargetCol)
    {
      SetUpBackRank(0, White);
      SetUpPawns(1, White);
      SetUpBackRank(7, Black);
      SetUpPawns(6, Black);
      GridsEqual(cells, InitialGrid());
    }

    /** Rook, knight, bishop, queen, king, bishop, knight, rook along row. */
    method SetUpBackRank(row: int, color: Color)
      requires WellFormed() && Coordinates() && 0 <= row < 8
      modifies this, board
      ensures WellFormed() && Coordinates()
      ensures old(pieces) <= pieces && fresh(pieces - old(pieces))
      ensures forall r, c | OnBoard(r, c) ::
        At(cells, r, c) == if r == row then Occupied(PieceVal(BackRank(c), color, false)) else At(old(cells), r, c)
      ensures currentTurn == old(currentTurn) && moveHistory == old(moveHistory)
      ensures enPassantTargetRow == old(enPassantTargetRow) && enPassantTargetCol == old(enPassantTargetCol)
    {
      PlaceNewPiece(row, 0, Rook, color);
      PlaceNewPiece(row, 1, Knight, color);
      PlaceNewPiece(row, 2, Bishop, color);
      PlaceNewPiece(row, 3, Queen, color);
      PlaceNewPiece(row, 4, King, color);
      PlaceNewPiece(row, 5, Bishop, color);
      PlaceNewPiece(row, 6, Knight, color);
      PlaceNewPiece(row, 7, Rook, color);
    }

    /** A pawn on every column of row. */
    method SetUpPawns(row: int, color: Color)
      requires WellFormed() && Coordinates() && 0 <= row < 8
      modifies this, board
      ensures WellFormed() && Coordinates()
      ensures old(pieces) <= pieces && fresh(pieces - old(pieces))
      ensures forall r, c | OnBoard(r, c) ::
        At(cells, r, c) == if r == row then Occupied(PieceVal(Pawn, color, false)) else At(old(cells), r, c)
      ensures currentTurn == old(currentTurn) && moveHistory == old(moveHistory)
      ensures enPassantTargetRow == old(enPassantTargetRow) && enPassantTargetCol == old(enPassantTargetCol)
    {
      for col := 0 to 8
        invariant WellFormed() && Coordinates()
        invariant old(pieces) <= pieces && fresh(pieces - old(pieces))
        invariant forall r, c | OnBoard(r, c) ::
          At(cells, r, c) == if r == row && c < col then Occupied(PieceVal(Pawn, color, false)) else At(old(cells), r, c)
        invariant currentTurn == old(currentTurn) && moveHistory == old(moveHistory)
        invariant enPassantTargetRow == old(enPassantTargetRow) && enPassantTargetCol == old(enPassantTargetCol)
      {
        PlaceNewPiece(row, col, Pawn, color);
      }
    }

    /** getPiece: the piece on (row, col), or null off the board. */
    function GetPiece(row: int, col: int): (p: Piece?)
      requires WellFormed()
      reads this`cells, this`pieces, board, pieces
      ensures !OnBoard(row, col) ==> p == null
      ensures OnBoard(row, col) ==> CellOf(p) == At(cells, row, col)
      ensures p != null && Coordinates() ==> p.row == row && p.col == col
    {
      if OnBoard(row, col) then board[row, col] else null
    }

    /**
     * Nothing has changed since the old state except, possibly, cells that
     * have been put back: every cell holds the piece it held, and the other
     * fields are as they were.
     */
    twostate predicate Restored()
      reads this, board
    {
      && board.Length0 == 8 && board.Length1 == 8
      && (forall r, c | 0 <= r < 8 && 0 <= c < 8 :: board[r, c] == old(board[r, c]))
      && cells == old(cells) && pieces == old(pieces)
      && currentTurn == old(currentTurn) && moveHistory == old(moveHistory)
      && enPassantTargetRow == old(enPassantTargetRow) && enPassantTargetCol == old(enPassantTargetCol)
    }

    /** One cell write of the array, with the mirror grid kept up to date. */
    method SetCell(row: int, col: int, x: Piece?, ghost v: Cell)
      requires WellFormed() && OnBoard(row, col) && (x != null ==> x in pieces) && v == CellOf(x)
      modifies this, board
      ensures WellFormed()
      ensures cells == Place(old(cells), row, col, v)
      ensures forall r, c | 0 <= r < 8 && 0 <= c < 8 ::
        board[r, c] == if r == row && c == col then x else old(board[r, c])
      ensures pieces == old(pieces) && currentTurn == old(currentTurn) && moveHistory == old(moveHistory)
      ensures enPassantTargetRow == old(enPassantTargetRow) && enPassantTargetCol == old(enPassantTargetCol)
    {
      board[row, col] := x;
      cells := Place(cells, row, col, v);
    }

    /**
     * How movePiece moves a piece (and the castling rook): the origin cell is
     * emptied, the target cell gets the piece, and SetPosition gives the piece
     * its new square and marks it as moved.
     */
    method Shift(piece: Piece, fromRow: int, fromCol: int, toRow: int, toCol: int)
      requires WellFormed() && Coordinates() && piece in pieces
      requires OnBoard(fromRow, fromCol) && OnBoard(toRow, toCol)
      requires piece.row == fromRow && piece.col == fromCol
      modifies this, board, piece
      ensures WellFormed() && Coordinates()
      ensures cells == Place(Place(old(cells), fromRow, fromCol, Empty), toRow, toCol, Occupied(Moved(old(ValOf(piece)))))
      ensures forall r, c | 0 <= r < 8 && 0 <= c < 8 ::
        board[r, c] ==
          if r == toRow && c == toCol then piece
          else if r == fromRow && c == fromCol then null
          else old(board[r, c])
      ensures pieces == old(pieces) && currentTurn == old(currentTurn) && moveHistory == old(moveHistory)
      ensures enPassantTargetRow == old(enPassantTargetRow) && enPassantTargetCol == old(enPassantTargetCol)
    {
      ghost var v := Occupied(Moved(ValOf(piece)));
      SetCell(fromRow, fromCol, null, Empty);
      board[toRow, toCol] := piece;
      piece.SetPosition(toRow, toCol);
      cells := Place(cells, toRow, toCol, v);
    }

    /** A newly allocated, unmoved piece of that type and colour, written to the cell (row, col). */
    method PlaceNewPiece(row: int, col: int, kind: PieceType, color: Color)
      requires WellFormed() && Coordinates() && OnBoard(row, col)
      modifies this, board
      ensures WellFormed() && Coordinates()
      ensures cells == Place(old(cells), row, col, Occupied(PieceVal(kind, color, false)))
      ensures fresh(board[row, col])
      ensures old(pieces) <= pieces && fresh(pieces - old(pieces))
      ensures currentTurn == old(currentTurn) && moveHistory == old(moveHistory)
      ensures enPassantTargetRow == old(enPassantTargetRow) && enPassantTargetCol == old(enPassantTargetCol)
    {
      var piece := new Piece(kind, color, row, col);
      pieces := pieces + {piece};
      board[row, col] := piece;
      cells := Place(cells, row, col, Occupied(PieceVal(kind, color, false)));
    }

    /** isPathClear: walks from the origin towards the target, one step at a time. */
    method IsPathClear(fromRow: int, fromCol: int, toRow: int, toCol: int) returns (clear: bool)
      requires WellFormed()
      requires OnBoard(fromRow, fromCol) && OnBoard(toRow, toCol)
      requires IsLine(fromRow, fromCol, toRow, toCol)
      ensures clear == PathClear(cells, fromRow, fromCol, toRow, toCol)
    {
      var rowStep := Compare(toRow, fromRow);
      var colStep := Compare(toCol, fromCol);
      var r := fromRow + rowStep;
      var c := fromCol + colStep;
      while r != toRow || c != toCol
        invariant OnBoard(r, c) && IsLine(r, c, toRow, toCol)
        invariant (r != toRow || c != toCol) ==> rowStep == Compare(toRow, r) && colStep == Compare(toCol, c)
        invariant PathClear(cells, fromRow, fromCol, toRow, toCol) == ClearFrom(cells, r, c, toRow, toCol)
        decreases Chebyshev(r, c, toRow, toCol)
      {
        if board[r, c] != null {
          return false;
        }
        r := r + rowStep;
        c := c + colStep;
      }
      return true;
    }

    /** isValidRookMove. */
    method IsValidRookMove(fromRow: int, fromCol: int, toRow: int, toCol: int) returns (ok: bool)
      requires WellFormed() && OnBoard(fromRow, fromCol) && OnBoard(toRow, toCol)
      ensures ok == RookMove(cells, fromRow, fromCol, toRow, toCol)
    {
      if fromRow != toRow && fromCol != toCol {
        return false;
      }
      ok := IsPathClear(fromRow, fromCol, toRow, toCol);
    }

    /** isValidBishopMove. */
    method IsValidBishopMove(fromRow: int, fromCol: int, toRow: int, toCol: int) returns (ok: bool)
      requires WellFormed() && OnBoard(fromRow, fromCol) && OnBoard(toRow, toCol)
      ensures ok == BishopMove(cells, fromRow, fromCol, toRow, toCol)
    {
      var rowDiff := Dist(toRow, fromRow);
      var colDiff := Dist(toCol, fromCol);
      if rowDiff != colDiff || rowDiff == 0 {
        return false;
      }
      ok := IsPathClear(fromRow, fromCol, toRow, toCol);
    }

    /** isValidQueenMove. */
    method IsValidQueenMove(fromRow: int, fromCol: int, toRow: int, toCol: int) returns (ok: bool)
      requires WellFormed() && OnBoard(fromRow, fromCol) && OnBoard(toRow, toCol)
      ensures ok == QueenMove(cells, fromRow, fromCol, toRow, toCol)
    {
      ok := IsValidRookMove(fromRow, fromCol, toRow, toCol);
      if !ok {
        ok := IsValidBishopMove(fromRow, fromCol, toRow, toCol);
      }
    }

    /** isValidPawnMove. */
    method IsValidPawnMove(pawn: Piece, fromRow: int, fromCol: int, toRow: int, toCol: int) returns (ok: bool)
      requires WellFormed() && OnBoard(fromRow, fromCol) && OnBoard(toRow, toCol)
      ensures ok == PawnMove(Abs(), ValOf(pawn), fromRow, fromCol, toRow, toCol)
    {
      var color := pawn.color;
      var direction := if color == White then 1 else -1;
      var startRow := if color == White then 1 else 6;
      var rowDiff := toRow - fromRow;
      var colDiff := Dist(toCol, fromCol);
      var target := GetPiece(toRow, toCol);

      // Single step forward
      if colDiff == 0 && rowDiff == direction && target == null {
        return true;
      }
      // Double step from the starting row
      if colDiff == 0 && fromRow == startRow && rowDiff == 2 * direction {
        var middleRow := fromRow + direction;
        if board[middleRow, fromCol] == null && target == null {
          return true;
        }
      }
      // Diagonal: a capture, or onto the en-passant target
      if colDiff == 1 && rowDiff == direction {
        if target != null && target.color != color {
          return true;
        }
        if toRow == enPassantTargetRow && toCol == enPassantTargetCol {
          return true;
        }
      }
      return false;
    }

    /** findKing: the first king of that colour in row-by-row order. */
    method FindKing(color: Color) returns (pos: KingSearch)
      requires WellFormed()
      ensures pos == Rules.FindKing(cells, color)
    {
      for r := 0 to 8
        invariant Rules.FindKing(cells, color) == FindKingFrom(cells, color, r, 0)
      {
        for c := 0 to 8
          invariant Rules.FindKing(cells, color) ==
            if c < 8 then FindKingFrom(cells, color, r, c) else FindKingFrom(cells, color, r + 1, 0)
        {
          var piece := board[r, c];
          if piece != null && piece.kind == King && piece.color == color {
            return KingAt(r, c);
          }
        }
      }
      return NoKing;
    }

    /** canPieceAttack. */
    method CanPieceAttack(piece: Piece, fromRow: int, fromCol: int, toRow: int, toCol: int) returns (ok: bool)
      requires WellFormed() && OnBoard(fromRow, fromCol) && OnBoard(toRow, toCol)
      ensures ok == Rules.CanPieceAttack(cells, ValOf(piece), fromRow, fromCol, toRow, toCol)
    {
      match piece.kind
      case King =>
        ok := KingStep(fromRow, fromCol, toRow, toCol);
      case Queen =>
        ok := IsValidQueenMove(fromRow, fromCol, toRow, toCol);
      case Rook =>
        ok := IsValidRookMove(fromRow, fromCol, toRow, toCol);
      case Bishop =>
        ok := IsValidBishopMove(fromRow, fromCol, toRow, toCol);
      case Knight =>
        ok := KnightShape(fromRow, fromCol, toRow, toCol);
      case Pawn =>
        var direction := if piece.color == White then 1 else -1;
        ok := toRow - fromRow == direction && Dist(toCol, fromCol) == 1;
    }

    /** isSquareAttacked: some piece of colour attacker attacks (row, col). */
    method IsSquareAttacked(row: int, col: int, attacker: Color) returns (attacked: bool)
      requires WellFormed() && OnBoard(row, col)
      ensures attacked == SquareAttacked(cells, row, col, attacker)
    {
      for r := 0 to 8
        invariant forall x, y | 0 <= x < r && 0 <= y < 8 :: !AttackerAt(cells, x, y, row, col, attacker)
      {
        for c := 0 to 8
          invariant forall x, y | 0 <= x < r && 0 <= y < 8 :: !AttackerAt(cells, x, y, row, col, attacker)
          invariant forall y | 0 <= y < c :: !AttackerAt(cells, r, y, row, col, attacker)
        {
          var piece := board[r, c];
          if piece != null && piece.color == attacker {
            var can := CanPieceAttack(piece, r, c, row, col);
            if can {
              assert AttackerAt(cells, r, c, row, col, attacker);
              return true;
            }
          }
        }
      }
      return false;
    }

    /** isInCheck: the king of that colour is attacked; false when there is no such king. */
    method IsInCheck(color: Color) returns (inCheck: bool)
      requires WellFormed()
      ensures inCheck == InCheck(cells, color)
    {
      var kingPos := FindKing(color);
      if kingPos.NoKing? {
        return false;
      }
      inCheck := IsSquareAttacked(kingPos.row, kingPos.col, Opponent(color));
    }

    /** canCastle for a king standing on (row, fromCol) moving to toCol. */
    method CanCastle(king: Piece, row: int, fromCol: int, toCol: int) returns (ok: bool)
      requires WellFormed() && OnBoard(row, fromCol) && OnBoard(row, toCol) && Dist(fromCol, toCol) == 2
      ensures ok == Rules.CanCastle(Abs(), king.color, row, fromCol, toCol)
    {
      var color := king.color;
      var inCheck := IsInCheck(color);
      if inCheck {
        return false;
      }
      var rookCol := if toCol > fromCol then 7 else 0;
      var rook := GetPiece(row, rookCol);
      if rook == null || rook.kind != Rook || rook.hasMoved {
        return false;
      }

      var gapEmpty := CastlingGapEmpty(row, Min(fromCol, rookCol) + 1, Max(fromCol, rookCol));
      if !gapEmpty {
        return false;
      }
      ok := CastlingPathSafe(row, fromCol, toCol, Opponent(color));
    }

    /** The first loop of canCastle: the squares of row in [startCol, endCol) are empty. */
    method CastlingGapEmpty(row: int, startCol: int, endCol: int) returns (empty: bool)
      requires WellFormed() && 0 <= row < 8 && 0 <= startCol && endCol <= 8
      ensures empty <==> forall c | startCol <= c < endCol :: At(cells, row, c) == Empty
    {
      var col := startCol;
      while col < endCol
        invariant startCol <= col <= Max(startCol, endCol)
        invariant forall c | startCol <= c < col :: At(cells, row, c) == Empty
      {
        if board[row, col] != null {
          return false;
        }
        col := col + 1;
      }
      return true;
    }

    /**
     * The second loop of canCastle: no square from the king's column to its
     * target column, both included, is attacked by the opponent.
     */
    method CastlingPathSafe(row: int, fromCol: int, toCol: int, opponent: Color) returns (safe: bool)
      requires WellFormed() && OnBoard(row, fromCol) && OnBoard(row, toCol) && fromCol != toCol
      ensures safe <==> forall c | Min(fromCol, toCol) <= c <= Max(fromCol, toCol) ::
        !SquareAttacked(cells, row, c, opponent)
    {
      var direction := if toCol > fromCol then 1 else -1;
      var col := fromCol;
      while col != toCol + direction
        invariant if direction == 1 then fromCol <= col <= toCol + 1 else toCol - 1 <= col <= fromCol
        invariant forall c | (if direction == 1 then fromCol <= c < col else col < c <= fromCol) ::
          !SquareAttacked(cells, row, c, opponent)
        decreases Dist(col, toCol + direction)
      {
        var attacked := IsSquareAttacked(row, col, opponent);
        if attacked {
          return false;
        }
        col := col + direction;
      }
      return true;
    }

    /** isValidKingMove: one step, or castling when the king has not moved. */
    method IsValidKingMove(king: Piece, fromRow: int, fromCol: int, toRow: int, toCol: int) returns (ok: bool)
      requires WellFormed() && OnBoard(fromRow, fromCol) && OnBoard(toRow, toCol)
      ensures ok == KingMove(Abs(), ValOf(king), fromRow, fromCol, toRow, toCol)
    {
      var rowDiff := Dist(toRow, fromRow);
      var colDiff := Dist(toCol, fromCol);
      if rowDiff <= 1 && colDiff <= 1 && rowDiff + colDiff > 0 {
        return true;
      }
      if rowDiff == 0 && colDiff == 2 && !king.hasMoved {
        ok := CanCastle(king, fromRow, fromCol, toCol);
        return;
      }
      return false;
    }

    /** isPieceMoveLegal: dispatch on the piece type, ignoring check. */
    method IsPieceMoveLegal(piece: Piece, fromRow: int, fromCol: int, toRow: int, toCol: int) returns (ok: bool)
      requires WellFormed() && OnBoard(fromRow, fromCol) && OnBoard(toRow, toCol)
      ensures ok == PieceMoveLegal(Abs(), ValOf(piece), fromRow, fromCol, toRow, toCol)
    {
      match piece.kind
      case King =>
        ok := IsValidKingMove(piece, fromRow, fromCol, toRow, toCol);
      case Queen =>
        ok := IsValidQueenMove(fromRow, fromCol, toRow, toCol);
      case Rook =>
        ok := IsValidRookMove(fromRow, fromCol, toRow, toCol);
      case Bishop =>
        ok := IsValidBishopMove(fromRow, fromCol, toRow, toCol);
      case Knight =>
        ok := KnightShape(fromRow, fromCol, toRow, toCol);
      case Pawn =>
        ok := IsValidPawnMove(piece, fromRow, fromCol, toRow, toCol);
    }

    /**
     * wouldLeaveKingInCheck: plays the move on the array (removing a pawn
     * taken en passant), asks isInCheck, and puts every cell back.
     */
    method WouldLeaveKingInCheck(fromRow: int, fromCol: int, toRow: int, toCol: int, color: Color)
      returns (inCheck: bool)
      requires WellFormed() && CanSimulate(Abs(), fromRow, fromCol, toRow, toCol, color)
      modifies this, board
      ensures WellFormed() && Restored()
      ensures inCheck == LeavesKingInCheck(old(Abs()), fromRow, fromCol, toRow, toCol, color)
    {
      ghost var p := Abs();
      var movingPiece := board[fromRow, fromCol];
      var capturedPiece := board[toRow, toCol];
      var enPassantCaptured := SimulateMove(fromRow, fromCol, toRow, toCol, color);
      inCheck := IsInCheck(color);
      UndoMove(fromRow, fromCol, toRow, toCol, color, movingPiece, capturedPiece, enPassantCaptured);
      SimulationUndone(p, fromRow, fromCol, toRow, toCol, color);
    }

    /**
     * The simulation half of wouldLeaveKingInCheck: removes the pawn taken en
     * passant, if any, and moves the piece. Returns the pawn it removed.
     */
    method SimulateMove(fromRow: int, fromCol: int, toRow: int, toCol: int, color: Color)
      returns (enPassantCaptured: Piece?)
      requires WellFormed() && CanSimulate(Abs(), fromRow, fromCol, toRow, toCol, color)
      modifies this, board
      ensures WellFormed()
      ensures cells == Simulate(old(Abs()), fromRow, fromCol, toRow, toCol, color)
      ensures enPassantCaptured ==
        if EnPassantCase(old(Abs()), fromRow, fromCol, toRow, toCol)
        then old(board[VictimRow(color, toRow), toCol]) else null
      ensures enPassantCaptured != null ==> enPassantCaptured in pieces
      ensures forall r, c | 0 <= r < 8 && 0 <= c < 8 ::
        board[r, c] ==
          if r == toRow && c == toCol then old(board[fromRow, fromCol])
          else if r == fromRow && c == fromCol then null
          else if EnPassantCase(old(Abs()), fromRow, fromCol, toRow, toCol) && r == VictimRow(color, toRow) && c == toCol
          then null
          else old(board[r, c])
      ensures pieces == old(pieces) && currentTurn == old(currentTurn) && moveHistory == old(moveHistory)
      ensures enPassantTargetRow == old(enPassantTargetRow) && enPassantTargetCol == old(enPassantTargetCol)
    {
      ghost var p := Abs();
      var movingPiece := board[fromRow, fromCol];
      var capturedPiece := board[toRow, toCol];
      enPassantCaptured := null;
      if movingPiece.kind == Pawn && toCol != fromCol && capturedPiece == null {
        if toRow == enPassantTargetRow && toCol == enPassantTargetCol {
          var capturedPawnRow := if color == White then toRow - 1 else toRow + 1;
          enPassantCaptured := board[capturedPawnRow, toCol];
          SetCell(capturedPawnRow, toCol, null, Empty);
        }
      }
      SetCell(fromRow, fromCol, null, Empty);
      SetCell(toRow, toCol, movingPiece, At(p.grid, fromRow, fromCol));
    }

    /**
     * The restoring half of wouldLeaveKingInCheck: puts the moved piece, the
     * captured piece and the pawn taken en passant back.
     */
    method UndoMove(fromRow: int, fromCol: int, toRow: int, toCol: int, color: Color,
                    movingPiece: Piece?, capturedPiece: Piece?, enPassantCaptured: Piece?)
      requires WellFormed() && OnBoard(fromRow, fromCol) && OnBoard(toRow, toCol)
      requires movingPiece != null ==> movingPiece in pieces
      requires capturedPiece != null ==> capturedPiece in pieces
      requires enPassantCaptured != null ==> enPassantCaptured in pieces && OnBoard(VictimRow(color, toRow), toCol)
      modifies this, board
      ensures WellFormed()
      ensures var u := Place(Place(old(cells), fromRow, fromCol, old(CellOf(movingPiece))),
                             toRow, toCol, old(CellOf(capturedPiece)));
        cells == if enPassantCaptured != null
                 then Place(u, VictimRow(color, toRow), toCol, old(CellOf(enPassantCaptured))) else u
      ensures forall r, c | 0 <= r < 8 && 0 <= c < 8 ::
        board[r, c] ==
          if enPassantCaptured != null && r == VictimRow(color, toRow) && c == toCol then enPassantCaptured
          else if r == toRow && c == toCol then capturedPiece
          else if r == fromRow && c == fromCol then movingPiece
          else old(board[r, c])
      ensures pieces == old(pieces) && currentTurn == old(currentTurn) && moveHistory == old(moveHistory)
      ensures enPassantTargetRow == old(enPassantTargetRow) && enPassantTargetCol == old(enPassantTargetCol)
    {
      SetCell(fromRow, fromCol, movingPiece, CellOf(movingPiece));
      SetCell(toRow, toCol, capturedPiece, CellOf(capturedPiece));
      if enPassantCaptured != null {
        var capturedPawnRow := if color == White then toRow - 1 else toRow + 1;
        SetCell(capturedPawnRow, toCol, enPassantCaptured, CellOf(enPassantCaptured));
      }
    }

    /** isValidMove: legal for the piece on the origin, whoever's turn it is. */
    method IsValidMove(fromRow: int, fromCol: int, toRow: int, toCol: int) returns (ok: bool)
      requires WellFormed() && OnBoard(toRow, toCol)
      modifies this, board
      ensures WellFormed() && Restored()
      ensures ok == ValidMove(old(Abs()), fromRow, fromCol, toRow, toCol)
    {
      var piece := GetPiece(fromRow, fromCol);
      if piece == null {
        return false;
      }
      var target := GetPiece(toRow, toCol);
      if target != null && target.color == piece.color {
        return false;
      }
      var legal := IsPieceMoveLegal(piece, fromRow, fromCol, toRow, toCol);
      if !legal {
        return false;
      }
      var exposes := WouldLeaveKingInCheck(fromRow, fromCol, toRow, toCol, piece.color);
      if exposes {
        return false;
      }
      return true;
    }

    /** isInCheck, then hasLegalMoves: checkmate is check with no valid move. */
    method IsCheckmate(color: Color) returns (mate: bool)
      requires WellFormed()
      modifies this, board
      ensures WellFormed() && Restored()
      ensures mate == Checkmate(old(Abs()), color)
    {
      var inCheck := IsInCheck(color);
      if !inCheck {
        return false;
      }
      var has := HasLegalMoves(color);
      return !has;
    }

    /** isStalemate: not in check and no valid move. */
    method IsStalemate(color: Color) returns (stale: bool)
      requires WellFormed()
      modifies this, board
      ensures WellFormed() && Restored()
      ensures stale == Stalemate(old(Abs()), color)
    {
      var inCheck := IsInCheck(color);
      if inCheck {
        return false;
      }
      var has := HasLegalMoves(color);
      return !has;
    }

    /**
     * hasLegalMoves: scans every piece of the colour, row by row, and every
     * target square for a valid move.
     */
    method HasLegalMoves(color: Color) returns (has: bool)
      requires WellFormed()
      modifies this, board
      ensures WellFormed() && Restored()
      ensures has == Rules.HasLegalMoves(old(Abs()), color)
    {
      ghost var p := Abs();
      for fromRow := 0 to 8
        invariant WellFormed() && Restored()
        invariant forall r, c | 0 <= r < fromRow && 0 <= c < 8 :: NoMoveFrom(p, color, r, c)
      {
        for fromCol := 0 to 8
          invariant WellFormed() && Restored()
          invariant forall r, c | 0 <= r < 8 && 0 <= c < 8 && ScansBefore(r, c, fromRow, fromCol) ::
            NoMoveFrom(p, color, r, c)
        {
          var piece := board[fromRow, fromCol];
          if piece != null && piece.color == color {
            var found := PieceHasMove(fromRow, fromCol, color);
            if found {
              return true;
            }
          }
        }
      }
      NoMoveAnywhere(p, color);
      return false;
    }

    /** The two inner loops of hasLegalMoves: every target square for the piece on (fromRow, fromCol). */
    method PieceHasMove(fromRow: int, fromCol: int, color: Color) returns (found: bool)
      requires WellFormed() && OnBoard(fromRow, fromCol)
      requires At(cells, fromRow, fromCol).Occupied? && At(cells, fromRow, fromCol).piece.color == color
      modifies this, board
      ensures WellFormed() && Restored()
      ensures found <==> !NoMoveFrom(old(Abs()), color, fromRow, fromCol)
    {
      ghost var p := Abs();
      for toRow := 0 to 8
        invariant WellFormed() && Restored()
        invariant forall r, c | 0 <= r < toRow && 0 <= c < 8 :: !MoveOf(p, color, fromRow, fromCol, r, c)
      {
        for toCol := 0 to 8
          invariant WellFormed() && Restored()
          invariant forall r, c | 0 <= r < 8 && 0 <= c < 8 && ScansBefore(r, c, toRow, toCol) ::
            !MoveOf(p, color, fromRow, fromCol, r, c)
        {
          var valid := IsValidMove(fromRow, fromCol, toRow, toCol);
          if valid {
            assert MoveOf(p, color, fromRow, fromCol, toRow, toCol);
            return true;
          }
        }
      }
      return false;
    }

    /**
     * movePiece: when a piece of the side to move stands on the origin and the
     * move is valid, plays it (en-passant capture, castling rook, promotion to
     * a queen), records it, updates the en-passant target and passes the turn.
     * Otherwise nothing changes.
     */
    method MovePiece(fromRow: int, fromCol: int, toRow: int, toCol: int) returns (ok: bool)
      requires Valid() && OnBoard(toRow, toCol)
      modifies this, board, pieces
      ensures Valid()
      ensures ok == Accepted(old(Abs()), fromRow, fromCol, toRow, toCol)
      ensures ok ==> CanApply(old(Abs()), fromRow, fromCol, toRow, toCol)
      ensures ok ==> Abs() == Apply(old(Abs()), fromRow, fromCol, toRow, toCol)
      ensures ok ==> moveHistory == old(moveHistory) + [MoveRecord(
        old(board[fromRow, fromCol]), fromRow, fromCol, toRow, toCol,
        if EnPassantCase(old(Abs()), fromRow, fromCol, toRow, toCol)
        then var victimRow := VictimRow(old(currentTurn), toRow); old(board[victimRow, toCol])
        else old(board[toRow, toCol]),
        EnPassantCase(old(Abs()), fromRow, fromCol, toRow, toCol),
        CastlingCase(old(Abs()), fromRow, fromCol, toRow, toCol))]
      ensures ok && PromotionCase(old(Abs()), fromRow, fromCol, toRow, toCol) ==> fresh(board[toRow, toCol])
      ensures old(pieces) <= pieces && fresh(pieces - old(pieces))
      ensures !ok ==> Restored()
    {
      var piece := GetPiece(fromRow, fromCol);
      if piece == null {
        return false;
      }
      if piece.color != currentTurn {
        return false;
      }
      var valid := IsValidMove(fromRow, fromCol, toRow, toCol);
      if !valid {
        return false;
      }
      ValidMoveCanApply(Abs(), fromRow, fromCol, toRow, toCol);
      ExecuteMove(piece, fromRow, fromCol, toRow, toCol);
      return true;
    }

    /**
     * The part of movePiece after validation: the special cases, the move
     * itself, the en-passant target, the record and the turn.
     */
    method ExecuteMove(piece: Piece, fromRow: int, fromCol: int, toRow: int, toCol: int)
      requires Valid() && CanApply(Abs(), fromRow, fromCol, toRow, toCol) && board[fromRow, fromCol] == piece
      modifies this, board, pieces
      ensures Valid()
      ensures Abs() == Apply(old(Abs()), fromRow, fromCol, toRow, toCol)
      ensures moveHistory == old(moveHistory) + [MoveRecord(
        piece, fromRow, fromCol, toRow, toCol,
        if EnPassantCase(old(Abs()), fromRow, fromCol, toRow, toCol)
        then old(board[VictimRow(piece.color, toRow), toCol]) else old(board[toRow, toCol]),
        EnPassantCase(old(Abs()), fromRow, fromCol, toRow, toCol),
        CastlingCase(old(Abs()), fromRow, fromCol, toRow, toCol))]
      ensures PromotionCase(old(Abs()), fromRow, fromCol, toRow, toCol) ==> fresh(board[toRow, toCol])
      ensures old(pieces) <= pieces && fresh(pieces - old(pieces))
    {
      var isEnPassant, captured, isCastling := MoveOnBoard(piece, fromRow, fromCol, toRow, toCol);
      FinishMove(piece, fromRow, fromCol, toRow, toCol,
                 MoveRecord(piece, fromRow, fromCol, toRow, toCol, captured, isEnPassant, isCastling));
    }

    /**
     * The rest of movePiece once the piece stands on the target: the new
     * en-passant target, the promotion, the history entry and the turn.
     */
    method FinishMove(piece: Piece, fromRow: int, fromCol: int, toRow: int, toCol: int, record: MoveRecord)
      requires WellFormed() && Coordinates() && OnBoard(fromRow, fromCol) && OnBoard(toRow, toCol)
      modifies this, board
      ensures Valid()
      ensures var double := piece.kind == Pawn && Dist(toRow, fromRow) == 2;
        && enPassantTargetRow == (if double then (fromRow + toRow) / 2 else -1)
        && enPassantTargetCol == (if double then fromCol else -1)
      ensures cells == if piece.kind == Pawn && toRow == LastRow(piece.color)
                       then Place(old(cells), toRow, toCol, Occupied(PieceVal(Queen, piece.color, false)))
                       else old(cells)
      ensures piece.kind == Pawn && toRow == LastRow(piece.color) ==> fresh(board[toRow, toCol])
      ensures old(pieces) <= pieces && fresh(pieces - old(pieces))
      ensures moveHistory == old(moveHistory) + [record]
      ensures currentTurn == Opponent(old(currentTurn))
    {
      // Update en passant target
      var doubleStep := piece.kind == Pawn && Dist(toRow, fromRow) == 2;
      enPassantTargetRow, enPassantTargetCol :=
        if doubleStep then (fromRow + toRow) / 2 else -1,
        if doubleStep then fromCol else -1;

      // Pawn promotion (always to a queen)
      if piece.kind == Pawn && toRow == LastRow(piece.color) {
        PlaceNewPiece(toRow, toCol, Queen, piece.color);
      }

      moveHistory, currentTurn := moveHistory + [record], Opponent(currentTurn);
    }

    /**
     * The board changes of movePiece up to the move itself: the en-passant
     * capture, the castling rook, and the piece going from origin to target.
     */
    method MoveOnBoard(piece: Piece, fromRow: int, fromCol: int, toRow: int, toCol: int)
      returns (isEnPassant: bool, captured: Piece?, isCastling: bool)
      requires Valid() && CanApply(Abs(), fromRow, fromCol, toRow, toCol) && board[fromRow, fromCol] == piece
      modifies this, board, pieces
      ensures Valid()
      ensures cells == AfterShift(old(Abs()), fromRow, fromCol, toRow, toCol)
      ensures isEnPassant == EnPassantCase(old(Abs()), fromRow, fromCol, toRow, toCol)
      ensures captured ==
        if isEnPassant then old(board[VictimRow(piece.color, toRow), toCol]) else old(board[toRow, toCol])
      ensures isCastling == CastlingCase(old(Abs()), fromRow, fromCol, toRow, toCol)
      ensures pieces == old(pieces) && currentTurn == old(currentTurn) && moveHistory == old(moveHistory)
      ensures enPassantTargetRow == old(enPassantTargetRow) && enPassantTargetCol == old(enPassantTargetCol)
    {
      ghost var p := Abs();
      isEnPassant, captured := CaptureEnPassant(piece, fromRow, fromCol, toRow, toCol);
      isCastling := MoveCastlingRook(piece, fromRow, fromCol, toRow, toCol, p);
      Shift(piece, fromRow, fromCol, toRow, toCol);
    }

    /**
     * The en-passant branch of movePiece: a pawn moving diagonally onto the
     * empty target square takes the pawn beside it. Returns whether it did and
     * the piece the move captures.
     */
    method CaptureEnPassant(piece: Piece, fromRow: int, fromCol: int, toRow: int, toCol: int)
      returns (isEnPassant: bool, captured: Piece?)
      requires Valid() && CanApply(Abs(), fromRow, fromCol, toRow, toCol) && board[fromRow, fromCol] == piece
      modifies this, board
      ensures Valid()
      ensures isEnPassant == EnPassantCase(old(Abs()), fromRow, fromCol, toRow, toCol)
      ensures captured ==
        if isEnPassant then old(board[VictimRow(piece.color, toRow), toCol]) else old(board[toRow, toCol])
      ensures cells == AfterEnPassant(old(Abs()), fromRow, fromCol, toRow, toCol)
      ensures pieces == old(pieces) && currentTurn == old(currentTurn) && moveHistory == old(moveHistory)
      ensures enPassantTargetRow == old(enPassantTargetRow) && enPassantTargetCol == old(enPassantTargetCol)
    {
      captured := board[toRow, toCol];
      isEnPassant := false;
      if piece.kind == Pawn && toCol != fromCol && captured == null {
        if toRow == enPassantTargetRow && toCol == enPassantTargetCol {
          isEnPassant := true;
          var capturedPawnRow := if piece.color == White then toRow - 1 else toRow + 1;
          captured := board[capturedPawnRow, toCol];
          SetCell(capturedPawnRow, toCol, null, Empty);
        }
      }
    }

    /**
     * The castling branch of movePiece: a king moving two columns takes the
     * rook from the corner on that side to the square the king passes.
     */
    method MoveCastlingRook(piece: Piece, fromRow: int, fromCol: int, toRow: int, toCol: int, ghost p: Position)
      returns (isCastling: bool)
      requires Valid() && CanApply(p, fromRow, fromCol, toRow, toCol)
      requires cells == AfterEnPassant(p, fromRow, fromCol, toRow, toCol)
      requires piece.row == fromRow && piece.col == fromCol && ValOf(piece) == At(p.grid, fromRow, fromCol).piece
      modifies this, board, pieces
      ensures Valid()
      ensures isCastling == CastlingCase(p, fromRow, fromCol, toRow, toCol)
      ensures cells == AfterCastlingRook(p, fromRow, fromCol, toRow, toCol)
      ensures piece.row == fromRow && piece.col == fromCol && ValOf(piece) == old(ValOf(piece))
      ensures pieces == old(pieces) && currentTurn == old(currentTurn) && moveHistory == old(moveHistory)
      ensures enPassantTargetRow == old(enPassantTargetRow) && enPassantTargetCol == old(enPassantTargetCol)
    {
      isCastling := false;
      if piece.kind == King && Dist(toCol, fromCol) == 2 {
        isCastling := true;
        var rookFromCol := if toCol > fromCol then 7 else 0;
        var rookToCol := if toCol > fromCol then 5 else 3;
        var rook := board[fromRow, rookFromCol];
        Shift(rook, fromRow, rookFromCol, fromRow, rookToCol);
      }
    }
  }
}
