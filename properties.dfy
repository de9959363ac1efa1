/*
 * What the rules of module Rules amount to: the scan of findKing, the walk of
 * isPathClear, the movement rule of each piece type, castling, en passant,
 * the effect of executing a move and the end-of-game predicates.
 */
module RulesProperties {
  import opened Pieces
  import opened Rules

  // ---------------------------------------------------------------------
  // findKing and isInCheck
  // ---------------------------------------------------------------------

  /** (r, c) is at or after (r0, c0) in the row-by-row scan order. */
  predicate NotBefore(r: int, c: int, r0: int, c0: int)
  {
    !ScansBefore(r, c, r0, c0)
  }

  /**
   * The scan from (r0, c0) finds the first king of that colour at or after
   * (r0, c0), and reports NoKing exactly when there is none.
   */
  lemma {:induction false} FindKingFromSpec(g: Grid, color: Color, r0: int, c0: int)
    requires 0 <= r0 <= 8 && 0 <= c0 < 8
    decreases 8 - r0, 8 - c0
    ensures match FindKingFrom(g, color, r0, c0)
      case NoKing =>
        forall r, c | OnBoard(r, c) && NotBefore(r, c, r0, c0) :: !IsKingOf(g, color, r, c)
      case KingAt(kr, kc) =>
        && OnBoard(kr, kc) && NotBefore(kr, kc, r0, c0) && IsKingOf(g, color, kr, kc)
        && forall r, c | OnBoard(r, c) && NotBefore(r, c, r0, c0) && ScansBefore(r, c, kr, kc) ::
             !IsKingOf(g, color, r, c)
  {
    if r0 == 8 {
    } else if IsKingOf(g, color, r0, c0) {
    } else if c0 == 7 {
      FindKingFromSpec(g, color, r0 + 1, 0);
    } else {
      FindKingFromSpec(g, color, r0, c0 + 1);
    }
  }

  /** findKing reports NoKing exactly when no king of that colour is on the grid. */
  lemma FindKingNone(g: Grid, color: Color)
    ensures FindKing(g, color).NoKing? <==> forall r, c | OnBoard(r, c) :: !IsKingOf(g, color, r, c)
  {
    FindKingFromSpec(g, color, 0, 0);
  }

  /** findKing returns a king of that colour, and the first one in row-by-row order. */
  lemma FindKingFirst(g: Grid, color: Color)
    ensures FindKing(g, color).KingAt? ==>
      var k := FindKing(g, color);
      && OnBoard(k.row, k.col) && IsKingOf(g, color, k.row, k.col)
      && forall r, c | OnBoard(r, c) && ScansBefore(r, c, k.row, k.col) :: !IsKingOf(g, color, r, c)
  {
    FindKingFromSpec(g, color, 0, 0);
  }

  /** isInCheck is false when no king of that colour is on the grid. */
  lemma NoKingNoCheck(g: Grid, color: Color)
    requires forall r, c | OnBoard(r, c) :: !IsKingOf(g, color, r, c)
    ensures !InCheck(g, color)
  {
    FindKingNone(g, color);
  }

  /**
   * With exactly one king of that colour, on (kr, kc), isInCheck holds
   * exactly when the opponent attacks that square.
   */
  lemma InCheckOfOnlyKing(g: Grid, color: Color, kr: int, kc: int)
    requires OnBoard(kr, kc) && IsKingOf(g, color, kr, kc)
    requires forall r, c | OnBoard(r, c) && IsKingOf(g, color, r, c) :: r == kr && c == kc
    ensures InCheck(g, color) <==> SquareAttacked(g, kr, kc, Opponent(color))
  {
    FindKingNone(g, color);
    FindKingFirst(g, color);
  }

  // ---------------------------------------------------------------------
  // isPathClear
  // ---------------------------------------------------------------------

  /** A square strictly inside a line of the board is on the board, on a line with its end. */
  lemma InsideLine(fr: int, fc: int, tr: int, tc: int, r: int, c: int)
    requires OnBoard(fr, fc) && OnBoard(tr, tc) && IsLine(fr, fc, tr, tc)
    requires StrictlyBetween(fr, fc, tr, tc, r, c)
    ensures OnBoard(r, c) && IsLine(r, c, tr, tc)
    ensures Chebyshev(r, c, tr, tc) < Chebyshev(fr, fc, tr, tc)
  {
  }

  /** One step of the walk from the origin or a square inside the line stays on the line. */
  lemma StepStaysOnLine(fr: int, fc: int, tr: int, tc: int, r: int, c: int)
    requires OnBoard(fr, fc) && OnBoard(tr, tc) && IsLine(fr, fc, tr, tc)
    requires (r == fr && c == fc) || StrictlyBetween(fr, fc, tr, tc, r, c)
    requires r != tr || c != tc
    ensures var r', c' := r + Compare(tr, r), c + Compare(tc, c);
      && ((r' == tr && c' == tc) || StrictlyBetween(fr, fc, tr, tc, r', c'))
      && Chebyshev(r', c', tr, tc) + 1 == Chebyshev(r, c, tr, tc)
  {
  }

  /** Two squares inside the line at the same distance from its end are the same square. */
  lemma SameDistanceSameSquare(fr: int, fc: int, tr: int, tc: int, r: int, c: int, x: int, y: int)
    requires OnBoard(fr, fc) && OnBoard(tr, tc) && IsLine(fr, fc, tr, tc)
    requires StrictlyBetween(fr, fc, tr, tc, r, c) && StrictlyBetween(fr, fc, tr, tc, x, y)
    requires Chebyshev(x, y, tr, tc) == Chebyshev(r, c, tr, tc)
    ensures x == r && y == c
  {
  }

  /**
   * When the walk of isPathClear gets through from a square inside the line,
   * every square inside the line from that square on is empty.
   */
  lemma {:induction false} ClearFromEmpty(g: Grid, fr: int, fc: int, tr: int, tc: int, r: int, c: int, x: int, y: int)
    requires OnBoard(fr, fc) && OnBoard(tr, tc) && IsLine(fr, fc, tr, tc)
    requires StrictlyBetween(fr, fc, tr, tc, r, c) && OnBoard(r, c) && IsLine(r, c, tr, tc)
    requires ClearFrom(g, r, c, tr, tc)
    requires OnBoard(x, y) && StrictlyBetween(fr, fc, tr, tc, x, y)
    requires Chebyshev(x, y, tr, tc) <= Chebyshev(r, c, tr, tc)
    decreases Chebyshev(r, c, tr, tc)
    ensures At(g, x, y) == Empty
  {
    if x != r || y != c {
      if Chebyshev(x, y, tr, tc) == Chebyshev(r, c, tr, tc) {
        SameDistanceSameSquare(fr, fc, tr, tc, r, c, x, y);
      }
      StepStaysOnLine(fr, fc, tr, tc, r, c);
      var r', c' := r + Compare(tr, r), c + Compare(tc, c);
      if r' != tr || c' != tc {
        InsideLine(fr, fc, tr, tc, r', c');
        ClearFromEmpty(g, fr, fc, tr, tc, r', c', x, y);
      }
    }
  }

  /**
   * When the walk of isPathClear is stopped from a square inside the line,
   * some square inside the line is occupied.
   */
  lemma {:induction false} ClearFromBlocked(g: Grid, fr: int, fc: int, tr: int, tc: int, r: int, c: int)
    returns (x: int, y: int)
    requires OnBoard(fr, fc) && OnBoard(tr, tc) && IsLine(fr, fc, tr, tc)
    requires StrictlyBetween(fr, fc, tr, tc, r, c) && OnBoard(r, c) && IsLine(r, c, tr, tc)
    requires !ClearFrom(g, r, c, tr, tc)
    decreases Chebyshev(r, c, tr, tc)
    ensures OnBoard(x, y) && StrictlyBetween(fr, fc, tr, tc, x, y) && At(g, x, y) != Empty
  {
    if At(g, r, c) != Empty {
      x, y := r, c;
    } else {
      StepStaysOnLine(fr, fc, tr, tc, r, c);
      var r', c' := r + Compare(tr, r), c + Compare(tc, c);
      InsideLine(fr, fc, tr, tc, r', c');
      x, y := ClearFromBlocked(g, fr, fc, tr, tc, r', c');
    }
  }

  /**
   * isPathClear holds exactly when every square strictly between the two
   * ends of the line is empty.
   */
  lemma PathClearIff(g: Grid, fr: int, fc: int, tr: int, tc: int)
    requires OnBoard(fr, fc) && OnBoard(tr, tc) && IsLine(fr, fc, tr, tc)
    ensures PathClear(g, fr, fc, tr, tc) <==>
      forall x, y | OnBoard(x, y) && StrictlyBetween(fr, fc, tr, tc, x, y) :: At(g, x, y) == Empty
  {
    if fr != tr || fc != tc {
      StepStaysOnLine(fr, fc, tr, tc, fr, fc);
      var r, c := fr + Compare(tr, fr), fc + Compare(tc, fc);
      if r != tr || c != tc {
        InsideLine(fr, fc, tr, tc, r, c);
        if PathClear(g, fr, fc, tr, tc) {
          forall x, y | OnBoard(x, y) && StrictlyBetween(fr, fc, tr, tc, x, y)
            ensures At(g, x, y) == Empty
          {
            InsideLine(fr, fc, tr, tc, x, y);
            ClearFromEmpty(g, fr, fc, tr, tc, r, c, x, y);
          }
        } else {
          var x, y := ClearFromBlocked(g, fr, fc, tr, tc, r, c);
        }
      } else {
        forall x, y | OnBoard(x, y) && StrictlyBetween(fr, fc, tr, tc, x, y)
          ensures false
        {
          InsideLine(fr, fc, tr, tc, x, y);
        }
      }
    }
  }

  // ---------------------------------------------------------------------
  // Movement rules of the piece types
  // ---------------------------------------------------------------------

  /** No square strictly between the ends of the line holds a piece. */
  ghost predicate NothingBetween(g: Grid, fr: int, fc: int, tr: int, tc: int)
  {
    forall x, y | OnBoard(x, y) && StrictlyBetween(fr, fc, tr, tc, x, y) :: At(g, x, y) == Empty
  }

  /** A bishop moves any positive distance along a diagonal, over empty squares only. */
  lemma BishopRule(p: Position, piece: PieceVal, fr: int, fc: int, tr: int, tc: int)
    requires piece.kind == Bishop && OnBoard(fr, fc) && OnBoard(tr, tc)
    ensures PieceMoveLegal(p, piece, fr, fc, tr, tc) <==>
      Dist(fr, tr) == Dist(fc, tc) > 0 && NothingBetween(p.grid, fr, fc, tr, tc)
  {
    if Dist(fr, tr) == Dist(fc, tc) {
      PathClearIff(p.grid, fr, fc, tr, tc);
    }
  }

  /** A rook moves along its row or its column, over empty squares only. */
  lemma RookRule(p: Position, piece: PieceVal, fr: int, fc: int, tr: int, tc: int)
    requires piece.kind == Rook && OnBoard(fr, fc) && OnBoard(tr, tc)
    ensures PieceMoveLegal(p, piece, fr, fc, tr, tc) <==>
      (fr == tr || fc == tc) && NothingBetween(p.grid, fr, fc, tr, tc)
  {
    if fr == tr || fc == tc {
      PathClearIff(p.grid, fr, fc, tr, tc);
    }
  }

  /** A queen moves like a rook or like a bishop. */
  lemma QueenRule(p: Position, piece: PieceVal, fr: int, fc: int, tr: int, tc: int)
    requires piece.kind == Queen && OnBoard(fr, fc) && OnBoard(tr, tc)
    ensures PieceMoveLegal(p, piece, fr, fc, tr, tc) <==>
      (fr == tr || fc == tc || Dist(fr, tr) == Dist(fc, tc) > 0) && NothingBetween(p.grid, fr, fc, tr, tc)
  {
    if IsLine(fr, fc, tr, tc) {
      PathClearIff(p.grid, fr, fc, tr, tc);
    }
  }

  /** A knight jumps two squares one way and one the other, whatever stands between. */
  lemma KnightRule(p: Position, piece: PieceVal, fr: int, fc: int, tr: int, tc: int)
    requires piece.kind == Knight && OnBoard(fr, fc) && OnBoard(tr, tc)
    ensures PieceMoveLegal(p, piece, fr, fc, tr, tc) <==>
      (Dist(fr, tr), Dist(fc, tc)) in {(2, 1), (1, 2)}
  {
  }

  /** A king steps to one of the eight neighbouring squares, or castles two columns along its row. */
  lemma KingRule(p: Position, piece: PieceVal, fr: int, fc: int, tr: int, tc: int)
    requires piece.kind == King && OnBoard(fr, fc) && OnBoard(tr, tc)
    ensures PieceMoveLegal(p, piece, fr, fc, tr, tc) <==>
      || Chebyshev(fr, fc, tr, tc) == 1
      || (fr == tr && Dist(fc, tc) == 2 && !piece.hasMoved && CanCastle(p, piece.color, fr, fc, tc))
  {
  }

  /**
   * The pawn rules: forward one square onto an empty square, two squares
   * from the start row over two empty squares, or one square diagonally
   * forward onto an enemy piece or the en-passant target; nothing else.
   */
  lemma PawnRule(p: Position, pawn: PieceVal, fr: int, fc: int, tr: int, tc: int)
    requires pawn.kind == Pawn && OnBoard(fr, fc) && OnBoard(tr, tc)
    ensures Direction(pawn.color) == (if pawn.color == White then 1 else -1)
    ensures fc == tc && tr == fr + Direction(pawn.color) ==>
      (PieceMoveLegal(p, pawn, fr, fc, tr, tc) <==> At(p.grid, tr, tc) == Empty)
    ensures fc == tc && tr == fr + 2 * Direction(pawn.color) ==>
      (PieceMoveLegal(p, pawn, fr, fc, tr, tc) <==>
        fr == StartRow(pawn.color) && At(p.grid, fr + Direction(pawn.color), fc) == Empty
        && At(p.grid, tr, tc) == Empty)
    ensures Dist(fc, tc) == 1 && tr == fr + Direction(pawn.color) ==>
      (PieceMoveLegal(p, pawn, fr, fc, tr, tc) <==>
        (At(p.grid, tr, tc).Occupied? && At(p.grid, tr, tc).piece.color != pawn.color)
        || (tr == p.epRow && tc == p.epCol))
    ensures PieceMoveLegal(p, pawn, fr, fc, tr, tc) ==>
      || (fc == tc && tr == fr + Direction(pawn.color))
      || (fc == tc && tr == fr + 2 * Direction(pawn.color))
      || (Dist(fc, tc) == 1 && tr == fr + Direction(pawn.color))
  {
  }

  /** A valid move never stays put and never lands on a piece of its own side. */
  lemma ValidMoveTarget(p: Position, fr: int, fc: int, tr: int, tc: int)
    requires OnBoard(tr, tc) && ValidMove(p, fr, fc, tr, tc)
    ensures fr != tr || fc != tc
    ensures At(p.grid, tr, tc) == Empty || At(p.grid, tr, tc).piece.color != At(p.grid, fr, fc).piece.color
  {
  }

  /**
   * Castling is valid only with an unmoved king that is not in check, an
   * unmoved rook in the corner on that side, nothing between them, and no
   * attacked square from the king's origin to its destination.
   */
  lemma CastlingRequirements(p: Position, fr: int, fc: int, tr: int, tc: int)
    requires OnBoard(tr, tc) && ValidMove(p, fr, fc, tr, tc) && CastlingCase(p, fr, fc, tr, tc)
    ensures var king := At(p.grid, fr, fc).piece;
      var rook := At(p.grid, fr, RookHome(fc, tc));
      && fr == tr && !king.hasMoved && !InCheck(p.grid, king.color)
      && rook.Occupied? && rook.piece.kind == Rook && !rook.piece.hasMoved
      && (forall c | Min(fc, RookHome(fc, tc)) < c < Max(fc, RookHome(fc, tc)) :: At(p.grid, fr, c) == Empty)
      && (forall c | Min(fc, tc) <= c <= Max(fc, tc) :: !SquareAttacked(p.grid, fr, c, Opponent(king.color)))
  {
    assert !KingStep(fr, fc, tr, tc);
  }

  // ---------------------------------------------------------------------
  // Executing a move (movePiece after validation)
  // ---------------------------------------------------------------------

  /** A square movePiece writes: origin, target, the en-passant victim, the castling rook's two squares. */
  predicate Touched(p: Position, fr: int, fc: int, tr: int, tc: int, r: int, c: int)
    requires CanApply(p, fr, fc, tr, tc)
  {
    || (r == fr && c == fc) || (r == tr && c == tc)
    || (EnPassantCase(p, fr, fc, tr, tc) && r == VictimRow(At(p.grid, fr, fc).piece.color, tr) && c == tc)
    || (CastlingCase(p, fr, fc, tr, tc) && r == fr && (c == RookHome(fc, tc) || c == RookTarget(fc, tc)))
  }

  /**
   * After a valid move the origin is empty; the target holds the mover,
   * marked as moved, or a new unmoved queen of its colour when a pawn reaches
   * its last row; the turn has passed; the en-passant target is the square a
   * double-stepping pawn skipped, and unset after any other move; and no
   * square movePiece does not write has changed.
   */
  lemma ApplyEffects(p: Position, fr: int, fc: int, tr: int, tc: int)
    requires OnBoard(tr, tc) && ValidMove(p, fr, fc, tr, tc)
    ensures CanApply(p, fr, fc, tr, tc)
    ensures var q := Apply(p, fr, fc, tr, tc);
      var mover := At(p.grid, fr, fc).piece;
      && At(q.grid, fr, fc) == Empty
      && At(q.grid, tr, tc) ==
           (if mover.kind == Pawn && tr == LastRow(mover.color)
            then Occupied(PieceVal(Queen, mover.color, false))
            else Occupied(mover.(hasMoved := true)))
      && q.turn == Opponent(p.turn)
      && (if mover.kind == Pawn && Dist(fr, tr) == 2
          then q.epRow == fr + Direction(mover.color) && q.epCol == fc && tc == fc
          else q.epRow == -1 && q.epCol == -1)
      && forall r, c | OnBoard(r, c) && !Touched(p, fr, fc, tr, tc, r, c) :: At(q.grid, r, c) == At(p.grid, r, c)
  {
    ValidMoveCanApply(p, fr, fc, tr, tc);
  }

  /**
   * An en-passant capture takes the enemy pawn beside the mover, on the row
   * the mover leaves, not anything on the target square, and leaves that
   * square empty.
   */
  lemma EnPassantEffects(p: Position, fr: int, fc: int, tr: int, tc: int)
    requires OnBoard(tr, tc) && ValidMove(p, fr, fc, tr, tc) && EnPassantCase(p, fr, fc, tr, tc)
    ensures CanApply(p, fr, fc, tr, tc)
    ensures var color := At(p.grid, fr, fc).piece.color;
      && VictimRow(color, tr) == fr && VictimRow(color, tr) == (if color == White then tr - 1 else tr + 1)
      && At(p.grid, tr, tc) == Empty
      && At(Apply(p, fr, fc, tr, tc).grid, fr, tc) == Empty
  {
    ValidMoveCanApply(p, fr, fc, tr, tc);
  }

  /**
   * Castling moves the king two columns and the corner rook (column 7 when
   * the king moves towards higher columns, column 0 otherwise) to column 5 or
   * 3, both marked as moved, provided those squares are four distinct ones.
   * That holds for the king's home column 4, and for columns 6 and 2 moving
   * back towards the centre.
   */
  lemma CastlingEffects(p: Position, fr: int, fc: int, tr: int, tc: int)
    requires OnBoard(tr, tc) && ValidMove(p, fr, fc, tr, tc) && CastlingCase(p, fr, fc, tr, tc)
    requires RookTarget(fc, tc) != fc && RookTarget(fc, tc) != tc && RookHome(fc, tc) != tc
    ensures CanApply(p, fr, fc, tr, tc)
    ensures var q := Apply(p, fr, fc, tr, tc);
      var king := At(p.grid, fr, fc).piece;
      var rook := At(p.grid, fr, RookHome(fc, tc)).piece;
      && RookHome(fc, tc) == (if tc > fc then 7 else 0) && RookTarget(fc, tc) == (if tc > fc then 5 else 3)
      && At(q.grid, fr, fc) == Empty && At(q.grid, fr, RookHome(fc, tc)) == Empty
      && At(q.grid, tr, tc) == Occupied(king.(hasMoved := true))
      && At(q.grid, fr, RookTarget(fc, tc)) == Occupied(rook.(hasMoved := true))
  {
    ValidMoveCanApply(p, fr, fc, tr, tc);
    CastlingRequirements(p, fr, fc, tr, tc);
  }

  /**
   * canPieceAttack: a queen, rook, bishop or knight attacks exactly the
   * squares it may move to; a king attacks its eight neighbours, never a
   * castling square; a pawn attacks the two squares diagonally forward,
   * whether or not it could move there.
   */
  lemma AttackRule(p: Position, piece: PieceVal, fr: int, fc: int, tr: int, tc: int)
    requires OnBoard(fr, fc) && OnBoard(tr, tc)
    ensures piece.kind != King && piece.kind != Pawn ==>
      (CanPieceAttack(p.grid, piece, fr, fc, tr, tc) <==> PieceMoveLegal(p, piece, fr, fc, tr, tc))
    ensures piece.kind == King ==>
      (CanPieceAttack(p.grid, piece, fr, fc, tr, tc) <==> Chebyshev(fr, fc, tr, tc) == 1)
    ensures piece.kind == King && CanPieceAttack(p.grid, piece, fr, fc, tr, tc) ==>
      PieceMoveLegal(p, piece, fr, fc, tr, tc)
    ensures piece.kind == Pawn ==>
      (CanPieceAttack(p.grid, piece, fr, fc, tr, tc) <==>
        tr == fr + Direction(piece.color) && Dist(fc, tc) == 1)
  {
  }

  // ---------------------------------------------------------------------
  // End of game
  // ---------------------------------------------------------------------

  /** Checkmate and stalemate exclude each other, and each means no valid move is left. */
  lemma GameEndExclusive(p: Position, color: Color)
    ensures !(Checkmate(p, color) && Stalemate(p, color))
    ensures Checkmate(p, color) || Stalemate(p, color) ==> !HasLegalMoves(p, color)
    ensures !HasLegalMoves(p, color) ==> Checkmate(p, color) || Stalemate(p, color)
  {
  }

  /** A side with no king on the grid is never in check, so it is never checkmated. */
  lemma NoKingNoCheckmate(p: Position, color: Color)
    requires forall r, c | OnBoard(r, c) :: !IsKingOf(p.grid, color, r, c)
    ensures !Checkmate(p, color)
  {
    NoKingNoCheck(p.grid, color);
  }

  // ---------------------------------------------------------------------
  // The initial position
  // ---------------------------------------------------------------------

  /** Each side starts with one king, on column 4 of its back rank. */
  lemma InitialKings()
    ensures forall r, c | OnBoard(r, c) :: IsKingOf(InitialGrid(), White, r, c) <==> r == 0 && c == 4
    ensures forall r, c | OnBoard(r, c) :: IsKingOf(InitialGrid(), Black, r, c) <==> r == 7 && c == 4
    ensures FindKing(InitialGrid(), White) == KingAt(0, 4)
    ensures FindKing(InitialGrid(), Black) == KingAt(7, 4)
  {
    var g := InitialGrid();
    forall r, c | OnBoard(r, c)
      ensures IsKingOf(g, White, r, c) <==> r == 0 && c == 4
      ensures IsKingOf(g, Black, r, c) <==> r == 7 && c == 4
    {
      assert At(g, r, c) == InitialCell(r, c);
    }
    assert IsKingOf(g, White, 0, 4) && IsKingOf(g, Black, 7, 4);
    FindKingFirst(g, White);
    FindKingNone(g, White);
    FindKingFirst(g, Black);
    FindKingNone(g, Black);
  }

  /**
   * In the initial position no piece of the attacker's side attacks the
   * square on column 4 of the other side's back rank, where that side's king stands.
   */
  lemma InitialKingSquareSafe(row: int, attacker: Color)
    requires row == (if attacker == Black then 0 else 7)
    ensures !SquareAttacked(InitialGrid(), row, 4, attacker)
  {
    var g := InitialGrid();
    forall r, c | OnBoard(r, c)
      ensures !AttackerAt(g, r, c, row, 4, attacker)
    {
      assert At(g, r, c) == InitialCell(r, c);
      if At(g, r, c).Occupied? && At(g, r, c).piece.color == attacker {
        assert Dist(r, row) >= 6;
        assert IsLine(r, c, row, 4) ==> c == 4;
      }
    }
  }

  /** No piece attacks the other side's king in the initial position: neither side is in check. */
  lemma InitialNotInCheck()
    ensures !InCheck(Initial().grid, White) && !InCheck(Initial().grid, Black)
  {
    InitialKings();
    InitialKingSquareSafe(0, Black);
    InitialKingSquareSafe(7, White);
  }
}
