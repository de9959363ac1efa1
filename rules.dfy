/*
 * The chess rules as functions of a board position value. This is the
 * specification that the imperative GameBoard in game_board.dfy is proved
 * against: each of its methods returns what the function of the same name
 * here computes on the abstract value of the board.
 *
 * Coordinates are (row, column) with rows 0..7 from White's side (row 0 is
 * White's back rank) and columns 0..7.
 */
module Rules {
  import opened Pieces

  /** What the rules need to know of a piece: its type, colour and flag. */
  datatype PieceVal = PieceVal(kind: PieceType, color: Color, hasMoved: bool)

  datatype Cell = Empty | Occupied(piece: PieceVal)

  /** An 8x8 grid of cells, indexed grid[row][col]. */
  type Grid = g: seq<seq<Cell>> | |g| == 8 && forall r | 0 <= r < 8 :: |g[r]| == 8
    witness seq(8, _ => seq(8, _ => Empty))

  /**
   * The state the rules read: the grid, the side to move and the en-passant
   * target square, which is (-1, -1) when unset.
   */
  datatype Position = Position(grid: Grid, turn: Color, epRow: int, epCol: int)

  /** isValidSquare. */
  predicate OnBoard(r: int, c: int): (b: bool)
    ensures b ==> 0 <= 8 * r + c < 64
  {
    0 <= r < 8 && 0 <= c < 8
  }

  function At(g: Grid, r: int, c: int): Cell
    requires OnBoard(r, c)
  {
    g[r][c]
  }

  /** The grid with cell (r, c) replaced by x. */
  function Place(g: Grid, r: int, c: int, x: Cell): (g': Grid)
    requires OnBoard(r, c)
    ensures forall r', c' | OnBoard(r', c') ::
      At(g', r', c') == if r' == r && c' == c then x else At(g, r', c')
  {
    g[r := g[r][c := x]]
  }

  /** The grid with no piece on it. */
  function EmptyGrid(): (g: Grid)
    ensures forall r, c | OnBoard(r, c) :: At(g, r, c) == Empty
  {
    seq(8, r => seq(8, c => Empty))
  }

  /** Two grids with the same cells are the same grid. */
  lemma GridsEqual(g: Grid, h: Grid)
    requires forall r, c | OnBoard(r, c) :: At(g, r, c) == At(h, r, c)
    ensures g == h
  {
    forall r | 0 <= r < 8
      ensures g[r] == h[r]
    {
      assert |g[r]| == 8 == |h[r]|;
      assert forall c | 0 <= c < 8 :: g[r][c] == At(g, r, c) == At(h, r, c) == h[r][c];
    }
  }

  function Dist(a: int, b: int): nat
  {
    if a <= b then b - a else a - b
  }

  function Min(a: int, b: int): int { if a <= b then a else b }

  function Max(a: int, b: int): int { if a <= b then b else a }

  /** Integer.compare(a, b): the unit step from b towards a. */
  function Compare(a: int, b: int): int
  {
    if a < b then -1 else if a == b then 0 else 1
  }

  /** Chebyshev distance: the number of king steps between two squares. */
  function Chebyshev(fr: int, fc: int, tr: int, tc: int): nat
  {
    Max(Dist(fr, tr), Dist(fc, tc))
  }

  /** A straight or diagonal line: the shapes along which a piece can slide. */
  predicate IsLine(fr: int, fc: int, tr: int, tc: int)
  {
    fr == tr || fc == tc || Dist(fr, tr) == Dist(fc, tc)
  }

  /**
   * (r, c) lies strictly between the two ends of the line from (fr, fc) to
   * (tr, tc): inside the rectangle they span, on the same diagonal when the
   * line is diagonal, and equal to neither end.
   */
  predicate StrictlyBetween(fr: int, fc: int, tr: int, tc: int, r: int, c: int)
  {
    && (r != fr || c != fc)
    && (r != tr || c != tc)
    && Min(fr, tr) <= r <= Max(fr, tr)
    && Min(fc, tc) <= c <= Max(fc, tc)
    && (fr == tr || fc == tc || Dist(r, fr) == Dist(c, fc))
  }

  /**
   * The walk of isPathClear from (r, c) towards (tr, tc): true when it
   * reaches (tr, tc) without meeting an occupied cell.
   */
  function ClearFrom(g: Grid, r: int, c: int, tr: int, tc: int): bool
    requires OnBoard(r, c) && OnBoard(tr, tc) && IsLine(r, c, tr, tc)
    decreases Chebyshev(r, c, tr, tc)
  {
    if r == tr && c == tc then true
    else if At(g, r, c) != Empty then false
    else ClearFrom(g, r + Compare(tr, r), c + Compare(tc, c), tr, tc)
  }

  /** isPathClear: the walk starts one step away from the origin. */
  function PathClear(g: Grid, fr: int, fc: int, tr: int, tc: int): bool
    requires OnBoard(fr, fc) && OnBoard(tr, tc) && IsLine(fr, fc, tr, tc)
  {
    ClearFrom(g, fr + Compare(tr, fr), fc + Compare(tc, fc), tr, tc)
  }

  // ---------------------------------------------------------------------
  // Movement patterns (isValid*Move)
  // ---------------------------------------------------------------------

  /** isValidKnightMove. */
  predicate KnightShape(fr: int, fc: int, tr: int, tc: int): (b: bool)
    ensures b ==> Chebyshev(fr, fc, tr, tc) == 2 && !IsLine(fr, fc, tr, tc)
  {
    (Dist(fr, tr) == 2 && Dist(fc, tc) == 1) || (Dist(fr, tr) == 1 && Dist(fc, tc) == 2)
  }

  /** One king step in any direction (the distance test of isValidKingMove). */
  predicate KingStep(fr: int, fc: int, tr: int, tc: int)
  {
    Dist(fr, tr) <= 1 && Dist(fc, tc) <= 1 && Dist(fr, tr) + Dist(fc, tc) > 0
  }

  /** isValidRookMove. */
  predicate RookMove(g: Grid, fr: int, fc: int, tr: int, tc: int)
    requires OnBoard(fr, fc) && OnBoard(tr, tc)
  {
    (fr == tr || fc == tc) && PathClear(g, fr, fc, tr, tc)
  }

  /** isValidBishopMove. */
  predicate BishopMove(g: Grid, fr: int, fc: int, tr: int, tc: int)
    requires OnBoard(fr, fc) && OnBoard(tr, tc)
  {
    Dist(fr, tr) == Dist(fc, tc) && Dist(fr, tr) != 0 && PathClear(g, fr, fc, tr, tc)
  }

  /** isValidQueenMove. */
  predicate QueenMove(g: Grid, fr: int, fc: int, tr: int, tc: int)
    requires OnBoard(fr, fc) && OnBoard(tr, tc)
  {
    RookMove(g, fr, fc, tr, tc) || BishopMove(g, fr, fc, tr, tc)
  }

  /** The row step of a pawn of colour c. */
  function Direction(c: Color): int
  {
    if c == White then 1 else -1
  }

  /** The row a pawn of colour c starts on. */
  function StartRow(c: Color): int
  {
    if c == White then 1 else 6
  }

  /** The row on which a pawn of colour c is promoted. */
  function LastRow(c: Color): int
  {
    if c == White then 7 else 0
  }

  /** isValidPawnMove. */
  predicate PawnMove(p: Position, pawn: PieceVal, fr: int, fc: int, tr: int, tc: int)
    requires OnBoard(fr, fc) && OnBoard(tr, tc)
  {
    var dir := Direction(pawn.color);
    var target := At(p.grid, tr, tc);
    || (fc == tc && tr - fr == dir && target == Empty)
    || (fc == tc && fr == StartRow(pawn.color) && tr - fr == 2 * dir
        && At(p.grid, fr + dir, fc) == Empty && target == Empty)
    || (Dist(fc, tc) == 1 && tr - fr == dir
        && ((target.Occupied? && target.piece.color != pawn.color)
            || (tr == p.epRow && tc == p.epCol)))
  }

  /** The corner column of the rook a king moving to toCol castles with. */
  function RookHome(fromCol: int, toCol: int): int
  {
    if toCol > fromCol then 7 else 0
  }

  /** The column that rook is moved to when castling. */
  function RookTarget(fromCol: int, toCol: int): int
  {
    if toCol > fromCol then 5 else 3
  }

  /** canCastle for a king of colour color on row, from fromCol to toCol. */
  predicate CanCastle(p: Position, color: Color, row: int, fromCol: int, toCol: int)
    requires OnBoard(row, fromCol) && OnBoard(row, toCol) && Dist(fromCol, toCol) == 2
  {
    var rookCol := RookHome(fromCol, toCol);
    var rook := At(p.grid, row, rookCol);
    && !InCheck(p.grid, color)
    && rook.Occupied? && rook.piece.kind == Rook && !rook.piece.hasMoved
    && (forall c | Min(fromCol, rookCol) < c < Max(fromCol, rookCol) :: At(p.grid, row, c) == Empty)
    && (forall c | Min(fromCol, toCol) <= c <= Max(fromCol, toCol) ::
          !SquareAttacked(p.grid, row, c, Opponent(color)))
  }

  /** isValidKingMove: one step, or castling two columns along the row. */
  predicate KingMove(p: Position, king: PieceVal, fr: int, fc: int, tr: int, tc: int)
    requires OnBoard(fr, fc) && OnBoard(tr, tc)
  {
    || KingStep(fr, fc, tr, tc)
    || (fr == tr && Dist(fc, tc) == 2 && !king.hasMoved && CanCastle(p, king.color, fr, fc, tc))
  }

  /** isPieceMoveLegal: the movement pattern of the piece's type, ignoring check. */
  predicate PieceMoveLegal(p: Position, piece: PieceVal, fr: int, fc: int, tr: int, tc: int)
    requires OnBoard(fr, fc) && OnBoard(tr, tc)
  {
    match piece.kind
    case King => KingMove(p, piece, fr, fc, tr, tc)
    case Queen => QueenMove(p.grid, fr, fc, tr, tc)
    case Rook => RookMove(p.grid, fr, fc, tr, tc)
    case Bishop => BishopMove(p.grid, fr, fc, tr, tc)
    case Knight => KnightShape(fr, fc, tr, tc)
    case Pawn => PawnMove(p, piece, fr, fc, tr, tc)
  }

  // ---------------------------------------------------------------------
  // Attack and check
  // ---------------------------------------------------------------------

  /** The diagonal-forward attack of a pawn. */
  predicate PawnAttack(c: Color, fr: int, fc: int, tr: int, tc: int)
  {
    tr - fr == Direction(c) && Dist(fc, tc) == 1
  }

  /** canPieceAttack: a simplified attack pattern that ignores castling. */
  predicate CanPieceAttack(g: Grid, piece: PieceVal, fr: int, fc: int, tr: int, tc: int)
    requires OnBoard(fr, fc) && OnBoard(tr, tc)
  {
    match piece.kind
    case King => KingStep(fr, fc, tr, tc)
    case Queen => QueenMove(g, fr, fc, tr, tc)
    case Rook => RookMove(g, fr, fc, tr, tc)
    case Bishop => BishopMove(g, fr, fc, tr, tc)
    case Knight => KnightShape(fr, fc, tr, tc)
    case Pawn => PawnAttack(piece.color, fr, fc, tr, tc)
  }

  /** The piece on (r, c), if any, has colour by and attacks (row, col). */
  predicate AttackerAt(g: Grid, r: int, c: int, row: int, col: int, attacker: Color)
    requires OnBoard(r, c) && OnBoard(row, col)
  {
    At(g, r, c).Occupied? && At(g, r, c).piece.color == attacker
    && CanPieceAttack(g, At(g, r, c).piece, r, c, row, col)
  }

  /** isSquareAttacked. */
  predicate SquareAttacked(g: Grid, row: int, col: int, attacker: Color)
    requires OnBoard(row, col)
  {
    exists r, c | 0 <= r < 8 && 0 <= c < 8 :: AttackerAt(g, r, c, row, col, attacker)
  }

  predicate IsKingOf(g: Grid, color: Color, r: int, c: int)
    requires OnBoard(r, c)
  {
    At(g, r, c).Occupied? && At(g, r, c).piece.kind == King && At(g, r, c).piece.color == color
  }

  /** (r, c) comes strictly before (r', c') in the row-by-row scan order. */
  predicate ScansBefore(r: int, c: int, r': int, c': int)
  {
    r < r' || (r == r' && c < c')
  }

  datatype KingSearch = NoKing | KingAt(row: int, col: int)

  /**
   * The scan of findKing from (r, c) on, row by row: the first king of colour
   * color at or after (r, c), or NoKing when there is none.
   */
  function FindKingFrom(g: Grid, color: Color, r: int, c: int): (res: KingSearch)
    requires 0 <= r <= 8 && 0 <= c < 8
    decreases 8 - r, 8 - c
    ensures res.KingAt? ==> OnBoard(res.row, res.col)
  {
    if r == 8 then NoKing
    else if IsKingOf(g, color, r, c) then KingAt(r, c)
    else if c == 7 then FindKingFrom(g, color, r + 1, 0)
    else FindKingFrom(g, color, r, c + 1)
  }

  /** findKing: the first king of colour color in row-by-row order. */
  function FindKing(g: Grid, color: Color): KingSearch
  {
    FindKingFrom(g, color, 0, 0)
  }

  /** isInCheck: false when no king of that colour is on the grid. */
  predicate InCheck(g: Grid, color: Color)
  {
    match FindKing(g, color)
    case NoKing => false
    case KingAt(kr, kc) => SquareAttacked(g, kr, kc, Opponent(color))
  }

  // ---------------------------------------------------------------------
  // Simulation and full legality
  // ---------------------------------------------------------------------

  /** The row of the pawn taken en passant by a pawn of colour c landing on row tr. */
  function VictimRow(c: Color, tr: int): int
  {
    if c == White then tr - 1 else tr + 1
  }

  /**
   * The en-passant branch of movePiece and wouldLeaveKingInCheck: a pawn moves
   * to another column, onto an empty cell that is the en-passant target.
   */
  predicate EnPassantCase(p: Position, fr: int, fc: int, tr: int, tc: int)
    requires OnBoard(fr, fc) && OnBoard(tr, tc)
  {
    && At(p.grid, fr, fc).Occupied? && At(p.grid, fr, fc).piece.kind == Pawn
    && tc != fc && At(p.grid, tr, tc) == Empty
    && tr == p.epRow && tc == p.epCol
  }

  /** What wouldLeaveKingInCheck needs to index the board. */
  predicate CanSimulate(p: Position, fr: int, fc: int, tr: int, tc: int, color: Color)
  {
    && OnBoard(fr, fc) && OnBoard(tr, tc) && At(p.grid, fr, fc).Occupied?
    && (EnPassantCase(p, fr, fc, tr, tc) ==> OnBoard(VictimRow(color, tr), tc))
  }

  /** The grid wouldLeaveKingInCheck evaluates: the moving piece on the target, origin empty. */
  function Simulate(p: Position, fr: int, fc: int, tr: int, tc: int, color: Color): Grid
    requires CanSimulate(p, fr, fc, tr, tc, color)
  {
    var g1 := if EnPassantCase(p, fr, fc, tr, tc)
              then Place(p.grid, VictimRow(color, tr), tc, Empty) else p.grid;
    Place(Place(g1, fr, fc, Empty), tr, tc, At(p.grid, fr, fc))
  }

  /**
   * wouldLeaveKingInCheck's restore puts back the origin, the target and,
   * when it held a piece, the en-passant victim's square: that is the old
   * grid again.
   */
  lemma SimulationUndone(p: Position, fr: int, fc: int, tr: int, tc: int, color: Color)
    requires CanSimulate(p, fr, fc, tr, tc, color)
    ensures var u := Place(Place(Simulate(p, fr, fc, tr, tc, color), fr, fc, At(p.grid, fr, fc)),
                           tr, tc, At(p.grid, tr, tc));
      && (!EnPassantCase(p, fr, fc, tr, tc) ==> u == p.grid)
      && (EnPassantCase(p, fr, fc, tr, tc) ==>
            && Place(u, VictimRow(color, tr), tc, At(p.grid, VictimRow(color, tr), tc)) == p.grid
            && (At(p.grid, VictimRow(color, tr), tc) == Empty ==> u == p.grid))
  {
    var u := Place(Place(Simulate(p, fr, fc, tr, tc, color), fr, fc, At(p.grid, fr, fc)),
                   tr, tc, At(p.grid, tr, tc));
    if EnPassantCase(p, fr, fc, tr, tc) {
      var v := VictimRow(color, tr);
      GridsEqual(Place(u, v, tc, At(p.grid, v, tc)), p.grid);
      if At(p.grid, v, tc) == Empty {
        GridsEqual(u, p.grid);
      }
    } else {
      GridsEqual(u, p.grid);
    }
  }

  /** wouldLeaveKingInCheck. */
  predicate LeavesKingInCheck(p: Position, fr: int, fc: int, tr: int, tc: int, color: Color)
    requires CanSimulate(p, fr, fc, tr, tc, color)
  {
    InCheck(Simulate(p, fr, fc, tr, tc, color), color)
  }

  /** isValidMove (which does not look at whose turn it is). */
  predicate ValidMove(p: Position, fr: int, fc: int, tr: int, tc: int)
    requires OnBoard(tr, tc)
  {
    && OnBoard(fr, fc) && At(p.grid, fr, fc).Occupied?
    && var piece := At(p.grid, fr, fc).piece;
    && !(At(p.grid, tr, tc).Occupied? && At(p.grid, tr, tc).piece.color == piece.color)
    && PieceMoveLegal(p, piece, fr, fc, tr, tc)
    && !LeavesKingInCheck(p, fr, fc, tr, tc, piece.color)
  }

  /** The checks movePiece makes before it changes anything. */
  predicate Accepted(p: Position, fr: int, fc: int, tr: int, tc: int)
    requires OnBoard(tr, tc)
  {
    && OnBoard(fr, fc) && At(p.grid, fr, fc).Occupied?
    && At(p.grid, fr, fc).piece.color == p.turn
    && ValidMove(p, fr, fc, tr, tc)
  }

  // ---------------------------------------------------------------------
  // Game end
  // ---------------------------------------------------------------------

  /** A valid move of a piece of colour color from (fr, fc) to (tr, tc). */
  predicate MoveOf(p: Position, color: Color, fr: int, fc: int, tr: int, tc: int)
    requires OnBoard(fr, fc) && OnBoard(tr, tc)
  {
    At(p.grid, fr, fc).Occupied? && At(p.grid, fr, fc).piece.color == color
    && ValidMove(p, fr, fc, tr, tc)
  }

  /** hasLegalMoves: some piece of colour color has some valid move. */
  predicate HasLegalMoves(p: Position, color: Color)
  {
    exists fr, fc, tr, tc | 0 <= fr < 8 && 0 <= fc < 8 && 0 <= tr < 8 && 0 <= tc < 8 ::
      MoveOf(p, color, fr, fc, tr, tc)
  }

  /** isCheckmate. */
  predicate Checkmate(p: Position, color: Color)
  {
    InCheck(p.grid, color) && !HasLegalMoves(p, color)
  }

  /** isStalemate. */
  predicate Stalemate(p: Position, color: Color)
  {
    !InCheck(p.grid, color) && !HasLegalMoves(p, color)
  }

  // ---------------------------------------------------------------------
  // Move execution (the part of movePiece after validation)
  // ---------------------------------------------------------------------

  /** movePiece's castling branch: a king moving two columns. */
  predicate CastlingCase(p: Position, fr: int, fc: int, tr: int, tc: int)
    requires OnBoard(fr, fc)
  {
    At(p.grid, fr, fc).Occupied? && At(p.grid, fr, fc).piece.kind == King && Dist(fc, tc) == 2
  }

  /** What the execution part of movePiece needs to index the board and move the rook. */
  predicate CanApply(p: Position, fr: int, fc: int, tr: int, tc: int)
  {
    && OnBoard(fr, fc) && OnBoard(tr, tc) && At(p.grid, fr, fc).Occupied?
    && (EnPassantCase(p, fr, fc, tr, tc) ==>
          OnBoard(VictimRow(At(p.grid, fr, fc).piece.color, tr), tc))
    && (CastlingCase(p, fr, fc, tr, tc) ==> At(p.grid, fr, RookHome(fc, tc)).Occupied?)
  }

  /** A valid move can be executed: the squares movePiece indexes exist and the castling rook is there. */
  lemma ValidMoveCanApply(p: Position, fr: int, fc: int, tr: int, tc: int)
    requires OnBoard(tr, tc) && ValidMove(p, fr, fc, tr, tc)
    ensures CanApply(p, fr, fc, tr, tc)
  {
    if CastlingCase(p, fr, fc, tr, tc) {
      assert !KingStep(fr, fc, tr, tc);
    }
  }

  function Moved(v: PieceVal): PieceVal
  {
    v.(hasMoved := true)
  }

  /** The grid after the en-passant victim, if any, is removed. */
  function AfterEnPassant(p: Position, fr: int, fc: int, tr: int, tc: int): Grid
    requires CanApply(p, fr, fc, tr, tc)
  {
    if EnPassantCase(p, fr, fc, tr, tc)
    then Place(p.grid, VictimRow(At(p.grid, fr, fc).piece.color, tr), tc, Empty)
    else p.grid
  }

  /** The grid after the castling rook, if any, is moved to its new column. */
  function AfterCastlingRook(p: Position, fr: int, fc: int, tr: int, tc: int): Grid
    requires CanApply(p, fr, fc, tr, tc)
  {
    var g1 := AfterEnPassant(p, fr, fc, tr, tc);
    if CastlingCase(p, fr, fc, tr, tc) then
      var rook := At(g1, fr, RookHome(fc, tc));
      if rook.Occupied? then
        Place(Place(g1, fr, RookHome(fc, tc), Empty), fr, RookTarget(fc, tc), Occupied(Moved(rook.piece)))
      else g1
    else g1
  }

  /** A pawn on its colour's last row is promoted. */
  predicate PromotionCase(p: Position, fr: int, fc: int, tr: int, tc: int)
    requires OnBoard(fr, fc)
  {
    At(p.grid, fr, fc).Occupied? && At(p.grid, fr, fc).piece.kind == Pawn
    && tr == LastRow(At(p.grid, fr, fc).piece.color)
  }

  /** A pawn moving two rows: the en-passant target is the square it skipped. */
  predicate DoubleStepCase(p: Position, fr: int, fc: int, tr: int, tc: int)
    requires OnBoard(fr, fc)
  {
    At(p.grid, fr, fc).Occupied? && At(p.grid, fr, fc).piece.kind == Pawn && Dist(fr, tr) == 2
  }

  /** The grid after the mover itself has gone from the origin to the target. */
  function AfterShift(p: Position, fr: int, fc: int, tr: int, tc: int): Grid
    requires CanApply(p, fr, fc, tr, tc)
  {
    var g2 := AfterCastlingRook(p, fr, fc, tr, tc);
    Place(Place(g2, fr, fc, Empty), tr, tc, Occupied(Moved(At(p.grid, fr, fc).piece)))
  }

  /** The grid after the move: mover on the target (or a new queen), origin emptied. */
  function AfterMove(p: Position, fr: int, fc: int, tr: int, tc: int): Grid
    requires CanApply(p, fr, fc, tr, tc)
  {
    var g3 := AfterShift(p, fr, fc, tr, tc);
    if PromotionCase(p, fr, fc, tr, tc)
    then Place(g3, tr, tc, Occupied(PieceVal(Queen, At(p.grid, fr, fc).piece.color, false)))
    else g3
  }

  /** The position after movePiece has executed a validated move. */
  function Apply(p: Position, fr: int, fc: int, tr: int, tc: int): Position
    requires CanApply(p, fr, fc, tr, tc)
  {
    var double := DoubleStepCase(p, fr, fc, tr, tc);
    Position(AfterMove(p, fr, fc, tr, tc), Opponent(p.turn),
             if double then (fr + tr) / 2 else -1,
             if double then fc else -1)
  }

  // ---------------------------------------------------------------------
  // The initial position (initializeBoard)
  // ---------------------------------------------------------------------

  /** The piece type on column c of a back rank. */
  function BackRank(c: int): PieceType
  {
    if c == 0 || c == 7 then Rook
    else if c == 1 || c == 6 then Knight
    else if c == 2 || c == 5 then Bishop
    else if c == 3 then Queen
    else King
  }

  /** The cell (r, c) of the starting layout. */
  function InitialCell(r: int, c: int): Cell
  {
    if r == 0 then Occupied(PieceVal(BackRank(c), White, false))
    else if r == 1 then Occupied(PieceVal(Pawn, White, false))
    else if r == 6 then Occupied(PieceVal(Pawn, Black, false))
    else if r == 7 then Occupied(PieceVal(BackRank(c), Black, false))
    else Empty
  }

  function InitialGrid(): (g: Grid)
    ensures forall r, c | OnBoard(r, c) :: At(g, r, c) == InitialCell(r, c)
  {
    seq(8, r => seq(8, c => InitialCell(r, c)))
  }

  /** The starting position: standard layout, White to move, no en-passant target. */
  function Initial(): Position
  {
    Position(InitialGrid(), White, -1, -1)
  }
}
