/*
 * Chess pieces: the two colours, the six piece types with their notation
 * letters and display symbols, and the mutable Piece object that the board
 * stores in its cells.
 */
module Pieces {

  /** The two sides. The engine spells them as the strings "white" and "black". */
  datatype Color = White | Black

  /** The other side (getOpponent). */
  function Opponent(c: Color): (o: Color)
    ensures o != c
  {
    if c == White then Black else White
  }

  datatype PieceType = King | Queen | Rook | Bishop | Knight | Pawn

  /** The one-letter notation of a piece type. */
  function Notation(t: PieceType): char
  {
    match t
    case King => 'K'
    case Queen => 'Q'
    case Rook => 'R'
    case Bishop => 'B'
    case Knight => 'N'
    case Pawn => 'P'
  }

  /** The display symbol of a black piece of type t (filled glyphs). */
  function BlackSymbol(t: PieceType): string
  {
    match t
    case King => "\U{265A}"
    case Queen => "\U{265B}"
    case Rook => "\U{265C}"
    case Bishop => "\U{265D}"
    case Knight => "\U{265E}"
    case Pawn => "\U{265F}"
  }

  /** The display symbol of a white piece of type t (outlined glyphs). */
  function WhiteSymbol(t: PieceType): string
  {
    match t
    case King => "\U{2654}"
    case Queen => "\U{2655}"
    case Rook => "\U{2656}"
    case Bishop => "\U{2657}"
    case Knight => "\U{2658}"
    case Pawn => "\U{2659}"
  }

  /** Type.getSymbol(color): the white symbol for white, the black one otherwise. */
  function SymbolOf(t: PieceType, c: Color): string
  {
    if c == White then WhiteSymbol(t) else BlackSymbol(t)
  }

  /** The notation letter determines the piece type, and it is one of K, Q, R, B, N, P. */
  lemma NotationIdentifiesType(s: PieceType, t: PieceType)
    ensures Notation(t) in "KQRBNP"
    ensures Notation(s) == Notation(t) <==> s == t
  {
  }

  /** A symbol is the white one exactly when the colour is white. */
  lemma SymbolIsWhiteIff(t: PieceType, c: Color)
    ensures SymbolOf(t, c) == WhiteSymbol(t) <==> c == White
    ensures SymbolOf(t, c) == BlackSymbol(t) <==> c == Black
  {
    assert WhiteSymbol(t)[0] != BlackSymbol(t)[0];
  }

  /**
   * A chess piece. Its type and colour are fixed at construction; its
   * position and the "has moved" flag are updated as the game goes on.
   */
  class Piece {
    const kind: PieceType
    const color: Color
    var row: int
    var col: int
    var hasMoved: bool

    constructor (kind: PieceType, color: Color, row: int, col: int)
      ensures this.kind == kind && this.color == color
      ensures this.row == row && this.col == col
      ensures !hasMoved
    {
      this.kind := kind;
      this.color := color;
      this.row := row;
      this.col := col;
      this.hasMoved := false;
    }

    /** Moves the piece to (row, col) and marks it as having moved. */
    method SetPosition(row: int, col: int)
      modifies this
      ensures this.row == row && this.col == col && hasMoved
    {
      this.row := row;
      this.col := col;
      this.hasMoved := true;
    }

    /** Sets the "has moved" flag and nothing else. */
    method SetHasMoved(moved: bool)
      modifies this
      ensures hasMoved == moved
      ensures row == old(row) && col == old(col)
    {
      hasMoved := moved;
    }

    /** This piece's display symbol (getSymbol). */
    function Symbol(): (s: string)
      ensures s == WhiteSymbol(kind) <==> color == White
      ensures s == BlackSymbol(kind) <==> color == Black
    {
      SymbolIsWhiteIff(kind, color);
      SymbolOf(kind, color)
    }

    /** This piece's notation letter (getNotation). */
    function NotationLetter(): (n: char)
      ensures n in "KQRBNP"
      ensures forall t :: Notation(t) == n <==> t == kind
    {
      NotationIdentifiesType(kind, kind);
      Notation(kind)
    }

    /** A new piece with the same type, colour, position and flag. */
    method Copy() returns (p: Piece)
      ensures fresh(p)
      ensures p.kind == kind && p.color == color
      ensures p.row == row && p.col == col && p.hasMoved == hasMoved
    {
      p := new Piece(kind, color, row, col);
      p.hasMoved := hasMoved;
    }
  }
}
