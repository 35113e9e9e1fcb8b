/** Chess pieces as values: the fields of Piece, Pawn and King objects and the
  * pure parts of Piece (colour test, equality, the position/flag update of
  * setPosition, Rook.castle). */
module Pieces {

  /** The six concrete subclasses of Piece. */
  datatype Kind = Pawn | Knight | Bishop | Rook | Queen | King

  /** A Square object never moves, so its coordinates identify it (Square.equals
    * compares exactly row and column). */
  datatype Sq = Sq(row: int, col: int)

  const White := 0
  const Black := 1

  /** The state of one piece object. onOppositeSide and enPassantPossible are
    * only meaningful for a Pawn, inCheck and threatSquares only for a King. */
  datatype Piece = Piece(
    kind: Kind,
    color: int,
    row: int,
    column: int,
    originalRow: int,
    originalColumn: int,
    isCaptured: bool,
    hasMoved: bool,
    onOppositeSide: bool,
    enPassantPossible: bool,
    inCheck: bool,
    threatSquares: seq<Sq>)

  /** The constructor of a piece of the given kind at (row, column). */
  function NewPiece(kind: Kind, row: int, column: int, color: int): (p: Piece)
    ensures p.kind == kind && p.color == color
    ensures p.row == p.originalRow == row && p.column == p.originalColumn == column
    ensures !p.hasMoved && !p.isCaptured
    ensures p.onOppositeSide <==> kind == Pawn && row == 1
    ensures !p.enPassantPossible && !p.inCheck && p.threatSquares == []
  {
    Piece(kind, color, row, column, row, column, false, false,
          kind == Pawn && row == 1, false, false, [])
  }

  predicate IsSameColor(p: Piece, q: Piece)
  {
    p.color == q.color
  }

  /** Piece.equals: same row, same column and same captured flag; kind,
    * colour and identity are not compared. */
  predicate PieceEquals(p: Piece, q: Piece)
  {
    p.row == q.row && p.column == q.column && p.isCaptured == q.isCaptured
  }

  /** The start rank of a pawn: row 1 for one moving down the board, row 6 for
    * one moving up. */
  function StartRank(p: Piece): int
  {
    if p.onOppositeSide then 1 else 6
  }

  /** The rank an unmoved pawn reaches with its double step. */
  function DoubleStepRank(p: Piece): int
  {
    if p.onOppositeSide then 3 else 4
  }

  /** Piece.setPosition(row, column, lookAhead): the flags first (the pawn test
    * reads the column held before the call), then the coordinates. */
  function SetPosition(p: Piece, row: int, column: int, lookAhead: bool): (q: Piece)
    ensures q.row == row && q.column == column
    ensures q.kind == p.kind && q.color == p.color && q.isCaptured == p.isCaptured
    ensures q.originalRow == p.originalRow && q.originalColumn == p.originalColumn
    ensures q.onOppositeSide == p.onOppositeSide
    ensures q.inCheck == p.inCheck && q.threatSquares == p.threatSquares
  {
    if p.kind == Pawn then
      if !p.hasMoved then
        p.(enPassantPossible := row == DoubleStepRank(p),
           hasMoved := row != p.originalRow || p.column != p.originalColumn,
           row := row, column := column)
      else if row == StartRank(p) then
        p.(hasMoved := false, row := row, column := column)
      else
        p.(row := row, column := column)
    else
      p.(hasMoved := p.hasMoved || (!lookAhead && (row != p.originalRow || column != p.originalColumn)),
         row := row, column := column)
  }

  /** Rook.castle: a rook castling from column 7 ends on column 5, one castling
    * from column 0 ends on column 3; other columns leave it where it is. */
  function Castle(p: Piece, row: int, col: int): (q: Piece)
  {
    if col == 7 then SetPosition(p, row, col - 2, false)
    else if col == 0 then SetPosition(p, row, 3, false)
    else p
  }

  /** A non-pawn is marked moved exactly by a committed (not look-ahead) move
    * off its original square, and the mark is never cleared. */
  lemma NonPawnHasMoved(p: Piece, row: int, column: int, lookAhead: bool)
    requires p.kind != Pawn
    ensures SetPosition(p, row, column, lookAhead).hasMoved <==>
              p.hasMoved || (!lookAhead && (row != p.originalRow || column != p.originalColumn))
    ensures SetPosition(p, row, column, lookAhead).enPassantPossible == p.enPassantPossible
  {
  }

  /** An unmoved pawn: en passant becomes possible exactly on its double-step
    * rank, and it becomes moved when the new row or the column held before the
    * call differs from the original one, whatever lookAhead says. */
  lemma UnmovedPawnFlags(p: Piece, row: int, column: int, lookAhead: bool)
    requires p.kind == Pawn && !p.hasMoved
    ensures SetPosition(p, row, column, lookAhead).enPassantPossible <==>
              (p.onOppositeSide && row == 3) || (!p.onOppositeSide && row == 4)
    ensures SetPosition(p, row, column, lookAhead).hasMoved <==>
              row != p.originalRow || p.column != p.originalColumn
  {
  }

  /** A moved pawn put back on its start rank is unmoved again; its en passant
    * flag is untouched. Elsewhere a moved pawn keeps both flags. */
  lemma MovedPawnFlags(p: Piece, row: int, column: int, lookAhead: bool)
    requires p.kind == Pawn && p.hasMoved
    ensures SetPosition(p, row, column, lookAhead).hasMoved <==> row != StartRank(p)
    ensures SetPosition(p, row, column, lookAhead).enPassantPossible == p.enPassantPossible
  {
  }

  /** The same-column test in setPosition reads the old column: an unmoved pawn
    * that sits on its original square stays unmoved when moved sideways along
    * its original row, yet is moved when it starts off its original column. */
  lemma PawnOldColumnQuirk(p: Piece)
    requires p.kind == Pawn && !p.hasMoved
    requires p.row == p.originalRow && p.column == p.originalColumn
    ensures !SetPosition(p, p.originalRow, p.originalColumn + 1, false).hasMoved
    ensures SetPosition(p.(column := p.originalColumn + 1), p.originalRow, p.originalColumn, false).hasMoved
  {
  }

  /** Castling moves the rook along its row to column 5 from column 7 and to
    * column 3 from column 0, and marks it moved when that is off its original
    * square; any other column leaves it unchanged. */
  lemma CastleTarget(p: Piece, row: int, col: int)
    requires p.kind == Rook
    ensures col == 7 ==> Castle(p, row, col).row == row && Castle(p, row, col).column == 5
    ensures col == 0 ==> Castle(p, row, col).row == row && Castle(p, row, col).column == 3
    ensures col != 7 && col != 0 ==> Castle(p, row, col) == p
    ensures (col == 7 || col == 0) &&
            (row, Castle(p, row, col).column) != (p.originalRow, p.originalColumn) ==>
              Castle(p, row, col).hasMoved
  {
  }
}
