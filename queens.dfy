/** Queen: its score table, getValue and generateMoves. */
module Queens {
  import opened Wrappers
  import opened Pieces
  import opened Grid
  import opened Scores
  import opened Rays

  const QueenBase := 1000

  const QueenTable: seq<seq<int>> := [
    [-40, -20, -20, -20, -20, -20, -20, -40],
    [50, 50, 50, 50, 50, 50, 50, 50],
    [0, 0, 0, 0, 0, 0, 0, 0],
    [50, 50, 50, 50, 50, 50, 50, 50],
    [50, 50, 50, 50, 50, 50, 50, 50],
    [0, 0, 0, 0, 0, 0, 0, 0],
    [0, 0, 0, 0, 0, 0, 0, 0],
    [-40, 0, 0, 0, 0, 0, 0, -40]]

  /** Queen.getValue */
  function QueenValue(p: Piece): (v: int)
    requires OnGrid(p)
    ensures p.color == White ==> v == QueenBase + QueenTable[p.row][p.column]
    ensures p.color != White ==> v == QueenBase + QueenTable[7 - p.row][p.column]
  {
    Score(QueenBase, QueenTable, p)
  }

  /** The eight rays in the order generateMoves casts them; unlike the rook,
    * no look at the own King. */
  function QueenMoves(pos: Position, p: Piece): seq<Sq>
  {
    Ray(pos, p, -1, 0) + Ray(pos, p, 1, 0) + Ray(pos, p, 0, -1) + Ray(pos, p, 0, 1) +
    Ray(pos, p, -1, 1) + Ray(pos, p, -1, -1) + Ray(pos, p, 1, -1) + Ray(pos, p, 1, 1)
  }

  /** Queen.generateMoves */
  method GenerateQueenMoves(pos: Position, p: Piece) returns (moves: seq<Sq>)
    ensures moves == QueenMoves(pos, p)
  {
    var up := CastRay(pos, p, -1, 0);
    var down := CastRay(pos, p, 1, 0);
    var left := CastRay(pos, p, 0, -1);
    var right := CastRay(pos, p, 0, 1);
    var upRight := CastRay(pos, p, -1, 1);
    var upLeft := CastRay(pos, p, -1, -1);
    var downLeft := CastRay(pos, p, 1, -1);
    var downRight := CastRay(pos, p, 1, 1);
    moves := up + down + left + right + upRight + upLeft + downLeft + downRight;
  }

  /** Every returned square shares the queen's row, column or a diagonal, is
    * not its own square, is on the board, and is empty or held by the other
    * colour. */
  lemma QueenMovesGeometry(pos: Position, p: Piece, t: Sq)
    requires t in QueenMoves(pos, p)
    ensures OpenTo(pos, t, p) && t != SquareOf(p)
    ensures t.row == p.row || t.col == p.column || Abs(t.row - p.row) == Abs(t.col - p.column)
  {
    var dr, dc :| (dr, dc) in [(-1, 0), (1, 0), (0, -1), (0, 1), (-1, 1), (-1, -1), (1, -1), (1, 1)] &&
      t in Ray(pos, p, dr, dc);
    RayGeometry(pos, p, dr, dc, t);
  }
}
