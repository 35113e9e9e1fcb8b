/** The positional score shared by every getValue: the piece's base value plus
  * its kind's table entry, read from White's side of the board for colour 0
  * and mirrored top to bottom for colour 1. */
module Scores {
  import opened Pieces

  predicate IsTable(table: seq<seq<int>>)
  {
    |table| == 8 && forall r | 0 <= r < 8 :: |table[r]| == 8
  }

  predicate OnGrid(p: Piece)
  {
    0 <= p.row < 8 && 0 <= p.column < 8
  }

  function Score(base: int, table: seq<seq<int>>, p: Piece): int
    requires IsTable(table) && OnGrid(p)
  {
    if p.color == White then base + table[p.row][p.column] else base + table[7 - p.row][p.column]
  }

}
