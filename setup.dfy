/** Board.newGame: the starting position. newGame creates 32 new piece
  * objects, in the order it adds them (Black's back rank, Black's pawns,
  * White's pawns, White's back rank); they are appended to the store after
  * the objects of earlier games, which stay reachable from old references
  * but stand on no square. */
module Setup {
  import opened Wrappers
  import opened Pieces
  import opened Grid
  import opened Evaluation

  const BackRank: seq<Kind> := [Rook, Knight, Bishop, Queen, King, Bishop, Knight, Rook]

  /** The reference newGame puts on (row, col), the first new object being
    * the base-th of the store. */
  function StartId(base: nat, row: int, col: int): Option<nat>
  {
    if 0 <= col < 8 then
      if row == 0 then Some(base + col)
      else if row == 1 then Some(base + 8 + col)
      else if row == 6 then Some(base + 16 + col)
      else if row == 7 then Some(base + 24 + col)
      else None
    else None
  }

  /** The i-th piece newGame creates. */
  function StartPiece(i: int): Piece
    requires 0 <= i < 32
  {
    if i < 8 then NewPiece(BackRank[i], 0, i, Black)
    else if i < 16 then NewPiece(Pawn, 1, i - 8, Black)
    else if i < 24 then NewPiece(Pawn, 6, i - 16, White)
    else NewPiece(BackRank[i - 24], 7, i - 24, White)
  }

  /** The board newGame sets up, given the objects created before it. */
  function StartPosition(store: seq<Piece>): (pos: Position)
    ensures Valid(pos) && |pos.store| == |store| + 32 && pos.store[..|store|] == store
  {
    var base := |store|;
    var pos := Position(seq(8, r => seq(8, c => StartId(base, r, c))),
                        store + seq(32, i requires 0 <= i < 32 => StartPiece(i)));
    assert forall r, c | 0 <= r < 8 && 0 <= c < 8 :: pos.cells[r][c] == StartId(base, r, c);
    assert forall i | 0 <= i < 32 :: pos.store[base + i] == StartPiece(i);
    pos
  }

  /** The starting layout square by square: Black's pieces on rows 0 and 1,
    * White's on rows 6 and 7, the back ranks in the order Rook, Knight,
    * Bishop, Queen, King, Bishop, Knight, Rook, pawns in front, every piece
    * unmoved and uncaptured at its original square, and rows 2 to 5 empty. */
  lemma StartLayout(store: seq<Piece>, r: int, c: int)
    requires 0 <= r < 8 && 0 <= c < 8
    ensures var p := At(StartPosition(store), Sq(r, c));
      (p.Some? <==> r in {0, 1, 6, 7}) &&
      (p.Some? ==> p.value.color == (if r <= 1 then Black else White) &&
                   p.value.kind == (if r == 0 || r == 7 then BackRank[c] else Pawn) &&
                   p.value.row == p.value.originalRow == r && p.value.column == p.value.originalColumn == c &&
                   !p.value.hasMoved && !p.value.isCaptured && !p.value.enPassantPossible && !p.value.inCheck)
  {
    var pos := StartPosition(store);
    assert Cell(pos, Sq(r, c)) == StartId(|store|, r, c);
  }

  /** The two sides start as mirror images: the pieces on (r, c) and
    * (7 - r, c) are of the same kind and of opposite colours. */
  lemma StartMirror(store: seq<Piece>, r: int, c: int)
    requires 0 <= r < 8 && 0 <= c < 8
    ensures var p, q := At(StartPosition(store), Sq(r, c)), At(StartPosition(store), Sq(7 - r, c));
      p.Some? == q.Some? && (p.Some? ==> p.value.kind == q.value.kind && p.value.color != q.value.color)
  {
    StartLayout(store, r, c);
    StartLayout(store, 7 - r, c);
  }

  /** The objects of earlier games stand on no square of the new board. */
  lemma StartFresh(store: seq<Piece>, r: int, c: int)
    requires 0 <= r < 8 && 0 <= c < 8
    ensures var x := Cell(StartPosition(store), Sq(r, c)); x.Some? ==> x.value >= |store|
  {
    assert Cell(StartPosition(store), Sq(r, c)) == StartId(|store|, r, c);
  }
}
