/** The 8x8 grid of Square objects and the piece objects they reference.
  * A position pairs the grid, whose cells hold piece references (indices into
  * the store) or null, with the store of piece objects. Square.addPiece and
  * Square.removePiece are functions from position to position here; the
  * Board class applies them in place. */
module Grid {
  import opened Wrappers
  import opened Pieces

  datatype Position = Position(cells: seq<seq<Option<nat>>>, store: seq<Piece>)

  predicate InBounds(s: Sq)
  {
    0 <= s.row < 8 && 0 <= s.col < 8
  }

  /** The distance between two rows or two columns. */
  function Abs(x: int): int
  {
    if x < 0 then -x else x
  }

  /** An 8x8 grid whose references all point into the store. */
  predicate WellFormed(pos: Position)
  {
    |pos.cells| == 8 &&
    (forall r | 0 <= r < 8 :: |pos.cells[r]| == 8) &&
    (forall r, c | 0 <= r < 8 && 0 <= c < 8 :: pos.cells[r][c].Some? ==> pos.cells[r][c].value < |pos.store|)
  }

  /** Every piece on the grid records the square it stands on (addPiece keeps
    * this by calling setPosition). In particular no piece stands on two squares. */
  predicate Consistent(pos: Position)
    requires WellFormed(pos)
  {
    forall r, c | 0 <= r < 8 && 0 <= c < 8 && pos.cells[r][c].Some? ::
      pos.store[pos.cells[r][c].value].row == r && pos.store[pos.cells[r][c].value].column == c
  }

  predicate Valid(pos: Position)
  {
    WellFormed(pos) && Consistent(pos)
  }

  /** The reference held by the square s (null outside the grid). */
  function Cell(pos: Position, s: Sq): Option<nat>
  {
    if 0 <= s.row < |pos.cells| && 0 <= s.col < |pos.cells[s.row]| then pos.cells[s.row][s.col] else None
  }

  /** The piece on the square s, if any. */
  function At(pos: Position, s: Sq): Option<Piece>
  {
    match Cell(pos, s)
    case None => None
    case Some(id) => if id < |pos.store| then Some(pos.store[id]) else None
  }

  /** Square.containsPiece */
  predicate ContainsPiece(pos: Position, s: Sq)
  {
    At(pos, s).Some?
  }

  /** Square.containsOpponentKing(p) */
  predicate ContainsOpponentKing(pos: Position, s: Sq, p: Piece)
  {
    At(pos, s).Some? && At(pos, s).value.kind == King && !IsSameColor(At(pos, s).value, p)
  }

  /** Square.containsOwnKing(p) */
  predicate ContainsOwnKing(pos: Position, s: Sq, p: Piece)
  {
    At(pos, s).Some? && At(pos, s).value.kind == King && IsSameColor(At(pos, s).value, p)
  }

  /** A square a piece may move to: on the grid, and empty or held by the
    * other colour. */
  predicate OpenTo(pos: Position, t: Sq, p: Piece)
  {
    InBounds(t) && (!ContainsPiece(pos, t) || !IsSameColor(At(pos, t).value, p))
  }

  /** Square.equals: same row and same column. */
  predicate SquareEquals(a: Sq, b: Sq)
  {
    a.row == b.row && a.col == b.col
  }

  /** The k-th square in the row-major order of the board scans. */
  function SquareAt(k: int): Sq
  {
    Sq(k / 8, k % 8)
  }

  lemma SquareAtIndex(row: int, col: int)
    requires 0 <= row < 8 && 0 <= col < 8
    ensures SquareAt(8 * row + col) == Sq(row, col)
  {
  }

  /** The row-major index of the k-th square is k. */
  lemma SquareAtInverse(k: int)
    requires 0 <= k < 64
    ensures InBounds(SquareAt(k)) && 8 * SquareAt(k).row + SquareAt(k).col == k
  {
  }

  /** The square (r, c) comes at or after (row, col) in the row-major order
    * of the board scans; column 8 stands for the end of a row. */
  predicate NotBefore(r: int, c: int, row: int, col: int)
  {
    r > row || (r == row && c >= col)
  }

  /** The square of a piece, as recorded in the piece. */
  function SquareOf(p: Piece): Sq
  {
    Sq(p.row, p.column)
  }

  function SetCell(pos: Position, s: Sq, x: Option<nat>): (q: Position)
    requires WellFormed(pos) && InBounds(s)
    requires x.Some? ==> x.value < |pos.store|
    ensures WellFormed(q) && q.store == pos.store
    ensures Cell(q, s) == x
    ensures forall t | t != s :: Cell(q, t) == Cell(pos, t)
  {
    pos.(cells := pos.cells[s.row := pos.cells[s.row][s.col := x]])
  }

  function SetPiece(pos: Position, id: nat, p: Piece): (q: Position)
    requires WellFormed(pos) && id < |pos.store|
    ensures WellFormed(q) && q.cells == pos.cells && |q.store| == |pos.store|
    ensures q.store[id] == p
    ensures forall j | 0 <= j < |pos.store| && j != id :: q.store[j] == pos.store[j]
  {
    pos.(store := pos.store[id := p])
  }

  /** Square.addPiece(x, lookAhead): an empty square takes x; an occupied one
    * takes x only when x has the other colour, and then hands back the piece
    * it held. A piece that is placed gets the square's row and column through
    * setPosition. x may be null only on an occupied square, where it is refused. */
  function AddPiece(pos: Position, s: Sq, x: Option<nat>, lookAhead: bool): (r: (Position, Option<nat>))
    requires WellFormed(pos) && InBounds(s)
    requires x.Some? ==> x.value < |pos.store|
    requires x.None? ==> Cell(pos, s).Some?
    ensures WellFormed(r.0) && |r.0.store| == |pos.store|
    ensures forall t | t != s :: Cell(r.0, t) == Cell(pos, t)
    ensures forall j | 0 <= j < |pos.store| && Some(j) != x :: r.0.store[j] == pos.store[j]
  {
    match Cell(pos, s)
    case None =>
      (SetCell(SetPiece(pos, x.value, SetPosition(pos.store[x.value], s.row, s.col, lookAhead)), s, x), None)
    case Some(occupant) =>
      if x.Some? && !IsSameColor(pos.store[occupant], pos.store[x.value]) then
        (SetCell(SetPiece(pos, x.value, SetPosition(pos.store[x.value], s.row, s.col, lookAhead)), s, x),
         Some(occupant))
      else
        (pos, None)
  }

  /** Square.removePiece: empties the square and hands back what it held. */
  function RemovePiece(pos: Position, s: Sq): (r: (Position, Option<nat>))
    requires WellFormed(pos) && InBounds(s)
    ensures WellFormed(r.0) && r.0.store == pos.store
    ensures r.1 == Cell(pos, s) && Cell(r.0, s) == None
    ensures forall t | t != s :: Cell(r.0, t) == Cell(pos, t)
  {
    (SetCell(pos, s, None), Cell(pos, s))
  }

  /** The three outcomes of addPiece: placement on an empty square, capture of
    * an opposite-coloured occupant, refusal. */
  lemma AddPieceOutcome(pos: Position, s: Sq, x: Option<nat>, lookAhead: bool)
    requires WellFormed(pos) && InBounds(s)
    requires x.Some? ==> x.value < |pos.store|
    requires x.None? ==> Cell(pos, s).Some?
    ensures var (q, removed) := AddPiece(pos, s, x, lookAhead);
      if Cell(pos, s).None? then
        removed.None? && Cell(q, s) == x &&
        q.store[x.value] == SetPosition(pos.store[x.value], s.row, s.col, lookAhead) &&
        At(q, s).value.row == s.row && At(q, s).value.column == s.col
      else if x.Some? && !IsSameColor(At(pos, s).value, pos.store[x.value]) then
        removed == Cell(pos, s) && Cell(q, s) == x &&
        At(q, s).value.row == s.row && At(q, s).value.column == s.col
      else
        removed.None? && q == pos
  {
  }

  /** What removePiece hands back can be put back with addPiece, which
    * restores the grid. */
  lemma RemoveThenAdd(pos: Position, s: Sq, lookAhead: bool)
    requires WellFormed(pos) && InBounds(s) && Cell(pos, s).Some?
    ensures var (q, removed) := RemovePiece(pos, s);
      removed == Cell(pos, s) && AddPiece(q, s, removed, lookAhead).0.cells == pos.cells &&
      AddPiece(q, s, removed, lookAhead).1.None?
  {
    var (q, removed) := RemovePiece(pos, s);
    var r := AddPiece(q, s, removed, lookAhead).0;
    assert forall row | 0 <= row < 8 :: r.cells[row] == pos.cells[row] by {
      forall row | 0 <= row < 8 ensures r.cells[row] == pos.cells[row] {
        assert forall col | 0 <= col < 8 :: r.cells[row][col] == Cell(r, Sq(row, col)) == Cell(pos, Sq(row, col));
      }
    }
  }

  /** containsOpponentKing and containsOwnKing never hold together, and on a
    * square holding a King exactly one of them holds. */
  lemma KingQueriesExclusive(pos: Position, s: Sq, p: Piece)
    ensures !(ContainsOpponentKing(pos, s, p) && ContainsOwnKing(pos, s, p))
    ensures At(pos, s).Some? && At(pos, s).value.kind == King ==>
              ContainsOpponentKing(pos, s, p) || ContainsOwnKing(pos, s, p)
  {
  }

  /** A piece with the two flags that setPosition may rewrite on a look-ahead
    * (a pawn's hasMoved and enPassantPossible) cleared; every other piece is
    * left as it is. */
  function Core(p: Piece): (q: Piece)
    ensures q.kind == p.kind && q.color == p.color && q.row == p.row && q.column == p.column
    ensures q.inCheck == p.inCheck && q.threatSquares == p.threatSquares
    ensures p.kind != Pawn ==> q == p
  {
    if p.kind == Pawn then p.(hasMoved := false, enPassantPossible := false) else p
  }

  /** Two positions with the same grid whose pieces agree on everything but
    * pawn flags: what the look-ahead probes are proved to restore. */
  predicate Similar(a: Position, b: Position)
  {
    a.cells == b.cells && |a.store| == |b.store| &&
    forall j | 0 <= j < |a.store| :: Core(a.store[j]) == Core(b.store[j])
  }

  /** A look-ahead setPosition changes nothing but the coordinates and the
    * pawn flags. */
  lemma CoreSetPosition(p: Piece, row: int, column: int)
    ensures Core(SetPosition(p, row, column, true)) == Core(p.(row := row, column := column))
  {
  }

  /** Similar positions agree on occupancy and on the kind, colour and
    * square of every occupant. */
  lemma SimilarAt(a: Position, b: Position, s: Sq)
    requires Similar(a, b)
    ensures At(a, s).Some? <==> At(b, s).Some?
    ensures At(a, s).Some? ==> Core(At(a, s).value) == Core(At(b, s).value)
  {
  }

  lemma SimilarTransitive(a: Position, b: Position, c: Position)
    requires Similar(a, b) && Similar(b, c)
    ensures Similar(a, c)
  {
  }

  lemma SimilarConsistent(a: Position, b: Position)
    requires WellFormed(a) && Similar(a, b) && Consistent(a)
    ensures WellFormed(b) && Consistent(b)
  {
    forall r, c | 0 <= r < 8 && 0 <= c < 8 && b.cells[r][c].Some?
      ensures b.store[b.cells[r][c].value].row == r && b.store[b.cells[r][c].value].column == c
    {
      assert Core(a.store[a.cells[r][c].value]) == Core(b.store[b.cells[r][c].value]);
    }
  }

  /** Two positions with the same grid whose pieces agree on kind, colour
    * and recorded square; King threat lists and pawn flags may differ. This
    * is what a step of the search is proved to restore. */
  predicate SameLayout(a: Position, b: Position)
  {
    a.cells == b.cells && |a.store| == |b.store| &&
    forall j | 0 <= j < |a.store| ::
      a.store[j].kind == b.store[j].kind && a.store[j].color == b.store[j].color &&
      a.store[j].row == b.store[j].row && a.store[j].column == b.store[j].column
  }

  lemma SimilarLayout(a: Position, b: Position)
    requires Similar(a, b)
    ensures SameLayout(a, b)
  {
    forall j | 0 <= j < |a.store|
      ensures a.store[j].kind == b.store[j].kind && a.store[j].color == b.store[j].color &&
              a.store[j].row == b.store[j].row && a.store[j].column == b.store[j].column
    {
      assert Core(a.store[j]) == Core(b.store[j]);
    }
  }

  lemma LayoutTransitive(a: Position, b: Position, c: Position)
    requires SameLayout(a, b) && SameLayout(b, c)
    ensures SameLayout(a, c)
  {
  }

  /** Whether a square is open to a piece depends only on the layout. */
  lemma OpenToLayout(a: Position, b: Position, t: Sq, p: Piece)
    requires SameLayout(a, b)
    ensures OpenTo(a, t, p) == OpenTo(b, t, p)
  {
    assert Cell(a, t) == Cell(b, t);
  }

  lemma LayoutConsistent(a: Position, b: Position)
    requires Valid(a) && SameLayout(a, b)
    ensures Valid(b)
  {
    forall r, c | 0 <= r < 8 && 0 <= c < 8 && b.cells[r][c].Some?
      ensures b.store[b.cells[r][c].value].row == r && b.store[b.cells[r][c].value].column == c
    {
      var j := b.cells[r][c].value;
      assert a.store[j].row == b.store[j].row && a.store[j].column == b.store[j].column;
    }
  }

  /** The references held by a grid. */
  function Occupants(cells: seq<seq<Option<nat>>>): set<nat>
    requires |cells| == 8 && forall r | 0 <= r < 8 :: |cells[r]| == 8
  {
    set r, c | 0 <= r < 8 && 0 <= c < 8 && cells[r][c].Some? :: cells[r][c].value
  }
}
