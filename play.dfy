/** The steps Board applies around a move: checking the opponent Kings the
  * moved piece now reaches, unchecking the first two Kings of the board,
  * clearing en passant flags, marking captured pieces, relocating the
  * castling Rook and promoting a Pawn. Each is a function on positions; the
  * Board class applies them in place. */
module Play {
  import opened Wrappers
  import opened Pieces
  import opened Grid
  import opened Lists
  import opened Probes
  import opened Kings

  /** The square u holds the King `j` of the other colour than the mover. */
  predicate KingHit(pos: Position, u: Sq, mover: Piece, j: nat)
  {
    ContainsOpponentKing(pos, u, mover) && Cell(pos, u) == Some(j)
  }

  /** k2 is k after one or more calls of check with the square threat. */
  predicate CheckedBy(k: Piece, k2: Piece, threat: Sq)
  {
    k2.inCheck && |k2.threatSquares| > |k.threatSquares| &&
    k2.threatSquares[..|k.threatSquares|] == k.threatSquares &&
    (forall i | |k.threatSquares| <= i < |k2.threatSquares| :: k2.threatSquares[i] == threat) &&
    k2.(inCheck := k.inCheck, threatSquares := k.threatSquares) == k
  }

  /** The loop that follows a move or an unmake: every square among the
    * given moves that holds a King of the other colour than the mover gets
    * that King checked with the square threat. Hands back the last King
    * checked (kingChecked in the search). */
  function CheckAlong(pos: Position, ms: seq<Sq>, mover: Piece, threat: Sq): (r: (Position, Option<nat>))
    requires Valid(pos)
    ensures Valid(r.0) && SameLayout(pos, r.0)
    ensures r.1.Some? ==> r.1.value < |pos.store| && pos.store[r.1.value].kind == King &&
                          pos.store[r.1.value].color != mover.color
    decreases |ms|
  {
    if ms == [] then (pos, None)
    else
      var (q, k) :=
        if ContainsOpponentKing(pos, ms[0], mover) then
          var id := Cell(pos, ms[0]).value;
          (SetPiece(pos, id, Check(pos.store[id], threat)), Some(id))
        else (pos, None);
      LayoutConsistent(pos, q);
      var (q2, k2) := CheckAlong(q, ms[1..], mover, threat);
      LayoutTransitive(pos, q, q2);
      (q2, if k2.Some? then k2 else k)
  }

  /** Positions with the same layout agree on which squares hold which
    * opponent King. */
  lemma KingHitLayout(a: Position, b: Position, mover: Piece, j: nat)
    requires WellFormed(a) && SameLayout(a, b)
    ensures forall u :: KingHit(a, u, mover, j) <==> KingHit(b, u, mover, j)
  {
    forall u ensures KingHit(a, u, mover, j) <==> KingHit(b, u, mover, j) {
      assert Cell(a, u) == Cell(b, u);
    }
  }

  lemma CheckedByTransitive(k: Piece, k2: Piece, k3: Piece, threat: Sq)
    requires CheckedBy(k, k2, threat) && CheckedBy(k2, k3, threat)
    ensures CheckedBy(k, k3, threat)
  {
    assert k3.threatSquares[..|k.threatSquares|] == k2.threatSquares[..|k2.threatSquares|][..|k.threatSquares|];
  }

  /** What the check loop does to each piece: a King of the other colour
    * standing on one of the squares is put in check with the threat square
    * appended (once per square), and nothing else about it changes; every
    * other piece is left as it was. */
  lemma {:induction false} CheckAlongOutcome(pos: Position, ms: seq<Sq>, mover: Piece, threat: Sq, j: nat)
    requires Valid(pos) && j < |pos.store|
    ensures var k, k2 := pos.store[j], CheckAlong(pos, ms, mover, threat).0.store[j];
      ((exists u | u in ms :: KingHit(pos, u, mover, j)) ==> CheckedBy(k, k2, threat)) &&
      (!(exists u | u in ms :: KingHit(pos, u, mover, j)) ==> k2 == k)
    decreases |ms|
  {
    if ms != [] {
      var (q, k) :=
        if ContainsOpponentKing(pos, ms[0], mover) then
          var id := Cell(pos, ms[0]).value;
          (SetPiece(pos, id, Check(pos.store[id], threat)), Some(id))
        else (pos, None);
      LayoutConsistent(pos, q);
      KingHitLayout(pos, q, mover, j);
      CheckAlongOutcome(q, ms[1..], mover, threat, j);
      var k0, k1, k2 := pos.store[j], q.store[j], CheckAlong(q, ms[1..], mover, threat).0.store[j];
      assert CheckAlong(pos, ms, mover, threat).0.store[j] == k2;
      assert (exists u | u in ms :: KingHit(pos, u, mover, j)) <==>
             KingHit(pos, ms[0], mover, j) || (exists u | u in ms[1..] :: KingHit(q, u, mover, j)) by {
        assert forall u :: u in ms <==> u == ms[0] || u in ms[1..];
      }
      if KingHit(pos, ms[0], mover, j) {
        assert k1 == Check(k0, threat);
        assert CheckedBy(k0, k1, threat);
        if exists u | u in ms[1..] :: KingHit(q, u, mover, j) {
          CheckedByTransitive(k0, k1, k2, threat);
        }
      } else {
        assert k1 == k0;
      }
    }
  }

  /** The loop that unchecks the first two Kings of the board in row-major
    * order from (row, col) on, count being the number already unchecked. */
  function UncheckKingsFrom(pos: Position, row: int, col: int, count: int, twoPlayer: bool): (r: Position)
    requires Valid(pos) && 0 <= row <= 8 && 0 <= col <= 8
    ensures Valid(r)
    decreases 8 - row, 8 - col, pos
  {
    if row == 8 || count >= 2 then pos
    else if col == 8 then UncheckKingsFrom(pos, row + 1, 0, count, twoPlayer)
    else
      var s := Sq(row, col);
      if ContainsPiece(pos, s) && At(pos, s).value.kind == King then
        UncheckKingsFrom(Uncheck(pos, Cell(pos, s).value, twoPlayer), row, col + 1, count + 1, twoPlayer)
      else UncheckKingsFrom(pos, row, col + 1, count, twoPlayer)
  }

  /** The uncheck loop keeps the grid and the kind, colour and square of
    * every piece. */
  lemma {:induction false} UncheckKingsFromLayout(pos: Position, row: int, col: int, count: int, twoPlayer: bool)
    requires Valid(pos) && 0 <= row <= 8 && 0 <= col <= 8
    ensures SameLayout(pos, UncheckKingsFrom(pos, row, col, count, twoPlayer))
    decreases 8 - row, 8 - col
  {
    if row == 8 || count >= 2 {
    } else if col == 8 {
      UncheckKingsFromLayout(pos, row + 1, 0, count, twoPlayer);
    } else {
      var s := Sq(row, col);
      if ContainsPiece(pos, s) && At(pos, s).value.kind == King {
        var id := Cell(pos, s).value;
        UncheckLayout(pos, id, twoPlayer);
        var q := Uncheck(pos, id, twoPlayer);
        UncheckKingsFromLayout(q, row, col + 1, count + 1, twoPlayer);
        LayoutTransitive(pos, q, UncheckKingsFrom(q, row, col + 1, count + 1, twoPlayer));
      } else {
        UncheckKingsFromLayout(pos, row, col + 1, count, twoPlayer);
      }
    }
  }

  function UncheckKings(pos: Position, twoPlayer: bool): (r: Position)
    requires Valid(pos)
    ensures Valid(r) && SameLayout(pos, r)
  {
    UncheckKingsFromLayout(pos, 0, 0, 0, twoPlayer);
    UncheckKingsFrom(pos, 0, 0, 0, twoPlayer)
  }

  /** No piece is in check. */
  predicate NoneInCheck(pos: Position)
  {
    forall j | 0 <= j < |pos.store| :: !pos.store[j].inCheck
  }

  /** When no King is in check, unchecking the Kings changes nothing. */
  lemma {:induction false} UncheckKingsQuiet(pos: Position, row: int, col: int, count: int, twoPlayer: bool)
    requires Valid(pos) && 0 <= row <= 8 && 0 <= col <= 8 && NoneInCheck(pos)
    ensures UncheckKingsFrom(pos, row, col, count, twoPlayer) == pos
    decreases 8 - row, 8 - col
  {
    if row == 8 || count >= 2 {
    } else if col == 8 {
      UncheckKingsQuiet(pos, row + 1, 0, count, twoPlayer);
    } else {
      var s := Sq(row, col);
      if ContainsPiece(pos, s) && At(pos, s).value.kind == King {
        assert Uncheck(pos, Cell(pos, s).value, twoPlayer) == pos;
        UncheckKingsQuiet(pos, row, col + 1, count + 1, twoPlayer);
      } else {
        UncheckKingsQuiet(pos, row, col + 1, count, twoPlayer);
      }
    }
  }

  /** generateMoves of the piece on s followed by the check loop over its
    * moves (nothing when s is empty). */
  function CheckFrom(pos: Position, s: Sq, mover: Piece, threat: Sq, twoPlayer: bool): (r: (Position, Option<nat>))
    requires Valid(pos)
    ensures Valid(r.0) && SameLayout(pos, r.0)
    ensures r.1.Some? ==> r.1.value < |pos.store| && pos.store[r.1.value].kind == King &&
                          pos.store[r.1.value].color != mover.color
  {
    if Cell(pos, s).None? then (pos, None)
    else
      PlacedFromCell(pos, s);
      var (ms, q) := MovesOf(pos, Cell(pos, s).value, twoPlayer);
      SimilarLayout(pos, q);
      var r := CheckAlong(q, ms, mover, threat);
      LayoutTransitive(pos, q, r.0);
      r
  }

  /** The pawn on s loses its en passant flag unless it equals (Piece.equals)
    * the piece last moved. */
  predicate ClearsAt(pos: Position, s: Sq, last: Piece)
  {
    ContainsPiece(pos, s) && At(pos, s).value.kind == Pawn && !PieceEquals(At(pos, s).value, last)
  }

  /** One turn of the clearing loop, on the square s. */
  function ClearSquare(pos: Position, last: Piece, s: Sq): (q: Position)
    requires Valid(pos)
    ensures WellFormed(q) && Similar(pos, q)
  {
    if ClearsAt(pos, s, last) then SetPiece(pos, Cell(pos, s).value, At(pos, s).value.(enPassantPossible := false)) else pos
  }

  /** The loop of the player's move that clears the en passant flag of every
    * Pawn on the board but the piece last moved, from (row, col) on. */
  function ClearEnPassantFrom(pos: Position, last: Piece, row: int, col: int): (r: Position)
    requires Valid(pos) && 0 <= row <= 8 && 0 <= col <= 8
    ensures Valid(r) && Similar(pos, r)
    decreases 8 - row, 8 - col, pos
  {
    if row == 8 then pos
    else if col == 8 then ClearEnPassantFrom(pos, last, row + 1, 0)
    else
      var q := ClearSquare(pos, last, Sq(row, col));
      SimilarConsistent(pos, q);
      var r := ClearEnPassantFrom(q, last, row, col + 1);
      SimilarTransitive(pos, q, r);
      r
  }

  /** The piece `j` is a Pawn on the grid, on a square from (row, col) on,
    * that the loop clears. */
  predicate Cleared(pos: Position, last: Piece, row: int, col: int, j: nat)
  {
    j < |pos.store| && InBounds(SquareOf(pos.store[j])) && Cell(pos, SquareOf(pos.store[j])) == Some(j) &&
    NotBefore(pos.store[j].row, pos.store[j].column, row, col) &&
    pos.store[j].kind == Pawn && !PieceEquals(pos.store[j], last)
  }

  /** What the clearing loop does to each piece: a Pawn on the grid that is
    * not equal to the piece last moved loses its en passant flag, and every
    * other piece is left exactly as it was. */
  lemma {:induction false} ClearEnPassantOutcome(pos: Position, last: Piece, row: int, col: int, j: nat)
    requires Valid(pos) && 0 <= row <= 8 && 0 <= col <= 8 && j < |pos.store|
    ensures ClearEnPassantFrom(pos, last, row, col).store[j] ==
              if Cleared(pos, last, row, col, j) then pos.store[j].(enPassantPossible := false) else pos.store[j]
    decreases 8 - row, 8 - col
  {
    if row < 8 && col == 8 {
      ClearEnPassantOutcome(pos, last, row + 1, 0, j);
      assert Cleared(pos, last, row, col, j) == Cleared(pos, last, row + 1, 0, j);
    } else if row < 8 {
      var q := ClearSquare(pos, last, Sq(row, col));
      ClearSquareStep(pos, last, row, col, j);
      ClearEnPassantOutcome(q, last, row, col + 1, j);
    }
  }

  /** What one turn of the clearing loop does to the piece `j`, stated so
    * that the rest of the loop finishes the job. */
  lemma ClearSquareStep(pos: Position, last: Piece, row: int, col: int, j: nat)
    requires Valid(pos) && 0 <= row < 8 && 0 <= col < 8 && j < |pos.store|
    ensures var q := ClearSquare(pos, last, Sq(row, col));
      Valid(q) && j < |q.store| &&
      (if Cleared(q, last, row, col + 1, j) then q.store[j].(enPassantPossible := false) else q.store[j]) ==
      (if Cleared(pos, last, row, col, j) then pos.store[j].(enPassantPossible := false) else pos.store[j])
  {
    var s := Sq(row, col);
    var q := ClearSquare(pos, last, s);
    SimilarConsistent(pos, q);
    if Cell(pos, s) == Some(j) {
      OnlyAt(pos, s, j);
      assert !Cleared(q, last, row, col + 1, j);
    } else {
      assert q.store[j] == pos.store[j];
      if Cleared(pos, last, row, col, j) {
        assert SquareOf(pos.store[j]) != s;
      }
      assert Cleared(pos, last, row, col, j) == Cleared(q, last, row, col + 1, j);
    }
  }

  /** capture(): the piece handed back by addPiece (if any) is marked captured. */
  function MarkCaptured(pos: Position, x: Option<nat>): (r: Position)
    requires WellFormed(pos) && (x.Some? ==> x.value < |pos.store|)
    ensures WellFormed(r) && SameLayout(pos, r)
    ensures x.Some? ==> r.store[x.value].isCaptured
    ensures forall j | 0 <= j < |pos.store| && Some(j) != x :: r.store[j] == pos.store[j]
  {
    if x.Some? then SetPiece(pos, x.value, pos.store[x.value].(isCaptured := true)) else pos
  }

  /** A piece off the grid stays off a grid whose occupants shrank. */
  lemma StaysOff(a: Position, b: Position, x: nat)
    requires WellFormed(a) && WellFormed(b) && Occupants(b.cells) <= Occupants(a.cells) && OffGrid(a, x)
    ensures OffGrid(b, x)
  {
    OffGridOccupants(a, x);
    OffGridOccupants(b, x);
  }

  /** The piece on a square is among the occupants of the grid. */
  lemma CellOccupant(pos: Position, s: Sq)
    requires WellFormed(pos) && InBounds(s) && Cell(pos, s).Some?
    ensures Cell(pos, s).value in Occupants(pos.cells)
  {
    assert pos.cells[s.row][s.col] == Cell(pos, s);
  }

  /** Emptying the square of a piece takes it off the grid. */
  lemma RemoveTakesOff(pos: Position, s: Sq)
    requires Valid(pos) && InBounds(s) && Cell(pos, s).Some?
    ensures OffGrid(RemovePiece(pos, s).0, Cell(pos, s).value)
  {
    var x := Cell(pos, s).value;
    var q := RemovePiece(pos, s).0;
    OnlyAt(pos, s, x);
    forall r, c | 0 <= r < 8 && 0 <= c < 8 ensures q.cells[r][c] != Some(x) {
      assert q.cells[r][c] == Cell(q, Sq(r, c));
    }
  }

  /** The squares a castling King move relocates the Rook between: the
    * corner it stands on and the square beside the King's target. */
  function RookCorner(to: Sq): Sq
  {
    if to.col == 6 then Sq(to.row, 7) else Sq(to.row, 0)
  }

  function RookTarget(to: Sq): Sq
  {
    if to.col == 6 then Sq(to.row, 5) else Sq(to.row, 3)
  }

  /** The castling branch finds its Rook: to is on column 6 and column 7 of
    * its row holds a Rook (of either colour), or to is on column 2 and column
    * 0 holds one. */
  predicate RookInCorner(pos: Position, to: Sq)
  {
    (to.col == 6 || to.col == 2) && ContainsPiece(pos, RookCorner(to)) && At(pos, RookCorner(to)).value.kind == Rook
  }

  /** The castling branch of a King move onto to: when to is on column 6
    * and column 7 of its row holds a Rook (of either colour), or to is on
    * column 2 and column 0 holds one, the Rook's square is emptied, the Rook
    * is added beside the King (column 5 or 3) and castle records that
    * square; otherwise nothing happens. */
  function CastleRook(pos: Position, to: Sq): (r: Position)
    requires Valid(pos) && InBounds(to)
    ensures Valid(r) && |r.store| == |pos.store| && Occupants(r.cells) <= Occupants(pos.cells)
    ensures !RookInCorner(pos, to) ==> r == pos
    ensures RookInCorner(pos, to) ==>
              Cell(r, RookCorner(to)).None? &&
              (Cell(pos, RookTarget(to)).None? ==> Cell(r, RookTarget(to)) == Cell(pos, RookCorner(to))) &&
              (forall u | u != RookCorner(to) && u != RookTarget(to) :: Cell(r, u) == Cell(pos, u)) &&
              (forall j | 0 <= j < |pos.store| && Some(j) != Cell(pos, RookCorner(to)) :: r.store[j] == pos.store[j])
  {
    var corner, dest := RookCorner(to), RookTarget(to);
    if RookInCorner(pos, to) then
      var id := Cell(pos, corner).value;
      OnlyAt(pos, corner, id);
      RemoveValid(pos, corner);
      RemoveTakesOff(pos, corner);
      RemoveOccupants(pos, corner);
      CellOccupant(pos, corner);
      var p1 := RemovePiece(pos, corner).0;
      AddValid(p1, dest, id, false);
      AddPieceOutcome(p1, dest, Some(id), false);
      AddOccupants(p1, dest, id, false);
      var p2 := AddPiece(p1, dest, Some(id), false).0;
      var r := SetPiece(p2, id, Castle(p2.store[id], to.row, corner.col));
      assert Valid(r) by {
        forall i, j | 0 <= i < 8 && 0 <= j < 8 && r.cells[i][j].Some?
          ensures r.store[r.cells[i][j].value].row == i && r.store[r.cells[i][j].value].column == j
        {
          if r.cells[i][j] == Some(id) {
            assert Cell(p2, Sq(i, j)) == Some(id);
          }
        }
      }
      r
    else pos
  }

  /** Castling with the Rook in its corner and the square beside the King
    * empty: the Rook moves from the corner to that square and records it,
    * and no other square changes. */
  lemma CastleRookOutcome(pos: Position, to: Sq)
    requires Valid(pos) && InBounds(to) && (to.col == 6 || to.col == 2)
    requires ContainsPiece(pos, RookCorner(to)) && At(pos, RookCorner(to)).value.kind == Rook
    requires Cell(pos, RookTarget(to)).None?
    ensures var r, id := CastleRook(pos, to), Cell(pos, RookCorner(to)).value;
      Cell(r, RookTarget(to)) == Some(id) && Cell(r, RookCorner(to)).None? &&
      SquareOf(r.store[id]) == RookTarget(to) &&
      (forall u | u != RookCorner(to) && u != RookTarget(to) :: Cell(r, u) == Cell(pos, u)) &&
      (forall j | 0 <= j < |pos.store| && j != id :: r.store[j] == pos.store[j])
  {
    var corner, dest := RookCorner(to), RookTarget(to);
    var id := Cell(pos, corner).value;
    var p1 := RemovePiece(pos, corner).0;
    AddPieceOutcome(p1, dest, Some(id), false);
  }

  /** The promotion of a Pawn on to: to is emptied and a new piece of the
    * given kind and colour, created at to, is added there. The new object is
    * appended to the store; the Pawn stays in the store, off the grid. */
  function Promote(pos: Position, to: Sq, kind: Kind, color: int): (r: Position)
    requires Valid(pos) && InBounds(to) && kind != Pawn
    ensures Valid(r) && |r.store| == |pos.store| + 1 && r.store[..|pos.store|] == pos.store
    ensures Cell(r, to) == Some(|pos.store|) && r.store[|pos.store|] == NewPiece(kind, to.row, to.col, color)
    ensures forall t | t != to :: Cell(r, t) == Cell(pos, t)
  {
    var id := |pos.store|;
    var p0 := pos.(store := pos.store + [NewPiece(kind, to.row, to.col, color)]);
    assert Valid(p0) by {
      forall i, j | 0 <= i < 8 && 0 <= j < 8 && p0.cells[i][j].Some?
        ensures p0.store[p0.cells[i][j].value] == pos.store[pos.cells[i][j].value]
      {
      }
    }
    assert OffGrid(p0, id);
    RemoveValid(p0, to);
    var p1 := RemovePiece(p0, to).0;
    PlaceValid(p1, to, id, false);
    var r := AddPiece(p1, to, Some(id), false).0;
    assert r.store[..|pos.store|] == pos.store by {
      assert forall j | 0 <= j < |pos.store| :: r.store[j] == p1.store[j] == pos.store[j];
    }
    r
  }

  /** The promotion choice of the dialog: 0 Queen, 1 Knight, 2 Bishop and
    * anything else (including a closed dialog) Rook. */
  function PromotionKind(choice: int): (k: Kind)
    ensures k != Pawn && k != King
    ensures choice == 0 <==> k == Queen
  {
    if choice == 0 then Queen else if choice == 1 then Knight else if choice == 2 then Bishop else Rook
  }

  /** A King move that castles: the King moves more than one column. */
  predicate CastleStep(from: Sq, to: Sq)
  {
    to.col - from.col > 1 || from.col - to.col > 1
  }

  /** The castling test of the player's move as written: the difference of
    * the columns is not 1 (Math.abs(1) is 1). */
  predicate CastleStepAsWritten(from: Sq, to: Sq)
  {
    to.col - from.col != 1
  }

  /** No step of a King to a neighbouring square castles; a two-column step
    * along the row does. */
  lemma CastleStepOnlyForJumps(s: Sq, a: int)
    requires 0 <= a < 8
    ensures !CastleStep(s, Around(s, a))
    ensures CastleStep(s, Sq(s.row, s.col + 2)) && CastleStep(s, Sq(s.row, s.col - 2))
  {
    AroundNeighbours(s, a);
  }

  /** As written, a King stepping one square west, or straight up or down,
    * passes the castling test: one square west onto column 2 with a Rook in
    * column 0 and column 3 just vacated by the King, the Rook is moved from
    * column 0 to column 3. */
  lemma WestStepCastlesAsWritten(pos: Position, row: int)
    requires Valid(pos) && 0 <= row < 8
    requires ContainsPiece(pos, Sq(row, 0)) && At(pos, Sq(row, 0)).value.kind == Rook
    requires Cell(pos, Sq(row, 3)).None?
    ensures CastleStepAsWritten(Sq(row, 3), Sq(row, 2)) && !CastleStep(Sq(row, 3), Sq(row, 2))
    ensures CastleStepAsWritten(Sq(row, 3), Sq(row + 1, 3)) && !CastleStep(Sq(row, 3), Sq(row + 1, 3))
    ensures var r := CastleRook(pos, Sq(row, 2));
      Cell(r, Sq(row, 3)) == Cell(pos, Sq(row, 0)) && Cell(r, Sq(row, 0)).None?
  {
    CastleRookOutcome(pos, Sq(row, 2));
  }

  /** The pawn promotion of makeComputerMove as written: a Pawn moved to row
    * 7 is replaced by a Queen of colour 1, whatever its own colour. */
  function ComputerPromotionAsWritten(pos: Position, to: Sq, mover: Piece): (r: Position)
    requires Valid(pos) && InBounds(to)
    ensures Valid(r) && |r.store| >= |pos.store| && r.store[..|pos.store|] == pos.store
    ensures mover.kind == Pawn && to.row == 7 ==>
              Cell(r, to) == Some(|pos.store|) && At(r, to) == Some(NewPiece(Queen, to.row, to.col, Black))
    ensures !(mover.kind == Pawn && to.row == 7) ==> r == pos
    ensures forall t | t != to :: Cell(r, t) == Cell(pos, t)
  {
    if mover.kind == Pawn && to.row == 7 then Promote(pos, to, Queen, Black) else pos
  }

  /** A Pawn that reaches the last row in its direction of travel: row 0 or row 7. */
  predicate Promotes(mover: Piece, to: Sq)
  {
    mover.kind == Pawn && (to.row == 0 || to.row == 7)
  }

  /** The promotion makeComputerMove intends: a Pawn reaching row 0 or row 7
    * becomes a Queen of its own colour. */
  function ComputerPromotion(pos: Position, to: Sq, mover: Piece): (r: Position)
    requires Valid(pos) && InBounds(to)
    ensures Valid(r) && |r.store| == |pos.store| + (if Promotes(mover, to) then 1 else 0)
    ensures r.store[..|pos.store|] == pos.store
    ensures Promotes(mover, to) ==> At(r, to) == Some(NewPiece(Queen, to.row, to.col, mover.color))
    ensures !Promotes(mover, to) ==> r == pos
    ensures forall t | t != to :: Cell(r, t) == Cell(pos, t)
  {
    if Promotes(mover, to) then Promote(pos, to, Queen, mover.color) else pos
  }

  /** When the computer plays White its Pawns travel towards row 0: as
    * written, a White Pawn arriving there stays a Pawn, while the intended
    * promotion gives a White Queen. */
  lemma WhitePawnNotPromotedAsWritten(pos: Position, col: int, id: nat)
    requires Valid(pos) && 0 <= col < 8 && Cell(pos, Sq(0, col)) == Some(id)
    requires pos.store[id].kind == Pawn && pos.store[id].color == White
    ensures At(ComputerPromotionAsWritten(pos, Sq(0, col), pos.store[id]), Sq(0, col)).value.kind == Pawn
    ensures At(ComputerPromotion(pos, Sq(0, col), pos.store[id]), Sq(0, col)).value ==
              NewPiece(Queen, 0, col, White)
  {
  }

  /** The landing square of a Pawn moved onto to, and its piece passed by
    * en passant: the square behind to in the Pawn's direction of travel. */
  function PassedSquare(mover: Piece, to: Sq): Sq
  {
    if !mover.onOppositeSide then Sq(to.row + 1, to.col) else Sq(to.row - 1, to.col)
  }

  /** The en passant capture of the player's move: a Pawn moving onto an
    * empty square empties the square behind it (a square off the grid is
    * left alone) and hands back what stood there. */
  function EnPassantCapture(pos: Position, to: Sq, mover: Piece): (r: (Position, Option<nat>))
    requires Valid(pos)
    ensures Valid(r.0) && r.0.store == pos.store && Occupants(r.0.cells) <= Occupants(pos.cells)
    ensures r.1.Some? ==> r.1.value < |pos.store| && OffGrid(r.0, r.1.value)
    ensures mover.kind == Pawn && !ContainsPiece(pos, to) && InBounds(PassedSquare(mover, to)) ==>
              r.1 == Cell(pos, PassedSquare(mover, to)) && Cell(r.0, PassedSquare(mover, to)).None? &&
              forall u | u != PassedSquare(mover, to) :: Cell(r.0, u) == Cell(pos, u)
    ensures !(mover.kind == Pawn && !ContainsPiece(pos, to) && InBounds(PassedSquare(mover, to))) ==> r == (pos, None)
  {
    var v := PassedSquare(mover, to);
    if mover.kind == Pawn && !ContainsPiece(pos, to) && InBounds(v) then
      RemoveValid(pos, v);
      RemoveOccupants(pos, v);
      if Cell(pos, v).Some? then RemoveTakesOff(pos, v); RemovePiece(pos, v) else RemovePiece(pos, v)
    else (pos, None)
  }

  /** The make step of the search: square.removePiece() handed to
    * move.addPiece(_, true). Hands back what addPiece removed. */
  function Make(pos: Position, source: Sq, move: Sq): (r: (Position, Option<nat>))
    requires Valid(pos) && InBounds(source) && InBounds(move) && Cell(pos, source).Some?
    ensures Valid(r.0) && |r.0.store| == |pos.store| && Occupants(r.0.cells) <= Occupants(pos.cells)
    ensures Cell(r.0, move).Some?
    ensures r.1.Some? ==> r.1 == Cell(pos, move) && r.1.value < |pos.store| && OffGrid(r.0, r.1.value)
  {
    var x := Cell(pos, source).value;
    RemoveValid(pos, source);
    RemoveTakesOff(pos, source);
    RemoveOccupants(pos, source);
    CellOccupant(pos, source);
    var p1 := RemovePiece(pos, source).0;
    AddValid(p1, move, x, true);
    AddPieceOutcome(p1, move, Some(x), true);
    AddOccupants(p1, move, x, true);
    var r := AddPiece(p1, move, Some(x), true);
    if r.1.Some? then
      var y := r.1.value;
      OnlyAt(pos, move, y);
      assert OffGrid(r.0, y) by {
        forall i, j | 0 <= i < 8 && 0 <= j < 8 ensures r.0.cells[i][j] != Some(y) {
          assert r.0.cells[i][j] == Cell(r.0, Sq(i, j));
        }
      }
      r
    else r
  }

  /** The unmake step of the search: square.addPiece(move.removePiece(),
    * true), then move.addPiece(removed, true) when the make removed a piece.
    * When move held nothing there is nothing to add back. */
  function Unmake(pos: Position, source: Sq, move: Sq, removed: Option<nat>): (r: Position)
    requires Valid(pos) && InBounds(source) && InBounds(move)
    requires removed.Some? ==> removed.value < |pos.store| && OffGrid(pos, removed.value)
    ensures Valid(r) && |r.store| == |pos.store|
    ensures Occupants(r.cells) <= Occupants(pos.cells) + (if removed.Some? then {removed.value} else {})
  {
    RemoveValid(pos, move);
    RemoveOccupants(pos, move);
    var (q1, y) := RemovePiece(pos, move);
    var q2 :=
      if y.Some? then
        RemoveTakesOff(pos, move);
        AddValid(q1, source, y.value, true);
        AddOccupants(q1, source, y.value, true);
        CellOccupant(pos, move);
        AddPiece(q1, source, y, true).0
      else q1;
    if removed.Some? then
      assert OffGrid(q2, removed.value) by {
        OffGridOccupants(pos, removed.value);
        OffGridOccupants(q2, removed.value);
        if y.Some? {
          CellOccupant(pos, move);
        }
      }
      AddValid(q2, move, removed.value, true);
      AddOccupants(q2, move, removed.value, true);
      AddPiece(q2, move, removed, true).0
    else q2
  }

  /** The position a search step examines: the move made, the opponent
    * Kings the moved piece reaches checked, the first two Kings unchecked. */
  function Made(pos: Position, source: Sq, move: Sq, twoPlayer: bool): (r: Position)
    requires Valid(pos) && InBounds(source) && InBounds(move) && Cell(pos, source).Some?
    ensures Valid(r) && |r.store| == |pos.store| && Occupants(r.cells) <= Occupants(pos.cells)
  {
    var p1 := Make(pos, source, move).0;
    var p2 := CheckFrom(p1, move, At(p1, move).value, move, twoPlayer).0;
    UncheckKings(p2, twoPlayer)
  }

  /** A search step leaves the layout as it found it: when the piece on
    * source may go to move (move == source, or move empty or held by an
    * opponent), making the move, examining any position of the same layout
    * and unmaking the move gives back the original grid and every piece's
    * kind, colour and recorded square. */
  lemma MakeUnmakeLayout(pos: Position, source: Sq, move: Sq, mid: Position)
    requires Valid(pos) && InBounds(source) && InBounds(move) && Cell(pos, source).Some?
    requires move == source || OpenTo(pos, move, At(pos, source).value)
    requires Valid(mid) && SameLayout(Make(pos, source, move).0, mid)
    ensures SameLayout(pos, Unmake(mid, source, move, Make(pos, source, move).1))
  {
    var x := Cell(pos, source).value;
    var (p1, removed) := Make(pos, source, move);
    var p0 := RemovePiece(pos, source).0;
    OnlyAt(pos, source, x);
    AddPieceOutcome(p0, move, Some(x), true);
    assert p1 == AddPiece(p0, move, Some(x), true).0;
    assert Cell(p1, move) == Some(x);
    assert removed == (if move == source then None else Cell(pos, move));
    assert forall u | u != move && u != source :: Cell(p1, u) == Cell(pos, u);
    assert move != source ==> Cell(p1, source).None?;
    var (q1, y) := RemovePiece(mid, move);
    assert y == Some(x);
    AddPieceOutcome(q1, source, y, true);
    var q2 := AddPiece(q1, source, y, true).0;
    assert Cell(q2, source) == Some(x);
    var r := Unmake(mid, source, move, removed);
    if removed.Some? {
      var z := removed.value;
      OnlyAt(pos, move, z);
      AddPieceOutcome(q2, move, removed, true);
      assert Cell(q2, move).None?;
      assert r == AddPiece(q2, move, removed, true).0;
      assert Cell(r, move) == Some(z);
    } else {
      assert r == q2;
    }
    forall i, j | 0 <= i < 8 && 0 <= j < 8 ensures Cell(r, Sq(i, j)) == Cell(pos, Sq(i, j)) {
      assert Cell(mid, Sq(i, j)) == Cell(p1, Sq(i, j));
    }
    CellsEqual(r, pos);
    forall j | 0 <= j < |pos.store|
      ensures pos.store[j].kind == r.store[j].kind && pos.store[j].color == r.store[j].color &&
              pos.store[j].row == r.store[j].row && pos.store[j].column == r.store[j].column
    {
      assert p1.store[j].kind == mid.store[j].kind && p1.store[j].color == mid.store[j].color &&
             p1.store[j].row == mid.store[j].row && p1.store[j].column == mid.store[j].column;
      if j == x {
      } else if removed == Some(j) {
      } else {
        assert p1.store[j] == pos.store[j];
        assert r.store[j] == mid.store[j];
      }
    }
  }

  /** The make step of the search on the king-side target the scan as
    * written offers onto the King's own Rook: addPiece refuses the King, so
    * the King is left off the grid and the Rook stays where it was. */
  lemma OwnRookTargetDropsKingAsWritten()
    ensures var pos := TwoRooksCounterexample();
      Valid(pos) && Cell(pos, Sq(7, 4)) == Some(0) &&
      var made := Make(pos, Sq(7, 4), Sq(7, 5)).0;
      OffGrid(made, 0) && Cell(made, Sq(7, 5)) == Some(1)
  {
    var pos := TwoRooksCounterexample();
    KingSideOffersOwnRookAsWritten(false);
    var p0 := RemovePiece(pos, Sq(7, 4)).0;
    RemoveTakesOff(pos, Sq(7, 4));
    AddPieceOutcome(p0, Sq(7, 5), Some(0), true);
  }
}
