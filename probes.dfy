/** The look-ahead probe shared by King.generateMoves and Board.handleChecks:
  * a piece is put on a target square with addPiece(piece, true), taken off
  * its own square with removePiece, the resulting position is examined, and
  * then the target is emptied, the piece is added back to its square and
  * whatever the target held is added back to the target. */
module Probes {
  import opened Wrappers
  import opened Pieces
  import opened Grid

  /** A reference held by no square of the grid. */
  predicate OffGrid(pos: Position, x: nat)
    requires WellFormed(pos)
  {
    forall r, c | 0 <= r < 8 && 0 <= c < 8 :: pos.cells[r][c] != Some(x)
  }

  /** The piece `id` stands on the square `s` and on no other. */
  lemma OnlyAt(pos: Position, s: Sq, id: nat)
    requires Valid(pos) && InBounds(s) && Cell(pos, s) == Some(id)
    ensures pos.store[id].row == s.row && pos.store[id].column == s.col
    ensures forall t | InBounds(t) && t != s :: Cell(pos, t) != Some(id)
  {
  }

  /** Two well-formed grids that agree on every square are equal. */
  lemma CellsEqual(a: Position, b: Position)
    requires WellFormed(a) && WellFormed(b)
    requires forall r, c | 0 <= r < 8 && 0 <= c < 8 :: Cell(a, Sq(r, c)) == Cell(b, Sq(r, c))
    ensures a.cells == b.cells
  {
    forall r | 0 <= r < 8
      ensures a.cells[r] == b.cells[r]
    {
      forall c | 0 <= c < 8
        ensures a.cells[r][c] == b.cells[r][c]
      {
        assert Cell(a, Sq(r, c)) == Cell(b, Sq(r, c));
      }
    }
  }

  /** Emptying a square keeps every remaining piece on its recorded square. */
  lemma RemoveValid(pos: Position, s: Sq)
    requires Valid(pos) && InBounds(s)
    ensures Valid(RemovePiece(pos, s).0)
  {
    var q := RemovePiece(pos, s).0;
    forall r, c | 0 <= r < 8 && 0 <= c < 8 && q.cells[r][c].Some?
      ensures q.store[q.cells[r][c].value].row == r && q.store[q.cells[r][c].value].column == c
    {
      assert Cell(q, Sq(r, c)) == Cell(pos, Sq(r, c));
    }
  }

  /** A piece off the grid added to an empty square stands there and records it. */
  lemma PlaceValid(pos: Position, s: Sq, x: nat, lookAhead: bool)
    requires Valid(pos) && InBounds(s) && Cell(pos, s).None? && x < |pos.store| && OffGrid(pos, x)
    ensures Valid(AddPiece(pos, s, Some(x), lookAhead).0)
    ensures Cell(AddPiece(pos, s, Some(x), lookAhead).0, s) == Some(x)
    ensures AddPiece(pos, s, Some(x), lookAhead).0.store[x] == SetPosition(pos.store[x], s.row, s.col, lookAhead)
  {
    var q := AddPiece(pos, s, Some(x), lookAhead).0;
    AddPieceOutcome(pos, s, Some(x), lookAhead);
    forall r, c | 0 <= r < 8 && 0 <= c < 8 && q.cells[r][c].Some?
      ensures q.store[q.cells[r][c].value].row == r && q.store[q.cells[r][c].value].column == c
    {
      if Sq(r, c) != s {
        assert Cell(q, Sq(r, c)) == Cell(pos, Sq(r, c));
      }
    }
  }

  /** The first half of a probe: t.addPiece(piece, true), then
    * source.removePiece(). Hands back what addPiece removed from t. */
  function Lift(pos: Position, source: Sq, t: Sq, id: nat): (r: (Position, Option<nat>))
    requires WellFormed(pos) && InBounds(source) && InBounds(t) && id < |pos.store|
    ensures WellFormed(r.0) && |r.0.store| == |pos.store|
    ensures r.1.Some? ==> r.1.value < |pos.store|
  {
    var (p1, removed) := AddPiece(pos, t, Some(id), true);
    (RemovePiece(p1, source).0, removed)
  }

  /** The second half: t.removePiece(), source.addPiece(piece, true), and
    * t.addPiece(removed, true) when something had been removed. */
  function Restore(pos: Position, source: Sq, t: Sq, id: nat, removed: Option<nat>): (q: Position)
    requires WellFormed(pos) && InBounds(source) && InBounds(t) && id < |pos.store|
    requires removed.Some? ==> removed.value < |pos.store|
    ensures WellFormed(q) && |q.store| == |pos.store|
  {
    var p1 := RemovePiece(pos, t).0;
    var p2 := AddPiece(p1, source, Some(id), true).0;
    if removed.Some? then AddPiece(p2, t, removed, true).0 else p2
  }

  /** The position a probe leaves behind (the examination changes nothing). */
  function RoundTrip(pos: Position, source: Sq, t: Sq, id: nat): (q: Position)
    requires WellFormed(pos) && InBounds(source) && InBounds(t) && id < |pos.store|
    ensures WellFormed(q) && |q.store| == |pos.store|
  {
    var (p, removed) := Lift(pos, source, t, id);
    Restore(p, source, t, id, removed)
  }

  /** What the examined position looks like when the piece may go to t: it
    * stands on t and records t, its own square is empty, the piece that was
    * on t (if any) is handed back, and nothing else moved. */
  lemma LiftOpen(pos: Position, source: Sq, t: Sq, id: nat)
    requires Valid(pos) && InBounds(source) && InBounds(t) && Cell(pos, source) == Some(id)
    requires t != source && OpenTo(pos, t, pos.store[id])
    ensures var (p, removed) := Lift(pos, source, t, id);
      Valid(p) && Cell(p, t) == Some(id) && Cell(p, source).None? && removed == Cell(pos, t) &&
      p.store[id] == SetPosition(pos.store[id], t.row, t.col, true) &&
      (forall u | u != t && u != source :: Cell(p, u) == Cell(pos, u)) &&
      (forall j | 0 <= j < |pos.store| && j != id :: p.store[j] == pos.store[j])
  {
    var (p, removed) := Lift(pos, source, t, id);
    OnlyAt(pos, source, id);
    AddPieceOutcome(pos, t, Some(id), true);
    forall r, c | 0 <= r < 8 && 0 <= c < 8 && p.cells[r][c].Some?
      ensures p.store[p.cells[r][c].value].row == r && p.store[p.cells[r][c].value].column == c
    {
      if Sq(r, c) != t {
        assert Cell(p, Sq(r, c)) == Cell(pos, Sq(r, c));
      }
    }
  }

  /** When t holds a piece of the same colour (the piece's own square
    * included), addPiece refuses it and the probe only takes the piece off. */
  lemma LiftBlocked(pos: Position, source: Sq, t: Sq, id: nat)
    requires Valid(pos) && InBounds(source) && InBounds(t) && Cell(pos, source) == Some(id)
    requires !OpenTo(pos, t, pos.store[id]) || t == source
    ensures var (p, removed) := Lift(pos, source, t, id);
      Valid(p) && removed.None? && p == RemovePiece(pos, source).0
  {
    AddPieceOutcome(pos, t, Some(id), true);
    RemoveValid(pos, source);
  }

  /** Once the target is emptied again, the probed piece is on no square. */
  lemma LiftedOffGrid(pos: Position, source: Sq, t: Sq, id: nat)
    requires Valid(pos) && InBounds(source) && InBounds(t) && Cell(pos, source) == Some(id)
    requires Valid(Lift(pos, source, t, id).0)
    requires forall u | u != t && u != source :: Cell(Lift(pos, source, t, id).0, u) == Cell(pos, u)
    ensures OffGrid(RemovePiece(Lift(pos, source, t, id).0, t).0, id)
  {
    var p := Lift(pos, source, t, id).0;
    var p1 := RemovePiece(p, t).0;
    OnlyAt(pos, source, id);
    forall r, c | 0 <= r < 8 && 0 <= c < 8 ensures p1.cells[r][c] != Some(id) {
      assert Cell(p1, Sq(r, c)) == p1.cells[r][c];
      if Sq(r, c) != t && Sq(r, c) != source {
        assert Cell(p, Sq(r, c)) == Cell(pos, Sq(r, c));
      }
    }
  }

  /** The piece a probe captured is on no square once the probed piece is
    * back on its own square and the target is empty. */
  lemma CapturedOffGrid(pos: Position, source: Sq, t: Sq, id: nat, p2: Position, x: nat)
    requires Valid(pos) && InBounds(source) && InBounds(t) && t != source
    requires Cell(pos, source) == Some(id) && Cell(pos, t) == Some(x)
    requires WellFormed(p2) && Cell(p2, t).None? && Cell(p2, source) == Some(id)
    requires forall u | u != t && u != source :: Cell(p2, u) == Cell(pos, u)
    ensures OffGrid(p2, x)
  {
    OnlyAt(pos, t, x);
    forall r, c | 0 <= r < 8 && 0 <= c < 8 ensures p2.cells[r][c] != Some(x) {
      assert Cell(p2, Sq(r, c)) == p2.cells[r][c];
    }
  }

  /** The round trip to an open square other than the piece's own. */
  lemma RoundTripOpen(pos: Position, source: Sq, t: Sq, id: nat)
    requires Valid(pos) && InBounds(source) && InBounds(t) && Cell(pos, source) == Some(id)
    requires t != source && OpenTo(pos, t, pos.store[id])
    ensures Valid(RoundTrip(pos, source, t, id))
    ensures Cell(RoundTrip(pos, source, t, id), source) == Some(id)
    ensures RoundTrip(pos, source, t, id).store[id] ==
              SetPosition(SetPosition(pos.store[id], t.row, t.col, true), source.row, source.col, true)
    ensures Similar(pos, RoundTrip(pos, source, t, id))
  {
    var (p, removed) := Lift(pos, source, t, id);
    var p1 := RemovePiece(p, t).0;
    var p2 := AddPiece(p1, source, Some(id), true).0;
    var q := RoundTrip(pos, source, t, id);
    OnlyAt(pos, source, id);
    LiftOpen(pos, source, t, id);
    RemoveValid(p, t);
    LiftedOffGrid(pos, source, t, id);
    PlaceValid(p1, source, id, true);
    if removed.Some? {
      var x := removed.value;
      OnlyAt(pos, t, x);
      CapturedOffGrid(pos, source, t, id, p2, x);
      PlaceValid(p2, t, x, true);
      assert q.store[x] == SetPosition(pos.store[x], t.row, t.col, true);
      CoreSetPosition(pos.store[x], t.row, t.col);
    }
    CoreSetPosition(pos.store[id], t.row, t.col);
    CoreSetPosition(SetPosition(pos.store[id], t.row, t.col, true), source.row, source.col);
    forall r, c | 0 <= r < 8 && 0 <= c < 8
      ensures Cell(q, Sq(r, c)) == Cell(pos, Sq(r, c))
    {
    }
    CellsEqual(q, pos);
  }

  /** What a round trip to an open square does to the recorded squares: the
    * probed piece and the captured one went through setPosition, every other
    * piece is as it was. */
  lemma RoundTripStore(pos: Position, source: Sq, t: Sq, id: nat)
    requires Valid(pos) && InBounds(source) && InBounds(t) && Cell(pos, source) == Some(id)
    requires t != source && OpenTo(pos, t, pos.store[id])
    ensures forall j | 0 <= j < |pos.store| && j != id && Some(j) != Cell(pos, t) ::
              RoundTrip(pos, source, t, id).store[j] == pos.store[j]
    ensures Cell(pos, t).Some? && Cell(pos, t) != Some(id) ==>
              RoundTrip(pos, source, t, id).store[Cell(pos, t).value] ==
              SetPosition(pos.store[Cell(pos, t).value], t.row, t.col, true)
  {
    var (p, removed) := Lift(pos, source, t, id);
    var p1 := RemovePiece(p, t).0;
    var p2 := AddPiece(p1, source, Some(id), true).0;
    LiftOpen(pos, source, t, id);
    if removed.Some? && removed != Some(id) {
      AddPieceOutcome(p2, t, removed, true);
    }
  }

  /** The round trip to a square the piece may not take, or to its own. */
  lemma RoundTripBlocked(pos: Position, source: Sq, t: Sq, id: nat)
    requires Valid(pos) && InBounds(source) && InBounds(t) && Cell(pos, source) == Some(id)
    requires !OpenTo(pos, t, pos.store[id]) || t == source
    ensures Valid(RoundTrip(pos, source, t, id))
    ensures Cell(RoundTrip(pos, source, t, id), source) == Some(id)
    ensures RoundTrip(pos, source, t, id).store[id] == SetPosition(pos.store[id], source.row, source.col, true)
    ensures t == source ==> Similar(pos, RoundTrip(pos, source, t, id))
    ensures t != source ==>
              Cell(RoundTrip(pos, source, t, id), t).None? &&
              forall u | u != t :: Cell(RoundTrip(pos, source, t, id), u) == Cell(pos, u)
  {
    var (p, removed) := Lift(pos, source, t, id);
    var p1 := RemovePiece(p, t).0;
    var q := RoundTrip(pos, source, t, id);
    OnlyAt(pos, source, id);
    LiftBlocked(pos, source, t, id);
    RemoveValid(p, t);
    LiftedOffGrid(pos, source, t, id);
    PlaceValid(p1, source, id, true);
    CoreSetPosition(pos.store[id], source.row, source.col);
    if t == source {
      forall r, c | 0 <= r < 8 && 0 <= c < 8
        ensures Cell(q, Sq(r, c)) == Cell(pos, Sq(r, c))
      {
      }
      CellsEqual(q, pos);
    }
  }

  /** A probe always leaves a valid position with the piece back on its
    * square. When t was open to the piece it restores the grid and every
    * recorded square; when t held another piece of the same colour, that
    * piece is left off the grid. */
  lemma RoundTripRestores(pos: Position, source: Sq, t: Sq, id: nat)
    requires Valid(pos) && InBounds(source) && InBounds(t) && Cell(pos, source) == Some(id)
    ensures Valid(RoundTrip(pos, source, t, id))
    ensures Cell(RoundTrip(pos, source, t, id), source) == Some(id)
    ensures RoundTrip(pos, source, t, id).store[id] ==
              SetPosition(SetPosition(pos.store[id], t.row, t.col, true), source.row, source.col, true) ||
            RoundTrip(pos, source, t, id).store[id] ==
              SetPosition(pos.store[id], source.row, source.col, true)
    ensures OpenTo(pos, t, pos.store[id]) || t == source ==> Similar(pos, RoundTrip(pos, source, t, id))
    ensures !OpenTo(pos, t, pos.store[id]) && t != source ==>
              Cell(RoundTrip(pos, source, t, id), t).None? &&
              forall u | u != t :: Cell(RoundTrip(pos, source, t, id), u) == Cell(pos, u)
  {
    if t != source && OpenTo(pos, t, pos.store[id]) {
      RoundTripOpen(pos, source, t, id);
    } else {
      RoundTripBlocked(pos, source, t, id);
    }
  }

  /** Lifting a piece in similar positions gives similar positions and hands
    * back the same piece. */
  lemma LiftSimilar(a: Position, b: Position, source: Sq, t: Sq, id: nat)
    requires WellFormed(a) && Similar(a, b) && InBounds(source) && InBounds(t) && id < |a.store|
    ensures WellFormed(b)
    ensures Similar(Lift(a, source, t, id).0, Lift(b, source, t, id).0)
    ensures Lift(a, source, t, id).1 == Lift(b, source, t, id).1
  {
    AddPieceOutcome(a, t, Some(id), true);
    AddPieceOutcome(b, t, Some(id), true);
    SimilarAt(a, b, t);
    CoreSetPosition(a.store[id], t.row, t.col);
    CoreSetPosition(b.store[id], t.row, t.col);
  }

  lemma OffGridOccupants(pos: Position, x: nat)
    requires WellFormed(pos)
    ensures OffGrid(pos, x) <==> x !in Occupants(pos.cells)
  {
    if !OffGrid(pos, x) {
      var r, c :| 0 <= r < 8 && 0 <= c < 8 && pos.cells[r][c] == Some(x);
      assert x in Occupants(pos.cells);
    }
  }

  /** Emptying a square brings no piece onto the grid. */
  lemma RemoveOccupants(pos: Position, s: Sq)
    requires WellFormed(pos) && InBounds(s)
    ensures Occupants(RemovePiece(pos, s).0.cells) <= Occupants(pos.cells)
  {
    var q := RemovePiece(pos, s).0;
    forall x | x in Occupants(q.cells) ensures x in Occupants(pos.cells) {
      var r, c :| 0 <= r < 8 && 0 <= c < 8 && q.cells[r][c] == Some(x);
      assert Cell(q, Sq(r, c)) == Cell(pos, Sq(r, c));
    }
  }

  /** addPiece brings at most the added piece onto the grid. */
  lemma AddOccupants(pos: Position, s: Sq, x: nat, lookAhead: bool)
    requires WellFormed(pos) && InBounds(s) && x < |pos.store|
    ensures Occupants(AddPiece(pos, s, Some(x), lookAhead).0.cells) <= Occupants(pos.cells) + {x}
  {
    var q := AddPiece(pos, s, Some(x), lookAhead).0;
    AddPieceOutcome(pos, s, Some(x), lookAhead);
    forall y | y in Occupants(q.cells) ensures y in Occupants(pos.cells) + {x} {
      var r, c :| 0 <= r < 8 && 0 <= c < 8 && q.cells[r][c] == Some(y);
      if Sq(r, c) != s {
        assert Cell(q, Sq(r, c)) == Cell(pos, Sq(r, c));
      }
    }
  }

  /** Adding a piece that is off the grid keeps every piece on the square it
    * records, whether it lands on an empty square, captures, or is refused. */
  lemma AddValid(pos: Position, s: Sq, x: nat, lookAhead: bool)
    requires Valid(pos) && InBounds(s) && x < |pos.store| && OffGrid(pos, x)
    ensures Valid(AddPiece(pos, s, Some(x), lookAhead).0)
  {
    var q := AddPiece(pos, s, Some(x), lookAhead).0;
    AddPieceOutcome(pos, s, Some(x), lookAhead);
    if Cell(pos, s).None? {
      PlaceValid(pos, s, x, lookAhead);
    } else if !IsSameColor(At(pos, s).value, pos.store[x]) {
      var o := Cell(pos, s).value;
      forall r, c | 0 <= r < 8 && 0 <= c < 8 && q.cells[r][c].Some?
        ensures q.store[q.cells[r][c].value].row == r && q.store[q.cells[r][c].value].column == c
      {
        if Sq(r, c) != s {
          assert Cell(q, Sq(r, c)) == Cell(pos, Sq(r, c));
          assert q.cells[r][c] != Some(x);
        }
      }
    }
  }

  /** A probe brings no piece onto the grid. */
  lemma RoundTripOccupants(pos: Position, source: Sq, t: Sq, id: nat)
    requires Valid(pos) && InBounds(source) && InBounds(t) && Cell(pos, source) == Some(id)
    ensures Occupants(RoundTrip(pos, source, t, id).cells) <= Occupants(pos.cells)
  {
    var q := RoundTrip(pos, source, t, id);
    RoundTripRestores(pos, source, t, id);
    forall y | y in Occupants(q.cells) ensures y in Occupants(pos.cells) {
      var r, c :| 0 <= r < 8 && 0 <= c < 8 && q.cells[r][c] == Some(y);
      assert Cell(q, Sq(r, c)) == Cell(pos, Sq(r, c));
    }
  }
}
