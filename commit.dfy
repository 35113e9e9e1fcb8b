/** The board effect of committing a move, as functions on positions: the
  * computer's move of makeComputerMove and the two halves of the player's
  * move. The Engine methods that perform these steps one by one are proved
  * equal to these functions; the lemmas here state what the new position
  * holds square by square. */
module Commit {
  import opened Wrappers
  import opened Pieces
  import opened Grid
  import opened Probes
  import opened Play

  /** to.addPiece(piece id, false) for a piece off the grid, followed by
    * marking captured what it removed. Hands back the captured piece. */
  function Land(pos: Position, to: Sq, id: nat): (r: (Position, Option<nat>))
    requires Valid(pos) && InBounds(to) && id < |pos.store| && OffGrid(pos, id)
    ensures Valid(r.0) && |r.0.store| == |pos.store|
    ensures forall t | t != to :: Cell(r.0, t) == Cell(pos, t)
    ensures forall j | 0 <= j < |pos.store| :: r.0.store[j].kind == pos.store[j].kind
    ensures r.1.Some? ==> r.1 == Cell(pos, to) && r.1.value < |pos.store| &&
                          !IsSameColor(pos.store[r.1.value], pos.store[id])
  {
    AddValid(pos, to, id, false);
    var (p, captured) := AddPiece(pos, to, Some(id), false);
    AddPieceOutcome(pos, to, Some(id), false);
    var q := MarkCaptured(p, captured);
    LayoutConsistent(p, q);
    (q, captured)
  }

  /** When to is open to the piece, it lands there: it stands on to with
    * to's coordinates, and the piece that stood on to, if any, is handed
    * back, marked captured and off the grid; no other piece changes. */
  lemma LandOutcome(pos: Position, to: Sq, id: nat)
    requires Valid(pos) && InBounds(to) && id < |pos.store| && OffGrid(pos, id)
    requires OpenTo(pos, to, pos.store[id])
    ensures var (q, captured) := Land(pos, to, id);
      captured == Cell(pos, to) && Cell(q, to) == Some(id) &&
      q.store[id] == SetPosition(pos.store[id], to.row, to.col, false) &&
      (captured.Some? ==> captured.value < |q.store| && q.store[captured.value].isCaptured &&
                          OffGrid(q, captured.value)) &&
      forall j | 0 <= j < |pos.store| && j != id && Some(j) != captured :: q.store[j] == pos.store[j]
  {
    AddPieceOutcome(pos, to, Some(id), false);
    var (q, captured) := Land(pos, to, id);
    if captured.Some? {
      var y := captured.value;
      OnlyAt(pos, to, y);
      forall r, c | 0 <= r < 8 && 0 <= c < 8 ensures q.cells[r][c] != Some(y) {
        assert q.cells[r][c] == Cell(q, Sq(r, c));
      }
    }
  }

  /** The castling branch of a move that has put the piece `id` on to: when
    * the piece is a King and the castling test holds, the Rook in the corner
    * beyond to is moved beside it. */
  function CastlePhase(pos: Position, to: Sq, id: nat, test: bool): (r: Position)
    requires Valid(pos) && InBounds(to) && id < |pos.store|
    ensures Valid(r) && |r.store| == |pos.store|
  {
    if pos.store[id].kind == King && test then CastleRook(pos, to) else pos
  }

  /** With the piece `id` on to, the castling branch leaves it there and
    * leaves a piece off the grid off it; when the Rook follows, its corner
    * is emptied and it stands beside to if that square was empty; no other
    * square changes. */
  lemma CastlePhaseOutcome(pos: Position, to: Sq, id: nat, test: bool, off: Option<nat>)
    requires Valid(pos) && InBounds(to) && id < |pos.store| && Cell(pos, to) == Some(id)
    requires off.Some? ==> off.value < |pos.store| && OffGrid(pos, off.value)
    ensures var q := CastlePhase(pos, to, id, test);
      var castled := pos.store[id].kind == King && test && RookInCorner(pos, to);
      Cell(q, to) == Some(id) && q.store[id] == pos.store[id] &&
      (off.Some? ==> OffGrid(q, off.value) && q.store[off.value] == pos.store[off.value]) &&
      (castled ==> Cell(q, RookCorner(to)).None? &&
                   (Cell(pos, RookTarget(to)).None? ==> Cell(q, RookTarget(to)) == Cell(pos, RookCorner(to)))) &&
      forall u | !castled || (u != RookCorner(to) && u != RookTarget(to)) :: Cell(q, u) == Cell(pos, u)
  {
    var q := CastlePhase(pos, to, id, test);
    if pos.store[id].kind == King && test && RookInCorner(pos, to) {
      assert RookTarget(to) != to && RookCorner(to) != to;
      assert Cell(pos, RookCorner(to)) != Some(id);
      if off.Some? {
        assert Cell(pos, RookCorner(to)) != off by {
          assert pos.cells[to.row][RookCorner(to).col] == Cell(pos, RookCorner(to));
        }
        forall r, c | 0 <= r < 8 && 0 <= c < 8 ensures q.cells[r][c] != Some(off.value) {
          assert q.cells[r][c] == Cell(q, Sq(r, c));
          assert pos.cells[r][c] == Cell(pos, Sq(r, c));
        }
      }
    }
  }

  /** The board half of makeComputerMove for the piece on from, before the
    * checks: from is emptied, the piece lands on to, a King moving more than
    * one column brings its Rook along, and a Pawn reaching a last row is
    * handled by the promotion test as written. */
  function ComputerLayout(pos: Position, from: Sq, to: Sq): (r: (Position, Option<nat>))
    requires Valid(pos) && InBounds(from) && InBounds(to) && Cell(pos, from).Some?
    ensures Valid(r.0) && |r.0.store| >= |pos.store|
    ensures r.1.Some? ==> r.1.value < |pos.store|
  {
    var id := Cell(pos, from).value;
    var mover := pos.store[id];
    RemoveValid(pos, from);
    RemoveTakesOff(pos, from);
    var (p1, captured) := Land(RemovePiece(pos, from).0, to, id);
    (ComputerPromotionAsWritten(CastlePhase(p1, to, id, CastleStep(from, to)), to, mover), captured)
  }

  /** The whole board half of makeComputerMove: ComputerLayout followed by
    * the check of the opponent Kings the piece on to reaches and the
    * unchecking of the first two Kings. The pieces stay where
    * ComputerLayout puts them. */
  function ComputerPlacement(pos: Position, from: Sq, to: Sq, twoPlayer: bool): (r: (Position, Option<nat>))
    requires Valid(pos) && InBounds(from) && InBounds(to) && Cell(pos, from).Some?
    ensures Valid(r.0) && SameLayout(ComputerLayout(pos, from, to).0, r.0)
    ensures r.1 == ComputerLayout(pos, from, to).1
  {
    var (p, captured) := ComputerLayout(pos, from, to);
    var checked := if ContainsPiece(p, to) then CheckFrom(p, to, At(p, to).value, to, twoPlayer).0 else p;
    LayoutTransitive(p, checked, UncheckKings(checked, twoPlayer));
    (UncheckKings(checked, twoPlayer), captured)
  }

  /** The Rook of a castling move is found: the move is a King's, the
    * castling test holds, and the corner square beyond to, which is not
    * the square the King left, holds a Rook. */
  predicate RookFollows(pos: Position, from: Sq, to: Sq, id: nat, test: bool)
    requires id < |pos.store|
  {
    pos.store[id].kind == King && test && RookCorner(to) != from && RookInCorner(pos, to)
  }

  /** The piece `id` lifted from from and landed on to, another square open
    * to it: from is empty, to holds the piece with to's coordinates, what
    * stood on to is handed back, marked captured and off the grid, and no
    * other square changes. */
  lemma LiftThenLand(pos: Position, from: Sq, to: Sq, id: nat) returns (p0: Position, p1: Position, captured: Option<nat>)
    requires Valid(pos) && InBounds(from) && InBounds(to) && Cell(pos, from) == Some(id)
    requires from != to && OpenTo(pos, to, pos.store[id])
    ensures Valid(p0) && OffGrid(p0, id) && p0 == RemovePiece(pos, from).0 && (p1, captured) == Land(p0, to, id)
    ensures Valid(p1) && |p1.store| == |pos.store| && id < |p1.store|
    ensures Cell(p0, from).None? && forall u | u != from :: Cell(p0, u) == Cell(pos, u)
    ensures forall u | u != to :: Cell(p1, u) == Cell(p0, u)
    ensures captured == Cell(pos, to) && Cell(p1, to) == Some(id) &&
            p1.store[id].row == to.row && p1.store[id].column == to.col && p1.store[id].kind == pos.store[id].kind
    ensures captured.Some? ==> captured.value < |p1.store| && p1.store[captured.value].isCaptured &&
                               OffGrid(p1, captured.value)
    ensures RookInCorner(p1, to) <==> RookCorner(to) != from && RookInCorner(pos, to)
  {
    RemoveValid(pos, from);
    RemoveTakesOff(pos, from);
    p0 := RemovePiece(pos, from).0;
    LandOutcome(p0, to, id);
    var landed := Land(p0, to, id);
    p1, captured := landed.0, landed.1;
    assert RookInCorner(p1, to) <==> RookInCorner(p0, to);
  }

  /** The steps of the computer's move for the piece `id` from from to an
    * open square to, named: the position after from is emptied, after the
    * landing, after the castling branch, and at the end. */
  lemma ComputerSteps(pos: Position, from: Sq, to: Sq, id: nat)
      returns (p0: Position, p1: Position, p2: Position, q: Position, captured: Option<nat>)
    requires Valid(pos) && InBounds(from) && InBounds(to) && Cell(pos, from) == Some(id)
    requires from != to && OpenTo(pos, to, pos.store[id])
    ensures Valid(p0) && Valid(p1) && Valid(p2) && Valid(q) && id < |p1.store|
    ensures ComputerLayout(pos, from, to) == (q, captured)
    ensures |p1.store| == |p2.store| == |pos.store|
    ensures Cell(p0, from).None? && forall u | u != from :: Cell(p0, u) == Cell(pos, u)
    ensures forall u | u != to :: Cell(p1, u) == Cell(p0, u)
    ensures captured == Cell(pos, to) && Cell(p1, to) == Some(id) &&
            p1.store[id].row == to.row && p1.store[id].column == to.col && p1.store[id].kind == pos.store[id].kind
    ensures captured.Some? ==> captured.value < |p1.store| && p1.store[captured.value].isCaptured &&
                               OffGrid(p1, captured.value)
    ensures p2 == CastlePhase(p1, to, id, CastleStep(from, to))
    ensures RookFollows(pos, from, to, id, CastleStep(from, to)) <==>
              pos.store[id].kind == King && CastleStep(from, to) && RookInCorner(p1, to)
    ensures q == ComputerPromotionAsWritten(p2, to, pos.store[id])
  {
    p0, p1, captured := LiftThenLand(pos, from, to, id);
    p2 := CastlePhase(p1, to, id, CastleStep(from, to));
    q := ComputerPromotionAsWritten(p2, to, pos.store[id]);
  }

  /** The computer's move onto an open square hands back what stood there,
    * marked captured and off the grid. */
  lemma ComputerMoveCaptures(pos: Position, from: Sq, to: Sq, id: nat)
    requires Valid(pos) && InBounds(from) && InBounds(to) && Cell(pos, from) == Some(id)
    requires from != to && OpenTo(pos, to, pos.store[id])
    ensures var (q, captured) := ComputerLayout(pos, from, to);
      captured == Cell(pos, to) &&
      (captured.Some? ==> captured.value < |q.store| && q.store[captured.value].isCaptured &&
                          OffGrid(q, captured.value))
  {
    var p0, p1, p2, q, captured := ComputerSteps(pos, from, to, id);
    CastlePhaseOutcome(p1, to, id, CastleStep(from, to), captured);
  }

  /** After the computer's move onto an open square, from is empty and to
    * holds the piece, or the new Black Queen of a Pawn reaching row 7. */
  lemma ComputerMoveSquares(pos: Position, from: Sq, to: Sq, id: nat)
    requires Valid(pos) && InBounds(from) && InBounds(to) && Cell(pos, from) == Some(id)
    requires from != to && OpenTo(pos, to, pos.store[id])
    ensures var q := ComputerLayout(pos, from, to).0;
      var promoted := pos.store[id].kind == Pawn && to.row == 7;
      Cell(q, from).None? &&
      (promoted ==> Cell(q, to) == Some(|pos.store|) && At(q, to) == Some(NewPiece(Queen, to.row, to.col, Black))) &&
      (!promoted ==> Cell(q, to) == Some(id) && q.store[id].row == to.row && q.store[id].column == to.col)
  {
    var p0, p1, p2, q, captured := ComputerSteps(pos, from, to, id);
    CastlePhaseOutcome(p1, to, id, CastleStep(from, to), None);
    if RookFollows(pos, from, to, id, CastleStep(from, to)) {
      assert RookTarget(to) != from;
    }
  }

  /** The computer's castling move: the Rook leaves its corner and stands
    * on the square the King passed when that square was empty; apart from
    * from, to and, when castling, these two squares, the board is
    * unchanged. */
  lemma ComputerMoveRest(pos: Position, from: Sq, to: Sq, id: nat)
    requires Valid(pos) && InBounds(from) && InBounds(to) && Cell(pos, from) == Some(id)
    requires from != to && OpenTo(pos, to, pos.store[id])
    ensures var q := ComputerLayout(pos, from, to).0;
      var castled := RookFollows(pos, from, to, id, CastleStep(from, to));
      (castled ==> Cell(q, RookCorner(to)).None? &&
                   (Cell(pos, RookTarget(to)).None? ==> Cell(q, RookTarget(to)) == Cell(pos, RookCorner(to)))) &&
      forall u | u != from && u != to && (castled ==> u != RookCorner(to) && u != RookTarget(to)) ::
        Cell(q, u) == Cell(pos, u)
  {
    var p0, p1, p2, q, captured := ComputerSteps(pos, from, to, id);
    CastlePhaseOutcome(p1, to, id, CastleStep(from, to), None);
    var castled := RookFollows(pos, from, to, id, CastleStep(from, to));
    if castled {
      assert RookTarget(to) != from && RookTarget(to) != to;
    }
    forall u | u != from && u != to && (castled ==> u != RookCorner(to) && u != RookTarget(to))
      ensures Cell(q, u) == Cell(pos, u)
    {
      assert Cell(p1, u) == Cell(p0, u) == Cell(pos, u);
    }
  }

  /** The first half of the player's move of the piece `id` from from to
    * to: from is emptied; in a two-player game, in addition, after a first
    * move every Pawn but the piece last moved loses its en passant flag, and
    * a Pawn moving onto an empty square captures en passant, its victim
    * being marked captured. Hands back the en passant victim. */
  function PlayerLift(pos: Position, from: Sq, to: Sq, id: nat, last: Option<nat>, twoPlayer: bool)
    : (r: (Position, Option<nat>))
    requires Valid(pos) && InBounds(from) && Cell(pos, from) == Some(id)
    requires last.Some? ==> last.value < |pos.store|
    ensures Valid(r.0) && |r.0.store| == |pos.store| && OffGrid(r.0, id) && Cell(r.0, from).None?
    ensures r.1.Some? ==> r.1.value < |r.0.store| && r.0.store[r.1.value].isCaptured && OffGrid(r.0, r.1.value)
    ensures !twoPlayer ==> r == (RemovePiece(pos, from).0, None)
  {
    RemoveValid(pos, from);
    RemoveTakesOff(pos, from);
    var p1 := RemovePiece(pos, from).0;
    if !twoPlayer then (p1, None)
    else
      var p2 := if last.Some? then ClearEnPassantFrom(p1, p1.store[last.value], 0, 0) else p1;
      StaysOff(p1, p2, id);
      var (p3, victim) := EnPassantCapture(p2, to, pos.store[id]);
      StaysOff(p2, p3, id);
      var q := MarkCaptured(p3, victim);
      LayoutConsistent(p3, q);
      StaysOff(p3, q, id);
      assert Cell(p3, from).None? by {
        assert p3.cells[from.row][from.col] == Cell(p3, from);
        if Cell(p3, from).Some? {
          assert Cell(p3, from).value in Occupants(p3.cells);
          assert p1.cells[from.row][from.col] == Cell(p1, from);
        }
      }
      (q, victim)
  }

  /** The second half of the player's move, before the checks: the piece
    * `id`, off the grid, lands on to; a King is marked moved and, when the
    * castling test as written holds, brings its Rook along; a Pawn whose row
    * is then 0 or 7 is replaced by the piece of the promotion choice. */
  function PlayerLandLayout(pos: Position, from: Sq, to: Sq, id: nat, choice: int): (r: (Position, Option<nat>))
    requires Valid(pos) && InBounds(to) && id < |pos.store| && OffGrid(pos, id)
    ensures Valid(r.0) && |r.0.store| >= |pos.store|
    ensures r.1.Some? ==> r.1.value < |pos.store|
  {
    var mover := pos.store[id];
    var (p1, captured) := Land(pos, to, id);
    var p2 := if mover.kind == King then SetPiece(p1, id, p1.store[id].(hasMoved := true)) else p1;
    LayoutConsistent(p1, p2);
    var p3 := CastlePhase(p2, to, id, CastleStepAsWritten(from, to));
    if mover.kind == Pawn && (p3.store[id].row == 0 || p3.store[id].row == 7) then
      (Promote(p3, to, PromotionKind(choice), mover.color), captured)
    else (p3, captured)
  }

  /** The whole second half of the player's move: PlayerLandLayout followed
    * by the check of the opponent Kings the moved piece reaches from to and
    * the unchecking of the first two Kings. The pieces stay where
    * PlayerLandLayout puts them. */
  function PlayerLand(pos: Position, from: Sq, to: Sq, id: nat, choice: int, twoPlayer: bool): (r: (Position, Option<nat>))
    requires Valid(pos) && InBounds(to) && id < |pos.store| && OffGrid(pos, id)
    ensures Valid(r.0) && SameLayout(PlayerLandLayout(pos, from, to, id, choice).0, r.0)
    ensures r.1 == PlayerLandLayout(pos, from, to, id, choice).1
  {
    var (p, captured) := PlayerLandLayout(pos, from, to, id, choice);
    var checked := CheckFrom(p, to, pos.store[id], to, twoPlayer).0;
    LayoutTransitive(p, checked, UncheckKings(checked, twoPlayer));
    (UncheckKings(checked, twoPlayer), captured)
  }

  /** The piece `id`, off the grid, landed on to, a square open to it, and,
    * when a King, marked moved: to holds it with to's coordinates, what
    * stood on to is handed back, marked captured and off the grid, and no
    * other square changes. */
  lemma LandAndMark(pos: Position, from: Sq, to: Sq, id: nat) returns (p1: Position, p2: Position, captured: Option<nat>)
    requires Valid(pos) && InBounds(to) && id < |pos.store| && OffGrid(pos, id)
    requires OpenTo(pos, to, pos.store[id])
    ensures (p1, captured) == Land(pos, to, id)
    ensures p2 == if pos.store[id].kind == King then SetPiece(p1, id, p1.store[id].(hasMoved := true)) else p1
    ensures Valid(p1) && Valid(p2) && |p2.store| == |pos.store|
    ensures forall u | u != to :: Cell(p2, u) == Cell(pos, u)
    ensures captured == Cell(pos, to) && Cell(p2, to) == Some(id) &&
            p2.store[id].row == to.row && p2.store[id].column == to.col
    ensures pos.store[id].kind == King ==> p2.store[id].hasMoved
    ensures captured.Some? ==> captured.value < |p2.store| && p2.store[captured.value].isCaptured &&
                               OffGrid(p2, captured.value)
    ensures RookInCorner(p2, to) <==> RookInCorner(pos, to)
  {
    LandOutcome(pos, to, id);
    var landed := Land(pos, to, id);
    p1, captured := landed.0, landed.1;
    p2 := if pos.store[id].kind == King then SetPiece(p1, id, p1.store[id].(hasMoved := true)) else p1;
    LayoutConsistent(p1, p2);
    assert RookInCorner(p2, to) <==> RookInCorner(pos, to);
  }

  /** The steps of the landing of the player's move of the piece `id` onto
    * an open square to, named: after the landing, after the King is marked
    * moved, after the castling branch, and at the end. */
  lemma PlayerSteps(pos: Position, from: Sq, to: Sq, id: nat, choice: int)
      returns (p1: Position, p2: Position, p3: Position, q: Position, captured: Option<nat>)
    requires Valid(pos) && InBounds(to) && id < |pos.store| && OffGrid(pos, id)
    requires OpenTo(pos, to, pos.store[id]) && Cell(pos, from).None?
    ensures Valid(p1) && Valid(p2) && Valid(p3) && Valid(q) && |p2.store| == |p3.store| == |pos.store|
    ensures PlayerLandLayout(pos, from, to, id, choice) == (q, captured)
    ensures forall u | u != to :: Cell(p2, u) == Cell(pos, u)
    ensures captured == Cell(pos, to) && Cell(p2, to) == Some(id) &&
            p2.store[id].row == to.row && p2.store[id].column == to.col
    ensures pos.store[id].kind == King ==> p2.store[id].hasMoved
    ensures captured.Some? ==> captured.value < |p2.store| && p2.store[captured.value].isCaptured &&
                               OffGrid(p2, captured.value)
    ensures p3 == CastlePhase(p2, to, id, CastleStepAsWritten(from, to))
    ensures RookFollows(pos, from, to, id, CastleStepAsWritten(from, to)) <==>
              pos.store[id].kind == King && CastleStepAsWritten(from, to) && RookInCorner(p2, to)
    ensures q == if pos.store[id].kind == Pawn && (to.row == 0 || to.row == 7)
                 then Promote(p3, to, PromotionKind(choice), pos.store[id].color) else p3
  {
    p1, p2, captured := LandAndMark(pos, from, to, id);
    p3 := CastlePhase(p2, to, id, CastleStepAsWritten(from, to));
    CastlePhaseOutcome(p2, to, id, CastleStepAsWritten(from, to), None);
    q := if pos.store[id].kind == Pawn && (to.row == 0 || to.row == 7)
         then Promote(p3, to, PromotionKind(choice), pos.store[id].color) else p3;
  }

  /** The landing of the player's move onto an open square hands back what
    * stood there, marked captured and off the grid. */
  lemma PlayerLandCaptures(pos: Position, from: Sq, to: Sq, id: nat, choice: int)
    requires Valid(pos) && InBounds(to) && id < |pos.store| && OffGrid(pos, id)
    requires OpenTo(pos, to, pos.store[id]) && Cell(pos, from).None?
    ensures var (q, captured) := PlayerLandLayout(pos, from, to, id, choice);
      captured == Cell(pos, to) &&
      (captured.Some? ==> captured.value < |q.store| && q.store[captured.value].isCaptured &&
                          OffGrid(q, captured.value))
  {
    var p1, p2, p3, q, captured := PlayerSteps(pos, from, to, id, choice);
    CastlePhaseOutcome(p2, to, id, CastleStepAsWritten(from, to), captured);
    if captured.Some? && pos.store[id].kind == Pawn && (to.row == 0 || to.row == 7) {
      PromoteKeepsOff(p3, to, PromotionKind(choice), pos.store[id].color, captured.value);
    }
  }

  /** A promotion leaves a piece that is off the grid off it, and its store
    * entry alone. */
  lemma PromoteKeepsOff(pos: Position, to: Sq, kind: Kind, color: int, x: nat)
    requires Valid(pos) && InBounds(to) && kind != Pawn && x < |pos.store| && OffGrid(pos, x)
    ensures var q := Promote(pos, to, kind, color);
      OffGrid(q, x) && q.store[x] == pos.store[x]
  {
    var q := Promote(pos, to, kind, color);
    forall r, c | 0 <= r < 8 && 0 <= c < 8 ensures q.cells[r][c] != Some(x) {
      assert q.cells[r][c] == Cell(q, Sq(r, c));
      assert pos.cells[r][c] == Cell(pos, Sq(r, c));
    }
    assert q.store[x] == q.store[..|pos.store|][x];
  }

  /** After the landing of the player's move onto an open square, to holds
    * the piece, or the new piece of the promotion choice, of the Pawn's
    * colour, when a Pawn reaches row 0 or 7; a King is marked moved. */
  lemma PlayerLandSquares(pos: Position, from: Sq, to: Sq, id: nat, choice: int)
    requires Valid(pos) && InBounds(to) && id < |pos.store| && OffGrid(pos, id)
    requires OpenTo(pos, to, pos.store[id]) && Cell(pos, from).None?
    ensures var q := PlayerLandLayout(pos, from, to, id, choice).0;
      var mover := pos.store[id];
      var promoted := mover.kind == Pawn && (to.row == 0 || to.row == 7);
      (promoted ==> Cell(q, to) == Some(|pos.store|) &&
                    At(q, to) == Some(NewPiece(PromotionKind(choice), to.row, to.col, mover.color))) &&
      (!promoted ==> Cell(q, to) == Some(id) && q.store[id].row == to.row && q.store[id].column == to.col) &&
      (mover.kind == King ==> q.store[id].hasMoved)
  {
    var p1, p2, p3, q, captured := PlayerSteps(pos, from, to, id, choice);
    CastlePhaseOutcome(p2, to, id, CastleStepAsWritten(from, to), None);
  }

  /** The player's castling move as written: the Rook leaves its corner and
    * stands beside to when that square was empty; apart from to and, when
    * castling, these two squares, the board is unchanged. */
  lemma PlayerLandRest(pos: Position, from: Sq, to: Sq, id: nat, choice: int)
    requires Valid(pos) && InBounds(to) && id < |pos.store| && OffGrid(pos, id)
    requires OpenTo(pos, to, pos.store[id]) && Cell(pos, from).None?
    ensures var q := PlayerLandLayout(pos, from, to, id, choice).0;
      var castled := RookFollows(pos, from, to, id, CastleStepAsWritten(from, to));
      (castled ==> Cell(q, RookCorner(to)).None? &&
                   (Cell(pos, RookTarget(to)).None? ==> Cell(q, RookTarget(to)) == Cell(pos, RookCorner(to)))) &&
      forall u | u != to && (castled ==> u != RookCorner(to) && u != RookTarget(to)) :: Cell(q, u) == Cell(pos, u)
  {
    var p1, p2, p3, q, captured := PlayerSteps(pos, from, to, id, choice);
    CastlePhaseOutcome(p2, to, id, CastleStepAsWritten(from, to), None);
    var castled := RookFollows(pos, from, to, id, CastleStepAsWritten(from, to));
    if castled {
      assert RookTarget(to) != to && RookCorner(to) != to;
    }
  }
}
