/** Move: the record of one committed move (its squares, the piece moved, the
  * piece it captured and the two derived flags the fifty-move rule reads)
  * and its undo, which puts the pieces back and takes the captured piece off
  * the list of captured pieces. */
module Moves {
  import opened Wrappers
  import opened Pieces
  import opened Grid
  import opened Lists

  datatype Move = Move(
    from: Sq,
    to: Sq,
    pieceMoved: nat,
    pieceRemoved: Option<nat>,
    pawnMoved: bool,
    pieceCaptured: bool)

  /** The constructor: the flags record whether a Pawn moved and whether a
    * piece was captured; the getters hand back the arguments. */
  function NewMove(from: Sq, to: Sq, pieceMoved: nat, movedKind: Kind, removed: Option<nat>): (m: Move)
    ensures m.pawnMoved <==> movedKind == Pawn
    ensures m.pieceCaptured <==> removed.Some?
    ensures m.from == from && m.to == to && m.pieceMoved == pieceMoved && m.pieceRemoved == removed
  {
    Move(from, to, pieceMoved, removed, movedKind == Pawn, removed.Some?)
  }

  /** The references a move makes point into the store. */
  predicate MoveFits(pos: Position, m: Move)
  {
    InBounds(m.from) && InBounds(m.to) && m.pieceMoved < |pos.store| &&
    (m.pieceRemoved.Some? ==> m.pieceRemoved.value < |pos.store|)
  }

  /** The board half of undo: to.removePiece(), from.addPiece(pieceMoved,
    * false), and to.addPiece(pieceRemoved, false) when there was a capture. */
  function UndoBoard(pos: Position, m: Move): (q: Position)
    requires WellFormed(pos) && MoveFits(pos, m)
    ensures WellFormed(q) && |q.store| == |pos.store|
  {
    var p1 := RemovePiece(pos, m.to).0;
    var p2 := AddPiece(p1, m.from, Some(m.pieceMoved), false).0;
    if m.pieceRemoved.Some? then AddPiece(p2, m.to, m.pieceRemoved, false).0 else p2
  }

  /** capturedPieces.remove(pieceRemoved) as written: ArrayList.remove goes
    * through Piece.equals, so it deletes the first captured piece that
    * records the same row, column and captured flag, read in the store as it
    * is after the board has been restored. */
  function RemoveCapturedAsWritten(store: seq<Piece>, captured: seq<nat>, x: nat): (r: seq<nat>)
    requires x < |store| && forall i | 0 <= i < |captured| :: captured[i] < |store|
    ensures |r| == |captured| || |r| == |captured| - 1
    ensures forall j | j in r :: j in captured
  {
    if captured == [] then []
    else if PieceEquals(store[x], store[captured[0]]) then captured[1..]
    else [captured[0]] + RemoveCapturedAsWritten(store, captured[1..], x)
  }

  /** The removal as intended: the piece put back on the board leaves the
    * list, found by identity. */
  function RemoveCaptured(captured: seq<nat>, removed: Option<nat>): (r: seq<nat>)
  {
    if removed.Some? then RemoveFirst(captured, removed.value) else captured
  }

  /** Move.undo(capturedPieces): the board put back, then the captured piece
    * taken off the list through Piece.equals (remove(null) finds nothing). */
  function Undo(pos: Position, captured: seq<nat>, m: Move): (r: (Position, seq<nat>))
    requires WellFormed(pos) && MoveFits(pos, m)
    requires forall i | 0 <= i < |captured| :: captured[i] < |pos.store|
    ensures WellFormed(r.0) && |r.0.store| == |pos.store|
    ensures forall j | j in r.1 :: j in captured
    ensures |r.1| == |captured| || (m.pieceRemoved.Some? && |r.1| == |captured| - 1)
  {
    var q := UndoBoard(pos, m);
    (q, if m.pieceRemoved.Some? then RemoveCapturedAsWritten(q.store, captured, m.pieceRemoved.value) else captured)
  }

  /** Undo is applied to the position the move produced, whose source square
    * is empty. After undo the source square holds the moved piece, which
    * records it, and the destination holds the captured piece (recording it too) or is
    * empty; every other square is as it was. */
  lemma UndoBoardSquares(pos: Position, m: Move)
    requires WellFormed(pos) && MoveFits(pos, m) && m.from != m.to
    requires Cell(pos, m.from).None?
    requires m.pieceRemoved.Some? ==> m.pieceRemoved.value != m.pieceMoved
    ensures var q := UndoBoard(pos, m);
      Cell(q, m.from) == Some(m.pieceMoved) && SquareOf(q.store[m.pieceMoved]) == m.from &&
      Cell(q, m.to) == m.pieceRemoved &&
      (m.pieceRemoved.Some? ==> SquareOf(q.store[m.pieceRemoved.value]) == m.to) &&
      forall u | u != m.from && u != m.to :: Cell(q, u) == Cell(pos, u)
  {
    var p1 := RemovePiece(pos, m.to).0;
    AddPieceOutcome(p1, m.from, Some(m.pieceMoved), false);
    var p2 := AddPiece(p1, m.from, Some(m.pieceMoved), false).0;
    if m.pieceRemoved.Some? {
      AddPieceOutcome(p2, m.to, m.pieceRemoved, false);
    }
  }

  /** The removal as intended takes the restored piece off a duplicate-free
    * list and keeps every other captured piece, in order. */
  lemma RemoveCapturedMembers(captured: seq<nat>, removed: Option<nat>, j: nat)
    requires NoDup(captured)
    ensures j in RemoveCaptured(captured, removed) <==> j in captured && removed != Some(j)
    ensures IsSubsequence(RemoveCaptured(captured, removed), captured)
  {
    if removed.Some? {
      RemoveFirstMembers(captured, removed.value, j);
      RemoveFirstSubsequence(captured, removed.value);
    } else {
      SubsequenceRefl(captured);
    }
  }

  /** The as-written removal agrees with the intended one when no other
    * captured piece records the restored piece's row, column and flag. */
  lemma {:induction false} RemoveCapturedAgrees(store: seq<Piece>, captured: seq<nat>, x: nat)
    requires x < |store| && forall i | 0 <= i < |captured| :: captured[i] < |store|
    requires forall j | j in captured && j != x :: !PieceEquals(store[x], store[j])
    ensures RemoveCapturedAsWritten(store, captured, x) == RemoveCaptured(captured, Some(x))
  {
    if captured != [] && captured[0] != x {
      RemoveCapturedAgrees(store, captured[1..], x);
    }
  }

  /** Two pieces captured on the same square, the second being the piece the
    * undone move had captured: the as-written removal drops the first one,
    * which stays captured, and leaves the restored one on the list. */
  lemma RecaptureUndoDropsWrongPiece()
    ensures var a := NewPiece(Knight, 3, 4, White).(isCaptured := true);
      var b := NewPiece(Pawn, 3, 4, Black).(isCaptured := true);
      var mover := NewPiece(Bishop, 3, 4, White);
      var store := [mover, a, b];
      RemoveCapturedAsWritten(store, [1, 2], 2) == [2] &&
      RemoveCaptured([1, 2], Some(2)) == [1]
  {
  }
}
