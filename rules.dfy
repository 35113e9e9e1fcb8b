/** The game rules Board applies between moves: when undo is allowed, the
  * fifty-move draw, the draw for lack of mating material, and the end of
  * game test of checkEndOfGame. */
module Rules {
  import opened Wrappers
  import opened Pieces
  import opened Grid
  import opened Lists
  import opened Kings
  import opened Moves
  import opened Evaluation
  import opened Legality

  /** Board.canUndo, given the game mode, the player's colour, the length of
    * the move history and whether the last move was already undone. */
  function CanUndo(vsComputer: bool, twoPlayer: bool, playerColor: int, size: nat, moveUndone: bool): (r: bool)
    ensures r ==> size >= 1 && !moveUndone
    ensures r && vsComputer ==> size >= 2 && (size % 2 == 0 <==> playerColor == 1)
    ensures twoPlayer && !vsComputer ==> (r <==> size >= 1 && !moveUndone)
    ensures !vsComputer && !twoPlayer ==> !r
  {
    if vsComputer && size > 0 && !moveUndone then
      if playerColor == 1 then size % 2 == 0 else size > 1 && size % 2 == 1
    else if twoPlayer then size > 0 && !moveUndone
    else false
  }

  /** A move that neither moved a pawn nor captured a piece. */
  predicate Quiet(m: Move)
  {
    !m.pawnMoved && !m.pieceCaptured
  }

  /** Board.canDrawGame: the game is still on and the last hundred moves
    * (fifty by each side) were all quiet. */
  predicate CanDrawGame(gameOver: bool, moves: seq<Move>)
  {
    !gameOver && |moves| >= 100 && forall i | |moves| - 100 <= i < |moves| :: Quiet(moves[i])
  }

  /** A pawn move or a capture among the last hundred moves rules the draw
    * out, and it stays ruled out while fewer than a hundred moves follow it. */
  lemma NoisyMoveBlocksDraw(gameOver: bool, before: seq<Move>, m: Move, after: seq<Move>)
    requires !Quiet(m) && |after| < 100
    ensures !CanDrawGame(gameOver, before + [m] + after)
  {
    var moves := before + [m] + after;
    if |moves| >= 100 {
      assert moves[|before|] == m;
    }
  }

  /** Appending a quiet move to a drawable history of the game keeps it drawable. */
  lemma QuietMoveKeepsDraw(moves: seq<Move>, m: Move)
    requires CanDrawGame(false, moves) && Quiet(m)
    ensures CanDrawGame(false, moves + [m])
  {
    var moves' := moves + [m];
    forall i | |moves'| - 100 <= i < |moves'|
      ensures Quiet(moves'[i])
    {
      if i < |moves| {
        assert moves'[i] == moves[i];
      }
    }
  }

  /** The kinds of the pieces of one side (colour 0 when white, any other
    * colour otherwise) on the squares before (row, col), in row-major order. */
  function SideKinds(pos: Position, row: int, col: int, white: bool): seq<Kind>
    requires 0 <= row <= 8 && 0 <= col <= 8
    decreases row, col, pos
  {
    if col == 0 then
      if row == 0 then [] else SideKinds(pos, row - 1, 8, white)
    else
      var s := Sq(row, col - 1);
      SideKinds(pos, row, col - 1, white) +
      (if ContainsPiece(pos, s) && (At(pos, s).value.color == White) == white then [At(pos, s).value.kind] else [])
  }

  /** Some Pawn stands on a square before (row, col). */
  predicate PawnBefore(pos: Position, row: int, col: int)
  {
    exists r, c | 0 <= r < 8 && 0 <= c < 8 && !NotBefore(r, c, row, col) ::
      ContainsPiece(pos, Sq(r, c)) && At(pos, Sq(r, c)).value.kind == Pawn
  }

  /** The classification at the end of checkEndOfGame, over the two lists of
    * non-pawn pieces in the order the board scan found them. */
  function InsufficientLists(white: seq<Kind>, black: seq<Kind>): bool
  {
    if |white| == 1 && white[0] == King && |black| == 1 && black[0] == King then true
    else if |white| == 1 && white[0] == King && |black| == 2 then
      (black[0] == King && (black[1] == Knight || black[1] == Bishop)) ||
      (black[1] == King && (black[0] == Knight || black[0] == Bishop))
    else if |black| == 1 && black[0] == King && |white| == 2 then
      (white[0] == King && (white[1] == Knight || white[1] == Bishop)) ||
      (white[1] == King && (white[0] == Knight || white[0] == Bishop))
    else if |black| == 2 && |white| == 2 then
      if white[0] == Bishop then
        white[1] == King &&
        (if black[0] == Bishop then black[1] == King else black[1] == Bishop && black[0] == King)
      else if white[1] == Bishop then
        white[0] == King &&
        (if black[0] == Bishop then black[1] == King else black[1] == Bishop && black[0] == King)
      else false
    else false
  }

  /** The draws for lack of mating material the engine recognises, stated on
    * the multisets of pieces: King against King, King against King and one
    * Knight or Bishop (either way round), and King and Bishop against King
    * and Bishop. */
  predicate CannotMate(white: multiset<Kind>, black: multiset<Kind>)
  {
    var k := multiset{King};
    var kn := multiset{King, Knight};
    var kb := multiset{King, Bishop};
    (white == k && black == k) ||
    (white == k && (black == kn || black == kb)) ||
    ((white == kn || white == kb) && black == k) ||
    (white == kb && black == kb)
  }

  lemma PairMultiset(s: seq<Kind>, x: Kind, y: Kind)
    requires |s| == 2 && x != y
    ensures multiset(s) == multiset{x, y} <==> (s[0] == x && s[1] == y) || (s[0] == y && s[1] == x)
  {
    assert s == [s[0], s[1]];
    if multiset(s) == multiset{x, y} {
      assert s[0] in multiset(s) && s[1] in multiset(s);
    }
  }

  lemma SizeOfMultiset(s: seq<Kind>)
    ensures |multiset(s)| == |s|
    ensures |s| == 1 ==> multiset(s) == multiset{s[0]}
  {
    if |s| == 1 {
      assert s == [s[0]];
    }
  }

  /** The three shapes a side's pieces can take in a material draw, read off
    * the list in either order. */
  lemma SideShape(s: seq<Kind>)
    ensures multiset(s) == multiset{King} <==> |s| == 1 && s[0] == King
    ensures multiset(s) == multiset{King, Knight} <==>
              |s| == 2 && ((s[0] == King && s[1] == Knight) || (s[0] == Knight && s[1] == King))
    ensures multiset(s) == multiset{King, Bishop} <==>
              |s| == 2 && ((s[0] == King && s[1] == Bishop) || (s[0] == Bishop && s[1] == King))
  {
    SizeOfMultiset(s);
    if |s| == 2 {
      PairMultiset(s, King, Knight);
      PairMultiset(s, King, Bishop);
    }
  }

  /** The nested tests of checkEndOfGame recognise exactly the material
    * draws CannotMate lists, whatever order the scan found the pieces in. */
  lemma InsufficientMeaning(white: seq<Kind>, black: seq<Kind>)
    ensures InsufficientLists(white, black) <==> CannotMate(multiset(white), multiset(black))
  {
    SideShape(white);
    SideShape(black);
  }

  /** The material draw: no Pawn anywhere, and the pieces of the two sides
    * form one of the recognised pairs. */
  predicate InsufficientMaterial(pos: Position)
  {
    !PawnBefore(pos, 8, 0) && InsufficientLists(SideKinds(pos, 8, 0, true), SideKinds(pos, 8, 0, false))
  }

  predicate KingOfColorAt(pos: Position, s: Sq, color: int)
  {
    ContainsPiece(pos, s) && At(pos, s).value.kind == King && At(pos, s).value.color == color
  }

  /** The first King of the given colour in row-major order from (row, col) on. */
  function FirstKingFrom(pos: Position, color: int, row: int, col: int): (r: Option<nat>)
    requires WellFormed(pos) && 0 <= row <= 8 && 0 <= col <= 8
    ensures r.Some? ==> r.value < |pos.store| && pos.store[r.value].kind == King && pos.store[r.value].color == color
    decreases 8 - row, 8 - col, pos
  {
    if row == 8 then None
    else if col == 8 then FirstKingFrom(pos, color, row + 1, 0)
    else if KingOfColorAt(pos, Sq(row, col), color) then Cell(pos, Sq(row, col))
    else FirstKingFrom(pos, color, row, col + 1)
  }

  /** The search finds a King exactly when one of that colour stands on a
    * square from (row, col) on. */
  lemma {:induction false} FirstKingExists(pos: Position, color: int, row: int, col: int)
    requires WellFormed(pos) && 0 <= row <= 8 && 0 <= col <= 8
    ensures FirstKingFrom(pos, color, row, col).Some? <==>
              exists r, c | 0 <= r < 8 && 0 <= c < 8 && NotBefore(r, c, row, col) :: KingOfColorAt(pos, Sq(r, c), color)
    decreases 8 - row, 8 - col
  {
    if row < 8 && col == 8 {
      FirstKingExists(pos, color, row + 1, 0);
      assert forall r, c | 0 <= r < 8 && 0 <= c < 8 :: NotBefore(r, c, row, col) == NotBefore(r, c, row + 1, 0);
    } else if row < 8 {
      FirstKingExists(pos, color, row, col + 1);
      if KingOfColorAt(pos, Sq(row, col), color) {
        assert NotBefore(row, col, row, col);
      } else {
        assert forall r, c | 0 <= r < 8 && 0 <= c < 8 && (r, c) != (row, col) ::
          NotBefore(r, c, row, col) == NotBefore(r, c, row, col + 1);
      }
    }
  }

  /** The moves of the piece on s that survive handleChecks: its generated
    * moves, filtered, and the board the generation and the probes leave
    * behind. */
  function LegalMoves(pos: Position, s: Sq, twoPlayer: bool): (r: (seq<Sq>, Position))
    requires Valid(pos) && Cell(pos, s).Some?
    ensures Valid(r.1) && |r.1.store| == |pos.store| && Cell(r.1, s) == Cell(pos, s)
    ensures forall u | u in r.0 :: InBounds(u)
    ensures IsSubsequence(r.0, MovesOf(pos, Cell(pos, s).value, twoPlayer).0)
  {
    PlacedFromCell(pos, s);
    var id := Cell(pos, s).value;
    var (moves, q) := MovesOf(pos, id, twoPlayer);
    forall t | t in moves ensures InBounds(t) {
      MovesOnBoard(pos, id, twoPlayer, t);
    }
    var r := HandleChecks(q, s, id, moves, twoPlayer);
    forall u | u in r.0 ensures InBounds(u) {
      SubsequenceMembers(r.0, moves, u);
    }
    r
  }

  /** The first loop of checkEndOfGame from (row, col) on: each piece of the
    * colour to move has its moves generated and filtered by handleChecks
    * until one has a move left. The board is handed on because the probes
    * rewrite pawn flags. */
  function MobilityFrom(pos: Position, color: int, row: int, col: int, twoPlayer: bool): (r: (bool, Position))
    requires Valid(pos) && 0 <= row <= 8 && 0 <= col <= 8
    ensures Valid(r.1) && |r.1.store| == |pos.store|
    decreases 8 - row, 8 - col, pos
  {
    if row == 8 then (false, pos)
    else if col == 8 then MobilityFrom(pos, color, row + 1, 0, twoPlayer)
    else
      var s := Sq(row, col);
      if ContainsPiece(pos, s) && At(pos, s).value.color == color then
        var (legal, q) := LegalMoves(pos, s, twoPlayer);
        if legal != [] then (true, q) else MobilityFrom(q, color, row, col + 1, twoPlayer)
      else MobilityFrom(pos, color, row, col + 1, twoPlayer)
  }

  /** The colour whose turn it is: 1 when turn is -1, 0 otherwise. */
  function TurnColor(turn: int): int
  {
    if turn == -1 then Black else White
  }

  /** checkEndOfGame: the new gameOver flag, the new endGameType and the
    * board the probes leave behind. A side that cannot move is checkmated
    * when its first King is in check and stalemated otherwise (endGameType
    * is left alone when it has no King); a side that can move draws for
    * lack of material or plays on. */
  function EndOfGame(pos: Position, turn: int, endGameType: Option<EndGame>, twoPlayer: bool): (r: (bool, Option<EndGame>, Position))
    requires Valid(pos)
    ensures Valid(r.2) && |r.2.store| == |pos.store|
  {
    var color := TurnColor(turn);
    var (canMove, q) := MobilityFrom(pos, color, 0, 0, twoPlayer);
    if !canMove then
      match FirstKingFrom(q, color, 0, 0)
      case Some(id) => (true, Some(if q.store[id].inCheck then Checkmate else Stalemate), q)
      case None => (true, endGameType, q)
    else if InsufficientMaterial(q) then (true, Some(DrawByMaterial), q)
    else (false, None, q)
  }

  /** The outcomes of checkEndOfGame: the game goes on exactly when the side
    * to move can move and the material suffices, with endGameType cleared;
    * a checkmate or stalemate is declared only when the side cannot move,
    * by the check state of its King; a material draw only when it can move
    * and no Pawn is left. */
  lemma EndOfGameOutcomes(pos: Position, turn: int, endGameType: Option<EndGame>, twoPlayer: bool)
    requires Valid(pos)
    ensures var (over, kind, q) := EndOfGame(pos, turn, endGameType, twoPlayer);
      var (canMove, q0) := MobilityFrom(pos, TurnColor(turn), 0, 0, twoPlayer);
      q == q0 &&
      (!over <==> canMove && !InsufficientMaterial(q0)) &&
      (!over ==> kind.None?) &&
      ((kind == Some(Checkmate) || kind == Some(Stalemate)) && kind != endGameType ==> !canMove) &&
      (!canMove && FirstKingFrom(q0, TurnColor(turn), 0, 0).Some? ==>
         (kind == Some(Checkmate) <==> q0.store[FirstKingFrom(q0, TurnColor(turn), 0, 0).value].inCheck)) &&
      (kind == Some(DrawByMaterial) && kind != endGameType ==> canMove && !PawnBefore(q0, 8, 0))
  {
  }
}
