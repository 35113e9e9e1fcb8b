/** Board: the game state and the operations the window triggers. The
  * position (squares and pieces) is a value the methods replace in place;
  * the move history, the captured pieces, whose turn it is, the end-of-game
  * flags, the selection of the player and the moves the computer search
  * chose are fields of the class. */
module Chess {
  import opened Wrappers
  import opened Pieces
  import opened Grid
  import opened Lists
  import opened Probes
  import opened Kings
  import opened Moves
  import opened Evaluation
  import opened Legality
  import opened Rules
  import opened Setup
  import opened Play
  import opened Search
  import opened Minimax
  import opened Commit
  import opened Engine

  /** The piece on s may be picked up: in a two-player game it has the
    * colour whose turn it is; against the computer it is the player's turn
    * and the piece has the player's colour. */
  predicate Selectable(pos: Position, s: Sq, turn: int, twoPlayer: bool, vsComputer: bool, playerColor: int)
  {
    ContainsPiece(pos, s) &&
    var color := At(pos, s).value.color;
    (twoPlayer && ((turn == 1 && color == White) || (turn == -1 && color == Black))) ||
    (vsComputer && turn == playerColor &&
     ((playerColor == 1 && color == White) || (playerColor == -1 && color == Black)))
  }

  /** The references the game keeps point into the store of a valid position
    * and onto the grid's squares. */
  predicate GameInv(pos: Position, moves: seq<Move>, captured: seq<nat>, selected: Option<nat>, sourceSquare: Sq,
                    movesGenerated: seq<Sq>, maxiBest: Option<Choice>, miniBest: Option<Choice>)
  {
    Valid(pos) &&
    (forall i | 0 <= i < |moves| :: MoveFits(pos, moves[i])) &&
    (forall i | 0 <= i < |captured| :: captured[i] < |pos.store|) &&
    (selected.Some? ==> selected.value < |pos.store|) &&
    InBounds(sourceSquare) &&
    (forall i | 0 <= i < |movesGenerated| :: InBounds(movesGenerated[i])) &&
    ChoiceFits(pos, maxiBest) && ChoiceFits(pos, miniBest)
  }

  /** At most one game mode; against the computer a search depth of two to
    * five plies and a player colour of 1 or -1. */
  predicate ModeInv(vsComputer: bool, twoPlayer: bool, aiDifficulty: nat, playerColor: int)
  {
    !(vsComputer && twoPlayer) &&
    (vsComputer ==> 2 <= aiDifficulty <= 5 && (playerColor == 1 || playerColor == -1))
  }

  /** handleChecks through generateMoves on the piece on s, when it is
    * selectable: the new position, selection, source square and moves on
    * offer. */
  method SelectOn(pos: Position, moves: seq<Move>, captured: seq<nat>, selected: Option<nat>, sourceSquare: Sq,
                  movesGenerated: seq<Sq>, maxiBest: Option<Choice>, miniBest: Option<Choice>,
                  turn: int, twoPlayer: bool, vsComputer: bool, playerColor: int, s: Sq)
    returns (pos': Position, selected': Option<nat>, sourceSquare': Sq, movesGenerated': seq<Sq>)
    requires GameInv(pos, moves, captured, selected, sourceSquare, movesGenerated, maxiBest, miniBest) && InBounds(s)
    ensures GameInv(pos', moves, captured, selected', sourceSquare', movesGenerated', maxiBest, miniBest)
    ensures !Selectable(pos, s, turn, twoPlayer, vsComputer, playerColor) ==>
              pos' == pos && selected' == selected && sourceSquare' == sourceSquare && movesGenerated' == movesGenerated
    ensures Selectable(pos, s, turn, twoPlayer, vsComputer, playerColor) ==>
              selected' == Cell(pos, s) && sourceSquare' == s &&
              pos.store[Cell(pos, s).value].color == TurnColor(turn) &&
              (movesGenerated', pos') == LegalMoves(pos, s, twoPlayer)
  {
    pos', selected', sourceSquare', movesGenerated' := pos, selected, sourceSquare, movesGenerated;
    if Selectable(pos, s, turn, twoPlayer, vsComputer, playerColor) {
      var id := Cell(pos, s).value;
      movesGenerated', pos' := LegalMovesScan(pos, s, twoPlayer);
      selected', sourceSquare' := Some(id), s;
    }
  }

  /** The captured list after a move that took `removed`, if anything. */
  function WithTaken(captured: seq<nat>, removed: Option<nat>): (r: seq<nat>)
    ensures |r| == |captured| + (if removed.Some? then 1 else 0) && r[..|captured|] == captured
    ensures removed.Some? ==> r[|captured|] == removed.value
  {
    if removed.Some? then captured + [removed.value] else captured
  }

  /** The history and the captured list point into the store of a valid
    * position. */
  predicate Refs(pos: Position, moves: seq<Move>, captured: seq<nat>)
  {
    Valid(pos) &&
    (forall i | 0 <= i < |moves| :: MoveFits(pos, moves[i])) &&
    (forall i | 0 <= i < |captured| :: captured[i] < |pos.store|)
  }

  /** A move and the pieces it took, recorded against a position whose
    * store only grew, keep the history and the captured list pointing into
    * the store. */
  lemma RefsRecord(pos: Position, moves: seq<Move>, captured: seq<nat>, pos': Position, m: Move, taken: seq<nat>)
    requires Refs(pos, moves, captured) && Valid(pos') && |pos'.store| >= |pos.store|
    requires MoveFits(pos', m) && forall i | 0 <= i < |taken| :: taken[i] < |pos'.store|
    ensures Refs(pos', moves + [m], captured + taken)
  {
    forall i | 0 <= i < |captured + taken| ensures (captured + taken)[i] < |pos'.store| {
      if i >= |captured| {
        assert (captured + taken)[i] == taken[i - |captured|];
      }
    }
  }

  /** The same, for the pieces a move took handed back one at a time. */
  lemma RefsTake(pos: Position, moves: seq<Move>, captured: seq<nat>, pos': Position, m: Move,
                 first: Option<nat>, second: Option<nat>)
    requires Refs(pos, moves, captured) && Valid(pos') && |pos'.store| >= |pos.store| && MoveFits(pos', m)
    requires first.Some? ==> first.value < |pos'.store|
    requires second.Some? ==> second.value < |pos'.store|
    ensures Refs(pos', moves + [m], WithTaken(WithTaken(captured, first), second))
  {
    var taken := (if first.Some? then [first.value] else []) + (if second.Some? then [second.value] else []);
    RefsRecord(pos, moves, captured, pos', m, taken);
    assert WithTaken(WithTaken(captured, first), second) == captured + taken;
  }

  /** A store that only grows keeps the selection and the search's choices
    * pointing into it. */
  lemma GameInvGrows(pos: Position, moves: seq<Move>, captured: seq<nat>, selected: Option<nat>, sourceSquare: Sq,
                     movesGenerated: seq<Sq>, maxiBest: Option<Choice>, miniBest: Option<Choice>,
                     pos': Position, moves': seq<Move>, captured': seq<nat>, maxi': Option<Choice>, mini': Option<Choice>)
    requires GameInv(pos, moves, captured, selected, sourceSquare, movesGenerated, maxiBest, miniBest)
    requires Refs(pos', moves', captured') && |pos'.store| >= |pos.store| && ChoiceFits(pos', maxi') && ChoiceFits(pos', mini')
    ensures GameInv(pos', moves', captured', selected, sourceSquare, movesGenerated, maxi', mini')
  {
  }

  /** makeComputerMove on the game's values: the board ComputerPlacement
    * leaves, the taken piece appended to the captured list and the move
    * appended to the history. */
  function ComputerCommit(pos: Position, moves: seq<Move>, captured: seq<nat>, c: Choice, twoPlayer: bool)
    : (r: (Position, seq<Move>, seq<nat>))
    requires Refs(pos, moves, captured) && c.piece.Some? && InBounds(c.source) && InBounds(c.target)
    requires Cell(pos, c.source) == c.piece
    ensures Refs(r.0, r.1, r.2) && |r.0.store| >= |pos.store|
  {
    var id := c.piece.value;
    PlacedFromCell(pos, c.source);
    var (q, removed) := ComputerPlacement(pos, c.source, c.target, twoPlayer);
    var m := NewMove(c.source, c.target, id, pos.store[id].kind, removed);
    var taken := if removed.Some? then [removed.value] else [];
    RefsRecord(pos, moves, captured, q, m, taken);
    assert WithTaken(captured, removed) == captured + taken;
    (q, moves + [m], WithTaken(captured, removed))
  }

  /** playComputer on the game's values: the side to move (Black when turn
    * is -1, White otherwise) searches depth plies in the widest window; the
    * search leaves the board it restored and its choices, and the move it
    * chose for its own side, if any, is committed by makeComputerMove. */
  function ComputerTurn(pos: Position, moves: seq<Move>, captured: seq<nat>, picks: Picks, depth: nat,
                        endGameType: Option<EndGame>, turn: int, twoPlayer: bool)
    : (r: (Position, seq<Move>, seq<nat>, Picks))
    requires Refs(pos, moves, captured) && PicksFit(pos, picks) && depth > 0
    ensures Refs(r.0, r.1, r.2) && PicksFit(r.0, r.3) && |r.0.store| >= |pos.store|
  {
    var white := turn != -1;
    var (_, q, p) := SearchValue(pos, white, MinInt, MaxInt, depth, endGameType, turn, picks);
    SearchValueResult(pos, white, MinInt, MaxInt, depth, endGameType, turn, picks);
    match Own(white, p)
    case None => (q, moves, captured, p)
    case Some(c) =>
      var (q', moves', captured') := ComputerCommit(q, moves, captured, c, twoPlayer);
      (q', moves', captured', p)
  }

  /** The computer's turn plays at most one move, and the move it plays is
    * the search's own choice: a piece of the side to move, taken from the
    * square it stood on before the search; the search's choices are kept,
    * and with no choice the history and the captured list stay as they
    * were. */
  lemma ComputerTurnMove(pos: Position, moves: seq<Move>, captured: seq<nat>, picks: Picks, depth: nat,
                         endGameType: Option<EndGame>, turn: int, twoPlayer: bool)
    requires Refs(pos, moves, captured) && PicksFit(pos, picks) && depth > 0
    ensures var r := ComputerTurn(pos, moves, captured, picks, depth, endGameType, turn, twoPlayer);
      var white := turn != -1;
      var p := SearchValue(pos, white, MinInt, MaxInt, depth, endGameType, turn, picks).2;
      r.3 == p &&
      (Own(white, p).None? ==> r.1 == moves && r.2 == captured) &&
      (Own(white, p).Some? ==>
         var c := Own(white, p).value;
         |r.1| == |moves| + 1 && r.1[..|moves|] == moves &&
         r.1[|moves|].from == c.source && r.1[|moves|].to == c.target && Some(r.1[|moves|].pieceMoved) == c.piece &&
         Cell(pos, c.source) == c.piece && pos.store[c.piece.value].color == SideColor(white))
  {
    SearchValueResult(pos, turn != -1, MinInt, MaxInt, depth, endGameType, turn, picks);
  }

  /** The commit path of movePiece on the game's values: the piece is lifted
    * (an en-passant victim taken in a two-player game), lands on `to`, the
    * pieces taken join the captured list in that order, and the move is
    * appended to the history. */
  function PlayerMove(pos: Position, moves: seq<Move>, captured: seq<nat>, from: Sq, to: Sq, id: nat, choice: int,
                      twoPlayer: bool)
    : (r: (Position, seq<Move>, seq<nat>))
    requires Refs(pos, moves, captured) && InBounds(from) && InBounds(to) && Cell(pos, from) == Some(id)
    ensures Refs(r.0, r.1, r.2) && |r.0.store| >= |pos.store|
  {
    PlacedFromCell(pos, from);
    var last := if |moves| > 0 then Some(moves[|moves| - 1].pieceMoved) else None;
    var (lifted, victim) := PlayerLift(pos, from, to, id, last, twoPlayer);
    var (landed, removed) := PlayerLand(lifted, from, to, id, choice, twoPlayer);
    var m := NewMove(from, to, id, pos.store[id].kind, removed);
    RefsTake(pos, moves, captured, landed, m, victim, removed);
    (landed, moves + [m], WithTaken(WithTaken(captured, victim), removed))
  }

  /** One pop of undo: the last move is taken back when it can be. Hands
    * back the board, the captured list, the shorter history and whether a
    * move was taken back. */
  function Pop(pos: Position, captured: seq<nat>, moves: seq<Move>): (r: (Position, seq<nat>, seq<Move>, bool))
    requires Refs(pos, moves, captured)
    ensures Refs(r.0, r.2, r.1) && |r.0.store| == |pos.store|
    ensures r.3 <==> |moves| > 0 && Undoable(pos, moves[|moves| - 1])
    ensures r.2 == if r.3 then moves[..|moves| - 1] else moves
  {
    if |moves| > 0 && Undoable(pos, moves[|moves| - 1]) then
      var m := moves[|moves| - 1];
      UndoValid(pos, m);
      var (p, c) := Undo(pos, captured, m);
      PopRefs(pos, captured, moves, p, c);
      (p, c, moves[..|moves| - 1], true)
    else (pos, captured, moves, false)
  }

  /** Taking a move back keeps the rest of the history and what is left of
    * the captured list pointing into the store. */
  lemma PopRefs(pos: Position, captured: seq<nat>, moves: seq<Move>, p: Position, c: seq<nat>)
    requires Refs(pos, moves, captured) && Valid(p) && |p.store| == |pos.store| && |moves| > 0
    requires forall j | j in c :: j in captured
    ensures Refs(p, moves[..|moves| - 1], c)
  {
    forall i | 0 <= i < |c| ensures c[i] < |p.store| {
      assert c[i] in captured;
    }
  }

  /** The pops of undo: the last move is taken back when it can be, and
    * against the computer the one before it too. Hands back the board, the
    * captured list, the history and how many moves were taken back. */
  function TakeBack(pos: Position, captured: seq<nat>, moves: seq<Move>, vsComputer: bool)
    : (r: (Position, seq<nat>, seq<Move>, nat))
    requires Refs(pos, moves, captured)
    ensures Refs(r.0, r.2, r.1) && |r.0.store| == |pos.store|
    ensures r.3 <= (if vsComputer then 2 else 1) && |r.2| == |moves| - r.3 && r.2 == moves[..|r.2|]
  {
    var (p1, c1, m1, done) := Pop(pos, captured, moves);
    if !done then (pos, captured, moves, 0)
    else if !vsComputer then (p1, c1, m1, 1)
    else
      var (p2, c2, m2, again) := Pop(p1, c1, m1);
      (p2, c2, m2, if again then 2 else 1)
  }

  /** The pops of undo, one UndoLast after the other. */
  method TakeBackMoves(pos: Position, captured: seq<nat>, moves: seq<Move>, vsComputer: bool)
    returns (pos': Position, captured': seq<nat>, moves': seq<Move>, undone: nat)
    requires Refs(pos, moves, captured)
    ensures (pos', captured', moves', undone) == TakeBack(pos, captured, moves, vsComputer)
  {
    var p1, c1, m1, done := UndoLast(pos, captured, moves);
    assert (p1, c1, m1, done) == Pop(pos, captured, moves);
    if !done {
      return pos, captured, moves, 0;
    }
    if !vsComputer {
      return p1, c1, m1, 1;
    }
    var p2, c2, m2, again := UndoLast(p1, c1, m1);
    assert (p2, c2, m2, again) == Pop(p1, c1, m1);
    pos', captured', moves', undone := p2, c2, m2, if again then 2 else 1;
  }

  /** makeComputerMove on the game's values, through PlaceComputerPiece. */
  method CommitComputerMove(pos: Position, moves: seq<Move>, captured: seq<nat>, c: Choice, twoPlayer: bool)
    returns (pos': Position, moves': seq<Move>, captured': seq<nat>)
    requires Refs(pos, moves, captured) && c.piece.Some? && InBounds(c.source) && InBounds(c.target)
    requires Cell(pos, c.source) == c.piece
    ensures Refs(pos', moves', captured') && |pos'.store| >= |pos.store|
    ensures (pos', moves', captured') == ComputerCommit(pos, moves, captured, c, twoPlayer)
  {
    var id := c.piece.value;
    var kind := pos.store[id].kind;
    var removed;
    pos', removed := PlaceComputerPiece(pos, c.source, c.target, id, twoPlayer);
    captured' := WithTaken(captured, removed);
    moves' := moves + [NewMove(c.source, c.target, id, kind, removed)];
    assert (pos', moves', captured') == ComputerCommit(pos, moves, captured, c, twoPlayer);
  }

  /** playComputer on the game's values: AlphaBeta, then makeComputerMove
    * on the choice of the side that searched. */
  method PlayComputerTurn(pos: Position, moves: seq<Move>, captured: seq<nat>, picks: Picks, depth: nat,
                          endGameType: Option<EndGame>, turn: int, twoPlayer: bool)
    returns (pos': Position, moves': seq<Move>, captured': seq<nat>, picks': Picks)
    requires Refs(pos, moves, captured) && PicksFit(pos, picks) && depth > 0
    ensures Refs(pos', moves', captured') && PicksFit(pos', picks') && |pos'.store| >= |pos.store|
    ensures (pos', moves', captured', picks') == ComputerTurn(pos, moves, captured, picks, depth, endGameType, turn, twoPlayer)
  {
    var white := turn != -1;
    var score, q;
    score, q, picks' := AlphaBeta(pos, white, MinInt, MaxInt, depth, endGameType, turn, picks);
    SearchValueResult(pos, white, MinInt, MaxInt, depth, endGameType, turn, picks);
    pos', moves', captured' := q, moves, captured;
    var choice := Own(white, picks');
    if choice.Some? {
      pos', moves', captured' := CommitComputerMove(q, moves, captured, choice.value, twoPlayer);
    }
  }

  /** The commit path of movePiece, LiftPlayerPiece then LandPlayerPiece. */
  method CommitPlayerMove(pos: Position, moves: seq<Move>, captured: seq<nat>, from: Sq, to: Sq, id: nat, choice: int,
                          twoPlayer: bool)
    returns (pos': Position, moves': seq<Move>, captured': seq<nat>)
    requires Refs(pos, moves, captured) && InBounds(from) && InBounds(to) && Cell(pos, from) == Some(id)
    ensures Refs(pos', moves', captured') && |pos'.store| >= |pos.store|
    ensures (pos', moves', captured') == PlayerMove(pos, moves, captured, from, to, id, choice, twoPlayer)
  {
    var kind := pos.store[id].kind;
    var last := if |moves| > 0 then Some(moves[|moves| - 1].pieceMoved) else None;
    var lifted, victim := LiftPlayerPiece(pos, from, to, id, last, twoPlayer);
    var landed, removed := LandPlayerPiece(lifted, from, to, id, choice, twoPlayer);
    pos' := landed;
    captured' := captured;
    if victim.Some? {
      captured' := captured' + [victim.value];
    }
    if removed.Some? {
      captured' := captured' + [removed.value];
    }
    moves' := moves + [NewMove(from, to, id, kind, removed)];
    RefsTake(pos, moves, captured, landed, NewMove(from, to, id, kind, removed), victim, removed);
  }

  /** A player's move against the computer, then the computer's answer:
    * PlayerMove's values, and ComputerTurn's on them with the turn passed
    * to the computer. */
  method AnswerPlayerMove(pos: Position, moves: seq<Move>, captured: seq<nat>, from: Sq, to: Sq, id: nat, choice: int,
                          picks: Picks, turn: int, depth: nat, endGameType: Option<EndGame>, twoPlayer: bool)
    returns (p: Position, m: seq<Move>, k: seq<nat>, pos': Position, moves': seq<Move>, captured': seq<nat>,
             picks': Picks)
    requires Refs(pos, moves, captured) && InBounds(from) && InBounds(to) && Cell(pos, from) == Some(id)
    requires PicksFit(pos, picks) && depth > 0
    ensures (p, m, k) == PlayerMove(pos, moves, captured, from, to, id, choice, twoPlayer)
    ensures Refs(p, m, k) && PicksFit(p, picks)
    ensures (pos', moves', captured', picks') ==
              ComputerTurn(p, m, k, picks, depth, endGameType, turn, twoPlayer)
    ensures Refs(pos', moves', captured') && PicksFit(pos', picks') && |pos'.store| >= |pos.store|
  {
    p, m, k := CommitPlayerMove(pos, moves, captured, from, to, id, choice, twoPlayer);
    pos', moves', captured', picks' := PlayComputerTurn(p, m, k, picks, depth, endGameType, turn, twoPlayer);
  }

  class Board {
    var pos: Position
    var turn: int
    var moves: seq<Move>
    var captured: seq<nat>
    var gameOver: bool
    var endGameType: Option<EndGame>
    var moveUndone: bool
    var drawCalled: bool
    var playerMoveMade: bool
    var vsComputer: bool
    var twoPlayer: bool
    var playerColor: int
    var aiDifficulty: nat
    var maxiBest: Option<Choice>
    var miniBest: Option<Choice>
    var selected: Option<nat>
    var sourceSquare: Sq
    var movesGenerated: seq<Sq>

    /** The position is valid, and every reference the game keeps (moves,
      * captured pieces, the selection, the search's choices) points into
      * the store and onto the grid's squares. */
    predicate Inv()
      reads this
    {
      GameInv(pos, moves, captured, selected, sourceSquare, movesGenerated, maxiBest, miniBest) &&
      ModeInv(vsComputer, twoPlayer, aiDifficulty, playerColor)
    }

    /** The board of the main screen: no piece anywhere, no game mode
      * chosen, White to move. */
    constructor()
      ensures Inv()
      ensures pos.store == [] && forall s | InBounds(s) :: Cell(pos, s).None?
      ensures turn == 1 && moves == [] && captured == [] && !vsComputer && !twoPlayer
      ensures !gameOver && endGameType.None? && !moveUndone && !drawCalled && !playerMoveMade
      ensures maxiBest.None? && miniBest.None? && selected.None? && movesGenerated == []
    {
      pos := Position(seq(8, r => seq(8, c => None)), []);
      turn := 1;
      moves := [];
      captured := [];
      gameOver := false;
      endGameType := None;
      moveUndone := false;
      drawCalled := false;
      playerMoveMade := false;
      vsComputer := false;
      twoPlayer := false;
      playerColor := 1;
      aiDifficulty := 0;
      maxiBest := None;
      miniBest := None;
      selected := None;
      sourceSquare := Sq(0, 0);
      movesGenerated := [];
    }

    /** The flags newGame clears: White to move, no history, no captured
      * pieces, no end of game, no search choices. */
    method ClearGame()
      modifies this`turn, this`moves, this`captured, this`gameOver, this`playerMoveMade,
               this`endGameType, this`moveUndone, this`drawCalled, this`maxiBest, this`miniBest
      ensures turn == 1 && moves == [] && captured == [] && !gameOver && !playerMoveMade
      ensures endGameType.None? && !moveUndone && !drawCalled && maxiBest.None? && miniBest.None?
    {
      turn := 1;
      moves := [];
      captured := [];
      gameOver := false;
      playerMoveMade := false;
      endGameType := None;
      moveUndone := false;
      drawCalled := false;
      miniBest := None;
      maxiBest := None;
    }

    /** newGame: the flags cleared and 32 new pieces on their starting
      * squares (the pieces of the last game stay in the store, off the
      * grid). The selection is left alone. */
    method NewGame()
      requires Inv()
      modifies this`pos, this`turn, this`moves, this`captured, this`gameOver, this`playerMoveMade,
               this`endGameType, this`moveUndone, this`drawCalled, this`maxiBest, this`miniBest
      ensures Inv()
      ensures pos == StartPosition(old(pos.store))
      ensures turn == 1 && moves == [] && captured == [] && !gameOver && !playerMoveMade
      ensures endGameType.None? && !moveUndone && !drawCalled && maxiBest.None? && miniBest.None?
      ensures selected == old(selected) && sourceSquare == old(sourceSquare) && movesGenerated == old(movesGenerated)
      ensures twoPlayer == old(twoPlayer) && vsComputer == old(vsComputer) &&
              aiDifficulty == old(aiDifficulty) && playerColor == old(playerColor)
    {
      ClearGame();
      pos := StartPosition(pos.store);
    }

    /** evaluate: the material balance (White's pieces count for, Black's
      * against), replaced by the mate score when the game is a checkmate. */
    method Evaluate() returns (score: int)
      requires Valid(pos)
      ensures score == Evaluation.Evaluate(pos, endGameType, turn)
    {
      score := EvaluateBoard(pos, endGameType, turn);
    }

    /** canDrawGame: the fifty-move rule, read backwards over the last
      * hundred moves. */
    method CanDrawGame() returns (r: bool)
      ensures r == Rules.CanDrawGame(gameOver, moves)
    {
      if gameOver {
        return false;
      }
      if |moves| >= 100 {
        var checkTill := |moves| - 100;
        var canDraw := true;
        var move := |moves| - 1;
        while move >= checkTill && canDraw
          invariant checkTill - 1 <= move < |moves|
          invariant canDraw <==> forall i | move < i < |moves| :: Quiet(moves[i])
        {
          if moves[move].pawnMoved || moves[move].pieceCaptured {
            canDraw := false;
          }
          move := move - 1;
        }
        if canDraw {
          return true;
        }
      }
      return false;
    }

    /** drawGame: a drawable game ends as a declared draw; otherwise nothing
      * changes. */
    method DrawGame()
      modifies this`gameOver, this`drawCalled, this`endGameType
      ensures old(Rules.CanDrawGame(gameOver, moves)) ==> gameOver && drawCalled && endGameType == Some(DrawDeclared)
      ensures !old(Rules.CanDrawGame(gameOver, moves)) ==>
                gameOver == old(gameOver) && drawCalled == old(drawCalled) && endGameType == old(endGameType)
    {
      var can := CanDrawGame();
      if can {
        gameOver := true;
        drawCalled := true;
        endGameType := Some(DrawDeclared);
      }
    }

    /** handleChecks: every generated move is probed (the piece put on the
      * target, its square emptied), the move is refused once for every
      * attack on a King of its colour the scan finds, the board is
      * restored, and the refused moves are removed from the list. */
    method HandleChecks(generated: seq<Sq>, source: Sq, id: nat) returns (legal: seq<Sq>)
      requires Valid(pos) && InBounds(source) && Cell(pos, source) == Some(id)
      requires forall i | 0 <= i < |generated| :: InBounds(generated[i])
      modifies this`pos
      ensures (legal, pos) == Legality.HandleChecks(old(pos), source, id, generated, twoPlayer)
    {
      legal, pos := HandleChecksScan(pos, source, id, generated, twoPlayer);
    }

    /** checkEndOfGame on the current position. */
    method CheckEndOfGame()
      requires Inv()
      modifies this`pos, this`gameOver, this`endGameType
      ensures Inv()
      ensures (gameOver, endGameType, pos) == EndOfGame(old(pos), turn, old(endGameType), twoPlayer)
    {
      gameOver, endGameType, pos := EndOfGameScan(pos, turn, endGameType, twoPlayer);
    }

    /** The two-player button: a new game between two players. */
    method StartTwoPlayer()
      requires Inv()
      modifies this`pos, this`turn, this`moves, this`captured, this`gameOver, this`playerMoveMade,
               this`endGameType, this`moveUndone, this`drawCalled, this`maxiBest, this`miniBest,
               this`twoPlayer, this`vsComputer
      ensures Inv() && twoPlayer && !vsComputer && turn == 1 && moves == []
      ensures pos == StartPosition(old(pos.store))
      ensures captured == [] && !gameOver && !playerMoveMade && endGameType.None? && !moveUndone && !drawCalled
      ensures maxiBest.None? && miniBest.None?
      ensures selected == old(selected) && sourceSquare == old(sourceSquare) && movesGenerated == old(movesGenerated)
    {
      NewGame();
      twoPlayer := true;
      vsComputer := false;
    }

    /** The difficulty and colour screens: a new game against the computer,
      * searching difficulty plies; when the player takes Black the computer
      * opens as White. */
    method StartVsComputer(color: int, difficulty: nat)
      requires Inv() && (color == 1 || color == -1) && 2 <= difficulty <= 5
      modifies this`pos, this`turn, this`moves, this`captured, this`gameOver, this`playerMoveMade,
               this`endGameType, this`moveUndone, this`drawCalled, this`maxiBest, this`miniBest,
               this`twoPlayer, this`vsComputer, this`aiDifficulty, this`playerColor
      ensures Inv() && vsComputer && !twoPlayer && playerColor == color && aiDifficulty == difficulty
      ensures !gameOver && endGameType.None? && !moveUndone && !drawCalled && !playerMoveMade
      ensures selected == old(selected) && sourceSquare == old(sourceSquare) && movesGenerated == old(movesGenerated)
      ensures color == 1 ==> pos == StartPosition(old(pos.store)) && turn == 1 && moves == []
      ensures color == 1 ==> captured == [] && maxiBest.None? && miniBest.None?
      ensures color == -1 ==>
                turn == -1 &&
                (pos, moves, captured, Picks(maxiBest, miniBest)) ==
                  ComputerTurn(StartPosition(old(pos.store)), [], [], Picks(None, None), difficulty, None, 1, false)
    {
      aiDifficulty := difficulty;
      playerColor := color;
      vsComputer := true;
      twoPlayer := false;
      NewGame();
      if color == -1 {
        assert pos == StartPosition(old(pos.store)) && moves == [] && captured == [];
        assert maxiBest == None && miniBest == None && endGameType == None;
        assert aiDifficulty == difficulty && turn == 1 && !twoPlayer;
        PlayComputer();
      }
    }

    /** Replaces the position, the history and the captured list by values
      * that keep the references valid. */
    method SetGame(p: Position, m: seq<Move>, k: seq<nat>)
      requires ModeInv(vsComputer, twoPlayer, aiDifficulty, playerColor)
      requires GameInv(p, m, k, selected, sourceSquare, movesGenerated, maxiBest, miniBest)
      modifies this`pos, this`moves, this`captured
      ensures Inv() && pos == p && moves == m && captured == k
    {
      pos, moves, captured := p, m, k;
    }

    /** Replaces the position and the search's choices by values that keep
      * the references valid. */
    method SetSearch(p: Position, maxi: Option<Choice>, mini: Option<Choice>)
      requires ModeInv(vsComputer, twoPlayer, aiDifficulty, playerColor)
      requires GameInv(p, moves, captured, selected, sourceSquare, movesGenerated, maxi, mini)
      modifies this`pos, this`maxiBest, this`miniBest
      ensures Inv() && pos == p && maxiBest == maxi && miniBest == mini
    {
      pos, maxiBest, miniBest := p, maxi, mini;
    }

    /** makeComputerMove: the chosen piece leaves its square and lands on
      * the target (see ComputerPlacement), the piece it captures joins the
      * captured list, and the move is appended to the history. */
    method MakeComputerMove(c: Choice)
      requires Inv() && c.piece.Some? && InBounds(c.source) && InBounds(c.target)
      requires Cell(pos, c.source) == c.piece
      modifies this`pos, this`moves, this`captured
      ensures Inv() && |pos.store| >= old(|pos.store|)
      ensures (pos, moves, captured) == ComputerCommit(old(pos), old(moves), old(captured), c, twoPlayer)
    {
      var p, m, k := CommitComputerMove(pos, moves, captured, c, twoPlayer);
      GameInvGrows(pos, moves, captured, selected, sourceSquare, movesGenerated, maxiBest, miniBest,
                   p, m, k, maxiBest, miniBest);
      SetGame(p, m, k);
    }

    /** playComputer: the side to move (Black when turn is -1, White
      * otherwise) searches aiDifficulty plies in the widest window, plays
      * the move the search chose, and hands the turn back to the player. */
    method PlayComputer()
      requires Inv() && vsComputer
      modifies this`pos, this`maxiBest, this`miniBest, this`moves, this`captured, this`turn, this`playerMoveMade
      ensures Inv() && turn == -old(turn) && !playerMoveMade && moveUndone == old(moveUndone)
      ensures selected == old(selected) && sourceSquare == old(sourceSquare) && movesGenerated == old(movesGenerated)
      ensures gameOver == old(gameOver) && endGameType == old(endGameType) && drawCalled == old(drawCalled)
      ensures var r := ComputerTurn(old(pos), old(moves), old(captured), Picks(old(maxiBest), old(miniBest)),
                                    old(aiDifficulty), old(endGameType), old(turn), old(twoPlayer));
              pos == r.0 && moves == r.1 && captured == r.2 && maxiBest == r.3.maxi && miniBest == r.3.mini
    {
      var p, m, k, picks :=
        PlayComputerTurn(pos, moves, captured, Picks(maxiBest, miniBest), aiDifficulty, endGameType, turn, twoPlayer);
      GameInvGrows(pos, moves, captured, selected, sourceSquare, movesGenerated, maxiBest, miniBest, p, m, k,
                   picks.maxi, picks.mini);
      SetAfterTurn(p, m, k, picks.maxi, picks.mini);
      PassTurn(-turn);
    }

    /** The position, history, captured list and search choices playComputer
      * replaces, set at once. */
    method SetAfterTurn(p: Position, m: seq<Move>, k: seq<nat>, maxi: Option<Choice>, mini: Option<Choice>)
      requires ModeInv(vsComputer, twoPlayer, aiDifficulty, playerColor)
      requires GameInv(p, m, k, selected, sourceSquare, movesGenerated, maxi, mini)
      modifies this`pos, this`maxiBest, this`miniBest, this`moves, this`captured
      ensures Inv() && pos == p && moves == m && captured == k && maxiBest == maxi && miniBest == mini
      ensures turn == old(turn) && playerMoveMade == old(playerMoveMade) && moveUndone == old(moveUndone)
      ensures selected == old(selected) && sourceSquare == old(sourceSquare) && movesGenerated == old(movesGenerated)
      ensures gameOver == old(gameOver) && endGameType == old(endGameType) && drawCalled == old(drawCalled)
    {
      pos, moves, captured, maxiBest, miniBest := p, m, k, maxi, mini;
    }

    /** The end of playComputer: the turn passes and no player move is
      * pending. */
    method PassTurn(t: int)
      requires Inv()
      modifies this`turn, this`playerMoveMade
      ensures Inv() && turn == t && !playerMoveMade
    {
      turn := t;
      playerMoveMade := false;
    }

    /** A click on s with no piece selected: a selectable piece becomes the
      * selection, s the source square, and its moves left by handleChecks
      * the moves on offer; any other click changes nothing. */
    method SelectPiece(s: Sq)
      requires Inv() && InBounds(s) && selected.None?
      modifies this`pos, this`selected, this`sourceSquare, this`movesGenerated
      ensures Inv()
      ensures !old(Selectable(pos, s, turn, twoPlayer, vsComputer, playerColor)) ==>
                pos == old(pos) && selected.None? && sourceSquare == old(sourceSquare) &&
                movesGenerated == old(movesGenerated)
      ensures old(Selectable(pos, s, turn, twoPlayer, vsComputer, playerColor)) ==>
                selected == old(Cell(pos, s)) && sourceSquare == s &&
                old(pos.store[Cell(pos, s).value].color) == TurnColor(turn) &&
                (movesGenerated, pos) == LegalMoves(old(pos), s, twoPlayer)
      ensures moves == old(moves) && captured == old(captured) && turn == old(turn) && twoPlayer == old(twoPlayer)
    {
      var p, sel, src, gen :=
        SelectOn(pos, moves, captured, selected, sourceSquare, movesGenerated, maxiBest, miniBest,
                 turn, twoPlayer, vsComputer, playerColor, s);
      assert GameInv(p, moves, captured, sel, src, gen, maxiBest, miniBest);
      pos, selected, sourceSquare, movesGenerated := p, sel, src, gen;
    }

    /** A click on `to` with a piece selected: when `to` is one of the moves
      * on offer, the piece is lifted from its square, the turn passes, the
      * piece lands on `to` (promoting by choice), the pieces it takes join
      * the captured list, and the move is appended to the history. The
      * selection is cleared in every case. Hands back whether the move was
      * made. */
    method MovePiece(to: Sq, choice: int) returns (made: bool)
      requires Inv() && InBounds(to) && selected.Some?
      modifies this`pos, this`turn, this`moves, this`captured, this`moveUndone, this`playerMoveMade,
               this`selected, this`movesGenerated
      ensures Inv() && selected.None? && movesGenerated == []
      ensures made == old(to in movesGenerated && Cell(pos, sourceSquare) == selected)
      ensures !made ==>
                pos == old(pos) && turn == old(turn) && moves == old(moves) && captured == old(captured) &&
                moveUndone == old(moveUndone) && playerMoveMade == old(playerMoveMade)
      ensures made ==>
                (pos, moves, captured) ==
                  PlayerMove(old(pos), old(moves), old(captured), old(sourceSquare), to, old(selected.value), choice,
                             twoPlayer) &&
                turn == -old(turn) && !moveUndone && playerMoveMade == vsComputer
      ensures aiDifficulty == old(aiDifficulty) && endGameType == old(endGameType) && twoPlayer == old(twoPlayer) &&
              vsComputer == old(vsComputer)
    {
      made := to in movesGenerated && Cell(pos, sourceSquare) == selected;
      var from, id := sourceSquare, selected.value;
      ClearSelection();
      if made {
        var p, m, k := CommitPlayerMove(pos, moves, captured, from, to, id, choice, twoPlayer);
        GameInvGrows(pos, moves, captured, selected, sourceSquare, movesGenerated, maxiBest, miniBest,
                     p, m, k, maxiBest, miniBest);
        SetAfterMove(p, m, k, -turn);
      }
    }

    /** The fields the player's move replaces, set at once: the position,
      * the history and the captured list, the turn passed on, a move that
      * can be undone, and whether the computer is to answer. */
    method SetAfterMove(p: Position, m: seq<Move>, k: seq<nat>, t: int)
      requires ModeInv(vsComputer, twoPlayer, aiDifficulty, playerColor)
      requires GameInv(p, m, k, selected, sourceSquare, movesGenerated, maxiBest, miniBest)
      modifies this`pos, this`moves, this`captured, this`turn, this`moveUndone, this`playerMoveMade
      ensures Inv() && pos == p && moves == m && captured == k && turn == t && !moveUndone
      ensures playerMoveMade == vsComputer
      ensures maxiBest == old(maxiBest) && miniBest == old(miniBest) && selected == old(selected) &&
              movesGenerated == old(movesGenerated)
      ensures aiDifficulty == old(aiDifficulty) && endGameType == old(endGameType) && twoPlayer == old(twoPlayer)
    {
      pos, moves, captured := p, m, k;
      turn := t;
      moveUndone := false;
      playerMoveMade := vsComputer;
    }

    /** The selection cleared: no piece selected and no moves on offer. */
    method ClearSelection()
      requires Inv()
      modifies this`selected, this`movesGenerated
      ensures Inv() && selected.None? && movesGenerated == []
      ensures pos == old(pos) && moves == old(moves) && captured == old(captured) && turn == old(turn) &&
              moveUndone == old(moveUndone) && playerMoveMade == old(playerMoveMade) &&
              maxiBest == old(maxiBest) && miniBest == old(miniBest)
      ensures aiDifficulty == old(aiDifficulty) && endGameType == old(endGameType) && twoPlayer == old(twoPlayer) &&
              vsComputer == old(vsComputer)
    {
      selected := None;
      movesGenerated := [];
    }

    /** A click on a square of the board during a game: with no selection
      * it selects, otherwise it moves, except that against the computer a
      * click out of the player's turn is ignored; a move made against the
      * computer is answered at once, which gives the turn back. */
    method Click(s: Sq, choice: int) returns (ghost p: Position, ghost m: seq<Move>, ghost k: seq<nat>)
      requires Inv() && InBounds(s)
      modifies this`pos, this`turn, this`moves, this`captured, this`moveUndone, this`playerMoveMade,
               this`selected, this`sourceSquare, this`movesGenerated, this`maxiBest, this`miniBest
      ensures Inv()
      ensures !old(twoPlayer || vsComputer) ==> pos == old(pos) && selected == old(selected) && moves == old(moves)
      ensures old(vsComputer && selected.Some? && turn != playerColor) ==>
                pos == old(pos) && selected == old(selected) && moves == old(moves)
      ensures old(selected.Some? && (twoPlayer || (vsComputer && turn == playerColor))) ==> selected.None?
      ensures old(selected.None? && (twoPlayer || vsComputer)) ==>
                moves == old(moves) && captured == old(captured) && turn == old(turn) &&
                (!old(Selectable(pos, s, turn, twoPlayer, vsComputer, playerColor)) ==>
                   pos == old(pos) && selected.None? && sourceSquare == old(sourceSquare) &&
                   movesGenerated == old(movesGenerated)) &&
                (old(Selectable(pos, s, turn, twoPlayer, vsComputer, playerColor)) ==>
                   selected == old(Cell(pos, s)) && sourceSquare == s &&
                   (movesGenerated, pos) == LegalMoves(old(pos), s, old(twoPlayer)))
      ensures old(selected.Some? && (twoPlayer || (vsComputer && turn == playerColor))) &&
              !old(s in movesGenerated && Cell(pos, sourceSquare) == selected) ==>
                pos == old(pos) && moves == old(moves) && captured == old(captured) && turn == old(turn)
      ensures old(selected.Some? && twoPlayer && s in movesGenerated && Cell(pos, sourceSquare) == selected) ==>
                (pos, moves, captured) ==
                  PlayerMove(old(pos), old(moves), old(captured), old(sourceSquare), s, old(selected.value), choice,
                             old(twoPlayer)) &&
                turn == -old(turn)
      ensures old(selected.Some? && vsComputer && turn == playerColor && s in movesGenerated &&
                  Cell(pos, sourceSquare) == selected) ==>
                (p, m, k) == PlayerMove(old(pos), old(moves), old(captured), old(sourceSquare), s, old(selected.value),
                                        choice, old(twoPlayer)) &&
                Refs(p, m, k) && PicksFit(p, Picks(old(maxiBest), old(miniBest)))
      ensures old(selected.Some? && vsComputer && turn == playerColor && s in movesGenerated &&
                  Cell(pos, sourceSquare) == selected) ==>
                turn == old(turn) &&
                (pos, moves, captured, Picks(maxiBest, miniBest)) ==
                  ComputerTurn(p, m, k, Picks(old(maxiBest), old(miniBest)),
                               old(aiDifficulty), old(endGameType), -old(turn), old(twoPlayer))
    {
      p, m, k := pos, moves, captured;
      if twoPlayer || vsComputer {
        if selected.None? {
          SelectPiece(s);
        } else if twoPlayer {
          var _ := MovePiece(s, choice);
        } else if turn == playerColor {
          if s in movesGenerated && Cell(pos, sourceSquare) == selected {
            p, m, k := MoveAndAnswer(s, choice);
          } else {
            ClearSelection();
          }
        }
      }
    }

    /** A click on `to`, one of the moves on offer, in the player's turn
      * against the computer: the selected piece moves, and the computer
      * answers at once, which gives the turn back. Hands back, as ghosts,
      * the game's values between the player's move and the answer. */
    method MoveAndAnswer(to: Sq, choice: int) returns (ghost p: Position, ghost m: seq<Move>, ghost k: seq<nat>)
      requires Inv() && InBounds(to) && selected.Some? && vsComputer && turn == playerColor
      requires to in movesGenerated && Cell(pos, sourceSquare) == selected
      modifies this`pos, this`moves, this`captured, this`moveUndone, this`playerMoveMade,
               this`selected, this`movesGenerated, this`maxiBest, this`miniBest
      ensures Inv() && selected.None? && movesGenerated == [] && !moveUndone && !playerMoveMade
      ensures turn == old(turn) && aiDifficulty == old(aiDifficulty) && endGameType == old(endGameType) &&
              twoPlayer == old(twoPlayer) && vsComputer == old(vsComputer)
      ensures (p, m, k) == PlayerMove(old(pos), old(moves), old(captured), old(sourceSquare), to, old(selected.value),
                                      choice, twoPlayer)
      ensures Refs(p, m, k) && PicksFit(p, Picks(old(maxiBest), old(miniBest)))
      ensures var r := ComputerTurn(p, m, k, Picks(old(maxiBest), old(miniBest)), aiDifficulty, endGameType, -turn,
                                    twoPlayer);
              pos == r.0 && moves == r.1 && captured == r.2 && maxiBest == r.3.maxi && miniBest == r.3.mini
    {
      var q, m', k', picks;
      p, m, k, q, m', k', picks :=
        AnswerPlayerMove(pos, moves, captured, sourceSquare, to, selected.value, choice, Picks(maxiBest, miniBest),
                         -turn, aiDifficulty, endGameType, twoPlayer);
      ClearSelection();
      GameInvGrows(pos, moves, captured, selected, sourceSquare, movesGenerated, maxiBest, miniBest, q, m', k',
                   picks.maxi, picks.mini);
      SetAfterAnswer(q, m', k', picks.maxi, picks.mini);
    }

    /** The fields a player's move and the computer's answer replace, set at
      * once: the turn is the player's again, and the move can be undone. */
    method SetAfterAnswer(p: Position, m: seq<Move>, k: seq<nat>, maxi: Option<Choice>, mini: Option<Choice>)
      requires ModeInv(vsComputer, twoPlayer, aiDifficulty, playerColor)
      requires GameInv(p, m, k, selected, sourceSquare, movesGenerated, maxi, mini)
      modifies this`pos, this`moves, this`captured, this`maxiBest, this`miniBest, this`moveUndone,
               this`playerMoveMade
      ensures Inv() && pos == p && moves == m && captured == k && maxiBest == maxi && miniBest == mini
      ensures !moveUndone && !playerMoveMade && selected == old(selected) && movesGenerated == old(movesGenerated)
      ensures turn == old(turn) && aiDifficulty == old(aiDifficulty) && endGameType == old(endGameType) &&
              twoPlayer == old(twoPlayer) && vsComputer == old(vsComputer)
    {
      pos, moves, captured, maxiBest, miniBest := p, m, k, maxi, mini;
      moveUndone, playerMoveMade := false, false;
    }

    /** undo: when canUndo allows it the last move is taken back, and
      * against the computer the one before it too; in a two-player game the
      * turn passes back and a second undo is refused; then the first two
      * Kings are unchecked and the end of game is judged again. Hands back
      * how many moves were taken back and, as a ghost, the position they
      * left before the Kings were unchecked. */
    method Undo() returns (undone: nat, ghost taken: Position)
      requires Inv()
      modifies this`pos, this`moves, this`captured, this`moveUndone, this`turn, this`gameOver, this`endGameType
      ensures Inv() && Valid(taken)
      ensures !old(Rules.CanUndo(vsComputer, twoPlayer, playerColor, |moves|, moveUndone)) ==>
                undone == 0 && taken == pos && pos == old(pos) && captured == old(captured) && moves == old(moves) &&
                turn == old(turn) && moveUndone == old(moveUndone) && gameOver == old(gameOver) &&
                endGameType == old(endGameType)
      ensures old(Rules.CanUndo(vsComputer, twoPlayer, playerColor, |moves|, moveUndone)) ==>
                (taken, captured, moves, undone) == TakeBack(old(pos), old(captured), old(moves), old(vsComputer)) &&
                (old(twoPlayer) ==> moveUndone && turn == -old(turn)) &&
                (!old(twoPlayer) ==> turn == old(turn) && moveUndone == old(moveUndone)) &&
                (gameOver, endGameType, pos) ==
                  EndOfGame(UncheckKings(taken, old(twoPlayer)), turn, old(endGameType), old(twoPlayer))
    {
      undone := 0;
      taken := pos;
      if Rules.CanUndo(vsComputer, twoPlayer, playerColor, |moves|, moveUndone) {
        var p, c, m, n := TakeBackMoves(pos, captured, moves, vsComputer);
        undone := n;
        taken := p;
        var t := if twoPlayer then -turn else turn;
        var u := UncheckFirstKings(p, twoPlayer);
        var over, kind, q := EndOfGameScan(u, t, endGameType, twoPlayer);
        GameInvGrows(pos, moves, captured, selected, sourceSquare, movesGenerated, maxiBest, miniBest,
                     q, m, c, maxiBest, miniBest);
        SetAfterUndo(q, m, c, t, twoPlayer || moveUndone, over, kind);
      }
    }

    /** The fields undo replaces, set at once. */
    method SetAfterUndo(p: Position, m: seq<Move>, k: seq<nat>, t: int, undoneFlag: bool, over: bool,
                        kind: Option<EndGame>)
      requires ModeInv(vsComputer, twoPlayer, aiDifficulty, playerColor)
      requires GameInv(p, m, k, selected, sourceSquare, movesGenerated, maxiBest, miniBest)
      modifies this`pos, this`moves, this`captured, this`moveUndone, this`turn, this`gameOver, this`endGameType
      ensures Inv() && pos == p && moves == m && captured == k && turn == t && moveUndone == undoneFlag
      ensures gameOver == over && endGameType == kind
    {
      pos, moves, captured := p, m, k;
      turn, moveUndone := t, undoneFlag;
      gameOver, endGameType := over, kind;
    }
  }
}
