/** The playing screen, gui/views/panes/GamePlayPane.java: checking a move the human player
    dragged on the board against the chain of rules for the moved piece, applying an accepted
    move, letting a computer player answer, and ending the game.

    The rule classes (OutOfBoundaryRule, OccupiedRule, VacantRule, NilMoveRule,
    FirstNMovesProtectionRule, KnightMoveRule, KnightBlockRule, ArcherMoveRule) are not part of
    this model: each is a rule of a closed set whose verdict and description a Rulebook gives. */
module GamePlay {
  import opened JavaText
  import opened Protocol
  import opened JesonMorGui

  // ---------------------------------------------------------------- rules

  datatype Rule =
    | OutOfBoundary
    | Occupied
    | Vacant
    | NilMove
    | FirstNMovesProtection(numMovesProtection: int)
    | KnightMove
    | KnightBlock
    | ArcherMove

  /** The game as a rule sees it: the board, the number of moves played, the protection length
      and whether each of the two players is human. */
  datatype Position = Position(
    board: Board,
    numMoves: nat,
    numMovesProtection: int,
    firstHuman: bool,
    secondHuman: bool)

  /** Rule.validate and Rule.getDescription. */
  datatype Rulebook = Rulebook(holds: (Rule, Position, Move) -> bool, description: Rule -> string)

  const NotYours := "The piece you moved does not belong to you!"

  /** The rules that apply to a piece with the given label: five common rules, then the
      geometry of a knight ('K') or of an archer. */
  function Chain(symbol: char, numMovesProtection: int): (r: seq<Rule>)
  {
    var common := [OutOfBoundary, Occupied, Vacant, NilMove, FirstNMovesProtection(numMovesProtection)];
    if symbol == 'K' then common + [KnightMove, KnightBlock] else common + [ArcherMove]
  }

  /** The rules of every chain, in the order they are checked. */
  lemma ChainOrder(symbol: char, numMovesProtection: int)
    ensures var r := Chain(symbol, numMovesProtection);
      && r[..5] == [OutOfBoundary, Occupied, Vacant, NilMove, FirstNMovesProtection(numMovesProtection)]
      && (symbol == 'K' ==> r[5..] == [KnightMove, KnightBlock])
      && (symbol != 'K' ==> r[5..] == [ArcherMove])
  {
  }

  /** The position of the first rule that does not hold, or |rules| when all hold. */
  function FirstFailing(book: Rulebook, rules: seq<Rule>, pos: Position, move: Move): (i: nat)
    ensures i <= |rules|
    ensures forall j :: 0 <= j < i ==> book.holds(rules[j], pos, move)
    ensures i < |rules| ==> !book.holds(rules[i], pos, move)
    decreases |rules|
  {
    if rules == [] then 0
    else if !book.holds(rules[0], pos, move) then 0
    else 1 + FirstFailing(book, rules[1..], pos, move)
  }

  /** The player to move. */
  function Current(pos: Position): nat
  {
    pos.numMoves % 2
  }

  /** Whether the configuration has player p play as a human. */
  predicate IsHuman(pos: Position, p: nat)
  {
    if p == 0 then pos.firstHuman else pos.secondHuman
  }

  /** The piece moved is the current player's, and the current player is human. */
  predicate Owns(pos: Position, move: Move)
    requires move.source in pos.board
  {
    pos.board[move.source].player == Current(pos) && IsHuman(pos, Current(pos))
  }

  /** The rules for the piece on the source place. */
  function RulesFor(pos: Position, move: Move): seq<Rule>
    requires move.source in pos.board
  {
    Chain(pos.board[move.source].symbol, pos.numMovesProtection)
  }

  /** validateMove: the description of the first rule of the chain that fails; past the chain,
      the ownership message when the piece is not the current player's or that player is not
      human; None when the move is acceptable. */
  function Verdict(book: Rulebook, pos: Position, move: Move): Option<string>
    requires move.source in pos.board
  {
    var rules := RulesFor(pos, move);
    var i := FirstFailing(book, rules, pos, move);
    if i < |rules| then Some(book.description(rules[i]))
    else if !Owns(pos, move) then Some(NotYours)
    else None
  }

  /** A move passes exactly when every rule of its chain holds, the piece is the current
      player's and that player is human. */
  lemma VerdictAccepts(book: Rulebook, pos: Position, move: Move)
    requires move.source in pos.board
    ensures Verdict(book, pos, move) == None <==>
      (forall i :: 0 <= i < |RulesFor(pos, move)| ==> book.holds(RulesFor(pos, move)[i], pos, move))
      && Owns(pos, move)
  {
  }

  /** The first failing rule decides the answer, whichever later rules fail too. */
  lemma VerdictFirstFailure(book: Rulebook, pos: Position, move: Move, k: nat)
    requires move.source in pos.board
    requires k < |RulesFor(pos, move)|
    requires forall j :: 0 <= j < k ==> book.holds(RulesFor(pos, move)[j], pos, move)
    requires !book.holds(RulesFor(pos, move)[k], pos, move)
    ensures Verdict(book, pos, move) == Some(book.description(RulesFor(pos, move)[k]))
  {
    var i := FirstFailing(book, RulesFor(pos, move), pos, move);
    assert !(i < k);
    assert !(k < i);
  }

  /** A move leaving the board, or from or to a place off it, is refused for that reason before
      any other. */
  lemma BoundaryFirst(book: Rulebook, pos: Position, move: Move)
    requires move.source in pos.board
    requires !book.holds(OutOfBoundary, pos, move)
    ensures Verdict(book, pos, move) == Some(book.description(OutOfBoundary))
  {
    VerdictFirstFailure(book, pos, move, 0);
  }

  /** A move onto one's own piece is refused for that reason, whatever its geometry, once it
      stays on the board. */
  lemma OccupiedSecond(book: Rulebook, pos: Position, move: Move)
    requires move.source in pos.board
    requires book.holds(OutOfBoundary, pos, move) && !book.holds(Occupied, pos, move)
    ensures Verdict(book, pos, move) == Some(book.description(Occupied))
  {
    VerdictFirstFailure(book, pos, move, 1);
  }

  /** The ownership check comes last: it speaks only when every rule holds. */
  lemma OwnershipLast(book: Rulebook, pos: Position, move: Move)
    requires move.source in pos.board
    requires forall i :: 0 <= i < |RulesFor(pos, move)| ==> book.holds(RulesFor(pos, move)[i], pos, move)
    ensures Verdict(book, pos, move) == (if Owns(pos, move) then None else Some(NotYours))
  {
  }

  /** Rules after the first failing one are never consulted: two rulebooks with the same
      descriptions that agree up to and including a failing rule give the same answer. */
  lemma LaterRulesIgnored(book1: Rulebook, book2: Rulebook, pos: Position, move: Move, k: nat)
    requires move.source in pos.board
    requires book1.description == book2.description
    requires k < |RulesFor(pos, move)| && !book1.holds(RulesFor(pos, move)[k], pos, move)
    requires forall j :: 0 <= j <= k ==>
      book1.holds(RulesFor(pos, move)[j], pos, move) == book2.holds(RulesFor(pos, move)[j], pos, move)
    ensures Verdict(book1, pos, move) == Verdict(book2, pos, move)
  {
    var rules := RulesFor(pos, move);
    var i := FirstFailing(book1, rules, pos, move);
    assert i <= k;
    assert forall j :: 0 <= j < i ==> book2.holds(rules[j], pos, move);
    VerdictFirstFailure(book1, pos, move, i);
    VerdictFirstFailure(book2, pos, move, i);
  }

  /** validateMove. The source reads the label of the piece on the source place before any rule
      runs, so that place must hold a piece. */
  method ValidateMove(book: Rulebook, pos: Position, move: Move) returns (error: Option<string>)
    requires move.source in pos.board
    ensures error == Verdict(book, pos, move)
  {
    var rules := Chain(pos.board[move.source].symbol, pos.numMovesProtection);
    var i := 0;
    while i < |rules|
      invariant 0 <= i <= |rules|
      invariant forall j :: 0 <= j < i ==> book.holds(rules[j], pos, move)
    {
      if !book.holds(rules[i], pos, move) {
        VerdictFirstFailure(book, pos, move, i);
        return Some(book.description(rules[i]));
      }
      i := i + 1;
    }
    var isHuman := if Current(pos) == 0 then pos.firstHuman else pos.secondHuman;
    if pos.board[move.source].player != Current(pos) || !isHuman {
      return Some(NotYours);
    }
    return None;
  }

  /** A move the human player makes is applied exactly when validateMove accepts it and it is
      one of the moves available to the player to move. */
  predicate Accepts(book: Rulebook, engine: Engine, pos: Position, move: Move)
    requires move.source in pos.board
  {
    Verdict(book, pos, move).None? && move in engine.availableMoves(pos.board, pos.numMoves, Current(pos))
  }

  /** An accepted move passes every rule of its chain and moves a piece of the human player to
      move. */
  lemma AcceptedIsLegal(book: Rulebook, engine: Engine, pos: Position, move: Move)
    requires move.source in pos.board
    requires Accepts(book, engine, pos, move)
    ensures forall i :: 0 <= i < |RulesFor(pos, move)| ==> book.holds(RulesFor(pos, move)[i], pos, move)
    ensures pos.board[move.source].player == Current(pos) && IsHuman(pos, Current(pos))
  {
    VerdictAccepts(book, pos, move);
  }

  // ---------------------------------------------------------------- the pane

  class GamePlayPane {
    var jesonMor: FXJesonMor
    const book: Rulebook
    /** Player.nextMove of a computer player: given the player, the board and the moves
        available to it, the move it chooses, if any. */
    const nextMove: (nat, Board, seq<Move>) -> Option<Move>
    /** The moves listed in the history text area, oldest first. */
    var history: seq<Move>
    var ticksElapsed: int
    var winnerExist: bool
    var confirmEnd: bool

    ghost predicate Valid()
      reads this, jesonMor
    {
      jesonMor.Valid()
    }

    /** The game as validateMove is given it. */
    function PositionOf(): (pos: Position)
      reads this, jesonMor
      requires Valid()
      ensures Current(pos) == jesonMor.CurrentPlayer()
    {
      Position(jesonMor.board, jesonMor.numMoves, jesonMor.numMovesProtection,
               jesonMor.firstHuman, jesonMor.secondHuman)
    }

    constructor (jesonMor: FXJesonMor, book: Rulebook, nextMove: (nat, Board, seq<Move>) -> Option<Move>)
      requires jesonMor.Valid()
      ensures Valid() && this.jesonMor == jesonMor && this.book == book && this.nextMove == nextMove
      ensures history == [] && ticksElapsed == 0
    {
      this.jesonMor := jesonMor;
      this.book := book;
      this.nextMove := nextMove;
      history := [];
      ticksElapsed := 0;
      winnerExist := false;
      confirmEnd := false;
    }

    /** A move made by player p: movePiece, then incMove, then updateScore for p, then the move
        added to the history. */
    method Play(p: nat, m: Move)
      requires Valid() && p < 2
      modifies this`history, jesonMor`board, jesonMor`numMoves, jesonMor`scores,
        jesonMor`scorePlayer1, jesonMor`scorePlayer2
      ensures Valid()
      ensures jesonMor.board == jesonMor.engine.movePiece(old(jesonMor.board), m)
      ensures jesonMor.numMoves == old(jesonMor.numMoves) + 1
      ensures jesonMor.scores == Credit(old(jesonMor.scores), p, m)
      ensures p == 0 ==> jesonMor.scorePlayer1 == jesonMor.scores[0] && jesonMor.scorePlayer2 == old(jesonMor.scorePlayer2)
      ensures p == 1 ==> jesonMor.scorePlayer2 == jesonMor.scores[1] && jesonMor.scorePlayer1 == old(jesonMor.scorePlayer1)
      ensures history == old(history) + [m]
    {
      jesonMor.MovePiece(m);
      jesonMor.IncMove();
      var piece := if m.destination in jesonMor.board then Some(jesonMor.board[m.destination]) else None;
      jesonMor.UpdateScore(p, piece, m);
      history := history + [m];
    }

    /** The first half of onCanvasReleased: the move the human player dragged is checked and,
        when accepted, made for the player who was to move; a refused move changes nothing and
        its reason is returned. */
    method HumanTurn(pending: Move) returns (error: Option<string>)
      requires Valid() && pending.source in jesonMor.board
      modifies this`history, jesonMor`board, jesonMor`numMoves, jesonMor`scores,
        jesonMor`scorePlayer1, jesonMor`scorePlayer2
      ensures Valid()
      ensures error == Verdict(book, old(PositionOf()), pending)
      ensures Accepts(book, jesonMor.engine, old(PositionOf()), pending) ==>
        && jesonMor.board == jesonMor.engine.movePiece(old(jesonMor.board), pending)
        && jesonMor.numMoves == old(jesonMor.numMoves) + 1
        && jesonMor.scores == Credit(old(jesonMor.scores), old(jesonMor.CurrentPlayer()), pending)
        && jesonMor.scorePlayer1 == (if old(jesonMor.CurrentPlayer()) == 0 then jesonMor.scores[0] else old(jesonMor.scorePlayer1))
        && jesonMor.scorePlayer2 == (if old(jesonMor.CurrentPlayer()) == 1 then jesonMor.scores[1] else old(jesonMor.scorePlayer2))
        && history == old(history) + [pending]
      ensures old(jesonMor.Mirrored()) ==> jesonMor.Mirrored()
      ensures !Accepts(book, jesonMor.engine, old(PositionOf()), pending) ==>
        && jesonMor.board == old(jesonMor.board)
        && jesonMor.numMoves == old(jesonMor.numMoves)
        && jesonMor.scores == old(jesonMor.scores)
        && jesonMor.scorePlayer1 == old(jesonMor.scorePlayer1)
        && jesonMor.scorePlayer2 == old(jesonMor.scorePlayer2)
        && history == old(history)
    {
      var player := jesonMor.CurrentPlayer();
      var available := jesonMor.engine.availableMoves(jesonMor.board, jesonMor.numMoves, player);
      error := ValidateMove(book, PositionOf(), pending);
      if error == None && pending in available {
        Play(player, pending);
      }
    }

    /** Whether the player to move plays by hand: the pane asks the first player's setting when
        that player is named "White" and the second player's otherwise. */
    function SeatedHuman(p: nat): bool
      reads this, jesonMor
      requires Valid() && p < 2
    {
      if jesonMor.names[p] == "White" then jesonMor.firstHuman else jesonMor.secondHuman
    }

    /** The computer's turn in onCanvasReleased: the move nextMove picks among the available
        ones, made without validateMove; no move is made when it picks none. Afterwards the
        computer's own name is on display. */
    method ComputerTurn() returns (played: Option<Move>)
      requires Valid()
      modifies this`history, jesonMor`board, jesonMor`numMoves, jesonMor`scores,
        jesonMor`scorePlayer1, jesonMor`scorePlayer2, jesonMor`currentPlayerName
      ensures Valid()
      ensures var p := old(jesonMor.CurrentPlayer());
        played == nextMove(p, old(jesonMor.board),
                           jesonMor.engine.availableMoves(old(jesonMor.board), old(jesonMor.numMoves), p))
      ensures played.Some? ==>
        && jesonMor.board == jesonMor.engine.movePiece(old(jesonMor.board), played.value)
        && jesonMor.numMoves == old(jesonMor.numMoves) + 1
        && jesonMor.scores == Credit(old(jesonMor.scores), old(jesonMor.CurrentPlayer()), played.value)
        && jesonMor.scorePlayer1 == (if old(jesonMor.CurrentPlayer()) == 0 then jesonMor.scores[0] else old(jesonMor.scorePlayer1))
        && jesonMor.scorePlayer2 == (if old(jesonMor.CurrentPlayer()) == 1 then jesonMor.scores[1] else old(jesonMor.scorePlayer2))
        && history == old(history) + [played.value]
      ensures played.None? ==>
        && jesonMor.board == old(jesonMor.board)
        && jesonMor.numMoves == old(jesonMor.numMoves)
        && jesonMor.scores == old(jesonMor.scores)
        && jesonMor.scorePlayer1 == old(jesonMor.scorePlayer1)
        && jesonMor.scorePlayer2 == old(jesonMor.scorePlayer2)
        && history == old(history)
      ensures old(jesonMor.Mirrored()) ==> jesonMor.Mirrored()
      ensures jesonMor.currentPlayerName == jesonMor.names[old(jesonMor.CurrentPlayer())]
    {
      var player := jesonMor.CurrentPlayer();
      var available := jesonMor.engine.availableMoves(jesonMor.board, jesonMor.numMoves, player);
      played := nextMove(player, jesonMor.board, available);
      if played.Some? {
        Play(player, played.value);
      }
      jesonMor.SetCurrentPlayerName(jesonMor.names[player]);
    }

    /** onCanvasReleased: the human turn, then the name of the player now to move on display,
        then, when that player is not seated as a human, the computer's turn with the board and
        move count the human turn left. A move the human turn refuses still lets the computer
        move. */
    method OnCanvasReleased(pending: Move) returns (error: Option<string>, answer: Option<Move>)
      requires Valid() && pending.source in jesonMor.board
      modifies this`history, jesonMor`board, jesonMor`numMoves, jesonMor`scores,
        jesonMor`scorePlayer1, jesonMor`scorePlayer2, jesonMor`currentPlayerName
      ensures Valid()
      ensures error == Verdict(book, old(PositionOf()), pending)
      ensures var human := if Accepts(book, jesonMor.engine, old(PositionOf()), pending) then 1 else 0;
        var computer := if answer.Some? then 1 else 0;
        jesonMor.numMoves == old(jesonMor.numMoves) + human + computer
      ensures old(jesonMor.scores[0]) <= jesonMor.scores[0] && old(jesonMor.scores[1]) <= jesonMor.scores[1]
      ensures old(history) <= history
      ensures jesonMor.currentPlayerName == jesonMor.names[if answer.Some? then 1 - jesonMor.CurrentPlayer() else jesonMor.CurrentPlayer()]
      ensures var accepted := Accepts(book, jesonMor.engine, old(PositionOf()), pending);
        var mover := old(jesonMor.CurrentPlayer());
        var next := if accepted then 1 - mover else mover;
        var board := if accepted then jesonMor.engine.movePiece(old(jesonMor.board), pending) else old(jesonMor.board);
        var count := old(jesonMor.numMoves) + (if accepted then 1 else 0);
        var scores := if accepted then Credit(old(jesonMor.scores), mover, pending) else old(jesonMor.scores);
        && (SeatedHuman(next) ==> answer.None?)
        && (!SeatedHuman(next) ==> answer == nextMove(next, board, jesonMor.engine.availableMoves(board, count, next)))
        && jesonMor.board == (if answer.Some? then jesonMor.engine.movePiece(board, answer.value) else board)
        && jesonMor.scores == (if answer.Some? then Credit(scores, next, answer.value) else scores)
        && history == old(history) + (if accepted then [pending] else []) + (if answer.Some? then [answer.value] else [])
        && jesonMor.scorePlayer1 == (if (accepted && mover == 0) || (answer.Some? && next == 0)
                                     then jesonMor.scores[0] else old(jesonMor.scorePlayer1))
        && jesonMor.scorePlayer2 == (if (accepted && mover == 1) || (answer.Some? && next == 1)
                                     then jesonMor.scores[1] else old(jesonMor.scorePlayer2))
      ensures old(jesonMor.Mirrored()) ==> jesonMor.Mirrored()
    {
      error := HumanTurn(pending);
      var player := jesonMor.CurrentPlayer();
      jesonMor.SetCurrentPlayerName(jesonMor.names[player]);
      answer := None;
      if !SeatedHuman(player) {
        answer := ComputerTurn();
      }
    }

    /** endGame: both scores 0, the game object reset as written, the history cleared and the
        elapsed time 0. The reset reads the player to move before it clears the move count, so
        the name on display is that of the player who was to move when the game ended. */
    method EndGame()
      requires Valid()
      modifies this, jesonMor
      ensures Valid() && jesonMor == old(jesonMor) && jesonMor.Mirrored()
      ensures jesonMor.scores == [0, 0] && jesonMor.scorePlayer1 == 0 && jesonMor.scorePlayer2 == 0
      ensures jesonMor.numMoves == 0 && jesonMor.moveRecords == [] && jesonMor.board == jesonMor.initialBoard
      ensures jesonMor.currentPlayerName == jesonMor.names[old(jesonMor.numMoves) % 2]
      ensures history == [] && ticksElapsed == 0 && !winnerExist && confirmEnd
    {
      winnerExist := false;
      confirmEnd := true;
      jesonMor.scores := [0, 0];
      jesonMor.ResetGameAsWritten();
      history := [];
      ticksElapsed := 0;
    }

    /** endGame with the corrected reset: the same, except that the name on display is that of
        the first player, who moves first in the new game. */
    method EndGameCorrected()
      requires Valid()
      modifies this, jesonMor
      ensures Valid() && jesonMor == old(jesonMor) && jesonMor.Mirrored()
      ensures jesonMor.scores == [0, 0] && jesonMor.scorePlayer1 == 0 && jesonMor.scorePlayer2 == 0
      ensures jesonMor.numMoves == 0 && jesonMor.moveRecords == [] && jesonMor.board == jesonMor.initialBoard
      ensures jesonMor.currentPlayerName == jesonMor.names[jesonMor.CurrentPlayer()] == jesonMor.names[0]
      ensures history == [] && ticksElapsed == 0 && !winnerExist && confirmEnd
    {
      winnerExist := false;
      confirmEnd := true;
      jesonMor.scores := [0, 0];
      jesonMor.ResetGame();
      history := [];
      ticksElapsed := 0;
    }
  }
}
