/** The game object of the graphical front end, gui/FXJesonMor.java: the text-version game
    engine (JesonMor) extended with a move counter the panes advance, the scoring rule, two
    score slots the information panel displays, the displayed name of the player to move, and
    a reset between games. */
module JesonMorGui {
  import opened JavaText
  import opened Protocol

  /** A piece: its label, getLabel() ('K' for a knight; the other kind is the archer) and the index of its
      owner in the configuration's player array. */
  datatype Piece = Piece(symbol: char, player: nat)

  /** The board: the piece standing on each occupied place. */
  type Board = map<Place, Piece>

  /** What FXJesonMor inherits from JesonMor and this model does not contain: moving a piece on
      the board, and the moves available to a player given the board and the number of moves
      played so far. */
  datatype Engine = Engine(
    movePiece: (Board, Move) -> Board,
    availableMoves: (Board, nat, nat) -> seq<Move>)

  // ---------------------------------------------------------------- scoring

  /** The scores after player p has made move m. */
  function Credit(scores: seq<int>, p: nat, m: Move): (r: seq<int>)
    requires p < |scores|
    ensures |r| == |scores|
  {
    scores[p := scores[p] + Distance(m)]
  }

  /** A move made by the player at index player. */
  datatype Turn = Turn(player: nat, move: Move)

  predicate Seated(turns: seq<Turn>, n: nat)
  {
    forall i :: 0 <= i < |turns| ==> turns[i].player < n
  }

  /** The scores after a sequence of turns, each credited in order. */
  function Tally(scores: seq<int>, turns: seq<Turn>): (r: seq<int>)
    requires Seated(turns, |scores|)
    ensures |r| == |scores|
    decreases |turns|
  {
    if turns == [] then scores
    else Tally(Credit(scores, turns[0].player, turns[0].move), turns[1..])
  }

  /** The total length of the moves player p made among the turns. */
  function Earned(turns: seq<Turn>, p: nat): nat
    decreases |turns|
  {
    if turns == [] then 0
    else (if turns[0].player == p then Distance(turns[0].move) else 0) + Earned(turns[1..], p)
  }

  /** Crediting a move adds its length to the mover's score and leaves every other score as it
      was; so no score ever decreases. */
  lemma CreditChanges(scores: seq<int>, p: nat, m: Move, q: nat)
    requires p < |scores| && q < |scores|
    ensures Credit(scores, p, m)[q] == scores[q] + (if q == p then Distance(m) else 0)
    ensures Credit(scores, p, m)[q] >= scores[q]
  {
  }

  /** After any sequence of turns, each player's score is the score it started with plus the
      length of its own moves, whoever else moved in between. */
  lemma {:induction false} TallyEarned(scores: seq<int>, turns: seq<Turn>, p: nat)
    requires Seated(turns, |scores|) && p < |scores|
    ensures Tally(scores, turns)[p] == scores[p] + Earned(turns, p)
    ensures Tally(scores, turns)[p] >= scores[p]
    decreases |turns|
  {
    if turns != [] {
      var next := Credit(scores, turns[0].player, turns[0].move);
      assert Seated(turns[1..], |next|) by {
        forall i | 0 <= i < |turns[1..]| ensures turns[1..][i].player < |next| {
          assert turns[1..][i] == turns[i + 1];
        }
      }
      TallyEarned(next, turns[1..], p);
      CreditChanges(scores, turns[0].player, turns[0].move, p);
    }
  }

  // ---------------------------------------------------------------- the game object

  class FXJesonMor {
    /** The names of the configuration's two players; a player is known by its index. */
    const names: seq<string>
    /** The configuration's initial board, its protection length and whether each of its two
        players is human. */
    const initialBoard: Board
    const numMovesProtection: int
    const firstHuman: bool
    const secondHuman: bool
    const engine: Engine

    var board: Board
    var numMoves: nat
    /** The scores of the configuration's two Player objects. */
    var scores: seq<int>
    /** The two score slots of the information panel. */
    var scorePlayer1: int
    var scorePlayer2: int
    var currentPlayerName: string
    var moveRecords: seq<MoveRecord>

    ghost predicate Valid()
      reads this
    {
      |names| == 2 && |scores| == 2
    }

    /** The score slots show the players' scores. */
    predicate Mirrored()
      reads this
      requires Valid()
    {
      scorePlayer1 == scores[0] && scorePlayer2 == scores[1]
    }

    /** The player to move: the players alternate, the first one moving first. */
    function CurrentPlayer(): (p: nat)
      reads this
      requires Valid()
      ensures p < 2 && (p == 0 <==> numMoves % 2 == 0)
    {
      numMoves % 2
    }

    /** A new game from a configuration: the scores its players hold, its initial board, both
        score slots 0 and the name of the first player on display. */
    constructor (names: seq<string>, scores: seq<int>, initialBoard: Board, numMovesProtection: int,
                 firstHuman: bool, secondHuman: bool, engine: Engine)
      requires |names| == 2 && |scores| == 2
      ensures Valid()
      ensures this.names == names && this.scores == scores && this.initialBoard == initialBoard
      ensures this.numMovesProtection == numMovesProtection && this.engine == engine
      ensures this.firstHuman == firstHuman && this.secondHuman == secondHuman
      ensures board == initialBoard && numMoves == 0 && moveRecords == []
      ensures scorePlayer1 == 0 && scorePlayer2 == 0 && currentPlayerName == names[0]
    {
      this.names := names;
      this.scores := scores;
      this.initialBoard := initialBoard;
      this.numMovesProtection := numMovesProtection;
      this.firstHuman := firstHuman;
      this.secondHuman := secondHuman;
      this.engine := engine;
      board := initialBoard;
      numMoves := 0;
      moveRecords := [];
      scorePlayer1 := 0;
      scorePlayer2 := 0;
      currentPlayerName := names[0];
    }

    /** incMove: one more move has been played, which hands the turn to the other player. */
    method IncMove()
      requires Valid()
      modifies this`numMoves
      ensures Valid()
      ensures numMoves == old(numMoves) + 1
      ensures CurrentPlayer() == 1 - old(CurrentPlayer())
    {
      numMoves := numMoves + 1;
    }

    /** JesonMor.movePiece. */
    method MovePiece(m: Move)
      modifies this`board
      ensures board == engine.movePiece(old(board), m)
    {
      board := engine.movePiece(board, m);
    }

    method SetCurrentPlayerName(value: string)
      modifies this`currentPlayerName
      ensures currentPlayerName == value
    {
      currentPlayerName := value;
    }

    /** updateScore: the mover's score grows by the Manhattan length of the move, whatever the
        piece, and the mover's score slot shows the new score; the other score and the other
        slot stay as they were. */
    method UpdateScore(player: nat, piece: Option<Piece>, move: Move)
      requires Valid() && player < 2
      modifies this`scores, this`scorePlayer1, this`scorePlayer2
      ensures Valid()
      ensures scores == Credit(old(scores), player, move)
      ensures scores[player] == old(scores[player]) + Distance(move) >= old(scores[player])
      ensures scores[1 - player] == old(scores[1 - player])
      ensures player == 0 ==> scorePlayer1 == scores[0] && scorePlayer2 == old(scorePlayer2)
      ensures player == 1 ==> scorePlayer2 == scores[1] && scorePlayer1 == old(scorePlayer1)
      ensures old(Mirrored()) ==> Mirrored()
    {
      var gained := Abs(move.source.x - move.destination.x);
      gained := gained + Abs(move.source.y - move.destination.y);
      scores := scores[player := scores[player] + gained];
      if player == 0 {
        scorePlayer1 := scores[player];
      } else {
        scorePlayer2 := scores[player];
      }
    }

    /** resetGame as written: the displayed name is taken from the player to move BEFORE the
        move count is cleared, so after an odd number of moves it names the second player
        although the first one moves next. */
    method ResetGameAsWritten()
      requires Valid()
      modifies this
      ensures Valid() && Mirrored()
      ensures scores == [0, 0] && scorePlayer1 == 0 && scorePlayer2 == 0
      ensures numMoves == 0 && moveRecords == [] && board == initialBoard
      ensures currentPlayerName == names[old(numMoves) % 2]
    {
      scorePlayer2 := 0;
      scorePlayer1 := 0;
      currentPlayerName := names[CurrentPlayer()];
      scores := [0, 0];
      moveRecords := [];
      numMoves := 0;
      board := initialBoard;
    }

    /** resetGame: both scores and both score slots 0, no move played, no move recorded, the
        configuration's initial board, and on display the name of the player who moves first. */
    method ResetGame()
      requires Valid()
      modifies this
      ensures Valid() && Mirrored()
      ensures scores == [0, 0] && scorePlayer1 == 0 && scorePlayer2 == 0
      ensures numMoves == 0 && moveRecords == [] && board == initialBoard
      ensures currentPlayerName == names[CurrentPlayer()] && CurrentPlayer() == 0
    {
      scorePlayer2 := 0;
      scorePlayer1 := 0;
      scores := [0, 0];
      moveRecords := [];
      numMoves := 0;
      board := initialBoard;
      currentPlayerName := names[CurrentPlayer()];
    }
  }

  /** A game in which one move has been played and which is then reset as written shows the
      second player's name, while the first player is to move. */
  method ResetAfterOneMove(names: seq<string>, engine: Engine) returns (shown: string, toMove: string)
    requires |names| == 2 && names[0] != names[1]
    ensures shown == names[1] && toMove == names[0] && shown != toMove
  {
    var game := new FXJesonMor(names, [0, 0], map[], 0, true, true, engine);
    game.IncMove();
    game.ResetGameAsWritten();
    shown := game.currentPlayerName;
    toMove := game.names[game.CurrentPlayer()];
  }
}
