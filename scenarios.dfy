/**
 * Sessions of clients against a fresh server, each stating what the server
 * sends and keeps at the end: first-come first-served pairing, a refused
 * name, a waiting player who leaves, a won game and a full board that is
 * announced as a tie.
 */
module Scenarios {
  import opened Optional
  import opened Text
  import opened Boards
  import opened Players
  import opened Games
  import opened GameStates
  import opened Hubs

  /**
   * Two player objects made from the same name and connection id are equal
   * although they are different objects, and stay equal after one of them
   * joins a game.
   */
  method EqualsIsNotIdentity() returns (equal: bool, same: bool, stillEqual: bool)
    ensures equal && !same && stillEqual
  {
    var ann := new Player("ann", "c1");
    var twin := new Player("ann", "c1");
    var bob := new Player("bob", "c2");
    equal := ann.Equals(twin);
    same := ann == twin;
    var g := new Game(ann, bob, "g1");
    stillEqual := ann.Equals(twin);
  }

  /** A second client asking for a name that differs from a registered one only in case is refused. */
  method TakenNameIsRefused() returns (sent: seq<Notification>, registered: nat)
    ensures sent == [Send(Caller, UsernameTaken)] && registered == 1
  {
    var state := new GameState();
    var hub := new GameHub(state);
    var joined := hub.FindGame("c1", "ann", "g1");
    UsernameTakenIgnoresCase(state, "ann", "ANN");
    sent := hub.FindGame("c2", "ANN", "g2");
    registered := |state.players|;
  }

  /** A player who leaves while waiting stays registered and stays in the queue. */
  method WaitingPlayerIsKept() returns (joined: seq<Notification>, sent: seq<Notification>, kept: Option<Player>, queue: seq<Player>)
    ensures joined == [Send(Caller, PlayerJoined), Send(Caller, WaitingList)]
    ensures sent == [] && kept.Some? && kept.value.name == "ann" && queue == [kept.value]
  {
    var state := new GameState();
    var hub := new GameHub(state);
    joined := hub.FindGame("c1", "ann", "g1");
    sent := hub.OnDisconnected("c1");
    kept := state.GetPlayer("c1");
    queue := state.waitingPlayers;
  }

  /** The two names differ even ignoring case. */
  lemma DistinctNames()
    ensures !EqualsIgnoreCase("ann", "bob")
  {
    assert FoldChar("ann"[0]) == 'A' && FoldChar("bob"[0]) == 'B';
  }

  /**
   * "ann" joins and waits, then "bob" joins: the game starts with "ann", who
   * waited, as the first player, holding X and to move, on an empty board.
   */
  method WaiterMovesFirst() returns (started: seq<Notification>, view: GameView)
    ensures started == [Send(Caller, PlayerJoined), Send(Group("g1"), Start(view))]
    ensures view.player1.name == "ann" && view.player1.piece == "X"
    ensures view.player2.name == "bob" && view.player2.piece == "O"
    ensures view.whoseTurn == view.player1 && view.pieces == EmptyCells && !view.isOver
  {
    var state := new GameState();
    var hub := new GameHub(state);
    var joined := hub.FindGame("c1", "ann", "g1");
    assert !state.IsUsernameTaken("bob") by {
      assert state.players.Values == {state.waitingPlayers[0]};
      DistinctNames();
    }
    started := hub.FindGame("c2", "bob", "g1");
    var g := state.games[CaseFold("g1")];
    EmptyHasNoLine();
    view := g.View();
  }

  /** A new game between "ann" (X) and "bob" (O) after X (0,0) and O (0,1). */
  method FirstRound() returns (g: Game)
    ensures fresh(g) && fresh(g.board) && fresh(g.board.pieces) && g.board.Valid()
    ensures g.player1.name == "ann" && g.player1.piece == "X" && g.player2.piece == "O"
    ensures g.isFirstPlayersTurn && g.board.totalPiecesPlaced == 2
    ensures g.board.Cells() == EmptyCells[Index(0, 0) := "X"][Index(0, 1) := "O"]
  {
    var ann := new Player("ann", "c1");
    var bob := new Player("bob", "c2");
    g := new Game(ann, bob, "g1");
    g.PlacePiece(0, 0);
    g.PlacePiece(0, 1);
  }

  /** The same game after a second round: X (1,1) and O (1,2). */
  method OpenDiagonal() returns (g: Game)
    ensures fresh(g) && fresh(g.board) && fresh(g.board.pieces) && g.board.Valid()
    ensures g.player1.name == "ann" && g.player1.piece == "X"
    ensures g.isFirstPlayersTurn && g.board.totalPiecesPlaced == 4
    ensures g.board.Cells()[Index(0, 0)] == "X" && g.board.Cells()[Index(1, 1)] == "X"
  {
    g := FirstRound();
    g.PlacePiece(1, 1);
    g.PlacePiece(1, 2);
  }

  /**
   * X plays (0,0), O (0,1), X (1,1), O (1,2) and X (2,2): the last move
   * completes the diagonal, the game is over and it is not a tie, so the
   * server announces X's player as the winner.
   */
  method DiagonalWins() returns (over: bool, tie: bool, winner: string, cells: seq<string>)
    ensures over && !tie && winner == "ann"
    ensures |cells| == 9 && cells[Index(0, 0)] == cells[Index(1, 1)] == cells[Index(2, 2)] == "X"
  {
    var g := OpenDiagonal();
    winner := g.WhoseTurn().name;
    g.PlacePiece(2, 2);
    cells := g.board.Cells();
    assert Matching(cells[Index(0, 0)], cells[Index(1, 1)], cells[Index(2, 2)]) by {
      assert "X"[0] == 'X';
    }
    over := g.IsOver();
    tie := g.IsTie();
  }

  /** After the first round, X (0,2) and O (1,1). */
  method TopRowPlayed() returns (g: Game)
    ensures fresh(g) && fresh(g.board) && fresh(g.board.pieces) && g.board.Valid()
    ensures g.player1.piece == "X" && g.player2.piece == "O"
    ensures g.isFirstPlayersTurn && g.board.totalPiecesPlaced == 4
    ensures g.board.Cells() == EmptyCells[Index(0, 0) := "X"][Index(0, 1) := "O"][Index(0, 2) := "X"][Index(1, 1) := "O"]
  {
    g := FirstRound();
    g.PlacePiece(0, 2);
    g.PlacePiece(1, 1);
  }

  /** Then X (1,0) and O (1,2). */
  method MiddleRowPlayed() returns (g: Game)
    ensures fresh(g) && fresh(g.board) && fresh(g.board.pieces) && g.board.Valid()
    ensures g.player1.piece == "X" && g.player2.piece == "O"
    ensures g.isFirstPlayersTurn && g.board.totalPiecesPlaced == 6
    ensures g.board.Cells() == EmptyCells[Index(0, 0) := "X"][Index(0, 1) := "O"][Index(0, 2) := "X"][Index(1, 1) := "O"]
                                         [Index(1, 0) := "X"][Index(1, 2) := "O"]
  {
    g := TopRowPlayed();
    g.PlacePiece(1, 0);
    g.PlacePiece(1, 2);
  }

  /** Then X (2,1) and O (2,2): eight pieces, no line, and only (2,0) free. */
  method EightPlayed() returns (g: Game)
    ensures fresh(g) && fresh(g.board) && fresh(g.board.pieces) && g.board.Valid()
    ensures g.player1.piece == "X"
    ensures g.isFirstPlayersTurn && g.board.totalPiecesPlaced == 8
    ensures g.board.Cells() == EmptyCells[Index(0, 0) := "X"][Index(0, 1) := "O"][Index(0, 2) := "X"][Index(1, 1) := "O"]
                                         [Index(1, 0) := "X"][Index(1, 2) := "O"][Index(2, 1) := "X"][Index(2, 2) := "O"]
  {
    g := MiddleRowPlayed();
    g.PlacePiece(2, 1);
    g.PlacePiece(2, 2);
  }

  /**
   * The ninth move, X (2,0), fills the board and completes the first column:
   * the game is over, and since the board is full it counts as a tie, which
   * is what the server announces.
   */
  method FullBoardWithLineIsTie() returns (lineBefore: bool, over: bool, tie: bool, line: bool)
    ensures !lineBefore && over && tie && line
  {
    var g := EightPlayed();
    ghost var before := g.board.Cells();
    assert !ThreeInRow(before) by {
      assert "X"[0] != "O"[0];
      assert before[0] == "X" && before[1] == "O" && before[2] == "X";
      assert before[3] == "X" && before[4] == "O" && before[5] == "O";
      assert before[6] == "" && before[7] == "X" && before[8] == "O";
      assert !RowMatch(before, 0) && !RowMatch(before, 1) && !RowMatch(before, 2);
      assert !ColumnMatch(before, 0) && !ColumnMatch(before, 1) && !ColumnMatch(before, 2);
    }
    lineBefore := g.board.IsThreeInRow();
    g.PlacePiece(2, 0);
    assert ColumnMatch(g.board.Cells(), 0) by {
      assert "X"[0] == 'X';
    }
    over := g.IsOver();
    tie := g.IsTie();
    line := g.board.IsThreeInRow();
  }
}
