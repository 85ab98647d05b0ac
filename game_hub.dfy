/**
 * The per-connection entry points of the server.  Each handler updates the
 * shared registry and returns, in order, the notifications it sends: either
 * to the calling connection only or to the group of a game (its two players).
 */
module Hubs {
  import opened Optional
  import opened Text
  import opened Boards
  import opened Players
  import opened Games
  import opened GameStates

  /** Who receives a notification. */
  datatype Audience = Caller | Group(gameId: string)

  /** The client methods the server invokes, with their arguments. */
  datatype Message =
    | UsernameTaken
    | PlayerJoined
    | WaitingList
    | Start(game: GameView)
    | NotPlayersTurn
    | NotValidMove
    | PiecePlaced(row: int, col: int, piece: string)
    | UpdateTurn(game: GameView)
    | TieGame
    | Winner(name: string)
    | OpponentLeft

  datatype Notification = Send(to: Audience, message: Message)

  class GameHub {
    const gameState: GameState

    constructor(state: GameState)
      ensures gameState == state
    {
      gameState := state;
    }

    /** The game the player registered under this connection is in, if any. */
    ghost function ActiveGame(connectionId: string): Option<Game>
      reads gameState, gameState.players.Values
    {
      match gameState.GetPlayer(connectionId)
      case None => None
      case Some(p) => gameState.GameOf(p)
    }

    /** The connection's player is in a game and that game's current mover equals the player. */
    ghost predicate IsCallersTurn(connectionId: string)
      reads gameState, gameState.players.Values, gameState.games.Values
    {
      match gameState.GetPlayer(connectionId)
      case None => false
      case Some(p) => gameState.GameOf(p).Some? && gameState.GameOf(p).value.WhoseTurn().Equals(p)
    }

    /** The objects a move on behalf of this connection may change: its game and that game's board. */
    ghost function MoveFrame(connectionId: string): set<object>
      reads gameState, gameState.players.Values
    {
      match ActiveGame(connectionId)
      case None => {}
      case Some(g) => {g, g.board, g.board.pieces}
    }

    /**
     * A client asks to play under `username`.  A taken name is refused; otherwise
     * the player is registered and either paired with the longest-waiting player,
     * who becomes the first player, or put in the queue.  `newGameId` stands for
     * the GUID a new game would receive.
     */
    method FindGame(connectionId: string, username: string, newGameId: string) returns (sent: seq<Notification>)
      requires gameState.Valid() && CaseFold(newGameId) !in gameState.games
      modifies gameState, if gameState.waitingPlayers == [] then {} else {gameState.waitingPlayers[0]}
      ensures gameState.Valid()
      ensures old(gameState.IsUsernameTaken(username)) ==>
        && sent == [Send(Caller, UsernameTaken)]
        && unchanged(old(gameState.waitingPlayers))
        && gameState.players == old(gameState.players)
        && gameState.games == old(gameState.games)
        && gameState.waitingPlayers == old(gameState.waitingPlayers)
      ensures !old(gameState.IsUsernameTaken(username)) ==>
        && gameState.GetPlayer(connectionId).Some?
        && var p := gameState.GetPlayer(connectionId).value;
        && fresh(p) && p.name == username && p.id == connectionId
        && gameState.players == old(gameState.players)[CaseFold(connectionId) := p]
        && gameState.IsUsernameTaken(username)
        && (old(gameState.waitingPlayers) == [] ==>
              && sent == [Send(Caller, PlayerJoined), Send(Caller, WaitingList)]
              && gameState.waitingPlayers == [p]
              && gameState.games == old(gameState.games)
              && p.gameId == None)
        && (old(gameState.waitingPlayers) != [] ==>
              && gameState.waitingPlayers == old(gameState.waitingPlayers)[1..]
              && CaseFold(newGameId) in gameState.games
              && var g := gameState.games[CaseFold(newGameId)];
              && fresh(g) && fresh(g.board) && fresh(g.board.pieces) && g.id == newGameId
              && g.player1 == old(gameState.waitingPlayers)[0] && g.player2 == p
              && gameState.games == old(gameState.games)[CaseFold(newGameId) := g]
              && g.Valid() && g.isFirstPlayersTurn && g.board.Cells() == EmptyCells && g.board.totalPiecesPlaced == 0
              && g.player1.gameId == Some(newGameId) && p.gameId == Some(newGameId)
              && g.WhoseTurn() == old(gameState.waitingPlayers)[0]
              && sent == [Send(Caller, PlayerJoined), Send(Group(newGameId), Start(g.View()))])
    {
      if gameState.IsUsernameTaken(username) {
        return [Send(Caller, UsernameTaken)];
      }
      var joiningPlayer := gameState.CreatePlayer(username, connectionId);
      var placement := PairOrQueue(joiningPlayer, newGameId);
      sent := [Send(Caller, PlayerJoined), placement];
    }

    /**
     * The second half of joining: the longest-waiting player, if any, is taken
     * out of the queue and a game is started with it as the first player and
     * the newcomer as the second; otherwise the newcomer waits.
     */
    method PairOrQueue(joiningPlayer: Player, newGameId: string) returns (notice: Notification)
      requires gameState.Valid() && CaseFold(newGameId) !in gameState.games
      requires gameState.Available(joiningPlayer)
      modifies gameState, joiningPlayer, if gameState.waitingPlayers == [] then {} else {gameState.waitingPlayers[0]}
      ensures gameState.Valid()
      ensures gameState.players == old(gameState.players)
      ensures old(gameState.waitingPlayers) == [] ==>
        && notice == Send(Caller, WaitingList)
        && gameState.waitingPlayers == [joiningPlayer]
        && gameState.games == old(gameState.games)
        && unchanged(joiningPlayer)
      ensures old(gameState.waitingPlayers) != [] ==>
        && gameState.waitingPlayers == old(gameState.waitingPlayers)[1..]
        && CaseFold(newGameId) in gameState.games
        && var g := gameState.games[CaseFold(newGameId)];
        && fresh(g) && fresh(g.board) && fresh(g.board.pieces) && g.id == newGameId
        && g.player1 == old(gameState.waitingPlayers)[0] && g.player2 == joiningPlayer
        && gameState.games == old(gameState.games)[CaseFold(newGameId) := g]
        && g.Valid() && g.isFirstPlayersTurn && g.board.Cells() == EmptyCells && g.board.totalPiecesPlaced == 0
        && g.player1.gameId == Some(newGameId) && joiningPlayer.gameId == Some(newGameId)
        && g.WhoseTurn() == old(gameState.waitingPlayers)[0]
        && notice == Send(Group(newGameId), Start(g.View()))
    {
      var opponent := gameState.GetWaitingOpponent();
      if opponent.None? {
        gameState.AddToWaitingPool(joiningPlayer);
        notice := Send(Caller, WaitingList);
      } else {
        // the opponent waited first, so it becomes the first player
        var newGame := gameState.CreateGame(opponent.value, joiningPlayer, newGameId);
        notice := Send(Group(newGame.id), Start(newGame.View()));
      }
    }

    /**
     * A client asks to place a piece at (row, col).  The server throws when the
     * caller is to move and a coordinate is negative while both are below 3;
     * the precondition excludes exactly those inputs.
     */
    method PlacePiece(connectionId: string, row: int, col: int) returns (sent: seq<Notification>)
      requires gameState.Valid() && (IsCallersTurn(connectionId) && row < 3 && col < 3 ==> 0 <= row && 0 <= col)
      modifies gameState, MoveFrame(connectionId)
      ensures gameState.Valid()
      ensures gameState.waitingPlayers == old(gameState.waitingPlayers)
      ensures !old(IsCallersTurn(connectionId)) ==>
        && sent == [Send(Caller, NotPlayersTurn)]
        && unchanged(gameState)
        && unchanged(old(MoveFrame(connectionId)))
      ensures old(IsCallersTurn(connectionId)) ==>
        var g := old(ActiveGame(connectionId)).value;
        var p := old(gameState.GetPlayer(connectionId)).value;
        && (!old(g.IsValidMove(row, col)) ==>
              && sent == [Send(Caller, NotValidMove)]
              && unchanged(gameState)
              && unchanged(g, g.board, g.board.pieces))
        && (old(g.IsValidMove(row, col)) ==>
              && g.board.Cells() == old(g.board.Cells())[Index(row, col) := old(g.WhoseTurn().piece)]
              && g.board.totalPiecesPlaced == old(g.board.totalPiecesPlaced) + 1
              && g.isFirstPlayersTurn == !old(g.isFirstPlayersTurn)
              && |sent| == 2
              && sent[0] == Send(Group(g.id), PiecePlaced(row, col, p.piece))
              && if !g.IsTie() && !ThreeInRow(g.board.Cells()) then
                   && sent[1] == Send(Group(g.id), UpdateTurn(g.View()))
                   && gameState.games == old(gameState.games)
                   && gameState.players == old(gameState.players)
                 else
                   && sent[1] == Send(Group(g.id), if g.IsTie() then TieGame else Winner(p.name))
                   && gameState.games == old(gameState.games) - {CaseFold(g.id)}
                   && gameState.players == old(gameState.players) - {CaseFold(g.player1.id), CaseFold(g.player2.id)}
                   && gameState.GetPlayer(connectionId) == None)
    {
      var playerMakingTurn := gameState.GetPlayer(connectionId);
      if playerMakingTurn.None? {
        return [Send(Caller, NotPlayersTurn)];
      }
      var player := playerMakingTurn.value;
      var game, opponent := gameState.GetGame(player);
      if game.None? || !game.value.WhoseTurn().Equals(player) {
        return [Send(Caller, NotPlayersTurn)];
      }
      var g := game.value;
      if !g.IsValidMove(row, col) {
        return [Send(Caller, NotValidMove)];
      }
      sent := CompleteMove(player, g, row, col);
    }

    /**
     * The end of a valid move: the piece is placed and announced, then the
     * outcome of the move is announced.
     */
    method CompleteMove(player: Player, g: Game, row: int, col: int) returns (sent: seq<Notification>)
      requires gameState.Valid() && g in gameState.games.Values && 0 <= row < 3 && 0 <= col < 3
      requires player == g.player1 || player == g.player2
      requires g.IsValidMove(row, col)
      modifies gameState, g, g.board, g.board.pieces
      ensures gameState.Valid()
      ensures gameState.waitingPlayers == old(gameState.waitingPlayers)
      ensures g.board.Cells() == old(g.board.Cells())[Index(row, col) := old(g.WhoseTurn().piece)]
      ensures g.board.totalPiecesPlaced == old(g.board.totalPiecesPlaced) + 1
      ensures g.isFirstPlayersTurn == !old(g.isFirstPlayersTurn)
      ensures g.Valid()
      ensures |sent| == 2 && sent[0] == Send(Group(g.id), PiecePlaced(row, col, player.piece))
      ensures !g.IsTie() && !ThreeInRow(g.board.Cells()) ==>
        && sent[1] == Send(Group(g.id), UpdateTurn(g.View()))
        && gameState.games == old(gameState.games)
        && gameState.players == old(gameState.players)
      ensures g.IsTie() || ThreeInRow(g.board.Cells()) ==>
        && sent[1] == Send(Group(g.id), if g.IsTie() then TieGame else Winner(player.name))
        && gameState.games == old(gameState.games) - {CaseFold(g.id)}
        && gameState.players == old(gameState.players) - {CaseFold(g.player1.id), CaseFold(g.player2.id)}
        && gameState.GetPlayer(player.id) == None
    {
      g.PlacePiece(row, col);
      MoveKeepsValid(gameState, g);
      var outcome := AnnounceOutcome(player, g);
      sent := [Send(Group(g.id), PiecePlaced(row, col, player.piece)), outcome];
    }

    /**
     * After a move: if the game goes on, the new turn is announced; otherwise
     * the result is, and the game and its players are forgotten.  A full board
     * is announced as a tie even when the last piece completed a line.
     */
    method AnnounceOutcome(player: Player, g: Game) returns (outcome: Notification)
      requires gameState.Valid() && g in gameState.games.Values
      requires player == g.player1 || player == g.player2
      modifies gameState
      ensures gameState.Valid()
      ensures gameState.waitingPlayers == old(gameState.waitingPlayers)
      ensures !g.IsTie() && !ThreeInRow(g.board.Cells()) ==>
        && outcome == Send(Group(g.id), UpdateTurn(g.View()))
        && gameState.games == old(gameState.games)
        && gameState.players == old(gameState.players)
      ensures g.IsTie() || ThreeInRow(g.board.Cells()) ==>
        && outcome == Send(Group(g.id), if g.IsTie() then TieGame else Winner(player.name))
        && gameState.games == old(gameState.games) - {CaseFold(g.id)}
        && gameState.players == old(gameState.players) - {CaseFold(g.player1.id), CaseFold(g.player2.id)}
        && gameState.GetPlayer(player.id) == None
    {
      var over := g.IsOver();
      if !over {
        outcome := Send(Group(g.id), UpdateTurn(g.View()));
      } else {
        if g.IsTie() {
          outcome := Send(Group(g.id), TieGame);
        } else {
          outcome := Send(Group(g.id), Winner(player.name));
        }
        var removed := gameState.RemoveGame(g.id);
      }
    }

    /**
     * A connection closed.  If its player is in a game, the game's group is told
     * and the game and both players are forgotten; a player still waiting for an
     * opponent stays registered and stays in the queue.
     */
    method OnDisconnected(connectionId: string) returns (sent: seq<Notification>)
      requires gameState.Valid()
      modifies gameState
      ensures gameState.Valid()
      ensures gameState.waitingPlayers == old(gameState.waitingPlayers)
      ensures old(ActiveGame(connectionId)).None? ==> sent == [] && unchanged(gameState)
      ensures old(ActiveGame(connectionId)).Some? ==>
        var g := old(ActiveGame(connectionId)).value;
        && sent == [Send(Group(g.id), OpponentLeft)]
        && gameState.games == old(gameState.games) - {CaseFold(g.id)}
        && gameState.players == old(gameState.players) - {CaseFold(g.player1.id), CaseFold(g.player2.id)}
        && gameState.GetPlayer(connectionId) == None
    {
      sent := [];
      var leavingPlayer := gameState.GetPlayer(connectionId);
      if leavingPlayer.Some? {
        var ongoingGame, opponent := gameState.GetGame(leavingPlayer.value);
        if ongoingGame.Some? {
          sent := [Send(Group(ongoingGame.value.id), OpponentLeft)];
          var removed := gameState.RemoveGame(ongoingGame.value.id);
        }
      }
    }
  }
}
