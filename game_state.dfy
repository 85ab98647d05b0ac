/**
 * The registry shared by all connections: every registered player by
 * connection id, every running game by game id, and the queue of players
 * waiting for an opponent.  Both dictionaries compare their keys ignoring
 * case, so each is modelled as a map keyed by the case-folded key.
 */
module GameStates {
  import opened Optional
  import opened Text
  import opened Boards
  import opened Players
  import opened Games

  /** Every entry is stored under the folded form of its own id, and every game has a 3x3 board. */
  ghost predicate KeysMatchIn(players: map<string, Player>, games: map<string, Game>) {
    && (forall k :: k in players ==> CaseFold(players[k].id) == k)
    && (forall k :: k in games ==> CaseFold(games[k].id) == k && games[k].board.Valid())
  }

  /** The game a player's game id names in `games`, found through the folded key. */
  ghost function GameNamed(games: map<string, Game>, player: Player): Option<Game>
    reads player
  {
    match player.gameId
    case None => None
    case Some(gid) =>
      if CaseFold(gid) in games && games[CaseFold(gid)].id == gid then Some(games[CaseFold(gid)]) else None
  }

  /** A registered player's game id, once set, names a stored game that the player takes part in. */
  ghost predicate LinkedIn(players: map<string, Player>, games: map<string, Game>)
    reads players.Values
  {
    forall k :: k in players && players[k].gameId.Some? ==>
      GameNamed(games, players[k]).Some? && InGame(players[k], GameNamed(games, players[k]).value)
  }

  /** Forgetting a game together with both its players keeps every remaining player linked. */
  lemma RemovalKeepsLinked(players: map<string, Player>, games: map<string, Game>, key: string)
    requires key in games && KeysMatchIn(players, games) && LinkedIn(players, games)
    ensures LinkedIn(players - {CaseFold(games[key].player1.id), CaseFold(games[key].player2.id)}, games - {key})
  {
  }

  /** A player whose game id is that of a game just stored under its folded id finds that game. */
  lemma StoredGameIsNamed(games: map<string, Game>, game: Game, player: Player)
    requires CaseFold(game.id) in games && games[CaseFold(game.id)] == game && player.gameId == Some(game.id)
    ensures GameNamed(games, player) == Some(game)
  {
  }

  /** Every stored game, its board, its grid and its players are among `parts`. */
  ghost predicate PartsCoveredIn(games: map<string, Game>, parts: set<object>) {
    forall k :: k in games ==>
      games[k] in parts && games[k].board in parts && games[k].board.pieces in parts
      && games[k].player1 in parts && games[k].player2 in parts
  }

  /** Every stored game keeps its own invariant. */
  ghost predicate GamesValidIn(games: map<string, Game>, parts: set<object>)
    requires PartsCoveredIn(games, parts)
    reads parts
  {
    forall g :: g in games.Values ==> g.Valid()
  }

  /** Two stored games share neither a board nor a player. */
  ghost predicate SeparatedIn(games: map<string, Game>) {
    forall k, k' :: k in games && k' in games && k != k' ==>
      && games[k].board != games[k'].board
      && games[k].board.pieces != games[k'].board.pieces
      && !InGame(games[k].player1, games[k']) && !InGame(games[k].player2, games[k'])
  }

  /** No player waits twice, and no waiting player is playing. */
  ghost predicate QueueSeparatedIn(queue: seq<Player>, games: map<string, Game>) {
    && (forall i, j :: 0 <= i < j < |queue| ==> queue[i] != queue[j])
    && (forall i, k :: 0 <= i < |queue| && k in games ==> !InGame(queue[i], games[k]))
  }

  /** Forgetting a game leaves the others covered and valid. */
  lemma RemovalKeepsGamesValid(games: map<string, Game>, parts: set<object>, key: string)
    requires PartsCoveredIn(games, parts) && GamesValidIn(games, parts)
    ensures PartsCoveredIn(games - {key}, parts) && GamesValidIn(games - {key}, parts)
  {
  }

  /**
   * Storing a new game under a new key keeps games apart and the queue apart
   * from them, when the new game's board is new and its players are distinct,
   * not waiting and not playing.
   */
  lemma AddingKeepsSeparated(games: map<string, Game>, queue: seq<Player>, key: string, game: Game)
    requires key !in games && SeparatedIn(games) && QueueSeparatedIn(queue, games)
    requires game.player1 != game.player2 && game.player1 !in queue && game.player2 !in queue
    requires forall k :: k in games ==>
      && game.board != games[k].board && game.board.pieces != games[k].board.pieces
      && !InGame(game.player1, games[k]) && !InGame(game.player2, games[k])
    ensures SeparatedIn(games[key := game]) && QueueSeparatedIn(queue, games[key := game])
  {
  }

  /**
   * Storing a new game whose two players now name it keeps every registered
   * player linked, when no other player's game id changed.
   */
  twostate lemma CreationKeepsLinked(s: GameState, new game: Game)
    requires old(s.Linked()) && CaseFold(game.id) !in old(s.games)
    requires s.games == old(s.games)[CaseFold(game.id) := game] && s.players == old(s.players)
    requires game.player1.gameId == Some(game.id) && game.player2.gameId == Some(game.id)
    requires forall p :: p in old(s.players).Values && !InGame(p, game) ==> p.gameId == old(p.gameId)
    ensures s.Linked()
  {
    forall k | k in s.players && s.players[k].gameId.Some?
      ensures GameNamed(s.games, s.players[k]).Some?
      ensures InGame(s.players[k], GameNamed(s.games, s.players[k]).value)
    {
      var p := s.players[k];
      if !InGame(p, game) {
        assert old(GameNamed(s.games, p)).Some? && InGame(p, old(GameNamed(s.games, p)).value);
      }
    }
  }

  /** A game none of whose objects changed keeps its invariant. */
  twostate lemma UntouchedGameStaysValid(g: Game)
    requires old(g.Valid()) && unchanged(g, g.board, g.board.pieces, g.player1, g.player2)
    ensures g.Valid()
  {
  }

  /**
   * Storing a valid new game keeps every stored game valid and covered, when
   * only the new game's players changed and neither plays in a stored game.
   */
  twostate lemma CreationKeepsGamesValid(s: GameState, new game: Game)
    requires old(s.PartsCovered() && s.GamesValid()) && CaseFold(game.id) !in old(s.games)
    requires game.Valid()
    requires forall k :: k in old(s.games) ==> !InGame(game.player1, old(s.games)[k]) && !InGame(game.player2, old(s.games)[k])
    requires s.games == old(s.games)[CaseFold(game.id) := game]
    requires s.parts == old(s.parts) + {game, game.board, game.board.pieces, game.player1, game.player2}
    requires unchanged(old(s.parts) - {game.player1, game.player2})
    ensures s.PartsCovered() && s.GamesValid()
  {
    forall g | g in s.games.Values ensures g.Valid() {
      if g != game {
        var k :| k in s.games && s.games[k] == g;
        assert k in old(s.games) && old(s.games)[k] == g;
        assert !InGame(game.player1, g) && !InGame(game.player2, g);
        assert g in old(s.parts) && g.board in old(s.parts) && g.board.pieces in old(s.parts);
        assert g.player1 in old(s.parts) && g.player2 in old(s.parts);
        UntouchedGameStaysValid(g);
      }
    }
  }

  /**
   * A move in one stored game keeps the registry valid, when nothing but that
   * game, its board and its grid changed and the game stays valid itself.
   */
  twostate lemma MoveKeepsValid(s: GameState, new g: Game)
    requires old(s.Valid()) && g in old(s.games).Values && unchanged(s)
    requires g.Valid()
    requires unchanged(s.players.Values)
    requires unchanged(old(s.parts) - {g, g.board, g.board.pieces})
    ensures s.Valid()
  {
    forall h | h in s.games.Values ensures h.Valid() {
      if h != g {
        var k :| k in s.games && s.games[k] == h;
        var k' :| k' in s.games && s.games[k'] == g;
        assert h.board != g.board && h.board.pieces != g.board.pieces;
        assert h in old(s.parts) && h.board in old(s.parts) && h.board.pieces in old(s.parts);
        assert h.player1 in old(s.parts) && h.player2 in old(s.parts);
        UntouchedGameStaysValid(h);
      }
    }
  }

  class GameState {
    /** All players, keyed by the case-folded connection id. */
    var players: map<string, Player>

    /** All games, keyed by the case-folded game id. */
    var games: map<string, Game>

    /** Players waiting for an opponent, oldest first. */
    var waitingPlayers: seq<Player>

    ghost predicate KeysMatch()
      reads this
    {
      KeysMatchIn(players, games)
    }

    ghost predicate Linked()
      reads this, players.Values
    {
      LinkedIn(players, games)
    }

    /** A superset of the objects the stored games are made of: games, boards, grids and players. */
    ghost var parts: set<object>

    /** The registry itself is not among the parts of its games. */
    ghost predicate PartsCovered()
      reads this
    {
      this !in parts && PartsCoveredIn(games, parts)
    }

    ghost predicate GamesValid()
      requires PartsCovered()
      reads this, parts
    {
      GamesValidIn(games, parts)
    }

    ghost predicate Separated()
      reads this
    {
      SeparatedIn(games)
    }

    /** A player may be put in a game: it is neither waiting nor playing. */
    ghost predicate Available(p: Player)
      reads this
    {
      p !in waitingPlayers && forall k :: k in games ==> !InGame(p, games[k])
    }

    ghost predicate QueueSeparated()
      reads this
    {
      QueueSeparatedIn(waitingPlayers, games)
    }

    ghost predicate Valid()
      reads this, players.Values, parts
    {
      KeysMatch() && Linked() && PartsCovered() && GamesValid() && Separated() && QueueSeparated()
    }

    constructor()
      ensures Valid()
      ensures players == map[] && games == map[] && waitingPlayers == []
    {
      players := map[];
      games := map[];
      waitingPlayers := [];
      parts := {};
    }

    /** Registers a new player under its connection id, replacing any player stored there. */
    method CreatePlayer(username: string, connectionId: string) returns (player: Player)
      requires Valid()
      modifies this
      ensures Valid()
      ensures fresh(player) && player.name == username && player.id == connectionId
      ensures player.gameId == None && player.piece == ""
      ensures players == old(players)[CaseFold(connectionId) := player]
      ensures games == old(games) && waitingPlayers == old(waitingPlayers)
      ensures GetPlayer(connectionId) == Some(player)
      ensures IsUsernameTaken(username)
    {
      player := new Player(username, connectionId);
      players := players[CaseFold(connectionId) := player];
      EqualsIgnoreCaseIffSameFold(username, username);
    }

    /** The player registered under the given connection id, compared ignoring case. */
    function GetPlayer(playerId: string): Option<Player>
      reads this
    {
      if CaseFold(playerId) in players then Some(players[CaseFold(playerId)]) else None
    }

    /** The game a player's game id names, found through the game dictionary's key. */
    ghost function GameOf(player: Player): Option<Game>
      reads this, player
    {
      GameNamed(games, player)
    }

    /** Finds the game whose id is the player's game id, and the other participant of that game. */
    method GetGame(player: Player) returns (game: Option<Game>, opponent: Option<Player>)
      ensures game.Some? <==> exists g :: g in games.Values && Some(g.id) == player.gameId
      ensures game.Some? ==> game.value in games.Values && Some(game.value.id) == player.gameId
      ensures game.Some? ==>
        opponent == Some(if player.id == game.value.player1.id then game.value.player2 else game.value.player1)
      ensures game.None? ==> opponent.None?
      ensures Valid() ==> game == GameOf(player)
    {
      opponent := None;
      if exists g :: g in games.Values && Some(g.id) == player.gameId {
        var g :| g in games.Values && Some(g.id) == player.gameId;
        game := Some(g);
        opponent := Some(if player.id == g.player1.id then g.player2 else g.player1);
        if Valid() {
          var k :| k in games && games[k] == g;
          assert CaseFold(g.id) == k;
        }
      } else {
        game := None;
      }
    }

    /** Takes the player who has waited longest out of the queue, if there is one. */
    method GetWaitingOpponent() returns (opponent: Option<Player>)
      requires Valid()
      modifies this
      ensures Valid()
      ensures opponent.Some? ==> Available(opponent.value)
      ensures old(waitingPlayers) == [] ==> opponent == None && waitingPlayers == []
      ensures old(waitingPlayers) != [] ==>
        opponent == Some(old(waitingPlayers)[0]) && waitingPlayers == old(waitingPlayers)[1..]
      ensures players == old(players) && games == old(games)
    {
      if waitingPlayers == [] {
        return None;
      }
      opponent := Some(waitingPlayers[0]);
      waitingPlayers := waitingPlayers[1..];
    }

    /**
     * Forgets a game and both of its players; the queue is left as it is.
     * `found` is false, and nothing changes, when no game has that id (the
     * server throws in that case).
     */
    method RemoveGame(gameId: string) returns (found: bool)
      requires Valid()
      modifies this
      ensures Valid()
      ensures found <==> CaseFold(gameId) in old(games)
      ensures found ==>
        var g := old(games[CaseFold(gameId)]);
        && games == old(games) - {CaseFold(gameId)}
        && players == old(players) - {CaseFold(g.player1.id), CaseFold(g.player2.id)}
        && GetPlayer(g.player1.id) == None && GetPlayer(g.player2.id) == None
      ensures !found ==> games == old(games) && players == old(players)
      ensures waitingPlayers == old(waitingPlayers)
    {
      var key := CaseFold(gameId);
      if key !in games {
        return false;
      }
      var foundGame := games[key];
      RemovalKeepsLinked(players, games, key);
      RemovalKeepsGamesValid(games, parts, key);
      games, players := games - {key}, players - {CaseFold(foundGame.player1.id), CaseFold(foundGame.player2.id)};
      return true;
    }

    /** Puts a player at the back of the queue. */
    method AddToWaitingPool(player: Player)
      requires Valid()
      modifies this
      ensures old(Available(player)) ==> Valid()
      ensures waitingPlayers == old(waitingPlayers) + [player]
      ensures players == old(players) && games == old(games)
    {
      waitingPlayers := waitingPlayers + [player];
    }

    /** Whether some registered player's name equals the given one, ignoring case. */
    function IsUsernameTaken(username: string): bool
      reads this
    {
      exists p :: p in players.Values && EqualsIgnoreCase(p.name, username)
    }

    /**
     * Creates a game between the two players, the first of whom moves first, and
     * stores it; `gameId` stands for the freshly generated GUID.  The players
     * must be two different players, neither waiting nor playing, as they are
     * at the one place the hub creates a game.
     */
    method CreateGame(firstPlayer: Player, secondPlayer: Player, gameId: string) returns (game: Game)
      requires Valid() && CaseFold(gameId) !in games
      requires firstPlayer != secondPlayer && Available(firstPlayer) && Available(secondPlayer)
      modifies this, firstPlayer, secondPlayer
      ensures Valid()
      ensures fresh(game) && fresh(game.board) && fresh(game.board.pieces) && game.board.Valid()
      ensures game.id == gameId && game.player1 == firstPlayer && game.player2 == secondPlayer
      ensures game.board.Cells() == EmptyCells && game.board.totalPiecesPlaced == 0 && game.isFirstPlayersTurn
      ensures firstPlayer.gameId == Some(gameId) && secondPlayer.gameId == Some(gameId)
      ensures firstPlayer.piece == FirstPiece && secondPlayer.piece == SecondPiece && game.Valid()
      ensures games == old(games)[CaseFold(gameId) := game]
      ensures players == old(players) && waitingPlayers == old(waitingPlayers)
      ensures GameOf(firstPlayer) == Some(game) && GameOf(secondPlayer) == Some(game)
    {
      game := new Game(firstPlayer, secondPlayer, gameId);
      var key := CaseFold(game.id);
      AddingKeepsSeparated(games, waitingPlayers, key, game);
      games, parts := games[key := game], parts + {game, game.board, game.board.pieces, firstPlayer, secondPlayer};
      CreationKeepsLinked(this, game);
      StoredGameIsNamed(games, game, firstPlayer);
      StoredGameIsNamed(games, game, secondPlayer);
      CreationKeepsGamesValid(this, game);
    }
  }

  /** Player lookup does not depend on the case of the connection id. */
  lemma GetPlayerIgnoresCase(state: GameState, a: string, b: string)
    requires EqualsIgnoreCase(a, b)
    ensures state.GetPlayer(a) == state.GetPlayer(b)
  {
    EqualsIgnoreCaseIffSameFold(a, b);
  }

  /** Whether a name is taken does not depend on its case. */
  lemma UsernameTakenIgnoresCase(state: GameState, a: string, b: string)
    requires EqualsIgnoreCase(a, b)
    ensures state.IsUsernameTaken(a) == state.IsUsernameTaken(b)
  {
  }

  /** In a valid registry the player found under a connection id carries that id, up to case. */
  lemma GetPlayerFindsOwnId(state: GameState, playerId: string)
    requires state.Valid() && state.GetPlayer(playerId).Some?
    ensures EqualsIgnoreCase(state.GetPlayer(playerId).value.id, playerId)
  {
    EqualsIgnoreCaseIffSameFold(state.GetPlayer(playerId).value.id, playerId);
  }

  /**
   * Two registered players are stored under different folded ids, so among
   * registered players equality (same id and name) is object identity.
   */
  lemma EqualsIsIdentityAmongRegistered(state: GameState, p: Player, q: Player)
    requires state.KeysMatch() && p in state.players.Values && q in state.players.Values
    ensures p.Equals(q) <==> p == q
  {
  }
}
