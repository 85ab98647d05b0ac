# Tic-Tac-Toe server, modelled in Dafny

This project models the server of a two-player Tic-Tac-Toe game. Clients
connect, pick a user name and ask for a game. The server pairs them in
first-come first-served order and keeps the board. It checks every move and
tells both players about each piece placed, whose turn is next, and how the
game ended.

The model follows the server's own layers:

- `board.dfy` (module `Boards`): the 3x3 board. `Board` keeps a
  `string` grid in an `array2` and a counter of placed pieces. Its contents
  are specified by their row-major listing `Cells()`, and the winning rule by
  the predicate `ThreeInRow`.
- `game.dfy` (module `Games`): a match. It has two players, one board and a
  turn flag. The first player holds "X" and moves first; the second holds "O".
  The ghost predicate `Game.Valid` is the game invariant. The counter equals
  the number of occupied cells. Every cell is free, "X" or "O". There are as
  many X's as O's when the first player is to move, and one more X otherwise.
- `player.dfy` (module `Players`): a player. Its name and connection id
  never change. Its game id and piece are set when a game starts.
- `game_state.dfy` (module `GameStates`): the registry shared by all
  connections. It holds players by connection id, games by game id, and the
  queue of waiting players. Both dictionaries compare keys ignoring case, so
  they are maps keyed by the case-folded key. The ghost predicate
  `GameState.Valid` is the registry invariant:
  - every entry is stored under its own folded id;
  - a player's game id names a stored game that the player plays in;
  - stored games share neither boards nor players;
  - no waiting player waits twice or is playing;
  - every stored game is valid.
- `game_hub.dfy` (module `Hubs`): the three connection handlers. Each one
  updates the registry and returns the notifications it sends, in order. A
  notification goes either to the caller or to the game's group (its two
  players).
- `text.dfy`: `Optional` (the stand-in for a null reference) and `Text`.
  `Text` holds the whitespace test that decides whether a cell is free, and
  the case-insensitive comparison.
- `scenarios.dfy` (module `Scenarios`): fixed client sessions against a fresh
  server. They cover:
  - a refused name;
  - a waiting player who leaves;
  - who moves first;
  - a won game;
  - a full board whose last move completes a line. The server announces this
    as a tie, and the model keeps that behaviour.

## Model

| member | source | states |
|---|---|---|
| Text.EqualsIgnoreCaseIffSameFold | TicTacToe/Hubs/GameState.cs:17-22 | two keys compare equal ignoring case exactly when their folded forms are equal, which is why a case-insensitive dictionary is a map keyed by the folded key |
| Boards.Board.constructor | TicTacToe/Models/Board.cs:15-27 | a new board is a fresh 3x3 grid with all nine cells "" and the counter 0; the counter agrees with the grid |
| Boards.CountNonBlankZero | TicTacToe/Models/Board.cs:15-27 | no cell is occupied exactly when every cell is blank (both directions) |
| Boards.Board.IsThreeInRow | TicTacToe/Models/Board.cs:36-80 | the scan of rows, columns and the two diagonals returns true exactly when some row, column or diagonal holds three equal non-blank pieces; it changes nothing |
| Boards.ThreeInRowIffWinningLine | TicTacToe/Models/Board.cs:36-80 | that rule agrees with an independent table of the eight winning lines, in both directions |
| Boards.EmptyHasNoLine | TicTacToe/Models/Board.cs:36-80 | a new board holds no line |
| Boards.SpacesLeftIffFreeCell | TicTacToe/Models/Board.cs:83-89 | with a counter that agrees with the grid, spaces are left exactly when some cell is free, and the counter stays within 0..9 |
| Boards.Board.AreSpacesLeft | TicTacToe/Models/Board.cs:83-89 | spaces are left while fewer pieces have been placed than the grid has cells; its meaning is stated by SpacesLeftIffFreeCell |
| Boards.CountNonBlankFull | TicTacToe/Models/Board.cs:83-89 | the occupied cells are all the cells exactly when no cell is blank |
| Boards.Board.PlacePiece | TicTacToe/Models/Board.cs:91-95 | cell (row, col) becomes the piece, the other eight cells keep their contents, and the counter grows by one; on a free cell with a non-blank piece the counter keeps agreeing with the grid |
| Boards.CountNonBlankPlace | TicTacToe/Models/Board.cs:91-95 | putting a non-blank piece on a free cell adds exactly one occupied cell |
| Players.Player.constructor | TicTacToe/Models/Player.cs:12-16 | name and id are the given ones; there is no game id and no piece yet |
| Players.Player.Equals | TicTacToe/Models/Player.cs:38-48 | equality holds exactly when the other object is a player with the same id and the same name; it is false for null and for any other kind of object, and it reads no mutable field, so the game id and piece never matter |
| Players.EqualsIsEquivalence | TicTacToe/Models/Player.cs:38-48 | equality of players is reflexive, symmetric and transitive |
| GameStates.EqualsIsIdentityAmongRegistered | TicTacToe/Hubs/GameHub.cs:60 | two registered players that are equal (same id and name) are the same object, because no two registered players share a folded id. This does not cover the turn check's mover, which need not be registered: a client that asks for a game again replaces its registered player, and that replaced player can stay queued after its game ends and later be paired with the same connection's next player. The mover is then an unregistered player equal to the caller, and the check lets the connection move for both sides. The hub's contract keeps that behaviour, because it compares by `Equals` as the server does |
| Games.Game.constructor | TicTacToe/Models/Game.cs:15-31 | a new game has a fresh empty board and the given id and players; both players carry its id; the first player holds "X", the second "O", and the first player moves; for two distinct players the game invariant holds |
| Games.Game.WhoseTurn | TicTacToe/Models/Game.cs:46-54 | the first player while the turn flag is set, the second otherwise; TurnFollowsBoard relates it to the board |
| Games.TurnFollowsBoard | TicTacToe/Models/Game.cs:46-54 | in a valid game the first player is to move exactly when X's and O's are equal in number, the mover holds the piece of its turn, and X's equal O's or exceed them by one |
| Games.Game.IsOver | TicTacToe/Models/Game.cs:58-64 | the game is over exactly when it is a tie or three in a row exists |
| Games.Game.IsTie | TicTacToe/Models/Game.cs:67-73 | a tie is declared when no spaces are left, whether or not a line exists; TieIffFull relates it to the board |
| Games.TieIffFull | TicTacToe/Models/Game.cs:67-73 | in a valid game a tie means that every cell is occupied (both directions), and the counter is the number of X's plus the number of O's |
| Games.Game.PlacePiece | TicTacToe/Models/Game.cs:77-85 | the current mover's piece is written at (row, col), the other cells keep their contents, the counter grows by one and the turn passes to the other player; a valid move keeps the game invariant |
| Games.CountPiecePlace | TicTacToe/Models/Game.cs:77-85 | overwriting one cell changes the count of a piece by what left the cell and what arrived |
| Games.OccupiedAreXsAndOs | TicTacToe/Models/Game.cs:77-85 | on a board holding only "", "X" and "O" the occupied cells are the X's and the O's |
| Games.Game.IsValidMove | TicTacToe/Models/Game.cs:89-95 | a move is valid exactly when it lies on the board and its cell is free; a coordinate of 3 or more is invalid whatever the other one is, since the bounds are tested before the cell is read |
| Games.NoValidMoveAfterTie | TicTacToe/Models/Game.cs:89-95 | once a valid game is tied, no move is valid |
| GameStates.GameState.constructor | TicTacToe/Hubs/GameState.cs:17-26 | the registry starts with no players, no games and an empty queue, and its invariant holds |
| GameStates.GameState.CreatePlayer | TicTacToe/Hubs/GameState.cs:38-44 | a fresh player with the given name and id, without game or piece, is stored under the id, replacing any earlier entry and leaving the others alone; it is found by that id and its name now counts as taken |
| GameStates.GameState.GetPlayer | TicTacToe/Hubs/GameState.cs:47-56 | the player stored under the connection id, compared ignoring case, or none; GetPlayerIgnoresCase and GetPlayerFindsOwnId state its properties |
| GameStates.GetPlayerIgnoresCase | TicTacToe/Hubs/GameState.cs:47-56 | looking up two ids that differ only in case finds the same player |
| GameStates.GetPlayerFindsOwnId | TicTacToe/Hubs/GameState.cs:47-56 | in a valid registry the player found under an id carries that id, up to case |
| GameStates.GameState.GetGame | TicTacToe/Hubs/GameState.cs:59-74 | a game is found exactly when a stored game's id equals the player's game id; the opponent is the other participant, and there is none when no game is found; in a valid registry the game found is the one the player's game id names |
| GameStates.GameState.GetWaitingOpponent | TicTacToe/Hubs/GameState.cs:77-86 | the player at the head of the queue is removed and returned, or nothing when the queue is empty; the dictionaries are unchanged and the registry invariant holds |
| GameStates.GameState.RemoveGame | TicTacToe/Hubs/GameState.cs:90-103 | the game is removed exactly when its id is stored; it is forgotten with both its players, neither player is found any more, the queue is untouched and the invariant holds; nothing changes when the id is absent |
| GameStates.RemovalKeepsLinked | TicTacToe/Hubs/GameState.cs:90-103 | forgetting a game together with its two players leaves every remaining player's game id naming a stored game the player plays in |
| GameStates.GameState.AddToWaitingPool | TicTacToe/Hubs/GameState.cs:106-109 | the player is appended at the tail of the queue and the dictionaries are unchanged; the invariant holds when the player was neither waiting nor playing |
| GameStates.GameState.IsUsernameTaken | TicTacToe/Hubs/GameState.cs:112-115 | whether some registered player's name equals the given one ignoring case; UsernameTakenIgnoresCase states its property |
| GameStates.UsernameTakenIgnoresCase | TicTacToe/Hubs/GameState.cs:112-115 | whether a name is taken does not depend on its case |
| GameStates.GameState.CreateGame | TicTacToe/Hubs/GameState.cs:118-129 | a new valid game between the two players, the first of whom moves first, is stored under its id and returned; the other games, the players map and the queue are unchanged; both players now find this game |
| GameStates.CreationKeepsLinked | TicTacToe/Hubs/GameState.cs:118-129 | storing a new game that both of its players name keeps every registered player linked to its game |
| GameStates.CreationKeepsGamesValid | TicTacToe/Hubs/GameState.cs:118-129 | storing a valid new game whose players play nowhere else keeps every stored game valid |
| GameStates.MoveKeepsValid | TicTacToe/Hubs/GameHub.cs:73-74 | a move that changes only one stored game and its board, and keeps that game valid, keeps the registry invariant |
| Hubs.GameHub.constructor | TicTacToe/Hubs/GameHub.cs:11-14 | the hub works on the registry it is given |
| Hubs.GameHub.FindGame | TicTacToe/Hubs/GameHub.cs:18-49 | a name already taken, up to case, gets only "usernameTaken" to the caller and changes nothing, not even the waiting players; otherwise a fresh player is registered under the connection id and "playerJoined" is sent. With an empty queue the player waits and the caller gets "waitingList". Otherwise only the longest-waiting player is changed: it leaves the queue and starts a new empty game as first player (X, to move) against the newcomer (O), and "start" goes to the game's group |
| Hubs.GameHub.PairOrQueue | TicTacToe/Hubs/GameHub.cs:34-48 | the queue's head, if any, is paired with the newcomer in a new game that starts with the head to move; otherwise the newcomer is appended to the queue; no other waiting player is changed |
| Hubs.GameHub.PlacePiece | TicTacToe/Hubs/GameHub.cs:52-99 | a caller without a game, or whose turn it is not, gets only "notPlayersTurn", and nothing changes; an invalid move gets only "notValidMove", and nothing changes. A valid move places the mover's piece, flips the turn and sends "piecePlaced" to the group. Then the group gets "updateTurn" if the game goes on, "tieGame" if the board is full, and otherwise "winner" with the mover's name. After either end the game and both players are forgotten. The queue is untouched and the invariant holds |
| Hubs.GameHub.CompleteMove | TicTacToe/Hubs/GameHub.cs:73-98 | the piece is placed and announced, then the outcome is announced as above |
| Hubs.GameHub.AnnounceOutcome | TicTacToe/Hubs/GameHub.cs:77-98 | an unfinished game gets "updateTurn"; a finished one gets "tieGame" when the board is full and "winner" otherwise, and the game and both its players are removed |
| Hubs.GameHub.OnDisconnected | TicTacToe/Hubs/GameHub.cs:102-119 | when the leaving player is in a game, the group gets "opponentLeft" and the game and both players are forgotten; otherwise nothing is sent and nothing changes, so a waiting player stays registered and queued |
| Scenarios.EqualsIsNotIdentity | TicTacToe/Models/Player.cs:38-48 | two player objects made from the same name and id are equal though they are different objects, and they stay equal after one joins a game |
| Scenarios.TakenNameIsRefused | TicTacToe/Hubs/GameHub.cs:20-27 | after "ann" registers, a request for "ANN" gets only "usernameTaken" and one player stays registered |
| Scenarios.WaitingPlayerIsKept | TicTacToe/Hubs/GameHub.cs:102-119 | a player who leaves while waiting gets no notification sent, stays registered and stays in the queue |
| Scenarios.WaiterMovesFirst | TicTacToe/Hubs/GameHub.cs:34-48 | when "bob" joins after "ann" waited, the game starts with "ann" as first player holding X and to move, "bob" holding O, and an empty board |
| Scenarios.FirstRound | TicTacToe/Models/Game.cs:77-85 | after X plays (0,0) and O plays (0,1), those two cells hold X and O, two pieces are counted and the first player is to move again |
| Scenarios.DiagonalWins | TicTacToe/Models/Game.cs:58-73 | after X (0,0), O (0,1), X (1,1), O (1,2) and X (2,2), the game is over and not a tie, so the mover who completed the diagonal, "ann", is the winner |
| Scenarios.FullBoardWithLineIsTie | TicTacToe/Models/Game.cs:58-73 | a ninth move that completes a column leaves a line on the board, yet the game counts as a tie |

## Left out

- SignalR transport: `SendAsync`, the caller and group proxies, and adding players to a game's group (TicTacToe/Hubs/GameState.cs:125-126). A notification is a value naming its audience. A group stands for the game's two players.
- Concurrency: the concurrent dictionaries and queue become plain maps and a sequence, and `async`/`await` is dropped. Each handler runs to completion on its own. The race between checking a name and registering it is therefore not modelled.
- `Guid.NewGuid()` (TicTacToe/Models/Game.cs:19): the new game id is a parameter. The caller guarantees that it is not yet a stored key.
- `int.Parse` of the move coordinates (TicTacToe/Hubs/GameHub.cs:54-55): the handler takes integers.
- Case-insensitive comparison: the model folds only the Latin letters a-z to upper case and compares character by character. The dictionaries' ordinal ignore-case comparison (TicTacToe/Hubs/GameState.cs:18, 22) also folds other letters. The name check uses the invariant culture's linguistic comparison (TicTacToe/Hubs/GameState.cs:114). That comparison can also equate strings of different lengths, such as a name with an ignorable character (a soft hyphen, U+00AD) and the same name without it, or composed and decomposed forms of a letter. The model's length-preserving comparison cannot express that.
- JSON serialisation of the game in "start" and "updateTurn": the payload is a `GameView` snapshot of the game.
- `ToString` and `GetHashCode` of players, games and boards: diagnostics and hashing only.
- Hubs.GameHub.PlacePiece: requires both coordinates to be non-negative when the caller is to move and both are below 3. Those are exactly the inputs on which the server reads the grid at a negative index and throws. Every other input, negative coordinates included, is modelled: a caller who is not to move gets "notPlayersTurn", and a coordinate of 3 or more gets "notValidMove".
- Hubs.GameHub.PlacePiece: a connection with no registered player is answered with "notPlayersTurn". The server does the same while no game is stored. While some game is stored, its lookup (TicTacToe/Hubs/GameState.cs:62) dereferences the null player and throws.
- A null piece is the empty string and a null game id is `None`. No reader of a cell can tell null from empty, because each tests for blank first.
- Boards.Board.PlacePiece, Games.Game.PlacePiece: require coordinates within 0..2. The server throws an out-of-range exception otherwise (TicTacToe/Models/Board.cs:93). The hub places a piece only after the move passed the validity check.
- GameStates.GameState.RemoveGame: reports a missing id as `found == false`, where the server throws. The hub only removes stored games.
- The call to the base class's disconnect handler (TicTacToe/Hubs/GameHub.cs:118): it is framework code.
- GameStates.GameState.GetGame: the opponent it returns is unused by the handlers, and only its contract states it.
- Hubs.GameHub.PairOrQueue, Hubs.GameHub.CompleteMove, Hubs.GameHub.AnnounceOutcome: these are parts of `FindGame` and `PlacePiece`, split off so that each proof stays small. They follow the source's order of calls and notifications.
- GameStates.GameState.CreateGame: requires the two players to be distinct, neither waiting nor playing. This is the only situation in which the hub calls it. The server itself does not check this.
- GameStates.GameState.AddToWaitingPool: promises the registry invariant only for a player who is neither waiting nor playing.
- Hubs.GameHub.CompleteMove: requires a valid move on a 3x3 board by one of the game's players. `PlacePiece` checks this before calling it.
- The handlers never queue more than one player. `PairOrQueue` appends a player only after `GetWaitingOpponent` found the queue empty. So the first-in first-out order of `AddToWaitingPool` (append at the tail) and `GetWaitingOpponent` (take the head) is a property of those two operations. It is never exercised with a longer queue, and there is no scenario for it.
- The won game and the full-board tie are played on a `Game` directly, not through the hub. The hub's announcements for those outcomes follow from the contract of `Hubs.GameHub.PlacePiece`.
- `Player.Name` and `Player.Id` have private setters and are never reassigned, so the model makes them constants. `Game.Id`, the two players, the board and the grid are also constants, because they are never reassigned after construction.
