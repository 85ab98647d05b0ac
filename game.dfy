/**
 * One match: two players, one board and whose turn it is.  The first player
 * plays "X" and moves first; the second plays "O".
 */
module Games {
  import opened Optional
  import opened Text
  import opened Boards
  import opened Players

  const FirstPiece := "X"
  const SecondPiece := "O"

  /** The number of cells holding exactly `piece`. */
  function CountPiece(cells: seq<string>, piece: string): (n: nat)
    ensures n <= |cells|
  {
    if cells == [] then 0
    else (if cells[0] == piece then 1 else 0) + CountPiece(cells[1..], piece)
  }

  /** Overwriting one cell changes the count of a piece by what left and what arrived. */
  lemma {:induction false} CountPiecePlace(cells: seq<string>, i: nat, placed: string, piece: string)
    requires i < |cells|
    ensures CountPiece(cells[i := placed], piece)
         == CountPiece(cells, piece) - (if cells[i] == piece then 1 else 0) + (if placed == piece then 1 else 0)
  {
    if i == 0 {
      assert cells[i := placed][1..] == cells[1..];
    } else {
      assert cells[i := placed][1..] == cells[1..][i - 1 := placed];
      CountPiecePlace(cells[1..], i - 1, placed, piece);
    }
  }

  /** A piece that occurs nowhere has count zero. */
  lemma {:induction false} CountPieceAbsent(cells: seq<string>, piece: string)
    requires forall i :: 0 <= i < |cells| ==> cells[i] != piece
    ensures CountPiece(cells, piece) == 0
  {
    if cells != [] {
      assert forall i :: 0 <= i < |cells| - 1 ==> cells[1..][i] == cells[i + 1];
      CountPieceAbsent(cells[1..], piece);
    }
  }

  /** Every cell is free ("") or holds one of the two pieces. */
  predicate OnlyPieces(cells: seq<string>) {
    forall i :: 0 <= i < |cells| ==> cells[i] == "" || cells[i] == FirstPiece || cells[i] == SecondPiece
  }

  /** On such a board the occupied cells are the X's and the O's. */
  lemma {:induction false} OccupiedAreXsAndOs(cells: seq<string>)
    requires OnlyPieces(cells)
    ensures CountNonBlank(cells) == CountPiece(cells, FirstPiece) + CountPiece(cells, SecondPiece)
  {
    if cells != [] {
      assert forall i :: 0 <= i < |cells| - 1 ==> cells[1..][i] == cells[i + 1];
      OccupiedAreXsAndOs(cells[1..]);
      assert !IsNullOrWhiteSpace(FirstPiece) && !IsNullOrWhiteSpace(SecondPiece) by {
        assert FirstPiece[0] == 'X' && SecondPiece[0] == 'O';
      }
    }
  }

  /** Whether the player is one of the game's two participants. */
  predicate InGame(p: Player, g: Game) {
    p == g.player1 || p == g.player2
  }

  /** What a client is shown of a game. */
  datatype GameView = GameView(
    id: string, player1: PlayerView, player2: PlayerView,
    pieces: seq<string>, whoseTurn: PlayerView, isOver: bool, isTie: bool)

  class Game {
    /** The game's unique id, also the name of its broadcast group. */
    const id: string
    const player1: Player
    const player2: Player
    const board: Board
    var isFirstPlayersTurn: bool

    /**
     * The game invariant: the board is 3x3 with a counter that matches it and
     * holds only the two pieces, the players hold "X" and "O", and there are as
     * many X's as O's when the first player is to move, one X more otherwise.
     */
    ghost predicate Valid()
      reads this, board, board.pieces, player1, player2
    {
      && board.Valid()
      && board.Consistent()
      && OnlyPieces(board.Cells())
      && player1.piece == FirstPiece
      && player2.piece == SecondPiece
      && CountPiece(board.Cells(), FirstPiece)
         == CountPiece(board.Cells(), SecondPiece) + (if isFirstPlayersTurn then 0 else 1)
    }

    /** Creates a game with a fresh board; `id` stands for the freshly generated GUID. */
    constructor(player1: Player, player2: Player, id: string)
      modifies player1, player2
      ensures this.player1 == player1 && this.player2 == player2 && this.id == id
      ensures fresh(board) && fresh(board.pieces) && board.Valid()
      ensures board.Cells() == EmptyCells && board.totalPiecesPlaced == 0
      ensures isFirstPlayersTurn
      ensures player1.gameId == Some(id) && player2.gameId == Some(id)
      ensures player2.piece == SecondPiece && (player1 != player2 ==> player1.piece == FirstPiece)
      ensures player1 != player2 ==> Valid()
    {
      this.player1 := player1;
      this.player2 := player2;
      this.id := id;
      board := new Board();
      isFirstPlayersTurn := true;
      new;
      player1.gameId := Some(id);
      player2.gameId := Some(id);
      player1.piece := FirstPiece;
      player2.piece := SecondPiece;
      CountPieceAbsent(EmptyCells, FirstPiece);
      CountPieceAbsent(EmptyCells, SecondPiece);
    }

    /** The player allowed to place the next piece. */
    function WhoseTurn(): Player
      reads this
    {
      if isFirstPlayersTurn then player1 else player2
    }

    /** A tie is declared whenever no spaces are left, whether or not a line was completed. */
    function IsTie(): bool
      requires board.Valid()
      reads this, board
    {
      !board.AreSpacesLeft()
    }

    /** Whether the game has completed: a tie or three in a row. */
    method IsOver() returns (over: bool)
      requires board.Valid()
      ensures over <==> IsTie() || ThreeInRow(board.Cells())
    {
      if IsTie() {
        over := true;
      } else {
        over := board.IsThreeInRow();
      }
    }

    /**
     * A move is valid when it is on the board and the cell is free.  Both bounds
     * are tested before the cell is read, so only a negative coordinate with
     * both coordinates below 3 reaches the array (where the server throws).
     */
    function IsValidMove(row: int, col: int): (valid: bool)
      requires board.Valid() && (row < 3 && col < 3 ==> 0 <= row && 0 <= col)
      reads board.pieces
      ensures valid <==> 0 <= row < 3 && 0 <= col < 3 && IsNullOrWhiteSpace(board.Cells()[Index(row, col)])
    {
      if row < board.pieces.Length0 && col < board.pieces.Length1 then
        board.CellAt(row, col);
        IsNullOrWhiteSpace(board.pieces[row, col])
      else
        false
    }

    /** Places the piece of the player whose turn it is, then hands the turn to the other player. */
    method PlacePiece(row: int, col: int)
      requires board.Valid() && 0 <= row < 3 && 0 <= col < 3
      modifies this, board, board.pieces
      ensures board.Cells() == old(board.Cells())[Index(row, col) := old(WhoseTurn().piece)]
      ensures board.totalPiecesPlaced == old(board.totalPiecesPlaced) + 1
      ensures isFirstPlayersTurn == !old(isFirstPlayersTurn)
      ensures old(Valid() && IsValidMove(row, col)) ==> Valid()
    {
      ghost var before := board.Cells();
      var pieceToPlace := if isFirstPlayersTurn then player1.piece else player2.piece;
      board.PlacePiece(row, col, pieceToPlace);
      isFirstPlayersTurn := !isFirstPlayersTurn;
      CountPiecePlace(before, Index(row, col), pieceToPlace, FirstPiece);
      CountPiecePlace(before, Index(row, col), pieceToPlace, SecondPiece);
    }

    function View(): GameView
      requires board.Valid()
      reads this, board, board.pieces, player1, player2
    {
      GameView(id, player1.View(), player2.View(), board.Cells(), WhoseTurn().View(),
               IsTie() || ThreeInRow(board.Cells()), IsTie())
    }
  }

  /** The board decides whose turn it is: the first player exactly when X's and O's are equal in number. */
  lemma TurnFollowsBoard(g: Game)
    requires g.Valid()
    ensures g.WhoseTurn() == g.player1 <==> CountPiece(g.board.Cells(), FirstPiece) == CountPiece(g.board.Cells(), SecondPiece)
    ensures g.WhoseTurn().piece == (if g.isFirstPlayersTurn then FirstPiece else SecondPiece)
    ensures CountPiece(g.board.Cells(), SecondPiece) <= CountPiece(g.board.Cells(), FirstPiece) <= CountPiece(g.board.Cells(), SecondPiece) + 1
  {
  }

  /** In a valid game a tie means a full board, and the counter is the number of X's and O's. */
  lemma TieIffFull(g: Game)
    requires g.Valid()
    ensures g.IsTie() <==> forall i :: 0 <= i < 9 ==> !IsNullOrWhiteSpace(g.board.Cells()[i])
    ensures g.board.totalPiecesPlaced
         == CountPiece(g.board.Cells(), FirstPiece) + CountPiece(g.board.Cells(), SecondPiece)
  {
    CountNonBlankFull(g.board.Cells());
    OccupiedAreXsAndOs(g.board.Cells());
  }

  /** Once a valid game is tied, no move is valid any more. */
  lemma NoValidMoveAfterTie(g: Game, row: int, col: int)
    requires g.Valid() && g.IsTie() && (row < 3 && col < 3 ==> 0 <= row && 0 <= col)
    ensures !g.IsValidMove(row, col)
  {
    TieIffFull(g);
  }
}
