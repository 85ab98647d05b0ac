/**
 * The 3x3 Tic-Tac-Toe board: where the players have placed their pieces and
 * how many pieces have been placed.
 *
 * The board's contents are specified by their row-major listing, a sequence
 * of nine strings: cell (row, col) is element `3 * row + col`.  A cell is free
 * when its string is null, empty or white space, exactly as the server tests it.
 */
module Boards {
  import opened Text

  /** The position of cell (row, col) in the row-major listing of the board. */
  function Index(row: int, col: int): nat
    requires 0 <= row < 3 && 0 <= col < 3
  {
    3 * row + col
  }

  /** The contents of a board nobody has played on. */
  const EmptyCells: seq<string> := ["", "", "", "", "", "", "", "", ""]

  /** The number of occupied (non-blank) cells. */
  function CountNonBlank(cells: seq<string>): (n: nat)
    ensures n <= |cells|
  {
    if cells == [] then 0
    else (if IsNullOrWhiteSpace(cells[0]) then 0 else 1) + CountNonBlank(cells[1..])
  }

  /** Putting a piece on a free cell adds exactly one occupied cell. */
  lemma {:induction false} CountNonBlankPlace(cells: seq<string>, i: nat, piece: string)
    requires i < |cells| && IsNullOrWhiteSpace(cells[i]) && !IsNullOrWhiteSpace(piece)
    ensures CountNonBlank(cells[i := piece]) == CountNonBlank(cells) + 1
  {
    if i == 0 {
      assert cells[i := piece][1..] == cells[1..];
    } else {
      assert cells[i := piece][1..] == cells[1..][i - 1 := piece];
      CountNonBlankPlace(cells[1..], i - 1, piece);
    }
  }

  /** Every cell is occupied exactly when the occupied cells are all of them. */
  lemma {:induction false} CountNonBlankFull(cells: seq<string>)
    ensures CountNonBlank(cells) == |cells| <==> forall i :: 0 <= i < |cells| ==> !IsNullOrWhiteSpace(cells[i])
  {
    if cells != [] {
      CountNonBlankFull(cells[1..]);
      if CountNonBlank(cells) == |cells| {
        forall i | 0 <= i < |cells| ensures !IsNullOrWhiteSpace(cells[i]) {
          if i > 0 { assert cells[i] == cells[1..][i - 1]; }
        }
      }
      if forall i :: 0 <= i < |cells| ==> !IsNullOrWhiteSpace(cells[i]) {
        forall i | 0 <= i < |cells| - 1 ensures !IsNullOrWhiteSpace(cells[1..][i]) {
          assert cells[1..][i] == cells[i + 1];
        }
      }
    }
  }

  /** No cell is occupied exactly when every cell is blank. */
  lemma {:induction false} CountNonBlankZero(cells: seq<string>)
    ensures CountNonBlank(cells) == 0 <==> forall i :: 0 <= i < |cells| ==> IsNullOrWhiteSpace(cells[i])
  {
    if cells != [] {
      CountNonBlankZero(cells[1..]);
      if CountNonBlank(cells) == 0 {
        forall i | 0 <= i < |cells| ensures IsNullOrWhiteSpace(cells[i]) {
          if i > 0 { assert cells[i] == cells[1..][i - 1]; }
        }
      }
      if forall i :: 0 <= i < |cells| ==> IsNullOrWhiteSpace(cells[i]) {
        forall i | 0 <= i < |cells| - 1 ensures IsNullOrWhiteSpace(cells[1..][i]) {
          assert cells[1..][i] == cells[i + 1];
        }
      }
    }
  }

  /** Three cells that hold the same piece, the first (hence all) not blank. */
  predicate Matching(a: string, b: string, c: string) {
    !IsNullOrWhiteSpace(a) && a == b && b == c
  }

  predicate RowMatch(cells: seq<string>, row: int)
    requires |cells| == 9 && 0 <= row < 3
  {
    Matching(cells[Index(row, 0)], cells[Index(row, 1)], cells[Index(row, 2)])
  }

  predicate ColumnMatch(cells: seq<string>, col: int)
    requires |cells| == 9 && 0 <= col < 3
  {
    Matching(cells[Index(0, col)], cells[Index(1, col)], cells[Index(2, col)])
  }

  /** Some row, some column or one of the two diagonals holds three equal pieces. */
  predicate ThreeInRow(cells: seq<string>)
    requires |cells| == 9
  {
    || (exists row :: 0 <= row < 3 && RowMatch(cells, row))
    || (exists col :: 0 <= col < 3 && ColumnMatch(cells, col))
    || Matching(cells[Index(2, 0)], cells[Index(1, 1)], cells[Index(0, 2)])
    || Matching(cells[Index(0, 0)], cells[Index(1, 1)], cells[Index(2, 2)])
  }

  /** The eight winning lines of Tic-Tac-Toe, as triples of row-major positions. */
  const Lines: seq<(nat, nat, nat)> :=
    [(0, 1, 2), (3, 4, 5), (6, 7, 8), (0, 3, 6), (1, 4, 7), (2, 5, 8), (0, 4, 8), (2, 4, 6)]

  predicate LineMatch(cells: seq<string>, k: nat)
    requires |cells| == 9 && k < |Lines|
  {
    var (a, b, c) := Lines[k];
    a < 9 && b < 9 && c < 9 && Matching(cells[a], cells[b], cells[c])
  }

  /** Each entry of the table is one row, one column or one diagonal. */
  lemma LinesAreRowsColumnsDiagonals(cells: seq<string>)
    requires |cells| == 9
    ensures forall row :: 0 <= row < 3 ==> (LineMatch(cells, row) <==> RowMatch(cells, row))
    ensures forall col :: 0 <= col < 3 ==> (LineMatch(cells, col + 3) <==> ColumnMatch(cells, col))
    ensures LineMatch(cells, 6) <==> Matching(cells[Index(0, 0)], cells[Index(1, 1)], cells[Index(2, 2)])
    ensures LineMatch(cells, 7) <==> Matching(cells[Index(2, 0)], cells[Index(1, 1)], cells[Index(0, 2)])
  {
  }

  /** The scan for three in a row agrees with the table of the eight winning lines. */
  lemma ThreeInRowIffWinningLine(cells: seq<string>)
    requires |cells| == 9
    ensures ThreeInRow(cells) <==> exists k :: 0 <= k < |Lines| && LineMatch(cells, k)
  {
    LinesAreRowsColumnsDiagonals(cells);
    if ThreeInRow(cells) {
      if row :| 0 <= row < 3 && RowMatch(cells, row) {
        assert LineMatch(cells, row);
      } else if col :| 0 <= col < 3 && ColumnMatch(cells, col) {
        assert LineMatch(cells, col + 3);
      } else if Matching(cells[Index(2, 0)], cells[Index(1, 1)], cells[Index(0, 2)]) {
        assert LineMatch(cells, 7);
      } else {
        assert LineMatch(cells, 6);
      }
    }
    if k :| 0 <= k < |Lines| && LineMatch(cells, k) {
      if k < 3 {
        assert RowMatch(cells, k);
      } else if k < 6 {
        assert ColumnMatch(cells, k - 3);
      }
    }
  }

  /** The empty board holds no line. */
  lemma EmptyHasNoLine()
    ensures !ThreeInRow(EmptyCells)
  {
  }

  class Board {
    /** The number of pieces that have been placed on the board. */
    var totalPiecesPlaced: int

    /** The pieces on the board, indexed by row and column. */
    const pieces: array2<string>

    /** The grid is 3 by 3 (the lengths of an array never change). */
    predicate Valid() {
      pieces.Length0 == 3 && pieces.Length1 == 3
    }

    /** The row-major listing of the grid. */
    function Cells(): (cells: seq<string>)
      requires Valid()
      reads pieces
      ensures |cells| == 9
    {
      [pieces[0, 0], pieces[0, 1], pieces[0, 2],
       pieces[1, 0], pieces[1, 1], pieces[1, 2],
       pieces[2, 0], pieces[2, 1], pieces[2, 2]]
    }

    lemma CellAt(row: int, col: int)
      requires Valid() && 0 <= row < 3 && 0 <= col < 3
      ensures Cells()[Index(row, col)] == pieces[row, col]
    {
    }

    /** The counter agrees with the board: it is the number of occupied cells. */
    ghost predicate Consistent()
      requires Valid()
      reads this, pieces
    {
      totalPiecesPlaced == CountNonBlank(Cells())
    }

    constructor()
      ensures Valid() && fresh(pieces)
      ensures Cells() == EmptyCells && totalPiecesPlaced == 0
      ensures Consistent()
    {
      var grid := new string[3, 3];
      var i := 0;
      while i < grid.Length0
        invariant 0 <= i <= 3
        invariant forall r, c :: 0 <= r < i && 0 <= c < 3 ==> grid[r, c] == ""
      {
        var j := 0;
        while j < grid.Length1
          invariant 0 <= j <= 3
          invariant forall r, c :: 0 <= r < i && 0 <= c < 3 ==> grid[r, c] == ""
          invariant forall c :: 0 <= c < j ==> grid[i, c] == ""
        {
          grid[i, j] := "";
          j := j + 1;
        }
        i := i + 1;
      }
      pieces := grid;
      totalPiecesPlaced := 0;  // the default value of the C# field
      new;
      CountNonBlankZero(Cells());
    }

    /** Scans rows, then columns, then the two diagonals for three equal pieces. */
    method IsThreeInRow() returns (found: bool)
      requires Valid()
      ensures found == ThreeInRow(Cells())
    {
      var row := 0;
      while row < pieces.Length0
        invariant 0 <= row <= 3
        invariant forall r :: 0 <= r < row ==> !RowMatch(Cells(), r)
      {
        CellAt(row, 0); CellAt(row, 1); CellAt(row, 2);
        if !IsNullOrWhiteSpace(pieces[row, 0]) && pieces[row, 0] == pieces[row, 1] && pieces[row, 1] == pieces[row, 2] {
          assert RowMatch(Cells(), row);
          return true;
        }
        row := row + 1;
      }
      var col := 0;
      while col < pieces.Length1
        invariant 0 <= col <= 3
        invariant forall c :: 0 <= c < col ==> !ColumnMatch(Cells(), c)
      {
        CellAt(0, col); CellAt(1, col); CellAt(2, col);
        if !IsNullOrWhiteSpace(pieces[0, col]) && pieces[0, col] == pieces[1, col] && pieces[1, col] == pieces[2, col] {
          assert ColumnMatch(Cells(), col);
          return true;
        }
        col := col + 1;
      }
      // forward diagonal
      if !IsNullOrWhiteSpace(pieces[1, 1]) && pieces[2, 0] == pieces[1, 1] && pieces[1, 1] == pieces[0, 2] {
        return true;
      }
      // backward diagonal
      if !IsNullOrWhiteSpace(pieces[1, 1]) && pieces[0, 0] == pieces[1, 1] && pieces[1, 1] == pieces[2, 2] {
        return true;
      }
      return false;
    }

    /** Whether fewer pieces have been placed than the board has cells. */
    function AreSpacesLeft(): bool
      requires Valid()
      reads this
    {
      totalPiecesPlaced < pieces.Length0 * pieces.Length1
    }

    /** Writes the piece into cell (row, col), whatever it held, and counts one more piece. */
    method PlacePiece(row: int, col: int, pieceToPlace: string)
      requires Valid() && 0 <= row < 3 && 0 <= col < 3
      modifies this, pieces
      ensures Cells() == old(Cells())[Index(row, col) := pieceToPlace]
      ensures totalPiecesPlaced == old(totalPiecesPlaced) + 1
      ensures old(Consistent()) && old(IsNullOrWhiteSpace(pieces[row, col])) && !IsNullOrWhiteSpace(pieceToPlace)
        ==> Consistent()
    {
      ghost var before := Cells();
      CellAt(row, col);
      pieces[row, col] := pieceToPlace;
      totalPiecesPlaced := totalPiecesPlaced + 1;
      if IsNullOrWhiteSpace(before[Index(row, col)]) && !IsNullOrWhiteSpace(pieceToPlace) {
        CountNonBlankPlace(before, Index(row, col), pieceToPlace);
      }
    }
  }

  /** With a consistent counter, spaces are left exactly when some cell is free. */
  lemma SpacesLeftIffFreeCell(b: Board)
    requires b.Valid() && b.Consistent()
    ensures b.AreSpacesLeft() <==> exists i :: 0 <= i < 9 && IsNullOrWhiteSpace(b.Cells()[i])
    ensures 0 <= b.totalPiecesPlaced <= 9
  {
    CountNonBlankFull(b.Cells());
  }
}
