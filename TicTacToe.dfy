/** The 3x3 boards of src/utils/ticTacToe.ts: win detection over the eight
    lines and the two cell queries the menus use. Cells are numbered 0..8
    row by row. */
module TicTacToe {

  datatype Cell = Empty | Green | Red

  type Board = seq<Cell>

  /** The eight winning lines: three rows, three columns, two diagonals. */
  const Lines: seq<seq<nat>> :=
    [[0, 1, 2], [3, 4, 5], [6, 7, 8],
     [0, 3, 6], [1, 4, 7], [2, 5, 8],
     [0, 4, 8], [2, 4, 6]]

  /** Cell i holds a green chip; an index past the end reads as no chip. */
  predicate GreenAt(b: Board, i: nat)
  {
    i < |b| && b[i] == Green
  }

  /** Every cell of one line is green (the inner `every`). */
  predicate LineGreen(b: Board, line: seq<nat>)
  {
    forall k :: 0 <= k < |line| ==> GreenAt(b, line[k])
  }

  /** Some line of the list is green (the outer `some`), scanned in order. */
  predicate SomeLineGreen(b: Board, lines: seq<seq<nat>>)
  {
    lines != [] && (LineGreen(b, lines[0]) || SomeLineGreen(b, lines[1..]))
  }

  /** The board shows three green chips in a line. */
  function CheckWin(b: Board): (won: bool)
    ensures won <==> exists k :: 0 <= k < |Lines| && LineGreen(b, Lines[k])
  {
    SomeLineGreenIsExists(b, Lines);
    SomeLineGreen(b, Lines)
  }

  // ---------------------------------------------------------------------
  // An independent reading of a win: rows, columns and diagonals of the
  // grid, addressed by row and column.

  function Index(row: nat, col: nat): nat
  {
    3 * row + col
  }

  predicate RowGreen(b: Board, row: nat)
  {
    GreenAt(b, Index(row, 0)) && GreenAt(b, Index(row, 1)) && GreenAt(b, Index(row, 2))
  }

  predicate ColumnGreen(b: Board, col: nat)
  {
    GreenAt(b, Index(0, col)) && GreenAt(b, Index(1, col)) && GreenAt(b, Index(2, col))
  }

  predicate DiagonalGreen(b: Board)
  {
    GreenAt(b, Index(0, 0)) && GreenAt(b, Index(1, 1)) && GreenAt(b, Index(2, 2))
  }

  predicate AntiDiagonalGreen(b: Board)
  {
    GreenAt(b, Index(0, 2)) && GreenAt(b, Index(1, 1)) && GreenAt(b, Index(2, 0))
  }

  predicate GridWin(b: Board)
  {
    (exists row :: 0 <= row < 3 && RowGreen(b, row)) ||
    (exists col :: 0 <= col < 3 && ColumnGreen(b, col)) ||
    DiagonalGreen(b) || AntiDiagonalGreen(b)
  }

  /** The list scan finds a win exactly when some line of the list is green. */
  lemma {:induction false} SomeLineGreenIsExists(b: Board, lines: seq<seq<nat>>)
    ensures SomeLineGreen(b, lines) <==> exists k :: 0 <= k < |lines| && LineGreen(b, lines[k])
  {
    if lines != [] {
      SomeLineGreenIsExists(b, lines[1..]);
      forall k | 1 <= k < |lines| && LineGreen(b, lines[k])
        ensures exists j :: 0 <= j < |lines[1..]| && LineGreen(b, lines[1..][j])
      {
        assert lines[1..][k - 1] == lines[k];
      }
    }
  }

  lemma LineOfThree(b: Board, line: seq<nat>)
    requires |line| == 3
    ensures LineGreen(b, line) <==> GreenAt(b, line[0]) && GreenAt(b, line[1]) && GreenAt(b, line[2])
  {
  }

  /** checkWin is true exactly when a row, a column or a diagonal of the
      grid is green. */
  lemma CheckWinIsGridWin(b: Board)
    ensures CheckWin(b) <==> GridWin(b)
  {
    SomeLineGreenIsExists(b, Lines);
    forall k | 0 <= k < |Lines| ensures |Lines[k]| == 3 {
    }
    forall k | 0 <= k < |Lines|
      ensures LineGreen(b, Lines[k]) <==> GreenAt(b, Lines[k][0]) && GreenAt(b, Lines[k][1]) && GreenAt(b, Lines[k][2])
    {
      LineOfThree(b, Lines[k]);
    }
    assert forall k :: 0 <= k < 3 ==> (LineGreen(b, Lines[k]) <==> RowGreen(b, k));
    assert forall k :: 3 <= k < 6 ==> (LineGreen(b, Lines[k]) <==> ColumnGreen(b, k - 3));
    assert LineGreen(b, Lines[6]) <==> DiagonalGreen(b);
    assert LineGreen(b, Lines[7]) <==> AntiDiagonalGreen(b);
    if GridWin(b) {
      if exists row :: 0 <= row < 3 && RowGreen(b, row) {
        var row :| 0 <= row < 3 && RowGreen(b, row);
        assert LineGreen(b, Lines[row]);
      } else if exists col :: 0 <= col < 3 && ColumnGreen(b, col) {
        var col :| 0 <= col < 3 && ColumnGreen(b, col);
        assert LineGreen(b, Lines[col + 3]);
      }
    }
  }

  // ---------------------------------------------------------------------
  // Counting cells.

  /** How many cells hold c (the `filter(...).length` of the menus). */
  function Count(b: Board, c: Cell): nat
  {
    if b == [] then 0
    else Count(b[..|b| - 1], c) + (if b[|b| - 1] == c then 1 else 0)
  }

  /** Some cell holds c exactly when the count of c is positive. */
  lemma {:induction false} CountPositive(b: Board, c: Cell)
    ensures Count(b, c) > 0 <==> exists i :: 0 <= i < |b| && b[i] == c
  {
    if b != [] {
      var front := b[..|b| - 1];
      CountPositive(front, c);
      if exists i :: 0 <= i < |front| && front[i] == c {
        var i :| 0 <= i < |front| && front[i] == c;
        assert b[i] == c;
      }
      if exists i :: 0 <= i < |b| && b[i] == c {
        var i :| 0 <= i < |b| && b[i] == c;
        if i < |front| {
          assert front[i] == c;
        }
      }
    }
  }

  /** Every cell is empty, green or red, so the three counts add up to the
      length of the board. */
  lemma {:induction false} CountsPartitionBoard(b: Board)
    ensures Count(b, Empty) + Count(b, Green) + Count(b, Red) == |b|
  {
    if b != [] {
      CountsPartitionBoard(b[..|b| - 1]);
    }
  }

  /** A set of cells that all hold c is no larger than the count of c. */
  lemma {:induction false} CountAtLeast(b: Board, c: Cell, cells: set<nat>)
    requires forall i :: i in cells ==> i < |b| && b[i] == c
    ensures Count(b, c) >= |cells|
  {
    if b != [] {
      var last := |b| - 1;
      var front := b[..last];
      var rest := cells - {last};
      assert forall i :: i in rest ==> i < |front| && front[i] == c;
      CountAtLeast(front, c, rest);
      if last in cells {
        assert |cells| == |rest| + 1;
      } else {
        assert rest == cells;
      }
    } else {
      assert cells == {};
    }
  }

  /** A board with fewer than three green chips never wins. */
  lemma FewGreensNeverWin(b: Board)
    requires Count(b, Green) < 3
    ensures !CheckWin(b)
  {
    if CheckWin(b) {
      SomeLineGreenIsExists(b, Lines);
      var k :| 0 <= k < |Lines| && LineGreen(b, Lines[k]);
      var line := Lines[k];
      assert GreenAt(b, line[0]) && GreenAt(b, line[1]) && GreenAt(b, line[2]);
      var cells := {line[0], line[1], line[2]};
      assert |cells| == 3;
      CountAtLeast(b, Green, cells);
      assert false;
    }
  }

  /** Red and empty cells never contribute: a board that has green chips in
      the same places wins or loses the same way. */
  lemma OnlyGreensMatter(b: Board, d: Board)
    requires forall i: nat :: GreenAt(b, i) <==> GreenAt(d, i)
    ensures CheckWin(b) <==> CheckWin(d)
  {
    SomeLineGreenIsExists(b, Lines);
    SomeLineGreenIsExists(d, Lines);
    assert forall k :: 0 <= k < |Lines| ==> (LineGreen(b, Lines[k]) <==> LineGreen(d, Lines[k]));
  }

  /** Turning a cell green never turns a winning board into a losing one. */
  lemma GreenKeepsWin(b: Board, i: nat)
    requires i < |b| && CheckWin(b)
    ensures CheckWin(b[i := Green])
  {
    var d := b[i := Green];
    SomeLineGreenIsExists(b, Lines);
    SomeLineGreenIsExists(d, Lines);
    var k :| 0 <= k < |Lines| && LineGreen(b, Lines[k]);
    assert forall j: nat :: GreenAt(b, j) ==> GreenAt(d, j);
    assert LineGreen(d, Lines[k]);
  }

  // ---------------------------------------------------------------------
  // Cell queries: each cell is mapped to its index or to -1, and the -1
  // entries are filtered out.

  function Marked(b: Board, keep: Cell -> bool): (s: seq<int>)
  {
    seq(|b|, i requires 0 <= i < |b| => if keep(b[i]) then i else -1)
  }

  function DropMinusOne(s: seq<int>): seq<int>
  {
    if s == [] then []
    else (if s[0] == -1 then [] else [s[0]]) + DropMinusOne(s[1..])
  }

  predicate StrictlyIncreasing(s: seq<int>)
  {
    forall i, j :: 0 <= i < j < |s| ==> s[i] < s[j]
  }

  /** Filtering a sequence whose entry k is either offset + k or -1 keeps
      exactly the non-marked entries, in increasing order. */
  lemma {:induction false} DropMinusOneKeepsIndices(s: seq<int>, offset: nat)
    requires forall k :: 0 <= k < |s| ==> s[k] == offset + k || s[k] == -1
    ensures StrictlyIncreasing(DropMinusOne(s))
    ensures forall x :: x in DropMinusOne(s) <==> offset <= x < offset + |s| && s[x - offset] == x
  {
    if s != [] {
      var tail := s[1..];
      DropMinusOneKeepsIndices(tail, offset + 1);
      var r := DropMinusOne(s);
      var head := if s[0] == -1 then [] else [s[0]];
      assert r == head + DropMinusOne(tail);
      forall x | x in DropMinusOne(tail) ensures x > offset { }
      forall i, j | 0 <= i < j < |r| ensures r[i] < r[j] {
        if head != [] && i == 0 {
          assert r[j] in DropMinusOne(tail);
        } else {
          var h := |head|;
          assert r[i] == DropMinusOne(tail)[i - h] && r[j] == DropMinusOne(tail)[j - h];
        }
      }
      forall x ensures x in r <==> offset <= x < offset + |s| && s[x - offset] == x {
        if offset + 1 <= x < offset + |s| {
          assert tail[x - (offset + 1)] == s[x - offset];
        }
      }
    }
  }

  /** The indices of the empty cells, in increasing order (`getEmptyCells`). */
  function GetEmptyCells(b: Board): (cells: seq<int>)
    ensures StrictlyIncreasing(cells)
    ensures forall i :: i in cells <==> 0 <= i < |b| && b[i] == Empty
  {
    var s := Marked(b, c => c == Empty);
    DropMinusOneKeepsIndices(s, 0);
    DropMinusOne(s)
  }

  /** The indices of the cells that do not hold red, in increasing order
      (`getAvailableOpponentCells`). */
  function GetAvailableOpponentCells(b: Board): (cells: seq<int>)
    ensures StrictlyIncreasing(cells)
    ensures forall i :: i in cells <==> 0 <= i < |b| && b[i] != Red
  {
    var s := Marked(b, c => c != Red);
    DropMinusOneKeepsIndices(s, 0);
    DropMinusOne(s)
  }

  /** Every empty cell is also open to an opponent. */
  lemma EmptyCellsAreAvailable(b: Board)
    ensures forall i :: i in GetEmptyCells(b) ==> i in GetAvailableOpponentCells(b)
  {
  }
}
