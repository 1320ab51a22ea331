/**
 * The Sudoku rules: a 9 x 9 board of digits with 0 for an empty cell, a
 * fixed puzzle whose given cells cannot be edited, the uniqueness check
 * for one cell, the correction that clears conflicting entries, and the
 * test for a solved board.
 */
module Sudoku {

  const N: nat := 9

  /** Rows of cells; 0 is an empty cell. */
  type Board = seq<seq<int>>

  /** A 9 x 9 board whose cells are 0 (empty) or a digit 1..9. */
  predicate IsBoard(b: Board)
  {
    |b| == N && forall i :: 0 <= i < N ==> |b[i]| == N && forall j :: 0 <= j < N ==> 0 <= b[i][j] <= 9
  }

  /** The puzzle; its non-zero cells are the givens. */
  const Initial: Board := [
    [5, 3, 0, 0, 7, 0, 0, 0, 0],
    [6, 0, 0, 1, 9, 5, 0, 0, 0],
    [0, 9, 8, 0, 0, 0, 0, 6, 0],
    [8, 0, 0, 0, 6, 0, 0, 0, 3],
    [4, 0, 0, 8, 0, 3, 0, 0, 1],
    [7, 0, 0, 0, 2, 0, 0, 0, 6],
    [0, 6, 0, 0, 0, 0, 2, 8, 0],
    [0, 0, 0, 4, 1, 9, 0, 0, 5],
    [0, 0, 0, 0, 8, 0, 0, 7, 9]
  ]

  /** The puzzle is a board. */
  lemma InitialIsBoard()
    ensures IsBoard(Initial)
  {
  }

  /** A cell the player may edit: one the puzzle leaves empty. */
  predicate Editable(r: int, c: int)
  {
    0 <= r < N && 0 <= c < N && Initial[r][c] == 0
  }

  /** The first row (or column) of the 3 x 3 block holding row (or column) k. */
  function BlockStart(k: int): (s: int)
    requires 0 <= k < N
    ensures 0 <= s <= k < s + 3 <= N && s % 3 == 0
  {
    (k / 3) * 3
  }

  /** No cell of row r other than column c holds v. */
  predicate RowFree(b: Board, r: int, c: int, v: int)
    requires IsBoard(b) && 0 <= r < N
  {
    forall j :: 0 <= j < N && j != c ==> b[r][j] != v
  }

  /** No cell of column c other than row r holds v. */
  predicate ColumnFree(b: Board, r: int, c: int, v: int)
    requires IsBoard(b) && 0 <= c < N
  {
    forall i :: 0 <= i < N && i != r ==> b[i][c] != v
  }

  /** No cell of the block of (r, c) other than (r, c) holds v. */
  predicate BlockFree(b: Board, r: int, c: int, v: int)
    requires IsBoard(b) && 0 <= r < N && 0 <= c < N
  {
    forall i, j ::
      BlockStart(r) <= i < BlockStart(r) + 3 && BlockStart(c) <= j < BlockStart(c) + 3 && (i != r || j != c) ==> b[i][j] != v
  }

  /** v may stand at (r, c): no other cell of its row, column or block holds v. */
  predicate ValidAt(b: Board, r: int, c: int, v: int)
    requires IsBoard(b) && 0 <= r < N && 0 <= c < N
  {
    RowFree(b, r, c, v) && ColumnFree(b, r, c, v) && BlockFree(b, r, c, v)
  }

  /** isValidMove: the row, then the column, then the block, each left at the first clash. */
  method IsValidMove(b: Board, row: int, col: int, v: int) returns (ok: bool)
    requires IsBoard(b) && 0 <= row < N && 0 <= col < N
    ensures ok <==> ValidAt(b, row, col, v)
  {
    for c := 0 to N
      invariant forall j :: 0 <= j < c && j != col ==> b[row][j] != v
    {
      if c != col && b[row][c] == v {
        return false;
      }
    }
    for r := 0 to N
      invariant forall i :: 0 <= i < r && i != row ==> b[i][col] != v
    {
      if r != row && b[r][col] == v {
        return false;
      }
    }
    var startRow := BlockStart(row);
    var startCol := BlockStart(col);
    for r := startRow to startRow + 3
      invariant forall i, j :: startRow <= i < r && startCol <= j < startCol + 3 && (i != row || j != col) ==> b[i][j] != v
    {
      for c := startCol to startCol + 3
        invariant forall i, j :: startRow <= i < r && startCol <= j < startCol + 3 && (i != row || j != col) ==> b[i][j] != v
        invariant forall j :: startCol <= j < c && (r != row || j != col) ==> b[r][j] != v
      {
        if (r != row || c != col) && b[r][c] == v {
          return false;
        }
      }
    }
    return true;
  }

  /** The board with cell (r, c) set to v. */
  function Write(b: Board, r: int, c: int, v: int): (w: Board)
    requires IsBoard(b) && 0 <= r < N && 0 <= c < N && 0 <= v <= 9
    ensures IsBoard(w)
    ensures w[r][c] == v
    ensures forall i, j :: 0 <= i < N && 0 <= j < N && (i != r || j != c) ==> w[i][j] == b[i][j]
  {
    b[r := b[r][c := v]]
  }

  /** Whether v may stand at (r, c) does not depend on what (r, c) holds now. */
  lemma ValidAtIgnoresOwnCell(b: Board, r: int, c: int, v: int, x: int)
    requires IsBoard(b) && 0 <= r < N && 0 <= c < N && 0 <= x <= 9
    ensures ValidAt(Write(b, r, c, x), r, c, v) <==> ValidAt(b, r, c, v)
  {
    var w := Write(b, r, c, x);
    assert RowFree(w, r, c, v) <==> RowFree(b, r, c, v);
    assert ColumnFree(w, r, c, v) <==> ColumnFree(b, r, c, v);
    assert BlockFree(w, r, c, v) <==> BlockFree(b, r, c, v);
  }

  /** One cell of checkBoard's result: a non-given, non-empty cell that clashes becomes 0. */
  function CorrectedCell(b: Board, i: int, j: int): (r: int)
    requires IsBoard(b) && 0 <= i < N && 0 <= j < N
    ensures r == b[i][j] || r == 0
    ensures Initial[i][j] != 0 ==> r == b[i][j]
  {
    if Initial[i][j] == 0 && b[i][j] != 0 && !ValidAt(b, i, j, b[i][j]) then 0 else b[i][j]
  }

  /** checkBoard: every cell through CorrectedCell, judged against the board before correction. */
  function Corrected(b: Board): (r: Board)
    requires IsBoard(b)
    ensures IsBoard(r)
  {
    seq(N, i requires 0 <= i < N => seq(N, j requires 0 <= j < N => CorrectedCell(b, i, j)))
  }

  /** `w` is `b` with some cells emptied and nothing else changed. */
  predicate Cleared(b: Board, w: Board)
    requires IsBoard(b) && IsBoard(w)
  {
    forall i, j :: 0 <= i < N && 0 <= j < N ==> w[i][j] == b[i][j] || w[i][j] == 0
  }

  /**
   * checkBoard only empties cells: a cell it changes was a non-given,
   * non-empty cell that clashed; given cells, empty cells and cells that
   * did not clash keep their value.
   */
  lemma CorrectedChangesOnlyClashes(b: Board)
    requires IsBoard(b)
    ensures Cleared(b, Corrected(b))
    ensures forall i, j :: 0 <= i < N && 0 <= j < N && Corrected(b)[i][j] != b[i][j] ==>
      && Corrected(b)[i][j] == 0 && Initial[i][j] == 0 && b[i][j] != 0 && !ValidAt(b, i, j, b[i][j])
    ensures forall i, j :: 0 <= i < N && 0 <= j < N && (Initial[i][j] != 0 || b[i][j] == 0 || ValidAt(b, i, j, b[i][j])) ==>
      Corrected(b)[i][j] == b[i][j]
  {
  }

  /** Emptying cells cannot make a non-zero value clash. */
  lemma ClearingKeepsValid(b: Board, w: Board, r: int, c: int, v: int)
    requires IsBoard(b) && IsBoard(w) && Cleared(b, w) && 0 <= r < N && 0 <= c < N && v != 0
    requires ValidAt(b, r, c, v)
    ensures ValidAt(w, r, c, v)
  {
    assert RowFree(w, r, c, v) by {
      forall j | 0 <= j < N && j != c ensures w[r][j] != v {
        assert b[r][j] != v;
      }
    }
    assert ColumnFree(w, r, c, v) by {
      forall i | 0 <= i < N && i != r ensures w[i][c] != v {
        assert b[i][c] != v;
      }
    }
    assert BlockFree(w, r, c, v) by {
      forall i, j | BlockStart(r) <= i < BlockStart(r) + 3 && BlockStart(c) <= j < BlockStart(c) + 3 && (i != r || j != c)
        ensures w[i][j] != v
      {
        assert b[i][j] != v;
      }
    }
  }

  /** After checkBoard every non-empty cell the player filled in is valid. */
  lemma CorrectedIsConsistent(b: Board)
    requires IsBoard(b)
    ensures forall i, j :: 0 <= i < N && 0 <= j < N && Initial[i][j] == 0 && Corrected(b)[i][j] != 0 ==>
      ValidAt(Corrected(b), i, j, Corrected(b)[i][j])
  {
    var w := Corrected(b);
    CorrectedChangesOnlyClashes(b);
    forall i, j | 0 <= i < N && 0 <= j < N && Initial[i][j] == 0 && w[i][j] != 0
      ensures ValidAt(w, i, j, w[i][j])
    {
      assert w[i][j] == b[i][j] && ValidAt(b, i, j, b[i][j]);
      ClearingKeepsValid(b, w, i, j, w[i][j]);
    }
  }

  /** checkBoard is idempotent: correcting a corrected board changes nothing. */
  lemma CorrectedIdempotent(b: Board)
    requires IsBoard(b)
    ensures Corrected(Corrected(b)) == Corrected(b)
  {
    var w := Corrected(b);
    CorrectedIsConsistent(b);
    forall i | 0 <= i < N ensures Corrected(w)[i] == w[i] {
      forall j | 0 <= j < N ensures Corrected(w)[i][j] == w[i][j] {
        assert CorrectedCell(w, i, j) == w[i][j];
      }
    }
  }

  /** checkWinner's condition: every cell filled and valid. */
  predicate Solved(b: Board)
    requires IsBoard(b)
  {
    forall i, j :: 0 <= i < N && 0 <= j < N ==> b[i][j] != 0 && ValidAt(b, i, j, b[i][j])
  }

  /** checkWinner: scan the cells row by row, stopping at the first empty or clashing one. */
  method CheckWinner(b: Board) returns (won: bool)
    requires IsBoard(b)
    ensures won <==> Solved(b)
  {
    for r := 0 to N
      invariant forall i, j :: 0 <= i < r && 0 <= j < N ==> b[i][j] != 0 && ValidAt(b, i, j, b[i][j])
    {
      for c := 0 to N
        invariant forall i, j :: 0 <= i < r && 0 <= j < N ==> b[i][j] != 0 && ValidAt(b, i, j, b[i][j])
        invariant forall j :: 0 <= j < c ==> b[r][j] != 0 && ValidAt(b, r, j, b[r][j])
      {
        if b[r][c] == 0 {
          return false;
        }
        var ok := IsValidMove(b, r, c, b[r][c]);
        if !ok {
          return false;
        }
      }
    }
    return true;
  }

  /** The puzzle itself is not solved: it has empty cells. */
  lemma InitialNotSolved()
    ensures !Solved(Initial)
  {
    assert Initial[0][2] == 0;
  }

  /** A solved board is left alone by checkBoard. */
  lemma SolvedIsFixpoint(b: Board)
    requires IsBoard(b) && Solved(b)
    ensures Corrected(b) == b
  {
    forall i | 0 <= i < N ensures Corrected(b)[i] == b[i] {
      forall j | 0 <= j < N ensures Corrected(b)[i][j] == b[i][j] {
        assert ValidAt(b, i, j, b[i][j]);
      }
    }
  }

  /** The givens are never changed. */
  predicate KeepsGivens(b: Board)
    requires IsBoard(b)
  {
    forall i, j :: 0 <= i < N && 0 <= j < N && Initial[i][j] != 0 ==> b[i][j] == Initial[i][j]
  }

  /** checkBoard keeps the givens. */
  lemma CorrectedKeepsGivens(b: Board)
    requires IsBoard(b) && KeepsGivens(b)
    ensures KeepsGivens(Corrected(b))
  {
  }

  /** The Sudoku component's board, score and winner flag. */
  class Game {
    var board: Board
    var score: nat
    var winner: bool

    ghost predicate Valid()
      reads this
    {
      IsBoard(board) && KeepsGivens(board) && score % 10 == 0
    }

    /** The initial state: the puzzle, score 0, no winner. */
    constructor ()
      ensures Valid() && board == Initial && score == 0 && !winner
    {
      board := Initial;
      score := 0;
      winner := false;
    }

    /** The effect that runs after each new board: a solved board raises the winner flag. */
    method NoteWinner()
      requires IsBoard(board)
      modifies this`winner
      ensures winner == (old(winner) || Solved(board))
    {
      var won := CheckWinner(board);
      if won {
        winner := true;
      }
    }

    /**
     * handleChange for an editable cell: a number outside 1..9 is ignored;
     * otherwise the cell takes it and the score rises by 10 when it does not
     * clash.
     */
    method HandleChange(row: int, col: int, num: int)
      requires Valid() && Editable(row, col)
      modifies this
      ensures Valid()
      ensures !(1 <= num <= 9) ==> board == old(board) && score == old(score) && winner == old(winner)
      ensures 1 <= num <= 9 ==>
        && board == Write(old(board), row, col, num)
        && score == old(score) + (if ValidAt(board, row, col, num) then 10 else 0)
        && winner == (old(winner) || Solved(board))
    {
      if num < 1 || num > 9 {
        return;
      }
      var newBoard := Write(board, row, col, num);
      board := newBoard;
      var ok := IsValidMove(newBoard, row, col, num);
      if ok {
        score := score + 10;
      }
      NoteWinner();
    }

    /** checkBoard, triggered by the Correction button. */
    method CheckBoard()
      requires Valid()
      modifies this
      ensures Valid()
      ensures board == Corrected(old(board)) && score == old(score)
      ensures winner == (old(winner) || Solved(board))
    {
      CorrectedKeepsGivens(board);
      board := Corrected(board);
      NoteWinner();
    }

    /** restart: the puzzle again and score 0. */
    method Restart()
      modifies this
      ensures Valid() && board == Initial && score == 0 && winner == old(winner)
    {
      board := Initial;
      score := 0;
    }

    /** The button on the winner overlay: the flag goes down and the game restarts. */
    method PlayAgain()
      modifies this
      ensures Valid() && board == Initial && score == 0 && !winner
    {
      winner := false;
      Restart();
    }
  }
}
