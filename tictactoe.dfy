/**
 * Tic-tac-toe against a one-ply computer opponent: the human plays X, the
 * computer plays O. Cells are numbered 0..8 row by row.
 */
module TicTacToe {

  /** A cell: empty (null in the component), X or O. */
  datatype Mark = Empty | X | O

  /** A cell index. */
  type Cell = i: int | 0 <= i < 9

  /** Three cells in a row. */
  type Line = (Cell, Cell, Cell)

  type Board = seq<Mark>

  /** The eight lines in the order calculateWinner tries them: rows, columns, diagonals. */
  const Lines: seq<Line> := [
    (0, 1, 2), (3, 4, 5), (6, 7, 8),
    (0, 3, 6), (1, 4, 7), (2, 5, 8),
    (0, 4, 8), (2, 4, 6)
  ]

  /** What calculateWinner reports: a winner with its line, a draw, or nothing (null). */
  datatype Outcome = Win(winner: Mark, line: Line) | Draw | InProgress

  /** The empty board. */
  const EmptyBoard: Board := seq(9, _ => Empty)

  /** The three cells of `l` hold the same mark, and it is not Empty. */
  predicate LineWins(b: Board, l: Line)
    requires |b| == 9
  {
    b[l.0] != Empty && b[l.0] == b[l.1] && b[l.0] == b[l.2]
  }

  /** Every cell holds a mark. */
  predicate Full(b: Board)
    requires |b| == 9
  {
    forall i :: 0 <= i < 9 ==> b[i] != Empty
  }

  /** The index of the first winning line at or after k, or |Lines| when there is none. */
  function FirstWinning(b: Board, k: nat): (r: nat)
    requires |b| == 9 && k <= |Lines|
    ensures k <= r <= |Lines|
    ensures r < |Lines| ==> LineWins(b, Lines[r])
    ensures forall j :: k <= j < r ==> !LineWins(b, Lines[j])
    decreases |Lines| - k
  {
    if k == |Lines| then k
    else if LineWins(b, Lines[k]) then k
    else FirstWinning(b, k + 1)
  }

  /**
   * calculateWinner's result, as a function of the board: a reported win
   * names one of the eight lines and its non-empty mark, a draw comes only
   * with a full board and "nothing" only with an empty cell left.
   */
  function Evaluate(b: Board): (r: Outcome)
    requires |b| == 9
    ensures r.Win? ==> r.line in Lines && LineWins(b, r.line) && r.winner == b[r.line.0] && r.winner != Empty
    ensures r == Draw ==> Full(b)
    ensures r == InProgress ==> !Full(b)
  {
    var k := FirstWinning(b, 0);
    if k < |Lines| then Win(b[Lines[k].0], Lines[k])
    else if Full(b) then Draw
    else InProgress
  }

  /**
   * The outcome reports the first winning line in order and the mark on
   * it; a draw exactly when no line wins and the board is full; nothing
   * exactly when no line wins and a cell is empty.
   */
  lemma EvaluateSpec(b: Board)
    requires |b| == 9
    ensures Evaluate(b).Win? <==> exists k :: 0 <= k < |Lines| && LineWins(b, Lines[k])
    ensures Evaluate(b).Win? ==>
      exists k :: 0 <= k < |Lines| && Lines[k] == Evaluate(b).line && LineWins(b, Lines[k]) &&
        Evaluate(b).winner == b[Lines[k].0] && Evaluate(b).winner != Empty &&
        forall j :: 0 <= j < k ==> !LineWins(b, Lines[j])
    ensures Evaluate(b) == Draw <==> (forall k :: 0 <= k < |Lines| ==> !LineWins(b, Lines[k])) && Full(b)
    ensures Evaluate(b) == InProgress <==> (forall k :: 0 <= k < |Lines| ==> !LineWins(b, Lines[k])) && !Full(b)
  {
    var k := FirstWinning(b, 0);
    if k < |Lines| {
      assert LineWins(b, Lines[k]);
    }
  }

  /** calculateWinner: the lines in order, stopping at the first win; then the draw test. */
  method CalculateWinner(b: Board) returns (r: Outcome)
    requires |b| == 9
    ensures r == Evaluate(b)
  {
    for k := 0 to |Lines|
      invariant forall j :: 0 <= j < k ==> !LineWins(b, Lines[j])
    {
      var (a, p, c) := Lines[k];
      if b[a] != Empty && b[a] == b[p] && b[a] == b[c] {
        return Win(b[a], Lines[k]);
      }
    }
    if forall i :: 0 <= i < 9 ==> b[i] != Empty {
      return Draw;
    }
    return InProgress;
  }

  /** Putting mark p into the empty cell i gives p a win (the trial board of getBestMove). */
  predicate WinsFor(b: Board, i: int, p: Mark)
    requires |b| == 9
    ensures WinsFor(b, i, p) ==> p != Empty && 0 <= i < 9 && b[i] == Empty
  {
    0 <= i < 9 && b[i] == Empty && Evaluate(b[i := p]).Win? && Evaluate(b[i := p]).winner == p
  }

  /** The first cell at or after i where p would win, or 9 when there is none. */
  function FirstWinFor(b: Board, p: Mark, i: nat): (r: nat)
    requires |b| == 9 && i <= 9
    ensures i <= r <= 9
    ensures r < 9 ==> WinsFor(b, r, p)
    ensures forall j :: i <= j < r ==> !WinsFor(b, j, p)
    decreases 9 - i
  {
    if i == 9 then 9
    else if WinsFor(b, i, p) then i
    else FirstWinFor(b, p, i + 1)
  }

  /** The first empty cell at or after i (findIndex), or -1 when there is none. */
  function FirstEmpty(b: Board, i: nat): (r: int)
    requires |b| == 9 && i <= 9
    ensures r == -1 || (i <= r < 9 && b[r] == Empty)
    ensures r == -1 <==> forall j :: i <= j < 9 ==> b[j] != Empty
    ensures r != -1 ==> forall j :: i <= j < r ==> b[j] != Empty
    decreases 9 - i
  {
    if i == 9 then -1
    else if b[i] == Empty then i
    else FirstEmpty(b, i + 1)
  }

  /** getBestMove's answer: win, else block, else the centre, else the first free cell. */
  function BestMove(b: Board): (m: int)
    requires |b| == 9
    ensures m == -1 || (0 <= m < 9 && b[m] == Empty)
  {
    var w := FirstWinFor(b, O, 0);
    if w < 9 then w
    else
      var x := FirstWinFor(b, X, 0);
      if x < 9 then x
      else if b[4] == Empty then 4
      else FirstEmpty(b, 0)
  }

  /**
   * The priority order of getBestMove: the lowest cell that wins for O;
   * failing that the lowest cell that wins for X (the block); failing both
   * the centre if it is free; and otherwise the lowest free cell, or -1 on
   * a full board. Any answer other than -1 is an empty cell.
   */
  lemma BestMoveSpec(b: Board)
    requires |b| == 9
    ensures var m := BestMove(b);
      && (m == -1 || (0 <= m < 9 && b[m] == Empty))
      && (m == -1 <==> Full(b))
      && ((exists i :: WinsFor(b, i, O)) ==> WinsFor(b, m, O) && forall i :: 0 <= i < m ==> !WinsFor(b, i, O))
      && ((forall i :: !WinsFor(b, i, O)) && (exists i :: WinsFor(b, i, X)) ==>
            WinsFor(b, m, X) && forall i :: 0 <= i < m ==> !WinsFor(b, i, X))
      && ((forall i :: !WinsFor(b, i, O)) && (forall i :: !WinsFor(b, i, X)) ==>
            m == (if b[4] == Empty then 4 else FirstEmpty(b, 0)))
  {
    var w := FirstWinFor(b, O, 0);
    var x := FirstWinFor(b, X, 0);
    if w == 9 {
      assert forall i :: !WinsFor(b, i, O);
      if x == 9 {
        assert forall i :: !WinsFor(b, i, X);
      }
    }
  }

  /** While the game is in progress the opponent always finds an empty cell. */
  lemma BestMoveInProgress(b: Board)
    requires |b| == 9 && Evaluate(b) == InProgress
    ensures 0 <= BestMove(b) < 9 && b[BestMove(b)] == Empty
  {
    EvaluateSpec(b);
    BestMoveSpec(b);
  }

  /** The block example: with X on 0 and 1 and nothing else, O cannot win and 2 is the first block. */
  lemma BlockExample()
    ensures BestMove([X, X, Empty, Empty, Empty, Empty, Empty, Empty, Empty]) == 2
  {
    var b := [X, X, Empty, Empty, Empty, Empty, Empty, Empty, Empty];
    forall i | 0 <= i < 9 && b[i] == Empty ensures !WinsFor(b, i, O) {
      EvaluateSpec(b[i := O]);
    }
    assert !WinsFor(b, 0, X) && !WinsFor(b, 1, X);
    assert LineWins(b[2 := X], Lines[0]);
    assert WinsFor(b, 2, X);
  }

  /** One scan of getBestMove: the first empty cell whose trial mark p gives p a win, or 9. */
  method FindWinningCell(b: Board, p: Mark) returns (k: int)
    requires |b| == 9
    ensures k == FirstWinFor(b, p, 0)
  {
    for i := 0 to 9
      invariant forall j :: 0 <= j < i ==> !WinsFor(b, j, p)
    {
      if b[i] == Empty {
        var test := b[i := p];
        var r := CalculateWinner(test);
        if r.Win? && r.winner == p {
          assert WinsFor(b, i, p);
          return i;
        }
      }
      assert !WinsFor(b, i, p);
    }
    return 9;
  }

  /** findIndex of the first empty cell, or -1. */
  method FindEmpty(b: Board) returns (k: int)
    requires |b| == 9
    ensures k == FirstEmpty(b, 0)
  {
    for i := 0 to 9
      invariant forall j :: 0 <= j < i ==> b[j] != Empty
    {
      if b[i] == Empty {
        return i;
      }
    }
    return -1;
  }

  /** getBestMove: win, else block, else the centre, else the first free cell. */
  method GetBestMove(b: Board) returns (m: int)
    requires |b| == 9
    ensures m == BestMove(b)
  {
    var win := FindWinningCell(b, O);
    if win < 9 {
      return win;
    }
    var block := FindWinningCell(b, X);
    if block < 9 {
      return block;
    }
    if b[4] == Empty {
      return 4;
    }
    m := FindEmpty(b);
  }

  /** The number of cells holding p. */
  function Count(b: Board, p: Mark): (n: nat)
    ensures n <= |b|
  {
    if b == [] then 0 else Count(b[..|b| - 1], p) + (if b[|b| - 1] == p then 1 else 0)
  }

  /** Writing p into an empty cell adds one p and leaves the count of every other mark alone. */
  lemma {:induction false} CountWrite(b: Board, i: int, p: Mark, q: Mark)
    requires 0 <= i < |b| && b[i] == Empty && p != Empty
    ensures Count(b[i := p], q) == Count(b, q) + (if q == p then 1 else if q == Empty then -1 else 0)
    decreases |b|
  {
    var w := b[i := p];
    if i < |b| - 1 {
      assert w[..|w| - 1] == b[..|b| - 1][i := p];
      CountWrite(b[..|b| - 1], i, p, q);
    } else {
      assert w[..|w| - 1] == b[..|b| - 1];
    }
  }

  /** The empty board holds no mark. */
  lemma {:induction false} CountEmptyBoard(k: nat, p: Mark)
    requires p != Empty && k <= 9
    ensures Count(EmptyBoard[..k], p) == 0
  {
    if k > 0 {
      assert EmptyBoard[..k][..k - 1] == EmptyBoard[..k - 1];
      CountEmptyBoard(k - 1, p);
    }
  }

  /** The empty board is undecided. */
  lemma EmptyBoardInProgress()
    ensures Evaluate(EmptyBoard) == InProgress
  {
    EvaluateSpec(EmptyBoard);
    assert EmptyBoard[0] == Empty;
  }

  /**
   * A move into an empty cell of an undecided game can only complete a line
   * through that cell, so a win it produces is the mover's.
   */
  lemma MoveWinnerIsMover(b: Board, i: int, p: Mark)
    requires |b| == 9 && 0 <= i < 9 && b[i] == Empty && p != Empty && Evaluate(b) == InProgress
    ensures Evaluate(b[i := p]).Win? ==> Evaluate(b[i := p]).winner == p
  {
    var w := b[i := p];
    var r := Evaluate(w);
    if r.Win? {
      EvaluateSpec(b);
      var k :| 0 <= k < |Lines| && Lines[k] == r.line;
      assert !LineWins(b, Lines[k]);
    }
  }

  /** The point a result gives player p: one for p's win, none otherwise. */
  function Points(r: Outcome, p: Mark): nat
  {
    if r.Win? && r.winner == p then 1 else 0
  }

  /** The mark of the player to move. */
  function Current(isXNext: bool): Mark
  {
    if isXNext then X else O
  }

  /**
   * The turn invariant: with X one ahead exactly when O is to move, a move
   * by the player to move keeps it for the other player's turn.
   */
  lemma MoveKeepsBalance(b: Board, index: int, isXNext: bool)
    requires |b| == 9 && 0 <= index < 9 && b[index] == Empty
    requires Count(b, X) == Count(b, O) + (if isXNext then 0 else 1)
    ensures var w := b[index := Current(isXNext)];
      Count(w, X) == Count(w, O) + (if !isXNext then 0 else 1)
  {
    CountWrite(b, index, Current(isXNext), X);
    CountWrite(b, index, Current(isXNext), O);
  }

  /** The tic-tac-toe component's board, turn, score and round flag. */
  class Game {
    var board: Board
    var isXNext: bool
    var scoreX: nat
    var scoreO: nat
    var roundOver: bool

    /**
     * X moves first and the players alternate, so X is one ahead exactly
     * when O is to move; a round counts as over once a line is won.
     */
    ghost predicate Valid()
      reads this
    {
      && |board| == 9
      && Count(board, X) == Count(board, O) + (if isXNext then 0 else 1)
      && (roundOver <==> Evaluate(board).Win?)
    }

    /** The initial state: an empty board, X to move, no score. */
    constructor ()
      ensures Valid() && board == EmptyBoard && isXNext && scoreX == 0 && scoreO == 0 && !roundOver
    {
      board := EmptyBoard;
      isXNext := true;
      scoreX := 0;
      scoreO := 0;
      roundOver := false;
      CountEmptyBoard(9, X);
      CountEmptyBoard(9, O);
      assert EmptyBoard[..9] == EmptyBoard;
      EmptyBoardInProgress();
    }

    /** The effect that scores a won round once. */
    method RecordWin()
      requires |board| == 9
      modifies this`scoreX, this`scoreO, this`roundOver
      ensures var r := Evaluate(board);
        && (r.Win? && !old(roundOver) ==>
              && scoreX == old(scoreX) + (if r.winner == X then 1 else 0)
              && scoreO == old(scoreO) + (if r.winner == O then 1 else 0)
              && roundOver)
        && (!r.Win? || old(roundOver) ==>
              scoreX == old(scoreX) && scoreO == old(scoreO) && roundOver == old(roundOver))
    {
      var r := CalculateWinner(board);
      if r.Win? && !roundOver {
        if r.winner == X {
          scoreX := scoreX + 1;
        } else if r.winner == O {
          scoreO := scoreO + 1;
        }
        roundOver := true;
      }
    }

    /**
     * makeMove: on an empty cell of an undecided game the player to move
     * marks it and the turn passes; otherwise nothing happens.
     */
    method MakeMove(index: int)
      requires Valid() && 0 <= index < 9
      modifies this
      ensures Valid()
      ensures old(board[index]) != Empty || old(Evaluate(board)) != InProgress ==>
        board == old(board) && isXNext == old(isXNext) && scoreX == old(scoreX) && scoreO == old(scoreO)
      ensures old(board[index]) == Empty && old(Evaluate(board)) == InProgress ==>
        && board == old(board)[index := Current(old(isXNext))]
        && isXNext == !old(isXNext)
        && (Evaluate(board).Win? ==> Evaluate(board).winner == Current(old(isXNext)))
        && scoreX == old(scoreX) + Points(Evaluate(board), X)
        && scoreO == old(scoreO) + Points(Evaluate(board), O)
    {
      var result := CalculateWinner(board);
      if board[index] != Empty || result != InProgress {
        return;
      }
      var p := Current(isXNext);
      MoveKeepsBalance(board, index, isXNext);
      MoveWinnerIsMover(board, index, p);
      board := board[index := p];
      isXNext := !isXNext;
      RecordWin();
    }

    /** handleClick: the human moves only on X's turn. */
    method HandleClick(index: int)
      requires Valid() && 0 <= index < 9
      modifies this
      ensures Valid()
      ensures !old(isXNext) || old(board[index]) != Empty || old(Evaluate(board)) != InProgress ==>
        board == old(board) && isXNext == old(isXNext) && scoreX == old(scoreX) && scoreO == old(scoreO)
      ensures old(isXNext) && old(board[index]) == Empty && old(Evaluate(board)) == InProgress ==>
        && board == old(board)[index := X] && !isXNext
        && (Evaluate(board).Win? ==> Evaluate(board).winner == X)
        && scoreX == old(scoreX) + Points(Evaluate(board), X) && scoreO == old(scoreO)
    {
      if !isXNext {
        return;
      }
      MakeMove(index);
    }

    /**
     * The opponent's effect (the delay left out): on O's turn in an
     * undecided game, O plays getBestMove's cell.
     */
    method OpponentTurn()
      requires Valid()
      modifies this
      ensures Valid()
      ensures old(isXNext) || old(Evaluate(board)) != InProgress ==>
        board == old(board) && isXNext == old(isXNext) && scoreX == old(scoreX) && scoreO == old(scoreO)
      ensures !old(isXNext) && old(Evaluate(board)) == InProgress ==>
        && 0 <= BestMove(old(board)) < 9 && old(board)[BestMove(old(board))] == Empty
        && board == old(board)[BestMove(old(board)) := O] && isXNext
        && (Evaluate(board).Win? ==> Evaluate(board).winner == O)
        && scoreO == old(scoreO) + Points(Evaluate(board), O) && scoreX == old(scoreX)
    {
      var result := CalculateWinner(board);
      if isXNext || result != InProgress {
        return;
      }
      var move := GetBestMove(board);
      BestMoveInProgress(board);
      MakeMove(move);
    }

    /** resetGame: an empty board with X to move; the score is kept. */
    method ResetGame()
      modifies this
      ensures Valid() && board == EmptyBoard && isXNext && !roundOver
      ensures scoreX == old(scoreX) && scoreO == old(scoreO)
    {
      board := EmptyBoard;
      isXNext := true;
      roundOver := false;
      CountEmptyBoard(9, X);
      CountEmptyBoard(9, O);
      assert EmptyBoard[..9] == EmptyBoard;
      EmptyBoardInProgress();
    }
  }
}
