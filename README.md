# gamebox game kernels in Dafny

This project models the rule kernels of four browser games in the gamebox
front end, and proves properties of them:

- **2048** (`game2048.dfy`, module `Game2048`). `mergeRow` compacts one row and
  merges it to the left. `rotate`/`rotateBack`/`transpose` turn every direction
  into "left". `move` runs the merge over all rows, decides whether anything
  moved, spawns a tile with `addRandom` and adds the points. `isGameOver`
  detects a grid with no empty cell and no equal neighbours.
- **Pong** (`pong.dfy`, module `Pong`). The per-frame `update` moves both
  paddles (keys or the computer rule), clamps them into [0, 300], advances the
  ball, reflects it off the walls and paddles, and scores a goal through
  `scorePoint`/`resetBall`. Touch events set a paddle directly.
- **Sudoku** (`sudoku.dfy`, module `Sudoku`). `isValidMove` checks a value
  against its row, column and 3 x 3 block. `handleChange` writes one cell and
  scores it. `checkBoard` clears clashing player entries. `checkWinner`
  recognises a solved board.
- **Tic-tac-toe** (`tictactoe.dfy`, module `TicTacToe`). `calculateWinner`
  reports the first winning line, a draw, or nothing. `getBestMove` is the
  one-ply opponent: win, else block, else the centre, else the first free
  cell. `makeMove` is the guarded write plus the turn toggle.

Each game's React state becomes a `class` (`Game`) with one field per piece of
state. It has a ghost `Valid()` invariant that every method modelling a
handler keeps. Each state change in the component becomes a method with
`modifies this`. The internal steps `Pong.Game.StepPaddles`,
`Pong.Game.StepBall`, `Sudoku.Game.NoteWinner` and `TicTacToe.Game.RecordWin`
neither require nor ensure `Valid()`. The handler methods that call them
re-establish it.

Loops in the source become methods with loops. Each is proved equal to a pure
specification function (`MergeRow` ↔ `Merged`/`MergeScore`, `IsGameOver` ↔
`IsTerminal`, `IsValidMove` ↔ `ValidAt`, `CalculateWinner` ↔ `Evaluate`,
`GetBestMove` ↔ `BestMove`, and so on). The source's promises are then proved
as lemmas about those functions.

Randomness is a parameter. Every `Math.random()` call becomes a caller-supplied
real `u` with `0 <= u < 1`:

- 2048's cell pick is `Math.floor(u * n)`.
- 2048's tile is 2 when `u < 0.9`, else 4.
- Each Pong serve component is +4 when `u > 0.5`, else -4.

Keys held down and touch points are explicit inputs. The window's orientation
(`isLandscape`) is a constructor parameter. The window width is a parameter of
the touch handler.

Positions in Pong are exact reals. On the human-controlled path every value is
an integer anyway.

Grids and boards are values (`seq<seq<int>>`, `seq<Mark>`). `game2048.jsx`
writes in place in two places, and neither write is observable from outside:

- `mergeRow` doubles, clears and pushes onto `arr` (lines 172-179). That array
  is the fresh one `filter` returned. `Game2048.MergeRow` keeps it as a local
  sequence that its loop reassigns cell by cell.
- `addRandom` writes `grid[x][y]` (line 162). That grid is one that
  `move`/`createStartGrid` has just built, so a value update behaves the same.

Two behaviours of the code are easy to get wrong:

- **2048 direction.** One might expect a direction other than the four names
  to be rejected, leaving the state unchanged. It is not: `rotate` and
  `rotateBack` fall through to `default: return grid`, so an unknown name moves
  exactly like "left". `Game2048.OtherDirectionIsLeft` proves this.
- **Sudoku fixed cells.** One might expect writing a given cell to fail.
  `handleChange` never checks; only the disabled `<input>` protects the givens.
  `Sudoku.Game.HandleChange` therefore has the precondition `Editable(row, col)`.

## Model

| member | source | states |
|---|---|---|
| Game2048.NonZero | frondend/src/game2048/game2048.jsx:167 | `row.filter((n) => n)`: no longer than the row, and every entry non-zero |
| Game2048.MergeRow | frondend/src/game2048/game2048.jsx:166-182 | the in-place merge loop and the zero padding return exactly the reference row `Merged(row)` and score `MergeScore(row)` |
| Game2048.Merged | frondend/src/game2048/game2048.jsx:166-182 | a merged row of at most four entries is padded to exactly four |
| Game2048.Pad | frondend/src/game2048/game2048.jsx:179 | padding reaches length n, keeps the row as its prefix and adds only zeros |
| Game2048.Slide | frondend/src/game2048/game2048.jsx:170-176 | one left-to-right merge pass never makes the row longer |
| Game2048.SlideScore | frondend/src/game2048/game2048.jsx:170-176 | the points of one pass: the doubled value of every merge; its properties are in SlideScoreBounds |
| Game2048.MergeScore | frondend/src/game2048/game2048.jsx:166-181 | the `score` mergeRow returns: the pass's points over the compacted row |
| Game2048.MergedIsCompacted | frondend/src/game2048/game2048.jsx:166-182 | a merged row has length 4 and no non-zero entry after a zero |
| Game2048.MergedKeepsSum | frondend/src/game2048/game2048.jsx:170-176 | merging keeps the sum of the row |
| Game2048.SlideScoreBounds | frondend/src/game2048/game2048.jsx:170-176 | on positive tiles the score lies between 0 and the row's sum (no value counted twice), and it is 0 exactly when nothing merges |
| Game2048.SlideCompact | frondend/src/game2048/game2048.jsx:170-178 | a pass over a row without zeros produces no zero |
| Game2048.MergeExampleFourEqual | frondend/src/game2048/game2048.jsx:170-176 | [2,2,2,2] gives [4,4,0,0] and 8 points: two merges, no chain |
| Game2048.MergeExampleNoChain | frondend/src/game2048/game2048.jsx:170-176 | [2,2,4,0] gives [4,4,0,0] and 4 points: a produced 4 does not merge with the 4 after it |
| Game2048.MergeExamplePair | frondend/src/game2048/game2048.jsx:170-176 | [2,2,0,0] gives [4,0,0,0] and 4 points |
| Game2048.ArraysEqual | frondend/src/game2048/game2048.jsx:219-221 | for rows of equal length, true exactly when the rows are equal |
| Game2048.Reverse | frondend/src/game2048/game2048.jsx:189 | same length, and entry k is entry n-1-k of the input |
| Game2048.ReverseRows | frondend/src/game2048/game2048.jsx:189 | every row reversed, same number of rows |
| Game2048.Transpose | frondend/src/game2048/game2048.jsx:214-216 | a 4x4 grid whose cell (i, j) is cell (j, i) of the input |
| Game2048.Rotate | frondend/src/game2048/game2048.jsx:184-197 | every direction gives a 4x4 grid again |
| Game2048.RotateBack | frondend/src/game2048/game2048.jsx:199-212 | every direction gives a 4x4 grid again |
| Game2048.ReverseRowsTwice | frondend/src/game2048/game2048.jsx:189 | reversing every row twice gives the grid back |
| Game2048.TransposeTwice | frondend/src/game2048/game2048.jsx:214-216 | transposing twice gives the grid back |
| Game2048.RotateRoundTrip | frondend/src/game2048/game2048.jsx:184-216 | `rotateBack(rotate(g, d), d) == g` for every direction, including unknown ones |
| Game2048.RotateBackRoundTrip | frondend/src/game2048/game2048.jsx:184-216 | `rotate(rotateBack(g, d), d) == g`, so rotating back is one-to-one |
| Game2048.OtherDirectionIsLeft | frondend/src/game2048/game2048.jsx:184-212 | an unrecognised direction makes rotate and rotateBack the identity, and moves, scores and changes the grid exactly like "left" |
| Game2048.SlideGrid | frondend/src/game2048/game2048.jsx:79-84 | row i of the result is row i of the input through mergeRow, and a 4x4 grid stays 4x4 |
| Game2048.RowsGain | frondend/src/game2048/game2048.jsx:78-83 | `gained`: the scores of all rows, added from the first row on |
| Game2048.Moves | frondend/src/game2048/game2048.jsx:75-85 | the `moved` flag: some rotated row changed when merged; MovesIffChanged relates it to the grid |
| Game2048.Gain | frondend/src/game2048/game2048.jsx:74-83 | the points a move gains: RowsGain of the rotated grid |
| Game2048.MoveGrid | frondend/src/game2048/game2048.jsx:75-88 | rotate, merge every row, rotate back: a 4x4 grid again |
| Game2048.MovesIffChanged | frondend/src/game2048/game2048.jsx:79-86 | the `moved` flag (some rotated row changed) is set exactly when the grid after rotating back differs from the input |
| Game2048.RotateKeepsSum | frondend/src/game2048/game2048.jsx:184-216 | rotating and rotating back keep the total of all cells |
| Game2048.SlideGridKeepsSum | frondend/src/game2048/game2048.jsx:79-84 | merging every row keeps the total of all cells |
| Game2048.MoveKeepsSum | frondend/src/game2048/game2048.jsx:75-88 | before the spawn, a move keeps the total of all tiles |
| Game2048.RotateKeepsTiles | frondend/src/game2048/game2048.jsx:184-216 | rotating keeps every cell 0 or a power of two of at least 2 |
| Game2048.MergedKeepsTiles | frondend/src/game2048/game2048.jsx:166-182 | merging keeps every cell 0 or a power of two of at least 2 |
| Game2048.MoveKeepsTiles | frondend/src/game2048/game2048.jsx:75-88 | a move keeps every cell 0 or a power of two of at least 2 |
| Game2048.GainNonNegative | frondend/src/game2048/game2048.jsx:77-84 | on a grid of tiles the points a move gains are never negative |
| Game2048.IsGameOver | frondend/src/game2048/game2048.jsx:223-232 | true exactly when no cell is 0 and no two horizontally or vertically adjacent cells are equal |
| Game2048.IsTerminal | frondend/src/game2048/game2048.jsx:223-232 | the condition isGameOver decides: no cell 0 and no equal horizontal or vertical neighbours |
| Game2048.TerminalIsStuck | frondend/src/game2048/game2048.jsx:72-86 | on a grid isGameOver accepts, no direction moves anything |
| Game2048.EmptyGrid | frondend/src/game2048/game2048.jsx:148-152 | a 4x4 grid of zeros |
| Game2048.EmptyPrefix | frondend/src/game2048/game2048.jsx:155-158 | the `empty` list after the first k cells of the scan; it holds at most k cells |
| Game2048.EmptyPrefixSpec | frondend/src/game2048/game2048.jsx:155-158 | the cells collected among the first k in row-major order are exactly the empty ones among them |
| Game2048.EmptyPrefixStep | frondend/src/game2048/game2048.jsx:156-158 | scanning cell (i, j) appends it exactly when it is 0 |
| Game2048.EmptyCells | frondend/src/game2048/game2048.jsx:155-158 | the collected list holds exactly the empty cells of the grid |
| Game2048.CollectEmpty | frondend/src/game2048/game2048.jsx:155-158 | the nested scan collects `EmptyCells(g)` in row-major order |
| Game2048.PickIndex | frondend/src/game2048/game2048.jsx:161 | `Math.floor(u * n)` is a valid index below n |
| Game2048.SpawnValue | frondend/src/game2048/game2048.jsx:162 | the new tile is a 2 or a 4 |
| Game2048.PlaceTile | frondend/src/game2048/game2048.jsx:154-164 | the grid is still 4x4 |
| Game2048.PlaceTileSpec | frondend/src/game2048/game2048.jsx:154-164 | a grid without a zero comes back unchanged; otherwise exactly one formerly empty cell gets 2 or 4 and every other cell is kept |
| Game2048.PlaceTileKeepsTiles | frondend/src/game2048/game2048.jsx:154-164 | a spawn keeps every cell 0 or a tile |
| Game2048.AddRandom | frondend/src/game2048/game2048.jsx:154-164 | the scan-and-write returns exactly `PlaceTile(g, uPick, uCoin)` |
| Game2048.SmallTiles | frondend/src/game2048/game2048.jsx:141-146 | a grid of 0, 2 and 4 holds only tiles |
| Game2048.FirstSpawn | frondend/src/game2048/game2048.jsx:141-143 | the first spawn on an empty grid puts one tile on some cell and keeps the rest empty |
| Game2048.TwoSpawns | frondend/src/game2048/game2048.jsx:141-144 | two spawns on distinct cells of an empty grid leave exactly those two tiles |
| Game2048.SecondSpawn | frondend/src/game2048/game2048.jsx:141-146 | the second spawn lands on another cell: two tiles of 2 or 4, fourteen empty cells |
| Game2048.StartNotTerminal | frondend/src/game2048/game2048.jsx:141-146 | a start grid holds only tiles and is not over |
| Game2048.CreateStartGrid | frondend/src/game2048/game2048.jsx:141-146 | two spawns on the empty grid: exactly two tiles of 2 or 4, and not over |
| Game2048.SlideGridSnoc | frondend/src/game2048/game2048.jsx:79-84 | merging one more row appends its merged row and adds its score |
| Game2048.SlideRowsStep | frondend/src/game2048/game2048.jsx:79-84 | one row of the pass: the rows, the `moved` flag and the points grow by that row |
| Game2048.SlideRows | frondend/src/game2048/game2048.jsx:75-84 | the loop over the rotated rows gives `SlideGrid`, sets `moved` exactly when some row changed, and sums `RowsGain` |
| Game2048.RowsGainNonNegative | frondend/src/game2048/game2048.jsx:77-84 | the points summed over rows of tiles are never negative |
| Game2048.Game.constructor | frondend/src/game2048/game2048.jsx:7-9 | a start grid with two tiles, score 0, game not over |
| Game2048.Game.Move | frondend/src/game2048/game2048.jsx:72-97 | when the game is over or no row moves, nothing changes; otherwise the grid is the moved grid plus one spawned tile, the score rises by the move's points, the flag is the game-over test of the new grid, and the score never falls |
| Game2048.Game.Restart | frondend/src/game2048/game2048.jsx:99-103 | a fresh start grid, score 0, game not over |
| Pong.Clamp | frondend/src/pong/pong.jsx:163-165 | the result lies in [0, 300]; a value already in range is returned unchanged; below 0 gives 0 and above 300 gives 300 |
| Pong.ClampIdempotent | frondend/src/pong/pong.jsx:163-165 | clamping twice is clamping once |
| Pong.ClampMonotone | frondend/src/pong/pong.jsx:163-165 | clamping keeps order |
| Pong.ServeSign | frondend/src/pong/pong.jsx:158-159 | a serve component is 4 or -4, and 4 exactly when the random number exceeds 0.5 |
| Pong.Served | frondend/src/pong/pong.jsx:154-161 | the ball restarts at (294, 194) with a random sign on each component |
| Pong.HumanStepMoves | frondend/src/pong/pong.jsx:93-99 | a held key moves the paddle by exactly 6 before clamping; both keys together cancel out |
| Pong.HumanStep | frondend/src/pong/pong.jsx:93-99 | a human paddle before clamping moves by -6, 0 or +6 |
| Pong.AiStep | frondend/src/pong/pong.jsx:101-102 | the computer paddle moves toward the ball's height minus 40 without overshooting it, and stays put exactly when it is already there |
| Pong.MovePaddles | frondend/src/pong/pong.jsx:92-106 | both paddles end in [0, 300]; the ball, the started flag and the scores are untouched |
| Pong.MoveBall | frondend/src/pong/pong.jsx:113-142 | the paddles are untouched, scores never fall, the total rises by one exactly when the rally stops, and a stopped rally restarts from a serve |
| Pong.Tick | frondend/src/pong/pong.jsx:89-142 | after a frame both paddles lie in [0, 300] and neither score has fallen |
| Pong.KickoffInPlay | frondend/src/pong/pong.jsx:14-15 | the initial ball and paddles satisfy the in-play invariant |
| Pong.ServedInPlay | frondend/src/pong/pong.jsx:154-161 | a freshly served ball satisfies the in-play invariant |
| Pong.TickPaddlesInRange | frondend/src/pong/pong.jsx:93-106 | after every tick both paddles lie in [0, 300], whatever keys are held |
| Pong.TickHumanPaddles | frondend/src/pong/pong.jsx:92-106 | each paddle ends at the clamp of its key step (or of the computer step) |
| Pong.TickIdle | frondend/src/pong/pong.jsx:111 | before the rally starts, a tick leaves the ball, the started flag and the scores unchanged |
| Pong.TickBounce | frondend/src/pong/pong.jsx:113-138 | a started ball that stays between the goal lines moves by (vx, vy); vy is negated exactly when the new y is at most 0 or at least 388; vx is negated exactly at a paddle (x at most 20 or at least 568, y within the paddle, bounds included) |
| Pong.TickGoal | frondend/src/pong/pong.jsx:141-161 | x below 0 gives the right player exactly one point, x above 600 the left player; either way the ball is served again and the rally stops |
| Pong.TickScoresAtMostOne | frondend/src/pong/pong.jsx:141-152 | scores never fall, rise by at most one per tick, and rise exactly when a started rally stops |
| Pong.TickKeepsInPlay | frondend/src/pong/pong.jsx:89-161 | every tick keeps the paddles on the field, the ball between the goal lines and \|vx\| = \|vy\| = 4 |
| Pong.TouchedPaddle | frondend/src/pong/pong.jsx:56-65 | a paddle after a touch event is its old position or the clamped height of one of the touches on its half |
| Pong.TouchedPaddleUntouched | frondend/src/pong/pong.jsx:56-65 | with no touch on its half, a paddle stays where it is |
| Pong.TouchedPaddleFollowsLast | frondend/src/pong/pong.jsx:56-65 | a paddle ends at the clamped height (minus 50) of the last touch on its half |
| Pong.TouchedPaddleInRange | frondend/src/pong/pong.jsx:56-65 | a touch event leaves a paddle in [0, 300] |
| Pong.Game.constructor | frondend/src/pong/pong.jsx:10-21 | the ball at (294, 194) with velocity (4, 4), both paddles at 150, no score, not started, computer off |
| Pong.Game.KeyDown | frondend/src/pong/pong.jsx:27-33 | the key is held, and a paddle key starts the rally; nothing else changes |
| Pong.Game.KeyUp | frondend/src/pong/pong.jsx:35-37 | the key is released; nothing else changes |
| Pong.Game.ToggleAi | frondend/src/pong/pong.jsx:190 | the computer player switches on or off; nothing else changes |
| Pong.Game.Touch | frondend/src/pong/pong.jsx:51-66 | outside landscape nothing changes; in landscape the rally starts and each paddle follows the touches on its half |
| Pong.Game.ResetBall | frondend/src/pong/pong.jsx:154-161 | the ball is served again and nothing else changes |
| Pong.Game.ScorePoint | frondend/src/pong/pong.jsx:148-152 | the player's score rises by one, the other's is kept, the ball is served again and the rally stops |
| Pong.Game.StepPaddles | frondend/src/pong/pong.jsx:92-106 | the paddle half of update computes `MovePaddles` of the old state |
| Pong.Game.StepBall | frondend/src/pong/pong.jsx:113-142 | the ball half of update computes `MoveBall` of the old state |
| Pong.Game.Update | frondend/src/pong/pong.jsx:89-146 | outside landscape nothing changes; otherwise the new state is `Tick` of the old one, and the in-play invariant is kept |
| Sudoku.InitialIsBoard | frondend/src/sudoku/sudoku.jsx:4-14 | the puzzle is a 9x9 board of digits 0..9 |
| Sudoku.BlockStart | frondend/src/sudoku/sudoku.jsx:174-175 | the block start is a multiple of 3 with k in [start, start+3) |
| Sudoku.ValidAt | frondend/src/sudoku/sudoku.jsx:162-183 | the condition isValidMove decides: no other cell of the row, column or block holds v |
| Sudoku.IsValidMove | frondend/src/sudoku/sudoku.jsx:162-183 | true exactly when no cell other than (r, c) in row r, in column c or in the 3x3 block of (r, c) holds v |
| Sudoku.Write | frondend/src/sudoku/sudoku.jsx:42-43 | the copy holds v at (r, c) and every other cell as before |
| Sudoku.ValidAtIgnoresOwnCell | frondend/src/sudoku/sudoku.jsx:162-183 | the value currently at (r, c) does not affect whether v is valid there |
| Sudoku.CorrectedCell | frondend/src/sudoku/sudoku.jsx:86-95 | one cell of checkBoard's result keeps its value or becomes 0, and a given cell always keeps it |
| Sudoku.Corrected | frondend/src/sudoku/sudoku.jsx:84-96 | the corrected board is still a board |
| Sudoku.CorrectedChangesOnlyClashes | frondend/src/sudoku/sudoku.jsx:85-96 | checkBoard only empties cells: a changed cell was non-given, non-zero and invalid in the old board and becomes 0; givens, empty cells and valid cells are kept |
| Sudoku.ClearingKeepsValid | frondend/src/sudoku/sudoku.jsx:162-183 | emptying cells cannot make a non-zero value clash |
| Sudoku.CorrectedIsConsistent | frondend/src/sudoku/sudoku.jsx:85-96 | after checkBoard every non-zero player entry is valid |
| Sudoku.CorrectedIdempotent | frondend/src/sudoku/sudoku.jsx:85-96 | checkBoard applied to its own output changes nothing |
| Sudoku.CheckWinner | frondend/src/sudoku/sudoku.jsx:101-110 | true exactly when every cell is non-zero and valid |
| Sudoku.Solved | frondend/src/sudoku/sudoku.jsx:101-110 | the condition checkWinner decides: every cell non-zero and valid |
| Sudoku.InitialNotSolved | frondend/src/sudoku/sudoku.jsx:4-14 | checkWinner is false for the puzzle |
| Sudoku.SolvedIsFixpoint | frondend/src/sudoku/sudoku.jsx:85-110 | checkBoard leaves a solved board alone |
| Sudoku.CorrectedKeepsGivens | frondend/src/sudoku/sudoku.jsx:88 | checkBoard keeps every given cell |
| Sudoku.Game.constructor | frondend/src/sudoku/sudoku.jsx:17-21 | the puzzle, score 0, no winner |
| Sudoku.Game.NoteWinner | frondend/src/sudoku/sudoku.jsx:31-35 | the winner flag goes up when the board is solved and never goes down |
| Sudoku.Game.HandleChange | frondend/src/sudoku/sudoku.jsx:38-49 | a number outside 1..9 changes nothing; otherwise the board is the old one with that one cell set, the score rises by exactly 10 exactly when the value is valid in the new board, and the winner check runs |
| Sudoku.Game.CheckBoard | frondend/src/sudoku/sudoku.jsx:84-99 | the board becomes its correction, the score is kept, and the winner check runs |
| Sudoku.Game.Restart | frondend/src/sudoku/sudoku.jsx:77-82 | the puzzle again and score 0 |
| Sudoku.Game.PlayAgain | frondend/src/sudoku/sudoku.jsx:148-151 | the winner flag goes down, then restart |
| TicTacToe.FirstWinning | frondend/src/tictactoe/tictactoe.jsx:102-107 | the index of the first winning line in the listed order, with no winning line before it |
| TicTacToe.Evaluate | frondend/src/tictactoe/tictactoe.jsx:90-114 | a reported win names one of the eight lines, fully held by its non-empty winner; a draw only on a full board; nothing only with an empty cell left |
| TicTacToe.EvaluateSpec | frondend/src/tictactoe/tictactoe.jsx:90-114 | a win exactly when some line wins, reporting the first such line and its non-empty mark; a draw exactly when no line wins and the board is full; nothing otherwise |
| TicTacToe.CalculateWinner | frondend/src/tictactoe/tictactoe.jsx:90-114 | the loop over the lines and the full-board test compute `Evaluate(b)` |
| TicTacToe.WinsFor | frondend/src/tictactoe/tictactoe.jsx:120-123 | the trial test of getBestMove: cell i is empty and p is a real mark whose mark there wins |
| TicTacToe.FirstWinFor | frondend/src/tictactoe/tictactoe.jsx:119-134 | the lowest cell where putting p wins for p, or 9 when there is none |
| TicTacToe.FirstEmpty | frondend/src/tictactoe/tictactoe.jsx:140 | the lowest empty cell, or -1 exactly when there is none |
| TicTacToe.BestMove | frondend/src/tictactoe/tictactoe.jsx:117-141 | getBestMove's answer is -1 or an empty cell |
| TicTacToe.BestMoveSpec | frondend/src/tictactoe/tictactoe.jsx:117-141 | the lowest winning cell for O; failing that the lowest block against X; failing both the centre if free, else the lowest free cell, or -1 exactly on a full board; every answer other than -1 is an empty cell |
| TicTacToe.BestMoveInProgress | frondend/src/tictactoe/tictactoe.jsx:12-21 | while no one has won and the board is not full, the opponent's answer is an empty cell |
| TicTacToe.BlockExample | frondend/src/tictactoe/tictactoe.jsx:128-134 | with X on 0 and 1 and nothing else, the opponent blocks at 2 |
| TicTacToe.FindWinningCell | frondend/src/tictactoe/tictactoe.jsx:119-134 | the trial-board scan returns `FirstWinFor(b, p, 0)` |
| TicTacToe.FindEmpty | frondend/src/tictactoe/tictactoe.jsx:140 | findIndex returns `FirstEmpty(b, 0)` |
| TicTacToe.GetBestMove | frondend/src/tictactoe/tictactoe.jsx:117-141 | returns `BestMove(b)` |
| TicTacToe.CountWrite | frondend/src/tictactoe/tictactoe.jsx:26-27 | writing p into an empty cell adds one p and changes no other mark's count |
| TicTacToe.CountEmptyBoard | frondend/src/tictactoe/tictactoe.jsx:5 | the empty board holds no X and no O |
| TicTacToe.EmptyBoardInProgress | frondend/src/tictactoe/tictactoe.jsx:5 | the empty board is undecided |
| TicTacToe.MoveKeepsBalance | frondend/src/tictactoe/tictactoe.jsx:5-29 | a move by the player to move keeps count(X) - count(O) at 0 when X is next and 1 when O is next |
| TicTacToe.MoveWinnerIsMover | frondend/src/tictactoe/tictactoe.jsx:23-29 | a move into an empty cell of an undecided game can only win for the player who made it |
| TicTacToe.Game.constructor | frondend/src/tictactoe/tictactoe.jsx:5-8 | an empty board, X to move, no score, round not over |
| TicTacToe.Game.RecordWin | frondend/src/tictactoe/tictactoe.jsx:43-51 | a won round not yet counted gives its winner one point and marks the round over; otherwise nothing changes |
| TicTacToe.Game.MakeMove | frondend/src/tictactoe/tictactoe.jsx:23-30 | an occupied cell or a decided game changes nothing. Otherwise the player to move marks exactly that cell, every other cell is kept and the turn passes. A win this produces is the mover's, and with the score effect folded in, the winner's score rises by exactly one and the other score is kept. The X/O balance is kept |
| TicTacToe.Game.HandleClick | frondend/src/tictactoe/tictactoe.jsx:32-35 | the human moves only on X's turn, and then as makeMove does: X marks that cell and the turn passes to O; a win is X's, and it adds one to X's score; O's score is kept |
| TicTacToe.Game.OpponentTurn | frondend/src/tictactoe/tictactoe.jsx:12-21 | on O's turn in an undecided game, O marks getBestMove's cell, which is empty, and the turn passes to X; a win is O's, and it adds one to O's score; X's score is kept. Otherwise nothing changes |
| TicTacToe.Game.ResetGame | frondend/src/tictactoe/tictactoe.jsx:37-41 | an empty board with X to move and the round open; the score is kept |

## Left out

- React hooks, effects and listener wiring (`useEffect`, `addEventListener`, `useRef`) are left out. The effects become explicit methods. In 2048 these are the keyboard and swipe mapping to a direction. In Pong they are the keydown/keyup handlers and the touch handler. The 2048 swipe threshold of 30 pixels is not modelled.
- Scheduling is left out: Pong's `requestAnimationFrame` loop, the tic-tac-toe opponent's 400 ms `setTimeout`, and the Sudoku timer. `Pong.Game.Update` is one frame.
- TicTacToe.Game.OpponentTurn: runs the choice and the move as one step on the current state. In the component, the effect picks the cell and schedules `makeMove` (tictactoe.jsx:12-21). That closure keeps the `board`, `result` and `isXNext` of the render that scheduled it (lines 23-29). If `resetGame` runs inside those 400 ms, the timer still writes the old board plus O's mark and hands the turn to X, so the reset is lost. The model does not capture this stale-closure overwrite.
- DOM writes and rendering are left out: paddle and ball `style.top`/`style.left`, the JSX, status texts, and Sudoku's `getCellClass` and cell selection.
- The probabilities of `Math.random` are not modelled. Each call becomes a caller-supplied number in [0, 1).
- Pong.AiStep: not modelled with IEEE double rounding. The computer rule is computed in exact reals. What is proved is that it moves toward its target without overshooting, and that the clamp after it keeps the paddle in [0, 300].
- `isLandscape` becomes a constructor parameter, not a reading of `window.innerWidth > window.innerHeight`. The window width in the touch handler becomes a parameter.
- Pong.Game.StepBall: requires paddles inside [0, 300], which `update` has just established. This lets the serve after a goal keep the in-play invariant.
- Sudoku.Game.HandleChange: takes an integer, not the input string. There is no `parseInt`/`NaN` case: a value that fails to parse behaves like any number outside 1..9.
- Sudoku.Game.HandleChange: requires `Editable(row, col)`. The component protects the givens only through the disabled input, not inside `handleChange`.
- React batches state updates and runs the effects after a render. The model runs them in a sequence instead:
  - Sudoku's winner effect runs inside `HandleChange` and `CheckBoard`.
  - `Restart` does not run it, because the puzzle is not solved (`InitialNotSolved`).
  - Tic-tac-toe's score effect runs inside `MakeMove`.
- Tic-tac-toe's `move !== null` guard is always true, since `getBestMove` never returns null. During the opponent's turn the board is undecided, so the answer is never -1 (`BestMoveInProgress`).
