# Tic-tac-toe game engine

A Dafny model of the game-state engine of a React tic-tac-toe tutorial app
(`src/index.js`). It has three parts:

- `calculateWinner` classifies a nine-square board. It scans eight fixed lines
  (three rows, three columns, two diagonals) in a fixed order. The first line
  whose three squares hold the same mark wins. With no winning line, a full
  board is a tie. Any other board is still in progress.
- `Game` keeps a history of board snapshots, the step shown and whose turn it
  is. `handleClick(i)` applies a move. It ignores the click when the current
  board is decided or square `i` is taken. Otherwise it drops the history after
  the current step, appends the new board and its move (row, column, mark) and
  makes that step current.
- `jumpTo(step)` moves back or forward in the history ("time travel").

Files:

- `winner.dfy` (module `Winner`) holds the square, board, line and outcome
  types, the specification function `Evaluate`, and `CalculateWinner`, the
  source's two loops proved equal to `Evaluate`.
- `game.dfy` (module `GameEngine`) holds the snapshot and move types, the
  state as a value (`GameState`), the specification functions `Click` and
  `Jump`, and the history invariant `ValidHistory` with lemmas about it. It
  also holds class `Game`, whose fields `history`, `stepNumber` and `xIsNext`
  are updated in place by `HandleClick` and `JumpTo`. Each method is proved to
  produce `Click`/`Jump` of the old state and to keep `Valid()`.
- `scenarios.dfy` (module `Scenarios`) holds games played click by click from
  a new game: a top-row win for X, a full-board tie, and a repeated click that
  is ignored. Each game is followed through `Play`, one accepted click at a
  time, and its last board is then classified by `Evaluate`.

Modelling notes:

- Where the app returns `'X'`, `'O'`, `'tie'` or `null`, `Evaluate` returns
  `Win(mark, line)`, `Tie` or `InProgress`. The winning line is part of the
  result and replaces the on-screen highlighting.
- Each `setState` call is one simultaneous assignment of the three fields.
- The source stores `xIsNext` as a field of its own and flips it on every
  move. The model keeps that field. The invariant `Valid()` proves that it
  always equals `stepNumber % 2 == 0`, rather than assuming it is derived.
- A snapshot is an immutable sequence, so appending one cannot change earlier
  snapshots. The copy of the board that `handleClick` makes with `slice` and
  then writes is a fresh `array` in `HandleClick`.

## Model

| member | source | states |
|---|---|---|
| `Winner.FirstWin` | src/index.js:228-244 | the result is the number of the first line, in scan order from `from`, whose three squares are non-empty and equal, or 8 when there is none; every line skipped does not win |
| `Winner.Evaluate` | src/index.js:227-257 | a win names one of the eight lines, whose three squares all hold the winning mark, and a tie is only reported on a full board; `EvaluateSpec` states the outcome in full |
| `Winner.EvaluateSpec` | src/index.js:227-257 | the outcome is a win exactly when some line wins, and then it is the mark and line of the first winning line in scan order; with no winning line it is a tie exactly when all nine squares are filled, otherwise in progress; a winning line takes precedence over a full board |
| `Winner.FirstWinningExists` | src/index.js:238-244 | whenever some line wins there is a first winning line in scan order, so the win case of the outcome is always determined |
| `Winner.EvaluateUnrolled` | src/index.js:228-256 | the outcome equals the eight line tests written out in the order of the `lines` table, each winner taken from the line's first square, then the full-board test |
| `Winner.CountFilled` | src/index.js:247-254 | the number of filled squares never exceeds the number of squares |
| `Winner.CountFilledAll` | src/index.js:247-254 | the filled count equals the length exactly when every square is filled (the tie test) |
| `Winner.CountFilledPlace` | src/index.js:129-132 | writing a mark into an empty square raises the filled count by one |
| `Winner.CountMark` | src/index.js:132 | the number of squares holding one mark never exceeds the number of filled squares |
| `Winner.CountMarkPlace` | src/index.js:132 | writing mark m into an empty square adds one m and leaves the other mark's count unchanged |
| `Winner.CalculateWinner` | src/index.js:227-257 | the line loop with early return followed by the counting loop computes exactly the outcome `Evaluate` (first winning line, else tie on a full board, else in progress) |
| `GameEngine.Click` | src/index.js:124-150 | when the current board is decided or square i is taken, the state is unchanged; otherwise the history is the old entries 0..stepNumber plus exactly one, the step is the old step + 1 and the last index, the player flips, the new board is the old one with only square i set to the mover's mark, and the move records square i as row and column in 1..3 with that mark |
| `GameEngine.Jump` | src/index.js:152-166 | the history is unchanged and the step becomes `step`; on a valid state the state stays valid and the player to move is X exactly on even steps; a jump to the current step changes nothing |
| `GameEngine.ClickValid` | src/index.js:124-150 | a click keeps the invariant: the history stays a legal game from the empty board, the step indexes it, and `xIsNext` equals the step's parity |
| `GameEngine.HistoryPrefix` | src/index.js:125 | truncating a legal history after any entry leaves a legal history |
| `GameEngine.HistoryExtend` | src/index.js:143-146 | appending a legal move to a legal history gives a legal history |
| `GameEngine.EmptyPrefixCount` | src/index.js:116 | the initial board holds no marks |
| `GameEngine.FilledCountIsStep` | src/index.js:129-148 | the board at step k of a legal history holds exactly k marks |
| `GameEngine.MarksAlternate` | src/index.js:132-148 | at step k, X has (k + 1) / 2 marks and O has k / 2, because X moves first and the players alternate |
| `GameEngine.HistoryBounded` | src/index.js:129-132 | a legal history has at most ten entries (at most nine moves) |
| `GameEngine.FilledCellsPersist` | src/index.js:129-132 | a filled square keeps its mark in every later snapshot, so a taken square is never overwritten |
| `GameEngine.OneCellChanged` | src/index.js:127-132 | consecutive snapshots differ in exactly one square |
| `GameEngine.Play` | src/index.js:124-150 | a series of clicks keeps the step an index of the history |
| `GameEngine.PlayAppend` | src/index.js:124-150 | playing two series of clicks one after the other is the same as playing their concatenation |
| `GameEngine.Accepted` | src/index.js:129-131 | the number of clicks the game accepts never exceeds the number of clicks |
| `GameEngine.PlayForward` | src/index.js:142-148 | playing on from the latest step without jumps only appends: the old history is a prefix of the new one, the history grows by exactly one entry per accepted click, the step advances by the same number and stays on the last entry, and the state stays valid |
| `GameEngine.PlayFromStart` | src/index.js:112-150 | from a new game, any series of clicks leaves a valid state whose history is the empty board plus one entry per accepted click, whose step is the number of accepted clicks, and at most nine clicks are ever accepted |
| `GameEngine.BranchFromPast` | src/index.js:124-165 | after a jump to step k and an accepted click, the history is the old entries 0..k plus one, and X is to move exactly when k is odd |
| `GameEngine.Game.constructor` | src/index.js:112-122 | the new game has one entry (the empty board, no move), step 0, X to move, and satisfies the invariant |
| `GameEngine.Game.HandleClick` | src/index.js:124-150 | the new fields are `Click` of the old state, and the invariant is kept |
| `GameEngine.Game.JumpTo` | src/index.js:152-166 | the new fields are `Jump` of the old state, and the invariant is kept |
| `Scenarios.PlayStep` | src/index.js:124-150 | an accepted click at step n, on an undecided board whose clicked square is empty, moves the game to step n + 1 with that square set to the mark of step n's player, and the remaining clicks play on from there |
| `Scenarios.TopRowWin` | src/index.js:112-257 | from a new game the clicks 0, 4, 1, 3, 2 are all accepted; X then wins on line 0-1-2, the history holds six boards and the game shows step 5 with O to move |
| `Scenarios.FullBoardTie` | src/index.js:112-257 | from a new game the clicks 0, 1, 2, 4, 3, 5, 7, 6, 8 are all accepted and fill the board with no winning line; the game is a tie at step 9 with ten boards in the history, and any further click is ignored |
| `Scenarios.RepeatedClick` | src/index.js:129-131 | a second click on square 0 changes nothing; the game stays at step 1 with O to move |

## Left out

- Rendering is not modelled: `Square`, `Board.renderSquare`, `Board.render`, `Game.render`, `ReactDOM.render`, the CSS import and `console.log` (src/index.js:1-3, 21-109, 168-225). They are presentation and React framework calls.
- The DOM side effects `highlightWinningSquares` and `removeHighlighting` (src/index.js:259-271) are not modelled. That includes their calls from `calculateWinner` and `jumpTo`. The winning line is returned in the outcome instead.
- React's asynchronous `setState` batching is not modelled; each update is one atomic assignment.
- GameEngine.Game.JumpTo: requires `step < |history|`. The source does no range check, but its only caller passes an index of the history list, and `render` reads `history[stepNumber]`.
- GameEngine.Game.HandleClick: requires a square index in 0..8, the only values the board's buttons pass. A JavaScript array write past index 8 is not modelled.
- The commented-out earlier versions of `Square` and `Board` (src/index.js:8-18, 36-42, 74-107) are not modelled.
