# Tic-tac-toe game core, in Dafny

This project models the game logic of a browser tic-tac-toe game (`src/App.js`).
The game plays on an N×N board whose size the player can change. It keeps a
timeline of board snapshots that the player can travel back through, and
branching off an earlier snapshot discards the later ones.

- `board.dfy` (module `Board`): squares and snapshots. `Cell` is `Empty | X | O`.
  The source stores `"X"`, `"O"` or `null`, and a read past the end of its
  array gives `undefined`. Both `null` and `undefined` are falsy and equal no
  mark, so both become `Empty`. `At` reads a square. Any index outside the
  array reads as `Empty`. `Write` assigns one square of a copy. A write past
  the end grows the array, and the holes it leaves read as `Empty`.
- `lines.dfy` (module `WinLines`): the candidate winning lines. There are N rows,
  then N columns, then the main diagonal, then the anti-diagonal, each a list
  of row-major indices. `GenerateWinningLines` builds them with the source's
  nested loops and is proved equal to the specification function `Lines`.
  Lemmas describe each line geometrically: row i holds exactly the squares
  with `k / N == i`, and so on.
- `evaluator.dfy` (module `WinEvaluator`): `determineWinner`. `DetermineWinner`
  scans the lines in order and returns the mark of the first line that
  passes the source's test. It is proved equal to the specification function
  `Winner`. Lemmas characterise `Winner` as the first uniform line, relate it
  to full rows, columns and diagonals in both directions, and cover the cases
  where nobody can win.
- `history.dfy` (module `MoveHistory`): the game state as class `Game`. Its
  fields are `moveHistory`, `activeMove`, `boardSize`, `boardSizeInput` and
  `sortAscending`. Each user-interface handler is a method on it. The ghost
  predicate `Played` states the timeline invariant: the timeline starts from
  the empty nine-square board, and each snapshot adds one mark to an empty
  square of the one before it, X on even steps. `HandleSquareClick` and
  `GoToMove` keep it, `HandleMove` keeps it for a legal move, and the size
  and sort handlers leave the timeline untouched. `PlayedCounts` derives from it that X and O alternate, X first.
  The move-list step mapping is here too.
- `scenarios.dfy` (module `Scenarios`): worked boards proved against `Winner`,
  plus a client method that plays, branches and resets a timeline through
  the class's contracts.

The model assigns the fields directly, where React defers each update to the
next render. This matches the source because each handler reads the state
only before its first assignment.
`handleSquareClick` is defined in the `Board` component, but every value it
uses comes from the game's state: the shown snapshot, `isXTurn`, `boardSize`
and `handleMove`. It is therefore a method of `Game` here.

Behaviours of the code that the model keeps, and that a reader might not
expect:
- A size change does not reset the timeline. The initial snapshot and the
  one made by going back to step 0 always have nine squares, whatever the
  board size.
- Size 0 is accepted. Only negative sizes are ignored.
- The evaluator returns only the winning mark, not the winning line.
- A line of fewer than three squares never wins. On boards with N < 3
  nobody can win.

## Model

| member | source | states |
|---|---|---|
| `Board.HolesReadAsEnd` | src/App.js:135 | Padding a snapshot with the empty holes that a write past the end leaves changes no read: a hole reads exactly like the missing tail, both `undefined`. A read yields a mark only at an index inside the array. The same read is used by the line test at src/App.js:197-200. |
| `Board.Empties` | src/App.js:12 | `Array(9).fill(null)`, as at src/App.js:12 and 28: a snapshot of exactly n squares, every one empty. |
| `Board.Write` | src/App.js:134-138 | The copy holds the new mark at the clicked index, and every other index reads as before. The copy keeps its length, or grows to index + 1 when the index is past the end. |
| `Board.WriteCount` | src/App.js:138 | Writing a mark into an empty square adds exactly one of that mark and leaves the count of the other mark unchanged. |
| `WinLines.GenerateWinningLines` | src/App.js:171-189 | The nested loops build exactly `Lines(N)`: N rows, then N columns, then the main diagonal, then the anti-diagonal. |
| `WinLines.LinesShape` | src/App.js:177-187 | There are 2N+2 lines. Line i is row i and line N+i is column i; the last two are the main diagonal and the anti-diagonal. Every line has exactly N indices, all in [0, N²). |
| `WinLines.RowCells` | src/App.js:183 | Row i, with i·N+j for each j, holds exactly the board squares k with k / N = i. |
| `WinLines.ColumnCells` | src/App.js:184 | Column i, with j·N+i for each j, holds exactly the board squares k with k mod N = i. |
| `WinLines.MainDiagonalCells` | src/App.js:178 | The main diagonal, with i·N+i for each i, holds exactly the board squares whose row equals their column. |
| `WinLines.AntiDiagonalCells` | src/App.js:179 | The anti-diagonal, with (i+1)·N−(i+1) for each i, holds exactly the board squares whose row and column add up to N−1. |
| `WinEvaluator.DetermineWinner` | src/App.js:170-206 | The scan with early return gives `Winner(squares, N)`: the mark of the first line that passes the test, or `Empty` (`null`) when none does. |
| `WinEvaluator.UniformIsFilled` | src/App.js:195-201 | The `[first, second, third, ...rest]` test passes exactly when the line has at least three squares, all holding the same mark, and that mark is not empty. |
| `WinEvaluator.FirstWinnerIsFirstUniform` | src/App.js:194-205 | The scan gives `Empty` exactly when no line passes. Otherwise it gives a mark m such that some passing line is filled with m and no earlier line passes. |
| `WinEvaluator.WinnerOwnsLine` | src/App.js:194-203 | If there is a winner, then N ≥ 3 and the winner's mark fills a whole row, a whole column, the main diagonal or the anti-diagonal. |
| `WinEvaluator.FilledLineWins` | src/App.js:194-203 | When N ≥ 3, any candidate line filled with one mark makes the evaluator report a winner. |
| `WinEvaluator.NoWinnerBelowThree` | src/App.js:195-200 | On a board with N < 3, including N = 0, there is never a winner. |
| `WinEvaluator.NoMarkNoWinner` | src/App.js:197 | A snapshot with no marks has no winner, for any N. |
| `MoveHistory.TurnMark` | src/App.js:17 | The mark placed from step `move` is never empty. It is X exactly when `move` is even. |
| `MoveHistory.MoveCounts` | src/App.js:138 | One move of mark m adds exactly one m to the board and leaves the other player's count unchanged. |
| `MoveHistory.PlayedCounts` | src/App.js:133-140 | In a timeline of play, snapshot i holds (i+1)/2 X marks and i/2 O marks, so X moves first and the players alternate. |
| `MoveHistory.PlayedBranch` | src/App.js:20-24 | Keeping steps 0..a and appending a legal move from step a gives a timeline of play again. |
| `MoveHistory.MoveListSteps` | src/App.js:35-41 | In ascending or descending order, the move list offers buttons for exactly the steps 1 … length−1. So every button targets an existing snapshot. |
| `MoveHistory.Game.constructor` | src/App.js:12-18 | The game starts with one empty nine-square snapshot, active move 0, board size 3 and ascending order, and this timeline is one of play. |
| `MoveHistory.Game.CurrentSquares` | src/App.js:14 | The shown snapshot `moveHistory[activeMove]` is one of the snapshots of the timeline. |
| `MoveHistory.Game.HandleMove` | src/App.js:20-24 | The new timeline is the old one up to the active step, followed by the new snapshot. The active step advances by one to that snapshot. Earlier snapshots are unchanged, and a legal move keeps the timeline one of play. |
| `MoveHistory.Game.GoToMove` | src/App.js:26-31 | Step 0 replaces the timeline with one empty nine-square snapshot. Any other step leaves the timeline alone. In both cases the active step becomes the given step. |
| `MoveHistory.Game.HandleSquareClick` | src/App.js:133-140 | A click on an occupied square, or on a board that already has a winner, changes nothing. Otherwise the timeline is cut after the active step and extended by a snapshot that differs from the shown one only at the clicked square. That square holds X on even steps and O on odd ones. The timeline of play is kept. |
| `MoveHistory.Game.HandleKeyDown` | src/App.js:52-60 | A negative value is ignored. Enter stores a non-negative value as the board size. Other keys change nothing, and the timeline is never reset. |
| `MoveHistory.Game.HandleBoardSizeUpdate` | src/App.js:62-68 | A negative value is ignored. Any other value, 0 included, becomes the board size, and the timeline is not reset. |
| `MoveHistory.Game.HandleInputChange` | src/App.js:70-76 | A negative value is ignored. Any other value becomes both the size field's value and the board size, and the timeline is not reset. |
| `MoveHistory.Game.ToggleSort` | src/App.js:89-95 | Only the move-list order flips. |
| `Scenarios.TopRowWins` | src/App.js:170-206 | On a 3×3 board, X across the top row wins. |
| `Scenarios.LeftColumnWins` | src/App.js:170-206 | On a 3×3 board, X down the left column wins once all the rows have failed. |
| `Scenarios.MainDiagonalWinsOnFour` | src/App.js:170-206 | On a 4×4 board, X on squares 0, 5, 10 and 15 wins by the main diagonal. |
| `Scenarios.FullBoardNoWinner` | src/App.js:170-206 | A full 3×3 board with no three in a row gives no winner. A draw is not reported separately. |
| `Scenarios.OneMarkNoWinner` | src/App.js:170-206 | A single X in a corner is not yet a win. |

## Left out

- Rendering: the `Square` component, the board and row markup, the status text, and the move-list `<li>`/button markup with its "You are at move #" label (src/App.js:3-9, 78-118, 142-167). These only display state.
- The `useState` hook mechanics. State is modelled as fields of `Game` that the handlers assign directly; each handler reads the state only before its first assignment, so React's deferred updates give the same result.
- `console.log` calls (src/App.js:57, 66, 192). They are output only and have no effect on state.
- DOM event details. The handlers take the already-parsed size as an integer, and the Enter test as a boolean. `Number(...)` parsing of the text field is not modelled, including its NaN and fractional results, which the source would store as the size.
- `MoveHistory.Game.GoToMove`: requires the step to name an existing snapshot. The source does not check this, but its only callers, the "Go to start" button and the move-list buttons, never pass anything else (`MoveListSteps`). An out-of-range step would make the source read an undefined snapshot and fail on the next render.
- Draw detection and winning-line highlighting. Neither exists in this source.
