# Falling-block puzzle: piece, collision and update model

A Dafny model of the game logic of a small browser Tetris clone. Only
`src/main.ts` holds game logic. The model covers:

- **Piece rotation** (`getRotatedMatrix`): transpose the piece matrix, then
  reverse each row. An R×C matrix becomes C×R, and the cell at (i, j) moves
  to (j, R-1-i). That is a clockwise quarter turn.
- **The piece** (`Shape`): a cell matrix (0 = empty) plus an anchor
  `{row, col}`, which is the board position of the matrix's top-left cell.
  `rotate()` replaces the matrix and keeps the anchor.
- **The collision test** (`hasCollision`): project the piece one move left,
  down, right or rotated, and report whether any occupied cell of the
  projection lands on a board position that is absent or not 0. Reads of
  `grid[r]?.[c]` outside the grid, negative indices included, give
  `undefined`, and `undefined !== 0`, so walls and floor block.
- **The key map** kept by the keydown/keyup handlers. Each handler sets one
  named flag to true or false.
- **`updateGame`**: tries left, right, rotate and down in that order. Each
  move is checked against the piece as the previous step left it. A move is
  applied only if it is requested and does not collide, and its flag is
  cleared only then.

Modules: `Options` (an absent-or-present value), `Matrices` (rotation, cell
multisets), `Board` (grid, anchor, piece, projection, collision), `Input`
(the key-map reducer) and `Game` (the guarded update and its invariants).
Everything is a pure function over immutable values. The source's
module-level `grid`, `myShape` and `keyMap` become parameters and results.
`hasCollision` only reads them: it is a pure function here. The source builds
fresh anchor objects and a fresh matrix for its projections, so it does not
mutate anything either.

Two facts matter most. Rotation has order four and preserves the multiset of
cell values. And the safety invariant holds: a piece whose occupied cells all
sit on free board cells still does after any `updateGame` step
(`Game.UpdateKeepsFit`).

This source is an early stage of a falling-block game, and the model keeps
to what it does rather than to what a complete game of the kind does:
- the grid holds numbers (0 = empty), not per-piece colour tags;
- the one piece starts at anchor (0, 0), not at a centred spawn column;
- there is no locking, row clearing, spawning, gravity or hard drop (see
  below).

## Model

| member | source | states |
|---|---|---|
| Matrices.Reverse | src/main.ts:50-52 | reversing a row puts element k at position len-1-k and keeps the length |
| Matrices.Transpose | src/main.ts:41-47 | the push loop yields one row per column of the input; row j holds column j in input-row order (`t[j][i] == m[i][j]`) |
| Matrices.RotatedMatrix | src/main.ts:39-55 | the result of a non-empty rectangular R×C matrix is rectangular C×R, and input cell (i, j) sits at (j, R-1-i): a clockwise quarter turn |
| Matrices.TransposeByPushing | src/main.ts:41-47 | the transposing double loop (one empty row per column, push `m[i][j]` onto row j) computes the transpose |
| Matrices.ReverseEachRow | src/main.ts:49-52 | the reversing loop leaves every row reversed |
| Matrices.GetRotatedMatrix | src/main.ts:39-55 | the imperative rotation, both loops, equals the quarter turn and places cell (i, j) at (j, R-1-i) |
| Matrices.QuarterTurnUnique | src/main.ts:39-55 | any C×R matrix with cell (i, j) of the input at (j, R-1-i) is exactly what the rotation returns |
| Matrices.RotateTwoByTwo | src/main.ts:39-55 | [[a, b], [c, d]] rotates to [[c, a], [d, b]] |
| Matrices.RotateTwice | src/main.ts:39-55 | two quarter turns send cell (i, j) to (R-1-i, C-1-j) and keep the R×C dimensions |
| Matrices.RotateFourTimes | src/main.ts:39-55 | four rotations give back the original matrix cell for cell |
| Matrices.TransposeCells | src/main.ts:43-47 | transposing neither adds nor loses a cell value (multiset equality) |
| Matrices.ReverseKeepsValues | src/main.ts:51 | reversing a row keeps its multiset of values |
| Matrices.ReverseRowsCells | src/main.ts:50-52 | reversing every row keeps the matrix's multiset of cell values |
| Matrices.RotatePreservesCells | src/main.ts:43-52 | rotation preserves the multiset of cell values |
| Matrices.RotatePreservesNonZeroCount | src/main.ts:43-52 | rotation keeps the number of occupied (non-zero) cells |
| Board.Lookup | src/main.ts:93 | `grid[r]?.[c]` is absent iff the row or column index is outside the grid, negative ones included; otherwise it is that grid cell |
| Board.EmptyGrid | src/main.ts:11-13 | the board is 24 rows of 10 cells, all 0 |
| Board.Shape.Rotated | src/main.ts:34-36 | rotating the piece keeps its anchor and gives it the quarter turn of its matrix |
| Board.Projected | src/main.ts:61-86 | left and right shift the anchor column by -1/+1 and down the anchor row by +1, keeping the matrix; rotate keeps the anchor and quarter-turns the matrix |
| Board.ScanCells | src/main.ts:88-100 | the row-major scan from (row, col), skipping zero cells, returns true iff some occupied cell at or after that point lands on a position that is not free |
| Board.HasCollision | src/main.ts:57-101 | the collision test is true iff the projected piece does not fit: some non-zero projected cell lands on a board position that is absent or not 0 |
| Board.CollisionOnBoard | src/main.ts:88-100 | on a 24×10 board, collision iff some non-zero projected cell has its row outside [0, ROWS), its column outside [0, COLS), or lands on a grid cell that is not 0 |
| Board.TurnKeepsSameOccupancy | src/main.ts:84 | matrices occupied in the same places stay so after rotation |
| Board.OnlyOccupiedCellsCollide | src/main.ts:90 | cells equal to 0 never matter: pieces with the same occupied positions collide alike in every direction |
| Board.CollisionReadsOnlyCoveredCells | src/main.ts:92-96 | the test depends only on board cells under occupied projected cells; boards that agree there give the same answer |
| Board.SideStepsUndo | src/main.ts:65-81 | a left projection followed by a right one, or the reverse, restores the piece |
| Board.FourTurnsUndo | src/main.ts:83-85 | four rotate projections restore the piece, anchor and matrix |
| Input.KeyNamed | src/main.ts:118-133 | exactly the names ArrowUp, ArrowDown, ArrowLeft, ArrowRight and Space select a flag; every other key name selects none |
| Input.WithFlag | src/main.ts:120-132 | setting one flag gives it the new value and leaves the other four unchanged |
| Input.OnKey | src/main.ts:117-155 | a key event sets the named key's flag to the pressed state, leaves every other flag unchanged, and leaves the map as it was for an unrecognised key |
| Input.KeyDown | src/main.ts:117-135 | after key down, a flag is set iff it was set before or belongs to the pressed key |
| Input.KeyUp | src/main.ts:137-155 | after key up, a flag is set iff it was set before and does not belong to the released key |
| Input.ReleaseAfterPress | src/main.ts:117-155 | releasing a key right after pressing it leaves the same map as just releasing it |
| Input.PressIsIdempotent | src/main.ts:117-135 | pressing a key twice is the same as pressing it once |
| Input.EventsOnDifferentKeysCommute | src/main.ts:117-155 | events on keys with different flags can be applied in either order |
| Game.KeyFor | src/main.ts:181-196 | left, right and down are gated by the left, right and down arrow flags and rotate by the up arrow, one to one; no move by the space flag |
| Game.ApplyIsProjection | src/main.ts:181-196 | each move the update performs (column -1/+1, rotate, row +1) is exactly the projection its collision test checked |
| Game.TryMove | src/main.ts:181-196 | a requested, non-colliding move replaces the piece by its projection and clears only its own flag; otherwise piece and flags are untouched |
| Game.UpdateGame | src/main.ts:180-197 | an update keeps the matrix well formed, never sets a flag, and never touches the space flag |
| Game.TryMoveKeepsFit | src/main.ts:181-196 | a guarded step keeps a fitting piece fitting |
| Game.UpdateKeepsFit | src/main.ts:180-197 | safety invariant: a piece on free cells is still on free cells after an update |
| Game.IdleUpdateChangesNothing | src/main.ts:180-197 | with no move flag set, the update leaves piece and flags alone |
| Game.UpdateMovesAtMostOneStep | src/main.ts:180-197 | an update moves the anchor down 0 or 1 rows and sideways by at most one column; the matrix is unchanged or rotated once |
| Game.UpdateClearsExactlyTheMovesMade | src/main.ts:180-197 | each flag ends cleared iff it was set and its move was applied, checked against the state left by the previous steps |
| Game.LeftThenRightReturns | src/main.ts:181-188 | on a fitting piece with left and right both held, a successful left move is followed by a right move back: column unchanged, both flags cleared |
| Game.StartIsIdle | src/main.ts:103-115 | with the starting piece and the all-released key map, an update changes nothing |
| Game.StartShapeTurned | src/main.ts:103-107 | the starting S piece rotates to [[1,0,0],[1,1,0],[0,1,0]] |
| Game.StartBlockedOnTheLeft | src/main.ts:103-107 | at anchor (0, 0) on the empty board, the starting piece cannot move left |
| Game.FirstUpdateFromStart | src/main.ts:180-197 | starting piece, empty board, all four arrows held: left is blocked and keeps its flag; right, rotate and down apply in turn, ending at anchor (1, 1) with the piece rotated |

## Left out

- Rendering (`render`, `clearBoard`, `renderBoard`, `renderShape`, `fillGrid`) and the canvas and context setup: these are drawing-surface output only.
- The `run` loop: it reads `performance.now`, schedules with `requestAnimationFrame` and accumulates a floating-point `lag` against `MS_PER_UPDATE = 1000/60`. Each `updateGame` call is modelled on its own; how many run per frame is not.
- Registering the key listeners with the document. Only the flag update inside each handler is modelled (`Input.KeyDown`, `Input.KeyUp`). Browsers report the space bar's `key` as `" "`, but the handler matches `"Space"`; the model keeps the source's names. Nothing reads the space flag anyway.
- Locking a piece into the grid, row clearing, spawning new pieces, gravity timing and hard drop. A complete falling-block game has them, but `src/main.ts` has none: the grid is never written and `keyMap.space` is never read. So the grid is a parameter that no operation changes.
- `dist/bundle.js` is built from an earlier draft. It has no game logic beyond a logging `updateGame` and the same loop and canvas code. `server.ts` is a static-file HTTP server. Neither is part of this model.
- Matrices.RotatedMatrix: requires a well-formed matrix: at least one row, a non-empty first row, and all rows equally wide. The source reads `matrix[0]` and sizes every row by it, so a piece with no rows throws and a ragged one is ill-defined. A first row of width 0 would rotate to an empty matrix that cannot be rotated again; the model excludes it.
- Board.HasCollision: scans each row only as wide as row 0, as the source does. That equals scanning every cell only because pieces are rectangular, which the precondition guarantees.
- JavaScript numbers are doubles. Anchors and cells are unbounded integers here. The anchor only ever changes by one per step, so no precision is lost at board scale.
