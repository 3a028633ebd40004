# Inverse Dots: the rules engine in Dafny

Inverse Dots is a one-player puzzle on a 7x7 board. Two dots are on the board: the
PLAYER dot and the OPPONENT dot. The player clicks the player dot and then one of
its valid target cells. The player dot moves there, and the opponent dot moves one
step in the opposite direction. The puzzle is solved when both dots share a cell;
the number of the move that brought them together is recorded as the score.

The project models the game's rules without its JavaFX screen:

- `wrappers.dfy` (`Wrappers`): the `IllegalArgumentException` of the Java code as an
  `Err` result, and `OptionalInt` as an `Option`.
- `directions.dfy` (`Directions`): the four `PlayerDirection` constants, their row
  and column deltas, the opposite direction, and the reverse lookup `of` as a
  linear search over `values()`.
- `positions.dfy` (`Positions`): the `Position` record and `moveTo`, which does no
  bounds checking.
- `walls.dfy` (`Walls`): `Wall`, whose constructor accepts only two neighbouring
  cells, and `containsAll`. The stored list has a subset type, so every `Wall`
  value holds two neighbouring cells, as every constructed Java wall does.
- `dots.dfy` (`Dots`): `DotType` and the `Dot` class, whose position is overwritten
  by each move.
- `model.dfy` (`Model`): `GameModel`, a class over its dots.
  - The pure functions `IsOnBoard`, `CanMove`, `WellPlaced` and `ValidMoves` are
    the specification its methods are proved against.
  - The methods cover the start-layout check, `isValidMove`, `getValidMoves` (in
    `EnumSet` ordinal order), the unchecked `move`, `getDotPositions` and
    `getDotNumber`.
- `controller.dfy`, module `Controller`: the selection state machine of
  `GameController`, as a class with the same fields.
  - The fields are the step counter (starting at 1), the selection phase, the
    selectable cells and the selected cell.
  - A click on a selectable cell either selects the player dot or performs the
    coupled move.
  - `endState` runs after each of the two dot moves, as the position listener
    does. The scores it records are returned as a list.
- `controller.dfy`, module `Playthrough`: a four-move solution of the default
  puzzle, driven through `HandleClickOnSquare`.

Where the game's description and the code differ, the model follows the code:

- Walls are never consulted by any move. No `Wall` object is ever built; the game
  screen only paints wall styles on nine cells.
- Only the player dot's move is validated (on the board, not onto a dot). The
  opponent dot's inverse move is never checked.
- The coupling of the two moves lives in the controller, not in `GameModel.move`,
  which moves one dot.

Proving the coupled move showed why the unchecked opponent move never goes
wrong in the shipped game. Each coupled move keeps the row sum and the column sum
of the two dots fixed. The default layout (0,4)/(6,2) has both sums equal to 6, so
the opponent is always the player's reflection through the centre cell (3,3):
- the opponent never leaves the board;
- the dots meet exactly when the player dot reaches (3,3).

## Model

| member | source | states |
|---|---|---|
| Directions.Values | src/main/java/game/model/PlayerDirection.java:8-11 | `values()`: the four constants in declaration order; completeness is `ValuesComplete` |
| Directions.RowChange | src/main/java/game/model/PlayerDirection.java:21-24 | definition of `getRowChange()` from the declared constants; its properties are `UnitDeltas` and `DistinctDeltas` |
| Directions.ColChange | src/main/java/game/model/PlayerDirection.java:26-29 | definition of `getColChange()` from the declared constants; its properties are `UnitDeltas` and `DistinctDeltas` |
| Directions.Opposite | src/main/java/game/model/PlayerDirection.java:8-11 | the opposite direction has both deltas negated and is never the direction itself |
| Directions.ValuesComplete | src/main/java/game/model/PlayerDirection.java:8-11 | every constant occurs in `values()` |
| Directions.UnitDeltas | src/main/java/game/model/PlayerDirection.java:8-11 | every constant moves by one unit along exactly one axis |
| Directions.DistinctDeltas | src/main/java/game/model/PlayerDirection.java:8-11 | distinct constants have distinct delta pairs |
| Directions.OppositeInvolutive | src/main/java/game/model/PlayerDirection.java:8-11 | the opposite of the opposite is the direction itself |
| Directions.OfIn | src/main/java/game/model/PlayerDirection.java:37-44 | the search returns a scanned constant with the requested deltas, and throws exactly when no scanned constant has them |
| Directions.Of | src/main/java/game/model/PlayerDirection.java:37-44 | a constant found by `of` has the requested row and column change |
| Directions.OfDefinedIffUnitStep | src/main/java/game/model/PlayerDirection.java:37-44 | `of` succeeds exactly for the unit steps and throws IllegalArgumentException for every other pair |
| Directions.OfRoundTrip | src/main/java/game/model/PlayerDirection.java:37-44 | `of(getRowChange(d), getColChange(d)) == d` for every constant |
| Directions.OfRejectsExamples | src/main/java/game/model/PlayerDirection.java:46-48 | `of(1, -1)` (the pair the class's `main` looks up) and `of(0, 0)` throw |
| Directions.OfNegatedDeltas | src/main/java/game/GameController.java:159-162 | `of` of the negated deltas of any direction succeeds and yields the opposite direction |
| Positions.MoveTo | src/main/java/game/model/Position.java:12-14 | a move always reaches a cell different from the start and at Manhattan distance 1 from it |
| Positions.MoveToFromOrigin | src/test/java/PositionTest.java:25-30 | from (0,0), UP gives (-1,0), RIGHT (0,1), DOWN (1,0), LEFT (0,-1) |
| Positions.MoveToRoundTrip | src/main/java/game/model/Position.java:12-14 | a move followed by the opposite move returns to the start cell |
| Positions.AdjacentIffOneMove | src/main/java/game/model/Position.java:12-14 | the cells at Manhattan distance 1 are exactly the cells one move away |
| Positions.DifferenceOfMove | src/main/java/game/model/Position.java:12-14 | `of` of the difference between a cell and its moved cell is the direction moved |
| Walls.NewWall | src/main/java/game/model/Wall.java:16-26 | construction succeeds exactly for cells at Manhattan distance 1 (equal, diagonal and distant cells throw), and a constructed wall stores exactly `[pos1, pos2]` |
| Walls.NewWallIffOneStep | src/main/java/game/model/Wall.java:16-26 | construction succeeds exactly when `pos1` is one direction step from `pos2` |
| Walls.NewWallSymmetric | src/main/java/game/model/Wall.java:16-26 | whether construction succeeds does not depend on the order of the two cells |
| Walls.NewWallExamples | src/main/java/game/model/Wall.java:16-26 | (1,2)-(1,3) is accepted; (1,2)-(3,3) and a cell with itself are rejected |
| Walls.ContainsAll | src/main/java/game/model/Wall.java:33-35 | definition of `containsAll` as two membership tests; its meaning on a wall is `ContainsAllOfNewWall` |
| Walls.ContainsAllOfNewWall | src/main/java/game/model/Wall.java:33-35 | on a constructed wall `containsAll(p, q)` holds exactly when both cells are among its two, in either order |
| Dots.Dot.constructor | src/main/java/game/model/Dot.java:20-23 | the new dot has the given type and position |
| Dots.Dot.MoveTo | src/main/java/game/model/Dot.java:29-32 | the new position is the old one moved by the direction, and differs from it |
| Dots.Dot.GetPosition | src/main/java/game/model/Dot.java:44-46 | returns the current position |
| Dots.MoveAndMoveBack | src/main/java/game/model/Dot.java:29-32 | moving a dot and then moving it the opposite way restores its position |
| Model.IsOnBoard | src/main/java/game/model/GameModel.java:80-83 | definition of `isOnBoard` with `BOARD_SIZE` 7; the test cases are `IsOnBoardCases` |
| Model.CanMove | src/main/java/game/model/GameModel.java:50-64 | the reference answer of `isValidMove`: target on the board and not any dot's cell; `GameModel.IsValidMove` is proved against it |
| Model.ValidMoves | src/main/java/game/model/GameModel.java:66-74 | the reference result of `getValidMoves` in ordinal order; `ValidMovesExactly` states its content and `GameModel.GetValidMoves` is proved against it |
| Model.ValidMovesIn | src/main/java/game/model/GameModel.java:66-74 | the filtered directions are exactly the scanned ones that are valid moves, without repetitions, at most as many as scanned |
| Model.ValidMovesExactly | src/main/java/game/model/GameModel.java:66-74 | the valid moves of a dot are exactly the directions `isValidMove` accepts, each once, at most four |
| Model.ValidMovesAppend | src/main/java/game/model/GameModel.java:66-74 | scanning one more direction appends it exactly when it is valid |
| Model.ValidMoveKeepsWellPlaced | src/main/java/game/model/GameModel.java:50-64 | a valid move keeps every dot on the board and no two dots on one cell |
| Model.IsOnBoardCases | src/test/java/GameModelTest.java:33-40 | (0,0) and (6,6) are on the board; (-1,1), (-2,-5), (7,7) and (6,7) are not |
| Model.DefaultValidMoves | src/test/java/GameModelTest.java:55-59 | in the default layout the player dot may go RIGHT, DOWN and LEFT but not UP |
| Model.GameModel.Default | src/main/java/game/model/GameModel.java:14-17 | two fresh distinct dots: PLAYER at (0,4) and OPPONENT at (6,2), a well-placed layout |
| Model.GameModel.FromChecked | src/main/java/game/model/GameModel.java:19-22 | after a passed check the model keeps the given dots, which are distinct objects |
| Model.GameModel.New | src/main/java/game/model/GameModel.java:19-22 | construction succeeds exactly when every dot is on the board and no two share a cell, and then keeps the given dots |
| Model.GameModel.CheckDots | src/main/java/game/model/GameModel.java:24-32 | the scan with a seen-set accepts exactly the well-placed layouts |
| Model.GameModel.GetDotPosition | src/main/java/game/model/GameModel.java:42-44 | returns the position of dot `i` |
| Model.GameModel.IsValidMove | src/main/java/game/model/GameModel.java:50-64 | throws exactly for an index out of range; otherwise true exactly when the target is on the board and no dot occupies it |
| Model.GameModel.GetValidMoves | src/main/java/game/model/GameModel.java:66-74 | throws exactly for an index out of range; otherwise the valid moves of the dot in ordinal order |
| Model.GameModel.Move | src/main/java/game/model/GameModel.java:76-78 | dot `i` is moved by the direction unchecked, and no other dot's position changes |
| Model.GameModel.GetDotPositions | src/main/java/game/model/GameModel.java:85-91 | the positions of all dots in index order |
| Model.GameModel.GetDotNumber | src/main/java/game/model/GameModel.java:93-100 | the least index of a dot on the cell, or empty exactly when no dot is there |
| Controller.SelectionPhase.Alter | src/main/java/game/GameController.java:38-43 | `alter()` returns the other phase |
| Controller.AlterInvolutive | src/main/java/game/GameController.java:38-43 | alternating twice returns the phase |
| Controller.SelectableFor | src/main/java/game/GameController.java:222-236 | the reference selectable cells of each phase; `GameController.SetSelectablePositions` is proved against it and `ClickedTargetDirection` states what its SELECT_TO cells are |
| Controller.CoupledMoveInvariants | src/main/java/game/GameController.java:156-165 | the two displacements cancel; the coordinate sum is preserved; the dots meet exactly when the opponent was two steps of the direction away |
| Controller.Mirror | src/main/java/game/GameController.java:159-165 | where the opponent dot lands: its cell displaced by the player's move negated; `MirrorIsOppositeMove` ties it to the inverse-direction move |
| Controller.MirrorIsOppositeMove | src/main/java/game/GameController.java:159-165 | the opponent's move by the inverse direction is the player's displacement negated |
| Controller.PlayerLegNeverWins | src/main/java/game/GameController.java:164-165 | the player dot's valid move never lands on the opponent, so the first `endState` after a click never records |
| Controller.MirrorKeepsReflection | src/main/java/game/GameController.java:164-165 | if the opponent is the player's reflection through the centre, it still is after any coupled move |
| Controller.ReflectionOnBoard | src/main/java/game/model/GameModel.java:14-17 | the reflection of an on-board cell is on the board; a cell is its own reflection exactly at (3,3); the default layout is a reflected pair |
| Controller.ClickedTargetDirection | src/main/java/game/GameController.java:156-162 | for a selectable target, `of` of the difference succeeds with a valid move of dot 0 reaching the target, and `of` of its negated deltas gives the opposite direction |
| Controller.GameController.constructor | src/main/java/game/GameController.java:46-54 | the default layout, step 1, phase SELECT_FROM with only (0,4) selectable, the reflected layout |
| Controller.GameController.SetSelectablePositions | src/main/java/game/GameController.java:222-236 | the player dot's cell in SELECT_FROM; the valid targets from the selection in SELECT_TO |
| Controller.GameController.AlterSelectionPhase | src/main/java/game/GameController.java:179-184 | the phase flips and the selectable cells are recomputed for it |
| Controller.GameController.SelectPosition | src/main/java/game/GameController.java:190-193 | the cell becomes the selection |
| Controller.GameController.DeselectSelectedPosition | src/main/java/game/GameController.java:206-209 | the selection is cleared |
| Controller.GameController.EndState | src/main/java/game/GameController.java:290-300 | a score is recorded exactly when both dots share a cell, and it is the current step count |
| Controller.GameController.HandleClickOnSquare | src/main/java/game/GameController.java:146-174 | an unselectable click changes nothing; in SELECT_FROM the player dot is selected; in SELECT_TO the player dot moves to the cell, the opponent by the mirrored displacement, the phase resets and the step count rises by one; a score is recorded exactly when the dots meet; the player stays on the board and a reflected layout stays reflected |
| Controller.GameController.MoveDots | src/main/java/game/GameController.java:156-165 | the coupled move of the SELECT_TO arm, with `endState` after each dot move: only the second can record, and only when the dots meet |
| Playthrough.PlanFollowsRules | src/main/java/game/GameController.java:146-174 | each move of the four-move plan is valid for the player dot, the routes follow the coupled rule, and the dots meet only after the last move |
| Playthrough.PlayPlannedMove | src/main/java/game/GameController.java:146-174 | two clicks carry out one move of the plan: the dots reach the next cells of their routes and the step count rises by one |
| Playthrough.SolveDefaultPuzzle | src/main/java/game/GameController.java:146-174 | from the default game, eight clicks bring both dots to (3,3); the score recorded is 4 and the step counter reads 5 |

## Left out

- The JavaFX screen is not modelled: board squares, CSS classes for selected, selectable and wall cells, circles, and mouse-event decoding. This includes `getSquare`, whose AssertionError for off-board cells never fires in the default game, because the opponent stays on the board.
- The leaderboard is not modelled: reading `scores.json`, writing `target/scores2.json`, the player's name from the start screen, and the `Score` class. These are file I/O. `EndState` returns the step count the screen would record.
- JavaFX position properties and listeners are not modelled as objects. The listener's effect (running `endState` after each dot move) is inlined into `MoveDots`. `positionProperty` is left out.
- Logging, `System.out`, `toString` and the `main` methods are left out. They only produce output.
- `getDotCount` is left out. It is the length of `dots`.
- `getDotType` is left out. It calls a `getType()` that `Dot` does not declare; the dot's type is the field `dotType`.
- `Direction` is modelled only through `PlayerDirection`, its one implementation in the core.
- Java `int` overflow is not modelled. Coordinates are unbounded integers; the game only uses cells within a few steps of the board.
- Model.GameModel.Move: an index out of range, which throws ArrayIndexOutOfBoundsException in Java, is a precondition here. The same holds for Model.GameModel.GetDotPosition.
- Model.GameModel.New: the shallow `clone()` of the argument array is not a separate sequence object, because no slot of the array is ever reassigned. The dots themselves are shared with the caller, as in Java.
- Controller.GameController.HandleClickOnSquare: a click while the selection is null in SELECT_TO cannot happen, because `Valid` ties the selection to the phase.
- Controller.GameController.MoveDots: this is the body of the SELECT_TO arm, split out as a method of its own.
