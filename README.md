# Two Snakes, modelled in Dafny

Two Snakes is a two-player console snake game. Two snakes share one walled
grid. Each tick, snake 1 and then snake 2 looks at the cell ahead of its head:
- a wall or any snake cell is a collision, which costs the snake 25 power and
  150 points (a positive score is clamped at 0);
- food is eaten, which grows the snake by one segment, adds 100 points and
  places new food, and the snake then moves one cell further without looking
  at that cell;
- otherwise the snake moves one cell.

The game is over once either power reaches 0. Whoever has the higher score
wins.

This project models the game-state core of `snake03/Two_Snakes.cpp` in four
modules:

- `Board` (`board.dfy`): the cell types and grid positions, and the `Map`
  class. `Map` holds the grid (`seq<seq<Cell>>`, reassigned in place) and the
  stored food position. Its constructor builds the grid with the same
  row-by-row loops as the source. It also has `SetMapPointTo`, `CreateFood`
  and `DeleteFood`.
- `Snakes` (`snakes.dfy`): directions, the one-step position computation, and
  the `Snake` class. `Snake` holds the body (head first), the direction, the
  score, and the head and tail cell types. It has `Grow`, `Move` (with its
  repaint loop in `PaintBody`) and the score setters. Functions `Repaint` and
  `PaintTail` state what `Move` does to the grid.
- `Rules` (`rules.dfy`): the same game on values. A `World` holds the grid,
  the food, both snakes, both powers and the game-over flag.
  - `Look` is `willCollide` (with `Feed` for `eatFood`), `Step` is `move`, and
    `Resolve` is one snake's `willCollide` followed by `move`.
  - `Turn` is one snake's half of `moveSnake`; `Tick` is all of `moveSnake`.
  - `KeyPress` is `processKeyboardInput`, `NewGame` is the `Game` constructor,
    and `Winner` is the end-screen comparison.
  - The lemmas here carry the game's properties.
- `TwoSnakes` (`game.dfy`): the `Game` class. Each of its methods is proved
  to change the object exactly as the matching `Rules` function changes a
  `World`. So every `Rules` lemma about `Tick`, `KeyPress` or `NewGame` holds
  of the object.

Points where the code's behaviour is easy to misread, and which the model
follows:

- `Position(row, col)` stores the column in `x` and the row in `y`.
  - `createFood` calls it with (column, row), so the stored food position
    holds the row in `x` and the column in `y`.
  - `deleteFood` indexes the grid as `[food.x][food.y]`, which is the same
    cell `createFood` wrote. `Rules.FoodAheadIsStored` proves that the food
    a snake meets is the stored one.
- After eating, `willCollide` reports no collision, so `moveSnake` also calls
  `move`. The snake's head ends two cells ahead, and its length grows by
  exactly one (`Rules.ResolveEat`).
  - That second step is never checked. The snake can move onto its own body
    or onto the other snake, and it pays no power or points for it. It never
    reaches a wall, because food lies at least two cells from the border.
  - `Rules.EatRunsOver` shows one case on a 10 × 10 map. Snake 1 is at row
    3, column 3, heading right, with food at column 4. Snake 2 is at column 5.
    After snake 1's turn, both heads are on the same cell and snake 1 keeps
    its 200 power.
- The `Game` constructor paints neither snake on the grid. A snake's cells
  appear only after its first `move`. So in the first tick, the other
  snake's start cell does not block (`Rules.NewGameSound`).
- `deleteFood` always writes the cell type of snake 1's head, even when
  snake 2 eats. The following `move` always repaints that cell with the
  eater's tail type (`Rules.EatenFoodCell`).
- New food is not checked against the snakes. When it is drawn under the
  snake that just ate, the repaint hides it. At most one cell ever shows food
  (`FoodOnlyAt` in `Rules.Sound`), but it may be none (`Rules.EatenFoodCell`).
- Nothing in the source bounds-checks the grid.
  - The model's preconditions state what keeps every access on the grid. The
    board must be at least 5 × 5 for `createFood`, which takes
    `% (cols - 4)`; each snake's segments must lie inside the walls; and the
    start cells must lie inside.
  - A tick keeps all of this (`Rules.TickKeeps`). Only the debug key `b` can
    push snake 1 into or through the wall; it grows the snake without any
    check.

## Model

| member | source | states |
|---|---|---|
| Board.Write | snake03/Two_Snakes.cpp:173-176 | writing one cell keeps the grid's shape, sets that cell, and leaves every other cell as it was |
| Board.FoodPos | snake03/Two_Snakes.cpp:177-184 | the stored food position has its row in [2, rows-3] and its column in [2, cols-3], given by the draws modulo cols-4 and rows-4, plus 2 |
| Board.CreateFoodExactlyOne | snake03/Two_Snakes.cpp:177-184 | placing food on a grid with no food leaves exactly one food cell, the stored one, and it is not a border cell |
| Board.InitialGridShape | snake03/Two_Snakes.cpp:128-160 | the new grid has rows × cols cells, every border cell is a wall, every other cell is empty, and no cell holds food |
| Board.Map.constructor | snake03/Two_Snakes.cpp:128-160 | the row-by-row loops build exactly the walled grid, and the food position starts at (3, 3) |
| Board.Map.SetMapPointTo | snake03/Two_Snakes.cpp:173-176 | one cell is overwritten and nothing else changes |
| Board.Map.CreateFood | snake03/Two_Snakes.cpp:177-184 | the stored food becomes FoodPos of the draws, and exactly that cell (row = stored x, column = stored y) becomes food |
| Board.Map.DeleteFood | snake03/Two_Snakes.cpp:185-188 | the cell at row = stored x, column = stored y becomes Snake, and nothing else changes |
| Board.Position | snake03/Two_Snakes.cpp:50-58 | no contract of its own: a position built from (row, column) holds the column in x and the row in y; Snakes.Ahead and Rules.FoodAheadIsStored state what depends on it |
| Snakes.Ahead | snake03/Two_Snakes.cpp:289-317 | the next position is one step from the current one: right and left keep the row and change the column by +1 and -1; up and down keep the column and change the row by -1 and +1 |
| Snakes.AheadOnGrid | snake03/Two_Snakes.cpp:289-317 | from a cell inside the walls, the cell ahead exists on the grid |
| Snakes.PaintTail | snake03/Two_Snakes.cpp:333-338 | painting the segments after the head keeps the grid's shape |
| Snakes.Repaint | snake03/Two_Snakes.cpp:319-338 | emptying the dropped cell and painting head and body keeps the grid's shape |
| Snakes.PaintTailAt | snake03/Two_Snakes.cpp:333-338 | after the repaint loop, a cell shows the tail type exactly when some later segment lies on it; every other cell is unchanged |
| Snakes.RepaintAt | snake03/Two_Snakes.cpp:319-338 | after a move, a cell shows the tail type if a later segment lies on it, else the head type if the head does, else empty if it was the dropped tail cell, and otherwise is unchanged |
| Snakes.RepaintDistinct | snake03/Two_Snakes.cpp:319-338 | for a snake whose cells are distinct, the head cell holds the head type, every other segment holds the tail type, the dropped cell is empty, and no other cell changes |
| Snakes.RepaintKeeps | snake03/Two_Snakes.cpp:319-338 | a move inside the walls keeps the grid's shape, keeps every border cell a wall, and creates no food |
| Snakes.Snake.constructor | snake03/Two_Snakes.cpp:199-207 | a new snake is one segment at (row, col) with the given direction, score 0, and the given head and tail types |
| Snakes.Snake.SetDirection | snake03/Two_Snakes.cpp:242-245 | the direction becomes the given one |
| Snakes.Snake.SetScore | snake03/Two_Snakes.cpp:222-225 | the score becomes the given value |
| Snakes.Snake.IncScore | snake03/Two_Snakes.cpp:226-229 | the score rises by the given amount |
| Snakes.Snake.DecScore | snake03/Two_Snakes.cpp:230-233 | the score falls by the given amount |
| Snakes.Snake.Grow | snake03/Two_Snakes.cpp:246-288 | a new head one step ahead is pushed in front; the length rises by exactly one, the old segments follow in order, and the map is not touched |
| Snakes.Snake.Move | snake03/Two_Snakes.cpp:289-340 | the body becomes the new head followed by the old body without its last segment, with the same length; the grid becomes Repaint of the old grid |
| Snakes.Snake.PaintBody | snake03/Two_Snakes.cpp:333-338 | the loop paints the tail type on every segment after the head, in order |
| Rules.Look | snake03/Two_Snakes.cpp:438-505 | no contract of its own: willCollide on values, whose properties Rules.LookCollides, Rules.LookKeeps and Rules.FoodAheadIsStored state |
| Rules.Feed | snake03/Two_Snakes.cpp:506-512 | no contract of its own: eatFood on values, whose properties Rules.FeedPlacesOneFood and Rules.EatenFoodCell state |
| Rules.Step | snake03/Two_Snakes.cpp:289-340 | no contract of its own: move on values, whose properties Rules.StepKeeps and Rules.TurnMove state, with Snakes.RepaintAt for the cells |
| Rules.Resolve | snake03/Two_Snakes.cpp:413-417 | no contract of its own: willCollide then move, whose properties Rules.ResolveStages and Rules.ResolveEat state |
| Rules.Punish | snake03/Two_Snakes.cpp:418-424 | no contract of its own: the collision branch on values, whose properties Rules.TurnCollision states |
| Rules.Turn | snake03/Two_Snakes.cpp:411-437 | no contract of its own: one snake's half of moveSnake, whose properties Rules.TurnSound, Rules.TurnCollision, Rules.TurnMove and Rules.TurnEat state |
| Rules.Tick | snake03/Two_Snakes.cpp:411-437 | no contract of its own: all of moveSnake, whose properties Rules.TickKeeps states |
| Rules.Run | snake03/Two_Snakes.cpp:596-601 | no contract of its own: the main loop's ticks, whose properties Rules.RunKeeps states |
| Rules.LookCollides | snake03/Two_Snakes.cpp:438-505 | willCollide reports a collision exactly when the cell ahead is neither empty nor food; unless that cell is food, the map, the food and the snake are unchanged |
| Rules.LookKeeps | snake03/Two_Snakes.cpp:438-505 | willCollide keeps the walls, the food spot, at most one food cell, and the snake's segments inside the walls; when it reports no collision, the cell ahead of the (possibly grown) snake lies inside the walls |
| Rules.StepKeeps | snake03/Two_Snakes.cpp:289-340 | a move onto an interior cell keeps the walls, at most one food cell (the stored one), and every segment inside the walls |
| Rules.ResolveStages | snake03/Two_Snakes.cpp:413-417 | one snake's part of moveSnake is willCollide, followed by move when no collision is reported; the map accesses of move stay on the grid |
| Rules.FoodAheadIsStored | snake03/Two_Snakes.cpp:177-188 | the food cell a snake meets is the stored food, read with the stored x as the row and the stored y as the column |
| Rules.FeedPlacesOneFood | snake03/Two_Snakes.cpp:506-512 | eatFood adds exactly 100 points and one segment in front of the old body; the old food cell shows Snake unless the new food landed on it again; exactly one cell, the new stored one, holds food |
| Rules.Penalized | snake03/Two_Snakes.cpp:422 | a non-negative score becomes score-150 when that is at least 0, and 0 otherwise, so it stays non-negative |
| Rules.SoundFits | snake03/Two_Snakes.cpp:411-437 | in a sound game, each snake with the map meets what willCollide and move need |
| Rules.TurnSound | snake03/Two_Snakes.cpp:411-437 | one snake's half of moveSnake keeps the game sound: walls, at most one food cell, non-negative scores, and the game-over flag set exactly when a power is at most 0; both snakes stay inside the walls |
| Rules.TurnCollision | snake03/Two_Snakes.cpp:418-424 | on a collision the snake and the map stay, that power drops by exactly 25, the score is penalised, the other snake is untouched, and the game is over exactly when it already was or that power is at most 0 |
| Rules.TurnMove | snake03/Two_Snakes.cpp:413-417 | onto an empty cell, the snake moves one step at the same length, keeping its score, power and the food; the other snake is untouched; the map becomes Repaint of the old map, emptying the dropped tail cell |
| Rules.ResolveEat | snake03/Two_Snakes.cpp:438-512 | onto food, the snake grows and then moves: its head ends two cells ahead, its length rises by exactly one, its score by exactly 100, and the new food is FoodPos of the draws |
| Rules.EatenFoodCell | snake03/Two_Snakes.cpp:506-512 | after eating, the eaten cell shows the eater's tail type, and the new food cell shows food exactly when neither the moved snake nor its emptied tail cell lies on it |
| Rules.TurnEat | snake03/Two_Snakes.cpp:411-417 | in the game, eating also keeps that snake's power, the game-over flag and the other snake |
| Rules.TickKeeps | snake03/Two_Snakes.cpp:411-437 | a whole tick keeps the game sound and both snakes inside the walls; each power stays or drops by exactly 25; a game once over stays over |
| Rules.RunKeeps | snake03/Two_Snakes.cpp:596-601 | over any number of ticks, the border stays walled, scores stay non-negative, powers never rise, and a game once over stays over |
| Rules.NewGameSound | snake03/Two_Snakes.cpp:354-365 | a new game is sound, not over, both snakes start inside the walls, and exactly one cell holds food; neither start cell is painted with a snake |
| Rules.NewGame | snake03/Two_Snakes.cpp:354-365 | no contract of its own: the start of a game, whose properties Rules.NewGameSound states |
| Rules.EatRunsOver | snake03/Two_Snakes.cpp:413-417 | after eating, the step onto the next cell is not checked: from a sound start, snake 1's head lands on snake 2's head, with no collision and its power unchanged |
| Rules.KeyPress | snake03/Two_Snakes.cpp:513-524 | a key changes only directions, except b, which grows snake 1 by one segment in front; the map, powers, scores and the flag stay, and any other key changes nothing |
| Rules.KeyPressKeeps | snake03/Two_Snakes.cpp:513-524 | every key keeps the game sound; every key except b keeps both snakes inside the walls, and b does too when the cell ahead of snake 1 is inside the walls |
| Rules.Winner | snake03/Two_Snakes.cpp:550-557 | player 1 wins exactly when their score is higher, player 2 exactly when theirs is, and nobody exactly when the scores are equal |
| Rules.WinnerSwap | snake03/Two_Snakes.cpp:550-557 | swapping the scores swaps the winner |
| TwoSnakes.Game.constructor | snake03/Two_Snakes.cpp:354-365 | the new game equals NewGame: a walled map with one food cell, snake 1 at (6, 6) heading right, snake 2 at (6, cols-6) heading left, both powers 200, not over |
| TwoSnakes.Game.NotOver | snake03/Two_Snakes.cpp:370-373 | the game goes on exactly while both powers are positive |
| TwoSnakes.Game.WillCollide | snake03/Two_Snakes.cpp:438-505 | the map, the food, the snake and the result equal Look of the old ones |
| TwoSnakes.Game.EatFood | snake03/Two_Snakes.cpp:506-512 | the map, the food and the snake equal Feed of the old ones |
| TwoSnakes.Game.Advance | snake03/Two_Snakes.cpp:414-417 | willCollide followed by move leaves the map, the food and the snake equal to Resolve of the old ones |
| TwoSnakes.Game.Penalize | snake03/Two_Snakes.cpp:418-424 | the collision branch leaves the game equal to Punish of the old one: that power -25, the score penalised, over once that power is at most 0 |
| TwoSnakes.Game.AdvancePlayer | snake03/Two_Snakes.cpp:414-417 | resolving snake 1 or snake 2 puts the Resolve outcome into the game and changes nothing else |
| TwoSnakes.Game.TakeTurn | snake03/Two_Snakes.cpp:413-424 | one snake's half of moveSnake leaves the game equal to Turn of the old one |
| TwoSnakes.Game.MoveSnake | snake03/Two_Snakes.cpp:411-437 | the game after moveSnake equals Tick of the game before, and stays sound with both snakes inside |
| TwoSnakes.Game.ProcessKeyboardInput | snake03/Two_Snakes.cpp:513-524 | the game after a key equals KeyPress of the game before, and stays sound |
| TwoSnakes.Game.EndVerdict | snake03/Two_Snakes.cpp:550-557 | the end screen's verdict is Winner of the two scores |

## Left out

- Terminal I/O is not modelled. This covers the debugger-attach workaround
  (`pselect`, terminal probing), `main`'s ncurses loop, `drawMap`, the start
  and end screens' drawing, and the bell. The end screen is reduced to its
  score comparison.
- The clock (`startClock`, `clock_t`) is not modelled; nothing in the game
  state depends on it.
- The C library's `rand()` is a parameter: each call of `createFood` takes a
  `Draw` of two natural numbers.
- The `Food` and `Cell` wrapper classes are not separate entities. `Food` is
  modelled as the stored position, and `Cell` is never used by the game. The
  default constructors `Map()` and `Snake()` are never used either.
- The field `size` of a snake is written but never read, so it is omitted.
  `Game`'s `_rows` and `_cols` only place text on the screen and are omitted.
- `Map`'s `cellsymbols` string is never read and is omitted.
- Board.Map.constructor: requires rows and cols to be at least 2. Below that,
  the source's loops build a grid that is not rows × cols.
- TwoSnakes.Game.constructor: requires rows and cols to be at least 8.
  Otherwise a start cell is not inside the walls, and for 4 or fewer the
  first `createFood` divides by zero or by a negative number. The game
  itself uses 20 × 70.
- TwoSnakes.Game.MoveSnake: requires every segment of both snakes to lie
  inside the walls. The source reads the grid without bounds checks. Only
  the debug key `b` can break this: it grows snake 1 with no check. The model
  states which keys keep it (`Rules.KeyPressKeeps`).
- Rules.RunKeeps: runs ticks only. Key presses between ticks are covered one
  at a time by `Rules.KeyPressKeeps`, and by it alone.
- C++ `int` overflow of scores and powers is not modelled; integers are
  unbounded.
- Rendering the grid to characters is not modelled.
