# Snake game engine, modelled in Dafny

A model of the engine of a grid Snake game written in TypeScript and React: a snake
travels across an N x N board, eats food to grow and score, and the session ends when
the snake hits itself, leaves the board, or fills the board (a win). The model covers
the engine classes (`Snake`, `Food`, `Scoreboard`, `Game`), the `randInt` helper, and
the game logic of the React component: the arrow-key filter, the overlay button's
handlers, and the status decision after each run of the game loop.

Each source file is one module:

- `Geometry` (geometry.dfy): cells, the four directions, unit steps, the board and its size.
- `RandomRange` (randint.dfy): `randInt`, with the uniform draw replaced by an offset `k`.
- `SnakeBody` (snake.dfy): the snake as a value (`SnakeState` with `Moved` and `Grown`)
  and the class `Snake`, whose methods update the fields in place and are proved against
  those functions.
- `FoodSpawner` (food.dfy): the class `Food`.
- `ScoreTracker` (scoreboard.dfy): the storage (`Store`), the score as a value
  (`ScoreState`, `Incremented`) and the class `Scoreboard`.
- `GameEngine` (game.dfy): the engine as a value (`GameState`, `Tick`, `Initial`), the
  invariant `ValidGame`, the respawn loop and the class `Game`.
- `SnakeGameComponent` (snakegame.dfy): the key filter, the post-tick status, the button
  handlers, and the component as a whole (`Dispatch`, `Run`) with the states it can reach.
- `Wrappers` (wrappers.dfy): `Option`.

Randomness is passed in. A snake spawn is a `Spawn` of three `randInt` offsets. Food
placement reads a finite sequence of `Draw`s standing for the random stream. The
do-while of `respawnFood` stops at the first draw that the snake does not occupy. The
precondition `RandomStream` says every draw is one `randInt(0, N-1)` can make and every
board cell turns up in the sequence. This is what makes the loop finish: a uniform stream
has that property with probability one.

Facts the proofs bring out about the code:

- As written, `move` breaks the occupancy set, which is meant to mirror the body.
  `grow` appends a duplicate of the last segment. The next `move` pops one copy and
  deletes the cell's key, although the other copy still covers the cell
  (`SetMayMissBodyCell`). Once the head passes over that cell, the set lacks a cell in
  the middle of the body. Two things follow:
  - A head entering that segment is not flagged as a collision
    (`AsWrittenMissesCollision`, a nine-tick trace on a 5 x 5 board).
  - `respawnFood` can put the food on the snake (`AsWrittenFoodOnBody`).

  This is logged under "## Findings". `MovedAsWritten` models the code as written. The
  rest of the model uses the corrected `Moved`: it drops the popped cell from the set
  only when no remaining segment covers it. That keeps the set equal to the body's
  cells (`ValidBody`). Under the corrected move, the food is never on the snake while
  the game is being played.
- The tail is popped before the collision test. As written, stepping onto the last
  segment's cell is therefore never a collision (`AsWrittenTailFollowNeverCollides`).
  The corrected move keeps that exemption, even right after a growth, when a second
  copy of the tail still covers the cell (`FollowingTheTailIsSafe`). A one-segment
  snake can never collide.
- A snake that has collided is in a lost game. If it is ticked again, it goes on moving
  and may put its head on the food; the invariant allows for that.
- The key filter compares the key with the stored direction, not with the direction of
  the last move. Two presses between ticks can therefore reverse the snake
  (`TwoPressesCanReverse`).
- `getHead` returns the internal head object rather than a copy. Cells are values here,
  so the difference cannot be observed.

## Model

| member | source | states |
|---|---|---|
| `Geometry.Step` | src/models/Snake.tsx:55-60 | the new head is one unit away: right x+1, left x-1, up y-1, down y+1 |
| `Geometry.Opposite` | src/components/SnakeGame.tsx:147-150 | the reverse pairs the key filter tests (up/down, left/right); never the same direction |
| `Geometry.FreeCellExists` | src/models/Game.tsx:103-109 | fewer than N*N occupied cells leave a free board cell for the respawn loop to find |
| `RandomRange.RandInt` | src/utils/randInt.ts:14-20 | after the bound swap, the result lies in the inclusive range between the two bounds |
| `RandomRange.CanReturnIffInRange` | src/utils/randInt.ts:6-19 | the possible results are exactly the integers of [lo, hi] |
| `RandomRange.ReversedBoundsAreSwapped` | src/utils/randInt.ts:15-17 | with min > max, a draw gives what it gives for the swapped bounds |
| `RandomRange.ArgumentOrderIrrelevant` | src/utils/randInt.ts:10-11 | randInt(a, b) and randInt(b, a) have the same possible results |
| `RandomRange.SingletonRange` | src/utils/randInt.ts:19 | randInt(a, a) always returns a |
| `SnakeBody.Init` | src/models/Snake.tsx:23-28 | a new snake satisfies the body invariant |
| `SnakeBody.Moved` | src/models/Snake.tsx:50-75 | corrected move (see Findings; the tail's cell stays exempt from the test): keeps the mirror invariant (set = body cells) and the direction, keeps a raised flag, never lengthens the body, adds at most the new head to the set, and without a hit keeps the length and puts the head one step ahead |
| `SnakeBody.Popped` | src/models/Snake.tsx:63-64 | corrected pop: under the mirror invariant the set after the pop is exactly the cells of the remaining segments |
| `SnakeBody.MovedAsWritten` | src/models/Snake.tsx:50-75 | the move as written (the popped cell's key is always deleted) keeps only the weaker invariant: the set holds body cells but may miss some |
| `SnakeBody.Grown` | src/models/Snake.tsx:82-87 | growth keeps the mirror invariant, and the weaker set-within-body invariant of the move as written |
| `SnakeBody.CellsSize` | src/models/Snake.tsx:63-86 | the set never holds more cells than there are segments |
| `SnakeBody.InitShape` | src/models/Snake.tsx:23-28 | body [start], occupies exactly start, flag false, direction as given |
| `SnakeBody.MoveCollidesIff` | src/models/Snake.tsx:62-70 | the flag is raised exactly when the new head enters a cell covered by a segment other than the vacating tail and is not the tail's own cell (or was already raised) |
| `SnakeBody.MoveWithoutHit` | src/models/Snake.tsx:50-75 | without a hit: head one unit ahead, rest = old body minus its last segment, same length, set = cells of that rest plus the head |
| `SnakeBody.MoveWithHit` | src/models/Snake.tsx:62-70 | on a hit: flag set, body = old body minus its last segment, set = its cells, no head added |
| `SnakeBody.FollowingTheTailIsSafe` | src/models/Snake.tsx:62-67 | moving onto the last segment's cell is never a collision, even when a growth left a second copy there; the head enters that cell |
| `SnakeBody.AsWrittenTailFollowNeverCollides` | src/models/Snake.tsx:62-67 | as written, moving onto the last segment's cell is never a collision, and the head enters that cell |
| `SnakeBody.SingleSegmentNeverCollides` | src/models/Snake.tsx:50-75 | a one-segment snake cannot collide and stays one segment long |
| `SnakeBody.GrowShape` | src/models/Snake.tsx:82-87 | length + 1, earlier segments unchanged, new last segment = old last segment, set, flag and direction unchanged |
| `SnakeBody.CollisionIsSticky` | src/models/Snake.tsx:62-70 | once raised, the flag survives moves, growth and turns |
| `SnakeBody.SetMayMissBodyCell` | src/models/Snake.tsx:63-86 | after grow then move, the move as written leaves a body cell out of the set; the corrected move keeps it |
| `SnakeBody.AsWrittenMissesCollision` | src/models/Snake.tsx:62-70 | a nine-tick trace from one segment at (2, 2), with turns the key filter allows, in which the move as written lets the head enter the fourth segment (not the tail) without raising the flag |
| `SnakeBody.CorrectedMoveFlagsTrace` | src/models/Snake.tsx:62-70 | on the same trace the corrected move still lets tick 5 follow the just-grown tail, and flags the final step up from the body of that state with its full set |
| `SnakeBody.LoopCollides` | src/models/Snake.tsx:62-70 | a looped five-segment snake turning onto its own fourth segment collides and gains no head |
| `SnakeBody.StraightMove` | src/models/Snake.tsx:50-75 | a straight snake cannot hit itself; one move advances its head one unit and keeps it straight |
| `SnakeBody.StraightMovesHead` | src/models/Snake.tsx:50-75 | after k moves a straight snake is still straight and whole, with its head k units ahead |
| `SnakeBody.StraightMovesTranslate` | src/models/Snake.tsx:50-75 | k moves of a straight snake move every segment k units along its direction, keep the length and raise no flag |
| `SnakeBody.Snake.constructor` | src/models/Snake.tsx:23-28 | the fields are those of `Init(start, direction)` |
| `SnakeBody.Snake.Occupies` | src/models/Snake.tsx:41-43 | true exactly for cells in the set; under the invariant, exactly for cells a segment covers |
| `SnakeBody.Snake.Move` | src/models/Snake.tsx:50-75 | the new fields are the corrected `Moved` of the old ones (pop, delete the key unless the cell is still covered, test with the tail's cell exempt, unshift, add) and the invariant holds |
| `SnakeBody.Snake.Grow` | src/models/Snake.tsx:82-87 | the new fields are `Grown` of the old ones and the invariant holds |
| `SnakeBody.Snake.SetDirection` | src/models/Snake.tsx:93-95 | only the direction changes, with no validation |
| `SnakeBody.Snake.GetDirection` | src/models/Snake.tsx:101-103 | returns the current direction |
| `SnakeBody.Snake.GetHead` | src/models/Snake.tsx:109-111 | returns the first segment |
| `SnakeBody.Snake.IsSelfCollision` | src/models/Snake.tsx:117-119 | returns the collision flag |
| `SnakeBody.Snake.GetBody` | src/models/Snake.tsx:125-127 | returns the segments head first, as a value |
| `SnakeBody.Snake.GetBodyLength` | src/models/Snake.tsx:133-135 | returns the number of segments, at least 1 under the invariant |
| `FoodSpawner.Food.constructor` | src/models/Food.tsx:17-19 | a new food item is at (10, 10) |
| `FoodSpawner.Food.GetLocation` | src/models/Food.tsx:29-31 | returns the location as a value and reads only |
| `FoodSpawner.Food.SetLocation` | src/models/Food.tsx:41-43 | the location becomes the argument, so GetLocation returns it; nothing else exists to change |
| `ScoreTracker.Store.constructor` | src/models/Scoreboard.tsx:27 | the storage holds the given items (stands for `localStorage`) |
| `ScoreTracker.LoadHighScore` | src/models/Scoreboard.tsx:27 | no contract; see `ScoreTracker.Fresh` and `ScoreTracker.FreshIsSynced` |
| `ScoreTracker.Incremented` | src/models/Scoreboard.tsx:46-53 | no contract; see `ScoreTracker.IncrementFacts`, `ScoreTracker.IncrementKeepsSynced`, `ScoreTracker.HighScoreNeverDrops` |
| `ScoreTracker.Fresh` | src/models/Scoreboard.tsx:25-28 | score 0, high score = the stored value or 0 when the key is absent |
| `ScoreTracker.FreshIsSynced` | src/models/Scoreboard.tsx:25-28 | a new scoreboard agrees with storage |
| `ScoreTracker.IncrementFacts` | src/models/Scoreboard.tsx:46-53 | score + 1; afterwards high score >= score; the high score never drops; storage is written only when the high score rises, and then with the new value |
| `ScoreTracker.IncrementKeepsSynced` | src/models/Scoreboard.tsx:49-52 | the write-through keeps the stored value equal to the in-memory high score |
| `ScoreTracker.HighScoreNeverDrops` | src/models/Scoreboard.tsx:46-53 | over k increments the score grows by k, the high score never drops and ends at least the score, and storage keeps agreeing |
| `ScoreTracker.Scoreboard.constructor` | src/models/Scoreboard.tsx:25-28 | the fields are `Fresh` of the storage contents |
| `ScoreTracker.Scoreboard.GetScore` | src/models/Scoreboard.tsx:36-38 | returns the score, reading only |
| `ScoreTracker.Scoreboard.GetHighScore` | src/models/Scoreboard.tsx:60-62 | returns the high score, reading only |
| `ScoreTracker.Scoreboard.IncrementScore` | src/models/Scoreboard.tsx:46-53 | fields and storage become `Incremented` of the old ones |
| `ScoreTracker.Scoreboard.SetHighScore` | src/models/Scoreboard.tsx:69-71 | storage maps "highScore" to the high score; other keys are kept |
| `GameEngine.DrawCell` | src/models/Game.tsx:106 | a drawn cell lies on the board |
| `GameEngine.FirstFree` | src/models/Game.tsx:104-107 | no contract; see `GameEngine.FirstFreeIsFirstFreeDraw` and `GameEngine.DrawFreeCell` |
| `GameEngine.FirstFreeIsFirstFreeDraw` | src/models/Game.tsx:104-107 | the loop's cell exists exactly when some draw is free, and is then free, drawn, and preceded only by occupied draws |
| `GameEngine.FreeDrawExists` | src/models/Game.tsx:103-109 | with a snake shorter than N*N, the respawn loop finds a cell |
| `GameEngine.Respawned` | src/models/Game.tsx:103-109 | the respawned food is a board cell outside the occupancy set, for any snake whose set lies within its body (as the move as written keeps); on no segment when the set mirrors the body (under the corrected move) |
| `GameEngine.StartCell` | src/models/Game.tsx:48 | each spawn coordinate lies in the range randInt(2, N-3) covers, which is on the board once N >= 3 |
| `GameEngine.StartDirection` | src/models/Game.tsx:51-52 | no contract; the direction is the draw's entry of [up, down, left, right] |
| `GameEngine.StartSnake` | src/models/Game.tsx:48-54 | no contract; see `GameEngine.InitialFacts` |
| `GameEngine.Initial` | src/models/Game.tsx:46-57 | a new or reset game satisfies the engine invariant |
| `GameEngine.Tick` | src/models/Game.tsx:64-97 | no contract; see `GameEngine.TickKeepsValid` and the `GameEngine.TickOn…`, `TickWins`, `TickRespawns`, `TickQuiet` lemmas |
| `GameEngine.TickKeepsValid` | src/models/Game.tsx:64-97 | every tick keeps the invariant: a won game is over, a collided snake is over, and while the game is not won the food is a board cell outside the occupancy set unless the snake has collided |
| `GameEngine.InitialFacts` | src/models/Game.tsx:46-57 | one segment in the spawn range ([2, N-3] on each axis for N >= 5), one of the four directions, food on the board outside the set and on no segment, both flags false, score 0, high score loaded |
| `GameEngine.ResetKeepsHighScore` | src/models/Game.tsx:164-169 | a reset game starts with score 0 and the high score it had before |
| `GameEngine.TickOnSelfCollision` | src/models/Game.tsx:65-71 | a self-collision sets gameOver; score, food and gameWon are unchanged |
| `GameEngine.TickOnBorder` | src/models/Game.tsx:73-79 | a head outside [0, N-1] on either axis sets gameOver; score, food and gameWon are unchanged |
| `GameEngine.TickOnFood` | src/models/Game.tsx:81-87 | a head on the food adds exactly 1 to the score and 1 segment |
| `GameEngine.TickWins` | src/models/Game.tsx:88-93 | reaching length N*N sets gameWon and gameOver; the food is not respawned |
| `GameEngine.TickRespawns` | src/models/Game.tsx:95 | eating below N*N respawns the food at the first free draw, on the board, outside the occupancy set and (under the corrected move) on no segment; flags untouched |
| `GameEngine.AsWrittenFoodOnBody` | src/models/Game.tsx:103-109 | with the move as written, the trace's seventh tick can eat, after which a draw of a body cell passes the respawn test |
| `GameEngine.TickQuiet` | src/models/Game.tsx:64-97 | a tick without a collision and without food changes only the snake |
| `GameEngine.DrawFreeCell` | src/models/Game.tsx:104-107 | the do-while loop ends on the first draw the snake does not occupy |
| `GameEngine.RespawnFood` | src/models/Game.tsx:103-109 | the food moves to the first free draw; only the food changes |
| `GameEngine.InitializeSnakeAndFood` | src/models/Game.tsx:46-57 | a fresh snake from the spawn draws and a fresh food item respawned off it |
| `GameEngine.Game.constructor` | src/models/Game.tsx:34-40 | the engine state is `Initial` over the current storage, and the invariant holds |
| `GameEngine.Game.UpdateState` | src/models/Game.tsx:64-97 | the engine state is `Tick` of the old one; the same snake, food and scoreboard objects are kept |
| `GameEngine.Game.ResetGame` | src/models/Game.tsx:164-169 | the state is `Initial` over storage, in place, with new snake, food and scoreboard objects |
| `GameEngine.Game.SetSnakeDirection` | src/models/Game.tsx:119-121 | only the snake's direction changes |
| `GameEngine.Game.GetSnakeDirection` | src/models/Game.tsx:125-127 | returns the snake's direction |
| `GameEngine.Game.GetFoodLocation` | src/models/Game.tsx:113-115 | returns the food cell |
| `GameEngine.Game.GetSnakeBody` | src/models/Game.tsx:131-133 | returns the snake's segments |
| `GameEngine.Game.IsGameWon` | src/models/Game.tsx:137-139 | returns gameWon |
| `GameEngine.Game.IsGameOver` | src/models/Game.tsx:143-145 | returns gameOver |
| `GameEngine.Game.GetCurrentScore` | src/models/Game.tsx:149-151 | returns the scoreboard's score |
| `GameEngine.Game.GetHighScore` | src/models/Game.tsx:155-157 | returns the scoreboard's high score |
| `SnakeGameComponent.KeyDirection` | src/components/SnakeGame.tsx:146-150 | no contract; see `SnakeGameComponent.FilterKey` |
| `SnakeGameComponent.FilterKey` | src/components/SnakeGame.tsx:146-151 | an arrow is obeyed exactly when it is not the reverse of the current direction; other keys change nothing; the result is never the reverse of the current direction |
| `SnakeGameComponent.TwoPressesCanReverse` | src/components/SnakeGame.tsx:147-150 | two presses between ticks (up, then left, while moving right) end on the reverse direction |
| `SnakeGameComponent.HandleKey` | src/components/SnakeGame.tsx:140-152 | while playing, the direction becomes `FilterKey` of the key; otherwise nothing changes |
| `SnakeGameComponent.StatusAfterTick` | src/components/SnakeGame.tsx:115-125 | won if gameWon; else lost if gameOver; else still playing (won first) |
| `SnakeGameComponent.GameLoop` | src/components/SnakeGame.tsx:107-131 | one tick, the scores shown are the scoreboard's, the status is `StatusAfterTick`, and the loop reschedules exactly when neither won nor lost |
| `SnakeGameComponent.OnAction` | src/components/SnakeGame.tsx:32-47 | start switches to playing without a reset; won and lost reset the game, then switch to playing |
| `SnakeGameComponent.Dispatch` | src/components/SnakeGame.tsx:32-156 | every key press, button action and loop run keeps the invariant and a status that agrees with the flags |
| `SnakeGameComponent.Run` | src/components/SnakeGame.tsx:29-156 | any sequence of events keeps the invariant and the agreement of status and flags |
| `SnakeGameComponent.ReachableStates` | src/components/SnakeGame.tsx:29-156 | in every reachable state a won game is over, the status is won exactly when the game is won and lost exactly when it is over but not won, and while playing the game is not over and the food is outside the occupancy set and (under the corrected move) on no segment |

## Findings

| source | as written | input that shows it | evidently intended | confidence | as-written member | corrected member |
|---|---|---|---|---|---|---|
| src/models/Snake.tsx:63-64 | the popped tail's key is deleted even when another segment (the copy `grow` appended at lines 84-86) still covers that cell, so the set stops mirroring the body | from one segment at (2, 2) heading right on a 5 x 5 board: eat while turning right, down, left, up; move right twice; turn down, left, up; the head enters the fourth segment at (3, 2) and no collision is flagged | delete the key only when no remaining segment covers the cell, so the set always equals the body's cells, a head entering any segment collides except on the tail's own cell (the snake may still follow its tail, even just after a growth), and food never spawns on the snake | high (not executed) | `SnakeBody.AsWrittenMissesCollision` | `SnakeBody.Moved` |

## Left out

- `SnakeBody.Snake.Move` and `SnakeBody.Moved`: they follow the corrected key deletion,
  not line 64 of src/models/Snake.tsx as written. The code as written is
  `SnakeBody.MovedAsWritten`; see "## Findings". Everything built on the move uses the
  corrected one:
  - `GameEngine.Tick`, `GameEngine.TickKeepsValid`, `GameEngine.TickRespawns` and
    `GameEngine.Game.UpdateState`;
  - `SnakeGameComponent.GameLoop`, `SnakeGameComponent.Dispatch`,
    `SnakeGameComponent.Run` and `SnakeGameComponent.ReachableStates`.

  Their "food on no segment" claims hold only under the corrected move. For the code as
  written, what holds is that the food is outside the occupancy set (`GameEngine.Respawned`).
  The food may still land on the body (`GameEngine.AsWrittenFoodOnBody`).
- Drawing on the canvas, the colour gradient, and the `if (!canvas)` and `if (!ctx)`
  guards of `startGame` (src/components/SnakeGame.tsx:52-103, guards at 54 and 57). They
  are rendering work.
- `SnakeGameComponent.OnAction`: `startGame()` runs the loop once immediately
  (src/components/SnakeGame.tsx:134). The model leaves that first tick to a separate
  `Frame` event. `Run` allows every order of events, so the proved invariants cover it.
- React state hooks, `setTimeout` scheduling and listener registration. Each scheduled
  run of the loop is one `GameLoop` call. The listener exists only while playing, so a
  key in any other status is ignored.
- src/components/GameOverlay.tsx, src/components/ScoreboardDisplay.tsx and
  src/main.tsx. They are presentation only.
- The uniform distribution of `randInt`. `Math.random()` is replaced by an offset `k` in
  [0, hi - lo]. The model says which values are possible, not how likely they are.
- `coordToString` (src/models/Snake.tsx:33-35). The string key is one-to-one on integer
  pairs, so the key set is modelled as a set of cells.
- Real `localStorage`. It is a `Store` object holding a map from keys to the integers
  they spell, shared by every scoreboard. An empty or non-numeric stored string is not
  modelled: `parseInt` turns a non-numeric string into NaN, not 0.
- Aliasing of `{x, y}` objects and the defensive copies. Cells are values.
- JavaScript number semantics. Coordinates and scores are unbounded integers. On the
  40 x 40 board the source uses, no value comes near 2^53.
- `GameEngine.Game.constructor`: boards smaller than 2 x 2 are excluded. The source only
  ever builds a 40 x 40 board (src/components/SnakeGame.tsx:11). On a 1 x 1 board the
  respawn loop can draw forever.
- `GameEngine.Tick` and `GameEngine.Game.UpdateState`: a tick of a game already won is
  excluded. After a win the respawn may face a full board and never end. The component
  never ticks a won game.
- Termination of `respawnFood` is argued through `RandomStream`, which says the supplied
  draws cover every board cell. A stream that never draws a free cell, where the source
  spins forever, is not modelled.
