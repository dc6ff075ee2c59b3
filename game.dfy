/**
 * The game engine: one snake, one food item and one scoreboard on an N x N
 * board, advanced one tick at a time, with the two terminal flags gameOver
 * and gameWon.
 *
 * Randomness is supplied by the caller. A snake spawn is three randInt draws
 * (Spawn); food placement reads draws from a stream until one lands on a cell
 * the snake does not occupy.
 */
module GameEngine {
  import opened Wrappers
  import opened Geometry
  import opened RandomRange
  import opened SnakeBody
  import opened FoodSpawner
  import opened ScoreTracker

  // ---------------------------------------------------------------- randomness

  /** One food-cell draw: the offsets randInt(0, N-1) turns into x and then y. */
  datatype Draw = Draw(kx: int, ky: int)

  predicate DrawFits(n: int, d: Draw)
  {
    Fits(0, n - 1, d.kx) && Fits(0, n - 1, d.ky)
  }

  predicate AllFit(n: int, draws: seq<Draw>)
  {
    forall j :: 0 <= j < |draws| ==> DrawFits(n, draws[j])
  }

  /** The cell a draw names; on a board of side at least 1 it lies on the board. */
  function DrawCell(n: int, d: Draw): (c: Coord)
    requires DrawFits(n, d)
    ensures n >= 1 ==> InBoard(n, c)
  {
    Coord(RandInt(0, n - 1, d.kx), RandInt(0, n - 1, d.ky))
  }

  /**
   * A finite prefix of the random stream that respawnFood reads: every draw is
   * one randInt can make, and every board cell turns up somewhere in it, as it
   * eventually does (with probability one) in a uniform stream.
   */
  ghost predicate RandomStream(n: int, draws: seq<Draw>)
  {
    && AllFit(n, draws)
    && forall c :: InBoard(n, c) ==> exists j :: 0 <= j < |draws| && DrawCell(n, draws[j]) == c
  }

  /** The cell respawnFood's do-while loop settles on: the first draw the set does not hold. */
  function FirstFree(n: int, draws: seq<Draw>, cells: set<Coord>): Option<Coord>
    requires AllFit(n, draws)
  {
    if draws == [] then None
    else if DrawCell(n, draws[0]) !in cells then Some(DrawCell(n, draws[0]))
    else FirstFree(n, draws[1..], cells)
  }

  /**
   * FirstFree finds a cell exactly when some draw is free, and then the cell is
   * free and every draw before it is occupied.
   */
  lemma {:induction false} FirstFreeIsFirstFreeDraw(n: int, draws: seq<Draw>, cells: set<Coord>)
    requires AllFit(n, draws)
    ensures FirstFree(n, draws, cells).Some? <==>
      exists j :: 0 <= j < |draws| && DrawCell(n, draws[j]) !in cells
    ensures FirstFree(n, draws, cells).Some? ==>
      FirstFree(n, draws, cells).value !in cells &&
      exists j :: 0 <= j < |draws| && DrawCell(n, draws[j]) == FirstFree(n, draws, cells).value &&
        forall i :: 0 <= i < j ==> DrawCell(n, draws[i]) in cells
  {
    if draws != [] {
      if DrawCell(n, draws[0]) !in cells {
        assert DrawCell(n, draws[0]) == FirstFree(n, draws, cells).value;
      } else {
        var tail := draws[1..];
        FirstFreeIsFirstFreeDraw(n, tail, cells);
        assert forall j :: 0 <= j < |tail| ==> tail[j] == draws[j + 1];
        if FirstFree(n, tail, cells).Some? {
          var j :| 0 <= j < |tail| && DrawCell(n, tail[j]) == FirstFree(n, tail, cells).value &&
            forall i :: 0 <= i < j ==> DrawCell(n, tail[i]) in cells;
          assert DrawCell(n, draws[j + 1]) == FirstFree(n, draws, cells).value;
          forall i | 0 <= i < j + 1 ensures DrawCell(n, draws[i]) in cells {
            if i > 0 {
              assert draws[i] == tail[i - 1];
            }
          }
        } else {
          forall j | 0 <= j < |draws| ensures DrawCell(n, draws[j]) in cells {
            if j > 0 {
              assert draws[j] == tail[j - 1];
            }
          }
        }
      }
    }
  }

  /** A snake shorter than N*N leaves a board cell free, and the stream draws it. */
  lemma FreeDrawExists(n: int, draws: seq<Draw>, s: SnakeState)
    requires n >= 1 && RandomStream(n, draws)
    requires SetWithinBody(s) && |s.body| < n * n
    ensures FirstFree(n, draws, s.cells).Some?
  {
    CellsSize(s);
    var c := FreeCellExists(n, s.cells);
    var j :| 0 <= j < |draws| && DrawCell(n, draws[j]) == c;
    FirstFreeIsFirstFreeDraw(n, draws, s.cells);
  }

  /**
   * Where respawnFood puts the food: a board cell outside the occupancy set.
   * That is all the loop tests, so the cell is on no segment only when the
   * set mirrors the body (as under the corrected move); the weaker invariant
   * of the move as written suffices for the cell to exist.
   */
  function Respawned(n: int, draws: seq<Draw>, s: SnakeState): (c: Coord)
    requires n >= 1 && RandomStream(n, draws)
    requires SetWithinBody(s) && |s.body| < n * n
    ensures InBoard(n, c) && c !in s.cells
    ensures ValidBody(s) ==> c !in s.body
  {
    FreeDrawExists(n, draws, s);
    FirstFreeIsFirstFreeDraw(n, draws, s.cells);
    FirstFree(n, draws, s.cells).value
  }

  // ---------------------------------------------------------------- spawning

  /** The draws of a snake spawn: randInt(2, N-3) twice for the cell, randInt(0, 3) for the direction. */
  datatype Spawn = Spawn(kx: int, ky: int, kd: int)

  predicate SpawnFits(n: int, sp: Spawn)
  {
    Fits(2, n - 3, sp.kx) && Fits(2, n - 3, sp.ky) && Fits(0, 3, sp.kd)
  }

  /** The directions indexed by the direction draw. */
  const Directions: seq<Direction> := [Up, Down, Left, Right]

  /**
   * The spawn cell: each coordinate in the range randInt(2, N-3) covers, which
   * lies on the board once N >= 3 (on a 2 x 2 board the swapped range [-1, 2]
   * reaches past both edges).
   */
  function StartCell(n: int, sp: Spawn): (c: Coord)
    requires SpawnFits(n, sp)
    ensures Low(2, n - 3) <= c.x <= High(2, n - 3) && Low(2, n - 3) <= c.y <= High(2, n - 3)
    ensures n >= 3 ==> InBoard(n, c)
  {
    Coord(RandInt(2, n - 3, sp.kx), RandInt(2, n - 3, sp.ky))
  }

  function StartDirection(sp: Spawn): Direction
    requires Fits(0, 3, sp.kd)
  {
    Directions[RandInt(0, 3, sp.kd)]
  }

  function StartSnake(n: int, sp: Spawn): SnakeState
    requires SpawnFits(n, sp)
  {
    Init(StartCell(n, sp), StartDirection(sp))
  }

  // ---------------------------------------------------------------- the state machine

  /** The engine's fields, as one value; the scoreboard part carries the storage contents. */
  datatype GameState = GameState(
    snake: SnakeState,
    food: Coord,
    scoreboard: ScoreState,
    gameOver: bool,
    gameWon: bool)

  /**
   * What every reachable engine state satisfies: the snake's own invariant,
   * the high score agrees with storage, a won game and a collided snake are
   * both over, and until the game is won the snake is shorter than the board
   * and the food is a board cell outside the occupancy set (hence, by the
   * mirror invariant the corrected move keeps, on no segment) unless the snake has collided
   * (a collided snake that is ticked again may move its head onto the food).
   */
  ghost predicate ValidGame(n: int, g: GameState)
  {
    && n >= 2
    && ValidBody(g.snake)
    && Synced(g.scoreboard)
    && (g.gameWon ==> g.gameOver)
    && (g.snake.selfCollision ==> g.gameOver)
    && (!g.gameWon ==>
          && |g.snake.body| < n * n
          && InBoard(n, g.food)
          && (g.snake.selfCollision || g.food !in g.snake.cells))
  }

  /**
   * A new or reset game: a fresh snake from the spawn draws, food respawned off
   * it, a fresh scoreboard over storage `items`, both flags clear.
   */
  function Initial(n: int, items: map<string, int>, sp: Spawn, draws: seq<Draw>): (g: GameState)
    requires n >= 2 && SpawnFits(n, sp) && RandomStream(n, draws)
    ensures ValidGame(n, g)
  {
    var snake := StartSnake(n, sp);
    GameState(snake, Respawned(n, draws, snake), Fresh(items), false, false)
  }

  /**
   * One tick (updateState): move; stop on a self-collision; stop on a head off
   * the board; on food, score and grow, then either win (length N*N) or
   * respawn the food. The draws are read only by the respawn.
   */
  function Tick(n: int, g: GameState, draws: seq<Draw>): GameState
    requires ValidGame(n, g) && !g.gameWon && RandomStream(n, draws)
  {
    var moved := Moved(g.snake);
    if moved.selfCollision then
      g.(snake := moved, gameOver := true)
    else if !InBoard(n, moved.body[0]) then
      g.(snake := moved, gameOver := true)
    else if moved.body[0] == g.food then
      var grown := Grown(moved);
      var scoreboard := Incremented(g.scoreboard);
      if |grown.body| == n * n then
        g.(snake := grown, scoreboard := scoreboard, gameWon := true, gameOver := true)
      else
        g.(snake := grown, scoreboard := scoreboard, food := Respawned(n, draws, grown))
    else
      g.(snake := moved)
  }

  /** Every tick keeps the engine invariant; in particular a won game is always over. */
  lemma TickKeepsValid(n: int, g: GameState, draws: seq<Draw>)
    requires ValidGame(n, g) && !g.gameWon && RandomStream(n, draws)
    ensures ValidGame(n, Tick(n, g, draws))
  {
    var moved := Moved(g.snake);
    if moved.selfCollision {
    } else if !InBoard(n, moved.body[0]) {
      assert g.food != moved.body[0];
    } else if moved.body[0] == g.food {
      IncrementKeepsSynced(g.scoreboard);
    } else {
      assert g.food != moved.body[0];
    }
  }

  /** A new game: one segment in the spawn range ([2, N-3] on each axis when N >= 5), food off it, score 0. */
  lemma InitialFacts(n: int, items: map<string, int>, sp: Spawn, draws: seq<Draw>)
    requires n >= 2 && SpawnFits(n, sp) && RandomStream(n, draws)
    ensures var g := Initial(n, items, sp, draws);
      && |g.snake.body| == 1
      && Low(2, n - 3) <= g.snake.body[0].x <= High(2, n - 3)
      && Low(2, n - 3) <= g.snake.body[0].y <= High(2, n - 3)
      && (n >= 5 ==> 2 <= g.snake.body[0].x <= n - 3 && 2 <= g.snake.body[0].y <= n - 3)
      && g.snake.direction in Directions
      && g.snake.cells == {g.snake.body[0]}
      && !g.snake.selfCollision
      && InBoard(n, g.food) && g.food !in g.snake.cells && g.food !in g.snake.body
      && !g.gameOver && !g.gameWon
      && g.scoreboard.score == 0 && g.scoreboard.highScore == LoadHighScore(items)
  {
  }

  /** Resetting keeps the high score: it is reloaded from storage, which agrees with memory. */
  lemma ResetKeepsHighScore(n: int, g: GameState, sp: Spawn, draws: seq<Draw>)
    requires ValidGame(n, g) && SpawnFits(n, sp) && RandomStream(n, draws)
    ensures Initial(n, g.scoreboard.stored, sp, draws).scoreboard.highScore == g.scoreboard.highScore
    ensures Initial(n, g.scoreboard.stored, sp, draws).scoreboard.score == 0
  {
  }

  /** A self-collision ends the game; score, food and gameWon stay as they were. */
  lemma TickOnSelfCollision(n: int, g: GameState, draws: seq<Draw>)
    requires ValidGame(n, g) && !g.gameWon && RandomStream(n, draws)
    requires Moved(g.snake).selfCollision
    ensures Tick(n, g, draws) == g.(snake := Moved(g.snake), gameOver := true)
  {
  }

  /** A head off [0, N-1] on either axis ends the game; score and food stay as they were. */
  lemma TickOnBorder(n: int, g: GameState, draws: seq<Draw>)
    requires ValidGame(n, g) && !g.gameWon && RandomStream(n, draws)
    requires !Moved(g.snake).selfCollision
    requires var h := Moved(g.snake).body[0]; h.x < 0 || h.x >= n || h.y < 0 || h.y >= n
    ensures Tick(n, g, draws) == g.(snake := Moved(g.snake), gameOver := true)
  {
  }

  /** Reaching the food adds exactly one to the score and exactly one segment. */
  lemma TickOnFood(n: int, g: GameState, draws: seq<Draw>)
    requires ValidGame(n, g) && !g.gameWon && RandomStream(n, draws)
    requires !Moved(g.snake).selfCollision
    requires InBoard(n, Moved(g.snake).body[0]) && Moved(g.snake).body[0] == g.food
    ensures Tick(n, g, draws).scoreboard == Incremented(g.scoreboard)
    ensures Tick(n, g, draws).scoreboard.score == g.scoreboard.score + 1
    ensures Tick(n, g, draws).snake == Grown(Moved(g.snake))
    ensures |Tick(n, g, draws).snake.body| == |g.snake.body| + 1
  {
  }

  /** Reaching length N*N wins: both flags are set and the food is not respawned. */
  lemma TickWins(n: int, g: GameState, draws: seq<Draw>)
    requires ValidGame(n, g) && !g.gameWon && RandomStream(n, draws)
    requires !Moved(g.snake).selfCollision
    requires InBoard(n, Moved(g.snake).body[0]) && Moved(g.snake).body[0] == g.food
    requires |g.snake.body| + 1 == n * n
    ensures Tick(n, g, draws).gameWon && Tick(n, g, draws).gameOver
    ensures Tick(n, g, draws).food == g.food
  {
  }

  /**
   * Eating below length N*N respawns the food at the first free draw, a board
   * cell outside the occupancy set and (under the corrected move) on no
   * segment, and leaves the flags alone.
   */
  lemma TickRespawns(n: int, g: GameState, draws: seq<Draw>)
    requires ValidGame(n, g) && !g.gameWon && RandomStream(n, draws)
    requires !Moved(g.snake).selfCollision
    requires InBoard(n, Moved(g.snake).body[0]) && Moved(g.snake).body[0] == g.food
    requires |g.snake.body| + 1 != n * n
    ensures var r := Tick(n, g, draws);
      && !r.gameWon && r.gameOver == g.gameOver
      && InBoard(n, r.food) && r.food !in r.snake.cells && r.food !in r.snake.body
      && Some(r.food) == FirstFree(n, draws, r.snake.cells)
  {
    var grown := Grown(Moved(g.snake));
    assert Tick(n, g, draws).snake == grown;
    FreeDrawExists(n, draws, grown);
  }

  /**
   * With the move as written, the respawn can put the food on the snake. In
   * the trace of AsWrittenMissesCollision, let the 7th tick (down, onto
   * (4, 3)) eat: the set of the grown snake lacks (3, 2), a body cell, so a
   * first draw of (3, 2) on a 5 x 5 board is taken as free.
   */
  lemma AsWrittenFoodOnBody()
    ensures var s := TickAsWritten(Trace6, Down, true);
      && Coord(3, 2) in s.body
      && FirstFree(5, [Draw(3, 2)], s.cells) == Some(Coord(3, 2))
  {
    TraceTick7();
    var s := TickAsWritten(Trace6, Down, true);
    assert s == Grown(Trace7);
    assert s.body[2] == Coord(3, 2);
  }

  /** A tick that neither collides nor eats changes only the snake. */
  lemma TickQuiet(n: int, g: GameState, draws: seq<Draw>)
    requires ValidGame(n, g) && !g.gameWon && RandomStream(n, draws)
    requires !Moved(g.snake).selfCollision
    requires InBoard(n, Moved(g.snake).body[0]) && Moved(g.snake).body[0] != g.food
    ensures Tick(n, g, draws) == g.(snake := Moved(g.snake))
  {
  }

  // ---------------------------------------------------------------- the imperative engine

  /**
   * The do-while of respawnFood: draw a cell, and draw again while the snake
   * occupies it. It settles on the first free draw of the stream.
   */
  method DrawFreeCell(n: int, snake: Snake, draws: seq<Draw>) returns (loc: Coord)
    requires AllFit(n, draws)
    requires exists j :: 0 <= j < |draws| && !snake.Occupies(DrawCell(n, draws[j]))
    ensures FirstFree(n, draws, snake.bodySet) == Some(loc)
  {
    FirstFreeIsFirstFreeDraw(n, draws, snake.bodySet);
    var i := 0;
    loc := DrawCell(n, draws[i]);
    while snake.Occupies(loc)
      invariant 0 <= i < |draws|
      invariant loc == DrawCell(n, draws[i])
      invariant FirstFree(n, draws[i..], snake.bodySet) == FirstFree(n, draws, snake.bodySet)
      invariant FirstFree(n, draws[i..], snake.bodySet).Some?
      decreases |draws| - i
    {
      assert draws[i..][1..] == draws[i + 1..];
      i := i + 1;
      loc := DrawCell(n, draws[i]);
    }
  }

  /** respawnFood: moves the food to the first free draw; only the food changes. */
  method RespawnFood(n: int, snake: Snake, food: Food, draws: seq<Draw>)
    requires AllFit(n, draws)
    requires exists j :: 0 <= j < |draws| && !snake.Occupies(DrawCell(n, draws[j]))
    modifies food
    ensures FirstFree(n, draws, snake.bodySet) == Some(food.location)
  {
    var newLocation := DrawFreeCell(n, snake, draws);
    food.SetLocation(newLocation);
  }

  /** initializeSnakeAndFood: a new snake from the spawn draws and a new food item respawned off it. */
  method InitializeSnakeAndFood(n: int, sp: Spawn, draws: seq<Draw>) returns (snake: Snake, food: Food)
    requires n >= 2 && SpawnFits(n, sp) && RandomStream(n, draws)
    ensures fresh(snake) && fresh(food) && snake.Valid()
    ensures snake.State() == StartSnake(n, sp)
    ensures food.location == Respawned(n, draws, StartSnake(n, sp))
  {
    var start := StartCell(n, sp);
    var direction := StartDirection(sp);
    snake := new Snake(start, direction);
    food := new Food();
    FreeDrawExists(n, draws, snake.State());
    FirstFreeIsFirstFreeDraw(n, draws, snake.bodySet);
    RespawnFood(n, snake, food, draws);
  }

  class Game {
    /** The side of the square board. */
    const boardSize: int
    /** The storage every new scoreboard reads. */
    const store: Store
    var snake: Snake
    var food: Food
    var scoreboard: Scoreboard
    var gameOver: bool
    var gameWon: bool

    function State(): GameState
      reads this, snake, food, scoreboard, scoreboard.store
    {
      GameState(snake.State(), food.location, scoreboard.State(), gameOver, gameWon)
    }

    ghost predicate Valid()
      reads this, snake, food, scoreboard, scoreboard.store
    {
      scoreboard.store == store && ValidGame(boardSize, State())
    }

    constructor (boardSize: int, store: Store, sp: Spawn, draws: seq<Draw>)
      requires boardSize >= 2 && SpawnFits(boardSize, sp) && RandomStream(boardSize, draws)
      ensures this.boardSize == boardSize && this.store == store
      ensures Valid() && fresh(snake) && fresh(food) && fresh(scoreboard)
      ensures State() == Initial(boardSize, store.items, sp, draws)
    {
      this.boardSize := boardSize;
      this.store := store;
      scoreboard := new Scoreboard(store);
      var s, f := InitializeSnakeAndFood(boardSize, sp, draws);
      snake, food := s, f;
      gameOver := false;
      gameWon := false;
    }

    /** updateState: one tick, as Tick describes; the engine keeps its snake, food and scoreboard objects. */
    method UpdateState(draws: seq<Draw>)
      requires Valid() && !gameWon && RandomStream(boardSize, draws)
      modifies this, snake, food, scoreboard, store
      ensures snake == old(snake) && food == old(food) && scoreboard == old(scoreboard)
      ensures Valid()
      ensures State() == Tick(boardSize, old(State()), draws)
    {
      TickKeepsValid(boardSize, State(), draws);
      snake.Move();
      if snake.IsSelfCollision() {
        gameOver := true;
        return;
      }
      var head := snake.GetHead();
      if head.x < 0 || head.x >= boardSize || head.y < 0 || head.y >= boardSize {
        gameOver := true;
        return;
      }
      var foodLocation := food.GetLocation();
      if head.x == foodLocation.x && head.y == foodLocation.y {
        scoreboard.IncrementScore();
        snake.Grow();
        if snake.GetBodyLength() == boardSize * boardSize {
          gameWon := true;
          gameOver := true;
          return;
        }
        FreeDrawExists(boardSize, draws, snake.State());
        FirstFreeIsFirstFreeDraw(boardSize, draws, snake.bodySet);
        RespawnFood(boardSize, snake, food, draws);
      }
    }

    /** resetGame: a new snake, food and scoreboard and clear flags, in place; storage is kept. */
    method ResetGame(sp: Spawn, draws: seq<Draw>)
      requires boardSize >= 2 && SpawnFits(boardSize, sp) && RandomStream(boardSize, draws)
      modifies this
      ensures Valid() && fresh(snake) && fresh(food) && fresh(scoreboard)
      ensures State() == Initial(boardSize, store.items, sp, draws)
    {
      snake, food := InitializeSnakeAndFood(boardSize, sp, draws);
      scoreboard := new Scoreboard(store);
      gameOver := false;
      gameWon := false;
    }

    /** Turns the snake with no validation; only the direction changes. */
    method SetSnakeDirection(d: Direction)
      requires Valid()
      modifies snake
      ensures Valid()
      ensures State() == old(State()).(snake := old(State()).snake.(direction := d))
    {
      snake.SetDirection(d);
    }

    function GetSnakeDirection(): (d: Direction)
      reads this, snake
      ensures d == State().snake.direction
    {
      snake.GetDirection()
    }

    function GetFoodLocation(): (c: Coord)
      reads this, food
      ensures c == State().food
    {
      food.GetLocation()
    }

    function GetSnakeBody(): (b: seq<Coord>)
      reads this, snake
      ensures b == State().snake.body
    {
      snake.GetBody()
    }

    /** Whether the game was won; a won game is always over. */
    function IsGameWon(): (b: bool)
      reads this
      ensures b == gameWon
    {
      gameWon
    }

    function IsGameOver(): (b: bool)
      reads this
      ensures b == gameOver
    {
      gameOver
    }

    function GetCurrentScore(): (s: int)
      reads this, scoreboard
      ensures s == scoreboard.score
    {
      scoreboard.GetScore()
    }

    function GetHighScore(): (s: int)
      reads this, scoreboard
      ensures s == scoreboard.highScore
    {
      scoreboard.GetHighScore()
    }
  }
}
