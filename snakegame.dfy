/**
 * The game logic of the React component: the arrow-key filter, the handlers
 * of the overlay's action button, and the status decision after each run of
 * the game loop. Drawing, timers and listener registration are not modelled;
 * each scheduled run of the loop is one call of GameLoop.
 */
module SnakeGameComponent {
  import opened Wrappers
  import opened Geometry
  import opened SnakeBody
  import opened GameEngine

  /** The component's status; the engine itself knows only its two flags. */
  datatype Status = Start | Playing | Won | Lost

  /** The direction an arrow key asks for; any other key asks for none. */
  function KeyDirection(key: string): Option<Direction>
  {
    if key == "ArrowUp" then Some(Up)
    else if key == "ArrowDown" then Some(Down)
    else if key == "ArrowLeft" then Some(Left)
    else if key == "ArrowRight" then Some(Right)
    else None
  }

  /**
   * The direction after one key press: an arrow is obeyed unless it asks for
   * the reverse of the current direction, and any other key is ignored.
   */
  function FilterKey(current: Direction, key: string): (r: Direction)
    ensures r != Opposite(current)
    ensures KeyDirection(key).None? ==> r == current
    ensures KeyDirection(key).Some? ==>
      (r == KeyDirection(key).value <==> KeyDirection(key).value != Opposite(current))
    ensures r == current || Some(r) == KeyDirection(key)
  {
    match KeyDirection(key)
    case None => current
    case Some(d) => if current != Opposite(d) then d else current
  }

  /**
   * The filter looks at the stored direction, not at the last move: two
   * presses between ticks (up, then left, while travelling right) turn the
   * snake around.
   */
  lemma TwoPressesCanReverse()
    ensures FilterKey(FilterKey(Right, "ArrowUp"), "ArrowLeft") == Opposite(Right)
  {
  }

  /** handleKey: while playing, the filtered direction is set; otherwise the key is ignored. */
  method HandleKey(game: Game, status: Status, key: string)
    requires game.Valid()
    modifies game.snake
    ensures game.Valid()
    ensures var was := old(game.State());
      game.State() == was.(snake := was.snake.(direction :=
        if status == Playing then FilterKey(was.snake.direction, key) else was.snake.direction))
  {
    if status != Playing {
      return;
    }
    var current := game.GetSnakeDirection();
    if key == "ArrowUp" {
      if current != Down { game.SetSnakeDirection(Up); }
    } else if key == "ArrowDown" {
      if current != Up { game.SetSnakeDirection(Down); }
    } else if key == "ArrowLeft" {
      if current != Right { game.SetSnakeDirection(Left); }
    } else if key == "ArrowRight" {
      if current != Left { game.SetSnakeDirection(Right); }
    }
  }

  /** The status the loop reports after a tick: won first, then lost, else still playing. */
  function StatusAfterTick(gameWon: bool, gameOver: bool): (s: Status)
    ensures s == Won <==> gameWon
    ensures s == Lost <==> !gameWon && gameOver
    ensures s == Playing <==> !gameWon && !gameOver
  {
    if gameWon then Won else if gameOver then Lost else Playing
  }

  /**
   * One run of gameLoop: a tick, the scores to display, the new status, and
   * whether the loop schedules its next run (only while neither won nor lost).
   */
  method GameLoop(game: Game, draws: seq<Draw>)
    returns (status: Status, reschedule: bool, shownScore: int, shownHighScore: int)
    requires game.Valid() && !game.gameWon && RandomStream(game.boardSize, draws)
    modifies game, game.snake, game.food, game.scoreboard, game.store
    ensures game.Valid()
    ensures game.State() == Tick(game.boardSize, old(game.State()), draws)
    ensures shownScore == game.State().scoreboard.score
    ensures shownHighScore == game.State().scoreboard.highScore
    ensures status == StatusAfterTick(game.gameWon, game.gameOver)
    ensures reschedule <==> !game.gameWon && !game.gameOver
  {
    game.UpdateState(draws);
    shownScore := game.GetCurrentScore();
    shownHighScore := game.GetHighScore();
    if game.IsGameWon() {
      return Won, false, shownScore, shownHighScore;
    } else if game.IsGameOver() {
      return Lost, false, shownScore, shownHighScore;
    }
    status, reschedule := Playing, true;
  }

  /**
   * gameHandlers: the overlay's button. From start it only switches to
   * playing; from won or lost it resets the game first.
   */
  method OnAction(game: Game, status: Status, sp: Spawn, draws: seq<Draw>) returns (next: Status)
    requires game.Valid() && status != Playing
    requires status != Start ==> SpawnFits(game.boardSize, sp) && RandomStream(game.boardSize, draws)
    modifies game
    ensures game.Valid() && next == Playing
    ensures status == Start ==> unchanged(game)
    ensures status != Start ==> game.State() == Initial(game.boardSize, game.store.items, sp, draws)
  {
    if status == Start {
      next := Playing;
    } else {
      game.ResetGame(sp, draws);
      next := Playing;
    }
  }

  // ---------------------------------------------------------------- the whole component

  /** The component's status together with the engine's state. */
  datatype App = App(status: Status, game: GameState)

  /** What can happen to the component. */
  datatype Event =
    | KeyDown(key: string)
    | Action(spawn: Spawn, actionDraws: seq<Draw>)
    | Frame(frameDraws: seq<Draw>)

  ghost predicate EventFits(n: int, e: Event)
  {
    match e
    case KeyDown(_) => true
    case Action(sp, draws) => SpawnFits(n, sp) && RandomStream(n, draws)
    case Frame(draws) => RandomStream(n, draws)
  }

  /** The status agrees with the engine flags it was derived from. */
  ghost predicate StatusAgrees(status: Status, g: GameState)
  {
    match status
    case Start => !g.gameOver && !g.gameWon
    case Playing => !g.gameOver
    case Won => g.gameWon
    case Lost => g.gameOver && !g.gameWon
  }

  ghost predicate ValidApp(n: int, a: App)
  {
    ValidGame(n, a.game) && StatusAgrees(a.status, a.game)
  }

  /**
   * One event: keys count only while playing; the button exists only when
   * not playing; the loop runs only while playing (it stops rescheduling
   * itself on a win or a loss).
   */
  function Dispatch(n: int, a: App, e: Event): (r: App)
    requires ValidApp(n, a) && EventFits(n, e)
    ensures ValidApp(n, r)
  {
    match e
    case KeyDown(key) =>
      if a.status == Playing then
        a.(game := a.game.(snake := a.game.snake.(direction := FilterKey(a.game.snake.direction, key))))
      else a
    case Action(sp, draws) =>
      if a.status == Playing then a
      else if a.status == Start then a.(status := Playing)
      else App(Playing, Initial(n, a.game.scoreboard.stored, sp, draws))
    case Frame(draws) =>
      if a.status != Playing then a
      else
        TickKeepsValid(n, a.game, draws);
        var g := Tick(n, a.game, draws);
        App(StatusAfterTick(g.gameWon, g.gameOver), g)
  }

  /** A sequence of events, one after another. */
  function Run(n: int, a: App, events: seq<Event>): (r: App)
    requires ValidApp(n, a)
    requires forall i :: 0 <= i < |events| ==> EventFits(n, events[i])
    ensures ValidApp(n, r)
    decreases |events|
  {
    if events == [] then a
    else Run(n, Dispatch(n, a, events[0]), events[1..])
  }

  /**
   * In every state the component reaches from a fresh game: a won game is
   * over, the status is won exactly when the game is won, and while playing
   * the game is not over and the food is outside the occupancy set and, since
   * the engine's tick uses the corrected move, on no segment of the snake.
   */
  lemma ReachableStates(n: int, items: map<string, int>, sp: Spawn, draws: seq<Draw>, events: seq<Event>)
    requires n >= 2 && SpawnFits(n, sp) && RandomStream(n, draws)
    requires forall i :: 0 <= i < |events| ==> EventFits(n, events[i])
    ensures var a := Run(n, App(Start, Initial(n, items, sp, draws)), events);
      && (a.game.gameWon ==> a.game.gameOver)
      && (a.status == Won <==> a.game.gameWon)
      && (a.status == Lost <==> a.game.gameOver && !a.game.gameWon)
      && (a.status == Playing ==> !a.game.gameOver && a.game.food !in a.game.snake.cells)
      && (a.status == Playing ==> a.game.food !in a.game.snake.body)
  {
    var a0 := App(Start, Initial(n, items, sp, draws));
    assert ValidApp(n, a0);
    var a := Run(n, a0, events);
    assert ValidApp(n, a);
  }
}
