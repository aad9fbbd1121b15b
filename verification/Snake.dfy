/** The Snake rules (packages/game-snake/src/game.ts). */
module Snake {
  import opened Pigeonhole
  import opened Wrappers

  datatype Point = Point(x: int, y: int)

  const WIDTH := 24
  const HEIGHT := 12
  const CELLS := WIDTH * HEIGHT

  const UP := Point(0, -1)
  const DOWN := Point(0, 1)
  const LEFT := Point(-1, 0)
  const RIGHT := Point(1, 0)

  /** The snake is listed head first. */
  datatype GameState = GameState(snake: seq<Point>, dir: Point, food: Point, score: nat, gameOver: bool)

  predicate InBounds(p: Point) {
    0 <= p.x < WIDTH && 0 <= p.y < HEIGHT
  }

  function Plus(p: Point, d: Point): Point {
    Point(p.x + d.x, p.y + d.y)
  }

  predicate Direction(d: Point) {
    d == UP || d == DOWN || d == LEFT || d == RIGHT
  }

  const RANDOM_TRIES := 500

  /** What the random generator would draw, try by try, in one call of `spawnFood`: any cells of the board. */
  type Draws = s: seq<Point> | |s| == RANDOM_TRIES && forall i :: 0 <= i < |s| ==> InBounds(s[i])
    witness seq(RANDOM_TRIES, i => Point(0, 0))

  /** The cell visited at step `i` of the row-by-row scan. */
  function Cell(i: nat): Point {
    Point(i % WIDTH, i / WIDTH)
  }

  /** All cells in the order of the scan. */
  function BoardCells(): seq<Point> {
    seq(CELLS, i requires 0 <= i => Cell(i))
  }

  function FirstFree(snake: seq<Point>, cells: seq<Point>): Option<Point> {
    if cells == [] then None
    else if cells[0] !in snake then Some(cells[0])
    else FirstFree(snake, cells[1..])
  }

  /** The cell `spawnFood` picks: a free random one, else the first free one, else the corner. */
  function Spawned(snake: seq<Point>, draws: Draws): Point {
    match FirstFree(snake, draws)
    case Some(p) => p
    case None =>
      match FirstFree(snake, BoardCells())
      case Some(p) => p
      case None => Point(0, 0)
  }

  lemma FirstFreeStep(snake: seq<Point>, cells: seq<Point>, i: nat)
    requires i < |cells|
    ensures FirstFree(snake, cells[i..])
         == if cells[i] !in snake then Some(cells[i]) else FirstFree(snake, cells[i + 1..])
  {
    assert cells[i..][1..] == cells[i + 1..];
  }

  lemma BoardCellAt(x: nat, y: nat)
    requires x < WIDTH && y < HEIGHT
    ensures y * WIDTH + x < CELLS && BoardCells()[y * WIDTH + x] == Point(x, y)
  {
  }

  method SpawnFood(state: GameState, draws: Draws) returns (food: Point)
    ensures food == Spawned(state.snake, draws)
  {
    var occupied := set p | p in state.snake;
    ghost var board := BoardCells();
    for tries := 0 to RANDOM_TRIES
      invariant FirstFree(state.snake, draws) == FirstFree(state.snake, draws[tries..])
    {
      FirstFreeStep(state.snake, draws, tries);
      var p := draws[tries];
      if p !in occupied {
        return p;
      }
    }
    for y := 0 to HEIGHT
      invariant FirstFree(state.snake, board) == FirstFree(state.snake, board[y * WIDTH..])
    {
      for x := 0 to WIDTH
        invariant FirstFree(state.snake, board) == FirstFree(state.snake, board[y * WIDTH + x..])
      {
        var p := Point(x, y);
        BoardCellAt(x, y);
        FirstFreeStep(state.snake, board, y * WIDTH + x);
        if p !in occupied {
          return p;
        }
      }
    }
    return Point(0, 0);
  }

  function InitialState(draws: Draws): GameState {
    var cy := HEIGHT / 2;
    var snake := [Point(8, cy), Point(7, cy), Point(6, cy)];
    GameState(snake, RIGHT, Spawned(snake, draws), 0, false)
  }

  /** Steering: only the neck is refused. */
  function Turn(state: GameState, dir: Point): GameState
    requires state.snake != []
  {
    if state.gameOver then state
    else if |state.snake| > 1 && Plus(state.snake[0], dir) == state.snake[1] then state
    else state.(dir := dir)
  }

  function Next(state: GameState): Point
    requires state.snake != []
  {
    Plus(state.snake[0], state.dir)
  }

  predicate Eats(state: GameState)
    requires state.snake != []
  {
    Next(state) == state.food
  }

  /** The segments that stay where they are: the tail leaves its cell unless the snake grows. */
  function Body(state: GameState): seq<Point>
    requires state.snake != []
  {
    if Eats(state) then state.snake else state.snake[..|state.snake| - 1]
  }

  function Step(state: GameState, draws: Draws): GameState
    requires state.snake != []
  {
    if state.gameOver then state
    else if !InBounds(Next(state)) then state.(gameOver := true)
    else if Next(state) in Body(state) then state.(gameOver := true)
    else
      var snake := [Next(state)] + Body(state);
      if Eats(state) then
        state.(snake := snake, score := state.score + 1, food := Spawned(snake, draws))
      else
        state.(snake := snake)
  }

  // ----- The board invariant

  /** Neighbours along a row or a column. */
  predicate Adjacent(p: Point, q: Point) {
    || (p.x == q.x && (p.y == q.y + 1 || q.y == p.y + 1))
    || (p.y == q.y && (p.x == q.x + 1 || q.x == p.x + 1))
  }

  /** The body lies on the board, does not cross itself, and is connected. */
  predicate Legal(snake: seq<Point>) {
    && (forall i :: 0 <= i < |snake| ==> InBounds(snake[i]))
    && Distinct(snake)
    && Connected(snake)
  }

  predicate Connected(snake: seq<Point>) {
    forall i :: 1 <= i < |snake| ==> Adjacent(snake[i], snake[i - 1])
  }

  ghost predicate Valid(s: GameState) {
    && |s.snake| == 3 + s.score
    && Legal(s.snake)
    && Direction(s.dir)
    && InBounds(s.food)
    && (s.food in s.snake ==> |s.snake| == CELLS)
    && (!s.gameOver ==> Next(s) != s.snake[1])
  }

  // ----- Room on the board

  function Index(p: Point): int {
    p.y * WIDTH + p.x
  }

  function Indices(snake: seq<Point>): seq<int> {
    seq(|snake|, i requires 0 <= i < |snake| => Index(snake[i]))
  }

  /** A snake without overlaps never has more segments than the board has cells. */
  lemma SnakeFits(snake: seq<Point>)
    requires Legal(snake)
    ensures |snake| <= CELLS
  {
    DistinctFit(Indices(snake), CELLS);
  }

  /** If every cell is taken, the snake has at least as many segments as the board has cells. */
  lemma TakenBoardIsFull(snake: seq<Point>)
    requires forall i :: 0 <= i < CELLS ==> Cell(i) in snake
    ensures |snake| >= CELLS
  {
    var ids := Indices(snake);
    forall i | 0 <= i < CELLS ensures i in ids {
      assert Cell(i) in snake;
      var k :| 0 <= k < |snake| && snake[k] == Cell(i);
      assert ids[k] == i;
    }
    CoverIsLarge(ids, CELLS);
  }

  lemma {:induction false} FirstFreeSound(snake: seq<Point>, cells: seq<Point>)
    ensures match FirstFree(snake, cells)
            case Some(p) => p in cells && p !in snake
            case None => forall i :: 0 <= i < |cells| ==> cells[i] in snake
  {
    if cells == [] {
    } else {
      FirstFreeSound(snake, cells[1..]);
    }
  }

  /** Food always lands on the board, and on a free cell as long as there is one, whatever was drawn. */
  lemma FoodIsFree(snake: seq<Point>, draws: Draws)
    ensures InBounds(Spawned(snake, draws))
    ensures Spawned(snake, draws) in snake ==> |snake| >= CELLS
  {
    FirstFreeSound(snake, draws);
    FirstFreeSound(snake, BoardCells());
    if FirstFree(snake, BoardCells()).None? {
      forall i | 0 <= i < CELLS ensures Cell(i) in snake {
        assert BoardCells()[i] == Cell(i);
      }
      TakenBoardIsFull(snake);
    }
  }

  // ----- Runs

  /** A key press that steers, or a tick of the game timer with its random draws. */
  datatype Input = Steer(dir: Point) | Tick(draws: Draws)

  ghost predicate Playable(input: Input) {
    input.Steer? ==> Direction(input.dir)
  }

  function React(s: GameState, input: Input): GameState
    requires s.snake != []
  {
    match input
    case Steer(dir) => Turn(s, dir)
    case Tick(draws) => Step(s, draws)
  }

  lemma InitialStateValid(draws: Draws)
    ensures Valid(InitialState(draws))
  {
    var s := InitialState(draws);
    FoodIsFree(s.snake, draws);
    assert Legal(s.snake);
  }

  /** A head that moves to a free neighbouring cell keeps the body legal, whether the tail follows or not. */
  lemma MoveKeepsLegal(snake: seq<Point>, head: Point, kept: nat)
    requires Legal(snake) && 1 <= kept <= |snake|
    requires InBounds(head) && head !in snake[..kept] && Adjacent(snake[0], head)
    ensures Legal([head] + snake[..kept])
  {
    var moved := [head] + snake[..kept];
    forall i | 1 <= i < |moved| ensures Adjacent(moved[i], moved[i - 1]) {
      assert moved[i] == snake[i - 1];
      if i > 1 {
        assert moved[i - 1] == snake[i - 2];
      }
    }
    forall i, j | 0 <= i < j < |moved| ensures moved[i] != moved[j] {
      assert moved[j] == snake[j - 1] && moved[j] in snake[..kept];
      if i > 0 {
        assert moved[i] == snake[i - 1];
      }
    }
  }

  lemma TurnKeepsValid(s: GameState, dir: Point)
    requires Valid(s) && Direction(dir)
    ensures Valid(Turn(s, dir))
  {
  }

  lemma StepKeepsValid(s: GameState, draws: Draws)
    requires Valid(s)
    ensures Valid(Step(s, draws))
  {
    var t := Step(s, draws);
    if !s.gameOver && !t.gameOver {
      var kept := |Body(s)|;
      assert Body(s) == s.snake[..kept];
      MoveKeepsLegal(s.snake, Next(s), kept);
      SnakeFits(t.snake);
      if Eats(s) {
        FoodIsFree(t.snake, draws);
      } else {
        assert s.food in t.snake ==> s.food in s.snake;
      }
    }
  }

  lemma ReactKeepsValid(s: GameState, input: Input)
    requires Valid(s) && Playable(input)
    ensures Valid(React(s, input))
  {
    match input
    case Steer(dir) => TurnKeepsValid(s, dir);
    case Tick(draws) => StepKeepsValid(s, draws);
  }

  ghost function Play(s: GameState, inputs: seq<Input>): (t: GameState)
    requires Valid(s)
    requires forall i :: 0 <= i < |inputs| ==> Playable(inputs[i])
    ensures Valid(t)
    decreases inputs
  {
    if inputs == [] then s
    else
      ReactKeepsValid(s, inputs[0]);
      Play(React(s, inputs[0]), inputs[1..])
  }

  /** Every game, from the initial state on: the board stays legal and the score is the growth. */
  lemma {:induction false} BoardInvariant(draws: Draws, inputs: seq<Input>)
    requires forall i :: 0 <= i < |inputs| ==> Playable(inputs[i])
    ensures Valid(InitialState(draws))
    ensures var s := Play(InitialState(draws), inputs);
            Valid(s) && |s.snake| == 3 + s.score <= CELLS
  {
    InitialStateValid(draws);
    SnakeFits(Play(InitialState(draws), inputs).snake);
  }

  // ----- How a game ends

  /** Along the body the cells alternate in colour, as on a chess board. */
  lemma {:induction false} Colours(snake: seq<Point>, i: nat)
    requires Connected(snake) && i < |snake|
    ensures Colour(snake[i]) == (if i % 2 == 0 then Colour(snake[0]) else 1 - Colour(snake[0]))
  {
    if i == 0 {
    } else {
      Colours(snake, i - 1);
      NeighbourColour(snake[i], snake[i - 1]);
    }
  }

  function Colour(p: Point): int {
    (p.x + p.y) % 2
  }

  lemma NeighbourColour(p: Point, q: Point)
    requires Adjacent(p, q)
    ensures Colour(p) == 1 - Colour(q)
  {
  }

  /**
   A tick ends the game exactly when the head leaves the board, runs into one of its own segments
   other than the vacating tail - never the neck and, by colour, never the one behind it - or
   reaches for food that a full board had no free cell for.
   */
  lemma StepEndsGameIff(s: GameState, draws: Draws)
    requires Valid(s) && !s.gameOver
    ensures Step(s, draws).gameOver <==>
              || !InBounds(Next(s))
              || (exists i :: 3 <= i < |s.snake| - 1 && Next(s) == s.snake[i])
              || (|s.snake| == CELLS && Next(s) == s.food && s.food in s.snake)
    ensures Step(s, draws).gameOver ==> Step(s, draws) == s.(gameOver := true)
  {
    if Next(s) in Body(s) {
      var i :| 0 <= i < |Body(s)| && Body(s)[i] == Next(s);
      assert Next(s) == s.snake[i];
      Colours(s.snake, i);
      NeighbourColour(s.snake[0], Next(s));
      assert i >= 3;
    }
    if i :| 3 <= i < |s.snake| - 1 && Next(s) == s.snake[i] {
      assert Body(s)[i] == Next(s);
    }
  }

  /** A finished game is final. */
  lemma {:induction false} GameOverIsFinal(s: GameState, inputs: seq<Input>)
    requires Valid(s) && s.gameOver
    requires forall i :: 0 <= i < |inputs| ==> Playable(inputs[i])
    ensures Play(s, inputs) == s
    decreases inputs
  {
    if inputs == [] {
    } else {
      GameOverIsFinal(s, inputs[1..]);
    }
  }

  // ----- Steering

  /** A key towards the cell behind the head, or on a finished game. */
  predicate Refused(s: GameState, d: Point)
    requires |s.snake| > 1
  {
    s.gameOver || Point(s.snake[0].x + d.x, s.snake[0].y + d.y) == s.snake[1]
  }

  /**
   A key steers: the next tick that the game survives moves the head one cell that way. A key that is
   refused changes nothing.
   */
  lemma KeySteers(s: GameState, d: Point, draws: Draws)
    requires Valid(s) && Direction(d)
    ensures Refused(s, d) ==> Turn(s, d) == s
    ensures !Refused(s, d) ==>
              var t := Step(Turn(s, d), draws);
              && (t.gameOver <==> Step(s.(dir := d), draws).gameOver)
              && (!t.gameOver ==> t.snake[0] == Point(s.snake[0].x + d.x, s.snake[0].y + d.y))
  {
  }

  /** The direction of the last key that was not refused; `d` if there was none. */
  ghost function Steered(s: GameState, inputs: seq<Input>, d: Point): Point
    requires Valid(s)
    requires forall i :: 0 <= i < |inputs| ==> Playable(inputs[i])
    decreases inputs
  {
    if inputs == [] then d
    else
      ReactKeepsValid(s, inputs[0]);
      var accepted := inputs[0].Steer? && !Refused(s, inputs[0].dir);
      Steered(React(s, inputs[0]), inputs[1..], if accepted then inputs[0].dir else d)
  }

  lemma {:induction false} DirectionIsSteered(s: GameState, inputs: seq<Input>)
    requires Valid(s)
    requires forall i :: 0 <= i < |inputs| ==> Playable(inputs[i])
    ensures Play(s, inputs).dir == Steered(s, inputs, s.dir)
    decreases inputs
  {
    if inputs == [] {
    } else {
      ReactKeepsValid(s, inputs[0]);
      DirectionIsSteered(React(s, inputs[0]), inputs[1..]);
    }
  }

  /** One tick, in coordinates: the head moves by the direction, the body follows, and food makes it grow. */
  lemma TickMoves(s: GameState, draws: Draws)
    requires Valid(s) && !s.gameOver
    ensures var t, head := Step(s, draws), Point(s.snake[0].x + s.dir.x, s.snake[0].y + s.dir.y);
            !t.gameOver ==>
              && t.dir == s.dir
              && (if head == s.food then t.snake == [head] + s.snake && t.score == s.score + 1
                  else t.snake == [head] + s.snake[..|s.snake| - 1] && t.score == s.score && t.food == s.food)
  {
  }

  /**
   Every tick of every game that does not end it moves the head one cell in the direction of the last key
   that was not refused - to the right, before there was any - and the body follows.
   */
  lemma EveryTickFollowsKeys(draws: Draws, inputs: seq<Input>, more: Draws)
    requires forall i :: 0 <= i < |inputs| ==> Playable(inputs[i])
    ensures Valid(InitialState(draws))
    ensures var start := InitialState(draws);
            var s, d := Play(start, inputs), Steered(start, inputs, Point(1, 0));
            var t := Step(s, more);
            !t.gameOver ==>
              && t.snake[0] == Point(s.snake[0].x + d.x, s.snake[0].y + d.y)
              && t.snake[1..] == s.snake[..|t.snake| - 1]
              && t.score == s.score + if t.snake[0] == s.food then 1 else 0
  {
    InitialStateValid(draws);
    var s := Play(InitialState(draws), inputs);
    DirectionIsSteered(InitialState(draws), inputs);
    if !s.gameOver {
      TickMoves(s, more);
    }
  }

  // ----- Where the food goes

  /** The first free cell of a list is taken: everything before it is under the snake. */
  lemma {:induction false} FirstFreeIsFirst(snake: seq<Point>, cells: seq<Point>, i: nat)
    requires i < |cells| && cells[i] !in snake && forall k :: 0 <= k < i ==> cells[k] in snake
    ensures FirstFree(snake, cells) == Some(cells[i])
    decreases cells
  {
    if i == 0 {
    } else {
      FirstFreeIsFirst(snake, cells[1..], i - 1);
    }
  }

  /** Food goes where the first draw that is off the snake says. */
  lemma FirstFreeDrawIsTaken(snake: seq<Point>, draws: Draws, i: nat)
    requires i < |draws| && draws[i] !in snake && forall k :: 0 <= k < i ==> draws[k] in snake
    ensures Spawned(snake, draws) == draws[i]
  {
    FirstFreeIsFirst(snake, draws, i);
  }

  /** If every draw hits the snake, food goes to the first free cell row by row, from the top left. */
  lemma ScanTakesFirstRowFirst(snake: seq<Point>, draws: Draws, x: nat, y: nat)
    requires x < WIDTH && y < HEIGHT && Point(x, y) !in snake
    requires forall k :: 0 <= k < |draws| ==> draws[k] in snake
    requires forall p: Point :: InBounds(p) && (p.y < y || (p.y == y && p.x < x)) ==> p in snake
    ensures Spawned(snake, draws) == Point(x, y)
  {
    FirstFreeSound(snake, draws);
    BoardCellAt(x, y);
    var i := y * WIDTH + x;
    forall k | 0 <= k < i ensures BoardCells()[k] in snake {
      assert InBounds(Cell(k));
    }
    FirstFreeIsFirst(snake, BoardCells(), i);
  }
}
