/** The game-state machine of the snake game: the speed ramp, the arrow-key
    rule, the body collision scan, and the game object whose `Step` is one
    tick of the simulation timer. */
module Snake {
  import opened Grid

  /** The cell the snake starts on: column 9, row 10. */
  const StartCell: Cell := Cell(9 * Box, 10 * Box)

  /** Tick period at the start of a game, in milliseconds. */
  const BaseMoveInterval: int := 100

  /** Fastest tick period (`minMoveInterval`). */
  const MinMoveInterval: int := 40

  /** Milliseconds taken off the tick period per level. */
  const SpeedStep: int := 8

  /** Points per speed level. */
  const PointsPerLevel: int := 3

  /** Score from which the tick period stays at its minimum. */
  const FloorScore: int := 24

  /** What one tick did. `speedChanged` on `Ate` says that the tick period
      changed, so the timer was re-armed with the new period. */
  datatype StepResult = GameOver | Ate(speedChanged: bool) | Moved

  function Max(a: int, b: int): int {
    if a < b then b else a
  }

  /** The tick period for a score: one `SpeedStep` faster per completed
      `PointsPerLevel` points, never faster than `MinMoveInterval`. */
  function MoveInterval(score: nat): (r: int)
    ensures MinMoveInterval <= r <= BaseMoveInterval
    ensures score < PointsPerLevel ==> r == BaseMoveInterval
  {
    Max(MinMoveInterval, BaseMoveInterval - (score / PointsPerLevel) * SpeedStep)
  }

  /** A higher score never gives a slower game. */
  lemma MoveIntervalAntitone(a: nat, b: nat)
    requires a <= b
    ensures MoveInterval(b) <= MoveInterval(a)
  {
  }

  /** The period is at its minimum exactly from `FloorScore` on. */
  lemma MoveIntervalFloor(score: nat)
    ensures MoveInterval(score) == MinMoveInterval <==> score >= FloorScore
  {
  }

  /** Gaining one point changes the period exactly when the new score
      completes a level and the minimum has not been passed; the change is
      then a decrease. */
  lemma MoveIntervalChangesAt(score: nat)
    requires score >= 1
    ensures MoveInterval(score) != MoveInterval(score - 1)
            <==> score % PointsPerLevel == 0 && score <= FloorScore
    ensures MoveInterval(score) != MoveInterval(score - 1)
            ==> MoveInterval(score) < MoveInterval(score - 1)
  {
  }

  /** The `KeyboardEvent.key` name of the arrow key for a heading. */
  function KeyFor(d: Direction): string {
    match d
    case Left => "ArrowLeft"
    case Up => "ArrowUp"
    case Right => "ArrowRight"
    case Down => "ArrowDown"
  }

  /** The buffered heading after a key press: an arrow key is taken unless it
      points against the heading already applied, `current`; any other key,
      and a refused arrow, leave `pending` as it was. The four tests run in
      sequence, as in the handler. */
  function Steer(key: string, current: Direction, pending: Direction): (r: Direction)
    ensures r == pending || (key == KeyFor(r) && r != Opposite(current))
    ensures forall d :: key == KeyFor(d) && d != Opposite(current) ==> r == d
  {
    var afterLeft := if key == "ArrowLeft" && current != Right then Left else pending;
    var afterUp := if key == "ArrowUp" && current != Down then Up else afterLeft;
    var afterRight := if key == "ArrowRight" && current != Left then Right else afterUp;
    if key == "ArrowDown" && current != Up then Down else afterRight
  }

  /** A key press never buffers a reversal of the applied heading: the
      buffered heading only ever points against `current` if it already did. */
  lemma SteerNeverReverses(key: string, current: Direction, pending: Direction)
    ensures Steer(key, current, pending) == Opposite(current) ==> pending == Opposite(current)
  {
  }

  /** Whether `head` equals some cell of `cells`: a front-to-back scan that
      stops at the first match. */
  method Collision(head: Cell, cells: seq<Cell>) returns (hit: bool)
    ensures hit <==> head in cells
  {
    var i := 0;
    while i < |cells|
      invariant 0 <= i <= |cells|
      invariant forall k :: 0 <= k < i ==> cells[k] != head
    {
      if cells[i] == head {
        return true;
      }
      i := i + 1;
    }
    return false;
  }

  ghost predicate AllOnGrid(s: seq<Cell>) {
    forall k :: 0 <= k < |s| ==> OnGrid(s[k])
  }

  ghost predicate Distinct(s: seq<Cell>) {
    forall i, j :: 0 <= i < j < |s| ==> s[i] != s[j]
  }

  /** Putting a new cell in front of distinct board cells, possibly after
      dropping the tail, keeps them distinct board cells. */
  lemma PushFrontKeepsBody(head: Cell, body: seq<Cell>, keep: nat)
    requires keep <= |body|
    requires OnGrid(head) && head !in body
    requires AllOnGrid(body) && Distinct(body)
    ensures AllOnGrid([head] + body[..keep]) && Distinct([head] + body[..keep])
  {
  }

  /** While the snake is running and has a neck, no heading the game accepts
      turns the head back onto the neck. */
  lemma NeckIsNeverHit(body: seq<Cell>, applied: Direction, next: Direction)
    requires |body| >= 2 && body[0] == Move(body[1], applied)
    requires next != Opposite(applied)
    ensures Move(body[0], next) != body[1]
  {
  }

  /** The state of one game session. `running` stands for the step timer
      being armed. */
  class Game {
    var snake: seq<Cell>
    var direction: Direction
    var nextDirection: Direction
    var food: Cell
    var score: nat
    var moveInterval: int
    var running: bool

    /** The invariant every reachable state keeps. */
    ghost predicate Valid()
      reads this
    {
      |snake| == score + 1
      && AllOnGrid(snake) && Distinct(snake)
      && OnGrid(food)
      && moveInterval == MoveInterval(score)
      && nextDirection != Opposite(direction)
      && (running && |snake| >= 2 ==> snake[0] == Move(snake[1], direction))
    }

    /** Loading the game: the initial declarations followed by a first
        `StartGame`; `firstFood` is the food that call draws. */
    constructor (firstFood: Cell)
      requires OnGrid(firstFood)
      ensures Valid()
      ensures snake == [StartCell] && food == firstFood && score == 0
      ensures direction == Right && nextDirection == Right
      ensures moveInterval == BaseMoveInterval && running
    {
      new;
      StartGame(firstFood);
    }

    /** Starting (or restarting) a session: one cell at `StartCell` heading
        right, the given food, score 0, the base tick period, timer armed. */
    method StartGame(newFood: Cell)
      requires OnGrid(newFood)
      modifies this
      ensures Valid()
      ensures snake == [StartCell] && food == newFood && score == 0
      ensures direction == Right && nextDirection == Right
      ensures moveInterval == BaseMoveInterval && running
    {
      direction := Right;
      nextDirection := Right;
      snake := [StartCell];
      food := newFood;
      score := 0;
      moveInterval := BaseMoveInterval;
      running := true;
    }

    /** The arrow-key handler: buffers a heading for the next tick. */
    method KeyDown(key: string)
      requires Valid()
      modifies this`nextDirection
      ensures Valid()
      ensures nextDirection == Steer(key, direction, old(nextDirection))
      ensures nextDirection != Opposite(direction)
    {
      nextDirection := Steer(key, direction, nextDirection);
    }

    /** One tick. The buffered heading is applied and the head moves one cell.
        The game ends when that cell is off the canvas or is any cell of the
        body before the move, tail included; nothing but the heading and the
        timer changes then. Otherwise the head is pushed in front: on the food
        the body keeps its tail, the score rises by one, `newFood` becomes the
        food and the tick period is recomputed; elsewhere the tail is dropped. */
    method Step(newFood: Cell) returns (r: StepResult)
      requires Valid()
      requires OnGrid(newFood)
      modifies this
      ensures Valid()
      ensures direction == old(nextDirection) && nextDirection == old(nextDirection)
      ensures r == GameOver
              <==> !InBounds(Move(old(snake[0]), direction))
                   || Move(old(snake[0]), direction) in old(snake)
      ensures r == GameOver
              ==> snake == old(snake) && food == old(food) && score == old(score)
                  && moveInterval == old(moveInterval) && !running
      ensures r.Ate? <==> r != GameOver && Move(old(snake[0]), direction) == old(food)
      ensures r.Ate?
              ==> snake == [Move(old(snake[0]), direction)] + old(snake)
                  && score == old(score) + 1 && food == newFood
                  && moveInterval == MoveInterval(score) && running == old(running)
                  && (r.speedChanged <==> moveInterval != old(moveInterval))
                  && (r.speedChanged <==> score % PointsPerLevel == 0 && score <= FloorScore)
      ensures r == Moved
              ==> snake == [Move(old(snake[0]), direction)] + old(snake)[..|old(snake)| - 1]
                  && score == old(score) && food == old(food)
                  && moveInterval == old(moveInterval) && running == old(running)
      ensures old(running) && |old(snake)| >= 2 ==> Move(old(snake[0]), direction) != old(snake[1])
    {
      if running && |snake| >= 2 {
        NeckIsNeverHit(snake, direction, nextDirection);
      }
      direction := nextDirection;
      var head := Move(snake[0], direction);
      var hit := false;
      if InBounds(head) {
        hit := Collision(head, snake);
      }
      if !InBounds(head) || hit {
        running := false;
        return GameOver;
      }
      MoveStaysAligned(snake[0], direction);
      if head == food {
        PushFrontKeepsBody(head, snake, |snake|);
        MoveIntervalChangesAt(score + 1);
        score := score + 1;
        food := newFood;
        var newInterval := MoveInterval(score);
        var changed := newInterval != moveInterval;
        if changed {
          moveInterval := newInterval;
        }
        assert snake[..|snake|] == snake;
        snake := [head] + snake;
        r := Ate(changed);
      } else {
        PushFrontKeepsBody(head, snake, |snake| - 1);
        snake := snake[..|snake| - 1];
        snake := [head] + snake;
        r := Moved;
      }
    }
  }
}
