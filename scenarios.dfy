/** Concrete games played through the `Snake.Game` interface. Each method's
    postcondition pins what the contracts alone say happens. */
module Scenarios {
  import opened Grid
  import opened Snake

  /** From the start position heading right with food on the next cell, one
      tick eats: the body grows to two cells and the score is 1. */
  method EatRightAfterStart() returns (r: StepResult, body: seq<Cell>, points: nat)
    ensures r == Ate(false)
    ensures body == [Cell(200, 200), Cell(180, 200)] && points == 1
  {
    var g := new Game(Cell(200, 200));
    r := g.Step(Cell(0, 0));
    body, points := g.snake, g.score;
  }

  /** A three-cell snake heading left, no food ahead: the head moves one cell
      left and the tail cell is dropped. */
  method MoveLeftDropsTail() returns (r: StepResult, body: seq<Cell>)
    ensures r == Moved
    ensures body == [Cell(80, 100), Cell(100, 100), Cell(120, 100)]
  {
    var g := new Game(Cell(0, 0));
    g.snake := [Cell(100, 100), Cell(120, 100), Cell(140, 100)];
    g.score := 2;
    g.direction, g.nextDirection := Left, Left;
    r := g.Step(Cell(0, 0));
    body := g.snake;
  }

  /** Pressing the key that reverses the heading is ignored: the snake keeps
      going right. */
  method ReverseKeyIsIgnored() returns (r: StepResult, head: Cell)
    ensures r == Moved && head == Cell(200, 200)
  {
    var g := new Game(Cell(0, 0));
    g.KeyDown("ArrowLeft");
    r := g.Step(Cell(0, 0));
    head := g.snake[0];
  }

  /** Eat three times, then turn up, left and down: the head comes back to
      the cell the tail is about to leave, and the game is over, because the
      tail still counts as body when the new head is tested. The third point
      makes the game faster. */
  method TailChaseEndsGame() returns (third: StepResult, last: StepResult, points: nat)
    ensures third == Ate(true) && last == GameOver && points == 3
  {
    var g := new Game(Cell(200, 200));
    var r := g.Step(Cell(220, 200));
    assert r.Ate? && g.snake == [Cell(200, 200), Cell(180, 200)];
    r := g.Step(Cell(240, 200));
    assert r.Ate? && g.snake == [Cell(220, 200), Cell(200, 200), Cell(180, 200)];
    third := g.Step(Cell(0, 0));
    assert g.snake == [Cell(240, 200), Cell(220, 200), Cell(200, 200), Cell(180, 200)];
    g.KeyDown("ArrowUp");
    r := g.Step(Cell(0, 0));
    assert r == Moved && g.snake == [Cell(240, 180), Cell(240, 200), Cell(220, 200), Cell(200, 200)];
    g.KeyDown("ArrowLeft");
    r := g.Step(Cell(0, 0));
    assert r == Moved && g.snake == [Cell(220, 180), Cell(240, 180), Cell(240, 200), Cell(220, 200)];
    g.KeyDown("ArrowDown");
    last := g.Step(Cell(0, 0));
    points := g.score;
  }
}
