/** Board geometry of the snake game: cells, headings, one-cell moves and the
    range of food placement. Coordinates are pixels on a square canvas; every
    cell the game uses starts at a multiple of the cell size. */
module Grid {

  /** Side of one cell, in pixels (`box`). */
  const Box: int := 20

  /** Side of the square canvas, in pixels (`canvasSize`). */
  const CanvasSize: int := 400

  /** Number of cells along one side of the board. */
  const Cells: int := CanvasSize / Box

  /** The top-left pixel of a cell. */
  datatype Cell = Cell(x: int, y: int)

  /** A heading. The canvas y axis points down, so Up decreases y. */
  datatype Direction = Up | Down | Left | Right

  predicate Horizontal(d: Direction) {
    d == Left || d == Right
  }

  /** The heading that points the other way along the same axis. */
  function Opposite(d: Direction): (r: Direction)
    ensures r != d
    ensures Horizontal(r) == Horizontal(d)
  {
    match d
    case Up => Down
    case Down => Up
    case Left => Right
    case Right => Left
  }

  lemma OppositeIsInvolution(d: Direction)
    ensures Opposite(Opposite(d)) == d
  {
  }

  function Abs(n: int): nat {
    if n < 0 then -n else n
  }

  /** The cell one step of `Box` pixels away from `c` in heading `d`. */
  function Move(c: Cell, d: Direction): (r: Cell)
    ensures Horizontal(d) ==> r.y == c.y && Abs(r.x - c.x) == Box
    ensures !Horizontal(d) ==> r.x == c.x && Abs(r.y - c.y) == Box
    ensures (d == Left || d == Up) <==> r.x + r.y < c.x + c.y
  {
    match d
    case Left => Cell(c.x - Box, c.y)
    case Up => Cell(c.x, c.y - Box)
    case Right => Cell(c.x + Box, c.y)
    case Down => Cell(c.x, c.y + Box)
  }

  /** Moving back to where one came from takes exactly the opposite heading. */
  lemma MoveBackIffOpposite(c: Cell, d: Direction, e: Direction)
    ensures Move(Move(c, d), e) == c <==> e == Opposite(d)
  {
  }

  /** The wall test: a pixel position inside the canvas on both axes. */
  predicate InBounds(c: Cell) {
    0 <= c.x < CanvasSize && 0 <= c.y < CanvasSize
  }

  /** A cell of the board: inside the canvas and aligned to the cell size. */
  predicate OnGrid(c: Cell) {
    InBounds(c) && c.x % Box == 0 && c.y % Box == 0
  }

  /** A move from a board cell that passes the wall test lands on a board cell. */
  lemma MoveStaysAligned(c: Cell, d: Direction)
    requires OnGrid(c) && InBounds(Move(c, d))
    ensures OnGrid(Move(c, d))
  {
  }

  /** The food cell for the two draws `i` and `j` of `Math.floor(Math.random() * Cells)`. */
  function FoodCell(i: int, j: int): (r: Cell)
    requires 0 <= i < Cells && 0 <= j < Cells
    ensures OnGrid(r)
  {
    Cell(i * Box, j * Box)
  }

  /** Different draws give different cells ... */
  lemma FoodCellInjective(i: int, j: int, k: int, l: int)
    requires 0 <= i < Cells && 0 <= j < Cells
    requires 0 <= k < Cells && 0 <= l < Cells
    ensures FoodCell(i, j) == FoodCell(k, l) ==> i == k && j == l
  {
  }

  /** ... and every board cell is drawn by exactly one pair, so food placement
      ranges over exactly the board cells, each with the same chance. */
  lemma FoodCellCoversGrid(c: Cell)
    requires OnGrid(c)
    ensures 0 <= c.x / Box < Cells && 0 <= c.y / Box < Cells
    ensures FoodCell(c.x / Box, c.y / Box) == c
  {
  }
}
