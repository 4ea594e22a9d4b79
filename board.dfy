/** Geometry of the maze: the grid dimensions, which cells can be walked on,
    unit moves and the directions they correspond to, and the cell lookups
    the tick loop uses. */
module Board {
  import opened Types

  /** A grid dimension (GRID_WIDTH, GRID_HEIGHT): a positive constant. */
  type Dim = n: int | n > 0 witness 1

  /** The contribution grid that decides where ghosts may walk, indexed
      counts[y][x], together with the grid dimensions. */
  datatype Maze = Maze(width: Dim, height: Dim, counts: seq<seq<int>>)

  predicate InBounds(m: Maze, x: int, y: int) {
    0 <= x < m.width && 0 <= y < m.height
  }

  /** A cell can be walked on when it lies in the grid and has a positive count. */
  predicate Passable(m: Maze, x: int, y: int) {
    InBounds(m, x, y) && y < |m.counts| && x < |m.counts[y]| && m.counts[y][x] > 0
  }

  /** Every in-bounds cell, the finite universe the path search works in. */
  function Cells(m: Maze): set<Point> {
    set x: int, y: int | 0 <= x < m.width && 0 <= y < m.height :: Point(x, y)
  }

  lemma PassableInCells(m: Maze, x: int, y: int)
    requires Passable(m, x, y)
    ensures Point(x, y) in Cells(m)
  {
    assert InBounds(m, x, y);
  }

  /** The unit move of a direction; it is also the source's getPacmanDirection. */
  function Delta(d: Direction): (r: Move)
    ensures IsUnit(r)
    ensures (r.dx == 0) != (r.dy == 0)
  {
    match d
    case Right => Move(1, 0)
    case Left => Move(-1, 0)
    case Down => Move(0, 1)
    case Up => Move(0, -1)
  }

  predicate IsUnit(mv: Move) {
    mv == Move(1, 0) || mv == Move(-1, 0) || mv == Move(0, 1) || mv == Move(0, -1)
  }

  /** up and down, left and right are opposite: the opposite of a direction
      is another direction whose unit move points the other way. */
  function Opposite(d: Direction): (r: Direction)
    ensures r != d
    ensures Delta(r) == Move(-Delta(d).dx, -Delta(d).dy)
  {
    match d
    case Up => Down
    case Down => Up
    case Left => Right
    case Right => Left
  }

  lemma OppositeIsInvolution(d: Direction)
    ensures Opposite(Opposite(d)) == d
  {
  }

  /** The direction a move points in, checked in the order dx > 0, dx < 0,
      dy > 0, dy < 0; a zero move keeps `fallback`. */
  function DirectionOf(mv: Move, fallback: Direction): (r: Direction)
    ensures IsUnit(mv) ==> Delta(r) == mv
    ensures mv == Move(0, 0) ==> r == fallback
  {
    if mv.dx > 0 then Right
    else if mv.dx < 0 then Left
    else if mv.dy > 0 then Down
    else if mv.dy < 0 then Up
    else fallback
  }

  /** Whether a move would turn a ghost facing `d` around. */
  predicate IsReversal(d: Direction, mv: Move) {
    (d == Right && mv.dx < 0) || (d == Left && mv.dx > 0) || (d == Up && mv.dy > 0) || (d == Down && mv.dy < 0)
  }

  /** On unit moves, a reversal is exactly the move of the opposite direction. */
  lemma ReversalIsOppositeMove(d: Direction, mv: Move)
    requires IsUnit(mv)
    ensures IsReversal(d, mv) <==> mv == Delta(Opposite(d))
  {
  }

  /** The unit moves whose flag is set, in the order right, left, down, up. */
  function Neighbours(right: bool, left: bool, down: bool, up: bool): seq<Move> {
    (if right then [Move(1, 0)] else []) + (if left then [Move(-1, 0)] else [])
    + (if down then [Move(0, 1)] else []) + (if up then [Move(0, -1)] else [])
  }

  lemma NeighboursShape(right: bool, left: bool, down: bool, up: bool)
    ensures forall mv :: mv in Neighbours(right, left, down, up) <==>
      (right && mv == Move(1, 0)) || (left && mv == Move(-1, 0))
      || (down && mv == Move(0, 1)) || (up && mv == Move(0, -1))
    ensures var r := Neighbours(right, left, down, up);
            forall i, j :: 0 <= i < j < |r| ==> r[i] != r[j]
  {
  }

  /** The moves from (x, y) onto a passable neighbour, in the order right,
      left, down, up. */
  function ValidMoves(m: Maze, x: int, y: int): (r: seq<Move>)
    ensures forall d: Direction :: Delta(d) in r <==> Passable(m, x + Delta(d).dx, y + Delta(d).dy)
    ensures forall mv :: mv in r ==> IsUnit(mv) && Passable(m, x + mv.dx, y + mv.dy)
    ensures forall i, j :: 0 <= i < j < |r| ==> r[i] != r[j]
  {
    var right, left := Passable(m, x + 1, y), Passable(m, x - 1, y);
    var down, up := Passable(m, x, y + 1), Passable(m, x, y - 1);
    NeighboursShape(right, left, down, up);
    assert forall d: Direction :: Delta(d) in [Move(1, 0), Move(-1, 0), Move(0, 1), Move(0, -1)];
    Neighbours(right, left, down, up)
  }

  /** Math.min(Math.max(v, lo), hi). */
  function Clamp(v: int, lo: int, hi: int): (r: int)
    ensures lo <= hi ==> lo <= r <= hi
    ensures lo <= v <= hi ==> r == v
    ensures lo <= hi && v < lo ==> r == lo
    ensures lo <= hi && hi < v ==> r == hi
  {
    var low := if v < lo then lo else v;
    if low < hi then low else hi
  }

  function Abs(v: int): nat {
    if v < 0 then -v else v
  }

  /** The distance between two cells, counted in unit moves. */
  function Manhattan(x1: int, y1: int, x2: int, y2: int): nat {
    Abs(x1 - x2) + Abs(y1 - y2)
  }

  /** The pellet-grid cell at column x, row y, if the grid has one. */
  function CellAt(grid: Grid, x: int, y: int): (r: Option<Cell>)
    ensures r.Some? <==> 0 <= y < |grid| && 0 <= x < |grid[y]|
    ensures r.Some? ==> r.value == grid[y][x]
  {
    if 0 <= y < |grid| && 0 <= x < |grid[y]| then Some(grid[y][x]) else None
  }

  /** The pellet grid has the maze's dimensions: `height` rows of `width` cells. */
  predicate Rectangular(grid: Grid, width: int, height: int) {
    |grid| == height && forall y :: 0 <= y < |grid| ==> |grid[y]| == width
  }
}
