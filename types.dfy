/** The entities of the simulation: the player (pacman), the four pursuers
    (ghosts), the cells of the contribution grid, and the small value types
    (points, unit moves, directions) they are built from. */
module Types {

  datatype Option<+T> = None | Some(value: T)

  datatype Direction = Up | Down | Left | Right

  datatype Point = Point(x: int, y: int)

  /** A move as the source writes it, the pair [dx, dy]. */
  datatype Move = Move(dx: int, dy: int)

  /** The contribution level of a cell; `Empty` is the source's 'NONE'. */
  datatype Level = Empty | FirstQuartile | SecondQuartile | ThirdQuartile | FourthQuartile

  /** One cell of the pellet grid (`store.grid`). */
  datatype Cell = Cell(commitsCount: int, level: Level)

  /** The pellet grid, indexed grid[y][x] (a sequence of rows). */
  type Grid = seq<seq<Cell>>

  datatype Pacman = Pacman(
    x: int,
    y: int,
    direction: Direction,
    points: int,
    totalPoints: int,
    deadRemainingDuration: int,
    powerupRemainingDuration: int,
    recentPositions: seq<Point>)

  /** A ghost's name; `Eyes` is the name an eaten ghost carries until it respawns. */
  datatype GhostName = Blinky | Inky | Pinky | Clyde | Eyes

  datatype Ghost = Ghost(
    x: int,
    y: int,
    name: GhostName,
    direction: Direction,
    scared: bool,
    target: Option<Point>,
    inHouse: bool,
    respawnCounter: int,
    freezeCounter: int,
    justReleasedFromHouse: bool,
    originalName: Option<GhostName>)
}
