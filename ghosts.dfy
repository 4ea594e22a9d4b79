/** Ghost behaviour (src/movement/ghosts-movement.ts): the scatter/chase mode
    clock, the per-ghost state machine (in the house, released, respawning,
    scared, eyes returning home, scatter and chase), the personality targets,
    and the per-frame loop that moves every ghost.

    Each ghost is a record; a per-ghost routine returns the updated record and
    the loops store it back at the ghost's index. The module-level variables
    currentMode, modeTimer and dotsRemaining are the fields of a ModeState
    object. Every call of Math.random is one field of a Draws value, drawn per
    ghost; the collaborator findNextStepDijkstra is the `dijkstra` field. */
module GhostsMovement {
  import opened Types
  import opened Board
  import opened Pathfinding

  datatype Mode = Scatter | Chase

  /** The scatter and chase durations, 7 and 20 seconds, at 1000 / 200 frames
      per second. */
  const ScatterModeDuration := 7
  const ChaseModeDuration := 20
  const FramesPerSecond := 1000 / 200

  /** The door column of the ghost house and the cell eyes return to. */
  const DoorX := 26
  const DoorY := 2
  const Respawn := Point(26, 3)

  /** The band a ghost bobs in while it waits in the house. */
  const TopWall := 3
  const BottomWall := 4

  /** How far a scared ghost's random destination may lie from it. */
  const MaxDistance := 8

  /** A draw of Math.floor(Math.random() * (2 * MaxDistance + 1)). */
  type Roll = n: int | 0 <= n < 2 * MaxDistance + 1

  /** The random draws and the Dijkstra answer one ghost's move may use:
      destX and destY pick a scared ghost's destination, `wander` is the 50%
      draw that ignores the destination, `pick` selects among the candidate
      moves, `slow` is the 60% draw that holds a scared ghost still during a
      power-up, `fallback` selects the search's random move, and `dijkstra` is
      findNextStepDijkstra's next cell toward the house. */
  datatype Draws = Draws(destX: Roll, destY: Roll, wander: bool, pick: nat, slow: bool,
                         fallback: nat, dijkstra: Option<Point>)

  /* ---------- the mode clock ---------- */

  /** The mode clock: currentMode and modeTimer. */
  datatype ModeClock = ModeClock(mode: Mode, timer: int)

  /** The number of frames a mode lasts. */
  function Threshold(mode: Mode): (r: int)
    ensures r == (if mode == Scatter then 35 else 100)
  {
    (if mode == Scatter then ScatterModeDuration else ChaseModeDuration) * FramesPerSecond
  }

  function Other(mode: Mode): Mode {
    if mode == Scatter then Chase else Scatter
  }

  /** Whether updateGameMode switches the mode this frame. */
  predicate Flips(c: ModeClock, powerup: int) {
    powerup <= 0 && c.timer + 1 >= Threshold(c.mode)
  }

  /** The clock after updateGameMode: frozen during a power-up, otherwise one
      frame later, switching mode and restarting at the threshold. */
  function NextClock(c: ModeClock, powerup: int): (r: ModeClock)
    ensures powerup > 0 ==> r == c
    ensures powerup <= 0 && !Flips(c, powerup) ==> r == ModeClock(c.mode, c.timer + 1)
    ensures Flips(c, powerup) ==> r.mode != c.mode && r.timer == 0
    ensures 0 <= c.timer < Threshold(c.mode) ==> 0 <= r.timer < Threshold(r.mode)
  {
    if powerup > 0 then c
    else if c.timer + 1 >= Threshold(c.mode) then ModeClock(Other(c.mode), 0)
    else ModeClock(c.mode, c.timer + 1)
  }

  /** From a fresh clock, the mode switches after exactly 35 frames without a
      power-up, and never earlier. */
  lemma {:induction false} ScatterLastsThirtyFiveFrames(n: nat)
    requires n <= 35
    ensures var c := Clocks(ModeClock(Scatter, 0), n);
            if n < 35 then c == ModeClock(Scatter, n) else c == ModeClock(Chase, 0)
  {
    if n > 0 {
      ScatterLastsThirtyFiveFrames(n - 1);
    }
  }

  /** The clock after n frames without a power-up. */
  function Clocks(c: ModeClock, n: nat): ModeClock {
    if n == 0 then c else NextClock(Clocks(c, n - 1), 0)
  }

  /** A ghost the mode switch turns around: out of the house, not eyes and not
      scared. */
  predicate Eligible(g: Ghost) {
    !g.inHouse && g.name != Eyes && !g.scared
  }

  /** reverseDirection: up and down, left and right are swapped. */
  function ReverseDirection(g: Ghost): (r: Ghost)
    ensures r.direction == Opposite(g.direction) && r.direction != g.direction
    ensures r == g.(direction := r.direction)
  {
    g.(direction := Opposite(g.direction))
  }

  /** The ghosts after a mode switch: exactly the eligible ones change
      direction, to the opposite one, and nothing else about any ghost changes. */
  function ReverseEligible(gs: seq<Ghost>): (r: seq<Ghost>)
    ensures |r| == |gs|
    ensures forall i :: 0 <= i < |gs| ==>
              r[i] == gs[i].(direction := r[i].direction)
              && (r[i].direction != gs[i].direction <==> Eligible(gs[i]))
              && (Eligible(gs[i]) ==> r[i].direction == Opposite(gs[i].direction))
  {
    seq(|gs|, i requires 0 <= i < |gs| => if Eligible(gs[i]) then ReverseDirection(gs[i]) else gs[i])
  }

  /** Reversing twice gives the ghosts back: eligibility does not depend on the
      direction. */
  lemma ReverseEligibleTwice(gs: seq<Ghost>)
    ensures ReverseEligible(ReverseEligible(gs)) == gs
  {
    var r := ReverseEligible(gs);
    forall i | 0 <= i < |gs|
      ensures ReverseEligible(r)[i] == gs[i]
    {
      OppositeIsInvolution(gs[i].direction);
    }
  }

  /* ---------- the ghost house ---------- */

  /** The bobbing of a ghost that waits in the house: it is turned at the
      walls, steps one row, and is put back when it leaves the band. */
  function Bob(g: Ghost): (r: Ghost)
    ensures r.y == TopWall && r.x == g.x
    ensures r == g.(y := r.y, direction := r.direction)
  {
    var d1 := if g.direction == Up && g.y <= TopWall then Down
              else if g.direction == Down && g.y >= BottomWall - 1 then Up
              else g.direction;
    var y1 := if g.direction == Up && g.y <= TopWall then TopWall
              else if g.direction == Down && g.y >= BottomWall - 1 then BottomWall - 1
              else g.y;
    var y2 := if d1 == Up then y1 - 1 else y1 + 1;
    if y2 < TopWall || y2 >= BottomWall then
      g.(y := if d1 == Up then TopWall else BottomWall - 1, direction := if d1 == Up then Down else Up)
    else
      g.(y := y2, direction := d1)
  }

  /** moveGhostInHouse: a released ghost walks to the door column and leaves
      through the door; a respawning ghost counts down and takes back its name;
      any other ghost bobs. */
  function MoveGhostInHouse(g: Ghost, powerup: int): (r: Ghost)
    ensures g.justReleasedFromHouse && g.x == DoorX ==>
              r == g.(y := DoorY, direction := Up, inHouse := false, justReleasedFromHouse := false)
    ensures g.justReleasedFromHouse && g.x != DoorX ==>
              Abs(r.x - DoorX) == Abs(g.x - DoorX) - 1 && r.y == g.y && r.inHouse == g.inHouse
              && r.justReleasedFromHouse
              && r.direction == (if g.x < DoorX then Right else Left)
    ensures g.justReleasedFromHouse && g.x != DoorX ==>
              r == g.(x := if g.x < DoorX then g.x + 1 else g.x - 1, direction := r.direction)
    ensures !g.justReleasedFromHouse && g.respawnCounter > 0 ==>
              r.respawnCounter == g.respawnCounter - 1 && r.x == g.x && r.y == g.y
              && (r.inHouse <==> g.inHouse && !(r.respawnCounter == 0 && g.originalName.Some?))
              && (r.respawnCounter == 0 && g.originalName.Some? ==> r.name == g.originalName.value && r.scared == (powerup > 0))
    ensures !g.justReleasedFromHouse && g.respawnCounter > 0 ==>
              r == g.(respawnCounter := r.respawnCounter, inHouse := r.inHouse, name := r.name, scared := r.scared)
              && (r.respawnCounter != 0 || g.originalName.None? ==> r.name == g.name && r.scared == g.scared)
    ensures !g.justReleasedFromHouse && g.respawnCounter <= 0 ==>
              r.y == TopWall && r == g.(y := r.y, direction := r.direction)
  {
    if g.justReleasedFromHouse then
      if g.x == DoorX then g.(y := DoorY, direction := Up, inHouse := false, justReleasedFromHouse := false)
      else if g.x < DoorX then g.(x := g.x + 1, direction := Right)
      else g.(x := g.x - 1, direction := Left)
    else if g.respawnCounter > 0 then
      var c := g.respawnCounter - 1;
      if c == 0 && g.originalName.Some? then
        g.(respawnCounter := c, name := g.originalName.value, inHouse := false, scared := powerup > 0)
      else g.(respawnCounter := c)
    else Bob(g)
  }

  /** The ghost after n frames of house logic. */
  function InHouseFrames(g: Ghost, powerup: int, n: nat): Ghost
    decreases n
  {
    if n == 0 then g else InHouseFrames(MoveGhostInHouse(g, powerup), powerup, n - 1)
  }

  /** A released ghost in the house leaves it after exactly one frame more
      than its distance to the door column, standing in the doorway facing up. */
  lemma {:induction false} ReleasedGhostLeaves(g: Ghost, powerup: int)
    requires g.justReleasedFromHouse && g.inHouse
    ensures var r := InHouseFrames(g, powerup, Abs(g.x - DoorX) + 1);
            !r.inHouse && r.x == DoorX && r.y == DoorY && r.direction == Up && !r.justReleasedFromHouse
    decreases Abs(g.x - DoorX)
  {
    if g.x != DoorX {
      var g1 := MoveGhostInHouse(g, powerup);
      ReleasedGhostLeaves(g1, powerup);
    }
  }

  /* ---------- moving outside the house ---------- */

  /** getValidMovesWithoutReverse: the valid moves that do not turn the ghost
      around; a reversal is dropped even when it is the only valid move. */
  function ValidMovesWithoutReverse(m: Maze, g: Ghost): (r: seq<Move>)
    ensures forall mv :: mv in r <==> mv in ValidMoves(m, g.x, g.y) && !IsReversal(g.direction, mv)
  {
    FilteredMoves(ValidMoves(m, g.x, g.y), g.direction, false)
  }

  /** A ghost whose only valid move turns it around has no move left. */
  lemma DeadEndLeavesNoMove(m: Maze, g: Ghost)
    requires ValidMoves(m, g.x, g.y) == [Delta(Opposite(g.direction))]
    ensures ValidMovesWithoutReverse(m, g) == []
  {
    ReversalIsOppositeMove(g.direction, Delta(Opposite(g.direction)));
  }

  /** getRandomDestination: a cell up to 8 columns and rows from (x, y),
      clamped into the grid. */
  function RandomDestination(m: Maze, x: int, y: int, dr: Draws): (r: Point)
    ensures InBounds(m, r.x, r.y)
    ensures InBounds(m, x, y) ==> Abs(r.x - x) <= MaxDistance && Abs(r.y - y) <= MaxDistance
  {
    Point(Clamp(x + dr.destX - MaxDistance, 0, m.width - 1), Clamp(y + dr.destY - MaxDistance, 0, m.height - 1))
  }

  /** The moves that bring a ghost closer to a target (dx, dy) away, on either axis. */
  function TowardMoves(moves: seq<Move>, dx: int, dy: int): (r: seq<Move>)
    ensures forall mv :: mv in r <==> mv in moves && Toward(mv, dx, dy)
  {
    if moves == [] then []
    else (if Toward(moves[0], dx, dy) then [moves[0]] else []) + TowardMoves(moves[1..], dx, dy)
  }

  predicate Toward(mv: Move, dx: int, dy: int) {
    (dx > 0 && mv.dx > 0) || (dx < 0 && mv.dx < 0) || (dy > 0 && mv.dy > 0) || (dy < 0 && mv.dy < 0)
  }

  /** The destination a scared ghost heads for: a fresh random one when it has
      none or stands on it. */
  function ScaredTarget(m: Maze, g: Ghost, dr: Draws): Point {
    if g.target.None? || (g.x == g.target.value.x && g.y == g.target.value.y) then RandomDestination(m, g.x, g.y, dr)
    else g.target.value
  }

  /** The move a scared ghost picks among `valid`: any of them when the draw
      says wander or none leads toward the destination (dx, dy) away, else one
      of those that do. */
  function ScaredChoice(valid: seq<Move>, dx: int, dy: int, dr: Draws): (mv: Move)
    requires valid != []
    ensures mv in valid
    ensures !dr.wander && !Toward(mv, dx, dy) ==> forall v :: v in valid ==> !Toward(v, dx, dy)
  {
    var good := TowardMoves(valid, dx, dy);
    var possible := if dr.wander || |good| == 0 then valid else good;
    assert possible[dr.pick % |possible|] in possible;
    possible[dr.pick % |possible|]
  }

  /** moveScaredGhost: pick one of the non-reversing valid moves, preferring
      those toward the destination unless the draw says wander; during a
      power-up the ghost may hold still instead. */
  function MoveScaredGhost(m: Maze, g: Ghost, powerup: int, dr: Draws): (r: Ghost)
    ensures r.target == Some(ScaredTarget(m, g, dr))
    ensures r == g.(target := r.target, x := r.x, y := r.y, direction := r.direction)
    ensures var valid := ValidMovesWithoutReverse(m, g);
            var t := ScaredTarget(m, g, dr);
            var mv := Move(r.x - g.x, r.y - g.y);
            valid != [] && !(powerup != 0 && dr.slow) ==>
              mv == ScaredChoice(valid, t.x - g.x, t.y - g.y, dr) && mv in valid
              && r.direction == DirectionOf(mv, g.direction)
    ensures ValidMovesWithoutReverse(m, g) == [] || (powerup != 0 && dr.slow) ==>
              r.x == g.x && r.y == g.y && r.direction == g.direction
  {
    ScaredMoved(g, ScaredTarget(m, g, dr), ValidMovesWithoutReverse(m, g), powerup, dr)
  }

  /** A scared ghost aiming at `t` with kept moves `valid`: it holds still
      when there is no move or the power-up's slow draw holds it back, and
      otherwise takes the move ScaredChoice picks. */
  function ScaredMoved(g: Ghost, t: Point, valid: seq<Move>, powerup: int, dr: Draws): (r: Ghost)
    ensures r.target == Some(t)
    ensures r == g.(target := r.target, x := r.x, y := r.y, direction := r.direction)
    ensures valid == [] || (powerup != 0 && dr.slow) ==>
              r.x == g.x && r.y == g.y && r.direction == g.direction
    ensures valid != [] && !(powerup != 0 && dr.slow) ==>
              var mv := Move(r.x - g.x, r.y - g.y);
              mv == ScaredChoice(valid, t.x - g.x, t.y - g.y, dr) && mv in valid
              && r.direction == DirectionOf(mv, g.direction)
  {
    var g1 := g.(target := Some(t));
    if |valid| == 0 || (powerup != 0 && dr.slow) then g1
    else
      var mv := ScaredChoice(valid, t.x - g.x, t.y - g.y, dr);
      assert Move(g.x + mv.dx - g.x, g.y + mv.dy - g.y) == mv;
      g1.(direction := DirectionOf(mv, g.direction), x := g.x + mv.dx, y := g.y + mv.dy)
  }

  /** The ghost after taking the search's step, if there is one. */
  function Follow(g: Ghost, s: Option<Step>): (r: Ghost)
    ensures s.None? ==> r == g
    ensures s.Some? ==> r == g.(x := s.value.x, y := s.value.y, direction := s.value.direction)
  {
    match s
    case None => g
    case Some(step) => g.(x := step.x, y := step.y, direction := step.direction)
  }

  /** moveEyesToHome: eyes next to the house cell snap onto it and start
      respawning; otherwise they take Dijkstra's step, or the search's step
      toward the house when Dijkstra has none. */
  function MoveEyesToHome(m: Maze, g: Ghost, dr: Draws): (r: Ghost)
    ensures Abs(g.x - Respawn.x) <= 1 && Abs(g.y - Respawn.y) <= 1 ==>
              r == g.(x := Respawn.x, y := Respawn.y, inHouse := true, respawnCounter := 1)
    ensures !(Abs(g.x - Respawn.x) <= 1 && Abs(g.y - Respawn.y) <= 1) ==>
              r == g.(x := r.x, y := r.y, direction := r.direction)
    ensures !(Abs(g.x - Respawn.x) <= 1 && Abs(g.y - Respawn.y) <= 1) && dr.dijkstra.Some? ==>
              Point(r.x, r.y) == dr.dijkstra.value
              && r.direction == DirectionOf(Move(dr.dijkstra.value.x - g.x, dr.dijkstra.value.y - g.y), g.direction)
    ensures !(Abs(g.x - Respawn.x) <= 1 && Abs(g.y - Respawn.y) <= 1) && dr.dijkstra.None? ==>
              r == Follow(g, NextStep(m, Point(g.x, g.y), Respawn, g.direction, dr.fallback))
  {
    if Abs(g.x - Respawn.x) <= 1 && Abs(g.y - Respawn.y) <= 1 then
      g.(x := Respawn.x, y := Respawn.y, inHouse := true, respawnCounter := 1)
    else match dr.dijkstra
      case Some(p) => g.(direction := DirectionOf(Move(p.x - g.x, p.y - g.y), g.direction), x := p.x, y := p.y)
      case None => Follow(g, NextStep(m, Point(g.x, g.y), Respawn, g.direction, dr.fallback))
  }

  /** The corner each ghost heads for in scatter mode; a name without a corner
      uses blinky's. */
  function ScatterCorner(m: Maze, name: GhostName): (r: Point)
    ensures m.width >= 3 ==> InBounds(m, r.x, r.y)
  {
    match name
    case Pinky => Point(0, 0)
    case Inky => Point(m.width - 3, m.height - 1)
    case Clyde => Point(0, m.height - 1)
    case _ => Point(m.width - 3, 0)
  }

  /** moveGhostToScatterTarget: aim at the ghost's corner and take the
      search's step toward it. */
  function MoveGhostToScatterTarget(m: Maze, g: Ghost, dr: Draws): (r: Ghost)
    ensures r.target == Some(ScatterCorner(m, g.name))
    ensures r == Follow(g.(target := r.target), NextStep(m, Point(g.x, g.y), ScatterCorner(m, g.name), g.direction, dr.fallback))
  {
    var target := ScatterCorner(m, g.name);
    Follow(g.(target := Some(target)), NextStep(m, Point(g.x, g.y), target, g.direction, dr.fallback))
  }

  /** getPacmanDirection: the unit move pacman is heading in. */
  function PacmanDirection(p: Pacman): (r: Move)
    ensures IsUnit(r) && r == Delta(p.direction)
  {
    Delta(p.direction)
  }

  /** calculateGhostTarget: blinky chases pacman, pinky aims four cells ahead
      of him, inky doubles the vector from blinky to the cell two ahead of him,
      and clyde chases him from afar but retreats to his corner up close.
      `blinky` is where the first ghost named blinky stands, if any. */
  function CalculateGhostTarget(m: Maze, g: Ghost, pacman: Pacman, blinky: Option<Point>): (r: Point)
    ensures g.name in {Pinky, Inky} ==> InBounds(m, r.x, r.y)
    ensures g.name in {Blinky, Eyes} ==> r == Point(pacman.x, pacman.y)
    ensures g.name == Pinky && InBounds(m, pacman.x + 4 * Delta(pacman.direction).dx, pacman.y + 4 * Delta(pacman.direction).dy) ==>
              r == Point(pacman.x + 4 * Delta(pacman.direction).dx, pacman.y + 4 * Delta(pacman.direction).dy)
    ensures g.name == Pinky ==>
              var aim := Point(pacman.x + 4 * Delta(pacman.direction).dx, pacman.y + 4 * Delta(pacman.direction).dy);
              ClampedInto(m, aim, r)
    ensures g.name == Inky ==>
              var two := Point(pacman.x + 2 * Delta(pacman.direction).dx, pacman.y + 2 * Delta(pacman.direction).dy);
              var aim := if blinky.Some? then Point(2 * two.x - blinky.value.x, 2 * two.y - blinky.value.y) else two;
              ClampedInto(m, aim, r)
    ensures g.name == Clyde ==>
              r == (if Manhattan(g.x, g.y, pacman.x, pacman.y) > 8 then Point(pacman.x, pacman.y) else Point(0, m.height - 1))
  {
    match g.name
    case Blinky => Point(pacman.x, pacman.y)
    case Pinky =>
      var d := PacmanDirection(pacman);
      Point(Clamp(pacman.x + d.dx * 4, 0, m.width - 1), Clamp(pacman.y + d.dy * 4, 0, m.height - 1))
    case Inky =>
      var d := PacmanDirection(pacman);
      var two := Point(pacman.x + d.dx * 2, pacman.y + d.dy * 2);
      var aim := if blinky.Some? then Point(two.x + (two.x - blinky.value.x), two.y + (two.y - blinky.value.y)) else two;
      Point(Clamp(aim.x, 0, m.width - 1), Clamp(aim.y, 0, m.height - 1))
    case Clyde =>
      if Manhattan(g.x, g.y, pacman.x, pacman.y) > 8 then Point(pacman.x, pacman.y) else Point(0, m.height - 1)
    case Eyes => Point(pacman.x, pacman.y)
  }

  /** `r` is the cell `aim` pushed into the grid along each axis: an
      in-range coordinate is kept, one below the grid becomes 0 and one
      beyond it the last row or column. */
  predicate ClampedInto(m: Maze, aim: Point, r: Point) {
    (0 <= aim.x < m.width ==> r.x == aim.x) && (aim.x < 0 ==> r.x == 0) && (aim.x >= m.width ==> r.x == m.width - 1)
    && (0 <= aim.y < m.height ==> r.y == aim.y) && (aim.y < 0 ==> r.y == 0) && (aim.y >= m.height ==> r.y == m.height - 1)
  }

  /** moveGhostWithPersonality: eyes go home; any other ghost aims at its
      personal target and takes the search's step toward it. */
  function MoveGhostWithPersonality(m: Maze, g: Ghost, pacman: Pacman, blinky: Option<Point>, dr: Draws): (r: Ghost)
    ensures g.name == Eyes ==> r == MoveEyesToHome(m, g, dr)
    ensures g.name != Eyes ==>
              var target := CalculateGhostTarget(m, g, pacman, blinky);
              r.target == Some(target)
              && r == Follow(g.(target := r.target), NextStep(m, Point(g.x, g.y), target, g.direction, dr.fallback))
  {
    if g.name == Eyes then MoveEyesToHome(m, g, dr)
    else
      var target := CalculateGhostTarget(m, g, pacman, blinky);
      Follow(g.(target := Some(target)), NextStep(m, Point(g.x, g.y), target, g.direction, dr.fallback))
  }

  /** One turn of the loop in moveGhosts: house logic for a ghost in the
      house; otherwise eyes stop being scared, and the ghost moves scared, as
      eyes, to its corner or after its target. */
  function MoveOne(m: Maze, mode: Mode, pacman: Pacman, blinky: Option<Point>, g: Ghost, dr: Draws): (r: Ghost)
    ensures g.inHouse ==> r == MoveGhostInHouse(g, pacman.powerupRemainingDuration)
    ensures !g.inHouse && g.name == Eyes ==>
              r == MoveEyesToHome(m, g.(scared := false), dr) && !r.scared && r.name == Eyes
    ensures !g.inHouse && g.name != Eyes && g.scared ==>
              r == MoveScaredGhost(m, g, pacman.powerupRemainingDuration, dr)
    ensures !g.inHouse && g.name != Eyes && !g.scared ==>
              r == (if mode == Scatter then MoveGhostToScatterTarget(m, g, dr)
                    else MoveGhostWithPersonality(m, g, pacman, blinky, dr))
    ensures r.freezeCounter == g.freezeCounter
    ensures g.respawnCounter >= 0 ==> r.respawnCounter >= 0
  {
    if g.inHouse then MoveGhostInHouse(g, pacman.powerupRemainingDuration)
    else
      var g1 := if g.name == Eyes then g.(scared := false) else g;
      if g1.scared then MoveScaredGhost(m, g1, pacman.powerupRemainingDuration, dr)
      else if g1.name == Eyes then MoveEyesToHome(m, g1, dr)
      else if mode == Scatter then MoveGhostToScatterTarget(m, g1, dr)
      else MoveGhostWithPersonality(m, g1, pacman, blinky, dr)
  }

  /** Where the first ghost named blinky stands (store.ghosts.find). */
  function BlinkyOf(gs: seq<Ghost>): (r: Option<Point>)
    ensures r.None? <==> forall i :: 0 <= i < |gs| ==> gs[i].name != Blinky
    ensures r.Some? ==> exists i :: 0 <= i < |gs| && gs[i].name == Blinky && r.value == Point(gs[i].x, gs[i].y)
                                   && forall k :: 0 <= k < i ==> gs[k].name != Blinky
  {
    if gs == [] then None
    else if gs[0].name == Blinky then Some(Point(gs[0].x, gs[0].y))
    else
      var r := BlinkyOf(gs[1..]);
      assert forall i :: 1 <= i < |gs| ==> gs[i] == gs[1..][i - 1];
      if r.Some? then
        var j :| 0 <= j < |gs[1..]| && gs[1..][j].name == Blinky && r.value == Point(gs[1..][j].x, gs[1..][j].y)
                 && forall k :: 0 <= k < j ==> gs[1..][k].name != Blinky;
        assert gs[j + 1] == gs[1..][j];
        r
      else r
  }

  /** The loop of moveGhosts from ghost i on: each ghost is moved in turn, and
      inky sees blinky where the loop has already put him. */
  function MoveFrom(m: Maze, mode: Mode, pacman: Pacman, gs: seq<Ghost>, i: nat, draws: nat -> Draws): (r: seq<Ghost>)
    ensures |r| == |gs|
    ensures forall k :: 0 <= k < i && k < |gs| ==> r[k] == gs[k]
    decreases |gs| - i
  {
    if i >= |gs| then gs
    else MoveFrom(m, mode, pacman, gs[i := MoveOne(m, mode, pacman, BlinkyOf(gs), gs[i], draws(i))], i + 1, draws)
  }

  /** Ghost j, from i on, is moved once, by MoveOne, seeing the ghosts before
      it already moved and those after it not yet moved. */
  lemma {:induction false} MoveFromMovesInTurn(m: Maze, mode: Mode, pacman: Pacman, gs: seq<Ghost>,
                                               i: nat, j: nat, draws: nat -> Draws)
    requires i <= j < |gs|
    ensures var r := MoveFrom(m, mode, pacman, gs, i, draws);
            r[j] == MoveOne(m, mode, pacman, BlinkyOf(r[..j] + gs[j..]), gs[j], draws(j))
    decreases j - i
  {
    var next := gs[i := MoveOne(m, mode, pacman, BlinkyOf(gs), gs[i], draws(i))];
    var r := MoveFrom(m, mode, pacman, next, i + 1, draws);
    assert r == MoveFrom(m, mode, pacman, gs, i, draws);
    if j == i {
      assert r[..i] + gs[i..] == gs;
    } else {
      MoveFromMovesInTurn(m, mode, pacman, next, i + 1, j, draws);
      assert next[j..] == gs[j..];
    }
  }

  /** Every ghost from i on is moved in turn. */
  lemma MoveFromMovesEachInTurn(m: Maze, mode: Mode, pacman: Pacman, gs: seq<Ghost>, i: nat, draws: nat -> Draws)
    ensures var r := MoveFrom(m, mode, pacman, gs, i, draws);
            forall j :: i <= j < |gs| ==> r[j] == MoveOne(m, mode, pacman, BlinkyOf(r[..j] + gs[j..]), gs[j], draws(j))
  {
    forall j | i <= j < |gs|
      ensures var r := MoveFrom(m, mode, pacman, gs, i, draws);
              r[j] == MoveOne(m, mode, pacman, BlinkyOf(r[..j] + gs[j..]), gs[j], draws(j))
    {
      MoveFromMovesInTurn(m, mode, pacman, gs, i, j, draws);
    }
  }

  /** Moving the ghosts leaves every release countdown as it was and keeps
      every respawn countdown non-negative. */
  lemma {:induction false} MoveFromKeepsCountdowns(m: Maze, mode: Mode, pacman: Pacman, gs: seq<Ghost>,
                                                   i: nat, draws: nat -> Draws)
    requires forall k :: 0 <= k < |gs| ==> gs[k].respawnCounter >= 0
    ensures var r := MoveFrom(m, mode, pacman, gs, i, draws);
            forall k :: 0 <= k < |gs| ==> r[k].freezeCounter == gs[k].freezeCounter && r[k].respawnCounter >= 0
    decreases |gs| - i
  {
    if i < |gs| {
      var next := gs[i := MoveOne(m, mode, pacman, BlinkyOf(gs), gs[i], draws(i))];
      MoveFromKeepsCountdowns(m, mode, pacman, next, i + 1, draws);
    }
  }

  /** In moveGhosts a ghost in the house runs the house logic and nothing
      else: what happens to it does not depend on the other ghosts. */
  lemma {:induction false} InHouseGhostOnlyRunsHouseLogic(m: Maze, mode: Mode, pacman: Pacman, gs: seq<Ghost>,
                                                          i: nat, j: nat, draws: nat -> Draws)
    requires i <= j < |gs| && gs[j].inHouse
    ensures MoveFrom(m, mode, pacman, gs, i, draws)[j] == MoveGhostInHouse(gs[j], pacman.powerupRemainingDuration)
    decreases |gs| - i
  {
    var next := gs[i := MoveOne(m, mode, pacman, BlinkyOf(gs), gs[i], draws(i))];
    if i < j {
      InHouseGhostOnlyRunsHouseLogic(m, mode, pacman, next, i + 1, j, draws);
    }
  }

  /** In moveGhosts an eyes ghost outside the house is never left scared. */
  lemma {:induction false} EyesEndNotScared(m: Maze, mode: Mode, pacman: Pacman, gs: seq<Ghost>,
                                            i: nat, j: nat, draws: nat -> Draws)
    requires i <= j < |gs| && !gs[j].inHouse && gs[j].name == Eyes
    ensures var r := MoveFrom(m, mode, pacman, gs, i, draws)[j];
            !r.scared && r.name == Eyes
    decreases |gs| - i
  {
    var next := gs[i := MoveOne(m, mode, pacman, BlinkyOf(gs), gs[i], draws(i))];
    if i < j {
      EyesEndNotScared(m, mode, pacman, next, i + 1, j, draws);
    }
  }

  /* ---------- counting the dots ---------- */

  /** The grid has rows 0 .. h - 1, each with at least w cells. */
  predicate Covers(grid: Grid, w: int, h: int) {
    h <= |grid| && forall y :: 0 <= y < h ==> w <= |grid[y]|
  }

  /** The cells of column x, rows 0 .. h - 1, whose level is not Empty. */
  function ColumnDots(grid: Grid, x: int, h: nat): (r: nat)
    requires 0 <= x && Covers(grid, x + 1, h)
    ensures r <= h
  {
    if h == 0 then 0
    else ColumnDots(grid, x, h - 1) + (if grid[h - 1][x].level != Empty then 1 else 0)
  }

  /** The cells of columns 0 .. w - 1 whose level is not Empty. */
  function Dots(grid: Grid, w: nat, h: nat): (r: nat)
    requires Covers(grid, w, h)
    ensures r <= w * h
  {
    if w == 0 then 0 else Dots(grid, w - 1, h) + ColumnDots(grid, w - 1, h)
  }

  lemma {:induction false} ColumnDotsZero(grid: Grid, x: int, h: nat)
    requires 0 <= x && Covers(grid, x + 1, h)
    ensures ColumnDots(grid, x, h) == 0 <==> forall y :: 0 <= y < h ==> grid[y][x].level == Empty
  {
    if h > 0 {
      ColumnDotsZero(grid, x, h - 1);
    }
  }

  /** No dots remain exactly when every cell of the grid is Empty. */
  lemma {:induction false} DotsZeroIffEmpty(grid: Grid, w: nat, h: nat)
    requires Covers(grid, w, h)
    ensures Dots(grid, w, h) == 0 <==> forall x, y :: 0 <= x < w && 0 <= y < h ==> grid[y][x].level == Empty
  {
    if w > 0 {
      DotsZeroIffEmpty(grid, w - 1, h);
      ColumnDotsZero(grid, w - 1, h);
    }
  }

  /** countRemainingDots: count the cells whose level is not Empty, column by
      column. */
  method CountRemainingDots(m: Maze, grid: Grid) returns (count: int)
    requires Rectangular(grid, m.width, m.height)
    ensures count == Dots(grid, m.width, m.height)
  {
    count := 0;
    for x := 0 to m.width
      invariant count == Dots(grid, x, m.height)
    {
      for y := 0 to m.height
        invariant count == Dots(grid, x, m.height) + ColumnDots(grid, x, y)
      {
        if grid[y][x].level != Empty {
          count := count + 1;
        }
      }
    }
  }

  /* ---------- the mode state and moveGhosts ---------- */

  /** What moveGhosts computes: the clock after updateGameMode, and the ghosts
      turned around on a mode switch and then moved one by one. */
  function MovedGhosts(m: Maze, c: ModeClock, pacman: Pacman, gs: seq<Ghost>, draws: nat -> Draws): (r: seq<Ghost>)
    ensures |r| == |gs|
    ensures forall j :: 0 <= j < |gs| && gs[j].inHouse ==> r[j] == MoveGhostInHouse(gs[j], pacman.powerupRemainingDuration)
    ensures var turned := if Flips(c, pacman.powerupRemainingDuration) then ReverseEligible(gs) else gs;
            forall j :: 0 <= j < |gs| ==>
              r[j] == MoveOne(m, NextClock(c, pacman.powerupRemainingDuration).mode, pacman,
                              BlinkyOf(r[..j] + turned[j..]), turned[j], draws(j))
  {
    var c1 := NextClock(c, pacman.powerupRemainingDuration);
    var turned := if Flips(c, pacman.powerupRemainingDuration) then ReverseEligible(gs) else gs;
    MoveFromMovesEachInTurn(m, c1.mode, pacman, turned, 0, draws);
    MoveFrom(m, c1.mode, pacman, turned, 0, draws)
  }

  /** The module-level state of the ghost movement. */
  class ModeState {
    var currentMode: Mode
    var modeTimer: int
    var dotsRemaining: int

    function Clock(): ModeClock
      reads this
    {
      ModeClock(currentMode, modeTimer)
    }

    /** The timer stays below the active mode's threshold. */
    ghost predicate Valid()
      reads this
    {
      0 <= modeTimer < Threshold(currentMode)
    }

    constructor()
      ensures currentMode == Scatter && modeTimer == 0 && dotsRemaining == 0
      ensures Valid()
    {
      currentMode := Scatter;
      modeTimer := 0;
      dotsRemaining := 0;
    }

    /** updateGameMode: advance the clock and, when the mode switches, turn
        the eligible ghosts around. */
    method UpdateGameMode(powerup: int, ghosts: seq<Ghost>) returns (gs: seq<Ghost>)
      modifies this
      ensures Clock() == NextClock(old(Clock()), powerup)
      ensures gs == if Flips(old(Clock()), powerup) then ReverseEligible(ghosts) else ghosts
      ensures dotsRemaining == old(dotsRemaining)
      ensures old(Valid()) ==> Valid()
    {
      gs := ghosts;
      if powerup > 0 {
        return;
      }
      modeTimer := modeTimer + 1;
      var modeDuration := if currentMode == Scatter then ScatterModeDuration else ChaseModeDuration;
      if modeTimer >= modeDuration * FramesPerSecond {
        currentMode := if currentMode == Scatter then Chase else Scatter;
        modeTimer := 0;
        for i := 0 to |gs|
          invariant |gs| == |ghosts|
          invariant forall k :: 0 <= k < i ==> gs[k] == ReverseEligible(ghosts)[k]
          invariant forall k :: i <= k < |gs| ==> gs[k] == ghosts[k]
        {
          if !gs[i].inHouse && gs[i].name != Eyes && !gs[i].scared {
            gs := gs[i := ReverseDirection(gs[i])];
          }
        }
      }
    }

    /** moveGhosts: count the dots, update the mode, then move every ghost in
        order. */
    method MoveGhosts(m: Maze, grid: Grid, pacman: Pacman, ghosts: seq<Ghost>, draws: nat -> Draws)
      returns (gs: seq<Ghost>)
      requires Rectangular(grid, m.width, m.height)
      modifies this
      ensures dotsRemaining == Dots(grid, m.width, m.height)
      ensures Clock() == NextClock(old(Clock()), pacman.powerupRemainingDuration)
      ensures gs == MovedGhosts(m, old(Clock()), pacman, ghosts, draws)
      ensures old(Valid()) ==> Valid()
    {
      dotsRemaining := CountRemainingDots(m, grid);
      gs := UpdateGameMode(pacman.powerupRemainingDuration, ghosts);
      ghost var turned := gs;
      for i := 0 to |gs|
        invariant |gs| == |turned|
        invariant MoveFrom(m, currentMode, pacman, gs, i, draws) == MoveFrom(m, currentMode, pacman, turned, 0, draws)
      {
        gs := gs[i := MoveOne(m, currentMode, pacman, BlinkyOf(gs), gs[i], draws(i))];
      }
    }
  }
}
