/** The per-frame game loop (src/core/game.ts): frame skipping, the death and
    power-up countdowns, the ghost-house counters, the end of the game, the
    power-up trigger, collisions, ghost placement and the snapshot history.

    Tick is the frame as a function of the world before it; the Store class
    holds the same state in fields and its method UpdateGame performs the
    frame step by step, proved to end in the world Tick describes. movePacman
    is a collaborator: its effect is the PacmanStep given to the frame. */
module Game {
  import opened Types
  import opened Board
  import opened GhostsMovement

  /** How long a power-up lasts, in frames, and what eating a ghost earns. */
  const PowerUpDuration := 30
  const EatBonus := 10

  /** Where resetPacman puts pacman after a death. */
  const ResetX := 27
  const ResetY := 7

  /** The row of the ghost house in the initial placement. */
  const GhostHouseY := 3

  /** The four ghost names in placement order. */
  const GhostNames: seq<GhostName> := [Blinky, Inky, Pinky, Clyde]

  /** The part of the configuration the loop reads: the maze with its
      dimensions, gameSpeed, useCustomStartPositions and PACMAN_DEATH_DURATION. */
  datatype Config = Config(maze: Maze, gameSpeed: int, useCustomStartPositions: bool, deathDuration: int)

  /** What movePacman leaves behind: pacman's new cell, direction, points and
      recent positions, and the pellet grid with the eaten cell cleared. */
  datatype PacmanStep = PacmanStep(x: int, y: int, direction: Direction, points: int, totalPoints: int,
                                   recentPositions: seq<Point>, grid: Grid)

  /** One entry of gameHistory: copies of pacman, the ghosts and the grid. */
  datatype Snapshot = Snapshot(pacman: Pacman, ghosts: seq<Ghost>, grid: Grid)

  /** Pacman together with the ghosts, the state most stages change. */
  datatype Actors = Actors(pacman: Pacman, ghosts: seq<Ghost>)

  /** Everything a frame reads or writes. */
  datatype World = World(frameCount: int, pacman: Pacman, ghosts: seq<Ghost>, grid: Grid,
                         history: seq<Snapshot>, mouthOpen: bool, clock: ModeClock, dots: int)

  /** The world after a frame, and whether the frame ended the game (the
      game-over callback was called). */
  datatype Outcome = Outcome(world: World, over: bool)

  function SnapshotOf(w: World): Snapshot {
    Snapshot(w.pacman, w.ghosts, w.grid)
  }

  /* ---------- names and placement ---------- */

  /** determineGhostName: the placement order, cycled by index. */
  function DetermineGhostName(index: nat): (r: GhostName)
    ensures r != Eyes
    ensures r == GhostNames[index % 4]
  {
    GhostNames[index % |GhostNames|]
  }

  /** A freshly placed ghost: not scared, no target, not respawning, not released. */
  function NewGhost(p: Point, name: GhostName, direction: Direction, inHouse: bool, freezeCounter: int): Ghost {
    Ghost(p.x, p.y, name, direction, false, None, inHouse, 0, freezeCounter, false, None)
  }

  /** The four cells of the ghost house around the column houseCenterX. */
  function HousePositions(cx: int): seq<Point> {
    [Point(cx, GhostHouseY), Point(cx - 1, GhostHouseY), Point(cx + 1, GhostHouseY), Point(cx, GhostHouseY - 1)]
  }

  /** A cell the custom placement can read: a missing row is skipped, but a
      missing cell in an existing row cannot be read. */
  predicate Readable(grid: Grid, p: Point) {
    0 <= p.y < |grid| ==> 0 <= p.x < |grid[p.y]|
  }

  function HouseCenter(grid: Grid): int
    requires |grid| > 0
  {
    |grid[0]| / 2
  }

  /** What placeGhosts needs: a first row, and in the custom branch every
      house cell readable. */
  predicate PlacementDefined(grid: Grid, custom: bool) {
    |grid| > 0 && (custom ==> forall p :: p in HousePositions(HouseCenter(grid)) ==> Readable(grid, p))
  }

  /** `s` is `t` with some elements left out, the rest in their order. */
  predicate Subsequence<T(==)>(s: seq<T>, t: seq<T>)
    decreases |t|
  {
    s == [] || (t != [] && ((s[0] == t[0] && Subsequence(s[1..], t[1..])) || Subsequence(s, t[1..])))
  }

  /** The cell p lies in the grid and has contributions. */
  predicate HasCommits(grid: Grid, p: Point) {
    0 <= p.y < |grid| && 0 <= p.x < |grid[p.y]| && grid[p.y][p.x].commitsCount > 0
  }

  /** The house cells that have contributions, in order. */
  function ValidHouseCells(grid: Grid, ps: seq<Point>): (r: seq<Point>)
    requires forall p :: p in ps ==> Readable(grid, p)
    ensures |r| <= |ps|
    ensures forall p :: p in r <==> p in ps && HasCommits(grid, p)
    ensures Subsequence(r, ps)
  {
    if ps == [] then []
    else
      var p := ps[0];
      assert p in ps && Readable(grid, p);
      var rest := ValidHouseCells(grid, ps[1..]);
      if 0 <= p.y < |grid| && grid[p.y][p.x].commitsCount > 0 then
        assert ([p] + rest)[1..] == rest;
        [p] + rest
      else rest
  }

  /** placeGhosts: the four ghosts blinky, inky, pinky and clyde, released
      after 0, 10, 20 and 30 countdown frames, with only blinky outside the
      house. The fixed branch places them around the house centre facing left,
      up, down, up; the custom branch gives them the house cells that have
      contributions, in order, then the centre, all facing left. */
  function PlaceGhosts(grid: Grid, custom: bool): (r: seq<Ghost>)
    requires PlacementDefined(grid, custom)
    ensures |r| == 4
    ensures forall k :: 0 <= k < 4 ==>
              r[k].name == GhostNames[k] && r[k].freezeCounter == 10 * k && (r[k].inHouse <==> k != 0)
              && !r[k].scared && r[k].target == None && r[k].respawnCounter == 0
              && !r[k].justReleasedFromHouse && r[k].originalName == None
    ensures !custom ==>
              var c := HouseCenter(grid);
              Point(r[0].x, r[0].y) == Point(c, 3) && Point(r[1].x, r[1].y) == Point(c - 1, 3)
              && Point(r[2].x, r[2].y) == Point(c + 1, 3) && Point(r[3].x, r[3].y) == Point(c, 2)
    ensures !custom ==> r[0].direction == Left && r[1].direction == Up && r[2].direction == Down && r[3].direction == Up
    ensures custom ==>
              var valid := ValidHouseCells(grid, HousePositions(HouseCenter(grid)));
              forall k :: 0 <= k < 4 ==>
                Point(r[k].x, r[k].y) == (if k < |valid| then valid[k] else Point(HouseCenter(grid), 3))
                && r[k].direction == Left
  {
    var cx := HouseCenter(grid);
    var ps := HousePositions(cx);
    if !custom then
      [NewGhost(ps[0], Blinky, Left, false, 0),
       NewGhost(ps[1], Inky, Up, true, 10),
       NewGhost(ps[2], Pinky, Down, true, 20),
       NewGhost(ps[3], Clyde, Up, true, 30)]
    else
      var valid := ValidHouseCells(grid, ps);
      seq(4, k requires 0 <= k < 4 =>
        NewGhost(if k < |valid| then valid[k] else ps[0], GhostNames[k], Left, k != 0, k * 10))
  }

  /** determineGhostName names a ghost as placeGhosts named the ghost at the
      same index. */
  lemma DetermineGhostNameMatchesPlacement(grid: Grid, custom: bool, i: nat)
    requires PlacementDefined(grid, custom)
    ensures PlaceGhosts(grid, custom)[i % 4].name == DetermineGhostName(i)
  {
  }

  /** The initial pacman of the fixed placement. */
  function StartPacman(): Pacman {
    Pacman(1, 1, Right, 0, 0, 0, 0, [])
  }

  /** The cells of rows y.. that have contributions, row by row. */
  function CommitCells(grid: Grid, y: nat): (r: seq<Point>)
    ensures forall p :: p in r <==> y <= p.y < |grid| && 0 <= p.x < |grid[p.y]| && grid[p.y][p.x].commitsCount > 0
    decreases |grid| - y
  {
    if y >= |grid| then [] else RowCommitCells(grid, y, 0) + CommitCells(grid, y + 1)
  }

  function RowCommitCells(grid: Grid, y: nat, x: nat): (r: seq<Point>)
    requires y < |grid|
    ensures forall p :: p in r <==> p.y == y && x <= p.x < |grid[y]| && grid[y][p.x].commitsCount > 0
    decreases |grid[y]| - x
  {
    if x >= |grid[y]| then []
    else (if grid[y][x].commitsCount > 0 then [Point(x, y)] else []) + RowCommitCells(grid, y, x + 1)
  }

  /** placePacman: the fixed start (1, 1) facing right with everything
      cleared, or in the custom branch a cell with contributions chosen by the
      draw `pick`; pacman is left as he is when there is no such cell. */
  function PlacePacman(grid: Grid, custom: bool, pick: nat, p: Pacman): (r: Pacman)
    ensures !custom ==> r == StartPacman()
    ensures custom && CommitCells(grid, 0) == [] ==> r == p
    ensures custom && CommitCells(grid, 0) != [] ==>
              r == StartPacman().(x := r.x, y := r.y)
              && 0 <= r.y < |grid| && 0 <= r.x < |grid[r.y]| && grid[r.y][r.x].commitsCount > 0
  {
    if !custom then StartPacman()
    else
      var cells := CommitCells(grid, 0);
      if |cells| > 0 then
        var pos := cells[pick % |cells|];
        assert pos in cells;
        StartPacman().(x := pos.x, y := pos.y)
      else p
  }

  /** resetPacman: back to (27, 7) facing right, with no recent positions. */
  function AfterReset(p: Pacman): (r: Pacman)
    ensures r.x == ResetX && r.y == ResetY && r.direction == Right && r.recentPositions == []
    ensures r == p.(x := r.x, y := r.y, direction := r.direction, recentPositions := r.recentPositions)
  {
    p.(x := ResetX, y := ResetY, direction := Right, recentPositions := [])
  }

  /* ---------- countdowns and the ghost house ---------- */

  /** The death countdown: while pacman is dead it counts down, and when it
      reaches 0 pacman is reset and the ghosts are placed again. */
  function DeadCountdown(cfg: Config, grid: Grid, a: Actors): (r: Actors)
    requires PlacementDefined(grid, cfg.useCustomStartPositions)
    ensures r.pacman.deadRemainingDuration ==
              if a.pacman.deadRemainingDuration > 0 then a.pacman.deadRemainingDuration - 1
              else a.pacman.deadRemainingDuration
    ensures a.pacman.deadRemainingDuration == 1 ==>
              r == Actors(AfterReset(a.pacman.(deadRemainingDuration := 0)), PlaceGhosts(grid, cfg.useCustomStartPositions))
    ensures a.pacman.deadRemainingDuration != 1 ==> r.ghosts == a.ghosts && r.pacman == a.pacman.(deadRemainingDuration := r.pacman.deadRemainingDuration)
  {
    var p := a.pacman;
    if p.deadRemainingDuration > 0 then
      var p1 := p.(deadRemainingDuration := p.deadRemainingDuration - 1);
      if p1.deadRemainingDuration == 0 then Actors(AfterReset(p1), PlaceGhosts(grid, cfg.useCustomStartPositions))
      else Actors(p1, a.ghosts)
    else a
  }

  /** Every ghost but the eyes gets `scared` set to b. */
  function SetScared(gs: seq<Ghost>, b: bool): (r: seq<Ghost>)
    ensures |r| == |gs|
    ensures forall i :: 0 <= i < |gs| ==>
              r[i] == gs[i].(scared := r[i].scared) && r[i].scared == (if gs[i].name == Eyes then gs[i].scared else b)
  {
    seq(|gs|, i requires 0 <= i < |gs| => if gs[i].name != Eyes then gs[i].(scared := b) else gs[i])
  }

  /** The power-up countdown: when it runs out, no ghost but the eyes stays
      scared and pacman's points go back to 0. */
  function PowerCountdown(a: Actors): (r: Actors)
    ensures r.pacman.powerupRemainingDuration ==
              if a.pacman.powerupRemainingDuration > 0 then a.pacman.powerupRemainingDuration - 1
              else a.pacman.powerupRemainingDuration
    ensures a.pacman.powerupRemainingDuration == 1 ==>
              r == Actors(a.pacman.(powerupRemainingDuration := 0, points := 0), SetScared(a.ghosts, false))
    ensures a.pacman.powerupRemainingDuration != 1 ==>
              r == Actors(a.pacman.(powerupRemainingDuration := r.pacman.powerupRemainingDuration), a.ghosts)
  {
    var p := a.pacman;
    if p.powerupRemainingDuration > 0 then
      var p1 := p.(powerupRemainingDuration := p.powerupRemainingDuration - 1);
      if p1.powerupRemainingDuration == 0 then Actors(p1.(points := 0), SetScared(a.ghosts, false))
      else Actors(p1, a.ghosts)
    else a
  }

  /** The index of the first ghost in the house with the given name, from i on. */
  function FirstInHouse(gs: seq<Ghost>, name: GhostName, i: nat): (r: Option<nat>)
    ensures r.None? ==> forall k :: i <= k < |gs| ==> !(gs[k].name == name && gs[k].inHouse)
    ensures r.Some? ==> i <= r.value < |gs| && gs[r.value].name == name && gs[r.value].inHouse
                        && forall k :: i <= k < r.value ==> !(gs[k].name == name && gs[k].inHouse)
    decreases |gs| - i
  {
    if i >= |gs| then None
    else if gs[i].name == name && gs[i].inHouse then Some(i)
    else FirstInHouse(gs, name, i + 1)
  }

  /** releaseGhostFromHouse: only the first ghost in the house with that name
      is released: it moves to the door row, faces up and is marked released. */
  function Released(gs: seq<Ghost>, name: GhostName): (r: seq<Ghost>)
    ensures |r| == |gs|
    ensures FirstInHouse(gs, name, 0).None? ==> r == gs
    ensures FirstInHouse(gs, name, 0).Some? ==>
              var j := FirstInHouse(gs, name, 0).value;
              r == gs[j := gs[j].(justReleasedFromHouse := true, y := DoorY, direction := Up)]
  {
    match FirstInHouse(gs, name, 0)
    case None => gs
    case Some(j) => gs[j := gs[j].(justReleasedFromHouse := true, y := DoorY, direction := Up)]
  }

  /** Ghost i's respawn counter ticks down while it waits in the house; at zero
      it leaves, under its own name again, scared when a power-up is active. */
  function Respawned(g: Ghost, i: nat, powerup: int): (r: Ghost)
    ensures !(g.inHouse && g.respawnCounter > 0) ==> r == g
    ensures g.inHouse && g.respawnCounter > 1 ==> r == g.(respawnCounter := g.respawnCounter - 1)
    ensures g.inHouse && g.respawnCounter == 1 ==>
              r == g.(respawnCounter := 0, inHouse := false, scared := powerup > 0, justReleasedFromHouse := true,
                      name := if g.originalName.Some? then g.originalName.value else DetermineGhostName(i))
  {
    if g.inHouse && g.respawnCounter > 0 then
      if g.respawnCounter - 1 == 0 then
        g.(respawnCounter := 0,
           name := if g.originalName.Some? then g.originalName.value else DetermineGhostName(i),
           inHouse := false, scared := powerup > 0, justReleasedFromHouse := true)
      else g.(respawnCounter := g.respawnCounter - 1)
    else g
  }

  /** One turn of the loop over the ghosts in updateGame: ghost i's respawn
      counter, then its release counter; when the release counter reaches 0,
      the first ghost in the house with ghost i's name is released. */
  function HouseStep(gs: seq<Ghost>, i: nat, powerup: int): (r: seq<Ghost>)
    requires i < |gs|
    ensures |r| == |gs|
    ensures var g1 := Respawned(gs[i], i, powerup);
            var g2 := if g1.freezeCounter != 0 then g1.(freezeCounter := g1.freezeCounter - 1) else g1;
            var released := if gs[i].freezeCounter == 1 then FirstInHouse(gs[i := g2], g2.name, 0) else None;
            forall k :: 0 <= k < |gs| ==>
              var before := if k == i then g2 else gs[k];
              r[k] == if released.Some? && released.value == k
                      then before.(justReleasedFromHouse := true, y := DoorY, direction := Up)
                      else before
    ensures r[i].freezeCounter == if gs[i].freezeCounter != 0 then gs[i].freezeCounter - 1 else gs[i].freezeCounter
    ensures r[i].respawnCounter == if gs[i].inHouse && gs[i].respawnCounter > 0 then gs[i].respawnCounter - 1 else gs[i].respawnCounter
    ensures gs[i].inHouse && gs[i].respawnCounter == 1 ==>
              r[i].name == (if gs[i].originalName.Some? then gs[i].originalName.value else DetermineGhostName(i))
              && !r[i].inHouse && r[i].scared == (powerup > 0) && r[i].justReleasedFromHouse
    ensures forall k :: 0 <= k < |gs| && k != i ==>
              r[k] == gs[k] || (gs[i].freezeCounter == 1 && r[k] == gs[k].(justReleasedFromHouse := true, y := DoorY, direction := Up))
  {
    var g1 := Respawned(gs[i], i, powerup);
    var gs1 := gs[i := g1];
    assert g1.freezeCounter == gs[i].freezeCounter;
    if g1.freezeCounter != 0 then
      var g2 := g1.(freezeCounter := g1.freezeCounter - 1);
      assert gs1[i := g2] == gs[i := g2];
      if g2.freezeCounter == 0 then Released(gs1[i := g2], g2.name) else gs1[i := g2]
    else gs1
  }

  /** The loop over the ghosts in updateGame from ghost i on. */
  function HouseFrom(gs: seq<Ghost>, i: nat, powerup: int): (r: seq<Ghost>)
    ensures |r| == |gs|
    ensures forall k :: 0 <= k < |gs| ==>
              r[k].freezeCounter == if i <= k && gs[k].freezeCounter != 0 then gs[k].freezeCounter - 1 else gs[k].freezeCounter
    ensures forall k :: 0 <= k < |gs| ==>
              r[k].respawnCounter ==
                if i <= k && gs[k].inHouse && gs[k].respawnCounter > 0 then gs[k].respawnCounter - 1 else gs[k].respawnCounter
    decreases |gs| - i
  {
    if i >= |gs| then gs
    else
      var next := HouseStep(gs, i, powerup);
      assert forall k :: 0 <= k < |gs| && k != i ==>
               next[k].freezeCounter == gs[k].freezeCounter && next[k].respawnCounter == gs[k].respawnCounter
               && next[k].inHouse == gs[k].inHouse;
      HouseFrom(next, i + 1, powerup)
  }

  /** Every countdown of every ghost is non-negative. */
  predicate CountdownsValid(gs: seq<Ghost>) {
    forall k :: 0 <= k < |gs| ==> gs[k].freezeCounter >= 0 && gs[k].respawnCounter >= 0
  }

  /** The house counters are decremented only while positive, so they never
      go negative. */
  lemma {:induction false} HouseFromKeepsCountdowns(gs: seq<Ghost>, i: nat, powerup: int)
    requires CountdownsValid(gs)
    ensures CountdownsValid(HouseFrom(gs, i, powerup))
    decreases |gs| - i
  {
    if i < |gs| {
      var next := HouseStep(gs, i, powerup);
      assert CountdownsValid(next) by {
        forall k | 0 <= k < |gs|
          ensures next[k].freezeCounter >= 0 && next[k].respawnCounter >= 0
        {
          if k != i {
            assert next[k] == gs[k] || next[k] == gs[k].(justReleasedFromHouse := true, y := DoorY, direction := Up);
          }
        }
      }
      HouseFromKeepsCountdowns(next, i + 1, powerup);
    }
  }

  /* ---------- the end of the game, the power-up and collisions ---------- */

  function RowHasCommits(row: seq<Cell>): (r: bool)
    ensures r <==> exists x :: 0 <= x < |row| && row[x].commitsCount > 0
  {
    if row == [] then false
    else row[0].commitsCount > 0 || (RowHasCommits(row[1..]) && (assert forall x :: 1 <= x < |row| ==> row[x] == row[1..][x - 1]; true))
  }

  /** Whether some cell still has contributions; the game ends when none has. */
  function AnyCommits(grid: Grid): (r: bool)
    ensures r <==> exists y, x :: 0 <= y < |grid| && 0 <= x < |grid[y]| && grid[y][x].commitsCount > 0
  {
    if grid == [] then false
    else RowHasCommits(grid[0]) || (AnyCommits(grid[1..]) && (assert forall y :: 1 <= y < |grid| ==> grid[y] == grid[1..][y - 1]; true))
  }

  /** The cell movePacman leaves pacman on gives a power-up when it is a
      fourth-quartile cell and no power-up is running: 30 frames, and every
      ghost but the eyes is scared. */
  function PowerTrigger(grid: Grid, a: Actors): (r: Actors)
    ensures |r.ghosts| == |a.ghosts|
    ensures var c := CellAt(grid, a.pacman.x, a.pacman.y);
            if c.Some? && c.value.level == FourthQuartile && a.pacman.powerupRemainingDuration == 0 then
              r.pacman == a.pacman.(powerupRemainingDuration := PowerUpDuration)
              && forall k :: 0 <= k < |a.ghosts| ==>
                   r.ghosts[k] == a.ghosts[k].(scared := r.ghosts[k].scared)
                   && (a.ghosts[k].name != Eyes ==> r.ghosts[k].scared)
                   && (a.ghosts[k].name == Eyes ==> r.ghosts[k] == a.ghosts[k])
            else r == a
  {
    var c := CellAt(grid, a.pacman.x, a.pacman.y);
    if c.Some? && c.value.level == FourthQuartile && a.pacman.powerupRemainingDuration == 0 then
      Actors(a.pacman.(powerupRemainingDuration := PowerUpDuration), SetScared(a.ghosts, true))
    else a
  }

  /** One ghost meeting pacman: eyes pass through; a scared ghost met during
      a power-up is eaten, turning into eyes headed home and giving pacman 10
      points; any other meeting costs pacman his points and power-up and, if
      he is not dying already, starts the death countdown. */
  function CollideOne(p: Pacman, g: Ghost, deathDuration: int): (r: (Pacman, Ghost))
    ensures g.name == Eyes || g.x != p.x || g.y != p.y ==> r == (p, g)
    ensures g.name != Eyes && g.x == p.x && g.y == p.y && p.powerupRemainingDuration != 0 && g.scared ==>
              r.0 == p.(points := p.points + EatBonus)
              && r.1 == g.(originalName := Some(g.name), name := Eyes, scared := false, target := Some(Respawn))
    ensures g.name != Eyes && g.x == p.x && g.y == p.y && !(p.powerupRemainingDuration != 0 && g.scared) ==>
              r.1 == g && r.0.points == 0 && r.0.powerupRemainingDuration == 0
              && r.0.deadRemainingDuration == (if p.deadRemainingDuration == 0 then deathDuration else p.deadRemainingDuration)
              && r.0 == p.(points := 0, powerupRemainingDuration := 0, deadRemainingDuration := r.0.deadRemainingDuration)
  {
    if g.name == Eyes || g.x != p.x || g.y != p.y then (p, g)
    else if p.powerupRemainingDuration != 0 && g.scared then
      (p.(points := p.points + EatBonus),
       g.(originalName := Some(g.name), name := Eyes, scared := false, target := Some(Respawn)))
    else
      (p.(points := 0, powerupRemainingDuration := 0,
          deadRemainingDuration := if p.deadRemainingDuration == 0 then deathDuration else p.deadRemainingDuration), g)
  }

  /** The loop of checkCollisions from ghost i on. */
  function CollideFrom(a: Actors, i: nat, deathDuration: int): (r: Actors)
    ensures |r.ghosts| == |a.ghosts|
    ensures r.pacman == a.pacman.(points := r.pacman.points, powerupRemainingDuration := r.pacman.powerupRemainingDuration,
                                  deadRemainingDuration := r.pacman.deadRemainingDuration)
    ensures forall k :: 0 <= k < |a.ghosts| && (k < i || a.ghosts[k].x != a.pacman.x || a.ghosts[k].y != a.pacman.y) ==>
              r.ghosts[k] == a.ghosts[k]
    decreases |a.ghosts| - i
  {
    if i >= |a.ghosts| then a
    else
      var (p, g) := CollideOne(a.pacman, a.ghosts[i], deathDuration);
      CollideFrom(Actors(p, a.ghosts[i := g]), i + 1, deathDuration)
  }

  /** checkCollisions: nothing happens while pacman is dead. */
  function Collided(a: Actors, deathDuration: int): (r: Actors)
    ensures a.pacman.deadRemainingDuration != 0 ==> r == a
    ensures |r.ghosts| == |a.ghosts|
  {
    if a.pacman.deadRemainingDuration != 0 then a else CollideFrom(a, 0, deathDuration)
  }

  /** Collisions only ever turn a scared ghost into eyes, remembering its
      name; eyes and ghosts away from pacman are untouched. */
  lemma {:induction false} CollisionsOnlyEatScaredGhosts(a: Actors, i: nat, deathDuration: int)
    ensures var r := CollideFrom(a, i, deathDuration);
            forall k :: 0 <= k < |a.ghosts| ==>
              r.ghosts[k] == a.ghosts[k]
              || (a.ghosts[k].scared && a.ghosts[k].name != Eyes && r.ghosts[k].name == Eyes
                  && r.ghosts[k].originalName == Some(a.ghosts[k].name))
    ensures var r := CollideFrom(a, i, deathDuration);
            forall k :: 0 <= k < |a.ghosts| && a.ghosts[k].name == Eyes ==> r.ghosts[k] == a.ghosts[k]
    decreases |a.ghosts| - i
  {
    if i < |a.ghosts| {
      var (p, g) := CollideOne(a.pacman, a.ghosts[i], deathDuration);
      var next := Actors(p, a.ghosts[i := g]);
      CollisionsOnlyEatScaredGhosts(next, i + 1, deathDuration);
    }
  }

  /** The death countdown is only started from 0: a collision leaves it as it
      was or sets it to PACMAN_DEATH_DURATION when it was 0; the power-up
      countdown only ever drops to 0. */
  lemma {:induction false} CollisionsStartDeathOnlyFromZero(a: Actors, i: nat, deathDuration: int)
    ensures var r := CollideFrom(a, i, deathDuration);
            (r.pacman.deadRemainingDuration == a.pacman.deadRemainingDuration
             || (a.pacman.deadRemainingDuration == 0 && r.pacman.deadRemainingDuration == deathDuration))
            && (r.pacman.powerupRemainingDuration == a.pacman.powerupRemainingDuration
                || r.pacman.powerupRemainingDuration == 0)
    decreases |a.ghosts| - i
  {
    if i < |a.ghosts| {
      var (p, g) := CollideOne(a.pacman, a.ghosts[i], deathDuration);
      CollisionsStartDeathOnlyFromZero(Actors(p, a.ghosts[i := g]), i + 1, deathDuration);
    }
  }

  /** Collisions never change a ghost's countdowns. */
  lemma {:induction false} CollisionsKeepCountdowns(a: Actors, i: nat, deathDuration: int)
    ensures var r := CollideFrom(a, i, deathDuration);
            forall k :: 0 <= k < |a.ghosts| ==>
              r.ghosts[k].freezeCounter == a.ghosts[k].freezeCounter
              && r.ghosts[k].respawnCounter == a.ghosts[k].respawnCounter
    decreases |a.ghosts| - i
  {
    if i < |a.ghosts| {
      var (p, g) := CollideOne(a.pacman, a.ghosts[i], deathDuration);
      CollisionsKeepCountdowns(Actors(p, a.ghosts[i := g]), i + 1, deathDuration);
    }
  }

  /* ---------- the frame ---------- */

  /** JavaScript's remainder, which takes the sign of the dividend. */
  function JsRemainder(a: int, b: int): (r: int)
    requires b != 0
    ensures Abs(r) < Abs(b)
    ensures a >= 0 ==> r >= 0
    ensures a < 0 ==> r <= 0
    ensures exists q :: a == q * Abs(b) + r
  {
    var n := Abs(b);
    if a >= 0 then
      assert a == (a / n) * n + a % n;
      a % n
    else
      assert -a == ((-a) / n) * n + (-a) % n;
      assert a == (-((-a) / n)) * n + -((-a) % n);
      -((-a) % n)
  }

  /** Whether a frame is skipped: its number is not a multiple of gameSpeed.
      A gameSpeed of 0 makes the remainder NaN, so every frame is skipped. */
  predicate Skipped(gameSpeed: int, frame: int)
    ensures gameSpeed == 0 ==> Skipped(gameSpeed, frame)
    ensures gameSpeed != 0 && frame >= 0 ==> (Skipped(gameSpeed, frame) <==> frame % Abs(gameSpeed) != 0)
  {
    gameSpeed == 0 || JsRemainder(frame, gameSpeed) != 0
  }

  /** Frame numbers count up from 1: with gameSpeed 1 no frame is skipped,
      and with gameSpeed k > 0 exactly the multiples of k are played. */
  lemma PlayedFramesAreMultiples(gameSpeed: int, frame: int)
    requires gameSpeed > 0 && frame >= 0
    ensures !Skipped(gameSpeed, frame) <==> frame % gameSpeed == 0
    ensures gameSpeed == 1 ==> !Skipped(gameSpeed, frame)
  {
  }

  /** The effect of movePacman on pacman. */
  function ApplyStep(p: Pacman, step: PacmanStep): Pacman {
    p.(x := step.x, y := step.y, direction := step.direction, points := step.points,
       totalPoints := step.totalPoints, recentPositions := step.recentPositions)
  }

  /** The countdown stages of a frame that is played: the death countdown,
      the power-up countdown and the ghost-house counters. */
  function Countdowns(cfg: Config, grid: Grid, a: Actors): (r: Actors)
    requires PlacementDefined(grid, cfg.useCustomStartPositions)
    ensures r.pacman.deadRemainingDuration ==
              if a.pacman.deadRemainingDuration > 0 then a.pacman.deadRemainingDuration - 1 else a.pacman.deadRemainingDuration
    ensures r.pacman.powerupRemainingDuration ==
              if a.pacman.powerupRemainingDuration > 0 then a.pacman.powerupRemainingDuration - 1 else a.pacman.powerupRemainingDuration
    ensures a.pacman.deadRemainingDuration == 1 ==> r.pacman.x == ResetX && r.pacman.y == ResetY && |r.ghosts| == 4
    ensures a.pacman.deadRemainingDuration != 1 ==>
              r.pacman.x == a.pacman.x && r.pacman.y == a.pacman.y && |r.ghosts| == |a.ghosts|
  {
    var b := PowerCountdown(DeadCountdown(cfg, grid, a));
    Actors(b.pacman, HouseFrom(b.ghosts, 0, b.pacman.powerupRemainingDuration))
  }

  /** movePacman, the power-up trigger and the first collision check. */
  function PacmanStage(cfg: Config, a: Actors, step: PacmanStep): Actors {
    Collided(PowerTrigger(step.grid, Actors(ApplyStep(a.pacman, step), a.ghosts)), cfg.deathDuration)
  }

  /** The rest of a played frame: pacman's stage, then, while pacman is
      alive, the ghosts' moves (which also advance the mode clock and count
      the dots) and a second collision check; the mouth toggles. */
  function Movements(cfg: Config, w: World, step: PacmanStep, draws: nat -> Draws): (r: World)
    requires Rectangular(step.grid, cfg.maze.width, cfg.maze.height)
    ensures r.frameCount == w.frameCount && r.history == w.history && r.grid == step.grid && r.mouthOpen == !w.mouthOpen
    ensures var a := PacmanStage(cfg, Actors(w.pacman, w.ghosts), step);
            a.pacman.deadRemainingDuration != 0 ==>
              r.pacman == a.pacman && r.ghosts == a.ghosts && r.clock == w.clock && r.dots == w.dots
    ensures var a := PacmanStage(cfg, Actors(w.pacman, w.ghosts), step);
            a.pacman.deadRemainingDuration == 0 ==>
              r.clock == NextClock(w.clock, a.pacman.powerupRemainingDuration)
              && r.dots == Dots(step.grid, cfg.maze.width, cfg.maze.height) && |r.ghosts| == |w.ghosts|
  {
    var a := PacmanStage(cfg, Actors(w.pacman, w.ghosts), step);
    if a.pacman.deadRemainingDuration == 0 then
      var b := Collided(Actors(a.pacman, MovedGhosts(cfg.maze, w.clock, a.pacman, a.ghosts, draws)), cfg.deathDuration);
      w.(pacman := b.pacman, ghosts := b.ghosts, grid := step.grid, mouthOpen := !w.mouthOpen,
         clock := NextClock(w.clock, a.pacman.powerupRemainingDuration),
         dots := Dots(step.grid, cfg.maze.width, cfg.maze.height))
    else
      w.(pacman := a.pacman, ghosts := a.ghosts, grid := step.grid, mouthOpen := !w.mouthOpen)
  }

  /** updateGame as a function of the world before the frame, the effect of
      movePacman and the ghosts' random draws. */
  function Tick(cfg: Config, w: World, step: PacmanStep, draws: nat -> Draws): (r: Outcome)
    requires PlacementDefined(w.grid, cfg.useCustomStartPositions)
    requires Rectangular(step.grid, cfg.maze.width, cfg.maze.height)
    ensures r.world.frameCount == w.frameCount + 1
    ensures r.over <==> !Skipped(cfg.gameSpeed, w.frameCount + 1) && !AnyCommits(w.grid)
    ensures !r.over ==> r.world.history == w.history + [SnapshotOf(r.world)]
    ensures r.over ==> r.world.history == w.history
    ensures r.over ==> r.world == w.(frameCount := w.frameCount + 1, pacman := r.world.pacman, ghosts := r.world.ghosts)
    ensures r.over ==> Actors(r.world.pacman, r.world.ghosts) == Countdowns(cfg, w.grid, Actors(w.pacman, w.ghosts))
  {
    var frame := w.frameCount + 1;
    if Skipped(cfg.gameSpeed, frame) then
      Outcome(w.(frameCount := frame, history := w.history + [SnapshotOf(w)]), false)
    else Played(cfg, w.(frameCount := frame), step, draws)
  }

  /** A frame that is played, once its number is counted: the countdowns, then
      either the end of the game or the movement stages and a snapshot. */
  function Played(cfg: Config, w: World, step: PacmanStep, draws: nat -> Draws): (r: Outcome)
    requires PlacementDefined(w.grid, cfg.useCustomStartPositions)
    requires Rectangular(step.grid, cfg.maze.width, cfg.maze.height)
    ensures r.over <==> !AnyCommits(w.grid)
    ensures r.world.frameCount == w.frameCount
    ensures r.over ==>
              r.world == w.(pacman := r.world.pacman, ghosts := r.world.ghosts)
              && Actors(r.world.pacman, r.world.ghosts) == Countdowns(cfg, w.grid, Actors(w.pacman, w.ghosts))
    ensures !r.over ==> r.world.history == w.history + [SnapshotOf(r.world)] && r.world.grid == step.grid
  {
    var a := Countdowns(cfg, w.grid, Actors(w.pacman, w.ghosts));
    var w1 := w.(pacman := a.pacman, ghosts := a.ghosts);
    if !AnyCommits(w.grid) then
      Outcome(w1, true)
    else
      var w2 := Movements(cfg, w1, step, draws);
      Outcome(w2.(history := w2.history + [SnapshotOf(w2)]), false)
  }

  /** A skipped frame counts the frame, records one snapshot of the unchanged
      state and changes nothing else. */
  lemma SkippedFrameOnlyRecords(cfg: Config, w: World, step: PacmanStep, draws: nat -> Draws)
    requires PlacementDefined(w.grid, cfg.useCustomStartPositions)
    requires Rectangular(step.grid, cfg.maze.width, cfg.maze.height)
    requires Skipped(cfg.gameSpeed, w.frameCount + 1)
    ensures Tick(cfg, w, step, draws)
            == Outcome(w.(frameCount := w.frameCount + 1, history := w.history + [SnapshotOf(w)]), false)
  {
  }

  /** While pacman stays dead through a played frame, the ghosts do not move:
      the mode clock and the dot count stand still and the death countdown
      drops by one. */
  lemma {:induction false} DeadPacmanFreezesGhosts(cfg: Config, w: World, step: PacmanStep, draws: nat -> Draws)
    requires PlacementDefined(w.grid, cfg.useCustomStartPositions)
    requires Rectangular(step.grid, cfg.maze.width, cfg.maze.height)
    requires w.pacman.deadRemainingDuration > 1
    ensures var r := Tick(cfg, w, step, draws);
            r.world.clock == w.clock && r.world.dots == w.dots
            && (Skipped(cfg.gameSpeed, w.frameCount + 1) || r.world.pacman.deadRemainingDuration == w.pacman.deadRemainingDuration - 1)
    ensures var r := Tick(cfg, w, step, draws);
            Skipped(cfg.gameSpeed, w.frameCount + 1) ==> r.world.ghosts == w.ghosts
    ensures var r := Tick(cfg, w, step, draws);
            var a := Countdowns(cfg, w.grid, Actors(w.pacman, w.ghosts));
            !Skipped(cfg.gameSpeed, w.frameCount + 1) ==>
              |r.world.ghosts| == |a.ghosts|
              && forall k :: 0 <= k < |a.ghosts| ==> r.world.ghosts[k] == a.ghosts[k].(scared := r.world.ghosts[k].scared)
  {
    if !Skipped(cfg.gameSpeed, w.frameCount + 1) {
      var a := Countdowns(cfg, w.grid, Actors(w.pacman, w.ghosts));
      var w1 := w.(frameCount := w.frameCount + 1, pacman := a.pacman, ghosts := a.ghosts);
      DeadStageKeepsGhosts(cfg, Actors(w1.pacman, w1.ghosts), step);
    }
  }

  /** With pacman dead, the pacman stage keeps him dead and changes no ghost
      but for its scared flag. */
  lemma DeadStageKeepsGhosts(cfg: Config, a: Actors, step: PacmanStep)
    requires a.pacman.deadRemainingDuration > 0
    ensures var s := PacmanStage(cfg, a, step);
            s.pacman.deadRemainingDuration == a.pacman.deadRemainingDuration
            && |s.ghosts| == |a.ghosts|
            && forall k :: 0 <= k < |a.ghosts| ==> s.ghosts[k] == a.ghosts[k].(scared := s.ghosts[k].scared)
  {
    var a0 := PowerTrigger(step.grid, Actors(ApplyStep(a.pacman, step), a.ghosts));
    assert a0.pacman.deadRemainingDuration == a.pacman.deadRemainingDuration;
  }

  /** The invariant of the world between frames: the grid keeps the maze's
      dimensions, every countdown is non-negative, and the mode timer stays
      below its threshold. */
  predicate WorldValid(cfg: Config, w: World) {
    Rectangular(w.grid, cfg.maze.width, cfg.maze.height)
    && w.frameCount >= 0
    && ActorsValid(Actors(w.pacman, w.ghosts))
    && 0 <= w.clock.timer < Threshold(w.clock.mode)
    && w.dots >= 0
  }

  /** Pacman's countdowns and every ghost's countdowns are non-negative. */
  predicate ActorsValid(a: Actors) {
    a.pacman.deadRemainingDuration >= 0 && a.pacman.powerupRemainingDuration >= 0 && CountdownsValid(a.ghosts)
  }

  /** What the configuration must give: a positive death duration, and for
      the custom placement, house cells inside the grid's rows. */
  predicate ConfigValid(cfg: Config) {
    cfg.deathDuration > 0
    && (cfg.useCustomStartPositions ==>
          forall p :: p in HousePositions(cfg.maze.width / 2) ==> 0 <= p.y < cfg.maze.height ==> 0 <= p.x < cfg.maze.width)
  }

  lemma PlacementDefinedOnMaze(cfg: Config, grid: Grid)
    requires ConfigValid(cfg) && Rectangular(grid, cfg.maze.width, cfg.maze.height)
    ensures PlacementDefined(grid, cfg.useCustomStartPositions)
  {
    assert |grid[0]| == cfg.maze.width;
  }

  /** The countdown stages keep every countdown non-negative. */
  lemma CountdownsKeepActorsValid(cfg: Config, grid: Grid, a: Actors)
    requires PlacementDefined(grid, cfg.useCustomStartPositions)
    requires ActorsValid(a)
    ensures ActorsValid(Countdowns(cfg, grid, a))
  {
    var d := DeadCountdown(cfg, grid, a);
    assert ActorsValid(d);
    var b := PowerCountdown(d);
    assert ActorsValid(b);
    HouseFromKeepsCountdowns(b.ghosts, 0, b.pacman.powerupRemainingDuration);
  }

  /** Collisions keep every countdown non-negative when the death duration is. */
  lemma CollidedKeepsActorsValid(a: Actors, deathDuration: int)
    requires ActorsValid(a) && deathDuration >= 0
    ensures ActorsValid(Collided(a, deathDuration))
  {
    if a.pacman.deadRemainingDuration == 0 {
      CollisionsKeepCountdowns(a, 0, deathDuration);
      CollisionsStartDeathOnlyFromZero(a, 0, deathDuration);
    }
  }

  /** The movement stages keep the world valid. */
  lemma {:induction false} MovementsKeepWorldValid(cfg: Config, w: World, step: PacmanStep, draws: nat -> Draws)
    requires ConfigValid(cfg) && WorldValid(cfg, w)
    requires Rectangular(step.grid, cfg.maze.width, cfg.maze.height)
    ensures WorldValid(cfg, Movements(cfg, w, step, draws))
  {
    var a0 := PowerTrigger(step.grid, Actors(ApplyStep(w.pacman, step), w.ghosts));
    assert ActorsValid(a0);
    CollidedKeepsActorsValid(a0, cfg.deathDuration);
    var a := PacmanStage(cfg, Actors(w.pacman, w.ghosts), step);
    if a.pacman.deadRemainingDuration == 0 {
      var p := a.pacman.powerupRemainingDuration;
      var turned := if Flips(w.clock, p) then ReverseEligible(a.ghosts) else a.ghosts;
      assert CountdownsValid(turned);
      MoveFromKeepsCountdowns(cfg.maze, NextClock(w.clock, p).mode, a.pacman, turned, 0, draws);
      var moved := MovedGhosts(cfg.maze, w.clock, a.pacman, a.ghosts, draws);
      assert CountdownsValid(moved);
      CollidedKeepsActorsValid(Actors(a.pacman, moved), cfg.deathDuration);
    }
  }

  /** Every frame keeps the world valid. */
  lemma {:induction false} TickKeepsWorldValid(cfg: Config, w: World, step: PacmanStep, draws: nat -> Draws)
    requires ConfigValid(cfg) && WorldValid(cfg, w)
    requires Rectangular(step.grid, cfg.maze.width, cfg.maze.height)
    ensures PlacementDefined(w.grid, cfg.useCustomStartPositions)
    ensures WorldValid(cfg, Tick(cfg, w, step, draws).world)
  {
    PlacementDefinedOnMaze(cfg, w.grid);
    var r := Tick(cfg, w, step, draws).world;
    if Skipped(cfg.gameSpeed, w.frameCount + 1) {
      assert r == w.(frameCount := w.frameCount + 1, history := w.history + [SnapshotOf(w)]);
    } else {
      var a := Countdowns(cfg, w.grid, Actors(w.pacman, w.ghosts));
      CountdownsKeepActorsValid(cfg, w.grid, Actors(w.pacman, w.ghosts));
      var w1 := w.(frameCount := w.frameCount + 1, pacman := a.pacman, ghosts := a.ghosts);
      assert WorldValid(cfg, w1);
      if AnyCommits(w.grid) {
        var w2 := Movements(cfg, w1, step, draws);
        MovementsKeepWorldValid(cfg, w1, step, draws);
        assert r == w2.(history := w2.history + [SnapshotOf(w2)]);
      } else {
        assert r == w1;
      }
    }
  }

  /* ---------- the store ---------- */

  /** The game store: the state updateGame reads and writes. The mode clock
      and the dot count live in the ghost movement's ModeState. */
  class Store {
    const config: Config
    const modes: ModeState
    var frameCount: int
    var pacman: Pacman
    var ghosts: seq<Ghost>
    var grid: Grid
    var gameHistory: seq<Snapshot>
    var pacmanMouthOpen: bool

    function View(): World
      reads this, modes
    {
      World(frameCount, pacman, ghosts, grid, gameHistory, pacmanMouthOpen, modes.Clock(), modes.dotsRemaining)
    }

    ghost predicate Valid()
      reads this, modes
    {
      ConfigValid(config) && WorldValid(config, View())
    }

    /** startGame's setup: frame 0, an empty history, every ghost unscared,
        the grid built from the contribution data, and, when some cell has
        contributions, pacman and the ghosts placed. The mode clock starts
        in scatter mode at 0. The mouth flag is left as the store had it. */
    constructor StartGame(cfg: Config, data: Grid, pacman0: Pacman, ghosts0: seq<Ghost>, mouthOpen0: bool, pick: nat)
      requires ConfigValid(cfg) && Rectangular(data, cfg.maze.width, cfg.maze.height)
      requires ActorsValid(Actors(pacman0, ghosts0))
      ensures config == cfg && frameCount == 0 && gameHistory == [] && grid == data
      ensures pacmanMouthOpen == mouthOpen0
      ensures AnyCommits(data) ==>
                pacman == PlacePacman(data, cfg.useCustomStartPositions, pick, pacman0)
                && ghosts == PlaceGhosts(data, cfg.useCustomStartPositions)
      ensures !AnyCommits(data) ==>
                pacman == pacman0 && |ghosts| == |ghosts0|
                && forall k :: 0 <= k < |ghosts0| ==> ghosts[k] == ghosts0[k].(scared := false)
      ensures fresh(modes) && modes.Clock() == ModeClock(Scatter, 0)
      ensures Valid()
    {
      config := cfg;
      modes := new ModeState();
      frameCount := 0;
      gameHistory := [];
      pacmanMouthOpen := mouthOpen0;
      var gs := ghosts0;
      for i := 0 to |gs|
        invariant |gs| == |ghosts0|
        invariant forall k :: 0 <= k < i ==> gs[k] == ghosts0[k].(scared := false)
        invariant forall k :: i <= k < |gs| ==> gs[k] == ghosts0[k]
      {
        gs := gs[i := gs[i].(scared := false)];
      }
      ghosts := gs;
      grid := data;
      pacman := pacman0;
      PlacementDefinedOnMaze(cfg, data);
      if AnyCommits(data) {
        pacman := PlacePacman(data, cfg.useCustomStartPositions, pick, pacman0);
        ghosts := PlaceGhosts(data, cfg.useCustomStartPositions);
      }
    }

    /** resetPacman. */
    method ResetPacman()
      modifies this
      ensures View() == old(View()).(pacman := AfterReset(old(pacman)))
    {
      pacman := pacman.(x := ResetX, y := ResetY, direction := Right, recentPositions := []);
    }

    /** pushSnapshot: append a copy of pacman, the ghosts and the grid. */
    method PushSnapshot()
      modifies this
      ensures View() == old(View()).(history := old(gameHistory) + [SnapshotOf(old(View()))])
    {
      gameHistory := gameHistory + [Snapshot(pacman, ghosts, grid)];
    }

    /** The forEach that sets `scared` on every ghost but the eyes. */
    method SetScaredAll(b: bool)
      modifies this
      ensures View() == old(View()).(ghosts := SetScared(old(ghosts), b))
    {
      ghost var gs0 := ghosts;
      for i := 0 to |ghosts|
        invariant |ghosts| == |gs0|
        invariant forall k :: 0 <= k < i ==> ghosts[k] == SetScared(gs0, b)[k]
        invariant forall k :: i <= k < |ghosts| ==> ghosts[k] == gs0[k]
        invariant View() == old(View()).(ghosts := ghosts)
      {
        if ghosts[i].name != Eyes {
          ghosts := ghosts[i := ghosts[i].(scared := b)];
        }
      }
    }

    /** releaseGhostFromHouse: find the first ghost in the house with the
        given name and release it. */
    method ReleaseGhostFromHouse(name: GhostName)
      modifies this
      ensures View() == old(View()).(ghosts := Released(old(ghosts), name))
    {
      var j := 0;
      while j < |ghosts| && !(ghosts[j].name == name && ghosts[j].inHouse)
        invariant 0 <= j <= |ghosts|
        invariant forall k :: 0 <= k < j ==> !(ghosts[k].name == name && ghosts[k].inHouse)
      {
        j := j + 1;
      }
      if j < |ghosts| {
        ghosts := ghosts[j := ghosts[j].(justReleasedFromHouse := true, y := DoorY, direction := Up)];
      }
    }

    /** The body of the forEach over the ghosts in updateGame, for ghost i:
        its respawn counter, then its release counter. */
    method HouseCounter(i: nat, powerup: int)
      requires i < |ghosts|
      modifies this
      ensures View() == old(View()).(ghosts := HouseStep(old(ghosts), i, powerup))
    {
      ghost var gs0 := ghosts;
      var g := ghosts[i];
      if g.inHouse && g.respawnCounter > 0 {
        g := g.(respawnCounter := g.respawnCounter - 1);
        if g.respawnCounter == 0 {
          g := g.(name := if g.originalName.Some? then g.originalName.value else DetermineGhostName(i),
                  inHouse := false, scared := powerup > 0, justReleasedFromHouse := true);
        }
        ghosts := ghosts[i := g];
      }
      assert g == Respawned(gs0[i], i, powerup) && ghosts == gs0[i := g];
      if g.freezeCounter != 0 {
        g := g.(freezeCounter := g.freezeCounter - 1);
        ghosts := ghosts[i := g];
        if g.freezeCounter == 0 {
          ReleaseGhostFromHouse(g.name);
        }
      }
    }

    /** The forEach over the ghosts in updateGame: respawn and release
        counters. */
    method HouseCounters()
      modifies this
      ensures View() == old(View()).(ghosts := HouseFrom(old(ghosts), 0, pacman.powerupRemainingDuration))
    {
      ghost var gs0 := ghosts;
      var powerup := pacman.powerupRemainingDuration;
      for i := 0 to |ghosts|
        invariant |ghosts| == |gs0|
        invariant HouseFrom(ghosts, i, powerup) == HouseFrom(gs0, 0, powerup)
        invariant View() == old(View()).(ghosts := ghosts)
      {
        HouseCounter(i, powerup);
      }
    }

    /** The death countdown of updateGame. */
    method DeathCountdown()
      requires PlacementDefined(grid, config.useCustomStartPositions)
      modifies this
      ensures View() == old(View()).(pacman := pacman, ghosts := ghosts)
      ensures Actors(pacman, ghosts) == DeadCountdown(config, grid, Actors(old(pacman), old(ghosts)))
    {
      if pacman.deadRemainingDuration > 0 {
        pacman := pacman.(deadRemainingDuration := pacman.deadRemainingDuration - 1);
        if pacman.deadRemainingDuration == 0 {
          ResetPacman();
          ghosts := PlaceGhosts(grid, config.useCustomStartPositions);
        }
      }
    }

    /** The power-up countdown of updateGame. */
    method PowerupCountdown()
      modifies this
      ensures View() == old(View()).(pacman := pacman, ghosts := ghosts)
      ensures Actors(pacman, ghosts) == PowerCountdown(Actors(old(pacman), old(ghosts)))
    {
      if pacman.powerupRemainingDuration > 0 {
        pacman := pacman.(powerupRemainingDuration := pacman.powerupRemainingDuration - 1);
        if pacman.powerupRemainingDuration == 0 {
          SetScaredAll(false);
          pacman := pacman.(points := 0);
        }
      }
    }

    /** The countdown stages of a played frame. */
    method UpdateCountdowns()
      requires PlacementDefined(grid, config.useCustomStartPositions)
      modifies this
      ensures View() == old(View()).(pacman := pacman, ghosts := ghosts)
      ensures Actors(pacman, ghosts) == Countdowns(config, grid, Actors(old(pacman), old(ghosts)))
    {
      DeathCountdown();
      PowerupCountdown();
      HouseCounters();
    }

    /** checkCollisions. */
    method CheckCollisions()
      modifies this
      ensures View() == old(View()).(pacman := pacman, ghosts := ghosts)
      ensures Actors(pacman, ghosts) == Collided(Actors(old(pacman), old(ghosts)), config.deathDuration)
    {
      if pacman.deadRemainingDuration != 0 {
        return;
      }
      ghost var a0 := Actors(pacman, ghosts);
      for i := 0 to |ghosts|
        invariant |ghosts| == |a0.ghosts|
        invariant CollideFrom(Actors(pacman, ghosts), i, config.deathDuration) == CollideFrom(a0, 0, config.deathDuration)
        invariant View() == old(View()).(pacman := pacman, ghosts := ghosts)
      {
        ghost var before := Actors(pacman, ghosts);
        var g := ghosts[i];
        if g.name != Eyes && g.x == pacman.x && g.y == pacman.y {
          if pacman.powerupRemainingDuration != 0 && g.scared {
            ghosts := ghosts[i := g.(originalName := Some(g.name), name := Eyes, scared := false, target := Some(Respawn))];
            pacman := pacman.(points := pacman.points + EatBonus);
          } else {
            pacman := pacman.(points := 0, powerupRemainingDuration := 0);
            if pacman.deadRemainingDuration == 0 {
              pacman := pacman.(deadRemainingDuration := config.deathDuration);
            }
          }
        }
        assert (pacman, ghosts[i]) == CollideOne(before.pacman, before.ghosts[i], config.deathDuration);
        assert ghosts == before.ghosts[i := ghosts[i]];
      }
    }

    /** movePacman's effect, the power-up trigger and the first collision check. */
    method PacmanMoves(step: PacmanStep)
      modifies this
      ensures View() == old(View()).(pacman := pacman, ghosts := ghosts, grid := step.grid)
      ensures Actors(pacman, ghosts) == PacmanStage(config, Actors(old(pacman), old(ghosts)), step)
    {
      pacman := ApplyStep(pacman, step);
      grid := step.grid;
      var cell := CellAt(grid, pacman.x, pacman.y);
      if cell.Some? && cell.value.level == FourthQuartile && pacman.powerupRemainingDuration == 0 {
        pacman := pacman.(powerupRemainingDuration := PowerUpDuration);
        SetScaredAll(true);
      }
      CheckCollisions();
    }

    /** The movement stages of a played frame. */
    method MoveActors(step: PacmanStep, draws: nat -> Draws)
      requires Rectangular(step.grid, config.maze.width, config.maze.height)
      modifies this, modes
      ensures View() == Movements(config, old(View()), step, draws)
    {
      PacmanMoves(step);
      if pacman.deadRemainingDuration == 0 {
        ghosts := modes.MoveGhosts(config.maze, grid, pacman, ghosts, draws);
        CheckCollisions();
      }
      pacmanMouthOpen := !pacmanMouthOpen;
    }

    /** updateGame: one frame. It returns whether the game ended, which is
        when the game-over callback is called. */
    method UpdateGame(step: PacmanStep, draws: nat -> Draws) returns (over: bool)
      requires Valid()
      requires Rectangular(step.grid, config.maze.width, config.maze.height)
      modifies this, modes
      ensures PlacementDefined(old(grid), config.useCustomStartPositions)
      ensures Outcome(View(), over) == Tick(config, old(View()), step, draws)
      ensures Valid()
    {
      TickKeepsWorldValid(config, View(), step, draws);
      over := AdvanceFrame(step, draws);
    }

    /** updateGame's frame counting and frame skipping around PlayFrame. */
    method AdvanceFrame(step: PacmanStep, draws: nat -> Draws) returns (over: bool)
      requires PlacementDefined(grid, config.useCustomStartPositions)
      requires Rectangular(step.grid, config.maze.width, config.maze.height)
      modifies this, modes
      ensures Outcome(View(), over) == Tick(config, old(View()), step, draws)
    {
      ghost var w := View();
      frameCount := frameCount + 1;
      if Skipped(config.gameSpeed, frameCount) {
        PushSnapshot();
        return false;
      }
      ghost var w1 := View();
      over := PlayFrame(step, draws);
      assert Tick(config, w, step, draws) == Played(config, w1, step, draws);
    }

    /** The part of updateGame after the frame-skipping test. */
    method PlayFrame(step: PacmanStep, draws: nat -> Draws) returns (over: bool)
      requires PlacementDefined(grid, config.useCustomStartPositions)
      requires Rectangular(step.grid, config.maze.width, config.maze.height)
      modifies this, modes
      ensures Outcome(View(), over) == Played(config, old(View()), step, draws)
    {
      UpdateCountdowns();
      if !AnyCommits(grid) {
        return true;
      }
      MoveActors(step, draws);
      PushSnapshot();
      return false;
    }
  }
}
