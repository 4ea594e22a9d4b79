# Ghost and tick engine of pacman-contribution-graph, in Dafny

pacman-contribution-graph plays Pac-Man on a GitHub or GitLab contribution
graph. Every cell of the graph is a pellet. Cells with contributions are the
corridors the ghosts may walk. The game runs frame by frame until pacman has
eaten every cell.

This project models the two core files of that engine.

- `src/movement/ghosts-movement.ts` holds the ghosts' behaviour:
  - the scatter/chase mode clock and the direction reversal at each mode
    switch;
  - the per-ghost state machine: in the house, released, respawning, scared,
    eyes going home, scatter and chase;
  - the personal targets of blinky, pinky, inky and clyde;
  - the breadth-first search `BFSTargetLocation`, which never turns a ghost
    around unless that is its only way;
  - the dot count.
- `src/core/game.ts` holds the frame loop `updateGame`:
  - frame skipping by `gameSpeed`;
  - the death and power-up countdowns;
  - the ghost-house respawn and release counters;
  - the end of the game and the power-up trigger;
  - collisions, placement of pacman and the ghosts, and the append-only
    snapshot history.

## Modules

- `types.dfy` (`Types`): pacman, ghosts, grid cells, points, moves and
  directions, all as values.
- `board.dfy` (`Board`): the maze.
  - The grid dimensions and which cells can be walked on.
  - The valid unit moves from a cell, in the order right, left, down, up.
  - Opposite directions, clamping and Manhattan distance.
- `pathfinding.dfy` (`Pathfinding`): `BFSTargetLocation`.
  - The functions `Search` and `NextStep` specify it.
  - Lemmas prove what the search guarantees.
  - The method `BfsTargetLocation` runs the source's queue loop and is
    proved to return `NextStep`.
- `ghosts.dfy` (`GhostsMovement`): the per-ghost routines as functions, with
  their contracts.
  - The module-level `currentMode`, `modeTimer` and `dotsRemaining` are the
    fields of the class `ModeState`.
  - Its methods `UpdateGameMode` and `MoveGhosts` run the source's loops.
  - They are proved to reach the state that `NextClock`, `ReverseEligible`
    and `MovedGhosts` describe.
- `game.dfy` (`Game`): the store and the frame.
  - `Tick` is one call of `updateGame` as a function of the world before it.
  - The class `Store` holds the store's fields.
  - Its method `UpdateGame` performs the frame step by step and is proved to
    end in the world `Tick` gives.
  - Lemmas prove the properties of the frame: frame counting, the snapshot
    history, countdowns that never go negative, and who may change what.

Grids are indexed row first everywhere, `grid[y][x]`:

- the contribution counts (`contributionGrid`, `Maze.counts`);
- the pellet grid (`store.grid`, `Grid`).

That is how `placePacman` (src/core/game.ts:39-43) and `placeGhosts`
(src/core/game.ts:122 and 132) read `store.grid`. Two reads in the source are
written the other way round: `countRemainingDots` (src/movement/ghosts-movement.ts:59)
and the power-up cell (src/core/game.ts:281). The model reads the cell at
column x, row y in both places.

## Model

| member | source | states |
|---|---|---|
| Board.ValidMoves | src/movement/ghosts-movement.ts:195-211 | the moves from a cell are exactly the unit moves onto in-bounds cells with contributions, each listed once |
| Board.Opposite | src/movement/ghosts-movement.ts:94-109 | the opposite direction differs from the direction and its unit move points the other way |
| Board.ReversalIsOppositeMove | src/movement/ghosts-movement.ts:268-283 | on unit moves, the reversal test of the source holds exactly for the move of the opposite direction |
| Board.DirectionOf | src/movement/ghosts-movement.ts:425-431 | the direction reported for a unit move is the direction whose delta is that move; a zero move keeps the old direction |
| Board.Clamp | src/movement/ghosts-movement.ts:497-498 | Math.min(Math.max(v, lo), hi) lies in [lo, hi], is v inside it and the nearer bound outside it |
| Board.CellAt | src/core/game.ts:281 | the optional read of a grid cell is present exactly when the row and the column exist, and is then that cell |
| Pathfinding.FilteredMoves | src/movement/ghosts-movement.ts:398-415 | a move is kept exactly when it is valid and either not a reversal or the node's only valid move |
| Pathfinding.SearchMoves | src/movement/ghosts-movement.ts:395-415 | the moves the search follows from a node are exactly the valid ones that do not turn it around, unless turning around is its sole move |
| Pathfinding.UnvisitedShrinks | src/movement/ghosts-movement.ts:387-424 | every new visited cell lies in the finite grid, so each cell enqueued shrinks the unvisited part and the search terminates |
| Pathfinding.Expand | src/movement/ghosts-movement.ts:417-450 | expanding a node only adds grid cells to the visited set, leaves the queue alone when it adds none, and a found path is one node longer |
| Pathfinding.ExpandSkipsVisited | src/movement/ghosts-movement.ts:417-423 | a move onto a visited cell is skipped: the expansion goes on with the remaining moves and the same queue and visited set |
| Pathfinding.ExpandReachesTarget | src/movement/ghosts-movement.ts:421-450 | a move onto the unvisited target ends the expansion with the node's path extended by that cell and the move's direction |
| Pathfinding.ExpandEnqueues | src/movement/ghosts-movement.ts:421-453 | a move onto another unvisited cell marks it visited and appends it, with the extended path and the move's direction, to the queue |
| Pathfinding.ExpandFoundChild | src/movement/ghosts-movement.ts:417-450 | a path found while expanding a node is the node's path extended by one of its moves, and that move lands on the target |
| Pathfinding.ExpandQueuesChildren | src/movement/ghosts-movement.ts:417-453 | expanding a node keeps the old queue as a prefix and only appends cells one of the node's moves leads to |
| Pathfinding.WalkFirstStep | src/movement/ghosts-movement.ts:438-447 | the first node of any path the search builds is a kept move from the start |
| Pathfinding.ExpandKeepsQueueOk | src/movement/ghosts-movement.ts:417-450 | every queued item stands at the end of a walk of kept moves from the start, facing the way it entered, and expanding a node keeps that so |
| Pathfinding.ExpandFindsWalk | src/movement/ghosts-movement.ts:428-447 | a path found while expanding a node is a walk of kept moves from the start ending at the target |
| Pathfinding.SearchFindsWalk | src/movement/ghosts-movement.ts:389-452 | every path the search returns is a non-empty walk of kept moves from the start that ends at the target |
| Pathfinding.ExpandEnqueuesOnce | src/movement/ghosts-movement.ts:405-424 | each cell is enqueued at most once: queued cells are visited and pairwise distinct, before and after a node is expanded |
| Pathfinding.SearchFromDeadEnd | src/movement/ghosts-movement.ts:389-452 | from a start with no valid move the search finds nothing |
| Pathfinding.Search | src/movement/ghosts-movement.ts:389-452 | an empty queue finds nothing, and a found path is never empty |
| Pathfinding.NextStep | src/movement/ghosts-movement.ts:362-477 | no step when the ghost stands on its target; some step whenever it does not and has a valid move |
| Pathfinding.Fallback | src/movement/ghosts-movement.ts:457-477 | the fallback is absent exactly when the start has no valid move, and is otherwise one valid move from the start facing the direction of that move |
| Pathfinding.NextStepNoneIff | src/movement/ghosts-movement.ts:362-477 | BFSTargetLocation returns null exactly when the start is the target or the start has no valid move |
| Pathfinding.NextStepIsValidMove | src/movement/ghosts-movement.ts:443-477 | any step returned is one valid unit move from the start, and its direction is the direction of that move |
| Pathfinding.FoundStepNeverAnUnforcedReversal | src/movement/ghosts-movement.ts:398-449 | when a path is found, its first step turns the ghost around only when that is the start's one valid move |
| Pathfinding.ExpandNode | src/movement/ghosts-movement.ts:417-450 | the for loop over a node's moves ends in the expansion Expand specifies |
| Pathfinding.SearchLoop | src/movement/ghosts-movement.ts:389-452 | the while loop over the shifted queue returns what Search specifies |
| Pathfinding.Front | src/movement/ghosts-movement.ts:391-453 | one turn of the while loop only adds grid cells to the visited set, and leaves the rest of the queue alone when it adds none |
| Pathfinding.ExpandFront | src/movement/ghosts-movement.ts:391-453 | the body of the while loop, shifting the head off the queue and expanding it, ends as Front says |
| Pathfinding.RandomValidMove | src/movement/ghosts-movement.ts:457-477 | the fallback picks a valid move from the start, or null when there is none |
| Pathfinding.BfsTargetLocation | src/movement/ghosts-movement.ts:362-478 | the method returns exactly NextStep(start, target, direction, draw) |
| GhostsMovement.Threshold | src/movement/ghosts-movement.ts:76-78 | a mode lasts 7 × 5 = 35 frames in scatter and 20 × 5 = 100 in chase |
| GhostsMovement.NextClock | src/movement/ghosts-movement.ts:68-82 | during a power-up the clock is unchanged; otherwise the timer rises by one, and at the threshold the mode flips and the timer restarts at 0, so the timer stays below the active threshold |
| GhostsMovement.ScatterLastsThirtyFiveFrames | src/movement/ghosts-movement.ts:68-82 | from the initial clock, scatter lasts exactly 35 power-up-free frames before chase begins |
| GhostsMovement.ReverseDirection | src/movement/ghosts-movement.ts:94-109 | the ghost's direction becomes its opposite, and nothing else changes |
| GhostsMovement.ReverseEligible | src/movement/ghosts-movement.ts:84-91 | exactly the ghosts out of the house, not eyes and not scared change direction, to the opposite one; no other field of any ghost changes |
| GhostsMovement.ReverseEligibleTwice | src/movement/ghosts-movement.ts:84-109 | two mode switches in a row give every ghost its direction back |
| GhostsMovement.Bob | src/movement/ghosts-movement.ts:147-175 | a bobbing ghost ends on row 3 with x unchanged; only y and the direction change |
| GhostsMovement.MoveGhostInHouse | src/movement/ghosts-movement.ts:111-177 | a released ghost steps exactly one column toward x = 26 and faces that way, changing nothing else, and at x = 26 moves to y = 2 facing up and leaves the house; a respawning ghost counts down, changing only its counter, and at 0 takes back its original name, leaves the house and is scared exactly during a power-up; any other ghost bobs |
| GhostsMovement.ReleasedGhostLeaves | src/movement/ghosts-movement.ts:113-130 | a released ghost leaves the house after its distance to column 26 plus one frames, standing at (26, 2) facing up |
| GhostsMovement.ValidMovesWithoutReverse | src/movement/ghosts-movement.ts:264-284 | the moves kept are exactly the valid moves that do not reverse the ghost |
| GhostsMovement.DeadEndLeavesNoMove | src/movement/ghosts-movement.ts:264-284 | in a dead end, whose only valid move is back, no move is left |
| GhostsMovement.RandomDestination | src/movement/ghosts-movement.ts:552-560 | the random destination lies in the grid and, from a cell in the grid, within 8 cells on each axis |
| GhostsMovement.TowardMoves | src/movement/ghosts-movement.ts:235-244 | the good moves are exactly the valid moves that point toward the destination |
| GhostsMovement.ScaredChoice | src/movement/ghosts-movement.ts:227-248 | the chosen move is one of the valid moves, and one toward the destination whenever the draw does not say wander and such a move exists |
| GhostsMovement.MoveScaredGhost | src/movement/ghosts-movement.ts:214-262 | the target becomes the kept or new random destination; the ghost holds still exactly when no non-reversing move is left or the slow draw holds it during a power-up, and otherwise takes the move ScaredChoice picks among the non-reversing valid moves and faces it; only position, direction and target change |
| GhostsMovement.Follow | src/movement/ghosts-movement.ts:183-191 | a step of the search, when there is one, moves the ghost there and turns it that way |
| GhostsMovement.MoveEyesToHome | src/movement/ghosts-movement.ts:286-336 | eyes within one cell of (26, 3) on both axes snap onto it with inHouse set and respawnCounter 1; otherwise they take Dijkstra's step and face the direction of its signs, or the search's step toward (26, 3) when Dijkstra has none; only position and direction change |
| GhostsMovement.ScatterCorner | src/movement/ghosts-movement.ts:8-13 | every scatter corner lies in the grid |
| GhostsMovement.MoveGhostToScatterTarget | src/movement/ghosts-movement.ts:179-193 | the target becomes the ghost's corner and the ghost takes the search's step toward it |
| GhostsMovement.PacmanDirection | src/movement/ghosts-movement.ts:536-550 | the direction vector is the unit move of pacman's direction |
| GhostsMovement.CalculateGhostTarget | src/movement/ghosts-movement.ts:481-534 | blinky targets pacman's cell; pinky targets the cell four steps ahead of pacman, clamped into the grid axis by axis; inky targets the cell two steps ahead doubled away from blinky (or that cell itself without blinky), clamped the same way; clyde targets pacman when farther than 8 cells and the bottom-left corner otherwise |
| GhostsMovement.MoveGhostWithPersonality | src/movement/ghosts-movement.ts:338-360 | eyes go home; any other ghost aims at its personal target and takes the search's step toward it |
| GhostsMovement.MoveOne | src/movement/ghosts-movement.ts:27-51 | a ghost in the house runs only the house logic; eyes lose scared and go home; a scared ghost moves scared; the rest follow the mode. The release countdown is never touched |
| GhostsMovement.BlinkyOf | src/movement/ghosts-movement.ts:502 | blinky's position is that of a ghost named blinky, and is absent only when no ghost has that name |
| GhostsMovement.MoveFrom | src/movement/ghosts-movement.ts:27-51 | the loop keeps the number of ghosts and never changes a ghost it has already passed |
| GhostsMovement.MoveFromMovesInTurn | src/movement/ghosts-movement.ts:27-51 | ghost j is moved once by MoveOne, seeing blinky among the ghosts before it already moved and those after it not yet moved |
| GhostsMovement.MoveFromMovesEachInTurn | src/movement/ghosts-movement.ts:27-51 | every ghost from the loop's start on is moved once, in order, each seeing the ghosts before it already moved |
| GhostsMovement.MovedGhosts | src/movement/ghosts-movement.ts:20-52 | the ghosts, turned around on a mode switch, are each moved once in order in the new mode, and a ghost in the house only runs the house logic |
| GhostsMovement.MoveFromKeepsCountdowns | src/movement/ghosts-movement.ts:27-51 | moving the ghosts keeps every freeze counter and keeps respawn counters non-negative |
| GhostsMovement.InHouseGhostOnlyRunsHouseLogic | src/movement/ghosts-movement.ts:29-32 | a ghost in the house runs moveGhostInHouse and nothing else |
| GhostsMovement.EyesEndNotScared | src/movement/ghosts-movement.ts:34-43 | eyes out of the house are never scared after moving |
| GhostsMovement.ColumnDots | src/movement/ghosts-movement.ts:58-62 | one column holds at most GRID_HEIGHT dots |
| GhostsMovement.Dots | src/movement/ghosts-movement.ts:55-65 | the grid holds at most GRID_WIDTH × GRID_HEIGHT dots |
| GhostsMovement.ColumnDotsZero | src/movement/ghosts-movement.ts:58-62 | a column counts no dot exactly when all its cells are at level NONE |
| GhostsMovement.DotsZeroIffEmpty | src/movement/ghosts-movement.ts:55-65 | the count is 0 exactly when every cell is at level NONE |
| GhostsMovement.CountRemainingDots | src/movement/ghosts-movement.ts:55-65 | the nested loops count exactly Dots of the grid |
| GhostsMovement.ModeState.constructor | src/movement/ghosts-movement.ts:16-18 | the clock starts in scatter mode at 0 |
| GhostsMovement.ModeState.UpdateGameMode | src/movement/ghosts-movement.ts:68-92 | the clock becomes NextClock, the ghosts are reversed exactly when the mode flips, and the timer bound is kept |
| GhostsMovement.ModeState.MoveGhosts | src/movement/ghosts-movement.ts:20-52 | dotsRemaining becomes the dot count, the clock advances, and the ghosts become MovedGhosts of the old clock |
| Game.DetermineGhostName | src/core/game.ts:207-210 | the name is never eyes and is the placement order indexed by i mod 4 |
| Game.DetermineGhostNameMatchesPlacement | src/core/game.ts:207-210 | determineGhostName(i) names the ghost that placeGhosts puts at index i mod 4 |
| Game.ValidHouseCells | src/core/game.ts:132 | a house cell is kept exactly when its count is positive, and the kept cells stay in their order |
| Game.PlaceGhosts | src/core/game.ts:61-147 | exactly four ghosts named blinky, inky, pinky and clyde with freezeCounter 0, 10, 20, 30, only blinky outside the house, none scared; the fixed branch puts them at the house centre, its sides and the door row facing left, up, down, up; the custom branch gives them the house cells with contributions in order, then the centre, all facing left |
| Game.CommitCells | src/core/game.ts:38-43 | the cells listed are exactly those with contributions |
| Game.RowCommitCells | src/core/game.ts:40-42 | the cells listed from one row are exactly its cells with contributions |
| Game.PlacePacman | src/core/game.ts:23-59 | the fixed branch puts pacman at (1, 1) facing right with all counters cleared; the custom branch puts him on a cell with contributions, or leaves him when there is none |
| Game.AfterReset | src/core/game.ts:200-205 | pacman is put at (27, 7) facing right with no recent positions, and nothing else changes |
| Game.DeadCountdown | src/core/game.ts:224-230 | the death countdown drops by one only while positive; when it reaches 0, pacman is reset and the ghosts are placed again |
| Game.SetScared | src/core/game.ts:235-237 | every ghost but the eyes gets scared set, and nothing else changes |
| Game.PowerCountdown | src/core/game.ts:232-240 | the power-up countdown drops by one only while positive; when it reaches 0 no ghost but the eyes stays scared and the points become 0 |
| Game.FirstInHouse | src/core/game.ts:344 | the index found is the first ghost in the house with that name, and none is found only when no such ghost exists |
| Game.Released | src/core/game.ts:343-350 | only the first ghost in the house with that name is released, to y = 2 facing up and marked released |
| Game.Respawned | src/core/game.ts:244-252 | only a ghost in the house with a positive respawn counter changes: it counts down, and on reaching 0 takes back its original name or the name of its index, leaves the house, is scared exactly during a power-up and is marked released |
| Game.HouseStep | src/core/game.ts:243-259 | ghost i is respawned and its positive freeze counter drops by one; when that counter goes from 1 to 0, exactly the first ghost in the house with ghost i's name is released to the door facing up; no other ghost changes |
| Game.HouseFrom | src/core/game.ts:243-259 | every ghost from i on has a positive freeze counter decremented, and a positive respawn counter decremented when in the house; earlier ghosts keep theirs |
| Game.HouseFromKeepsCountdowns | src/core/game.ts:243-259 | the house counters never go negative |
| Game.Countdowns | src/core/game.ts:223-259 | the death and power-up countdowns each drop by one while positive; when the death countdown ends, pacman is reset to (27, 7) and four ghosts placed; otherwise pacman stays put and the ghosts keep their number |
| Game.RowHasCommits | src/core/game.ts:262 | a row has commits exactly when one of its cells has a positive count |
| Game.AnyCommits | src/core/game.ts:262 | the grid has commits exactly when one of its cells has a positive count |
| Game.PowerTrigger | src/core/game.ts:281-287 | on a fourth-quartile cell with no power-up running, the power-up is set to 30 and every ghost but the eyes becomes scared; otherwise nothing changes |
| Game.CollideOne | src/core/game.ts:321-339 | eyes and ghosts elsewhere pass; a scared ghost met during a power-up becomes eyes headed for (26, 3), remembering its name, and pacman gains 10 points; any other meeting zeroes points and power-up and starts the death countdown only if it was 0 |
| Game.Collided | src/core/game.ts:318-341 | nothing happens while pacman is dead, and the ghosts keep their number |
| Game.CollideFrom | src/core/game.ts:318-341 | collisions change only pacman's points, power-up and death countdown, and no ghost already passed or away from pacman's cell |
| Game.CollisionsOnlyEatScaredGhosts | src/core/game.ts:321-331 | a collision only turns a scared ghost into eyes, remembering its name; eyes never change |
| Game.CollisionsStartDeathOnlyFromZero | src/core/game.ts:332-338 | the death countdown is set only from 0, and the power-up only ever drops to 0 |
| Game.CollisionsKeepCountdowns | src/core/game.ts:318-341 | collisions never change a ghost's counters |
| Game.Movements | src/core/game.ts:279-296 | the grid becomes pacman's, the mouth toggles; if pacman ends the stage dead, pacman and the ghosts are as the pacman stage leaves them and the clock and the dot count stay; otherwise the clock advances, the dots are recounted and the ghosts keep their number |
| Game.Played | src/core/game.ts:222-305 | the game ends exactly when no commits are left, then changing only the actors, as Countdowns says; otherwise one snapshot is appended and the grid becomes pacman's |
| Game.JsRemainder | src/core/game.ts:218 | JavaScript's % has the sign of the dividend, is smaller than the divisor and leaves a multiple of it |
| Game.Skipped | src/core/game.ts:215-221 | with gameSpeed 0 every frame is skipped; otherwise a frame is skipped exactly when it is not a multiple of the game speed |
| Game.PlayedFramesAreMultiples | src/core/game.ts:215-221 | with a positive gameSpeed exactly the frames that are multiples of it are played |
| Game.Tick | src/core/game.ts:214-305 | every call counts one frame; the game ends exactly on a played frame with no commits left, and then pacman and the ghosts are exactly what the countdown stages leave and nothing else changes; every other call appends exactly one snapshot |
| Game.SkippedFrameOnlyRecords | src/core/game.ts:215-221 | a skipped frame appends one snapshot and changes nothing else |
| Game.DeadPacmanFreezesGhosts | src/core/game.ts:224-294 | while pacman stays dead, the mode clock and dot count stand still and the death countdown drops by one; the ghosts are untouched on a skipped frame, and on a played one they are what the countdown stages leave, but for the scared flag |
| Game.DeadStageKeepsGhosts | src/core/game.ts:279-289 | with pacman dead, his move, the power-up and collisions keep him dead and change no ghost but for its scared flag |
| Game.PlacementDefinedOnMaze | src/core/game.ts:122-132 | on a grid of the maze's size, placeGhosts can read every cell it needs |
| Game.CountdownsKeepActorsValid | src/core/game.ts:224-259 | the countdown stages keep every countdown non-negative |
| Game.CollidedKeepsActorsValid | src/core/game.ts:318-341 | collisions keep every countdown non-negative |
| Game.MovementsKeepWorldValid | src/core/game.ts:279-296 | pacman's move, the power-up, collisions and the ghosts' moves keep the world valid |
| Game.TickKeepsWorldValid | src/core/game.ts:214-305 | every frame keeps the grid's size, all countdowns non-negative and the mode timer below its threshold |
| Game.Store.StartGame | src/core/game.ts:155-173 | frame 0, an empty history, every ghost unscared, the mouth flag left as it was, and pacman and the ghosts placed when a cell has contributions |
| Game.Store.ResetPacman | src/core/game.ts:200-205 | resetPacman changes only pacman, as AfterReset says |
| Game.Store.PushSnapshot | src/core/game.ts:308-314 | one snapshot of pacman, the ghosts and the grid is appended, and nothing else changes |
| Game.Store.SetScaredAll | src/core/game.ts:284-286 | the forEach leaves the ghosts as SetScared says |
| Game.Store.ReleaseGhostFromHouse | src/core/game.ts:343-350 | the find-and-release leaves the ghosts as Released says |
| Game.Store.HouseCounter | src/core/game.ts:244-258 | one iteration of the forEach leaves the ghosts as HouseStep says |
| Game.Store.HouseCounters | src/core/game.ts:243-259 | the forEach leaves the ghosts as HouseFrom says |
| Game.Store.DeathCountdown | src/core/game.ts:224-230 | the death countdown stage ends as DeadCountdown says |
| Game.Store.PowerupCountdown | src/core/game.ts:232-240 | the power-up countdown stage ends as PowerCountdown says |
| Game.Store.UpdateCountdowns | src/core/game.ts:223-259 | the countdown stages end as Countdowns says |
| Game.Store.CheckCollisions | src/core/game.ts:318-341 | the loop over the ghosts ends as Collided says and changes only pacman and the ghosts |
| Game.Store.PacmanMoves | src/core/game.ts:279-289 | pacman's move, the power-up trigger and collisions end as PacmanStage says |
| Game.Store.MoveActors | src/core/game.ts:279-296 | the movement stages end as Movements says |
| Game.Store.UpdateGame | src/core/game.ts:214-305 | one call leaves the store in the world Tick gives, reports the end of the game as Tick does, and keeps the store valid |
| Game.Store.AdvanceFrame | src/core/game.ts:214-305 | counting the frame, skipping it or playing it leaves the store in the world Tick gives |
| Game.Store.PlayFrame | src/core/game.ts:222-305 | the rest of a frame that is not skipped leaves the store in the world Played gives and reports the end of the game as Played does |

## Left out

- Rendering, sound and timers. `Canvas.*`, `SVG.generateAnimatedSVG`, `MusicPlayer.*`, `setInterval`/`clearInterval` and the `async`/`await` wrappers have no simulation logic and are not modelled. The end of the game is reported as a boolean; the callbacks it triggers are not modelled.
- The batch loop of `startGame` in SVG mode (src/core/game.ts:186-191). It only repeats `updateGame`, which is modelled.
- `placePellets` (src/core/game.ts:12-21) has no caller in the core and is not modelled.
- Randomness. Every `Math.random()` is an injected draw: a `Draws` record per ghost, and `pick` for the custom placement of pacman. The model states what happens for any draw, not how likely it is; the 50% and 60% chances of moveScaredGhost are the booleans `wander` and `slow`.
- Collaborators whose source is not part of this model are parameters or stated contracts.
  - `MovementUtils.getValidMoves` is `Board.ValidMoves`: the unit moves onto in-bounds cells with contributions, in the order of the file's own getValidMoves.
  - `MovementUtils.calculateDistance` is Manhattan distance.
  - `MovementUtils.findNextStepDijkstra` is the draw `dijkstra`, an optional cell.
  - `PacmanMovement.movePacman` is the `PacmanStep` given to the frame. It is assumed to leave pacman's countdowns alone and to keep the grid's dimensions.
  - `Utils.createGridFromData` is the grid given to `StartGame`.
- Game.Store.StartGame: does not model the grid that createGridFromData builds from the contribution data; it takes that grid as an argument.
- GhostsMovement.ModeState.constructor: the source's module-level mode clock is initialised once per process and is not reset by startGame, so a second game in the same process continues the first game's clock. The model starts one clock per game.
- Object identity. Ghosts are values in a sequence, so the model has no aliasing. `store.ghosts.indexOf(ghost)` (src/core/game.ts:247) is the loop index, which it always is for distinct ghost objects.
- Game.PlaceGhosts: requires a non-empty grid and, in the custom branch, that every house cell in an existing row is readable. The source throws on those inputs (src/core/game.ts:67, 132).
- GhostsMovement.CountRemainingDots: requires a grid of the maze's size. The source throws when a row or cell is missing.
- Grid orientation. The source reads `store.grid[x][y]` in countRemainingDots (src/movement/ghosts-movement.ts:59) and for the power-up cell (src/core/game.ts:281). Everywhere else, including placePacman and placeGhosts, it reads row first. The model reads the cell at column x, row y in both places. The power-up trigger therefore fires on pacman's own cell, where the source as written reads row x, column y.
- GhostsMovement.PacmanDirection: the source's default case `[0, 0]` cannot be reached with four directions, so it is not modelled.
- Game.Skipped: a gameSpeed of 0 makes the source's remainder NaN, so every frame is skipped. The model keeps that; it does not model fractional game speeds.
- Game.PlacePacman: a non-integer random index is not possible with the injected `pick`, which selects `pick mod n`.
- Integer widths. Counters, coordinates and points are unbounded integers. The source's doubles are exact for every value the game reaches.
- Not modelled, because the running program does not use them:
  - `src/game.ts` is a stale duplicate of the frame loop; the entry point (src/index.ts:1) imports `src/core/game.ts`.
  - `src/utils.ts` holds the network fetches and colour helpers.
  - `src/index.ts`, `pacman.abozanona.me/index.js` and `webpack.prod.js` are configuration, server and build plumbing.
