/** The ghosts' breadth-first search, BFSTargetLocation: it looks for the
    target over passable cells, never turning a node around unless that is the
    node's only move, and returns the first step of the path it finds. When no
    path exists it falls back to a randomly chosen valid move from the start.

    The search is given twice: as functions (Expand, Search, NextStep), which
    the ghost movement and the lemmas use, and as the imperative method
    BfsTargetLocation, which works on a queue and a visited set as the source
    does and is proved to return what NextStep returns. */
module Pathfinding {
  import opened Types
  import opened Board

  /** One cell of a path, with the direction that entered it. */
  datatype PathNode = PathNode(x: int, y: int, pathDirection: Direction)

  datatype QueueItem = QueueItem(x: int, y: int, path: seq<PathNode>, direction: Direction)

  /** The search's answer: where to step and which way the ghost then faces. */
  datatype Step = Step(x: int, y: int, direction: Direction)

  datatype Expansion = Found(path: seq<PathNode>) | Queued(queue: seq<QueueItem>, visited: set<Point>)

  /** Keeps each move that is not a reversal of `d`, and a reversal only when
      `sole` holds; the order of the moves is kept. */
  function FilteredMoves(moves: seq<Move>, d: Direction, sole: bool): (r: seq<Move>)
    ensures forall mv :: mv in r <==> mv in moves && (!IsReversal(d, mv) || sole)
    ensures |r| <= |moves|
  {
    if moves == [] then []
    else
      (if !IsReversal(d, moves[0]) || sole then [moves[0]] else [])
      + FilteredMoves(moves[1..], d, sole)
  }

  /** The moves the search tries from a node at (x, y) entered facing `d`:
      a move opposite to `d` is kept only when it is the node's sole valid move. */
  function SearchMoves(m: Maze, x: int, y: int, d: Direction): (r: seq<Move>)
    ensures forall mv :: mv in r <==>
      mv in ValidMoves(m, x, y) && (!IsReversal(d, mv) || |ValidMoves(m, x, y)| == 1)
    ensures forall mv :: mv in r ==> IsUnit(mv) && Passable(m, x + mv.dx, y + mv.dy)
  {
    var valid := ValidMoves(m, x, y);
    FilteredMoves(valid, d, |valid| == 1)
  }

  /** Adding only in-bounds cells to `visited` strictly shrinks the set of
      unvisited cells, the measure that makes the search terminate. */
  lemma UnvisitedShrinks(cells: set<Point>, visited: set<Point>, visited': set<Point>)
    requires visited <= visited' && visited' - visited <= cells
    ensures visited' != visited ==> |cells - visited'| < |cells - visited|
  {
    if exists q :: q in visited' && q !in visited {
      var p :| p in visited' && p !in visited;
      var before, after := cells - visited, cells - visited';
      assert p in before && p !in after;
      assert before - {p} == after + ((before - {p}) - after);
      assert |before - {p}| == |before| - 1;
    } else {
      assert visited' == visited;
    }
  }

  /** The queue item a move from `cur` leads to: the neighbouring cell, the
      path extended by it, and the direction of the move. */
  function Child(cur: QueueItem, mv: Move): QueueItem {
    var dir := DirectionOf(mv, cur.direction);
    QueueItem(cur.x + mv.dx, cur.y + mv.dy, cur.path + [PathNode(cur.x + mv.dx, cur.y + mv.dy, dir)], dir)
  }

  /** The inner loop of the search over the moves of the node `cur`: each move
      onto an unvisited cell marks the cell visited and either completes the
      path (the cell is the target) or enqueues it. */
  function Expand(m: Maze, target: Point, cur: QueueItem, moves: seq<Move>,
                  queue: seq<QueueItem>, visited: set<Point>): (r: Expansion)
    requires forall mv :: mv in moves ==> Passable(m, cur.x + mv.dx, cur.y + mv.dy)
    ensures r.Queued? ==> visited <= r.visited && r.visited - visited <= Cells(m)
    ensures r.Queued? && r.visited == visited ==> r.queue == queue
    ensures r.Found? ==> |r.path| == |cur.path| + 1
    decreases |moves|
  {
    if moves == [] then Queued(queue, visited)
    else
      var mv := moves[0];
      var p := Point(cur.x + mv.dx, cur.y + mv.dy);
      if p in visited then Expand(m, target, cur, moves[1..], queue, visited)
      else if p == target then Found(Child(cur, mv).path)
      else
        PassableInCells(m, p.x, p.y);
        Expand(m, target, cur, moves[1..], queue + [Child(cur, mv)], visited + {p})
  }

  /** One turn of the outer loop: the node at the head of the queue expanded
      over its search moves, with the rest of the queue. */
  function Front(m: Maze, target: Point, queue: seq<QueueItem>, visited: set<Point>): (r: Expansion)
    requires queue != []
    ensures r.Queued? ==> visited <= r.visited && r.visited - visited <= Cells(m)
    ensures r.Queued? && r.visited == visited ==> r.queue == queue[1..]
  {
    var cur := queue[0];
    Expand(m, target, cur, SearchMoves(m, cur.x, cur.y, cur.direction), queue[1..], visited)
  }

  /** The outer loop of the search: dequeue a node, expand it, go on until the
      target is met or the queue runs dry. */
  function Search(m: Maze, target: Point, queue: seq<QueueItem>, visited: set<Point>): (r: Option<seq<PathNode>>)
    ensures queue == [] ==> r.None?
    ensures r.Some? ==> |r.value| > 0
    decreases |Cells(m) - visited|, |queue|
  {
    if queue == [] then None
    else
      var e := Front(m, target, queue, visited);
      if e.Found? then Some(e.path)
      else
        UnvisitedShrinks(Cells(m), visited, e.visited);
        Search(m, target, e.queue, e.visited)
  }

  /** One turn of the inner loop, on a move onto a visited cell: it is skipped. */
  lemma ExpandSkipsVisited(m: Maze, target: Point, cur: QueueItem, moves: seq<Move>,
                           queue: seq<QueueItem>, visited: set<Point>)
    requires moves != []
    requires forall mv :: mv in moves ==> Passable(m, cur.x + mv.dx, cur.y + mv.dy)
    requires Point(cur.x + moves[0].dx, cur.y + moves[0].dy) in visited
    ensures Expand(m, target, cur, moves, queue, visited) == Expand(m, target, cur, moves[1..], queue, visited)
  {
  }

  /** One turn of the inner loop, on a move onto the unvisited target: the
      path to it is complete. */
  lemma ExpandReachesTarget(m: Maze, target: Point, cur: QueueItem, moves: seq<Move>,
                            queue: seq<QueueItem>, visited: set<Point>)
    requires moves != []
    requires forall mv :: mv in moves ==> Passable(m, cur.x + mv.dx, cur.y + mv.dy)
    requires Point(cur.x + moves[0].dx, cur.y + moves[0].dy) !in visited
    requires Point(cur.x + moves[0].dx, cur.y + moves[0].dy) == target
    ensures Expand(m, target, cur, moves, queue, visited) == Found(Child(cur, moves[0]).path)
  {
  }

  /** One turn of the inner loop, on a move onto another unvisited cell: the
      cell is marked visited and queued with its path. */
  lemma ExpandEnqueues(m: Maze, target: Point, cur: QueueItem, moves: seq<Move>,
                       queue: seq<QueueItem>, visited: set<Point>)
    requires moves != []
    requires forall mv :: mv in moves ==> Passable(m, cur.x + mv.dx, cur.y + mv.dy)
    requires Point(cur.x + moves[0].dx, cur.y + moves[0].dy) !in visited
    requires Point(cur.x + moves[0].dx, cur.y + moves[0].dy) != target
    ensures Expand(m, target, cur, moves, queue, visited)
            == Expand(m, target, cur, moves[1..], queue + [Child(cur, moves[0])],
                      visited + {Point(cur.x + moves[0].dx, cur.y + moves[0].dy)})
  {
  }

  /** One turn of the outer loop: how Search treats the head of the queue. */
  lemma SearchUnfold(m: Maze, target: Point, queue: seq<QueueItem>, visited: set<Point>)
    requires queue != []
    ensures var e := Front(m, target, queue, visited);
            Search(m, target, queue, visited) == if e.Found? then Some(e.path) else Search(m, target, e.queue, e.visited)
  {
  }

  /** The fallback when no path exists: a valid move from the start chosen by
      the random draw `pick`, or nothing when the start has no valid move. */
  function Fallback(m: Maze, start: Point, d0: Direction, pick: nat): (r: Option<Step>)
    ensures r.None? <==> ValidMoves(m, start.x, start.y) == []
    ensures r.Some? ==>
              var mv := Move(r.value.x - start.x, r.value.y - start.y);
              mv in ValidMoves(m, start.x, start.y) && r.value.direction == DirectionOf(mv, d0)
  {
    FallbackAmong(ValidMoves(m, start.x, start.y), start, d0, pick)
  }

  /** The fallback step chosen by `pick` among the moves `moves`. */
  function FallbackAmong(moves: seq<Move>, start: Point, d0: Direction, pick: nat): (r: Option<Step>)
    ensures r.None? <==> moves == []
    ensures r.Some? ==>
              var mv := Move(r.value.x - start.x, r.value.y - start.y);
              mv in moves && r.value.direction == DirectionOf(mv, d0)
  {
    if |moves| > 0 then
      var mv := moves[pick % |moves|];
      assert Move(start.x + mv.dx - start.x, start.y + mv.dy - start.y) == mv;
      Some(Step(start.x + mv.dx, start.y + mv.dy, DirectionOf(mv, d0)))
    else None
  }

  function StartItem(start: Point, d0: Direction): QueueItem {
    QueueItem(start.x, start.y, [], d0)
  }

  /** What BFSTargetLocation(start, target, d0) returns. */
  function NextStep(m: Maze, start: Point, target: Point, d0: Direction, pick: nat): (r: Option<Step>)
    ensures start == target ==> r.None?
    ensures start != target && ValidMoves(m, start.x, start.y) != [] ==> r.Some?
  {
    if start == target then None
    else
      var found := Search(m, target, [StartItem(start, d0)], {start});
      if found.Some? then
        var path := found.value;
        if |path| > 0 then Some(Step(path[0].x, path[0].y, path[0].pathDirection)) else None
      else Fallback(m, start, d0, pick)
  }

  /* ---------- properties of the search ---------- */

  /** `node` is one step of the search from cell `from` entered facing `d`:
      a move the search keeps there, and the cell it leads to. */
  ghost predicate SearchStep(m: Maze, from: Point, d: Direction, node: PathNode) {
    var mv := Delta(node.pathDirection);
    mv in SearchMoves(m, from.x, from.y, d) && node.x == from.x + mv.dx && node.y == from.y + mv.dy
  }

  /** The cell a path ends on, the start for the empty path. */
  function End(start: Point, path: seq<PathNode>): Point {
    if |path| == 0 then start else Point(path[|path| - 1].x, path[|path| - 1].y)
  }

  /** The direction a path ends facing, `d0` for the empty path. */
  function EndDirection(d0: Direction, path: seq<PathNode>): Direction {
    if |path| == 0 then d0 else path[|path| - 1].pathDirection
  }

  /** A path the search can build from `start` entered facing `d0`: every
      node is a kept move from the node before it, so no node turns around
      unless it had no other move. */
  ghost predicate Walk(m: Maze, start: Point, d0: Direction, path: seq<PathNode>)
    decreases |path|
  {
    |path| == 0 ||
    (var prefix := path[..|path| - 1];
     Walk(m, start, d0, prefix) && SearchStep(m, End(start, prefix), EndDirection(d0, prefix), path[|path| - 1]))
  }

  /** The first node of a walk is a kept move from the start. */
  lemma {:induction false} WalkFirstStep(m: Maze, start: Point, d0: Direction, path: seq<PathNode>)
    requires Walk(m, start, d0, path) && |path| > 0
    ensures SearchStep(m, start, d0, path[0])
    decreases |path|
  {
    if |path| > 1 {
      var prefix := path[..|path| - 1];
      WalkFirstStep(m, start, d0, prefix);
      assert prefix[0] == path[0];
    }
  }

  /** A queue item stands at the end of its walk, facing the way it entered. */
  ghost predicate ItemOk(m: Maze, start: Point, d0: Direction, it: QueueItem) {
    Walk(m, start, d0, it.path)
    && Point(it.x, it.y) == End(start, it.path)
    && it.direction == EndDirection(d0, it.path)
  }

  ghost predicate QueueOk(m: Maze, start: Point, d0: Direction, queue: seq<QueueItem>) {
    forall i :: 0 <= i < |queue| ==> ItemOk(m, start, d0, queue[i])
  }

  lemma WalkExtend(m: Maze, start: Point, d0: Direction, cur: QueueItem, mv: Move)
    requires ItemOk(m, start, d0, cur)
    requires mv in SearchMoves(m, cur.x, cur.y, cur.direction)
    ensures ItemOk(m, start, d0, Child(cur, mv))
  {
    var path := Child(cur, mv).path;
    assert path[..|path| - 1] == cur.path;
  }

  /** What expanding a node can produce: a found path is the path to a child
      of the node that stands on the target, and a queue is the old queue
      followed by children of the node. */
  lemma {:induction false} ExpandFoundChild(m: Maze, target: Point, cur: QueueItem, moves: seq<Move>,
                                            queue: seq<QueueItem>, visited: set<Point>)
    requires forall mv :: mv in moves ==> Passable(m, cur.x + mv.dx, cur.y + mv.dy)
    ensures var e := Expand(m, target, cur, moves, queue, visited);
            e.Found? ==> exists mv :: mv in moves && e.path == Child(cur, mv).path
                                      && Point(Child(cur, mv).x, Child(cur, mv).y) == target
    decreases |moves|
  {
    if moves != [] {
      var mv := moves[0];
      var p := Point(cur.x + mv.dx, cur.y + mv.dy);
      assert forall mv' :: mv' in moves[1..] ==> mv' in moves;
      if p in visited {
        ExpandSkipsVisited(m, target, cur, moves, queue, visited);
        ExpandFoundChild(m, target, cur, moves[1..], queue, visited);
      } else if p == target {
        ExpandReachesTarget(m, target, cur, moves, queue, visited);
      } else {
        ExpandEnqueues(m, target, cur, moves, queue, visited);
        ExpandFoundChild(m, target, cur, moves[1..], queue + [Child(cur, mv)], visited + {p});
      }
    }
  }

  lemma {:induction false} ExpandQueuesChildren(m: Maze, target: Point, cur: QueueItem, moves: seq<Move>,
                                                queue: seq<QueueItem>, visited: set<Point>)
    requires forall mv :: mv in moves ==> Passable(m, cur.x + mv.dx, cur.y + mv.dy)
    ensures var e := Expand(m, target, cur, moves, queue, visited);
            e.Queued? ==> |queue| <= |e.queue| && e.queue[..|queue|] == queue
                          && forall i :: |queue| <= i < |e.queue| ==> exists mv :: mv in moves && e.queue[i] == Child(cur, mv)
    decreases |moves|
  {
    if moves != [] {
      var mv := moves[0];
      var p := Point(cur.x + mv.dx, cur.y + mv.dy);
      assert forall mv' :: mv' in moves[1..] ==> mv' in moves;
      if p in visited {
        ExpandSkipsVisited(m, target, cur, moves, queue, visited);
        ExpandQueuesChildren(m, target, cur, moves[1..], queue, visited);
      } else if p != target {
        var q := queue + [Child(cur, mv)];
        ExpandEnqueues(m, target, cur, moves, queue, visited);
        ExpandQueuesChildren(m, target, cur, moves[1..], q, visited + {p});
        var e := Expand(m, target, cur, moves[1..], q, visited + {p});
        if e.Queued? {
          assert e.queue[..|queue|] == e.queue[..|q|][..|queue|];
          assert e.queue[|queue|] == Child(cur, mv);
        }
      }
    }
  }

  /** Expanding a well-formed node keeps every queued item well formed. */
  lemma ExpandKeepsQueueOk(m: Maze, start: Point, d0: Direction, target: Point, cur: QueueItem,
                           moves: seq<Move>, queue: seq<QueueItem>, visited: set<Point>)
    requires ItemOk(m, start, d0, cur) && QueueOk(m, start, d0, queue)
    requires forall mv :: mv in moves ==> mv in SearchMoves(m, cur.x, cur.y, cur.direction)
    requires forall mv :: mv in moves ==> Passable(m, cur.x + mv.dx, cur.y + mv.dy)
    ensures var e := Expand(m, target, cur, moves, queue, visited);
            e.Queued? ==> QueueOk(m, start, d0, e.queue)
  {
    var e := Expand(m, target, cur, moves, queue, visited);
    ExpandQueuesChildren(m, target, cur, moves, queue, visited);
    if e.Queued? {
      forall i | 0 <= i < |e.queue|
        ensures ItemOk(m, start, d0, e.queue[i])
      {
        if i < |queue| {
          assert e.queue[i] == e.queue[..|queue|][i];
        } else {
          var mv :| mv in moves && e.queue[i] == Child(cur, mv);
          WalkExtend(m, start, d0, cur, mv);
        }
      }
    }
  }

  /** A path found while expanding a well-formed node is a walk from the start
      that ends at the target. */
  lemma ExpandFindsWalk(m: Maze, start: Point, d0: Direction, target: Point, cur: QueueItem,
                        moves: seq<Move>, queue: seq<QueueItem>, visited: set<Point>)
    requires ItemOk(m, start, d0, cur)
    requires forall mv :: mv in moves ==> mv in SearchMoves(m, cur.x, cur.y, cur.direction)
    requires forall mv :: mv in moves ==> Passable(m, cur.x + mv.dx, cur.y + mv.dy)
    ensures var e := Expand(m, target, cur, moves, queue, visited);
            e.Found? ==> Walk(m, start, d0, e.path) && |e.path| > 0 && End(start, e.path) == target
  {
    var e := Expand(m, target, cur, moves, queue, visited);
    ExpandFoundChild(m, target, cur, moves, queue, visited);
    if e.Found? {
      var mv :| mv in moves && e.path == Child(cur, mv).path && Point(Child(cur, mv).x, Child(cur, mv).y) == target;
      WalkExtend(m, start, d0, cur, mv);
    }
  }

  /** Every path the search finds is a walk from the start, one kept move per
      node, that ends at the target. */
  lemma {:induction false} SearchFindsWalk(m: Maze, start: Point, d0: Direction, target: Point,
                                           queue: seq<QueueItem>, visited: set<Point>)
    requires QueueOk(m, start, d0, queue)
    ensures var r := Search(m, target, queue, visited);
            r.Some? ==> Walk(m, start, d0, r.value) && |r.value| > 0 && End(start, r.value) == target
    decreases |Cells(m) - visited|, |queue|
  {
    if queue != [] {
      var cur := queue[0];
      var moves := SearchMoves(m, cur.x, cur.y, cur.direction);
      ExpandKeepsQueueOk(m, start, d0, target, cur, moves, queue[1..], visited);
      ExpandFindsWalk(m, start, d0, target, cur, moves, queue[1..], visited);
      var e := Expand(m, target, cur, moves, queue[1..], visited);
      if e.Queued? {
        UnvisitedShrinks(Cells(m), visited, e.visited);
        SearchFindsWalk(m, start, d0, target, e.queue, e.visited);
      }
    }
  }

  /** Each cell is enqueued at most once: if the queued cells are distinct and
      already visited, they still are after a node is expanded. */
  lemma {:induction false} ExpandEnqueuesOnce(m: Maze, target: Point, cur: QueueItem, moves: seq<Move>,
                                              queue: seq<QueueItem>, visited: set<Point>)
    requires forall mv :: mv in moves ==> Passable(m, cur.x + mv.dx, cur.y + mv.dy)
    requires forall i :: 0 <= i < |queue| ==> Point(queue[i].x, queue[i].y) in visited
    requires forall i, j :: 0 <= i < j < |queue| ==> Point(queue[i].x, queue[i].y) != Point(queue[j].x, queue[j].y)
    ensures var e := Expand(m, target, cur, moves, queue, visited);
            e.Queued? ==>
              (forall i :: 0 <= i < |e.queue| ==> Point(e.queue[i].x, e.queue[i].y) in e.visited)
              && (forall i, j :: 0 <= i < j < |e.queue| ==> Point(e.queue[i].x, e.queue[i].y) != Point(e.queue[j].x, e.queue[j].y))
    decreases |moves|
  {
    if moves != [] {
      var mv := moves[0];
      var p := Point(cur.x + mv.dx, cur.y + mv.dy);
      if p in visited {
        ExpandSkipsVisited(m, target, cur, moves, queue, visited);
        ExpandEnqueuesOnce(m, target, cur, moves[1..], queue, visited);
      } else if p != target {
        var q := queue + [Child(cur, mv)];
        assert forall i :: 0 <= i < |queue| ==> q[i] == queue[i] && Point(q[i].x, q[i].y) != p;
        assert Point(q[|queue|].x, q[|queue|].y) == p;
        ExpandEnqueues(m, target, cur, moves, queue, visited);
        ExpandEnqueuesOnce(m, target, cur, moves[1..], q, visited + {p});
      }
    }
  }

  /** A search from a start with no valid move finds nothing. */
  lemma SearchFromDeadEnd(m: Maze, start: Point, target: Point, d0: Direction)
    requires ValidMoves(m, start.x, start.y) == []
    ensures Search(m, target, [StartItem(start, d0)], {start}) == None
  {
    var cur := StartItem(start, d0);
    assert SearchMoves(m, start.x, start.y, d0) == [];
    var e := Expand(m, target, cur, [], [], {start});
    assert e == Queued([], {start});
  }

  /** BFSTargetLocation returns nothing exactly when the ghost already stands
      on the target or has no valid move at all. */
  lemma NextStepNoneIff(m: Maze, start: Point, target: Point, d0: Direction, pick: nat)
    ensures NextStep(m, start, target, d0, pick) == None
            <==> start == target || ValidMoves(m, start.x, start.y) == []
  {
    if start != target {
      if ValidMoves(m, start.x, start.y) == [] {
        SearchFromDeadEnd(m, start, target, d0);
      } else {
        SearchFindsWalk(m, start, d0, target, [StartItem(start, d0)], {start});
      }
    }
  }

  /** Any step BFSTargetLocation returns is one valid unit move from the start,
      and the direction it reports is the direction of that move. */
  lemma NextStepIsValidMove(m: Maze, start: Point, target: Point, d0: Direction, pick: nat)
    ensures var r := NextStep(m, start, target, d0, pick);
            r.Some? ==> Delta(r.value.direction) in ValidMoves(m, start.x, start.y)
                        && r.value.x == start.x + Delta(r.value.direction).dx
                        && r.value.y == start.y + Delta(r.value.direction).dy
  {
    if start != target {
      var found := Search(m, target, [StartItem(start, d0)], {start});
      SearchFindsWalk(m, start, d0, target, [StartItem(start, d0)], {start});
      if found.Some? {
        WalkFirstStep(m, start, d0, found.value);
      }
    }
  }

  /** When the search reaches the target, the first step never turns the ghost
      around unless turning around is its only valid move. */
  lemma FoundStepNeverAnUnforcedReversal(m: Maze, start: Point, target: Point, d0: Direction, pick: nat)
    requires start != target && Search(m, target, [StartItem(start, d0)], {start}).Some?
    ensures var r := NextStep(m, start, target, d0, pick);
            r.Some? && (IsReversal(d0, Delta(r.value.direction)) ==> |ValidMoves(m, start.x, start.y)| == 1)
  {
    var found := Search(m, target, [StartItem(start, d0)], {start});
    SearchFindsWalk(m, start, d0, target, [StartItem(start, d0)], {start});
    WalkFirstStep(m, start, d0, found.value);
  }

  /* ---------- the imperative search ---------- */

  /** The `for` loop over the kept moves of one dequeued node: each move onto
      an unvisited cell marks it visited and either ends the search with the
      path to the target or appends the cell to the queue. */
  method ExpandNode(m: Maze, target: Point, current: QueueItem, moves: seq<Move>,
                    queue0: seq<QueueItem>, visited0: set<Point>)
    returns (e: Expansion)
    requires forall mv :: mv in moves ==> Passable(m, current.x + mv.dx, current.y + mv.dy)
    ensures e == Expand(m, target, current, moves, queue0, visited0)
  {
    var queue, visited := queue0, visited0;
    var k := 0;
    while k < |moves|
      invariant 0 <= k <= |moves|
      invariant Expand(m, target, current, moves[k..], queue, visited)
                == Expand(m, target, current, moves, queue0, visited0)
    {
      var mv := moves[k];
      ghost var tail := moves[k..];
      assert tail[0] == mv && tail[1..] == moves[k + 1..];
      var p := Point(current.x + mv.dx, current.y + mv.dy);
      if p !in visited {
        var dir := DirectionOf(mv, current.direction);
        var newPath := current.path + [PathNode(p.x, p.y, dir)];
        if p == target {
          ExpandReachesTarget(m, target, current, tail, queue, visited);
          return Found(newPath);
        }
        ExpandEnqueues(m, target, current, tail, queue, visited);
        visited := visited + {p};
        queue := queue + [QueueItem(p.x, p.y, newPath, dir)];
      } else {
        ExpandSkipsVisited(m, target, current, tail, queue, visited);
      }
      k := k + 1;
    }
    assert moves[k..] == [];
    return Queued(queue, visited);
  }

  /** The body of the `while` loop of BFSTargetLocation. */
  method ExpandFront(m: Maze, target: Point, queue: seq<QueueItem>, visited: set<Point>) returns (e: Expansion)
    requires queue != []
    ensures e == Front(m, target, queue, visited)
  {
    var current := queue[0];
    var moves := SearchMoves(m, current.x, current.y, current.direction);
    e := ExpandNode(m, target, current, moves, queue[1..], visited);
  }

  /** The `while` loop of BFSTargetLocation: shift a node off the front of the
      queue and expand it, until the target is reached or the queue is empty. */
  method SearchLoop(m: Maze, target: Point, queue0: seq<QueueItem>, visited0: set<Point>)
    returns (found: Option<seq<PathNode>>)
    ensures found == Search(m, target, queue0, visited0)
  {
    var queue, visited := queue0, visited0;
    while queue != []
      invariant Search(m, target, queue, visited) == Search(m, target, queue0, visited0)
      decreases |Cells(m) - visited|, |queue|
    {
      var e := ExpandFront(m, target, queue, visited);
      SearchUnfold(m, target, queue, visited);
      if e.Found? {
        return Some(e.path);
      }
      UnvisitedShrinks(Cells(m), visited, e.visited);
      queue, visited := e.queue, e.visited;
    }
    return None;
  }

  /** The end of BFSTargetLocation when the search fails: a random valid move
      from the start, its direction worked out from the move's signs. */
  method RandomValidMove(m: Maze, start: Point, d0: Direction, pick: nat) returns (r: Option<Step>)
    ensures r == Fallback(m, start, d0, pick)
  {
    r := PickMove(ValidMoves(m, start.x, start.y), start, d0, pick);
  }

  /** The random pick among the start's valid moves `valid`. */
  method PickMove(valid: seq<Move>, start: Point, d0: Direction, pick: nat) returns (r: Option<Step>)
    ensures r == FallbackAmong(valid, start, d0, pick)
  {
    if |valid| == 0 {
      return None;
    }
    var mv := valid[pick % |valid|];
    var direction := d0;
    if mv.dx > 0 { direction := Right; }
    else if mv.dx < 0 { direction := Left; }
    else if mv.dy > 0 { direction := Down; }
    else if mv.dy < 0 { direction := Up; }
    assert direction == DirectionOf(mv, d0);
    return Some(Step(start.x + mv.dx, start.y + mv.dy, direction));
  }

  /** BFSTargetLocation as the source runs it: no move when the ghost stands
      on the target, the first step of the path the search finds, or else a
      random valid move. */
  method BfsTargetLocation(m: Maze, start: Point, target: Point, d0: Direction, pick: nat)
    returns (r: Option<Step>)
    ensures r == NextStep(m, start, target, d0, pick)
  {
    if start == target {
      return None;
    }
    var found := SearchLoop(m, target, [StartItem(start, d0)], {start});
    if found.Some? {
      var path := found.value;
      return if |path| > 0 then Some(Step(path[0].x, path[0].y, path[0].pathDirection)) else None;
    }
    r := RandomValidMove(m, start, d0, pick);
  }
}
