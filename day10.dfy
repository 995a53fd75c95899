/** Day 10, "Pipe Maze": a sketch of pipes on a grid, one of them the start
    'S' whose shape is not drawn. Part one is half the length of the loop
    through the start; part two counts the tiles enclosed by the loop. */
module Day10 {
  import opened Common

  type Position = (int, int)
  type Direction = (int, int)

  /** The two openings of a pipe, in the order the source lists them. */
  type Pipe = (Direction, Direction)

  /** The start, the pipes by position, and the bottom-right position. */
  datatype Sketch = Sketch(start: Position, pipes: map<Position, Pipe>, bottomRight: Position)

  /** One step from a position. */
  function Move(p: Position, d: Direction): Position
  {
    (p.0 + d.0, p.1 + d.1)
  }

  predicate IsUnit(d: Direction)
  {
    d == (0, -1) || d == (0, 1) || d == (-1, 0) || d == (1, 0)
  }

  /** The openings of a pipe tile; other characters have none. */
  function TileDirections(tile: char): (r: Option<Pipe>)
    ensures r.Some? ==> IsUnit(r.value.0) && IsUnit(r.value.1) && r.value.0 != r.value.1
    ensures r.Some? <==> tile in "|-LJ7F"
  {
    match tile
    case '|' => Some(((0, -1), (0, 1)))
    case '-' => Some(((-1, 0), (1, 0)))
    case 'L' => Some(((0, -1), (1, 0)))
    case 'J' => Some(((0, -1), (-1, 0)))
    case '7' => Some(((-1, 0), (0, 1)))
    case 'F' => Some(((1, 0), (0, 1)))
    case _ => None
  }

  // ---------------------------------------------------------------------
  // Parsing

  /** A character the parser accepts: the start, ground, or a pipe. */
  predicate ValidTile(c: char)
  {
    c == 'S' || c == '.' || TileDirections(c).Some?
  }

  predicate OnSketch(lines: seq<string>, p: Position)
  {
    0 <= p.1 < |lines| && 0 <= p.0 < |lines[p.1]|
  }

  function TileAt(lines: seq<string>, p: Position): char
    requires OnSketch(lines, p)
  {
    lines[p.1][p.0]
  }

  /** `p` comes before `q` in reading order. */
  predicate Before(p: Position, q: Position)
  {
    p.1 < q.1 || (p.1 == q.1 && p.0 < q.0)
  }

  /** The pipes read from the tiles before `limit`: exactly the pipe tiles,
      with their openings. */
  ghost predicate PipesBefore(lines: seq<string>, limit: Position, pipes: map<Position, Pipe>)
  {
    && (forall p :: p in pipes ==>
          OnSketch(lines, p) && Before(p, limit) && TileDirections(TileAt(lines, p)) == Some(pipes[p]))
    && (forall p :: OnSketch(lines, p) && Before(p, limit) && TileDirections(TileAt(lines, p)).Some? ==> p in pipes)
  }

  /** The start read from the tiles before `limit`: the last 'S', or (0, 0)
      when there is none. */
  ghost predicate StartBefore(lines: seq<string>, limit: Position, start: Position)
  {
    || (start == (0, 0) && forall q :: OnSketch(lines, q) && Before(q, limit) ==> TileAt(lines, q) != 'S')
    || (&& OnSketch(lines, start) && Before(start, limit) && TileAt(lines, start) == 'S'
        && forall q :: OnSketch(lines, q) && Before(q, limit) && Before(start, q) ==> TileAt(lines, q) != 'S')
  }

  /** Every tile before `limit` is one the parser accepts. */
  ghost predicate ValidBefore(lines: seq<string>, limit: Position)
  {
    forall q :: OnSketch(lines, q) && Before(q, limit) ==> ValidTile(TileAt(lines, q))
  }

  /** What reading the tiles before `limit` has produced. */
  ghost predicate Parsed(lines: seq<string>, limit: Position, sketch: Sketch)
  {
    ValidBefore(lines, limit) && PipesBefore(lines, limit, sketch.pipes) && StartBefore(lines, limit, sketch.start)
  }

  /** Reading the tile at `p`: 'S' moves the start there, '.' adds nothing,
      a pipe is recorded with its openings. */
  method ParseTile(lines: seq<string>, p: Position, sketch: Sketch) returns (sketch': Sketch)
    requires OnSketch(lines, p) && ValidTile(TileAt(lines, p)) && Parsed(lines, p, sketch)
    ensures Parsed(lines, (p.0 + 1, p.1), sketch')
    ensures sketch'.bottomRight == sketch.bottomRight
  {
    var tile := TileAt(lines, p);
    var next := (p.0 + 1, p.1);
    if tile == 'S' {
      sketch' := sketch.(start := p);
    } else if tile == '.' {
      sketch' := sketch;
    } else {
      sketch' := sketch.(pipes := sketch.pipes[p := TileDirections(tile).value]);
    }
    assert forall q :: OnSketch(lines, q) && Before(q, next) ==> Before(q, p) || q == p;
  }

  /** Past the end of a line, reading on at the start of the next is the
      same limit. */
  lemma {:induction false} NextLine(lines: seq<string>, y: int, sketch: Sketch)
    requires 0 <= y < |lines| && Parsed(lines, (|lines[y]|, y), sketch)
    ensures Parsed(lines, (0, y + 1), sketch)
  {
    assert forall q :: OnSketch(lines, q) ==> (Before(q, (|lines[y]|, y)) <==> Before(q, (0, y + 1)));
  }

  /** `parse_input`: the bottom-right position comes from the first line and
      the number of lines; every tile is read in order. The source panics on
      an empty input and on an unknown character; the model returns None. */
  method ParseInput(lines: seq<string>) returns (r: Option<Sketch>)
    ensures r.None? <==> lines == [] || !ValidBefore(lines, (0, |lines|))
    ensures r.Some? ==> r.value.bottomRight == (|lines[0]| - 1, |lines| - 1)
    ensures r.Some? ==> Parsed(lines, (0, |lines|), r.value)
  {
    if lines == [] {
      return None;
    }
    var sketch := Sketch((0, 0), map[], (|lines[0]| - 1, |lines| - 1));
    var y := 0;
    while y < |lines|
      invariant 0 <= y <= |lines| && Parsed(lines, (0, y), sketch)
      invariant sketch.bottomRight == (|lines[0]| - 1, |lines| - 1)
    {
      var x := 0;
      while x < |lines[y]|
        invariant 0 <= x <= |lines[y]| && Parsed(lines, (x, y), sketch)
        invariant sketch.bottomRight == (|lines[0]| - 1, |lines| - 1)
      {
        if !ValidTile(lines[y][x]) {
          assert OnSketch(lines, (x, y)) && Before((x, y), (0, |lines|));
          return None;
        }
        sketch := ParseTile(lines, (x, y), sketch);
        x := x + 1;
      }
      NextLine(lines, y, sketch);
      y := y + 1;
    }
    return Some(sketch);
  }

  // ---------------------------------------------------------------------
  // The shape of the start

  /** The eight positions around the start, in the order they are tried. */
  const Around: seq<Direction> := [(-1, -1), (-1, 0), (-1, 1), (0, -1), (0, 1), (1, -1), (1, 0), (1, 1)]

  /** The opening of the start towards the neighbour at `offset`, when that
      neighbour is a pipe with an opening back to the start: the reverse of
      its first such opening. */
  function BackDirection(sketch: Sketch, offset: Direction): Option<Direction>
  {
    var q := Move(sketch.start, offset);
    if q !in sketch.pipes then None
    else
      var pipe := sketch.pipes[q];
      if Move(q, pipe.0) == sketch.start then Some((-pipe.0.0, -pipe.0.1))
      else if Move(q, pipe.1) == sketch.start then Some((-pipe.1.0, -pipe.1.1))
      else None
  }

  /** The start's openings found among the given neighbours, in order. */
  function Found(sketch: Sketch, offsets: seq<Direction>): seq<Direction>
  {
    if offsets == [] then []
    else
      var rest := Found(sketch, offsets[..|offsets| - 1]);
      match BackDirection(sketch, offsets[|offsets| - 1])
      case Some(d) => rest + [d]
      case None => rest
  }

  /** The shape of the start: its first two openings; none when fewer than
      two neighbours connect back. */
  function StartPipeOf(sketch: Sketch): Option<Pipe>
  {
    var found := Found(sketch, Around);
    if |found| >= 2 then Some((found[0], found[1])) else None
  }

  /** An opening found towards a neighbour points at that neighbour. */
  lemma {:induction false} BackDirectionIsOffset(sketch: Sketch, offset: Direction)
    ensures BackDirection(sketch, offset).Some? ==> BackDirection(sketch, offset).value == offset
  {
  }

  /** The openings found are neighbours listed, in their order, each at most
      once when the list has no repeats. */
  lemma {:induction false} FoundFacts(sketch: Sketch, offsets: seq<Direction>)
    requires forall i, j :: 0 <= i < j < |offsets| ==> offsets[i] != offsets[j]
    ensures forall k :: 0 <= k < |Found(sketch, offsets)| ==>
      Found(sketch, offsets)[k] in offsets && BackDirection(sketch, Found(sketch, offsets)[k]).Some?
    ensures forall i, j :: 0 <= i < j < |Found(sketch, offsets)| ==> Found(sketch, offsets)[i] != Found(sketch, offsets)[j]
  {
    if offsets != [] {
      var front := offsets[..|offsets| - 1];
      var last := offsets[|offsets| - 1];
      FoundFacts(sketch, front);
      BackDirectionIsOffset(sketch, last);
      var rest := Found(sketch, front);
      forall k | 0 <= k < |rest| ensures rest[k] != last {
        var i :| 0 <= i < |front| && front[i] == rest[k];
        assert offsets[i] == rest[k];
      }
      forall k | 0 <= k < |rest| ensures rest[k] in offsets {
        var i :| 0 <= i < |front| && front[i] == rest[k];
        assert offsets[i] == rest[k];
      }
    }
  }

  /** The start's two openings are different unit steps, and the neighbour
      behind each is a pipe with an opening back to the start; diagonal
      neighbours never connect. */
  lemma {:induction false} StartPipeFacts(sketch: Sketch)
    requires forall p :: p in sketch.pipes ==> IsUnit(sketch.pipes[p].0) && IsUnit(sketch.pipes[p].1)
    ensures StartPipeOf(sketch).Some? ==>
      var (a, b) := StartPipeOf(sketch).value;
      && a != b && IsUnit(a) && IsUnit(b)
      && BackDirection(sketch, a) == Some(a) && BackDirection(sketch, b) == Some(b)
  {
    FoundFacts(sketch, Around);
    var found := Found(sketch, Around);
    forall k | 0 <= k < |found| ensures IsUnit(found[k]) && BackDirection(sketch, found[k]) == Some(found[k]) {
      BackDirectionIsOffset(sketch, found[k]);
    }
  }

  /** `starting_pipe`: tries the eight neighbours in order, collecting the
      reverse of the first opening of each that points back to the start,
      and stops at two. The source panics when fewer than two are found; the
      model returns None. */
  method StartingPipe(sketch: Sketch) returns (r: Option<Pipe>)
    ensures r == StartPipeOf(sketch)
  {
    var directions: seq<Direction> := [];
    var i := 0;
    while i < |Around|
      invariant 0 <= i <= |Around| && directions == Found(sketch, Around[..i]) && |directions| < 2
    {
      var position := Move(sketch.start, Around[i]);
      assert Around[..i + 1][..i] == Around[..i];
      if position in sketch.pipes {
        var pipe := [sketch.pipes[position].0, sketch.pipes[position].1];
        ghost var before := directions;
        ghost var back: Option<Direction> := None;
        var j := 0;
        while j < 2
          invariant 0 <= j <= 2 && directions == before && back == None
          invariant forall k :: 0 <= k < j ==> Move(position, pipe[k]) != sketch.start
        {
          if Move(position, pipe[j]) == sketch.start {
            directions := directions + [(-pipe[j].0, -pipe[j].1)];
            back := Some((-pipe[j].0, -pipe[j].1));
            break;
          }
          j := j + 1;
        }
        assert j == 1 ==> Move(position, pipe[0]) != sketch.start;
        assert j == 2 ==> Move(position, pipe[0]) != sketch.start && Move(position, pipe[1]) != sketch.start;
        assert back == BackDirection(sketch, Around[i]);
        assert directions == before + (if back.Some? then [back.value] else []);
        if |directions| == 2 {
          FoundPrefix(sketch, i + 1);
          return Some((directions[0], directions[1]));
        }
      }
      i := i + 1;
    }
    assert Around[..i] == Around;
    return None;
  }

  /** Neighbours after the first two connecting ones do not change the
      shape. */
  lemma {:induction false} FoundPrefix(sketch: Sketch, n: nat)
    requires n <= |Around| && |Found(sketch, Around[..n])| >= 2
    ensures |Found(sketch, Around)| >= 2
    ensures Found(sketch, Around)[..2] == Found(sketch, Around[..n])[..2]
    decreases |Around| - n
  {
    if n < |Around| {
      assert Around[..n + 1][..n] == Around[..n];
      FoundPrefix(sketch, n + 1);
    } else {
      assert Around[..n] == Around;
    }
  }

  // ---------------------------------------------------------------------
  // The main loop

  /** The openings of the tile at `p`; the start's shape stands in for any
      position without a pipe. */
  function PipeAt(sketch: Sketch, startPipe: Pipe, p: Position): Pipe
  {
    if p in sketch.pipes then sketch.pipes[p] else startPipe
  }

  /** The next position of the walk: through the first opening of the
      current tile leading to an unvisited position; none when both lead to
      visited ones. */
  function NextPosition(sketch: Sketch, startPipe: Pipe, p: Position, visited: set<Position>): Option<Position>
  {
    var pipe := PipeAt(sketch, startPipe, p);
    if Move(p, pipe.0) !in visited then Some(Move(p, pipe.0))
    else if Move(p, pipe.1) !in visited then Some(Move(p, pipe.1))
    else None
  }

  function Elems(path: seq<Position>): set<Position>
  {
    set p | p in path
  }

  /** `path` is the walk from the start: each position is the next position
      after the ones before it. */
  ghost predicate Walk(sketch: Sketch, startPipe: Pipe, path: seq<Position>)
  {
    && |path| >= 1 && path[0] == sketch.start
    && forall i :: 0 <= i < |path| - 1 ==>
         NextPosition(sketch, startPipe, path[i], Elems(path[..i + 1])) == Some(path[i + 1])
  }

  /** The walk cannot go on: both openings of its last tile lead back into
      it. */
  ghost predicate Stuck(sketch: Sketch, startPipe: Pipe, path: seq<Position>)
    requires |path| >= 1
  {
    NextPosition(sketch, startPipe, path[|path| - 1], Elems(path)) == None
  }

  /** A set of positions holding the start that no opening leads out of; the
      walk stays inside it, so it ends. */
  ghost predicate ClosedUnder(sketch: Sketch, startPipe: Pipe, domain: set<Position>)
  {
    && sketch.start in domain
    && forall p :: p in domain ==>
         Move(p, PipeAt(sketch, startPipe, p).0) in domain && Move(p, PipeAt(sketch, startPipe, p).1) in domain
  }

  /** The walk is determined: two walks that are both stuck are the same. */
  lemma {:induction false} WalkUnique(sketch: Sketch, startPipe: Pipe, a: seq<Position>, b: seq<Position>)
    requires Walk(sketch, startPipe, a) && Stuck(sketch, startPipe, a)
    requires Walk(sketch, startPipe, b) && Stuck(sketch, startPipe, b)
    ensures a == b
  {
    if |a| <= |b| {
      WalkAgree(sketch, startPipe, a, b, |a|);
      assert a[..|a|] == a && b[..|b|] == b;
      if |a| < |b| {
        ExtendedNotStuck(sketch, startPipe, a, b);
        assert false;
      }
    } else {
      WalkAgree(sketch, startPipe, b, a, |b|);
      assert b[..|b|] == b;
      ExtendedNotStuck(sketch, startPipe, b, a);
      assert false;
    }
  }

  /** A walk that goes on past `a` is not stuck at the end of `a`. */
  lemma {:induction false} ExtendedNotStuck(sketch: Sketch, startPipe: Pipe, a: seq<Position>, b: seq<Position>)
    requires Walk(sketch, startPipe, b) && 1 <= |a| < |b| && a == b[..|a|]
    ensures NextPosition(sketch, startPipe, a[|a| - 1], Elems(a)) == Some(b[|a|])
  {
    assert b[|a| - 1] == a[|a| - 1];
  }

  /** Two walks agree as far as both go. */
  lemma {:induction false} WalkAgree(sketch: Sketch, startPipe: Pipe, a: seq<Position>, b: seq<Position>, k: nat)
    requires Walk(sketch, startPipe, a) && Walk(sketch, startPipe, b)
    requires 1 <= k <= |a| && k <= |b|
    ensures a[..k] == b[..k]
  {
    if k > 1 {
      WalkAgree(sketch, startPipe, a, b, k - 1);
      assert a[..k - 1][k - 2] == a[k - 2] && b[..k - 1][k - 2] == b[k - 2];
      assert a[..k] == a[..k - 1] + [a[k - 1]];
      assert b[..k] == b[..k - 1] + [b[k - 1]];
    }
  }

  /** The invariant of the walk loop. */
  ghost predicate Walking(sketch: Sketch, startPipe: Pipe, domain: set<Position>,
                          path: seq<Position>, visited: set<Position>, current: Position)
  {
    && Walk(sketch, startPipe, path)
    && visited == Elems(path) && |visited| == |path|
    && current == path[|path| - 1]
    && visited <= domain
  }

  /** The walk goes on by its next position. */
  lemma {:induction false} WalkExtend(sketch: Sketch, startPipe: Pipe, path: seq<Position>, next: Position)
    requires Walk(sketch, startPipe, path)
    requires NextPosition(sketch, startPipe, path[|path| - 1], Elems(path)) == Some(next)
    ensures Walk(sketch, startPipe, path + [next])
    ensures Elems(path + [next]) == Elems(path) + {next} && next !in Elems(path)
  {
    var path' := path + [next];
    assert path'[..|path|] == path;
    forall k | 0 <= k < |path'| - 1
      ensures NextPosition(sketch, startPipe, path'[k], Elems(path'[..k + 1])) == Some(path'[k + 1])
    {
      if k < |path| - 1 {
        assert path'[..k + 1] == path[..k + 1];
      }
    }
  }

  /** One pass of the walk loop: move through the first opening to an
      unvisited position, or report that there is none. */
  method WalkStep(sketch: Sketch, startPipe: Pipe, ghost domain: set<Position>,
                  ghost path: seq<Position>, visited: set<Position>, current: Position)
    returns (moved: bool, ghost path': seq<Position>, visited': set<Position>, current': Position)
    requires ClosedUnder(sketch, startPipe, domain)
    requires Walking(sketch, startPipe, domain, path, visited, current)
    ensures Walking(sketch, startPipe, domain, path', visited', current')
    ensures moved ==> visited < visited'
    ensures !moved ==> path' == path && Stuck(sketch, startPipe, path)
  {
    var pipe := PipeAt(sketch, startPipe, current);
    var openings := [pipe.0, pipe.1];
    var i := 0;
    while i < 2
      invariant 0 <= i <= 2
      invariant forall k :: 0 <= k < i ==> Move(current, openings[k]) in visited
    {
      var adjacent := Move(current, openings[i]);
      if adjacent !in visited {
        assert i == 1 ==> Move(current, openings[0]) in visited;
        assert NextPosition(sketch, startPipe, current, visited) == Some(adjacent);
        WalkExtend(sketch, startPipe, path, adjacent);
        return true, path + [adjacent], visited + {adjacent}, adjacent;
      }
      i := i + 1;
    }
    assert Move(current, openings[0]) in visited && Move(current, openings[1]) in visited;
    return false, path, visited, current;
  }

  /** `main_loop`: the positions of the walk from the start, which moves
      through the first opening leading to an unvisited position until
      there is none. The source panics when the start's shape cannot be
      found; the model returns None. */
  method MainLoop(sketch: Sketch, ghost domain: set<Position>) returns (r: Option<set<Position>>, ghost path: seq<Position>)
    requires StartPipeOf(sketch).Some? ==> ClosedUnder(sketch, StartPipeOf(sketch).value, domain)
    ensures r.None? <==> StartPipeOf(sketch).None?
    ensures r.Some? ==>
      var startPipe := StartPipeOf(sketch).value;
      && Walk(sketch, startPipe, path) && Stuck(sketch, startPipe, path)
      && r.value == Elems(path) && |r.value| == |path|
  {
    var startPipeOption := StartingPipe(sketch);
    if startPipeOption.None? {
      return None, [];
    }
    var startPipe := startPipeOption.value;
    var current := sketch.start;
    var visited := {current};
    path := [current];
    assert Elems(path) == visited;
    var moved := true;
    while moved
      invariant Walking(sketch, startPipe, domain, path, visited, current)
      invariant !moved ==> Stuck(sketch, startPipe, path)
      decreases domain - visited, if moved then 1 else 0
    {
      moved, path, visited, current := WalkStep(sketch, startPipe, domain, path, visited, current);
    }
    return Some(visited), path;
  }

  /** Part one: the farthest point along the loop is half its length away. */
  method Part1(sketch: Sketch, ghost domain: set<Position>) returns (r: Option<nat>, ghost path: seq<Position>)
    requires StartPipeOf(sketch).Some? ==> ClosedUnder(sketch, StartPipeOf(sketch).value, domain)
    ensures r.None? <==> StartPipeOf(sketch).None?
    ensures r.Some? ==>
      var startPipe := StartPipeOf(sketch).value;
      && Walk(sketch, startPipe, path) && Stuck(sketch, startPipe, path)
      && r.value == |path| / 2
  {
    var loop;
    loop, path := MainLoop(sketch, domain);
    if loop.None? {
      return None, path;
    }
    return Some(|loop.value| / 2), path;
  }

  // ---------------------------------------------------------------------
  // Enclosed tiles

  /** A loop tile with an opening downwards: crossing it flips between
      outside and inside. */
  predicate Crosses(sketch: Sketch, startPipe: Pipe, loop: set<Position>, p: Position)
  {
    p in loop && (PipeAt(sketch, startPipe, p).0 == (0, 1) || PipeAt(sketch, startPipe, p).1 == (0, 1))
  }

  /** The number of crossing tiles in row `y` left of column `x`. */
  function CrossingsBefore(sketch: Sketch, startPipe: Pipe, loop: set<Position>, y: int, x: nat): nat
  {
    if x == 0 then 0
    else CrossingsBefore(sketch, startPipe, loop, y, x - 1) + (if Crosses(sketch, startPipe, loop, (x - 1, y)) then 1 else 0)
  }

  /** The tiles of row `y` left of column `x` that are off the loop with an
      odd number of crossings to their left. */
  function InsideInRow(sketch: Sketch, startPipe: Pipe, loop: set<Position>, y: int, x: nat): nat
  {
    if x == 0 then 0
    else
      InsideInRow(sketch, startPipe, loop, y, x - 1)
        + (if (x - 1, y) !in loop && CrossingsBefore(sketch, startPipe, loop, y, x - 1) % 2 == 1 then 1 else 0)
  }

  /** The enclosed tiles of the first `rows` rows of width `width`. */
  function InsideCount(sketch: Sketch, startPipe: Pipe, loop: set<Position>, width: nat, rows: nat): nat
  {
    if rows == 0 then 0
    else InsideCount(sketch, startPipe, loop, width, rows - 1) + InsideInRow(sketch, startPipe, loop, rows - 1, width)
  }

  /** A row the loop does not cross encloses nothing. */
  lemma {:induction false} UncrossedRowEmpty(sketch: Sketch, startPipe: Pipe, loop: set<Position>, y: int, x: nat)
    requires forall k :: 0 <= k < x ==> !Crosses(sketch, startPipe, loop, (k, y))
    ensures CrossingsBefore(sketch, startPipe, loop, y, x) == 0
    ensures InsideInRow(sketch, startPipe, loop, y, x) == 0
  {
    if x > 0 {
      UncrossedRowEmpty(sketch, startPipe, loop, y, x - 1);
    }
  }

  /** The tiles of a row counted as enclosed are at most the tiles off the
      loop. */
  lemma {:induction false} InsideInRowBound(sketch: Sketch, startPipe: Pipe, loop: set<Position>, y: int, x: nat)
    ensures InsideInRow(sketch, startPipe, loop, y, x) <= x
    ensures (forall k :: 0 <= k < x ==> (k, y) in loop) ==> InsideInRow(sketch, startPipe, loop, y, x) == 0
  {
    if x > 0 {
      InsideInRowBound(sketch, startPipe, loop, y, x - 1);
    }
  }

  /** One row of the scan of `part2`: `outside` flips on every crossing tile
      and every tile off the loop met while inside is counted. */
  method ScanRow(sketch: Sketch, startPipe: Pipe, loop: set<Position>, y: int) returns (count: nat)
    ensures count == InsideInRow(sketch, startPipe, loop, y, if sketch.bottomRight.0 < 0 then 0 else sketch.bottomRight.0 + 1)
  {
    count := 0;
    var outside := true;
    var x := 0;
    while x <= sketch.bottomRight.0
      invariant 0 <= x && (x <= sketch.bottomRight.0 + 1 || x == 0)
      invariant count == InsideInRow(sketch, startPipe, loop, y, x)
      invariant outside <==> CrossingsBefore(sketch, startPipe, loop, y, x) % 2 == 0
    {
      if (x, y) in loop {
        var directions := PipeAt(sketch, startPipe, (x, y));
        if directions.0 == (0, 1) || directions.1 == (0, 1) {
          outside := !outside;
        }
      } else if !outside {
        count := count + 1;
      }
      x := x + 1;
    }
  }

  /** Part two: the tiles enclosed by the loop, found row by row by the
      parity of the crossings to their left. */
  method Part2(sketch: Sketch, ghost domain: set<Position>) returns (r: Option<nat>, ghost path: seq<Position>)
    requires StartPipeOf(sketch).Some? ==> ClosedUnder(sketch, StartPipeOf(sketch).value, domain)
    ensures r.None? <==> StartPipeOf(sketch).None?
    ensures r.Some? ==>
      var startPipe := StartPipeOf(sketch).value;
      var width := if sketch.bottomRight.0 < 0 then 0 else sketch.bottomRight.0 + 1;
      var rows := if sketch.bottomRight.1 < 0 then 0 else sketch.bottomRight.1 + 1;
      && Walk(sketch, startPipe, path) && Stuck(sketch, startPipe, path)
      && r.value == InsideCount(sketch, startPipe, Elems(path), width, rows)
  {
    var loop;
    loop, path := MainLoop(sketch, domain);
    if loop.None? {
      return None, path;
    }
    var startPipeOption := StartingPipe(sketch);
    var startPipe := startPipeOption.value;
    var width := if sketch.bottomRight.0 < 0 then 0 else sketch.bottomRight.0 + 1;
    var count := 0;
    var y := 0;
    while y <= sketch.bottomRight.1
      invariant 0 <= y && (y <= sketch.bottomRight.1 + 1 || y == 0)
      invariant count == InsideCount(sketch, startPipe, loop.value, width, y)
    {
      var inRow := ScanRow(sketch, startPipe, loop.value, y);
      count := count + inRow;
      y := y + 1;
    }
    return Some(count), path;
  }
}
