/** Day 23, "A Long Walk": the longest hike from the opening in the top row
    to the opening in the bottom row of a map of paths, forest and steep
    slopes, never stepping on the same tile twice. The map is compressed
    into a graph whose vertices are the junctions and whose edges are the
    corridors between them. Part one must go down every slope the way it
    points; part two treats slopes as ordinary paths. */
module Day23 {
  import opened Common

  type Coordinates = (int, int)

  datatype Direction = Right | Down | Left | Up

  datatype Tile = Path | Forest | Slope(direction: Direction)

  /** Rows of tiles, top row first. */
  type HikingMap = seq<seq<Tile>>

  /** The compressed graph: each vertex with the vertices its corridors
      lead to and their lengths. */
  type Edges = map<Coordinates, map<Coordinates, nat>>

  // ---------------------------------------------------------------------
  // The map

  /** The unit vector of a direction (y grows downwards). */
  function ToVector(d: Direction): Coordinates
  {
    match d
    case Left => (-1, 0)
    case Right => (1, 0)
    case Up => (0, -1)
    case Down => (0, 1)
  }

  /** `position + direction`. */
  function Step(p: Coordinates, d: Direction): Coordinates
  {
    (p.0 + ToVector(d).0, p.1 + ToVector(d).1)
  }

  /** At least one row, and every row as wide as the first. */
  predicate WellShaped(hikingMap: HikingMap)
  {
    |hikingMap| > 0 && forall y :: 0 <= y < |hikingMap| ==> |hikingMap[y]| == |hikingMap[0]|
  }

  /** `bottom_right`: the last column of the first row and the last row. */
  function BottomRight(hikingMap: HikingMap): Coordinates
    requires |hikingMap| > 0
  {
    (|hikingMap[0]| - 1, |hikingMap| - 1)
  }

  predicate InBounds(hikingMap: HikingMap, p: Coordinates)
    requires |hikingMap| > 0
  {
    0 <= p.0 <= BottomRight(hikingMap).0 && 0 <= p.1 <= BottomRight(hikingMap).1
  }

  /** Every position on the map. */
  function Box(hikingMap: HikingMap): set<Coordinates>
    requires |hikingMap| > 0
  {
    set x, y | 0 <= x < |hikingMap[0]| && 0 <= y < |hikingMap| :: (x, y)
  }

  lemma {:induction false} InBox(hikingMap: HikingMap, p: Coordinates)
    requires |hikingMap| > 0
    ensures p in Box(hikingMap) <==> InBounds(hikingMap, p)
  {
    if InBounds(hikingMap, p) {
      var x, y := p.0, p.1;
      assert (x, y) in Box(hikingMap);
    }
  }

  function TileAt(hikingMap: HikingMap, p: Coordinates): Tile
    requires WellShaped(hikingMap) && InBounds(hikingMap, p)
  {
    hikingMap[p.1][p.0]
  }

  /** The tile at p may be entered moving in direction d: it is on the map
      and is a path, or a slope pointing in d (any slope when slopes are
      ignored). */
  predicate Enterable(hikingMap: HikingMap, ignoreSlopes: bool, p: Coordinates, d: Direction)
    requires WellShaped(hikingMap)
  {
    InBounds(hikingMap, p)
    && match TileAt(hikingMap, p)
       case Path => true
       case Slope(s) => s == d || ignoreSlopes
       case Forest => false
  }

  /** The neighbour of p in direction d, if it may be entered. */
  function MoveTo(hikingMap: HikingMap, ignoreSlopes: bool, p: Coordinates, d: Direction): seq<Coordinates>
    requires WellShaped(hikingMap)
  {
    if Enterable(hikingMap, ignoreSlopes, Step(p, d), d) then [Step(p, d)] else []
  }

  /** `adjacent_positions`: the neighbours that may be entered, tried to
      the right, down, left and up. */
  function AdjacentPositions(p: Coordinates, hikingMap: HikingMap, ignoreSlopes: bool): (r: seq<Coordinates>)
    requires WellShaped(hikingMap)
    ensures forall q :: q in r ==> InBounds(hikingMap, q) && q != p
  {
    var r := MoveTo(hikingMap, ignoreSlopes, p, Right) + MoveTo(hikingMap, ignoreSlopes, p, Down)
      + MoveTo(hikingMap, ignoreSlopes, p, Left) + MoveTo(hikingMap, ignoreSlopes, p, Up);
    r
  }

  /** The neighbours returned are exactly the positions one step away that
      may be entered with that step. */
  lemma {:induction false} AdjacentExactly(p: Coordinates, hikingMap: HikingMap, ignoreSlopes: bool)
    requires WellShaped(hikingMap)
    ensures forall q :: q in AdjacentPositions(p, hikingMap, ignoreSlopes) <==>
      exists d :: q == Step(p, d) && Enterable(hikingMap, ignoreSlopes, q, d)
  {
  }

  lemma {:induction false} AdjacentMove(p: Coordinates, hikingMap: HikingMap, ignoreSlopes: bool, q: Coordinates)
    requires WellShaped(hikingMap) && q in AdjacentPositions(p, hikingMap, ignoreSlopes)
    ensures Move(hikingMap, ignoreSlopes, p, q)
  {
    AdjacentExactly(p, hikingMap, ignoreSlopes);
  }

  /** Ignoring slopes only adds neighbours. */
  lemma {:induction false} IgnoringSlopesAddsMoves(p: Coordinates, hikingMap: HikingMap)
    requires WellShaped(hikingMap)
    ensures forall q :: q in AdjacentPositions(p, hikingMap, false) ==> q in AdjacentPositions(p, hikingMap, true)
  {
    AdjacentExactly(p, hikingMap, false);
    AdjacentExactly(p, hikingMap, true);
    forall q | q in AdjacentPositions(p, hikingMap, false) ensures q in AdjacentPositions(p, hikingMap, true) {
      var d :| q == Step(p, d) && Enterable(hikingMap, false, q, d);
      assert Enterable(hikingMap, true, q, d);
    }
  }

  /** The first path tile of a row, found from the left. */
  function FirstPath(row: seq<Tile>): (x: nat)
    requires Path in row
    ensures x < |row| && row[x] == Path
    ensures forall i :: 0 <= i < x ==> row[i] != Path
  {
    if row[0] == Path then 0 else 1 + FirstPath(row[1..])
  }

  /** The top row holds a path tile (`starting_point` unwraps it). */
  predicate HasStart(hikingMap: HikingMap)
  {
    |hikingMap| > 0 && Path in hikingMap[0]
  }

  /** The bottom row holds a path tile (`finishing_point` unwraps it). */
  predicate HasFinish(hikingMap: HikingMap)
  {
    |hikingMap| > 0 && Path in hikingMap[|hikingMap| - 1]
  }

  /** `starting_point`: the first path tile in the top row. */
  function StartingPoint(hikingMap: HikingMap): (r: Coordinates)
    requires WellShaped(hikingMap) && HasStart(hikingMap)
    ensures r.1 == 0 && InBounds(hikingMap, r) && TileAt(hikingMap, r) == Path
    ensures forall x :: 0 <= x < r.0 ==> TileAt(hikingMap, (x, 0)) != Path
  {
    (FirstPath(hikingMap[0]), 0)
  }

  /** `finishing_point`: the first path tile in the bottom row. */
  function FinishingPoint(hikingMap: HikingMap): (r: Coordinates)
    requires WellShaped(hikingMap) && HasFinish(hikingMap)
    ensures r.1 == |hikingMap| - 1 && InBounds(hikingMap, r) && TileAt(hikingMap, r) == Path
    ensures forall x :: 0 <= x < r.0 ==> TileAt(hikingMap, (x, r.1)) != Path
  {
    (FirstPath(hikingMap[|hikingMap| - 1]), BottomRight(hikingMap).1)
  }

  // ---------------------------------------------------------------------
  // Corridors

  /** The entries of `positions` not in `visited`, in order. */
  function Unvisited(positions: seq<Coordinates>, visited: set<Coordinates>): (r: seq<Coordinates>)
    ensures forall q :: q in r <==> q in positions && q !in visited
  {
    if positions == [] then []
    else (if positions[0] in visited then [] else [positions[0]]) + Unvisited(positions[1..], visited)
  }

  /** The neighbours of `position` that may be entered and are not in
      `visited`, in the order `adjacent_positions` gives them. */
  function Exits(hikingMap: HikingMap, ignoreSlopes: bool, visited: set<Coordinates>, position: Coordinates): (r: seq<Coordinates>)
    requires WellShaped(hikingMap)
    ensures forall q :: q in r ==> InBounds(hikingMap, q) && q !in visited
  {
    Unvisited(AdjacentPositions(position, hikingMap, ignoreSlopes), visited)
  }

  /** A map in which a hike may be walked. */
  predicate Hikeable(hikingMap: HikingMap)
  {
    WellShaped(hikingMap) && HasFinish(hikingMap)
  }

  /** The inner loop of `get_connected_vertices`: from `position`, entered
      `distance` steps after the vertex, step on while exactly one neighbour
      is unvisited; the corridor ends at the first position with none or
      several, and that position is returned with its distance. */
  function Corridor(hikingMap: HikingMap, ignoreSlopes: bool, visited: set<Coordinates>,
                    position: Coordinates, distance: nat): (Coordinates, nat)
    requires WellShaped(hikingMap) && InBounds(hikingMap, position) && position !in visited
    decreases |Box(hikingMap) - visited|
  {
    var visited' := visited + {position};
    var next := Exits(hikingMap, ignoreSlopes, visited', position);
    if |next| == 1 then
      InBox(hikingMap, position);
      CoverGrows(Box(hikingMap), visited, position);
      Corridor(hikingMap, ignoreSlopes, visited', next[0], distance + 1)
    else (position, distance)
  }

  /** One step of the corridor walk. */
  lemma {:induction false} CorridorStep(hikingMap: HikingMap, ignoreSlopes: bool, visited: set<Coordinates>,
                                        position: Coordinates, distance: nat)
    requires WellShaped(hikingMap) && InBounds(hikingMap, position) && position !in visited
    ensures var visited' := visited + {position};
      var next := Exits(hikingMap, ignoreSlopes, visited', position);
      if |next| == 1 then
        && InBounds(hikingMap, next[0]) && next[0] !in visited'
        && Corridor(hikingMap, ignoreSlopes, visited, position, distance)
           == Corridor(hikingMap, ignoreSlopes, visited', next[0], distance + 1)
      else Corridor(hikingMap, ignoreSlopes, visited, position, distance) == (position, distance)
  {
  }

  /** One more covered element leaves fewer uncovered. */
  lemma {:induction false} CoverGrows(box: set<Coordinates>, visited: set<Coordinates>, p: Coordinates)
    requires p in box && p !in visited
    ensures |box - (visited + {p})| < |box - visited|
  {
    assert box - visited == (box - (visited + {p})) + {p};
  }

  /** `max` with the entry already recorded for the end, 0 if none. */
  function Record(connected: map<Coordinates, nat>, corridor: (Coordinates, nat)): map<Coordinates, nat>
  {
    var previous := if corridor.0 in connected then connected[corridor.0] else 0;
    connected[corridor.0 := Max(previous, corridor.1) as nat]
  }

  /** Each of `starts` lies on the map and is not the vertex. */
  predicate Leaves(hikingMap: HikingMap, vertex: Coordinates, starts: seq<Coordinates>)
    requires WellShaped(hikingMap)
  {
    forall i :: 0 <= i < |starts| ==> InBounds(hikingMap, starts[i]) && starts[i] != vertex
  }

  /** The corridors from the vertex into each of `starts`, recorded in
      turn. */
  function Gather(hikingMap: HikingMap, ignoreSlopes: bool, vertex: Coordinates, starts: seq<Coordinates>): map<Coordinates, nat>
    requires WellShaped(hikingMap) && Leaves(hikingMap, vertex, starts)
  {
    if starts == [] then map[]
    else
      var before := Gather(hikingMap, ignoreSlopes, vertex, starts[..|starts| - 1]);
      Record(before, Corridor(hikingMap, ignoreSlopes, {vertex}, starts[|starts| - 1], 1))
  }

  /** The vertices reached by the corridors leaving `vertex`, each with its
      longest corridor; none from the finishing point. */
  function ConnectedVertices(hikingMap: HikingMap, vertex: Coordinates, ignoreSlopes: bool): map<Coordinates, nat>
    requires Hikeable(hikingMap)
  {
    if vertex == FinishingPoint(hikingMap) then map[]
    else Gather(hikingMap, ignoreSlopes, vertex, AdjacentPositions(vertex, hikingMap, ignoreSlopes))
  }

  /** No position occurs twice. */
  predicate NoRepeats(t: seq<Coordinates>)
  {
    forall i, j :: 0 <= i < j < |t| ==> t[i] != t[j]
  }

  /** A walk on the map: each position after the first is a neighbour of
      the one before that may be entered, and no position is visited
      twice. */
  ghost predicate Hike(hikingMap: HikingMap, ignoreSlopes: bool, t: seq<Coordinates>)
    requires WellShaped(hikingMap)
  {
    && |t| >= 1
    && (forall i :: 0 <= i < |t| - 1 ==> Move(hikingMap, ignoreSlopes, t[i], t[i + 1]))
    && NoRepeats(t)
  }

  /** One step from a to b that may be taken. */
  ghost predicate Move(hikingMap: HikingMap, ignoreSlopes: bool, a: Coordinates, b: Coordinates)
    requires WellShaped(hikingMap)
  {
    exists d :: b == Step(a, d) && Enterable(hikingMap, ignoreSlopes, b, d)
  }

  /** A step onto the start of a walk that does not come back extends it. */
  lemma {:induction false} HikePrepend(hikingMap: HikingMap, ignoreSlopes: bool, p: Coordinates, rest: seq<Coordinates>)
    returns (t: seq<Coordinates>)
    requires WellShaped(hikingMap) && Hike(hikingMap, ignoreSlopes, rest)
    requires Move(hikingMap, ignoreSlopes, p, rest[0]) && p !in rest
    ensures t == [p] + rest && Hike(hikingMap, ignoreSlopes, t)
  {
    t := [p] + rest;
    forall i | 0 <= i < |t| - 1 ensures Move(hikingMap, ignoreSlopes, t[i], t[i + 1]) {
      if i > 0 {
        assert t[i] == rest[i - 1] && t[i + 1] == rest[i];
      }
    }
    forall i, j | 0 <= i < j < |t| ensures t[i] != t[j] {
      assert t[j] == rest[j - 1];
      if i > 0 {
        assert t[i] == rest[i - 1];
      } else {
        assert t[j] in rest;
      }
    }
  }

  /** A corridor is a genuine walk: it starts at `position`, ends at the
      position returned, takes one step per unit of distance, avoids
      `visited` and never steps on a position twice. */
  lemma {:induction false} CorridorHike(hikingMap: HikingMap, ignoreSlopes: bool, visited: set<Coordinates>,
                                        position: Coordinates, distance: nat) returns (t: seq<Coordinates>)
    requires WellShaped(hikingMap) && InBounds(hikingMap, position) && position !in visited
    ensures var c := Corridor(hikingMap, ignoreSlopes, visited, position, distance);
      && Hike(hikingMap, ignoreSlopes, t) && t[0] == position && t[|t| - 1] == c.0
      && c.1 == distance + |t| - 1
    ensures forall q :: q in t ==> q !in visited
    decreases |Box(hikingMap) - visited|
  {
    var visited' := visited + {position};
    var next := Exits(hikingMap, ignoreSlopes, visited', position);
    CorridorStep(hikingMap, ignoreSlopes, visited, position, distance);
    if |next| == 1 {
      InBox(hikingMap, position);
      CoverGrows(Box(hikingMap), visited, position);
      var rest := CorridorHike(hikingMap, ignoreSlopes, visited', next[0], distance + 1);
      t := CorridorPrepend(hikingMap, ignoreSlopes, visited, position, next[0], rest);
    } else {
      t := [position];
    }
  }

  /** A step into the only exit followed by the walk of the rest of the
      corridor. */
  lemma {:induction false} CorridorPrepend(hikingMap: HikingMap, ignoreSlopes: bool, visited: set<Coordinates>,
                                           position: Coordinates, next: Coordinates, rest: seq<Coordinates>)
    returns (t: seq<Coordinates>)
    requires WellShaped(hikingMap) && InBounds(hikingMap, position) && position !in visited
    requires next in Exits(hikingMap, ignoreSlopes, visited + {position}, position)
    requires Hike(hikingMap, ignoreSlopes, rest) && rest[0] == next
    requires forall q :: q in rest ==> q !in visited + {position}
    ensures Hike(hikingMap, ignoreSlopes, t) && t[0] == position && t[|t| - 1] == rest[|rest| - 1]
    ensures |t| == |rest| + 1
    ensures forall q :: q in t ==> q !in visited
  {
    assert next in AdjacentPositions(position, hikingMap, ignoreSlopes);
    AdjacentMove(position, hikingMap, ignoreSlopes, next);
    t := HikePrepend(hikingMap, ignoreSlopes, position, rest);
    assert t[|t| - 1] == rest[|rest| - 1];
    forall q | q in t ensures q !in visited {
      assert q == position || q in rest;
    }
  }

  /** What is gathered from some corridors was gathered from all but the
      last one, or is the end of the last one with its length. */
  lemma {:induction false} GatherCases(hikingMap: HikingMap, ignoreSlopes: bool, vertex: Coordinates,
                                       starts: seq<Coordinates>, e: Coordinates)
    requires WellShaped(hikingMap) && Leaves(hikingMap, vertex, starts)
    requires e in Gather(hikingMap, ignoreSlopes, vertex, starts)
    ensures starts != [] && Leaves(hikingMap, vertex, starts[..|starts| - 1])
    ensures var connected := Gather(hikingMap, ignoreSlopes, vertex, starts);
      var before := Gather(hikingMap, ignoreSlopes, vertex, starts[..|starts| - 1]);
      var c := Corridor(hikingMap, ignoreSlopes, {vertex}, starts[|starts| - 1], 1);
      || (e in before && connected[e] == before[e])
      || (e == c.0 && connected[e] == c.1)
  {
  }

  /** Each of `starts` is a neighbour of the vertex that may be entered. */
  predicate Opens(hikingMap: HikingMap, ignoreSlopes: bool, vertex: Coordinates, starts: seq<Coordinates>)
    requires WellShaped(hikingMap)
  {
    && Leaves(hikingMap, vertex, starts)
    && forall i :: 0 <= i < |starts| ==> starts[i] in AdjacentPositions(vertex, hikingMap, ignoreSlopes)
  }

  /** The neighbours of a vertex open from it. */
  lemma {:induction false} AdjacentOpens(hikingMap: HikingMap, ignoreSlopes: bool, vertex: Coordinates)
    requires WellShaped(hikingMap)
    ensures Opens(hikingMap, ignoreSlopes, vertex, AdjacentPositions(vertex, hikingMap, ignoreSlopes))
  {
  }

  /** Every prefix of a sequence that opens from the vertex does too. */
  lemma {:induction false} OpensPrefix(hikingMap: HikingMap, ignoreSlopes: bool, vertex: Coordinates,
                                       starts: seq<Coordinates>, n: nat)
    requires WellShaped(hikingMap) && n <= |starts| && Opens(hikingMap, ignoreSlopes, vertex, starts)
    ensures Opens(hikingMap, ignoreSlopes, vertex, starts[..n])
  {
    forall i | 0 <= i < n ensures starts[..n][i] == starts[i] {
    }
  }

  /** Every vertex in the gathered map is the end of a walk from the vertex
      as long as its recorded distance. */
  lemma {:induction false} GatherHike(hikingMap: HikingMap, ignoreSlopes: bool, vertex: Coordinates,
                                      starts: seq<Coordinates>, e: Coordinates) returns (t: seq<Coordinates>)
    requires WellShaped(hikingMap) && Opens(hikingMap, ignoreSlopes, vertex, starts)
    requires e in Gather(hikingMap, ignoreSlopes, vertex, starts)
    ensures Hike(hikingMap, ignoreSlopes, t) && t[0] == vertex && t[|t| - 1] == e
    ensures |t| - 1 == Gather(hikingMap, ignoreSlopes, vertex, starts)[e]
    decreases |starts|
  {
    GatherCases(hikingMap, ignoreSlopes, vertex, starts, e);
    var init := starts[..|starts| - 1];
    OpensPrefix(hikingMap, ignoreSlopes, vertex, starts, |starts| - 1);
    if e in Gather(hikingMap, ignoreSlopes, vertex, init)
      && Gather(hikingMap, ignoreSlopes, vertex, starts)[e] == Gather(hikingMap, ignoreSlopes, vertex, init)[e]
    {
      t := GatherHike(hikingMap, ignoreSlopes, vertex, init, e);
    } else {
      t := LeavingHike(hikingMap, ignoreSlopes, vertex, starts[|starts| - 1]);
    }
  }

  /** The vertex followed by the corridor into one of its neighbours is a
      walk as long as the corridor. */
  lemma {:induction false} LeavingHike(hikingMap: HikingMap, ignoreSlopes: bool, vertex: Coordinates,
                                       start: Coordinates) returns (t: seq<Coordinates>)
    requires WellShaped(hikingMap) && InBounds(hikingMap, start) && start != vertex
    requires start in AdjacentPositions(vertex, hikingMap, ignoreSlopes)
    ensures var c := Corridor(hikingMap, ignoreSlopes, {vertex}, start, 1);
      Hike(hikingMap, ignoreSlopes, t) && t[0] == vertex && t[|t| - 1] == c.0 && |t| - 1 == c.1
  {
    var rest := CorridorHike(hikingMap, ignoreSlopes, {vertex}, start, 1);
    AdjacentMove(vertex, hikingMap, ignoreSlopes, start);
    t := HikePrepend(hikingMap, ignoreSlopes, vertex, rest);
    assert t[|t| - 1] == rest[|rest| - 1];
  }

  /** Every corridor from the vertex is recorded, at no less than its
      length. */
  lemma {:induction false} GatherKeepsLongest(hikingMap: HikingMap, ignoreSlopes: bool, vertex: Coordinates,
                                              starts: seq<Coordinates>, k: nat)
    requires WellShaped(hikingMap) && Leaves(hikingMap, vertex, starts)
    requires k < |starts|
    ensures var c := Corridor(hikingMap, ignoreSlopes, {vertex}, starts[k], 1);
      var connected := Gather(hikingMap, ignoreSlopes, vertex, starts);
      c.0 in connected && connected[c.0] >= c.1
    decreases |starts|
  {
    if k < |starts| - 1 {
      GatherKeepsLongest(hikingMap, ignoreSlopes, vertex, starts[..|starts| - 1], k);
      assert starts[..|starts| - 1][k] == starts[k];
    }
  }

  /** The connected vertices are exactly the ends of the corridors leaving
      the vertex (none from the finishing point); each is recorded with the
      longest such corridor, which is a walk from the vertex of that
      length. */
  lemma {:induction false} ConnectedVerticesMeaning(hikingMap: HikingMap, vertex: Coordinates, ignoreSlopes: bool,
                                                    e: Coordinates)
    requires Hikeable(hikingMap) && e in ConnectedVertices(hikingMap, vertex, ignoreSlopes)
    ensures vertex != FinishingPoint(hikingMap)
    ensures exists t :: && Hike(hikingMap, ignoreSlopes, t) && t[0] == vertex && t[|t| - 1] == e
                        && |t| - 1 == ConnectedVertices(hikingMap, vertex, ignoreSlopes)[e]
  {
    var starts := AdjacentPositions(vertex, hikingMap, ignoreSlopes);
    AdjacentOpens(hikingMap, ignoreSlopes, vertex);
    var t := GatherHike(hikingMap, ignoreSlopes, vertex, starts, e);
  }

  lemma {:induction false} ConnectedKeepsLongest(hikingMap: HikingMap, vertex: Coordinates, ignoreSlopes: bool,
                                                 start: Coordinates)
    requires Hikeable(hikingMap) && vertex != FinishingPoint(hikingMap)
    requires start in AdjacentPositions(vertex, hikingMap, ignoreSlopes)
    ensures var c := Corridor(hikingMap, ignoreSlopes, {vertex}, start, 1);
      var connected := ConnectedVertices(hikingMap, vertex, ignoreSlopes);
      c.0 in connected && connected[c.0] >= c.1
  {
    var starts := AdjacentPositions(vertex, hikingMap, ignoreSlopes);
    var k :| 0 <= k < |starts| && starts[k] == start;
    GatherKeepsLongest(hikingMap, ignoreSlopes, vertex, starts, k);
  }

  /** The state of the corridor walk: either a position still to be taken
      from the stack, or the corridor's end already recorded. */
  ghost predicate Walking(hikingMap: HikingMap, ignoreSlopes: bool, whole: (Coordinates, nat),
                          before: map<Coordinates, nat>, connected: map<Coordinates, nat>,
                          visited: set<Coordinates>, nodes: seq<(Coordinates, nat)>)
    requires WellShaped(hikingMap)
  {
    || (&& |nodes| == 1 && InBounds(hikingMap, nodes[0].0) && nodes[0].0 !in visited
        && Corridor(hikingMap, ignoreSlopes, visited, nodes[0].0, nodes[0].1) == whole
        && connected == before)
    || (nodes == [] && connected == Record(before, whole))
  }

  /** `get_connected_vertices`: for each neighbour of the vertex, follow
      the corridor it opens and keep the longest distance to its end. */
  method GetConnectedVertices(vertex: Coordinates, hikingMap: HikingMap, ignoreSlopes: bool)
    returns (connected: map<Coordinates, nat>)
    requires Hikeable(hikingMap)
    ensures connected == ConnectedVertices(hikingMap, vertex, ignoreSlopes)
  {
    connected := map[];
    if vertex == FinishingPoint(hikingMap) {
      return;
    }
    var starts := AdjacentPositions(vertex, hikingMap, ignoreSlopes);
    assert Leaves(hikingMap, vertex, starts);
    for i := 0 to |starts|
      invariant Leaves(hikingMap, vertex, starts[..i])
      invariant connected == Gather(hikingMap, ignoreSlopes, vertex, starts[..i])
    {
      GatherNext(hikingMap, ignoreSlopes, vertex, starts, i);
      connected := FollowCorridor(vertex, starts[i], hikingMap, ignoreSlopes, connected);
    }
    assert starts[..|starts|] == starts;
  }

  /** Gathering one more corridor records it. */
  lemma {:induction false} GatherNext(hikingMap: HikingMap, ignoreSlopes: bool, vertex: Coordinates,
                                      starts: seq<Coordinates>, i: nat)
    requires WellShaped(hikingMap) && Leaves(hikingMap, vertex, starts) && i < |starts|
    ensures InBounds(hikingMap, starts[i]) && starts[i] != vertex && Leaves(hikingMap, vertex, starts[..i + 1])
    ensures Gather(hikingMap, ignoreSlopes, vertex, starts[..i + 1])
         == Record(Gather(hikingMap, ignoreSlopes, vertex, starts[..i]),
                   Corridor(hikingMap, ignoreSlopes, {vertex}, starts[i], 1))
  {
    assert starts[..i + 1][..i] == starts[..i];
  }

  /** The `while let` loop of `get_connected_vertices` for one starting
      point: walk the corridor and record its end. */
  method FollowCorridor(vertex: Coordinates, start: Coordinates, hikingMap: HikingMap, ignoreSlopes: bool,
                        before: map<Coordinates, nat>) returns (connected: map<Coordinates, nat>)
    requires WellShaped(hikingMap) && InBounds(hikingMap, start) && start != vertex
    ensures connected == Record(before, Corridor(hikingMap, ignoreSlopes, {vertex}, start, 1))
  {
    ghost var whole := Corridor(hikingMap, ignoreSlopes, {vertex}, start, 1);
    connected := before;
    var visited := {vertex};
    var nodes := [(start, 1)];
    while nodes != []
      invariant Walking(hikingMap, ignoreSlopes, whole, before, connected, visited, nodes)
      decreases |Box(hikingMap) - visited|
    {
      connected, visited, nodes := CorridorPop(hikingMap, ignoreSlopes, whole, before, connected, visited, nodes);
    }
  }

  /** One turn of that loop: pop a position, mark it visited, and either
      push its only unvisited neighbour or record the corridor's end. */
  method CorridorPop(hikingMap: HikingMap, ignoreSlopes: bool, ghost whole: (Coordinates, nat),
                     before: map<Coordinates, nat>, connected: map<Coordinates, nat>,
                     visited: set<Coordinates>, nodes: seq<(Coordinates, nat)>)
    returns (connected': map<Coordinates, nat>, visited': set<Coordinates>, nodes': seq<(Coordinates, nat)>)
    requires WellShaped(hikingMap) && nodes != []
    requires Walking(hikingMap, ignoreSlopes, whole, before, connected, visited, nodes)
    ensures Walking(hikingMap, ignoreSlopes, whole, before, connected', visited', nodes')
    ensures |Box(hikingMap) - visited'| < |Box(hikingMap) - visited|
  {
    var position, distance := nodes[|nodes| - 1].0, nodes[|nodes| - 1].1;
    nodes' := nodes[..|nodes| - 1];
    assert nodes' == [] && connected == before;
    InBox(hikingMap, position);
    CoverGrows(Box(hikingMap), visited, position);
    visited' := visited + {position};
    var adjacent := Exits(hikingMap, ignoreSlopes, visited', position);
    connected' := connected;
    if |adjacent| == 1 {
      nodes' := nodes' + [(adjacent[0], distance + 1)];
      CorridorPushed(hikingMap, ignoreSlopes, whole, before, visited, position, distance);
    } else {
      var previous := if position in connected then connected[position] else 0;
      connected' := connected[position := Max(previous, distance) as nat];
      CorridorEnded(hikingMap, ignoreSlopes, whole, before, visited, position, distance);
    }
  }

  /** The walk goes on: the only unvisited neighbour is pushed. */
  lemma {:induction false} CorridorPushed(hikingMap: HikingMap, ignoreSlopes: bool, whole: (Coordinates, nat),
                                          before: map<Coordinates, nat>, visited: set<Coordinates>,
                                          position: Coordinates, distance: nat)
    requires WellShaped(hikingMap) && InBounds(hikingMap, position) && position !in visited
    requires Corridor(hikingMap, ignoreSlopes, visited, position, distance) == whole
    requires |Exits(hikingMap, ignoreSlopes, visited + {position}, position)| == 1
    ensures var next := Exits(hikingMap, ignoreSlopes, visited + {position}, position);
      Walking(hikingMap, ignoreSlopes, whole, before, before, visited + {position}, [(next[0], distance + 1)])
  {
    CorridorStep(hikingMap, ignoreSlopes, visited, position, distance);
  }

  /** The walk stops: the end is recorded. */
  lemma {:induction false} CorridorEnded(hikingMap: HikingMap, ignoreSlopes: bool, whole: (Coordinates, nat),
                                         before: map<Coordinates, nat>, visited: set<Coordinates>,
                                         position: Coordinates, distance: nat)
    requires WellShaped(hikingMap) && InBounds(hikingMap, position) && position !in visited
    requires Corridor(hikingMap, ignoreSlopes, visited, position, distance) == whole
    requires |Exits(hikingMap, ignoreSlopes, visited + {position}, position)| != 1
    ensures var previous := if position in before then before[position] else 0;
      Walking(hikingMap, ignoreSlopes, whole, before, before[position := Max(previous, distance) as nat],
              visited + {position}, [])
  {
    CorridorStep(hikingMap, ignoreSlopes, visited, position, distance);
  }

  /** A corridor ends on the map, off `visited`, no nearer than it began. */
  lemma {:induction false} CorridorEnd(hikingMap: HikingMap, ignoreSlopes: bool, visited: set<Coordinates>,
                                       position: Coordinates, distance: nat)
    requires WellShaped(hikingMap) && InBounds(hikingMap, position) && position !in visited
    ensures var c := Corridor(hikingMap, ignoreSlopes, visited, position, distance);
      InBounds(hikingMap, c.0) && c.0 !in visited && c.1 >= distance
    decreases |Box(hikingMap) - visited|
  {
    var visited' := visited + {position};
    var next := Exits(hikingMap, ignoreSlopes, visited', position);
    CorridorStep(hikingMap, ignoreSlopes, visited, position, distance);
    if |next| == 1 {
      InBox(hikingMap, position);
      CoverGrows(Box(hikingMap), visited, position);
      CorridorEnd(hikingMap, ignoreSlopes, visited', next[0], distance + 1);
    }
  }

  /** The gathered vertices lie on the map, differ from the vertex and are
      at least one step away. */
  lemma {:induction false} GatherEnds(hikingMap: HikingMap, ignoreSlopes: bool, vertex: Coordinates,
                                      starts: seq<Coordinates>)
    requires WellShaped(hikingMap) && Leaves(hikingMap, vertex, starts)
    ensures var connected := Gather(hikingMap, ignoreSlopes, vertex, starts);
      forall e :: e in connected ==> InBounds(hikingMap, e) && e != vertex && connected[e] >= 1
    decreases |starts|
  {
    if starts != [] {
      GatherEnds(hikingMap, ignoreSlopes, vertex, starts[..|starts| - 1]);
      CorridorEnd(hikingMap, ignoreSlopes, {vertex}, starts[|starts| - 1], 1);
    }
  }

  /** The vertices connected to a vertex lie on the map, differ from it and
      are at least one step away. */
  lemma {:induction false} ConnectedEnds(hikingMap: HikingMap, vertex: Coordinates, ignoreSlopes: bool)
    requires Hikeable(hikingMap)
    ensures var connected := ConnectedVertices(hikingMap, vertex, ignoreSlopes);
      forall e :: e in connected ==> InBounds(hikingMap, e) && e != vertex && connected[e] >= 1
  {
    if vertex != FinishingPoint(hikingMap) {
      GatherEnds(hikingMap, ignoreSlopes, vertex, AdjacentPositions(vertex, hikingMap, ignoreSlopes));
    }
  }

  // ---------------------------------------------------------------------
  // Paths in the compressed graph

  /** Each edges entry is what `get_connected_vertices` gives for its
      vertex. */
  ghost predicate Agrees(hikingMap: HikingMap, ignoreSlopes: bool, edges: Edges)
    requires Hikeable(hikingMap)
  {
    forall v {:trigger ConnectedVertices(hikingMap, v, ignoreSlopes)} ::
      v in edges ==> edges[v] == ConnectedVertices(hikingMap, v, ignoreSlopes)
  }

  /** Every vertex an edge leads to has an entry of its own. */
  ghost predicate Closed(edges: Edges)
  {
    forall v, w :: v in edges && w in edges[v] ==> w in edges
  }

  /** A sequence of vertices joined by edges. */
  ghost predicate GraphPath(edges: Edges, p: seq<Coordinates>)
  {
    |p| >= 1 && forall i :: 0 <= i < |p| - 1 ==> p[i] in edges && p[i + 1] in edges[p[i]]
  }

  /** The length of a path: the sum of its edges' lengths. */
  ghost function Weight(edges: Edges, p: seq<Coordinates>): nat
    requires GraphPath(edges, p)
    decreases |p|
  {
    if |p| == 1 then 0 else edges[p[0]][p[1]] + Weight(edges, p[1..])
  }

  /** A path from a to b that visits no vertex twice and none of `avoid`. */
  ghost predicate SimplePath(edges: Edges, avoid: seq<Coordinates>, a: Coordinates, b: Coordinates, p: seq<Coordinates>)
  {
    GraphPath(edges, p) && p[0] == a && p[|p| - 1] == b && NoRepeats(p) && forall q :: q in p ==> q !in avoid
  }

  /** A path after one more edge in front. */
  lemma {:induction false} PathPrepend(edges: Edges, a: Coordinates, p: seq<Coordinates>)
    requires GraphPath(edges, p) && a in edges && p[0] in edges[a]
    ensures GraphPath(edges, [a] + p)
    ensures Weight(edges, [a] + p) == edges[a][p[0]] + Weight(edges, p)
  {
    var t := [a] + p;
    forall i | 0 <= i < |t| - 1 ensures t[i] in edges && t[i + 1] in edges[t[i]] {
      if i > 0 {
        assert t[i] == p[i - 1] && t[i + 1] == p[i];
      }
    }
    assert t[1..] == p;
  }

  /** A path after its first vertex is dropped. */
  lemma {:induction false} PathTail(edges: Edges, p: seq<Coordinates>)
    requires GraphPath(edges, p) && |p| >= 2
    ensures GraphPath(edges, p[1..]) && p[0] in edges && p[1] in edges[p[0]]
    ensures Weight(edges, p) == edges[p[0]][p[1]] + Weight(edges, p[1..])
  {
    forall i | 0 <= i < |p| - 2 ensures p[1..][i] in edges && p[1..][i + 1] in edges[p[1..][i]] {
      assert p[1..][i] == p[i + 1] && p[1..][i + 1] == p[i + 2];
    }
  }

  /** The vertices of a sequence, as a set. */
  function Elems(s: seq<Coordinates>): set<Coordinates>
  {
    set q | q in s
  }

  /** A simple path leaving `current` through its first edge is that edge
      followed by a simple path that also avoids `current`. */
  lemma {:induction false} SimpleSplit(edges: Edges, avoid: seq<Coordinates>, current: Coordinates, b: Coordinates,
                                       p: seq<Coordinates>)
    requires SimplePath(edges, avoid, current, b, p) && |p| >= 2
    ensures p[1] in edges[current]
    ensures SimplePath(edges, avoid + [current], p[1], b, p[1..])
    ensures Weight(edges, p) == edges[current][p[1]] + Weight(edges, p[1..])
  {
    PathTail(edges, p);
    forall i, j | 0 <= i < j < |p[1..]| ensures p[1..][i] != p[1..][j] {
      assert p[1..][i] == p[i + 1] && p[1..][j] == p[j + 1];
    }
    forall q | q in p[1..] ensures q !in avoid + [current] {
      var k :| 0 <= k < |p[1..]| && p[1..][k] == q;
      assert p[k + 1] == q && p[0] == current;
    }
  }

  /** An edge from `current` followed by a simple path avoiding it is a
      simple path. */
  lemma {:induction false} SimpleJoin(edges: Edges, avoid: seq<Coordinates>, current: Coordinates, b: Coordinates,
                                      p: seq<Coordinates>)
    requires current in edges && current !in avoid
    requires |p| >= 1 && SimplePath(edges, avoid + [current], p[0], b, p) && p[0] in edges[current]
    ensures SimplePath(edges, avoid, current, b, [current] + p)
    ensures Weight(edges, [current] + p) == edges[current][p[0]] + Weight(edges, p)
  {
    PathPrepend(edges, current, p);
    var t := [current] + p;
    forall i, j | 0 <= i < j < |t| ensures t[i] != t[j] {
      assert t[j] == p[j - 1];
      if i > 0 {
        assert t[i] == p[i - 1];
      } else {
        assert p[j - 1] !in avoid + [current];
      }
    }
  }

  /** The search below `current` is done for the successors in `done`:
      every simple path through one of them has been measured, and any
      rise of the maximum is the length of such a path. */
  ghost predicate Searched(edges: Edges, path: seq<Coordinates>, current: Coordinates, finishingPoint: Coordinates,
                           pathLen: nat, maxBefore: nat, maxPathLen: nat, done: set<Coordinates>)
  {
    && maxPathLen >= maxBefore
    && (forall p :: SimplePath(edges, path, current, finishingPoint, p) && |p| >= 2 && p[1] in done ==>
          pathLen + Weight(edges, p) <= maxPathLen)
    && (maxPathLen == maxBefore || exists p ::
          && SimplePath(edges, path, current, finishingPoint, p)
          && pathLen + Weight(edges, p) == maxPathLen)
  }

  /** `check_all_paths`: depth-first search over the paths from `current`
      that avoid the vertices already on `path`; each one that reaches the
      finishing point raises `max_path_len` to its length. `path` is given
      back as it was. */
  method CheckAllPaths(current: Coordinates, finishingPoint: Coordinates, path: seq<Coordinates>, pathLen: nat,
                       edges: Edges, maxPathLen: nat) returns (path': seq<Coordinates>, maxPathLen': nat)
    requires Closed(edges) && current in edges
    ensures path' == path
    ensures maxPathLen' >= maxPathLen
    ensures forall p :: SimplePath(edges, path, current, finishingPoint, p) ==>
      pathLen + Weight(edges, p) <= maxPathLen'
    ensures maxPathLen' == maxPathLen || exists p ::
      && SimplePath(edges, path, current, finishingPoint, p)
      && pathLen + Weight(edges, p) == maxPathLen'
    decreases |edges.Keys - Elems(path)|
  {
    path', maxPathLen' := path, maxPathLen;
    if current in path {
      return;
    }
    path' := path + [current];
    if current == finishingPoint {
      maxPathLen' := Max(pathLen, maxPathLen') as nat;
      path' := path'[..|path'| - 1];
      forall p | SimplePath(edges, path, current, finishingPoint, p) ensures pathLen + Weight(edges, p) <= maxPathLen' {
        assert |p| == 1;
      }
      if maxPathLen' != maxPathLen {
        assert SimplePath(edges, path, current, finishingPoint, [current]);
      }
      return;
    }
    assert Elems(path') == Elems(path) + {current};
    CoverGrows(edges.Keys, Elems(path), current);
    var successors := edges[current];
    var remaining := successors.Keys;
    while remaining != {}
      invariant path' == path + [current] && remaining <= successors.Keys
      invariant Searched(edges, path, current, finishingPoint, pathLen, maxPathLen, maxPathLen', successors.Keys - remaining)
      decreases |remaining|
    {
      SomeElement(remaining);
      var next :| next in remaining;
      remaining := remaining - {next};
      ghost var maxBefore := maxPathLen';
      path', maxPathLen' := CheckAllPaths(next, finishingPoint, path', pathLen + successors[next], edges, maxPathLen');
      SearchedNext(edges, path, current, finishingPoint, pathLen, maxPathLen, maxBefore, maxPathLen',
                   successors.Keys - remaining - {next}, next);
    }
    path' := path'[..|path'| - 1];
    forall p | SimplePath(edges, path, current, finishingPoint, p) ensures pathLen + Weight(edges, p) <= maxPathLen' {
      if |p| > 1 {
        SimpleSplit(edges, path, current, finishingPoint, p);
      }
    }
  }

  /** The search through one more successor keeps `Searched`. */
  lemma {:induction false} SearchedNext(edges: Edges, path: seq<Coordinates>, current: Coordinates,
                                        finishingPoint: Coordinates, pathLen: nat, maxStart: nat, maxBefore: nat,
                                        maxAfter: nat, done: set<Coordinates>, next: Coordinates)
    requires current in edges && current !in path && next in edges[current]
    requires Searched(edges, path, current, finishingPoint, pathLen, maxStart, maxBefore, done)
    requires maxAfter >= maxBefore
    requires forall p :: SimplePath(edges, path + [current], next, finishingPoint, p) ==>
      pathLen + edges[current][next] + Weight(edges, p) <= maxAfter
    requires maxAfter == maxBefore || exists p ::
      && SimplePath(edges, path + [current], next, finishingPoint, p)
      && pathLen + edges[current][next] + Weight(edges, p) == maxAfter
    ensures Searched(edges, path, current, finishingPoint, pathLen, maxStart, maxAfter, done + {next})
  {
    forall p | SimplePath(edges, path, current, finishingPoint, p) && |p| >= 2 && p[1] in done + {next}
      ensures pathLen + Weight(edges, p) <= maxAfter
    {
      SimpleSplit(edges, path, current, finishingPoint, p);
    }
    if maxAfter != maxBefore {
      var p :| SimplePath(edges, path + [current], next, finishingPoint, p)
        && pathLen + edges[current][next] + Weight(edges, p) == maxAfter;
      SimpleJoin(edges, path, current, finishingPoint, p);
    }
  }

  // ---------------------------------------------------------------------
  // Building the graph

  /** Every neighbour of a vertex with an entry has an entry too or waits
      on the stack. */
  ghost predicate Covered(edges: Edges, vertices: seq<Coordinates>)
  {
    forall v, w :: v in edges && w in edges[v] ==> w in edges || w in vertices
  }

  /** A vertex on the stack that already has an entry has each of its
      neighbours with an entry or waiting above it. */
  ghost predicate StackCovered(edges: Edges, vertices: seq<Coordinates>)
  {
    forall i, w :: 0 <= i < |vertices| && vertices[i] in edges && w in edges[vertices[i]] ==>
      w in edges || w in vertices[i + 1..]
  }

  /** What `calculate_edges` keeps of the shape of its state: entries
      and the vertices on the stack lie on the map, the starting point has
      an entry or waits on the stack, and the neighbours of entries are
      covered. */
  ghost predicate Layout(hikingMap: HikingMap, start: Coordinates, edges: Edges, vertices: seq<Coordinates>)
    requires |hikingMap| > 0
  {
    && (forall v :: v in edges ==> InBounds(hikingMap, v))
    && (forall i :: 0 <= i < |vertices| ==> InBounds(hikingMap, vertices[i]))
    && (start in edges || start in vertices)
    && Covered(edges, vertices)
    && StackCovered(edges, vertices)
  }

  /** The pushed vertices are exactly the new neighbours of the popped
      one. */
  ghost predicate Pushes(connected: map<Coordinates, nat>, edges: Edges, pushed: seq<Coordinates>)
  {
    && (forall k :: 0 <= k < |pushed| ==> pushed[k] in connected && pushed[k] !in edges)
    && (forall w :: w in connected && w !in edges ==> w in pushed)
  }

  /** Popping `vertex`, pushing its new neighbours and writing its entry
      keeps `Covered`. */
  lemma {:induction false} CoveredKept(edges: Edges, vertices: seq<Coordinates>, connected: map<Coordinates, nat>,
                                       pushed: seq<Coordinates>)
    requires vertices != [] && Covered(edges, vertices) && Pushes(connected, edges, pushed)
    ensures Covered(edges[vertices[|vertices| - 1] := connected], vertices[..|vertices| - 1] + pushed)
  {
    var vertex := vertices[|vertices| - 1];
    var edges' := edges[vertex := connected];
    var rest := vertices[..|vertices| - 1];
    var vertices' := rest + pushed;
    forall v, w | v in edges' && w in edges'[v] ensures w in edges' || w in vertices' {
      if v == vertex {
        if w !in edges {
          var k :| 0 <= k < |pushed| && pushed[k] == w;
          assert vertices'[|rest| + k] == w;
        }
      } else if w !in edges && w != vertex {
        var j :| 0 <= j < |vertices| && vertices[j] == w;
        assert j < |rest| && vertices'[j] == w;
      }
    }
  }

  /** The same round keeps `StackCovered`, given that the pushed vertices
      differ from the popped one. */
  lemma {:induction false} StackCoveredKept(edges: Edges, vertices: seq<Coordinates>, connected: map<Coordinates, nat>,
                                            pushed: seq<Coordinates>)
    requires vertices != [] && StackCovered(edges, vertices) && Pushes(connected, edges, pushed)
    requires vertices[|vertices| - 1] !in connected
    ensures StackCovered(edges[vertices[|vertices| - 1] := connected], vertices[..|vertices| - 1] + pushed)
  {
    var vertex := vertices[|vertices| - 1];
    var edges' := edges[vertex := connected];
    var rest := vertices[..|vertices| - 1];
    var vertices' := rest + pushed;
    forall i, w | 0 <= i < |vertices'| && vertices'[i] in edges' && w in edges'[vertices'[i]]
      ensures w in edges' || w in vertices'[i + 1..]
    {
      assert i < |rest|;
      assert vertices'[i] == vertices[i];
      if vertices[i] == vertex {
        if w !in edges {
          var k :| 0 <= k < |pushed| && pushed[k] == w;
          assert vertices'[i + 1..][|rest| + k - i - 1] == w;
        }
      } else if w !in edges && w != vertex {
        assert w in vertices[i + 1..];
        var j :| 0 <= j < |vertices[i + 1..]| && vertices[i + 1..][j] == w;
        assert vertices[i + 1 + j] == w && i + 1 + j < |rest|;
        assert vertices'[i + 1..][j] == w;
      }
    }
  }

  /** A vertex popped a second time pushes nothing. */
  lemma {:induction false} RepeatPushesNothing(edges: Edges, vertices: seq<Coordinates>, pushed: seq<Coordinates>)
    requires vertices != [] && StackCovered(edges, vertices) && vertices[|vertices| - 1] in edges
    requires Pushes(edges[vertices[|vertices| - 1]], edges, pushed)
    ensures pushed == []
  {
    var vertex := vertices[|vertices| - 1];
    forall w | w in edges[vertex] ensures w in edges {
      assert vertices[|vertices| - 1 + 1..] == [];
    }
    FirstOf(pushed);
  }

  /** A sequence that is not empty holds its first element. */
  lemma FirstOf(s: seq<Coordinates>)
    ensures s != [] ==> s[0] in s
  {
  }

  /** One round of `calculate_edges` keeps `Layout`: the top vertex is
      popped, its neighbours without an entry are pushed, and its entry is
      written. */
  lemma {:induction false} LayoutKept(hikingMap: HikingMap, start: Coordinates, edges: Edges,
                                      vertices: seq<Coordinates>, connected: map<Coordinates, nat>,
                                      pushed: seq<Coordinates>)
    requires |hikingMap| > 0 && vertices != [] && Layout(hikingMap, start, edges, vertices)
    requires forall w :: w in connected ==> InBounds(hikingMap, w) && w != vertices[|vertices| - 1]
    requires Pushes(connected, edges, pushed)
    ensures Layout(hikingMap, start, edges[vertices[|vertices| - 1] := connected], vertices[..|vertices| - 1] + pushed)
  {
    var vertex := vertices[|vertices| - 1];
    var edges' := edges[vertex := connected];
    var rest := vertices[..|vertices| - 1];
    var vertices' := rest + pushed;
    forall i | 0 <= i < |vertices'| ensures InBounds(hikingMap, vertices'[i]) {
      if i < |rest| {
        assert vertices'[i] == vertices[i];
      } else {
        assert vertices'[i] == pushed[i - |rest|];
      }
    }
    assert start in edges' || start in vertices' by {
      if start !in edges && start != vertex {
        var j :| 0 <= j < |vertices| && vertices[j] == start;
        assert j < |rest| && vertices'[j] == start;
      }
    }
    CoveredKept(edges, vertices, connected, pushed);
    StackCoveredKept(edges, vertices, connected, pushed);
  }

  /** A round either adds an entry or, popping a vertex a second time,
      pushes nothing and shortens the stack. */
  lemma {:induction false} ExploreProgress(box: set<Coordinates>, edges: Edges, vertices: seq<Coordinates>,
                                           connected: map<Coordinates, nat>, pushed: seq<Coordinates>,
                                           edges': Edges, vertices': seq<Coordinates>)
    requires vertices != [] && vertices[|vertices| - 1] in box
    requires StackCovered(edges, vertices)
    requires vertices[|vertices| - 1] in edges ==> edges[vertices[|vertices| - 1]] == connected
    requires Pushes(connected, edges, pushed)
    requires edges' == edges[vertices[|vertices| - 1] := connected]
    requires vertices' == vertices[..|vertices| - 1] + pushed
    ensures |box - edges'.Keys| < |box - edges.Keys| || (edges'.Keys == edges.Keys && |vertices'| < |vertices|)
  {
    var vertex := vertices[|vertices| - 1];
    if vertex in edges {
      RepeatPushesNothing(edges, vertices, pushed);
      SameKeys(edges, vertex, connected, edges');
    } else {
      NewKey(box, edges, vertex, connected, edges');
    }
  }

  /** Rewriting an entry keeps the keys. */
  lemma {:induction false} SameKeys(edges: Edges, vertex: Coordinates, connected: map<Coordinates, nat>, edges': Edges)
    requires vertex in edges && edges' == edges[vertex := connected]
    ensures edges'.Keys == edges.Keys
  {
    assert edges'.Keys == edges.Keys + {vertex};
  }

  /** Writing a new entry for a vertex on the map leaves fewer vertices
      without one. */
  lemma {:induction false} NewKey(box: set<Coordinates>, edges: Edges, vertex: Coordinates,
                                  connected: map<Coordinates, nat>, edges': Edges)
    requires vertex in box && vertex !in edges && edges' == edges[vertex := connected]
    ensures |box - edges'.Keys| < |box - edges.Keys|
  {
    CoverGrows(box, edges.Keys, vertex);
    assert edges'.Keys == edges.Keys + {vertex};
  }

  /** Once the stack is empty, every neighbour has an entry. */
  lemma {:induction false} LayoutDone(hikingMap: HikingMap, start: Coordinates, edges: Edges)
    requires |hikingMap| > 0 && Layout(hikingMap, start, edges, [])
    ensures Closed(edges) && start in edges
  {
  }

  /** `calculate_edges`: explores the graph from the starting point with a
      stack, giving every vertex reached its `get_connected_vertices`
      entry. */
  method CalculateEdges(hikingMap: HikingMap, ignoreSlopes: bool) returns (edges: Edges)
    requires Hikeable(hikingMap) && HasStart(hikingMap)
    ensures Agrees(hikingMap, ignoreSlopes, edges) && Closed(edges) && StartingPoint(hikingMap) in edges
  {
    var start := StartingPoint(hikingMap);
    var vertices := [start];
    edges := map[];
    ghost var box := Box(hikingMap);
    while vertices != []
      invariant Agrees(hikingMap, ignoreSlopes, edges) && Layout(hikingMap, start, edges, vertices)
      decreases |box - edges.Keys|, |vertices|
    {
      edges, vertices := ExploreStep(hikingMap, ignoreSlopes, start, box, edges, vertices);
    }
    LayoutDone(hikingMap, start, edges);
  }

  /** One round of the loop in `calculate_edges`: pop a vertex, push its
      neighbours without an entry, write its entry. */
  method ExploreStep(hikingMap: HikingMap, ignoreSlopes: bool, start: Coordinates, ghost box: set<Coordinates>,
                     edges: Edges, vertices: seq<Coordinates>) returns (edges': Edges, vertices': seq<Coordinates>)
    requires Hikeable(hikingMap) && box == Box(hikingMap) && vertices != []
    requires Agrees(hikingMap, ignoreSlopes, edges) && Layout(hikingMap, start, edges, vertices)
    ensures Agrees(hikingMap, ignoreSlopes, edges') && Layout(hikingMap, start, edges', vertices')
    ensures |box - edges'.Keys| < |box - edges.Keys| || (edges'.Keys == edges.Keys && |vertices'| < |vertices|)
  {
    var vertex := vertices[|vertices| - 1];
    var connected := GetConnectedVertices(vertex, hikingMap, ignoreSlopes);
    ConnectedEnds(hikingMap, vertex, ignoreSlopes);
    var pushed := Extension(connected, edges);
    LayoutKept(hikingMap, start, edges, vertices, connected, pushed);
    InBox(hikingMap, vertex);
    vertices' := vertices[..|vertices| - 1] + pushed;
    edges' := edges[vertex := connected];
    ExploreProgress(box, edges, vertices, connected, pushed, edges', vertices');
  }

  /** The neighbours `vertices.extend` pushes: those without an entry yet,
      in the map's iteration order. */
  method Extension(connected: map<Coordinates, nat>, edges: Edges) returns (pushed: seq<Coordinates>)
    ensures Pushes(connected, edges, pushed)
  {
    pushed := [];
    var pending := connected.Keys;
    while pending != {}
      invariant pending <= connected.Keys
      invariant forall k :: 0 <= k < |pushed| ==> pushed[k] in connected && pushed[k] !in edges
      invariant forall w :: w in connected && w !in edges && w !in pending ==> w in pushed
      decreases |pending|
    {
      SomeElement(pending);
      var w :| w in pending;
      pending := pending - {w};
      if w !in edges {
        pushed := pushed + [w];
      }
    }
  }

  // ---------------------------------------------------------------------
  // Sorting the graph with slopes

  /** A ranking under which every edge of `graph` goes down and stays in
      `graph`, so that no walk comes back to where it was. */
  ghost predicate Ranked(graph: Edges, rank: map<Coordinates, nat>)
  {
    && graph.Keys <= rank.Keys
    && forall v, w :: v in graph && w in graph[v] ==> w in graph && rank[w] < rank[v]
  }

  /** The graph with slopes reachable from the starting point has no
      cycle: `topological_sort` recurses into every unvisited successor
      before it marks a vertex visited, and on a cycle it would not stop.
      The witness `graph` holds the `get_connected_vertices` entries of a
      closed set of vertices around the starting point. */
  ghost predicate SlopesAcyclic(hikingMap: HikingMap)
    requires Hikeable(hikingMap) && HasStart(hikingMap)
  {
    exists graph, rank :: Agrees(hikingMap, false, graph) && Ranked(graph, rank) && StartingPoint(hikingMap) in graph
  }

  /** `edges` holds some of the entries of `graph`. */
  ghost predicate SubGraph(edges: Edges, graph: Edges)
  {
    forall v :: v in edges ==> v in graph && edges[v] == graph[v]
  }

  /** Every vertex of `s` has an entry in `graph` and comes after all of
      its successors. */
  ghost predicate PostOrdered(graph: Edges, s: seq<Coordinates>)
  {
    forall i :: 0 <= i < |s| ==> s[i] in graph && forall w :: w in graph[s[i]] ==> w in s[..i]
  }

  /** From index `from` on, every vertex of `s` is a successor of `root` or
      of a vertex after it. */
  ghost predicate Rooted(graph: Edges, s: seq<Coordinates>, from: nat, root: Coordinates)
  {
    forall i :: from <= i < |s| ==>
      || (root in graph && s[i] in graph[root])
      || exists j :: i < j < |s| && s[j] in graph && s[i] in graph[s[j]]
  }

  /** Every visited vertex is sorted already or ranks at least `bound`. */
  ghost predicate Below(rank: map<Coordinates, nat>, sorted: seq<Coordinates>, visited: set<Coordinates>, bound: nat)
  {
    forall u :: u in visited ==> u in sorted || (u in rank && rank[u] >= bound)
  }

  /** The vertices of `added` are not in `visited` and rank below
      `bound`. */
  ghost predicate Fresh(rank: map<Coordinates, nat>, added: seq<Coordinates>, visited: set<Coordinates>, bound: nat)
  {
    forall i :: 0 <= i < |added| ==> added[i] !in visited && added[i] in rank && rank[added[i]] < bound
  }

  /** The vertices of two sequences one after the other. */
  lemma {:induction false} ElemsConcat(a: seq<Coordinates>, b: seq<Coordinates>)
    ensures Elems(a + b) == Elems(a) + Elems(b)
  {
    forall q | q in Elems(a + b) ensures q in Elems(a) + Elems(b) {
      var k :| 0 <= k < |a + b| && (a + b)[k] == q;
      if k < |a| {
        assert a[k] == q;
      } else {
        assert b[k - |a|] == q;
      }
    }
    forall q | q in Elems(a) + Elems(b) ensures q in Elems(a + b) {
      if q in a {
        var k :| 0 <= k < |a| && a[k] == q;
        assert (a + b)[k] == q;
      } else {
        var k :| 0 <= k < |b| && b[k] == q;
        assert (a + b)[|a| + k] == q;
      }
    }
  }

  /** What the loop of `topological_sort` keeps while it visits the
      successors of `current`: the vertices `added` to `s0` since the call
      began are new, rank below `current`, come after their successors and
      descend from `current`; they are exactly what has been added to
      `visited` and, with `current`, to `edges`. */
  ghost predicate Sorting(graph: Edges, rank: map<Coordinates, nat>, current: Coordinates,
                          s0: seq<Coordinates>, e0: Edges, v0: set<Coordinates>,
                          added: seq<Coordinates>, e: Edges, v: set<Coordinates>)
    requires current in rank
  {
    && SubGraph(e, graph) && e.Keys == e0.Keys + {current} + Elems(added)
    && v == v0 + Elems(added)
    && PostOrdered(graph, s0 + added) && NoRepeats(s0 + added) && current !in s0 + added
    && Rooted(graph, added, 0, current)
    && Fresh(rank, added, v0, rank[current])
  }

  /** `topological_sort`: a depth-first search through the graph with
      slopes that appends each vertex to `sorted` after all the vertices
      reachable from it, computing (or reusing) its `edges` entry on the
      way. `graph` and `rank` witness that the search ends; `added` is
      what the call appends. */
  method TopologicalSort(hikingMap: HikingMap, current: Coordinates, sorted: seq<Coordinates>, edges: Edges,
                         visited: set<Coordinates>, ghost graph: Edges, ghost rank: map<Coordinates, nat>)
    returns (sorted': seq<Coordinates>, edges': Edges, visited': set<Coordinates>, ghost added: seq<Coordinates>)
    requires Hikeable(hikingMap) && Agrees(hikingMap, false, graph) && Ranked(graph, rank) && current in graph
    requires SubGraph(edges, graph) && PostOrdered(graph, sorted) && NoRepeats(sorted)
    requires current !in sorted && Elems(sorted) <= visited && Below(rank, sorted, visited, rank[current])
    ensures sorted' == sorted + added && added != [] && added[|added| - 1] == current
    ensures SubGraph(edges', graph) && edges'.Keys == edges.Keys + Elems(added)
    ensures visited' == visited + Elems(added)
    ensures PostOrdered(graph, sorted') && NoRepeats(sorted')
    ensures Rooted(graph, added[..|added| - 1], 0, current)
    ensures Fresh(rank, added[..|added| - 1], visited, rank[current])
    decreases rank[current], 2
  {
    var computed := Successors(hikingMap, current, graph);
    edges' := if current in edges then edges else edges[current := computed];
    var connected := edges'[current];
    sorted', visited', added := sorted, visited, [];
    SortingStarts(graph, rank, current, sorted, edges, visited, edges');
    sorted', edges', visited', added :=
      SortSuccessors(hikingMap, current, connected, sorted', edges', visited', graph, rank, sorted, edges, visited, added);
    ConcatAssoc(sorted, added, [current]);
    ghost var added0, visited0 := added, visited';
    visited' := visited' + {current};
    sorted' := sorted' + [current];
    added := added + [current];
    SortingEnds(graph, rank, current, sorted, edges, visited, added0, edges', visited0, added, sorted', visited');
  }

  /** `get_connected_vertices` on a vertex of `graph`, which holds its
      entry already. */
  method Successors(hikingMap: HikingMap, current: Coordinates, ghost graph: Edges) returns (connected: map<Coordinates, nat>)
    requires Hikeable(hikingMap) && Agrees(hikingMap, false, graph) && current in graph
    ensures connected == graph[current]
  {
    connected := GetConnectedVertices(current, hikingMap, false);
  }

  /** The loop of `topological_sort`: sort every successor of `current`
      not visited yet. */
  method SortSuccessors(hikingMap: HikingMap, current: Coordinates, connected: map<Coordinates, nat>,
                        sorted: seq<Coordinates>, edges: Edges, visited: set<Coordinates>, ghost graph: Edges,
                        ghost rank: map<Coordinates, nat>, ghost s0: seq<Coordinates>, ghost e0: Edges,
                        ghost v0: set<Coordinates>, ghost added: seq<Coordinates>)
    returns (sorted': seq<Coordinates>, edges': Edges, visited': set<Coordinates>, ghost added': seq<Coordinates>)
    requires Hikeable(hikingMap) && Agrees(hikingMap, false, graph) && Ranked(graph, rank) && current in graph
    requires Elems(s0) <= v0 && Below(rank, s0, v0, rank[current]) && connected == graph[current]
    requires sorted == s0 + added && Sorting(graph, rank, current, s0, e0, v0, added, edges, visited)
    ensures sorted' == s0 + added' && Sorting(graph, rank, current, s0, e0, v0, added', edges', visited')
    ensures forall w :: w in connected ==> w in visited'
    decreases rank[current], 1
  {
    sorted', edges', visited', added' := sorted, edges, visited, added;
    var pending := connected.Keys;
    while pending != {}
      invariant sorted' == s0 + added'
      invariant Sorting(graph, rank, current, s0, e0, v0, added', edges', visited')
      invariant pending <= connected.Keys
      invariant forall w :: w in connected && w !in pending ==> w in visited'
      decreases |pending|
    {
      SomeElement(pending);
      var next :| next in pending;
      pending := pending - {next};
      sorted', edges', visited', added' :=
        SortSuccessor(hikingMap, current, next, sorted', edges', visited', graph, rank, s0, e0, v0, added');
    }
  }

  /** One round of the loop in `topological_sort`: sort `next` unless it
      is visited already. */
  method SortSuccessor(hikingMap: HikingMap, current: Coordinates, next: Coordinates, sorted: seq<Coordinates>,
                       edges: Edges, visited: set<Coordinates>, ghost graph: Edges, ghost rank: map<Coordinates, nat>,
                       ghost s0: seq<Coordinates>, ghost e0: Edges, ghost v0: set<Coordinates>,
                       ghost added: seq<Coordinates>)
    returns (sorted': seq<Coordinates>, edges': Edges, visited': set<Coordinates>, ghost added': seq<Coordinates>)
    requires Hikeable(hikingMap) && Agrees(hikingMap, false, graph) && Ranked(graph, rank) && current in graph
    requires Elems(s0) <= v0 && Below(rank, s0, v0, rank[current])
    requires sorted == s0 + added && Sorting(graph, rank, current, s0, e0, v0, added, edges, visited)
    requires next in graph[current]
    ensures sorted' == s0 + added' && Sorting(graph, rank, current, s0, e0, v0, added', edges', visited')
    ensures next in visited' && visited <= visited'
    decreases rank[current], 0
  {
    sorted', edges', visited', added' := sorted, edges, visited, added;
    if next !in visited {
      SortingBelow(graph, rank, current, s0, e0, v0, added, edges, visited, next);
      ghost var b;
      sorted', edges', visited', b := TopologicalSort(hikingMap, next, sorted, edges, visited, graph, rank);
      ConcatAssoc(s0, added, b);
      added' := added + b;
      SortingStep(graph, rank, current, s0, e0, v0, added, edges, visited, next, b, edges', visited');
    }
  }

  /** Appending is associative. */
  lemma ConcatAssoc(a: seq<Coordinates>, b: seq<Coordinates>, c: seq<Coordinates>)
    ensures a + b + c == a + (b + c)
  {
  }

  /** `Sorting` holds when the loop starts. */
  lemma {:induction false} SortingStarts(graph: Edges, rank: map<Coordinates, nat>, current: Coordinates,
                                         sorted: seq<Coordinates>, edges: Edges, visited: set<Coordinates>, edges': Edges)
    requires current in graph && graph.Keys <= rank.Keys
    requires SubGraph(edges, graph) && PostOrdered(graph, sorted) && NoRepeats(sorted) && current !in sorted
    requires edges' == if current in edges then edges else edges[current := graph[current]]
    ensures Sorting(graph, rank, current, sorted, edges, visited, [], edges', visited)
    ensures edges'[current] == graph[current]
  {
    assert sorted + [] == sorted;
    assert Elems([]) == {};
  }

  /** A successor not visited yet may be sorted next: it ranks below
      `current`, so below everything visited but not sorted. */
  lemma {:induction false} SortingBelow(graph: Edges, rank: map<Coordinates, nat>, current: Coordinates,
                                        s0: seq<Coordinates>, e0: Edges, v0: set<Coordinates>,
                                        added: seq<Coordinates>, e: Edges, v: set<Coordinates>, next: Coordinates)
    requires Ranked(graph, rank) && current in graph
    requires Elems(s0) <= v0 && Below(rank, s0, v0, rank[current])
    requires Sorting(graph, rank, current, s0, e0, v0, added, e, v)
    requires next in graph[current] && next !in v
    ensures next in graph && rank[next] < rank[current]
    ensures next !in s0 + added && Elems(s0 + added) <= v && Below(rank, s0 + added, v, rank[next])
  {
    ElemsConcat(s0, added);
    forall u | u in v ensures u in s0 + added || (u in rank && rank[u] >= rank[next]) {
      assert u in Elems(s0) + Elems(added) ==> u in Elems(s0 + added);
    }
  }

  /** Sorting one more successor keeps `Sorting`. */
  lemma {:induction false} SortingStep(graph: Edges, rank: map<Coordinates, nat>, current: Coordinates,
                                       s0: seq<Coordinates>, e0: Edges, v0: set<Coordinates>,
                                       a1: seq<Coordinates>, e1: Edges, v1: set<Coordinates>, next: Coordinates,
                                       b: seq<Coordinates>, e2: Edges, v2: set<Coordinates>)
    requires current in graph && current in rank
    requires Sorting(graph, rank, current, s0, e0, v0, a1, e1, v1)
    requires next in graph[current] && next !in v1
    requires next in rank && rank[next] < rank[current]
    requires b != [] && b[|b| - 1] == next
    requires SubGraph(e2, graph) && e2.Keys == e1.Keys + Elems(b)
    requires v2 == v1 + Elems(b)
    requires PostOrdered(graph, s0 + a1 + b) && NoRepeats(s0 + a1 + b)
    requires Rooted(graph, b[..|b| - 1], 0, next)
    requires Fresh(rank, b[..|b| - 1], v1, rank[next])
    ensures Sorting(graph, rank, current, s0, e0, v0, a1 + b, e2, v2)
  {
    ElemsConcat(a1, b);
    ConcatAssoc(s0, a1, b);
    RootedStep(graph, current, a1, next, b);
    FreshStep(rank, a1, v0, v1, next, b, rank[current]);
    CurrentNotAdded(rank, current, s0 + a1, v1, next, b);
  }

  /** The vertices a successor's call sorted rank below `current`, so
      `current` is not among them. */
  lemma {:induction false} CurrentNotAdded(rank: map<Coordinates, nat>, current: Coordinates, s: seq<Coordinates>,
                                           v1: set<Coordinates>, next: Coordinates, b: seq<Coordinates>)
    requires current in rank && current !in s
    requires next in rank && rank[next] < rank[current]
    requires b != [] && b[|b| - 1] == next && Fresh(rank, b[..|b| - 1], v1, rank[next])
    ensures current !in s + b
  {
    forall i | 0 <= i < |b| ensures b[i] != current {
      if i < |b| - 1 {
        assert b[..|b| - 1][i] == b[i];
      }
    }
    ElemsConcat(s, b);
  }

  /** The vertices sorted by a successor's call are fresh too. */
  lemma {:induction false} FreshStep(rank: map<Coordinates, nat>, a1: seq<Coordinates>, v0: set<Coordinates>,
                                     v1: set<Coordinates>, next: Coordinates, b: seq<Coordinates>, bound: nat)
    requires Fresh(rank, a1, v0, bound) && v0 <= v1
    requires next !in v1 && next in rank && rank[next] < bound
    requires b != [] && b[|b| - 1] == next && Fresh(rank, b[..|b| - 1], v1, rank[next])
    ensures Fresh(rank, a1 + b, v0, bound)
  {
    forall i | 0 <= i < |a1 + b| ensures (a1 + b)[i] !in v0 && (a1 + b)[i] in rank && rank[(a1 + b)[i]] < bound {
      if i < |a1| {
        assert (a1 + b)[i] == a1[i];
      } else if i < |a1 + b| - 1 {
        assert (a1 + b)[i] == b[..|b| - 1][i - |a1|];
      }
    }
  }

  /** The vertices sorted by a successor's call descend from `current`. */
  lemma {:induction false} RootedStep(graph: Edges, current: Coordinates, a1: seq<Coordinates>,
                                      next: Coordinates, b: seq<Coordinates>)
    requires current in graph && next in graph[current]
    requires Rooted(graph, a1, 0, current)
    requires b != [] && b[|b| - 1] == next
    requires Rooted(graph, b[..|b| - 1], 0, next)
    ensures Rooted(graph, a1 + b, 0, current)
  {
    var s := a1 + b;
    forall i | 0 <= i < |s|
      ensures || (current in graph && s[i] in graph[current])
              || exists j :: i < j < |s| && s[j] in graph && s[i] in graph[s[j]]
    {
      if i < |a1| {
        assert s[i] == a1[i];
        if a1[i] !in graph[current] {
          var j :| i < j < |a1| && a1[j] in graph && a1[i] in graph[a1[j]];
          assert s[j] == a1[j];
        }
      } else if i < |s| - 1 {
        var k := i - |a1|;
        assert s[i] == b[..|b| - 1][k];
        if !(next in graph && s[i] in graph[next]) {
          var j :| k < j < |b| - 1 && b[..|b| - 1][j] in graph && s[i] in graph[b[..|b| - 1][j]];
          assert s[|a1| + j] == b[j];
        } else {
          assert s[|s| - 1] == next;
        }
      }
    }
  }

  /** Once all successors of `current` are visited, appending it ends the
      call with what `TopologicalSort` promises. */
  lemma {:induction false} SortingEnds(graph: Edges, rank: map<Coordinates, nat>, current: Coordinates,
                                       s0: seq<Coordinates>, e0: Edges, v0: set<Coordinates>,
                                       added: seq<Coordinates>, e: Edges, v: set<Coordinates>,
                                       added': seq<Coordinates>, s': seq<Coordinates>, v': set<Coordinates>)
    requires Ranked(graph, rank) && current in graph
    requires Elems(s0) <= v0 && Below(rank, s0, v0, rank[current])
    requires Sorting(graph, rank, current, s0, e0, v0, added, e, v)
    requires forall w :: w in graph[current] ==> w in v
    requires added' == added + [current] && s' == s0 + added' && v' == v + {current}
    ensures SubGraph(e, graph) && e.Keys == e0.Keys + Elems(added')
    ensures v' == v0 + Elems(added')
    ensures PostOrdered(graph, s') && NoRepeats(s')
    ensures Rooted(graph, added'[..|added'| - 1], 0, current)
    ensures Fresh(rank, added'[..|added'| - 1], v0, rank[current])
  {
    var s := s0 + added;
    assert added'[..|added'| - 1] == added;
    ConcatAssoc(s0, added, [current]);
    ElemsSnoc(added, current);
    UnionRotate(e0.Keys, {current}, Elems(added));
    SuccessorsSorted(graph, rank, current, s0, v0, added, v);
    PostOrderedAppend(graph, s, current);
    NoRepeatsAppend(s, current);
  }

  /** Once the loop is over, every successor of `current` is sorted: it was
      visited, and it ranks too low to be visited and unsorted before the
      call. */
  lemma {:induction false} SuccessorsSorted(graph: Edges, rank: map<Coordinates, nat>, current: Coordinates,
                                            s0: seq<Coordinates>, v0: set<Coordinates>, added: seq<Coordinates>,
                                            v: set<Coordinates>)
    requires Ranked(graph, rank) && current in graph
    requires Below(rank, s0, v0, rank[current]) && v == v0 + Elems(added)
    requires forall w :: w in graph[current] ==> w in v
    ensures forall w :: w in graph[current] ==> w in s0 + added
  {
    ElemsConcat(s0, added);
    forall w | w in graph[current] ensures w in s0 + added {
      assert w in rank && rank[w] < rank[current];
      assert w in Elems(s0 + added);
    }
  }

  /** The vertices of a sequence after one more at the end. */
  lemma {:induction false} ElemsSnoc(s: seq<Coordinates>, v: Coordinates)
    ensures Elems(s + [v]) == Elems(s) + {v}
  {
    ElemsConcat(s, [v]);
    assert Elems([v]) == {v};
  }

  /** A new vertex at the end repeats nothing. */
  lemma {:induction false} NoRepeatsAppend(s: seq<Coordinates>, v: Coordinates)
    requires NoRepeats(s) && v !in s
    ensures NoRepeats(s + [v])
  {
    forall i, j | 0 <= i < j < |s + [v]| ensures (s + [v])[i] != (s + [v])[j] {
      assert (s + [v])[i] == s[i];
      if j < |s| {
        assert (s + [v])[j] == s[j];
      }
    }
  }

  /** A vertex whose successors are all in `s` may follow it. */
  lemma {:induction false} PostOrderedAppend(graph: Edges, s: seq<Coordinates>, v: Coordinates)
    requires PostOrdered(graph, s) && v in graph
    requires forall w :: w in graph[v] ==> w in s
    ensures PostOrdered(graph, s + [v])
  {
    var t := s + [v];
    forall i | 0 <= i < |t| ensures t[i] in graph && forall w :: w in graph[t[i]] ==> w in t[..i] {
      if i < |s| {
        assert t[i] == s[i] && t[..i] == s[..i];
      } else {
        assert t[..i] == s;
      }
    }
  }

  // ---------------------------------------------------------------------
  // Longest hike with slopes

  /** A distance looked up with `or_default`: zero when missing. */
  function OrDefault(dist: map<Coordinates, nat>, v: Coordinates): nat
  {
    if v in dist then dist[v] else 0
  }

  /** The successors in `done` relaxed through a vertex reached at
      distance `d`: each keeps the larger of the distance it had (zero if
      none) and `d` plus its edge. */
  function Relax(dist: map<Coordinates, nat>, succ: map<Coordinates, nat>, d: nat, done: set<Coordinates>)
    : (r: map<Coordinates, nat>)
    requires done <= succ.Keys
    ensures r.Keys == dist.Keys + done
  {
    map w | w in dist.Keys + done :: Relaxed(dist, succ, d, done, w)
  }

  /** The distance `Relax` gives one vertex. */
  function Relaxed(dist: map<Coordinates, nat>, succ: map<Coordinates, nat>, d: nat, done: set<Coordinates>,
                   w: Coordinates): nat
    requires done <= succ.Keys
  {
    if w in done && OrDefault(dist, w) < d + succ[w] then d + succ[w] else OrDefault(dist, w)
  }

  /** Relaxing never lowers a distance, leaves each relaxed successor at
      least `d` plus its edge, and gives each vertex either the distance
      it had or `d` plus its edge. */
  lemma {:induction false} RelaxBounds(dist: map<Coordinates, nat>, succ: map<Coordinates, nat>, d: nat,
                                       done: set<Coordinates>)
    requires done <= succ.Keys
    ensures var r := Relax(dist, succ, d, done);
      && (forall w :: w in dist ==> r[w] >= dist[w])
      && (forall w :: w in done ==> r[w] >= d + succ[w])
      && (forall w :: w in r ==> (w in dist && r[w] == dist[w]) || (w in done && r[w] == d + succ[w]))
  {
  }

  /** One round of the loop in `longest_path_with_slopes`: the vertex
      takes its distance (zero if it has none) and relaxes all its
      edges. */
  function Settle(edges: Edges, dist: map<Coordinates, nat>, v: Coordinates): (r: map<Coordinates, nat>)
    requires v in edges
    ensures r.Keys == dist.Keys + {v} + edges[v].Keys
  {
    var d := OrDefault(dist, v);
    Relax(dist[v := d], edges[v], d, edges[v].Keys)
  }

  /** Settling never lowers a distance, leaves each successor at least the
      vertex's distance plus its edge, and gives each vertex the distance
      it had, zero for the vertex itself when it had none, or the vertex's
      distance plus its edge. */
  lemma {:induction false} SettleBounds(edges: Edges, dist: map<Coordinates, nat>, v: Coordinates)
    requires v in edges
    ensures var r := Settle(edges, dist, v);
      && (forall w :: w in edges[v] ==> r[w] >= OrDefault(dist, v) + edges[v][w])
      && (forall w :: w in dist ==> r[w] >= dist[w])
      && (forall w :: w in r ==>
            || (w in dist && r[w] == dist[w])
            || (w == v && v !in dist && r[w] == 0)
            || (w in edges[v] && r[w] == OrDefault(dist, v) + edges[v][w]))
  {
    var d := OrDefault(dist, v);
    RelaxBounds(dist[v := d], edges[v], d, edges[v].Keys);
  }

  /** The distances once the vertices of `s` are settled from the last to
      the first, starting from the starting point at distance zero. */
  function Distances(edges: Edges, start: Coordinates, s: seq<Coordinates>): (r: map<Coordinates, nat>)
    requires forall k :: 0 <= k < |s| ==> s[k] in edges
    ensures r.Keys >= {start} + Elems(s)
    decreases |s|
  {
    if s == [] then map[start := 0] else Settle(edges, Distances(edges, start, s[1..]), s[0])
  }

  /** The inner loop of `longest_path_with_slopes`: relaxes every edge in
      `succ`, in the map's iteration order. */
  method RelaxEdges(dist: map<Coordinates, nat>, succ: map<Coordinates, nat>, d: nat) returns (dist': map<Coordinates, nat>)
    ensures dist' == Relax(dist, succ, d, succ.Keys)
  {
    dist' := dist;
    var done: set<Coordinates> := {};
    assert dist == Relax(dist, succ, d, {});
    while done != succ.Keys
      invariant done <= succ.Keys
      invariant dist' == Relax(dist, succ, d, done)
      decreases |succ.Keys - done|
    {
      done, dist' := RelaxOne(dist, succ, d, done, dist');
    }
  }

  /** The loop body of `RelaxEdges`: relaxes one more edge. */
  method RelaxOne(ghost dist: map<Coordinates, nat>, succ: map<Coordinates, nat>, d: nat,
                  done: set<Coordinates>, cur: map<Coordinates, nat>)
    returns (done': set<Coordinates>, next: map<Coordinates, nat>)
    requires done <= succ.Keys && done != succ.Keys
    requires cur == Relax(dist, succ, d, done)
    ensures done' <= succ.Keys && |succ.Keys - done'| < |succ.Keys - done|
    ensures next == Relax(dist, succ, d, done')
  {
    ProperSubset(done, succ.Keys);
    var w :| w in succ.Keys - done;
    next := cur[w := if OrDefault(cur, w) < d + succ[w] then d + succ[w] else OrDefault(cur, w)];
    DifferenceStep(succ.Keys, done, w);
    done' := done + {w};
    assert OrDefault(cur, w) == OrDefault(dist, w);
    RelaxExtend(dist, succ, d, done, w);
  }

  /** Relaxing one more successor changes only that successor's entry. */
  lemma {:induction false} RelaxExtend(dist: map<Coordinates, nat>, succ: map<Coordinates, nat>, d: nat,
                                       done: set<Coordinates>, w: Coordinates)
    requires done <= succ.Keys && w in succ && w !in done
    ensures Relax(dist, succ, d, done)[w := Relaxed(dist, succ, d, done + {w}, w)] == Relax(dist, succ, d, done + {w})
  {
    var cur := Relax(dist, succ, d, done);
    var next := cur[w := Relaxed(dist, succ, d, done + {w}, w)];
    var target := Relax(dist, succ, d, done + {w});
    assert next.Keys == target.Keys;
    forall v | v in next ensures next[v] == target[v] {
      if v != w {
        assert next[v] == cur[v] == Relaxed(dist, succ, d, done, v) == Relaxed(dist, succ, d, done + {w}, v);
      }
    }
  }

  /** A path from `a` to `b`. */
  ghost predicate Trail(edges: Edges, a: Coordinates, b: Coordinates, p: seq<Coordinates>)
  {
    GraphPath(edges, p) && p[0] == a && p[|p| - 1] == b
  }

  /** A path after one more edge at the end. */
  lemma {:induction false} PathAppend(edges: Edges, p: seq<Coordinates>, w: Coordinates)
    requires GraphPath(edges, p) && p[|p| - 1] in edges && w in edges[p[|p| - 1]]
    ensures GraphPath(edges, p + [w])
    ensures Weight(edges, p + [w]) == Weight(edges, p) + edges[p[|p| - 1]][w]
    decreases |p|
  {
    var t := p + [w];
    forall i | 0 <= i < |t| - 1 ensures t[i] in edges && t[i + 1] in edges[t[i]] {
      if i < |p| - 1 {
        assert t[i] == p[i] && t[i + 1] == p[i + 1];
      }
    }
    if |p| >= 2 {
      PathTail(edges, p);
      assert t[1..] == p[1..] + [w];
      PathAppend(edges, p[1..], w);
    }
  }

  /** Every distance is the length of some path from the starting point. */
  ghost predicate Sound(edges: Edges, start: Coordinates, dist: map<Coordinates, nat>)
  {
    forall v :: v in dist ==> exists p :: Trail(edges, start, v, p) && Weight(edges, p) == dist[v]
  }

  /** Every path from the starting point whose vertices before the last
      are in `done` ends at a vertex with a distance at least its length. */
  ghost predicate Complete(edges: Edges, start: Coordinates, done: set<Coordinates>, dist: map<Coordinates, nat>)
  {
    forall p :: GraphPath(edges, p) && p[0] == start && Within(p, done) ==>
      p[|p| - 1] in dist && Weight(edges, p) <= dist[p[|p| - 1]]
  }

  /** The vertices of `p` before its last are all in `done`. */
  ghost predicate Within(p: seq<Coordinates>, done: set<Coordinates>)
  {
    forall m :: 0 <= m < |p| - 1 ==> p[m] in done
  }

  /** Settling a vertex that has a distance keeps every distance a path
      length. */
  lemma {:induction false} SettleSound(edges: Edges, start: Coordinates, dist: map<Coordinates, nat>, v: Coordinates)
    requires Sound(edges, start, dist) && v in edges && v in dist
    ensures Sound(edges, start, Settle(edges, dist, v))
  {
    var r := Settle(edges, dist, v);
    SettleBounds(edges, dist, v);
    forall w | w in r ensures exists p :: Trail(edges, start, w, p) && Weight(edges, p) == r[w] {
      if !(w in dist && r[w] == dist[w]) {
        assert w in edges[v] && r[w] == dist[v] + edges[v][w];
        var p :| Trail(edges, start, v, p) && Weight(edges, p) == dist[v];
        PathAppend(edges, p, w);
        assert Trail(edges, start, w, p + [w]);
      }
    }
  }

  /** Settling a vertex none of whose successors is settled or itself
      extends `Complete` to the paths through it. */
  lemma {:induction false} SettleComplete(edges: Edges, start: Coordinates, done: set<Coordinates>,
                                          dist: map<Coordinates, nat>, v: Coordinates)
    requires Complete(edges, start, done, dist) && start in dist
    requires v in edges && v !in done && forall w :: w in edges[v] ==> w !in done && w != v
    ensures Complete(edges, start, done + {v}, Settle(edges, dist, v))
  {
    var r := Settle(edges, dist, v);
    SettleBounds(edges, dist, v);
    forall p | GraphPath(edges, p) && p[0] == start && Within(p, done + {v})
      ensures p[|p| - 1] in r && Weight(edges, p) <= r[p[|p| - 1]]
    {
      VisitsOnce(edges, done, v, p);
      if |p| >= 2 && p[|p| - 2] == v {
        SettleThrough(edges, start, done, dist, v, p);
      } else {
        assert Within(p, done);
      }
    }
  }

  /** On a path whose inner vertices are settled or `v`, and none of whose
      settled vertices follows `v`, only the vertex before the last can be
      `v`. */
  lemma {:induction false} VisitsOnce(edges: Edges, done: set<Coordinates>, v: Coordinates, p: seq<Coordinates>)
    requires v in edges && forall w :: w in edges[v] ==> w !in done && w != v
    requires GraphPath(edges, p) && Within(p, done + {v})
    ensures forall m :: 0 <= m < |p| - 2 ==> p[m] in done
  {
    forall m | 0 <= m < |p| - 2 ensures p[m] in done {
      assert p[m + 1] in edges[p[m]] && p[m + 1] in done + {v};
    }
  }

  /** A path whose vertex before the last is the vertex being settled. */
  lemma {:induction false} SettleThrough(edges: Edges, start: Coordinates, done: set<Coordinates>,
                                         dist: map<Coordinates, nat>, v: Coordinates, p: seq<Coordinates>)
    requires Complete(edges, start, done, dist) && v in edges
    requires GraphPath(edges, p) && p[0] == start && |p| >= 2 && p[|p| - 2] == v
    requires forall m :: 0 <= m < |p| - 2 ==> p[m] in done
    ensures var r := Settle(edges, dist, v); p[|p| - 1] in r && Weight(edges, p) <= r[p[|p| - 1]]
  {
    SettleBounds(edges, dist, v);
    var last := p[|p| - 1];
    var q := p[..|p| - 1];
    assert q + [last] == p;
    PathAppend(edges, q, last);
    forall m | 0 <= m < |q| - 1 ensures q[m] in done {
      assert q[m] == p[m];
    }
    assert GraphPath(edges, q) && q[0] == start && Within(q, done);
    assert Weight(edges, p) == Weight(edges, q) + edges[v][last];
  }

  /** Every successor of a settled vertex has a distance. */
  ghost predicate Reached(edges: Edges, s: seq<Coordinates>, dist: map<Coordinates, nat>)
    requires forall k :: 0 <= k < |s| ==> s[k] in edges
  {
    forall k, w :: 0 <= k < |s| && w in edges[s[k]] ==> w in dist
  }

  /** A settling order: every vertex is in the graph, appears once,
      comes before its successors, and is the starting point or comes
      after one of its predecessors. */
  ghost predicate SettleOrder(edges: Edges, start: Coordinates, s: seq<Coordinates>)
  {
    && (forall k :: 0 <= k < |s| ==> s[k] in edges)
    && NoRepeats(s)
    && (forall k, w :: 0 <= k < |s| && s[k] in edges && w in edges[s[k]] ==> w !in s[k..])
    && (forall k :: 0 <= k < |s| ==> s[k] == start || exists j :: k < j < |s| && s[k] in edges[s[j]])
  }

  /** The vertices after the first of a settling order are one too. */
  lemma {:induction false} SettleOrderTail(edges: Edges, start: Coordinates, s: seq<Coordinates>)
    requires SettleOrder(edges, start, s) && s != []
    ensures SettleOrder(edges, start, s[1..])
  {
    var rest := s[1..];
    forall k, w | 0 <= k < |rest| && rest[k] in edges && w in edges[rest[k]] ensures w !in rest[k..] {
      assert rest[k] == s[k + 1] && rest[k..] == s[k + 1..];
    }
    forall k | 0 <= k < |rest| ensures rest[k] == start || exists j :: k < j < |rest| && rest[k] in edges[rest[j]] {
      assert rest[k] == s[k + 1];
      if s[k + 1] != start {
        var j :| k + 1 < j < |s| && s[k + 1] in edges[s[j]];
        assert rest[j - 1] == s[j];
      }
    }
    forall i, j | 0 <= i < j < |rest| ensures rest[i] != rest[j] {
      assert rest[i] == s[i + 1] && rest[j] == s[j + 1];
    }
  }

  /** The first vertex of a settling order is the starting point or a
      successor of a later vertex. */
  lemma {:induction false} SettleOrderReached(edges: Edges, start: Coordinates, s: seq<Coordinates>)
    requires SettleOrder(edges, start, s) && s != []
    ensures s[0] == start || exists k :: 0 <= k < |s[1..]| && s[0] in edges[s[1..][k]]
  {
    if s[0] != start {
      var j :| 0 < j < |s| && s[0] in edges[s[j]];
      assert s[1..][j - 1] == s[j];
    }
  }

  /** Neither the first vertex of a settling order nor any of its
      successors appears later. */
  lemma {:induction false} SettleOrderFresh(edges: Edges, start: Coordinates, s: seq<Coordinates>)
    requires SettleOrder(edges, start, s) && s != []
    ensures s[0] !in Elems(s[1..])
    ensures forall w :: w in edges[s[0]] ==> w !in Elems(s[1..]) && w != s[0]
  {
    var rest := s[1..];
    forall k | 0 <= k < |rest| ensures rest[k] != s[0] {
      assert rest[k] == s[k + 1];
    }
    forall w | w in edges[s[0]] ensures w !in Elems(rest) && w != s[0] {
      assert w !in s[0..];
      assert s[0..] == s;
      forall k | 0 <= k < |rest| ensures rest[k] != w {
        assert rest[k] == s[k + 1];
      }
    }
  }

  /** The elements of a nonempty sequence are its first and the rest. */
  lemma {:induction false} ElemsCons(s: seq<Coordinates>)
    requires s != []
    ensures Elems(s) == Elems(s[1..]) + {s[0]}
  {
    assert s == [s[0]] + s[1..];
    ElemsConcat([s[0]], s[1..]);
    assert Elems([s[0]]) == {s[0]};
  }

  /** Settled from the last to the first, in a settling order, the
      distances are exactly the longest path lengths. */
  lemma {:induction false} DistancesMeaning(edges: Edges, start: Coordinates, s: seq<Coordinates>)
    requires SettleOrder(edges, start, s)
    ensures var dist := Distances(edges, start, s);
      && Sound(edges, start, dist) && Complete(edges, start, Elems(s), dist) && Reached(edges, s, dist)
    decreases |s|
  {
    var dist := Distances(edges, start, s);
    if s == [] {
      forall v | v in dist ensures exists p :: Trail(edges, start, v, p) && Weight(edges, p) == dist[v] {
        assert Trail(edges, start, v, [start]);
      }
      forall p | GraphPath(edges, p) && p[0] == start && Within(p, Elems(s))
        ensures p[|p| - 1] in dist && Weight(edges, p) <= dist[p[|p| - 1]]
      {
        assert |p| == 1;
      }
    } else {
      var rest := s[1..];
      var v := s[0];
      SettleOrderTail(edges, start, s);
      SettleOrderReached(edges, start, s);
      SettleOrderFresh(edges, start, s);
      ElemsCons(s);
      DistancesMeaning(edges, start, rest);
      var before := Distances(edges, start, rest);
      assert v in before by {
        if v != start {
          var k :| 0 <= k < |rest| && v in edges[rest[k]];
        }
      }
      SettleSound(edges, start, before, v);
      SettleComplete(edges, start, Elems(rest), before, v);
      forall k, w | 0 <= k < |s| && w in edges[s[k]] ensures w in dist {
        if k > 0 {
          assert s[k] == rest[k - 1];
        }
      }
    }
  }

  /** The order `topological_sort` leaves, read backwards, is a settling
      order of the entries it computed. */
  lemma {:induction false} SortedSettleOrder(graph: Edges, start: Coordinates, sorted: seq<Coordinates>, edges: Edges)
    requires SubGraph(edges, graph) && edges.Keys == Elems(sorted)
    requires PostOrdered(graph, sorted) && NoRepeats(sorted)
    requires sorted != [] && sorted[|sorted| - 1] == start && Rooted(graph, sorted[..|sorted| - 1], 0, start)
    ensures SettleOrder(edges, start, sorted)
  {
    forall k | 0 <= k < |sorted| ensures sorted[k] in edges {
      assert sorted[k] in Elems(sorted);
    }
    SortedForward(graph, sorted, edges);
    SortedRooted(graph, start, sorted, edges);
  }

  /** No successor of a sorted vertex comes at or after it. */
  lemma {:induction false} SortedForward(graph: Edges, sorted: seq<Coordinates>, edges: Edges)
    requires SubGraph(edges, graph) && PostOrdered(graph, sorted) && NoRepeats(sorted)
    ensures forall k, w :: 0 <= k < |sorted| && sorted[k] in edges && w in edges[sorted[k]] ==> w !in sorted[k..]
  {
    forall k, w | 0 <= k < |sorted| && sorted[k] in edges && w in edges[sorted[k]] ensures w !in sorted[k..] {
      assert w in sorted[..k];
      var m :| 0 <= m < k && sorted[m] == w;
      forall j | k <= j < |sorted| ensures sorted[j] != w {
        assert sorted[m] != sorted[j];
      }
    }
  }

  /** Every vertex `topological_sort` appended but the last is a successor
      of a vertex appended after it. */
  lemma {:induction false} SortedRooted(graph: Edges, start: Coordinates, sorted: seq<Coordinates>, edges: Edges)
    requires SubGraph(edges, graph) && edges.Keys == Elems(sorted)
    requires sorted != [] && sorted[|sorted| - 1] == start && Rooted(graph, sorted[..|sorted| - 1], 0, start)
    ensures forall k :: 0 <= k < |sorted| ==>
      sorted[k] == start || exists j :: k < j < |sorted| && sorted[k] in edges[sorted[j]]
  {
    var n := |sorted| - 1;
    var front := sorted[..n];
    forall k | 0 <= k < n ensures exists j :: k < j < |sorted| && sorted[k] in edges[sorted[j]] {
      assert front[k] == sorted[k];
      if start in graph && sorted[k] in graph[start] {
        assert sorted[n] in Elems(sorted);
        assert sorted[k] in edges[sorted[n]];
      } else {
        var j :| k < j < n && front[j] in graph && front[k] in graph[front[j]];
        assert front[j] == sorted[j] && sorted[j] in Elems(sorted);
        assert sorted[k] in edges[sorted[j]];
      }
    }
  }

  /** The entries `topological_sort` computed agree with
      `get_connected_vertices` and lead nowhere outside themselves. */
  lemma {:induction false} SortedEdges(hikingMap: HikingMap, graph: Edges, sorted: seq<Coordinates>, edges: Edges)
    requires Hikeable(hikingMap) && Agrees(hikingMap, false, graph)
    requires SubGraph(edges, graph) && edges.Keys == Elems(sorted) && PostOrdered(graph, sorted)
    ensures Agrees(hikingMap, false, edges) && Closed(edges)
  {
    forall v | v in edges ensures edges[v] == ConnectedVertices(hikingMap, v, false) {
      assert edges[v] == graph[v] == ConnectedVertices(hikingMap, v, false);
    }
    forall v, w | v in edges && w in edges[v] ensures w in edges {
      var k :| 0 <= k < |sorted| && sorted[k] == v;
      assert w in sorted[..k];
      var m :| 0 <= m < k && sorted[m] == w;
      assert sorted[m] in Elems(sorted);
    }
  }

  /** Every path starts with a path whose inner vertices have entries. */
  lemma {:induction false} PathWithin(edges: Edges, p: seq<Coordinates>)
    requires GraphPath(edges, p)
    ensures Within(p, edges.Keys)
  {
  }

  /** `longest_path_with_slopes`: sorts the graph with slopes from the
      starting point, settles the vertices from the starting point onwards
      and looks up the finishing point, which the source unwraps (`None`
      stands for that panic). The result is the length of the longest path
      from the starting point to the finishing point over the entries
      `edges` it computed. */
  method LongestPathWithSlopes(hikingMap: HikingMap) returns (r: Option<nat>, ghost edges: Edges)
    requires Hikeable(hikingMap) && HasStart(hikingMap) && SlopesAcyclic(hikingMap)
    ensures Agrees(hikingMap, false, edges) && Closed(edges) && StartingPoint(hikingMap) in edges
    ensures r.Some? ==> exists p ::
      && Trail(edges, StartingPoint(hikingMap), FinishingPoint(hikingMap), p)
      && Weight(edges, p) == r.value
    ensures r.Some? ==> forall p :: Trail(edges, StartingPoint(hikingMap), FinishingPoint(hikingMap), p) ==>
      Weight(edges, p) <= r.value
    ensures r.None? <==> forall p :: !Trail(edges, StartingPoint(hikingMap), FinishingPoint(hikingMap), p)
  {
    var start := StartingPoint(hikingMap);
    var finish := FinishingPoint(hikingMap);
    ghost var graph: Edges, rank: map<Coordinates, nat> :|
      Agrees(hikingMap, false, graph) && Ranked(graph, rank) && start in graph;
    var sorted, edges', visited, added := TopologicalSort(hikingMap, start, [], map[], {start}, graph, rank);
    assert sorted == added;
    SortedSettleOrder(graph, start, sorted, edges');
    SortedEdges(hikingMap, graph, sorted, edges');
    edges := edges';
    var dist := SettleAll(edges', start, sorted);
    DistancesMeaning(edges', start, sorted);
    r := if finish in dist then Some(dist[finish]) else None;
    LongestMeaning(edges', start, finish, sorted, dist, r);
  }

  /** The loop of `longest_path_with_slopes`: settles the vertices of
      `sorted` from the last to the first. */
  method SettleAll(edges: Edges, start: Coordinates, sorted: seq<Coordinates>) returns (dist: map<Coordinates, nat>)
    requires forall k :: 0 <= k < |sorted| ==> sorted[k] in edges
    ensures dist == Distances(edges, start, sorted)
  {
    dist := map[start := 0];
    var i := |sorted|;
    while i > 0
      invariant 0 <= i <= |sorted|
      invariant dist == Distances(edges, start, sorted[i..])
    {
      i := i - 1;
      var vertex := sorted[i];
      var distance := OrDefault(dist, vertex);
      dist := dist[vertex := distance];
      dist := RelaxEdges(dist, edges[vertex], distance);
      assert sorted[i..][1..] == sorted[i + 1..];
    }
  }

  /** What the distances say about the finishing point. */
  lemma {:induction false} LongestMeaning(edges: Edges, start: Coordinates, finish: Coordinates, sorted: seq<Coordinates>,
                                          dist: map<Coordinates, nat>, r: Option<nat>)
    requires edges.Keys == Elems(sorted)
    requires Sound(edges, start, dist) && Complete(edges, start, Elems(sorted), dist)
    requires r == if finish in dist then Some(dist[finish]) else None
    ensures r.Some? ==> exists p :: Trail(edges, start, finish, p) && Weight(edges, p) == r.value
    ensures r.Some? ==> forall p :: Trail(edges, start, finish, p) ==> Weight(edges, p) <= r.value
    ensures r.None? <==> forall p :: !Trail(edges, start, finish, p)
  {
    forall p | Trail(edges, start, finish, p) ensures finish in dist && Weight(edges, p) <= dist[finish] {
      PathWithin(edges, p);
    }
  }

  /** `longest_path_without_slopes`: the longest simple path from the
      starting point to the finishing point over the entries
      `calculate_edges` computes when slopes are ignored, found by
      `check_all_paths` from an empty path; zero when there is none. */
  method LongestPathWithoutSlopes(hikingMap: HikingMap) returns (r: nat, ghost edges: Edges)
    requires Hikeable(hikingMap) && HasStart(hikingMap)
    ensures Agrees(hikingMap, true, edges) && Closed(edges) && StartingPoint(hikingMap) in edges
    ensures forall p :: SimplePath(edges, [], StartingPoint(hikingMap), FinishingPoint(hikingMap), p) ==>
      Weight(edges, p) <= r
    ensures r == 0 || exists p ::
      && SimplePath(edges, [], StartingPoint(hikingMap), FinishingPoint(hikingMap), p)
      && Weight(edges, p) == r
  {
    var start := StartingPoint(hikingMap);
    var finish := FinishingPoint(hikingMap);
    var edges' := CalculateEdges(hikingMap, true);
    edges := edges';
    var path;
    path, r := CheckAllPaths(start, finish, [], 0, edges', 0);
  }
}
