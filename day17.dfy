/** Day 17, "Clumsy Crucible": the least heat loss of a crucible that moves
    from the top-left to the bottom-right block of a city map, travelling in
    straight legs of bounded length and turning 90 degrees between legs.

    The search is Dijkstra-style over leg-start states (cell, direction): each
    popped state walks straight for up to `maxRun` cells, adding each cell's
    heat loss, and once the leg has covered `minRun` cells it pushes the two
    turn states. The heap is drained completely; the result is the least cost
    seen at the goal, or 0 when the goal is never reached. */
module Day17 {
  import opened Common

  // ---------------------------------------------------------------------
  // Directions and their vector algebra
  // ---------------------------------------------------------------------

  /** Declaration order matters: the derived `Ord` ranks Up < Left < Down < Right. */
  datatype Direction = Up | Left | Down | Right

  type Coordinates = (int, int)

  function Index(d: Direction): nat
  {
    match d
    case Up => 0
    case Left => 1
    case Down => 2
    case Right => 3
  }

  /** `From<Direction> for Coordinates`: the unit vector, y growing downwards. */
  function Vector(d: Direction): (v: Coordinates)
    ensures FromVector(v) == Some(d)
    ensures Abs(v.0) + Abs(v.1) == 1
  {
    match d
    case Left => (-1, 0)
    case Right => (1, 0)
    case Up => (0, -1)
    case Down => (0, 1)
  }

  /** `TryFrom<Coordinates> for Direction`: only the four unit vectors convert. */
  function FromVector(v: Coordinates): (r: Option<Direction>)
    ensures r.Some? <==> v == (-1, 0) || v == (1, 0) || v == (0, -1) || v == (0, 1)
  {
    match v
    case (-1, 0) => Some(Left)
    case (1, 0) => Some(Right)
    case (0, -1) => Some(Up)
    case (0, 1) => Some(Down)
    case _ => None
  }

  /** Converting back a vector that did convert gives the vector again. */
  lemma {:induction false} FromVectorInverse(v: Coordinates)
    requires FromVector(v).Some?
    ensures Vector(FromVector(v).value) == v
  {
  }

  function Add(c: Coordinates, d: Direction): Coordinates
  {
    (c.0 + Vector(d).0, c.1 + Vector(d).1)
  }

  function Dot(a: Coordinates, b: Coordinates): int
  {
    a.0 * b.0 + a.1 * b.1
  }

  /** `turn_right`: the unit vector with its components swapped. */
  function TurnRight(d: Direction): (r: Direction)
    ensures Dot(Vector(r), Vector(d)) == 0
  {
    var v := Vector(d);
    FromVector((v.1, v.0)).value
  }

  /** `turn_left`: the unit vector with its components swapped and negated. */
  function TurnLeft(d: Direction): (r: Direction)
    ensures Dot(Vector(r), Vector(d)) == 0
  {
    var v := Vector(d);
    FromVector((-v.1, -v.0)).value
  }

  /** Each turn is its own inverse, and the two turns point in opposite directions. */
  lemma {:induction false} TurnAlgebra(d: Direction)
    ensures TurnRight(TurnRight(d)) == d && TurnLeft(TurnLeft(d)) == d
    ensures Vector(TurnLeft(d)) == (-Vector(TurnRight(d)).0, -Vector(TurnRight(d)).1)
    ensures TurnLeft(d) != d && TurnRight(d) != d && TurnLeft(d) != TurnRight(d)
  {
  }

  // ---------------------------------------------------------------------
  // Heap order of search states
  // ---------------------------------------------------------------------

  datatype State = State(coordinates: Coordinates, direction: Direction, heatLoss: nat)

  /** `State::cmp`: heat loss reversed, then x + y, then direction reversed,
      then x, then y. A max-heap under this order pops the least heat loss first. */
  function CompareStates(a: State, b: State): Ordering
  {
    Cmp(b.heatLoss, a.heatLoss)
      .Then(Cmp(a.coordinates.0 + a.coordinates.1, b.coordinates.0 + b.coordinates.1))
      .Then(Cmp(Index(b.direction), Index(a.direction)))
      .Then(Cmp(a.coordinates.0, b.coordinates.0))
      .Then(Cmp(a.coordinates.1, b.coordinates.1))
  }

  predicate AtMost(a: State, b: State)
  {
    CompareStates(a, b) != Greater
  }

  /** The order is total and antisymmetric: only equal states compare Equal,
      and swapping the operands reverses the result. */
  lemma {:induction false} CompareStatesIsTotal(a: State, b: State)
    ensures CompareStates(a, b) == Equal <==> a == b
    ensures CompareStates(b, a) == CompareStates(a, b).Reverse()
  {
    if CompareStates(a, b) == Equal {
      assert Index(a.direction) == Index(b.direction);
    }
  }

  lemma {:induction false} CompareStatesIsTransitive(a: State, b: State, c: State)
    requires AtMost(a, b) && AtMost(b, c)
    ensures AtMost(a, c)
  {
  }

  /** A cheaper state is greater, so the max-heap pops it first. */
  lemma {:induction false} CheaperPopsFirst(a: State, b: State)
    requires a.heatLoss < b.heatLoss
    ensures CompareStates(a, b) == Greater
  {
  }

  /** `BinaryHeap::pop` picks a greatest element; here found by a scan. */
  method GreatestIndex(nodes: seq<State>) returns (m: nat)
    requires nodes != []
    ensures m < |nodes|
    ensures forall j :: 0 <= j < |nodes| ==> AtMost(nodes[j], nodes[m])
  {
    m := 0;
    var i := 1;
    while i < |nodes|
      invariant 1 <= i <= |nodes| && m < i
      invariant forall j :: 0 <= j < i ==> AtMost(nodes[j], nodes[m])
    {
      if !AtMost(nodes[i], nodes[m]) {
        CompareStatesIsTotal(nodes[i], nodes[m]);
        forall j | 0 <= j < i
          ensures AtMost(nodes[j], nodes[i])
        {
          CompareStatesIsTransitive(nodes[j], nodes[m], nodes[i]);
        }
        m := i;
      }
      i := i + 1;
    }
  }

  // ---------------------------------------------------------------------
  // The city map
  // ---------------------------------------------------------------------

  type Grid = seq<seq<nat>>

  /** The parsed map has a first row (its width is read from row 0) and is rectangular. */
  predicate IsGrid(g: Grid)
  {
    |g| >= 1 && forall y :: 0 <= y < |g| ==> |g[y]| == |g[0]|
  }

  function Width(g: Grid): nat requires IsGrid(g) { |g[0]| }
  function Height(g: Grid): nat requires IsGrid(g) { |g| }

  predicate InBounds(g: Grid, p: Coordinates)
    requires IsGrid(g)
  {
    0 <= p.0 < Width(g) && 0 <= p.1 < Height(g)
  }

  function Goal(g: Grid): Coordinates
    requires IsGrid(g)
  {
    (Width(g) - 1, Height(g) - 1)
  }

  /** Heat loss of a block; blocks off the map are never entered and cost nothing here. */
  function CellLoss(g: Grid, p: Coordinates): nat
    requires IsGrid(g)
  {
    if InBounds(g, p) then g[p.1][p.0] else 0
  }

  // ---------------------------------------------------------------------
  // Legs, moves and routes: the specification of the search
  // ---------------------------------------------------------------------

  /** The cell reached after advancing k cells from p. */
  function Advance(p: Coordinates, d: Direction, k: nat): Coordinates
  {
    match d
    case Left => (p.0 - k, p.1)
    case Right => (p.0 + k, p.1)
    case Up => (p.0, p.1 - k)
    case Down => (p.0, p.1 + k)
  }

  /** Cells 0..i of the leg starting at p lie on the map. */
  predicate LegInBounds(g: Grid, p: Coordinates, d: Direction, i: nat)
    requires IsGrid(g)
  {
    forall k :: 0 <= k <= i ==> InBounds(g, Advance(p, d, k))
  }

  /** The walk of a leg reaches its step i: cells 0..i lie on the map and the
      leg did not stop at the goal before step i. */
  predicate LegReaches(g: Grid, p: Coordinates, d: Direction, i: nat)
    requires IsGrid(g)
  {
    LegInBounds(g, p, d, i) && forall k :: 0 <= k < i ==> Advance(p, d, k) != Goal(g)
  }

  /** Heat lost over cells 0..i of a leg. */
  function LegLoss(g: Grid, p: Coordinates, d: Direction, i: nat): nat
    requires IsGrid(g)
  {
    if i == 0 then CellLoss(g, p)
    else LegLoss(g, p, d, i - 1) + CellLoss(g, Advance(p, d, i))
  }

  /** A leg may end at step i (0-based) once it has covered `minRun` cells. */
  predicate RunOk(minRun: nat, i: nat)
  {
    i + 1 >= minRun
  }

  type Key = (Coordinates, Direction)

  /** A move ends the current leg after `run + 1` cells and turns. */
  datatype Move = Move(run: nat, left: bool)

  function Turn(d: Direction, left: bool): Direction
  {
    if left then TurnLeft(d) else TurnRight(d)
  }

  /** The leg-start state that a move leads to. */
  function Apply(k: Key, m: Move): Key
  {
    var turned := Turn(k.1, m.left);
    (Add(Advance(k.0, k.1, m.run), turned), turned)
  }

  predicate ValidMove(g: Grid, minRun: nat, maxRun: nat, k: Key, m: Move)
    requires IsGrid(g)
  {
    m.run < maxRun && RunOk(minRun, m.run) && LegReaches(g, k.0, k.1, m.run)
    && Advance(k.0, k.1, m.run) != Goal(g)
  }

  /** The last leg of a route stops on the goal after a permitted run. */
  predicate ValidFinish(g: Grid, minRun: nat, maxRun: nat, k: Key, run: nat)
    requires IsGrid(g)
  {
    run < maxRun && RunOk(minRun, run) && LegReaches(g, k.0, k.1, run)
    && Advance(k.0, k.1, run) == Goal(g)
  }

  /** The two seeds: one cell right of the start moving right, one cell below
      moving down, both at cost 0, so the start cell is never charged. */
  function Seeds(): set<Key>
  {
    {((1, 0), Right), ((0, 1), Down)}
  }

  function End(k: Key, moves: seq<Move>): Key
  {
    if moves == [] then k else Apply(End(k, moves[..|moves| - 1]), moves[|moves| - 1])
  }

  predicate ValidMoves(g: Grid, minRun: nat, maxRun: nat, k: Key, moves: seq<Move>)
    requires IsGrid(g)
  {
    moves == [] ||
    (ValidMoves(g, minRun, maxRun, k, moves[..|moves| - 1])
     && ValidMove(g, minRun, maxRun, End(k, moves[..|moves| - 1]), moves[|moves| - 1]))
  }

  function MovesLoss(g: Grid, minRun: nat, maxRun: nat, k: Key, moves: seq<Move>): nat
    requires IsGrid(g) && ValidMoves(g, minRun, maxRun, k, moves)
  {
    if moves == [] then 0
    else
      var e := End(k, moves[..|moves| - 1]);
      MovesLoss(g, minRun, maxRun, k, moves[..|moves| - 1])
      + LegLoss(g, e.0, e.1, moves[|moves| - 1].run)
  }

  /** A complete route: a seed, a sequence of legs ending in turns, and a last leg onto the goal. */
  predicate IsRoute(g: Grid, minRun: nat, maxRun: nat, seed: Key, moves: seq<Move>, run: nat)
    requires IsGrid(g)
  {
    seed in Seeds() && ValidMoves(g, minRun, maxRun, seed, moves)
    && ValidFinish(g, minRun, maxRun, End(seed, moves), run)
  }

  function RouteLoss(g: Grid, minRun: nat, maxRun: nat, seed: Key, moves: seq<Move>, run: nat): nat
    requires IsGrid(g) && IsRoute(g, minRun, maxRun, seed, moves, run)
  {
    var e := End(seed, moves);
    MovesLoss(g, minRun, maxRun, seed, moves) + LegLoss(g, e.0, e.1, run)
  }

  // ---------------------------------------------------------------------
  // Search bookkeeping
  // ---------------------------------------------------------------------

  function KeyOf(s: State): Key { (s.coordinates, s.direction) }

  /** Every leg-start state the search can push: one cell around the map at most. */
  function KeySpace(g: Grid): set<Key>
    requires IsGrid(g)
  {
    Ring(g, Up) + Ring(g, Left) + Ring(g, Down) + Ring(g, Right)
  }

  function Ring(g: Grid, d: Direction): set<Key>
    requires IsGrid(g)
  {
    set x: int, y: int | -1 <= x <= Width(g) + 1 && -1 <= y <= Height(g) + 1 :: ((x, y), d)
  }

  /** The key lies on the map or just outside it (the seeds lie off a one-cell-wide map). */
  predicate NearMap(g: Grid, k: Key)
    requires IsGrid(g)
  {
    -1 <= k.0.0 <= Width(g) + 1 && -1 <= k.0.1 <= Height(g) + 1
  }

  lemma {:induction false} InKeySpace(g: Grid, k: Key)
    requires IsGrid(g) && NearMap(g, k)
    ensures k in KeySpace(g)
  {
    assert k == ((k.0.0, k.0.1), k.1);
    assert k in Ring(g, k.1);
    match k.1
    case Up =>
    case Left =>
    case Down =>
    case Right =>
  }

  lemma {:induction false} KeysInSpace(g: Grid, visited: map<Key, nat>)
    requires IsGrid(g) && forall t :: t in visited ==> NearMap(g, t)
    ensures visited.Keys <= KeySpace(g)
  {
    forall t | t in visited ensures t in KeySpace(g) {
      InKeySpace(g, t);
    }
  }

  /** A queued state is backed by an actual walk from a seed with that cost. */
  predicate Witnessed(g: Grid, minRun: nat, maxRun: nat, s: State, w: (Key, seq<Move>))
    requires IsGrid(g)
  {
    w.0 in Seeds() && ValidMoves(g, minRun, maxRun, w.0, w.1)
    && End(w.0, w.1) == KeyOf(s) && MovesLoss(g, minRun, maxRun, w.0, w.1) == s.heatLoss
  }

  /** The best route found so far, if any, is an actual route with that cost. */
  predicate BestWitnessed(g: Grid, minRun: nat, maxRun: nat, best: Option<nat>, w: (Key, seq<Move>, nat))
    requires IsGrid(g)
  {
    best.Some? ==> IsRoute(g, minRun, maxRun, w.0, w.1, w.2)
                   && RouteLoss(g, minRun, maxRun, w.0, w.1, w.2) == best.value
  }

  /** The bookkeeping step on a pop: the entry for a key is created on first
      sight and only ever lowered; the state is expanded only when strictly
      cheaper than the record. */
  function Record(visited: map<Key, nat>, k: Key, c: nat): (r: (map<Key, nat>, bool))
    ensures r.1 <==> k !in visited || c < visited[k]
    ensures r.1 ==> r.0 == visited[k := c]
    ensures !r.1 ==> r.0 == visited
    ensures forall k' :: k' in visited ==> k' in r.0 && r.0[k'] <= visited[k']
  {
    var previous := if k in visited then visited[k] else c + 1;
    if previous > c then (visited[k := c], true) else (visited, false)
  }

  /** The total of the recorded costs, used only to show termination. */
  ghost function Total(m: map<Key, nat>): nat
    decreases |m|
  {
    if m == map[] then 0
    else
      var k :| k in m;
      m[k] + Total(m - {k})
  }

  lemma {:induction false} TotalPick(m: map<Key, nat>, k: Key)
    requires k in m
    ensures Total(m) == m[k] + Total(m - {k})
    decreases |m|
  {
    var j :| j in m && Total(m) == m[j] + Total(m - {j});
    if j != k {
      assert k in m - {j};
      TotalPick(m - {j}, k);
      assert j in m - {k};
      TotalPick(m - {k}, j);
      assert (m - {j}) - {k} == (m - {k}) - {j};
    }
  }

  lemma {:induction false} TotalLowered(m: map<Key, nat>, k: Key, c: nat)
    requires k in m && c < m[k]
    ensures Total(m[k := c]) < Total(m)
  {
    TotalPick(m, k);
    TotalPick(m[k := c], k);
    assert m[k := c] - {k} == m - {k};
  }

  // ---------------------------------------------------------------------
  // Walking one leg (the `for step in 0..max_consecutive` loop)
  // ---------------------------------------------------------------------

  lemma {:induction false} AdvanceNearMap(g: Grid, p: Coordinates, d: Direction, i: nat, turned: Direction)
    requires IsGrid(g) && InBounds(g, Advance(p, d, i))
    ensures NearMap(g, (Add(Advance(p, d, i), turned), turned))
  {
  }

  lemma {:induction false} LegReachesNext(g: Grid, p: Coordinates, d: Direction, i: nat)
    requires IsGrid(g) && LegReaches(g, p, d, i) && Advance(p, d, i) != Goal(g)
    requires InBounds(g, Advance(p, d, i + 1))
    ensures LegReaches(g, p, d, i + 1)
  {
  }

  lemma {:induction false} LegStops(g: Grid, p: Coordinates, d: Direction, i: nat, j: nat)
    requires IsGrid(g) && i <= j
    requires !InBounds(g, Advance(p, d, i)) || (i < j && Advance(p, d, i) == Goal(g))
    ensures !LegReaches(g, p, d, j)
  {
  }

  /** No finish ends before a step the walk has passed. */
  lemma {:induction false} NoEarlyFinish(g: Grid, minRun: nat, maxRun: nat, k: Key, step: nat)
    requires IsGrid(g)
    requires step > 0 ==> LegReaches(g, k.0, k.1, step - 1) && Advance(k.0, k.1, step - 1) != Goal(g)
    ensures forall run: nat :: ValidFinish(g, minRun, maxRun, k, run) ==> run >= step
  {
  }

  /** The walk stops at step `step` when it leaves the map or stands on the
      goal: no move runs that far, and the only finish is at that step. */
  lemma {:induction false} LegEnds(g: Grid, minRun: nat, maxRun: nat, k: Key, step: nat)
    requires IsGrid(g)
    requires step > 0 ==> LegReaches(g, k.0, k.1, step - 1) && Advance(k.0, k.1, step - 1) != Goal(g)
    requires !InBounds(g, Advance(k.0, k.1, step)) || Advance(k.0, k.1, step) == Goal(g)
    ensures forall m: Move :: ValidMove(g, minRun, maxRun, k, m) ==> m.run < step
    ensures forall run: nat :: ValidFinish(g, minRun, maxRun, k, run) ==> run == step
  {
    NoEarlyFinish(g, minRun, maxRun, k, step);
    forall j: nat | j > step
      ensures !LegReaches(g, k.0, k.1, j)
    {
      LegStops(g, k.0, k.1, step, j);
    }
  }

  /** The state queued by a move from the leg start k recorded at cost c. */
  function Next(g: Grid, k: Key, c: nat, m: Move): State
    requires IsGrid(g)
  {
    State(Apply(k, m).0, Apply(k, m).1, c + LegLoss(g, k.0, k.1, m.run))
  }

  /** A turn taken from a witnessed state is witnessed by that walk plus the move. */
  lemma {:induction false} TurnWitnessed(g: Grid, minRun: nat, maxRun: nat, k: Key, c: nat, wk: (Key, seq<Move>), mv: Move)
    requires IsGrid(g) && Witnessed(g, minRun, maxRun, State(k.0, k.1, c), wk)
    requires ValidMove(g, minRun, maxRun, k, mv)
    ensures Witnessed(g, minRun, maxRun, Next(g, k, c, mv), (wk.0, wk.1 + [mv]))
  {
    assert (wk.1 + [mv])[..|wk.1|] == wk.1;
  }

  /** The states queued by a leg walk are witnessed by the walk to its start
      extended by their move, and lie within one cell of the map. */
  lemma {:induction false} PushedWitnessed(g: Grid, minRun: nat, maxRun: nat, k: Key, c: nat, wk: (Key, seq<Move>),
                        nodes: seq<State>, ws: seq<(Key, seq<Move>)>, pushed: seq<Move>,
                        nodes': seq<State>, ws': seq<(Key, seq<Move>)>)
    requires IsGrid(g) && Witnessed(g, minRun, maxRun, State(k.0, k.1, c), wk)
    requires |ws| == |nodes| && forall j :: 0 <= j < |nodes| ==> Witnessed(g, minRun, maxRun, nodes[j], ws[j])
    requires |nodes'| == |nodes| + |pushed| && nodes'[..|nodes|] == nodes
    requires forall j :: 0 <= j < |pushed| ==>
               ValidMove(g, minRun, maxRun, k, pushed[j]) && nodes'[|nodes| + j] == Next(g, k, c, pushed[j])
    requires ws' == ws + seq(|pushed|, j requires 0 <= j < |pushed| => (wk.0, wk.1 + [pushed[j]]))
    ensures |ws'| == |nodes'| && forall j :: 0 <= j < |nodes'| ==> Witnessed(g, minRun, maxRun, nodes'[j], ws'[j])
    ensures forall j :: |nodes| <= j < |nodes'| ==> NearMap(g, KeyOf(nodes'[j]))
  {
    forall j | 0 <= j < |nodes'|
      ensures Witnessed(g, minRun, maxRun, nodes'[j], ws'[j])
    {
      if j < |nodes| {
        assert nodes'[j] == nodes[j];
      } else {
        TurnWitnessed(g, minRun, maxRun, k, c, wk, pushed[j - |nodes|]);
      }
    }
    forall j | |nodes| <= j < |nodes'|
      ensures NearMap(g, KeyOf(nodes'[j]))
    {
      MoveNearMap(g, minRun, maxRun, k, c, pushed[j - |nodes|]);
    }
  }

  /** A finish found from a witnessed state is a route of that cost. */
  lemma {:induction false} FinishWitnessed(g: Grid, minRun: nat, maxRun: nat, k: Key, c: nat, wk: (Key, seq<Move>), run: nat)
    requires IsGrid(g) && Witnessed(g, minRun, maxRun, State(k.0, k.1, c), wk)
    requires ValidFinish(g, minRun, maxRun, k, run)
    ensures BestWitnessed(g, minRun, maxRun, Some(c + LegLoss(g, k.0, k.1, run)), (wk.0, wk.1, run))
  {
  }

  /** Queued turns stay within one cell of the map. */
  lemma {:induction false} MoveNearMap(g: Grid, minRun: nat, maxRun: nat, k: Key, c: nat, mv: Move)
    requires IsGrid(g) && ValidMove(g, minRun, maxRun, k, mv)
    ensures NearMap(g, KeyOf(Next(g, k, c, mv)))
  {
    assert InBounds(g, Advance(k.0, k.1, mv.run));
  }

  /** Both turns at the end of run i of the leg from k are queued. */
  ghost predicate TurnsQueued(g: Grid, k: Key, c: nat, i: nat, nodes: seq<State>)
    requires IsGrid(g)
  {
    Next(g, k, c, Move(i, true)) in nodes && Next(g, k, c, Move(i, false)) in nodes
  }

  lemma {:induction false} QueuedAll(g: Grid, minRun: nat, maxRun: nat, k: Key, c: nat, bound: nat, nodes: seq<State>)
    requires IsGrid(g)
    requires forall i :: 0 <= i < bound && RunOk(minRun, i) ==> TurnsQueued(g, k, c, i, nodes)
    requires forall m: Move :: ValidMove(g, minRun, maxRun, k, m) ==> m.run < bound
    ensures forall m: Move :: ValidMove(g, minRun, maxRun, k, m) ==> Next(g, k, c, m) in nodes
  {
    forall m | ValidMove(g, minRun, maxRun, k, m)
      ensures Next(g, k, c, m) in nodes
    {
      assert TurnsQueued(g, k, c, m.run, nodes);
      assert m == Move(m.run, m.left);
    }
  }

  lemma {:induction false} AdvanceStep(p: Coordinates, d: Direction, i: nat)
    ensures Advance(p, d, i + 1) == Add(Advance(p, d, i), d)
  {
  }

  /** The states queued so far by a leg walk that has passed `step` cells:
      exactly the turns of `pushed`, after the untouched queue `nodes`, and
      both turns of every permitted run shorter than `step`. */
  ghost predicate LegQueue(g: Grid, minRun: nat, maxRun: nat, k: Key, c: nat, step: nat,
                           nodes: seq<State>, queued: seq<State>, pushed: seq<Move>)
    requires IsGrid(g)
  {
    |queued| == |nodes| + |pushed| && queued[..|nodes|] == nodes
    && (forall j :: 0 <= j < |pushed| ==>
          ValidMove(g, minRun, maxRun, k, pushed[j]) && queued[|nodes| + j] == Next(g, k, c, pushed[j]))
    && (forall i :: 0 <= i < step && RunOk(minRun, i) ==> TurnsQueued(g, k, c, i, queued))
  }

  /** Queueing both turns at step `step` keeps the leg walk's queue. */
  lemma {:induction false} QueueKeeps(g: Grid, minRun: nat, maxRun: nat, k: Key, c: nat, step: nat,
                   nodes: seq<State>, queued: seq<State>, pushed: seq<Move>)
    requires IsGrid(g) && step < maxRun && RunOk(minRun, step)
    requires LegReaches(g, k.0, k.1, step) && Advance(k.0, k.1, step) != Goal(g)
    requires LegQueue(g, minRun, maxRun, k, c, step, nodes, queued, pushed)
    ensures LegQueue(g, minRun, maxRun, k, c, step + 1, nodes,
                     queued + [Next(g, k, c, Move(step, true)), Next(g, k, c, Move(step, false))],
                     pushed + [Move(step, true), Move(step, false)])
  {
    var queued' := queued + [Next(g, k, c, Move(step, true)), Next(g, k, c, Move(step, false))];
    assert queued'[..|queued|] == queued;
    assert forall x :: x in queued ==> x in queued';
  }

  /** Passing a cell where no turn is permitted keeps the leg walk's queue. */
  lemma {:induction false} NoQueueKeeps(g: Grid, minRun: nat, maxRun: nat, k: Key, c: nat, step: nat,
                     nodes: seq<State>, queued: seq<State>, pushed: seq<Move>)
    requires IsGrid(g) && !RunOk(minRun, step)
    requires LegQueue(g, minRun, maxRun, k, c, step, nodes, queued, pushed)
    ensures LegQueue(g, minRun, maxRun, k, c, step + 1, nodes, queued, pushed)
  {
  }

  /** What walking the leg from k at cost c achieves: exactly the turns of
      `pushed` are appended to the queue, every permitted turn is among them,
      and the best cost falls to the cost of any permitted finish, changing
      only to the cost of the finish `finish`. */
  ghost predicate LegWalked(g: Grid, minRun: nat, maxRun: nat, k: Key, c: nat, nodes: seq<State>, nodes': seq<State>,
                            pushed: seq<Move>, best: Option<nat>, best': Option<nat>, finish: nat)
    requires IsGrid(g)
  {
    && |nodes'| == |nodes| + |pushed| && nodes'[..|nodes|] == nodes
    && (forall j :: 0 <= j < |pushed| ==>
          ValidMove(g, minRun, maxRun, k, pushed[j]) && nodes'[|nodes| + j] == Next(g, k, c, pushed[j]))
    && (forall m: Move :: ValidMove(g, minRun, maxRun, k, m) ==> Next(g, k, c, m) in nodes')
    && (best' == best || (ValidFinish(g, minRun, maxRun, k, finish) && best' == Some(c + LegLoss(g, k.0, k.1, finish))))
    && (best.Some? ==> best'.Some? && best'.value <= best.value)
    && (forall run: nat :: ValidFinish(g, minRun, maxRun, k, run) ==>
          best'.Some? && best'.value <= c + LegLoss(g, k.0, k.1, run))
  }

  /** The walk of the leg from k, recorded at cost c, stands at step `step`
      on cell p having lost `loss` so far. */
  ghost predicate Walked(g: Grid, k: Key, c: nat, step: nat, p: Coordinates, loss: nat)
    requires IsGrid(g)
  {
    p == Advance(k.0, k.1, step)
    && (step > 0 ==> LegReaches(g, k.0, k.1, step - 1) && Advance(k.0, k.1, step - 1) != Goal(g)
                     && loss == c + LegLoss(g, k.0, k.1, step - 1))
    && (step == 0 ==> loss == c)
  }

  /** Entering an on-map cell: the walk reaches it and has lost its leg's heat. */
  lemma {:induction false} CellReached(g: Grid, k: Key, c: nat, step: nat, p: Coordinates, loss: nat)
    requires IsGrid(g) && Walked(g, k, c, step, p, loss) && InBounds(g, p)
    ensures LegReaches(g, k.0, k.1, step)
    ensures loss + CellLoss(g, p) == c + LegLoss(g, k.0, k.1, step)
  {
    if step > 0 {
      LegReachesNext(g, k.0, k.1, step - 1);
    }
  }

  /** Moving on from an on-map cell that is not the goal. */
  lemma {:induction false} WalkOn(g: Grid, k: Key, c: nat, step: nat, p: Coordinates, loss: nat)
    requires IsGrid(g) && Walked(g, k, c, step, p, loss) && InBounds(g, p) && p != Goal(g)
    ensures Walked(g, k, c, step + 1, Add(p, k.1), loss + CellLoss(g, p))
  {
    CellReached(g, k, c, step, p, loss);
    AdvanceStep(k.0, k.1, step);
  }

  /** Walking one leg (the `for step in 0..max_consecutive` loop) from a state
      just recorded at cost c: every permitted turn is queued with its cost,
      and stopping on the goal after a permitted run lowers the best cost.
      `pushed` lists the moves of the newly queued states, in order. */
  method WalkLeg(g: Grid, minRun: nat, maxRun: nat, k: Key, c: nat, nodes: seq<State>, best: Option<nat>)
    returns (nodes': seq<State>, ghost pushed: seq<Move>, best': Option<nat>, ghost finish: nat)
    requires IsGrid(g)
    ensures LegWalked(g, minRun, maxRun, k, c, nodes, nodes', pushed, best, best', finish)
  {
    nodes', pushed, best', finish := nodes, [], best, 0;
    var p := k.0;
    var loss: nat := c;
    var step: nat := 0;
    ghost var stopped := false;
    while step < maxRun
      invariant step <= maxRun && Walked(g, k, c, step, p, loss)
      invariant LegQueue(g, minRun, maxRun, k, c, step, nodes, nodes', pushed)
      invariant best' == best && !stopped
    {
      if !InBounds(g, p) {
        LegEnds(g, minRun, maxRun, k, step);
        stopped := true;
        break;
      }
      ghost var before: nat := loss;
      loss := loss + CellLoss(g, p);
      CellReached(g, k, c, step, p, before);

      if p == Goal(g) {
        if RunOk(minRun, step) && (best'.None? || best'.value > loss) {
          best' := Some(loss);
          finish := step;
        }
        LegEnds(g, minRun, maxRun, k, step);
        stopped := true;
        break;
      }

      if RunOk(minRun, step) {
        var left := Move(step, true);
        var right := Move(step, false);
        var sl := State(Apply(k, left).0, Apply(k, left).1, loss);
        var sr := State(Apply(k, right).0, Apply(k, right).1, loss);
        assert sl == Next(g, k, c, left) && sr == Next(g, k, c, right);
        QueueKeeps(g, minRun, maxRun, k, c, step, nodes, nodes', pushed);
        nodes' := nodes' + [sl, sr];
        pushed := pushed + [left, right];
      } else {
        NoQueueKeeps(g, minRun, maxRun, k, c, step, nodes, nodes', pushed);
      }
      WalkOn(g, k, c, step, p, before);
      p := Add(p, k.1);
      step := step + 1;
    }
    if !stopped {
      NoEarlyFinish(g, minRun, maxRun, k, step);
    }
    QueuedAll(g, minRun, maxRun, k, c, step, nodes');
  }

  // ---------------------------------------------------------------------
  // The search
  // ---------------------------------------------------------------------

  /** A key is covered at cost c when its record is at most c or a state for it
      at most that cost is still queued. */
  ghost predicate Covered(visited: map<Key, nat>, nodes: seq<State>, t: Key, c: nat)
  {
    (t in visited && visited[t] <= c) || exists s :: s in nodes && KeyOf(s) == t && s.heatLoss <= c
  }

  /** Every recorded state has had all of its turns queued at its recorded
      cost, and its reachable finishes counted in the best cost. */
  ghost predicate Closed(g: Grid, minRun: nat, maxRun: nat, visited: map<Key, nat>, nodes: seq<State>, best: Option<nat>)
    requires IsGrid(g)
  {
    forall k :: k in visited ==> KeyClosed(g, minRun, maxRun, visited, nodes, best, k, visited[k])
  }

  /** The turns of the leg from k are covered at cost c plus their leg, and
      its finishes are counted in the best cost. */
  ghost predicate KeyClosed(g: Grid, minRun: nat, maxRun: nat, visited: map<Key, nat>, nodes: seq<State>,
                            best: Option<nat>, k: Key, c: nat)
    requires IsGrid(g)
  {
    (forall m: Move :: ValidMove(g, minRun, maxRun, k, m) ==>
       Covered(visited, nodes, Apply(k, m), c + LegLoss(g, k.0, k.1, m.run)))
    && (forall run: nat :: ValidFinish(g, minRun, maxRun, k, run) ==>
          best.Some? && best.value <= c + LegLoss(g, k.0, k.1, run))
  }

  /** Once the queue is empty, every walk from a seed ends at a recorded state
      whose record is at most the walk's cost. */
  lemma {:induction false} RecordsBoundWalks(g: Grid, minRun: nat, maxRun: nat, visited: map<Key, nat>,
                                            seed: Key, moves: seq<Move>)
    requires IsGrid(g) && ClosedKeys(g, minRun, maxRun, visited)
    requires forall s :: s in Seeds() ==> s in visited && visited[s] == 0
    requires seed in Seeds() && ValidMoves(g, minRun, maxRun, seed, moves)
    ensures End(seed, moves) in visited
    ensures visited[End(seed, moves)] <= MovesLoss(g, minRun, maxRun, seed, moves)
  {
    if moves != [] {
      var init := moves[..|moves| - 1];
      RecordsBoundWalks(g, minRun, maxRun, visited, seed, init);
      var e := End(seed, init);
      assert ValidMove(g, minRun, maxRun, e, moves[|moves| - 1]);
    }
  }

  /** The move half of `Closed` with an empty queue. */
  ghost predicate ClosedKeys(g: Grid, minRun: nat, maxRun: nat, visited: map<Key, nat>)
    requires IsGrid(g)
  {
    forall k, m :: k in visited && ValidMove(g, minRun, maxRun, k, m) ==>
      Apply(k, m) in visited && visited[Apply(k, m)] <= visited[k] + LegLoss(g, k.0, k.1, m.run)
  }

  /** One step of the search keeps `Closed`: records only fall, every state
      that left the queue is recorded at most at its cost, and every record
      that changed has had its moves and finishes accounted for. */
  lemma {:induction false} ClosedStep(g: Grid, minRun: nat, maxRun: nat,
                   visited0: map<Key, nat>, nodes0: seq<State>, best0: Option<nat>,
                   visited: map<Key, nat>, nodes: seq<State>, best: Option<nat>)
    requires IsGrid(g)
    requires Closed(g, minRun, maxRun, visited0, nodes0, best0)
    requires forall k :: k in visited0 ==> k in visited && visited[k] <= visited0[k]
    requires forall s :: s in nodes0 ==> s in nodes || (KeyOf(s) in visited && visited[KeyOf(s)] <= s.heatLoss)
    requires best0.Some? ==> best.Some? && best.value <= best0.value
    requires forall k :: k in visited && !(k in visited0 && visited[k] == visited0[k]) ==>
               KeyClosed(g, minRun, maxRun, visited, nodes, best, k, visited[k])
    ensures Closed(g, minRun, maxRun, visited, nodes, best)
  {
    forall k | k in visited
      ensures KeyClosed(g, minRun, maxRun, visited, nodes, best, k, visited[k])
    {
      if k in visited0 && visited[k] == visited0[k] {
        assert KeyClosed(g, minRun, maxRun, visited0, nodes0, best0, k, visited0[k]);
        forall m: Move | ValidMove(g, minRun, maxRun, k, m)
          ensures Covered(visited, nodes, Apply(k, m), visited[k] + LegLoss(g, k.0, k.1, m.run))
        {
          CoveredStep(visited0, nodes0, visited, nodes, Apply(k, m), visited[k] + LegLoss(g, k.0, k.1, m.run));
        }
      }
    }
  }

  /** Popping a state whose record is already at most its cost. */
  lemma {:induction false} ClosedSkip(g: Grid, minRun: nat, maxRun: nat, visited: map<Key, nat>, nodes0: seq<State>, best: Option<nat>,
                   popped: State, nodes: seq<State>)
    requires IsGrid(g) && Closed(g, minRun, maxRun, visited, nodes0, best)
    requires forall s :: s in Seeds() ==> Covered(visited, nodes0, s, 0)
    requires KeyOf(popped) in visited && visited[KeyOf(popped)] <= popped.heatLoss
    requires forall s :: s in nodes0 ==> s == popped || s in nodes
    ensures Closed(g, minRun, maxRun, visited, nodes, best)
    ensures forall s :: s in Seeds() ==> Covered(visited, nodes, s, 0)
  {
    ClosedStep(g, minRun, maxRun, visited, nodes0, best, visited, nodes, best);
    forall s | s in Seeds() ensures Covered(visited, nodes, s, 0) {
      CoveredStep(visited, nodes0, visited, nodes, s, 0);
    }
  }

  /** Recording a popped state at its cost after walking its leg. */
  lemma {:induction false} ClosedRecord(g: Grid, minRun: nat, maxRun: nat, visited0: map<Key, nat>, nodes0: seq<State>, best0: Option<nat>,
                     k: Key, c: nat, visited: map<Key, nat>, nodes: seq<State>, best: Option<nat>)
    requires IsGrid(g) && Closed(g, minRun, maxRun, visited0, nodes0, best0)
    requires forall s :: s in Seeds() ==> Covered(visited0, nodes0, s, 0)
    requires visited == visited0[k := c] && (k in visited0 ==> c < visited0[k])
    requires forall s :: s in nodes0 ==> s == State(k.0, k.1, c) || s in nodes
    requires best0.Some? ==> best.Some? && best.value <= best0.value
    requires forall m: Move :: ValidMove(g, minRun, maxRun, k, m) ==> Next(g, k, c, m) in nodes
    requires forall run: nat :: ValidFinish(g, minRun, maxRun, k, run) ==>
               best.Some? && best.value <= c + LegLoss(g, k.0, k.1, run)
    ensures Closed(g, minRun, maxRun, visited, nodes, best)
    ensures forall s :: s in Seeds() ==> Covered(visited, nodes, s, 0)
  {
    forall mv | ValidMove(g, minRun, maxRun, k, mv)
      ensures Covered(visited, nodes, Apply(k, mv), c + LegLoss(g, k.0, k.1, mv.run))
    {
      assert Next(g, k, c, mv) in nodes;
    }
    assert KeyClosed(g, minRun, maxRun, visited, nodes, best, k, c);
    ClosedStep(g, minRun, maxRun, visited0, nodes0, best0, visited, nodes, best);
    forall s | s in Seeds() ensures Covered(visited, nodes, s, 0) {
      CoveredStep(visited0, nodes0, visited, nodes, s, 0);
    }
  }

  lemma {:induction false} CoveredStep(visited0: map<Key, nat>, nodes0: seq<State>, visited: map<Key, nat>, nodes: seq<State>, t: Key, c: nat)
    requires forall k :: k in visited0 ==> k in visited && visited[k] <= visited0[k]
    requires forall s :: s in nodes0 ==> s in nodes || (KeyOf(s) in visited && visited[KeyOf(s)] <= s.heatLoss)
    requires Covered(visited0, nodes0, t, c)
    ensures Covered(visited, nodes, t, c)
  {
    if !(t in visited0 && visited0[t] <= c) {
      var s :| s in nodes0 && KeyOf(s) == t && s.heatLoss <= c;
    }
  }

  /** Removing the element at index m keeps every other element. */
  lemma {:induction false} RemoveKeepsOthers(nodes: seq<State>, m: nat)
    requires m < |nodes|
    ensures forall s :: s in nodes ==> s == nodes[m] || s in nodes[..m] + nodes[m + 1..]
  {
    forall s | s in nodes
      ensures s == nodes[m] || s in nodes[..m] + nodes[m + 1..]
    {
      var j :| 0 <= j < |nodes| && nodes[j] == s;
      if j < m {
        assert (nodes[..m] + nodes[m + 1..])[j] == s;
      } else if j > m {
        assert (nodes[..m] + nodes[m + 1..])[j - 1] == s;
      }
    }
  }

  lemma {:induction false} RemoveKeepsWitnesses(g: Grid, minRun: nat, maxRun: nat, nodes: seq<State>, ws: seq<(Key, seq<Move>)>, m: nat,
                             rest: seq<State>, wrest: seq<(Key, seq<Move>)>)
    requires IsGrid(g) && m < |nodes| && |ws| == |nodes|
    requires forall j :: 0 <= j < |nodes| ==> Witnessed(g, minRun, maxRun, nodes[j], ws[j])
    requires forall j :: 0 <= j < |nodes| ==> NearMap(g, KeyOf(nodes[j]))
    requires rest == nodes[..m] + nodes[m + 1..] && wrest == ws[..m] + ws[m + 1..]
    ensures |wrest| == |rest| && forall j :: 0 <= j < |rest| ==> Witnessed(g, minRun, maxRun, rest[j], wrest[j])
    ensures forall j :: 0 <= j < |rest| ==> NearMap(g, KeyOf(rest[j]))
  {
    forall j | 0 <= j < |rest|
      ensures Witnessed(g, minRun, maxRun, rest[j], wrest[j])
      ensures NearMap(g, KeyOf(rest[j]))
    {
      var i := if j < m then j else j + 1;
      assert rest[j] == nodes[i];
      assert wrest[j] == ws[i];
    }
  }

  /** A prefix-preserving extension keeps every element. */
  lemma {:induction false} PrefixKeeps(short: seq<State>, long: seq<State>)
    requires |short| <= |long| && long[..|short|] == short
    ensures forall s :: s in short ==> s in long
  {
    forall s | s in short
      ensures s in long
    {
      var j :| 0 <= j < |short| && short[j] == s;
      assert long[j] == s;
    }
  }

  /** After the queue drains, `Closed` says each recorded key's turns are recorded. */
  lemma {:induction false} DrainedIsClosed(g: Grid, minRun: nat, maxRun: nat, visited: map<Key, nat>, best: Option<nat>)
    requires IsGrid(g) && Closed(g, minRun, maxRun, visited, [], best)
    ensures ClosedKeys(g, minRun, maxRun, visited)
  {
  }

  /** What the search keeps true between pops. */
  ghost predicate SearchInv(g: Grid, minRun: nat, maxRun: nat, visited: map<Key, nat>, nodes: seq<State>,
                            ws: seq<(Key, seq<Move>)>, best: Option<nat>, wb: (Key, seq<Move>, nat))
    requires IsGrid(g)
  {
    WitnessInv(g, minRun, maxRun, visited, nodes, ws, best, wb) && CoverInv(g, minRun, maxRun, visited, nodes, best)
  }

  /** Soundness half: every queued state and the best cost are backed by walks,
      and every key lies near the map. */
  ghost predicate WitnessInv(g: Grid, minRun: nat, maxRun: nat, visited: map<Key, nat>, nodes: seq<State>,
                             ws: seq<(Key, seq<Move>)>, best: Option<nat>, wb: (Key, seq<Move>, nat))
    requires IsGrid(g)
  {
    && |ws| == |nodes| && (forall j :: 0 <= j < |nodes| ==> Witnessed(g, minRun, maxRun, nodes[j], ws[j]))
    && (forall j :: 0 <= j < |nodes| ==> NearMap(g, KeyOf(nodes[j])))
    && (forall t :: t in visited ==> NearMap(g, t))
    && BestWitnessed(g, minRun, maxRun, best, wb)
  }

  /** Completeness half: the seeds are covered at cost 0 and the records are closed. */
  ghost predicate CoverInv(g: Grid, minRun: nat, maxRun: nat, visited: map<Key, nat>, nodes: seq<State>, best: Option<nat>)
    requires IsGrid(g)
  {
    (forall s :: s in Seeds() ==> Covered(visited, nodes, s, 0)) && Closed(g, minRun, maxRun, visited, nodes, best)
  }

  lemma {:induction false} SearchStarts(g: Grid, minRun: nat, maxRun: nat)
    requires IsGrid(g)
    ensures SearchInv(g, minRun, maxRun, map[], [State((1, 0), Right, 0), State((0, 1), Down, 0)],
                      [(((1, 0), Right), []), (((0, 1), Down), [])], None, (((1, 0), Right), [], 0))
  {
    var nodes := [State((1, 0), Right, 0), State((0, 1), Down, 0)];
    assert KeyOf(nodes[0]) == ((1, 0), Right) && KeyOf(nodes[1]) == ((0, 1), Down);
  }

  /** With the queue drained, the best cost found bounds every route and is
      the cost of one when any exists. */
  lemma {:induction false} SearchEnds(g: Grid, minRun: nat, maxRun: nat, visited: map<Key, nat>, ws: seq<(Key, seq<Move>)>,
                   best: Option<nat>, wb: (Key, seq<Move>, nat))
    requires IsGrid(g) && SearchInv(g, minRun, maxRun, visited, [], ws, best, wb)
    ensures forall seed, moves, run :: IsRoute(g, minRun, maxRun, seed, moves, run) ==>
              best.Some? && best.value <= RouteLoss(g, minRun, maxRun, seed, moves, run)
    ensures best.Some? ==> IsRoute(g, minRun, maxRun, wb.0, wb.1, wb.2)
                           && best.value == RouteLoss(g, minRun, maxRun, wb.0, wb.1, wb.2)
  {
    DrainedIsClosed(g, minRun, maxRun, visited, best);
    assert forall s :: s in Seeds() ==> s in visited && visited[s] == 0;
    forall seed, moves, run | IsRoute(g, minRun, maxRun, seed, moves, run)
      ensures best.Some? && best.value <= RouteLoss(g, minRun, maxRun, seed, moves, run)
    {
      RecordsBoundWalks(g, minRun, maxRun, visited, seed, moves);
      var e := End(seed, moves);
      assert ValidFinish(g, minRun, maxRun, e, run);
    }
  }

  /** The measure of the search loop falls: a new key is recorded, a record is
      lowered, or the queue shrinks with the records unchanged. */
  ghost predicate Progress(visited0: map<Key, nat>, nodes0: seq<State>, visited: map<Key, nat>, nodes: seq<State>)
  {
    (visited0.Keys <= visited.Keys && exists t :: t in visited && t !in visited0)
    || (visited0.Keys == visited.Keys && Total(visited) < Total(visited0))
    || (visited == visited0 && |nodes| < |nodes0|)
  }

  lemma {:induction false} MeasureFalls(space: set<Key>, visited0: map<Key, nat>, nodes0: seq<State>, visited: map<Key, nat>, nodes: seq<State>)
    requires Progress(visited0, nodes0, visited, nodes) && visited.Keys <= space
    ensures |space - visited.Keys| < |space - visited0.Keys|
            || (|space - visited.Keys| == |space - visited0.Keys|
                && (Total(visited) < Total(visited0) || (Total(visited) == Total(visited0) && |nodes| < |nodes0|)))
  {
    if visited0.Keys <= visited.Keys && exists t :: t in visited && t !in visited0 {
      var x :| x in visited && x !in visited0;
      StrictSubsetSmaller(space - visited.Keys, space - visited0.Keys, x);
    }
  }

  lemma {:induction false} SubsetNotLarger(a: set<Key>, b: set<Key>)
    requires a <= b
    ensures |a| <= |b|
    decreases |a|
  {
    if a != {} {
      var x :| x in a;
      SubsetNotLarger(a - {x}, b - {x});
    }
  }

  lemma {:induction false} StrictSubsetSmaller(a: set<Key>, b: set<Key>, x: Key)
    requires a <= b && x in b && x !in a
    ensures |a| < |b|
  {
    SubsetNotLarger(a, b - {x});
  }

  /** One iteration of the search loop: pop a cheapest state, skip it unless it
      improves its record, and otherwise walk its leg. */
  method SearchStep(g: Grid, minRun: nat, maxRun: nat, visited: map<Key, nat>, nodes: seq<State>,
                    ghost ws: seq<(Key, seq<Move>)>, best: Option<nat>, ghost wb: (Key, seq<Move>, nat))
    returns (visited': map<Key, nat>, nodes': seq<State>, ghost ws': seq<(Key, seq<Move>)>,
             best': Option<nat>, ghost wb': (Key, seq<Move>, nat))
    requires IsGrid(g) && nodes != [] && SearchInv(g, minRun, maxRun, visited, nodes, ws, best, wb)
    ensures SearchInv(g, minRun, maxRun, visited', nodes', ws', best', wb')
    ensures Progress(visited, nodes, visited', nodes')
  {
    var m := GreatestIndex(nodes);
    var popped := nodes[m];
    var rest := nodes[..m] + nodes[m + 1..];
    ghost var wrest := ws[..m] + ws[m + 1..];
    var k := KeyOf(popped);
    var recorded := Record(visited, k, popped.heatLoss);
    if !recorded.1 {
      visited', nodes', ws', best', wb' := visited, rest, wrest, best, wb;
      SkipKeepsSearch(g, minRun, maxRun, visited, nodes, ws, best, wb, m, rest, wrest);
      return;
    }
    visited' := recorded.0;
    ghost var pushed, finish;
    nodes', pushed, best', finish := WalkLeg(g, minRun, maxRun, k, popped.heatLoss, rest, best);
    ws' := wrest + seq(|pushed|, j requires 0 <= j < |pushed| => (ws[m].0, ws[m].1 + [pushed[j]]));
    wb' := if best' != best then (ws[m].0, ws[m].1, finish) else wb;
    RecordKeepsSearch(g, minRun, maxRun, visited, nodes, ws, best, wb, m, rest, wrest,
                      visited', nodes', pushed, best', finish, ws', wb');
  }

  /** Popping a state that does not improve its record keeps the search invariant. */
  lemma {:induction false} SkipKeepsSearch(g: Grid, minRun: nat, maxRun: nat, visited: map<Key, nat>, nodes: seq<State>,
                        ws: seq<(Key, seq<Move>)>, best: Option<nat>, wb: (Key, seq<Move>, nat),
                        m: nat, rest: seq<State>, wrest: seq<(Key, seq<Move>)>)
    requires IsGrid(g) && SearchInv(g, minRun, maxRun, visited, nodes, ws, best, wb) && m < |nodes|
    requires rest == nodes[..m] + nodes[m + 1..] && wrest == ws[..m] + ws[m + 1..]
    requires KeyOf(nodes[m]) in visited && visited[KeyOf(nodes[m])] <= nodes[m].heatLoss
    ensures SearchInv(g, minRun, maxRun, visited, rest, wrest, best, wb)
    ensures Progress(visited, nodes, visited, rest)
  {
    RemoveKeepsOthers(nodes, m);
    RemoveKeepsWitnesses(g, minRun, maxRun, nodes, ws, m, rest, wrest);
    ClosedSkip(g, minRun, maxRun, visited, nodes, best, nodes[m], rest);
  }

  /** Recording a popped state that improves its record and walking its leg
      keeps the search invariant, and the loop measure falls. */
  lemma {:induction false} RecordKeepsSearch(g: Grid, minRun: nat, maxRun: nat, visited: map<Key, nat>, nodes: seq<State>,
                          ws: seq<(Key, seq<Move>)>, best: Option<nat>, wb: (Key, seq<Move>, nat),
                          m: nat, rest: seq<State>, wrest: seq<(Key, seq<Move>)>,
                          visited': map<Key, nat>, nodes': seq<State>, pushed: seq<Move>, best': Option<nat>, finish: nat,
                          ws': seq<(Key, seq<Move>)>, wb': (Key, seq<Move>, nat))
    requires IsGrid(g) && SearchInv(g, minRun, maxRun, visited, nodes, ws, best, wb) && m < |nodes|
    requires rest == nodes[..m] + nodes[m + 1..] && wrest == ws[..m] + ws[m + 1..]
    requires var k := KeyOf(nodes[m]);
             visited' == visited[k := nodes[m].heatLoss] && (k in visited ==> nodes[m].heatLoss < visited[k])
    requires LegWalked(g, minRun, maxRun, KeyOf(nodes[m]), nodes[m].heatLoss, rest, nodes', pushed, best, best', finish)
    requires ws' == wrest + seq(|pushed|, j requires 0 <= j < |pushed| => (ws[m].0, ws[m].1 + [pushed[j]]))
    requires wb' == if best' != best then (ws[m].0, ws[m].1, finish) else wb
    ensures SearchInv(g, minRun, maxRun, visited', nodes', ws', best', wb')
    ensures Progress(visited, nodes, visited', nodes')
  {
    RecordKeepsWitnesses(g, minRun, maxRun, visited, nodes, ws, best, wb, m, rest, wrest,
                         visited', nodes', pushed, best', finish, ws', wb');
    RecordKeepsCover(g, minRun, maxRun, visited, nodes, best, m, rest, visited', nodes', pushed, best', finish);
  }

  lemma {:induction false} RecordKeepsWitnesses(g: Grid, minRun: nat, maxRun: nat, visited: map<Key, nat>, nodes: seq<State>,
                             ws: seq<(Key, seq<Move>)>, best: Option<nat>, wb: (Key, seq<Move>, nat),
                             m: nat, rest: seq<State>, wrest: seq<(Key, seq<Move>)>,
                             visited': map<Key, nat>, nodes': seq<State>, pushed: seq<Move>, best': Option<nat>, finish: nat,
                             ws': seq<(Key, seq<Move>)>, wb': (Key, seq<Move>, nat))
    requires IsGrid(g) && WitnessInv(g, minRun, maxRun, visited, nodes, ws, best, wb) && m < |nodes|
    requires rest == nodes[..m] + nodes[m + 1..] && wrest == ws[..m] + ws[m + 1..]
    requires visited' == visited[KeyOf(nodes[m]) := nodes[m].heatLoss]
    requires LegWalked(g, minRun, maxRun, KeyOf(nodes[m]), nodes[m].heatLoss, rest, nodes', pushed, best, best', finish)
    requires ws' == wrest + seq(|pushed|, j requires 0 <= j < |pushed| => (ws[m].0, ws[m].1 + [pushed[j]]))
    requires wb' == if best' != best then (ws[m].0, ws[m].1, finish) else wb
    ensures WitnessInv(g, minRun, maxRun, visited', nodes', ws', best', wb')
  {
    var k, c := KeyOf(nodes[m]), nodes[m].heatLoss;
    RemoveKeepsWitnesses(g, minRun, maxRun, nodes, ws, m, rest, wrest);
    assert Witnessed(g, minRun, maxRun, State(k.0, k.1, c), ws[m]);
    PushedWitnessed(g, minRun, maxRun, k, c, ws[m], rest, wrest, pushed, nodes', ws');
    if best' != best {
      FinishWitnessed(g, minRun, maxRun, k, c, ws[m], finish);
    }
  }

  lemma {:induction false} RecordKeepsCover(g: Grid, minRun: nat, maxRun: nat, visited: map<Key, nat>, nodes: seq<State>, best: Option<nat>,
                         m: nat, rest: seq<State>,
                         visited': map<Key, nat>, nodes': seq<State>, pushed: seq<Move>, best': Option<nat>, finish: nat)
    requires IsGrid(g) && CoverInv(g, minRun, maxRun, visited, nodes, best) && m < |nodes|
    requires rest == nodes[..m] + nodes[m + 1..]
    requires var k := KeyOf(nodes[m]);
             visited' == visited[k := nodes[m].heatLoss] && (k in visited ==> nodes[m].heatLoss < visited[k])
    requires LegWalked(g, minRun, maxRun, KeyOf(nodes[m]), nodes[m].heatLoss, rest, nodes', pushed, best, best', finish)
    ensures CoverInv(g, minRun, maxRun, visited', nodes', best')
    ensures Progress(visited, nodes, visited', nodes')
  {
    var k, c := KeyOf(nodes[m]), nodes[m].heatLoss;
    RemoveKeepsOthers(nodes, m);
    PrefixKeeps(rest, nodes');
    ClosedRecord(g, minRun, maxRun, visited, nodes, best, k, c, visited', nodes', best');
    if k in visited {
      TotalLowered(visited, k, c);
      assert visited'.Keys == visited.Keys;
    } else {
      assert k in visited' && k !in visited;
    }
  }

  /** `min_heat_loss`: the least heat loss over all routes from a seed to the
      goal, or 0 when there is none. */
  method MinHeatLoss(g: Grid, minRun: nat, maxRun: nat) returns (r: nat)
    requires IsGrid(g)
    ensures forall seed, moves, run :: IsRoute(g, minRun, maxRun, seed, moves, run) ==>
              r <= RouteLoss(g, minRun, maxRun, seed, moves, run)
    ensures (exists seed, moves, run :: IsRoute(g, minRun, maxRun, seed, moves, run)) ==>
              exists seed, moves, run :: IsRoute(g, minRun, maxRun, seed, moves, run)
                                         && r == RouteLoss(g, minRun, maxRun, seed, moves, run)
    ensures (forall seed, moves, run :: !IsRoute(g, minRun, maxRun, seed, moves, run)) ==> r == 0
  {
    var visited: map<Key, nat> := map[];
    var nodes := [State((1, 0), Right, 0), State((0, 1), Down, 0)];
    ghost var ws: seq<(Key, seq<Move>)> := [(((1, 0), Right), []), (((0, 1), Down), [])];
    var best: Option<nat> := None;
    ghost var wb: (Key, seq<Move>, nat) := (((1, 0), Right), [], 0);
    SearchStarts(g, minRun, maxRun);

    while nodes != []
      invariant SearchInv(g, minRun, maxRun, visited, nodes, ws, best, wb)
      invariant visited.Keys <= KeySpace(g)
      decreases |KeySpace(g) - visited.Keys|, Total(visited), |nodes|
    {
      ghost var visited0, nodes0 := visited, nodes;
      visited, nodes, ws, best, wb := SearchStep(g, minRun, maxRun, visited, nodes, ws, best, wb);
      KeysInSpace(g, visited);
      MeasureFalls(KeySpace(g), visited0, nodes0, visited, nodes);
    }
    SearchEnds(g, minRun, maxRun, visited, ws, best, wb);
    r := if best.Some? then best.value else 0;
  }

  /** `part1`: legs of 1 to 3 cells. */
  method Part1(g: Grid) returns (r: nat)
    requires IsGrid(g)
    ensures forall seed, moves, run :: IsRoute(g, 0, 3, seed, moves, run) ==> r <= RouteLoss(g, 0, 3, seed, moves, run)
    ensures (exists seed, moves, run :: IsRoute(g, 0, 3, seed, moves, run)) ==>
              exists seed, moves, run :: IsRoute(g, 0, 3, seed, moves, run) && r == RouteLoss(g, 0, 3, seed, moves, run)
    ensures (forall seed, moves, run :: !IsRoute(g, 0, 3, seed, moves, run)) ==> r == 0
  {
    r := MinHeatLoss(g, 0, 3);
  }

  /** `part2`: legs of 4 to 10 cells. */
  method Part2(g: Grid) returns (r: nat)
    requires IsGrid(g)
    ensures forall seed, moves, run :: IsRoute(g, 4, 10, seed, moves, run) ==> r <= RouteLoss(g, 4, 10, seed, moves, run)
    ensures (exists seed, moves, run :: IsRoute(g, 4, 10, seed, moves, run)) ==>
              exists seed, moves, run :: IsRoute(g, 4, 10, seed, moves, run) && r == RouteLoss(g, 4, 10, seed, moves, run)
    ensures (forall seed, moves, run :: !IsRoute(g, 4, 10, seed, moves, run)) ==> r == 0
  {
    r := MinHeatLoss(g, 4, 10);
  }
}
