/** Day 16, "The Floor Will Be Lava": a beam enters a grid of mirrors and
    splitters; the energized tiles are those some part of the beam crosses. */
module Day16 {
  import opened Common

  datatype MirrorOrSplitter = NegativeMirror | PositiveMirror | VerticalSplitter | HorizontalSplitter

  datatype Direction = Up | Down | Left | Right

  type Coordinates = (int, int)

  // ---------------------------------------------------------------------
  // Directions as unit vectors (y grows downwards)

  /** The unit vector of a direction. */
  function ToVector(d: Direction): Coordinates
  {
    match d
    case Left => (-1, 0)
    case Right => (1, 0)
    case Up => (0, -1)
    case Down => (0, 1)
  }

  /** The direction of a unit vector; any other vector has none. */
  function FromVector(v: Coordinates): Option<Direction>
  {
    if v == (-1, 0) then Some(Left)
    else if v == (1, 0) then Some(Right)
    else if v == (0, -1) then Some(Up)
    else if v == (0, 1) then Some(Down)
    else None
  }

  /** The two conversions are inverse to each other. */
  lemma {:induction false} VectorRoundTrip(d: Direction, v: Coordinates)
    ensures FromVector(ToVector(d)) == Some(d)
    ensures FromVector(v) == Some(d) <==> ToVector(d) == v
  {
  }

  function Dot(a: Coordinates, b: Coordinates): int
  {
    a.0 * b.0 + a.1 * b.1
  }

  /** Two directions at a right angle. */
  predicate Perpendicular(a: Direction, b: Direction)
  {
    Dot(ToVector(a), ToVector(b)) == 0
  }

  /** The turn at a `\` mirror: the vector's coordinates swapped. */
  function PositiveTurn(d: Direction): (r: Direction)
    ensures ToVector(r) == (ToVector(d).1, ToVector(d).0)
  {
    var v := ToVector(d);
    match FromVector((v.1, v.0))
    case Some(r) => r
    case None => assert false; d
  }

  /** The turn at a `/` mirror: the vector's coordinates swapped and
      negated. */
  function NegativeTurn(d: Direction): (r: Direction)
    ensures ToVector(r) == (-ToVector(d).1, -ToVector(d).0)
  {
    var v := ToVector(d);
    match FromVector((-v.1, -v.0))
    case Some(r) => r
    case None => assert false; d
  }

  /** Each turn undoes itself, always leaves at a right angle, and the two
      turns of a direction point opposite ways. */
  lemma {:induction false} TurnFacts(d: Direction)
    ensures PositiveTurn(PositiveTurn(d)) == d && NegativeTurn(NegativeTurn(d)) == d
    ensures Perpendicular(d, PositiveTurn(d)) && Perpendicular(d, NegativeTurn(d))
    ensures PositiveTurn(d) != NegativeTurn(d)
    ensures ToVector(PositiveTurn(d)).0 == -ToVector(NegativeTurn(d)).0
    ensures ToVector(PositiveTurn(d)).1 == -ToVector(NegativeTurn(d)).1
  {
    match d {
      case Up =>
      case Down =>
      case Left =>
      case Right =>
    }
  }

  predicate IsVertical(d: Direction) { d == Up || d == Down }

  /** The directions a beam leaves a mirror or splitter in. */
  function Transform(d: Direction, m: MirrorOrSplitter): (r: seq<Direction>)
    ensures m == NegativeMirror || m == PositiveMirror ==> |r| == 1 && Perpendicular(d, r[0])
    ensures (m == VerticalSplitter && IsVertical(d)) || (m == HorizontalSplitter && !IsVertical(d)) ==> r == [d]
    ensures (m == VerticalSplitter && !IsVertical(d)) || (m == HorizontalSplitter && IsVertical(d)) ==>
      |r| == 2 && Perpendicular(d, r[0]) && Perpendicular(d, r[1]) && r[0] != r[1]
  {
    TurnFacts(d);
    match m
    case NegativeMirror => [NegativeTurn(d)]
    case PositiveMirror => [PositiveTurn(d)]
    case VerticalSplitter =>
      if IsVertical(d) then [d] else [PositiveTurn(d), NegativeTurn(d)]
    case HorizontalSplitter =>
      if IsVertical(d) then [PositiveTurn(d), NegativeTurn(d)] else [d]
  }

  /** One step from a cell in a direction. */
  function Step(c: Coordinates, d: Direction): (r: Coordinates)
    ensures r.0 - c.0 == ToVector(d).0 && r.1 - c.1 == ToVector(d).1
  {
    var v := ToVector(d);
    (c.0 + v.0, c.1 + v.1)
  }

  // ---------------------------------------------------------------------
  // The layout and the beam states

  /** The mirrors and splitters by cell, and the bottom-right cell. */
  datatype Layout = Layout(mirrors: map<Coordinates, MirrorOrSplitter>, bottomRight: Coordinates)

  /** A beam front: where it is and where it is heading. */
  type State = (Coordinates, Direction)

  predicate InBounds(layout: Layout, c: Coordinates)
  {
    0 <= c.0 <= layout.bottomRight.0 && 0 <= c.1 <= layout.bottomRight.1
  }

  /** The states a beam front moves to: through each direction the mirror or
      splitter on its cell sends it, or straight on over an empty cell. */
  function Successors(layout: Layout, s: State): (r: seq<State>)
    ensures |r| >= 1
    ensures forall i :: 0 <= i < |r| ==> r[i].0 == Step(s.0, r[i].1)
  {
    if s.0 in layout.mirrors then
      var ds := Transform(s.1, layout.mirrors[s.0]);
      seq(|ds|, i requires 0 <= i < |ds| => (Step(s.0, ds[i]), ds[i]))
    else [(Step(s.0, s.1), s.1)]
  }

  /** The states among the first `n` of `next` that lie on the grid. */
  function OnGrid(layout: Layout, next: seq<State>, n: nat): (r: set<State>)
    requires n <= |next|
    ensures forall t :: t in r ==> InBounds(layout, t.0)
  {
    if n == 0 then {}
    else OnGrid(layout, next, n - 1) + (if InBounds(layout, next[n - 1].0) then {next[n - 1]} else {})
  }

  /** All successors that lie on the grid. */
  function SuccessorSet(layout: Layout, s: State): set<State>
  {
    var next := Successors(layout, s);
    OnGrid(layout, next, |next|)
  }

  /** The on-grid states of a prefix are exactly its states that are on the
      grid. */
  lemma {:induction false} OnGridIn(layout: Layout, next: seq<State>, n: nat, t: State)
    requires n <= |next|
    ensures t in OnGrid(layout, next, n) <==> InBounds(layout, t.0) && t in next[..n]
  {
    if n > 0 {
      OnGridIn(layout, next, n - 1, t);
      assert next[..n] == next[..n - 1] + [next[n - 1]];
    }
  }

  /** A set of states from which no beam leaves: every on-grid successor of a
      member is a member. */
  ghost predicate Closed(layout: Layout, states: set<State>)
  {
    forall s {:trigger Covered(layout, s, states)} :: s in states ==> Covered(layout, s, states)
  }

  /** Every on-grid successor of `s` is in `states`. */
  ghost predicate Covered(layout: Layout, s: State, states: set<State>)
  {
    SuccessorSet(layout, s) <= states
  }

  /** The cells of the grid. */
  function Box(layout: Layout): set<Coordinates>
  {
    set x, y | 0 <= x <= layout.bottomRight.0 && 0 <= y <= layout.bottomRight.1 :: (x, y)
  }

  const AllDirections: seq<Direction> := [Up, Down, Left, Right]

  /** Every state that can be on the grid, and the start, which is visited
      wherever it is. */
  function Universe(layout: Layout, start: State): set<State>
  {
    (set c, d | c in Box(layout) && d in AllDirections :: (c, d)) + {start}
  }

  lemma {:induction false} InUniverse(layout: Layout, start: State, t: State)
    requires InBounds(layout, t.0)
    ensures t in Universe(layout, start)
  {
    assert t.0 == (t.0.0, t.0.1);
    assert t.0 in Box(layout);
    match t.1 {
      case Up => assert AllDirections[0] == t.1;
      case Down => assert AllDirections[1] == t.1;
      case Left => assert AllDirections[2] == t.1;
      case Right => assert AllDirections[3] == t.1;
    }
  }

  lemma {:induction false} SuccessorsInUniverse(layout: Layout, start: State, s: State)
    ensures SuccessorSet(layout, s) <= Universe(layout, start)
  {
    forall t | t in SuccessorSet(layout, s) ensures t in Universe(layout, start) {
      InUniverse(layout, start, t);
    }
  }

  /** The states in every closed set that holds the start. */
  ghost predicate BelowClosed(layout: Layout, start: State, states: set<State>)
  {
    forall other {:trigger Closed(layout, other)} :: Closed(layout, other) && start in other ==> states <= other
  }

  /** The on-grid successors of a state below every closed set are below it
      too. */
  lemma {:induction false} BelowClosedStep(layout: Layout, start: State, states: set<State>, s: State)
    requires BelowClosed(layout, start, states) && s in states
    ensures BelowClosed(layout, start, states + SuccessorSet(layout, s))
  {
    forall other | Closed(layout, other) && start in other
      ensures states + SuccessorSet(layout, s) <= other
    {
      assert Covered(layout, s, other);
    }
  }

  /** The states the beam reaches from `start`: those in every closed set
      that holds the start. */
  ghost function Reach(layout: Layout, start: State): set<State>
  {
    set t | t in Universe(layout, start) && forall other :: Closed(layout, other) && start in other ==> t in other
  }

  /** `Reach` is the least closed set holding the start. */
  lemma {:induction false} ReachIsLeast(layout: Layout, start: State)
    ensures start in Reach(layout, start) && Closed(layout, Reach(layout, start))
    ensures BelowClosed(layout, start, Reach(layout, start))
  {
    var r := Reach(layout, start);
    forall s | s in r ensures Covered(layout, s, r) {
      SuccessorsInUniverse(layout, start, s);
      forall t | t in SuccessorSet(layout, s) ensures t in r {
        forall other | Closed(layout, other) && start in other ensures t in other {
          assert Covered(layout, s, other);
        }
      }
    }
  }

  /** A closed set holding the start that is below every closed set holding
      the start is the set of reached states. */
  lemma {:induction false} ReachUnique(layout: Layout, start: State, states: set<State>)
    requires start in states && Closed(layout, states) && BelowClosed(layout, start, states)
    ensures states == Reach(layout, start)
  {
    ReachIsLeast(layout, start);
    assert states <= Reach(layout, start);
  }

  /** The cells crossed by a set of states. */
  function Cells(states: set<State>): set<Coordinates>
  {
    set s | s in states :: s.0
  }

  /** The number of tiles energized by a beam entering at `start`. */
  ghost function Energized(layout: Layout, start: State): nat
  {
    |Cells(Reach(layout, start))|
  }

  // ---------------------------------------------------------------------
  // The search

  /** The pushes of one popped state: every on-grid successor not yet
      visited is marked visited and pushed, each exactly once. */
  method PushSuccessors(layout: Layout, next: seq<State>, visited: set<State>)
    returns (visited': set<State>, pushed: seq<State>)
    ensures visited' == visited + OnGrid(layout, next, |next|)
    ensures forall t :: t in visited' - visited <==> t in pushed
    ensures |pushed| == |visited' - visited|
  {
    pushed := [];
    visited' := visited;
    for i := 0 to |next|
      invariant Pushed(layout, next, i, visited, visited', pushed)
    {
      visited', pushed := PushOne(layout, next, i, visited, visited', pushed);
    }
  }

  /** After the first `n` successors: the visited set has grown by their
      on-grid members, and `pushed` lists the newly visited states, each
      once. */
  ghost predicate Pushed(layout: Layout, next: seq<State>, n: nat, base: set<State>,
                         visited: set<State>, pushed: seq<State>)
    requires n <= |next|
  {
    && visited == base + OnGrid(layout, next, n)
    && (forall t :: t in visited - base <==> t in pushed)
    && |pushed| == |visited - base|
  }

  /** The test and push of the successor at `i`: pushed when it is on the
      grid and not yet visited. */
  method PushOne(layout: Layout, next: seq<State>, i: nat, ghost base: set<State>,
                 visited: set<State>, pushed: seq<State>)
    returns (visited': set<State>, pushed': seq<State>)
    requires i < |next| && Pushed(layout, next, i, base, visited, pushed)
    ensures Pushed(layout, next, i + 1, base, visited', pushed')
  {
    var t := next[i];
    visited', pushed' := visited, pushed;
    if t !in visited && InBounds(layout, t.0) {
      assert (visited + {t}) - base == (visited - base) + {t};
      visited' := visited + {t};
      pushed' := pushed + [t];
    }
  }

  /** Every visited state is still on the stack or has all its on-grid
      successors visited. */
  ghost predicate Explored(layout: Layout, visited: set<State>, stack: seq<State>)
  {
    forall v {:trigger Covered(layout, v, visited)} :: v in visited ==> v in stack || Covered(layout, v, visited)
  }

  /** Popping `s` and pushing its new successors keeps `Explored`. */
  lemma {:induction false} ExploredStep(layout: Layout, before: set<State>, rest: seq<State>, s: State,
                                        visited: set<State>, pushed: seq<State>)
    requires Explored(layout, before, rest + [s])
    requires visited == before + SuccessorSet(layout, s)
    requires forall t :: t in visited - before <==> t in pushed
    ensures Explored(layout, visited, rest + pushed)
  {
    forall v | v in visited ensures v in rest + pushed || Covered(layout, v, visited) {
      assert Covered(layout, v, before) ==> Covered(layout, v, visited);
      if v in before && v != s && v in rest + [s] {
        var k :| 0 <= k < |rest| + 1 && (rest + [s])[k] == v;
        assert (rest + pushed)[k] == v;
      } else if v !in before {
        assert v in visited - before;
        var k :| 0 <= k < |pushed| && pushed[k] == v;
        assert (rest + pushed)[|rest| + k] == v;
      }
    }
  }

  /** The invariant of the search: the start is visited, every visited
      state is a possible state, the stack holds visited states, every
      visited state off the stack has its successors visited, and everything
      visited lies in every closed set holding the start. */
  ghost predicate Searching(layout: Layout, start: State, visited: set<State>, stack: seq<State>)
  {
    && start in visited && visited <= Universe(layout, start)
    && (forall k :: 0 <= k < |stack| ==> stack[k] in visited)
    && Explored(layout, visited, stack)
    && BelowClosed(layout, start, visited)
  }

  /** One pass of the search loop: pop a state and push its new successors. */
  method SearchStep(layout: Layout, ghost start: State, visited: set<State>, stack: seq<State>)
    returns (visited': set<State>, stack': seq<State>)
    requires stack != [] && Searching(layout, start, visited, stack)
    ensures Searching(layout, start, visited', stack')
    ensures visited <= visited'
    ensures visited' == visited ==> |stack'| < |stack|
  {
    var s := stack[|stack| - 1];
    assert stack == stack[..|stack| - 1] + [s];
    var rest := stack[..|stack| - 1];
    assert forall k :: 0 <= k < |rest| ==> rest[k] == stack[k];
    var pushed;
    visited', pushed := PushSuccessors(layout, Successors(layout, s), visited);
    SuccessorsInUniverse(layout, start, s);
    BelowClosedStep(layout, start, visited, s);
    ExploredStep(layout, visited, rest, s, visited', pushed);
    StackVisited(rest, pushed, visited, visited');
    stack' := rest + pushed;
    if visited' == visited {
      assert |pushed| == 0;
    }
  }

  /** The stack after a pass holds visited states only. */
  lemma {:induction false} StackVisited(rest: seq<State>, pushed: seq<State>, before: set<State>, visited: set<State>)
    requires forall k :: 0 <= k < |rest| ==> rest[k] in before
    requires before <= visited && forall t :: t in visited - before <==> t in pushed
    ensures forall k :: 0 <= k < |rest + pushed| ==> (rest + pushed)[k] in visited
  {
    forall k | 0 <= k < |rest + pushed| ensures (rest + pushed)[k] in visited {
      if k >= |rest| {
        assert (rest + pushed)[k] == pushed[k - |rest|];
        assert pushed[k - |rest|] in pushed;
      } else {
        assert (rest + pushed)[k] == rest[k];
      }
    }
  }

  /** `energized_count`: a depth-first search over beam states from the
      start; the result is the number of distinct cells among the visited
      states. */
  method EnergizedCount(layout: Layout, start: State) returns (count: nat)
    ensures count == Energized(layout, start)
  {
    ghost var universe := Universe(layout, start);
    var visited := {start};
    var stack := [start];
    while stack != []
      invariant Searching(layout, start, visited, stack)
      decreases universe - visited, |stack|
    {
      visited, stack := SearchStep(layout, start, visited, stack);
    }
    ReachUnique(layout, start, visited);
    count := |Cells(visited)|;
  }

  // ---------------------------------------------------------------------
  // The grid area bounds the count

  /** The cells of a `width` by `height` grid. */
  function Grid(width: nat, height: nat): set<Coordinates>
  {
    set x, y | 0 <= x < width && 0 <= y < height :: (x, y)
  }

  /** The first `width` cells of row `y`. */
  function Row(width: nat, y: int): set<Coordinates>
  {
    set x | 0 <= x < width :: (x, y)
  }

  lemma {:induction false} RowSize(width: nat, y: int)
    ensures |Row(width, y)| == width
  {
    if width > 0 {
      RowSize(width - 1, y);
      assert Row(width, y) == Row(width - 1, y) + {(width - 1, y)};
    }
  }

  /** A grid is the grid one row shorter and its last row. */
  lemma {:induction false} GridStep(width: nat, height: nat)
    requires height > 0
    ensures |Grid(width, height)| == |Grid(width, height - 1)| + width
  {
    var above, last := Grid(width, height - 1), Row(width, height - 1);
    RowSize(width, height - 1);
    assert Grid(width, height) == above + last;
    assert above * last == {};
  }

  lemma {:induction false} GridSize(width: nat, height: nat)
    ensures |Grid(width, height)| == width * height
  {
    if height > 0 {
      GridSize(width, height - 1);
      GridStep(width, height);
      MulSucc(height - 1, width);
    }
  }

  lemma {:induction false} SubsetSize<T>(a: set<T>, b: set<T>)
    requires a <= b
    ensures |a| <= |b|
  {
    assert b == a + (b - a);
  }

  /** A beam entering on the grid energizes only grid tiles, so at most the
      grid's area of them. */
  lemma {:induction false} EnergizedBound(layout: Layout, start: State)
    requires InBounds(layout, start.0)
    ensures Cells(Reach(layout, start)) <= Box(layout)
    ensures Energized(layout, start) <= (layout.bottomRight.0 + 1) * (layout.bottomRight.1 + 1)
  {
    var (right, bottom) := layout.bottomRight;
    forall c | c in Cells(Reach(layout, start)) ensures c in Box(layout) {
      var t :| t in Reach(layout, start) && c == t.0;
      if t != start {
        var c', d :| c' in Box(layout) && d in AllDirections && t == (c', d);
      } else {
        assert c == (c.0, c.1);
      }
    }
    assert Box(layout) == Grid(right + 1, bottom + 1);
    GridSize(right + 1, bottom + 1);
    SubsetSize(Cells(Reach(layout, start)), Box(layout));
  }

  // ---------------------------------------------------------------------
  // The puzzle

  /** Part one: the beam enters at the top-left corner heading right. */
  method Part1(layout: Layout) returns (count: nat)
    ensures count == Energized(layout, ((0, 0), Right))
  {
    count := EnergizedCount(layout, ((0, 0), Right));
  }

  /** A start on the border of the grid heading inwards. */
  predicate BorderStart(layout: Layout, s: State)
  {
    var (right, bottom) := layout.bottomRight;
    var ((x, y), d) := s;
    || (d == Down && y == 0 && 0 <= x <= right)
    || (d == Up && y == bottom && 0 <= x <= right)
    || (d == Right && x == 0 && 0 <= y <= bottom)
    || (d == Left && x == right && 0 <= y <= bottom)
  }

  /** The border starts tried once the columns before `columns` and the rows
      before `rows` are done. */
  predicate Considered(layout: Layout, columns: int, rows: int, s: State)
  {
    BorderStart(layout, s) && if IsVertical(s.1) then s.0.0 < columns else s.0.1 < rows
  }

  /** `best` is the running maximum of the counts of the considered starts,
      starting from 0. */
  ghost predicate RunningMax(layout: Layout, columns: int, rows: int, best: nat)
  {
    && (forall s :: Considered(layout, columns, rows, s) ==> Energized(layout, s) <= best)
    && (best == 0 || exists s :: Considered(layout, columns, rows, s) && best == Energized(layout, s))
  }

  /** One step of the running maximum over two more starts. */
  lemma {:induction false} RunningMaxStep(layout: Layout, columns: int, rows: int, columns': int, rows': int,
                                          best: nat, a: State, b: State, best': nat)
    requires RunningMax(layout, columns, rows, best)
    requires Considered(layout, columns', rows', a) && Considered(layout, columns', rows', b)
    requires forall s :: Considered(layout, columns', rows', s) ==>
      Considered(layout, columns, rows, s) || s == a || s == b
    requires forall s :: Considered(layout, columns, rows, s) ==> Considered(layout, columns', rows', s)
    requires best' == Max(Max(Energized(layout, a), Energized(layout, b)), best)
    ensures RunningMax(layout, columns', rows', best')
  {
    if best' != 0 && best' == best {
      var s :| Considered(layout, columns, rows, s) && best == Energized(layout, s);
      assert Considered(layout, columns', rows', s);
    }
  }

  /** The pass of `part2` over column `x`: the beam tried downwards from the
      top and upwards from the bottom. */
  method TryColumn(layout: Layout, x: int, best: nat) returns (best': nat)
    requires 0 <= x <= layout.bottomRight.0 && RunningMax(layout, x, 0, best)
    ensures RunningMax(layout, x + 1, 0, best')
  {
    var a, b := ((x, 0), Down), ((x, layout.bottomRight.1), Up);
    var down := EnergizedCount(layout, a);
    var up := EnergizedCount(layout, b);
    best' := Max(Max(down, up), best);
    forall s | Considered(layout, x + 1, 0, s) ensures Considered(layout, x, 0, s) || s == a || s == b {
    }
    RunningMaxStep(layout, x, 0, x + 1, 0, best, a, b, best');
  }

  /** The pass of `part2` over row `y`: the beam tried rightwards from the
      left edge and leftwards from the right edge. */
  method TryRow(layout: Layout, columns: int, y: int, best: nat) returns (best': nat)
    requires 0 <= y <= layout.bottomRight.1 && RunningMax(layout, columns, y, best)
    ensures RunningMax(layout, columns, y + 1, best')
  {
    var a, b := ((0, y), Right), ((layout.bottomRight.0, y), Left);
    var rightwards := EnergizedCount(layout, a);
    var leftwards := EnergizedCount(layout, b);
    best' := Max(Max(rightwards, leftwards), best);
    forall s | Considered(layout, columns, y + 1, s) ensures Considered(layout, columns, y, s) || s == a || s == b {
    }
    RunningMaxStep(layout, columns, y, columns, y + 1, best, a, b, best');
  }

  /** Once every column and row is done, the considered starts are all the
      border starts. */
  lemma {:induction false} RunningMaxDone(layout: Layout, columns: int, rows: int, best: nat)
    requires columns > layout.bottomRight.0 && rows > layout.bottomRight.1
    requires RunningMax(layout, columns, rows, best)
    ensures forall s :: BorderStart(layout, s) ==> Energized(layout, s) <= best
    ensures best == 0 || exists s :: BorderStart(layout, s) && best == Energized(layout, s)
  {
    assert forall s :: BorderStart(layout, s) ==> Considered(layout, columns, rows, s);
  }

  /** Part two: the largest count over every start on the border heading
      inwards; 0 when there is none. */
  method Part2(layout: Layout) returns (best: nat)
    ensures forall s :: BorderStart(layout, s) ==> Energized(layout, s) <= best
    ensures best == 0 || exists s :: BorderStart(layout, s) && best == Energized(layout, s)
  {
    var (right, bottom) := layout.bottomRight;
    best := 0;
    var x := 0;
    while x <= right
      invariant x >= 0 && (x <= right + 1 || x == 0)
      invariant RunningMax(layout, x, 0, best)
      decreases right - x
    {
      best := TryColumn(layout, x, best);
      x := x + 1;
    }
    var y := 0;
    while y <= bottom
      invariant y >= 0 && (y <= bottom + 1 || y == 0) && x > right
      invariant RunningMax(layout, x, y, best)
      decreases bottom - y
    {
      best := TryRow(layout, x, y, best);
      y := y + 1;
    }
    RunningMaxDone(layout, x, y, best);
  }
}
