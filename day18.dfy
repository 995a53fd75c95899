/** Day 18, "Lavaduct Lagoon": a dig plan of straight trenches encloses a
    lagoon whose volume, boundary included, is found by compressing the
    coordinates of the corners into a grid of windows. */
module Day18 {
  import opened Common

  type Coordinates = (int, int)

  /** An edge along one axis: its smaller and larger ends on that axis. */
  type Edge = (int, int)

  /** The edges on each fixed line, by the line's coordinate. */
  type EdgeMap = map<int, seq<Edge>>

  datatype Direction = Right | Down | Left | Up

  /** A step of the plan: a direction and a length. */
  type Step = (Direction, int)

  function ToVector(d: Direction): Coordinates
  {
    match d
    case Left => (-1, 0)
    case Right => (1, 0)
    case Up => (0, -1)
    case Down => (0, 1)
  }

  predicate IsHorizontal(d: Direction)
  {
    d == Right || d == Left
  }

  /** `Direction * k`: a move of `k` along the direction's axis, forward for
      Right and Down and backward for Left and Up; the other coordinate is
      0. */
  function Scale(d: Direction, k: int): (r: Coordinates)
    ensures IsHorizontal(d) ==> r.1 == 0 && Abs(r.0) == Abs(k)
    ensures !IsHorizontal(d) ==> r.0 == 0 && Abs(r.1) == Abs(k)
    ensures r.0 + r.1 == if d == Right || d == Down then k else -k
  {
    var unit := ToVector(d);
    (unit.0 * k, unit.1 * k)
  }

  function Shift(p: Coordinates, d: Direction, k: int): Coordinates
  {
    var s := Scale(d, k);
    (p.0 + s.0, p.1 + s.1)
  }

  // ---------------------------------------------------------------------
  // The trench

  /** The corners of the trench: the origin and the end of every step. */
  function Vertices(plan: seq<Step>): (r: seq<Coordinates>)
    ensures |r| == |plan| + 1 && r[0] == (0, 0)
  {
    if plan == [] then [(0, 0)]
    else
      var before := Vertices(plan[..|plan| - 1]);
      var last := plan[|plan| - 1];
      before + [Shift(before[|before| - 1], last.0, last.1)]
  }

  /** The edge between two corners on the chosen axis, smaller end first. */
  function EdgeOf(a: int, b: int): (r: Edge)
    ensures r.0 <= r.1 && r.1 - r.0 == Abs(b - a)
    ensures {r.0, r.1} == {a, b}
  {
    (Min(a, b), Max(a, b))
  }

  /** Records an edge under the coordinate of its line. */
  function AddEdge(m: EdgeMap, key: int, e: Edge): (r: EdgeMap)
    ensures r.Keys == m.Keys + {key}
    ensures r[key] == (if key in m then m[key] else []) + [e]
    ensures forall k :: k in m && k != key ==> r[k] == m[k]
  {
    m[key := (if key in m then m[key] else []) + [e]]
  }

  /** The horizontal edges of the trench, keyed by their ordinate. */
  function HorizontalEdges(plan: seq<Step>): EdgeMap
  {
    if plan == [] then map[]
    else
      var front := plan[..|plan| - 1];
      var (d, k) := plan[|plan| - 1];
      var p := Vertices(front)[|front|];
      var q := Shift(p, d, k);
      if IsHorizontal(d) then AddEdge(HorizontalEdges(front), p.1, EdgeOf(p.0, q.0))
      else HorizontalEdges(front)
  }

  /** The vertical edges of the trench, keyed by their abscissa. */
  function VerticalEdges(plan: seq<Step>): EdgeMap
  {
    if plan == [] then map[]
    else
      var front := plan[..|plan| - 1];
      var (d, k) := plan[|plan| - 1];
      var p := Vertices(front)[|front|];
      var q := Shift(p, d, k);
      if IsHorizontal(d) then VerticalEdges(front)
      else AddEdge(VerticalEdges(front), p.0, EdgeOf(p.1, q.1))
  }

  /** The vertices of a longer plan extend those of its prefix. */
  lemma {:induction false} VerticesPrefix(plan: seq<Step>, i: nat)
    requires i < |plan|
    ensures Vertices(plan[..i + 1]) == Vertices(plan[..i]) + [Shift(Vertices(plan[..i])[i], plan[i].0, plan[i].1)]
  {
    assert plan[..i + 1][..i] == plan[..i];
  }

  /** Every edge is recorded smaller end first. */
  lemma {:induction false} EdgesOrdered(plan: seq<Step>)
    ensures forall y, k :: y in HorizontalEdges(plan) && 0 <= k < |HorizontalEdges(plan)[y]| ==>
      HorizontalEdges(plan)[y][k].0 <= HorizontalEdges(plan)[y][k].1
    ensures forall x, k :: x in VerticalEdges(plan) && 0 <= k < |VerticalEdges(plan)[x]| ==>
      VerticalEdges(plan)[x][k].0 <= VerticalEdges(plan)[x][k].1
  {
    if plan != [] {
      EdgesOrdered(plan[..|plan| - 1]);
    }
  }

  // ---------------------------------------------------------------------
  // The boundary

  /** The total length of a list of edges. */
  function EdgeSum(edges: seq<Edge>): int
  {
    if edges == [] then 0 else EdgeSum(edges[..|edges| - 1]) + (edges[|edges| - 1].1 - edges[|edges| - 1].0)
  }

  /** The lines of the horizontal edges, in the order they were first
      recorded. */
  function HorizontalLines(plan: seq<Step>): seq<int>
  {
    if plan == [] then []
    else
      var front := plan[..|plan| - 1];
      var p := Vertices(front)[|front|];
      if IsHorizontal(plan[|plan| - 1].0) && p.1 !in HorizontalEdges(front) then HorizontalLines(front) + [p.1]
      else HorizontalLines(front)
  }

  /** The lines of the vertical edges, in the order they were first
      recorded. */
  function VerticalLines(plan: seq<Step>): seq<int>
  {
    if plan == [] then []
    else
      var front := plan[..|plan| - 1];
      var p := Vertices(front)[|front|];
      if !IsHorizontal(plan[|plan| - 1].0) && p.0 !in VerticalEdges(front) then VerticalLines(front) + [p.0]
      else VerticalLines(front)
  }

  /** `keys` lists the keys of `m`, each once. */
  ghost predicate Lists(keys: seq<int>, m: EdgeMap)
  {
    && (forall i, j :: 0 <= i < j < |keys| ==> keys[i] != keys[j])
    && (forall k :: k in keys <==> k in m)
  }

  /** Recording an edge keeps the list of lines: a new line is appended. */
  lemma {:induction false} ListsAdd(keys: seq<int>, m: EdgeMap, key: int, e: Edge)
    requires Lists(keys, m)
    ensures Lists(if key in m then keys else keys + [key], AddEdge(m, key, e))
  {
  }

  /** The line lists name every line once. */
  lemma {:induction false} LinesListed(plan: seq<Step>)
    ensures Lists(HorizontalLines(plan), HorizontalEdges(plan))
    ensures Lists(VerticalLines(plan), VerticalEdges(plan))
  {
    if plan != [] {
      var front := plan[..|plan| - 1];
      LinesListed(front);
      var (d, k) := plan[|plan| - 1];
      var p := Vertices(front)[|front|];
      var q := Shift(p, d, k);
      if IsHorizontal(d) {
        ListsAdd(HorizontalLines(front), HorizontalEdges(front), p.1, EdgeOf(p.0, q.0));
      } else {
        ListsAdd(VerticalLines(front), VerticalEdges(front), p.0, EdgeOf(p.1, q.1));
      }
    }
  }

  /** The total length of the edges on the listed lines. */
  function KeySum(m: EdgeMap, keys: seq<int>): int
  {
    if keys == [] then 0
    else
      var key := keys[|keys| - 1];
      KeySum(m, keys[..|keys| - 1]) + (if key in m then EdgeSum(m[key]) else 0)
  }

  /** Lines whose edges are unchanged keep their sum. */
  lemma {:induction false} KeySumSame(m: EdgeMap, m': EdgeMap, keys: seq<int>)
    requires forall k :: k in keys ==> k in m && k in m' && m[k] == m'[k]
    ensures KeySum(m, keys) == KeySum(m', keys)
  {
    if keys != [] {
      KeySumSame(m, m', keys[..|keys| - 1]);
    }
  }

  /** Replacing the edges of one listed line changes the sum by the
      difference. */
  lemma {:induction false} KeySumUpdate(m: EdgeMap, keys: seq<int>, key: int, edges: seq<Edge>)
    requires Lists(keys, m) && key in m
    ensures KeySum(m[key := edges], keys) == KeySum(m, keys) - EdgeSum(m[key]) + EdgeSum(edges)
  {
    var front := keys[..|keys| - 1];
    var last := keys[|keys| - 1];
    var m' := m[key := edges];
    if last == key {
      assert key !in front;
      KeySumSame(m, m', front);
    } else {
      assert key in front by {
        assert key in keys;
        var i :| 0 <= i < |keys| && keys[i] == key;
        assert front[i] == key;
      }
      KeySumUpdate(m - {last}, front, key, edges);
      KeySumSame(m - {last}, m, front);
      KeySumSame((m - {last})[key := edges], m', front);
    }
  }

  /** The length of one more edge at the end of a list. */
  lemma {:induction false} EdgeSumAppend(edges: seq<Edge>, e: Edge)
    ensures EdgeSum(edges + [e]) == EdgeSum(edges) + (e.1 - e.0)
  {
    assert (edges + [e])[..|edges|] == edges;
  }

  /** Recording one more edge adds its length to the sum over the lines. */
  lemma {:induction false} KeySumAdd(m: EdgeMap, keys: seq<int>, key: int, e: Edge)
    requires Lists(keys, m)
    ensures KeySum(AddEdge(m, key, e), if key in m then keys else keys + [key]) == KeySum(m, keys) + (e.1 - e.0)
  {
    var m' := AddEdge(m, key, e);
    if key in m {
      EdgeSumAppend(m[key], e);
      KeySumUpdate(m, keys, key, m[key] + [e]);
    } else {
      assert (keys + [key])[..|keys|] == keys;
      KeySumSame(m, m', keys);
      EdgeSumAppend([], e);
    }
  }

  /** The lengths of the steps of the plan. */
  function Perimeter(plan: seq<Step>): int
  {
    if plan == [] then 0 else Perimeter(plan[..|plan| - 1]) + Abs(plan[|plan| - 1].1)
  }

  /** The boundary the source adds up over both edge maps is the total
      length of the steps. */
  lemma {:induction false} BoundaryIsPerimeter(plan: seq<Step>)
    ensures KeySum(HorizontalEdges(plan), HorizontalLines(plan)) + KeySum(VerticalEdges(plan), VerticalLines(plan)) == Perimeter(plan)
  {
    LinesListed(plan);
    if plan != [] {
      var front := plan[..|plan| - 1];
      BoundaryIsPerimeter(front);
      LinesListed(front);
      var (d, k) := plan[|plan| - 1];
      var p := Vertices(front)[|front|];
      var q := Shift(p, d, k);
      if IsHorizontal(d) {
        KeySumAdd(HorizontalEdges(front), HorizontalLines(front), p.1, EdgeOf(p.0, q.0));
      } else {
        KeySumAdd(VerticalEdges(front), VerticalLines(front), p.0, EdgeOf(p.1, q.1));
      }
    }
  }

  // ---------------------------------------------------------------------
  // Compressed coordinates

  predicate StrictlyIncreasing(s: seq<int>)
  {
    forall i, j :: 0 <= i < j < |s| ==> s[i] < s[j]
  }

  /** Puts `x` into an increasing list unless it is already there. */
  function Insert(s: seq<int>, x: int): (r: seq<int>)
    requires StrictlyIncreasing(s)
    ensures StrictlyIncreasing(r)
    ensures forall y :: y in r <==> y in s || y == x
  {
    if s == [] then [x]
    else if x < s[0] then [x] + s
    else if x == s[0] then s
    else
      var rest := Insert(s[1..], x);
      assert forall k | 0 <= k < |rest| :: rest[k] in rest;
      assert forall k | 1 <= k < |s| :: s[k] in s[1..];
      [s[0]] + rest
  }

  /** `sort_unstable` followed by `dedup`: the distinct values, increasing. */
  function SortedDistinct(xs: seq<int>): (r: seq<int>)
    ensures StrictlyIncreasing(r)
    ensures forall y :: y in r <==> y in xs
  {
    if xs == [] then []
    else Insert(SortedDistinct(xs[..|xs| - 1]), xs[|xs| - 1])
  }

  function Ordinates(vs: seq<Coordinates>): (r: seq<int>)
    ensures |r| == |vs| && forall i :: 0 <= i < |vs| ==> r[i] == vs[i].1
  {
    if vs == [] then [] else Ordinates(vs[..|vs| - 1]) + [vs[|vs| - 1].1]
  }

  function Abscissas(vs: seq<Coordinates>): (r: seq<int>)
    ensures |r| == |vs| && forall i :: 0 <= i < |vs| ==> r[i] == vs[i].0
  {
    if vs == [] then [] else Abscissas(vs[..|vs| - 1]) + [vs[|vs| - 1].0]
  }

  /** The number of windows (pairs of neighbours) of a list. */
  function Windows(s: seq<int>): nat
  {
    if |s| < 2 then 0 else |s| - 1
  }

  // ---------------------------------------------------------------------
  // The interior

  /** Some edge of the list reaches from `lo` to `hi`. */
  function Covers(edges: seq<Edge>, lo: int, hi: int): (r: bool)
    ensures r <==> exists k :: 0 <= k < |edges| && edges[k].0 <= lo && edges[k].1 >= hi
  {
    if edges == [] then false
    else (edges[0].0 <= lo && edges[0].1 >= hi) || Covers(edges[1..], lo, hi)
  }

  /** What an inside window from (x0, y0) to (x1, y1) adds: its interior,
      its top side unless a horizontal edge runs along it, its left side
      unless a vertical edge runs along it, and its top-left corner unless
      an edge passes through it. */
  function Cell(h: EdgeMap, v: EdgeMap, x0: int, x1: int, y0: int, y1: int): int
    requires x0 in v && y0 in h
  {
    Max(0, x1 - x0 - 1) * Max(0, y1 - y0 - 1)
      + (if !Covers(h[y0], x0, x1) then Max(0, x1 - x0 - 1) else 0)
      + (if !Covers(v[x0], y0, y1) then Max(0, y1 - y0 - 1) else 0)
      + (if !Covers(h[y0], x0, x0) && !Covers(v[x0], y0, y0) then 1 else 0)
  }

  /** The state after the first `j` windows of the row of windows between
      ordinates y0 and y1: whether the last window was inside, and what the
      row has added. None where the source's lookup of an edge list would
      fail. */
  function RowState(h: EdgeMap, v: EdgeMap, xs: seq<int>, y0: int, y1: int, j: nat): Option<(bool, int)>
    requires j <= Windows(xs)
  {
    if j == 0 then Some((false, 0))
    else
      match RowState(h, v, xs, y0, y1, j - 1)
      case None => None
      case Some((inside, added)) =>
        var x0 := xs[j - 1];
        if x0 !in v then None
        else
          var inside' := if Covers(v[x0], y0, y1) then !inside else inside;
          if !inside' then Some((inside', added))
          else if y0 !in h then None
          else Some((inside', added + Cell(h, v, x0, xs[j], y0, y1)))
  }

  /** The number of vertical edges spanning the row among the first `j`
      abscissas. */
  function Crossings(v: EdgeMap, xs: seq<int>, y0: int, y1: int, j: nat): nat
    requires j <= |xs| && forall k :: 0 <= k < j ==> xs[k] in v
  {
    if j == 0 then 0
    else Crossings(v, xs, y0, y1, j - 1) + (if Covers(v[xs[j - 1]], y0, y1) then 1 else 0)
  }

  /** A window is inside exactly when an odd number of vertical edges
      spanning its row lie at or left of it. */
  lemma {:induction false} InsideParity(h: EdgeMap, v: EdgeMap, xs: seq<int>, y0: int, y1: int, j: nat)
    requires j <= Windows(xs) && RowState(h, v, xs, y0, y1, j).Some?
    ensures forall k :: 0 <= k < j ==> xs[k] in v
    ensures RowState(h, v, xs, y0, y1, j).value.0 <==> Crossings(v, xs, y0, y1, j) % 2 == 1
  {
    if j > 0 {
      InsideParity(h, v, xs, y0, y1, j - 1);
    }
  }

  /** The interior added by the first `i` rows of windows. */
  function Interior(h: EdgeMap, v: EdgeMap, ys: seq<int>, xs: seq<int>, i: nat): Option<int>
    requires i <= Windows(ys)
  {
    if i == 0 then Some(0)
    else
      match Interior(h, v, ys, xs, i - 1)
      case None => None
      case Some(count) =>
        match RowState(h, v, xs, ys[i - 1], ys[i], Windows(xs))
        case None => None
        case Some((_, added)) => Some(count + added)
  }

  /** The volume of the lagoon: the interior of the compressed grid plus
      the boundary; None where an edge-list lookup of the source fails. */
  function Volume(plan: seq<Step>): Option<int>
  {
    var vs := Vertices(plan);
    var ys := SortedDistinct(Ordinates(vs));
    var xs := SortedDistinct(Abscissas(vs));
    match Interior(HorizontalEdges(plan), VerticalEdges(plan), ys, xs, Windows(ys))
    case None => None
    case Some(count) => Some(count + Perimeter(plan))
  }

  /** The corners of the rectangle have the two distinct ordinates 0 < b
      and the two distinct abscissas 0 < a. */
  lemma {:induction false} OrderedTwo(vs: seq<Coordinates>, a: int, b: int)
    requires a >= 1 && b >= 1 && vs == [(0, 0), (a, 0), (a, b), (0, b), (0, 0)]
    ensures SortedDistinct(Ordinates(vs)) == [0, b]
    ensures SortedDistinct(Abscissas(vs)) == [0, a]
  {
    OrderedOrdinates(vs, a, b);
    OrderedAbscissas(vs, a, b);
  }

  lemma {:induction false} OrderedOrdinates(vs: seq<Coordinates>, a: int, b: int)
    requires a >= 1 && b >= 1 && vs == [(0, 0), (a, 0), (a, b), (0, b), (0, 0)]
    ensures SortedDistinct(Ordinates(vs)) == [0, b]
  {
    var ys := Ordinates(vs);
    assert ys == [0, 0, b, b, 0];
    assert ys[..4] == [0, 0, b, b] && ys[..3] == [0, 0, b] && ys[..2] == [0, 0] && ys[..1] == [0];
    assert ys[..4][..3] == ys[..3] && ys[..3][..2] == ys[..2] && ys[..2][..1] == ys[..1] && ys[..1][..0] == [];
    assert SortedDistinct(ys[..1]) == [0];
    assert SortedDistinct(ys[..2]) == [0];
    assert [0][1..] == [] && [0, b][1..] == [b];
    assert Insert([0], b) == [0, b];
    assert SortedDistinct(ys[..3]) == [0, b];
    assert Insert([b], b) == [b];
    assert Insert([0, b], b) == [0, b];
    assert SortedDistinct(ys[..4]) == [0, b];
  }

  lemma {:induction false} OrderedAbscissas(vs: seq<Coordinates>, a: int, b: int)
    requires a >= 1 && b >= 1 && vs == [(0, 0), (a, 0), (a, b), (0, b), (0, 0)]
    ensures SortedDistinct(Abscissas(vs)) == [0, a]
  {
    var xs := Abscissas(vs);
    assert xs == [0, a, a, 0, 0];
    assert xs[..4] == [0, a, a, 0] && xs[..3] == [0, a, a] && xs[..2] == [0, a] && xs[..1] == [0];
    assert xs[..4][..3] == xs[..3] && xs[..3][..2] == xs[..2] && xs[..2][..1] == xs[..1] && xs[..1][..0] == [];
    assert SortedDistinct(xs[..1]) == [0];
    assert [0][1..] == [] && [0, a][1..] == [a];
    assert Insert([0], a) == [0, a];
    assert SortedDistinct(xs[..2]) == [0, a];
    assert Insert([a], a) == [a];
    assert Insert([0, a], a) == [0, a];
    assert SortedDistinct(xs[..3]) == [0, a];
    assert SortedDistinct(xs[..4]) == [0, a];
  }

  /** The plan with one more step, unfolded. */
  lemma {:induction false} TraceLast(front: seq<Step>, step: Step)
    ensures
      var plan := front + [step];
      var p := Vertices(front)[|front|];
      var q := Shift(p, step.0, step.1);
      && Vertices(plan) == Vertices(front) + [q]
      && HorizontalEdges(plan) == (if IsHorizontal(step.0) then AddEdge(HorizontalEdges(front), p.1, EdgeOf(p.0, q.0)) else HorizontalEdges(front))
      && VerticalEdges(plan) == (if IsHorizontal(step.0) then VerticalEdges(front) else AddEdge(VerticalEdges(front), p.0, EdgeOf(p.1, q.1)))
      && Perimeter(plan) == Perimeter(front) + Abs(step.1)
  {
    assert (front + [step])[..|front|] == front;
  }

  /** The first edge on a line. */
  lemma {:induction false} AddToEmpty(key: int, e: Edge)
    ensures AddEdge(map[], key, e) == map[key := [e]]
  {
    var empty: EdgeMap := map[];
    assert key !in empty;
    assert [] + [e] == [e];
  }

  /** The first side of the rectangle, rightwards. */
  lemma {:induction false} RectangleSide1(a: int)
    requires a >= 1
    ensures
      var plan: seq<Step> := [(Right, a)];
      && Vertices(plan) == [(0, 0), (a, 0)]
      && HorizontalEdges(plan) == map[0 := [(0, a)]]
      && VerticalEdges(plan) == map[]
      && Perimeter(plan) == a
  {
    TraceLast([], (Right, a));
    assert [] + [(Right, a)] == [(Right, a)];
    assert Shift((0, 0), Right, a) == (a, 0);
    assert EdgeOf(0, a) == (0, a);
    AddToEmpty(0, (0, a));
  }

  /** The second side, downwards. */
  lemma {:induction false} RectangleSide2(a: int, b: int)
    requires a >= 1 && b >= 1
    ensures
      var plan: seq<Step> := [(Right, a), (Down, b)];
      && Vertices(plan) == [(0, 0), (a, 0), (a, b)]
      && HorizontalEdges(plan) == map[0 := [(0, a)]]
      && VerticalEdges(plan) == map[a := [(0, b)]]
      && Perimeter(plan) == a + b
  {
    RectangleSide1(a);
    TraceLast([(Right, a)], (Down, b));
    assert [(Right, a)] + [(Down, b)] == [(Right, a), (Down, b)];
    assert Shift((a, 0), Down, b) == (a, b);
    assert EdgeOf(0, b) == (0, b);
    AddToEmpty(a, (0, b));
  }

  /** The third side, leftwards. */
  lemma {:induction false} RectangleSide3(a: int, b: int)
    requires a >= 1 && b >= 1
    ensures
      var plan: seq<Step> := [(Right, a), (Down, b), (Left, a)];
      && Vertices(plan) == [(0, 0), (a, 0), (a, b), (0, b)]
      && HorizontalEdges(plan) == map[0 := [(0, a)], b := [(0, a)]]
      && VerticalEdges(plan) == map[a := [(0, b)]]
      && Perimeter(plan) == 2 * a + b
  {
    RectangleSide2(a, b);
    TraceLast([(Right, a), (Down, b)], (Left, a));
    assert [(Right, a), (Down, b)] + [(Left, a)] == [(Right, a), (Down, b), (Left, a)];
    assert Shift((a, b), Left, a) == (0, b);
    assert EdgeOf(a, 0) == (0, a);
    var m: EdgeMap := map[0 := [(0, a)]];
    assert b !in m;
    assert AddEdge(m, b, (0, a)) == map[0 := [(0, a)], b := [(0, a)]];
  }

  /** The trench of the rectangle: its corners, edges and length. */
  lemma {:induction false} RectangleTrace(a: int, b: int)
    requires a >= 1 && b >= 1
    ensures
      var plan := [(Right, a), (Down, b), (Left, a), (Up, b)];
      && Vertices(plan) == [(0, 0), (a, 0), (a, b), (0, b), (0, 0)]
      && HorizontalEdges(plan) == map[0 := [(0, a)], b := [(0, a)]]
      && VerticalEdges(plan) == map[a := [(0, b)], 0 := [(0, b)]]
      && Perimeter(plan) == 2 * a + 2 * b
  {
    RectangleSide3(a, b);
    TraceLast([(Right, a), (Down, b), (Left, a)], (Up, b));
    assert [(Right, a), (Down, b), (Left, a)] + [(Up, b)] == [(Right, a), (Down, b), (Left, a), (Up, b)];
    assert Shift((0, b), Up, b) == (0, 0);
    assert EdgeOf(b, 0) == (0, b);
    var m: EdgeMap := map[a := [(0, b)]];
    assert 0 !in m;
    assert AddEdge(m, 0, (0, b)) == map[a := [(0, b)], 0 := [(0, b)]];
  }

  /** A rectangle a wide and b high holds (a + 1) * (b + 1) cubes. */
  lemma {:induction false} RectangleVolume(a: int, b: int)
    requires a >= 1 && b >= 1
    ensures Volume([(Right, a), (Down, b), (Left, a), (Up, b)]) == Some((a + 1) * (b + 1))
  {
    var plan := [(Right, a), (Down, b), (Left, a), (Up, b)];
    RectangleTrace(a, b);
    var vs := Vertices(plan);
    var h := HorizontalEdges(plan);
    var v := VerticalEdges(plan);
    OrderedTwo(vs, a, b);
    var ys := SortedDistinct(Ordinates(vs));
    var xs := SortedDistinct(Abscissas(vs));
    RectangleInterior(a, b, h, v);
    assert (a - 1) * (b - 1) + (2 * a + 2 * b) == (a + 1) * (b + 1);
  }

  /** The one window of the rectangle is inside and adds its interior. */
  lemma {:induction false} RectangleInterior(a: int, b: int, h: EdgeMap, v: EdgeMap)
    requires a >= 1 && b >= 1
    requires h == map[0 := [(0, a)], b := [(0, a)]] && v == map[a := [(0, b)], 0 := [(0, b)]]
    ensures Interior(h, v, [0, b], [0, a], 1) == Some((a - 1) * (b - 1))
  {
    assert Windows([0, a]) == 1 && Windows([0, b]) == 1;
    assert Covers(v[0], 0, b) && Covers(h[0], 0, a) && Covers(h[0], 0, 0);
    assert Cell(h, v, 0, a, 0, b) == (a - 1) * (b - 1);
    assert RowState(h, v, [0, a], 0, b, 1) == Some((true, (a - 1) * (b - 1)));
  }

  // ---------------------------------------------------------------------
  // The computation

  /** The invariant of the loop over the plan. */
  ghost predicate Traced(plan: seq<Step>, i: nat, coordinates: Coordinates, vertices: seq<Coordinates>,
                         horizontal: EdgeMap, vertical: EdgeMap)
  {
    && i <= |plan|
    && vertices == Vertices(plan[..i])
    && coordinates == vertices[i]
    && horizontal == HorizontalEdges(plan[..i])
    && vertical == VerticalEdges(plan[..i])
  }

  /** One step of the plan: the edge is recorded on its line and the next
      corner appended. */
  method TraceStep(plan: seq<Step>, i: nat, coordinates: Coordinates, vertices: seq<Coordinates>,
                   horizontal: EdgeMap, vertical: EdgeMap)
    returns (coordinates': Coordinates, vertices': seq<Coordinates>, horizontal': EdgeMap, vertical': EdgeMap)
    requires i < |plan| && Traced(plan, i, coordinates, vertices, horizontal, vertical)
    ensures Traced(plan, i + 1, coordinates', vertices', horizontal', vertical')
  {
    var (direction, length) := plan[i];
    var shift := Scale(direction, length);
    var newCoordinates := (coordinates.0 + shift.0, coordinates.1 + shift.1);
    horizontal', vertical' := horizontal, vertical;
    if IsHorizontal(direction) {
      horizontal' := AddEdge(horizontal, coordinates.1, (Min(coordinates.0, newCoordinates.0), Max(coordinates.0, newCoordinates.0)));
    } else {
      vertical' := AddEdge(vertical, coordinates.0, (Min(coordinates.1, newCoordinates.1), Max(coordinates.1, newCoordinates.1)));
    }
    coordinates' := newCoordinates;
    vertices' := vertices + [coordinates'];
    VerticesPrefix(plan, i);
    assert plan[..i + 1][..i] == plan[..i];
  }

  /** One row of windows between ordinates y0 and y1: the inner loop of
      `lagoon_volume`. */
  method ScanRow(h: EdgeMap, v: EdgeMap, xs: seq<int>, y0: int, y1: int) returns (r: Option<int>)
    ensures r == (match RowState(h, v, xs, y0, y1, Windows(xs)) case None => None case Some((_, added)) => Some(added))
  {
    var added := 0;
    var inside := false;
    var j := 0;
    while j + 1 < |xs|
      invariant j <= Windows(xs) && RowState(h, v, xs, y0, y1, j) == Some((inside, added))
    {
      var x0 := xs[j];
      var x1 := xs[j + 1];
      if x0 !in v {
        assert RowState(h, v, xs, y0, y1, j + 1) == None;
        NoneStays(h, v, xs, y0, y1, j + 1);
        return None;
      }
      if Covers(v[x0], y0, y1) {
        inside := !inside;
      }
      if inside {
        if y0 !in h {
          assert RowState(h, v, xs, y0, y1, j + 1) == None;
          NoneStays(h, v, xs, y0, y1, j + 1);
          return None;
        }
        added := added + Max(0, x1 - x0 - 1) * Max(0, y1 - y0 - 1);
        if !Covers(h[y0], x0, x1) {
          added := added + Max(0, x1 - x0 - 1);
        }
        if !Covers(v[x0], y0, y1) {
          added := added + Max(0, y1 - y0 - 1);
        }
        if !Covers(h[y0], x0, x0) && !Covers(v[x0], y0, y0) {
          added := added + 1;
        }
      }
      j := j + 1;
    }
    assert j == Windows(xs);
    return Some(added);
  }

  /** A failed lookup stays failed for the rest of the row. */
  lemma {:induction false} NoneStays(h: EdgeMap, v: EdgeMap, xs: seq<int>, y0: int, y1: int, j: nat)
    requires j <= Windows(xs) && RowState(h, v, xs, y0, y1, j).None?
    ensures RowState(h, v, xs, y0, y1, Windows(xs)).None?
    decreases Windows(xs) - j
  {
    if j < Windows(xs) {
      NoneStays(h, v, xs, y0, y1, j + 1);
    }
  }

  /** A failed row stays failed for the rest of the rows. */
  lemma {:induction false} InteriorNoneStays(h: EdgeMap, v: EdgeMap, ys: seq<int>, xs: seq<int>, i: nat)
    requires i <= Windows(ys) && Interior(h, v, ys, xs, i).None?
    ensures Interior(h, v, ys, xs, Windows(ys)).None?
    decreases Windows(ys) - i
  {
    if i < Windows(ys) {
      InteriorNoneStays(h, v, ys, xs, i + 1);
    }
  }

  /** Adds up the lengths of all edges of a map, line by line in the order
      of `keys`. */
  method SumEdges(m: EdgeMap, keys: seq<int>) returns (total: int)
    ensures total == KeySum(m, keys)
  {
    total := 0;
    var n := 0;
    while n < |keys|
      invariant n <= |keys| && total == KeySum(m, keys[..n])
    {
      assert keys[..n + 1][..n] == keys[..n];
      var lengths := 0;
      if keys[n] in m {
        var edges := m[keys[n]];
        var i := 0;
        while i < |edges|
          invariant i <= |edges| && lengths == EdgeSum(edges[..i])
        {
          assert edges[..i + 1][..i] == edges[..i];
          lengths := lengths + (edges[i].1 - edges[i].0);
          i := i + 1;
        }
        assert edges[..i] == edges;
      }
      total := total + lengths;
      n := n + 1;
    }
    assert keys[..n] == keys;
  }

  /** `lagoon_volume`: traces the plan into corners and edges, scans the
      windows between consecutive distinct coordinates row by row, and adds
      the boundary. */
  method LagoonVolume(plan: seq<Step>) returns (r: Option<int>)
    ensures r == Volume(plan)
  {
    var vertices, horizontal, vertical := TracePlan(plan);
    var ordinates := SortedDistinct(Ordinates(vertices));
    var abscissas := SortedDistinct(Abscissas(vertices));
    var interior := ScanRows(horizontal, vertical, ordinates, abscissas);
    if interior.None? {
      return None;
    }
    // The source adds the edge lengths in the hash order of the lines; the
    // model takes them in the order the lines were first recorded.
    var horizontalLength := SumEdges(horizontal, HorizontalLines(plan));
    var verticalLength := SumEdges(vertical, VerticalLines(plan));
    BoundaryIsPerimeter(plan);
    assert horizontalLength + verticalLength == Perimeter(plan);
    return Some(interior.value + horizontalLength + verticalLength);
  }

  /** The first loop of `lagoon_volume`: the corners and the edges of the
      trench. */
  method TracePlan(plan: seq<Step>) returns (vertices: seq<Coordinates>, horizontal: EdgeMap, vertical: EdgeMap)
    ensures vertices == Vertices(plan)
    ensures horizontal == HorizontalEdges(plan) && vertical == VerticalEdges(plan)
  {
    var coordinates := (0, 0);
    horizontal, vertical := map[], map[];
    vertices := [coordinates];
    var i := 0;
    while i < |plan|
      invariant Traced(plan, i, coordinates, vertices, horizontal, vertical)
    {
      coordinates, vertices, horizontal, vertical := TraceStep(plan, i, coordinates, vertices, horizontal, vertical);
      i := i + 1;
    }
    assert plan[..i] == plan;
  }

  /** The window loops of `lagoon_volume`: the interior, row by row. */
  method ScanRows(h: EdgeMap, v: EdgeMap, ys: seq<int>, xs: seq<int>) returns (r: Option<int>)
    ensures r == Interior(h, v, ys, xs, Windows(ys))
  {
    var count := 0;
    var w := 0;
    while w + 1 < |ys|
      invariant w <= Windows(ys) && Interior(h, v, ys, xs, w) == Some(count)
    {
      var added := ScanRow(h, v, xs, ys[w], ys[w + 1]);
      if added.None? {
        InteriorNoneStays(h, v, ys, xs, w + 1);
        return None;
      }
      count := count + added.value;
      w := w + 1;
    }
    assert w == Windows(ys);
    return Some(count);
  }

  /** A line of the dig plan: direction and length, then the length and
      direction read from the colour code. */
  type Instruction = (Direction, int, int, Direction)

  /** The plan of part one: the first direction and length of each line. */
  function FirstReading(instructions: seq<Instruction>): (plan: seq<Step>)
    ensures |plan| == |instructions|
    ensures forall i :: 0 <= i < |plan| ==> plan[i] == (instructions[i].0, instructions[i].1)
  {
    seq(|instructions|, i requires 0 <= i < |instructions| => (instructions[i].0, instructions[i].1))
  }

  /** The plan of part two: the length and direction of the colour codes. */
  function SecondReading(instructions: seq<Instruction>): (plan: seq<Step>)
    ensures |plan| == |instructions|
    ensures forall i :: 0 <= i < |plan| ==> plan[i] == (instructions[i].3, instructions[i].2)
  {
    seq(|instructions|, i requires 0 <= i < |instructions| => (instructions[i].3, instructions[i].2))
  }

  method Part1(instructions: seq<Instruction>) returns (r: Option<int>)
    ensures r == Volume(FirstReading(instructions))
  {
    r := LagoonVolume(FirstReading(instructions));
  }

  method Part2(instructions: seq<Instruction>) returns (r: Option<int>)
    ensures r == Volume(SecondReading(instructions))
  {
    r := LagoonVolume(SecondReading(instructions));
  }
}
