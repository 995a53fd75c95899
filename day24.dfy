/** Day 24, "Never Tell Me The Odds": hailstones fly in straight lines at
    constant velocity. Part one ignores the z axis and counts the pairs of
    hailstones whose future paths cross inside a square test area.
    Coordinates are compared as exact rationals, modelled here by `real`. */
module Day24 {
  import opened Common

  type Vec2 = (int, int)
  type Vec3 = (int, int, int)

  /** A hailstone in the plane: its position and its velocity. */
  type Trajectory2 = (Vec2, Vec2)
  type Trajectory3 = (Vec3, Vec3)

  const MinAreaCoordinate: int := 200_000_000_000_000
  const MaxAreaCoordinate: int := 400_000_000_000_000
  const AreaBottomLeft: Vec2 := (MinAreaCoordinate, MinAreaCoordinate)
  const AreaTopRight: Vec2 := (MaxAreaCoordinate, MaxAreaCoordinate)

  /** `signum` of a rational. */
  function Sign(r: real): (s: int)
    ensures s == 1 <==> r > 0.0
    ensures s == -1 <==> r < 0.0
    ensures s == 0 <==> r == 0.0
  {
    if r > 0.0 then 1 else if r < 0.0 then -1 else 0
  }

  /** `signum` of an integer. */
  function Signum(n: int): (s: int)
    ensures s == Sign(n as real)
  {
    if n > 0 then 1 else if n < 0 then -1 else 0
  }

  // ---------------------------------------------------------------------
  // The meaning of a crossing

  /** Where the hailstone is after time `s`. */
  function At(h: Trajectory2, s: real): (real, real)
  {
    (h.0.0 as real + s * h.1.0 as real, h.0.1 as real + s * h.1.1 as real)
  }

  /** The point lies in the test area, edges included. */
  predicate InArea(p: (real, real), bottomLeft: Vec2, topRight: Vec2)
  {
    && bottomLeft.0 as real <= p.0 <= topRight.0 as real
    && bottomLeft.1 as real <= p.1 <= topRight.1 as real
  }

  /** The two velocities are parallel (their cross product is zero). */
  predicate Parallel(h1: Trajectory2, h2: Trajectory2)
  {
    h1.1.0 * h2.1.1 == h1.1.1 * h2.1.0
  }

  /** The two paths are not parallel and meet, at a strictly future time
      of each hailstone (not necessarily the same time), inside the area. */
  ghost predicate Crosses(h1: Trajectory2, h2: Trajectory2, bottomLeft: Vec2, topRight: Vec2)
  {
    && !Parallel(h1, h2)
    && exists s1: real, s2: real ::
         && s1 > 0.0 && s2 > 0.0
         && At(h1, s1) == At(h2, s2)
         && InArea(At(h1, s1), bottomLeft, topRight)
  }

  // ---------------------------------------------------------------------
  // intersect_2d

  /** The hailstone starts outside the area on one axis and moves further
      away on that axis. */
  predicate MovesAway(h: Trajectory2, bottomLeft: Vec2, topRight: Vec2)
  {
    || (h.0.0 < bottomLeft.0 && h.1.0 < 0)
    || (h.0.0 > topRight.0 && h.1.0 > 0)
    || (h.0.1 < bottomLeft.1 && h.1.1 < 0)
    || (h.0.1 > topRight.1 && h.1.1 > 0)
  }

  /** The slope `vy / vx` of the path; the source builds it as a rational
      with denominator `vx`, which panics when `vx` is zero. */
  function Slope(h: Trajectory2): real
    requires h.1.0 != 0
  {
    h.1.1 as real / h.1.0 as real
  }

  /** Where the path meets the y axis: `y - slope * x`. */
  function Offset(h: Trajectory2): real
    requires h.1.0 != 0
  {
    h.0.1 as real - Slope(h) * h.0.0 as real
  }

  /** Two paths with different slopes meet where x is this. */
  function CrossX(h1: Trajectory2, h2: Trajectory2): real
    requires h1.1.0 != 0 && h2.1.0 != 0 && Slope(h1) != Slope(h2)
  {
    (Offset(h2) - Offset(h1)) / (Slope(h1) - Slope(h2))
  }

  /** ... and y is this, read off the first path. */
  function CrossY(h1: Trajectory2, h2: Trajectory2): real
    requires h1.1.0 != 0 && h2.1.0 != 0 && Slope(h1) != Slope(h2)
  {
    Slope(h1) * CrossX(h1, h2) + Offset(h1)
  }

  /** The final test of `intersect_2d`: the meeting point is in the area,
      and on each axis it lies, from each start, on the side its velocity
      points to (a zero velocity on y asks for the same y). */
  predicate CrossingAhead(h1: Trajectory2, h2: Trajectory2, bottomLeft: Vec2, topRight: Vec2)
    requires h1.1.0 != 0 && h2.1.0 != 0 && Slope(h1) != Slope(h2)
  {
    var x := CrossX(h1, h2);
    var y := CrossY(h1, h2);
    && x >= bottomLeft.0 as real
    && x <= topRight.0 as real
    && y >= bottomLeft.1 as real
    && y <= topRight.1 as real
    && Sign(x - h1.0.0 as real) == Signum(h1.1.0)
    && Sign(y - h1.0.1 as real) == Signum(h1.1.1)
    && Sign(x - h2.0.0 as real) == Signum(h2.1.0)
    && Sign(y - h2.0.1 as real) == Signum(h2.1.1)
  }

  /** `intersect_2d`. `None` stands for the panic of building a slope with
      a zero denominator, which happens exactly when neither hailstone is
      rejected early and one of them has no horizontal velocity. */
  function Intersect2d(h1: Trajectory2, h2: Trajectory2, bottomLeft: Vec2, topRight: Vec2): (r: Option<bool>)
    ensures r.None? <==>
      !MovesAway(h1, bottomLeft, topRight) && !MovesAway(h2, bottomLeft, topRight)
      && (h1.1.0 == 0 || h2.1.0 == 0)
    ensures MovesAway(h1, bottomLeft, topRight) || MovesAway(h2, bottomLeft, topRight) ==> r == Some(false)
    ensures r.Some? && Parallel(h1, h2) ==> r == Some(false)
  {
    if MovesAway(h1, bottomLeft, topRight) || MovesAway(h2, bottomLeft, topRight) then
      Some(false)
    else if h1.1.0 == 0 || h2.1.0 == 0 then
      None
    else if Slope(h1) == Slope(h2) then
      Some(false)
    else
      SlopesEqual(h1, h2);
      Some(CrossingAhead(h1, h2, bottomLeft, topRight))
  }

  /** Equal slopes mean parallel velocities. */
  lemma SlopesEqual(h1: Trajectory2, h2: Trajectory2)
    requires h1.1.0 != 0 && h2.1.0 != 0
    ensures Slope(h1) == Slope(h2) <==> Parallel(h1, h2)
  {
    var vx1, vy1, vx2, vy2 := h1.1.0 as real, h1.1.1 as real, h2.1.0 as real, h2.1.1 as real;
    var a1, a2 := Slope(h1), Slope(h2);
    assert a1 * vx1 == vy1;
    assert a2 * vx2 == vy2;
    assert vx1 * vx2 != 0.0;
    assert vy1 * vx2 == a1 * (vx1 * vx2);
    assert vy2 * vx1 == a2 * (vx1 * vx2);
    assert (h1.1.0 * h2.1.1) as real == vx1 * vy2;
    assert (h1.1.1 * h2.1.0) as real == vy1 * vx2;
  }

  /** A hailstone that moves away from the area never comes back to it. */
  lemma MovesAwayNeverInside(h: Trajectory2, s: real, bottomLeft: Vec2, topRight: Vec2)
    requires MovesAway(h, bottomLeft, topRight) && s > 0.0
    ensures !InArea(At(h, s), bottomLeft, topRight)
  {
    var vx, vy := h.1.0 as real, h.1.1 as real;
    if h.1.0 < 0 { assert s * vx < 0.0; }
    if h.1.0 > 0 { assert s * vx > 0.0; }
    if h.1.1 < 0 { assert s * vy < 0.0; }
    if h.1.1 > 0 { assert s * vy > 0.0; }
  }

  /** A point after time `s > 0` lies on the line `y = slope * x + offset`
      and on the side of the start that the velocity points to. */
  lemma OnPath(h: Trajectory2, s: real)
    requires h.1.0 != 0 && s > 0.0
    ensures At(h, s).1 == Slope(h) * At(h, s).0 + Offset(h)
    ensures Sign(At(h, s).0 - h.0.0 as real) == Signum(h.1.0)
    ensures Sign(At(h, s).1 - h.0.1 as real) == Signum(h.1.1)
  {
    var vx, vy := h.1.0 as real, h.1.1 as real;
    var a := Slope(h);
    assert a * vx == vy;
    assert At(h, s).1 - h.0.1 as real == s * vy;
    assert At(h, s).0 - h.0.0 as real == s * vx;
    assert a * (s * vx) == s * vy;
    if vx > 0.0 { assert s * vx > 0.0; } else { assert s * vx < 0.0; }
    if vy > 0.0 { assert s * vy > 0.0; } else if vy < 0.0 { assert s * vy < 0.0; }
  }

  /** A point on the line, on the side of the start that the velocity
      points to, is where the hailstone is at some future time. */
  lemma ReachedFromStart(h: Trajectory2, x: real) returns (s: real)
    requires h.1.0 != 0
    requires Sign(x - h.0.0 as real) == Signum(h.1.0)
    ensures s > 0.0
    ensures At(h, s).0 == x
    ensures At(h, s).1 == Slope(h) * x + Offset(h)
  {
    var x0, y0, vx, vy := h.0.0 as real, h.0.1 as real, h.1.0 as real, h.1.1 as real;
    var a := Slope(h);
    s := (x - x0) / vx;
    assert s * vx == x - x0;
    QuotientPositive(x - x0, vx);
    assert a * vx == vy;
    assert s * vy == a * (x - x0) by {
      assert s * (a * vx) == a * (s * vx);
    }
    assert a * (x - x0) == a * x - a * x0;
    assert Offset(h) == y0 - a * x0;
    assert At(h, s).0 == x0 + s * vx == x;
    assert At(h, s).1 == y0 + s * vy == a * x + Offset(h);
  }

  lemma QuotientPositive(p: real, q: real)
    requires (p > 0.0 && q > 0.0) || (p < 0.0 && q < 0.0)
    ensures p / q > 0.0
  {
    assert p / q * q == p;
  }

  /** Two lines with different slopes meet at exactly one x. */
  lemma LinesMeet(a1: real, b1: real, a2: real, b2: real, x: real)
    requires a1 != a2
    ensures a1 * x + b1 == a2 * x + b2 <==> x == (b2 - b1) / (a1 - a2)
  {
    if a1 * x + b1 == a2 * x + b2 {
      assert (a1 - a2) * x == b2 - b1;
    }
    if x == (b2 - b1) / (a1 - a2) {
      assert (a1 - a2) * x == b2 - b1;
    }
  }

  /** `intersect_2d` answers, when it does not panic, exactly whether the
      two paths cross in the future of both hailstones inside the area. */
  lemma Intersect2dMeaning(h1: Trajectory2, h2: Trajectory2, bottomLeft: Vec2, topRight: Vec2)
    requires Intersect2d(h1, h2, bottomLeft, topRight).Some?
    ensures Intersect2d(h1, h2, bottomLeft, topRight).value <==> Crosses(h1, h2, bottomLeft, topRight)
  {
    if MovesAway(h1, bottomLeft, topRight) || MovesAway(h2, bottomLeft, topRight) {
      if Crosses(h1, h2, bottomLeft, topRight) {
        var s1: real, s2: real :| s1 > 0.0 && s2 > 0.0 && At(h1, s1) == At(h2, s2)
          && InArea(At(h1, s1), bottomLeft, topRight);
        if MovesAway(h1, bottomLeft, topRight) {
          MovesAwayNeverInside(h1, s1, bottomLeft, topRight);
        } else {
          MovesAwayNeverInside(h2, s2, bottomLeft, topRight);
        }
      }
    } else {
      SlopesEqual(h1, h2);
      if Slope(h1) != Slope(h2) {
        if CrossingAhead(h1, h2, bottomLeft, topRight) {
          AheadCrosses(h1, h2, bottomLeft, topRight);
        }
        if Crosses(h1, h2, bottomLeft, topRight) {
          CrossesAhead(h1, h2, bottomLeft, topRight);
        }
      }
    }
  }

  /** A meeting point that passes the final test is a crossing. */
  lemma AheadCrosses(h1: Trajectory2, h2: Trajectory2, bottomLeft: Vec2, topRight: Vec2)
    requires h1.1.0 != 0 && h2.1.0 != 0 && Slope(h1) != Slope(h2) && !Parallel(h1, h2)
    requires CrossingAhead(h1, h2, bottomLeft, topRight)
    ensures Crosses(h1, h2, bottomLeft, topRight)
  {
    var x := CrossX(h1, h2);
    CrossOnSecond(h1, h2);
    var s1 := ReachedFromStart(h1, x);
    var s2 := ReachedFromStart(h2, x);
    Witness(h1, h2, s1, s2, bottomLeft, topRight);
  }

  /** The meeting point lies on the second path too. */
  lemma CrossOnSecond(h1: Trajectory2, h2: Trajectory2)
    requires h1.1.0 != 0 && h2.1.0 != 0 && Slope(h1) != Slope(h2)
    ensures CrossY(h1, h2) == Slope(h2) * CrossX(h1, h2) + Offset(h2)
  {
    LinesMeet(Slope(h1), Offset(h1), Slope(h2), Offset(h2), CrossX(h1, h2));
  }

  /** Future positions of two non-parallel hailstones at one point of the
      area witness a crossing. */
  lemma Witness(h1: Trajectory2, h2: Trajectory2, s1: real, s2: real, bottomLeft: Vec2, topRight: Vec2)
    requires !Parallel(h1, h2) && s1 > 0.0 && s2 > 0.0
    requires At(h1, s1).0 == At(h2, s2).0 && At(h1, s1).1 == At(h2, s2).1
    requires InArea(At(h1, s1), bottomLeft, topRight)
    ensures Crosses(h1, h2, bottomLeft, topRight)
  {
    assert At(h1, s1) == At(h2, s2);
  }

  /** A point on both lines is the meeting point `intersect_2d` computes. */
  lemma OnBothLines(h1: Trajectory2, h2: Trajectory2, p: (real, real))
    requires h1.1.0 != 0 && h2.1.0 != 0 && Slope(h1) != Slope(h2)
    requires p.1 == Slope(h1) * p.0 + Offset(h1) && p.1 == Slope(h2) * p.0 + Offset(h2)
    ensures p.0 == CrossX(h1, h2) && p.1 == CrossY(h1, h2)
  {
    LinesMeet(Slope(h1), Offset(h1), Slope(h2), Offset(h2), p.0);
    assert p.0 == CrossX(h1, h2);
  }

  /** A crossing passes the final test. */
  lemma CrossesAhead(h1: Trajectory2, h2: Trajectory2, bottomLeft: Vec2, topRight: Vec2)
    requires h1.1.0 != 0 && h2.1.0 != 0 && Slope(h1) != Slope(h2)
    requires Crosses(h1, h2, bottomLeft, topRight)
    ensures CrossingAhead(h1, h2, bottomLeft, topRight)
  {
    var s1: real, s2: real :| s1 > 0.0 && s2 > 0.0 && At(h1, s1) == At(h2, s2)
      && InArea(At(h1, s1), bottomLeft, topRight);
    AheadFrom(h1, h2, s1, s2, bottomLeft, topRight);
  }

  /** Future positions of the two hailstones at one point of the area
      pass the final test. */
  lemma AheadFrom(h1: Trajectory2, h2: Trajectory2, s1: real, s2: real, bottomLeft: Vec2, topRight: Vec2)
    requires h1.1.0 != 0 && h2.1.0 != 0 && Slope(h1) != Slope(h2) && s1 > 0.0 && s2 > 0.0
    requires At(h1, s1).0 == At(h2, s2).0 && At(h1, s1).1 == At(h2, s2).1
    requires InArea(At(h1, s1), bottomLeft, topRight)
    ensures CrossingAhead(h1, h2, bottomLeft, topRight)
  {
    OnPath(h1, s1);
    OnPath(h2, s2);
    OnBothLines(h1, h2, At(h1, s1));
  }

  // ---------------------------------------------------------------------
  // count_intersections_2d

  /** The number of pairs (i, k), i < k < j, that `hit` accepts. */
  function RowHits(hit: (int, int) -> bool, i: int, j: int): (n: nat)
    requires i < j
    ensures n <= j - i - 1
    decreases j - i
  {
    if j == i + 1 then 0
    else RowHits(hit, i, j - 1) + (if hit(i, j - 1) then 1 else 0)
  }

  /** The number of pairs (i, j), i < n and i < j < m, that `hit`
      accepts: the count the nested loops build, row by row. */
  function Hits(hit: (int, int) -> bool, n: nat, m: nat): nat
    requires n <= m
  {
    if n == 0 then 0
    else Hits(hit, n - 1, m) + RowHits(hit, n - 1, m)
  }

  /** The accepted pairs of one row. */
  ghost function RowPairs(hit: (int, int) -> bool, i: int, j: int): set<(int, int)>
  {
    set k | i < k < j && hit(i, k) :: (i, k)
  }

  /** The accepted pairs i < j, with i below `n` and j below `m`. */
  ghost function AcceptedPairs(hit: (int, int) -> bool, n: nat, m: nat): set<(int, int)>
  {
    set i, j | 0 <= i < n && i < j < m && hit(i, j) :: (i, j)
  }

  lemma {:induction false} RowHitsCount(hit: (int, int) -> bool, i: int, j: int)
    requires i < j
    ensures RowHits(hit, i, j) == |RowPairs(hit, i, j)|
    decreases j - i
  {
    if j == i + 1 {
      assert RowPairs(hit, i, j) == {};
    } else {
      RowHitsCount(hit, i, j - 1);
      var before := RowPairs(hit, i, j - 1);
      if hit(i, j - 1) {
        assert RowPairs(hit, i, j) == before + {(i, j - 1)};
      } else {
        assert RowPairs(hit, i, j) == before;
      }
    }
  }

  /** `Hits` counts every accepted unordered pair exactly once. */
  lemma {:induction false} HitsCount(hit: (int, int) -> bool, n: nat, m: nat)
    requires n <= m
    ensures Hits(hit, n, m) == |AcceptedPairs(hit, n, m)|
  {
    if n == 0 {
      assert AcceptedPairs(hit, n, m) == {};
    } else {
      HitsCount(hit, n - 1, m);
      RowHitsCount(hit, n - 1, m);
      AcceptedPairsStep(hit, n, m);
    }
  }

  /** The accepted pairs below `n` are those below `n - 1` and the row of
      `n - 1`, which share nothing. */
  lemma AcceptedPairsStep(hit: (int, int) -> bool, n: nat, m: nat)
    requires 0 < n <= m
    ensures AcceptedPairs(hit, n, m) == AcceptedPairs(hit, n - 1, m) + RowPairs(hit, n - 1, m)
    ensures AcceptedPairs(hit, n - 1, m) !! RowPairs(hit, n - 1, m)
  {
  }

  /** The pair (i, j) passes `intersect_2d`; out of range, or a pair that
      panics, does not. */
  function HitTest(trajectories: seq<Trajectory2>, bottomLeft: Vec2, topRight: Vec2): (int, int) -> bool
  {
    (i: int, j: int) =>
      && 0 <= i < |trajectories| && 0 <= j < |trajectories|
      && Intersect2d(trajectories[i], trajectories[j], bottomLeft, topRight) == Some(true)
  }

  /** Some pair i < j makes `intersect_2d` panic. */
  predicate Panics(trajectories: seq<Trajectory2>, bottomLeft: Vec2, topRight: Vec2)
  {
    exists i, j :: 0 <= i < j < |trajectories|
      && Intersect2d(trajectories[i], trajectories[j], bottomLeft, topRight).None?
  }

  /** The pairs i < j whose paths cross in the area. */
  ghost function Crossings(trajectories: seq<Trajectory2>, bottomLeft: Vec2, topRight: Vec2): set<(int, int)>
  {
    set i, j | 0 <= i < j < |trajectories|
      && Crosses(trajectories[i], trajectories[j], bottomLeft, topRight) :: (i, j)
  }

  /** With no panicking pair, the count of the nested loops is the number
      of crossing unordered pairs. */
  lemma HitsAreCrossings(trajectories: seq<Trajectory2>, bottomLeft: Vec2, topRight: Vec2)
    requires !Panics(trajectories, bottomLeft, topRight)
    ensures Hits(HitTest(trajectories, bottomLeft, topRight), |trajectories|, |trajectories|)
      == |Crossings(trajectories, bottomLeft, topRight)|
  {
    var hit := HitTest(trajectories, bottomLeft, topRight);
    HitsCount(hit, |trajectories|, |trajectories|);
    var pairs := AcceptedPairs(hit, |trajectories|, |trajectories|);
    var crossings := Crossings(trajectories, bottomLeft, topRight);
    forall p | p in pairs ensures p in crossings {
      Intersect2dMeaning(trajectories[p.0], trajectories[p.1], bottomLeft, topRight);
    }
    forall p | p in crossings ensures p in pairs {
      Intersect2dMeaning(trajectories[p.0], trajectories[p.1], bottomLeft, topRight);
    }
    assert pairs == crossings;
  }

  /** `count_intersections_2d`: the nested loops over pairs i < j. `None`
      when some pair makes `intersect_2d` panic. */
  method CountIntersections2d(trajectories: seq<Trajectory2>, bottomLeft: Vec2, topRight: Vec2)
    returns (r: Option<nat>)
    ensures r.None? <==> Panics(trajectories, bottomLeft, topRight)
    ensures r.Some? ==> r.value == Hits(HitTest(trajectories, bottomLeft, topRight), |trajectories|, |trajectories|)
  {
    ghost var hit := HitTest(trajectories, bottomLeft, topRight);
    var count := 0;
    for i := 0 to |trajectories|
      invariant count == Hits(hit, i, |trajectories|)
      invariant forall i', j' :: 0 <= i' < i && i' < j' < |trajectories| ==>
        Intersect2d(trajectories[i'], trajectories[j'], bottomLeft, topRight).Some?
    {
      var row := 0;
      for j := i + 1 to |trajectories|
        invariant row == RowHits(hit, i, j)
        invariant forall j' :: i < j' < j ==>
          Intersect2d(trajectories[i], trajectories[j'], bottomLeft, topRight).Some?
      {
        var outcome := Intersect2d(trajectories[i], trajectories[j], bottomLeft, topRight);
        if outcome.None? {
          return None;
        }
        if outcome.value {
          row := row + 1;
        }
      }
      count := count + row;
    }
    return Some(count);
  }

  /** `part1`: drop the z axis and count in the fixed test area. */
  method Part1(trajectories: seq<Trajectory3>) returns (r: Option<nat>)
    ensures var flat := Flatten(trajectories);
      && (r.None? <==> Panics(flat, AreaBottomLeft, AreaTopRight))
      && (r.Some? ==> r.value == |Crossings(flat, AreaBottomLeft, AreaTopRight)|)
  {
    var flat := Flatten(trajectories);
    r := CountIntersections2d(flat, AreaBottomLeft, AreaTopRight);
    if r.Some? {
      HitsAreCrossings(flat, AreaBottomLeft, AreaTopRight);
    }
  }

  /** The projection onto the x-y plane. */
  function Flatten(trajectories: seq<Trajectory3>): (r: seq<Trajectory2>)
    ensures |r| == |trajectories|
    ensures forall i :: 0 <= i < |r| ==>
      r[i] == ((trajectories[i].0.0, trajectories[i].0.1), (trajectories[i].1.0, trajectories[i].1.1))
  {
    seq(|trajectories|, i requires 0 <= i < |trajectories| =>
      ((trajectories[i].0.0, trajectories[i].0.1), (trajectories[i].1.0, trajectories[i].1.1)))
  }
  // ---------------------------------------------------------------------
  // The worked example

  /** The five hailstones of the puzzle's example, without z. */
  const Example: seq<Trajectory2> := [
    ((19, 13), (-2, 1)),
    ((18, 19), (-1, -1)),
    ((20, 25), (-2, -2)),
    ((12, 31), (-1, -2)),
    ((20, 19), (1, -5))
  ]

  /** The two pairs of the example that cross in the area. */
  lemma ExampleCrossing()
    ensures Intersect2d(Example[0], Example[1], (7, 7), (27, 27)) == Some(true)
    ensures Intersect2d(Example[0], Example[2], (7, 7), (27, 27)) == Some(true)
  {
    assert Slope(Example[0]) == -0.5 && Offset(Example[0]) == 22.5;
    assert Slope(Example[1]) == 1.0 && Offset(Example[1]) == 1.0;
    assert Slope(Example[2]) == 1.0 && Offset(Example[2]) == 5.0;
  }

  /** Four of the other pairs: the paths meet only in the past of one of
      the hailstones, outside the area, or never. */
  lemma ExampleMissingFirst()
    ensures Intersect2d(Example[0], Example[3], (7, 7), (27, 27)) == Some(false)
    ensures Intersect2d(Example[0], Example[4], (7, 7), (27, 27)) == Some(false)
    ensures Intersect2d(Example[1], Example[2], (7, 7), (27, 27)) == Some(false)
    ensures Intersect2d(Example[1], Example[3], (7, 7), (27, 27)) == Some(false)
  {
    assert Intersect2d(Example[0], Example[3], (7, 7), (27, 27)) == Some(false) by {}
    assert Intersect2d(Example[0], Example[4], (7, 7), (27, 27)) == Some(false) by {}
    assert Intersect2d(Example[1], Example[2], (7, 7), (27, 27)) == Some(false) by {}
  }

  /** The last four pairs, which miss in the same ways. */
  lemma ExampleMissingRest()
    ensures Intersect2d(Example[1], Example[4], (7, 7), (27, 27)) == Some(false)
    ensures Intersect2d(Example[2], Example[3], (7, 7), (27, 27)) == Some(false)
    ensures Intersect2d(Example[2], Example[4], (7, 7), (27, 27)) == Some(false)
    ensures Intersect2d(Example[3], Example[4], (7, 7), (27, 27)) == Some(false)
  {
    assert Intersect2d(Example[1], Example[4], (7, 7), (27, 27)) == Some(false) by {}
    assert Intersect2d(Example[2], Example[3], (7, 7), (27, 27)) == Some(false) by {}
    assert Intersect2d(Example[2], Example[4], (7, 7), (27, 27)) == Some(false) by {}
  }

  /** In the area from 7 to 27 on both axes, two of the ten pairs cross:
      the first hailstone with the second and with the third. */
  lemma ExampleCount()
    ensures !Panics(Example, (7, 7), (27, 27))
    ensures Hits(HitTest(Example, (7, 7), (27, 27)), 5, 5) == 2
  {
    var hit := HitTest(Example, (7, 7), (27, 27));
    ExampleCrossing();
    ExampleMissingFirst();
    ExampleMissingRest();
    assert hit(0, 1) && hit(0, 2);
    assert !hit(0, 3) && !hit(0, 4);
    assert !hit(1, 2) && !hit(1, 3) && !hit(1, 4);
    assert !hit(2, 3) && !hit(2, 4);
    assert !hit(3, 4);
    assert RowHits(hit, 0, 5) == 2;
    assert RowHits(hit, 1, 5) == 0;
    assert RowHits(hit, 2, 5) == 0;
    assert RowHits(hit, 3, 5) == 0;
    assert RowHits(hit, 4, 5) == 0;
  }
}
