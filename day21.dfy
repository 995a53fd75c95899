/** Day 21, "Step Counter": from the centre of a garden that repeats
    forever in every direction, the gardener steps north, south, east or
    west onto garden plots, never onto rocks. Part one counts the plots he
    can stand on after exactly 64 steps; part two fits a quadratic to
    breadth-first distances. */
module Day21 {
  import opened Common

  type Coordinates = (int, int)

  datatype Direction = Right | Down | Left | Up

  /** The directions in the order the searches try them. */
  const Directions: seq<Direction> := [Right, Down, Left, Up]

  function ToVector(d: Direction): Coordinates
  {
    match d
    case Left => (-1, 0)
    case Right => (1, 0)
    case Up => (0, -1)
    case Down => (0, 1)
  }

  /** `Coordinates + Direction`: one step. */
  function Add(p: Coordinates, d: Direction): Coordinates
  {
    (p.0 + ToVector(d).0, p.1 + ToVector(d).1)
  }

  /** The position one step before `p` in direction `d`. */
  function Back(p: Coordinates, d: Direction): (r: Coordinates)
    ensures Add(r, d) == p
  {
    (p.0 - ToVector(d).0, p.1 - ToVector(d).1)
  }

  // ---------------------------------------------------------------------
  // Rust's integer division and remainder

  /** Rust's `%` on `i64`: the remainder takes the sign of the dividend. */
  function RemT(a: int, b: int): (r: int)
    requires b != 0
    ensures Abs(r) < Abs(b)
    ensures a >= 0 ==> r >= 0
    ensures a <= 0 ==> r <= 0
  {
    if a >= 0 then a % Abs(b) else -((-a) % Abs(b))
  }

  /** Rust's `/` on `i64`: the quotient is rounded toward zero. */
  function DivT(a: int, b: int): int
    requires b != 0
  {
    if (a >= 0) == (b > 0) then Abs(a) / Abs(b) else -(Abs(a) / Abs(b))
  }

  /** Truncating division and remainder still put the dividend back
      together. */
  lemma {:induction false} DivRemT(a: int, b: int)
    requires b != 0
    ensures DivT(a, b) * b + RemT(a, b) == a
  {
    var q, r := Abs(a) / Abs(b), Abs(a) % Abs(b);
    assert Abs(a) == Abs(b) * q + r;
    if a >= 0 && b > 0 {
    } else if a >= 0 {
      assert DivT(a, b) * b == (-q) * (-Abs(b)) == q * Abs(b);
    } else if b > 0 {
      assert DivT(a, b) * b == -(q * Abs(b));
    } else {
      assert DivT(a, b) * b == q * (-Abs(b));
    }
  }

  /** The wrapped index `((c % n) + n) % n` of the repeating garden. */
  function Wrap(c: int, n: int): int
    requires n > 0
  {
    RemT(RemT(c, n) + n, n)
  }

  /** The wrapped index is the mathematical remainder, so it lies in
      [0, n). */
  lemma {:induction false} WrapIsRemainder(c: int, n: int)
    requires n > 0
    ensures Wrap(c, n) == c % n
    ensures 0 <= Wrap(c, n) < n
  {
    if c >= 0 {
      WrapNonNegative(c, n);
    } else {
      WrapNegative(c, n);
    }
  }

  lemma {:induction false} WrapNonNegative(c: int, n: int)
    requires n > 0 && c >= 0
    ensures Wrap(c, n) == c % n
  {
    var r := c % n;
    assert RemT(c, n) == r;
    assert RemT(r + n, n) == (r + n) % n;
    DivModEuclid(r + n, n, 1, r);
  }

  lemma {:induction false} WrapNegative(c: int, n: int)
    requires n > 0 && c < 0
    ensures Wrap(c, n) == c % n
  {
    var m, q := (-c) % n, (-c) / n;
    assert -c == n * q + m;
    assert RemT(c, n) == -m;
    assert RemT(n - m, n) == (n - m) % n;
    if m == 0 {
      DivModEuclid(n, n, 1, 0);
      assert c == n * (-q) + 0;
      DivModEuclid(c, n, -q, 0);
    } else {
      DivModEuclid(n - m, n, 0, n - m);
      assert c == n * (-q - 1) + (n - m);
      DivModEuclid(c, n, -q - 1, n - m);
    }
  }

  /** Moving by a whole plot lands on the same wrapped index. */
  lemma {:induction false} WrapPeriodic(c: int, n: int)
    requires n > 0
    ensures Wrap(c + n, n) == Wrap(c, n)
  {
    WrapIsRemainder(c, n);
    WrapIsRemainder(c + n, n);
    var q, r := c / n, c % n;
    assert c == n * q + r;
    assert c + n == n * (q + 1) + r;
    DivModEuclid(c + n, n, q + 1, r);
  }

  lemma {:induction false} DivModEuclid(a: int, n: int, q: int, r: int)
    requires n > 0 && 0 <= r < n && a == n * q + r
    ensures a % n == r
  {
    var q', r' := a / n, a % n;
    assert n * q' + r' == a;
    assert n * (q - q') == r' - r;
    if q - q' >= 1 {
      MulBound(n, q - q');
    } else if q - q' <= -1 {
      MulBound(n, q' - q);
    }
  }

  // ---------------------------------------------------------------------
  // The repeating garden

  /** The garden: its rocks in one plot, and the plot's size. */
  datatype Garden = Garden(rocks: set<Coordinates>, size: int)

  /** The rock lookup of both searches: the position, wrapped into the
      plot, is not a rock. */
  function Open(garden: Garden, p: Coordinates): bool
    requires garden.size > 0
  {
    (Wrap(p.0, garden.size), Wrap(p.1, garden.size)) !in garden.rocks
  }

  /** A position holds a rock exactly when the same place of the first
      plot does, in every copy of the plot. */
  lemma {:induction false} OpenPeriodic(garden: Garden, p: Coordinates)
    requires garden.size > 0
    ensures Open(garden, p) == Open(garden, (p.0 + garden.size, p.1))
    ensures Open(garden, p) == Open(garden, (p.0, p.1 + garden.size))
  {
    WrapPeriodic(p.0, garden.size);
    WrapPeriodic(p.1, garden.size);
  }

  /** Both searches start at the middle of the first plot. */
  function Start(garden: Garden): (r: Coordinates)
    requires garden.size > 0
    ensures 0 <= r.0 < garden.size && r.0 == r.1
    ensures (r.0 + r.1) % 2 == 0
  {
    (garden.size / 2, garden.size / 2)
  }

  /** The position can be reached from the start in at most `k` steps over
      open positions. */
  ghost predicate Within(garden: Garden, p: Coordinates, k: nat)
    requires garden.size > 0
    decreases k, 1
  {
    if k == 0 then p == Start(garden)
    else Within(garden, p, k - 1) || (Open(garden, p) && NextTo(garden, p, k - 1))
  }

  /** Some neighbour of `p` is within `k` steps. */
  ghost predicate NextTo(garden: Garden, p: Coordinates, k: nat)
    requires garden.size > 0
    decreases k + 1, 0
  {
    || Within(garden, Back(p, Right), k) || Within(garden, Back(p, Down), k)
    || Within(garden, Back(p, Left), k) || Within(garden, Back(p, Up), k)
  }

  /** An open neighbour of a position within `k` steps is within `k + 1`. */
  lemma {:induction false} WithinStep(garden: Garden, p: Coordinates, d: Direction, k: nat)
    requires garden.size > 0 && Within(garden, p, k) && Open(garden, Add(p, d))
    ensures Within(garden, Add(p, d), k + 1)
  {
    var q := Add(p, d);
    assert Back(q, d) == p;
    match d {
      case Right => assert Within(garden, Back(q, Right), k);
      case Down => assert Within(garden, Back(q, Down), k);
      case Left => assert Within(garden, Back(q, Left), k);
      case Up => assert Within(garden, Back(q, Up), k);
    }
  }

  /** Within `k` steps stays within any larger number of steps. */
  lemma {:induction false} WithinMore(garden: Garden, p: Coordinates, k: nat, m: nat)
    requires garden.size > 0 && Within(garden, p, k) && k <= m
    ensures Within(garden, p, m)
    decreases m - k
  {
    if k < m {
      WithinMore(garden, p, k + 1, m);
    }
  }

  function Manhattan(p: Coordinates, q: Coordinates): nat
  {
    Abs(p.0 - q.0) + Abs(p.1 - q.1)
  }

  /** Every step moves one unit: within `k` steps lies no farther than `k`
      from the start. */
  lemma {:induction false} WithinNear(garden: Garden, p: Coordinates, k: nat)
    requires garden.size > 0 && Within(garden, p, k)
    ensures Manhattan(p, Start(garden)) <= k
    decreases k
  {
    if k > 0 {
      if Within(garden, p, k - 1) {
        WithinNear(garden, p, k - 1);
      } else {
        var d :| d in {Right, Down, Left, Up} && Within(garden, Back(p, d), k - 1);
        WithinNear(garden, Back(p, d), k - 1);
      }
    }
  }

  // ---------------------------------------------------------------------
  // Part one: frontier after frontier

  /** The four neighbours of a position. */
  function Neighbours(p: Coordinates): set<Coordinates>
  {
    {Add(p, Right), Add(p, Down), Add(p, Left), Add(p, Up)}
  }

  /** The open neighbours of the frontier not visited yet. */
  ghost function NextFrontier(garden: Garden, frontier: set<Coordinates>, visited: set<Coordinates>): set<Coordinates>
    requires garden.size > 0
  {
    set p, q | p in frontier && q in Neighbours(p) && Open(garden, q) && q !in visited :: q
  }

  /** The frontier and the visited positions of a round. */
  datatype Round = Round(frontier: set<Coordinates>, visited: set<Coordinates>)

  /** The frontier and the visited positions after `k` rounds. */
  ghost function Explore(garden: Garden, k: nat): Round
    requires garden.size > 0
  {
    if k == 0 then Round({Start(garden)}, {Start(garden)})
    else
      var previous := Explore(garden, k - 1);
      var next := NextFrontier(garden, previous.frontier, previous.visited);
      Round(next, previous.visited + next)
  }

  /** After `k` rounds the visited positions are exactly those within `k`
      steps, and the frontier those at exactly `k` steps. */
  lemma {:induction false} ExploreWithin(garden: Garden, k: nat, p: Coordinates)
    requires garden.size > 0
    ensures p in Explore(garden, k).visited <==> Within(garden, p, k)
    ensures p in Explore(garden, k).frontier <==> Within(garden, p, k) && (k == 0 || !Within(garden, p, k - 1))
    decreases k, 1
  {
    if k > 0 {
      ExploreWithin(garden, k - 1, p);
      if p in Explore(garden, k).frontier {
        FrontierSound(garden, k, Explore(garden, k - 1), p);
      }
      if Within(garden, p, k) && !Within(garden, p, k - 1) {
        FrontierComplete(garden, k, p);
      }
    }
  }

  /** One of the four directions leads from a neighbour within `k` steps
      to `p`. */
  lemma {:induction false} NextToDirection(garden: Garden, p: Coordinates, k: nat) returns (d: Direction)
    requires garden.size > 0 && NextTo(garden, p, k)
    ensures Within(garden, Back(p, d), k)
  {
    if Within(garden, Back(p, Right), k) {
      d := Right;
    } else if Within(garden, Back(p, Down), k) {
      d := Down;
    } else if Within(garden, Back(p, Left), k) {
      d := Left;
    } else {
      d := Up;
    }
  }

  /** A new frontier position is within `k` steps. */
  lemma {:induction false} FrontierSound(garden: Garden, k: nat, previous: Round, p: Coordinates)
    requires garden.size > 0 && k > 0 && previous == Explore(garden, k - 1)
    requires p in NextFrontier(garden, previous.frontier, previous.visited)
    ensures Within(garden, p, k)
    decreases k, 0
  {
    var q := FrontierWitness(garden, previous.frontier, previous.visited, p);
    FrontierWithin(garden, k - 1, q);
    NeighbourWithin(garden, q, p, k - 1);
  }

  /** A frontier position is within the number of rounds taken. */
  lemma {:induction false} FrontierWithin(garden: Garden, k: nat, q: Coordinates)
    requires garden.size > 0 && q in Explore(garden, k).frontier
    ensures Within(garden, q, k)
    decreases k, 2
  {
    ExploreWithin(garden, k, q);
  }

  /** An open neighbour of a position within `k` steps is within `k + 1`,
      whatever the direction. */
  lemma {:induction false} NeighbourWithin(garden: Garden, q: Coordinates, p: Coordinates, k: nat)
    requires garden.size > 0 && Within(garden, q, k) && p in Neighbours(q) && Open(garden, p)
    ensures Within(garden, p, k + 1)
  {
    var d := NeighbourDirection(q, p);
    WithinStep(garden, q, d, k);
  }

  /** A new frontier position is an open unvisited neighbour of the old
      frontier. */
  lemma {:induction false} FrontierWitness(garden: Garden, frontier: set<Coordinates>, visited: set<Coordinates>, p: Coordinates)
    returns (q: Coordinates)
    requires garden.size > 0 && p in NextFrontier(garden, frontier, visited)
    ensures q in frontier && p in Neighbours(q) && Open(garden, p) && p !in visited
  {
    q :| q in frontier && p in Neighbours(q) && Open(garden, p) && p !in visited;
  }

  /** A neighbour lies one step away in some direction. */
  lemma {:induction false} NeighbourDirection(q: Coordinates, p: Coordinates) returns (d: Direction)
    requires p in Neighbours(q)
    ensures p == Add(q, d)
  {
    if p == Add(q, Right) {
      d := Right;
    } else if p == Add(q, Down) {
      d := Down;
    } else if p == Add(q, Left) {
      d := Left;
    } else {
      d := Up;
    }
  }

  /** A position at exactly `k` steps joins the new frontier. */
  lemma {:induction false} FrontierComplete(garden: Garden, k: nat, p: Coordinates)
    requires garden.size > 0 && k > 0
    requires Within(garden, p, k) && !Within(garden, p, k - 1)
    ensures p in NextFrontier(garden, Explore(garden, k - 1).frontier, Explore(garden, k - 1).visited)
    decreases k, 0
  {
    var d := NextToDirection(garden, p, k - 1);
    var q := Back(p, d);
    ExploreWithin(garden, k - 1, q);
    ExploreWithin(garden, k - 1, p);
    if k > 1 && Within(garden, q, k - 2) {
      assert false;
    }
    assert p in Neighbours(q);
  }

  /** The frontier holds only open positions never visited before, and the
      visited positions only grow. */
  lemma {:induction false} FrontierFresh(garden: Garden, k: nat)
    requires garden.size > 0 && k > 0
    ensures Explore(garden, k - 1).visited <= Explore(garden, k).visited
    ensures forall p :: p in Explore(garden, k).frontier ==> Open(garden, p) && p !in Explore(garden, k - 1).visited
  {
  }

  /** The parity test of `accessible_plots_count` as written: Rust's `%`
      gives -1 for an odd negative coordinate sum. */
  function CountedAsWritten(p: Coordinates, steps: int): bool
  {
    RemT(p.0 + p.1, 2) == RemT(steps, 2)
  }

  /** The parity test as intended: the coordinate sum has the parity of
      the number of steps. */
  function Counted(p: Coordinates, steps: int): bool
  {
    (p.0 + p.1) % 2 == steps % 2
  }

  /** The visited positions that count. */
  function PlotsCount(visited: set<Coordinates>, steps: int): nat
  {
    |set p | p in visited && Counted(p, steps)|
  }

  /** In a one-plot garden without rocks, one step reaches (-1, 0): it is
      visited and has the parity of one step, yet the test as written
      leaves it out. */
  lemma {:induction false} OddNegativeAsWritten()
    ensures var garden := Garden({}, 1);
      && Within(garden, (-1, 0), 1)
      && Counted((-1, 0), 1)
      && !CountedAsWritten((-1, 0), 1)
  {
    var garden := Garden({}, 1);
    WrapIsRemainder(-1, 1);
    WrapIsRemainder(0, 1);
    assert Open(garden, (-1, 0));
    assert Back((-1, 0), Left) == (0, 0);
    assert Within(garden, (0, 0), 0);
  }

  /** For an even number of steps, or a position with a non-negative
      coordinate sum, the two parity tests agree. */
  lemma {:induction false} CountedAgrees(p: Coordinates, steps: int)
    requires steps >= 0
    requires steps % 2 == 0 || p.0 + p.1 >= 0
    ensures Counted(p, steps) == CountedAsWritten(p, steps)
  {
    var s := p.0 + p.1;
    assert RemT(steps, 2) == steps % 2;
    if s >= 0 {
      assert RemT(s, 2) == s % 2;
    } else {
      var m := (-s) % 2;
      var q := (-s) / 2;
      assert -s == 2 * q + m;
      if m == 0 {
        assert s == 2 * (-q);
      } else {
        assert s == 2 * (-q - 1) + 1;
      }
    }
  }

  /** The positions of a counted frontier in the round loop. */
  ghost predicate Rounds(garden: Garden, k: nat, frontier: set<Coordinates>, visited: set<Coordinates>)
    requires garden.size > 0
  {
    Explore(garden, k) == Round(frontier, visited)
  }

  /** The inner loops of one round have handled the positions `done` of
      the frontier. */
  ghost predicate Expanding(garden: Garden, frontier: set<Coordinates>, before: set<Coordinates>,
                            done: set<Coordinates>, next: set<Coordinates>, visited: set<Coordinates>)
    requires garden.size > 0
  {
    && done <= frontier
    && next == NextFrontier(garden, done, before)
    && visited == before + next
  }

  /** The open neighbours of `p`, among the first `j` directions, that
      were not visited before the round. */
  ghost function Grown(garden: Garden, p: Coordinates, j: nat, before: set<Coordinates>): set<Coordinates>
    requires garden.size > 0 && j <= |Directions|
  {
    set i | 0 <= i < j && Open(garden, Add(p, Directions[i])) && Add(p, Directions[i]) !in before :: Add(p, Directions[i])
  }

  lemma {:induction false} GrownStep(garden: Garden, p: Coordinates, j: nat, before: set<Coordinates>)
    requires garden.size > 0 && j < |Directions|
    ensures var q := Add(p, Directions[j]);
      Grown(garden, p, j + 1, before) == Grown(garden, p, j, before) + if Open(garden, q) && q !in before then {q} else {}
  {
  }

  /** Handling one more frontier position adds its open neighbours not
      visited before the round. */
  lemma {:induction false} NextFrontierAdd(garden: Garden, done: set<Coordinates>, p: Coordinates, before: set<Coordinates>)
    requires garden.size > 0
    ensures NextFrontier(garden, done + {p}, before) == NextFrontier(garden, done, before) + Grown(garden, p, |Directions|, before)
  {
    var all := Grown(garden, p, |Directions|, before);
    forall q | q in NextFrontier(garden, done + {p}, before) && q !in NextFrontier(garden, done, before)
      ensures q in all
    {
      assert q in Neighbours(p);
      if q == Add(p, Right) {
        assert Directions[0] == Right;
      } else if q == Add(p, Down) {
        assert Directions[1] == Down;
      } else if q == Add(p, Left) {
        assert Directions[2] == Left;
      } else {
        assert Directions[3] == Up;
      }
    }
    forall q | q in all ensures q in NextFrontier(garden, done + {p}, before) {
      var i :| 0 <= i < |Directions| && q == Add(p, Directions[i]) && Open(garden, q) && q !in before;
      assert q in Neighbours(p);
    }
  }

  /** One position's neighbours, tried in turn. */
  method ExpandPosition(garden: Garden, p: Coordinates, ghost frontier: set<Coordinates>, ghost before: set<Coordinates>,
                        ghost done: set<Coordinates>, next: set<Coordinates>, visited: set<Coordinates>)
    returns (next': set<Coordinates>, visited': set<Coordinates>)
    requires garden.size > 0 && p in frontier && p !in done
    requires Expanding(garden, frontier, before, done, next, visited)
    ensures Expanding(garden, frontier, before, done + {p}, next', visited')
  {
    next', visited' := next, visited;
    for j := 0 to |Directions|
      invariant next' == NextFrontier(garden, done, before) + Grown(garden, p, j, before)
      invariant visited' == before + next'
    {
      var q := Add(p, Directions[j]);
      GrownStep(garden, p, j, before);
      if Open(garden, q) && q !in visited' {
        next' := next' + {q};
        visited' := visited' + {q};
      }
    }
    NextFrontierAdd(garden, done, p, before);
  }

  /** One round: every frontier position's open unvisited neighbours
      become the new frontier and are visited. */
  method Expand(garden: Garden, frontier: set<Coordinates>, visited: set<Coordinates>)
    returns (next: set<Coordinates>, visited': set<Coordinates>)
    requires garden.size > 0
    ensures next == NextFrontier(garden, frontier, visited)
    ensures visited' == visited + next
  {
    next, visited' := {}, visited;
    var remaining := frontier;
    while remaining != {}
      invariant remaining <= frontier
      invariant Expanding(garden, frontier, visited, frontier - remaining, next, visited')
      decreases |remaining|
    {
      SomeElement(remaining);
      var p :| p in remaining;
      next, visited' := ExpandPosition(garden, p, frontier, visited, frontier - remaining, next, visited');
      assert frontier - (remaining - {p}) == (frontier - remaining) + {p};
      remaining := remaining - {p};
    }
    assert frontier - remaining == frontier;
  }

  /** `accessible_plots_count`: the number of positions within `steps`
      steps whose coordinate sum has the parity of `steps`. */
  method AccessiblePlotsCount(garden: Garden, steps: int) returns (r: nat)
    requires garden.size > 0
    ensures r == PlotsCount(Explore(garden, Max(steps, 0)).visited, steps)
  {
    var start := Start(garden);
    var frontier := {start};
    var visited := frontier;
    var k := 1;
    while k <= steps
      invariant 1 <= k && (steps >= 0 ==> k <= steps + 1) && (steps < 0 ==> k == 1)
      invariant Rounds(garden, k - 1, frontier, visited)
    {
      frontier, visited := Expand(garden, frontier, visited);
      k := k + 1;
    }
    assert k - 1 == Max(steps, 0);
    r := |set p | p in visited && Counted(p, steps)|;
  }

  /** The counted plots are those within `steps` steps with the parity of
      `steps`. */
  lemma {:induction false} PlotsCounted(garden: Garden, steps: nat, p: Coordinates)
    requires garden.size > 0
    ensures p in (set q | q in Explore(garden, steps).visited && Counted(q, steps)) <==> Within(garden, p, steps) && Counted(p, steps)
  {
    ExploreWithin(garden, steps, p);
  }

  /** `part1`: 64 steps. */
  method Part1(garden: Garden) returns (r: nat)
    requires garden.size > 0
    ensures r == PlotsCount(Explore(garden, 64).visited, 64)
  {
    r := AccessiblePlotsCount(garden, 64);
  }

  // ---------------------------------------------------------------------
  // Part two: breadth-first distances

  /** What `calculate_distances` computes: the start is at 0; every
      recorded position is reached in its recorded number of steps, and
      every position other than the start at most `maxDistance` steps
      away; every position reachable within `maxDistance` steps is
      recorded, at its least number of steps. */
  ghost predicate ShortestDistances(garden: Garden, maxDistance: int, distances: map<Coordinates, int>)
    requires garden.size > 0
  {
    && Start(garden) in distances && distances[Start(garden)] == 0
    && (forall p :: p in distances ==>
          (&& 0 <= distances[p]
           && Within(garden, p, distances[p])
           && (p != Start(garden) ==> distances[p] <= maxDistance)))
    && (forall p, k: nat :: Within(garden, p, k) && k <= maxDistance ==> p in distances)
    && (forall p, k: nat :: p in distances && Within(garden, p, k) ==> distances[p] <= k)
  }


  /** The positions of the queue entries. */
  function QueueKeys(queue: seq<(Coordinates, int)>): set<Coordinates>
  {
    if queue == [] then {} else {queue[0].0} + QueueKeys(queue[1..])
  }

  lemma {:induction false} QueueKeysAppend(queue: seq<(Coordinates, int)>, e: (Coordinates, int))
    ensures QueueKeys(queue + [e]) == QueueKeys(queue) + {e.0}
    decreases |queue|
  {
    if queue == [] {
      assert queue + [e] == [e];
    } else {
      assert (queue + [e])[1..] == queue[1..] + [e];
      QueueKeysAppend(queue[1..], e);
    }
  }

  /** Every recorded distance is reached in that many steps; the start is
      at 0 and every other position at 1 to `maxDistance`. */
  ghost predicate Recorded(garden: Garden, maxDistance: int, visited: map<Coordinates, int>)
    requires garden.size > 0
  {
    && Start(garden) in visited && visited[Start(garden)] == 0
    && forall p :: p in visited ==>
         (&& 0 <= visited[p]
          && Within(garden, p, visited[p])
          && (p != Start(garden) ==> 1 <= visited[p] <= maxDistance))
  }

  /** Breadth-first order: the queue holds recorded distances between
      `level` and `level + 1` in non-decreasing order, and no recorded
      distance exceeds `level + 1`. */
  ghost predicate Leveled(visited: map<Coordinates, int>, queue: seq<(Coordinates, int)>, level: int)
  {
    && (forall i :: 0 <= i < |queue| ==>
          (&& queue[i].0 in visited
           && visited[queue[i].0] == queue[i].1
           && level <= queue[i].1 <= level + 1))
    && (forall i, j :: 0 <= i < j < |queue| ==> queue[i].1 <= queue[j].1)
    && (forall p :: p in visited ==> visited[p] <= level + 1)
  }

  /** Every open neighbour of a handled position closer than
      `maxDistance` is recorded at most one step further. */
  ghost predicate Closed(garden: Garden, maxDistance: int, visited: map<Coordinates, int>, done: set<Coordinates>)
    requires garden.size > 0
  {
    && done <= visited.Keys
    && forall p, d :: p in done && visited[p] < maxDistance && Open(garden, Add(p, d)) ==>
         Add(p, d) in visited && visited[Add(p, d)] <= visited[p] + 1
  }

  /** The invariant of the search loop. */
  ghost predicate Searching(garden: Garden, maxDistance: int, visited: map<Coordinates, int>,
                            queue: seq<(Coordinates, int)>, done: set<Coordinates>, level: int)
    requires garden.size > 0
  {
    && Recorded(garden, maxDistance, visited)
    && Leveled(visited, queue, level)
    && Closed(garden, maxDistance, visited, done)
    && visited.Keys == done + QueueKeys(queue)
  }

  /** The positions no farther than `r` from `c` on either axis. */
  ghost function Box(c: Coordinates, r: nat): set<Coordinates>
  {
    set x, y | c.0 - r <= x <= c.0 + r && c.1 - r <= y <= c.1 + r :: (x, y)
  }

  lemma {:induction false} NearInBox(c: Coordinates, r: nat, p: Coordinates)
    requires Manhattan(p, c) <= r
    ensures p in Box(c, r)
  {
    assert c.0 - r <= p.0 <= c.0 + r && c.1 - r <= p.1 <= c.1 + r;
  }

  /** Recording a new position of the box leaves fewer of the box's
      positions unrecorded. */
  lemma {:induction false} FewerOutside(box: set<Coordinates>, keys: set<Coordinates>, q: Coordinates)
    requires q in box && q !in keys
    ensures |box - (keys + {q})| < |box - keys|
  {
    assert box - keys == (box - (keys + {q})) + {q};
  }

  /** The state of `VisitNeighbours` after trying the first `j` directions
      from `position` at `distance`. */
  ghost predicate Visiting(garden: Garden, maxDistance: int, position: Coordinates, distance: int, j: nat,
                           visited: map<Coordinates, int>, queue: seq<(Coordinates, int)>, done: set<Coordinates>,
                           visited': map<Coordinates, int>, queue': seq<(Coordinates, int)>)
    requires garden.size > 0 && j <= |Directions|
  {
    && Recorded(garden, maxDistance, visited')
    && Leveled(visited', queue', distance)
    && visited'.Keys == done + {position} + QueueKeys(queue')
    && (forall p :: p in visited ==> p in visited' && visited'[p] == visited[p])
    && (forall d :: d in Directions[..j] && distance < maxDistance && Open(garden, Add(position, d)) ==>
          Add(position, d) in visited' && visited'[Add(position, d)] <= distance + 1)
  }

  /** The entry `(position, distance)` left the queue: it becomes the
      level, and the rest of the queue stays within one of it. */
  lemma {:induction false} PopLevel(garden: Garden, maxDistance: int, position: Coordinates, distance: int,
                                    visited: map<Coordinates, int>, queue: seq<(Coordinates, int)>,
                                    done: set<Coordinates>, level: int)
    requires garden.size > 0
    requires Searching(garden, maxDistance, visited, [(position, distance)] + queue, done, level)
    ensures Visiting(garden, maxDistance, position, distance, 0, visited, queue, done, visited, queue)
    ensures position in visited && visited[position] == distance
  {
    var all := [(position, distance)] + queue;
    assert all[0] == (position, distance);
    assert all[1..] == queue;
    forall i | 0 <= i < |queue|
      ensures queue[i].0 in visited && visited[queue[i].0] == queue[i].1 && distance <= queue[i].1 <= distance + 1
    {
      assert queue[i] == all[i + 1];
    }
    forall i, j | 0 <= i < j < |queue|
      ensures queue[i].1 <= queue[j].1
    {
      assert queue[i] == all[i + 1] && queue[j] == all[j + 1];
    }
  }

  /** Trying one more direction from `position` records nothing when the
      neighbour is a rock, is recorded already, or lies too far. */
  lemma {:induction false} VisitSkip(garden: Garden, maxDistance: int, position: Coordinates, distance: int, j: nat,
                                     visited: map<Coordinates, int>, queue: seq<(Coordinates, int)>, done: set<Coordinates>,
                                     visited': map<Coordinates, int>, queue': seq<(Coordinates, int)>)
    requires garden.size > 0 && j < |Directions|
    requires Visiting(garden, maxDistance, position, distance, j, visited, queue, done, visited', queue')
    requires var q := Add(position, Directions[j]); !(Open(garden, q) && q !in visited' && distance < maxDistance)
    ensures Visiting(garden, maxDistance, position, distance, j + 1, visited, queue, done, visited', queue')
  {
    assert Directions[..j + 1] == Directions[..j] + [Directions[j]];
  }

  /** Trying one more direction from `position` records and queues an
      open neighbour, not recorded yet, one step further. */
  lemma {:induction false} VisitRecord(garden: Garden, maxDistance: int, position: Coordinates, distance: int, j: nat,
                                       visited: map<Coordinates, int>, queue: seq<(Coordinates, int)>, done: set<Coordinates>,
                                       visited': map<Coordinates, int>, queue': seq<(Coordinates, int)>)
    requires garden.size > 0 && j < |Directions|
    requires Visiting(garden, maxDistance, position, distance, j, visited, queue, done, visited', queue')
    requires position in visited' && visited'[position] == distance
    requires var q := Add(position, Directions[j]); Open(garden, q) && q !in visited' && distance < maxDistance
    ensures var q := Add(position, Directions[j]);
      Visiting(garden, maxDistance, position, distance, j + 1, visited, queue, done,
               visited'[q := distance + 1], queue' + [(q, distance + 1)])
    ensures Manhattan(Add(position, Directions[j]), Start(garden)) <= Max(maxDistance, 0)
  {
    var q := Add(position, Directions[j]);
    assert Directions[..j + 1] == Directions[..j] + [Directions[j]];
    QueueKeysAppend(queue', (q, distance + 1));
    RecordedAdd(garden, maxDistance, visited', position, Directions[j]);
    LeveledAdd(visited', queue', distance, q);
  }

  /** Recording an open neighbour of a recorded position one step further
      keeps the recorded distances sound, and the neighbour lies in the
      search's box. */
  lemma {:induction false} RecordedAdd(garden: Garden, maxDistance: int, visited: map<Coordinates, int>,
                                       position: Coordinates, d: Direction)
    requires garden.size > 0 && Recorded(garden, maxDistance, visited)
    requires position in visited && visited[position] < maxDistance
    requires Open(garden, Add(position, d)) && Add(position, d) !in visited
    ensures Recorded(garden, maxDistance, visited[Add(position, d) := visited[position] + 1])
    ensures Manhattan(Add(position, d), Start(garden)) <= Max(maxDistance, 0)
  {
    var distance := visited[position];
    WithinStep(garden, position, d, distance);
    NearStart(garden, Add(position, d), distance + 1, maxDistance);
  }

  /** Queueing a new position one level further keeps breadth-first
      order. */
  lemma {:induction false} LeveledAdd(visited: map<Coordinates, int>, queue: seq<(Coordinates, int)>, level: int, q: Coordinates)
    requires Leveled(visited, queue, level) && q !in visited
    ensures Leveled(visited[q := level + 1], queue + [(q, level + 1)], level)
  {
  }

  /** A position within `v <= maxDistance` steps lies in the search's
      box. */
  lemma {:induction false} NearStart(garden: Garden, q: Coordinates, v: nat, maxDistance: int)
    requires garden.size > 0 && Within(garden, q, v) && v <= maxDistance
    ensures Manhattan(q, Start(garden)) <= Max(maxDistance, 0)
  {
    WithinNear(garden, q, v);
  }

  /** Recording a position near the start leaves fewer positions of the
      search's box unrecorded. */
  lemma {:induction false} RecordFewer(garden: Garden, maxDistance: int, visited: map<Coordinates, int>, q: Coordinates, v: int)
    requires garden.size > 0 && q !in visited && Manhattan(q, Start(garden)) <= Max(maxDistance, 0)
    ensures var box := Box(Start(garden), Max(maxDistance, 0));
      |box - visited[q := v].Keys| < |box - visited.Keys|
  {
    var box := Box(Start(garden), Max(maxDistance, 0));
    NearInBox(Start(garden), Max(maxDistance, 0), q);
    FewerOutside(box, visited.Keys, q);
    assert visited[q := v].Keys == visited.Keys + {q};
  }

  /** `visited` after handling `position` gains the open unvisited
      neighbours closer than `maxDistance`, each queued one step further. */
  method VisitNeighbours(garden: Garden, maxDistance: int, position: Coordinates, distance: int,
                         visited: map<Coordinates, int>, queue: seq<(Coordinates, int)>,
                         ghost done: set<Coordinates>, ghost level: int)
    returns (visited': map<Coordinates, int>, queue': seq<(Coordinates, int)>)
    requires garden.size > 0
    requires Searching(garden, maxDistance, visited, [(position, distance)] + queue, done, level)
    ensures Searching(garden, maxDistance, visited', queue', done + {position}, distance)
    ensures var box := Box(Start(garden), Max(maxDistance, 0));
      (visited' == visited && queue' == queue) || |box - visited'.Keys| < |box - visited.Keys|
  {
    ghost var box := Box(Start(garden), Max(maxDistance, 0));
    PopLevel(garden, maxDistance, position, distance, visited, queue, done, level);
    visited', queue' := visited, queue;
    ghost var outside := |box - visited.Keys|;
    for j := 0 to |Directions|
      invariant Visiting(garden, maxDistance, position, distance, j, visited, queue, done, visited', queue')
      invariant position in visited' && visited'[position] == distance
      invariant outside == |box - visited'.Keys|
      invariant (visited' == visited && queue' == queue) || outside < |box - visited.Keys|
    {
      var q := Add(position, Directions[j]);
      if Open(garden, q) && q !in visited' && distance < maxDistance {
        VisitRecord(garden, maxDistance, position, distance, j, visited, queue, done, visited', queue');
        RecordFewer(garden, maxDistance, visited', q, distance + 1);
        queue' := queue' + [(q, distance + 1)];
        visited' := visited'[q := distance + 1];
        outside := |box - visited'.Keys|;
      } else {
        VisitSkip(garden, maxDistance, position, distance, j, visited, queue, done, visited', queue');
      }
    }
    VisitedClosed(garden, maxDistance, position, distance, visited, queue, done, visited', queue');
  }

  /** After all four directions, the handled positions, `position`
      included, are closed. */
  lemma {:induction false} VisitedClosed(garden: Garden, maxDistance: int, position: Coordinates, distance: int,
                                         visited: map<Coordinates, int>, queue: seq<(Coordinates, int)>, done: set<Coordinates>,
                                         visited': map<Coordinates, int>, queue': seq<(Coordinates, int)>)
    requires garden.size > 0
    requires Closed(garden, maxDistance, visited, done)
    requires Visiting(garden, maxDistance, position, distance, |Directions|, visited, queue, done, visited', queue')
    requires position in visited' && visited'[position] == distance
    ensures Searching(garden, maxDistance, visited', queue', done + {position}, distance)
  {
    assert Directions[..|Directions|] == Directions;
    forall p, d | p in done + {position} && visited'[p] < maxDistance && Open(garden, Add(p, d))
      ensures Add(p, d) in visited' && visited'[Add(p, d)] <= visited'[p] + 1
    {
      if p == position {
        assert d in Directions;
      }
    }
  }

  /** One turn of the search loop: the first entry leaves the queue and
      its neighbours are tried. */
  method Dequeue(garden: Garden, maxDistance: int, visited: map<Coordinates, int>, queue: seq<(Coordinates, int)>,
                 ghost done: set<Coordinates>, ghost level: int)
    returns (visited': map<Coordinates, int>, queue': seq<(Coordinates, int)>, ghost done': set<Coordinates>, ghost level': int)
    requires garden.size > 0 && queue != []
    requires Searching(garden, maxDistance, visited, queue, done, level)
    ensures Searching(garden, maxDistance, visited', queue', done', level')
    ensures var box := Box(Start(garden), Max(maxDistance, 0));
      || |box - visited'.Keys| < |box - visited.Keys|
      || (visited' == visited && |queue'| < |queue|)
  {
    var (position, distance) := queue[0];
    var rest := queue[1..];
    assert queue == [(position, distance)] + rest;
    visited', queue' := VisitNeighbours(garden, maxDistance, position, distance, visited, rest, done, level);
    done', level' := done + {position}, distance;
  }

  /** Once the queue is empty, a position within `k <= maxDistance` steps
      is recorded at `k` or less. */
  lemma {:induction false} SearchComplete(garden: Garden, maxDistance: int, visited: map<Coordinates, int>,
                                          p: Coordinates, k: nat)
    requires garden.size > 0
    requires Recorded(garden, maxDistance, visited) && Closed(garden, maxDistance, visited, visited.Keys)
    requires Within(garden, p, k) && k <= maxDistance
    ensures p in visited && visited[p] <= k
    decreases k
  {
    if k > 0 {
      if Within(garden, p, k - 1) {
        SearchComplete(garden, maxDistance, visited, p, k - 1);
      } else {
        var d := NextToDirection(garden, p, k - 1);
        var b := Back(p, d);
        SearchComplete(garden, maxDistance, visited, b, k - 1);
        assert Add(b, d) == p;
      }
    }
  }

  /** `calculate_distances`: the breadth-first distance from the start of
      every position within `maxDistance` steps, and of no other. */
  method CalculateDistances(garden: Garden, maxDistance: int) returns (visited: map<Coordinates, int>)
    requires garden.size > 0
    ensures ShortestDistances(garden, maxDistance, visited)
  {
    var start := Start(garden);
    var queue := [(start, 0)];
    visited := map[start := 0];
    ghost var done: set<Coordinates> := {};
    ghost var level := 0;
    ghost var box := Box(start, Max(maxDistance, 0));
    SearchStart(garden, maxDistance);
    while queue != []
      invariant Searching(garden, maxDistance, visited, queue, done, level)
      decreases |box - visited.Keys|, |queue|
    {
      visited, queue, done, level := Dequeue(garden, maxDistance, visited, queue, done, level);
    }
    SearchDone(garden, maxDistance, visited, done, level);
  }

  /** The search starts from the start alone, at distance 0. */
  lemma {:induction false} SearchStart(garden: Garden, maxDistance: int)
    requires garden.size > 0
    ensures var start := Start(garden);
      Searching(garden, maxDistance, map[start := 0], [(start, 0)], {}, 0)
  {
    var start := Start(garden);
    var queue := [(start, 0)];
    assert queue[1..] == [];
    assert Within(garden, start, 0);
  }

  /** With the queue empty, every recorded position has been handled. */
  lemma {:induction false} SearchDone(garden: Garden, maxDistance: int, visited: map<Coordinates, int>,
                                      done: set<Coordinates>, level: int)
    requires garden.size > 0 && Searching(garden, maxDistance, visited, [], done, level)
    ensures ShortestDistances(garden, maxDistance, visited)
  {
    DistancesComplete(garden, maxDistance, visited);
  }

  /** The search's results once its queue is empty. */
  lemma {:induction false} DistancesComplete(garden: Garden, maxDistance: int, visited: map<Coordinates, int>)
    requires garden.size > 0
    requires Recorded(garden, maxDistance, visited) && Closed(garden, maxDistance, visited, visited.Keys)
    ensures forall p, k: nat :: Within(garden, p, k) && k <= maxDistance ==> p in visited
    ensures forall p, k: nat :: p in visited && Within(garden, p, k) ==> visited[p] <= k
  {
    forall p, k: nat | Within(garden, p, k) && k <= maxDistance
      ensures p in visited
    {
      SearchComplete(garden, maxDistance, visited, p, k);
    }
    forall p, k: nat | p in visited && Within(garden, p, k)
      ensures visited[p] <= k
    {
      if p != Start(garden) && k <= maxDistance {
        SearchComplete(garden, maxDistance, visited, p, k);
      }
    }
  }

  /** The two searches agree: the positions recorded at `k <= maxDistance`
      steps or fewer are those visited after `k` rounds. */
  lemma {:induction false} SearchesAgree(garden: Garden, maxDistance: int, distances: map<Coordinates, int>,
                                         k: nat, p: Coordinates)
    requires garden.size > 0 && ShortestDistances(garden, maxDistance, distances) && k <= maxDistance
    ensures (p in distances && distances[p] <= k) <==> p in Explore(garden, k).visited
  {
    ExploreWithin(garden, k, p);
    if p in distances && distances[p] <= k {
      WithinMore(garden, p, distances[p], k);
    }
  }

  // ---------------------------------------------------------------------
  // Part two: the quadratic fit

  /** The step count of part two. */
  const TotalSteps := 26_501_365

  /** The entries of `distances` no farther than `bound` whose parity is
      odd (`odd`) or even (`!odd`). */
  function Reached(distances: map<Coordinates, int>, bound: int, odd: bool): nat
  {
    |set p | p in distances && distances[p] <= bound && (distances[p] % 2 != 0) == odd|
  }

  /** The quadratic through `(0, y0)`, `(1, y0 + y1)` and `(2, y0 + y2)`,
      with the halving of Rust's truncating division, at `n`. */
  function Extrapolate(y0: int, y1: int, y2: int, n: int): int
  {
    var a := DivT(y2 - 2 * y1, 2);
    var b := y1 - a;
    a * n * n + b * n + y0
  }

  /** The fitted quadratic passes through the first two points, and
      through the third exactly when `y2 - 2 * y1` is even; otherwise it
      misses it by one. */
  lemma {:induction false} ExtrapolateFits(y0: int, y1: int, y2: int)
    ensures Extrapolate(y0, y1, y2, 0) == y0
    ensures Extrapolate(y0, y1, y2, 1) == y0 + y1
    ensures Extrapolate(y0, y1, y2, 2) == y0 + y2 - RemT(y2 - 2 * y1, 2)
  {
    var e := y2 - 2 * y1;
    DivRemT(e, 2);
    var a := DivT(e, 2);
    assert e == 2 * a + RemT(e, 2);
    assert Extrapolate(y0, y1, y2, 2) == 4 * a + 2 * (y1 - a) + y0;
  }

  /** `part2`: distances up to two and a half plots, the odd plots within
      half a plot, the even ones within one and a half and the odd ones
      within two and a half, extrapolated quadratically to the number of
      whole plots the step count spans. */
  method Part2(garden: Garden) returns (r: int, ghost distances: map<Coordinates, int>)
    requires garden.size > 0
    ensures var half := garden.size / 2;
      ShortestDistances(garden, half + garden.size * 2, distances)
    ensures var half := garden.size / 2;
      var y0 := Reached(distances, half, true);
      var y1 := Reached(distances, half + garden.size, false) - y0;
      var y2 := Reached(distances, half + garden.size * 2, true) - y0;
      r == Extrapolate(y0, y1, y2, DivT(TotalSteps - half, garden.size))
  {
    var half := garden.size / 2;
    var n := DivT(TotalSteps - half, garden.size);
    var found := CalculateDistances(garden, half + garden.size * 2);
    distances := found;
    var y0 := Reached(found, half, true);
    var y1 := Reached(found, half + garden.size, false) - y0;
    var y2 := Reached(found, half + garden.size * 2, true) - y0;
    r := Extrapolate(y0, y1, y2, n);
  }
}
