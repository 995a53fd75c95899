/** Day 11, "Cosmic Expansion": the galaxies of an image, after every
    empty column and every empty row has been widened by a factor, and the
    sum of the Manhattan distances between all pairs of galaxies. */
module Day11 {
  import opened Common

  /** A galaxy's (x, y) position. */
  type Coordinates = (int, int)

  /** The coordinate the current pass works on: x when byX, else y. */
  function Key(c: Coordinates, byX: bool): int
  {
    if byX then c.0 else c.1
  }

  /** c moved by d along the pass's axis. */
  function Shift(c: Coordinates, byX: bool, d: int): (r: Coordinates)
    ensures Key(r, byX) == Key(c, byX) + d && Key(r, !byX) == Key(c, !byX)
  {
    if byX then (c.0 + d, c.1) else (c.0, c.1 + d)
  }

  // ---------------------------------------------------------------------
  // Sorting by one coordinate

  predicate AscendingIn(s: seq<Coordinates>, byX: bool, lo: nat, hi: nat)
    requires lo <= hi <= |s|
  {
    forall k :: lo < k < hi ==> Key(s[k - 1], byX) <= Key(s[k], byX)
  }

  /** Every galaxy's coordinate is at most that of every later one. */
  predicate SortedBy(s: seq<Coordinates>, byX: bool)
  {
    forall i, j :: 0 <= i < j < |s| ==> Key(s[i], byX) <= Key(s[j], byX)
  }

  lemma {:induction false} AscendingIsSorted(s: seq<Coordinates>, byX: bool)
    requires AscendingIn(s, byX, 0, |s|)
    ensures SortedBy(s, byX)
  {
    forall i, j | 0 <= i < j < |s| ensures Key(s[i], byX) <= Key(s[j], byX) {
      AscendingPair(s, byX, i, j);
    }
  }

  lemma {:induction false} AscendingPair(s: seq<Coordinates>, byX: bool, i: nat, j: nat)
    requires AscendingIn(s, byX, 0, |s|) && i < j < |s|
    ensures Key(s[i], byX) <= Key(s[j], byX)
    decreases j - i
  {
    if i + 1 < j {
      AscendingPair(s, byX, i, j - 1);
    }
  }

  /** The state of the insertion of galaxy i: those before j and those from
      j to i are each in order, and the one before j is no greater than the
      one after it. */
  predicate Inserting(s: seq<Coordinates>, byX: bool, i: nat, j: nat)
    requires j <= i < |s|
  {
    AscendingIn(s, byX, 0, j) && AscendingIn(s, byX, j, i + 1)
    && (0 < j < i ==> Key(s[j - 1], byX) <= Key(s[j + 1], byX))
  }

  /** s with its galaxies at j - 1 and j exchanged. */
  function Swap(s: seq<Coordinates>, j: nat): (r: seq<Coordinates>)
    requires 0 < j < |s|
    ensures |r| == |s| && multiset(r) == multiset(s)
    ensures r[j - 1] == s[j] && r[j] == s[j - 1]
    ensures forall k :: 0 <= k < |s| && k != j - 1 && k != j ==> r[k] == s[k]
  {
    s[j - 1 := s[j]][j := s[j - 1]]
  }

  lemma {:induction false} SwapStep(s: seq<Coordinates>, byX: bool, i: nat, j: nat)
    requires 0 < j <= i < |s| && Inserting(s, byX, i, j)
    requires Key(s[j - 1], byX) > Key(s[j], byX)
    ensures Inserting(Swap(s, j), byX, i, j - 1)
  {
    var r := Swap(s, j);
    forall k | j - 1 < k < i + 1 ensures Key(r[k - 1], byX) <= Key(r[k], byX) {
      if k == j + 1 {
        assert r[k - 1] == s[j - 1] && r[k] == s[j + 1];
      }
    }
    if 1 < j {
      assert Key(s[j - 2], byX) <= Key(s[j - 1], byX);
    }
  }

  /** One pass of the insertion: galaxy i sinks past every greater one. */
  method Insert(a: array<Coordinates>, byX: bool, i: nat)
    requires i < a.Length && AscendingIn(a[..], byX, 0, i)
    modifies a
    ensures AscendingIn(a[..], byX, 0, i + 1)
    ensures multiset(a[..]) == multiset(old(a[..]))
  {
    var j := i;
    while j > 0 && Key(a[j - 1], byX) > Key(a[j], byX)
      invariant 0 <= j <= i
      invariant Inserting(a[..], byX, i, j)
      invariant multiset(a[..]) == multiset(old(a[..]))
    {
      SwapStep(a[..], byX, i, j);
      assert Swap(a[..], j) == a[..][j - 1 := a[j]][j := a[j - 1]];
      a[j - 1], a[j] := a[j], a[j - 1];
      j := j - 1;
    }
  }

  /** `sort_unstable_by` on one coordinate: any arrangement in order of that
      coordinate will do, here the one an insertion sort produces. */
  method SortBy(a: array<Coordinates>, byX: bool)
    modifies a
    ensures SortedBy(a[..], byX)
    ensures multiset(a[..]) == multiset(old(a[..]))
  {
    var i := 0;
    while i < a.Length
      invariant i <= a.Length
      invariant AscendingIn(a[..], byX, 0, i)
      invariant multiset(a[..]) == multiset(old(a[..]))
    {
      Insert(a, byX, i);
      i := i + 1;
    }
    AscendingIsSorted(a[..], byX);
  }

  // ---------------------------------------------------------------------
  // Expansion along one axis

  /** The empty lines the pass counts just before galaxy i: the gap between
      its coordinate and the previous galaxy's (0 before the first). */
  function Gap(s: seq<Coordinates>, byX: bool, i: nat): int
    requires i < |s|
  {
    var previous := if i == 0 then 0 else Key(s[i - 1], byX);
    Max(Key(s[i], byX) - previous - 1, 0)
  }

  /** The running count of empty lines up to and including galaxy i's gap. */
  function Gaps(s: seq<Coordinates>, byX: bool, i: nat): int
    requires i < |s|
  {
    if i == 0 then Gap(s, byX, 0) else Gaps(s, byX, i - 1) + Gap(s, byX, i)
  }

  /** Galaxy i moved along the axis by (factor - 1) times the empty lines
      counted up to it. */
  function ExpandedAt(s: seq<Coordinates>, byX: bool, factor: int, i: nat): Coordinates
    requires i < |s|
  {
    Shift(s[i], byX, Gaps(s, byX, i) * (factor - 1))
  }

  /** Every galaxy moved so. */
  function Expanded(s: seq<Coordinates>, byX: bool, factor: int): (r: seq<Coordinates>)
    ensures |r| == |s| && forall i :: 0 <= i < |s| ==> r[i] == ExpandedAt(s, byX, factor, i)
  {
    seq(|s|, i requires 0 <= i < |s| => ExpandedAt(s, byX, factor, i))
  }

  /** The first i galaxies of t are those of s expanded, the rest are as in s. */
  predicate ExpandedPrefix(t: seq<Coordinates>, s: seq<Coordinates>, byX: bool, factor: int, i: nat)
    requires |t| == |s| && i <= |s|
  {
    (forall k :: 0 <= k < i ==> t[k] == ExpandedAt(s, byX, factor, k))
    && (forall k :: i <= k < |s| ==> t[k] == s[k])
  }

  lemma {:induction false} ExpandStep(t: seq<Coordinates>, s: seq<Coordinates>, byX: bool, factor: int, i: nat,
                                      emptyCount: int, lastNonEmpty: int)
    requires |t| == |s| && i < |s| && ExpandedPrefix(t, s, byX, factor, i)
    requires i > 0 ==> emptyCount == Gaps(s, byX, i - 1) && lastNonEmpty == Key(s[i - 1], byX)
    requires i == 0 ==> emptyCount == 0 && lastNonEmpty == 0
    ensures var count := emptyCount + Max(Key(t[i], byX) - lastNonEmpty - 1, 0);
      count == Gaps(s, byX, i)
      && ExpandedPrefix(t[i := Shift(t[i], byX, count * (factor - 1))], s, byX, factor, i + 1)
  {
  }

  /** The `iter_mut` pass after a sort: running counts of empty lines and of
      the last occupied line, each coordinate rewritten in place. */
  method Expand(a: array<Coordinates>, byX: bool, factor: int)
    modifies a
    ensures a[..] == Expanded(old(a[..]), byX, factor)
  {
    ghost var s := a[..];
    var emptyCount := 0;
    var lastNonEmpty := 0;
    var i := 0;
    while i < a.Length
      invariant i <= a.Length && |s| == a.Length
      invariant ExpandedPrefix(a[..], s, byX, factor, i)
      invariant i > 0 ==> emptyCount == Gaps(s, byX, i - 1) && lastNonEmpty == Key(s[i - 1], byX)
      invariant i == 0 ==> emptyCount == 0 && lastNonEmpty == 0
    {
      ghost var t := a[..];
      ExpandStep(t, s, byX, factor, i, emptyCount, lastNonEmpty);
      var c := a[i];
      emptyCount := emptyCount + Max(Key(c, byX) - lastNonEmpty - 1, 0);
      lastNonEmpty := Key(c, byX);
      a[i] := Shift(c, byX, emptyCount * (factor - 1));
      assert a[..] == t[i := Shift(c, byX, emptyCount * (factor - 1))];
      i := i + 1;
    }
    PrefixComplete(a[..], s, byX, factor);
  }

  lemma {:induction false} PrefixComplete(t: seq<Coordinates>, s: seq<Coordinates>, byX: bool, factor: int)
    requires |t| == |s| && ExpandedPrefix(t, s, byX, factor, |s|)
    ensures t == Expanded(s, byX, factor)
  {
  }

  /** The line c is that of some galaxy. */
  predicate Occupied(s: seq<Coordinates>, byX: bool, c: int)
  {
    exists k :: 0 <= k < |s| && Key(s[k], byX) == c
  }

  /** The number of empty lines strictly between lo and hi. */
  function EmptyBetween(s: seq<Coordinates>, byX: bool, lo: int, hi: int): nat
    decreases hi - lo
  {
    if hi <= lo + 1 then 0
    else EmptyBetween(s, byX, lo, hi - 1) + (if Occupied(s, byX, hi - 1) then 0 else 1)
  }

  lemma {:induction false} EmptySplit(s: seq<Coordinates>, byX: bool, lo: int, mid: int, hi: int)
    requires lo <= mid <= hi
    ensures EmptyBetween(s, byX, lo, hi)
            == EmptyBetween(s, byX, lo, mid)
               + (if lo < mid < hi && !Occupied(s, byX, mid) then 1 else 0)
               + EmptyBetween(s, byX, mid, hi)
    decreases hi - mid
  {
    if mid < hi {
      if mid + 1 < hi {
        EmptySplit(s, byX, lo, mid, hi - 1);
      }
    }
  }

  lemma {:induction false} EmptyFree(s: seq<Coordinates>, byX: bool, lo: int, hi: int)
    requires forall c :: lo < c < hi ==> !Occupied(s, byX, c)
    ensures EmptyBetween(s, byX, lo, hi) == Max(hi - lo - 1, 0)
    decreases hi - lo
  {
    if hi > lo + 1 {
      EmptyFree(s, byX, lo, hi - 1);
    }
  }

  /** Between two galaxies in sorted order, the counts of empty lines differ
      by the number of empty lines strictly between them: the pass widens
      exactly the empty lines. */
  lemma {:induction false} GapsCountEmptyLines(s: seq<Coordinates>, byX: bool, i: nat, j: nat)
    requires SortedBy(s, byX) && i <= j < |s|
    ensures Gaps(s, byX, j) - Gaps(s, byX, i) == EmptyBetween(s, byX, Key(s[i], byX), Key(s[j], byX))
    decreases j - i
  {
    if i < j {
      GapsCountEmptyLines(s, byX, i, j - 1);
      var lo, mid, hi := Key(s[i], byX), Key(s[j - 1], byX), Key(s[j], byX);
      assert lo <= mid <= hi;
      assert Occupied(s, byX, mid);
      EmptySplit(s, byX, lo, mid, hi);
      forall c | mid < c < hi ensures !Occupied(s, byX, c) {
      }
      EmptyFree(s, byX, mid, hi);
    }
  }

  /** The distance along the axis between two galaxies in sorted order grows
      by (factor - 1) for every empty line between them. */
  lemma {:induction false} ExpandedDistance(s: seq<Coordinates>, byX: bool, factor: int, i: nat, j: nat)
    requires SortedBy(s, byX) && i <= j < |s|
    ensures Key(ExpandedAt(s, byX, factor, j), byX) - Key(ExpandedAt(s, byX, factor, i), byX)
            == Key(s[j], byX) - Key(s[i], byX) + (factor - 1) * EmptyBetween(s, byX, Key(s[i], byX), Key(s[j], byX))
  {
    GapsCountEmptyLines(s, byX, i, j);
    Distribute(Gaps(s, byX, j), Gaps(s, byX, i), factor - 1);
  }

  lemma Distribute(a: int, b: int, c: int)
    ensures a * c - b * c == c * (a - b)
  {
  }

  /** For a factor of at least 1, expansion keeps the galaxies' order along
      the axis, strict order included, and leaves the other coordinate. */
  lemma {:induction false} ExpansionKeepsOrder(s: seq<Coordinates>, byX: bool, factor: int, i: nat, j: nat)
    requires SortedBy(s, byX) && factor >= 1 && i <= j < |s|
    ensures var e := Expanded(s, byX, factor);
      Key(e[i], byX) <= Key(e[j], byX)
      && (Key(s[i], byX) < Key(s[j], byX) ==> Key(e[i], byX) < Key(e[j], byX))
      && Key(e[i], !byX) == Key(s[i], !byX)
  {
    ExpandedDistance(s, byX, factor, i, j);
    NonNegativeProduct(factor - 1, EmptyBetween(s, byX, Key(s[i], byX), Key(s[j], byX)));
  }

  lemma NonNegativeProduct(a: int, b: int)
    requires a >= 0 && b >= 0
    ensures a * b >= 0
  {
  }

  // ---------------------------------------------------------------------
  // The sum over pairs

  function Distance(a: Coordinates, b: Coordinates): nat
  {
    Abs(b.0 - a.0) + Abs(b.1 - a.1)
  }

  /** The distances from galaxy i to the galaxies i + 1 .. j - 1. */
  function RowSum(s: seq<Coordinates>, i: nat, j: nat): nat
    requires i < j <= |s|
    decreases j
  {
    if j == i + 1 then 0 else RowSum(s, i, j - 1) + Distance(s[i], s[j - 1])
  }

  /** The distances of the pairs whose first galaxy comes before n. */
  function PairsBefore(s: seq<Coordinates>, n: nat): nat
    requires n <= |s|
  {
    if n == 0 then 0 else PairsBefore(s, n - 1) + RowSum(s, n - 1, |s|)
  }

  /** The sum of the distances over all unordered pairs. */
  function DistanceSum(s: seq<Coordinates>): nat
  {
    PairsBefore(s, |s|)
  }

  lemma {:induction false} LastRowEmpty(s: seq<Coordinates>)
    requires |s| >= 1
    ensures DistanceSum(s) == PairsBefore(s, |s| - 1)
  {
  }

  /** The nested index loops over i < j. */
  method SumPairs(e: array<Coordinates>) returns (distanceSum: nat)
    requires e.Length >= 1
    ensures distanceSum == DistanceSum(e[..])
  {
    distanceSum := 0;
    var i := 0;
    while i < e.Length - 1
      invariant i <= e.Length - 1
      invariant distanceSum == PairsBefore(e[..], i)
    {
      var j := i + 1;
      ghost var before := distanceSum;
      while j < e.Length
        invariant i < j <= e.Length
        invariant distanceSum == before + RowSum(e[..], i, j)
      {
        var ci := e[i];
        var cj := e[j];
        distanceSum := distanceSum + (Abs(cj.0 - ci.0) + Abs(cj.1 - ci.1));
        j := j + 1;
      }
      i := i + 1;
    }
    LastRowEmpty(e[..]);
  }

  /** e is the image expanded as `sum_of_distances` does: sorted by x and
      expanded along x, then sorted by y and expanded along y. */
  ghost predicate Expansion(image: seq<Coordinates>, factor: int, e: seq<Coordinates>)
  {
    exists byColumn: seq<Coordinates>, byRow: seq<Coordinates> ::
      SortedBy(byColumn, true) && multiset(byColumn) == multiset(image)
      && SortedBy(byRow, false) && multiset(byRow) == multiset(Expanded(byColumn, true, factor))
      && e == Expanded(byRow, false, factor)
  }

  /** The sum of the distances between all pairs of galaxies once every
      empty column and row is `factor` wide. The source's `len() - 1` on an
      empty image underflows, so the image has a galaxy. */
  method SumOfDistances(image: seq<Coordinates>, factor: int) returns (distanceSum: nat)
    requires |image| >= 1
    ensures exists e :: Expansion(image, factor, e) && distanceSum == DistanceSum(e)
  {
    var expanded := new Coordinates[|image|](i requires 0 <= i < |image| => image[i]);
    assert expanded[..] == image;
    SortBy(expanded, true);
    ghost var byColumn := expanded[..];
    Expand(expanded, true, factor);
    SortBy(expanded, false);
    ghost var byRow := expanded[..];
    Expand(expanded, false, factor);
    distanceSum := SumPairs(expanded);
    assert Expansion(image, factor, expanded[..]);
  }

  /** Part one: empty lines become two wide. */
  method Part1(image: seq<Coordinates>) returns (distanceSum: nat)
    requires |image| >= 1
    ensures exists e :: Expansion(image, 2, e) && distanceSum == DistanceSum(e)
  {
    distanceSum := SumOfDistances(image, 2);
  }

  /** Part two: empty lines become a million wide. */
  method Part2(image: seq<Coordinates>) returns (distanceSum: nat)
    requires |image| >= 1
    ensures exists e :: Expansion(image, 1000000, e) && distanceSum == DistanceSum(e)
  {
    distanceSum := SumOfDistances(image, 1000000);
  }
}
