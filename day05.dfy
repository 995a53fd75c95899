/** Day 5, "If You Give A Seed A Fertilizer": ids pass through a chain of
    category maps, each made of lines that shift one source range of ids to
    a destination range; ids that no line covers keep their value. Part one
    maps single seeds, part two whole ranges of seeds, splitting a range
    wherever it straddles the edge of a map line. */
module Day05 {
  import opened Common

  /** `MapLine`: ids in [sourceStart, sourceStart + length) move to
      destinationStart + (id - sourceStart). */
  datatype MapLine = MapLine(destinationStart: nat, sourceStart: nat, length: nat)

  type CategoryMap = seq<MapLine>

  predicate Covers(line: MapLine, id: int)
  {
    line.sourceStart <= id < line.sourceStart + line.length
  }

  function Shift(line: MapLine, id: int): int
  {
    line.destinationStart + (id - line.sourceStart)
  }

  /** The id after one category map: moved by the first line that covers it,
      unchanged when none does. */
  function MapId(m: CategoryMap, id: int): int
  {
    if m == [] then id else if Covers(m[0], id) then Shift(m[0], id) else MapId(m[1..], id)
  }

  /** The first line that covers an id decides where it goes. */
  lemma {:induction false} MapIdFirstLine(m: CategoryMap, id: int, j: nat)
    requires j < |m| && Covers(m[j], id)
    requires forall i :: 0 <= i < j ==> !Covers(m[i], id)
    ensures MapId(m, id) == Shift(m[j], id)
  {
    if j > 0 {
      assert !Covers(m[0], id);
      MapIdFirstLine(m[1..], id, j - 1);
    }
  }

  /** An id that no line covers keeps its value. */
  lemma {:induction false} MapIdUncovered(m: CategoryMap, id: int)
    requires forall i :: 0 <= i < |m| ==> !Covers(m[i], id)
    ensures MapId(m, id) == id
  {
    if m != [] {
      assert !Covers(m[0], id);
      MapIdUncovered(m[1..], id);
    }
  }

  /** A seed's location: its id after every map in turn. */
  function Location(maps: seq<CategoryMap>, id: int): int
  {
    if maps == [] then id else MapId(maps[|maps| - 1], Location(maps[..|maps| - 1], id))
  }

  /** `location`: the source's loop over the maps, each with an inner loop
      over the lines that stops at the first line covering the id. */
  method LocationOf(seed: nat, maps: seq<CategoryMap>) returns (id: int)
    ensures id == Location(maps, seed)
  {
    id := seed;
    var k := 0;
    while k < |maps|
      invariant 0 <= k <= |maps| && id == Location(maps[..k], seed)
    {
      var m := maps[k];
      ghost var before := id;
      var j := 0;
      while j < |m|
        invariant 0 <= j <= |m| && MapId(m, before) == MapId(m[j..], before) && id == before
      {
        if id >= m[j].sourceStart && id < m[j].sourceStart + m[j].length {
          id := m[j].destinationStart + (id - m[j].sourceStart);
          break;
        }
        assert m[j..][1..] == m[j + 1..];
        j := j + 1;
      }
      assert maps[..k + 1][..k] == maps[..k];
      k := k + 1;
    }
    assert maps[..k] == maps;
  }

  /** Part one: the lowest location of any seed. The source unwraps the
      minimum, so there is at least one seed. */
  function Part1(seeds: seq<nat>, maps: seq<CategoryMap>): (r: int)
    requires |seeds| > 0
  {
    if |seeds| == 1 then Location(maps, seeds[0])
    else
      var rest := Part1(seeds[1..], maps);
      if Location(maps, seeds[0]) < rest then Location(maps, seeds[0]) else rest
  }

  /** Part one is the least location, and some seed reaches it. */
  lemma {:induction false} Part1IsLeast(seeds: seq<nat>, maps: seq<CategoryMap>)
    requires |seeds| > 0
    ensures forall i :: 0 <= i < |seeds| ==> Part1(seeds, maps) <= Location(maps, seeds[i])
    ensures exists i :: 0 <= i < |seeds| && Part1(seeds, maps) == Location(maps, seeds[i])
  {
    if |seeds| == 1 {
      assert Part1(seeds, maps) == Location(maps, seeds[0]);
    } else {
      var rest := seeds[1..];
      Part1IsLeast(rest, maps);
      assert forall i :: 1 <= i < |seeds| ==> seeds[i] == rest[i - 1];
      var w :| 0 <= w < |rest| && Part1(rest, maps) == Location(maps, rest[w]);
      assert seeds[w + 1] == rest[w];
      if Location(maps, seeds[0]) < Part1(rest, maps) {
        assert Part1(seeds, maps) == Location(maps, seeds[0]);
      } else {
        assert Part1(seeds, maps) == Location(maps, seeds[w + 1]);
      }
    }
  }

  // ---------------------------------------------------------------------
  // Part two: ranges of ids

  /** An inclusive range of ids; it holds no id when lo > hi. */
  datatype Range = Range(lo: int, hi: int)

  predicate Within(r: Range, x: int)
  {
    r.lo <= x <= r.hi
  }

  /** The ids of a list of ranges. */
  ghost function Ids(rs: seq<Range>): set<int>
  {
    set i, x | 0 <= i < |rs| && rs[i].lo <= x <= rs[i].hi && Within(rs[i], x) :: x
  }

  ghost function Span(r: Range): set<int>
  {
    set x | r.lo <= x <= r.hi && Within(r, x)
  }

  /** How many ids a range holds. */
  function Width(r: Range): nat
  {
    if r.hi < r.lo then 0 else r.hi - r.lo + 1
  }

  /** How many ids the ranges hold, counting overlaps once per range. */
  function Size(rs: seq<Range>): nat
  {
    if rs == [] then 0 else Size(rs[..|rs| - 1]) + Width(rs[|rs| - 1])
  }

  lemma {:induction false} IdsAppend(rs: seq<Range>, r: Range)
    ensures Ids(rs + [r]) == Ids(rs) + Span(r)
  {
    var rs' := rs + [r];
    forall x | x in Ids(rs') ensures x in Ids(rs) + Span(r) {
      var i :| 0 <= i < |rs'| && Within(rs'[i], x);
      if i < |rs| {
        assert rs[i] == rs'[i];
      }
    }
    forall x | x in Ids(rs) + Span(r) ensures x in Ids(rs') {
      if x in Ids(rs) {
        var i :| 0 <= i < |rs| && Within(rs[i], x);
        assert rs'[i] == rs[i] && Within(rs'[i], x);
      } else {
        assert rs'[|rs|] == r && Within(rs'[|rs|], x);
      }
    }
  }

  lemma {:induction false} SizeAppend(rs: seq<Range>, r: Range)
    ensures Size(rs + [r]) == Size(rs) + Width(r)
  {
    assert (rs + [r])[..|rs|] == rs;
  }

  /** The ids of a set, after one category map. */
  ghost function Image(m: CategoryMap, xs: set<int>): set<int>
  {
    set x | x in xs :: MapId(m, x)
  }

  /** The ids of a set, after every map in turn. */
  ghost function LocationImage(maps: seq<CategoryMap>, xs: set<int>): set<int>
  {
    set x | x in xs :: Location(maps, x)
  }

  lemma {:induction false} ImageUnion(m: CategoryMap, a: set<int>, b: set<int>)
    ensures Image(m, a + b) == Image(m, a) + Image(m, b)
  {
  }

  predicate Overlaps(line: MapLine, r: Range)
  {
    line.sourceStart <= r.hi && line.sourceStart + line.length - 1 >= r.lo
  }

  /** The piece of a range below a line's source range; empty when the
      range starts inside or above it. */
  function Below(line: MapLine, r: Range): Range
  {
    Range(r.lo, line.sourceStart - 1)
  }

  /** The piece of a range above a line's source range. */
  function Above(line: MapLine, r: Range): Range
  {
    Range(line.sourceStart + line.length, r.hi)
  }

  /** The part of a range inside a line's source range. */
  function Inside(line: MapLine, r: Range): Range
  {
    Range(Max(line.sourceStart, r.lo), Min(line.sourceStart + line.length - 1, r.hi))
  }

  /** Where the line sends the part inside it. */
  function Moved(line: MapLine, r: Range): Range
  {
    var ov := Inside(line, r);
    Range(ov.lo - line.sourceStart + line.destinationStart, ov.hi - line.sourceStart + line.destinationStart)
  }

  /** Below, inside and above partition a range that overlaps the line,
      and the moved part holds as many ids as the part inside. */
  lemma {:induction false} Partition(line: MapLine, r: Range)
    requires Overlaps(line, r)
    ensures Span(r) == Span(Below(line, r)) + Span(Inside(line, r)) + Span(Above(line, r))
    ensures Width(r) == Width(Below(line, r)) + Width(Moved(line, r)) + Width(Above(line, r))
  {
  }

  /** Every id inside the first overlapping line is moved by that line. */
  lemma {:induction false} InsideImage(m: CategoryMap, r: Range, j: nat)
    requires j < |m| && Overlaps(m[j], r)
    requires forall i :: 0 <= i < j ==> !Overlaps(m[i], r)
    ensures Image(m, Span(Inside(m[j], r))) == Span(Moved(m[j], r))
  {
    var line := m[j];
    var ov := Inside(line, r);
    forall x | x in Span(ov) ensures MapId(m, x) == Shift(line, x) {
      forall i | 0 <= i < j ensures !Covers(m[i], x) {
        assert !Overlaps(m[i], r);
      }
      MapIdFirstLine(m, x, j);
    }
    forall y | y in Span(Moved(line, r)) ensures y in Image(m, Span(ov)) {
      var x := y - line.destinationStart + line.sourceStart;
      assert x in Span(ov) && MapId(m, x) == y;
    }
  }

  /** Splitting a range at its first overlapping line: the pieces below and
      above keep their ids for a later look, and the part inside moves by
      the line's offset with its length kept. */
  lemma {:induction false} SplitImage(m: CategoryMap, r: Range, j: nat)
    requires j < |m| && Overlaps(m[j], r)
    requires forall i :: 0 <= i < j ==> !Overlaps(m[i], r)
    ensures Image(m, Span(r)) == Image(m, Span(Below(m[j], r))) + Span(Moved(m[j], r)) + Image(m, Span(Above(m[j], r)))
    ensures Width(r) == Width(Below(m[j], r)) + Width(Moved(m[j], r)) + Width(Above(m[j], r))
  {
    Partition(m[j], r);
    InsideImage(m, r, j);
    ImageUnion(m, Span(Below(m[j], r)) + Span(Inside(m[j], r)), Span(Above(m[j], r)));
    ImageUnion(m, Span(Below(m[j], r)), Span(Inside(m[j], r)));
  }

  /** A range that overlaps no line keeps every id. */
  lemma {:induction false} UncoveredImage(m: CategoryMap, r: Range)
    requires forall i :: 0 <= i < |m| ==> !Overlaps(m[i], r)
    ensures Image(m, Span(r)) == Span(r)
  {
    forall x | x in Span(r) ensures MapId(m, x) == x {
      forall i | 0 <= i < |m| ensures !Covers(m[i], x) {
        assert !Overlaps(m[i], r);
      }
      MapIdUncovered(m, x);
    }
  }

  /** The loop state of one map's pass: the ranges already mapped, plus the
      image of those still waiting, are the image of the whole input, and
      the number of ids is kept. */
  ghost predicate PassInv(m: CategoryMap, input: seq<Range>, waiting: seq<Range>, done: seq<Range>)
  {
    Ids(done) + Image(m, Ids(waiting)) == Image(m, Ids(input))
    && Size(done) + Size(waiting) == Size(input)
    && (AllNonEmpty(input) ==> AllNonEmpty(waiting) && AllNonEmpty(done))
    && |done| + |waiting| >= |input|
  }

  predicate AllNonEmpty(rs: seq<Range>)
  {
    forall i :: 0 <= i < |rs| ==> rs[i].lo <= rs[i].hi
  }

  /** Every line maps at least one id. (The source also subtracts one from
      a line's end in unsigned arithmetic, which would fail for a
      zero-length line at 0.) */
  predicate LinesNonEmpty(m: CategoryMap)
  {
    forall j :: 0 <= j < |m| ==> m[j].length >= 1
  }

  /** The pieces re-queued after a split: those that hold ids. */
  function Requeued(line: MapLine, r: Range): seq<Range>
  {
    (if r.lo < line.sourceStart then [Below(line, r)] else [])
    + (if r.hi > line.sourceStart + line.length - 1 then [Above(line, r)] else [])
  }

  lemma {:induction false} RequeuedIds(rest: seq<Range>, line: MapLine, r: Range)
    ensures Ids(rest + Requeued(line, r)) == Ids(rest) + Span(Below(line, r)) + Span(Above(line, r))
    ensures Size(rest + Requeued(line, r)) == Size(rest) + Width(Below(line, r)) + Width(Above(line, r))
  {
    var low := if r.lo < line.sourceStart then [Below(line, r)] else [];
    var high := if r.hi > line.sourceStart + line.length - 1 then [Above(line, r)] else [];
    assert rest + Requeued(line, r) == (rest + low) + high;
    if low != [] {
      IdsAppend(rest, low[0]);
      SizeAppend(rest, low[0]);
    } else {
      assert rest + low == rest;
      assert Span(Below(line, r)) == {};
    }
    if high != [] {
      IdsAppend(rest + low, high[0]);
      SizeAppend(rest + low, high[0]);
    } else {
      assert (rest + low) + high == rest + low;
      assert Span(Above(line, r)) == {};
    }
  }

  lemma {:induction false} PassStep(m: CategoryMap, input: seq<Range>, waiting: seq<Range>, done: seq<Range>,
                 rest: seq<Range>, r: Range, j: nat)
    requires j < |m| && Overlaps(m[j], r) && forall i :: 0 <= i < j ==> !Overlaps(m[i], r)
    requires m[j].length >= 1
    requires waiting == rest + [r] && PassInv(m, input, waiting, done)
    ensures PassInv(m, input, rest + Requeued(m[j], r), done + [Moved(m[j], r)])
    ensures Size(rest + Requeued(m[j], r)) < Size(waiting)
            || (Size(rest + Requeued(m[j], r)) == Size(waiting) && Requeued(m[j], r) == [])
  {
    PassIds(m, waiting, done, rest, r, j);
    PassSize(m[j], waiting, done, rest, r);
    if AllNonEmpty(input) {
      PassShape(m[j], waiting, done, rest, r);
    }
  }

  /** With a non-empty range and a non-empty line every piece is non-empty. */
  lemma {:induction false} PassShape(line: MapLine, waiting: seq<Range>, done: seq<Range>, rest: seq<Range>, r: Range)
    requires Overlaps(line, r) && line.length >= 1
    requires waiting == rest + [r] && AllNonEmpty(waiting) && AllNonEmpty(done)
    ensures AllNonEmpty(rest + Requeued(line, r)) && AllNonEmpty(done + [Moved(line, r)])
  {
    assert r == waiting[|rest|];
    assert forall i :: 0 <= i < |rest| ==> rest[i] == waiting[i];
  }

  lemma {:induction false} PassIds(m: CategoryMap, waiting: seq<Range>, done: seq<Range>, rest: seq<Range>, r: Range, j: nat)
    requires j < |m| && Overlaps(m[j], r) && forall i :: 0 <= i < j ==> !Overlaps(m[i], r)
    requires waiting == rest + [r]
    ensures Ids(done + [Moved(m[j], r)]) + Image(m, Ids(rest + Requeued(m[j], r)))
            == Ids(done) + Image(m, Ids(waiting))
  {
    var line := m[j];
    var a, b, d := Ids(rest), Span(Below(line, r)), Span(Above(line, r));
    var v := Span(Moved(line, r));
    IdsAppend(rest, r);
    ImageUnion(m, a, Span(r));
    SplitImage(m, r, j);
    assert Image(m, Ids(waiting)) == Image(m, a) + (Image(m, b) + v + Image(m, d));
    IdsAppend(done, Moved(line, r));
    RequeuedIds(rest, line, r);
    ImageUnion(m, a + b, d);
    ImageUnion(m, a, b);
    assert Image(m, Ids(rest + Requeued(line, r))) == Image(m, a) + Image(m, b) + Image(m, d);
    Regroup(Ids(done), v, Image(m, a), Image(m, b), Image(m, d));
  }

  lemma {:induction false} PassSize(line: MapLine, waiting: seq<Range>, done: seq<Range>, rest: seq<Range>, r: Range)
    requires Overlaps(line, r) && line.length >= 1
    requires waiting == rest + [r]
    ensures Size(done + [Moved(line, r)]) + Size(rest + Requeued(line, r)) == Size(done) + Size(waiting)
    ensures Size(rest + Requeued(line, r)) < Size(waiting)
            || (Size(rest + Requeued(line, r)) == Size(waiting) && Requeued(line, r) == [])
  {
    SizeAppend(rest, r);
    SizeAppend(done, Moved(line, r));
    Partition(line, r);
    RequeuedIds(rest, line, r);
  }

  lemma {:induction false} Regroup(d: set<int>, v: set<int>, a: set<int>, b: set<int>, c: set<int>)
    ensures d + (a + (b + v + c)) == (d + v) + (a + b + c)
  {
  }

  lemma {:induction false} CopyStep(m: CategoryMap, input: seq<Range>, waiting: seq<Range>, done: seq<Range>,
                 rest: seq<Range>, r: Range)
    requires forall i :: 0 <= i < |m| ==> !Overlaps(m[i], r)
    requires waiting == rest + [r] && PassInv(m, input, waiting, done)
    ensures PassInv(m, input, rest, done + [r])
  {
    CopyIds(m, waiting, done, rest, r);
    SizeAppend(rest, r);
    SizeAppend(done, r);
    assert r == waiting[|rest|];
    assert forall i :: 0 <= i < |rest| ==> rest[i] == waiting[i];
  }

  lemma {:induction false} CopyIds(m: CategoryMap, waiting: seq<Range>, done: seq<Range>, rest: seq<Range>, r: Range)
    requires forall i :: 0 <= i < |m| ==> !Overlaps(m[i], r)
    requires waiting == rest + [r]
    ensures Ids(done + [r]) + Image(m, Ids(rest)) == Ids(done) + Image(m, Ids(waiting))
  {
    IdsAppend(rest, r);
    ImageUnion(m, Ids(rest), Span(r));
    UncoveredImage(m, r);
    IdsAppend(done, r);
  }

  /** One map's pass of part two: ranges are popped from the end of the
      work list; the first line that overlaps a range maps the part inside
      it and re-queues the pieces below and above, and a range that no line
      overlaps is copied unchanged. */
  method ApplyMap(m: CategoryMap, input: seq<Range>) returns (output: seq<Range>)
    requires LinesNonEmpty(m)
    ensures Ids(output) == Image(m, Ids(input))
    ensures Size(output) == Size(input)
    ensures AllNonEmpty(input) ==> AllNonEmpty(output)
    ensures |output| >= |input|
  {
    var waiting := input;
    output := [];
    while waiting != []
      invariant PassInv(m, input, waiting, output)
      decreases Size(waiting), |waiting|
    {
      var r := waiting[|waiting| - 1];
      var rest := waiting[..|waiting| - 1];
      assert waiting == rest + [r];
      var j := 0;
      var found := false;
      while j < |m| && !found
        invariant 0 <= j <= |m|
        invariant !found ==> forall i :: 0 <= i < j ==> !Overlaps(m[i], r)
        invariant found ==> 0 < j && Overlaps(m[j - 1], r) && forall i :: 0 <= i < j - 1 ==> !Overlaps(m[i], r)
      {
        if m[j].sourceStart <= r.hi && m[j].sourceStart + m[j].length - 1 >= r.lo {
          found := true;
        }
        j := j + 1;
      }
      if found {
        var line := m[j - 1];
        var lineStart: int := line.sourceStart;
        var lineEnd: int := line.sourceStart + line.length - 1;
        var pieces: seq<Range> := [];
        if r.lo < lineStart {
          pieces := pieces + [Range(r.lo, lineStart - 1)];
        }
        if r.hi > lineEnd {
          pieces := pieces + [Range(lineEnd + 1, r.hi)];
        }
        var moved := Range(Max(lineStart, r.lo) - lineStart + line.destinationStart,
                           Min(lineEnd, r.hi) - lineStart + line.destinationStart);
        assert pieces == Requeued(line, r) && moved == Moved(line, r);
        PassStep(m, input, waiting, output, rest, r, j - 1);
        assert rest + [] == rest;
        waiting := rest + pieces;
        output := output + [moved];
      } else {
        CopyStep(m, input, waiting, output, rest, r);
        waiting := rest;
        output := output + [r];
      }
    }
    assert Ids([]) == {};
    assert Image(m, {}) == {};
  }

  /** The k-th seed pair of part two (a start and a length) as an
      inclusive range; a trailing odd number is ignored. */
  function SeedPair(seeds: seq<nat>, k: nat): Range
    requires k < |seeds| / 2
  {
    Range(seeds[2 * k], seeds[2 * k] as int + seeds[2 * k + 1] - 1)
  }

  /** The ids of all the seeds of part two. */
  ghost function SeedIds(seeds: seq<nat>): set<int>
  {
    set k, x | 0 <= k < |seeds| / 2 && SeedPair(seeds, k).lo <= x <= SeedPair(seeds, k).hi
                 && Within(SeedPair(seeds, k), x) :: x
  }

  /** The source computes each end in unsigned arithmetic, so no pair is a
      zero-length range at 0. */
  predicate SeedPairsWellFormed(seeds: seq<nat>)
  {
    forall k :: 0 <= k < |seeds| / 2 ==> SeedPair(seeds, k).hi >= 0
  }

  predicate SeedRangesNonEmpty(seeds: seq<nat>)
  {
    forall k :: 0 <= k < |seeds| / 2 ==> SeedPair(seeds, k).lo <= SeedPair(seeds, k).hi
  }

  method SeedRanges(seeds: seq<nat>) returns (ranges: seq<Range>)
    requires SeedPairsWellFormed(seeds)
    ensures Ids(ranges) == SeedIds(seeds) && |ranges| == |seeds| / 2
    ensures SeedRangesNonEmpty(seeds) ==> AllNonEmpty(ranges)
  {
    ranges := [];
    var k := 0;
    while k < |seeds| / 2
      invariant 0 <= k <= |seeds| / 2 && |ranges| == k
      invariant forall i :: 0 <= i < k ==> ranges[i] == SeedPair(seeds, i)
    {
      ranges := ranges + [Range(seeds[2 * k], seeds[2 * k] as int + seeds[2 * k + 1] - 1)];
      k := k + 1;
    }
    forall x | x in SeedIds(seeds) ensures x in Ids(ranges) {
      var i :| 0 <= i < |seeds| / 2 && Within(SeedPair(seeds, i), x);
      assert Within(ranges[i], x);
    }
    forall x | x in Ids(ranges) ensures x in SeedIds(seeds) {
      var i :| 0 <= i < |ranges| && Within(ranges[i], x);
      assert Within(SeedPair(seeds, i), x);
    }
  }

  /** The lowest start of a non-empty list of ranges. */
  method LowestStart(ranges: seq<Range>) returns (r: int)
    requires |ranges| > 0
    ensures exists i :: 0 <= i < |ranges| && r == ranges[i].lo
    ensures forall i :: 0 <= i < |ranges| ==> r <= ranges[i].lo
  {
    r := ranges[0].lo;
    var i := 1;
    while i < |ranges|
      invariant 1 <= i <= |ranges|
      invariant exists k :: 0 <= k < i && r == ranges[k].lo
      invariant forall k :: 0 <= k < i ==> r <= ranges[k].lo
    {
      if ranges[i].lo < r {
        r := ranges[i].lo;
      }
      i := i + 1;
    }
  }

  /** Mapping the image under the first k maps by map k gives the image
      under the first k + 1 maps. */
  lemma {:induction false} LocationImageStep(maps: seq<CategoryMap>, k: nat, xs: set<int>)
    requires k < |maps|
    ensures Image(maps[k], LocationImage(maps[..k], xs)) == LocationImage(maps[..k + 1], xs)
  {
    assert maps[..k + 1][..k] == maps[..k];
  }

  /** The lowest start of non-empty ranges is their lowest id. */
  lemma {:induction false} LowestStartIsLowestId(ranges: seq<Range>, r: int)
    requires AllNonEmpty(ranges)
    requires exists i :: 0 <= i < |ranges| && r == ranges[i].lo
    requires forall i :: 0 <= i < |ranges| ==> r <= ranges[i].lo
    ensures r in Ids(ranges) && forall x :: x in Ids(ranges) ==> r <= x
  {
    var i :| 0 <= i < |ranges| && r == ranges[i].lo;
    assert Within(ranges[i], r);
  }

  /** Part two: the lowest location of any seed in the seed ranges, found by
      passing whole ranges through each map in turn. */
  method Part2(seeds: seq<nat>, maps: seq<CategoryMap>) returns (r: int)
    requires |seeds| >= 2 && SeedPairsWellFormed(seeds)
    requires forall k :: 0 <= k < |maps| ==> LinesNonEmpty(maps[k])
    ensures SeedRangesNonEmpty(seeds) ==>
              r in LocationImage(maps, SeedIds(seeds))
              && forall x :: x in SeedIds(seeds) ==> r <= Location(maps, x)
  {
    var sourceRanges := SeedRanges(seeds);
    ghost var initial := SeedIds(seeds);
    assert LocationImage(maps[..0], initial) == initial;
    var k := 0;
    while k < |maps|
      invariant 0 <= k <= |maps| && |sourceRanges| >= 1
      invariant Ids(sourceRanges) == LocationImage(maps[..k], initial)
      invariant SeedRangesNonEmpty(seeds) ==> AllNonEmpty(sourceRanges)
    {
      var destinationRanges := ApplyMap(maps[k], sourceRanges);
      LocationImageStep(maps, k, initial);
      sourceRanges := destinationRanges;
      k := k + 1;
    }
    assert maps[..k] == maps;
    r := LowestStart(sourceRanges);
    if SeedRangesNonEmpty(seeds) {
      LowestStartIsLowestId(sourceRanges, r);
      forall x | x in initial ensures r <= Location(maps, x) {
        assert Location(maps, x) in LocationImage(maps, initial);
      }
    }
  }

  /** The seven maps of the worked example. */
  function ExampleMaps(): seq<CategoryMap>
  {
    [ [MapLine(50, 98, 2), MapLine(52, 50, 48)],
      [MapLine(0, 15, 37), MapLine(37, 52, 2), MapLine(39, 0, 15)],
      [MapLine(49, 53, 8), MapLine(0, 11, 42), MapLine(42, 0, 7), MapLine(57, 7, 4)],
      [MapLine(88, 18, 7), MapLine(18, 25, 70)],
      [MapLine(45, 77, 23), MapLine(81, 45, 19), MapLine(68, 64, 13)],
      [MapLine(0, 69, 1), MapLine(1, 0, 69)],
      [MapLine(60, 56, 37), MapLine(56, 93, 4)] ]
  }

  /** A location of the example, map by map: seed, soil, fertilizer, water,
      light, temperature, humidity, location. */
  predicate ExampleTrace(seed: nat, trace: seq<int>)
  {
    var m := ExampleMaps();
    |trace| == 7
    && Location(m[..1], seed) == trace[0] && MapId(m[1], trace[0]) == trace[1]
    && MapId(m[2], trace[1]) == trace[2] && MapId(m[3], trace[2]) == trace[3]
    && MapId(m[4], trace[3]) == trace[4] && MapId(m[5], trace[4]) == trace[5]
    && MapId(m[6], trace[5]) == trace[6]
  }

  lemma {:induction false} ExampleTraceLocation(seed: nat, trace: seq<int>)
    requires ExampleTrace(seed, trace)
    ensures Location(ExampleMaps(), seed) == trace[6]
  {
    var m := ExampleMaps();
    assert m[..2][..1] == m[..1] && m[..3][..2] == m[..2] && m[..4][..3] == m[..3];
    assert m[..5][..4] == m[..4] && m[..6][..5] == m[..5] && m[..7][..6] == m[..6] && m[..7] == m;
    assert Location(m[..2], seed) == trace[1];
    assert Location(m[..3], seed) == trace[2];
    assert Location(m[..4], seed) == trace[3];
    assert Location(m[..5], seed) == trace[4];
    assert Location(m[..6], seed) == trace[5];
  }

  lemma {:induction false} ExampleSeed79()
    ensures Location(ExampleMaps(), 79) == 82
  {
    assert ExampleMaps()[..1][..0] == [];
    ExampleTraceLocation(79, [81, 81, 81, 74, 78, 78, 82]);
  }

  lemma {:induction false} ExampleSeed14()
    ensures Location(ExampleMaps(), 14) == 43
  {
    var m := ExampleMaps();
    assert m[..1][..0] == [];
    assert Location(m[..1], 14) == 14;
    assert MapId(m[1], 14) == 53 && MapId(m[2], 53) == 49 && MapId(m[3], 49) == 42;
    assert MapId(m[4], 42) == 42 && MapId(m[5], 42) == 43 && MapId(m[6], 43) == 43;
    ExampleTraceLocation(14, [14, 53, 49, 42, 42, 43, 43]);
  }

  lemma {:induction false} ExampleSeed55()
    ensures Location(ExampleMaps(), 55) == 86
  {
    assert ExampleMaps()[..1][..0] == [];
    ExampleTraceLocation(55, [57, 57, 53, 46, 82, 82, 86]);
  }

  lemma {:induction false} ExampleSeed13()
    ensures Location(ExampleMaps(), 13) == 35
  {
    assert ExampleMaps()[..1][..0] == [];
    ExampleTraceLocation(13, [13, 52, 41, 34, 34, 35, 35]);
  }

  /** The worked example: 35 for part one. */
  lemma {:induction false} ExamplePart1()
    ensures Part1([79, 14, 55, 13], ExampleMaps()) == 35
  {
    ExampleSeed79();
    ExampleSeed14();
    ExampleSeed55();
    ExampleSeed13();
    var s := [79, 14, 55, 13];
    assert s[1..][1..][1..] == [13];
  }

  /** The worked example's seed 82 (inside the range 79..92) reaches 46, so
      part two's answer is at most 46. */
  lemma {:induction false} ExampleSeed82()
    ensures Location(ExampleMaps(), 82) == 46
  {
    assert ExampleMaps()[..1][..0] == [];
    ExampleTraceLocation(82, [84, 84, 84, 77, 45, 46, 46]);
  }
}
