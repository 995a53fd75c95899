/** Day 13, "Point of Incidence": each pattern of ash and rocks is searched
    for a line of reflection between two columns or two rows; part two looks
    instead for the line that every rock but one reflects across (the
    smudge). */
module Day13 {
  import opened Common

  /** (x, y) of a rock ('#'), both counted from 1. */
  type Coordinates = (int, int)

  // ---------------------------------------------------------------------
  // Reading a pattern

  /** The rocks of one row y (0-based), from column x on. */
  function RowRocks(row: string, y: nat, x: nat): (cells: seq<Coordinates>)
    requires x <= |row|
    ensures forall c :: c in cells <==> c.1 == y + 1 && x + 1 <= c.0 <= |row| && row[c.0 - 1] == '#'
    ensures forall i, j :: 0 <= i < j < |cells| ==> cells[i].0 < cells[j].0
    decreases |row| - x
  {
    if x == |row| then []
    else if row[x] == '#' then [(x + 1, y + 1)] + RowRocks(row, y, x + 1)
    else RowRocks(row, y, x + 1)
  }

  /** The rocks of the rows from number y on, as the parser collects them:
      a '#' in row y, column x (both from 0) is the cell (x + 1, y + 1). */
  function Rocks(rows: seq<string>, y: nat): (cells: seq<Coordinates>)
    requires y <= |rows|
    ensures forall c :: c in cells <==>
              y + 1 <= c.1 <= |rows| && 1 <= c.0 <= |rows[c.1 - 1]| && rows[c.1 - 1][c.0 - 1] == '#'
    ensures forall i :: 0 <= i < |cells| ==> cells[i].1 > y
    decreases |rows| - y
  {
    if y == |rows| then []
    else
      var here := RowRocks(rows[y], y, 0);
      var rest := Rocks(rows, y + 1);
      assert forall i :: 0 <= i < |here| ==> here[i] in here;
      here + rest
  }

  /** No rock is listed twice, so the sequence stands for the parser's set. */
  predicate Distinct(cells: seq<Coordinates>)
  {
    forall i, j :: 0 <= i < j < |cells| ==> cells[i] != cells[j]
  }

  lemma {:induction false} RocksDistinct(rows: seq<string>, y: nat)
    requires y <= |rows|
    ensures Distinct(Rocks(rows, y))
    decreases |rows| - y
  {
    if y < |rows| {
      RocksDistinct(rows, y + 1);
      var here := RowRocks(rows[y], y, 0);
      var rest := Rocks(rows, y + 1);
      var all := here + rest;
      forall i, j | 0 <= i < j < |all| ensures all[i] != all[j] {
        if j < |here| {
          assert all[i] == here[i] && all[j] == here[j];
        } else if i < |here| {
          assert all[i] == here[i] && here[i] in here && all[j] == rest[j - |here|];
        } else {
          assert all[i] == rest[i - |here|] && all[j] == rest[j - |here|];
        }
      }
    }
  }

  // ---------------------------------------------------------------------
  // Reflection

  /** The column or row that v maps to across the line after `axis`. */
  function Mirror(v: int, axis: int): int
  {
    2 * axis - v + 1
  }

  lemma {:induction false} MirrorInvolution(v: int, axis: int)
    ensures Mirror(Mirror(v, axis), axis) == v
    ensures (v <= axis) <==> (Mirror(v, axis) > axis)
  {
  }

  /** `has_reflection`: whether the rock at c has a matching rock across the
      line after column (or row) `axis`, or its image falls off the
      pattern. */
  predicate HasReflection(c: Coordinates, pattern: seq<Coordinates>, maxX: int, maxY: int, axis: int, axisIsColumn: bool)
  {
    var (x, y) := c;
    if axisIsColumn then
      (x <= axis && (2 * axis - x + 1 > maxX || (2 * axis - x + 1, y) in pattern))
      || (x > axis && (2 * axis - x + 1 < 1 || (2 * axis - x + 1, y) in pattern))
    else
      (y <= axis && (2 * axis - y + 1 > maxY || (x, 2 * axis - y + 1) in pattern))
      || (y > axis && (2 * axis - y + 1 < 1 || (x, 2 * axis - y + 1) in pattern))
  }

  /** For a line strictly inside the pattern, a rock reflects exactly when
      its image lies outside [1, max] or is a rock too. */
  lemma {:induction false} ReflectionIff(c: Coordinates, pattern: seq<Coordinates>, maxX: int, maxY: int, axis: int, axisIsColumn: bool)
    requires 1 <= axis < (if axisIsColumn then maxX else maxY)
    ensures axisIsColumn ==>
              (HasReflection(c, pattern, maxX, maxY, axis, true)
               <==> var m := Mirror(c.0, axis); m < 1 || m > maxX || (m, c.1) in pattern)
    ensures !axisIsColumn ==>
              (HasReflection(c, pattern, maxX, maxY, axis, false)
               <==> var m := Mirror(c.1, axis); m < 1 || m > maxY || (c.0, m) in pattern)
  {
  }

  /** A line that every rock reflects across pairs the rocks up: the image
      of a rock that stays inside the pattern is a rock, and so is its
      image's image. */
  lemma {:induction false} ReflectionPairs(pattern: seq<Coordinates>, maxX: int, maxY: int, axis: int, i: nat)
    requires 1 <= axis < maxX && i < |pattern|
    requires AllReflect(pattern, maxX, maxY, axis, true)
    requires 1 <= Mirror(pattern[i].0, axis) <= maxX
    ensures (Mirror(pattern[i].0, axis), pattern[i].1) in pattern
  {
    assert Reflects(pattern, maxX, maxY, axis, true, i);
    ReflectionIff(pattern[i], pattern, maxX, maxY, axis, true);
  }

  /** Whether the rock at index i reflects. */
  predicate Reflects(pattern: seq<Coordinates>, maxX: int, maxY: int, axis: int, axisIsColumn: bool, i: int)
  {
    0 <= i < |pattern| && HasReflection(pattern[i], pattern, maxX, maxY, axis, axisIsColumn)
  }

  predicate AllReflect(pattern: seq<Coordinates>, maxX: int, maxY: int, axis: int, axisIsColumn: bool)
  {
    forall i :: 0 <= i < |pattern| ==> Reflects(pattern, maxX, maxY, axis, axisIsColumn, i)
  }

  /** The rocks that reflect, counted over the rocks from index k on. */
  function ReflectCount(pattern: seq<Coordinates>, maxX: int, maxY: int, axis: int, axisIsColumn: bool, k: nat): (n: nat)
    requires k <= |pattern|
    ensures n <= |pattern| - k
    ensures n == |pattern| - k <==> forall i :: k <= i < |pattern| ==> Reflects(pattern, maxX, maxY, axis, axisIsColumn, i)
    decreases |pattern| - k
  {
    if k == |pattern| then 0
    else
      var rest := ReflectCount(pattern, maxX, maxY, axis, axisIsColumn, k + 1);
      assert (forall i :: k <= i < |pattern| ==> Reflects(pattern, maxX, maxY, axis, axisIsColumn, i))
             <==> Reflects(pattern, maxX, maxY, axis, axisIsColumn, k)
                  && forall i :: k + 1 <= i < |pattern| ==> Reflects(pattern, maxX, maxY, axis, axisIsColumn, i);
      (if HasReflection(pattern[k], pattern, maxX, maxY, axis, axisIsColumn) then 1 else 0) + rest
  }

  /** Rock i fails to reflect and every other rock from index k on does. */
  predicate OnlyFailure(pattern: seq<Coordinates>, maxX: int, maxY: int, axis: int, axisIsColumn: bool, k: int, i: int)
  {
    k <= i < |pattern| && !Reflects(pattern, maxX, maxY, axis, axisIsColumn, i)
    && forall j :: k <= j < |pattern| && j != i ==> Reflects(pattern, maxX, maxY, axis, axisIsColumn, j)
  }

  /** Exactly one rock fails to reflect. */
  predicate OneFailure(pattern: seq<Coordinates>, maxX: int, maxY: int, axis: int, axisIsColumn: bool)
  {
    exists i :: 0 <= i < |pattern| && OnlyFailure(pattern, maxX, maxY, axis, axisIsColumn, 0, i)
  }

  /** With one failing rock, all the others are counted. */
  lemma {:induction false} OneFailureCounted(pattern: seq<Coordinates>, maxX: int, maxY: int, axis: int, axisIsColumn: bool, k: nat, i: int)
    requires k <= |pattern| && OnlyFailure(pattern, maxX, maxY, axis, axisIsColumn, k, i)
    ensures ReflectCount(pattern, maxX, maxY, axis, axisIsColumn, k) + 1 == |pattern| - k
    decreases |pattern| - k
  {
    if k < i {
      assert Reflects(pattern, maxX, maxY, axis, axisIsColumn, k);
      OneFailureCounted(pattern, maxX, maxY, axis, axisIsColumn, k + 1, i);
    } else {
      assert forall j :: k + 1 <= j < |pattern| ==> Reflects(pattern, maxX, maxY, axis, axisIsColumn, j);
    }
  }

  /** A count one short of all rocks names a single failing rock. */
  lemma {:induction false} CountNamesFailure(pattern: seq<Coordinates>, maxX: int, maxY: int, axis: int, axisIsColumn: bool, k: nat)
    requires k <= |pattern| && ReflectCount(pattern, maxX, maxY, axis, axisIsColumn, k) + 1 == |pattern| - k
    ensures exists i :: OnlyFailure(pattern, maxX, maxY, axis, axisIsColumn, k, i)
    decreases |pattern| - k
  {
    if !Reflects(pattern, maxX, maxY, axis, axisIsColumn, k) {
      assert OnlyFailure(pattern, maxX, maxY, axis, axisIsColumn, k, k);
    } else {
      CountNamesFailure(pattern, maxX, maxY, axis, axisIsColumn, k + 1);
      var i :| OnlyFailure(pattern, maxX, maxY, axis, axisIsColumn, k + 1, i);
      assert OnlyFailure(pattern, maxX, maxY, axis, axisIsColumn, k, i);
    }
  }

  /** The corrected count test, |pattern| - 1 reflecting rocks, holds exactly
      when one rock fails to reflect. */
  lemma {:induction false} SmudgeIff(pattern: seq<Coordinates>, maxX: int, maxY: int, axis: int, axisIsColumn: bool)
    ensures ReflectCount(pattern, maxX, maxY, axis, axisIsColumn, 0) + 1 == |pattern|
            <==> OneFailure(pattern, maxX, maxY, axis, axisIsColumn)
  {
    if ReflectCount(pattern, maxX, maxY, axis, axisIsColumn, 0) + 1 == |pattern| {
      CountNamesFailure(pattern, maxX, maxY, axis, axisIsColumn, 0);
    }
    if OneFailure(pattern, maxX, maxY, axis, axisIsColumn) {
      var i :| OnlyFailure(pattern, maxX, maxY, axis, axisIsColumn, 0, i);
      OneFailureCounted(pattern, maxX, maxY, axis, axisIsColumn, 0, i);
    }
  }

  // ---------------------------------------------------------------------
  // Summaries

  /** The largest x (or y) of any rock; the source unwraps the maximum, so a
      pattern has at least one rock. */
  function MaxCoordinate(pattern: seq<Coordinates>, ofX: bool): (m: int)
    requires |pattern| >= 1
    ensures forall i :: 0 <= i < |pattern| ==> (if ofX then pattern[i].0 else pattern[i].1) <= m
    ensures exists i :: 0 <= i < |pattern| && (if ofX then pattern[i].0 else pattern[i].1) == m
  {
    var v := if ofX then pattern[0].0 else pattern[0].1;
    if |pattern| == 1 then v
    else
      var rest := MaxCoordinate(pattern[1..], ofX);
      assert forall i :: 1 <= i < |pattern| ==> pattern[i] == pattern[1..][i - 1];
      Max(v, rest)
  }

  /** The first axis in [axis, bound) across which every rock reflects, or 0
      when there is none. */
  function FirstAxis(pattern: seq<Coordinates>, maxX: int, maxY: int, axis: int, bound: int, axisIsColumn: bool): (r: int)
    requires axis >= 1
    ensures r == 0 || (axis <= r < bound && AllReflect(pattern, maxX, maxY, r, axisIsColumn))
    ensures forall a :: axis <= a < (if r == 0 then bound else r) ==> !AllReflect(pattern, maxX, maxY, a, axisIsColumn)
    decreases bound - axis
  {
    if axis >= bound then 0
    else if AllReflect(pattern, maxX, maxY, axis, axisIsColumn) then axis
    else FirstAxis(pattern, maxX, maxY, axis + 1, bound, axisIsColumn)
  }

  /** The first axis in [axis, bound) across which all rocks but one
      reflect, or 0 when there is none. */
  function FirstSmudgedAxis(pattern: seq<Coordinates>, maxX: int, maxY: int, axis: int, bound: int, axisIsColumn: bool): (r: int)
    requires axis >= 1 && |pattern| >= 1
    ensures r == 0 || (axis <= r < bound && OneFailure(pattern, maxX, maxY, r, axisIsColumn))
    ensures forall a :: axis <= a < (if r == 0 then bound else r) ==> !OneFailure(pattern, maxX, maxY, a, axisIsColumn)
    decreases bound - axis
  {
    SmudgeIff(pattern, maxX, maxY, axis, axisIsColumn);
    if axis >= bound then 0
    else if ReflectCount(pattern, maxX, maxY, axis, axisIsColumn, 0) == |pattern| - 1 then axis
    else FirstSmudgedAxis(pattern, maxX, maxY, axis + 1, bound, axisIsColumn)
  }

  /** `summary`: the first vertical line of reflection plus 100 times the
      first horizontal one, each 0 when absent. */
  function Summary(pattern: seq<Coordinates>): nat
    requires |pattern| >= 1
  {
    var maxX, maxY := MaxCoordinate(pattern, true), MaxCoordinate(pattern, false);
    FirstAxis(pattern, maxX, maxY, 1, maxX, true) + 100 * FirstAxis(pattern, maxX, maxY, 1, maxY, false)
  }

  /** `corrected_summary`: the same with the lines that all rocks but one
      reflect across. */
  function CorrectedSummary(pattern: seq<Coordinates>): nat
    requires |pattern| >= 1
  {
    var maxX, maxY := MaxCoordinate(pattern, true), MaxCoordinate(pattern, false);
    FirstSmudgedAxis(pattern, maxX, maxY, 1, maxX, true) + 100 * FirstSmudgedAxis(pattern, maxX, maxY, 1, maxY, false)
  }

  /** The summary names a line of reflection that no earlier line matches,
      and a line that no rock pair breaks cannot also be a smudged line. */
  lemma {:induction false} SummaryMeaning(pattern: seq<Coordinates>)
    requires |pattern| >= 1
    ensures var maxX, maxY := MaxCoordinate(pattern, true), MaxCoordinate(pattern, false);
            var column, row := FirstAxis(pattern, maxX, maxY, 1, maxX, true), FirstAxis(pattern, maxX, maxY, 1, maxY, false);
            Summary(pattern) == column + 100 * row
            && (column == 0 <==> forall a :: 1 <= a < maxX ==> !AllReflect(pattern, maxX, maxY, a, true))
            && (row == 0 <==> forall a :: 1 <= a < maxY ==> !AllReflect(pattern, maxX, maxY, a, false))
  {
  }

  /** A line every rock reflects across has no failing rock, so part two
      never reports part one's line again. */
  lemma {:induction false} SmudgedLineIsNew(pattern: seq<Coordinates>, maxX: int, maxY: int, axis: int, axisIsColumn: bool)
    requires AllReflect(pattern, maxX, maxY, axis, axisIsColumn)
    ensures !OneFailure(pattern, maxX, maxY, axis, axisIsColumn)
  {
  }

  predicate NonEmptyPatterns(patterns: seq<seq<Coordinates>>)
  {
    forall k :: 0 <= k < |patterns| ==> |patterns[k]| >= 1
  }

  function Part1(patterns: seq<seq<Coordinates>>): nat
    requires NonEmptyPatterns(patterns)
  {
    if patterns == [] then 0 else Summary(patterns[0]) + Part1(patterns[1..])
  }

  function Part2(patterns: seq<seq<Coordinates>>): nat
    requires NonEmptyPatterns(patterns)
  {
    if patterns == [] then 0 else CorrectedSummary(patterns[0]) + Part2(patterns[1..])
  }
}
