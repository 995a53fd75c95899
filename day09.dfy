/** Day 9, "Mirage Maintenance": each history is extended by building its
    table of differences, one row per derivative, down to a row of zeros;
    part one extrapolates the next value, part two the previous one. */
module Day09 {
  import opened Common

  /** The pairwise differences of a row: one element shorter, each the step
      between two neighbours. */
  function Differences(row: seq<int>): (d: seq<int>)
    ensures |row| >= 1 ==> |d| == |row| - 1
    ensures |row| == 0 ==> d == []
    ensures forall i {:trigger d[i]} :: 0 <= i < |d| ==> d[i] == row[i + 1] - row[i]
  {
    if |row| < 2 then [] else [row[1] - row[0]] + Differences(row[1..])
  }

  predicate AllZero(row: seq<int>)
  {
    forall i :: 0 <= i < |row| ==> row[i] == 0
  }

  /** The table stops after a row that is all zeros or has fewer than two
      elements. */
  predicate Stops(row: seq<int>)
  {
    AllZero(row) || |row| < 2
  }

  /** The rows pushed below `row`: its differences, and theirs in turn, up
      to and including the first row that stops the table. */
  function Below(row: seq<int>): seq<seq<int>>
    decreases |row|
  {
    var d := Differences(row);
    [d] + (if Stops(d) then [] else Below(d))
  }

  /** The table of derivatives of a history. */
  function Table(history: seq<int>): seq<seq<int>>
  {
    [history] + Below(history)
  }

  /** The shape of the rows below a row: each row holds the differences of
      the row above it, only the last one stops, and the last one does. */
  lemma {:induction false} BelowShape(row: seq<int>)
    ensures var b := Below(row);
            |b| >= 1 && b[0] == Differences(row) && Stops(b[|b| - 1])
            && (forall k :: 0 <= k < |b| - 1 ==> b[k + 1] == Differences(b[k]) && !Stops(b[k]))
    decreases |row|
  {
    var d := Differences(row);
    if !Stops(d) {
      BelowShape(d);
      var b := Below(row);
      assert b == [d] + Below(d);
      forall k | 0 <= k < |b| - 1 ensures b[k + 1] == Differences(b[k]) && !Stops(b[k]) {
        if k > 0 {
          assert b[k] == Below(d)[k - 1] && b[k + 1] == Below(d)[k];
        }
      }
    }
  }

  /** What `derivatives` promises: the history first, then each row the
      differences of the one above, each one element shorter; every row but
      the first and the last keeps going, and the last stops the table. */
  lemma {:induction false} TableShape(history: seq<int>)
    ensures var t := Table(history);
            |t| >= 2 && t[0] == history && Stops(t[|t| - 1])
            && (forall k :: 0 <= k < |t| - 1 ==> t[k + 1] == Differences(t[k]))
            && (forall k :: 1 <= k < |t| - 1 ==> !Stops(t[k]))
  {
    BelowShape(history);
    var t := Table(history);
    var b := Below(history);
    assert forall k :: 1 <= k < |t| ==> t[k] == b[k - 1];
  }

  /** Every row of the table of a history of at least two values has at
      least one element. */
  lemma {:induction false} BelowNonEmpty(row: seq<int>)
    requires |row| >= 2
    ensures forall k :: 0 <= k < |Below(row)| ==> |Below(row)[k]| >= 1
    decreases |row|
  {
    var d := Differences(row);
    if !Stops(d) {
      BelowNonEmpty(d);
      assert forall k :: 1 <= k < |Below(row)| ==> Below(row)[k] == Below(d)[k - 1];
    }
  }

  predicate NonEmptyRows(rows: seq<seq<int>>)
  {
    forall k :: 0 <= k < |rows| ==> |rows[k]| >= 1
  }

  lemma {:induction false} TableNonEmpty(history: seq<int>)
    requires |history| >= 2
    ensures NonEmptyRows(Table(history))
  {
    BelowNonEmpty(history);
    assert forall k :: 1 <= k < |Table(history)| ==> Table(history)[k] == Below(history)[k - 1];
  }

  /** `derivatives`: the rows are pushed one at a time until a row stops the
      table. */
  method Derivatives(history: seq<int>) returns (rows: seq<seq<int>>)
    ensures rows == Table(history)
  {
    rows := [history];
    while true
      invariant |rows| >= 1 && rows + Below(rows[|rows| - 1]) == Table(history)
      decreases |rows[|rows| - 1]|
    {
      var last := rows[|rows| - 1];
      var differences := Differences(last);
      var allZeroes := AllZero(differences);
      var domainLen := |differences|;
      PushRow(history, rows);
      rows := rows + [differences];
      if allZeroes || domainLen < 2 {
        break;
      }
    }
  }

  /** Pushing the differences of the last row either completes the table
      or leaves the rows below the new last row still to come. */
  lemma {:induction false} PushRow(history: seq<int>, rows: seq<seq<int>>)
    requires |rows| >= 1 && rows + Below(rows[|rows| - 1]) == Table(history)
    ensures var d := Differences(rows[|rows| - 1]);
            (Stops(d) ==> rows + [d] == Table(history))
            && (!Stops(d) ==> (rows + [d]) + Below(d) == Table(history))
  {
    var d := Differences(rows[|rows| - 1]);
    if Stops(d) {
      assert Below(rows[|rows| - 1]) == [d];
    } else {
      assert Below(rows[|rows| - 1]) == [d] + Below(d);
      assert (rows + [d]) + Below(d) == rows + ([d] + Below(d));
    }
  }

  // ---------------------------------------------------------------------
  // Extrapolation

  /** Part one's fold: the last elements of the rows, summed from the bottom
      row up. */
  function Forward(rows: seq<seq<int>>): int
    requires NonEmptyRows(rows)
  {
    if rows == [] then 0 else rows[0][|rows[0]| - 1] + Forward(rows[1..])
  }

  /** Part two's fold: from the bottom row up, each row's first element
      minus the value carried from below. */
  function Backward(rows: seq<seq<int>>): int
    requires |rows| >= 1 && NonEmptyRows(rows)
  {
    if |rows| == 1 then rows[0][0] else rows[0][0] - Backward(rows[1..])
  }

  function Next(history: seq<int>): int
    requires |history| >= 2
  {
    TableNonEmpty(history);
    Forward(Table(history))
  }

  function Previous(history: seq<int>): int
    requires |history| >= 2
  {
    TableNonEmpty(history);
    Backward(Table(history))
  }

  /** Appending one value to a row appends one difference. */
  lemma {:induction false} DifferencesAppend(row: seq<int>, x: int)
    requires |row| >= 1
    ensures Differences(row + [x]) == Differences(row) + [x - row[|row| - 1]]
  {
    var a, b := Differences(row + [x]), Differences(row) + [x - row[|row| - 1]];
    assert |a| == |b|;
    forall i | 0 <= i < |a| ensures a[i] == b[i] {
      assert (row + [x])[i] == row[i];
      if i == |row| - 1 {
        assert (row + [x])[i + 1] == x;
      } else {
        assert (row + [x])[i + 1] == row[i + 1];
      }
    }
  }

  /** Prepending one value to a row prepends one difference. */
  lemma {:induction false} DifferencesPrepend(row: seq<int>, x: int)
    requires |row| >= 1
    ensures Differences([x] + row) == [row[0] - x] + Differences(row)
  {
    var a, b := Differences([x] + row), [row[0] - x] + Differences(row);
    assert |a| == |b|;
    forall i | 0 <= i < |a| ensures a[i] == b[i] {
      assert ([x] + row)[i + 1] == row[i];
    }
  }

  /** The next value extends the table consistently: appending it to the
      history appends, to the row of differences, that row's own next value
      (or, when the differences already stop the table, their last value). */
  lemma {:induction false} NextExtendsDifferences(history: seq<int>)
    requires |history| >= 2
    ensures var d := Differences(history);
            |d| >= 1
            && Differences(history + [Next(history)])
               == d + [if Stops(d) then d[|d| - 1] else Next(d)]
  {
    NextRecurrence(history);
    DifferencesAppend(history, Next(history));
  }

  /** The next value is the last value plus the next difference. */
  lemma {:induction false} NextRecurrence(history: seq<int>)
    requires |history| >= 2
    ensures var d := Differences(history);
            |d| >= 1 && Next(history) == history[|history| - 1] + (if Stops(d) then d[|d| - 1] else Next(d))
  {
    var d := Differences(history);
    TableNonEmpty(history);
    var t := Table(history);
    assert t[1..] == Below(history);
    assert Forward(t) == history[|history| - 1] + Forward(t[1..]);
    if !Stops(d) {
      TableNonEmpty(d);
      assert Below(history) == Table(d);
    } else {
      assert Below(history) == [d];
      var single: seq<seq<int>> := [d];
      assert Forward(single) == d[|d| - 1] + Forward(single[1..]) && single[1..] == [];
    }
  }

  /** The previous value extends the table the same way at the front. */
  lemma {:induction false} PreviousExtendsDifferences(history: seq<int>)
    requires |history| >= 2
    ensures var d := Differences(history);
            |d| >= 1
            && Differences([Previous(history)] + history)
               == [if Stops(d) then d[0] else Previous(d)] + d
  {
    var d := Differences(history);
    TableNonEmpty(history);
    var t := Table(history);
    assert t[1..] == Below(history);
    assert Backward(t) == history[0] - Backward(t[1..]);
    if !Stops(d) {
      TableNonEmpty(d);
      assert Below(history) == Table(d);
      assert Previous(history) == history[0] - Previous(d);
    } else {
      assert Below(history) == [d];
      assert Previous(history) == history[0] - d[0];
    }
    DifferencesPrepend(history, Previous(history));
  }

  /** A history with a constant step extrapolates by that step both ways. */
  lemma {:induction false} ArithmeticProgression(history: seq<int>, c: int)
    requires |history| >= 2
    requires forall i :: 0 <= i < |history| - 1 ==> Differences(history)[i] == c
    ensures Next(history) == history[|history| - 1] + c
    ensures Previous(history) == history[0] - c
  {
    var d := Differences(history);
    NextExtendsDifferences(history);
    PreviousExtendsDifferences(history);
    if !Stops(d) {
      var e := Differences(d);
      forall i | 0 <= i < |e| ensures e[i] == 0 {
        assert e[i] == d[i + 1] - d[i];
      }
      NextExtendsDifferences(d);
      PreviousExtendsDifferences(d);
      assert Stops(e);
      var n := Differences(d + [Next(d)]);
      assert n[|d| - 1] == e[|e| - 1] == Next(d) - d[|d| - 1];
      var p := Differences([Previous(d)] + d);
      assert p[0] == e[0] == d[0] - Previous(d);
    }
    var n := Differences(history + [Next(history)]);
    assert n[|history| - 1] == Next(history) - history[|history| - 1];
    var p := Differences([Previous(history)] + history);
    assert p[0] == history[0] - Previous(history);
  }

  /** Part one: the sum of the next values. The source unwraps the last
      element of every row, so every history has at least two values. */
  function Part1(report: seq<seq<int>>): int
    requires forall k :: 0 <= k < |report| ==> |report[k]| >= 2
  {
    if report == [] then 0 else Next(report[0]) + Part1(report[1..])
  }

  /** Part two: the sum of the previous values. */
  function Part2(report: seq<seq<int>>): int
    requires forall k :: 0 <= k < |report| ==> |report[k]| >= 2
  {
    if report == [] then 0 else Previous(report[0]) + Part2(report[1..])
  }

  /** A history of six given values. */
  predicate Six(h: seq<int>, a: int, b: int, c: int, d: int, e: int, f: int)
  {
    |h| == 6 && h[0] == a && h[1] == b && h[2] == c && h[3] == d && h[4] == e && h[5] == f
  }

  /** The report of the worked example. */
  predicate ExampleReport(report: seq<seq<int>>)
  {
    |report| == 3 && Six(report[0], 0, 3, 6, 9, 12, 15) && Six(report[1], 1, 3, 6, 10, 15, 21)
    && Six(report[2], 10, 13, 16, 21, 30, 45)
  }

  /** The worked example: 114 and 2. */
  lemma {:induction false} ExampleParts(report: seq<seq<int>>)
    requires ExampleReport(report)
    ensures Part1(report) == 114 && Part2(report) == 2
  {
    ArithmeticProgression(report[0], 3);
    ExampleSecond(report[1]);
    ExampleThird(report[2]);
    var r1 := report[1..];
    var r2 := r1[1..];
    assert r2[1..] == [] && r2[0] == report[2] && r1[0] == report[1];
    assert Part1(r2) == 68 && Part2(r2) == 5;
    assert Part1(r1) == 96 && Part2(r1) == 5;
  }

  lemma {:induction false} ExampleSecond(h: seq<int>)
    requires Six(h, 1, 3, 6, 10, 15, 21)
    ensures Next(h) == 28 && Previous(h) == 0
  {
    var d := Differences(h);
    ArithmeticProgression(d, 1);
    FromExtension(h, 28, 0);
  }

  lemma {:induction false} ExampleThird(h: seq<int>)
    requires Six(h, 10, 13, 16, 21, 30, 45)
    ensures Next(h) == 68 && Previous(h) == 5
  {
    var d := Differences(h);
    var e := Differences(d);
    assert e[0] == 0 && e[1] == 2;
    ArithmeticProgression(e, 2);
    FromExtension(d, 23, 5);
    FromExtension(h, 68, 5);
  }

  /** Reading an extrapolated value back from the extended differences. */
  lemma {:induction false} FromExtension(h: seq<int>, next: int, previous: int)
    requires |h| >= 2
    requires var d := Differences(h);
             |d| >= 1 && !Stops(d)
             && next == h[|h| - 1] + Next(d) && previous == h[0] - Previous(d)
    ensures Next(h) == next && Previous(h) == previous
  {
    var d := Differences(h);
    NextExtendsDifferences(h);
    PreviousExtendsDifferences(h);
    var n := Differences(h + [Next(h)]);
    assert n[|h| - 1] == Next(d);
    var p := Differences([Previous(h)] + h);
    assert p[0] == Previous(d);
  }
}
