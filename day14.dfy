/** Day 14, "Parabolic Reflector Dish": rounded rocks roll across a platform
    until a cube-shaped rock, another rounded rock or the edge stops them. */
module Day14 {
  import opened Common

  datatype Tile = Rounded | CubeShaped | EmptySpace

  /** The platform, row by row from the north edge. */
  type Platform = seq<seq<Tile>>

  datatype Direction = North | West | South | East

  // ---------------------------------------------------------------------
  // Packing one line

  /** The number of rounded rocks in a line. */
  function Rocks(s: seq<Tile>): nat
  {
    if s == [] then 0 else (if s[0] == Rounded then 1 else 0) + Rocks(s[1..])
  }

  lemma {:induction false} RocksAppend(a: seq<Tile>, b: seq<Tile>)
    ensures Rocks(a + b) == Rocks(a) + Rocks(b)
  {
    if a == [] {
      assert a + b == b;
    } else {
      assert (a + b)[0] == a[0] && (a + b)[1..] == a[1..] + b;
      RocksAppend(a[1..], b);
    }
  }

  /** A stretch of `len` cells holding `rounded` rocks packed at its start. */
  function Fill(rounded: nat, len: nat): (s: seq<Tile>)
    requires rounded <= len
    ensures |s| == len
  {
    seq(len, i => if i < rounded then Rounded else EmptySpace)
  }

  lemma {:induction false} FillCount(rounded: nat, len: nat)
    requires rounded <= len
    ensures Rocks(Fill(rounded, len)) == rounded
    decreases len
  {
    if len > 0 {
      var s := Fill(rounded, len);
      if rounded > 0 {
        assert s[1..] == Fill(rounded - 1, len - 1);
        FillCount(rounded - 1, len - 1);
      } else {
        assert s[1..] == Fill(0, len - 1);
        FillCount(0, len - 1);
      }
    }
  }

  /** The rest of a line packed toward its start, when the segment being
      scanned already spans `len` cells holding `rounded` rocks: a cube closes
      the segment, which then holds its rocks first and its empty cells after. */
  function PackRun(line: seq<Tile>, rounded: nat, len: nat): (s: seq<Tile>)
    requires rounded <= len
    ensures |s| == len + |line|
    decreases |line|
  {
    if line == [] then Fill(rounded, len)
    else if line[0] == CubeShaped then Fill(rounded, len) + [CubeShaped] + PackRun(line[1..], 0, 0)
    else PackRun(line[1..], if line[0] == Rounded then rounded + 1 else rounded, len + 1)
  }

  /** A line after tilting toward its start. */
  function Packed(line: seq<Tile>): (s: seq<Tile>)
    ensures |s| == |line|
  {
    PackRun(line, 0, 0)
  }

  /** No rounded rock has an empty cell just before it. */
  predicate Settled(s: seq<Tile>)
  {
    forall i :: 0 < i < |s| && s[i] == Rounded ==> s[i - 1] != EmptySpace
  }

  /** Packing keeps every cube in its cell and puts no cube elsewhere. */
  lemma {:induction false} PackRunCubes(line: seq<Tile>, rounded: nat, len: nat)
    requires rounded <= len
    ensures var s := PackRun(line, rounded, len);
      && (forall i :: 0 <= i < len ==> s[i] != CubeShaped)
      && (forall i :: 0 <= i < |line| ==> (s[len + i] == CubeShaped <==> line[i] == CubeShaped))
    decreases |line|
  {
    var s := PackRun(line, rounded, len);
    if line == [] {
    } else if line[0] == CubeShaped {
      var rest := PackRun(line[1..], 0, 0);
      PackRunCubes(line[1..], 0, 0);
      assert s == Fill(rounded, len) + [CubeShaped] + rest;
      assert forall i :: 0 < i < |line| ==> s[len + i] == rest[i - 1] && line[i] == line[1..][i - 1];
    } else {
      PackRunCubes(line[1..], if line[0] == Rounded then rounded + 1 else rounded, len + 1);
      assert forall i :: 0 < i < |line| ==> line[i] == line[1..][i - 1];
    }
  }

  /** Packing keeps the number of rocks. */
  lemma {:induction false} PackRunTotal(line: seq<Tile>, rounded: nat, len: nat)
    requires rounded <= len
    ensures Rocks(PackRun(line, rounded, len)) == rounded + Rocks(line)
    decreases |line|
  {
    FillCount(rounded, len);
    if line != [] {
      assert line == [line[0]] + line[1..];
      RocksAppend([line[0]], line[1..]);
      if line[0] == CubeShaped {
        var f := Fill(rounded, len);
        var rest := PackRun(line[1..], 0, 0);
        PackRunTotal(line[1..], 0, 0);
        RocksAppend(f + [CubeShaped], rest);
        RocksAppend(f, [CubeShaped]);
      } else {
        PackRunTotal(line[1..], if line[0] == Rounded then rounded + 1 else rounded, len + 1);
      }
    }
  }

  /** Packing keeps the number of rocks before each cube, so no rock crosses
      a cube. */
  lemma {:induction false} PackRunRocks(line: seq<Tile>, rounded: nat, len: nat)
    requires rounded <= len
    ensures var s := PackRun(line, rounded, len);
      forall i :: 0 <= i < |line| && line[i] == CubeShaped ==> Rocks(s[..len + i]) == rounded + Rocks(line[..i])
    decreases |line|
  {
    var s := PackRun(line, rounded, len);
    if line == [] {
    } else if line[0] == CubeShaped {
      var f := Fill(rounded, len);
      var rest := PackRun(line[1..], 0, 0);
      PackRunRocks(line[1..], 0, 0);
      FillCount(rounded, len);
      assert s == f + [CubeShaped] + rest;
      forall i | 0 <= i < |line| && line[i] == CubeShaped
        ensures Rocks(s[..len + i]) == rounded + Rocks(line[..i])
      {
        if i == 0 {
          assert s[..len] == f;
          assert line[..0] == [];
        } else {
          assert line[1..][i - 1] == line[i];
          RocksAfterCube(f, rest, i - 1);
          RocksCons(line, i);
        }
      }
    } else {
      var rounded' := if line[0] == Rounded then rounded + 1 else rounded;
      PackRunRocks(line[1..], rounded', len + 1);
      forall i | 0 <= i < |line| && line[i] == CubeShaped
        ensures Rocks(s[..len + i]) == rounded + Rocks(line[..i])
      {
        assert line[1..][i - 1] == line[i];
        RocksCons(line, i);
      }
    }
  }

  lemma {:induction false} RocksCons(line: seq<Tile>, i: nat)
    requires 0 < i <= |line|
    ensures Rocks(line[..i]) == (if line[0] == Rounded then 1 else 0) + Rocks(line[1..][..i - 1])
  {
    assert line[..i] == [line[0]] + line[1..][..i - 1];
    RocksAppend([line[0]], line[1..][..i - 1]);
  }

  lemma {:induction false} RocksAfterCube(f: seq<Tile>, rest: seq<Tile>, k: nat)
    requires k <= |rest|
    ensures Rocks((f + [CubeShaped] + rest)[..|f| + 1 + k]) == Rocks(f) + Rocks(rest[..k])
  {
    assert (f + [CubeShaped] + rest)[..|f| + 1 + k] == f + [CubeShaped] + rest[..k];
    RocksAppend(f + [CubeShaped], rest[..k]);
    RocksAppend(f, [CubeShaped]);
  }

  /** After packing every rock is stopped. */
  lemma {:induction false} PackRunSettled(line: seq<Tile>, rounded: nat, len: nat)
    requires rounded <= len
    ensures Settled(PackRun(line, rounded, len))
    decreases |line|
  {
    var s := PackRun(line, rounded, len);
    if line == [] {
    } else if line[0] == CubeShaped {
      var f := Fill(rounded, len);
      var rest := PackRun(line[1..], 0, 0);
      PackRunSettled(line[1..], 0, 0);
      assert s == f + [CubeShaped] + rest;
      forall i | 0 < i < |s| && s[i] == Rounded ensures s[i - 1] != EmptySpace {
        if i > len + 1 {
          assert s[i] == rest[i - len - 1] && s[i - 1] == rest[i - len - 2];
        }
      }
    } else {
      PackRunSettled(line[1..], if line[0] == Rounded then rounded + 1 else rounded, len + 1);
    }
  }

  /** A stretch of packed rocks followed by more of the line packs as if the
      scan had begun before the stretch. */
  lemma {:induction false} PackRunAfterFill(a: nat, n: nat, rest: seq<Tile>, rounded: nat, len: nat)
    requires a <= n && rounded <= len
    ensures PackRun(Fill(a, n) + rest, rounded, len) == PackRun(rest, rounded + a, len + n)
    decreases n
  {
    if n > 0 {
      var f := Fill(a, n);
      assert (f + rest)[0] == f[0];
      if a > 0 {
        assert (f + rest)[1..] == Fill(a - 1, n - 1) + rest;
        PackRunAfterFill(a - 1, n - 1, rest, rounded + 1, len + 1);
      } else {
        assert (f + rest)[1..] == Fill(0, n - 1) + rest;
        PackRunAfterFill(0, n - 1, rest, rounded, len + 1);
      }
    } else {
      assert Fill(a, n) + rest == rest;
    }
  }

  /** Packing a packed line changes nothing. */
  lemma {:induction false} PackRunIdempotent(line: seq<Tile>, rounded: nat, len: nat)
    requires rounded <= len
    ensures Packed(PackRun(line, rounded, len)) == PackRun(line, rounded, len)
    decreases |line|
  {
    var s := PackRun(line, rounded, len);
    if line == [] {
      PackRunAfterFill(rounded, len, [], 0, 0);
      assert Fill(rounded, len) + [] == s;
    } else if line[0] == CubeShaped {
      var rest := PackRun(line[1..], 0, 0);
      PackRunIdempotent(line[1..], 0, 0);
      assert s == Fill(rounded, len) + ([CubeShaped] + rest);
      PackRunAfterFill(rounded, len, [CubeShaped] + rest, 0, 0);
      assert ([CubeShaped] + rest)[1..] == rest;
    } else {
      PackRunIdempotent(line[1..], if line[0] == Rounded then rounded + 1 else rounded, len + 1);
    }
  }

  /** The packing of a line, as a whole: same length, cubes exactly where
      they were, the same number of rocks before every cube and in all,
      every rock stopped, and packing again changes nothing. */
  lemma {:induction false} PackedFacts(line: seq<Tile>)
    ensures var s := Packed(line);
      && (forall i :: 0 <= i < |line| ==> (s[i] == CubeShaped <==> line[i] == CubeShaped))
      && (forall i :: 0 <= i < |line| && line[i] == CubeShaped ==> Rocks(s[..i]) == Rocks(line[..i]))
      && Rocks(s) == Rocks(line)
      && Settled(s)
      && Packed(s) == s
  {
    var s := Packed(line);
    PackRunCubes(line, 0, 0);
    PackRunRocks(line, 0, 0);
    forall i | 0 <= i < |line|
      ensures s[i] == CubeShaped <==> line[i] == CubeShaped
      ensures line[i] == CubeShaped ==> Rocks(s[..i]) == Rocks(line[..i])
    {
      assert s[0 + i] == s[i] && s[..0 + i] == s[..i];
    }
    PackRunTotal(line, 0, 0);
    PackRunSettled(line, 0, 0);
    PackRunIdempotent(line, 0, 0);
  }

  // ---------------------------------------------------------------------
  // Lines of a platform

  /** A platform of the given height and width, with at least one cell. */
  predicate Fits(p: Platform, height: nat, width: nat)
  {
    height >= 1 && width >= 1 && |p| == height && forall r :: 0 <= r < |p| ==> |p[r]| == width
  }

  /** The lines a tilt works through, one per column for a north or south
      tilt and one per row for a west or east tilt. */
  function LineCount(height: nat, width: nat, d: Direction): nat
  {
    if d == North || d == South then width else height
  }

  function LineLength(height: nat, width: nat, d: Direction): nat
  {
    if d == North || d == South then height else width
  }

  /** The row and column of the i-th cell of a line, counted from the edge
      the rocks roll toward. */
  function CellOf(height: nat, width: nat, d: Direction, line: nat, i: nat): (cell: (nat, nat))
    requires line < LineCount(height, width, d) && i < LineLength(height, width, d)
    ensures cell.0 < height && cell.1 < width
  {
    match d
    case North => (i, line)
    case South => (height - 1 - i, line)
    case West => (line, i)
    case East => (line, width - 1 - i)
  }

  /** The line through a cell, and the cell's place on it. */
  function LineOf(height: nat, width: nat, d: Direction, r: nat, c: nat): (line: nat)
    requires r < height && c < width
    ensures line < LineCount(height, width, d)
  {
    if d == North || d == South then c else r
  }

  function IndexOf(height: nat, width: nat, d: Direction, r: nat, c: nat): (i: nat)
    requires r < height && c < width
    ensures i < LineLength(height, width, d)
  {
    match d
    case North => r
    case South => height - 1 - r
    case West => c
    case East => width - 1 - c
  }

  /** Cells and (line, place) pairs correspond one to one. */
  lemma {:induction false} CellOfIndexOf(height: nat, width: nat, d: Direction, r: nat, c: nat)
    requires r < height && c < width
    ensures CellOf(height, width, d, LineOf(height, width, d, r, c), IndexOf(height, width, d, r, c)) == (r, c)
  {
  }

  lemma {:induction false} IndexOfCellOf(height: nat, width: nat, d: Direction, line: nat, i: nat)
    requires line < LineCount(height, width, d) && i < LineLength(height, width, d)
    ensures var cell := CellOf(height, width, d, line, i);
      LineOf(height, width, d, cell.0, cell.1) == line && IndexOf(height, width, d, cell.0, cell.1) == i
  {
  }

  /** The tiles of a line, from the edge the rocks roll toward. */
  function Line(p: Platform, height: nat, width: nat, d: Direction, line: nat): (s: seq<Tile>)
    requires Fits(p, height, width) && line < LineCount(height, width, d)
    ensures |s| == LineLength(height, width, d)
  {
    seq(LineLength(height, width, d), i requires 0 <= i < LineLength(height, width, d) =>
      var cell := CellOf(height, width, d, line, i); p[cell.0][cell.1])
  }

  /** The platform after tilting: each line packed toward the edge. */
  function Tilted(p: Platform, height: nat, width: nat, d: Direction): (t: Platform)
    requires Fits(p, height, width)
    ensures Fits(t, height, width)
  {
    seq(height, r requires 0 <= r < height =>
      seq(width, c requires 0 <= c < width =>
        Packed(Line(p, height, width, d, LineOf(height, width, d, r, c)))[IndexOf(height, width, d, r, c)]))
  }

  /** Every line of the tilted platform is that line packed. */
  lemma {:induction false} TiltedLines(p: Platform, height: nat, width: nat, d: Direction, line: nat)
    requires Fits(p, height, width) && line < LineCount(height, width, d)
    ensures Line(Tilted(p, height, width, d), height, width, d, line) == Packed(Line(p, height, width, d, line))
  {
    var t := Tilted(p, height, width, d);
    forall i | 0 <= i < LineLength(height, width, d)
      ensures Line(t, height, width, d, line)[i] == Packed(Line(p, height, width, d, line))[i]
    {
      IndexOfCellOf(height, width, d, line, i);
    }
  }

  /** A platform is determined by its lines. */
  lemma {:induction false} SameLines(p: Platform, q: Platform, height: nat, width: nat, d: Direction)
    requires Fits(p, height, width) && Fits(q, height, width)
    requires forall line :: 0 <= line < LineCount(height, width, d) ==>
      Line(p, height, width, d, line) == Line(q, height, width, d, line)
    ensures p == q
  {
    forall r | 0 <= r < height ensures p[r] == q[r] {
      forall c | 0 <= c < width ensures p[r][c] == q[r][c] {
        CellOfIndexOf(height, width, d, r, c);
        var line := LineOf(height, width, d, r, c);
        assert Line(p, height, width, d, line)[IndexOf(height, width, d, r, c)]
            == Line(q, height, width, d, line)[IndexOf(height, width, d, r, c)];
      }
    }
  }

  // ---------------------------------------------------------------------
  // What a tilt keeps

  /** A tilt keeps the size of the platform and every cube where it was,
      puts no cube anywhere else, keeps the number of rocks in every line
      and between any two cubes of a line, leaves every rock stopped, and
      tilting the same way again changes nothing. */
  lemma {:induction false} TiltFacts(p: Platform, height: nat, width: nat, d: Direction)
    requires Fits(p, height, width)
    ensures var t := Tilted(p, height, width, d);
      && Fits(t, height, width)
      && (forall r, c :: 0 <= r < height && 0 <= c < width ==> (t[r][c] == CubeShaped <==> p[r][c] == CubeShaped))
      && (forall line :: 0 <= line < LineCount(height, width, d) ==>
            var s := Line(t, height, width, d, line);
            var l := Line(p, height, width, d, line);
            && Rocks(s) == Rocks(l) && Settled(s)
            && forall i :: 0 <= i < |l| && l[i] == CubeShaped ==> Rocks(s[..i]) == Rocks(l[..i]))
      && Tilted(t, height, width, d) == t
  {
    var t := Tilted(p, height, width, d);
    forall r, c | 0 <= r < height && 0 <= c < width
      ensures t[r][c] == CubeShaped <==> p[r][c] == CubeShaped
    {
      var line := LineOf(height, width, d, r, c);
      CellOfIndexOf(height, width, d, r, c);
      PackedFacts(Line(p, height, width, d, line));
    }
    forall line | 0 <= line < LineCount(height, width, d)
      ensures var s := Line(t, height, width, d, line);
              var l := Line(p, height, width, d, line);
              && Rocks(s) == Rocks(l) && Settled(s)
              && forall i :: 0 <= i < |l| && l[i] == CubeShaped ==> Rocks(s[..i]) == Rocks(l[..i])
      ensures Line(Tilted(t, height, width, d), height, width, d, line) == Line(t, height, width, d, line)
    {
      TiltedLines(p, height, width, d, line);
      TiltedLines(t, height, width, d, line);
      PackedFacts(Line(p, height, width, d, line));
    }
    SameLines(Tilted(t, height, width, d), t, height, width, d);
  }

  // ---------------------------------------------------------------------
  // The tilt, cell by cell

  /** The platform with one cell overwritten. */
  function Put(t: Platform, cell: (nat, nat), x: Tile): Platform
    requires cell.0 < |t| && cell.1 < |t[cell.0]|
  {
    t[cell.0 := t[cell.0][cell.1 := x]]
  }

  /** Overwriting the i-th cell of a line changes that cell of that line and
      nothing else. */
  lemma {:induction false} PutLine(t: Platform, height: nat, width: nat, d: Direction, line: nat, i: nat, x: Tile)
    requires Fits(t, height, width) && line < LineCount(height, width, d) && i < LineLength(height, width, d)
    ensures var t' := Put(t, CellOf(height, width, d, line, i), x);
      && Fits(t', height, width)
      && Line(t', height, width, d, line) == Line(t, height, width, d, line)[i := x]
      && forall l :: 0 <= l < LineCount(height, width, d) && l != line ==>
           Line(t', height, width, d, l) == Line(t, height, width, d, l)
  {
    var cell := CellOf(height, width, d, line, i);
    var t' := Put(t, cell, x);
    forall l, j | 0 <= l < LineCount(height, width, d) && 0 <= j < LineLength(height, width, d)
      ensures Line(t', height, width, d, l)[j] == if l == line && j == i then x else Line(t, height, width, d, l)[j]
    {
      IndexOfCellOf(height, width, d, l, j);
      IndexOfCellOf(height, width, d, line, i);
    }
  }

  /** `for y in cluster_start..cluster_start + cluster_len`: the rocks of a
      closed segment written back at its start. */
  method PutRocks(t: Platform, height: nat, width: nat, d: Direction, line: nat, start: nat, count: nat)
    returns (t': Platform)
    requires Fits(t, height, width) && line < LineCount(height, width, d)
    requires start + count <= LineLength(height, width, d)
    ensures Fits(t', height, width)
    ensures forall k :: 0 <= k < LineLength(height, width, d) ==>
      Line(t', height, width, d, line)[k] == if start <= k < start + count then Rounded else Line(t, height, width, d, line)[k]
    ensures forall l :: 0 <= l < LineCount(height, width, d) && l != line ==>
      Line(t', height, width, d, l) == Line(t, height, width, d, l)
  {
    t' := t;
    var y := start;
    while y < start + count
      invariant start <= y <= start + count && Fits(t', height, width)
      invariant forall k :: 0 <= k < LineLength(height, width, d) ==>
        Line(t', height, width, d, line)[k] == if start <= k < y then Rounded else Line(t, height, width, d, line)[k]
      invariant forall l :: 0 <= l < LineCount(height, width, d) && l != line ==>
        Line(t', height, width, d, l) == Line(t, height, width, d, l)
    {
      PutLine(t', height, width, d, line, y, Rounded);
      t' := Put(t', CellOf(height, width, d, line, y), Rounded);
      y := y + 1;
    }
  }

  /** The scan of one line so far: the segments closed by a cube are final,
      the open segment from `start` is emptied, the rest is untouched, and
      what is left to do yields the packed line. */
  ghost predicate Scanned(done: seq<Tile>, original: seq<Tile>, start: nat, i: nat, rounded: nat)
  {
    && |done| == |original| && start <= i <= |original| && rounded <= i - start
    && done[..start] + PackRun(original[i..], rounded, i - start) == Packed(original)
    && (forall k :: start <= k < i ==> done[k] == EmptySpace)
    && (forall k :: i <= k < |original| ==> done[k] == original[k])
  }

  lemma {:induction false} ScanStart(original: seq<Tile>)
    ensures Scanned(original, original, 0, 0, 0)
  {
    assert original[0..] == original;
  }

  /** A rounded rock or an empty cell is emptied and joins the open segment. */
  lemma {:induction false} ScanOther(done: seq<Tile>, original: seq<Tile>, start: nat, i: nat, rounded: nat)
    requires Scanned(done, original, start, i, rounded) && i < |original| && original[i] != CubeShaped
    ensures Scanned(done[i := EmptySpace], original, start, i + 1,
                    if original[i] == Rounded then rounded + 1 else rounded)
  {
    assert original[i..][1..] == original[i + 1..];
    assert done[i := EmptySpace][..start] == done[..start];
  }

  /** A cube closes the open segment: its rocks are written at its start. */
  lemma {:induction false} ScanCube(done: seq<Tile>, after: seq<Tile>, original: seq<Tile>, start: nat, i: nat, rounded: nat)
    requires Scanned(done, original, start, i, rounded) && i < |original| && original[i] == CubeShaped
    requires |after| == |done|
    requires forall k :: 0 <= k < |done| ==> after[k] == if start <= k < start + rounded then Rounded else done[k]
    ensures Scanned(after, original, i + 1, i + 1, 0)
  {
    assert original[i..][1..] == original[i + 1..];
    assert after[..i + 1] == done[..start] + Fill(rounded, i - start) + [CubeShaped];
    assert original[i + 1..][0..] == original[i + 1..];
  }

  /** At the end of the line the open segment's rocks complete it. */
  lemma {:induction false} ScanEnd(done: seq<Tile>, after: seq<Tile>, original: seq<Tile>, start: nat, rounded: nat)
    requires Scanned(done, original, start, |original|, rounded)
    requires |after| == |done|
    requires forall k :: 0 <= k < |done| ==> after[k] == if start <= k < start + rounded then Rounded else done[k]
    ensures after == Packed(original)
  {
    assert original[|original|..] == [];
    assert after == done[..start] + Fill(rounded, |original| - start);
  }

  /** One cell of the scan: a rock is counted into the open segment and its
      cell emptied, an empty cell is written empty, and a cube closes the
      segment. */
  method ScanCell(p: Platform, t: Platform, height: nat, width: nat, d: Direction, line: nat,
                  i: nat, start: nat, rounded: nat)
    returns (t': Platform, start': nat, rounded': nat)
    requires Fits(p, height, width) && Fits(t, height, width) && line < LineCount(height, width, d)
    requires i < LineLength(height, width, d)
    requires Scanned(Line(t, height, width, d, line), Line(p, height, width, d, line), start, i, rounded)
    ensures Fits(t', height, width)
    ensures Scanned(Line(t', height, width, d, line), Line(p, height, width, d, line), start', i + 1, rounded')
    ensures forall l :: 0 <= l < LineCount(height, width, d) && l != line ==>
      Line(t', height, width, d, l) == Line(t, height, width, d, l)
  {
    ghost var original := Line(p, height, width, d, line);
    ghost var done := Line(t, height, width, d, line);
    var cell := CellOf(height, width, d, line, i);
    assert p[cell.0][cell.1] == original[i];
    start', rounded' := start, rounded;
    match p[cell.0][cell.1] {
      case Rounded =>
        ScanOther(done, original, start, i, rounded);
        PutLine(t, height, width, d, line, i, EmptySpace);
        rounded' := rounded + 1;
        t' := Put(t, cell, EmptySpace);
      case CubeShaped =>
        t' := PutRocks(t, height, width, d, line, start, rounded);
        ScanCube(done, Line(t', height, width, d, line), original, start, i, rounded);
        start' := i + 1;
        rounded' := 0;
      case EmptySpace =>
        ScanOther(done, original, start, i, rounded);
        PutLine(t, height, width, d, line, i, EmptySpace);
        t' := Put(t, cell, EmptySpace);
    }
  }

  /** The inner loops of a tilt for one line: scan from the edge the rocks
      roll toward, counting the rocks of the open segment and emptying their
      cells, and write them back at the segment's start when a cube or the
      end of the line closes it. */
  method TiltLine(p: Platform, t: Platform, height: nat, width: nat, d: Direction, line: nat)
    returns (t': Platform)
    requires Fits(p, height, width) && Fits(t, height, width) && line < LineCount(height, width, d)
    requires Line(t, height, width, d, line) == Line(p, height, width, d, line)
    ensures Fits(t', height, width)
    ensures Line(t', height, width, d, line) == Packed(Line(p, height, width, d, line))
    ensures forall l :: 0 <= l < LineCount(height, width, d) && l != line ==>
      Line(t', height, width, d, l) == Line(t, height, width, d, l)
  {
    ghost var original := Line(p, height, width, d, line);
    var n := LineLength(height, width, d);
    t' := t;
    var clusterStart := 0;
    var clusterLen := 0;
    ScanStart(original);
    var i := 0;
    while i < n
      invariant i <= n && Fits(t', height, width)
      invariant Scanned(Line(t', height, width, d, line), original, clusterStart, i, clusterLen)
      invariant forall l :: 0 <= l < LineCount(height, width, d) && l != line ==>
        Line(t', height, width, d, l) == Line(t, height, width, d, l)
    {
      t', clusterStart, clusterLen := ScanCell(p, t', height, width, d, line, i, clusterStart, clusterLen);
      i := i + 1;
    }
    ghost var done := Line(t', height, width, d, line);
    t' := PutRocks(t', height, width, d, line, clusterStart, clusterLen);
    ScanEnd(done, Line(t', height, width, d, line), original, clusterStart, clusterLen);
  }

  /** A platform with at least one row, all rows of one non-zero width. */
  predicate Rectangular(p: Platform)
  {
    |p| >= 1 && Fits(p, |p|, |p[0]|)
  }

  /** `tilt_north`, `tilt_west`, `tilt_south` and `tilt_east`: the same
      procedure, line by line, into a copy of the platform. */
  method Tilt(p: Platform, d: Direction) returns (t: Platform)
    requires Rectangular(p)
    ensures t == Tilted(p, |p|, |p[0]|, d)
  {
    var height, width := |p|, |p[0]|;
    t := p;
    var line := 0;
    while line < LineCount(height, width, d)
      invariant line <= LineCount(height, width, d) && Fits(t, height, width)
      invariant forall l :: 0 <= l < line ==> Line(t, height, width, d, l) == Packed(Line(p, height, width, d, l))
      invariant forall l :: line <= l < LineCount(height, width, d) ==> Line(t, height, width, d, l) == Line(p, height, width, d, l)
    {
      t := TiltLine(p, t, height, width, d, line);
      line := line + 1;
    }
    forall l | 0 <= l < LineCount(height, width, d)
      ensures Line(t, height, width, d, l) == Line(Tilted(p, height, width, d), height, width, d, l)
    {
      TiltedLines(p, height, width, d, l);
    }
    SameLines(t, Tilted(p, height, width, d), height, width, d);
  }

  // ---------------------------------------------------------------------
  // Cycles and load

  /** One spin cycle: tilt north, then west, then south, then east. */
  function Cycled(p: Platform): (q: Platform)
    requires Rectangular(p)
    ensures Fits(q, |p|, |p[0]|)
  {
    var height, width := |p|, |p[0]|;
    Tilted(Tilted(Tilted(Tilted(p, height, width, North), height, width, West), height, width, South), height, width, East)
  }

  /** `cycle`. */
  method Cycle(p: Platform) returns (q: Platform)
    requires Rectangular(p)
    ensures q == Cycled(p)
  {
    var north := Tilt(p, North);
    var west := Tilt(north, West);
    var south := Tilt(west, South);
    q := Tilt(south, East);
  }

  /** The platform after n spin cycles. */
  function Iterate(p: Platform, n: nat): (q: Platform)
    requires Rectangular(p)
    ensures Fits(q, |p|, |p[0]|)
  {
    if n == 0 then p else Cycled(Iterate(p, n - 1))
  }

  /** Once the platform after `first + period` cycles equals the one after
      `first`, it repeats with that period from there on. */
  lemma {:induction false} Periodic(p: Platform, first: nat, period: nat, n: nat)
    requires Rectangular(p) && first <= n && Iterate(p, first + period) == Iterate(p, first)
    ensures Iterate(p, n + period) == Iterate(p, n)
    decreases n
  {
    if n > first {
      Periodic(p, first, period, n - 1);
      assert n + period - 1 == (n - 1) + period;
    }
  }

  /** So the platform after any number n of cycles past `first` is the one
      after `first + (n - first) % period`. */
  lemma {:induction false} Repeats(p: Platform, first: nat, period: nat, n: nat)
    requires Rectangular(p) && period >= 1 && first <= n
    requires Iterate(p, first + period) == Iterate(p, first)
    ensures Iterate(p, n) == Iterate(p, (n - first) % period + first)
    decreases n
  {
    var target := (n - first) % period + first;
    if n < first + period {
      ModBelow(n - first, period);
      assert target == n;
    } else {
      var m := n - period;
      Periodic(p, first, period, m);
      assert Iterate(p, n) == Iterate(p, m) by {
        assert m + period == n;
      }
      Repeats(p, first, period, m);
      ModShift(m - first, period);
      assert target == (m - first) % period + first by {
        assert n - first == (m - first) + period;
      }
    }
  }

  /** The number of rocks on the platform. */
  function TotalRocks(p: Platform): nat
  {
    if p == [] then 0 else TotalRocks(p[..|p| - 1]) + Rocks(p[|p| - 1])
  }

  /** The load of the first n rows, a rock in row y weighing the number of
      rows from y to the south edge. */
  function RowsLoad(p: Platform, n: nat): nat
    requires n <= |p|
  {
    if n == 0 then 0 else RowsLoad(p, n - 1) + Rocks(p[n - 1]) * (|p| - (n - 1))
  }

  /** `load`: the total load on the north support beams. */
  function Load(p: Platform): nat
  {
    RowsLoad(p, |p|)
  }

  /** Every rock weighs at least 1 and at most the height, so the load lies
      between the number of rocks and that number times the height. */
  lemma {:induction false} RowsLoadBounds(p: Platform, n: nat)
    requires n <= |p|
    ensures TotalRocks(p[..n]) <= RowsLoad(p, n) <= |p| * TotalRocks(p[..n])
  {
    if n > 0 {
      RowsLoadBounds(p, n - 1);
      assert p[..n][..n - 1] == p[..n - 1];
      LoadStep(TotalRocks(p[..n - 1]), RowsLoad(p, n - 1), Rocks(p[n - 1]), |p| - (n - 1), |p|);
    }
  }

  lemma LoadStep(total: nat, load: nat, a: nat, w: nat, h: nat)
    requires total <= load <= h * total && 1 <= w <= h
    ensures total + a <= load + a * w <= h * (total + a)
  {
    assert a <= a * w <= a * h;
    assert h * (total + a) == h * total + h * a;
  }

  lemma {:induction false} LoadBounds(p: Platform)
    ensures TotalRocks(p) <= Load(p) <= |p| * TotalRocks(p)
  {
    RowsLoadBounds(p, |p|);
    assert p[..|p|] == p;
  }

  /** Part one: the load after tilting north. */
  method Part1(p: Platform) returns (load: nat)
    requires Rectangular(p)
    ensures load == Load(Tilted(p, |p|, |p[0]|, North))
  {
    var tilted := Tilt(p, North);
    load := Load(tilted);
  }

  const CYCLES: nat := 1000000000

  /** The first index of a platform in a list of them. */
  function FirstIndex(states: seq<Platform>, p: Platform): (r: Option<nat>)
    ensures r.Some? ==> r.value < |states| && states[r.value] == p
    ensures r.None? ==> p !in states
  {
    if states == [] then None
    else if states[0] == p then Some(0)
    else match FirstIndex(states[1..], p)
      case None => None
      case Some(k) => Some(k + 1)
  }

  /** The list holds the platforms after 0, 1, 2, ... cycles. */
  ghost predicate Trace(p: Platform, states: seq<Platform>)
    requires Rectangular(p)
  {
    forall k :: 0 <= k < |states| ==> states[k] == Iterate(p, k)
  }

  lemma {:induction false} TraceExtend(p: Platform, states: seq<Platform>, next: Platform)
    requires Rectangular(p) && Trace(p, states) && |states| >= 1
    requires next == Cycled(states[|states| - 1])
    ensures next == Iterate(p, |states|) && Trace(p, states + [next])
  {
  }

  /** At the first repeat, the platform the index lands on is the one after
      a billion cycles. */
  lemma {:induction false} RepeatLands(p: Platform, states: seq<Platform>, first: nat)
    requires Rectangular(p) && Trace(p, states) && 1 <= |states| <= CYCLES
    requires first < |states| && states[first] == Iterate(p, |states|)
    ensures (CYCLES - first) % (|states| - first) + first < |states|
    ensures states[(CYCLES - first) % (|states| - first) + first] == Iterate(p, CYCLES)
  {
    var period := |states| - first;
    assert Iterate(p, first + period) == Iterate(p, first);
    Repeats(p, first, period, CYCLES);
  }

  /** Part two: run cycles until a platform repeats one seen before, then
      jump ahead by the period; the result is the load after a billion
      cycles. */
  method Part2(p: Platform) returns (load: nat)
    requires Rectangular(p)
    ensures load == Load(Iterate(p, CYCLES))
  {
    var states := [p];
    var cycle := 1;
    while cycle <= CYCLES
      invariant 1 <= cycle <= CYCLES + 1 && |states| == cycle
      invariant Trace(p, states)
    {
      var newState := Cycle(states[|states| - 1]);
      TraceExtend(p, states, newState);
      var firstOccurrence := FirstIndex(states, newState);
      if firstOccurrence.Some? {
        var first := firstOccurrence.value;
        var cycleLen := cycle - first;
        RepeatLands(p, states, first);
        load := Load(states[(CYCLES - first) % cycleLen + first]);
        return;
      }
      states := states + [newState];
      cycle := cycle + 1;
    }
    load := Load(states[|states| - 1]);
  }
}
