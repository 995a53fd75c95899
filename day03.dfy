/** Day 3, "Gear Ratios": an engine schematic is a grid of digits, dots and
    symbols. Each maximal run of digits in a line is a number; part one sums
    the numbers next to a symbol, part two sums, over every '*' next to
    exactly two numbers, the product of those two numbers. */
module Day03 {
  import opened Common

  datatype Coordinates = Coordinates(x: int, y: int)

  /** The columns a number spans in its line, both ends included. */
  datatype HorizontalSegment = HorizontalSegment(xMin: int, xMax: int)

  datatype Number = Number(segment: HorizontalSegment, value: nat)

  /** The symbols by position, and the numbers of each line in order. */
  datatype EngineSchematic = EngineSchematic(symbols: map<Coordinates, char>, numbers: seq<seq<Number>>)

  /** Anything that is neither a digit nor '.' is a symbol. */
  predicate IsSymbol(c: char) { !IsDigit(c) && c != '.' }

  predicate AllDigits(line: string, lo: int, hi: int)
    requires 0 <= lo && hi <= |line|
  {
    forall k :: lo <= k < hi ==> IsDigit(line[k])
  }

  /** The decimal value of the digits line[lo..hi], most significant
      first. */
  function Value(line: string, lo: int, hi: int): nat
    requires 0 <= lo && hi <= |line| && AllDigits(line, lo, hi)
    decreases hi - lo
  {
    if hi <= lo then 0 else 10 * Value(line, lo, hi - 1) + DigitValue(line[hi - 1])
  }

  /** A maximal run of digits in the line. */
  predicate IsRun(line: string, seg: HorizontalSegment)
  {
    0 <= seg.xMin <= seg.xMax < |line|
    && AllDigits(line, seg.xMin, seg.xMax + 1)
    && (seg.xMin == 0 || !IsDigit(line[seg.xMin - 1]))
    && (seg.xMax == |line| - 1 || !IsDigit(line[seg.xMax + 1]))
  }

  /** A number read correctly from the line. */
  predicate IsNumberOf(line: string, n: Number)
  {
    IsRun(line, n.segment) && n.value == Value(line, n.segment.xMin, n.segment.xMax + 1)
  }

  predicate InSegment(n: Number, p: int)
  {
    n.segment.xMin <= p <= n.segment.xMax
  }

  /** A digit at column p; kept apart from IsDigit so that coverage facts
      are only used about the columns a proof asks for. */
  predicate DigitAt(line: string, p: int)
    requires 0 <= p < |line|
  {
    IsDigit(line[p])
  }

  /** Column p lies in one of the numbers. */
  predicate Covered(numbers: seq<Number>, p: int)
  {
    exists i :: 0 <= i < |numbers| && InSegment(numbers[i], p)
  }

  /** The numbers of a line, as the parser must produce them: each a
      maximal digit run with its decimal value, in increasing x without
      overlap, and every digit belongs to one of them. */
  predicate NumbersOf(line: string, numbers: seq<Number>)
  {
    (forall i :: 0 <= i < |numbers| ==> IsNumberOf(line, numbers[i]))
    && (forall i :: 0 <= i < |numbers| - 1 ==> numbers[i].segment.xMax + 1 < numbers[i + 1].segment.xMin)
    && (forall p :: 0 <= p < |line| && DigitAt(line, p) ==> Covered(numbers, p))
  }

  /** The symbols recorded for the lines: exactly the symbol characters,
      at their column and line. */
  predicate SymbolsOf(lines: seq<string>, symbols: map<Coordinates, char>)
  {
    (forall c :: c in symbols ==> 0 <= c.y < |lines| && 0 <= c.x < |lines[c.y]| && symbols[c] == lines[c.y][c.x] && IsSymbol(symbols[c]))
    && (forall y, x :: 0 <= y < |lines| && 0 <= x < |lines[y]| && IsSymbol(lines[y][x]) ==> Coordinates(x, y) in symbols)
  }

  /** The scanner's state after the first x characters of a line: the
      numbers already closed, and whether a number is open (from xMin to
      xMax = x - 1, worth `number` so far). */
  ghost predicate Scanned(line: string, x: int, numbers: seq<Number>, isNumber: bool, xMin: int, xMax: int, number: nat)
  {
    0 <= x <= |line|
    && (forall i :: 0 <= i < |numbers| ==> IsNumberOf(line, numbers[i]) && numbers[i].segment.xMax < x)
    && (forall i :: 0 <= i < |numbers| - 1 ==> numbers[i].segment.xMax + 1 < numbers[i + 1].segment.xMin)
    && (isNumber ==> 0 <= xMin <= xMax == x - 1 && AllDigits(line, xMin, x)
                     && (xMin == 0 || !IsDigit(line[xMin - 1]))
                     && number == Value(line, xMin, x)
                     && (|numbers| > 0 ==> numbers[|numbers| - 1].segment.xMax + 1 < xMin))
    && (!isNumber ==> x == 0 || !IsDigit(line[x - 1]))
    && (forall p :: 0 <= p < x && DigitAt(line, p) ==> Covered(numbers, p) || (isNumber && xMin <= p))
  }

  /** A digit opens a number or extends the open one. */
  lemma {:induction false} DigitStep(line: string, x: int, numbers: seq<Number>, isNumber: bool, xMin: int, xMax: int, number: nat)
    requires Scanned(line, x, numbers, isNumber, xMin, xMax, number) && x < |line| && IsDigit(line[x])
    ensures isNumber ==> Scanned(line, x + 1, numbers, true, xMin, x, 10 * number + DigitValue(line[x]))
    ensures !isNumber ==> Scanned(line, x + 1, numbers, true, x, x, DigitValue(line[x]))
  {
  }

  /** Any other character closes the open number, if any. */
  lemma {:induction false} OtherStep(line: string, x: int, numbers: seq<Number>, isNumber: bool, xMin: int, xMax: int, number: nat)
    requires Scanned(line, x, numbers, isNumber, xMin, xMax, number) && x < |line| && !IsDigit(line[x])
    ensures isNumber ==> Scanned(line, x + 1, numbers + [Number(HorizontalSegment(xMin, xMax), number)], false, xMin, xMax, 0)
    ensures !isNumber ==> Scanned(line, x + 1, numbers, false, xMin, xMax, 0)
  {
    ClosedNumbers(line, x, numbers, isNumber, xMin, xMax, number);
    ClosedCoverage(line, x, numbers, isNumber, xMin, xMax, number);
  }

  /** The numbers once the open number, if any, is closed. */
  function Close(numbers: seq<Number>, isNumber: bool, xMin: int, xMax: int, number: nat): seq<Number>
  {
    if isNumber then numbers + [Number(HorizontalSegment(xMin, xMax), number)] else numbers
  }

  /** Closing the open number before a non-digit, or at the end of the
      line, adds a maximal run with its value after the earlier ones. */
  lemma {:induction false} ClosedNumbers(line: string, x: int, numbers: seq<Number>, isNumber: bool, xMin: int, xMax: int, number: nat)
    requires Scanned(line, x, numbers, isNumber, xMin, xMax, number)
    requires x == |line| || !IsDigit(line[x])
    ensures var numbers' := Close(numbers, isNumber, xMin, xMax, number);
            (forall i :: 0 <= i < |numbers'| ==> IsNumberOf(line, numbers'[i]) && numbers'[i].segment.xMax < x + 1)
            && (forall i :: 0 <= i < |numbers'| - 1 ==> numbers'[i].segment.xMax + 1 < numbers'[i + 1].segment.xMin)
  {
    if isNumber {
      var numbers' := Close(numbers, isNumber, xMin, xMax, number);
      assert IsNumberOf(line, numbers'[|numbers|]);
      assert forall i :: 0 <= i < |numbers| ==> numbers'[i] == numbers[i];
    }
  }

  /** ...and every digit seen so far lies in a closed number. */
  lemma {:induction false} ClosedCoverage(line: string, x: int, numbers: seq<Number>, isNumber: bool, xMin: int, xMax: int, number: nat)
    requires Scanned(line, x, numbers, isNumber, xMin, xMax, number)
    requires x == |line| || !IsDigit(line[x])
    ensures var numbers' := Close(numbers, isNumber, xMin, xMax, number);
            forall p :: 0 <= p < x + 1 && p < |line| && DigitAt(line, p) ==> Covered(numbers', p)
  {
    var numbers' := Close(numbers, isNumber, xMin, xMax, number);
    forall p | 0 <= p < x + 1 && p < |line| && DigitAt(line, p) ensures Covered(numbers', p) {
      assert p < x;
      if Covered(numbers, p) {
        var i :| 0 <= i < |numbers| && InSegment(numbers[i], p);
        assert numbers'[i] == numbers[i];
      } else {
        assert InSegment(numbers'[|numbers|], p);
      }
    }
  }

  /** At the end of the line, closing the open number gives every number. */
  lemma {:induction false} EndOfLine(line: string, numbers: seq<Number>, isNumber: bool, xMin: int, xMax: int, number: nat)
    requires Scanned(line, |line|, numbers, isNumber, xMin, xMax, number)
    ensures NumbersOf(line, Close(numbers, isNumber, xMin, xMax, number))
  {
    ClosedNumbers(line, |line|, numbers, isNumber, xMin, xMax, number);
    ClosedCoverage(line, |line|, numbers, isNumber, xMin, xMax, number);
  }

  /** The symbols after the first x characters of line y, on top of those
      of the earlier lines. */
  ghost predicate SymbolsUpTo(line: string, y: int, x: int, symbols0: map<Coordinates, char>, symbols: map<Coordinates, char>)
    requires 0 <= x <= |line|
  {
    (forall c :: c in symbols <==> c in symbols0 || (c.y == y && 0 <= c.x < x && IsSymbol(line[c.x])))
    && (forall c :: c in symbols ==>
          symbols[c] == if c.y == y && 0 <= c.x < x && IsSymbol(line[c.x]) then line[c.x] else symbols0[c])
  }

  lemma {:induction false} SymbolStep(line: string, y: int, x: int, symbols0: map<Coordinates, char>, symbols: map<Coordinates, char>)
    requires 0 <= x < |line| && SymbolsUpTo(line, y, x, symbols0, symbols)
    ensures IsSymbol(line[x]) ==> SymbolsUpTo(line, y, x + 1, symbols0, symbols[Coordinates(x, y) := line[x]])
    ensures !IsSymbol(line[x]) ==> SymbolsUpTo(line, y, x + 1, symbols0, symbols)
  {
  }

  /** The parser's state machine for one line y: a digit starts or extends
      the current number; any other character ends it, and is recorded
      unless it is '.'. A number still open at the end of the line is
      kept. */
  method ParseLine(line: string, y: int, symbols0: map<Coordinates, char>)
    returns (lineNumbers: seq<Number>, symbols: map<Coordinates, char>)
    ensures NumbersOf(line, lineNumbers)
    ensures SymbolsUpTo(line, y, |line|, symbols0, symbols)
  {
    lineNumbers := [];
    symbols := symbols0;
    var isNumber := false;
    var number: nat := 0;
    var xMin := 0;
    var xMax := 0;
    var x := 0;
    while x < |line|
      invariant Scanned(line, x, lineNumbers, isNumber, xMin, xMax, number)
      invariant SymbolsUpTo(line, y, x, symbols0, symbols)
    {
      var character := line[x];
      SymbolStep(line, y, x, symbols0, symbols);
      if IsDigit(character) {
        DigitStep(line, x, lineNumbers, isNumber, xMin, xMax, number);
        if !isNumber {
          isNumber := true;
          xMin := x;
          number := 0;
        }
        xMax := x;
        number := 10 * number + DigitValue(character);
      } else {
        OtherStep(line, x, lineNumbers, isNumber, xMin, xMax, number);
        if isNumber {
          lineNumbers := lineNumbers + [Number(HorizontalSegment(xMin, xMax), number)];
          isNumber := false;
          number := 0;
        }
        if character != '.' {
          symbols := symbols[Coordinates(x, y) := character];
        }
      }
      x := x + 1;
    }
    EndOfLine(line, lineNumbers, isNumber, xMin, xMax, number);
    if isNumber {
      lineNumbers := lineNumbers + [Number(HorizontalSegment(xMin, xMax), number)];
    }
  }

  /** `parse_input`: one list of numbers per line, and every symbol. */
  method ParseInput(lines: seq<string>) returns (schematic: EngineSchematic)
    ensures |schematic.numbers| == |lines|
    ensures forall y :: 0 <= y < |lines| ==> NumbersOf(lines[y], schematic.numbers[y])
    ensures SymbolsOf(lines, schematic.symbols)
  {
    var symbols: map<Coordinates, char> := map[];
    var numbers: seq<seq<Number>> := [];
    var y := 0;
    while y < |lines|
      invariant 0 <= y <= |lines| && |numbers| == y
      invariant forall k :: 0 <= k < y ==> NumbersOf(lines[k], numbers[k])
      invariant SymbolsBefore(lines, y, symbols)
    {
      var lineNumbers;
      ghost var before := symbols;
      lineNumbers, symbols := ParseLine(lines[y], y, symbols);
      SymbolsLineStep(lines, y, before, symbols);
      numbers := numbers + [lineNumbers];
      y := y + 1;
    }
    schematic := EngineSchematic(symbols, numbers);
  }

  /** The symbols recorded once the first y lines are parsed. */
  predicate SymbolsBefore(lines: seq<string>, y: int, symbols: map<Coordinates, char>)
    requires 0 <= y <= |lines|
  {
    (forall c :: c in symbols ==> 0 <= c.y < y && 0 <= c.x < |lines[c.y]| && symbols[c] == lines[c.y][c.x] && IsSymbol(symbols[c]))
    && (forall k, x :: 0 <= k < y && 0 <= x < |lines[k]| && IsSymbol(lines[k][x]) ==> Coordinates(x, k) in symbols)
  }

  lemma {:induction false} SymbolsLineStep(lines: seq<string>, y: int, before: map<Coordinates, char>, after: map<Coordinates, char>)
    requires 0 <= y < |lines| && SymbolsBefore(lines, y, before)
    requires SymbolsUpTo(lines[y], y, |lines[y]|, before, after)
    ensures SymbolsBefore(lines, y + 1, after)
  {
    forall k, x | 0 <= k < y + 1 && 0 <= x < |lines[k]| && IsSymbol(lines[k][x]) ensures Coordinates(x, k) in after {
      if k < y {
        assert Coordinates(x, k) in before;
      }
    }
  }

  // ---------------------------------------------------------------------
  // Part one

  /** A cell around a number: in the box one cell wider on every side, and
      not one of the number's own cells. */
  predicate Neighbour(seg: HorizontalSegment, y: int, c: Coordinates)
  {
    seg.xMin - 1 <= c.x <= seg.xMax + 1 && y - 1 <= c.y <= y + 1
    && !(c.y == y && seg.xMin <= c.x <= seg.xMax)
  }

  /** A part number: some symbol is next to it, diagonals included. */
  predicate IsPartNumber(symbols: map<Coordinates, char>, seg: HorizontalSegment, y: int)
  {
    exists c :: c in symbols && Neighbour(seg, y, c)
  }

  /** The test the source makes in two halves: a symbol in the line above
      or below within one column of the number... */
  predicate VerticalHit(symbols: map<Coordinates, char>, seg: HorizontalSegment, y: int)
  {
    exists x :: seg.xMin - 1 <= x <= seg.xMax + 1 && AboveOrBelow(symbols, x, y)
  }

  predicate AboveOrBelow(symbols: map<Coordinates, char>, x: int, y: int)
  {
    Coordinates(x, y - 1) in symbols || Coordinates(x, y + 1) in symbols
  }

  /** ...or directly to its left or right. */
  predicate SideHit(symbols: map<Coordinates, char>, seg: HorizontalSegment, y: int)
  {
    Coordinates(seg.xMin - 1, y) in symbols || Coordinates(seg.xMax + 1, y) in symbols
  }

  /** The two halves together are exactly adjacency. */
  lemma {:induction false} HitsAreAdjacency(symbols: map<Coordinates, char>, seg: HorizontalSegment, y: int)
    requires seg.xMin <= seg.xMax
    ensures IsPartNumber(symbols, seg, y) <==> VerticalHit(symbols, seg, y) || SideHit(symbols, seg, y)
  {
    if IsPartNumber(symbols, seg, y) {
      var c :| c in symbols && Neighbour(seg, y, c);
      if c.y != y {
        assert AboveOrBelow(symbols, c.x, y);
      }
    }
    if VerticalHit(symbols, seg, y) {
      var x :| seg.xMin - 1 <= x <= seg.xMax + 1 && AboveOrBelow(symbols, x, y);
      if Coordinates(x, y - 1) in symbols {
        assert Neighbour(seg, y, Coordinates(x, y - 1));
      } else {
        assert Neighbour(seg, y, Coordinates(x, y + 1));
      }
    }
    if Coordinates(seg.xMin - 1, y) in symbols {
      assert Neighbour(seg, y, Coordinates(seg.xMin - 1, y));
    }
    if Coordinates(seg.xMax + 1, y) in symbols {
      assert Neighbour(seg, y, Coordinates(seg.xMax + 1, y));
    }
  }

  /** The scan of the lines above and below a number, as the source's
      inner loop with its `break`. */
  method ScanAboveBelow(symbols: map<Coordinates, char>, seg: HorizontalSegment, y: int) returns (hit: bool)
    ensures hit == VerticalHit(symbols, seg, y)
  {
    hit := false;
    var x := seg.xMin - 1;
    while x <= seg.xMax + 1
      invariant seg.xMin - 1 <= x && (seg.xMin - 1 <= seg.xMax + 1 ==> x <= seg.xMax + 2)
      invariant !hit
      invariant forall x' :: seg.xMin - 1 <= x' < x ==> !AboveOrBelow(symbols, x', y)
      decreases seg.xMax + 1 - x
    {
      if Coordinates(x, y - 1) in symbols || Coordinates(x, y + 1) in symbols {
        assert AboveOrBelow(symbols, x, y);
        hit := true;
        return;
      }
      x := x + 1;
    }
  }

  /** Part one's sum over one line of numbers as the source computes it:
      a number with a symbol above or below is added; a number with a
      symbol on its left or right is added (again) and ends the line. */
  function AsWrittenLine(symbols: map<Coordinates, char>, numbers: seq<Number>, y: int): nat
  {
    if numbers == [] then 0
    else
      var n := numbers[0];
      (if VerticalHit(symbols, n.segment, y) then n.value else 0)
      + (if SideHit(symbols, n.segment, y) then n.value else AsWrittenLine(symbols, numbers[1..], y))
  }

  function AsWrittenSum(s: EngineSchematic, lines: nat): nat
    requires lines <= |s.numbers|
  {
    if lines == 0 then 0 else AsWrittenSum(s, lines - 1) + AsWrittenLine(s.symbols, s.numbers[lines - 1], lines - 1)
  }

  /** `part1` as written. */
  method Part1AsWritten(s: EngineSchematic) returns (partNumbersSum: nat)
    ensures partNumbersSum == AsWrittenSum(s, |s.numbers|)
  {
    partNumbersSum := 0;
    var lineY := 0;
    while lineY < |s.numbers|
      invariant 0 <= lineY <= |s.numbers| && partNumbersSum == AsWrittenSum(s, lineY)
    {
      var line := s.numbers[lineY];
      var lineSum := 0;
      var i := 0;
      while i < |line|
        invariant 0 <= i <= |line|
        invariant lineSum + AsWrittenLine(s.symbols, line[i..], lineY) == AsWrittenLine(s.symbols, line, lineY)
      {
        var n := line[i];
        var vertical := ScanAboveBelow(s.symbols, n.segment, lineY);
        if vertical {
          lineSum := lineSum + n.value;
        }
        if Coordinates(n.segment.xMin - 1, lineY) in s.symbols || Coordinates(n.segment.xMax + 1, lineY) in s.symbols {
          lineSum := lineSum + n.value;
          break;
        }
        assert line[i..][1..] == line[i + 1..];
        i := i + 1;
      }
      partNumbersSum := partNumbersSum + lineSum;
      lineY := lineY + 1;
    }
  }

  /** The sum of the part numbers of a line, each counted once. */
  function PartLine(symbols: map<Coordinates, char>, numbers: seq<Number>, y: int): nat
  {
    if numbers == [] then 0
    else (if IsPartNumber(symbols, numbers[0].segment, y) then numbers[0].value else 0) + PartLine(symbols, numbers[1..], y)
  }

  function PartSum(s: EngineSchematic, lines: nat): nat
    requires lines <= |s.numbers|
  {
    if lines == 0 then 0 else PartSum(s, lines - 1) + PartLine(s.symbols, s.numbers[lines - 1], lines - 1)
  }

  /** Part one: the sum of all part numbers, each counted once. The two
      checks of the source decide together, and every number of the line is
      looked at. */
  method Part1(s: EngineSchematic) returns (partNumbersSum: nat)
    requires forall y :: 0 <= y < |s.numbers| ==> forall i :: 0 <= i < |s.numbers[y]| ==>
               s.numbers[y][i].segment.xMin <= s.numbers[y][i].segment.xMax
    ensures partNumbersSum == PartSum(s, |s.numbers|)
  {
    partNumbersSum := 0;
    var lineY := 0;
    while lineY < |s.numbers|
      invariant 0 <= lineY <= |s.numbers| && partNumbersSum == PartSum(s, lineY)
    {
      var line := s.numbers[lineY];
      var lineSum := 0;
      var i := 0;
      while i < |line|
        invariant 0 <= i <= |line|
        invariant lineSum + PartLine(s.symbols, line[i..], lineY) == PartLine(s.symbols, line, lineY)
      {
        var n := line[i];
        var vertical := ScanAboveBelow(s.symbols, n.segment, lineY);
        HitsAreAdjacency(s.symbols, n.segment, lineY);
        if vertical || Coordinates(n.segment.xMin - 1, lineY) in s.symbols || Coordinates(n.segment.xMax + 1, lineY) in s.symbols {
          lineSum := lineSum + n.value;
        }
        assert line[i..][1..] == line[i + 1..];
        i := i + 1;
      }
      partNumbersSum := partNumbersSum + lineSum;
      lineY := lineY + 1;
    }
  }

  /** The line "1*2": the symbol beside 1 ends the line, so 2 is lost. */
  lemma {:induction false} SideSymbolEndsLine()
    ensures var s := EngineSchematic(map[Coordinates(1, 0) := '*'],
                                     [[Number(HorizontalSegment(0, 0), 1), Number(HorizontalSegment(2, 2), 2)]]);
            AsWrittenSum(s, 1) == 1 && PartSum(s, 1) == 3
  {
    var symbols := map[Coordinates(1, 0) := '*'];
    var one := HorizontalSegment(0, 0);
    var two := HorizontalSegment(2, 2);
    assert !VerticalHit(symbols, one, 0);
    assert SideHit(symbols, one, 0);
    assert Neighbour(one, 0, Coordinates(1, 0)) && Neighbour(two, 0, Coordinates(1, 0));
  }

  /** The lines "*." and "1*": 1 has a symbol above and one beside it and
      is added twice. */
  lemma {:induction false} BothHitsCountTwice()
    ensures var s := EngineSchematic(map[Coordinates(0, 0) := '*', Coordinates(1, 1) := '*'],
                                     [[], [Number(HorizontalSegment(0, 0), 1)]]);
            AsWrittenSum(s, 2) == 2 && PartSum(s, 2) == 1
  {
    var symbols := map[Coordinates(0, 0) := '*', Coordinates(1, 1) := '*'];
    var one := HorizontalSegment(0, 0);
    assert AboveOrBelow(symbols, 0, 1);
    assert SideHit(symbols, one, 1);
    assert Neighbour(one, 1, Coordinates(0, 0));
  }

  // ---------------------------------------------------------------------
  // Part two

  /** A number's column span reaches the gear's column. */
  predicate Touches(seg: HorizontalSegment, gx: int)
  {
    gx <= seg.xMax + 1 && gx >= seg.xMin - 1
  }

  /** The numbers of one line that touch column gx, as the source collects
      them: it stops at the first number that starts beyond gx + 1. */
  function RowTouching(row: seq<Number>, gx: int): seq<nat>
  {
    if row == [] then []
    else if Touches(row[0].segment, gx) then [row[0].value] + RowTouching(row[1..], gx)
    else if gx < row[0].segment.xMin - 1 then []
    else RowTouching(row[1..], gx)
  }

  /** Every number of the line that touches column gx, in order. */
  function AllTouching(row: seq<Number>, gx: int): seq<nat>
  {
    if row == [] then []
    else (if Touches(row[0].segment, gx) then [row[0].value] else []) + AllTouching(row[1..], gx)
  }

  predicate Sorted(row: seq<Number>)
  {
    forall i, j :: 0 <= i < j < |row| ==> row[i].segment.xMin <= row[j].segment.xMin
  }

  /** On a line whose numbers come in increasing x, as the parser makes
      them, stopping early loses no touching number. */
  lemma {:induction false} EarlyStopLosesNothing(row: seq<Number>, gx: int)
    requires Sorted(row)
    ensures RowTouching(row, gx) == AllTouching(row, gx)
  {
    if row != [] {
      EarlyStopLosesNothing(row[1..], gx);
      if !Touches(row[0].segment, gx) && gx < row[0].segment.xMin - 1 {
        NoneTouching(row[1..], gx);
      }
    }
  }

  lemma {:induction false} NoneTouching(row: seq<Number>, gx: int)
    requires forall i :: 0 <= i < |row| ==> gx < row[i].segment.xMin - 1
    ensures AllTouching(row, gx) == []
  {
    if row != [] {
      NoneTouching(row[1..], gx);
    }
  }

  lemma {:induction false} SortedNumbers(line: string, numbers: seq<Number>)
    requires NumbersOf(line, numbers)
    ensures Sorted(numbers)
  {
    forall i, j | 0 <= i < j < |numbers| ensures numbers[i].segment.xMin <= numbers[j].segment.xMin {
      SortedStep(numbers, i, j);
    }
  }

  lemma {:induction false} SortedStep(numbers: seq<Number>, i: nat, j: nat)
    requires i < j < |numbers|
    requires forall k :: 0 <= k < |numbers| ==> numbers[k].segment.xMin <= numbers[k].segment.xMax
    requires forall k :: 0 <= k < |numbers| - 1 ==> numbers[k].segment.xMax + 1 < numbers[k + 1].segment.xMin
    ensures numbers[i].segment.xMin < numbers[j].segment.xMin
    decreases j - i
  {
    if j > i + 1 {
      SortedStep(numbers, i + 1, j);
    }
  }

  /** The numbers that touch a gear: those of the lines above, at and below
      it (lines outside the schematic have none), line by line. */
  function GearNumbers(numbers: seq<seq<Number>>, gear: Coordinates): seq<nat>
  {
    Row(numbers, gear.y - 1, gear.x) + Row(numbers, gear.y, gear.x) + Row(numbers, gear.y + 1, gear.x)
  }

  function Row(numbers: seq<seq<Number>>, y: int, gx: int): seq<nat>
  {
    if 0 <= y < |numbers| then RowTouching(numbers[y], gx) else []
  }

  /** A gear's ratio: the product of its two numbers when exactly two touch
      it, and nothing otherwise. */
  function GearRatio(touching: seq<nat>): nat
  {
    if |touching| == 2 then touching[0] * touching[1] else 0
  }

  /** What a symbol adds in part two. */
  function Contribution(s: EngineSchematic, c: Coordinates): nat
    requires c in s.symbols
  {
    if s.symbols[c] == '*' then GearRatio(GearNumbers(s.numbers, c)) else 0
  }

  /** The sum of the contributions of a set of symbols, in any order. */
  ghost function GearSum(s: EngineSchematic, cs: set<Coordinates>): nat
    requires cs <= s.symbols.Keys
    decreases |cs|
  {
    if cs == {} then 0
    else
      var c :| c in cs;
      Contribution(s, c) + GearSum(s, cs - {c})
  }

  /** The sum does not depend on which symbol is taken first. */
  lemma {:induction false} GearSumRemove(s: EngineSchematic, cs: set<Coordinates>, c: Coordinates)
    requires cs <= s.symbols.Keys && c in cs
    ensures GearSum(s, cs) == Contribution(s, c) + GearSum(s, cs - {c})
    decreases |cs|
  {
    var d :| d in cs && GearSum(s, cs) == Contribution(s, d) + GearSum(s, cs - {d});
    if d != c {
      GearSumRemove(s, cs - {d}, c);
      GearSumRemove(s, cs - {c}, d);
      assert cs - {d} - {c} == cs - {c} - {d};
    }
  }

  /** The numbers touching a gear, as the source's loop over the three
      lines collects them. */
  method CollectGearNumbers(numbers: seq<seq<Number>>, gear: Coordinates) returns (touching: seq<nat>)
    ensures touching == GearNumbers(numbers, gear)
  {
    touching := [];
    var lineY := gear.y - 1;
    while lineY <= gear.y + 1
      invariant gear.y - 1 <= lineY <= gear.y + 2
      invariant touching == (if lineY > gear.y - 1 then Row(numbers, gear.y - 1, gear.x) else [])
                            + (if lineY > gear.y then Row(numbers, gear.y, gear.x) else [])
                            + (if lineY > gear.y + 1 then Row(numbers, gear.y + 1, gear.x) else [])
    {
      ghost var before := touching;
      if lineY >= 0 && lineY < |numbers| {
        var line := numbers[lineY];
        var i := 0;
        while i < |line|
          invariant 0 <= i <= |line|
          invariant touching + RowTouching(line[i..], gear.x) == before + RowTouching(line, gear.x)
        {
          var seg := line[i].segment;
          assert line[i..][1..] == line[i + 1..];
          if gear.x <= seg.xMax + 1 && gear.x >= seg.xMin - 1 {
            touching := touching + [line[i].value];
          } else if gear.x < seg.xMin - 1 {
            assert RowTouching(line[i..], gear.x) == [];
            break;
          }
          i := i + 1;
        }
        assert touching == before + Row(numbers, lineY, gear.x);
      }
      lineY := lineY + 1;
    }
  }

  /** Part two: the sum of the gear ratios over every '*', visiting the
      symbols in whatever order the map yields them. */
  method Part2(s: EngineSchematic) returns (gearRatiosSum: nat)
    ensures gearRatiosSum == GearSum(s, s.symbols.Keys)
  {
    gearRatiosSum := 0;
    var remaining := s.symbols.Keys;
    while remaining != {}
      invariant remaining <= s.symbols.Keys
      invariant gearRatiosSum + GearSum(s, remaining) == GearSum(s, s.symbols.Keys)
      decreases |remaining|
    {
      var gear :| gear in remaining;
      GearSumRemove(s, remaining, gear);
      if s.symbols[gear] == '*' {
        var touching := CollectGearNumbers(s.numbers, gear);
        if |touching| == 2 {
          gearRatiosSum := gearRatiosSum + touching[0] * touching[1];
        }
      }
      remaining := remaining - {gear};
    }
  }

  /** The values of all the numbers of line y whose span reaches column gx;
      nothing for a line outside the schematic. */
  function AllTouchingRow(numbers: seq<seq<Number>>, y: int, gx: int): seq<nat>
  {
    if 0 <= y < |numbers| then AllTouching(numbers[y], gx) else []
  }

  /** Every line's numbers are the ones the parser must produce. */
  predicate ParsedLines(lines: seq<string>, numbers: seq<seq<Number>>)
  {
    |numbers| == |lines| && forall y :: 0 <= y < |lines| ==> NumbersOf(lines[y], numbers[y])
  }

  /** On a parsed schematic a gear's numbers are all the numbers of the
      three lines whose span reaches its column. */
  lemma {:induction false} ParsedGearNumbers(lines: seq<string>, numbers: seq<seq<Number>>, gear: Coordinates)
    requires ParsedLines(lines, numbers)
    ensures GearNumbers(numbers, gear)
            == AllTouchingRow(numbers, gear.y - 1, gear.x) + AllTouchingRow(numbers, gear.y, gear.x)
               + AllTouchingRow(numbers, gear.y + 1, gear.x)
  {
    ParsedRow(lines, numbers, gear.y - 1, gear.x);
    ParsedRow(lines, numbers, gear.y, gear.x);
    ParsedRow(lines, numbers, gear.y + 1, gear.x);
  }

  lemma {:induction false} ParsedRow(lines: seq<string>, numbers: seq<seq<Number>>, y: int, gx: int)
    requires ParsedLines(lines, numbers)
    ensures Row(numbers, y, gx) == AllTouchingRow(numbers, y, gx)
  {
    if 0 <= y < |lines| {
      SortedNumbers(lines[y], numbers[y]);
      EarlyStopLosesNothing(numbers[y], gx);
    }
  }
}
