/** Day 1: calibration values, read from the first and last digit of a line,
    where in part two a digit may also be spelled out in letters. */
module Day01 {
  import opened Common

  predicate NoDigit(s: string) { forall k :: 0 <= k < |s| ==> !IsDigit(s[k]) }

  /** The index of the first ASCII digit, as `chars().find`. */
  function Find(s: string): (r: Option<nat>)
    ensures r.Some? ==> r.value < |s| && IsDigit(s[r.value]) && NoDigit(s[..r.value])
    ensures r.None? ==> NoDigit(s)
  {
    if s == [] then None
    else if IsDigit(s[0]) then Some(0)
    else match Find(s[1..])
      case None => None
      case Some(i) =>
        assert forall k :: 1 <= k < i + 1 ==> s[k] == s[1..][k - 1];
        Some(i + 1)
  }

  /** The index of the last ASCII digit, as `chars().rev().find`. */
  function FindLast(s: string): (r: Option<nat>)
    ensures r.Some? ==> r.value < |s| && IsDigit(s[r.value]) && NoDigit(s[r.value + 1..])
    ensures r.None? ==> NoDigit(s)
  {
    if s == [] then None
    else if IsDigit(s[|s| - 1]) then Some(|s| - 1)
    else match FindLast(s[..|s| - 1])
      case None => None
      case Some(i) => Some(i)
  }

  /** Part one's value of a line: ten times its first digit plus its last
      digit. A line without a digit makes the source panic. */
  function CalibrationValue(line: string): (r: nat)
    requires !NoDigit(line)
    ensures r <= 99
    ensures exists i, j :: 0 <= i <= j < |line| && IsDigit(line[i]) && IsDigit(line[j])
                           && NoDigit(line[..i]) && NoDigit(line[j + 1..])
                           && r == 10 * DigitValue(line[i]) + DigitValue(line[j])
  {
    var i := Find(line).value;
    var j := FindLast(line).value;
    10 * DigitValue(line[i]) + DigitValue(line[j])
  }

  /** Part one: the sum of the calibration values of all lines. */
  function Part1(document: seq<string>): (r: nat)
    requires forall k :: 0 <= k < |document| ==> !NoDigit(document[k])
    ensures r <= 99 * |document|
  {
    if document == [] then 0
    else Part1(document[..|document| - 1]) + CalibrationValue(document[|document| - 1])
  }

  // ---------------------------------------------------------------------
  // Part two: digits spelled out with letters.

  /** The spelled-out digits one to nine. */
  function Words(): (ws: seq<string>)
    ensures |ws| == 9
  {
    ["one", "two", "three", "four", "five", "six", "seven", "eight", "nine"]
  }

  /** The same words as the backward scan reads them, last letter first. */
  function BackWords(): (ws: seq<string>)
    ensures |ws| == 9
  {
    ["eno", "owt", "eerht", "ruof", "evif", "xis", "neves", "thgie", "enin"]
  }

  function Reversed(s: string): (r: string)
    ensures |r| == |s| && forall k :: 0 <= k < |s| ==> r[k] == s[|s| - 1 - k]
  {
    if s == [] then [] else Reversed(s[1..]) + [s[0]]
  }

  lemma {:induction false} BackWordsAreReversed()
    ensures forall w :: 0 <= w < 9 ==> BackWords()[w] == Reversed(Words()[w])
  {
    var fw, bw := Words(), BackWords();
    forall w | 0 <= w < 9 ensures bw[w] == Reversed(fw[w]) {
      var r := Reversed(fw[w]);
      assert |r| == |bw[w]|;
      assert forall k :: 0 <= k < |r| ==> r[k] == bw[w][k];
    }
  }

  predicate WordList(ws: seq<string>) { |ws| == 9 && forall w :: 0 <= w < 9 ==> |ws[w]| >= 1 }

  /** Whether the first n characters of s end with the first i letters of
      word. */
  predicate PartialAt(s: string, n: nat, word: string, i: nat)
  {
    i <= |word| && i <= n <= |s| && forall k :: 0 <= k < i ==> s[n - i + k] == word[k]
  }

  /** Whether the first n characters of s end with the whole word. */
  predicate EndsAt(s: string, n: nat, word: string)
  {
    PartialAt(s, n, word, |word|)
  }

  /** The matcher of one word fed one character: the index of the next
      letter expected advances on that letter, restarts at 1 on the word's
      first letter, and is otherwise reset to 0; |word| means complete. */
  function MatchStep(word: string, i: nat, c: char): (j: nat)
    requires i < |word|
    ensures j <= i + 1
  {
    if word[i] == c then i + 1 else if word[0] == c then 1 else 0
  }

  /** The index of one word's matcher after the first n characters of s;
      it stays at |word| once the word is complete (the scan stops there). */
  function Run(word: string, s: string, n: nat): (i: nat)
    requires |word| >= 1 && n <= |s|
    ensures i <= |word|
  {
    if n == 0 then 0
    else
      var i := Run(word, s, n - 1);
      if i == |word| then i else MatchStep(word, i, s[n - 1])
  }

  /** The first word, from number w on, whose matcher completes on the
      character at pos. */
  function CompletedWord(ws: seq<string>, s: string, pos: nat, w: nat): (r: Option<nat>)
    requires WordList(ws) && pos < |s| && w <= 9
    ensures r.Some? ==> w < r.value <= 9 && Run(ws[r.value - 1], s, pos + 1) == |ws[r.value - 1]|
    ensures r.None? ==> forall v :: w <= v < 9 ==> Run(ws[v], s, pos + 1) < |ws[v]|
    decreases 9 - w
  {
    if w == 9 then None
    else if Run(ws[w], s, pos + 1) == |ws[w]| then Some(w + 1)
    else CompletedWord(ws, s, pos, w + 1)
  }

  /** A digit found at position pos of the scanned text. */
  datatype Hit = Hit(pos: nat, value: nat)

  /** The scanner as written, from position pos on: it stops at the first
      ASCII digit or at the first character that completes a word. */
  function Scan(ws: seq<string>, s: string, pos: nat): (r: Option<Hit>)
    requires WordList(ws) && pos <= |s|
    ensures r.Some? ==> pos <= r.value.pos < |s|
    ensures r.Some? && !IsDigit(s[r.value.pos]) ==> CompletedWord(ws, s, r.value.pos, 0) == Some(r.value.value)
    decreases |s| - pos
  {
    if pos == |s| then None
    else if IsDigit(s[pos]) then Some(Hit(pos, DigitValue(s[pos])))
    else match CompletedWord(ws, s, pos, 0)
      case Some(d) => Some(Hit(pos, d))
      case None => Scan(ws, s, pos + 1)
  }

  function ValueOf(h: Option<Hit>): nat
  {
    match h
    case None => 0
    case Some(hit) => hit.value
  }

  /** The inner loop over the nine words for one character: each matcher
      is fed the character in place; the first word it completes is
      reported, and the remaining matchers are then left as they were. */
  method FeedWords(ws: seq<string>, s: string, pos: nat, indices: array<nat>) returns (found: Option<nat>)
    requires WordList(ws) && pos < |s| && indices.Length == 9
    requires Fed(ws, s, pos, indices[..], 0)
    modifies indices
    ensures found == CompletedWord(ws, s, pos, 0)
    ensures found.None? ==> Fed(ws, s, pos, indices[..], 9)
  {
    var c := s[pos];
    var w := 0;
    while w < 9
      invariant 0 <= w <= 9 && CompletedWord(ws, s, pos, 0) == CompletedWord(ws, s, pos, w)
      invariant Fed(ws, s, pos, indices[..], w)
    {
      var i := indices[w];
      FeedOne(ws, s, pos, w);
      ghost var before := indices[..];
      if ws[w][i] == c {
        if i == |ws[w]| - 1 {
          return Some(w + 1);
        }
        indices[w] := i + 1;
      } else if ws[w][0] == c {
        indices[w] := 1;
      } else {
        indices[w] := 0;
      }
      FedStep(ws, s, pos, before, w);
      assert indices[..] == before[w := Run(ws[w], s, pos + 1)];
      w := w + 1;
    }
    return None;
  }

  /** The matchers of the words before w have been fed the character at
      pos, the others not yet, and none of them has completed. */
  predicate Fed(ws: seq<string>, s: string, pos: nat, indices: seq<nat>, w: nat)
    requires WordList(ws) && pos < |s|
  {
    |indices| == 9 && w <= 9
    && (forall v :: 0 <= v < w ==> indices[v] == Run(ws[v], s, pos + 1) < |ws[v]|)
    && (forall v :: w <= v < 9 ==> indices[v] == Run(ws[v], s, pos) < |ws[v]|)
  }

  lemma {:induction false} FedStep(ws: seq<string>, s: string, pos: nat, indices: seq<nat>, w: nat)
    requires WordList(ws) && pos < |s| && w < 9 && Fed(ws, s, pos, indices, w)
    requires Run(ws[w], s, pos + 1) < |ws[w]|
    ensures Fed(ws, s, pos, indices[w := Run(ws[w], s, pos + 1)], w + 1)
  {
  }

  /** Feeding the character at pos to the matcher of word w advances it by
      one step, and the word completes exactly when that step reaches its
      length. */
  lemma {:induction false} FeedOne(ws: seq<string>, s: string, pos: nat, w: nat)
    requires WordList(ws) && pos < |s| && w < 9 && Run(ws[w], s, pos) < |ws[w]|
    ensures Run(ws[w], s, pos + 1) == MatchStep(ws[w], Run(ws[w], s, pos), s[pos])
    ensures CompletedWord(ws, s, pos, w)
            == if Run(ws[w], s, pos + 1) == |ws[w]| then Some(w + 1) else CompletedWord(ws, s, pos, w + 1)
  {
  }

  /** One scan of the text: the source's labelled loop over the characters
      with its array of nine match indices; 0 when nothing is found. */
  method ScanDigit(ws: seq<string>, s: string) returns (d: nat)
    requires WordList(ws)
    ensures d == ValueOf(Scan(ws, s, 0))
  {
    var indices := new nat[9](_ => 0);
    var pos := 0;
    while pos < |s|
      invariant 0 <= pos <= |s| && Scan(ws, s, 0) == Scan(ws, s, pos)
      invariant forall v :: 0 <= v < 9 ==> indices[v] == Run(ws[v], s, pos) < |ws[v]|
    {
      if IsDigit(s[pos]) {
        return DigitValue(s[pos]);
      }
      assert Fed(ws, s, pos, indices[..], 0);
      var found := FeedWords(ws, s, pos, indices);
      if found.Some? {
        return found.value;
      }
      pos := pos + 1;
    }
    return 0;
  }

  /** Part two's value of a line as written: the forward scan gives the first
      digit, the backward scan over the reversed words the last one. */
  method SpelledCalibrationValue(line: string) returns (r: nat)
    ensures r == 10 * ValueOf(Scan(Words(), line, 0)) + ValueOf(Scan(BackWords(), Reversed(line), 0))
  {
    var first := ScanDigit(Words(), line);
    var last := ScanDigit(BackWords(), Reversed(line));
    r := 10 * first + last;
  }

  // ---------------------------------------------------------------------
  // What a scan finds.

  /** The first word, from number w on, that the first n characters of s
      end with. */
  function FirstEnding(ws: seq<string>, s: string, n: nat, w: nat): (r: Option<nat>)
    requires WordList(ws) && w <= 9
    ensures r.Some? ==> w < r.value <= 9 && EndsAt(s, n, ws[r.value - 1])
    ensures r.None? ==> forall v :: w <= v < 9 ==> !EndsAt(s, n, ws[v])
    decreases 9 - w
  {
    if w == 9 then None else if EndsAt(s, n, ws[w]) then Some(w + 1) else FirstEnding(ws, s, n, w + 1)
  }

  /** The digit, if any, that ends at position pos: an ASCII digit, or a
      spelled word whose last letter is at pos. */
  function HitAt(ws: seq<string>, s: string, pos: nat): (r: Option<nat>)
    requires WordList(ws) && pos < |s|
    ensures r.Some? ==> r.value <= 9
    ensures r.Some? && !IsDigit(s[pos]) ==> 1 <= r.value <= 9 && EndsAt(s, pos + 1, ws[r.value - 1])
    ensures r.None? ==> !IsDigit(s[pos]) && forall w :: 0 <= w < 9 ==> !EndsAt(s, pos + 1, ws[w])
  {
    if IsDigit(s[pos]) then Some(DigitValue(s[pos])) else FirstEnding(ws, s, pos + 1, 0)
  }

  /** A matcher's index always names a prefix of its word that the text
      read so far ends with, as long as it had not completed before. */
  lemma {:induction false} RunTracks(word: string, s: string, n: nat)
    requires |word| >= 1 && n <= |s|
    requires n == 0 || Run(word, s, n - 1) < |word|
    ensures PartialAt(s, n, word, Run(word, s, n))
  {
    if n > 0 {
      if n > 1 {
        assert Run(word, s, n - 2) < |word|;
      }
      RunTracks(word, s, n - 1);
    }
  }

  /** The last three letters of a word of at least three letters. */
  function Tail3(word: string): string
    requires |word| >= 3
  {
    [word[|word| - 3], word[|word| - 2], word[|word| - 1]]
  }

  /** Words of at least three letters whose last three letters differ
      pairwise, so that no word is a suffix of another. */
  predicate DistinctEndings(ws: seq<string>)
  {
    WordList(ws) && (forall v :: 0 <= v < 9 ==> |ws[v]| >= 3)
    && forall v, w :: 0 <= v < w < 9 ==> Tail3(ws[v]) != Tail3(ws[w])
  }

  lemma {:induction false} SpelledDigitsEndDistinctly()
    ensures DistinctEndings(Words()) && DistinctEndings(BackWords())
  {
    WordsEndDistinctly();
    BackWordsEndDistinctly();
  }

  lemma {:induction false} WordsEndDistinctly()
    ensures DistinctEndings(Words())
  {
    var ws := Words();
    assert forall v :: 0 <= v < 9 ==> |ws[v]| >= 3;
  }

  lemma {:induction false} BackWordsEndDistinctly()
    ensures DistinctEndings(BackWords())
  {
    var ws := BackWords();
    assert forall v :: 0 <= v < 9 ==> |ws[v]| >= 3;
  }

  /** At most one word ends at any position. */
  lemma {:induction false} OneWordEnds(ws: seq<string>, s: string, n: nat, v: nat, w: nat)
    requires DistinctEndings(ws)
    requires v < 9 && w < 9 && EndsAt(s, n, ws[v]) && EndsAt(s, n, ws[w])
    ensures v == w
  {
    var a, b := ws[v], ws[w];
    assert s[n - 1] == a[|a| - 1] == b[|b| - 1];
    assert s[n - 2] == a[|a| - 2] == b[|b| - 2];
    assert s[n - 3] == a[|a| - 3] == b[|b| - 3];
    assert Tail3(a) == Tail3(b);
  }

  /** A word whose matcher completes on the character at pos really ends
      there. */
  lemma {:induction false} CompletedEnds(ws: seq<string>, s: string, pos: nat, d: nat)
    requires WordList(ws) && pos < |s|
    requires forall v :: 0 <= v < 9 ==> Run(ws[v], s, pos) < |ws[v]|
    requires CompletedWord(ws, s, pos, 0) == Some(d)
    ensures EndsAt(s, pos + 1, ws[d - 1])
  {
    RunTracks(ws[d - 1], s, pos + 1);
  }

  /** A word that ends at pos is the one word that does, so it is the
      digit found there. */
  lemma {:induction false} EndingIsHit(ws: seq<string>, s: string, pos: nat, d: nat)
    requires DistinctEndings(ws) && pos < |s| && !IsDigit(s[pos])
    requires 1 <= d <= 9 && EndsAt(s, pos + 1, ws[d - 1])
    ensures HitAt(ws, s, pos) == Some(d)
  {
    var f := FirstEnding(ws, s, pos + 1, 0);
    OneWordEnds(ws, s, pos + 1, f.value - 1, d - 1);
  }

  /** Hence a completed word is the digit found at pos. */
  lemma {:induction false} CompletedIsHit(ws: seq<string>, s: string, pos: nat, d: nat)
    requires DistinctEndings(ws) && pos < |s| && !IsDigit(s[pos])
    requires forall v :: 0 <= v < 9 ==> Run(ws[v], s, pos) < |ws[v]|
    requires CompletedWord(ws, s, pos, 0) == Some(d)
    ensures HitAt(ws, s, pos) == Some(d)
  {
    CompletedEnds(ws, s, pos, d);
    EndingIsHit(ws, s, pos, d);
  }

  /** What the scanner reports is really there: an ASCII digit, or a word
      ending at the reported position, with no ASCII digit before it; and a
      reported word's matcher completed there. */
  lemma {:induction false} ScanSound(ws: seq<string>, s: string, pos: nat)
    requires DistinctEndings(ws)
    requires pos <= |s| && NoDigit(s[..pos])
    requires forall v :: 0 <= v < 9 ==> Run(ws[v], s, pos) < |ws[v]|
    ensures Scan(ws, s, pos).None? ==> NoDigit(s)
    ensures Scan(ws, s, pos).Some? ==>
              var h := Scan(ws, s, pos).value;
              pos <= h.pos < |s| && NoDigit(s[..h.pos]) && HitAt(ws, s, h.pos) == Some(h.value)
    decreases |s| - pos
  {
    if pos == |s| {
      assert s[..pos] == s;
    } else if !IsDigit(s[pos]) {
      var c := CompletedWord(ws, s, pos, 0);
      if c.Some? {
        CompletedIsHit(ws, s, pos, c.value);
      } else {
        ScanSkips(ws, s, pos);
        ScanSound(ws, s, pos + 1);
      }
    }
  }

  /** A character that is no digit and completes no word is passed over
      with every matcher still short of its word. */
  lemma {:induction false} ScanSkips(ws: seq<string>, s: string, pos: nat)
    requires WordList(ws) && pos < |s| && NoDigit(s[..pos]) && !IsDigit(s[pos])
    requires CompletedWord(ws, s, pos, 0).None?
    ensures Scan(ws, s, pos) == Scan(ws, s, pos + 1)
    ensures NoDigit(s[..pos + 1])
    ensures forall v :: 0 <= v < 9 ==> Run(ws[v], s, pos + 1) < |ws[v]|
  {
    assert s[..pos + 1] == s[..pos] + [s[pos]];
  }

  function FirstHitFrom(ws: seq<string>, s: string, pos: nat): (r: Option<Hit>)
    requires WordList(ws) && pos <= |s|
    ensures r.Some? ==> pos <= r.value.pos < |s| && HitAt(ws, s, r.value.pos) == Some(r.value.value)
    ensures r.Some? ==> forall q :: pos <= q < r.value.pos ==> HitAt(ws, s, q).None?
    ensures r.None? ==> forall q :: pos <= q < |s| ==> HitAt(ws, s, q).None?
    decreases |s| - pos
  {
    if pos == |s| then None
    else match HitAt(ws, s, pos)
      case Some(v) => Some(Hit(pos, v))
      case None => FirstHitFrom(ws, s, pos + 1)
  }

  /** The intended scan: the first position where an ASCII digit or a whole
      spelled word ends. */
  function FirstHit(ws: seq<string>, s: string): (r: Option<Hit>)
    requires WordList(ws)
    ensures r.Some? ==> r.value.pos < |s| && HitAt(ws, s, r.value.pos) == Some(r.value.value)
    ensures r.Some? ==> forall q :: 0 <= q < r.value.pos ==> HitAt(ws, s, q).None?
    ensures r.None? ==> forall q :: 0 <= q < |s| ==> HitAt(ws, s, q).None?
  {
    FirstHitFrom(ws, s, 0)
  }

  /** The scanner as written never reports a digit beyond the first one;
      when it reports one at the first position, it is the intended one. */
  lemma {:induction false} ScanNotBeyondFirst(ws: seq<string>, s: string)
    requires DistinctEndings(ws)
    ensures Scan(ws, s, 0).Some? ==> FirstHit(ws, s).Some? && FirstHit(ws, s).value.pos <= Scan(ws, s, 0).value.pos
    ensures Scan(ws, s, 0).Some? && FirstHit(ws, s).value.pos == Scan(ws, s, 0).value.pos ==>
              FirstHit(ws, s) == Scan(ws, s, 0)
  {
    var sc := Scan(ws, s, 0);
    if sc.Some? {
      assert s[..0] == [];
      ScanSound(ws, s, 0);
      var h := sc.value;
      assert HitAt(ws, s, h.pos).Some?;
      var f := FirstHit(ws, s);
      assert f.Some?;
      assert f.value.pos <= h.pos;
    }
  }

  /** In "ninine" the first digit, spelled or not, is the "nine" that ends
      at the last character. */
  lemma {:induction false} ForwardFirstHit()
    ensures FirstHit(Words(), "ninine") == Some(Hit(5, 9))
  {
    var ws, s := Words(), "ninine";
    WordsEndDistinctly();
    assert EndsAt(s, 6, ws[8]);
    EndingIsHit(ws, s, 5, 9);
    forall q | 0 <= q < 5 ensures HitAt(ws, s, q).None? {
      ForwardNoEarlyEnding(q);
    }
  }

  /** Where no digit and no word ends, nothing is found. */
  lemma {:induction false} NoEndingNoHit(ws: seq<string>, s: string, pos: nat)
    requires WordList(ws) && pos < |s| && !IsDigit(s[pos])
    requires forall v :: 0 <= v < 9 ==> !EndsAt(s, pos + 1, ws[v])
    ensures HitAt(ws, s, pos).None?
  {
  }

  /** No spelled digit ends within the first five characters of "ninine". */
  lemma {:induction false} ForwardNoEarlyEnding(q: nat)
    requires q < 5
    ensures HitAt(Words(), "ninine", q).None?
  {
    var ws, s := Words(), "ninine";
    assert WordList(ws) && !IsDigit(s[q]);
    forall v | 0 <= v < 9 ensures !EndsAt(s, q + 1, ws[v]) {
      var w := ws[v];
      if |w| <= q + 1 {
        assert s[q] == w[|w| - 1] ==> s[q - 1] != w[|w| - 2];
      }
    }
    NoEndingNoHit(ws, s, q);
  }

  /** The matcher of "nine" fed "ninine" goes 1, 2, 3, then back to 0. */
  lemma {:induction false} ForwardNineMatcher()
    ensures Run(Words()[8], "ninine", 6) == 0
  {
    var nine, s := Words()[8], "ninine";
    assert Run(nine, s, 1) == 1;
    assert Run(nine, s, 2) == 2;
    assert Run(nine, s, 3) == 3;
    assert Run(nine, s, 4) == 0;
    assert Run(nine, s, 5) == 1;
  }

  /** The matcher as written misses a word that starts inside a failed
      partial match: "ninine" ends with "nine", but after "nin" the 'i'
      resets the matcher of "nine" to 0, so the forward scan finds nothing. */
  lemma {:induction false} ForwardScanMissesOverlap()
    ensures Scan(Words(), "ninine", 0) == None
    ensures FirstHit(Words(), "ninine") == Some(Hit(5, 9))
  {
    var ws, s := Words(), "ninine";
    SpelledDigitsEndDistinctly();
    ForwardFirstHit();
    ForwardNineMatcher();
    ScanNotBeyondFirst(ws, s);
    assert s[..0] == [];
    ScanSound(ws, s, 0);
  }

  /** In "eeerht" ("threee" read backwards) the first reversed word is the
      "eerht" that ends at the last character. */
  lemma {:induction false} BackwardFirstHit()
    ensures FirstHit(BackWords(), "eeerht") == Some(Hit(5, 3))
  {
    var ws, s := BackWords(), "eeerht";
    BackWordsEndDistinctly();
    assert EndsAt(s, 6, ws[2]);
    EndingIsHit(ws, s, 5, 3);
    forall q | 0 <= q < 5 ensures HitAt(ws, s, q).None? {
      BackwardNoEarlyEnding(q);
    }
  }

  /** No reversed spelled digit ends within the first five characters of
      "eeerht". */
  lemma {:induction false} BackwardNoEarlyEnding(q: nat)
    requires q < 5
    ensures HitAt(BackWords(), "eeerht", q).None?
  {
    var ws, s := BackWords(), "eeerht";
    assert WordList(ws) && !IsDigit(s[q]);
    forall v | 0 <= v < 9 ensures !EndsAt(s, q + 1, ws[v]) {
      var w := ws[v];
      if |w| <= q + 1 {
        assert s[q] == w[|w| - 1] ==> s[q - 1] != w[|w| - 2] || s[q - 2] != w[|w| - 3];
      }
    }
    NoEndingNoHit(ws, s, q);
  }

  /** The matcher of "eerht" fed "eeerht" goes 1, 2, then back to 1 and 0. */
  lemma {:induction false} BackwardThreeMatcher()
    ensures Run(BackWords()[2], "eeerht", 6) == 0
  {
    var three, s := BackWords()[2], "eeerht";
    assert Run(three, s, 1) == 1;
    assert Run(three, s, 2) == 2;
    assert Run(three, s, 3) == 1;
    assert Run(three, s, 4) == 0;
    assert Run(three, s, 5) == 0;
  }

  lemma {:induction false} ThreeeReversed()
    ensures Reversed("threee") == "eeerht"
  {
    var r := Reversed("threee");
    assert |r| == 6;
    assert r[0] == 'e' && r[1] == 'e' && r[2] == 'e' && r[3] == 'r' && r[4] == 'h' && r[5] == 't';
  }

  /** The backward scan has the same fault: "threee" read backwards is
      "eeerht", and the matcher of "eerht" is reset after "ee" + 'e'. */
  lemma {:induction false} BackwardScanMissesOverlap()
    ensures Reversed("threee") == "eeerht"
    ensures Scan(BackWords(), "eeerht", 0) == None
    ensures FirstHit(BackWords(), "eeerht") == Some(Hit(5, 3))
  {
    var ws, s := BackWords(), "eeerht";
    ThreeeReversed();
    SpelledDigitsEndDistinctly();
    BackwardFirstHit();
    BackwardThreeMatcher();
    ScanNotBeyondFirst(ws, s);
    assert s[..0] == [];
    ScanSound(ws, s, 0);
  }

  /** Part two's value of a line as intended: ten times the first digit,
      ASCII or spelled, plus the last one, each 0 when missing as in the
      source. What "first" and "last" mean is stated by FirstHit's own
      contract (the earliest position where a digit or a whole word ends);
      the second ensures only ties the value to it. */
  function CorrectedSpelledValue(line: string): (r: nat)
    ensures r <= 99
    ensures FirstHit(Words(), line).Some? && FirstHit(BackWords(), Reversed(line)).Some? ==>
              r == 10 * FirstHit(Words(), line).value.value
                   + FirstHit(BackWords(), Reversed(line)).value.value
  {
    10 * ValueOf(FirstHit(Words(), line)) + ValueOf(FirstHit(BackWords(), Reversed(line)))
  }

  /** Part two: the sum of the corrected values of all lines. */
  function Part2(document: seq<string>): (r: nat)
    ensures r <= 99 * |document|
  {
    if document == [] then 0
    else Part2(document[..|document| - 1]) + CorrectedSpelledValue(document[|document| - 1])
  }
}
