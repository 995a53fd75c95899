/** Day 4, "Scratchcards": each card scores by how many of its winning
    numbers appear among the numbers you have; in part two a card with k
    matches wins one more copy of each of the next k cards, once per copy
    of itself that you hold. */
module Day04 {
  import opened Common

  datatype Scratchcard = Scratchcard(winningNumbers: seq<nat>, numbersYouHave: seq<nat>)

  /** How many winning numbers (counted with repetition) are among the
      numbers you have. */
  function Matches(card: Scratchcard): (k: nat)
    ensures k <= |card.winningNumbers|
  {
    CountIn(card.winningNumbers, card.numbersYouHave)
  }

  function CountIn(xs: seq<nat>, ys: seq<nat>): (k: nat)
    ensures k <= |xs|
  {
    if xs == [] then 0 else (if xs[0] in ys then 1 else 0) + CountIn(xs[1..], ys)
  }

  /** No match at all exactly when no winning number is among yours. */
  lemma {:induction false} NoMatches(xs: seq<nat>, ys: seq<nat>)
    ensures CountIn(xs, ys) == 0 <==> forall i :: 0 <= i < |xs| ==> xs[i] !in ys
  {
    if xs != [] {
      NoMatches(xs[1..], ys);
      assert forall i :: 1 <= i < |xs| ==> xs[i] == xs[1..][i - 1];
    }
  }

  function Pow2(e: nat): (r: nat)
    ensures r >= 1
  {
    if e == 0 then 1 else 2 * Pow2(e - 1)
  }

  /** A card's points: 2^(k-1) for k > 0 matches, and nothing otherwise. */
  function Score(k: nat): nat
  {
    if k > 0 then Pow2(k - 1) else 0
  }

  /** The first match is worth one point and each further match doubles
      the points. */
  lemma {:induction false} ScoreDoubles(k: nat)
    ensures Score(0) == 0 && Score(1) == 1
    ensures k >= 1 ==> Score(k + 1) == 2 * Score(k)
  {
  }

  /** Part one: the total points of all cards. */
  function Part1(cards: seq<Scratchcard>): (r: nat)
    ensures (forall i :: 0 <= i < |cards| ==> Matches(cards[i]) == 0) ==> r == 0
  {
    if cards == [] then 0 else Score(Matches(cards[0])) + Part1(cards[1..])
  }

  // ---------------------------------------------------------------------
  // Part two

  /** The source indexes `copies_count[card + k - 1]` for the last card won,
      so no card may win copies beyond the end of the table. */
  predicate WinsInTable(cards: seq<Scratchcard>)
  {
    forall i :: 0 <= i < |cards| ==> i + Matches(cards[i]) < |cards|
  }

  /** Whether card i (0-based) wins copies of card j. */
  predicate Wins(cards: seq<Scratchcard>, i: nat, j: nat)
    requires i < |cards|
  {
    i < j <= i + Matches(cards[i])
  }

  /** The copies of card j won by the cards before |counts|, holding counts[i]
      copies of card i. */
  function Incoming(cards: seq<Scratchcard>, counts: seq<nat>, j: nat): nat
    requires |counts| <= |cards|
  {
    if counts == [] then 0
    else
      var i := |counts| - 1;
      Incoming(cards, counts[..i], j) + (if Wins(cards, i, j) then counts[i] else 0)
  }

  /** The number of copies of each of the first n cards once everything is
      won: one original plus the copies won from earlier cards. */
  function FinalCounts(cards: seq<Scratchcard>, n: nat): (counts: seq<nat>)
    requires n <= |cards|
    ensures |counts| == n
  {
    if n == 0 then []
    else
      var earlier := FinalCounts(cards, n - 1);
      earlier + [1 + Incoming(cards, earlier, n - 1)]
  }

  lemma {:induction false} FinalCountsPrefix(cards: seq<Scratchcard>, n: nat, m: nat)
    requires m <= n <= |cards|
    ensures FinalCounts(cards, n)[..m] == FinalCounts(cards, m)
    decreases n
  {
    if m < n {
      FinalCountsPrefix(cards, n - 1, m);
      assert FinalCounts(cards, n)[..n - 1] == FinalCounts(cards, n - 1);
    } else {
      assert FinalCounts(cards, n)[..n] == FinalCounts(cards, n);
    }
  }

  /** Card i's own count is one plus what the cards before it win of it;
      in particular the first card is never won and keeps one copy. */
  lemma {:induction false} FinalCountsAreWon(cards: seq<Scratchcard>, i: nat)
    requires i < |cards|
    ensures FinalCounts(cards, |cards|)[i] == 1 + Incoming(cards, FinalCounts(cards, i), i)
    ensures FinalCounts(cards, |cards|)[0] == 1
  {
    FinalCountsPrefix(cards, |cards|, i + 1);
    FinalCountsPrefix(cards, |cards|, 1);
    assert FinalCounts(cards, |cards|)[..i + 1][i] == FinalCounts(cards, |cards|)[i];
    assert FinalCounts(cards, |cards|)[..1][0] == FinalCounts(cards, |cards|)[0];
  }

  /** `win_cards` for the card at 0-based index n: adds its copies to each
      of the next Matches cards and changes no other entry. */
  method WinCards(cards: seq<Scratchcard>, copies: array<nat>, n: nat)
    requires n < |cards| == copies.Length && n + Matches(cards[n]) < |cards|
    modifies copies
    ensures forall j :: 0 <= j < copies.Length ==>
              copies[j] == old(copies[j]) + (if Wins(cards, n, j) then old(copies[n]) else 0)
  {
    var k := Matches(cards[n]);
    var next := n + 1;
    while next <= n + k
      invariant n + 1 <= next <= n + k + 1
      invariant copies[n] == old(copies[n])
      invariant forall j :: 0 <= j < copies.Length ==>
                  copies[j] == old(copies[j]) + (if n < j < next then old(copies[n]) else 0)
    {
      copies[next] := copies[next] + copies[n];
      next := next + 1;
    }
  }

  /** The table after the first t cards have been processed, as part two's
      loop keeps it: done cards hold their final counts, and the others one
      original plus what the done cards have won of them. */
  ghost predicate TableAfter(cards: seq<Scratchcard>, copies: seq<nat>, t: nat)
    requires t <= |cards| == |copies|
  {
    copies[..t] == FinalCounts(cards, t)
    && forall j :: t <= j < |cards| ==> copies[j] == 1 + Incoming(cards, FinalCounts(cards, t), j)
  }

  lemma {:induction false} ProcessOne(cards: seq<Scratchcard>, before: seq<nat>, after: seq<nat>, t: nat)
    requires t < |cards| == |before| == |after| && TableAfter(cards, before, t)
    requires forall j :: 0 <= j < |after| ==>
               after[j] == before[j] + (if Wins(cards, t, j) then before[t] else 0)
    ensures TableAfter(cards, after, t + 1)
  {
    var done := FinalCounts(cards, t);
    var done' := FinalCounts(cards, t + 1);
    assert done' == done + [before[t]];
    assert done'[..t] == done;
    assert after[..t + 1] == done' by {
      assert forall j :: 0 <= j < t ==> after[j] == before[j];
      assert after[t] == before[t];
      assert before[..t] == done;
    }
  }

  /** The sum of a table of copies. */
  method SumCopies(copies: array<nat>) returns (total: nat)
    ensures total == Sum(copies[..])
  {
    total := 0;
    var i := copies.Length;
    while i > 0
      invariant 0 <= i <= copies.Length
      invariant total == Sum(copies[i..])
    {
      i := i - 1;
      assert copies[i..] == [copies[i]] + copies[i + 1..];
      total := total + copies[i];
    }
    assert copies[0..] == copies[..];
  }

  /** Part two: the total number of cards held at the end, every card
      starting with one copy and winning copies of the next ones in order. */
  method Part2(cards: seq<Scratchcard>) returns (total: nat)
    requires WinsInTable(cards)
    ensures total == Sum(FinalCounts(cards, |cards|))
  {
    var copies := new nat[|cards|](_ => 1);
    var t := 0;
    while t < copies.Length
      invariant 0 <= t <= copies.Length == |cards|
      invariant TableAfter(cards, copies[..], t)
    {
      ghost var before := copies[..];
      WinCards(cards, copies, t);
      ProcessOne(cards, before, copies[..], t);
      t := t + 1;
    }
    assert copies[..] == copies[..t];
    total := SumCopies(copies);
  }

  /** Every card ends with at least its original copy. */
  lemma {:induction false} FinalCountsPositive(cards: seq<Scratchcard>, n: nat)
    requires n <= |cards|
    ensures forall j :: 0 <= j < n ==> FinalCounts(cards, n)[j] >= 1
  {
    if n > 0 {
      FinalCountsPositive(cards, n - 1);
    }
  }

  /** So part two counts at least one card per card. */
  lemma {:induction false} SumAtLeastLength(s: seq<nat>)
    requires forall j :: 0 <= j < |s| ==> s[j] >= 1
    ensures Sum(s) >= |s|
  {
    if s != [] {
      SumAtLeastLength(s[1..]);
    }
  }

  /** The match counts of the six cards of the worked example. */
  predicate ExampleMatches(cards: seq<Scratchcard>)
  {
    |cards| == 6
    && Matches(cards[0]) == 4 && Matches(cards[1]) == 2 && Matches(cards[2]) == 2
    && Matches(cards[3]) == 1 && Matches(cards[4]) == 0 && Matches(cards[5]) == 0
  }

  /** The worked example scores 13 points. */
  lemma {:induction false} ExamplePart1(cards: seq<Scratchcard>)
    requires ExampleMatches(cards)
    ensures Part1(cards) == 13
  {
    assert Score(4) == 8 && Score(2) == 2 && Score(1) == 1;
    var r1 := cards[1..];
    var r2 := r1[1..];
    var r3 := r2[1..];
    assert Part1(r3) == 1 by {
      assert r3[1..][1..][1..] == [];
    }
    assert Part1(r1) == 5;
  }

  /** The worked example ends with 1, 2, 4, 8, 14 and 1 copies, 30 cards in
      all. */
  lemma {:induction false} ExamplePart2(cards: seq<Scratchcard>)
    requires ExampleMatches(cards)
    ensures WinsInTable(cards) && FinalCounts(cards, 6) == [1, 2, 4, 8, 14, 1]
    ensures Sum(FinalCounts(cards, 6)) == 30
  {
    var c := [1, 2, 4, 8, 14];
    ExampleLaterCounts(cards);
    assert c[..5] == c && c[..4][..3] == c[..3] && c[..3][..2] == c[..2] && c[..2][..1] == c[..1];
    assert c[..5][..4] == c[..4] && c[..1][..0] == [];
    assert Incoming(cards, c[..1], 5) == 0 && Incoming(cards, c[..2], 5) == 0;
    assert Incoming(cards, c[..3], 5) == 0 && Incoming(cards, c[..4], 5) == 0;
    assert Incoming(cards, c, 5) == 0;
    assert FinalCounts(cards, 6) == c + [1] == [1, 2, 4, 8, 14, 1];
    assert WinsInTable(cards);
    assert Sum([1, 2, 4, 8, 14, 1]) == 30;
  }

  /** The first three cards of the worked example end with 1, 2 and 4
      copies. */
  lemma {:induction false} ExampleEarlyCounts(cards: seq<Scratchcard>)
    requires ExampleMatches(cards)
    ensures FinalCounts(cards, 3) == [1, 2, 4]
  {
    var c := [1, 2, 4];
    assert c[..1][..0] == [] && c[..2][..1] == c[..1] && c[..3] == c && c[..3][..2] == c[..2];
    assert FinalCounts(cards, 1) == c[..1];
    assert Incoming(cards, c[..1], 1) == 1;
    assert FinalCounts(cards, 2) == c[..2];
    assert Incoming(cards, c[..1], 2) == 1 && Incoming(cards, c[..2], 2) == 3;
  }

  /** The fourth and fifth cards then end with 8 and 14 copies. */
  lemma {:induction false} ExampleLaterCounts(cards: seq<Scratchcard>)
    requires ExampleMatches(cards)
    ensures FinalCounts(cards, 5) == [1, 2, 4, 8, 14]
  {
    var c := [1, 2, 4, 8, 14];
    ExampleEarlyCounts(cards);
    assert c[..3] == [1, 2, 4] && c[..5] == c;
    assert c[..3][..2] == c[..2] && c[..2][..1] == c[..1] && c[..1][..0] == [];
    assert c[..4][..3] == c[..3] && c[..5][..4] == c[..4];
    assert Incoming(cards, c[..1], 3) == 1 && Incoming(cards, c[..2], 3) == 3;
    assert Incoming(cards, c[..3], 3) == 7;
    assert FinalCounts(cards, 4) == c[..4];
    assert Incoming(cards, c[..1], 4) == 1 && Incoming(cards, c[..2], 4) == 1;
    assert Incoming(cards, c[..3], 4) == 5 && Incoming(cards, c[..4], 4) == 13;
  }
}
