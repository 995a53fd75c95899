/** Day 7, "Camel Cards": hands of five cards are ranked by type, then card
    by card, and each hand wins its bid times its rank. In part two every
    Jack becomes a Joker, the weakest card, which joins whichever card is
    most frequent. */
module Day07 {
  import opened Common

  datatype Card = Ace | King | Queen | Jack | Ten | Nine | Eight | Seven | Six | Five | Four | Three | Two | Joker

  /** A card's position in the declaration, Ace first and Joker last. */
  function Index(c: Card): nat
  {
    match c
    case Ace => 0 case King => 1 case Queen => 2 case Jack => 3 case Ten => 4
    case Nine => 5 case Eight => 6 case Seven => 7 case Six => 8 case Five => 9
    case Four => 10 case Three => 11 case Two => 12 case Joker => 13
  }

  /** `Card::cmp`: the reverse of the declaration order. */
  function CompareCards(a: Card, b: Card): Ordering
  {
    Cmp(Index(b), Index(a))
  }

  /** The Ace beats every other card and the Joker loses to every other
      card; two cards compare equal only when they are the same card. */
  lemma {:induction false} CardOrderEnds(c: Card)
    ensures c != Ace ==> CompareCards(Ace, c) == Greater
    ensures c != Joker ==> CompareCards(Joker, c) == Less
    ensures CompareCards(c, c) == Equal
  {
  }

  lemma {:induction false} CardsEqual(a: Card, b: Card)
    ensures CompareCards(a, b) == Equal <==> a == b
  {
  }

  type Hand = h: seq<Card> | |h| == 5 witness [Two, Two, Two, Two, Two]

  type HandType = (nat, nat)

  /** How many times card c occurs. */
  function Count(s: seq<Card>, c: Card): nat
  {
    if s == [] then 0 else (if s[0] == c then 1 else 0) + Count(s[1..], c)
  }

  /** The card at position i of the declaration. */
  function CardAt(i: nat): (c: Card)
    requires i < 14
    ensures Index(c) == i
  {
    if i == 0 then Ace else if i == 1 then King else if i == 2 then Queen
    else if i == 3 then Jack else if i == 4 then Ten else if i == 5 then Nine
    else if i == 6 then Eight else if i == 7 then Seven else if i == 8 then Six
    else if i == 9 then Five else if i == 10 then Four else if i == 11 then Three
    else if i == 12 then Two else Joker
  }

  lemma {:induction false} CardAtIndex(c: Card)
    ensures CardAt(Index(c)) == c
  {
  }

  /** The Joker comes last: the cards before it are the thirteen others. */
  const JokerIndex: nat := 13

  lemma {:induction false} BeforeJoker(c: Card)
    ensures Index(c) < JokerIndex <==> c != Joker
  {
  }

  /** The largest count among the first n cards of the declaration. */
  function MaxCount(s: seq<Card>, n: nat): nat
    requires n <= 14
  {
    if n == 0 then 0 else Max(MaxCount(s, n - 1), Count(s, CardAt(n - 1)))
  }

  /** The largest count among the first n cards other than m. */
  function MaxCountExcept(s: seq<Card>, n: nat, m: Card): nat
    requires n <= 14
  {
    if n == 0 then 0
    else if CardAt(n - 1) == m then MaxCountExcept(s, n - 1, m)
    else Max(MaxCountExcept(s, n - 1, m), Count(s, CardAt(n - 1)))
  }

  lemma {:induction false} MaxCountIsMax(s: seq<Card>, n: nat)
    requires n <= 14
    ensures forall c :: Index(c) < n ==> Count(s, c) <= MaxCount(s, n)
    ensures MaxCount(s, n) == 0 || exists c :: Index(c) < n && Count(s, c) == MaxCount(s, n)
  {
    if n > 0 {
      MaxCountIsMax(s, n - 1);
      forall c | Index(c) < n ensures Count(s, c) <= MaxCount(s, n) {
        CardAtIndex(c);
      }
      if MaxCount(s, n) == Count(s, CardAt(n - 1)) {
        assert Index(CardAt(n - 1)) < n;
      }
    }
  }

  lemma {:induction false} MaxCountExceptIsMax(s: seq<Card>, n: nat, m: Card)
    requires n <= 14
    ensures forall c :: Index(c) < n && c != m ==> Count(s, c) <= MaxCountExcept(s, n, m)
    ensures MaxCountExcept(s, n, m) == 0
            || exists c :: Index(c) < n && c != m && Count(s, c) == MaxCountExcept(s, n, m)
  {
    if n > 0 {
      MaxCountExceptIsMax(s, n - 1, m);
      forall c | Index(c) < n && c != m ensures Count(s, c) <= MaxCountExcept(s, n, m) {
        CardAtIndex(c);
      }
      if CardAt(n - 1) != m && MaxCountExcept(s, n, m) == Count(s, CardAt(n - 1)) {
        assert Index(CardAt(n - 1)) < n;
      }
    }
  }

  /** The first card, from index i on and before the Joker, whose count is
      k. */
  function FirstWithCount(s: seq<Card>, i: nat, k: nat): Card
    requires i <= JokerIndex
    decreases JokerIndex - i
  {
    if i == JokerIndex then Joker
    else if Count(s, CardAt(i)) == k then CardAt(i)
    else FirstWithCount(s, i + 1, k)
  }

  lemma {:induction false} FirstWithCountFound(s: seq<Card>, i: nat, k: nat)
    requires i <= JokerIndex
    requires exists c :: i <= Index(c) < JokerIndex && Count(s, c) == k
    ensures Index(FirstWithCount(s, i, k)) < JokerIndex && Count(s, FirstWithCount(s, i, k)) == k
    decreases JokerIndex - i
  {
    var c :| i <= Index(c) < JokerIndex && Count(s, c) == k;
    if Count(s, CardAt(i)) != k {
      CardAtIndex(c);
      assert Index(c) != i;
      FirstWithCountFound(s, i + 1, k);
    }
  }

  /** The most frequent non-Joker card (the Joker when there is none). */
  function MostFrequent(h: Hand): Card
  {
    var largest := MaxCount(h, JokerIndex);
    if largest == 0 then Joker else FirstWithCount(h, 0, largest)
  }

  /** `hand_type`: the largest count of a non-Joker card plus the Jokers,
      and the largest count among the other non-Joker cards. */
  function TypeOf(h: Hand): HandType
  {
    (MaxCount(h, JokerIndex) + Count(h, Joker), MaxCountExcept(h, JokerIndex, MostFrequent(h)))
  }

  /** Which of several equally frequent cards counts as the most frequent
      does not change the second count. */
  lemma {:induction false} SecondCountIndependent(h: Hand, m1: Card, m2: Card)
    requires Index(m1) < JokerIndex && Index(m2) < JokerIndex
    requires Count(h, m1) == MaxCount(h, JokerIndex) == Count(h, m2)
    ensures MaxCountExcept(h, JokerIndex, m1) == MaxCountExcept(h, JokerIndex, m2)
  {
    if m1 != m2 {
      MaxCountIsMax(h, JokerIndex);
      MaxCountExceptIsMax(h, JokerIndex, m1);
      MaxCountExceptIsMax(h, JokerIndex, m2);
    }
  }

  lemma {:induction false} CountsOfThree(s: seq<Card>, a: Card, b: Card, c: Card)
    requires a != b && b != c && a != c
    ensures Count(s, a) + Count(s, b) + Count(s, c) <= |s|
  {
    if s != [] {
      CountsOfThree(s[1..], a, b, c);
    }
  }

  lemma {:induction false} CountsOfTwo(s: seq<Card>, a: Card, b: Card)
    requires a != b
    ensures Count(s, a) + Count(s, b) <= |s|
  {
    if s != [] {
      CountsOfTwo(s[1..], a, b);
    }
  }

  /** The two components of a type add up to at most five. */
  lemma {:induction false} TypeBounds(h: Hand)
    ensures TypeOf(h).0 + TypeOf(h).1 <= 5
  {
    var m := MostFrequent(h);
    var second := MaxCountExcept(h, JokerIndex, m);
    MaxCountExceptIsMax(h, JokerIndex, m);
    if MaxCount(h, JokerIndex) == 0 {
      NoSecondWithoutFirst(h);
      CountsOfTwo(h, Joker, Ace);
    } else if second == 0 {
      MostFrequentCount(h);
      CountsOfTwo(h, m, Joker);
    } else {
      MostFrequentCount(h);
      var c :| Index(c) < JokerIndex && c != m && Count(h, c) == second;
      CountsOfThree(h, m, c, Joker);
    }
  }

  lemma {:induction false} NoSecondWithoutFirst(h: Hand)
    requires MaxCount(h, JokerIndex) == 0
    ensures MaxCountExcept(h, JokerIndex, MostFrequent(h)) == 0
  {
    var m := MostFrequent(h);
    MaxCountExceptIsMax(h, JokerIndex, m);
    MaxCountIsMax(h, JokerIndex);
  }

  lemma {:induction false} MostFrequentCount(h: Hand)
    requires MaxCount(h, JokerIndex) > 0
    ensures Index(MostFrequent(h)) < JokerIndex && Count(h, MostFrequent(h)) == MaxCount(h, JokerIndex)
  {
    MaxCountIsMax(h, JokerIndex);
    FirstWithCountFound(h, 0, MaxCount(h, JokerIndex));
  }

  /** Five Jokers make the type (5, 0). */
  lemma {:induction false} FiveJokers(h: Hand)
    requires forall k :: 0 <= k < 5 ==> h[k] == Joker
    ensures TypeOf(h) == (5, 0)
  {
    JokersOnly(h, JokerIndex);
    JokersOnlyExcept(h, JokerIndex, Joker);
    AllOneCard(h, Joker);
  }

  lemma {:induction false} AllOneCard(s: seq<Card>, c: Card)
    requires forall k :: 0 <= k < |s| ==> s[k] == c
    ensures Count(s, c) == |s|
  {
    if s != [] {
      AllOneCard(s[1..], c);
    }
  }

  lemma {:induction false} JokersOnly(h: seq<Card>, n: nat)
    requires forall k :: 0 <= k < |h| ==> h[k] == Joker
    requires n <= JokerIndex
    ensures MaxCount(h, n) == 0
  {
    if n > 0 {
      NotPresent(h, CardAt(n - 1));
      JokersOnly(h, n - 1);
    }
  }

  lemma {:induction false} JokersOnlyExcept(h: seq<Card>, n: nat, m: Card)
    requires forall k :: 0 <= k < |h| ==> h[k] == Joker
    requires n <= JokerIndex
    ensures MaxCountExcept(h, n, m) == 0
  {
    if n > 0 {
      NotPresent(h, CardAt(n - 1));
      JokersOnlyExcept(h, n - 1, m);
    }
  }

  lemma {:induction false} NotPresent(s: seq<Card>, c: Card)
    requires forall k :: 0 <= k < |s| ==> s[k] != c
    ensures Count(s, c) == 0
  {
    if s != [] {
      NotPresent(s[1..], c);
    }
  }

  lemma {:induction false} CountAppend(s: seq<Card>, x: Card)
    ensures forall c :: Count(s + [x], c) == Count(s, c) + (if x == c then 1 else 0)
  {
    if s != [] {
      CountAppend(s[1..], x);
      assert (s + [x])[1..] == s[1..] + [x];
    }
  }

  /** The counting loop of `hand_type`: the map holds the count of every
      card present in the hand. */
  method CountCards(h: Hand) returns (cardCounts: map<Card, nat>)
    ensures forall c :: c in cardCounts <==> Count(h, c) > 0
    ensures forall c :: c in cardCounts ==> cardCounts[c] == Count(h, c)
  {
    cardCounts := map[];
    var i := 0;
    while i < 5
      invariant 0 <= i <= 5
      invariant forall c :: c in cardCounts <==> Count(h[..i], c) > 0
      invariant forall c :: c in cardCounts ==> cardCounts[c] == Count(h[..i], c)
    {
      CountAppend(h[..i], h[i]);
      assert h[..i + 1] == h[..i] + [h[i]];
      var card := h[i];
      cardCounts := cardCounts[card := (if card in cardCounts then cardCounts[card] else 0) + 1];
      i := i + 1;
    }
    assert h[..5] == h;
  }

  /** `max_by` over the count map, skipping the excluded cards: the card
      with the largest count, or the default when no card is left. Of
      several cards with that count it keeps the last one visited, and the
      map is visited in an order the model leaves open. */
  method MaxByCount(cardCounts: map<Card, nat>, excluded: set<Card>, default: Card)
    returns (most: Card, largest: nat)
    ensures forall c :: c in cardCounts && c !in excluded ==> cardCounts[c] <= largest
    ensures (most == default && largest == 0)
            || (most in cardCounts && most !in excluded && cardCounts[most] == largest)
  {
    most, largest := default, 0;
    var unvisited := cardCounts.Keys;
    while unvisited != {}
      invariant unvisited <= cardCounts.Keys
      invariant forall c :: c in cardCounts && c !in unvisited && c !in excluded ==> cardCounts[c] <= largest
      invariant (most == default && largest == 0)
                || (most in cardCounts && most !in excluded && cardCounts[most] == largest)
      decreases |unvisited|
    {
      var card :| card in unvisited;
      if card !in excluded && cardCounts[card] >= largest {
        most, largest := card, cardCounts[card];
      }
      unvisited := unvisited - {card};
    }
  }

  /** `hand_type` as the source computes it. */
  method HandTypeOf(h: Hand) returns (t: HandType)
    ensures t == TypeOf(h)
  {
    var cardCounts := CountCards(h);
    var jokerCount := if Joker in cardCounts then cardCounts[Joker] else 0;
    var mostFrequent, largest := MaxByCount(cardCounts, {Joker}, Joker);
    var runnerUp, second := MaxByCount(cardCounts, {Joker, mostFrequent}, Joker);
    assert second == 0 || (runnerUp in cardCounts && runnerUp !in {Joker, mostFrequent} && cardCounts[runnerUp] == second);
    assert jokerCount == Count(h, Joker);
    TypeFromCounts(h, cardCounts, mostFrequent, largest, second);
    TypeOfParts(h);
    t := (largest + jokerCount, second);
  }

  /** The maxima found over the count map are those of the type. */
  lemma {:induction false} TypeFromCounts(h: Hand, cardCounts: map<Card, nat>, mostFrequent: Card, largest: nat, second: nat)
    requires forall c :: c in cardCounts <==> Count(h, c) > 0
    requires forall c :: c in cardCounts ==> cardCounts[c] == Count(h, c)
    requires forall c :: c in cardCounts && c !in {Joker} ==> cardCounts[c] <= largest
    requires (mostFrequent == Joker && largest == 0)
             || (mostFrequent in cardCounts && mostFrequent !in {Joker} && cardCounts[mostFrequent] == largest)
    requires forall c :: c in cardCounts && c !in {Joker, mostFrequent} ==> cardCounts[c] <= second
    requires second == 0 || exists c :: c in cardCounts && c !in {Joker, mostFrequent} && cardCounts[c] == second
    ensures largest == MaxCount(h, JokerIndex)
    ensures second == MaxCountExcept(h, JokerIndex, MostFrequent(h))
  {
    forall c | c != Joker ensures Count(h, c) <= largest {
      if c in cardCounts {
        assert c !in {Joker};
      }
    }
    forall c | c != Joker && c != mostFrequent ensures Count(h, c) <= second {
      if c in cardCounts {
        assert c !in {Joker, mostFrequent};
      }
    }
    var m2 := Joker;
    if second != 0 {
      var c :| c in cardCounts && c !in {Joker, mostFrequent} && cardCounts[c] == second;
      m2 := c;
    }
    if largest == 0 {
      NoNonJokers(h);
    } else {
      TypeIs(h, mostFrequent, largest, m2, second);
    }
  }

  /** A hand of Jokers only has type (Jokers, 0). */
  lemma {:induction false} NoNonJokers(h: Hand)
    requires forall c :: c != Joker ==> Count(h, c) == 0
    ensures MaxCount(h, JokerIndex) == 0 && MostFrequent(h) == Joker
    ensures MaxCountExcept(h, JokerIndex, Joker) == 0
  {
    MaxCountIsMax(h, JokerIndex);
    MaxCountExceptIsMax(h, JokerIndex, Joker);
  }

  /** The type of a hand from its most frequent non-Joker card m with a
      copies and a runner-up m2 with b copies. */
  lemma {:induction false} TypeIs(h: Hand, m: Card, a: nat, m2: Card, b: nat)
    requires m != Joker && Count(h, m) == a > 0
    requires forall c :: c != Joker ==> Count(h, c) <= a
    requires b == 0 || (m2 != Joker && m2 != m && Count(h, m2) == b)
    requires forall c :: c != Joker && c != m ==> Count(h, c) <= b
    ensures TypeOf(h) == (a + Count(h, Joker), b)
  {
    MostFrequentIs(h, m, a);
    SecondIs(h, m, m2, b);
    TypeOfParts(h);
  }

  lemma {:induction false} TypeOfParts(h: Hand)
    ensures TypeOf(h).0 == MaxCount(h, JokerIndex) + Count(h, Joker)
    ensures TypeOf(h).1 == MaxCountExcept(h, JokerIndex, MostFrequent(h))
  {
  }

  lemma {:induction false} MostFrequentIs(h: Hand, m: Card, a: nat)
    requires m != Joker && Count(h, m) == a > 0
    requires forall c :: c != Joker ==> Count(h, c) <= a
    ensures MaxCount(h, JokerIndex) == a
    ensures MaxCountExcept(h, JokerIndex, MostFrequent(h)) == MaxCountExcept(h, JokerIndex, m)
  {
    MaxCountIsMax(h, JokerIndex);
    assert Index(m) < JokerIndex;
    FirstWithCountFound(h, 0, a);
    SecondCountIndependent(h, MostFrequent(h), m);
  }

  lemma {:induction false} SecondIs(h: Hand, m: Card, m2: Card, b: nat)
    requires b == 0 || (m2 != Joker && m2 != m && Count(h, m2) == b)
    requires forall c :: c != Joker && c != m ==> Count(h, c) <= b
    ensures MaxCountExcept(h, JokerIndex, m) == b
  {
    MaxCountExceptIsMax(h, JokerIndex, m);
    if b != 0 {
      assert Index(m2) < JokerIndex;
    }
  }

  // ---------------------------------------------------------------------
  // Ranking hands

  /** Tuples of counts compare lexicographically. */
  function CompareTypes(a: HandType, b: HandType): Ordering
  {
    Cmp(a.0, b.0).Then(Cmp(a.1, b.1))
  }

  /** Card sequences of equal length compare card by card from the left. */
  function CompareCardSeqs(a: seq<Card>, b: seq<Card>): (r: Ordering)
    requires |a| == |b|
    ensures r == Equal <==> a == b
  {
    if a == [] then Equal
    else
      CardsEqual(a[0], b[0]);
      assert a == [a[0]] + a[1..] && b == [b[0]] + b[1..];
      CompareCards(a[0], b[0]).Then(CompareCardSeqs(a[1..], b[1..]))
  }

  /** `Hand::cmp`: by type first, then card by card. */
  function CompareHands(a: Hand, b: Hand): Ordering
  {
    CompareTypes(TypeOf(a), TypeOf(b)).Then(CompareCardSeqs(a, b))
  }

  /** Hands are ranked by type before their cards are looked at: a
      stronger type wins whatever the cards. */
  lemma {:induction false} TypeDecides(a: Hand, b: Hand)
    ensures TypeOf(a).0 > TypeOf(b).0 ==> CompareHands(a, b) == Greater
    ensures TypeOf(a).0 == TypeOf(b).0 && TypeOf(a).1 > TypeOf(b).1 ==> CompareHands(a, b) == Greater
    ensures TypeOf(a) == TypeOf(b) ==> CompareHands(a, b) == CompareCardSeqs(a, b)
  {
  }

  /** Of two hands of the same type whose first k cards agree, the one with
      the stronger (k+1)-th card wins. */
  lemma {:induction false} FirstDifferenceDecides(a: seq<Card>, b: seq<Card>, k: nat)
    requires |a| == |b| && k < |a| && a[..k] == b[..k]
    ensures CompareCardSeqs(a, b) == CompareCards(a[k], b[k]).Then(CompareCardSeqs(a[k + 1..], b[k + 1..]))
  {
    if k > 0 {
      assert a[0] == a[..k][0] == b[..k][0] == b[0];
      assert a[1..][..k - 1] == a[..k][1..] == b[..k][1..] == b[1..][..k - 1];
      FirstDifferenceDecides(a[1..], b[1..], k - 1);
      assert a[1..][k..] == a[k + 1..] && b[1..][k..] == b[k + 1..];
      CardsEqual(a[0], b[0]);
    }
  }

  /** Comparing the other way round gives the reverse answer. */
  lemma {:induction false} CardSeqsReverse(a: seq<Card>, b: seq<Card>)
    requires |a| == |b|
    ensures CompareCardSeqs(b, a) == CompareCardSeqs(a, b).Reverse()
  {
    if a != [] {
      CardSeqsReverse(a[1..], b[1..]);
    }
  }

  lemma {:induction false} HandsReverse(a: Hand, b: Hand)
    ensures CompareHands(b, a) == CompareHands(a, b).Reverse()
  {
    CardSeqsReverse(a, b);
  }

  /** Two hands compare equal only when they are the same hand. */
  lemma {:induction false} HandsEqual(a: Hand, b: Hand)
    ensures CompareHands(a, b) == Equal <==> a == b
  {
  }

  predicate AtMost(o: Ordering)
  {
    o != Greater
  }

  lemma {:induction false} CardSeqsTransitive(a: seq<Card>, b: seq<Card>, c: seq<Card>)
    requires |a| == |b| == |c|
    requires AtMost(CompareCardSeqs(a, b)) && AtMost(CompareCardSeqs(b, c))
    ensures AtMost(CompareCardSeqs(a, c))
  {
    if a != [] && Index(a[0]) == Index(b[0]) == Index(c[0]) {
      CardSeqsTransitive(a[1..], b[1..], c[1..]);
    }
  }

  /** The order on hands is transitive, so a sequence whose neighbours are
      in order is sorted throughout. */
  lemma {:induction false} HandsTransitive(a: Hand, b: Hand, c: Hand)
    requires AtMost(CompareHands(a, b)) && AtMost(CompareHands(b, c))
    ensures AtMost(CompareHands(a, c))
  {
    if TypeOf(a) == TypeOf(b) == TypeOf(c) {
      CardSeqsTransitive(a, b, c);
    }
  }

  type Entry = (Hand, nat)

  /** What `sort_by` needs of its comparison: answers reverse when the
      arguments are swapped, Equal only for identical hands, and "no
      higher" is transitive. The sort below is written for any such
      comparison and used with CompareHands. */
  ghost predicate TotalOrder(cmp: (Hand, Hand) -> Ordering)
  {
    (forall a, b :: cmp(b, a) == cmp(a, b).Reverse())
    && (forall a, b :: cmp(a, b) == Equal <==> a == b)
    && (forall a, b, c :: NoHigher(cmp, a, b) && NoHigher(cmp, b, c) ==> NoHigher(cmp, a, c))
  }

  predicate NoHigher(cmp: (Hand, Hand) -> Ordering, a: Hand, b: Hand)
  {
    AtMost(cmp(a, b))
  }

  /** `Hand::cmp` is such a comparison. */
  lemma {:induction false} HandOrder()
    ensures TotalOrder(CompareHands)
  {
    forall a, b ensures CompareHands(b, a) == CompareHands(a, b).Reverse() {
      HandsReverse(a, b);
    }
    forall a, b ensures CompareHands(a, b) == Equal <==> a == b {
      HandsEqual(a, b);
    }
    forall a, b, c | NoHigher(CompareHands, a, b) && NoHigher(CompareHands, b, c)
      ensures NoHigher(CompareHands, a, c)
    {
      HandsTransitive(a, b, c);
    }
  }

  /** The hands from lo to hi - 1 each rank no higher than the next. */
  predicate AscendingIn(cmp: (Hand, Hand) -> Ordering, s: seq<Entry>, lo: nat, hi: nat)
    requires lo <= hi <= |s|
  {
    forall k :: lo < k < hi ==> NoHigher(cmp, s[k - 1].0, s[k].0)
  }

  predicate Ascending(cmp: (Hand, Hand) -> Ordering, s: seq<Entry>)
  {
    AscendingIn(cmp, s, 0, |s|)
  }

  /** Every hand ranks no higher than any later one. */
  predicate Sorted(cmp: (Hand, Hand) -> Ordering, s: seq<Entry>)
  {
    forall i, j {:trigger NoHigher(cmp, s[i].0, s[j].0)} :: 0 <= i < j < |s| ==> NoHigher(cmp, s[i].0, s[j].0)
  }

  lemma {:induction false} AscendingPair(cmp: (Hand, Hand) -> Ordering, s: seq<Entry>, i: nat, j: nat)
    requires TotalOrder(cmp) && Ascending(cmp, s) && i < j < |s|
    ensures NoHigher(cmp, s[i].0, s[j].0)
    decreases j - i
  {
    if i + 1 < j {
      AscendingPair(cmp, s, i, j - 1);
      assert NoHigher(cmp, s[j - 1].0, s[j].0);
    }
  }

  lemma {:induction false} AscendingIsSorted(cmp: (Hand, Hand) -> Ordering, s: seq<Entry>)
    requires TotalOrder(cmp) && Ascending(cmp, s)
    ensures Sorted(cmp, s)
  {
    forall i, j | 0 <= i < j < |s| ensures NoHigher(cmp, s[i].0, s[j].0) {
      AscendingPair(cmp, s, i, j);
    }
  }

  /** s with its entries at j - 1 and j exchanged. */
  function Swap(s: seq<Entry>, j: nat): (r: seq<Entry>)
    requires 0 < j < |s|
    ensures |r| == |s| && multiset(r) == multiset(s)
  {
    s[j - 1 := s[j]][j := s[j - 1]]
  }

  /** Stable insertion of x into s: x goes after every entry whose hand is
      no higher than its own, and in particular after every equal hand. */
  function Ins(cmp: (Hand, Hand) -> Ordering, s: seq<Entry>, x: Entry): (r: seq<Entry>)
    ensures |r| == |s| + 1
  {
    if s == [] then [x]
    else if cmp(s[|s| - 1].0, x.0) == Greater then Ins(cmp, s[..|s| - 1], x) + [s[|s| - 1]]
    else s + [x]
  }

  /** What `sort_by` returns: the entries inserted one after another, in
      the order given, each by Ins. */
  function StableSorted(cmp: (Hand, Hand) -> Ordering, c: seq<Entry>): (r: seq<Entry>)
    ensures |r| == |c|
  {
    if c == [] then [] else Ins(cmp, StableSorted(cmp, c[..|c| - 1]), c[|c| - 1])
  }

  lemma {:induction false} AscendingSnoc(cmp: (Hand, Hand) -> Ordering, r: seq<Entry>, y: Entry)
    requires Ascending(cmp, r) && (r == [] || NoHigher(cmp, r[|r| - 1].0, y.0))
    ensures Ascending(cmp, r + [y])
  {
    var t := r + [y];
    forall k | 0 < k < |t| ensures NoHigher(cmp, t[k - 1].0, t[k].0) {
      if k < |r| {
        assert t[k - 1] == r[k - 1] && t[k] == r[k];
      }
    }
  }

  /** Inserting adds exactly x. */
  lemma {:induction false} InsMultiset(cmp: (Hand, Hand) -> Ordering, s: seq<Entry>, x: Entry)
    ensures multiset(Ins(cmp, s, x)) == multiset(s) + multiset{x}
  {
    if s != [] {
      var n := |s| - 1;
      assert s == s[..n] + [s[n]];
      if cmp(s[n].0, x.0) == Greater {
        InsMultiset(cmp, s[..n], x);
      }
    }
  }

  /** Inserting into an ascending sequence keeps it ascending; the entry
      left last is x or the one that was last. */
  lemma {:induction false} InsAscending(cmp: (Hand, Hand) -> Ordering, s: seq<Entry>, x: Entry)
    requires TotalOrder(cmp) && Ascending(cmp, s)
    ensures Ascending(cmp, Ins(cmp, s, x))
    ensures Ins(cmp, s, x)[|s|] == x || Ins(cmp, s, x)[|s|] == s[|s| - 1]
  {
    if s == [] {
      AscendingSnoc(cmp, [], x);
    } else {
      var n := |s| - 1;
      var p := s[..n];
      if cmp(s[n].0, x.0) == Greater {
        assert Ascending(cmp, p) by {
          forall k | 0 < k < n ensures NoHigher(cmp, p[k - 1].0, p[k].0) {
            assert p[k - 1] == s[k - 1] && p[k] == s[k];
          }
        }
        InsAscending(cmp, p, x);
        var r := Ins(cmp, p, x);
        if r[n] == x {
          assert cmp(x.0, s[n].0) == cmp(s[n].0, x.0).Reverse();
        } else {
          assert NoHigher(cmp, s[n - 1].0, s[n].0);
        }
        AscendingSnoc(cmp, r, s[n]);
      } else {
        AscendingSnoc(cmp, s, x);
      }
    }
  }

  /** The stable arrangement is sorted and holds the same entries. */
  lemma {:induction false} StableSortedSorted(cmp: (Hand, Hand) -> Ordering, c: seq<Entry>)
    requires TotalOrder(cmp)
    ensures Sorted(cmp, StableSorted(cmp, c))
    ensures multiset(StableSorted(cmp, c)) == multiset(c)
  {
    StableSortedAscending(cmp, c);
    StableSortedMultiset(cmp, c);
    AscendingIsSorted(cmp, StableSorted(cmp, c));
  }

  lemma {:induction false} StableSortedAscending(cmp: (Hand, Hand) -> Ordering, c: seq<Entry>)
    requires TotalOrder(cmp)
    ensures Ascending(cmp, StableSorted(cmp, c))
  {
    if c != [] {
      var n := |c| - 1;
      StableSortedAscending(cmp, c[..n]);
      InsAscending(cmp, StableSorted(cmp, c[..n]), c[n]);
    }
  }

  lemma {:induction false} StableSortedMultiset(cmp: (Hand, Hand) -> Ordering, c: seq<Entry>)
    ensures multiset(StableSorted(cmp, c)) == multiset(c)
  {
    if c != [] {
      var n := |c| - 1;
      StableSortedMultiset(cmp, c[..n]);
      InsMultiset(cmp, StableSorted(cmp, c[..n]), c[n]);
      assert c == c[..n] + [c[n]];
    }
  }

  /** The entries of s holding hand h, in their order in s. */
  function Those(s: seq<Entry>, h: Hand): seq<Entry>
  {
    if s == [] then [] else Those(s[..|s| - 1], h) + (if s[|s| - 1].0 == h then [s[|s| - 1]] else [])
  }

  lemma {:induction false} ThoseAppend(s: seq<Entry>, y: Entry, h: Hand)
    ensures Those(s + [y], h) == Those(s, h) + (if y.0 == h then [y] else [])
  {
    assert (s + [y])[..|s|] == s;
  }

  lemma {:induction false} ThoseMembers(s: seq<Entry>, h: Hand, y: Entry)
    ensures y in Those(s, h) <==> y in s && y.0 == h
  {
    if s != [] {
      var n := |s| - 1;
      ThoseMembers(s[..n], h, y);
      assert s == s[..n] + [s[n]];
    }
  }

  /** Inserting x puts it after every entry with its hand and moves no
      other entry past one with the same hand. */
  lemma {:induction false} InsKeepsOrder(cmp: (Hand, Hand) -> Ordering, s: seq<Entry>, x: Entry, h: Hand)
    requires TotalOrder(cmp)
    ensures Those(Ins(cmp, s, x), h) == Those(s, h) + (if x.0 == h then [x] else [])
  {
    if s == [] {
      ThoseAppend([], x, h);
    } else {
      var n := |s| - 1;
      var p := s[..n];
      assert s == p + [s[n]];
      if cmp(s[n].0, x.0) == Greater {
        InsKeepsOrder(cmp, p, x, h);
        ThoseAppend(Ins(cmp, p, x), s[n], h);
        ThoseAppend(p, s[n], h);
        assert s[n].0 != x.0;
      } else {
        ThoseAppend(s, x, h);
      }
    }
  }

  /** Stability: equal hands keep the order they were given in. */
  lemma {:induction false} StableSortedKeepsOrder(cmp: (Hand, Hand) -> Ordering, c: seq<Entry>, h: Hand)
    requires TotalOrder(cmp)
    ensures Those(StableSorted(cmp, c), h) == Those(c, h)
  {
    if c != [] {
      var n := |c| - 1;
      StableSortedKeepsOrder(cmp, c[..n], h);
      InsKeepsOrder(cmp, StableSorted(cmp, c[..n]), c[n], h);
    }
  }

  lemma {:induction false} StableSortedKeepsOrders(cmp: (Hand, Hand) -> Ordering, c: seq<Entry>)
    requires TotalOrder(cmp)
    ensures forall h :: Those(StableSorted(cmp, c), h) == Those(c, h)
  {
    forall h ensures Those(StableSorted(cmp, c), h) == Those(c, h) {
      StableSortedKeepsOrder(cmp, c, h);
    }
  }

  /** A sorted arrangement in which every hand's entries come in the same
      order as in another sorted arrangement is that arrangement: a stable
      sort has only one possible answer. */
  lemma {:induction false} StableUnique(cmp: (Hand, Hand) -> Ordering, s: seq<Entry>, t: seq<Entry>)
    requires TotalOrder(cmp) && Sorted(cmp, s) && Sorted(cmp, t)
    requires forall h :: Those(s, h) == Those(t, h)
    ensures s == t
    decreases |s| + |t|
  {
    if s == [] && t != [] {
      var y := t[|t| - 1];
      ThoseMembers(t, y.0, y);
      ThoseMembers(s, y.0, y);
      assert false;
    } else if s != [] && t == [] {
      var x := s[|s| - 1];
      ThoseMembers(s, x.0, x);
      ThoseMembers(t, x.0, x);
      assert false;
    } else if s != [] {
      var n, m := |s| - 1, |t| - 1;
      var x, y := s[n], t[m];
      LastsAgree(cmp, s, t);
      forall g ensures Those(s[..n], g) == Those(t[..m], g) {
        assert s == s[..n] + [x] && t == t[..m] + [y];
        ThoseAppend(s[..n], x, g);
        ThoseAppend(t[..m], y, g);
        assert Those(s, g) == Those(t, g);
        assert Those(s[..n], g) == Those(s, g)[..|Those(s[..n], g)|];
      }
      DropLast(cmp, s);
      DropLast(cmp, t);
      StableUnique(cmp, s[..n], t[..m]);
    }
  }

  /** Any sorted arrangement of the entries that keeps every hand's entries
      in the order given is the stable arrangement. */
  lemma {:induction false} StableSortedIsTheStableSort(cmp: (Hand, Hand) -> Ordering, c: seq<Entry>, s: seq<Entry>)
    requires TotalOrder(cmp) && Sorted(cmp, s) && forall h :: Those(s, h) == Those(c, h)
    ensures s == StableSorted(cmp, c)
  {
    StableSortedSorted(cmp, c);
    StableSortedKeepsOrders(cmp, c);
    StableUnique(cmp, s, StableSorted(cmp, c));
  }

  /** Two entries with the same hand keep the order they were dealt in:
      the later one gets the higher rank. */
  lemma {:induction false} EqualHandsKeepOrder(h: Hand, b1: nat, b2: nat)
    ensures StableSorted(CompareHands, [(h, b1), (h, b2)]) == [(h, b1), (h, b2)]
    ensures Winnings(StableSorted(CompareHands, [(h, b1), (h, b2)])) == b1 + 2 * b2
  {
    HandsEqual(h, h);
    assert [(h, b1), (h, b2)][..1] == [(h, b1)];
    assert [(h, b1)][..0] == [];
    assert Winnings([(h, b1)]) == b1;
  }

  /** The last entries of two such arrangements agree: each is a highest
      hand, so both have the same hand, and then each is the last entry
      with that hand. */
  lemma {:induction false} LastsAgree(cmp: (Hand, Hand) -> Ordering, s: seq<Entry>, t: seq<Entry>)
    requires TotalOrder(cmp) && Sorted(cmp, s) && Sorted(cmp, t) && s != [] && t != []
    requires forall h :: Those(s, h) == Those(t, h)
    ensures s[|s| - 1] == t[|t| - 1]
  {
    var n, m := |s| - 1, |t| - 1;
    var x, y := s[n], t[m];
    ThoseMembers(s, x.0, x);
    ThoseMembers(t, x.0, x);
    ThoseMembers(s, y.0, y);
    ThoseMembers(t, y.0, y);
    LastIsHighest(cmp, t, x);
    LastIsHighest(cmp, s, y);
    SameHand(cmp, x.0, y.0);
    assert s == s[..n] + [x] && t == t[..m] + [y];
    ThoseAppend(s[..n], x, x.0);
    ThoseAppend(t[..m], y, x.0);
    var l := Those(s, x.0);
    assert l == Those(t, x.0);
    assert l[|l| - 1] == x && l[|l| - 1] == y;
  }

  lemma {:induction false} LastIsHighest(cmp: (Hand, Hand) -> Ordering, t: seq<Entry>, e: Entry)
    requires TotalOrder(cmp) && Sorted(cmp, t) && e in t
    ensures NoHigher(cmp, e.0, t[|t| - 1].0)
  {
    var k :| 0 <= k < |t| && t[k] == e;
    if k < |t| - 1 {
      assert NoHigher(cmp, t[k].0, t[|t| - 1].0);
    } else {
      assert cmp(e.0, e.0) == Equal;
    }
  }

  lemma {:induction false} SameHand(cmp: (Hand, Hand) -> Ordering, a: Hand, b: Hand)
    requires TotalOrder(cmp) && NoHigher(cmp, a, b) && NoHigher(cmp, b, a)
    ensures a == b
  {
    assert cmp(b, a) == cmp(a, b).Reverse();
  }

  /** One step of the insertion: x passes the higher hand just before it. */
  lemma {:induction false} InsPasses(cmp: (Hand, Hand) -> Ordering, p: seq<Entry>, x: Entry, j: nat)
    requires 0 < j <= |p| && cmp(p[j - 1].0, x.0) == Greater
    ensures Ins(cmp, p[..j], x) + p[j..] == Ins(cmp, p[..j - 1], x) + p[j - 1..]
  {
    assert p[..j][..j - 1] == p[..j - 1];
    assert p[j - 1..] == [p[j - 1]] + p[j..];
  }

  /** Where the insertion stops, x is in its place. */
  lemma {:induction false} InsStops(cmp: (Hand, Hand) -> Ordering, p: seq<Entry>, x: Entry, j: nat)
    requires j <= |p| && (j == 0 || cmp(p[j - 1].0, x.0) != Greater)
    ensures Ins(cmp, p[..j], x) == p[..j] + [x]
  {
  }

  lemma {:induction false} SwapShape(p: seq<Entry>, x: Entry, rest: seq<Entry>, j: nat)
    requires 0 < j <= |p|
    ensures var b := p[..j] + [x] + p[j..] + rest;
      b[j - 1 := b[j]][j := b[j - 1]] == p[..j - 1] + [x] + p[j - 1..] + rest
  {
    var b := p[..j] + [x] + p[j..] + rest;
    var c := p[..j - 1] + [x] + p[j - 1..] + rest;
    assert |b| == |c|;
    forall k | 0 <= k < |b| ensures b[j - 1 := b[j]][j := b[j - 1]][k] == c[k] {
      if k < j - 1 {
        assert b[k] == p[k] == c[k];
      } else if j < k <= |p| {
        assert b[k] == p[k - 1] == c[k];
      } else if k > |p| {
        assert b[k] == rest[k - |p| - 1] == c[k];
      }
    }
  }

  /** One pass of the insertion sort: entry i sinks past every higher hand
      before it and stops at the first one that is not higher. */
  method Insert(a: array<Entry>, i: nat, cmp: (Hand, Hand) -> Ordering)
    requires i < a.Length
    modifies a
    ensures a[..] == Ins(cmp, old(a[..i]), old(a[i])) + old(a[i + 1..])
  {
    ghost var p, x, rest := a[..i], a[i], a[i + 1..];
    assert a[..] == p + [x] + rest;
    assert p[..i] == p && p[i..] == [];
    var j := i;
    while j > 0 && cmp(a[j - 1].0, a[j].0) == Greater
      invariant 0 <= j <= i
      invariant a[..] == p[..j] + [x] + p[j..] + rest
      invariant Ins(cmp, p, x) == Ins(cmp, p[..j], x) + p[j..]
    {
      assert a[j - 1] == p[j - 1] && a[j] == x;
      InsPasses(cmp, p, x, j);
      SwapShape(p, x, rest, j);
      ghost var b := a[..];
      a[j - 1], a[j] := a[j], a[j - 1];
      assert a[..] == b[j - 1 := b[j]][j := b[j - 1]];
      j := j - 1;
    }
    InsStops(cmp, p, x, j);
  }

  lemma {:induction false} StableSortedStep(cmp: (Hand, Hand) -> Ordering, c: seq<Entry>, i: nat)
    requires i < |c|
    ensures StableSorted(cmp, c[..i + 1]) == Ins(cmp, StableSorted(cmp, c[..i]), c[i])
  {
    assert c[..i + 1][..i] == c[..i];
  }

  /** `sort_by`: a stable sort in place, here by insertion through
      adjacent swaps. */
  method SortBy(a: array<Entry>, cmp: (Hand, Hand) -> Ordering)
    requires TotalOrder(cmp)
    modifies a
    ensures a[..] == StableSorted(cmp, old(a[..]))
    ensures Sorted(cmp, a[..]) && multiset(a[..]) == multiset(old(a[..]))
    ensures forall h :: Those(a[..], h) == Those(old(a[..]), h)
  {
    ghost var c := a[..];
    var i := 0;
    while i < a.Length
      invariant i <= a.Length
      invariant a[..] == StableSorted(cmp, c[..i]) + c[i..]
    {
      ghost var b := a[..];
      assert b[..i] == StableSorted(cmp, c[..i]) && b[i] == c[i] && b[i + 1..] == c[i + 1..];
      Insert(a, i, cmp);
      StableSortedStep(cmp, c, i);
      i := i + 1;
    }
    assert c[..a.Length] == c;
    StableSortedSorted(cmp, c);
    StableSortedKeepsOrders(cmp, c);
  }

  /** Two sorted arrangements of the same entries are the same arrangement
      when no hand occurs twice, so the ranks are determined. */
  predicate DistinctHands(s: seq<Entry>)
  {
    forall i, j {:trigger Differ(s[i].0, s[j].0)} :: 0 <= i < j < |s| ==> Differ(s[i].0, s[j].0)
  }

  predicate Differ(a: Hand, b: Hand)
  {
    a != b
  }

  lemma {:induction false} SortedUnique(cmp: (Hand, Hand) -> Ordering, s: seq<Entry>, t: seq<Entry>)
    requires TotalOrder(cmp) && Sorted(cmp, s) && Sorted(cmp, t) && multiset(s) == multiset(t) && DistinctHands(s)
    ensures s == t
    decreases |s|
  {
    assert |s| == |multiset(s)| == |multiset(t)| == |t|;
    if s != [] {
      var n := |s| - 1;
      LastsEqual(cmp, s, t);
      DropLast(cmp, s);
      DropLast(cmp, t);
      SortedUnique(cmp, s[..n], t[..n]);
    }
  }

  /** The last entries of two such arrangements agree: each is a highest
      hand, so the two have the same hand, and no other entry has it. */
  lemma {:induction false} LastsEqual(cmp: (Hand, Hand) -> Ordering, s: seq<Entry>, t: seq<Entry>)
    requires TotalOrder(cmp) && Sorted(cmp, s) && Sorted(cmp, t) && multiset(s) == multiset(t) && DistinctHands(s)
    requires |s| == |t| > 0
    ensures s[|s| - 1] == t[|t| - 1]
  {
    var n := |s| - 1;
    var x, y := s[n], t[n];
    assert x in multiset(t) && y in multiset(s);
    LastIsHighest(cmp, t, x);
    LastIsHighest(cmp, s, y);
    SameHand(cmp, x.0, y.0);
    var m :| 0 <= m < |s| && s[m] == y;
    if m < n {
      DistinctAt(s, m, n);
      assert false;
    }
  }

  lemma {:induction false} DistinctAt(s: seq<Entry>, i: nat, j: nat)
    requires DistinctHands(s) && i < j < |s|
    ensures s[i].0 != s[j].0
  {
    assert Differ(s[i].0, s[j].0);
  }

  lemma {:induction false} DropLast(cmp: (Hand, Hand) -> Ordering, s: seq<Entry>)
    requires |s| > 0
    ensures multiset(s[..|s| - 1]) == multiset(s) - multiset{s[|s| - 1]}
    ensures Sorted(cmp, s) ==> Sorted(cmp, s[..|s| - 1])
    ensures DistinctHands(s) ==> DistinctHands(s[..|s| - 1])
    ensures s == s[..|s| - 1] + [s[|s| - 1]]
  {
    assert s == s[..|s| - 1] + [s[|s| - 1]];
  }

  /** The total winnings: each bid times the rank of its hand, the lowest
      hand having rank 1. */
  function Winnings(s: seq<Entry>): nat
  {
    if s == [] then 0 else Winnings(s[..|s| - 1]) + s[|s| - 1].1 * |s|
  }

  lemma {:induction false} WinningsDetermined(cmp: (Hand, Hand) -> Ordering, s: seq<Entry>, t: seq<Entry>)
    requires TotalOrder(cmp) && Sorted(cmp, s) && Sorted(cmp, t) && multiset(s) == multiset(t) && DistinctHands(s)
    ensures Winnings(s) == Winnings(t)
  {
    SortedUnique(cmp, s, t);
  }

  /** Sorting a copy of the entries by `Hand::cmp` and summing their
      winnings. */
  method TotalWinnings(cards: seq<Entry>) returns (total: nat)
    ensures total == Winnings(StableSorted(CompareHands, cards))
  {
    var a := new Entry[|cards|](i requires 0 <= i < |cards| => cards[i]);
    assert a[..] == cards;
    HandOrder();
    SortBy(a, CompareHands);
    total := Winnings(a[..]);
  }

  /** Part one: the winnings with the cards as dealt. */
  method Part1(cards: seq<Entry>) returns (total: nat)
    ensures total == Winnings(StableSorted(CompareHands, cards))
  {
    total := TotalWinnings(cards);
  }

  /** The hand with every Jack turned into a Joker. */
  function Jokerize(h: Hand): (r: Hand)
    ensures forall k :: 0 <= k < 5 ==> r[k] == if h[k] == Jack then Joker else h[k]
  {
    seq(5, k requires 0 <= k < 5 => if h[k] == Jack then Joker else h[k])
  }

  function JokerizeAll(cards: seq<Entry>): (r: seq<Entry>)
    ensures |r| == |cards|
    ensures forall i :: 0 <= i < |cards| ==> r[i] == (Jokerize(cards[i].0), cards[i].1)
  {
    seq(|cards|, i requires 0 <= i < |cards| => (Jokerize(cards[i].0), cards[i].1))
  }

  /** Part two: the winnings once every Jack is a Joker. */
  method Part2(cards: seq<Entry>) returns (total: nat)
    ensures total == Winnings(StableSorted(CompareHands, JokerizeAll(cards)))
  {
    total := TotalWinnings(JokerizeAll(cards));
  }

  /** How the counts change when Jacks become Jokers. */
  lemma {:induction false} JokerizeCounts(s: seq<Card>, r: seq<Card>, c: Card)
    requires |r| == |s| && forall k :: 0 <= k < |s| ==> r[k] == if s[k] == Jack then Joker else s[k]
    ensures c != Jack && c != Joker ==> Count(r, c) == Count(s, c)
    ensures Count(r, Jack) == 0
    ensures Count(r, Joker) == Count(s, Joker) + Count(s, Jack)
  {
    if s != [] {
      JokerizeCounts(s[1..], r[1..], c);
    }
  }

  /** Turning Jacks into Jokers never lowers the first component of the
      type: the Jokers join the most frequent card. */
  lemma {:induction false} JokersNeverWeaken(h: Hand)
    ensures TypeOf(Jokerize(h)).0 >= TypeOf(h).0
  {
    var r := Jokerize(h);
    MaxCountIsMax(h, JokerIndex);
    MaxCountIsMax(r, JokerIndex);
    JokerizeCounts(h, r, Jack);
    if MaxCount(h, JokerIndex) != 0 {
      var c :| Index(c) < JokerIndex && Count(h, c) == MaxCount(h, JokerIndex);
      JokerizeCounts(h, r, c);
      if c != Jack {
        assert Count(r, c) <= MaxCount(r, JokerIndex);
      }
    }
  }

  // ---------------------------------------------------------------------
  // The worked example

  /** The hand holding the cards a, b, c, d and e in this order. */
  predicate HandIs(h: Hand, a: Card, b: Card, c: Card, d: Card, e: Card)
  {
    h[0] == a && h[1] == b && h[2] == c && h[3] == d && h[4] == e
  }

  /** The five hands and bids of the worked example. */
  predicate ExampleCards(cards: seq<Entry>)
  {
    |cards| == 5
    && HandIs(cards[0].0, Three, Two, Ten, Three, King) && cards[0].1 == 765
    && HandIs(cards[1].0, Ten, Five, Five, Jack, Five) && cards[1].1 == 684
    && HandIs(cards[2].0, King, King, Six, Seven, Seven) && cards[2].1 == 28
    && HandIs(cards[3].0, King, Ten, Jack, Jack, Ten) && cards[3].1 == 220
    && HandIs(cards[4].0, Queen, Queen, Queen, Jack, Ace) && cards[4].1 == 483
  }

  function Eq(a: Card, b: Card): nat
  {
    if a == b then 1 else 0
  }

  /** A hand's count of a card, written out card by card. */
  lemma {:induction false} CountFive(h: Hand, c: Card)
    ensures Count(h, c) == Eq(h[0], c) + Eq(h[1], c) + Eq(h[2], c) + Eq(h[3], c) + Eq(h[4], c)
  {
    assert h[1..][1..] == h[2..] && h[2..][1..] == h[3..] && h[3..][1..] == h[4..] && h[4..][1..] == [];
    assert Count(h[4..], c) == Eq(h[4], c);
    assert Count(h[3..], c) == Eq(h[3], c) + Count(h[4..], c);
    assert Count(h[2..], c) == Eq(h[2], c) + Count(h[3..], c);
  }

  lemma {:induction false} ExampleType0(h: Hand)
    requires HandIs(h, Three, Two, Ten, Three, King)
    ensures TypeOf(h) == (2, 1)
  {
    forall c ensures Count(h, c) == Eq(Three, c) + Eq(Two, c) + Eq(Ten, c) + Eq(Three, c) + Eq(King, c) {
      CountFive(h, c);
    }
    TypeIs(h, Three, 2, Two, 1);
  }

  lemma {:induction false} ExampleType1(h: Hand)
    requires HandIs(h, Ten, Five, Five, Jack, Five)
    ensures TypeOf(h) == (3, 1)
  {
    forall c ensures Count(h, c) == Eq(Ten, c) + Eq(Five, c) + Eq(Five, c) + Eq(Jack, c) + Eq(Five, c) {
      CountFive(h, c);
    }
    TypeIs(h, Five, 3, Ten, 1);
  }

  lemma {:induction false} ExampleType2(h: Hand)
    requires HandIs(h, King, King, Six, Seven, Seven)
    ensures TypeOf(h) == (2, 2)
  {
    forall c ensures Count(h, c) == Eq(King, c) + Eq(King, c) + Eq(Six, c) + Eq(Seven, c) + Eq(Seven, c) {
      CountFive(h, c);
    }
    TypeIs(h, King, 2, Seven, 2);
  }

  lemma {:induction false} ExampleType3(h: Hand)
    requires HandIs(h, King, Ten, Jack, Jack, Ten)
    ensures TypeOf(h) == (2, 2)
  {
    forall c ensures Count(h, c) == Eq(King, c) + Eq(Ten, c) + Eq(Jack, c) + Eq(Jack, c) + Eq(Ten, c) {
      CountFive(h, c);
    }
    TypeIs(h, Ten, 2, Jack, 2);
  }

  lemma {:induction false} ExampleType4(h: Hand)
    requires HandIs(h, Queen, Queen, Queen, Jack, Ace)
    ensures TypeOf(h) == (3, 1)
  {
    forall c ensures Count(h, c) == Eq(Queen, c) + Eq(Queen, c) + Eq(Queen, c) + Eq(Jack, c) + Eq(Ace, c) {
      CountFive(h, c);
    }
    TypeIs(h, Queen, 3, Jack, 1);
  }

  lemma {:induction false} JokerType1(h: Hand)
    requires HandIs(h, Ten, Five, Five, Joker, Five)
    ensures TypeOf(h) == (4, 1)
  {
    forall c ensures Count(h, c) == Eq(Ten, c) + Eq(Five, c) + Eq(Five, c) + Eq(Joker, c) + Eq(Five, c) {
      CountFive(h, c);
    }
    TypeIs(h, Five, 3, Ten, 1);
  }

  lemma {:induction false} JokerType3(h: Hand)
    requires HandIs(h, King, Ten, Joker, Joker, Ten)
    ensures TypeOf(h) == (4, 1)
  {
    forall c ensures Count(h, c) == Eq(King, c) + Eq(Ten, c) + Eq(Joker, c) + Eq(Joker, c) + Eq(Ten, c) {
      CountFive(h, c);
    }
    TypeIs(h, Ten, 2, King, 1);
  }

  lemma {:induction false} JokerType4(h: Hand)
    requires HandIs(h, Queen, Queen, Queen, Joker, Ace)
    ensures TypeOf(h) == (4, 1)
  {
    forall c ensures Count(h, c) == Eq(Queen, c) + Eq(Queen, c) + Eq(Queen, c) + Eq(Joker, c) + Eq(Ace, c) {
      CountFive(h, c);
    }
    TypeIs(h, Queen, 3, Ace, 1);
  }

  /** A sorted sequence whose neighbours are strictly in order holds no
      hand twice. */
  lemma {:induction false} StrictlyAscendingDistinct(s: seq<Entry>)
    requires Sorted(CompareHands, s)
    requires forall k :: 0 < k < |s| ==> CompareHands(s[k - 1].0, s[k].0) == Less
    ensures DistinctHands(s)
  {
    forall i, j | 0 <= i < j < |s| ensures Differ(s[i].0, s[j].0) {
      HandsReverse(s[i].0, s[i + 1].0);
      if i + 1 < j {
        assert NoHigher(CompareHands, s[i + 1].0, s[j].0);
      }
    }
  }

  /** Five entries whose neighbours are strictly in order are the only
      sorted arrangement of themselves. */
  lemma {:induction false} RankedFive(s: seq<Entry>, t: seq<Entry>)
    requires |s| == 5
    requires CompareHands(s[0].0, s[1].0) == Less && CompareHands(s[1].0, s[2].0) == Less
    requires CompareHands(s[2].0, s[3].0) == Less && CompareHands(s[3].0, s[4].0) == Less
    requires Sorted(CompareHands, t) && multiset(t) == multiset(s)
    ensures Winnings(t) == Winnings(s)
  {
    HandOrder();
    AscendingIsSorted(CompareHands, s);
    StrictlyAscendingDistinct(s);
    SortedUnique(CompareHands, s, t);
  }

  lemma {:induction false} ExchangeSecondAndFourth(c: seq<Entry>) returns (s: seq<Entry>)
    requires |c| == 5
    ensures |s| == 5 && multiset(s) == multiset(c)
    ensures s[0] == c[0] && s[1] == c[3] && s[2] == c[2] && s[3] == c[1] && s[4] == c[4]
  {
    s := c[1 := c[3]][3 := c[1]];
  }

  lemma {:induction false} WinningsFive(s: seq<Entry>)
    requires |s| == 5
    ensures Winnings(s) == s[0].1 + 2 * s[1].1 + 3 * s[2].1 + 4 * s[3].1 + 5 * s[4].1
  {
    assert s[..4][..3] == s[..3] && s[..3][..2] == s[..2] && s[..2][..1] == s[..1] && s[..1][..0] == [];
    assert Winnings(s[..1]) == s[0].1;
    assert Winnings(s[..2]) == Winnings(s[..1]) + 2 * s[1].1;
    assert Winnings(s[..3]) == Winnings(s[..2]) + 3 * s[2].1;
    assert Winnings(s[..4]) == Winnings(s[..3]) + 4 * s[3].1;
    assert s[..5] == s;
  }

  lemma {:induction false} ExampleOrder1a(cards: seq<Entry>)
    requires ExampleCards(cards)
    ensures CompareHands(cards[0].0, cards[3].0) == Less && CompareHands(cards[3].0, cards[2].0) == Less
  {
    ExampleType0(cards[0].0); ExampleType2(cards[2].0); ExampleType3(cards[3].0);
    assert cards[3].0[..1] == cards[2].0[..1];
    FirstDifferenceDecides(cards[3].0, cards[2].0, 1);
  }

  lemma {:induction false} ExampleOrder1b(cards: seq<Entry>)
    requires ExampleCards(cards)
    ensures CompareHands(cards[2].0, cards[1].0) == Less && CompareHands(cards[1].0, cards[4].0) == Less
  {
    ExampleType1(cards[1].0); ExampleType2(cards[2].0); ExampleType4(cards[4].0);
  }

  /** Any ranking of the example's hands wins 6 440. */
  lemma {:induction false} ExamplePart1(cards: seq<Entry>, t: seq<Entry>)
    requires ExampleCards(cards) && Sorted(CompareHands, t) && multiset(t) == multiset(cards)
    ensures Winnings(t) == 6440
  {
    ExampleOrder1a(cards);
    ExampleOrder1b(cards);
    var s := ExchangeSecondAndFourth(cards);
    RankedFive(s, t);
    WinningsFive(s);
  }

  lemma {:induction false} ExampleOrder2a(j: seq<Entry>)
    requires |j| == 5 && HandIs(j[0].0, Three, Two, Ten, Three, King) && HandIs(j[2].0, King, King, Six, Seven, Seven)
    requires HandIs(j[1].0, Ten, Five, Five, Joker, Five)
    ensures CompareHands(j[0].0, j[2].0) == Less && CompareHands(j[2].0, j[1].0) == Less
  {
    ExampleType0(j[0].0); ExampleType2(j[2].0); JokerType1(j[1].0);
  }

  lemma {:induction false} ExampleOrder2b(j: seq<Entry>)
    requires |j| == 5 && HandIs(j[1].0, Ten, Five, Five, Joker, Five)
    requires HandIs(j[3].0, King, Ten, Joker, Joker, Ten) && HandIs(j[4].0, Queen, Queen, Queen, Joker, Ace)
    ensures CompareHands(j[1].0, j[4].0) == Less && CompareHands(j[4].0, j[3].0) == Less
  {
    JokerType1(j[1].0); JokerType3(j[3].0); JokerType4(j[4].0);
  }

  /** With Jacks as Jokers, any ranking of the example's hands wins 5 905. */
  lemma {:induction false} ExamplePart2(cards: seq<Entry>, t: seq<Entry>)
    requires ExampleCards(cards) && Sorted(CompareHands, t) && multiset(t) == multiset(JokerizeAll(cards))
    ensures Winnings(t) == 5905
  {
    var j := JokerizeAll(cards);
    assert HandIs(j[1].0, Ten, Five, Five, Joker, Five);
    assert HandIs(j[3].0, King, Ten, Joker, Joker, Ten);
    assert HandIs(j[4].0, Queen, Queen, Queen, Joker, Ace);
    ExampleOrder2a(j);
    ExampleOrder2b(j);
    var s := Swap(Swap(j, 2), 4);
    assert s[0] == j[0] && s[1] == j[2] && s[2] == j[1] && s[3] == j[4] && s[4] == j[3];
    RankedFive(s, t);
    WinningsFive(s);
  }
}
