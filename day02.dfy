/** Day 2, "Cube Conundrum": games of draws of red, green and blue cubes.
    Part one keeps the games whose every draw fits in a bag of 12 red, 13
    green and 14 blue cubes; part two multiplies the fewest cubes of each
    colour that make a game possible. */
module Day02 {
  import opened Common

  /** One draw: how many cubes of each colour were shown. */
  datatype Configuration = Configuration(red: nat, green: nat, blue: nat)

  type Game = seq<Configuration>

  /** A record line: the game's id and its draws. */
  datatype Record = Record(id: nat, game: Game)

  /** The bag of part one. */
  const Bag := Configuration(12, 13, 14)

  predicate FitsIn(c: Configuration, bag: Configuration)
  {
    c.red <= bag.red && c.green <= bag.green && c.blue <= bag.blue
  }

  /** Whether every draw of the game fits in the bag of part one. */
  predicate Possible(game: Game)
  {
    forall k :: 0 <= k < |game| ==> FitsIn(game[k], Bag)
  }

  /** Part one: the sum of the ids of the possible games. */
  function Part1(record: seq<Record>): (r: nat)
    ensures r <= IdSum(record)
    ensures (forall k :: 0 <= k < |record| ==> Possible(record[k].game)) ==> r == IdSum(record)
    ensures (forall k :: 0 <= k < |record| ==> !Possible(record[k].game)) ==> r == 0
  {
    if record == [] then 0
    else (if Possible(record[0].game) then record[0].id else 0) + Part1(record[1..])
  }

  function IdSum(record: seq<Record>): nat
  {
    if record == [] then 0 else record[0].id + IdSum(record[1..])
  }

  /** Part one over two halves of a record is the sum over each half. */
  lemma {:induction false} Part1Append(a: seq<Record>, b: seq<Record>)
    ensures Part1(a + b) == Part1(a) + Part1(b)
  {
    if a == [] {
      assert a + b == b;
    } else {
      assert (a + b)[1..] == a[1..] + b;
      Part1Append(a[1..], b);
    }
  }

  /** The largest count of each colour over a non-empty game. */
  function MaxRed(game: Game): nat
    requires |game| > 0
  {
    if |game| == 1 then game[0].red else Common.Max(game[0].red, MaxRed(game[1..]))
  }

  function MaxGreen(game: Game): nat
    requires |game| > 0
  {
    if |game| == 1 then game[0].green else Common.Max(game[0].green, MaxGreen(game[1..]))
  }

  function MaxBlue(game: Game): nat
    requires |game| > 0
  {
    if |game| == 1 then game[0].blue else Common.Max(game[0].blue, MaxBlue(game[1..]))
  }

  /** Each maximum bounds every draw and is reached by some draw. */
  lemma {:induction false} MaximaAreMaxima(game: Game)
    requires |game| > 0
    ensures forall k :: 0 <= k < |game| ==>
              game[k].red <= MaxRed(game) && game[k].green <= MaxGreen(game) && game[k].blue <= MaxBlue(game)
    ensures exists k :: 0 <= k < |game| && game[k].red == MaxRed(game)
    ensures exists k :: 0 <= k < |game| && game[k].green == MaxGreen(game)
    ensures exists k :: 0 <= k < |game| && game[k].blue == MaxBlue(game)
  {
    if |game| > 1 {
      var rest := game[1..];
      MaximaAreMaxima(rest);
      assert forall k :: 1 <= k < |game| ==> game[k] == rest[k - 1];
      var kr :| 0 <= kr < |rest| && rest[kr].red == MaxRed(rest);
      var kg :| 0 <= kg < |rest| && rest[kg].green == MaxGreen(rest);
      var kb :| 0 <= kb < |rest| && rest[kb].blue == MaxBlue(rest);
      assert game[kr + 1] == rest[kr] && game[kg + 1] == rest[kg] && game[kb + 1] == rest[kb];
    }
  }

  /** The fewest cubes of each colour that make the game possible. The
      source unwraps the maximum of an empty game, so games are non-empty. */
  function Fewest(game: Game): (bag: Configuration)
    requires |game| > 0
    ensures forall k :: 0 <= k < |game| ==> FitsIn(game[k], bag)
    ensures forall other :: (forall k :: 0 <= k < |game| ==> FitsIn(game[k], other)) ==>
              bag.red <= other.red && bag.green <= other.green && bag.blue <= other.blue
  {
    MaximaAreMaxima(game);
    Configuration(MaxRed(game), MaxGreen(game), MaxBlue(game))
  }

  /** The power of a game: the product of the per-colour maxima. */
  function Power(game: Game): (r: nat)
    requires |game| > 0
    ensures forall k :: 0 <= k < |game| ==> Product(game[k].red, game[k].green, game[k].blue) <= r
    ensures forall other :: (forall k :: 0 <= k < |game| ==> FitsIn(game[k], other)) ==>
              r <= Product(other.red, other.green, other.blue)
  {
    PowerBounds(game);
    Product(MaxRed(game), MaxGreen(game), MaxBlue(game))
  }

  function Product(a: nat, b: nat, c: nat): nat
  {
    a * b * c
  }

  lemma {:induction false} ProductMonotone(a: nat, b: nat, c: nat, x: nat, y: nat, z: nat)
    requires a <= x && b <= y && c <= z
    ensures Product(a, b, c) <= Product(x, y, z)
  {
    assert a * b <= x * b by {
      assert (x - a) * b >= 0;
    }
    assert x * b <= x * y by {
      assert x * (y - b) >= 0;
    }
    assert a * b * c <= x * y * c by {
      assert (x * y - a * b) * c >= 0;
    }
    assert x * y * c <= x * y * z by {
      assert x * y * (z - c) >= 0;
    }
  }

  /** The product of the maxima is at least the product of the counts of
      any single draw, and at most that of any bag holding every draw. */
  lemma {:induction false} PowerBounds(game: Game)
    requires |game| > 0
    ensures forall k :: 0 <= k < |game| ==> Product(game[k].red, game[k].green, game[k].blue) <= Product(MaxRed(game), MaxGreen(game), MaxBlue(game))
    ensures forall other :: (forall k :: 0 <= k < |game| ==> FitsIn(game[k], other)) ==>
              Product(MaxRed(game), MaxGreen(game), MaxBlue(game)) <= Product(other.red, other.green, other.blue)
  {
    var bag := Fewest(game);
    forall k | 0 <= k < |game| ensures Product(game[k].red, game[k].green, game[k].blue) <= Product(MaxRed(game), MaxGreen(game), MaxBlue(game)) {
      ProductMonotone(game[k].red, game[k].green, game[k].blue, bag.red, bag.green, bag.blue);
    }
    forall other | (forall k :: 0 <= k < |game| ==> FitsIn(game[k], other))
      ensures Product(MaxRed(game), MaxGreen(game), MaxBlue(game)) <= Product(other.red, other.green, other.blue)
    {
      ProductMonotone(bag.red, bag.green, bag.blue, other.red, other.green, other.blue);
    }
  }

  predicate NonEmptyGames(record: seq<Record>)
  {
    forall k :: 0 <= k < |record| ==> |record[k].game| > 0
  }

  /** Part two: the sum of the powers. */
  function Part2(record: seq<Record>): (r: nat)
    requires NonEmptyGames(record)
  {
    if record == [] then 0
    else Power(record[0].game) + Part2(record[1..])
  }

  /** The five games of the worked example. */
  function Example(): seq<Record>
  {
    [ Record(1, [Configuration(4, 0, 3), Configuration(1, 2, 6), Configuration(0, 2, 0)]),
      Record(2, [Configuration(0, 2, 1), Configuration(1, 3, 4), Configuration(0, 1, 1)]),
      Record(3, [Configuration(20, 8, 6), Configuration(4, 13, 5), Configuration(1, 5, 0)]),
      Record(4, [Configuration(3, 1, 6), Configuration(6, 3, 0), Configuration(14, 3, 15)]),
      Record(5, [Configuration(6, 3, 1), Configuration(1, 2, 2)]) ]
  }

  /** The worked example: 8 for part one. */
  lemma {:induction false} ExamplePart1()
    ensures Part1(Example()) == 8
  {
    var e := Example();
    ExamplePossible();
    Part1OfFive(e);
  }

  /** Games 3 and 4 of the worked example draw too many cubes; the others
      fit in the bag. */
  lemma {:induction false} ExamplePossible()
    ensures var e := Example();
            |e| == 5 && e[0].id == 1 && e[1].id == 2 && e[4].id == 5
            && Possible(e[0].game) && Possible(e[1].game) && !Possible(e[2].game)
            && !Possible(e[3].game) && Possible(e[4].game)
  {
    var e := Example();
    assert !FitsIn(e[2].game[0], Bag) && !FitsIn(e[3].game[2], Bag);
  }

  /** Part one over five records, written out. */
  lemma {:induction false} Part1OfFive(r: seq<Record>)
    requires |r| == 5
    ensures Part1(r) == (if Possible(r[0].game) then r[0].id else 0) + (if Possible(r[1].game) then r[1].id else 0)
                        + (if Possible(r[2].game) then r[2].id else 0) + (if Possible(r[3].game) then r[3].id else 0)
                        + (if Possible(r[4].game) then r[4].id else 0)
  {
    var r1 := r[1..];
    var r2 := r1[1..];
    var r3 := r2[1..];
    var r4 := r3[1..];
    assert r4[1..] == [];
    assert Part1(r4) == if Possible(r[4].game) then r[4].id else 0;
    assert Part1(r3) == (if Possible(r[3].game) then r[3].id else 0) + Part1(r4);
    assert Part1(r2) == (if Possible(r[2].game) then r[2].id else 0) + Part1(r3);
    assert Part1(r1) == (if Possible(r[1].game) then r[1].id else 0) + Part1(r2);
  }

  /** The worked example: 2 286 for part two. */
  lemma {:induction false} ExamplePart2()
    ensures NonEmptyGames(Example()) && Part2(Example()) == 2286
  {
    var e := Example();
    assert NonEmptyGames(e);
    Part2OfFive(e);
    ExampleMaxima();
    PowerOfMaxima(e[0].game);
    PowerOfMaxima(e[1].game);
    PowerOfMaxima(e[2].game);
    PowerOfMaxima(e[3].game);
    PowerOfMaxima(e[4].game);
  }

  /** The per-colour maxima of the worked example's games. */
  lemma {:induction false} ExampleMaxima()
    ensures var e := Example();
            |e| == 5
            && MaxRed(e[0].game) == 4 && MaxGreen(e[0].game) == 2 && MaxBlue(e[0].game) == 6
            && MaxRed(e[1].game) == 1 && MaxGreen(e[1].game) == 3 && MaxBlue(e[1].game) == 4
            && MaxRed(e[2].game) == 20 && MaxGreen(e[2].game) == 13 && MaxBlue(e[2].game) == 6
            && MaxRed(e[3].game) == 14 && MaxGreen(e[3].game) == 3 && MaxBlue(e[3].game) == 15
            && MaxRed(e[4].game) == 6 && MaxGreen(e[4].game) == 3 && MaxBlue(e[4].game) == 2
  {
  }

  lemma {:induction false} PowerOfMaxima(game: Game)
    requires |game| > 0
    ensures Power(game) == MaxRed(game) * MaxGreen(game) * MaxBlue(game)
  {
  }

  /** Part two over five records, written out. */
  lemma {:induction false} Part2OfFive(r: seq<Record>)
    requires |r| == 5 && NonEmptyGames(r)
    ensures Part2(r) == Power(r[0].game) + Power(r[1].game) + Power(r[2].game) + Power(r[3].game) + Power(r[4].game)
  {
    var r1 := r[1..];
    var r2 := r1[1..];
    var r3 := r2[1..];
    var r4 := r3[1..];
    assert r4[1..] == [];
    assert Part2(r4) == Power(r[4].game);
    assert Part2(r3) == Power(r[3].game) + Part2(r4);
    assert Part2(r2) == Power(r[2].game) + Part2(r3);
    assert Part2(r1) == Power(r[1].game) + Part2(r2);
  }
}
