/** Day 22, "Sand Slabs": bricks of sand fall straight down until they
    rest on the ground (z = 1) or on another brick. Part one counts the
    bricks that could be taken away without anything else falling; part
    two adds up, over every brick, how many others would fall were it
    taken away. */
module Day22 {
  import opened Common

  type Coordinates2 = (int, int)
  type Coordinates3 = (int, int, int)

  /** A footprint: its two opposite corners. */
  type Rectangle = (Coordinates2, Coordinates2)

  /** A brick: the corner with the lowest z and the opposite one. */
  type Brick = (Coordinates3, Coordinates3)

  function Bottom(b: Brick): int { b.0.2 }
  function Top(b: Brick): int { b.1.2 }

  /** Corners in order on every axis. */
  predicate WellFormed(b: Brick)
  {
    b.0.0 <= b.1.0 && b.0.1 <= b.1.1 && b.0.2 <= b.1.2
  }

  predicate AllWellFormed(bricks: seq<Brick>)
  {
    forall i :: 0 <= i < |bricks| ==> WellFormed(bricks[i])
  }

  // ---------------------------------------------------------------------
  // Footprints

  /** `overlap`: the footprints meet, edges included, on both axes. */
  predicate Overlap(r1: Rectangle, r2: Rectangle)
  {
    && r1.0.0 <= r2.1.0
    && r1.1.0 >= r2.0.0
    && r1.0.1 <= r2.1.1
    && r1.1.1 >= r2.0.1
  }

  /** The point lies in the rectangle, edges included. */
  predicate Inside(c: Coordinates2, r: Rectangle)
  {
    r.0.0 <= c.0 <= r.1.0 && r.0.1 <= c.1 <= r.1.1
  }

  predicate ValidRectangle(r: Rectangle)
  {
    r.0.0 <= r.1.0 && r.0.1 <= r.1.1
  }

  lemma {:induction false} OverlapSymmetric(r1: Rectangle, r2: Rectangle)
    ensures Overlap(r1, r2) == Overlap(r2, r1)
  {
  }

  /** Two rectangles with ordered corners overlap exactly when some point
      lies in both. */
  lemma {:induction false} OverlapShared(r1: Rectangle, r2: Rectangle)
    requires ValidRectangle(r1) && ValidRectangle(r2)
    ensures Overlap(r1, r2) <==> exists c :: Inside(c, r1) && Inside(c, r2)
  {
    if Overlap(r1, r2) {
      var c := (Max(r1.0.0, r2.0.0), Max(r1.0.1, r2.0.1));
      assert Inside(c, r1) && Inside(c, r2);
    }
  }

  /** `base`: the footprint of a brick. */
  function Base(b: Brick): Rectangle
  {
    ((b.0.0, b.0.1), (b.1.0, b.1.1))
  }

  /** `vertical_shift`: the brick moved up or down so that its bottom is
      at z; its footprint and height stay. */
  function VerticalShift(b: Brick, z: int): (r: Brick)
    ensures Base(r) == Base(b)
    ensures Bottom(r) == z
    ensures Top(r) - Bottom(r) == Top(b) - Bottom(b)
    ensures WellFormed(r) == WellFormed(b)
  {
    ((b.0.0, b.0.1, z), (b.1.0, b.1.1, b.1.2 - b.0.2 + z))
  }

  // ---------------------------------------------------------------------
  // Settling

  /** The highest top among the bricks whose footprint overlaps
      `footprint`, if any. */
  function HighestTop(bricks: seq<Brick>, footprint: Rectangle): (r: Option<int>)
    ensures r.None? <==> forall i :: 0 <= i < |bricks| ==> !Overlap(footprint, Base(bricks[i]))
    ensures r.Some? ==> exists i :: 0 <= i < |bricks| && Overlap(footprint, Base(bricks[i])) && Top(bricks[i]) == r.value
    ensures r.Some? ==> forall i :: 0 <= i < |bricks| && Overlap(footprint, Base(bricks[i])) ==> Top(bricks[i]) <= r.value
  {
    if bricks == [] then None
    else
      var rest := HighestTop(bricks[..|bricks| - 1], footprint);
      var last := bricks[|bricks| - 1];
      if !Overlap(footprint, Base(last)) then rest
      else match rest
        case None => Some(Top(last))
        case Some(m) => Some(Max(m, Top(last)))
  }

  /** `unwrap_or(0)`. */
  function OrZero(o: Option<int>): int
  {
    match o
    case None => 0
    case Some(v) => v
  }

  /** The bricks, in the order given, each dropped onto the ones before
      it. */
  function Settled(sorted: seq<Brick>): (r: seq<Brick>)
    ensures |r| == |sorted|
  {
    if sorted == [] then []
    else
      var landed := Settled(sorted[..|sorted| - 1]);
      var b := sorted[|sorted| - 1];
      landed + [VerticalShift(b, OrZero(HighestTop(landed, Base(b))) + 1)]
  }

  lemma {:induction false} SettledPrefix(sorted: seq<Brick>, k: nat)
    requires k <= |sorted|
    ensures Settled(sorted[..k]) == Settled(sorted)[..k]
    decreases |sorted|
  {
    if k < |sorted| {
      assert sorted[..|sorted| - 1][..k] == sorted[..k];
      SettledPrefix(sorted[..|sorted| - 1], k);
    } else {
      assert sorted[..k] == sorted;
    }
  }

  /** Brick j settles one above the highest top among the bricks before
      it whose footprint overlaps its own, or on the ground (z = 1). */
  lemma {:induction false} LandedRests(sorted: seq<Brick>, j: nat)
    requires j < |sorted|
    ensures var landed := Settled(sorted);
      && Base(landed[j]) == Base(sorted[j])
      && Top(landed[j]) - Bottom(landed[j]) == Top(sorted[j]) - Bottom(sorted[j])
      && Bottom(landed[j]) == OrZero(HighestTop(landed[..j], Base(sorted[j]))) + 1
  {
    SettledPrefix(sorted, j + 1);
    SettledPrefix(sorted, j);
    SettledStep(sorted, j);
    assert Settled(sorted)[..j + 1][j] == Settled(sorted)[j];
    assert Settled(sorted)[..j + 1][..j] == Settled(sorted)[..j];
  }

  /** Settling one more brick appends it, dropped onto the bricks settled
      before it. */
  lemma {:induction false} SettledStep(sorted: seq<Brick>, j: nat)
    requires j < |sorted|
    ensures var landed := Settled(sorted[..j]);
      Settled(sorted[..j + 1]) == landed + [VerticalShift(sorted[j], OrZero(HighestTop(landed, Base(sorted[j]))) + 1)]
  {
    var prefix := sorted[..j + 1];
    assert prefix[..|prefix| - 1] == sorted[..j];
  }

  /** Landing keeps the number of bricks, their footprints and heights. */
  lemma {:induction false} LandedShape(sorted: seq<Brick>)
    ensures var landed := Settled(sorted);
      && |landed| == |sorted|
      && forall j :: 0 <= j < |landed| ==>
           Base(landed[j]) == Base(sorted[j]) && Top(landed[j]) - Bottom(landed[j]) == Top(sorted[j]) - Bottom(sorted[j])
  {
    forall j | 0 <= j < |sorted|
      ensures Base(Settled(sorted)[j]) == Base(sorted[j])
      ensures Top(Settled(sorted)[j]) - Bottom(Settled(sorted)[j]) == Top(sorted[j]) - Bottom(sorted[j])
    {
      LandedRests(sorted, j);
    }
  }

  /** Of two landed bricks with overlapping footprints, the later one lies
      wholly above the earlier. */
  lemma {:induction false} LandedApart(sorted: seq<Brick>, i: nat, j: nat)
    requires i < j < |sorted|
    requires Overlap(Base(Settled(sorted)[j]), Base(Settled(sorted)[i]))
    ensures Top(Settled(sorted)[i]) < Bottom(Settled(sorted)[j])
  {
    var landed := Settled(sorted);
    LandedRests(sorted, j);
    assert landed[..j][i] == landed[i];
  }

  /** A landed brick not on the ground rests on an earlier brick whose
      footprint overlaps its own and whose top is just below it. */
  lemma {:induction false} LandedSupported(sorted: seq<Brick>, j: nat) returns (i: nat)
    requires j < |sorted| && Bottom(Settled(sorted)[j]) != 1
    ensures i < j
    ensures Supports(Settled(sorted)[i], Settled(sorted)[j])
  {
    var landed := Settled(sorted);
    LandedRests(sorted, j);
    var top := HighestTop(landed[..j], Base(sorted[j]));
    var k :| 0 <= k < j && Overlap(Base(sorted[j]), Base(landed[..j][k])) && Top(landed[..j][k]) == top.value;
    i := k;
  }

  /** Well-formed bricks land at z = 1 or higher. */
  lemma {:induction false} LandedAboveGround(sorted: seq<Brick>, j: nat)
    requires AllWellFormed(sorted) && j < |sorted|
    ensures 1 <= Bottom(Settled(sorted)[j]) <= Top(Settled(sorted)[j])
    decreases j
  {
    var landed := Settled(sorted);
    LandedRests(sorted, j);
    assert WellFormed(sorted[j]);
    var top := HighestTop(landed[..j], Base(sorted[j]));
    if top.Some? {
      var k :| 0 <= k < j && Overlap(Base(sorted[j]), Base(landed[..j][k])) && Top(landed[..j][k]) == top.value;
      LandedAboveGround(sorted, k);
    }
  }

  // ---------------------------------------------------------------------
  // Sorting by bottom

  predicate SortedByBottom(s: seq<Brick>)
  {
    forall i, j :: 0 <= i < j < |s| ==> Bottom(s[i]) <= Bottom(s[j])
  }

  predicate AscendingIn(s: seq<Brick>, lo: nat, hi: nat)
    requires lo <= hi <= |s|
  {
    forall k :: lo < k < hi ==> Bottom(s[k - 1]) <= Bottom(s[k])
  }

  lemma {:induction false} AscendingSorted(s: seq<Brick>, i: nat, j: nat)
    requires AscendingIn(s, 0, |s|) && i < j < |s|
    ensures Bottom(s[i]) <= Bottom(s[j])
    decreases j - i
  {
    if i + 1 < j {
      AscendingSorted(s, i, j - 1);
    }
  }

  /** s with its entries at j - 1 and j exchanged. */
  function Swap(s: seq<Brick>, j: nat): (r: seq<Brick>)
    requires 0 < j < |s|
    ensures |r| == |s| && multiset(r) == multiset(s)
  {
    s[j - 1 := s[j]][j := s[j - 1]]
  }

  /** The insertion of entry i has reached j: the bricks before j and those
      from j to i are each in order, and the one before j is no higher
      than the one after it. */
  predicate Inserting(s: seq<Brick>, i: nat, j: nat)
    requires j <= i < |s|
  {
    AscendingIn(s, 0, j) && AscendingIn(s, j, i + 1)
    && (0 < j < i ==> Bottom(s[j - 1]) <= Bottom(s[j + 1]))
  }

  lemma {:induction false} SwapStep(s: seq<Brick>, i: nat, j: nat)
    requires 0 < j <= i < |s| && Inserting(s, i, j)
    requires Bottom(s[j - 1]) > Bottom(s[j])
    ensures Inserting(Swap(s, j), i, j - 1)
  {
    var r := Swap(s, j);
    forall k | j - 1 < k < i + 1 ensures Bottom(r[k - 1]) <= Bottom(r[k]) {
      if k == j + 1 {
        assert r[k - 1] == s[j - 1] && r[k] == s[j + 1];
      }
    }
  }

  /** One pass of the insertion sort: entry i sinks past every brick
      before it with a higher bottom. */
  method Insert(a: array<Brick>, i: nat)
    requires i < a.Length && AscendingIn(a[..], 0, i)
    modifies a
    ensures AscendingIn(a[..], 0, i + 1)
    ensures multiset(a[..]) == multiset(old(a[..]))
  {
    var j := i;
    while j > 0 && Bottom(a[j - 1]) > Bottom(a[j])
      invariant 0 <= j <= i
      invariant Inserting(a[..], i, j)
      invariant multiset(a[..]) == multiset(old(a[..]))
    {
      SwapStep(a[..], i, j);
      assert Swap(a[..], j) == a[..][j - 1 := a[j]][j := a[j - 1]];
      a[j - 1], a[j] := a[j], a[j - 1];
      j := j - 1;
    }
  }

  /** `sort_unstable_by` on the bottom z, in place. The order of bricks
      with the same bottom is left open by the source; insertion sort
      produces one of the allowed orders. */
  method SortByBottom(a: array<Brick>)
    modifies a
    ensures SortedByBottom(a[..])
    ensures multiset(a[..]) == multiset(old(a[..]))
  {
    for i := 0 to a.Length
      invariant AscendingIn(a[..], 0, i)
      invariant multiset(a[..]) == multiset(old(a[..]))
    {
      Insert(a, i);
    }
    forall i, j | 0 <= i < j < a.Length ensures Bottom(a[..][i]) <= Bottom(a[..][j]) {
      AscendingSorted(a[..], i, j);
    }
  }

  /** `land`: the snapshot sorted by bottom z, then each brick in turn
      dropped onto those before it. */
  method Land(snapshot: seq<Brick>) returns (landed: seq<Brick>, ghost sorted: seq<Brick>)
    ensures multiset(sorted) == multiset(snapshot) && SortedByBottom(sorted)
    ensures landed == Settled(sorted)
  {
    var a := new Brick[|snapshot|](i requires 0 <= i < |snapshot| => snapshot[i]);
    assert a[..] == snapshot;
    SortByBottom(a);
    sorted := a[..];
    SettleInPlace(a);
    landed := a[..];
  }

  /** The loop of `land`: each brick in turn dropped onto those before it. */
  method SettleInPlace(a: array<Brick>)
    modifies a
    ensures a[..] == Settled(old(a[..]))
  {
    ghost var sorted := a[..];
    for index := 0 to a.Length
      invariant a[..index] == Settled(sorted[..index])
      invariant a[index..] == sorted[index..]
    {
      var brick := a[index];
      var maxZ := OrZero(HighestTop(a[..index], Base(brick)));
      SettledStep(sorted, index);
      a[index] := VerticalShift(brick, maxZ + 1);
      assert a[..index + 1] == a[..index] + [a[index]];
    }
    assert sorted[..a.Length] == sorted;
  }

  // ---------------------------------------------------------------------
  // Support

  /** Brick s holds brick b up: their footprints overlap and b's bottom is
      just above s's top. */
  predicate Supports(s: Brick, b: Brick)
  {
    Overlap(Base(b), Base(s)) && Bottom(b) == Top(s) + 1
  }

  /** Every supporter lies lower than the brick it holds up. */
  ghost predicate Grounded(supp: map<Brick, set<Brick>>)
  {
    forall b, s :: b in supp && s in supp[b] ==> Bottom(s) < Bottom(b)
  }

  /** `supporting_bricks`: every brick with the bricks it rests on. */
  function SupportingBricks(bricks: seq<Brick>): map<Brick, set<Brick>>
  {
    map b | b in bricks :: set s | s in bricks && Supports(s, b)
  }

  /** A landed brick above the ground has a brick holding it up. */
  lemma {:induction false} SupportedAboveGround(sorted: seq<Brick>, j: nat)
    requires j < |sorted| && Bottom(Settled(sorted)[j]) != 1
    ensures var landed := Settled(sorted);
      SupportingBricks(landed)[landed[j]] != {}
  {
    var landed := Settled(sorted);
    var i := LandedSupported(sorted, j);
    assert landed[i] in SupportingBricks(landed)[landed[j]];
  }

  /** A supporter of a well-formed brick lies lower. */
  lemma {:induction false} SupportersBelow(bricks: seq<Brick>)
    requires AllWellFormed(bricks)
    ensures Grounded(SupportingBricks(bricks))
  {
    var supp := SupportingBricks(bricks);
    forall b, s | b in supp && s in supp[b] ensures Bottom(s) < Bottom(b) {
      var k :| 0 <= k < |bricks| && bricks[k] == s;
      assert WellFormed(bricks[k]);
    }
  }

  // ---------------------------------------------------------------------
  // Part one

  /** The bricks that are the only support of some brick. */
  function SoleSupporters(supp: map<Brick, set<Brick>>): set<Brick>
  {
    set b, s | b in supp && s in supp[b] && supp[b] == {s} :: s
  }

  /** Every sole supporter is one of the bricks, so there are no more of
      them than distinct bricks. */
  lemma {:induction false} SoleSupportersAmong(bricks: seq<Brick>)
    ensures SoleSupporters(SupportingBricks(bricks)) <= set b | b in bricks
    ensures |SoleSupporters(SupportingBricks(bricks))| <= |set b | b in bricks|
  {
    var sole := SoleSupporters(SupportingBricks(bricks));
    var all := set b | b in bricks;
    assert all == sole + (all - sole);
  }

  /** A sequence has no more distinct elements than entries. */
  lemma {:induction false} DistinctAtMost(bricks: seq<Brick>)
    ensures |set b | b in bricks| <= |bricks|
    decreases |bricks|
  {
    if bricks != [] {
      var rest := bricks[1..];
      DistinctAtMost(rest);
      assert (set b | b in bricks) == (set b | b in rest) + {bricks[0]};
    }
  }

  /** `part1`: the bricks less those that alone hold some brick up. */
  method Part1(snapshot: seq<Brick>) returns (r: nat, ghost sorted: seq<Brick>)
    ensures multiset(sorted) == multiset(snapshot) && SortedByBottom(sorted)
    ensures var landed := Settled(sorted);
      r == |landed| - |SoleSupporters(SupportingBricks(landed))|
  {
    var landed;
    landed, sorted := Land(snapshot);
    var result := SoleSupporters(SupportingBricks(landed));
    SoleSupportersAmong(landed);
    DistinctAtMost(landed);
    r := |landed| - |result|;
  }

  /** A rearrangement of well-formed bricks is well-formed. */
  lemma {:induction false} WellFormedPermutation(snapshot: seq<Brick>, sorted: seq<Brick>)
    requires AllWellFormed(snapshot) && multiset(sorted) == multiset(snapshot)
    ensures AllWellFormed(sorted)
  {
    forall i | 0 <= i < |sorted| ensures WellFormed(sorted[i]) {
      assert sorted[i] in multiset(snapshot);
      var k :| 0 <= k < |snapshot| && snapshot[k] == sorted[i];
    }
  }

  /** Well-formed bricks land well-formed and no two of them alike. */
  lemma {:induction false} LandedDistinct(sorted: seq<Brick>)
    requires AllWellFormed(sorted)
    ensures var landed := Settled(sorted);
      AllWellFormed(landed) && NoRepeats(landed)
  {
    var landed := Settled(sorted);
    forall i | 0 <= i < |landed| ensures WellFormed(landed[i]) {
      LandedRests(sorted, i);
      LandedAboveGround(sorted, i);
      assert WellFormed(sorted[i]);
    }
    forall i, j | 0 <= i < j < |landed| ensures landed[i] != landed[j] {
      if landed[i] == landed[j] {
        assert WellFormed(landed[j]);
        LandedApart(sorted, i, j);
      }
    }
  }

  /** No brick occurs twice. */
  predicate NoRepeats(bricks: seq<Brick>)
  {
    forall i, j :: 0 <= i < j < |bricks| ==> bricks[i] != bricks[j]
  }

  /** A sequence without repeats has as many distinct elements as
      entries. */
  lemma {:induction false} DistinctCount(bricks: seq<Brick>)
    requires NoRepeats(bricks)
    ensures |set b | b in bricks| == |bricks|
    decreases |bricks|
  {
    if bricks != [] {
      var rest := bricks[1..];
      DistinctCount(rest);
      assert (set b | b in bricks) == (set b | b in rest) + {bricks[0]};
      forall k | 0 <= k < |rest| ensures rest[k] != bricks[0] {
        assert rest[k] == bricks[k + 1];
      }
    }
  }

  /** For well-formed bricks, part one counts the bricks that can be taken
      away safely: those that are nobody's only support. */
  lemma {:induction false} DisintegrableCount(snapshot: seq<Brick>, sorted: seq<Brick>)
    requires AllWellFormed(snapshot) && multiset(sorted) == multiset(snapshot)
    ensures var landed := Settled(sorted);
      var sole := SoleSupporters(SupportingBricks(landed));
      |landed| - |sole| == |set b | b in landed && b !in sole|
  {
    var landed := Settled(sorted);
    var sole := SoleSupporters(SupportingBricks(landed));
    WellFormedPermutation(snapshot, sorted);
    LandedDistinct(sorted);
    DistinctCount(landed);
    SoleSupportersAmong(landed);
    var all := set b | b in landed;
    var kept := set b | b in landed && b !in sole;
    assert kept == all - sole;
    DifferenceCount(all, sole);
  }

  /** Taking a subset away leaves the difference of the sizes. */
  lemma {:induction false} DifferenceCount(all: set<Brick>, part: set<Brick>)
    requires part <= all
    ensures |all - part| == |all| - |part|
  {
    assert all == part + (all - part);
  }

  // ---------------------------------------------------------------------
  // Part two

  /** One round of the chain reaction: the bricks not yet removed that had
      some support and have lost all of it. */
  function FallRound(supp: map<Brick, set<Brick>>, removed: set<Brick>): (r: set<Brick>)
    ensures r <= supp.Keys && r !! removed
    ensures forall b :: b in r <==> b in supp && b !in removed && supp[b] != {} && supp[b] <= removed
  {
    set b | b in supp && b !in removed && supp[b] != {} && supp[b] <= removed
  }

  /** Adding bricks that were missing shrinks the part of the key set not
      yet covered. */
  lemma {:induction false} CoverGrows(keys: set<Brick>, removed: set<Brick>, more: set<Brick>)
    requires more != {} && more <= keys && more !! removed
    ensures |keys - (removed + more)| < |keys - removed|
  {
    var rest := keys - (removed + more);
    assert keys - removed == rest + more;
    assert rest !! more;
  }

  /** Every brick that falls once `removed` is gone: rounds are repeated
      until none adds anything. */
  function Fallen(supp: map<Brick, set<Brick>>, removed: set<Brick>): (r: set<Brick>)
    ensures removed <= r
    ensures FallRound(supp, r) == {}
    ensures forall b :: b in r - removed ==> b in supp && supp[b] != {} && supp[b] <= r
    decreases |supp.Keys - removed|
  {
    var more := FallRound(supp, removed);
    if more == {} then removed
    else
      CoverGrows(supp.Keys, removed, more);
      Fallen(supp, removed + more)
  }

  /** A set containing `removed` in which every brick whose support is all
      gone is gone as well. */
  ghost predicate Collapsed(supp: map<Brick, set<Brick>>, removed: set<Brick>, s: set<Brick>)
  {
    removed <= s && forall b :: b in supp && supp[b] != {} && supp[b] <= s ==> b in s
  }

  /** The chain reaction removes exactly the least collapsed set: every
      collapsed set contains it. */
  lemma {:induction false} FallenLeast(supp: map<Brick, set<Brick>>, removed: set<Brick>, s: set<Brick>)
    requires Collapsed(supp, removed, s)
    ensures Fallen(supp, removed) <= s
    decreases |supp.Keys - removed|
  {
    var more := FallRound(supp, removed);
    if more != {} {
      forall b | b in more ensures b in s {
        assert supp[b] <= removed;
      }
      CoverGrows(supp.Keys, removed, more);
      FallenLeast(supp, removed + more, s);
    }
  }

  /** The result of the chain reaction is itself collapsed. */
  lemma {:induction false} FallenCollapsed(supp: map<Brick, set<Brick>>, removed: set<Brick>)
    ensures Collapsed(supp, removed, Fallen(supp, removed))
  {
    var r := Fallen(supp, removed);
    forall b | b in supp && supp[b] != {} && supp[b] <= r ensures b in r {
      assert b !in FallRound(supp, r);
    }
  }

  /** The bricks that fall, not counting itself, when one brick is taken
      away. */
  function OthersFalling(supp: map<Brick, set<Brick>>, brick: Brick): nat
  {
    |Fallen(supp, {brick})| - 1
  }

  /** The falls added up over a list of bricks. */
  function TotalFalling(supp: map<Brick, set<Brick>>, bricks: seq<Brick>): nat
  {
    if bricks == [] then 0 else OthersFalling(supp, bricks[0]) + TotalFalling(supp, bricks[1..])
  }

  /** The inner `loop` of `part2`: rounds of the chain reaction set off by
      removing one brick, each adding the bricks it removes to the count. */
  method ChainReaction(supp: map<Brick, set<Brick>>, brick: Brick) returns (count: nat, removed: set<Brick>)
    ensures removed == Fallen(supp, {brick})
    ensures count == |removed| - 1
  {
    removed := {brick};
    count := 0;
    while true
      invariant brick in removed && count == |removed| - 1
      invariant Fallen(supp, removed) == Fallen(supp, {brick})
      decreases |supp.Keys - removed|
    {
      var newRemoved := FallRound(supp, removed);
      if newRemoved != {} {
        CoverGrows(supp.Keys, removed, newRemoved);
        count := count + |newRemoved|;
        removed := removed + newRemoved;
      } else {
        break;
      }
    }
  }

  /** `part2`: for every landed brick, from the last to the first, the
      number of other bricks that fall if it alone is taken away, all
      added up. */
  method Part2(snapshot: seq<Brick>) returns (r: nat, ghost sorted: seq<Brick>)
    ensures multiset(sorted) == multiset(snapshot) && SortedByBottom(sorted)
    ensures var landed := Settled(sorted);
      r == TotalFalling(SupportingBricks(landed), landed)
  {
    var landed;
    landed, sorted := Land(snapshot);
    var supp := SupportingBricks(landed);
    r := 0;
    var index := |landed|;
    while index > 0
      invariant 0 <= index <= |landed|
      invariant r == TotalFalling(supp, landed[index..])
    {
      index := index - 1;
      var count, _ := ChainReaction(supp, landed[index]);
      assert landed[index..][1..] == landed[index + 1..];
      r := r + count;
    }
  }
}
