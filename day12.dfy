/** Day 12, "Hot Springs": the number of ways the unknown springs of a
    condition record can be filled in so that the damaged springs form the
    listed contiguous groups. */
module Day12 {
  import opened Common

  datatype Condition = Operational | Damaged | Unknown

  // ---------------------------------------------------------------------
  // The count as plain recursion

  /** The number of arrangements: with no group left the rest must hold no
      damaged spring; otherwise the first group is tried at every offset. */
  function Arrangements(conditions: seq<Condition>, groups: seq<nat>): nat
    decreases |groups|, 1, 0
  {
    if groups == [] then (if Damaged in conditions then 0 else 1)
    else Offsets(conditions, groups, 0)
  }

  /** The arrangements with the first group placed at `offset` or later.
      Placing stops at the first offset past a damaged spring (a damaged
      spring cannot be skipped) or where the group runs off the end; an
      offset is skipped when the group would cover an operational spring, or,
      when more groups follow, when the cell after it is damaged. */
  function Offsets(conditions: seq<Condition>, groups: seq<nat>, offset: nat): nat
    requires groups != []
    decreases |groups|, 0, |conditions| - offset
  {
    if offset >= |conditions| then 0
    else if Damaged in conditions[..offset] || offset + groups[0] > |conditions| then 0
    else if Operational in conditions[offset..offset + groups[0]] then Offsets(conditions, groups, offset + 1)
    else if |groups| == 1 then
      if offset + groups[0] == |conditions| then 1
      else Arrangements(conditions[offset + groups[0]..], []) + Offsets(conditions, groups, offset + 1)
    else if offset + groups[0] + 1 > |conditions| then 0
    else if conditions[offset + groups[0]] == Damaged then Offsets(conditions, groups, offset + 1)
    else Arrangements(conditions[offset + groups[0] + 1..], groups[1..]) + Offsets(conditions, groups, offset + 1)
  }

  // ---------------------------------------------------------------------
  // Reference: a record with no unknown spring has exactly one arrangement
  // when its damaged runs are the groups, and none otherwise

  /** The number of springs at the front of `c` in condition `x`. */
  function Leading(c: seq<Condition>, x: Condition): (k: nat)
    ensures k <= |c|
    ensures forall i :: 0 <= i < k ==> c[i] == x
    ensures k == |c| || c[k] != x
  {
    if c == [] || c[0] != x then 0 else 1 + Leading(c[1..], x)
  }

  /** The lengths of the maximal runs of damaged springs, left to right. */
  function Runs(c: seq<Condition>): seq<nat>
    decreases |c|
  {
    if c == [] then []
    else if c[0] != Damaged then Runs(c[1..])
    else var k := Leading(c, Damaged); [k] + Runs(c[k..])
  }

  /** A record has no damaged run exactly when it has no damaged spring. */
  lemma {:induction false} RunsNone(c: seq<Condition>)
    ensures Runs(c) == [] <==> Damaged !in c
    decreases |c|
  {
    if c != [] && c[0] != Damaged {
      RunsNone(c[1..]);
      assert c == [c[0]] + c[1..];
    }
  }

  /** Springs that are not damaged in front of a record add no run. */
  lemma {:induction false} RunsSkip(c: seq<Condition>, p: nat)
    requires p <= |c| && Damaged !in c[..p]
    ensures Runs(c) == Runs(c[p..])
    decreases p
  {
    if p > 0 {
      assert c[..p - 1] == c[..p][..p - 1];
      RunsSkip(c, p - 1);
      assert c[p - 1] == c[..p][p - 1];
      assert c[p - 1..][1..] == c[p..];
    }
  }

  /** The run starting at a damaged spring is the first run of that suffix. */
  lemma {:induction false} RunsAt(c: seq<Condition>, p: nat)
    requires p < |c| && c[p] == Damaged
    ensures var k := Leading(c[p..], Damaged);
      Runs(c[p..]) == [k] + Runs(c[p + k..])
  {
    var k := Leading(c[p..], Damaged);
    assert c[p..][k..] == c[p + k..];
  }

  /** Offsets before the first damaged spring all cover an operational
      spring, so the count is that of the first damaged spring's offset. */
  lemma {:induction false} OffsetsLeading(c: seq<Condition>, groups: seq<nat>, offset: nat, p: nat)
    requires groups != [] && groups[0] >= 1
    requires offset <= p <= |c| && forall i :: 0 <= i < p ==> c[i] == Operational
    ensures Offsets(c, groups, offset) == Offsets(c, groups, p)
    decreases p - offset
  {
    if offset < p {
      assert Damaged !in c[..offset];
      if offset + groups[0] <= |c| {
        assert c[offset..offset + groups[0]][0] == Operational;
        OffsetsLeading(c, groups, offset + 1, p);
      }
    }
  }

  /** With no unknown spring and no empty group, the count is one when the
      damaged runs are the groups and zero otherwise. */
  lemma {:induction false} ArrangementsOfKnown(c: seq<Condition>, groups: seq<nat>)
    requires Unknown !in c
    requires forall i :: 0 <= i < |groups| ==> groups[i] >= 1
    ensures Arrangements(c, groups) == if Runs(c) == groups then 1 else 0
    decreases |groups|, 2
  {
    if groups == [] {
      RunsNone(c);
    } else {
      var p := Leading(c, Operational);
      OffsetsLeading(c, groups, 0, p);
      assert Damaged !in c[..p];
      RunsSkip(c, p);
      if p < |c| {
        assert c[p] != Unknown;
        RunsAt(c, p);
        if p + 1 < |c| {
          assert c[..p + 1][p] == Damaged;
        }
        OffsetsAtRun(c, groups, p);
      }
    }
  }

  /** The last group placed at a damaged run of length `k` at least as long. */
  lemma {:induction false} OffsetsLastGroup(c: seq<Condition>, groups: seq<nat>, p: nat, k: nat)
    requires |groups| == 1 && p < |c| && p + groups[0] <= |c| && Offsets(c, groups, p + 1) == 0
    requires Damaged !in c[..p] && Operational !in c[p..p + groups[0]]
    requires k == Leading(c[p..], Damaged) && k >= groups[0]
    ensures Offsets(c, groups, p) == if [k] + Runs(c[p + k..]) == groups then 1 else 0
  {
    var g := groups[0];
    var end := p + g;
    if end == |c| {
      assert k == g && c[p + k..] == [];
      assert Runs(c[p + k..]) == [];
    } else {
      assert Offsets(c, groups, p) == Arrangements(c[end..], []);
      if k > g {
        assert c[p..][g] == Damaged;
        assert c[end..][0] == Damaged;
        assert Arrangements(c[end..], []) == 0;
        assert ([k] + Runs(c[p + k..]))[0] != groups[0];
      } else {
        assert c[p + k..] == c[end..];
        RunsNone(c[end..]);
        assert [k] + Runs(c[end..]) == groups <==> Runs(c[end..]) == [];
      }
    }
  }

  /** The case of `ArrangementsOfKnown` where the first damaged spring is at
      `p`. */
  lemma {:induction false} OffsetsAtRun(c: seq<Condition>, groups: seq<nat>, p: nat)
    requires Unknown !in c
    requires forall i :: 0 <= i < |groups| ==> groups[i] >= 1
    requires groups != [] && p < |c| && c[p] == Damaged && Damaged !in c[..p]
    requires Offsets(c, groups, p + 1) == 0
    ensures var k := Leading(c[p..], Damaged);
      Offsets(c, groups, p) == if [k] + Runs(c[p + k..]) == groups then 1 else 0
    decreases |groups|, 1
  {
    var d := c[p..];
    var k := Leading(d, Damaged);
    var g := groups[0];
    var end := p + g;
    if end > |c| {
      assert k != g;
    } else if Operational in c[p..end] {
      var i :| 0 <= i < g && c[p..end][i] == Operational;
      assert d[i] == Operational;
      assert k != g;
    } else {
      forall i | 0 <= i < g ensures d[i] == Damaged {
        assert d[i] == c[p..end][i];
      }
      assert k >= g;
      if |groups| == 1 {
        OffsetsLastGroup(c, groups, p, k);
      } else if end + 1 > |c| {
        assert k == g;
        assert c[p + k..] == [];
      } else if c[end] == Damaged {
        assert d[g] == Damaged;
        assert k != g;
      } else {
        assert d[g] != Damaged;
        OffsetsNextGroup(c, groups, p);
      }
    }
  }

  /** A group that is not the last placed at a damaged run of its own length
      followed by an operational spring: the count is that of the rest. */
  lemma {:induction false} OffsetsNextGroup(c: seq<Condition>, groups: seq<nat>, p: nat)
    requires Unknown !in c
    requires forall i :: 0 <= i < |groups| ==> groups[i] >= 1
    requires |groups| > 1 && p + groups[0] < |c| && c[p + groups[0]] == Operational
    requires Damaged !in c[..p] && Operational !in c[p..p + groups[0]]
    requires Leading(c[p..], Damaged) == groups[0] && Offsets(c, groups, p + 1) == 0
    ensures Offsets(c, groups, p) == if [groups[0]] + Runs(c[p + groups[0]..]) == groups then 1 else 0
    decreases |groups|, 0
  {
    var g := groups[0];
    var end := p + g;
    assert c[end..][..1] == [c[end]];
    RunsSkip(c[end..], 1);
    assert c[end..][1..] == c[end + 1..];
    assert forall i :: 0 <= i < |groups[1..]| ==> groups[1..][i] == groups[i + 1];
    var rest := c[end + 1..];
    assert forall i :: 0 <= i < |rest| ==> rest[i] == c[end + 1 + i];
    ArrangementsOfKnown(rest, groups[1..]);
    assert groups == [g] + groups[1..];
  }

  // ---------------------------------------------------------------------
  // The memoised count

  /** The cache key of a call: the lengths of the two remaining lists. */
  type Key = (nat, nat)

  /** `s` is what is left of `whole` after some prefix. */
  predicate IsSuffix<T(==)>(s: seq<T>, whole: seq<T>)
  {
    |s| <= |whole| && s == whole[|whole| - |s|..]
  }

  /** Every cached count is the count of the suffixes of the original record
      whose lengths form its key. */
  ghost predicate CacheValid(cache: map<Key, nat>, conditions: seq<Condition>, groups: seq<nat>)
  {
    forall key :: key in cache ==>
      key.0 <= |conditions| && key.1 <= |groups|
      && cache[key] == Arrangements(conditions[|conditions| - key.0..], groups[|groups| - key.1..])
  }

  lemma {:induction false} SuffixOfSuffix<T>(s: seq<T>, whole: seq<T>, k: nat)
    requires IsSuffix(s, whole) && k <= |s|
    ensures IsSuffix(s[k..], whole)
  {
    assert s[k..] == whole[|whole| - |s| + k..];
  }

  /** A count stored under the key of a suffix pair keeps the cache valid. */
  lemma {:induction false} CacheStore(cache: map<Key, nat>, whole: seq<Condition>, wholeGroups: seq<nat>,
                                      conditions: seq<Condition>, groups: seq<nat>)
    requires CacheValid(cache, whole, wholeGroups)
    requires IsSuffix(conditions, whole) && IsSuffix(groups, wholeGroups)
    ensures CacheValid(cache[(|conditions|, |groups|) := Arrangements(conditions, groups)], whole, wholeGroups)
  {
  }

  /** `arrangements_count_cache`: because every call works on suffixes of
      one record, the pair of lengths identifies the call, and the memoised
      count equals the plain recursion. */
  method ArrangementsCountCache(ghost whole: seq<Condition>, ghost wholeGroups: seq<nat>,
                                conditions: seq<Condition>, groups: seq<nat>, cache: map<Key, nat>)
    returns (count: nat, cache': map<Key, nat>)
    requires IsSuffix(conditions, whole) && IsSuffix(groups, wholeGroups)
    requires CacheValid(cache, whole, wholeGroups)
    ensures count == Arrangements(conditions, groups)
    ensures CacheValid(cache', whole, wholeGroups)
    decreases |groups|, 2
  {
    var key := (|conditions|, |groups|);
    if key in cache {
      return cache[key], cache;
    }
    count := 0;
    cache' := cache;
    if groups == [] {
      count := if Damaged in conditions then 0 else 1;
      CacheStore(cache', whole, wholeGroups, conditions, groups);
      cache' := cache'[key := count];
      return;
    }
    var offset := 0;
    while offset < |conditions|
      invariant offset <= |conditions|
      invariant count + Offsets(conditions, groups, offset) == Arrangements(conditions, groups)
      invariant CacheValid(cache', whole, wholeGroups)
      decreases |conditions| - offset
    {
      var add, stop;
      add, stop, cache' := PlaceGroup(whole, wholeGroups, conditions, groups, offset, cache');
      count := count + add;
      if stop {
        break;
      }
      offset := offset + 1;
    }
    CacheStore(cache', whole, wholeGroups, conditions, groups);
    cache' := cache'[key := count];
  }

  /** One pass of the offset loop of `arrangements_count_cache`: the count
      added for the first group at `offset`, and whether the loop stops
      there. */
  method PlaceGroup(ghost whole: seq<Condition>, ghost wholeGroups: seq<nat>,
                    conditions: seq<Condition>, groups: seq<nat>, offset: nat, cache: map<Key, nat>)
    returns (add: nat, stop: bool, cache': map<Key, nat>)
    requires groups != [] && offset < |conditions|
    requires IsSuffix(conditions, whole) && IsSuffix(groups, wholeGroups)
    requires CacheValid(cache, whole, wholeGroups)
    ensures stop ==> add == Offsets(conditions, groups, offset)
    ensures !stop ==> add + Offsets(conditions, groups, offset + 1) == Offsets(conditions, groups, offset)
    ensures CacheValid(cache', whole, wholeGroups)
    decreases |groups|, 1
  {
    add, stop, cache' := 0, false, cache;
    var end := offset + groups[0];
    if Damaged in conditions[..offset] || end > |conditions| {
      stop := true;
    } else if Operational !in conditions[offset..end] {
      if |groups| == 1 {
        if end == |conditions| {
          add, stop := 1, true;
        } else {
          SuffixOfSuffix(conditions, whole, end);
          assert IsSuffix([], wholeGroups);
          add, cache' := ArrangementsCountCache(whole, wholeGroups, conditions[end..], [], cache);
        }
      } else {
        add, stop, cache' := PlaceNextGroup(whole, wholeGroups, conditions, groups, offset, cache);
      }
    }
  }

  /** The pass of `PlaceGroup` for a group that is not the last one, placed
      where it covers no operational spring: the cell after it must exist
      and not be damaged, and the count continues after that cell. */
  method PlaceNextGroup(ghost whole: seq<Condition>, ghost wholeGroups: seq<nat>,
                        conditions: seq<Condition>, groups: seq<nat>, offset: nat, cache: map<Key, nat>)
    returns (add: nat, stop: bool, cache': map<Key, nat>)
    requires |groups| > 1 && offset + groups[0] <= |conditions|
    requires Damaged !in conditions[..offset] && Operational !in conditions[offset..offset + groups[0]]
    requires IsSuffix(conditions, whole) && IsSuffix(groups, wholeGroups)
    requires CacheValid(cache, whole, wholeGroups)
    ensures stop ==> add == Offsets(conditions, groups, offset)
    ensures !stop ==> add + Offsets(conditions, groups, offset + 1) == Offsets(conditions, groups, offset)
    ensures CacheValid(cache', whole, wholeGroups)
    decreases |groups|, 0
  {
    add, stop, cache' := 0, false, cache;
    var end := offset + groups[0];
    if end + 1 > |conditions| {
      stop := true;
    } else if conditions[end] != Damaged {
      assert Offsets(conditions, groups, offset)
        == Arrangements(conditions[end + 1..], groups[1..]) + Offsets(conditions, groups, offset + 1);
      SuffixOfSuffix(conditions, whole, end + 1);
      SuffixOfSuffix(groups, wholeGroups, 1);
      add, cache' := ArrangementsCountCache(whole, wholeGroups, conditions[end + 1..], groups[1..], cache);
    }
  }

  /** `arrangements_count`: the memoised count from an empty cache. */
  method ArrangementsCount(conditions: seq<Condition>, groups: seq<nat>) returns (count: nat)
    ensures count == Arrangements(conditions, groups)
  {
    assert conditions == conditions[|conditions| - |conditions|..];
    assert groups == groups[|groups| - |groups|..];
    var cache;
    count, cache := ArrangementsCountCache(conditions, groups, conditions, groups, map[]);
  }

  // ---------------------------------------------------------------------
  // The puzzle

  /** The total count over all records. */
  function TotalArrangements(records: seq<(seq<Condition>, seq<nat>)>): nat
  {
    if records == [] then 0
    else TotalArrangements(records[..|records| - 1]) + Arrangements(records[|records| - 1].0, records[|records| - 1].1)
  }

  /** Part one: the sum of the counts of the records. */
  method Part1(records: seq<(seq<Condition>, seq<nat>)>) returns (total: nat)
    ensures total == TotalArrangements(records)
  {
    total := 0;
    var i := 0;
    while i < |records|
      invariant i <= |records| && total == TotalArrangements(records[..i])
    {
      var count := ArrangementsCount(records[i].0, records[i].1);
      assert records[..i + 1][..i] == records[..i];
      total := total + count;
      i := i + 1;
    }
    assert records[..i] == records;
  }

  /** `copies` copies of the conditions, joined by unknown springs. */
  function Unfold(conditions: seq<Condition>, copies: nat): seq<Condition>
    requires copies >= 1
  {
    if copies == 1 then conditions else conditions + [Unknown] + Unfold(conditions, copies - 1)
  }

  /** `copies` copies of the groups, one after the other. */
  function Repeat(groups: seq<nat>, copies: nat): seq<nat>
  {
    if copies == 0 then [] else groups + Repeat(groups, copies - 1)
  }

  /** Cell `j` of `r` holds what period n + 1 of the conditions puts there:
      the condition at `j % (n + 1)`, or an unknown spring in the last place. */
  predicate LaidOut(conditions: seq<Condition>, r: seq<Condition>, j: nat)
    requires j < |r|
  {
    var m := j % (|conditions| + 1);
    r[j] == if m == |conditions| then Unknown else conditions[m]
  }

  /** The unfolded record repeats the conditions with period n + 1, an
      unknown spring in the last place of each period. */
  lemma {:induction false} UnfoldLayout(conditions: seq<Condition>, copies: nat)
    requires copies >= 1
    ensures var r := Unfold(conditions, copies);
      && |r| + 1 == copies * (|conditions| + 1)
      && forall j :: 0 <= j < |r| ==> LaidOut(conditions, r, j)
  {
    var n := |conditions|;
    var r := Unfold(conditions, copies);
    if copies == 1 {
      forall j | 0 <= j < |r| ensures LaidOut(conditions, r, j) {
        ModBelow(j, n + 1);
      }
    } else {
      var rest := Unfold(conditions, copies - 1);
      UnfoldLayout(conditions, copies - 1);
      MulSucc(copies - 1, n + 1);
      assert r == conditions + [Unknown] + rest;
      forall j | 0 <= j < |r| ensures LaidOut(conditions, r, j) {
        if j <= n {
          ModBelow(j, n + 1);
        } else {
          var k := j - (n + 1);
          assert LaidOut(conditions, rest, k);
          ModShift(k, n + 1);
          assert r[j] == rest[k];
        }
      }
    }
  }

  /** The repeated groups repeat the groups with period m. */
  lemma {:induction false} RepeatLayout(groups: seq<nat>, copies: nat)
    ensures var r := Repeat(groups, copies);
      && |r| == copies * |groups|
      && forall j :: 0 <= j < |r| ==> r[j] == groups[j % |groups|]
  {
    var m := |groups|;
    var r := Repeat(groups, copies);
    if copies > 0 {
      RepeatLayout(groups, copies - 1);
      var rest := Repeat(groups, copies - 1);
      MulSucc(copies - 1, m);
      forall j | 0 <= j < |r| ensures r[j] == groups[j % m] {
        if j < m {
          ModBelow(j, m);
        } else {
          ModShift(j - m, m);
          assert r[j] == rest[j - m];
        }
      }
    }
  }

  /** The total count over all records unfolded five times. */
  function TotalUnfolded(records: seq<(seq<Condition>, seq<nat>)>): nat
  {
    if records == [] then 0
    else
      var (conditions, groups) := records[|records| - 1];
      TotalUnfolded(records[..|records| - 1]) + Arrangements(Unfold(conditions, 5), Repeat(groups, 5))
  }

  /** Part two: the sum of the counts of the records unfolded five times. */
  method Part2(records: seq<(seq<Condition>, seq<nat>)>) returns (total: nat)
    ensures total == TotalUnfolded(records)
  {
    total := 0;
    var i := 0;
    while i < |records|
      invariant i <= |records| && total == TotalUnfolded(records[..i])
    {
      var (conditions, groups) := records[i];
      var count := ArrangementsCount(Unfold(conditions, 5), Repeat(groups, 5));
      assert records[..i + 1][..i] == records[..i];
      total := total + count;
      i := i + 1;
    }
    assert records[..i] == records;
  }
}
