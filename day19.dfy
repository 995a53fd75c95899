/** Day 19, "Aplenty": workflows of rules send each part, rated in four
    categories, to another workflow or to a verdict. Part one adds up the
    ratings of the accepted parts; part two counts the accepted rating
    combinations by splitting ranges of ratings along the rules. */
module Day19 {
  import opened Common

  datatype Verdict = Accepted | Rejected

  datatype Destination = Decision(verdict: Verdict) | NextWorkflow(name: string)

  datatype Category = ExtremelyCoolLooking | Musical | Aerodynamic | Shiny

  /** One value per category, like the source's four-element arrays. */
  datatype Quad<T> = Quad(x: T, m: T, a: T, s: T) {
    function Get(c: Category): T
    {
      match c
      case ExtremelyCoolLooking => x
      case Musical => m
      case Aerodynamic => a
      case Shiny => s
    }

    /** The same values with the one of category `c` replaced. */
    function With(c: Category, v: T): (r: Quad<T>)
      ensures r.Get(c) == v
      ensures forall d :: d != c ==> r.Get(d) == Get(d)
    {
      match c
      case ExtremelyCoolLooking => this.(x := v)
      case Musical => this.(m := v)
      case Aerodynamic => this.(a := v)
      case Shiny => this.(s := v)
    }
  }

  /** A rule: a comparison of one rating with a value, or none. */
  datatype Rule =
    | Conditional(category: Category, ordering: Ordering, value: nat, destination: Destination)
    | NonConditional(destination: Destination)

  type Workflows = map<string, seq<Rule>>

  type Part = Quad<nat>

  const StartingWorkflow: string := "in"

  /** Each workflow names only existing workflows, each of a lower rank;
      the ranks make every walk through the workflows finish. The source
      panics on a missing workflow and runs forever on a cycle. */
  ghost predicate Ranked(workflows: Workflows, rank: map<string, nat>)
  {
    && StartingWorkflow in workflows
    && forall w :: w in workflows ==>
         && w in rank
         && forall i :: 0 <= i < |workflows[w]| && workflows[w][i].destination.NextWorkflow? ==>
              workflows[w][i].destination.name in workflows
              && workflows[w][i].destination.name in rank
              && rank[workflows[w][i].destination.name] < rank[w]
  }

  // ---------------------------------------------------------------------
  // Part one: one part at a time

  /** Where the rule sends the part, if it applies. */
  function Matches(rule: Rule, part: Part): (r: Option<Destination>)
    ensures rule.NonConditional? ==> r == Some(rule.destination)
    ensures rule.Conditional? ==>
      (r.Some? <==> Cmp(part.Get(rule.category), rule.value) == rule.ordering)
      && (r.Some? ==> r.value == rule.destination)
  {
    match rule
    case Conditional(category, ordering, value, destination) =>
      if Cmp(part.Get(category), value) == ordering then Some(destination) else None
    case NonConditional(destination) => Some(destination)
  }

  /** The destination of the first rule that applies. */
  function FirstMatch(rules: seq<Rule>, part: Part): Option<Destination>
  {
    if rules == [] then None
    else if Matches(rules[0], part).Some? then Matches(rules[0], part)
    else FirstMatch(rules[1..], part)
  }

  /** The first match is the destination of an applying rule with no
      applying rule before it; there is none exactly when no rule applies. */
  lemma {:induction false} FirstMatchFirst(rules: seq<Rule>, part: Part)
    ensures FirstMatch(rules, part).None? <==> forall i :: 0 <= i < |rules| ==> Matches(rules[i], part).None?
    ensures FirstMatch(rules, part).Some? ==>
      exists i :: 0 <= i < |rules| && Matches(rules[i], part) == FirstMatch(rules, part)
        && forall j :: 0 <= j < i ==> Matches(rules[j], part).None?
  {
    if rules != [] {
      FirstMatchFirst(rules[1..], part);
      if Matches(rules[0], part).None? && FirstMatch(rules, part).Some? {
        var i :| 0 <= i < |rules[1..]| && Matches(rules[1..][i], part) == FirstMatch(rules, part)
          && forall j :: 0 <= j < i ==> Matches(rules[1..][j], part).None?;
        assert Matches(rules[i + 1], part) == FirstMatch(rules, part);
        forall j | 0 <= j < i + 1 ensures Matches(rules[j], part).None? {
          if j > 0 {
            assert rules[j] == rules[1..][j - 1];
          }
        }
      }
      if FirstMatch(rules, part).None? {
        forall i | 0 <= i < |rules| ensures Matches(rules[i], part).None? {
          if i > 0 {
            assert rules[i] == rules[1..][i - 1];
          }
        }
      }
    }
  }

  /** The rule loop of `part1`: the first applying rule decides. */
  method ApplyRules(rules: seq<Rule>, part: Part) returns (r: Option<Destination>)
    ensures r == FirstMatch(rules, part)
  {
    var i := 0;
    while i < |rules|
      invariant i <= |rules| && FirstMatch(rules[i..], part) == FirstMatch(rules, part)
    {
      assert rules[i..][1..] == rules[i + 1..];
      var destination := Matches(rules[i], part);
      if destination.Some? {
        return destination;
      }
      i := i + 1;
    }
    return None;
  }

  /** The verdict on a part from workflow `name` on; none when no rule of a
      workflow applies, where the source would run forever. */
  ghost function Walk(workflows: Workflows, rank: map<string, nat>, part: Part, name: string): Option<Verdict>
    requires Ranked(workflows, rank) && name in workflows
    decreases rank[name]
  {
    match FirstMatch(workflows[name], part)
    case None => None
    case Some(Decision(verdict)) => Some(verdict)
    case Some(NextWorkflow(next)) =>
      FirstMatchFirst(workflows[name], part);
      Walk(workflows, rank, part, next)
  }

  /** The workflow loop of `part1` for one part. */
  method Rate(workflows: Workflows, ghost rank: map<string, nat>, part: Part) returns (r: Option<Verdict>)
    requires Ranked(workflows, rank)
    ensures r == Walk(workflows, rank, part, StartingWorkflow)
  {
    var name := StartingWorkflow;
    while true
      invariant name in workflows && Walk(workflows, rank, part, name) == Walk(workflows, rank, part, StartingWorkflow)
      decreases rank[name]
    {
      var destination := ApplyRules(workflows[name], part);
      FirstMatchFirst(workflows[name], part);
      match destination {
        case None => return None;
        case Some(Decision(verdict)) => return Some(verdict);
        case Some(NextWorkflow(next)) => name := next;
      }
    }
  }

  function RatingSum(part: Part): nat
  {
    part.x + part.m + part.a + part.s
  }

  /** The total rating of the accepted parts; none when some part gets no
      verdict. */
  ghost function TotalRating(workflows: Workflows, rank: map<string, nat>, parts: seq<Part>): Option<nat>
    requires Ranked(workflows, rank)
  {
    if parts == [] then Some(0)
    else
      match TotalRating(workflows, rank, parts[..|parts| - 1])
      case None => None
      case Some(total) =>
        match Walk(workflows, rank, parts[|parts| - 1], StartingWorkflow)
        case None => None
        case Some(Accepted) => Some(total + RatingSum(parts[|parts| - 1]))
        case Some(Rejected) => Some(total)
  }

  /** A part counts with all four ratings exactly when it is accepted: the
      total is the sum of the ratings of the accepted parts. */
  lemma {:induction false} TotalRatingAccepted(workflows: Workflows, rank: map<string, nat>, parts: seq<Part>, accepted: seq<Part>)
    requires Ranked(workflows, rank)
    requires TotalRating(workflows, rank, parts).Some?
    requires accepted == AcceptedParts(workflows, rank, parts)
    ensures TotalRating(workflows, rank, parts).value == SumRatings(accepted)
  {
    if parts != [] {
      var front := parts[..|parts| - 1];
      TotalRatingAccepted(workflows, rank, front, AcceptedParts(workflows, rank, front));
      var last := parts[|parts| - 1];
      if Walk(workflows, rank, last, StartingWorkflow) == Some(Accepted) {
        SumRatingsAppend(AcceptedParts(workflows, rank, front), last);
      }
    }
  }

  /** The accepted parts, in order. */
  ghost function AcceptedParts(workflows: Workflows, rank: map<string, nat>, parts: seq<Part>): seq<Part>
    requires Ranked(workflows, rank)
  {
    if parts == [] then []
    else
      var front := AcceptedParts(workflows, rank, parts[..|parts| - 1]);
      if Walk(workflows, rank, parts[|parts| - 1], StartingWorkflow) == Some(Accepted) then front + [parts[|parts| - 1]]
      else front
  }

  function SumRatings(parts: seq<Part>): nat
  {
    if parts == [] then 0 else RatingSum(parts[0]) + SumRatings(parts[1..])
  }

  lemma {:induction false} SumRatingsAppend(parts: seq<Part>, part: Part)
    ensures SumRatings(parts + [part]) == SumRatings(parts) + RatingSum(part)
  {
    if parts != [] {
      assert (parts + [part])[1..] == parts[1..] + [part];
      SumRatingsAppend(parts[1..], part);
    }
  }

  /** `part1`: the total rating of the accepted parts. */
  method Part1(workflows: Workflows, ghost rank: map<string, nat>, parts: seq<Part>) returns (r: Option<nat>)
    requires Ranked(workflows, rank)
    ensures r == TotalRating(workflows, rank, parts)
  {
    var totalRating := 0;
    var i := 0;
    while i < |parts|
      invariant i <= |parts| && TotalRating(workflows, rank, parts[..i]) == Some(totalRating)
    {
      assert parts[..i + 1][..i] == parts[..i];
      var verdict := Rate(workflows, rank, parts[i]);
      match verdict {
        case None =>
          NoVerdictStays(workflows, rank, parts, i + 1);
          return None;
        case Some(Accepted) => totalRating := totalRating + RatingSum(parts[i]);
        case Some(Rejected) =>
      }
      i := i + 1;
    }
    assert parts[..i] == parts;
    return Some(totalRating);
  }

  /** A part without a verdict leaves the whole total without one. */
  lemma {:induction false} NoVerdictStays(workflows: Workflows, rank: map<string, nat>, parts: seq<Part>, n: nat)
    requires Ranked(workflows, rank) && n <= |parts| && TotalRating(workflows, rank, parts[..n]).None?
    ensures TotalRating(workflows, rank, parts).None?
    decreases |parts| - n
  {
    if n < |parts| {
      assert parts[..n + 1][..n] == parts[..n];
      NoVerdictStays(workflows, rank, parts, n + 1);
    } else {
      assert parts[..n] == parts;
    }
  }

  // ---------------------------------------------------------------------
  // Part two: ranges of ratings

  /** An inclusive range of ratings. */
  type Range = (int, int)

  type RatingRanges = Quad<Range>

  /** The number of ratings in a range. */
  function Count(range: Range): nat
  {
    if range.0 <= range.1 then range.1 - range.0 + 1 else 0
  }

  /** `combinations_count`: the number of rating combinations in the
      ranges, the product of their sizes. */
  function Combinations(ranges: RatingRanges): (r: nat)
    ensures r == 0 <==> exists c :: ranges.Get(c).0 > ranges.Get(c).1
  {
    var r := Count(ranges.x) * Count(ranges.m) * Count(ranges.a) * Count(ranges.s);
    assert ranges.x.0 > ranges.x.1 ==> ranges.Get(ExtremelyCoolLooking).0 > ranges.Get(ExtremelyCoolLooking).1;
    assert ranges.m.0 > ranges.m.1 ==> ranges.Get(Musical).0 > ranges.Get(Musical).1;
    assert ranges.a.0 > ranges.a.1 ==> ranges.Get(Aerodynamic).0 > ranges.Get(Aerodynamic).1;
    assert ranges.s.0 > ranges.s.1 ==> ranges.Get(Shiny).0 > ranges.Get(Shiny).1;
    r
  }

  /** The product of the sizes of the other three ranges. */
  function Others(ranges: RatingRanges, c: Category): nat
  {
    match c
    case ExtremelyCoolLooking => Count(ranges.m) * Count(ranges.a) * Count(ranges.s)
    case Musical => Count(ranges.x) * Count(ranges.a) * Count(ranges.s)
    case Aerodynamic => Count(ranges.x) * Count(ranges.m) * Count(ranges.s)
    case Shiny => Count(ranges.x) * Count(ranges.m) * Count(ranges.a)
  }

  /** The combinations factor through any one category. */
  lemma {:induction false} CombinationsFactor(ranges: RatingRanges, c: Category)
    ensures Combinations(ranges) == Count(ranges.Get(c)) * Others(ranges, c)
  {
    var x, m, a, s := Count(ranges.x), Count(ranges.m), Count(ranges.a), Count(ranges.s);
    assert Combinations(ranges) == x * m * a * s;
    Rearrange(x, m, a, s);
    match c {
      case ExtremelyCoolLooking =>
      case Musical =>
      case Aerodynamic =>
      case Shiny =>
    }
  }

  lemma {:induction false} Rearrange(x: nat, m: nat, a: nat, s: nat)
    ensures x * m * a * s == x * (m * a * s)
    ensures x * m * a * s == m * (x * a * s)
    ensures x * m * a * s == a * (x * m * s)
    ensures x * m * a * s == s * (x * m * a)
  {
    assert x * m * a * s == x * (m * a * s);
    assert x * m * a * s == m * (x * a * s);
    assert x * m * a * s == a * (x * m * s);
  }

  /** The part of a range whose ratings compare with `value` as `ordering`
      says, and the rest. */
  function Split(range: Range, ordering: Ordering, value: nat): (r: (Range, Range))
    requires ordering != Equal
  {
    var (min, max) := range;
    if ordering == Less then ((min, Min(max, value - 1)), (Max(min, value), max))
    else ((Max(min, value + 1), max), (min, Min(max, value)))
  }

  /** A rating of the range lies in the matching part exactly when it
      compares as the rule asks, and in the remaining part otherwise. */
  lemma {:induction false} SplitPartitions(range: Range, ordering: Ordering, value: nat, rating: int)
    requires ordering != Equal
    ensures var (matching, remaining) := Split(range, ordering, value);
      && (matching.0 <= rating <= matching.1 <==> range.0 <= rating <= range.1 && Cmp(rating, value) == ordering)
      && (remaining.0 <= rating <= remaining.1 <==> range.0 <= rating <= range.1 && Cmp(rating, value) != ordering)
  {
  }

  /** The two parts hold all the ratings of the range between them. */
  lemma {:induction false} SplitCount(range: Range, ordering: Ordering, value: nat)
    requires ordering != Equal
    ensures Count(Split(range, ordering, value).0) + Count(Split(range, ordering, value).1) == Count(range)
  {
  }

  /** Splitting one category splits the combinations. */
  lemma {:induction false} SplitCombinations(ranges: RatingRanges, c: Category, ordering: Ordering, value: nat)
    requires ordering != Equal
    ensures var (matching, remaining) := Split(ranges.Get(c), ordering, value);
      Combinations(ranges.With(c, matching)) + Combinations(ranges.With(c, remaining)) == Combinations(ranges)
  {
    var (matching, remaining) := Split(ranges.Get(c), ordering, value);
    CombinationsFactor(ranges, c);
    CombinationsFactor(ranges.With(c, matching), c);
    CombinationsFactor(ranges.With(c, remaining), c);
    OthersWith(ranges, c, matching);
    OthersWith(ranges, c, remaining);
    SplitCount(ranges.Get(c), ordering, value);
    Distribute(Count(matching), Count(remaining), Others(ranges, c));
  }

  /** Replacing one category's range leaves the other three alone. */
  lemma {:induction false} OthersWith(ranges: RatingRanges, c: Category, range: Range)
    ensures Others(ranges.With(c, range), c) == Others(ranges, c)
  {
    match c {
      case ExtremelyCoolLooking =>
      case Musical =>
      case Aerodynamic =>
      case Shiny =>
    }
  }

  lemma {:induction false} Distribute(a: nat, b: nat, k: nat)
    ensures a * k + b * k == (a + b) * k
  {
  }

  /** The ranges of the subtraction as the source writes it: `value - 1`
      on unsigned 64-bit numbers, which wraps to 2^64 - 1 for a value of 0
      in a release build. */
  function SplitLessAsWritten(range: Range, value: nat): (Range, Range)
    requires value < 0x1_0000_0000_0000_0000
  {
    var (min, max) := range;
    var below := if value == 0 then 0xFFFF_FFFF_FFFF_FFFF else value - 1;
    ((min, Min(max, below)), (Max(min, value), max))
  }

  /** A rule `x<0` as written matches every rating of the range, though no
      rating is below 0; the corrected split matches none. */
  lemma {:induction false} LessThanZeroAsWritten()
    ensures Count(SplitLessAsWritten((1, 4000), 0).0) == 4000
    ensures forall rating :: 1 <= rating <= 4000 ==> Cmp(rating, 0) != Less
    ensures Count(Split((1, 4000), Less, 0).0) == 0
  {
  }

  /** No conditional rule compares for equality: the source cannot split a
      range on it. */
  ghost predicate Splittable(workflows: Workflows)
  {
    forall w, i :: w in workflows && 0 <= i < |workflows[w]| && workflows[w][i].Conditional? ==>
      workflows[w][i].ordering != Equal
  }

  ghost predicate WellFormed(workflows: Workflows, rank: map<string, nat>)
  {
    Ranked(workflows, rank) && Splittable(workflows)
  }

  /** The combinations the search counts from a node: all of the ranges for
      an acceptance, none for a rejection, and for a workflow what its rules
      count. */
  ghost function Value(workflows: Workflows, rank: map<string, nat>, ranges: RatingRanges, destination: Destination): nat
    requires WellFormed(workflows, rank)
    requires destination.NextWorkflow? ==> destination.name in workflows
    decreases if destination.NextWorkflow? then rank[destination.name] + 1 else 0, 1, 0
  {
    match destination
    case Decision(Accepted) => Combinations(ranges)
    case Decision(Rejected) => 0
    case NextWorkflow(name) =>
      WorkflowRulesBelow(workflows, rank, name);
      RulesValue(workflows, rank, workflows[name], 0, ranges, rank[name])
  }

  /** What the rules from the `i`-th on count: a conditional rule sends the
      matching ranges on and keeps the rest, stopping once the rest is
      empty; a rule without condition sends all that is left on, and the
      rules after it still run. */
  ghost function RulesValue(workflows: Workflows, rank: map<string, nat>, rules: seq<Rule>, i: nat,
                            ranges: RatingRanges, bound: nat): nat
    requires WellFormed(workflows, rank) && RulesBelow(workflows, rank, rules, bound) && i <= |rules|
    decreases bound, 2, |rules| - i
  {
    if i == |rules| then 0
    else
      match rules[i]
      case Conditional(c, ordering, value, destination) =>
        var split := Split(ranges.Get(c), ordering, value);
        var rest := ranges.With(c, split.1);
        Value(workflows, rank, ranges.With(c, split.0), destination)
          + (if Combinations(rest) == 0 then 0 else RulesValue(workflows, rank, rules, i + 1, rest, bound))
      case NonConditional(destination) =>
        Value(workflows, rank, ranges, destination) + RulesValue(workflows, rank, rules, i + 1, ranges, bound)
  }

  /** The rules send only to existing workflows of rank below `bound`, and
      compare only by less or greater. */
  ghost predicate RulesBelow(workflows: Workflows, rank: map<string, nat>, rules: seq<Rule>, bound: nat)
  {
    forall i :: 0 <= i < |rules| ==>
      && (rules[i].Conditional? ==> rules[i].ordering != Equal)
      && (rules[i].destination.NextWorkflow? ==>
            rules[i].destination.name in workflows && rules[i].destination.name in rank
            && rank[rules[i].destination.name] < bound)
  }

  /** The rules of a workflow lie below its rank. */
  lemma {:induction false} WorkflowRulesBelow(workflows: Workflows, rank: map<string, nat>, name: string)
    requires WellFormed(workflows, rank) && name in workflows
    ensures RulesBelow(workflows, rank, workflows[name], rank[name])
  {
  }

  /** The pending work of a node: one step for itself and, for a workflow,
      the work of every rule's destination. */
  ghost function Size(workflows: Workflows, rank: map<string, nat>, destination: Destination): nat
    requires WellFormed(workflows, rank)
    requires destination.NextWorkflow? ==> destination.name in workflows
    decreases if destination.NextWorkflow? then rank[destination.name] + 1 else 0, 1, 0
  {
    match destination
    case Decision(_) => 1
    case NextWorkflow(name) =>
      WorkflowRulesBelow(workflows, rank, name);
      1 + RulesSize(workflows, rank, workflows[name], 0, rank[name])
  }

  ghost function RulesSize(workflows: Workflows, rank: map<string, nat>, rules: seq<Rule>, i: nat, bound: nat): nat
    requires WellFormed(workflows, rank) && RulesBelow(workflows, rank, rules, bound) && i <= |rules|
    decreases bound, 2, |rules| - i
  {
    if i == |rules| then 0
    else Size(workflows, rank, rules[i].destination) + RulesSize(workflows, rank, rules, i + 1, bound)
  }

  /** A node of the search: ranges of ratings on their way to a
      destination. */
  type Node = (RatingRanges, Destination)

  ghost predicate Pending(workflows: Workflows, nodes: seq<Node>)
  {
    forall i :: 0 <= i < |nodes| && nodes[i].1.NextWorkflow? ==> nodes[i].1.name in workflows
  }

  /** What the pending nodes still count. */
  ghost function StackValue(workflows: Workflows, rank: map<string, nat>, nodes: seq<Node>): nat
    requires WellFormed(workflows, rank) && Pending(workflows, nodes)
  {
    if nodes == [] then 0
    else
      var last := nodes[|nodes| - 1];
      StackValue(workflows, rank, nodes[..|nodes| - 1]) + Value(workflows, rank, last.0, last.1)
  }

  /** The work still pending on the stack. */
  ghost function StackSize(workflows: Workflows, rank: map<string, nat>, nodes: seq<Node>): nat
    requires WellFormed(workflows, rank) && Pending(workflows, nodes)
  {
    if nodes == [] then 0
    else StackSize(workflows, rank, nodes[..|nodes| - 1]) + Size(workflows, rank, nodes[|nodes| - 1].1)
  }

  /** Pushing a node adds its value and its work to the stack's. */
  lemma {:induction false} PushNode(workflows: Workflows, rank: map<string, nat>, nodes: seq<Node>, node: Node)
    requires WellFormed(workflows, rank) && Pending(workflows, nodes)
    requires node.1.NextWorkflow? ==> node.1.name in workflows
    ensures Pending(workflows, nodes + [node])
    ensures StackValue(workflows, rank, nodes + [node]) == StackValue(workflows, rank, nodes) + Value(workflows, rank, node.0, node.1)
    ensures StackSize(workflows, rank, nodes + [node]) == StackSize(workflows, rank, nodes) + Size(workflows, rank, node.1)
  {
    assert (nodes + [node])[..|nodes|] == nodes;
  }

  /** The rule loop of `part2`: pushes one node per rule it reaches. */
  method PushRules(workflows: Workflows, ghost rank: map<string, nat>, rules: seq<Rule>, ghost bound: nat,
                   ranges: RatingRanges, nodes: seq<Node>) returns (pushed: seq<Node>)
    requires WellFormed(workflows, rank) && RulesBelow(workflows, rank, rules, bound) && Pending(workflows, nodes)
    ensures Pending(workflows, pushed)
    ensures StackValue(workflows, rank, pushed) == StackValue(workflows, rank, nodes) + RulesValue(workflows, rank, rules, 0, ranges, bound)
    ensures StackSize(workflows, rank, pushed) <= StackSize(workflows, rank, nodes) + RulesSize(workflows, rank, rules, 0, bound)
  {
    pushed := nodes;
    var current := ranges;
    var i := 0;
    while i < |rules|
      invariant i <= |rules| && Pending(workflows, pushed)
      invariant StackValue(workflows, rank, pushed) + RulesValue(workflows, rank, rules, i, current, bound)
        == StackValue(workflows, rank, nodes) + RulesValue(workflows, rank, rules, 0, ranges, bound)
      invariant StackSize(workflows, rank, pushed) + RulesSize(workflows, rank, rules, i, bound)
        <= StackSize(workflows, rank, nodes) + RulesSize(workflows, rank, rules, 0, bound)
    {
      match rules[i] {
        case Conditional(c, ordering, value, destination) =>
          var split := Split(current.Get(c), ordering, value);
          PushNode(workflows, rank, pushed, (current.With(c, split.0), destination));
          pushed := pushed + [(current.With(c, split.0), destination)];
          current := current.With(c, split.1);
          if Combinations(current) == 0 {
            return;
          }
        case NonConditional(destination) =>
          PushNode(workflows, rank, pushed, (current, destination));
          pushed := pushed + [(current, destination)];
      }
      i := i + 1;
    }
  }

  const MinRating: nat := 1
  const MaxRating: nat := 4000

  /** Every rating from the least to the greatest, in each category. */
  const AllRatings: RatingRanges :=
    Quad((MinRating, MaxRating), (MinRating, MaxRating), (MinRating, MaxRating), (MinRating, MaxRating))

  /** `part2`: a depth-first search over the workflows with an explicit
      stack of nodes, counting the combinations that reach an acceptance. */
  method Part2(workflows: Workflows, ghost rank: map<string, nat>) returns (combinations: nat)
    requires WellFormed(workflows, rank)
    ensures combinations == Value(workflows, rank, AllRatings, NextWorkflow(StartingWorkflow))
  {
    combinations := 0;
    var nodes: seq<Node> := [(AllRatings, NextWorkflow(StartingWorkflow))];
    PushNode(workflows, rank, [], nodes[0]);
    while nodes != []
      invariant Pending(workflows, nodes)
      invariant combinations + StackValue(workflows, rank, nodes) == Value(workflows, rank, AllRatings, NextWorkflow(StartingWorkflow))
      decreases StackSize(workflows, rank, nodes)
    {
      var node := nodes[|nodes| - 1];
      nodes := nodes[..|nodes| - 1];
      match node.1 {
        case Decision(Accepted) => combinations := combinations + Combinations(node.0);
        case Decision(Rejected) =>
        case NextWorkflow(name) =>
          WorkflowRulesBelow(workflows, rank, name);
          nodes := PushRules(workflows, rank, workflows[name], rank[name], node.0, nodes);
      }
    }
  }

  // ---------------------------------------------------------------------
  // Part two against part one

  /** Ranges empty in some category count nothing, wherever they go. */
  lemma {:induction false} ValueEmpty(workflows: Workflows, rank: map<string, nat>, ranges: RatingRanges, destination: Destination)
    requires WellFormed(workflows, rank) && Combinations(ranges) == 0
    requires destination.NextWorkflow? ==> destination.name in workflows
    ensures Value(workflows, rank, ranges, destination) == 0
    decreases if destination.NextWorkflow? then rank[destination.name] + 1 else 0, 1, 0
  {
    if destination.NextWorkflow? {
      WorkflowRulesBelow(workflows, rank, destination.name);
      RulesValueEmpty(workflows, rank, workflows[destination.name], 0, ranges, rank[destination.name]);
    }
  }

  lemma {:induction false} RulesValueEmpty(workflows: Workflows, rank: map<string, nat>, rules: seq<Rule>, i: nat,
                                           ranges: RatingRanges, bound: nat)
    requires WellFormed(workflows, rank) && RulesBelow(workflows, rank, rules, bound) && i <= |rules|
    requires Combinations(ranges) == 0
    ensures RulesValue(workflows, rank, rules, i, ranges, bound) == 0
    decreases bound, 2, |rules| - i
  {
    if i < |rules| {
      match rules[i] {
        case Conditional(c, ordering, value, destination) =>
          var split := Split(ranges.Get(c), ordering, value);
          SplitCombinations(ranges, c, ordering, value);
          ValueEmpty(workflows, rank, ranges.With(c, split.0), destination);
        case NonConditional(destination) =>
          ValueEmpty(workflows, rank, ranges, destination);
          RulesValueEmpty(workflows, rank, rules, i + 1, ranges, bound);
      }
    }
  }

  /** Only the last rule of a workflow is without condition, as in every
      workflow the puzzle gives. */
  ghost predicate LastOnly(workflows: Workflows)
  {
    forall w, i :: w in workflows && 0 <= i < |workflows[w]| - 1 ==> workflows[w][i].Conditional?
  }

  /** The ranges holding the one combination of the part's ratings. */
  function Point(part: Part): (r: RatingRanges)
    ensures Combinations(r) == 1
  {
    Quad((part.x, part.x), (part.m, part.m), (part.a, part.a), (part.s, part.s))
  }

  /** The part is accepted from this destination on. */
  ghost predicate Reaches(workflows: Workflows, rank: map<string, nat>, part: Part, destination: Destination)
    requires Ranked(workflows, rank)
  {
    match destination
    case Decision(verdict) => verdict == Accepted
    case NextWorkflow(name) => name in workflows && Walk(workflows, rank, part, name) == Some(Accepted)
  }

  /** Part two counts a single combination of ratings exactly when part one
      accepts the part with those ratings. */
  lemma {:induction false} ValuePoint(workflows: Workflows, rank: map<string, nat>, part: Part, destination: Destination)
    requires WellFormed(workflows, rank) && LastOnly(workflows)
    requires destination.NextWorkflow? ==> destination.name in workflows
    ensures Value(workflows, rank, Point(part), destination) == if Reaches(workflows, rank, part, destination) then 1 else 0
    decreases if destination.NextWorkflow? then rank[destination.name] + 1 else 0, 1, 0
  {
    if destination.NextWorkflow? {
      var name := destination.name;
      WorkflowRulesBelow(workflows, rank, name);
      RulesValuePoint(workflows, rank, name, part, 0);
      assert workflows[name][0..] == workflows[name];
      FirstMatchFirst(workflows[name], part);
    }
  }

  lemma {:induction false} RulesValuePoint(workflows: Workflows, rank: map<string, nat>, name: string, part: Part, i: nat)
    requires WellFormed(workflows, rank) && LastOnly(workflows) && name in workflows && i <= |workflows[name]|
    requires RulesBelow(workflows, rank, workflows[name], rank[name])
    ensures var first := FirstMatch(workflows[name][i..], part);
      RulesValue(workflows, rank, workflows[name], i, Point(part), rank[name])
        == if first.Some? && Reaches(workflows, rank, part, first.value) then 1 else 0
    decreases rank[name], 2, |workflows[name]| - i
  {
    var rules := workflows[name];
    if i < |rules| {
      assert rules[i..][0] == rules[i] && rules[i..][1..] == rules[i + 1..];
      match rules[i] {
        case Conditional(c, ordering, value, destination) =>
          var split := Split(Point(part).Get(c), ordering, value);
          SplitPoint(part, c, ordering, value);
          if Cmp(part.Get(c), value) == ordering {
            ValuePoint(workflows, rank, part, destination);
          } else {
            ValueEmpty(workflows, rank, Point(part).With(c, split.0), destination);
            RulesValuePoint(workflows, rank, name, part, i + 1);
          }
        case NonConditional(destination) =>
          ValuePoint(workflows, rank, part, destination);
      }
    }
  }

  /** Splitting a single combination leaves it whole on the side it
      compares to and nothing on the other. */
  lemma {:induction false} SplitPoint(part: Part, c: Category, ordering: Ordering, value: nat)
    requires ordering != Equal
    ensures var split := Split(Point(part).Get(c), ordering, value);
      if Cmp(part.Get(c), value) == ordering then
        Point(part).With(c, split.0) == Point(part) && Combinations(Point(part).With(c, split.1)) == 0
      else
        Point(part).With(c, split.1) == Point(part) && Combinations(Point(part).With(c, split.0)) == 0
  {
    var split := Split(Point(part).Get(c), ordering, value);
    var v := part.Get(c);
    SplitCount((v, v), ordering, value);
    SplitPartitions((v, v), ordering, value, v);
    var whole := if Cmp(v, value) == ordering then split.0 else split.1;
    var empty := if Cmp(v, value) == ordering then split.1 else split.0;
    assert whole == (v, v);
    assert Point(part).With(c, whole) == Point(part) by {
      match c {
        case ExtremelyCoolLooking =>
        case Musical =>
        case Aerodynamic =>
        case Shiny =>
      }
    }
    assert Count(empty) == 0;
    assert Point(part).With(c, empty).Get(c).0 > Point(part).With(c, empty).Get(c).1;
  }

  /** With the condition-free rule last, no combination is counted twice:
      the count never exceeds the combinations in the ranges. */
  lemma {:induction false} ValueBounded(workflows: Workflows, rank: map<string, nat>, ranges: RatingRanges, destination: Destination)
    requires WellFormed(workflows, rank) && LastOnly(workflows)
    requires destination.NextWorkflow? ==> destination.name in workflows
    ensures Value(workflows, rank, ranges, destination) <= Combinations(ranges)
    decreases if destination.NextWorkflow? then rank[destination.name] + 1 else 0, 1, 0
  {
    if destination.NextWorkflow? {
      WorkflowRulesBelow(workflows, rank, destination.name);
      RulesValueBounded(workflows, rank, destination.name, 0, ranges);
    }
  }

  lemma {:induction false} RulesValueBounded(workflows: Workflows, rank: map<string, nat>, name: string, i: nat, ranges: RatingRanges)
    requires WellFormed(workflows, rank) && LastOnly(workflows) && name in workflows && i <= |workflows[name]|
    requires RulesBelow(workflows, rank, workflows[name], rank[name])
    ensures RulesValue(workflows, rank, workflows[name], i, ranges, rank[name]) <= Combinations(ranges)
    decreases rank[name], 2, |workflows[name]| - i
  {
    var rules := workflows[name];
    if i < |rules| {
      match rules[i] {
        case Conditional(c, ordering, value, destination) =>
          var split := Split(ranges.Get(c), ordering, value);
          SplitCombinations(ranges, c, ordering, value);
          ValueBounded(workflows, rank, ranges.With(c, split.0), destination);
          if Combinations(ranges.With(c, split.1)) != 0 {
            RulesValueBounded(workflows, rank, name, i + 1, ranges.With(c, split.1));
          }
        case NonConditional(destination) =>
          ValueBounded(workflows, rank, ranges, destination);
          assert i + 1 == |rules|;
      }
    }
  }
}
