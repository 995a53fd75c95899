/** Day 8, "Haunted Wasteland": a network of nodes, each with a left and a
    right successor, is walked by repeating a list of left/right
    instructions. Part one counts the steps from AAA to ZZZ; part two
    combines, with the least common multiple, the steps each node ending in
    'A' needs to reach a node ending in 'Z'. */
module Day08 {
  import opened Common

  datatype Instruction = Left | Right

  /** Each node's (left, right) successors. */
  type Network = map<string, (string, string)>

  datatype Document = Document(instructions: seq<Instruction>, network: Network)

  /** Every successor is itself a node of the network, so a walk never
      looks up a missing node (the source unwraps every lookup). */
  predicate Closed(network: Network)
  {
    forall k {:trigger Fork(network, k)} :: k in network ==>
      Fork(network, k).0 in network && Fork(network, k).1 in network
  }

  /** A node's (left, right) successors. */
  function Fork(network: Network, node: string): (string, string)
    requires node in network
  {
    network[node]
  }

  /** A document the walks can run on: at least one instruction to cycle
      through and a closed network. */
  predicate Walkable(doc: Document)
  {
    |doc.instructions| >= 1 && Closed(doc.network)
  }

  /** One step from a node. */
  function Move(network: Network, node: string, instruction: Instruction): (next: string)
    requires Closed(network) && node in network
    ensures next in network
  {
    match instruction
    case Left => Fork(network, node).0
    case Right => Fork(network, node).1
  }

  /** The node reached after n steps from start, the instructions taken in
      turn and cycled. */
  function After(doc: Document, start: string, n: nat): (node: string)
    requires Walkable(doc) && start in doc.network
    ensures node in doc.network
  {
    if n == 0 then start
    else Move(doc.network, After(doc, start, n - 1), doc.instructions[(n - 1) % |doc.instructions|])
  }

  /** Advancing the cycled instruction index by one step. */
  lemma {:induction false} CycleStep(doc: Document, start: string, n: nat, k: nat)
    requires Walkable(doc) && start in doc.network
    requires k < |doc.instructions| && k == n % |doc.instructions|
    ensures After(doc, start, n + 1) == Move(doc.network, After(doc, start, n), doc.instructions[k])
    ensures (if k + 1 == |doc.instructions| then 0 else k + 1) == (n + 1) % |doc.instructions|
  {
    var len := |doc.instructions|;
    var q := n / len;
    assert n == len * q + k;
    if k + 1 == len {
      DivModUnique(n + 1, len, q + 1, 0);
    } else {
      DivModUnique(n + 1, len, q, k + 1);
    }
  }

  /** n is the first number of steps after which the walk from start is at
      target. */
  predicate FirstArrival(doc: Document, start: string, target: string, n: nat)
    requires Walkable(doc) && start in doc.network
  {
    n >= 1 && After(doc, start, n) == target
    && forall m :: 1 <= m < n ==> After(doc, start, m) != target
  }

  /** Part one: the number of steps from AAA to the first arrival at ZZZ. The
      source loops forever when ZZZ is never reached, so the walk is
      required to reach it. */
  method Part1(doc: Document) returns (steps: nat)
    requires Walkable(doc) && "AAA" in doc.network
    requires exists n: nat :: n >= 1 && After(doc, "AAA", n) == "ZZZ"
    ensures FirstArrival(doc, "AAA", "ZZZ", steps)
  {
    ghost var bound: nat :| bound >= 1 && After(doc, "AAA", bound) == "ZZZ";
    steps := 0;
    var currentNode := "AAA";
    var k := 0;
    DivModUnique(0, |doc.instructions|, 0, 0);
    while true
      invariant 0 <= k < |doc.instructions| && k == steps % |doc.instructions|
      invariant currentNode == After(doc, "AAA", steps)
      invariant forall m :: 1 <= m <= steps ==> After(doc, "AAA", m) != "ZZZ"
      invariant steps < bound
      decreases bound - steps
    {
      var instruction := doc.instructions[k];
      CycleStep(doc, "AAA", steps, k);
      k := if k + 1 == |doc.instructions| then 0 else k + 1;
      steps := steps + 1;
      currentNode := Move(doc.network, currentNode, instruction);
      if currentNode == "ZZZ" {
        return;
      }
    }
  }

  // ---------------------------------------------------------------------
  // Part two

  predicate EndsWith(node: string, c: char)
  {
    |node| >= 1 && node[|node| - 1] == c
  }

  /** n is the first number of steps after which the walk from start is at
      a node ending in 'Z'. */
  predicate FirstZ(doc: Document, start: string, n: nat)
    requires Walkable(doc) && start in doc.network
  {
    n >= 1 && EndsWith(After(doc, start, n), 'Z')
    && forall m :: 1 <= m < n ==> !EndsWith(After(doc, start, m), 'Z')
  }

  predicate IsStart(doc: Document, node: string)
  {
    node in doc.network && EndsWith(node, 'A')
  }

  /** No walk of 1 to n steps from start ends at a node ending in 'Z'. */
  predicate NoZYet(doc: Document, start: string, n: nat)
    requires Walkable(doc) && start in doc.network
  {
    forall m :: 1 <= m <= n ==> !EndsWith(After(doc, start, m), 'Z')
  }

  lemma {:induction false} NoZStep(doc: Document, start: string, n: nat)
    requires Walkable(doc) && start in doc.network && n >= 1
    requires NoZYet(doc, start, n - 1) && !EndsWith(After(doc, start, n), 'Z')
    ensures NoZYet(doc, start, n)
  {
  }

  /** The starting nodes, in the order the network's keys are visited: each
      node ending in 'A' exactly once. */
  ghost predicate StartingNodes(doc: Document, starts: seq<string>)
  {
    (forall i :: 0 <= i < |starts| ==> starts[i] in doc.network && EndsWith(starts[i], 'A'))
    && (forall k :: IsStart(doc, k) ==> k in starts)
    && (forall i, j :: 0 <= i < j < |starts| ==> starts[i] != starts[j])
  }

  /** counts[i] is the first arrival at a node ending in 'Z' from starts[i],
      for the first |counts| starting nodes. */
  predicate Counted(doc: Document, starts: seq<string>, counts: seq<nat>)
    requires Walkable(doc)
  {
    |counts| <= |starts|
    && forall i :: 0 <= i < |counts| ==> starts[i] in doc.network && FirstZ(doc, starts[i], counts[i])
  }

  lemma {:induction false} PushCount(doc: Document, starts: seq<string>, counts: seq<nat>, n: nat)
    requires Walkable(doc) && Counted(doc, starts, counts) && |counts| < |starts|
    requires starts[|counts|] in doc.network && FirstZ(doc, starts[|counts|], n)
    ensures Counted(doc, starts, counts + [n])
    ensures LcmFold(counts + [n]) == Lcm(n, LcmFold(counts))
  {
    var extended := counts + [n];
    assert extended[..|counts|] == counts;
    forall i | 0 <= i < |extended|
      ensures starts[i] in doc.network && FirstZ(doc, starts[i], extended[i])
    {
      if i < |counts| {
        assert extended[i] == counts[i];
      }
    }
  }

  /** The running least common multiple, folded from 1 over the counts in
      order. */
  function LcmFold(counts: seq<nat>): nat
  {
    if counts == [] then 1 else Lcm(counts[|counts| - 1], LcmFold(counts[..|counts| - 1]))
  }

  /** Part two. The key order of the source's hash map is not specified, so
      the starting nodes are given in the order they are visited. Every walk
      is required to reach a node ending in 'Z'. */
  method Part2(doc: Document, starts: seq<string>) returns (steps: nat)
    requires Walkable(doc) && StartingNodes(doc, starts)
    requires forall i :: 0 <= i < |starts| ==> exists n: nat :: n >= 1 && EndsWith(After(doc, starts[i], n), 'Z')
    ensures exists counts: seq<nat> :: |counts| == |starts| && Counted(doc, starts, counts)
              && steps == LcmFold(counts)
  {
    steps := 1;
    ghost var counts: seq<nat> := [];
    var s := 0;
    while s < |starts|
      invariant 0 <= s <= |starts| && |counts| == s
      invariant Counted(doc, starts, counts)
      invariant steps == LcmFold(counts)
    {
      var startingNode := starts[s];
      ghost var bound: nat :| bound >= 1 && EndsWith(After(doc, startingNode, bound), 'Z');
      var nodeSteps := 0;
      var currentNode := startingNode;
      var k := 0;
      DivModUnique(0, |doc.instructions|, 0, 0);
      while true
        invariant 0 <= k < |doc.instructions| && k == nodeSteps % |doc.instructions|
        invariant currentNode == After(doc, startingNode, nodeSteps)
        invariant NoZYet(doc, startingNode, nodeSteps)
        invariant nodeSteps < bound
        decreases bound - nodeSteps
      {
        var instruction := doc.instructions[k];
        CycleStep(doc, startingNode, nodeSteps, k);
        k := if k + 1 == |doc.instructions| then 0 else k + 1;
        nodeSteps := nodeSteps + 1;
        currentNode := Move(doc.network, currentNode, instruction);
        if EndsWith(currentNode, 'Z') {
          break;
        }
        NoZStep(doc, startingNode, nodeSteps);
      }
      PushCount(doc, starts, counts, nodeSteps);
      counts := counts + [nodeSteps];
      steps := Lcm(nodeSteps, steps);
      s := s + 1;
    }
  }

  // ---------------------------------------------------------------------
  // The least common multiple

  lemma {:induction false} DividesTransitive(a: nat, b: nat, c: nat)
    requires Divides(a, b) && Divides(b, c)
    ensures Divides(a, c)
  {
    var p: nat :| b == a * p;
    var q: nat :| c == b * q;
    assert c == a * (p * q);
  }

  /** The fold is a positive common multiple of every count. */
  lemma {:induction false} LcmFoldIsCommonMultiple(counts: seq<nat>)
    requires forall i :: 0 <= i < |counts| ==> counts[i] >= 1
    ensures LcmFold(counts) >= 1
    ensures forall i :: 0 <= i < |counts| ==> Divides(counts[i], LcmFold(counts))
  {
    if counts != [] {
      var init := counts[..|counts| - 1];
      var last := counts[|counts| - 1];
      LcmFoldIsCommonMultiple(init);
      forall i | 0 <= i < |counts| ensures Divides(counts[i], LcmFold(counts)) {
        if i < |counts| - 1 {
          assert counts[i] == init[i];
          DividesTransitive(counts[i], LcmFold(init), LcmFold(counts));
        }
      }
    }
  }

  /** Bezout's identity: the gcd is an integer combination of the
      arguments. */
  lemma {:induction false} Bezout(a: nat, b: nat) returns (x: int, y: int)
    ensures Gcd(a, b) == a * x + b * y
    decreases b
  {
    if b == 0 {
      x, y := 1, 0;
    } else {
      var x', y' := Bezout(b, a % b);
      var d := a / b;
      assert a % b == a - b * d;
      x, y := y', x' - d * y';
      calc {
        Gcd(a, b);
        b * x' + (a - b * d) * y';
        { assert (a - b * d) * y' == a * y' - b * (d * y'); }
        a * y' + b * (x' - d * y');
      }
    }
  }

  /** Every common multiple of two positive numbers is a multiple of their
      least common multiple. */
  lemma {:induction false} LcmDividesCommonMultiple(a: nat, b: nat, m: nat)
    requires a >= 1 && b >= 1 && Divides(a, m) && Divides(b, m)
    ensures Divides(Lcm(a, b), m)
  {
    var x, y := Bezout(a, b);
    GcdDivides(a, b);
    var g := Gcd(a, b);
    var p: nat :| a == g * p;
    var q: nat :| b == g * q;
    LcmFactors(a, b, g, p, q);
    var s: nat :| m == a * s;
    var t: nat :| m == b * t;
    var l := Lcm(a, b);
    var k := x * t + y * s;
    LcmCancel(a, b, g, q, l, x, y, s, t, m);
    assert l * k == m;
    if k < 0 {
      MulBound(l, -k);
      assert false;
    }
    assert m == l * (k as nat);
  }

  /** The arithmetic behind LcmDividesCommonMultiple: g * l == a * b and
      g == a * x + b * y give l * (x * t + y * s) == m. */
  lemma {:induction false} LcmCancel(a: nat, b: nat, g: nat, q: nat, l: nat, x: int, y: int, s: nat, t: nat, m: nat)
    requires g >= 1 && b == g * q && l == a * q && g == a * x + b * y
    requires m == a * s && m == b * t
    ensures l * (x * t + y * s) == m
  {
    var k := x * t + y * s;
    assert g * l == a * b by {
      assert g * (a * q) == a * (g * q);
    }
    assert g * (l * k) == (g * l) * k;
    assert (a * b) * k == a * x * (b * t) + b * y * (a * s) by {
      assert (a * b) * (x * t) == a * x * (b * t);
      assert (a * b) * (y * s) == b * y * (a * s);
    }
    assert a * x * m + b * y * m == m * g;
    assert g * (l * k) == g * m;
    DivModUnique(g * m, g, l * k, 0);
    DivModUnique(g * m, g, m, 0);
  }

  /** The fold is the least common multiple: it divides every common
      multiple of the counts, so no smaller positive step count brings all
      of them round together. */
  lemma {:induction false} LcmFoldLeast(counts: seq<nat>, m: nat)
    requires forall i :: 0 <= i < |counts| ==> counts[i] >= 1
    requires forall i :: 0 <= i < |counts| ==> Divides(counts[i], m)
    ensures Divides(LcmFold(counts), m)
    ensures m >= 1 ==> LcmFold(counts) <= m
  {
    if counts == [] {
      assert m == 1 * m;
    } else {
      var init := counts[..|counts| - 1];
      var last := counts[|counts| - 1];
      forall i | 0 <= i < |init| ensures init[i] >= 1 && Divides(init[i], m) {
        assert init[i] == counts[i];
      }
      LcmFoldLeast(init, m);
      LcmFoldIsCommonMultiple(init);
      LcmDividesCommonMultiple(last, LcmFold(init), m);
    }
    var k: nat :| m == LcmFold(counts) * k;
    if m >= 1 {
      MulBound(LcmFold(counts), k);
    }
  }

  /** Part two's answer is a number of steps after which every walk has
      come round to a node ending in 'Z', provided (as the source's comment
      demands of its inputs) each walk is at such a node exactly at the
      multiples of its first arrival. */
  lemma {:induction false} AllAtZ(doc: Document, starts: seq<string>, counts: seq<nat>)
    requires Walkable(doc) && |counts| == |starts|
    requires Counted(doc, starts, counts)
    requires forall i, m: nat :: 0 <= i < |starts| && Divides(counts[i], m) ==> EndsWith(After(doc, starts[i], m), 'Z')
    ensures LcmFold(counts) >= 1
    ensures forall i :: 0 <= i < |starts| ==> EndsWith(After(doc, starts[i], LcmFold(counts)), 'Z')
  {
    LcmFoldIsCommonMultiple(counts);
  }

  // ---------------------------------------------------------------------
  // The puzzle's examples

  /** The second example of part one: LLR over three nodes reaches ZZZ after
      six steps. */
  lemma {:induction false} ExampleRepeated()
    ensures var doc := Document([Left, Left, Right],
                                map["AAA" := ("BBB", "BBB"), "BBB" := ("AAA", "ZZZ"), "ZZZ" := ("ZZZ", "ZZZ")]);
            Walkable(doc) && FirstArrival(doc, "AAA", "ZZZ", 6)
  {
    var doc := Document([Left, Left, Right],
                        map["AAA" := ("BBB", "BBB"), "BBB" := ("AAA", "ZZZ"), "ZZZ" := ("ZZZ", "ZZZ")]);
    assert Walkable(doc);
    assert After(doc, "AAA", 1) == "BBB";
    assert After(doc, "AAA", 2) == "AAA";
    assert After(doc, "AAA", 3) == "BBB";
    assert After(doc, "AAA", 4) == "AAA";
    assert After(doc, "AAA", 5) == "BBB";
    assert After(doc, "AAA", 6) == "ZZZ";
  }

  /** The first example of part one: RL reaches ZZZ after two steps. */
  lemma {:induction false} ExampleDirect()
    ensures var doc := Document([Right, Left],
                                map["AAA" := ("BBB", "CCC"), "BBB" := ("DDD", "EEE"), "CCC" := ("ZZZ", "GGG"),
                                    "DDD" := ("DDD", "DDD"), "EEE" := ("EEE", "EEE"), "GGG" := ("GGG", "GGG"),
                                    "ZZZ" := ("ZZZ", "ZZZ")]);
            Walkable(doc) && FirstArrival(doc, "AAA", "ZZZ", 2)
  {
    var doc := Document([Right, Left],
                        map["AAA" := ("BBB", "CCC"), "BBB" := ("DDD", "EEE"), "CCC" := ("ZZZ", "GGG"),
                            "DDD" := ("DDD", "DDD"), "EEE" := ("EEE", "EEE"), "GGG" := ("GGG", "GGG"),
                            "ZZZ" := ("ZZZ", "ZZZ")]);
    assert Walkable(doc);
    assert After(doc, "AAA", 1) == "CCC";
    assert After(doc, "AAA", 2) == "ZZZ";
  }

  /** The example of part two: the walk from 11A first meets a 'Z' node
      after two steps, the one from 22A after three, and the fold of the
      two counts, in either order, is six. */
  lemma {:induction false} ExampleGhosts()
    ensures var doc := Document([Left, Right],
                                map["11A" := ("11B", "XXX"), "11B" := ("XXX", "11Z"), "11Z" := ("11B", "XXX"),
                                    "22A" := ("22B", "XXX"), "22B" := ("22C", "22C"), "22C" := ("22Z", "22Z"),
                                    "22Z" := ("22B", "22B"), "XXX" := ("XXX", "XXX")]);
            Walkable(doc) && FirstZ(doc, "11A", 2) && FirstZ(doc, "22A", 3)
            && LcmFold([2, 3]) == 6 && LcmFold([3, 2]) == 6
  {
    ExampleFold();
    var doc := Document([Left, Right],
                        map["11A" := ("11B", "XXX"), "11B" := ("XXX", "11Z"), "11Z" := ("11B", "XXX"),
                            "22A" := ("22B", "XXX"), "22B" := ("22C", "22C"), "22C" := ("22Z", "22Z"),
                            "22Z" := ("22B", "22B"), "XXX" := ("XXX", "XXX")]);
    assert Walkable(doc);
    assert After(doc, "11A", 1) == "11B";
    assert After(doc, "11A", 2) == "11Z";
    assert After(doc, "22A", 1) == "22B";
    assert After(doc, "22A", 2) == "22C";
    assert After(doc, "22A", 3) == "22Z";
  }

  lemma {:induction false} ExampleFold()
    ensures LcmFold([2, 3]) == 6 && LcmFold([3, 2]) == 6
  {
    assert [2, 3][..1] == [2] && [3, 2][..1] == [3];
    assert Gcd(2, 1) == 1 && Gcd(3, 1) == 1 && Gcd(3, 2) == 1 && Gcd(2, 3) == 1;
  }
}
