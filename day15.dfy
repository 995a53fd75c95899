/** Day 15, "Lens Library": the HASH algorithm on step strings, and the
    HASHMAP procedure that files labelled lenses into 256 boxes. */
module Day15 {
  import opened Common

  /** One character of the HASH fold: add its code, multiply by 17, reduce
      modulo 256. */
  function Step(v: nat, c: char): (r: nat)
    ensures r < 256
  {
    (v + c as int) * 17 % 256
  }

  /** The HASH fold from the value v, left to right. */
  function HashFrom(v: nat, s: string): nat
    decreases |s|
  {
    if s == [] then v else HashFrom(Step(v, s[0]), s[1..])
  }

  /** The HASH of a string: the fold from 0, always below 256. */
  function Hash(s: string): (h: nat)
    ensures h < 256
  {
    HashLess(0, s);
    HashFrom(0, s)
  }

  lemma {:induction false} HashLess(v: nat, s: string)
    requires v < 256
    ensures HashFrom(v, s) < 256
    decreases |s|
  {
    if s != [] {
      HashLess(Step(v, s[0]), s[1..]);
    }
  }

  /** The hash of a string one character longer continues the fold. */
  lemma {:induction false} HashAppend(v: nat, s: string, c: char)
    ensures HashFrom(v, s + [c]) == Step(HashFrom(v, s), c)
    decreases |s|
  {
    if s == [] {
      assert [c][1..] == [];
    } else {
      assert (s + [c])[1..] == s[1..] + [c];
      HashAppend(Step(v, s[0]), s[1..], c);
    }
  }

  lemma {:induction false} HashOfTwo(v: nat, s: string, a: char, b: char)
    requires s == [a, b]
    ensures HashFrom(v, s) == Step(Step(v, a), b)
  {
    var v1, v2 := Step(v, a), Step(Step(v, a), b);
    assert s[1..] == [b] && [b][1..] == [];
    assert HashFrom(v2, []) == v2;
    assert HashFrom(v1, [b]) == HashFrom(v2, []);
    assert HashFrom(v, s) == HashFrom(v1, [b]);
  }

  lemma {:induction false} HashOfThree(v: nat, s: string, a: char, b: char, c: char)
    requires s == [a, b, c]
    ensures HashFrom(v, s) == Step(Step(Step(v, a), b), c)
  {
    var v1, v2, v3 := Step(v, a), Step(Step(v, a), b), Step(Step(Step(v, a), b), c);
    assert s[1..] == [b, c] && [b, c][1..] == [c] && [c][1..] == [];
    assert HashFrom(v3, []) == v3;
    assert HashFrom(v2, [c]) == HashFrom(v3, []);
    assert HashFrom(v1, [b, c]) == HashFrom(v2, [c]);
    assert HashFrom(v, s) == HashFrom(v1, [b, c]);
  }

  lemma {:induction false} HashOfFour(v: nat, s: string, a: char, b: char, c: char, d: char)
    requires s == [a, b, c, d]
    ensures HashFrom(v, s) == Step(Step(Step(Step(v, a), b), c), d)
  {
    assert s[1..] == [b, c, d];
    assert HashFrom(v, s) == HashFrom(Step(v, a), [b, c, d]);
    HashOfThree(Step(v, a), [b, c, d], b, c, d);
  }

  lemma {:induction false} ExampleHash()
    ensures Hash("HASH") == 52
  {
    assert Step(0, 'H') == 200 && Step(200, 'A') == 153 && Step(153, 'S') == 172 && Step(172, 'H') == 52;
    HashOfFour(0, "HASH", 'H', 'A', 'S', 'H');
  }

  /** The sum of the hashes of the steps. */
  function HashSum(steps: seq<string>): (total: nat)
    ensures total <= 255 * |steps|
  {
    if steps == [] then 0 else Hash(steps[0]) + HashSum(steps[1..])
  }

  /** Part one. */
  function Part1(steps: seq<string>): (total: nat)
    ensures total <= 255 * |steps|
  {
    HashSum(steps)
  }

  /** The hashes of the example's first six steps. */
  lemma {:induction false} ExampleHashesFirst()
    ensures Hash("rn=1") == 30 && Hash("cm-") == 253 && Hash("qp=3") == 97 && Hash("cm=2") == 47 && Hash("qp-") == 14 && Hash("pc=4") == 180
  {
    assert Step(0, 'r') == 146 && Step(146, 'n') == 0 && Step(0, '=') == 13 && Step(13, '1') == 30;
    HashOfFour(0, "rn=1", 'r', 'n', '=', '1');
    assert Step(0, 'c') == 147 && Step(147, 'm') == 0 && Step(0, '-') == 253;
    HashOfThree(0, "cm-", 'c', 'm', '-');
    assert Step(0, 'q') == 129 && Step(129, 'p') == 1 && Step(1, '=') == 30 && Step(30, '3') == 97;
    HashOfFour(0, "qp=3", 'q', 'p', '=', '3');
    assert Step(0, 'c') == 147 && Step(147, 'm') == 0 && Step(0, '=') == 13 && Step(13, '2') == 47;
    HashOfFour(0, "cm=2", 'c', 'm', '=', '2');
    assert Step(0, 'q') == 129 && Step(129, 'p') == 1 && Step(1, '-') == 14;
    HashOfThree(0, "qp-", 'q', 'p', '-');
    assert Step(0, 'p') == 112 && Step(112, 'c') == 3 && Step(3, '=') == 64 && Step(64, '4') == 180;
    HashOfFour(0, "pc=4", 'p', 'c', '=', '4');
  }

  /** The hashes of the example's last five steps. */
  lemma {:induction false} ExampleHashesLast()
    ensures Hash("ot=9") == 9 && Hash("ab=5") == 197 && Hash("pc-") == 48 && Hash("pc=6") == 214 && Hash("ot=7") == 231
  {
    assert Step(0, 'o') == 95 && Step(95, 't') == 3 && Step(3, '=') == 64 && Step(64, '9') == 9;
    HashOfFour(0, "ot=9", 'o', 't', '=', '9');
    assert Step(0, 'a') == 113 && Step(113, 'b') == 3 && Step(3, '=') == 64 && Step(64, '5') == 197;
    HashOfFour(0, "ab=5", 'a', 'b', '=', '5');
    assert Step(0, 'p') == 112 && Step(112, 'c') == 3 && Step(3, '-') == 48;
    HashOfThree(0, "pc-", 'p', 'c', '-');
    assert Step(0, 'p') == 112 && Step(112, 'c') == 3 && Step(3, '=') == 64 && Step(64, '6') == 214;
    HashOfFour(0, "pc=6", 'p', 'c', '=', '6');
    assert Step(0, 'o') == 95 && Step(95, 't') == 3 && Step(3, '=') == 64 && Step(64, '7') == 231;
    HashOfFour(0, "ot=7", 'o', 't', '=', '7');
  }

  /** The first example: the sum of the eleven steps' hashes is 1320. */
  lemma {:induction false} ExamplePart1()
    ensures Part1(["rn=1", "cm-", "qp=3", "cm=2", "qp-", "pc=4", "ot=9", "ab=5", "pc-", "pc=6", "ot=7"]) == 1320
  {
    ExampleHashesFirst();
    ExampleHashesLast();
  }

  /** The boxes of the labels of the second example. */
  lemma {:induction false} ExampleLabelHashes()
    ensures Hash("rn") == 0 && Hash("cm") == 0 && Hash("qp") == 1 && Hash("pc") == 3 && Hash("ot") == 3 && Hash("ab") == 3
  {
    assert Step(0, 'r') == 146 && Step(146, 'n') == 0;
    HashOfTwo(0, "rn", 'r', 'n');
    assert Step(0, 'c') == 147 && Step(147, 'm') == 0;
    HashOfTwo(0, "cm", 'c', 'm');
    assert Step(0, 'q') == 129 && Step(129, 'p') == 1;
    HashOfTwo(0, "qp", 'q', 'p');
    assert Step(0, 'p') == 112 && Step(112, 'c') == 3;
    HashOfTwo(0, "pc", 'p', 'c');
    assert Step(0, 'o') == 95 && Step(95, 't') == 3;
    HashOfTwo(0, "ot", 'o', 't');
    assert Step(0, 'a') == 113 && Step(113, 'b') == 3;
    HashOfTwo(0, "ab", 'a', 'b');
  }

  // ---------------------------------------------------------------------
  // The HASHMAP procedure

  /** A lens: its label and its focal length. */
  type Lens = (string, nat)

  datatype Operation = Dash | EqualSign(focalLength: nat)

  /** The slot of the first lens with the label, if any. */
  function Position(lenses: seq<Lens>, name: string): (p: Option<nat>)
    ensures p.Some? ==> (p.value < |lenses| && lenses[p.value].0 == name
                         && forall k :: 0 <= k < p.value ==> lenses[k].0 != name)
    ensures p.None? ==> forall k :: 0 <= k < |lenses| ==> lenses[k].0 != name
  {
    if lenses == [] then None
    else if lenses[0].0 == name then Some(0)
    else match Position(lenses[1..], name)
      case None => None
      case Some(p) => Some(p + 1)
  }

  /** One step on the box its label hashes to: a dash takes out the lens
      with the label, if there is one; an equal sign replaces the focal
      length of the lens with the label in its slot, or else puts a new lens
      at the back. */
  function Operate(lenses: seq<Lens>, name: string, operation: Operation): seq<Lens>
  {
    match (operation, Position(lenses, name))
    case (Dash, Some(p)) => lenses[..p] + lenses[p + 1..]
    case (Dash, None) => lenses
    case (EqualSign(focalLength), Some(p)) => lenses[p := (name, focalLength)]
    case (EqualSign(focalLength), None) => lenses + [(name, focalLength)]
  }

  function EmptyBoxes(): (boxes: seq<seq<Lens>>)
    ensures |boxes| == 256 && forall b :: 0 <= b < 256 ==> boxes[b] == []
  {
    seq(256, b => [])
  }

  /** A step changes the box its label hashes to and no other. */
  function ApplyStep(boxes: seq<seq<Lens>>, name: string, operation: Operation): (r: seq<seq<Lens>>)
    requires |boxes| == 256
    ensures |r| == 256 && r[Hash(name)] == Operate(boxes[Hash(name)], name, operation)
    ensures forall b :: 0 <= b < 256 && b != Hash(name) ==> r[b] == boxes[b]
  {
    boxes[Hash(name) := Operate(boxes[Hash(name)], name, operation)]
  }

  /** The boxes after the steps, taken in order from empty boxes. */
  function Arrange(steps: seq<(string, Operation)>): (boxes: seq<seq<Lens>>)
    ensures |boxes| == 256
  {
    if steps == [] then EmptyBoxes()
    else ApplyStep(Arrange(steps[..|steps| - 1]), steps[|steps| - 1].0, steps[|steps| - 1].1)
  }

  /** `run_hashmap_algorithm`: 256 boxes, each step's box updated in place. */
  method RunHashmapAlgorithm(steps: seq<(string, Operation)>) returns (boxes: array<seq<Lens>>)
    ensures fresh(boxes) && boxes[..] == Arrange(steps)
  {
    boxes := new seq<Lens>[256](b => []);
    assert boxes[..] == EmptyBoxes();
    var i := 0;
    while i < |steps|
      invariant i <= |steps| && boxes.Length == 256
      invariant boxes[..] == Arrange(steps[..i])
    {
      var (name, operation) := steps[i];
      var boxNumber := Hash(name);
      var position := Position(boxes[boxNumber], name);
      match operation {
        case Dash =>
          if position.Some? {
            boxes[boxNumber] := boxes[boxNumber][..position.value] + boxes[boxNumber][position.value + 1..];
          }
        case EqualSign(focalLength) =>
          if position.Some? {
            boxes[boxNumber] := boxes[boxNumber][position.value := (name, focalLength)];
          } else {
            boxes[boxNumber] := boxes[boxNumber] + [(name, focalLength)];
          }
      }
      assert steps[..i + 1][..i] == steps[..i];
      i := i + 1;
    }
    assert steps[..i] == steps;
  }

  // ---------------------------------------------------------------------
  // What the boxes hold

  /** Every lens sits in the box its label hashes to, and no box holds two
      lenses with the same label. */
  predicate WellPlaced(boxes: seq<seq<Lens>>)
  {
    |boxes| == 256
    && (forall b, k :: 0 <= b < 256 && 0 <= k < |boxes[b]| ==> Hash(boxes[b][k].0) == b)
    && (forall b :: 0 <= b < 256 ==> DistinctLabels(boxes[b]))
  }

  predicate DistinctLabels(lenses: seq<Lens>)
  {
    forall i, j :: 0 <= i < j < |lenses| ==> lenses[i].0 != lenses[j].0
  }

  /** An operation keeps the labels of a box distinct and adds only its own
      label. */
  lemma {:induction false} OperateKeepsLabels(lenses: seq<Lens>, name: string, operation: Operation)
    requires DistinctLabels(lenses)
    ensures var r := Operate(lenses, name, operation);
      DistinctLabels(r) && forall k :: 0 <= k < |r| ==> r[k].0 == name || r[k] in lenses
  {
    var r := Operate(lenses, name, operation);
    match (operation, Position(lenses, name))
    case (Dash, Some(p)) =>
      assert |r| == |lenses| - 1;
      assert forall k :: 0 <= k < |r| ==> r[k] == lenses[if k < p then k else k + 1];
      forall i, j | 0 <= i < j < |r| ensures r[i].0 != r[j].0 {
        assert r[i] == lenses[if i < p then i else i + 1];
        assert r[j] == lenses[if j < p then j else j + 1];
      }
    case (Dash, None) =>
    case (EqualSign(f), Some(p)) =>
      assert forall k :: 0 <= k < |r| ==> r[k].0 == lenses[k].0;
    case (EqualSign(f), None) =>
      assert forall k :: 0 <= k < |lenses| ==> r[k] == lenses[k];
  }

  /** After any sequence of steps every lens is in its label's box and each
      box's labels are distinct. */
  lemma {:induction false} ArrangeWellPlaced(steps: seq<(string, Operation)>)
    ensures WellPlaced(Arrange(steps))
  {
    if steps != [] {
      var before := Arrange(steps[..|steps| - 1]);
      var (name, operation) := steps[|steps| - 1];
      ArrangeWellPlaced(steps[..|steps| - 1]);
      var b := Hash(name);
      OperateKeepsLabels(before[b], name, operation);
      var after: seq<seq<Lens>> := Arrange(steps);
      assert after == ApplyStep(before, name, operation);
      forall c, k | 0 <= c < 256 && 0 <= k < |after[c]| ensures Hash(after[c][k].0) == c {
        if c == b && after[c][k].0 != name {
          var j :| 0 <= j < |before[b]| && before[b][j] == after[c][k];
        }
      }
    }
  }

  /** The lenses of a box without those with the label, in order. */
  function Without(lenses: seq<Lens>, name: string): (r: seq<Lens>)
    ensures |r| <= |lenses|
  {
    if lenses == [] then []
    else if lenses[0].0 == name then Without(lenses[1..], name)
    else [lenses[0]] + Without(lenses[1..], name)
  }

  lemma {:induction false} WithoutAbsent(lenses: seq<Lens>, name: string)
    requires forall k :: 0 <= k < |lenses| ==> lenses[k].0 != name
    ensures Without(lenses, name) == lenses
  {
    if lenses != [] {
      WithoutAbsent(lenses[1..], name);
    }
  }

  /** With distinct labels, a dash is exactly removing the label from the
      box while the other lenses keep their order; if the label is absent,
      nothing changes. */
  lemma {:induction false} DashRemoves(lenses: seq<Lens>, name: string)
    requires DistinctLabels(lenses)
    ensures Operate(lenses, name, Dash) == Without(lenses, name)
  {
    match Position(lenses, name)
    case None =>
      WithoutAbsent(lenses, name);
    case Some(p) =>
      if p == 0 {
        WithoutAbsent(lenses[1..], name);
        assert lenses[..0] + lenses[1..] == lenses[1..];
      } else {
        assert lenses[0].0 != name;
        assert DistinctLabels(lenses[1..]);
        assert Position(lenses[1..], name) == Some(p - 1);
        DashRemoves(lenses[1..], name);
        assert lenses[1..][..p - 1] + lenses[1..][p..] == lenses[1..p] + lenses[p + 1..];
        assert lenses[..p] + lenses[p + 1..] == [lenses[0]] + (lenses[1..p] + lenses[p + 1..]);
      }
  }

  /** The focal length of each label in a box (the later lens winning). */
  function Focal(lenses: seq<Lens>): map<string, nat>
  {
    if lenses == [] then map[] else Focal(lenses[..|lenses| - 1])[lenses[|lenses| - 1].0 := lenses[|lenses| - 1].1]
  }

  lemma {:induction false} FocalAppend(lenses: seq<Lens>, lens: Lens)
    ensures Focal(lenses + [lens]) == Focal(lenses)[lens.0 := lens.1]
  {
    assert (lenses + [lens])[..|lenses|] == lenses;
  }

  lemma {:induction false} FocalPrepend(lens: Lens, lenses: seq<Lens>)
    requires forall k :: 0 <= k < |lenses| ==> lenses[k].0 != lens.0
    ensures Focal([lens] + lenses) == Focal(lenses)[lens.0 := lens.1]
    decreases |lenses|
  {
    if lenses == [] {
      assert [lens] + lenses == [] + [lens];
      FocalAppend([], lens);
    } else {
      var init := lenses[..|lenses| - 1];
      var last := lenses[|lenses| - 1];
      FocalPrepend(lens, init);
      assert [lens] + lenses == ([lens] + init) + [last];
      FocalAppend([lens] + init, last);
      FocalAppend(init, last);
    }
  }

  /** Taking the label out of a box takes it out of the box's focal lengths. */
  lemma {:induction false} FocalWithout(lenses: seq<Lens>, name: string)
    ensures Focal(Without(lenses, name)) == Focal(lenses) - {name}
    decreases |lenses|
  {
    if lenses == [] {
      assert Focal(lenses) - {name} == map[];
    } else {
      var init := lenses[..|lenses| - 1];
      var last := lenses[|lenses| - 1];
      assert lenses == init + [last];
      FocalWithout(init, name);
      WithoutAppend(init, last, name);
      assert Focal(lenses) == Focal(init)[last.0 := last.1];
      if last.0 == name {
        assert Without(lenses, name) == Without(init, name);
        assert Focal(init)[last.0 := last.1] - {name} == Focal(init) - {name};
      } else {
        assert Without(lenses, name) == Without(init, name) + [last];
        FocalAppend(Without(init, name), last);
        assert (Focal(init) - {name})[last.0 := last.1] == Focal(init)[last.0 := last.1] - {name};
      }
    }
  }

  lemma {:induction false} WithoutAppend(lenses: seq<Lens>, lens: Lens, name: string)
    ensures Without(lenses + [lens], name)
            == Without(lenses, name) + (if lens.0 == name then [] else [lens])
    decreases |lenses|
  {
    if lenses == [] {
      assert [lens][1..] == [];
    } else {
      assert (lenses + [lens])[1..] == lenses[1..] + [lens];
      WithoutAppend(lenses[1..], lens, name);
    }
  }

  /** Replacing a lens in its slot updates that label's focal length. */
  lemma {:induction false} FocalReplace(lenses: seq<Lens>, p: nat, focalLength: nat)
    requires DistinctLabels(lenses) && p < |lenses|
    ensures Focal(lenses[p := (lenses[p].0, focalLength)]) == Focal(lenses)[lenses[p].0 := focalLength]
    decreases |lenses|
  {
    var n := |lenses| - 1;
    var init := lenses[..n];
    var last := lenses[n];
    var updated := lenses[p := (lenses[p].0, focalLength)];
    assert updated[..n] == if p == n then init else init[p := (lenses[p].0, focalLength)];
    if p == n {
      assert updated == init + [(last.0, focalLength)];
      FocalAppend(init, (last.0, focalLength));
      assert lenses == init + [last];
      FocalAppend(init, last);
    } else {
      assert DistinctLabels(init);
      FocalReplace(init, p, focalLength);
      assert updated == init[p := (lenses[p].0, focalLength)] + [last];
      FocalAppend(init[p := (lenses[p].0, focalLength)], last);
      assert lenses == init + [last];
      FocalAppend(init, last);
      assert last.0 != lenses[p].0;
    }
  }

  /** Seen as a map from labels to focal lengths, each box behaves like a
      dictionary: a dash deletes the label, an equal sign sets it. */
  lemma {:induction false} OperateAsMap(lenses: seq<Lens>, name: string, operation: Operation)
    requires DistinctLabels(lenses)
    ensures operation.Dash? ==> Focal(Operate(lenses, name, operation)) == Focal(lenses) - {name}
    ensures operation.EqualSign? ==>
      Focal(Operate(lenses, name, operation)) == Focal(lenses)[name := operation.focalLength]
  {
    match operation
    case Dash =>
      DashRemoves(lenses, name);
      FocalWithout(lenses, name);
    case EqualSign(focalLength) =>
      match Position(lenses, name)
      case Some(p) =>
        FocalReplace(lenses, p, focalLength);
      case None =>
        FocalAppend(lenses, (name, focalLength));
  }

  // ---------------------------------------------------------------------
  // Focusing power

  /** The lenses' powers in a box numbered `number` (1-based): each focal
      length times the box number times its 1-based slot. */
  function SlotsPower(number: nat, lenses: seq<Lens>): nat
  {
    if lenses == [] then 0
    else SlotsPower(number, lenses[..|lenses| - 1]) + number * |lenses| * lenses[|lenses| - 1].1
  }

  /** The sum of the powers of all lenses in the boxes, the first box being
      number 1. */
  function FocusingPower(boxes: seq<seq<Lens>>): nat
  {
    if boxes == [] then 0
    else FocusingPower(boxes[..|boxes| - 1]) + SlotsPower(|boxes|, boxes[|boxes| - 1])
  }

  /** Empty boxes add no power, so only the boxes up to the last non-empty
      one count. */
  lemma {:induction false} EmptyTail(boxes: seq<seq<Lens>>, n: nat)
    requires n <= |boxes| && forall b :: n <= b < |boxes| ==> boxes[b] == []
    ensures FocusingPower(boxes) == FocusingPower(boxes[..n])
    decreases |boxes|
  {
    if |boxes| > n {
      var init := boxes[..|boxes| - 1];
      EmptyTail(init, n);
      assert init[..n] == boxes[..n];
      assert boxes[|boxes| - 1] == [];
      assert FocusingPower(boxes) == FocusingPower(init) + SlotsPower(|boxes|, []);
    } else {
      assert boxes[..n] == boxes;
    }
  }

  /** Part two: the focusing power after the steps. */
  method Part2(steps: seq<(string, Operation)>) returns (power: nat)
    ensures power == FocusingPower(Arrange(steps))
  {
    var boxes := RunHashmapAlgorithm(steps);
    power := FocusingPower(boxes[..]);
  }

  // ---------------------------------------------------------------------
  // Each box on its own

  /** One box after the steps: only the steps whose label hashes to the
      box act on it. */
  function BoxAfter(b: nat, steps: seq<(string, Operation)>): seq<Lens>
  {
    if steps == [] then []
    else
      var before := BoxAfter(b, steps[..|steps| - 1]);
      var (name, operation) := steps[|steps| - 1];
      if Hash(name) == b then Operate(before, name, operation) else before
  }

  /** The boxes evolve independently: each box of the arrangement is that
      box after only the steps that hash to it. */
  lemma {:induction false} ArrangeByBox(steps: seq<(string, Operation)>, b: nat)
    requires b < 256
    ensures Arrange(steps)[b] == BoxAfter(b, steps)
  {
    if steps != [] {
      ArrangeByBox(steps[..|steps| - 1], b);
    }
  }

  lemma {:induction false} BoxStep(b: nat, steps: seq<(string, Operation)>, k: nat, x: seq<Lens>, y: seq<Lens>)
    requires k < |steps| && BoxAfter(b, steps[..k]) == x
    requires Hash(steps[k].0) == b ==> y == Operate(x, steps[k].0, steps[k].1)
    requires Hash(steps[k].0) != b ==> y == x
    ensures BoxAfter(b, steps[..k + 1]) == y
  {
    assert steps[..k + 1][..k] == steps[..k];
  }

  /** The steps of the second example, one by one. */
  predicate ExampleSteps(s: seq<(string, Operation)>)
  {
    |s| == 11
    && s[0] == ("rn", EqualSign(1)) && s[1] == ("cm", Dash) && s[2] == ("qp", EqualSign(3))
    && s[3] == ("cm", EqualSign(2)) && s[4] == ("qp", Dash) && s[5] == ("pc", EqualSign(4))
    && s[6] == ("ot", EqualSign(9)) && s[7] == ("ab", EqualSign(5)) && s[8] == ("pc", Dash)
    && s[9] == ("pc", EqualSign(6)) && s[10] == ("ot", EqualSign(7))
  }

  /** Box 0 of the example ends with rn 1 and cm 2. */
  lemma {:induction false} ExampleBoxZero(s: seq<(string, Operation)>)
    requires ExampleSteps(s)
    ensures BoxAfter(0, s) == [("rn", 1), ("cm", 2)]
  {
    ExampleLabelHashes();
    var r: seq<Lens> := [("rn", 1)];
    var rc: seq<Lens> := [("rn", 1), ("cm", 2)];
    assert BoxAfter(0, s[..0]) == [];
    BoxStep(0, s, 0, [], r);
    BoxStep(0, s, 1, r, r);
    BoxStep(0, s, 2, r, r);
    BoxStep(0, s, 3, r, rc);
    BoxStep(0, s, 4, rc, rc);
    BoxStep(0, s, 5, rc, rc);
    BoxStep(0, s, 6, rc, rc);
    BoxStep(0, s, 7, rc, rc);
    BoxStep(0, s, 8, rc, rc);
    BoxStep(0, s, 9, rc, rc);
    BoxStep(0, s, 10, rc, rc);
    assert s[..11] == s;
  }

  /** Box 3 of the example holds pc 4 after the first six steps. */
  lemma {:induction false} ExampleBoxThreeStart(s: seq<(string, Operation)>)
    requires ExampleSteps(s)
    ensures BoxAfter(3, s[..6]) == [("pc", 4)]
  {
    ExampleLabelHashes();
    var p: seq<Lens> := [("pc", 4)];
    assert BoxAfter(3, s[..0]) == [];
    BoxStep(3, s, 0, [], []);
    BoxStep(3, s, 1, [], []);
    BoxStep(3, s, 2, [], []);
    BoxStep(3, s, 3, [], []);
    BoxStep(3, s, 4, [], []);
    BoxStep(3, s, 5, [], p);
  }

  /** The last five operations on box 3 of the example. */
  lemma {:induction false} ExampleBoxThreeOperations()
    ensures Operate([("pc", 4)], "ot", EqualSign(9)) == [("pc", 4), ("ot", 9)]
    ensures Operate([("pc", 4), ("ot", 9)], "ab", EqualSign(5)) == [("pc", 4), ("ot", 9), ("ab", 5)]
    ensures Operate([("pc", 4), ("ot", 9), ("ab", 5)], "pc", Dash) == [("ot", 9), ("ab", 5)]
    ensures Operate([("ot", 9), ("ab", 5)], "pc", EqualSign(6)) == [("ot", 9), ("ab", 5), ("pc", 6)]
    ensures Operate([("ot", 9), ("ab", 5), ("pc", 6)], "ot", EqualSign(7)) == [("ot", 7), ("ab", 5), ("pc", 6)]
  {
    var poa: seq<Lens> := [("pc", 4), ("ot", 9), ("ab", 5)];
    assert Position(poa, "pc") == Some(0);
    assert poa[..0] + poa[1..] == [("ot", 9), ("ab", 5)];
    var oap: seq<Lens> := [("ot", 9), ("ab", 5), ("pc", 6)];
    assert Position(oap, "ot") == Some(0);
    assert oap[0 := ("ot", 7)] == [("ot", 7), ("ab", 5), ("pc", 6)];
  }

  /** Box 3 of the example ends with ot 7, ab 5 and pc 6. */
  lemma {:induction false} ExampleBoxThree(s: seq<(string, Operation)>)
    requires ExampleSteps(s)
    ensures BoxAfter(3, s) == [("ot", 7), ("ab", 5), ("pc", 6)]
  {
    ExampleLabelHashes();
    var p: seq<Lens> := [("pc", 4)];
    var po: seq<Lens> := [("pc", 4), ("ot", 9)];
    var poa: seq<Lens> := [("pc", 4), ("ot", 9), ("ab", 5)];
    var oa: seq<Lens> := [("ot", 9), ("ab", 5)];
    var oap: seq<Lens> := [("ot", 9), ("ab", 5), ("pc", 6)];
    var last: seq<Lens> := [("ot", 7), ("ab", 5), ("pc", 6)];
    ExampleBoxThreeStart(s);
    ExampleBoxThreeOperations();
    BoxStep(3, s, 6, p, po);
    BoxStep(3, s, 7, po, poa);
    BoxStep(3, s, 8, poa, oa);
    BoxStep(3, s, 9, oa, oap);
    BoxStep(3, s, 10, oap, last);
    assert s[..11] == s;
  }

  /** Box 1 of the example receives qp 3 and loses it again. */
  lemma {:induction false} ExampleBoxOne(s: seq<(string, Operation)>)
    requires ExampleSteps(s)
    ensures BoxAfter(1, s) == []
  {
    ExampleLabelHashes();
    var q: seq<Lens> := [("qp", 3)];
    assert BoxAfter(1, s[..0]) == [];
    BoxStep(1, s, 0, [], []);
    BoxStep(1, s, 1, [], []);
    BoxStep(1, s, 2, [], q);
    BoxStep(1, s, 3, q, q);
    BoxStep(1, s, 4, q, []);
    BoxStep(1, s, 5, [], []);
    BoxStep(1, s, 6, [], []);
    BoxStep(1, s, 7, [], []);
    BoxStep(1, s, 8, [], []);
    BoxStep(1, s, 9, [], []);
    BoxStep(1, s, 10, [], []);
    assert s[..11] == s;
  }

  /** Every box no label of the example hashes to stays empty. */
  lemma {:induction false} ExampleOtherBox(s: seq<(string, Operation)>, b: nat)
    requires ExampleSteps(s) && b != 0 && b != 1 && b != 3
    ensures BoxAfter(b, s) == []
  {
    ExampleLabelHashes();
    assert BoxAfter(b, s[..0]) == [];
    BoxStep(b, s, 0, [], []);
    BoxStep(b, s, 1, [], []);
    BoxStep(b, s, 2, [], []);
    BoxStep(b, s, 3, [], []);
    BoxStep(b, s, 4, [], []);
    BoxStep(b, s, 5, [], []);
    BoxStep(b, s, 6, [], []);
    BoxStep(b, s, 7, [], []);
    BoxStep(b, s, 8, [], []);
    BoxStep(b, s, 9, [], []);
    BoxStep(b, s, 10, [], []);
    assert s[..11] == s;
  }

  /** The second example: the focusing power after the eleven steps is 145. */
  lemma {:induction false} ExamplePart2(s: seq<(string, Operation)>)
    requires ExampleSteps(s)
    ensures FocusingPower(Arrange(s)) == 145
  {
    var boxes := Arrange(s);
    forall b | 0 <= b < 256 ensures boxes[b] == if b == 0 then [("rn", 1), ("cm", 2)]
                                                else if b == 3 then [("ot", 7), ("ab", 5), ("pc", 6)] else [] {
      ArrangeByBox(s, b);
      if b == 0 {
        ExampleBoxZero(s);
      } else if b == 3 {
        ExampleBoxThree(s);
      } else if b == 1 {
        ExampleBoxOne(s);
      } else {
        ExampleOtherBox(s, b);
      }
    }
    EmptyTail(boxes, 4);
    ExampleFourBoxes(boxes[..4]);
  }

  lemma {:induction false} ExampleFourBoxes(four: seq<seq<Lens>>)
    requires four == [[("rn", 1), ("cm", 2)], [], [], [("ot", 7), ("ab", 5), ("pc", 6)]]
    ensures FocusingPower(four) == 145
  {
    assert four[..3] == [[("rn", 1), ("cm", 2)], [], []];
    assert four[..3][..2] == [[("rn", 1), ("cm", 2)], []];
    assert four[..3][..2][..1] == [[("rn", 1), ("cm", 2)]];
    var first: seq<Lens> := [("rn", 1), ("cm", 2)];
    assert first[..1] == [("rn", 1)];
    var last: seq<Lens> := [("ot", 7), ("ab", 5), ("pc", 6)];
    assert last[..2] == [("ot", 7), ("ab", 5)] && last[..2][..1] == [("ot", 7)];
    assert SlotsPower(1, first) == 5;
    assert SlotsPower(4, last[..2][..1]) == 28;
    assert SlotsPower(4, last[..2]) == 68;
    assert SlotsPower(4, last) == 140;
    assert FocusingPower(four[..3][..2][..1]) == 5;
    assert FocusingPower(four[..3][..2]) == 5;
    assert FocusingPower(four[..3]) == 5;
  }
}
