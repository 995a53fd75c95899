/** Small vocabulary shared by the puzzle modules: an optional value, the
    three-way comparison result of Rust's `Ord::cmp`, and integer helpers. */
module Common {

  datatype Option<T> = None | Some(value: T)

  /** The result of a three-way comparison. */
  datatype Ordering = Less | Equal | Greater {
    /** The ordering seen from the other operand. */
    function Reverse(): Ordering {
      match this
      case Less => Greater
      case Equal => Equal
      case Greater => Less
    }

    /** Lexicographic chaining: the second comparison decides only on a tie. */
    function Then(next: Ordering): Ordering {
      if this == Equal then next else this
    }
  }

  /** Three-way comparison of two integers. */
  function Cmp(a: int, b: int): (r: Ordering)
    ensures r == Less <==> a < b
    ensures r == Equal <==> a == b
    ensures r == Greater <==> a > b
  {
    if a < b then Less else if a == b then Equal else Greater
  }

  /** An ASCII decimal digit. */
  predicate IsDigit(c: char) { '0' <= c <= '9' }

  function DigitValue(c: char): nat
    requires IsDigit(c)
  {
    (c - '0') as nat
  }

  function Max(a: int, b: int): int { if a < b then b else a }
  function Min(a: int, b: int): int { if a < b then a else b }

  function Abs(a: int): int { if a < 0 then -a else a }

  /** Sum of a sequence of integers. */
  function Sum(s: seq<int>): int
  {
    if s == [] then 0 else s[0] + Sum(s[1..])
  }

  /** Greatest common divisor by Euclid's algorithm. */
  function Gcd(a: nat, b: nat): (r: nat)
    ensures a > 0 || b > 0 ==> r > 0
    decreases b
  {
    if b == 0 then a else Gcd(b, a % b)
  }

  /** Least common multiple, as the `num` crate defines it: 0 when either
      argument is 0, otherwise a * b / gcd(a, b), which both positive
      arguments divide. */
  function Lcm(a: nat, b: nat): (r: nat)
    ensures a >= 1 && b >= 1 ==> r >= 1 && Divides(a, r) && Divides(b, r)
  {
    if a == 0 || b == 0 then 0
    else
      GcdFactors(a, b);
      var g := Gcd(a, b);
      assert a * b / g == a * (b / g) == b * (a / g);
      a * b / g
  }

  /** The gcd of positive numbers splits both of them, and a * b / gcd is
      a positive multiple of each. */
  lemma {:induction false} GcdFactors(a: nat, b: nat)
    requires a >= 1 && b >= 1
    ensures Gcd(a, b) >= 1
    ensures a * b / Gcd(a, b) == a * (b / Gcd(a, b)) == b * (a / Gcd(a, b)) >= 1
  {
    GcdDivides(a, b);
    var g := Gcd(a, b);
    var p: nat :| a == g * p;
    var q: nat :| b == g * q;
    DivModUnique(a, g, p, 0);
    DivModUnique(b, g, q, 0);
    LcmFactors(a, b, g, p, q);
  }

  ghost predicate Divides(d: nat, n: nat)
  {
    exists k: nat :: n == d * k
  }

  /** The greatest common divisor divides both arguments. */
  lemma {:induction false} GcdDivides(a: nat, b: nat)
    ensures Divides(Gcd(a, b), a) && Divides(Gcd(a, b), b)
    decreases b
  {
    if b == 0 {
      assert a == Gcd(a, b) * 1;
      assert b == Gcd(a, b) * 0;
    } else {
      GcdDivides(b, a % b);
      var g := Gcd(a, b);
      var p: nat :| b == g * p;
      var q: nat :| a % b == g * q;
      var d := a / b;
      assert a == b * d + a % b;
      DivisionSum(g, p, q, d, a);
    }
  }

  /** a = b * (a / b) + a % b, with b and a % b multiples of g. */
  lemma {:induction false} DivisionSum(g: nat, p: nat, q: nat, d: nat, a: nat)
    requires a == (g * p) * d + g * q
    ensures Divides(g, a)
  {
    assert (g * p) * d == g * (p * d);
    assert a == g * (p * d + q);
  }

  lemma {:induction false} LcmFactors(a: nat, b: nat, g: nat, p: nat, q: nat)
    requires a >= 1 && b >= 1 && g >= 1 && a == g * p && b == g * q
    ensures a * b / g == a * q && a * b / g == b * p && a * q >= 1
  {
    assert a * (g * q) == g * (a * q);
    DivModUnique(a * b, g, a * q, 0);
    assert a * q == b * p by {
      assert (g * p) * q == (g * q) * p;
    }
  }

  /** Division with remainder is unique: n = len * q + r with 0 <= r < len
      fixes n / len as q and n % len as r. */
  lemma {:induction false} DivModUnique(n: nat, len: nat, q: int, r: nat)
    requires r < len && n == len * q + r
    ensures n / len == q && n % len == r
  {
    var q' := n / len;
    var r' := n % len;
    var d := q - q';
    assert len * q' + r' == n;
    assert len * d == len * q - len * q';
    assert len * d == r' - r;
    if d >= 1 {
      MulBound(len, d);
    } else if d <= -1 {
      MulBound(len, -d);
    }
  }

  lemma MulBound(len: nat, d: int)
    requires d >= 1
    ensures len * d >= len
  {
  }

  /** A number below the modulus is its own remainder. */
  lemma {:induction false} ModBelow(k: nat, period: nat)
    requires k < period
    ensures k % period == k
  {
    DivModUnique(k, period, 0, k);
  }

  /** Adding the modulus leaves the remainder unchanged. */
  lemma {:induction false} ModShift(k: nat, period: nat)
    requires period >= 1
    ensures (k + period) % period == k % period
  {
    var q := k / period;
    var r := k % period;
    assert k == period * q + r;
    assert period * (q + 1) == period * q + period;
    DivModUnique(k + period, period, q + 1, r);
  }

  /** One more row of `b`: (a + 1) * b = a * b + b. */
  lemma {:induction false} MulSucc(a: nat, b: nat)
    ensures (a + 1) * b == a * b + b
  {
  }

  /** A non-empty set has an element. */
  lemma {:induction false} SomeElement<T>(s: set<T>)
    requires s != {}
    ensures exists x :: x in s
  {
    if forall x :: x !in s {
      assert false;
    }
  }

  /** Taking one more element out of a set difference. */
  lemma DifferenceStep<T>(a: set<T>, b: set<T>, x: T)
    requires x in a - b
    ensures (a - b) - {x} == a - (b + {x}) && |a - (b + {x})| == |a - b| - 1
  {
  }

  /** A proper subset leaves something out. */
  lemma {:induction false} ProperSubset<T>(a: set<T>, b: set<T>)
    requires a <= b && a != b
    ensures exists x :: x in b - a
  {
    assert b == a + (b - a);
    SomeElement(b - a);
  }

  /** Set union in another order. */
  lemma UnionRotate<T>(a: set<T>, b: set<T>, c: set<T>)
    ensures a + b + c == a + (c + b)
  {
  }
}
