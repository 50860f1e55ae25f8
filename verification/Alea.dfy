/** packages/workflow/src/alea.ts: a generator on doubles that is an exact multiply-with-carry generator. */
module Alea {
  // ---- multiply-with-carry over the integers, for any base b and multiplier a

  /** Three digits and a carry. */
  datatype Mwc = Mwc(s0: nat, s1: nat, s2: nat, c: nat)

  function Step(m: Mwc, a: nat, b: nat): Mwc
    requires b > 0
  {
    var t := a * m.s0 + m.c;
    Mwc(m.s1, m.s2, t % b, t / b)
  }

  function Value(m: Mwc, b: nat): nat { m.s0 + m.s1 * b + m.s2 * (b * b) + m.c * (b * b * b) }

  predicate Digits(m: Mwc, b: nat) { m.s0 < b && m.s1 < b && m.s2 < b }

  function Modulus(a: nat, b: nat): int { a * (b * b * b) - 1 }

  lemma Assoc(x: int, y: int, z: int)
    ensures (x * y) * z == x * (y * z)
  {
  }

  lemma Distribute(x: int, y: int, z: int)
    ensures (x + y) * z == x * z + y * z
  {
  }

  /** Carrying: the third digit and the carry together are `t`, one place up. */
  lemma Carry(t: nat, b: nat)
    requires b > 0
    ensures (t % b) * (b * b) + (t / b) * (b * b * b) == t * (b * b)
  {
    var q, r, b2 := t / b, t % b, b * b;
    assert t == q * b + r && b * b * b == b * b2;
    Distribute(q * b, r, b2);
    Assoc(q, b, b2);
  }

  lemma ShiftUp(x: int, y: int, z: int, b: int)
    ensures b * (x + y * b + z * (b * b)) == x * b + y * (b * b) + z * (b * b * b)
  {
    Distribute(x, y * b, b);
    Distribute(x + y * b, z * (b * b), b);
    Assoc(y, b, b);
    Assoc(z, b * b, b);
  }

  /** One step divides the value by the base, modulo `Modulus`. */
  lemma StepDivides(m: Mwc, a: nat, b: nat)
    requires b > 0
    ensures b * Value(Step(m, a, b), b) == Value(m, b) + m.s0 * Modulus(a, b)
  {
    var t, b3 := a * m.s0 + m.c, b * b * b;
    Carry(t, b);
    ShiftUp(m.s1, m.s2, t, b);
    Distribute(a * m.s0, m.c, b3);
    Assoc(m.s0, a, b3);
    Distribute(a * b3, -1, m.s0);
    assert m.s0 * (a * b3 - 1) == m.s0 * (a * b3) - m.s0;
  }

  /** The states of a generator that neither dies nor sticks: the value is a non-zero residue. */
  predicate Live(m: Mwc, a: nat, b: nat) { Digits(m, b) && 0 < Value(m, b) < Modulus(a, b) }

  lemma MulLe(x: int, y: int, z: nat)
    requires x <= y
    ensures x * z <= y * z
  {
    assert (y - x) * z >= 0;
  }

  /** A difference of multiples of `p` that is smaller than `p` is zero. */
  lemma SmallMultiple(n: int, p: nat)
    requires n * p < p && n * p + p > 0
    ensures n == 0
  {
    if n > 0 { MulLe(1, n, p); }
    if n < 0 { MulLe(n, -1, p); }
  }

  lemma Terms(m: Mwc, b: nat)
    ensures m.s1 * b >= 0 && m.s2 * (b * b) >= 0 && m.c * (b * b * b) >= 0 && b * b * b >= 0
  {
    assert b * b >= 0;
    MulLe(0, b * b, b);
    MulLe(0, m.s2, b * b);
    MulLe(0, m.c, b * b * b);
  }

  lemma CarryBound(m: Mwc, a: nat, b: nat)
    requires b > 0 && Live(m, a, b)
    ensures m.c < a
  {
    Terms(m, b);
    if m.c >= a { MulLe(a, m.c, b * b * b); }
  }

  /** Any three digits with carry 1, as the seeding leaves them, are a live state. */
  lemma SeededIsLive(m: Mwc, a: nat, b: nat)
    requires b > 0 && a >= 3 && Digits(m, b) && m.c == 1
    ensures Live(m, a, b)
  {
    var b2, b3 := b * b, b * b * b;
    Terms(m, b);
    assert b3 == b2 * b;
    MulLe(m.s1, b - 1, b);
    MulLe(m.s2, b - 1, b2);
    assert (b - 1) * b == b2 - b && (b - 1) * b2 == b3 - b2;
    MulLe(1, b, b);
    MulLe(1, b2, b);
    MulLe(3, a, b3);
  }

  lemma StepStaysLive(m: Mwc, a: nat, b: nat)
    requires b > 0 && Live(m, a, b)
    ensures Live(Step(m, a, b), a, b)
  {
    StepDivides(m, a, b);
    var p, x := Modulus(a, b), Value(Step(m, a, b), b);
    MulLe(0, m.s0, p);
    MulLe(m.s0, b - 1, p);
    assert (b - 1) * p == b * p - p;
    assert 0 < b * x < b * p;
    if x >= p { MulLe(p, x, b); }
    if x <= 0 { MulLe(x, 0, b); }
  }

  lemma Cancel(g: int, b: int, p: int, x: int, y: int, s: int)
    requires g * b == p + 1 && b * y == x + s * p
    ensures g * x == y + (y - g * s) * p
  {
    calc {
      g * x;
      g * (b * y - s * p);
      { Distribute(b * y, -(s * p), g); }
      g * (b * y) - g * (s * p);
      { Assoc(g, b, y); Assoc(g, s, p); }
      (p + 1) * y - g * s * p;
      { Distribute(p, 1, y); Distribute(y, -(g * s), p); }
      y + (y - g * s) * p;
    }
  }

  /** Multiplying by `a * b * b` and reducing is the same step on values: the base's inverse is a * b * b. */
  lemma StepMultiplies(m: Mwc, a: nat, b: nat)
    requires b > 0 && Live(m, a, b)
    ensures Value(Step(m, a, b), b) == a * (b * b) * Value(m, b) % Modulus(a, b)
  {
    StepDivides(m, a, b);
    StepStaysLive(m, a, b);
    var p, g, x, y := Modulus(a, b), a * (b * b), Value(m, b), Value(Step(m, a, b), b);
    assert g * b == p + 1 by {
      Assoc(a, b * b, b);
    }
    hide Value, Step;
    Cancel(g, b, p, x, y, m.s0);
    ModUnique(g * x, y - g * m.s0, y, p);
  }

  lemma ModUnique(n: int, q: int, r: int, p: int)
    requires 0 <= r < p && n == r + q * p
    ensures n % p == r
  {
    var q', r' := n / p, n % p;
    assert n == q' * p + r';
    assert (q - q') * p == r' - r;
    SmallMultiple(q - q', p);
  }

  lemma ModOfProduct(g: int, x: int, p: int)
    requires p > 0
    ensures g * (x % p) % p == g * x % p
  {
    var q, r := x / p, x % p;
    var q2, r2 := (g * r) / p, (g * r) % p;
    assert g * x == g * (q * p + r) == g * q * p + g * r;
    assert g * x == r2 + (g * q + q2) * p;
    ModUnique(g * x, g * q + q2, r2, p);
  }

  function Run(m: Mwc, n: nat, a: nat, b: nat): Mwc
    requires b > 0
  {
    if n == 0 then m else Step(Run(m, n - 1, a, b), a, b)
  }

  function Power(g: int, n: nat): int { if n == 0 then 1 else g * Power(g, n - 1) }

  /** The whole run in closed form: every state is live, and its value is the start times a power of a * b * b. */
  lemma {:induction false} RunIsPower(m: Mwc, n: nat, a: nat, b: nat)
    requires b > 0 && Live(m, a, b)
    ensures Live(Run(m, n, a, b), a, b)
    ensures Value(Run(m, n, a, b), b) == Power(a * (b * b), n) * Value(m, b) % Modulus(a, b)
  {
    var p, g := Modulus(a, b), a * (b * b);
    if n == 0 {
      ModUnique(Value(m, b), 0, Value(m, b), p);
    } else {
      var last := Run(m, n - 1, a, b);
      RunIsPower(m, n - 1, a, b);
      StepStaysLive(last, a, b);
      StepMultiplies(last, a, b);
      ModOfProduct(g, Power(g, n - 1) * Value(m, b), p);
      Assoc(g, Power(g, n - 1), Value(m, b));
      hide Value, Modulus, Live;
    }
  }

  /** Quotient and remainder determine the number. */
  lemma DivModInjective(t: int, u: int, b: nat)
    requires b > 0 && t / b == u / b && t % b == u % b
    ensures t == u
  {
    assert t == t / b * b + t % b;
    assert u == u / b * b + u % b;
  }

  lemma DigitCarryInjective(x: nat, c: nat, y: nat, d: nat, a: nat)
    requires c < a && d < a && a * x + c == a * y + d
    ensures x == y && c == d
  {
    assert (x - y) * a == a * x - a * y;
    SmallMultiple(x - y, a);
  }

  /** No two live states have the same successor, so a run never enters a cycle it did not start in. */
  lemma StepInjective(m: Mwc, k: Mwc, a: nat, b: nat)
    requires b > 0 && Live(m, a, b) && Live(k, a, b) && Step(m, a, b) == Step(k, a, b)
    ensures m == k
  {
    CarryBound(m, a, b);
    CarryBound(k, a, b);
    DivModInjective(a * m.s0 + m.c, a * k.s0 + k.c, b);
    DigitCarryInjective(m.s0, m.c, k.s0, k.c, a);
  }

  /** A run that comes back to any of its states comes back to its start: there is no lead-in. */
  lemma {:induction false} PurelyPeriodic(m: Mwc, k: nat, period: nat, a: nat, b: nat)
    requires b > 0 && Live(m, a, b) && Run(m, k + period, a, b) == Run(m, k, a, b)
    ensures Run(m, period, a, b) == m
  {
    if k > 0 {
      RunIsPower(m, k - 1 + period, a, b);
      RunIsPower(m, k - 1, a, b);
      StepInjective(Run(m, k - 1 + period, a, b), Run(m, k - 1, a, b), a, b);
      PurelyPeriodic(m, k - 1, period, a, b);
    }
  }

  /** Among more numbers than there are values two are the same. */
  lemma {:induction false} Pigeonhole(s: seq<nat>, n: nat) returns (i: nat, j: nat)
    requires |s| == n + 1 && forall k :: 0 <= k < |s| ==> s[k] < n
    ensures i < j < |s| && s[i] == s[j]
    decreases n
  {
    var last := s[n];
    if k :| 0 <= k < n && s[k] == last {
      i, j := k, n;
    } else {
      // the value n - 1 takes the place of the last one, which no other element has
      var t: seq<nat> := seq(n, k requires 0 <= k < n => if s[k] == n - 1 then last else s[k]);
      i, j := Pigeonhole(t, n - 1);
    }
  }

  /** Digits and carry can be read off the value. */
  lemma ValueInjective(m: Mwc, k: Mwc, b: nat)
    requires b > 0 && Digits(m, b) && Digits(k, b) && Value(m, b) == Value(k, b)
    ensures m == k
  {
    Horner(m, b);
    Horner(k, b);
    var m1, m2 := m.s1 + b * (m.s2 + b * m.c), m.s2 + b * m.c;
    var k1, k2 := k.s1 + b * (k.s2 + b * k.c), k.s2 + b * k.c;
    DigitCarryInjective(m1, m.s0, k1, k.s0, b);
    DigitCarryInjective(m2, m.s1, k2, k.s1, b);
    DigitCarryInjective(m.c, m.s2, k.c, k.s2, b);
  }

  lemma Horner(m: Mwc, b: nat)
    ensures Value(m, b) == b * (m.s1 + b * (m.s2 + b * m.c)) + m.s0
    ensures m.s2 + b * m.c >= 0 && m.s1 + b * (m.s2 + b * m.c) >= 0
  {
    ShiftUp(m.s1, m.s2, m.c, b);
    assert m.s1 + m.s2 * b + m.c * (b * b) == m.s1 + b * (m.s2 + b * m.c) by {
      Assoc(m.c, b, b);
      Distribute(m.s2, b * m.c, b);
    }
    MulLe(0, m.c, b);
    MulLe(0, m.s2 + b * m.c, b);
  }

  /** A run is back at its start exactly when its factor leaves the starting value as it is. */
  lemma ReturnsExactlyWhen(m: Mwc, n: nat, a: nat, b: nat)
    requires b > 0 && Live(m, a, b)
    ensures Run(m, n, a, b) == m <==> Power(a * (b * b), n) * Value(m, b) % Modulus(a, b) == Value(m, b)
  {
    RunIsPower(m, n, a, b);
    if Value(Run(m, n, a, b), b) == Value(m, b) {
      ValueInjective(Run(m, n, a, b), m, b);
    }
  }

  /** And it always comes back: the output is periodic from its first number on. */
  lemma ComesBack(m: Mwc, a: nat, b: nat) returns (n: nat)
    requires b > 0 && Live(m, a, b)
    ensures 0 < n <= Modulus(a, b) && Run(m, n, a, b) == m
  {
    var p := Modulus(a, b);
    forall k: nat ensures Live(Run(m, k, a, b), a, b) {
      RunIsPower(m, k, a, b);
    }
    hide Run, Modulus;
    var values: seq<nat> := seq(p + 1, k requires 0 <= k < p + 1 => Value(Run(m, k, a, b), b));
    var i, j := Pigeonhole(values, p);
    ValueInjective(Run(m, i, a, b), Run(m, j, a, b), b);
    n := j - i;
    PurelyPeriodic(m, i, n, a, b);
  }

  // ---- the generator on doubles

  const A: nat := 2091639
  const B: nat := 0x1_0000_0000

  /** A multiple of 2^-32 whose numerator has at most 53 bits is a double, so computing it does not round. */
  ghost predicate Exact(x: real, k: int) {
    x * (B as real) == k as real && -0x20_0000_0000_0000 < k < 0x20_0000_0000_0000
  }

  /** `x | 0`. */
  function ToInt32(x: real): int {
    var n := if x >= 0.0 then x.Floor else -(-x).Floor;
    var w := n % 0x1_0000_0000;
    if w < 0x8000_0000 then w else w - 0x1_0000_0000
  }

  class Alea {
    var c: real
    var s0: real
    var s1: real
    var s2: real

    /** The fields are the digits of `m`, as fractions of 2^32, and its carry. */
    ghost predicate Holds(m: Mwc)
      reads this
    {
      Exact(s0, m.s0) && Exact(s1, m.s1) && Exact(s2, m.s2) && c == m.c as real && Live(m, A, B)
    }

    /** `space` and `seed` are the 32-bit results of the three `mash` calls each. */
    constructor (space: (nat, nat, nat), seed: (nat, nat, nat), ghost m: Mwc)
      requires space.0 < B && space.1 < B && space.2 < B && seed.0 < B && seed.1 < B && seed.2 < B
      requires m == Mwc((space.0 - seed.0) % B, (space.1 - seed.1) % B, (space.2 - seed.2) % B, 1)
      ensures Holds(m)
    {
      c := 1.0;
      s0 := Difference(space.0, seed.0);
      s1 := Difference(space.1, seed.1);
      s2 := Difference(space.2, seed.2);
      SeededIsLive(m, A, B);
    }

    method Next(ghost m: Mwc) returns (r: real)
      requires Holds(m)
      modifies this
      ensures Exact(2091639.0 * old(s0), A * m.s0) && Exact(old(c) * (1.0 / 4294967296.0), m.c)
      ensures Exact(2091639.0 * old(s0) + old(c) * (1.0 / 4294967296.0), A * m.s0 + m.c)
      ensures Exact(r, (A * m.s0 + m.c) % B)
      ensures Holds(Step(m, A, B))
      ensures r == s2 && 0.0 <= r < 1.0 && r * (B as real) == Step(m, A, B).s2 as real
    {
      StepStaysLive(m, A, B);
      CarryBound(m, A, B);
      var t := 2091639.0 * s0 + c * (1.0 / 4294967296.0);
      ghost var k := A * m.s0 + m.c;
      assert Exact(2091639.0 * s0, A * m.s0);
      assert Exact(c * (1.0 / 4294967296.0), m.c);
      assert Exact(t, k);
      FloorOfScaled(t, k);
      s0 := s1;
      s1 := s2;
      c := ToInt32(t) as real;
      s2 := t - c;
      assert Exact(s2, k % B);
      r := s2;
    }
  }

  function Difference(space: nat, seed: nat): (d: real)
    requires space < B && seed < B
    ensures Exact(d, (space - seed) % B)
  {
    var s := space as real / 4294967296.0 - seed as real / 4294967296.0;
    if s < 0.0 then s + 1.0 else s
  }

  lemma FloorOfScaled(t: real, k: nat)
    requires t * (B as real) == k as real && k < B * 0x8000_0000
    ensures ToInt32(t) == k / B && (t - ToInt32(t) as real) * (B as real) == (k % B) as real
  {
    var q, r := k / B, k % B;
    assert k == q * B + r;
    assert t == q as real + r as real / 4294967296.0;
    assert t.Floor == q;
  }
}
