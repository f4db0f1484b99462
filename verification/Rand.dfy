/** The linear congruential generator of rand.c: its period and what it returns. */
module Rand {

  const M := 0x1_0000_0000      // unsigned long is 32 bits wide
  const A := 1103515245
  const C := 12345

  type Word = x: int | 0 <= x < M

  function Step(x: Word): Word { (x * A + C) % M }

  /** The value rand() returns from state x. */
  function Output(x: Word): (v: int)
    ensures v == x / 65536 && 0 <= v < 65536
  {
    (x / 65536) % 0x8000_0000
  }

  /** The state after n calls. */
  function Iter(n: nat, x: Word): Word {
    if n == 0 then x else Step(Iter(n - 1, x))
  }

  /** From the first seed the draws are 16838, 38526, 10113 and so on. */
  lemma FirstDraws()
    ensures Output(Iter(1, 1)) == 16838 && Output(Iter(2, 1)) == 38526 && Output(Iter(3, 1)) == 10113
  {
    assert Iter(1, 1) == Step(1) == 1103527590;
    assert Iter(2, 1) == Step(1103527590) == 2524885223;
    assert Iter(3, 1) == Step(2524885223) == 662824084;
  }

  /** next is the state that so many calls of rand have reached from the last seed. */
  class Generator {
    var next: Word
    ghost var seed: Word
    ghost var calls: nat

    ghost predicate Valid()
      reads this
    {
      next == Iter(calls, seed)
    }

    constructor ()
      ensures Valid() && seed == 1 && calls == 0
    {
      next, seed, calls := 1, 1, 0;
    }

    method Srand(s: Word)
      modifies this
      ensures Valid() && seed == s && calls == 0
    {
      next, seed, calls := s, s, 0;
    }

    /** The value of this call, counted from the seed. */
    method Rand() returns (v: int)
      requires Valid()
      modifies this`next, this`calls
      ensures Valid() && calls == old(calls) + 1
      ensures v == Output(Iter(calls, seed))
    {
      next := (next * A + C) % M;
      v := (next / 65536) % 0x8000_0000;
      calls := calls + 1;
    }
  }

  lemma {:induction false} IterAdd(m: nat, n: nat, x: Word)
    ensures Iter(m + n, x) == Iter(n, Iter(m, x))
  {
    if n == 0 {
    } else {
      IterAdd(m, n - 1, x);
    }
  }

  // Closed form ----------------------------------------------------------------

  /** 1 + A + ... + A^(n-1). */
  function Geo(n: nat): nat {
    if n == 0 then 0 else A * Geo(n - 1) + 1
  }

  lemma ModStep(u: int, x: Word)
    requires x == u % M
    ensures Step(x) == (u * A + C) % M
  {
    var q := u / M;
    assert u == q * M + x;
    assert u * A + C == (q * A) * M + (x * A + C);
    ModShift(q * A, x * A + C);
  }

  lemma ModShift(q: int, r: int)
    ensures (q * M + r) % M == r % M
  {
  }

  /** The step of the closed form, over any multiplier. */
  lemma StepAlgebra(a: int, c: int, x: int, g: int, k: int)
    requires k == (a - 1) * x + c
    ensures (x + g * k) * a + c == x + (a * g + 1) * k
  {
    assert (x + g * k) * a == x * a + (g * k) * a;
    assert (a * g + 1) * k == (a * g) * k + k;
    assert (g * k) * a == (a * g) * k;
  }

  /** g times the first increment away from x. */
  function Jump(x: int, g: int): int { (x + g * ((A - 1) * x + C)) % M }

  lemma JumpNowhere(x: Word)
    ensures Jump(x, 0) == x
  {
    assert 0 * ((A - 1) * x + C) == 0;
  }

  lemma JumpStep(x: Word, g: int)
    ensures Step(Jump(x, g)) == Jump(x, A * g + 1)
  {
    var k := (A - 1) * x + C;
    ModStep(x + g * k, Jump(x, g));
    StepAlgebra(A, C, x, g, k);
  }

  lemma {:induction false} ClosedJump(n: nat, x: Word)
    ensures Iter(n, x) == Jump(x, Geo(n))
  {
    hide Jump, Step;
    if n == 0 {
      JumpNowhere(x);
    } else {
      ClosedJump(n - 1, x);
      JumpStep(x, Geo(n - 1));
    }
  }

  lemma ClosedForm(n: nat, x: Word)
    ensures Iter(n, x) == (x + Geo(n) * ((A - 1) * x + C)) % M
  {
    hide Iter, Geo;
    ClosedJump(n, x);
  }

  lemma AddAlgebra(a: int, s: int, b: int, p: int)
    requires p == (a - 1) * b + 1
    ensures a * (b + s * p) + 1 == b + (a * s + 1) * p
  {
    assert a * (b + s * p) == a * b + a * (s * p);
    assert (a * s + 1) * p == (a * s) * p + p;
    assert a * (s * p) == (a * s) * p;
  }

  lemma {:induction false} GeoAdd(m: nat, n: nat)
    ensures Geo(m + n) == Geo(n) + Geo(m) * ((A - 1) * Geo(n) + 1)
  {
    var p := (A - 1) * Geo(n) + 1;
    if m == 0 {
      assert Geo(0) * p == 0;
    } else {
      GeoAdd(m - 1, n);
      AddAlgebra(A, Geo(m - 1), Geo(n), p);
    }
  }

  const H := 275878811          // (A - 1) / 4

  lemma DoubleAlgebra(g: int, h: int)
    ensures g + g * (4 * h + 1) == 2 * (g * (2 * h + 1))
  {
  }

  /** Doubling the length doubles the sum, up to an odd factor. */
  lemma GeoDouble(n: nat)
    ensures Geo(2 * n) == 2 * (Geo(n) * (2 * (H * Geo(n)) + 1))
  {
    GeoAdd(n, n);
    DoubleAlgebra(Geo(n), H * Geo(n));
  }

  lemma EvenPart(h: int, g: int)
    ensures (2 * h + g) % 2 == g % 2
  {
  }

  lemma ParityStep(g: nat)
    ensures (A * g + 1) % 2 == (g + 1) % 2
  {
    assert A * g + 1 == 2 * (2 * H * g) + (g + 1);
    EvenPart(2 * H * g, g + 1);
  }

  lemma GeoStart()
    ensures Geo(0) == 0
  {
  }

  lemma GeoStepParity(n: nat)
    requires n > 0
    ensures Geo(n) % 2 == (Geo(n - 1) + 1) % 2
  {
    ParityStep(Geo(n - 1));
  }

  lemma {:induction false} GeoParity(n: nat)
    ensures Geo(n) % 2 == n % 2
  {
    hide Geo;
    if n == 0 {
      GeoStart();
    } else {
      GeoParity(n - 1);
      GeoStepParity(n);
    }
  }

  // Divisibility by powers of two ------------------------------------------------

  predicate Div2(k: nat, a: int) {
    k == 0 || (a % 2 == 0 && Div2(k - 1, a / 2))
  }

  lemma OddTimes(a: int, o: int)
    requires o % 2 == 1
    ensures (a * o) % 2 == a % 2
    ensures a % 2 == 0 ==> (a * o) / 2 == (a / 2) * o
  {
    var c, b := o / 2, a / 2;
    assert a * o == 2 * (a * c) + a by {
      assert a * (2 * c + 1) == 2 * (a * c) + a;
    }
    EvenPart(a * c, a);
    if a % 2 == 0 {
      assert (2 * b) * o == 2 * (b * o);
    }
  }

  /** An odd factor does not help. */
  lemma {:induction false} OddFactor(k: nat, a: int, o: int)
    requires o % 2 == 1
    ensures Div2(k, a * o) <==> Div2(k, a)
  {
    if k == 0 {
    } else {
      OddTimes(a, o);
      OddFactor(k - 1, a / 2, o);
    }
  }

  /** Geo(n) has exactly as many factors two as n. */
  lemma {:induction false} GeoDiv2(k: nat, n: nat)
    ensures Div2(k, Geo(n)) <==> Div2(k, n)
  {
    if k == 0 {
    } else {
      GeoParity(n);
      if n % 2 == 0 {
        var m := n / 2;
        var o := 2 * (H * Geo(m)) + 1;
        GeoDouble(m);
        assert Geo(n) / 2 == Geo(m) * o;
        OddFactor(k - 1, Geo(m), o);
        GeoDiv2(k - 1, m);
      }
    }
  }

  function Pow2(k: nat): nat { if k == 0 then 1 else 2 * Pow2(k - 1) }

  lemma Pow2M()
    ensures Pow2(32) == M
  {
    assert Pow2(8) == 256;
    assert Pow2(16) == 65536;
    assert Pow2(24) == 16777216;
  }

  lemma {:induction false} Div2Multiple(k: nat, a: int) returns (q: int)
    requires Div2(k, a)
    ensures a == Pow2(k) * q
  {
    if k == 0 {
      q := a;
    } else {
      q := Div2Multiple(k - 1, a / 2);
      assert a == 2 * (Pow2(k - 1) * q);
    }
  }

  lemma {:induction false} MultipleDiv2(k: nat, q: int)
    ensures Div2(k, Pow2(k) * q)
  {
    if k == 0 {
    } else {
      MultipleDiv2(k - 1, q);
      assert Pow2(k) * q == 2 * (Pow2(k - 1) * q);
    }
  }

  lemma Div2Mod(a: int)
    ensures Div2(32, a) <==> a % M == 0
  {
    Pow2M();
    if Div2(32, a) {
      var q := Div2Multiple(32, a);
      assert a == M * q;
    }
    if a % M == 0 {
      MultipleDiv2(32, a / M);
      assert a == M * (a / M);
    }
  }

  lemma ModZero(y: Word, u: int)
    ensures (y + u) % M == y <==> u % M == 0
  {
    var q, r := u / M, u % M;
    ModShift(q, y + r);
    assert y + u == q * M + (y + r);
  }

  /** A state comes back after t calls exactly when t is a multiple of 2^32. */
  lemma Returns(t: nat, y: Word)
    ensures Iter(t, y) == y <==> t % M == 0
  {
    var k := (A - 1) * y + C;
    ClosedForm(t, y);
    ModZero(y, Geo(t) * k);
    Div2Mod(Geo(t) * k);
    EvenPart(2 * H * y, C);
    OddFactor(32, Geo(t), k);
    GeoDiv2(32, t);
    Div2Mod(t);
  }
}
