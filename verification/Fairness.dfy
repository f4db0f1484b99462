/** One period of the generator, counted: how often each value is returned and how
    often each run of tickets is drawn. */
module Fairness {
  import opened Rand

  // The orbit ---------------------------------------------------------------------

  /** The states before the first n calls. */
  function Visited(x: Word, n: nat): set<int> {
    if n == 0 then {} else Visited(x, n - 1) + {Iter(n - 1, x)}
  }

  function Below(n: nat): (s: set<int>)
    ensures forall v :: v in s <==> 0 <= v < n
  {
    if n == 0 then {} else Below(n - 1) + {n - 1}
  }

  lemma {:induction false} BelowSize(n: nat)
    ensures |Below(n)| == n
  {
    if n == 0 {
    } else {
      BelowSize(n - 1);
    }
  }

  lemma {:induction false} VisitedMember(x: Word, n: nat, v: int)
    ensures v in Visited(x, n) <==> exists i :: 0 <= i < n && Iter(i, x) == v
  {
    hide Iter;
    if n == 0 {
    } else {
      VisitedMember(x, n - 1, v);
      var k := n - 1;
      assert v in Visited(x, n) <==> v in Visited(x, k) || Iter(k, x) == v;
      if v in Visited(x, k) {
        var i :| 0 <= i < k && Iter(i, x) == v;
        assert 0 <= i < n;
      }
    }
  }

  /** No state repeats within a period. */
  lemma Distinct(m: nat, n: nat, x: Word)
    requires m < n < M
    ensures Iter(m, x) != Iter(n, x)
  {
    hide Iter;
    IterAdd(m, n - m, x);
    Returns(n - m, Iter(m, x));
  }

  lemma VisitedFresh(x: Word, n: nat)
    requires n < M
    ensures Iter(n, x) !in Visited(x, n)
  {
    hide Iter, Visited;
    VisitedMember(x, n, Iter(n, x));
    forall i | 0 <= i < n
      ensures Iter(i, x) != Iter(n, x)
    {
      Distinct(i, n, x);
    }
  }

  lemma {:induction false} VisitedSize(x: Word, n: nat)
    requires n <= M
    ensures |Visited(x, n)| == n && Visited(x, n) <= Below(M)
  {
    hide Iter, Below;
    if n == 0 {
    } else {
      VisitedSize(x, n - 1);
      VisitedFresh(x, n - 1);
    }
  }

  lemma {:induction false} SubsetOfSameSize(a: set<int>, b: set<int>)
    requires a <= b && |a| == |b|
    ensures a == b
  {
    assert |b - a| == |b| - |a|;
    assert b == a + (b - a);
  }

  /** From any seed, 2^32 calls visit every state exactly once. */
  lemma FullPeriod(x: Word, y: Word)
    ensures exists n: nat :: n < M && Iter(n, x) == y && forall m: nat :: m < M && Iter(m, x) == y ==> m == n
  {
    hide Iter, Visited, Below;
    VisitedSize(x, M);
    BelowSize(M);
    SubsetOfSameSize(Visited(x, M), Below(M));
    VisitedMember(x, M, y);
    var n: nat :| n < M && Iter(n, x) == y;
    forall m: nat | m < M && Iter(m, x) == y
      ensures m == n
    {
      if m < n {
        Distinct(m, n, x);
      } else if n < m {
        Distinct(n, m, x);
      }
    }
  }

  // Counting ----------------------------------------------------------------------

  function One(b: bool): nat { if b then 1 else 0 }

  /** In how many of the rounds 0..n-1 the state, after the call, satisfies p. */
  function Rounds(p: int -> bool, x: Word, n: nat): nat {
    if n == 0 then 0 else Rounds(p, x, n - 1) + One(p(Iter(n, x)))
  }

  /** How many of the numbers 0..n-1 satisfy p. */
  function Count(p: int -> bool, n: nat): nat {
    if n == 0 then 0 else Count(p, n - 1) + One(p(n - 1))
  }

  ghost function Such(p: int -> bool, s: set<int>): set<int> { set v | v in s && p(v) }

  lemma SuchMore(p: int -> bool, s: set<int>, v: int)
    requires v !in s
    ensures |Such(p, s + {v})| == |Such(p, s)| + One(p(v))
  {
    assert Such(p, s + {v}) == Such(p, s) + (if p(v) then {v} else {});
  }

  lemma {:induction false} CountSuch(p: int -> bool, n: nat)
    ensures Count(p, n) == |Such(p, Below(n))|
  {
    hide Such;
    if n == 0 {
      SuchNone(p);
    } else {
      CountSuch(p, n - 1);
      SuchMore(p, Below(n - 1), n - 1);
    }
  }

  lemma SuchNone(p: int -> bool)
    ensures |Such(p, {})| == 0
  {
    assert Such(p, {}) == {};
  }

  lemma FirstStep(x: Word, n: nat)
    ensures Iter(n, Step(x)) == Iter(n + 1, x)
  {
    hide Step;
    IterAdd(1, n, x);
    assert Iter(1, x) == Step(Iter(0, x));
  }

  lemma {:induction false} RoundsSuch(p: int -> bool, x: Word, n: nat)
    requires n <= M
    ensures Rounds(p, x, n) == |Such(p, Visited(Step(x), n))|
  {
    hide Iter, Step, Such;
    if n == 0 {
      SuchNone(p);
    } else {
      RoundsSuch(p, x, n - 1);
      FirstStep(x, n - 1);
      VisitedFresh(Step(x), n - 1);
      SuchMore(p, Visited(Step(x), n - 1), Iter(n - 1, Step(x)));
    }
  }

  /** A property holds in as many rounds of a period as there are states that have it. */
  lemma RoundsAreCounts(p: int -> bool, x: Word)
    ensures Rounds(p, x, M) == Count(p, M)
  {
    hide Iter, Step, Such, Visited, Rounds, Count, Below;
    RoundsSuch(p, x, M);
    CountSuch(p, M);
    VisitedSize(Step(x), M);
    BelowSize(M);
    SubsetOfSameSize(Visited(Step(x), M), Below(M));
  }

  // Outputs -----------------------------------------------------------------------

  const OUT := 65536            // states per output, and outputs

  lemma {:induction false} CountBlock(p: int -> bool, q: int -> bool, j: nat, i: nat)
    requires i <= OUT && forall s :: 0 <= s ==> p(s) == q(s / OUT)
    ensures Count(p, j * OUT + i) == Count(p, j * OUT) + i * One(q(j))
  {
    if i == 0 {
    } else {
      CountBlock(p, q, j, i - 1);
      assert (j * OUT + i - 1) / OUT == j;
    }
  }

  lemma {:induction false} CountBlocks(p: int -> bool, q: int -> bool, j: nat)
    requires forall s :: 0 <= s ==> p(s) == q(s / OUT)
    ensures Count(p, j * OUT) == OUT * Count(q, j)
  {
    if j == 0 {
    } else {
      CountBlocks(p, q, j - 1);
      CountBlock(p, q, j - 1, OUT);
      assert (j - 1) * OUT + OUT == j * OUT;
    }
  }

  /** In how many rounds of a period the value returned satisfies q. */
  function Draws(q: int -> bool, x: Word): nat {
    Rounds(s => q(s / OUT), x, M)
  }

  lemma DrawsAreCounts(q: int -> bool, x: Word)
    ensures Draws(q, x) == OUT * Count(q, OUT)
  {
    var p := s => q(s / OUT);
    RoundsAreCounts(p, x);
    CountBlocks(p, q, OUT);
  }

  lemma {:induction false} CountSame(p: int -> bool, q: int -> bool, n: nat)
    requires forall v :: 0 <= v < n ==> p(v) == q(v)
    ensures Count(p, n) == Count(q, n)
  {
    if n == 0 {
    } else {
      CountSame(p, q, n - 1);
    }
  }

  lemma DrawsSame(p: int -> bool, q: int -> bool, x: Word)
    requires forall v :: 0 <= v < OUT ==> p(v) == q(v)
    ensures Draws(p, x) == Draws(q, x)
  {
    hide Draws, Count;
    DrawsAreCounts(p, x);
    DrawsAreCounts(q, x);
    CountSame(p, q, OUT);
  }

  lemma {:induction false} CountOne(v: int, n: nat)
    requires 0 <= v
    ensures Count(w => w == v, n) == One(v < n)
  {
    if n == 0 {
    } else {
      CountOne(v, n - 1);
    }
  }

  /** Each of 0..65535 is returned exactly 65536 times in a period. */
  lemma EachOutput(v: int, x: Word)
    requires 0 <= v < OUT
    ensures Draws(w => w == v, x) == 65536
  {
    DrawsAreCounts(w => w == v, x);
    CountOne(v, OUT);
  }

  // Tickets -----------------------------------------------------------------------

  /** The draw v wins for the holder of the k tickets that follow the first lo, of t in all. */
  predicate Wins(v: int, lo: int, k: int, t: int)
    requires t > 0
  {
    lo <= v % t < lo + k
  }

  function Clamp(a: int, k: nat): int { if a < 0 then 0 else if a > k then k else a }

  lemma AtLeastOnce(x: int, t: int)
    requires x >= 1 && t >= 0
    ensures x * t >= t
  {
    assert x * t == (x - 1) * t + t;
  }

  lemma DivisionUnique(a: int, b: int, q: int, r: int, t: int)
    requires 0 <= b < t && 0 <= r < t && a * t + b == q * t + r
    ensures a == q && b == r
  {
    if a > q {
      assert (a - q) * t == a * t - q * t;
      AtLeastOnce(a - q, t);
    } else if a < q {
      assert (q - a) * t == q * t - a * t;
      AtLeastOnce(q - a, t);
    }
  }

  lemma ModOf(q: nat, r: nat, t: nat)
    requires r < t
    ensures (q * t + r) % t == r && (q * t + r) / t == q
  {
    var v := q * t + r;
    assert v == (v / t) * t + v % t;
    DivisionUnique(v / t, v % t, q, r, t);
  }

  lemma {:induction false} CountTickets(lo: nat, k: nat, t: nat, q: nat, r: nat)
    requires 0 < t && lo + k <= t && r < t
    ensures Count(v => Wins(v, lo, k, t), q * t + r) == q * k + Clamp(r - lo, k)
    decreases q, r
  {
    hide Count;
    var p := v => Wins(v, lo, k, t);
    if r > 0 {
      CountTickets(lo, k, t, q, r - 1);
      ModOf(q, r - 1, t);
      CountStep(p, q * t + (r - 1));
    } else if q > 0 {
      CountTickets(lo, k, t, q - 1, t - 1);
      ModOf(q - 1, t - 1, t);
      CountStep(p, (q - 1) * t + (t - 1));
      assert (q - 1) * t + (t - 1) + 1 == q * t;
      assert (q - 1) * k + k == q * k;
    } else {
      CountStart(p);
      assert q * t + r == 0 && q * k == 0;
    }
  }

  lemma CountStart(p: int -> bool)
    ensures Count(p, 0) == 0
  {
  }

  lemma CountStep(p: int -> bool, n: nat)
    ensures Count(p, n + 1) == Count(p, n) + One(p(n))
  {
  }

  /** Rounded up. */
  lemma CeilingOf(n: nat, t: nat)
    requires 0 < t
    ensures (n + t - 1) / t == n / t + One(n % t > 0)
  {
    var q, r := n / t, n % t;
    assert n == q * t + r;
    if r == 0 {
      ModOf(q, t - 1, t);
    } else {
      ModOf(q + 1, r - 1, t);
      assert (q + 1) * t == q * t + t;
    }
  }

  /** Of one period's rounds the holder of k out of t tickets wins its share, up to rounding. */
  lemma FairShare(lo: nat, k: nat, t: nat, x: Word)
    requires 0 < t && lo + k <= t
    ensures 65536 * k * (65536 / t) <= Draws(v => Wins(v, lo, k, t), x) <= 65536 * k * ((65536 + t - 1) / t)
  {
    hide Draws, Count;
    var p := v => Wins(v, lo, k, t);
    DrawsAreCounts(p, x);
    var q, r := OUT / t, OUT % t;
    assert OUT == q * t + r;
    CountTickets(lo, k, t, q, r);
    CeilingOf(OUT, t);
    ShareAlgebra(q, k, Count(p, OUT));
  }

  lemma ShareAlgebra(q: nat, k: nat, c: nat)
    ensures q * k <= c ==> 65536 * k * q <= 65536 * c
    ensures c <= q * k ==> 65536 * c <= 65536 * k * q
    ensures c <= q * k + k ==> 65536 * c <= 65536 * k * (q + 1)
  {
  }
}
