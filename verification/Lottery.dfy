/** The lottery draw of the scheduler: who holds which ticket, and how often each process
    is drawn in one period of the generator. */
module Lottery {
  import opened Param
  import opened Processes
  import Rand
  import Fairness

  function Stake(q: Proc): nat { if q.state.RUNNABLE? then q.nice else 0 }

  /** The tickets held by the runnable processes in the first k slots. */
  function Tickets(ps: seq<Proc>, k: nat): nat
    requires k <= |ps|
  {
    if k == 0 then 0 else Tickets(ps, k - 1) + Stake(ps[k - 1])
  }

  /** Slot i holds the tickets just above those of the slots before it. */
  predicate Holds(ps: seq<Proc>, i: nat, ticket: int)
    requires i < |ps|
  {
    ps[i].state.RUNNABLE? && Tickets(ps, i) < ticket <= Tickets(ps, i) + ps[i].nice
  }

  lemma {:induction false} TicketsMonotone(ps: seq<Proc>, i: nat, j: nat)
    requires i <= j <= |ps|
    ensures Tickets(ps, i) <= Tickets(ps, j)
    decreases j
  {
    if i >= j {
    } else {
      TicketsMonotone(ps, i, j - 1);
    }
  }

  /** No ticket has two holders. */
  lemma HolderUnique(ps: seq<Proc>, i: nat, j: nat, ticket: nat)
    requires i < |ps| && j < |ps| && Holds(ps, i, ticket) && Holds(ps, j, ticket)
    ensures i == j
  {
    if i < j {
      TicketsMonotone(ps, i + 1, j);
    } else if j < i {
      TicketsMonotone(ps, j + 1, i);
    }
  }

  /** Every ticket in play has one. */
  lemma {:induction false} HolderExists(ps: seq<Proc>, k: nat, ticket: nat)
    requires k <= |ps| && 1 <= ticket <= Tickets(ps, k)
    ensures exists i :: 0 <= i < k && Holds(ps, i, ticket)
  {
    if ticket <= Tickets(ps, k - 1) {
      HolderExists(ps, k - 1, ticket);
    } else {
      assert Holds(ps, k - 1, ticket);
    }
  }

  /** There are tickets in play exactly when somebody is runnable. */
  lemma {:induction false} TicketsPositive(ps: seq<Proc>, k: nat)
    requires k <= |ps| && NiceOk(ps)
    ensures Tickets(ps, k) > 0 <==> exists i :: 0 <= i < k && ps[i].state.RUNNABLE?
  {
    if k == 0 {
    } else {
      TicketsPositive(ps, k - 1);
    }
  }

  lemma {:induction false} TicketsBound(ps: seq<Proc>, k: nat)
    requires k <= |ps| && NiceOk(ps)
    ensures Tickets(ps, k) <= MAX_NICE * k
  {
    if k == 0 {
    } else {
      TicketsBound(ps, k - 1);
    }
  }

  /** The ticket that the scheduler computes from rand()'s value. */
  function Ticket(v: nat, total: nat): nat
    requires total > 0
  {
    v % total + 1
  }

  /** The scheduler picks slot i when rand returns v. */
  predicate Chosen(ps: seq<Proc>, i: nat, v: int)
    requires i < |ps|
  {
    v >= 0 && Tickets(ps, |ps|) > 0 && Holds(ps, i, Ticket(v, Tickets(ps, |ps|)))
  }

  /** Slot i is chosen for value v exactly when v falls on its share of the tickets. */
  lemma ChosenIff(ps: seq<Proc>, i: nat, v: nat)
    requires i < |ps| && ps[i].state.RUNNABLE? && Tickets(ps, |ps|) > 0
    ensures Chosen(ps, i, v) <==> Fairness.Wins(v, Tickets(ps, i), ps[i].nice, Tickets(ps, |ps|))
  {
  }

  /** Exactly nice of the tickets 1..total select slot i. */
  lemma SharesAreNice(ps: seq<Proc>, i: nat)
    requires i < |ps| && ps[i].state.RUNNABLE?
    ensures Fairness.Count(u => Holds(ps, i, u + 1), Tickets(ps, |ps|)) == ps[i].nice
  {
    TicketsMonotone(ps, i + 1, |ps|);
    CountInterval(ps, i, Tickets(ps, |ps|));
  }

  lemma {:induction false} CountInterval(ps: seq<Proc>, i: nat, n: nat)
    requires i < |ps| && ps[i].state.RUNNABLE?
    ensures Fairness.Count(u => Holds(ps, i, u + 1), n) == Fairness.Clamp(n - Tickets(ps, i), ps[i].nice)
  {
    if n == 0 {
    } else {
      CountInterval(ps, i, n - 1);
    }
  }

  /** While the same processes stay runnable, one of them is drawn its share of the 2^32
      rounds of a period, whatever the seed. */
  lemma FairDraws(ps: seq<Proc>, i: nat, x: Rand.Word)
    requires i < |ps| && ps[i].state.RUNNABLE? && NiceOk(ps)
    ensures var t := Tickets(ps, |ps|);
            && t > 0
            && 65536 * ps[i].nice * (65536 / t)
               <= Fairness.Draws(v => Chosen(ps, i, v), x)
               <= 65536 * ps[i].nice * ((65536 + t - 1) / t)
  {
    TicketsPositive(ps, |ps|);
    TicketsMonotone(ps, i + 1, |ps|);
    var lo, k, t := Tickets(ps, i), ps[i].nice, Tickets(ps, |ps|);
    Fairness.FairShare(lo, k, t, x);
    var p: int -> bool, q: int -> bool := v => Chosen(ps, i, v), v => Fairness.Wins(v, lo, k, t);
    forall v | 0 <= v < 65536
      ensures p(v) == q(v)
    {
      ChosenIff(ps, i, v);
    }
    Fairness.DrawsSame(p, q, x);
  }

  /** Nobody runnable starves: in a table of NPROC slots every ticket comes up at least
      ten times 65536 in a period. */
  lemma NoStarvation(ps: seq<Proc>, i: nat, x: Rand.Word)
    requires |ps| <= NPROC && i < |ps| && ps[i].state.RUNNABLE? && NiceOk(ps)
    ensures var t := Tickets(ps, |ps|);
            t > 0 && Fairness.Draws(v => Chosen(ps, i, v), x) >= 655360 * ps[i].nice
  {
    FairDraws(ps, i, x);
    TicketsBound(ps, |ps|);
    TenAtLeast(ps[i].nice, Tickets(ps, |ps|));
  }

  lemma TenAtLeast(k: nat, t: nat)
    requires 0 < t <= 6400
    ensures 65536 * k * (65536 / t) >= 655360 * k
  {
    var q := 65536 / t;
    assert 65536 == q * t + 65536 % t;
    assert q <= 9 ==> q * t <= 9 * t;
    assert 65536 * k * q == 65536 * (k * q);
    assert k * q >= k * 10;
  }
}
