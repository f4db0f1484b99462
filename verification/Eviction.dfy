/** Which buffer bget takes over: in every run, the one whose last user let go of it longest ago. */
module Eviction {
  import opened Disk
  import opened BufferCache

  /** The step drops the last reference to its buffer. */
  predicate LetsGo(s: State, e: Step) { e.Put? && e.i < |s.bufs| && s.bufs[e.i].refcnt == 1 }

  /** When each buffer was last let go of, the steps of the run being numbered from t on. */
  ghost function Stamps(s: State, es: seq<Step>, t: nat, stamps: seq<nat>): (r: seq<nat>)
    requires Runs(s, es) && |stamps| == |s.bufs|
    ensures |r| == |s.bufs|
    decreases |es|
  {
    if es == [] then stamps
    else Stamps(After(s, es[0]), es[1..], t + 1, Stamped(s, es[0], t, stamps))
  }

  ghost function Stamped(s: State, e: Step, t: nat, stamps: seq<nat>): (r: seq<nat>)
    requires |stamps| == |s.bufs|
    ensures |r| == |s.bufs|
  {
    if LetsGo(s, e) then stamps[e.i := t] else stamps
  }

  /** The ring goes from the latest to the earliest, all of them before t. */
  ghost predicate Ranked(order: seq<nat>, stamps: seq<nat>, t: nat) {
    && (forall k :: 0 <= k < |order| ==> order[k] < |stamps|)
    && (forall k :: 0 <= k < |stamps| ==> stamps[k] < t)
    && (forall k, m :: 0 <= k < m < |order| ==> stamps[order[k]] >= stamps[order[m]])
  }

  lemma FrontRanked(order: seq<nat>, stamps: seq<nat>, t: nat, i: nat)
    requires Ranked(order, stamps, t) && Permutation(order, |stamps|) && i in order
    ensures Ranked([i] + Without(order, i), stamps[i := t], t + 1)
  {
    hide Without;
    var k :| 0 <= k < |order| && order[k] == i;
    var ring, after := [i] + Without(order, i), stamps[i := t];
    MovedFrontAt(order, i, k, 0);
    forall m | 0 <= m < |order|
      ensures ring[m] == order[Origin(k, m)]
    {
      MovedFrontAt(order, i, k, m);
    }
    forall a, b | 0 <= a < b < |ring|
      ensures after[ring[a]] >= after[ring[b]]
    {
      assert ring[a] == order[Origin(k, a)] && ring[b] == order[Origin(k, b)];
    }
  }

  lemma StepRanked(s: State, e: Step, stamps: seq<nat>, t: nat)
    requires Inv(s) && Enabled(s, e) && |stamps| == |s.bufs| && Ranked(s.order, stamps, t)
    ensures |After(s, e).bufs| == |s.bufs| && Ranked(After(s, e).order, Stamped(s, e, t, stamps), t + 1)
  {
    hide KeysOk, BufOk, BehindOk, Recyclable, Without;
    if LetsGo(s, e) {
      PermutationHasAll(s.order, |s.bufs|, e.i);
      FrontRanked(s.order, stamps, t, e.i);
    }
  }

  lemma {:induction false} RunRanked(s: State, es: seq<Step>, stamps: seq<nat>, t: nat)
    requires Inv(s) && Runs(s, es) && |stamps| == |s.bufs| && Ranked(s.order, stamps, t)
    ensures |Final(s, es).bufs| == |s.bufs|
    ensures Ranked(Final(s, es).order, Stamps(s, es, t, stamps), t + |es|)
    decreases |es|
  {
    hide Inv, Enabled, After, Ranked, Stamped;
    if es == [] {
    } else {
      StepKeeps(s, es[0]);
      StepRanked(s, es[0], stamps, t);
      RunRanked(After(s, es[0]), es[1..], Stamped(s, es[0], t, stamps), t + 1);
    }
  }

  lemma OldestUnused(bufs: seq<Buf>, order: seq<nat>, stamps: seq<nat>, t: nat, i: nat, j: nat)
    requires Permutation(order, |bufs|) && |stamps| == |bufs| && Ranked(order, stamps, t)
    requires LeastRecent(bufs, order, i) && j < |bufs| && Unused(bufs[j])
    ensures i < |stamps| && stamps[i] <= stamps[j]
  {
    PermutationHasAll(order, |bufs|, j);
    var k :| 0 <= k < |order| && order[k] == i && i < |bufs| && Unused(bufs[i])
      && forall m :: k < m < |order| ==> order[m] < |bufs| && !Unused(bufs[order[m]]);
    var m :| 0 <= m < |order| && order[m] == j;
  }

  lemma BootedRanked(n: nat, disk: seq<Block>)
    ensures |Booted(n, disk).bufs| == n && Inv(Booted(n, disk)) && Ranked(Booted(n, disk).order, seq(n, _ => 0), 1)
  {
    BootedInv(n, disk);
  }

  /** bget recycles the least recently used buffer: after any run from boot, the one it takes was
      let go of no later than any other that is unused, and before boot counts as earliest. */
  lemma EvictsOldest(n: nat, disk: seq<Block>, es: seq<Step>, i: nat, dev: nat, b: nat, j: nat)
    requires Runs(Booted(n, disk), es) && Enabled(Final(Booted(n, disk), es), Recycle(i, dev, b))
    requires var s := Final(Booted(n, disk), es); j < |s.bufs| && Unused(s.bufs[j])
    ensures var stamps := Stamps(Booted(n, disk), es, 1, seq(n, _ => 0));
            i < |stamps| && j < |stamps| && stamps[i] <= stamps[j]
  {
    hide Booted, Final, Stamps, KeysOk, BufOk, BehindOk, Runs, Ranked, Permutation, LeastRecent, Unused;
    var s0 := Booted(n, disk);
    var none := seq(n, _ => 0);
    BootedRanked(n, disk);
    RunRanked(s0, es, none, 1);
    RunKeeps(s0, es);
    var s := Final(s0, es);
    OldestUnused(s.bufs, s.order, Stamps(s0, es, 1, none), 1 + |es|, i, j);
  }
}
