/** Room for commit: when it finds buffers, and when what it copies stays within the log. */
module LogSpace {
  import opened Disk
  import opened Param
  import opened RedoLog
  import opened Journal
  import Cache = BufferCache
  import Group = GroupCommit

  // Counting pins -------------------------------------------------------------------------------

  function Dirty(bufs: seq<Cache.Buf>): (r: set<nat>) {
    set i: nat | i < |bufs| && bufs[i].dirty
  }

  function Referenced(bufs: seq<Cache.Buf>): (r: set<nat>) {
    set i: nat | i < |bufs| && bufs[i].refcnt > 0
  }

  ghost predicate HeldIn(bufs: seq<Cache.Buf>, some: set<nat>, b: nat) {
    exists i :: i in some && i < |bufs| && bufs[i].blockno == b
  }

  lemma {:induction false} AtLeast(bufs: seq<Cache.Buf>, todo: seq<nat>, some: set<nat>)
    requires Group.Distinct(todo) && forall t :: 0 <= t < |todo| ==> HeldIn(bufs, some, todo[t])
    ensures |todo| <= |some|
  {
    if todo == [] {
    } else {
      var i :| i in some && i < |bufs| && bufs[i].blockno == todo[0];
      forall t | 0 <= t < |todo[1..]|
        ensures HeldIn(bufs, some - {i}, todo[1..][t])
      {
        assert HeldIn(bufs, some, todo[t + 1]);
      }
      AtLeast(bufs, todo[1..], some - {i});
    }
  }

  lemma {:induction false} AtMost(bufs: seq<Cache.Buf>, todo: seq<nat>, some: set<nat>)
    requires forall i :: i in some ==> i < |bufs| && bufs[i].blockno in todo
    requires forall i, j :: i in some && j in some && bufs[i].blockno == bufs[j].blockno ==> i == j
    ensures |some| <= |todo|
  {
    if todo == [] {
      assert some == {};
    } else if i :| i in some && bufs[i].blockno == todo[0] {
      AtMost(bufs, todo[1..], some - {i});
    } else {
      AtMost(bufs, todo[1..], some);
    }
  }

  lemma TodoDistinct(l: Layout, s: State, home: seq<Block>)
    requires Inv(l, s, home)
    ensures Group.Distinct(Unwritten(s.log.sh.lh, s.phase))
  {
    hide Cache.Inv, OnDisk, HeaderOk, CopiesOk, PinsOk, ChangesOk, AheadOk;
  }

  lemma DirtyHolds(l: Layout, s: State, home: seq<Block>)
    requires Inv(l, s, home)
    ensures forall t :: 0 <= t < |Unwritten(s.log.sh.lh, s.phase)| ==>
              HeldIn(s.cache.bufs, Dirty(s.cache.bufs), Unwritten(s.log.sh.lh, s.phase)[t])
    ensures forall i :: i in Dirty(s.cache.bufs) ==> s.cache.bufs[i].blockno in Unwritten(s.log.sh.lh, s.phase)
  {
    hide Cache.Inv, Group.Inv, OnDisk, HeaderOk, CopiesOk, ChangesOk, AheadOk, Unwritten;
    var bufs, todo := s.cache.bufs, Unwritten(s.log.sh.lh, s.phase);
    forall t | 0 <= t < |todo|
      ensures HeldIn(bufs, Dirty(bufs), todo[t])
    {
      assert Pinned(bufs, todo[t]);
      var i :| 0 <= i < |bufs| && bufs[i].dirty && bufs[i].valid && Cache.HasKey(bufs[i], 1, todo[t]);
      assert i in Dirty(bufs);
    }
  }

  lemma DirtyDiffer(s: Cache.State, i: nat, j: nat)
    requires Cache.Inv(s) && i in Dirty(s.bufs) && j in Dirty(s.bufs) && s.bufs[i].blockno == s.bufs[j].blockno
    ensures i == j
  {
    BufIs(s, i);
    BufIs(s, j);
    if i != j {
      Cache.SoleHolder(s, i, j) by { CacheInvIs(s); }
    }
  }

  /** As many buffers are pinned as logged blocks are not yet installed. */
  lemma PinCount(l: Layout, s: State, home: seq<Block>)
    requires Inv(l, s, home)
    ensures |Dirty(s.cache.bufs)| == |Unwritten(s.log.sh.lh, s.phase)|
  {
    var bufs, todo := s.cache.bufs, Unwritten(s.log.sh.lh, s.phase);
    assert Cache.Inv(s.cache);
    hide Inv, Cache.Inv, Unwritten;
    TodoDistinct(l, s, home);
    DirtyHolds(l, s, home);
    AtLeast(bufs, todo, Dirty(bufs));
    forall i, j | i in Dirty(bufs) && j in Dirty(bufs) && bufs[i].blockno == bufs[j].blockno
      ensures i == j
    {
      DirtyDiffer(s.cache, i, j);
    }
    AtMost(bufs, todo, Dirty(bufs));
  }

  lemma {:induction false} Few(n: nat, some: set<nat>)
    requires forall i :: i in some ==> i < n
    ensures |some| <= n
  {
    if n == 0 {
      assert some == {};
    } else {
      Few(n - 1, some - {n - 1});
    }
  }

  /** A buffer that is not pinned leaves fewer logged blocks than buffers. */
  lemma CleanLeaves(l: Layout, s: State, home: seq<Block>, i: nat)
    requires Inv(l, s, home) && i < |s.cache.bufs| && !s.cache.bufs[i].dirty
    ensures |Unwritten(s.log.sh.lh, s.phase)| < |s.cache.bufs|
  {
    hide Inv, Unwritten;
    PinCount(l, s, home);
    Few(|s.cache.bufs|, Dirty(s.cache.bufs) + {i});
  }

  // Buffers for commit --------------------------------------------------------------------------

  ghost predicate SomeUnused(bufs: seq<Cache.Buf>) { exists i :: 0 <= i < |bufs| && Cache.Unused(bufs[i]) }

  /** bget goes on for process p: the block is cached or a buffer can be recycled. */
  ghost predicate BgetOpen(l: Layout, s: State, p: nat, b: nat) {
    exists i: nat :: Enabled(l, s, Use(p, Cache.Hit(i, 1, b))) || Enabled(l, s, Use(p, Cache.Recycle(i, 1, b)))
  }

  /** Looking back from place k, the least recently released unused buffer. */
  lemma {:induction false} FindLeast(bufs: seq<Cache.Buf>, order: seq<nat>, k: nat) returns (i: nat)
    requires Cache.Permutation(order, |bufs|) && k <= |order|
    requires forall m :: k <= m < |order| ==> !Cache.Unused(bufs[order[m]])
    requires exists m :: 0 <= m < k && Cache.Unused(bufs[order[m]])
    ensures Cache.LeastRecent(bufs, order, i)
  {
    if Cache.Unused(bufs[order[k - 1]]) {
      i := order[k - 1];
    } else {
      i := FindLeast(bufs, order, k - 1);
    }
  }

  /** Exactly when a bread gets past bget's panic: the block is cached, or some buffer is neither
      referenced nor pinned. */
  lemma BgetIff(l: Layout, s: State, home: seq<Block>, p: nat, b: nat)
    requires Inv(l, s, home) && p < |s.log.ops| && !s.log.ops[p].Asleep? && !s.log.ops[p].Passed?
    ensures BgetOpen(l, s, p, b) <==> !Cache.Uncached(s.cache.bufs, 1, b) || SomeUnused(s.cache.bufs)
  {
    hide Group.Inv, OnDisk, HeaderOk, CopiesOk, PinsOk, ChangesOk, AheadOk, PhaseOk;
    var bufs, order := s.cache.bufs, s.cache.order;
    if !Cache.Uncached(bufs, 1, b) {
      var i :| 0 <= i < |bufs| && Cache.HasKey(bufs[i], 1, b);
      assert Enabled(l, s, Use(p, Cache.Hit(i, 1, b)));
    } else if SomeUnused(bufs) {
      var j :| 0 <= j < |bufs| && Cache.Unused(bufs[j]);
      Cache.PermutationHasAll(order, |bufs|, j);
      var m :| 0 <= m < |order| && order[m] == j;
      var i := FindLeast(bufs, order, |order|);
      assert Enabled(l, s, Use(p, Cache.Recycle(i, 1, b)));
    }
  }

  lemma UnusedLeft(l: Layout, s: State, home: seq<Block>)
    requires Inv(l, s, home)
    requires |Unwritten(s.log.sh.lh, s.phase)| + |Referenced(s.cache.bufs)| < |s.cache.bufs|
    ensures SomeUnused(s.cache.bufs)
  {
    hide Inv, Unwritten;
    var bufs := s.cache.bufs;
    PinCount(l, s, home);
    if !SomeUnused(bufs) {
      var busy := Dirty(bufs) + Referenced(bufs);
      forall i: nat | i < |bufs|
        ensures i in busy
      {
        assert !Cache.Unused(bufs[i]);
      }
      Many(|bufs|, busy);
    }
  }

  /** With fewer logged blocks and referenced buffers together than buffers, every bread gets
      past it. */
  lemma RoomSuffices(l: Layout, s: State, home: seq<Block>, p: nat, b: nat)
    requires Inv(l, s, home) && p < |s.log.ops| && !s.log.ops[p].Asleep? && !s.log.ops[p].Passed?
    requires |Unwritten(s.log.sh.lh, s.phase)| + |Referenced(s.cache.bufs)| < |s.cache.bufs|
    ensures BgetOpen(l, s, p, b)
  {
    hide Inv, Unwritten, BgetOpen;
    UnusedLeft(l, s, home);
    BgetIff(l, s, home, p, b);
  }

  lemma {:induction false} Many(n: nat, some: set<nat>)
    requires forall i: nat :: i < n ==> i in some
    ensures |some| >= n
  {
    if n == 0 {
    } else {
      Many(n - 1, some - {n - 1});
    }
  }

  /** With every buffer pinned commit cannot start: a log block has no buffer and gets none. */
  lemma AllPinnedStops(l: Layout, s: State, home: seq<Block>, p: nat, b: nat)
    requires Inv(l, s, home) && p < |s.log.ops| && !s.log.ops[p].Asleep? && !s.log.ops[p].Passed?
    requires |Unwritten(s.log.sh.lh, s.phase)| == |s.cache.bufs| && InLog(l, b)
    ensures !BgetOpen(l, s, p, b)
  {
    var bufs := s.cache.bufs;
    forall i: nat | i < |bufs|
      ensures bufs[i].dirty && bufs[i].blockno != b
    {
      if !bufs[i].dirty {
        CleanLeaves(l, s, home, i);
      }
      LoggedIsHome(l, s, home, i);
    }
    hide Inv, Unwritten, BgetOpen;
    BgetIff(l, s, home, p, b);
  }

  lemma LoggedIsHome(l: Layout, s: State, home: seq<Block>, i: nat)
    requires Inv(l, s, home) && i < |s.cache.bufs| && s.cache.bufs[i].dirty
    ensures !InLog(l, s.cache.bufs[i].blockno)
  {
    hide Cache.Inv, Group.Inv, OnDisk, HeaderOk, CopiesOk, ChangesOk, AheadOk;
  }

  // Staying within the log ----------------------------------------------------------------------

  /** Once commit has copied a block, not every buffer is pinned; and a log that is only a header
      stays empty. */
  ghost predicate Tight(l: Layout, s: State) {
    && (s.phase.Logging? && (s.phase.tail > 0 || s.phase.copied) ==> |s.log.sh.lh| < |s.cache.bufs|)
    && (l.size <= 1 ==> s.log.sh.lh == [] && forall q :: 0 <= q < |s.log.ops| ==> !s.log.ops[q].Passed?)
  }

  lemma PassedEffect(l: Layout, s: State, e: Step, q: nat)
    requires Enabled(l, s, e) && q < |LogAfter(l, s, e).ops| && LogAfter(l, s, e).ops[q].Passed?
    ensures q < |s.log.ops|
    ensures (e.Test? && q == e.p && |s.log.sh.lh| + 1 < l.size) || (s.log.ops[q].Passed? && !(e.Append? && q == e.p))
  {
    hide Cache.Enabled;
  }

  lemma AppendActor(l: Layout, s: State, e: Step)
    requires Enabled(l, s, e) && e.Append?
    ensures e.p < |s.log.ops| && s.log.ops[e.p].Passed?
  {
    hide Cache.Enabled;
  }

  lemma FirstCopy(l: Layout, s: State, e: Step, home: seq<Block>)
    requires Inv(l, s, home) && Stays(l, s, e) && e.Copy? && s.phase.Logging?
    ensures |s.log.sh.lh| < |s.cache.bufs|
  {
    hide Cache.Inv, Group.Inv, Cache.Enabled, OnDisk, HeaderOk, CopiesOk, ChangesOk, AheadOk;
    assert InLog(l, s.cache.bufs[e.to].blockno);
    CleanLeaves(l, s, home, e.to);
  }

  lemma TightKept(l: Layout, s: State, e: Step, home: seq<Block>)
    requires Inv(l, s, home) && Stays(l, s, e) && Tight(l, s)
    ensures Tight(l, After(l, s, e))
  {
    hide Cache.Inv, Group.Inv, Cache.Enabled, Group.Enabled, Cache.After, Group.Take, CacheAfter, LogAfter, OnDisk;
    hide HeaderOk, CopiesOk, PinsOk, ChangesOk, AheadOk, HasBlock, Has, CacheMove, LogMove, Names;
    SameCount(l, s, e, home);
    LogEffect(l, s, e);
    forall q | 0 <= q < |LogAfter(l, s, e).ops| && l.size <= 1
      ensures !LogAfter(l, s, e).ops[q].Passed?
    {
      if LogAfter(l, s, e).ops[q].Passed? {
        PassedEffect(l, s, e, q);
      }
    }
    if e.Append? {
      AppendActor(l, s, e);
    }
    if e.Copy? && s.phase.Logging? {
      FirstCopy(l, s, e, home);
    }
    if Works(e) {
      Actor(l, s, e, home);
    }
  }

  /** Logs and caches with which nothing can go wrong. On a volume of mkfs with param.h's NBUF
      buffers both sizes are LOGSIZE. */
  predicate Harmless(l: Layout, n: nat) { l.size > LOGSIZE || n <= l.size || l.size == 1 }

  lemma NoOverrun(l: Layout, s: State, e: Step, home: seq<Block>)
    requires Inv(l, s, home) && Enabled(l, s, e) && Tight(l, s) && Harmless(l, |s.cache.bufs|)
    ensures Stays(l, s, e)
  {
    hide Cache.Inv, Group.Inv, Enabled, OnDisk, HeaderOk, CopiesOk, PinsOk, ChangesOk, AheadOk;
  }

  lemma {:induction false} ContainedFrom(l: Layout, s: State, es: seq<Step>, home: seq<Block>)
    requires Inv(l, s, home) && Runs(l, s, es) && Tight(l, s) && Harmless(l, |s.cache.bufs|)
    ensures Contained(l, s, es)
    decreases |es|
  {
    if es == [] {
    } else {
      hide Inv, Enabled, After, SealedAfter, Tight, Overruns;
      NoOverrun(l, s, es[0], home);
      StepKeeps(l, s, es[0], home);
      TightKept(l, s, es[0], home);
      SameBuffers(l, s, es[0], home);
      ContainedFrom(l, After(l, s, es[0]), es[1..], SealedAfter(s, es[0], home));
    }
  }

  lemma SameBuffers(l: Layout, s: State, e: Step, home: seq<Block>)
    requires Inv(l, s, home) && Stays(l, s, e)
    ensures |After(l, s, e).cache.bufs| == |s.cache.bufs|
  {
    hide Inv, Enabled, CacheAfter, LogAfter, PhaseAfter;
    SameCount(l, s, e, home);
  }

  /** Every run stays within the log if it has more than LOGSIZE blocks, or no fewer than there
      are buffers: with more logged blocks than it holds, commit finds no buffer to copy into. */
  lemma AlwaysContained(l: Layout, n: nat, procs: nat, d: seq<Block>, es: seq<Step>)
    requires Bootable(l, d) && Runs(l, Booted(n, procs, d), es) && Harmless(l, n)
    ensures Contained(l, Booted(n, procs, d), es)
  {
    BootedInv(l, n, procs, d);
    ContainedFrom(l, Booted(n, procs, d), es, d);
  }

  // One at a time past the guard ----------------------------------------------------------------

  /** No log_write passes the guard while another is between guard and lock. */
  ghost predicate OneAtATime(l: Layout, s: State, es: seq<Step>)
    requires Runs(l, s, es)
    decreases |es|
  {
    es != [] ==>
      && (es[0].Test? ==> forall q :: 0 <= q < |s.log.ops| ==> !s.log.ops[q].Passed?)
      && OneAtATime(l, After(l, s, es[0]), es[1..])
  }

  ghost predicate SerialOk(l: Layout, s: State) {
    && |s.log.sh.lh| < l.size
    && (forall q :: 0 <= q < |s.log.ops| && s.log.ops[q].Passed? ==> |s.log.sh.lh| + 1 < l.size)
    && (forall q, r :: 0 <= q < r < |s.log.ops| && s.log.ops[q].Passed? ==> !s.log.ops[r].Passed?)
  }

  lemma SerialKept(l: Layout, s: State, e: Step)
    requires Enabled(l, s, e) && SerialOk(l, s)
    requires e.Test? ==> forall q :: 0 <= q < |s.log.ops| ==> !s.log.ops[q].Passed?
    ensures SerialOk(l, After(l, s, e))
  {
    hide Enabled, CacheAfter, LogAfter, PhaseAfter;
    LogEffect(l, s, e);
    if e.Append? {
      AppendActor(l, s, e);
    }
    forall q | 0 <= q < |LogAfter(l, s, e).ops| && LogAfter(l, s, e).ops[q].Passed?
      ensures (e.Test? && q == e.p && |s.log.sh.lh| + 1 < l.size) || (s.log.ops[q].Passed? && !(e.Append? && q == e.p))
    {
      PassedEffect(l, s, e, q);
    }
  }

  lemma {:induction false} SerialFrom(l: Layout, s: State, es: seq<Step>, home: seq<Block>)
    requires Inv(l, s, home) && Runs(l, s, es) && SerialOk(l, s) && OneAtATime(l, s, es)
    ensures Contained(l, s, es)
    decreases |es|
  {
    if es == [] {
    } else {
      hide Enabled, After, SealedAfter, Cache.Inv, Group.Inv, OnDisk, HeaderOk, CopiesOk, PinsOk, ChangesOk, AheadOk;
      assert !Overruns(l, s, es[0]);
      StepKeeps(l, s, es[0], home);
      SerialKept(l, s, es[0]);
      SerialFrom(l, After(l, s, es[0]), es[1..], SealedAfter(s, es[0], home));
    }
  }

  /** So does every run in which the guard and the append are one, whatever the sizes. */
  lemma SerialContained(l: Layout, n: nat, procs: nat, d: seq<Block>, es: seq<Step>)
    requires Bootable(l, d) && Runs(l, Booted(n, procs, d), es) && OneAtATime(l, Booted(n, procs, d), es)
    ensures Contained(l, Booted(n, procs, d), es)
  {
    BootedInv(l, n, procs, d);
    SerialFrom(l, Booted(n, procs, d), es, d);
  }
}
