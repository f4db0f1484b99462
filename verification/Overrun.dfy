/** A run in which commit writes past the end of a log that is smaller than it looks, and the
    exact condition under which there is none. */
module Overrun {
  import opened Disk
  import opened Param
  import opened RedoLog
  import opened Journal
  import opened LogSpace
  import Cache = BufferCache
  import Group = GroupCommit

  // Runs without a header write -----------------------------------------------------------------

  ghost predicate Unsealed(l: Layout, s: State, es: seq<Step>)
    requires Runs(l, s, es)
    decreases |es|
  {
    es != [] ==> !Seals(s, es[0]) && Unsealed(l, After(l, s, es[0]), es[1..])
  }

  ghost predicate Leads(l: Layout, s: State, t: State) {
    exists es :: Runs(l, s, es) && Final(l, s, es) == t && Unsealed(l, s, es)
  }

  lemma {:induction false} Joined(l: Layout, s: State, es: seq<Step>, fs: seq<Step>)
    requires Runs(l, s, es) && Runs(l, Final(l, s, es), fs)
    requires Unsealed(l, s, es) && Unsealed(l, Final(l, s, es), fs)
    ensures Runs(l, s, es + fs) && Final(l, s, es + fs) == Final(l, Final(l, s, es), fs) && Unsealed(l, s, es + fs)
    decreases |es|
  {
    hide Enabled, After, Seals;
    if es == [] {
      assert es + fs == fs;
    } else {
      Joined(l, After(l, s, es[0]), es[1..], fs);
      assert (es + fs)[1..] == es[1..] + fs;
    }
  }

  lemma LeadsOn(l: Layout, s: State, t: State, u: State)
    requires Leads(l, s, t) && Leads(l, t, u)
    ensures Leads(l, s, u)
  {
    hide Runs, Final, Unsealed;
    var es :| Runs(l, s, es) && Final(l, s, es) == t && Unsealed(l, s, es);
    var fs :| Runs(l, t, fs) && Final(l, t, fs) == u && Unsealed(l, t, fs);
    Joined(l, s, es, fs);
  }

  lemma LeadsNowhere(l: Layout, s: State)
    ensures Leads(l, s, s)
  {
    assert Runs(l, s, []) && Final(l, s, []) == s && Unsealed(l, s, []);
  }

  lemma LeadsStep(l: Layout, s: State, e: Step)
    requires Enabled(l, s, e) && !Seals(s, e)
    ensures Leads(l, s, After(l, s, e))
  {
    hide Enabled, After;
    var es, t := [e], After(l, s, e);
    assert es[0] == e && es[1..] == [];
    assert Runs(l, t, []) && Final(l, t, []) == t && Unsealed(l, t, []);
    assert Runs(l, s, es) && Final(l, s, es) == t;
    assert Unsealed(l, s, es);
  }

  /** Nothing has become durable on the way. */
  lemma {:induction false} UnsealedSurvivor(l: Layout, s: State, es: seq<Step>, b: nat, stored: Block, durable: Block)
    requires Runs(l, s, es) && Unsealed(l, s, es)
    ensures Survivor(l, s, es, b, stored, durable) == durable
    decreases |es|
  {
    hide Enabled, After, Seals;
    if es == [] {
    } else {
      var e := es[0];
      var stores := e.Store? && e.i < |s.cache.bufs| && Cache.HasKey(s.cache.bufs[e.i], 1, b);
      UnsealedSurvivor(l, After(l, s, e), es[1..], b, if stores then e.data else stored, durable);
    }
  }

  // Steps, one by one ---------------------------------------------------------------------------

  predicate Awake(s: State, p: nat) { p < |s.log.ops| && !s.log.ops[p].Asleep? && !s.log.ops[p].Passed? }

  lemma DoUse(l: Layout, s: State, home: seq<Block>, p: nat, c: Cache.Step) returns (t: State)
    requires Inv(l, s, home) && Awake(s, p) && Cache.Enabled(s.cache, c)
    requires c.Hit? || c.Recycle? || c.Put? || c.Lock? || ((c.Fill? || c.Unlock?) && Has(s, p, c.i))
    ensures Leads(l, s, t) && Inv(l, t, home)
    ensures t == State(Cache.After(s.cache, c), s.log, s.phase, if c.Lock? then s.holder[c.i := p] else s.holder)
  {
    hide Cache.Inv, Group.Inv, Cache.After, Cache.Recyclable, OnDisk, HeaderOk, CopiesOk, PinsOk, ChangesOk, AheadOk;
    var e := Use(p, c);
    t := After(l, s, e);
    LeadsStep(l, s, e);
    StepKeeps(l, s, e, home);
  }

  /** bread of a block that is not cached. */
  function Holding(s: State, p: nat, i: nat, b: nat): State
    requires i < |s.cache.bufs| == |s.cache.crowd| == |s.holder| && b < |s.cache.disk|
  {
    var c := s.cache;
    s.(cache := c.(bufs := c.bufs[i := Cache.Buf(1, b, 1, true, false, true, c.disk[b])],
                   crowd := c.crowd[i := Cache.Crowd(0, 0, false)]),
       holder := s.holder[i := p])
  }

  lemma UnusedIs(s: Cache.State, i: nat)
    requires Cache.Inv(s) && i < |s.bufs| && Cache.Unused(s.bufs[i])
    ensures |s.crowd| == |s.bufs| && s.crowd[i] == Cache.Crowd(0, 0, false) && !s.bufs[i].locked
  {
    hide Cache.KeysOk, Cache.BehindOk, Cache.Permutation;
    assert Cache.BufOk(s.bufs[i], s.crowd[i], s.disk, s.latest);
  }

  lemma Recycler(l: Layout, s: State, home: seq<Block>, b: nat) returns (i: nat)
    requires Inv(l, s, home) && Cache.Uncached(s.cache.bufs, 1, b) && SomeUnused(s.cache.bufs)
    ensures i < |s.cache.bufs| && Cache.Unused(s.cache.bufs[i]) && Cache.Enabled(s.cache, Cache.Recycle(i, 1, b))
  {
    hide Group.Inv, OnDisk, HeaderOk, CopiesOk, PinsOk, ChangesOk, AheadOk, PhaseOk, Cache.KeysOk, Cache.BehindOk;
    var bufs, order := s.cache.bufs, s.cache.order;
    var j :| 0 <= j < |bufs| && Cache.Unused(bufs[j]);
    Cache.PermutationHasAll(order, |bufs|, j);
    var m :| 0 <= m < |order| && order[m] == j;
    i := FindLeast(bufs, order, |order|);
  }

  lemma Bread(l: Layout, s: State, home: seq<Block>, p: nat, b: nat) returns (t: State, i: nat)
    requires Inv(l, s, home) && Awake(s, p) && Cache.Uncached(s.cache.bufs, 1, b) && SomeUnused(s.cache.bufs)
    requires b < |s.cache.disk|
    ensures Leads(l, s, t) && Inv(l, t, home)
    ensures i < |s.cache.bufs| == |s.cache.crowd| == |s.holder| && Cache.Unused(s.cache.bufs[i])
    ensures t == Holding(s, p, i, b)
  {
    hide Cache.Inv, Group.Inv, Cache.Recyclable, Cache.Without, Leads, OnDisk, HeaderOk, CopiesOk, PinsOk, ChangesOk;
    hide AheadOk;
    i := Recycler(l, s, home, b);
    UnusedIs(s.cache, i);
    var s1 := DoUse(l, s, home, p, Cache.Recycle(i, 1, b));
    var s2 := DoUse(l, s1, home, p, Cache.Lock(i));
    var s3 := DoUse(l, s2, home, p, Cache.Fill(i));
    LeadsOn(l, s, s1, s2);
    LeadsOn(l, s, s2, s3);
    t := s3;
    assert t.cache.bufs == Holding(s, p, i, b).cache.bufs;
    assert t.cache.crowd == Holding(s, p, i, b).cache.crowd;
  }

  /** brelse by the only one who refers to the buffer; where it goes in the ring does not matter. */
  predicate Released(s: State, t: State, i: nat) {
    && i < |s.cache.bufs| == |s.cache.crowd|
    && t.cache.bufs == s.cache.bufs[i := s.cache.bufs[i].(locked := false, refcnt := 0)]
    && t.cache.crowd == s.cache.crowd[i := Cache.Crowd(0, 0, false)]
    && t.cache.disk == s.cache.disk && t.cache.latest == s.cache.latest
    && t.log == s.log && t.phase == s.phase && t.holder == s.holder
  }

  lemma Brelse(l: Layout, s: State, home: seq<Block>, p: nat, i: nat) returns (t: State)
    requires Inv(l, s, home) && Awake(s, p) && Has(s, p, i) && |s.cache.crowd| == |s.cache.bufs|
    requires s.cache.bufs[i].refcnt == 1 && s.cache.crowd[i] == Cache.Crowd(0, 0, false)
    ensures Leads(l, s, t) && Inv(l, t, home) && Released(s, t, i)
  {
    hide Cache.Inv, Group.Inv, Cache.Recyclable, Cache.Without, Leads, OnDisk, HeaderOk, CopiesOk, PinsOk, ChangesOk;
    hide AheadOk;
    var s1 := DoUse(l, s, home, p, Cache.Unlock(i));
    t := DoUse(l, s1, home, p, Cache.Put(i));
    LeadsOn(l, s, s1, t);
    assert t.cache.bufs == s.cache.bufs[i := s.cache.bufs[i].(locked := false, refcnt := 0)];
    assert t.cache.crowd == s.cache.crowd[i := Cache.Crowd(0, 0, false)];
  }

  // An operation logs a block ---------------------------------------------------------------------

  /** Process p has changed block b in buffer i and is past log_write's guard. */
  function Guarded(s: State, p: nat, i: nat, b: nat, data: Block): State
    requires i < |s.cache.bufs| == |s.cache.crowd| == |s.holder| && b < |s.cache.latest|
    requires p < |s.log.ops| && s.log.ops[p].InOp?
  {
    var c := s.cache;
    State(c.(bufs := c.bufs[i := Cache.Buf(1, b, 1, true, false, true, data)],
             crowd := c.crowd[i := Cache.Crowd(0, 0, true)], latest := c.latest[b := data]),
          s.log.(ops := s.log.ops[p := Group.Passed(s.log.ops[p].logged, b)]), s.phase, s.holder[i := p])
  }

  lemma DoStore(l: Layout, s: State, home: seq<Block>, p: nat, i: nat, data: Block) returns (t: State)
    requires Inv(l, s, home) && p < |s.log.ops| && s.log.ops[p].InOp?
    requires i < |s.cache.bufs| && HasBlock(s, p, i, s.cache.bufs[i].blockno) && !InLog(l, s.cache.bufs[i].blockno)
    ensures Leads(l, s, t) && Inv(l, t, home)
    ensures s.cache.bufs[i].blockno < |s.cache.latest| && |s.cache.crowd| == |s.cache.bufs|
    ensures t == s.(cache := s.cache.(bufs := s.cache.bufs[i := s.cache.bufs[i].(data := data)],
                                      crowd := s.cache.crowd[i := s.cache.crowd[i].(changed := true)],
                                      latest := s.cache.latest[s.cache.bufs[i].blockno := data]))
  {
    hide Cache.Inv, Group.Inv, Leads, OnDisk, HeaderOk, CopiesOk, PinsOk, ChangesOk, AheadOk;
    HeldIsLatest(l, s, home, p, i, s.cache.bufs[i].blockno);
    var e := Store(p, i, data);
    assert Enabled(l, s, e);
    t := After(l, s, e);
    LeadsStep(l, s, e);
    StepKeeps(l, s, e, home);
  }

  lemma DoTest(l: Layout, s: State, home: seq<Block>, p: nat, i: nat) returns (t: State)
    requires Inv(l, s, home) && p < |s.log.ops| && s.log.ops[p].InOp? && |s.log.sh.lh| < LOGSIZE
    requires |s.log.sh.lh| + 1 < l.size
    requires i < |s.cache.bufs| && HasBlock(s, p, i, s.cache.bufs[i].blockno) && !InLog(l, s.cache.bufs[i].blockno)
    requires |s.log.ops[p].logged + {s.cache.bufs[i].blockno}| <= MAXOPBLOCKS
    ensures Leads(l, s, t) && Inv(l, t, home)
    ensures t == s.(log := s.log.(ops := s.log.ops[p := Group.Passed(s.log.ops[p].logged, s.cache.bufs[i].blockno)]))
  {
    hide Cache.Inv, Group.Inv, Leads, OnDisk, HeaderOk, CopiesOk, PinsOk, ChangesOk, AheadOk, PhaseOk;
    Group.GuardIff(l.size, s.log, p);
    var e := Test(p, i);
    assert Enabled(l, s, e);
    t := After(l, s, e);
    LeadsStep(l, s, e);
    StepKeeps(l, s, e, home);
  }

  /** bread, a store and log_write up to the lock. */
  lemma LogBegin(l: Layout, s: State, home: seq<Block>, p: nat, b: nat, data: Block) returns (t: State, i: nat)
    requires Inv(l, s, home) && p < |s.log.ops| && s.log.ops[p].InOp? && |s.log.sh.lh| < LOGSIZE
    requires |s.log.sh.lh| + 1 < l.size
    requires Cache.Uncached(s.cache.bufs, 1, b) && SomeUnused(s.cache.bufs) && Home(l, s.cache.disk, b)
    requires |s.log.ops[p].logged + {b}| <= MAXOPBLOCKS
    ensures Leads(l, s, t) && Inv(l, t, home)
    ensures i < |s.cache.bufs| == |s.cache.crowd| == |s.holder| && b < |s.cache.latest|
    ensures Cache.Unused(s.cache.bufs[i]) && t == Guarded(s, p, i, b, data)
  {
    hide Inv, Leads, Cache.Uncached;
    var s1, s2;
    s1, i := Bread(l, s, home, p, b);
    s2 := DoStore(l, s1, home, p, i, data);
    t := DoTest(l, s2, home, p, i);
    LeadsOn(l, s, s1, s2);
    LeadsOn(l, s, s2, t);
    var g := Guarded(s, p, i, b, data);
    assert t.cache.bufs == g.cache.bufs && t.cache.crowd == g.cache.crowd && t.cache.latest == g.cache.latest;
    assert t.holder == g.holder;
  }

  /** log_write under the lock, and brelse. */
  predicate Logged(s: State, t: State, p: nat, i: nat) {
    && i < |s.cache.bufs| == |s.cache.crowd| && p < |s.log.ops| && s.log.ops[p].Passed?
    && t.cache.bufs == s.cache.bufs[i := s.cache.bufs[i].(locked := false, refcnt := 0, dirty := true)]
    && t.cache.crowd == s.cache.crowd[i := Cache.Crowd(0, 0, false)]
    && t.cache.disk == s.cache.disk && t.cache.latest == s.cache.latest
    && t.log == Group.State(s.log.sh.(lh := Group.Absorb(s.log.sh.lh, s.log.ops[p].b)),
                            s.log.ops[p := Group.InOp(s.log.ops[p].logged + {s.log.ops[p].b})])
    && t.phase == s.phase && t.holder == s.holder
  }

  lemma DoAppend(l: Layout, s: State, home: seq<Block>, p: nat, i: nat) returns (t: State)
    requires Inv(l, s, home) && p < |s.log.ops| && s.log.ops[p].Passed? && HasBlock(s, p, i, s.log.ops[p].b)
    requires !InLog(l, s.log.ops[p].b)
    ensures Leads(l, s, t) && Inv(l, t, home) && |s.cache.crowd| == |s.cache.bufs|
    ensures t == State(s.cache.(bufs := s.cache.bufs[i := s.cache.bufs[i].(dirty := true)],
                                crowd := s.cache.crowd[i := s.cache.crowd[i].(changed := false)]),
                       Group.State(s.log.sh.(lh := Group.Absorb(s.log.sh.lh, s.log.ops[p].b)),
                                   s.log.ops[p := Group.InOp(s.log.ops[p].logged + {s.log.ops[p].b})]),
                       s.phase, s.holder)
  {
    hide Cache.Inv, Group.Inv, Leads, OnDisk, HeaderOk, CopiesOk, PinsOk, ChangesOk, AheadOk;
    HeldIsLatest(l, s, home, p, i, s.log.ops[p].b);
    var e := Append(p, i);
    assert Enabled(l, s, e);
    t := After(l, s, e);
    LeadsStep(l, s, e);
    StepKeeps(l, s, e, home);
  }

  lemma LogEnd(l: Layout, s: State, home: seq<Block>, p: nat, i: nat) returns (t: State)
    requires Inv(l, s, home) && p < |s.log.ops| && s.log.ops[p].Passed? && HasBlock(s, p, i, s.log.ops[p].b)
    requires !InLog(l, s.log.ops[p].b) && |s.cache.crowd| == |s.cache.bufs|
    requires s.cache.bufs[i].refcnt == 1 && s.cache.crowd[i].waiting == 0 && s.cache.crowd[i].leaving == 0
    ensures Leads(l, s, t) && Inv(l, t, home) && Logged(s, t, p, i)
  {
    hide Inv, Leads, Cache.HasKey;
    var s1 := DoAppend(l, s, home, p, i);
    t := Brelse(l, s1, home, p, i);
    LeadsOn(l, s, s1, t);
    assert t.cache.bufs == s.cache.bufs[i := s.cache.bufs[i].(locked := false, refcnt := 0, dirty := true)];
    assert t.cache.crowd == s.cache.crowd[i := Cache.Crowd(0, 0, false)];
  }

  // Filling the log -------------------------------------------------------------------------------

  /** Nobody refers to any buffer. */
  ghost predicate Calm(s: State) {
    && |s.cache.bufs| == |s.cache.crowd| == |s.holder|
    && forall i :: 0 <= i < |s.cache.bufs| ==>
         s.cache.bufs[i].refcnt == 0 && !s.cache.bufs[i].locked && s.cache.crowd[i] == Cache.Crowd(0, 0, false)
  }

  predicate Fresh(x: Cache.Buf) { x.dev == 0 && x.blockno == 0 }

  predicate KeyIn(x: Cache.Buf, lo: nat, hi: nat) { x.dev == 1 && lo <= x.blockno < hi }

  /** lh is base, base + 1, ..., base + k - 1. */
  predicate Lists(lh: seq<nat>, base: nat, k: nat) { |lh| == k && forall j :: 0 <= j < k ==> lh[j] == base + j }

  /** Three operations have logged k blocks in turn. */
  ghost predicate OpsAt(log: Group.State, k: nat) {
    && |log.ops| >= 3 && log.sh.outstanding == 3 && !log.sh.committing
    && forall q :: 0 <= q < 3 ==> log.ops[q].InOp? && |log.ops[q].logged| <= (k + 2 - q) / 3
  }

  ghost predicate FillAt(l: Layout, s: State, home: seq<Block>, n: nat, base: nat, k: nat) {
    && Inv(l, s, home) && Calm(s) && s.phase.Resting? && |s.cache.bufs| == n
    && Lists(s.log.sh.lh, base, k) && OpsAt(s.log, k)
    && forall i :: 0 <= i < n ==> Fresh(s.cache.bufs[i]) || KeyIn(s.cache.bufs[i], base, base + k)
  }

  lemma OneMore(log: Group.State, k: nat, b: nat)
    requires OpsAt(log, k) && k < LOGSIZE
    ensures var q := k % 3;
            && |log.ops[q].logged + {b}| <= MAXOPBLOCKS
            && OpsAt(log.(ops := log.ops[q := Group.InOp(log.ops[q].logged + {b})]), k + 1)
  {
    Group.Thirds(k + 1, 0);
    Group.Thirds(k + 1, 1);
    Group.Thirds(k + 1, 2);
  }

  lemma CalmUnused(l: Layout, s: State, home: seq<Block>)
    requires Inv(l, s, home) && Calm(s) && s.phase.Resting? && |s.log.sh.lh| < |s.cache.bufs|
    ensures SomeUnused(s.cache.bufs)
  {
    hide Inv;
    assert Referenced(s.cache.bufs) == {};
    UnusedLeft(l, s, home);
  }

  lemma SizesAre(l: Layout, s: State, home: seq<Block>)
    requires Inv(l, s, home)
    ensures |s.cache.disk| == |s.cache.latest| == |home| && |s.holder| == |s.cache.bufs| == |s.cache.crowd|
  {
    hide Cache.Inv, Group.Inv, OnDisk, HeaderOk, CopiesOk, PinsOk, ChangesOk, AheadOk;
  }

  lemma FillNext(l: Layout, s: State, home: seq<Block>, n: nat, base: nat, k: nat, data: Block) returns (t: State)
    requires FillAt(l, s, home, n, base, k) && k + 1 < l.size && k < LOGSIZE && k < n && l.start + l.size <= base
    requires base + k < |home|
    ensures Leads(l, s, t) && FillAt(l, t, home, n, base, k + 1)
  {
    hide Inv, Leads, Group.Take;
    var q, b := k % 3, base + k;
    SizesAre(l, s, home);
    OneMore(s.log, k, b);
    CalmUnused(l, s, home);
    var s1, i := LogBegin(l, s, home, q, b, data);
    t := LogEnd(l, s1, home, q, i);
    LeadsOn(l, s, s1, t);
    assert b !in s.log.sh.lh;
    assert t.log.sh.lh == s.log.sh.lh + [b];
    assert t.log.ops == s.log.ops[q := Group.InOp(s.log.ops[q].logged + {b})];
    assert t.log == s.log.(ops := s.log.ops[q := Group.InOp(s.log.ops[q].logged + {b})],
             sh := s.log.sh.(lh := s.log.sh.lh + [b]));
  }

  lemma {:induction false} FillTo(l: Layout, s: State, home: seq<Block>, n: nat, base: nat, k: nat, data: Block)
    returns (t: State)
    requires FillAt(l, s, home, n, base, 0) && k < l.size <= LOGSIZE && k <= n && l.start + l.size <= base
    requires base + k <= |home|
    ensures Leads(l, s, t) && FillAt(l, t, home, n, base, k)
  {
    hide FillAt, Leads;
    if k == 0 {
      t := s;
      LeadsNowhere(l, s);
    } else {
      var u := FillTo(l, s, home, n, base, k - 1, data);
      t := FillNext(l, u, home, n, base, k - 1, data);
      LeadsOn(l, s, u, t);
    }
  }

  lemma DoBegin(l: Layout, s: State, home: seq<Block>, p: nat) returns (t: State)
    requires Inv(l, s, home) && p < |s.log.ops| && s.log.ops[p].Outside? && Group.Admits(s.log.sh)
    ensures Leads(l, s, t) && Inv(l, t, home)
    ensures t == s.(log := Group.State(s.log.sh.(outstanding := s.log.sh.outstanding + 1),
              s.log.ops[p := Group.InOp({})]))
  {
    hide Cache.Inv, Group.Inv, Leads, OnDisk, HeaderOk, CopiesOk, PinsOk, ChangesOk, AheadOk;
    var e := Turn(Group.Begin(p));
    assert Enabled(l, s, e);
    t := After(l, s, e);
    LeadsStep(l, s, e);
    StepKeeps(l, s, e, home);
  }

  lemma BootedIs(n: nat, procs: nat, d: seq<Block>)
    requires procs >= 3
    ensures var s := Booted(n, procs, d);
            && Calm(s) && s.phase.Resting? && |s.cache.bufs| == n && s.log.sh == Group.Shared(0, false, [])
            && |s.log.ops| == procs && (forall q :: 0 <= q < procs ==> s.log.ops[q].Outside?)
            && forall i :: 0 <= i < n ==> Fresh(s.cache.bufs[i])
  {
  }

  lemma FillStart(l: Layout, n: nat, procs: nat, d: seq<Block>, base: nat) returns (t: State)
    requires Bootable(l, d) && procs >= 3
    ensures Leads(l, Booted(n, procs, d), t) && FillAt(l, t, d, n, base, 0)
  {
    hide Inv, Leads, Booted, Bootable;
    var s := Booted(n, procs, d);
    BootedInv(l, n, procs, d);
    BootedIs(n, procs, d);
    var s1 := DoBegin(l, s, d, 0);
    var s2 := DoBegin(l, s1, d, 1);
    t := DoBegin(l, s2, d, 2);
    LeadsOn(l, s, s1, s2);
    LeadsOn(l, s, s2, t);
  }

  // Two past the guard ----------------------------------------------------------------------------

  lemma OneReferenced(s: State, i: nat, x: Cache.Buf)
    requires Calm(s) && i < |s.cache.bufs| && x.refcnt == 1
    ensures Referenced(s.cache.bufs[i := x]) == {i}
  {
  }

  /** Two processes have changed blocks b and b + 1 and are both past log_write's guard. */
  ghost predicate BothGuarded(s: State, t: State, q: nat, i: nat, r: nat, j: nat, b: nat, data: Block) {
    && |s.cache.bufs| == |s.cache.crowd| == |s.holder| && i < |s.holder| && j < |s.holder| && i != j
    && q < |s.log.ops| && s.log.ops[q].InOp? && r < |s.log.ops| && s.log.ops[r].InOp? && q != r
    && b + 1 < |s.cache.latest|
    && t == Guarded(Guarded(s, q, i, b, data), r, j, b + 1, data)
  }

  /** With one place left in the log two operations get past the guard of log_write. */
  lemma BothPass(l: Layout, s: State, home: seq<Block>, n: nat, base: nat, k: nat, data: Block)
    returns (t: State, i: nat, j: nat)
    requires FillAt(l, s, home, n, base, k) && l.size == k + 2 <= LOGSIZE && l.size < n
    requires l.start + l.size <= base && base + k + 1 < |home|
    ensures Leads(l, s, t) && Inv(l, t, home) && BothGuarded(s, t, k % 3, i, (k + 1) % 3, j, base + k, data)
  {
    hide Inv, Leads, Group.Take;
    var q, r, b, c := k % 3, (k + 1) % 3, base + k, base + k + 1;
    SizesAre(l, s, home);
    CalmUnused(l, s, home);
    OneMore(s.log, k, b);
    var s1;
    s1, i := LogBegin(l, s, home, q, b, data);
    SizesAre(l, s1, home);
    OneReferenced(s, i, s1.cache.bufs[i]);
    UnusedLeft(l, s1, home);
    assert q != r && s1.log.ops[r] == s.log.ops[r];
    SecondRoom(s.log, k, c);
    t, j := LogBegin(l, s1, home, r, c, data);
    LeadsOn(l, s, s1, t);
  }

  /** Then each logs its block, and the log is overrun. */
  lemma Race(l: Layout, s: State, home: seq<Block>, n: nat, base: nat, k: nat, data: Block) returns (t: State)
    requires FillAt(l, s, home, n, base, k) && l.size == k + 2 <= LOGSIZE && l.size < n
    requires l.start + l.size <= base && base + k + 1 < |home|
    ensures Leads(l, s, t) && FillAt(l, t, home, n, base, k + 2)
    ensures base + k + 1 < |t.cache.latest| && t.cache.latest[base + k + 1] == data
  {
    hide Inv, Leads, Group.Take;
    var s1, i, j := BothPass(l, s, home, n, base, k, data);
    SizesAre(l, s1, home);
    var s2 := LogEnd(l, s1, home, k % 3, i);
    SizesAre(l, s2, home);
    t := LogEnd(l, s2, home, (k + 1) % 3, j);
    LeadsOn(l, s, s1, s2);
    LeadsOn(l, s, s2, t);
    Raced(s.log, t.log, base, k);
  }

  lemma SecondRoom(log: Group.State, k: nat, c: nat)
    requires OpsAt(log, k) && k + 1 < LOGSIZE
    ensures |log.ops[(k + 1) % 3].logged + {c}| <= MAXOPBLOCKS
  {
  }

  lemma OpsSame(log: Group.State, after: Group.State, k: nat)
    requires OpsAt(log, k) && after.ops == log.ops
    requires after.sh.outstanding == log.sh.outstanding && after.sh.committing == log.sh.committing
    ensures OpsAt(after, k)
  {
  }

  lemma ListsTwice(lh: seq<nat>, base: nat, k: nat)
    requires Lists(lh, base, k)
    ensures Lists(Group.Absorb(Group.Absorb(lh, base + k), base + k + 1), base, k + 2)
  {
    assert base + k !in lh;
    assert base + k + 1 !in lh + [base + k];
  }

  lemma OpsInside(log: Group.State, k: nat)
    requires OpsAt(log, k)
    ensures |log.ops| >= 3 && forall q :: 0 <= q < 3 ==> log.ops[q].InOp?
  {
  }

  lemma Raced(log: Group.State, after: Group.State, base: nat, k: nat)
    requires OpsAt(log, k) && Lists(log.sh.lh, base, k) && k + 1 < LOGSIZE
    requires |log.ops| >= 3 && forall q :: 0 <= q < 3 ==> log.ops[q].InOp?
    requires var q, r := k % 3, (k + 1) % 3;
             && after.ops == log.ops[q := Group.InOp(log.ops[q].logged + {base + k})]
                                    [r := Group.InOp(log.ops[r].logged + {base + k + 1})]
             && after.sh == log.sh.(lh := Group.Absorb(Group.Absorb(log.sh.lh, base + k), base + k + 1))
    ensures OpsAt(after, k + 2) && Lists(after.sh.lh, base, k + 2)
  {
    hide OpsAt, Lists, Group.Absorb;
    var q, r := k % 3, (k + 1) % 3;
    assert q != r;
    OneMore(log, k, base + k);
    var one := log.(ops := log.ops[q := Group.InOp(log.ops[q].logged + {base + k})]);
    OpsInside(one, k + 1);
    OneMore(one, k + 1, base + k + 1);
    var two := one.(ops := one.ops[r := Group.InOp(one.ops[r].logged + {base + k + 1})]);
    assert two.ops == after.ops;
    OpsSame(two, after, k + 2);
    ListsTwice(log.sh.lh, base, k);
  }

  // Commit copies -----------------------------------------------------------------------------------

  /** Commit of process 2, about to copy log block t; the last block logged holds data. */
  ghost predicate CopyAt(l: Layout, s: State, home: seq<Block>, n: nat, base: nat, t: nat, data: Block) {
    && Inv(l, s, home) && Calm(s) && s.phase == Logging(t, false) && |s.cache.bufs| == n
    && Lists(s.log.sh.lh, base, l.size) && |s.log.ops| >= 3 && s.log.ops[2].Committing?
    && 0 < l.size && base + l.size - 1 < |s.cache.latest| && s.cache.latest[base + l.size - 1] == data
    && forall i :: 0 <= i < n ==>
         || Fresh(s.cache.bufs[i]) || KeyIn(s.cache.bufs[i], base, base + l.size)
         || KeyIn(s.cache.bufs[i], l.start + 1, l.start + 1 + t)
  }

  lemma DoEnd(l: Layout, s: State, home: seq<Block>, p: nat) returns (t: State)
    requires Inv(l, s, home) && Calm(s) && p < |s.log.ops| && s.log.ops[p].InOp? && !s.log.sh.committing
    requires s.log.sh.lh != []
    requires s.phase.Resting?
    ensures Leads(l, s, t) && Inv(l, t, home) && t.cache == s.cache && t.holder == s.holder
    ensures t.log.sh.lh == s.log.sh.lh && t.log.sh.outstanding == s.log.sh.outstanding - 1
    ensures |t.log.ops| == |s.log.ops| && forall q :: 0 <= q < |s.log.ops| && q != p && s.log.ops[q].InOp? ==>
              t.log.ops[q] == s.log.ops[q]
    ensures s.log.sh.outstanding > 1 ==> t.phase.Resting? && !t.log.sh.committing
    ensures s.log.sh.outstanding == 1 ==> t.phase == Logging(0, false) && t.log.ops[p].Committing?
  {
    hide Cache.Inv, Group.Inv, Leads, OnDisk, HeaderOk, CopiesOk, PinsOk, ChangesOk, AheadOk;
    var e := Turn(Group.End(p));
    assert Enabled(l, s, e);
    t := After(l, s, e);
    LeadsStep(l, s, e);
    StepKeeps(l, s, e, home);
  }

  lemma AllEnd(l: Layout, s: State, home: seq<Block>, n: nat, base: nat, data: Block) returns (t: State)
    requires FillAt(l, s, home, n, base, l.size) && l.size > 0
    requires base + l.size - 1 < |s.cache.latest| && s.cache.latest[base + l.size - 1] == data
    ensures Leads(l, s, t) && CopyAt(l, t, home, n, base, 0, data)
  {
    hide Inv, Leads;
    var s1 := DoEnd(l, s, home, 0);
    var s2 := DoEnd(l, s1, home, 1);
    t := DoEnd(l, s2, home, 2);
    LeadsOn(l, s, s1, s2);
    LeadsOn(l, s, s2, t);
  }

  /** The committer holds buffer i for log block t and buffer j with the logged block. */
  ghost predicate Both(l: Layout, s: State, u: State, home: seq<Block>, t: nat, i: nat, j: nat) {
    && Inv(l, u, home) && i < |s.cache.bufs| && j < |s.cache.bufs| && i != j
    && |s.cache.bufs| == |s.cache.crowd| == |s.holder|
    && Cache.Unused(s.cache.bufs[i]) && l.start + 1 + t < |s.cache.disk|
    && u.cache == s.cache.(bufs := s.cache.bufs[i := Cache.Buf(1, l.start + 1 + t, 1, true, false, true,
         s.cache.disk[l.start + 1 + t])]
                                               [j := s.cache.bufs[j].(refcnt := 1, locked := true)])
    && u.holder == s.holder[i := 2][j := 2]
    && u.log == s.log && u.phase == s.phase
    && t < |s.log.sh.lh| && HasBlock(u, 2, i, l.start + 1 + t) && HasBlock(u, 2, j, s.log.sh.lh[t])
  }

  lemma PinnedAt(l: Layout, s: State, home: seq<Block>, t: nat) returns (j: nat)
    requires Inv(l, s, home) && t < |s.log.sh.lh| && s.phase.Logging?
    ensures j < |s.cache.bufs| && s.cache.bufs[j].dirty && s.cache.bufs[j].valid
    ensures Cache.HasKey(s.cache.bufs[j], 1, s.log.sh.lh[t])
  {
    hide Cache.Inv, Group.Inv, OnDisk, HeaderOk, CopiesOk, ChangesOk, AheadOk;
    assert Pinned(s.cache.bufs, s.log.sh.lh[t]);
    j :| 0 <= j < |s.cache.bufs| && s.cache.bufs[j].dirty && s.cache.bufs[j].valid
      && Cache.HasKey(s.cache.bufs[j], 1, s.log.sh.lh[t]);
  }

  /** bread of a cached block that nobody refers to. */
  lemma HitLock(l: Layout, s: State, home: seq<Block>, p: nat, j: nat, b: nat) returns (t: State)
    requires Inv(l, s, home) && Awake(s, p) && j < |s.cache.bufs| == |s.cache.crowd| == |s.holder|
    requires s.cache.bufs[j].refcnt == 0 && !s.cache.bufs[j].locked && s.cache.crowd[j] == Cache.Crowd(0, 0, false)
    requires Cache.HasKey(s.cache.bufs[j], 1, b)
    ensures Leads(l, s, t) && Inv(l, t, home)
    ensures t == s.(cache := s.cache.(bufs := s.cache.bufs[j := s.cache.bufs[j].(refcnt := 1, locked := true)]),
              holder := s.holder[j := p])
  {
    hide Cache.Inv, Group.Inv, Cache.Recyclable, Cache.Without, Leads, OnDisk, HeaderOk, CopiesOk, PinsOk, ChangesOk;
    hide AheadOk;
    var s1 := DoUse(l, s, home, p, Cache.Hit(j, 1, b));
    t := DoUse(l, s1, home, p, Cache.Lock(j));
    LeadsOn(l, s, s1, t);
    assert t.cache.bufs == s.cache.bufs[j := s.cache.bufs[j].(refcnt := 1, locked := true)];
    assert t.cache.crowd == s.cache.crowd;
  }

  lemma CopyReads(l: Layout, s: State, home: seq<Block>, n: nat, base: nat, t: nat, data: Block)
    returns (u: State, i: nat, j: nat)
    requires CopyAt(l, s, home, n, base, t, data) && l.size < n && l.start + l.size < base && t < l.size
    requires l.start + l.size < |home|
    ensures Leads(l, s, u) && Both(l, s, u, home, t, i, j)
  {
    hide Inv, Leads;
    SizesAre(l, s, home);
    assert Referenced(s.cache.bufs) == {};
    UnusedLeft(l, s, home);
    var s1;
    s1, i := Bread(l, s, home, 2, l.start + 1 + t);
    SizesAre(l, s1, home);
    j := PinnedAt(l, s, home, t);
    u := HitLock(l, s1, home, 2, j, s.log.sh.lh[t]);
    LeadsOn(l, s, s1, u);
    assert s.cache.crowd[i] == Cache.Crowd(0, 0, false);
    assert s1.cache.crowd == s.cache.crowd;
  }

  lemma DoCopy(l: Layout, s: State, home: seq<Block>, i: nat, j: nat) returns (t: State)
    requires Inv(l, s, home) && s.phase.Logging? && !s.phase.copied && Commits(s, 2)
    requires HasBlock(s, 2, i, l.start + 1 + s.phase.tail)
    requires s.phase.tail < |s.log.sh.lh| && HasBlock(s, 2, j, s.log.sh.lh[s.phase.tail])
    ensures Leads(l, s, t) && (s.phase.tail + 1 < l.size ==> Inv(l, t, home))
    ensures l.start + 1 + s.phase.tail < |s.cache.latest| && |s.cache.crowd| == |s.cache.bufs|
    ensures t == s.(phase := Logging(s.phase.tail, true),
                    cache := s.cache.(bufs := s.cache.bufs[i := s.cache.bufs[i].(data := s.cache.bufs[j].data)],
                                      crowd := s.cache.crowd[i := s.cache.crowd[i].(changed := true)],
                                      latest := s.cache.latest[l.start + 1 + s.phase.tail := s.cache.bufs[j].data]))
  {
    hide Cache.Inv, Group.Inv, Leads, OnDisk, HeaderOk, CopiesOk, PinsOk, ChangesOk, AheadOk;
    HeldIsLatest(l, s, home, 2, i, l.start + 1 + s.phase.tail);
    var e := Copy(2, i, j);
    CopyOpen(l, s, home, 2, i, j);
    t := After(l, s, e);
    LeadsStep(l, s, e);
    if s.phase.tail + 1 < l.size {
      StepKeeps(l, s, e, home);
    }
  }

  lemma DoFlush(l: Layout, s: State, i: nat) returns (t: State)
    requires s.phase.Logging? && s.phase.copied && Commits(s, 2) && |s.cache.crowd| == |s.cache.bufs|
    requires HasBlock(s, 2, i, l.start + 1 + s.phase.tail) && l.start + 1 + s.phase.tail < |s.cache.disk|
    ensures Leads(l, s, t) && Enabled(l, s, Flush(2, i)) && t == After(l, s, Flush(2, i))
    ensures t == s.(phase := if s.phase.tail + 1 < |s.log.sh.lh| then Logging(s.phase.tail + 1, false)
              else Sealing(false),
                    cache := s.cache.(bufs := s.cache.bufs[i := s.cache.bufs[i].(dirty := false)],
                                      crowd := s.cache.crowd[i := s.cache.crowd[i].(changed := false)],
                                      disk := s.cache.disk[l.start + 1 + s.phase.tail := s.cache.bufs[i].data]))
  {
    hide Leads;
    var e := Flush(2, i);
    assert Enabled(l, s, e);
    t := After(l, s, e);
    LeadsStep(l, s, e);
  }

  lemma StaysFlush(l: Layout, s: State, home: seq<Block>, i: nat)
    requires Inv(l, s, home) && Enabled(l, s, Flush(2, i)) && !Seals(s, Flush(2, i))
    ensures Inv(l, After(l, s, Flush(2, i)), home)
  {
    hide Inv, Enabled, After;
    StepKeeps(l, s, Flush(2, i), home);
  }

  /** One turn of write_log within the log. */
  lemma CopyNext(l: Layout, s: State, home: seq<Block>, n: nat, base: nat, t: nat, data: Block) returns (v: State)
    requires CopyAt(l, s, home, n, base, t, data) && l.size < n && l.start + l.size < base && t + 1 < l.size
    requires l.start + l.size < |home|
    ensures Leads(l, s, v) && CopyAt(l, v, home, n, base, t + 1, data)
  {
    hide Inv, Leads, Enabled, After;
    SizesAre(l, s, home);
    var u, i, j := CopyReads(l, s, home, n, base, t, data);
    var u1 := DoCopy(l, u, home, i, j);
    SizesAre(l, u1, home);
    var u2 := DoFlush(l, u1, i);
    StaysFlush(l, u1, home, i);
    var u3 := Brelse(l, u2, home, 2, i);
    v := Brelse(l, u3, home, 2, j);
    LeadsOn(l, s, u, u1);
    LeadsOn(l, s, u1, u2);
    LeadsOn(l, s, u2, u3);
    LeadsOn(l, s, u3, v);
    assert Calm(v);
  }

  lemma {:induction false} CopyTo(l: Layout, s: State, home: seq<Block>, n: nat, base: nat, t: nat, data: Block)
    returns (v: State)
    requires CopyAt(l, s, home, n, base, 0, data) && l.size < n && l.start + l.size < base && t < l.size
    requires l.start + l.size < |home|
    ensures Leads(l, s, v) && CopyAt(l, v, home, n, base, t, data)
  {
    hide CopyAt, Leads;
    if t == 0 {
      v := s;
      LeadsNowhere(l, s);
    } else {
      var u := CopyTo(l, s, home, n, base, t - 1, data);
      v := CopyNext(l, u, home, n, base, t - 1, data);
      LeadsOn(l, s, u, v);
    }
  }

  /** The last turn writes the block after the log. */
  lemma CopyPast(l: Layout, s: State, home: seq<Block>, n: nat, base: nat, data: Block) returns (v: State)
    requires 0 < l.size < n && CopyAt(l, s, home, n, base, l.size - 1, data) && l.start + l.size < base
    requires l.start + l.size < |home|
    ensures Leads(l, s, v) && |v.cache.disk| == |s.cache.disk| == |home|
    ensures v.cache.disk == s.cache.disk[l.start + l.size := data]
  {
    hide Inv, Leads, Enabled, After;
    var t := l.size - 1;
    SizesAre(l, s, home);
    var u, i, j := CopyReads(l, s, home, n, base, t, data);
    HeldIsLatest(l, u, home, 2, j, s.log.sh.lh[t]);
    var u1 := DoCopy(l, u, home, i, j);
    v := DoFlush(l, u1, i);
    LeadsOn(l, s, u, u1);
    LeadsOn(l, s, u1, v);
  }

  // The condition -----------------------------------------------------------------------------------

  /** After the run, a crash and recovery, block b holds what was last stored into it before the
      last header write. */
  ghost predicate Recovers(l: Layout, n: nat, procs: nat, d: seq<Block>, es: seq<Step>, powers: seq<nat>, b: nat)
    requires Runs(l, Booted(n, procs, d), es) && b < |d|
  {
    var e := Final(l, Booted(n, procs, d), es).cache.disk;
    && Formatted(l, e) && |Recovered(l, e, powers)| == |d|
    && Recovered(l, e, powers)[b] == Survivor(l, Booted(n, procs, d), es, b, d[b], d[b])
  }

  ghost predicate AlwaysRecovers(l: Layout, n: nat, procs: nat) {
    forall d, es, powers, b: nat :: Bootable(l, d) && Runs(l, Booted(n, procs, d), es) && Home(l, d, b) ==>
      Recovers(l, n, procs, d, es, powers, b)
  }

  function Blank(n: nat): (d: seq<Block>)
    ensures |d| == n && forall b :: 0 <= b < n ==> d[b] == ZeroBlock()
  {
    seq(n, _ => ZeroBlock())
  }

  function Ones(): Block { seq(BSIZE, _ => 255) }

  lemma BlankBoots(l: Layout, n: nat)
    requires 0 < l.size && l.start + l.size <= n <= 0x1_0000_0000
    ensures Bootable(l, Blank(n))
  {
    WordAtZero(0);
  }

  lemma OverrunRun(l: Layout, n: nat, procs: nat, d: seq<Block>) returns (t: State)
    requires procs >= 3 && 2 <= l.size <= LOGSIZE && l.size < n && Bootable(l, d) && |d| == l.start + 2 * l.size + 1
    ensures Leads(l, Booted(n, procs, d), t) && |t.cache.disk| == |d| && t.cache.disk[l.start + l.size] == Ones()
    ensures Idle(l, t.cache.disk)
  {
    hide Leads, FillAt, CopyAt, Booted, Bootable, Ones;
    var base, k := l.start + l.size + 1, l.size - 2;
    var s0 := Booted(n, procs, d);
    var s1 := FillStart(l, n, procs, d, base);
    var s2 := FillTo(l, s1, d, n, base, k, Ones());
    var s3 := Race(l, s2, d, n, base, k, Ones());
    var s4 := AllEnd(l, s3, d, n, base, Ones());
    var s5 := CopyTo(l, s4, d, n, base, l.size - 1, Ones());
    t := CopyPast(l, s5, d, n, base, Ones());
    LeadsOn(l, s0, s1, s2);
    LeadsOn(l, s0, s2, s3);
    LeadsOn(l, s0, s3, s4);
    LeadsOn(l, s0, s4, s5);
    LeadsOn(l, s0, s5, t);
    StillIdle(l, s5, d, n, base, l.size - 1, Ones());
    IdleElsewhere(l, s5.cache.disk, t.cache.disk);
  }

  lemma StillIdle(l: Layout, s: State, home: seq<Block>, n: nat, base: nat, t: nat, data: Block)
    requires CopyAt(l, s, home, n, base, t, data)
    ensures Idle(l, s.cache.disk) && |s.cache.disk| == |home|
  {
    hide Cache.Inv, Group.Inv, OnDisk, CopiesOk, PinsOk, ChangesOk, AheadOk, WordAt;
  }

  lemma IdleElsewhere(l: Layout, d: seq<Block>, e: seq<Block>)
    requires Idle(l, d) && |e| == |d| && e[l.start] == d[l.start]
    ensures Idle(l, e)
  {
  }

  lemma OverrunLoses(l: Layout, n: nat, procs: nat)
    requires procs >= 3 && 2 <= l.size <= LOGSIZE && l.size < n && l.start + 2 * l.size + 1 <= 0x1_0000_0000
    ensures !AlwaysRecovers(l, n, procs)
  {
    hide Booted, Bootable, Runs, Final, Unsealed, Survivor, Recovered, Formatted;
    var d := Blank(l.start + 2 * l.size + 1);
    BlankBoots(l, |d|);
    var t := OverrunRun(l, n, procs, d);
    var s, b := Booted(n, procs, d), l.start + l.size;
    var es :| Runs(l, s, es) && Final(l, s, es) == t && Unsealed(l, s, es);
    UnsealedSurvivor(l, s, es, b, d[b], d[b]);
    IdleRecovers(l, t.cache.disk, b);
    assert Ones()[0] != ZeroBlock()[0];
    assert Home(l, d, b) && !Recovers(l, n, procs, d, es, [], b);
  }

  lemma IdleRecovers(l: Layout, d: seq<Block>, b: nat)
    requires Idle(l, d) && Home(l, d, b)
    ensures Formatted(l, d) && |Recovered(l, d, [])| == |d| && Recovered(l, d, [])[b] == d[b]
  {
    hide Recovered, HomeAt;
    IdleHome(l, d);
    IdleHome(l, Recovered(l, d, []));
  }

  /** Exactly when every run of three processes or more recovers from every crash: the log has more
      than LOGSIZE blocks, or as many as there are buffers, or is only a header. Otherwise two
      operations that pass the guard together overrun it, and commit overwrites the block after
      it before there is a header. */
  lemma RecoversIff(l: Layout, n: nat, procs: nat)
    requires procs >= 3 && 0 < l.size && l.start + 2 * l.size + 1 <= 0x1_0000_0000
    ensures AlwaysRecovers(l, n, procs) <==> Harmless(l, n)
  {
    hide Booted, Bootable, Runs, Contained, Final, Survivor, Recovered, Formatted;
    if Harmless(l, n) {
      forall d, es, powers, b: nat | Bootable(l, d) && Runs(l, Booted(n, procs, d), es) && Home(l, d, b)
        ensures Recovers(l, n, procs, d, es, powers, b)
      {
        AlwaysContained(l, n, procs, d, es);
        CrashRecovers(l, n, procs, d, es, powers, b);
      }
    } else {
      OverrunLoses(l, n, procs);
    }
  }

  /** In particular on the volumes that mkfs makes, whose log has LOGSIZE blocks, with the NBUF
      buffers of param.h. The two agree, and where the race overruns such a log every buffer is
      pinned: commit cannot read a log block, and panics before it has written anything. */
  lemma MkfsRecovers(l: Layout, procs: nat, d: seq<Block>, es: seq<Step>, powers: seq<nat>, b: nat)
    requires l.size == LOGSIZE && Bootable(l, d) && Runs(l, Booted(NBUF, procs, d), es) && Home(l, d, b)
    ensures Recovers(l, NBUF, procs, d, es, powers, b)
    ensures var s := Final(l, Booted(NBUF, procs, d), es);
            |s.log.sh.lh| >= l.size ==>
              forall p: nat, a: nat ::
                p < |s.log.ops| && !s.log.ops[p].Asleep? && !s.log.ops[p].Passed? && InLog(l, a) ==>
                  !BgetOpen(l, s, p, a)
  {
    hide Booted, Bootable, Runs, Contained, Final, Survivor, Recovered, Formatted, LastSealed, BgetOpen;
    var s0 := Booted(NBUF, procs, d);
    AlwaysContained(l, NBUF, procs, d, es);
    CrashRecovers(l, NBUF, procs, d, es, powers, b);
    BootedInv(l, NBUF, procs, d);
    RunKeeps(l, s0, es, d);
    CountKept(l, s0, es, d);
    BootedCount(NBUF, procs, d);
    var s, home := Final(l, s0, es), LastSealed(l, s0, es, d);
    if |s.log.sh.lh| >= l.size {
      OverrunPins(l, s, home);
      forall p: nat, a: nat | p < |s.log.ops| && !s.log.ops[p].Asleep? && !s.log.ops[p].Passed? && InLog(l, a)
        ensures !BgetOpen(l, s, p, a)
      {
        AllPinnedStops(l, s, home, p, a);
      }
    }
  }

  lemma BootedCount(n: nat, procs: nat, d: seq<Block>)
    ensures |Booted(n, procs, d).cache.bufs| == n
  {
  }

  lemma {:induction false} CountKept(l: Layout, s: State, es: seq<Step>, home: seq<Block>)
    requires Inv(l, s, home) && Runs(l, s, es) && Contained(l, s, es)
    ensures |Final(l, s, es).cache.bufs| == |s.cache.bufs|
    decreases |es|
  {
    if es == [] {
    } else {
      hide Inv, Enabled, After, SealedAfter;
      StepKeeps(l, s, es[0], home);
      SameBuffers(l, s, es[0], home);
      CountKept(l, After(l, s, es[0]), es[1..], SealedAfter(s, es[0], home));
    }
  }

  /** A log as large as the cache, with no room left, has every buffer pinned. */
  lemma OverrunPins(l: Layout, s: State, home: seq<Block>)
    requires Inv(l, s, home) && l.size == |s.cache.bufs| && |s.log.sh.lh| >= l.size
    ensures |Unwritten(s.log.sh.lh, s.phase)| == |s.cache.bufs|
  {
    assert !s.phase.Installing?;
    hide Inv;
    PinCount(l, s, home);
    Few(|s.cache.bufs|, Dirty(s.cache.bufs));
  }
}
