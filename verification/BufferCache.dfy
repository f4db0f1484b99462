/** The block cache of bio.c as interleaved steps, one per critical section or locked action,
    over any number of processes. */
module BufferCache {
  import opened Disk

  datatype Buf = Buf(dev: nat, blockno: nat, refcnt: nat, valid: bool, dirty: bool, locked: bool, data: Block)

  /** Who refers to a buffer besides the holder of its lock: processes between bget's
      critical section and acquiresleep, and between releasesleep and brelse's. Whether the
      holder has changed the data and not yet passed it to log_write or bwrite. */
  datatype Crowd = Crowd(waiting: nat, leaving: nat, changed: bool)

  /** order lists the buffers from most to least recently released; latest is the logical
      contents of the device, as its last writers left it. */
  datatype State = State(bufs: seq<Buf>, crowd: seq<Crowd>, order: seq<nat>, disk: seq<Block>, latest: seq<Block>)

  predicate HasKey(x: Buf, dev: nat, b: nat) { x.dev == dev && x.blockno == b }

  predicate Unused(x: Buf) { x.refcnt == 0 && !x.dirty }

  // What every step keeps -------------------------------------------------------------------

  /** No two buffers for one block; buffers never used all carry (0, 0). */
  ghost predicate KeysOk(bufs: seq<Buf>) {
    forall i, j, dev, b :: 0 <= i < j < |bufs| && HasKey(bufs[i], dev, b) && HasKey(bufs[j], dev, b) ==>
      dev == 0 && b == 0
  }

  ghost predicate CountOk(x: Buf, c: Crowd) {
    && x.refcnt == c.waiting + c.leaving + (if x.locked then 1 else 0)
    && (c.changed ==> x.locked && x.valid)
    && (x.dirty ==> x.valid)
  }

  ghost predicate BufOk(x: Buf, c: Crowd, disk: seq<Block>, latest: seq<Block>) {
    && CountOk(x, c)
    && (x.valid ==> x.dev == 1 && x.blockno < |disk| == |latest| && x.data == latest[x.blockno])
    && (x.valid && !x.dirty && !c.changed ==> disk[x.blockno] == x.data)
  }

  ghost predicate Cached(bufs: seq<Buf>, b: nat) {
    exists i :: 0 <= i < |bufs| && bufs[i].valid && bufs[i].blockno == b
  }

  /** The disk is behind only where a buffer holds the block. */
  ghost predicate BehindOk(bufs: seq<Buf>, disk: seq<Block>, latest: seq<Block>) {
    && |disk| == |latest|
    && forall b :: 0 <= b < |disk| && disk[b] != latest[b] ==> Cached(bufs, b)
  }

  ghost predicate Permutation(order: seq<nat>, n: nat) {
    && |order| == n
    && (forall k :: 0 <= k < n ==> order[k] < n)
    && (forall k, m :: 0 <= k < m < n ==> order[k] != order[m])
  }

  ghost predicate Inv(s: State) {
    && |s.crowd| == |s.bufs|
    && Permutation(s.order, |s.bufs|)
    && KeysOk(s.bufs)
    && (forall i :: 0 <= i < |s.bufs| ==> BufOk(s.bufs[i], s.crowd[i], s.disk, s.latest))
    && BehindOk(s.bufs, s.disk, s.latest)
  }

  // Steps -----------------------------------------------------------------------------------

  datatype Step =
    | Hit(i: nat, dev: nat, b: nat)       // bget finds the block
    | Recycle(i: nat, dev: nat, b: nat)   // bget takes over an unused buffer
    | Lock(i: nat)                        // acquiresleep
    | Fill(i: nat)                        // bread's iderw
    | Modify(i: nat, data: Block)         // the holder stores into b->data
    | LogWrite(i: nat)                    // log_write pins the buffer
    | Write(i: nat)                       // bwrite
    | Unlock(i: nat)                      // releasesleep
    | Put(i: nat)                         // the rest of brelse

  ghost predicate Uncached(bufs: seq<Buf>, dev: nat, b: nat) {
    forall j :: 0 <= j < |bufs| ==> !HasKey(bufs[j], dev, b)
  }

  /** The least recently released unused buffer. */
  ghost predicate LeastRecent(bufs: seq<Buf>, order: seq<nat>, i: nat) {
    exists k :: 0 <= k < |order| && order[k] == i && i < |bufs| && Unused(bufs[i])
      && forall m :: k < m < |order| ==> order[m] < |bufs| && !Unused(bufs[order[m]])
  }

  ghost predicate Recyclable(s: State, i: nat, dev: nat, b: nat) {
    Uncached(s.bufs, dev, b) && LeastRecent(s.bufs, s.order, i)
  }

  /** A locked buffer may be let go once its changes are logged or written. */
  ghost predicate Enabled(s: State, e: Step) {
    && e.i < |s.bufs| == |s.crowd|
    && match e
       case Hit(i, dev, b) => HasKey(s.bufs[i], dev, b)
       case Recycle(i, dev, b) => Recyclable(s, i, dev, b)
       case Lock(i) => s.crowd[i].waiting > 0 && !s.bufs[i].locked
       case Fill(i) => s.bufs[i].locked && !s.bufs[i].valid && s.bufs[i].dev == 1 && s.bufs[i].blockno < |s.disk|
       case Modify(i, data) => s.bufs[i].locked && s.bufs[i].valid && s.bufs[i].blockno < |s.latest|
       case LogWrite(i) => s.bufs[i].locked && s.bufs[i].valid
       case Write(i) => s.bufs[i].locked && s.bufs[i].valid && s.bufs[i].blockno < |s.disk|
       case Unlock(i) => s.bufs[i].locked && !s.crowd[i].changed
       case Put(i) => s.crowd[i].leaving > 0 && s.bufs[i].refcnt > 0
  }

  function Without(order: seq<nat>, i: nat): seq<nat> {
    if order == [] then []
    else if order[0] == i then order[1..]
    else [order[0]] + Without(order[1..], i)
  }

  function With(s: State, i: nat, x: Buf, c: Crowd): State
    requires i < |s.bufs| == |s.crowd|
  {
    s.(bufs := s.bufs[i := x], crowd := s.crowd[i := c])
  }

  function After(s: State, e: Step): State
    requires Enabled(s, e)
  {
    var x, c := s.bufs[e.i], s.crowd[e.i];
    match e
    case Hit(i, dev, b) => With(s, i, x.(refcnt := x.refcnt + 1), c.(waiting := c.waiting + 1))
    case Recycle(i, dev, b) =>
      With(s, i, Buf(dev, b, 1, false, false, x.locked, x.data), c.(waiting := c.waiting + 1))
    case Lock(i) => With(s, i, x.(locked := true), c.(waiting := c.waiting - 1))
    case Fill(i) => With(s, i, x.(valid := true, data := s.disk[x.blockno]), c)
    case Modify(i, data) =>
      With(s, i, x.(data := data), c.(changed := true)).(latest := s.latest[x.blockno := data])
    case LogWrite(i) => With(s, i, x.(dirty := true), c.(changed := false))
    case Write(i) =>
      With(s, i, x.(dirty := false), c.(changed := false)).(disk := s.disk[x.blockno := x.data])
    case Unlock(i) => With(s, i, x.(locked := false), c.(leaving := c.leaving + 1))
    case Put(i) =>
      var t := With(s, i, x.(refcnt := x.refcnt - 1), c.(leaving := c.leaving - 1));
      if x.refcnt == 1 then t.(order := [i] + Without(s.order, i)) else t
  }

  // One step ----------------------------------------------------------------------------------

  lemma {:induction false} WithoutIs(order: seq<nat>, i: nat, k: nat)
    requires k < |order| && order[k] == i && forall m :: 0 <= m < k ==> order[m] != i
    ensures Without(order, i) == order[..k] + order[k + 1..]
  {
    if k == 0 {
    } else {
      WithoutIs(order[1..], i, k - 1);
      assert order[1..][..k - 1] == order[1..k] && order[1..][k..] == order[k + 1..];
      assert order[..k] == [order[0]] + order[1..k];
    }
  }

  /** Where in `order` entry m of the ring with position k moved to the front comes from. */
  function Origin(k: nat, m: nat): nat {
    if m == 0 then k else if m <= k then m - 1 else m
  }

  lemma MovedFrontAt(order: seq<nat>, i: nat, k: nat, m: nat)
    requires k < |order| && order[k] == i && m < |order| && forall j :: 0 <= j < k ==> order[j] != i
    ensures |[i] + Without(order, i)| == |order| && ([i] + Without(order, i))[m] == order[Origin(k, m)]
  {
    WithoutIs(order, i, k);
  }

  lemma MovedFront(order: seq<nat>, n: nat, i: nat)
    requires Permutation(order, n) && i in order
    ensures Permutation([i] + Without(order, i), n)
  {
    var k :| 0 <= k < n && order[k] == i;
    hide Without;
    MovedFrontAt(order, i, k, 0);
    forall m | 0 <= m < n
      ensures ([i] + Without(order, i))[m] == order[Origin(k, m)]
    {
      MovedFrontAt(order, i, k, m);
    }
  }

  /** The numbers below n. */
  ghost function Below(n: nat): (all: set<nat>)
    ensures |all| == n
    ensures forall k: nat :: k in all <==> k < n
  {
    if n == 0 then {} else Below(n - 1) + {n - 1}
  }

  lemma {:induction false} Distinct(order: seq<nat>, all: set<nat>)
    requires forall k :: 0 <= k < |order| ==> order[k] in all
    requires forall k, m :: 0 <= k < m < |order| ==> order[k] != order[m]
    ensures |order| <= |all|
  {
    if order == [] {
    } else {
      Distinct(order[1..], all - {order[0]});
    }
  }

  /** Every buffer is in the ring. */
  lemma PermutationHasAll(order: seq<nat>, n: nat, i: nat)
    requires Permutation(order, n) && i < n
    ensures i in order
  {
    if i !in order {
      Distinct(order, Below(n) - {i});
    }
  }

  ghost predicate BufsOk(s: State) {
    |s.crowd| == |s.bufs| && forall i :: 0 <= i < |s.bufs| ==> BufOk(s.bufs[i], s.crowd[i], s.disk, s.latest)
  }

  lemma KeysKept(s: State, e: Step)
    requires Enabled(s, e) && KeysOk(s.bufs)
    ensures KeysOk(After(s, e).bufs)
  {
  }

  lemma OrderKept(s: State, e: Step)
    requires Enabled(s, e) && Permutation(s.order, |s.bufs|)
    ensures Permutation(After(s, e).order, |After(s, e).bufs|)
  {
    hide Recyclable, Without;
    PermutationHasAll(s.order, |s.bufs|, e.i);
    MovedFront(s.order, |s.bufs|, e.i);
  }

  /** What iderw reads from the disk is the latest contents: nobody else holds the block. */
  lemma FilledIsLatest(s: State, i: nat)
    requires Enabled(s, Fill(i)) && BufsOk(s) && KeysOk(s.bufs) && BehindOk(s.bufs, s.disk, s.latest)
    ensures s.disk[s.bufs[i].blockno] == s.latest[s.bufs[i].blockno]
  {
    var b := s.bufs[i].blockno;
    if Cached(s.bufs, b) {
      var j :| 0 <= j < |s.bufs| && s.bufs[j].valid && s.bufs[j].blockno == b;
      assert BufOk(s.bufs[j], s.crowd[j], s.disk, s.latest);
      assert HasKey(s.bufs[j], 1, b) && HasKey(s.bufs[i], 1, b);
    }
  }

  lemma SoleHolder(s: State, i: nat, j: nat)
    requires BufsOk(s) && KeysOk(s.bufs) && i < |s.bufs| && j < |s.bufs| && i != j && s.bufs[i].valid && s.bufs[j].valid
    ensures s.bufs[i].blockno != s.bufs[j].blockno
  {
    assert BufOk(s.bufs[i], s.crowd[i], s.disk, s.latest) && BufOk(s.bufs[j], s.crowd[j], s.disk, s.latest);
    assert HasKey(s.bufs[j], 1, s.bufs[j].blockno) && HasKey(s.bufs[i], 1, s.bufs[i].blockno);
  }

  /** A locked buffer's contents reach only buffers of its own block: itself. */
  lemma BufsKept(s: State, e: Step)
    requires Enabled(s, e) && BufsOk(s) && KeysOk(s.bufs) && BehindOk(s.bufs, s.disk, s.latest)
    ensures BufsOk(After(s, e))
  {
    hide Without;
    var t := After(s, e);
    if e.Fill? {
      FilledIsLatest(s, e.i);
    }
    hide BehindOk, Recyclable;
    forall j | 0 <= j < |s.bufs| && j != e.i
      ensures BufOk(t.bufs[j], t.crowd[j], t.disk, t.latest)
    {
      assert t.bufs[j] == s.bufs[j] && t.crowd[j] == s.crowd[j];
      if (e.Modify? || e.Write?) && s.bufs[j].valid {
        SoleHolder(s, e.i, j);
      }
    }
  }

  lemma BehindKept(s: State, e: Step)
    requires Enabled(s, e) && BufsOk(s) && BehindOk(s.bufs, s.disk, s.latest)
    ensures BehindOk(After(s, e).bufs, After(s, e).disk, After(s, e).latest)
  {
    hide Without;
    var t := After(s, e);
    forall b | 0 <= b < |t.disk| && t.disk[b] != t.latest[b]
      ensures Cached(t.bufs, b)
    {
      if e.Modify? && b == s.bufs[e.i].blockno {
        assert t.bufs[e.i].valid;
      } else {
        var j :| 0 <= j < |s.bufs| && s.bufs[j].valid && s.bufs[j].blockno == b;
        assert BufOk(s.bufs[j], s.crowd[j], s.disk, s.latest);
        assert t.bufs[j].valid && t.bufs[j].blockno == b;
      }
    }
  }

  lemma StepKeeps(s: State, e: Step)
    requires Inv(s) && Enabled(s, e)
    ensures Inv(After(s, e))
  {
    KeysKept(s, e);
    OrderKept(s, e);
    BufsKept(s, e);
    BehindKept(s, e);
    assert |After(s, e).crowd| == |After(s, e).bufs| == |s.bufs| by {
      hide KeysOk, BufOk, Permutation, BehindOk, Recyclable;
    }
    hide KeysOk, BufOk, Permutation, BehindOk, After, Enabled;
  }

  /** A referenced or pinned buffer keeps its block, and every other buffer is untouched. */
  lemma NeverRecycledInUse(s: State, e: Step, j: nat)
    requires Inv(s) && Enabled(s, e) && j < |s.bufs|
    ensures !Unused(s.bufs[j]) ==> HasKey(After(s, e).bufs[j], s.bufs[j].dev, s.bufs[j].blockno)
    ensures j != e.i ==> After(s, e).bufs[j] == s.bufs[j]
  {
    hide Without;
  }

  // Runs ----------------------------------------------------------------------------------------

  ghost predicate Runs(s: State, es: seq<Step>)
    decreases |es|
  {
    es == [] || (Enabled(s, es[0]) && Runs(After(s, es[0]), es[1..]))
  }

  function Final(s: State, es: seq<Step>): State
    requires Runs(s, es)
    decreases |es|
  {
    if es == [] then s else Final(After(s, es[0]), es[1..])
  }

  /** At boot every buffer is unused and carries (0, 0). */
  function Booted(n: nat, disk: seq<Block>): State {
    State(seq(n, _ => Buf(0, 0, 0, false, false, false, ZeroBlock())), seq(n, _ => Crowd(0, 0, false)),
          seq(n, i requires 0 <= i < n => n - 1 - i), disk, disk)
  }

  lemma BootedInv(n: nat, disk: seq<Block>)
    ensures Inv(Booted(n, disk))
  {
  }

  lemma {:induction false} RunKeeps(s: State, es: seq<Step>)
    requires Inv(s) && Runs(s, es)
    ensures Inv(Final(s, es))
    decreases |es|
  {
    if es == [] {
    } else {
      StepKeeps(s, es[0]);
      hide Inv, After, Enabled;
      RunKeeps(After(s, es[0]), es[1..]);
    }
  }

  /** What the last holder of block b stored into its buffer during the run, if any did. */
  ghost function LastStored(s: State, es: seq<Step>, b: nat, before: Block): Block
    requires Runs(s, es)
    decreases |es|
  {
    if es == [] then before
    else
      LastStored(After(s, es[0]), es[1..], b,
                 if es[0].Modify? && HasKey(s.bufs[es[0].i], 1, b) then es[0].data else before)
  }

  lemma {:induction false} LatestIsLastStored(s: State, es: seq<Step>, b: nat)
    requires Inv(s) && Runs(s, es) && b < |s.latest|
    ensures |Final(s, es).latest| == |s.latest|
    ensures LastStored(s, es, b, s.latest[b]) == Final(s, es).latest[b]
    decreases |es|
  {
    if es == [] {
    } else {
      StepKeeps(s, es[0]);
      StoredOne(s, es[0], b);
      hide Inv, After, Enabled;
      LatestIsLastStored(After(s, es[0]), es[1..], b);
    }
  }

  lemma StoredOne(s: State, e: Step, b: nat)
    requires Inv(s) && Enabled(s, e) && b < |s.latest|
    ensures |After(s, e).latest| == |s.latest|
    ensures After(s, e).latest[b] == if e.Modify? && HasKey(s.bufs[e.i], 1, b) then e.data else s.latest[b]
  {
    hide Without, Recyclable;
    assert BufOk(s.bufs[e.i], s.crowd[e.i], s.disk, s.latest);
  }

  /** bread: in every run from boot, whoever holds the lock of a buffer that has been read sees
      what the last holder of that block stored, be it logged, written, evicted or neither,
      and the disk's first contents if nobody has. */
  lemma BreadSeesLatest(n: nat, disk: seq<Block>, es: seq<Step>, i: nat)
    requires Runs(Booted(n, disk), es)
    requires var s := Final(Booted(n, disk), es); i < |s.bufs| && s.bufs[i].valid
    ensures var s := Final(Booted(n, disk), es);
            s.bufs[i].blockno < |disk| && s.bufs[i].data ==
              LastStored(Booted(n, disk), es, s.bufs[i].blockno, disk[s.bufs[i].blockno])
  {
    var s0 := Booted(n, disk);
    assert s0.latest == disk;
    BootedInv(n, disk);
    RunKeeps(s0, es);
    hide After, Enabled, KeysOk, BehindOk, Permutation, Booted, Final, LastStored;
    var s := Final(s0, es);
    assert BufOk(s.bufs[i], s.crowd[i], s.disk, s.latest);
    LatestLength(s0, es);
    LatestIsLastStored(s0, es, s.bufs[i].blockno);
  }

  lemma {:induction false} LatestLength(s: State, es: seq<Step>)
    requires Inv(s) && Runs(s, es)
    ensures |Final(s, es).latest| == |s.latest|
    decreases |es|
  {
    if es == [] {
    } else {
      StepKeeps(s, es[0]);
      assert |After(s, es[0]).latest| == |s.latest| by { hide Recyclable; }
      hide Inv, After, Enabled;
      LatestLength(After(s, es[0]), es[1..]);
    }
  }
}
