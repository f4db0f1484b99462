/** The buffer cache and the log together: operations that change and log buffers, readers,
    and the one process that commits, interleaved step by step. The machine may stop between
    any two steps. */
module Journal {
  import opened Disk
  import opened Param
  import opened RedoLog
  import Cache = BufferCache
  import Group = GroupCommit

  /** Where commit is: copying or having copied log block tail, storing or having stored the
      header, copying or having copied home block tail, storing or having stored the empty
      header. Having copied or stored, it still has to bwrite. */
  datatype Phase =
    | Resting
    | Logging(tail: nat, copied: bool)
    | Sealing(stored: bool)
    | Installing(tail: nat, copied: bool)
    | Clearing(stored: bool)

  /** holder is the lock.pid of each buffer, for buffers that are locked. */
  datatype State = State(cache: Cache.State, log: Group.State, phase: Phase, holder: seq<nat>)

  datatype Step =
    | Use(p: nat, c: Cache.Step)                // bread and brelse
    | Store(p: nat, i: nat, data: Block)        // an operation changes a buffer it holds
    | Test(p: nat, i: nat)                      // log_write up to the lock
    | Append(p: nat, i: nat)                    // log_write under the lock
    | Turn(t: Group.Step)                       // begin_op, end_op, commit's log.lh.n = 0
    | Copy(p: nat, to: nat, from: nat)          // memmove in write_log and install_trans
    | Head(p: nat, i: nat)                      // write_head up to bwrite
    | Flush(p: nat, i: nat)                     // bwrite in commit

  datatype Move<T> = Still | Moves(step: T)

  // Steps -------------------------------------------------------------------------------------

  /** Process p holds the lock of buffer i. */
  predicate Has(s: State, p: nat, i: nat) {
    i < |s.cache.bufs| == |s.holder| && s.cache.bufs[i].locked && s.holder[i] == p
  }

  predicate HasBlock(s: State, p: nat, i: nat, b: nat) {
    Has(s, p, i) && s.cache.bufs[i].valid && Cache.HasKey(s.cache.bufs[i], 1, b)
  }

  predicate Commits(s: State, p: nat) {
    p < |s.log.ops| && Group.Ending(s.log.ops[p]) == 1
  }

  /** The block that commit has stored into and has yet to write. */
  predicate Target(l: Layout, lh: seq<nat>, phase: Phase, b: nat) {
    match phase
    case Resting => false
    case Logging(t, copied) => copied && b == l.start + 1 + t
    case Sealing(stored) => stored && b == l.start
    case Installing(t, copied) => copied && t < |lh| && b == lh[t]
    case Clearing(stored) => stored && b == l.start
  }

  /** Processes outside log_write and not asleep may read; only operations change home blocks,
      and log what they have changed before they end; only commit writes to the disk, in its
      order. */
  ghost predicate Allowed(l: Layout, s: State, e: Step) {
    var ops, lh, bufs := s.log.ops, s.log.sh.lh, s.cache.bufs;
    match e
    case Use(p, c) =>
      && p < |ops| && !ops[p].Asleep? && !ops[p].Passed?
      && (c.Hit? || c.Recycle? || c.Put? || (c.Lock? && c.i < |s.holder|) || ((c.Fill? || c.Unlock?) && Has(s, p, c.i)))
    case Store(p, i, data) =>
      p < |ops| && ops[p].InOp? && Has(s, p, i) && !InLog(l, bufs[i].blockno)
    case Test(p, i) =>
      Has(s, p, i) && HasBlock(s, p, i, bufs[i].blockno) && !InLog(l, bufs[i].blockno)
    case Append(p, i) =>
      && p < |ops| && ops[p].Passed? && Has(s, p, i) && !InLog(l, bufs[i].blockno)
      && HasBlock(s, p, i, ops[p].b)
    case Turn(t) =>
      (match t
       case Begin(p) => true
       case End(p) => forall i :: 0 <= i < |s.cache.crowd| && Has(s, p, i) ==> !s.cache.crowd[i].changed
       case Commit(p) => s.phase == Installing(|lh|, false) || (s.phase.Resting? && lh == [])
       case Finish(p) => s.phase.Resting?
       case Guard(p, b) => false
       case Append(p) => false)
    case Copy(p, to, from) =>
      && Commits(s, p)
      && (match s.phase
          case Logging(t, copied) =>
            !copied && t < |lh| && HasBlock(s, p, to, l.start + 1 + t) && HasBlock(s, p, from, lh[t])
          case Installing(t, copied) =>
            !copied && t < |lh| && HasBlock(s, p, to, lh[t]) && HasBlock(s, p, from, l.start + 1 + t)
          case _ => false)
    case Head(p, i) =>
      Commits(s, p) && (s.phase == Sealing(false) || s.phase == Clearing(false)) && HasBlock(s, p, i, l.start)
        && |lh| <= LOGSIZE
    case Flush(p, i) =>
      Commits(s, p) && Has(s, p, i) && Target(l, lh, s.phase, bufs[i].blockno) && HasBlock(s, p, i, bufs[i].blockno)
  }

  /** The block numbers as write_head stores them. */
  function Names(lh: seq<nat>): (r: seq<Word>)
    ensures |r| == |lh|
    ensures forall t :: 0 <= t < |lh| && lh[t] < 0x1_0000_0000 ==> r[t] == lh[t]
  {
    seq(|lh|, t requires 0 <= t < |lh| => if lh[t] < 0x1_0000_0000 then lh[t] else 0)
  }

  /** What the step does to the cache. */
  function CacheMove(l: Layout, s: State, e: Step): Move<Cache.Step>
    requires Allowed(l, s, e)
  {
    match e
    case Use(p, c) => Moves(c)
    case Store(p, i, data) => Moves(Cache.Modify(i, data))
    case Append(p, i) => Moves(Cache.LogWrite(i))
    case Copy(p, to, from) => Moves(Cache.Modify(to, s.cache.bufs[from].data))
    case Head(p, i) => Moves(Cache.Modify(i, WriteHeader(s.cache.bufs[i].data, Names(s.log.sh.lh))))
    case Flush(p, i) => Moves(Cache.Write(i))
    case Test(p, i) => Still
    case Turn(t) => Still
  }

  /** What it does to the log in memory. */
  function LogMove(l: Layout, s: State, e: Step): Move<Group.Step>
    requires Allowed(l, s, e)
  {
    match e
    case Test(p, i) => Moves(Group.Guard(p, s.cache.bufs[i].blockno))
    case Append(p, i) => Moves(Group.Append(p))
    case Turn(t) => Moves(t)
    case _ => Still
  }

  ghost predicate Enabled(l: Layout, s: State, e: Step) {
    && Allowed(l, s, e)
    && (CacheMove(l, s, e).Moves? ==> Cache.Enabled(s.cache, CacheMove(l, s, e).step))
    && (LogMove(l, s, e).Moves? ==>
            Group.Enabled(s.log, LogMove(l, s, e).step) && Group.Take(l.size, s.log, LogMove(l, s, e).step).Next?)
  }

  function CacheAfter(l: Layout, s: State, e: Step): Cache.State
    requires Enabled(l, s, e)
  {
    if CacheMove(l, s, e).Moves? then Cache.After(s.cache, CacheMove(l, s, e).step) else s.cache
  }

  function LogAfter(l: Layout, s: State, e: Step): Group.State
    requires Enabled(l, s, e)
  {
    if LogMove(l, s, e).Moves? then Group.Take(l.size, s.log, LogMove(l, s, e).step).s else s.log
  }

  function PhaseAfter(l: Layout, s: State, e: Step): Phase
    requires Enabled(l, s, e)
  {
    var lh := s.log.sh.lh;
    match e
    case Turn(t) =>
      if t.End? && LogAfter(l, s, e).sh.committing && lh != [] then Logging(0, false)
      else if t.Commit? && lh != [] then Clearing(false)
      else s.phase
    case Copy(p, to, from) => if s.phase.Logging? then Logging(s.phase.tail, true) else Installing(s.phase.tail, true)
    case Head(p, i) => if s.phase.Sealing? then Sealing(true) else Clearing(true)
    case Flush(p, i) =>
      (match s.phase
       case Logging(t, copied) => if t + 1 < |lh| then Logging(t + 1, false) else Sealing(false)
       case Sealing(stored) => Installing(0, false)
       case Installing(t, copied) => Installing(t + 1, false)
       case _ => Resting)
    case _ => s.phase
  }

  function After(l: Layout, s: State, e: Step): State
    requires Enabled(l, s, e)
  {
    State(CacheAfter(l, s, e), LogAfter(l, s, e), PhaseAfter(l, s, e),
          if e.Use? && e.c.Lock? then s.holder[e.c.i := e.p] else s.holder)
  }

  /** The write of a header that names blocks: the transaction counts from here on. */
  predicate Seals(s: State, e: Step) { e.Flush? && s.phase.Sealing? }

  /** The logical contents at the last such write, those before it being home. */
  function SealedAfter(s: State, e: Step, home: seq<Block>): seq<Block> {
    if Seals(s, e) then s.cache.latest else home
  }

  /** write_log about to copy past the end of the log. */
  predicate Overruns(l: Layout, s: State, e: Step) {
    e.Copy? && s.phase.Logging? && s.phase.tail + 1 >= l.size
  }

  /** A step that does not. */
  ghost predicate Stays(l: Layout, s: State, e: Step) { Enabled(l, s, e) && !Overruns(l, s, e) }

  // What every step keeps ---------------------------------------------------------------------

  ghost predicate Home(l: Layout, d: seq<Block>, b: nat) { b < |d| && !InLog(l, b) }

  ghost predicate SizesOk(l: Layout, s: State, home: seq<Block>) {
    && |s.holder| == |s.cache.bufs| == |s.cache.crowd|
    && |s.cache.disk| == |s.cache.latest| == |home| <= 0x1_0000_0000
    && Fits(l, s.cache.disk)
  }

  /** Commit's position fits the log in memory, which names home blocks; what it has written to
      lies within the log on disk. */
  ghost predicate PhaseOk(l: Layout, d: seq<Block>, sh: Group.Shared, phase: Phase) {
    && |sh.lh| <= LOGSIZE
    && (forall t :: 0 <= t < |sh.lh| ==> Home(l, d, sh.lh[t]))
    && (phase.Resting? <== !sh.committing)
    && (phase.Resting? && sh.committing ==> sh.lh == [])
    && match phase
       case Resting => true
       case Logging(t, copied) => t < |sh.lh| && t < l.size && (copied ==> t + 1 < l.size)
       case Sealing(stored) => 0 < |sh.lh| < l.size
       case Installing(t, copied) => 0 < |sh.lh| < l.size && t <= |sh.lh| && (copied ==> t < |sh.lh|)
       case Clearing(stored) => sh.lh == []
  }

  /** Changes that are neither logged nor written are those of a running operation to a home
      block it holds, or commit's own. */
  ghost predicate ChangeOk(l: Layout, s: State, i: nat)
    requires i < |s.cache.bufs| == |s.holder|
  {
    var b := s.cache.bufs[i].blockno;
    s.holder[i] < |s.log.ops| &&
    if s.phase.Resting? then Group.Active(s.log.ops[s.holder[i]]) == 1 && !InLog(l, b)
    else Target(l, s.log.sh.lh, s.phase, b)
  }

  ghost predicate ChangesOk(l: Layout, s: State)
    requires |s.holder| == |s.cache.bufs| == |s.cache.crowd|
  {
    forall i :: 0 <= i < |s.cache.bufs| && s.cache.crowd[i].changed ==> ChangeOk(l, s, i)
  }

  /** The logged blocks that commit has not yet installed. */
  function Unwritten(lh: seq<nat>, phase: Phase): seq<nat> {
    if phase.Installing? && phase.tail <= |lh| then lh[phase.tail..] else lh
  }

  ghost predicate Pinned(bufs: seq<Cache.Buf>, b: nat) {
    exists i :: 0 <= i < |bufs| && bufs[i].dirty && bufs[i].valid && Cache.HasKey(bufs[i], 1, b)
  }

  /** Exactly those are dirty in the cache. */
  ghost predicate PinsOk(bufs: seq<Cache.Buf>, todo: seq<nat>) {
    && (forall t :: 0 <= t < |todo| ==> Pinned(bufs, todo[t]))
    && (forall i :: 0 <= i < |bufs| && bufs[i].dirty ==> bufs[i].blockno in todo)
  }

  ghost predicate HeaderIs(b: Block, lh: seq<nat>) {
    WordAt(b, 0) <= LOGSIZE && ReadHeader(b) == Names(lh)
  }

  /** How many log blocks hold their copies. */
  function Copied(lh: seq<nat>, phase: Phase): nat {
    match phase
    case Logging(t, copied) => t
    case Sealing(stored) => |lh|
    case _ => 0
  }

  /** What commit has prepared: log blocks on disk, and the block it is about to write. */
  ghost predicate CopiesOk(l: Layout, lh: seq<nat>, phase: Phase, d: seq<Block>, latest: seq<Block>)
    requires |d| == |latest| && Fits(l, d) && |lh| <= LOGSIZE && forall t :: 0 <= t < |lh| ==> lh[t] < |d|
  {
    && (forall t :: 0 <= t < Copied(lh, phase) && t < |lh| && t + 1 < l.size ==> d[l.start + 1 + t] == latest[lh[t]])
    && (phase.Logging? && phase.copied && phase.tail < |lh| && phase.tail + 1 < l.size ==>
          latest[l.start + 1 + phase.tail] == latest[lh[phase.tail]])
    && ((phase.Sealing? || phase.Clearing?) && phase.stored ==> latest[l.start] == WriteHeader(d[l.start], Names(lh)))
  }

  /** The disk as recovery will take it: the log holds the contents of the blocks its header
      names, and the other home blocks are in place. */
  ghost predicate OnDisk(l: Layout, d: seq<Block>, home: seq<Block>)
    requires |d| == |home|
  {
    && Formatted(l, d)
    && (forall t :: 0 <= t < |ReadHeader(d[l.start])| ==> d[l.start + 1 + t] == home[ReadHeader(d[l.start])[t]])
    && (forall b: nat :: Home(l, d, b) && b !in ReadHeader(d[l.start]) ==> d[b] == home[b])
  }

  /** What the header on disk says in each phase, and how far the install has come. */
  ghost predicate HeaderOk(l: Layout, lh: seq<nat>, phase: Phase, d: seq<Block>, home: seq<Block>)
    requires |d| == |home| && Fits(l, d) && forall t :: 0 <= t < |lh| ==> lh[t] < |d|
  {
    match phase
    case Installing(t, copied) =>
      HeaderIs(d[l.start], lh) && forall u :: 0 <= u < t && u < |lh| ==> d[lh[u]] == home[lh[u]]
    case Clearing(stored) => forall b: nat :: Home(l, d, b) ==> d[b] == home[b]
    case _ => HeaderIs(d[l.start], [])
  }

  ghost predicate Changed(s: Cache.State, b: nat) {
    exists i :: 0 <= i < |s.bufs| == |s.crowd| && s.crowd[i].changed && s.bufs[i].blockno == b
  }

  /** A home block is ahead of its durable contents only where it is logged, or changed and
      about to be; never once the header is written. */
  ghost predicate AheadOk(l: Layout, s: State, home: seq<Block>)
    requires |s.cache.latest| == |home|
  {
    forall b: nat :: Home(l, home, b) && s.cache.latest[b] != home[b] ==>
      !s.phase.Installing? && !s.phase.Clearing? && (b in s.log.sh.lh || Changed(s.cache, b))
  }

  ghost predicate Inv(l: Layout, s: State, home: seq<Block>) {
    && Cache.Inv(s.cache) && Group.Inv(s.log)
    && SizesOk(l, s, home)
    && PhaseOk(l, s.cache.disk, s.log.sh, s.phase)
    && ChangesOk(l, s)
    && PinsOk(s.cache.bufs, Unwritten(s.log.sh.lh, s.phase))
    && CopiesOk(l, s.log.sh.lh, s.phase, s.cache.disk, s.cache.latest)
    && OnDisk(l, s.cache.disk, home)
    && HeaderOk(l, s.log.sh.lh, s.phase, s.cache.disk, home)
    && AheadOk(l, s, home)
  }

  // One step ----------------------------------------------------------------------------------

  lemma PartsKept(l: Layout, s: State, e: Step, home: seq<Block>)
    requires Inv(l, s, home) && Stays(l, s, e)
    ensures Cache.Inv(CacheAfter(l, s, e)) && Group.Inv(LogAfter(l, s, e))
  {
    if CacheMove(l, s, e).Moves? {
      Cache.StepKeeps(s.cache, CacheMove(l, s, e).step);
    }
    if LogMove(l, s, e).Moves? {
      Group.StepKeeps(l.size, s.log, LogMove(l, s, e).step);
    }
  }

  /** While an operation runs nobody commits. */
  lemma Running(l: Layout, s: State, home: seq<Block>, p: nat)
    requires Inv(l, s, home) && p < |s.log.ops| && Group.Active(s.log.ops[p]) == 1
    ensures !s.log.sh.committing && s.phase.Resting?
  {
    Group.LastOut(s.log);
  }

  /** While somebody commits no operation runs, and no buffer but commit's own is changed. */
  lemma Quiet(l: Layout, s: State, home: seq<Block>)
    requires Inv(l, s, home) && s.log.sh.committing
    ensures forall q :: 0 <= q < |s.log.ops| ==> Group.Active(s.log.ops[q]) == 0
    ensures forall i :: 0 <= i < |s.cache.bufs| && s.cache.crowd[i].changed ==>
              Target(l, s.log.sh.lh, s.phase, s.cache.bufs[i].blockno)
  {
    Group.LastOut(s.log);
  }

  lemma Committing(l: Layout, s: State, home: seq<Block>, p: nat)
    requires Inv(l, s, home) && Commits(s, p)
    ensures s.log.sh.committing
  {
    Group.SumAtLeast(Group.Ending, s.log.ops, p);
  }

  /** What one step of the cache does to the disk and to the logical contents. */
  lemma CacheEffect(s: Cache.State, c: Cache.Step)
    requires Cache.Enabled(s, c)
    ensures |Cache.After(s, c).bufs| == |s.bufs| == |s.crowd| == |Cache.After(s, c).crowd| && c.i < |s.bufs|
    ensures |Cache.After(s, c).disk| == |s.disk| && |Cache.After(s, c).latest| == |s.latest|
    ensures Cache.After(s, c).disk == if c.Write? then s.disk[s.bufs[c.i].blockno := s.bufs[c.i].data] else s.disk
    ensures Cache.After(s, c).latest == if c.Modify? then s.latest[s.bufs[c.i].blockno := c.data] else s.latest
  {
    hide Cache.Without, Cache.Recyclable;
  }

  /** ... and to the buffers. */
  lemma BufEffect(s: Cache.State, c: Cache.Step, j: nat)
    requires Cache.Inv(s) && Cache.Enabled(s, c) && j < |s.bufs|
    ensures var t := Cache.After(s, c);
            && |t.bufs| == |t.crowd| == |s.bufs| == |s.crowd|
            && t.crowd[j].changed == (if j == c.i && c.Modify? then true
                                      else if j == c.i && (c.LogWrite? || c.Write?) then false else s.crowd[j].changed)
            && t.bufs[j].dirty == (if j == c.i && c.LogWrite? then true
                                   else if j == c.i && c.Write? then false else s.bufs[j].dirty)
            && (t.crowd[j].changed || t.bufs[j].dirty ==>
                  s.bufs[j].valid && t.bufs[j].valid && t.bufs[j].dev == s.bufs[j].dev == 1
                    && t.bufs[j].blockno == s.bufs[j].blockno < |s.disk|)
            && (s.crowd[j].changed || s.bufs[j].dirty ==> s.bufs[j].valid && t.bufs[j].blockno == s.bufs[j].blockno)
            && (c.Lock? && j == c.i ==> !s.crowd[j].changed)
            && (s.crowd[j].changed ==> s.bufs[j].locked)
  {
    hide Cache.Without, Cache.KeysOk, Cache.BehindOk, Cache.Permutation, Cache.Uncached;
    assert Cache.BufOk(s.bufs[j], s.crowd[j], s.disk, s.latest);
  }

  /** A buffer the committer or an operation holds, as it stands. */
  lemma HeldIsLatest(l: Layout, s: State, home: seq<Block>, p: nat, i: nat, b: nat)
    requires Inv(l, s, home) && HasBlock(s, p, i, b)
    ensures b < |s.cache.disk| && s.cache.bufs[i].data == s.cache.latest[b]
    ensures !s.cache.bufs[i].dirty && !s.cache.crowd[i].changed ==> s.cache.disk[b] == s.cache.latest[b]
  {
    hide Cache.KeysOk, Cache.BehindOk, Cache.Permutation;
    assert Cache.BufOk(s.cache.bufs[i], s.cache.crowd[i], s.cache.disk, s.cache.latest);
  }

  lemma SizesKept(l: Layout, s: State, e: Step, home: seq<Block>)
    requires Inv(l, s, home) && Stays(l, s, e)
    ensures SizesOk(l, After(l, s, e), SealedAfter(s, e, home))
  {
    hide Cache.Enabled, Cache.After, Group.Enabled, Group.Take, Cache.Inv, Group.Inv, PhaseAfter, Allowed, LogAfter;
    if CacheMove(l, s, e).Moves? {
      CacheEffect(s.cache, CacheMove(l, s, e).step);
    }
  }

  /** What the step does to the block numbers logged. */
  lemma LogEffect(l: Layout, s: State, e: Step)
    requires Enabled(l, s, e)
    ensures LogAfter(l, s, e).sh.lh ==
              if e.Append? then Group.Absorb(s.log.sh.lh, s.log.ops[e.p].b)
              else if e.Turn? && e.t.Commit? then [] else s.log.sh.lh
    ensures |LogAfter(l, s, e).ops| == |s.log.ops|
    ensures LogAfter(l, s, e).sh.committing ==
              if e.Turn? && e.t.End? then s.log.sh.outstanding == 1
              else if e.Turn? && e.t.Finish? then false else s.log.sh.committing
    ensures !e.Test? && !e.Append? && !e.Turn? ==> LogAfter(l, s, e) == s.log
  {
    hide Cache.Enabled;
  }

  /** ... to the disk and to the logical contents. */
  lemma DiskEffect(l: Layout, s: State, e: Step)
    requires Enabled(l, s, e)
    ensures var c := CacheAfter(l, s, e);
            && |c.disk| == |s.cache.disk| && |c.latest| == |s.cache.latest|
            && (!e.Flush? ==> c.disk == s.cache.disk)
            && (!e.Store? && !e.Copy? && !e.Head? ==> c.latest == s.cache.latest)
  {
    hide Cache.Enabled, Cache.After, Group.Enabled, Group.Take, LogAfter;
    if CacheMove(l, s, e).Moves? {
      CacheEffect(s.cache, CacheMove(l, s, e).step);
    }
  }

  lemma PhaseKept(l: Layout, s: State, e: Step, home: seq<Block>)
    requires Inv(l, s, home) && Stays(l, s, e)
    ensures var t := After(l, s, e); PhaseOk(l, t.cache.disk, t.log.sh, t.phase)
  {
    hide Cache.Inv, Group.Inv, Cache.Enabled, Group.Enabled, Cache.After, Group.Take, CacheAfter, LogAfter, OnDisk;
    hide HeaderOk, CopiesOk, PinsOk, ChangesOk, AheadOk;
    var t := After(l, s, e);
    PartsKept(l, s, e, home);
    Group.RoomLeft(t.log);
    LogEffect(l, s, e);
    DiskEffect(l, s, e);
    if Works(e) {
      Actor(l, s, e, home);
    }
    if e.Append? {
      HeldIsLatest(l, s, home, e.p, e.i, s.log.ops[e.p].b);
    }
  }

  /** Steps of an operation. */
  predicate Works(e: Step) { e.Store? || e.Test? || e.Append? || (e.Turn? && e.t.End?) }

  lemma Actor(l: Layout, s: State, e: Step, home: seq<Block>)
    requires Inv(l, s, home) && Stays(l, s, e) && Works(e)
    ensures var p := if e.Turn? then e.t.p else e.p; p < |s.log.ops| && Group.Active(s.log.ops[p]) == 1
    ensures !s.log.sh.committing && s.phase.Resting?
  {
    var p := if e.Turn? then e.t.p else e.p;
    hide Inv, Cache.Enabled;
    assert p < |s.log.ops| && Group.Active(s.log.ops[p]) == 1;
    Running(l, s, home, p);
  }

  /** An operation runs on until it ends itself. */
  lemma StaysActive(l: Layout, s: State, e: Step, q: nat)
    requires Enabled(l, s, e) && q < |s.log.ops| && Group.Active(s.log.ops[q]) == 1
    requires !(e.Turn? && e.t.End? && q == e.t.p)
    ensures q < |LogAfter(l, s, e).ops| && Group.Active(LogAfter(l, s, e).ops[q]) == 1
  {
    hide Cache.Enabled;
  }

  /** What the step does to the changes outstanding. */
  lemma ChangeEffect(l: Layout, s: State, e: Step, home: seq<Block>, j: nat)
    requires Inv(l, s, home) && Stays(l, s, e) && j < |s.cache.bufs|
    ensures var t := After(l, s, e);
            && |t.cache.bufs| == |t.cache.crowd| == |s.cache.bufs| == |s.cache.crowd|
            && t.cache.crowd[j].changed == (
                 if (e.Store? && j == e.i) || (e.Head? && j == e.i) || (e.Copy? && j == e.to) then true
                 else if (e.Append? || e.Flush?) && j == e.i then false
                 else s.cache.crowd[j].changed)
            && (t.cache.crowd[j].changed ==>
                    s.cache.bufs[j].valid && t.cache.bufs[j].blockno == s.cache.bufs[j].blockno < |s.cache.disk|)
            && (s.cache.crowd[j].changed ==>
                    s.cache.bufs[j].locked && t.cache.bufs[j].blockno == s.cache.bufs[j].blockno)
            && (s.cache.crowd[j].changed ==> j < |t.holder| && t.holder[j] == s.holder[j])
  {
    hide Cache.Inv, Group.Inv, Cache.Enabled, Group.Enabled, Cache.After, Group.Take, LogAfter, PhaseAfter, OnDisk;
    hide HeaderOk, CopiesOk, PinsOk, ChangesOk, AheadOk, PhaseOk;
    if CacheMove(l, s, e).Moves? {
      BufEffect(s.cache, CacheMove(l, s, e).step, j);
    } else {
      BufIs(s.cache, j);
    }
  }

  lemma BufIs(s: Cache.State, j: nat)
    requires Cache.Inv(s) && j < |s.bufs|
    ensures |s.bufs| == |s.crowd|
    ensures s.crowd[j].changed || s.bufs[j].dirty ==>
              s.bufs[j].valid && s.bufs[j].dev == 1 && s.bufs[j].blockno < |s.disk|
    ensures s.crowd[j].changed ==> s.bufs[j].locked
  {
    hide Cache.KeysOk, Cache.BehindOk, Cache.Permutation;
    assert Cache.BufOk(s.bufs[j], s.crowd[j], s.disk, s.latest);
  }

  /** A buffer changed before the step, and still. */
  lemma ChangeStays(l: Layout, s: State, e: Step, home: seq<Block>, j: nat)
    requires Inv(l, s, home) && Stays(l, s, e) && j < |s.cache.bufs| && s.cache.crowd[j].changed
    requires !e.Copy? && !e.Head? && !e.Flush? && !(e.Turn? && e.t.Commit?)
    ensures var t := After(l, s, e); j < |t.cache.bufs| == |t.holder| && ChangeOk(l, t, j)
  {
    hide Cache.Inv, Group.Inv, Cache.Enabled, Group.Enabled, Cache.After, Group.Take, CacheAfter, LogAfter, OnDisk;
    hide HeaderOk, CopiesOk, PinsOk, AheadOk;
    var t := After(l, s, e);
    var q := s.holder[j];
    assert ChangeOk(l, s, j);
    ChangeEffect(l, s, e, home, j);
    SizesKept(l, s, e, home);
    LogEffect(l, s, e);
    if s.phase.Resting? {
      if e.Turn? && e.t.End? {
        assert Has(s, q, j);
      }
      StaysActive(l, s, e, q);
      PartsKept(l, s, e, home);
      Group.LastOut(t.log);
    } else {
      if Works(e) {
        Actor(l, s, e, home);
      }
    }
  }

  /** Before commit stores, and once it has written, nobody has a change outstanding. */
  lemma NoneChanged(l: Layout, s: State, home: seq<Block>, j: nat)
    requires Inv(l, s, home) && s.log.sh.committing && j < |s.cache.bufs| && s.cache.crowd[j].changed
    ensures s.cache.bufs[j].valid && Target(l, s.log.sh.lh, s.phase, s.cache.bufs[j].blockno)
  {
    Quiet(l, s, home);
    BufIs(s.cache, j);
  }

  lemma Untouched(l: Layout, s: State, home: seq<Block>, j: nat)
    requires Inv(l, s, home) && s.log.sh.committing && j < |s.cache.bufs|
    requires !Target(l, s.log.sh.lh, s.phase, s.cache.bufs[j].blockno)
    ensures !s.cache.crowd[j].changed
  {
    Quiet(l, s, home);
  }

  lemma OneTarget(l: Layout, lh: seq<nat>, phase: Phase, a: nat, b: nat)
    requires Target(l, lh, phase, a) && Target(l, lh, phase, b)
    ensures a == b
  {
  }

  /** Commit's own change is the only one; its bwrite takes it back. */
  lemma CommitChange(l: Layout, s: State, e: Step, home: seq<Block>, j: nat)
    requires Inv(l, s, home) && Stays(l, s, e) && j < |s.cache.bufs|
    requires e.Copy? || e.Head? || e.Flush? || (e.Turn? && e.t.Commit?)
    ensures var t := After(l, s, e);
            && j < |t.cache.bufs| == |t.cache.crowd| == |t.holder|
            && (t.cache.crowd[j].changed ==> ChangeOk(l, t, j) && !e.Flush? && !e.Turn?)
  {
    hide Cache.Inv, Group.Inv, Cache.Enabled, Group.Enabled, Cache.After, Group.Take, CacheAfter, LogAfter, OnDisk;
    hide HeaderOk, CopiesOk, PinsOk, ChangesOk, AheadOk;
    SizesKept(l, s, e, home);
    ChangeEffect(l, s, e, home, j);
    LogEffect(l, s, e);
    Ends(l, s, e, home);
    if s.cache.crowd[j].changed {
      NoneChanged(l, s, home, j);
      if e.Flush? {
        OneTarget(l, s.log.sh.lh, s.phase, s.cache.bufs[j].blockno, s.cache.bufs[e.i].blockno);
        if j != e.i {
          Cache.SoleHolder(s.cache, j, e.i) by { CacheInvIs(s.cache); }
        }
      }
    }
  }

  lemma CacheInvIs(s: Cache.State)
    requires Cache.Inv(s)
    ensures Cache.BufsOk(s) && Cache.KeysOk(s.bufs) && Cache.BehindOk(s.bufs, s.disk, s.latest)
  {
  }

  /** Steps of commit are those of the process that commits. */
  lemma Ends(l: Layout, s: State, e: Step, home: seq<Block>)
    requires Inv(l, s, home) && Stays(l, s, e)
    requires e.Copy? || e.Head? || e.Flush? || (e.Turn? && e.t.Commit?)
    ensures s.log.sh.committing && Commits(s, if e.Turn? then e.t.p else e.p)
  {
    var p := if e.Turn? then e.t.p else e.p;
    hide Inv, Cache.Enabled;
    Committing(l, s, home, p);
  }

  lemma ChangesKept(l: Layout, s: State, e: Step, home: seq<Block>)
    requires Inv(l, s, home) && Stays(l, s, e)
    ensures var t := After(l, s, e); |t.holder| == |t.cache.bufs| == |t.cache.crowd| && ChangesOk(l, t)
  {
    hide Inv, Enabled, After, ChangeOk;
    SizesKept(l, s, e, home);
    var t := After(l, s, e);
    forall j | 0 <= j < |t.cache.bufs| && t.cache.crowd[j].changed
      ensures ChangeOk(l, t, j)
    {
      ChangeKept(l, s, e, home, j);
    }
  }

  lemma ChangeKept(l: Layout, s: State, e: Step, home: seq<Block>, j: nat)
    requires Inv(l, s, home) && Stays(l, s, e) && SizesOk(l, After(l, s, e), SealedAfter(s, e, home))
    requires j < |After(l, s, e).cache.bufs| && After(l, s, e).cache.crowd[j].changed
    ensures ChangeOk(l, After(l, s, e), j)
  {
    hide Cache.Inv, Group.Inv, Cache.Enabled, Group.Enabled, Cache.After, Group.Take, LogAfter, OnDisk, HeaderOk;
    hide CopiesOk, PinsOk, ChangesOk, AheadOk;
    SameCount(l, s, e, home);
    if e.Copy? || e.Head? || e.Flush? || (e.Turn? && e.t.Commit?) {
      CommitChange(l, s, e, home, j);
    } else if s.cache.crowd[j].changed {
      ChangeStays(l, s, e, home, j);
    } else {
      ChangeEffect(l, s, e, home, j);
      Actor(l, s, e, home);
      LogEffect(l, s, e);
    }
  }

  lemma SameCount(l: Layout, s: State, e: Step, home: seq<Block>)
    requires Inv(l, s, home) && Stays(l, s, e)
    ensures |CacheAfter(l, s, e).bufs| == |s.cache.bufs| == |s.cache.crowd| == |s.holder|
  {
    hide Cache.Enabled, Cache.After, Group.Enabled, Group.Take, Cache.Inv, Group.Inv, PhaseAfter, Allowed, LogAfter;
    if CacheMove(l, s, e).Moves? {
      CacheEffect(s.cache, CacheMove(l, s, e).step);
    }
  }

  /** What the step does to the pins. */
  lemma PinEffect(l: Layout, s: State, e: Step, home: seq<Block>, j: nat)
    requires Inv(l, s, home) && Stays(l, s, e) && j < |s.cache.bufs|
    ensures var c := CacheAfter(l, s, e);
            && |c.bufs| == |s.cache.bufs|
            && c.bufs[j].dirty == (if e.Append? && j == e.i then true else if e.Flush? && j == e.i then false
                 else s.cache.bufs[j].dirty)
            && (c.bufs[j].dirty ==>
                    c.bufs[j].valid && c.bufs[j].dev == 1 && c.bufs[j].blockno == s.cache.bufs[j].blockno)
            && (s.cache.bufs[j].dirty ==> s.cache.bufs[j].valid && s.cache.bufs[j].dev == 1)
  {
    hide Cache.Inv, Group.Inv, Cache.Enabled, Group.Enabled, Cache.After, Group.Take, LogAfter, PhaseAfter, OnDisk;
    hide HeaderOk, CopiesOk, PinsOk, ChangesOk, AheadOk, PhaseOk;
    BufIs(s.cache, j);
    if CacheMove(l, s, e).Moves? {
      BufEffect(s.cache, CacheMove(l, s, e).step, j);
    }
  }

  /** A pin outlasts every step but the bwrite of its buffer. */
  lemma PinStays(l: Layout, s: State, e: Step, home: seq<Block>, b: nat)
    requires Inv(l, s, home) && Stays(l, s, e) && Pinned(s.cache.bufs, b)
    requires e.Flush? ==> e.i < |s.cache.bufs| && s.cache.bufs[e.i].blockno != b
    ensures Pinned(CacheAfter(l, s, e).bufs, b)
  {
    hide Inv, Enabled, CacheAfter;
    var j :| 0 <= j < |s.cache.bufs| && s.cache.bufs[j].dirty && s.cache.bufs[j].valid
      && Cache.HasKey(s.cache.bufs[j], 1, b);
    PinEffect(l, s, e, home, j);
  }

  lemma Flushed(l: Layout, s: State, e: Step, home: seq<Block>)
    requires Inv(l, s, home) && Stays(l, s, e) && e.Flush?
    ensures e.i < |s.cache.bufs| && s.cache.bufs[e.i].valid
    ensures Target(l, s.log.sh.lh, s.phase, s.cache.bufs[e.i].blockno)
    ensures s.cache.bufs[e.i].blockno < |s.cache.disk| == |s.cache.latest|
    ensures s.cache.bufs[e.i].data == s.cache.latest[s.cache.bufs[e.i].blockno]
    ensures CacheAfter(l, s, e).disk ==
              s.cache.disk[s.cache.bufs[e.i].blockno := s.cache.latest[s.cache.bufs[e.i].blockno]]
    ensures s.log.sh.committing && LogAfter(l, s, e) == s.log
  {
    hide Cache.Inv, Group.Inv, Cache.Enabled, Cache.After, OnDisk, HeaderOk, CopiesOk, PinsOk, ChangesOk, AheadOk;
    Ends(l, s, e, home);
    HeldIsLatest(l, s, home, e.p, e.i, s.cache.bufs[e.i].blockno);
    CacheEffect(s.cache, Cache.Write(e.i));
  }

  /** The numbers of the blocks still to be written, after the step. */
  lemma TodoAfter(l: Layout, s: State, e: Step, home: seq<Block>)
    requires Inv(l, s, home) && Stays(l, s, e)
    ensures var todo, next := Unwritten(s.log.sh.lh, s.phase), Unwritten(LogAfter(l, s, e).sh.lh, PhaseAfter(l, s, e));
            if e.Append? then next == Group.Absorb(todo, s.log.ops[e.p].b)
            else if e.Flush? && s.phase.Installing? then todo != [] && next == todo[1..] && e.i < |s.cache.bufs|
              && s.cache.bufs[e.i].blockno == todo[0]
            else next == todo
  {
    hide Cache.Inv, Group.Inv, Cache.Enabled, Group.Enabled, Cache.After, Group.Take, CacheAfter, LogAfter, OnDisk;
    hide HeaderOk, CopiesOk, PinsOk, ChangesOk, AheadOk, HasBlock, Has, CacheMove, LogMove, Names;
    LogEffect(l, s, e);
    if e.Flush? {
      Flushed(l, s, e, home);
    }
    if Works(e) {
      Actor(l, s, e, home);
    }
    if e.Turn? && e.t.Commit? {
      Ends(l, s, e, home);
    }
  }

  lemma PinsKept(l: Layout, s: State, e: Step, home: seq<Block>)
    requires Inv(l, s, home) && Stays(l, s, e)
    ensures PinsOk(CacheAfter(l, s, e).bufs, Unwritten(LogAfter(l, s, e).sh.lh, PhaseAfter(l, s, e)))
  {
    hide Cache.Inv, Group.Inv, Cache.Enabled, Group.Enabled, Cache.After, Group.Take, CacheAfter, LogAfter;
    hide PhaseAfter, OnDisk, HeaderOk, CopiesOk, ChangesOk, AheadOk, Unwritten;
    var bufs := CacheAfter(l, s, e).bufs;
    var todo, next := Unwritten(s.log.sh.lh, s.phase), Unwritten(LogAfter(l, s, e).sh.lh, PhaseAfter(l, s, e));
    TodoAfter(l, s, e, home);
    SameCount(l, s, e, home);
    forall t | 0 <= t < |next|
      ensures Pinned(bufs, next[t])
    {
      PinnedAfter(l, s, e, home, next[t]);
    }
    forall j | 0 <= j < |bufs| && bufs[j].dirty
      ensures bufs[j].blockno in next
    {
      DirtyAfter(l, s, e, home, j);
    }
  }

  lemma PinnedAfter(l: Layout, s: State, e: Step, home: seq<Block>, b: nat)
    requires Inv(l, s, home) && Stays(l, s, e) && b in Unwritten(LogAfter(l, s, e).sh.lh, PhaseAfter(l, s, e))
    ensures Pinned(CacheAfter(l, s, e).bufs, b)
  {
    hide Cache.Inv, Group.Inv, Cache.Enabled, Group.Enabled, Cache.After, Group.Take, CacheAfter, LogAfter;
    hide PhaseAfter, OnDisk, HeaderOk, CopiesOk, ChangesOk, AheadOk;
    TodoAfter(l, s, e, home);
    if e.Append? && b == s.log.ops[e.p].b {
      PinEffect(l, s, e, home, e.i);
    } else {
      if e.Flush? {
        FlushedIsDone(l, s, e, home, b);
      }
      PinStays(l, s, e, home, b);
    }
  }

  /** What commit writes is none of the blocks still to be written after it. */
  lemma FlushedIsDone(l: Layout, s: State, e: Step, home: seq<Block>, b: nat)
    requires Inv(l, s, home) && Stays(l, s, e) && e.Flush?
    requires b in Unwritten(LogAfter(l, s, e).sh.lh, PhaseAfter(l, s, e))
    ensures e.i < |s.cache.bufs| && s.cache.bufs[e.i].blockno != b
  {
    hide Cache.Inv, Cache.Enabled, Group.Enabled, Cache.After, Group.Take, CacheAfter, LogAfter, OnDisk, HeaderOk;
    hide CopiesOk, ChangesOk, AheadOk, PinsOk;
    Flushed(l, s, e, home);
    assert Group.Distinct(s.log.sh.lh);
  }

  lemma DirtyAfter(l: Layout, s: State, e: Step, home: seq<Block>, j: nat)
    requires Inv(l, s, home) && Stays(l, s, e) && j < |CacheAfter(l, s, e).bufs| && CacheAfter(l, s, e).bufs[j].dirty
    ensures CacheAfter(l, s, e).bufs[j].blockno in Unwritten(LogAfter(l, s, e).sh.lh, PhaseAfter(l, s, e))
  {
    hide Cache.Inv, Group.Inv, Cache.Enabled, Group.Enabled, Cache.After, Group.Take, CacheAfter, LogAfter;
    hide PhaseAfter, OnDisk, HeaderOk, CopiesOk, ChangesOk, AheadOk, Unwritten;
    SameCount(l, s, e, home);
    TodoAfter(l, s, e, home);
    PinEffect(l, s, e, home, j);
    if e.Flush? {
      Flushed(l, s, e, home);
      Cache.SoleHolder(s.cache, j, e.i) by { CacheInvIs(s.cache); }
    }
  }

  /** What write_log copies: the latest contents of the logged block. */
  lemma LogCopied(l: Layout, s: State, e: Step, home: seq<Block>)
    requires Inv(l, s, home) && Stays(l, s, e) && e.Copy? && s.phase.Logging?
    ensures var lh, t, latest := s.log.sh.lh, s.phase.tail, s.cache.latest;
            && s.log.sh.committing && l.start + 1 + t < |latest| && t < |lh| && lh[t] < |latest|
            && CacheAfter(l, s, e).latest == latest[l.start + 1 + t := latest[lh[t]]]
  {
    hide Cache.Inv, Group.Inv, Cache.Enabled, Cache.After, WriteHeader, HeaderOk, OnDisk, CopiesOk, PinsOk, ChangesOk;
    hide AheadOk;
    Ends(l, s, e, home);
    CacheEffect(s.cache, CacheMove(l, s, e).step);
    HeldIsLatest(l, s, home, e.p, e.to, l.start + 1 + s.phase.tail);
    HeldIsLatest(l, s, home, e.p, e.from, s.log.sh.lh[s.phase.tail]);
  }

  /** What write_head stores: the header on disk with the logged block numbers put in. */
  lemma HeadStored(l: Layout, s: State, e: Step, home: seq<Block>)
    requires Inv(l, s, home) && Stays(l, s, e) && e.Head?
    ensures var lh, latest := s.log.sh.lh, s.cache.latest;
            && s.log.sh.committing && l.start < |latest| == |s.cache.disk| && |lh| <= LOGSIZE
            && CacheAfter(l, s, e).latest == latest[l.start := WriteHeader(s.cache.disk[l.start], Names(lh))]
  {
    hide Cache.Inv, Group.Inv, Cache.Enabled, Cache.After, WriteHeader, HeaderOk, OnDisk, CopiesOk, ChangesOk;
    hide AheadOk, Names;
    Ends(l, s, e, home);
    CacheEffect(s.cache, CacheMove(l, s, e).step);
    HeldIsLatest(l, s, home, e.p, e.i, l.start);
    Untouched(l, s, home, e.i);
    assert l.start !in Unwritten(s.log.sh.lh, s.phase);
  }

  lemma InstallCopied(l: Layout, s: State, e: Step, home: seq<Block>)
    requires Inv(l, s, home) && Stays(l, s, e) && e.Copy? && s.phase.Installing?
    ensures s.log.sh.committing && CacheAfter(l, s, e).latest == s.cache.latest
  {
    hide Cache.Inv, Group.Inv, Cache.Enabled, Cache.After, WriteHeader, HeaderOk, OnDisk, CopiesOk, PinsOk, ChangesOk;
    hide AheadOk;
    Ends(l, s, e, home);
    CacheEffect(s.cache, CacheMove(l, s, e).step);
    InstallCopies(l, s, e, home);
  }

  lemma CopyPhase(l: Layout, s: State, e: Step)
    requires Enabled(l, s, e) && (e.Copy? || e.Head?)
    ensures e.Copy? ==> s.phase.Logging? || s.phase.Installing?
    ensures e.Head? ==> s.phase.Sealing? || s.phase.Clearing?
  {
    hide Cache.Enabled;
  }

  /** What commit's copies and headers change: blocks of the log. */
  lemma StoreEffect(l: Layout, s: State, e: Step, home: seq<Block>, b: nat)
    requires Inv(l, s, home) && Stays(l, s, e) && (e.Copy? || e.Head?) && Home(l, home, b)
    ensures s.log.sh.committing && |CacheAfter(l, s, e).latest| == |s.cache.latest| == |home|
    ensures CacheAfter(l, s, e).latest[b] == s.cache.latest[b]
  {
    hide Enabled, CacheAfter, Cache.Inv, Group.Inv, WriteHeader, HeaderOk, OnDisk, CopiesOk, PinsOk, ChangesOk;
    hide AheadOk, Names;
    CopyPhase(l, s, e);
    if e.Head? {
      HeadStored(l, s, e, home);
    } else if s.phase.Logging? {
      LogCopied(l, s, e, home);
    } else {
      InstallCopied(l, s, e, home);
    }
  }

  /** What install_trans copies out of the log is what the block holds already. */
  lemma InstallCopies(l: Layout, s: State, e: Step, home: seq<Block>)
    requires Inv(l, s, home) && Stays(l, s, e) && e.Copy? && s.phase.Installing?
    ensures s.phase.tail < |s.log.sh.lh| && HasBlock(s, e.p, e.to, s.log.sh.lh[s.phase.tail])
    ensures s.log.sh.lh[s.phase.tail] < |s.cache.latest|
    ensures s.cache.bufs[e.from].data == s.cache.latest[s.log.sh.lh[s.phase.tail]]
  {
    hide Cache.Inv, Group.Inv, Cache.Enabled, Cache.After, WriteHeader, ReadHeader, WordAt;
    Ends(l, s, e, home);
    var t := s.phase.tail;
    var lb, b := l.start + 1 + t, s.log.sh.lh[t];
    HeldIsLatest(l, s, home, e.p, e.from, lb);
    assert InLog(l, lb) && !InLog(l, b);
    assert lb !in Unwritten(s.log.sh.lh, s.phase);
    Untouched(l, s, home, e.from);
    assert s.cache.disk[lb] == s.cache.latest[lb];
    assert ReadHeader(s.cache.disk[l.start])[t] == b;
  }

  ghost predicate CopyShape(l: Layout, lh: seq<nat>, d: seq<Block>, latest: seq<Block>) {
    && |d| == |latest| && Fits(l, d) && |lh| <= LOGSIZE
    && forall t :: 0 <= t < |lh| ==> Home(l, d, lh[t])
  }

  lemma CopiesLogCopied(l: Layout, lh: seq<nat>, t: nat, d: seq<Block>, latest: seq<Block>)
    requires CopyShape(l, lh, d, latest) && t < |lh| && t + 1 < l.size && CopiesOk(l, lh, Logging(t, false), d, latest)
    ensures CopiesOk(l, lh, Logging(t, true), d, latest[l.start + 1 + t := latest[lh[t]]])
  {
  }

  lemma CopiesHeadStored(l: Layout, lh: seq<nat>, d: seq<Block>, latest: seq<Block>)
    requires CopyShape(l, lh, d, latest)
    ensures var next := latest[l.start := WriteHeader(d[l.start], Names(lh))];
            && (CopiesOk(l, lh, Sealing(false), d, latest) ==> CopiesOk(l, lh, Sealing(true), d, next))
            && CopiesOk(l, lh, Clearing(true), d, next)
  {
    hide WriteHeader, Names;
  }

  /** bwrite of what is stored in log block t. */
  lemma CopiesLogFlushed(l: Layout, lh: seq<nat>, t: nat, d: seq<Block>, latest: seq<Block>)
    requires CopyShape(l, lh, d, latest) && t < |lh| && t + 1 < l.size && CopiesOk(l, lh, Logging(t, true), d, latest)
    ensures var e := d[l.start + 1 + t := latest[l.start + 1 + t]];
            CopiesOk(l, lh, if t + 1 < |lh| then Logging(t + 1, false) else Sealing(false), e, latest)
  {
  }

  lemma CopiesNone(l: Layout, lh: seq<nat>, phase: Phase, d: seq<Block>, latest: seq<Block>)
    requires CopyShape(l, lh, d, latest) && (phase.Installing? || phase.Resting? || phase == Clearing(false))
    ensures CopiesOk(l, lh, phase, d, latest)
  {
  }

  /** Where a copy or a header leaves commit. */
  lemma StorePhase(l: Layout, s: State, e: Step)
    requires Stays(l, s, e) && (e.Copy? || e.Head?)
    ensures var next := PhaseAfter(l, s, e);
            match s.phase
            case Logging(t, copied) => e.Copy? && !copied && t + 1 < l.size && next == Logging(t, true)
            case Sealing(stored) => e.Head? && !stored && next == Sealing(true)
            case Installing(_, _) => e.Copy? && next.Installing?
            case Clearing(stored) => e.Head? && !stored && next == Clearing(true)
            case Resting => false
  {
    hide Cache.Enabled, HasBlock;
  }

  lemma CopiesStored(l: Layout, s: State, e: Step, home: seq<Block>)
    requires Inv(l, s, home) && Stays(l, s, e) && (e.Copy? || e.Head?)
    requires CopyShape(l, s.log.sh.lh, s.cache.disk, CacheAfter(l, s, e).latest)
    ensures CopiesOk(l, s.log.sh.lh, PhaseAfter(l, s, e), s.cache.disk, CacheAfter(l, s, e).latest)
  {
    hide CacheAfter, Cache.Inv, Group.Inv, Enabled, WriteHeader, HeaderOk, OnDisk, PinsOk, ChangesOk, AheadOk;
    hide PhaseAfter, Names, CopiesOk;
    StorePhase(l, s, e);
    var lh, d, latest := s.log.sh.lh, s.cache.disk, s.cache.latest;
    if e.Head? {
      HeadStored(l, s, e, home);
      CopiesHeadStored(l, lh, d, latest);
    } else if s.phase.Logging? {
      LogCopied(l, s, e, home);
      CopiesLogCopied(l, lh, s.phase.tail, d, latest);
    } else {
      CopiesNone(l, lh, PhaseAfter(l, s, e), d, CacheAfter(l, s, e).latest);
    }
  }

  lemma CopiesFlushed(l: Layout, s: State, e: Step, home: seq<Block>)
    requires Inv(l, s, home) && Stays(l, s, e) && e.Flush?
    requires CopyShape(l, s.log.sh.lh, CacheAfter(l, s, e).disk, s.cache.latest)
    ensures CopiesOk(l, s.log.sh.lh, PhaseAfter(l, s, e), CacheAfter(l, s, e).disk, s.cache.latest)
  {
    hide Enabled, CacheAfter, Cache.Inv, Group.Inv, WriteHeader, HeaderOk, OnDisk, PinsOk, ChangesOk, AheadOk, Names;
    hide CopiesOk;
    Flushed(l, s, e, home);
    var lh, d, latest := s.log.sh.lh, s.cache.disk, s.cache.latest;
    if s.phase.Logging? {
      CopiesLogFlushed(l, lh, s.phase.tail, d, latest);
    } else {
      CopiesNone(l, lh, PhaseAfter(l, s, e), CacheAfter(l, s, e).disk, latest);
    }
  }

  lemma CopiesKept(l: Layout, s: State, e: Step, home: seq<Block>)
    requires Inv(l, s, home) && Stays(l, s, e)
    requires SizesOk(l, After(l, s, e), SealedAfter(s, e, home))
    requires var t := After(l, s, e); PhaseOk(l, t.cache.disk, t.log.sh, t.phase)
    ensures var t := After(l, s, e); CopiesOk(l, t.log.sh.lh, t.phase, t.cache.disk, t.cache.latest)
  {
    hide Cache.Inv, Group.Inv, Cache.Enabled, Group.Enabled, Cache.After, Group.Take, CacheAfter, LogAfter, OnDisk;
    hide HeaderOk, PinsOk, ChangesOk, AheadOk, HeaderIs, WriteHeader, CacheMove, LogMove, HasBlock, Has;
    LogEffect(l, s, e);
    DiskEffect(l, s, e);
    if Works(e) {
      Actor(l, s, e, home);
    } else if e.Copy? || e.Head? {
      CopiesStored(l, s, e, home);
    } else if e.Flush? {
      CopiesFlushed(l, s, e, home);
    }
  }

  lemma EmptyHeader(l: Layout, d: seq<Block>)
    requires Fits(l, d) && HeaderIs(d[l.start], [])
    ensures Formatted(l, d) && ReadHeader(d[l.start]) == []
  {
  }

  lemma HeaderWritten(b: Block, lh: seq<nat>)
    requires |lh| <= LOGSIZE
    ensures HeaderIs(WriteHeader(b, Names(lh)), lh)
  {
    HeaderRoundTrip(b, Names(lh));
  }

  /** The header lists the logged blocks. */
  lemma HeaderNames(l: Layout, d: seq<Block>, lh: seq<nat>)
    requires Fits(l, d) && |lh| <= LOGSIZE && |lh| < l.size && |d| <= 0x1_0000_0000 && HeaderIs(d[l.start], lh)
    requires forall t :: 0 <= t < |lh| ==> Home(l, d, lh[t])
    ensures Formatted(l, d) && ReadHeader(d[l.start]) == Names(lh)
    ensures forall t :: 0 <= t < |lh| ==> ReadHeader(d[l.start])[t] == lh[t]
    ensures forall b: nat :: b < |d| ==> (b in ReadHeader(d[l.start]) <==> b in lh)
  {
    hide ReadHeader, WordAt;
    var h := ReadHeader(d[l.start]);
    assert forall t :: 0 <= t < |lh| ==> h[t] == lh[t];
    forall b: nat | b < |d|
      ensures b in h <==> b in lh
    {
      if b in lh {
        var t :| 0 <= t < |lh| && lh[t] == b;
        assert h[t] == b;
      }
    }
  }

  /** bwrite of a log block. */
  lemma LogBlockFlushed(l: Layout, s: State, e: Step, home: seq<Block>)
    requires Inv(l, s, home) && Stays(l, s, e) && e.Flush? && s.phase.Logging?
    ensures var d := CacheAfter(l, s, e).disk; |d| == |home| && OnDisk(l, d, home) && HeaderIs(d[l.start], [])
  {
    hide Cache.Inv, Group.Inv, Cache.Enabled, Cache.After, CacheAfter, LogAfter, PinsOk, ChangesOk, AheadOk, HeaderIs;
    hide ReadHeader, WordAt, WriteHeader, Enabled, HasBlock, Has, Allowed, Names, CopiesOk;
    Flushed(l, s, e, home);
    var d := CacheAfter(l, s, e).disk;
    EmptyHeader(l, s.cache.disk);
    EmptyHeader(l, d);
  }

  /** bwrite of the header: every block it names has its copy in the log, and every other home
      block is as the operations left it. */
  lemma HeaderFlushed(l: Layout, s: State, e: Step, home: seq<Block>)
    requires Inv(l, s, home) && Stays(l, s, e) && e.Flush? && s.phase.Sealing?
    ensures var d := CacheAfter(l, s, e).disk;
            && |d| == |home|
            && OnDisk(l, d, s.cache.latest)
            && HeaderIs(d[l.start], s.log.sh.lh)
  {
    hide Cache.Inv, Group.Inv, Cache.Enabled, Cache.After, CacheAfter, LogAfter, PinsOk, ChangesOk, HeaderIs;
    hide ReadHeader, WordAt, WriteHeader, Enabled, HasBlock, Has, Allowed;
    Flushed(l, s, e, home);
    var d, lh := CacheAfter(l, s, e).disk, s.log.sh.lh;
    EmptyHeader(l, s.cache.disk);
    HeaderWritten(s.cache.disk[l.start], lh);
    HeaderNames(l, d, lh);
    forall b: nat | Home(l, d, b) && b !in ReadHeader(d[l.start])
      ensures d[b] == s.cache.latest[b]
    {
      NotAhead(l, s, home, b);
    }
  }

  /** While commit runs, a block that is not logged is at its durable contents. */
  lemma NotAhead(l: Layout, s: State, home: seq<Block>, b: nat)
    requires Inv(l, s, home) && s.log.sh.committing && Home(l, home, b) && b !in s.log.sh.lh
    ensures s.cache.latest[b] == home[b]
  {
    hide Cache.Inv, Group.Inv, PinsOk, OnDisk, CopiesOk, HeaderOk;
    if s.cache.latest[b] != home[b] {
      var j :| 0 <= j < |s.cache.bufs| == |s.cache.crowd| && s.cache.crowd[j].changed && s.cache.bufs[j].blockno == b;
      NoneChanged(l, s, home, j);
    }
  }

  /** bwrite of a home block: its durable contents. */
  lemma HomeFlushed(l: Layout, s: State, e: Step, home: seq<Block>)
    requires Inv(l, s, home) && Stays(l, s, e) && e.Flush? && s.phase.Installing?
    ensures var d, lh, t := CacheAfter(l, s, e).disk, s.log.sh.lh, s.phase.tail;
            && |d| == |home| && OnDisk(l, d, home) && HeaderIs(d[l.start], lh)
            && forall u :: 0 <= u <= t && u < |lh| ==> lh[u] < |d| && d[lh[u]] == home[lh[u]]
  {
    hide Cache.Inv, Group.Inv, Cache.Enabled, Cache.After, CacheAfter, LogAfter, PinsOk, ChangesOk, HeaderIs;
    hide ReadHeader, WordAt, WriteHeader, Enabled, HasBlock, Has, Allowed, Names, CopiesOk;
    Flushed(l, s, e, home);
    var d, lh := CacheAfter(l, s, e).disk, s.log.sh.lh;
    HeaderNames(l, s.cache.disk, lh);
    HeaderNames(l, d, lh);
  }

  /** bwrite of the empty header: everything is in place. */
  lemma ClearFlushed(l: Layout, s: State, e: Step, home: seq<Block>)
    requires Inv(l, s, home) && Stays(l, s, e) && e.Flush? && s.phase.Clearing?
    ensures var d := CacheAfter(l, s, e).disk; |d| == |home| && OnDisk(l, d, home) && HeaderIs(d[l.start], [])
  {
    hide Cache.Inv, Group.Inv, Cache.Enabled, Cache.After, CacheAfter, LogAfter, PinsOk, ChangesOk, AheadOk, HeaderIs;
    hide ReadHeader, WordAt, WriteHeader, Enabled, HasBlock, Has, Allowed, Names;
    Flushed(l, s, e, home);
    HeaderWritten(s.cache.disk[l.start], []);
    EmptyHeader(l, CacheAfter(l, s, e).disk);
  }

  /** Once every logged block is installed, all home blocks are in place. */
  lemma AllInstalled(l: Layout, s: State, home: seq<Block>)
    requires Inv(l, s, home) && s.phase.Installing? && s.phase.tail == |s.log.sh.lh|
    ensures forall b: nat :: Home(l, s.cache.disk, b) ==> s.cache.disk[b] == home[b]
  {
    hide Cache.Inv, Group.Inv, PinsOk, ChangesOk, AheadOk, CopiesOk, HeaderIs, ReadHeader, WordAt;
    HeaderNames(l, s.cache.disk, s.log.sh.lh);
  }

  lemma DiskKept(l: Layout, s: State, e: Step, home: seq<Block>)
    requires Inv(l, s, home) && Stays(l, s, e)
    requires SizesOk(l, After(l, s, e), SealedAfter(s, e, home))
    requires var t := After(l, s, e); PhaseOk(l, t.cache.disk, t.log.sh, t.phase)
    ensures var t := After(l, s, e);
            OnDisk(l, t.cache.disk, SealedAfter(s, e, home))
              && HeaderOk(l, t.log.sh.lh, t.phase, t.cache.disk, SealedAfter(s, e, home))
  {
    hide Cache.Inv, Group.Inv, Cache.Enabled, Group.Enabled, Cache.After, Group.Take, CacheAfter, LogAfter, OnDisk;
    hide PinsOk, ChangesOk, AheadOk, HeaderIs, CopiesOk;
    LogEffect(l, s, e);
    DiskEffect(l, s, e);
    if Works(e) {
      Actor(l, s, e, home);
    }
    if e.Flush? {
      Flushed(l, s, e, home);
      match s.phase
      case Logging(t, copied) => LogBlockFlushed(l, s, e, home);
      case Sealing(stored) => HeaderFlushed(l, s, e, home);
      case Installing(t, copied) => HomeFlushed(l, s, e, home);
      case Clearing(stored) => ClearFlushed(l, s, e, home);
    } else if e.Turn? && e.t.Commit? && s.phase.Installing? {
      AllInstalled(l, s, home);
    }
  }

  lemma AheadKept(l: Layout, s: State, e: Step, home: seq<Block>)
    requires Inv(l, s, home) && Stays(l, s, e)
    requires SizesOk(l, After(l, s, e), SealedAfter(s, e, home))
    ensures AheadOk(l, After(l, s, e), SealedAfter(s, e, home))
  {
    hide Enabled, After, SealedAfter, Cache.Inv, Group.Inv, PhaseOk, ChangesOk, PinsOk, CopiesOk, OnDisk, HeaderOk;
    SealedLength(s, e, home);
    var t, next := After(l, s, e), SealedAfter(s, e, home);
    forall b: nat | Home(l, next, b) && t.cache.latest[b] != next[b]
      ensures !t.phase.Installing? && !t.phase.Clearing? && (b in t.log.sh.lh || Changed(t.cache, b))
    {
      AheadAt(l, s, e, home, b);
    }
  }

  lemma SealedLength(s: State, e: Step, home: seq<Block>)
    requires |s.cache.latest| == |home|
    ensures |SealedAfter(s, e, home)| == |home|
  {
  }

  lemma AheadAt(l: Layout, s: State, e: Step, home: seq<Block>, b: nat)
    requires Inv(l, s, home) && Stays(l, s, e)
    requires SizesOk(l, After(l, s, e), SealedAfter(s, e, home))
    requires Home(l, home, b) && After(l, s, e).cache.latest[b] != SealedAfter(s, e, home)[b]
    ensures var t := After(l, s, e);
            !t.phase.Installing? && !t.phase.Clearing? && (b in t.log.sh.lh || Changed(t.cache, b))
  {
    hide Cache.Inv, Group.Inv, Cache.Enabled, Group.Enabled, Cache.After, Group.Take, CacheAfter, LogAfter, OnDisk;
    hide PinsOk, ChangesOk, HeaderIs, CopiesOk, HeaderOk, Changed;
    LogEffect(l, s, e);
    DiskEffect(l, s, e);
    if Works(e) {
      Actor(l, s, e, home);
    }
    if e.Copy? || e.Head? {
      StoreEffect(l, s, e, home, b);
    }
    if e.Flush? {
      Flushed(l, s, e, home);
    }
    if s.cache.latest[b] == home[b] {
      StoredNow(l, s, e, home, b);
    } else if b in s.log.sh.lh {
    } else {
      if s.log.sh.committing {
        NotAhead(l, s, home, b);
      }
      ChangedStays(l, s, e, home, b);
    }
  }

  /** The only step that takes a home block ahead is an operation's store. */
  lemma StoredNow(l: Layout, s: State, e: Step, home: seq<Block>, b: nat)
    requires Inv(l, s, home) && Stays(l, s, e) && !Seals(s, e)
    requires Home(l, home, b) && |CacheAfter(l, s, e).latest| == |home| && s.cache.latest[b] == home[b]
    requires CacheAfter(l, s, e).latest[b] != home[b]
    ensures e.Store? && Changed(CacheAfter(l, s, e), b)
  {
    hide Cache.Inv, Group.Inv, Cache.Enabled, Group.Enabled, Cache.After, Group.Take, LogAfter, OnDisk, PinsOk;
    hide ChangesOk, HeaderIs, CopiesOk, HeaderOk;
    DiskEffect(l, s, e);
    if e.Copy? || e.Head? {
      StoreEffect(l, s, e, home, b);
    }
    if e.Store? {
      CacheEffect(s.cache, CacheMove(l, s, e).step);
      ChangeEffect(l, s, e, home, e.i);
    }
  }

  /** A change stays outstanding until it is logged or written. */
  lemma ChangedStays(l: Layout, s: State, e: Step, home: seq<Block>, b: nat)
    requires Inv(l, s, home) && Stays(l, s, e) && Changed(s.cache, b) && !s.log.sh.committing
    ensures Changed(CacheAfter(l, s, e), b) || (e.Append? && b in LogAfter(l, s, e).sh.lh)
  {
    hide Cache.Inv, Group.Inv, Cache.Enabled, Group.Enabled, Cache.After, Group.Take, CacheAfter, LogAfter, OnDisk;
    hide PinsOk, ChangesOk, HeaderIs, CopiesOk, HeaderOk;
    var j :| 0 <= j < |s.cache.bufs| == |s.cache.crowd| && s.cache.crowd[j].changed && s.cache.bufs[j].blockno == b;
    ChangeEffect(l, s, e, home, j);
    LogEffect(l, s, e);
    if e.Flush? {
      Flushed(l, s, e, home);
    }
  }

  lemma StepKeeps(l: Layout, s: State, e: Step, home: seq<Block>)
    requires Inv(l, s, home) && Stays(l, s, e)
    ensures Inv(l, After(l, s, e), SealedAfter(s, e, home))
  {
    hide Enabled, CacheAfter, LogAfter, PhaseAfter, SealedAfter, Cache.Inv, Group.Inv, SizesOk, PhaseOk, ChangesOk;
    hide PinsOk, CopiesOk, OnDisk, HeaderOk, AheadOk;
    PartsKept(l, s, e, home);
    SizesKept(l, s, e, home);
    PhaseKept(l, s, e, home);
    ChangesKept(l, s, e, home);
    PinsKept(l, s, e, home);
    CopiesKept(l, s, e, home);
    DiskKept(l, s, e, home);
    AheadKept(l, s, e, home);
  }

  lemma CopyOpen(l: Layout, s: State, home: seq<Block>, p: nat, i: nat, j: nat)
    requires Inv(l, s, home) && Commits(s, p)
    requires s.phase.Logging? || s.phase.Installing?
    requires !s.phase.copied && s.phase.tail < |s.log.sh.lh|
    requires var a, b := l.start + 1 + s.phase.tail, s.log.sh.lh[s.phase.tail];
             if s.phase.Logging? then HasBlock(s, p, i, a) && HasBlock(s, p, j, b)
             else HasBlock(s, p, i, b) && HasBlock(s, p, j, a)
    ensures Enabled(l, s, Copy(p, i, j))
  {
    hide Cache.Inv, Group.Inv, OnDisk, HeaderOk, CopiesOk, PinsOk, ChangesOk, AheadOk, WriteHeader;
    HeldIsLatest(l, s, home, p, i, s.cache.bufs[i].blockno);
  }

  lemma HeadOpen(l: Layout, s: State, home: seq<Block>, p: nat, i: nat)
    requires Inv(l, s, home) && Commits(s, p)
    requires s.phase in {Sealing(false), Clearing(false)} && HasBlock(s, p, i, l.start)
    ensures Enabled(l, s, Head(p, i))
  {
    hide Cache.Inv, Group.Inv, OnDisk, HeaderOk, CopiesOk, PinsOk, ChangesOk, AheadOk, WriteHeader, Names;
    HeldIsLatest(l, s, home, p, i, l.start);
  }

  lemma FlushOpen(l: Layout, s: State, home: seq<Block>, p: nat, i: nat)
    requires Inv(l, s, home) && Commits(s, p) && i < |s.cache.bufs|
    requires HasBlock(s, p, i, s.cache.bufs[i].blockno) && Target(l, s.log.sh.lh, s.phase, s.cache.bufs[i].blockno)
    ensures Enabled(l, s, Flush(p, i))
  {
    hide Cache.Inv, Group.Inv, OnDisk, HeaderOk, CopiesOk, PinsOk, ChangesOk, AheadOk, WriteHeader;
    HeldIsLatest(l, s, home, p, i, s.cache.bufs[i].blockno);
  }

  lemma TurnOpen(l: Layout, s: State, home: seq<Block>, p: nat)
    requires Inv(l, s, home) && Commits(s, p)
    ensures s.phase == Installing(|s.log.sh.lh|, false) ==> Enabled(l, s, Turn(Group.Commit(p)))
    ensures s.phase.Resting? ==>
              Enabled(l, s, Turn(if s.log.ops[p].Committing? then Group.Commit(p) else Group.Finish(p)))
  {
    hide Cache.Inv, OnDisk, HeaderOk, CopiesOk, PinsOk, ChangesOk, AheadOk, WriteHeader;
    Committing(l, s, home, p);
  }

  /** What commit has in its hands when it has read the blocks that its next step needs. */
  predicate Ready(l: Layout, s: State, p: nat, i: nat, j: nat) {
    var lh := s.log.sh.lh;
    match s.phase
    case Resting => true
    case Logging(t, copied) =>
      if copied then HasBlock(s, p, i, l.start + 1 + t)
      else t < |lh| && HasBlock(s, p, i, l.start + 1 + t) && HasBlock(s, p, j, lh[t])
    case Sealing(stored) => HasBlock(s, p, i, l.start)
    case Installing(t, copied) =>
      if copied || t < |lh| then t < |lh| && HasBlock(s, p, i, lh[t])
        && (!copied ==> HasBlock(s, p, j, l.start + 1 + t))
      else true
    case Clearing(stored) => HasBlock(s, p, i, l.start)
  }

  /** Commit's next step, with buffers i and j. */
  function NextStep(s: State, p: nat, i: nat, j: nat): Step
    requires p < |s.log.ops|
  {
    match s.phase
    case Resting => Turn(if s.log.ops[p].Committing? then Group.Commit(p) else Group.Finish(p))
    case Logging(t, copied) => if copied then Flush(p, i) else Copy(p, i, j)
    case Sealing(stored) => if stored then Flush(p, i) else Head(p, i)
    case Installing(t, copied) =>
      if copied then Flush(p, i) else if t < |s.log.sh.lh| then Copy(p, i, j) else Turn(Group.Commit(p))
    case Clearing(stored) => if stored then Flush(p, i) else Head(p, i)
  }

  /** The rules above never hold commit up: with the buffers it has read, its next step is open. */
  lemma CommitGoesOn(l: Layout, s: State, home: seq<Block>, p: nat, i: nat, j: nat)
    requires Inv(l, s, home) && Commits(s, p) && Ready(l, s, p, i, j)
    ensures Enabled(l, s, NextStep(s, p, i, j))
  {
    hide Enabled, Cache.Inv, Group.Inv, OnDisk, HeaderOk, CopiesOk, PinsOk, ChangesOk, AheadOk;
    TurnOpen(l, s, home, p);
    match NextStep(s, p, i, j)
    case Copy(_, _, _) => CopyOpen(l, s, home, p, i, j);
    case Head(_, _) => HeadOpen(l, s, home, p, i);
    case Flush(_, _) => FlushOpen(l, s, home, p, i);
    case _ =>
  }

  // Runs ----------------------------------------------------------------------------------------

  ghost predicate Runs(l: Layout, s: State, es: seq<Step>)
    decreases |es|
  {
    es == [] || (Enabled(l, s, es[0]) && Runs(l, After(l, s, es[0]), es[1..]))
  }

  function Final(l: Layout, s: State, es: seq<Step>): State
    requires Runs(l, s, es)
    decreases |es|
  {
    if es == [] then s else Final(l, After(l, s, es[0]), es[1..])
  }

  /** The logical contents at the run's last header write. */
  function LastSealed(l: Layout, s: State, es: seq<Step>, home: seq<Block>): seq<Block>
    requires Runs(l, s, es)
    decreases |es|
  {
    if es == [] then home else LastSealed(l, After(l, s, es[0]), es[1..], SealedAfter(s, es[0], home))
  }

  /** No step of the run copies past the end of the log. */
  ghost predicate Contained(l: Layout, s: State, es: seq<Step>)
    requires Runs(l, s, es)
    decreases |es|
  {
    es != [] ==> !Overruns(l, s, es[0]) && Contained(l, After(l, s, es[0]), es[1..])
  }

  /** After recovery: an empty log, no buffer in use, nobody in an operation. */
  function Booted(n: nat, procs: nat, d: seq<Block>): State {
    State(Cache.Booted(n, d), Group.Start(procs), Resting, seq(n, _ => 0))
  }

  /** A disk that recovery has left. */
  ghost predicate Bootable(l: Layout, d: seq<Block>) {
    Idle(l, d) && |d| <= 0x1_0000_0000
  }

  lemma BootedInv(l: Layout, n: nat, procs: nat, d: seq<Block>)
    requires Bootable(l, d)
    ensures Inv(l, Booted(n, procs, d), d)
  {
    Cache.BootedInv(n, d);
    Group.StartInv(procs);
    IdleHome(l, d);
    hide Cache.Inv, Group.Inv;
  }

  lemma {:induction false} RunKeeps(l: Layout, s: State, es: seq<Step>, home: seq<Block>)
    requires Inv(l, s, home) && Runs(l, s, es) && Contained(l, s, es)
    ensures Inv(l, Final(l, s, es), LastSealed(l, s, es, home))
    decreases |es|
  {
    if es == [] {
    } else {
      hide Inv, Enabled, After, SealedAfter;
      StepKeeps(l, s, es[0], home);
      RunKeeps(l, After(l, s, es[0]), es[1..], SealedAfter(s, es[0], home));
    }
  }

  // The write-ahead rule ------------------------------------------------------------------------

  /** A home block changes on disk only while the header on disk names it, and then to its
      contents at the last header write. */
  lemma OnlyUnderHeader(l: Layout, s: State, e: Step, home: seq<Block>, b: nat)
    requires Inv(l, s, home) && Stays(l, s, e) && Home(l, home, b)
    ensures |After(l, s, e).cache.disk| == |s.cache.disk| == |home| && Formatted(l, s.cache.disk)
    ensures After(l, s, e).cache.disk[b] != s.cache.disk[b] ==>
              b in ReadHeader(s.cache.disk[l.start]) && After(l, s, e).cache.disk[b] == home[b]
  {
    hide Cache.Inv, Group.Inv, Cache.Enabled, Group.Enabled, Cache.After, Group.Take, CacheAfter, LogAfter, PinsOk;
    hide ChangesOk, HeaderIs, CopiesOk, ReadHeader, WordAt, WriteHeader;
    DiskEffect(l, s, e);
    if e.Flush? {
      Flushed(l, s, e, home);
      if s.phase.Installing? {
        HeaderNames(l, s.cache.disk, s.log.sh.lh);
      }
    }
  }

  /** In every run from boot: until the header that names it is on disk, a block that operations
      have changed and logged stays at home as it was at the last header write. */
  lemma NotBeforeHeader(l: Layout, n: nat, procs: nat, d: seq<Block>, es: seq<Step>, b: nat)
    requires Bootable(l, d) && Runs(l, Booted(n, procs, d), es) && Contained(l, Booted(n, procs, d), es)
    requires Home(l, d, b)
    ensures var s, home := Final(l, Booted(n, procs, d), es), LastSealed(l, Booted(n, procs, d), es, d);
            && |s.cache.disk| == |home| == |d| && Formatted(l, s.cache.disk)
            && (b !in ReadHeader(s.cache.disk[l.start]) ==> s.cache.disk[b] == home[b])
  {
    BootedInv(l, n, procs, d);
    RunKeeps(l, Booted(n, procs, d), es, d);
    LengthKept(l, Booted(n, procs, d), es, d);
    hide Cache.Inv, Group.Inv, PinsOk, ChangesOk, CopiesOk, HeaderOk, AheadOk, Booted, Final, LastSealed, ReadHeader;
    hide WordAt;
  }

  lemma {:induction false} LengthKept(l: Layout, s: State, es: seq<Step>, home: seq<Block>)
    requires Inv(l, s, home) && Runs(l, s, es) && Contained(l, s, es)
    ensures |LastSealed(l, s, es, home)| == |home|
    decreases |es|
  {
    if es == [] {
    } else {
      assert |s.cache.latest| == |home|;
      hide Inv, Enabled, After;
      StepKeeps(l, s, es[0], home);
      LengthKept(l, After(l, s, es[0]), es[1..], SealedAfter(s, es[0], home));
    }
  }

  /** In every run from boot a logged block is dirty in the cache, with the latest contents, until
      commit has written it home; and no other block is. */
  lemma PinnedUntilInstalled(l: Layout, n: nat, procs: nat, d: seq<Block>, es: seq<Step>, b: nat)
    requires Bootable(l, d) && Runs(l, Booted(n, procs, d), es) && Contained(l, Booted(n, procs, d), es)
    ensures var s := Final(l, Booted(n, procs, d), es);
            && (b in Unwritten(s.log.sh.lh, s.phase) <==> Pinned(s.cache.bufs, b))
            && forall i :: 0 <= i < |s.cache.bufs| && s.cache.bufs[i].dirty && s.cache.bufs[i].blockno == b ==>
                 b < |s.cache.latest| && s.cache.bufs[i].data == s.cache.latest[b]
  {
    BootedInv(l, n, procs, d);
    RunKeeps(l, Booted(n, procs, d), es, d);
    hide Group.Inv, ChangesOk, CopiesOk, HeaderOk, AheadOk, OnDisk, Booted, Final, LastSealed, Unwritten;
    hide Cache.KeysOk, Cache.BehindOk, Cache.Permutation;
    var s := Final(l, Booted(n, procs, d), es);
    forall i | 0 <= i < |s.cache.bufs| && s.cache.bufs[i].dirty && s.cache.bufs[i].blockno == b
      ensures b < |s.cache.latest| && s.cache.bufs[i].data == s.cache.latest[b]
    {
      assert Cache.BufOk(s.cache.bufs[i], s.cache.crowd[i], s.cache.disk, s.cache.latest);
    }
  }

  /** Operations become durable as a whole: at the header write none is running, and the header
      is the only block that anybody has changed and not yet logged or written. */
  lemma SealsBetween(l: Layout, s: State, e: Step, home: seq<Block>)
    requires Inv(l, s, home) && Stays(l, s, e) && Seals(s, e)
    ensures forall q :: 0 <= q < |s.log.ops| ==> Group.Active(s.log.ops[q]) == 0
    ensures |s.cache.crowd| == |s.cache.bufs|
    ensures forall i :: 0 <= i < |s.cache.bufs| && s.cache.crowd[i].changed ==> s.cache.bufs[i].blockno == l.start
  {
    assert |s.cache.crowd| == |s.cache.bufs|;
    hide Enabled;
    Flushed(l, s, e, home);
    Quiet(l, s, home);
  }

  // Crashes -------------------------------------------------------------------------------------

  /** What recovery will restore is the durable contents. */
  lemma OnDiskHome(l: Layout, d: seq<Block>, home: seq<Block>, b: nat)
    requires |d| == |home| && OnDisk(l, d, home) && Home(l, d, b)
    ensures HomeAt(l, d, b) == home[b]
  {
    hide ReadHeader, WordAt, LastIndex;
    var h := ReadHeader(d[l.start]);
    var t := LastIndex(h, b);
    if t >= 0 {
      assert h[t] == b;
    }
  }

  /** What block b holds after a crash at the end of the run: what was last stored into it
      before the last header write. stored and durable are these two for what went before. */
  ghost function Survivor(l: Layout, s: State, es: seq<Step>, b: nat, stored: Block, durable: Block): Block
    requires Runs(l, s, es)
    decreases |es|
  {
    if es == [] then durable
    else
      var e := es[0];
      var stores := e.Store? && e.i < |s.cache.bufs| && Cache.HasKey(s.cache.bufs[e.i], 1, b);
      Survivor(l, After(l, s, e), es[1..], b, if stores then e.data else stored,
               if Seals(s, e) then stored else durable)
  }

  lemma StoredAt(l: Layout, s: State, e: Step, home: seq<Block>, b: nat)
    requires Inv(l, s, home) && Stays(l, s, e) && Home(l, home, b)
    ensures |After(l, s, e).cache.latest| == |s.cache.latest| == |home|
    ensures After(l, s, e).cache.latest[b] ==
              if e.Store? && e.i < |s.cache.bufs| && Cache.HasKey(s.cache.bufs[e.i], 1, b) then e.data
                else s.cache.latest[b]
  {
    hide Cache.Inv, Group.Inv, Cache.Enabled, Group.Enabled, Cache.After, Group.Take, LogAfter, OnDisk, PinsOk;
    hide ChangesOk, HeaderIs, CopiesOk, HeaderOk;
    DiskEffect(l, s, e);
    if e.Copy? || e.Head? {
      StoreEffect(l, s, e, home, b);
    }
    if e.Store? {
      CacheEffect(s.cache, CacheMove(l, s, e).step);
      ChangeEffect(l, s, e, home, e.i);
      BufIs(After(l, s, e).cache, e.i) by { PartsKept(l, s, e, home); }
      StoredBuf(s, e);
    }
  }

  lemma StoredBuf(s: State, e: Step)
    requires e.Store? && Cache.Inv(s.cache) && Cache.Enabled(s.cache, Cache.Modify(e.i, e.data))
    ensures s.cache.bufs[e.i].dev == 1
  {
    hide Cache.KeysOk, Cache.BehindOk, Cache.Permutation;
    assert Cache.BufOk(s.cache.bufs[e.i], s.cache.crowd[e.i], s.cache.disk, s.cache.latest);
  }

  lemma {:induction false} SealedIsSurvivor(l: Layout, s: State, es: seq<Step>, home: seq<Block>, b: nat)
    requires Inv(l, s, home) && Runs(l, s, es) && Contained(l, s, es) && Home(l, home, b)
    ensures |s.cache.latest| == |home| == |LastSealed(l, s, es, home)|
    ensures LastSealed(l, s, es, home)[b] == Survivor(l, s, es, b, s.cache.latest[b], home[b])
    decreases |es|
  {
    if es == [] {
    } else {
      hide Inv, Enabled, After;
      StepKeeps(l, s, es[0], home);
      StoredAt(l, s, es[0], home, b);
      SealedIsSurvivor(l, After(l, s, es[0]), es[1..], SealedAfter(s, es[0], home), b);
    }
  }

  /** The machine stops after any interleaving of any number of operations, readers and commits.
      However often recovery is stopped in turn, the one that gets through leaves in every home
      block what was last stored into it before the last header write: of the operations since
      then nothing shows, and of those before it nothing is missing. */
  lemma CrashRecovers(l: Layout, n: nat, procs: nat, d: seq<Block>, es: seq<Step>, powers: seq<nat>, b: nat)
    requires Bootable(l, d) && Runs(l, Booted(n, procs, d), es) && Contained(l, Booted(n, procs, d), es)
    requires Home(l, d, b)
    ensures var e := Final(l, Booted(n, procs, d), es).cache.disk;
            && Formatted(l, e) && |Recovered(l, e, powers)| == |LastSealed(l, Booted(n, procs, d), es, d)| == |d|
            && Recovered(l, e, powers)[b] == LastSealed(l, Booted(n, procs, d), es, d)[b]
            && Recovered(l, e, powers)[b] == Survivor(l, Booted(n, procs, d), es, b, d[b], d[b])
  {
    hide Inv, Booted, Bootable, Runs, Contained, Final, LastSealed, Survivor, Formatted, Recovered, Home;
    var s := Booted(n, procs, d);
    BootedInv(l, n, procs, d);
    BootedLatest(n, procs, d);
    RunKeeps(l, s, es, d);
    SealedIsSurvivor(l, s, es, d, b);
    SameHomes(l, d, LastSealed(l, s, es, d), b);
    StateRecovers(l, Final(l, s, es), LastSealed(l, s, es, d), powers, b);
  }

  lemma SameHomes(l: Layout, d: seq<Block>, e: seq<Block>, b: nat)
    requires Home(l, d, b) && |e| == |d|
    ensures Home(l, e, b)
  {
  }

  /** A crash in a state that keeps the invariant. */
  lemma StateRecovers(l: Layout, s: State, home: seq<Block>, powers: seq<nat>, b: nat)
    requires Inv(l, s, home) && Home(l, home, b)
    ensures Formatted(l, s.cache.disk) && |Recovered(l, s.cache.disk, powers)| == |s.cache.disk| == |home|
    ensures Recovered(l, s.cache.disk, powers)[b] == home[b]
  {
    hide Cache.Inv, Group.Inv, PinsOk, ChangesOk, CopiesOk, HeaderOk, AheadOk, ReadHeader, WordAt, HomeAt, Recovered;
    OnDiskHome(l, s.cache.disk, home, b);
    IdleHome(l, Recovered(l, s.cache.disk, powers));
  }

  lemma BootedLatest(n: nat, procs: nat, d: seq<Block>)
    ensures Booted(n, procs, d).cache.latest == d
  {
  }

  // Histories -----------------------------------------------------------------------------------

  /** From one boot to the next: what happens until the machine stops, and how many block
      writes each recovery after that gets through before one completes. */
  datatype Life = Life(es: seq<Step>, powers: seq<nat>)

  ghost predicate Lives(l: Layout, n: nat, procs: nat, d: seq<Block>, xs: seq<Life>)
    decreases |xs|
  {
    && Bootable(l, d)
    && (xs != [] ==>
          && Runs(l, Booted(n, procs, d), xs[0].es) && Contained(l, Booted(n, procs, d), xs[0].es)
          && Formatted(l, Final(l, Booted(n, procs, d), xs[0].es).cache.disk)
          && Lives(l, n, procs, Recovered(l, Final(l, Booted(n, procs, d), xs[0].es).cache.disk, xs[0].powers),
               xs[1..]))
  }

  function Lived(l: Layout, n: nat, procs: nat, d: seq<Block>, xs: seq<Life>): seq<Block>
    requires Lives(l, n, procs, d, xs)
    decreases |xs|
  {
    if xs == [] then d
    else Lived(l, n, procs, Recovered(l, Final(l, Booted(n, procs, d), xs[0].es).cache.disk, xs[0].powers), xs[1..])
  }

  /** Block b after all of them. */
  ghost function Survived(l: Layout, n: nat, procs: nat, d: seq<Block>, xs: seq<Life>, b: nat, before: Block): Block
    requires Lives(l, n, procs, d, xs)
    decreases |xs|
  {
    if xs == [] then before
    else
      var s := Booted(n, procs, d);
      Survived(l, n, procs, Recovered(l, Final(l, s, xs[0].es).cache.disk, xs[0].powers), xs[1..], b,
               Survivor(l, s, xs[0].es, b, before, before))
  }

  /** A machine that has booted, run and crashed any number of times holds what survived. */
  lemma {:induction false} HistoryRecovers(l: Layout, n: nat, procs: nat, d: seq<Block>, xs: seq<Life>, b: nat)
    requires Lives(l, n, procs, d, xs) && Home(l, d, b)
    ensures |Lived(l, n, procs, d, xs)| == |d| && Lived(l, n, procs, d, xs)[b] == Survived(l, n, procs, d, xs, b, d[b])
    decreases |xs|
  {
    if xs == [] {
    } else {
      hide Bootable, Booted, Runs, Contained, Final, Survivor, Formatted, Recovered;
      CrashRecovers(l, n, procs, d, xs[0].es, xs[0].powers, b);
      HistoryRecovers(l, n, procs, Recovered(l, Final(l, Booted(n, procs, d), xs[0].es).cache.disk, xs[0].powers),
                      xs[1..], b);
    }
  }
}
