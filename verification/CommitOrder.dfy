/** Commit among readers, seen from the disk: the block writes of the redo log, in its order. */
module CommitOrder {
  import opened Disk
  import opened Param
  import opened RedoLog
  import opened Journal
  import LogDevice
  import Cache = BufferCache
  import Group = GroupCommit

  /** How many of its block writes commit has behind it. */
  function Position(n: nat, phase: Phase): nat {
    match phase
    case Logging(t, copied) => t
    case Sealing(stored) => n
    case Installing(t, copied) => n + 1 + t
    case Clearing(stored) => 2 * n + 1
    case Resting => 2 * n + 2
  }

  /** A transaction that commit may be carrying out. */
  ghost predicate Planned(l: Layout, base: seq<Block>, lh: seq<nat>, vals: seq<Block>) {
    && lh != [] && |lh| == |vals| <= LOGSIZE && |lh| < l.size && Fits(l, base) && |base| <= 0x1_0000_0000
    && forall t :: 0 <= t < |lh| ==> Home(l, base, lh[t])
  }

  function Writes(l: Layout, base: seq<Block>, lh: seq<nat>, vals: seq<Block>): seq<Write>
    requires Planned(l, base, lh, vals)
  {
    CommitWrites(l, base, Names(lh), vals)
  }

  /** The k-th write of commit, from what the disk holds when it is made. */
  function NextWrite(l: Layout, d: seq<Block>, lh: seq<nat>, vals: seq<Block>, k: nat): Write
    requires |lh| == |vals| <= LOGSIZE && k < 2 * |lh| + 2 && l.start < |d|
  {
    var n := |lh|;
    if k < n then Write(l.start + 1 + k, vals[k])
    else if k == n then Write(l.start, WriteHeader(d[l.start], Names(lh)))
    else if k <= 2 * n then Write(lh[k - n - 1], vals[k - n - 1])
    else Write(l.start, WriteHeader(d[l.start], []))
  }

  lemma WritesSplit(l: Layout, base: seq<Block>, lh: seq<nat>, vals: seq<Block>)
    requires Planned(l, base, lh, vals)
    ensures var d1 := Apply(base, LogWrites(l, vals));
            var d2 := Apply(d1, [HeadWrite(l, d1, Names(lh))]);
            var d3 := Apply(d2, InstallWrites(l, d2, Names(lh)));
            var ws := Writes(l, base, lh, vals);
            && |ws| == 2 * |lh| + 2
            && ws == LogWrites(l, vals) + [HeadWrite(l, d1, Names(lh))]
                     + InstallWrites(l, d2, Names(lh)) + [HeadWrite(l, d3, [])]
            && d2 == Sealed(l, base, Names(lh), vals)
  {
    hide Apply, WriteHeader;
    assert Names(lh) != [];
  }

  /** commit's list of writes, one at a time. */
  lemma WriteAt(l: Layout, base: seq<Block>, lh: seq<nat>, vals: seq<Block>, k: nat)
    requires Planned(l, base, lh, vals) && k < 2 * |lh| + 2
    ensures var ws := Writes(l, base, lh, vals);
            && |ws| == 2 * |lh| + 2 && NextWrite(l, Apply(base, ws[..k]), lh, vals, k) == ws[k] && ws[k].b < |base|
            && Apply(base, ws[..k + 1]) == Apply(base, ws[..k])[ws[k].b := ws[k].data]
            && Apply(base, ws[..0]) == base
  {
    hide Apply, WriteHeader, Writes, Sealed;
    WritesSplit(l, base, lh, vals);
    var n, names := |lh|, Names(lh);
    var ws, ls := Writes(l, base, lh, vals), LogWrites(l, vals);
    var d1 := Apply(base, ls);
    var h1 := HeadWrite(l, d1, names);
    var d2 := Apply(d1, [h1]);
    var ins := InstallWrites(l, d2, names);
    if k < n {
      assert ws[k] == ls[k];
    } else if k == n {
      assert ws[..n] == ls;
    } else if k <= 2 * n {
      SealedBlock(l, base, names, vals, l.start + 1 + (k - n - 1));
      assert ws[k] == ins[k - n - 1];
    } else {
      assert ws[..k] == ls + [h1] + ins;
      ApplyAppend(base, ls, [h1]);
      ApplyAppend(base, ls + [h1], ins);
    }
    ApplyNext(base, ws, k);
  }

  /** Commit has so far made the first writes of the transaction, and no others. */
  ghost predicate Follows(l: Layout, s: State, base: seq<Block>, lh: seq<nat>, vals: seq<Block>) {
    && Planned(l, base, lh, vals) && s.log.sh.committing
    && Position(|lh|, s.phase) <= |Writes(l, base, lh, vals)|
    && s.cache.disk == Apply(base, Writes(l, base, lh, vals)[..Position(|lh|, s.phase)])
    && (!s.phase.Resting? && !s.phase.Clearing? ==>
          && s.log.sh.lh == lh
          && forall t :: 0 <= t < |lh| ==> lh[t] < |s.cache.latest| && s.cache.latest[lh[t]] == vals[t])
  }

  predicate Finishes(e: Step) { e.Turn? && e.t.Finish? }

  lemma SameCommitting(l: Layout, s: State, e: Step, home: seq<Block>)
    requires Inv(l, s, home) && Stays(l, s, e) && s.log.sh.committing && !Finishes(e)
    ensures !Works(e) && LogAfter(l, s, e).sh.committing
  {
    hide Inv, Enabled, LogAfter;
    if Works(e) {
      Actor(l, s, e, home);
    }
    LogEffect(l, s, e);
  }

  lemma SameLatest(l: Layout, s: State, e: Step, home: seq<Block>, b: nat)
    requires Inv(l, s, home) && Stays(l, s, e) && !Works(e) && Home(l, home, b)
    ensures b < |CacheAfter(l, s, e).latest| == |s.cache.latest| && CacheAfter(l, s, e).latest[b] == s.cache.latest[b]
  {
    assert |s.cache.latest| == |home|;
    hide Inv, Enabled, CacheAfter;
    DiskEffect(l, s, e);
    if e.Copy? || e.Head? {
      StoreEffect(l, s, e, home, b);
    }
  }

  /** Only a bwrite moves commit on; and it is done with its blocks when it forgets them. */
  lemma PositionSame(l: Layout, s: State, e: Step, home: seq<Block>)
    requires Inv(l, s, home) && Stays(l, s, e) && s.log.sh.committing && !e.Flush? && !Finishes(e)
    ensures var lh, phase := s.log.sh.lh, PhaseAfter(l, s, e);
            && (!s.phase.Resting? && !s.phase.Clearing? ==> Position(|lh|, phase) == Position(|lh|, s.phase))
            && (s.phase.Resting? || s.phase.Clearing? ==>
                    phase.Resting? == s.phase.Resting? && phase.Clearing? == s.phase.Clearing?)
            && (!phase.Resting? && !phase.Clearing? ==> LogAfter(l, s, e).sh.lh == lh)
  {
    hide Cache.Inv, Group.Inv, Cache.Enabled, Group.Enabled, Group.Take, CacheAfter, LogAfter, OnDisk, HeaderOk;
    hide CopiesOk, PinsOk, ChangesOk, AheadOk, HasBlock, Has, Names;
    SameCommitting(l, s, e, home);
    LogEffect(l, s, e);
  }

  lemma Unflushed(l: Layout, s: State, e: Step, home: seq<Block>, base: seq<Block>, lh: seq<nat>, vals: seq<Block>)
    requires Inv(l, s, home) && Stays(l, s, e) && Follows(l, s, base, lh, vals) && !e.Flush? && !Finishes(e)
    ensures Follows(l, After(l, s, e), base, lh, vals)
  {
    hide Inv, Enabled, CacheAfter, LogAfter, PhaseAfter, Writes, Apply, Planned;
    SameCommitting(l, s, e, home);
    DiskEffect(l, s, e);
    PositionSame(l, s, e, home);
    forall t | 0 <= t < |lh| && !s.phase.Resting? && !s.phase.Clearing?
      ensures lh[t] < |CacheAfter(l, s, e).latest| && CacheAfter(l, s, e).latest[lh[t]] == s.cache.latest[lh[t]]
    {
      HomeHere(l, s, home, t);
      SameLatest(l, s, e, home, lh[t]);
    }
  }

  lemma HomeHere(l: Layout, s: State, home: seq<Block>, t: nat)
    requires Inv(l, s, home) && t < |s.log.sh.lh|
    ensures Home(l, home, s.log.sh.lh[t])
  {
    hide Cache.Inv, Group.Inv, OnDisk, HeaderOk, CopiesOk, PinsOk, ChangesOk, AheadOk;
  }

  /** The write that bwrite of buffer i makes. */
  function WriteOf(s: State, i: nat): Write
    requires i < |s.cache.bufs| && s.cache.bufs[i].blockno < |s.cache.latest|
  {
    Write(s.cache.bufs[i].blockno, s.cache.latest[s.cache.bufs[i].blockno])
  }

  /** What commit's bwrite has to do with the transaction: it makes write k, and no more. */
  ghost predicate Makes(l: Layout, s: State, e: Step, lh: seq<nat>, vals: seq<Block>, k: nat)
    requires Enabled(l, s, e)
  {
    && e.Flush? && |lh| == |vals| <= LOGSIZE && k < 2 * |lh| + 2 && l.start < |s.cache.disk|
    && e.i < |s.cache.bufs| && s.cache.bufs[e.i].blockno < |s.cache.latest|
    && NextWrite(l, s.cache.disk, lh, vals, k) == WriteOf(s, e.i)
    && Position(|lh|, PhaseAfter(l, s, e)) == k + 1
  }

  lemma LogBlockNext(l: Layout, s: State, e: Step, home: seq<Block>, base: seq<Block>, lh: seq<nat>, vals: seq<Block>)
    requires Inv(l, s, home) && Stays(l, s, e) && Follows(l, s, base, lh, vals) && e.Flush? && s.phase.Logging?
    ensures Makes(l, s, e, lh, vals, Position(|lh|, s.phase))
  {
    hide Enabled, Cache.Inv, Group.Inv, CacheAfter, LogAfter, OnDisk, HeaderOk, PinsOk, ChangesOk, AheadOk, Writes;
    hide Apply;
    hide WriteHeader, Names;
    Flushed(l, s, e, home);
  }

  lemma HeaderNext(l: Layout, s: State, e: Step, home: seq<Block>, base: seq<Block>, lh: seq<nat>, vals: seq<Block>)
    requires Inv(l, s, home) && Stays(l, s, e) && Follows(l, s, base, lh, vals) && e.Flush? && s.phase.Sealing?
    ensures Makes(l, s, e, lh, vals, Position(|lh|, s.phase))
  {
    hide Enabled, Cache.Inv, Group.Inv, CacheAfter, LogAfter, OnDisk, HeaderOk, PinsOk, ChangesOk, AheadOk, Writes;
    hide Apply;
    hide WriteHeader, Names;
    Flushed(l, s, e, home);
  }

  lemma HomeNext(l: Layout, s: State, e: Step, home: seq<Block>, base: seq<Block>, lh: seq<nat>, vals: seq<Block>)
    requires Inv(l, s, home) && Stays(l, s, e) && Follows(l, s, base, lh, vals) && e.Flush? && s.phase.Installing?
    ensures Makes(l, s, e, lh, vals, Position(|lh|, s.phase))
  {
    hide Enabled, Cache.Inv, Group.Inv, CacheAfter, LogAfter, OnDisk, HeaderOk, CopiesOk, PinsOk, ChangesOk, AheadOk;
    hide WriteHeader, Names, Writes, Apply;
    Flushed(l, s, e, home);
  }

  lemma ClearNext(l: Layout, s: State, e: Step, home: seq<Block>, base: seq<Block>, lh: seq<nat>, vals: seq<Block>)
    requires Inv(l, s, home) && Stays(l, s, e) && Follows(l, s, base, lh, vals) && e.Flush? && s.phase.Clearing?
    ensures Makes(l, s, e, lh, vals, Position(|lh|, s.phase))
  {
    hide Enabled, Cache.Inv, Group.Inv, CacheAfter, LogAfter, OnDisk, HeaderOk, PinsOk, ChangesOk, AheadOk, Writes;
    hide Apply;
    hide WriteHeader;
    Flushed(l, s, e, home);
    assert Names(s.log.sh.lh) == [];
  }

  /** What commit writes next is the next write of the transaction. */
  lemma FlushIsNext(l: Layout, s: State, e: Step, home: seq<Block>, base: seq<Block>, lh: seq<nat>, vals: seq<Block>)
    requires Inv(l, s, home) && Stays(l, s, e) && Follows(l, s, base, lh, vals) && e.Flush?
    ensures Makes(l, s, e, lh, vals, Position(|lh|, s.phase))
  {
    hide Inv, Enabled, Follows, Makes, Position;
    Flushed(l, s, e, home);
    match s.phase
    case Logging(t, copied) => LogBlockNext(l, s, e, home, base, lh, vals);
    case Sealing(stored) => HeaderNext(l, s, e, home, base, lh, vals);
    case Installing(t, copied) => HomeNext(l, s, e, home, base, lh, vals);
    case Clearing(stored) => ClearNext(l, s, e, home, base, lh, vals);
  }

  lemma FlushFollows(l: Layout, s: State, e: Step, home: seq<Block>, base: seq<Block>, lh: seq<nat>, vals: seq<Block>)
    requires Inv(l, s, home) && Stays(l, s, e) && Follows(l, s, base, lh, vals) && e.Flush?
    ensures Follows(l, After(l, s, e), base, lh, vals)
  {
    hide Inv, Enabled, CacheAfter, LogAfter, PhaseAfter, Writes, Apply, NextWrite, Position;
    FlushIsNext(l, s, e, home, base, lh, vals);
    WriteAt(l, base, lh, vals, Position(|lh|, s.phase));
    Flushed(l, s, e, home);
    DiskEffect(l, s, e);
    FlushPhase(l, s, e);
  }

  lemma FlushPhase(l: Layout, s: State, e: Step)
    requires Enabled(l, s, e) && e.Flush?
    ensures PhaseAfter(l, s, e).Resting? || PhaseAfter(l, s, e).Clearing? || !(s.phase.Resting? || s.phase.Clearing?)
  {
    hide Enabled;
  }

  /** A transaction that fits the log is written within it. */
  lemma NeverOver(l: Layout, s: State, e: Step, home: seq<Block>, base: seq<Block>, lh: seq<nat>, vals: seq<Block>)
    requires Inv(l, s, home) && Enabled(l, s, e) && Follows(l, s, base, lh, vals)
    ensures Stays(l, s, e)
  {
    hide Enabled, Cache.Inv, Group.Inv, OnDisk, HeaderOk, CopiesOk, PinsOk, ChangesOk, AheadOk, Writes, Apply;
  }

  lemma {:induction false} StillFollows(l: Layout, s: State, es: seq<Step>, home: seq<Block>, base: seq<Block>,
                                        lh: seq<nat>, vals: seq<Block>)
    requires Inv(l, s, home) && Runs(l, s, es) && Follows(l, s, base, lh, vals)
    requires forall k :: 0 <= k < |es| ==> !Finishes(es[k])
    ensures Follows(l, Final(l, s, es), base, lh, vals)
    decreases |es|
  {
    hide Inv, Enabled, After, Follows, Finishes, SealedAfter, Overruns, Stays;
    if es == [] {
    } else {
      assert !Finishes(es[0]);
      NeverOver(l, s, es[0], home, base, lh, vals);
      StepKeeps(l, s, es[0], home);
      if es[0].Flush? {
        FlushFollows(l, s, es[0], home, base, lh, vals);
      } else {
        Unflushed(l, s, es[0], home, base, lh, vals);
      }
      StillFollows(l, After(l, s, es[0]), es[1..], SealedAfter(s, es[0], home), base, lh, vals);
    }
  }

  // The start of commit -------------------------------------------------------------------------

  /** The buffers that log_write has pinned. */
  function Pins(s: State): map<nat, Block> {
    map b: nat | b in Unwritten(s.log.sh.lh, s.phase) && b < |s.cache.latest| :: s.cache.latest[b]
  }

  /** While commit runs, the latest contents of a home block are the pinned buffer's if it has
      one, and the disk's otherwise. */
  lemma LatestIsView(l: Layout, s: State, home: seq<Block>, b: nat)
    requires Inv(l, s, home) && s.log.sh.committing && Home(l, home, b)
    ensures |s.cache.latest| == |s.cache.disk| == |home|
    ensures s.cache.latest[b] == LogDevice.View(s.cache.disk, Pins(s), b)
  {
    hide Group.Inv, OnDisk, HeaderOk, CopiesOk, AheadOk, ChangesOk, Cache.KeysOk, Cache.Permutation;
    if b !in Pins(s) && s.cache.disk[b] != s.cache.latest[b] {
      var j :| 0 <= j < |s.cache.bufs| && s.cache.bufs[j].valid && s.cache.bufs[j].blockno == b;
      assert Cache.BufOk(s.cache.bufs[j], s.cache.crowd[j], s.cache.disk, s.cache.latest);
      NoneChanged(l, s, home, j);
    }
  }

  /** From the moment commit starts until it is done, the disk holds what a number of the block
      writes of RedoLog's commit leave, the values being those of the pinned buffers: commit's
      crash atomicity is that of RedoLog.CrashAtomic, whoever else uses the cache. */
  lemma CommitIsRedo(l: Layout, s: State, es: seq<Step>, home: seq<Block>, powers: seq<nat>, b: nat)
    requires Inv(l, s, home) && s.phase == Logging(0, false) && |s.log.sh.lh| < l.size
    requires Runs(l, s, es) && forall k :: 0 <= k < |es| ==> !Finishes(es[k])
    requires Home(l, home, b)
    ensures var d, e, lh, k := s.cache.disk, Final(l, s, es).cache.disk, s.log.sh.lh,
              Position(|s.log.sh.lh|, Final(l, s, es).phase);
            && |d| == |home| && Idle(l, d) && Loggable(l, |d|, Names(lh))
            && (forall t :: 0 <= t < |lh| ==> Names(lh)[t] < |d|)
            && var vals := LogDevice.Values(d, Pins(s), Names(lh));
            && e == Apply(d, Take(CommitWrites(l, d, Names(lh), vals), k))
            && Formatted(l, e) && |Recovered(l, e, powers)| == |d|
            && Recovered(l, e, powers)[b] == if k <= |lh| || LastIndex(Names(lh), b) < 0 then d[b]
                 else vals[LastIndex(Names(lh), b)]
  {
    hide Enabled, After, Runs, Final, Follows, Finishes, Apply, CommitWrites, Recovered, LastIndex, Cache.Inv;
    hide Group.Inv, PinsOk, ChangesOk, AheadOk;
    var d, lh := s.cache.disk, s.log.sh.lh;
    CommitStarts(l, s, home);
    var vals := LogDevice.Values(d, Pins(s), Names(lh));
    StillFollows(l, s, es, home, d, lh, vals);
    FollowsIs(l, Final(l, s, es), d, lh, vals);
    CrashAtomic(l, d, Names(lh), vals, Position(|lh|, Final(l, s, es).phase), powers);
  }

  lemma FollowsIs(l: Layout, s: State, base: seq<Block>, lh: seq<nat>, vals: seq<Block>)
    requires Follows(l, s, base, lh, vals)
    ensures Planned(l, base, lh, vals)
    ensures s.cache.disk == Apply(base, Take(CommitWrites(l, base, Names(lh), vals), Position(|lh|, s.phase)))
  {
    hide Apply, CommitWrites;
    var ws := Writes(l, base, lh, vals);
    assert ws[..|ws|] == ws;
  }

  lemma CommitStarts(l: Layout, s: State, home: seq<Block>)
    requires Inv(l, s, home) && s.phase == Logging(0, false) && |s.log.sh.lh| < l.size
    ensures var d, lh := s.cache.disk, s.log.sh.lh;
            && |d| == |home| && Idle(l, d) && Loggable(l, |d|, Names(lh))
            && (forall t :: 0 <= t < |lh| ==> Names(lh)[t] < |d|)
            && Follows(l, s, d, lh, LogDevice.Values(d, Pins(s), Names(lh)))
  {
    hide Cache.Inv, Group.Inv, PinsOk, ChangesOk, AheadOk, Writes, Apply;
    var d, lh := s.cache.disk, s.log.sh.lh;
    var vals := LogDevice.Values(d, Pins(s), Names(lh));
    WriteAt(l, d, lh, vals, 0);
    forall t | 0 <= t < |lh|
      ensures s.cache.latest[lh[t]] == vals[t]
    {
      LatestIsView(l, s, home, lh[t]);
    }
  }
}
