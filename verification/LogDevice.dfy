/** log.c's commit and recovery, loop by loop, on a machine that may stop before any
    block write. */
module LogDevice {
  import opened Disk
  import opened Param
  import opened RedoLog

  /** A block as bread returns it: a pinned dirty buffer hides the disk. */
  function View(d: seq<Block>, cache: map<nat, Block>, b: nat): Block
    requires b < |d|
  {
    if b in cache then cache[b] else d[b]
  }

  /** The cached contents of the logged blocks. */
  function Values(d: seq<Block>, cache: map<nat, Block>, lh: seq<Word>): (vals: seq<Block>)
    requires forall t :: 0 <= t < |lh| ==> lh[t] < |d|
    ensures |vals| == |lh|
  {
    seq(|lh|, t requires 0 <= t < |lh| => View(d, cache, lh[t]))
  }

  class Log {
    const l: Layout
    const block: array<Word>    // lh.block
    var n: nat                  // lh.n
    var disk: seq<Block>
    var cache: map<nat, Block>  // buffers pinned by log_write
    var power: nat              // block writes left before the machine stops

    ghost predicate Valid()
      reads this, block
    {
      && Fits(l, disk)
      && block.Length == LOGSIZE
      && n <= LOGSIZE
      && Loggable(l, |disk|, block[..n])
      && forall b :: b in cache ==> !InLog(l, b)
    }

    /** disk holds what the first writes of ws, as many as there was power for, leave. */
    twostate predicate Wrote(ws: seq<Write>, up: bool)
      reads this
    {
      && disk == Apply(old(disk), Take(ws, old(power)))
      && (up <==> old(power) >= |ws|)
      && power == if up then old(power) - |ws| else 0
    }

    method Bwrite(b: nat, data: Block) returns (up: bool)
      requires b < |disk|
      modifies this`disk, this`cache, this`power
      ensures up <==> old(power) > 0
      ensures up ==> disk == old(disk)[b := data] && power == old(power) - 1 && cache == old(cache) - {b}
      ensures !up ==> disk == old(disk) && power == 0 && cache == old(cache)
    {
      if power == 0 {
        return false;
      }
      power := power - 1;
      disk := disk[b := data];
      cache := cache - {b};
      return true;
    }

    method WriteLog() returns (up: bool)
      requires Valid()
      modifies this`disk, this`cache, this`power
      ensures Wrote(LogWrites(l, Values(old(disk), old(cache), block[..n])), up)
      ensures Valid() && cache == old(cache)
    {
      hide Apply;
      ghost var vals := Values(disk, cache, block[..n]);
      ghost var ws := LogWrites(l, vals);
      ApplyNone(disk, ws);
      var tail := 0;
      while tail < n
        invariant 0 <= tail <= n
        invariant Valid() && cache == old(cache) && |disk| == |old(disk)|
        invariant disk == Apply(old(disk), ws[..tail]) && power == old(power) - tail
      {
        LoggedSoFar(l, old(disk), vals, tail, block[tail]);
        var from := View(disk, cache, block[tail]);
        assert from == vals[tail];
        up := Bwrite(l.start + tail + 1, from);
        if !up {
          return;
        }
        ApplyNext(old(disk), ws, tail);
        tail := tail + 1;
      }
      return true;
    }

    method WriteHead() returns (up: bool)
      requires Valid()
      modifies this`disk, this`cache, this`power
      ensures Wrote([HeadWrite(l, old(disk), block[..n])], up)
      ensures Valid() && cache == old(cache)
    {
      var hb := PutWord(disk[l.start], 0, n);
      var i := 0;
      while i < n
        invariant 0 <= i <= n
        invariant hb == PutEntries(PutWord(disk[l.start], 0, n), block[..n], i)
      {
        hb := PutWord(hb, i + 1, block[i]);
        i := i + 1;
      }
      ApplyOne(disk, HeadWrite(l, disk, block[..n]));
      up := Bwrite(l.start, hb);
    }

    method InstallTrans() returns (up: bool)
      requires Valid()
      modifies this`disk, this`cache, this`power
      ensures Wrote(InstallWrites(l, old(disk), block[..n]), up)
      ensures Valid()
      ensures up ==> cache == old(cache) - (set b | b in block[..n])
    {
      hide Apply;
      ghost var lh := block[..n];
      ghost var ws := InstallWrites(l, disk, lh);
      ApplyNone(disk, ws);
      var tail := 0;
      while tail < n
        invariant 0 <= tail <= n
        invariant Valid() && |disk| == |old(disk)|
        invariant disk == Apply(old(disk), ws[..tail]) && power == old(power) - tail
        invariant cache == old(cache) - (set b | b in lh[..tail])
      {
        InstalledLog(l, old(disk), lh, tail, l.start + tail + 1);
        var lbuf := disk[l.start + tail + 1];
        up := Bwrite(block[tail], lbuf);
        if !up {
          return;
        }
        ApplyNext(old(disk), ws, tail);
        assert lh[..tail + 1] == lh[..tail] + [lh[tail]];
        tail := tail + 1;
      }
      assert lh[..tail] == lh;
      return true;
    }

    /** Stopped or not, the disk is what a prefix of CommitWrites makes of it. */
    method Commit() returns (up: bool)
      requires Valid()
      modifies this`disk, this`cache, this`power, this`n
      ensures Wrote(CommitWrites(l, old(disk), old(block[..n]), Values(old(disk), old(cache), old(block[..n]))), up)
      ensures up ==> Valid() && n == 0 && cache == old(cache) - (set b | b in old(block[..n]))
    {
      hide Apply, Values;
      ghost var d, lh, vals := disk, block[..n], Values(disk, cache, block[..n]);
      if n > 0 {
        up := WriteLog();
        CommitFirst(l, d, lh, vals, old(power));
        if !up { return; }
        ghost var d1 := disk;
        up := WriteHead();
        CommitSecond(l, d, lh, vals);
        ApplyNone(d1, [HeadWrite(l, d1, lh)]);
        if !up { return; }
        up := Clear();
        CommitSplits(l, d, lh, vals, old(power));
      } else {
        ApplyNone(disk, []);
        up := true;
      }
    }

    /** install_trans, then a header without entries. */
    method Clear() returns (up: bool)
      requires Valid()
      modifies this`disk, this`cache, this`power, this`n
      ensures Wrote(ClearingWrites(l, old(disk), old(block[..n])), up)
      ensures up ==> Valid() && n == 0 && cache == old(cache) - (set b | b in old(block[..n]))
    {
      hide Apply, HeadWrite;
      ghost var d, lh, p := disk, block[..n], power;
      up := InstallTrans();
      ClearingFirst(l, d, lh, p);
      if !up { return; }
      n := 0;
      assert block[..n] == [];
      up := WriteHead();
      ClearingSecond(l, d, lh, p);
    }

    method ReadHead()
      requires Formatted(l, disk) && block.Length == LOGSIZE
      modifies this`n, block
      ensures n == WordAt(disk[l.start], 0) && block[..n] == ReadHeader(disk[l.start])
    {
      var hb := disk[l.start];
      n := WordAt(hb, 0);
      var i := 0;
      while i < n
        invariant 0 <= i <= n <= LOGSIZE && n == WordAt(hb, 0)
        invariant block[..i] == Entries(hb, i)
      {
        block[i] := WordAt(hb, i + 1);
        i := i + 1;
      }
    }

    /** Boot: whatever the log commits to is installed, as far as the power lasts. */
    method RecoverFromLog() returns (up: bool)
      requires Formatted(l, disk) && block.Length == LOGSIZE && cache == map[]
      modifies this`disk, this`cache, this`power, this`n, block
      ensures Wrote(RecoveryWrites(l, old(disk)), up)
      ensures up ==> Valid() && n == 0 && cache == map[]
    {
      ReadHead();
      up := Clear();
    }
  }
}
