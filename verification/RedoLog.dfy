/** The redo log: commit and recovery as sequences of atomic block writes, any of
    which may be the last one before the machine stops. */
module RedoLog {
  import opened Disk
  import opened Param

  /** Where the log lies: its header in block start, its data in the blocks after it. */
  datatype Layout = Layout(start: nat, size: nat)

  predicate InLog(l: Layout, b: nat) { l.start <= b < l.start + l.size }

  // The header block ----------------------------------------------------------

  /** hb after write_head has stored the block numbers lh[..k] in it, from the end on. */
  function PutEntries(hb: Block, lh: seq<Word>, k: nat): Block
    requires k <= |lh| <= LOGSIZE
  {
    if k == 0 then hb else PutWord(PutEntries(hb, lh, k - 1), k, lh[k - 1])
  }

  function WriteHeader(hb: Block, lh: seq<Word>): Block
    requires |lh| <= LOGSIZE
  {
    PutEntries(PutWord(hb, 0, |lh|), lh, |lh|)
  }

  function Entries(hb: Block, n: nat): (lh: seq<Word>)
    requires n <= LOGSIZE
    ensures |lh| == n
  {
    if n == 0 then [] else Entries(hb, n - 1) + [WordAt(hb, n)]
  }

  /** What read_head takes from the header block. */
  function ReadHeader(hb: Block): seq<Word>
    requires WordAt(hb, 0) <= LOGSIZE
  {
    Entries(hb, WordAt(hb, 0))
  }

  lemma {:induction false} PutEntriesAt(hb: Block, lh: seq<Word>, k: nat, j: nat)
    requires k <= |lh| <= LOGSIZE && j <= LOGSIZE
    ensures WordAt(PutEntries(hb, lh, k), j) == if 0 < j <= k then lh[j - 1] else WordAt(hb, j)
  {
    if k == 0 {
    } else {
      PutEntriesAt(hb, lh, k - 1, j);
      WordAtPut(PutEntries(hb, lh, k - 1), k, lh[k - 1], j);
    }
  }

  lemma {:induction false} EntriesAt(hb: Block, n: nat, j: nat)
    requires j < n <= LOGSIZE
    ensures Entries(hb, n)[j] == WordAt(hb, j + 1)
  {
    if j >= n - 1 {
    } else {
      EntriesAt(hb, n - 1, j);
    }
  }

  /** The header reads back as written, whatever the block held before. */
  lemma HeaderRoundTrip(hb: Block, lh: seq<Word>)
    requires |lh| <= LOGSIZE
    ensures WordAt(WriteHeader(hb, lh), 0) == |lh|
    ensures ReadHeader(WriteHeader(hb, lh)) == lh
  {
    var h := PutWord(hb, 0, |lh|);
    WordAtPut(hb, 0, |lh|, 0);
    PutEntriesAt(h, lh, |lh|, 0);
    forall j | 0 <= j < |lh|
      ensures ReadHeader(WriteHeader(hb, lh))[j] == lh[j]
    {
      EntriesAt(WriteHeader(hb, lh), |lh|, j);
      PutEntriesAt(h, lh, |lh|, j + 1);
    }
  }

  // Block writes --------------------------------------------------------------

  datatype Write = Write(b: nat, data: Block)

  function Apply(d: seq<Block>, ws: seq<Write>): (e: seq<Block>)
    ensures |e| == |d|
  {
    if ws == [] then d
    else
      var e := Apply(d, ws[..|ws| - 1]);
      var w := ws[|ws| - 1];
      if w.b < |e| then e[w.b := w.data] else e
  }

  /** The machine stops after p writes at the latest. */
  function Take(ws: seq<Write>, p: nat): seq<Write> {
    if p < |ws| then ws[..p] else ws
  }

  lemma {:induction false} ApplyAppend(d: seq<Block>, a: seq<Write>, b: seq<Write>)
    ensures Apply(d, a + b) == Apply(Apply(d, a), b)
  {
    if b == [] {
      assert a + b == a;
    } else {
      var b' := b[..|b| - 1];
      assert (a + b)[..|a + b| - 1] == a + b';
      ApplyAppend(d, a, b');
    }
  }

  lemma ApplyOne(d: seq<Block>, w: Write)
    requires w.b < |d|
    ensures Apply(d, [w]) == d[w.b := w.data]
  {
    assert [w][..0] == [];
  }

  lemma ApplyNone(d: seq<Block>, ws: seq<Write>)
    ensures Apply(d, ws[..0]) == d && ws[..|ws|] == ws
  {
  }

  /** One write more. */
  lemma ApplyNext(d: seq<Block>, ws: seq<Write>, k: nat)
    requires k < |ws| && ws[k].b < |d|
    ensures Apply(d, ws[..k + 1]) == Apply(d, ws[..k])[ws[k].b := ws[k].data]
    ensures Apply(d, ws[..0]) == d
  {
    assert ws[..k + 1][..k] == ws[..k];
  }

  /** A block that no write names keeps its contents. */
  lemma {:induction false} ApplyFrame(d: seq<Block>, ws: seq<Write>, b: nat)
    requires b < |d| && forall i :: 0 <= i < |ws| ==> ws[i].b != b
    ensures Apply(d, ws)[b] == d[b]
  {
    if ws == [] {
    } else {
      ApplyFrame(d, ws[..|ws| - 1], b);
    }
  }

  // The writes of commit and of recovery ---------------------------------------

  /** write_log: the logged blocks, as the cache holds them, into the log. */
  function LogWrites(l: Layout, vals: seq<Block>): (ws: seq<Write>)
    ensures |ws| == |vals|
  {
    seq(|vals|, t requires 0 <= t < |vals| => Write(l.start + 1 + t, vals[t]))
  }

  /** install_trans: from the log to the home locations. */
  function InstallWrites(l: Layout, d: seq<Block>, lh: seq<Word>): (ws: seq<Write>)
    requires l.start + |lh| < |d|
    ensures |ws| == |lh|
  {
    seq(|lh|, t requires 0 <= t < |lh| => Write(lh[t], d[l.start + 1 + t]))
  }

  function HeadWrite(l: Layout, d: seq<Block>, lh: seq<Word>): Write
    requires l.start < |d| && |lh| <= LOGSIZE
  {
    Write(l.start, WriteHeader(d[l.start], lh))
  }

  ghost predicate Fits(l: Layout, d: seq<Block>) {
    0 < l.size && l.start + l.size <= |d|
  }

  /** Block numbers a transaction may log: home blocks, no more than the log holds. */
  ghost predicate Loggable(l: Layout, nblocks: nat, lh: seq<Word>) {
    && |lh| <= LOGSIZE && |lh| < l.size
    && forall t :: 0 <= t < |lh| ==> lh[t] < nblocks && !InLog(l, lh[t])
  }

  /** The header on disk is readable and names only home blocks. */
  ghost predicate Formatted(l: Layout, d: seq<Block>) {
    && Fits(l, d)
    && WordAt(d[l.start], 0) <= LOGSIZE
    && Loggable(l, |d|, ReadHeader(d[l.start]))
  }

  ghost predicate Idle(l: Layout, d: seq<Block>) {
    Fits(l, d) && WordAt(d[l.start], 0) == 0
  }

  /** Everything commit writes, in order. vals are the cached contents of the blocks lh. */
  function CommitWrites(l: Layout, d: seq<Block>, lh: seq<Word>, vals: seq<Block>): seq<Write>
    requires |lh| == |vals| <= LOGSIZE && l.start + |lh| < |d|
  {
    if lh == [] then []
    else
      var d1 := Apply(d, LogWrites(l, vals));
      var d2 := Apply(d1, [HeadWrite(l, d1, lh)]);
      LogWrites(l, vals) + [HeadWrite(l, d1, lh)] + ClearingWrites(l, d2, lh)
  }

  /** Install what the log holds for lh, then clear the header. */
  function ClearingWrites(l: Layout, d: seq<Block>, lh: seq<Word>): seq<Write>
    requires |lh| <= LOGSIZE && l.start + |lh| < |d|
  {
    var ws := InstallWrites(l, d, lh);
    ws + [HeadWrite(l, Apply(d, ws), [])]
  }

  /** Everything recover_from_log writes. */
  function RecoveryWrites(l: Layout, d: seq<Block>): seq<Write>
    requires l.start < |d| && WordAt(d[l.start], 0) <= LOGSIZE && l.start + WordAt(d[l.start], 0) < |d|
  {
    ClearingWrites(l, d, ReadHeader(d[l.start]))
  }

  // Meaning -------------------------------------------------------------------

  /** The last place of b in lh, or -1. */
  function LastIndex(lh: seq<Word>, b: nat): (t: int)
    ensures -1 <= t < |lh|
    ensures t >= 0 ==> lh[t] == b
    ensures forall u :: t < u < |lh| ==> lh[u] != b
  {
    if lh == [] then -1
    else if lh[|lh| - 1] == b then |lh| - 1
    else LastIndex(lh[..|lh| - 1], b)
  }

  /** What home block b holds for anyone who looks after recovery: the log's copy
      if the header names it, its own contents otherwise. */
  function HomeAt(l: Layout, d: seq<Block>, b: nat): Block
    requires l.start < |d| && WordAt(d[l.start], 0) <= LOGSIZE && l.start + WordAt(d[l.start], 0) < |d| && b < |d|
  {
    var t := LastIndex(ReadHeader(d[l.start]), b);
    if t < 0 then d[b] else d[l.start + 1 + t]
  }

  ghost predicate SameHome(l: Layout, d: seq<Block>, e: seq<Block>)
    requires Formatted(l, d) && Formatted(l, e)
  {
    |e| == |d| && forall b :: 0 <= b < |d| && !InLog(l, b) ==> HomeAt(l, e, b) == HomeAt(l, d, b)
  }

  /** d with the transaction applied to its home blocks. */
  ghost predicate Holds(l: Layout, d: seq<Block>, lh: seq<Word>, vals: seq<Block>, e: seq<Block>)
    requires |lh| == |vals| && Formatted(l, d) && Formatted(l, e)
  {
    |e| == |d| && forall b :: 0 <= b < |d| && !InLog(l, b) ==>
      HomeAt(l, e, b) == if LastIndex(lh, b) < 0 then HomeAt(l, d, b) else vals[LastIndex(lh, b)]
  }

  /** k turns of install_trans. */
  lemma {:induction false} Installed(l: Layout, d: seq<Block>, lh: seq<Word>, k: nat, b: nat)
    requires Fits(l, d) && Loggable(l, |d|, lh) && k <= |lh| && b < |d|
    ensures var e := Apply(d, InstallWrites(l, d, lh)[..k]);
            e[b] == if LastIndex(lh[..k], b) < 0 then d[b] else d[l.start + 1 + LastIndex(lh[..k], b)]
  {
    if k == 0 {
    } else {
      var ws := InstallWrites(l, d, lh);
      assert ws[..k][..k - 1] == ws[..k - 1];
      assert lh[..k][..k - 1] == lh[..k - 1];
      Installed(l, d, lh, k - 1, b);
    }
  }

  /** ... leave the log alone. */
  lemma InstalledLog(l: Layout, d: seq<Block>, lh: seq<Word>, k: nat, b: nat)
    requires Fits(l, d) && Loggable(l, |d|, lh) && k <= |lh| && b < |d| && InLog(l, b)
    ensures Apply(d, InstallWrites(l, d, lh)[..k])[b] == d[b]
  {
    Installed(l, d, lh, k, b);
  }

  /** Stopped before the header is cleared, recovery has changed no home block's meaning. */
  lemma InstallKeepsHome(l: Layout, d: seq<Block>, k: nat)
    requires Formatted(l, d) && k <= |ReadHeader(d[l.start])|
    ensures var e := Apply(d, InstallWrites(l, d, ReadHeader(d[l.start]))[..k]);
            Formatted(l, e) && SameHome(l, d, e) && e[l.start] == d[l.start]
  {
    hide Apply, LastIndex;
    var lh := ReadHeader(d[l.start]);
    var e := Apply(d, InstallWrites(l, d, lh)[..k]);
    InstalledLog(l, d, lh, k, l.start);
    forall b | 0 <= b < |d| && !InLog(l, b)
      ensures HomeAt(l, e, b) == HomeAt(l, d, b)
    {
      Installed(l, d, lh, k, b);
      var t := LastIndex(lh, b);
      if t >= 0 {
        InstalledLog(l, d, lh, k, l.start + 1 + t);
      }
    }
  }

  lemma ClearingFirst(l: Layout, d: seq<Block>, lh: seq<Word>, p: nat)
    requires |lh| <= LOGSIZE && l.start + |lh| < |d|
    ensures |ClearingWrites(l, d, lh)| == |lh| + 1
    ensures p <= |lh| ==> Take(ClearingWrites(l, d, lh), p) == Take(InstallWrites(l, d, lh), p)
    ensures p >= |lh| ==> Take(InstallWrites(l, d, lh), p) == InstallWrites(l, d, lh)
  {
  }

  lemma ClearingSecond(l: Layout, d: seq<Block>, lh: seq<Word>, p: nat)
    requires |lh| <= LOGSIZE && l.start + |lh| < |d| && p >= |lh|
    ensures var d1 := Apply(d, InstallWrites(l, d, lh));
            Apply(d, Take(ClearingWrites(l, d, lh), p)) == Apply(d1, Take([HeadWrite(l, d1, [])], p - |lh|))
  {
    hide HeadWrite;
    var ws := InstallWrites(l, d, lh);
    var w := HeadWrite(l, Apply(d, ws), []);
    if p == |lh| {
      assert Take(ClearingWrites(l, d, lh), p) == ws;
      assert Take([w], 0) == [];
    } else {
      ApplyAppend(d, ws, [w]);
    }
  }

  lemma ClearingEnd(l: Layout, d: seq<Block>, lh: seq<Word>)
    requires Fits(l, d) && Loggable(l, |d|, lh)
    ensures Apply(d, ClearingWrites(l, d, lh)) ==
              Apply(d, InstallWrites(l, d, lh))[l.start := WriteHeader(d[l.start], [])]
  {
    hide WriteHeader;
    var ws := InstallWrites(l, d, lh);
    var w := HeadWrite(l, Apply(d, ws), []);
    ApplyAppend(d, ws, [w]);
    ApplyOne(Apply(d, ws), w);
    assert ws[..|lh|] == ws;
    InstalledLog(l, d, lh, |lh|, l.start);
  }

  lemma ClearedBlock(l: Layout, d: seq<Block>, b: nat)
    requires Formatted(l, d) && b < |d|
    ensures var e := Apply(d, RecoveryWrites(l, d));
            e[l.start] == WriteHeader(d[l.start], []) && (!InLog(l, b) ==> e[b] == HomeAt(l, d, b))
  {
    hide WriteHeader, Apply, ClearingWrites, ReadHeader;
    var lh := ReadHeader(d[l.start]);
    ClearingEnd(l, d, lh);
    assert InstallWrites(l, d, lh)[..|lh|] == InstallWrites(l, d, lh) && lh[..|lh|] == lh;
    Installed(l, d, lh, |lh|, b);
  }

  /** Run to the end, it has put every home block's meaning in place. */
  lemma ClearedHome(l: Layout, d: seq<Block>)
    requires Formatted(l, d)
    ensures var e := Apply(d, RecoveryWrites(l, d));
            Idle(l, e) && Formatted(l, e) && SameHome(l, d, e)
  {
    hide Apply, RecoveryWrites, WriteHeader;
    var e := Apply(d, RecoveryWrites(l, d));
    ClearedBlock(l, d, l.start);
    HeaderRoundTrip(d[l.start], []);
    IdleHome(l, e);
    forall b | 0 <= b < |d| && !InLog(l, b)
      ensures HomeAt(l, e, b) == HomeAt(l, d, b)
    {
      ClearedBlock(l, d, b);
    }
  }

  /** Recovery stopped anywhere, or not at all, keeps what recovery is to restore. */
  lemma RecoveryKeepsHome(l: Layout, d: seq<Block>, p: nat)
    requires Formatted(l, d)
    ensures var e := Apply(d, Take(RecoveryWrites(l, d), p));
            Formatted(l, e) && SameHome(l, d, e)
    ensures p >= |RecoveryWrites(l, d)| ==> Idle(l, Apply(d, Take(RecoveryWrites(l, d), p)))
  {
    var lh := ReadHeader(d[l.start]);
    if p <= |lh| {
      InstallKeepsHome(l, d, p);
      assert Take(RecoveryWrites(l, d), p) == InstallWrites(l, d, lh)[..p];
    } else {
      ClearedHome(l, d);
    }
  }

  /** Until the header is written, commit only touches the body of the log. */
  lemma {:induction false} LoggedSoFar(l: Layout, d: seq<Block>, vals: seq<Block>, k: nat, b: nat)
    requires Fits(l, d) && |vals| < l.size && k <= |vals| && b < |d|
    ensures Apply(d, LogWrites(l, vals)[..k])[b] == if l.start < b <= l.start + k then vals[b - l.start - 1] else d[b]
  {
    if k == 0 {
    } else {
      assert LogWrites(l, vals)[..k][..k - 1] == LogWrites(l, vals)[..k - 1];
      LoggedSoFar(l, d, vals, k - 1, b);
    }
  }

  /** An idle disk means what its home blocks hold. */
  lemma IdleHome(l: Layout, d: seq<Block>)
    requires Idle(l, d)
    ensures Formatted(l, d) && ReadHeader(d[l.start]) == []
    ensures forall b :: 0 <= b < |d| ==> HomeAt(l, d, b) == d[b]
  {
  }

  /** The disk just after the header of the transaction has been written. */
  function Sealed(l: Layout, d: seq<Block>, lh: seq<Word>, vals: seq<Block>): seq<Block>
    requires |lh| == |vals| <= LOGSIZE && l.start + |lh| < |d|
  {
    var d1 := Apply(d, LogWrites(l, vals));
    Apply(d1, [HeadWrite(l, d1, lh)])
  }

  lemma CommitFirst(l: Layout, d: seq<Block>, lh: seq<Word>, vals: seq<Block>, p: nat)
    requires |lh| == |vals| <= LOGSIZE && l.start + |lh| < |d| && lh != []
    ensures p <= |lh| ==> Take(CommitWrites(l, d, lh, vals), p) == Take(LogWrites(l, vals), p)
    ensures |CommitWrites(l, d, lh, vals)| == 2 * |lh| + 2
  {
  }

  lemma CommitSecond(l: Layout, d: seq<Block>, lh: seq<Word>, vals: seq<Block>)
    requires |lh| == |vals| <= LOGSIZE && l.start + |lh| < |d| && lh != []
    ensures Apply(d, Take(LogWrites(l, vals), |lh|)) == Apply(d, LogWrites(l, vals))
    ensures Sealed(l, d, lh, vals) == var d1 := Apply(d, LogWrites(l, vals)); Apply(d1, [HeadWrite(l, d1, lh)])
  {
  }

  /** From the header on, commit does what recovery would do. */
  lemma CommitSplits(l: Layout, d: seq<Block>, lh: seq<Word>, vals: seq<Block>, p: nat)
    requires |lh| == |vals| <= LOGSIZE && l.start + |lh| < |d| && p > |lh| && lh != []
    ensures Apply(d, Take(CommitWrites(l, d, lh, vals), p))
         == Apply(Sealed(l, d, lh, vals), Take(ClearingWrites(l, Sealed(l, d, lh, vals), lh), p - |lh| - 1))
    ensures |CommitWrites(l, d, lh, vals)| == |lh| + 1 + |ClearingWrites(l, Sealed(l, d, lh, vals), lh)|
  {
    hide WriteHeader;
    var d1 := Apply(d, LogWrites(l, vals));
    var d2 := Sealed(l, d, lh, vals);
    var head := LogWrites(l, vals) + [HeadWrite(l, d1, lh)];
    var rest := Take(ClearingWrites(l, d2, lh), p - |lh| - 1);
    ApplyAppend(d, LogWrites(l, vals), [HeadWrite(l, d1, lh)]);
    assert Take(CommitWrites(l, d, lh, vals), p) == head + rest;
    ApplyAppend(d, head, rest);
  }

  lemma SealedBlock(l: Layout, d: seq<Block>, lh: seq<Word>, vals: seq<Block>, b: nat)
    requires Fits(l, d) && |lh| == |vals| <= LOGSIZE && |lh| < l.size && b < |d|
    ensures Sealed(l, d, lh, vals)[b] == if b == l.start then WriteHeader(d[b], lh)
                                         else if l.start < b <= l.start + |lh| then vals[b - l.start - 1] else d[b]
  {
    var d1 := Apply(d, LogWrites(l, vals));
    assert LogWrites(l, vals)[..|vals|] == LogWrites(l, vals);
    ApplyOne(d1, HeadWrite(l, d1, lh));
    LoggedSoFar(l, d, vals, |vals|, b);
  }

  lemma SealedHolds(l: Layout, d: seq<Block>, lh: seq<Word>, vals: seq<Block>)
    requires Idle(l, d) && |lh| == |vals| && Loggable(l, |d|, lh)
    ensures Formatted(l, d)
    ensures var e := Sealed(l, d, lh, vals);
            Formatted(l, e) && ReadHeader(e[l.start]) == lh && Holds(l, d, lh, vals, e)
  {
    IdleHome(l, d);
    hide WordAt, WriteHeader, ReadHeader, Sealed, Apply, LastIndex, HomeAt;
    var e := Sealed(l, d, lh, vals);
    SealedBlock(l, d, lh, vals, l.start);
    HeaderRoundTrip(d[l.start], lh);
    forall b | 0 <= b < |d| && !InLog(l, b)
      ensures HomeAt(l, e, b) == if LastIndex(lh, b) < 0 then HomeAt(l, d, b) else vals[LastIndex(lh, b)]
    {
      SealedHome(l, d, lh, vals, b);
    }
  }

  lemma SealedHome(l: Layout, d: seq<Block>, lh: seq<Word>, vals: seq<Block>, b: nat)
    requires Idle(l, d) && |lh| == |vals| && Loggable(l, |d|, lh) && b < |d| && !InLog(l, b)
    ensures var e := Sealed(l, d, lh, vals);
            && WordAt(e[l.start], 0) == |lh|
            && HomeAt(l, e, b) == if LastIndex(lh, b) < 0 then d[b] else vals[LastIndex(lh, b)]
  {
    hide WordAt, WriteHeader, ReadHeader, Sealed, Apply;
    SealedBlock(l, d, lh, vals, l.start);
    HeaderRoundTrip(d[l.start], lh);
    SealedBlock(l, d, lh, vals, b);
    if LastIndex(lh, b) >= 0 {
      SealedBlock(l, d, lh, vals, l.start + 1 + LastIndex(lh, b));
    }
  }

  /** Commit stopped after p writes: nothing of the transaction shows up to and including
      the last log block, all of it from the header on. */
  lemma CommitAtomic(l: Layout, d: seq<Block>, lh: seq<Word>, vals: seq<Block>, p: nat)
    requires Idle(l, d) && |lh| == |vals| && Loggable(l, |d|, lh)
    ensures Formatted(l, d)
    ensures var e := Apply(d, Take(CommitWrites(l, d, lh, vals), p));
            && Formatted(l, e)
            && (p <= |lh| ==> SameHome(l, d, e))
            && (p > |lh| ==> Holds(l, d, lh, vals, e))
            && (p >= |CommitWrites(l, d, lh, vals)| ==> Idle(l, e))
  {
    IdleHome(l, d);
    if lh != [] {
      if p <= |lh| {
        CommitEarly(l, d, lh, vals, p);
      } else {
        CommitLate(l, d, lh, vals, p);
      }
    }
  }

  lemma CommitEarly(l: Layout, d: seq<Block>, lh: seq<Word>, vals: seq<Block>, p: nat)
    requires Idle(l, d) && |lh| == |vals| && Loggable(l, |d|, lh) && p <= |lh| && lh != []
    ensures Formatted(l, d)
    ensures var e := Apply(d, Take(CommitWrites(l, d, lh, vals), p));
            Formatted(l, e) && SameHome(l, d, e)
  {
    hide WriteHeader, Apply, CommitWrites, LastIndex;
    IdleHome(l, d);
    var ws := LogWrites(l, vals);
    var e := Apply(d, ws[..p]);
    CommitFirst(l, d, lh, vals, p);
    assert Take(ws, p) == ws[..p];
    LoggedSoFar(l, d, vals, p, l.start);
    IdleHome(l, e);
    forall b | 0 <= b < |d| && !InLog(l, b)
      ensures e[b] == d[b]
    {
      LoggedSoFar(l, d, vals, p, b);
    }
  }

  lemma HoldsStill(l: Layout, d: seq<Block>, lh: seq<Word>, vals: seq<Block>, e: seq<Block>, f: seq<Block>)
    requires |lh| == |vals| && Formatted(l, d) && Formatted(l, e) && Formatted(l, f)
    requires Holds(l, d, lh, vals, e) && SameHome(l, e, f)
    ensures Holds(l, d, lh, vals, f)
  {
  }

  lemma CommitLate(l: Layout, d: seq<Block>, lh: seq<Word>, vals: seq<Block>, p: nat)
    requires Idle(l, d) && |lh| == |vals| && Loggable(l, |d|, lh) && p > |lh| && lh != []
    ensures Formatted(l, d)
    ensures var e := Apply(d, Take(CommitWrites(l, d, lh, vals), p));
            Formatted(l, e) && Holds(l, d, lh, vals, e) && (p >= |CommitWrites(l, d, lh, vals)| ==> Idle(l, e))
  {
    IdleHome(l, d);
    hide WordAt, WriteHeader, ReadHeader, Apply, CommitWrites, ClearingWrites, Sealed, HomeAt, Holds, SameHome;
    SealedHolds(l, d, lh, vals);
    CommitSplits(l, d, lh, vals, p);
    var d2 := Sealed(l, d, lh, vals);
    RecoveryKeepsHome(l, d2, p - |lh| - 1);
    HoldsStill(l, d, lh, vals, d2, Apply(d2, Take(RecoveryWrites(l, d2), p - |lh| - 1)));
  }

  // Crashes -------------------------------------------------------------------

  /** Boot after boot, each stopped after as many writes as powers says. */
  function Boots(l: Layout, d: seq<Block>, powers: seq<nat>): (e: seq<Block>)
    requires Formatted(l, d)
    ensures Formatted(l, e) && SameHome(l, d, e)
    decreases powers
  {
    if powers == [] then d
    else
      RecoveryKeepsHome(l, d, powers[0]);
      Boots(l, Apply(d, Take(RecoveryWrites(l, d), powers[0])), powers[1..])
  }

  /** The disk once some boot gets through recovery. */
  function Recovered(l: Layout, d: seq<Block>, powers: seq<nat>): (e: seq<Block>)
    requires Formatted(l, d)
    ensures Idle(l, e) && Formatted(l, e) && SameHome(l, d, e)
  {
    var c := Boots(l, d, powers);
    RecoveryKeepsHome(l, c, |RecoveryWrites(l, c)|);
    Apply(c, RecoveryWrites(l, c))
  }

  /** A commit stopped anywhere, followed by any number of stopped recoveries and one that
      completes, leaves the home blocks all as before the transaction or all as after it. */
  lemma CrashAtomic(l: Layout, d: seq<Block>, lh: seq<Word>, vals: seq<Block>, p: nat, powers: seq<nat>)
    requires Idle(l, d) && |lh| == |vals| && Loggable(l, |d|, lh)
    ensures var e := Apply(d, Take(CommitWrites(l, d, lh, vals), p));
            Formatted(l, e) && var f := Recovered(l, e, powers);
            && |f| == |d|
            && (p <= |lh| ==> forall b :: 0 <= b < |d| && !InLog(l, b) ==> f[b] == d[b])
            && (p > |lh| ==> forall b :: 0 <= b < |d| && !InLog(l, b) ==>
                  f[b] == if LastIndex(lh, b) < 0 then d[b] else vals[LastIndex(lh, b)])
  {
    hide Apply, CommitWrites, LastIndex, Recovered, HomeAt;
    CommitAtomic(l, d, lh, vals, p);
    var e := Apply(d, Take(CommitWrites(l, d, lh, vals), p));
    var f := Recovered(l, e, powers);
    IdleHome(l, f);
    IdleHome(l, d);
  }

  // Histories -----------------------------------------------------------------

  /** One transaction: what it logs, how many writes its commit gets through, and how
      many each recovery after that gets through before one completes. */
  datatype Txn = Txn(lh: seq<Word>, vals: seq<Block>, power: nat, powers: seq<nat>)

  ghost predicate GoodTxn(l: Layout, nblocks: nat, x: Txn) {
    |x.lh| == |x.vals| && Loggable(l, nblocks, x.lh)
  }

  /** The disk after the transaction and, if the machine stopped, after rebooting. */
  function Perform(l: Layout, d: seq<Block>, x: Txn): (e: seq<Block>)
    requires Idle(l, d) && GoodTxn(l, |d|, x)
    ensures Idle(l, e) && |e| == |d|
  {
    CommitAtomic(l, d, x.lh, x.vals, x.power);
    var e := Apply(d, Take(CommitWrites(l, d, x.lh, x.vals), x.power));
    if x.power >= |CommitWrites(l, d, x.lh, x.vals)| then e else Recovered(l, e, x.powers)
  }

  function PerformAll(l: Layout, d: seq<Block>, xs: seq<Txn>): (e: seq<Block>)
    requires Idle(l, d) && forall i :: 0 <= i < |xs| ==> GoodTxn(l, |d|, xs[i])
    ensures Idle(l, e) && |e| == |d|
    decreases xs
  {
    if xs == [] then d else PerformAll(l, Perform(l, d, xs[0]), xs[1..])
  }

  /** A transaction counts when its header reached the disk. */
  predicate Counts(x: Txn) { x.power > |x.lh| }

  /** Block b after the transactions that count, each applied as a whole. */
  function Durable(xs: seq<Txn>, b: nat, before: Block): Block
    requires forall i :: 0 <= i < |xs| ==> |xs[i].lh| == |xs[i].vals|
    decreases xs
  {
    if xs == [] then before
    else
      var t := LastIndex(xs[0].lh, b);
      Durable(xs[1..], b, if Counts(xs[0]) && t >= 0 then xs[0].vals[t] else before)
  }

  /** Over a whole history of commits, crashes and reboots, every home block holds what the
      transactions that count wrote to it, in order: none is lost, none is half applied. */
  lemma {:induction false} HistoryAtomic(l: Layout, d: seq<Block>, xs: seq<Txn>, b: nat)
    requires Idle(l, d) && b < |d| && !InLog(l, b)
    requires forall i :: 0 <= i < |xs| ==> GoodTxn(l, |d|, xs[i])
    ensures PerformAll(l, d, xs)[b] == Durable(xs, b, d[b])
    decreases xs
  {
    if xs == [] {
    } else {
      PerformOne(l, d, xs[0], b);
      HistoryAtomic(l, Perform(l, d, xs[0]), xs[1..], b);
    }
  }

  lemma PerformOne(l: Layout, d: seq<Block>, x: Txn, b: nat)
    requires Idle(l, d) && b < |d| && !InLog(l, b) && GoodTxn(l, |d|, x)
    ensures Perform(l, d, x)[b] == if Counts(x) && LastIndex(x.lh, b) >= 0 then x.vals[LastIndex(x.lh, b)] else d[b]
  {
    hide Apply, CommitWrites, LastIndex, Recovered;
    CrashAtomic(l, d, x.lh, x.vals, x.power, x.powers);
    CommitAtomic(l, d, x.lh, x.vals, x.power);
    IdleHome(l, d);
    IdleHome(l, Perform(l, d, x));
  }
}
