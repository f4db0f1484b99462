/** write(2) and crashes: the inode table as blocks of the disk, the transactions of filewrite as
    transactions of the redo log, and the volume that recovery finds. */
module Durability {
  import opened Param
  import opened Disk
  import opened Blocks
  import opened Files
  import opened FileSystem
  import Redo = RedoLog

  // Inodes in blocks ------------------------------------------------------------------------------

  const DWORDS := 16          // sizeof(struct dinode) in words
  const NADDRS := 13          // NDIRECT + 1

  function Addrs(blk: Block, c: nat, k: nat): (r: seq<Word>)
    requires c < IPB && k <= NADDRS
    ensures |r| == k && forall t :: 0 <= t < k ==> r[t] == WordAt(blk, 16 * c + 3 + t)
  {
    if k == 0 then [] else Addrs(blk, c, k - 1) + [WordAt(blk, 16 * c + 3 + (k - 1))]
  }

  /** Inode c of a block of the inode table: its size and addresses. */
  function GetInode(blk: Block, c: nat): (n: Inode)
    requires c < IPB
    ensures |n.addrs| == NADDRS
  {
    Inode(WordAt(blk, 16 * c + 2), Addrs(blk, c, NADDRS))
  }

  lemma AddrAt(blk: Block, c: nat, k: nat)
    requires c < IPB && k < NADDRS
    ensures GetInode(blk, c).addrs[k] == WordAt(blk, 16 * c + 3 + k)
  {
    hide WordAt, Addrs;
  }

  function PutAddrs(blk: Block, c: nat, addrs: seq<Word>, k: nat): Block
    requires c < IPB && k <= |addrs| == NADDRS
  {
    if k == 0 then blk else PutWord(PutAddrs(blk, c, addrs, k - 1), 16 * c + 3 + (k - 1), addrs[k - 1])
  }

  /** What iupdate makes of the block. */
  function PutInode(blk: Block, c: nat, n: Inode): Block
    requires c < IPB && |n.addrs| == NADDRS
  {
    PutAddrs(PutWord(blk, 16 * c + 2, n.size), c, n.addrs, NADDRS)
  }

  lemma {:induction false} PutAddrsAt(blk: Block, c: nat, addrs: seq<Word>, k: nat, j: nat)
    requires c < IPB && k <= |addrs| == NADDRS && j < WORDS
    ensures WordAt(PutAddrs(blk, c, addrs, k), j) ==
              if 16 * c + 3 <= j < 16 * c + 3 + k then addrs[j - 16 * c - 3] else WordAt(blk, j)
  {
    hide WordAt, PutWord;
    if k == 0 {
    } else {
      PutAddrsAt(blk, c, addrs, k - 1, j);
      WordAtPut(PutAddrs(blk, c, addrs, k - 1), 16 * c + 3 + (k - 1), addrs[k - 1], j);
    }
  }

  lemma PutInodeAt(blk: Block, c: nat, n: Inode, j: nat)
    requires c < IPB && |n.addrs| == NADDRS && j < WORDS
    ensures WordAt(PutInode(blk, c, n), j) ==
              if j == 16 * c + 2 then n.size
              else if 16 * c + 3 <= j < 16 * c + 16 then n.addrs[j - 16 * c - 3] else WordAt(blk, j)
  {
    hide WordAt, PutWord, PutAddrs;
    PutAddrsAt(PutWord(blk, 16 * c + 2, n.size), c, n.addrs, NADDRS, j);
    WordAtPut(blk, 16 * c + 2, n.size, j);
  }

  lemma GetPutAddr(blk: Block, c: nat, n: Inode, e: nat, k: nat)
    requires c < IPB && e < IPB && |n.addrs| == NADDRS && k < NADDRS
    ensures GetInode(PutInode(blk, c, n), e).addrs[k] == if e == c then n.addrs[k] else GetInode(blk, e).addrs[k]
  {
    hide WordAt, PutInode, GetInode;
    PutInodeAt(blk, c, n, 16 * e + 3 + k);
    AddrAt(PutInode(blk, c, n), e, k);
    AddrAt(blk, e, k);
  }

  /** An inode reads back as written, and the others of its block are untouched. */
  lemma GetPut(blk: Block, c: nat, n: Inode, e: nat)
    requires c < IPB && e < IPB && |n.addrs| == NADDRS
    ensures GetInode(PutInode(blk, c, n), e) == if e == c then n else GetInode(blk, e)
  {
    hide WordAt, PutInode, Addrs;
    PutInodeAt(blk, c, n, 16 * e + 2);
    var got, want := GetInode(PutInode(blk, c, n), e), if e == c then n else GetInode(blk, e);
    forall k | 0 <= k < NADDRS
      ensures got.addrs[k] == want.addrs[k]
    {
      GetPutAddr(blk, c, n, e, k);
    }
    assert |got.addrs| == |want.addrs| == NADDRS;
    assert got.addrs == want.addrs;
  }

  /** Inodes first, first + 1, ... in places 0 to c - 1 of a block. */
  function PutAll(blk: Block, ns: seq<Inode>, first: nat, c: nat): Block
    requires c <= IPB && forall j :: 0 <= j < |ns| ==> |ns[j].addrs| == NADDRS
  {
    if c == 0 then blk
    else
      var r := PutAll(blk, ns, first, c - 1);
      if first + c - 1 < |ns| then PutInode(r, c - 1, ns[first + c - 1]) else r
  }

  lemma {:induction false} PutAllAt(blk: Block, ns: seq<Inode>, first: nat, c: nat, e: nat)
    requires e < c <= IPB && first + e < |ns| && forall j :: 0 <= j < |ns| ==> |ns[j].addrs| == NADDRS
    ensures GetInode(PutAll(blk, ns, first, c), e) == ns[first + e]
  {
    hide GetInode, PutInode;
    var r := PutAll(blk, ns, first, c - 1);
    if first + c - 1 < |ns| {
      GetPut(r, c - 1, ns[first + c - 1], e);
    }
    if e < c - 1 {
      PutAllAt(blk, ns, first, c - 1, e);
    }
  }

  lemma {:induction false} PutAllSame(blk: Block, ns: seq<Inode>, ms: seq<Inode>, first: nat, c: nat)
    requires c <= IPB && |ns| == |ms| && forall j :: 0 <= j < |ns| ==> |ns[j].addrs| == |ms[j].addrs| == NADDRS
    requires forall j :: first <= j < first + c && j < |ns| ==> ns[j] == ms[j]
    ensures PutAll(blk, ns, first, c) == PutAll(blk, ms, first, c)
  {
    hide PutInode;
    if c == 0 {
    } else {
      PutAllSame(blk, ns, ms, first, c - 1);
    }
  }

  // Volumes as disks --------------------------------------------------------------------------------

  predicate InTable(sb: SuperBlock, b: nat) { sb.inodestart <= b < sb.bmapstart }

  ghost predicate Addressed(ns: seq<Inode>) { forall j :: 0 <= j < |ns| ==> |ns[j].addrs| == NADDRS }

  /** The disk of a volume: its blocks, with the inodes in the blocks of the table. raw holds what
      else these blocks have in them. */
  ghost function Stored(sb: SuperBlock, raw: seq<Block>, d: seq<Block>, ns: seq<Inode>): (img: seq<Block>)
    requires |raw| == |d| && Addressed(ns)
    ensures |img| == |d| && forall b :: 0 <= b < |d| && !InTable(sb, b) ==> img[b] == d[b]
  {
    seq(|d|, b requires 0 <= b < |d| =>
      if InTable(sb, b) then PutAll(raw[b], ns, IPB * (b - sb.inodestart), IPB) else d[b])
  }

  /** The inode table as the kernel reads it. */
  ghost function TableOf(sb: SuperBlock, img: seq<Block>, n: nat): (ns: seq<Inode>)
    requires forall j :: 0 <= j < n ==> IBlock(sb, j) < |img|
    ensures |ns| == n
  {
    seq(n, j requires 0 <= j < n => GetInode(img[IBlock(sb, j)], j % IPB))
  }

  lemma PlaceOf(sb: SuperBlock, j: nat)
    ensures IPB * (IBlock(sb, j) - sb.inodestart) + j % IPB == j && sb.inodestart <= IBlock(sb, j) && j % IPB < IPB
  {
  }

  lemma StoredInode(sb: SuperBlock, raw: seq<Block>, d: seq<Block>, ns: seq<Inode>, j: nat)
    requires |raw| == |d| && Addressed(ns) && j < |ns| && IBlock(sb, j) < sb.bmapstart <= |d|
    ensures GetInode(Stored(sb, raw, d, ns)[IBlock(sb, j)], j % IPB) == ns[j]
  {
    hide GetInode, PutAll, IBlock;
    PlaceOf(sb, j);
    var b := IBlock(sb, j);
    PutAllAt(raw[b], ns, IPB * (b - sb.inodestart), IPB, j % IPB);
  }

  /** What a transaction has not logged it has not changed, in the table either. */
  lemma StoredSame(sb: SuperBlock, raw: seq<Block>, d: seq<Block>, ns: seq<Inode>, e: seq<Block>, ms: seq<Inode>,
                   logged: set<nat>, fullest: nat, b: nat)
    requires Booked(sb, d, ns, e, ms, logged, fullest, {}) && |raw| == |d| && Addressed(ns) && Addressed(ms)
    requires b < |d| && b !in logged
    ensures Stored(sb, raw, e, ms)[b] == Stored(sb, raw, d, ns)[b]
  {
    hide PutAll, IBlock;
    if InTable(sb, b) {
      var first := IPB * (b - sb.inodestart);
      forall j | first <= j < first + IPB && j < |ns|
        ensures ns[j] == ms[j]
      {
        BlockOfInode(sb, j, b);
      }
      PutAllSame(raw[b], ns, ms, first, IPB);
    }
  }

  lemma BlockOfInode(sb: SuperBlock, j: nat, b: nat)
    requires sb.inodestart <= b && IPB * (b - sb.inodestart) <= j < IPB * (b - sb.inodestart) + IPB
    ensures IBlock(sb, j) == b
  {
  }

  // Disks that agree above the inode table ----------------------------------------------------------

  ghost predicate SameAbove(sb: SuperBlock, d: seq<Block>, e: seq<Block>) {
    |d| == |e| && forall b :: sb.bmapstart <= b < |d| ==> d[b] == e[b]
  }

  lemma SameSlots(sb: SuperBlock, d: seq<Block>, e: seq<Block>, ns: seq<Inode>, owner: Owners, j: nat, k: nat)
    requires Owns(sb, d, ns, owner) && SameAbove(sb, d, e) && j < |ns| && k < NSLOTS
    ensures Slot(e, ns[j], k) == Slot(d, ns[j], k)
  {
    hide MapAgrees, WordAt;
    assert Slot(d, ns[j], INDIRECT) == ns[j].addrs[INDIRECT];
  }

  lemma SameOwns(sb: SuperBlock, d: seq<Block>, e: seq<Block>, ns: seq<Inode>, owner: Owners)
    requires Owns(sb, d, ns, owner) && SameAbove(sb, d, e)
    ensures Owns(sb, e, ns, owner)
  {
    forall j, k | 0 <= j < |ns| && 0 <= k < NSLOTS
      ensures Slot(e, ns[j], k) == Slot(d, ns[j], k)
    {
      SameSlots(sb, d, e, ns, owner, j, k);
    }
    hide Slot, BitAt;
    forall b | 0 <= b < sb.size
      ensures BBlock(sb, b) < |e| && InUse(sb, e, b) == InUse(sb, d, b)
    {
      assert sb.bmapstart <= BBlock(sb, b) < sb.nmeta;
    }
    assert SlotsOwned(e, ns, owner);
    assert OwnersHold(sb, e, ns, owner);
    assert MapAgrees(sb, e, owner);
  }

  lemma SameContent(sb: SuperBlock, d: seq<Block>, e: seq<Block>, ns: seq<Inode>, owner: Owners, j: nat)
    requires Owns(sb, d, ns, owner) && SameAbove(sb, d, e) && j < |ns| && FileOk(d, ns[j])
    ensures FileOk(e, ns[j]) && Content(e, ns[j]) == Content(d, ns[j])
  {
    forall k | 0 <= k < NSLOTS
      ensures Slot(e, ns[j], k) == Slot(d, ns[j], k)
    {
      SameSlots(sb, d, e, ns, owner, j, k);
    }
    hide Slot, MapAgrees, BlockOf, Inner;
    forall p | 0 <= p < ns[j].size
      ensures FileByte(e, ns[j], p) == FileByte(d, ns[j], p)
    {
      SameByte(sb, d, e, ns, owner, j, p);
    }
  }

  lemma SameByte(sb: SuperBlock, d: seq<Block>, e: seq<Block>, ns: seq<Inode>, owner: Owners, j: nat, p: nat)
    requires Owns(sb, d, ns, owner) && SameAbove(sb, d, e) && j < |ns| && FileOk(d, ns[j]) && p < ns[j].size
    ensures FileByte(e, ns[j], p) == FileByte(d, ns[j], p)
  {
    hide MapAgrees;
    var k := DataSlot(BlockOf(p));
    SameSlots(sb, d, e, ns, owner, j, k);
    Mapped(d, ns[j], p);
    var a := Slot(d, ns[j], k);
    assert a in owner;
    assert sb.nmeta <= a < |d|;
  }

  lemma Mapped(d: seq<Block>, n: Inode, p: nat)
    requires FileOk(d, n) && p < n.size
    ensures BlockOf(p) < MAXFILE && Slot(d, n, DataSlot(BlockOf(p))) != 0
  {
    hide Slot;
    var bn := BlockOf(p);
    assert bn < MAXFILE && bn * BSIZE < n.size;
  }

  // Transactions of the redo log --------------------------------------------------------------------

  /** The blocks of a set in some order, as log_write would have listed them. */
  ghost function Listed(s: set<nat>): (lh: seq<Word>)
    requires forall b :: b in s ==> b < 0x1_0000_0000
    ensures |lh| == |s|
    ensures forall b: nat :: b in lh <==> b in s
    ensures forall t :: 0 <= t < |lh| ==> lh[t] in s
  {
    if s == {} then []
    else
      var b :| b in s;
      [b] + Listed(s - {b})
  }

  ghost function Contents(img: seq<Block>, lh: seq<Word>): (vals: seq<Block>)
    requires forall t :: 0 <= t < |lh| ==> lh[t] < |img|
    ensures |vals| == |lh| && forall t :: 0 <= t < |lh| ==> vals[t] == img[lh[t]]
  {
    seq(|lh|, t requires 0 <= t < |lh| => img[lh[t]])
  }

  /** Blocks that a transaction may log: at most MAXOPBLOCKS, above the log. */
  ghost predicate Loggable(l: Redo.Layout, size: nat, blocks: set<nat>) {
    && |blocks| <= MAXOPBLOCKS < l.size && size <= 0x1_0000_0000
    && forall b :: b in blocks ==> l.start + l.size <= b < size
  }

  /** The transaction that takes the disk to img. */
  ghost function AsRedo(l: Redo.Layout, img: seq<Block>, blocks: set<nat>, power: nat, powers: seq<nat>): Redo.Txn
    requires Loggable(l, |img|, blocks)
  {
    Redo.Txn(Listed(blocks), Contents(img, Listed(blocks)), power, powers)
  }

  ghost predicate SameHomes(l: Redo.Layout, d: seq<Block>, img: seq<Block>) {
    |d| == |img| && forall b: nat :: b < |d| && !Redo.InLog(l, b) ==> d[b] == img[b]
  }

  lemma RedoGood(l: Redo.Layout, img: seq<Block>, blocks: set<nat>, power: nat, powers: seq<nat>)
    requires Loggable(l, |img|, blocks)
    ensures Redo.GoodTxn(l, |img|, AsRedo(l, img, blocks, power, powers))
  {
    var lh := Listed(blocks);
    forall t | 0 <= t < |lh|
      ensures lh[t] < |img| && !Redo.InLog(l, lh[t])
    {
      assert lh[t] in lh;
    }
  }

  // A crash during write(2) -------------------------------------------------------------------------

  /** A transaction takes block b from one image to the next. */
  ghost predicate Takes(x: Redo.Txn, from: Block, to: Block, b: nat) {
    && |x.lh| == |x.vals|
    && var t := Redo.LastIndex(x.lh, b);
       if t >= 0 then x.vals[t] == to else from == to
  }

  /** All but the last transaction count: what is durable is the image after the last one that does. */
  lemma {:induction false} DurableImage(txs: seq<Redo.Txn>, at: seq<Block>, b: nat)
    requires txs != [] && |at| == |txs| + 1
    requires forall t :: 0 <= t < |txs| ==> Takes(txs[t], at[t], at[t + 1], b)
    requires forall t :: 0 <= t < |txs| - 1 ==> Redo.Counts(txs[t])
    ensures forall t :: 0 <= t < |txs| ==> |txs[t].lh| == |txs[t].vals|
    ensures Redo.Durable(txs, b, at[0]) == if Redo.Counts(txs[|txs| - 1]) then at[|txs|] else at[|txs| - 1]
    decreases |txs|
  {
    assert Takes(txs[0], at[0], at[1], b);
    if |txs| == 1 {
      assert txs[1..] == [];
    } else {
      DurableImage(txs[1..], at[1..], b);
    }
  }

  /** The volume's disk after t transactions. */
  ghost function ImageAt(sb: SuperBlock, raw: seq<Block>, d: seq<Block>, ns: seq<Inode>, xs: seq<Txn>,
                         t: nat): (img: seq<Block>)
    requires t <= |xs| && |raw| == |DiskAt(d, xs, t)| && Addressed(TableAt(ns, xs, t))
  {
    Stored(sb, raw, DiskAt(d, xs, t), TableAt(ns, xs, t))
  }

  /** Transactions as filewrite leaves them, on a disk whose log lies below the inode table. */
  ghost predicate Written(l: Redo.Layout, sb: SuperBlock, raw: seq<Block>, d: seq<Block>, ns: seq<Inode>,
                          xs: seq<Txn>) {
    && |raw| == |d| == sb.size <= 0x1_0000_0000 && Addressed(ns) && Chain(sb, d, ns, xs)
    && l.start + l.size <= sb.inodestart && MAXOPBLOCKS < l.size
    && forall t :: 0 <= t < |xs| ==>
         |xs[t].disk| == |d| && Addressed(xs[t].inodes) && WithinReservation(xs[t].blocks, xs[t].fullest)
  }

  lemma BlocksLoggable(l: Redo.Layout, sb: SuperBlock, raw: seq<Block>, d: seq<Block>, ns: seq<Inode>, xs: seq<Txn>,
                       t: nat)
    requires Written(l, sb, raw, d, ns, xs) && t < |xs|
    ensures Loggable(l, sb.size, xs[t].blocks)
  {
    assert Link(sb, d, ns, xs, t);
  }

  /** More block writes than any commit makes. */
  const PLENTY := 2 * LOGSIZE + 2

  /** Transaction t of the write, in the redo log. */
  ghost function RedoAt(l: Redo.Layout, sb: SuperBlock, raw: seq<Block>, d: seq<Block>, ns: seq<Inode>, xs: seq<Txn>,
                        t: nat, power: nat, powers: seq<nat>): (x: Redo.Txn)
    requires Written(l, sb, raw, d, ns, xs) && t < |xs|
    ensures |x.lh| == |xs[t].blocks| && x.power == power && Redo.GoodTxn(l, sb.size, x)
  {
    BlocksLoggable(l, sb, raw, d, ns, xs, t);
    RedoGood(l, ImageAt(sb, raw, d, ns, xs, t + 1), xs[t].blocks, power, powers);
    AsRedo(l, ImageAt(sb, raw, d, ns, xs, t + 1), xs[t].blocks, power, powers)
  }

  /** The first k transactions get through; the next one is stopped after so many block writes. */
  ghost function Stopped(l: Redo.Layout, sb: SuperBlock, raw: seq<Block>, d: seq<Block>, ns: seq<Inode>, xs: seq<Txn>,
                         k: nat, power: nat, powers: seq<nat>): (txs: seq<Redo.Txn>)
    requires Written(l, sb, raw, d, ns, xs) && k < |xs|
    ensures |txs| == k + 1
    ensures forall t :: 0 <= t <= k ==>
              txs[t] == RedoAt(l, sb, raw, d, ns, xs, t, if t < k then PLENTY else power, if t < k then [] else powers)
  {
    seq(k + 1, t requires 0 <= t <= k =>
      RedoAt(l, sb, raw, d, ns, xs, t, if t < k then PLENTY else power, if t < k then [] else powers))
  }

  lemma RedoTakes(l: Redo.Layout, sb: SuperBlock, raw: seq<Block>, d: seq<Block>, ns: seq<Inode>, xs: seq<Txn>,
                  t: nat, power: nat, powers: seq<nat>, b: nat)
    requires Written(l, sb, raw, d, ns, xs) && t < |xs| && b < sb.size
    ensures Takes(RedoAt(l, sb, raw, d, ns, xs, t, power, powers), ImageAt(sb, raw, d, ns, xs, t)[b],
              ImageAt(sb, raw, d, ns, xs, t + 1)[b], b)
  {
    hide Listed, Stored, Booked;
    BlocksLoggable(l, sb, raw, d, ns, xs, t);
    assert Link(sb, d, ns, xs, t);
    var x := RedoAt(l, sb, raw, d, ns, xs, t, power, powers);
    if b in xs[t].blocks {
      assert b in x.lh;
    } else {
      assert b !in x.lh;
      StoredSame(sb, raw, DiskAt(d, xs, t), TableAt(ns, xs, t), xs[t].disk, xs[t].inodes, xs[t].blocks, xs[t].fullest,
                 b);
    }
  }

  /** The disk after the crash and recovery: the image after k transactions, or after k + 1 if the
      header of the last one was written. */
  lemma StoppedLeaves(l: Redo.Layout, sb: SuperBlock, raw: seq<Block>, d: seq<Block>, ns: seq<Inode>, xs: seq<Txn>,
                      dsk: seq<Block>, k: nat, power: nat, powers: seq<nat>)
    requires Written(l, sb, raw, d, ns, xs) && k < |xs|
    requires Redo.Idle(l, dsk) && SameHomes(l, dsk, ImageAt(sb, raw, d, ns, xs, 0))
    ensures |dsk| == sb.size
    ensures var t := if power > |xs[k].blocks| then k + 1 else k;
            SameHomes(l, Redo.PerformAll(l, dsk, Stopped(l, sb, raw, d, ns, xs, k, power, powers)),
              ImageAt(sb, raw, d, ns, xs, t))
  {
    hide Redo.PerformAll, Redo.Durable, Redo.Idle, RedoAt, Stored, Chain, Redo.GoodTxn;
    var txs := Stopped(l, sb, raw, d, ns, xs, k, power, powers);
    var t := if power > |xs[k].blocks| then k + 1 else k;
    forall b: nat | b < |dsk| && !Redo.InLog(l, b)
      ensures Redo.PerformAll(l, dsk, txs)[b] == ImageAt(sb, raw, d, ns, xs, t)[b]
    {
      StoppedBlock(l, sb, raw, d, ns, xs, dsk, k, power, powers, b);
    }
  }

  lemma StoppedBlock(l: Redo.Layout, sb: SuperBlock, raw: seq<Block>, d: seq<Block>, ns: seq<Inode>, xs: seq<Txn>,
                     dsk: seq<Block>, k: nat, power: nat, powers: seq<nat>, b: nat)
    requires Written(l, sb, raw, d, ns, xs) && k < |xs| && b < sb.size && !Redo.InLog(l, b)
    requires Redo.Idle(l, dsk) && SameHomes(l, dsk, ImageAt(sb, raw, d, ns, xs, 0))
    ensures var t := if power > |xs[k].blocks| then k + 1 else k;
            Redo.PerformAll(l, dsk, Stopped(l, sb, raw, d, ns, xs, k, power, powers))[b] ==
              ImageAt(sb, raw, d, ns, xs, t)[b]
  {
    hide Redo.PerformAll, Redo.Durable, Redo.Idle, RedoAt, Stored, Chain, Redo.GoodTxn, Takes;
    var txs := Stopped(l, sb, raw, d, ns, xs, k, power, powers);
    var at := seq(k + 2, t requires 0 <= t <= k + 1 => ImageAt(sb, raw, d, ns, xs, t)[b]);
    forall t | 0 <= t < |txs|
      ensures Takes(txs[t], at[t], at[t + 1], b)
    {
      RedoTakes(l, sb, raw, d, ns, xs, t, if t < k then PLENTY else power, if t < k then [] else powers, b);
    }
    assert forall t :: 0 <= t < |txs| - 1 ==> Redo.Counts(txs[t]);
    DurableImage(txs, at, b);
    Redo.HistoryAtomic(l, dsk, txs, b);
  }

  /** Seen through the files: the first i bytes of addr are in file ip, and the others are as before. */
  ghost predicate Shows(d: seq<Block>, ns: seq<Inode>, e: seq<Block>, ms: seq<Inode>, ip: nat, was: nat,
                        addr: seq<Byte>, i: nat) {
    && ip < |ns| == |ms| && i <= |addr|
    && (forall j :: 0 <= j < |ns| ==> FileOk(d, ns[j]) && FileOk(e, ms[j]))
    && (forall j :: 0 <= j < |ns| && j != ip ==> Content(e, ms[j]) == Content(d, ns[j]))
    && (i == 0 ==> Content(e, ms[ip]) == Content(d, ns[ip]))
    && (i > 0 ==> was <= ns[ip].size && Content(e, ms[ip]) == Spliced(Content(d, ns[ip]), was, addr[..i]))
  }

  lemma HoldsShows(sb: SuperBlock, d: seq<Block>, ns: seq<Inode>, e: seq<Block>, ms: seq<Inode>, owner: Owners,
                   ip: nat, was: nat, addr: seq<Byte>, i: nat)
    requires Holds(d, ns, e, ms, ip, was, addr, i) && Consistent(sb, e, ms, owner)
    requires forall j :: 0 <= j < |ns| ==> FileOk(d, ns[j])
    ensures Shows(d, ns, e, ms, ip, was, addr, i)
  {
    hide Owns, FileOk, Content, Spliced;
  }

  lemma ShowsAbove(sb: SuperBlock, d: seq<Block>, ns: seq<Inode>, e: seq<Block>, f: seq<Block>, ms: seq<Inode>,
                   owner: Owners, ip: nat, was: nat, addr: seq<Byte>, i: nat)
    requires Shows(d, ns, e, ms, ip, was, addr, i) && Owns(sb, e, ms, owner) && SameAbove(sb, e, f)
    ensures Shows(d, ns, f, ms, ip, was, addr, i) && Consistent(sb, f, ms, owner)
  {
    hide Owns, FileOk, Content, Spliced, SameAbove;
    SameOwns(sb, e, f, ms, owner);
    forall j | 0 <= j < |ms|
      ensures FileOk(f, ms[j]) && Content(f, ms[j]) == Content(e, ms[j])
    {
      SameContent(sb, e, f, ms, owner, j);
    }
  }

  /** A volume that shows a whole number of chunks, or all there is. */
  ghost predicate Survives(sb: SuperBlock, d: seq<Block>, ns: seq<Inode>, f: seq<Block>, ms: seq<Inode>,
                           ip: nat, was: nat, addr: seq<Byte>) {
    exists owner, i: nat :: (WholeChunks(i) || i == |addr|) && Consistent(sb, f, ms, owner)
      && Shows(d, ns, f, ms, ip, was, addr, i)
  }

  /** Before the first transaction and after each, the volume shows whole chunks. */
  lemma ShowsAt(sb: SuperBlock, d: seq<Block>, ns: seq<Inode>, owner: Owners, xs: seq<Txn>, ip: nat, was: nat,
                addr: seq<Byte>, t: nat)
    returns (o: Owners, i: nat)
    requires Consistent(sb, d, ns, owner) && ip < |ns| && t <= |xs|
    requires forall u :: 0 <= u < |xs| ==> LeftWhole(sb, d, ns, xs[u], ip, was, addr)
    ensures WholeChunks(i) || i == |addr|
    ensures Owns(sb, DiskAt(d, xs, t), TableAt(ns, xs, t), o)
    ensures Shows(d, ns, DiskAt(d, xs, t), TableAt(ns, xs, t), ip, was, addr, i)
  {
    hide Owns, FileOk, Content, Spliced, Holds, Shows;
    FilesAll(sb, d, ns, owner);
    if t == 0 {
      o, i := owner, 0;
      assert WholeChunks(0) by { NoChunk(); }
      HoldsNothing(d, ns, ip, was, addr);
      HoldsShows(sb, d, ns, d, ns, owner, ip, was, addr, 0);
    } else {
      var x := xs[t - 1];
      assert LeftWhole(sb, d, ns, x, ip, was, addr);
      o := x.owner;
      i :| (WholeChunks(i) || i == |addr|) && Holds(d, ns, x.disk, x.inodes, ip, was, addr, i);
      HoldsShows(sb, d, ns, x.disk, x.inodes, o, ip, was, addr, i);
    }
  }

  lemma TableRead(l: Redo.Layout, sb: SuperBlock, raw: seq<Block>, d: seq<Block>, ns: seq<Inode>, f: seq<Block>,
                  owner: Owners)
    requires Owns(sb, d, ns, owner) && |raw| == |d| && Addressed(ns) && l.start + l.size <= sb.inodestart
    requires SameHomes(l, f, Stored(sb, raw, d, ns))
    ensures (forall j :: 0 <= j < |ns| ==> IBlock(sb, j) < |f|) && TableOf(sb, f, |ns|) == ns && SameAbove(sb, d, f)
  {
    hide SlotsOwned, OwnersHold, MapAgrees, GetInode, PutAll;
    forall j | 0 <= j < |ns|
      ensures sb.inodestart <= IBlock(sb, j) < |f| && GetInode(f[IBlock(sb, j)], j % IPB) == ns[j]
    {
      TableRange(sb, d, ns, owner, j);
      StoredInode(sb, raw, d, ns, j);
    }
    assert TableOf(sb, f, |ns|) == ns;
  }

  /** What FileWrite says of its transactions makes them transactions of the redo log. */
  lemma WrittenHolds(l: Redo.Layout, sb: SuperBlock, raw: seq<Block>, d: seq<Block>, ns: seq<Inode>, owner: Owners,
                     xs: seq<Txn>, ip: nat, was: nat, addr: seq<Byte>)
    requires Consistent(sb, d, ns, owner) && Chain(sb, d, ns, xs) && |raw| == sb.size
    requires l.start + l.size <= sb.inodestart && MAXOPBLOCKS < l.size
    requires forall t :: 0 <= t < |xs| ==>
               WithinReservation(xs[t].blocks, xs[t].fullest) && LeftWhole(sb, d, ns, xs[t], ip, was, addr)
    ensures Written(l, sb, raw, d, ns, xs)
  {
    hide SlotsOwned, OwnersHold, MapAgrees, FileOk, Chain, WithinReservation, Holds;
    forall t | 0 <= t < |xs|
      ensures |xs[t].disk| == |d| && Addressed(xs[t].inodes)
    {
      assert LeftWhole(sb, d, ns, xs[t], ip, was, addr);
    }
  }

  /** What filewrite has done when the machine stops in its transaction k, after any number of block
      writes, and recovery has got through after any number of attempts: the inode table on the disk
      and the blocks it leads to are a consistent volume, in which the file holds the first
      chunks of what was to be written, whole, and every other file is as it was. */
  lemma WriteSurvives(l: Redo.Layout, sb: SuperBlock, raw: seq<Block>, d: seq<Block>, ns: seq<Inode>, owner: Owners,
                      xs: seq<Txn>, ip: nat, was: nat, addr: seq<Byte>, dsk: seq<Block>, k: nat, power: nat,
                      powers: seq<nat>)
    requires Consistent(sb, d, ns, owner) && Chain(sb, d, ns, xs) && |raw| == sb.size && ip < |ns| && k < |xs|
    requires l.start + l.size <= sb.inodestart && MAXOPBLOCKS < l.size
    requires forall t :: 0 <= t < |xs| ==>
               WithinReservation(xs[t].blocks, xs[t].fullest) && LeftWhole(sb, d, ns, xs[t], ip, was, addr)
    requires Addressed(ns) && |d| == sb.size && Redo.Idle(l, dsk) && SameHomes(l, dsk, Stored(sb, raw, d, ns))
    ensures Written(l, sb, raw, d, ns, xs) && |dsk| == sb.size
    ensures var f := Redo.PerformAll(l, dsk, Stopped(l, sb, raw, d, ns, xs, k, power, powers));
            && (forall j :: 0 <= j < |ns| ==> IBlock(sb, j) < |f|)
            && Survives(sb, d, ns, f, TableOf(sb, f, |ns|), ip, was, addr)
  {
    hide Redo.PerformAll, Redo.Idle, Stored, Chain, TableOf, LeftWhole, Consistent, WithinReservation, SameHomes;
    hide Survives;
    WrittenHolds(l, sb, raw, d, ns, owner, xs, ip, was, addr);
    assert ImageAt(sb, raw, d, ns, xs, 0) == Stored(sb, raw, d, ns);
    StoppedLeaves(l, sb, raw, d, ns, xs, dsk, k, power, powers);
    var f := Redo.PerformAll(l, dsk, Stopped(l, sb, raw, d, ns, xs, k, power, powers));
    ImageSurvives(l, sb, raw, d, ns, owner, xs, ip, was, addr, f, if power > |xs[k].blocks| then k + 1 else k);
  }

  /** A disk that holds the image after t transactions. */
  lemma ImageSurvives(l: Redo.Layout, sb: SuperBlock, raw: seq<Block>, d: seq<Block>, ns: seq<Inode>, owner: Owners,
                      xs: seq<Txn>, ip: nat, was: nat, addr: seq<Byte>, f: seq<Block>, t: nat)
    requires Written(l, sb, raw, d, ns, xs) && t <= |xs| && Consistent(sb, d, ns, owner) && ip < |ns|
    requires forall u :: 0 <= u < |xs| ==> LeftWhole(sb, d, ns, xs[u], ip, was, addr)
    requires SameHomes(l, f, ImageAt(sb, raw, d, ns, xs, t))
    ensures (forall j :: 0 <= j < |ns| ==> IBlock(sb, j) < |f|)
    ensures Survives(sb, d, ns, f, TableOf(sb, f, |ns|), ip, was, addr)
  {
    hide Stored, Chain, TableOf, LeftWhole, Consistent, Shows, Owns, WithinReservation;
    var o, i := ShowsAt(sb, d, ns, owner, xs, ip, was, addr, t);
    var e, ms := DiskAt(d, xs, t), TableAt(ns, xs, t);
    ShowsLength(d, ns, e, ms, ip, was, addr, i);
    TableRead(l, sb, raw, e, ms, f, o);
    ShowsAbove(sb, d, ns, e, f, ms, o, ip, was, addr, i);
  }

  lemma ShowsLength(d: seq<Block>, ns: seq<Inode>, e: seq<Block>, ms: seq<Inode>, ip: nat, was: nat, addr: seq<Byte>,
                    i: nat)
    requires Shows(d, ns, e, ms, ip, was, addr, i)
    ensures |ms| == |ns|
  {
  }
}
