/** The block layer and the file layer of fs.c over the logical disk, that is,
    the disk as bread sees it through the log and the buffer cache. */
module FileSystem {
  import opened Param
  import opened Disk
  import opened Blocks
  import opened Files
  import opened Truncate

  const MAXCHUNK := (MAXOPBLOCKS - 1 - 1 - 2) / 2 * 512   // filewrite's max
  const UINT_LIMIT := 0x1_0000_0000

  /** Unsigned addition, which wraps. */
  function AddWord(a: Word, b: Word): (r: Word)
    ensures r < a <==> a + b >= UINT_LIMIT
  {
    (a + b) % UINT_LIMIT
  }

  /** How many blocks of a file the n bytes from off on touch. */
  function Touched(off: nat, n: nat): nat {
    if n == 0 then 0 else BlockOf(off + n - 1) - BlockOf(off) + 1
  }

  lemma CountLogged(before: set<nat>, after: set<nat>, data: set<nat>, maps: set<nat>, indirect: set<nat>, iblock: nat,
                    off: nat, n: nat)
    requires after <= before + data + maps + indirect && |indirect| <= 1
    requires |data| <= Touched(off, n) && |maps| <= Touched(off, n) - InsideFirst(off, n) + 1
    ensures |after - before| < LogCost(off, n) && (before == {} ==> |after| < LogCost(off, n))
    ensures |after + {iblock} - before| <= LogCost(off, n)
  {
    hide Touched, InsideFirst;
    assert before == {} ==> after - before == after;
    var bound := data + maps + indirect;
    SubsetSize(after - before, bound);
    SubsetSize(after + {iblock} - before, bound + {iblock});
  }

  lemma {:induction false} SubsetSize(a: set<nat>, b: set<nat>)
    requires a <= b
    ensures |a| <= |b|
  {
    if a == {} {
    } else {
      var x :| x in a;
      SubsetSize(a - {x}, b - {x});
    }
  }

  /** How far the next turn of the loop gets: to the end of the block or of the request. */
  function RunLength(o: nat, left: nat): nat {
    if left < BSIZE - Inner(o) then left else BSIZE - Inner(o)
  }

  lemma RunFits(o: nat, left: nat)
    requires 0 < left
    ensures 0 < RunLength(o, left) <= left && Inner(o) + RunLength(o, left) <= BSIZE
    ensures RunLength(o, left) == left || Boundary(o + RunLength(o, left))
  {
  }

  lemma SliceMore(s: seq<Byte>, a: nat, b: nat, c: nat)
    requires a <= b <= c <= |s|
    ensures s[a..b] + s[b..c] == s[a..c]
  {
  }

  lemma TouchedNothing(off: nat)
    ensures Touched(off, 0) == InsideFirst(off, 0) == 0
  {
  }

  /** One more block is touched; only the first can be entered in its middle. */
  lemma TouchedStep(off: nat, tot: nat, next: nat, len: nat)
    requires tot < len && (tot == 0 || Boundary(off + tot)) && next == tot + RunLength(off + tot, len - tot)
    ensures tot < next <= len && Inner(off + tot) + (next - tot) <= BSIZE
    ensures next == len || Boundary(off + next)
    ensures Touched(off, next) == Touched(off, tot) + 1 <= Touched(off, len)
    ensures InsideFirst(off, next) <= InsideFirst(off, tot) + (if Boundary(off + tot) then 0 else 1)
  {
    RunFits(off + tot, len - tot);
    TouchedMore(off, tot, next - tot);
    TouchedMono(off, next, len);
  }

  lemma TouchedMore(off: nat, tot: nat, m: nat)
    requires 0 < m && (tot == 0 || Boundary(off + tot)) && Inner(off + tot) + m <= BSIZE
    ensures Touched(off, tot + m) == Touched(off, tot) + 1
  {
  }

  lemma TouchedMono(off: nat, n: nat, m: nat)
    requires n <= m
    ensures Touched(off, n) <= Touched(off, m)
  {
  }

  function IndirectOf(n: Inode): set<nat>
    requires |n.addrs| == NDIRECT + 1
  {
    if n.addrs[INDIRECT] == 0 then {} else {n.addrs[INDIRECT]}
  }

  /** 1 when the inode has no indirect block yet. */
  function Lacks(n: Inode): nat
    requires |n.addrs| == NDIRECT + 1
  {
    if n.addrs[INDIRECT] == 0 then 1 else 0
  }

  /** 1 when the run starts inside a block. */
  function InsideFirst(off: nat, n: nat): nat { if n > 0 && !Boundary(off) then 1 else 0 }

  /** The most blocks writei can log: each data block with a free-map block when
      it is new (the first cannot be new when off is inside it), the indirect block
      with a free-map block of its own, and the inode's block. */
  function LogCost(off: nat, n: nat): nat {
    2 * Touched(off, n) + 3 - InsideFirst(off, n)
  }

  /** From one state to the next: no block changes owner, and each block that finds one is
      logged with its free-map block. */
  ghost predicate Logs(sb: SuperBlock, o: Owners, l: set<nat>, p: Owners, m: set<nat>) {
    && l <= m
    && (forall b :: b in o ==> b in p && p[b] == o[b])
    && (forall b :: b in p && b !in o ==> b in m && BBlock(sb, b) in m)
  }

  lemma LogsNothing(sb: SuperBlock, o: Owners, l: set<nat>)
    ensures Logs(sb, o, l, o, l)
  {
  }

  lemma LogsTwice(sb: SuperBlock, o: Owners, l: set<nat>, p: Owners, m: set<nat>, q: Owners, n: set<nat>)
    requires Logs(sb, o, l, p, m) && Logs(sb, p, m, q, n)
    ensures Logs(sb, o, l, q, n)
  {
  }

  lemma LogsGrow(sb: SuperBlock, o: Owners, l: set<nat>, p: Owners, m: set<nat>)
    requires Logs(sb, o, l, p, m)
    ensures l <= m
  {
  }

  lemma LogsOne(sb: SuperBlock, d: seq<Block>, ns: seq<Inode>, o: Owners, l: set<nat>, b: nat, at: (nat, nat),
                m: set<nat>)
    requires Owns(sb, d, ns, o) && b < sb.size && !InUse(sb, d, b)
    requires l <= m && b in m && BBlock(sb, b) in m
    ensures Logs(sb, o, l, o[b := at], m) && |o[b := at]| == |o| + 1
  {
    assert b !in o;
  }

  lemma LogsKeeps(sb: SuperBlock, o: Owners, l: set<nat>, p: Owners, m: set<nat>, n: set<nat>)
    requires Logs(sb, o, l, p, m) && m <= n
    ensures Logs(sb, o, l, p, n)
  {
  }

  /** What writei's loop has spent after touching t blocks, the first of them f inside. */
  ghost predicate Account(o: Owners, l: set<nat>, n: Inode, owner: Owners, logged: set<nat>, now: Inode,
                          data: set<nat>, maps: set<nat>, t: nat, f: nat) {
    && |n.addrs| == |now.addrs| == NDIRECT + 1
    && logged <= l + data + maps + IndirectOf(now)
    && |owner| <= |o| + t + Lacks(n) - Lacks(now)
    && |data| <= t && |maps| <= t - f + Lacks(n) - Lacks(now)
  }

  lemma AccountOpens(o: Owners, l: set<nat>, n: Inode)
    requires |n.addrs| == NDIRECT + 1
    ensures Account(o, l, n, o, l, n, {}, {}, 0, 0)
  {
  }

  lemma AccountIs(o: Owners, l: set<nat>, n: Inode, owner: Owners, logged: set<nat>, now: Inode, data: set<nat>,
                  maps: set<nat>, t: nat, f: nat)
    requires Account(o, l, n, owner, logged, now, data, maps, t, f)
    ensures |now.addrs| == NDIRECT + 1 && logged <= l + data + maps + IndirectOf(now)
    ensures |owner| <= |o| + t + 1 && |data| <= t && |maps| <= t - f + 1
  {
  }

  lemma AccountEnd(o: Owners, l: set<nat>, n: Inode, o1: Owners, l1: set<nat>, n1: Inode, owner: Owners, now: Inode,
                   data: set<nat>, maps: set<nat>, t: nat, f: nat)
    requires Account(o, l, n, o1, l1, n1, data, maps, t, f) && |now.addrs| == NDIRECT + 1
    requires |owner| <= |o1| + 1 + Lacks(n1) - Lacks(now)
    ensures |owner| <= |o| + t + 2
  {
  }

  lemma AccountStep(o: Owners, l: set<nat>, n: Inode, o1: Owners, l1: set<nat>, n1: Inode, owner: Owners,
                    logged: set<nat>, now: Inode, data: set<nat>, maps: set<nat>, addr: nat, more: set<nat>,
                    new1: nat, t: nat, f: nat, f2: nat)
    requires Account(o, l, n, o1, l1, n1, data, maps, t, f) && |now.addrs| == NDIRECT + 1
    requires |owner| <= |o1| + 1 + Lacks(n1) - Lacks(now) && logged <= l1 + more + {addr} + IndirectOf(now)
    requires IndirectOf(n1) <= IndirectOf(now) && |more| <= new1 + Lacks(n1) - Lacks(now)
    requires new1 + f2 <= f + 1
    ensures Account(o, l, n, owner, logged, now, data + {addr}, maps + more, t + 1, f2)
  {
    UnionSize(data, {addr});
    UnionSize(maps, more);
  }

  lemma UnionSize(a: set<nat>, b: set<nat>)
    ensures |a + b| <= |a| + |b|
  {
    assert a + b == a + (b - a);
    SubsetSize(b - a, b);
  }

  /** Where writei's loop stands after tot bytes, from disk d, inodes ns, owners o and log l. */
  ghost predicate Progress(sb: SuperBlock, d: seq<Block>, ns: seq<Inode>, o: Owners, l: set<nat>,
                           e: seq<Block>, ms: seq<Inode>, owner: Owners, logged: set<nat>,
                           i: nat, src: seq<Byte>, off: nat, s: seq<Byte>, tot: nat, data: set<nat>, maps: set<nat>,
                             mapped: nat) {
    && tot <= |src| && off <= |s| && i < |ns| == |ms|
    && Owns(sb, e, ms, owner) && OthersKept(d, ns, e, ms, i)
    && Image(e, ms[i], Spliced(s, off, src[..tot])) && ms[i].size == ns[i].size
    && (off + tot <= |s| ==> ms == ns)
    && Logs(sb, o, l, owner, logged)
    && (tot == 0 ==> e == d && ms == ns)
    && |ns[i].addrs| == NDIRECT + 1
    && (tot > 0 && off < MAXFILE * BSIZE && HomeOf(d, ns[i], off) != 0 ==> HomeOf(d, ns[i], off) in logged)
    && Account(o, l, ns[i], owner, logged, ms[i], data, maps, Touched(off, tot), mapped)
    && mapped >= InsideFirst(off, tot)
  }

  lemma ProgressOpens(sb: SuperBlock, d: seq<Block>, ns: seq<Inode>, o: Owners, l: set<nat>, i: nat, src: seq<Byte>,
                      off: nat, s: seq<Byte>)
    requires Owns(sb, d, ns, o) && i < |ns| && Image(d, ns[i], s) && OthersOk(d, ns, i) && off <= |s|
    ensures Progress(sb, d, ns, o, l, d, ns, o, l, i, src, off, s, 0, {}, {}, 0)
  {
    ImageFits(d, ns[i], s);
    hide Owns, Image, OthersKept, OthersOk, Spliced, Logs, Account, Touched, InsideFirst;
    LogsNothing(sb, o, l);
    AccountOpens(o, l, ns[i]);
    SplicedNothing(s, off, src);
    TouchedNothing(off);
    OthersKeptRefl(d, ns, i);
  }

  lemma ProgressEnds(sb: SuperBlock, d: seq<Block>, ns: seq<Inode>, o: Owners, l: set<nat>,
                     e: seq<Block>, ms: seq<Inode>, owner: Owners, logged: set<nat>,
                     i: nat, src: seq<Byte>, off: nat, s: seq<Byte>, data: set<nat>, maps: set<nat>, mapped: nat)
    requires Progress(sb, d, ns, o, l, e, ms, owner, logged, i, src, off, s, |src|, data, maps, mapped)
    ensures Owns(sb, e, ms, owner) && OthersKept(d, ns, e, ms, i) && Logs(sb, o, l, owner, logged)
    ensures i < |ns| == |ms| && Image(e, ms[i], Spliced(s, off, src)) && ms[i].size == ns[i].size
    ensures (off + |src| <= |s| ==> ms == ns)
    ensures src != [] && off < MAXFILE * BSIZE && HomeOf(d, ns[i], off) != 0 ==> HomeOf(d, ns[i], off) in logged
    ensures |ms[i].addrs| == NDIRECT + 1 && logged <= l + data + maps + IndirectOf(ms[i])
    ensures |owner| <= |o| + Touched(off, |src|) + 1 && |data| <= Touched(off, |src|)
    ensures |maps| <= Touched(off, |src|) - InsideFirst(off, |src|) + 1
  {
    hide Owns, Image, OthersKept, Spliced, Logs, Account, Touched, InsideFirst, HomeOf;
    assert src[..|src|] == src;
    AccountIs(o, l, ns[i], owner, logged, ms[i], data, maps, Touched(off, |src|), mapped);
  }

  /** A full disk has every data block owned. */
  lemma FullOwners(sb: SuperBlock, d: seq<Block>, ns: seq<Inode>, owner: Owners)
    requires Owns(sb, d, ns, owner) && Full(sb, d)
    ensures |owner| >= sb.size - sb.nmeta
  {
    assert forall b :: sb.nmeta <= b < sb.size ==> b in owner.Keys;
    AtLeast(sb.nmeta, sb.size, owner.Keys);
    assert |owner.Keys| == |owner|;
  }

  lemma {:induction false} AtLeast(a: nat, b: nat, s: set<nat>)
    requires a <= b && forall x :: a <= x < b ==> x in s
    ensures |s| >= b - a
    decreases b - a
  {
    if a >= b {
    } else {
      AtLeast(a + 1, b, s - {a});
    }
  }

  /** What an operation handed to log_write, the most blocks it had logged when it called it, and
      the volume it left behind. */
  datatype Txn = Txn(blocks: set<nat>, fullest: nat, disk: seq<Block>, inodes: seq<Inode>, owner: Owners)

  /** All that an operation has changed of disk d and table ns is logged, up to the blocks excepted,
      and no more than that was logged at any of its log_writes. */
  ghost predicate Booked(sb: SuperBlock, d: seq<Block>, ns: seq<Inode>, e: seq<Block>, ms: seq<Inode>,
                         logged: set<nat>, fullest: nat, but: set<nat>) {
    && fullest <= |logged| && |d| == |e| && |ns| == |ms|
    && (forall b :: 0 <= b < |e| && b !in logged && b !in but ==> e[b] == d[b])
    && (forall j :: 0 <= j < |ms| && IBlock(sb, j) !in logged && IBlock(sb, j) !in but ==> ms[j] == ns[j])
    && (forall b :: b in logged ==> sb.inodestart <= b < sb.size)
  }

  lemma BookedNothing(sb: SuperBlock, d: seq<Block>, ns: seq<Inode>)
    ensures Booked(sb, d, ns, d, ns, {}, 0, {})
  {
  }

  lemma BookedStore(sb: SuperBlock, d: seq<Block>, ns: seq<Inode>, e: seq<Block>, ms: seq<Inode>,
                    logged: set<nat>, fullest: nat, b: nat, blk: Block)
    requires b < |e|
    ensures Booked(sb, d, ns, e, ms, logged, fullest, {}) ==> Booked(sb, d, ns, e[b := blk], ms, logged, fullest, {b})
  {
    hide IBlock;
  }

  lemma BookedInode(sb: SuperBlock, d: seq<Block>, ns: seq<Inode>, e: seq<Block>, ms: seq<Inode>,
                    logged: set<nat>, fullest: nat, i: nat, n: Inode)
    requires i < |ms|
    ensures Booked(sb, d, ns, e, ms, logged, fullest, {}) ==>
              Booked(sb, d, ns, e, ms[i := n], logged, fullest, {IBlock(sb, i)})
  {
  }

  lemma BookedLogged(sb: SuperBlock, d: seq<Block>, ns: seq<Inode>, e: seq<Block>, ms: seq<Inode>,
                     logged: set<nat>, fullest: nat, b: nat)
    ensures Booked(sb, d, ns, e, ms, logged, fullest, {b}) && sb.inodestart <= b < sb.size ==>
              Booked(sb, d, ns, e, ms, logged + {b}, if |logged| > fullest then |logged| else fullest, {})
  {
    hide IBlock;
    SubsetSize(logged, logged + {b});
  }

  /** The metadata blocks are marked in use. */
  ghost predicate MetaUsed(sb: SuperBlock, d: seq<Block>)
    requires Geometry(sb, d)
  {
    forall c :: 0 <= c < sb.nmeta ==> InUse(sb, d, c)
  }

  /** Free-map blocks and free blocks lie above the log. */
  lemma FreeRange(sb: SuperBlock, d: seq<Block>, r: nat)
    requires Geometry(sb, d) && r < sb.size
    ensures sb.inodestart <= BBlock(sb, r) < sb.nmeta <= sb.size
    ensures MetaUsed(sb, d) && !InUse(sb, d, r) ==> sb.inodestart <= r
  {
    hide BitAt;
  }

  /** So do blocks that inodes own, */
  lemma OwnedRange(sb: SuperBlock, d: seq<Block>, ns: seq<Inode>, owner: Owners, b: nat)
    requires Owns(sb, d, ns, owner) && b in owner
    ensures sb.inodestart <= b < sb.size
  {
    hide SlotsOwned, MapAgrees, Slot;
    FreeRange(sb, d, b);
  }

  lemma IndirectRange(sb: SuperBlock, d: seq<Block>, ns: seq<Inode>, owner: Owners, i: nat)
    requires Owns(sb, d, ns, owner) && i < |ns| && ns[i].addrs[INDIRECT] != 0
    ensures sb.inodestart <= ns[i].addrs[INDIRECT] < sb.size
  {
    hide OwnersHold, MapAgrees;
    assert Slot(d, ns[i], INDIRECT) == ns[i].addrs[INDIRECT];
    OwnedRange(sb, d, ns, owner, ns[i].addrs[INDIRECT]);
  }

  /** and blocks of the inode table. */
  lemma TableRange(sb: SuperBlock, d: seq<Block>, ns: seq<Inode>, owner: Owners, i: nat)
    requires Owns(sb, d, ns, owner) && i < |ns|
    ensures sb.inodestart <= IBlock(sb, i) < sb.bmapstart <= sb.nmeta <= sb.size && |ns[i].addrs| == NDIRECT + 1
  {
    hide SlotsOwned, OwnersHold, MapAgrees;
  }

  lemma OwnsMeta(sb: SuperBlock, d: seq<Block>, ns: seq<Inode>, owner: Owners)
    requires Owns(sb, d, ns, owner)
    ensures MetaUsed(sb, d)
  {
    hide SlotsOwned, OwnersHold, WordAt, BitAt;
  }

  /** What writei's loop starts from. */
  lemma WriteOpens(sb: SuperBlock, d: seq<Block>, ns: seq<Inode>, owner: Owners, i: nat)
    requires Consistent(sb, d, ns, owner) && i < |ns|
    ensures Owns(sb, d, ns, owner) && FileOk(d, ns[i]) && Image(d, ns[i], Content(d, ns[i])) && OthersOk(d, ns, i)
    ensures |ns[i].addrs| == NDIRECT + 1 && ns[i].size <= MAXFILE * BSIZE
  {
    hide Owns, FileByte;
    ContentImage(d, ns[i]);
  }

  /** What the file is once its size has been set. */
  lemma WriteEnds(sb: SuperBlock, d: seq<Block>, ns: seq<Inode>, e: seq<Block>, ms: seq<Inode>, owner: Owners,
                  i: nat, off: nat, src: seq<Byte>, s: seq<Byte>)
    requires Owns(sb, e, ms, owner) && i < |ms| && OthersKept(d, ns, e, ms, i) && off <= |s| <= MAXFILE * BSIZE
    requires Image(e, ms[i], Spliced(s, off, src)) && ms[i].size == |s| && off + |src| <= MAXFILE * BSIZE
    ensures var size := if off + |src| > |s| then off + |src| else |s|;
            var qs := ms[i := ms[i].(size := size)];
            && Consistent(sb, e, qs, owner) && OthersKept(d, ns, e, qs, i)
            && FileOk(e, qs[i]) && Content(e, qs[i]) == Spliced(s, off, src)
            && (off + |src| <= |s| ==> qs == ms)
  {
    hide Owns, Image, OthersKept, FileOk, Content, Consistent;
    var t := Spliced(s, off, src);
    Resized(sb, e, ms, owner, i, |t|);
    ResizedContent(e, ms[i], t);
    Renamed(d, ns, e, ms, i, ms[i].(size := |t|));
    Whole(sb, d, ns, e, ms[i := ms[i].(size := |t|)], owner, i);
  }

  /** From d, ns to e, ms: src is spliced into the file at off, the other files are as they were,
      and what changed is logged, within the cost of the write. */
  ghost predicate Wrote(sb: SuperBlock, d: seq<Block>, ns: seq<Inode>, o: Owners, l: set<nat>, e: seq<Block>,
                        ms: seq<Inode>, owner: Owners, m: set<nat>, i: nat, off: nat, src: seq<Byte>) {
    && Consistent(sb, e, ms, owner) && OthersKept(d, ns, e, ms, i)
    && i < |ns| && i < |ms| && FileOk(d, ns[i]) && FileOk(e, ms[i]) && off <= ns[i].size
    && Content(e, ms[i]) == Spliced(Content(d, ns[i]), off, src)
    && |m - l| <= LogCost(off, |src|) && Logs(sb, o, l, owner, m)
    && (src != [] && HomeOf(d, ns[i], off) != 0 ==> HomeOf(d, ns[i], off) in m)
    && (ms[i].size > ns[i].size ==> IBlock(sb, i) in m)
  }

  lemma WroteAll(sb: SuperBlock, d: seq<Block>, ns: seq<Inode>, o: Owners, l: set<nat>, e: seq<Block>,
                 ms: seq<Inode>, owner: Owners, m: set<nat>, data: set<nat>, maps: set<nat>,
                 i: nat, off: nat, src: seq<Byte>)
    requires Owns(sb, e, ms, owner) && i < |ns| && i < |ms| && OthersKept(d, ns, e, ms, i) && FileOk(d, ns[i])
    requires off <= ns[i].size == ms[i].size <= MAXFILE * BSIZE && off + |src| <= MAXFILE * BSIZE
    requires Image(e, ms[i], Spliced(Content(d, ns[i]), off, src)) && Logs(sb, o, l, owner, m)
    requires src != [] && HomeOf(d, ns[i], off) != 0 ==> HomeOf(d, ns[i], off) in m
    requires m <= l + data + maps + IndirectOf(ms[i])
    requires |data| <= Touched(off, |src|) && |maps| <= Touched(off, |src|) - InsideFirst(off, |src|) + 1
    ensures |ms| == |ns| && sb.inodestart <= IBlock(sb, i) < sb.size
    ensures ns[i := ms[i].(size := off + |src|)] == ms[i := ms[i].(size := off + |src|)]
    ensures l == {} ==> |m| < LogCost(off, |src|)
    ensures if off + |src| > ms[i].size then
              Wrote(sb, d, ns, o, l, e, ms[i := ms[i].(size := off + |src|)], owner, m + {IBlock(sb, i)}, i, off, src)
            else
              Wrote(sb, d, ns, o, l, e, ms, owner, m, i, off, src)
  {
    hide Touched, InsideFirst, Owns, Image, FileOk, Content, OthersKept, Logs, Consistent, HomeOf, IBlock, Spliced;
    hide LogCost;
    OthersSame(d, ns, e, ms, i);
    TableRange(sb, e, ms, owner, i);
    CountLogged(l, m, data, maps, IndirectOf(ms[i]), IBlock(sb, i), off, |src|);
    LogsKeeps(sb, o, l, owner, m, m + {IBlock(sb, i)});
    WriteEnds(sb, d, ns, e, ms, owner, i, off, src, Content(d, ns[i]));
  }

  class Volume {
    const sb: SuperBlock
    var disk: seq<Block>
    var inodes: seq<Inode>      // in-core inodes
    var dinodes: seq<Inode>     // the inode table on disk
    ghost var owner: Owners
    ghost var logged: set<nat>  // blocks handed to log_write by the running operation
    ghost var fullest: nat      // the most of them that a log_write of the operation found there
    ghost var before: seq<Block>  // the disk when the operation began
    ghost var table: seq<Inode>   // and the inode table on it
    ghost var done: seq<Txn>    // every operation that has ended

    ghost predicate Valid()
      reads this
    {
      Consistent(sb, disk, inodes, owner) && dinodes == inodes
    }

    constructor (sb: SuperBlock, disk: seq<Block>, inodes: seq<Inode>, ghost owner: Owners)
      requires Consistent(sb, disk, inodes, owner)
      ensures Valid() && this.sb == sb && this.disk == disk && this.inodes == inodes && this.owner == owner
      ensures logged == {} && fullest == 0 && done == []
    {
      this.sb, this.disk, this.inodes, this.dinodes, this.owner := sb, disk, inodes, inodes, owner;
      logged, fullest, before, table, done := {}, 0, disk, inodes, [];
    }

    ghost predicate Modest()
      reads this`before, this`table, this`disk, this`dinodes, this`logged, this`fullest
    {
      Booked(sb, before, table, disk, dinodes, logged, fullest, {})
    }

    lemma ModestIs()
      requires Modest()
      ensures fullest <= |logged|
    {
    }

    /** log_write of block b, as far as the operation's reservation goes. */
    ghost method LogWrite(b: nat)
      modifies this`logged, this`fullest
      ensures logged == old(logged) + {b}
      ensures fullest == if |old(logged)| > old(fullest) then |old(logged)| else old(fullest)
      ensures old(Booked(sb, before, table, disk, dinodes, logged, fullest, {b})) && sb.inodestart <= b < sb.size ==>
                Modest()
    {
      BookedLogged(sb, before, table, disk, dinodes, logged, fullest, b);
      fullest := if |logged| > fullest then |logged| else fullest;
      logged := logged + {b};
    }

    /** Takes the lowest free block and zeroes it; the source panics when there is none. */
    method Balloc() returns (ok: bool, r: nat)
      requires Geometry(sb, disk)
      modifies this`disk, this`logged, this`fullest
      ensures old(Modest() && MetaUsed(sb, disk)) ==> Modest()
      ensures ok ==> r < sb.size && !InUse(sb, old(disk), r) && disk == Allocated(sb, old(disk), r)
      ensures ok ==> forall c :: 0 <= c < r ==> InUse(sb, old(disk), c)
      ensures ok ==> logged == old(logged) + {BBlock(sb, r), r}
      ensures !ok ==> disk == old(disk) && logged == old(logged) && fullest == old(fullest) && Full(sb, disk)
    {
      hide Booked;
      var b := 0;
      while b < sb.size
        invariant b % BPB == 0
        invariant disk == old(disk) && logged == old(logged) && fullest == old(fullest)
        invariant forall c :: 0 <= c < b && c < sb.size ==> InUse(sb, disk, c)
      {
        var bp := disk[BBlock(sb, b)];
        var bi := 0;
        while bi < BPB && b + bi < sb.size
          invariant 0 <= bi <= BPB
          invariant disk == old(disk) && logged == old(logged) && fullest == old(fullest)
          invariant forall c :: 0 <= c < b + bi && c < sb.size ==> InUse(sb, disk, c)
        {
          assert BBlock(sb, b + bi) == BBlock(sb, b) && (b + bi) % BPB == bi;
          if !BitAt(bp, bi) {
            FreeRange(sb, disk, b + bi);
            bp := PutBit(bp, bi, true);
            BookedStore(sb, before, table, disk, dinodes, logged, fullest, BBlock(sb, b), bp);
            disk := disk[BBlock(sb, b) := bp];
            LogWrite(BBlock(sb, b));
            Bzero(b + bi);
            return true, b + bi;
          }
          bi := bi + 1;
        }
        b := b + BPB;
      }
      return false, 0;
    }

    method Bzero(b: nat)
      requires b < |disk|
      modifies this`disk, this`logged, this`fullest
      ensures old(Modest()) && sb.inodestart <= b < sb.size ==> Modest()
      ensures disk == old(disk)[b := ZeroBlock()] && logged == old(logged) + {b}
    {
      BookedStore(sb, before, table, disk, dinodes, logged, fullest, b, ZeroBlock());
      disk := disk[b := ZeroBlock()];
      LogWrite(b);
    }

    /** Clears the block's bit; the source panics when it is already clear. */
    method Bfree(b: nat) returns (ok: bool)
      requires Geometry(sb, disk) && b < sb.size
      modifies this`disk, this`logged, this`fullest
      ensures ok == InUse(sb, old(disk), b)
      ensures ok ==> disk == SetUse(sb, old(disk), b, false) && logged == old(logged) + {BBlock(sb, b)}
      ensures !ok ==> disk == old(disk) && logged == old(logged) && fullest == old(fullest)
    {
      var bp := disk[BBlock(sb, b)];
      var bi := b % BPB;
      if !BitAt(bp, bi) {
        return false;
      }
      bp := PutBit(bp, bi, false);
      disk := disk[BBlock(sb, b) := bp];
      LogWrite(BBlock(sb, b));
      return true;
    }

    method Iupdate(i: nat)
      requires i < |inodes| == |dinodes|
      modifies this`dinodes, this`logged, this`fullest
      ensures dinodes == old(dinodes)[i := inodes[i]] && logged == old(logged) + {IBlock(sb, i)}
      ensures fullest == if |old(logged)| > old(fullest) then |old(logged)| else old(fullest)
      ensures old(Modest()) && sb.inodestart <= IBlock(sb, i) < sb.size ==> Modest()
    {
      BookedInode(sb, before, table, disk, dinodes, logged, fullest, i, inodes[i]);
      dinodes := dinodes[i := inodes[i]];
      LogWrite(IBlock(sb, i));
    }

    /** Allocates a block for direct slot k, or for the slot of the indirect block. */
    method Hang(i: nat, k: nat) returns (ok: bool, addr: Word)
      requires Owns(sb, disk, inodes, owner) && i < |inodes| && k <= INDIRECT && inodes[i].addrs[k] == 0
      modifies this`disk, this`inodes, this`owner, this`logged, this`fullest
      ensures old(Modest()) ==> Modest()
      ensures !ok ==> Full(sb, disk) && inodes == old(inodes)
      ensures Owns(sb, disk, inodes, owner)
      ensures |owner| <= |old(owner)| + 1 && Logs(sb, old(owner), old(logged), owner, logged)
      ensures !ok ==> owner == old(owner)
      ensures ok ==> Grown(old(disk), old(inodes), disk, inodes)
      ensures ok ==> addr != 0 && inodes == old(inodes)[i := SetAddr(old(inodes)[i], k, addr)]
      ensures ok ==> logged == old(logged) + {addr, BBlock(sb, addr)}
    {
      hide Logs, SlotsOwned, OwnersHold, MapAgrees, MapBelowData, TableBelowMap, Grown, Full, Slot, BitAt, Allocated;
      hide Modest, MetaUsed;
      OwnsMeta(sb, disk, inodes, owner);
      var b;
      ok, b := Balloc();
      addr := 0;
      LogsNothing(sb, owner, logged);
      if ok {
        addr := b;
        HangDirect(sb, old(disk), inodes, owner, i, k, addr);
        LogsOne(sb, old(disk), inodes, owner, old(logged), b, (i, k), logged);
        inodes := inodes[i := SetAddr(inodes[i], k, addr)];
        owner := owner[addr := (i, k)];
      }
    }

    /** Entry x of a mapped indirect block, allocated if need be: the second half of bmap. */
    method BmapEntry(i: nat, x: nat) returns (ok: bool, addr: Word)
      requires Owns(sb, disk, inodes, owner) && i < |inodes| && x < NINDIRECT && inodes[i].addrs[INDIRECT] != 0
      modifies this`disk, this`owner, this`logged, this`fullest
      ensures old(Modest()) ==> Modest()
      ensures !ok ==> Full(sb, disk)
      ensures Owns(sb, disk, inodes, owner)
      ensures |owner| <= |old(owner)| + 1 && Logs(sb, old(owner), old(logged), owner, logged)
      ensures ok ==> Grown(old(disk), inodes, disk, inodes)
      ensures ok ==> addr != 0 && addr == Slot(disk, inodes[i], x + INDIRECT + 1)
      ensures Slot(old(disk), inodes[i], x + INDIRECT + 1) != 0 ==>
                ok && disk == old(disk) && owner == old(owner) && logged == old(logged) && fullest == old(fullest)
      ensures ok ==> logged <= old(logged) + {addr, BBlock(sb, addr), inodes[i].addrs[INDIRECT]}
    {
      hide SlotsOwned, OwnersHold, MapAgrees, Logs, Booked, Full, BitAt, MetaUsed;
      OwnsMeta(sb, disk, inodes, owner);
      LogsNothing(sb, owner, logged);
      var ind := inodes[i].addrs[INDIRECT];
      assert Slot(disk, inodes[i], INDIRECT) == ind;
      SlotInRange(sb, disk, inodes, owner, i, INDIRECT);
      addr := WordAt(disk[ind], x);
      if addr == 0 {
        var b;
        ok, b := Balloc();
        if !ok { return; }
        addr := b;
        HangIndirect(sb, old(disk), inodes, owner, i, x + INDIRECT + 1, addr);
        IndirectRange(sb, old(disk), inodes, old(owner), i);
        BookedStore(sb, before, table, disk, dinodes, logged, fullest, ind, PutWord(disk[ind], x, addr));
        disk := disk[ind := PutWord(disk[ind], x, addr)];
        assert disk == HungIndirect(sb, old(disk), inodes[i], x + INDIRECT + 1, addr);
        LogsOne(sb, old(disk), inodes, owner, old(logged), b, (i, x + INDIRECT + 1), logged + {ind});
        LogWrite(ind);
        owner := owner[addr := (i, x + INDIRECT + 1)];
      }
      return true, addr;
    }

    /** bmap below the indirect block. */
    method BmapDirect(i: nat, bn: nat) returns (ok: bool, addr: Word)
      requires Owns(sb, disk, inodes, owner) && i < |inodes| && bn < NDIRECT
      modifies this`disk, this`inodes, this`owner, this`logged, this`fullest
      ensures old(Modest()) ==> Modest()
      ensures !ok ==> Full(sb, disk) && inodes == old(inodes)
      ensures Owns(sb, disk, inodes, owner)
      ensures |owner| <= |old(owner)| + 1 && Logs(sb, old(owner), old(logged), owner, logged)
      ensures ok ==> Grown(old(disk), old(inodes), disk, inodes)
      ensures ok ==> addr != 0 && inodes == old(inodes)[i := SetAddr(old(inodes)[i], bn, addr)]
      ensures old(inodes)[i].addrs[bn] != 0 ==>
                ok && disk == old(disk) && inodes == old(inodes) && owner == old(owner) && logged == old(logged)
                  && fullest == old(fullest)
      ensures ok ==> logged <= old(logged) + {addr, BBlock(sb, addr)}
    {
      hide Logs;
      LogsNothing(sb, owner, logged);
      addr := inodes[i].addrs[bn];
      if addr == 0 {
        ok, addr := Hang(i, bn);
      } else {
        ok := true;
        assert SetAddr(inodes[i], bn, addr) == inodes[i];
      }
    }

    /** The indirect block, allocated if need be. */
    method LoadIndirect(i: nat) returns (ok: bool, ghost maps: set<nat>)
      requires Owns(sb, disk, inodes, owner) && i < |inodes|
      modifies this`disk, this`inodes, this`owner, this`logged, this`fullest
      ensures old(Modest()) ==> Modest()
      ensures !ok ==> Full(sb, disk) && inodes == old(inodes)
      ensures Owns(sb, disk, inodes, owner) && Logs(sb, old(owner), old(logged), owner, logged)
      ensures |owner| <= |old(owner)| + Lacks(old(inodes)[i]) && (!ok ==> owner == old(owner))
      ensures ok ==> Grown(old(disk), old(inodes), disk, inodes)
      ensures ok ==> inodes[i].addrs[INDIRECT] != 0
      ensures ok ==> inodes == old(inodes)[i := SetAddr(old(inodes)[i], INDIRECT, inodes[i].addrs[INDIRECT])]
      ensures old(inodes)[i].addrs[INDIRECT] != 0 ==>
                ok && disk == old(disk) && inodes == old(inodes) && owner == old(owner) && logged == old(logged)
                  && fullest == old(fullest) && maps == {}
      ensures ok ==> |maps| <= 1 && logged <= old(logged) + {inodes[i].addrs[INDIRECT]} + maps
    {
      hide Logs, SlotsOwned, OwnersHold, MapAgrees, MapBelowData, Full, Modest, BitAt;
      LogsNothing(sb, owner, logged);
      maps := {};
      ok := true;
      if inodes[i].addrs[INDIRECT] == 0 {
        var addr;
        ok, addr := Hang(i, INDIRECT);
        if ok {
          maps := {BBlock(sb, addr)};
        }
      } else {
        assert SetAddr(inodes[i], INDIRECT, inodes[i].addrs[INDIRECT]) == inodes[i];
      }
    }

    /** bmap above it. */
    method BmapIndirect(i: nat, x: nat) returns (ok: bool, addr: Word, ghost maps: set<nat>)
      requires Owns(sb, disk, inodes, owner) && i < |inodes| && x < NINDIRECT
      modifies this`disk, this`inodes, this`owner, this`logged, this`fullest
      ensures old(Modest()) ==> Modest()
      ensures !ok ==> Full(sb, disk)
      ensures Owns(sb, disk, inodes, owner) && Logs(sb, old(owner), old(logged), owner, logged)
      ensures |owner| <= |old(owner)| + 1 + Lacks(old(inodes)[i]) - Lacks(inodes[i])
      ensures ok ==> Grown(old(disk), old(inodes), disk, inodes)
      ensures ok ==> addr != 0 && addr == Slot(disk, inodes[i], x + INDIRECT + 1)
      ensures ok ==> inodes == old(inodes)[i := inodes[i]]
      ensures Slot(old(disk), old(inodes)[i], x + INDIRECT + 1) != 0 ==>
                ok && disk == old(disk) && inodes == old(inodes) && owner == old(owner) && logged == old(logged)
                  && fullest == old(fullest)
      ensures ok ==> logged <= old(logged) + maps + {addr} + IndirectOf(inodes[i])
      ensures ok ==> |maps| <= (if Slot(old(disk), old(inodes)[i], x + INDIRECT + 1) == 0 then 1 else 0)
                             + Lacks(old(inodes)[i]) - Lacks(inodes[i])
    {
      hide WordAt, MapBelowData, SlotsOwned, OwnersHold, MapAgrees, Grown, Full, Logs;
      addr := 0;
      ok, maps := LoadIndirect(i);
      if !ok { return; }
      ghost var d, ns, o, l := disk, inodes, owner, logged;
      ok, addr := BmapEntry(i, x);
      LogsTwice(sb, old(owner), old(logged), o, l, owner, logged);
      if ok {
        GrownTransitive(old(disk), old(inodes), d, ns, disk, inodes);
        if Slot(old(disk), old(inodes)[i], x + INDIRECT + 1) == 0 {
          maps := maps + {BBlock(sb, addr)};
        }
      }
    }

    /** The address of file block bn, allocated on the way if it is not mapped.
        Panics (ok is false) past the last block or when the disk is full.
        maps holds the free-map blocks logged. */
    method Bmap(i: nat, bn: nat) returns (ok: bool, addr: Word, ghost maps: set<nat>)
      requires Owns(sb, disk, inodes, owner) && i < |inodes|
      modifies this`disk, this`inodes, this`owner, this`logged, this`fullest
      ensures old(Modest()) ==> Modest()
      ensures !ok ==> bn >= MAXFILE || Full(sb, disk)
      ensures Owns(sb, disk, inodes, owner) && Logs(sb, old(owner), old(logged), owner, logged)
      ensures |owner| <= |old(owner)| + 1 + Lacks(old(inodes)[i]) - Lacks(inodes[i])
      ensures ok ==> bn < MAXFILE && Grown(old(disk), old(inodes), disk, inodes)
      ensures ok ==> 0 < addr < |disk| && addr == Slot(disk, inodes[i], DataSlot(bn))
      ensures ok ==> inodes == old(inodes)[i := inodes[i]]
      ensures bn < MAXFILE && Slot(old(disk), old(inodes)[i], DataSlot(bn)) != 0 ==>
                ok && disk == old(disk) && inodes == old(inodes) && owner == old(owner) && logged == old(logged)
                  && fullest == old(fullest)
      // what the operation logs
      ensures ok ==> logged <= old(logged) + maps + {addr} + IndirectOf(inodes[i])
      ensures ok ==> |maps| <= (if Slot(old(disk), old(inodes)[i], DataSlot(bn)) == 0 then 1 else 0)
                             + Lacks(old(inodes)[i]) - Lacks(inodes[i])
    {
      hide WordAt, MapBelowData, SlotsOwned, OwnersHold, MapAgrees, Grown, Full, Logs;
      LogsNothing(sb, owner, logged);
      maps := {};
      if bn < NDIRECT {
        ok, addr := BmapDirect(i, bn);
        if ok {
          SlotInRange(sb, disk, inodes, owner, i, bn);
          maps := if old(inodes)[i].addrs[bn] == 0 then {BBlock(sb, addr)} else {};
        }
        return ok, addr, maps;
      }
      if bn - NDIRECT < NINDIRECT {
        ok, addr, maps := BmapIndirect(i, bn - NDIRECT);
        if ok {
          SlotInRange(sb, disk, inodes, owner, i, DataSlot(bn));
        }
        return ok, addr, maps;
      }
      return false, 0, maps;
    }

    /** One turn of writei's loop: the bytes w go into the block that holds offset off. */
    method WriteBlock(i: nat, off: nat, w: seq<Byte>, ghost s: seq<Byte>)
      returns (ok: bool, ghost addr: Word, ghost maps: set<nat>)
      requires Owns(sb, disk, inodes, owner) && i < |inodes| && Image(disk, inodes[i], s)
      requires OthersOk(disk, inodes, i)
      requires off <= |s| && Inner(off) + |w| <= BSIZE && 0 < |w| && off + |w| <= MAXFILE * BSIZE
      modifies this`disk, this`inodes, this`owner, this`logged, this`fullest
      ensures old(Modest()) ==> Modest()
      ensures !ok ==> Full(sb, disk)
      ensures Owns(sb, disk, inodes, owner) && Logs(sb, old(owner), old(logged), owner, logged)
      ensures |owner| <= |old(owner)| + 1 + Lacks(old(inodes)[i]) - Lacks(inodes[i])
      ensures ok && HomeOf(old(disk), old(inodes)[i], off) != 0 ==>
                HomeOf(old(disk), old(inodes)[i], off) in logged
      ensures ok ==> OthersKept(old(disk), old(inodes), disk, inodes, i)
      ensures ok ==> inodes[i].size == old(inodes)[i].size && Image(disk, inodes[i], Spliced(s, off, w))
      ensures ok ==> IndirectOf(old(inodes)[i]) <= IndirectOf(inodes[i])
      ensures ok && HomeOf(old(disk), old(inodes)[i], off) != 0 ==> inodes == old(inodes)
      ensures ok ==> logged <= old(logged) + maps + {addr} + IndirectOf(inodes[i])
      ensures ok ==> |maps| <= (if HomeOf(old(disk), old(inodes)[i], off) == 0 then 1 else 0)
                             + Lacks(old(inodes)[i]) - Lacks(inodes[i])
    {
      hide Owns, Slot, Grown, Full, Image, Logs, HomeOf, BlockOf, Inner, DataSlot, OthersOk, OthersKept, Spliced;
      hide Booked;
      ImageFits(disk, inodes[i], s);
      HomeIs(disk, inodes[i], off);
      var a;
      ok, a, maps := Bmap(i, BlockOf(off));
      addr := a;
      if !ok { return; }
      GrownImage(old(disk), old(inodes), disk, inodes, i, s);
      GrownInode(old(disk), old(inodes), disk, inodes, i);
      HomeIs(disk, inodes[i], off);
      HomeOwned(sb, disk, inodes, owner, i, off);
      StoreImage(sb, disk, inodes, owner, i, off, w, s);
      var blk := PutBytes(disk[a], Inner(off), w);
      StoreKeepsOwns(sb, disk, inodes, owner, a, blk);
      OthersStored(sb, old(disk), old(inodes), disk, inodes, owner, i, a, blk);
      LogsKeeps(sb, old(owner), old(logged), owner, logged, logged + {a});
      OwnedRange(sb, disk, inodes, owner, a);
      BookedStore(sb, before, table, disk, dinodes, logged, fullest, a, blk);
      disk := disk[a := blk];
      LogWrite(a);
    }

    /** Reads up to n bytes from off on. Never allocates, never logs. */
    method Readi(i: nat, off: Word, n: Word) returns (r: int, dst: seq<Byte>)
      requires Valid() && i < |inodes|
      modifies this`disk, this`inodes, this`owner, this`logged, this`fullest
      ensures disk == old(disk) && inodes == old(inodes) && owner == old(owner) && logged == old(logged)
      ensures fullest == old(fullest)
      ensures off > inodes[i].size || off + n >= UINT_LIMIT <==> r == -1
      ensures r != -1 ==> r == |dst| && FileOk(disk, inodes[i])
      ensures r != -1 ==>
                dst == Content(disk, inodes[i])[off..if off + n > inodes[i].size then inodes[i].size else off + n]
    {
      hide AddWord, FileByte, Image, Owns, MappedTo;
      dst := [];
      if off > inodes[i].size || AddWord(off, n) < off {
        return -1, dst;
      }
      var len := if off + n > inodes[i].size then inodes[i].size - off else n;
      ghost var s := Content(disk, inodes[i]);
      ContentImage(disk, inodes[i]);
      dst := ReadRun(i, off, len, s);
      return len, dst;
    }

    /** The loop of readi. */
    method ReadRun(i: nat, off: nat, len: nat, ghost s: seq<Byte>) returns (dst: seq<Byte>)
      requires Owns(sb, disk, inodes, owner) && i < |inodes| && Image(disk, inodes[i], s) && off + len <= |s|
      modifies this`disk, this`inodes, this`owner, this`logged, this`fullest
      ensures disk == old(disk) && inodes == old(inodes) && owner == old(owner) && logged == old(logged)
      ensures fullest == old(fullest)
      ensures dst == s[off..off + len]
    {
      hide Owns, Image, RunLength, Inner;
      dst := [];
      var tot := 0;
      while tot < len
        invariant 0 <= tot <= len && dst == s[off..off + tot]
        invariant disk == old(disk) && inodes == old(inodes) && owner == old(owner) && logged == old(logged)
        invariant fullest == old(fullest)
      {
        var m := RunLength(off + tot, len - tot);
        RunFits(off + tot, len - tot);
        var w := ReadBlock(i, off + tot, m, s);
        SliceMore(s, off, off + tot, off + tot + m);
        dst := dst + w;
        tot := tot + m;
      }
    }

    /** One turn of it: m bytes out of one block. */
    method ReadBlock(i: nat, off: nat, m: nat, ghost s: seq<Byte>) returns (w: seq<Byte>)
      requires Owns(sb, disk, inodes, owner) && i < |inodes| && Image(disk, inodes[i], s) && off + m <= |s|
      requires 0 < m && Inner(off) + m <= BSIZE
      modifies this`disk, this`inodes, this`owner, this`logged, this`fullest
      ensures disk == old(disk) && inodes == old(inodes) && owner == old(owner) && logged == old(logged)
      ensures fullest == old(fullest)
      ensures w == s[off..off + m]
    {
      hide Slot, Owns, Grown, Full, Image, Logs, HomeOf, DataSlot, Lacks, IndirectOf, BlockOf, Inner;
      ImageFits(disk, inodes[i], s);
      FirstMapped(disk, inodes[i], s, off);
      HomeIs(disk, inodes[i], off);
      var ok, a, _ := Bmap(i, BlockOf(off));
      assert ok;
      ImageRun(disk, inodes[i], s, off, m);
      w := disk[a][Inner(off)..Inner(off) + m];
    }

    /** The loop of writei: src goes over the file at off, block by block. data and
        maps are the data blocks and the free-map blocks it logs. */
    method WriteRun(i: nat, src: seq<Byte>, off: nat, ghost s: seq<Byte>)
      returns (ok: bool, ghost data: set<nat>, ghost maps: set<nat>)
      requires Owns(sb, disk, inodes, owner) && i < |inodes| && Image(disk, inodes[i], s)
      requires OthersOk(disk, inodes, i)
      requires off <= |s| && off + |src| <= MAXFILE * BSIZE
      modifies this`disk, this`inodes, this`owner, this`logged, this`fullest
      ensures old(Modest()) ==> Modest()
      ensures !ok ==> Full(sb, disk)
      ensures Owns(sb, disk, inodes, owner) && Logs(sb, old(owner), old(logged), owner, logged)
      ensures |owner| <= |old(owner)| + Touched(off, |src|) + 1
      ensures ok && src != [] && HomeOf(old(disk), old(inodes)[i], off) != 0 ==>
                HomeOf(old(disk), old(inodes)[i], off) in logged
      ensures ok ==> OthersKept(old(disk), old(inodes), disk, inodes, i)
      ensures ok ==> inodes[i].size == old(inodes)[i].size && Image(disk, inodes[i], Spliced(s, off, src))
      ensures ok && off + |src| <= |s| ==> inodes == old(inodes)
      ensures ok ==> logged <= old(logged) + data + maps + IndirectOf(inodes[i])
      ensures ok ==> |data| <= Touched(off, |src|) && |maps| <= Touched(off, |src|) - InsideFirst(off, |src|) + 1
    {
      hide RunLength, Touched, InsideFirst, Owns, Full, Image, OthersKept, Spliced, Logs, HomeOf, Account, Progress;
      hide Boundary, Inner;
      ghost var d, ns, o, l := disk, inodes, owner, logged;
      data, maps := {}, {};
      ok := true;
      var tot := 0;
      ghost var mapped := 0;
      ProgressOpens(sb, d, ns, o, l, i, src, off, s);
      while tot < |src|
        invariant 0 <= tot <= |src| && (tot == 0 || tot == |src| || Boundary(off + tot))
        invariant Progress(sb, d, ns, o, l, disk, inodes, owner, logged, i, src, off, s, tot, data, maps, mapped)
        invariant old(Modest()) ==> Modest()
      {
        var next := tot + RunLength(off + tot, |src| - tot);
        TouchedStep(off, tot, next, |src|);
        ok, data, maps, mapped := WriteNext(i, src, off, tot, next, s, d, ns, o, l, data, maps, mapped);
        if !ok { return; }
        tot := next;
      }
      ProgressEnds(sb, d, ns, o, l, disk, inodes, owner, logged, i, src, off, s, data, maps, mapped);
    }

    /** The loop's next turn, with all it has done so far. */
    method WriteNext(i: nat, src: seq<Byte>, off: nat, tot: nat, next: nat, ghost s: seq<Byte>,
                     ghost d: seq<Block>, ghost ns: seq<Inode>, ghost o: Owners, ghost l: set<nat>,
                     ghost before: set<nat>, ghost mapsBefore: set<nat>, ghost f: nat)
      returns (ok: bool, ghost data: set<nat>, ghost maps: set<nat>, ghost mapped: nat)
      requires Progress(sb, d, ns, o, l, disk, inodes, owner, logged, i, src, off, s, tot, before, mapsBefore, f)
      requires tot < next <= |src| && off + |src| <= MAXFILE * BSIZE && Inner(off + tot) + (next - tot) <= BSIZE
      requires (tot == 0 || Boundary(off + tot)) && Touched(off, next) == Touched(off, tot) + 1
      requires InsideFirst(off, next) <= InsideFirst(off, tot) + (if Boundary(off + tot) then 0 else 1)
      modifies this`disk, this`inodes, this`owner, this`logged, this`fullest
      ensures old(Modest()) ==> Modest()
      ensures !ok ==> Full(sb, disk)
      ensures Owns(sb, disk, inodes, owner) && Logs(sb, o, l, owner, logged) && |owner| <= |o| + Touched(off, next) + 1
      ensures ok ==> Progress(sb, d, ns, o, l, disk, inodes, owner, logged, i, src, off, s, next, data, maps, mapped)
    {
      hide Touched, InsideFirst, Slot, Owns, Full, Image, OthersKept, OthersOk, Spliced, Logs, HomeOf, Account;
      hide Boundary, Inner, IndirectOf, Lacks;
      ghost var d1, ns1, image := disk, inodes, Spliced(s, off, src[..tot]);
      OthersFine(d, ns, d1, ns1, i);
      SplicedStep(s, off, src, tot, next);
      if off + tot < |s| || !Boundary(off + tot) {
        FirstMapped(d1, ns1[i], image, off + tot);
      }
      ok, data, maps, mapped := WriteTurn(i, off + tot, src[tot..next], image, o, l, ns[i], before, mapsBefore,
                                          Touched(off, tot), f);
      if ok {
        OthersKeptTransitive(d, ns, d1, ns1, disk, inodes, i);
      }
    }

    /** One turn, with what the loop has logged since o and l. */
    method WriteTurn(i: nat, off: nat, w: seq<Byte>, ghost s: seq<Byte>, ghost o: Owners, ghost l: set<nat>,
                     ghost n: Inode, ghost before: set<nat>, ghost mapsBefore: set<nat>, ghost t: nat, ghost f: nat)
      returns (ok: bool, ghost data: set<nat>, ghost maps: set<nat>, ghost mapped: nat)
      requires Owns(sb, disk, inodes, owner) && i < |inodes| && Image(disk, inodes[i], s)
      requires OthersOk(disk, inodes, i)
      requires off <= |s| && Inner(off) + |w| <= BSIZE && 0 < |w| && off + |w| <= MAXFILE * BSIZE
      requires Logs(sb, o, l, owner, logged) && Account(o, l, n, owner, logged, inodes[i], before, mapsBefore, t, f)
      modifies this`disk, this`inodes, this`owner, this`logged, this`fullest
      ensures old(Modest()) ==> Modest()
      ensures !ok ==> Full(sb, disk)
      ensures Owns(sb, disk, inodes, owner) && Logs(sb, o, l, owner, logged)
      ensures |owner| <= |o| + t + 2 && old(logged) <= logged
      ensures ok && HomeOf(old(disk), old(inodes)[i], off) != 0 ==>
                HomeOf(old(disk), old(inodes)[i], off) in logged && inodes == old(inodes)
      ensures ok ==> OthersKept(old(disk), old(inodes), disk, inodes, i)
      ensures ok ==> inodes[i].size == old(inodes)[i].size && Image(disk, inodes[i], Spliced(s, off, w))
      ensures ok ==> Account(o, l, n, owner, logged, inodes[i], data, maps, t + 1, mapped)
      ensures mapped == if HomeOf(old(disk), old(inodes)[i], off) != 0 then f + 1 else f
    {
      hide Slot, MapBelowData, SlotsOwned, OwnersHold, MapAgrees, Grown, Full, FileByte, Image, Content, FileOk;
      hide OthersKept, OthersOk, Spliced, Logs, HomeOf, Account, IndirectOf, Lacks, BlockOf, Inner, Geometry, InUse;
      ghost var o1, l1, n1, home := owner, logged, inodes[i], HomeOf(disk, inodes[i], off);
      ghost var addr, more;
      mapped := if home != 0 then f + 1 else f;
      data, maps := before, mapsBefore;
      ok, addr, more := WriteBlock(i, off, w, s);
      LogsTwice(sb, o, l, o1, l1, owner, logged);
      LogsGrow(sb, o1, l1, owner, logged);
      AccountEnd(o, l, n, o1, l1, n1, owner, inodes[i], before, mapsBefore, t, f);
      if ok {
        AccountStep(o, l, n, o1, l1, n1, owner, logged, inodes[i], before, mapsBefore, addr, more,
                    if home == 0 then 1 else 0, t, f, mapped);
        data, maps := before + {addr}, mapsBefore + more;
      }
    }

    /** Writes src over the file at off. ok is false when the source panics, the disk being full. */
    method Writei(i: nat, src: seq<Byte>, off: Word) returns (ok: bool, r: int)
      requires Valid() && i < |inodes| && |src| < UINT_LIMIT
      modifies this`disk, this`inodes, this`dinodes, this`owner, this`logged, this`fullest
      ensures !ok ==> sb.size - sb.nmeta <= |old(owner)| + Touched(off, |src|) + 1 && Full(sb, disk)
      ensures ok && old(Modest()) ==> Modest()
      ensures ok ==> Valid()
      ensures ok ==> (r == -1 <==> off > old(inodes)[i].size || off + |src| > MAXFILE * BSIZE)
      ensures ok && r == -1 ==>
                && disk == old(disk)
                && inodes == old(inodes)
                && owner == old(owner)
                && logged == old(logged)
                && fullest == old(fullest)
      ensures ok && r != -1 ==> r == |src| && OthersKept(old(disk), old(inodes), disk, inodes, i)
      ensures ok && r != -1 ==> old(FileOk(disk, inodes[i])) && FileOk(disk, inodes[i])
                                && Content(disk, inodes[i]) == Spliced(old(Content(disk, inodes[i])), off, src)
      ensures ok && r != -1 ==> |logged - old(logged)| <= LogCost(off, |src|)
      ensures ok && r != -1 && old(Modest()) && old(logged) == {} ==> fullest < LogCost(off, |src|)
      ensures ok && r != -1 ==> Logs(sb, old(owner), old(logged), owner, logged)
      ensures ok && r != -1 && src != [] && HomeOf(old(disk), old(inodes)[i], off) != 0 ==>
                HomeOf(old(disk), old(inodes)[i], off) in logged
      ensures ok && r != -1 && inodes[i].size > old(inodes)[i].size ==> IBlock(sb, i) in logged
    {
      hide Touched, InsideFirst, Full, Content, OthersKept, Logs, Modest, HomeOf, IBlock, Spliced, LogCost;
      if off > inodes[i].size || AddWord(off, |src|) < off {
        return true, -1;
      }
      if off + |src| > MAXFILE * BSIZE {
        return true, -1;
      }
      ok := WriteWithin(i, src, off);
      return ok, |src|;
    }

    /** writei past its checks. */
    method WriteWithin(i: nat, src: seq<Byte>, off: nat) returns (ok: bool)
      requires Valid() && i < |inodes| && off <= inodes[i].size && off + |src| <= MAXFILE * BSIZE
      modifies this`disk, this`inodes, this`dinodes, this`owner, this`logged, this`fullest
      ensures !ok ==> sb.size - sb.nmeta <= |old(owner)| + Touched(off, |src|) + 1 && Full(sb, disk)
      ensures ok && old(Modest()) ==> Modest()
      ensures ok ==> dinodes == inodes
      ensures ok ==>
                Wrote(sb, old(disk), old(inodes), old(owner), old(logged), disk, inodes, owner, logged, i, off, src)
      ensures ok && old(Modest()) && old(logged) == {} ==> fullest < LogCost(off, |src|)
    {
      hide Touched, InsideFirst, Owns, Full, Image, FileOk, Content, OthersOk, OthersKept, Logs, Booked;
      hide Consistent, HomeOf, IBlock, Spliced, LogCost, Wrote;
      WriteOpens(sb, disk, inodes, owner, i);
      ghost var s := Content(disk, inodes[i]);
      ghost var data, maps;
      ok, data, maps := WriteRun(i, src, off, s);
      if !ok {
        FullOwners(sb, disk, inodes, owner);
        return;
      }
      OthersSameLength(old(disk), old(inodes), disk, inodes, i, |src|);
      WroteAll(sb, old(disk), old(inodes), old(owner), old(logged), disk, inodes, owner, logged, data, maps,
               i, off, src);
      if old(Modest()) {
        ModestIs();
      }
      if |src| > 0 && off + |src| > inodes[i].size {
        inodes := inodes[i := inodes[i].(size := off + |src|)];
        Iupdate(i);
      }
    }

    /** Frees every block of the inode and no other; no bit is found clear on the way. */
    method Itrunc(i: nat) returns (ok: bool)
      requires Valid() && i < |inodes|
      modifies this`disk, this`inodes, this`dinodes, this`owner, this`logged, this`fullest
      ensures ok && Valid()
      ensures inodes == old(inodes)[i := Emptied()] && owner == Without(old(owner), i)
      ensures OthersKept(old(disk), old(inodes), disk, inodes, i)
      ensures forall c :: 0 <= c < sb.size ==>
                (InUse(sb, disk, c) <==> InUse(sb, old(disk), c) && !(c in old(owner) && old(owner)[c].0 == i))
    {
      hide Slot, MapBelowData, SlotsOwned, OwnersHold, MapAgrees, FreedTo, Full, OthersKept, Content, MappedTo;
      ghost var d, ns := disk, inodes;
      FreeDirect(i);
      if inodes[i].addrs[INDIRECT] != 0 {
        FreeEntries(i, d, ns);
        assert Slot(d, ns[i], INDIRECT) == ns[i].addrs[INDIRECT] by { SlotIndirect(d, ns[i]); }
        FreeNext(sb, d, disk, ns, owner, i, INDIRECT);
        ok := Bfree(inodes[i].addrs[INDIRECT]);
        assert ok;
        inodes := inodes[i := SetAddr(inodes[i], INDIRECT, 0)];
      } else {
        NoIndirect(sb, d, disk, ns, owner, i);
      }
      inodes := inodes[i := inodes[i].(size := 0)];
      Iupdate(i);
      assert inodes[i].addrs == Emptied().addrs;
      assert inodes == ns[i := Emptied()];
      FreedAll(sb, d, disk, ns, owner, i);
      Truncated(sb, d, disk, ns, owner, i);
      TruncatedOthers(sb, d, disk, ns, owner, i);
      owner := Without(owner, i);
      Whole(sb, d, ns, disk, inodes, owner, i);
      return true;
    }

    /** itrunc's walk over the direct blocks. */
    method FreeDirect(i: nat)
      requires Owns(sb, disk, inodes, owner) && i < |inodes|
      modifies this`disk, this`inodes, this`logged, this`fullest
      ensures FreedTo(sb, old(disk), disk, owner, i, NDIRECT)
      ensures |inodes| == |old(inodes)| && inodes == old(inodes)[i := inodes[i]]
      ensures inodes[i].addrs == seq(NDIRECT, _ => 0) + [old(inodes)[i].addrs[INDIRECT]]
    {
      hide MapBelowData, SlotsOwned, OwnersHold, MapAgrees;
      ghost var d, ns := disk, inodes;
      var k := 0;
      while k < NDIRECT
        invariant 0 <= k <= NDIRECT
        invariant FreedTo(sb, d, disk, owner, i, k)
        invariant |inodes| == |ns| && inodes == ns[i := inodes[i]] && |inodes[i].addrs| == NDIRECT + 1
        invariant forall l :: 0 <= l <= NDIRECT ==> inodes[i].addrs[l] == if l < k then 0 else ns[i].addrs[l]
      {
        FreeNext(sb, d, disk, ns, owner, i, k);
        if inodes[i].addrs[k] != 0 {
          var ok := Bfree(inodes[i].addrs[k]);
          assert ok;
          inodes := inodes[i := SetAddr(inodes[i], k, 0)];
        }
        k := k + 1;
      }
    }

    /** itrunc's walk over the indirect block. */
    method FreeEntries(i: nat, ghost d: seq<Block>, ghost ns: seq<Inode>)
      requires Owns(sb, d, ns, owner) && i < |ns| && |ns| == |inodes| && FreedTo(sb, d, disk, owner, i, NDIRECT)
      requires |inodes[i].addrs| == NDIRECT + 1 && inodes[i].addrs[INDIRECT] == ns[i].addrs[INDIRECT] != 0
      modifies this`disk, this`logged, this`fullest
      ensures FreedTo(sb, d, disk, owner, i, ALL - 1)
    {
      hide Slot, WordAt, MapBelowData, SlotsOwned, OwnersHold, MapAgrees, FreedTo;
      IndirectKept(sb, d, disk, ns, owner, i);
      var bp := disk[inodes[i].addrs[INDIRECT]];
      var j := 0;
      while j < NINDIRECT
        invariant 0 <= j <= NINDIRECT
        invariant FreedTo(sb, d, disk, owner, i, NDIRECT + j)
      {
        FreeNext(sb, d, disk, ns, owner, i, j + INDIRECT + 1);
        SlotEntry(d, ns[i], j);
        if WordAt(bp, j) != 0 {
          var ok := Bfree(WordAt(bp, j));
          assert ok;
        }
        j := j + 1;
      }
    }
  }

  class File {
    const ip: nat
    const writable: bool
    var off: Word
  }

  /** Chunks of MAXCHUNK bytes keep every transaction within the log's reservation. */
  lemma ChunkFits(off: nat, n: nat)
    requires n <= MAXCHUNK
    ensures LogCost(off, n) <= MAXOPBLOCKS
  {
  }

  /** The operation logged at most MAXOPBLOCKS blocks, and called log_write with room left. */
  ghost predicate WithinReservation(blocks: set<nat>, fullest: nat) {
    |blocks| <= MAXOPBLOCKS && fullest < MAXOPBLOCKS
  }

  /** writei takes n bytes at off. */
  predicate Accepts(size: nat, off: nat, n: nat) { off <= size && off + n <= MAXFILE * BSIZE }

  /** One transaction of filewrite. */
  method WriteChunk(v: Volume, f: File, w: seq<Byte>) returns (ok: bool, r: int)
    requires v.Valid() && f.ip < |v.inodes| && |w| <= MAXCHUNK
    modifies v, f`off
    ensures !ok ==> Full(v.sb, v.disk) && f.off == old(f.off) && v.done == old(v.done)
    ensures ok ==>
              && v.Valid()
              && |v.inodes| == |old(v.inodes)|
              && v.done == old(v.done) + [Txn(v.logged, v.fullest, v.disk, v.inodes, v.owner)]
              && WithinReservation(v.logged, v.fullest)
    ensures ok ==> Booked(v.sb, old(v.disk), old(v.inodes), v.disk, v.inodes, v.logged, v.fullest, {})
    ensures ok ==> (r == -1 <==> !old(Accepts(v.inodes[f.ip].size, f.off, |w|))) && (r == -1 || r == |w|)
    ensures ok && r == -1 ==> v.disk == old(v.disk) && v.inodes == old(v.inodes) && f.off == old(f.off)
    ensures ok && r == |w| ==>
              && f.off == old(f.off) + |w|
              && OthersKept(old(v.disk), old(v.inodes), v.disk, v.inodes, f.ip)
              && old(FileOk(v.disk, v.inodes[f.ip])) && FileOk(v.disk, v.inodes[f.ip])
              && Content(v.disk, v.inodes[f.ip]) == Spliced(old(Content(v.disk, v.inodes[f.ip])), old(f.off), w)
  {
    hide Slot, MappedTo, FileByte, Full, OthersKept, LogCost, Spliced, Logs, Owns, Touched, HomeOf, Booked;
    v.logged, v.fullest, v.before, v.table := {}, 0, v.disk, v.dinodes;
    BookedNothing(v.sb, v.disk, v.dinodes);
    ok, r := v.Writei(f.ip, w, f.off);
    if !ok { return false, 0; }
    v.done := v.done + [Txn(v.logged, v.fullest, v.disk, v.inodes, v.owner)];
    ChunkFits(f.off, |w|);
    assert v.logged - {} == v.logged;
    OthersSameLength(old(v.disk), old(v.inodes), v.disk, v.inodes, f.ip, r);
    if r > 0 {
      f.off := f.off + r;
    }
  }

  lemma OthersSameLength(d: seq<Block>, ns: seq<Inode>, e: seq<Block>, ms: seq<Inode>, i: nat, r: int)
    requires if r == -1 then ms == ns else OthersKept(d, ns, e, ms, i)
    ensures |ms| == |ns|
  {
  }

  /** How much of addr the transaction that starts at i writes. */
  function ChunkAt(addr: seq<Byte>, i: nat): nat
    requires i <= |addr|
  {
    if |addr| - i > MAXCHUNK then MAXCHUNK else |addr| - i
  }

  predicate WholeChunks(i: nat) { i % MAXCHUNK == 0 }

  lemma NoChunk()
    ensures WholeChunks(0)
  {
  }

  lemma NextChunk(addr: seq<Byte>, i: nat)
    requires i < |addr| && WholeChunks(i)
    ensures 0 < ChunkAt(addr, i) <= MAXCHUNK && i + ChunkAt(addr, i) <= |addr|
    ensures i + ChunkAt(addr, i) == |addr| || WholeChunks(i + ChunkAt(addr, i))
  {
  }

  /** The first i bytes of addr have gone over the file at was, and nothing else has changed. */
  ghost predicate Holds(d: seq<Block>, ns: seq<Inode>, e: seq<Block>, ms: seq<Inode>, ip: nat, was: nat,
                        addr: seq<Byte>, i: nat) {
    && ip < |ns| == |ms| && i <= |addr| && OthersKept(d, ns, e, ms, ip)
    && (i == 0 ==> e == d && ms == ns)
    && (i > 0 ==> FileOk(d, ns[ip]) && FileOk(e, ms[ip]) && was <= ns[ip].size
                  && Content(e, ms[ip]) == Spliced(Content(d, ns[ip]), was, addr[..i]))
  }

  /** The volume a transaction of filewrite leaves: consistent, with a whole number of chunks
      written, or all there is. */
  ghost predicate LeftWhole(sb: SuperBlock, d: seq<Block>, ns: seq<Inode>, x: Txn, ip: nat, was: nat, addr: seq<Byte>) {
    && Consistent(sb, x.disk, x.inodes, x.owner)
    && exists i: nat :: (WholeChunks(i) || i == |addr|) && Holds(d, ns, x.disk, x.inodes, ip, was, addr, i)
  }

  /** The first i bytes have been written, in whole chunks, the offset has moved over them, and
      the chunk after them is one that writei does not take. */
  ghost predicate WrittenUpTo(d: seq<Block>, ns: seq<Inode>, e: seq<Block>, ms: seq<Inode>, ip: nat, was: nat,
                              off: nat, addr: seq<Byte>, i: nat) {
    && Holds(d, ns, e, ms, ip, was, addr, i) && off == was + i && WholeChunks(i)
    && !Accepts(ms[ip].size, off, ChunkAt(addr, i))
  }

  /** The volume after the first t of these transactions. */
  function DiskAt(d: seq<Block>, xs: seq<Txn>, t: nat): seq<Block>
    requires t <= |xs|
  {
    if t == 0 then d else xs[t - 1].disk
  }

  function TableAt(ns: seq<Inode>, xs: seq<Txn>, t: nat): seq<Inode>
    requires t <= |xs|
  {
    if t == 0 then ns else xs[t - 1].inodes
  }

  /** Transaction t has logged all that it changed. */
  ghost predicate Link(sb: SuperBlock, d: seq<Block>, ns: seq<Inode>, xs: seq<Txn>, t: nat)
    requires t < |xs|
  {
    Booked(sb, DiskAt(d, xs, t), TableAt(ns, xs, t), xs[t].disk, xs[t].inodes, xs[t].blocks, xs[t].fullest, {})
  }

  ghost predicate Chain(sb: SuperBlock, d: seq<Block>, ns: seq<Inode>, xs: seq<Txn>) {
    forall t :: 0 <= t < |xs| ==> Link(sb, d, ns, xs, t)
  }

  lemma LinkStays(sb: SuperBlock, d: seq<Block>, ns: seq<Inode>, xs: seq<Txn>, x: Txn, t: nat)
    requires t < |xs| && Link(sb, d, ns, xs, t)
    ensures Link(sb, d, ns, xs + [x], t)
  {
    hide Booked;
  }

  lemma LinkNew(sb: SuperBlock, d: seq<Block>, ns: seq<Inode>, xs: seq<Txn>, x: Txn)
    requires Booked(sb, DiskAt(d, xs, |xs|), TableAt(ns, xs, |xs|), x.disk, x.inodes, x.blocks, x.fullest, {})
    ensures Link(sb, d, ns, xs + [x], |xs|)
    ensures DiskAt(d, xs + [x], |xs| + 1) == x.disk && TableAt(ns, xs + [x], |xs| + 1) == x.inodes
  {
    hide Booked;
    assert DiskAt(d, xs + [x], |xs|) == DiskAt(d, xs, |xs|) && TableAt(ns, xs + [x], |xs|) == TableAt(ns, xs, |xs|);
  }

  lemma ChainNext(sb: SuperBlock, d: seq<Block>, ns: seq<Inode>, xs: seq<Txn>, x: Txn)
    requires Chain(sb, d, ns, xs)
    requires Booked(sb, DiskAt(d, xs, |xs|), TableAt(ns, xs, |xs|), x.disk, x.inodes, x.blocks, x.fullest, {})
    ensures Chain(sb, d, ns, xs + [x])
    ensures DiskAt(d, xs + [x], |xs| + 1) == x.disk && TableAt(ns, xs + [x], |xs| + 1) == x.inodes
  {
    hide Booked, Link, DiskAt, TableAt;
    LinkNew(sb, d, ns, xs, x);
    forall t | 0 <= t < |xs + [x]|
      ensures Link(sb, d, ns, xs + [x], t)
    {
      if t < |xs| {
        LinkStays(sb, d, ns, xs, x, t);
      }
    }
  }

  lemma ChainStart(sb: SuperBlock, d: seq<Block>, ns: seq<Inode>, done: seq<Txn>)
    ensures Since(done, |done|) == [] && Chain(sb, d, ns, []) && DiskAt(d, [], 0) == d && TableAt(ns, [], 0) == ns
  {
    hide Link;
  }

  /** What has been done since there were n transactions. */
  ghost function Since(done: seq<Txn>, n: nat): seq<Txn> {
    if n <= |done| then done[n..] else []
  }

  lemma SinceMore(done: seq<Txn>, n: nat, x: Txn)
    requires n <= |done|
    ensures Since(done + [x], n) == Since(done, n) + [x]
  {
  }

  lemma FilesAll(sb: SuperBlock, d: seq<Block>, ns: seq<Inode>, owner: Owners)
    requires Consistent(sb, d, ns, owner)
    ensures forall j :: 0 <= j < |ns| ==> FileOk(d, ns[j])
  {
    hide Owns, FileOk;
  }

  lemma HoldsNothing(d: seq<Block>, ns: seq<Inode>, ip: nat, was: nat, addr: seq<Byte>)
    requires ip < |ns| && forall j :: 0 <= j < |ns| ==> FileOk(d, ns[j])
    ensures Holds(d, ns, d, ns, ip, was, addr, 0)
  {
    hide FileOk, OthersKept, Content, Spliced;
    OthersKeptRefl(d, ns, ip);
  }

  /** One chunk more. */
  lemma HoldsMore(d: seq<Block>, ns: seq<Inode>, e: seq<Block>, ms: seq<Inode>, e': seq<Block>, ms': seq<Inode>,
                  ip: nat, was: nat, addr: seq<Byte>, i: nat, n: nat)
    requires Holds(d, ns, e, ms, ip, was, addr, i) && 0 < n && i + n <= |addr| && |ms'| == |ms|
    requires OthersKept(e, ms, e', ms', ip) && FileOk(e, ms[ip]) && FileOk(e', ms'[ip]) && was + i <= ms[ip].size
    requires Content(e', ms'[ip]) == Spliced(Content(e, ms[ip]), was + i, addr[i..i + n])
    ensures Holds(d, ns, e', ms', ip, was, addr, i + n)
  {
    hide FileByte, OthersKept, Spliced;
    OthersKeptTransitive(d, ns, e, ms, e', ms', ip);
    var s := if i == 0 then Content(e, ms[ip]) else Content(d, ns[ip]);
    SplicedNothing(s, was, addr);
    SplicedStep(s, was, addr, i, i + n);
  }

  /** How long the file is then. */
  lemma HoldsSize(d: seq<Block>, ns: seq<Inode>, e: seq<Block>, ms: seq<Inode>, ip: nat, was: nat, addr: seq<Byte>,
                  i: nat)
    requires Holds(d, ns, e, ms, ip, was, addr, i)
    ensures ip < |ns| == |ms| && ms[ip].size == if i > 0 && was + i > ns[ip].size then was + i else ns[ip].size
  {
    hide OthersKept, FileByte;
  }

  /** All of it. */
  lemma HoldsAll(d: seq<Block>, ns: seq<Inode>, e: seq<Block>, ms: seq<Inode>, ip: nat, was: nat, addr: seq<Byte>)
    requires Holds(d, ns, e, ms, ip, was, addr, |addr|) && addr != []
    ensures ip < |ns| == |ms| && OthersKept(d, ns, e, ms, ip) && FileOk(d, ns[ip]) && FileOk(e, ms[ip])
    ensures Content(e, ms[ip]) == Spliced(Content(d, ns[ip]), was, addr)
  {
    hide OthersKept, FileByte, Spliced;
    assert addr[..|addr|] == addr;
  }

  lemma LeftNow(sb: SuperBlock, d: seq<Block>, ns: seq<Inode>, x: Txn, ip: nat, was: nat, addr: seq<Byte>, i: nat)
    requires Consistent(sb, x.disk, x.inodes, x.owner) && Holds(d, ns, x.disk, x.inodes, ip, was, addr, i)
    requires WholeChunks(i) || i == |addr|
    ensures LeftWhole(sb, d, ns, x, ip, was, addr)
  {
    hide Consistent, Holds;
  }

  /** write(2) on a file, a chunk to a transaction. A write that would make the file too long
      is taken up to the last chunk that fits. */
  method FileWrite(v: Volume, f: File, addr: seq<Byte>) returns (ok: bool, r: int)
    requires v.Valid() && f.ip < |v.inodes| && |addr| < 0x8000_0000
    modifies v, f`off
    ensures !ok ==> Full(v.sb, v.disk)
    ensures ok ==> v.Valid()
    ensures ok ==> (r == |addr| <==> f.writable && (addr == [] || old(Accepts(v.inodes[f.ip].size, f.off, |addr|))))
    ensures ok && r != |addr| ==> r == -1
    ensures ok && r == |addr| && addr != [] ==>
              && f.off == old(f.off) + |addr|
              && OthersKept(old(v.disk), old(v.inodes), v.disk, v.inodes, f.ip)
              && old(FileOk(v.disk, v.inodes[f.ip])) && FileOk(v.disk, v.inodes[f.ip])
              && Content(v.disk, v.inodes[f.ip]) == Spliced(old(Content(v.disk, v.inodes[f.ip])), old(f.off), addr)
    ensures ok && (!f.writable || addr == []) ==>
              v.disk == old(v.disk) && v.inodes == old(v.inodes) && f.off == old(f.off)
    ensures ok && f.writable && r != |addr| ==>
              exists i: nat :: i < |addr|
                && WrittenUpTo(old(v.disk), old(v.inodes), v.disk, v.inodes, f.ip, old(f.off), f.off, addr, i)
    ensures old(v.done) <= v.done
    ensures var xs := Since(v.done, |old(v.done)|);
            && Chain(v.sb, old(v.disk), old(v.inodes), xs)
            && (ok ==> v.disk == DiskAt(old(v.disk), xs, |xs|) && v.inodes == TableAt(old(v.inodes), xs, |xs|))
    ensures forall t :: |old(v.done)| <= t < |v.done| ==>
              && WithinReservation(v.done[t].blocks, v.done[t].fullest)
              && LeftWhole(v.sb, old(v.disk), old(v.inodes), v.done[t], f.ip, old(f.off), addr)
  {
    hide Booked, Chain, Since, DiskAt, TableAt, Consistent, FileOk, Holds, WholeChunks, ChunkAt, Full, OthersKept;
    hide LogCost, Spliced, Logs, Touched, HomeOf, LeftWhole, Content, WithinReservation;
    ChainStart(v.sb, v.disk, v.inodes, v.done);
    if !f.writable {
      return true, -1;
    }
    var i := 0;
    assert WholeChunks(0) by { NoChunk(); }
    ghost var off, d, ns, xs := f.off, v.disk, v.inodes, [];
    HoldsNothing(d, ns, f.ip, off, addr) by { FilesAll(v.sb, d, ns, v.owner); }
    while i < |addr|
      invariant 0 <= i <= |addr| && (i < |addr| ==> WholeChunks(i))
      invariant v.Valid() && |v.inodes| == |ns| && Holds(d, ns, v.disk, v.inodes, f.ip, off, addr, i)
      invariant old(v.done) <= v.done
      invariant forall t :: |old(v.done)| <= t < |v.done| ==>
                  WithinReservation(v.done[t].blocks, v.done[t].fullest)
                    && LeftWhole(v.sb, d, ns, v.done[t], f.ip, off, addr)
      invariant xs == Since(v.done, |old(v.done)|) && Chain(v.sb, d, ns, xs)
      invariant v.disk == DiskAt(d, xs, |xs|) && v.inodes == TableAt(ns, xs, |xs|)
      invariant f.off == off + i && (addr == [] ==> v.disk == d && v.inodes == ns)
      invariant i > 0 ==> off <= ns[f.ip].size && off + i <= MAXFILE * BSIZE
    {
      var n1 := ChunkAt(addr, i);
      NextChunk(addr, i);
      HoldsSize(d, ns, v.disk, v.inodes, f.ip, off, addr, i);
      ghost var e, ms, was := v.disk, v.inodes, v.done;
      ok, r := WriteChunk(v, f, addr[i..i + n1]);
      if !ok { return false, 0; }
      ghost var x := v.done[|v.done| - 1];
      SinceMore(was, |old(v.done)|, x);
      ChainNext(v.sb, d, ns, xs, x);
      xs := xs + [x];
      if r < 0 {
        LeftNow(v.sb, d, ns, v.done[|v.done| - 1], f.ip, off, addr, i);
        assert WrittenUpTo(d, ns, v.disk, v.inodes, f.ip, off, f.off, addr, i);
        break;
      }
      HoldsMore(d, ns, e, ms, v.disk, v.inodes, f.ip, off, addr, i, n1);
      i := i + r;
      LeftNow(v.sb, d, ns, v.done[|v.done| - 1], f.ip, off, addr, i);
    }
    if i == |addr| && addr != [] {
      HoldsAll(d, ns, v.disk, v.inodes, f.ip, off, addr);
    }
    return true, if i == |addr| then |addr| else -1;
  }
}
