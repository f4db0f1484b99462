/** Who owns which disk block: the free map, the slots of the inodes, and the
    invariant that ties them together. */
module Blocks {
  import opened Disk

  const NDIRECT := 12
  const NINDIRECT := 128
  const MAXFILE := 140          // NDIRECT + NINDIRECT
  const INDIRECT := 12          // the slot of the indirect block itself
  const NSLOTS := 141           // direct blocks, the indirect block, its entries
  const IPB := 8                // inodes per block

  datatype SuperBlock = SuperBlock(size: nat, ninodes: nat, inodestart: nat, bmapstart: nat, nmeta: nat)

  datatype Inode = Inode(size: Word, addrs: seq<Word>)

  /** What mkfs lays out: the free map covers every block and lies, with the
      inode table, below the first data block. */
  ghost predicate Geometry(sb: SuperBlock, d: seq<Block>) {
    && |d| == sb.size
    && sb.size < 0x8000_0000
    && 0 < sb.bmapstart <= sb.nmeta
    && TableBelowMap(sb)
    && MapBelowData(sb)
    && sb.nmeta <= sb.size
  }

  ghost predicate TableBelowMap(sb: SuperBlock) {
    sb.inodestart <= sb.bmapstart && forall j :: 0 <= j < sb.ninodes ==> IBlock(sb, j) < sb.bmapstart
  }

  ghost predicate MapBelowData(sb: SuperBlock) {
    forall b :: 0 <= b < sb.size ==> BBlock(sb, b) < sb.nmeta
  }

  function BBlock(sb: SuperBlock, b: nat): nat { b / BPB + sb.bmapstart }

  function IBlock(sb: SuperBlock, i: nat): nat { i / IPB + sb.inodestart }

  predicate InUse(sb: SuperBlock, d: seq<Block>, b: nat)
    requires BBlock(sb, b) < |d|
  {
    BitAt(d[BBlock(sb, b)], b % BPB)
  }

  function SetUse(sb: SuperBlock, d: seq<Block>, b: nat, v: bool): (r: seq<Block>)
    requires BBlock(sb, b) < |d|
    ensures |r| == |d|
  {
    d[BBlock(sb, b) := PutBit(d[BBlock(sb, b)], b % BPB, v)]
  }

  lemma InUseSet(sb: SuperBlock, d: seq<Block>, b: nat, v: bool, c: nat)
    requires Geometry(sb, d) && b < sb.size && c < sb.size
    ensures InUse(sb, SetUse(sb, d, b, v), c) == if c == b then v else InUse(sb, d, c)
  {
    if BBlock(sb, b) == BBlock(sb, c) {
      BitAtPut(d[BBlock(sb, b)], b % BPB, v, c % BPB);
      assert b % BPB == c % BPB ==> b == c;
    }
  }

  /** The disk after balloc has taken block b and zeroed it. */
  function Allocated(sb: SuperBlock, d: seq<Block>, b: nat): (r: seq<Block>)
    requires BBlock(sb, b) < |d| && b < |d|
    ensures |r| == |d|
  {
    SetUse(sb, d, b, true)[b := ZeroBlock()]
  }

  // Slots -------------------------------------------------------------------

  /** Slots 0..11 are the direct blocks, slot 12 the indirect block and slots
      13..140 the entries of the indirect block; 0 means unmapped. */
  function Slot(d: seq<Block>, n: Inode, k: nat): Word
    requires |n.addrs| == NDIRECT + 1 && k < NSLOTS
  {
    if k <= INDIRECT then n.addrs[k]
    else if n.addrs[INDIRECT] == 0 || n.addrs[INDIRECT] >= |d| then 0
    else WordAt(d[n.addrs[INDIRECT]], k - INDIRECT - 1)
  }

  /** The slot that maps file block bn. */
  function DataSlot(bn: nat): nat { if bn < NDIRECT then bn else bn + 1 }

  type Owners = map<nat, (nat, nat)>

  ghost predicate WellFormed(sb: SuperBlock, ns: seq<Inode>) {
    |ns| == sb.ninodes && forall i :: 0 <= i < |ns| ==> |ns[i].addrs| == NDIRECT + 1
  }

  /** owner sends every block that some inode maps to its one (inode, slot);
      the blocks in use are the metadata blocks and exactly these. */
  ghost predicate Owns(sb: SuperBlock, d: seq<Block>, ns: seq<Inode>, owner: Owners) {
    && Geometry(sb, d)
    && WellFormed(sb, ns)
    && SlotsOwned(d, ns, owner)
    && OwnersHold(sb, d, ns, owner)
    && MapAgrees(sb, d, owner)
  }

  ghost predicate SlotsOwned(d: seq<Block>, ns: seq<Inode>, owner: Owners)
    requires forall i :: 0 <= i < |ns| ==> |ns[i].addrs| == NDIRECT + 1
  {
    forall i, k :: 0 <= i < |ns| && 0 <= k < NSLOTS && Slot(d, ns[i], k) != 0 ==>
      Slot(d, ns[i], k) in owner && owner[Slot(d, ns[i], k)] == (i, k)
  }

  ghost predicate OwnersHold(sb: SuperBlock, d: seq<Block>, ns: seq<Inode>, owner: Owners)
    requires forall i :: 0 <= i < |ns| ==> |ns[i].addrs| == NDIRECT + 1
  {
    forall b :: b in owner ==>
      && sb.nmeta <= b < sb.size
      && owner[b].0 < |ns| && owner[b].1 < NSLOTS
      && Slot(d, ns[owner[b].0], owner[b].1) == b
  }

  ghost predicate MapAgrees(sb: SuperBlock, d: seq<Block>, owner: Owners)
    requires Geometry(sb, d)
  {
    forall b :: 0 <= b < sb.size ==> (InUse(sb, d, b) <==> b < sb.nmeta || b in owner)
  }

  function SetAddr(n: Inode, k: nat, b: Word): (r: Inode)
    requires k < |n.addrs|
  {
    n.(addrs := n.addrs[k := b])
  }

  lemma SlotInRange(sb: SuperBlock, d: seq<Block>, ns: seq<Inode>, owner: Owners, i: nat, k: nat)
    requires Owns(sb, d, ns, owner) && i < |ns| && k < NSLOTS && Slot(d, ns[i], k) != 0
    ensures Slot(d, ns[i], k) < |d|
  {
  }

  /** Taking a free block touches no block that was in use, apart from the free map. */
  lemma AllocatedFrame(sb: SuperBlock, d: seq<Block>, ns: seq<Inode>, owner: Owners, b: nat)
    requires Owns(sb, d, ns, owner) && b < sb.size && !InUse(sb, d, b)
    ensures b !in owner && b >= sb.nmeta
    ensures forall c :: c in owner ==> Allocated(sb, d, b)[c] == d[c]
    ensures forall c :: 0 <= c < sb.size ==> (InUse(sb, Allocated(sb, d, b), c) <==> c == b || InUse(sb, d, c))
    ensures forall i, k :: 0 <= i < |ns| && 0 <= k < NSLOTS ==> Slot(Allocated(sb, d, b), ns[i], k) == Slot(d, ns[i], k)
  {
    var e := Allocated(sb, d, b);
    forall c | 0 <= c < sb.size
      ensures InUse(sb, e, c) <==> c == b || InUse(sb, d, c)
    {
      InUseSet(sb, d, b, true, c);
    }
    forall i, k | 0 <= i < |ns| && 0 <= k < NSLOTS
      ensures Slot(e, ns[i], k) == Slot(d, ns[i], k)
    {
      assert Slot(d, ns[i], INDIRECT) == ns[i].addrs[INDIRECT];
    }
  }

  /** Every slot reads as before, except that slot k of inode i now holds b. */
  ghost predicate OneSlotChanged(d: seq<Block>, ns: seq<Inode>, e: seq<Block>, ms: seq<Inode>, i: nat, k: nat,
                                 b: Word) {
    && |ms| == |ns|
    && (forall j :: 0 <= j < |ns| ==> |ns[j].addrs| == |ms[j].addrs| == NDIRECT + 1)
    && (forall j, l :: 0 <= j < |ns| && 0 <= l < NSLOTS ==>
          Slot(e, ms[j], l) == if j == i && l == k then b else Slot(d, ns[j], l))
  }

  lemma OwnsMore(sb: SuperBlock, d: seq<Block>, ns: seq<Inode>, owner: Owners,
                 e: seq<Block>, ms: seq<Inode>, i: nat, k: nat, b: Word)
    requires Owns(sb, d, ns, owner) && i < |ns| && k < NSLOTS && b != 0
    requires Geometry(sb, e) && OneSlotChanged(d, ns, e, ms, i, k, b)
    requires Slot(d, ns[i], k) == 0 && b !in owner && sb.nmeta <= b < sb.size
    requires forall c :: 0 <= c < sb.size ==> (InUse(sb, e, c) <==> c == b || InUse(sb, d, c))
    ensures Owns(sb, e, ms, owner[b := (i, k)])
  {
  }

  /** A free block hung on a direct slot, or on the slot of the indirect block. */
  lemma GrowDirect(sb: SuperBlock, d: seq<Block>, ns: seq<Inode>, owner: Owners, i: nat, k: nat, b: Word)
    requires Owns(sb, d, ns, owner) && b < sb.size && !InUse(sb, d, b)
    requires i < |ns| && k <= INDIRECT && ns[i].addrs[k] == 0 && b != 0
    ensures Owns(sb, Allocated(sb, d, b), ns[i := SetAddr(ns[i], k, b)], owner[b := (i, k)])
    ensures OneSlotChanged(d, ns, Allocated(sb, d, b), ns[i := SetAddr(ns[i], k, b)], i, k, b)
  {
    hide InUse, SlotsOwned, OwnersHold, MapAgrees;
    AllocatedFrame(sb, d, ns, owner, b);
    var e, ms := Allocated(sb, d, b), ns[i := SetAddr(ns[i], k, b)];
    forall j, l | 0 <= j < |ns| && 0 <= l < NSLOTS
      ensures Slot(e, ms[j], l) == if j == i && l == k then b else Slot(d, ns[j], l)
    {
      assert Slot(e, ns[j], l) == Slot(d, ns[j], l);
      if j == i && k == INDIRECT && l > INDIRECT {
        WordAtZero(l - INDIRECT - 1);
      }
    }
    OwnsMore(sb, d, ns, owner, e, ms, i, k, b);
  }

  /** The disk after balloc has taken b and the indirect block's entry points at it. */
  function HungIndirect(sb: SuperBlock, d: seq<Block>, n: Inode, k: nat, b: Word): (r: seq<Block>)
    requires BBlock(sb, b) < |d| && b < |d|
    requires |n.addrs| == NDIRECT + 1 && n.addrs[INDIRECT] < |d| && INDIRECT < k < NSLOTS
  {
    var e := Allocated(sb, d, b);
    var a := n.addrs[INDIRECT];
    e[a := PutWord(e[a], k - INDIRECT - 1, b)]
  }

  /** A store into an indirect block changes one slot of the inodes that point at it. */
  lemma SlotAfterPut(d: seq<Block>, a: Word, k: nat, b: Word, n: Inode, l: nat)
    requires |n.addrs| == NDIRECT + 1 && INDIRECT < k < NSLOTS && l < NSLOTS && 0 < a < |d|
    ensures Slot(d[a := PutWord(d[a], k - INDIRECT - 1, b)], n, l)
         == if n.addrs[INDIRECT] == a && l == k then b else Slot(d, n, l)
  {
    if l > INDIRECT {
      WordAtPut(d[a], k - INDIRECT - 1, b, l - INDIRECT - 1);
    }
  }

  /** A free block hung on an entry of the indirect block. */
  lemma GrowIndirect(sb: SuperBlock, d: seq<Block>, ns: seq<Inode>, owner: Owners, i: nat, k: nat, b: Word)
    requires Owns(sb, d, ns, owner) && b < sb.size && !InUse(sb, d, b)
    requires i < |ns| && INDIRECT < k < NSLOTS && ns[i].addrs[INDIRECT] != 0 && Slot(d, ns[i], k) == 0 && b != 0
    ensures ns[i].addrs[INDIRECT] in owner && ns[i].addrs[INDIRECT] < |d|
    ensures Owns(sb, HungIndirect(sb, d, ns[i], k, b), ns, owner[b := (i, k)])
    ensures OneSlotChanged(d, ns, HungIndirect(sb, d, ns[i], k, b), ns, i, k, b)
  {
    AllocatedFrame(sb, d, ns, owner, b);
    var a := ns[i].addrs[INDIRECT];
    assert Slot(d, ns[i], INDIRECT) == a;
    var e := HungIndirect(sb, d, ns[i], k, b);
    forall j, l | 0 <= j < |ns| && 0 <= l < NSLOTS
      ensures Slot(e, ns[j], l) == if j == i && l == k then b else Slot(d, ns[j], l)
    {
      assert Slot(d, ns[j], INDIRECT) == ns[j].addrs[INDIRECT];
      SlotAfterPut(Allocated(sb, d, b), a, k, b, ns[j], l);
    }
    forall c | 0 <= c < sb.size
      ensures InUse(sb, e, c) <==> c == b || InUse(sb, d, c)
    {
      assert InUse(sb, Allocated(sb, d, b), c) <==> c == b || InUse(sb, d, c);
    }
    OwnsMore(sb, d, ns, owner, e, ns, i, k, b);
  }

  // Growth ------------------------------------------------------------------

  /** Every mapped slot keeps its block and every mapped data block its bytes. */
  ghost predicate Grown(d: seq<Block>, ns: seq<Inode>, e: seq<Block>, ms: seq<Inode>) {
    && |ms| == |ns| && |e| == |d|
    && (forall j :: 0 <= j < |ns| ==> |ns[j].addrs| == |ms[j].addrs| == NDIRECT + 1 && ms[j].size == ns[j].size)
    && (forall j, l :: 0 <= j < |ns| && 0 <= l < NSLOTS && Slot(d, ns[j], l) != 0 ==>
          && Slot(e, ms[j], l) == Slot(d, ns[j], l)
          && (l != INDIRECT && Slot(d, ns[j], l) < |d| ==> e[Slot(d, ns[j], l)] == d[Slot(d, ns[j], l)]))
  }

  lemma GrownTransitive(d: seq<Block>, ns: seq<Inode>, e: seq<Block>, ms: seq<Inode>, f: seq<Block>, os: seq<Inode>)
    requires Grown(d, ns, e, ms) && Grown(e, ms, f, os)
    ensures Grown(d, ns, f, os)
  {
  }

  lemma GrownInode(d: seq<Block>, ns: seq<Inode>, e: seq<Block>, ms: seq<Inode>, i: nat)
    requires Grown(d, ns, e, ms) && i < |ns|
    ensures |ms| == |ns| && |ns[i].addrs| == |ms[i].addrs| == NDIRECT + 1 && ms[i].size == ns[i].size
    ensures ns[i].addrs[INDIRECT] != 0 ==> ms[i].addrs[INDIRECT] == ns[i].addrs[INDIRECT]
  {
    assert Slot(d, ns[i], INDIRECT) == ns[i].addrs[INDIRECT];
    assert Slot(e, ms[i], INDIRECT) == ms[i].addrs[INDIRECT];
  }

  /** Hanging a free block on a direct slot keeps ownership and everything mapped. */
  lemma HangDirect(sb: SuperBlock, d: seq<Block>, ns: seq<Inode>, owner: Owners, i: nat, k: nat, b: Word)
    requires Owns(sb, d, ns, owner) && b < sb.size && !InUse(sb, d, b)
    requires i < |ns| && k <= INDIRECT && ns[i].addrs[k] == 0
    ensures b != 0
    ensures Owns(sb, Allocated(sb, d, b), ns[i := SetAddr(ns[i], k, b)], owner[b := (i, k)])
    ensures Grown(d, ns, Allocated(sb, d, b), ns[i := SetAddr(ns[i], k, b)])
  {
    assert BBlock(sb, 0) < sb.nmeta;
    GrowDirect(sb, d, ns, owner, i, k, b);
    AllocatedFrame(sb, d, ns, owner, b);
  }

  /** The same for an entry of the indirect block. */
  lemma HangIndirect(sb: SuperBlock, d: seq<Block>, ns: seq<Inode>, owner: Owners, i: nat, k: nat, b: Word)
    requires Owns(sb, d, ns, owner) && b < sb.size && !InUse(sb, d, b)
    requires i < |ns| && INDIRECT < k < NSLOTS && ns[i].addrs[INDIRECT] != 0 && Slot(d, ns[i], k) == 0
    ensures b != 0 && ns[i].addrs[INDIRECT] < |d|
    ensures Owns(sb, HungIndirect(sb, d, ns[i], k, b), ns, owner[b := (i, k)])
    ensures Grown(d, ns, HungIndirect(sb, d, ns[i], k, b), ns)
    ensures Slot(HungIndirect(sb, d, ns[i], k, b), ns[i], k) == b
  {
    assert BBlock(sb, 0) < sb.nmeta;
    GrowIndirect(sb, d, ns, owner, i, k, b);
    AllocatedFrame(sb, d, ns, owner, b);
    assert Slot(d, ns[i], INDIRECT) == ns[i].addrs[INDIRECT];
  }

  ghost predicate Full(sb: SuperBlock, d: seq<Block>) {
    Geometry(sb, d) && forall c :: 0 <= c < sb.size ==> InUse(sb, d, c)
  }

  // Contents ----------------------------------------------------------------

  /** Which block of a file byte p is in, and where in it. */
  function BlockOf(p: nat): nat { p / BSIZE }

  function Inner(p: nat): (r: nat)
    ensures r < BSIZE
  {
    p % BSIZE
  }

  /** Byte p of the file, wherever its block lies. */
  function FileByte(d: seq<Block>, n: Inode, p: nat): Byte
    requires |n.addrs| == NDIRECT + 1 && p < MAXFILE * BSIZE
  {
    var a := Slot(d, n, DataSlot(BlockOf(p)));
    if a < |d| then d[a][Inner(p)] else 0
  }

  /** Every block below the end of the file is mapped. */
  ghost predicate FileOk(d: seq<Block>, n: Inode) {
    && |n.addrs| == NDIRECT + 1
    && n.size <= MAXFILE * BSIZE
    && MappedTo(d, n, n.size)
  }

  ghost predicate MappedTo(d: seq<Block>, n: Inode, end: nat)
    requires |n.addrs| == NDIRECT + 1
  {
    forall bn: nat :: bn < MAXFILE && bn * BSIZE < end ==> Slot(d, n, DataSlot(bn)) != 0
  }

  ghost function Content(d: seq<Block>, n: Inode): (s: seq<Byte>)
    requires FileOk(d, n)
    ensures |s| == n.size
  {
    seq(n.size, p requires 0 <= p < n.size => FileByte(d, n, p))
  }

  ghost predicate Consistent(sb: SuperBlock, d: seq<Block>, ns: seq<Inode>, owner: Owners) {
    && Owns(sb, d, ns, owner)
    && forall i :: 0 <= i < |ns| ==> FileOk(d, ns[i])
  }
}
