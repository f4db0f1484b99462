/** A file system on which one chunk fills a transaction's reservation to the last block, and
    every longer one needs more. */
module TightChunk {
  import opened Param
  import opened Disk
  import opened Blocks
  import opened Files
  import opened FileSystem

  const SIZE := 589824        // blocks, under 144 free-map blocks
  const NODES := 48470        // inodes
  const FIRST := 8192         // the first data block

  const SB: SuperBlock := SuperBlock(SIZE, NODES, 32, 6092, FIRST)

  /** The one free block under each free-map block that maps data. */
  predicate Spare(b: nat) { FIRST <= b && b % 4096 == 4095 }

  /** Inode j owns the twelve data blocks from FIRST + 12 * j on, but for spare ones. */
  function Address(j: nat, k: nat): Word {
    var b := FIRST + 12 * j + k;
    if k < 12 && b < SIZE && !Spare(b) then b else 0
  }

  /** Inode 0 is z bytes long, the others are empty. */
  function Node(z: Word, j: nat): (n: Inode)
    ensures |n.addrs| == NDIRECT + 1
  {
    Inode(if j == 0 then z else 0, seq(13, k requires 0 <= k < 13 => Address(j, k)))
  }

  function Nodes(z: Word): seq<Inode> { seq(NODES, j requires 0 <= j < NODES => Node(z, j)) }

  /** 512 bytes of ones. */
  function Ones(): Block { seq(BSIZE, _ => 255) }

  function MapBlock(): Block { PutBit(Ones(), 4095, false) }

  function Copies(n: nat, b: Block): (r: seq<Block>)
    ensures |r| == n && forall i :: 0 <= i < n ==> r[i] == b
  {
    if n == 0 then [] else [b] + Copies(n - 1, b)
  }

  function Blks(): seq<Block> { Copies(6092, ZeroBlock()) + Copies(2, Ones()) + Copies(142,
    MapBlock()) + Copies(583588, ZeroBlock()) }

  ghost function Own(): Owners {
    map b: nat | FIRST <= b < SIZE && !Spare(b) :: ((b - FIRST) / 12, (b - FIRST) % 12)
  }

  lemma OnesBit(i: nat)
    requires i < BPB
    ensures BitAt(Ones(), i)
  {
    assert Bit(255, 0) && Bit(127, 0) && Bit(63, 0) && Bit(31, 0) && Bit(15, 0) && Bit(7, 0) && Bit(3, 0) && Bit(1, 0);
    assert Bit(255, 1) && Bit(127, 1) && Bit(63, 1) && Bit(31, 1) && Bit(15, 1) && Bit(7, 1) && Bit(3, 1);
    assert Bit(255, 2) && Bit(127, 2) && Bit(63, 2) && Bit(31, 2) && Bit(15, 2) && Bit(7, 2);
    assert Bit(255, 3) && Bit(127, 3) && Bit(63, 3) && Bit(31, 3) && Bit(15, 3);
    assert Bit(255, 4) && Bit(127, 4) && Bit(63, 4) && Bit(31, 4);
    assert Bit(255, 5) && Bit(127, 5) && Bit(63, 5);
    assert Bit(255, 6) && Bit(127, 6);
    assert Bit(255, 7);
    assert Bit(255, i % 8);
  }

  lemma MapHere(b: nat)
    requires b < SIZE
    ensures 6092 <= BBlock(SB, b) < 6236 <= |Blks()| == SIZE
    ensures Blks()[BBlock(SB, b)] == if b < FIRST then Ones() else MapBlock()
  {
    hide Copies, Ones, MapBlock, ZeroBlock;
  }

  lemma InUseHere(b: nat)
    requires b < SIZE
    ensures BBlock(SB, b) < SIZE == |Blks()| && (InUse(SB, Blks(), b) <==> !Spare(b))
  {
    hide Blks, BitAt, PutBit, Ones, BBlock;
    MapHere(b);
    OnesBit(b % BPB);
    BitAtPut(Ones(), 4095, false, b % BPB);
  }

  lemma GeometryHere()
    ensures Geometry(SB, Blks())
  {
    assert forall j :: 0 <= j < SB.ninodes ==> IBlock(SB, j) < SB.bmapstart;
    assert forall b :: 0 <= b < SB.size ==> BBlock(SB, b) < SB.nmeta;
  }

  lemma SlotHere(z: Word, j: nat, k: nat)
    requires j < NODES && k < NSLOTS
    ensures Nodes(z)[j] == Node(z, j) && Slot(Blks(), Node(z, j), k) == Address(j, k)
  {
    assert Node(z, j).addrs[INDIRECT] == 0;
  }

  /** Addresses name blocks that inode j owns in slot k. */
  lemma AddressOwned(j: nat, k: nat)
    requires Address(j, k) != 0
    ensures Address(j, k) in Own() && Own()[Address(j, k)] == (j, k)
  {
  }

  lemma OwnedAddress(b: nat)
    requires b in Own()
    ensures FIRST <= b < SIZE && Own()[b].0 < NODES && Own()[b].1 < NSLOTS && Address(Own()[b].0, Own()[b].1) == b
  {
  }

  lemma SlotsOwnedHere(z: Word)
    ensures |Nodes(z)| == NODES && (forall j :: 0 <= j < NODES ==> Nodes(z)[j] == Node(z, j))
    ensures SlotsOwned(Blks(), Nodes(z), Own())
  {
    hide Own, Blks, Address;
    forall j, k | 0 <= j < |Nodes(z)| && 0 <= k < NSLOTS && Slot(Blks(), Nodes(z)[j], k) != 0
      ensures Slot(Blks(), Nodes(z)[j], k) in Own() && Own()[Slot(Blks(), Nodes(z)[j], k)] == (j, k)
    {
      SlotHere(z, j, k);
      AddressOwned(j, k);
    }
  }

  lemma OwnersHoldHere(z: Word)
    ensures (forall j :: 0 <= j < |Nodes(z)| ==> |Nodes(z)[j].addrs| == NDIRECT + 1)
    ensures OwnersHold(SB, Blks(), Nodes(z), Own())
  {
    hide Own, Blks, Address;
    forall b | b in Own()
      ensures SB.nmeta <= b < SB.size && Own()[b].0 < |Nodes(z)| && Own()[b].1 < NSLOTS
      ensures Slot(Blks(), Nodes(z)[Own()[b].0], Own()[b].1) == b
    {
      OwnedAddress(b);
      SlotHere(z, Own()[b].0, Own()[b].1);
    }
  }

  lemma MapAgreesHere()
    ensures Geometry(SB, Blks()) && MapAgrees(SB, Blks(), Own())
  {
    GeometryHere();
    hide Blks, InUse, Geometry;
    forall b | 0 <= b < SB.size
      ensures InUse(SB, Blks(), b) <==> b < SB.nmeta || b in Own()
    {
      InUseHere(b);
    }
  }

  lemma FilesHere(z: Word)
    requires z <= 6144
    ensures forall j :: 0 <= j < |Nodes(z)| ==> FileOk(Blks(), Nodes(z)[j])
  {
    hide Blks, FileOk;
    forall j | 0 <= j < |Nodes(z)|
      ensures FileOk(Blks(), Nodes(z)[j])
    {
      FileHere(z, j);
    }
  }

  lemma ConsistentHere(z: Word)
    requires z <= 6144
    ensures Consistent(SB, Blks(), Nodes(z), Own())
  {
    SlotsOwnedHere(z);
    OwnersHoldHere(z);
    MapAgreesHere();
    FilesHere(z);
    hide Blks, Nodes, Own, SlotsOwned, OwnersHold, MapAgrees, Geometry, FileOk;
  }

  lemma FileHere(z: Word, j: nat)
    requires j < NODES && z <= 6144
    ensures Nodes(z)[j] == Node(z, j) && FileOk(Blks(), Node(z, j))
  {
    hide Blks;
    forall bn: nat | bn < MAXFILE && bn * BSIZE < Node(z, j).size
      ensures Slot(Blks(), Node(z, j), DataSlot(bn)) != 0
    {
      assert j == 0 && bn < 12;
      SlotHere(z, j, bn);
    }
  }

  // The count ------------------------------------------------------------------------------------

  lemma OwnKeys()
    ensures forall b :: b in Own().Keys ==> FIRST <= b < SIZE && !Spare(b)
  {
  }

  /** The free blocks under the first n free-map blocks that map data. */
  ghost function Spares(n: nat): (r: set<nat>)
    ensures forall b :: b in r ==> FIRST <= b < FIRST + 4096 * n && Spare(b)
  {
    if n == 0 then {} else Spares(n - 1) + {FIRST + 4096 * n - 1}
  }

  lemma {:induction false} SparesSize(n: nat)
    ensures |Spares(n)| == n
  {
    if n == 0 {
    } else {
      SparesSize(n - 1);
    }
  }

  lemma OwnAtMost(n: nat)
    requires n <= 142
    ensures |Own()| <= SIZE - FIRST - n
  {
    hide Own, Spares;
    OwnKeys();
    SparesSize(n);
    AtMost(FIRST, SIZE, Own().Keys + Spares(n));
    assert Own().Keys !! Spares(n);
    assert |Own().Keys| == |Own()|;
  }

  /** 142 data blocks are free, two more than the largest file has. */
  lemma OwnSize()
    ensures |Own()| <= SIZE - FIRST - 142
  {
    hide Own;
    OwnAtMost(142);
  }

  lemma {:induction false} AtMost(a: nat, b: nat, s: set<nat>)
    requires a <= b && forall x :: x in s ==> a <= x < b
    ensures |s| <= b - a
    decreases b - a
  {
    if a == b {
      assert s == {};
    } else {
      AtMost(a + 1, b, s - {a});
      assert s <= (s - {a}) + {a};
    }
  }

  /** A block that inode 0 maps beyond its direct ones is spare, and logged with its map block. */
  lemma NewIsSpare(d: seq<Block>, ns: seq<Inode>, owner: Owners, logged: set<nat>, k: nat)
    requires Owns(SB, d, ns, owner) && Logs(SB, Own(), {}, owner, logged) && |ns| > 0
    requires INDIRECT <= k < NSLOTS && Slot(d, ns[0], k) != 0
    ensures var b := Slot(d, ns[0], k); Spare(b) && b < SIZE && b in logged && BBlock(SB, b) in logged
  {
    var b := Slot(d, ns[0], k);
    assert b in owner && owner[b] == (0, k);
    assert b !in Own();
  }

  /** Two slots hold different blocks, so different spare ones under different map blocks. */
  lemma NewDiffer(d: seq<Block>, ns: seq<Inode>, owner: Owners, j: nat, k: nat)
    requires Owns(SB, d, ns, owner) && |ns| > 0 && j < k < NSLOTS
    requires Slot(d, ns[0], j) != 0 && Slot(d, ns[0], k) != 0
    ensures Slot(d, ns[0], j) != Slot(d, ns[0], k)
  {
    assert owner[Slot(d, ns[0], j)] == (0, j) && owner[Slot(d, ns[0], k)] == (0, k);
  }

  lemma SpareMaps(a: nat, b: nat)
    requires Spare(a) && Spare(b) && a != b
    ensures BBlock(SB, a) != BBlock(SB, b)
  {
  }

  lemma SpareFar(a: nat, b: nat)
    requires Spare(a) && Spare(b) && b < SIZE
    ensures a != BBlock(SB, b) && a > 8203 && 6092 <= BBlock(SB, b) < 6236
  {
  }

  /** Four different spare blocks with their map blocks, a direct block and the inode's block. */
  lemma TenBlocks(logged: set<nat>, a: nat, b: nat, c: nat, e: nat)
    requires Spare(a) && Spare(b) && Spare(c) && Spare(e) && a < SIZE && b < SIZE && c < SIZE && e < SIZE
    requires a != b && a != c && a != e && b != c && b != e && c != e
    requires {32, 8203, a, b, c, e, BBlock(SB, a), BBlock(SB, b), BBlock(SB, c), BBlock(SB, e)} <= logged
    ensures |logged| >= 10
  {
    SpareMaps(a, b); SpareMaps(a, c); SpareMaps(a, e); SpareMaps(b, c); SpareMaps(b, e); SpareMaps(c, e);
    SpareFar(a, a); SpareFar(b, b); SpareFar(c, c); SpareFar(e, e);
    var maps := {BBlock(SB, a), BBlock(SB, b), BBlock(SB, c), BBlock(SB, e)};
    var news := {a, b, c, e};
    hide BBlock, Spare;
    assert |maps| == 4 && |news| == 4;
    assert maps !! news;
    assert |maps + news| == 8;
    assert |maps + news + {32, 8203}| == 10;
    SubsetSize(maps + news + {32, 8203}, logged);
  }

  /** What writei of 1536 bytes from the last byte of block 11 on leaves logged. */
  lemma LoggedTen(d: seq<Block>, ns: seq<Inode>, owner: Owners, logged: set<nat>)
    requires Owns(SB, d, ns, owner) && Logs(SB, Own(), {}, owner, logged) && |ns| > 0 && FileOk(d, ns[0])
    requires ns[0].size == 7679
    requires 8203 in logged && 32 in logged
    ensures |logged| >= 10
  {
    SlotsMapped(d, ns[0]);
    hide Owns, Logs, FileOk, Slot, Own, Spare;
    var a, b, c, e := Slot(d, ns[0], 12), Slot(d, ns[0], 13), Slot(d, ns[0], 14), Slot(d, ns[0], 15);
    NewIsSpare(d, ns, owner, logged, 12);
    NewIsSpare(d, ns, owner, logged, 13);
    NewIsSpare(d, ns, owner, logged, 14);
    NewIsSpare(d, ns, owner, logged, 15);
    NewDiffer(d, ns, owner, 12, 13);
    NewDiffer(d, ns, owner, 12, 14);
    NewDiffer(d, ns, owner, 12, 15);
    NewDiffer(d, ns, owner, 13, 14);
    NewDiffer(d, ns, owner, 13, 15);
    NewDiffer(d, ns, owner, 14, 15);
    TenBlocks(logged, a, b, c, e);
  }

  lemma SlotsMapped(d: seq<Block>, n: Inode)
    requires FileOk(d, n) && n.size == 7679
    ensures |n.addrs| == NDIRECT + 1 && Slot(d, n, 12) != 0 && Slot(d, n, 13) != 0 && Slot(d, n, 14) != 0
    ensures Slot(d, n, 15) != 0
  {
    assert DataSlot(12) == 13 && DataSlot(13) == 14 && DataSlot(14) == 15;
  }

  lemma FirstBlockHere(z: Word)
    requires z == 6143 || z == 6144
    ensures Nodes(z) != [] && Nodes(z)[0] == Node(z, 0) && Node(z, 0).size == z && IBlock(SB, 0) == 32
    ensures HomeOf(Blks(), Node(z, 0), 6143) == 8203
    ensures Touched(6143, MAXCHUNK) == 4 && LogCost(6143, MAXCHUNK) == MAXOPBLOCKS
  {
    SlotHere(z, 0, 11);
  }

  /** Ten blocks can indeed be logged: an unaligned chunk of 1536 bytes whose first block is
      mapped and whose other three, and the indirect block, come from four free-map blocks. */
  method TightTransaction(src: seq<Byte>) returns (v: Volume, r: int)
    requires |src| == MAXCHUNK
    ensures fresh(v) && v.Valid() && r == MAXCHUNK && |v.logged| == MAXOPBLOCKS
  {
    hide Consistent, Owns, Logs, Own, Blks, Nodes, Node, Touched, LogCost, HomeOf, Spliced, OthersKept, Content;
    hide FileOk, Full, IBlock;
    ConsistentHere(6143);
    FirstBlockHere(6143);
    OwnSize();
    v := new Volume(SB, Blks(), Nodes(6143), Own());
    var ok;
    ok, r := v.Writei(0, src, 6143);
    assert ok;
    AfterWrite(v.disk, v.inodes, v.owner);
    LoggedTen(v.disk, v.inodes, v.owner, v.logged);
    assert v.logged - {} == v.logged;
  }

  lemma AfterWrite(d: seq<Block>, ns: seq<Inode>, owner: Owners)
    requires Consistent(SB, d, ns, owner)
    ensures Owns(SB, d, ns, owner) && |ns| > 0 && FileOk(d, ns[0])
  {
  }

  // Longer chunks --------------------------------------------------------------------------------

  /** Five different spare blocks with their map blocks, and the inode's block. */
  lemma ElevenBlocks(logged: set<nat>, a: nat, b: nat, c: nat, e: nat, f: nat)
    requires Spare(a) && Spare(b) && Spare(c) && Spare(e) && Spare(f) && a < SIZE && b < SIZE && c < SIZE && e < SIZE
    requires f < SIZE
    requires a != b && a != c && a != e && a != f && b != c && b != e && b != f && c != e && c != f && e != f
    requires {32, a, b, c, e, f, BBlock(SB, a), BBlock(SB, b), BBlock(SB, c), BBlock(SB, e), BBlock(SB, f)} <= logged
    ensures |logged| >= 11
  {
    SpareMaps(a, b); SpareMaps(a, c); SpareMaps(a, e); SpareMaps(a, f); SpareMaps(b, c);
    SpareMaps(b, e); SpareMaps(b, f); SpareMaps(c, e); SpareMaps(c, f); SpareMaps(e, f);
    SpareFar(a, a); SpareFar(b, b); SpareFar(c, c); SpareFar(e, e); SpareFar(f, f);
    var maps := {BBlock(SB, a), BBlock(SB, b), BBlock(SB, c), BBlock(SB, e), BBlock(SB, f)};
    var news := {a, b, c, e, f};
    hide BBlock, Spare;
    FiveDiffer(BBlock(SB, a), BBlock(SB, b), BBlock(SB, c), BBlock(SB, e), BBlock(SB, f));
    FiveDiffer(a, b, c, e, f);
    assert maps !! news;
    assert 32 !in maps + news;
    SubsetSize(maps + news + {32}, logged);
  }

  lemma FiveDiffer(a: nat, b: nat, c: nat, e: nat, f: nat)
    requires a != b && a != c && a != e && a != f && b != c && b != e && b != f && c != e && c != f && e != f
    ensures |{a, b, c, e, f}| == 5
  {
    assert {a, b, c, e, f} == {a, b, c, e} + {f};
  }

  lemma FiveMapped(d: seq<Block>, n: Inode)
    requires FileOk(d, n) && n.size > 7680
    ensures |n.addrs| == NDIRECT + 1
    ensures forall k :: 12 <= k < 17 ==> Slot(d, n, k) != 0
  {
    assert DataSlot(12) == 13 && DataSlot(13) == 14 && DataSlot(14) == 15 && DataSlot(15) == 16;
  }

  /** What a writei that takes inode 0 past block 14 leaves logged. */
  lemma LoggedEleven(d: seq<Block>, ns: seq<Inode>, owner: Owners, logged: set<nat>)
    requires Owns(SB, d, ns, owner) && Logs(SB, Own(), {}, owner, logged) && |ns| > 0 && FileOk(d, ns[0])
    requires ns[0].size > 7680
    requires 32 in logged
    ensures |logged| > MAXOPBLOCKS
  {
    hide Owns, Logs, FileOk, Slot, Own, Spare;
    FiveMapped(d, ns[0]);
    forall k | 12 <= k < 17
      ensures var b := Slot(d, ns[0], k); Spare(b) && b < SIZE && b in logged && BBlock(SB, b) in logged
    {
      NewIsSpare(d, ns, owner, logged, k);
    }
    forall j, k | 12 <= j < k < 17
      ensures Slot(d, ns[0], j) != Slot(d, ns[0], k)
    {
      NewDiffer(d, ns, owner, j, k);
    }
    ElevenBlocks(logged, Slot(d, ns[0], 12), Slot(d, ns[0], 13), Slot(d, ns[0], 14), Slot(d, ns[0], 15),
                 Slot(d, ns[0], 16));
  }

  lemma LargestTouch(off: nat, n: nat)
    requires off + n <= MAXFILE * BSIZE
    ensures Touched(off, n) <= MAXFILE
  {
  }

  /** No longer chunk would do: for every length beyond 1536 bytes that a file can have there is
      an offset at which writei logs more than MAXOPBLOCKS blocks here. */
  method OverrunTransaction(src: seq<Byte>) returns (v: Volume, off: Word, r: int)
    requires MAXCHUNK < |src| <= MAXFILE * BSIZE
    ensures fresh(v) && v.Valid() && r == |src| && |v.logged| > MAXOPBLOCKS
  {
    hide Consistent, Owns, Logs, Own, Blks, Nodes, Node, Touched, LogCost, HomeOf, OthersKept, Content, FileOk, Full;
    hide IBlock;
    ConsistentHere(6144);
    FirstBlockHere(6144);
    OwnSize();
    v := new Volume(SB, Blks(), Nodes(6144), Own());
    off := if 6144 + |src| <= MAXFILE * BSIZE then 6144 else 0;
    LargestTouch(off, |src|);
    var ok;
    ok, r := v.Writei(0, src, off);
    assert ok;
    AfterWrite(v.disk, v.inodes, v.owner);
    LoggedEleven(v.disk, v.inodes, v.owner, v.logged);
  }
}
