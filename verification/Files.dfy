/** Files as flat byte strings: what a run of reads and writes of single blocks
    amounts to. */
module Files {
  import opened Disk
  import opened Blocks

  /** s with w written over it at off; w may reach past the end. */
  function Spliced(s: seq<Byte>, off: nat, w: seq<Byte>): (r: seq<Byte>)
    requires off <= |s|
    ensures |r| == if off + |w| > |s| then off + |w| else |s|
  {
    if off + |w| <= |s| then s[..off] + w + s[off + |w|..] else s[..off] + w
  }

  lemma SplicedTwice(s: seq<Byte>, off: nat, v: seq<Byte>, w: seq<Byte>)
    requires off <= |s|
    ensures Spliced(Spliced(s, off, v), off + |v|, w) == Spliced(s, off, v + w)
  {
    hide Spliced;
    var once := Spliced(s, off, v);
    var a, b := Spliced(once, off + |v|, w), Spliced(s, off, v + w);
    forall p | 0 <= p < |b|
      ensures p < |a| && a[p] == b[p]
    {
      SplicedAt(s, off, v + w, p);
      SplicedAt(once, off + |v|, w, p);
      if p < |once| {
        SplicedAt(s, off, v, p);
      }
    }
  }

  lemma SplicedAt(s: seq<Byte>, off: nat, w: seq<Byte>, p: nat)
    requires off <= |s| && p < |Spliced(s, off, w)|
    ensures !(off <= p < off + |w|) ==> p < |s|
    ensures Spliced(s, off, w)[p] == if off <= p < off + |w| then w[p - off] else s[p]
  {
  }

  /** One more run of a longer write. */
  lemma SplicedStep(s: seq<Byte>, off: nat, src: seq<Byte>, tot: nat, next: nat)
    requires off <= |s| && tot <= next <= |src|
    ensures off + tot <= |Spliced(s, off, src[..tot])|
    ensures Spliced(Spliced(s, off, src[..tot]), off + tot, src[tot..next]) == Spliced(s, off, src[..next])
  {
    SplicedTwice(s, off, src[..tot], src[tot..next]);
    assert src[..tot] + src[tot..next] == src[..next];
  }

  /** The first |s| bytes of the file are mapped and read as s. */
  ghost predicate Image(d: seq<Block>, n: Inode, s: seq<Byte>) {
    && |n.addrs| == NDIRECT + 1
    && |s| <= MAXFILE * BSIZE
    && MappedTo(d, n, |s|)
    && forall p :: 0 <= p < |s| ==> FileByte(d, n, p) == s[p]
  }

  lemma ImageFits(d: seq<Block>, n: Inode, s: seq<Byte>)
    requires Image(d, n, s)
    ensures |n.addrs| == NDIRECT + 1 && |s| <= MAXFILE * BSIZE
  {
  }

  lemma ContentImage(d: seq<Block>, n: Inode)
    requires FileOk(d, n)
    ensures Image(d, n, Content(d, n))
  {
  }

  lemma ImageContent(d: seq<Block>, n: Inode, s: seq<Byte>)
    requires Image(d, n, s) && n.size == |s|
    ensures FileOk(d, n) && Content(d, n) == s
  {
  }

  lemma GrownImage(d: seq<Block>, ns: seq<Inode>, e: seq<Block>, ms: seq<Inode>, j: nat, s: seq<Byte>)
    requires Grown(d, ns, e, ms) && j < |ns| && Image(d, ns[j], s)
    ensures Image(e, ms[j], s)
  {
    forall p | 0 <= p < |s|
      ensures FileByte(e, ms[j], p) == s[p]
    {
      assert Slot(d, ns[j], DataSlot(BlockOf(p))) != 0;
    }
  }

  /** Growth leaves the contents of every file alone. */
  lemma GrownFile(d: seq<Block>, ns: seq<Inode>, e: seq<Block>, ms: seq<Inode>, j: nat)
    requires Grown(d, ns, e, ms) && j < |ns| && FileOk(d, ns[j])
    ensures FileOk(e, ms[j]) && Content(e, ms[j]) == Content(d, ns[j])
  {
    GrownImage(d, ns, e, ms, j, Content(d, ns[j]));
    ImageContent(e, ms[j], Content(d, ns[j]));
  }

  /** The files other than i read as they did. */
  ghost predicate OthersKept(d: seq<Block>, ns: seq<Inode>, e: seq<Block>, ms: seq<Inode>, i: nat) {
    && |ms| == |ns|
    && forall j :: 0 <= j < |ns| && j != i ==>
         ms[j] == ns[j] && FileOk(d, ns[j]) && FileOk(e, ms[j]) && Content(e, ms[j]) == Content(d, ns[j])
  }

  ghost predicate OthersOk(d: seq<Block>, ns: seq<Inode>, i: nat) {
    forall j :: 0 <= j < |ns| && j != i ==> FileOk(d, ns[j])
  }

  lemma OthersSame(d: seq<Block>, ns: seq<Inode>, e: seq<Block>, ms: seq<Inode>, i: nat)
    requires OthersKept(d, ns, e, ms, i)
    ensures |ms| == |ns| && forall j :: 0 <= j < |ms| && j != i ==> ms[j] == ns[j]
  {
  }

  lemma OthersKeptRefl(d: seq<Block>, ns: seq<Inode>, i: nat)
    requires OthersOk(d, ns, i)
    ensures OthersKept(d, ns, d, ns, i)
  {
  }

  lemma OthersFine(d: seq<Block>, ns: seq<Inode>, e: seq<Block>, ms: seq<Inode>, i: nat)
    requires OthersKept(d, ns, e, ms, i)
    ensures OthersOk(e, ms, i)
  {
  }

  lemma OthersKeptTransitive(d: seq<Block>, ns: seq<Inode>, e: seq<Block>, ms: seq<Inode>, f: seq<Block>,
                             os: seq<Inode>, i: nat)
    requires OthersKept(d, ns, e, ms, i) && OthersKept(e, ms, f, os, i)
    ensures OthersKept(d, ns, f, os, i)
  {
  }

  /** Whatever becomes of inode i itself. */
  lemma Renamed(d: seq<Block>, ns: seq<Inode>, e: seq<Block>, ms: seq<Inode>, i: nat, n: Inode)
    requires OthersKept(d, ns, e, ms, i) && i < |ms|
    ensures OthersKept(d, ns, e, ms[i := n], i)
  {
  }

  lemma Whole(sb: SuperBlock, d: seq<Block>, ns: seq<Inode>, e: seq<Block>, ms: seq<Inode>, owner: Owners, i: nat)
    requires Owns(sb, e, ms, owner) && OthersKept(d, ns, e, ms, i) && i < |ms| && FileOk(e, ms[i])
    ensures Consistent(sb, e, ms, owner)
  {
  }

  lemma SplicedNothing(s: seq<Byte>, off: nat, src: seq<Byte>)
    requires off <= |s|
    ensures Spliced(s, off, src[..0]) == s
    ensures src[..|src|] == src
  {
  }

  /** Inside the flat string, and inside a block that it has begun, every offset is mapped. */
  predicate Boundary(x: nat) { Inner(x) == 0 }

  /** The block that holds offset off of the file; 0 when there is none. */
  function HomeOf(d: seq<Block>, n: Inode, off: nat): Word
    requires |n.addrs| == NDIRECT + 1 && off < MAXFILE * BSIZE
  {
    Slot(d, n, DataSlot(BlockOf(off)))
  }

  lemma HomeIs(d: seq<Block>, n: Inode, off: nat)
    requires |n.addrs| == NDIRECT + 1 && off < MAXFILE * BSIZE
    ensures BlockOf(off) < MAXFILE && DataSlot(BlockOf(off)) < NSLOTS
    ensures HomeOf(d, n, off) == Slot(d, n, DataSlot(BlockOf(off)))
  {
  }

  lemma FirstMapped(d: seq<Block>, n: Inode, s: seq<Byte>, off: nat)
    requires Image(d, n, s) && off < MAXFILE * BSIZE && (off < |s| || (off == |s| && !Boundary(off)))
    ensures HomeOf(d, n, off) != 0
  {
  }

  /** What one block holds of the flat string. */
  lemma ImageRun(d: seq<Block>, n: Inode, s: seq<Byte>, off: nat, m: nat)
    requires Image(d, n, s) && off + m <= |s| && Inner(off) + m <= BSIZE && 0 < m
    requires HomeOf(d, n, off) < |d|
    ensures d[HomeOf(d, n, off)][Inner(off)..Inner(off) + m] == s[off..off + m]
  {
    var run := s[off..off + m];
    forall t | 0 <= t < |run|
      ensures d[HomeOf(d, n, off)][Inner(off) + t] == run[t]
    {
      assert FileByte(d, n, off + t) == s[off + t];
      assert BlockOf(off + t) == BlockOf(off) && Inner(off + t) == Inner(off) + t;
    }
  }

  function PutBytes(b: Block, x: nat, w: seq<Byte>): (r: Block)
    requires x + |w| <= BSIZE
  {
    b[..x] + w + b[x + |w|..]
  }

  /** A store into a data block keeps every slot and the ownership. */
  lemma StoreKeepsSlots(sb: SuperBlock, d: seq<Block>, ns: seq<Inode>, owner: Owners, a: nat, blk: Block)
    requires Owns(sb, d, ns, owner) && a in owner && owner[a].1 != INDIRECT
    ensures Owns(sb, d[a := blk], ns, owner)
    ensures forall j, l :: 0 <= j < |ns| && 0 <= l < NSLOTS ==> Slot(d[a := blk], ns[j], l) == Slot(d, ns[j], l)
  {
    var e := d[a := blk];
    forall j, l | 0 <= j < |ns| && 0 <= l < NSLOTS
      ensures Slot(e, ns[j], l) == Slot(d, ns[j], l)
    {
      assert Slot(d, ns[j], INDIRECT) == ns[j].addrs[INDIRECT];
    }
    forall c | 0 <= c < sb.size
      ensures InUse(sb, e, c) == InUse(sb, d, c)
    {
      assert BBlock(sb, c) < sb.nmeta;
    }
  }

  /** ... changes no other file ... */
  lemma StoreElsewhere(sb: SuperBlock, d: seq<Block>, ns: seq<Inode>, owner: Owners, a: nat, blk: Block, j: nat)
    requires Owns(sb, d, ns, owner) && a in owner && owner[a].1 != INDIRECT && j < |ns| && owner[a].0 != j
    requires FileOk(d, ns[j])
    ensures FileOk(d[a := blk], ns[j]) && Content(d[a := blk], ns[j]) == Content(d, ns[j])
  {
    StoreKeepsSlots(sb, d, ns, owner, a, blk);
    var e := d[a := blk];
    forall p | 0 <= p < ns[j].size
      ensures FileByte(e, ns[j], p) == FileByte(d, ns[j], p)
    {
      assert Slot(d, ns[j], DataSlot(BlockOf(p))) != 0;
    }
  }

  lemma StoreByte(d: seq<Block>, e: seq<Block>, n: Inode, a: nat, off: nat, w: seq<Byte>, p: nat)
    requires |n.addrs| == NDIRECT + 1 && p < MAXFILE * BSIZE && a < |d|
    requires Inner(off) + |w| <= BSIZE && e == d[a := PutBytes(d[a], Inner(off), w)]
    requires Slot(e, n, DataSlot(BlockOf(p))) == Slot(d, n, DataSlot(BlockOf(p)))
    requires Slot(d, n, DataSlot(BlockOf(p))) == a <==> BlockOf(p) == BlockOf(off)
    ensures FileByte(e, n, p) == if off <= p < off + |w| then w[p - off] else FileByte(d, n, p)
  {
    var x, y := Inner(off), Inner(p);
    if BlockOf(p) == BlockOf(off) {
      assert y - x == p - off;
      assert PutBytes(d[a], x, w)[y] == if x <= y < x + |w| then w[y - x] else d[a][y];
    }
  }

  lemma StoreImageOf(d: seq<Block>, e: seq<Block>, n: Inode, a: Word, off: nat, w: seq<Byte>, s: seq<Byte>)
    requires Image(d, n, s) && off <= |s| && 0 < |w| && off + |w| <= MAXFILE * BSIZE
    requires Inner(off) + |w| <= BSIZE && 0 < a < |d| && e == d[a := PutBytes(d[a], Inner(off), w)]
    requires forall q: nat :: q < MAXFILE ==> Slot(e, n, DataSlot(q)) == Slot(d, n, DataSlot(q))
    requires forall q: nat :: q < MAXFILE ==> (Slot(d, n, DataSlot(q)) == a <==> q == BlockOf(off))
    ensures Image(e, n, Spliced(s, off, w))
  {
    var r := Spliced(s, off, w);
    forall p | 0 <= p < |r|
      ensures FileByte(e, n, p) == r[p]
    {
      StoreByte(d, e, n, a, off, w, p);
      if p < |s| {
        assert FileByte(d, n, p) == s[p];
      }
    }
    forall q: nat | q < MAXFILE && q * BSIZE < |r|
      ensures Slot(e, n, DataSlot(q)) != 0
    {
      assert q * BSIZE < |s| || q == BlockOf(off);
    }
  }

  /** ... and splices the bytes into its own. */
  lemma StoreImage(sb: SuperBlock, d: seq<Block>, ns: seq<Inode>, owner: Owners, i: nat, off: nat, w: seq<Byte>,
                   s: seq<Byte>)
    requires Owns(sb, d, ns, owner) && i < |ns| && Image(d, ns[i], s)
    requires off <= |s| && Inner(off) + |w| <= BSIZE && 0 < |w| && off + |w| <= MAXFILE * BSIZE
    requires HomeOf(d, ns[i], off) != 0
    ensures var a := HomeOf(d, ns[i], off);
            a in owner && a < |d| && Image(d[a := PutBytes(d[a], Inner(off), w)], ns[i], Spliced(s, off, w))
  {
    var a := HomeOf(d, ns[i], off);
    StoreKeepsSlots(sb, d, ns, owner, a, PutBytes(d[a], Inner(off), w));
    StoreImageOf(d, d[a := PutBytes(d[a], Inner(off), w)], ns[i], a, off, w, s);
  }

  lemma StoreKeepsOwns(sb: SuperBlock, d: seq<Block>, ns: seq<Inode>, owner: Owners, a: nat, blk: Block)
    requires Owns(sb, d, ns, owner) && a in owner && owner[a].1 != INDIRECT
    ensures Owns(sb, d[a := blk], ns, owner)
  {
    StoreKeepsSlots(sb, d, ns, owner, a, blk);
  }

  /** The home of a byte belongs to its inode, and is no indirect block. */
  lemma HomeOwned(sb: SuperBlock, d: seq<Block>, ns: seq<Inode>, owner: Owners, i: nat, off: nat)
    requires Owns(sb, d, ns, owner) && i < |ns| && off < MAXFILE * BSIZE && HomeOf(d, ns[i], off) != 0
    ensures HomeOf(d, ns[i], off) in owner && owner[HomeOf(d, ns[i], off)].0 == i
    ensures owner[HomeOf(d, ns[i], off)].1 != INDIRECT
  {
  }

  /** Growth and a store into one of i's blocks leave the other files alone. */
  lemma OthersStored(sb: SuperBlock, d: seq<Block>, ns: seq<Inode>, e: seq<Block>, ms: seq<Inode>, owner: Owners,
                     i: nat, a: nat, blk: Block)
    requires Grown(d, ns, e, ms) && Owns(sb, e, ms, owner) && OthersOk(d, ns, i) && i < |ns| && ms == ns[i := ms[i]]
    requires a in owner && owner[a].0 == i && owner[a].1 != INDIRECT
    ensures a < |e| && OthersKept(d, ns, e[a := blk], ms, i)
  {
    forall j | 0 <= j < |ns| && j != i
      ensures ms[j] == ns[j] && FileOk(e[a := blk], ms[j]) && Content(e[a := blk], ms[j]) == Content(d, ns[j])
    {
      GrownFile(d, ns, e, ms, j);
      StoreElsewhere(sb, e, ms, owner, a, blk, j);
    }
  }

  /** The size of an inode plays no part in who owns its blocks. */
  lemma Resized(sb: SuperBlock, d: seq<Block>, ns: seq<Inode>, owner: Owners, i: nat, size: Word)
    requires Owns(sb, d, ns, owner) && i < |ns|
    ensures Owns(sb, d, ns[i := ns[i].(size := size)], owner)
  {
    var ms := ns[i := ns[i].(size := size)];
    assert forall j, l :: 0 <= j < |ns| && 0 <= l < NSLOTS ==> Slot(d, ms[j], l) == Slot(d, ns[j], l);
  }

  /** Setting the size to the length of its image makes that image its contents. */
  lemma ResizedContent(d: seq<Block>, n: Inode, s: seq<Byte>)
    requires Image(d, n, s)
    ensures FileOk(d, n.(size := |s|)) && Content(d, n.(size := |s|)) == s
  {
    var m := n.(size := |s|);
    assert forall l :: 0 <= l < NSLOTS ==> Slot(d, m, l) == Slot(d, n, l);
    assert forall p :: 0 <= p < |s| ==> FileByte(d, m, p) == FileByte(d, n, p);
  }
}
