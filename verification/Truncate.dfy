/** Truncation: freeing the blocks of one inode, one bit at a time. */
module Truncate {
  import opened Disk
  import opened Blocks
  import opened Files

  const ALL := 141

  /** The order in which itrunc frees the slots: direct, entries, indirect block. */
  function Rank(k: nat): nat {
    if k < INDIRECT then k else if k == INDIRECT then ALL - 1 else k - 1
  }

  /** e is d after the blocks of inode i of rank below r have been freed. */
  ghost predicate FreedTo(sb: SuperBlock, d: seq<Block>, e: seq<Block>, owner: Owners, i: nat, r: nat) {
    && Geometry(sb, d)
    && Geometry(sb, e)
    && (forall c :: sb.nmeta <= c < sb.size ==> e[c] == d[c])
    && (forall c :: 0 <= c < sb.size ==>
          (InUse(sb, e, c) <==> InUse(sb, d, c) && !(c in owner && owner[c].0 == i && Rank(owner[c].1) < r)))
  }

  /** Freeing the block of the next slot: it is still in use, and only it is freed. */
  lemma FreeNext(sb: SuperBlock, d: seq<Block>, e: seq<Block>, ns: seq<Inode>, owner: Owners, i: nat, k: nat)
    requires Owns(sb, d, ns, owner) && i < |ns| && k < NSLOTS && FreedTo(sb, d, e, owner, i, Rank(k))
    ensures var a := Slot(d, ns[i], k);
            if a == 0 then FreedTo(sb, d, e, owner, i, Rank(k) + 1)
            else
              && a < sb.size
              && Geometry(sb, e)
              && InUse(sb, e, a)
              && FreedTo(sb, d, SetUse(sb, e, a, false), owner, i, Rank(k) + 1)
  {
    var a := Slot(d, ns[i], k);
    assert forall l, m :: 0 <= l < NSLOTS && 0 <= m < NSLOTS && Rank(l) == Rank(m) ==> l == m;
    if a == 0 {
      forall c | c in owner && owner[c].0 == i
        ensures Rank(owner[c].1) != Rank(k)
      {
        assert Slot(d, ns[owner[c].0], owner[c].1) == c;
        assert BBlock(sb, c) < sb.nmeta;
      }
    } else {
      forall c | 0 <= c < sb.size
        ensures InUse(sb, SetUse(sb, e, a, false), c) == (c != a && InUse(sb, e, c))
      {
        InUseSet(sb, e, a, false, c);
      }
      forall c | sb.nmeta <= c < sb.size
        ensures SetUse(sb, e, a, false)[c] == d[c]
      {
        assert BBlock(sb, a) < sb.nmeta;
      }
    }
  }

  /** Without an indirect block there is nothing to free past the direct slots. */
  lemma NoIndirect(sb: SuperBlock, d: seq<Block>, e: seq<Block>, ns: seq<Inode>, owner: Owners, i: nat)
    requires Owns(sb, d, ns, owner) && i < |ns| && FreedTo(sb, d, e, owner, i, NDIRECT) && ns[i].addrs[INDIRECT] == 0
    ensures FreedTo(sb, d, e, owner, i, ALL)
  {
    forall c | c in owner && owner[c].0 == i
      ensures Rank(owner[c].1) < NDIRECT
    {
      assert Slot(d, ns[owner[c].0], owner[c].1) == c;
      assert BBlock(sb, c) < sb.nmeta;
    }
  }

  lemma SlotIndirect(d: seq<Block>, n: Inode)
    requires |n.addrs| == NDIRECT + 1
    ensures Slot(d, n, INDIRECT) == n.addrs[INDIRECT]
  {
  }

  lemma SlotEntry(d: seq<Block>, n: Inode, j: nat)
    requires |n.addrs| == NDIRECT + 1 && 0 < n.addrs[INDIRECT] < |d| && j < NINDIRECT
    ensures Slot(d, n, j + INDIRECT + 1) == WordAt(d[n.addrs[INDIRECT]], j)
  {
  }

  lemma IndirectKept(sb: SuperBlock, d: seq<Block>, e: seq<Block>, ns: seq<Inode>, owner: Owners, i: nat)
    requires Owns(sb, d, ns, owner) && i < |ns| && FreedTo(sb, d, e, owner, i, NDIRECT) && ns[i].addrs[INDIRECT] != 0
    ensures ns[i].addrs[INDIRECT] < |d| == |e| && e[ns[i].addrs[INDIRECT]] == d[ns[i].addrs[INDIRECT]]
  {
    SlotIndirect(d, ns[i]);
  }

  lemma FreedAll(sb: SuperBlock, d: seq<Block>, e: seq<Block>, ns: seq<Inode>, owner: Owners, i: nat)
    requires Owns(sb, d, ns, owner) && FreedTo(sb, d, e, owner, i, ALL)
    ensures forall c :: 0 <= c < sb.size ==>
              (InUse(sb, e, c) <==> InUse(sb, d, c) && !(c in owner && owner[c].0 == i))
  {
    assert forall l :: 0 <= l < NSLOTS ==> Rank(l) < ALL;
  }

  function Emptied(): Inode { Inode(0, seq(NDIRECT + 1, _ => 0)) }

  ghost function Without(owner: Owners, i: nat): Owners {
    map c | c in owner && owner[c].0 != i :: owner[c]
  }

  lemma OtherSlotsKept(sb: SuperBlock, d: seq<Block>, e: seq<Block>, ns: seq<Inode>, owner: Owners, i: nat, j: nat,
                       k: nat)
    requires Owns(sb, d, ns, owner) && FreedTo(sb, d, e, owner, i, ALL) && j < |ns| && k < NSLOTS
    ensures Slot(e, ns[j], k) == Slot(d, ns[j], k)
  {
    assert Slot(d, ns[j], INDIRECT) == ns[j].addrs[INDIRECT];
  }

  /** Once all ranks are freed the ownership invariant holds again, without inode i. */
  lemma Truncated(sb: SuperBlock, d: seq<Block>, e: seq<Block>, ns: seq<Inode>, owner: Owners, i: nat)
    requires Owns(sb, d, ns, owner) && i < |ns| && FreedTo(sb, d, e, owner, i, ALL)
    ensures Owns(sb, e, ns[i := Emptied()], Without(owner, i))
  {
    var ms := ns[i := Emptied()];
    forall j, k | 0 <= j < |ns| && 0 <= k < NSLOTS
      ensures Slot(e, ms[j], k) == if j == i then 0 else Slot(d, ns[j], k)
    {
      OtherSlotsKept(sb, d, e, ns, owner, i, j, k);
    }
    assert forall l :: 0 <= l < NSLOTS ==> Rank(l) < ALL;
  }

  lemma TruncatedOthers(sb: SuperBlock, d: seq<Block>, e: seq<Block>, ns: seq<Inode>, owner: Owners, i: nat)
    requires Consistent(sb, d, ns, owner) && i < |ns| && FreedTo(sb, d, e, owner, i, ALL)
    ensures OthersKept(d, ns, e, ns[i := Emptied()], i)
  {
    forall j | 0 <= j < |ns| && j != i
      ensures FileOk(e, ns[j]) && Content(e, ns[j]) == Content(d, ns[j])
    {
      forall k | 0 <= k < NSLOTS
        ensures Slot(e, ns[j], k) == Slot(d, ns[j], k)
      {
        OtherSlotsKept(sb, d, e, ns, owner, i, j, k);
      }
      forall p | 0 <= p < ns[j].size
        ensures FileByte(e, ns[j], p) == FileByte(d, ns[j], p)
      {
        assert Slot(d, ns[j], DataSlot(BlockOf(p))) != 0;
      }
    }
  }
}
