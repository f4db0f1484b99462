/** kalloc.c and vm.c: the page pool, and the calls that build, grow, shrink, copy and
    free address spaces. */
module Vm {
  import opened PageTables
  import opened AddressSpaces

  const PGSIZE := 4096
  const KERNBASE := 0x8000_0000

  /** A page with every byte set to b. */
  function Filled(b: nat): seq<nat> { seq(PGSIZE, _ => b) }

  /** PGROUNDUP(sz) / PGSIZE. */
  function PagesFor(sz: nat): nat { (sz + PGSIZE - 1) / PGSIZE }

  /** Page a starts below sz exactly when it is one of the pages that sz bytes need. */
  lemma PagesBelow(sz: nat)
    ensures forall a: nat {:trigger a * PGSIZE} :: a * PGSIZE < sz <==> a < PagesFor(sz)
    ensures sz <= KERNBASE ==> PagesFor(sz) <= USERPAGES
  {
  }

  lemma FullSize()
    ensures PagesFor(0) == 0 && PagesFor(KERNBASE) == USERPAGES
  {
  }

  /** kmap, in pages, for a kernel whose data starts at page `kdata`. */
  function Kmap(kdata: nat): seq<Range>
    requires 0x80100 < kdata < 0x8E000
  {
    [Range(0x80000, 0x800FF, 0, PTE_W),
     Range(0x80100, kdata - 1, 0x100, 0),
     Range(kdata, 0x8DFFF, kdata - 0x80000, PTE_W),
     Range(0xFE000, 0xFFFFF, 0xFE000, PTE_W)]
  }

  /** The kernel's address space, page by page: from KERNBASE up all of physical memory, in which
      only the text is not writable; the devices at their own addresses; and nothing else. */
  function KernelPage(kdata: nat, v: nat): Pte {
    if 0x80000 <= v < 0x8E000 then Present(v - 0x80000, if 0x80100 <= v < kdata then 0 else PTE_W)
    else if 0xFE000 <= v < 0x100000 then Present(v, PTE_W)
    else Absent
  }

  /** kmap never maps a page twice, so setupkvm meets no "remap" panic, and maps just that. */
  lemma KmapFits(kdata: nat, v: nat)
    requires 0x80100 < kdata < 0x8E000
    ensures KmapOk(Kmap(kdata)) && KernelEntry(Kmap(kdata), v) == KernelPage(kdata, v)
  {
    var ks := Kmap(kdata);
    assert ks[..3][..2] == ks[..2] && ks[..3][2] == ks[2];
    assert ks[..2][..1] == ks[..1] && ks[..2][1] == ks[1] && ks[..1][0] == ks[0] && ks[..1][..0] == [];
    assert KernelEntry(ks, v) == if Covers(ks[3], v) then Present(ks[3].phys + (v - ks[3].first), ks[3].perm)
             else KernelEntry(ks[..3], v);
    assert KernelEntry(ks[..3], v) == if Covers(ks[2], v) then Present(ks[2].phys + (v - ks[2].first), ks[2].perm)
             else KernelEntry(ks[..2], v);
    assert KernelEntry(ks[..2], v) == if Covers(ks[1], v) then Present(ks[1].phys + (v - ks[1].first), ks[1].perm)
             else KernelEntry(ks[..1], v);
    assert KernelEntry(ks[..1], v) == if Covers(ks[0], v) then Present(ks[0].phys + (v - ks[0].first), ks[0].perm)
             else Absent;
  }

  // Who may touch what ------------------------------------------------------------------------------

  predicate Flag(flags: nat, bit: nat)
    requires bit > 0
  {
    flags / bit % 2 == 1
  }

  /** User code may read page v: the directory and the table both say so. */
  predicate UserMay(mem: Memory, d: nat, v: nat) {
    && HasTable(mem, d, v) && Flag(Slot(mem, d, v / NENTRIES).flags, PTE_U)
    && Entry(mem, d, v).Present? && Flag(Entry(mem, d, v).flags, PTE_U)
  }

  predicate UserMayWrite(mem: Memory, d: nat, v: nat) {
    && UserMay(mem, d, v)
    && Flag(Slot(mem, d, v / NENTRIES).flags, PTE_W) && Flag(Entry(mem, d, v).flags, PTE_W)
  }

  /** The entry of the page alone decides. */
  lemma UserMayIff(pool: seq<nat>, mem: Memory, role: Roles, dirs: set<nat>, d: nat, v: nat)
    requires Inv(pool, mem, role, dirs) && d in dirs && v < NENTRIES * NENTRIES
    ensures UserMay(mem, d, v) <==> Entry(mem, d, v).Present? && Flag(Entry(mem, d, v).flags, PTE_U)
    ensures UserMayWrite(mem, d, v) <==>
              Entry(mem, d, v).Present? && Flag(Entry(mem, d, v).flags, PTE_U) && Flag(Entry(mem, d, v).flags, PTE_W)
  {
    assert Slot(mem, d, v / NENTRIES).Present? ==> Slot(mem, d, v / NENTRIES).flags == 6;
  }

  /** In an address space that setupkvm began, user code can touch nothing from KERNBASE up. */
  lemma KernelIsClosed(pool: seq<nat>, mem: Memory, role: Roles, dirs: set<nat>, d: nat, kdata: nat, n: nat, v: nat)
    requires Inv(pool, mem, role, dirs) && d in dirs && 0x80100 < kdata < 0x8E000
    requires KernelAbove(mem, d, Kmap(kdata), n) && n <= USERPAGES <= v < NENTRIES * NENTRIES
    ensures !UserMay(mem, d, v)
  {
    hide Inv, Kmap, KernelEntry, Entry, HasTable, Slot;
    KmapFits(kdata, v);
    UserMayIff(pool, mem, role, dirs, d, v);
  }

  /** And what allocuvm has added it can read and write. */
  lemma GrownIsOpen(pool: seq<nat>, role: Roles, mem: Memory, after: Memory, now: Roles, dirs: set<nat>, d: nat,
                    lo: nat, hi: nat, v: nat)
    requires Inv(pool, after, now, dirs) && d in dirs && lo <= v < hi <= USERPAGES
    requires Grown(role, mem, after, dirs, d, lo, hi, PTE_W + PTE_U)
    ensures UserMayWrite(after, d, v)
  {
    hide Inv, Entry, HasTable, Slot;
    UserMayIff(pool, after, now, dirs, d, v);
  }

  /** The slots of a directory that kmap reaches. */
  predicate KmapSlot(i: nat) { 512 <= i < 568 || 1016 <= i < 1024 }

  lemma KmapReaches(kdata: nat, i: nat)
    requires 0x80100 < kdata < 0x8E000
    ensures Reached(Kmap(kdata), 0, i) <==> KmapSlot(i)
  {
    var ks := Kmap(kdata);
    assert SlotOf(ks[0], i) <==> i == 512;
    assert SlotOf(ks[3], i) <==> 1016 <= i < 1024;
    assert SlotOf(ks[1], i) || SlotOf(ks[2], i) <==> 512 <= i < 568;
  }

  function KmapTables(b: nat): nat {
    (if b <= 512 then 0 else if b < 568 then b - 512 else 56) + (if b <= 1016 then 0 else if b < 1024 then b - 1016
      else 8)
  }

  lemma {:induction false} KmapCount(kdata: nat, b: nat)
    requires 0x80100 < kdata < 0x8E000
    ensures Tables(Kmap(kdata), 0, b) == KmapTables(b)
  {
    if b == 0 {
    } else {
      hide Reached, Kmap;
      KmapReaches(kdata, b - 1);
      KmapCount(kdata, b - 1);
    }
  }

  /** Wherever the kernel's data starts, a directory takes 65 pages: itself and 64 tables. */
  lemma KmapNeeds(kdata: nat)
    requires 0x80100 < kdata < 0x8E000
    ensures 1 + Tables(Kmap(kdata), 0, NENTRIES) == 65
  {
    hide Tables, Kmap;
    KmapCount(kdata, NENTRIES);
  }

  class Machine {
    var pool: seq<nat>          // kmem.freelist, head first
    var mem: Memory             // contents of directories and tables
    var data: Data              // contents of user pages
    ghost var role: Roles
    ghost var dirs: set<nat>

    ghost predicate Valid()
      reads this
    {
      Inv(pool, mem, role, dirs)
    }

    method Kalloc() returns (ok: bool, p: nat)
      requires Valid()
      modifies this`pool, this`role
      ensures Valid() && ok == (old(pool) != [])
      ensures !ok ==> pool == old(pool) && role == old(role)
      ensures ok ==> IsRole(old(role), p, Free) && role == old(role)[p := Elsewhere] && pool == old(pool)[1..]
    {
      if pool == [] {
        return false, 0;
      }
      AllocKeeps(pool, mem, role, dirs);
      p := pool[0];
      pool := pool[1..];
      role := role[p := Elsewhere];
      return true, p;
    }

    method Kfree(p: nat)
      requires Valid() && IsRole(role, p, Elsewhere)
      modifies this`pool, this`mem, this`data, this`role
      ensures Valid() && pool == [p] + old(pool) && mem == old(mem) - {p} && role == old(role)[p := Free]
      ensures SameEntries(old(mem), mem, dirs) && KeptUsed(role, old(data), data) && FreedOnly(old(role), role)
    {
      FreeKeeps(pool, mem, role, dirs, p);
      RoleTables(mem, role, dirs, p, Free);
      ForgetTables(mem, role[p := Free], dirs, p);
      hide Inv;
      pool := [p] + pool;
      mem := mem - {p};
      data := data[p := Filled(1)];
      role := role[p := Free];
    }

    /** Frees the user pages from newsz up to oldsz; page for page what the plain walk frees. */
    method Deallocuvm(d: nat, oldsz: nat, newsz: nat) returns (r: nat)
      requires Valid() && d in dirs && oldsz <= KERNBASE
      modifies this`pool, this`mem, this`data, this`role
      ensures Valid()
      ensures r == if newsz >= oldsz then oldsz else newsz
      ensures newsz >= oldsz ==> pool == old(pool) && mem == old(mem) && data == old(data) && role == old(role)
      ensures newsz < oldsz ==>
                && Pages(pool, mem) == PlainWalk(Pages(old(pool), old(mem)), d, PagesFor(newsz), PagesFor(oldsz))
                && OnlyCleared(old(mem), mem, dirs, d, PagesFor(newsz), PagesFor(oldsz))
                && role == Cleared(old(role), d, PagesFor(newsz), PagesFor(oldsz))
                && KeptUsed(role, old(data), data)
    {
      if newsz >= oldsz {
        return oldsz;
      }
      hide Inv, PlainWalk, Cleared, OnlyCleared;
      FreeRange(d, PagesFor(newsz), PagesFor(oldsz));
      return newsz;
    }

    /** The loop of deallocuvm, which jumps over absent tables. */
    method FreeRange(d: nat, lo: nat, hi: nat)
      requires Valid() && d in dirs && lo <= hi <= USERPAGES
      modifies this`pool, this`mem, this`data, this`role
      ensures Valid() && Pages(pool, mem) == PlainWalk(Pages(old(pool), old(mem)), d, lo, hi)
      ensures OnlyCleared(old(mem), mem, dirs, d, lo, hi) && role == Cleared(old(role), d, lo, hi)
      ensures KeptUsed(role, old(data), data)
    {
      hide Inv, PlainWalk, Cleared, OnlyCleared, HasTable;
      ghost var s0, roles, before := Pages(pool, mem), role, mem;
      var a := lo;
      ClearedNothing(role, d, lo);
      ClearedNone(mem, dirs, d, lo);
      while a < hi
        invariant lo <= a && Valid()
        invariant PlainWalk(s0, d, lo, hi) == PlainWalk(Pages(pool, mem), d, a, hi)
        invariant KeptUsed(role, old(data), data)
        invariant OnlyCleared(before, mem, dirs, d, lo, Least(a, hi)) && role == Cleared(roles, d, lo, Least(a, hi))
      {
        if !HasTable(mem, d, a) {
          var next := NextTable(a);
          NoTableUnmapped(mem, d, a);
          WalkSkips(Pages(pool, mem), d, a, next, hi);
          UnmappedPart(mem, d, a, Least(next, hi), next);
          Skipped(pool, before, mem, roles, dirs, d, lo, a, Least(next, hi));
          a := next;
        } else {
          WalkStep(Pages(pool, mem), d, a, hi);
          FreePage(d, a, lo, roles, before);
          a := a + 1;
        }
      }
      WalkEnds(Pages(pool, mem), d, a, hi);
    }

    /** One turn of the walk over a page whose table exists. */
    method FreePage(d: nat, a: nat, ghost lo: nat, ghost roles: Roles, ghost before: Memory)
      requires Valid() && d in dirs && lo <= a < USERPAGES && HasTable(mem, d, a)
      requires OnlyCleared(before, mem, dirs, d, lo, a) && role == Cleared(roles, d, lo, a)
      modifies this`pool, this`mem, this`data, this`role
      ensures Valid() && Pages(pool, mem) == FreeAt(Pages(old(pool), old(mem)), d, a)
      ensures OnlyCleared(before, mem, dirs, d, lo, a + 1) && role == Cleared(roles, d, lo, a + 1)
      ensures KeptUsed(role, old(data), data)
      ensures FreedOnly(old(role), role)
    {
      hide Inv, SetEntry, FreeAt, Cleared, OnlyCleared, SameEntries, OneEntryChanged, Entry, HasTable;
      var e := Entry(mem, d, a);
      if e.Absent? {
        SkippedOne(pool, before, mem, roles, dirs, d, lo, a);
        FreeAtNothing(Pages(pool, mem), d, a);
      } else {
        UnmapKeeps(pool, mem, role, dirs, d, a);
        FreeAtIs(Pages(pool, mem), role, dirs, d, a);
        mem := SetEntry(mem, d, a, Absent);
        role := role[e.frame := Elsewhere];
        ghost var after := mem;
        Kfree(e.frame);
        ClearedAt(old(pool), old(mem), after, mem, roles, dirs, before, d, lo, a, e.frame);
      }
    }

    /** walkpgdir with alloc set. */
    method Walk(d: nat, v: nat) returns (ok: bool)
      requires Valid() && d in dirs && v < NENTRIES * NENTRIES
      modifies this`pool, this`mem, this`role
      ensures Valid() && SameEntries(old(mem), mem, dirs) && Taken(old(role), role, d, 0, 0)
      ensures ok ==> Hooked(old(mem), mem, d, v) && |old(pool)| == |pool| + (if HasTable(old(mem), d, v) then 0 else 1)
      ensures !ok <==> !HasTable(old(mem), d, v) && old(pool) == []
      ensures !ok ==> pool == old(pool) && mem == old(mem) && role == old(role)
    {
      hide Inv, AddTable, Entry, SameEntries;
      SameRefl(mem, dirs);
      if HasTable(mem, d, v) {
        return true;
      }
      var t;
      ok, t := Kalloc();
      if ok {
        AddTableKeeps(pool, mem, role, dirs, d, v / NENTRIES, t, PTE_W + PTE_U);
        AddTableHooks(mem, d, v, t, PTE_W + PTE_U);
        mem := AddTable(mem, d, v / NENTRIES, t, PTE_W + PTE_U);
        role := role[t := Table(d, v / NENTRIES)];
      }
    }

    /** One turn of mappages: page v of d mapped to p. */
    method MapPage(d: nat, v: nat, p: nat, perm: nat) returns (ok: bool)
      requires Valid() && d in dirs && v < NENTRIES * NENTRIES && Entry(mem, d, v).Absent?
      requires v < USERPAGES ==> IsRole(role, p, Elsewhere)
      modifies this`pool, this`mem, this`role
      ensures Valid()
      ensures ok ==> OneEntryChanged(old(mem), mem, dirs, d, v, Present(p, perm))
      ensures ok ==> Hooked(old(mem), mem, d, v) && |old(pool)| == |pool| + (if HasTable(old(mem), d, v) then 0 else 1)
      ensures ok && v < USERPAGES ==> Taken(old(role)[p := User(d, v)], role, d, 0, 0)
      ensures ok && v >= USERPAGES ==> Taken(old(role), role, d, 0, 0)
      ensures !ok ==> pool == old(pool) == [] && mem == old(mem) && role == old(role) && !HasTable(mem, d, v)
    {
      hide Inv, Entry, SetEntry, HasTable, Hooked;
      ok := Walk(d, v);
      if ok {
        HookedTable(old(mem), mem, d, v);
        if v < USERPAGES {
          MapUserKeeps(pool, mem, role, dirs, d, v, p, perm);
        } else {
          MapKernelKeeps(pool, mem, role, dirs, d, v, Present(p, perm));
        }
        TableWhole(pool, mem, role, dirs, d, v);
        SetHooks(pool, old(mem), mem, role, dirs, d, v, Present(p, perm));
        mem := SetEntry(mem, d, v, Present(p, perm));
        role := if v < USERPAGES then role[p := User(d, v)] else role;
      }
    }

    /** mappages over a kernel range. */
    method MapRange(d: nat, r: Range) returns (ok: bool)
      requires Valid() && d in dirs && USERPAGES <= r.first <= r.last < NENTRIES * NENTRIES
      requires Unmapped(mem, d, r.first, r.last + 1)
      modifies this`pool, this`mem, this`role
      ensures Valid() && Taken(old(role), role, d, 0, 0)
      ensures exists a :: r.first <= a <= r.last + 1 && RangeMapped(old(mem), mem, dirs, d, r, a)
                && (ok <==> a == r.last + 1)
      ensures |old(pool)| == |pool| + Missing(old(mem), d, 0, NENTRIES) - Missing(mem, d, 0, NENTRIES)
      ensures HookedWithin(old(mem), mem, d, r)
      ensures !ok ==> pool == [] && exists v :: Covers(r, v) && !HasTable(mem, d, v)
    {
      hide Inv, Entry, OneEntryChanged, Hooked, HasTable, Missing;
      var a, phys := r.first, r.phys;
      RangeNothing(mem, dirs, d, r);
      TakenNothing(role, d, 0);
      while true
        invariant r.first <= a <= r.last && phys == r.phys + (a - r.first)
        invariant Valid() && Taken(old(role), role, d, 0, 0) && RangeMapped(old(mem), mem, dirs, d, r, a)
        invariant |old(pool)| == |pool| + Missing(old(mem), d, 0, NENTRIES) - Missing(mem, d, 0, NENTRIES)
        invariant HookedWithin(old(mem), mem, d, r)
        decreases r.last - a
      {
        ghost var m1, r1 := mem, role;
        RangeStillClear(old(mem), mem, dirs, d, r, a);
        ok := MapPage(d, a, phys, r.perm);
        if !ok {
          assert Covers(r, a);
          return;
        }
        MissingHooked(m1, mem, d, a, 0, NENTRIES);
        HookedMore(old(mem), m1, mem, d, r, a);
        RangeOne(old(mem), m1, mem, dirs, d, r, a);
        TakenTwice(old(role), r1, role, d);
        if a == r.last {
          break;
        }
        a, phys := a + 1, phys + 1;
      }
    }

    /** Frees an address space: each of its pages goes back to the pool, once. */
    method Freevm(d: nat)
      requires Valid() && d in dirs
      modifies this
      ensures Valid() && dirs == old(dirs) - {d} && role == Released(old(role), d)
      ensures SameEntries(old(mem), mem, dirs) && KeptUsed(role, old(data), data)
    {
      hide Inv, Released, Cleared, OnlyCleared, PlainWalk, Detached, TablesFreed, SameEntries, Unmapped, Slots, Entry;
      FullSize();
      var _ := Deallocuvm(d, KERNBASE, 0);
      Emptied(old(pool), old(mem), old(role), pool, mem, dirs, d);
      TakenApart(pool, mem, role, dirs, d, old(data), data);
      ghost var slots, m1 := mem[d], mem;
      dirs, role := dirs - {d}, Detached(role, d);
      label Bare:
      FreeTables(d);
      TablesFreedDir(old@Bare(role), slots, d);
      ghost var m2 := mem;
      Kfree(d);
      SameStill(m1, m2, mem, dirs);
      SameStill(old(mem), m1, mem, dirs);
    }

    /** The loop of freevm over the directory's slots. */
    method FreeTables(d: nat)
      requires Valid() && d in mem && Slots(role, mem[d], d)
      modifies this`pool, this`mem, this`data, this`role
      ensures Valid() && role == TablesFreed(old(role), old(mem[d]), NENTRIES)
      ensures SameEntries(old(mem), mem, dirs) && KeptUsed(role, old(data), data) && FreedOnly(old(role), role)
    {
      hide Inv, TablesFreed, SameEntries, Slots, Entry, KeptUsed, FreedOnly;
      ghost var slots := mem[d];
      SlotsWhole(role, slots, d);
      KeptRefl(role, data);
      SameRefl(mem, dirs);
      TablesFreedNone(role, slots);
      var i := 0;
      while i < NENTRIES
        invariant 0 <= i <= NENTRIES && Valid() && d in mem && mem[d] == slots
        invariant role == TablesFreed(old(role), slots, i) && SameEntries(old(mem), mem, dirs)
        invariant KeptUsed(role, old(data), data) && FreedOnly(old(role), role)
      {
        TablesFreedOne(old(role), slots, d, i);
        if mem[d][i].Present? {
          ghost var m2, r2, d2 := mem, role, data;
          Kfree(mem[d][i].frame);
          SameStill(old(mem), m2, mem, dirs);
          KeptMore(old(role), r2, role, old(data), d2, data);
        }
        i := i + 1;
      }
    }

    /** A directory with just the kernel's mappings; failing, every page is back as it was. */
    method Setupkvm(ks: seq<Range>) returns (ok: bool, d: nat)
      requires Valid() && KmapOk(ks)
      modifies this
      ensures Valid()
      ensures ok ==> dirs == old(dirs) + {d} && IsRole(old(role), d, Free) && Taken(old(role)[d := Dir], role, d, 0, 0)
      ensures ok ==> KernelOnly(mem, d, ks) && SameEntries(old(mem), mem, old(dirs)) && data == old(data)
      ensures ok ==> |old(pool)| == |pool| + 1 + NENTRIES - Missing(mem, d, 0, NENTRIES) && Within(mem, d, ks, 0)
      ensures !ok ==> dirs == old(dirs) && role == old(role) && SameEntries(old(mem), mem, dirs)
      ensures ok <==> |old(pool)| >= 1 + Tables(ks, 0, NENTRIES)
      ensures KeptUsed(old(role), old(data), data)
    {
      hide Inv, KernelOnly, KernelAbove, SameEntries, Taken, Released, RangeMapped, Unmapped, KmapOk, KeptUsed;
      hide Missing, Tables, Within, HookedWithin, HasTable;
      KeptRefl(role, data);
      SameRefl(mem, dirs);
      ok, d := Kalloc();
      if !ok {
        return;
      }
      NewDirKeeps(pool, mem, role, dirs, d);
      NewDirTaken(old(pool), old(mem), old(role), dirs, d);
      NoKernelYet(mem[d := Zeroed()], d, ks);
      MissingFresh(mem, d);
      WithinFresh(mem, d, ks);
      mem, role, dirs := mem[d := Zeroed()], role[d := Dir], dirs + {d};
      var k := 0;
      while k < |ks|
        invariant 0 <= k <= |ks| && Valid() && dirs == old(dirs) + {d} && data == old(data)
        invariant KernelOnly(mem, d, ks[..k]) && SameEntries(old(mem), mem, old(dirs))
        invariant Taken(old(role)[d := Dir], role, d, 0, 0)
        invariant |old(pool)| == |pool| + 1 + NENTRIES - Missing(mem, d, 0, NENTRIES) && Within(mem, d, ks, 0)
      {
        ghost var m1, r1 := mem, role;
        RangeClear(mem, d, ks, k);
        ok := MapRange(d, ks[k]);
        RangeOthers(old(mem), m1, mem, dirs, old(dirs), d, ks[k]);
        TakenTwice(old(role)[d := Dir], r1, role, d);
        WithinRange(m1, mem, d, ks, k);
        if !ok {
          ghost var v :| Covers(ks[k], v) && !HasTable(mem, d, v);
          RangeShort(mem, d, ks, k, v);
          ghost var m2, r2 := mem, role;
          Freevm(d);
          FreshReleased(old(pool), old(mem), old(role), r2, old(dirs), d, 0);
          SameStill(old(mem), m2, mem, dirs);
          return;
        }
        RangeAdded(m1, mem, dirs, d, ks, k);
        k := k + 1;
      }
      assert ks[..|ks|] == ks;
      OnlyIsAbove(mem, d, ks);
      AllReached(mem, d, ks, 0);
    }

    /** Grows d from oldsz to newsz bytes with zeroed pages; failing, every mapping is as it
        was and every page free or owned as it was, but for page tables kept by d. */
    method Allocuvm(d: nat, oldsz: nat, newsz: nat) returns (r: nat)
      requires Valid() && d in dirs
      requires newsz < KERNBASE ==> Unmapped(mem, d, PagesFor(oldsz), PagesFor(newsz))
      modifies this`pool, this`mem, this`data, this`role
      ensures Valid() && KeptUsed(old(role), old(data), data)
      ensures newsz >= KERNBASE ==> r == 0
      ensures newsz < KERNBASE && newsz < oldsz ==> r == oldsz
      ensures newsz >= KERNBASE || newsz < oldsz ==>
                pool == old(pool) && mem == old(mem) && data == old(data) && role == old(role)
      ensures oldsz <= newsz < KERNBASE ==> r == 0 || r == newsz
      ensures oldsz <= newsz < KERNBASE && r == newsz ==>
                && Taken(old(role), role, d, PagesFor(oldsz), PagesFor(newsz))
                && Grown(old(role), old(mem), mem, dirs, d, PagesFor(oldsz), PagesFor(newsz), PTE_W + PTE_U)
                && AllHold(mem, data, d, PagesFor(oldsz), PagesFor(newsz), Filled(0))
      ensures oldsz <= newsz < KERNBASE && r != newsz ==>
                SameEntries(old(mem), mem, dirs) && Taken(old(role), role, d, 0, 0)
      ensures oldsz <= newsz < KERNBASE && newsz > 0 ==>
                (r == newsz <==> |old(pool)| >= Need(old(mem), d, PagesFor(oldsz), PagesFor(newsz)))
    {
      hide Inv, Entry, Unmapped, Taken, Grown, AllHold, SameEntries, OneEntryChanged, KeptUsed, FreedOnly, Cleared;
      hide OnlyCleared, PlainWalk;
      KeptRefl(role, data);
      if newsz >= KERNBASE {
        return 0;
      }
      if newsz < oldsz {
        return oldsz;
      }
      var ok := GrowRange(d, PagesFor(oldsz), PagesFor(newsz));
      if !ok {
        return 0;
      }
      return newsz;
    }

    /** The loop of allocuvm. */
    method GrowRange(d: nat, lo: nat, hi: nat) returns (ok: bool)
      requires Valid() && d in dirs && lo <= hi <= USERPAGES && Unmapped(mem, d, lo, hi)
      modifies this`pool, this`mem, this`data, this`role
      ensures Valid() && KeptUsed(old(role), old(data), data)
      ensures ok ==>
                Taken(old(role), role, d, lo, hi) && Grown(old(role), old(mem), mem, dirs, d, lo, hi, PTE_W + PTE_U)
      ensures ok ==> AllHold(mem, data, d, lo, hi, Filled(0))
      ensures !ok ==> SameEntries(old(mem), mem, dirs) && Taken(old(role), role, d, 0, 0)
      ensures ok <==> |old(pool)| >= Need(old(mem), d, lo, hi)
    {
      hide Inv, Entry, Unmapped, Taken, Grown, AllHold, SameEntries, OneEntryChanged, KeptUsed, FreedOnly, Filled;
      hide Cleared, OnlyCleared, PlainWalk, Missing, Top, Hooked, HasTable;
      ghost var s, t := lo / NENTRIES, Top(lo, hi);
      KeptRefl(role, data);
      TakenNothing(role, d, lo);
      GrownNothing(role, mem, dirs, d, lo, PTE_W + PTE_U);
      HoldNothing(mem, data, d, lo, Filled(0));
      var a := lo;
      while a < hi
        invariant lo <= a <= hi && Valid() && KeptUsed(old(role), old(data), data)
        invariant Taken(old(role), role, d, lo, a) && Grown(old(role), old(mem), mem, dirs, d, lo, a, PTE_W + PTE_U)
        invariant AllHold(mem, data, d, lo, a, Filled(0))
        invariant |old(pool)| == |pool| + (a - lo) + Missing(old(mem), d, s, t) - Missing(mem, d, s, t)
      {
        ghost var m1, r1, p1, d1 := mem, role, pool, data;
        var got, p := Kalloc();
        if !got {
          FreeRange(d, lo, hi);
          Undone(old(pool), old(mem), m1, mem, old(role), r1, dirs, d, lo, a, hi, PTE_W + PTE_U);
          KeptUndone(old(role), role, d, old(data), d1, data);
          return false;
        }
        data := data[p := Filled(0)];
        SlotInTop(lo, a, hi);
        GrownClear(old(role), old(mem), mem, dirs, d, lo, a, hi, PTE_W + PTE_U);
        var mapped := MapPage(d, a, p, PTE_W + PTE_U);
        TakenFree(old(role), r1, d, lo, a, p);
        KeptFresh(old(role), old(data), d1, p, Filled(0));
        if !mapped {
          TableMissing(mem, d, a, s, t);
          ghost var r2, d2 := role, data;
          FreeRange(d, lo, hi);
          InHand(r1, d, lo, hi, p);
          ghost var m3, r3, d3 := mem, role, data;
          Kfree(p);
          Undone(old(pool), old(mem), m1, m3, old(role), r1, dirs, d, lo, a, hi, PTE_W + PTE_U);
          SameStill(old(mem), m3, mem, dirs);
          KeptTwice(r3, role, d2, d3, data);
          KeptUndone(old(role), role, d, old(data), d2, data);
          return false;
        }
        MissingHooked(m1, mem, d, a, s, t);
        TakenOne(old(role), r1, role, d, lo, a, p);
        GrownOne(old(role), old(mem), m1, mem, dirs, d, lo, a, p, PTE_W + PTE_U);
        HoldOne(p1, m1, mem, r1, dirs, d1, d, lo, a, p, PTE_W + PTE_U, Filled(0));
        a := a + 1;
      }
      RangeHasTables(old(role), old(mem), mem, dirs, d, lo, hi, PTE_W + PTE_U);
      return true;
    }

    /** A child's copy of the first sz bytes of src: same contents and flags in fresh pages;
        failing, every page is back as it was. */
    method Copyuvm(src: nat, sz: nat, ks: seq<Range>) returns (ok: bool, d: nat)
      requires Valid() && KmapOk(ks) && src in dirs && sz <= KERNBASE
      requires forall w :: 0 <= w < PagesFor(sz) ==> Entry(mem, src, w).Present?
      modifies this
      ensures Valid() && KeptUsed(old(role), old(data), data)
      ensures ok ==>
                && dirs == old(dirs) + {d}
                && IsRole(old(role), d, Free)
                && Taken(old(role)[d := Dir], role, d, 0, PagesFor(sz))
      ensures ok ==> SameEntries(old(mem), mem, old(dirs)) && KernelAbove(mem, d, ks, PagesFor(sz))
      ensures ok ==> Copied(old(role), old(mem), old(data), src, mem, data, d, PagesFor(sz))
      ensures !ok ==> dirs == old(dirs) && role == old(role) && SameEntries(old(mem), mem, dirs)
      ensures ok <==> |old(pool)| >= 1 + PagesFor(sz) + Tables(ks, PagesFor(sz), NENTRIES)
    {
      hide Inv, Entry, Taken, SameEntries, OneEntryChanged, KeptUsed, FreedOnly, KmapOk, KernelOnly, KernelAbove;
      hide Copied, Released, Missing, Tables, Within, HasTable, PagesFor;
      PagesBelow(sz);
      TablesGrow(ks, 0, PagesFor(sz), NENTRIES);
      ok, d := Setupkvm(ks);
      if !ok {
        return;
      }
      CopyStart(old(role), old(mem), old(data), src, mem, data, d, ks);
      NewDirTaken(old(pool), old(mem), old(role), old(dirs), d);
      var i, n := 0, PagesFor(sz);
      WithinMore(mem, d, ks, 0, n);
      while i < n
        invariant 0 <= i <= n && Valid() && KeptUsed(old(role), old(data), data) && dirs == old(dirs) + {d}
        invariant SameEntries(old(mem), mem, old(dirs)) && KernelAbove(mem, d, ks, i)
        invariant Taken(old(role)[d := Dir], role, d, 0, i)
        invariant Copied(old(role), old(mem), old(data), src, mem, data, d, i)
        invariant |old(pool)| == |pool| + 1 + i + NENTRIES - Missing(mem, d, 0, NENTRIES) && Within(mem, d, ks, n)
      {
        ghost var m0 := mem;
        TablesAtLeast(mem, d, ks, n, NENTRIES);
        ok := CopyPage(src, d, i, ks, old(pool), old(mem), old(data), old(role), old(dirs));
        if !ok {
          if !HasTable(m0, d, i) {
            PageShort(m0, d, ks, n, i);
          }
          ghost var m1, r1, d1 := mem, role, data;
          Freevm(d);
          FreshReleased(old(pool), old(mem), old(role), r1, old(dirs), d, i);
          SameStill(old(mem), m1, mem, dirs);
          KeptBack(old(role), old(data), d1, data);
          return;
        }
        WithinPage(m0, mem, d, ks, n, i);
        i := i + 1;
      }
      CopiedPresent(old(role), old(mem), old(data), src, mem, data, d, n);
      AllReached(mem, d, ks, n);
    }

    /** One turn of copyuvm's loop. */
    method CopyPage(src: nat, d: nat, i: nat, ghost ks: seq<Range>,
                    ghost pool0: seq<nat>, ghost mem0: Memory, ghost data0: Data, ghost role0: Roles,
                      ghost dirs0: set<nat>)
      returns (ok: bool)
      requires Valid() && Inv(pool0, mem0, role0, dirs0) && KmapOk(ks) && src in dirs0 && d !in dirs0 && i < USERPAGES
      requires Entry(mem0, src, i).Present?
      requires KeptUsed(role0, data0, data) && dirs == dirs0 + {d} && SameEntries(mem0, mem, dirs0)
      requires KernelAbove(mem, d, ks, i)
      requires IsRole(role0, d, Free) && Taken(role0[d := Dir], role, d, 0, i)
      requires Copied(role0, mem0, data0, src, mem, data, d, i)
      modifies this`pool, this`mem, this`data, this`role
      ensures Valid() && KeptUsed(role0, data0, data) && SameEntries(mem0, mem, dirs0)
      ensures ok ==> KernelAbove(mem, d, ks, i + 1) && Taken(role0[d := Dir], role, d, 0, i + 1)
      ensures ok ==> Copied(role0, mem0, data0, src, mem, data, d, i + 1)
      ensures !ok ==> Taken(role0[d := Dir], role, d, 0, i)
      ensures ok ==> |old(pool)| == |pool| + 1 + Missing(old(mem), d, 0, NENTRIES) - Missing(mem, d, 0, NENTRIES)
      ensures ok ==> Hooked(old(mem), mem, d, i)
      ensures !ok ==> |old(pool)| <= 1 && (|old(pool)| == 1 ==> !HasTable(old(mem), d, i))
    {
      hide Inv, Entry, Taken, SameEntries, OneEntryChanged, KeptUsed, FreedOnly, KmapOk, KernelOnly, KernelAbove;
      hide Copied, Released, Missing, Hooked, HasTable;
      ghost var p1, m1, r1, d1 := pool, mem, role, data;
      SourceKept(mem0, mem, dirs0, src, i);
      UserIsUsed(pool0, mem0, role0, dirs0, src, i);
      var e := Entry(mem, src, i);
      BytesKept(role0, data0, data, e.frame);
      var p;
      ok, p := Kalloc();
      if !ok {
        return;
      }
      data := data[p := Bytes(data, e.frame)];
      TakenFree(role0[d := Dir], r1, d, 0, i, p);
      KeptFresh(role0, data0, d1, p, Bytes(d1, e.frame));
      AboveClear(mem, d, ks, i);
      ok := MapPage(d, i, p, e.flags);
      if !ok {
        ghost var d2 := data;
        Kfree(p);
        assert role == r1;
        SameFewer(m1, mem, dirs, dirs0);
        SameStill(mem0, m1, mem, dirs0);
        KeptCopying(role0, role, d, i, data0, d2, data);
        return;
      }
      MissingHooked(m1, mem, d, i, 0, NENTRIES);
      TakenOne(role0[d := Dir], r1, role, d, 0, i, p);
      OthersOne(mem0, m1, mem, dirs, dirs0, d, i, Present(p, e.flags));
      AboveOne(m1, mem, dirs, d, ks, i, Present(p, e.flags));
      CopyOne(p1, role0, mem0, data0, src, m1, mem, r1, dirs, d1, d, i, p);
    }
  }

  function Least(a: nat, b: nat): nat { if a < b then a else b }

  /** The first page past a that another table maps. */
  function NextTable(a: nat): nat { (a / NENTRIES + 1) * NENTRIES }
}
