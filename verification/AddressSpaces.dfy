/** What growing, copying and freeing an address space do to page roles and mappings. */
module AddressSpaces {
  import opened PageTables

  type Data = map<nat, seq<nat>>

  /** Contents of a page that is not a table. */
  function Bytes(data: Data, p: nat): seq<nat> { if p in data then data[p] else [] }

  ghost predicate KeptUsed(role: Roles, before: Data, data: Data) {
    forall p :: p in role && role[p] != Free ==> Bytes(data, p) == Bytes(before, p)
  }

  ghost predicate FreedOnly(role: Roles, after: Roles) {
    forall p :: p in after && after[p] != Free ==> p in role && role[p] != Free
  }

  lemma KeptRefl(role: Roles, data: Data)
    ensures KeptUsed(role, data, data) && FreedOnly(role, role)
  {
  }

  lemma KeptMore(r0: Roles, r1: Roles, r2: Roles, d0: Data, d1: Data, d2: Data)
    requires KeptUsed(r1, d0, d1) && KeptUsed(r2, d1, d2) && FreedOnly(r0, r1) && FreedOnly(r1, r2)
    ensures KeptUsed(r2, d0, d2) && FreedOnly(r0, r2)
  {
  }

  /** Only free pages changed hands: into d's tables, or d's user pages lo up to hi. */
  ghost predicate Taken(role: Roles, after: Roles, d: nat, lo: nat, hi: nat) {
    && after.Keys == role.Keys
    && forall p :: p in role ==>
         || after[p] == role[p]
         || (role[p] == Free && after[p].Table? && after[p].d == d)
         || (role[p] == Free && after[p].User? && after[p].d == d && lo <= after[p].v < hi)
  }

  /** Pages lo up to hi of d are mapped with these flags to pages that were free, and no
      other mapping changed. */
  ghost predicate Grown(role: Roles, mem: Memory, after: Memory, dirs: set<nat>, d: nat, lo: nat, hi: nat, flags: nat) {
    && (forall x, w :: x in dirs && 0 <= w < NENTRIES * NENTRIES && !(x == d && lo <= w < hi) ==>
            Entry(after, x, w) == Entry(mem, x, w))
    && (forall w :: lo <= w < hi ==>
         Entry(after, d, w).Present? && IsRole(role, Entry(after, d, w).frame, Free)
           && Entry(after, d, w).flags == flags)
  }

  /** Each mapped user page is another physical page. */
  lemma PagesDistinct(pool: seq<nat>, mem: Memory, role: Roles, dirs: set<nat>, d: nat, v: nat, x: nat, w: nat)
    requires Inv(pool, mem, role, dirs) && d in dirs && x in dirs && v < USERPAGES && w < USERPAGES
    requires Entry(mem, d, v).Present? && Entry(mem, x, w).Present? && (d, v) != (x, w)
    ensures Entry(mem, d, v).frame != Entry(mem, x, w).frame
  {
    hide Entry, TablesOk, PoolOk;
    assert IsRole(role, Entry(mem, d, v).frame, User(d, v));
    assert IsRole(role, Entry(mem, x, w).frame, User(x, w));
  }

  lemma TakenNothing(role: Roles, d: nat, lo: nat)
    ensures Taken(role, role, d, lo, lo)
  {
  }

  lemma GrownNothing(role: Roles, mem: Memory, dirs: set<nat>, d: nat, lo: nat, flags: nat)
    ensures Grown(role, mem, mem, dirs, d, lo, lo, flags)
  {
  }

  /** A free page p taken in hand and mapped at a, with a table perhaps added on the way. */
  lemma TakenOne(r0: Roles, r1: Roles, r2: Roles, d: nat, lo: nat, a: nat, p: nat)
    requires Taken(r0, r1, d, lo, a) && lo <= a && IsRole(r1, p, Free)
    requires Taken(r1[p := Elsewhere][p := User(d, a)], r2, d, 0, 0)
    ensures Taken(r0, r2, d, lo, a + 1) && IsRole(r0, p, Free)
  {
  }

  lemma GrownOne(role: Roles, mem: Memory, m1: Memory, m2: Memory, dirs: set<nat>, d: nat, lo: nat, a: nat, p: nat,
                 flags: nat)
    requires Grown(role, mem, m1, dirs, d, lo, a, flags) && OneEntryChanged(m1, m2, dirs, d, a, Present(p, flags))
    requires d in dirs && lo <= a < NENTRIES * NENTRIES && IsRole(role, p, Free)
    ensures Grown(role, mem, m2, dirs, d, lo, a + 1, flags)
  {
    hide Entry;
  }

  /** Unmapping what was mapped on the way leaves every mapping as it was. */
  lemma GrownUndone(role: Roles, mem: Memory, m1: Memory, m2: Memory, dirs: set<nat>, d: nat, lo: nat, a: nat,
                    hi: nat, flags: nat)
    requires Grown(role, mem, m1, dirs, d, lo, a, flags) && OnlyCleared(m1, m2, dirs, d, lo, hi)
    requires lo <= a <= hi <= USERPAGES && d in dirs && Unmapped(mem, d, lo, hi)
    ensures SameEntries(mem, m2, dirs)
  {
    hide Entry;
  }

  /** And leaves every page free or owned as it was, but for added tables. */
  lemma TakenUndone(pool: seq<nat>, mem: Memory, r0: Roles, r1: Roles, dirs: set<nat>, d: nat, lo: nat, a: nat, hi: nat)
    requires Inv(pool, mem, r0, dirs) && d in dirs && Unmapped(mem, d, lo, hi) && Taken(r0, r1, d, lo, a)
    requires lo <= a <= hi
    ensures Taken(r0, Cleared(r1, d, lo, hi), d, 0, 0)
  {
    hide Entry, TablesOk, PoolOk;
  }

  // Freeing an address space ------------------------------------------------------------------

  ghost predicate BelongsTo(role: Roles, d: nat, p: nat) {
    p in role && (p == d || (role[p].Table? && role[p].d == d) || (role[p].User? && role[p].d == d))
  }

  /** d's directory, tables and user pages all free. */
  ghost function Released(role: Roles, d: nat): Roles {
    map p | p in role :: if BelongsTo(role, d, p) then Free else role[p]
  }

  /** The tables in the first n slots free. */
  ghost function TablesFreed(role: Roles, slots: seq<Pte>, n: nat): (r: Roles)
    requires n <= |slots|
    ensures r.Keys == role.Keys
  {
    if n == 0 then role
    else
      var r := TablesFreed(role, slots, n - 1);
      if slots[n - 1].Present? && slots[n - 1].frame in role then r[slots[n - 1].frame := Free] else r
  }

  lemma {:induction false} TablesFreedFree(role: Roles, slots: seq<Pte>, n: nat)
    requires n <= |slots|
    ensures forall i :: 0 <= i < n && slots[i].Present? && slots[i].frame in role ==>
              TablesFreed(role, slots, n)[slots[i].frame] == Free
  {
    if n == 0 {
    } else {
      TablesFreedFree(role, slots, n - 1);
    }
  }

  lemma {:induction false} TablesFreedKeeps(role: Roles, slots: seq<Pte>, n: nat, p: nat)
    requires n <= |slots| && p in role && forall i :: 0 <= i < n && slots[i].Present? ==> slots[i].frame != p
    ensures TablesFreed(role, slots, n)[p] == role[p]
  {
    if n == 0 {
    } else {
      TablesFreedKeeps(role, slots, n - 1, p);
    }
  }

  lemma SlotsAreTables(mem: Memory, role: Roles, dirs: set<nat>, d: nat)
    requires TablesOk(mem, role, dirs) && d in dirs
    ensures d in mem && |mem[d]| == NENTRIES
    ensures forall i :: 0 <= i < NENTRIES && mem[d][i].Present? ==> IsRole(role, mem[d][i].frame, Table(d, i))
    ensures forall p :: p in role && role[p].Table? && role[p].d == d ==>
              role[p].i < NENTRIES && mem[d][role[p].i].Present? && mem[d][role[p].i].frame == p
  {
    assert forall i :: 0 <= i < NENTRIES ==> Slot(mem, d, i) == mem[d][i];
  }

  /** Tables, then the directory: everything of a d without user pages. */
  lemma TablesReleased(mem: Memory, role: Roles, dirs: set<nat>, d: nat)
    requires TablesOk(mem, role, dirs) && d in dirs
    requires forall p :: p in role && role[p].User? ==> role[p].d != d
    ensures d in mem && |mem[d]| == NENTRIES
    ensures TablesFreed(Detached(role, d), mem[d], NENTRIES)[d := Free] == Released(role, d)
  {
    SlotsAreTables(mem, role, dirs, d);
    TablesFreedFree(Detached(role, d), mem[d], NENTRIES);
    hide TablesFreed, TablesOk;
    var r := TablesFreed(Detached(role, d), mem[d], NENTRIES);
    forall p | p in role && p != d && !(role[p].Table? && role[p].d == d)
      ensures r[p] == role[p]
    {
      TablesFreedKeeps(Detached(role, d), mem[d], NENTRIES, p);
    }
  }

  lemma ClearedReleased(mem: Memory, role: Roles, dirs: set<nat>, d: nat)
    requires UsersOk(mem, role, dirs)
    ensures Released(Cleared(role, d, 0, USERPAGES), d) == Released(role, d)
    ensures var r := Cleared(role, d, 0, USERPAGES); forall p :: p in r && r[p].User? ==> r[p].d != d
  {
    hide Entry;
  }

  /** Freeing an address space that was just taken from the pool puts all of it back. */
  lemma TakenReleased(mem: Memory, r0: Roles, r1: Roles, dirs: set<nat>, d: nat, hi: nat)
    requires TablesOk(mem, r0, dirs) && UsersOk(mem, r0, dirs) && IsRole(r0, d, Free)
    requires Taken(r0[d := Dir], r1, d, 0, hi)
    ensures Released(r1, d) == r0
  {
    hide Entry;
    assert d !in dirs;
    forall p | p in r0 && p != d
      ensures Released(r1, d)[p] == r0[p]
    {
      assert r1[p] == r0[p] ==> !BelongsTo(r0, d, p);
    }
  }

  // The kernel's mappings --------------------------------------------------------------------

  /** One line of kmap, in pages: first through last mapped from phys upward. */
  datatype Range = Range(first: nat, last: nat, phys: nat, perm: nat)

  predicate Covers(r: Range, v: nat) { r.first <= v <= r.last }

  /** Ranges in the kernel half that do not meet. */
  ghost predicate KmapOk(ks: seq<Range>) {
    && (forall i :: 0 <= i < |ks| ==> USERPAGES <= ks[i].first <= ks[i].last < NENTRIES * NENTRIES)
    && (forall i, j :: 0 <= i < j < |ks| ==> ks[i].last < ks[j].first || ks[j].last < ks[i].first)
  }

  /** What the ranges map v to. */
  function KernelEntry(ks: seq<Range>, v: nat): Pte {
    if ks == [] then Absent
    else
      var r := ks[|ks| - 1];
      if Covers(r, v) then Present(r.phys + (v - r.first), r.perm) else KernelEntry(ks[..|ks| - 1], v)
  }

  lemma {:induction false} KernelAbsent(ks: seq<Range>, v: nat)
    requires forall i :: 0 <= i < |ks| ==> !Covers(ks[i], v)
    ensures KernelEntry(ks, v) == Absent
  {
    if ks == [] {
    } else {
      KernelAbsent(ks[..|ks| - 1], v);
    }
  }

  /** d maps exactly what the ranges say. */
  ghost predicate KernelOnly(mem: Memory, d: nat, ks: seq<Range>) {
    forall w :: 0 <= w < NENTRIES * NENTRIES ==> Entry(mem, d, w) == KernelEntry(ks, w)
  }

  /** Pages first up to a mapped from phys upward, everything else as before. */
  ghost predicate RangeMapped(mem: Memory, after: Memory, dirs: set<nat>, d: nat, r: Range, a: nat) {
    forall x, w :: x in dirs && 0 <= w < NENTRIES * NENTRIES ==>
      Entry(after, x, w) == if x == d && r.first <= w < a then Present(r.phys + (w - r.first), r.perm)
        else Entry(mem, x, w)
  }

  lemma RangeNothing(mem: Memory, dirs: set<nat>, d: nat, r: Range)
    ensures RangeMapped(mem, mem, dirs, d, r, r.first)
  {
  }

  lemma RangeOne(mem: Memory, m1: Memory, m2: Memory, dirs: set<nat>, d: nat, r: Range, a: nat)
    requires RangeMapped(mem, m1, dirs, d, r, a) && r.first <= a
    requires OneEntryChanged(m1, m2, dirs, d, a, Present(r.phys + (a - r.first), r.perm))
    ensures RangeMapped(mem, m2, dirs, d, r, a + 1)
  {
    hide Entry;
  }

  /** The next range of kmap finds nothing in its way. */
  lemma RangeClear(mem: Memory, d: nat, ks: seq<Range>, n: nat)
    requires KmapOk(ks) && n < |ks| && KernelOnly(mem, d, ks[..n])
    ensures Unmapped(mem, d, ks[n].first, ks[n].last + 1)
    ensures USERPAGES <= ks[n].first <= ks[n].last < NENTRIES * NENTRIES
  {
    hide Entry;
    forall w | ks[n].first <= w < ks[n].last + 1
      ensures Entry(mem, d, w).Absent?
    {
      KernelAbsent(ks[..n], w);
    }
  }

  lemma RangeAdded(m1: Memory, m2: Memory, dirs: set<nat>, d: nat, ks: seq<Range>, n: nat)
    requires n < |ks| && KernelOnly(m1, d, ks[..n]) && d in dirs
    requires RangeMapped(m1, m2, dirs, d, ks[n], ks[n].last + 1)
    ensures KernelOnly(m2, d, ks[..n + 1])
  {
    hide Entry;
    assert ks[..n + 1][..n] == ks[..n];
  }

  lemma RangeOthers(m0: Memory, m1: Memory, m2: Memory, all: set<nat>, dirs: set<nat>, d: nat, r: Range)
    requires SameEntries(m0, m1, dirs) && all == dirs + {d} && d !in dirs
    requires exists a :: r.first <= a <= r.last + 1 && RangeMapped(m1, m2, all, d, r, a)
    ensures SameEntries(m0, m2, dirs)
  {
    hide Entry;
  }

  lemma NoKernelYet(mem: Memory, d: nat, ks: seq<Range>)
    requires Unmapped(mem, d, 0, NENTRIES * NENTRIES)
    ensures KernelOnly(mem, d, ks[..0])
  {
    hide Entry;
  }

  lemma NewDirTaken(pool: seq<nat>, mem: Memory, role: Roles, dirs: set<nat>, d: nat)
    requires Inv(pool, mem, role, dirs) && IsRole(role, d, Free)
    ensures d !in dirs && dirs + {d} - {d} == dirs && Taken(role[d := Dir], role[d := Elsewhere][d := Dir], d, 0, 0)
  {
    hide PoolOk, UsersOk;
  }

  lemma FreshReleased(pool: seq<nat>, mem: Memory, r0: Roles, r1: Roles, dirs: set<nat>, d: nat, hi: nat)
    requires Inv(pool, mem, r0, dirs) && IsRole(r0, d, Free) && Taken(r0[d := Dir], r1, d, 0, hi)
    ensures Released(r1, d) == r0
  {
    TakenReleased(mem, r0, r1, dirs, d, hi);
  }

  lemma TakenTwice(r0: Roles, r1: Roles, r2: Roles, d: nat)
    requires Taken(r0, r1, d, 0, 0) && Taken(r1, r2, d, 0, 0)
    ensures Taken(r0, r2, d, 0, 0)
  {
  }

  lemma RangeStillClear(mem: Memory, after: Memory, dirs: set<nat>, d: nat, r: Range, a: nat)
    requires RangeMapped(mem, after, dirs, d, r, a) && d in dirs && r.first <= a <= r.last < NENTRIES * NENTRIES
    requires Unmapped(mem, d, r.first, r.last + 1)
    ensures Entry(after, d, a).Absent?
  {
    hide Entry;
  }

  lemma TableWhole(pool: seq<nat>, mem: Memory, role: Roles, dirs: set<nat>, d: nat, v: nat)
    requires Inv(pool, mem, role, dirs) && d in dirs && v < NENTRIES * NENTRIES && HasTable(mem, d, v)
    ensures Slot(mem, d, v / NENTRIES).frame in mem && |mem[Slot(mem, d, v / NENTRIES).frame]| == NENTRIES
  {
    hide UsersOk, PoolOk;
  }

  lemma SameStill(m0: Memory, m1: Memory, m2: Memory, dirs: set<nat>)
    requires SameEntries(m0, m1, dirs) && SameEntries(m1, m2, dirs)
    ensures SameEntries(m0, m2, dirs)
  {
    hide Entry;
  }

  lemma SameRefl(mem: Memory, dirs: set<nat>)
    ensures SameEntries(mem, mem, dirs)
  {
  }

  /** After deallocuvm down to nothing: no user page is left, and what remains to be freed is
      the tables and the directory. */
  lemma Emptied(pool: seq<nat>, mem: Memory, role: Roles, pool1: seq<nat>, mem1: Memory, dirs: set<nat>, d: nat)
    requires Inv(pool, mem, role, dirs) && Inv(pool1, mem1, Cleared(role, d, 0, USERPAGES), dirs) && d in dirs
    requires OnlyCleared(mem, mem1, dirs, d, 0, USERPAGES)
    ensures Unmapped(mem1, d, 0, USERPAGES) && SameEntries(mem, mem1, dirs - {d})
    ensures d in mem1 && |mem1[d]| == NENTRIES
    ensures TablesFreed(Detached(Cleared(role, d, 0, USERPAGES), d), mem1[d], NENTRIES)[d := Free] == Released(role, d)
  {
    ClearedReleased(mem, role, dirs, d);
    TablesReleased(mem1, Cleared(role, d, 0, USERPAGES), dirs, d);
    hide Entry, TablesFreed, Detached, Released, Cleared, PoolOk, TablesOk, UsersOk;
  }

  /** The slots of a detached directory: distinct pages in hand, none of them the directory. */
  ghost predicate Slots(bare: Roles, slots: seq<Pte>, d: nat) {
    && |slots| == NENTRIES && IsRole(bare, d, Elsewhere)
    && (forall i :: 0 <= i < NENTRIES && slots[i].Present? ==>
            slots[i].frame != d && IsRole(bare, slots[i].frame, Elsewhere))
    && (forall i, j :: 0 <= i < j < NENTRIES && slots[i].Present? && slots[j].Present? ==>
            slots[i].frame != slots[j].frame)
  }

  lemma TakenApart(pool: seq<nat>, mem: Memory, role: Roles, dirs: set<nat>, d: nat, before: Data, data: Data)
    requires Inv(pool, mem, role, dirs) && d in dirs && Unmapped(mem, d, 0, USERPAGES) && KeptUsed(role, before, data)
    ensures d in mem && Inv(pool, mem, Detached(role, d), dirs - {d}) && Slots(Detached(role, d), mem[d], d)
    ensures KeptUsed(Detached(role, d), before, data)
  {
    DetachKeeps(pool, mem, role, dirs, d);
    assert IsRole(role, d, Dir);
    hide UsersOk, PoolOk, Unmapped;
    assert forall i :: 0 <= i < NENTRIES ==> Slot(mem, d, i) == mem[d][i];
  }

  lemma SlotsWhole(bare: Roles, slots: seq<Pte>, d: nat)
    requires Slots(bare, slots, d)
    ensures |slots| == NENTRIES
  {
  }

  lemma TablesFreedNone(bare: Roles, slots: seq<Pte>)
    ensures TablesFreed(bare, slots, 0) == bare
  {
  }

  lemma TablesFreedOne(bare: Roles, slots: seq<Pte>, d: nat, i: nat)
    requires Slots(bare, slots, d) && i < NENTRIES
    ensures slots[i].Absent? ==> TablesFreed(bare, slots, i + 1) == TablesFreed(bare, slots, i)
    ensures slots[i].Present? ==>
              && slots[i].frame != d
              && IsRole(TablesFreed(bare, slots, i), slots[i].frame, Elsewhere)
              && TablesFreed(bare, slots, i + 1) == TablesFreed(bare, slots, i)[slots[i].frame := Free]
  {
    if slots[i].Present? {
      TablesFreedKeeps(bare, slots, i, slots[i].frame);
    }
  }

  lemma TablesFreedDir(bare: Roles, slots: seq<Pte>, d: nat)
    requires Slots(bare, slots, d)
    ensures IsRole(TablesFreed(bare, slots, NENTRIES), d, Elsewhere)
  {
    TablesFreedKeeps(bare, slots, NENTRIES, d);
  }

  // Contents -------------------------------------------------------------------------------------

  /** The new pages lo up to hi hold `fill`. */
  ghost predicate AllHold(mem: Memory, data: Data, d: nat, lo: nat, hi: nat, fill: seq<nat>) {
    forall w :: lo <= w < hi ==> Entry(mem, d, w).Present? && Bytes(data, Entry(mem, d, w).frame) == fill
  }

  lemma HoldOne(pool: seq<nat>, m1: Memory, m2: Memory, role: Roles, dirs: set<nat>, data: Data, d: nat, lo: nat,
                a: nat, p: nat, flags: nat, fill: seq<nat>)
    requires Inv(pool, m1, role, dirs) && IsRole(role, p, Free) && d in dirs && lo <= a < USERPAGES
    requires AllHold(m1, data, d, lo, a, fill) && OneEntryChanged(m1, m2, dirs, d, a, Present(p, flags))
    ensures AllHold(m2, data[p := fill], d, lo, a + 1, fill)
  {
    hide Entry, PoolOk, TablesOk;
  }

  /** Pages below n of d are fresh copies of src's pages as they were. */
  ghost predicate Copied(role: Roles, before: Memory, was: Data, src: nat, mem: Memory, data: Data, d: nat, n: nat) {
    forall w :: 0 <= w < n ==>
      && Entry(mem, d, w).Present? && Entry(before, src, w).Present?
      && IsRole(role, Entry(mem, d, w).frame, Free)
      && Entry(mem, d, w).flags == Entry(before, src, w).flags
      && Bytes(data, Entry(mem, d, w).frame) == Bytes(was, Entry(before, src, w).frame)
  }

  lemma CopyOne(pool: seq<nat>, role: Roles, before: Memory, was: Data, src: nat, m1: Memory, m2: Memory, r1: Roles,
                dirs: set<nat>, data: Data, d: nat, a: nat, p: nat)
    requires Inv(pool, m1, r1, dirs) && d in dirs && a < USERPAGES && Entry(before, src, a).Present?
    requires IsRole(role, p, Free) && IsRole(r1, p, Free)
    requires Copied(role, before, was, src, m1, data, d, a)
    requires OneEntryChanged(m1, m2, dirs, d, a, Present(p, Entry(before, src, a).flags))
    ensures Copied(role, before, was, src, m2, data[p := Bytes(was, Entry(before, src, a).frame)], d, a + 1)
  {
    hide Entry, PoolOk, TablesOk;
  }

  /** Above n, d still maps just what the kernel's ranges say. */
  ghost predicate KernelAbove(mem: Memory, d: nat, ks: seq<Range>, n: nat) {
    forall w :: n <= w < NENTRIES * NENTRIES ==> Entry(mem, d, w) == KernelEntry(ks, w)
  }

  lemma AboveOne(m1: Memory, m2: Memory, dirs: set<nat>, d: nat, ks: seq<Range>, a: nat, e: Pte)
    requires KernelAbove(m1, d, ks, a) && OneEntryChanged(m1, m2, dirs, d, a, e) && d in dirs
    ensures KernelAbove(m2, d, ks, a + 1)
  {
    hide Entry, KernelEntry;
  }

  lemma AboveClear(mem: Memory, d: nat, ks: seq<Range>, a: nat)
    requires KernelAbove(mem, d, ks, a) && KmapOk(ks) && a < USERPAGES
    ensures Entry(mem, d, a).Absent?
  {
    hide Entry;
    KernelAbsent(ks, a);
  }

  lemma OthersOne(m0: Memory, m1: Memory, m2: Memory, all: set<nat>, dirs: set<nat>, d: nat, a: nat, e: Pte)
    requires SameEntries(m0, m1, dirs) && OneEntryChanged(m1, m2, all, d, a, e) && all == dirs + {d} && d !in dirs
    ensures SameEntries(m0, m2, dirs)
  {
    hide Entry;
  }

  lemma KeptFresh(role: Roles, before: Data, data: Data, p: nat, fill: seq<nat>)
    requires KeptUsed(role, before, data) && IsRole(role, p, Free)
    ensures KeptUsed(role, before, data[p := fill])
  {
  }

  lemma HoldNothing(mem: Memory, data: Data, d: nat, lo: nat, fill: seq<nat>)
    ensures AllHold(mem, data, d, lo, lo, fill)
  {
  }

  lemma GrownClear(role: Roles, mem: Memory, after: Memory, dirs: set<nat>, d: nat, lo: nat, a: nat, hi: nat,
                   flags: nat)
    requires Grown(role, mem, after, dirs, d, lo, a, flags) && Unmapped(mem, d, lo, hi) && d in dirs
    requires lo <= a < hi <= USERPAGES
    ensures Entry(after, d, a).Absent?
  {
    hide Entry;
  }

  /** A page still free was free before. */
  lemma TakenFree(r0: Roles, r1: Roles, d: nat, lo: nat, hi: nat, p: nat)
    requires Taken(r0, r1, d, lo, hi) && IsRole(r1, p, Free)
    ensures IsRole(r0, p, Free)
  {
  }

  lemma Undone(pool: seq<nat>, mem: Memory, m1: Memory, m2: Memory, r0: Roles, r1: Roles, dirs: set<nat>, d: nat,
               lo: nat, a: nat, hi: nat, flags: nat)
    requires Inv(pool, mem, r0, dirs) && d in dirs && Unmapped(mem, d, lo, hi) && lo <= a <= hi <= USERPAGES
    requires Taken(r0, r1, d, lo, a) && Grown(r0, mem, m1, dirs, d, lo, a, flags)
    requires OnlyCleared(m1, m2, dirs, d, lo, hi)
    ensures SameEntries(mem, m2, dirs) && Taken(r0, Cleared(r1, d, lo, hi), d, 0, 0)
  {
    hide Inv, Unmapped, Taken, Grown, OnlyCleared, Cleared, SameEntries;
    GrownUndone(r0, mem, m1, m2, dirs, d, lo, a, hi, flags);
    TakenUndone(pool, mem, r0, r1, dirs, d, lo, a, hi);
  }

  lemma InHand(role: Roles, d: nat, lo: nat, hi: nat, p: nat)
    requires IsRole(role, p, Free)
    ensures IsRole(Cleared(role[p := Elsewhere], d, lo, hi), p, Elsewhere)
    ensures Cleared(role[p := Elsewhere], d, lo, hi)[p := Free] == Cleared(role, d, lo, hi)
  {
  }

  lemma KeptTwice(r1: Roles, r2: Roles, d0: Data, d1: Data, d2: Data)
    requires KeptUsed(r1, d0, d1) && KeptUsed(r2, d1, d2) && FreedOnly(r1, r2)
    ensures KeptUsed(r2, d0, d2)
  {
  }

  lemma KeptUndone(r0: Roles, r2: Roles, d: nat, d0: Data, d1: Data, d2: Data)
    requires KeptUsed(r0, d0, d1) && KeptUsed(r2, d1, d2) && Taken(r0, r2, d, 0, 0)
    ensures KeptUsed(r0, d0, d2)
  {
  }

  lemma CopyStart(role: Roles, before: Memory, was: Data, src: nat, mem: Memory, data: Data, d: nat, ks: seq<Range>)
    requires KernelOnly(mem, d, ks)
    ensures Copied(role, before, was, src, mem, data, d, 0) && KernelAbove(mem, d, ks, 0)
  {
    hide Entry, KernelEntry;
  }

  lemma SourceKept(before: Memory, mem: Memory, dirs: set<nat>, src: nat, a: nat)
    requires SameEntries(before, mem, dirs) && src in dirs && a < USERPAGES
    ensures Entry(mem, src, a) == Entry(before, src, a)
  {
  }

  lemma UserIsUsed(pool: seq<nat>, mem: Memory, role: Roles, dirs: set<nat>, src: nat, a: nat)
    requires Inv(pool, mem, role, dirs) && src in dirs && a < USERPAGES && Entry(mem, src, a).Present?
    ensures IsRole(role, Entry(mem, src, a).frame, User(src, a))
  {
    hide Entry, PoolOk, TablesOk;
  }

  lemma BytesKept(role: Roles, before: Data, data: Data, p: nat)
    requires KeptUsed(role, before, data) && p in role && role[p] != Free
    ensures Bytes(data, p) == Bytes(before, p)
  {
  }

  lemma KeptBack(role: Roles, d0: Data, d1: Data, d2: Data)
    requires KeptUsed(role, d0, d1) && KeptUsed(role, d1, d2)
    ensures KeptUsed(role, d0, d2)
  {
  }

  lemma KeptCopying(r0: Roles, r1: Roles, d: nat, hi: nat, d0: Data, d1: Data, d2: Data)
    requires KeptUsed(r0, d0, d1) && KeptUsed(r1, d1, d2) && IsRole(r0, d, Free) && Taken(r0[d := Dir], r1, d, 0, hi)
    ensures KeptUsed(r0, d0, d2)
  {
  }

  lemma SameFewer(mem: Memory, after: Memory, all: set<nat>, dirs: set<nat>)
    requires SameEntries(mem, after, all) && dirs <= all
    ensures SameEntries(mem, after, dirs)
  {
    hide Entry;
  }

  // Counting page tables ---------------------------------------------------------------------------

  /** Empty slots of directory d from a up to b. */
  function Missing(mem: Memory, d: nat, a: nat, b: nat): nat
    decreases b
  {
    if a >= b then 0 else Missing(mem, d, a, b - 1) + (if Slot(mem, d, b - 1).Absent? then 1 else 0)
  }

  /** d has a table for page v now, and its other slots are in use as before. */
  ghost predicate Hooked(mem: Memory, after: Memory, d: nat, v: nat) {
    && HasTable(after, d, v)
    && forall i :: 0 <= i < NENTRIES && i != v / NENTRIES ==> Slot(after, d, i).Present? == Slot(mem, d, i).Present?
  }

  /** One slot less is empty, if it was. */
  lemma {:induction false} MissingHooked(mem: Memory, after: Memory, d: nat, v: nat, a: nat, b: nat)
    requires Hooked(mem, after, d, v) && b <= NENTRIES
    ensures Missing(mem, d, a, b) ==
              Missing(after, d, a, b) + (if a <= v / NENTRIES < b && !HasTable(mem, d, v) then 1 else 0)
    decreases b
  {
    hide Slot;
    if a >= b {
    } else {
      MissingHooked(mem, after, d, v, a, b - 1);
    }
  }

  lemma {:induction false} MissingSome(mem: Memory, d: nat, a: nat, b: nat, i: nat)
    requires a <= i < b && Slot(mem, d, i).Absent?
    ensures Missing(mem, d, a, b) > 0
    decreases b
  {
    if i >= b - 1 {
    } else {
      MissingSome(mem, d, a, b - 1, i);
    }
  }

  lemma {:induction false} MissingNone(mem: Memory, d: nat, a: nat, b: nat)
    requires forall i :: a <= i < b ==> Slot(mem, d, i).Present?
    ensures Missing(mem, d, a, b) == 0
    decreases b
  {
    if a >= b {
    } else {
      MissingNone(mem, d, a, b - 1);
    }
  }

  /** One past the last slot that maps a page below hi, of a range from lo on. */
  function Top(lo: nat, hi: nat): nat { if lo < hi then (hi - 1) / NENTRIES + 1 else lo / NENTRIES }

  /** The pages that mapping lo up to hi takes: one for each, and the tables it lacks. */
  function Need(mem: Memory, d: nat, lo: nat, hi: nat): nat
    requires lo <= hi
  {
    hi - lo + Missing(mem, d, lo / NENTRIES, Top(lo, hi))
  }

  /** With every page of the range mapped no table is missing. */
  lemma RangeHasTables(role: Roles, mem: Memory, after: Memory, dirs: set<nat>, d: nat, lo: nat, hi: nat, flags: nat)
    requires Grown(role, mem, after, dirs, d, lo, hi, flags) && lo <= hi
    ensures Missing(after, d, lo / NENTRIES, Top(lo, hi)) == 0
  {
    forall i | lo / NENTRIES <= i < Top(lo, hi)
      ensures Slot(after, d, i).Present?
    {
      var w := if i == lo / NENTRIES then lo else i * NENTRIES;
      assert lo <= w < hi && w / NENTRIES == i;
      assert Entry(after, d, w).Present?;
    }
    MissingNone(after, d, lo / NENTRIES, Top(lo, hi));
  }

  lemma SlotInTop(lo: nat, a: nat, hi: nat)
    requires lo <= a < hi <= USERPAGES
    ensures lo / NENTRIES <= a / NENTRIES < Top(lo, hi) <= NENTRIES
  {
  }

  lemma AddTableHooks(mem: Memory, d: nat, v: nat, t: nat, flags: nat)
    requires d in mem && |mem[d]| == NENTRIES && v / NENTRIES < NENTRIES
    ensures Hooked(mem, AddTable(mem, d, v / NENTRIES, t, flags), d, v)
  {
  }

  lemma SetHooks(pool: seq<nat>, mem: Memory, m1: Memory, role: Roles, dirs: set<nat>, d: nat, v: nat, e: Pte)
    requires Inv(pool, m1, role, dirs) && d in dirs && v < NENTRIES * NENTRIES && Hooked(mem, m1, d, v)
    requires Slot(m1, d, v / NENTRIES).frame in m1 && |m1[Slot(m1, d, v / NENTRIES).frame]| == NENTRIES
    ensures Hooked(mem, SetEntry(m1, d, v, e), d, v)
  {
    hide UsersOk, PoolOk;
    EntryAfterSet(m1, role, dirs, d, v, e, d, v);
  }

  lemma HookedTable(mem: Memory, after: Memory, d: nat, v: nat)
    requires Hooked(mem, after, d, v)
    ensures HasTable(after, d, v)
  {
  }

  lemma TableMissing(mem: Memory, d: nat, v: nat, a: nat, b: nat)
    requires !HasTable(mem, d, v) && a <= v / NENTRIES < b
    ensures Missing(mem, d, a, b) > 0
  {
    MissingSome(mem, d, a, b, v / NENTRIES);
  }

  lemma {:induction false} MissingAll(mem: Memory, d: nat, b: nat)
    requires forall i :: 0 <= i < b ==> Slot(mem, d, i).Absent?
    ensures Missing(mem, d, 0, b) == b
  {
    if b == 0 {
    } else {
      MissingAll(mem, d, b - 1);
    }
  }

  lemma MissingFresh(mem: Memory, d: nat)
    ensures Missing(mem[d := Zeroed()], d, 0, NENTRIES) == NENTRIES
  {
    MissingAll(mem[d := Zeroed()], d, NENTRIES);
  }

  /** The slot of a page of the range. */
  predicate SlotOf(r: Range, i: nat) { r.first / NENTRIES <= i <= r.last / NENTRIES }

  /** Slot i maps one of the first n pages, or a page of the kernel's ranges. */
  ghost predicate Reached(ks: seq<Range>, n: nat, i: nat) {
    i * NENTRIES < n || exists k :: 0 <= k < |ks| && SlotOf(ks[k], i)
  }

  /** How many of the first b slots do. */
  ghost function Tables(ks: seq<Range>, n: nat, b: nat): nat {
    if b == 0 then 0 else Tables(ks, n, b - 1) + (if Reached(ks, n, b - 1) then 1 else 0)
  }

  /** d has no table that it does not need for these. */
  ghost predicate Within(mem: Memory, d: nat, ks: seq<Range>, n: nat) {
    forall i :: 0 <= i < NENTRIES && Slot(mem, d, i).Present? ==> Reached(ks, n, i)
  }

  lemma {:induction false} TablesAtLeast(mem: Memory, d: nat, ks: seq<Range>, n: nat, b: nat)
    requires Within(mem, d, ks, n) && b <= NENTRIES
    ensures b - Missing(mem, d, 0, b) <= Tables(ks, n, b)
  {
    hide Slot, Reached;
    if b == 0 {
    } else {
      TablesAtLeast(mem, d, ks, n, b - 1);
    }
  }

  /** With one of them missing d has fewer than it needs. */
  lemma {:induction false} TablesMore(mem: Memory, d: nat, ks: seq<Range>, n: nat, b: nat, i: nat)
    requires Within(mem, d, ks, n) && i < b <= NENTRIES && Slot(mem, d, i).Absent? && Reached(ks, n, i)
    ensures b - Missing(mem, d, 0, b) < Tables(ks, n, b)
  {
    hide Slot, Reached;
    if i == b - 1 {
      TablesAtLeast(mem, d, ks, n, b - 1);
    } else {
      TablesMore(mem, d, ks, n, b - 1, i);
    }
  }

  lemma {:induction false} TablesExact(mem: Memory, d: nat, ks: seq<Range>, n: nat, b: nat)
    requires Within(mem, d, ks, n) && b <= NENTRIES
    requires forall i :: 0 <= i < b && Reached(ks, n, i) ==> Slot(mem, d, i).Present?
    ensures b - Missing(mem, d, 0, b) == Tables(ks, n, b)
  {
    hide Slot, Reached;
    if b == 0 {
    } else {
      TablesExact(mem, d, ks, n, b - 1);
    }
  }

  lemma {:induction false} TablesGrow(ks: seq<Range>, n: nat, m: nat, b: nat)
    requires n <= m
    ensures Tables(ks, n, b) <= Tables(ks, m, b)
  {
    if b == 0 {
    } else {
      TablesGrow(ks, n, m, b - 1);
    }
  }

  /** Tables have been added to d for pages of the range only. */
  ghost predicate HookedWithin(mem: Memory, after: Memory, d: nat, r: Range) {
    forall i :: 0 <= i < NENTRIES && Slot(after, d, i).Present? ==> Slot(mem, d, i).Present? || SlotOf(r, i)
  }

  lemma HookedMore(mem: Memory, m1: Memory, m2: Memory, d: nat, r: Range, v: nat)
    requires HookedWithin(mem, m1, d, r) && Hooked(m1, m2, d, v) && Covers(r, v)
    ensures HookedWithin(mem, m2, d, r)
  {
    hide Slot;
  }

  lemma WithinRange(mem: Memory, after: Memory, d: nat, ks: seq<Range>, k: nat)
    requires Within(mem, d, ks, 0) && k < |ks| && HookedWithin(mem, after, d, ks[k])
    ensures Within(after, d, ks, 0)
  {
    hide Slot;
  }

  lemma WithinPage(mem: Memory, after: Memory, d: nat, ks: seq<Range>, n: nat, v: nat)
    requires Within(mem, d, ks, n) && Hooked(mem, after, d, v) && v < n
    ensures Within(after, d, ks, n)
  {
    hide Slot;
  }

  lemma WithinMore(mem: Memory, d: nat, ks: seq<Range>, n: nat, m: nat)
    requires Within(mem, d, ks, n) && n <= m
    ensures Within(mem, d, ks, m)
  {
    hide Slot;
  }

  /** A fresh directory has no tables. */
  lemma WithinFresh(mem: Memory, d: nat, ks: seq<Range>)
    ensures Within(mem[d := Zeroed()], d, ks, 0)
  {
  }

  /** Mapping ran out of pages in range k, at a page without a table. */
  lemma RangeShort(mem: Memory, d: nat, ks: seq<Range>, k: nat, v: nat)
    requires KmapOk(ks) && Within(mem, d, ks, 0) && k < |ks| && Covers(ks[k], v) && !HasTable(mem, d, v)
    ensures NENTRIES - Missing(mem, d, 0, NENTRIES) < Tables(ks, 0, NENTRIES)
  {
    hide Slot;
    assert SlotOf(ks[k], v / NENTRIES);
    TablesMore(mem, d, ks, 0, NENTRIES, v / NENTRIES);
  }

  /** ... in copying page v. */
  lemma PageShort(mem: Memory, d: nat, ks: seq<Range>, n: nat, v: nat)
    requires Within(mem, d, ks, n) && v < n <= USERPAGES && !HasTable(mem, d, v)
    ensures NENTRIES - Missing(mem, d, 0, NENTRIES) < Tables(ks, n, NENTRIES)
  {
    hide Slot;
    TablesMore(mem, d, ks, n, NENTRIES, v / NENTRIES);
  }

  lemma {:induction false} KernelPresent(ks: seq<Range>, v: nat, k: nat)
    requires k < |ks| && Covers(ks[k], v)
    ensures KernelEntry(ks, v).Present?
  {
    if k == |ks| - 1 {
    } else {
      KernelPresent(ks[..|ks| - 1], v, k);
    }
  }

  /** All is mapped, so no table is missing. */
  lemma AllReached(mem: Memory, d: nat, ks: seq<Range>, n: nat)
    requires KmapOk(ks) && n <= USERPAGES && Within(mem, d, ks, n) && KernelAbove(mem, d, ks, n)
    requires forall w :: 0 <= w < n ==> Entry(mem, d, w).Present?
    ensures NENTRIES - Missing(mem, d, 0, NENTRIES) == Tables(ks, n, NENTRIES)
  {
    forall i | 0 <= i < NENTRIES && Reached(ks, n, i)
      ensures Slot(mem, d, i).Present?
    {
      ReachedPresent(mem, d, ks, n, i);
    }
    TablesExact(mem, d, ks, n, NENTRIES);
  }

  lemma ReachedPresent(mem: Memory, d: nat, ks: seq<Range>, n: nat, i: nat)
    requires KmapOk(ks) && n <= USERPAGES && KernelAbove(mem, d, ks, n) && i < NENTRIES && Reached(ks, n, i)
    requires forall w :: 0 <= w < n ==> Entry(mem, d, w).Present?
    ensures Slot(mem, d, i).Present?
  {
    if i * NENTRIES < n {
      assert Entry(mem, d, i * NENTRIES).Present?;
    } else {
      var k :| 0 <= k < |ks| && SlotOf(ks[k], i);
      var w := if ks[k].first / NENTRIES == i then ks[k].first else i * NENTRIES;
      assert Covers(ks[k], w) && w / NENTRIES == i;
      KernelPresent(ks, w, k);
      assert Entry(mem, d, w) == KernelEntry(ks, w);
    }
  }

  lemma OnlyIsAbove(mem: Memory, d: nat, ks: seq<Range>)
    requires KernelOnly(mem, d, ks)
    ensures KernelAbove(mem, d, ks, 0)
  {
    hide Entry, KernelEntry;
  }

  lemma CopiedPresent(role: Roles, before: Memory, was: Data, src: nat, mem: Memory, data: Data, d: nat, n: nat)
    requires Copied(role, before, was, src, mem, data, d, n)
    ensures forall w :: 0 <= w < n ==> Entry(mem, d, w).Present?
  {
    hide Entry, Bytes;
  }
}
