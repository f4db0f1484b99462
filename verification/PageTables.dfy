/** Two-level page tables and the pool of physical pages under them. Virtual addresses
    are page numbers here: va / PGSIZE. */
module PageTables {

  const NENTRIES := 1024        // entries in a directory or a table
  const USERPAGES := 524288     // KERNBASE / PGSIZE: 512 full tables

  const PTE_W := 2              // writable
  const PTE_U := 4              // open to user code

  datatype Pte = Absent | Present(frame: nat, flags: nat)

  /** What a physical page is used for; Elsewhere covers kernel stacks, pipes and the like. */
  datatype Role = Free | Dir | Table(d: nat, i: nat) | User(d: nat, v: nat) | Elsewhere

  type Memory = map<nat, seq<Pte>>
  type Roles = map<nat, Role>

  /** Entry i of the directory or table in page p. */
  function Slot(mem: Memory, p: nat, i: nat): Pte {
    if p in mem && i < |mem[p]| then mem[p][i] else Absent
  }

  /** What directory d maps virtual page v to. */
  function Entry(mem: Memory, d: nat, v: nat): Pte {
    var e := Slot(mem, d, v / NENTRIES);
    if e.Absent? then Absent else Slot(mem, e.frame, v % NENTRIES)
  }

  ghost predicate PoolOk(pool: seq<nat>, role: Roles) {
    && (forall i, j :: 0 <= i < j < |pool| ==> pool[i] != pool[j])
    && (forall p :: p in pool <==> p in role && role[p] == Free)
  }

  ghost predicate IsRole(role: Roles, p: nat, r: Role) { p in role && role[p] == r }

  /** Directories and tables are full pages, and each has the role its position says. A directory
      leaves it to its tables to say who may do what. */
  ghost predicate TablesOk(mem: Memory, role: Roles, dirs: set<nat>) {
    && (forall d :: d in dirs <==> IsRole(role, d, Dir))
    && (forall d :: d in dirs ==> d in mem && |mem[d]| == NENTRIES)
    && (forall d, i :: d in dirs && 0 <= i < NENTRIES && Slot(mem, d, i).Present? ==>
          IsRole(role, Slot(mem, d, i).frame, Table(d, i)) && Slot(mem, d, i).frame in mem
            && |mem[Slot(mem, d, i).frame]| == NENTRIES && Slot(mem, d, i).flags == PTE_W + PTE_U)
    && (forall p :: p in role && role[p].Table? ==>
          role[p].d in dirs && role[p].i < NENTRIES && Slot(mem, role[p].d, role[p].i).Present?
            && Slot(mem, role[p].d, role[p].i).frame == p)
  }

  /** So has each page mapped below KERNBASE. */
  ghost predicate UsersOk(mem: Memory, role: Roles, dirs: set<nat>) {
    && (forall d, v :: d in dirs && 0 <= v < USERPAGES && Entry(mem, d, v).Present? ==>
          IsRole(role, Entry(mem, d, v).frame, User(d, v)))
    && (forall p :: p in role && role[p].User? ==>
          role[p].d in dirs && role[p].v < USERPAGES && Entry(mem, role[p].d, role[p].v).Present?
            && Entry(mem, role[p].d, role[p].v).frame == p)
  }

  /** Every page has exactly one role: in the pool, or at one place of one address space. */
  ghost predicate Inv(pool: seq<nat>, mem: Memory, role: Roles, dirs: set<nat>) {
    PoolOk(pool, role) && TablesOk(mem, role, dirs) && UsersOk(mem, role, dirs)
  }

  // Storing an entry ----------------------------------------------------------------------

  predicate HasTable(mem: Memory, d: nat, v: nat) { Slot(mem, d, v / NENTRIES).Present? }

  function SetEntry(mem: Memory, d: nat, v: nat, e: Pte): Memory
    requires HasTable(mem, d, v) && Slot(mem, d, v / NENTRIES).frame in mem
    requires |mem[Slot(mem, d, v / NENTRIES).frame]| == NENTRIES
  {
    var t := Slot(mem, d, v / NENTRIES).frame;
    mem[t := mem[t][v % NENTRIES := e]]
  }

  lemma EntryAfterSet(mem: Memory, role: Roles, dirs: set<nat>, d: nat, v: nat, e: Pte, x: nat, w: nat)
    requires TablesOk(mem, role, dirs) && d in dirs && v < NENTRIES * NENTRIES && HasTable(mem, d, v)
    requires x in dirs && w < NENTRIES * NENTRIES
    ensures IsRole(role, Slot(mem, d, v / NENTRIES).frame, Table(d, v / NENTRIES))
    ensures Entry(SetEntry(mem, d, v, e), x, w) == if x == d && w == v then e else Entry(mem, x, w)
    ensures forall i :: 0 <= i < NENTRIES ==> Slot(SetEntry(mem, d, v, e), x, i) == Slot(mem, x, i)
  {
    var t := Slot(mem, d, v / NENTRIES).frame;
    assert IsRole(role, t, Table(d, v / NENTRIES));
    assert IsRole(role, x, Dir);
    if HasTable(mem, x, w) {
      assert IsRole(role, Slot(mem, x, w / NENTRIES).frame, Table(x, w / NENTRIES));
      assert v / NENTRIES == w / NENTRIES && v % NENTRIES == w % NENTRIES ==> v == w;
    }
  }

  lemma SetKeepsTables(mem: Memory, role: Roles, dirs: set<nat>, d: nat, v: nat, e: Pte)
    requires TablesOk(mem, role, dirs) && d in dirs && v < NENTRIES * NENTRIES && HasTable(mem, d, v)
    ensures IsRole(role, Slot(mem, d, v / NENTRIES).frame, Table(d, v / NENTRIES))
    ensures TablesOk(SetEntry(mem, d, v, e), role, dirs)
  {
    var t := Slot(mem, d, v / NENTRIES).frame;
    assert IsRole(role, t, Table(d, v / NENTRIES));
    forall x, i | x in dirs && 0 <= i < NENTRIES
      ensures Slot(SetEntry(mem, d, v, e), x, i) == Slot(mem, x, i)
    {
      EntryAfterSet(mem, role, dirs, d, v, e, x, 0);
    }
  }

  /** Table entries other than (d, v) are as they were. */
  ghost predicate OneEntryChanged(mem: Memory, after: Memory, dirs: set<nat>, d: nat, v: nat, e: Pte) {
    forall x, w :: x in dirs && 0 <= w < NENTRIES * NENTRIES ==>
      Entry(after, x, w) == if x == d && w == v then e else Entry(mem, x, w)
  }

  lemma SetChangesOne(mem: Memory, role: Roles, dirs: set<nat>, d: nat, v: nat, e: Pte)
    requires TablesOk(mem, role, dirs) && d in dirs && v < NENTRIES * NENTRIES && HasTable(mem, d, v)
    ensures IsRole(role, Slot(mem, d, v / NENTRIES).frame, Table(d, v / NENTRIES))
    ensures OneEntryChanged(mem, SetEntry(mem, d, v, e), dirs, d, v, e)
  {
    SetKeepsTables(mem, role, dirs, d, v, e);
    forall x, w | x in dirs && 0 <= w < NENTRIES * NENTRIES
      ensures Entry(SetEntry(mem, d, v, e), x, w) == if x == d && w == v then e else Entry(mem, x, w)
    {
      EntryAfterSet(mem, role, dirs, d, v, e, x, w);
    }
  }

  /** A page with no place in any address space may change hands. */
  lemma RoleTables(mem: Memory, role: Roles, dirs: set<nat>, p: nat, r: Role)
    requires TablesOk(mem, role, dirs) && p in role && !role[p].Table? && role[p] != Dir && !r.Table? && r != Dir
    ensures TablesOk(mem, role[p := r], dirs)
  {
  }

  lemma RoleUsers(mem: Memory, role: Roles, dirs: set<nat>, p: nat, r: Role)
    requires UsersOk(mem, role, dirs) && p in role && !role[p].User? && !r.User?
    ensures UsersOk(mem, role[p := r], dirs)
  {
  }

  /** kalloc. */
  lemma AllocKeeps(pool: seq<nat>, mem: Memory, role: Roles, dirs: set<nat>)
    requires Inv(pool, mem, role, dirs) && pool != []
    ensures IsRole(role, pool[0], Free)
    ensures Inv(pool[1..], mem, role[pool[0] := Elsewhere], dirs)
  {
    assert pool[0] in pool;
    RoleTables(mem, role, dirs, pool[0], Elsewhere);
    RoleUsers(mem, role, dirs, pool[0], Elsewhere);
    hide TablesOk, UsersOk;
    assert forall p :: p in pool[1..] <==> p in pool && p != pool[0];
  }

  /** kfree of a page that is in nobody's tables. */
  lemma FreeKeeps(pool: seq<nat>, mem: Memory, role: Roles, dirs: set<nat>, p: nat)
    requires Inv(pool, mem, role, dirs) && IsRole(role, p, Elsewhere)
    ensures Inv([p] + pool, mem - {p}, role[p := Free], dirs)
  {
    RoleTables(mem, role, dirs, p, Free);
    RoleUsers(mem, role, dirs, p, Free);
    ForgetTables(mem, role[p := Free], dirs, p);
    ForgetUsers(mem, role[p := Free], dirs, p);
    hide TablesOk, UsersOk;
  }

  /** The contents of a page that is no table do not matter. */
  lemma ForgetTables(mem: Memory, role: Roles, dirs: set<nat>, p: nat)
    requires TablesOk(mem, role, dirs) && IsRole(role, p, Free)
    ensures TablesOk(mem - {p}, role, dirs)
    ensures forall d, i :: d in dirs && 0 <= i < NENTRIES ==> Slot(mem - {p}, d, i) == Slot(mem, d, i)
    ensures forall d, v :: d in dirs && 0 <= v < NENTRIES * NENTRIES ==> Entry(mem - {p}, d, v) == Entry(mem, d, v)
  {
    forall d, v | d in dirs && 0 <= v < NENTRIES * NENTRIES
      ensures Entry(mem - {p}, d, v) == Entry(mem, d, v)
    {
      assert Slot(mem - {p}, d, v / NENTRIES) == Slot(mem, d, v / NENTRIES);
    }
  }

  lemma ForgetUsers(mem: Memory, role: Roles, dirs: set<nat>, p: nat)
    requires TablesOk(mem, role, dirs) && UsersOk(mem, role, dirs) && IsRole(role, p, Free)
    ensures UsersOk(mem - {p}, role, dirs)
  {
    ForgetTables(mem, role, dirs, p);
    hide TablesOk;
  }

  /** A page in hand mapped at v. */
  lemma MapUserKeeps(pool: seq<nat>, mem: Memory, role: Roles, dirs: set<nat>, d: nat, v: nat, p: nat, flags: nat)
    requires Inv(pool, mem, role, dirs) && d in dirs && v < USERPAGES && HasTable(mem, d, v)
    requires Entry(mem, d, v).Absent? && IsRole(role, p, Elsewhere)
    ensures IsRole(role, Slot(mem, d, v / NENTRIES).frame, Table(d, v / NENTRIES))
    ensures Inv(pool, SetEntry(mem, d, v, Present(p, flags)), role[p := User(d, v)], dirs)
    ensures OneEntryChanged(mem, SetEntry(mem, d, v, Present(p, flags)), dirs, d, v, Present(p, flags))
  {
    SetKeepsTables(mem, role, dirs, d, v, Present(p, flags));
    SetChangesOne(mem, role, dirs, d, v, Present(p, flags));
    RoleTables(SetEntry(mem, d, v, Present(p, flags)), role, dirs, p, User(d, v));
    hide TablesOk, Entry;
  }

  lemma MapKernelKeeps(pool: seq<nat>, mem: Memory, role: Roles, dirs: set<nat>, d: nat, v: nat, e: Pte)
    requires Inv(pool, mem, role, dirs) && d in dirs && USERPAGES <= v < NENTRIES * NENTRIES && HasTable(mem, d, v)
    ensures IsRole(role, Slot(mem, d, v / NENTRIES).frame, Table(d, v / NENTRIES))
    ensures Inv(pool, SetEntry(mem, d, v, e), role, dirs)
    ensures OneEntryChanged(mem, SetEntry(mem, d, v, e), dirs, d, v, e)
  {
    SetKeepsTables(mem, role, dirs, d, v, e);
    SetChangesOne(mem, role, dirs, d, v, e);
    hide TablesOk, Entry;
  }

  /** A user page unmapped and taken in hand. */
  lemma UnmapKeeps(pool: seq<nat>, mem: Memory, role: Roles, dirs: set<nat>, d: nat, v: nat)
    requires Inv(pool, mem, role, dirs) && d in dirs && v < USERPAGES && Entry(mem, d, v).Present?
    ensures IsRole(role, Slot(mem, d, v / NENTRIES).frame, Table(d, v / NENTRIES))
    ensures IsRole(role, Entry(mem, d, v).frame, User(d, v))
    ensures Inv(pool, SetEntry(mem, d, v, Absent), role[Entry(mem, d, v).frame := Elsewhere], dirs)
    ensures OneEntryChanged(mem, SetEntry(mem, d, v, Absent), dirs, d, v, Absent)
  {
    var p := Entry(mem, d, v).frame;
    SetKeepsTables(mem, role, dirs, d, v, Absent);
    SetChangesOne(mem, role, dirs, d, v, Absent);
    RoleTables(SetEntry(mem, d, v, Absent), role, dirs, p, Elsewhere);
    hide TablesOk, Entry;
  }

  // Tables and directories ------------------------------------------------------------------

  function Zeroed(): (t: seq<Pte>)
    ensures |t| == NENTRIES && forall i :: 0 <= i < NENTRIES ==> t[i] == Absent
  {
    seq(NENTRIES, _ => Absent)
  }

  /** A zeroed table hung into directory slot i. */
  function AddTable(mem: Memory, d: nat, i: nat, t: nat, flags: nat): Memory
    requires d in mem && |mem[d]| == NENTRIES && i < NENTRIES
  {
    mem[t := Zeroed()][d := mem[d][i := Present(t, flags)]]
  }

  ghost predicate SameEntries(mem: Memory, after: Memory, dirs: set<nat>) {
    forall x, w :: x in dirs && 0 <= w < NENTRIES * NENTRIES ==> Entry(after, x, w) == Entry(mem, x, w)
  }

  lemma AddTableTables(mem: Memory, role: Roles, dirs: set<nat>, d: nat, i: nat, t: nat, flags: nat)
    requires TablesOk(mem, role, dirs) && d in dirs && i < NENTRIES && Slot(mem, d, i).Absent?
    requires IsRole(role, t, Elsewhere) && flags == PTE_W + PTE_U
    ensures d in mem && |mem[d]| == NENTRIES
    ensures TablesOk(AddTable(mem, d, i, t, flags), role[t := Table(d, i)], dirs)
  {
    var after := AddTable(mem, d, i, t, flags);
    assert forall x, k :: x in dirs && 0 <= k < NENTRIES ==>
        Slot(after, x, k) == if x == d && k == i then Present(t, flags) else Slot(mem, x, k);
  }

  lemma AddTableEntries(mem: Memory, role: Roles, dirs: set<nat>, d: nat, i: nat, t: nat, flags: nat)
    requires TablesOk(mem, role, dirs) && d in dirs && i < NENTRIES && Slot(mem, d, i).Absent?
    requires IsRole(role, t, Elsewhere)
    ensures d in mem && |mem[d]| == NENTRIES
    ensures SameEntries(mem, AddTable(mem, d, i, t, flags), dirs)
  {
    var after := AddTable(mem, d, i, t, flags);
    forall x, w | x in dirs && 0 <= w < NENTRIES * NENTRIES
      ensures Entry(after, x, w) == Entry(mem, x, w)
    {
      var k := w / NENTRIES;
      assert Slot(after, x, k) == if x == d && k == i then Present(t, flags) else Slot(mem, x, k);
      if HasTable(mem, x, w) {
        assert IsRole(role, Slot(mem, x, k).frame, Table(x, k));
      }
    }
  }

  lemma SameEntriesUsers(mem: Memory, after: Memory, role: Roles, dirs: set<nat>)
    requires UsersOk(mem, role, dirs) && SameEntries(mem, after, dirs)
    ensures UsersOk(after, role, dirs)
  {
    hide Entry;
  }

  lemma AddTableKeeps(pool: seq<nat>, mem: Memory, role: Roles, dirs: set<nat>, d: nat, i: nat, t: nat, flags: nat)
    requires Inv(pool, mem, role, dirs) && d in dirs && i < NENTRIES && Slot(mem, d, i).Absent?
    requires IsRole(role, t, Elsewhere) && flags == PTE_W + PTE_U
    ensures d in mem && |mem[d]| == NENTRIES
    ensures Inv(pool, AddTable(mem, d, i, t, flags), role[t := Table(d, i)], dirs)
    ensures SameEntries(mem, AddTable(mem, d, i, t, flags), dirs)
  {
    AddTableTables(mem, role, dirs, d, i, t, flags);
    AddTableEntries(mem, role, dirs, d, i, t, flags);
    SameEntriesUsers(mem, AddTable(mem, d, i, t, flags), role, dirs);
    RoleUsers(AddTable(mem, d, i, t, flags), role, dirs, t, Table(d, i));
    hide TablesOk, UsersOk;
  }

  /** Nothing is mapped from lo up to hi. */
  ghost predicate Unmapped(mem: Memory, d: nat, lo: nat, hi: nat) {
    forall v :: lo <= v < hi ==> Entry(mem, d, v).Absent?
  }

  /** A page in hand becomes an empty directory. */
  lemma NewDirKeeps(pool: seq<nat>, mem: Memory, role: Roles, dirs: set<nat>, d: nat)
    requires Inv(pool, mem, role, dirs) && IsRole(role, d, Elsewhere)
    ensures Inv(pool, mem[d := Zeroed()], role[d := Dir], dirs + {d})
    ensures SameEntries(mem, mem[d := Zeroed()], dirs)
    ensures Unmapped(mem[d := Zeroed()], d, 0, NENTRIES * NENTRIES)
  {
    var after := mem[d := Zeroed()];
    assert forall x, i :: x in dirs + {d} && 0 <= i < NENTRIES ==>
             Slot(after, x, i) == if x == d then Absent else Slot(mem, x, i);
    forall x, w | x in dirs && 0 <= w < NENTRIES * NENTRIES
      ensures Entry(after, x, w) == Entry(mem, x, w)
    {
      if HasTable(mem, x, w) {
        assert IsRole(role, Slot(mem, x, w / NENTRIES).frame, Table(x, w / NENTRIES));
      }
    }
    assert TablesOk(after, role[d := Dir], dirs + {d}) by { hide UsersOk; }
    assert UsersOk(after, role[d := Dir], dirs + {d}) by { hide TablesOk; }
    hide TablesOk, UsersOk;
  }

  /** The roles once directory d, with its tables, is taken in hand. */
  ghost function Detached(role: Roles, d: nat): Roles {
    map p | p in role :: if p == d || (role[p].Table? && role[p].d == d) then Elsewhere else role[p]
  }

  /** A directory without user pages can be dismantled: its tables are distinct pages that
      nothing else uses. */
  lemma DetachKeeps(pool: seq<nat>, mem: Memory, role: Roles, dirs: set<nat>, d: nat)
    requires Inv(pool, mem, role, dirs) && d in dirs
    requires Unmapped(mem, d, 0, USERPAGES)
    ensures Inv(pool, mem, Detached(role, d), dirs - {d})
    ensures forall i :: 0 <= i < NENTRIES && Slot(mem, d, i).Present? ==>
              Slot(mem, d, i).frame != d && IsRole(Detached(role, d), Slot(mem, d, i).frame, Elsewhere)
    ensures forall i, j :: 0 <= i < j < NENTRIES && Slot(mem, d, i).Present? && Slot(mem, d, j).Present? ==>
              Slot(mem, d, i).frame != Slot(mem, d, j).frame
  {
    hide TablesOk, UsersOk, Detached;
    DetachTables(mem, role, dirs, d);
    DetachUsers(mem, role, dirs, d);
    DetachSlots(mem, role, dirs, d);
    DetachPool(pool, role, d);
  }

  lemma DetachTables(mem: Memory, role: Roles, dirs: set<nat>, d: nat)
    requires TablesOk(mem, role, dirs) && d in dirs
    ensures TablesOk(mem, Detached(role, d), dirs - {d}) && IsRole(role, d, Dir)
  {
    assert IsRole(role, d, Dir);
  }

  lemma DetachUsers(mem: Memory, role: Roles, dirs: set<nat>, d: nat)
    requires UsersOk(mem, role, dirs) && d in dirs && Unmapped(mem, d, 0, USERPAGES)
    requires IsRole(role, d, Dir)
    ensures UsersOk(mem, Detached(role, d), dirs - {d})
  {
    hide Entry;
  }

  lemma DetachSlots(mem: Memory, role: Roles, dirs: set<nat>, d: nat)
    requires TablesOk(mem, role, dirs) && d in dirs
    ensures forall i :: 0 <= i < NENTRIES && Slot(mem, d, i).Present? ==>
              Slot(mem, d, i).frame != d && IsRole(Detached(role, d), Slot(mem, d, i).frame, Elsewhere)
    ensures forall i, j :: 0 <= i < j < NENTRIES && Slot(mem, d, i).Present? && Slot(mem, d, j).Present? ==>
              Slot(mem, d, i).frame != Slot(mem, d, j).frame
  {
    hide Slot;
    assert IsRole(role, d, Dir);
    assert forall i :: 0 <= i < NENTRIES && Slot(mem, d, i).Present? ==>
             IsRole(role, Slot(mem, d, i).frame, Table(d, i));
  }

  lemma DetachPool(pool: seq<nat>, role: Roles, d: nat)
    requires PoolOk(pool, role) && IsRole(role, d, Dir)
    ensures PoolOk(pool, Detached(role, d))
  {
  }

  // The plain page-by-page walk ----------------------------------------------------------------

  datatype Pages = Pages(pool: seq<nat>, mem: Memory)

  /** Page v unmapped and freed, if it is mapped. */
  function FreeAt(s: Pages, d: nat, v: nat): Pages {
    var e := Entry(s.mem, d, v);
    if e.Absent? then s
    else Pages([e.frame] + s.pool, Clear(s.mem - {e.frame}, d, v))
  }

  function Clear(mem: Memory, d: nat, v: nat): Memory {
    var t := Slot(mem, d, v / NENTRIES);
    if t.Present? && t.frame in mem
      && |mem[t.frame]| == NENTRIES then mem[t.frame := mem[t.frame][v % NENTRIES := Absent]] else mem
  }

  /** Every page from lo up to hi visited in turn. */
  function PlainWalk(s: Pages, d: nat, lo: nat, hi: nat): Pages
    decreases hi - lo
  {
    if lo >= hi then s else PlainWalk(FreeAt(s, d, lo), d, lo + 1, hi)
  }

  /** Without a table there is nothing to do up to the next table. */
  lemma {:induction false} WalkSkips(s: Pages, d: nat, lo: nat, next: nat, hi: nat)
    requires lo <= next && Unmapped(s.mem, d, lo, next)
    ensures PlainWalk(s, d, lo, hi) == PlainWalk(s, d, next, hi)
    decreases next - lo
  {
    if lo < next && lo < hi {
      WalkSkips(s, d, lo + 1, next, hi);
    }
  }

  lemma NoTableUnmapped(mem: Memory, d: nat, v: nat)
    requires !HasTable(mem, d, v)
    ensures Unmapped(mem, d, v, (v / NENTRIES + 1) * NENTRIES)
  {
  }

  /** The roles once d's user pages from lo up to hi are free. */
  ghost function Cleared(role: Roles, d: nat, lo: nat, hi: nat): (r: Roles)
    ensures r.Keys == role.Keys
  {
    map p | p in role :: if role[p].User? && role[p].d == d && lo <= role[p].v < hi then Free else role[p]
  }

  lemma ClearedMore(mem: Memory, role: Roles, dirs: set<nat>, d: nat, lo: nat, a: nat, b: nat)
    requires UsersOk(mem, Cleared(role, d, lo, a), dirs) && d in dirs && lo <= a <= b && Unmapped(mem, d, a, b)
    ensures Cleared(role, d, lo, b) == Cleared(role, d, lo, a)
  {
    hide Entry;
    forall p | p in role && role[p].User? && role[p].d == d
      ensures !(a <= role[p].v < b)
    {
      if a <= role[p].v {
        assert IsRole(Cleared(role, d, lo, a), p, role[p]);
      }
    }
  }

  lemma ClearedOne(role: Roles, d: nat, lo: nat, a: nat, p: nat)
    requires lo <= a && p in role && Cleared(role, d, lo, a)[p] == User(d, a)
    requires forall q :: q in role && role[q] == User(d, a) ==> q == p
    ensures Cleared(role, d, lo, a + 1) == Cleared(role, d, lo, a)[p := Free]
  {
  }

  /** In the address spaces, d is unmapped from lo up to hi and all else is as it was. */
  ghost predicate OnlyCleared(mem: Memory, after: Memory, dirs: set<nat>, d: nat, lo: nat, hi: nat) {
    forall x, w :: x in dirs && 0 <= w < NENTRIES * NENTRIES ==>
      Entry(after, x, w) == if x == d && lo <= w < hi then Absent else Entry(mem, x, w)
  }

  lemma ClearedNothing(role: Roles, d: nat, lo: nat)
    ensures Cleared(role, d, lo, lo) == role
  {
  }

  lemma ClearedNone(mem: Memory, dirs: set<nat>, d: nat, lo: nat)
    ensures OnlyCleared(mem, mem, dirs, d, lo, lo)
  {
  }

  lemma WalkEnds(s: Pages, d: nat, a: nat, hi: nat)
    requires a >= hi
    ensures PlainWalk(s, d, a, hi) == s
  {
  }

  lemma WalkStep(s: Pages, d: nat, a: nat, hi: nat)
    requires a < hi
    ensures PlainWalk(s, d, a, hi) == PlainWalk(FreeAt(s, d, a), d, a + 1, hi)
  {
  }

  /** Passing over unmapped pages changes nothing. */
  lemma Skipped(pool: seq<nat>, before: Memory, mem: Memory, role: Roles, dirs: set<nat>, d: nat, lo: nat, a: nat,
                b: nat)
    requires Inv(pool, mem, Cleared(role, d, lo, a), dirs) && d in dirs && lo <= a <= b && Unmapped(mem, d, a, b)
    requires OnlyCleared(before, mem, dirs, d, lo, a)
    ensures OnlyCleared(before, mem, dirs, d, lo, b) && Cleared(role, d, lo, b) == Cleared(role, d, lo, a)
  {
    ClearedMore(mem, role, dirs, d, lo, a, b);
    hide Entry, Inv;
  }

  lemma SkippedOne(pool: seq<nat>, before: Memory, mem: Memory, role: Roles, dirs: set<nat>, d: nat, lo: nat, a: nat)
    requires Inv(pool, mem, Cleared(role, d, lo, a), dirs) && d in dirs && lo <= a && Entry(mem, d, a).Absent?
    requires OnlyCleared(before, mem, dirs, d, lo, a)
    ensures OnlyCleared(before, mem, dirs, d, lo, a + 1) && Cleared(role, d, lo, a + 1) == Cleared(role, d, lo, a)
  {
    hide Entry, Inv;
    Skipped(pool, before, mem, role, dirs, d, lo, a, a + 1);
  }

  lemma UnmappedPart(mem: Memory, d: nat, a: nat, b: nat, c: nat)
    requires Unmapped(mem, d, a, c) && b <= c
    ensures Unmapped(mem, d, a, b)
  {
  }

  lemma FreeAtNothing(s: Pages, d: nat, v: nat)
    requires Entry(s.mem, d, v).Absent?
    ensures FreeAt(s, d, v) == s
  {
  }

  /** Clearing the entry and forgetting the page commute. */
  lemma FreeAtIs(s: Pages, role: Roles, dirs: set<nat>, d: nat, v: nat)
    requires Inv(s.pool, s.mem, role, dirs) && d in dirs && v < USERPAGES && Entry(s.mem, d, v).Present?
    ensures IsRole(role, Slot(s.mem, d, v / NENTRIES).frame, Table(d, v / NENTRIES))
    ensures HasTable(s.mem, d, v) && Slot(s.mem, d, v / NENTRIES).frame in s.mem
    ensures |s.mem[Slot(s.mem, d, v / NENTRIES).frame]| == NENTRIES
    ensures var p := Entry(s.mem, d, v).frame;
            FreeAt(s, d, v) == Pages([p] + s.pool, SetEntry(s.mem, d, v, Absent) - {p})
  {
    var p, t := Entry(s.mem, d, v).frame, Slot(s.mem, d, v / NENTRIES).frame;
    assert IsRole(role, t, Table(d, v / NENTRIES)) && IsRole(role, p, User(d, v)) && IsRole(role, d, Dir);
    hide TablesOk, UsersOk;
    assert Slot(s.mem - {p}, d, v / NENTRIES) == Slot(s.mem, d, v / NENTRIES);
    assert Clear(s.mem - {p}, d, v) == SetEntry(s.mem, d, v, Absent) - {p};
  }

  lemma ClearedAt(pool: seq<nat>, mem: Memory, after: Memory, last: Memory, role: Roles, dirs: set<nat>,
                  before: Memory, d: nat, lo: nat, a: nat, p: nat)
    requires Inv(pool, mem, Cleared(role, d, lo, a), dirs) && d in dirs && lo <= a < USERPAGES
    requires OnlyCleared(before, mem, dirs, d, lo, a) && OneEntryChanged(mem, after, dirs, d, a, Absent)
    requires SameEntries(after, last, dirs)
    requires Entry(mem, d, a).Present? && Entry(mem, d, a).frame == p
    ensures p in role && Cleared(role, d, lo, a + 1) == Cleared(role, d, lo, a)[p := Free]
    ensures OnlyCleared(before, last, dirs, d, lo, a + 1)
  {
    hide Entry;
    assert IsRole(Cleared(role, d, lo, a), p, User(d, a));
    forall q | q in role && role[q] == User(d, a)
      ensures q == p
    {
      assert Cleared(role, d, lo, a)[q] == User(d, a);
    }
    ClearedOne(role, d, lo, a, p);
  }
}
