/** Link counts of sysfile.c and fs.c: create, link, unlink and iput over many directories. */
module Links {

  const ROOTINO := 1

  datatype Kind = Unused | Dir | File | Dev

  /** inum 0 is a free slot. */
  datatype Dirent = Dirent(name: string, inum: nat)

  /** ents are a directory's slots; ref counts the kernel's references. */
  datatype Inode = Inode(kind: Kind, nlink: nat, ref: nat, ents: seq<Dirent>)

  /** pending holds an inode once for every sys_link that has raised nlink and not yet made
      its entry. */
  datatype State = State(inodes: seq<Inode>, pending: multiset<nat>)

  predicate IsDir(ns: seq<Inode>, d: nat) { d < |ns| && ns[d].kind == Dir }

  /** A directory that has not been unlinked. */
  predicate Live(ns: seq<Inode>, d: nat) { IsDir(ns, d) && ns[d].nlink > 0 }

  /** Slot k of live directory d names i, and is not ".". */
  predicate Naming(ns: seq<Inode>, d: nat, k: nat, i: nat) {
    Live(ns, d) && k < |ns[d].ents| && ns[d].ents[k].inum == i && ns[d].ents[k].name != "."
  }

  ghost function Names(ns: seq<Inode>, i: nat): set<(nat, nat)> {
    set d: nat, k: nat | d < |ns| && k < |ns[d].ents| && Naming(ns, d, k, i) :: (d, k)
  }

  // What every step keeps -------------------------------------------------------------------

  ghost predicate LinkOk(s: State, i: nat) {
    i < |s.inodes| && s.inodes[i].nlink == |Names(s.inodes, i)| + s.pending[i]
  }

  /** nlink is the number of entries naming the inode in live directories, but for ".", and
      of links being made. */
  ghost predicate LinksOk(s: State) {
    forall i :: 0 < i < |s.inodes| ==> LinkOk(s, i)
  }

  ghost predicate DirOk(ns: seq<Inode>, d: nat)
    requires d < |ns|
  {
    var es := ns[d].ents;
    && |es| >= 2 && es[0] == Dirent(".", d) && es[1].name == ".." && 0 < es[1].inum < |ns|
    && (forall k :: 2 <= k < |es| && es[k].inum != 0 ==> es[k].name != "." && es[k].name != ".." && es[k].inum < |ns|)
    && (ns[d].nlink == 0 ==> forall k :: 2 <= k < |es| ==> es[k].inum == 0)
  }

  ghost predicate ShapesOk(s: State) {
    && (forall d :: 0 <= d < |s.inodes| && s.inodes[d].kind == Dir ==> DirOk(s.inodes, d))
    && (forall i :: 0 <= i < |s.inodes| && s.inodes[i].kind == Unused ==>
            s.inodes[i].nlink == 0 && s.inodes[i].ref == 0)
    && (forall i :: i in s.pending ==> 0 < i < |s.inodes| && s.inodes[i].kind != Dir)
    && |s.inodes| > 0 && s.inodes[0].kind == Unused
  }

  /** A child slot: any but the first two. */
  predicate Child(ns: seq<Inode>, d: nat, k: nat, i: nat) { k >= 2 && Naming(ns, d, k, i) && IsDir(ns, i) }

  function Parent(ns: seq<Inode>, i: nat): nat {
    if i < |ns| && |ns[i].ents| >= 2 then ns[i].ents[1].inum else 0
  }

  /** A directory is a child in one slot of its parent only, and live ones all are. */
  ghost predicate TreeOk(ns: seq<Inode>) {
    && Live(ns, ROOTINO) && Parent(ns, ROOTINO) == ROOTINO
    && (forall d, k, i :: 0 < i && Child(ns, d, k, i) ==> i != ROOTINO && Parent(ns, i) == d && d != i && Live(ns, i))
    && (forall d, k, m, i :: 0 < i && Child(ns, d, k, i) && Child(ns, d, m, i) ==> k == m)
    && (forall i :: Live(ns, i) && i != ROOTINO ==> exists k :: Child(ns, Parent(ns, i), k, i))
    && (forall i :: IsDir(ns, i) && i != ROOTINO ==> Parent(ns, i) != i)
  }

  ghost predicate Inv(s: State) { LinksOk(s) && ShapesOk(s) && TreeOk(s.inodes) }

  // Counting ------------------------------------------------------------------------------------

  lemma NamesSame(ns: seq<Inode>, ms: seq<Inode>, i: nat)
    requires forall d, k :: Naming(ms, d, k, i) <==> Naming(ns, d, k, i)
    ensures |Names(ms, i)| == |Names(ns, i)|
  {
    assert Names(ms, i) == Names(ns, i);
  }

  lemma NamesMore(ns: seq<Inode>, ms: seq<Inode>, i: nat, d: nat, k: nat)
    requires forall x, y :: Naming(ms, x, y, i) <==> Naming(ns, x, y, i) || (x == d && y == k)
    requires !Naming(ns, d, k, i)
    ensures |Names(ms, i)| == |Names(ns, i)| + 1
  {
    assert Naming(ms, d, k, i);
    assert Names(ms, i) == Names(ns, i) + {(d, k)};
  }

  lemma NamesLess(ns: seq<Inode>, ms: seq<Inode>, i: nat, d: nat, k: nat)
    requires forall x, y :: Naming(ms, x, y, i) <==> Naming(ns, x, y, i) && !(x == d && y == k)
    requires Naming(ns, d, k, i)
    ensures |Names(ms, i)| + 1 == |Names(ns, i)|
  {
    NamesMore(ms, ns, i, d, k);
  }

  lemma NamedHas(ns: seq<Inode>, i: nat, d: nat, k: nat)
    requires Naming(ns, d, k, i)
    ensures |Names(ns, i)| >= 1
  {
    assert (d, k) in Names(ns, i);
  }

  lemma NamedTwice(ns: seq<Inode>, i: nat, d: nat, k: nat, x: nat, y: nat)
    requires Naming(ns, d, k, i) && Naming(ns, x, y, i) && (d, k) != (x, y)
    ensures |Names(ns, i)| >= 2
  {
    assert {(d, k), (x, y)} <= Names(ns, i);
    assert |{(d, k), (x, y)}| == 2;
    Included({(d, k), (x, y)}, Names(ns, i));
  }

  lemma Included(a: set<(nat, nat)>, b: set<(nat, nat)>)
    requires a <= b
    ensures |a| <= |b|
  {
    assert b == a + (b - a);
  }

  lemma NamedOnce(ns: seq<Inode>, i: nat, d: nat, k: nat)
    requires Naming(ns, d, k, i) && forall x, y :: Naming(ns, x, y, i) ==> x == d && y == k
    ensures |Names(ns, i)| == 1
  {
    assert (d, k) in Names(ns, i);
    assert Names(ns, i) == {(d, k)};
  }

  // Steps ---------------------------------------------------------------------------------------

  predicate HasName(es: seq<Dirent>, name: string) {
    exists k :: 0 <= k < |es| && es[k].inum != 0 && es[k].name == name
  }

  /** dirlink's slot: the first free one, or a new one at the end. */
  function Slot(es: seq<Dirent>): (k: nat)
    ensures k <= |es| && (k < |es| ==> es[k].inum == 0)
    ensures forall j :: 0 <= j < k ==> es[j].inum != 0
  {
    if es == [] || es[0].inum == 0 then 0 else 1 + Slot(es[1..])
  }

  function Stored(es: seq<Dirent>, k: nat, e: Dirent): seq<Dirent>
    requires k <= |es|
  {
    if k < |es| then es[k := e] else es + [e]
  }

  /** dirlink, once the name is known to be new. */
  function Linked(es: seq<Dirent>, name: string, inum: nat): seq<Dirent> {
    Stored(es, Slot(es), Dirent(name, inum))
  }

  /** isdirempty. */
  predicate Empty(es: seq<Dirent>) { forall k :: 2 <= k < |es| ==> es[k].inum == 0 }

  datatype Step =
    | Create(dp: nat, name: string, kind: Kind, ip: nat)   // of a new name
    | LinkStart(ip: nat)                                   // sys_link raises nlink
    | LinkFinish(ip: nat, dp: nat, name: string)           // and makes the entry,
    | LinkFail(ip: nat)                                    // or takes nlink back
    | Unlink(dp: nat, k: nat)                              // the entry in slot k
    | Get(ip: nat)                                         // iget, idup
    | Put(ip: nat)                                         // iput

  predicate Enabled(s: State, e: Step) {
    var ns := s.inodes;
    match e
    case Create(dp, name, kind, ip) =>
      IsDir(ns, dp) && !HasName(ns[dp].ents, name) && kind != Unused && 0 < ip < |ns| && ns[ip].kind == Unused
    case LinkStart(ip) => ip < |ns| && ns[ip].kind != Dir && ns[ip].kind != Unused
    case LinkFinish(ip, dp, name) => ip in s.pending && ip < |ns| && IsDir(ns, dp) && !HasName(ns[dp].ents, name)
    case LinkFail(ip) => ip in s.pending && ip < |ns| && ns[ip].nlink > 0
    case Unlink(dp, k) =>
      && IsDir(ns, dp) && k < |ns[dp].ents| && ns[dp].ents[k].name != "." && ns[dp].ents[k].name != ".."
      && 0 < ns[dp].ents[k].inum < |ns| && ns[ns[dp].ents[k].inum].nlink > 0 && ns[dp].nlink > 0
      && ns[dp].ents[k].inum != dp
      && (IsDir(ns, ns[dp].ents[k].inum) ==> Empty(ns[ns[dp].ents[k].inum].ents))
    case Get(ip) => ip < |ns| && ns[ip].kind != Unused
    case Put(ip) => ip < |ns| && ns[ip].ref > 0
  }

  /** iput of the last reference to an inode without links. */
  predicate Frees(x: Inode) { x.nlink == 0 && x.ref == 1 }

  function NewInode(kind: Kind, ip: nat, dp: nat): Inode {
    Inode(kind, 1, 1, if kind == Dir then [Dirent(".", ip), Dirent("..", dp)] else [])
  }

  function After(s: State, e: Step): State
    requires Enabled(s, e)
  {
    var ns := s.inodes;
    match e
    case Create(dp, name, kind, ip) =>
      var x := ns[dp];
      s.(inodes := ns[ip := NewInode(kind, ip, dp)]
                     [dp := x.(nlink := if kind == Dir then x.nlink + 1 else x.nlink,
                               ents := Linked(x.ents, name, ip))])
    case LinkStart(ip) => State(ns[ip := ns[ip].(nlink := ns[ip].nlink + 1)], s.pending + multiset{ip})
    case LinkFinish(ip, dp, name) =>
      State(ns[dp := ns[dp].(ents := Linked(ns[dp].ents, name, ip))], s.pending - multiset{ip})
    case LinkFail(ip) => State(ns[ip := ns[ip].(nlink := ns[ip].nlink - 1)], s.pending - multiset{ip})
    case Unlink(dp, k) =>
      var x, ip := ns[dp], ns[dp].ents[k].inum;
      s.(inodes := ns[dp := x.(nlink := if IsDir(ns, ip) then x.nlink - 1 else x.nlink,
                               ents := x.ents[k := Dirent("", 0)])]
                     [ip := ns[ip].(nlink := ns[ip].nlink - 1)])
    case Get(ip) => s.(inodes := ns[ip := ns[ip].(ref := ns[ip].ref + 1)])
    case Put(ip) =>
      if Frees(ns[ip]) then s.(inodes := ns[ip := Inode(Unused, 0, 0, [])])
      else s.(inodes := ns[ip := ns[ip].(ref := ns[ip].ref - 1)])
  }

  // Steps that leave every live directory alone -----------------------------------------------------

  ghost predicate SameDirs(ns: seq<Inode>, ms: seq<Inode>) {
    && |ms| == |ns|
    && (forall d :: 0 <= d < |ns| ==> (Live(ms, d) <==> Live(ns, d)))
    && (forall d :: 0 <= d < |ns| && Live(ns, d) ==> ms[d].ents == ns[d].ents)
  }

  lemma SameDirsNames(ns: seq<Inode>, ms: seq<Inode>, i: nat)
    requires SameDirs(ns, ms)
    ensures |Names(ms, i)| == |Names(ns, i)|
    ensures forall d, k :: Naming(ms, d, k, i) <==> Naming(ns, d, k, i)
  {
    NamesSame(ns, ms, i);
  }

  lemma SameDirsTree(ns: seq<Inode>, ms: seq<Inode>)
    requires SameDirs(ns, ms) && TreeOk(ns)
    requires forall d: nat :: IsDir(ms, d) ==> IsDir(ns, d) && ms[d].ents == ns[d].ents
    ensures TreeOk(ms)
  {
    forall d, k, i | Child(ms, d, k, i)
      ensures Child(ns, d, k, i)
    {
    }
    forall i | Live(ms, i) && i != ROOTINO
      ensures exists k :: Child(ms, Parent(ms, i), k, i)
    {
      var k :| Child(ns, Parent(ns, i), k, i);
      assert Child(ms, Parent(ms, i), k, i);
    }
  }

  predicate Quiet(e: Step) { e.LinkStart? || e.LinkFail? || e.Get? || e.Put? }

  /** Inode ip changed in its counts only, a directory's links not at all; or was freed. */
  predicate Touched(ns: seq<Inode>, ms: seq<Inode>, ip: nat) {
    && ip < |ns| == |ms| && ms == ns[ip := ms[ip]] && ns[ip].kind != Unused
    && (|| (ms[ip].kind == ns[ip].kind && ms[ip].ents == ns[ip].ents
         && (ns[ip].kind == Dir ==> ms[ip].nlink == ns[ip].nlink))
        || (Frees(ns[ip]) && ms[ip] == Inode(Unused, 0, 0, [])))
  }

  lemma QuietTouches(s: State, e: Step)
    requires ShapesOk(s) && Enabled(s, e) && Quiet(e)
    ensures Touched(s.inodes, After(s, e).inodes, e.ip)
  {
  }

  lemma TouchedDirs(ns: seq<Inode>, ms: seq<Inode>, ip: nat)
    requires Touched(ns, ms, ip)
    ensures SameDirs(ns, ms) && forall d: nat :: IsDir(ms, d) ==> IsDir(ns, d) && ms[d].ents == ns[d].ents
  {
  }

  /** nlink and pending move together. */
  ghost predicate CountsMove(s: State, t: State) {
    && |s.inodes| == |t.inodes|
    && forall i :: 0 < i < |s.inodes| ==> t.inodes[i].nlink - t.pending[i] == s.inodes[i].nlink - s.pending[i]
  }

  lemma QuietCounts(s: State, e: Step)
    requires Enabled(s, e) && Quiet(e)
    ensures CountsMove(s, After(s, e))
  {
  }

  lemma SameDirsLinks(s: State, t: State)
    requires LinksOk(s) && SameDirs(s.inodes, t.inodes) && CountsMove(s, t)
    ensures LinksOk(t)
  {
    forall i | 0 < i < |t.inodes|
      ensures LinkOk(t, i)
    {
      SameDirsNames(s.inodes, t.inodes, i);
      assert LinkOk(s, i);
    }
  }

  lemma TouchedShapes(s: State, t: State, ip: nat)
    requires ShapesOk(s) && Touched(s.inodes, t.inodes, ip)
    requires forall i :: i in t.pending ==> i in s.pending || (i == ip && s.inodes[i].kind != Dir)
    ensures ShapesOk(t)
  {
  }

  lemma QuietKeeps(s: State, e: Step)
    requires Inv(s) && Enabled(s, e) && Quiet(e)
    ensures Inv(After(s, e))
  {
    var t := After(s, e);
    QuietTouches(s, e);
    QuietCounts(s, e);
    TouchedDirs(s.inodes, t.inodes, e.ip);
    SameDirsTree(s.inodes, t.inodes);
    SameDirsLinks(s, t);
    assert forall i :: i in t.pending ==> i in s.pending || (i == e.ip && s.inodes[i].kind != Dir);
    TouchedShapes(s, t, e.ip);
    hide LinksOk, TreeOk, ShapesOk, After, Enabled, SameDirs;
  }

  // Steps that make an entry ------------------------------------------------------------------------

  lemma LinkedSlots(es: seq<Dirent>, name: string, inum: nat)
    ensures |Linked(es, name, inum)| == if Slot(es) < |es| then |es| else |es| + 1
    ensures forall k :: 0 <= k < |Linked(es, name, inum)| ==>
              Linked(es, name, inum)[k] == if k == Slot(es) then Dirent(name, inum) else es[k]
  {
  }

  /** Entry `name` for ip made in directory dp, where ip is no directory yet but may become
      one under dp. */
  ghost predicate Hung(ns: seq<Inode>, ms: seq<Inode>, dp: nat, name: string, ip: nat) {
    && 0 < dp < |ns| == |ms| && 0 < ip < |ns| && ip != dp && IsDir(ns, dp) && !IsDir(ns, ip)
    && (forall d :: 0 <= d < |ns| && d != dp && d != ip ==> ms[d] == ns[d])
    && ms[dp].kind == Dir && ms[dp].ents == Linked(ns[dp].ents, name, ip)
    && (IsDir(ms, ip) ==> ms[ip].nlink == 1 && ms[ip].ents == [Dirent(".", ip), Dirent("..", dp)])
    && ms[dp].nlink == ns[dp].nlink + (if IsDir(ms, ip) then 1 else 0)
    && name != "." && name != ".."
  }

  lemma HungSlot(ns: seq<Inode>, ms: seq<Inode>, dp: nat, name: string, ip: nat)
    requires Hung(ns, ms, dp, name, ip) && DirOk(ns, dp)
    ensures Slot(ns[dp].ents) >= 2
  {
  }

  /** In a live directory the entry adds itself, and a new directory adds its "..". */
  lemma HungNaming(ns: seq<Inode>, ms: seq<Inode>, dp: nat, name: string, ip: nat, d: nat, k: nat, i: nat)
    requires Hung(ns, ms, dp, name, ip) && Live(ns, dp) && i > 0
    ensures Naming(ms, d, k, i) <==>
              || Naming(ns, d, k, i)
              || (d == dp && k == Slot(ns[dp].ents) && i == ip)
              || (IsDir(ms, ip) && d == ip && k == 1 && i == dp)
  {
    LinkedSlots(ns[dp].ents, name, ip);
    hide Linked;
  }

  lemma HungNames(ns: seq<Inode>, ms: seq<Inode>, dp: nat, name: string, ip: nat, i: nat)
    requires Hung(ns, ms, dp, name, ip) && Live(ns, dp) && i > 0
    ensures |Names(ms, i)| == |Names(ns, i)| + (if i == ip || (i == dp && IsDir(ms, ip)) then 1 else 0)
  {
    forall d, k
      ensures Naming(ms, d, k, i) <==>
                || Naming(ns, d, k, i)
                || (d == dp && k == Slot(ns[dp].ents) && i == ip)
                || (IsDir(ms, ip) && d == ip && k == 1 && i == dp)
    {
      HungNaming(ns, ms, dp, name, ip, d, k, i);
    }
    if i == ip {
      NamesMore(ns, ms, i, dp, Slot(ns[dp].ents));
    } else if i == dp && IsDir(ms, ip) {
      NamesMore(ns, ms, i, ip, 1);
    } else {
      NamesSame(ns, ms, i);
    }
  }

  lemma HungChild(ns: seq<Inode>, ms: seq<Inode>, dp: nat, name: string, ip: nat, d: nat, k: nat, i: nat)
    requires Hung(ns, ms, dp, name, ip) && Live(ns, dp) && DirOk(ns, dp) && i > 0
    requires IsDir(ms, ip) ==> forall x, y :: !Naming(ns, x, y, ip)
    ensures Child(ms, d, k, i) <==>
              Child(ns, d, k, i) || (IsDir(ms, ip) && d == dp && k == Slot(ns[dp].ents) && i == ip)
  {
    HungNaming(ns, ms, dp, name, ip, d, k, i);
    HungSlot(ns, ms, dp, name, ip);
    hide Naming, Slot, Linked;
  }

  lemma HungParent(ns: seq<Inode>, ms: seq<Inode>, dp: nat, name: string, ip: nat, i: nat)
    requires Hung(ns, ms, dp, name, ip) && DirOk(ns, dp) && IsDir(ms, i)
    ensures Parent(ms, i) == if i == ip then dp else Parent(ns, i)
  {
    HungSlot(ns, ms, dp, name, ip);
    LinkedSlots(ns[dp].ents, name, ip);
    hide Linked;
  }

  /** A tree with one child more, if ip is a directory now. */
  lemma TreeMore(ns: seq<Inode>, ms: seq<Inode>, dp: nat, at: nat, ip: nat)
    requires TreeOk(ns) && !IsDir(ns, ip) && Live(ns, dp) && dp != ip && ip > 0
    requires forall i: nat :: (IsDir(ms, i) <==> IsDir(ns, i) || (i == ip && IsDir(ms, ip)))
               && (Live(ms, i) <==> Live(ns, i) || (i == ip && IsDir(ms, ip)))
    requires forall i: nat :: IsDir(ms, i) ==> Parent(ms, i) == if i == ip then dp else Parent(ns, i)
    requires IsDir(ms, ip) ==> forall d, k :: !Child(ns, d, k, ip)
    requires forall d, k, i :: i > 0 ==>
               (Child(ms, d, k, i) <==> Child(ns, d, k, i) || (IsDir(ms, ip) && d == dp && k == at && i == ip))
    requires !IsDir(ns, 0)
    ensures TreeOk(ms)
  {
    LiveIsDir(ns, ROOTINO);
    forall d, k, i | i > 0 && Child(ns, d, k, i)
      ensures IsDir(ns, i)
    {
    }
    hide Child, Parent, Live, IsDir;
    forall i | Live(ms, i) && i != ROOTINO
      ensures exists k :: Child(ms, Parent(ms, i), k, i)
    {
      LiveIsDir(ms, i);
      if i == ip {
        assert Child(ms, Parent(ms, i), at, i);
      } else {
        var k :| Child(ns, Parent(ns, i), k, i);
        assert Child(ms, Parent(ms, i), k, i);
      }
    }
  }

  lemma HungTree(ns: seq<Inode>, ms: seq<Inode>, dp: nat, name: string, ip: nat)
    requires Hung(ns, ms, dp, name, ip) && Live(ns, dp) && DirOk(ns, dp) && TreeOk(ns) && !IsDir(ns, 0)
    requires IsDir(ms, ip) ==> forall x, y :: !Naming(ns, x, y, ip)
    ensures TreeOk(ms)
  {
    var at := Slot(ns[dp].ents);
    forall d, k, i | i > 0
      ensures Child(ms, d, k, i) <==> Child(ns, d, k, i) || (IsDir(ms, ip) && d == dp && k == at && i == ip)
    {
      HungChild(ns, ms, dp, name, ip, d, k, i);
    }
    forall i: nat | IsDir(ms, i)
      ensures Parent(ms, i) == if i == ip then dp else Parent(ns, i)
    {
      HungParent(ns, ms, dp, name, ip, i);
    }
    hide TreeOk, Parent, Slot, Linked, DirOk, Naming;
    TreeMore(ns, ms, dp, at, ip);
  }

  predicate Makes(e: Step) { e.Create? || e.LinkFinish? }

  lemma MakesHangs(s: State, e: Step)
    requires Inv(s) && Enabled(s, e) && Makes(e)
    ensures Hung(s.inodes, After(s, e).inodes, e.dp, e.name, e.ip) && DirOk(s.inodes, e.dp)
    ensures e.LinkFinish? ==> !IsDir(After(s, e).inodes, e.ip)
  {
    assert DirOk(s.inodes, e.dp);
    assert e.dp > 0;
    assert e.LinkFinish? ==> 0 < e.ip < |s.inodes| && s.inodes[e.ip].kind != Dir;
    hide LinksOk, TreeOk, ShapesOk, Linked;
    NewName(s.inodes, e.dp, e.name);
    hide HasName, DirOk;
  }

  /** A new name is neither "." nor "..", which every directory has. */
  lemma NewName(ns: seq<Inode>, d: nat, name: string)
    requires 0 < d < |ns| && DirOk(ns, d) && !HasName(ns[d].ents, name)
    ensures name != "." && name != ".."
  {
    assert ns[d].ents[0].inum != 0 && ns[d].ents[1].inum != 0;
  }

  /** A new inode is named nowhere. */
  lemma UnusedUnnamed(s: State, ip: nat)
    requires LinksOk(s) && ShapesOk(s) && 0 < ip < |s.inodes| && s.inodes[ip].kind == Unused
    ensures |Names(s.inodes, ip)| == 0 && s.pending[ip] == 0
    ensures forall x, y :: !Naming(s.inodes, x, y, ip)
  {
    assert LinkOk(s, ip);
    hide ShapesOk, Naming;
    forall x, y
      ensures !Naming(s.inodes, x, y, ip)
    {
      if Naming(s.inodes, x, y, ip) {
        NamedHas(s.inodes, ip, x, y);
      }
    }
  }

  lemma MakesLinks(s: State, e: Step)
    requires Inv(s) && Enabled(s, e) && Makes(e) && Live(s.inodes, e.dp)
    ensures LinksOk(After(s, e))
  {
    var t := After(s, e);
    MakesHangs(s, e);
    if e.Create? {
      UnusedUnnamed(s, e.ip);
    }
    hide ShapesOk, TreeOk, Hung, DirOk, Linked, Names;
    forall i | 0 < i < |t.inodes|
      ensures LinkOk(t, i)
    {
      HungNames(s.inodes, t.inodes, e.dp, e.name, e.ip, i);
      assert LinkOk(s, i);
    }
  }

  lemma MakesShapes(s: State, e: Step)
    requires Inv(s) && Enabled(s, e) && Makes(e) && Live(s.inodes, e.dp)
    ensures ShapesOk(After(s, e))
  {
    var t := After(s, e);
    MakesHangs(s, e);
    if e.Create? {
      UnusedUnnamed(s, e.ip);
    }
    hide LinksOk, TreeOk, Linked, Slot, Naming, HasName;
    forall d | 0 <= d < |t.inodes| && t.inodes[d].kind == Dir
      ensures DirOk(t.inodes, d)
    {
      HungDir(s, t.inodes, e.dp, e.name, e.ip, d);
    }
    hide Hung, DirOk;
  }

  lemma HungDir(s: State, ms: seq<Inode>, dp: nat, name: string, ip: nat, d: nat)
    requires ShapesOk(s) && Hung(s.inodes, ms, dp, name, ip) && Live(s.inodes, dp) && IsDir(ms, d)
    ensures DirOk(ms, d)
  {
    var ns := s.inodes;
    assert d != ip ==> DirOk(ns, d);
    assert DirOk(ns, dp);
    HungSlot(ns, ms, dp, name, ip);
    LinkedSlots(ns[dp].ents, name, ip);
    hide ShapesOk, Linked, Slot;
  }

  lemma MakesKeeps(s: State, e: Step)
    requires Inv(s) && Enabled(s, e) && Makes(e) && Live(s.inodes, e.dp)
    ensures Inv(After(s, e))
  {
    MakesHangs(s, e);
    MakesLinks(s, e);
    MakesShapes(s, e);
    if e.Create? {
      UnusedUnnamed(s, e.ip);
    }
    assert !IsDir(s.inodes, 0);
    HungTree(s.inodes, After(s, e).inodes, e.dp, e.name, e.ip);
    hide LinksOk, TreeOk, ShapesOk, Hung, DirOk, Enabled, After, Naming;
  }

  // Unlink --------------------------------------------------------------------------------------------

  /** An entry that unlink may remove is a child slot of a live directory. */
  lemma UnlinkNames(s: State, dp: nat, k: nat)
    requires Inv(s) && IsDir(s.inodes, dp) && k < |s.inodes[dp].ents| && s.inodes[dp].ents[k].inum > 0
    requires s.inodes[dp].ents[k].name != "." && s.inodes[dp].ents[k].name != ".."
    ensures k >= 2 && dp > 0 && Naming(s.inodes, dp, k, s.inodes[dp].ents[k].inum)
    ensures s.inodes[dp].ents[k].inum < |s.inodes|
    ensures IsDir(s.inodes, s.inodes[dp].ents[k].inum) ==> Child(s.inodes, dp, k, s.inodes[dp].ents[k].inum)
  {
    assert DirOk(s.inodes, dp);
    hide LinksOk, TreeOk, ShapesOk;
  }

  /** Nobody's parent is empty. */
  lemma NotEmptyParent(ns: seq<Inode>, i: nat, x: nat)
    requires TreeOk(ns) && Live(ns, x) && x > 0 && i != ROOTINO && IsDir(ns, i) && Empty(ns[i].ents)
    ensures Parent(ns, x) != i
  {
    if x != ROOTINO {
      var m :| Child(ns, Parent(ns, x), m, x);
    }
  }

  /** An empty live directory is named once, by its parent. */
  lemma EmptyNamedOnce(ns: seq<Inode>, d: nat, k: nat, i: nat)
    requires TreeOk(ns) && Child(ns, d, k, i) && i > 0 && Empty(ns[i].ents) && !IsDir(ns, 0)
    requires forall x: nat :: Live(ns, x) ==> DirOk(ns, x)
    ensures |Names(ns, i)| == 1
  {
    forall x, y | Naming(ns, x, y, i)
      ensures x == d && y == k
    {
      assert DirOk(ns, x);
      NotEmptyParent(ns, i, x);
      if y >= 2 {
        assert Child(ns, x, y, i);
      }
    }
    hide TreeOk, Child, Empty, DirOk;
    NamedOnce(ns, i, d, k);
  }

  /** Its parent is named at least twice. */
  lemma ParentNamedTwice(ns: seq<Inode>, d: nat, k: nat, i: nat)
    requires TreeOk(ns) && Child(ns, d, k, i) && i > 0
    requires forall x: nat :: Live(ns, x) ==> DirOk(ns, x)
    ensures |Names(ns, d)| >= 2
  {
    assert DirOk(ns, i) && DirOk(ns, d) && Parent(ns, i) == d;
    assert Naming(ns, i, 1, d);
    if d == ROOTINO {
      assert Naming(ns, d, 1, d);
      NamedTwice(ns, d, i, 1, d, 1);
    } else {
      var m :| Child(ns, Parent(ns, d), m, d);
      NamedTwice(ns, d, i, 1, Parent(ns, d), m);
    }
  }

  lemma LiveDirsOk(s: State)
    requires ShapesOk(s)
    ensures forall x: nat :: Live(s.inodes, x) ==> DirOk(s.inodes, x)
  {
  }

  /** What unlink needs holds of every entry it can reach: its "nlink < 1" panic is out of
      reach, and neither count goes below zero. */
  lemma UnlinkNeverPanics(s: State, dp: nat, k: nat)
    requires Inv(s) && IsDir(s.inodes, dp) && k < |s.inodes[dp].ents| && s.inodes[dp].ents[k].inum > 0
    requires s.inodes[dp].ents[k].name != "." && s.inodes[dp].ents[k].name != ".."
    requires var ip := s.inodes[dp].ents[k].inum; IsDir(s.inodes, ip) ==> Empty(s.inodes[ip].ents)
    ensures Enabled(s, Unlink(dp, k))
    ensures var ip := s.inodes[dp].ents[k].inum;
            IsDir(s.inodes, ip) ==> s.inodes[ip].nlink == 1 && s.inodes[dp].nlink >= 2
  {
    var ip := s.inodes[dp].ents[k].inum;
    UnlinkNames(s, dp, k);
    NamedHas(s.inodes, ip, dp, k);
    assert LinkOk(s, ip);
    if IsDir(s.inodes, ip) {
      EmptyChildCounts(s, dp, k, ip);
    }
    hide Inv, Names;
  }

  lemma EmptyChildCounts(s: State, dp: nat, k: nat, ip: nat)
    requires Inv(s) && Child(s.inodes, dp, k, ip) && ip > 0 && Empty(s.inodes[ip].ents)
    ensures s.inodes[ip].nlink == 1 && s.inodes[dp].nlink >= 2 && ip != dp
  {
    assert !IsDir(s.inodes, 0);
    assert LinkOk(s, ip) && LinkOk(s, dp);
    assert ip !in s.pending && dp !in s.pending;
    LiveDirsOk(s);
    assert ip != dp;
    hide ShapesOk, LinksOk, DirOk, Names, Child, TreeOk;
    EmptyNamedOnce(s.inodes, dp, k, ip);
    ParentNamedTwice(s.inodes, dp, k, ip);
  }

  /** The entry is gone, and with a directory its "..". */
  lemma UnlinkNaming(s: State, dp: nat, k: nat, d: nat, y: nat, i: nat)
    requires Inv(s) && Enabled(s, Unlink(dp, k)) && i > 0
    ensures var ip, ms := s.inodes[dp].ents[k].inum, After(s, Unlink(dp, k)).inodes;
            Naming(ms, d, y, i) <==>
              && Naming(s.inodes, d, y, i) && !(d == dp && y == k)
              && (IsDir(s.inodes, ip) ==> !(d == ip && y == 1))
  {
    var ip, ms := s.inodes[dp].ents[k].inum, After(s, Unlink(dp, k)).inodes;
    UnlinkNeverPanics(s, dp, k);
    if IsDir(s.inodes, ip) {
      assert DirOk(s.inodes, ip);
    }
    hide Inv, DirOk;
  }

  lemma UnlinkNamesLess(s: State, dp: nat, k: nat, i: nat)
    requires Inv(s) && Enabled(s, Unlink(dp, k)) && 0 < i < |s.inodes|
    ensures var ip, ms := s.inodes[dp].ents[k].inum, After(s, Unlink(dp, k)).inodes;
            |Names(ms, i)| == |Names(s.inodes, i)| - (if i == ip || (i == dp && IsDir(s.inodes, ip)) then 1 else 0)
  {
    var ip, ms := s.inodes[dp].ents[k].inum, After(s, Unlink(dp, k)).inodes;
    forall d, y
      ensures Naming(ms, d, y, i) <==>
                && Naming(s.inodes, d, y, i) && !(d == dp && y == k)
                && (IsDir(s.inodes, ip) ==> !(d == ip && y == 1))
    {
      UnlinkNaming(s, dp, k, d, y, i);
    }
    UnlinkNames(s, dp, k);
    if IsDir(s.inodes, ip) {
      ParentIs(s, dp, k, ip);
    }
    hide Inv, After, Enabled, Child;
    if i == ip {
      NamesLess(s.inodes, ms, i, dp, k);
    } else if i == dp && IsDir(s.inodes, ip) {
      NamesLess(s.inodes, ms, i, ip, 1);
    } else {
      NamesSame(s.inodes, ms, i);
    }
  }

  lemma ParentIs(s: State, dp: nat, k: nat, ip: nat)
    requires Inv(s) && Child(s.inodes, dp, k, ip) && 0 < ip
    ensures Naming(s.inodes, ip, 1, dp) && forall i :: Naming(s.inodes, ip, 1, i) ==> i == dp
  {
    assert DirOk(s.inodes, ip);
    hide LinksOk, ShapesOk;
  }

  lemma UnlinkLinks(s: State, dp: nat, k: nat)
    requires Inv(s) && Enabled(s, Unlink(dp, k))
    ensures LinksOk(After(s, Unlink(dp, k)))
  {
    var t := After(s, Unlink(dp, k));
    forall i | 0 < i < |t.inodes|
      ensures LinkOk(t, i)
    {
      UnlinkNamesLess(s, dp, k, i);
      assert LinkOk(s, i);
    }
  }

  lemma UnlinkShapes(s: State, dp: nat, k: nat)
    requires Inv(s) && Enabled(s, Unlink(dp, k))
    ensures ShapesOk(After(s, Unlink(dp, k)))
  {
    var t := After(s, Unlink(dp, k));
    UnlinkNames(s, dp, k);
    UnlinkNeverPanics(s, dp, k);
    hide LinksOk, TreeOk;
    forall d | 0 <= d < |t.inodes| && t.inodes[d].kind == Dir
      ensures DirOk(t.inodes, d)
    {
      assert DirOk(s.inodes, d);
    }
  }

  lemma UnlinkChild(s: State, dp: nat, k: nat, d: nat, y: nat, i: nat)
    requires Inv(s) && Enabled(s, Unlink(dp, k)) && i > 0
    ensures Child(After(s, Unlink(dp, k)).inodes, d, y, i) <==> Child(s.inodes, d, y, i) && !(d == dp && y == k)
  {
    UnlinkNaming(s, dp, k, d, y, i);
    hide Inv, Naming;
  }

  lemma UnlinkDirs(s: State, dp: nat, k: nat)
    requires Inv(s) && Enabled(s, Unlink(dp, k))
    ensures var ns, ms, ip := s.inodes, After(s, Unlink(dp, k)).inodes, s.inodes[dp].ents[k].inum;
            forall i: nat :: Parent(ms, i) == Parent(ns, i) && (IsDir(ms, i) <==> IsDir(ns, i))
              && (Live(ms, i) <==> Live(ns, i) && !(IsDir(ns, ip) && i == ip))
  {
    UnlinkNames(s, dp, k);
    UnlinkNeverPanics(s, dp, k);
    hide Inv, Naming, Child, Empty;
  }

  /** A tree with one child slot cleared, and the child, if a directory, gone with it. */
  lemma TreeLess(ns: seq<Inode>, ms: seq<Inode>, dp: nat, k: nat, ip: nat)
    requires TreeOk(ns) && !IsDir(ns, 0) && ip > 0 && (IsDir(ns, ip) ==> Child(ns, dp, k, ip))
    requires forall i :: i > 0 && Child(ns, dp, k, i) ==> i == ip
    requires forall i: nat :: Parent(ms, i) == Parent(ns, i) && (IsDir(ms, i) <==> IsDir(ns, i))
               && (Live(ms, i) <==> Live(ns, i) && !(IsDir(ns, ip) && i == ip))
    requires forall d, y, i :: i > 0 ==> (Child(ms, d, y, i) <==> Child(ns, d, y, i) && !(d == dp && y == k))
    ensures TreeOk(ms)
  {
    hide Child, Parent, Live, IsDir;
    forall d, y, i | 0 < i && Child(ms, d, y, i)
      ensures i != ROOTINO && Parent(ms, i) == d && d != i && Live(ms, i)
    {
      assert Child(ns, d, y, i);
    }
    forall i | Live(ms, i) && i != ROOTINO
      ensures exists y :: Child(ms, Parent(ms, i), y, i)
    {
      LiveIsDir(ns, i);
      var y :| Child(ns, Parent(ns, i), y, i);
      assert Child(ms, Parent(ms, i), y, i);
    }
  }

  lemma LiveIsDir(ns: seq<Inode>, i: nat)
    requires Live(ns, i)
    ensures IsDir(ns, i)
  {
  }

  lemma UnlinkTree(s: State, dp: nat, k: nat)
    requires Inv(s) && Enabled(s, Unlink(dp, k))
    ensures TreeOk(After(s, Unlink(dp, k)).inodes)
  {
    var ns, ms := s.inodes, After(s, Unlink(dp, k)).inodes;
    UnlinkNames(s, dp, k);
    UnlinkDirs(s, dp, k);
    assert !IsDir(ns, 0);
    assert forall i :: i > 0 && Child(ns, dp, k, i) ==> i == ns[dp].ents[k].inum;
    forall d, y, i | i > 0
      ensures Child(ms, d, y, i) <==> Child(ns, d, y, i) && !(d == dp && y == k)
    {
      UnlinkChild(s, dp, k, d, y, i);
    }
    hide LinksOk, ShapesOk, TreeOk, Child, Parent, After, Naming, Empty;
    TreeLess(ns, ms, dp, k, ns[dp].ents[k].inum);
  }

  // Creating in an unlinked directory -------------------------------------------------------------

  lemma DeadEntryUncounted(s: State, e: Step)
    requires Inv(s) && Enabled(s, e) && Makes(e) && !Live(s.inodes, e.dp) && !(e.Create? && e.kind == Dir)
    ensures !LinkOk(After(s, e), e.ip)
  {
    MakesHangs(s, e);
    assert SameDirs(s.inodes, After(s, e).inodes) by { hide Inv, Linked; }
    SameDirsNames(s.inodes, After(s, e).inodes, e.ip);
    if e.Create? {
      UnusedUnnamed(s, e.ip);
    }
    assert LinkOk(s, e.ip);
  }

  lemma DeadDirectoryRevived(s: State, e: Step)
    requires Inv(s) && Enabled(s, e) && e.Create? && e.kind == Dir && !Live(s.inodes, e.dp)
    ensures !LinksOk(After(s, e))
  {
    var ns, ms, p := s.inodes, After(s, e).inodes, Parent(s.inodes, e.dp);
    MakesHangs(s, e);
    HungSlot(ns, ms, e.dp, e.name, e.ip);
    LinkedSlots(ns[e.dp].ents, e.name, e.ip);
    assert Naming(ms, e.dp, 1, p) && Naming(ms, e.dp, Slot(ns[e.dp].ents), e.ip);
    if p == e.ip {
      NamedTwice(ms, p, e.dp, 1, e.dp, Slot(ns[e.dp].ents));
      assert !LinkOk(After(s, e), p) by { UnusedUnnamed(s, e.ip); }
    } else {
      assert p != e.dp && 0 < p < |ns|;
      RevivedNames(s, e, p);
      assert LinkOk(s, p);
      assert !LinkOk(After(s, e), p);
    }
  }

  lemma RevivedNames(s: State, e: Step, p: nat)
    requires Inv(s) && Enabled(s, e) && e.Create? && e.kind == Dir && !Live(s.inodes, e.dp)
    requires p == Parent(s.inodes, e.dp) && p != e.ip && p != e.dp && p > 0
    ensures |Names(After(s, e).inodes, p)| == |Names(s.inodes, p)| + 1
  {
    var ns, ms := s.inodes, After(s, e).inodes;
    MakesHangs(s, e);
    HungSlot(ns, ms, e.dp, e.name, e.ip);
    LinkedSlots(ns[e.dp].ents, e.name, e.ip);
    hide Inv, Linked, Slot, HasName;
    NamesMore(ns, ms, p, e.dp, 1);
  }

  /** The exact condition: making an entry keeps the counts right if and only if the directory
      is still linked. */
  lemma MakesKeepsIff(s: State, e: Step)
    requires Inv(s) && Enabled(s, e) && Makes(e)
    ensures Inv(After(s, e)) <==> Live(s.inodes, e.dp)
  {
    if Live(s.inodes, e.dp) {
      MakesKeeps(s, e);
    } else if e.Create? && e.kind == Dir {
      DeadDirectoryRevived(s, e);
    } else {
      DeadEntryUncounted(s, e);
      assert 0 < e.ip < |After(s, e).inodes|;
    }
  }

  // Runs --------------------------------------------------------------------------------------------

  lemma StepKeeps(s: State, e: Step)
    requires Inv(s) && Enabled(s, e) && (Makes(e) ==> Live(s.inodes, e.dp))
    ensures Inv(After(s, e))
  {
    hide Inv, Enabled, After, Live;
    match e
    case Create(_, _, _, _) => MakesKeeps(s, e);
    case LinkFinish(_, _, _) => MakesKeeps(s, e);
    case Unlink(dp, k) => UnlinkKeeps(s, dp, k);
    case _ => QuietKeeps(s, e);
  }

  lemma UnlinkKeeps(s: State, dp: nat, k: nat)
    requires Inv(s) && Enabled(s, Unlink(dp, k))
    ensures Inv(After(s, Unlink(dp, k)))
  {
    UnlinkLinks(s, dp, k);
    UnlinkShapes(s, dp, k);
    UnlinkTree(s, dp, k);
    hide LinksOk, ShapesOk, TreeOk, Enabled, After;
  }

  /** A run that makes no entry in an unlinked directory. */
  predicate Runs(s: State, es: seq<Step>)
    decreases |es|
  {
    es == [] || (Enabled(s, es[0]) && (Makes(es[0]) ==> Live(s.inodes, es[0].dp)) && Runs(After(s, es[0]), es[1..]))
  }

  function Final(s: State, es: seq<Step>): State
    requires Runs(s, es)
    decreases |es|
  {
    if es == [] then s else Final(After(s, es[0]), es[1..])
  }

  /** mkfs's file system: a root directory of one link. */
  function Made(n: nat): State {
    State(seq(n + 2, i => if i == ROOTINO then Inode(Dir, 1, 0, [Dirent(".", ROOTINO), Dirent("..", ROOTINO)])
      else Inode(Unused, 0, 0, [])),
          multiset{})
  }

  lemma MadeInv(n: nat)
    ensures Inv(Made(n))
  {
    var s := Made(n);
    assert Naming(s.inodes, ROOTINO, 1, ROOTINO);
    NamedOnce(s.inodes, ROOTINO, ROOTINO, 1);
    forall i | 0 < i < |s.inodes|
      ensures LinkOk(s, i)
    {
      if i != ROOTINO {
        assert forall d, k :: !Naming(s.inodes, d, k, i);
        assert Names(s.inodes, i) == {};
      }
    }
  }

  lemma {:induction false} RunKeeps(s: State, es: seq<Step>)
    requires Inv(s) && Runs(s, es)
    ensures Inv(Final(s, es))
    decreases |es|
  {
    if es == [] {
    } else {
      hide Inv, Enabled, After, Live;
      StepKeeps(s, es[0]);
      RunKeeps(After(s, es[0]), es[1..]);
    }
  }

  /** In every such run each inode's nlink is the number of entries that name it, links being
      made included. */
  lemma NlinkCounts(n: nat, es: seq<Step>, i: nat)
    requires Runs(Made(n), es) && 0 < i < |Final(Made(n), es).inodes|
    ensures var s := Final(Made(n), es); s.inodes[i].nlink == |Names(s.inodes, i)| + s.pending[i]
  {
    MadeInv(n);
    RunKeeps(Made(n), es);
    hide Enabled, After, Made, Final, ShapesOk, TreeOk, Names;
    assert LinkOk(Final(Made(n), es), i);
  }

  /** iput frees only inodes that no entry names, no link is being made to, and nobody else
      refers to. */
  lemma IputFreesUnnamed(s: State, i: nat)
    requires Inv(s) && Enabled(s, Put(i)) && After(s, Put(i)).inodes[i].kind == Unused
    ensures s.inodes[i].ref == 1 && i !in s.pending && forall d, k :: !Naming(s.inodes, d, k, i)
  {
    assert i > 0 && LinkOk(s, i);
    assert s.inodes[i].nlink == 0;
    hide LinksOk, TreeOk, ShapesOk, Naming;
    forall d, k
      ensures !Naming(s.inodes, d, k, i)
    {
      if Naming(s.inodes, d, k, i) {
        NamedHas(s.inodes, i, d, k);
      }
    }
  }

  /** Exactly such inodes: the last reference to one that no entry names and no link is being
      made to frees it. */
  lemma IputFreesIff(s: State, i: nat)
    requires Inv(s) && Enabled(s, Put(i))
    ensures var x := After(s, Put(i)).inodes[i];
            && (x.kind == Unused <==>
                  s.inodes[i].ref == 1 && i !in s.pending && forall d, k :: !Naming(s.inodes, d, k, i))
            && (x.kind != Unused ==> x == s.inodes[i].(ref := s.inodes[i].ref - 1))
  {
    if After(s, Put(i)).inodes[i].kind == Unused {
      IputFreesUnnamed(s, i);
    } else if forall d, k :: !Naming(s.inodes, d, k, i) {
      assert i > 0 && LinkOk(s, i);
      assert Names(s.inodes, i) == {};
    }
  }

  // Example of a count gone wrong -------------------------------------------------------------------

  /** mkdir d; rmdir d by another process while the first still has it as its directory; then
      a file is created in it. */
  function DeadRun(): seq<Step> {
    [Create(ROOTINO, "d", Dir, 2), Unlink(ROOTINO, 2)]
  }

  lemma CreateInUnlinkedDirectory()
    ensures Runs(Made(2), DeadRun())
    ensures var s := Final(Made(2), DeadRun());
            var e := Create(2, "f", File, 3);
            Enabled(s, e) && !LinkOk(After(s, e), 3)
  {
    var s0, es := Made(2), DeadRun();
    var s1 := After(s0, es[0]);
    assert s1.inodes[ROOTINO].ents == [Dirent(".", 1), Dirent("..", 1), Dirent("d", 2)];
    var s2 := After(s1, es[1]);
    assert es[1..][0] == es[1] && es[1..][1..] == es[2..] && es[2..] == [];
    assert Runs(s2, es[2..]) && Final(s2, es[2..]) == s2;
    assert Runs(s1, es[1..]) && Final(s1, es[1..]) == s2;
    MadeInv(2);
    RunKeeps(s0, es);
    assert s2.inodes[2].ents == [Dirent(".", 2), Dirent("..", 1)];
    DeadEntryUncounted(s2, Create(2, "f", File, 3));
  }
}
