/** What names lead to, seen through dirlookup: the effect of create, link and unlink on every
    name of every directory. */
module NameSpace {
  import opened Links

  /** The inode of the first entry with this name, or 0. */
  function Find(es: seq<Dirent>, name: string): nat {
    if es == [] then 0
    else if es[0].inum != 0 && es[0].name == name then es[0].inum
    else Find(es[1..], name)
  }

  function Lookup(ns: seq<Inode>, d: nat, name: string): nat {
    if IsDir(ns, d) then Find(ns[d].ents, name) else 0
  }

  ghost predicate Distinct(es: seq<Dirent>) {
    forall i, j :: 0 <= i < j < |es| && es[i].inum != 0 && es[j].inum != 0 ==> es[i].name != es[j].name
  }

  /** No directory has a name twice. */
  ghost predicate NamesDistinct(ns: seq<Inode>) {
    forall d: nat :: IsDir(ns, d) ==> Distinct(ns[d].ents)
  }

  lemma {:induction false} FindNone(es: seq<Dirent>, name: string)
    ensures Find(es, name) == 0 <==> !HasName(es, name)
  {
    if es == [] {
    } else {
      FindNone(es[1..], name);
      if HasName(es[1..], name) {
        var k :| 0 <= k < |es[1..]| && es[1..][k].inum != 0 && es[1..][k].name == name;
        assert es[k + 1].inum != 0 && es[k + 1].name == name;
      } else {
        assert forall k :: 0 < k < |es| ==> es[k] == es[1..][k - 1];
      }
    }
  }

  lemma {:induction false} FindIs(es: seq<Dirent>, name: string, k: nat)
    requires Distinct(es) && k < |es| && es[k].inum != 0 && es[k].name == name
    ensures Find(es, name) == es[k].inum
  {
    if k == 0 {
    } else {
      assert forall i, j :: 0 <= i < j < |es[1..]| ==> es[1..][i] == es[i + 1] && es[1..][j] == es[j + 1];
      FindIs(es[1..], name, k - 1);
    }
  }

  /** Two directories with the same used entries under a name find the same. */
  lemma FindSame(es: seq<Dirent>, fs: seq<Dirent>, name: string)
    requires Distinct(es) && Distinct(fs)
    requires forall k :: 0 <= k < |es| && es[k].inum != 0 && es[k].name == name ==> k < |fs| && fs[k] == es[k]
    requires forall k :: 0 <= k < |fs| && fs[k].inum != 0 && fs[k].name == name ==> k < |es| && es[k] == fs[k]
    ensures Find(es, name) == Find(fs, name)
  {
    if HasName(es, name) {
      var k :| 0 <= k < |es| && es[k].inum != 0 && es[k].name == name;
      FindIs(es, name, k);
      FindIs(fs, name, k);
    } else {
      FindNone(es, name);
      FindNone(fs, name);
    }
  }

  /** dirlink of a new name. */
  lemma FindLinked(es: seq<Dirent>, name: string, inum: nat, other: string)
    requires Distinct(es) && !HasName(es, name) && inum != 0
    ensures Distinct(Linked(es, name, inum))
    ensures Find(Linked(es, name, inum), other) == if other == name then inum else Find(es, other)
  {
    hide Linked;
    LinkedSlots(es, name, inum);
    var fs := Linked(es, name, inum);
    assert forall k :: 0 <= k < |es| && es[k].inum != 0 ==> es[k].name != name;
    if other == name {
      FindIs(fs, name, Slot(es));
    } else {
      FindSame(es, fs, other);
    }
  }

  /** The entry in slot k taken out. */
  lemma FindCleared(es: seq<Dirent>, k: nat, other: string)
    requires Distinct(es) && k < |es| && es[k].inum != 0
    ensures Distinct(es[k := Dirent("", 0)])
    ensures Find(es[k := Dirent("", 0)], other) == if other == es[k].name then 0 else Find(es, other)
  {
    var fs := es[k := Dirent("", 0)];
    if other == es[k].name {
      FindNone(fs, other);
    } else {
      FindSame(es, fs, other);
    }
  }

  lemma FindDots(ip: nat, dp: nat, name: string)
    requires ip > 0 && dp > 0
    ensures var es := [Dirent(".", ip), Dirent("..", dp)];
            Distinct(es) && Find(es, name) == if name == "." then ip else if name == ".." then dp else 0
  {
    var es := [Dirent(".", ip), Dirent("..", dp)];
    var fs := es[1..];
    assert fs == [Dirent("..", dp)] && fs[1..] == [];
    assert Find(fs[1..], name) == 0;
    assert Find(fs, name) == if name == ".." then dp else 0;
  }

  /** What `name` in directory d leads to after the step. */
  function LookupAfter(s: State, e: Step, d: nat, name: string): nat
    requires Enabled(s, e)
  {
    var was := Lookup(s.inodes, d, name);
    match e
    case Create(dp, n, kind, ip) =>
      if d == dp && name == n then ip
      else if d == ip && kind == Dir && name == "." then ip
      else if d == ip && kind == Dir && name == ".." then dp
      else was
    case LinkFinish(ip, dp, n) => if d == dp && name == n then ip else was
    case Unlink(dp, k) => if d == dp && name == s.inodes[dp].ents[k].name then 0 else was
    case Put(ip) => if d == ip && s.inodes[ip].nlink == 0 && s.inodes[ip].ref == 1 then 0 else was
    case LinkStart(_) => was
    case LinkFail(_) => was
    case Get(_) => was
  }

  lemma CreateLeads(s: State, e: Step, d: nat, name: string)
    requires ShapesOk(s) && NamesDistinct(s.inodes) && Enabled(s, e) && e.Create?
    ensures IsDir(After(s, e).inodes, d) ==> Distinct(After(s, e).inodes[d].ents)
    ensures Lookup(After(s, e).inodes, d, name) == LookupAfter(s, e, d, name)
  {
    hide Find, Linked, Distinct, HasName;
    FindLinked(s.inodes[e.dp].ents, e.name, e.ip, name);
    if e.kind == Dir && d == e.ip {
      FindDots(e.ip, e.dp, name);
    }
  }

  lemma LinkLeads(s: State, e: Step, d: nat, name: string)
    requires ShapesOk(s) && NamesDistinct(s.inodes) && Enabled(s, e) && e.LinkFinish?
    ensures IsDir(After(s, e).inodes, d) ==> Distinct(After(s, e).inodes[d].ents)
    ensures Lookup(After(s, e).inodes, d, name) == LookupAfter(s, e, d, name)
  {
    hide Find, Linked, Distinct, HasName;
    FindLinked(s.inodes[e.dp].ents, e.name, e.ip, name);
  }

  lemma UnlinkLeads(s: State, e: Step, d: nat, name: string)
    requires ShapesOk(s) && NamesDistinct(s.inodes) && Enabled(s, e) && e.Unlink?
    ensures IsDir(After(s, e).inodes, d) ==> Distinct(After(s, e).inodes[d].ents)
    ensures Lookup(After(s, e).inodes, d, name) == LookupAfter(s, e, d, name)
  {
    hide Find, Distinct, Empty;
    FindCleared(s.inodes[e.dp].ents, e.k, name);
  }

  lemma QuietLeads(s: State, e: Step, d: nat, name: string)
    requires ShapesOk(s) && NamesDistinct(s.inodes) && Enabled(s, e) && Quiet(e)
    ensures IsDir(After(s, e).inodes, d) ==> Distinct(After(s, e).inodes[d].ents)
    ensures Lookup(After(s, e).inodes, d, name) == LookupAfter(s, e, d, name)
  {
    hide Find, Distinct;
  }

  /** A step changes what these names lead to, as said, and no other name of any directory. */
  lemma LeadsTo(s: State, e: Step, d: nat, name: string)
    requires Inv(s) && NamesDistinct(s.inodes) && Enabled(s, e)
    ensures Lookup(After(s, e).inodes, d, name) == LookupAfter(s, e, d, name)
  {
    hide LinksOk, ShapesOk, TreeOk, NamesDistinct, Enabled, After, Lookup, LookupAfter;
    match e
    case Create(_, _, _, _) => CreateLeads(s, e, d, name);
    case LinkFinish(_, _, _) => LinkLeads(s, e, d, name);
    case Unlink(_, _) => UnlinkLeads(s, e, d, name);
    case _ => QuietLeads(s, e, d, name);
  }

  lemma StepDistinct(s: State, e: Step)
    requires Inv(s) && NamesDistinct(s.inodes) && Enabled(s, e)
    ensures NamesDistinct(After(s, e).inodes)
  {
    hide LinksOk, ShapesOk, TreeOk, Enabled, After, Lookup, LookupAfter, Distinct, IsDir;
    forall d: nat | IsDir(After(s, e).inodes, d)
      ensures d < |After(s, e).inodes| && Distinct(After(s, e).inodes[d].ents)
    {
      IsDirBelow(After(s, e).inodes, d);
      match e
      case Create(_, _, _, _) => CreateLeads(s, e, d, "");
      case LinkFinish(_, _, _) => LinkLeads(s, e, d, "");
      case Unlink(_, _) => UnlinkLeads(s, e, d, "");
      case _ => QuietLeads(s, e, d, "");
    }
  }

  lemma IsDirBelow(ns: seq<Inode>, d: nat)
    requires IsDir(ns, d)
    ensures d < |ns|
  {
  }

  /** In every run no directory has a name twice, so that a name leads to one inode. */
  lemma {:induction false} RunDistinct(s: State, es: seq<Step>)
    requires Inv(s) && NamesDistinct(s.inodes) && Runs(s, es)
    ensures NamesDistinct(Final(s, es).inodes)
    decreases |es|
  {
    hide Inv, NamesDistinct, Enabled, After, Live;
    if es == [] {
    } else {
      StepKeeps(s, es[0]);
      StepDistinct(s, es[0]);
      RunDistinct(After(s, es[0]), es[1..]);
    }
  }

  /** Kinds and references: a new inode is what was asked for, and is referred to once; iget and
      iput count; nothing else changes either. */
  lemma KindsAndRefs(s: State, e: Step, i: nat)
    requires Inv(s) && Enabled(s, e) && i < |s.inodes|
    ensures var x, y := s.inodes[i], After(s, e).inodes[i];
            var frees := e == Put(i) && x.nlink == 0 && x.ref == 1;
            && y.kind == (if e.Create? && e.ip == i then e.kind else if frees then Unused else x.kind)
            && y.ref == (if e.Create? && e.ip == i then 1 else if e == Get(i) then x.ref + 1
                         else if e == Put(i) then x.ref - 1 else x.ref)
  {
    hide LinksOk, TreeOk;
  }
}
