/** Directory and link operations of sysfile.c and fs.c as they change inodes in place. Each
    runs with its inodes locked. */
module Sysfile {
  import opened Links

  datatype Option = None | Some(value: nat)

  class Tree {
    var inodes: seq<Inode>
    ghost var pending: multiset<nat>

    ghost function Now(): State
      reads this
    {
      State(inodes, pending)
    }

    ghost predicate Valid()
      reads this
    {
      Inv(Now())
    }

    /** The slot of the first entry with this name. */
    method Dirlookup(dp: nat, name: string) returns (slot: Option)
      requires IsDir(inodes, dp)
      ensures slot.Some? <==> HasName(inodes[dp].ents, name)
      ensures slot.Some? ==>
                && slot.value < |inodes[dp].ents|
                && inodes[dp].ents[slot.value].inum != 0
                && inodes[dp].ents[slot.value].name == name
    {
      var es, k := inodes[dp].ents, 0;
      while k < |es|
        invariant 0 <= k <= |es|
        invariant forall j :: 0 <= j < k ==> es[j].inum == 0 || es[j].name != name
      {
        if es[k].inum != 0 && es[k].name == name {
          return Some(k);
        }
        k := k + 1;
      }
      return None;
    }

    /** A new entry, in the first free slot; refused if the name is there. */
    method Dirlink(dp: nat, name: string, inum: nat) returns (ok: bool)
      requires IsDir(inodes, dp)
      modifies this`inodes
      ensures ok <==> !HasName(old(inodes[dp].ents), name)
      ensures !ok ==> inodes == old(inodes)
      ensures ok ==> inodes == old(inodes)[dp := old(inodes[dp]).(ents := Linked(old(inodes[dp].ents), name, inum))]
    {
      var slot := Dirlookup(dp, name);
      if slot.Some? {
        return false;
      }
      var es, k := inodes[dp].ents, 0;
      while k < |es|
        invariant 0 <= k <= |es| && inodes == old(inodes)
        invariant forall j :: 0 <= j < k ==> es[j].inum != 0
      {
        if es[k].inum == 0 {
          break;
        }
        k := k + 1;
      }
      SlotFound(es, k);
      inodes := inodes[dp := inodes[dp].(ents := Stored(es, k, Dirent(name, inum)))];
      return true;
    }

    method Isdirempty(d: nat) returns (r: bool)
      requires IsDir(inodes, d)
      ensures r <==> Empty(inodes[d].ents)
    {
      var es, k := inodes[d].ents, 2;
      while k < |es|
        invariant 2 <= k && forall j :: 2 <= j < k && j < |es| ==> es[j].inum == 0
      {
        if es[k].inum != 0 {
          return false;
        }
        k := k + 1;
      }
      return true;
    }

    /** sys_link, with the inodes its paths led to. Refused or failing, it leaves everything as
        it was; done, the new entry is counted exactly if its directory is still linked. */
    method Link(ip: nat, dp: Option, name: string) returns (ok: bool)
      requires Valid() && ip < |inodes| && inodes[ip].kind != Unused && (dp.Some? ==> IsDir(inodes, dp.value))
      modifies this
      ensures ok <==> old(inodes)[ip].kind != Dir && dp.Some? && !HasName(old(inodes)[dp.value].ents, name)
      ensures !ok ==> Now() == old(Now())
      ensures ok ==> Enabled(old(Now()), LinkStart(ip))
                     && Enabled(After(old(Now()), LinkStart(ip)), LinkFinish(ip, dp.value, name))
                     && Now() == After(After(old(Now()), LinkStart(ip)), LinkFinish(ip, dp.value, name))
      ensures Valid() <==> (ok ==> Live(old(inodes), dp.value))
    {
      hide Inv, HasName, Linked, Enabled, After, Live;
      if inodes[ip].kind == Dir {
        return false;
      }
      LinkStartIs(Now(), ip);
      QuietKeeps(Now(), LinkStart(ip));
      inodes := inodes[ip := inodes[ip].(nlink := inodes[ip].nlink + 1)];
      pending := pending + multiset{ip};
      ok := false;
      if dp.Some? {
        LiveStill(old(inodes), ip, dp.value);
        ok := LinkEntry(ip, dp.value, name);
      }
      if !ok {
        inodes := inodes[ip := inodes[ip].(nlink := inodes[ip].nlink - 1)];
        pending := pending - multiset{ip};
        Undone(old(inodes), ip, old(pending));
      }
    }

    /** sys_link's dirlink. */
    method LinkEntry(ip: nat, dp: nat, name: string) returns (ok: bool)
      requires Valid() && ip < |inodes| && ip in pending && IsDir(inodes, dp)
      modifies this
      ensures ok <==> !HasName(old(inodes)[dp].ents, name)
      ensures !ok ==> Now() == old(Now())
      ensures ok ==>
                Enabled(old(Now()), LinkFinish(ip, dp, name)) && Now() == After(old(Now()), LinkFinish(ip, dp, name))
      ensures Valid() <==> (ok ==> Live(old(inodes), dp))
    {
      ok := Dirlink(dp, name, ip);
      hide Inv, HasName, Linked;
      if ok {
        LinkFinishIs(old(Now()), ip, dp, name);
        MakesKeepsIff(old(Now()), LinkFinish(ip, dp, name));
        hide Enabled, After;
        pending := pending - multiset{ip};
      }
    }

    /** sys_unlink of `name` in dp. */
    method Unlink(dp: nat, name: string) returns (ok: bool)
      requires Valid() && IsDir(inodes, dp)
      modifies this`inodes
      ensures Valid() && (!ok ==> inodes == old(inodes))
      ensures !ok ==>
                || name == "."
                || name == ".."
                || !HasName(inodes[dp].ents, name)
                || exists k :: Nonempty(inodes, dp, k, name)
      ensures ok ==>
                exists k ::
                  && Named(old(inodes), dp, k, name)
                  && Enabled(old(Now()), Step.Unlink(dp, k))
                  && Now() == After(old(Now()), Step.Unlink(dp, k))
    {
      if name == "." || name == ".." {
        return false;
      }
      var slot := Dirlookup(dp, name);
      if slot.None? {
        return false;
      }
      var k := slot.value;
      var ip := inodes[dp].ents[k].inum;
      UnlinkNames(Now(), dp, k);
      if inodes[ip].kind == Dir {
        var empty := Isdirempty(ip);
        if !empty {
          assert Nonempty(inodes, dp, k, name);
          return false;
        }
      }
      UnlinkNeverPanics(Now(), dp, k);
      assert Named(inodes, dp, k, name);
      hide Inv, HasName, Empty, After, Enabled;
      RemoveEntry(dp, k);
      return true;
    }

    /** sys_unlink's changes. */
    method RemoveEntry(dp: nat, k: nat)
      requires Valid() && Enabled(Now(), Step.Unlink(dp, k))
      modifies this`inodes
      ensures Valid() && Now() == After(old(Now()), Step.Unlink(dp, k))
    {
      hide Inv, Empty;
      UnlinkKeeps(Now(), dp, k);
      var ip := inodes[dp].ents[k].inum;
      inodes := inodes[dp := inodes[dp].(ents := inodes[dp].ents[k := Dirent("", 0)])];
      if inodes[ip].kind == Dir {
        inodes := inodes[dp := inodes[dp].(nlink := inodes[dp].nlink - 1)];
      }
      inodes := inodes[ip := inodes[ip].(nlink := inodes[ip].nlink - 1)];
      assert Now() == After(old(Now()), Step.Unlink(dp, k));
    }

    /** create, with ip the inode that ialloc finds. A name that is there already will do for a
        file that is to be one, and gets a reference; for anything else it is refused. */
    method Create(dp: nat, name: string, kind: Kind, ip: nat) returns (r: Option)
      requires Valid() && IsDir(inodes, dp) && kind != Unused && 0 < ip < |inodes| && inodes[ip].kind == Unused
      modifies this`inodes
      ensures !HasName(old(inodes)[dp].ents, name) ==>
                && r == Some(ip)
                && Enabled(old(Now()), Step.Create(dp, name, kind, ip))
                && Now() == After(old(Now()), Step.Create(dp, name, kind, ip))
      ensures HasName(old(inodes)[dp].ents, name) && r.Some? ==>
                && kind == File && IsFile(old(inodes), r.value)
                && (exists k: nat :: Named(old(inodes), dp, k, name) && old(inodes)[dp].ents[k].inum == r.value)
                && Now() == After(old(Now()), Get(r.value))
      ensures HasName(old(inodes)[dp].ents, name) && r.None? ==>
                && Now() == old(Now())
                && (kind == File ==>
                      exists k: nat :: Named(inodes, dp, k, name) && !IsFile(inodes, inodes[dp].ents[k].inum))
      ensures Valid() <==> HasName(old(inodes)[dp].ents, name) || Live(old(inodes), dp)
    {
      var slot := Dirlookup(dp, name);
      if slot.Some? {
        var j := inodes[dp].ents[slot.value].inum;
        assert Named(inodes, dp, slot.value, name);
        EntryInRange(Now(), dp, slot.value);
        if kind == File && inodes[j].kind == File {
          QuietKeeps(Now(), Get(j));
          inodes := inodes[j := inodes[j].(ref := inodes[j].ref + 1)];
          return Some(j);
        }
        return None;
      }
      MakeNew(dp, name, kind, ip);
      return Some(ip);
    }

    /** create of a name that is not there. */
    method MakeNew(dp: nat, name: string, kind: Kind, ip: nat)
      requires Valid() && Enabled(Now(), Step.Create(dp, name, kind, ip))
      modifies this`inodes
      ensures Now() == After(old(Now()), Step.Create(dp, name, kind, ip))
      ensures Valid() <==> Live(old(inodes), dp)
    {
      hide Inv, Live;
      MakesKeepsIff(Now(), Step.Create(dp, name, kind, ip));
      inodes := inodes[ip := Inode(kind, 1, 1, [])];
      if kind == Dir {
        inodes := inodes[dp := inodes[dp].(nlink := inodes[dp].nlink + 1)];
        var dot := Dirlink(ip, ".", ip);
        var dotdot := Dirlink(ip, "..", dp);
        assert inodes[ip].ents == [Dirent(".", ip), Dirent("..", dp)];
      }
      var done := Dirlink(dp, name, ip);
    }

    /** iput: the last reference to an inode without links frees it. */
    method Iput(ip: nat)
      requires Valid() && ip < |inodes| && inodes[ip].ref > 0
      modifies this`inodes
      ensures Valid() && Now() == After(old(Now()), Put(ip))
      ensures inodes[ip].kind == Unused <==>
                old(inodes)[ip].ref == 1 && ip !in pending && forall d, k :: !Naming(old(inodes), d, k, ip)
    {
      QuietKeeps(Now(), Put(ip));
      IputFreesIff(Now(), ip);
      if Frees(inodes[ip]) {
        inodes := inodes[ip := Inode(Unused, 0, 1, [])];
      }
      inodes := inodes[ip := inodes[ip].(ref := inodes[ip].ref - 1)];
      hide Inv;
      assert Now() == After(old(Now()), Put(ip));
    }
  }

  lemma {:induction false} SlotFound(es: seq<Dirent>, k: nat)
    requires k <= |es| && (k < |es| ==> es[k].inum == 0) && forall j :: 0 <= j < k ==> es[j].inum != 0
    ensures Slot(es) == k
  {
    if k == 0 {
    } else {
      SlotFound(es[1..], k - 1);
    }
  }

  lemma LinkStartIs(s: State, ip: nat)
    requires ip < |s.inodes| && s.inodes[ip].kind != Unused && s.inodes[ip].kind != Dir
    ensures Enabled(s, LinkStart(ip))
    ensures After(s, LinkStart(ip)) ==
              State(s.inodes[ip := s.inodes[ip].(nlink := s.inodes[ip].nlink + 1)], s.pending + multiset{ip})
  {
  }

  lemma LinkFinishIs(s: State, ip: nat, dp: nat, name: string)
    requires ip in s.pending && ip < |s.inodes| && IsDir(s.inodes, dp) && !HasName(s.inodes[dp].ents, name)
    ensures Enabled(s, LinkFinish(ip, dp, name))
    ensures After(s, LinkFinish(ip, dp, name)) ==
              State(s.inodes[dp := s.inodes[dp].(ents := Linked(s.inodes[dp].ents, name, ip))],
                s.pending - multiset{ip})
  {
  }

  lemma Undone(ns: seq<Inode>, ip: nat, pending: multiset<nat>)
    requires ip < |ns|
    ensures var ms := ns[ip := ns[ip].(nlink := ns[ip].nlink + 1)];
            ms[ip := ms[ip].(nlink := ms[ip].nlink - 1)] == ns
    ensures pending + multiset{ip} - multiset{ip} == pending
  {
  }

  lemma LiveStill(ns: seq<Inode>, ip: nat, d: nat)
    requires ip < |ns| && ns[ip].kind != Dir && IsDir(ns, d)
    ensures var ms := ns[ip := ns[ip].(nlink := ns[ip].nlink + 1)];
            IsDir(ms, d) && ms[d] == ns[d] && (Live(ms, d) <==> Live(ns, d))
  {
  }

  lemma EntryInRange(s: State, d: nat, k: nat)
    requires Inv(s) && IsDir(s.inodes, d) && k < |s.inodes[d].ents|
    ensures s.inodes[d].ents[k].inum < |s.inodes|
  {
    hide LinksOk, TreeOk;
    assert DirOk(s.inodes, d);
  }

  predicate IsFile(ns: seq<Inode>, i: nat) { i < |ns| && ns[i].kind == File }

  predicate Named(ns: seq<Inode>, d: nat, k: nat, name: string) {
    IsDir(ns, d) && k < |ns[d].ents| && ns[d].ents[k].inum != 0 && ns[d].ents[k].name == name
  }

  /** Slot k has the name, and is a directory with entries. */
  predicate Nonempty(ns: seq<Inode>, d: nat, k: nat, name: string) {
    Named(ns, d, k, name) && IsDir(ns, ns[d].ents[k].inum) && !Empty(ns[ns[d].ents[k].inum].ents)
  }
}
