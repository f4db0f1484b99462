/** bio.c: the ring of buffers through prev and next. */
module Bio {
  import opened Disk
  import opened BufferCache

  /** Position k of the ring; the head, number n, is before the first and after the last. */
  function At(order: seq<nat>, n: nat, k: int): nat {
    if 0 <= k < |order| then order[k] else n
  }

  ghost predicate InRange(next: seq<nat>, prev: seq<nat>, order: seq<nat>, n: nat) {
    && |next| == |prev| == n + 1
    && (forall k :: 0 <= k < |order| ==> order[k] < n)
    && (forall k, m :: 0 <= k < m < |order| ==> order[k] != order[m])
  }

  /** next and prev lead once around the buffers of `order` and the head, both ways. */
  ghost predicate Ring(next: seq<nat>, prev: seq<nat>, order: seq<nat>, n: nat) {
    && InRange(next, prev, order, n)
    && forall k, m :: -1 <= k && m == k + 1 && m <= |order| ==>
         next[At(order, n, k)] == At(order, n, m) && prev[At(order, n, m)] == At(order, n, k)
  }

  function Dropped(order: seq<nat>, k: nat): seq<nat>
    requires k < |order|
  {
    order[..k] + order[k + 1..]
  }

  lemma DroppedAt(order: seq<nat>, n: nat, k: nat, m: int)
    requires k < |order|
    ensures At(Dropped(order, k), n, m) == if m < k then At(order, n, m) else At(order, n, m + 1)
  {
  }

  lemma Unlinked(next: seq<nat>, prev: seq<nat>, order: seq<nat>, n: nat, k: nat)
    requires Ring(next, prev, order, n) && k < |order|
    ensures var b := order[k];
            && next[b] <= n && prev[b] <= n
            && Ring(next[prev[b] := next[b]], prev[next[b] := prev[b]], Dropped(order, k), n)
    ensures order[k] !in Dropped(order, k)
  {
    var b := order[k];
    var rest := Dropped(order, k);
    assert At(order, n, k) == b;
    assert next[b] == At(order, n, k + 1) && prev[At(order, n, k)] == At(order, n, k - 1);
    var nx, pv := next[prev[b] := next[b]], prev[next[b] := prev[b]];
    forall i, j | -1 <= i && j == i + 1 && j <= |rest|
      ensures nx[At(rest, n, i)] == At(rest, n, j) && pv[At(rest, n, j)] == At(rest, n, i)
    {
      DroppedAt(order, n, k, i);
      DroppedAt(order, n, k, j);
      UnlinkedAt(next, prev, order, n, k, i);
    }
  }

  lemma UnlinkedAt(next: seq<nat>, prev: seq<nat>, order: seq<nat>, n: nat, k: nat, i: int)
    requires Ring(next, prev, order, n) && k < |order| && -1 <= i < |order| - 1
    requires next[order[k]] <= n && prev[order[k]] <= n
    ensures var b, p, q := order[k], if i < k then i else i + 1, if i + 1 < k then i + 1 else i + 2;
            next[prev[b] := next[b]][At(order, n, p)] == At(order, n, q)
              && prev[next[b] := prev[b]][At(order, n, q)] == At(order, n, p)
  {
    var p, q := if i < k then i else i + 1, if i + 1 < k then i + 1 else i + 2;
    assert At(order, n, k) == order[k];
    assert next[At(order, n, k)] == At(order, n, k + 1) && prev[At(order, n, k)] == At(order, n, k - 1);
    assert next[At(order, n, p)] == At(order, n, p + 1) && prev[At(order, n, q)] == At(order, n, q - 1);
    if i + 1 != k {
      assert At(order, n, p) != At(order, n, k - 1);
    }
  }

  /** A buffer outside the ring put in front. */
  lemma Fronted(next: seq<nat>, prev: seq<nat>, order: seq<nat>, n: nat, b: nat)
    requires Ring(next, prev, order, n) && b < n && b !in order
    ensures next[n] <= n && Ring(next[b := next[n]][n := b], prev[b := n][next[n] := b], [b] + order, n)
  {
    assert At(order, n, -1) == n && next[At(order, n, -1)] == At(order, n, 0);
    var nx, pv, all := next[b := next[n]][n := b], prev[b := n][next[n] := b], [b] + order;
    forall i, j | -1 <= i && j == i + 1 && j <= |all|
      ensures nx[At(all, n, i)] == At(all, n, j) && pv[At(all, n, j)] == At(all, n, i)
    {
      assert i >= 1 ==> At(all, n, i) == At(order, n, i - 1);
      assert j >= 1 ==> At(all, n, j) == At(order, n, j - 1);
      if i >= 0 {
        assert next[At(order, n, i - 1)] == At(order, n, i) && prev[At(order, n, i)] == At(order, n, i - 1);
      }
    }
  }

  ghost predicate NoneFree(bufs: seq<Buf>) {
    forall j :: 0 <= j < |bufs| ==> !Unused(bufs[j])
  }

  class Bcache {
    var next: seq<nat>
    var prev: seq<nat>
    var bufs: seq<Buf>
    var disk: seq<Block>
    ghost var crowd: seq<Crowd>
    ghost var order: seq<nat>
    ghost var latest: seq<Block>

    ghost function Now(): State
      reads this
    {
      State(bufs, crowd, order, disk, latest)
    }

    ghost predicate Valid()
      reads this
    {
      Inv(Now()) && Ring(next, prev, order, |bufs|)
    }

    /** binit. */
    constructor (n: nat, d: seq<Block>)
      ensures Valid() && Now() == Booted(n, d)
    {
      bufs := seq(n, _ => Buf(0, 0, 0, false, false, false, ZeroBlock()));
      crowd := seq(n, _ => Crowd(0, 0, false));
      next, prev := seq(n + 1, _ => n), seq(n + 1, _ => n);
      disk, latest, order := d, d, [];
      new;
      hide Inv;
      var b := 0;
      while b < n
        invariant 0 <= b <= n && |bufs| == n && bufs == Booted(n, d).bufs && crowd == Booted(n, d).crowd
        invariant disk == latest == d
        invariant |order| == b && Ring(next, prev, order, n) && forall k :: 0 <= k < b ==> order[k] == b - 1 - k
      {
        Fronted(next, prev, order, n, b);
        next := next[b := next[n]];
        prev := prev[b := n];
        prev := prev[next[n] := b];
        next := next[n := b];
        order := [b] + order;
        b := b + 1;
      }
      BootedInv(n, d);
      assert order == Booted(n, d).order;
    }

    /** bget under bcache.lock: the buffer of the block, with one more reference. It panics
        exactly when the block is not cached and every buffer is referenced or pinned. */
    method Bget(dev: nat, blockno: nat) returns (ok: bool, b: nat)
      requires Valid()
      modifies this`bufs, this`crowd
      ensures Valid()
      ensures ok && !Uncached(old(bufs), dev, blockno) ==>
                Enabled(old(Now()), Hit(b, dev, blockno)) && Now() == After(old(Now()), Hit(b, dev, blockno))
      ensures ok && Uncached(old(bufs), dev, blockno) ==>
                Enabled(old(Now()), Recycle(b, dev, blockno)) && Now() == After(old(Now()), Recycle(b, dev, blockno))
      ensures !ok <==> Uncached(old(bufs), dev, blockno) && NoneFree(old(bufs))
      ensures !ok ==> bufs == old(bufs) && crowd == old(crowd)
    {
      hide Inv, After, Enabled, Unused, HasKey, Uncached, NoneFree, Ring;
      b := Find(dev, blockno);
      if b < |bufs| {
        HitIs(Now(), b, dev, blockno);
        StepKeeps(Now(), Hit(b, dev, blockno));
        crowd := crowd[b := crowd[b].(waiting := crowd[b].waiting + 1)];
        bufs := bufs[b := bufs[b].(refcnt := bufs[b].refcnt + 1)];
        return true, b;
      }
      b := FindUnused();
      if b < |bufs| {
        RecycleIs(Now(), b, dev, blockno);
        StepKeeps(Now(), Recycle(b, dev, blockno));
        crowd := crowd[b := crowd[b].(waiting := crowd[b].waiting + 1)];
        bufs := bufs[b := Buf(dev, blockno, 1, false, false, bufs[b].locked, bufs[b].data)];
        return true, b;
      }
      return false, 0;
    }

    /** bget's first loop: the buffer of the block, or the head if there is none. */
    method Find(dev: nat, blockno: nat) returns (b: nat)
      requires Valid()
      ensures b < |bufs| ==> HasKey(bufs[b], dev, blockno) && |crowd| == |bufs|
      ensures b >= |bufs| <==> Uncached(bufs, dev, blockno)
    {
      var n := |bufs|;
      hide Inv, HasKey;
      AllInRing(Now());
      b := next[n];
      ghost var k := 0;
      RingAt(next, prev, order, n, -1);
      while b != n
        invariant 0 <= k <= n && b == At(order, n, k)
        invariant forall m :: 0 <= m < k ==> !HasKey(bufs[order[m]], dev, blockno)
        decreases n - k
      {
        if HasKey(bufs[b], dev, blockno) {
          return;
        }
        RingAt(next, prev, order, n, k);
        b, k := next[b], k + 1;
      }
      NoneHas(Now(), dev, blockno);
    }

    /** bget's second loop: the least recently released unused buffer, or the head. */
    method FindUnused() returns (b: nat)
      requires Valid()
      ensures b < |bufs| ==> LeastRecent(bufs, order, b) && |crowd| == |bufs|
      ensures b >= |bufs| <==> NoneFree(bufs)
    {
      var n := |bufs|;
      hide Inv, Unused;
      AllInRing(Now());
      b := prev[n];
      ghost var k := n - 1;
      RingAt(next, prev, order, n, n - 1);
      while b != n
        invariant -1 <= k < n && b == At(order, n, k)
        invariant forall m :: k < m < n ==> !Unused(bufs[order[m]])
        decreases k
      {
        if Unused(bufs[b]) {
          return;
        }
        RingAt(next, prev, order, n, k - 1);
        b, k := prev[b], k - 1;
      }
      NoneUnused(Now());
    }

    /** bread, once bget has the lock: reads the block in if it is not there. */
    method Bread(b: nat)
      requires Valid() && b < |bufs| && bufs[b].locked && bufs[b].dev == 1 && bufs[b].blockno < |disk|
      modifies this`bufs
      ensures Valid() && (old(bufs)[b].valid ==> bufs == old(bufs))
      ensures !old(bufs)[b].valid ==> Enabled(old(Now()), Fill(b)) && Now() == After(old(Now()), Fill(b))
      ensures |bufs| == |old(bufs)| && bufs[b].valid && |latest| == |disk| && bufs[b].data == latest[bufs[b].blockno]
    {
      BufferAgrees(Now(), b);
      if !bufs[b].valid {
        StepKeeps(Now(), Fill(b));
        bufs := bufs[b := bufs[b].(valid := true, data := disk[bufs[b].blockno])];
        BufferAgrees(Now(), b);
      }
    }

    /** bwrite: the holder's data reach the disk, and the buffer is no longer pinned. */
    method Bwrite(b: nat)
      requires Valid() && Enabled(Now(), Write(b))
      modifies this`bufs, this`disk, this`crowd
      ensures Valid() && Now() == After(old(Now()), Write(b))
      ensures disk[bufs[b].blockno] == bufs[b].data
    {
      StepKeeps(Now(), Write(b));
      hide Inv, Ring, Recyclable, Without;
      bufs := bufs[b := bufs[b].(dirty := true)];
      disk := disk[bufs[b].blockno := bufs[b].data];
      bufs := bufs[b := bufs[b].(dirty := false, valid := true)];
      crowd := crowd[b := crowd[b].(changed := false)];
    }

    /** brelse under bcache.lock, after releasesleep. */
    method Brelse(b: nat)
      requires Valid() && Enabled(Now(), Put(b))
      modifies this`next, this`prev, this`bufs, this`crowd, this`order
      ensures Valid() && Now() == After(old(Now()), Put(b))
    {
      StepKeeps(Now(), Put(b));
      AllInRing(Now());
      hide Inv, Without, Ring, Recyclable;
      bufs := bufs[b := bufs[b].(refcnt := bufs[b].refcnt - 1)];
      crowd := crowd[b := crowd[b].(leaving := crowd[b].leaving - 1)];
      if bufs[b].refcnt == 0 {
        MoveFront(b);
      }
    }

    /** Buffer b moved to the front of the ring. */
    method MoveFront(b: nat)
      requires Ring(next, prev, order, |bufs|) && b in order
      modifies this`next, this`prev, this`order
      ensures Ring(next, prev, order, |bufs|) && order == [b] + Without(old(order), b)
    {
      var n := |bufs|;
      ghost var k :| 0 <= k < |order| && order[k] == b;
      Unlinked(next, prev, order, n, k);
      Fronted(next[prev[b] := next[b]], prev[next[b] := prev[b]], Dropped(order, k), n, b);
      RingRange(next, prev, order, n, k);
      WithoutIs(order, b, k);
      hide Ring, Without;
      prev := prev[next[b] := prev[b]];
      next := next[prev[b] := next[b]];
      next := next[b := next[n]];
      prev := prev[b := n];
      prev := prev[next[n] := b];
      next := next[n := b];
      order := [b] + Dropped(order, k);
    }
  }

  lemma AllInRing(s: State)
    requires Inv(s)
    ensures |s.crowd| == |s.bufs| && |s.order| == |s.bufs| && forall j :: 0 <= j < |s.bufs| ==> j in s.order
    ensures forall k :: 0 <= k < |s.order| ==> s.order[k] < |s.bufs|
  {
    forall j | 0 <= j < |s.bufs|
      ensures j in s.order
    {
      PermutationHasAll(s.order, |s.bufs|, j);
    }
  }

  lemma NoneHas(s: State, dev: nat, blockno: nat)
    requires Inv(s) && forall m :: 0 <= m < |s.order| ==>
               s.order[m] < |s.bufs| && !HasKey(s.bufs[s.order[m]], dev, blockno)
    ensures Uncached(s.bufs, dev, blockno)
  {
    AllInRing(s);
    hide Inv, HasKey;
    forall j | 0 <= j < |s.bufs|
      ensures !HasKey(s.bufs[j], dev, blockno)
    {
      assert j in s.order;
    }
  }

  lemma NoneUnused(s: State)
    requires Inv(s) && forall m :: 0 <= m < |s.order| ==> s.order[m] < |s.bufs| && !Unused(s.bufs[s.order[m]])
    ensures NoneFree(s.bufs)
  {
    AllInRing(s);
    hide Inv, Unused;
    forall j | 0 <= j < |s.bufs|
      ensures !Unused(s.bufs[j])
    {
      assert j in s.order;
    }
  }

  lemma RingRange(next: seq<nat>, prev: seq<nat>, order: seq<nat>, n: nat, k: nat)
    requires Ring(next, prev, order, n) && k < |order|
    ensures |next| == |prev| == n + 1 && order[k] < n && next[order[k]] <= n && prev[order[k]] <= n && next[n] <= n
    ensures prev[order[k]] != order[k] && next[order[k]] != order[k]
    ensures forall m :: 0 <= m < k ==> order[m] != order[k]
  {
    assert At(order, n, k) == order[k] && At(order, n, -1) == n;
    RingAt(next, prev, order, n, k);
    RingAt(next, prev, order, n, k - 1);
    RingAt(next, prev, order, n, -1);
  }

  lemma RingAt(next: seq<nat>, prev: seq<nat>, order: seq<nat>, n: nat, k: int)
    requires Ring(next, prev, order, n) && -1 <= k < |order|
    ensures next[At(order, n, k)] == At(order, n, k + 1) && prev[At(order, n, k + 1)] == At(order, n, k)
  {
  }

  lemma HitIs(s: State, b: nat, dev: nat, blockno: nat)
    requires b < |s.bufs| == |s.crowd| && HasKey(s.bufs[b], dev, blockno)
    ensures Enabled(s, Hit(b, dev, blockno))
    ensures After(s, Hit(b, dev, blockno)) ==
              s.(bufs := s.bufs[b := s.bufs[b].(refcnt := s.bufs[b].refcnt + 1)],
                crowd := s.crowd[b := s.crowd[b].(waiting := s.crowd[b].waiting + 1)])
  {
  }

  lemma RecycleIs(s: State, b: nat, dev: nat, blockno: nat)
    requires |s.bufs| == |s.crowd| && b < |s.bufs| && LeastRecent(s.bufs, s.order, b) && Uncached(s.bufs, dev, blockno)
    ensures && Enabled(s, Recycle(b, dev, blockno))
            && After(s, Recycle(b, dev, blockno)) ==
                 s.(bufs := s.bufs[b := Buf(dev, blockno, 1, false, false, s.bufs[b].locked, s.bufs[b].data)],
                    crowd := s.crowd[b := s.crowd[b].(waiting := s.crowd[b].waiting + 1)])
  {
  }

  lemma BufferAgrees(s: State, b: nat)
    requires Inv(s) && b < |s.bufs|
    ensures |s.crowd| == |s.bufs| && |s.latest| == |s.disk|
    ensures s.bufs[b].valid ==> s.bufs[b].blockno < |s.disk| && s.bufs[b].data == s.latest[s.bufs[b].blockno]
  {
    assert BufOk(s.bufs[b], s.crowd[b], s.disk, s.latest);
  }
}
