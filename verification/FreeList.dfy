/** The K&R free list as a value: a ring of headers in address order, and the tiling of
    the memory obtained from sbrk by free and allocated blocks. Addresses and sizes count
    in units of one header. */
module FreeList {

  const BASE := 1               // the address of the static header base; the heap lies above it

  /** ptr and size are the header fields; chain lists the ring from base on; live are the
      blocks handed out; own sends every unit obtained from sbrk to the block it lies in. */
  datatype Heap = Heap(ptr: map<nat, nat>, size: map<nat, nat>, chain: seq<nat>, live: map<nat, nat>,
                       own: map<nat, nat>)

  function After(i: nat, n: nat): nat { if i + 1 < n then i + 1 else 0 }

  ghost predicate Sorted(c: seq<nat>) {
    forall i, j :: 0 <= i < j < |c| ==> c[i] < c[j]
  }

  /** Following ptr from the header at place i leads to the one at the next place. */
  ghost predicate Circular(ptr: map<nat, nat>, c: seq<nat>) {
    && (forall i :: 0 <= i < |c| ==> c[i] in ptr)
    && (forall i, k :: 0 <= i < |c| && 0 <= k < |c| && k == After(i, |c|) ==> ptr[c[i]] == c[k])
  }

  /** base, and only base, is empty. */
  ghost predicate Sized(size: map<nat, nat>, c: seq<nat>) {
    forall i :: 0 <= i < |c| ==> c[i] in size && (size[c[i]] == 0 <==> i == 0)
  }

  ghost predicate Ring(h: Heap) {
    && |h.chain| > 0 && h.chain[0] == BASE
    && Circular(h.ptr, h.chain)
    && Sorted(h.chain)
    && Sized(h.size, h.chain)
  }

  function InsertAt(c: seq<nat>, j: nat, b: nat): (d: seq<nat>)
    requires j < |c|
    ensures |d| == |c| + 1
    ensures forall i {:trigger d[i]} :: 0 <= i < |d| ==>
              d[i] == if i <= j then c[i] else if i == j + 1 then b else c[i - 1]
  {
    c[..j + 1] + [b] + c[j + 1..]
  }

  function RemoveAt(c: seq<nat>, j: nat): (d: seq<nat>)
    requires j < |c|
    ensures |d| == |c| - 1
    ensures forall i {:trigger d[i]} :: 0 <= i < |d| ==> d[i] == if i < j then c[i] else c[i + 1]
  {
    c[..j] + c[j + 1..]
  }

  /** Block b, of s units, owns its units. */
  ghost predicate OwnsAll(own: map<nat, nat>, b: nat, s: nat) {
    forall u :: b <= u < b + s ==> u in own && own[u] == b
  }

  ghost predicate FreeOwn(size: map<nat, nat>, free: set<nat>, own: map<nat, nat>) {
    forall b :: b in free ==> b in size && OwnsAll(own, b, size[b])
  }

  ghost predicate LiveOwn(size: map<nat, nat>, free: set<nat>, live: map<nat, nat>, own: map<nat, nat>) {
    forall b :: b in live ==> BASE < b && b !in free && b in size && size[b] == live[b] > 0 && OwnsAll(own, b, live[b])
  }

  ghost predicate UnitsIn(size: map<nat, nat>, free: set<nat>, live: map<nat, nat>, own: map<nat, nat>) {
    forall u :: u in own ==> own[u] in size && own[u] <= u < own[u] + size[own[u]] && (own[u] in live || own[u] in free)
  }

  /** Every unit lies in exactly one block, free or live. */
  ghost predicate Tiling(size: map<nat, nat>, free: set<nat>, live: map<nat, nat>, own: map<nat, nat>) {
    FreeOwn(size, free, own) && LiveOwn(size, free, live, own) && UnitsIn(size, free, live, own)
  }

  ghost function Members(c: seq<nat>): set<nat> { set x | x in c }

  ghost predicate Tiled(h: Heap) {
    Tiling(h.size, Members(h.chain), h.live, h.own)
  }

  /** A free block ends below the next one, unless it is one of those excused. */
  ghost predicate Apart(size: map<nat, nat>, c: seq<nat>, excused: set<nat>) {
    forall i, j :: 0 <= i < j < |c| && i !in excused && c[i] in size ==> c[i] + size[c[i]] < c[j]
  }

  ghost predicate Valid(h: Heap) {
    Ring(h) && Tiled(h) && Apart(h.size, h.chain, {})
  }

  // Linking a live block in, and merging neighbours ----------------------------------------

  /** The place of b: chain[j] is the last header below it. */
  ghost predicate Between(h: Heap, j: nat, b: nat) {
    j < |h.chain| && h.chain[j] < b && (j + 1 < |h.chain| ==> b < h.chain[j + 1])
  }

  ghost function Linked(h: Heap, j: nat, b: nat): Heap
    requires Ring(h) && Between(h, j, b)
  {
    var p := h.chain[j];
    Heap(h.ptr[b := h.ptr[p]][p := b], h.size, InsertAt(h.chain, j, b), h.live - {b}, h.own)
  }

  lemma InsertCircular(ptr: map<nat, nat>, c: seq<nat>, j: nat, b: nat)
    requires Circular(ptr, c) && Sorted(c) && j < |c| && b !in c
    ensures Circular(ptr[b := ptr[c[j]]][c[j] := b], InsertAt(c, j, b))
  {
    hide InsertAt;
    var q, d := ptr[b := ptr[c[j]]][c[j] := b], InsertAt(c, j, b);
    var t := After(j, |c|);
    assert c[t] == ptr[c[j]] && b != c[j];
    forall i | 0 <= i < |d|
      ensures d[i] in q
    {
      assert i <= j ==> d[i] == c[i] && c[i] in ptr;
      assert i > j + 1 ==> d[i] == c[i - 1] && c[i - 1] in ptr;
    }
    forall i, k | 0 <= i < |d| && 0 <= k < |d| && k == After(i, |d|)
      ensures q[d[i]] == d[k]
    {
      if i < j {
        assert d[i] == c[i] && d[k] == c[k] && ptr[c[i]] == c[k] && c[i] != b && c[i] != c[j];
      } else if i == j + 1 {
        assert d[i] == b && d[k] == c[t];
      } else if i > j + 1 {
        var l := After(i - 1, |c|);
        assert d[i] == c[i - 1] && d[k] == c[l] && ptr[c[i - 1]] == c[l] && c[i - 1] != b && c[i - 1] != c[j];
      }
    }
  }

  lemma LinkedRing(h: Heap, j: nat, b: nat)
    requires Ring(h) && Between(h, j, b) && b !in h.chain && b in h.size && h.size[b] > 0
    ensures Ring(Linked(h, j, b))
  {
    InsertCircular(h.ptr, h.chain, j, b);
    hide InsertAt, Circular;
  }

  lemma InsertMembers(c: seq<nat>, j: nat, b: nat)
    requires j < |c|
    ensures Members(InsertAt(c, j, b)) == Members(c) + {b}
  {
  }

  lemma FreedTiling(size: map<nat, nat>, free: set<nat>, live: map<nat, nat>, own: map<nat, nat>, b: nat)
    requires Tiling(size, free, live, own) && b in live
    ensures Tiling(size, free + {b}, live - {b}, own)
  {
  }

  /** Blocks do not overlap: the lower one ends where the higher one starts, or before. */
  lemma Disjoint(size: map<nat, nat>, free: set<nat>, live: map<nat, nat>, own: map<nat, nat>, a: nat, b: nat)
    requires Tiling(size, free, live, own) && (a in free || a in live) && (b in free || b in live) && a < b
    requires size[b] > 0
    ensures a + size[a] <= b
  {
    assert b in own && own[b] == b;
  }

  lemma LinkedApart(size: map<nat, nat>, c: seq<nat>, j: nat, b: nat)
    requires Apart(size, c, {}) && j < |c| && c[j] < b
    ensures Apart(size, InsertAt(c, j, b), {j, j + 1})
  {
    var d := InsertAt(c, j, b);
    hide InsertAt;
    forall i, k | 0 <= i < k < |d| && i !in {j, j + 1} && d[i] in size
      ensures d[i] + size[d[i]] < d[k]
    {
      if i < j {
        assert d[i] == c[i] && c[i] + size[c[i]] < c[j];
        assert k > j + 1 ==> d[k] == c[k - 1];
      } else {
        assert d[i] == c[i - 1] && d[k] == c[k - 1];
      }
    }
  }

  lemma LinkedKeeps(h: Heap, j: nat, b: nat)
    requires Valid(h) && b in h.live && Between(h, j, b)
    ensures Ring(Linked(h, j, b)) && Tiled(Linked(h, j, b)) && Apart(h.size, Linked(h, j, b).chain, {j, j + 1})
  {
    assert b !in h.chain by { assert b !in Members(h.chain); }
    hide InsertAt, Circular, Sorted, Sized, Tiling, Apart, Members;
    LinkedRing(h, j, b);
    InsertMembers(h.chain, j, b);
    FreedTiling(h.size, Members(h.chain), h.live, h.own, b);
    LinkedApart(h.size, h.chain, j, b);
  }

  /** Free block i swallows its right neighbour. */
  ghost function Merged(h: Heap, i: nat): Heap
    requires Ring(h) && i + 1 < |h.chain|
  {
    var p, n := h.chain[i], h.chain[i + 1];
    Heap(h.ptr[p := h.ptr[n]], h.size[p := h.size[p] + h.size[n]], RemoveAt(h.chain, i + 1), h.live,
      Renamed(h.own, n, p))
  }

  lemma RemoveCircular(ptr: map<nat, nat>, c: seq<nat>, i: nat)
    requires Circular(ptr, c) && Sorted(c) && i + 1 < |c|
    ensures Circular(ptr[c[i] := ptr[c[i + 1]]], RemoveAt(c, i + 1))
  {
    hide RemoveAt;
    var q, d := ptr[c[i] := ptr[c[i + 1]]], RemoveAt(c, i + 1);
    var t := After(i + 1, |c|);
    assert ptr[c[i + 1]] == c[t];
    forall m | 0 <= m < |d|
      ensures d[m] in q
    {
      assert m <= i ==> d[m] == c[m] && c[m] in ptr;
      assert m > i ==> d[m] == c[m + 1] && c[m + 1] in ptr;
    }
    forall m, k | 0 <= m < |d| && 0 <= k < |d| && k == After(m, |d|)
      ensures q[d[m]] == d[k]
    {
      if m < i {
        assert d[m] == c[m] && d[k] == c[k] && ptr[c[m]] == c[k] && c[m] != c[i];
      } else if m == i {
        assert d[m] == c[i] && d[k] == c[t];
      } else {
        var l := After(m + 1, |c|);
        assert d[m] == c[m + 1] && d[k] == c[l] && ptr[c[m + 1]] == c[l] && c[m + 1] != c[i];
      }
    }
  }

  lemma MergedRing(h: Heap, i: nat)
    requires Ring(h) && 0 < i && i + 1 < |h.chain|
    ensures Ring(Merged(h, i))
  {
    RemoveCircular(h.ptr, h.chain, i);
    hide RemoveAt, Circular;
  }

  lemma InMembers(c: seq<nat>, i: nat)
    requires i < |c|
    ensures c[i] in Members(c)
  {
  }

  lemma RemoveMembers(c: seq<nat>, j: nat)
    requires Sorted(c) && j < |c|
    ensures Members(RemoveAt(c, j)) == Members(c) - {c[j]}
  {
  }

  ghost function Renamed(own: map<nat, nat>, n: nat, p: nat): map<nat, nat> {
    map u | u in own :: if own[u] == n then p else own[u]
  }

  lemma RenamedOwns(own: map<nat, nat>, p: nat, s: nat, t: nat)
    requires OwnsAll(own, p, s) && OwnsAll(own, p + s, t)
    ensures OwnsAll(Renamed(own, p + s, p), p, s + t)
  {
    forall u | p <= u < p + (s + t)
      ensures u in own && (own[u] == p || own[u] == p + s)
    {
      assert u < p + s ==> own[u] == p;
    }
  }

  lemma RenamedOther(own: map<nat, nat>, n: nat, p: nat, b: nat, s: nat)
    requires OwnsAll(own, b, s) && b != n
    ensures OwnsAll(Renamed(own, n, p), b, s)
  {
  }

  lemma MergedFree(size: map<nat, nat>, free: set<nat>, own: map<nat, nat>, p: nat, n: nat)
    requires FreeOwn(size, free, own) && p in free && n in free && p + size[p] == n
    ensures FreeOwn(size[p := size[p] + size[n]], free - {n}, Renamed(own, n, p))
  {
    RenamedOwns(own, p, size[p], size[n]);
    hide OwnsAll;
    forall b | b in free && b != p && b != n
      ensures OwnsAll(Renamed(own, n, p), b, size[b])
    {
      RenamedOther(own, n, p, b, size[b]);
    }
  }

  lemma MergedLive(size: map<nat, nat>, free: set<nat>, live: map<nat, nat>, own: map<nat, nat>, p: nat, n: nat, s: nat)
    requires LiveOwn(size, free, live, own) && p in free && n in free
    ensures LiveOwn(size[p := s], free - {n}, live, Renamed(own, n, p))
  {
    hide OwnsAll;
    forall b | b in live
      ensures OwnsAll(Renamed(own, n, p), b, live[b])
    {
      RenamedOther(own, n, p, b, live[b]);
    }
  }

  lemma MergedTiling(size: map<nat, nat>, free: set<nat>, live: map<nat, nat>, own: map<nat, nat>, p: nat, n: nat)
    requires Tiling(size, free, live, own) && p in free && n in free && p in size && n in size
    requires p + size[p] == n && size[p] > 0
    ensures Tiling(size[p := size[p] + size[n]], free - {n}, live, Renamed(own, n, p))
  {
    hide FreeOwn, LiveOwn;
    MergedFree(size, free, own, p, n);
    MergedLive(size, free, live, own, p, n, size[p] + size[n]);
  }

  lemma MergedApart(size: map<nat, nat>, c: seq<nat>, i: nat, excused: set<nat>)
    requires Sorted(c) && Sized(size, c) && Apart(size, c, excused + {i}) && (forall e :: e in excused ==> e < i)
    requires i + 1 < |c| && c[i] + size[c[i]] == c[i + 1]
    ensures Apart(size[c[i] := size[c[i]] + size[c[i + 1]]], RemoveAt(c, i + 1), excused)
  {
    var d, z := RemoveAt(c, i + 1), size[c[i] := size[c[i]] + size[c[i + 1]]];
    hide RemoveAt;
    forall m, k | 0 <= m < k < |d| && m !in excused
      ensures d[m] + z[d[m]] < d[k]
    {
      assert k <= i ==> d[k] == c[k];
      assert k > i ==> d[k] == c[k + 1];
      if m < i {
        assert d[m] == c[m] && c[m] + size[c[m]] < c[i];
      } else if m == i {
        assert d[m] == c[m] && c[i + 1] + size[c[i + 1]] < c[k + 1];
      } else {
        assert d[m] == c[m + 1] && c[m + 1] + size[c[m + 1]] < c[k + 1];
      }
    }
  }

  /** Merging block i takes i off the list of those that may touch their successor. */
  lemma MergedKeeps(h: Heap, i: nat, excused: set<nat>)
    requires Ring(h) && Tiled(h) && Apart(h.size, h.chain, excused + {i}) && (forall e :: e in excused ==> e < i)
    requires 0 < i && i + 1 < |h.chain| && h.chain[i] + h.size[h.chain[i]] == h.chain[i + 1]
    ensures Ring(Merged(h, i)) && Tiled(Merged(h, i)) && Apart(Merged(h, i).size, Merged(h, i).chain, excused)
  {
    hide RemoveAt, Circular, Sorted, Tiling, Apart, Members;
    var p, n := h.chain[i], h.chain[i + 1];
    assert h.size[p] > 0 && n in h.size;
    InMembers(h.chain, i);
    InMembers(h.chain, i + 1);
    MergedRing(h, i);
    RemoveMembers(h.chain, i + 1);
    MergedTiling(h.size, Members(h.chain), h.live, h.own, p, n);
    MergedApart(h.size, h.chain, i, excused);
  }

  // Handing blocks out ----------------------------------------------------------------------

  /** Free block k handed out whole. */
  ghost function Unlinked(h: Heap, k: nat): Heap
    requires Ring(h) && 0 < k < |h.chain|
  {
    var p, b := h.chain[k - 1], h.chain[k];
    Heap(h.ptr[p := h.ptr[b]], h.size, RemoveAt(h.chain, k), h.live[b := h.size[b]], h.own)
  }

  lemma TakenTiling(size: map<nat, nat>, free: set<nat>, live: map<nat, nat>, own: map<nat, nat>, b: nat)
    requires Tiling(size, free, live, own) && b in free && b in size && size[b] > 0 && BASE < b
    ensures Tiling(size, free - {b}, live[b := size[b]], own)
  {
    hide OwnsAll;
  }

  lemma RemoveSized(size: map<nat, nat>, c: seq<nat>, k: nat)
    requires Sized(size, c) && Sorted(c) && 0 < k < |c| && Apart(size, c, {})
    ensures Sized(size, RemoveAt(c, k)) && Sorted(RemoveAt(c, k)) && Apart(size, RemoveAt(c, k), {})
  {
    var d := RemoveAt(c, k);
    hide RemoveAt;
    assert forall i :: 0 <= i < |d| ==> d[i] == c[if i < k then i else i + 1];
  }

  lemma UnlinkedKeeps(h: Heap, k: nat)
    requires Valid(h) && 0 < k < |h.chain|
    ensures Valid(Unlinked(h, k))
  {
    var b := h.chain[k];
    assert BASE < b by { assert h.chain[0] < h.chain[k]; }
    assert h.size[b] > 0;
    hide RemoveAt, Circular, Sorted, Sized, Tiling, Apart, Members;
    RemoveCircular(h.ptr, h.chain, k - 1);
    RemoveSized(h.size, h.chain, k);
    InMembers(h.chain, k);
    RemoveMembers(h.chain, k);
    TakenTiling(h.size, Members(h.chain), h.live, h.own, b);
  }

  /** The last n units of free block k handed out. */
  ghost function Split(h: Heap, k: nat, n: nat): Heap
    requires Ring(h) && 0 < k < |h.chain| && 0 < n < h.size[h.chain[k]]
  {
    var p := h.chain[k];
    var q := p + h.size[p] - n;
    h.(size := h.size[p := h.size[p] - n][q := n], live := h.live[q := n], own := Moved(h.own, q, n))
  }

  /** The n units from q on now belong to block q. */
  ghost function Moved(own: map<nat, nat>, q: nat, n: nat): map<nat, nat> {
    map u | u in own :: if q <= u < q + n then q else own[u]
  }

  /** An address inside a free block heads no block. */
  lemma InnerNotHeader(size: map<nat, nat>, free: set<nat>, live: map<nat, nat>, own: map<nat, nat>, p: nat, q: nat)
    requires Tiling(size, free, live, own) && p in free && p in size && BASE < p < q < p + size[p]
    requires forall b :: b in free && b in size && size[b] == 0 ==> b == BASE
    ensures q !in free && q !in live
  {
    assert OwnsAll(own, p, size[p]);
    assert q in own && own[q] == p;
  }

  lemma MovedOther(own: map<nat, nat>, p: nat, q: nat, n: nat, b: nat, s: nat)
    requires OwnsAll(own, b, s) && b != p && p <= q && OwnsAll(own, p, q + n - p)
    ensures OwnsAll(Moved(own, q, n), b, s)
  {
    forall u | b <= u < b + s
      ensures u in own && !(q <= u < q + n)
    {
      assert own[u] == b;
    }
  }

  lemma MovedSelf(own: map<nat, nat>, p: nat, q: nat, n: nat)
    requires p <= q && OwnsAll(own, p, q + n - p)
    ensures OwnsAll(Moved(own, q, n), q, n) && OwnsAll(Moved(own, q, n), p, q - p)
  {
  }

  lemma SplitFree(size: map<nat, nat>, free: set<nat>, own: map<nat, nat>, p: nat, q: nat, n: nat)
    requires FreeOwn(size, free, own) && p in free && p in size && p + size[p] == q + n && p < q && q !in free
    ensures FreeOwn(size[p := size[p] - n][q := n], free, Moved(own, q, n))
  {
    MovedSelf(own, p, q, n);
    hide OwnsAll;
    forall b | b in free && b != p
      ensures b != q && b in size && OwnsAll(Moved(own, q, n), b, size[b])
    {
      MovedOther(own, p, q, n, b, size[b]);
    }
  }

  lemma SplitLive(size: map<nat, nat>, free: set<nat>, live: map<nat, nat>, own: map<nat, nat>, p: nat, q: nat, n: nat)
    requires p in free && p in size && BASE < p < q && n > 0 && q !in free && q !in live
    requires LiveOwn(size, free, live, own) && OwnsAll(own, p, q + n - p)
    ensures LiveOwn(size[p := size[p]][q := n], free, live[q := n], Moved(own, q, n))
  {
    MovedSelf(own, p, q, n);
    hide OwnsAll;
    forall b | b in live
      ensures b != p && b != q && OwnsAll(Moved(own, q, n), b, live[b])
    {
      MovedOther(own, p, q, n, b, live[b]);
    }
  }

  lemma LiveResize(size: map<nat, nat>, free: set<nat>, live: map<nat, nat>, own: map<nat, nat>, p: nat, s: nat)
    requires LiveOwn(size, free, live, own) && p in free
    ensures LiveOwn(size[p := s], free, live, own)
  {
  }

  lemma SplitUnits(size: map<nat, nat>, free: set<nat>, live: map<nat, nat>, own: map<nat, nat>, p: nat, q: nat, n: nat)
    requires UnitsIn(size, free, live, own) && p in free && p in size && p + size[p] == q + n && p < q && q !in free
    requires q !in live
    ensures UnitsIn(size[p := size[p] - n][q := n], free, live[q := n], Moved(own, q, n))
  {
  }

  lemma SplitTiling(size: map<nat, nat>, free: set<nat>, live: map<nat, nat>, own: map<nat, nat>, p: nat, q: nat,
                    n: nat)
    requires Tiling(size, free, live, own) && p in free && p in size && p + size[p] == q + n && BASE < p < q && n > 0
    requires q !in free && q !in live
    ensures Tiling(size[p := size[p] - n][q := n], free, live[q := n], Moved(own, q, n))
  {
    assert OwnsAll(own, p, size[p]);
    hide FreeOwn, LiveOwn, UnitsIn, OwnsAll, Moved;
    SplitFree(size, free, own, p, q, n);
    LiveResize(size, free, live, own, p, size[p] - n);
    SplitLive(size[p := size[p] - n], free, live, own, p, q, n);
    assert size[p := size[p] - n][p := size[p] - n] == size[p := size[p] - n];
    SplitUnits(size, free, live, own, p, q, n);
  }

  lemma SplitSized(size: map<nat, nat>, c: seq<nat>, k: nat, n: nat, q: nat)
    requires Sized(size, c) && Sorted(c) && Apart(size, c, {}) && 0 < k < |c| && 0 < n < size[c[k]] && q !in c
    ensures var z := size[c[k] := size[c[k]] - n][q := n];
            Sized(z, c) && Apart(z, c, {})
  {
  }

  /** Only base is empty, and it lies below every free block. */
  lemma BaseFirst(h: Heap, k: nat)
    requires Ring(h) && 0 < k < |h.chain|
    ensures BASE < h.chain[k] && h.chain[k] in h.size && h.size[h.chain[k]] > 0
    ensures forall b :: b in Members(h.chain) && b in h.size && h.size[b] == 0 ==> b == BASE
  {
    hide Circular;
    assert h.chain[0] < h.chain[k];
  }

  lemma SplitKeeps(h: Heap, k: nat, n: nat)
    requires Valid(h) && 0 < k < |h.chain| && 0 < n < h.size[h.chain[k]]
    ensures Valid(Split(h, k, n))
  {
    hide Circular, Tiling, Apart, Members, Sized, Sorted;
    BaseFirst(h, k);
    var p := h.chain[k];
    var q := p + h.size[p] - n;
    InMembers(h.chain, k);
    InnerNotHeader(h.size, Members(h.chain), h.live, h.own, p, q);
    SplitTiling(h.size, Members(h.chain), h.live, h.own, p, q, n);
    NotIn(h.chain, q);
    SplitSized(h.size, h.chain, k, n, q);
  }

  lemma NotIn(c: seq<nat>, q: nat)
    ensures q !in Members(c) <==> q !in c
  {
  }

  // Memory from sbrk --------------------------------------------------------------------------

  /** n new units at a, as one block in nobody's hands. */
  ghost function Obtained(h: Heap, a: nat, n: nat): Heap {
    h.(size := h.size[a := n], live := h.live[a := n], own := Fresh(h.own, a, n))
  }

  ghost function Fresh(own: map<nat, nat>, a: nat, n: nat): (r: map<nat, nat>)
    ensures forall u :: u in r <==> u in own || a <= u < a + n
    ensures forall u :: u in r ==> r[u] == if a <= u < a + n then a else own[u]
  {
    if n == 0 then own else Fresh(own, a, n - 1)[a + n - 1 := a]
  }

  lemma FreshOther(own: map<nat, nat>, a: nat, n: nat, b: nat, s: nat)
    requires OwnsAll(own, b, s) && forall u :: u in own ==> u < a
    ensures OwnsAll(Fresh(own, a, n), b, s) && (s > 0 ==> b != a)
  {
    hide Fresh;
    var r := Fresh(own, a, n);
    forall u | b <= u < b + s
      ensures u in r && r[u] == b
    {
      assert u in own && u < a;
    }
    assert s > 0 ==> b in own;
  }

  lemma FreshSelf(own: map<nat, nat>, a: nat, n: nat)
    ensures OwnsAll(Fresh(own, a, n), a, n)
  {
    hide Fresh;
  }

  lemma FreshUnits(size: map<nat, nat>, free: set<nat>, live: map<nat, nat>, own: map<nat, nat>, a: nat, n: nat)
    requires UnitsIn(size, free, live, own) && forall u :: u in own ==> u < a
    ensures UnitsIn(size[a := n], free, live[a := n], Fresh(own, a, n))
  {
    hide Fresh;
  }

  lemma FreshTiling(size: map<nat, nat>, free: set<nat>, live: map<nat, nat>, own: map<nat, nat>, a: nat, n: nat)
    requires Tiling(size, free, live, own) && 0 < n && BASE < a && (forall u :: u in own ==> u < a)
    requires forall b :: b in free && b in size && size[b] == 0 ==> b == BASE
    ensures a !in free && a !in live
    ensures Tiling(size[a := n], free, live[a := n], Fresh(own, a, n))
  {
    hide Fresh, OwnsAll;
    FreshSelf(own, a, n);
    FreshUnits(size, free, live, own, a, n);
    forall b | b in free
      ensures b != a && b in size && OwnsAll(Fresh(own, a, n), b, size[b])
    {
      FreshOther(own, a, n, b, size[b]);
    }
    forall b | b in live
      ensures b != a && OwnsAll(Fresh(own, a, n), b, live[b])
    {
      FreshOther(own, a, n, b, live[b]);
    }
    hide UnitsIn;
  }

  lemma FreshSized(size: map<nat, nat>, c: seq<nat>, a: nat, n: nat)
    requires Sized(size, c) && Apart(size, c, {}) && a !in c
    ensures Sized(size[a := n], c) && Apart(size[a := n], c, {})
  {
  }

  lemma ObtainedKeeps(h: Heap, a: nat, n: nat)
    requires Valid(h) && 0 < n && BASE < a && (forall u :: u in h.own ==> u < a)
    ensures Valid(Obtained(h, a, n))
  {
    assert forall b :: b in Members(h.chain) && b in h.size && h.size[b] == 0 ==> b == BASE by {
      hide Circular, Tiling, Apart, Sorted;
    }
    hide Circular, Tiling, Apart, Members, Sized, Sorted, Fresh;
    FreshTiling(h.size, Members(h.chain), h.live, h.own, a, n);
    NotIn(h.chain, a);
    FreshSized(h.size, h.chain, a, n);
  }
}
