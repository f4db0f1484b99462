/** umalloc.c: free, morecore and malloc over the ring of free blocks. */
module Umalloc {
  import opened FreeList

  const NULL := 0
  const UNIT := 8               // sizeof(Header)

  /** Units for nbytes bytes and a header. */
  function Units(nbytes: nat): nat { (nbytes + UNIT - 1) / UNIT + 1 }

  /** How many units morecore asks sbrk for. */
  function Chunk(nu: nat): nat { if nu < 4096 then 4096 else nu }

  /** Past the header there is room for the bytes, and less than a unit to spare. */
  lemma UnitsHold(nbytes: nat)
    ensures Units(nbytes) > 0 && nbytes <= (Units(nbytes) - 1) * UNIT < nbytes + UNIT
  {
  }

  /** morecore asks for the least that is enough and at least 4096 units. */
  lemma ChunkLeast(nu: nat, k: nat)
    ensures nu <= Chunk(nu) && 4096 <= Chunk(nu) && (nu <= k && 4096 <= k ==> Chunk(nu) <= k)
  {
  }

  /** The byte at address a lies in the block that was handed out as r, past its header. */
  ghost predicate ByteOf(h: Heap, a: nat, r: nat) {
    a / UNIT in h.own && h.own[a / UNIT] == r - 1 && r * UNIT <= a
  }

  /** The bytes from r on that a live block of Units(nbytes) units starting with header r - 1 has:
      all nbytes are its own. */
  lemma BytesOwned(h: Heap, r: nat, nbytes: nat)
    requires FreeList.Valid(h) && r > 0 && r - 1 in h.live && h.live[r - 1] == Units(nbytes)
    ensures forall a :: r * UNIT <= a < r * UNIT + nbytes ==> ByteOf(h, a, r)
  {
    hide Ring, Apart;
    assert OwnsAll(h.own, r - 1, Units(nbytes));
    UnitsHold(nbytes);
    forall a | r * UNIT <= a < r * UNIT + nbytes
      ensures ByteOf(h, a, r)
    {
      assert r <= a / UNIT < r - 1 + Units(nbytes);
    }
  }

  /** The argument that sbrk receives for nu units: the product wraps and is read as an int. */
  function SbrkArgument(nu: nat): int {
    var w := nu * UNIT % 0x1_0000_0000;
    if w < 0x8000_0000 then w else w - 0x1_0000_0000
  }

  /** A request that sbrk can be asked for. */
  predicate Askable(nu: nat) { Chunk(nu) * UNIT < 0x8000_0000 }

  /** Exactly for these sbrk is asked for the bytes that morecore then takes to be its own. */
  lemma AskedIff(nbytes: nat)
    requires nbytes + UNIT - 1 < 0x1_0000_0000
    ensures SbrkArgument(Chunk(Units(nbytes))) == Chunk(Units(nbytes)) * UNIT <==> Askable(Units(nbytes))
    ensures Askable(Units(nbytes)) <==> nbytes <= 0x7FFF_FFF0
  {
  }

  /** For the largest sizes it is asked for nothing, and says yes. */
  lemma AsksNothing()
    ensures Units(0xFFFF_FFF8) == 0x2000_0000 && SbrkArgument(Chunk(Units(0xFFFF_FFF8))) == 0
  {
  }

  /** How far place j is ahead of place i on a ring of n. */
  function Ahead(i: nat, j: nat, n: nat): int { if i <= j then j - i else n - i + j }

  /** The place in the ring below which block b belongs, looking down from place k. */
  ghost function Place(h: Heap, b: nat, k: nat): (j: nat)
    requires Ring(h) && BASE < b && b !in h.chain && k < |h.chain| && (k + 1 < |h.chain| ==> b < h.chain[k + 1])
    ensures Between(h, j, b)
  {
    if h.chain[k] < b then k else Place(h, b, k - 1)
  }

  /** Following the ring from place i; the last header is the one that wraps round. */
  lemma RingNext(h: Heap, i: nat)
    requires Ring(h) && i < |h.chain|
    ensures h.chain[i] in h.ptr && h.chain[i] in h.size && h.ptr[h.chain[i]] == h.chain[After(i, |h.chain|)]
    ensures h.chain[i] >= h.ptr[h.chain[i]] <==> i == |h.chain| - 1
  {
    hide Sized;
    var k := After(i, |h.chain|);
    assert h.ptr[h.chain[i]] == h.chain[k];
    SizedAt(h.size, h.chain, i);
  }

  lemma SizedAt(size: map<nat, nat>, c: seq<nat>, i: nat)
    requires Sized(size, c) && i < |c|
    ensures c[i] in size && (size[c[i]] == 0 <==> i == 0)
  {
  }

  /** The search of free stops at the place of b and nowhere else. */
  lemma SearchStops(h: Heap, i: nat, b: nat)
    requires Ring(h) && i < |h.chain| && BASE < b
    ensures h.chain[i] in h.ptr
    ensures var p, n := h.chain[i], h.ptr[h.chain[i]];
            ((b > p && b < n) || (p >= n && (b > p || b < n))) <==> Between(h, i, b)
  {
    RingNext(h, i);
    hide Sized, Circular, Sorted;
  }

  lemma ApartMore(size: map<nat, nat>, c: seq<nat>, i: nat, excused: set<nat>)
    requires Sorted(c) && Apart(size, c, excused + {i}) && i < |c| && c[i] in size
    requires i + 1 < |c| ==> c[i] + size[c[i]] < c[i + 1]
    ensures Apart(size, c, excused)
  {
    assert forall k :: i + 1 < k < |c| ==> c[i + 1] < c[k];
  }

  /** A block that does not touch its successor needs no excuse. */
  lemma NotTouching(h: Heap, i: nat, excused: set<nat>)
    requires Ring(h) && Tiled(h) && Apart(h.size, h.chain, excused + {i}) && i < |h.chain|
    requires i + 1 < |h.chain| ==> h.chain[i] in h.size && h.chain[i] + h.size[h.chain[i]] != h.chain[i + 1]
    ensures Apart(h.size, h.chain, excused)
  {
    hide Circular, Tiling, Apart, Members, Sized;
    RingNext(h, i);
    if i + 1 < |h.chain| {
      InMembers(h.chain, i);
      InMembers(h.chain, i + 1);
      SizedAt(h.size, h.chain, i + 1);
      assert h.chain[i] < h.chain[i + 1];
      Disjoint(h.size, Members(h.chain), h.live, h.own, h.chain[i], h.chain[i + 1]);
    }
    hide Sorted;
    ApartMore(h.size, h.chain, i, excused);
  }

  // Freeing block b at place i of the ring ---------------------------------------------------

  /** b linked in and merged with its right neighbour, if they touch. */
  ghost function JoinedRight(h: Heap, i: nat, b: nat): Heap
    requires FreeList.Valid(h) && b in h.live && Between(h, i, b)
  {
    LinkedKeeps(h, i, b);
    var g := Linked(h, i, b);
    if i + 2 < |g.chain| && b + h.live[b] == g.chain[i + 2] then Merged(g, i + 1) else g
  }

  lemma JoinedRightKeeps(h: Heap, i: nat, b: nat)
    requires FreeList.Valid(h) && b in h.live && Between(h, i, b)
    ensures b in h.size && h.size[b] == h.live[b] > 0
    ensures var g := JoinedRight(h, i, b);
            && Ring(g) && Tiled(g) && Apart(g.size, g.chain, {i})
            && i + 1 < |g.chain| && g.chain[i] == h.chain[i] && g.chain[i + 1] == b
            && g.live == h.live - {b} && g.own.Keys == h.own.Keys
            && b in g.size && g.size[b] >= h.live[b]
  {
    hide Circular, Tiling, Apart, Members, Sized, Sorted;
    LiveAt(h, b);
    assert {i, i + 1} == {i} + {i + 1};
    LinkedKeeps(h, i, b);
    var g := Linked(h, i, b);
    assert g.chain[i + 1] == b;
    if i + 2 < |g.chain| && b + h.live[b] == g.chain[i + 2] {
      RingNext(g, i + 2);
      MergedKeeps(g, i + 1, {i});
    } else {
      NotTouching(g, i + 1, {i});
    }
  }

  /** ... and then with its left neighbour. */
  ghost function Freed(h: Heap, i: nat, b: nat): Heap
    requires FreeList.Valid(h) && b in h.live && Between(h, i, b)
  {
    JoinedRightKeeps(h, i, b);
    var g := JoinedRight(h, i, b);
    RingNext(g, i);
    if g.chain[i] + g.size[g.chain[i]] == b then Merged(g, i) else g
  }

  lemma FreedKeeps(h: Heap, i: nat, b: nat)
    requires FreeList.Valid(h) && b in h.live && Between(h, i, b)
    ensures var f := Freed(h, i, b);
            && FreeList.Valid(f) && i < |f.chain| && f.chain[i] == h.chain[i] >= BASE
            && f.live == h.live - {b} && f.own.Keys == h.own.Keys
  {
    hide Circular, Tiling, Apart, Members, Sized, Sorted, JoinedRight;
    JoinedRightKeeps(h, i, b);
    var g := JoinedRight(h, i, b);
    RingNext(g, i);
    BaseIsEmpty(g);
    assert {i} == {} + {i};
    AboveBase(h, i);
    if g.chain[i] + g.size[g.chain[i]] == b {
      MergedKeeps(g, i, {});
    } else {
      NotTouching(g, i, {});
    }
  }

  /** The header fields after free's two tests, as free stores them. */
  lemma FreedFields(h: Heap, i: nat, b: nat)
    requires FreeList.Valid(h) && b in h.live && Between(h, i, b)
    ensures var p := h.chain[i];
            p in h.ptr && p in h.size && b in h.size && b != p &&
            var n := h.ptr[p];
            n in h.ptr && n in h.size &&
            var right, left := b + h.size[b] == n, p + h.size[p] == b;
            var size1 := if right then h.size[b := h.size[b] + h.size[n]] else h.size;
            var ptr1 := if right then h.ptr[b := h.ptr[n]] else h.ptr[b := n];
            && Freed(h, i, b).size == (if left then size1[p := size1[p] + size1[b]] else size1)
            && Freed(h, i, b).ptr == (if left then ptr1[p := ptr1[b]] else ptr1[p := b])
  {
    hide Circular, Tiling, Apart, Members, Sized, Sorted, InsertAt, RemoveAt;
    LiveAt(h, b);
    RingNext(h, i);
    RingNext(h, After(i, |h.chain|));
    BaseIsEmpty(h);
    LinkedKeeps(h, i, b);
    JoinedRightKeeps(h, i, b);
    var p, n := h.chain[i], h.ptr[h.chain[i]];
    var g := Linked(h, i, b);
    assert g.ptr[b] == n && g.chain[i + 1] == b;
    assert i + 1 < |h.chain| ==> g.chain[i + 2] == h.chain[i + 1];
    RingNext(g, i + 1);
    var j := JoinedRight(h, i, b);
    RingNext(j, i);
    RingNext(j, i + 1);
  }

  /** The ring that malloc starts from: base alone. */
  lemma FirstRing(ptr: map<nat, nat>, size: map<nat, nat>)
    ensures FreeList.Valid(Heap(ptr[BASE := BASE], size[BASE := 0], [BASE], map[], map[]))
  {
  }

  /** What malloc makes of the heap when it serves n units from the free block at place m. */
  ghost function Served(h: Heap, m: nat, n: nat): Heap
    requires FreeList.Valid(h) && 0 < m < |h.chain| && h.chain[m] in h.size && 0 < n <= h.size[h.chain[m]]
  {
    if h.size[h.chain[m]] == n then Unlinked(h, m) else Split(h, m, n)
  }

  /** The block served was free, all of it, and is now live; nothing else changes hands. */
  lemma ServedKeeps(h: Heap, m: nat, n: nat, prev: nat)
    requires FreeList.Valid(h) && 0 < m < |h.chain| && h.chain[m] in h.size && 0 < n <= h.size[h.chain[m]]
    requires prev < |h.chain| && After(prev, |h.chain|) == m
    ensures var s, b := Served(h, m, n), h.chain[m] + h.size[h.chain[m]] - n;
            && FreeList.Valid(s) && b !in h.live && s.live == h.live[b := n]
            && s.own.Keys == h.own.Keys && h.chain[prev] in s.chain
            && forall u :: b <= u < b + n ==> u in h.own && h.own[u] !in h.live
  {
    hide Circular, Sized, Tiling, Apart, Members, InsertAt, RemoveAt;
    InMembers(h.chain, m);
    BaseFirst(h, m);
    FreeUnits(h, m);
    if h.size[h.chain[m]] == n {
      UnlinkedKeeps(h, m);
      assert RemoveAt(h.chain, m)[prev] == h.chain[prev];
    } else {
      SplitKeeps(h, m, n);
      InnerNotHeader(h.size, Members(h.chain), h.live, h.own, h.chain[m], h.chain[m] + h.size[h.chain[m]] - n);
    }
  }

  /** The header fields, as malloc stores them. */
  lemma ServedFields(h: Heap, m: nat, n: nat, prev: nat)
    requires FreeList.Valid(h) && 0 < m < |h.chain| && h.chain[m] in h.size && 0 < n <= h.size[h.chain[m]]
    requires prev < |h.chain| && After(prev, |h.chain|) == m
    ensures var s, p := Served(h, m, n), h.chain[m];
            p in h.ptr && h.chain[prev] >= BASE &&
            if h.size[p] == n then s.ptr == h.ptr[h.chain[prev] := h.ptr[p]] && s.size == h.size
            else s.ptr == h.ptr && s.size == h.size[p := h.size[p] - n][p + (h.size[p] - n) := n]
  {
    hide Circular, Sized, Tiling, Apart, Members, InsertAt, RemoveAt;
    RingNext(h, m);
    AboveBase(h, prev);
  }

  /** The header after place k, and that it is not base if it has any room. */
  lemma PlaceOf(h: Heap, k: nat)
    requires FreeList.Valid(h) && k < |h.chain|
    ensures h.chain[k] in h.ptr && h.ptr[h.chain[k]] == h.chain[After(k, |h.chain|)]
    ensures var m := After(k, |h.chain|);
            h.chain[m] in h.size && (h.size[h.chain[m]] > 0 ==> m > 0)
    ensures forall i, j :: 0 <= i < |h.chain| && 0 <= j < |h.chain| && h.chain[i] == h.chain[j] ==> i == j
  {
    hide Circular, Sized, Tiling, Apart, Members;
    RingNext(h, k);
    RingNext(h, After(k, |h.chain|));
    BaseIsEmpty(h);
  }

  /** A live block keeps its units, whatever happens to the others. */
  lemma SameOwner(g: Heap, h: Heap, u: nat)
    requires FreeList.Valid(g) && FreeList.Valid(h) && g.live == h.live && u in g.own && g.own[u] in g.live
    ensures u in h.own && h.own[u] == g.own[u]
  {
    hide Ring, Apart;
    assert OwnsAll(h.own, g.own[u], h.live[g.own[u]]);
  }

  /** Units of live blocks stay in live blocks. */
  ghost predicate HandsKept(g: Heap, h: Heap) {
    forall u :: u in g.own && g.own[u] in g.live ==> u in h.own && h.own[u] in h.live
  }

  lemma KeptHands(g: Heap, h: Heap)
    requires g.live == h.live && FreeList.Valid(h) && (g.own == map[] || FreeList.Valid(g))
    ensures HandsKept(g, h)
  {
    hide FreeList.Valid;
    forall u | u in g.own && g.own[u] in g.live
      ensures u in h.own && h.own[u] in h.live
    {
      SameOwner(g, h, u);
    }
  }

  lemma FreeUnits(h: Heap, m: nat)
    requires FreeList.Valid(h) && m < |h.chain| && h.chain[m] in h.size
    ensures h.chain[m] !in h.live
    ensures forall u :: h.chain[m] <= u < h.chain[m] + h.size[h.chain[m]] ==> u in h.own && h.own[u] == h.chain[m]
  {
    hide Ring, Apart;
    InMembers(h.chain, m);
    assert OwnsAll(h.own, h.chain[m], h.size[h.chain[m]]);
  }

  lemma NotLiveYet(h: Heap, a: nat)
    requires FreeList.Valid(h) && forall u :: u in h.own ==> u < a
    ensures a !in h.live
  {
    hide Ring, Apart;
    assert a in h.live ==> a in h.own;
  }

  lemma LiveAt(h: Heap, b: nat)
    requires FreeList.Valid(h) && b in h.live
    ensures BASE < b && b in h.size && h.size[b] == h.live[b] > 0 && b !in h.chain
  {
    hide Ring, Apart, Members;
    NotIn(h.chain, b);
  }

  lemma NextSized(h: Heap, i: nat)
    requires FreeList.Valid(h) && i < |h.chain|
    ensures h.chain[i] in h.ptr && h.chain[i] in h.size && h.ptr[h.chain[i]] in h.size
  {
    hide Circular, Sized, Sorted, Tiling, Apart;
    RingNext(h, i);
    RingNext(h, After(i, |h.chain|));
  }

  lemma AboveBase(h: Heap, i: nat)
    requires Ring(h) && i < |h.chain|
    ensures h.chain[i] >= BASE
  {
    hide Circular, Sized;
    assert i > 0 ==> h.chain[0] < h.chain[i];
  }

  lemma BaseIsEmpty(h: Heap)
    requires Ring(h)
    ensures h.chain[0] == BASE && BASE in h.size && h.size[BASE] == 0
  {
    SizedAt(h.size, h.chain, 0);
  }

  /** Some free block has n units. */
  ghost predicate Fits(h: Heap, n: nat) {
    exists i :: 0 <= i < |h.chain| && h.chain[i] in h.size && h.size[h.chain[i]] >= n
  }

  /** Malloc's search, begun after place f, has been past all but those from place k + 1 to f;
      none of the others has n units. */
  ghost predicate Searched(h: Heap, n: nat, f: nat, k: nat) {
    forall j :: 0 <= j < |h.chain| && Ahead(j, f, |h.chain|) > Ahead(After(k, |h.chain|), f, |h.chain|) ==>
      h.chain[j] in h.size ==> h.size[h.chain[j]] < n
  }

  lemma SearchBegins(h: Heap, n: nat, f: nat)
    requires f < |h.chain|
    ensures Searched(h, n, f, f)
  {
  }

  lemma SearchGoesOn(h: Heap, n: nat, f: nat, k: nat)
    requires f < |h.chain| && k < |h.chain| && Searched(h, n, f, k)
    requires var m := After(k, |h.chain|); m != f && h.chain[m] in h.size && h.size[h.chain[m]] < n
    ensures Searched(h, n, f, After(k, |h.chain|))
  {
  }

  /** Back where it began, it has seen them all. */
  lemma SearchEnds(h: Heap, n: nat, f: nat, k: nat)
    requires f < |h.chain| && k < |h.chain| && Searched(h, n, f, k)
    requires After(k, |h.chain|) == f && h.chain[f] in h.size && h.size[h.chain[f]] < n
    ensures !Fits(h, n)
  {
  }

  lemma FoundFits(h: Heap, n: nat, m: nat)
    requires m < |h.chain| && h.chain[m] in h.size && h.size[h.chain[m]] >= n
    ensures Fits(h, n)
  {
  }

  /** The ring that malloc starts with has nothing to give. */
  lemma FirstFitsNothing(ptr: map<nat, nat>, size: map<nat, nat>, n: nat)
    requires n > 0
    ensures !Fits(Heap(ptr[BASE := BASE], size[BASE := 0], [BASE], map[], map[]), n)
  {
  }

  // Totals -----------------------------------------------------------------------------------------

  ghost function Pick(s: set<nat>): (b: nat)
    requires s != {}
    ensures b in s
  {
    var b :| b in s;
    b
  }

  /** The sizes of the blocks bs added up. */
  ghost function Total(size: map<nat, nat>, bs: set<nat>): nat
    requires forall b :: b in bs ==> b in size
  {
    if bs == {} then 0 else size[Pick(bs)] + Total(size, bs - {Pick(bs)})
  }

  ghost function UnitsOf(a: nat, n: nat): (r: set<nat>)
    ensures forall u :: u in r <==> a <= u < a + n
    ensures |r| == n
  {
    if n == 0 then {} else UnitsOf(a, n - 1) + {a + n - 1}
  }

  ghost predicate Tiles(size: map<nat, nat>, bs: set<nat>, own: map<nat, nat>) {
    && (forall b :: b in bs ==> b in size && OwnsAll(own, b, size[b]))
    && (forall u :: u in own ==> own[u] in bs && own[u] in size && own[u] <= u < own[u] + size[own[u]])
  }

  lemma OthersOwn(own: map<nat, nat>, b: nat, n: nat, c: nat, m: nat)
    requires OwnsAll(own, b, n) && OwnsAll(own, c, m) && b != c
    ensures OwnsAll(own - UnitsOf(b, n), c, m)
  {
    hide UnitsOf;
    var units := UnitsOf(b, n);
    forall u | c <= u < c + m
      ensures u in own && u !in units
    {
      assert u in own && own[u] == c;
    }
  }

  lemma WithoutOne(size: map<nat, nat>, bs: set<nat>, own: map<nat, nat>, b: nat)
    requires Tiles(size, bs, own) && b in bs
    ensures var units := UnitsOf(b, size[b]);
            Tiles(size, bs - {b}, own - units) && own.Keys == (own - units).Keys + units
  {
    hide UnitsOf;
    var units := UnitsOf(b, size[b]);
    var rest := own - units;
    assert units <= own.Keys by { assert OwnsAll(own, b, size[b]); }
    forall c | c in bs - {b}
      ensures c in size && OwnsAll(rest, c, size[c])
    {
      OthersOwn(own, b, size[b], c, size[c]);
    }
    forall u | u in rest
      ensures rest[u] in bs - {b} && rest[u] in size && rest[u] <= u < rest[u] + size[rest[u]]
    {
      assert rest[u] == own[u] && u !in units;
    }
  }

  /** Units that tile blocks are as many as the blocks have together. */
  lemma {:induction false} TotalIs(size: map<nat, nat>, bs: set<nat>, own: map<nat, nat>)
    requires Tiles(size, bs, own)
    ensures (forall b :: b in bs ==> b in size) && |own| == Total(size, bs)
    decreases |bs|
  {
    assert forall b :: b in bs ==> b in size;
    if bs == {} {
      assert own == map[];
    } else {
      var b := Pick(bs);
      var units := UnitsOf(b, size[b]);
      WithoutOne(size, bs, own, b);
      hide Tiles, UnitsOf;
      TotalIs(size, bs - {b}, own - units);
      assert (own - units).Keys !! units;
      assert |own.Keys| == |(own - units).Keys| + |units|;
    }
  }

  /** The units of the free blocks and of the live ones are all there are. */
  lemma HeapTotal(h: Heap)
    requires FreeList.Valid(h)
    ensures forall b :: b in Members(h.chain) + h.live.Keys ==> b in h.size
    ensures |h.own| == Total(h.size, Members(h.chain) + h.live.Keys)
  {
    hide Ring, Apart, OwnsAll, Total;
    TotalIs(h.size, Members(h.chain) + h.live.Keys, h.own);
  }

  class Allocator {
    var ptr: map<nat, nat>      // s.ptr of the headers
    var size: map<nat, nat>     // s.size
    var freep: nat
    var brk: nat                // where the next sbrk begins
    var avail: nat              // what sbrk can still grant
    ghost var h: Heap
    ghost var lo: nat           // where the first sbrk began
    ghost var asked: nat        // calls of sbrk

    ghost predicate Valid()
      reads this
    {
      && h.ptr == ptr && h.size == size && BASE < brk
      && lo <= brk && (forall u :: u in h.own <==> lo <= u < brk)
      && if freep == NULL then h.own == map[] && h.live == map[] else FreeList.Valid(h) && freep in h.chain
    }

    /** Whatever has been allocated and freed, the blocks in the ring and in use together have just
        the units that sbrk has granted. */
    lemma Conserved()
      requires Valid() && freep != NULL
      ensures forall b :: b in Members(h.chain) + h.live.Keys ==> b in h.size
      ensures Total(h.size, Members(h.chain) + h.live.Keys) == brk - lo
    {
      hide FreeList.Valid;
      HeapTotal(h);
      assert h.own.Keys == UnitsOf(lo, brk - lo);
      assert |h.own.Keys| == |h.own|;
    }

    /** Before the first call: sbrk begins at start and can grant so many units. */
    constructor (start: nat, units: nat)
      requires BASE < start
      ensures Valid() && brk == lo == start && avail == units && asked == 0 && h.live == map[]
    {
      ptr, size, freep, brk, avail := map[], map[], NULL, start, units;
      h, lo, asked := Heap(map[], map[], [], map[], map[]), start, 0;
    }

    /** Gives the block back, merged with the free blocks it touches. */
    method Free(ap: nat)
      requires Valid() && ap > 0 && ap - 1 in h.live
      modifies this`ptr, this`size, this`freep, this`h
      ensures Valid() && freep != NULL
      ensures h.live == old(h.live) - {ap - 1} && h.own.Keys == old(h.own.Keys)
      ensures freep in size && freep in ptr && ptr[freep] in size
      ensures size[freep] >= old(h.live)[ap - 1] || size[ptr[freep]] >= old(h.live)[ap - 1]
    {
      hide FreeList.Valid, Freed, OwnsAll;
      var bp := ap - 1;
      SomeoneLive();
      LiveAt(h, bp);
      var p := Search(bp);
      ghost var i :| 0 <= i < |h.chain| && h.chain[i] == p && Between(h, i, bp);
      FreedKeeps(h, i, bp);
      FreedFields(h, i, bp);
      ghost var f := Freed(h, i, bp);
      NextSized(f, i);
      if bp + size[bp] == ptr[p] {
        size := size[bp := size[bp] + size[ptr[p]]];
        ptr := ptr[bp := ptr[ptr[p]]];
      } else {
        ptr := ptr[bp := ptr[p]];
      }
      if p + size[p] == bp {
        size := size[p := size[p] + size[bp]];
        ptr := ptr[p := ptr[bp]];
      } else {
        ptr := ptr[p := bp];
      }
      freep := p;
      h := f;
    }

    /** A block is live only once the ring exists. */
    lemma SomeoneLive()
      requires Valid() && h.live != map[]
      ensures freep != NULL && FreeList.Valid(h)
    {
    }

    /** At least nu units more from sbrk; the ring then has a block that large at freep or
        just after it. */
    method Morecore(nu: nat) returns (p: nat)
      requires Valid() && freep != NULL && nu > 0 && Askable(nu)
      modifies this
      ensures Valid() && freep != NULL && h.live == old(h.live) && asked == old(asked) + 1
      ensures lo == old(lo) && brk + avail == old(brk) + old(avail)
      ensures p == NULL <==> old(avail) < Chunk(nu)
      ensures brk == old(brk) + (if p == NULL then 0 else Chunk(nu))
      ensures p == NULL ==> h == old(h) && freep == old(freep)
      ensures p != NULL ==> p == freep
      ensures p != NULL ==>
                freep in size && freep in ptr && ptr[freep] in size && (size[freep] >= nu || size[ptr[freep]] >= nu)
    {
      hide FreeList.Valid;
      var n := Chunk(nu);
      asked := asked + 1;
      if n > avail {
        return NULL;
      }
      var hp := brk;
      avail := avail - n;
      brk := brk + n;
      ObtainedKeeps(h, hp, n);
      NotLiveYet(h, hp);
      size := size[hp := n];
      h := Obtained(h, hp, n);
      Free(hp + 1);
      assert h.live == old(h.live);
      return freep;
    }

    /** Hands out nunits units of the free block p that follows prevp: whole, or its tail. */
    method Serve(prevp: nat, p: nat, nunits: nat, ghost k: nat) returns (r: nat)
      requires Valid() && freep != NULL && k < |h.chain| && h.chain[k] == prevp && prevp in ptr && ptr[prevp] == p
      requires p in size && 0 < nunits <= size[p]
      modifies this`ptr, this`size, this`freep, this`h
      ensures Valid() && freep != NULL && r != NULL
      ensures r - 1 !in old(h.live) && h.live == old(h.live)[r - 1 := nunits] && h.own.Keys == old(h.own.Keys)
      ensures forall u :: r - 1 <= u < r - 1 + nunits ==> u in old(h.own) && old(h.own)[u] !in old(h.live)
    {
      hide FreeList.Valid, Served;
      PlaceOf(h, k);
      ghost var m := After(k, |h.chain|);
      ServedKeeps(h, m, nunits, k);
      ServedFields(h, m, nunits, k);
      ghost var s := Served(h, m, nunits);
      var b := p;
      if size[p] == nunits {
        ptr := ptr[prevp := ptr[p]];
      } else {
        size := size[p := size[p] - nunits];
        b := p + size[p];
        size := size[b := nunits];
      }
      freep := prevp;
      h := s;
      return b + 1;
    }

    /** There is a free block of n units. */
    ghost predicate HasFree(n: nat)
      reads this
    {
      freep != NULL && Fits(h, n)
    }

    /** A block of at least nbytes bytes, or 0 when no free block is that large and sbrk
        refuses. Asks sbrk at most once. */
    method Malloc(nbytes: nat) returns (r: nat)
      requires Valid() && Askable(Units(nbytes))
      modifies this
      ensures Valid() && lo == old(lo) && asked == old(asked) + (if old(HasFree(Units(nbytes))) then 0 else 1)
      ensures brk + avail == old(brk) + old(avail)
      ensures brk == old(brk) + (if r == NULL || old(HasFree(Units(nbytes))) then 0 else Chunk(Units(nbytes)))
      ensures r == NULL <==> !old(HasFree(Units(nbytes))) && old(avail) < Chunk(Units(nbytes))
      ensures r == NULL ==> h.live == old(h.live)
      ensures r != NULL ==>
                && r - 1 !in old(h.live) && h.live == old(h.live)[r - 1 := Units(nbytes)]
                && forall u :: r - 1 <= u < r - 1 + Units(nbytes) ==>
                     u in h.own && (u in old(h.own) ==> old(h.own)[u] !in old(h.live))
      ensures r != NULL ==> forall a :: r * UNIT <= a < r * UNIT + nbytes ==> ByteOf(h, a, r)
    {
      hide FreeList.Valid, Fits;
      var nunits := Units(nbytes);
      if freep == NULL {
        FirstRing(ptr, size);
        FirstFitsNothing(ptr, size, nunits);
        ptr, size := ptr[BASE := BASE], size[BASE := 0];
        freep := BASE;
        h := Heap(ptr, size, [BASE], map[], map[]);
      }
      r := Hunt(nunits);
      if r != NULL {
        assert h.live != map[] by { assert r - 1 in h.live; }
        SomeoneLive();
        BytesOwned(h, r, nbytes);
      }
    }

    /** The loop of malloc. */
    method Hunt(nunits: nat) returns (r: nat)
      requires Valid() && freep != NULL && nunits > 0 && Askable(nunits)
      modifies this
      ensures Valid() && lo == old(lo) && asked == old(asked) + (if old(HasFree(nunits)) then 0 else 1)
      ensures brk + avail == old(brk) + old(avail)
      ensures brk == old(brk) + (if r == NULL || old(HasFree(nunits)) then 0 else Chunk(nunits))
      ensures r == NULL <==> !old(HasFree(nunits)) && old(avail) < Chunk(nunits)
      ensures r == NULL ==> h.live == old(h.live)
      ensures r != NULL ==>
                && r - 1 !in old(h.live) && h.live == old(h.live)[r - 1 := nunits]
                && forall u :: r - 1 <= u < r - 1 + nunits ==>
                     u in h.own && (u in old(h.own) ==> old(h.own)[u] !in old(h.live))
    {
      hide FreeList.Valid, Served, Fits, Searched, Chunk, Askable;
      var prevp := freep;
      ghost var k :| 0 <= k < |h.chain| && h.chain[k] == freep;
      ghost var f, late := k, false;
      SearchBegins(h, nunits, f);
      NextSized(h, k);
      var p := ptr[prevp];
      while true
        invariant Valid() && freep != NULL && h.live == old(h.live) && lo == old(lo)
        invariant brk + avail == old(brk) + old(avail) && brk == old(brk) + (if late then Chunk(nunits) else 0)
        invariant 0 <= k < |h.chain| && h.chain[k] == prevp && prevp in ptr && p == ptr[prevp] && p in size
        invariant 0 <= f < |h.chain| && h.chain[f] == freep
        invariant asked == old(asked) + (if late then 1 else 0)
        invariant !late ==> avail == old(avail) && h == old(h) && Searched(h, nunits, f, k)
        invariant late ==> freep in size && (size[freep] >= nunits || size[p] >= nunits)
        invariant late ==> old(avail) >= Chunk(nunits) && !old(HasFree(nunits))
        decreases !late, Ahead(After(k, |h.chain|), f, |h.chain|)
      {
        ghost var m := After(k, |h.chain|);
        PlaceOf(h, k);
        if size[p] >= nunits {
          KeptHands(old(h), h);
          FoundFits(h, nunits, m);
          r := Serve(prevp, p, nunits, k);
          return;
        }
        if p == freep {
          SearchEnds(h, nunits, f, k);
          p := Morecore(nunits);
          if p == NULL {
            return NULL;
          }
          late := true;
          k :| 0 <= k < |h.chain| && h.chain[k] == freep;
          f := k;
        } else {
          if !late {
            SearchGoesOn(h, nunits, f, k);
          }
          k := m;
        }
        NextSized(h, k);
        prevp := p;
        p := ptr[p];
      }
    }

    /** The header in the ring after which block bp belongs. */
    method Search(bp: nat) returns (p: nat)
      requires Valid() && freep != NULL && BASE < bp && bp !in h.chain
      ensures exists i :: 0 <= i < |h.chain| && h.chain[i] == p && Between(h, i, bp)
    {
      hide Circular, Sorted, Sized, Tiling, Apart, Members;
      p := freep;
      ghost var i :| 0 <= i < |h.chain| && h.chain[i] == p;
      ghost var j := Place(h, bp, |h.chain| - 1);
      RingNext(h, i);
      while !(bp > p && bp < ptr[p])
        invariant 0 <= i < |h.chain| && h.chain[i] == p && p in ptr
        decreases Ahead(i, j, |h.chain|)
      {
        SearchStops(h, i, bp);
        if p >= ptr[p] && (bp > p || bp < ptr[p]) {
          break;
        }
        RingNext(h, i);
        p := ptr[p];
        i := After(i, |h.chain|);
        RingNext(h, i);
      }
      SearchStops(h, i, bp);
    }
  }
}
