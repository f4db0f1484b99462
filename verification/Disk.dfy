/** Disk blocks as bytes, with the two views the kernel takes of them: arrays of
    little-endian 32-bit words (log header, indirect block) and arrays of bits
    (free map). */
module Disk {

  const BSIZE := 512
  const BPB := 4096           // BSIZE * 8, bits in one free-map block
  const WORDS := 128          // BSIZE / sizeof(uint)

  type Byte = x: int | 0 <= x < 256
  type Word = x: int | 0 <= x < 0x1_0000_0000
  type Block = b: seq<Byte> | |b| == BSIZE witness seq(BSIZE, _ => 0)

  function ZeroBlock(): (b: Block)
    ensures forall i :: 0 <= i < BSIZE ==> b[i] == 0
  {
    seq(BSIZE, _ => 0)
  }

  // Words -------------------------------------------------------------------

  function Pow256(n: nat): (r: nat)
    ensures r > 0
  {
    if n == 0 then 1 else 256 * Pow256(n - 1)
  }

  function Decode(bs: seq<Byte>): (r: nat) {
    if bs == [] then 0 else bs[0] + 256 * Decode(bs[1..])
  }

  function Encode(w: nat, n: nat): (bs: seq<Byte>)
    ensures |bs| == n
  {
    if n == 0 then [] else [w % 256] + Encode(w / 256, n - 1)
  }

  lemma {:induction false} DecodeBound(bs: seq<Byte>)
    ensures Decode(bs) < Pow256(|bs|)
  {
    if bs == [] {
    } else {
      DecodeBound(bs[1..]);
    }
  }

  lemma {:induction false} DecodeEncode(w: nat, n: nat)
    requires w < Pow256(n)
    ensures Decode(Encode(w, n)) == w
  {
    if n == 0 {
    } else {
      DecodeEncode(w / 256, n - 1);
      assert Encode(w, n)[1..] == Encode(w / 256, n - 1);
    }
  }

  lemma {:induction false} DecodeZeroes(bs: seq<Byte>)
    requires forall i :: 0 <= i < |bs| ==> bs[i] == 0
    ensures Decode(bs) == 0
  {
    if bs == [] {
    } else {
      DecodeZeroes(bs[1..]);
    }
  }

  lemma Pow256Four()
    ensures Pow256(4) == 0x1_0000_0000
  {
    assert Pow256(1) == 256;
    assert Pow256(2) == 65536;
    assert Pow256(3) == 16777216;
  }

  /** Entry i of a block read as an array of words. */
  function WordAt(b: Block, i: nat): (w: Word)
    requires i < WORDS
  {
    DecodeBound(b[4 * i..4 * i + 4]);
    Pow256Four();
    Decode(b[4 * i..4 * i + 4])
  }

  /** Words are stored with the low byte first. */
  lemma WordBytes(b: Block, i: nat)
    requires i < WORDS
    ensures var p: nat, q: nat, r: nat, t: nat := b[4 * i], b[4 * i + 1], b[4 * i + 2], b[4 * i + 3];
            WordAt(b, i) == p + 256 * q + 65536 * r + 16777216 * t
  {
    var a := 4 * i;
    var p: nat, q: nat, r: nat, t: nat := b[a], b[a + 1], b[a + 2], b[a + 3];
    var bs := b[a..a + 4];
    assert bs[1..] == b[a + 1..a + 4] && bs[1..][1..] == b[a + 2..a + 4] && bs[1..][1..][1..] == b[a + 3..a + 4];
    assert bs[1..][1..][1..][1..] == [];
    assert Decode(b[a + 3..a + 4]) == t;
    assert Decode(b[a + 2..a + 4]) == r + 256 * t;
    assert Decode(b[a + 1..a + 4]) == q + 256 * (r + 256 * t);
  }

  function PutWord(b: Block, i: nat, w: Word): (r: Block)
    requires i < WORDS
  {
    b[..4 * i] + Encode(w, 4) + b[4 * i + 4..]
  }

  /** A word store changes that word and no other. */
  lemma WordAtPut(b: Block, i: nat, w: Word, j: nat)
    requires i < WORDS && j < WORDS
    ensures WordAt(PutWord(b, i, w), j) == if j == i then w else WordAt(b, j)
  {
    var r := PutWord(b, i, w);
    if j == i {
      assert r[4 * i..4 * i + 4] == Encode(w, 4);
      Pow256Four();
      DecodeEncode(w, 4);
    } else {
      assert r[4 * j..4 * j + 4] == b[4 * j..4 * j + 4];
    }
  }

  /** A zeroed block holds only zero words. */
  lemma WordAtZero(i: nat)
    requires i < WORDS
    ensures WordAt(ZeroBlock(), i) == 0
  {
    DecodeZeroes(ZeroBlock()[4 * i..4 * i + 4]);
  }

  // Bits --------------------------------------------------------------------

  function Pow2(n: nat): (r: nat)
    ensures r > 0
  {
    if n == 0 then 1 else 2 * Pow2(n - 1)
  }

  lemma Pow2Eight()
    ensures Pow2(8) == 256
  {
    assert Pow2(2) == 4;
    assert Pow2(4) == 16;
    assert Pow2(6) == 64;
  }

  /** (x & (1 << k)) != 0 */
  predicate Bit(x: nat, k: nat) {
    if k == 0 then x % 2 == 1 else Bit(x / 2, k - 1)
  }

  /** x | (1 << k) or x & ~(1 << k), as v says. */
  function WithBit(x: nat, k: nat, v: bool): (r: nat) {
    if k == 0 then x / 2 * 2 + (if v then 1 else 0) else x % 2 + 2 * WithBit(x / 2, k - 1, v)
  }

  lemma {:induction false} WithBitBound(x: nat, k: nat, v: bool, n: nat)
    requires x < Pow2(n) && k < n
    ensures WithBit(x, k, v) < Pow2(n)
  {
    assert Pow2(n) == 2 * Pow2(n - 1);
    if k == 0 {
    } else {
      WithBitBound(x / 2, k - 1, v, n - 1);
    }
  }

  /** A bit store changes that bit and no other. */
  lemma {:induction false} BitWithBit(x: nat, k: nat, v: bool, j: nat)
    ensures Bit(WithBit(x, k, v), j) == if j == k then v else Bit(x, j)
  {
    if k > 0 && j > 0 {
      BitWithBit(x / 2, k - 1, v, j - 1);
      assert WithBit(x, k, v) / 2 == WithBit(x / 2, k - 1, v);
    }
  }

  /** A free-map block with bit i set to v. */
  function PutBit(b: Block, i: nat, v: bool): (r: Block)
    requires i < BPB
  {
    Pow2Eight();
    WithBitBound(b[i / 8], i % 8, v, 8);
    b[i / 8 := WithBit(b[i / 8], i % 8, v)]
  }

  predicate BitAt(b: Block, i: nat)
    requires i < BPB
  {
    Bit(b[i / 8], i % 8)
  }

  lemma BitAtPut(b: Block, i: nat, v: bool, j: nat)
    requires i < BPB && j < BPB
    ensures BitAt(PutBit(b, i, v), j) == if j == i then v else BitAt(b, j)
  {
    if i / 8 == j / 8 {
      BitWithBit(b[i / 8], i % 8, v, j % 8);
    }
  }
}
