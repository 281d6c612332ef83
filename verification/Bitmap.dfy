/** The free bit map of fs.c: bits in bytes in 512-byte blocks. */
module Bitmap {

  const BPB: nat := 4096  // bits per bitmap block

  type Map = seq<seq<bv8>>

  /** 1 << k */
  function Mask(k: nat): bv8
    requires k < 8
  {
    if k == 0 then 1 else if k == 1 then 2 else if k == 2 then 4 else if k == 3 then 8
    else if k == 4 then 16 else if k == 5 then 32 else if k == 6 then 64 else 128
  }

  predicate Has(x: bv8, k: nat)
    requires k < 8
  {
    x & Mask(k) != 0
  }

  function With(x: bv8, k: nat): bv8
    requires k < 8
  {
    x | Mask(k)
  }

  function Without(x: bv8, k: nat): bv8
    requires k < 8
  {
    x & !Mask(k)
  }

  lemma MaskWith(x: bv8, j: nat, k: nat)
    requires j < 8 && k < 8
    ensures Has(With(x, k), j) <==> j == k || Has(x, j)
  {
  }

  lemma MaskWithout(x: bv8, j: nat, k: nat)
    requires j < 8 && k < 8
    ensures Has(Without(x, k), j) <==> j != k && Has(x, j)
  {
  }

  function BlockOf(b: nat): nat { b / BPB }

  function ByteOf(b: nat): (i: nat)
    ensures i < BPB / 8
  {
    b % BPB / 8
  }

  function BitOf(b: nat): (k: nat)
    ensures k < 8
  {
    b % 8
  }

  /** Block, byte and bit together identify a block number. */
  lemma SameBit(b: nat, c: nat)
    requires BlockOf(b) == BlockOf(c) && ByteOf(b) == ByteOf(c) && BitOf(b) == BitOf(c)
    ensures b == c
  {
    Rebuild(b);
    Rebuild(c);
    hide BlockOf, ByteOf, BitOf;
  }

  lemma Rebuild(b: nat)
    ensures b == BPB * BlockOf(b) + 8 * ByteOf(b) + BitOf(b)
  {
  }

  predicate Covers(bm: Map, size: nat) {
    (forall b: nat | b < size :: BlockOf(b) < |bm|) && forall i | 0 <= i < |bm| :: |bm[i]| == BPB / 8
  }

  function Byte(bm: Map, b: nat): bv8
    requires Covers(bm, b + 1)
  {
    bm[BlockOf(b)][ByteOf(b)]
  }

  predicate Bit(bm: Map, b: nat)
    requires Covers(bm, b + 1)
  {
    Has(Byte(bm, b), BitOf(b))
  }

  function PutByte(bm: Map, b: nat, x: bv8): Map
    requires Covers(bm, b + 1)
  {
    bm[BlockOf(b) := bm[BlockOf(b)][ByteOf(b) := x]]
  }

  function SetBit(bm: Map, b: nat): Map
    requires Covers(bm, b + 1)
  {
    PutByte(bm, b, With(Byte(bm, b), BitOf(b)))
  }

  function ClearBit(bm: Map, b: nat): Map
    requires Covers(bm, b + 1)
  {
    PutByte(bm, b, Without(Byte(bm, b), BitOf(b)))
  }

  lemma BytesApart(bm: Map, size: nat, b: nat, x: bv8, c: nat)
    requires Covers(bm, size) && b < size && c < size
    ensures Covers(PutByte(bm, b, x), size)
    ensures if BlockOf(b) == BlockOf(c) && ByteOf(b) == ByteOf(c)
            then Byte(PutByte(bm, b, x), c) == x && Byte(bm, b) == Byte(bm, c)
            else Byte(PutByte(bm, b, x), c) == Byte(bm, c)
  {
    hide BlockOf, ByteOf;
  }

  lemma BitAfter(bm: Map, size: nat, b: nat, c: nat)
    requires Covers(bm, size) && b < size && c < size
    ensures Covers(SetBit(bm, b), size) && Covers(ClearBit(bm, b), size)
    ensures Bit(SetBit(bm, b), c) <==> c == b || Bit(bm, c)
    ensures Bit(ClearBit(bm, b), c) <==> c != b && Bit(bm, c)
  {
    hide BlockOf, ByteOf, BitOf, Has, With, Without, PutByte, Byte;
    BytesApart(bm, size, b, With(Byte(bm, b), BitOf(b)), c);
    BytesApart(bm, size, b, Without(Byte(bm, b), BitOf(b)), c);
    MaskWith(Byte(bm, b), BitOf(c), BitOf(b));
    MaskWithout(Byte(bm, b), BitOf(c), BitOf(b));
    if BlockOf(b) == BlockOf(c) && ByteOf(b) == ByteOf(c) && BitOf(b) == BitOf(c) {
      SameBit(b, c);
    }
  }

  /** Marking or freeing a block changes exactly its bit. */
  lemma OneBit(bm: Map, size: nat, b: nat)
    requires Covers(bm, size) && b < size
    ensures Covers(SetBit(bm, b), size) && Covers(ClearBit(bm, b), size)
    ensures forall c: nat | c < size :: Bit(SetBit(bm, b), c) <==> c == b || Bit(bm, c)
    ensures forall c: nat | c < size :: Bit(ClearBit(bm, b), c) <==> c != b && Bit(bm, c)
  {
    hide Bit, SetBit, ClearBit;
    BitAfter(bm, size, b, b);
    forall c: nat | c < size
      ensures Bit(SetBit(bm, b), c) <==> c == b || Bit(bm, c)
      ensures Bit(ClearBit(bm, b), c) <==> c != b && Bit(bm, c)
    {
      BitAfter(bm, size, b, c);
    }
  }

  // ---- Counting ----

  /** How many of the first n bits are clear. */
  ghost function FreeBits(bm: Map, n: nat): nat {
    if n == 0 then 0 else FreeBits(bm, n - 1) + if Covers(bm, n) && !Bit(bm, n - 1) then 1 else 0
  }

  lemma {:induction false} NoFreeBits(bm: Map, n: nat)
    requires Covers(bm, n)
    ensures FreeBits(bm, n) == 0 <==> forall b: nat | b < n :: Bit(bm, b)
  {
    hide Bit;
    if n > 0 {
      NoFreeBits(bm, n - 1);
    }
  }

  /** Marking a free block leaves one free bit less, freeing a marked one leaves one more. */
  lemma {:induction false} FreeBitsAfter(bm: Map, size: nat, a: nat, n: nat)
    requires Covers(bm, size) && a < size && n <= size
    ensures !Bit(bm, a) ==> FreeBits(SetBit(bm, a), n) == FreeBits(bm, n) - if a < n then 1 else 0
    ensures Bit(bm, a) ==> FreeBits(ClearBit(bm, a), n) == FreeBits(bm, n) + if a < n then 1 else 0
  {
    hide Bit, SetBit, ClearBit;
    OneBit(bm, size, a);
    if n > 0 {
      FreeBitsAfter(bm, size, a, n - 1);
      CoversLess(bm, size, n);
      CoversLess(SetBit(bm, a), size, n);
      CoversLess(ClearBit(bm, a), size, n);
    }
  }

  lemma CoversLess(bm: Map, size: nat, n: nat)
    requires Covers(bm, size) && n <= size
    ensures Covers(bm, n)
  {
  }

  // ---- A new disk ----

  /** No bit set, in as many blocks as `size` needs. */
  function NoBits(size: nat): (bm: Map)
    ensures Covers(bm, size)
  {
    seq(size / BPB + 1, i => seq(BPB / 8, j => 0 as bv8))
  }

  /** mkfs's balloc: the first k bits set. */
  function Marked(size: nat, k: nat): (bm: Map)
    requires k <= size
    ensures Covers(bm, size)
  {
    if k == 0 then NoBits(size) else OneBit(Marked(size, k - 1), size, k - 1); SetBit(Marked(size, k - 1), k - 1)
  }

  lemma NoneSet(size: nat, c: nat)
    requires c < size
    ensures !Bit(NoBits(size), c)
  {
    assert Byte(NoBits(size), c) == 0;
    assert 0 & Mask(BitOf(c)) == 0;
  }

  lemma {:induction false} MarkedBits(size: nat, k: nat, c: nat)
    requires k <= size && c < size
    ensures Bit(Marked(size, k), c) <==> c < k
  {
    hide Bit, SetBit, NoBits;
    if k == 0 {
      NoneSet(size, c);
    } else {
      MarkedBits(size, k - 1, c);
      OneBit(Marked(size, k - 1), size, k - 1);
    }
  }
}
