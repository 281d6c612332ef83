/**
 The block map of fs.c as a value: inodes with direct and indirect blocks, the bitmap,
 and who owns which block. Every change the file system makes to it is one of four
 updates below, and each is shown to keep ownership exclusive and to leave the blocks
 of every other file alone.
 */
module FileBlocks {
  import opened Bitmap

  const BSIZE: nat := 512
  const NDIRECT: nat := 12
  const NINDIRECT: nat := 128
  const MAXFILE: nat := 140

  type Block = seq<int>  // BSIZE bytes

  datatype Inode = Inode(size: nat, addrs: seq<nat>)  // NDIRECT addresses and the indirect block's

  datatype Super = Super(size: nat, meta: nat)  // blocks below `meta` hold boot, super, log, inodes and bitmap

  /** Where a block can hang: the bn-th block of a file, or a file's indirect block. */
  datatype Place = Data(i: nat, bn: nat) | Indirect(i: nat)

  datatype Fs = Fs(disk: seq<Block>, inodes: seq<Inode>, bm: Map, owner: map<nat, Place>)

  function Zeros(): (b: Block)
    ensures |b| == BSIZE
  {
    seq(BSIZE, i => 0)
  }

  // ---- Little-endian words in a block ----

  function Word(b: Block, j: nat): int
    requires |b| == BSIZE && j < NINDIRECT
  {
    b[4 * j] + 256 * b[4 * j + 1] + 65536 * b[4 * j + 2] + 16777216 * b[4 * j + 3]
  }

  function PutWord(b: Block, j: nat, w: nat): (r: Block)
    requires |b| == BSIZE && j < NINDIRECT
    ensures |r| == BSIZE
  {
    var d := Bytes4(w);
    b[4 * j := d[0]][4 * j + 1 := d[1]][4 * j + 2 := d[2]][4 * j + 3 := d[3]]
  }

  function Bytes4(w: nat): (d: seq<int>)
    ensures |d| == 4
  {
    [w % 256, w / 256 % 256, w / 256 / 256 % 256, w / 256 / 256 / 256]
  }

  lemma Bytes4Value(w: nat)
    ensures var d := Bytes4(w); d[0] + 256 * d[1] + 65536 * d[2] + 16777216 * d[3] == w
  {
  }

  lemma WordOfPut(b: Block, j: nat, w: nat, k: nat)
    requires |b| == BSIZE && j < NINDIRECT && k < NINDIRECT
    ensures Word(PutWord(b, j, w), k) == if k == j then w else Word(b, k)
  {
    Bytes4Value(w);
    hide Bytes4;
    var r, d := PutWord(b, j, w), Bytes4(w);
    if k == j {
      assert r[4 * k] == d[0] && r[4 * k + 1] == d[1] && r[4 * k + 2] == d[2] && r[4 * k + 3] == d[3];
    } else {
      assert r[4 * k] == b[4 * k] && r[4 * k + 1] == b[4 * k + 1] && r[4 * k + 2] == b[4 * k + 2]
          && r[4 * k + 3] == b[4 * k + 3];
    }
  }

  lemma WordOfZeros(k: nat)
    requires k < NINDIRECT
    ensures Word(Zeros(), k) == 0
  {
  }

  // ---- Addresses ----

  predicate Shape(sb: Super, fs: Fs) {
    && 0 < sb.meta <= sb.size == |fs.disk|
    && sb.size < 0x1_0000_0000
    && Covers(fs.bm, sb.size)
    && (forall b | 0 <= b < |fs.disk| :: |fs.disk[b]| == BSIZE)
    && (forall i | 0 <= i < |fs.inodes| :: |fs.inodes[i].addrs| == NDIRECT + 1)
  }

  predicate IsPlace(fs: Fs, p: Place) {
    p.i < |fs.inodes| && (p.Data? ==> p.bn < MAXFILE)
  }

  /** The address stored at a place; 0 means none. */
  function At(fs: Fs, p: Place): int
    requires IsPlace(fs, p)
  {
    var addrs := fs.inodes[p.i].addrs;
    if |addrs| != NDIRECT + 1 then 0
    else if p.Indirect? then addrs[NDIRECT]
    else if p.bn < NDIRECT then addrs[p.bn]
    else
      var ind := addrs[NDIRECT];
      if 0 < ind < |fs.disk| && |fs.disk[ind]| == BSIZE then Word(fs.disk[ind], p.bn - NDIRECT) else 0
  }

  /** Addresses and owners agree, both ways: a block hangs at one place only. */
  ghost predicate Owned(sb: Super, fs: Fs) {
    && (forall p | IsPlace(fs, p) && At(fs, p) != 0 ::
          sb.meta <= At(fs, p) < sb.size && At(fs, p) in fs.owner && fs.owner[At(fs, p)] == p)
    && (forall a | a in fs.owner :: a != 0 && IsPlace(fs, fs.owner[a]) && At(fs, fs.owner[a]) == a)
  }

  /** A bit is set exactly for metadata and owned blocks. */
  ghost predicate BitsRight(sb: Super, fs: Fs)
    requires Shape(sb, fs)
  {
    forall b: nat | b < sb.size :: Bit(fs.bm, b) <==> b < sb.meta || b in fs.owner
  }

  ghost predicate Struct(sb: Super, fs: Fs) {
    Shape(sb, fs) && Owned(sb, fs) && BitsRight(sb, fs)
  }

  /** The contents of the bn-th block of file i, empty when there is none. */
  function Blk(fs: Fs, i: nat, bn: nat): Block
    requires i < |fs.inodes| && bn < MAXFILE
  {
    var a := At(fs, Data(i, bn));
    if 0 < a < |fs.disk| then fs.disk[a] else []
  }

  /** The first n blocks of file i are there, and nothing else hangs on it. */
  ghost predicate NoHoles(fs: Fs, i: nat, n: nat)
    requires i < |fs.inodes|
  {
    && (forall bn: nat | bn < MAXFILE :: At(fs, Data(i, bn)) != 0 <==> bn < n)
    && (At(fs, Indirect(i)) != 0 <==> n > NDIRECT)
  }

  /** Files keep their blocks, except that block bn of file i becomes `b`. */
  ghost predicate OnlyBlock(fs: Fs, fs': Fs, i: nat, bn: nat, b: Block) {
    && |fs'.inodes| == |fs.inodes|
    && forall j: nat, m: nat | j < |fs.inodes| && m < MAXFILE ::
         Blk(fs', j, m) == if j == i && m == bn then b else Blk(fs, j, m)
  }

  ghost predicate SameBlocks(fs: Fs, fs': Fs) {
    && |fs'.inodes| == |fs.inodes|
    && forall j: nat, m: nat | j < |fs.inodes| && m < MAXFILE :: Blk(fs', j, m) == Blk(fs, j, m)
  }

  // ---- Writing a data block ----

  function WriteBlock(fs: Fs, a: nat, b: Block): Fs
    requires a < |fs.disk|
  {
    fs.(disk := fs.disk[a := b])
  }

  /** Overwriting an owned data block moves no address and changes no other block of any file. */
  lemma WriteKeeps(sb: Super, fs: Fs, i: nat, bn: nat, b: Block)
    requires Struct(sb, fs) && IsPlace(fs, Data(i, bn)) && At(fs, Data(i, bn)) != 0 && |b| == BSIZE
    ensures 0 < At(fs, Data(i, bn)) < |fs.disk|
    ensures var fs' := WriteBlock(fs, At(fs, Data(i, bn)), b);
            Struct(sb, fs') && SameAddresses(fs, fs') && OnlyBlock(fs, fs', i, bn, b)
  {
    hide Word;
    hide Bit;
    var a := At(fs, Data(i, bn));
    var fs' := WriteBlock(fs, a, b);
    assert SameAddresses(fs, fs') by {
      forall p | IsPlace(fs, p)
        ensures At(fs', p) == At(fs, p)
      {
        assert IsPlace(fs, Indirect(p.i));
      }
    }
    hide At;
    forall j: nat, m: nat | j < |fs.inodes| && m < MAXFILE
      ensures Blk(fs', j, m) == if j == i && m == bn then b else Blk(fs, j, m)
    {
      assert IsPlace(fs, Data(j, m));
    }
  }

  ghost predicate SameAddresses(fs: Fs, fs': Fs) {
    && |fs'.inodes| == |fs.inodes|
    && forall p | IsPlace(fs, p) :: At(fs', p) == At(fs, p)
  }

  // ---- Hanging a fresh block at a place ----

  /** balloc: mark the block and zero it. */
  function Claim(fs: Fs, p: Place, a: nat): Fs
    requires a < |fs.disk| && Covers(fs.bm, a + 1)
  {
    fs.(disk := fs.disk[a := Zeros()], bm := SetBit(fs.bm, a), owner := fs.owner[a := p])
  }

  function PutAddr(fs: Fs, i: nat, k: nat, a: nat): Fs
    requires i < |fs.inodes| && k < |fs.inodes[i].addrs|
  {
    fs.(inodes := fs.inodes[i := fs.inodes[i].(addrs := fs.inodes[i].addrs[k := a])])
  }

  /** bmap: store the new address in the inode or in the indirect block. */
  function Hook(fs: Fs, p: Place, a: nat): Fs
    requires IsPlace(fs, p) && |fs.inodes[p.i].addrs| == NDIRECT + 1
    requires forall b | 0 <= b < |fs.disk| :: |fs.disk[b]| == BSIZE
    requires p.Data? && p.bn >= NDIRECT ==> fs.inodes[p.i].addrs[NDIRECT] < |fs.disk|
  {
    if p.Indirect? then PutAddr(fs, p.i, NDIRECT, a)
    else if p.bn < NDIRECT then PutAddr(fs, p.i, p.bn, a)
    else
      var ind := fs.inodes[p.i].addrs[NDIRECT];
      fs.(disk := fs.disk[ind := PutWord(fs.disk[ind], p.bn - NDIRECT, a)])
  }

  ghost predicate CanAttach(sb: Super, fs: Fs, p: Place, a: nat) {
    && Struct(sb, fs) && IsPlace(fs, p) && At(fs, p) == 0
    && a < sb.size && !Bit(fs.bm, a)
    && (p.Data? && p.bn >= NDIRECT ==> At(fs, Indirect(p.i)) != 0)
  }

  ghost function Attach(sb: Super, fs: Fs, p: Place, a: nat): Fs
    requires CanAttach(sb, fs, p, a)
  {
    assert p.Data? && p.bn >= NDIRECT ==> IsPlace(fs, Indirect(p.i));
    Hook(Claim(fs, p, a), p, a)
  }

  /** A free block is nobody's, so it is not at any place. */
  lemma FreeIsNowhere(sb: Super, fs: Fs, p: Place, a: nat)
    requires CanAttach(sb, fs, p, a)
    ensures sb.meta <= a && a !in fs.owner
    ensures forall q | IsPlace(fs, q) :: At(fs, q) != a
  {
  }

  /** Only place `p` gets a new address. */
  lemma AttachMoves(sb: Super, fs: Fs, p: Place, a: nat, q: Place)
    requires CanAttach(sb, fs, p, a) && IsPlace(fs, q)
    ensures IsPlace(Attach(sb, fs, p, a), q)
    ensures At(Attach(sb, fs, p, a), q) == if q == p then a else At(fs, q)
  {
    FreeIsNowhere(sb, fs, p, a);
    IndirectApart(sb, fs, p.i, q.i);
    hide Owned, BitsRight, Bit, SetBit, Zeros, Word, PutWord;
    if p.Data? && p.bn >= NDIRECT {
      MovesInWords(sb, fs, p, a, q);
    } else {
      MovesInAddrs(sb, fs, p, a, q);
    }
  }

  lemma MovesInAddrs(sb: Super, fs: Fs, p: Place, a: nat, q: Place)
    requires Shape(sb, fs) && IsPlace(fs, p) && IsPlace(fs, q) && At(fs, p) == 0 && a < sb.size
    requires !(p.Data? && p.bn >= NDIRECT) && fs.inodes[q.i].addrs[NDIRECT] != a
    ensures At(Hook(Claim(fs, p, a), p, a), q) == if q == p then a else At(fs, q)
  {
    hide Covers, Zeros, Word;
    if q.Data? && q.bn >= NDIRECT {
      WordOfZeros(q.bn - NDIRECT);
      assert fs.inodes[q.i].addrs[NDIRECT] >= |fs.disk| || fs.inodes[q.i].addrs[NDIRECT] == 0
             || |fs.disk[fs.inodes[q.i].addrs[NDIRECT]]| == BSIZE;
    }
  }

  lemma MovesInWords(sb: Super, fs: Fs, p: Place, a: nat, q: Place)
    requires Shape(sb, fs) && IsPlace(fs, p) && IsPlace(fs, q) && At(fs, p) == 0 && a < sb.size
    requires p.Data? && p.bn >= NDIRECT && fs.inodes[q.i].addrs[NDIRECT] != a
    requires var ind := fs.inodes[p.i].addrs[NDIRECT];
             0 < ind < sb.size && ind != a && (q.i != p.i ==> fs.inodes[q.i].addrs[NDIRECT] != ind)
    ensures At(Hook(Claim(fs, p, a), p, a), q) == if q == p then a else At(fs, q)
  {
    hide Covers, Zeros, Word, PutWord;
    if q.Data? && q.bn >= NDIRECT && q.i == p.i {
      WordOfPut(fs.disk[fs.inodes[p.i].addrs[NDIRECT]], p.bn - NDIRECT, a, q.bn - NDIRECT);
    }
  }

  /** Indirect blocks lie in the data area and are never shared. */
  lemma IndirectApart(sb: Super, fs: Fs, i: nat, j: nat)
    requires Struct(sb, fs) && i < |fs.inodes| && j < |fs.inodes|
    ensures var a, b := fs.inodes[i].addrs[NDIRECT], fs.inodes[j].addrs[NDIRECT];
            && (a != 0 ==> sb.meta <= a < sb.size && a in fs.owner)
            && (b != 0 ==> sb.meta <= b < sb.size && b in fs.owner)
            && (i != j && a != 0 ==> a != b)
  {
    hide BitsRight, Word;
    assert IsPlace(fs, Indirect(i)) && At(fs, Indirect(i)) == fs.inodes[i].addrs[NDIRECT];
    assert IsPlace(fs, Indirect(j)) && At(fs, Indirect(j)) == fs.inodes[j].addrs[NDIRECT];
  }

  lemma AttachShape(sb: Super, fs: Fs, p: Place, a: nat)
    requires CanAttach(sb, fs, p, a)
    ensures Shape(sb, Attach(sb, fs, p, a)) && BitsRight(sb, Attach(sb, fs, p, a))
  {
    FreeIsNowhere(sb, fs, p, a);
    OneBit(fs.bm, sb.size, a);
    hide At, Bit, SetBit, PutWord, Zeros;
  }

  /** The new block is zero; every block of every file keeps its contents. */
  lemma AttachBlk(sb: Super, fs: Fs, p: Place, a: nat, j: nat, m: nat)
    requires CanAttach(sb, fs, p, a) && j < |fs.inodes| && m < MAXFILE
    ensures |Attach(sb, fs, p, a).inodes| == |fs.inodes|
    ensures Blk(Attach(sb, fs, p, a), j, m) == if p == Data(j, m) then Zeros() else Blk(fs, j, m)
  {
    var q := Data(j, m);
    FreeIsNowhere(sb, fs, p, a);
    AttachMoves(sb, fs, p, a, q);
    var fs' := Attach(sb, fs, p, a);
    assert IsPlace(fs, q) && IsPlace(fs, Indirect(p.i)) && IsPlace(fs, p);
    assert At(fs, Indirect(p.i)) == fs.inodes[p.i].addrs[NDIRECT];
    hide At, Word, PutWord, Zeros, Bit, SetBit;
  }

  lemma AttachKeeps(sb: Super, fs: Fs, p: Place, a: nat)
    requires CanAttach(sb, fs, p, a)
    ensures var fs' := Attach(sb, fs, p, a);
            && Struct(sb, fs') && |fs'.inodes| == |fs.inodes|
            && (forall q | IsPlace(fs, q) :: At(fs', q) == if q == p then a else At(fs, q))
            && (p.Data? ==> OnlyBlock(fs, fs', p.i, p.bn, Zeros()))
            && (p.Indirect? ==> SameBlocks(fs, fs'))
  {
    hide At, Bit, SetBit, PutWord, Zeros, Blk, BitsRight, Owned, Hook, Claim;
    AttachShape(sb, fs, p, a);
    FreeIsNowhere(sb, fs, p, a);
    AttachOwner(sb, fs, p, a);
    var fs' := Attach(sb, fs, p, a);
    forall q | IsPlace(fs, q)
      ensures At(fs', q) == if q == p then a else At(fs, q)
    {
      AttachMoves(sb, fs, p, a, q);
    }
    forall j: nat, m: nat | j < |fs.inodes| && m < MAXFILE
      ensures Blk(fs', j, m) == if p == Data(j, m) then Zeros() else Blk(fs, j, m)
    {
      AttachBlk(sb, fs, p, a, j, m);
    }
    OwnedMoves(sb, fs, fs', p, a);
  }

  lemma AttachOwner(sb: Super, fs: Fs, p: Place, a: nat)
    requires CanAttach(sb, fs, p, a)
    ensures Attach(sb, fs, p, a).owner == fs.owner[a := p]
    ensures |Attach(sb, fs, p, a).inodes| == |fs.inodes|
  {
  }

  lemma OwnedMoves(sb: Super, fs: Fs, fs': Fs, p: Place, a: nat)
    requires Owned(sb, fs) && IsPlace(fs, p) && sb.meta <= a < sb.size && a != 0 && a !in fs.owner && At(fs, p) == 0
    requires |fs'.inodes| == |fs.inodes| && fs'.owner == fs.owner[a := p]
    requires forall q | IsPlace(fs, q) :: At(fs', q) == if q == p then a else At(fs, q)
    ensures Owned(sb, fs')
  {
    hide At;
  }

  // ---- Freeing all blocks of a file ----

  /** The bits once the blocks at the first k data places of file i have been freed. */
  ghost predicate BitsFreed(sb: Super, fs: Fs, bm: Map, i: nat, k: nat) {
    && Covers(bm, sb.size)
    && forall b: nat | b < sb.size ::
         Bit(bm, b) <==>
           b < sb.meta || (b in fs.owner && !(fs.owner[b].Data? && fs.owner[b].i == i && fs.owner[b].bn < k))
  }

  lemma FreeNext(sb: Super, fs: Fs, bm: Map, i: nat, k: nat)
    requires Struct(sb, fs) && i < |fs.inodes| && k < MAXFILE && BitsFreed(sb, fs, bm, i, k)
    ensures var a := At(fs, Data(i, k));
            if a == 0 then BitsFreed(sb, fs, bm, i, k + 1)
            else 0 < a < sb.size && Bit(bm, a) && BitsFreed(sb, fs, ClearBit(bm, a), i, k + 1)
  {
    hide At, Bit, ClearBit, BitsRight;
    var a := At(fs, Data(i, k));
    assert IsPlace(fs, Data(i, k));
    if a != 0 {
      OneBit(bm, sb.size, a);
    }
  }

  function Truncated(fs: Fs, i: nat, bm: Map): Fs
    requires i < |fs.inodes|
  {
    fs.(bm := bm, inodes := fs.inodes[i := Inode(0, seq(NDIRECT + 1, k => 0))],
        owner := map a | a in fs.owner && fs.owner[a].i != i :: fs.owner[a])
  }

  /** With exactly its bits cleared, file i owns nothing and every other file is as before. */
  lemma TruncateKeeps(sb: Super, fs: Fs, i: nat, bm: Map)
    requires Struct(sb, fs) && i < |fs.inodes| && Covers(bm, sb.size)
    requires forall b: nat | b < sb.size :: Bit(bm, b) <==> b < sb.meta || (b in fs.owner && fs.owner[b].i != i)
    ensures var fs' := Truncated(fs, i, bm);
            && Struct(sb, fs') && NoHoles(fs', i, 0) && |fs'.inodes| == |fs.inodes|
            && (forall p | IsPlace(fs, p) && p.i != i :: At(fs', p) == At(fs, p))
            && (forall j: nat, m: nat | j < |fs.inodes| && j != i && m < MAXFILE :: Blk(fs', j, m) == Blk(fs, j, m))
  {
    var fs' := Truncated(fs, i, bm);
    forall p | IsPlace(fs, p)
      ensures At(fs', p) == if p.i == i then 0 else At(fs, p)
    {
      TruncateMoves(fs, i, bm, p);
    }
    hide At, Bit, Owned;
    OwnedShrinks(sb, fs, fs', i);
  }

  lemma TruncateMoves(fs: Fs, i: nat, bm: Map, p: Place)
    requires i < |fs.inodes| && IsPlace(fs, p)
    ensures At(Truncated(fs, i, bm), p) == if p.i == i then 0 else At(fs, p)
  {
    hide Word;
  }

  lemma OwnedShrinks(sb: Super, fs: Fs, fs': Fs, i: nat)
    requires Owned(sb, fs) && |fs'.inodes| == |fs.inodes|
    requires fs'.owner == map a | a in fs.owner && fs.owner[a].i != i :: fs.owner[a]
    requires forall p | IsPlace(fs, p) :: At(fs', p) == if p.i == i then 0 else At(fs, p)
    ensures Owned(sb, fs')
  {
    hide At;
  }
}
