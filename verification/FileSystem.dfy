/**
 fs.c from the block allocator up to readi and writei, proved to refine flat byte
 sequences: a write replaces exactly the bytes it covers, a read returns them, other
 files and rejected calls are untouched, and blocks stay exclusively owned.
 */
module FileSystem {
  import opened Basics
  import opened Bitmap
  import opened FileBlocks

  function NBlocks(size: nat): nat {
    (size + BSIZE - 1) / BSIZE
  }

  /** Byte k of file i; bytes of blocks that are not there read as 0. */
  function ByteAt(fs: Fs, i: nat, k: int): int
    requires i < |fs.inodes|
  {
    if 0 <= k < MAXFILE * BSIZE then
      var b := Blk(fs, i, k / BSIZE);
      if k % BSIZE < |b| then b[k % BSIZE] else 0
    else 0
  }

  /** The byte sequence a file stands for. */
  ghost function Content(fs: Fs, i: nat): seq<int>
    requires i < |fs.inodes|
  {
    seq(fs.inodes[i].size, k => ByteAt(fs, i, k))
  }

  ghost predicate FileOk(fs: Fs, i: nat)
    requires i < |fs.inodes|
  {
    fs.inodes[i].size <= MAXFILE * BSIZE && NoHoles(fs, i, NBlocks(fs.inodes[i].size))
  }

  /** What every operation keeps. */
  ghost predicate Valid(sb: Super, fs: Fs) {
    Struct(sb, fs) && forall i: nat | i < |fs.inodes| :: FileOk(fs, i)
  }

  /** Every block is metadata, free, or at exactly one place of one file, and the bitmap says which. */
  lemma OwnershipExclusive(sb: Super, fs: Fs, p: Place, q: Place)
    requires Valid(sb, fs) && IsPlace(fs, p) && IsPlace(fs, q)
    ensures At(fs, p) != 0 ==> sb.meta <= At(fs, p) < sb.size && Bit(fs.bm, At(fs, p))
    ensures At(fs, p) != 0 && At(fs, p) == At(fs, q) ==> p == q
    ensures forall b: nat | sb.meta <= b < sb.size && Bit(fs.bm, b) :: exists r :: IsPlace(fs, r) && At(fs, r) == b
  {
    hide At, Bit;
    forall b: nat | sb.meta <= b < sb.size && Bit(fs.bm, b)
      ensures exists r :: IsPlace(fs, r) && At(fs, r) == b
    {
      assert IsPlace(fs, fs.owner[b]) && At(fs, fs.owner[b]) == b;
    }
  }

  // ---- What bmap does to the file system ----

  /** Nothing but the addresses of file i may have changed in the inodes. */
  ghost predicate InodesKept(fs: Fs, fs': Fs, i: nat) {
    && i < |fs.inodes| == |fs'.inodes|
    && fs'.inodes[i].size == fs.inodes[i].size
    && forall j: nat | j < |fs.inodes| && j != i :: fs'.inodes[j] == fs.inodes[j]
  }

  ghost predicate Mapped(fs: Fs, fs': Fs, i: nat, bn: nat)
    requires i < |fs.inodes| && bn < MAXFILE
  {
    && InodesKept(fs, fs', i)
    && (forall j: nat, m: nat | j < |fs.inodes| && m < MAXFILE ::
          && Blk(fs', j, m) == (if j == i && m == bn && At(fs, Data(i, bn)) == 0 then Zeros() else Blk(fs, j, m))
          && (At(fs', Data(j, m)) != 0 <==> At(fs, Data(j, m)) != 0 || (j == i && m == bn)))
    && (forall j: nat | j < |fs.inodes| ::
          At(fs', Indirect(j)) != 0 <==> At(fs, Indirect(j)) != 0 || (j == i && bn >= NDIRECT))
  }

  lemma AttachMaps(sb: Super, fs: Fs, i: nat, bn: nat, a: nat)
    requires CanAttach(sb, fs, Data(i, bn), a)
    ensures Struct(sb, Attach(sb, fs, Data(i, bn), a)) && Mapped(fs, Attach(sb, fs, Data(i, bn), a), i, bn)
    ensures At(Attach(sb, fs, Data(i, bn), a), Data(i, bn)) == a != 0
  {
    hide At, Bit, Zeros, Blk, Hook, Claim, Owned, BitsRight, Shape;
    FreeIsNowhere(sb, fs, Data(i, bn), a);
    AttachKeeps(sb, fs, Data(i, bn), a);
    AttachInodes(sb, fs, Data(i, bn), a);
    StructMeta(sb, fs);
  }

  lemma StructMeta(sb: Super, fs: Fs)
    requires Struct(sb, fs)
    ensures sb.meta > 0
  {
  }

  lemma AttachInodes(sb: Super, fs: Fs, p: Place, a: nat)
    requires CanAttach(sb, fs, p, a)
    ensures InodesKept(fs, Attach(sb, fs, p, a), p.i)
  {
    hide At, Bit, Owned, BitsRight;
  }

  /** Allocating the indirect block first and then the data block, as bmap does at block 12. */
  lemma AttachTwiceMaps(sb: Super, fs: Fs, i: nat, bn: nat, ind: nat, a: nat)
    requires CanAttach(sb, fs, Indirect(i), ind) && NDIRECT <= bn < MAXFILE && At(fs, Data(i, bn)) == 0
    requires CanAttach(sb, Attach(sb, fs, Indirect(i), ind), Data(i, bn), a)
    ensures var fs' := Attach(sb, Attach(sb, fs, Indirect(i), ind), Data(i, bn), a);
            Struct(sb, fs') && Mapped(fs, fs', i, bn) && At(fs', Data(i, bn)) == a != 0
  {
    hide At, Bit, Zeros, Blk, Hook, Claim, Owned, BitsRight, Shape;
    var fs1 := Attach(sb, fs, Indirect(i), ind);
    FreeIsNowhere(sb, fs, Indirect(i), ind);
    AttachKeeps(sb, fs, Indirect(i), ind);
    AttachInodes(sb, fs, Indirect(i), ind);
    AttachMaps(sb, fs1, i, bn, a);
  }

  /** Bytes do not change when a block is mapped: a fresh block is zero. */
  lemma MappedBytes(fs: Fs, fs': Fs, i: nat, bn: nat, k: nat)
    requires i < |fs.inodes| && bn < MAXFILE && Mapped(fs, fs', i, bn) && k < MAXFILE * BSIZE
    ensures ByteAt(fs', i, k) == ByteAt(fs, i, k)
  {
  }

  lemma MappedHoles(fs: Fs, fs': Fs, i: nat, bn: nat, n: nat)
    requires i < |fs.inodes| && bn < MAXFILE && Mapped(fs, fs', i, bn) && NoHoles(fs, i, n) && bn <= n
    ensures NoHoles(fs', i, Max(n, bn + 1))
  {
    hide At;
  }

  // ---- Progress of writei ----

  /** Every file but i is as it was. */
  ghost predicate OthersKept(fs: Fs, fs': Fs, i: nat) {
    && InodesKept(fs, fs', i)
    && (forall j: nat, m: nat | j < |fs.inodes| && j != i && m < MAXFILE :: Blk(fs', j, m) == Blk(fs, j, m))
    && (forall j: nat, n: nat | j < |fs.inodes| && j != i && NoHoles(fs, j, n) :: NoHoles(fs', j, n))
  }

  /** The first `tot` bytes of `src` are at offset `off` of file i, and its other bytes are as they were. */
  ghost predicate BytesDone(fs: Fs, fs': Fs, i: nat, off: nat, src: seq<int>, tot: nat) {
    && i < |fs.inodes| && i < |fs'.inodes| && tot <= |src|
    && forall k {:trigger ByteAt(fs', i, k)} | 0 <= k < MAXFILE * BSIZE ::
         ByteAt(fs', i, k) == if off <= k < off + tot then src[k - off] else ByteAt(fs, i, k)
  }

  ghost predicate Progress(fs: Fs, fs': Fs, i: nat, off: nat, src: seq<int>, tot: nat) {
    && OthersKept(fs, fs', i)
    && BytesDone(fs, fs', i, off, src, tot)
    && NoHoles(fs', i, Max(NBlocks(fs.inodes[i].size), NBlocks(off + tot)))
  }

  function Splice(b: Block, o: nat, data: seq<int>): Block
    requires o + |data| <= |b|
  {
    b[..o] + data + b[o + |data|..]
  }

  /** Replacing bytes o.. of block bn replaces bytes bn * BSIZE + o .. of the file. */
  lemma SpliceBytes(fs: Fs, fs': Fs, i: nat, bn: nat, o: nat, data: seq<int>, k: nat)
    requires i < |fs.inodes| && bn < MAXFILE && |Blk(fs, i, bn)| == BSIZE && o + |data| <= BSIZE
    requires OnlyBlock(fs, fs', i, bn, Splice(Blk(fs, i, bn), o, data)) && k < MAXFILE * BSIZE
    ensures var at := bn * BSIZE + o;
            ByteAt(fs', i, k) == if at <= k < at + |data| then data[k - at] else ByteAt(fs, i, k)
  {
    hide Blk;
    if k / BSIZE == bn {
      assert k == bn * BSIZE + k % BSIZE;
    } else {
      assert !(bn * BSIZE <= k < bn * BSIZE + BSIZE);
    }
  }

  lemma BlockCount(size: nat, pos: nat, m: nat)
    requires 0 < m && pos % BSIZE + m <= BSIZE
    ensures pos / BSIZE <= Max(NBlocks(size), NBlocks(pos))
    ensures Max(Max(NBlocks(size), NBlocks(pos)), pos / BSIZE + 1) == Max(NBlocks(size), NBlocks(pos + m))
  {
  }

  /** Writes `data` into the block that holds byte `pos` of file i. */
  ghost function PutBytes(fs: Fs, i: nat, pos: nat, data: seq<int>): Fs
    requires i < |fs.inodes|
  {
    var bn := pos / BSIZE;
    if bn < MAXFILE && 0 < At(fs, Data(i, bn)) < |fs.disk| && pos % BSIZE + |data| <= |Blk(fs, i, bn)|
    then WriteBlock(fs, At(fs, Data(i, bn)), Splice(Blk(fs, i, bn), pos % BSIZE, data))
    else fs
  }

  ghost predicate Ready(sb: Super, fs: Fs, i: nat, pos: nat) {
    Struct(sb, fs) && i < |fs.inodes| && pos < MAXFILE * BSIZE && At(fs, Data(i, pos / BSIZE)) != 0
  }

  lemma PutBytesKeeps(sb: Super, fs: Fs, i: nat, pos: nat, data: seq<int>)
    requires Ready(sb, fs, i, pos) && pos % BSIZE + |data| <= BSIZE
    ensures 0 < At(fs, Data(i, pos / BSIZE)) < |fs.disk| && |Blk(fs, i, pos / BSIZE)| == BSIZE
    ensures var fs' := PutBytes(fs, i, pos, data);
            && Struct(sb, fs') && SameAddresses(fs, fs') && InodesKept(fs, fs', i)
            && OnlyBlock(fs, fs', i, pos / BSIZE, Splice(Blk(fs, i, pos / BSIZE), pos % BSIZE, data))
  {
    BlkFull(sb, fs, i, pos / BSIZE);
    WriteKeeps(sb, fs, i, pos / BSIZE, Splice(Blk(fs, i, pos / BSIZE), pos % BSIZE, data));
  }

  lemma BytesStep(fs0: Fs, fs: Fs, fs1: Fs, fs2: Fs, i: nat, off: nat, src: seq<int>, tot: nat, m: nat)
    requires BytesDone(fs0, fs, i, off, src, tot) && tot + m <= |src| && off + |src| <= MAXFILE * BSIZE && m > 0
    requires (off + tot) % BSIZE + m <= BSIZE && Mapped(fs, fs1, i, (off + tot) / BSIZE)
    requires |Blk(fs1, i, (off + tot) / BSIZE)| == BSIZE
    requires OnlyBlock(fs1, fs2, i, (off + tot) / BSIZE,
                       Splice(Blk(fs1, i, (off + tot) / BSIZE), (off + tot) % BSIZE, src[tot..tot + m]))
    ensures BytesDone(fs0, fs2, i, off, src, tot + m)
  {
    hide Blk, Splice, ByteAt, At;
    var pos := off + tot;
    var bn, o, data := pos / BSIZE, pos % BSIZE, src[tot..tot + m];
    assert pos == bn * BSIZE + o;
    forall k | 0 <= k < MAXFILE * BSIZE
      ensures ByteAt(fs2, i, k) == if off <= k < off + tot + m then src[k - off] else ByteAt(fs0, i, k)
    {
      MappedBytes(fs, fs1, i, bn, k);
      SpliceBytes(fs1, fs2, i, bn, o, data, k);
    }
  }

  lemma OthersStep(fs0: Fs, fs: Fs, fs1: Fs, fs2: Fs, i: nat, bn: nat, b: Block)
    requires OthersKept(fs0, fs, i) && i < |fs.inodes| && bn < MAXFILE && Mapped(fs, fs1, i, bn)
    requires SameAddresses(fs1, fs2) && InodesKept(fs1, fs2, i) && OnlyBlock(fs1, fs2, i, bn, b)
    ensures OthersKept(fs0, fs2, i)
  {
    hide Blk, At, SameAddresses;
    HolesKept(fs1, fs2);
    forall j: nat, h: nat | j < |fs0.inodes| && j != i && NoHoles(fs0, j, h)
      ensures NoHoles(fs2, j, h)
    {
      assert NoHoles(fs, j, h);
      MappedOthers(fs, fs1, i, bn, j, h);
    }
  }

  /** One iteration of writei's loop: map the block, then write the part of `src` that falls into it. */
  lemma ProgressStep(sb: Super, fs0: Fs, fs: Fs, fs1: Fs, i: nat, off: nat, src: seq<int>, tot: nat)
    requires Progress(fs0, fs, i, off, src, tot) && tot < |src| && off + |src| <= MAXFILE * BSIZE
    requires Mapped(fs, fs1, i, (off + tot) / BSIZE) && Ready(sb, fs1, i, off + tot)
    ensures var m := Min(|src| - tot, BSIZE - (off + tot) % BSIZE);
            && Struct(sb, PutBytes(fs1, i, off + tot, src[tot..tot + m]))
            && Progress(fs0, PutBytes(fs1, i, off + tot, src[tot..tot + m]), i, off, src, tot + m)
  {
    hide Blk, At, Splice, Struct, PutBytes, NoHoles, SameAddresses, OnlyBlock, OthersKept, BytesDone, NBlocks, Max;
    var pos := off + tot;
    var bn, m := pos / BSIZE, Min(|src| - tot, BSIZE - pos % BSIZE);
    PutBytesKeeps(sb, fs1, i, pos, src[tot..tot + m]);
    var fs2 := PutBytes(fs1, i, pos, src[tot..tot + m]);
    BytesStep(fs0, fs, fs1, fs2, i, off, src, tot, m);
    OthersStep(fs0, fs, fs1, fs2, i, bn, Splice(Blk(fs1, i, bn), pos % BSIZE, src[tot..tot + m]));
    OthersSize(fs0, fs, i);
    BlockCount(fs0.inodes[i].size, pos, m);
    MappedHoles(fs, fs1, i, bn, Max(NBlocks(fs0.inodes[i].size), NBlocks(pos)));
    HolesKept(fs1, fs2);
  }

  lemma OthersSize(fs0: Fs, fs: Fs, i: nat)
    requires OthersKept(fs0, fs, i)
    ensures i < |fs0.inodes| == |fs.inodes| && fs.inodes[i].size == fs0.inodes[i].size
  {
  }

  lemma BlkFull(sb: Super, fs: Fs, i: nat, bn: nat)
    requires Struct(sb, fs) && i < |fs.inodes| && bn < MAXFILE && At(fs, Data(i, bn)) != 0
    ensures 0 < At(fs, Data(i, bn)) < |fs.disk| && |Blk(fs, i, bn)| == BSIZE
  {
    hide Bit;
    assert IsPlace(fs, Data(i, bn));
  }

  lemma HolesKept(fs: Fs, fs': Fs)
    requires SameAddresses(fs, fs')
    ensures forall i: nat, n: nat | i < |fs.inodes| && NoHoles(fs, i, n) :: NoHoles(fs', i, n)
  {
    forall i: nat, n: nat | i < |fs.inodes| && NoHoles(fs, i, n)
      ensures NoHoles(fs', i, n)
    {
      hide At;
      assert IsPlace(fs, Indirect(i));
      forall bn: nat | bn < MAXFILE
        ensures At(fs', Data(i, bn)) != 0 <==> bn < n
      {
        assert IsPlace(fs, Data(i, bn));
      }
    }
  }

  lemma MappedOthers(fs: Fs, fs': Fs, i: nat, bn: nat, j: nat, n: nat)
    requires i < |fs.inodes| && bn < MAXFILE && Mapped(fs, fs', i, bn) && j < |fs.inodes| && j != i && NoHoles(fs, j, n)
    ensures NoHoles(fs', j, n)
  {
    hide At;
  }

  // ---- Contents ----

  /** What writei does to the byte sequence of the file. */
  function Written(c: seq<int>, off: nat, src: seq<int>): seq<int>
    requires off <= |c|
  {
    c[..off] + src + if off + |src| < |c| then c[off + |src|..] else []
  }

  /** writei's last step: the size grows when the write went past the end. */
  function Grown(fs: Fs, i: nat, end: nat): Fs
    requires i < |fs.inodes|
  {
    if end > fs.inodes[i].size then fs.(inodes := fs.inodes[i := fs.inodes[i].(size := end)]) else fs
  }

  lemma GrownSame(sb: Super, fs: Fs, i: nat, end: nat)
    requires i < |fs.inodes|
    ensures var fs' := Grown(fs, i, end);
            && SameAddresses(fs, fs') && SameBlocks(fs, fs')
            && (Struct(sb, fs) ==> Struct(sb, fs'))
  {
    var fs' := Grown(fs, i, end);
    assert SameAddresses(fs, fs');
    hide At, Bit;
  }

  /** Another file with the same inode and blocks has the same contents. */
  lemma SameContent(fs: Fs, fs': Fs, j: nat)
    requires j < |fs.inodes| && j < |fs'.inodes| && fs'.inodes[j] == fs.inodes[j]
    requires forall m: nat | m < MAXFILE :: Blk(fs', j, m) == Blk(fs, j, m)
    ensures Content(fs', j) == Content(fs, j)
  {
    hide Blk;
  }

  lemma WrittenContent(fs0: Fs, fs: Fs, i: nat, off: nat, src: seq<int>)
    requires i < |fs0.inodes| && i < |fs.inodes| && BytesDone(fs0, fs, i, off, src, |src|)
    requires off <= fs0.inodes[i].size <= MAXFILE * BSIZE && off + |src| <= MAXFILE * BSIZE
    requires fs.inodes[i].size == Max(fs0.inodes[i].size, off + |src|)
    ensures Content(fs, i) == Written(Content(fs0, i), off, src)
  {
    hide ByteAt;
  }

  lemma GrownBytes(fs0: Fs, fs: Fs, fs': Fs, i: nat, off: nat, src: seq<int>)
    requires BytesDone(fs0, fs, i, off, src, |src|) && SameBlocks(fs, fs')
    ensures BytesDone(fs0, fs', i, off, src, |src|)
  {
    forall k | 0 <= k < MAXFILE * BSIZE
      ensures ByteAt(fs', i, k) == ByteAt(fs, i, k)
    {
      hide Blk;
    }
    hide ByteAt;
  }

  /** When the loop is done, the file is valid again and its contents are the old ones with `src` written in. */
  lemma ProgressDone(sb: Super, fs0: Fs, fs: Fs, i: nat, off: nat, src: seq<int>)
    requires Valid(sb, fs0) && Struct(sb, fs) && Progress(fs0, fs, i, off, src, |src|)
    requires off <= fs0.inodes[i].size && off + |src| <= MAXFILE * BSIZE
    ensures var fs' := Grown(fs, i, off + |src|);
            && Valid(sb, fs') && |fs'.inodes| == |fs0.inodes|
            && Content(fs', i) == Written(Content(fs0, i), off, src)
            && (forall j: nat | j < |fs0.inodes| && j != i ::
               fs'.inodes[j] == fs0.inodes[j] && Content(fs', j) == Content(fs0, j))
  {
    hide At, Blk, Struct, NoHoles, BytesDone, Content, Written, SameAddresses, SameBlocks, NBlocks, OthersKept;
    OthersSize(fs0, fs, i);
    var fs' := Grown(fs, i, off + |src|);
    GrownSame(sb, fs, i, off + |src|);
    HolesKept(fs, fs');
    GrownBytes(fs0, fs, fs', i, off, src);
    assert FileOk(fs0, i);
    WrittenContent(fs0, fs', i, off, src);
    BlocksMax(fs0.inodes[i].size, off + |src|);
    forall j: nat | j < |fs0.inodes| && j != i
      ensures FileOk(fs', j) && fs'.inodes[j] == fs0.inodes[j] && Content(fs', j) == Content(fs0, j)
    {
      assert FileOk(fs0, j);
      OtherDone(fs0, fs, fs', i, j);
    }
  }

  lemma OtherDone(fs0: Fs, fs: Fs, fs': Fs, i: nat, j: nat)
    requires OthersKept(fs0, fs, i) && j < |fs0.inodes| && j != i && FileOk(fs0, j)
    requires SameAddresses(fs, fs') && SameBlocks(fs, fs') && fs'.inodes[j] == fs.inodes[j]
    ensures FileOk(fs', j) && fs'.inodes[j] == fs0.inodes[j] && Content(fs', j) == Content(fs0, j)
  {
    hide At, Blk, NoHoles, Content, SameAddresses;
    HolesKept(fs, fs');
    SameContent(fs0, fs', j);
  }

  lemma BlocksMax(a: nat, b: nat)
    ensures Max(NBlocks(a), NBlocks(b)) == NBlocks(Max(a, b))
  {
  }

  /** A file read back gives the bytes last written, and nothing beyond the end. */
  lemma ReadAfterWrite(c: seq<int>, off: nat, src: seq<int>)
    requires off <= |c|
    ensures |Written(c, off, src)| == Max(|c|, off + |src|)
    ensures Written(c, off, src)[off..off + |src|] == src
    ensures Written(c, off, src)[..off] == c[..off]
    ensures off + |src| <= |c| ==> Written(c, off, src)[off + |src|..] == c[off + |src|..]
  {
  }

  function EmptyInode(): Inode {
    Inode(0, seq(NDIRECT + 1, k => 0))
  }

  ghost function Formatted(sb: Super, n: nat): Fs
    requires sb.meta <= sb.size
  {
    Fs(seq(sb.size, b => Zeros()), seq(n, i => EmptyInode()), Marked(sb.size, sb.meta), map[])
  }

  /** A formatted disk is valid: its metadata is marked and no file has a block. */
  lemma FormattedOk(sb: Super, n: nat)
    requires 0 < sb.meta <= sb.size < UINT
    ensures Valid(sb, Formatted(sb, n)) && forall i: nat | i < n :: Content(Formatted(sb, n), i) == []
    ensures forall b: nat | b < sb.size :: Bit(Formatted(sb, n).bm, b) <==> b < sb.meta
  {
    hide Bit, Marked, Zeros, Byte;
    var fs := Formatted(sb, n);
    forall b: nat | b < sb.size
      ensures Bit(fs.bm, b) <==> b < sb.meta
    {
      MarkedBits(sb.size, sb.meta, b);
    }
    forall p | IsPlace(fs, p)
      ensures At(fs, p) == 0
    {
    }
  }

  lemma ContentSize(fs: Fs, i: nat)
    requires i < |fs.inodes|
    ensures |Content(fs, i)| == fs.inodes[i].size
  {
  }

  // ---- How many blocks it takes ----

  /** The blocks a file of n data blocks takes, with its indirect block. */
  function Taken(n: nat): nat {
    n + if n > NDIRECT then 1 else 0
  }

  /** The blocks bmap allocates for block bn of file i. */
  ghost function Missing(fs: Fs, i: nat, bn: nat): nat
    requires i < |fs.inodes| && bn < MAXFILE
  {
    if At(fs, Data(i, bn)) != 0 then 0 else if bn >= NDIRECT && At(fs, Indirect(i)) == 0 then 2 else 1
  }

  lemma MissingNext(fs: Fs, i: nat, bn: nat, n: nat)
    requires i < |fs.inodes| && bn < MAXFILE && NoHoles(fs, i, n) && bn <= n
    ensures Missing(fs, i, bn) == Taken(Max(n, bn + 1)) - Taken(n)
  {
    hide At;
  }

  lemma NotFull(bm: Map, size: nat, a: nat)
    requires Covers(bm, size) && a < size && !Bit(bm, a)
    ensures !Full(bm, size) && FreeBits(SetBit(bm, a), size) == FreeBits(bm, size) - 1
  {
    hide Bit, FreeBits, SetBit;
    FreeBitsAfter(bm, size, a, size);
  }

  lemma AllSet(bm: Map, size: nat)
    requires Covers(bm, size) && forall b: nat | b < size :: Bit(bm, b)
    ensures Full(bm, size)
  {
  }

  lemma FullDisk(bm: Map, size: nat)
    requires Covers(bm, size)
    ensures Full(bm, size) <==> FreeBits(bm, size) == 0
  {
    hide Bit, FreeBits;
    NoFreeBits(bm, size);
  }

  /** The blocks that growing a file of `size` bytes to reach `end` takes. */
  function Growth(size: nat, end: nat): nat {
    var n, m := NBlocks(size), NBlocks(Max(size, end));
    if n <= m then Taken(m) - Taken(n) else 0
  }

  lemma GrowthIs(size: nat, end: nat)
    ensures Growth(size, end) == Taken(Max(NBlocks(size), NBlocks(end))) - Taken(NBlocks(size))
  {
    BlocksMax(size, end);
  }

  lemma GrowthStart(size: nat, off: nat)
    requires off <= size
    ensures Growth(size, off) == 0
  {
  }

  lemma GrowthOf(size: nat, a: nat, b: nat)
    requires a <= b
    ensures Growth(size, a) <= Growth(size, b)
    ensures b <= NBlocks(size) * BSIZE ==> Growth(size, b) == 0
  {
  }

  /** The next block of a write takes what the file's growth up to there takes more. */
  lemma GrowthStep(fs: Fs, i: nat, size: nat, pos: nat, m: nat)
    requires i < |fs.inodes| && pos < MAXFILE * BSIZE && 0 < m && pos % BSIZE + m <= BSIZE
    requires NoHoles(fs, i, Max(NBlocks(size), NBlocks(pos)))
    ensures Missing(fs, i, pos / BSIZE) == Growth(size, pos + m) - Growth(size, pos)
  {
    hide NBlocks, NoHoles, Taken;
    BlockCount(size, pos, m);
    MissingNext(fs, i, pos / BSIZE, Max(NBlocks(size), NBlocks(pos)));
    GrowthIs(size, pos);
    GrowthIs(size, pos + m);
  }

  lemma ProgressHoles(fs: Fs, fs': Fs, i: nat, off: nat, src: seq<int>, tot: nat)
    requires Progress(fs, fs', i, off, src, tot)
    ensures i < |fs'.inodes| && NoHoles(fs', i, Max(NBlocks(fs.inodes[i].size), NBlocks(off + tot)))
  {
  }

  /** The on-disk file system with the inodes write-through cached; see FileBlocks for what `owner` records. */
  class Disk {
    const sb: Super
    var bitmap: Map
    var disk: seq<Block>
    var inodes: seq<Inode>
    ghost var owner: map<nat, Place>

    ghost function St(): Fs
      reads this
    {
      Fs(disk, inodes, bitmap, owner)
    }

    /** A disk as mkfs formats it, with n files of no bytes. */
    constructor (sb: Super, n: nat)
      requires 0 < sb.meta <= sb.size < UINT
      ensures this.sb == sb && Valid(sb, St()) && |inodes| == n
      ensures forall i: nat | i < n :: Content(St(), i) == []
      ensures forall b: nat | b < sb.size :: Bit(bitmap, b) <==> b < sb.meta
    {
      FormattedOk(sb, n);
      this.sb, bitmap, disk, inodes, owner := sb, Marked(sb.size, sb.meta), seq(sb.size, b => Zeros()),
          seq(n, i => EmptyInode()), map[];
    }

    /** Finds and marks the first free block and zeroes it; panics exactly on a full disk. */
    method Balloc() returns (a: nat, panicked: bool)
      requires Covers(bitmap, sb.size) && sb.size == |disk|
      modifies this`bitmap, this`disk
      ensures panicked <==> Full(old(bitmap), sb.size)
      ensures panicked <==> FreeBits(old(bitmap), sb.size) == 0
      ensures panicked ==> bitmap == old(bitmap)
      ensures !panicked ==> FreeBits(bitmap, sb.size) == FreeBits(old(bitmap), sb.size) - 1
      ensures !panicked ==>
                && a < sb.size && !old(Bit(bitmap, a)) && (forall b: nat | b < a :: old(Bit(bitmap, b)))
                && bitmap == SetBit(old(bitmap), a) && disk == old(disk)[a := Zeros()]
    {
      hide Has, With, FreeBits, Full;
      FullDisk(bitmap, sb.size);
      a := 0;
      var b := 0;
      while b < sb.size
        invariant b % BPB == 0 && bitmap == old(bitmap) && disk == old(disk)
        invariant forall c: nat | c < b && c < sb.size :: Bit(bitmap, c)
      {
        var bi := 0;
        while bi < BPB && b + bi < sb.size
          invariant 0 <= bi <= BPB && bitmap == old(bitmap) && disk == old(disk)
          invariant forall c: nat | c < b + bi && c < sb.size :: Bit(bitmap, c)
        {
          BitPosition(b, bi);
          if !Has(bitmap[b / BPB][bi / 8], bi % 8) {
            assert !Bit(bitmap, b + bi);
            NotFull(bitmap, sb.size, b + bi);
            var data := bitmap[b / BPB];
            bitmap := bitmap[b / BPB := data[bi / 8 := With(data[bi / 8], bi % 8)]];
            Bzero(b + bi);
            return b + bi, false;
          }
          bi := bi + 1;
        }
        b := b + BPB;
      }
      AllSet(bitmap, sb.size);
      panicked := true;
    }

    method Bzero(b: nat)
      requires b < |disk|
      modifies this`disk
      ensures disk == old(disk)[b := Zeros()] && forall k: nat | k < NINDIRECT :: Word(disk[b], k) == 0
    {
      disk := disk[b := Zeros()];
      forall k: nat | k < NINDIRECT ensures Word(disk[b], k) == 0 { WordOfZeros(k); }
    }

    /** Clears the block's bit; panics exactly when it is already clear. */
    method Bfree(b: nat) returns (panicked: bool)
      requires Covers(bitmap, sb.size) && b < sb.size
      modifies this`bitmap
      ensures panicked <==> !old(Bit(bitmap, b))
      ensures bitmap == if panicked then old(bitmap) else ClearBit(old(bitmap), b)
      ensures !panicked ==> FreeBits(bitmap, sb.size) == FreeBits(old(bitmap), sb.size) + 1
    {
      hide Has, Without, FreeBits;
      FreeBitsAfter(bitmap, sb.size, b, sb.size);
      var bi := b % BPB;
      BitPosition(b - bi, bi);
      var data := bitmap[b / BPB];
      if !Has(data[bi / 8], bi % 8) {
        return true;
      }
      bitmap := bitmap[b / BPB := data[bi / 8 := Without(data[bi / 8], bi % 8)]];
      return false;
    }

    /** The address of block bn of file i, allocated (with the indirect block) when it is not there yet. */
    method Bmap(i: nat, bn: nat) returns (a: nat, panicked: bool)
      requires Struct(sb, St()) && i < |inodes|
      modifies this`bitmap, this`disk, this`inodes, this`owner
      ensures bn >= MAXFILE ==> panicked && St() == old(St())
      ensures panicked && bn < MAXFILE ==> Full(bitmap, sb.size)
      ensures bn < MAXFILE ==> (panicked <==> FreeBits(old(bitmap), sb.size) < Missing(old(St()), i, bn))
      ensures !panicked ==>
                && Struct(sb, St()) && bn < MAXFILE && Mapped(old(St()), St(), i, bn)
                && At(St(), Data(i, bn)) == a && a != 0 && |inodes| == |old(inodes)|
                && (At(old(St()), Data(i, bn)) != 0 ==> St() == old(St()))
                && FreeBits(bitmap, sb.size) == FreeBits(old(bitmap), sb.size) - Missing(old(St()), i, bn)
    {
      hide Word, PutWord, Zeros, Owned, BitsRight, SetBit, Bit, Mapped, Full, FreeBits;
      ghost var fs := St();
      a, panicked := 0, false;
      if bn < NDIRECT {
        a := inodes[i].addrs[bn];
        if a == 0 {
          a, panicked := Balloc();
          if panicked { return; }
          AttachMaps(sb, fs, i, bn, a);
          inodes := inodes[i := inodes[i].(addrs := inodes[i].addrs[bn := a])];
          owner := owner[a := Data(i, bn)];
          assert St() == Attach(sb, fs, Data(i, bn), a);
        } else {
          StaysMapped(fs, i, bn);
        }
        return;
      }
      if bn - NDIRECT < NINDIRECT {
        var ind := inodes[i].addrs[NDIRECT];
        if ind == 0 {
          ind, panicked := Balloc();
          if panicked { return; }
          IndirectAttached(sb, fs, i, bn, ind);
          inodes := inodes[i := inodes[i].(addrs := inodes[i].addrs[NDIRECT := ind])];
          owner := owner[ind := Indirect(i)];
          assert St() == Attach(sb, fs, Indirect(i), ind);
        } else {
          IndirectThere(sb, fs, i);
        }
        ghost var fs1 := St();
        WordIsAddress(fs1, i, bn);
        AddressInRange(sb, fs1, Data(i, bn));
        a := Word(disk[ind], bn - NDIRECT);
        if a == 0 {
          a, panicked := Balloc();
          if panicked { return; }
          if fs1 == fs {
            AttachMaps(sb, fs, i, bn, a);
          } else {
            AttachTwiceMaps(sb, fs, i, bn, ind, a);
          }
          FreeIsNowhere(sb, fs1, Data(i, bn), a);
          disk := disk[ind := PutWord(disk[ind], bn - NDIRECT, a)];
          owner := owner[a := Data(i, bn)];
          assert St() == Attach(sb, fs1, Data(i, bn), a);
        } else {
          StaysMapped(fs, i, bn);
        }
        return;
      }
      panicked := true;
    }

    /** Returns the bytes of the file from `off`, at most n and not beyond its end; changes nothing. */
    method Readi(i: nat, off: nat, n: nat) returns (r: int, dst: seq<int>)
      requires Valid(sb, St()) && i < |inodes| && off < UINT && n < UINT
      modifies this`bitmap, this`disk, this`inodes, this`owner
      ensures St() == old(St())
      ensures r == -1 <==> off > inodes[i].size || off + n >= UINT
      ensures r == -1 ==> dst == []
      ensures r != -1 ==> r == |dst| && dst == Content(St(), i)[off..Min(off + n, inodes[i].size)]
    {
      hide Struct, At, NBlocks, NoHoles, Content, Mapped;
      ghost var fs := St();
      assert FileOk(fs, i);
      NoWrap(off, n);
      dst := [];
      if off > inodes[i].size || (off + n) % UINT < off {
        return -1, dst;
      }
      var len := n;
      if off + n > inodes[i].size {
        len := inodes[i].size - off;
      }
      ContentSlice(fs, i, off, off);
      var tot := 0;
      while tot < len
        invariant St() == fs && 0 <= tot <= len && off + len <= inodes[i].size
        invariant dst == Content(fs, i)[off..off + tot]
      {
        var pos := off + tot;
        Present(sb, fs, i, pos);
        var a, _ := Bmap(i, pos / BSIZE);
        var m := Min(len - tot, BSIZE - pos % BSIZE);
        BlkFull(sb, fs, i, pos / BSIZE);
        dst := dst + disk[a][pos % BSIZE..pos % BSIZE + m];
        ReadPart(fs, i, pos, m);
        assert Content(fs, i)[off..off + tot] + Content(fs, i)[pos..pos + m] == Content(fs, i)[off..off + tot + m];
        tot := tot + m;
      }
      return len, dst;
    }

    /** Replaces bytes of the file from `off`, growing it when the write ends past its end. */
    method Writei(i: nat, src: seq<int>, off: nat) returns (r: int, panicked: bool)
      requires Valid(sb, St()) && i < |inodes| && off < UINT && |src| < UINT
      modifies this`bitmap, this`disk, this`inodes, this`owner
      ensures panicked <==>
                off <= old(inodes)[i].size && off + |src| <= MAXFILE * BSIZE
                && Growth(old(inodes)[i].size, off + |src|) > FreeBits(old(bitmap), sb.size)
      ensures off + |src| <= NBlocks(old(inodes)[i].size) * BSIZE ==> !panicked
      ensures panicked ==> Full(bitmap, sb.size)
      ensures !panicked ==> Valid(sb, St()) && |inodes| == |old(inodes)|
      ensures !panicked ==> (r == -1 <==> off > old(inodes)[i].size || off + |src| > MAXFILE * BSIZE)
      ensures !panicked && r == -1 ==> St() == old(St())
      ensures !panicked && r != -1 ==>
                && r == |src|
                && Content(St(), i) == Written(Content(old(St()), i), off, src)
                && FreeBits(bitmap, sb.size) == FreeBits(old(bitmap), sb.size) - Growth(old(inodes)[i].size,
                   off + |src|)
                && forall j: nat | j < |inodes| && j != i ::
                     inodes[j] == old(inodes)[j] && Content(St(), j) == Content(old(St()), j)
    {
      hide Struct, At, NBlocks, NoHoles, Content, Mapped, Progress, Written, PutBytes, Splice, FreeBits, Growth,
           Missing;
      NoWrap(off, |src|);
      ghost var fs := St();
      assert FileOk(fs, i);
      if off > inodes[i].size || (off + |src|) % UINT < off {
        return -1, false;
      }
      if (off + |src|) % UINT > MAXFILE * BSIZE {
        return -1, false;
      }
      NoProgress(fs, i, off, src);
      ghost var size := inodes[i].size;
      GrowthStart(size, off);
      GrowthOf(size, off + |src|, off + |src|);
      var tot := 0;
      while tot < |src|
        invariant 0 <= tot <= |src|
        invariant Struct(sb, St()) && i < |inodes| && Progress(fs, St(), i, off, src, tot)
        invariant FreeBits(bitmap, sb.size) == FreeBits(fs.bm, sb.size) - Growth(size, off + tot)
      {
        var pos := off + tot;
        ghost var fs1 := St();
        ProgressHoles(fs, fs1, i, off, src, tot);
        GrowthStep(fs1, i, size, pos, Min(|src| - tot, BSIZE - pos % BSIZE));
        GrowthOf(size, pos + Min(|src| - tot, BSIZE - pos % BSIZE), off + |src|);
        var a;
        a, panicked := Bmap(i, pos / BSIZE);
        if panicked { return 0, true; }
        ghost var fs2 := St();
        ProgressStep(sb, fs, fs1, fs2, i, off, src, tot);
        BlkFull(sb, fs2, i, pos / BSIZE);
        var m := Min(|src| - tot, BSIZE - pos % BSIZE);
        var b := disk[a];
        disk := disk[a := b[..pos % BSIZE] + src[tot..tot + m] + b[pos % BSIZE + m..]];
        PutBytesIs(fs2, i, pos, src[tot..tot + m], disk);
        tot := tot + m;
      }
      ProgressSize(fs, St(), i, off, src, |src|);
      ProgressDone(sb, fs, St(), i, off, src);
      if |src| > 0 && off + |src| > inodes[i].size {
        inodes := inodes[i := inodes[i].(size := off + |src|)];
      }
      return |src|, false;
    }

    /** A write and then a read of the same range: the bytes read are the bytes written. */
    method WriteThenRead(i: nat, src: seq<int>, off: nat) returns (r: int, dst: seq<int>, panicked: bool)
      requires Valid(sb, St()) && i < |inodes| && off < UINT && |src| < UINT
      modifies this`bitmap, this`disk, this`inodes, this`owner
      ensures panicked <==>
                off <= old(inodes)[i].size && off + |src| <= MAXFILE * BSIZE
                && Growth(old(inodes)[i].size, off + |src|) > FreeBits(old(bitmap), sb.size)
      ensures !panicked ==> Valid(sb, St()) && |inodes| == |old(inodes)|
      ensures !panicked ==> (r == -1 <==> off > old(inodes)[i].size || off + |src| > MAXFILE * BSIZE)
      ensures !panicked && r != -1 ==> r == |src| && dst == src
      ensures !panicked && r != -1 ==> Content(St(), i) == Written(Content(old(St()), i), off, src)
    {
      hide Valid, Content, Written, Growth, FreeBits;
      dst := [];
      ghost var c := Content(St(), i);
      ContentSize(St(), i);
      r, panicked := Writei(i, src, off);
      if panicked || r == -1 {
        return;
      }
      ReadAfterWrite(c, off, src);
      ContentSize(St(), i);
      r, dst := Readi(i, off, |src|);
    }

    /** The second half of itrunc: the blocks that the indirect block lists, and the indirect block. */
    method FreeIndirect(i: nat, ind: nat, ghost fs: Fs, ghost n: nat)
      requires Struct(sb, fs) && i < |fs.inodes| && disk == fs.disk && NoHoles(fs, i, n) && NDIRECT < n <= MAXFILE
      requires 0 < ind < |disk| && ind == fs.inodes[i].addrs[NDIRECT] && ind == At(fs, Indirect(i))
      requires Covers(bitmap, sb.size) && BitsFreed(sb, fs, bitmap, i, NDIRECT)
      requires FreeBits(bitmap, sb.size) == FreeBits(fs.bm, sb.size) + NDIRECT
      modifies this`bitmap
      ensures FileFreed(sb, fs, bitmap, i) && FreeBits(bitmap, sb.size) == FreeBits(fs.bm, sb.size) + Taken(n)
    {
      hide At, Bit, NoHoles, Word, Owned, BitsRight, BitsFreed, ClearBit, FileFreed, FreeBits;
      var j := 0;
      while j < NINDIRECT
        invariant 0 <= j <= NINDIRECT && Covers(bitmap, sb.size) && BitsFreed(sb, fs, bitmap, i, NDIRECT + j)
        invariant FreeBits(bitmap, sb.size) == FreeBits(fs.bm, sb.size) + Min(NDIRECT + j, n)
      {
        WordIsAddress(fs, i, NDIRECT + j);
        HasBefore(fs, i, n, NDIRECT + j);
        AddressInRange(sb, fs, Data(i, NDIRECT + j));
        FreeNext(sb, fs, bitmap, i, NDIRECT + j);
        if Word(disk[ind], j) != 0 {
          var _ := Bfree(Word(disk[ind], j));
          FreedCovers(sb, fs, bitmap, i, NDIRECT + j + 1);
        }
        j := j + 1;
      }
      LastFreed(sb, fs, bitmap, i);
      var _ := Bfree(ind);
    }

    /** Frees every block of file i and nothing else; never meets a free block. */
    method Itrunc(i: nat) returns (panicked: bool)
      requires Valid(sb, St()) && i < |inodes|
      modifies this`bitmap, this`inodes, this`owner
      ensures !panicked && Valid(sb, St()) && |inodes| == |old(inodes)|
      ensures Content(St(), i) == [] && NoHoles(St(), i, 0)
      ensures forall j: nat | j < |inodes| && j != i ::
                inodes[j] == old(inodes)[j] && Content(St(), j) == Content(old(St()), j)
      ensures forall b: nat | b < sb.size ::
                Bit(bitmap, b) <==> old(Bit(bitmap, b)) && !HasBlock(old(St()), i, b)
      ensures FreeBits(bitmap, sb.size) == FreeBits(old(bitmap), sb.size) + Taken(NBlocks(old(inodes)[i].size))
    {
      hide At, Bit, NoHoles, NBlocks, Word, Owned, BitsRight, BitsFreed, ClearBit, Content, FileFreed, FreeBits;
      panicked := false;
      ghost var fs := St();
      ghost var n := NBlocks(inodes[i].size);
      HasFirst(fs, i, n);
      NothingFreed(sb, fs, i);
      var k := 0;
      while k < NDIRECT
        invariant 0 <= k <= NDIRECT && Covers(bitmap, sb.size) && BitsFreed(sb, fs, bitmap, i, k)
        invariant FreeBits(bitmap, sb.size) == FreeBits(fs.bm, sb.size) + Min(k, n)
        invariant |inodes| == |fs.inodes| && inodes == fs.inodes[i := inodes[i]] && inodes[i].size == fs.inodes[i].size
        invariant owner == fs.owner
        invariant |inodes[i].addrs| == NDIRECT + 1
        invariant forall j | 0 <= j < k :: inodes[i].addrs[j] == 0
        invariant forall j | k <= j <= NDIRECT :: inodes[i].addrs[j] == fs.inodes[i].addrs[j]
      {
        DirectAddress(fs, i, k);
        HasBefore(fs, i, n, k);
        FreeNext(sb, fs, bitmap, i, k);
        if inodes[i].addrs[k] != 0 {
          panicked := Bfree(inodes[i].addrs[k]);
          FreedCovers(sb, fs, bitmap, i, k + 1);
          inodes := inodes[i := inodes[i].(addrs := inodes[i].addrs[k := 0])];
        }
        k := k + 1;
      }
      var ind := inodes[i].addrs[NDIRECT];
      if ind != 0 {
        IndirectThere(sb, fs, i);
        FreeIndirect(i, ind, fs, n);
        inodes := inodes[i := inodes[i].(addrs := inodes[i].addrs[NDIRECT := 0])];
      } else {
        NoIndirect(sb, fs, bitmap, i);
        IndirectNone(fs, i);
      }
      inodes := inodes[i := inodes[i].(size := 0)];
      owner := map a | a in owner && owner[a].i != i :: owner[a];
      assert inodes[i].addrs == seq(NDIRECT + 1, j => 0);
      assert St() == Truncated(fs, i, bitmap);
      TruncateDone(sb, fs, i, bitmap);
      panicked := false;
    }
  }

  ghost predicate Full(bm: Map, size: nat) {
    Covers(bm, size) && forall b: nat | b < size :: Bit(bm, b)
  }

  lemma StaysMapped(fs: Fs, i: nat, bn: nat)
    requires i < |fs.inodes| && bn < MAXFILE && At(fs, Data(i, bn)) != 0
    requires bn >= NDIRECT ==> At(fs, Indirect(i)) != 0
    ensures Mapped(fs, fs, i, bn)
  {
    hide At, Blk;
  }

  lemma AddressInRange(sb: Super, fs: Fs, p: Place)
    requires Struct(sb, fs) && IsPlace(fs, p)
    ensures 0 <= At(fs, p) < sb.size
  {
    hide At, Bit;
  }

  /** The unsigned overflow test of readi and writei. */
  lemma NoWrap(off: nat, n: nat)
    requires off < UINT && n < UINT
    ensures (off + n) % UINT < off <==> off + n >= UINT
    ensures off + n < UINT ==> (off + n) % UINT == off + n
  {
  }

  /** Every byte within the file is in a block that is there. */
  lemma Present(sb: Super, fs: Fs, i: nat, pos: nat)
    requires Struct(sb, fs) && i < |fs.inodes| && FileOk(fs, i) && pos < fs.inodes[i].size
    ensures pos / BSIZE < MAXFILE && At(fs, Data(i, pos / BSIZE)) != 0
  {
    hide At, Struct;
  }

  lemma ContentSlice(fs: Fs, i: nat, from: nat, to: nat)
    requires i < |fs.inodes| && from <= to <= fs.inodes[i].size
    ensures |Content(fs, i)| == fs.inodes[i].size
    ensures from == to ==> Content(fs, i)[from..to] == []
  {
  }

  lemma ReadPart(fs: Fs, i: nat, pos: nat, m: nat)
    requires i < |fs.inodes| && pos + m <= fs.inodes[i].size <= MAXFILE * BSIZE && pos % BSIZE + m <= BSIZE
    requires pos / BSIZE < MAXFILE && |Blk(fs, i, pos / BSIZE)| == BSIZE
    ensures pos + m <= |Content(fs, i)|
    ensures Blk(fs, i, pos / BSIZE)[pos % BSIZE..pos % BSIZE + m] == Content(fs, i)[pos..pos + m]
  {
    hide Blk;
    var c, b, o := Content(fs, i), Blk(fs, i, pos / BSIZE), pos % BSIZE;
    var x, y := b[o..o + m], c[pos..pos + m];
    forall t | 0 <= t < m
      ensures x[t] == y[t]
    {
      InBlock(pos, t);
    }
    hide Content;
  }

  lemma InBlock(pos: nat, t: nat)
    requires pos % BSIZE + t < BSIZE
    ensures (pos + t) / BSIZE == pos / BSIZE && (pos + t) % BSIZE == pos % BSIZE + t
  {
  }

  lemma NoProgress(fs: Fs, i: nat, off: nat, src: seq<int>)
    requires i < |fs.inodes| && FileOk(fs, i) && off <= fs.inodes[i].size
    ensures Progress(fs, fs, i, off, src, 0)
  {
    hide At, Blk;
  }

  lemma ProgressSize(fs: Fs, fs': Fs, i: nat, off: nat, src: seq<int>, tot: nat)
    requires Progress(fs, fs', i, off, src, tot)
    ensures i < |fs'.inodes| == |fs.inodes| && fs'.inodes[i].size == fs.inodes[i].size
  {
  }

  lemma PutBytesIs(fs: Fs, i: nat, pos: nat, data: seq<int>, disk: seq<Block>)
    requires i < |fs.inodes| && pos < MAXFILE * BSIZE && 0 < At(fs, Data(i, pos / BSIZE)) < |fs.disk|
    requires var b, o := fs.disk[At(fs, Data(i, pos / BSIZE))], pos % BSIZE;
             o + |data| <= |b| && disk == fs.disk[At(fs, Data(i, pos / BSIZE)) := b[..o] + data + b[o + |data|..]]
    ensures PutBytes(fs, i, pos, data) == fs.(disk := disk)
  {
    hide At;
  }

  /** Block b is a data block or the indirect block of file i. */
  ghost predicate HasBlock(fs: Fs, i: nat, b: nat) {
    b != 0 && exists p :: IsPlace(fs, p) && p.i == i && At(fs, p) == b
  }

  /** Exactly the blocks of file i have been freed. */
  ghost predicate FileFreed(sb: Super, fs: Fs, bm: Map, i: nat) {
    && Covers(bm, sb.size)
    && forall b: nat | b < sb.size :: Bit(bm, b) <==> b < sb.meta || (b in fs.owner && fs.owner[b].i != i)
  }

  lemma HasFirst(fs: Fs, i: nat, n: nat)
    requires i < |fs.inodes| && FileOk(fs, i) && n == NBlocks(fs.inodes[i].size)
    ensures n <= MAXFILE && NoHoles(fs, i, n) && (At(fs, Indirect(i)) != 0 <==> n > NDIRECT)
  {
    hide At;
  }

  lemma HasBefore(fs: Fs, i: nat, n: nat, k: nat)
    requires i < |fs.inodes| && NoHoles(fs, i, n) && k < MAXFILE
    ensures At(fs, Data(i, k)) != 0 <==> k < n
  {
    hide At;
  }

  lemma IndirectNone(fs: Fs, i: nat)
    requires i < |fs.inodes| && |fs.inodes[i].addrs| == NDIRECT + 1 && fs.inodes[i].addrs[NDIRECT] == 0
    ensures At(fs, Indirect(i)) == 0
  {
  }

  lemma NothingFreed(sb: Super, fs: Fs, i: nat)
    requires Struct(sb, fs)
    ensures Covers(fs.bm, sb.size) && BitsFreed(sb, fs, fs.bm, i, 0)
  {
    hide Bit, At;
  }

  lemma DirectAddress(fs: Fs, i: nat, k: nat)
    requires i < |fs.inodes| && k < NDIRECT && |fs.inodes[i].addrs| == NDIRECT + 1
    ensures At(fs, Data(i, k)) == fs.inodes[i].addrs[k]
  {
  }

  lemma FreedCovers(sb: Super, fs: Fs, bm: Map, i: nat, k: nat)
    requires BitsFreed(sb, fs, bm, i, k)
    ensures Covers(bm, sb.size)
  {
  }

  lemma LastFreed(sb: Super, fs: Fs, bm: Map, i: nat)
    requires Struct(sb, fs) && i < |fs.inodes| && BitsFreed(sb, fs, bm, i, MAXFILE)
    requires At(fs, Indirect(i)) != 0
    ensures 0 < At(fs, Indirect(i)) < sb.size && Covers(bm, sb.size) && Bit(bm, At(fs, Indirect(i)))
    ensures FileFreed(sb, fs, ClearBit(bm, At(fs, Indirect(i))), i)
  {
    hide At, Bit, ClearBit, BitsRight;
    var a := At(fs, Indirect(i));
    assert IsPlace(fs, Indirect(i));
    OneBit(bm, sb.size, a);
    assert forall b | b in fs.owner && b != a :: fs.owner[b] != Indirect(i);
  }

  lemma NoIndirect(sb: Super, fs: Fs, bm: Map, i: nat)
    requires Struct(sb, fs) && i < |fs.inodes| && BitsFreed(sb, fs, bm, i, NDIRECT)
    requires fs.inodes[i].addrs[NDIRECT] == 0
    ensures FileFreed(sb, fs, bm, i)
  {
    hide Bit, BitsRight, Word;
    forall b | b in fs.owner && fs.owner[b].i == i
      ensures fs.owner[b].Data? && fs.owner[b].bn < NDIRECT
    {
      assert At(fs, fs.owner[b]) == b;
    }
  }

  lemma TruncateDone(sb: Super, fs: Fs, i: nat, bm: Map)
    requires Valid(sb, fs) && i < |fs.inodes| && FileFreed(sb, fs, bm, i)
    ensures var fs' := Truncated(fs, i, bm);
            && Valid(sb, fs') && |fs'.inodes| == |fs.inodes| && Content(fs', i) == [] && NoHoles(fs', i, 0)
            && (forall j: nat | j < |fs.inodes| && j != i ::
               fs'.inodes[j] == fs.inodes[j] && Content(fs', j) == Content(fs, j))
            && (forall b: nat | b < sb.size ::
                  Bit(bm, b) <==> Bit(fs.bm, b) && !HasBlock(fs, i, b))
  {
    var fs' := Truncated(fs, i, bm);
    TruncateKeeps(sb, fs, i, bm);
    hide At, Bit, Blk, NBlocks, Content;
    assert NBlocks(0) == 0 by { ZeroBlocks(); }
    assert Content(fs', i) == [] by { ContentSlice(fs', i, 0, 0); }
    forall j: nat | j < |fs.inodes|
      ensures FileOk(fs', j)
      ensures j != i ==> fs'.inodes[j] == fs.inodes[j] && Content(fs', j) == Content(fs, j)
    {
      assert FileOk(fs, j);
      if j != i {
        SameContent(fs, fs', j);
        assert IsPlace(fs, Indirect(j));
        forall bn: nat | bn < MAXFILE
          ensures At(fs', Data(j, bn)) == At(fs, Data(j, bn))
        {
          assert IsPlace(fs, Data(j, bn));
        }
      }
    }
    forall b: nat | b < sb.size
      ensures Bit(bm, b) <==> Bit(fs.bm, b) && !HasBlock(fs, i, b)
    {
      if b in fs.owner {
        assert IsPlace(fs, fs.owner[b]) && At(fs, fs.owner[b]) == b;
      }
    }
  }

  lemma ZeroBlocks()
    ensures NBlocks(0) == 0
  {
  }

  lemma IndirectThere(sb: Super, fs: Fs, i: nat)
    requires Struct(sb, fs) && i < |fs.inodes| && fs.inodes[i].addrs[NDIRECT] != 0
    ensures At(fs, Indirect(i)) == fs.inodes[i].addrs[NDIRECT]
    ensures 0 < fs.inodes[i].addrs[NDIRECT] < |fs.disk|
  {
    hide BitsRight;
    assert IsPlace(fs, Indirect(i));
  }

  lemma IndirectAttached(sb: Super, fs: Fs, i: nat, bn: nat, ind: nat)
    requires CanAttach(sb, fs, Indirect(i), ind) && NDIRECT <= bn < MAXFILE
    ensures var fs1 := Attach(sb, fs, Indirect(i), ind);
            && Struct(sb, fs1) && i < |fs1.inodes| && At(fs1, Indirect(i)) == ind != 0
            && At(fs, Data(i, bn)) == 0 && At(fs1, Data(i, bn)) == 0
  {
    FreeIsNowhere(sb, fs, Indirect(i), ind);
    AttachKeeps(sb, fs, Indirect(i), ind);
    assert IsPlace(fs, Data(i, bn)) && IsPlace(fs, Indirect(i));
    assert At(fs, Data(i, bn)) == 0 by { hide Owned, BitsRight; }
    hide At, Attach, Owned, BitsRight;
  }

  lemma WordIsAddress(fs: Fs, i: nat, bn: nat)
    requires i < |fs.inodes| && NDIRECT <= bn < MAXFILE && |fs.inodes[i].addrs| == NDIRECT + 1
    requires var ind := fs.inodes[i].addrs[NDIRECT]; 0 < ind < |fs.disk| && |fs.disk[ind]| == BSIZE
    ensures At(fs, Data(i, bn)) == Word(fs.disk[fs.inodes[i].addrs[NDIRECT]], bn - NDIRECT)
    ensures At(fs, Indirect(i)) == fs.inodes[i].addrs[NDIRECT]
  {
    hide Word;
  }

  /** Where the loops of balloc and bfree look for the bit of block b + bi. */
  lemma BitPosition(b: nat, bi: nat)
    requires b % BPB == 0 && bi < BPB
    ensures BlockOf(b + bi) == b / BPB && ByteOf(b + bi) == bi / 8 && BitOf(b + bi) == bi % 8
  {
  }
}
