/**
 The redo log of log.c on one disk: what recovery makes of a disk image, and the
 commit and recovery code proved against it.

 A disk image is a sequence of blocks; one block write is one atomic step. The
 class keeps the sequence of all images the disk has had, so that a statement
 about every element of that sequence is a statement about a crash after any
 prefix of the writes.
 */
module Log {
  import opened Basics

  const LOGSIZE: nat := 30
  const MAXOPBLOCKS: nat := 10
  const BLOCKWORDS: nat := 128

  /** A block seen as the 32-bit words of its bytes; only the header block's words are looked at. */
  datatype Block = Block(words: seq<int>)

  type Image = seq<Block>

  type Blocks = map<int, Block>

  /** log.start and log.size: the header block and the blocks after it. */
  datatype Geometry = Geometry(start: nat, size: nat)

  predicate InLog(g: Geometry, b: int) {
    g.start <= b < g.start + g.size
  }

  predicate Fits(g: Geometry, d: Image) {
    1 <= g.size && g.start + g.size <= |d| && |d[g.start].words| == BLOCKWORDS
  }

  /** The blocks outside the log area. */
  ghost function Home(g: Geometry, d: Image): Blocks {
    map b | 0 <= b < |d| && !InLog(g, b) :: d[b]
  }

  /** The log area after its header block. */
  ghost function Slots(g: Geometry, d: Image): seq<Block>
    requires Fits(g, d)
  {
    d[g.start + 1..g.start + g.size]
  }

  /** A block write lands in exactly one of header, log slots and home blocks. */
  lemma WriteSplits(g: Geometry, d: Image, b: nat, v: Block)
    requires Fits(g, d) && b < |d| && (b == g.start ==> |v.words| == BLOCKWORDS)
    ensures Fits(g, d[b := v])
    ensures d[b := v][g.start] == if b == g.start then v else d[g.start]
    ensures Slots(g, d[b := v]) ==
            if InLog(g, b) && b != g.start then Slots(g, d)[b - g.start - 1 := v] else Slots(g, d)
    ensures Home(g, d[b := v]) == if InLog(g, b) then Home(g, d) else Home(g, d)[b := v]
  {
  }

  /** A list of block numbers the log can hold: distinct home blocks, few enough for header and log area. */
  ghost predicate Loggable(g: Geometry, home: Blocks, lh: seq<int>) {
    && |lh| <= LOGSIZE
    && |lh| <= g.size - 1
    && Distinct(lh)
    && Elements(lh) <= home.Keys
  }

  /** struct logheader inside a block: word 0 is n, words 1.. are the block numbers. */
  function Head(h: Block): seq<int>
    requires |h.words| == BLOCKWORDS && 0 <= h.words[0] <= LOGSIZE
  {
    h.words[1..1 + h.words[0]]
  }

  /** write_head overwrites n and the first n numbers and leaves the rest of the block alone. */
  function PutHead(h: Block, lh: seq<int>): (r: Block)
    requires |h.words| == BLOCKWORDS && |lh| <= LOGSIZE
    ensures |r.words| == BLOCKWORDS && r.words[0] == |lh| && Head(r) == lh
  {
    Block([|lh|] + lh + h.words[1 + |lh|..])
  }

  /** The on-disk header is readable and names blocks the log can hold. */
  ghost predicate HeaderOk(g: Geometry, d: Image) {
    && Fits(g, d)
    && 0 <= d[g.start].words[0] <= LOGSIZE
    && Loggable(g, Home(g, d), Head(d[g.start]))
  }

  ghost predicate HeaderEmpty(g: Geometry, d: Image) {
    Fits(g, d) && d[g.start].words[0] == 0
  }

  ghost function Logged(g: Geometry, d: Image): seq<int>
    requires HeaderOk(g, d)
  {
    Head(d[g.start])
  }

  /** Position of `b` in the header, or -1. */
  ghost function Slot(lh: seq<int>, b: int): (i: int)
    ensures -1 <= i < |lh|
    ensures i == -1 <==> b !in lh
    ensures i >= 0 ==> lh[i] == b
  {
    if b in lh then var i :| 0 <= i < |lh| && lh[i] == b; i else -1
  }

  /** The home blocks with the log's copies laid over them. */
  ghost function Replay(home: Blocks, lh: seq<int>, slots: seq<Block>): Blocks
    requires |lh| <= |slots|
  {
    map b | b in home :: var i := Slot(lh, b); if i >= 0 then slots[i] else home[b]
  }

  /** The home blocks a file system sees after recovering from image `d`. */
  ghost function Recovered(g: Geometry, d: Image): Blocks
    requires HeaderOk(g, d)
  {
    Replay(Home(g, d), Logged(g, d), Slots(g, d))
  }

  /** Every image of the trace from position `from` on recovers to `target`. */
  ghost predicate AllRecover(g: Geometry, trace: seq<Image>, from: nat, target: Blocks) {
    forall k | from <= k < |trace| :: HeaderOk(g, trace[k]) && Recovered(g, trace[k]) == target
  }

  /** An empty header recovers to the home blocks as they are. */
  lemma EmptyHeaderRecoversHome(g: Geometry, d: Image)
    requires HeaderEmpty(g, d)
    ensures HeaderOk(g, d) && Recovered(g, d) == Home(g, d)
  {
  }

  /** Writing a log slot while the header is empty does not show after recovery. */
  lemma LogWriteInvisible(g: Geometry, d: Image, b: nat, v: Block)
    requires HeaderEmpty(g, d) && InLog(g, b) && b != g.start
    ensures HeaderEmpty(g, d[b := v]) && Home(g, d[b := v]) == Home(g, d)
    ensures HeaderOk(g, d[b := v]) && HeaderOk(g, d) && Recovered(g, d[b := v]) == Recovered(g, d)
  {
  }

  /** Installing one logged block at home does not show after recovery, so recovery can be cut anywhere. */
  lemma InstallInvisible(g: Geometry, d: Image, i: nat)
    requires HeaderOk(g, d) && i < |Logged(g, d)|
    ensures g.start + 1 + i < |d| && 0 <= Logged(g, d)[i] < |d| && !InLog(g, Logged(g, d)[i])
    ensures var d' := d[Logged(g, d)[i] := d[g.start + 1 + i]];
            && HeaderOk(g, d') && Logged(g, d') == Logged(g, d) && Slots(g, d') == Slots(g, d)
            && Home(g, d') == Home(g, d)[Logged(g, d)[i] := Slots(g, d)[i]]
            && Recovered(g, d') == Recovered(g, d)
  {
    var lh := Logged(g, d);
    assert lh[i] in Elements(lh);
    assert Slots(g, d)[i] == d[g.start + 1 + i];
    WriteSplits(g, d, lh[i], d[g.start + 1 + i]);
    ReplayAbsorbs(Home(g, d), lh, Slots(g, d), i);
  }

  lemma ReplayAbsorbs(home: Blocks, lh: seq<int>, slots: seq<Block>, i: nat)
    requires |lh| <= |slots| && Distinct(lh) && i < |lh| && lh[i] in home
    ensures Replay(home[lh[i] := slots[i]], lh, slots) == Replay(home, lh, slots)
  {
  }

  /** The first `upto` logged blocks sit at home. */
  ghost predicate Installed(home: Blocks, lh: seq<int>, slots: seq<Block>, upto: nat) {
    forall i | 0 <= i < upto :: i < |lh| && i < |slots| && lh[i] in home && home[lh[i]] == slots[i]
  }

  lemma InstalledNext(home: Blocks, lh: seq<int>, slots: seq<Block>, tail: nat)
    requires Installed(home, lh, slots, tail) && tail < |lh| <= |slots| && Distinct(lh)
    ensures Installed(home[lh[tail] := slots[tail]], lh, slots, tail + 1)
  {
  }

  /** Once every logged block sits at home, the home blocks are what recovery promises. */
  lemma InstalledIsRecovered(g: Geometry, d: Image)
    requires HeaderOk(g, d) && Installed(Home(g, d), Logged(g, d), Slots(g, d), |Logged(g, d)|)
    ensures Home(g, d) == Recovered(g, d)
  {
  }

  /** Home blocks as seen through a cache. */
  ghost function Seen(home: Blocks, cache: Blocks): Blocks {
    map b | b in home :: if b in cache then cache[b] else home[b]
  }

  /** The slots hold the cached contents of the logged blocks. */
  ghost predicate SlotsHold(slots: seq<Block>, lh: seq<int>, cache: Blocks, upto: nat) {
    forall i | 0 <= i < upto :: i < |slots| && i < |lh| && lh[i] in cache && slots[i] == cache[lh[i]]
  }

  /** Cached blocks that are not dirty agree with the home blocks, and dirty ones are cached home blocks. */
  ghost predicate Coherent(home: Blocks, cache: Blocks, dirty: set<int>) {
    && dirty <= cache.Keys * home.Keys
    && forall b {:trigger cache[b]} | b in cache && b in home && b !in dirty :: cache[b] == home[b]
  }

  /** The header write is the commit point: it turns the recovered blocks into the cached ones. */
  lemma CommitPoint(g: Geometry, d: Image, lh: seq<int>, cache: Blocks)
    requires Fits(g, d) && Loggable(g, Home(g, d), lh)
    requires Coherent(Home(g, d), cache, Elements(lh)) && SlotsHold(Slots(g, d), lh, cache, |lh|)
    ensures var d' := d[g.start := PutHead(d[g.start], lh)];
            && HeaderOk(g, d') && Logged(g, d') == lh && Home(g, d') == Home(g, d)
            && Recovered(g, d') == Seen(Home(g, d), cache)
  {
    WriteSplits(g, d, g.start, PutHead(d[g.start], lh));
    ReplayIsSeen(Home(g, d), lh, Slots(g, d), cache);
  }

  lemma ReplayIsSeen(home: Blocks, lh: seq<int>, slots: seq<Block>, cache: Blocks)
    requires |lh| <= |slots| && Coherent(home, cache, Elements(lh)) && SlotsHold(slots, lh, cache, |lh|)
    ensures Replay(home, lh, slots) == Seen(home, cache)
  {
  }

  /** log absorption: a block already logged keeps its slot. */
  function Absorb(lh: seq<int>, b: int): (r: seq<int>) {
    if b in lh then lh else lh + [b]
  }

  predicate LogFull(g: Geometry, n: nat) {
    n >= LOGSIZE || n >= g.size - 1
  }

  predicate Admits(lhn: nat, outstanding: nat) {
    lhn + (outstanding + 1) * MAXOPBLOCKS <= LOGSIZE
  }

  lemma AbsorbKeeps(g: Geometry, home: Blocks, lh: seq<int>, b: int)
    requires Loggable(g, home, lh) && !LogFull(g, |lh|) && b in home
    ensures Loggable(g, home, Absorb(lh, b))
    ensures Elements(Absorb(lh, b)) == Elements(lh) + {b}
  {
  }

  /** Cached blocks that are not dirty agree with the disk. */
  ghost predicate CacheOk(d: Image, cache: Blocks, dirty: set<int>) {
    && dirty <= cache.Keys
    && forall b {:trigger cache[b]} | b in cache && b !in dirty :: 0 <= b < |d| && cache[b] == d[b]
  }

  lemma CacheCoherent(g: Geometry, d: Image, cache: Blocks, dirty: set<int>)
    requires CacheOk(d, cache, dirty) && dirty <= Home(g, d).Keys
    ensures Coherent(Home(g, d), cache, dirty)
    ensures dirty == {} ==> Seen(Home(g, d), cache) == Home(g, d)
  {
  }

  /** Reading a block into the cache changes nothing that is seen. */
  lemma ReadUnseen(g: Geometry, d: Image, cache: Blocks, dirty: set<int>, b: nat)
    requires CacheOk(d, cache, dirty) && b < |d|
    ensures var cache' := cache[b := if b in cache then cache[b] else d[b]];
            CacheOk(d, cache', dirty) && Seen(Home(g, d), cache') == Seen(Home(g, d), cache)
  {
  }

  /** Writing a log block through the cache changes nothing that is seen. */
  lemma WriteUnseen(g: Geometry, d: Image, cache: Blocks, b: nat, v: Block)
    requires Fits(g, d) && b < |d| && InLog(g, b) && (b == g.start ==> |v.words| == BLOCKWORDS)
    ensures Seen(Home(g, d[b := v]), cache[b := v]) == Seen(Home(g, d), cache)
  {
  }

  lemma TailElements(lh: seq<int>, tail: nat, dirty: set<int>)
    requires tail < |lh| && dirty <= Elements(lh[tail..])
    ensures dirty - {lh[tail]} <= Elements(lh[tail + 1..])
  {
  }

  /** Copying the next logged block extends what the slots hold. */
  lemma SlotsHoldNext(slots: seq<Block>, lh: seq<int>, cache: Blocks, at: int, v: Block, w: Block, tail: nat)
    requires SlotsHold(slots, lh, cache, tail) && tail < |lh| <= |slots|
    requires Elements(lh) <= cache.Keys && at !in Elements(lh)
    ensures SlotsHold(slots[tail := cache[lh[tail]]], lh,
                      cache[at := v][lh[tail] := cache[lh[tail]]][at := w], tail + 1)
  {
  }

  lemma TraceGrows(g: Geometry, trace: seq<Image>, from: nat, d: Image, target: Blocks)
    requires AllRecover(g, trace, from, target) && HeaderOk(g, d) && Recovered(g, d) == target
    ensures AllRecover(g, trace + [d], from, target)
  {
  }

  /** struct log with the disk below it and the buffers it pins. */
  class FsLog {
    const g: Geometry
    var disk: Image
    var cache: Blocks           // contents of the cached blocks
    var dirty: set<int>         // blocks whose buffer has B_DIRTY
    var lh: seq<int>            // log.lh.block[..log.lh.n]
    var outstanding: nat
    var committing: bool
    ghost var trace: seq<Image> // one image per block write so far

    ghost predicate Ok()
      reads this
    {
      && Fits(g, disk)
      && CacheOk(disk, cache, dirty)
      && dirty <= Home(g, disk).Keys
    }

    /** Between operations: exactly the logged blocks are dirty and the on-disk header is empty. */
    ghost predicate Valid()
      reads this
    {
      && Ok()
      && Loggable(g, Home(g, disk), lh)
      && HeaderEmpty(g, disk)
      && dirty == Elements(lh)
    }

    /** The home blocks as the file system code sees them through the cache. */
    ghost function Current(): Blocks
      reads this
    {
      Seen(Home(g, disk), cache)
    }

    /** A machine that has just booted on `image`. */
    constructor (g: Geometry, image: Image)
      requires HeaderOk(g, image)
      ensures Ok() && this.g == g && disk == image && dirty == {} && cache == map[]
      ensures lh == [] && outstanding == 0 && !committing && trace == [image]
    {
      this.g, disk, cache, dirty, lh := g, image, map[], {}, [];
      outstanding, committing, trace := 0, false, [image];
    }

    method Bread(b: int) returns (v: Block)
      requires Ok() && 0 <= b < |disk|
      modifies this`cache
      ensures Ok() && v == if b in old(cache) then old(cache)[b] else disk[b]
      ensures b !in dirty ==> v == disk[b]
      ensures cache == old(cache)[b := v] && Current() == old(Current())
    {
      hide Home, Seen;
      ReadUnseen(g, disk, cache, dirty, b);
      if b !in cache {
        cache := cache[b := disk[b]];
      }
      v := cache[b];
      assert cache == old(cache)[b := v];
    }

    method Bwrite(b: int, v: Block)
      requires Ok() && 0 <= b < |disk| && (b == g.start ==> |v.words| == BLOCKWORDS)
      modifies this`disk, this`cache, this`dirty, this`trace
      ensures Ok()
      ensures disk == old(disk)[b := v] && cache == old(cache)[b := v] && dirty == old(dirty) - {b}
      ensures trace == old(trace) + [disk]
    {
      hide Home;
      WriteSplits(g, disk, b, v);
      disk := disk[b := v];
      cache := cache[b := v];
      dirty := dirty - {b};
      trace := trace + [disk];
      assert !InLog(g, b) ==> b in Home(g, disk);
    }

    /** Copies the cached contents of every logged block to its log block; no crash here is visible. */
    method WriteLog()
      requires Valid()
      modifies this`disk, this`cache, this`dirty, this`trace
      ensures Valid() && Current() == old(Current()) && Home(g, disk) == old(Home(g, disk))
      ensures SlotsHold(Slots(g, disk), lh, cache, |lh|)
      ensures |trace| == |old(trace)| + |lh| && old(trace) <= trace
      ensures AllRecover(g, trace, |old(trace)|, old(Home(g, disk)))
    {
      hide Home, Seen, Slots, SlotsHold, Recovered, HeaderOk, AllRecover, Loggable, Elements;
      assert SlotsHold(Slots(g, disk), lh, cache, 0) && AllRecover(g, trace, |old(trace)|, old(Home(g, disk))) by {
        NothingYet(g, disk, lh, cache, trace, Home(g, disk));
      }
      var tail := 0;
      while tail < |lh|
        invariant 0 <= tail <= |lh|
        invariant Valid() && Current() == old(Current()) && Home(g, disk) == old(Home(g, disk))
        invariant SlotsHold(Slots(g, disk), lh, cache, tail)
        invariant |trace| == |old(trace)| + tail && old(trace) <= trace
        invariant AllRecover(g, trace, |old(trace)|, old(Home(g, disk)))
      {
        LoggedBlock(g, disk, lh, tail);
        ghost var cached := cache;
        var to := Bread(g.start + tail + 1);
        var from := Bread(lh[tail]);
        SlotsHoldNext(Slots(g, disk), lh, cached, g.start + tail + 1, to, from, tail);
        LogWriteInvisible(g, disk, g.start + tail + 1, from);
        EmptyHeaderRecoversHome(g, disk[g.start + tail + 1 := from]);
        WriteUnseen(g, disk, cache, g.start + tail + 1, from);
        WriteSplits(g, disk, g.start + tail + 1, from);
        TraceGrows(g, trace, |old(trace)|, disk[g.start + tail + 1 := from], old(Home(g, disk)));
        Bwrite(g.start + tail + 1, from);
        tail := tail + 1;
      }
    }

    /** One block write that makes the in-memory header the on-disk one. */
    method WriteHead()
      requires Ok() && |lh| <= LOGSIZE
      modifies this`disk, this`cache, this`dirty, this`trace
      ensures Ok() && dirty == old(dirty)
      ensures disk == old(disk)[g.start := PutHead(old(disk[g.start]), lh)]
      ensures Home(g, disk) == old(Home(g, disk)) && Current() == old(Current())
      ensures trace == old(trace) + [disk]
    {
      hide Home, Seen;
      HeaderClean(g, disk, dirty);
      var h := Bread(g.start);
      WriteUnseen(g, disk, cache, g.start, PutHead(h, lh));
      WriteSplits(g, disk, g.start, PutHead(h, lh));
      Bwrite(g.start, PutHead(h, lh));
    }

    /** Copies every log block to its home; a crash after any of these writes recovers to the same blocks. */
    method InstallTrans()
      requires Ok() && HeaderOk(g, disk) && lh == Logged(g, disk) && dirty <= Elements(lh)
      modifies this`disk, this`cache, this`dirty, this`trace
      ensures Ok() && dirty == {} && HeaderOk(g, disk) && lh == Logged(g, disk)
      ensures Home(g, disk) == Recovered(g, disk) == Recovered(g, old(disk))
      ensures |trace| == |old(trace)| + |lh| && old(trace) <= trace
      ensures AllRecover(g, trace, |old(trace)|, Recovered(g, old(disk)))
    {
      hide Home, Seen, Slots, Installed, Recovered, AllRecover, Elements, CacheOk, HeaderOk, Logged, Loggable;
      NothingYet(g, disk, lh, cache, trace, Recovered(g, disk));
      assert lh == lh[0..];
      var tail := 0;
      while tail < |lh|
        invariant 0 <= tail <= |lh|
        invariant Ok() && HeaderOk(g, disk) && lh == Logged(g, disk)
        invariant Recovered(g, disk) == Recovered(g, old(disk))
        invariant dirty <= Elements(lh[tail..])
        invariant Installed(Home(g, disk), lh, Slots(g, disk), tail)
        invariant |trace| == |old(trace)| + tail && old(trace) <= trace
        invariant AllRecover(g, trace, |old(trace)|, Recovered(g, old(disk)))
      {
        HeaderLoggable(g, disk);
        LoggedBlock(g, disk, lh, tail);
        HeaderClean(g, disk, dirty);
        InstallInvisible(g, disk, tail);
        InstalledNext(Home(g, disk), lh, Slots(g, disk), tail);
        TailElements(lh, tail, dirty);
        var from := Bread(g.start + tail + 1);
        var _ := Bread(lh[tail]);
        TraceGrows(g, trace, |old(trace)|, disk[lh[tail] := from], Recovered(g, old(disk)));
        Bwrite(lh[tail], from);
        tail := tail + 1;
      }
      InstalledIsRecovered(g, disk);
      NoElements(lh[tail..]);
    }

    /**
     Commit is atomic: of the images it leaves on disk, the first |lh| recover to the
     home blocks before the transaction, and from the header write on every image
     recovers to the home blocks the file system saw when commit was called.
     */
    method Commit()
      requires Valid()
      modifies this`disk, this`cache, this`dirty, this`trace, this`lh
      ensures Valid() && lh == []
      ensures Current() == old(Current()) == Home(g, disk)
      ensures HeaderOk(g, disk) && Recovered(g, disk) == old(Current())
      ensures |trace| == |old(trace)| + (if old(lh) == [] then 0 else 2 * |old(lh)| + 2)
      ensures old(trace) <= trace
      ensures AllRecover(g, trace[..|old(trace)| + |old(lh)|], |old(trace)|, old(Home(g, disk)))
      ensures AllRecover(g, trace, |old(trace)| + |old(lh)|, old(Current()))
    {
      hide Home, Seen, Slots, SlotsHold, Recovered, AllRecover, HeaderOk, Logged, Loggable, CacheOk, PutHead;
      if |lh| > 0 {
        WriteLog();
        ghost var logged := trace;
        CacheCoherent(g, disk, cache, dirty);
        CommitPoint(g, disk, lh, cache);
        WriteHead();
        ghost var committed := trace;
        NothingYet(g, disk, lh, cache, logged, old(Current()));
        TraceGrows(g, logged, |logged|, disk, old(Current()));
        InstallTrans();
        TraceJoins(g, committed, trace, |logged|, old(Current()));
        ghost var installed := trace;
        lh := [];
        WriteHead();
        EmptyHeaderRecoversHome(g, disk);
        TraceGrows(g, installed, |logged|, disk, old(Current()));
        NothingLogged(g, disk);
        assert trace[..|logged|] == logged;
      } else {
        EmptyHeaderRecoversHome(g, disk);
        NothingYet(g, disk, lh, cache, trace, old(Home(g, disk)));
        NothingYet(g, disk, lh, cache, trace, old(Current()));
        assert trace[..|trace|] == trace;
      }
      assert dirty == {};
      CacheCoherent(g, disk, cache, dirty);
    }

    method ReadHead()
      requires Ok() && HeaderOk(g, disk)
      modifies this`cache, this`lh
      ensures Ok() && lh == Logged(g, disk)
    {
      hide Home, Seen, Loggable;
      HeaderClean(g, disk, dirty);
      var h := Bread(g.start);
      var i := 0;
      lh := [];
      while i < h.words[0]
        invariant 0 <= i <= h.words[0] && lh == h.words[1..1 + i]
        invariant Ok()
      {
        lh := lh + [h.words[1 + i]];
        i := i + 1;
      }
    }

    /** Recovery installs what the image recovers to, whatever crash cut an earlier recovery short. */
    method RecoverFromLog()
      requires Ok() && HeaderOk(g, disk) && dirty == {}
      modifies this`disk, this`cache, this`dirty, this`trace, this`lh
      ensures Valid() && lh == []
      ensures HeaderOk(g, disk) && Current() == Home(g, disk) == Recovered(g, disk) == Recovered(g, old(disk))
      ensures |trace| == |old(trace)| + |Logged(g, old(disk))| + 1 && old(trace) <= trace
      ensures AllRecover(g, trace, |old(trace)|, Recovered(g, old(disk)))
    {
      hide Home, Seen, Slots, Recovered, AllRecover, Loggable;
      ReadHead();
      InstallTrans();
      ghost var installed := trace;
      lh := [];
      WriteHead();
      EmptyHeaderRecoversHome(g, disk);
      TraceGrows(g, installed, |old(trace)|, disk, Recovered(g, old(disk)));
      CacheCoherent(g, disk, cache, dirty);
      NothingLogged(g, disk);
    }

    /**
     The caller has put `v` into the buffer of block `b`. Panics when the log is full, before
     looking whether the block is already in it; otherwise records the block once and pins it.
     */
    method LogWrite(b: int, v: Block) returns (panicked: bool)
      requires Valid() && b in Home(g, disk)
      modifies this`cache, this`dirty, this`lh
      ensures Valid()
      ensures panicked <==> LogFull(g, |old(lh)|) || outstanding < 1
      ensures panicked ==> lh == old(lh) && Current() == old(Current())
      ensures !panicked ==> lh == Absorb(old(lh), b) && Current() == old(Current())[b := v]
    {
      hide Home, Loggable, Elements;
      if |lh| >= LOGSIZE || |lh| >= g.size - 1 {
        return true;
      }
      if outstanding < 1 {
        return true;
      }
      AbsorbKeeps(g, Home(g, disk), lh, b);
      var i := 0;
      while i < |lh| && lh[i] != b
        invariant 0 <= i <= |lh|
        invariant b !in lh[..i]
      {
        i := i + 1;
      }
      if i == |lh| {
        assert lh == lh[..i];
        lh := lh + [b];
      } else {
        lh := lh[i := b];
        assert lh == old(lh);
      }
      cache := cache[b := v];
      dirty := dirty + {b};
      return false;
    }

    /** One pass of begin_op's loop under log.lock; `admitted` false means the caller sleeps. */
    method BeginOp() returns (admitted: bool)
      modifies this`outstanding
      ensures admitted <==> !committing && |lh| + (old(outstanding) + 1) * MAXOPBLOCKS <= LOGSIZE
      ensures outstanding == old(outstanding) + if admitted then 1 else 0
    {
      if committing {
        return false;
      } else if |lh| + (outstanding + 1) * MAXOPBLOCKS > LOGSIZE {
        return false;
      } else {
        outstanding := outstanding + 1;
        return true;
      }
    }

    /** The last operation to end commits; one before it only gives its reservation back. */
    method EndOp()
      requires Valid() && outstanding >= 1 && !committing
      modifies this
      ensures Valid() && !committing && outstanding == old(outstanding) - 1
      ensures Current() == old(Current())
      ensures outstanding > 0 ==> disk == old(disk) && lh == old(lh) && trace == old(trace)
      ensures outstanding == 0 ==> lh == [] && HeaderOk(g, disk) && Recovered(g, disk) == old(Current())
    {
      hide Home, Seen, Recovered, AllRecover, Loggable;
      outstanding := outstanding - 1;
      var doCommit := false;
      if outstanding == 0 {
        doCommit := true;
        committing := true;
      }
      if doCommit {
        Commit();
        committing := false;
      }
    }
  }

  lemma TraceJoins(g: Geometry, before: seq<Image>, after: seq<Image>, from: nat, target: Blocks)
    requires before <= after && from <= |before|
    requires AllRecover(g, before, from, target) && AllRecover(g, after, |before|, target)
    ensures AllRecover(g, after, from, target)
  {
  }

  lemma HeaderLoggable(g: Geometry, d: Image)
    requires HeaderOk(g, d)
    ensures Fits(g, d) && Loggable(g, Home(g, d), Logged(g, d))
  {
  }

  lemma NoElements(s: seq<int>)
    requires s == []
    ensures Elements(s) == {}
  {
  }

  lemma NothingLogged(g: Geometry, d: Image)
    requires Fits(g, d)
    ensures Loggable(g, Home(g, d), []) && Elements<int>([]) == {}
  {
  }

  lemma HeaderClean(g: Geometry, d: Image, dirty: set<int>)
    requires Fits(g, d) && dirty <= Home(g, d).Keys
    ensures forall b | b in dirty :: !InLog(g, b)
  {
  }

  lemma NothingYet(g: Geometry, d: Image, lh: seq<int>, cache: Blocks, trace: seq<Image>, target: Blocks)
    requires Fits(g, d)
    ensures SlotsHold(Slots(g, d), lh, cache, 0) && Installed(Home(g, d), lh, Slots(g, d), 0)
    ensures AllRecover(g, trace, |trace|, target)
  {
  }

  lemma LoggedBlock(g: Geometry, d: Image, lh: seq<int>, tail: nat)
    requires Fits(g, d) && Loggable(g, Home(g, d), lh) && tail < |lh|
    ensures lh[tail] in Elements(lh) && 0 <= lh[tail] < |d| && !InLog(g, lh[tail])
    ensures g.start + tail + 1 !in Elements(lh) && Distinct(lh)
    ensures InLog(g, g.start + tail + 1) && g.start + tail + 1 < |d| && |lh| <= |Slots(g, d)|
  {
  }
}
