/**
 The allocator of umalloc.c (section 8.7 of Kernighan and Ritchie, The C Programming Language,
 2nd ed.): a circular, address-ordered free list with first fit and coalescing.

 Addresses and sizes count header-sized units of 8 bytes. `blocks` records every block the heap
 is cut into, free or handed out, with its size; `free` lists the free ones in address order,
 starting with the static header `base` of size 0, which lies below the heap.
 */
module Malloc {
  import opened Basics

  const HEADER: nat := 8
  const MINCORE: nat := 4096

  datatype Heap = Heap(free: seq<int>, blocks: map<int, int>, core: set<int>)

  ghost predicate Sorted(s: seq<int>) {
    forall i, j | 0 <= i < j < |s| :: s[i] < s[j]
  }

  /** Blocks do not overlap. */
  ghost predicate Apart(blocks: map<int, int>) {
    forall a, b | a in blocks && b in blocks && a < b :: a + blocks[a] <= b
  }

  predicate In(blocks: map<int, int>, a: int, u: int) {
    a in blocks && a <= u < a + blocks[a]
  }

  /** Every unit obtained from sbrk is in a block, and every block consists of such units. */
  ghost predicate Conserved(blocks: map<int, int>, core: set<int>) {
    && (forall u | u in core :: exists a :: In(blocks, a, u))
    && (forall a, u | In(blocks, a, u) :: u in core)
  }

  /** A heap that may still have touching free blocks. */
  ghost predicate Weak(base: int, h: Heap) {
    && h.free != [] && h.free[0] == base && Sorted(h.free)
    && (forall i | 0 <= i < |h.free| :: h.free[i] in h.blocks)
    && base in h.blocks && h.blocks[base] == 0
    && (forall a | a in h.blocks && a != base :: base < a && h.blocks[a] >= 1)
    && Apart(h.blocks)
    && Conserved(h.blocks, h.core)
  }

  /** Free blocks i and i+1 do not touch. */
  ghost predicate Gap(h: Heap, i: nat) {
    i + 1 < |h.free| && h.free[i] in h.blocks ==> h.free[i] + h.blocks[h.free[i]] < h.free[i + 1]
  }

  ghost predicate HeapOk(base: int, h: Heap) {
    Weak(base, h) && forall i: nat :: Gap(h, i)
  }

  /** `a` is the header of a block the program holds. */
  predicate Live(h: Heap, a: int) {
    a in h.blocks && a !in h.free
  }

  // ---- Changes of the heap ----

  function Insert(h: Heap, j: nat, b: int): Heap
    requires j < |h.free|
  {
    h.(free := h.free[..j + 1] + [b] + h.free[j + 1..])
  }

  /** Block k of the free list swallows block k + 1. */
  function Merge(h: Heap, k: nat): Heap
    requires k + 1 < |h.free| && h.free[k] in h.blocks && h.free[k + 1] in h.blocks
  {
    var a, b := h.free[k], h.free[k + 1];
    Heap(h.free[..k + 1] + h.free[k + 2..], (h.blocks - {b})[a := h.blocks[a] + h.blocks[b]], h.core)
  }

  /** `b` goes between free blocks j and j + 1. */
  ghost predicate Between(free: seq<int>, j: nat, b: int) {
    j < |free| && free[j] < b && (j + 1 < |free| ==> b < free[j + 1])
  }

  lemma InsertOk(base: int, h: Heap, j: nat, b: int)
    requires Weak(base, h) && b in h.blocks && Between(h.free, j, b)
    ensures Weak(base, Insert(h, j, b))
  {
    hide Conserved, Apart;
    var f := Insert(h, j, b).free;
    forall i | 0 <= i < |f|
      ensures f[i] == if i <= j then h.free[i] else if i == j + 1 then b else h.free[i - 1]
    {
    }
  }

  lemma MergeConserves(blocks: map<int, int>, core: set<int>, a: int, b: int)
    requires Conserved(blocks, core) && a in blocks && b in blocks && a + blocks[a] == b && a < b && blocks[b] >= 0
    ensures Conserved((blocks - {b})[a := blocks[a] + blocks[b]], core)
  {
    var blocks' := (blocks - {b})[a := blocks[a] + blocks[b]];
    forall u | u in core
      ensures exists c :: In(blocks', c, u)
    {
      var c :| In(blocks, c, u);
      if c == a || c == b {
        assert In(blocks', a, u);
      } else {
        assert In(blocks', c, u);
      }
    }
    forall c, u | In(blocks', c, u)
      ensures u in core
    {
      if c == a {
        assert In(blocks, a, u) || In(blocks, b, u);
      } else {
        assert In(blocks, c, u);
      }
    }
  }

  lemma MergeApart(blocks: map<int, int>, a: int, b: int)
    requires Apart(blocks) && a in blocks && b in blocks && a + blocks[a] == b && a < b && blocks[b] >= 0
    requires forall c | c in blocks :: blocks[c] >= 0
    ensures Apart((blocks - {b})[a := blocks[a] + blocks[b]])
  {
  }

  lemma SkipSorted(s: seq<int>, k: nat)
    requires Sorted(s) && k + 1 < |s|
    ensures var t := s[..k + 1] + s[k + 2..];
            Sorted(t) && t[0] == s[0] && s[k] < s[k + 1] && s[0] < s[k + 1]
            && (forall x | x in t :: x in s && x != s[k + 1])
            && (forall x | x in s && x != s[k + 1] :: x in t)
  {
  }

  lemma MergeOk(base: int, h: Heap, k: nat)
    requires Weak(base, h) && 1 <= k && k + 1 < |h.free|
    requires h.free[k] + h.blocks[h.free[k]] == h.free[k + 1]
    ensures Weak(base, Merge(h, k))
  {
    var a, b := h.free[k], h.free[k + 1];
    SkipSorted(h.free, k);
    assert base < a by { assert h.free[0] < h.free[k]; }
    hide Conserved, Apart, Sorted;
    MergeConserves(h.blocks, h.core, a, b);
    MergeApart(h.blocks, a, b);
    var f := Merge(h, k).free;
    forall i | 0 <= i < |f|
      ensures f[i] in Merge(h, k).blocks
    {
      assert f[i] in f;
    }
  }

  predicate Touch(h: Heap, k: nat) {
    && k + 1 < |h.free| && h.free[k] in h.blocks && h.free[k + 1] in h.blocks
    && h.free[k] + h.blocks[h.free[k]] == h.free[k + 1]
  }

  /** Merges free blocks k and k + 1 when they touch. */
  function Joined(h: Heap, k: nat): Heap {
    if Touch(h, k) then Merge(h, k) else h
  }

  /** What free does: insert, then join with the block above and with the block below. */
  function Released(h: Heap, j: nat, b: int): Heap
    requires j < |h.free|
  {
    Joined(Joined(Insert(h, j, b), j + 1), j)
  }

  lemma InsertGaps(h: Heap, j: nat, b: int)
    requires j < |h.free| && forall i: nat :: Gap(h, i)
    ensures forall i: nat | i != j && i != j + 1 :: Gap(Insert(h, j, b), i)
  {
    forall i: nat | i != j && i != j + 1
      ensures Gap(Insert(h, j, b), i)
    {
      assert Gap(h, if i < j then i else i - 1);
    }
  }

  /** Joining at k closes the possible touch there; only a touch further down, at `lo`, may remain. */
  lemma JoinedGaps(base: int, h: Heap, k: nat, lo: nat)
    requires Weak(base, h) && (lo < k || lo >= |h.free|)
    requires forall i: nat | i != k && i != lo :: Gap(h, i)
    ensures forall i: nat | i != lo :: Gap(Joined(h, k), i)
  {
    hide Conserved;
    var h' := Joined(h, k);
    forall i: nat | i != lo
      ensures Gap(h', i)
    {
      if !Touch(h, k) {
        if i == k && k + 1 < |h.free| {
          assert h.free[k] < h.free[k + 1];
        } else {
          assert Gap(h, i);
        }
      } else if i < k {
        assert Gap(h, i);
        if i + 1 < |h.free| { assert h.free[i] != h.free[k] && h.free[i] != h.free[k + 1]; }
      } else {
        assert Gap(h, i + 1);
        if i > k && i + 2 < |h.free| { assert h.free[i + 1] != h.free[k] && h.free[i + 1] != h.free[k + 1]; }
      }
    }
  }

  lemma JoinedOk(base: int, h: Heap, k: nat)
    requires Weak(base, h)
    ensures Weak(base, Joined(h, k)) && Joined(h, k).core == h.core
    ensures |Joined(h, k).free| == |h.free| || |Joined(h, k).free| == |h.free| - 1
    ensures k < |h.free| ==> k < |Joined(h, k).free| && Joined(h, k).free[..k + 1] == h.free[..k + 1]
    ensures forall a :: Live(Joined(h, k), a) <==> Live(h, a)
    ensures forall a | Live(h, a) :: Joined(h, k).blocks[a] == h.blocks[a]
  {
    if Touch(h, k) {
      MergeOk(base, h, k);
      SkipSorted(h.free, k);
      hide Conserved, Apart, Sorted;
      assert h.free[k] in h.free;
    }
  }

  /** Freeing a held block gives a proper heap again, with nothing lost and no two free blocks touching. */
  lemma ReleasedOk(base: int, h: Heap, j: nat, b: int)
    requires HeapOk(base, h) && Live(h, b) && Between(h.free, j, b)
    ensures HeapOk(base, Released(h, j, b)) && Released(h, j, b).core == h.core
    ensures forall a :: Live(Released(h, j, b), a) <==> Live(h, a) && a != b
    ensures forall a | Live(h, a) && a != b :: Released(h, j, b).blocks[a] == h.blocks[a]
    ensures j < |Released(h, j, b).free| && Released(h, j, b).free[j] == h.free[j]
  {
    var h1 := Insert(h, j, b);
    InsertOk(base, h, j, b);
    InsertGaps(h, j, b);
    assert forall a :: Live(h1, a) <==> Live(h, a) && a != b;
    assert base < b by { assert h.free[0] <= h.free[j]; }
    hide Conserved, Apart, Sorted, Insert, Gap, Joined, Live, Weak;
    var h2 := Joined(h1, j + 1);
    JoinedOk(base, h1, j + 1);
    JoinedGaps(base, h1, j + 1, j);
    assert h2.free[..j + 2] == h1.free[..j + 2];
    assert h2.free[j] == h1.free[..j + 2][j] && h2.free[j + 1] == h1.free[..j + 2][j + 1];
    assert h1.free[j] == h.free[j] && h1.free[j + 1] == b by { InsertAt(h, j, b); }
    JoinedOk(base, h2, j);
    JoinedGaps(base, h2, j, |h2.free|);
    var h3 := Joined(h2, j);
    assert h3.free[..j + 1] == h2.free[..j + 1];
    assert h3.free[j] == h2.free[..j + 1][j];
    assert Gap(h3, |h2.free|) by { LastGap(h3, |h2.free|); }
  }

  lemma InsertAt(h: Heap, j: nat, b: int)
    requires j < |h.free|
    ensures |Insert(h, j, b).free| == |h.free| + 1
    ensures Insert(h, j, b).free[j] == h.free[j] && Insert(h, j, b).free[j + 1] == b
  {
  }

  lemma LastGap(h: Heap, i: nat)
    requires i + 1 >= |h.free|
    ensures Gap(h, i)
  {
  }

  // ---- Allocating ----

  function TakeWhole(h: Heap, k: nat): Heap
    requires k < |h.free|
  {
    h.(free := h.free[..k] + h.free[k + 1..])
  }

  /** Cuts the last n units off free block k. */
  function TakeTail(h: Heap, k: nat, n: int): Heap
    requires k < |h.free| && h.free[k] in h.blocks
  {
    var a := h.free[k];
    h.(blocks := h.blocks[a := h.blocks[a] - n][a + h.blocks[a] - n := n])
  }

  lemma TakeWholeGap(h: Heap, k: nat, i: nat)
    requires Sorted(h.free) && 1 <= k < |h.free| && Gap(h, i) && Gap(h, i + 1)
    requires h.free[k - 1] in h.blocks
    ensures Gap(TakeWhole(h, k), i)
  {
    if i == k - 1 && k + 1 < |h.free| {
      assert h.free[k - 1] < h.free[k] < h.free[k + 1];
    }
  }

  lemma TakeWholeOk(base: int, h: Heap, k: nat)
    requires HeapOk(base, h) && 1 <= k < |h.free|
    ensures HeapOk(base, TakeWhole(h, k)) && !Live(h, h.free[k])
    ensures forall a :: Live(TakeWhole(h, k), a) <==> Live(h, a) || a == h.free[k]
  {
    var h' := TakeWhole(h, k);
    SkipSorted(h.free, k - 1);
    forall i: nat
      ensures Gap(h', i)
    {
      TakeWholeGap(h, k, i);
    }
    hide Conserved, Apart, Sorted, Gap;
    forall i | 0 <= i < |h'.free|
      ensures h'.free[i] in h'.blocks
    {
      assert h'.free[i] in h'.free;
    }
    assert h.free[k] in h.free && h.free[k] in h.blocks;
  }

  lemma TailConserves(blocks: map<int, int>, core: set<int>, a: int, n: int)
    requires Conserved(blocks, core) && a in blocks && 0 < n < blocks[a] && a + blocks[a] - n !in blocks
    ensures Conserved(blocks[a := blocks[a] - n][a + blocks[a] - n := n], core)
  {
    var blocks', t := blocks[a := blocks[a] - n][a + blocks[a] - n := n], a + blocks[a] - n;
    forall u | u in core
      ensures exists c :: In(blocks', c, u)
    {
      var c :| In(blocks, c, u);
      assert In(blocks', c, u) || In(blocks', t, u);
    }
    forall c, u | In(blocks', c, u)
      ensures u in core
    {
      assert In(blocks, if c == t then a else c, u);
    }
  }

  lemma TakeTailOk(base: int, h: Heap, k: nat, n: int)
    requires HeapOk(base, h) && 1 <= k < |h.free| && 0 < n < h.blocks[h.free[k]]
    ensures var t := h.free[k] + h.blocks[h.free[k]] - n;
            && t !in h.blocks && !Live(h, t) && HeapOk(base, TakeTail(h, k, n))
            && (forall a :: Live(TakeTail(h, k, n), a) <==> Live(h, a) || a == t)
            && (forall a | Live(h, a) :: a in TakeTail(h, k, n).blocks && TakeTail(h, k, n).blocks[a] == h.blocks[a])
  {
    var a := h.free[k];
    var t := a + h.blocks[a] - n;
    assert base < a by { assert h.free[0] < h.free[k]; }
    assert t !in h.blocks;
    TailConserves(h.blocks, h.core, a, n);
    hide Conserved;
    var h' := TakeTail(h, k, n);
    assert forall i | 0 <= i < |h.free| :: h.free[i] != t;
    assert Apart(h'.blocks);
    forall i: nat
      ensures Gap(h', i)
    {
      assert Gap(h, i);
    }
    assert a in h.free;
  }

  // ---- Memory from sbrk ----

  function Units(addr: int, n: nat): (s: set<int>)
    ensures forall u :: u in s <==> addr <= u < addr + n
  {
    if n == 0 then {} else Units(addr, n - 1) + {addr + n - 1}
  }

  /** sbrk hands out memory above everything it handed out before. */
  ghost predicate Fresh(base: int, h: Heap, addr: int) {
    base < addr && forall u | u in h.core :: u < addr
  }

  /** The new memory as one block that morecore then frees. */
  function Granted(h: Heap, addr: int, n: nat): Heap {
    h.(blocks := h.blocks[addr := n], core := h.core + Units(addr, n))
  }

  lemma GrantConserves(blocks: map<int, int>, core: set<int>, addr: int, n: nat)
    requires Conserved(blocks, core) && addr !in blocks
    ensures Conserved(blocks[addr := n], core + Units(addr, n))
  {
    var blocks', core' := blocks[addr := n], core + Units(addr, n);
    forall u | u in core'
      ensures exists c :: In(blocks', c, u)
    {
      if u in core {
        var c :| In(blocks, c, u);
        assert In(blocks', c, u);
      } else {
        assert In(blocks', addr, u);
      }
    }
    forall c, u | In(blocks', c, u)
      ensures u in core'
    {
      if c != addr { assert In(blocks, c, u); }
    }
  }

  lemma GrantedOk(base: int, h: Heap, addr: int, n: nat)
    requires HeapOk(base, h) && Fresh(base, h, addr) && n >= 1
    ensures HeapOk(base, Granted(h, addr, n)) && Live(Granted(h, addr, n), addr)
    ensures forall a :: Live(Granted(h, addr, n), a) <==> Live(h, a) || a == addr
    ensures forall a | Live(h, a) :: a != addr && Granted(h, addr, n).blocks[a] == h.blocks[a]
  {
    var h' := Granted(h, addr, n);
    forall a | a in h.blocks
      ensures a < addr && a + h.blocks[a] <= addr
    {
      if a != base {
        assert In(h.blocks, a, a + h.blocks[a] - 1);
      }
    }
    GrantConserves(h.blocks, h.core, addr, n);
    hide Conserved;
    forall i: nat
      ensures Gap(h', i)
    {
      assert Gap(h, i);
    }
    assert forall i | 0 <= i < |h.free| :: h.free[i] != addr;
  }

  // ---- Links ----

  /** The s.ptr fields make a circle through `s`. */
  ghost predicate Linked(ptr: map<int, int>, s: seq<int>) {
    s != [] && forall i: nat :: LinkAt(ptr, s, i)
  }

  ghost predicate LinkAt(ptr: map<int, int>, s: seq<int>, i: nat) {
    i < |s| ==> s[i] in ptr && ptr[s[i]] == s[Succ(i, |s|)]
  }

  function Succ(i: nat, n: nat): nat {
    if i + 1 < n then i + 1 else 0
  }

  lemma LinkInsert(ptr: map<int, int>, s: seq<int>, j: nat, b: int)
    requires Linked(ptr, s) && Sorted(s) && Between(s, j, b) && LinkAt(ptr, s, j)
    ensures s[j] in ptr
    ensures Linked(ptr[b := ptr[s[j]]][s[j] := b], s[..j + 1] + [b] + s[j + 1..])
  {
    var ptr', s' := ptr[b := ptr[s[j]]][s[j] := b], s[..j + 1] + [b] + s[j + 1..];
    assert LinkAt(ptr, s, j);
    forall i: nat
      ensures LinkAt(ptr', s', i)
    {
      if i < j {
        assert LinkAt(ptr, s, i) && s[i] < s[j];
      } else if j + 1 < i < |s'| {
        assert LinkAt(ptr, s, i - 1) && s[j] < s[i - 1];
        assert b < s[i - 1] by { if i - 1 > j + 1 { assert s[j + 1] < s[i - 1]; } }
      }
    }
  }

  lemma LinkSkip(ptr: map<int, int>, s: seq<int>, k: nat)
    requires Linked(ptr, s) && Sorted(s) && k + 1 < |s| && LinkAt(ptr, s, k + 1)
    ensures s[k + 1] in ptr
    ensures Linked(ptr[s[k] := ptr[s[k + 1]]], s[..k + 1] + s[k + 2..])
  {
    var ptr', s' := ptr[s[k] := ptr[s[k + 1]]], s[..k + 1] + s[k + 2..];
    forall i: nat
      ensures LinkAt(ptr', s', i)
    {
      if i < k {
        assert LinkAt(ptr, s, i) && s[i] < s[k];
      } else if k < i < |s'| {
        assert LinkAt(ptr, s, i + 1) && s[k] < s[i + 1];
      }
    }
  }

  ghost predicate SizesIn(size: map<int, int>, blocks: map<int, int>) {
    forall a | a in blocks :: a in size && size[a] == blocks[a]
  }

  // ---- Searching ----

  /** Steps from position k of a circle of n to position f. */
  function Distance(k: nat, f: nat, n: nat): nat
    requires k < n && f < n
  {
    if k <= f then f - k else n - k + f
  }

  /** Some block on the way from k to f, both included, has at least n units. */
  ghost predicate FitsAhead(h: Heap, k: nat, f: nat, n: int) {
    exists i: nat :: OnTheWay(i, k, f) && BigEnough(h, i, n)
  }

  predicate OnTheWay(i: nat, k: nat, f: nat) {
    if k <= f then k <= i <= f else i >= k || i <= f
  }

  /** Nothing fits in the part of the circle already passed. */
  ghost predicate Tried(h: Heap, k: nat, f: nat, n: int) {
    forall i: nat | !OnTheWay(i, k, f) :: !BigEnough(h, i, n)
  }

  ghost predicate NoFit(h: Heap, n: int) {
    forall i: nat :: !BigEnough(h, i, n)
  }

  predicate BigEnough(h: Heap, i: nat, n: int) {
    i < |h.free| && h.free[i] in h.blocks && h.blocks[h.free[i]] >= n
  }

  lemma StepAhead(h: Heap, k: nat, f: nat, n: int)
    requires k < |h.free| && f < |h.free| && k != f
    ensures Distance(Succ(k, |h.free|), f, |h.free|) == Distance(k, f, |h.free|) - 1
    ensures FitsAhead(h, k, f, n) && !BigEnough(h, k, n) ==> FitsAhead(h, Succ(k, |h.free|), f, n)
  {
    if FitsAhead(h, k, f, n) && !BigEnough(h, k, n) {
      var i: nat :| OnTheWay(i, k, f) && BigEnough(h, i, n);
      assert OnTheWay(i, Succ(k, |h.free|), f);
    }
  }

  /** The place for b: the last free block below it. */
  lemma FindPlace(free: seq<int>, b: int) returns (j: nat)
    requires Sorted(free) && free != [] && free[0] < b && b !in free
    ensures Between(free, j, b)
  {
    j := 0;
    while j + 1 < |free| && free[j + 1] < b
      invariant j < |free| && free[j] < b
    {
      j := j + 1;
    }
  }

  /** The test of free's search loop holds exactly at that place. */
  lemma AtPlace(free: seq<int>, b: int, j: nat, k: nat)
    requires Sorted(free) && free != [] && free[0] < b && b !in free && Between(free, j, b) && k < |free|
    ensures var p, next := free[k], free[Succ(k, |free|)];
            ((p < b && b < next) || (p >= next && (b > p || b < next))) <==> k == j
  {
    if k < j {
      assert free[k + 1] <= free[j];
    } else if k > j {
      assert free[j + 1] <= free[k];
    }
  }

  /** After morecore the rover stands at, or right before, a block that is big enough. */
  lemma GrantFits(base: int, h: Heap, j: nat, b: int, n: int)
    requires HeapOk(base, h) && Live(h, b) && Between(h.free, j, b) && h.blocks[b] >= n
    ensures var h' := Released(h, j, b);
            j < |h'.free| && FitsAhead(h', Succ(j, |h'.free|), j, n)
  {
    ReleasedOk(base, h, j, b);
    var h1 := Insert(h, j, b);
    InsertAt(h, j, b);
    InsertOk(base, h, j, b);
    assert BigEnough(h1, j + 1, n);
    hide Conserved, Apart, Sorted, Insert, Gap;
    var h2 := Joined(h1, j + 1);
    JoinedBig(base, h1, j + 1, j + 1, n);
    JoinedOk(base, h1, j + 1);
    JoinedBig(base, h2, j, j + 1, n);
    var h3 := Joined(h2, j);
    var i := if BigEnough(h3, j + 1, n) then j + 1 else j;
    assert BigEnough(h3, i, n);
    assert OnTheWay(i, Succ(j, |h3.free|), j);
  }

  lemma JoinedBig(base: int, h: Heap, k: nat, i: nat, n: int)
    requires Weak(base, h) && BigEnough(h, i, n) && k <= i <= k + 1
    ensures BigEnough(Joined(h, k), i, n) || BigEnough(Joined(h, k), k, n)
  {
    hide Conserved, Apart;
  }

  // ---- The allocator ----

  /** malloc's request in units, with the 32-bit sum. */
  function NUnits(nbytes: nat): (n: nat)
    ensures n >= 1
  {
    (nbytes + HEADER - 1) % UINT / HEADER + 1
  }

  /** The units asked for are just enough to hold nbytes after the header, except when nbytes + 7 overflows. */
  lemma RequestFits(nbytes: nat)
    requires nbytes < UINT
    ensures (NUnits(nbytes) - 1) * HEADER >= nbytes <==> nbytes + HEADER - 1 < UINT
    ensures (NUnits(nbytes) - 2) * HEADER < nbytes
  {
    if nbytes + HEADER - 1 < UINT {
      assert (nbytes + HEADER - 1) % UINT == nbytes + HEADER - 1;
    } else {
      assert (nbytes + HEADER - 1) % UINT == nbytes + HEADER - 1 - UINT;
    }
  }

  /** What morecore asks sbrk for. */
  function CoreUnits(nu: nat): nat {
    if nu < MINCORE then MINCORE else nu
  }

  /** What sbrk is called with for that many units: the 32-bit product, read as a signed number. */
  function SbrkArg(units: nat): int {
    var n := units * HEADER % UINT;
    if n < UINT / 2 then n else n - UINT
  }

  /** sbrk is asked for the units meant exactly below 2 GB. */
  lemma SbrkArgIs(units: nat)
    requires units < UINT
    ensures SbrkArg(units) == units * HEADER <==> units * HEADER < UINT / 2
  {
    if units * HEADER < UINT {
      assert units * HEADER % UINT == units * HEADER;
    }
  }

  /** sbrk's answer: memory above all obtained before, for as many bytes as it was called with. */
  ghost predicate Grants(base: int, h: Heap, grant: Option<int>, units: nat) {
    grant.Some? ==> Fresh(base, h, grant.value) && SbrkArg(units) == units * HEADER
  }

  class Allocator {
    const base: int
    var ptr: map<int, int>   // s.ptr of every header written so far
    var size: map<int, int>  // s.size of every header written so far
    var freep: int           // 0 before the first call
    ghost var heap: Heap

    ghost predicate Valid()
      reads this
    {
      && base > 0 && HeapOk(base, heap)
      && (if freep == 0 then heap == Heap([base], map[base := 0], {})
          else freep in heap.free && Linked(ptr, heap.free) && SizesIn(size, heap.blocks))
    }

    constructor (base: int)
      requires base > 0
      ensures Valid() && this.base == base && freep == 0 && heap.core == {}
    {
      this.base, ptr, size, freep := base, map[], map[], 0;
      heap := Heap([base], map[base := 0], {});
    }

    /** The search loop of free: goes round the circle to the last free block below `bp`. */
    method Locate(bp: int) returns (p: int, ghost j: nat)
      requires Valid() && Live(heap, bp)
      ensures Between(heap.free, j, bp) && p == heap.free[j] && freep != 0
    {
      hide Conserved, Apart, Gap, Live, HeapOk, Linked, SizesIn, Weak, Sorted, Distance;
      LiveAbove(base, heap, bp);
      HeapFacts(base, heap, freep);
      j := FindPlace(heap.free, bp);
      ghost var k: nat :| k < |heap.free| && heap.free[k] == freep;
      p := freep;
      LinkedAt(ptr, heap.free, k);
      AtPlace(heap.free, bp, j, k);
      while !(bp > p && bp < ptr[p])
        invariant k < |heap.free| && p == heap.free[k] && LinkAt(ptr, heap.free, k)
        invariant ((p < bp && bp < ptr[p]) || (p >= ptr[p] && (bp > p || bp < ptr[p]))) <==> k == j
        decreases Distance(k, j, |heap.free|)
      {
        if p >= ptr[p] && (bp > p || bp < ptr[p]) {
          break;
        }
        ghost var k' := Succ(k, |heap.free|);
        LinkedAt(ptr, heap.free, k');
        AtPlace(heap.free, bp, j, k');
        StepAhead(heap, k, j, 0);
        p := ptr[p];
        k := k';
      }
    }

    /** Gives a held block back; every other held block keeps its address and size. */
    method Free(ap: int)
      requires Valid() && Live(heap, ap - 1)
      modifies this
      ensures Valid() && freep != 0 && heap.core == old(heap.core)
      ensures forall a :: Live(heap, a) <==> Live(old(heap), a) && a != ap - 1
      ensures forall a | Live(heap, a) :: a in old(heap).blocks && heap.blocks[a] == old(heap).blocks[a]
      ensures exists j: nat :: Between(old(heap.free), j, ap - 1) && freep == old(heap.free)[j]
                               && heap == Released(old(heap), j, ap - 1)
    {
      hide Conserved, Apart, Gap, Released, Insert, Joined, HeapOk, Linked, SizesIn, Weak, Sorted;
      var bp := ap - 1;
      ghost var h := heap;
      var p, j := Locate(bp);
      LinkedAt(ptr, h.free, j);
      LinkReleased(base, h, ptr, size, j, bp);
      ReleasedOk(base, h, j, bp);
      var next := ptr[p];
      if bp + size[bp] == next {
        size := size[bp := size[bp] + size[next]];
        ptr := ptr[bp := ptr[next]];
      } else {
        ptr := ptr[bp := next];
      }
      if p + size[p] == bp {
        size := size[p := size[p] + size[bp]];
        ptr := ptr[p := ptr[bp]];
      } else {
        ptr := ptr[p := bp];
      }
      assert ptr == FreedPtr(old(ptr), old(size), p, bp) && size == FreedSize(old(ptr), old(size), p, bp);
      heap := Released(h, j, bp);
      freep := p;
      assert freep == heap.free[j];
      HeapFacts(base, heap, freep);
    }

    /** Asks sbrk for at least 4096 units and frees them into the list; `grant` is sbrk's answer. */
    method Morecore(nu: nat, grant: Option<int>) returns (p: int)
      requires Valid() && freep != 0 && nu >= 1 && Grants(base, heap, grant, CoreUnits(nu))
      modifies this
      ensures Valid() && freep != 0 && (p == 0 <==> grant.None?)
      ensures grant.None? ==> heap == old(heap)
      ensures grant.Some? ==>
                && p == freep && CoreUnits(nu) == Max(nu, 4096)
                && heap.core == old(heap.core) + Units(grant.value, CoreUnits(nu))
                && exists j: nat ::
                   j < |heap.free| && freep == heap.free[j] && FitsAhead(heap, Succ(j, |heap.free|), j, nu)
      ensures SameLive(old(heap), heap)
    {
      hide Conserved, Apart, Gap, HeapOk, Linked, Weak, Sorted, Released, Live, FitsAhead, Fresh, Units, SbrkArg;
      if grant.None? {
        return 0;
      }
      var units := CoreUnits(nu);
      var hp := grant.value;
      GrantedOk(base, heap, hp, units);
      size := size[hp := units];
      heap := Granted(heap, hp, units);
      ghost var h := heap;
      Free(hp + 1);
      ghost var j: nat :| Between(h.free, j, hp) && freep == h.free[j] && heap == Released(h, j, hp);
      GrantFits(base, h, j, hp, nu);
      ReleasedOk(base, h, j, hp);
      HeapFacts(base, heap, freep);
      assert heap.free[j] == freep;
      p := freep;
    }

    /** Takes nunits from free block p, the successor of prevp: all of it, or its tail. */
    method Carve(prevp: int, block: int, nunits: nat, ghost k: nat) returns (r: int)
      requires Valid() && freep != 0 && nunits >= 1 && 1 <= k < |heap.free| && heap.free[k] == block
               && prevp == heap.free[k - 1]
      requires BigEnough(heap, k, nunits)
      modifies this
      ensures Valid() && r != 0 && heap.core == old(heap.core) && NewLive(old(heap), heap, r - 1, nunits)
    {
      hide Conserved, Apart, Gap, HeapOk, Linked, LinkAt, Weak, Sorted, Live, NewLive, SizesIn, BigEnough;
      ghost var h := heap;
      var p := block;
      SizeAt(base, h, size, k, nunits);
      SizeAt(base, h, size, k - 1, nunits);
      Positive(base, h, k);
      LinkedAt(ptr, h.free, k);
      LiveInBlocks(h);
      StillLive(h);
      if size[p] == nunits {
        TakeWholeOk(base, h, k);
        TakeWholeLinks(base, h, ptr, k);
        ptr := ptr[prevp := ptr[p]];
        heap := TakeWhole(h, k);
      } else {
        TakeTailOk(base, h, k, nunits);
        TakeTailSizes(h, size, k, nunits);
        size := size[p := size[p] - nunits];
        p := p + size[p];
        size := size[p := nunits];
        heap := TakeTail(h, k, nunits);
      }
      Taken(h, h, heap, p, nunits);
      freep := prevp;
      return p + 1;
    }

    /** The same, seen from before sbrk was asked. */
    method CarveSince(prevp: int, block: int, nunits: nat, ghost k: nat, ghost h: Heap) returns (r: int)
      requires Valid() && freep != 0 && nunits >= 1 && 1 <= k < |heap.free| && heap.free[k] == block
               && Precedes(heap.free, prevp, k)
      requires BigEnough(heap, k, nunits) && SameLive(h, heap)
      modifies this
      ensures Valid() && r != 0 && heap.core == old(heap.core) && NewLive(h, heap, r - 1, nunits)
    {
      hide Conserved, Apart, Gap, HeapOk, Linked, LinkAt, Weak, Sorted, Live, Fresh, Units, SameLive, NewLive, SizesIn,
           BigEnough, Precedes;
      PrecedesAt(heap.free, prevp, k);
      r := Carve(prevp, block, nunits, k);
      NewLiveTrans(h, old(heap), heap, r - 1, nunits);
    }

    /** First fit from the rover on, asking sbrk at most once; returns 0 only when sbrk fails. */
    method Malloc(nbytes: nat, grant: Option<int>) returns (r: int)
      requires Valid() && nbytes < UINT && Grants(base, heap, grant, CoreUnits(NUnits(nbytes)))
      modifies this
      ensures Valid()
      ensures r == 0 ==> grant.None? && SameLive(old(heap), heap) && heap.core == old(heap.core)
      ensures r != 0 ==> NewLive(old(heap), heap, r - 1, NUnits(nbytes))
      ensures heap.core == old(heap.core)
              || (grant.Some? && heap.core == old(heap.core) + Units(grant.value, CoreUnits(NUnits(nbytes))))
      ensures r == 0 || heap.core != old(heap.core) ==> NoFit(old(heap), NUnits(nbytes))
    {
      hide Conserved, Apart, Gap, HeapOk, Linked, LinkAt, Weak, Sorted, Live, FitsAhead, Fresh, Units, SameLive,
           NewLive;
      hide SizesIn, NUnits, Distance, BigEnough, Tried, NoFit, CoreUnits, OnTheWay, Precedes, Succ, SbrkArg;
      var nunits := NUnits(nbytes);
      StillLive(heap);
      if freep == 0 {
        ptr, size, freep := ptr[base := base], size[base := 0], base;
        FirstLinks(ptr, size, base);
      }
      var prevp := freep;
      ghost var grown := false;
      ghost var f: nat :| f < |heap.free| && heap.free[f] == freep;
      ghost var k: nat := Succ(f, |heap.free|);
      NextOf(ptr, heap.free, f);
      StartTried(heap, f, nunits);
      var p := ptr[prevp];
      while true
        invariant Valid() && freep != 0 && k < |heap.free| && f < |heap.free| && heap.free[f] == freep
                  && heap.free[k] == p
        invariant Precedes(heap.free, prevp, k) && SameLive(old(heap), heap)
        invariant !grown ==> heap == old(heap) && Tried(heap, k, f, nunits)
        invariant grown ==> FitsAhead(heap, k, f, nunits) && NoFit(old(heap), nunits)
        invariant grown ==> grant.Some? && heap.core == old(heap.core) + Units(grant.value, CoreUnits(nunits))
        decreases if grown then 0 else 1, Distance(k, f, |heap.free|)
      {
        HeapFacts(base, heap, p);
        SizeAt(base, heap, size, k, nunits);
        if size[p] >= nunits {
          r := CarveSince(prevp, p, nunits, k, old(heap));
          return;
        }
        SamePlace(base, heap, k, f);
        if p == freep {
          AllTried(heap, k, nunits, grown);
          p := Morecore(nunits, grant);
          SameLiveTrans(old(heap), old(heap), heap);
          if p == 0 {
            return 0;
          }
          grown := true;
          f :| f < |heap.free| && freep == heap.free[f] && FitsAhead(heap, Succ(f, |heap.free|), f, nunits);
          k := f;
        } else {
          StepAhead(heap, k, f, nunits);
        }
        NextOf(ptr, heap.free, k);
        StepTried(heap, k, f, nunits);
        prevp := p;
        p := ptr[p];
        k := Succ(k, |heap.free|);
      }
    }
  }

  /** The program holds the same blocks with the same sizes. */
  ghost predicate SameLive(h: Heap, h': Heap) {
    forall a :: (Live(h', a) <==> Live(h, a)) && (Live(h, a) ==> h'.blocks[a] == h.blocks[a])
  }

  /** The program holds one block more, of n units. */
  ghost predicate NewLive(h: Heap, h': Heap, b: int, n: int) {
    && Live(h', b) && !Live(h, b) && h'.blocks[b] == n
    && forall a | a != b :: (Live(h', a) <==> Live(h, a)) && (Live(h, a) ==> h'.blocks[a] == h.blocks[a])
  }

  /** prevp is the element before position k of the circle. */
  ghost predicate Precedes(s: seq<int>, prevp: int, k: nat) {
    k < |s| && prevp == s[if k == 0 then |s| - 1 else k - 1]
  }

  lemma SizeAt(base: int, h: Heap, size: map<int, int>, k: nat, n: int)
    requires HeapOk(base, h) && SizesIn(size, h.blocks) && k < |h.free| && n >= 1
    ensures h.free[k] in size && h.free[k] in h.blocks && size[h.free[k]] == h.blocks[h.free[k]]
    ensures BigEnough(h, k, n) <==> size[h.free[k]] >= n
    ensures size[h.free[k]] >= n ==> k >= 1
  {
  }

  lemma SamePlace(base: int, h: Heap, k: nat, f: nat)
    requires HeapOk(base, h) && k < |h.free| && f < |h.free|
    ensures h.free[k] == h.free[f] <==> k == f
  {
  }

  /** Back at the rover with nothing found, nothing fits; after sbrk has helped this cannot happen. */
  lemma AllTried(h: Heap, k: nat, n: int, grown: bool)
    requires !BigEnough(h, k, n)
    requires !grown ==> Tried(h, k, k, n)
    requires grown ==> FitsAhead(h, k, k, n)
    ensures !grown && NoFit(h, n)
  {
    forall i: nat
      ensures !grown ==> !BigEnough(h, i, n)
    {
      if i != k { assert !OnTheWay(i, k, k); }
    }
  }

  lemma StepTried(h: Heap, k: nat, f: nat, n: int)
    requires k < |h.free| && f < |h.free|
    ensures k != f && !BigEnough(h, k, n) && Tried(h, k, f, n) ==> Tried(h, Succ(k, |h.free|), f, n)
    ensures Succ(k, |h.free|) < |h.free| && Precedes(h.free, h.free[k], Succ(k, |h.free|))
  {
  }

  lemma TakeWholeLinks(base: int, h: Heap, ptr: map<int, int>, k: nat)
    requires HeapOk(base, h) && Linked(ptr, h.free) && 1 <= k < |h.free|
    ensures h.free[k] in ptr && Linked(ptr[h.free[k - 1] := ptr[h.free[k]]], TakeWhole(h, k).free)
    ensures h.free[k - 1] in TakeWhole(h, k).free
  {
    hide Conserved, Apart, Gap;
    assert LinkAt(ptr, h.free, k);
    LinkSkip(ptr, h.free, k - 1);
    assert TakeWhole(h, k).free[k - 1] == h.free[k - 1];
  }

  lemma TakeTailSizes(h: Heap, size: map<int, int>, k: nat, n: int)
    requires SizesIn(size, h.blocks) && k < |h.free| && h.free[k] in h.blocks
    ensures var a := h.free[k];
            var size1 := size[a := size[a] - n];
            SizesIn(size1[a + size1[a] := n], TakeTail(h, k, n).blocks)
  {
  }

  lemma SameLiveTrans(h: Heap, h1: Heap, h2: Heap)
    requires SameLive(h, h1) && SameLive(h1, h2)
    ensures SameLive(h, h2)
  {
  }

  lemma Taken(h0: Heap, h: Heap, h': Heap, b: int, n: int)
    requires SameLive(h0, h) && !Live(h, b) && b in h'.blocks && h'.blocks[b] == n
    requires forall a :: Live(h', a) <==> Live(h, a) || a == b
    requires forall a | Live(h, a) :: a in h'.blocks && h'.blocks[a] == h.blocks[a]
    ensures NewLive(h0, h', b, n)
  {
  }

  lemma FirstLinks(ptr: map<int, int>, size: map<int, int>, base: int)
    requires base in ptr && ptr[base] == base && base in size && size[base] == 0
    ensures Linked(ptr, [base]) && SizesIn(size, map[base := 0])
  {
  }

  lemma LiveInBlocks(h: Heap)
    ensures forall a | Live(h, a) :: a in h.blocks
  {
  }

  lemma Positive(base: int, h: Heap, k: nat)
    requires HeapOk(base, h) && 1 <= k < |h.free|
    ensures base <= h.free[k - 1] && base < h.free[k] && h.free[k - 1] in h.free
  {
    assert h.free[0] <= h.free[k - 1] && h.free[0] < h.free[k];
  }

  lemma StartTried(h: Heap, f: nat, n: int)
    requires f < |h.free|
    ensures Succ(f, |h.free|) < |h.free| && Precedes(h.free, h.free[f], Succ(f, |h.free|))
    ensures Tried(h, Succ(f, |h.free|), f, n)
  {
  }

  lemma NewLiveTrans(h: Heap, h1: Heap, h2: Heap, b: int, n: int)
    requires SameLive(h, h1) && NewLive(h1, h2, b, n)
    ensures NewLive(h, h2, b, n)
  {
  }

  lemma PrecedesAt(s: seq<int>, prevp: int, k: nat)
    requires Precedes(s, prevp, k) && k >= 1
    ensures prevp == s[k - 1]
  {
  }

  lemma StillLive(h: Heap)
    ensures SameLive(h, h)
  {
  }

  lemma NextOf(ptr: map<int, int>, s: seq<int>, i: nat)
    requires Linked(ptr, s) && i < |s|
    ensures s[i] in ptr && ptr[s[i]] == s[Succ(i, |s|)]
  {
    assert LinkAt(ptr, s, i);
  }

  lemma LinkedAt(ptr: map<int, int>, s: seq<int>, i: nat)
    requires Linked(ptr, s)
    ensures LinkAt(ptr, s, i)
  {
  }

  lemma HeapFacts(base: int, h: Heap, freep: int)
    requires HeapOk(base, h)
    ensures Sorted(h.free) && h.free != [] && h.free[0] == base && freep in h.free ==> freep >= base
    ensures Sorted(h.free) && h.free != [] && h.free[0] == base && base in h.blocks && h.blocks[base] == 0
  {
  }

  lemma LiveAbove(base: int, h: Heap, b: int)
    requires HeapOk(base, h) && Live(h, b)
    ensures h.free[0] < b && b !in h.free && b in h.blocks
    ensures |h.free| == 1 && h.blocks == map[base := 0] ==> false
  {
    assert h.free[0] in h.free;
  }

  /** The pointer and size fields after free's two joins, as the code writes them. */
  function FreedPtr(ptr: map<int, int>, size: map<int, int>, p: int, b: int): map<int, int>
    requires p in ptr && ptr[p] in ptr && b in size && p in size
  {
    var next := ptr[p];
    var own := if b + size[b] == next then ptr[next] else next;
    var ptr1 := ptr[b := own];
    if p + size[p] == b then ptr1[p := own] else ptr1[p := b]
  }

  function FreedSize(ptr: map<int, int>, size: map<int, int>, p: int, b: int): map<int, int>
    requires p in ptr && ptr[p] in size && b in size && p in size
  {
    var next := ptr[p];
    var own := if b + size[b] == next then size[b] + size[next] else size[b];
    var size1 := size[b := own];
    if p + size[p] == b then size1[p := size1[p] + own] else size1
  }

  /** The header fields after joining free blocks k and k + 1, if they touch. */
  function JoinPtr(h: Heap, ptr: map<int, int>, k: nat): map<int, int>
    requires Touch(h, k) ==> h.free[k + 1] in ptr
  {
    if !Touch(h, k) then ptr else ptr[h.free[k] := ptr[h.free[k + 1]]]
  }

  function JoinSize(h: Heap, size: map<int, int>, k: nat): map<int, int>
    requires Touch(h, k) ==> h.free[k] in size && h.free[k + 1] in size
  {
    if !Touch(h, k) then size else size[h.free[k] := size[h.free[k]] + size[h.free[k + 1]]]
  }

  lemma JoinLinks(base: int, h: Heap, ptr: map<int, int>, size: map<int, int>, k: nat)
    requires Weak(base, h) && Linked(ptr, h.free) && SizesIn(size, h.blocks)
    ensures Touch(h, k) ==> h.free[k + 1] in ptr && h.free[k] in size && h.free[k + 1] in size
    ensures Linked(JoinPtr(h, ptr, k), Joined(h, k).free)
    ensures SizesIn(JoinSize(h, size, k), Joined(h, k).blocks)
  {
    hide Conserved, Apart;
    if k + 1 < |h.free| {
      assert LinkAt(ptr, h.free, k + 1);
      LinkSkip(ptr, h.free, k);
    }
  }

  lemma LinkReleased(base: int, h: Heap, ptr: map<int, int>, size: map<int, int>, j: nat, b: int)
    requires HeapOk(base, h) && Live(h, b) && Between(h.free, j, b) && Linked(ptr, h.free) && SizesIn(size, h.blocks)
    requires LinkAt(ptr, h.free, j)
    ensures h.free[j] in ptr && ptr[h.free[j]] in ptr && b in size && h.free[j] in size && ptr[h.free[j]] in size
    ensures Linked(FreedPtr(ptr, size, h.free[j], b), Released(h, j, b).free)
    ensures SizesIn(FreedSize(ptr, size, h.free[j], b), Released(h, j, b).blocks)
  {
    hide Conserved, Apart, Gap;
    var p := h.free[j];
    assert LinkAt(ptr, h.free, Succ(j, |h.free|));
    LinkInsert(ptr, h.free, j, b);
    InsertOk(base, h, j, b);
    LiveAbove(base, h, b);
    Touches(base, h, j, b);
    assert p in h.blocks && h.free[Succ(j, |h.free|)] in h.blocks;
    hide Sorted, Weak, Insert, Touch, Joined, Linked, SizesIn, LinkAt;
    var h1, ptr1 := Insert(h, j, b), ptr[b := ptr[p]][p := b];
    JoinLinks(base, h1, ptr1, size, j + 1);
    JoinedOk(base, h1, j + 1);
    var h2, ptr2, size2 := Joined(h1, j + 1), JoinPtr(h1, ptr1, j + 1), JoinSize(h1, size, j + 1);
    JoinLinks(base, h2, ptr2, size2, j);
    SizesAre(size, h.blocks, p);
    SizesAre(size, h.blocks, b);
    SizesAre(size, h.blocks, ptr[p]);
    FieldsAgree(h1, h2, ptr, size, j, p, b);
  }

  /** Joining upwards and then downwards writes the same fields as the code does. */
  lemma FieldsAgree(h1: Heap, h2: Heap, ptr: map<int, int>, size: map<int, int>, j: nat, p: int, b: int)
    requires p in ptr && ptr[p] in ptr && p in size && ptr[p] in size && b in size && p < b
    requires j + 1 < |h1.free| && j + 1 < |h2.free|
    requires Touch(h1, j + 1) <==> b + size[b] == ptr[p]
    requires Touch(h2, j) <==> p + size[p] == b
    requires h1.free[j + 1] == b && (Touch(h1, j + 1) ==> j + 2 < |h1.free| && h1.free[j + 2] == ptr[p] && ptr[p] > b)
    requires h2.free[j] == p && h2.free[j + 1] == b
    ensures var ptr2, size2 := JoinPtr(h1, ptr[b := ptr[p]][p := b], j + 1), JoinSize(h1, size, j + 1);
            && b in ptr2 && p in size2 && b in size2
            && JoinPtr(h2, ptr2, j) == FreedPtr(ptr, size, p, b)
            && JoinSize(h2, size2, j) == FreedSize(ptr, size, p, b)
  {
    hide Touch;
    PtrAgrees(ptr, p, b);
    SizeAgrees(ptr, size, p, b);
  }

  lemma PtrAgrees(ptr: map<int, int>, p: int, b: int)
    requires p in ptr && ptr[p] in ptr && p != b
    ensures var next := ptr[p];
            var ptr1 := ptr[b := next][p := b];
            && (next != b && next != p ==> ptr1[b := ptr1[next]] == ptr[b := ptr[next]][p := b])
            && (next != b && next != p ==> ptr1[b := ptr1[next]][p := ptr[next]] == ptr[b := ptr[next]][p := ptr[next]])
            && ptr1[p := next] == ptr[b := next][p := next]
  {
  }

  lemma SizeAgrees(ptr: map<int, int>, size: map<int, int>, p: int, b: int)
    requires p in size && b in size && p in ptr && ptr[p] in size && p != b
    ensures var next := ptr[p];
            var own := size[b] + size[next];
            && size[b := own][p := size[p] + own] == size[b := own][p := size[b := own][p] + own]
            && size[p := size[p] + size[b]] == size[b := size[b]][p := size[b := size[b]][p] + size[b]]
            && size[b := size[b]] == size
  {
  }

  lemma SizesAre(size: map<int, int>, blocks: map<int, int>, a: int)
    requires SizesIn(size, blocks) && a in blocks
    ensures a in size && size[a] == blocks[a]
  {
  }

  /** When free's two joins happen, in terms of the block and its neighbours. */
  lemma Touches(base: int, h: Heap, j: nat, b: int)
    requires Weak(base, h) && b in h.blocks && b !in h.free && Between(h.free, j, b)
    ensures var p, next, h1 := h.free[j], h.free[Succ(j, |h.free|)], Insert(h, j, b);
            var h2 := Joined(h1, j + 1);
            && base <= p < b && |h1.free| == |h.free| + 1 && j + 1 < |h2.free|
            && (Touch(h1, j + 1) <==> b + h.blocks[b] == next)
            && h1.free[j + 1] == b && (Touch(h1, j + 1) ==> j + 2 < |h1.free| && h1.free[j + 2] == next && next > b)
            && h2.free[j] == p && h2.free[j + 1] == b
            && (Touch(h2, j) <==> p + h.blocks[p] == b)
  {
    var p := h.free[j];
    assert base <= p by { assert h.free[0] <= h.free[j]; }
    assert p in h.blocks && h.free[Succ(j, |h.free|)] in h.blocks && h.blocks[b] >= 1;
    hide Conserved, Apart, Sorted, Weak;
    InsertAt(h, j, b);
    var h1 := Insert(h, j, b);
    if j + 1 < |h.free| {
      assert h1.free[j + 2] == h.free[j + 1];
    }
  }
}
