/**
 kalloc.c and the user half of vm.c: a free list of physical frames, and two-level page tables
 proved to refine a flat map from page numbers to entries. Every frame is on the free list or in
 exactly one use, recorded in `owner`; frame 0 stands for a null pointer.

 Virtual pages and physical frames are page numbers; sizes are in bytes as in the code.
 */
module PageTable {
  import opened Basics

  const PGSIZE: nat := 4096
  const NPTENTRIES: nat := 1024
  const NPDENTRIES: nat := 1024
  const KERNBASE: nat := 0x8000_0000
  const USERPAGES: nat := 524288  // KERNBASE / PGSIZE

  type Page = seq<int>

  datatype Pte = Absent | Present(frame: nat, flags: int)

  datatype Pde = NoTable | Table(frame: nat, ptes: seq<Pte>)

  type Dir = seq<Pde>

  function Pdx(v: nat): nat { v / NPTENTRIES }

  function Ptx(v: nat): (i: nat)
    ensures i < NPTENTRIES
  {
    v % NPTENTRIES
  }

  lemma SamePage(v: nat, w: nat)
    requires Pdx(v) == Pdx(w) && Ptx(v) == Ptx(w)
    ensures v == w
  {
  }

  lemma UserPdx(v: nat)
    requires v < USERPAGES
    ensures Pdx(v) < NPDENTRIES / 2
  {
  }

  predicate DirOk(d: Dir) {
    |d| == NPDENTRIES && forall x | 0 <= x < |d| && d[x].Table? :: |d[x].ptes| == NPTENTRIES
  }

  /** The flat map: the entry for virtual page v. */
  function View(d: Dir, v: nat): Pte {
    if Pdx(v) < |d| && d[Pdx(v)].Table? && |d[Pdx(v)].ptes| == NPTENTRIES then d[Pdx(v)].ptes[Ptx(v)] else Absent
  }

  predicate HasTable(d: Dir, v: nat) {
    Pdx(v) < |d| && d[Pdx(v)].Table? && |d[Pdx(v)].ptes| == NPTENTRIES
  }

  function PutEntry(d: Dir, v: nat, e: Pte): Dir
    requires HasTable(d, v)
  {
    d[Pdx(v) := Table(d[Pdx(v)].frame, d[Pdx(v)].ptes[Ptx(v) := e])]
  }

  function NoEntries(): (ptes: seq<Pte>)
    ensures |ptes| == NPTENTRIES && forall i | 0 <= i < NPTENTRIES :: ptes[i] == Absent
  {
    seq(NPTENTRIES, i => Absent)
  }

  function AddTable(d: Dir, v: nat, f: nat): Dir
    requires Pdx(v) < |d|
  {
    d[Pdx(v) := Table(f, NoEntries())]
  }

  /** Which directory entries have tables, and in which frames. */
  ghost predicate SameTables(d: Dir, d': Dir) {
    |d'| == |d| && forall x | 0 <= x < |d| :: d'[x].Table? == d[x].Table? && (d[x].Table? ==> d'[x].frame == d[x].frame)
  }

  /** Writing one entry changes one page of the flat map. */
  lemma PutView(d: Dir, v: nat, e: Pte, w: nat)
    requires DirOk(d) && HasTable(d, v)
    ensures DirOk(PutEntry(d, v, e)) && SameTables(d, PutEntry(d, v, e))
    ensures View(PutEntry(d, v, e), w) == if w == v then e else View(d, w)
  {
    hide Pdx, Ptx;
    if Pdx(w) == Pdx(v) && Ptx(w) == Ptx(v) {
      SamePage(v, w);
    }
  }

  /** A fresh table maps nothing. */
  lemma TableView(d: Dir, v: nat, f: nat, w: nat)
    requires DirOk(d) && Pdx(v) < |d| && d[Pdx(v)].NoTable?
    ensures DirOk(AddTable(d, v, f)) && HasTable(AddTable(d, v, f), v)
    ensures View(AddTable(d, v, f), w) == View(d, w)
  {
  }

  // ---- Frames ----

  /** What a frame that is not free is used for: part of some directory, a shared page, or something else. */
  datatype Use = DataOf(id: nat, v: nat) | TableOf(id: nat, x: nat) | DirOf(id: nat) | SharedPage | Elsewhere

  /** Free and used frames together are always all frames, none twice. */
  ghost predicate FramesOk(freelist: seq<nat>, owner: map<nat, Use>, all: set<nat>) {
    && Distinct(freelist) && Elements(freelist) !! owner.Keys
    && Elements(freelist) + owner.Keys == all && 0 !in all
  }

  lemma TakeFrame(freelist: seq<nat>, owner: map<nat, Use>, all: set<nat>, use: Use)
    requires FramesOk(freelist, owner, all) && freelist != []
    ensures FramesOk(freelist[1..], owner[freelist[0] := use], all)
    ensures freelist[0] !in owner && freelist[0] in all
  {
  }

  lemma GiveFrame(freelist: seq<nat>, owner: map<nat, Use>, all: set<nat>, f: nat)
    requires FramesOk(freelist, owner, all) && f in owner
    ensures FramesOk([f] + freelist, owner - {f}, all) && f != 0
  {
  }

  const ZEROPAGE: Page := seq(PGSIZE, i => 0)
  const JUNKPAGE: Page := seq(PGSIZE, i => 1)

  predicate ZeroPage(page: Page) {
    |page| == PGSIZE && forall i | 0 <= i < PGSIZE :: page[i] == 0
  }

  /** hi - 1, ..., lo */
  function Down(lo: nat, hi: nat): seq<nat>
    decreases hi
  {
    if hi <= lo then [] else [hi - 1] + Down(lo, hi - 1)
  }

  lemma {:induction false} DownElements(lo: nat, hi: nat)
    ensures forall f: nat :: f in Elements(Down(lo, hi)) <==> lo <= f < hi
    decreases hi
  {
    if hi > lo {
      DownElements(lo, hi - 1);
      assert Elements(Down(lo, hi)) == {hi - 1} + Elements(Down(lo, hi - 1));
    }
  }

  /** One more frame put in front of those already freed. */
  lemma FreeStep(freed: seq<nat>, f: nat, freelist: seq<nat>, owner: map<nat, Use>)
    ensures [f] + (freed + freelist) == ([f] + freed) + freelist
    ensures owner - Elements(freed) - {f} == owner - Elements([f] + freed)
  {
  }

  lemma FreeNone(freelist: seq<nat>, owner: map<nat, Use>)
    ensures [] + freelist == freelist && owner - Elements([]) == owner
  {
  }

  class Kmem {
    ghost const all: set<nat>
    var freelist: seq<nat>
    var mem: map<nat, Page>
    ghost var owner: map<nat, Use>

    ghost predicate Valid()
      reads this
    {
      FramesOk(freelist, owner, all) && mem.Keys >= all
    }

    /** No frame is free yet; kinit frees a range of them. */
    constructor (ghost all: set<nat>, mem: map<nat, Page>)
      requires 0 !in all && mem.Keys >= all
      ensures Valid() && this.all == all && this.mem == mem && freelist == [] && owner == map f | f in all :: Elsewhere
    {
      this.all, this.mem, freelist := all, mem, [];
      owner := map f | f in all :: Elsewhere;
    }

    /** freerange over the frames [lo, hi): the last one is allocated first. */
    method Freerange(lo: nat, hi: nat)
      requires Valid() && forall f: nat | lo <= f < hi :: f in owner
      modifies this`freelist, this`owner, this`mem
      ensures Valid() && freelist == Down(lo, hi) + old(freelist)
      ensures owner == old(owner) - Elements(Down(lo, hi))
    {
      hide FramesOk, Elements;
      FreeNone(freelist, owner);
      var p := lo;
      while p < hi
        invariant lo <= p && (if lo <= hi then p <= hi else p == lo) && Valid()
        invariant freelist == Down(lo, p) + old(freelist) && owner == old(owner) - Elements(Down(lo, p))
      {
        DownElements(lo, p);
        Kfree(p);
        FreeStep(Down(lo, p), p, old(freelist), old(owner));
        p := p + 1;
      }
      assert Down(lo, p) == Down(lo, hi);
    }

    /** Takes the first free frame, or answers 0. */
    method Kalloc(ghost use: Use) returns (f: nat)
      requires Valid()
      modifies this`freelist, this`owner
      ensures Valid() && (f == 0 <==> old(freelist) == [])
      ensures f == 0 ==> freelist == old(freelist) && owner == old(owner)
      ensures f != 0 ==>
              old(freelist) == [f] + freelist && f !in old(owner) && owner == old(owner)[f := use] && f in all
    {
      if freelist == [] {
        return 0;
      }
      TakeFrame(freelist, owner, all, use);
      f := freelist[0];
      freelist := freelist[1..];
      owner := owner[f := use];
    }

    /** Fills a used frame with junk and puts it first on the free list. */
    method Kfree(f: nat)
      requires Valid() && f in owner
      modifies this`freelist, this`owner, this`mem
      ensures Valid() && freelist == [f] + old(freelist) && owner == old(owner) - {f}
      ensures mem == old(mem)[f := JUNKPAGE]
    {
      GiveFrame(freelist, owner, all, f);
      mem := mem[f := JUNKPAGE];
      freelist := [f] + freelist;
      owner := owner - {f};
    }
  }

  /** Directory `id` and the owners agree, both ways, on its user pages and its tables. */
  ghost predicate Owns(id: nat, d: Dir, owner: map<nat, Use>) {
    && DirOk(d)
    && (forall v: nat | v < USERPAGES :: PageOwned(id, d, owner, v))
    && (forall x: nat | x < |d| :: TableOwned(id, d, owner, x))
    && (forall f: nat :: UseKnown(id, d, owner, f))
  }

  ghost predicate PageOwned(id: nat, d: Dir, owner: map<nat, Use>, v: nat) {
    View(d, v).Present? ==> View(d, v).frame in owner && owner[View(d, v).frame] == DataOf(id, v)
  }

  ghost predicate TableOwned(id: nat, d: Dir, owner: map<nat, Use>, x: nat) {
    x < |d| && d[x].Table? ==> d[x].frame in owner && owner[d[x].frame] == TableOf(id, x)
  }

  ghost predicate UseKnown(id: nat, d: Dir, owner: map<nat, Use>, f: nat) {
    f in owner ==>
      && (owner[f].DataOf? && owner[f].id == id ==>
         owner[f].v < USERPAGES && View(d, owner[f].v).Present? && View(d, owner[f].v).frame == f)
      && (owner[f].TableOf? && owner[f].id == id ==>
         owner[f].x < |d| && d[owner[f].x].Table? && d[owner[f].x].frame == f)
  }

  /** No frame is mapped at two pages, so none can be freed twice. */
  lemma OneMapping(id: nat, d: Dir, owner: map<nat, Use>, v: nat, w: nat)
    requires Owns(id, d, owner) && v < USERPAGES && w < USERPAGES
    requires View(d, v).Present? && View(d, w).Present? && View(d, v).frame == View(d, w).frame
    ensures v == w
  {
    assert PageOwned(id, d, owner, v) && PageOwned(id, d, owner, w);
  }

  lemma OwnsMapped(id: nat, d: Dir, owner: map<nat, Use>, v: nat, f: nat, flags: int)
    requires Owns(id, d, owner) && v < USERPAGES && HasTable(d, v) && View(d, v).Absent?
    requires f !in owner || owner[f].Elsewhere?
    ensures Owns(id, PutEntry(d, v, Present(f, flags)), owner[f := DataOf(id, v)])
  {
    var d', owner' := PutEntry(d, v, Present(f, flags)), owner[f := DataOf(id, v)];
    PutView(d, v, Present(f, flags), v);
    forall w: nat | w < USERPAGES
      ensures PageOwned(id, d', owner', w)
    {
      PutView(d, v, Present(f, flags), w);
      assert PageOwned(id, d, owner, w);
    }
    hide View, HasTable, Pdx, Ptx;
    forall x: nat | x < |d'|
      ensures TableOwned(id, d', owner', x)
    {
      assert TableOwned(id, d, owner, x);
    }
    forall g: nat
      ensures UseKnown(id, d', owner', g)
    {
      assert UseKnown(id, d, owner, g);
      if g in owner && owner[g].DataOf? { PutView(d, v, Present(f, flags), owner[g].v); }
    }
  }

  lemma OwnsUnmapped(id: nat, d: Dir, owner: map<nat, Use>, v: nat)
    requires Owns(id, d, owner) && v < USERPAGES && HasTable(d, v) && View(d, v).Present?
    ensures View(d, v).frame in owner
    ensures Owns(id, PutEntry(d, v, Absent), owner - {View(d, v).frame})
  {
    assert PageOwned(id, d, owner, v);
    var f := View(d, v).frame;
    var d', owner' := PutEntry(d, v, Absent), owner - {f};
    PutView(d, v, Absent, v);
    forall w: nat | w < USERPAGES
      ensures PageOwned(id, d', owner', w)
    {
      PutView(d, v, Absent, w);
      assert PageOwned(id, d, owner, w);
    }
    hide View, HasTable, Pdx, Ptx;
    forall x: nat | x < |d'|
      ensures TableOwned(id, d', owner', x)
    {
      assert TableOwned(id, d, owner, x);
    }
    forall g: nat
      ensures UseKnown(id, d', owner', g)
    {
      assert UseKnown(id, d, owner, g);
      if g in owner && owner[g].DataOf? { PutView(d, v, Absent, owner[g].v); }
    }
  }

  lemma OwnsNewTable(id: nat, d: Dir, owner: map<nat, Use>, v: nat, f: nat)
    requires Owns(id, d, owner) && Pdx(v) < |d| && d[Pdx(v)].NoTable? && f !in owner
    ensures Owns(id, AddTable(d, v, f), owner[f := TableOf(id, Pdx(v))])
  {
    var d', owner' := AddTable(d, v, f), owner[f := TableOf(id, Pdx(v))];
    TableView(d, v, f, v);
    forall w: nat | w < USERPAGES
      ensures PageOwned(id, d', owner', w)
    {
      TableView(d, v, f, w);
      assert PageOwned(id, d, owner, w);
    }
    hide View, HasTable, Pdx, Ptx;
    forall x: nat | x < |d'|
      ensures TableOwned(id, d', owner', x)
    {
      assert TableOwned(id, d, owner, x);
    }
    forall g: nat
      ensures UseKnown(id, d', owner', g)
    {
      assert UseKnown(id, d, owner, g);
      if g in owner && owner[g].DataOf? { TableView(d, v, f, owner[g].v); }
    }
  }
}
