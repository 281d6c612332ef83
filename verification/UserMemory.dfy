/**
 The user half of vm.c: growing, shrinking, copying and freeing a process's memory, each stated on the
 flat map of PageTable.dfy and on the free list, so that no frame is lost, kept or freed twice.
 */
module UserMemory {
  import opened Basics
  import opened PageTable

  // ---- The page-by-page scan ----

  /** The frames of the present pages in [lo, hi), in the order a scan from lo upwards puts them on the free list. */
  function Freed(d: Dir, lo: nat, hi: nat): seq<nat>
    decreases hi
  {
    if hi <= lo then []
    else (if View(d, hi - 1).Present? then [View(d, hi - 1).frame] else []) + Freed(d, lo, hi - 1)
  }

  lemma {:induction false} FreedElements(d: Dir, lo: nat, hi: nat)
    ensures forall f: nat ::
            f in Freed(d, lo, hi) <==> exists v: nat :: lo <= v < hi && View(d, v).Present? && View(d, v).frame == f
    decreases hi
  {
    hide View;
    if hi > lo {
      FreedElements(d, lo, hi - 1);
    }
  }

  lemma {:induction false} FreedNothing(d: Dir, lo: nat, m: nat, hi: nat)
    requires lo <= m <= hi && forall v: nat | m <= v < hi :: View(d, v).Absent?
    ensures Freed(d, lo, hi) == Freed(d, lo, m)
    decreases hi
  {
    hide View;
    if hi > m {
      FreedNothing(d, lo, m, hi - 1);
    }
  }

  /** The flat map without the pages in [lo, hi). */
  ghost predicate Cleared(d: Dir, d': Dir, lo: nat, hi: nat) {
    SameTables(d, d') && DirOk(d') && forall v: nat :: View(d', v) == if lo <= v < hi then Absent else View(d, v)
  }

  function Pages(size: nat): nat {
    (size + PGSIZE - 1) / PGSIZE
  }

  lemma PageBelow(a: nat, size: nat)
    ensures a * PGSIZE < size <==> a < Pages(size)
  {
  }

  function NextTable(a: nat): nat {
    (Pdx(a) + 1) * NPTENTRIES
  }

  /** The pages deallocuvm jumps over all lie in the directory entry that has no table. */
  lemma JumpedAbsent(d: Dir, a: nat)
    requires !HasTable(d, a)
    ensures a < NextTable(a) && forall v: nat | a <= v < NextTable(a) :: View(d, v).Absent?
  {
  }

  lemma NoTableAbsent(d: Dir, v: nat)
    ensures !HasTable(d, v) ==> View(d, v).Absent?
  {
  }

  lemma PagesUpTo(newsz: nat, oldsz: nat)
    requires newsz <= oldsz <= KERNBASE
    ensures Pages(newsz) <= Pages(oldsz) <= USERPAGES
  {
  }

  lemma OwnsOk(id: nat, d: Dir, owner: map<nat, Use>)
    requires Owns(id, d, owner)
    ensures DirOk(d)
  {
  }

  lemma NothingCleared(d: Dir, lo: nat)
    requires DirOk(d)
    ensures Cleared(d, d, lo, lo) && Freed(d, lo, lo) == []
  {
  }

  lemma ClearedAt(d: Dir, now: Dir, lo: nat, a: nat)
    requires DirOk(d) && Cleared(d, now, lo, a)
    ensures View(now, a) == View(d, a) && (HasTable(now, a) <==> HasTable(d, a))
  {
  }

  lemma ClearedMore(d: Dir, now: Dir, lo: nat, a: nat, m: nat)
    requires Cleared(d, now, lo, a) && lo <= a <= m
    requires forall v: nat | a <= v < m :: View(d, v).Absent?
    ensures Cleared(d, now, lo, m)
  {
    hide View, SameTables;
  }

  lemma ClearNext(d: Dir, now: Dir, lo: nat, a: nat)
    requires Cleared(d, now, lo, a) && lo <= a && HasTable(now, a)
    ensures Cleared(d, PutEntry(now, a, Absent), lo, a + 1)
    ensures View(now, a).Absent? ==> Cleared(d, now, lo, a + 1)
  {
    hide View, HasTable, Pdx, Ptx;
    var d' := PutEntry(now, a, Absent);
    PutView(now, a, Absent, a);
    assert View(now, a) == View(d, a);
    forall v: nat
      ensures View(d', v) == if lo <= v < a + 1 then Absent else View(d, v)
    {
      PutView(now, a, Absent, v);
    }
  }

  lemma FreedNext(d: Dir, lo: nat, a: nat)
    requires lo <= a
    ensures View(d, a).Absent? ==> Freed(d, lo, a + 1) == Freed(d, lo, a)
    ensures View(d, a).Present? ==>
              Freed(d, lo, a + 1) == [View(d, a).frame] + Freed(d, lo, a)
  {
  }

  lemma MemHolds(freelist: seq<nat>, owner: map<nat, Use>, all: set<nat>, mem: map<nat, Page>)
    requires FramesOk(freelist, owner, all) && mem.Keys >= all
    ensures forall f | f in owner :: f in mem
  {
  }

  lemma ReuseFrame(freelist: seq<nat>, owner: map<nat, Use>, all: set<nat>, f: nat, use: Use)
    requires FramesOk(freelist, owner, all) && f in owner
    ensures FramesOk(freelist, owner[f := use], all)
  {
  }

  lemma DirKept(id: nat, d: Dir, owner: map<nat, Use>, frame: nat, v: nat)
    requires Owns(id, d, owner) && v < USERPAGES && View(d, v).Present?
    requires frame in owner && owner[frame] == DirOf(id)
    ensures View(d, v).frame != frame
  {
    assert PageOwned(id, d, owner, v);
  }

  /** `owner'` differs from `owner` only in new page tables of directory `id`. */
  ghost predicate OnlyTables(owner: map<nat, Use>, owner': map<nat, Use>, id: nat) {
    && (forall f | f in owner :: f in owner' && owner'[f] == owner[f])
    && (forall f | f in owner' && f !in owner :: owner'[f].TableOf? && owner'[f].id == id)
  }

  /** The directory entries that have tables once page v has been entered. */
  lemma MapTables(d: Dir, d1: Dir, v: nat, e: Pte)
    requires DirOk(d) && DirOk(d1) && HasTable(d1, v) && Pdx(v) < |d|
    requires d1 == d || (d[Pdx(v)].NoTable? && exists f :: d1 == AddTable(d, v, f))
    ensures forall w: nat :: HasTable(PutEntry(d1, v, e), w) <==> HasTable(d, w) || Pdx(w) == Pdx(v)
  {
    hide Pdx, Ptx;
  }

  const WRITABLE_USER := 6  // PTE_W | PTE_U

  function NewFlags(): nat -> int {
    (v: nat) => WRITABLE_USER
  }

  // ---- Who owns what while pages are added one by one ----

  predicate Mine(use: Use, id: nat) {
    (use.DataOf? || use.TableOf? || use.DirOf?) && use.id == id
  }

  ghost predicate SameUse(id: nat, owner: map<nat, Use>, owner': map<nat, Use>, f: nat) {
    if f in owner && Mine(owner[f], id) then f in owner' && owner'[f] == owner[f] else f in owner' ==>
        !Mine(owner'[f], id)
  }

  /** A change of owners that does not concern directory `id` keeps what it owns. */
  lemma OwnsSame(id: nat, d: Dir, owner: map<nat, Use>, owner': map<nat, Use>)
    requires Owns(id, d, owner) && forall f: nat :: SameUse(id, owner, owner', f)
    ensures Owns(id, d, owner')
  {
    hide View;
    forall v: nat | v < USERPAGES
      ensures PageOwned(id, d, owner', v)
    {
      assert PageOwned(id, d, owner, v);
      if View(d, v).Present? { assert SameUse(id, owner, owner', View(d, v).frame); }
    }
    forall x: nat | x < |d|
      ensures TableOwned(id, d, owner', x)
    {
      assert TableOwned(id, d, owner, x);
      if d[x].Table? { assert SameUse(id, owner, owner', d[x].frame); }
    }
    forall f: nat
      ensures UseKnown(id, d, owner', f)
    {
      assert UseKnown(id, d, owner, f) && SameUse(id, owner, owner', f);
    }
  }

  /** Pages [lo, a), all absent before, are now present with these flags; the rest is as before. */
  ghost predicate GrownAt(d0: Dir, d: Dir, lo: nat, a: nat, flags: nat -> int, v: nat) {
    if lo <= v < a then View(d0, v).Absent? && View(d, v).Present? && View(d, v).flags == flags(v)
    else View(d, v) == View(d0, v)
  }

  ghost predicate Grown(d0: Dir, d: Dir, lo: nat, a: nat, flags: nat -> int) {
    forall v: nat :: GrownAt(d0, d, lo, a, flags, v)
  }

  ghost predicate TablesAt(d0: Dir, d: Dir, lo: nat, a: nat, v: nat) {
    HasTable(d, v) <==> HasTable(d0, v) || exists w: nat :: lo <= w < a && Pdx(w) == Pdx(v)
  }

  ghost predicate TablesGrown(d0: Dir, d: Dir, lo: nat, a: nat) {
    forall v: nat :: TablesAt(d0, d, lo, a, v)
  }

  /** The frames in use are those of before, and new tables and pages [lo, a) of directory `id`. */
  ghost predicate Given(owner0: map<nat, Use>, owner: map<nat, Use>, id: nat, lo: nat, a: nat) {
    && (forall f | f in owner0 :: f in owner && owner[f] == owner0[f])
    && (forall f | f in owner && f !in owner0 ::
       Mine(owner[f], id) && !owner[f].DirOf? && (owner[f].DataOf? ==> lo <= owner[f].v < a))
  }

  /** Page v needs a new table when it is entered after pages [lo, v). */
  predicate NeedsTable(d: Dir, lo: nat, v: nat) {
    !HasTable(d, v) && (v == lo || Ptx(v) == 0)
  }

  /** How many frames it takes to enter pages [lo, hi). */
  function Needed(d: Dir, lo: nat, hi: nat): nat
    decreases hi
  {
    if hi <= lo then 0 else Needed(d, lo, hi - 1) + 1 + if NeedsTable(d, lo, hi - 1) then 1 else 0
  }

  lemma {:induction false} NeededGrows(d: Dir, lo: nat, a: nat, hi: nat)
    requires a <= hi
    ensures Needed(d, lo, a) <= Needed(d, lo, hi)
    decreases hi
  {
    if a < hi {
      NeededGrows(d, lo, a, hi - 1);
    }
  }

  lemma NextTableNeeded(d0: Dir, d: Dir, lo: nat, a: nat)
    requires TablesGrown(d0, d, lo, a) && lo <= a
    ensures !HasTable(d, a) <==> NeedsTable(d0, lo, a)
  {
    assert TablesAt(d0, d, lo, a, a);
    if a > lo && Ptx(a) != 0 {
      assert Pdx(a - 1) == Pdx(a);
    }
    if w: nat :| lo <= w < a && Pdx(w) == Pdx(a) {
      assert Ptx(a) != 0;
    }
  }

  lemma GrownStep(d0: Dir, d: Dir, d': Dir, lo: nat, a: nat, flags: nat -> int, f: nat)
    requires Grown(d0, d, lo, a, flags) && lo <= a && View(d, a).Absent?
    requires forall w: nat :: View(d', w) == if w == a then Present(f, flags(a)) else View(d, w)
    ensures Grown(d0, d', lo, a + 1, flags)
  {
    hide View;
    var b := a + 1;
    forall v: nat
      ensures GrownAt(d0, d', lo, b, flags, v)
    {
      assert GrownAt(d0, d, lo, a, flags, v);
    }
  }

  lemma TablesStep(d0: Dir, d: Dir, d': Dir, lo: nat, a: nat)
    requires TablesGrown(d0, d, lo, a) && lo <= a
    requires forall w: nat :: HasTable(d', w) <==> HasTable(d, w) || Pdx(w) == Pdx(a)
    ensures TablesGrown(d0, d', lo, a + 1)
  {
    hide HasTable, Pdx;
    var b := a + 1;
    forall v: nat
      ensures TablesAt(d0, d', lo, b, v)
    {
      assert TablesAt(d0, d, lo, a, v);
    }
  }

  /** Pages [v, v + i), all absent before, are in the frames from f on; the rest is as before. */
  ghost predicate LinedAt(d0: Dir, d: Dir, v: nat, i: nat, f: nat, flags: int, w: nat) {
    if v <= w < v + i then View(d0, w).Absent? && View(d, w) == Present(f + w - v, flags) else View(d, w) == View(d0, w)
  }

  ghost predicate Lined(d0: Dir, d: Dir, v: nat, i: nat, f: nat, flags: int) {
    TablesGrown(d0, d, v, v + i) && forall w: nat :: LinedAt(d0, d, v, i, f, flags, w)
  }

  /** The frames from f on are those pages of directory `id`; the only other change is in its tables. */
  ghost predicate HandedAt(owner0: map<nat, Use>, owner: map<nat, Use>, id: nat, v: nat, i: nat, f: nat, g: nat) {
    if g in owner0 then g in owner && owner[g] == if f <= g < f + i then DataOf(id, v + g - f) else owner0[g]
    else g in owner ==> owner[g].TableOf? && owner[g].id == id
  }

  ghost predicate Handed(owner0: map<nat, Use>, owner: map<nat, Use>, id: nat, v: nat, i: nat, f: nat) {
    forall g: nat :: HandedAt(owner0, owner, id, v, i, f, g)
  }

  /** How many page tables it takes to map pages [v, v + i). */
  function TablesFor(d: Dir, v: nat, i: nat): nat {
    if i == 0 then 0 else TablesFor(d, v, i - 1) + if NeedsTable(d, v, v + i - 1) then 1 else 0
  }

  lemma {:induction false} TablesForGrows(d: Dir, v: nat, i: nat, n: nat)
    requires i <= n
    ensures TablesFor(d, v, i) <= TablesFor(d, v, n)
  {
    if i < n {
      TablesForGrows(d, v, i, n - 1);
    }
  }

  /** Page v + m is mapped already, and mappages gets there before it lacks a table. */
  ghost predicate MappedAt(d: Dir, v: nat, n: nat, free: nat, m: nat) {
    && m < n && View(d, v + m).Present? && TablesFor(d, v, m) <= free
    && forall w: nat | v <= w < v + m :: View(d, w).Absent?
  }

  /** Where the loop stops, with the pages before i unmapped: at a mapped page, for lack of a table, or at the end. */
  lemma MapStops(d: Dir, v: nat, i: nat, n: nat, free: nat)
    requires i <= n && TablesFor(d, v, i) <= free && forall w: nat | v <= w < v + i :: View(d, w).Absent?
    ensures i < n && View(d, v + i).Present? ==> MappedAt(d, v, n, free, i)
    ensures i == n || (View(d, v + i).Absent? && TablesFor(d, v, i + 1) > free) ==>
              forall m: nat :: !MappedAt(d, v, n, free, m)
  {
    hide View, NeedsTable;
    if i == n || (View(d, v + i).Absent? && TablesFor(d, v, i + 1) > free) {
      forall m: nat
        ensures !MappedAt(d, v, n, free, m)
      {
        if m < i {
          assert View(d, v + m).Absent?;
        } else if i < m {
          TablesForGrows(d, v, i + 1, m);
        }
      }
    }
  }

  lemma LinedStart(d: Dir, owner: map<nat, Use>, id: nat, v: nat, f: nat, flags: int)
    ensures Lined(d, d, v, 0, f, flags) && Handed(owner, owner, id, v, 0, f)
  {
  }

  lemma LinedHere(d0: Dir, d: Dir, owner0: map<nat, Use>, owner: map<nat, Use>, id: nat, v: nat, i: nat, f: nat,
                  flags: int)
    requires Lined(d0, d, v, i, f, flags) && Handed(owner0, owner, id, v, i, f)
    requires f + i in owner0 && owner0[f + i].Elsewhere?
    ensures View(d, v + i) == View(d0, v + i) && (!HasTable(d, v + i) <==> NeedsTable(d0, v, v + i))
    ensures f + i in owner && owner[f + i].Elsewhere?
  {
    hide View, HasTable, TablesGrown;
    assert LinedAt(d0, d, v, i, f, flags, v + i) && HandedAt(owner0, owner, id, v, i, f, f + i);
    NextTableNeeded(d0, d, v, v + i);
  }

  lemma LinedStep(d0: Dir, d: Dir, d': Dir, owner0: map<nat, Use>, owner: map<nat, Use>, owner': map<nat, Use>,
                  id: nat, v: nat, i: nat, f: nat, flags: int)
    requires Lined(d0, d, v, i, f, flags) && Handed(owner0, owner, id, v, i, f) && f + i in owner0
             && View(d, v + i).Absent?
    requires forall w: nat :: View(d', w) == if w == v + i then Present(f + i, flags) else View(d, w)
    requires forall w: nat :: HasTable(d', w) <==> HasTable(d, w) || Pdx(w) == Pdx(v + i)
    requires OnlyTables(owner[f + i := DataOf(id, v + i)], owner', id)
    ensures Lined(d0, d', v, i + 1, f, flags) && Handed(owner0, owner', id, v, i + 1, f)
  {
    hide View, HasTable, Pdx, TablesGrown;
    var j := i + 1;
    TablesStep(d0, d, d', v, v + i);
    forall w: nat
      ensures LinedAt(d0, d', v, j, f, flags, w)
    {
      assert LinedAt(d0, d, v, i, f, flags, w);
    }
    forall g: nat
      ensures HandedAt(owner0, owner', id, v, j, f, g)
    {
      assert HandedAt(owner0, owner, id, v, i, f, g);
    }
  }

  lemma GivenStep(owner0: map<nat, Use>, owner: map<nat, Use>, owner': map<nat, Use>, id: nat, lo: nat, a: nat, f: nat)
    requires Given(owner0, owner, id, lo, a) && lo <= a && f !in owner
    requires OnlyTables(owner[f := Elsewhere][f := DataOf(id, a)], owner', id)
    ensures Given(owner0, owner', id, lo, a + 1)
  {
  }

  /** A frame just taken concerns no directory yet. */
  lemma OwnsTaken(id: nat, d: Dir, owner: map<nat, Use>, f: nat)
    requires Owns(id, d, owner) && f !in owner
    ensures Owns(id, d, owner[f := Elsewhere])
  {
    OwnsSame(id, d, owner, owner[f := Elsewhere]);
  }

  ghost predicate HoldsPage(d: Dir, mem: map<nat, Page>, v: nat, contents: Page) {
    View(d, v).Present? && View(d, v).frame in mem && mem[View(d, v).frame] == contents
  }

  /** Pages already entered keep their contents when page a is entered in a frame that was free. */
  lemma HoldsStep(id: nat, d: Dir, d': Dir, owner: map<nat, Use>, mem: map<nat, Page>, f: nat, a: nat, v: nat, fl: int,
                  new_: Page, c: Page)
    requires Owns(id, d, owner) && f !in owner && v < USERPAGES && v != a && HoldsPage(d, mem, v, c)
    requires forall w: nat :: View(d', w) == if w == a then Present(f, fl) else View(d, w)
    ensures HoldsPage(d', mem[f := new_], v, c)
  {
    hide View;
    assert PageOwned(id, d, owner, v);
  }

  lemma HoldsNew(d: Dir, mem: map<nat, Page>, a: nat, f: nat, c: Page)
    requires View(d, a).Present? && View(d, a).frame == f && f in mem && mem[f] == c
    ensures HoldsPage(d, mem, a, c)
  {
  }

  lemma GrownHere(d0: Dir, d: Dir, lo: nat, a: nat, flags: nat -> int)
    requires Grown(d0, d, lo, a, flags)
    ensures View(d, a) == View(d0, a)
  {
    assert GrownAt(d0, d, lo, a, flags, a);
  }

  lemma GivenKeeps(owner0: map<nat, Use>, owner: map<nat, Use>, id: nat, lo: nat, a: nat, f: nat)
    requires Given(owner0, owner, id, lo, a) && f !in owner
    ensures f !in owner0
  {
  }

  lemma OwnsReturned(id: nat, d: Dir, owner: map<nat, Use>, f: nat)
    requires Owns(id, d, owner) && f in owner && owner[f].Elsewhere?
    ensures Owns(id, d, owner - {f})
  {
    OwnsSame(id, d, owner, owner - {f});
  }

  function ZeroPages(): nat -> Page {
    (v: nat) => ZEROPAGE
  }

  ghost predicate SameFrame(m0: map<nat, Page>, mem: map<nat, Page>, f: nat) {
    f in m0 && f in mem && mem[f] == m0[f]
  }

  /** Everything that holds once pages [lo, a) have been entered. */
  ghost predicate Growing(id: nat, d0: Dir, d: Dir, owner0: map<nat, Use>, owner: map<nat, Use>, m0: map<nat, Page>,
                          mem: map<nat, Page>, lo: nat, a: nat, flags: nat -> int, contents: nat -> Page)
  {
    && Grown(d0, d, lo, a, flags) && TablesGrown(d0, d, lo, a) && Given(owner0, owner, id, lo, a)
    && (forall v: nat | lo <= v < a :: HoldsPage(d, mem, v, contents(v)))
    && (forall f | f in owner0 :: SameFrame(m0, mem, f))
  }

  lemma GrowStart(id: nat, d: Dir, owner: map<nat, Use>, mem: map<nat, Page>, lo: nat, flags: nat -> int,
                  contents: nat -> Page)
    requires forall f | f in owner :: f in mem
    ensures Growing(id, d, d, owner, owner, mem, mem, lo, lo, flags, contents) && Needed(d, lo, lo) == 0
  {
  }

  lemma GrowStep(id: nat, d0: Dir, d: Dir, d': Dir, owner0: map<nat, Use>, owner: map<nat, Use>, owner': map<nat, Use>,
                 m0: map<nat, Page>, mem: map<nat, Page>,
                 lo: nat, a: nat, flags: nat -> int, contents: nat -> Page, f: nat)
    requires Growing(id, d0, d, owner0, owner, m0, mem, lo, a, flags, contents) && Owns(id, d, owner)
             && lo <= a < USERPAGES
    requires f !in owner && View(d, a).Absent?
    requires forall w: nat :: View(d', w) == if w == a then Present(f, flags(a)) else View(d, w)
    requires forall w: nat :: HasTable(d', w) <==> HasTable(d, w) || Pdx(w) == Pdx(a)
    requires OnlyTables(owner[f := Elsewhere][f := DataOf(id, a)], owner', id)
    ensures Growing(id, d0, d', owner0, owner', m0, mem[f := contents(a)], lo, a + 1, flags, contents)
  {
    hide View, HasTable, Pdx, Owns, OnlyTables, Grown, TablesGrown, Given, HoldsPage;
    GrownStep(d0, d, d', lo, a, flags, f);
    TablesStep(d0, d, d', lo, a);
    GivenStep(owner0, owner, owner', id, lo, a, f);
    forall v: nat | lo <= v < a + 1
      ensures HoldsPage(d', mem[f := contents(a)], v, contents(v))
    {
      if v == a {
        HoldsNew(d', mem[f := contents(a)], a, f, contents(a));
      } else {
        HoldsStep(id, d, d', owner, mem, f, a, v, flags(a), contents(a), contents(v));
      }
    }
    GivenKeeps(owner0, owner, id, lo, a, f);
  }

  /** Undoing a growth that got as far as page a. */
  lemma Undone(id: nat, d0: Dir, d: Dir, owner0: map<nat, Use>, owner: map<nat, Use>, lo: nat, a: nat, hi: nat,
               flags: nat -> int)
    requires Owns(id, d0, owner0) && Owns(id, d, owner) && lo <= a <= hi <= USERPAGES
    requires Grown(d0, d, lo, a, flags) && Given(owner0, owner, id, lo, a)
    ensures OnlyTables(owner0 - Elements(Freed(d0, lo, hi)), owner - Elements(Freed(d, lo, hi)), id)
  {
    hide View, FramesOk, Freed;
    FreedElements(d0, lo, hi);
    FreedElements(d, lo, hi);
    forall f: nat | f in owner0 && f in Freed(d, lo, hi)
      ensures f in Freed(d0, lo, hi)
    {
      var v: nat :| lo <= v < hi && View(d, v).Present? && View(d, v).frame == f;
      assert GrownAt(d0, d, lo, a, flags, v) && PageOwned(id, d, owner, v) && UseKnown(id, d0, owner0, f);
    }
    forall f: nat | f in Freed(d0, lo, hi)
      ensures f in Freed(d, lo, hi)
    {
      var v: nat :| lo <= v < hi && View(d0, v).Present? && View(d0, v).frame == f;
      assert GrownAt(d0, d, lo, a, flags, v);
    }
    forall f: nat | f in owner && f !in owner0 && owner[f].DataOf?
      ensures f in Freed(d, lo, hi)
    {
      assert UseKnown(id, d, owner, f) && GrownAt(d0, d, lo, a, flags, owner[f].v);
    }
  }

  lemma UndoneView(d0: Dir, d: Dir, d': Dir, lo: nat, a: nat, hi: nat, flags: nat -> int)
    requires Grown(d0, d, lo, a, flags) && Cleared(d, d', lo, hi) && lo <= a <= hi
    ensures forall v: nat :: View(d', v) == if lo <= v < hi then Absent else View(d0, v)
  {
    hide View, SameTables;
    forall v: nat
      ensures View(d', v) == if lo <= v < hi then Absent else View(d0, v)
    {
      assert GrownAt(d0, d, lo, a, flags, v);
    }
  }

  lemma TakenNotFreed(id: nat, d: Dir, owner: map<nat, Use>, lo: nat, hi: nat, f: nat)
    requires Owns(id, d, owner) && f in owner && owner[f].Elsewhere? && hi <= USERPAGES
    ensures f !in Elements(Freed(d, lo, hi))
  {
    hide View, Freed;
    FreedElements(d, lo, hi);
    forall g: nat | g in Freed(d, lo, hi)
      ensures g in owner && owner[g].DataOf?
    {
      var v: nat :| lo <= v < hi && View(d, v).Present? && View(d, v).frame == g;
      assert PageOwned(id, d, owner, v);
    }
  }

  lemma GrowHere(id: nat, d0: Dir, d: Dir, owner0: map<nat, Use>, owner: map<nat, Use>, m0: map<nat, Page>,
                 mem: map<nat, Page>, lo: nat, a: nat, flags: nat -> int, contents: nat -> Page)
    requires Growing(id, d0, d, owner0, owner, m0, mem, lo, a, flags, contents) && lo <= a
    ensures View(d, a) == View(d0, a) && (!HasTable(d, a) <==> NeedsTable(d0, lo, a))
  {
    hide View, HasTable, NeedsTable, Given, HoldsPage;
    GrownHere(d0, d, lo, a, flags);
    NextTableNeeded(d0, d, lo, a);
  }

  /** A failed growth: no page of [lo, hi) is mapped, and no frame but new page tables is gone. */
  ghost predicate Restored(id: nat, d0: Dir, d: Dir, owner0: map<nat, Use>, owner: map<nat, Use>, m0: map<nat, Page>,
                           mem: map<nat, Page>, lo: nat, hi: nat)
  {
    && (forall v: nat :: View(d, v) == if lo <= v < hi then Absent else View(d0, v))
    && OnlyTables(owner0 - Elements(Freed(d0, lo, hi)), owner, id)
    && (forall f | f in owner0 && f in owner :: SameFrame(m0, mem, f))
  }

  lemma GrowUndone(id: nat, d0: Dir, d: Dir, d': Dir, owner0: map<nat, Use>, owner: map<nat, Use>, m0: map<nat, Page>,
                   mem: map<nat, Page>, mem': map<nat, Page>,
                   lo: nat, a: nat, hi: nat, flags: nat -> int, contents: nat -> Page)
    requires Growing(id, d0, d, owner0, owner, m0, mem, lo, a, flags, contents) && lo <= a <= hi <= USERPAGES
    requires Owns(id, d0, owner0) && Owns(id, d, owner) && Cleared(d, d', lo, hi)
    requires forall f | f in owner && f !in Elements(Freed(d, lo, hi)) :: SameFrame(mem, mem', f)
    ensures Restored(id, d0, d', owner0, owner - Elements(Freed(d, lo, hi)), m0, mem', lo, hi)
  {
    hide View, HasTable, Owns, Cleared, Freed, Elements, Grown, TablesGrown, Given, HoldsPage, OnlyTables;
    UndoneView(d0, d, d', lo, a, hi, flags);
    Undone(id, d0, d, owner0, owner, lo, a, hi, flags);
  }

  /** Giving back the frame of a page that could not be entered. */
  lemma ReturnLast(owner: map<nat, Use>, f: nat, freed: set<nat>, m: map<nat, Page>, m0: map<nat, Page>,
                   m1: map<nat, Page>, page: Page, junk: Page)
    requires f !in owner && f !in freed && m0 == m[f := page]
    requires forall g | g in owner[f := Elsewhere] - freed :: SameFrame(m0, m1, g)
    ensures owner[f := Elsewhere] - freed - {f} == owner - freed
    ensures forall g | g in owner && g !in freed :: SameFrame(m, m1[f := junk], g)
  {
    forall g | g in owner && g !in freed
      ensures SameFrame(m, m1[f := junk], g)
    {
      assert g in owner[f := Elsewhere] - freed && SameFrame(m0, m1, g);
    }
  }

  lemma NeededStep(d: Dir, lo: nat, a: nat, hi: nat)
    requires lo <= a < hi
    ensures Needed(d, lo, a) + 1 + (if NeedsTable(d, lo, a) then 1 else 0) == Needed(d, lo, a + 1) <= Needed(d, lo, hi)
  {
    NeededGrows(d, lo, a + 1, hi);
  }

  /** What is left in use when directory `id` is gone. */
  ghost function Without(owner: map<nat, Use>, id: nat): map<nat, Use> {
    map f | f in owner && !Mine(owner[f], id) :: owner[f]
  }

  /** Only tables from entry i on, and the directory itself, are still to be freed. */
  ghost predicate TablesLeft(owner0: map<nat, Use>, owner: map<nat, Use>, id: nat, i: nat) {
    && (forall f | f in owner :: f in owner0 && owner[f] == owner0[f] && !(Mine(owner[f], id) && owner[f].DataOf?))
    && (forall f | f in owner && owner[f].TableOf? && owner[f].id == id :: owner[f].x >= i)
    && (forall f | f in owner0 && !Mine(owner0[f], id) :: f in owner)
    && (forall f | f in owner0 && owner0[f].TableOf? && owner0[f].id == id && owner0[f].x >= i :: f in owner)
    && (forall f | f in owner0 && owner0[f] == DirOf(id) :: f in owner)
  }

  lemma PagesGone(id: nat, d: Dir, owner: map<nat, Use>)
    requires Owns(id, d, owner)
    ensures var owner' := owner - Elements(Freed(d, 0, USERPAGES));
            TablesLeft(owner', owner', id, 0) && Without(owner', id) == Without(owner, id)
  {
    hide View, Freed;
    FreedElements(d, 0, USERPAGES);
    forall f: nat | f in Freed(d, 0, USERPAGES)
      ensures f in owner && owner[f].DataOf? && owner[f].id == id
    {
      var v: nat :| 0 <= v < USERPAGES && View(d, v).Present? && View(d, v).frame == f;
      assert PageOwned(id, d, owner, v);
    }
    forall f: nat | f in owner && owner[f].DataOf? && owner[f].id == id
      ensures f in Freed(d, 0, USERPAGES)
    {
      assert UseKnown(id, d, owner, f);
    }
  }

  lemma TableGone(id: nat, d: Dir, owner0: map<nat, Use>, owner: map<nat, Use>, i: nat)
    requires Owns(id, d, owner0) && TablesLeft(owner0, owner, id, i) && i < |d|
    ensures d[i].Table? ==> d[i].frame in owner && TablesLeft(owner0, owner - {d[i].frame}, id, i + 1)
    ensures d[i].NoTable? ==> TablesLeft(owner0, owner, id, i + 1)
  {
    assert TableOwned(id, d, owner0, i);
    forall f | f in owner0 && owner0[f] == TableOf(id, i)
      ensures d[i].Table? && d[i].frame == f
    {
      assert UseKnown(id, d, owner0, f);
    }
  }

  lemma AllGone(id: nat, d: Dir, owner0: map<nat, Use>, owner: map<nat, Use>, frame: nat)
    requires Owns(id, d, owner0) && TablesLeft(owner0, owner, id, |d|)
    requires HasDir(id, frame, owner0)
    ensures frame in owner && owner - {frame} == Without(owner0, id)
  {
    forall f | f in owner0 && owner0[f].TableOf? && owner0[f].id == id
      ensures owner0[f].x < |d|
    {
      assert UseKnown(id, d, owner0, f);
    }
  }

  /** The flags and the contents that copyuvm reads from the parent. */
  function FlagsOf(d: Dir): nat -> int {
    (v: nat) => if View(d, v).Present? then View(d, v).flags else 0
  }

  function ContentsOf(d: Dir, mem: map<nat, Page>): nat -> Page {
    (v: nat) => if View(d, v).Present? && View(d, v).frame in mem then mem[View(d, v).frame] else []
  }

  // ---- When the loops panic, and what they leave ----

  /** Page v is mapped already, and allocuvm gets there with a frame in hand. */
  ghost predicate RemapAt(d: Dir, lo: nat, hi: nat, free: nat, v: nat) {
    && lo <= v < hi && View(d, v).Present? && (forall w: nat | lo <= w < v :: View(d, w).Absent?)
    && Needed(d, lo, v) < free
  }

  ghost predicate Remaps(d: Dir, lo: nat, hi: nat, free: nat) {
    exists v: nat :: RemapAt(d, lo, hi, free, v)
  }

  lemma MeetsRemap(d: Dir, lo: nat, hi: nat, free: nat, v: nat)
    requires RemapAt(d, lo, hi, free, v)
    ensures Remaps(d, lo, hi, free)
  {
  }

  lemma NoRemap(d: Dir, lo: nat, a: nat, hi: nat, free: nat)
    requires lo <= a <= hi && forall w: nat | lo <= w < a :: View(d, w).Absent?
    requires a == hi || Needed(d, lo, a) >= free || (View(d, a).Absent? && Needed(d, lo, a + 1) > free)
    ensures !Remaps(d, lo, hi, free)
  {
    hide View, NeedsTable;
    if v: nat :| RemapAt(d, lo, hi, free, v) {
      NeededGrows(d, lo, a, v);
      if v > a { NeededGrows(d, lo, a + 1, v); }
    }
  }

  /** Page v of the parent is not there, and copyuvm gets there before memory runs out. */
  ghost predicate HoleAt(d: Dir, c: Dir, n: nat, free: nat, v: nat) {
    v < n && View(d, v).Absent? && (forall w: nat | w < v :: View(d, w).Present?) && Needed(c, 0, v) <= free
  }

  ghost predicate Holes(d: Dir, c: Dir, n: nat, free: nat) {
    exists v: nat :: HoleAt(d, c, n, free, v)
  }

  lemma MeetsHole(d: Dir, c: Dir, n: nat, free: nat, v: nat)
    requires HoleAt(d, c, n, free, v)
    ensures Holes(d, c, n, free)
  {
  }

  lemma NoHole(d: Dir, c: Dir, a: nat, n: nat, free: nat)
    requires a <= n && forall w: nat | w < a :: View(d, w).Present?
    requires a == n || (View(d, a).Present? && Needed(c, 0, a + 1) > free)
    ensures !Holes(d, c, n, free)
  {
    hide View, NeedsTable;
    if v: nat :| HoleAt(d, c, n, free, v) {
      NeededGrows(c, 0, a + 1, v);
    }
  }

  /** Page v is a writable user page of zeros. */
  ghost predicate NewPage(d: Dir, mem: map<nat, Page>, v: nat) {
    && View(d, v).Present? && View(d, v).flags == 6  // PTE_W | PTE_U
    && View(d, v).frame in mem && ZeroPage(mem[View(d, v).frame])
  }

  lemma GrownPages(id: nat, d0: Dir, d: Dir, owner0: map<nat, Use>, owner: map<nat, Use>, m0: map<nat, Page>,
                   mem: map<nat, Page>, lo: nat, hi: nat)
    requires Growing(id, d0, d, owner0, owner, m0, mem, lo, hi, NewFlags(), ZeroPages())
    ensures forall v: nat | lo <= v < hi :: NewPage(d, mem, v)
  {
    hide View, Given, TablesGrown;
    forall v: nat | lo <= v < hi
      ensures NewPage(d, mem, v)
    {
      assert GrownAt(d0, d, lo, hi, NewFlags(), v) && HoldsPage(d, mem, v, ZeroPages()(v));
    }
  }

  /** Page v of directory c has the flags and the contents of the same page of d. */
  ghost predicate PageCopied(d: Dir, m0: map<nat, Page>, c: Dir, mem: map<nat, Page>, v: nat) {
    && View(d, v).Present? && View(c, v).Present? && View(c, v).flags == View(d, v).flags
    && View(d, v).frame in m0 && View(c, v).frame in mem && mem[View(c, v).frame] == m0[View(d, v).frame]
  }

  lemma CopiedPages(id: nat, d: Dir, owner0: map<nat, Use>, child: nat, c0: Dir, c: Dir, owner: map<nat, Use>,
                    m0: map<nat, Page>, mem: map<nat, Page>, n: nat)
    requires Growing(child, c0, c, owner0, owner, m0, mem, 0, n, FlagsOf(d), ContentsOf(d, m0)) && n <= USERPAGES
    requires Owns(id, d, owner0) && (forall f | f in owner0 :: f in m0)
    requires forall v: nat | v < n :: View(d, v).Present?
    ensures forall v: nat | v < n :: PageCopied(d, m0, c, mem, v)
  {
    hide View, Given, TablesGrown;
    forall v: nat | v < n
      ensures PageCopied(d, m0, c, mem, v)
    {
      assert GrownAt(c0, c, 0, n, FlagsOf(d), v) && HoldsPage(c, mem, v, ContentsOf(d, m0)(v));
      assert PageOwned(id, d, owner0, v);
    }
  }

  /** Memory runs out just when a page's frame is taken and the table for it is not. */
  ghost predicate RunsOutOnTable(d: Dir, n: nat, free: nat) {
    exists i: nat :: i < n && NeedsTable(d, 0, i) && Needed(d, 0, i) + 1 == free
  }

  lemma RunsOutOnPage(d: Dir, n: nat, a: nat)
    requires a < n
    ensures !RunsOutOnTable(d, n, Needed(d, 0, a))
  {
    forall i: nat | i < n && NeedsTable(d, 0, i)
      ensures Needed(d, 0, i) + 1 != Needed(d, 0, a)
    {
      if i < a {
        NeededStep(d, 0, i, a);
      } else {
        NeededGrows(d, 0, a, i);
      }
    }
  }

  /** A growing child concerns no other directory. */
  lemma GivenOther(id: nat, d: Dir, owner0: map<nat, Use>, owner: map<nat, Use>, child: nat, lo: nat, a: nat)
    requires Owns(id, d, owner0) && Given(owner0, owner, child, lo, a) && child != id
    ensures Owns(id, d, owner)
  {
    OwnsSame(id, d, owner0, owner);
  }

  lemma GivenWithout(owner0: map<nat, Use>, owner: map<nat, Use>, id: nat, lo: nat, a: nat)
    requires Given(owner0, owner, id, lo, a)
    ensures Without(owner, id) == Without(owner0, id)
  {
  }

  lemma WithoutTaken(owner: map<nat, Use>, id: nat, f: nat)
    requires f !in owner
    ensures Without(owner[f := Elsewhere], id) == Without(owner, id)[f := Elsewhere]
  {
  }

  ghost predicate HasDir(id: nat, frame: nat, owner: map<nat, Use>) {
    && frame in owner && owner[frame] == DirOf(id)
    && forall f | f in owner && owner[f] == DirOf(id) :: f == frame
  }

  lemma DirSize(d: Dir)
    requires DirOk(d)
    ensures |d| == NPDENTRIES
  {
  }

  lemma FreedElsewhere(m0: map<nat, Page>, mem: map<nat, Page>, owner: map<nat, Use>, f: nat)
    requires forall g | g in owner :: SameFrame(m0, mem, g)
    ensures forall g | g in owner - {f} :: SameFrame(m0, mem[f := JUNKPAGE], g)
  {
  }

  /** Pages entered by allocuvm or copyuvm lie in frames nobody used before, so writes to them reach no other page. */
  lemma EnteredFresh(id: nat, d0: Dir, d: Dir, owner0: map<nat, Use>, owner: map<nat, Use>, m0: map<nat, Page>,
                     mem: map<nat, Page>, lo: nat, a: nat, flags: nat -> int, contents: nat -> Page, v: nat)
    requires Growing(id, d0, d, owner0, owner, m0, mem, lo, a, flags, contents) && lo <= v < a <= USERPAGES
    requires Owns(id, d0, owner0) && Owns(id, d, owner)
    ensures View(d, v).Present? && View(d, v).frame !in owner0
  {
    hide View, HoldsPage, TablesGrown;
    assert GrownAt(d0, d, lo, a, flags, v) && PageOwned(id, d, owner, v) && UseKnown(id, d0, owner0, View(d, v).frame);
  }

  /** Growing and then shrinking back gives the same flat map. */
  lemma GrowThenShrink(d0: Dir, d: Dir, d': Dir, lo: nat, hi: nat, flags: nat -> int)
    requires Grown(d0, d, lo, hi, flags) && Cleared(d, d', lo, hi) && lo <= hi
    ensures forall v: nat :: View(d', v) == View(d0, v)
  {
    hide View, SameTables;
    forall v: nat
      ensures View(d', v) == View(d0, v)
    {
      assert GrownAt(d0, d, lo, hi, flags, v);
    }
  }

  datatype Entry = Entered(f: nat) | NoFrame | NoTableFrame(f: nat) | Remap

  /** The parent's page is still what it was when the copy began. */
  lemma ReadParent(id: nat, d: Dir, owner0: map<nat, Use>, owner: map<nat, Use>, m0: map<nat, Page>,
                   mem: map<nat, Page>, child: nat, c0: Dir, c: Dir, i: nat, flags: nat -> int, contents: nat -> Page)
    requires Owns(id, d, owner0) && i < USERPAGES && View(d, i).Present?
    requires Growing(child, c0, c, owner0, owner, m0, mem, 0, i, flags, contents)
    requires flags == FlagsOf(d) && contents == ContentsOf(d, m0)
    ensures View(d, i).frame in mem && mem[View(d, i).frame] == contents(i) && flags(i) == View(d, i).flags
  {
    hide View, Grown, TablesGrown, Given, HoldsPage;
    assert PageOwned(id, d, owner0, i);
    assert SameFrame(m0, mem, View(d, i).frame);
  }

  lemma ParentKept(id: nat, d: Dir, frame: nat, owner0: map<nat, Use>, owner: map<nat, Use>, m0: map<nat, Page>,
                   mem: map<nat, Page>, child: nat, c0: Dir, c: Dir, i: nat, flags: nat -> int, contents: nat -> Page)
    requires Owns(id, d, owner0) && HasDir(id, frame, owner0) && child != id
    requires Growing(child, c0, c, owner0, owner, m0, mem, 0, i, flags, contents)
    ensures Owns(id, d, owner) && HasDir(id, frame, owner)
  {
    hide View, Grown, TablesGrown, HoldsPage, Owns;
    GivenOther(id, d, owner0, owner, child, 0, i);
  }

  lemma OthersKept(id: nat, d: Dir, frame: nat, owner0: map<nat, Use>, child: nat)
    requires Owns(id, d, owner0) && HasDir(id, frame, owner0) && child != id
    ensures Owns(id, d, Without(owner0, child)) && HasDir(id, frame, Without(owner0, child))
  {
    OwnsSame(id, d, owner0, Without(owner0, child));
  }

  /** What is left of a copy that failed at page i: nothing, or the one frame taken last. */
  lemma CopyUndone(id: nat, d: Dir, frame: nat, owner0: map<nat, Use>, owner: map<nat, Use>, owner2: map<nat, Use>,
                   m0: map<nat, Page>, mem: map<nat, Page>, mem2: map<nat, Page>, mem': map<nat, Page>,
                   child: nat, c0: Dir, c: Dir, i: nat, n: nat, flags: nat -> int, contents: nat -> Page, e: Entry,
                       fl: seq<nat>)
    requires Owns(id, d, owner0) && HasDir(id, frame, owner0) && child != id && i < n
    requires Growing(child, c0, c, owner0, owner, m0, mem, 0, i, flags, contents)
    requires Needed(c0, 0, i) <= |fl|
    requires e.NoFrame? ==> Needed(c0, 0, i) == |fl| && owner2 == owner && mem2 == mem
    requires e.NoTableFrame? ==>
             NeedsTable(c0, 0, i) && Needed(c0, 0, i) + 1 == |fl| && e.f == fl[|fl| - 1] && e.f !in owner
    requires e.NoTableFrame? ==> owner2 == owner[e.f := Elsewhere] && mem2 == mem[e.f := contents(i)]
    requires e.NoFrame? || e.NoTableFrame?
    requires forall f | f in Without(owner2, child) :: SameFrame(mem2, mem', f)
    ensures Without(owner2, child) ==
            if RunsOutOnTable(c0, n, |fl|) then Without(owner0, child)[fl[|fl| - 1] := Elsewhere]
            else Without(owner0, child)
    ensures Owns(id, d, Without(owner2, child)) && HasDir(id, frame, Without(owner2, child))
    ensures forall f | f in Without(owner0, child) :: SameFrame(m0, mem', f)
  {
    hide View, Grown, TablesGrown, HoldsPage, Owns, NeedsTable, Needed;
    GivenWithout(owner0, owner, child, 0, i);
    OthersKept(id, d, frame, owner0, child);
    if e.NoFrame? {
      RunsOutOnPage(c0, n, i);
    } else {
      WithoutTaken(owner, child, e.f);
      assert RunsOutOnTable(c0, n, |fl|);
      OwnsTaken(id, d, Without(owner0, child), e.f);
    }
    forall f | f in Without(owner0, child)
      ensures SameFrame(m0, mem', f)
    {
      assert SameFrame(m0, mem, f) && f in Without(owner2, child) && SameFrame(mem2, mem', f);
    }
  }

  /** A process's page directory. */
  class PgDir {
    const id: nat
    const frame: nat
    var pdes: Dir

    ghost predicate Valid(k: Kmem)
      reads this, k
    {
      k.Valid() && Owns(id, pdes, k.owner) && HasDir(id, frame, k.owner)
    }

    /** walkpgdir: finds the table for page v, or makes one when asked to and a frame is free. */
    method Walk(k: Kmem, v: nat, alloc: bool) returns (found: bool)
      requires Valid(k) && v < USERPAGES
      modifies this`pdes, k`freelist, k`owner
      ensures Valid(k) && (found <==> HasTable(pdes, v))
      ensures found <==> old(HasTable(pdes, v)) || (alloc && old(k.freelist) != [])
      ensures old(HasTable(pdes, v)) || !found ==>
              pdes == old(pdes) && k.freelist == old(k.freelist) && k.owner == old(k.owner)
      ensures found && !old(HasTable(pdes, v)) ==>
                && old(k.freelist) == [old(k.freelist)[0]] + k.freelist && old(k.freelist)[0] !in old(k.owner)
                && pdes == AddTable(old(pdes), v, old(k.freelist)[0])
                && k.owner == old(k.owner)[old(k.freelist)[0] := TableOf(id, Pdx(v))]
      ensures forall w: nat :: View(pdes, w) == old(View(pdes, w))
    {
      hide Pdx, Ptx, PageOwned, TableOwned, UseKnown, FramesOk;
      UserPdx(v);
      assert DirOk(pdes);
      if pdes[Pdx(v)].Table? {
        return true;
      }
      if !alloc {
        return false;
      }
      var f := k.Kalloc(TableOf(id, Pdx(v)));
      if f == 0 {
        return false;
      }
      OwnsNewTable(id, pdes, old(k.owner), v, f);
      TableView(pdes, v, f, v);
      forall w: nat
        ensures View(AddTable(pdes, v, f), w) == View(pdes, w)
      {
        TableView(pdes, v, f, w);
      }
      pdes := AddTable(pdes, v, f);
      return true;
    }

    /** mappages for one page; panics when the page is mapped already. */
    method MapPage(k: Kmem, v: nat, f: nat, flags: int) returns (r: int, panicked: bool)
      requires Valid(k) && v < USERPAGES && f in k.owner && k.owner[f].Elsewhere?
      modifies this`pdes, k`freelist, k`owner
      ensures panicked <==> old(View(pdes, v)).Present?
      ensures !panicked ==> Valid(k) && (r == 0 || r == -1)
      ensures !panicked ==> (r == -1 <==> !old(HasTable(pdes, v)) && old(k.freelist) == [])
      ensures !panicked && r == -1 ==> pdes == old(pdes) && k.freelist == old(k.freelist) && k.owner == old(k.owner)
      ensures !panicked && r == 0 ==>
                && (forall w: nat :: View(pdes, w) == if w == v then Present(f, flags) else old(View(pdes, w)))
                && OnlyTables(old(k.owner)[f := DataOf(id, v)], k.owner, id)
                && k.freelist == old(if HasTable(pdes, v) then k.freelist else k.freelist[1..])
                && (forall w: nat :: HasTable(pdes, w) <==> old(HasTable(pdes, w)) || Pdx(w) == Pdx(v))
    {
      hide Pdx, Ptx, PageOwned, TableOwned, UseKnown, FramesOk, View;
      r, panicked := 0, false;
      var found := Walk(k, v, true);
      if !found {
        NoTableAbsent(pdes, v);
        return -1, false;
      }
      if View(pdes, v).Present? {
        return 0, true;
      }
      OwnsMapped(id, pdes, k.owner, v, f, flags);
      forall w: nat
        ensures View(PutEntry(pdes, v, Present(f, flags)), w) == if w == v then Present(f, flags) else View(pdes, w)
      {
        PutView(pdes, v, Present(f, flags), w);
      }
      ReuseFrame(k.freelist, k.owner, k.all, f, DataOf(id, v));
      MapTables(old(pdes), pdes, v, Present(f, flags));
      pdes := PutEntry(pdes, v, Present(f, flags));
      k.owner := k.owner[f := DataOf(id, v)];
    }

    /** mappages: pages from v on in the frames from f on, a table at a time. */
    method MapPages(k: Kmem, v: nat, n: nat, f: nat, flags: int) returns (r: int, panicked: bool)
      requires Valid(k) && 0 < n && v + n <= USERPAGES
      requires forall g: nat | f <= g < f + n :: g in k.owner && k.owner[g].Elsewhere?
      modifies this`pdes, k`freelist, k`owner
      ensures !panicked ==> Valid(k) && (r == 0 || r == -1)
      ensures !panicked && r == 0 <==>
              old(TablesFor(pdes, v, n) <= |k.freelist| && forall w: nat | v <= w < v + n :: View(pdes, w).Absent?)
      ensures !panicked && r == 0 ==>
                && Lined(old(pdes), pdes, v, n, f, flags) && Handed(old(k.owner), k.owner, id, v, n, f)
                && k.freelist == old(k.freelist[TablesFor(pdes, v, n)..])
      ensures !panicked && r == -1 ==> k.freelist == [] && exists m: nat ::
                && m < n && Lined(old(pdes), pdes, v, m, f, flags) && Handed(old(k.owner), k.owner, id, v, m, f)
                && TablesFor(old(pdes), v, m) == old(|k.freelist|) && NeedsTable(old(pdes), v, v + m)
      ensures panicked <==> exists m: nat :: MappedAt(old(pdes), v, n, old(|k.freelist|), m)
    {
      hide Pdx, Ptx, Owns, FramesOk, View, HasTable, OnlyTables, Lined, Handed, NeedsTable, HasDir, MappedAt;
      ghost var d, own, fl := pdes, k.owner, k.freelist;
      LinedStart(d, own, id, v, f, flags);
      var i := 0;
      while true
        invariant i < n && Valid(k) && Lined(d, pdes, v, i, f, flags) && Handed(own, k.owner, id, v, i, f)
        invariant TablesFor(d, v, i) <= |fl| && k.freelist == fl[TablesFor(d, v, i)..]
        invariant forall w: nat | v <= w < v + i :: View(d, w).Absent?
        decreases n - i
      {
        LinedHere(d, pdes, own, k.owner, id, v, i, f, flags);
        TablesForGrows(d, v, i + 1, n);
        ghost var d1, own1 := pdes, k.owner;
        MapStops(d, v, i, n, |fl|);
        NoTableAbsent(pdes, v + i);
        r, panicked := MapPage(k, v + i, f + i, flags);
        if panicked || r < 0 {
          return;
        }
        LinedStep(d, d1, pdes, own, own1, k.owner, id, v, i, f, flags);
        i := i + 1;
        if i == n {
          break;
        }
      }
      MapStops(d, v, n, n, |fl|);
      return 0, false;
    }

    /** One turn of the loops of allocuvm and copyuvm: a frame is taken, filled and entered as page v. */
    method Enter(k: Kmem, v: nat, contents: Page, flags: int) returns (e: Entry)
      requires Valid(k) && v < USERPAGES
      modifies this`pdes, k`freelist, k`owner, k`mem
      ensures e.NoFrame? <==> old(k.freelist) == []
      ensures e.NoFrame? ==> k.owner == old(k.owner) && k.mem == old(k.mem) && k.freelist == []
      ensures !e.NoFrame? ==> (e.Remap? <==> old(View(pdes, v)).Present?)
      ensures e.NoTableFrame? <==> old(View(pdes, v).Absent? && !HasTable(pdes, v) && |k.freelist| == 1)
      ensures !e.Remap? ==> Valid(k)
      ensures e.NoFrame? || e.NoTableFrame? ==> pdes == old(pdes)
      ensures e.NoTableFrame? || e.Entered? ==>
              e.f == old(k.freelist[0]) && e.f !in old(k.owner) && k.mem == old(k.mem)[e.f := contents]
      ensures e.NoTableFrame? ==> k.owner == old(k.owner)[e.f := Elsewhere]
      ensures e.Entered? ==>
                && (forall w: nat :: View(pdes, w) == if w == v then Present(e.f, flags) else old(View(pdes, w)))
                && (forall w: nat :: HasTable(pdes, w) <==> old(HasTable(pdes, w)) || Pdx(w) == Pdx(v))
                && OnlyTables(old(k.owner)[e.f := Elsewhere][e.f := DataOf(id, v)], k.owner, id)
                && |old(k.freelist)| >= old(if HasTable(pdes, v) then 1 else 2)
                && k.freelist == old(k.freelist[if HasTable(pdes, v) then 1 else 2..])
    {
      hide Pdx, Ptx, Owns, FramesOk, View, HasTable, OnlyTables;
      var f := k.Kalloc(Elsewhere);
      if f == 0 {
        return NoFrame;
      }
      OwnsTaken(id, pdes, old(k.owner), f);
      k.mem := k.mem[f := contents];
      var q, panicked := MapPage(k, v, f, flags);
      e := if panicked then Remap else if q < 0 then NoTableFrame(f) else Entered(f);
    }

    /** deallocuvm: its jump over missing tables frees exactly what a page-by-page scan would. */
    method DeallocUvm(k: Kmem, oldsz: nat, newsz: nat) returns (r: nat)
      requires Valid(k) && oldsz <= KERNBASE
      modifies this`pdes, k`freelist, k`owner, k`mem
      ensures Valid(k)
      ensures newsz >= oldsz ==>
              r == oldsz && pdes == old(pdes) && k.freelist == old(k.freelist) && k.owner == old(k.owner)
              && k.mem == old(k.mem)
      ensures newsz < oldsz ==>
                && r == newsz && Cleared(old(pdes), pdes, Pages(newsz), Pages(oldsz))
                && k.freelist == Freed(old(pdes), Pages(newsz), Pages(oldsz)) + old(k.freelist)
                && k.owner == old(k.owner) - Elements(Freed(old(pdes), Pages(newsz), Pages(oldsz)))
                && (forall f | f in k.owner :: SameFrame(old(k.mem), k.mem, f))
    {
      hide Pdx, Ptx, Owns, FramesOk, View, Pages, Cleared, HasTable, DirOk, Freed, Elements;
      if newsz >= oldsz {
        return oldsz;
      }
      ghost var d, fl, own, m, lo, hi := pdes, k.freelist, k.owner, k.mem, Pages(newsz), Pages(oldsz);
      PagesUpTo(newsz, oldsz);
      OwnsOk(id, d, own);
      NothingCleared(d, lo);
      MemHolds(k.freelist, k.owner, k.all, k.mem);
      var a := Pages(newsz);
      FreeNone(fl, own);
      while a * PGSIZE < oldsz
        invariant lo <= a && Valid(k) && Cleared(d, pdes, lo, Min(a, hi))
        invariant k.freelist == Freed(d, lo, Min(a, hi)) + fl && k.owner == own - Elements(Freed(d, lo, Min(a, hi)))
        invariant forall f | f in k.owner :: SameFrame(m, k.mem, f)
        decreases USERPAGES - a
      {
        PageBelow(a, oldsz);
        ghost var now := pdes;
        ClearedAt(d, now, lo, a);
        var found := Walk(k, a, false);
        if !found {
          JumpedAbsent(d, a);
          FreedNothing(d, lo, a, Min(NextTable(a), hi));
          ClearedMore(d, now, lo, a, Min(NextTable(a), hi));
          a := NextTable(a) - 1;
        } else {
          ClearNext(d, now, lo, a);
          FreedNext(d, lo, a);
          if View(pdes, a).Present? {
            OwnsUnmapped(id, pdes, k.owner, a);
            DirKept(id, pdes, k.owner, frame, a);
            k.Kfree(View(pdes, a).frame);
            pdes := PutEntry(pdes, a, Absent);
            FreeStep(Freed(d, lo, a), View(now, a).frame, fl, own);
          }
        }
        a := a + 1;
      }
      PageBelow(a, oldsz);
      return newsz;
    }

    /** allocuvm: all the pages of [oldsz, newsz) zeroed, or none of them. */
    method AllocUvm(k: Kmem, oldsz: nat, newsz: nat) returns (r: nat, panicked: bool)
      requires Valid(k)
      modifies this`pdes, k`freelist, k`owner, k`mem
      ensures newsz >= KERNBASE || newsz < oldsz ==> !panicked && r == (if newsz >= KERNBASE then 0 else oldsz)
      ensures newsz >= KERNBASE || newsz < oldsz ==>
              pdes == old(pdes) && k.freelist == old(k.freelist) && k.owner == old(k.owner) && k.mem == old(k.mem)
      ensures oldsz <= newsz < KERNBASE ==>
                (panicked <==> Remaps(old(pdes), Pages(oldsz), Pages(newsz), old(|k.freelist|)))
      ensures oldsz <= newsz < KERNBASE && !panicked ==> var lo, hi := Pages(oldsz), Pages(newsz);
        && Valid(k)
        && if old(Needed(pdes, lo, hi) <= |k.freelist|) then
             && r == newsz && k.freelist == old(k.freelist[Needed(pdes, lo, hi)..])
             && (forall v: nat | lo <= v < hi :: NewPage(pdes, k.mem, v))
             && Growing(id, old(pdes), pdes, old(k.owner), k.owner, old(k.mem), k.mem, lo, hi, NewFlags(), ZeroPages())
           else
             && r == 0 && Restored(id, old(pdes), pdes, old(k.owner), k.owner, old(k.mem), k.mem, lo, hi)
    {
      hide Pdx, Ptx, Owns, FramesOk, View, Pages, Cleared, HasTable, DirOk, Freed, Elements, Growing, NeedsTable,
           OnlyTables, Restored, Needed, SameFrame, Remaps, NewPage;
      if newsz >= KERNBASE {
        return 0, false;
      }
      if newsz < oldsz {
        return oldsz, false;
      }
      ghost var d, fl, own, m, lo, hi := pdes, k.freelist, k.owner, k.mem, Pages(oldsz), Pages(newsz);
      PagesUpTo(oldsz, newsz);
      MemHolds(fl, own, k.all, m);
      GrowStart(id, d, own, m, lo, NewFlags(), ZeroPages());
      var a := Pages(oldsz);
      while a * PGSIZE < newsz
        invariant lo <= a <= hi && Valid(k) && Needed(d, lo, a) <= |fl| && k.freelist == fl[Needed(d, lo, a)..]
        invariant Growing(id, d, pdes, own, k.owner, m, k.mem, lo, a, NewFlags(), ZeroPages())
        invariant forall w: nat | lo <= w < a :: View(d, w).Absent?
      {
        PageBelow(a, newsz);
        PageBelow(a, oldsz);
        GrowHere(id, d, pdes, own, k.owner, m, k.mem, lo, a, NewFlags(), ZeroPages());
        NeededStep(d, lo, a, hi);
        ghost var now, own1, mem1 := pdes, k.owner, k.mem;
        var e := Enter(k, a, ZEROPAGE, WRITABLE_USER);
        if e.Remap? {
          assert RemapAt(d, lo, hi, |fl|, a);
          MeetsRemap(d, lo, hi, |fl|, a);
          return 0, true;
        }
        if !e.Entered? { NoRemap(d, lo, a, hi, |fl|); }
        if e.NoFrame? {
          r := DeallocUvm(k, newsz, oldsz);
          GrowUndone(id, d, now, pdes, own, own1, m, mem1, k.mem, lo, a, hi, NewFlags(), ZeroPages());
          return 0, false;
        }
        if e.NoTableFrame? {
          TakenNotFreed(id, now, k.owner, lo, hi, e.f);
          ghost var mem2 := k.mem;
          r := DeallocUvm(k, newsz, oldsz);
          OwnsReturned(id, pdes, k.owner, e.f);
          ReturnLast(own1, e.f, Elements(Freed(now, lo, hi)), mem1, mem2, k.mem, ZEROPAGE, JUNKPAGE);
          k.Kfree(e.f);
          GrowUndone(id, d, now, pdes, own, own1, m, mem1, k.mem, lo, a, hi, NewFlags(), ZeroPages());
          return 0, false;
        }
        GrowStep(id, d, now, pdes, own, own1, k.owner, m, mem1, lo, a, NewFlags(), ZeroPages(), e.f);
        a := a + 1;
      }
      PageBelow(a, newsz);
      NoRemap(d, lo, hi, hi, |fl|);
      GrownPages(id, d, pdes, own, k.owner, m, k.mem, lo, hi);
      return newsz, false;
    }

    /** freevm: every page, every table and the directory are free again, and nothing else is. */
    method FreeVm(k: Kmem)
      requires Valid(k)
      modifies this`pdes, k`freelist, k`owner, k`mem
      ensures k.Valid() && k.owner == Without(old(k.owner), id)
      ensures forall f | f in k.owner :: SameFrame(old(k.mem), k.mem, f)
    {
      hide Owns, FramesOk, View, Cleared, Freed, Elements, TablesLeft, DirOk, SameFrame, Without, HasDir;
      PagesGone(id, pdes, k.owner);
      var r := DeallocUvm(k, KERNBASE, 0);
      assert Pages(KERNBASE) == USERPAGES;
      ghost var own, d := k.owner, pdes;
      OwnsOk(id, d, own);
      DirSize(d);
      var i := 0;
      while i < NPDENTRIES
        invariant 0 <= i <= NPDENTRIES && k.Valid() && pdes == d && TablesLeft(own, k.owner, id, i)
        invariant forall f | f in k.owner :: SameFrame(old(k.mem), k.mem, f)
      {
        TableGone(id, d, own, k.owner, i);
        if pdes[i].Table? {
          FreedElsewhere(old(k.mem), k.mem, k.owner, pdes[i].frame);
          k.Kfree(pdes[i].frame);
        }
        i := i + 1;
      }
      AllGone(id, d, own, k.owner, frame);
      FreedElsewhere(old(k.mem), k.mem, k.owner, frame);
      k.Kfree(frame);
    }

    /** copyuvm; the child's directory is what setupkvm answers, null when it finds no memory. */
    method CopyUvm(k: Kmem, sz: nat, child: PgDir?) returns (ok: bool, panicked: bool)
      requires Valid(k) && sz <= KERNBASE
      requires child != null ==>
                 && child.Valid(k) && child != this && child.id != id
                 && forall v: nat | v < USERPAGES :: View(child.pdes, v).Absent?
      modifies this`pdes, child, k`freelist, k`owner, k`mem
      ensures pdes == old(pdes)
      ensures child != null ==> (panicked <==> Holes(pdes, old(child.pdes), Pages(sz), old(|k.freelist|)))
      ensures child == null ==>
              !ok && !panicked && k.freelist == old(k.freelist) && k.owner == old(k.owner) && k.mem == old(k.mem)
      ensures !panicked ==> Valid(k)
      ensures child != null && !panicked ==> var n, free := Pages(sz), old(|k.freelist|);
        && (ok <==> old(Needed(child.pdes, 0, n)) <= free)
        && (ok ==>
            && child.Valid(k) && (forall v: nat | v < n :: PageCopied(pdes, old(k.mem), child.pdes, k.mem, v))
            && k.freelist == old(k.freelist[Needed(child.pdes, 0, n)..])
            && Growing(child.id, old(child.pdes), child.pdes, old(k.owner), k.owner, old(k.mem), k.mem, 0, n,
               FlagsOf(pdes), ContentsOf(pdes, old(k.mem))))
        && (!ok ==>
            && k.owner == (if RunsOutOnTable(old(child.pdes), n, free)
                           then Without(old(k.owner), child.id)[old(k.freelist)[free - 1] := Elsewhere]
                           else Without(old(k.owner), child.id))
            && (forall f | f in Without(old(k.owner), child.id) :: SameFrame(old(k.mem), k.mem, f)))
    {
      hide Pdx, Ptx, Owns, FramesOk, View, Pages, Cleared, HasTable, DirOk, Growing, NeedsTable, Needed, SameFrame,
           HasDir, OnlyTables, RunsOutOnTable, Without, Holes, PageCopied;
      if child == null {
        return false, false;
      }
      ghost var d, fl, own, m, n := child.pdes, k.freelist, k.owner, k.mem, Pages(sz);
      ghost var flags, contents := FlagsOf(pdes), ContentsOf(pdes, m);
      PagesUpTo(sz, sz);
      MemHolds(fl, own, k.all, m);
      GrowStart(child.id, d, own, m, 0, flags, contents);
      var i := 0;
      while i * PGSIZE < sz
        invariant i <= n && Valid(k) && child.Valid(k) && pdes == old(pdes) && Needed(d, 0, i) <= |fl|
                  && k.freelist == fl[Needed(d, 0, i)..]
        invariant Growing(child.id, d, child.pdes, own, k.owner, m, k.mem, 0, i, flags, contents)
        invariant forall v: nat | v < i :: View(pdes, v).Present?
      {
        PageBelow(i, sz);
        var found := Walk(k, i, false);
        NoTableAbsent(pdes, i);
        if !found || View(pdes, i).Absent? {
          MeetsHole(pdes, d, n, |fl|, i);
          return false, true;
        }
        GrowHere(child.id, d, child.pdes, own, k.owner, m, k.mem, 0, i, flags, contents);
        NeededStep(d, 0, i, n);
        ghost var now, own1, mem1 := child.pdes, k.owner, k.mem;
        ReadParent(id, pdes, own, own1, m, mem1, child.id, d, now, i, flags, contents);
        var e := child.Enter(k, i, k.mem[View(pdes, i).frame], View(pdes, i).flags);
        if !e.Entered? {
          ghost var own2, mem2 := k.owner, k.mem;
          NoHole(pdes, d, i, n, |fl|);
          child.FreeVm(k);
          CopyUndone(id, pdes, frame, own, own1, own2, m, mem1, mem2, k.mem, child.id, d, now, i, n, flags, contents, e,
              fl);
          return false, false;
        }
        GrowStep(child.id, d, now, child.pdes, own, own1, k.owner, m, mem1, 0, i, flags, contents, e.f);
        ParentKept(id, pdes, frame, own, k.owner, m, k.mem, child.id, d, child.pdes, i + 1, flags, contents);
        i := i + 1;
      }
      PageBelow(i, sz);
      NoHole(pdes, d, n, n, |fl|);
      CopiedPages(id, pdes, own, child.id, d, child.pdes, k.owner, m, k.mem, n);
      return true, false;
    }
  }
}
