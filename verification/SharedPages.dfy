/**
 shm.c: shared pages with reference counts. Every process has a window of 32 pages below KERNBASE;
 slot i of its arrays describes the page at KERNBASE - PGSIZE * (i + 1).

 The state covers the shared page table, the processes' arrays, what their page tables map in the
 window, and the frame allocator of PageTable.dfy.
 */
module SharedPages {
  import opened Basics
  import opened PageTable

  const SHMEM_PAGES: nat := 32
  const MAX_HOLDERS := 16
  const KEY_SIZE: nat := 16

  // ---- Keys: 16 characters, ended by a NUL unless all are used ----

  function KeyName(a: string): (s: string)
    ensures NUL !in s && |s| <= |a|
  {
    CString(a, 0)
  }

  function NoKey(): (a: string)
    ensures |a| == KEY_SIZE && forall i | 0 <= i < KEY_SIZE :: a[i] == NUL
  {
    seq(KEY_SIZE, i => NUL)
  }

  /** memmove of strlen(key) characters into a key array. */
  function Blit(a: string, key: string): (r: string)
    requires |key| <= |a|
    ensures |r| == |a|
  {
    key + a[|key|..]
  }

  predicate IsKey(key: string) {
    0 < |key| <= KEY_SIZE && NUL !in key
  }

  lemma KeyKept(a: string, key: string)
    requires NUL !in key && |key| <= |a| && forall i | 0 <= i < |a| :: a[i] == NUL
    ensures KeyName(Blit(a, key)) == key
  {
    assert Blit(a, key)[0..|key|] == key;
    CStringIs(Blit(a, key), 0, |key|);
  }

  // ---- The state ----

  datatype State = Unused | Live | Zombie

  /**
   The shared-page fields of struct proc, the window of its page directory (the frame mapped in each slot,
   or 0), and the frame of the page table that holds the window's entries, or 0 before there is one.
   */
  datatype Proc = Proc(
    state: State, phys: seq<nat>, vm: seq<int>, pkey: seq<string>, bitmap: seq<int>, window: seq<nat>, table: nat)

  /** The directory entry of the window. */
  const WINDOW_PDX: nat := 511

  datatype Table = Table(addr: seq<nat>, counter: seq<int>, keys: seq<string>)

  function Va(i: nat): int {
    KERNBASE - PGSIZE * (i + 1)
  }

  function Has(pr: Proc, f: nat): (n: nat) {
    if f in pr.phys then 1 else 0
  }

  /** How many processes hold frame f. */
  function Holders(procs: seq<Proc>, f: nat): (n: nat) {
    if procs == [] then 0 else Holders(procs[..|procs| - 1], f) + Has(procs[|procs| - 1], f)
  }

  lemma {:induction false} HoldersUpdate(procs: seq<Proc>, p: nat, pr: Proc, f: nat)
    requires p < |procs|
    ensures Holders(procs[p := pr], f) == Holders(procs, f) - Has(procs[p], f) + Has(pr, f)
  {
    var n := |procs| - 1;
    if p == n {
      assert procs[p := pr][..n] == procs[..n];
    } else {
      HoldersUpdate(procs[..n], p, pr, f);
      assert procs[p := pr][..n] == procs[..n][p := pr];
    }
  }

  lemma {:induction false} HoldersSome(procs: seq<Proc>, f: nat)
    ensures Holders(procs, f) > 0 <==> exists p: nat :: p < |procs| && f in procs[p].phys
  {
    if procs != [] {
      var n := |procs| - 1;
      HoldersSome(procs[..n], f);
      if p: nat :| p < |procs| && f in procs[p].phys {
        if p < n { assert f in procs[..n][p].phys; }
      }
    }
  }

  predicate Shape(t: Table) {
    |t.addr| == SHMEM_PAGES && |t.counter| == SHMEM_PAGES && |t.keys| == SHMEM_PAGES
  }

  predicate ProcShape(pr: Proc) {
    && |pr.phys| == SHMEM_PAGES && |pr.vm| == SHMEM_PAGES && |pr.pkey| == SHMEM_PAGES
    && |pr.bitmap| == SHMEM_PAGES && |pr.window| == SHMEM_PAGES
  }

  /** An entry's counter is the number of its holders; a free entry has no key, frame or holder. */
  ghost predicate EntryOk(t: Table, procs: seq<Proc>, y: nat)
    requires Shape(t) && y < SHMEM_PAGES
  {
    && |t.keys[y]| == KEY_SIZE && t.counter[y] <= MAX_HOLDERS
    && (if t.addr[y] == 0 then t.counter[y] == 0 && t.keys[y] == NoKey()
        else t.counter[y] == Holders(procs, t.addr[y]) && KeyName(t.keys[y]) != [])
  }

  /** Different entries in use have different frames and different keys. */
  ghost predicate Apart(t: Table, y: nat, z: nat)
    requires Shape(t) && y < SHMEM_PAGES && z < SHMEM_PAGES
  {
    y != z && t.addr[y] != 0 && t.addr[z] != 0 ==> t.addr[y] != t.addr[z] && KeyName(t.keys[y]) != KeyName(t.keys[z])
  }

  ghost predicate Backs(t: Table, pr: Proc, i: nat, y: nat)
    requires Shape(t) && ProcShape(pr) && i < SHMEM_PAGES
  {
    y < SHMEM_PAGES && t.addr[y] == pr.phys[i] && KeyName(t.keys[y]) == KeyName(pr.pkey[i])
  }

  /** A slot in use maps the frame of one entry under that entry's key; a slot not in use maps nothing. */
  ghost predicate SlotOk(t: Table, pr: Proc, i: nat)
    requires Shape(t) && ProcShape(pr) && i < SHMEM_PAGES
  {
    && pr.window[i] == pr.phys[i] && |pr.pkey[i]| == KEY_SIZE
    && (pr.phys[i] != 0 ==>
       (exists y: nat :: Backs(t, pr, i, y)) && pr.bitmap[i] == 1 && pr.vm[i] == Va(i) && pr.table != 0)
  }

  ghost predicate SlotsApart(pr: Proc, i: nat, j: nat)
    requires ProcShape(pr) && i < SHMEM_PAGES && j < SHMEM_PAGES
  {
    i != j && pr.phys[i] != 0 ==> pr.phys[i] != pr.phys[j]
  }

  /** A running process has no trace of a page in a slot that is not in use. */
  ghost predicate SlotClean(pr: Proc, i: nat)
    requires ProcShape(pr) && i < SHMEM_PAGES
  {
    pr.phys[i] == 0 ==> pr.bitmap[i] == 0 && pr.pkey[i] == NoKey()
  }

  ghost predicate Clean(pr: Proc)
    requires ProcShape(pr)
  {
    forall i: nat | i < SHMEM_PAGES :: SlotClean(pr, i)
  }

  ghost predicate HoldsNothing(pr: Proc)
    requires ProcShape(pr)
  {
    forall i: nat | i < SHMEM_PAGES :: pr.phys[i] == 0
  }

  ghost predicate ProcOk(t: Table, pr: Proc)
    requires Shape(t)
  {
    && ProcShape(pr)
    && (forall i: nat | i < SHMEM_PAGES :: SlotOk(t, pr, i))
    && (forall i: nat, j: nat | i < SHMEM_PAGES && j < SHMEM_PAGES :: SlotsApart(pr, i, j))
  }

  ghost predicate TableOk(t: Table, procs: seq<Proc>) {
    && Shape(t)
    && (forall y: nat | y < SHMEM_PAGES :: EntryOk(t, procs, y))
    && (forall y: nat, z: nat | y < SHMEM_PAGES && z < SHMEM_PAGES :: Apart(t, y, z))
    && (forall p: nat | p < |procs| :: ProcOk(t, procs[p]))
  }

  /** No entry in use is without a holder. */
  ghost predicate Counted(t: Table)
    requires Shape(t)
  {
    forall y: nat | y < SHMEM_PAGES && t.addr[y] != 0 :: t.counter[y] >= 1
  }

  /** The frames used as shared pages are those of the table: none is lost and none is free. */
  ghost predicate FramesMatch(t: Table, owner: map<nat, Use>)
    requires Shape(t)
  {
    && (forall y: nat | y < SHMEM_PAGES && t.addr[y] != 0 :: t.addr[y] in owner && owner[t.addr[y]] == SharedPage)
    && (forall f | f in owner && owner[f] == SharedPage :: f in t.addr && f != 0)
  }

  ghost predicate Settled(pr: Proc) {
    && ProcShape(pr) && (pr.state == Unused ==> pr.table == 0)
    && (if pr.state == Live then Clean(pr) else HoldsNothing(pr))
  }

  /** A frame is some process's window table exactly when that process says so. */
  ghost predicate TableFrame(procs: seq<Proc>, owner: map<nat, Use>, p: nat) {
    p < |procs| && procs[p].table != 0 ==> procs[p].table in owner && owner[procs[p].table] == TableOf(p, WINDOW_PDX)
  }

  ghost predicate TableUse(procs: seq<Proc>, owner: map<nat, Use>, f: nat) {
    f in owner && owner[f].TableOf? && owner[f].x == WINDOW_PDX ==>
        owner[f].id < |procs| && procs[owner[f].id].table == f
  }

  ghost predicate TablesMatch(procs: seq<Proc>, owner: map<nat, Use>) {
    (forall p: nat :: TableFrame(procs, owner, p)) && (forall f: nat :: TableUse(procs, owner, f))
  }

  ghost predicate Inv(t: Table, procs: seq<Proc>, owner: map<nat, Use>) {
    && TableOk(t, procs) && Counted(t) && FramesMatch(t, owner) && TablesMatch(procs, owner)
    && forall p: nat | p < |procs| :: Settled(procs[p])
  }

  /** Steps that leave the window tables alone. */
  lemma TablesKept(procs: seq<Proc>, procs': seq<Proc>, owner: map<nat, Use>, owner': map<nat, Use>)
    requires TablesMatch(procs, owner) && |procs'| == |procs| && forall p: nat | p < |procs| ::
             procs'[p].table == procs[p].table
    requires forall f: nat :: SameTableUse(owner, owner', f)
    ensures TablesMatch(procs', owner')
  {
    forall p: nat ensures TableFrame(procs', owner', p) {
      assert TableFrame(procs, owner, p);
      if p < |procs| { assert SameTableUse(owner, owner', procs[p].table); }
    }
    forall f: nat ensures TableUse(procs', owner', f) {
      assert TableUse(procs, owner, f) && SameTableUse(owner, owner', f);
    }
  }

  ghost predicate SameTableUse(owner: map<nat, Use>, owner': map<nat, Use>, f: nat) {
    if f in owner && owner[f].TableOf? then f in owner' && owner'[f] == owner[f] else f in owner' ==>
        !owner'[f].TableOf?
  }

  // ---- What a slot gains and loses ----

  function Attach(pr: Proc, i: nat, f: nat, k: string): Proc
    requires ProcShape(pr) && i < SHMEM_PAGES
  {
    pr.(phys := pr.phys[i := f], vm := pr.vm[i := Va(i)], pkey := pr.pkey[i := k], bitmap := pr.bitmap[i := 1],
        window := pr.window[i := f])
  }

  function Detach(pr: Proc, i: nat): Proc
    requires ProcShape(pr) && i < SHMEM_PAGES
  {
    pr.(phys := pr.phys[i := 0], window := pr.window[i := 0])
  }

  lemma HasAttached(pr: Proc, i: nat, f: nat, k: string, g: nat)
    requires ProcShape(pr) && i < SHMEM_PAGES && pr.phys[i] == 0 && f !in pr.phys && g != 0
    ensures Has(Attach(pr, i, f, k), g) == Has(pr, g) + if g == f then 1 else 0
  {
    var q := pr.phys[i := f];
    assert q[i] == f;
    if g in pr.phys {
      var j :| 0 <= j < |q| && pr.phys[j] == g;
      assert q[j] == g;
    }
  }

  lemma HasDetached(t: Table, pr: Proc, i: nat, g: nat)
    requires Shape(t) && ProcOk(t, pr) && i < SHMEM_PAGES && pr.phys[i] != 0 && g != 0
    ensures Has(Detach(pr, i), g) == Has(pr, g) - if g == pr.phys[i] then 1 else 0
  {
    var q := pr.phys[i := 0];
    if g in pr.phys {
      var j: nat :| j < |q| && pr.phys[j] == g;
      assert SlotsApart(pr, i, j);
      assert j != i ==> q[j] == g;
    }
    forall j: nat | j < |q|
      ensures q[j] != pr.phys[i]
    {
      assert SlotsApart(pr, i, j);
    }
  }

  lemma ProcAttached(t: Table, t': Table, pr: Proc, i: nat, y: nat, k: string)
    requires Shape(t) && ProcOk(t, pr) && Shape(t') && t'.addr == t.addr && t'.keys == t.keys
    requires i < SHMEM_PAGES && y < SHMEM_PAGES && pr.phys[i] == 0 && t.addr[y] != 0 && t.addr[y] !in pr.phys
    requires |k| == KEY_SIZE && KeyName(k) == KeyName(t.keys[y]) && pr.table != 0
    ensures ProcOk(t', Attach(pr, i, t.addr[y], k))
  {
    var pr' := Attach(pr, i, t.addr[y], k);
    forall j: nat | j < SHMEM_PAGES
      ensures SlotOk(t', pr', j)
    {
      assert SlotOk(t, pr, j);
      if j == i {
        assert Backs(t', pr', i, y);
      } else if pr.phys[j] != 0 {
        var z: nat :| Backs(t, pr, j, z);
        assert Backs(t', pr', j, z);
      }
    }
    forall j: nat, l: nat | j < SHMEM_PAGES && l < SHMEM_PAGES
      ensures SlotsApart(pr', j, l)
    {
      assert SlotsApart(pr, j, l);
    }
  }

  /** Table changes that touch no key or frame in use keep every process right. */
  lemma ProcKept(t: Table, t': Table, pr: Proc)
    requires Shape(t) && ProcOk(t, pr) && Shape(t')
    requires forall y: nat | y < SHMEM_PAGES && t.addr[y] != 0 && t.addr[y] in pr.phys ::
             t'.addr[y] == t.addr[y] && t'.keys[y] == t.keys[y]
    ensures ProcOk(t', pr)
  {
    forall i: nat | i < SHMEM_PAGES
      ensures SlotOk(t', pr, i)
    {
      assert SlotOk(t, pr, i);
      if pr.phys[i] != 0 {
        var y: nat :| Backs(t, pr, i, y);
        assert Backs(t', pr, i, y);
      }
    }
  }

  lemma AttachStep(t: Table, procs: seq<Proc>, p: nat, i: nat, y: nat, k: string)
    requires TableOk(t, procs) && p < |procs| && i < SHMEM_PAGES && y < SHMEM_PAGES
    requires t.addr[y] != 0 && procs[p].phys[i] == 0 && t.addr[y] !in procs[p].phys && t.counter[y] < MAX_HOLDERS
    requires |k| == KEY_SIZE && KeyName(k) == KeyName(t.keys[y]) && procs[p].table != 0
    ensures TableOk(t.(counter := t.counter[y := t.counter[y] + 1]), procs[p := Attach(procs[p], i, t.addr[y], k)])
  {
    hide KeyName, Holders, Backs, SlotOk, SlotsApart;
    var t', pr' := t.(counter := t.counter[y := t.counter[y] + 1]), Attach(procs[p], i, t.addr[y], k);
    var procs' := procs[p := pr'];
    ProcAttached(t, t', procs[p], i, y, k);
    forall q: nat | q < |procs'|
      ensures ProcOk(t', procs'[q])
    {
      if q != p { ProcKept(t, t', procs[q]); }
    }
    forall z: nat | z < SHMEM_PAGES
      ensures EntryOk(t', procs', z)
    {
      assert EntryOk(t, procs, z) && Apart(t, y, z);
      HoldersUpdate(procs, p, pr', t.addr[z]);
      if t.addr[z] != 0 { HasAttached(procs[p], i, t.addr[y], k, t.addr[z]); }
    }
    forall z: nat, w: nat | z < SHMEM_PAGES && w < SHMEM_PAGES
      ensures Apart(t', z, w)
    {
      assert Apart(t, z, w);
    }
  }

  /** A process that lets go of slot i no longer needs entry y, whatever becomes of it. */
  lemma ProcDetached(t: Table, t': Table, pr: Proc, i: nat, y: nat)
    requires Shape(t) && ProcOk(t, pr) && Shape(t') && i < SHMEM_PAGES && y < SHMEM_PAGES
    requires pr.phys[i] != 0 && pr.phys[i] == t.addr[y]
    requires forall z: nat | z < SHMEM_PAGES && z != y :: t'.addr[z] == t.addr[z] && t'.keys[z] == t.keys[z]
    ensures ProcOk(t', Detach(pr, i))
  {
    var pr' := Detach(pr, i);
    forall j: nat | j < SHMEM_PAGES
      ensures SlotOk(t', pr', j)
    {
      assert SlotOk(t, pr, j) && SlotsApart(pr, i, j);
      if j != i && pr.phys[j] != 0 {
        var z: nat :| Backs(t, pr, j, z);
        assert Backs(t', pr', j, z);
      }
    }
    forall j: nat, l: nat | j < SHMEM_PAGES && l < SHMEM_PAGES
      ensures SlotsApart(pr', j, l)
    {
      assert SlotsApart(pr, j, l);
    }
  }

  /** The entry after its holder in hand lets go of it: freed with its last holder. */
  function Release(t: Table, y: nat): Table
    requires Shape(t) && y < SHMEM_PAGES
  {
    if t.counter[y] == 1 then Table.Table(t.addr[y := 0], t.counter[y := 0], t.keys[y := NoKey()])
    else t.(counter := t.counter[y := t.counter[y] - 1])
  }

  lemma ReleaseCounts(t: Table, procs: seq<Proc>, p: nat, i: nat, y: nat, z: nat)
    requires TableOk(t, procs) && p < |procs| && i < SHMEM_PAGES && y < SHMEM_PAGES && z < SHMEM_PAGES
    requires procs[p].phys[i] != 0 && procs[p].phys[i] == t.addr[y]
    ensures EntryOk(Release(t, y), procs[p := Detach(procs[p], i)], z)
  {
    hide KeyName, Holders, Backs, SlotOk;
    assert EntryOk(t, procs, z) && EntryOk(t, procs, y) && Apart(t, y, z);
    HoldersUpdate(procs, p, Detach(procs[p], i), t.addr[z]);
    if t.addr[z] != 0 { HasDetached(t, procs[p], i, t.addr[z]); }
  }

  lemma ReleaseStep(t: Table, procs: seq<Proc>, p: nat, i: nat, y: nat)
    requires TableOk(t, procs) && p < |procs| && i < SHMEM_PAGES && y < SHMEM_PAGES
    requires procs[p].phys[i] != 0 && procs[p].phys[i] == t.addr[y]
    ensures t.counter[y] >= 1 && TableOk(Release(t, y), procs[p := Detach(procs[p], i)])
  {
    hide KeyName, Holders, Backs, SlotOk, SlotsApart;
    var t', pr' := Release(t, y), Detach(procs[p], i);
    var procs' := procs[p := pr'];
    assert EntryOk(t, procs, y);
    HoldersUpdate(procs, p, pr', t.addr[y]);
    HasDetached(t, procs[p], i, t.addr[y]);
    HoldersSome(procs', t.addr[y]);
    ProcDetached(t, t', procs[p], i, y);
    forall q: nat | q < |procs'|
      ensures ProcOk(t', procs'[q])
    {
      if q != p {
        assert procs'[q] == procs[q];
        ProcKept(t, t', procs[q]);
      }
    }
    forall z: nat | z < SHMEM_PAGES
      ensures EntryOk(t', procs', z)
    {
      ReleaseCounts(t, procs, p, i, y, z);
    }
    forall z: nat, w: nat | z < SHMEM_PAGES && w < SHMEM_PAGES
      ensures Apart(t', z, w)
    {
      assert Apart(t, z, w);
    }
  }

  /** Frames outside the table have no holder. */
  lemma Unheld(t: Table, procs: seq<Proc>, f: nat)
    requires TableOk(t, procs) && f != 0 && f !in t.addr
    ensures Holders(procs, f) == 0
  {
    hide KeyName, Holders;
    HoldersSome(procs, f);
    forall p: nat | p < |procs|
      ensures f !in procs[p].phys
    {
      forall i: nat | i < SHMEM_PAGES
        ensures procs[p].phys[i] != f
      {
        assert SlotOk(t, procs[p], i);
      }
    }
  }

  lemma NewEntry(t: Table, procs: seq<Proc>, y: nat, f: nat, k: string)
    requires TableOk(t, procs) && y < SHMEM_PAGES && t.addr[y] == 0 && f != 0 && f !in t.addr
    requires |k| == KEY_SIZE && KeyName(k) != [] && forall z: nat | z < SHMEM_PAGES :: KeyName(t.keys[z]) != KeyName(k)
    ensures TableOk(t.(addr := t.addr[y := f], keys := t.keys[y := k]), procs)
  {
    hide KeyName, Holders, Backs, SlotOk, SlotsApart;
    var t' := t.(addr := t.addr[y := f], keys := t.keys[y := k]);
    Unheld(t, procs, f);
    forall q: nat | q < |procs|
      ensures ProcOk(t', procs[q])
    {
      ProcKept(t, t', procs[q]);
    }
    forall z: nat | z < SHMEM_PAGES
      ensures EntryOk(t', procs, z)
    {
      assert EntryOk(t, procs, z);
    }
    forall z: nat, w: nat | z < SHMEM_PAGES && w < SHMEM_PAGES
      ensures Apart(t', z, w)
    {
      assert Apart(t, z, w);
    }
  }

  // ---- find_pos always finds a slot ----

  lemma {:induction false} SubsetSize(a: set<nat>, b: set<nat>)
    requires a <= b
    ensures |a| <= |b|
  {
    if x :| x in a {
      SubsetSize(a - {x}, b - {x});
    }
  }

  lemma {:induction false} ElementsSize(s: seq<nat>)
    ensures |Elements(s)| <= |s|
    ensures Distinct(s) ==> |Elements(s)| == |s|
  {
    if s != [] {
      var n := |s| - 1;
      ElementsSize(s[..n]);
      assert s == s[..n] + [s[n]];
      assert Elements(s) == Elements(s[..n]) + {s[n]};
    }
  }

  /** A process that does not hold entry y holds at most the 31 others. */
  lemma RoomForOne(t: Table, pr: Proc, y: nat)
    requires Shape(t) && ProcOk(t, pr) && y < SHMEM_PAGES && (t.addr[y] == 0 || t.addr[y] !in pr.phys)
    ensures exists i: nat :: i < SHMEM_PAGES && pr.phys[i] == 0
  {
    hide KeyName;
    if forall i: nat | i < SHMEM_PAGES :: pr.phys[i] != 0 {
      var others := t.addr[..y] + t.addr[y + 1..];
      forall i: nat | i < SHMEM_PAGES
        ensures pr.phys[i] in Elements(others)
      {
        assert SlotOk(t, pr, i);
        var z: nat :| Backs(t, pr, i, z);
        assert t.addr[z] == if z < y then others[z] else others[z - 1];
      }
      forall i, j | 0 <= i < j < SHMEM_PAGES
        ensures pr.phys[i] != pr.phys[j]
      {
        assert SlotsApart(pr, i, j);
      }
      ElementsSize(pr.phys);
      ElementsSize(others);
      SubsetSize(Elements(pr.phys), Elements(others));
      assert false;
    }
  }

  // ---- What the invariant means ----

  /** Processes that use the same key share one frame, and only those do. */
  lemma SameKeySameFrame(t: Table, procs: seq<Proc>, owner: map<nat, Use>, p: nat, i: nat, q: nat, j: nat)
    requires Inv(t, procs, owner) && p < |procs| && q < |procs| && i < SHMEM_PAGES && j < SHMEM_PAGES
    requires procs[p].window[i] != 0 && procs[q].window[j] != 0
    ensures KeyName(procs[p].pkey[i]) == KeyName(procs[q].pkey[j]) <==> procs[p].window[i] == procs[q].window[j]
  {
    hide KeyName, Holders;
    assert SlotOk(t, procs[p], i) && SlotOk(t, procs[q], j);
    var y: nat :| Backs(t, procs[p], i, y);
    var z: nat :| Backs(t, procs[q], j, z);
    assert Apart(t, y, z);
  }

  /** No page table maps a free frame in its window; what is mapped there is a counted shared page. */
  lemma MappedIsCounted(t: Table, procs: seq<Proc>, owner: map<nat, Use>, p: nat, i: nat)
    requires Inv(t, procs, owner) && p < |procs| && i < SHMEM_PAGES && procs[p].window[i] != 0
    ensures procs[p].window[i] in owner && owner[procs[p].window[i]] == SharedPage
    ensures exists y: nat ::
            y < SHMEM_PAGES && t.addr[y] == procs[p].window[i]
            && 1 <= t.counter[y] == Holders(procs, t.addr[y]) <= MAX_HOLDERS
  {
    hide KeyName, Holders;
    assert SlotOk(t, procs[p], i);
    var y: nat :| Backs(t, procs[p], i, y);
    assert EntryOk(t, procs, y);
  }

  /** The frames that freevm finds in the window. */
  function WindowFrames(window: seq<nat>): seq<nat> {
    if window == [] then [] else (if window[0] != 0 then [window[0]] else []) + WindowFrames(window[1..])
  }

  lemma {:induction false} EmptyWindow(window: seq<nat>)
    requires forall i | 0 <= i < |window| :: window[i] == 0
    ensures WindowFrames(window) == []
  {
    if window != [] { EmptyWindow(window[1..]); }
  }

  /** When wait reaps a process, freevm finds no shared frame to free. */
  lemma ReapFreesNoShared(t: Table, procs: seq<Proc>, owner: map<nat, Use>, p: nat)
    requires Inv(t, procs, owner) && p < |procs| && procs[p].state == Zombie
    ensures WindowFrames(procs[p].window) == []
  {
    hide KeyName, Holders;
    assert Settled(procs[p]);
    forall i: nat | i < SHMEM_PAGES
      ensures procs[p].window[i] == 0
    {
      assert SlotOk(t, procs[p], i);
    }
    EmptyWindow(procs[p].window);
  }

  /** A shared frame stays in use exactly as long as some process maps it. */
  lemma KeptWhileHeld(t: Table, procs: seq<Proc>, owner: map<nat, Use>, f: nat)
    requires Inv(t, procs, owner) && f != 0
    ensures (f in owner && owner[f] == SharedPage) <==> exists p: nat :: p < |procs| && f in procs[p].window
  {
    hide KeyName, Holders;
    HoldersSome(procs, f);
    forall p: nat | p < |procs|
      ensures procs[p].window == procs[p].phys
    {
      forall i: nat | i < SHMEM_PAGES
        ensures procs[p].window[i] == procs[p].phys[i]
      {
        assert SlotOk(t, procs[p], i);
      }
    }
    if f in owner && owner[f] == SharedPage {
      var y: nat :| y < SHMEM_PAGES && t.addr[y] == f;
      assert EntryOk(t, procs, y);
    }
    if p: nat :| p < |procs| && f in procs[p].window {
      var i: nat :| i < SHMEM_PAGES && procs[p].window[i] == f;
      MappedIsCounted(t, procs, owner, p, i);
    }
  }

  // ---- The operations ----

  /** A process as allocproc leaves it, with the empty window of a new page table. */
  function Blank(): (pr: Proc)
    ensures ProcShape(pr) && HoldsNothing(pr) && Clean(pr) && pr.state == Live && pr.table == 0
  {
    Proc(Live, seq(SHMEM_PAGES, i => 0), seq(SHMEM_PAGES, i => 0), seq(SHMEM_PAGES, i => NoKey()),
        seq(SHMEM_PAGES, i => 0), seq(SHMEM_PAGES, i => 0), 0)
  }

  function NoPages(): (t: Table)
    ensures Shape(t) && forall y | 0 <= y < SHMEM_PAGES :: t.addr[y] == 0 && t.counter[y] == 0 && t.keys[y] == NoKey()
  {
    Table.Table(seq(SHMEM_PAGES, i => 0), seq(SHMEM_PAGES, i => 0), seq(SHMEM_PAGES, i => NoKey()))
  }

  /** Replacing a process that holds nothing by one that holds nothing. */
  lemma SwapBlank(t: Table, procs: seq<Proc>, owner: map<nat, Use>, c: nat, pr: Proc)
    requires Inv(t, procs, owner) && c < |procs| && HoldsNothing(procs[c]) && Settled(pr) && HoldsNothing(pr)
    requires pr.table == procs[c].table && forall i: nat | i < SHMEM_PAGES ::
             pr.window[i] == 0 && |pr.pkey[i]| == KEY_SIZE
    ensures Inv(t, procs[c := pr], owner)
  {
    hide KeyName, Holders;
    var procs' := procs[c := pr];
    forall y: nat | y < SHMEM_PAGES
      ensures EntryOk(t, procs', y)
    {
      assert EntryOk(t, procs, y);
      HoldersUpdate(procs, c, pr, t.addr[y]);
    }
    TablesKept(procs, procs', owner, owner);
    forall q: nat | q < |procs'|
      ensures ProcOk(t, procs'[q]) && Settled(procs'[q])
    {
      assert ProcOk(t, procs[q]) && Settled(procs[q]);
      if q == c {
        forall i: nat | i < SHMEM_PAGES ensures SlotOk(t, pr, i) {}
      }
    }
  }

  lemma KeySizes(t: Table, procs: seq<Proc>)
    requires TableOk(t, procs)
    ensures Shape(t) && forall y: nat | y < SHMEM_PAGES :: |t.keys[y]| == KEY_SIZE
  {
    forall y: nat | y < SHMEM_PAGES ensures |t.keys[y]| == KEY_SIZE { assert EntryOk(t, procs, y); }
  }

  /** Process p has gained the page of entry y in its first free slot, and the entry one more holder. */
  ghost predicate AttachedTo(t0: Table, procs0: seq<Proc>, t: Table, procs: seq<Proc>, p: nat, y: nat, f: nat,
                             key: string)
    requires Shape(t0) && p < |procs0| && ProcShape(procs0[p]) && y < SHMEM_PAGES && |key| <= KEY_SIZE
  {
    exists pos: nat ::
      && pos < SHMEM_PAGES && procs0[p].phys[pos] == 0 && (forall j: nat | j < pos :: procs0[p].phys[j] != 0)
      && procs == procs0[p := Attach(procs0[p], pos, f, Blit(NoKey(), key))]
      && t == Table.Table(t0.addr[y := f], t0.counter[y := t0.counter[y] + 1],
         if t0.addr[y] == 0 then t0.keys[y := Blit(NoKey(), key)] else t0.keys)
  }

  datatype Outcome = Ok | Exits | Panics

  datatype ForkOutcome = Forked | Capped | NoFrame

  function NeedsTable(pr: Proc): nat {
    if pr.table == 0 then 1 else 0
  }

  /** The frame of the window's table: the one there is, or free frame i. */
  function TableFor(pr: Proc, freelist: seq<nat>, i: nat): nat {
    if pr.table != 0 then pr.table else if i < |freelist| then freelist[i] else 0
  }

  function Tabled(procs: seq<Proc>, p: nat, f: nat): seq<Proc>
    requires p < |procs|
  {
    procs[p := procs[p].(table := f)]
  }

  ghost predicate HoldsSome(pr: Proc, i: nat) {
    exists j: nat :: j < i && j < |pr.phys| && pr.phys[j] != 0
  }

  /** After manage_fork has looked at i slots, the child has a window table exactly if one of them was in use. */
  ghost predicate ChildTable(parent: Proc, child: Proc, c: nat, i: nat, fl0: seq<nat>, fl: seq<nat>,
                             own0: map<nat, Use>, own: map<nat, Use>) {
    if HoldsSome(parent, i) then
      fl0 != [] && child.table == fl0[0] && fl0[0] != 0 && fl == fl0[1..]
          && own == own0[fl0[0] := TableOf(c, WINDOW_PDX)]
    else child.table == 0 && fl == fl0 && own == own0
  }

  /** The page at va in this process is the one of that key. */
  ghost predicate Maps(t: Table, pr: Proc, key: string, va: int)
    requires Shape(t) && ProcShape(pr)
  {
    exists i: nat, y: nat ::
        i < SHMEM_PAGES && y < SHMEM_PAGES && va == Va(i) && KeyName(t.keys[y]) == key && t.addr[y] != 0
        && pr.window[i] == t.addr[y]
  }

  ghost predicate Known(t: Table, key: string, y: nat)
    requires Shape(t)
  {
    y < SHMEM_PAGES && KeyName(t.keys[y]) == key
  }

  ghost predicate HasKey(pr: Proc, key: string, i: nat)
    requires ProcShape(pr)
  {
    i < SHMEM_PAGES && KeyName(pr.pkey[i]) == key
  }

  /** Slot addresses are different pages right below KERNBASE, all in the page table of the window. */
  lemma VaLayout(i: nat)
    requires i < SHMEM_PAGES
    ensures Va(i) % PGSIZE == 0 && KERNBASE - SHMEM_PAGES * PGSIZE <= Va(i) < KERNBASE
    ensures Pdx(Va(i) / PGSIZE) == WINDOW_PDX && Ptx(Va(i) / PGSIZE) == NPTENTRIES - 1 - i
  {
  }

  /** An address shmget returns is a page of the window. */
  lemma MapsInWindow(t: Table, pr: Proc, key: string, va: int)
    requires Shape(t) && ProcShape(pr) && Maps(t, pr, key, va)
    ensures va % PGSIZE == 0 && KERNBASE - SHMEM_PAGES * PGSIZE <= va < KERNBASE
    ensures Pdx(va / PGSIZE) == WINDOW_PDX
  {
    hide KeyName, Va, Pdx;
    var i: nat, y: nat :| i < SHMEM_PAGES && y < SHMEM_PAGES && va == Va(i) && KeyName(t.keys[y]) == key
                          && t.addr[y] != 0 && pr.window[i] == t.addr[y];
    VaLayout(i);
  }

  lemma SlotAddresses(i: nat, j: nat)
    requires i < SHMEM_PAGES && j < SHMEM_PAGES
    ensures Va(i) == Va(j) <==> i == j
  {
    hide Va;
    VaLayout(i);
    VaLayout(j);
  }

  /** One address of a process is one page, and one page is at one address. */
  lemma OneAddressOnePage(t: Table, procs: seq<Proc>, owner: map<nat, Use>, p: nat, k1: string, va1: int, k2: string,
                          va2: int)
    requires Inv(t, procs, owner) && p < |procs|
    requires ProcShape(procs[p]) && Maps(t, procs[p], k1, va1) && Maps(t, procs[p], k2, va2)
    ensures va1 == va2 <==> k1 == k2
  {
    hide KeyName, Va, Holders;
    var i: nat, y: nat :| i < SHMEM_PAGES && y < SHMEM_PAGES && va1 == Va(i) && KeyName(t.keys[y]) == k1
                          && t.addr[y] != 0 && procs[p].window[i] == t.addr[y];
    var j: nat, z: nat :| j < SHMEM_PAGES && z < SHMEM_PAGES && va2 == Va(j) && KeyName(t.keys[z]) == k2
                          && t.addr[z] != 0 && procs[p].window[j] == t.addr[z];
    SlotAddresses(i, j);
    assert Apart(t, y, z) && SlotOk(t, procs[p], i) && SlotOk(t, procs[p], j) && SlotsApart(procs[p], i, j);
  }

  /** Process p gets the page of entry y, and its window table is `tf`. */
  ghost predicate Joined(t0: Table, procs0: seq<Proc>, owner0: map<nat, Use>, p: nat, key: string, y: nat, tf: nat,
                         t: Table, procs: seq<Proc>, owner: map<nat, Use>)
    requires Shape(t0) && p < |procs0| && ProcShape(procs0[p]) && IsKey(key)
  {
    && y < SHMEM_PAGES && AttachedTo(t0, Tabled(procs0, p, tf), t, procs, p, y, t0.addr[y], key)
    && owner == owner0[tf := TableOf(p, WINDOW_PDX)]
  }

  /** Entry y, the first free one, is a new zero page in frame f, and process p has it. */
  ghost predicate Created(t0: Table, procs0: seq<Proc>, owner0: map<nat, Use>, mem0: map<nat, Page>, p: nat,
                          key: string, y: nat, f: nat, tf: nat,
                          t: Table, procs: seq<Proc>, owner: map<nat, Use>, mem: map<nat, Page>)
    requires Shape(t0) && p < |procs0| && ProcShape(procs0[p]) && IsKey(key)
  {
    && y < SHMEM_PAGES && t0.addr[y] == 0 && (forall z: nat | z < y :: t0.addr[z] != 0)
    && AttachedTo(t0, Tabled(procs0, p, tf), t, procs, p, y, f, key)
    && owner == owner0[tf := TableOf(p, WINDOW_PDX)][f := SharedPage]
    && f in mem && mem == mem0[f := mem[f]] && ZeroPage(mem[f])
  }

  /** shmget for the key of entry y, which process p does not hold: an entry with 16 holders is a panic. */
  ghost predicate KnownCase(t0: Table, procs0: seq<Proc>, fl0: seq<nat>, owner0: map<nat, Use>, p: nat, key: string,
                            y: nat, t: Table, procs: seq<Proc>, owner: map<nat, Use>, outcome: Outcome)
    requires Shape(t0) && p < |procs0| && ProcShape(procs0[p]) && IsKey(key)
  {
    && y < SHMEM_PAGES
    && outcome == (if t0.counter[y] < MAX_HOLDERS && |fl0| >= NeedsTable(procs0[p]) then Ok else Panics)
    && (outcome == Ok ==> Joined(t0, procs0, owner0, p, key, y, TableFor(procs0[p], fl0, 0), t, procs, owner))
  }

  /** shmget for a key that nobody has: a full table is an exit, too few frames are a panic. */
  ghost predicate NewCase(t0: Table, procs0: seq<Proc>, fl0: seq<nat>, owner0: map<nat, Use>, mem0: map<nat, Page>,
                          p: nat, key: string, t: Table, procs: seq<Proc>, owner: map<nat, Use>, mem: map<nat, Page>,
                          outcome: Outcome)
    requires Shape(t0) && p < |procs0| && ProcShape(procs0[p]) && IsKey(key)
  {
    && (outcome == Exits <==> FullTable(t0))
    && (outcome == Panics <==> !FullTable(t0) && |fl0| < 1 + NeedsTable(procs0[p]))
    && (outcome == Ok ==> fl0 != [] && exists y: nat ::
          Created(t0, procs0, owner0, mem0, p, key, y, fl0[0], TableFor(procs0[p], fl0, 1), t, procs, owner, mem))
  }

  ghost predicate FullTable(t: Table)
    requires Shape(t)
  {
    forall y: nat | y < SHMEM_PAGES :: t.addr[y] != 0
  }

  ghost predicate Holding(pr: Proc, key: string)
    requires ProcShape(pr)
  {
    exists i: nat :: HasKey(pr, key, i)
  }

  ghost predicate InTable(t: Table, key: string)
    requires Shape(t)
  {
    exists y: nat :: Known(t, key, y)
  }

  lemma NothingAt(t: Table, procs: seq<Proc>, y: nat)
    requires TableOk(t, procs) && y < SHMEM_PAGES
    ensures |t.keys[y]| == KEY_SIZE && (t.addr[y] == 0 <==> KeyName(t.keys[y]) == [])
    ensures t.addr[y] == 0 ==> t.keys[y] == NoKey() && t.counter[y] == 0
  {
    assert EntryOk(t, procs, y);
    assert NoKey()[0] == NUL;
  }

  lemma ShapeOf(t: Table, procs: seq<Proc>, p: nat)
    requires TableOk(t, procs) && p < |procs|
    ensures Shape(t) && ProcOk(t, procs[p]) && ProcShape(procs[p])
  {
  }

  /** A running process that does not have the key does not hold the frame either. */
  lemma NotHeld(t: Table, procs: seq<Proc>, p: nat, y: nat, key: string)
    requires TableOk(t, procs) && p < |procs| && Known(t, key, y) && t.addr[y] != 0
    requires forall i: nat :: !HasKey(procs[p], key, i)
    ensures t.addr[y] !in procs[p].phys
  {
    hide KeyName, Holders;
    forall i: nat | i < SHMEM_PAGES
      ensures procs[p].phys[i] != t.addr[y]
    {
      assert SlotOk(t, procs[p], i) && !HasKey(procs[p], key, i);
      if procs[p].phys[i] != 0 {
        var z: nat :| Backs(t, procs[p], i, z);
        assert Apart(t, z, y);
      }
    }
  }

  lemma SettledAttached(pr: Proc, i: nat, f: nat, k: string)
    requires Settled(pr) && pr.state == Live && i < SHMEM_PAGES && f != 0
    ensures Settled(Attach(pr, i, f, k))
  {
    forall j: nat | j < SHMEM_PAGES
      ensures SlotClean(Attach(pr, i, f, k), j)
    {
      assert SlotClean(pr, j);
    }
  }

  /** An entry gains a holder. */
  lemma AttachKnown(t: Table, procs: seq<Proc>, owner: map<nat, Use>, p: nat, pos: nat, y: nat, key: string, k: string)
    requires Inv(t, procs, owner) && p < |procs| && procs[p].state == Live && pos < SHMEM_PAGES
    requires Known(t, key, y) && t.addr[y] != 0 && t.counter[y] < MAX_HOLDERS && t.addr[y] !in procs[p].phys
             && procs[p].phys[pos] == 0
    requires |k| == KEY_SIZE && KeyName(k) == key && procs[p].table != 0
    ensures var t', pr' := t.(counter := t.counter[y := t.counter[y] + 1]), Attach(procs[p], pos, t.addr[y], k);
            Inv(t', procs[p := pr'], owner) && Maps(t', pr', key, Va(pos))
  {
    hide KeyName, Holders, EntryOk, ProcOk, Apart;
    var t', pr' := t.(counter := t.counter[y := t.counter[y] + 1]), Attach(procs[p], pos, t.addr[y], k);
    AttachStep(t, procs, p, pos, y, k);
    assert EntryOk(t, procs, y);
    SettledAttached(procs[p], pos, t.addr[y], k);
    CountPositive(t, procs, y);
    TablesKept(procs, procs[p := pr'], owner, owner);
  }

  lemma CountPositive(t: Table, procs: seq<Proc>, y: nat)
    requires TableOk(t, procs) && y < SHMEM_PAGES
    ensures t.counter[y] >= 0
  {
    assert EntryOk(t, procs, y);
  }

  /** A new entry with one holder. */
  lemma AttachNew(t: Table, procs: seq<Proc>, owner: map<nat, Use>, p: nat, pos: nat, y: nat, f: nat, key: string,
                  k: string)
    requires Inv(t, procs, owner) && p < |procs| && procs[p].state == Live && pos < SHMEM_PAGES && y < SHMEM_PAGES
    requires t.addr[y] == 0 && f != 0 && f !in owner && procs[p].phys[pos] == 0 && forall z: nat :: !Known(t, key, z)
    requires |k| == KEY_SIZE && KeyName(k) == key && key != [] && procs[p].table != 0
    ensures var t', pr' := Table.Table(t.addr[y := f], t.counter[y := t.counter[y] + 1], t.keys[y := k]),
            Attach(procs[p], pos, f, k);
            Inv(t', procs[p := pr'], owner[f := SharedPage]) && Maps(t', pr', key, Va(pos))
  {
    hide KeyName, Holders, EntryOk, ProcOk, Apart;
    FreshFrame(t, procs, owner, p, f);
    NothingAt(t, procs, y);
    var t1 := t.(addr := t.addr[y := f], keys := t.keys[y := k]);
    forall z: nat | z < SHMEM_PAGES
      ensures KeyName(t.keys[z]) != KeyName(k)
    {
      assert !Known(t, key, z);
    }
    NewEntry(t, procs, y, f, k);
    AttachStep(t1, procs, p, pos, y, k);
    SettledAttached(procs[p], pos, f, k);
    var t', pr' := t1.(counter := t1.counter[y := t1.counter[y] + 1]), Attach(procs[p], pos, f, k);
    assert t'.addr[y] == f && t'.keys[y] == k && pr'.window[pos] == f;
    TablesKept(procs, procs[p := pr'], owner, owner[f := SharedPage]);
    forall g | g in owner && owner[g] == SharedPage
      ensures g in t'.addr
    {
      var z :| 0 <= z < SHMEM_PAGES && t.addr[z] == g;
      assert t'.addr[z] == g;
    }
  }

  lemma FreshFrame(t: Table, procs: seq<Proc>, owner: map<nat, Use>, p: nat, f: nat)
    requires TableOk(t, procs) && FramesMatch(t, owner) && p < |procs| && f != 0 && f !in owner
    ensures f !in t.addr && f !in procs[p].phys
  {
    hide KeyName, Holders, EntryOk, Apart;
    forall i: nat | i < SHMEM_PAGES
      ensures procs[p].phys[i] != f
    {
      assert SlotOk(t, procs[p], i);
    }
  }

  lemma HeldMaps(t: Table, procs: seq<Proc>, owner: map<nat, Use>, p: nat, i: nat, key: string)
    requires Inv(t, procs, owner) && p < |procs| && procs[p].state == Live && HasKey(procs[p], key, i) && key != []
    ensures procs[p].vm[i] == Va(i) && Maps(t, procs[p], key, Va(i))
  {
    hide KeyName, Holders, EntryOk, Apart;
    assert KeyName(NoKey()) == [] by { NoKeyEmpty(); }
    assert SlotOk(t, procs[p], i) && Settled(procs[p]) && SlotClean(procs[p], i);
  }

  lemma HasKeyKnown(t: Table, procs: seq<Proc>, owner: map<nat, Use>, p: nat, i: nat, key: string)
    requires Inv(t, procs, owner) && p < |procs| && procs[p].state == Live && HasKey(procs[p], key, i) && key != []
    ensures exists y: nat :: Known(t, key, y)
  {
    hide KeyName, Holders, EntryOk, Apart;
    NoKeyEmpty();
    assert SlotOk(t, procs[p], i) && Settled(procs[p]) && SlotClean(procs[p], i);
    var y: nat :| Backs(t, procs[p], i, y);
    assert Known(t, key, y);
  }

  lemma FreeEntries(t: Table, procs: seq<Proc>)
    requires TableOk(t, procs)
    ensures forall y: nat | y < SHMEM_PAGES :: t.addr[y] == 0 <==> KeyName(t.keys[y]) == []
  {
    hide KeyName;
    forall y: nat | y < SHMEM_PAGES
      ensures t.addr[y] == 0 <==> KeyName(t.keys[y]) == []
    {
      NothingAt(t, procs, y);
    }
  }

  lemma KnownOnce(t: Table, procs: seq<Proc>, key: string, y: nat)
    requires TableOk(t, procs) && Known(t, key, y) && key != []
    ensures t.addr[y] != 0 && forall z: nat | Known(t, key, z) :: z == y
  {
    hide KeyName;
    FreeEntries(t, procs);
    forall z: nat | Known(t, key, z)
      ensures z == y
    {
      assert Apart(t, y, z);
    }
  }

  lemma NoKeyEmpty()
    ensures KeyName(NoKey()) == []
  {
  }

  lemma NoKeyHeld(t: Table, procs: seq<Proc>, owner: map<nat, Use>, p: nat, key: string)
    requires Inv(t, procs, owner) && p < |procs| && procs[p].state == Live && key != [] && forall y: nat ::
             !Known(t, key, y)
    ensures forall i: nat :: !HasKey(procs[p], key, i)
  {
    forall i: nat
      ensures !HasKey(procs[p], key, i)
    {
      if HasKey(procs[p], key, i) { HasKeyKnown(t, procs, owner, p, i, key); }
    }
  }

  lemma FreeSlot(t: Table, procs: seq<Proc>, owner: map<nat, Use>, p: nat, pos: nat)
    requires Inv(t, procs, owner) && p < |procs| && procs[p].state == Live && pos < SHMEM_PAGES
             && procs[p].phys[pos] == 0
    ensures procs[p].window[pos] == 0 && procs[p].pkey[pos] == NoKey()
  {
    assert SlotOk(t, procs[p], pos) && Settled(procs[p]) && SlotClean(procs[p], pos);
  }

  /** Slots below i of the child are copies of the parent's, and their entries have one holder more. */
  ghost predicate CopiedTo(t0: Table, t: Table, parent: Proc, child: Proc, i: nat)
    requires Shape(t0) && Shape(t) && ProcShape(parent) && ProcShape(child) && i <= SHMEM_PAGES
  {
    && t.addr == t0.addr && t.keys == t0.keys
    && (forall j: nat | j < i :: SlotCopied(parent, child, j))
    && (forall j: nat | i <= j < SHMEM_PAGES :: SlotUnused(child, j))
    && (forall y: nat | y < SHMEM_PAGES :: CountCopied(t0, t, parent, i, y))
  }

  ghost predicate SlotCopied(parent: Proc, child: Proc, j: nat)
    requires ProcShape(parent) && ProcShape(child) && j < SHMEM_PAGES
  {
    child.phys[j] == parent.phys[j] && child.window[j] == parent.window[j]
        && (parent.phys[j] != 0 ==> child.pkey[j] == parent.pkey[j] && child.vm[j] == parent.vm[j])
  }

  ghost predicate SlotUnused(pr: Proc, j: nat)
    requires ProcShape(pr) && j < SHMEM_PAGES
  {
    pr.phys[j] == 0 && pr.window[j] == 0 && pr.bitmap[j] == 0
  }

  ghost predicate CountCopied(t0: Table, t: Table, parent: Proc, i: nat, y: nat)
    requires Shape(t0) && Shape(t) && ProcShape(parent) && i <= SHMEM_PAGES && y < SHMEM_PAGES
  {
    t.counter[y] == t0.counter[y] + if t0.addr[y] != 0 && t0.addr[y] in parent.phys[..i] then 1 else 0
  }

  lemma CopyStart(t: Table, parent: Proc)
    requires Shape(t) && ProcShape(parent)
    ensures CopiedTo(t, t, parent, Blank(), 0)
  {
  }

  /** A slot the parent does not use. */
  lemma CopySkip(t0: Table, t: Table, parent: Proc, child: Proc, i: nat)
    requires Shape(t0) && Shape(t) && ProcShape(parent) && ProcShape(child) && i < SHMEM_PAGES
    requires CopiedTo(t0, t, parent, child, i) && parent.phys[i] == 0 && parent.window[i] == 0
    ensures CopiedTo(t0, t, parent, child, i + 1)
  {
    assert SlotUnused(child, i);
    var b := i + 1;
    forall y: nat | y < SHMEM_PAGES
      ensures CountCopied(t0, t, parent, b, y)
    {
      assert CountCopied(t0, t, parent, i, y);
      assert parent.phys[..i + 1] == parent.phys[..i] + [parent.phys[i]];
    }
  }

  lemma CopyNext(t0: Table, t: Table, parent: Proc, child: Proc, i: nat, y: nat)
    requires Shape(t0) && Shape(t) && ProcOk(t0, parent) && ProcShape(child) && i < SHMEM_PAGES && y < SHMEM_PAGES
    requires CopiedTo(t0, t, parent, child, i) && parent.phys[i] != 0 && t.addr[y] == parent.phys[i]
    requires forall z: nat | z < SHMEM_PAGES :: Apart(t0, y, z)
    ensures CopiedTo(t0, t.(counter := t.counter[y := t.counter[y] + 1]), parent,
            Attach(child, i, parent.phys[i], parent.pkey[i]), i + 1)
    ensures parent.phys[i] !in child.phys && t.counter[y] == t0.counter[y]
  {
    hide KeyName;
    assert SlotOk(t0, parent, i);
    assert parent.phys[..i + 1] == parent.phys[..i] + [parent.phys[i]];
    var t', child' := t.(counter := t.counter[y := t.counter[y] + 1]), Attach(child, i, parent.phys[i], parent.pkey[i]);
    forall j: nat | j < SHMEM_PAGES
      ensures child.phys[j] != parent.phys[i]
    {
      assert SlotsApart(parent, i, j);
      if j < i { assert SlotCopied(parent, child, j); } else { assert SlotUnused(child, j); }
    }
    forall j: nat | j < i
      ensures parent.phys[j] != parent.phys[i]
    {
      assert SlotsApart(parent, i, j);
    }
    forall j: nat | j < i + 1
      ensures SlotCopied(parent, child', j)
    {
      assert j < i ==> SlotCopied(parent, child, j);
    }
    forall j: nat | i + 1 <= j < SHMEM_PAGES
      ensures SlotUnused(child', j)
    {
      assert SlotUnused(child, j);
    }
    var b := i + 1;
    forall z: nat | z < SHMEM_PAGES
      ensures CountCopied(t0, t', parent, b, z)
    {
      assert CountCopied(t0, t, parent, i, z) && Apart(t0, y, z);
    }
    assert CountCopied(t0, t, parent, i, y);
  }

  lemma NotCapped(t0: Table, t: Table, procs: seq<Proc>, parent: Proc, child: Proc)
    requires Shape(t0) && TableOk(t, procs) && ProcShape(parent) && ProcShape(child)
             && CopiedTo(t0, t, parent, child, SHMEM_PAGES)
    ensures forall y: nat | y < SHMEM_PAGES && t0.addr[y] != 0 && t0.addr[y] in parent.phys ::
            t0.counter[y] < MAX_HOLDERS
  {
    hide KeyName, Holders;
    assert parent.phys[..SHMEM_PAGES] == parent.phys;
    forall y: nat | y < SHMEM_PAGES && t0.addr[y] != 0 && t0.addr[y] in parent.phys
      ensures t0.counter[y] < MAX_HOLDERS
    {
      assert CountCopied(t0, t, parent, SHMEM_PAGES, y) && EntryOk(t, procs, y);
    }
  }

  /** The entry behind a slot in use. */
  lemma EntryOf(t: Table, procs: seq<Proc>, p: nat, i: nat)
    requires TableOk(t, procs) && p < |procs| && i < SHMEM_PAGES && procs[p].phys[i] != 0
    ensures exists y: nat :: Backs(t, procs[p], i, y)
    ensures procs[p].bitmap[i] == 1 && procs[p].vm[i] == Va(i) && |procs[p].pkey[i]| == KEY_SIZE && procs[p].table != 0
  {
    assert SlotOk(t, procs[p], i);
  }

  lemma WindowOf(t: Table, procs: seq<Proc>, p: nat, i: nat)
    requires TableOk(t, procs) && p < |procs| && i < SHMEM_PAGES
    ensures procs[p].window[i] == procs[p].phys[i]
  {
    assert SlotOk(t, procs[p], i);
  }

  lemma BitmapOf(procs: seq<Proc>, p: nat, i: nat)
    requires p < |procs| && Settled(procs[p]) && procs[p].state == Live && i < SHMEM_PAGES
    ensures procs[p].bitmap[i] == 1 ==> procs[p].phys[i] != 0
  {
    assert SlotClean(procs[p], i);
  }

  lemma CounterCap(t: Table, procs: seq<Proc>, y: nat)
    requires TableOk(t, procs) && y < SHMEM_PAGES
    ensures t.counter[y] <= MAX_HOLDERS
  {
    assert EntryOk(t, procs, y);
  }

  lemma ApartAll(t: Table, procs: seq<Proc>, y: nat)
    requires TableOk(t, procs) && y < SHMEM_PAGES
    ensures forall z: nat | z < SHMEM_PAGES :: Apart(t, y, z)
  {
  }

  lemma UnusedSlot(t0: Table, t: Table, parent: Proc, child: Proc, i: nat)
    requires Shape(t0) && Shape(t) && ProcShape(parent) && ProcShape(child) && i < SHMEM_PAGES
             && CopiedTo(t0, t, parent, child, i)
    ensures child.phys[i] == 0 && child.window[i] == 0 && child.bitmap[i] == 0 && t.addr == t0.addr && t.keys == t0.keys
  {
    assert SlotUnused(child, i);
  }

  /** Attaching under the key array of another holder. */
  lemma AttachCopy(t: Table, procs: seq<Proc>, owner: map<nat, Use>, c: nat, i: nat, y: nat, p: nat)
    requires Inv(t, procs, owner) && c < |procs| && p < |procs| && procs[c].state == Live && i < SHMEM_PAGES
    requires procs[p].phys[i] != 0 && y < SHMEM_PAGES && t.addr[y] == procs[p].phys[i] && t.counter[y] < MAX_HOLDERS
    requires t.addr[y] !in procs[c].phys && procs[c].phys[i] == 0 && procs[c].table != 0
    ensures Inv(t.(counter := t.counter[y := t.counter[y] + 1]),
            procs[c := Attach(procs[c], i, t.addr[y], procs[p].pkey[i])], owner)
  {
    hide KeyName, Holders, EntryOk, Settled, SlotOk, Counted, FramesMatch;
    EntryOf(t, procs, p, i);
    var z: nat :| Backs(t, procs[p], i, z);
    assert Apart(t, y, z);
    AttachKnown(t, procs, owner, c, i, y, KeyName(t.keys[y]), procs[p].pkey[i]);
  }

  // ---- Leaving ----

  lemma BackedAt(t: Table, procs: seq<Proc>, p: nat, i: nat)
    requires TableOk(t, procs) && p < |procs| && i < SHMEM_PAGES && procs[p].phys[i] != 0
    ensures procs[p].phys[i] in t.addr
  {
    assert SlotOk(t, procs[p], i);
  }

  /** A process's state and, with a table or nothing to map, its table do not matter to the entries. */
  lemma SameSlots(t: Table, procs: seq<Proc>, p: nat, pr': Proc)
    requires TableOk(t, procs) && p < |procs| && pr' == procs[p].(state := pr'.state, table := pr'.table)
    requires pr'.table != 0 || HoldsNothing(procs[p])
    ensures TableOk(t, procs[p := pr'])
  {
    hide KeyName, Holders;
    var procs' := procs[p := pr'];
    forall i: nat | i < SHMEM_PAGES
      ensures SlotOk(t, pr', i)
    {
      assert SlotOk(t, procs[p], i);
      if pr'.phys[i] != 0 {
        var y: nat :| Backs(t, procs[p], i, y);
        assert Backs(t, pr', i, y);
      }
    }
    forall i: nat, j: nat | i < SHMEM_PAGES && j < SHMEM_PAGES
      ensures SlotsApart(pr', i, j)
    {
      assert SlotsApart(procs[p], i, j);
    }
    forall y: nat | y < SHMEM_PAGES
      ensures EntryOk(t, procs', y)
    {
      assert EntryOk(t, procs, y);
      HoldersUpdate(procs, p, pr', t.addr[y]);
    }
  }

  /** What becomes of entry y when the holder of pr0 has let go of its slots below i. */
  ghost predicate EntryReleased(t0: Table, t: Table, pr0: Proc, i: nat, y: nat)
    requires Shape(t0) && Shape(t) && ProcShape(pr0) && i <= SHMEM_PAGES && y < SHMEM_PAGES
  {
    if t0.addr[y] != 0 && t0.addr[y] in pr0.phys[..i] then
      if t0.counter[y] == 1 then t.addr[y] == 0 && t.counter[y] == 0 && t.keys[y] == NoKey()
      else t.addr[y] == t0.addr[y] && t.counter[y] == t0.counter[y] - 1 && t.keys[y] == t0.keys[y]
    else
      t.addr[y] == t0.addr[y] && t.counter[y] == t0.counter[y] && t.keys[y] == t0.keys[y]
  }

  ghost predicate SlotLeft(pr0: Proc, pr: Proc, i: nat, j: nat)
    requires ProcShape(pr0) && ProcShape(pr) && j < SHMEM_PAGES
  {
    pr.phys[j] == if j < i then 0 else pr0.phys[j]
  }

  ghost predicate LeftTo(t0: Table, t: Table, pr0: Proc, pr: Proc, i: nat)
    requires Shape(t0) && Shape(t) && ProcShape(pr0) && ProcShape(pr) && i <= SHMEM_PAGES
  {
    && (forall j: nat | j < SHMEM_PAGES :: SlotLeft(pr0, pr, i, j))
    && (forall y: nat | y < SHMEM_PAGES :: EntryReleased(t0, t, pr0, i, y))
  }

  lemma LeaveStart(t: Table, pr: Proc)
    requires Shape(t) && ProcShape(pr)
    ensures LeftTo(t, t, pr, pr, 0)
  {
  }

  lemma LeaveSkip(t0: Table, t: Table, pr0: Proc, pr: Proc, i: nat)
    requires Shape(t0) && Shape(t) && ProcShape(pr0) && ProcShape(pr) && i < SHMEM_PAGES
    requires LeftTo(t0, t, pr0, pr, i) && pr.phys[i] == 0
    ensures LeftTo(t0, t, pr0, pr, i + 1)
  {
    var b := i + 1;
    assert SlotLeft(pr0, pr, i, i);
    assert pr0.phys[..b] == pr0.phys[..i] + [pr0.phys[i]];
    forall j: nat | j < SHMEM_PAGES
      ensures SlotLeft(pr0, pr, b, j)
    {
      assert SlotLeft(pr0, pr, i, j);
    }
    forall y: nat | y < SHMEM_PAGES
      ensures EntryReleased(t0, t, pr0, b, y)
    {
      assert EntryReleased(t0, t, pr0, i, y);
    }
  }

  lemma LeaveNext(t0: Table, t: Table, pr0: Proc, pr: Proc, i: nat, y: nat)
    requires Shape(t0) && Shape(t) && ProcOk(t0, pr0) && ProcShape(pr) && i < SHMEM_PAGES && y < SHMEM_PAGES
    requires LeftTo(t0, t, pr0, pr, i) && pr.phys[i] != 0 && t.addr[y] == pr.phys[i]
    requires forall z: nat | z < SHMEM_PAGES :: Apart(t0, y, z)
    ensures LeftTo(t0, Release(t, y), pr0, Detach(pr, i), i + 1)
  {
    hide KeyName;
    var b, t', pr' := i + 1, Release(t, y), Detach(pr, i);
    assert SlotLeft(pr0, pr, i, i);
    assert pr0.phys[..b] == pr0.phys[..i] + [pr0.phys[i]];
    forall j: nat | j < i
      ensures pr0.phys[j] != pr0.phys[i]
    {
      assert SlotsApart(pr0, i, j);
    }
    forall j: nat | j < SHMEM_PAGES
      ensures SlotLeft(pr0, pr', b, j)
    {
      assert SlotLeft(pr0, pr, i, j);
    }
    assert EntryReleased(t0, t, pr0, i, y);
    forall z: nat | z < SHMEM_PAGES
      ensures EntryReleased(t0, t', pr0, b, z)
    {
      assert EntryReleased(t0, t, pr0, i, z) && Apart(t0, y, z);
    }
  }

  /** The frames in use, without the shared ones that have left the table. */
  ghost function KeepShared(owner: map<nat, Use>, addr: seq<nat>): map<nat, Use> {
    map f | f in owner && (owner[f] == SharedPage ==> f in addr) :: owner[f]
  }

  lemma ReleaseFrames(t: Table, procs: seq<Proc>, owner0: map<nat, Use>, y: nat)
    requires TableOk(t, procs) && Counted(t) && FramesMatch(t, KeepShared(owner0, t.addr)) && y < SHMEM_PAGES
             && t.addr[y] != 0 && 0 !in owner0
    ensures t.addr[y] in KeepShared(owner0, t.addr) && t.counter[y] >= 1
    ensures var t' := Release(t, y);
            Counted(t') && FramesMatch(t', KeepShared(owner0, t'.addr))
    ensures t.counter[y] == 1 ==> KeepShared(owner0, t.addr[y := 0]) == KeepShared(owner0, t.addr) - {t.addr[y]}
  {
    hide KeyName, Holders;
    var addr' := t.addr[y := 0];
    forall z: nat | z < SHMEM_PAGES
      ensures z != y && t.addr[z] != 0 ==> t.addr[z] != t.addr[y]
      ensures z != y ==> addr'[z] == t.addr[z]
    {
      assert Apart(t, y, z);
    }
    forall f | f in t.addr && f != 0 && f != t.addr[y]
      ensures f in addr'
    {
      var z: nat :| z < SHMEM_PAGES && t.addr[z] == f;
      assert addr'[z] == f;
    }
    forall f | f in addr' && f != 0
      ensures f in t.addr && f != t.addr[y]
    {
      var z: nat :| z < SHMEM_PAGES && addr'[z] == f;
      assert t.addr[z] == f;
    }
    forall f | f in KeepShared(owner0, t.addr) && owner0[f] == SharedPage
      ensures f in t.addr && f != 0
    {
      assert KeepShared(owner0, t.addr)[f] == SharedPage;
    }
    forall z: nat | z < SHMEM_PAGES && addr'[z] != 0
      ensures addr'[z] in KeepShared(owner0, addr') && owner0[addr'[z]] == SharedPage
    {
      assert KeepShared(owner0, t.addr)[t.addr[z]] == SharedPage;
    }
  }

  lemma KeepsTables(owner: map<nat, Use>, addr: seq<nat>)
    ensures forall f: nat :: SameTableUse(owner, KeepShared(owner, addr), f)
  {
  }

  lemma KeepAll(t: Table, owner: map<nat, Use>)
    requires Shape(t) && FramesMatch(t, owner)
    ensures KeepShared(owner, t.addr) == owner
  {
  }

  /** Slot i of process p has been let go of, and with it entry y. */
  ghost predicate Left(t: Table, procs: seq<Proc>, owner: map<nat, Use>, t': Table, procs': seq<Proc>,
                       owner': map<nat, Use>, p: nat, i: nat, y: nat)
    requires Shape(t) && p < |procs| && ProcShape(procs[p]) && i < SHMEM_PAGES && y < SHMEM_PAGES
  {
    && procs[p].phys[i] != 0 && t.addr[y] == procs[p].phys[i]
    && t' == Release(t, y) && procs' == procs[p := Detach(procs[p], i)]
    && owner' == if t.counter[y] == 1 then owner - {t.addr[y]} else owner
  }

  lemma ReleaseLast(t: Table, t': Table, procs: seq<Proc>, procs': seq<Proc>, owner: map<nat, Use>, p: nat, i: nat,
                    y: nat)
    requires Shape(t) && p < |procs| && ProcShape(procs[p]) && i < SHMEM_PAGES && y < SHMEM_PAGES
             && procs[p].phys[i] == t.addr[y] != 0 && t.counter[y] == 1
    requires t' == Table.Table(t.addr[y := 0], t.counter[y := 0], t.keys[y := NoKey()])
    requires procs' == procs[p := Detach(procs[p], i)]
    ensures Left(t, procs, owner, t', procs', owner - {t.addr[y]}, p, i, y) && t' == Release(t, y)
  {
  }

  lemma ReleaseOne(t: Table, t': Table, procs: seq<Proc>, procs': seq<Proc>, owner: map<nat, Use>, p: nat, i: nat,
                   y: nat)
    requires Shape(t) && p < |procs| && ProcShape(procs[p]) && i < SHMEM_PAGES && y < SHMEM_PAGES
             && procs[p].phys[i] == t.addr[y] != 0 && t.counter[y] > 1
    requires t' == t.(counter := t.counter[y := t.counter[y] - 1])
    requires procs' == procs[p := Detach(procs[p], i)]
    ensures Left(t, procs, owner, t', procs', owner, p, i, y) && t' == Release(t, y)
  {
  }

  lemma SharedThere(t: Table, owner: map<nat, Use>, y: nat)
    requires Shape(t) && FramesMatch(t, owner) && y < SHMEM_PAGES && t.addr[y] != 0
    ensures t.addr[y] in owner
  {
  }

  lemma ZeroUnused(freelist: seq<nat>, owner: map<nat, Use>, all: set<nat>)
    requires FramesOk(freelist, owner, all)
    ensures 0 !in owner
  {
  }

  lemma LeaveKeeps(t0: Table, procs0: seq<Proc>, owner0: map<nat, Use>, t: Table, procs: seq<Proc>,
                   owner: map<nat, Use>, t': Table, procs': seq<Proc>, owner': map<nat, Use>, p: nat, i: nat, y: nat)
    requires TableOk(t0, procs0) && p < |procs0| == |procs| && i < SHMEM_PAGES && y < SHMEM_PAGES && 0 !in owner0
    requires TableOk(t, procs) && Counted(t) && owner == KeepShared(owner0, t.addr) && FramesMatch(t, owner)
    requires LeftTo(t0, t, procs0[p], procs[p], i) && Left(t, procs, owner, t', procs', owner', p, i, y)
    ensures TableOk(t', procs') && Counted(t') && FramesMatch(t', owner') && owner' == KeepShared(owner0, t'.addr)
    ensures |procs'| == |procs| && ProcShape(procs'[p]) && procs'[p].table == procs[p].table
    ensures forall q: nat | q < |procs| && q != p :: procs'[q] == procs[q]
    ensures LeftTo(t0, t', procs0[p], procs'[p], i + 1)
  {
    hide KeyName, Holders, Counted, FramesMatch, KeepShared, LeftTo, Apart, EntryOk;
    ReleaseFrames(t, procs, owner0, y);
    ReleaseStep(t, procs, p, i, y);
    EntryStays(t0, t, procs0[p], procs[p], i, y);
    ApartAll(t0, procs0, y);
    LeaveNext(t0, t, procs0[p], procs[p], i, y);
  }

  lemma EntryStays(t0: Table, t: Table, pr0: Proc, pr: Proc, i: nat, y: nat)
    requires Shape(t0) && Shape(t) && ProcShape(pr0) && ProcShape(pr) && i < SHMEM_PAGES && y < SHMEM_PAGES
    requires LeftTo(t0, t, pr0, pr, i) && t.addr[y] != 0
    ensures t0.addr[y] == t.addr[y]
  {
    assert EntryReleased(t0, t, pr0, i, y);
  }

  /** The process gets its window table in a frame that was free. */
  lemma TableTaken(t: Table, procs: seq<Proc>, owner: map<nat, Use>, p: nat, f: nat)
    requires Inv(t, procs, owner) && p < |procs| && procs[p].state == Live && procs[p].table == 0
    requires f != 0 && f !in owner && 0 !in owner
    ensures Inv(t, procs[p := procs[p].(table := f)], owner[f := TableOf(p, WINDOW_PDX)])
  {
    hide KeyName, Holders;
    var pr', owner' := procs[p].(table := f), owner[f := TableOf(p, WINDOW_PDX)];
    var procs' := procs[p := pr'];
    SameSlots(t, procs, p, pr');
    forall q: nat ensures TableFrame(procs', owner', q) { assert TableFrame(procs, owner, q); }
    forall g: nat ensures TableUse(procs', owner', g) { assert TableUse(procs, owner, g); }
    forall q: nat | q < |procs'| ensures Settled(procs'[q]) {
      assert Settled(procs[q]);
      forall i: nat | i < SHMEM_PAGES && q == p ensures SlotClean(pr', i) { assert SlotClean(procs[p], i); }
    }
  }

  /** When the process is reaped, freevm frees its window table. */
  lemma TableReturned(t: Table, procs: seq<Proc>, owner: map<nat, Use>, p: nat)
    requires Inv(t, procs, owner) && p < |procs| && procs[p].state == Zombie
    ensures procs[p].table != 0 ==> procs[p].table in owner
    ensures Inv(t, procs[p := procs[p].(state := Unused, table := 0)], owner - {procs[p].table})
  {
    hide KeyName, Holders;
    var pr', owner' := procs[p].(state := Unused, table := 0), owner - {procs[p].table};
    var procs' := procs[p := pr'];
    assert Settled(procs[p]) && TableFrame(procs, owner, p);
    SameSlots(t, procs, p, pr');
    forall y: nat | y < SHMEM_PAGES && t.addr[y] != 0 ensures t.addr[y] in owner' && owner'[t.addr[y]] == SharedPage {}
    forall q: nat
      ensures TableFrame(procs', owner', q)
    {
      assert TableFrame(procs, owner, q);
      if q < |procs'| && procs'[q].table != 0 { assert procs'[q] == procs[q]; }
    }
    forall g: nat ensures TableUse(procs', owner', g) { assert TableUse(procs, owner, g); }
    forall q: nat | q < |procs'| ensures Settled(procs'[q]) { assert Settled(procs[q]); }
  }

  /** With the table there or in a frame just taken, the invariant holds for the process with its table. */
  lemma TableThere(t: Table, procs: seq<Proc>, owner: map<nat, Use>, p: nat, f: nat)
    requires Inv(t, procs, owner) && p < |procs| && procs[p].state == Live && f != 0 && 0 !in owner
    requires if procs[p].table != 0 then f == procs[p].table else f !in owner
    ensures Inv(t, Tabled(procs, p, f), owner[f := TableOf(p, WINDOW_PDX)])
    ensures procs[p].table != 0 ==> Tabled(procs, p, f) == procs && owner[f := TableOf(p, WINDOW_PDX)] == owner
  {
    hide TableOk, Counted, FramesMatch, Settled;
    if procs[p].table == 0 {
      TableTaken(t, procs, owner, p, f);
    } else {
      assert TableFrame(procs, owner, p);
      assert Tabled(procs, p, f) == procs && owner[f := TableOf(p, WINDOW_PDX)] == owner;
    }
  }

  lemma OwnersSwap(owner: map<nat, Use>, f: nat, g: nat, use: Use)
    requires f !in owner && f != g
    ensures owner[f := SharedPage][g := use] == owner[g := use][f := SharedPage] && f !in owner[g := use]
  {
  }

  lemma WindowTable(procs: seq<Proc>, owner: map<nat, Use>, p: nat)
    requires TablesMatch(procs, owner) && p < |procs|
    ensures procs[p].table != 0 ==> procs[p].table in owner
  {
    assert TableFrame(procs, owner, p);
  }

  /** A new page in a process that has, or has just been given, its window table. */
  lemma CreateKeeps(t: Table, procs: seq<Proc>, owner: map<nat, Use>, p: nat, tf: nat, pos: nat, y: nat, f: nat,
                    key: string)
    requires Inv(t, procs, owner) && p < |procs| && procs[p].state == Live && pos < SHMEM_PAGES && y < SHMEM_PAGES
             && IsKey(key)
    requires t.addr[y] == 0 && procs[p].phys[pos] == 0 && forall z: nat :: !Known(t, key, z)
    requires tf != 0 && f != 0 && f !in owner && 0 !in owner
    requires if procs[p].table != 0 then tf == procs[p].table else tf !in owner && tf != f
    ensures var k16 := Blit(NoKey(), key);
            var t', pr' := Table.Table(t.addr[y := f], t.counter[y := t.counter[y] + 1], t.keys[y := k16]),
                Attach(Tabled(procs, p, tf)[p], pos, f, k16);
            && Inv(t', Tabled(procs, p, tf)[p := pr'], owner[tf := TableOf(p, WINDOW_PDX)][f := SharedPage])
            && Maps(t', pr', key, Va(pos))
    ensures owner[f := SharedPage][tf := TableOf(p, WINDOW_PDX)] == owner[tf := TableOf(p, WINDOW_PDX)][f := SharedPage]
    ensures procs[p].table != 0 ==> owner[tf := TableOf(p, WINDOW_PDX)] == owner
  {
    hide TableOk, Counted, FramesMatch, Settled, TablesMatch, KeyName, Maps;
    KeyKept(NoKey(), key);
    WindowTable(procs, owner, p);
    TableThere(t, procs, owner, p, tf);
    OwnersSwap(owner, f, tf, TableOf(p, WINDOW_PDX));
    AttachNew(t, Tabled(procs, p, tf), owner[tf := TableOf(p, WINDOW_PDX)], p, pos, y, f, key, Blit(NoKey(), key));
  }

  lemma SameCopied(t0: Table, t: Table, parent: Proc, child: Proc, child': Proc, i: nat)
    requires Shape(t0) && Shape(t) && ProcShape(parent) && ProcShape(child) && i <= SHMEM_PAGES
    requires CopiedTo(t0, t, parent, child, i) && child' == child.(table := child'.table)
    ensures ProcShape(child') && CopiedTo(t0, t, parent, child', i)
  {
    forall j: nat | j < i ensures SlotCopied(parent, child', j) { assert SlotCopied(parent, child, j); }
    forall j: nat | i <= j < SHMEM_PAGES ensures SlotUnused(child', j) { assert SlotUnused(child, j); }
  }

  class Shm {
    const k: Kmem
    var t: Table
    var procs: seq<Proc>

    ghost predicate Valid()
      reads this, k
    {
      k.Valid() && Inv(t, procs, k.owner)
    }

    /** shmeminit, with no process yet. */
    constructor (k: Kmem, n: nat)
      requires k.Valid() && forall f | f in k.owner ::
               k.owner[f] != SharedPage && !(k.owner[f].TableOf? && k.owner[f].x == WINDOW_PDX)
      ensures Valid() && this.k == k && t == NoPages() && |procs| == n && forall p | 0 <= p < n ::
              procs[p] == Blank().(state := Unused)
    {
      this.k := k;
      t := NoPages();
      procs := seq(n, i => Blank().(state := Unused));
      new;
      hide KeyName;
      forall y: nat | y < SHMEM_PAGES ensures EntryOk(t, procs, y) {}
      forall p: nat | p < n ensures ProcOk(t, procs[p]) && Settled(procs[p]) {
        forall i: nat | i < SHMEM_PAGES ensures SlotOk(t, procs[p], i) {}
      }
    }

    /** The loop of allocproc over the shared-page fields, and the empty window of the page table made next. */
    method AllocProc(c: nat)
      requires Valid() && c < |procs| && procs[c].state == Unused
      modifies this`procs
      ensures Valid() && procs == old(procs)[c := Blank()]
    {
      hide KeyName, Holders, TableOk, Counted, FramesMatch;
      assert Settled(procs[c]);
      var pr, i := procs[c], 0;
      while i < SHMEM_PAGES
        invariant 0 <= i <= SHMEM_PAGES && ProcShape(pr) && pr.table == 0
        invariant forall j: nat | j < i ::
                  pr.phys[j] == 0 && pr.vm[j] == 0 && pr.bitmap[j] == 0 && pr.pkey[j] == NoKey()
      {
        pr := pr.(phys := pr.phys[i := 0], vm := pr.vm[i := 0], bitmap := pr.bitmap[i := 0],
            pkey := pr.pkey[i := NoKey()]);
        i := i + 1;
      }
      pr := pr.(state := Live, window := Blank().window);
      assert pr == Blank();
      SwapBlank(t, procs, k.owner, c, pr);
      procs := procs[c := pr];
    }

    /** find_pos: the first slot not in use. */
    method FindPos(p: nat) returns (r: int)
      requires p < |procs| && ProcShape(procs[p])
      ensures r == -1 ==> forall i | 0 <= i < SHMEM_PAGES :: procs[p].phys[i] != 0
      ensures r != -1 ==>
              0 <= r < SHMEM_PAGES && procs[p].phys[r] == 0 && forall i | 0 <= i < r :: procs[p].phys[i] != 0
    {
      var i := 0;
      while i < SHMEM_PAGES
        invariant 0 <= i <= SHMEM_PAGES && forall j | 0 <= j < i :: procs[p].phys[j] != 0
      {
        if procs[p].phys[i] == 0 {
          return i;
        }
        i := i + 1;
      }
      return -1;
    }

    /** The first loop of shmget: the entry of that key, or else the first free entry. */
    method Search(key: string) returns (i: nat, free: int)
      requires Shape(t) && IsKey(key) && forall y: nat | y < SHMEM_PAGES :: |t.keys[y]| == KEY_SIZE
      ensures i <= SHMEM_PAGES && (i < SHMEM_PAGES ==> Known(t, key, i))
      ensures i == SHMEM_PAGES ==> forall y: nat :: !Known(t, key, y)
      ensures i == SHMEM_PAGES && free == -1 ==> forall y: nat | y < SHMEM_PAGES :: KeyName(t.keys[y]) != []
      ensures i == SHMEM_PAGES && free != -1 ==>
              0 <= free < SHMEM_PAGES && KeyName(t.keys[free]) == [] && forall y: nat | y < free ::
              KeyName(t.keys[y]) != []
    {
      i, free := 0, -1;
      while i < SHMEM_PAGES
        invariant 0 <= i <= SHMEM_PAGES && -1 <= free < i
        invariant forall y: nat | y < i :: KeyName(t.keys[y]) != key
        invariant free == -1 ==> forall y: nat | y < i :: KeyName(t.keys[y]) != []
        invariant free != -1 ==> KeyName(t.keys[free]) == [] && forall y: nat | y < free :: KeyName(t.keys[y]) != []
      {
        if t.keys[i][0] == NUL && free == -1 {
          free := i;
          i := i + 1;
          continue;
        }
        if KeyName(t.keys[i]) == key {
          return;
        }
        i := i + 1;
      }
    }

    /** walkpgdir for the window: false when there is no table yet and no frame for one. */
    method GetTable(p: nat) returns (ok: bool)
      requires k.Valid() && p < |procs|
      modifies this`procs, k`freelist, k`owner
      ensures k.Valid() && (ok <==> old(procs[p].table != 0 || k.freelist != []))
      ensures ok ==> procs == Tabled(old(procs), p, TableFor(old(procs[p]), old(k.freelist), 0))
      ensures old(procs[p].table) != 0 || !ok ==>
              k.freelist == old(k.freelist) && k.owner == old(k.owner) && procs == old(procs)
      ensures ok && old(procs[p].table) == 0 ==>
                && old(k.freelist[0]) !in old(k.owner) && old(k.freelist[0]) != 0 && k.freelist == old(k.freelist[1..])
                && k.owner == old(k.owner)[old(k.freelist[0]) := TableOf(p, WINDOW_PDX)]
    {
      if procs[p].table != 0 {
        return true;
      }
      var f := k.Kalloc(TableOf(p, WINDOW_PDX));
      if f == 0 {
        return false;
      }
      procs := procs[p := procs[p].(table := f)];
      return true;
    }

    /** The part of shmget after walkpgdir: fills a free slot. The slot is unmapped, so there is no remap panic. */
    method Take(p: nat, pos: nat, y: nat, key: string)
      requires Shape(t) && p < |procs| && ProcShape(procs[p]) && pos < SHMEM_PAGES && y < SHMEM_PAGES
      requires procs[p].table != 0 && procs[p].window[pos] == 0 && |key| <= |procs[p].pkey[pos]|
      modifies this`t, this`procs
      ensures t == old(t).(counter := old(t.counter)[y := old(t.counter[y]) + 1])
      ensures procs == old(procs)[p := Attach(old(procs[p]), pos, old(t.addr[y]), Blit(old(procs[p].pkey[pos]), key))]
    {
      var pr := procs[p].(window := procs[p].window[pos := t.addr[y]]);
      t := t.(counter := t.counter[y := t.counter[y] + 1]);
      pr := pr.(bitmap := pr.bitmap[pos := 1]);
      pr := pr.(phys := pr.phys[pos := t.addr[y]]);
      pr := pr.(vm := pr.vm[pos := Va(pos)]);
      pr := pr.(pkey := pr.pkey[pos := Blit(pr.pkey[pos], key)]);
      procs := procs[p := pr];
    }

    /** shmget for a key that another process has; panics when the window's table is missing and no frame is free. */
    method Join(p: nat, key: string, i: nat) returns (va: int, ok: bool)
      requires Valid() && p < |procs| && procs[p].state == Live && IsKey(key) && Known(t, key, i)
      requires t.counter[i] < MAX_HOLDERS && forall j: nat :: !HasKey(procs[p], key, j)
      modifies this`t, this`procs, k`freelist, k`owner
      ensures ok <==> old(procs[p].table != 0 || k.freelist != [])
      ensures ok ==>
                && Valid() && |procs| == old(|procs|) && Maps(t, procs[p], key, va)
                && var tf := TableFor(old(procs[p]), old(k.freelist), 0);
                   && AttachedTo(old(t), Tabled(old(procs), p, tf), t, procs, p, i, old(t.addr[i]), key)
                   && k.owner == old(k.owner)[tf := TableOf(p, WINDOW_PDX)]
    {
      hide KeyName, Holders, TableOk, Counted, FramesMatch, Clean, Maps, HoldsNothing, Settled, FramesOk, Has,
           TablesMatch;
      ShapeOf(t, procs, p);
      KnownOnce(t, procs, key, i);
      NotHeld(t, procs, p, i, key);
      RoomForOne(t, procs[p], i);
      KeyKept(NoKey(), key);
      var pos := FindPos(p);
      FreeSlot(t, procs, k.owner, p, pos);
      ZeroUnused(k.freelist, k.owner, k.all);
      ok := GetTable(p);
      if !ok {
        return 0, false;
      }
      TableThere(t, old(procs), old(k.owner), p, procs[p].table);
      AttachKnown(t, procs, k.owner, p, pos, i, key, Blit(NoKey(), key));
      Take(p, pos, i, key);
      assert old(t.addr)[i := old(t.addr[i])] == t.addr;
      return Va(pos), true;
    }

    /** shmget for a key that no process has, into the first free entry. */
    method Create(p: nat, key: string, free: nat) returns (va: int, outcome: Outcome)
      requires Valid() && p < |procs| && procs[p].state == Live && IsKey(key) && free < SHMEM_PAGES && t.addr[free] == 0
      requires forall y: nat :: !Known(t, key, y)
      modifies this`t, this`procs, k`freelist, k`owner, k`mem
      ensures outcome == (if |old(k.freelist)| < 1 + NeedsTable(old(procs[p])) then Panics else Ok)
      ensures outcome == Ok ==>
                && Valid() && |procs| == old(|procs|) && Maps(t, procs[p], key, va)
                && var f, tf := old(k.freelist[0]), TableFor(old(procs[p]), old(k.freelist), 1);
                   && AttachedTo(old(t), Tabled(old(procs), p, tf), t, procs, p, free, f, key)
                   && k.owner == old(k.owner)[tf := TableOf(p, WINDOW_PDX)][f := SharedPage]
                   && k.mem == old(k.mem)[f := ZEROPAGE]
    {
      hide KeyName, Holders, TableOk, Counted, FramesMatch, Clean, Maps, HoldsNothing, Settled, FramesOk, Has,
           TablesMatch;
      ShapeOf(t, procs, p);
      NothingAt(t, procs, free);
      ZeroUnused(k.freelist, k.owner, k.all);
      var f := k.Kalloc(SharedPage);
      if f == 0 {
        return 0, Panics;
      }
      k.mem := k.mem[f := ZEROPAGE];
      RoomForOne(t, procs[p], free);
      KeyKept(NoKey(), key);
      var pos := FindPos(p);
      FreeSlot(t, procs, old(k.owner), p, pos);
      var ok := GetTable(p);
      if !ok {
        return 0, Panics;
      }
      CreateKeeps(t, old(procs), old(k.owner), p, procs[p].table, pos, free, f, key);
      t := t.(addr := t.addr[free := f], keys := t.keys[free := Blit(t.keys[free], key)]);
      Take(p, pos, free, key);
      return Va(pos), Ok;
    }

    /** shmget for a key of 1 to 16 characters. */
    method Shmget(p: nat, key: string) returns (va: int, outcome: Outcome)
      requires Valid() && p < |procs| && procs[p].state == Live && IsKey(key)
      modifies this`t, this`procs, k`freelist, k`owner, k`mem
      ensures outcome == Ok ==> Valid() && |procs| == old(|procs|) && Maps(t, procs[p], key, va)
      ensures outcome == Ok ==> va % PGSIZE == 0 && KERNBASE - SHMEM_PAGES * PGSIZE <= va < KERNBASE
      ensures old(Holding(procs[p], key)) ==>
              outcome == Ok && t == old(t) && procs == old(procs) && k.owner == old(k.owner)
      ensures old(!Holding(procs[p], key)) ==> forall y: nat | old(Known(t, key, y)) ::
                KnownCase(old(t), old(procs), old(k.freelist), old(k.owner), p, key, y, t, procs, k.owner, outcome)
      ensures old(Holding(procs[p], key) || InTable(t, key)) ==> k.mem == old(k.mem)
      ensures old(!Holding(procs[p], key) && !InTable(t, key)) ==>
                NewCase(old(t), old(procs), old(k.freelist), old(k.owner), old(k.mem), p, key,
                        t, procs, k.owner, k.mem, outcome)
    {
      hide KeyName, Holders, TableOk, Counted, FramesMatch, Clean, Maps, HoldsNothing, AttachedTo, TablesMatch;
      ShapeOf(t, procs, p);
      KeySizes(t, procs);
      FreeEntries(t, procs);
      var i, free := Search(key);
      if i < SHMEM_PAGES {
        KnownOnce(t, procs, key, i);
        var y := 0;
        while y < SHMEM_PAGES
          invariant 0 <= y <= SHMEM_PAGES && forall j: nat | j < y :: !HasKey(procs[p], key, j)
          modifies {}
        {
          if KeyName(procs[p].pkey[y]) == key {
            HeldMaps(t, procs, k.owner, p, y, key);
            MapsInWindow(t, procs[p], key, procs[p].vm[y]);
            assert HasKey(procs[p], key, y);
            return procs[p].vm[y], Ok;
          }
          y := y + 1;
        }
        assert forall j: nat :: !HasKey(procs[p], key, j);
        if t.counter[i] < MAX_HOLDERS {
          var ok;
          va, ok := Join(p, key, i);
          if ok {
            ShapeOf(t, procs, p);
            MapsInWindow(t, procs[p], key, va);
          }
          return va, if ok then Ok else Panics;
        }
        return 0, Panics;
      }
      NoKeyHeld(t, procs, k.owner, p, key);
      if free == -1 {
        return 0, Exits;
      }
      va, outcome := Create(p, key, free);
      if outcome == Ok {
        ShapeOf(t, procs, p);
        MapsInWindow(t, procs[p], key, va);
        assert Created(old(t), old(procs), old(k.owner), old(k.mem), p, key, free, old(k.freelist[0]),
                       TableFor(old(procs[p]), old(k.freelist), 1), t, procs, k.owner, k.mem);
      }
    }

    /** sys_shmget: refuses a key that is empty or longer than 16 characters. */
    method SysShmget(p: nat, key: string) returns (va: int, outcome: Outcome)
      requires Valid() && p < |procs| && procs[p].state == Live && NUL !in key
      modifies this`t, this`procs, k`freelist, k`owner, k`mem
      ensures key == [] || |key| > KEY_SIZE ==>
                va == -1 && outcome == Ok && t == old(t) && procs == old(procs) && k.owner == old(k.owner)
                    && k.mem == old(k.mem)
      ensures outcome == Ok ==> Valid() && |procs| == old(|procs|)
      ensures IsKey(key) && outcome == Ok ==> va != -1 && Maps(t, procs[p], key, va)
      ensures IsKey(key) && old(Holding(procs[p], key)) ==>
                outcome == Ok && t == old(t) && procs == old(procs) && k.owner == old(k.owner)
      ensures IsKey(key) && old(!Holding(procs[p], key)) ==> forall y: nat | old(Known(t, key, y)) ::
                KnownCase(old(t), old(procs), old(k.freelist), old(k.owner), p, key, y, t, procs, k.owner, outcome)
      ensures IsKey(key) && old(Holding(procs[p], key) || InTable(t, key)) ==> k.mem == old(k.mem)
      ensures IsKey(key) && old(!Holding(procs[p], key) && !InTable(t, key)) ==>
                NewCase(old(t), old(procs), old(k.freelist), old(k.owner), old(k.mem), p, key,
                        t, procs, k.owner, k.mem, outcome)
    {
      hide KeyName, Holders, TableOk, Counted, FramesMatch, Clean, HoldsNothing, AttachedTo, TablesMatch, Maps,
           KnownCase, NewCase, InTable, Holding, Known;
      if |key| <= 0 || |key| > KEY_SIZE {
        return -1, Ok;
      }
      va, outcome := Shmget(p, key);
    }

    /**
     fork's use of allocproc and manage_fork, on the frames that are free once copyuvm is done. It stops at a
     page that has 16 holders, and panics when the child needs a window table and no frame is free.
     */
    method Fork(p: nat, c: nat) returns (outcome: ForkOutcome)
      requires Valid() && p < |procs| && procs[p].state == Live && c < |procs| && procs[c].state == Unused
      modifies this`t, this`procs, k`freelist, k`owner
      ensures outcome == NoFrame <==> old(HoldsSome(procs[p], SHMEM_PAGES) && k.freelist == [])
      ensures outcome == Capped <==>
                old(!(HoldsSome(procs[p], SHMEM_PAGES) && k.freelist == [])
                    && exists y: nat ::
                       y < SHMEM_PAGES && t.addr[y] != 0 && t.addr[y] in procs[p].phys && t.counter[y] == MAX_HOLDERS)
      ensures outcome == Forked ==>
                && Valid() && |procs| == old(|procs|)
                && (forall q: nat | q < |procs| && q != c :: procs[q] == old(procs[q]))
                && procs[c].state == Live && CopiedTo(old(t), t, procs[p], procs[c], SHMEM_PAGES)
                && ChildTable(old(procs[p]), procs[c], c, SHMEM_PAGES, old(k.freelist), k.freelist, old(k.owner),
                   k.owner)
    {
      hide KeyName, Holders, TableOk, Counted, FramesMatch, Clean, HoldsNothing, CopiedTo, Settled, FramesOk, ProcOk,
           Apart, TablesMatch;
      AllocProc(c);
      ShapeOf(t, procs, p);
      ShapeOf(t, procs, c);
      ghost var t0, procs0, fl0, own0 := t, procs, k.freelist, k.owner;
      CopyStart(t0, procs[p]);
      var i := 0;
      while i < SHMEM_PAGES
        invariant 0 <= i <= SHMEM_PAGES && Valid() && |procs| == |procs0|
                  && (forall q: nat | q < |procs| && q != c :: procs[q] == procs0[q])
        invariant Shape(t) && ProcShape(procs[c]) && procs[c].state == Live && CopiedTo(t0, t, procs0[p], procs[c], i)
        invariant ChildTable(procs0[p], procs[c], c, i, fl0, k.freelist, own0, k.owner)
      {
        WindowOf(t, procs, p, i);
        BitmapOf(procs, p, i);
        UnusedSlot(t0, t, procs0[p], procs[c], i);
        if procs[p].phys[i] != 0 { EntryOf(t, procs, p, i); }
        if procs[p].bitmap[i] == 1 && procs[p].bitmap[i] != procs[c].bitmap[i] {
          ghost var procs1, own1 := procs, k.owner;
          ZeroUnused(k.freelist, k.owner, k.all);
          var ok := GetTable(c);
          if !ok {
            return NoFrame;
          }
          TableThere(t, procs1, own1, c, procs[c].table);
          SameCopied(t0, t, procs0[p], procs1[c], procs[c], i);
          var y := CopySlot(p, c, i, t0, procs0);
          if y == SHMEM_PAGES {
            return Capped;
          }
        } else {
          CopySkip(t0, t, procs0[p], procs[c], i);
        }
        i := i + 1;
      }
      NotCapped(t0, t, procs, procs0[p], procs[c]);
      return Forked;
    }

    /** One turn of manage_fork's loop after walkpgdir; SHMEM_PAGES stands for its exit at 16 holders. */
    method CopySlot(p: nat, c: nat, i: nat, ghost t0: Table, ghost procs0: seq<Proc>) returns (y: nat)
      requires Valid() && p < |procs| && c < |procs| == |procs0| && p != c && procs[p] == procs0[p] && i < SHMEM_PAGES
      requires TableOk(t0, procs0) && Shape(t) && ProcShape(procs[p]) && ProcShape(procs[c]) && procs[c].state == Live
               && procs[c].table != 0
      requires CopiedTo(t0, t, procs[p], procs[c], i) && procs[p].phys[i] != 0
      modifies this`t, this`procs
      ensures Shape(t) && |procs| == old(|procs|) && forall q: nat | q < |procs| && q != c :: procs[q] == old(procs[q])
      ensures y == SHMEM_PAGES ==>
              exists z: nat :: z < SHMEM_PAGES && t0.addr[z] == procs0[p].phys[i] && t0.counter[z] == MAX_HOLDERS
      ensures y != SHMEM_PAGES ==>
                && Valid() && ProcShape(procs[c]) && procs[c].state == Live && procs[c].table == old(procs[c]).table
                && CopiedTo(t0, t, procs[p], procs[c], i + 1)
    {
      hide KeyName, Holders, TableOk, Counted, FramesMatch, Clean, HoldsNothing, CopiedTo, Settled, FramesOk, ProcOk,
           Apart, TablesMatch;
      ghost var procs1 := procs;
      EntryOf(t, procs, p, i);
      ghost var z: nat :| Backs(t, procs[p], i, z);
      ShapeOf(t0, procs0, p);
      UnusedSlot(t0, t, procs[p], procs[c], i);
      var parent, child := procs[p], procs[c];
      child := child.(window := child.window[i := parent.phys[i]]);
      child := child.(phys := child.phys[i := parent.phys[i]]);
      child := child.(vm := child.vm[i := parent.vm[i]]);
      child := child.(pkey := child.pkey[i := parent.pkey[i]]);
      child := child.(bitmap := child.bitmap[i := 1]);
      procs := procs[c := child];
      y := 0;
      while t.addr[y] != child.phys[i]
        invariant y <= z < SHMEM_PAGES && t.addr[z] == child.phys[i]
        modifies {}
        decreases SHMEM_PAGES - y
      {
        y := y + 1;
      }
      ApartAll(t0, procs0, y);
      CopyNext(t0, t, procs0[p], procs1[c], i, y);
      if t.counter[y] == MAX_HOLDERS {
        return SHMEM_PAGES;
      }
      CounterCap(t, procs1, y);
      AttachCopy(t, procs1, k.owner, c, i, y, p);
      t := t.(counter := t.counter[y := t.counter[y] + 1]);
    }

    /** The branches of that loop's body: the last holder frees the page, any other counts down. */
    method Drop(p: nat, i: nat, y: nat)
      requires k.Valid() && Shape(t) && p < |procs| && ProcShape(procs[p]) && i < SHMEM_PAGES && y < SHMEM_PAGES
      requires procs[p].phys[i] == t.addr[y] && t.counter[y] >= 0 && (t.addr[y] == 0 <==> t.counter[y] == 0)
      requires t.addr[y] != 0 ==> t.addr[y] in k.owner && procs[p].table != 0
      modifies this`t, this`procs, k`freelist, k`owner, k`mem
      ensures k.Valid() && Shape(t)
      ensures old(t.addr[y]) == 0 ==> t == old(t) && procs == old(procs) && k.owner == old(k.owner)
      ensures old(t.addr[y]) != 0 ==>
                && Left(old(t), old(procs), old(k.owner), t, procs, k.owner, p, i, y)
                && t == Release(old(t), y) && procs == old(procs)[p := Detach(old(procs[p]), i)]
    {
      hide Left, Release, FramesOk;
      ghost var t2, procs2, own2 := t, procs, k.owner;
      if t.counter[y] == 1 {
        k.Kfree(t.addr[y]);
        t := t.(counter := t.counter[y := 0]);
        t := t.(addr := t.addr[y := 0]);
        t := t.(keys := t.keys[y := NoKey()]);
        procs := procs[p := procs[p].(phys := procs[p].phys[i := 0])];
        procs := procs[p := procs[p].(window := procs[p].window[i := 0])];
        ReleaseLast(t2, t, procs2, procs, own2, p, i, y);
      } else if t.counter[y] > 1 {
        t := t.(counter := t.counter[y := t.counter[y] - 1]);
        procs := procs[p := procs[p].(phys := procs[p].phys[i := 0])];
        procs := procs[p := procs[p].(window := procs[p].window[i := 0])];
        ReleaseOne(t2, t, procs2, procs, own2, p, i, y);
      }
    }

    /** The inner loop of shmrem as exit calls it: p lets go of slot i. */
    method LeaveSlot(p: nat, i: nat)
      requires k.Valid() && TableOk(t, procs) && Counted(t) && FramesMatch(t, k.owner) && p < |procs| && i < SHMEM_PAGES
      modifies this`t, this`procs, k`freelist, k`owner, k`mem
      ensures k.Valid() && Shape(old(t)) && ProcShape(old(procs[p]))
      ensures old(procs[p].phys[i]) == 0 ==> t == old(t) && procs == old(procs) && k.owner == old(k.owner)
      ensures old(procs[p].phys[i]) != 0 ==>
              exists y: nat :: y < SHMEM_PAGES && Left(old(t), old(procs), old(k.owner), t, procs, k.owner, p, i, y)
    {
      hide KeyName, Holders, TableOk, Counted, FramesMatch, FramesOk, ProcOk, Backs, Left, Release;
      ghost var t1, procs1, own1 := t, procs, k.owner;
      ShapeOf(t, procs, p);
      ghost var f := procs[p].phys[i];
      if f != 0 {
        BackedAt(t, procs, p, i);
        EntryOf(t, procs, p, i);
      }
      ghost var done, ys := false, 0;
      var y := 0;
      while y < SHMEM_PAGES
        invariant 0 <= y <= SHMEM_PAGES && |procs| == |procs1| && Shape(t) && ProcShape(procs[p]) && k.Valid()
                  && TableOk(t, procs)
        invariant !done ==>
                  t == t1 && procs == procs1 && k.owner == own1 && (f != 0 ==> forall z: nat | z < y :: t.addr[z] != f)
        invariant done ==>
                  f != 0 && procs[p].phys[i] == 0 && ys < SHMEM_PAGES
                  && Left(t1, procs1, own1, t, procs, k.owner, p, i, ys)
      {
        NothingAt(t, procs, y);
        if procs[p].phys[i] == t.addr[y] {
          if t.addr[y] != 0 {
            ReleaseStep(t, procs, p, i, y);
            SharedThere(t, k.owner, y);
            done, ys := true, y;
          }
          Drop(p, i, y);
        }
        y := y + 1;
      }
    }

    /** shmrem as exit calls it: p lets go of all its pages, and pages without another holder are freed. */
    method LeaveAll(p: nat)
      requires Valid() && p < |procs| && procs[p].state == Live
      modifies this`t, this`procs, k`freelist, k`owner, k`mem
      ensures k.Valid() && TableOk(t, procs) && Counted(t) && FramesMatch(t, k.owner)
      ensures |procs| == old(|procs|) && procs[p].table == old(procs[p].table)
      ensures forall q: nat | q < |procs| && q != p :: procs[q] == old(procs[q])
      ensures LeftTo(old(t), t, old(procs[p]), procs[p], SHMEM_PAGES) && k.owner == KeepShared(old(k.owner), t.addr)
    {
      hide KeyName, Holders, TableOk, Counted, FramesMatch, Clean, HoldsNothing, Settled, KeepShared, LeftTo, Left,
           FramesOk, ProcOk;
      ghost var t0, procs0, own0 := t, procs, k.owner;
      ShapeOf(t, procs, p);
      LeaveStart(t, procs[p]);
      KeepAll(t, k.owner);
      ZeroUnused(k.freelist, k.owner, k.all);
      var i := 0;
      while i < SHMEM_PAGES
        invariant 0 <= i <= SHMEM_PAGES && |procs| == |procs0|
                  && (forall q: nat | q < |procs| && q != p :: procs[q] == procs0[q])
        invariant Shape(t) && ProcShape(procs[p]) && LeftTo(t0, t, procs0[p], procs[p], i)
                  && procs[p].table == procs0[p].table
        invariant k.Valid() && TableOk(t, procs) && Counted(t) && FramesMatch(t, k.owner)
                  && k.owner == KeepShared(own0, t.addr)
      {
        ghost var t1, procs1, own1, f := t, procs, k.owner, procs[p].phys[i];
        if f != 0 { EntryOf(t, procs, p, i); }
        if procs[p].bitmap[i] == 1 {
          LeaveSlot(p, i);
        }
        if f == 0 {
          LeaveSkip(t0, t, procs0[p], procs[p], i);
        } else {
          ghost var y: nat :| y < SHMEM_PAGES && Left(t1, procs1, own1, t, procs, k.owner, p, i, y);
          ShapeOf(t1, procs1, p);
          LeaveKeeps(t0, procs0, own0, t1, procs1, own1, t, procs, k.owner, p, i, y);
          ShapeOf(t, procs, p);
        }
        i := i + 1;
      }
    }

    /** The shared-page part of exit. */
    method Exit(p: nat)
      requires Valid() && p < |procs| && procs[p].state == Live
      modifies this`t, this`procs, k`freelist, k`owner, k`mem
      ensures Valid() && |procs| == old(|procs|) && (forall q: nat | q < |procs| && q != p :: procs[q] == old(procs[q]))
      ensures procs[p].state == Zombie && forall y: nat | y < SHMEM_PAGES ::
              EntryReleased(old(t), t, old(procs[p]), SHMEM_PAGES, y)
      ensures k.owner == KeepShared(old(k.owner), t.addr)
    {
      hide KeyName, Holders, TableOk, Counted, FramesMatch, Clean, KeepShared, TablesMatch;
      ShapeOf(t, procs, p);
      ghost var procs0, pr0, own0 := procs, procs[p], k.owner;
      LeaveAll(p);
      ShapeOf(t, procs, p);
      forall j: nat | j < SHMEM_PAGES ensures procs[p].phys[j] == 0 { assert SlotLeft(pr0, procs[p], SHMEM_PAGES, j); }
      SameSlots(t, procs, p, procs[p].(state := Zombie));
      procs := procs[p := procs[p].(state := Zombie)];
      KeepsTables(own0, t.addr);
      TablesKept(procs0, procs, own0, k.owner);
      forall q: nat | q < |procs| ensures Settled(procs[q]) { assert Settled(procs0[q]); }
    }

    /** wait reaps a child: freevm frees its window table, and ReapFreesNoShared says what it finds in the window. */
    method Reap(p: nat)
      requires Valid() && p < |procs| && procs[p].state == Zombie
      modifies this`procs, k`freelist, k`owner, k`mem
      ensures Valid() && procs == old(procs)[p := old(procs[p]).(state := Unused, table := 0)]
      ensures k.owner == old(k.owner) - {old(procs[p]).table}
      ensures k.freelist == (if old(procs[p]).table != 0 then [old(procs[p]).table] else []) + old(k.freelist)
    {
      hide KeyName, Holders, TableOk, Counted, FramesMatch, Clean, TablesMatch, FramesOk;
      TableReturned(t, procs, k.owner, p);
      ZeroUnused(k.freelist, k.owner, k.all);
      assert k.owner - {0} == k.owner;
      if procs[p].table != 0 {
        k.Kfree(procs[p].table);
      }
      procs := procs[p := procs[p].(state := Unused, table := 0)];
    }
  }
}
