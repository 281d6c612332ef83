/**
 Directories and link counts: dirlookup, dirlink, the path walk of fs.c, and create, link and unlink
 of sysfile.c, one call at a time. A directory is the sequence of its entries; an entry with inode
 number 0 is free.

 The law: an inode's nlink is the number of entries other than "." that name it from directories
 that are themselves linked.
 */
module Links {
  import opened Basics
  import Paths

  const ROOT: nat := 1

  datatype Kind = Free | Dir | File | Dev

  datatype Dirent = Dirent(inum: nat, name: string)

  datatype Inode = Inode(kind: Kind, nlink: int, ents: seq<Dirent>)

  // ---- Counting the entries that name an inode ----

  predicate Counts(e: Dirent, x: nat) {
    e.inum == x && e.name != "."
  }

  function One(b: bool): nat {
    if b then 1 else 0
  }

  function Names(ents: seq<Dirent>, x: nat): nat {
    if ents == [] then 0 else Names(ents[..|ents| - 1], x) + One(Counts(ents[|ents| - 1], x))
  }

  predicate Linked(node: Inode) {
    node.kind == Dir && node.nlink >= 1
  }

  function Weight(node: Inode, x: nat): nat {
    if Linked(node) then Names(node.ents, x) else 0
  }

  function Count(ino: seq<Inode>, x: nat): nat {
    if ino == [] then 0 else Count(ino[..|ino| - 1], x) + Weight(ino[|ino| - 1], x)
  }

  lemma {:induction false} NamesUpdate(ents: seq<Dirent>, i: nat, e: Dirent, x: nat)
    requires i < |ents|
    ensures Names(ents[i := e], x) == Names(ents, x) - One(Counts(ents[i], x)) + One(Counts(e, x))
  {
    var n := |ents| - 1;
    if i == n {
      assert ents[i := e][..n] == ents[..n];
    } else {
      NamesUpdate(ents[..n], i, e, x);
      assert ents[i := e][..n] == ents[..n][i := e];
    }
  }

  lemma NamesAppend(ents: seq<Dirent>, e: Dirent, x: nat)
    ensures Names(ents + [e], x) == Names(ents, x) + One(Counts(e, x))
  {
  }

  lemma {:induction false} NamesZero(ents: seq<Dirent>, x: nat)
    ensures Names(ents, x) == 0 <==> forall i: nat | i < |ents| :: !Counts(ents[i], x)
  {
    if ents != [] {
      var n := |ents| - 1;
      NamesZero(ents[..n], x);
      forall i: nat | i < n ensures ents[..n][i] == ents[i] {}
    }
  }

  lemma {:induction false} CountUpdate(ino: seq<Inode>, d: nat, node: Inode, x: nat)
    requires d < |ino|
    ensures Count(ino[d := node], x) == Count(ino, x) - Weight(ino[d], x) + Weight(node, x)
  {
    hide Weight;
    var n := |ino| - 1;
    if d == n {
      assert ino[d := node][..n] == ino[..n];
    } else {
      CountUpdate(ino[..n], d, node, x);
      assert ino[d := node][..n] == ino[..n][d := node];
    }
  }

  lemma {:induction false} CountZero(ino: seq<Inode>, x: nat)
    ensures Count(ino, x) == 0 <==> forall d: nat | d < |ino| :: Weight(ino[d], x) == 0
  {
    hide Weight;
    if ino != [] {
      var n := |ino| - 1;
      CountZero(ino[..n], x);
      forall d: nat | d < n ensures ino[..n][d] == ino[d] {}
    }
  }

  // ---- The invariant ----

  ghost predicate EntOk(ino: seq<Inode>, ents: seq<Dirent>, i: nat)
    requires i < |ents|
  {
    ents[i].inum < |ino| && (i >= 2 && ents[i].inum != 0 ==> ents[i].name != "." && ents[i].name != "..")
  }

  ghost predicate NamesApart(ents: seq<Dirent>, i: nat, j: nat)
    requires i < |ents| && j < |ents|
  {
    i != j && ents[i].inum != 0 && ents[j].inum != 0 ==> ents[i].name != ents[j].name
  }

  /** A directory starts with "." and "..", and no two of its entries have the same name. */
  ghost predicate DirOk(ino: seq<Inode>, d: nat)
    requires d < |ino|
  {
    var ents := ino[d].ents;
    if ino[d].kind == Dir then
      && |ents| >= 2 && ents[0] == Dirent(d, ".") && ents[1].name == ".." && ents[1].inum != 0
      && (forall i: nat | i < |ents| :: EntOk(ino, ents, i))
      && (forall i: nat, j: nat | i < |ents| && j < |ents| :: NamesApart(ents, i, j))
    else ents == []
  }

  function Parent(node: Inode): nat {
    if |node.ents| >= 2 then node.ents[1].inum else 0
  }

  /** Entry i of directory p names x, and is neither "." nor "..". */
  ghost predicate Entry(ino: seq<Inode>, p: nat, i: nat, x: nat) {
    p < |ino| && Linked(ino[p]) && 2 <= i < |ino[p].ents| && ino[p].ents[i].inum == x
  }

  /** A linked directory hangs under the linked directory that its ".." names. */
  ghost predicate ChildOk(ino: seq<Inode>, d: nat)
    requires d < |ino|
  {
    Linked(ino[d]) ==>
      if d == ROOT then Parent(ino[d]) == ROOT
      else Parent(ino[d]) != d && exists i: nat :: Entry(ino, Parent(ino[d]), i, d)
  }

  /** Only the parent names a directory. */
  ghost predicate EntryOk(ino: seq<Inode>, p: nat, i: nat, x: nat) {
    Entry(ino, p, i, x) && x != 0 && x < |ino| && ino[x].kind == Dir ==> x != ROOT && p == Parent(ino[x])
  }

  /** And it does so once. */
  ghost predicate EntryOnce(ino: seq<Inode>, p: nat, i: nat, j: nat, x: nat) {
    Entry(ino, p, i, x) && Entry(ino, p, j, x) && x != 0 && x < |ino| && ino[x].kind == Dir ==> i == j
  }

  ghost predicate LawAt(ino: seq<Inode>, x: nat)
    requires x < |ino|
  {
    Count(ino, x) == if ino[x].kind == Free then 0 else ino[x].nlink
  }

  ghost predicate Shapes(ino: seq<Inode>) {
    |ino| > ROOT && (forall d: nat | d < |ino| :: DirOk(ino, d))
  }

  ghost predicate Tree(ino: seq<Inode>)
    requires |ino| > ROOT
  {
    && Linked(ino[ROOT])
    && (forall d: nat | d < |ino| :: ChildOk(ino, d))
    && (forall p: nat, i: nat, x: nat :: EntryOk(ino, p, i, x))
    && (forall p: nat, i: nat, j: nat, x: nat :: EntryOnce(ino, p, i, j, x))
  }

  ghost predicate Law(ino: seq<Inode>) {
    forall x: nat | 0 < x < |ino| :: LawAt(ino, x)
  }

  predicate EmptyDir(ents: seq<Dirent>) {
    forall i: nat | 2 <= i < |ents| :: ents[i].inum == 0
  }

  /** A removed directory has nothing in it but the dots. */
  ghost predicate RemovedEmpty(ino: seq<Inode>) {
    forall d: nat | d < |ino| && ino[d].kind == Dir && !Linked(ino[d]) :: EmptyDir(ino[d].ents)
  }

  ghost predicate Inv(ino: seq<Inode>) {
    Shapes(ino) && Tree(ino) && Law(ino) && RemovedEmpty(ino) && ino[0].kind == Free
  }

  // ---- One entry of one directory changes ----

  function Put(ents: seq<Dirent>, i: nat, e: Dirent): seq<Dirent>
    requires i <= |ents|
  {
    if i < |ents| then ents[i := e] else ents + [e]
  }

  lemma NamesPut(ents: seq<Dirent>, i: nat, e: Dirent, x: nat)
    requires i <= |ents|
    ensures Names(Put(ents, i, e), x) == Names(ents, x) - One(i < |ents| && Counts(ents[i], x)) + One(Counts(e, x))
  {
    if i < |ents| {
      NamesUpdate(ents, i, e, x);
    } else {
      NamesAppend(ents, e, x);
    }
  }

  /** The entry is free, or it names nothing in the directory already. */
  ghost predicate Fits(ino: seq<Inode>, ents: seq<Dirent>, i: nat, e: Dirent) {
    && 2 <= i <= |ents| && e.inum < |ino|
    && (e.inum != 0 ==>
        && e.name != "." && e.name != ".."
        && forall j: nat | j < |ents| && j != i && ents[j].inum != 0 :: ents[j].name != e.name)
  }

  lemma ShapePut(ino: seq<Inode>, dp: nat, i: nat, e: Dirent, nlink: int)
    requires Shapes(ino) && dp < |ino| && ino[dp].kind == Dir && Fits(ino, ino[dp].ents, i, e)
    ensures Shapes(ino[dp := Inode(Dir, nlink, Put(ino[dp].ents, i, e))])
  {
    var ents := Put(ino[dp].ents, i, e);
    var ino' := ino[dp := Inode(Dir, nlink, ents)];
    forall d: nat | d < |ino'|
      ensures DirOk(ino', d)
    {
      assert DirOk(ino, d);
      if d == dp {
        forall j: nat | j < |ents| ensures EntOk(ino', ents, j) {
          assert j < |ino[dp].ents| ==> EntOk(ino, ino[dp].ents, j);
        }
        forall j: nat, l: nat | j < |ents| && l < |ents| ensures NamesApart(ents, j, l) {
          assert j < |ino[dp].ents| && l < |ino[dp].ents| ==> NamesApart(ino[dp].ents, j, l);
        }
      } else {
        forall j: nat | j < |ino[d].ents| && ino[d].kind == Dir ensures EntOk(ino', ino'[d].ents, j) {
          assert EntOk(ino, ino[d].ents, j);
        }
      }
    }
  }

  lemma ShapeOther(ino: seq<Inode>, x: nat, node: Inode)
    requires Shapes(ino) && x < |ino| && (node.kind == Dir ==> ino[x].kind == Dir && node.ents == ino[x].ents)
             && (node.kind != Dir ==> node.ents == [])
    ensures Shapes(ino[x := node])
  {
    var ino' := ino[x := node];
    forall d: nat | d < |ino'|
      ensures DirOk(ino', d)
    {
      assert DirOk(ino, d);
      forall j: nat | j < |ino[d].ents| && ino[d].kind == Dir ensures EntOk(ino', ino[d].ents, j) {
        assert EntOk(ino, ino[d].ents, j);
      }
    }
  }

  lemma ShapeNewDir(ino: seq<Inode>, x: nat, dp: nat)
    requires Shapes(ino) && 0 < dp < |ino| && 0 < x < |ino|
    ensures Shapes(ino[x := Inode(Dir, 1, [Dirent(x, "."), Dirent(dp, "..")])])
  {
    var node := Inode(Dir, 1, [Dirent(x, "."), Dirent(dp, "..")]);
    var ino' := ino[x := node];
    forall d: nat | d < |ino'|
      ensures DirOk(ino', d)
    {
      assert DirOk(ino, d);
      if d != x {
        forall j: nat | j < |ino[d].ents| && ino[d].kind == Dir ensures EntOk(ino', ino[d].ents, j) {
          assert EntOk(ino, ino[d].ents, j);
        }
      }
    }
  }

  /** What the invariant says about an entry of a linked directory. */
  lemma NamedIsLive(ino: seq<Inode>, d: nat, i: nat)
    requires Inv(ino) && d < |ino| && Linked(ino[d]) && i < |ino[d].ents| && ino[d].ents[i].inum != 0
    ensures var x := ino[d].ents[i].inum; x < |ino| && ino[x].kind != Free && ino[x].nlink >= 1
  {
    hide Names, Count;
    assert DirOk(ino, d) && EntOk(ino, ino[d].ents, i);
    var x := ino[d].ents[i].inum;
    assert LawAt(ino, x) && LawAt(ino, d);
    NamesZero(ino[d].ents, x);
    CountZero(ino, x);
    assert i >= 1 ==> Counts(ino[d].ents[i], x) by {
      if i >= 2 { assert EntOk(ino, ino[d].ents, i); }
    }
  }

  /** An entry for a file comes or goes, and the file's count with it. */
  lemma FileTree(ino: seq<Inode>, dp: nat, i: nat, e: Dirent, x: nat, node: Inode)
    requires |ino| > ROOT && Tree(ino) && ino[0].kind == Free && dp < |ino| && 0 < x < |ino| && x != dp
             && Linked(ino[dp]) && 2 <= i <= |ino[dp].ents|
    requires ino[x].kind != Dir && node.kind != Dir && node.ents == [] == ino[x].ents
    requires e.inum == 0 || e.inum == x
    requires i < |ino[dp].ents| ==> ino[dp].ents[i].inum == 0 || ino[dp].ents[i].inum == x
    ensures Tree(ino[dp := ino[dp].(ents := Put(ino[dp].ents, i, e))][x := node])
  {
    hide Count, Names;
    var ino' := ino[dp := ino[dp].(ents := Put(ino[dp].ents, i, e))][x := node];
    forall p: nat, j: nat, y: nat | y != 0 && y < |ino| && ino'[y].kind == Dir
      ensures Entry(ino', p, j, y) <==> Entry(ino, p, j, y)
    {
    }
    forall d: nat | d < |ino'|
      ensures ChildOk(ino', d)
    {
      assert ChildOk(ino, d);
      if Linked(ino[d]) && d != ROOT && d != x {
        var j: nat :| Entry(ino, Parent(ino[d]), j, d);
        assert Entry(ino', Parent(ino'[d]), j, d);
      }
    }
    forall p: nat, j: nat, y: nat
      ensures EntryOk(ino', p, j, y)
    {
      assert EntryOk(ino, p, j, y);
    }
    forall p: nat, j: nat, l: nat, y: nat
      ensures EntryOnce(ino', p, j, l, y)
    {
      assert EntryOnce(ino, p, j, l, y);
    }
  }

  lemma FileLaw(ino: seq<Inode>, dp: nat, i: nat, e: Dirent, x: nat, node: Inode)
    requires Law(ino) && dp < |ino| && 0 < x < |ino| && x != dp && Linked(ino[dp]) && 2 <= i <= |ino[dp].ents|
    requires ino[x].kind != Dir && node.kind != Dir
    requires e.inum == 0 || Counts(e, x)
    requires i < |ino[dp].ents| ==> ino[dp].ents[i].inum == 0 || Counts(ino[dp].ents[i], x)
    requires node.kind != Free && node.nlink == (if ino[x].kind == Free then 0 else ino[x].nlink)
               + One(Counts(e, x)) - One(i < |ino[dp].ents| && Counts(ino[dp].ents[i], x))
    ensures Law(ino[dp := ino[dp].(ents := Put(ino[dp].ents, i, e))][x := node])
  {
    hide Count, Names, Put;
    var dnode := ino[dp].(ents := Put(ino[dp].ents, i, e));
    var ino' := ino[dp := dnode][x := node];
    forall z: nat | 0 < z < |ino'|
      ensures LawAt(ino', z)
    {
      assert LawAt(ino, z);
      CountUpdate(ino, dp, dnode, z);
      CountUpdate(ino[dp := dnode], x, node, z);
      NamesPut(ino[dp].ents, i, e, z);
    }
  }

  /** All of the above for one entry of a file: added with e naming x, or removed with e free. */
  function FileChange(ino: seq<Inode>, dp: nat, i: nat, e: Dirent, x: nat, node: Inode): seq<Inode>
    requires dp < |ino| && x < |ino| && i <= |ino[dp].ents|
  {
    ino[dp := ino[dp].(ents := Put(ino[dp].ents, i, e))][x := node]
  }

  lemma FileKeeps(ino: seq<Inode>, dp: nat, i: nat, e: Dirent, x: nat, node: Inode)
    requires Inv(ino) && dp < |ino| && 0 < x < |ino| && Linked(ino[dp]) && Fits(ino, ino[dp].ents, i, e)
    requires ino[x].kind != Dir && node.kind != Dir && node.kind != Free && node.ents == []
    requires e.inum == 0 || e.inum == x
    requires i < |ino[dp].ents| ==> ino[dp].ents[i].inum == 0 || ino[dp].ents[i].inum == x
    requires node.nlink == (if ino[x].kind == Free then 0 else ino[x].nlink) + One(e.inum == x)
                           - One(i < |ino[dp].ents| && ino[dp].ents[i].inum == x)
    ensures x != dp && Inv(FileChange(ino, dp, i, e, x, node))
  {
    hide Count, Names, Put, Law, Tree;
    assert DirOk(ino, x);
    if i < |ino[dp].ents| { assert DirOk(ino, dp) && EntOk(ino, ino[dp].ents, i); }
    FileTree(ino, dp, i, e, x, node);
    FileLaw(ino, dp, i, e, x, node);
    ShapePut(ino, dp, i, e, ino[dp].nlink);
    ShapeOther(ino[dp := Inode(Dir, ino[dp].nlink, Put(ino[dp].ents, i, e))], x, node);
  }

  /** An inode without links is given back: what it held counted for nothing. */
  lemma ReclaimKeeps(ino: seq<Inode>, x: nat)
    requires Inv(ino) && 0 < x < |ino| && ino[x].kind != Free && ino[x].nlink == 0
    ensures Inv(ino[x := Inode(Free, 0, [])])
  {
    hide Count, Names;
    var ino' := ino[x := Inode(Free, 0, [])];
    ShapeOther(ino, x, Inode(Free, 0, []));
    forall p: nat, j: nat, y: nat
      ensures Entry(ino', p, j, y) <==> Entry(ino, p, j, y)
    {
    }
    forall d: nat | d < |ino'|
      ensures ChildOk(ino', d)
    {
      assert ChildOk(ino, d);
      if Linked(ino'[d]) && d != ROOT {
        var j: nat :| Entry(ino, Parent(ino[d]), j, d);
        assert Entry(ino', Parent(ino'[d]), j, d);
      }
    }
    forall p: nat, j: nat, y: nat
      ensures EntryOk(ino', p, j, y)
    {
      assert EntryOk(ino, p, j, y);
    }
    forall p: nat, j: nat, l: nat, y: nat
      ensures EntryOnce(ino', p, j, l, y)
    {
      assert EntryOnce(ino, p, j, l, y);
    }
    forall z: nat | 0 < z < |ino'|
      ensures LawAt(ino', z)
    {
      assert LawAt(ino, z);
      CountUpdate(ino, x, Inode(Free, 0, []), z);
    }
  }

  /** An entry for a file, new or linked again, breaks the law exactly when its directory has been removed. */
  lemma LawNeedsLinked(ino: seq<Inode>, dp: nat, i: nat, name: string, x: nat, node: Inode)
    requires Inv(ino) && dp < |ino| && 0 < x < |ino| && ino[dp].kind == Dir && ino[x].kind != Dir
    requires node.kind != Free && node.kind != Dir && node.ents == []
    requires node.nlink == (if ino[x].kind == Free then 0 else ino[x].nlink) + 1
    requires Fits(ino, ino[dp].ents, i, Dirent(x, name)) && (i < |ino[dp].ents| ==> ino[dp].ents[i].inum == 0)
    ensures x != dp && (Inv(FileChange(ino, dp, i, Dirent(x, name), x, node)) <==> Linked(ino[dp]))
  {
    hide Count, Names, Put;
    var e := Dirent(x, name);
    if Linked(ino[dp]) {
      FileKeeps(ino, dp, i, e, x, node);
    } else {
      var dnode := ino[dp].(ents := Put(ino[dp].ents, i, e));
      CountUpdate(ino, dp, dnode, x);
      CountUpdate(ino[dp := dnode], x, node, x);
      assert LawAt(ino, x) && !LawAt(ino[dp := dnode][x := node], x);
    }
  }

  // ---- A directory is made ----

  function MakeDir(ino: seq<Inode>, dp: nat, i: nat, name: string, x: nat): seq<Inode>
    requires dp < |ino| && x < |ino| && i <= |ino[dp].ents|
  {
    ino[dp := Inode(Dir, ino[dp].nlink + 1, Put(ino[dp].ents, i, Dirent(x, name)))]
       [x := Inode(Dir, 1, [Dirent(x, "."), Dirent(dp, "..")])]
  }

  ghost predicate MakesDir(ino: seq<Inode>, dp: nat, i: nat, name: string, x: nat) {
    && Inv(ino) && 0 < dp < |ino| && 0 < x < |ino| && x != dp && Linked(ino[dp]) && ino[x].kind == Free
    && Fits(ino, ino[dp].ents, i, Dirent(x, name)) && (i < |ino[dp].ents| ==> ino[dp].ents[i].inum == 0)
  }

  /** Nothing in a linked directory names a free inode. */
  lemma FreeUnnamed(ino: seq<Inode>, p: nat, i: nat, x: nat)
    requires Inv(ino) && 0 < x < |ino| && ino[x].kind == Free
    ensures !Entry(ino, p, i, x)
  {
    if Entry(ino, p, i, x) { NamedIsLive(ino, p, i); }
  }

  lemma MakeDirTree(ino: seq<Inode>, dp: nat, i: nat, name: string, x: nat)
    requires MakesDir(ino, dp, i, name, x)
    ensures Tree(MakeDir(ino, dp, i, name, x))
  {
    hide Count, Names, Law, Shapes;
    var ino' := MakeDir(ino, dp, i, name, x);
    forall p: nat, j: nat, y: nat | y != 0
      ensures Entry(ino', p, j, y) <==> Entry(ino, p, j, y) || (p == dp && j == i && y == x)
      ensures !Entry(ino, p, j, x)
    {
      FreeUnnamed(ino, p, j, x);
    }
    assert Entry(ino', dp, i, x);
    forall d: nat | d < |ino'|
      ensures ChildOk(ino', d)
    {
      assert ChildOk(ino, d);
      if d != x && d != ROOT && Linked(ino[d]) {
        var j: nat :| Entry(ino, Parent(ino[d]), j, d);
        assert Entry(ino', Parent(ino'[d]), j, d);
      }
    }
    forall p: nat, j: nat, y: nat
      ensures EntryOk(ino', p, j, y)
    {
      assert EntryOk(ino, p, j, y);
    }
    forall p: nat, j: nat, l: nat, y: nat
      ensures EntryOnce(ino', p, j, l, y)
    {
      assert EntryOnce(ino, p, j, l, y);
    }
  }

  lemma DotsWeight(x: nat, dp: nat, z: nat)
    requires z != 0
    ensures Weight(Inode(Dir, 1, [Dirent(x, "."), Dirent(dp, "..")]), z) == One(z == dp)
  {
    var dots := [Dirent(x, "."), Dirent(dp, "..")];
    assert dots[..1] == [Dirent(x, ".")] && [Dirent(x, ".")][..0] == [];
    assert Names([Dirent(x, ".")], z) == 0;
  }

  lemma MakeDirLaw(ino: seq<Inode>, dp: nat, i: nat, name: string, x: nat)
    requires MakesDir(ino, dp, i, name, x)
    ensures Law(MakeDir(ino, dp, i, name, x))
  {
    hide Count, Names, Put, Shapes, Tree;
    var dnode, xnode := Inode(Dir, ino[dp].nlink + 1, Put(ino[dp].ents, i, Dirent(x, name))),
        Inode(Dir, 1, [Dirent(x, "."), Dirent(dp, "..")]);
    var ino' := ino[dp := dnode][x := xnode];
    forall z: nat | 0 < z < |ino'|
      ensures LawAt(ino', z)
    {
      assert LawAt(ino, z);
      CountUpdate(ino, dp, dnode, z);
      CountUpdate(ino[dp := dnode], x, xnode, z);
      NamesPut(ino[dp].ents, i, Dirent(x, name), z);
      DotsWeight(x, dp, z);
    }
  }

  /** A directory made in a removed one links that one again, and so its ".." where nothing has been counted. */
  lemma MakeDirBreaks(ino: seq<Inode>, dp: nat, i: nat, name: string, x: nat)
    requires Inv(ino) && 0 < dp < |ino| && 0 < x < |ino| && x != dp && ino[dp].kind == Dir && !Linked(ino[dp])
             && ino[x].kind == Free
    requires Fits(ino, ino[dp].ents, i, Dirent(x, name)) && (i < |ino[dp].ents| ==> ino[dp].ents[i].inum == 0)
    ensures !Law(MakeDir(ino, dp, i, name, x))
  {
    hide Count, Names, Put, Shapes, Tree;
    var dnode, xnode := Inode(Dir, ino[dp].nlink + 1, Put(ino[dp].ents, i, Dirent(x, name))),
        Inode(Dir, 1, [Dirent(x, "."), Dirent(dp, "..")]);
    var z := Parent(ino[dp]);
    ParentNamed(ino, dp);
    assert LawAt(ino, z) && LawAt(ino, dp);
    CountUpdate(ino, dp, dnode, z);
    CountUpdate(ino[dp := dnode], x, xnode, z);
    NamesPut(ino[dp].ents, i, Dirent(x, name), z);
    DotsWeight(x, dp, z);
    assert !LawAt(ino[dp := dnode][x := xnode], z);
  }

  lemma ParentNamed(ino: seq<Inode>, d: nat)
    requires Shapes(ino) && d < |ino| && ino[d].kind == Dir
    ensures 0 < Parent(ino[d]) < |ino| && Names(ino[d].ents, Parent(ino[d])) >= 1
  {
    assert DirOk(ino, d) && EntOk(ino, ino[d].ents, 1);
    NamesZero(ino[d].ents, Parent(ino[d]));
    assert Counts(ino[d].ents[1], Parent(ino[d]));
  }

  /** mkdir keeps the law exactly in a directory that has not been removed. */
  lemma MkdirNeedsLinked(ino: seq<Inode>, dp: nat, i: nat, name: string, x: nat)
    requires Inv(ino) && 0 < dp < |ino| && 0 < x < |ino| && ino[dp].kind == Dir && ino[x].kind == Free
    requires Fits(ino, ino[dp].ents, i, Dirent(x, name)) && (i < |ino[dp].ents| ==> ino[dp].ents[i].inum == 0)
    ensures Inv(MakeDir(ino, dp, i, name, x)) <==> Linked(ino[dp])
  {
    hide Count, Names, Put, Shapes, Tree, Fits;
    if Linked(ino[dp]) {
      MakeDirKeeps(ino, dp, i, name, x);
    } else {
      MakeDirBreaks(ino, dp, i, name, x);
    }
  }

  lemma MakeDirKeeps(ino: seq<Inode>, dp: nat, i: nat, name: string, x: nat)
    requires MakesDir(ino, dp, i, name, x)
    ensures Inv(MakeDir(ino, dp, i, name, x))
  {
    hide Count, Names, Put, Shapes, Tree, Law;
    MakeDirTree(ino, dp, i, name, x);
    MakeDirLaw(ino, dp, i, name, x);
    ShapePut(ino, dp, i, Dirent(x, name), ino[dp].nlink + 1);
    ShapeNewDir(ino[dp := Inode(Dir, ino[dp].nlink + 1, Put(ino[dp].ents, i, Dirent(x, name)))], x, dp);
  }

  // ---- An empty directory is removed ----

  function NoEntry(): Dirent {
    Dirent(0, "")
  }

  function DropDir(ino: seq<Inode>, dp: nat, i: nat, x: nat): seq<Inode>
    requires dp < |ino| && x < |ino| && i < |ino[dp].ents|
  {
    ino[dp := Inode(Dir, ino[dp].nlink - 1, Put(ino[dp].ents, i, NoEntry()))]
       [x := Inode(Dir, ino[x].nlink - 1, ino[x].ents)]
  }

  ghost predicate DropsDir(ino: seq<Inode>, dp: nat, i: nat, x: nat) {
    Inv(ino) && x != 0 && Entry(ino, dp, i, x) && x < |ino| && ino[x].kind == Dir && EmptyDir(ino[x].ents)
  }

  /** An empty directory is linked, is not its own parent, and is the parent of no linked directory. */
  lemma EmptyIsLeaf(ino: seq<Inode>, dp: nat, i: nat, x: nat)
    requires DropsDir(ino, dp, i, x)
    ensures x != ROOT && dp == Parent(ino[x]) && dp != x && Linked(ino[x])
    ensures forall d: nat | d < |ino| && Linked(ino[d]) :: Parent(ino[d]) != x
  {
    hide Count, Names, Law;
    NamedIsLive(ino, dp, i);
    assert EntryOk(ino, dp, i, x) && ChildOk(ino, x);
    forall d: nat | d < |ino| && Linked(ino[d])
      ensures Parent(ino[d]) != x
    {
      assert ChildOk(ino, d);
      if d != ROOT {
        var j: nat :| Entry(ino, Parent(ino[d]), j, d);
      }
    }
  }

  lemma EmptyWeight(ino: seq<Inode>, dp: nat, i: nat, x: nat, z: nat)
    requires DropsDir(ino, dp, i, x) && 0 < z < |ino|
    ensures Weight(ino[x], z) == One(z == dp)
  {
    hide Count, Law;
    EmptyIsLeaf(ino, dp, i, x);
    assert DirOk(ino, x);
    var ents := ino[x].ents;
    DotsOnly(ents, |ents|, z);
    assert ents[..|ents|] == ents;
  }

  lemma {:induction false} DotsOnly(ents: seq<Dirent>, n: nat, z: nat)
    requires 2 <= n <= |ents| && EmptyDir(ents) && ents[0].name == "." && ents[1].name == ".." && z != 0
    ensures Names(ents[..n], z) == One(ents[1].inum == z)
  {
    assert ents[..n][..n - 1] == ents[..n - 1];
    if n == 2 {
      assert ents[..1][..0] == [] && Names(ents[..1], z) == 0;
    } else {
      DotsOnly(ents, n - 1, z);
    }
  }

  /** The entry being removed is the only one that counts for the directory. */
  lemma NamedOnce(ino: seq<Inode>, dp: nat, i: nat, x: nat)
    requires DropsDir(ino, dp, i, x)
    ensures ino[x].nlink == 1
  {
    hide Count, Names;
    EmptyIsLeaf(ino, dp, i, x);
    var ents := ino[dp].ents;
    var dnode := ino[dp].(ents := ents[i := NoEntry()]);
    var ino1 := ino[dp := dnode];
    forall d: nat | d < |ino1|
      ensures Weight(ino1[d], x) == 0
    {
      NamesZero(ino1[d].ents, x);
      assert DirOk(ino, d);
      forall j: nat | Linked(ino1[d]) && j < |ino1[d].ents|
        ensures !Counts(ino1[d].ents[j], x)
      {
        if j >= 2 { assert EntryOk(ino, d, j, x) && EntryOnce(ino, dp, i, j, x); }
        assert j < 2 ==> ino1[d].ents[j] == ino[d].ents[j];
      }
    }
    CountZero(ino1, x);
    CountUpdate(ino, dp, dnode, x);
    NamesUpdate(ents, i, NoEntry(), x);
    assert DirOk(ino, dp) && EntOk(ino, ents, i) && Counts(ents[i], x);
    assert LawAt(ino, x);
  }

  /** The parent keeps at least one link. */
  lemma ParentStays(ino: seq<Inode>, dp: nat, i: nat, x: nat)
    requires DropsDir(ino, dp, i, x)
    ensures ino[dp].nlink >= 2
  {
    hide Count, Names;
    EmptyIsLeaf(ino, dp, i, x);
    var xnode := ino[x].(nlink := 0);
    var ino1 := ino[x := xnode];
    EmptyWeight(ino, dp, i, x, dp);
    CountUpdate(ino, x, xnode, dp);
    assert LawAt(ino, dp) && ChildOk(ino, dp) && DirOk(ino, dp);
    var p := Parent(ino[dp]);
    var j: nat := 1;
    if dp != ROOT {
      j :| Entry(ino, p, j, dp);
    }
    assert DirOk(ino, p) && EntOk(ino, ino[p].ents, j);
    assert Counts(ino1[p].ents[j], dp);
    NamesZero(ino1[p].ents, dp);
    CountZero(ino1, dp);
  }

  lemma DropDirTree(ino: seq<Inode>, dp: nat, i: nat, x: nat)
    requires DropsDir(ino, dp, i, x)
    ensures Tree(DropDir(ino, dp, i, x))
  {
    hide Count, Names, Law, Shapes;
    EmptyIsLeaf(ino, dp, i, x);
    ParentStays(ino, dp, i, x);
    NamedOnce(ino, dp, i, x);
    var ino' := DropDir(ino, dp, i, x);
    forall p: nat, j: nat, y: nat | y != 0
      ensures Entry(ino', p, j, y) ==> Entry(ino, p, j, y)
      ensures Entry(ino, p, j, y) && y != x ==> Entry(ino', p, j, y)
    {
    }
    forall d: nat | d < |ino'|
      ensures ChildOk(ino', d)
    {
      assert ChildOk(ino, d);
      if Linked(ino'[d]) && d != ROOT {
        assert Parent(ino'[d]) == Parent(ino[d]);
        var j: nat :| Entry(ino, Parent(ino[d]), j, d);
        assert Entry(ino', Parent(ino'[d]), j, d);
      }
    }
    forall p: nat, j: nat, y: nat
      ensures EntryOk(ino', p, j, y)
    {
      assert EntryOk(ino, p, j, y);
    }
    forall p: nat, j: nat, l: nat, y: nat
      ensures EntryOnce(ino', p, j, l, y)
    {
      assert EntryOnce(ino, p, j, l, y);
    }
  }

  lemma DropDirLaw(ino: seq<Inode>, dp: nat, i: nat, x: nat)
    requires DropsDir(ino, dp, i, x)
    ensures Law(DropDir(ino, dp, i, x))
  {
    hide Count, Names, Put, Shapes, Tree, EmptyDir;
    EmptyIsLeaf(ino, dp, i, x);
    ParentStays(ino, dp, i, x);
    NamedOnce(ino, dp, i, x);
    var dnode, xnode := Inode(Dir, ino[dp].nlink - 1, Put(ino[dp].ents, i, NoEntry())),
        Inode(Dir, ino[x].nlink - 1, ino[x].ents);
    var ino' := ino[dp := dnode][x := xnode];
    NamedNotDot(ino, dp, i, x);
    forall z: nat | 0 < z < |ino'|
      ensures LawAt(ino', z)
    {
      assert LawAt(ino, z);
      CountUpdate(ino, dp, dnode, z);
      CountUpdate(ino[dp := dnode], x, xnode, z);
      NamesPut(ino[dp].ents, i, NoEntry(), z);
      EmptyWeight(ino, dp, i, x, z);
    }
  }

  lemma NamedNotDot(ino: seq<Inode>, dp: nat, i: nat, x: nat)
    requires Inv(ino) && x != 0 && Entry(ino, dp, i, x)
    ensures Counts(ino[dp].ents[i], x)
  {
    assert DirOk(ino, dp) && EntOk(ino, ino[dp].ents, i);
  }

  lemma DropDirKeeps(ino: seq<Inode>, dp: nat, i: nat, x: nat)
    requires DropsDir(ino, dp, i, x)
    ensures Inv(DropDir(ino, dp, i, x)) && DropDir(ino, dp, i, x)[x].nlink == 0
  {
    hide Count, Names, Put, Shapes, Tree, Law, EmptyDir;
    EmptyIsLeaf(ino, dp, i, x);
    NamedOnce(ino, dp, i, x);
    ParentStays(ino, dp, i, x);
    DropDirTree(ino, dp, i, x);
    DropDirLaw(ino, dp, i, x);
    ShapePut(ino, dp, i, NoEntry(), ino[dp].nlink - 1);
    ShapeOther(ino[dp := Inode(Dir, ino[dp].nlink - 1, Put(ino[dp].ents, i, NoEntry()))], x,
        Inode(Dir, ino[x].nlink - 1, ino[x].ents));
  }

  // ---- Looking names up ----

  predicate Named(e: Dirent, name: string) {
    e.inum != 0 && e.name == name
  }

  /** The first entry from k on with that name. */
  function Find(ents: seq<Dirent>, name: string, k: nat): (r: Option<nat>)
    requires k <= |ents|
    ensures r.Some? ==> k <= r.value < |ents| && Named(ents[r.value], name)
    ensures forall j: nat | k <= j < |ents| && (r.Some? ==> j < r.value) :: !Named(ents[j], name)
    decreases |ents| - k
  {
    if k == |ents| then None else if Named(ents[k], name) then Some(k) else Find(ents, name, k + 1)
  }

  /** Where dirlink puts a new entry: the first free one, or the end. */
  function Slot(ents: seq<Dirent>, k: nat): (i: nat)
    requires k <= |ents|
    ensures k <= i <= |ents| && (i < |ents| ==> ents[i].inum == 0) && forall j: nat | k <= j < i :: ents[j].inum != 0
    decreases |ents| - k
  {
    if k == |ents| || ents[k].inum == 0 then k else Slot(ents, k + 1)
  }

  /** A new entry is the one found, and no other name is found differently. */
  lemma FindPut(ents: seq<Dirent>, i: nat, e: Dirent, name: string)
    requires i <= |ents| && (i < |ents| ==> ents[i].inum == 0) && Find(ents, e.name, 0).None? && e.inum != 0
    ensures Find(Put(ents, i, e), name, 0) == if name == e.name then Some(i) else Find(ents, name, 0)
  {
    var r, r' := Find(ents, name, 0), Find(Put(ents, i, e), name, 0);
    assert Put(ents, i, e)[i] == e;
    forall j: nat | j < |ents| && j != i ensures Put(ents, i, e)[j] == ents[j] {}
    if r.Some? && name != e.name {
      assert Named(Put(ents, i, e)[r.value], name);
    }
  }

  /** A removed entry is no longer found, and no other name is found differently. */
  lemma FindCleared(ino: seq<Inode>, d: nat, i: nat, name: string)
    requires Shapes(ino) && d < |ino| && ino[d].kind == Dir && i < |ino[d].ents| && ino[d].ents[i].inum != 0
    ensures Find(Put(ino[d].ents, i, NoEntry()), name, 0) ==
            if name == ino[d].ents[i].name then None else Find(ino[d].ents, name, 0)
  {
    var ents := ino[d].ents;
    var ents' := Put(ents, i, NoEntry());
    assert DirOk(ino, d);
    forall j: nat | j < |ents| && j != i
      ensures ents'[j] == ents[j] && ents[j].inum != 0 ==> ents[j].name != ents[i].name
    {
      assert NamesApart(ents, i, j);
    }
    var r, r' := Find(ents, name, 0), Find(ents', name, 0);
    if r.Some? && name != ents[i].name { assert Named(ents'[r.value], name); }
  }

  // ---- Walking a path ----

  /** Where a list of names leads from inode `at`. */
  function Steps(ino: seq<Inode>, at: nat, names: seq<string>): Option<nat>
    decreases |names|
  {
    if names == [] then Some(at)
    else if at >= |ino| || ino[at].kind != Dir then None
    else match Find(ino[at].ents, names[0], 0)
      case None => None
      case Some(i) => Steps(ino, ino[at].ents[i].inum, names[1..])
  }

  /** The directory that the last of the names is to be looked up in, and that name. */
  function ParentOf(ino: seq<Inode>, at: nat, names: seq<string>): (r: Option<(nat, string)>)
    ensures r.Some? ==> r.value.0 < |ino| && ino[r.value.0].kind == Dir
    decreases |names|
  {
    if names == [] || at >= |ino| || ino[at].kind != Dir then None
    else if |names| == 1 then Some((at, names[0]))
    else match Find(ino[at].ents, names[0], 0)
      case None => None
      case Some(i) => ParentOf(ino, ino[at].ents[i].inum, names[1..])
  }

  /** The walk meets an inode that is not in use, where ilock panics. */
  predicate WalkPanics(ino: seq<Inode>, at: nat, names: seq<string>)
    decreases |names|
  {
    names != [] && at < |ino| &&
    (ino[at].kind == Free ||
     (ino[at].kind == Dir && Find(ino[at].ents, names[0], 0).Some? &&
      WalkPanics(ino, ino[at].ents[Find(ino[at].ents, names[0], 0).value].inum, names[1..])))
  }

  /** nameiparent and a lookup are namei. */
  lemma {:induction false} ParentThenName(ino: seq<Inode>, at: nat, names: seq<string>)
    requires names != []
    ensures match ParentOf(ino, at, names)
            case None => Steps(ino, at, names).None?
            case Some((dp, name)) =>
              && dp < |ino| && ino[dp].kind == Dir && name == names[|names| - 1]
              && Steps(ino, at, names) == match Find(ino[dp].ents, name, 0)
                                          case None => None
                                          case Some(i) => Some(ino[dp].ents[i].inum)
    decreases |names|
  {
    if at < |ino| && ino[at].kind == Dir && |names| > 1 && Find(ino[at].ents, names[0], 0).Some? {
      ParentThenName(ino, ino[at].ents[Find(ino[at].ents, names[0], 0).value].inum, names[1..]);
    }
  }

  ghost predicate Alive(ino: seq<Inode>, x: nat) {
    0 < x < |ino| && ino[x].kind != Free && ino[x].nlink >= 1
  }

  /** From an inode with links, a path leads only to inodes with links. */
  lemma {:induction false} WalkAlive(ino: seq<Inode>, at: nat, names: seq<string>)
    requires Inv(ino) && Alive(ino, at)
    ensures Steps(ino, at, names).Some? ==> Alive(ino, Steps(ino, at, names).value)
    ensures ParentOf(ino, at, names).Some? ==>
            Alive(ino, ParentOf(ino, at, names).value.0) && Linked(ino[ParentOf(ino, at, names).value.0])
    ensures !WalkPanics(ino, at, names)
    decreases |names|
  {
    hide Inv;
    if names != [] && ino[at].kind == Dir && Find(ino[at].ents, names[0], 0).Some? {
      var i := Find(ino[at].ents, names[0], 0).value;
      NamedIsLive(ino, at, i);
      WalkAlive(ino, ino[at].ents[i].inum, names[1..]);
    }
  }

  /** Link counts do not matter to a walk. */
  lemma {:induction false} WalkSame(ino: seq<Inode>, ino': seq<Inode>, at: nat, names: seq<string>)
    requires |ino'| == |ino| && forall x | 0 <= x < |ino| :: ino'[x].kind == ino[x].kind && ino'[x].ents == ino[x].ents
    ensures Steps(ino', at, names) == Steps(ino, at, names) && ParentOf(ino', at, names) == ParentOf(ino, at, names)
    ensures WalkPanics(ino', at, names) == WalkPanics(ino, at, names)
    decreases |names|
  {
    if names != [] && at < |ino| && ino[at].kind == Dir && Find(ino[at].ents, names[0], 0).Some? {
      WalkSame(ino, ino', ino[at].ents[Find(ino[at].ents, names[0], 0).value].inum, names[1..]);
    }
  }

  // ---- What a new or a removed entry does to paths ----

  function Lookup(ino: seq<Inode>, d: nat, name: string): Option<nat>
    requires d < |ino|
  {
    match Find(ino[d].ents, name, 0) case None => None case Some(i) => Some(ino[d].ents[i].inum)
  }

  ghost predicate RelookAt(ino: seq<Inode>, ino': seq<Inode>, dp: nat, name: string, to: Option<nat>, d: nat, n: string)
    requires |ino'| == |ino|
  {
    d < |ino| && ino[d].kind == Dir ==>
      ino'[d].kind == Dir && Lookup(ino', d, n) == if d == dp && n == name then to else Lookup(ino, d, n)
  }

  /** In all directories every name but one leads where it did, and that one leads to `to`. */
  ghost predicate Relooks(ino: seq<Inode>, ino': seq<Inode>, dp: nat, name: string, to: Option<nat>) {
    |ino'| == |ino| && forall d: nat, n: string :: RelookAt(ino, ino', dp, name, to, d, n)
  }

  /** Only one entry of one directory is different. */
  ghost predicate OneEntry(ino: seq<Inode>, ino': seq<Inode>, dp: nat, i: nat, e: Dirent) {
    && |ino'| == |ino| && dp < |ino| && ino[dp].kind == Dir && i <= |ino[dp].ents|
    && forall d: nat | d < |ino| && ino[d].kind == Dir ::
         ino'[d].kind == Dir && ino'[d].ents == if d == dp then Put(ino[dp].ents, i, e) else ino[d].ents
  }

  lemma EntryAdded(ino: seq<Inode>, ino': seq<Inode>, dp: nat, name: string, x: nat)
    requires dp < |ino| && OneEntry(ino, ino', dp, Slot(ino[dp].ents, 0), Dirent(x, name))
    requires Find(ino[dp].ents, name, 0).None? && x != 0
    ensures Relooks(ino, ino', dp, name, Some(x)) && Lookup(ino, dp, name).None?
  {
    hide Find, Put, Slot;
    var i := Slot(ino[dp].ents, 0);
    forall d: nat, n: string
      ensures RelookAt(ino, ino', dp, name, Some(x), d, n)
    {
      FindPut(ino[dp].ents, i, Dirent(x, name), n);
      PutAt(ino[dp].ents, i, Dirent(x, name), Find(ino[dp].ents, n, 0));
    }
  }

  lemma PutAt(ents: seq<Dirent>, i: nat, e: Dirent, j: Option<nat>)
    requires i <= |ents|
    ensures Put(ents, i, e)[i] == e
            && (j.Some? && j.value < |ents| && j.value != i ==> Put(ents, i, e)[j.value] == ents[j.value])
  {
  }

  lemma EntryRemoved(ino: seq<Inode>, ino': seq<Inode>, dp: nat, i: nat)
    requires Shapes(ino) && dp < |ino| && i < |ino[dp].ents| && ino[dp].ents[i].inum != 0
    requires OneEntry(ino, ino', dp, i, NoEntry())
    ensures Relooks(ino, ino', dp, ino[dp].ents[i].name, None)
  {
    hide Find, Put, Shapes;
    forall d: nat, n: string
      ensures RelookAt(ino, ino', dp, ino[dp].ents[i].name, None, d, n)
    {
      FindCleared(ino, dp, i, n);
      PutAt(ino[dp].ents, i, NoEntry(), Find(ino[dp].ents, n, 0));
    }
  }

  /** Paths that led somewhere lead there still after an entry has been added. */
  lemma {:induction false} WalkAdded(ino: seq<Inode>, ino': seq<Inode>, dp: nat, name: string, x: nat, at: nat,
                                     names: seq<string>)
    requires Relooks(ino, ino', dp, name, Some(x)) && dp < |ino| && Lookup(ino, dp, name).None?
    ensures Steps(ino, at, names).Some? ==> Steps(ino', at, names) == Steps(ino, at, names)
    ensures ParentOf(ino, at, names).Some? ==> ParentOf(ino', at, names) == ParentOf(ino, at, names)
    decreases |names|
  {
    hide Find;
    if names != [] && at < |ino| && ino[at].kind == Dir {
      assert RelookAt(ino, ino', dp, name, Some(x), at, names[0]);
      if Find(ino[at].ents, names[0], 0).Some? {
        WalkAdded(ino, ino', dp, name, x, Lookup(ino, at, names[0]).value, names[1..]);
      }
    }
  }

  /** The path of an entry that has been added leads to the inode it names. */
  lemma AddedIsFound(ino: seq<Inode>, ino': seq<Inode>, dp: nat, name: string, x: nat, at: nat, names: seq<string>)
    requires Relooks(ino, ino', dp, name, Some(x)) && dp < |ino| && Lookup(ino, dp, name).None?
    requires ParentOf(ino, at, names) == Some((dp, name))
    ensures Steps(ino', at, names) == Some(x)
  {
    hide Find;
    WalkAdded(ino, ino', dp, name, x, at, names);
    ParentThenName(ino', at, names);
    assert RelookAt(ino, ino', dp, name, Some(x), dp, name);
  }

  /** The path of an entry that has been removed leads nowhere. */
  lemma {:induction false} RemovedIsGone(ino: seq<Inode>, ino': seq<Inode>, dp: nat, name: string, at: nat,
                                         names: seq<string>)
    requires Relooks(ino, ino', dp, name, None) && ParentOf(ino, at, names) == Some((dp, name))
    ensures Steps(ino', at, names).None?
    decreases |names|
  {
    hide Find;
    assert RelookAt(ino, ino', dp, name, None, at, names[0]);
    if |names| > 1 && Lookup(ino', at, names[0]).Some? {
      RemovedIsGone(ino, ino', dp, name, Lookup(ino, at, names[0]).value, names[1..]);
    }
  }

  // ---- The system calls ----

  function FirstFree(ino: seq<Inode>, k: nat): (r: Option<nat>)
    requires k <= |ino|
    ensures r.Some? ==> k <= r.value < |ino| && ino[r.value].kind == Free
    ensures forall j: nat | k <= j < |ino| && (r.Some? ==> j < r.value) :: ino[j].kind != Free
    decreases |ino| - k
  {
    if k == |ino| then None else if ino[k].kind == Free then Some(k) else FirstFree(ino, k + 1)
  }

  predicate Absolute(path: string) {
    path != [] && path[0] == '/'
  }

  function Start(path: string, cwd: nat): nat {
    if Absolute(path) then ROOT else cwd
  }

  /** What namex answers for a list of names from inode `at`. */
  ghost predicate Walked(ino: seq<Inode>, at: nat, names: seq<string>, parent: bool, ip: nat, name: string,
                         panicked: bool)
  {
    && (panicked <==> WalkPanics(ino, at, names))
    && (!parent && !panicked ==>
        match Steps(ino, at, names)
        case None => ip == 0
        case Some(x) => ip == x && 0 < x < |ino|)
    && (parent && !panicked ==>
        match ParentOf(ino, at, names)
        case None => ip == 0
        case Some((dp, n)) => ip == dp && name == n && 0 < dp < |ino| && ino[dp].kind == Dir)
  }

  /** What create makes of the inodes `was`. */
  ghost predicate CreateOutcome(was: seq<Inode>, path: string, kind: Kind, cwd: nat, now: seq<Inode>, r: nat,
                                panicked: bool)
  {
    var at, names := Start(path, cwd), Paths.Elems(path);
    && (WalkPanics(was, at, names) ==> panicked)
    && (!WalkPanics(was, at, names) ==>
        match ParentOf(was, at, names)
        case None => !panicked && r == 0 && now == was
        case Some((dp, name)) =>
          match Find(was[dp].ents, name, 0)
          case Some(i) =>
            var x := was[dp].ents[i].inum;
            && now == was && x < |was| && (panicked <==> was[x].kind == Free)
            && (!panicked ==> r == if kind == File && was[x].kind == File then x else 0)
          case None =>
            && (panicked <==> |was| < 1 || FirstFree(was, 1).None?)
            && (!panicked ==>
                var i, x := Slot(was[dp].ents, 0), FirstFree(was, 1).value;
                && (now == if kind == Dir then MakeDir(was, dp, i, name, x)
                           else FileChange(was, dp, i, Dirent(x, name), x, Inode(kind, 1, [])))
                && r == x && (Inv(now) <==> Linked(was[dp]))))
  }

  /** What sys_link makes of the inodes `was`. */
  ghost predicate LinkOutcome(was: seq<Inode>, oldpath: string, newpath: string, cwd: nat, now: seq<Inode>, r: int,
                              panicked: bool)
  {
    var found := Steps(was, Start(oldpath, cwd), Paths.Elems(oldpath));
    var pn := ParentOf(was, Start(newpath, cwd), Paths.Elems(newpath));
    && (panicked <==>
          || WalkPanics(was, Start(oldpath, cwd), Paths.Elems(oldpath))
          || (found.Some? && found.value < |was| && was[found.value].kind == Free)
          || (found.Some? && found.value < |was| && was[found.value].kind != Dir
              && WalkPanics(was, Start(newpath, cwd), Paths.Elems(newpath))))
    && (!panicked ==> (r == 0 || r == -1) && (r == -1 ==> now == was && Inv(now)))
    && (!panicked ==>
        && (r == 0 <==> found.Some? && found.value < |was| && was[found.value].kind != Dir
                        && pn.Some? && Find(was[pn.value.0].ents, pn.value.1, 0).None?)
        && (r == 0 ==>
            var x, (dp, name) := found.value, pn.value;
            && now == FileChange(was, dp, Slot(was[dp].ents, 0), Dirent(x, name), x,
                                 was[x].(nlink := was[x].nlink + 1))
            && (Inv(now) <==> Linked(was[dp]))))
  }

  /** What sys_unlink makes of the inodes `was`. */
  ghost predicate UnlinkOutcome(was: seq<Inode>, path: string, cwd: nat, now: seq<Inode>, r: int, panicked: bool) {
    var at, names := Start(path, cwd), Paths.Elems(path);
    && (panicked <==> WalkPanics(was, at, names))
    && (!panicked ==> Inv(now) && (r == 0 || r == -1) && (r == -1 ==> now == was))
    && (!panicked ==>
        match ParentOf(was, at, names)
        case None => r == -1
        case Some((dp, name)) =>
          match Find(was[dp].ents, name, 0)
          case None => r == -1
          case Some(i) =>
            var x := was[dp].ents[i].inum;
            && x < |was|
            && (r == 0 <==> name != "." && name != ".." && (was[x].kind == Dir ==> EmptyDir(was[x].ents)))
            && (r == 0 ==> now == if was[x].kind == Dir then DropDir(was, dp, i, x)
                                  else FileChange(was, dp, i, NoEntry(), x, was[x].(nlink := was[x].nlink - 1))))
  }

  /** An absolute path means the same to every process: the current directory does not matter. */
  lemma AbsoluteCreate(was: seq<Inode>, path: string, kind: Kind, cwd1: nat, now1: seq<Inode>, r1: nat, p1: bool,
                       cwd2: nat, now2: seq<Inode>, r2: nat, p2: bool)
    requires path != [] && path[0] == '/'
    requires CreateOutcome(was, path, kind, cwd1, now1, r1, p1) && CreateOutcome(was, path, kind, cwd2, now2, r2, p2)
    ensures p1 == p2 && (!p1 ==> now1 == now2 && r1 == r2)
  {
    hide Find, Slot, FirstFree, Paths.Elems, ParentOf, WalkPanics, Inv;
  }

  lemma AbsoluteLink(was: seq<Inode>, path: string, path': string, cwd1: nat, now1: seq<Inode>, r1: int, p1: bool,
                     cwd2: nat, now2: seq<Inode>, r2: int, p2: bool)
    requires path != [] && path[0] == '/' && path' != [] && path'[0] == '/'
    requires LinkOutcome(was, path, path', cwd1, now1, r1, p1) && LinkOutcome(was, path, path', cwd2, now2, r2, p2)
    ensures p1 == p2 && (!p1 ==> now1 == now2 && r1 == r2)
  {
    hide Find, Slot, Paths.Elems, ParentOf, Steps, WalkPanics, Inv;
  }

  lemma AbsoluteUnlink(was: seq<Inode>, path: string, cwd1: nat, now1: seq<Inode>, r1: int, p1: bool, cwd2: nat,
                       now2: seq<Inode>, r2: int, p2: bool)
    requires path != [] && path[0] == '/'
    requires UnlinkOutcome(was, path, cwd1, now1, r1, p1) && UnlinkOutcome(was, path, cwd2, now2, r2, p2)
    ensures p1 == p2 && (!p1 ==> now1 == now2 && r1 == r2)
  {
    hide Find, Paths.Elems, ParentOf, WalkPanics, Inv, EmptyDir;
  }

  /** The path create was given leads to the inode it returns. */
  lemma CreatedIsFound(was: seq<Inode>, path: string, kind: Kind, cwd: nat, now: seq<Inode>, r: nat)
    requires CreateOutcome(was, path, kind, cwd, now, r, false) && r != 0
    ensures Steps(now, Start(path, cwd), Paths.Elems(path)) == Some(r)
  {
    hide Find, Slot, FirstFree, Put, Paths.Elems, Steps, ParentOf, WalkPanics, Inv, Relooks;
    var at, names := Start(path, cwd), Paths.Elems(path);
    var (dp, name) := ParentOf(was, at, names).value;
    assert names != [] by { ParentHasName(was, at, names); }
    ParentThenName(was, at, names);
    if Find(was[dp].ents, name, 0).None? {
      assert OneEntry(was, now, dp, Slot(was[dp].ents, 0), Dirent(r, name));
      EntryAdded(was, now, dp, name, r);
      AddedIsFound(was, now, dp, name, r, at, names);
    }
  }

  lemma ParentHasName(ino: seq<Inode>, at: nat, names: seq<string>)
    ensures ParentOf(ino, at, names).Some? ==> names != []
  {
  }

  /** After sys_link both paths lead to the file. */
  lemma LinkedIsFound(was: seq<Inode>, oldpath: string, newpath: string, cwd: nat, now: seq<Inode>)
    requires LinkOutcome(was, oldpath, newpath, cwd, now, 0, false) && was != [] && was[0].kind == Free
    ensures Steps(now, Start(newpath, cwd), Paths.Elems(newpath)).Some?
    ensures Steps(now, Start(newpath, cwd), Paths.Elems(newpath))
         == Steps(now, Start(oldpath, cwd), Paths.Elems(oldpath))
         == Steps(was, Start(oldpath, cwd), Paths.Elems(oldpath))
  {
    hide Find, Slot, Put, Paths.Elems, Steps, ParentOf, WalkPanics, Inv, Relooks;
    var x := Steps(was, Start(oldpath, cwd), Paths.Elems(oldpath)).value;
    var (dp, name) := ParentOf(was, Start(newpath, cwd), Paths.Elems(newpath)).value;
    assert x != 0;
    assert OneEntry(was, now, dp, Slot(was[dp].ents, 0), Dirent(x, name));
    EntryAdded(was, now, dp, name, x);
    AddedIsFound(was, now, dp, name, x, Start(newpath, cwd), Paths.Elems(newpath));
    WalkAdded(was, now, dp, name, x, Start(oldpath, cwd), Paths.Elems(oldpath));
  }

  lemma InUse(ino: seq<Inode>, d: nat)
    requires Inv(ino) && d < |ino| && ino[d].kind == Dir
    ensures d > 0 && Shapes(ino)
  {
  }

  /** After sys_unlink the path leads nowhere. */
  lemma UnlinkedIsGone(was: seq<Inode>, path: string, cwd: nat, now: seq<Inode>)
    requires Inv(was) && UnlinkOutcome(was, path, cwd, now, 0, false)
    ensures Steps(now, Start(path, cwd), Paths.Elems(path)).None?
  {
    hide Find, Put, Paths.Elems, Steps, ParentOf, WalkPanics, Inv, Relooks, EmptyDir, Shapes;
    var at, names := Start(path, cwd), Paths.Elems(path);
    var (dp, name) := ParentOf(was, at, names).value;
    var i := Find(was[dp].ents, name, 0).value;
    InUse(was, dp);
    NotDots(was, dp, i);
    if was[was[dp].ents[i].inum].kind == Dir { EmptyIsLeaf(was, dp, i, was[dp].ents[i].inum); }
    assert OneEntry(was, now, dp, i, NoEntry());
    EntryRemoved(was, now, dp, i);
    RemovedIsGone(was, now, dp, name, at, names);
  }

  /** A slot for a name that is not there. */
  lemma SlotFits(ino: seq<Inode>, dp: nat, name: string, x: nat)
    requires Shapes(ino) && 0 < dp < |ino| && ino[dp].kind == Dir && x < |ino| && Find(ino[dp].ents, name, 0).None?
    ensures Fits(ino, ino[dp].ents, Slot(ino[dp].ents, 0), Dirent(x, name))
  {
    var ents := ino[dp].ents;
    assert DirOk(ino, dp);
    assert EntOk(ino, ents, 0) && !Named(ents[0], name) && !Named(ents[1], name);
  }

  lemma ShapesUp(ino: seq<Inode>, x: nat)
    requires Inv(ino) && 0 < x < |ino| && ino[x].kind != Dir
    ensures Shapes(ino[x := ino[x].(nlink := ino[x].nlink + 1)]) && ino[x].ents == []
  {
    assert DirOk(ino, x);
    ShapeOther(ino, x, ino[x].(nlink := ino[x].nlink + 1));
  }

  lemma FileLinkable(ino: seq<Inode>, dp: nat, name: string, x: nat)
    requires Inv(ino) && 0 < dp < |ino| && 0 < x < |ino| && ino[dp].kind == Dir && ino[x].kind != Dir
             && ino[x].kind != Free
    ensures Find(ino[dp].ents, name, 0).None? ==>
            && x != dp
            && (Linked(ino[dp]) <==>
                Inv(FileChange(ino, dp, Slot(ino[dp].ents, 0), Dirent(x, name), x, ino[x].(nlink := ino[x].nlink + 1))))
  {
    hide Shapes, Tree, Law, Fits, RemovedEmpty;
    if Find(ino[dp].ents, name, 0).None? {
      SlotFits(ino, dp, name, x);
      ShapesUp(ino, x);
      LawNeedsLinked(ino, dp, Slot(ino[dp].ents, 0), name, x, ino[x].(nlink := ino[x].nlink + 1));
    }
  }

  lemma NotDots(ino: seq<Inode>, dp: nat, i: nat)
    requires Inv(ino) && 0 < dp < |ino| && ino[dp].kind == Dir && i < |ino[dp].ents| && ino[dp].ents[i].inum != 0
    requires ino[dp].ents[i].name != "." && ino[dp].ents[i].name != ".."
    ensures Linked(ino[dp]) && Entry(ino, dp, i, ino[dp].ents[i].inum)
  {
    assert DirOk(ino, dp);
  }

  lemma NamedInRange(ino: seq<Inode>, dp: nat, i: nat)
    requires Inv(ino) && 0 < dp < |ino| && ino[dp].kind == Dir && i < |ino[dp].ents|
    ensures ino[dp].ents[i].inum < |ino|
  {
    assert DirOk(ino, dp) && EntOk(ino, ino[dp].ents, i);
  }

  lemma FileUnlinkable(ino: seq<Inode>, dp: nat, i: nat, x: nat)
    requires Inv(ino) && 0 < x < |ino| && Entry(ino, dp, i, x) && ino[x].kind != Dir && ino[x].kind != Free
    ensures x != dp && Inv(FileChange(ino, dp, i, NoEntry(), x, ino[x].(nlink := ino[x].nlink - 1)))
  {
    assert DirOk(ino, x);
    hide Shapes, Tree, Law;
    FileKeeps(ino, dp, i, NoEntry(), x, ino[x].(nlink := ino[x].nlink - 1));
  }

  function Formatted(n: nat): seq<Inode>
    requires n > ROOT
  {
    seq(n, x => if x == ROOT then Inode(Dir, 1, [Dirent(ROOT, "."), Dirent(ROOT, "..")]) else Inode(Free, 0, []))
  }

  lemma FormattedOk(n: nat)
    requires n > ROOT
    ensures Inv(Formatted(n))
  {
    hide Count, Names;
    var ino := Formatted(n);
    var none := seq(n, x => Inode(Free, 0, []));
    assert ino == none[ROOT := Inode(Dir, 1, [Dirent(ROOT, "."), Dirent(ROOT, "..")])];
    forall d: nat | d < n ensures DirOk(ino, d) {}
    forall d: nat | d < n ensures ChildOk(ino, d) {}
    forall x: nat | 0 < x < n
      ensures LawAt(ino, x)
    {
      CountZero(none, x);
      CountUpdate(none, ROOT, ino[ROOT], x);
      DotsWeight(ROOT, ROOT, x);
    }
  }

  class Inodes {
    var ino: seq<Inode>

    ghost predicate Valid()
      reads this
    {
      Inv(ino)
    }

    /** The root directory alone, as mkfs lays it out. */
    constructor (n: nat)
      requires n > ROOT
      ensures Valid() && ino == Formatted(n)
    {
      ino := Formatted(n);
      new;
      FormattedOk(n);
    }

    /** dirlookup: the index of the entry, or -1. */
    method Dirlookup(dp: nat, name: string) returns (r: int)
      requires dp < |ino| && ino[dp].kind == Dir
      ensures r == match Find(ino[dp].ents, name, 0) case None => -1 case Some(i) => i
    {
      var i := 0;
      while i < |ino[dp].ents|
        invariant 0 <= i <= |ino[dp].ents| && Find(ino[dp].ents, name, 0) == Find(ino[dp].ents, name, i)
      {
        if ino[dp].ents[i].inum != 0 && ino[dp].ents[i].name == name {
          return i;
        }
        i := i + 1;
      }
      return -1;
    }

    method Dirlink(dp: nat, name: string, inum: nat) returns (r: int)
      requires dp < |ino| && ino[dp].kind == Dir
      modifies this
      ensures Find(old(ino[dp].ents), name, 0).Some? ==> r == -1 && ino == old(ino)
      ensures Find(old(ino[dp].ents), name, 0).None? ==>
                r == 0 && ino == old(ino)[dp := old(ino[dp]).(ents := Put(old(ino[dp].ents), Slot(old(ino[dp].ents), 0),
                    Dirent(inum, name)))]
    {
      var at := Dirlookup(dp, name);
      if at != -1 {
        return -1;
      }
      var i := 0;
      while i < |ino[dp].ents| && ino[dp].ents[i].inum != 0
        invariant 0 <= i <= |ino[dp].ents| && Slot(ino[dp].ents, 0) == Slot(ino[dp].ents, i) && ino == old(ino)
      {
        i := i + 1;
      }
      ino := ino[dp := ino[dp].(ents := Put(ino[dp].ents, i, Dirent(inum, name)))];
      return 0;
    }

    method Isdirempty(dp: nat) returns (r: bool)
      requires dp < |ino|
      ensures r <==> forall i: nat | 2 <= i < |ino[dp].ents| :: ino[dp].ents[i].inum == 0
      ensures r == EmptyDir(ino[dp].ents)
    {
      var i := 2;
      while i < |ino[dp].ents|
        invariant 2 <= i && forall j: nat | 2 <= j < i && j < |ino[dp].ents| :: ino[dp].ents[j].inum == 0
      {
        if ino[dp].ents[i].inum != 0 {
          return false;
        }
        i := i + 1;
      }
      return true;
    }

    /** ialloc's search; 0 stands for its panic. */
    method Ialloc() returns (x: nat)
      requires |ino| > ROOT
      ensures x == match FirstFree(ino, 1) case None => 0 case Some(f) => f
    {
      var i := 1;
      while i < |ino|
        invariant 1 <= i <= |ino| && FirstFree(ino, 1) == FirstFree(ino, i)
      {
        if ino[i].kind == Free {
          return i;
        }
        i := i + 1;
      }
      return 0;
    }

    /** The part of create that makes a directory. */
    method NewDir(dp: nat, name: string, x: nat) returns (r: int)
      requires 0 < dp < |ino| && 0 < x < |ino| && x != dp && ino[dp].kind == Dir && Find(ino[dp].ents, name, 0).None?
      modifies this
      ensures ino == MakeDir(old(ino), dp, Slot(old(ino[dp].ents), 0), name, x)
    {
      ino := ino[x := Inode(Dir, 1, [])];
      ino := ino[dp := ino[dp].(nlink := ino[dp].nlink + 1)];
      r := Dirlink(x, ".", x);
      assert ino[x].ents == [Dirent(x, ".")];
      r := Dirlink(x, "..", dp);
      assert ino[x].ents == [Dirent(x, "."), Dirent(dp, "..")];
      r := Dirlink(dp, name, x);
    }

    /** namex: 0 when the path leads nowhere. */
    method Namex(path: string, parent: bool, cwd: nat) returns (ip: nat, name: string, panicked: bool)
      requires Shapes(ino) && ino[0].kind == Free && 0 < cwd < |ino|
      ensures path != [] && path[0] == '/' ==> Walked(ino, ROOT, Paths.Elems(path), parent, ip, name, panicked)
      ensures path == [] || path[0] != '/' ==> Walked(ino, cwd, Paths.Elems(path), parent, ip, name, panicked)
      ensures path == [] ==> !panicked && ip == if parent then 0 else cwd
    {
      hide Find, Paths.Elems;
      ghost var names := Paths.Elems(path);
      ip := if path != [] && path[0] == '/' then ROOT else cwd;
      ghost var start := ip;
      name := [];
      var rest := path;
      while true
        invariant 0 < ip < |ino|
        invariant Steps(ino, start, names) == Steps(ino, ip, Paths.Elems(rest))
        invariant WalkPanics(ino, start, names) == WalkPanics(ino, ip, Paths.Elems(rest))
        invariant parent ==> ParentOf(ino, start, names) == ParentOf(ino, ip, Paths.Elems(rest))
        decreases |rest|
      {
        var found, n, r := Paths.Skipelem(rest);
        if !found {
          break;
        }
        ghost var now := Paths.Elems(rest);
        assert now[0] == n && now[1..] == Paths.Elems(r);
        name := n;
        if ino[ip].kind == Free {
          return 0, name, true;
        }
        if ino[ip].kind != Dir {
          return 0, name, false;
        }
        ghost var next := Find(ino[ip].ents, n, 0);
        if parent && r == [] {
          return ip, name, false;
        }
        var i := Dirlookup(ip, name);
        if i == -1 {
          return 0, name, false;
        }
        assert DirOk(ino, ip) && EntOk(ino, ino[ip].ents, i);
        ip := ino[ip].ents[i].inum;
        rest := r;
      }
      return if parent then 0 else ip, name, false;
    }

    /** create: panics when the walk does, or without a free inode; keeps the law exactly in a linked directory. */
    method Create(path: string, kind: Kind, cwd: nat) returns (r: nat, panicked: bool)
      requires Valid() && 0 < cwd < |ino| && ino[cwd].kind == Dir && kind != Free
      modifies this
      ensures CreateOutcome(old(ino), path, kind, cwd, ino, r, panicked)
    {
      hide Shapes, Tree, Law, RemovedEmpty, Find, Slot, FirstFree, Put, Fits, Paths.Elems, Steps, ParentOf, WalkPanics;
      var dp, name, p := Namex(path, true, cwd);
      if p {
        return 0, true;
      }
      if dp == 0 {
        return 0, false;
      }
      var at := Dirlookup(dp, name);
      if at != -1 {
        NamedInRange(ino, dp, at);
        var ip := ino[dp].ents[at].inum;
        if ino[ip].kind == Free {
          return 0, true;
        }
        if kind == File && ino[ip].kind == File {
          return ip, false;
        }
        return 0, false;
      }
      var x := Ialloc();
      if x == 0 {
        return 0, true;
      }
      SlotFits(ino, dp, name, x);
      ghost var i := Slot(ino[dp].ents, 0);
      if kind == Dir {
        MkdirNeedsLinked(ino, dp, i, name, x);
        var q := NewDir(dp, name, x);
        return x, false;
      }
      LawNeedsLinked(ino, dp, i, name, x, Inode(kind, 1, []));
      ino := ino[x := Inode(kind, 1, [])];
      var q := Dirlink(dp, name, x);
      assert ino == FileChange(old(ino), dp, i, Dirent(x, name), x, Inode(kind, 1, []));
      return x, false;
    }

    /** sys_link: a failed call leaves every count as it was; success keeps the law exactly in a linked directory. */
    method Link(oldpath: string, newpath: string, cwd: nat) returns (r: int, panicked: bool)
      requires Valid() && 0 < cwd < |ino| && ino[cwd].kind == Dir
      modifies this
      ensures LinkOutcome(old(ino), oldpath, newpath, cwd, ino, r, panicked)
    {
      hide Shapes, Tree, Law, RemovedEmpty, Find, Slot, Put, Fits, Paths.Elems, Steps, ParentOf, WalkPanics;
      r, panicked := -1, false;
      var ip, _, p := Namex(oldpath, false, cwd);
      if p {
        return -1, true;
      }
      if ip == 0 {
        return -1, false;
      }
      if ino[ip].kind == Free {
        return -1, true;
      }
      if ino[ip].kind == Dir {
        return -1, false;
      }
      ghost var ino0 := ino;
      ino := ino[ip := ino[ip].(nlink := ino[ip].nlink + 1)];
      WalkSame(ino0, ino, Start(newpath, cwd), Paths.Elems(newpath));
      ShapesUp(ino0, ip);
      var dp, name, pp := Namex(newpath, true, cwd);
      if pp {
        return -1, true;
      }
      if dp != 0 {
        FileLinkable(ino0, dp, name, ip);
        var q := Dirlink(dp, name, ip);
        if q >= 0 {
          assert ino == FileChange(ino0, dp, Slot(ino0[dp].ents, 0), Dirent(ip, name), ip,
              ino0[ip].(nlink := ino0[ip].nlink + 1));
          return 0, false;
        }
      }
      ino := ino[ip := ino[ip].(nlink := ino[ip].nlink - 1)];
      assert ino == ino0;
      return -1, false;
    }

    /** sys_unlink: it panics only when the walk does; the panic "nlink < 1" cannot happen. */
    method Unlink(path: string, cwd: nat) returns (r: int, panicked: bool)
      requires Valid() && 0 < cwd < |ino| && ino[cwd].kind == Dir
      modifies this
      ensures UnlinkOutcome(old(ino), path, cwd, ino, r, panicked)
    {
      hide Shapes, Tree, Law, RemovedEmpty, Find, Put, Fits, Paths.Elems, EmptyDir, Steps, ParentOf, WalkPanics;
      var dp, name, p := Namex(path, true, cwd);
      if p {
        return -1, true;
      }
      if dp == 0 {
        return -1, false;
      }
      ghost var ino0 := ino;
      ghost var found := Find(ino[dp].ents, name, 0);
      if found.Some? { NamedInRange(ino, dp, found.value); }
      if name == "." || name == ".." {
        return -1, false;
      }
      var i := Dirlookup(dp, name);
      if i == -1 {
        return -1, false;
      }
      NotDots(ino, dp, i);
      NamedIsLive(ino, dp, i);
      var ip := ino[dp].ents[i].inum;
      if ino[ip].nlink < 1 {
        assert false;
      }
      if ino[ip].kind == Dir {
        var empty := Isdirempty(ip);
        if !empty {
          return -1, false;
        }
        DropDirKeeps(ino, dp, i, ip);
        EmptyIsLeaf(ino, dp, i, ip);
      } else {
        FileUnlinkable(ino, dp, i, ip);
      }
      ino := ino[dp := ino[dp].(ents := Put(ino[dp].ents, i, NoEntry()))];
      if ino[ip].kind == Dir {
        ino := ino[dp := ino[dp].(nlink := ino[dp].nlink - 1)];
      }
      ino := ino[ip := ino[ip].(nlink := ino[ip].nlink - 1)];
      assert ino0[ip].kind == Dir ==> ino == DropDir(ino0, dp, i, ip);
      assert ino0[ip].kind != Dir ==>
          ino == FileChange(ino0, dp, i, NoEntry(), ip, ino0[ip].(nlink := ino0[ip].nlink - 1));
      return 0, false;
    }

    /** iput: the inode is given back exactly when this was its last reference and it has no link. */
    method Iput(x: nat, refs: nat) returns (left: nat)
      requires Valid() && 0 < x < |ino| && ino[x].kind != Free && refs >= 1
      modifies this
      ensures Valid() && left == refs - 1
      ensures ino == if old(ino[x]).nlink == 0 && left == 0 then old(ino)[x := Inode(Free, 0, [])] else old(ino)
    {
      hide Shapes, Tree, Law, RemovedEmpty;
      if ino[x].nlink == 0 {
        if refs == 1 {
          ReclaimKeeps(ino, x);
          ino := ino[x := Inode(Free, 0, [])];
        }
      }
      left := refs - 1;
    }
  }
}
