/**
 bio.c: a fixed set of buffers on a doubly linked list in order of use. Buffers 0 to n - 1 are the
 cache and n is the list head, so `next` and `prev` have n + 1 elements.

 The cache and the disk together are one logical disk: the value last given to a block is the one
 the next reader sees, whatever has been recycled in between.
 */
module BufferCache {
  import opened IdeQueue

  // ---- The list ----

  /** The i-th node in next order: the head, the buffers, and the head again. */
  function At(order: seq<nat>, n: nat, i: nat): nat
    requires i <= |order| + 1
  {
    if 1 <= i <= |order| then order[i - 1] else n
  }

  ghost predicate Perm(order: seq<nat>, n: nat) {
    && (forall i: nat | i < |order| :: order[i] < n)
    && (forall i: nat, j: nat | i < j < |order| :: order[i] != order[j])
  }

  ghost predicate Linked(next: seq<nat>, prev: seq<nat>, order: seq<nat>, n: nat, i: nat)
    requires i <= |order| && |next| == |prev| == n + 1 && Perm(order, n)
  {
    next[At(order, n, i)] == At(order, n, i + 1) && prev[At(order, n, i + 1)] == At(order, n, i)
  }

  /** A circular list through the head and exactly the buffers of `order`. */
  ghost predicate Ring(next: seq<nat>, prev: seq<nat>, order: seq<nat>, n: nat) {
    |next| == |prev| == n + 1 && Perm(order, n) && forall i: nat | i <= |order| :: Linked(next, prev, order, n, i)
  }

  lemma PushFront(next: seq<nat>, prev: seq<nat>, order: seq<nat>, n: nat, b: nat, next': seq<nat>, prev': seq<nat>)
    requires Ring(next, prev, order, n) && b < n && b !in order
    requires next[n] <= n && next' == next[b := next[n]][n := b]
    requires prev' == prev[b := n][next[n] := b]
    ensures Ring(next', prev', [b] + order, n)
  {
    var order' := [b] + order;
    assert Linked(next, prev, order, n, 0);
    forall i: nat | i <= |order'|
      ensures Linked(next', prev', order', n, i)
    {
      if i >= 2 {
        assert At(order', n, i) == At(order, n, i - 1) && At(order', n, i + 1) == At(order, n, i);
        assert Linked(next, prev, order, n, i - 1);
        if i <= |order| { assert order[0] != order[i - 1]; }
      }
    }
  }

  function Without(order: seq<nat>, p: nat): seq<nat>
    requires p < |order|
  {
    order[..p] + order[p + 1..]
  }

  lemma WithoutAt(order: seq<nat>, n: nat, p: nat, i: nat)
    requires Perm(order, n) && p < |order| && i <= |order|
    ensures At(Without(order, p), n, i) == At(order, n, if i <= p then i else i + 1)
  {
  }

  lemma WithoutPerm(order: seq<nat>, n: nat, p: nat)
    requires Perm(order, n) && p < |order|
    ensures Perm(Without(order, p), n) && order[p] !in Without(order, p)
  {
  }

  lemma UnlinkedAt(next: seq<nat>, prev: seq<nat>, order: seq<nat>, n: nat, p: nat, next': seq<nat>, prev': seq<nat>,
                   i: nat)
    requires Ring(next, prev, order, n) && p < |order| && i < |order| && Perm(Without(order, p), n)
    requires prev' == prev[At(order, n, p + 2) := At(order, n, p)]
             && next' == next[At(order, n, p) := At(order, n, p + 2)]
    ensures Linked(next', prev', Without(order, p), n, i)
  {
    hide At, Without;
    WithoutAt(order, n, p, i);
    WithoutAt(order, n, p, i + 1);
    WithoutSize(order, p);
    if i < p {
      assert Linked(next, prev, order, n, i);
      AtApart(order, n, i, p);
      AtApart(order, n, i + 1, p + 2);
    }
    if i > p {
      assert Linked(next, prev, order, n, i + 1);
      AtApart(order, n, i + 1, p);
      AtApart(order, n, i + 2, p + 2);
    }
    AtBound(Without(order, p), n, i);
    AtBound(Without(order, p), n, i + 1);
  }

  lemma AtBound(order: seq<nat>, n: nat, i: nat)
    requires Perm(order, n) && i <= |order| + 1
    ensures At(order, n, i) <= n
  {
  }

  lemma WithoutSize(order: seq<nat>, p: nat)
    requires p < |order|
    ensures |Without(order, p)| == |order| - 1
  {
  }

  lemma Unlinked(next: seq<nat>, prev: seq<nat>, order: seq<nat>, n: nat, p: nat, next': seq<nat>, prev': seq<nat>)
    requires Ring(next, prev, order, n) && p < |order|
    requires var b := order[p];
             next[b] <= n && prev[b] <= n && prev' == prev[next[b] := prev[b]] && next' == next[prev[b] := next[b]]
    ensures Ring(next', prev', Without(order, p), n) && order[p] !in Without(order, p)
  {
    assert Linked(next, prev, order, n, p) && Linked(next, prev, order, n, p + 1);
    WithoutPerm(order, n, p);
    forall i: nat | i <= |Without(order, p)|
      ensures Linked(next', prev', Without(order, p), n, i)
    {
      UnlinkedAt(next, prev, order, n, p, next', prev', i);
    }
  }

  /** Different places are different nodes, but for the head at both ends. */
  lemma AtApart(order: seq<nat>, n: nat, i: nat, j: nat)
    requires Perm(order, n) && i <= |order| + 1 && j <= |order| + 1 && i != j
    requires !(i == 0 && j == |order| + 1) && !(j == 0 && i == |order| + 1)
    ensures At(order, n, i) != At(order, n, j)
  {
  }

  // ---- The contents ----

  /** The key of a buffer never used. */
  const NO_KEY := Key(0, 0)

  datatype Cached = Cached(valid: bool, dirty: bool, key: Key, data: Block, refcnt: int, locked: bool)

  /** A buffer nobody has locked and that is not dirty agrees with the disk. */
  ghost predicate BufOk(b: Cached, disk: Disk, logical: Disk) {
    && b.refcnt >= 0 && (b.locked ==> b.refcnt >= 1)
    && (b.key != NO_KEY ==> b.key in disk && b.key in logical) && (b.valid ==> b.key != NO_KEY) && (b.dirty ==> b.valid)
    && (b.valid ==> b.key in logical && b.data == logical[b.key])
    && (b.valid && !b.locked && !b.dirty ==> b.key in disk && b.data == disk[b.key])
  }

  ghost predicate KeyOnce(bufs: seq<Cached>, b: nat, c: nat)
    requires b < |bufs| && c < |bufs|
  {
    b != c && bufs[b].key == bufs[c].key ==> bufs[b].key == NO_KEY
  }

  ghost predicate Holds(bufs: seq<Cached>, b: nat, k: Key)
    requires b < |bufs|
  {
    bufs[b].valid && bufs[b].key == k
  }

  /** A block without a valid buffer has its logical value on disk. */
  ghost predicate OnDisk(bufs: seq<Cached>, disk: Disk, logical: Disk, k: Key) {
    k in disk ==> k in logical && ((forall b: nat | b < |bufs| :: !Holds(bufs, b, k)) ==> logical[k] == disk[k])
  }

  ghost predicate CacheOk(bufs: seq<Cached>, disk: Disk, logical: Disk) {
    && NO_KEY !in disk
    && (forall b: nat | b < |bufs| :: BufOk(bufs[b], disk, logical))
    && (forall b: nat, c: nat | b < |bufs| && c < |bufs| :: KeyOnce(bufs, b, c))
    && (forall k :: OnDisk(bufs, disk, logical, k))
  }

  /** One buffer changes, keeping its key, and the disk and the logical disk at most at that key. */
  lemma SameKeyKeeps(bufs: seq<Cached>, disk: Disk, logical: Disk, b: nat, nb: Cached, disk': Disk, logical': Disk)
    requires CacheOk(bufs, disk, logical) && b < |bufs| && nb.key == bufs[b].key && BufOk(nb, disk', logical')
    requires nb.valid == bufs[b].valid || (disk' == disk && logical' == logical)
    requires bufs[b].valid && !nb.valid ==> bufs[b].data == disk[bufs[b].key]
    requires disk' == disk || (nb.valid && disk' == disk[nb.key := nb.data] && nb.key in disk)
    requires logical' == logical || (nb.valid && logical' == logical[nb.key := nb.data])
    ensures CacheOk(bufs[b := nb], disk', logical')
  {
    var bufs' := bufs[b := nb];
    forall c: nat | c < |bufs'|
      ensures BufOk(bufs'[c], disk', logical')
    {
      assert BufOk(bufs[c], disk, logical) && KeyOnce(bufs, b, c);
    }
    forall c: nat, e: nat | c < |bufs'| && e < |bufs'|
      ensures KeyOnce(bufs', c, e)
    {
      assert KeyOnce(bufs, c, e);
    }
    forall k
      ensures OnDisk(bufs', disk', logical', k)
    {
      assert OnDisk(bufs, disk, logical, k) && BufOk(bufs[b], disk, logical);
      if forall c: nat | c < |bufs'| :: !Holds(bufs', c, k) {
        assert !Holds(bufs', b, k);
        forall c: nat | c < |bufs|
          ensures Holds(bufs, c, k) ==> c == b
        {
          assert !Holds(bufs', c, k);
        }
      }
    }
  }

  /** A clean buffer without users is given to a block that has none. */
  lemma RecycleKeeps(bufs: seq<Cached>, disk: Disk, logical: Disk, b: nat, key: Key, data: Block)
    requires CacheOk(bufs, disk, logical) && b < |bufs| && key in disk
    requires bufs[b].refcnt == 0 && !bufs[b].dirty && forall c: nat | c < |bufs| :: bufs[c].key != key
    ensures CacheOk(bufs[b := Cached(false, false, key, data, 1, false)], disk, logical)
  {
    var bufs' := bufs[b := Cached(false, false, key, data, 1, false)];
    assert OnDisk(bufs, disk, logical, key);
    forall c: nat | c < |bufs'|
      ensures BufOk(bufs'[c], disk, logical)
    {
      assert BufOk(bufs[c], disk, logical);
    }
    forall c: nat, e: nat | c < |bufs'| && e < |bufs'|
      ensures KeyOnce(bufs', c, e)
    {
      assert KeyOnce(bufs, c, e);
    }
    forall k
      ensures OnDisk(bufs', disk, logical, k)
    {
      assert OnDisk(bufs, disk, logical, k) && BufOk(bufs[b], disk, logical);
      if forall c: nat | c < |bufs'| :: !Holds(bufs', c, k) {
        forall c: nat | c < |bufs|
          ensures Holds(bufs, c, k) ==> c == b
        {
          assert !Holds(bufs', c, k);
        }
      }
    }
  }

  predicate Usable(b: Cached) {
    b.refcnt == 0 && !b.dirty
  }

  ghost predicate Everyone(order: seq<nat>, n: nat) {
    |order| == n && forall c: nat | c < n :: c in order
  }

  /** Moving a buffer to the front keeps everyone on the list. */
  lemma FrontEveryone(order: seq<nat>, n: nat, p: nat)
    requires Perm(order, n) && Everyone(order, n) && p < |order|
    ensures Everyone([order[p]] + Without(order, p), n)
  {
    var order' := [order[p]] + Without(order, p);
    forall c: nat | c < n
      ensures c in order'
    {
      assert c in order;
      var i :| 0 <= i < |order| && order[i] == c;
      if i < p { assert order'[i + 1] == c; }
      if i > p { assert order'[i] == c; }
    }
  }

  lemma Step(next: seq<nat>, prev: seq<nat>, order: seq<nat>, n: nat, i: nat)
    requires Ring(next, prev, order, n) && i <= |order|
    ensures |next| == |prev| == n + 1 && At(order, n, i) <= n && At(order, n, i + 1) <= n
    ensures next[At(order, n, i)] == At(order, n, i + 1) && prev[At(order, n, i + 1)] == At(order, n, i)
  {
    assert Linked(next, prev, order, n, i);
  }

  lemma PositionOf(order: seq<nat>, n: nat, b: nat) returns (p: nat)
    requires Everyone(order, n) && b < n
    ensures p < |order| && order[p] == b
  {
    assert b in order;
    var i :| 0 <= i < |order| && order[i] == b;
    p := i;
  }

  lemma NextPrevBound(next: seq<nat>, prev: seq<nat>, order: seq<nat>, n: nat, p: nat)
    requires Ring(next, prev, order, n) && p < |order|
    ensures |next| == |prev| == n + 1 && order[p] < n && next[order[p]] <= n && prev[order[p]] <= n
  {
    Step(next, prev, order, n, p);
    Step(next, prev, order, n, p + 1);
  }

  /** The head is met only at the ends. */
  lemma EndOfList(next: seq<nat>, prev: seq<nat>, order: seq<nat>, n: nat, i: nat)
    requires Ring(next, prev, order, n) && i <= |order| + 1
    ensures At(order, n, i) == n <==> i == 0 || i == |order| + 1
  {
  }

  lemma BufAt(bufs: seq<Cached>, disk: Disk, logical: Disk, b: nat)
    requires CacheOk(bufs, disk, logical) && b < |bufs|
    ensures BufOk(bufs[b], disk, logical)
  {
  }

  /** A buffer that has just been given to a block is the only one for it, so the disk has the block's value. */
  lemma NotCached(bufs: seq<Cached>, disk: Disk, logical: Disk, b: nat)
    requires CacheOk(bufs, disk, logical) && b < |bufs| && !bufs[b].valid && bufs[b].key != NO_KEY
    ensures bufs[b].key in disk && bufs[b].key in logical && logical[bufs[b].key] == disk[bufs[b].key]
  {
    assert BufOk(bufs[b], disk, logical) && OnDisk(bufs, disk, logical, bufs[b].key);
    forall c: nat | c < |bufs|
      ensures !Holds(bufs, c, bufs[b].key)
    {
      assert KeyOnce(bufs, b, c);
    }
  }

  lemma MovedAt(next: seq<nat>, prev: seq<nat>, order: seq<nat>, n: nat, p: nat, next': seq<nat>, prev': seq<nat>)
    requires Ring(next, prev, order, n) && Everyone(order, n) && p < |order| && order[p] < n
    requires next[order[p]] <= n && prev[order[p]] <= n
    requires prev' == prev[next[order[p]] := prev[order[p]]] && next' == next[prev[order[p]] := next[order[p]]]
    ensures Ring(next', prev', Without(order, p), n) && order[p] !in Without(order, p)
            && Everyone([order[p]] + Without(order, p), n)
    ensures |next'| == |prev'| == n + 1 && next'[n] <= n
  {
    Unlinked(next, prev, order, n, p, next', prev');
    FrontEveryone(order, n, p);
    Step(next', prev', Without(order, p), n, 0);
  }

  /** What a holder has changed is logged, so that the buffer stays, or on disk. */
  ghost predicate Kept(b: Cached, disk: Disk) {
    b.valid && !b.dirty ==> b.key in disk && b.data == disk[b.key]
  }

  lemma ReleaseIff(bufs: seq<Cached>, disk: Disk, logical: Disk, b: nat)
    requires CacheOk(bufs, disk, logical) && b < |bufs| && bufs[b].locked
    ensures CacheOk(bufs[b := bufs[b].(locked := false, refcnt := bufs[b].refcnt - 1)], disk, logical) <==>
            Kept(bufs[b], disk)
  {
    hide CacheOk;
    var nb := bufs[b].(locked := false, refcnt := bufs[b].refcnt - 1);
    BufAt(bufs, disk, logical, b);
    if Kept(bufs[b], disk) {
      SameKeyKeeps(bufs, disk, logical, b, nb, disk, logical);
    } else if CacheOk(bufs[b := nb], disk, logical) {
      BufAt(bufs[b := nb], disk, logical, b);
    }
  }

  class Bcache {
    const n: nat
    var bufs: seq<Cached>
    var next: seq<nat>
    var prev: seq<nat>
    var disk: Disk
    ghost var order: seq<nat>
    ghost var logical: Disk

    ghost predicate Valid()
      reads this
    {
      |bufs| == n && Ring(next, prev, order, n) && Everyone(order, n) && CacheOk(bufs, disk, logical)
    }

    /** binit over zeroed memory. */
    constructor (n: nat, disk: Disk)
      requires NO_KEY !in disk
      ensures Valid() && this.n == n && this.disk == disk == logical && forall b | 0 <= b < n ::
              bufs[b] == Cached(false, false, NO_KEY, [], 0, false)
    {
      this.n, this.disk, logical := n, disk, disk;
      bufs := seq(n, i => Cached(false, false, NO_KEY, [], 0, false));
      next, prev, order := seq(n + 1, i => n), seq(n + 1, i => n), [];
      new;
      assert Linked(next, prev, order, n, 0);
      var b := 0;
      while b < n
        invariant 0 <= b <= n && bufs == seq(n, i => Cached(false, false, NO_KEY, [], 0, false))
                  && this.disk == disk == logical
        invariant Ring(next, prev, order, n) && |order| == b && (forall c: nat | c < b :: c in order)
                  && (forall c | c in order :: c < b)
      {
        ghost var next0, prev0 := next, prev;
        Step(next, prev, order, n, 0);
        next := next[b := next[n]];
        prev := prev[b := n];
        prev := prev[next[n] := b];
        next := next[n := b];
        PushFront(next0, prev0, order, n, b, next, prev);
        order := [b] + order;
        b := b + 1;
      }
    }

    /** The first loop of bget: from the most recently used. */
    method Lookup(key: Key) returns (b: nat)
      requires Valid()
      ensures b <= n && (b < n ==> bufs[b].key == key) && (b == n ==> forall c: nat | c < n :: bufs[c].key != key)
    {
      hide Ring, Everyone, CacheOk;
      Step(next, prev, order, n, 0);
      b := next[n];
      ghost var i := 1;
      while b != n
        invariant 1 <= i <= |order| + 1 && b == At(order, n, i) <= n && forall j: nat | j < i - 1 ::
                  order[j] < n && bufs[order[j]].key != key
        decreases |order| + 1 - i
      {
        if bufs[b].key == key {
          return;
        }
        EndOfList(next, prev, order, n, i);
        Step(next, prev, order, n, i);
        b := next[b];
        i := i + 1;
      }
      EndOfList(next, prev, order, n, i);
      forall c: nat | c < n ensures bufs[c].key != key {
        var p := PositionOf(order, n, c);
      }
    }

    /** The second loop of bget: from the least recently used. */
    method Victim() returns (b: nat, ghost p: nat)
      requires Valid()
      ensures b <= n && (b < n ==> Usable(bufs[b]) && p < |order| && order[p] == b)
      ensures forall j: nat | (if b < n then p < j else 0 <= j) && j < |order| ::
              order[j] < n && !Usable(bufs[order[j]])
    {
      hide Ring, Everyone, CacheOk;
      ghost var i := |order|;
      p := 0;
      Step(next, prev, order, n, |order|);
      b := prev[n];
      while b != n
        invariant 0 <= i <= |order| && b == At(order, n, i) <= n && forall j: nat | i <= j < |order| ::
                  order[j] < n && !Usable(bufs[order[j]])
        decreases i
      {
        EndOfList(next, prev, order, n, i);
        if bufs[b].refcnt == 0 && !bufs[b].dirty {
          p := i - 1;
          return;
        }
        Step(next, prev, order, n, i - 1);
        b := prev[b];
        i := i - 1;
      }
      EndOfList(next, prev, order, n, i);
    }

    /** bget up to the sleep lock: the buffer of that block, or the least recently used one that is free and clean. */
    method Bget(key: Key) returns (b: nat, panicked: bool)
      requires Valid() && key in disk
      modifies this`bufs
      ensures Valid()
      ensures panicked <==>
              old(forall c: nat | c < n :: bufs[c].key != key && (bufs[c].refcnt != 0 || bufs[c].dirty))
      ensures panicked ==> bufs == old(bufs)
      ensures !panicked ==> b < n && bufs[b].key == key && bufs[b].refcnt >= 1
      ensures !panicked && old(bufs[b]).key == key ==>
              bufs == old(bufs)[b := old(bufs[b]).(refcnt := old(bufs[b]).refcnt + 1)]
      ensures !panicked && old(bufs[b]).key != key ==>
                && old(bufs[b]).refcnt == 0 && !old(bufs[b]).dirty
                && bufs == old(bufs)[b := Cached(false, false, key, old(bufs[b]).data, 1, false)]
                && exists p: nat ::
                   p < |order| && order[p] == b && forall j: nat | p < j < |order| ::
                   order[j] < n && !Usable(old(bufs)[order[j]])
    {
      hide Ring, Everyone, CacheOk;
      ghost var p: nat;
      b := Lookup(key);
      if b != n {
        BufAt(bufs, disk, logical, b);
        SameKeyKeeps(bufs, disk, logical, b, bufs[b].(refcnt := bufs[b].refcnt + 1), disk, logical);
        bufs := bufs[b := bufs[b].(refcnt := bufs[b].refcnt + 1)];
        return b, false;
      }
      b, p := Victim();
      if b != n {
        RecycleKeeps(bufs, disk, logical, b, key, bufs[b].data);
        bufs := bufs[b := Cached(false, false, key, bufs[b].data, 1, false)];
        return b, false;
      }
      forall c: nat | c < n ensures !Usable(bufs[c]) {
        var q := PositionOf(order, n, c);
      }
      return b, true;
    }

    /** The sleep lock becomes free for one of those that wait for it. */
    method Acquire(b: nat)
      requires Valid() && b < n && bufs[b].refcnt >= 1 && !bufs[b].locked
      modifies this`bufs
      ensures Valid() && bufs == old(bufs)[b := old(bufs[b]).(locked := true)]
    {
      hide Ring, Everyone, CacheOk;
      BufAt(bufs, disk, logical, b);
      SameKeyKeeps(bufs, disk, logical, b, bufs[b].(locked := true), disk, logical);
      bufs := bufs[b := bufs[b].(locked := true)];
    }

    /** iderw, as the synchronous disk does it. */
    method Iderw(b: nat)
      requires b < |bufs| && bufs[b].key in disk
      modifies this`bufs, this`disk
      ensures var (d, data) := MemStep(old(disk),
              if old(bufs[b]).dirty then Write(old(bufs[b]).key, old(bufs[b]).data) else Read(old(bufs[b]).key));
              disk == d && bufs == old(bufs)[b := old(bufs[b]).(valid := true, dirty := false, data := data)]
    {
      if bufs[b].dirty {
        disk := disk[bufs[b].key := bufs[b].data];
        bufs := bufs[b := bufs[b].(valid := true, dirty := false)];
      } else {
        bufs := bufs[b := bufs[b].(valid := true, data := disk[bufs[b].key])];
      }
    }

    /** The rest of bread: the holder sees the logical value of the block. */
    method Bread(b: nat)
      requires Valid() && b < n && bufs[b].locked && bufs[b].key != NO_KEY
      modifies this`bufs, this`disk
      ensures Valid() && disk == old(disk) && bufs[b].valid && bufs[b].key == old(bufs[b]).key
      ensures bufs[b].key in logical && bufs[b].data == logical[bufs[b].key]
      ensures bufs == old(bufs)[b := old(bufs[b]).(valid := true, data := bufs[b].data)]
    {
      hide Ring, Everyone, CacheOk;
      BufAt(bufs, disk, logical, b);
      if !bufs[b].valid {
        NotCached(bufs, disk, logical, b);
        SameKeyKeeps(bufs, disk, logical, b, bufs[b].(valid := true, data := disk[bufs[b].key]), disk, logical);
        Iderw(b);
      }
    }

    /** The holder changes the block. */
    method Change(b: nat, data: Block)
      requires Valid() && b < n && bufs[b].locked && bufs[b].valid
      modifies this`bufs, this`logical
      ensures Valid() && logical == old(logical)[old(bufs[b]).key := data]
              && bufs == old(bufs)[b := old(bufs[b]).(data := data)]
    {
      hide Ring, Everyone, CacheOk;
      BufAt(bufs, disk, logical, b);
      SameKeyKeeps(bufs, disk, logical, b, bufs[b].(data := data), disk, logical[bufs[b].key := data]);
      logical := logical[bufs[b].key := data];
      bufs := bufs[b := bufs[b].(data := data)];
    }

    /** log_write keeps the block from being recycled. */
    method MarkDirty(b: nat)
      requires Valid() && b < n && bufs[b].locked && bufs[b].valid
      modifies this`bufs
      ensures Valid() && bufs == old(bufs)[b := old(bufs[b]).(dirty := true)]
    {
      hide Ring, Everyone, CacheOk;
      BufAt(bufs, disk, logical, b);
      SameKeyKeeps(bufs, disk, logical, b, bufs[b].(dirty := true), disk, logical);
      bufs := bufs[b := bufs[b].(dirty := true)];
    }

    method Bwrite(b: nat)
      requires Valid() && b < n && bufs[b].locked && bufs[b].valid
      modifies this`bufs, this`disk
      ensures Valid() && disk == old(disk)[old(bufs[b]).key := old(bufs[b]).data]
              && bufs == old(bufs)[b := old(bufs[b]).(dirty := false)]
    {
      hide Ring, Everyone, CacheOk;
      BufAt(bufs, disk, logical, b);
      SameKeyKeeps(bufs, disk, logical, b, bufs[b].(dirty := false), disk[bufs[b].key := bufs[b].data], logical);
      bufs := bufs[b := bufs[b].(dirty := true)];
      Iderw(b);
      assert bufs == old(bufs)[b := old(bufs[b]).(dirty := false)];
    }

    /** brelse: the logical disk survives exactly when the holder has logged or written what it changed. */
    method Brelse(b: nat)
      requires Valid() && b < n && bufs[b].locked
      modifies this`bufs, this`next, this`prev, this`order
      ensures Valid() <==> Kept(old(bufs[b]), disk)
      ensures Ring(next, prev, order, n) && Everyone(order, n)
      ensures bufs == old(bufs)[b := old(bufs[b]).(locked := false, refcnt := old(bufs[b]).refcnt - 1)]
      ensures if old(bufs[b]).refcnt > 1 then order == old(order)
              else exists p: nat :: p < |old(order)| && old(order)[p] == b && order == [b] + Without(old(order), p)
    {
      hide Ring, Everyone, CacheOk;
      BufAt(bufs, disk, logical, b);
      ReleaseIff(bufs, disk, logical, b);
      bufs := bufs[b := bufs[b].(locked := false)];
      bufs := bufs[b := bufs[b].(refcnt := bufs[b].refcnt - 1)];
      assert bufs == old(bufs)[b := old(bufs[b]).(locked := false, refcnt := old(bufs[b]).refcnt - 1)];
      if bufs[b].refcnt == 0 {
        ghost var p := PositionOf(order, n, b);
        ghost var next0, prev0 := next, prev;
        NextPrevBound(next, prev, order, n, p);
        prev := prev[next[b] := prev[b]];
        next := next[prev[b] := next[b]];
        MovedAt(next0, prev0, order, n, p, next, prev);
        ghost var next1, prev1 := next, prev;
        next := next[b := next[n]];
        prev := prev[b := n];
        prev := prev[next[n] := b];
        next := next[n := b];
        PushFront(next1, prev1, Without(order, p), n, b, next, prev);
        order := [b] + Without(order, p);
      }
    }
  }
}
