/**
 The storage stack of log.c over bio.c as a state machine: any number of file-system
 operations run concurrently, blocks are cached and evicted, the last operation to end
 commits one block write at a time, and the machine may crash between any two steps,
 also while it recovers. Every run refines a two-level specification: the blocks the
 operations see, and the blocks a crash would leave.
 */
module Storage {
  import opened Basics
  import opened Log

  /** Where the committing process, or the boot code, stands. */
  datatype Phase =
    | Ready
    | Copying(i: nat)     // write_log, next block i
    | Installing(i: nat)  // install_trans after the commit point
    | Finishing           // committing still set, nothing left to write
    | Booting             // before read_head
    | Replaying(i: nat)   // install_trans during recovery

  /** A buffer changed by a process that holds its lock. */
  datatype Change = Change(b: int, v: Block)

  /**
   An operation in progress: how many new blocks it may still log, and the change for which log_write
   has tested lh.n but not yet taken log.lock. The test is made without the lock.
   */
  datatype Op = Op(left: nat, passed: Option<Change>)

  /** `ops[p]` is the operation process p is inside, if any. */
  datatype State = State(
    disk: Image, cache: Blocks, dirty: set<int>, lh: seq<int>,
    ops: seq<Option<Op>>, phase: Phase, panicked: bool)

  datatype Action =
    | Begin(p: nat)                      // begin_op lets p in
    | Check(p: nat, b: int, v: Block)    // p has changed a buffer and log_write tests for room
    | Append(p: nat, b: int, v: Block)   // log_write under log.lock
    | End(p: nat)                        // end_op
    | CopyBlock | WriteHeader | InstallBlock | EraseHeader | CommitDone
    | Load(b: int) | Evict(b: int)       // bread misses, bget recycles
    | Crash | ReadHeader | ReplayBlock | EraseReplayed

  function Outstanding(ops: seq<Option<Op>>): nat {
    if ops == [] then 0 else Outstanding(ops[..|ops| - 1]) + if ops[|ops| - 1].Some? then 1 else 0
  }

  /** The new blocks all outstanding operations together may still log. */
  function Unused(ops: seq<Option<Op>>): nat {
    if ops == [] then 0
    else Unused(ops[..|ops| - 1]) + match ops[|ops| - 1] case Some(op) => op.left case None => 0
  }

  function Get(d: Image, b: int): Block {
    if 0 <= b < |d| then d[b] else Block([])
  }

  function View(s: State, b: int): Block {
    if b in s.cache then s.cache[b] else Get(s.disk, b)
  }

  /** bwrite: one atomic block write. */
  function PutBlock(s: State, b: int, v: Block): State {
    if 0 <= b < |s.disk| then s.(disk := s.disk[b := v], cache := s.cache[b := v], dirty := s.dirty - {b}) else s
  }

  function PutHeader(g: Geometry, s: State, lh: seq<int>): State {
    var h := Get(s.disk, g.start);
    if |h.words| == BLOCKWORDS && |lh| <= LOGSIZE then PutBlock(s, g.start, PutHead(h, lh)) else s
  }

  function HeaderOf(g: Geometry, d: Image): seq<int> {
    var h := Get(d, g.start);
    if |h.words| == BLOCKWORDS && 0 <= h.words[0] <= LOGSIZE then Head(h) else []
  }

  predicate InOp(s: State, p: nat) {
    p < |s.ops| && s.ops[p].Some?
  }

  /** Nobody is between the test and the append for block b: its buffer is locked by one process. */
  predicate Unheld(s: State, b: int) {
    forall q | 0 <= q < |s.ops| && s.ops[q].Some? && s.ops[q].value.passed.Some? :: s.ops[q].value.passed.value.b != b
  }

  /**
   What the code checks before each step. Check adds the hypotheses that log_write does not
   check: the block is a home block, and an operation logs at most MAXOPBLOCKS new blocks.
   */
  predicate Enabled(g: Geometry, s: State, a: Action) {
    (s.panicked ==> a.Crash?) &&
    match a
    case Begin(p) => p < |s.ops| && s.ops[p].None? && s.phase.Ready? && Admits(|s.lh|, Outstanding(s.ops))
    case Check(p, b, v) =>
      && InOp(s, p) && s.ops[p].value.passed.None? && Unheld(s, b)
      && 0 <= b < |s.disk| && !InLog(g, b) && (b in s.lh || s.ops[p].value.left > 0)
    case Append(p, b, v) => InOp(s, p) && s.ops[p].value.passed == Some(Change(b, v))
    case End(p) => InOp(s, p) && s.ops[p].value.passed.None?
    case CopyBlock => s.phase.Copying? && s.phase.i < |s.lh|
    case WriteHeader => s.phase.Copying? && s.phase.i == |s.lh|
    case InstallBlock => s.phase.Installing? && s.phase.i < |s.lh|
    case EraseHeader => s.phase.Installing? && s.phase.i == |s.lh|
    case CommitDone => s.phase.Finishing?
    case Load(b) => 0 <= b < |s.disk| && b !in s.cache
    case Evict(b) => b in s.cache && b !in s.dirty
    case Crash => true
    case ReadHeader => s.phase.Booting?
    case ReplayBlock => s.phase.Replaying? && s.phase.i < |s.lh|
    case EraseReplayed => s.phase.Replaying? && s.phase.i == |s.lh|
  }

  predicate Committing(s: State) {
    s.phase.Copying? || s.phase.Installing? || s.phase.Finishing?
  }

  predicate CheckPanics(g: Geometry, s: State) {
    LogFull(g, |s.lh|) || Outstanding(s.ops) < 1
  }

  function AfterCheck(g: Geometry, s: State, p: nat, b: int, v: Block): State
    requires InOp(s, p)
  {
    if CheckPanics(g, s) then s.(panicked := true)
    else s.(ops := s.ops[p := Some(s.ops[p].value.(passed := Some(Change(b, v))))])
  }

  function AfterAppend(s: State, p: nat, b: int, v: Block): State
    requires InOp(s, p)
  {
    var left := s.ops[p].value.left;
    s.(cache := s.cache[b := v], dirty := s.dirty + {b}, lh := Absorb(s.lh, b),
       ops := s.ops[p := Some(Op(if b in s.lh || left == 0 then left else left - 1, None))])
  }

  function AfterEnd(s: State, p: nat): State
    requires InOp(s, p)
  {
    var s' := s.(ops := s.ops[p := None]);
    if Committing(s) then s'.(panicked := true)
    else if Outstanding(s'.ops) > 0 then s'
    else if |s.lh| > 0 then s'.(phase := Copying(0))
    else s'.(phase := Finishing)
  }

  function Do(g: Geometry, s: State, a: Action): State
    requires Enabled(g, s, a)
  {
    match a
    case Begin(p) => s.(ops := s.ops[p := Some(Op(MAXOPBLOCKS, None))])
    case Check(p, b, v) => AfterCheck(g, s, p, b, v)
    case Append(p, b, v) => AfterAppend(s, p, b, v)
    case End(p) => AfterEnd(s, p)
    case CopyBlock =>
      PutBlock(s, g.start + s.phase.i + 1, View(s, s.lh[s.phase.i])).(phase := Copying(s.phase.i + 1))
    case WriteHeader => PutHeader(g, s, s.lh).(phase := Installing(0))
    case InstallBlock =>
      PutBlock(s, s.lh[s.phase.i], View(s, g.start + s.phase.i + 1)).(phase := Installing(s.phase.i + 1))
    case EraseHeader => PutHeader(g, s, []).(lh := [], phase := Finishing)
    case CommitDone => s.(phase := Ready)
    case Load(b) => s.(cache := s.cache[b := s.disk[b]])
    case Evict(b) => s.(cache := s.cache - {b})
    case Crash => Reboot(s.disk, |s.ops|)
    case ReadHeader => s.(lh := HeaderOf(g, s.disk), phase := Replaying(0))
    case ReplayBlock =>
      PutBlock(s, s.lh[s.phase.i], View(s, g.start + s.phase.i + 1)).(phase := Replaying(s.phase.i + 1))
    case EraseReplayed => PutHeader(g, s, []).(lh := [], phase := Ready)
  }

  function Reboot(d: Image, n: nat): State {
    State(d, map[], {}, [], seq(n, _ => None), Booting, false)
  }

  /** `states` is a run of the machine from power-on over image `d`, one action between neighbours. */
  ghost predicate IsRun(g: Geometry, d: Image, n: nat, states: seq<State>, actions: seq<Action>) {
    && |states| == |actions| + 1
    && states[0] == Reboot(d, n)
    && forall i | 0 <= i < |actions| ::
         Enabled(g, states[i], actions[i]) && states[i + 1] == Do(g, states[i], actions[i])
  }

  // ---- The specification ----

  /** What operations see, and what a crash now would leave after recovery. */
  datatype Spec = Spec(current: Blocks, durable: Blocks)

  ghost predicate SpecStep(c: Spec, a: Action, c': Spec) {
    match a
    case Append(p, b, v) => c' == c.(current := c.current[b := v])
    case WriteHeader => c' == c.(durable := c.current)
    case Crash => c' == c.(current := c.durable)
    case _ => c' == c
  }

  ghost predicate BeforeReady(s: State) {
    s.phase.Booting? || s.phase.Replaying?
  }

  ghost function Abs(g: Geometry, s: State): Spec
    requires HeaderOk(g, s.disk)
  {
    var durable := Recovered(g, s.disk);
    Spec(if BeforeReady(s) then durable else Seen(Home(g, s.disk), s.cache), durable)
  }

  // ---- The invariant ----

  ghost predicate BudgetInv(s: State) {
    && |s.lh| + Unused(s.ops) <= LOGSIZE
    && (forall p | 0 <= p < |s.ops| && s.ops[p].Some? :: s.ops[p].value.left <= MAXOPBLOCKS)
    && (!s.phase.Ready? ==> Outstanding(s.ops) == 0)
  }

  ghost predicate Collecting(g: Geometry, s: State) {
    && HeaderEmpty(g, s.disk)
    && Loggable(g, Home(g, s.disk), s.lh)
    && s.dirty == Elements(s.lh)
  }

  ghost predicate PhaseInv(g: Geometry, s: State)
    requires HeaderOk(g, s.disk)
  {
    match s.phase
    case Ready => Collecting(g, s)
    case Copying(i) => Collecting(g, s) && i <= |s.lh| && SlotsHold(Slots(g, s.disk), s.lh, s.cache, i)
    case Installing(i) =>
      && Logged(g, s.disk) == s.lh && i <= |s.lh|
      && s.dirty <= Elements(s.lh[i..])
      && Installed(Home(g, s.disk), s.lh, Slots(g, s.disk), i)
      && Seen(Home(g, s.disk), s.cache) == Recovered(g, s.disk)
    case Finishing => Collecting(g, s) && s.lh == []
    case Booting => s.dirty == {} && s.lh == []
    case Replaying(i) =>
      && Logged(g, s.disk) == s.lh && i <= |s.lh|
      && s.dirty == {}
      && Installed(Home(g, s.disk), s.lh, Slots(g, s.disk), i)
  }

  ghost predicate StoreInv(g: Geometry, s: State) {
    && HeaderOk(g, s.disk)
    && CacheOk(s.disk, s.cache, s.dirty)
    && s.dirty <= Home(g, s.disk).Keys
    && PhaseInv(g, s)
  }

  ghost predicate HomeBlock(g: Geometry, s: State, b: int) {
    0 <= b < |s.disk| && !InLog(g, b)
  }

  /** A change that has passed the test is of a home block, logged already or within its operation's budget. */
  ghost predicate PassedAt(g: Geometry, s: State, p: nat) {
    InOp(s, p) && s.ops[p].value.passed.Some? ==>
      var b := s.ops[p].value.passed.value.b;
      HomeBlock(g, s, b) && (b in s.lh || s.ops[p].value.left > 0)
  }

  ghost predicate AllHome(g: Geometry, s: State, lh: seq<int>) {
    Distinct(lh) && forall i | 0 <= i < |lh| :: HomeBlock(g, s, lh[i])
  }

  /** What group commit keeps for a log area of any size. */
  ghost predicate GroupInv(g: Geometry, s: State) {
    && BudgetInv(s) && Fits(g, s.disk)
    && AllHome(g, s, s.lh) && AllHome(g, s, HeaderOf(g, s.disk))
    && forall p: nat :: PassedAt(g, s, p)
  }

  /** There is room in the log area for a change that has passed the test. */
  ghost predicate RoomAt(g: Geometry, s: State, p: nat) {
    InOp(s, p) && s.ops[p].value.passed.Some? ==>
      g.size > LOGSIZE || s.ops[p].value.passed.value.b in s.lh || |s.lh| < g.size - 1
  }

  ghost predicate Inv(g: Geometry, s: State) {
    StoreInv(g, s) && GroupInv(g, s) && forall p: nat :: RoomAt(g, s, p)
  }

  /**
   The sizes for which the test made without the lock is enough: nobody else can append in between,
   nothing passes it, or the budgets alone keep the log within its area.
   */
  predicate Safe(g: Geometry, n: nat) {
    n <= 1 || g.size <= 1 || g.size > LOGSIZE
  }

  // ---- Budgets ----

  lemma {:induction false} UpdateCounts(ops: seq<Option<Op>>, p: nat, o: Option<Op>)
    requires p < |ops|
    ensures Unused(ops[p := o]) == Unused(ops) - (if ops[p].Some? then ops[p].value.left else 0)
                                   + (if o.Some? then o.value.left else 0)
    ensures Outstanding(ops[p := o]) == Outstanding(ops) - (if ops[p].Some? then 1 else 0) + (if o.Some? then 1 else 0)
  {
    var n := |ops| - 1;
    if p < n {
      UpdateCounts(ops[..n], p, o);
      assert ops[p := o][..n] == ops[..n][p := o];
    } else {
      assert ops[p := o][..n] == ops[..n];
    }
  }

  lemma {:induction false} UnusedWithinReservation(ops: seq<Option<Op>>)
    requires forall p | 0 <= p < |ops| && ops[p].Some? :: ops[p].value.left <= MAXOPBLOCKS
    ensures Unused(ops) <= Outstanding(ops) * MAXOPBLOCKS
  {
    if ops != [] {
      UnusedWithinReservation(ops[..|ops| - 1]);
    }
  }

  lemma {:induction false} NoneOutstanding(n: nat)
    ensures Outstanding(seq(n, _ => None)) == Unused(seq(n, _ => None)) == 0
  {
    if n > 0 {
      NoneOutstanding(n - 1);
      assert seq(n, _ => Option<Op>.None)[..n - 1] == seq(n - 1, _ => Option<Op>.None);
    }
  }

  /** An operation in progress is counted. */
  lemma OneIsOutstanding(s: State, p: nat)
    requires InOp(s, p)
    ensures Outstanding(s.ops) >= 1 && Unused(s.ops) >= s.ops[p].value.left
  {
    UpdateCounts(s.ops, p, None);
  }

  /** Every step keeps lh.n plus the unused budgets within LOGSIZE and commits only when no operation runs. */
  lemma BudgetStep(g: Geometry, s: State, a: Action)
    requires GroupInv(g, s) && Enabled(g, s, a)
    ensures BudgetInv(Do(g, s, a))
  {
    hide HeaderOf, PutBlock, PutHeader, Outstanding, Unused, View, AllHome, Unheld;
    match a
    case Begin(p) =>
      UnusedWithinReservation(s.ops);
      UpdateCounts(s.ops, p, Some(Op(MAXOPBLOCKS, None)));
    case Check(p, b, v) =>
      UpdateCounts(s.ops, p, Some(s.ops[p].value.(passed := Some(Change(b, v)))));
    case Append(p, b, v) =>
      assert PassedAt(g, s, p);
      OneIsOutstanding(s, p);
      UpdateCounts(s.ops, p, AfterAppend(s, p, b, v).ops[p]);
    case End(p) =>
      OneIsOutstanding(s, p);
      UpdateCounts(s.ops, p, None);
    case Crash =>
      NoneOutstanding(|s.ops|);
    case _ =>
      PutKeeps(g, s);
      HeaderShort(g, s.disk);
      UnusedWithinReservation(s.ops);
  }

  lemma HeaderShort(g: Geometry, d: Image)
    ensures |HeaderOf(g, d)| <= LOGSIZE
  {
  }

  lemma PutKeeps(g: Geometry, s: State)
    ensures forall b, v :: var s' := PutBlock(s, b, v); s'.ops == s.ops && s'.lh == s.lh
    ensures forall l :: var s' := PutHeader(g, s, l); s'.ops == s.ops && s'.lh == s.lh
  {
  }

  // ---- One lemma per step: the invariant and the specification ----

  /** Seen through the abstraction, going from `s` to `s'` by `a` is a step of the specification. */
  ghost predicate Refines(g: Geometry, s: State, a: Action, s': State) {
    && HeaderOk(g, s.disk) && HeaderOk(g, s'.disk)
    && SpecStep(Abs(g, s), a, Abs(g, s'))
  }

  /** What every storage step owes: the invariant again, and a step of the specification. */
  ghost predicate StepOk(g: Geometry, s: State, a: Action)
    requires Enabled(g, s, a)
  {
    StoreInv(g, Do(g, s, a)) && Refines(g, s, a, Do(g, s, a))
  }

  lemma CopyStep(g: Geometry, s: State)
    requires StoreInv(g, s) && Enabled(g, s, CopyBlock)
    ensures StepOk(g, s, CopyBlock)
  {
    hide Home, Seen, Slots, SlotsHold, Recovered, HeaderOk, Loggable, Elements, Installed;
    var i := s.phase.i;
    var at, from := g.start + i + 1, View(s, s.lh[i]);
    LoggedBlock(g, s.disk, s.lh, i);
    SlotsHoldNext(Slots(g, s.disk), s.lh, s.cache, at, from, from, i);
    LogWriteInvisible(g, s.disk, at, from);
    WriteUnseen(g, s.disk, s.cache, at, from);
    WriteSplits(g, s.disk, at, from);
    assert s.cache[at := from][s.lh[i] := s.cache[s.lh[i]]][at := from] == s.cache[at := from];
  }

  lemma HeaderStep(g: Geometry, s: State)
    requires StoreInv(g, s) && Enabled(g, s, WriteHeader)
    ensures StepOk(g, s, WriteHeader)
  {
    hide Home, Seen, Slots, SlotsHold, Recovered, HeaderOk, Loggable, Elements, Installed, PutHead;
    HeaderRoom(g, s.disk, s.lh);
    CacheCoherent(g, s.disk, s.cache, s.dirty);
    CommitPoint(g, s.disk, s.lh, s.cache);
    WriteUnseen(g, s.disk, s.cache, g.start, PutHead(s.disk[g.start], s.lh));
    WriteSplits(g, s.disk, g.start, PutHead(s.disk[g.start], s.lh));
    HeaderClean(g, s.disk, s.dirty);
    NothingYet(g, Do(g, s, WriteHeader).disk, s.lh, s.cache, [], map[]);
    assert s.lh[0..] == s.lh;
  }

  lemma HeaderRoom(g: Geometry, d: Image, lh: seq<int>)
    requires Loggable(g, Home(g, d), lh)
    ensures |lh| <= LOGSIZE && |lh| <= g.size - 1
  {
  }

  /** Installing a block keeps what recovery would give, before and after the commit point alike. */
  lemma InstallStep(g: Geometry, s: State, a: Action)
    requires StoreInv(g, s) && Enabled(g, s, a) && (a.InstallBlock? || a.ReplayBlock?)
    ensures StepOk(g, s, a)
  {
    hide Home, Seen, Slots, SlotsHold, Recovered, HeaderOk, Loggable, Elements, Installed, Logged, CacheOk;
    var i := s.phase.i;
    HeaderLoggable(g, s.disk);
    LoggedBlock(g, s.disk, s.lh, i);
    HeaderClean(g, s.disk, s.dirty);
    var at, v := s.lh[i], s.disk[g.start + i + 1];
    ViewClean(s, g.start + i + 1);
    PutCacheOk(s, at, v);
    InstallInvisible(g, s.disk, i);
    InstalledNext(Home(g, s.disk), s.lh, Slots(g, s.disk), i);
    SeenWrite(Home(g, s.disk), s.cache, at, v);
    SeenLogged(g, s.disk, s.lh, i);
    if a.InstallBlock? {
      TailElements(s.lh, i, s.dirty);
    }
  }

  lemma ViewClean(s: State, b: nat)
    requires CacheOk(s.disk, s.cache, s.dirty) && b < |s.disk| && b !in s.dirty
    ensures View(s, b) == s.disk[b]
  {
  }

  lemma PutCacheOk(s: State, b: nat, v: Block)
    requires CacheOk(s.disk, s.cache, s.dirty) && b < |s.disk|
    ensures CacheOk(s.disk[b := v], s.cache[b := v], s.dirty - {b})
  {
  }

  lemma SeenWrite(home: Blocks, cache: Blocks, b: int, v: Block)
    ensures b in home ==> Seen(home[b := v], cache[b := v]) == Seen(home, cache)[b := v]
    ensures b in home ==> Seen(home, cache[b := v]) == Seen(home, cache)[b := v]
    ensures Seen(home, cache).Keys == home.Keys
  {
  }

  lemma SeenLogged(g: Geometry, d: Image, lh: seq<int>, i: nat)
    requires HeaderOk(g, d) && lh == Logged(g, d) && i < |lh|
    ensures |lh| <= |Slots(g, d)| && Slots(g, d)[i] == d[g.start + 1 + i]
    ensures lh[i] in Home(g, d) && Recovered(g, d)[lh[i] := d[g.start + 1 + i]] == Recovered(g, d)
  {
    assert lh[i] in Elements(lh);
    assert Slots(g, d)[i] == d[g.start + 1 + i];
  }

  lemma EraseStep(g: Geometry, s: State, a: Action)
    requires StoreInv(g, s) && Enabled(g, s, a) && (a.EraseHeader? || a.EraseReplayed?)
    ensures StepOk(g, s, a)
  {
    hide Home, Seen, Slots, SlotsHold, Recovered, HeaderOk, Loggable, Installed, Logged, PutHead;
    HeaderLoggable(g, s.disk);
    InstalledIsRecovered(g, s.disk);
    var h := PutHead(s.disk[g.start], []);
    var d := s.disk[g.start := h];
    WriteSplits(g, s.disk, g.start, h);
    WriteUnseen(g, s.disk, s.cache, g.start, h);
    EmptyHeaderRecoversHome(g, d);
    NothingLogged(g, d);
    assert s.dirty == {};
    HeaderClean(g, s.disk, s.dirty);
    CacheCoherent(g, s.disk, s.cache, s.dirty);
  }

  lemma CacheStep(g: Geometry, s: State, a: Action)
    requires StoreInv(g, s) && Enabled(g, s, a) && (a.Load? || a.Evict?)
    ensures StepOk(g, s, a)
  {
    hide Home, Seen, Slots, Recovered, HeaderOk, Loggable, Installed, Logged, Elements;
    var cache' := Do(g, s, a).cache;
    if a.Load? {
      ReadUnseen(g, s.disk, s.cache, s.dirty, a.b);
    } else {
      EvictUnseen(g, s.disk, s.cache, s.dirty, a.b);
    }
    if s.phase.Copying? {
      SlotsKept(Slots(g, s.disk), s.lh, s.cache, cache', s.dirty, s.phase.i);
    }
  }

  /** Evicting a clean buffer changes nothing that is seen. */
  lemma EvictUnseen(g: Geometry, d: Image, cache: Blocks, dirty: set<int>, b: int)
    requires CacheOk(d, cache, dirty) && b !in dirty
    ensures CacheOk(d, cache - {b}, dirty) && Seen(Home(g, d), cache - {b}) == Seen(Home(g, d), cache)
  {
  }

  lemma {:induction false} SlotsKept(slots: seq<Block>, lh: seq<int>, cache: Blocks, cache': Blocks, dirty: set<int>,
                                i: nat)
    requires SlotsHold(slots, lh, cache, i) && i <= |lh| && Elements(lh) <= dirty
    requires forall b | b in dirty :: b in cache && b in cache' && cache'[b] == cache[b]
    ensures SlotsHold(slots, lh, cache', i)
  {
    if i > 0 {
      SlotsKept(slots, lh, cache, cache', dirty, i - 1);
      var b := lh[i - 1];
      assert b in Elements(lh);
      assert b in dirty;
      assert slots[i - 1] == cache[b];
    }
  }

  /** The append under log.lock: with room left, only what is seen changes, at its block. */
  lemma AppendStep(g: Geometry, s: State, p: nat, b: int, v: Block)
    requires Inv(g, s) && Enabled(g, s, Append(p, b, v))
    ensures StepOk(g, s, Append(p, b, v))
  {
    hide Seen, Slots, Recovered, HeaderOk, Loggable, Installed, Logged, HeaderOf, Unheld;
    OneIsOutstanding(s, p);
    assert PassedAt(g, s, p) && RoomAt(g, s, p);
    assert b in Home(g, s.disk);
    if b in s.lh {
      assert Elements(s.lh) == Elements(s.lh) + {b};
    } else {
      AbsorbKeeps(g, Home(g, s.disk), s.lh, b);
    }
    SeenWrite(Home(g, s.disk), s.cache, b, v);
  }

  lemma EmptyCache(d: Image)
    ensures CacheOk(d, map[], {})
  {
  }

  lemma OtherStep(g: Geometry, s: State, a: Action)
    requires Inv(g, s) && Enabled(g, s, a)
    requires a.Begin? || a.Check? || a.End? || a.CommitDone? || a.Crash? || a.ReadHeader?
    ensures StepOk(g, s, a)
  {
    hide Home, Seen, Slots, Recovered, Loggable, CacheOk, Outstanding, Unused, PutBlock, PutHeader, Elements, AllHome,
         Unheld;
    EmptyCache(s.disk);
    NothingYet(g, s.disk, s.lh, s.cache, [], map[]);
    NothingYet(g, s.disk, Logged(g, s.disk), s.cache, [], map[]);
    if a.End? {
      OneIsOutstanding(s, a.p);
    }
  }

  // ---- Steps for a log area of any size ----

  lemma PutsApart(g: Geometry, s: State, b: int, v: Block)
    requires Fits(g, s.disk) && b != g.start
    ensures var s' := PutBlock(s, b, v);
            Fits(g, s'.disk) && |s'.disk| == |s.disk| && HeaderOf(g, s'.disk) == HeaderOf(g, s.disk)
  {
  }

  lemma PutsHeader(g: Geometry, s: State, lh: seq<int>)
    requires Fits(g, s.disk) && |lh| <= LOGSIZE
    ensures var s' := PutHeader(g, s, lh);
            Fits(g, s'.disk) && |s'.disk| == |s.disk| && HeaderOf(g, s'.disk) == lh
  {
  }

  lemma NobodyIn(s: State, p: nat)
    requires BudgetInv(s) && !s.phase.Ready?
    ensures !InOp(s, p)
  {
    if InOp(s, p) { OneIsOutstanding(s, p); }
  }

  /** The header and the logged numbers stay distinct home blocks. */
  lemma NumbersStep(g: Geometry, s: State, a: Action)
    requires GroupInv(g, s) && Enabled(g, s, a)
    ensures var s' := Do(g, s, a);
            Fits(g, s'.disk) && |s'.disk| == |s.disk| && AllHome(g, s', s'.lh) && AllHome(g, s', HeaderOf(g, s'.disk))
  {
    hide HeaderOf, PutBlock, PutHeader, Outstanding, Unused, View, Unheld, Fits, PassedAt;
    match a
    case Append(p, b, v) => assert PassedAt(g, s, p); PassedHome(g, s, p);
    case CopyBlock => PutKeeps(g, s); PutsApart(g, s, g.start + s.phase.i + 1, View(s, s.lh[s.phase.i]));
    case InstallBlock =>
      HomeApart(g, s, s.lh[s.phase.i]);
      PutKeeps(g, s);
      PutsApart(g, s, s.lh[s.phase.i], View(s, g.start + s.phase.i + 1));
    case ReplayBlock =>
      HomeApart(g, s, s.lh[s.phase.i]);
      PutKeeps(g, s);
      PutsApart(g, s, s.lh[s.phase.i], View(s, g.start + s.phase.i + 1));
    case WriteHeader => PutKeeps(g, s); PutsHeader(g, s, s.lh);
    case EraseHeader => PutKeeps(g, s); PutsHeader(g, s, []);
    case EraseReplayed => PutKeeps(g, s); PutsHeader(g, s, []);
    case _ =>
  }

  lemma HomeApart(g: Geometry, s: State, b: int)
    requires Fits(g, s.disk) && HomeBlock(g, s, b)
    ensures b != g.start
  {
  }

  lemma PassedHome(g: Geometry, s: State, p: nat)
    requires PassedAt(g, s, p) && InOp(s, p) && s.ops[p].value.passed.Some?
    ensures HomeBlock(g, s, s.ops[p].value.passed.value.b)
  {
  }

  lemma PassedStep(g: Geometry, s: State, a: Action, p: nat)
    requires GroupInv(g, s) && Enabled(g, s, a) && |Do(g, s, a).disk| == |s.disk|
    ensures PassedAt(g, Do(g, s, a), p)
  {
    hide HeaderOf, PutBlock, PutHeader, Outstanding, Unused, View, Unheld, AllHome;
    assert PassedAt(g, s, p);
    PutKeeps(g, s);
    if a.ReadHeader? || a.EraseHeader? || a.EraseReplayed? { NobodyIn(s, p); }
  }

  lemma GroupStep(g: Geometry, s: State, a: Action)
    requires GroupInv(g, s) && Enabled(g, s, a)
    ensures GroupInv(g, Do(g, s, a)) && |Do(g, s, a).ops| == |s.ops|
  {
    BudgetStep(g, s, a);
    NumbersStep(g, s, a);
    PutKeeps(g, s);
    forall p: nat
      ensures PassedAt(g, Do(g, s, a), p)
    {
      PassedStep(g, s, a, p);
    }
    hide HeaderOf, PutBlock, PutHeader, Outstanding, Unused, View, Unheld, AllHome, BudgetInv, PassedAt;
  }

  /** Where the unlocked test is enough, there is still room when the append comes. */
  lemma RoomStep(g: Geometry, s: State, a: Action, p: nat)
    requires GroupInv(g, s) && (forall q: nat :: RoomAt(g, s, q)) && Enabled(g, s, a) && Safe(g, |s.ops|)
    ensures RoomAt(g, Do(g, s, a), p)
  {
    hide HeaderOf, PutBlock, PutHeader, Outstanding, Unused, View, Unheld, AllHome, PassedAt;
    assert RoomAt(g, s, p);
    PutKeeps(g, s);
    if a.Append? { assert RoomAt(g, s, a.p); }
    if a.ReadHeader? || a.EraseHeader? || a.EraseReplayed? { NobodyIn(s, p); }
  }

  // ---- Every run ----

  lemma StepPreserves(g: Geometry, s: State, a: Action)
    requires Inv(g, s) && Enabled(g, s, a) && Safe(g, |s.ops|)
    ensures Inv(g, Do(g, s, a))
    ensures Refines(g, s, a, Do(g, s, a))
  {
    GroupStep(g, s, a);
    forall p: nat ensures RoomAt(g, Do(g, s, a), p) { RoomStep(g, s, a, p); }
    hide *;
    match a
    case CopyBlock => CopyStep(g, s);
    case WriteHeader => HeaderStep(g, s);
    case InstallBlock => InstallStep(g, s, a);
    case ReplayBlock => InstallStep(g, s, a);
    case EraseHeader => EraseStep(g, s, a);
    case EraseReplayed => EraseStep(g, s, a);
    case Load(b) => CacheStep(g, s, a);
    case Evict(b) => CacheStep(g, s, a);
    case Append(p, b, v) => AppendStep(g, s, p, b, v);
    case _ => OtherStep(g, s, a);
  }

  lemma HeaderOfLogged(g: Geometry, d: Image)
    requires HeaderOk(g, d)
    ensures HeaderOf(g, d) == Logged(g, d) && |HeaderOf(g, d)| <= LOGSIZE
  {
  }

  lemma InitInv(g: Geometry, d: Image, n: nat)
    requires HeaderOk(g, d)
    ensures Inv(g, Reboot(d, n))
  {
    EmptyCache(d);
    NoneOutstanding(n);
    HeaderOfLogged(g, d);
    HeaderLoggable(g, d);
    var lh := Logged(g, d);
    forall i | 0 <= i < |lh|
      ensures HomeBlock(g, Reboot(d, n), lh[i])
    {
      assert lh[i] in Elements(lh);
    }
  }

  /** Runs with group commit, for a log area of any size. */
  lemma {:induction false} RunGroup(g: Geometry, d: Image, n: nat, states: seq<State>, actions: seq<Action>, i: nat)
    requires HeaderOk(g, d) && IsRun(g, d, n, states, actions) && i < |states|
    ensures GroupInv(g, states[i]) && |states[i].ops| == n
  {
    hide GroupInv, Do, Enabled, HeaderOk;
    if i == 0 {
      InitInv(g, d, n);
    } else {
      RunGroup(g, d, n, states, actions, i - 1);
      GroupStep(g, states[i - 1], actions[i - 1]);
    }
  }

  /**
   Where the unlocked test is enough, every reachable state satisfies the invariant, and every step of a
   run is a step of the specification.
   */
  lemma {:induction false} RunRefines(g: Geometry, d: Image, n: nat, states: seq<State>, actions: seq<Action>)
    requires HeaderOk(g, d) && IsRun(g, d, n, states, actions) && Safe(g, n)
    ensures forall i | 0 <= i < |states| :: Inv(g, states[i])
    ensures forall i | 0 <= i < |actions| :: Refines(g, states[i], actions[i], states[i + 1])
  {
    hide Inv, Refines, Do, Enabled;
    var k := |actions|;
    if k == 0 {
      InitInv(g, d, n);
    } else {
      RunRefines(g, d, n, states[..k], actions[..k - 1]);
      assert states[..k][k - 1] == states[k - 1];
      RunGroup(g, d, n, states, actions, k - 1);
      StepPreserves(g, states[k - 1], actions[k - 1]);
      forall i | 0 <= i < k
        ensures Refines(g, states[i], actions[i], states[i + 1])
      {
        if i < k - 1 {
          assert states[..k][i] == states[i] && states[..k][i + 1] == states[i + 1];
        }
      }
      forall i | 0 <= i < |states|
        ensures Inv(g, states[i])
      {
        if i < k {
          assert states[..k][i] == states[i];
        }
      }
    }
  }

  /** What the operations saw at the last header write before position j, or what power-on recovered. */
  ghost function LastCommitted(g: Geometry, states: seq<State>, actions: seq<Action>, j: nat): Blocks
    requires j < |states| == |actions| + 1
    requires forall i | 0 <= i < |states| :: HeaderOk(g, states[i].disk)
  {
    if j == 0 then Recovered(g, states[0].disk)
    else if actions[j - 1].WriteHeader? then Abs(g, states[j - 1]).current
    else LastCommitted(g, states, actions, j - 1)
  }

  /**
   Crash atomicity over whole runs: whenever the machine stops, in the middle of operations,
   of a commit or of a recovery, it comes back with exactly the blocks of the last header write.
   */
  lemma {:induction false} CrashKeepsLastCommit(g: Geometry, d: Image, n: nat, states: seq<State>, actions: seq<Action>,
                                j: nat)
    requires HeaderOk(g, d) && IsRun(g, d, n, states, actions) && j < |states| && Safe(g, n)
    ensures forall i | 0 <= i < |states| :: HeaderOk(g, states[i].disk)
    ensures Recovered(g, states[j].disk) == LastCommitted(g, states, actions, j)
    ensures j < |actions| && actions[j].Crash? ==>
              Abs(g, states[j + 1]).current == LastCommitted(g, states, actions, j)
  {
    hide Inv, Refines, Recovered, HeaderOk, Abs, Do, Enabled;
    RunRefines(g, d, n, states, actions);
    forall i | 0 <= i < |states|
      ensures HeaderOk(g, states[i].disk)
    {
      InvHeaderOk(g, states[i]);
    }
    if j > 0 {
      CrashKeepsLastCommit(g, d, n, states, actions, j - 1);
      DurableStep(g, states[j - 1], actions[j - 1], states[j]);
    }
    if j < |actions| {
      DurableStep(g, states[j], actions[j], states[j + 1]);
    }
  }

  lemma InvHeaderOk(g: Geometry, s: State)
    requires Inv(g, s)
    ensures HeaderOk(g, s.disk)
  {
  }

  /** Only the header write changes what a crash would leave. */
  lemma DurableStep(g: Geometry, s: State, a: Action, s': State)
    requires Refines(g, s, a, s')
    ensures HeaderOk(g, s.disk) && HeaderOk(g, s'.disk)
    ensures Recovered(g, s'.disk) == if a.WriteHeader? then Abs(g, s).current else Recovered(g, s.disk)
    ensures a.Crash? ==> Abs(g, s').current == Recovered(g, s.disk)
  {
    hide HeaderOk, Recovered, Seen, Home;
  }

  /** Group commit over all interleavings, for a log area of any size. */
  lemma GroupCommitSafe(g: Geometry, d: Image, n: nat, states: seq<State>, actions: seq<Action>, i: nat)
    requires HeaderOk(g, d) && IsRun(g, d, n, states, actions) && i < |states|
    ensures var s := states[i];
            && Distinct(s.lh)
            && |s.lh| + Unused(s.ops) <= LOGSIZE
            && (Committing(s) ==> Outstanding(s.ops) == 0)
            && (Committing(s) && i < |actions| ==>
                  !actions[i].Begin? && !actions[i].Check? && !actions[i].Append? && !actions[i].End?)
            && (i < |actions| && states[i + 1].panicked && !s.panicked ==> actions[i].Check? && LogFull(g, |s.lh|))
  {
    RunGroup(g, d, n, states, actions, i);
    var s := states[i];
    if i < |actions| && !s.panicked {
      if Committing(s) {
        CommitRunsAlone(g, s, actions[i]);
      }
      PanicOnlyWhenFull(g, s, actions[i]);
    }
  }

  /** With nobody inside and nobody committing, nothing waits in the log: the last operation to end commits. */
  ghost predicate QuietInv(s: State) {
    (s.phase.Ready? && Outstanding(s.ops) == 0) || s.phase.Finishing? ==> s.lh == []
  }

  lemma QuietStep(g: Geometry, s: State, a: Action)
    requires BudgetInv(s) && QuietInv(s) && Enabled(g, s, a)
    ensures QuietInv(Do(g, s, a))
  {
    hide HeaderOf, PutBlock, PutHeader, Outstanding, Unused, View, Unheld;
    PutKeeps(g, s);
    match a
    case Begin(p) => UpdateCounts(s.ops, p, Some(Op(MAXOPBLOCKS, None)));
    case Check(p, b, v) =>
      OneIsOutstanding(s, p);
      UpdateCounts(s.ops, p, Some(s.ops[p].value.(passed := Some(Change(b, v)))));
    case Append(p, b, v) =>
      OneIsOutstanding(s, p);
      UpdateCounts(s.ops, p, AfterAppend(s, p, b, v).ops[p]);
    case End(p) => OneIsOutstanding(s, p);
    case _ =>
  }

  /** Over every run, for any number of processes and a log area of any size, the last operation to end commits. */
  lemma {:induction false} LastEndCommits(g: Geometry, d: Image, n: nat, states: seq<State>, actions: seq<Action>,
                                          i: nat)
    requires HeaderOk(g, d) && IsRun(g, d, n, states, actions) && i < |states|
    ensures states[i].phase.Ready? && Outstanding(states[i].ops) == 0 ==> states[i].lh == []
    ensures QuietInv(states[i])
  {
    hide BudgetInv, Do, Enabled, HeaderOk, Outstanding, Unused;
    if i > 0 {
      LastEndCommits(g, d, n, states, actions, i - 1);
      RunGroup(g, d, n, states, actions, i - 1);
      QuietStep(g, states[i - 1], actions[i - 1]);
    }
  }

  lemma NothingPending(g: Geometry, s: State)
    requires StoreInv(g, s) && s.phase.Ready? && s.lh == []
    ensures Abs(g, s).current == Abs(g, s).durable
  {
    hide Recovered, Seen, Home;
    EmptyHeaderRecoversHome(g, s.disk);
    CacheCoherent(g, s.disk, s.cache, s.dirty);
  }

  /**
   Durability: where the unlocked test is enough, what operations have done when all of them have ended and
   the commit is over comes back after a crash, at once or at any time before the next header write.
   */
  lemma {:induction false} EndedSurvives(g: Geometry, d: Image, n: nat, states: seq<State>, actions: seq<Action>,
                                         i: nat, j: nat)
    requires HeaderOk(g, d) && IsRun(g, d, n, states, actions) && i <= j < |states| && Safe(g, n)
    requires states[i].phase.Ready? && Outstanding(states[i].ops) == 0
    requires forall k | i <= k < j :: !actions[k].WriteHeader?
    ensures HeaderOk(g, states[i].disk) && HeaderOk(g, states[j].disk)
    ensures Abs(g, states[i]).current == Abs(g, states[i]).durable == Recovered(g, states[j].disk)
    ensures j < |actions| && actions[j].Crash? ==>
              HeaderOk(g, states[j + 1].disk) && Abs(g, states[j + 1]).current == Abs(g, states[i]).current
    decreases j
  {
    hide StoreInv, GroupInv, Refines, Recovered, HeaderOk, Do, Enabled, Outstanding, Seen, Home;
    RunRefines(g, d, n, states, actions);
    assert Inv(g, states[i]);
    InvHeaderOk(g, states[i]);
    if j < |actions| {
      DurableStep(g, states[j], actions[j], states[j + 1]);
    }
    if j > i {
      EndedSurvives(g, d, n, states, actions, i, j - 1);
      DurableStep(g, states[j - 1], actions[j - 1], states[j]);
    } else {
      LastEndCommits(g, d, n, states, actions, i);
      NothingPending(g, states[i]);
    }
  }

  lemma CommitRunsAlone(g: Geometry, s: State, a: Action)
    requires BudgetInv(s) && Enabled(g, s, a) && Committing(s)
    ensures !a.Begin? && !a.Check? && !a.Append? && !a.End?
  {
    hide Outstanding, Unused;
    if a.Check? || a.Append? || a.End? {
      NobodyIn(s, a.p);
    }
  }

  lemma PanicOnlyWhenFull(g: Geometry, s: State, a: Action)
    requires BudgetInv(s) && Enabled(g, s, a) && !s.panicked
    ensures Do(g, s, a).panicked ==> a.Check? && LogFull(g, |s.lh|)
  {
    hide Outstanding, Unused, View;
    if a.Check? || a.End? {
      OneIsOutstanding(s, a.p);
    }
  }

  // ---- Runs that fill the log ----

  lemma Grow(g: Geometry, d: Image, n: nat, states0: seq<State>, actions0: seq<Action>, a: Action)
    returns (states: seq<State>, actions: seq<Action>)
    requires IsRun(g, d, n, states0, actions0) && Enabled(g, states0[|actions0|], a)
    ensures IsRun(g, d, n, states, actions) && actions == actions0 + [a] && states0 <= states
    ensures states[|actions|] == Do(g, states0[|actions0|], a)
  {
    hide Enabled, Do;
    states, actions := states0 + [Do(g, states0[|actions0|], a)], actions0 + [a];
    forall i | 0 <= i < |actions|
      ensures Enabled(g, states[i], actions[i]) && states[i + 1] == Do(g, states[i], actions[i])
    {
      if i < |actions0| {
        assert states[i] == states0[i] && states[i + 1] == states0[i + 1] && actions[i] == actions0[i];
      }
    }
  }

  /** No commit has been made in the run. */
  ghost predicate Uncommitted(actions: seq<Action>) {
    forall i | 0 <= i < |actions| :: !actions[i].WriteHeader?
  }

  /** Operations stand between calls of log_write, the first k of the blocks are logged and the disk is untouched. */
  ghost predicate Logging(s: State, d: Image, n: nat, bs: seq<int>, k: nat) {
    && s.phase.Ready? && !s.panicked && s.disk == d && k <= |bs| && s.lh == bs[..k] && |s.ops| == n
    && forall q | 0 <= q < n && s.ops[q].Some? :: s.ops[q].value.passed.None?
  }

  ghost predicate IdleOp(s: State, p: nat, left: nat) {
    p < |s.ops| && s.ops[p] == Some(Op(left, None))
  }

  lemma SameHeader(h: Block)
    requires |h.words| == BLOCKWORDS && h.words[0] == 0
    ensures PutHead(h, []) == h
  {
    assert [0] + [] + h.words[1..] == h.words;
  }

  /** Boots over an empty header. */
  lemma Booted(g: Geometry, d: Image, n: nat, bs: seq<int>) returns (states: seq<State>, actions: seq<Action>)
    requires HeaderEmpty(g, d)
    ensures IsRun(g, d, n, states, actions) && Uncommitted(actions)
    ensures Logging(states[|actions|], d, n, bs, 0) && states[|actions|].ops == seq(n, _ => None)
  {
    states, actions := [Reboot(d, n)], [];
    states, actions := Grow(g, d, n, states, actions, ReadHeader);
    assert states[1].lh == [];
    SameHeader(d[g.start]);
    states, actions := Grow(g, d, n, states, actions, EraseReplayed);
    assert d[g.start := d[g.start]] == d;
  }

  lemma BeginOne(g: Geometry, d: Image, n: nat, states0: seq<State>, actions0: seq<Action>, p: nat, bs: seq<int>,
                 k: nat)
    returns (states: seq<State>, actions: seq<Action>)
    requires IsRun(g, d, n, states0, actions0) && Uncommitted(actions0) && p < n
    requires var s := states0[|actions0|];
             Logging(s, d, n, bs, k) && s.ops[p].None? && Admits(k, Outstanding(s.ops))
    ensures IsRun(g, d, n, states, actions) && Uncommitted(actions) && Logging(states[|actions|], d, n, bs, k)
    ensures var s, s' := states0[|actions0|], states[|actions|];
            s'.ops == s.ops[p := Some(Op(MAXOPBLOCKS, None))] && Outstanding(s'.ops) == Outstanding(s.ops) + 1
  {
    hide Outstanding;
    UpdateCounts(states0[|actions0|].ops, p, Some(Op(MAXOPBLOCKS, None)));
    states, actions := Grow(g, d, n, states0, actions0, Begin(p));
  }

  /** Process p logs one more block. */
  lemma LogOne(g: Geometry, d: Image, n: nat, states0: seq<State>, actions0: seq<Action>, p: nat, bs: seq<int>, k: nat)
    returns (states: seq<State>, actions: seq<Action>)
    requires IsRun(g, d, n, states0, actions0) && Uncommitted(actions0)
    requires var s := states0[|actions0|];
             Logging(s, d, n, bs, k) && InOp(s, p) && s.ops[p].value.left > 0
    requires k < |bs| && Distinct(bs) && 0 <= bs[k] < |d| && !InLog(g, bs[k]) && !LogFull(g, k)
    ensures IsRun(g, d, n, states, actions) && Uncommitted(actions) && Logging(states[|actions|], d, n, bs, k + 1)
    ensures var s, s' := states0[|actions0|], states[|actions|];
            s'.ops == s.ops[p := Some(Op(s.ops[p].value.left - 1, None))] && Outstanding(s'.ops) == Outstanding(s.ops)
  {
    hide Outstanding;
    var s, b := states0[|actions0|], bs[k];
    OneIsOutstanding(s, p);
    assert b !in s.lh;
    states, actions := Grow(g, d, n, states0, actions0, Check(p, b, Block([])));
    states, actions := Grow(g, d, n, states, actions, Append(p, b, Block([])));
    assert bs[..k + 1] == bs[..k] + [b];
    UpdateCounts(s.ops, p, Some(Op(s.ops[p].value.left - 1, None)));
  }

  /** One process logs k blocks in one operation. */
  lemma {:induction false} FillOne(g: Geometry, d: Image, n: nat, bs: seq<int>, k: nat)
    returns (states: seq<State>, actions: seq<Action>)
    requires HeaderEmpty(g, d) && n >= 1 && Distinct(bs) && Elements(bs) <= Home(g, d).Keys
    requires k <= |bs| && k < g.size && k <= MAXOPBLOCKS
    ensures IsRun(g, d, n, states, actions) && Uncommitted(actions)
    ensures Logging(states[|actions|], d, n, bs, k) && IdleOp(states[|actions|], 0, MAXOPBLOCKS - k)
  {
    hide Outstanding, Logging, Uncommitted;
    if k == 0 {
      states, actions := Booted(g, d, n, bs);
      NoneOutstanding(n);
      states, actions := BeginOne(g, d, n, states, actions, 0, bs, 0);
    } else {
      states, actions := FillOne(g, d, n, bs, k - 1);
      assert bs[k - 1] in Elements(bs);
      states, actions := LogOne(g, d, n, states, actions, 0, bs, k - 1);
    }
  }

  /** Which of two processes logs block k, and what they may still log before it. */
  function Writer(k: nat): nat {
    if k < 19 || k == 28 then 0 else 1
  }

  function Left(p: nat, k: nat): nat {
    if p == 0 then (if k < 10 then 10 - k else if k <= 19 then 20 - k else if k <= 28 then 1 else 0)
    else (if k <= 19 then 10 else if k <= 28 then 29 - k else if k == 29 then 1 else 0)
  }

  ghost predicate TwoIn(s: State, d: Image, n: nat, bs: seq<int>, k: nat) {
    Logging(s, d, n, bs, k) && Outstanding(s.ops) == 2 && IdleOp(s, 0, Left(0, k)) && IdleOp(s, 1, Left(1, k))
  }

  /** Process 0 ends its first operation and begins another while process 1 keeps the transaction open. */
  lemma Renew(g: Geometry, d: Image, n: nat, states0: seq<State>, actions0: seq<Action>, bs: seq<int>)
    returns (states: seq<State>, actions: seq<Action>)
    requires IsRun(g, d, n, states0, actions0) && Uncommitted(actions0) && n >= 2
    requires var s := states0[|actions0|];
             Logging(s, d, n, bs, 10) && Outstanding(s.ops) == 2 && IdleOp(s, 0, 0) && IdleOp(s, 1, 10)
    ensures IsRun(g, d, n, states, actions) && Uncommitted(actions) && TwoIn(states[|actions|], d, n, bs, 10)
  {
    hide Outstanding;
    UpdateCounts(states0[|actions0|].ops, 0, None);
    states, actions := Grow(g, d, n, states0, actions0, End(0));
    states, actions := BeginOne(g, d, n, states, actions, 0, bs, 10);
  }

  /** Two processes log k blocks within their budgets, up to LOGSIZE. */
  lemma {:induction false} FillTwo(g: Geometry, d: Image, n: nat, bs: seq<int>, k: nat)
    returns (states: seq<State>, actions: seq<Action>)
    requires HeaderEmpty(g, d) && n >= 2 && Distinct(bs) && Elements(bs) <= Home(g, d).Keys
    requires k <= |bs| && k < g.size && k <= LOGSIZE
    ensures IsRun(g, d, n, states, actions) && Uncommitted(actions) && TwoIn(states[|actions|], d, n, bs, k)
  {
    hide Outstanding, Logging, Uncommitted;
    if k == 0 {
      states, actions := Booted(g, d, n, bs);
      NoneOutstanding(n);
      states, actions := BeginOne(g, d, n, states, actions, 0, bs, 0);
      states, actions := BeginOne(g, d, n, states, actions, 1, bs, 0);
    } else {
      states, actions := FillTwo(g, d, n, bs, k - 1);
      assert bs[k - 1] in Elements(bs);
      states, actions := LogOne(g, d, n, states, actions, Writer(k - 1), bs, k - 1);
      if k == 10 {
        states, actions := Renew(g, d, n, states, actions, bs);
      }
    }
  }

  lemma CrowdStep(g: Geometry, s: State, a: Action)
    requires Enabled(g, s, a) && Outstanding(s.ops) * MAXOPBLOCKS <= LOGSIZE
    ensures Outstanding(Do(g, s, a).ops) * MAXOPBLOCKS <= LOGSIZE
  {
    hide HeaderOf, PutBlock, PutHeader, Outstanding, View, Unheld;
    PutKeeps(g, s);
    NoneOutstanding(|s.ops|);
    match a
    case Begin(p) => UpdateCounts(s.ops, p, Some(Op(MAXOPBLOCKS, None)));
    case Check(p, b, v) => UpdateCounts(s.ops, p, Some(s.ops[p].value.(passed := Some(Change(b, v)))));
    case Append(p, b, v) => UpdateCounts(s.ops, p, AfterAppend(s, p, b, v).ops[p]);
    case End(p) => UpdateCounts(s.ops, p, None);
    case _ =>
  }

  /** begin_op never lets in more operations than the log has full budgets for. */
  lemma {:induction false} AtMostThree(g: Geometry, d: Image, n: nat, states: seq<State>, actions: seq<Action>, i: nat)
    requires IsRun(g, d, n, states, actions) && i < |states|
    ensures Outstanding(states[i].ops) <= 3
  {
    hide Do, Enabled, Outstanding;
    if i == 0 {
      NoneOutstanding(n);
    } else {
      AtMostThree(g, d, n, states, actions, i - 1);
      CrowdStep(g, states[i - 1], actions[i - 1]);
    }
  }

  /** Three operations can be inside at once. */
  lemma ThreeAtOnce(g: Geometry, d: Image, n: nat) returns (states: seq<State>, actions: seq<Action>)
    requires HeaderEmpty(g, d) && n >= 3
    ensures IsRun(g, d, n, states, actions) && Outstanding(states[|actions|].ops) == 3
  {
    hide Outstanding, Logging, Uncommitted;
    states, actions := Booted(g, d, n, []);
    NoneOutstanding(n);
    states, actions := BeginOne(g, d, n, states, actions, 0, [], 0);
    states, actions := BeginOne(g, d, n, states, actions, 1, [], 0);
    states, actions := BeginOne(g, d, n, states, actions, 2, [], 0);
  }

  // ---- The panic in log_write ----

  /** With one process, its operation's blocks are all there is in the log. */
  ghost predicate AloneInv(s: State) {
    && |s.ops| <= 1
    && QuietInv(s)
    && (InOp(s, 0) ==> |s.lh| + s.ops[0].value.left <= MAXOPBLOCKS)
  }

  lemma AloneStep(g: Geometry, s: State, a: Action)
    requires GroupInv(g, s) && AloneInv(s) && Enabled(g, s, a)
    ensures AloneInv(Do(g, s, a))
  {
    hide HeaderOf, PutBlock, PutHeader, View, Unheld, AllHome, Unused;
    PutKeeps(g, s);
    QuietStep(g, s, a);
    CountsOne(s.ops);
    CountsOne(Do(g, s, a).ops);
    assert PassedAt(g, s, 0);
  }

  lemma CountsOne(ops: seq<Option<Op>>)
    ensures |ops| <= 1 ==> (Outstanding(ops) > 0 <==> |ops| == 1 && ops[0].Some?)
  {
    if |ops| == 1 { assert ops[..0] == []; }
  }

  lemma {:induction false} AloneRun(g: Geometry, d: Image, n: nat, states: seq<State>, actions: seq<Action>, i: nat)
    requires HeaderOk(g, d) && n <= 1 && IsRun(g, d, n, states, actions) && i < |states|
    ensures AloneInv(states[i])
  {
    hide GroupInv, Do, Enabled, HeaderOk, Outstanding;
    if i > 0 {
      AloneRun(g, d, n, states, actions, i - 1);
      RunGroup(g, d, n, states, actions, i - 1);
      AloneStep(g, states[i - 1], actions[i - 1]);
    }
  }

  /** No call of log_write by an operation within its budget runs into a panic. */
  ghost predicate PanicFree(g: Geometry, d: Image, n: nat) {
    forall states: seq<State>, actions: seq<Action>, p: nat, b: int, v: Block ::
      IsRun(g, d, n, states, actions) && Enabled(g, states[|actions|], Check(p, b, v))
      ==> !CheckPanics(g, states[|actions|])
  }

  /** The same for calls that an operation makes while it may still log a new block. */
  ghost predicate NewPanicFree(g: Geometry, d: Image, n: nat) {
    forall states: seq<State>, actions: seq<Action>, p: nat, b: int, v: Block ::
      IsRun(g, d, n, states, actions) && MayLogMore(g, states[|actions|], p, b, v)
      ==> !CheckPanics(g, states[|actions|])
  }

  predicate MayLogMore(g: Geometry, s: State, p: nat, b: int, v: Block) {
    Enabled(g, s, Check(p, b, v)) && s.ops[p].value.left > 0
  }

  /** The next block of the list, or one already logged, may be written. */
  lemma MayCheck(g: Geometry, s: State, d: Image, n: nat, bs: seq<int>, k: nat, p: nat)
    requires Logging(s, d, n, bs, k) && InOp(s, p) && Distinct(bs) && Elements(bs) <= Home(g, d).Keys
    ensures k < |bs| && s.ops[p].value.left > 0 ==> MayLogMore(g, s, p, bs[k], Block([]))
    ensures k > 0 ==> Enabled(g, s, Check(p, bs[0], Block([])))
    ensures CheckPanics(g, s) <==> LogFull(g, k)
  {
    hide Outstanding;
    OneIsOutstanding(s, p);
    if k > 0 { assert bs[0] in Elements(bs) && s.lh[0] == bs[0]; }
    if k < |bs| { assert bs[k] in Elements(bs); }
  }

  lemma WithinBudget(g: Geometry, s: State, p: nat, b: int, v: Block)
    requires BudgetInv(s) && MayLogMore(g, s, p, b, v) && CheckPanics(g, s)
    ensures g.size <= LOGSIZE
  {
    hide Outstanding, Unused, Unheld;
    OneIsOutstanding(s, p);
  }

  lemma WithinBudgetAlone(g: Geometry, s: State, p: nat, b: int, v: Block)
    requires AloneInv(s) && Enabled(g, s, Check(p, b, v)) && CheckPanics(g, s)
    ensures g.size <= MAXOPBLOCKS + 1 && (s.ops[p].value.left > 0 ==> g.size <= MAXOPBLOCKS)
  {
    hide Outstanding, Unused, Unheld;
    OneIsOutstanding(s, p);
  }

  /**
   The panic "too big a transaction" is out of reach of operations that log new blocks exactly when the log
   area has a slot for every block begin_op may admit. mkfs makes it one block too small.
   */
  lemma NewPanicFreeIff(g: Geometry, d: Image, n: nat, bs: seq<int>)
    requires HeaderEmpty(g, d) && |bs| >= LOGSIZE && Distinct(bs) && Elements(bs) <= Home(g, d).Keys
    ensures NewPanicFree(g, d, n) <==> n == 0 || g.size > LOGSIZE || (n == 1 && g.size > MAXOPBLOCKS)
  {
    hide Enabled, Do, Unused, Outstanding, GroupInv, AloneInv, Logging, Uncommitted;
    EmptyHeaderRecoversHome(g, d);
    if n == 0 || g.size > LOGSIZE || (n == 1 && g.size > MAXOPBLOCKS) {
      forall states: seq<State>, actions: seq<Action>, p: nat, b: int, v: Block
        | IsRun(g, d, n, states, actions) && MayLogMore(g, states[|actions|], p, b, v)
        ensures !CheckPanics(g, states[|actions|])
      {
        var s := states[|actions|];
        RunGroup(g, d, n, states, actions, |actions|);
        GroupBudget(g, s);
        NeedsProcess(g, s, p, b, v);
        if CheckPanics(g, s) {
          WithinBudget(g, s, p, b, v);
          AloneRun(g, d, n, states, actions, |actions|);
          WithinBudgetAlone(g, s, p, b, v);
        }
      }
    } else {
      var k, states, actions := g.size - 1, [], [];
      if n == 1 {
        states, actions := FillOne(g, d, n, bs, k);
        MayCheck(g, states[|actions|], d, n, bs, k, 0);
      } else {
        states, actions := FillTwo(g, d, n, bs, k);
        MayCheck(g, states[|actions|], d, n, bs, k, Writer(k));
      }
    }
  }

  lemma GroupBudget(g: Geometry, s: State)
    requires GroupInv(g, s)
    ensures BudgetInv(s)
  {
  }

  lemma NeedsProcess(g: Geometry, s: State, p: nat, b: int, v: Block)
    requires Enabled(g, s, Check(p, b, v))
    ensures p < |s.ops|
  {
  }

  /**
   Every call of log_write, also one for a block that is in the log already, is safe from the panic exactly
   with a single process and a log area larger than its budget: the test for a full log comes before the
   search for the block, so with two processes a full log of any size panics on a rewrite.
   */
  lemma PanicFreeIff(g: Geometry, d: Image, n: nat, bs: seq<int>)
    requires HeaderEmpty(g, d) && |bs| >= LOGSIZE && Distinct(bs) && Elements(bs) <= Home(g, d).Keys
    ensures PanicFree(g, d, n) <==> n == 0 || (n == 1 && g.size > MAXOPBLOCKS + 1)
  {
    hide Enabled, Do, Unused, Outstanding, GroupInv, AloneInv, Logging, Uncommitted;
    EmptyHeaderRecoversHome(g, d);
    if n == 0 || (n == 1 && g.size > MAXOPBLOCKS + 1) {
      forall states: seq<State>, actions: seq<Action>, p: nat, b: int, v: Block
        | IsRun(g, d, n, states, actions) && Enabled(g, states[|actions|], Check(p, b, v))
        ensures !CheckPanics(g, states[|actions|])
      {
        var s := states[|actions|];
        RunGroup(g, d, n, states, actions, |actions|);
        NeedsProcess(g, s, p, b, v);
        AloneRun(g, d, n, states, actions, |actions|);
        if CheckPanics(g, s) { WithinBudgetAlone(g, s, p, b, v); }
      }
    } else if n == 1 {
      var k := g.size - 1;
      var states, actions := FillOne(g, d, n, bs, k);
      MayCheck(g, states[|actions|], d, n, bs, k, 0);
    } else {
      var k := if g.size <= LOGSIZE then g.size - 1 else LOGSIZE;
      var states, actions := FillTwo(g, d, n, bs, k);
      MayCheck(g, states[|actions|], d, n, bs, k, Writer(k));
    }
  }

  // ---- The test without the lock ----

  /** Whatever the machine does and whenever it stops, it comes back with the blocks of the last header write. */
  ghost predicate CrashAtomic(g: Geometry, d: Image, n: nat) {
    forall states: seq<State>, actions: seq<Action>, j: nat ::
      IsRun(g, d, n, states, actions) && j < |states| ==> BringsBack(g, states, actions, j)
  }

  ghost predicate BringsBack(g: Geometry, states: seq<State>, actions: seq<Action>, j: nat)
    requires j < |states| == |actions| + 1
  {
    && (forall i | 0 <= i < |states| :: HeaderOk(g, states[i].disk))
    && Recovered(g, states[j].disk) == LastCommitted(g, states, actions, j)
  }

  /** Two processes pass the test for the last slot and both append: one number too many. */
  lemma Overfill(g: Geometry, d: Image, n: nat, bs: seq<int>, v: Block)
                 returns (states: seq<State>, actions: seq<Action>)
    requires HeaderEmpty(g, d) && n >= 2 && 2 <= g.size <= LOGSIZE
    requires |bs| >= LOGSIZE && Distinct(bs) && Elements(bs) <= Home(g, d).Keys
    ensures IsRun(g, d, n, states, actions) && Uncommitted(actions) && Copied(g, states[|actions|], d, bs, v, 0)
  {
    hide Outstanding, Uncommitted;
    var k := g.size - 2;
    states, actions := FillTwo(g, d, n, bs, k);
    states, actions := Overrun(g, d, n, states, actions, bs, v);
    states, actions := BothEnd(g, d, n, states, actions, bs, v);
  }

  /** One number more than the log area has slots, and the change for the last one in the cache. */
  ghost predicate Overrunning(g: Geometry, s: State, d: Image, n: nat, bs: seq<int>, v: Block) {
    && Logging(s, d, n, bs, g.size) && g.size >= 1 && bs[g.size - 1] in s.cache && s.cache[bs[g.size - 1]] == v
    && Outstanding(s.ops) == 2 && InOp(s, 0) && InOp(s, 1)
  }

  /** The two operations of TwoIn once both have passed the test, for blocks k and k + 1. */
  function Passing(ops: seq<Option<Op>>, bs: seq<int>, v: Block, k: nat): seq<Option<Op>>
    requires |ops| >= 2 && k + 1 < |bs|
  {
    ops[0 := Some(Op(Left(0, k), Some(Change(bs[k], Block([])))))]
       [1 := Some(Op(Left(1, k), Some(Change(bs[k + 1], v))))]
  }

  lemma BothPass(g: Geometry, d: Image, n: nat, states0: seq<State>, actions0: seq<Action>, bs: seq<int>, v: Block)
    returns (states: seq<State>, actions: seq<Action>)
    requires IsRun(g, d, n, states0, actions0) && Uncommitted(actions0) && n >= 2 && 2 <= g.size <= LOGSIZE <= |bs|
    requires TwoIn(states0[|actions0|], d, n, bs, g.size - 2) && Distinct(bs) && Elements(bs) <= Home(g, d).Keys
    ensures IsRun(g, d, n, states, actions) && Uncommitted(actions)
    ensures var s := states0[|actions0|]; states[|actions|] == s.(ops := Passing(s.ops, bs, v, g.size - 2))
  {
    hide Outstanding;
    var k := g.size - 2;
    var s, b, c := states0[|actions0|], bs[k], bs[k + 1];
    assert b in Elements(bs) && c in Elements(bs);
    UpdateCounts(s.ops, 0, Some(Op(Left(0, k), Some(Change(b, Block([]))))));
    states, actions := Grow(g, d, n, states0, actions0, Check(0, b, Block([])));
    states, actions := Grow(g, d, n, states, actions, Check(1, c, v));
  }

  lemma Overrun(g: Geometry, d: Image, n: nat, states0: seq<State>, actions0: seq<Action>, bs: seq<int>, v: Block)
    returns (states: seq<State>, actions: seq<Action>)
    requires IsRun(g, d, n, states0, actions0) && Uncommitted(actions0) && n >= 2 && 2 <= g.size <= LOGSIZE <= |bs|
    requires TwoIn(states0[|actions0|], d, n, bs, g.size - 2) && Distinct(bs) && Elements(bs) <= Home(g, d).Keys
    ensures IsRun(g, d, n, states, actions) && Uncommitted(actions)
    ensures Overrunning(g, states[|actions|], d, n, bs, v)
  {
    hide Outstanding, Home, Elements, Unheld, InLog;
    var k := g.size - 2;
    states, actions := BothPass(g, d, n, states0, actions0, bs, v);
    OneTooMany(g, states0[|actions0|], d, n, bs, v, k);
    states, actions := Grow(g, d, n, states, actions, Append(0, bs[k], Block([])));
    states, actions := Grow(g, d, n, states, actions, Append(1, bs[k + 1], v));
  }

  lemma OneTooMany(g: Geometry, s: State, d: Image, n: nat, bs: seq<int>, v: Block, k: nat)
    requires n >= 2 && g.size == k + 2 <= LOGSIZE <= |bs| && TwoIn(s, d, n, bs, k) && Distinct(bs)
    ensures var s1 := AfterAppend(s.(ops := Passing(s.ops, bs, v, k)), 0, bs[k], Block([]));
            InOp(s1, 1) && Overrunning(g, AfterAppend(s1, 1, bs[k + 1], v), d, n, bs, v)
  {
    hide Outstanding;
    var s1 := AfterAppend(s.(ops := Passing(s.ops, bs, v, k)), 0, bs[k], Block([]));
    var s2 := AfterAppend(s1, 1, bs[k + 1], v);
    assert bs[k] !in s.lh && bs[k + 1] !in s.lh;
    var ops' := s.ops[0 := Some(Op(Left(0, k) - 1, None))][1 := Some(Op(Left(1, k) - 1, None))];
    assert s2.ops == ops';
    UpdateCounts(s.ops, 0, ops'[0]);
    UpdateCounts(s.ops[0 := ops'[0]], 1, ops'[1]);
    assert bs[..k + 2] == bs[..k] + [bs[k]] + [bs[k + 1]];
  }

  lemma BothEnd(g: Geometry, d: Image, n: nat, states0: seq<State>, actions0: seq<Action>, bs: seq<int>, v: Block)
    returns (states: seq<State>, actions: seq<Action>)
    requires IsRun(g, d, n, states0, actions0) && Uncommitted(actions0) && HeaderEmpty(g, d)
    requires Overrunning(g, states0[|actions0|], d, n, bs, v)
    ensures IsRun(g, d, n, states, actions) && Uncommitted(actions) && Copied(g, states[|actions|], d, bs, v, 0)
  {
    hide Outstanding;
    var s := states0[|actions0|];
    UpdateCounts(s.ops, 0, None);
    UpdateCounts(s.ops[0 := None], 1, None);
    states, actions := Grow(g, d, n, states0, actions0, End(0));
    states, actions := Grow(g, d, n, states, actions, End(1));
  }

  /** write_log has copied i blocks, all into the log area. */
  ghost predicate Copied(g: Geometry, s: State, d: Image, bs: seq<int>, v: Block, i: nat) {
    && s.phase == Copying(i) && !s.panicked && 1 <= g.size <= |bs| && s.lh == bs[..g.size]
    && |s.disk| == |d| && HeaderEmpty(g, s.disk) && Home(g, s.disk) == Home(g, d)
    && bs[g.size - 1] in s.cache && s.cache[bs[g.size - 1]] == v
  }

  lemma LastIsHome(g: Geometry, d: Image, bs: seq<int>)
    requires 1 <= g.size <= |bs| && Elements(bs) <= Home(g, d).Keys
    ensures !InLog(g, bs[g.size - 1])
  {
    assert bs[g.size - 1] in Elements(bs);
  }

  lemma CopyNext(g: Geometry, s: State, d: Image, bs: seq<int>, v: Block, i: nat)
    requires Copied(g, s, d, bs, v, i) && i + 1 < g.size && !InLog(g, bs[g.size - 1])
    ensures Enabled(g, s, CopyBlock) && Copied(g, Do(g, s, CopyBlock), d, bs, v, i + 1)
  {
    hide Home, Slots;
    WriteSplits(g, s.disk, g.start + i + 1, View(s, s.lh[i]));
  }

  lemma {:induction false} CopyOn(g: Geometry, d: Image, n: nat, states0: seq<State>, actions0: seq<Action>,
                                bs: seq<int>, v: Block, i: nat)
    returns (states: seq<State>, actions: seq<Action>)
    requires IsRun(g, d, n, states0, actions0) && Uncommitted(actions0) && Copied(g, states0[|actions0|], d, bs, v, 0)
    requires i < g.size && Elements(bs) <= Home(g, d).Keys
    ensures IsRun(g, d, n, states, actions) && Uncommitted(actions) && Copied(g, states[|actions|], d, bs, v, i)
  {
    if i == 0 {
      states, actions := states0, actions0;
    } else {
      states, actions := CopyOn(g, d, n, states0, actions0, bs, v, i - 1);
      hide Copied, Enabled, Do;
      LastIsHome(g, d, bs);
      CopyNext(g, states[|actions|], d, bs, v, i - 1);
      states, actions := Grow(g, d, n, states, actions, CopyBlock);
    }
  }

  /** The last copy lands on the first block after the log area. */
  lemma CopyOutside(g: Geometry, d: Image, n: nat, states0: seq<State>, actions0: seq<Action>, bs: seq<int>, v: Block)
    returns (states: seq<State>, actions: seq<Action>)
    requires IsRun(g, d, n, states0, actions0) && Uncommitted(actions0) && g.size >= 1
    requires Copied(g, states0[|actions0|], d, bs, v, g.size - 1) && g.start + g.size < |d| && v != d[g.start + g.size]
    ensures IsRun(g, d, n, states, actions) && Uncommitted(actions)
    ensures HeaderEmpty(g, states[|actions|].disk) && Home(g, states[|actions|].disk) != Home(g, d)
  {
    var s, at := states0[|actions0|], g.start + g.size;
    WriteSplits(g, s.disk, at, v);
    states, actions := Grow(g, d, n, states0, actions0, CopyBlock);
    assert Home(g, s.disk[at := v])[at] == v && Home(g, d)[at] == d[at];
  }

  lemma {:induction false} NothingCommitted(g: Geometry, states: seq<State>, actions: seq<Action>, j: nat)
    requires j < |states| == |actions| + 1 && Uncommitted(actions)
    requires forall i | 0 <= i < |states| :: HeaderOk(g, states[i].disk)
    ensures LastCommitted(g, states, actions, j) == Recovered(g, states[0].disk)
  {
    hide Recovered, HeaderOk;
    if j > 0 { NothingCommitted(g, states, actions, j - 1); }
  }

  /**
   The log is crash-safe exactly when the test without the lock is enough. For the log area mkfs makes and two
   processes it is not: write_log can reach the first block after the area, before anything is committed.
   */
  lemma CrashSafeIff(g: Geometry, d: Image, n: nat, bs: seq<int>)
    requires HeaderEmpty(g, d) && g.start + g.size < |d|
    requires |bs| >= LOGSIZE && Distinct(bs) && Elements(bs) <= Home(g, d).Keys
    ensures CrashAtomic(g, d, n) <==> Safe(g, n)
  {
    hide Enabled, Do, Uncommitted, Copied, Recovered, HeaderOk, LastCommitted, Home, Elements;
    EmptyHeaderRecoversHome(g, d);
    if Safe(g, n) {
      forall states: seq<State>, actions: seq<Action>, j: nat | IsRun(g, d, n, states, actions) && j < |states|
        ensures BringsBack(g, states, actions, j)
      {
        CrashKeepsLastCommit(g, d, n, states, actions, j);
      }
    } else {
      var v := Block(d[g.start + g.size].words + [0]);
      var states, actions := Overfill(g, d, n, bs, v);
      states, actions := CopyOn(g, d, n, states, actions, bs, v, g.size - 1);
      states, actions := CopyOutside(g, d, n, states, actions, bs, v);
      var j := |actions|;
      EmptyHeaderRecoversHome(g, states[j].disk);
      if BringsBack(g, states, actions, j) {
        NothingCommitted(g, states, actions, j);
      }
    }
  }
}
