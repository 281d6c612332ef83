/**
 The process table of proc.c: fork, exit, wait, kill, yield and the schedulers of any number of
 CPUs as steps under ptable.lock, which a scheduler hands to the process it switches to and gets
 back when that process calls sched. fork's writes outside the lock are steps of their own.
 */
module ProcTable {
  import opened Basics

  datatype RunState = UNUSED | EMBRYO | SLEEPING | RUNNABLE | RUNNING | ZOMBIE

  /** wait sleeps on the address of the process itself; anything else is another channel. */
  datatype Chan = OfProc(p: nat) | Other(n: nat)

  /** Why a process called sched. */
  datatype Why = InYield | InWait | InNap | InFork | Dead

  datatype Pc =
    | User
    | Forking(np: nat)          // after allocproc, parent not set yet
    | ForkingNamed(np: nat)     // after np->parent = curproc
    | Exiting                   // exit, before wakeup1(curproc->parent)
    | Reparenting(i: nat)       // exit's loop
    | WaitScan(i: nat, kids: bool)
    | Leaving(why: Why)         // state set, about to call sched
    | Away(why: Why)            // not on a CPU
    | Back(why: Why)            // just switched to, holding ptable.lock

  datatype Proc = Proc(state: RunState, parent: Option<nat>, chan: Option<Chan>, killed: bool, pc: Pc)

  /** A CPU with c->proc: idle in its scheduler, about to switch, running, or just switched back. */
  datatype Cpu = Idle | Chosen(p: nat) | Running(p: nat) | Returned(p: nat)

  datatype Table = Table(procs: seq<Proc>, cpus: seq<Cpu>, lock: Holder)

  datatype Action =
    | AllocProc(p: nat, np: nat) | ForkFail(p: nat) | SetParent(p: nat) | ForkDone(p: nat)
    | ExitLock(p: nat) | ExitWake(p: nat) | Reparent(p: nat) | ExitZombie(p: nat)
    | WaitLock(p: nat) | WaitLook(p: nat) | WaitReap(p: nat) | WaitFail(p: nat) | WaitSleep(p: nat)
    | Nap(p: nat, n: nat) | Yield(p: nat) | Sched(p: nat, c: nat) | Resume(p: nat)
    | CpuClear(c: nat) | CpuLock(c: nat) | Choose(c: nat, q: nat) | Switch(c: nat) | CpuUnlock(c: nat)
    | Kill(q: nat) | WakeOther(n: nat)

  const INIT: nat := 0

  function Put(t: Table, p: nat, q: Proc): Table
    requires p < |t.procs|
  {
    t.(procs := t.procs[p := q])
  }

  function Goto(t: Table, p: nat, pc: Pc): Table
    requires p < |t.procs|
  {
    Put(t, p, t.procs[p].(pc := pc))
  }

  predicate At(t: Table, p: nat, pc: Pc) {
    p < |t.procs| && t.procs[p].pc == pc
  }

  function Woken(q: Proc, c: Chan): Proc {
    if q.state.SLEEPING? && q.chan == Some(c) then q.(state := RUNNABLE) else q
  }

  /** wakeup1(c) */
  function WakeAll(procs: seq<Proc>, c: Chan): (r: seq<Proc>)
    ensures |r| == |procs| && forall i | 0 <= i < |procs| :: r[i] == Woken(procs[i], c)
  {
    seq(|procs|, i requires 0 <= i < |procs| => Woken(procs[i], c))
  }

  /** A free slot of the table. */
  const UNUSEDPROC: Proc := Proc(UNUSED, None, None, false, Away(Dead))

  ghost predicate ForkNext(t: Table, a: Action, t': Table) {
    match a
    case AllocProc(p, np) =>
      At(t, p, User) && t.lock.Nobody? && np < |t.procs| && t.procs[np].state.UNUSED? &&
      t' == Goto(Put(t, np, t.procs[np].(state := EMBRYO)), p, Forking(np))
    case ForkFail(p) =>
      p < |t.procs| && t.procs[p].pc.Forking? && t.procs[p].pc.np < |t.procs| &&
      var np := t.procs[p].pc.np;
      t' == Goto(Put(t, np, t.procs[np].(state := UNUSED)), p, User)
    case SetParent(p) =>
      p < |t.procs| && t.procs[p].pc.Forking? && t.procs[p].pc.np < |t.procs| &&
      var np := t.procs[p].pc.np;
      t' == Goto(Put(t, np, t.procs[np].(parent := Some(p))), p, ForkingNamed(np))
    case ForkDone(p) =>
      p < |t.procs| && t.procs[p].pc.ForkingNamed? && t.procs[p].pc.np < |t.procs| && t.lock.Nobody? &&
      var np := t.procs[p].pc.np;
      t' == Goto(Put(t, np, t.procs[np].(state := RUNNABLE, pc := Away(InFork))), p, User)
    case _ => false
  }

  ghost predicate ExitNext(t: Table, a: Action, t': Table) {
    match a
    case ExitLock(p) =>
      At(t, p, User) && t.lock.Nobody? && p != INIT && t' == Goto(t, p, Exiting).(lock := ByProc(p))
    case ExitWake(p) =>
      At(t, p, Exiting) && t.procs[p].parent.Some? &&
      t' == Goto(t.(procs := WakeAll(t.procs, OfProc(t.procs[p].parent.value))), p, Reparenting(0))
    case Reparent(p) =>
      p < |t.procs| && t.procs[p].pc.Reparenting? && t.procs[p].pc.i < |t.procs| &&
      var i := t.procs[p].pc.i;
      var q := t.procs[i];
      t' == Goto(if q.parent != Some(p) then t
                 else
                   var procs := t.procs[i := q.(parent := Some(INIT))];
                   t.(procs := if q.state.ZOMBIE? then WakeAll(procs, OfProc(INIT)) else procs),
                 p, Reparenting(i + 1))
    case ExitZombie(p) =>
      At(t, p, Reparenting(|t.procs|)) && t' == Put(t, p, t.procs[p].(state := ZOMBIE, pc := Leaving(Dead)))
    case _ => false
  }

  ghost predicate WaitNext(t: Table, a: Action, t': Table) {
    match a
    case WaitLock(p) =>
      At(t, p, User) && t.lock.Nobody? && t' == Goto(t, p, WaitScan(0, false)).(lock := ByProc(p))
    case WaitLook(p) =>
      p < |t.procs| && t.procs[p].pc.WaitScan? && t.procs[p].pc.i < |t.procs| &&
      var i := t.procs[p].pc.i;
      !(t.procs[i].parent == Some(p) && t.procs[i].state.ZOMBIE?) &&
      t' == Goto(t, p, WaitScan(i + 1, t.procs[p].pc.kids || t.procs[i].parent == Some(p)))
    case WaitReap(p) =>
      p < |t.procs| && t.procs[p].pc.WaitScan? && t.procs[p].pc.i < |t.procs| &&
      var i := t.procs[p].pc.i;
      t.procs[i].parent == Some(p) && t.procs[i].state.ZOMBIE? &&
      t' == Goto(Put(t, i, UNUSEDPROC), p, User).(lock := Nobody)
    case WaitFail(p) =>
      p < |t.procs| && t.procs[p].pc.WaitScan? && t.procs[p].pc.i == |t.procs| &&
      (!t.procs[p].pc.kids || t.procs[p].killed) && t' == Goto(t, p, User).(lock := Nobody)
    case WaitSleep(p) =>
      p < |t.procs| && t.procs[p].pc.WaitScan? && t.procs[p].pc.i == |t.procs| &&
      t.procs[p].pc.kids && !t.procs[p].killed &&
      t' == Put(t, p, t.procs[p].(state := SLEEPING, chan := Some(OfProc(p)), pc := Leaving(InWait)))
    case _ => false
  }

  ghost predicate SchedNext(t: Table, a: Action, t': Table) {
    match a
    case Nap(p, n) =>
      At(t, p, User) && t.lock.Nobody? &&
      t' == Put(t, p, t.procs[p].(state := SLEEPING, chan := Some(Other(n)), pc := Leaving(InNap))).(lock := ByProc(p))
    case Yield(p) =>
      At(t, p, User) && t.lock.Nobody? &&
      t' == Put(t, p, t.procs[p].(state := RUNNABLE, pc := Leaving(InYield))).(lock := ByProc(p))
    case Sched(p, c) =>
      p < |t.procs| && t.procs[p].pc.Leaving? && c < |t.cpus| && t.cpus[c] == Running(p) &&
      t' == Goto(t, p, Away(t.procs[p].pc.why)).(lock := ByCpu(c), cpus := t.cpus[c := Returned(p)])
    case Resume(p) =>
      p < |t.procs| && t.procs[p].pc.Back? &&
      var q := t.procs[p].(chan := None);
      t' == if q.pc.why.InWait? then Put(t, p, q.(pc := WaitScan(0, false)))
          else Put(t, p, q.(pc := User)).(lock := Nobody)
    case Kill(q) =>
      q < |t.procs| && t.lock.Nobody? &&
      t' == Put(t, q, t.procs[q].(killed := true,
          state := if t.procs[q].state.SLEEPING? then RUNNABLE else t.procs[q].state))
    case WakeOther(n) =>
      t.lock.Nobody? && t' == t.(procs := WakeAll(t.procs, Other(n)))
    case _ => false
  }

  ghost predicate CpuNext(t: Table, a: Action, t': Table) {
    match a
    case CpuClear(c) =>
      c < |t.cpus| && t.cpus[c].Returned? && t' == t.(cpus := t.cpus[c := Idle])
    case CpuLock(c) =>
      c < |t.cpus| && t.cpus[c].Idle? && t.lock.Nobody? && t' == t.(lock := ByCpu(c))
    case Choose(c, q) =>
      c < |t.cpus| && t.cpus[c].Idle? && t.lock == ByCpu(c) && q < |t.procs| && t.procs[q].state.RUNNABLE? &&
      t' == t.(cpus := t.cpus[c := Chosen(q)])
    case Switch(c) =>
      c < |t.cpus| && t.cpus[c].Chosen? && t.cpus[c].p < |t.procs| && t.procs[t.cpus[c].p].pc.Away? &&
      var q := t.cpus[c].p;
      t' == Put(t, q, t.procs[q].(state := RUNNING, pc := Back(t.procs[q].pc.why))).(lock := ByProc(q),
          cpus := t.cpus[c := Running(q)])
    case CpuUnlock(c) =>
      c < |t.cpus| && t.cpus[c].Idle? && t.lock == ByCpu(c) && t' == t.(lock := Nobody)
    case _ => false
  }

  ghost predicate Next(t: Table, a: Action, t': Table) {
    ForkNext(t, a, t') || ExitNext(t, a, t') || WaitNext(t, a, t') || SchedNext(t, a, t') || CpuNext(t, a, t')
  }

  /** userinit has made the first process; every CPU idles in its scheduler. */
  ghost predicate Init(t: Table) {
    && |t.procs| > 0 && t.lock.Nobody?
    && t.procs[INIT] == Proc(RUNNABLE, None, None, false, Away(InFork))
    && (forall p | 1 <= p < |t.procs| :: t.procs[p] == UNUSEDPROC)
    && (forall c | 0 <= c < |t.cpus| :: t.cpus[c].Idle?)
  }

  ghost predicate IsRun(tables: seq<Table>, actions: seq<Action>) {
    && |tables| == |actions| + 1 && Init(tables[0])
    && forall i | 0 <= i < |actions| :: Next(tables[i], actions[i], tables[i + 1])
  }

  // ---- The invariant ----

  predicate HoldsLock(pc: Pc) {
    pc.Exiting? || pc.Reparenting? || pc.WaitScan? || pc.Leaving? || pc.Back?
  }

  /** State, program counter and lock of one process fit together. */
  ghost predicate ProcOk(lock: Holder, p: nat, q: Proc) {
    && (lock == ByProc(p) <==> HoldsLock(q.pc))
    && (q.state.RUNNING? <==> !q.pc.Away? && !q.pc.Leaving?)
    && (q.state.UNUSED? || q.state.EMBRYO? ==> q.pc == Away(Dead))
    && (q.state.ZOMBIE? ==> q.pc == Away(Dead) || q.pc == Leaving(Dead))
    && (q.state.SLEEPING? ==> (q.pc.Away? || q.pc.Leaving?) && (q.pc.why.InWait? || q.pc.why.InNap?))
    && (q.state.SLEEPING? && q.pc.why.InWait? ==> q.chan == Some(OfProc(p)))
    && (q.state.RUNNABLE? ==> q.pc == Leaving(InYield) || (q.pc.Away? && !q.pc.why.Dead?))
    && (q.pc.Back? ==> !q.pc.why.Dead?)
  }

  ghost predicate LockInv(t: Table) {
    && (forall p: nat | p < |t.procs| :: ProcOk(t.lock, p, t.procs[p]))
    && (t.lock.ByProc? ==> t.lock.p < |t.procs|)
    && (t.lock.ByCpu? ==> t.lock.c < |t.cpus| && !t.cpus[t.lock.c].Running?)
  }

  predicate OnCpu(pc: Pc) {
    !pc.Away?
  }

  /** A CPU holds the table lock while it is switching, and otherwise runs a process that is on it. */
  ghost predicate CpuOk(t: Table, c: nat) {
    c < |t.cpus| ==>
      && (t.cpus[c].Chosen? || t.cpus[c].Returned? ==> t.lock == ByCpu(c))
      && (t.cpus[c].Chosen? ==>
         t.cpus[c].p < |t.procs| && t.procs[t.cpus[c].p].state.RUNNABLE? && t.procs[t.cpus[c].p].pc.Away?)
      && (t.cpus[c].Running? ==> t.cpus[c].p < |t.procs| && OnCpu(t.procs[t.cpus[c].p].pc))
  }

  ghost predicate CpusApart(t: Table, c: nat, d: nat) {
    c < d < |t.cpus| && t.cpus[c].Running? && t.cpus[d].Running? ==> t.cpus[c].p != t.cpus[d].p
  }

  ghost predicate HasCpu(t: Table, p: nat) {
    p < |t.procs| && OnCpu(t.procs[p].pc) ==> exists c: nat :: c < |t.cpus| && t.cpus[c] == Running(p)
  }

  ghost predicate CpuInv(t: Table) {
    (forall c: nat :: CpuOk(t, c)) && (forall c: nat, d: nat :: CpusApart(t, c, d)) && (forall p: nat :: HasCpu(t, p))
  }

  predicate Alive(s: RunState) {
    s.SLEEPING? || s.RUNNABLE? || s.RUNNING?
  }

  function ForkOf(pc: Pc): Option<nat> {
    if pc.Forking? || pc.ForkingNamed? then Some(pc.np) else None
  }

  /** A slot taken by allocproc belongs to the one process that is forking into it. */
  ghost predicate ForkerOk(t: Table, p: nat) {
    p < |t.procs| && ForkOf(t.procs[p].pc).Some? ==>
      var np := t.procs[p].pc.np;
      np < |t.procs| && t.procs[np].state.EMBRYO?
          && t.procs[np].parent == if t.procs[p].pc.Forking? then None else Some(p)
  }

  ghost predicate ForkersApart(t: Table, p: nat, q: nat) {
    p < |t.procs| && q < |t.procs| && p != q && ForkOf(t.procs[p].pc).Some? ==>
        ForkOf(t.procs[p].pc) != ForkOf(t.procs[q].pc)
  }

  ghost predicate EmbryoOk(t: Table, j: nat) {
    j < |t.procs| && t.procs[j].state.EMBRYO? && t.procs[j].parent.Some? ==>
      t.procs[j].parent.value < |t.procs| && t.procs[t.procs[j].parent.value].pc == ForkingNamed(j)
  }

  ghost predicate ForkInv(t: Table) {
    (forall p: nat :: ForkerOk(t, p)) && (forall p: nat, q: nat :: ForkersApart(t, p, q))
        && (forall j: nat :: EmbryoOk(t, j))
  }

  /** Everybody alive or ZOMBIE, except init, has a parent that is alive. */
  ghost predicate ParentOk(t: Table, j: nat) {
    j < |t.procs| ==>
      && (t.procs[j].state.UNUSED? ==> t.procs[j].parent.None?)
      && (j != INIT && (Alive(t.procs[j].state) || t.procs[j].state.ZOMBIE?) ==>
            t.procs[j].parent.Some? && t.procs[j].parent.value < |t.procs|
                && Alive(t.procs[t.procs[j].parent.value].state))
      && t.procs[j].parent != Some(j)
  }

  ghost predicate InitOk(t: Table) {
    |t.procs| > 0 && Alive(t.procs[INIT].state) && t.procs[INIT].parent.None?
  }

  /** exit's loop has passed entry j, so j is not a child of the exiting process; init never exits. */
  ghost predicate ReparentOk(t: Table, p: nat, j: nat) {
    && (p < |t.procs| && j < |t.procs| && t.procs[p].pc.Reparenting? && j < t.procs[p].pc.i ==>
       t.procs[j].parent != Some(p))
    && (p < |t.procs| && (t.procs[p].pc.Exiting? || t.procs[p].pc.Reparenting?) ==> p != INIT)
  }

  ghost predicate ParentInv(t: Table) {
    InitOk(t) && (forall j: nat :: ParentOk(t, j)) && (forall p: nat, j: nat :: ReparentOk(t, p, j))
  }

  predicate AsleepInWait(q: Proc) {
    q.state.SLEEPING? && (q.pc == Leaving(InWait) || q.pc == Away(InWait))
  }

  /** No process sleeps in wait while a child of it is ZOMBIE. */
  ghost predicate WaiterOk(t: Table, p: nat, j: nat) {
    p < |t.procs| && j < |t.procs| && AsleepInWait(t.procs[p]) && t.procs[j].parent == Some(p) ==>
        !t.procs[j].state.ZOMBIE?
  }

  /** A process past its wakeup1(parent) has a parent that is not asleep in wait. */
  ghost predicate WakerOk(t: Table, p: nat) {
    p < |t.procs| && t.procs[p].pc.Reparenting? && t.procs[p].parent.Some? && t.procs[p].parent.value < |t.procs| ==>
      !AsleepInWait(t.procs[t.procs[p].parent.value])
  }

  /** wait's loop has passed entry j. */
  ghost predicate ScanOk(t: Table, p: nat, j: nat) {
    p < |t.procs| && j < |t.procs| && t.procs[p].pc.WaitScan? && j < t.procs[p].pc.i && t.procs[j].parent == Some(p) ==>
      !t.procs[j].state.ZOMBIE? && t.procs[p].pc.kids
  }

  ghost predicate WaitInv(t: Table) {
    && (forall p: nat, j: nat :: WaiterOk(t, p, j))
    && (forall p: nat :: WakerOk(t, p))
    && (forall p: nat, j: nat :: ScanOk(t, p, j))
  }

  ghost predicate Inv(t: Table) {
    LockInv(t) && CpuInv(t) && ForkInv(t) && ParentInv(t) && WaitInv(t)
  }

  // ---- Locks ----

  lemma ForkKeepsLock(t: Table, a: Action, t': Table)
    requires LockInv(t) && ForkInv(t) && ForkNext(t, a, t')
    ensures LockInv(t')
  {
    assert ForkerOk(t, a.p);
  }

  lemma ExitKeepsLock(t: Table, a: Action, t': Table)
    requires LockInv(t) && ExitNext(t, a, t')
    ensures LockInv(t')
  {
  }

  lemma WaitKeepsLock(t: Table, a: Action, t': Table)
    requires LockInv(t) && WaitNext(t, a, t')
    ensures LockInv(t')
  {
  }

  lemma SchedKeepsLock(t: Table, a: Action, t': Table)
    requires LockInv(t) && SchedNext(t, a, t')
    ensures LockInv(t')
  {
  }

  lemma CpuKeepsLock(t: Table, a: Action, t': Table)
    requires LockInv(t) && CpuInv(t) && CpuNext(t, a, t')
    ensures LockInv(t')
  {
    assert CpuOk(t, a.c);
  }

  // ---- CPUs ----

  /** Nobody gets on or off a CPU. */
  ghost predicate SameOnCpu(t: Table, t': Table) {
    && t'.cpus == t.cpus && |t'.procs| == |t.procs| && (t'.lock == t.lock || !t.lock.ByCpu?)
    && (forall p: nat | p < |t.procs| ::
          && OnCpu(t'.procs[p].pc) == OnCpu(t.procs[p].pc)
          && (t.procs[p].state.RUNNABLE? && t.procs[p].pc.Away? ==>
             t'.procs[p].state.RUNNABLE? && t'.procs[p].pc.Away?))
  }

  lemma SameOnCpuKeeps(t: Table, t': Table)
    requires CpuInv(t) && SameOnCpu(t, t')
    ensures CpuInv(t')
  {
    forall c: nat
      ensures CpuOk(t', c)
    {
      assert CpuOk(t, c);
    }
    forall c: nat, d: nat
      ensures CpusApart(t', c, d)
    {
      assert CpusApart(t, c, d);
    }
    forall p: nat
      ensures HasCpu(t', p)
    {
      assert HasCpu(t, p);
    }
  }

  lemma ForkStaysOnCpu(t: Table, a: Action, t': Table)
    requires LockInv(t) && ForkInv(t) && ForkNext(t, a, t')
    ensures SameOnCpu(t, t')
  {
    assert ForkerOk(t, a.p);
  }

  lemma ExitStaysOnCpu(t: Table, a: Action, t': Table)
    requires LockInv(t) && ExitNext(t, a, t')
    ensures SameOnCpu(t, t')
  {
  }

  lemma WaitStaysOnCpu(t: Table, a: Action, t': Table)
    requires LockInv(t) && WaitNext(t, a, t')
    ensures SameOnCpu(t, t')
  {
  }

  lemma SchedKeepsCpu(t: Table, a: Action, t': Table)
    requires LockInv(t) && CpuInv(t) && SchedNext(t, a, t')
    ensures CpuInv(t')
  {
    if a.Sched? {
      LeavesCpu(t, a.p, a.c, t');
    } else {
      assert SameOnCpu(t, t');
      SameOnCpuKeeps(t, t');
    }
  }

  lemma LeavesCpu(t: Table, p: nat, c: nat, t': Table)
    requires LockInv(t) && CpuInv(t) && SchedNext(t, Sched(p, c), t')
    ensures CpuInv(t')
  {
    assert ProcOk(t.lock, p, t.procs[p]);
    forall d: nat
      ensures CpuOk(t', d)
    {
      assert CpuOk(t, d) && CpusApart(t, c, d) && CpusApart(t, d, c);
    }
    forall d: nat, e: nat
      ensures CpusApart(t', d, e)
    {
      assert CpusApart(t, d, e);
    }
    forall q: nat
      ensures HasCpu(t', q)
    {
      assert HasCpu(t, q);
      if q < |t'.procs| && OnCpu(t'.procs[q].pc) {
        var d: nat :| d < |t.cpus| && t.cpus[d] == Running(q);
        assert t'.cpus[d] == Running(q);
      }
    }
  }

  lemma CpuKeepsCpu(t: Table, a: Action, t': Table)
    requires LockInv(t) && CpuInv(t) && CpuNext(t, a, t')
    ensures CpuInv(t')
  {
    assert CpuOk(t, a.c);
    forall d: nat
      ensures CpuOk(t', d)
    {
      assert CpuOk(t, d);
    }
    forall d: nat, e: nat
      ensures CpusApart(t', d, e)
    {
      assert CpusApart(t, d, e) && CpuOk(t, d) && CpuOk(t, e);
    }
    forall q: nat
      ensures HasCpu(t', q)
    {
      assert HasCpu(t, q);
      if q < |t'.procs| && OnCpu(t'.procs[q].pc) {
        if a.Switch? && q == t.cpus[a.c].p {
          assert t'.cpus[a.c] == Running(q);
        } else {
          var d: nat :| d < |t.cpus| && t.cpus[d] == Running(q);
          assert t'.cpus[d] == Running(q);
        }
      }
    }
  }

  // ---- Slots being forked into ----

  ghost predicate SameForks(t: Table, t': Table) {
    && |t'.procs| == |t.procs|
    && (forall p: nat | p < |t.procs| ::
          && ForkOf(t'.procs[p].pc) == ForkOf(t.procs[p].pc) && t'.procs[p].pc.Forking? == t.procs[p].pc.Forking?
          && t'.procs[p].state.EMBRYO? == t.procs[p].state.EMBRYO?
          && (t.procs[p].state.EMBRYO? ==> t'.procs[p].parent == t.procs[p].parent))
  }

  lemma SameForksKeeps(t: Table, t': Table)
    requires ForkInv(t) && SameForks(t, t')
    ensures ForkInv(t')
  {
    forall p: nat
      ensures ForkerOk(t', p) && EmbryoOk(t', p)
    {
      assert ForkerOk(t, p) && EmbryoOk(t, p);
    }
    forall p: nat, q: nat
      ensures ForkersApart(t', p, q)
    {
      assert ForkersApart(t, p, q);
    }
  }

  lemma ForkKeepsForker(t: Table, a: Action, t': Table, p: nat)
    requires LockInv(t) && ForkInv(t) && ParentInv(t) && ForkNext(t, a, t')
    ensures ForkerOk(t', p)
  {
    assert ForkerOk(t, a.p) && ForkerOk(t, p) && ForkersApart(t, p, a.p);
    if a.AllocProc? {
      assert ParentOk(t, a.np);
    }
  }

  lemma ForkKeepsEmbryo(t: Table, a: Action, t': Table, j: nat)
    requires LockInv(t) && ForkInv(t) && ParentInv(t) && ForkNext(t, a, t')
    ensures EmbryoOk(t', j)
  {
    assert ForkerOk(t, a.p) && EmbryoOk(t, j);
    if a.AllocProc? {
      assert ParentOk(t, a.np);
    }
  }

  lemma ForkKeepsApart(t: Table, a: Action, t': Table, p: nat, q: nat)
    requires LockInv(t) && ForkInv(t) && ForkNext(t, a, t')
    ensures ForkersApart(t', p, q)
  {
    assert ForkersApart(t, p, q) && ForkerOk(t, p) && ForkerOk(t, q);
    assert ForkerOk(t, a.p);
  }

  lemma ForkKeepsFork(t: Table, a: Action, t': Table)
    requires LockInv(t) && ForkInv(t) && ParentInv(t) && ForkNext(t, a, t')
    ensures ForkInv(t')
  {
    hide ForkNext, LockInv, ParentInv, ForkerOk, EmbryoOk, ForkersApart;
    forall p: nat
      ensures ForkerOk(t', p) && EmbryoOk(t', p)
    {
      ForkKeepsForker(t, a, t', p);
      ForkKeepsEmbryo(t, a, t', p);
    }
    forall p: nat, q: nat
      ensures ForkersApart(t', p, q)
    {
      ForkKeepsApart(t, a, t', p, q);
    }
  }

  lemma ExitSameForks(t: Table, a: Action, t': Table)
    requires LockInv(t) && ForkInv(t) && ExitNext(t, a, t')
    ensures SameForks(t, t')
  {
    if a.Reparent? {
      assert EmbryoOk(t, t.procs[a.p].pc.i);
    }
  }

  lemma WaitSameForks(t: Table, a: Action, t': Table)
    requires LockInv(t) && WaitNext(t, a, t')
    ensures SameForks(t, t')
  {
  }

  lemma SchedSameForks(t: Table, a: Action, t': Table)
    requires LockInv(t) && CpuInv(t) && (SchedNext(t, a, t') || CpuNext(t, a, t'))
    ensures SameForks(t, t')
  {
    if a.Switch? {
      assert CpuOk(t, a.c);
    }
  }

  // ---- Parents ----

  /** Nobody is born, dies, or changes parents. */
  ghost predicate SameFamily(t: Table, t': Table) {
    && |t'.procs| == |t.procs|
    && (forall j: nat | j < |t.procs| ::
          && t'.procs[j].parent == t.procs[j].parent
          && t'.procs[j].state.UNUSED? == t.procs[j].state.UNUSED?
          && Alive(t'.procs[j].state) == Alive(t.procs[j].state)
          && t'.procs[j].state.ZOMBIE? == t.procs[j].state.ZOMBIE?
          && (t'.procs[j].pc.Reparenting? ==> t'.procs[j].pc.i == 0 || t'.procs[j].pc == t.procs[j].pc)
          && (t'.procs[j].pc.Reparenting? || t'.procs[j].pc.Exiting? ==> j != INIT || t'.procs[j].pc == t.procs[j].pc))
  }

  lemma SameFamilyKeeps(t: Table, t': Table)
    requires ParentInv(t) && SameFamily(t, t')
    ensures ParentInv(t')
  {
    forall j: nat
      ensures ParentOk(t', j)
    {
      assert ParentOk(t, j);
    }
    forall p: nat, j: nat
      ensures ReparentOk(t', p, j)
    {
      assert ReparentOk(t, p, j);
    }
  }

  lemma ForkKeepsParentOf(t: Table, a: Action, t': Table, j: nat)
    requires LockInv(t) && ForkInv(t) && ParentInv(t) && ForkNext(t, a, t')
    ensures ParentOk(t', j)
  {
    assert ForkerOk(t, a.p) && ParentOk(t, j) && ProcOk(t.lock, a.p, t.procs[a.p]);
    hide LockInv;
  }

  lemma ForkKeepsParent(t: Table, a: Action, t': Table)
    requires LockInv(t) && ForkInv(t) && ParentInv(t) && ForkNext(t, a, t')
    ensures ParentInv(t')
  {
    hide ParentOk, LockInv;
    assert ForkerOk(t, a.p);
    forall j: nat
      ensures ParentOk(t', j)
    {
      ForkKeepsParentOf(t, a, t', j);
    }
    forall p: nat, j: nat
      ensures ReparentOk(t', p, j)
    {
      assert ReparentOk(t, p, j);
    }
  }

  lemma ExitKeepsParent(t: Table, a: Action, t': Table)
    requires LockInv(t) && ParentInv(t) && ExitNext(t, a, t')
    ensures ParentInv(t')
  {
    assert ReparentOk(t, a.p, a.p);
    if a.ExitLock? || a.ExitWake? {
      FamilyAtExit(t, a, t');
      SameFamilyKeeps(t, t');
    } else if a.Reparent? {
      ReparentKeepsParent(t, a.p, t');
    } else {
      forall j: nat
        ensures ParentOk(t', j)
      {
        assert ParentOk(t, j) && ReparentOk(t, a.p, j);
      }
      forall p: nat, j: nat
        ensures ReparentOk(t', p, j)
      {
        assert ReparentOk(t, p, j);
      }
    }
  }

  lemma FamilyAtExit(t: Table, a: Action, t': Table)
    requires LockInv(t) && ParentInv(t) && ExitNext(t, a, t') && (a.ExitLock? || a.ExitWake?)
    ensures SameFamily(t, t')
  {
    assert ReparentOk(t, a.p, a.p);
    hide ParentInv;
  }

  lemma ReparentKeepsParent(t: Table, p: nat, t': Table)
    requires LockInv(t) && ParentInv(t) && ExitNext(t, Reparent(p), t')
    ensures ParentInv(t')
  {
    var i := t.procs[p].pc.i;
    assert ReparentOk(t, p, p) && ParentOk(t, i);
    forall j: nat
      ensures ParentOk(t', j)
    {
      assert ParentOk(t, j);
    }
    forall q: nat, j: nat
      ensures ReparentOk(t', q, j)
    {
      assert ReparentOk(t, q, j);
      assert q < |t.procs| ==> ProcOk(t.lock, q, t.procs[q]);
    }
  }

  lemma WaitKeepsParent(t: Table, a: Action, t': Table)
    requires LockInv(t) && ParentInv(t) && WaitNext(t, a, t')
    ensures ParentInv(t')
  {
    if a.WaitReap? {
      assert ParentOk(t, t.procs[a.p].pc.i);
      hide LockInv;
      forall j: nat
        ensures ParentOk(t', j)
      {
        assert ParentOk(t, j);
      }
      forall p: nat, j: nat
        ensures ReparentOk(t', p, j)
      {
        assert ReparentOk(t, p, j);
      }
    } else {
      assert SameFamily(t, t');
      SameFamilyKeeps(t, t');
    }
  }

  lemma SchedSameFamily(t: Table, a: Action, t': Table)
    requires LockInv(t) && SchedNext(t, a, t')
    ensures SameFamily(t, t')
  {
  }

  lemma CpuSameFamily(t: Table, a: Action, t': Table)
    requires LockInv(t) && CpuInv(t) && CpuNext(t, a, t')
    ensures SameFamily(t, t')
  {
    assert CpuOk(t, a.c);
  }

  // ---- Waiting parents ----

  ghost predicate SameWaits(t: Table, t': Table) {
    && |t'.procs| == |t.procs|
    && (forall j: nat | j < |t.procs| ::
          && t'.procs[j].parent == t.procs[j].parent
          && (t'.procs[j].state.ZOMBIE? ==> t.procs[j].state.ZOMBIE?)
          && (AsleepInWait(t'.procs[j]) ==> AsleepInWait(t.procs[j]))
          && (t'.procs[j].pc.Reparenting? ==> t'.procs[j].pc == t.procs[j].pc)
          && (t'.procs[j].pc.WaitScan? ==> t'.procs[j].pc.i == 0 || t'.procs[j].pc == t.procs[j].pc))
  }

  lemma SameWaitsKeeps(t: Table, t': Table)
    requires WaitInv(t) && SameWaits(t, t')
    ensures WaitInv(t')
  {
    forall p: nat
      ensures WakerOk(t', p)
    {
      assert WakerOk(t, p);
    }
    forall p: nat, j: nat
      ensures WaiterOk(t', p, j) && ScanOk(t', p, j)
    {
      assert WaiterOk(t, p, j) && ScanOk(t, p, j);
    }
  }

  lemma ForkKeepsWait(t: Table, a: Action, t': Table)
    requires LockInv(t) && ForkInv(t) && WaitInv(t) && ForkNext(t, a, t')
    ensures WaitInv(t')
  {
    assert ForkerOk(t, a.p);
    if a.SetParent? {
      hide ForkInv;
      forall p: nat
        ensures WakerOk(t', p)
      {
        assert WakerOk(t, p);
      }
      forall p: nat, j: nat
        ensures WaiterOk(t', p, j) && ScanOk(t', p, j)
      {
        assert WaiterOk(t, p, j) && ScanOk(t, p, j);
      }
    } else {
      assert SameWaits(t, t') by { hide WaitInv, ForkInv; }
      SameWaitsKeeps(t, t');
    }
  }

  /** After wakeup1(curproc->parent) the parent is not asleep in wait. */
  lemma WakeKeepsWait(t: Table, p: nat, t': Table)
    requires LockInv(t) && WaitInv(t) && ExitNext(t, ExitWake(p), t')
    ensures WaitInv(t')
  {
    forall q: nat
      ensures WakerOk(t', q)
    {
      assert WakerOk(t, q);
      if q == p && t.procs[p].parent.value < |t.procs| {
        assert ProcOk(t.lock, t.procs[p].parent.value, t.procs[t.procs[p].parent.value]);
      }
    }
    forall q: nat, j: nat
      ensures WaiterOk(t', q, j) && ScanOk(t', q, j)
    {
      assert WaiterOk(t, q, j) && ScanOk(t, q, j);
    }
  }

  lemma ReparentKeepsWait(t: Table, p: nat, t': Table)
    requires LockInv(t) && ParentInv(t) && WaitInv(t) && ExitNext(t, Reparent(p), t')
    ensures WaitInv(t')
  {
    var i := t.procs[p].pc.i;
    assert ParentOk(t, p) && ParentOk(t, i);
    assert ProcOk(t.lock, INIT, t.procs[INIT]);
    forall q: nat
      ensures WakerOk(t', q)
    {
      assert WakerOk(t, q);
      assert q < |t.procs| ==> ProcOk(t.lock, q, t.procs[q]);
    }
    forall q: nat, j: nat
      ensures WaiterOk(t', q, j) && ScanOk(t', q, j)
    {
      assert WaiterOk(t, q, j) && ScanOk(t, q, j);
      assert q < |t.procs| ==> ProcOk(t.lock, q, t.procs[q]);
    }
  }

  lemma ZombieKeepsWait(t: Table, p: nat, t': Table)
    requires LockInv(t) && WaitInv(t) && ExitNext(t, ExitZombie(p), t')
    ensures WaitInv(t')
  {
    assert WakerOk(t, p);
    forall q: nat
      ensures WakerOk(t', q)
    {
      assert WakerOk(t, q);
    }
    forall q: nat, j: nat
      ensures WaiterOk(t', q, j) && ScanOk(t', q, j)
    {
      assert WaiterOk(t, q, j) && ScanOk(t, q, j);
      assert q < |t.procs| ==> ProcOk(t.lock, q, t.procs[q]);
    }
  }

  lemma ExitKeepsWait(t: Table, a: Action, t': Table)
    requires LockInv(t) && ParentInv(t) && WaitInv(t) && ExitNext(t, a, t')
    ensures WaitInv(t')
  {
    match a
    case ExitWake(p) => WakeKeepsWait(t, p, t');
    case Reparent(p) => ReparentKeepsWait(t, p, t');
    case ExitZombie(p) => ZombieKeepsWait(t, p, t');
    case ExitLock(p) =>
      assert SameWaits(t, t');
      SameWaitsKeeps(t, t');
  }

  lemma WaitKeepsWait(t: Table, a: Action, t': Table)
    requires LockInv(t) && WaitInv(t) && WaitNext(t, a, t')
    ensures WaitInv(t')
  {
    forall q: nat
      ensures WakerOk(t', q)
    {
      assert WakerOk(t, q);
      assert q < |t.procs| ==> ProcOk(t.lock, q, t.procs[q]);
    }
    forall q: nat, j: nat
      ensures WaiterOk(t', q, j) && ScanOk(t', q, j)
    {
      assert WaiterOk(t, q, j) && ScanOk(t, q, j);
    }
  }

  lemma SchedKeepsWait(t: Table, a: Action, t': Table)
    requires LockInv(t) && WaitInv(t) && (SchedNext(t, a, t') || CpuNext(t, a, t'))
    ensures WaitInv(t')
  {
    assert SameWaits(t, t') by { hide WaitInv; }
    SameWaitsKeeps(t, t');
  }

  // ---- Every run ----

  lemma InvStep(t: Table, a: Action, t': Table)
    requires Inv(t) && Next(t, a, t')
    ensures Inv(t')
  {
    hide LockInv, CpuInv, ForkInv, ParentInv, WaitInv, ForkNext, ExitNext, WaitNext, SchedNext, CpuNext, SameOnCpu,
         SameForks, SameFamily;
    if ForkNext(t, a, t') {
      ForkKeepsLock(t, a, t');
      ForkStaysOnCpu(t, a, t');
      SameOnCpuKeeps(t, t');
      ForkKeepsFork(t, a, t');
      ForkKeepsParent(t, a, t');
      ForkKeepsWait(t, a, t');
    } else if ExitNext(t, a, t') {
      ExitKeepsLock(t, a, t');
      ExitStaysOnCpu(t, a, t');
      SameOnCpuKeeps(t, t');
      ExitSameForks(t, a, t');
      SameForksKeeps(t, t');
      ExitKeepsParent(t, a, t');
      ExitKeepsWait(t, a, t');
    } else if WaitNext(t, a, t') {
      WaitKeepsLock(t, a, t');
      WaitStaysOnCpu(t, a, t');
      SameOnCpuKeeps(t, t');
      WaitSameForks(t, a, t');
      SameForksKeeps(t, t');
      WaitKeepsParent(t, a, t');
      WaitKeepsWait(t, a, t');
    } else {
      if SchedNext(t, a, t') {
        SchedKeepsLock(t, a, t');
        SchedKeepsCpu(t, a, t');
        SchedSameFamily(t, a, t');
      } else {
        CpuKeepsLock(t, a, t');
        CpuKeepsCpu(t, a, t');
        CpuSameFamily(t, a, t');
      }
      SchedSameForks(t, a, t');
      SameForksKeeps(t, t');
      SameFamilyKeeps(t, t');
      SchedKeepsWait(t, a, t');
    }
  }

  lemma InitInv(t: Table)
    requires Init(t)
    ensures Inv(t)
  {
  }

  lemma {:induction false} RunInv(tables: seq<Table>, actions: seq<Action>, k: nat)
    requires IsRun(tables, actions) && k < |tables|
    ensures Inv(tables[k])
  {
    hide Inv, Next, Init;
    if k == 0 {
      InitInv(tables[0]);
    } else {
      RunInv(tables, actions, k - 1);
      InvStep(tables[k - 1], actions[k - 1], tables[k]);
    }
  }

  /** Whenever ptable.lock is free, the RUNNING processes are exactly those of the CPUs' c->proc, each on one CPU. */
  lemma RunningMatchesCpus(tables: seq<Table>, actions: seq<Action>, k: nat)
    requires IsRun(tables, actions) && k < |tables| && tables[k].lock.Nobody?
    ensures var t := tables[k];
            && (forall c: nat | c < |t.cpus| :: t.cpus[c].Idle? || t.cpus[c].Running?)
            && (forall c: nat | c < |t.cpus| && t.cpus[c].Running? ::
               t.cpus[c].p < |t.procs| && t.procs[t.cpus[c].p].state.RUNNING?)
            && (forall p: nat | p < |t.procs| && t.procs[p].state.RUNNING? ::
               exists c: nat :: c < |t.cpus| && t.cpus[c] == Running(p))
            && (forall c: nat, d: nat | c < d < |t.cpus| && t.cpus[c].Running? && t.cpus[d].Running? ::
               t.cpus[c].p != t.cpus[d].p)
  {
    RunInv(tables, actions, k);
    var t := tables[k];
    forall c: nat | c < |t.cpus|
      ensures t.cpus[c].Idle? || (t.cpus[c].Running? && t.cpus[c].p < |t.procs| && t.procs[t.cpus[c].p].state.RUNNING?)
    {
      assert CpuOk(t, c);
      if t.cpus[c].Running? {
        assert ProcOk(t.lock, t.cpus[c].p, t.procs[t.cpus[c].p]);
      }
    }
    forall p: nat | p < |t.procs| && t.procs[p].state.RUNNING?
      ensures exists c: nat :: c < |t.cpus| && t.cpus[c] == Running(p)
    {
      assert HasCpu(t, p) && ProcOk(t.lock, p, t.procs[p]);
    }
    forall c: nat, d: nat | c < d < |t.cpus| && t.cpus[c].Running? && t.cpus[d].Running?
      ensures t.cpus[c].p != t.cpus[d].p
    {
      assert CpusApart(t, c, d);
    }
  }

  /** Every live process but init has a live parent, and nobody sleeps in wait over a ZOMBIE child. */
  lemma FamiliesSound(tables: seq<Table>, actions: seq<Action>, k: nat, p: nat, j: nat)
    requires IsRun(tables, actions) && k < |tables| && p < |tables[k].procs| && j < |tables[k].procs|
    ensures var t := tables[k];
            && (Alive(t.procs[j].state) && j != INIT ==>
                  t.procs[j].parent.Some? && t.procs[j].parent.value < |t.procs|
                      && Alive(t.procs[t.procs[j].parent.value].state))
            && (AsleepInWait(t.procs[p]) && t.procs[j].parent == Some(p) ==> !t.procs[j].state.ZOMBIE?)
  {
    RunInv(tables, actions, k);
    assert ParentOk(tables[k], j) && WaiterOk(tables[k], p, j);
  }

  /** wait gives up for lack of children only when no process has the caller as its parent. */
  lemma WaitFailsRightly(tables: seq<Table>, actions: seq<Action>, k: nat, p: nat)
    requires IsRun(tables, actions) && k < |actions| && actions[k] == WaitFail(p)
    requires p < |tables[k].procs| && !tables[k].procs[p].killed
    ensures forall j: nat | j < |tables[k].procs| :: tables[k].procs[j].parent != Some(p)
  {
    RunInv(tables, actions, k);
    var t := tables[k];
    assert Next(t, actions[k], tables[k + 1]);
    forall j: nat | j < |t.procs|
      ensures t.procs[j].parent != Some(p)
    {
      assert ScanOk(t, p, j);
    }
  }

  // ---- kill ----

  /** A killed process does not sleep in wait. */
  ghost predicate KilledAwake(t: Table) {
    forall p: nat | p < |t.procs| :: !(t.procs[p].killed && AsleepInWait(t.procs[p]))
  }

  /** A step takes a killed process's mark only by giving its slot back. */
  ghost predicate MarkKept(q: Proc, q': Proc) {
    (q.killed ==> q'.killed || q'.state.UNUSED?) && (q'.killed && AsleepInWait(q') ==> q.killed && AsleepInWait(q))
  }

  lemma ForkKeepsMark(t: Table, a: Action, t': Table, p: nat)
    requires ForkNext(t, a, t') && p < |t.procs| && ProcOk(t.lock, p, t.procs[p])
    ensures |t'.procs| == |t.procs| && MarkKept(t.procs[p], t'.procs[p])
  {
  }

  lemma ExitKeepsMark(t: Table, a: Action, t': Table, p: nat)
    requires ExitNext(t, a, t') && p < |t.procs| && ProcOk(t.lock, p, t.procs[p])
    ensures |t'.procs| == |t.procs| && MarkKept(t.procs[p], t'.procs[p])
  {
  }

  lemma WaitKeepsMark(t: Table, a: Action, t': Table, p: nat)
    requires WaitNext(t, a, t') && p < |t.procs| && ProcOk(t.lock, p, t.procs[p])
    ensures |t'.procs| == |t.procs| && MarkKept(t.procs[p], t'.procs[p])
  {
  }

  lemma SchedKeepsMark(t: Table, a: Action, t': Table, p: nat)
    requires SchedNext(t, a, t') && p < |t.procs| && ProcOk(t.lock, p, t.procs[p])
    ensures |t'.procs| == |t.procs| && MarkKept(t.procs[p], t'.procs[p])
  {
  }

  lemma CpuKeepsMark(t: Table, a: Action, t': Table, p: nat)
    requires CpuNext(t, a, t') && p < |t.procs| && ProcOk(t.lock, p, t.procs[p])
    ensures |t'.procs| == |t.procs| && MarkKept(t.procs[p], t'.procs[p])
  {
  }

  lemma KillStep(t: Table, a: Action, t': Table, p: nat)
    requires Next(t, a, t') && LockInv(t) && p < |t.procs|
    ensures |t'.procs| == |t.procs| && MarkKept(t.procs[p], t'.procs[p])
  {
    hide ForkNext, ExitNext, WaitNext, SchedNext, CpuNext, MarkKept;
    assert ProcOk(t.lock, p, t.procs[p]);
    if ForkNext(t, a, t') {
      ForkKeepsMark(t, a, t', p);
    } else if ExitNext(t, a, t') {
      ExitKeepsMark(t, a, t', p);
    } else if WaitNext(t, a, t') {
      WaitKeepsMark(t, a, t', p);
    } else if SchedNext(t, a, t') {
      SchedKeepsMark(t, a, t', p);
    } else {
      CpuKeepsMark(t, a, t', p);
    }
  }

  lemma KilledStep(t: Table, a: Action, t': Table)
    requires Next(t, a, t') && LockInv(t) && KilledAwake(t) && |t.procs| > 0
    ensures KilledAwake(t') && |t'.procs| == |t.procs|
  {
    hide Next, LockInv;
    KillStep(t, a, t', INIT);
    forall p: nat | p < |t'.procs|
      ensures !(t'.procs[p].killed && AsleepInWait(t'.procs[p]))
    {
      KillStep(t, a, t', p);
    }
  }

  /** In every reachable state, no killed process sleeps in wait. */
  lemma {:induction false} KilledNeverWaits(tables: seq<Table>, actions: seq<Action>, k: nat)
    requires IsRun(tables, actions) && k < |tables|
    ensures KilledAwake(tables[k]) && |tables[k].procs| == |tables[0].procs| > 0
  {
    hide Next, LockInv, CpuInv, ForkInv, ParentInv, WaitInv;
    if k > 0 {
      KilledNeverWaits(tables, actions, k - 1);
      RunInv(tables, actions, k - 1);
      KilledStep(tables[k - 1], actions[k - 1], tables[k]);
    }
  }

  /** kill wakes its target, which stays marked and out of wait's sleep until its slot is given back. */
  lemma {:induction false} KillLasts(tables: seq<Table>, actions: seq<Action>, i: nat, j: nat, q: nat)
    requires IsRun(tables, actions) && i < j < |tables| && actions[i] == Kill(q) && q < |tables[0].procs|
    requires forall k | i < k <= j && q < |tables[k].procs| :: !tables[k].procs[q].state.UNUSED?
    ensures q < |tables[j].procs| && tables[j].procs[q].killed && !AsleepInWait(tables[j].procs[q])
    ensures j == i + 1 ==> !tables[j].procs[q].state.SLEEPING?
    decreases j
  {
    hide Next, LockInv, CpuInv, ForkInv, ParentInv, WaitInv, Init;
    KilledNeverWaits(tables, actions, j);
    KilledNeverWaits(tables, actions, j - 1);
    if j == i + 1 {
      Killed(tables[i], q, tables[j]);
    } else {
      KillLasts(tables, actions, i, j - 1, q);
      RunInv(tables, actions, j - 1);
      KillStep(tables[j - 1], actions[j - 1], tables[j], q);
    }
  }

  lemma Killed(t: Table, q: nat, t': Table)
    requires Next(t, Kill(q), t')
    ensures q < |t'.procs| && t'.procs[q].killed && !t'.procs[q].state.SLEEPING?
  {
  }
}
