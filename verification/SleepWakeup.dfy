/**
 sleep and wakeup of proc.c as a protocol between any number of processes on any number of
 CPUs, with one client lock `lk` and the process-table lock, both taken by the steps of the
 code. A client is a resource protected by `lk`, a predicate saying on which channels its
 state makes callers sleep, and the changes a process may make while it holds `lk`.

 `pend` records the channels whose waiters the lock holder has let go but not yet woken. The
 rule a client must follow is that `pend` is empty when it releases `lk` or goes to sleep.
 */
module SleepWakeup {
  import opened Basics

  /** A channel is an address. */
  type Chan = nat

  datatype RunState = SLEEPING | RUNNABLE | RUNNING

  datatype Pc =
    | Outside                  // does not hold lk
    | Inside                   // holds lk
    | WakeSpin(c: Chan)           // wakeup(c): waiting for ptable.lock
    | WakeScan(c: Chan, i: nat)   // wakeup1(c): next table entry is i
    | SleepSpin(c: Chan)          // sleep(c): waiting for ptable.lock
    | SleepRelease(c: Chan)       // sleep(c): about to release lk
    | SleepMark(c: Chan)          // sleep(c): about to set chan and state
    | Parked                   // inside sched, called by sleep
    | Resumed                  // back from sched, holding ptable.lock
    | Reacquire                // sleep: waiting for lk
    | Yielded                  // inside sched, called by yield
    | YieldBack                // back from sched in yield, holding ptable.lock

  datatype Proc = Proc(state: RunState, chan: Option<Chan>, pc: Pc)

  datatype State<R> = State(
    procs: seq<Proc>, cpus: seq<Option<nat>>, ptable: Holder, lk: Option<nat>, res: R, pend: iset<Chan>)

  datatype Client<!R> = Client(blocked: (R, Chan) -> bool, step: (nat, R, R) -> bool)

  datatype Action<R> =
    | Acquire(p: nat) | Release(p: nat) | Modify(p: nat, r: R)
    | Wakeup(p: nat, c: Chan) | WakeLock(p: nat) | WakeOne(p: nat) | WakeUnlock(p: nat)
    | Sleep(p: nat, c: Chan) | SleepLock(p: nat) | SleepDrop(p: nat) | SleepPark(p: nat, cpu: nat)
    | ResumeUnlock(p: nat) | Yield(p: nat, cpu: nat) | YieldUnlock(p: nat)
    | CpuLock(cpu: nat) | Dispatch(cpu: nat, q: nat) | CpuUnlock(cpu: nat) | Kill(q: nat)

  /** Process p runs with program counter pc. */
  ghost predicate At<R>(s: State<R>, p: nat, pc: Pc) {
    p < |s.procs| && s.procs[p].state.RUNNING? && s.procs[p].pc == pc
  }

  ghost function Goto<R>(s: State<R>, p: nat, pc: Pc): State<R>
    requires p < |s.procs|
  {
    s.(procs := s.procs[p := s.procs[p].(pc := pc)])
  }

  ghost predicate OnCpu<R>(s: State<R>, p: nat, cpu: nat) {
    cpu < |s.cpus| && s.cpus[cpu] == Some(p)
  }

  ghost function Leave<R>(s: State<R>, p: nat, cpu: nat, q: Proc): State<R>
    requires p < |s.procs| && cpu < |s.cpus|
  {
    s.(procs := s.procs[p := q], cpus := s.cpus[cpu := None], ptable := ByCpu(cpu))
  }

  ghost function Woken(q: Proc, c: Chan): Proc {
    if q.state.SLEEPING? && q.chan == Some(c) then q.(state := RUNNABLE) else q
  }

  /** Steps of a process around lk. */
  ghost predicate LockNext<R>(cl: Client<R>, s: State<R>, a: Action<R>, s': State<R>) {
    match a
    case Acquire(p) =>
      (At(s, p, Outside) || At(s, p, Reacquire)) && s.lk.None? && s' == Goto(s, p, Inside).(lk := Some(p))
    case Release(p) =>
      At(s, p, Inside) && s.pend == iset{} && s' == Goto(s, p, Outside).(lk := None)
    case Modify(p, r) =>
      At(s, p, Inside) && cl.step(p, s.res, r) &&
      s' == s.(res := r, pend := iset c | c in s.pend || (cl.blocked(s.res, c) && !cl.blocked(r, c)))
    case _ => false
  }

  /** Steps of wakeup. */
  ghost predicate WakeNext<R>(s: State<R>, a: Action<R>, s': State<R>) {
    match a
    case Wakeup(p, c) =>
      At(s, p, Inside) && s' == Goto(s, p, WakeSpin(c))
    case WakeLock(p) =>
      p < |s.procs| && s.procs[p].pc.WakeSpin? && s.procs[p].state.RUNNING? && s.ptable.Nobody? &&
      s' == Goto(s, p, WakeScan(s.procs[p].pc.c, 0)).(ptable := ByProc(p))
    case WakeOne(p) =>
      p < |s.procs| && s.procs[p].pc.WakeScan? && s.procs[p].state.RUNNING? && s.procs[p].pc.i < |s.procs| &&
      var c, i := s.procs[p].pc.c, s.procs[p].pc.i;
      s' == Goto(s.(procs := s.procs[i := Woken(s.procs[i], c)]), p, WakeScan(c, i + 1))
    case WakeUnlock(p) =>
      p < |s.procs| && s.procs[p].pc.WakeScan? && s.procs[p].state.RUNNING? && s.procs[p].pc.i == |s.procs| &&
      s' == Goto(s, p, Inside).(ptable := Nobody, pend := s.pend - iset{s.procs[p].pc.c})
    case _ => false
  }

  /** Steps of sleep. */
  ghost predicate SleepNext<R>(cl: Client<R>, s: State<R>, a: Action<R>, s': State<R>) {
    match a
    case Sleep(p, c) =>
      At(s, p, Inside) && cl.blocked(s.res, c) && s.pend == iset{} && s' == Goto(s, p, SleepSpin(c))
    case SleepLock(p) =>
      p < |s.procs| && s.procs[p].pc.SleepSpin? && s.procs[p].state.RUNNING? && s.ptable.Nobody? &&
      s' == Goto(s, p, SleepRelease(s.procs[p].pc.c)).(ptable := ByProc(p))
    case SleepDrop(p) =>
      p < |s.procs| && s.procs[p].pc.SleepRelease? && s.procs[p].state.RUNNING? &&
      s' == Goto(s, p, SleepMark(s.procs[p].pc.c)).(lk := None)
    case SleepPark(p, cpu) =>
      p < |s.procs| && s.procs[p].pc.SleepMark? && OnCpu(s, p, cpu) && s.procs[p].state.RUNNING? &&
      s' == Leave(s, p, cpu, Proc(SLEEPING, Some(s.procs[p].pc.c), Parked))
    case ResumeUnlock(p) =>
      At(s, p, Resumed) &&
      s' == s.(procs := s.procs[p := s.procs[p].(chan := None, pc := Reacquire)], ptable := Nobody)
    case _ => false
  }

  /** Steps of yield, kill and the scheduler. */
  ghost predicate SchedNext<R>(s: State<R>, a: Action<R>, s': State<R>) {
    match a
    case Yield(p, cpu) =>
      At(s, p, Outside) && OnCpu(s, p, cpu) && s.ptable.Nobody? &&
      s' == Leave(s, p, cpu, s.procs[p].(state := RUNNABLE, pc := Yielded))
    case YieldUnlock(p) =>
      At(s, p, YieldBack) && s' == Goto(s, p, Outside).(ptable := Nobody)
    case CpuLock(cpu) =>
      cpu < |s.cpus| && s.cpus[cpu].None? && s.ptable.Nobody? && s' == s.(ptable := ByCpu(cpu))
    case Dispatch(cpu, q) =>
      cpu < |s.cpus| && s.ptable == ByCpu(cpu) && q < |s.procs| && s.procs[q].state.RUNNABLE? &&
      s' == s.(procs := s.procs[q := Dispatched(s.procs[q])], cpus := s.cpus[cpu := Some(q)], ptable := ByProc(q))
    case CpuUnlock(cpu) =>
      s.ptable == ByCpu(cpu) && s' == s.(ptable := Nobody)
    case Kill(q) =>
      q < |s.procs| && s.ptable.Nobody? &&
      s' == s.(procs := s.procs[q := if s.procs[q].state.SLEEPING? then s.procs[q].(state := RUNNABLE) else s.procs[q]])
    case _ => false
  }

  ghost function Dispatched(q: Proc): Proc {
    q.(state := RUNNING, pc := if q.pc.Yielded? then YieldBack else Resumed)
  }

  /** One step of the machine; `cl` is the client. */
  ghost predicate Next<R>(cl: Client<R>, s: State<R>, a: Action<R>, s': State<R>) {
    LockNext(cl, s, a, s') || WakeNext(s, a, s') || SleepNext(cl, s, a, s') || SchedNext(s, a, s')
  }

  /** All processes runnable in user space, no lock held. */
  ghost predicate Init<R>(s: State<R>) {
    && s.ptable.Nobody? && s.lk.None? && s.pend == iset{}
    && (forall c | 0 <= c < |s.cpus| :: s.cpus[c].None?)
    && (forall p | 0 <= p < |s.procs| :: s.procs[p] == Proc(RUNNABLE, None, Yielded))
  }

  ghost predicate IsRun<R>(cl: Client<R>, states: seq<State<R>>, actions: seq<Action<R>>) {
    && |states| == |actions| + 1 && Init(states[0])
    && forall i | 0 <= i < |actions| :: Next(cl, states[i], actions[i], states[i + 1])
  }

  // ---- The invariant ----

  predicate HoldsLk(pc: Pc) {
    pc.Inside? || pc.WakeSpin? || pc.WakeScan? || pc.SleepSpin? || pc.SleepRelease?
  }

  predicate HoldsPtable(pc: Pc) {
    pc.WakeScan? || pc.SleepRelease? || pc.SleepMark? || pc.Resumed? || pc.YieldBack?
  }

  /** Which locks a process holds follows from where it stands. */
  ghost predicate LocksOk(lk: Option<nat>, ptable: Holder, p: nat, q: Proc) {
    && (lk == Some(p) <==> HoldsLk(q.pc))
    && (ptable == ByProc(p) <==> HoldsPtable(q.pc))
    && (q.state.RUNNING? <==> !q.pc.Parked? && !q.pc.Yielded?)
    && (q.state.SLEEPING? ==> q.pc.Parked? && q.chan.Some?)
  }

  ghost predicate LocksInv<R>(s: State<R>) {
    && (forall p: nat | p < |s.procs| :: LocksOk(s.lk, s.ptable, p, s.procs[p]))
    && (s.lk.Some? ==> s.lk.value < |s.procs|)
    && (s.ptable.ByProc? ==> s.ptable.p < |s.procs|)
  }

  /** The lock holder owes wakeups only while it can still pay them. */
  ghost predicate PendInv<R>(cl: Client<R>, s: State<R>) {
    && (s.lk.None? ==> s.pend == iset{})
    && (forall p: nat | p < |s.procs| && (s.procs[p].pc.SleepSpin? || s.procs[p].pc.SleepRelease?) ::
          s.pend == iset{} && cl.blocked(s.res, s.procs[p].pc.c))
  }

  /** Nobody sleeps, or is about to, on a channel that has been let go, unless its wakeup is still owed. */
  ghost predicate SleepInv<R>(cl: Client<R>, s: State<R>) {
    && (forall p: nat | p < |s.procs| && s.procs[p].pc.SleepMark? ::
          cl.blocked(s.res, s.procs[p].pc.c) || s.procs[p].pc.c in s.pend)
    && (forall p: nat | p < |s.procs| && s.procs[p].state.SLEEPING? && s.procs[p].chan.Some? ::
          cl.blocked(s.res, s.procs[p].chan.value) || StillOwed(s, p, s.procs[p].chan.value))
  }

  ghost predicate StillOwed<R>(s: State<R>, p: nat, c: Chan) {
    && c in s.pend
    && forall q: nat, i: nat | q < |s.procs| && s.procs[q].pc == WakeScan(c, i) :: i <= p
  }

  ghost predicate Inv<R>(cl: Client<R>, s: State<R>) {
    LocksInv(s) && PendInv(cl, s) && SleepInv(cl, s)
  }

  lemma LockStep<R>(cl: Client<R>, s: State<R>, a: Action<R>, s': State<R>)
    requires Inv(cl, s) && LockNext(cl, s, a, s')
    ensures Inv(cl, s')
  {
  }

  lemma WakeLocks<R>(cl: Client<R>, s: State<R>, a: Action<R>, s': State<R>)
    requires LocksInv(s) && WakeNext(s, a, s')
    ensures LocksInv(s')
  {
  }

  lemma WakePend<R>(cl: Client<R>, s: State<R>, a: Action<R>, s': State<R>)
    requires LocksInv(s) && PendInv(cl, s) && WakeNext(s, a, s')
    ensures PendInv(cl, s')
  {
  }

  lemma WakeOwed<R>(cl: Client<R>, s: State<R>, a: Action<R>, s': State<R>)
    requires Inv(cl, s) && WakeNext(s, a, s')
    ensures SleepInv(cl, s')
  {
  }

  lemma SleepLocks<R>(cl: Client<R>, s: State<R>, a: Action<R>, s': State<R>)
    requires LocksInv(s) && SleepNext(cl, s, a, s')
    ensures LocksInv(s')
  {
  }

  lemma SleepPend<R>(cl: Client<R>, s: State<R>, a: Action<R>, s': State<R>)
    requires LocksInv(s) && PendInv(cl, s) && SleepNext(cl, s, a, s')
    ensures PendInv(cl, s')
  {
  }

  lemma SleepOwed<R>(cl: Client<R>, s: State<R>, a: Action<R>, s': State<R>)
    requires Inv(cl, s) && SleepNext(cl, s, a, s')
    ensures SleepInv(cl, s')
  {
  }

  lemma SchedLocks<R>(cl: Client<R>, s: State<R>, a: Action<R>, s': State<R>)
    requires LocksInv(s) && SchedNext(s, a, s')
    ensures LocksInv(s')
  {
  }

  lemma SchedPend<R>(cl: Client<R>, s: State<R>, a: Action<R>, s': State<R>)
    requires LocksInv(s) && PendInv(cl, s) && SchedNext(s, a, s')
    ensures PendInv(cl, s')
  {
  }

  lemma SchedOwed<R>(cl: Client<R>, s: State<R>, a: Action<R>, s': State<R>)
    requires Inv(cl, s) && SchedNext(s, a, s')
    ensures SleepInv(cl, s')
  {
  }

  lemma InvStep<R>(cl: Client<R>, s: State<R>, a: Action<R>, s': State<R>)
    requires Inv(cl, s) && Next(cl, s, a, s')
    ensures Inv(cl, s')
  {
    hide LockNext, WakeNext, SleepNext, SchedNext, LocksInv, PendInv, SleepInv;
    if LockNext(cl, s, a, s') {
      LockStep(cl, s, a, s');
    } else if WakeNext(s, a, s') {
      WakeLocks(cl, s, a, s');
      WakePend(cl, s, a, s');
      WakeOwed(cl, s, a, s');
    } else if SleepNext(cl, s, a, s') {
      SleepLocks(cl, s, a, s');
      SleepPend(cl, s, a, s');
      SleepOwed(cl, s, a, s');
    } else {
      SchedLocks(cl, s, a, s');
      SchedPend(cl, s, a, s');
      SchedOwed(cl, s, a, s');
    }
  }

  lemma InitInv<R>(cl: Client<R>, s: State<R>)
    requires Init(s)
    ensures Inv(cl, s)
  {
  }

  lemma {:induction false} RunInv<R>(cl: Client<R>, states: seq<State<R>>, actions: seq<Action<R>>, k: nat)
    requires IsRun(cl, states, actions) && k < |states|
    ensures Inv(cl, states[k])
  {
    hide Inv, Next, Init;
    if k == 0 {
      InitInv(cl, states[0]);
    } else {
      RunInv(cl, states, actions, k - 1);
      InvStep(cl, states[k - 1], actions[k - 1], states[k]);
    }
  }

  /** p sleeps on c although the client's state no longer makes callers sleep there. */
  ghost predicate LeftAsleep<R>(cl: Client<R>, s: State<R>, p: nat, c: Chan) {
    p < |s.procs| && s.procs[p].state.SLEEPING? && s.procs[p].chan == Some(c) && !cl.blocked(s.res, c)
  }

  /**
   No wakeup is lost: in every reachable state a process left asleep is one that the process
   holding lk has still to wake, so with lk free every sleeper has a reason to sleep.
   */
  lemma NoLostWakeup<R>(cl: Client<R>, states: seq<State<R>>, actions: seq<Action<R>>, k: nat, p: nat, c: Chan)
    requires IsRun(cl, states, actions) && k < |states| && LeftAsleep(cl, states[k], p, c)
    ensures var s := states[k];
            && s.lk.Some? && s.lk.value < |s.procs| && c in s.pend
            && (s.procs[s.lk.value].pc.Inside? || s.procs[s.lk.value].pc.WakeSpin? || s.procs[s.lk.value].pc.WakeScan?)
            && (forall i: nat | s.procs[s.lk.value].pc == WakeScan(c, i) :: i <= p)
  {
    RunInv(cl, states, actions, k);
    var s := states[k];
    assert LocksOk(s.lk, s.ptable, s.lk.value, s.procs[s.lk.value]);
  }

  /** Whatever every allowed change of the resource keeps holds in every reachable state. */
  lemma {:induction false} ClientInv<R(!new)>(cl: Client<R>, keep: R -> bool, states: seq<State<R>>,
                                actions: seq<Action<R>>, k: nat)
    requires IsRun(cl, states, actions) && k < |states| && keep(states[0].res)
    requires forall p, r, r' :: keep(r) && cl.step(p, r, r') ==> keep(r')
    ensures keep(states[k].res)
  {
    hide WakeNext, SleepNext, SchedNext, Init;
    if k > 0 {
      ClientInv(cl, keep, states, actions, k - 1);
      OnlyModify(cl, states[k - 1], actions[k - 1], states[k]);
    }
  }

  lemma OnlyModify<R>(cl: Client<R>, s: State<R>, a: Action<R>, s': State<R>)
    requires Next(cl, s, a, s')
    ensures s'.res == s.res || (a.Modify? && cl.step(a.p, s.res, s'.res))
  {
  }
}
