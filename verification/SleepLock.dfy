/**
 sleeplock.c: a lock whose waiters sleep, as a client of sleep and wakeup. Buffers and inodes are
 protected by such locks.
 */
module SleepLock {
  import opened Basics
  import opened SleepWakeup

  /** struct sleeplock without its spin lock, and the processes between acquiresleep and releasesleep. */
  datatype Res = Res(locked: bool, pid: nat, inside: set<nat>)

  class Lock {
    var locked: bool
    var pid: nat

    constructor ()
      ensures !locked && pid == 0
    {
      locked, pid := false, 0;
    }

    /** acquiresleep after acquire or after a return of sleep; `waits` means it must sleep. */
    method Acquiresleep(p: nat) returns (waits: bool)
      modifies this
      ensures waits == old(locked) && locked && pid == if waits then old(pid) else p
      ensures forall inside: set<nat> ::
              !waits ==> HoldStep(p, Res(old(locked), old(pid), inside), Res(locked, pid, inside + {p}))
    {
      if locked {
        return true;
      }
      locked := true;
      pid := p;
      return false;
    }

    /** releasesleep between acquire and wakeup. */
    method Releasesleep(p: nat)
      modifies this
      ensures !locked && pid == 0
      ensures forall inside: set<nat> | p in inside ::
              HoldStep(p, Res(old(locked), old(pid), inside), Res(locked, pid, inside - {p}))
    {
      locked := false;
      pid := 0;
    }
  }

  /** A process takes the lock when it is free, or gives back a lock it has taken. */
  predicate HoldStep(p: nat, r: Res, r': Res) {
    || (!r.locked && r' == Res(true, p, r.inside + {p}))
    || (p in r.inside && r' == Res(false, 0, r.inside - {p}))
  }

  function LockClient(addr: Chan): Client<Res> {
    Client((r: Res, c: Chan) => c != addr || r.locked, HoldStep)
  }

  predicate Exact(r: Res) {
    r.inside == if r.locked then {r.pid} else {}
  }

  /** Mutual exclusion: over every interleaving at most one process is inside, and `pid` names it. */
  lemma MutualExclusion(addr: Chan, states: seq<State<Res>>, actions: seq<Action<Res>>, k: nat)
    requires IsRun(LockClient(addr), states, actions) && k < |states| && states[0].res == Res(false, 0, {})
    ensures Exact(states[k].res) && forall p, q | p in states[k].res.inside && q in states[k].res.inside :: p == q
  {
    assert forall p, r, r' :: Exact(r) && LockClient(addr).step(p, r, r') ==> Exact(r');
    ClientInv(LockClient(addr), Exact, states, actions, k);
  }

  /** With the spin lock free, a process asleep on the lock has a holder to wait for. */
  lemma SleepersHaveHolder(addr: Chan, states: seq<State<Res>>, actions: seq<Action<Res>>, k: nat, p: nat)
    requires IsRun(LockClient(addr), states, actions) && k < |states| && states[0].res == Res(false, 0, {})
             && states[k].lk.None?
    requires p < |states[k].procs| && states[k].procs[p].state.SLEEPING? && states[k].procs[p].chan == Some(addr)
    ensures states[k].res.locked && states[k].res.inside == {states[k].res.pid}
  {
    MutualExclusion(addr, states, actions, k);
    if LeftAsleep(LockClient(addr), states[k], p, addr) {
      NoLostWakeup(LockClient(addr), states, actions, k, p, addr);
    }
  }
}
