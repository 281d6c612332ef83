/**
 semaphores.c: the counting semaphore kept in a shared page, as a client of sleep and wakeup.
 All users sleep on the one address the semaphore has in every address space.
 */
module Semaphore {
  import opened Basics
  import opened SleepWakeup

  /** sem_t without its spin lock. */
  datatype Sem = Sem(maxval: int, value: int, isactive: bool, locked: bool)

  function Fresh(value: int): Sem {
    Sem(value, value, false, false)
  }

  function Up(s: Sem): Sem {
    Sem(s.maxval, s.value + 1, if s.value + 1 == s.maxval then false else s.isactive, false)
  }

  function Down(s: Sem): Sem {
    Sem(s.maxval, s.value - 1, true, s.value == 1 || s.locked)
  }

  class SemT {
    var maxval: int
    var value: int
    var isactive: bool
    var locked: bool

    function State(): Sem
      reads this
    {
      Sem(maxval, value, isactive, locked)
    }

    /** sem_init: nobody holds the semaphore, and its flags are right exactly for a value of at least 1. */
    constructor (value: int)
      ensures State() == Fresh(value) && (Exact(Res(State(), 0)) <==> value >= 1)
    {
      maxval, this.value, isactive, locked := value, value, false, false;
    }

    /** sem_up between acquire and wakeup. */
    method SemUp()
      modifies this
      ensures State() == Up(old(State()))
    {
      value := value + 1;
      if value == maxval {
        isactive := false;
      }
      locked := false;
    }

    /** sem_down between acquire and the first call of sleep or release; `waits` means it must sleep. */
    method SemDownFirst() returns (waits: bool)
      modifies this
      ensures waits == old(locked)
      ensures State() == if waits then old(State()) else Down(old(State()))
    {
      if !locked {
        if value == 1 {
          locked := true;
        }
        value := value - 1;
        isactive := true;
        return false;
      }
      return true;
    }

    /** sem_down after a return of sleep. */
    method SemDownAgain() returns (waits: bool)
      modifies this
      ensures waits == old(locked)
      ensures State() == if waits then old(State()) else Down(old(State()))
    {
      if locked {
        return true;
      }
      if value == 1 {
        locked := true;
      } else {
        locked := false;
      }
      value := value - 1;
      isactive := true;
      return false;
    }

    /** isActive: on a semaphore whose flags are right, whether somebody holds it. */
    method IsActive() returns (r: int)
      ensures r == 1 <==> isactive
      ensures forall h: nat | Exact(Res(State(), h)) :: r == if h > 0 then 1 else 0
    {
      r := if isactive then 1 else 0;
    }
  }

  /** The semaphore and how many downs have not been matched by an up. */
  datatype Res = Res(sem: Sem, holders: nat)

  /** A down that does not wait, or an up that matches an earlier down. */
  predicate SemStep(p: nat, r: Res, r': Res) {
    || (!r.sem.locked && r' == Res(Down(r.sem), r.holders + 1))
    || (r.holders > 0 && r' == Res(Up(r.sem), r.holders - 1))
  }

  /** sem_down sleeps on the semaphore's address while it is locked; nobody uses another channel. */
  function SemClient(addr: Chan): Client<Res> {
    Client((r: Res, c: Chan) => c != addr || r.sem.locked, SemStep)
  }

  predicate Exact(r: Res) {
    && (r.sem.locked <==> r.sem.value == 0)
    && (r.sem.isactive <==> r.sem.value != r.sem.maxval)
    && r.holders == r.sem.maxval - r.sem.value
    && 0 <= r.holders <= r.sem.maxval
  }

  /** Over every interleaving the flags are exact and there are never more holders than maxval. */
  lemma SemaphoreExact(addr: Chan, v: int, states: seq<State<Res>>, actions: seq<Action<Res>>, k: nat)
    requires v >= 1 && IsRun(SemClient(addr), states, actions) && k < |states| && states[0].res == Res(Fresh(v), 0)
    ensures Exact(states[k].res) && states[k].res.sem.maxval == v
  {
    var keep := (r: Res) => Exact(r) && r.sem.maxval == v;
    assert forall p, r, r' :: keep(r) && SemClient(addr).step(p, r, r') ==> keep(r');
    ClientInv(SemClient(addr), keep, states, actions, k);
  }

  /** With the semaphore's lock free, nobody sleeps on it while it can be taken. */
  lemma NobodySleepsUnlocked(addr: Chan, v: int, states: seq<State<Res>>, actions: seq<Action<Res>>, k: nat, p: nat)
    requires v >= 1 && IsRun(SemClient(addr), states, actions) && k < |states| && states[0].res == Res(Fresh(v), 0)
    requires p < |states[k].procs| && states[k].procs[p].state.SLEEPING? && states[k].procs[p].chan == Some(addr)
    requires states[k].lk.None?
    ensures states[k].res.sem.locked && states[k].res.sem.value == 0 && states[k].res.holders == v
  {
    SemaphoreExact(addr, v, states, actions, k);
    if LeftAsleep(SemClient(addr), states[k], p, addr) {
      NoLostWakeup(SemClient(addr), states, actions, k, p, addr);
    }
  }

  // ---- Initial values ----

  /** The semaphore after a list of operations, true for a down that gets through and false for an up. */
  function After(v: int, ops: seq<bool>): Res {
    if ops == [] then Res(Fresh(v), 0)
    else
      var r := After(v, ops[..|ops| - 1]);
      if ops[|ops| - 1] then (if r.sem.locked then r else Res(Down(r.sem), r.holders + 1))
      else (if r.holders > 0 then Res(Up(r.sem), r.holders - 1) else r)
  }

  lemma {:induction false} AfterExact(v: int, ops: seq<bool>)
    requires v >= 1
    ensures Exact(After(v, ops)) && After(v, ops).sem.maxval == v
  {
    if ops != [] {
      AfterExact(v, ops[..|ops| - 1]);
    }
  }

  /** sem_init does not look at its argument, and the semaphore works exactly for initial values of at least 1. */
  lemma ExactIffPositive(v: int)
    ensures (forall ops :: Exact(After(v, ops))) <==> v >= 1
  {
    if v >= 1 {
      forall ops
        ensures Exact(After(v, ops))
      {
        AfterExact(v, ops);
      }
    } else {
      assert After(v, []) == Res(Fresh(v), 0);
      assert !Exact(After(v, []));
    }
  }
}
