/**
 pipe.c: a 512-byte ring with two wrapping 32-bit counters, proved to be a FIFO, and its
 readers and writers as clients of sleep and wakeup. A call of pipewrite or piperead is cut
 at its calls of sleep: each `Run` method below is what happens between taking the pipe's
 lock and the next sleep or return.
 */
module Pipe {
  import opened Basics
  import opened SleepWakeup

  const PIPESIZE: nat := 512

  const READERS: Chan := 0  // &p->nread
  const WRITERS: Chan := 1  // &p->nwrite

  /** All bytes ever stored and delivered, and which ends are open. */
  datatype Res = Res(stored: seq<int>, delivered: seq<int>, readopen: bool, writeopen: bool) {
    /** Delivered bytes are a prefix of the stored ones, and at most PIPESIZE are in between. */
    ghost predicate Fifo() {
      delivered <= stored && |stored| <= |delivered| + PIPESIZE
    }

    predicate Empty() {
      |stored| == |delivered|
    }

    predicate Full() {
      |stored| == |delivered| + PIPESIZE
    }
  }

  /** The states in which a call sleeps; nobody waits at an end that is closed. */
  predicate Blocked(r: Res, c: Chan) {
    if c == READERS then (r.Empty() && r.writeopen) || !r.readopen
    else if c == WRITERS then (r.Full() && r.readopen) || !r.writeopen
    else true
  }

  /** Bytes are stored after all others, at most as many as there is room for. */
  ghost predicate Stores(r: Res, r': Res, bytes: seq<int>) {
    |r.stored| + |bytes| <= |r.delivered| + PIPESIZE && r' == r.(stored := r.stored + bytes)
  }

  /** The n oldest bytes not yet delivered are delivered. */
  ghost predicate Delivers(r: Res, r': Res, n: nat) {
    |r.delivered| + n <= |r.stored| && r' == r.(delivered := r.delivered + r.stored[|r.delivered|..|r.delivered| + n])
  }

  /** One critical section: store bytes, deliver bytes, or close an end. */
  ghost predicate PipeStep(p: nat, r: Res, r': Res) {
    || (exists bytes :: Stores(r, r', bytes))
    || (exists n: nat :: Delivers(r, r', n))
    || r' == r.(writeopen := false)
    || r' == r.(readopen := false)
  }

  lemma StepFifo(p: nat, r: Res, r': Res)
    requires r.Fifo() && PipeStep(p, r, r')
    ensures r'.Fifo()
  {
  }

  /** Every channel the change lets go is woken. */
  ghost predicate PaysAll(r: Res, r': Res, woken: set<Chan>) {
    forall c: Chan | Blocked(r, c) && !Blocked(r', c) :: c in woken
  }

  datatype Outcome = Done | MustSleep(c: Chan) | Failed

  lemma Wrapped(a: nat, b: nat)
    requires b <= a <= b + PIPESIZE
    ensures a % UINT == b % UINT <==> a == b
    ensures a % UINT == (b % UINT + PIPESIZE) % UINT <==> a == b + PIPESIZE
  {
  }

  /** The ring index survives the wrap because PIPESIZE divides 2^32. */
  lemma RingIndex(a: nat)
    ensures a % UINT % PIPESIZE == a % PIPESIZE
    ensures (a % UINT + 1) % UINT == (a + 1) % UINT
  {
    var q, r := a / UINT, a % UINT;
    assert a == q * UINT + r;
    RingUnique(a, q * 8388608 + r / PIPESIZE, r % PIPESIZE);
    NextWrap(a, q, r);
  }

  lemma RingUnique(a: nat, q: nat, r: nat)
    requires a == q * PIPESIZE + r && r < PIPESIZE
    ensures a % PIPESIZE == r
  {
  }

  lemma NextWrap(a: nat, q: nat, r: nat)
    requires a == q * UINT + r && r < UINT
    ensures (r + 1) % UINT == (a + 1) % UINT
  {
  }

  lemma RingApart(a: nat, b: nat)
    requires b < a < b + PIPESIZE
    ensures a % PIPESIZE != b % PIPESIZE
  {
  }

  class Ring {
    const data: array<int>
    var nread: nat
    var nwrite: nat
    var readopen: bool
    var writeopen: bool
    ghost var stored: seq<int>
    ghost var delivered: seq<int>

    ghost function State(): Res
      reads this
    {
      Res(stored, delivered, readopen, writeopen)
    }

    ghost predicate Valid()
      reads this, data
    {
      && data.Length == PIPESIZE && State().Fifo()
      && nread == |delivered| % UINT && nwrite == |stored| % UINT
      && forall k {:trigger stored[k]} | |delivered| <= k < |stored| :: data[k % PIPESIZE] == stored[k]
    }

    constructor ()
      ensures Valid() && fresh(data) && State() == Res([], [], true, true)
    {
      data := new int[PIPESIZE];
      nread, nwrite, readopen, writeopen := 0, 0, true, true;
      stored, delivered := [], [];
    }

    method PutByte(b: int)
      requires Valid() && !State().Full()
      modifies data, this`nwrite, this`stored
      ensures Valid() && stored == old(stored) + [b]
    {
      RingIndex(|stored|);
      data[nwrite % PIPESIZE] := b;
      nwrite := (nwrite + 1) % UINT;
      forall k | |delivered| <= k < |stored|
        ensures k % PIPESIZE != |stored| % PIPESIZE
      {
        RingApart(|stored|, k);
      }
      stored := stored + [b];
    }

    method GetByte() returns (b: int)
      requires Valid() && !State().Empty()
      modifies this`nread, this`delivered
      ensures Valid() && |old(delivered)| < |stored| && b == stored[|old(delivered)|]
              && delivered == old(delivered) + [b]
    {
      RingIndex(|delivered|);
      b := data[nread % PIPESIZE];
      nread := (nread + 1) % UINT;
      assert b == stored[|delivered|];
      delivered := delivered + [b];
    }

    /** pipewrite from byte `from` on. Stores bytes in order until done or full. */
    method WriteRun(addr: seq<int>, from: nat, killed: bool) returns (i: nat, out: Outcome, woken: set<Chan>)
      requires Valid() && from <= |addr|
      modifies data, this`nwrite, this`stored
      ensures Valid() && from <= i <= |addr| && stored == old(stored) + addr[from..i]
      ensures Stores(old(State()), State(), addr[from..i])
      ensures out.Done? ==> i == |addr|
      ensures out.MustSleep? <==> i < |addr| && State().Full() && readopen && !killed
      ensures out.MustSleep? ==> out.c == WRITERS && Blocked(State(), WRITERS)
      ensures out.Failed? <==> i < |addr| && State().Full() && (!readopen || killed)
      ensures PaysAll(old(State()), State(), woken) <==>
              !(out.Failed? && readopen && writeopen && old(State().Empty()))
    {
      i := from;
      woken := {};
      while i < |addr|
        invariant Valid() && from <= i <= |addr| && stored == old(stored) + addr[from..i]
      {
        Wrapped(|stored|, |delivered|);
        if nwrite == (nread + PIPESIZE) % UINT {
          assert Blocked(old(State()), READERS) && !Blocked(State(), READERS) <==>
              readopen && writeopen && old(State().Empty());
          if !readopen || killed {
            return i, Failed, woken;
          }
          woken := woken + {READERS};
          return i, MustSleep(WRITERS), woken;
        }
        PutByte(addr[i]);
        i := i + 1;
      }
      woken := woken + {READERS};
      out := Done;
    }

    /** piperead: delivers the oldest bytes, at most n, or says why it cannot. */
    method ReadRun(n: nat, killed: bool) returns (got: seq<int>, out: Outcome, woken: set<Chan>)
      requires Valid()
      modifies this`nread, this`delivered
      ensures Valid() && delivered == old(delivered) + got
      ensures Delivers(old(State()), State(), |got|)
      ensures out.MustSleep? <==> !killed && old(State().Empty()) && writeopen
      ensures out.MustSleep? ==> out.c == READERS && State() == old(State()) && Blocked(State(), READERS)
      ensures out.Failed? <==> killed && old(State().Empty()) && writeopen
      ensures out.Failed? ==> State() == old(State())
      ensures out.Done? <==> !(old(State().Empty()) && writeopen)
      ensures out.Done? ==>
                |got| == (if n < |stored| - |old(delivered)| then n else |stored| - |old(delivered)|)
      ensures PaysAll(old(State()), State(), woken)
    {
      got, woken := [], {};
      Wrapped(|stored|, |delivered|);
      if nread == nwrite && writeopen {
        if killed {
          return got, Failed, woken;
        }
        return got, MustSleep(READERS), woken;
      }
      while |got| < n
        invariant Valid() && delivered == old(delivered) + got && |got| <= n
      {
        Wrapped(|stored|, |delivered|);
        if nread == nwrite {
          break;
        }
        var b := GetByte();
        got := got + [b];
      }
      assert got == delivered[|old(delivered)|..];
      woken := {WRITERS};
      out := Done;
    }

    /** pipeclose; `freed` when both ends are closed. */
    method Close(writable: bool) returns (freed: bool, woken: set<Chan>)
      requires Valid()
      modifies this`readopen, this`writeopen
      ensures Valid()
      ensures State() == if writable then old(State()).(writeopen := false) else old(State()).(readopen := false)
      ensures freed <==> !readopen && !writeopen
      ensures PaysAll(old(State()), State(), woken)
    {
      if writable {
        writeopen := false;
        woken := {READERS};
      } else {
        readopen := false;
        woken := {WRITERS};
      }
      freed := !readopen && !writeopen;
    }
  }

  // ---- Readers and writers ----

  ghost function PipeClient(): Client<Res> {
    Client(Blocked, (p: nat, r: Res, r': Res) => PipeStep(p, r, r'))
  }

  ghost predicate PipeRun(states: seq<State<Res>>, actions: seq<Action<Res>>) {
    IsRun(PipeClient(), states, actions) && states[0].res == Res([], [], true, true)
  }

  /** Over every interleaving of several readers and writers the pipe stays a FIFO. */
  lemma FifoAlways(states: seq<State<Res>>, actions: seq<Action<Res>>, k: nat)
    requires PipeRun(states, actions) && k < |states|
    ensures states[k].res.Fifo()
  {
    forall p, r: Res, r' | r.Fifo() && PipeStep(p, r, r')
      ensures r'.Fifo()
    {
      StepFifo(p, r, r');
    }
    ClientInv(PipeClient(), (r: Res) => r.Fifo(), states, actions, k);
  }

  /** With the lock free, a sleeping reader finds the pipe empty and a sleeping writer finds it full. */
  lemma SleepersHaveReason(states: seq<State<Res>>, actions: seq<Action<Res>>, k: nat, p: nat)
    requires PipeRun(states, actions) && k < |states| && states[k].lk.None?
    requires p < |states[k].procs| && states[k].procs[p].state.SLEEPING?
    ensures var r := states[k].res;
            && (states[k].procs[p].chan == Some(READERS) && r.readopen ==> r.Empty() && r.writeopen)
            && (states[k].procs[p].chan == Some(WRITERS) && r.writeopen ==> r.Full() && r.readopen)
  {
    forall c: Chan | states[k].procs[p].chan == Some(c)
      ensures Blocked(states[k].res, c)
    {
      if LeftAsleep(PipeClient(), states[k], p, c) {
        NoLostWakeup(PipeClient(), states, actions, k, p, c);
      }
    }
  }

  /** Two processes on one CPU: a writer and a reader. */
  ghost function Two(w: Proc, r: Proc, cpu: Option<nat>, ptable: Holder, lk: Option<nat>, res: Res,
                     pend: iset<Chan>): State<Res> {
    State([w, r], [cpu], ptable, lk, res, pend)
  }

  /** One more step of a run. */
  lemma Then(states0: seq<State<Res>>, actions0: seq<Action<Res>>, a: Action<Res>, s: State<Res>)
    returns (states: seq<State<Res>>, actions: seq<Action<Res>>)
    requires PipeRun(states0, actions0) && Next(PipeClient(), states0[|actions0|], a, s)
    ensures PipeRun(states, actions) && states[|actions|] == s
  {
    hide Next;
    states, actions := states0 + [s], actions0 + [a];
  }

  /** On a new pipe the reader is dispatched and takes the lock. */
  lemma ReaderEnters() returns (states: seq<State<Res>>, actions: seq<Action<Res>>)
    ensures PipeRun(states, actions)
    ensures states[|actions|] == Two(Proc(RUNNABLE, None, Yielded), Proc(RUNNING, None, Inside), Some(1), Nobody,
            Some(1), Res([], [], true, true), iset{})
  {
    var e, no := Res([], [], true, true), iset{};
    var w, r := Proc(RUNNABLE, None, Yielded), Proc(RUNNING, None, YieldBack);
    states, actions := [Two(w, w, None, Nobody, None, e, no)], [];
    states, actions := Then(states, actions, CpuLock(0), Two(w, w, None, ByCpu(0), None, e, no));
    states, actions := Then(states, actions, Dispatch(0, 1), Two(w, r, Some(1), ByProc(1), None, e, no));
    states, actions := Then(states, actions, YieldUnlock(1), Two(w, r.(pc := Outside), Some(1), Nobody, None, e, no));
    states, actions := Then(states, actions, Acquire(1), Two(w, r.(pc := Inside), Some(1), Nobody, Some(1), e, no));
  }

  /** It finds the pipe empty and goes to sleep. */
  lemma ReaderSleeps() returns (states: seq<State<Res>>, actions: seq<Action<Res>>)
    ensures PipeRun(states, actions)
    ensures states[|actions|] == Two(Proc(RUNNABLE, None, Yielded), Proc(SLEEPING, Some(READERS), Parked), None,
            ByCpu(0), None, Res([], [], true, true), iset{})
  {
    var e, no := Res([], [], true, true), iset{};
    var w, r := Proc(RUNNABLE, None, Yielded), Proc(RUNNING, None, Inside);
    states, actions := ReaderEnters();
    states, actions := Then(states, actions, Sleep(1, READERS),
        Two(w, r.(pc := SleepSpin(READERS)), Some(1), Nobody, Some(1), e, no));
    states, actions := Then(states, actions, SleepLock(1),
        Two(w, r.(pc := SleepRelease(READERS)), Some(1), ByProc(1), Some(1), e, no));
    states, actions := Then(states, actions, SleepDrop(1),
        Two(w, r.(pc := SleepMark(READERS)), Some(1), ByProc(1), None, e, no));
    states, actions := Then(states, actions, SleepPark(1, 0),
        Two(w, Proc(SLEEPING, Some(READERS), Parked), None, ByCpu(0), None, e, no));
  }

  /** The writer is dispatched and takes the lock. */
  lemma WriterEnters() returns (states: seq<State<Res>>, actions: seq<Action<Res>>)
    ensures PipeRun(states, actions)
    ensures states[|actions|] == Two(Proc(RUNNING, None, Inside), Proc(SLEEPING, Some(READERS), Parked), Some(0),
            Nobody, Some(0), Res([], [], true, true), iset{})
  {
    var e, no := Res([], [], true, true), iset{};
    var w, r := Proc(RUNNING, None, YieldBack), Proc(SLEEPING, Some(READERS), Parked);
    states, actions := ReaderSleeps();
    states, actions := Then(states, actions, Dispatch(0, 0), Two(w, r, Some(0), ByProc(0), None, e, no));
    states, actions := Then(states, actions, YieldUnlock(0), Two(w.(pc := Outside), r, Some(0), Nobody, None, e, no));
    states, actions := Then(states, actions, Acquire(0), Two(w.(pc := Inside), r, Some(0), Nobody, Some(0), e, no));
  }

  /** What returning at pipe.c:86-89 leaves: the lock is released and nobody has been woken. */
  ghost function Returned(s: State<Res>, p: nat): State<Res>
    requires p < |s.procs|
  {
    Goto(s, p, Outside).(lk := None)
  }

  /**
   A writer killed on a full pipe returns without waking the readers: for any 512 bytes there is a run from a new
   pipe in which it has filled the pipe while a reader slept on it, and its return leaves that reader asleep.
   */
  lemma KilledWriterLoses(bytes: seq<int>) returns (states: seq<State<Res>>, actions: seq<Action<Res>>)
    requires |bytes| == PIPESIZE
    ensures PipeRun(states, actions)
    ensures var s := states[|actions|];
            && At(s, 0, Inside) && s.res == Res(bytes, [], true, true) && s.res.Full()
            && LeftAsleep(PipeClient(), Returned(s, 0), 1, READERS) && Returned(s, 0).lk.None?
  {
    states, actions := WriterEnters();
    var s, r := states[|actions|], Res(bytes, [], true, true);
    assert Stores(s.res, r, bytes);
    var s' := s.(res := r, pend := iset c | c in s.pend || (Blocked(s.res, c) && !Blocked(r, c)));
    states, actions := Then(states, actions, Modify(0, r), s');
  }
}
