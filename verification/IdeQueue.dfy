/**
 ide.c as a queue of requests that interrupts drive, proved to do what memide.c does at once.

 A buffer is an index into `bufs`; -1 stands for a null pointer. The disk is a device that finishes
 the command it was given last and then interrupts; it reports no error.
 */
module IdeQueue {

  type Block = seq<int>

  datatype Key = Key(dev: nat, blockno: nat)

  type Disk = map<Key, Block>

  datatype Buf = Buf(valid: bool, dirty: bool, key: Key, data: Block, qnext: int)

  // ---- The synchronous disk of memide.c ----

  class MemIde {
    var disk: Disk

    /** iderw of memide.c. */
    method Iderw(b: Buf) returns (r: Buf)
      requires b.key in disk && (!b.valid || b.dirty)
      modifies this
      ensures r.valid && !r.dirty && r.key == b.key && b.key in disk && r.data == disk[b.key]
      ensures disk == MemStep(old(disk), Request(b)).0 && r.data == MemStep(old(disk), Request(b)).1
    {
      r := b;
      if b.dirty {
        r := r.(dirty := false);
        disk := disk[b.key := r.data];
      } else {
        r := r.(data := disk[b.key]);
      }
      r := r.(valid := true);
    }
  }

  datatype Req = Read(key: Key) | Write(key: Key, data: Block)

  function Request(b: Buf): Req {
    if b.dirty then Write(b.key, b.data) else Read(b.key)
  }

  /** A request on a synchronous disk: the disk after it, and the buffer's contents. */
  function MemStep(disk: Disk, r: Req): (Disk, Block)
    requires r.key in disk
  {
    match r
    case Read(k) => (disk, disk[k])
    case Write(k, data) => (disk[k := data], data)
  }

  predicate AllOn(disk: Disk, reqs: seq<Req>) {
    forall i | 0 <= i < |reqs| :: reqs[i].key in disk
  }

  /** The requests one after another on a synchronous disk, and what each buffer holds then. */
  function MemRun(disk: Disk, reqs: seq<Req>): (r: (Disk, seq<Block>))
    requires AllOn(disk, reqs)
    ensures r.0.Keys == disk.Keys && |r.1| == |reqs|
  {
    if reqs == [] then (disk, [])
    else
      var n := |reqs| - 1;
      var before := MemRun(disk, reqs[..n]);
      var step := MemStep(before.0, reqs[n]);
      (step.0, before.1 + [step.1])
  }

  // ---- The queue ----

  /** `queue` lists the buffers linked from `head` through qnext. */
  ghost predicate LinkAt(bufs: seq<Buf>, queue: seq<nat>, i: nat)
    requires i < |queue|
  {
    queue[i] < |bufs| && bufs[queue[i]].qnext == if i + 1 < |queue| then queue[i + 1] else -1
  }

  ghost predicate Queued(bufs: seq<Buf>, head: int, queue: seq<nat>) {
    && head == (if queue == [] then -1 else queue[0])
    && (forall i: nat | i < |queue| :: LinkAt(bufs, queue, i))
    && (forall i: nat, j: nat | i < j < |queue| :: queue[i] != queue[j])
  }

  /** A queued buffer still has something to do. */
  ghost predicate Pending(bufs: seq<Buf>, queue: seq<nat>, disk: Disk) {
    forall b: nat | b in queue :: b < |bufs| && (!bufs[b].valid || bufs[b].dirty) && bufs[b].key in disk
  }

  function Requests(bufs: seq<Buf>, queue: seq<nat>): seq<Req>
    requires forall i | 0 <= i < |queue| :: queue[i] < |bufs|
  {
    seq(|queue|, i requires 0 <= i < |queue| => Request(bufs[queue[i]]))
  }

  ghost predicate InRange(bufs: seq<Buf>, queue: seq<nat>) {
    forall i | 0 <= i < |queue| :: queue[i] < |bufs|
  }

  ghost predicate SameBut(a: Buf, b: Buf) {
    a.(qnext := 0) == b.(qnext := 0)
  }

  lemma SameRequest(a: Buf, b: Buf)
    requires SameBut(a, b)
    ensures Request(a) == Request(b)
  {
  }

  /** Linking b in after the last queued buffer. */
  lemma Appended(bufs: seq<Buf>, bufs': seq<Buf>, head: int, queue: seq<nat>, b: nat)
    requires Queued(bufs, head, queue) && b < |bufs| && b !in queue && |bufs'| == |bufs|
    requires forall c: nat | c < |bufs| && c != b && (queue == [] || c != queue[|queue| - 1]) :: bufs'[c] == bufs[c]
    requires bufs'[b].qnext == -1
             && (queue != [] ==> queue[|queue| - 1] < |bufs| && bufs'[queue[|queue| - 1]].qnext == b)
    ensures Queued(bufs', if queue == [] then b else head, queue + [b])
  {
    var queue' := queue + [b];
    forall i: nat | i < |queue'|
      ensures LinkAt(bufs', queue', i)
    {
      if i < |queue| { assert LinkAt(bufs, queue, i); }
    }
  }

  lemma RequestsAppended(bufs: seq<Buf>, bufs': seq<Buf>, queue: seq<nat>, b: nat)
    requires InRange(bufs, queue) && b < |bufs| && |bufs'| == |bufs| && forall c: nat | c < |bufs| ::
             SameBut(bufs'[c], bufs[c])
    ensures InRange(bufs', queue + [b]) && Requests(bufs', queue + [b]) == Requests(bufs, queue) + [Request(bufs[b])]
  {
  }

  lemma PendingAppended(bufs: seq<Buf>, bufs': seq<Buf>, queue: seq<nat>, b: nat, disk: Disk)
    requires Pending(bufs, queue, disk) && b < |bufs| && |bufs'| == |bufs| && forall c: nat | c < |bufs| ::
             SameBut(bufs'[c], bufs[c])
    requires (!bufs[b].valid || bufs[b].dirty) && bufs[b].key in disk
    ensures Pending(bufs', queue + [b], disk)
  {
  }

  /** Unlinking the head. */
  lemma Unqueued(bufs: seq<Buf>, bufs': seq<Buf>, head: int, queue: seq<nat>)
    requires Queued(bufs, head, queue) && queue != [] && |bufs'| == |bufs| && queue[0] < |bufs|
    requires forall c: nat | c < |bufs| && c != queue[0] :: bufs'[c] == bufs[c]
    ensures Queued(bufs', bufs[queue[0]].qnext, queue[1..]) && queue[0] !in queue[1..]
  {
    var queue' := queue[1..];
    assert LinkAt(bufs, queue, 0);
    forall i: nat | i < |queue'|
      ensures LinkAt(bufs', queue', i) && queue'[i] != queue[0]
    {
      assert LinkAt(bufs, queue, i + 1);
    }
  }

  lemma RestKept(bufs: seq<Buf>, bufs': seq<Buf>, queue: seq<nat>, disk: Disk)
    requires InRange(bufs, queue) && Pending(bufs, queue, disk) && queue != [] && queue[0] !in queue[1..]
             && |bufs'| == |bufs|
    requires forall c: nat | c < |bufs| && c != queue[0] :: bufs'[c] == bufs[c]
    ensures InRange(bufs', queue[1..]) && Pending(bufs', queue[1..], disk)
    ensures Requests(bufs, queue) == [Request(bufs[queue[0]])] + Requests(bufs', queue[1..])
  {
  }

  lemma Popped(bufs: seq<Buf>, bufs': seq<Buf>, head: int, queue: seq<nat>, disk: Disk)
    requires Queued(bufs, head, queue) && InRange(bufs, queue) && Pending(bufs, queue, disk) && queue != []
    requires queue[0] < |bufs| == |bufs'| && bufs' == bufs[queue[0] := bufs'[queue[0]]]
    ensures Queued(bufs', bufs[queue[0]].qnext, queue[1..]) && InRange(bufs', queue[1..])
            && Pending(bufs', queue[1..], disk)
    ensures Requests(bufs, queue) == [Request(bufs[queue[0]])] + Requests(bufs', queue[1..])
    ensures queue[0] !in queue[1..] && bufs[queue[0]].qnext == if |queue| == 1 then -1 else queue[1]
  {
    Unqueued(bufs, bufs', head, queue);
    RestKept(bufs, bufs', queue, disk);
  }

  lemma HeadIs(bufs: seq<Buf>, head: int, queue: seq<nat>)
    requires Queued(bufs, head, queue)
    ensures head == if queue == [] then -1 else queue[0]
  {
  }

  lemma NextIs(bufs: seq<Buf>, head: int, queue: seq<nat>, i: nat)
    requires Queued(bufs, head, queue) && i < |queue|
    ensures queue[i] < |bufs| && bufs[queue[i]].qnext == if i + 1 < |queue| then queue[i + 1] else -1
  {
    assert LinkAt(bufs, queue, i);
  }

  lemma PendingKeys(bufs: seq<Buf>, queue: seq<nat>, disk: Disk, disk': Disk)
    requires Pending(bufs, queue, disk) && disk'.Keys == disk.Keys
    ensures Pending(bufs, queue, disk')
  {
  }

  lemma PendingHead(bufs: seq<Buf>, queue: seq<nat>, disk: Disk)
    requires Pending(bufs, queue, disk) && queue != []
    ensures queue[0] < |bufs| && bufs[queue[0]].key in disk
  {
  }

  /** What the device has been told to do. */
  datatype Command = Idle | Busy(req: Req) | Ready(req: Req)

  /** The platter: the completed requests have been carried out in order, and the head's too once it is ready. */
  ghost predicate Served(disk0: Disk, disk: Disk, done: seq<Req>, results: seq<Block>, command: Command) {
    && AllOn(disk0, done) && disk.Keys == disk0.Keys
    && results == MemRun(disk0, done).1
    && (command.Ready? && command.req.key in disk0 ==> disk == MemStep(MemRun(disk0, done).0, command.req).0)
    && (!command.Ready? ==> disk == MemRun(disk0, done).0)
  }

  /** What the interrupt handler finds for a finished request is what the synchronous disk gives. */
  lemma ServedNext(disk0: Disk, disk: Disk, done: seq<Req>, results: seq<Block>, req: Req, next: Command)
    requires Served(disk0, disk, done, results, Ready(req)) && req.key in disk && !next.Ready?
    ensures Served(disk0, disk, done + [req], results + [disk[req.key]], next)
    ensures req.Write? ==> disk[req.key] == req.data
  {
  }

  lemma StillServed(disk0: Disk, disk: Disk, done: seq<Req>, results: seq<Block>, a: Command, b: Command)
    requires Served(disk0, disk, done, results, a) && !a.Ready? && !b.Ready?
    ensures Served(disk0, disk, done, results, b) && disk.Keys == disk0.Keys
  {
  }

  lemma ServedReady(disk0: Disk, disk: Disk, done: seq<Req>, results: seq<Block>, req: Req)
    requires Served(disk0, disk, done, results, Busy(req)) && req.key in disk
    ensures Served(disk0, MemStep(disk, req).0, done, results, Ready(req))
  {
  }

  /** The queue is linked up, its buffers have something to do, and the device works on the first. */
  ghost predicate Waiting(bufs: seq<Buf>, head: int, queue: seq<nat>, disk: Disk, command: Command) {
    && Queued(bufs, head, queue) && InRange(bufs, queue) && Pending(bufs, queue, disk)
    && (if queue == [] then command == Idle
        else (command == Busy(Request(bufs[queue[0]])) || command == Ready(Request(bufs[queue[0]]))))
  }

  lemma EmptyOrNot(bufs: seq<Buf>, head: int, queue: seq<nat>, disk: Disk, command: Command)
    requires Waiting(bufs, head, queue, disk, command)
    ensures InRange(bufs, queue) && (head == -1 <==> queue == [])
            && (queue != [] ==> 0 <= head == queue[0] < |bufs| && bufs[head].key in disk && !command.Idle?)
  {
    HeadIs(bufs, head, queue);
    if queue != [] { PendingHead(bufs, queue, disk); }
  }

  lemma Regroup(done: seq<Req>, r: Req, rest: seq<Req>)
    ensures done + ([r] + rest) == (done + [r]) + rest
  {
  }

  /** The buffer as the interrupt handler leaves it. */
  function Completed(b: Buf, disk: Disk): Buf
    requires b.key in disk
  {
    b.(valid := true, dirty := false, data := if b.dirty then b.data else disk[b.key])
  }

  /** After the interrupt the rest of the queue waits, with its first request, if any, under way. */
  lemma WaitsOn(bufs: seq<Buf>, head: int, queue: seq<nat>, disk: Disk, command: Command, nb: Buf)
    requires Waiting(bufs, head, queue, disk, command) && queue != []
    ensures head == queue[0] && 0 <= head < |bufs| && bufs[head].key in disk && command.req == Request(bufs[head])
            && head !in queue[1..]
    ensures var bufs', head' := bufs[head := nb], bufs[head].qnext;
            && (head' == -1 || 0 <= head' < |bufs|)
            && Waiting(bufs', head', queue[1..], disk, if head' == -1 then Idle else Busy(Request(bufs'[head'])))
            && Requests(bufs, queue) == [Request(bufs[head])] + Requests(bufs', queue[1..])
            && (head' == -1 <==> queue[1..] == [])
  {
    hide Queued, Pending, Requests, Request;
    HeadIs(bufs, head, queue);
    PendingHead(bufs, queue, disk);
    Popped(bufs, bufs[head := nb], head, queue, disk);
    HeadIs(bufs[head := nb], bufs[head].qnext, queue[1..]);
  }

  /** Blocks that exist are in one buffer at most, as the buffer cache makes sure. */
  ghost predicate KeysApart(bufs: seq<Buf>, disk: Disk) {
    forall b: nat, c: nat | b < |bufs| && c < |bufs| :: KeyApart(bufs, disk, b, c)
  }

  ghost predicate KeyApart(bufs: seq<Buf>, disk: Disk, b: nat, c: nat)
    requires b < |bufs| && c < |bufs|
  {
    b != c && bufs[b].key == bufs[c].key ==> bufs[b].key !in disk
  }

  /** A buffer untouched since its request was carried out is equal to its disk block. */
  ghost predicate SyncedAt(bufs: seq<Buf>, queue: seq<nat>, disk: Disk, done: seq<Req>, results: seq<Block>,
                           served: map<nat, nat>, b: nat)
    requires b in served
  {
    && b < |bufs| && b !in queue && served[b] < |done| == |results| && done[served[b]].key == bufs[b].key
    && bufs[b].valid && !bufs[b].dirty && bufs[b].key in disk && bufs[b].data == disk[bufs[b].key] == results[served[b]]
  }

  ghost predicate Synced(bufs: seq<Buf>, queue: seq<nat>, disk: Disk, done: seq<Req>, results: seq<Block>,
                         served: map<nat, nat>) {
    |done| == |results| && forall b: nat | b in served :: SyncedAt(bufs, queue, disk, done, results, served, b)
  }

  /** Carrying out the head's command leaves the blocks of all other buffers alone. */
  lemma SyncedFinish(bufs: seq<Buf>, queue: seq<nat>, disk: Disk, done: seq<Req>, results: seq<Block>,
                     served: map<nat, nat>)
    requires Synced(bufs, queue, disk, done, results, served) && KeysApart(bufs, disk) && queue != []
    requires queue[0] < |bufs| && bufs[queue[0]].key in disk
    ensures var disk' := MemStep(disk, Request(bufs[queue[0]])).0;
            Synced(bufs, queue, disk', done, results, served) && KeysApart(bufs, disk')
  {
    var h, disk' := queue[0], MemStep(disk, Request(bufs[queue[0]])).0;
    assert h in queue;
    assert forall k :: k in disk' <==> k in disk;
    forall b: nat | b in served
      ensures SyncedAt(bufs, queue, disk', done, results, served, b)
    {
      assert SyncedAt(bufs, queue, disk, done, results, served, b);
      assert KeyApart(bufs, disk, b, h);
    }
    forall b: nat, c: nat | b < |bufs| && c < |bufs|
      ensures KeyApart(bufs, disk', b, c) { assert KeyApart(bufs, disk, b, c); }
  }

  lemma SyncedSubmit(bufs: seq<Buf>, bufs': seq<Buf>, queue: seq<nat>, b: nat, disk: Disk, done: seq<Req>,
                     results: seq<Block>, served: map<nat, nat>)
    requires Synced(bufs, queue, disk, done, results, served) && KeysApart(bufs, disk)
    requires |bufs'| == |bufs| && forall c: nat | c < |bufs| :: SameBut(bufs'[c], bufs[c])
    ensures Synced(bufs', queue + [b], disk, done, results, served - {b}) && KeysApart(bufs', disk)
  {
    forall c: nat | c in served - {b}
      ensures SyncedAt(bufs', queue + [b], disk, done, results, served - {b}, c)
    {
      assert SyncedAt(bufs, queue, disk, done, results, served, c) && SameBut(bufs'[c], bufs[c]);
    }
    forall c: nat, e: nat | c < |bufs'| && e < |bufs'|
      ensures KeyApart(bufs', disk, c, e)
    {
      assert SameBut(bufs'[c], bufs[c]) && SameBut(bufs'[e], bufs[e]) && KeyApart(bufs, disk, c, e);
    }
  }

  lemma SyncedIntr(bufs: seq<Buf>, queue: seq<nat>, disk: Disk, done: seq<Req>, results: seq<Block>,
                   served: map<nat, nat>, req: Req)
    requires Synced(bufs, queue, disk, done, results, served) && KeysApart(bufs, disk) && queue != []
             && queue[0] !in queue[1..]
    requires queue[0] < |bufs| && bufs[queue[0]].key in disk && req == Request(bufs[queue[0]])
    requires req.Write? ==> disk[req.key] == req.data
    ensures var b := queue[0];
            var bufs' := bufs[b := Completed(bufs[b], disk)];
            && Synced(bufs', queue[1..], disk, done + [req], results + [disk[req.key]], served[b := |done|])
            && KeysApart(bufs', disk)
  {
    var b := queue[0];
    var bufs', done', results', served' := bufs[b := Completed(bufs[b], disk)], done + [req], results + [disk[req.key]],
        served[b := |done|];
    assert queue == [b] + queue[1..];
    forall c: nat | c in served'
      ensures SyncedAt(bufs', queue[1..], disk, done', results', served', c)
    {
      if c != b { assert SyncedAt(bufs, queue, disk, done, results, served, c); }
    }
    forall c: nat, e: nat | c < |bufs'| && e < |bufs'|
      ensures KeyApart(bufs', disk, c, e) { assert KeyApart(bufs, disk, c, e); }
  }

  lemma SyncedTouch(bufs: seq<Buf>, queue: seq<nat>, disk: Disk, done: seq<Req>, results: seq<Block>,
                    served: map<nat, nat>, b: nat, nb: Buf)
    requires Synced(bufs, queue, disk, done, results, served) && b < |bufs|
    ensures Synced(bufs[b := nb], queue, disk, done, results, served - {b})
  {
    forall c: nat | c in served - {b}
      ensures SyncedAt(bufs[b := nb], queue, disk, done, results, served - {b}, c)
    {
      assert SyncedAt(bufs, queue, disk, done, results, served, c);
    }
  }

  lemma TouchKeeps(bufs: seq<Buf>, head: int, queue: seq<nat>, disk: Disk, command: Command, b: nat, nb: Buf)
    requires Waiting(bufs, head, queue, disk, command) && b < |bufs| && b !in queue
    ensures Waiting(bufs[b := nb], head, queue, disk, command)
    ensures InRange(bufs, queue) && InRange(bufs[b := nb], queue)
            && Requests(bufs[b := nb], queue) == Requests(bufs, queue)
  {
    forall i: nat | i < |queue|
      ensures LinkAt(bufs[b := nb], queue, i) && queue[i] != b { assert LinkAt(bufs, queue, i); }
  }

  /** Everything the driver keeps: order, one start each, and the synchronous disk's results. */
  ghost predicate DriverOk(bufs: seq<Buf>, head: int, queue: seq<nat>, disk0: Disk, disk: Disk, command: Command,
                           arrived: seq<Req>, done: seq<Req>, results: seq<Block>, starts: nat, served: map<nat, nat>) {
    && Waiting(bufs, head, queue, disk, command)
    && arrived == done + Requests(bufs, queue)
    && starts == |done| + (if queue == [] then 0 else 1)
    && Served(disk0, disk, done, results, command)
    && KeysApart(bufs, disk) && Synced(bufs, queue, disk, done, results, served)
  }

  /** The command after an interrupt. */
  function NextCommand(bufs: seq<Buf>, head: int): Command
    requires head == -1 || 0 <= head < |bufs|
  {
    if head == -1 then Idle else Busy(Request(bufs[head]))
  }

  /** An interrupt keeps it all. */
  lemma Interrupted(bufs: seq<Buf>, head: int, queue: seq<nat>, disk0: Disk, disk: Disk, command: Command,
                    arrived: seq<Req>, done: seq<Req>, results: seq<Block>, starts: nat, served: map<nat, nat>)
    requires DriverOk(bufs, head, queue, disk0, disk, command, arrived, done, results, starts, served) && !command.Busy?
             && queue != []
    ensures 0 <= head == queue[0] < |bufs| && bufs[head].key in disk && command.Ready?
            && command.req == Request(bufs[head])
    ensures bufs[head].dirty ==> disk[bufs[head].key] == bufs[head].data
    ensures var nb := Completed(bufs[head], disk);
            && (nb.qnext == -1 || 0 <= nb.qnext < |bufs|)
            && DriverOk(bufs[head := nb], nb.qnext, queue[1..], disk0, disk, NextCommand(bufs[head := nb], nb.qnext),
                        arrived, done + [command.req], results + [nb.data],
                        starts + (if nb.qnext == -1 then 0 else 1), served[head := |done|])
  {
    hide Waiting, Requests, Served, Synced, KeysApart;
    EmptyOrNot(bufs, head, queue, disk, command);
    var nb := Completed(bufs[head], disk);
    WaitsOn(bufs, head, queue, disk, command, nb);
    ServedNext(disk0, disk, done, results, command.req, NextCommand(bufs[head := nb], nb.qnext));
    SyncedIntr(bufs, queue, disk, done, results, served, command.req);
    Regroup(done, command.req, Requests(bufs[head := nb], queue[1..]));
  }

  lemma NothingQueued(bufs: seq<Buf>, head: int, queue: seq<nat>, disk0: Disk, disk: Disk, command: Command,
                      arrived: seq<Req>, done: seq<Req>, results: seq<Block>, starts: nat, served: map<nat, nat>)
    requires DriverOk(bufs, head, queue, disk0, disk, command, arrived, done, results, starts, served)
    ensures head == -1 <==> queue == []
  {
    hide Requests, Served, Synced, KeysApart;
    EmptyOrNot(bufs, head, queue, disk, command);
  }

  class Ide {
    var bufs: seq<Buf>
    var idequeue: int
    var command: Command
    var disk: Disk
    ghost const disk0: Disk
    ghost var queue: seq<nat>
    ghost var arrived: seq<Req>
    ghost var done: seq<Req>
    ghost var results: seq<Block>
    ghost var starts: nat
    ghost var served: map<nat, nat>  // for a buffer untouched since its request was carried out, which one that was

    ghost predicate Valid()
      reads this
    {
      DriverOk(bufs, idequeue, queue, disk0, disk, command, arrived, done, results, starts, served)
    }

    constructor (bufs: seq<Buf>, disk: Disk)
      requires KeysApart(bufs, disk)
      ensures Valid() && this.bufs == bufs && this.disk == disk == disk0 && queue == [] && arrived == [] && done == []
    {
      this.bufs, this.disk, disk0 := bufs, disk, disk;
      idequeue, command := -1, Idle;
      queue, arrived, done, results, starts, served := [], [], [], [], 0, map[];
    }

    /** idestart: hands the request to the device. */
    method Idestart(b: nat)
      requires b < |bufs|
      modifies this`command, this`starts
      ensures command == Busy(Request(bufs[b])) && starts == old(starts) + 1
    {
      command := Busy(if bufs[b].dirty then Write(bufs[b].key, bufs[b].data) else Read(bufs[b].key));
      starts := starts + 1;
    }

    /** The device finishes its command. */
    method Finish()
      requires Valid() && command.Busy?
      modifies this`command, this`disk
      ensures Valid() && command == Ready(old(command.req)) && command.req.key in old(disk)
              && disk == MemStep(old(disk), command.req).0
    {
      hide Queued, Requests, MemRun, Synced, KeysApart, Served;
      PendingHead(bufs, queue, disk);
      ServedReady(disk0, disk, done, results, command.req);
      PendingKeys(bufs, queue, disk, MemStep(disk, command.req).0);
      SyncedFinish(bufs, queue, disk, done, results, served);
      if command.req.Write? {
        disk := disk[command.req.key := command.req.data];
      }
      command := Ready(command.req);
    }

    /** iderw up to the wait: b goes to the end of the queue, and is started when it is alone there. */
    method Submit(b: nat)
      requires Valid() && b < |bufs| && b !in queue && (!bufs[b].valid || bufs[b].dirty) && bufs[b].key in disk
      modifies this`bufs, this`idequeue, this`command, this`queue, this`arrived, this`starts, this`served
      ensures Valid() && queue == old(queue) + [b] && arrived == old(arrived) + [Request(old(bufs[b]))]
              && done == old(done)
      ensures |bufs| == old(|bufs|) && forall c: nat | c < |bufs| :: SameBut(bufs[c], old(bufs[c]))
    {
      hide Queued, Pending, Requests, MemRun, MemStep, Served, SameBut, Synced, KeysApart;
      ghost var bufs0, queue0 := bufs, queue;
      HeadIs(bufs, idequeue, queue);
      LinkIn(b);
      HeadIs(bufs, idequeue, queue);
      RequestsAppended(bufs0, bufs, queue0, b);
      PendingAppended(bufs0, bufs, queue0, b, disk);
      if idequeue == b {
        Idestart(b);
        StillServed(disk0, disk, done, results, Idle, command);
      }
      if queue0 != [] { SameRequest(bufs[queue0[0]], bufs0[queue0[0]]); }
      arrived := arrived + [Request(bufs0[b])];
      SyncedSubmit(bufs0, bufs, queue0, b, disk, done, results, served);
      served := served - {b};
    }

    /** The loop of iderw that finds the end of the queue. */
    method LinkIn(b: nat)
      requires Queued(bufs, idequeue, queue) && InRange(bufs, queue) && b < |bufs| && b !in queue
      modifies this`bufs, this`idequeue, this`queue
      ensures queue == old(queue) + [b] && Queued(bufs, idequeue, queue) && InRange(bufs, queue)
      ensures |bufs| == old(|bufs|) && forall c: nat | c < |bufs| :: SameBut(bufs[c], old(bufs[c]))
    {
      hide Queued;
      ghost var bufs0, head0 := bufs, idequeue;
      HeadIs(bufs, idequeue, queue);
      bufs := bufs[b := bufs[b].(qnext := -1)];
      if idequeue == -1 {
        idequeue := b;
      } else {
        var p := idequeue;
        ghost var i := 0;
        while bufs[p].qnext != -1
          invariant i < |queue| && p == queue[i] < |bufs| && p != b
          modifies {}
          decreases |queue| - i
        {
          NextIs(bufs0, head0, queue, i);
          i := i + 1;
          p := bufs[p].qnext;
        }
        NextIs(bufs0, head0, queue, i);
        bufs := bufs[p := bufs[p].(qnext := b)];
      }
      Appended(bufs0, bufs, head0, queue, b);
      queue := queue + [b];
    }

    /** Starts the disk on the next buffer in the queue, if any. */
    method StartNext()
      requires idequeue == -1 || 0 <= idequeue < |bufs|
      modifies this`command, this`starts
      ensures command == NextCommand(bufs, idequeue)
      ensures starts == old(starts) + if idequeue == -1 then 0 else 1
    {
      if idequeue != -1 {
        Idestart(idequeue);
      } else {
        command := Idle;
      }
    }

    /** ideintr: the head is done, and the next request is started. */
    method Ideintr()
      requires Valid() && !command.Busy?
      modifies this`bufs, this`idequeue, this`command, this`queue, this`done, this`results, this`starts, this`served
      ensures Valid()
      ensures old(queue) == [] ==> queue == [] && bufs == old(bufs) && done == old(done) && results == old(results)
      ensures old(queue) != [] ==>
                var b := old(queue[0]);
                && queue == old(queue[1..]) && done == old(done) + [Request(old(bufs[b]))]
                && |bufs| == old(|bufs|) && bufs[b].valid && !bufs[b].dirty && bufs[b].key in disk
                && bufs[b].data == disk[bufs[b].key]
                && results == old(results) + [bufs[b].data] && served == old(served)[b := |old(done)|]
                && forall c: nat | c < |bufs| && c != b :: bufs[c] == old(bufs[c])
    {
      hide DriverOk;
      NothingQueued(bufs, idequeue, queue, disk0, disk, command, arrived, done, results, starts, served);
      if idequeue == -1 {
        return;
      }
      Interrupted(bufs, idequeue, queue, disk0, disk, command, arrived, done, results, starts, served);
      var b := idequeue;
      idequeue := bufs[b].qnext;
      var nb := bufs[b];
      if !nb.dirty {
        nb := nb.(data := disk[nb.key]);
      }
      nb := nb.(valid := true);
      nb := nb.(dirty := false);
      bufs := bufs[b := nb];
      queue, done, results, served := queue[1..], done + [command.req], results + [nb.data], served[b := |done|];
      StartNext();
    }

    /** The holder of a buffer that is not queued changes it, or bget gives it to another block. */
    method Touch(b: nat, nb: Buf)
      requires Valid() && b < |bufs| && b !in queue && KeysApart(bufs[b := nb], disk)
      modifies this`bufs, this`served
      ensures Valid() && bufs == old(bufs)[b := nb] && served == old(served) - {b}
    {
      hide Waiting, Requests, Served, Synced, KeysApart;
      TouchKeeps(bufs, idequeue, queue, disk, command, b, nb);
      SyncedTouch(bufs, queue, disk, done, results, served, b, nb);
      bufs := bufs[b := nb];
      served := served - {b};
    }

    /**
     The wait of iderw for a buffer that was submitted and not touched since: it ends exactly when the request has
     been carried out, with the buffer valid, clean and equal to its disk block, and with what the synchronous
     disk leaves in it after the same requests.
     */
    method Waited(b: nat) returns (r: bool)
      requires Valid() && b < |bufs| && (b in queue || b in served)
      ensures r <==> b !in queue
      ensures r ==> bufs[b].valid && !bufs[b].dirty && bufs[b].key in disk && bufs[b].data == disk[bufs[b].key]
      ensures r ==>
                && b in served && served[b] < |done| && done[served[b]].key == bufs[b].key
                && AllOn(disk0, done) && bufs[b].data == MemRun(disk0, done).1[served[b]]
    {
      r := bufs[b].valid && !bufs[b].dirty;
      assert b in served ==> SyncedAt(bufs, queue, disk, done, results, served, b);
    }
  }

  // ---- What the synchronous disk gives ----

  /** A block is what the last of the first n requests to write it wrote. */
  lemma {:induction false} LatestWrite(disk: Disk, reqs: seq<Req>, n: nat, key: Key, j: nat)
    requires AllOn(disk, reqs) && j < n <= |reqs| && LastTo(reqs, n, key, j)
    ensures AllOn(disk, reqs[..n]) && key in MemRun(disk, reqs[..n]).0 && MemRun(disk, reqs[..n]).0[key] == reqs[j].data
  {
    hide MemRun;
    MemRunNext(disk, reqs, n - 1);
    if j < n - 1 {
      LatestWrite(disk, reqs, n - 1, key, j);
      assert !WritesTo(reqs[n - 1], key);
    }
  }

  /** A block that none of them writes is what was on the disk. */
  lemma {:induction false} NoWrite(disk: Disk, reqs: seq<Req>, n: nat, key: Key)
    requires AllOn(disk, reqs) && n <= |reqs| && key in disk && forall j | 0 <= j < n :: !WritesTo(reqs[j], key)
    ensures AllOn(disk, reqs[..n]) && key in MemRun(disk, reqs[..n]).0 && MemRun(disk, reqs[..n]).0[key] == disk[key]
  {
    hide MemRun;
    if n == 0 {
      MemRunStart(disk, reqs);
    } else {
      NoWrite(disk, reqs, n - 1, key);
      MemRunNext(disk, reqs, n - 1);
      assert !WritesTo(reqs[n - 1], key);
    }
  }

  lemma MemRunStart(disk: Disk, reqs: seq<Req>)
    ensures MemRun(disk, reqs[..0]).0 == disk
  {
  }

  lemma MemRunNext(disk: Disk, reqs: seq<Req>, n: nat)
    requires AllOn(disk, reqs) && n < |reqs|
    ensures AllOn(disk, reqs[..n]) && AllOn(disk, reqs[..n + 1]) && reqs[n].key in MemRun(disk, reqs[..n]).0
    ensures MemRun(disk, reqs[..n + 1]).0 == MemStep(MemRun(disk, reqs[..n]).0, reqs[n]).0
  {
    assert reqs[..n + 1][..n] == reqs[..n];
  }

  /** A read gives the data of the last write before it to its block, or what was on the disk. */
  lemma ReadsLatest(disk: Disk, reqs: seq<Req>, n: nat)
    requires AllOn(disk, reqs) && n < |reqs| && reqs[n].Read?
    ensures (forall j | 0 <= j < n :: !WritesTo(reqs[j], reqs[n].key)) ==> MemRun(disk, reqs).1[n] == disk[reqs[n].key]
    ensures forall j | 0 <= j < n && LastTo(reqs, n, reqs[n].key, j) :: MemRun(disk, reqs).1[n] == reqs[j].data
  {
    hide MemRun;
    ResultStays(disk, reqs, n);
    if forall j | 0 <= j < n :: !WritesTo(reqs[j], reqs[n].key) { NoWrite(disk, reqs, n, reqs[n].key); }
    forall j | 0 <= j < n && LastTo(reqs, n, reqs[n].key, j)
      ensures MemRun(disk, reqs).1[n] == reqs[j].data
    {
      LatestWrite(disk, reqs, n, reqs[n].key, j);
    }
  }

  predicate WritesTo(r: Req, key: Key) {
    r.Write? && r.key == key
  }

  /** Request j is the last before n to write that block. */
  predicate LastTo(reqs: seq<Req>, n: nat, key: Key, j: nat)
    requires j < n <= |reqs|
  {
    WritesTo(reqs[j], key) && forall k | j < k < n :: !WritesTo(reqs[k], key)
  }

  lemma {:induction false} ResultStays(disk: Disk, reqs: seq<Req>, n: nat)
    requires AllOn(disk, reqs) && n < |reqs|
    ensures AllOn(disk, reqs[..n]) && reqs[n].key in MemRun(disk, reqs[..n]).0
    ensures MemRun(disk, reqs).1[n] == MemStep(MemRun(disk, reqs[..n]).0, reqs[n]).1
    decreases |reqs|
  {
    if n < |reqs| - 1 {
      ResultStays(disk, reqs[..|reqs| - 1], n);
      assert reqs[..|reqs| - 1][..n] == reqs[..n];
    }
  }
}
