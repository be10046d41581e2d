/** The virtio block driver of kernel/virtio_disk.c against a device that completes requests in any
    order (sections 2.6 and 5.2 of VIRTIO 1.1).  Driver code runs under vdisk_lock; the device runs
    at any time.  Ring indices are 16-bit and wrap around. */
module Virtqueue {
  import opened Prelude

  const NUM: nat := 8
  const WRAP: nat := 0x10000

  /** What a descriptor's addr field points to. */
  datatype Target = Nothing | RequestOf(i: nat) | DataOf(buf: nat) | StatusOf(i: nat)

  /** flags are VRING_DESC_F_NEXT (more) and VRING_DESC_F_WRITE (deviceWrites). */
  datatype Desc = Desc(addr: Target, more: bool, deviceWrites: bool, next: nat)

  const Cleared := Desc(Nothing, false, false, 0)

  datatype Request = Request(write: bool, sector: nat)

  datatype Info = Info(b: Option<nat>, status: nat)

  /** Progress of a request: avail ring entry written; published in avail->idx; taken by the device;
      used ring entry written; published in used->idx; seen by the interrupt handler. */
  datatype Stage = Filled | Queued | InFlight | Staged | Used | Marked

  /** The descriptors of a request after its head, its buffer and a serial number. */
  datatype Chain = Chain(d1: nat, d2: nat, buf: nat, id: nat, stage: Stage)

  /** The shared memory and driver state, then history: chains by head, the heads in the unconsumed
      part of the avail ring and in the unseen part of the used ring, unbounded counters, and the
      serial numbers in order of completion by the device and of marking by the driver. */
  datatype Vq = Vq(
    free: seq<bool>, desc: seq<Desc>, ops: seq<Request>, info: seq<Info>,
    availRing: seq<nat>, availIdx: nat, devIdx: nat,
    usedRing: seq<nat>, usedIdx: nat, seenIdx: nat,
    busy: set<nat>,
    chains: map<nat, Chain>, availQ: seq<nat>, usedQ: seq<nat>,
    devN: nat, seenN: nat, nextId: nat, completed: seq<nat>, marked: seq<nat>)

  function Parts(h: nat, c: Chain): set<nat> { {h, c.d1, c.d2} }

  // ----- Actions -----

  datatype Action =
    | Fill(b: nat, req: Request, d0: nat, d1: nat, d2: nat)
    | Publish(d0: nat)
    | Consume
    | Complete(h: nat)
    | Post(h: nat)
    | Interrupt
    | Finish(h: nat)

  /** vdisk_lock is held between writing the avail ring entry and bumping avail->idx. */
  predicate LockFree(chains: map<nat, Chain>) {
    forall h :: h in chains ==> !chains[h].stage.Filled?
  }

  predicate NothingStaged(chains: map<nat, Chain>) {
    forall h :: h in chains ==> !chains[h].stage.Staged?
  }

  predicate Shape(q: Vq) {
    && |q.free| == NUM && |q.desc| == NUM && |q.ops| == NUM && |q.info| == NUM
    && |q.availRing| == NUM && |q.usedRing| == NUM
    && q.availIdx < WRAP && q.devIdx < WRAP && q.usedIdx < WRAP && q.seenIdx < WRAP
  }

  predicate CanFill(q: Vq, b: nat, d0: nat, d1: nat, d2: nat) {
    && Shape(q) && LockFree(q.chains)
    && (forall h :: h in q.chains ==> q.chains[h].buf != b)   // callers hold distinct buffers
    && d0 < NUM && d1 < NUM && d2 < NUM && d0 != d1 && d0 != d2 && d1 != d2
    && q.free[d0] && q.free[d1] && q.free[d2]
  }

  function DoFill(q: Vq, b: nat, req: Request, d0: nat, d1: nat, d2: nat): Vq
    requires CanFill(q, b, d0, d1, d2)
  {
    q.(free := q.free[d0 := false][d1 := false][d2 := false],
       ops := q.ops[d0 := req],
       desc := q.desc[d0 := Desc(RequestOf(d0), true, false, d1)]
                     [d1 := Desc(DataOf(b), true, !req.write, d2)]
                     [d2 := Desc(StatusOf(d0), false, true, 0)],
       info := q.info[d0 := Info(Some(b), 0xff)],
       busy := q.busy + {b},
       availRing := q.availRing[q.availIdx % NUM := d0],
       chains := q.chains[d0 := Chain(d1, d2, b, q.nextId, Filled)],
       nextId := q.nextId + 1)
  }

  predicate CanPublish(q: Vq, d0: nat) { Shape(q) && d0 in q.chains && q.chains[d0].stage.Filled? }

  function DoPublish(q: Vq, d0: nat): Vq
    requires CanPublish(q, d0)
  {
    q.(availIdx := (q.availIdx + 1) % WRAP,
       chains := q.chains[d0 := q.chains[d0].(stage := Queued)], availQ := q.availQ + [d0])
  }

  /** The device compares the two 16-bit indices to see whether there is work. */
  predicate CanConsume(q: Vq) { Shape(q) && q.devIdx != q.availIdx }

  /** The ring entry the device reads is not the head of a published, unconsumed request. */
  predicate ConsumeFails(q: Vq)
    requires CanConsume(q)
  {
    var h := q.availRing[q.devIdx % NUM];
    h !in q.chains || !q.chains[h].stage.Queued? || q.availQ == [] || q.availQ[0] != h
  }

  function DoConsume(q: Vq): Vq
    requires CanConsume(q) && !ConsumeFails(q)
  {
    var h := q.availRing[q.devIdx % NUM];
    q.(devIdx := (q.devIdx + 1) % WRAP, devN := q.devN + 1,
       chains := q.chains[h := q.chains[h].(stage := InFlight)], availQ := q.availQ[1..])
  }

  /** The device follows the chain to find where the status goes. */
  predicate CanComplete(q: Vq, h: nat) {
    Shape(q) && NothingStaged(q.chains) && h in q.chains && q.chains[h].stage.InFlight?
  }

  /** The chain is not the three descriptors of section 5.2 for this request: a device-readable header,
      the buffer, and a device-writable status byte. */
  predicate CompleteFails(q: Vq, h: nat)
    requires CanComplete(q, h)
  {
    !(&& h < NUM && q.desc[h].addr == RequestOf(h) && !q.desc[h].deviceWrites && q.desc[h].more
      && var d1 := q.desc[h].next;
      && d1 < NUM && q.desc[d1].addr == DataOf(q.chains[h].buf) && q.desc[d1].more
      && (q.desc[d1].deviceWrites <==> !q.ops[h].write)
      && var d2 := q.desc[d1].next;
      && d2 < NUM && q.desc[d2].addr.StatusOf? && q.desc[d2].deviceWrites && !q.desc[d2].more
      && q.desc[d2].addr.i < NUM)
  }

  function DoComplete(q: Vq, h: nat): Vq
    requires CanComplete(q, h) && !CompleteFails(q, h)
  {
    var s := q.desc[q.desc[q.desc[h].next].next].addr.i;
    q.(info := q.info[s := q.info[s].(status := 0)],
       usedRing := q.usedRing[q.usedIdx % NUM := h],
       chains := q.chains[h := q.chains[h].(stage := Staged)], completed := q.completed + [q.chains[h].id])
  }

  predicate CanPost(q: Vq, h: nat) { Shape(q) && h in q.chains && q.chains[h].stage.Staged? }

  function DoPost(q: Vq, h: nat): Vq
    requires CanPost(q, h)
  {
    q.(usedIdx := (q.usedIdx + 1) % WRAP,
       chains := q.chains[h := q.chains[h].(stage := Used)], usedQ := q.usedQ + [h])
  }

  /** One iteration of virtio_disk_intr, when its loop condition holds. */
  predicate CanInterrupt(q: Vq) { Shape(q) && LockFree(q.chains) && q.seenIdx != q.usedIdx }

  /** The id read from the used ring, whose info the handler inspects. */
  function UsedId(q: Vq): nat
    requires CanInterrupt(q)
  {
    q.usedRing[q.seenIdx % NUM]
  }

  /** "virtio_disk_intr status", or a wild or null buffer. */
  predicate InterruptFails(q: Vq)
    requires CanInterrupt(q)
  {
    var id := UsedId(q);
    id >= NUM || q.info[id].status != 0 || q.info[id].b == None || id !in q.chains || q.usedQ == []
  }

  function DoInterrupt(q: Vq): Vq
    requires CanInterrupt(q) && !InterruptFails(q)
  {
    var id := UsedId(q);
    q.(busy := q.busy - {q.info[id].b.value}, seenIdx := (q.seenIdx + 1) % WRAP, seenN := q.seenN + 1,
       chains := q.chains[id := q.chains[id].(stage := Marked)], usedQ := q.usedQ[1..],
       marked := q.marked + [q.chains[id].id])
  }

  /** The sleeping caller finds b->disk == 0. */
  predicate CanFinish(q: Vq, h: nat) {
    Shape(q) && LockFree(q.chains) && h in q.chains && h < NUM && q.chains[h].buf !in q.busy
  }

  function FreeOne(q: Vq, i: nat): Vq
    requires |q.free| == NUM && |q.desc| == NUM && i < NUM
  {
    q.(desc := q.desc[i := Cleared], free := q.free[i := true])
  }

  /** Descriptors in use. */
  function Taken(free: seq<bool>): set<nat> { set d | 0 <= d < |free| && !free[d] }

  /** free_chain; None is a panic in free_desc. */
  function FreeChain(q: Vq, i: nat): Option<Vq>
    requires |q.free| == NUM && |q.desc| == NUM
    decreases Taken(q.free)
  {
    if i >= NUM || q.free[i] then None
    else if q.desc[i].more then
      assert i in Taken(q.free) && i !in Taken(FreeOne(q, i).free);
      FreeChain(FreeOne(q, i), q.desc[i].next)
    else Some(FreeOne(q, i))
  }

  function DoFinish(q: Vq, h: nat): Option<Vq>
    requires CanFinish(q, h)
  {
    FreeChain(q.(info := q.info[h := q.info[h].(b := None)], chains := q.chains - {h}), h)
  }

  ghost predicate Enabled(q: Vq, a: Action) {
    match a
    case Fill(b, _, d0, d1, d2) => CanFill(q, b, d0, d1, d2)
    case Publish(d0) => CanPublish(q, d0)
    case Consume => CanConsume(q)
    case Complete(h) => CanComplete(q, h)
    case Post(h) => CanPost(q, h)
    case Interrupt => CanInterrupt(q)
    case Finish(h) => CanFinish(q, h)
  }

  /** A panic of the driver, or a device that meets a ring entry or chain it must not meet. */
  ghost predicate Fails(q: Vq, a: Action)
    requires Enabled(q, a)
  {
    match a
    case Consume => ConsumeFails(q)
    case Complete(h) => CompleteFails(q, h)
    case Interrupt => InterruptFails(q)
    case Finish(h) => DoFinish(q, h) == None
    case _ => false
  }

  ghost function Next(q: Vq, a: Action): Vq
    requires Enabled(q, a) && !Fails(q, a)
  {
    match a
    case Fill(b, req, d0, d1, d2) => DoFill(q, b, req, d0, d1, d2)
    case Publish(d0) => DoPublish(q, d0)
    case Consume => DoConsume(q)
    case Complete(h) => DoComplete(q, h)
    case Post(h) => DoPost(q, h)
    case Interrupt => DoInterrupt(q)
    case Finish(h) => DoFinish(q, h).value
  }

  // ----- Invariant -----

  /** A request's three descriptors are linked as virtio_disk_rw formatted them, and its buffer is
      busy exactly until the interrupt handler has seen it. */
  ghost predicate ChainOk(free: seq<bool>, desc: seq<Desc>, ops: seq<Request>, info: seq<Info>, busy: set<nat>,
                          h: nat, c: Chain)
  {
    && |free| == NUM && |desc| == NUM && |info| == NUM && |ops| == NUM
    && h < NUM && c.d1 < NUM && c.d2 < NUM && h != c.d1 && h != c.d2 && c.d1 != c.d2
    && !free[h] && !free[c.d1] && !free[c.d2]
    && desc[h] == Desc(RequestOf(h), true, false, c.d1)
    && desc[c.d1] == Desc(DataOf(c.buf), true, !ops[h].write, c.d2)
    && desc[c.d2] == Desc(StatusOf(h), false, true, 0)
    && info[h].b == Some(c.buf)
    && (c.stage.Staged? || c.stage.Used? || c.stage.Marked? ==> info[h].status == 0)
    && (c.buf in busy <==> !c.stage.Marked?)
  }

  ghost predicate ChainsOk(free: seq<bool>, desc: seq<Desc>, ops: seq<Request>, info: seq<Info>, busy: set<nat>,
                           chains: map<nat, Chain>)
  {
    forall h :: h in chains ==> ChainOk(free, desc, ops, info, busy, h, chains[h])
  }

  /** No descriptor, buffer or serial number belongs to two requests. */
  ghost predicate Disjoint(chains: map<nat, Chain>) {
    forall h, k :: h in chains && k in chains && h != k ==>
      && Parts(h, chains[h]) !! Parts(k, chains[k])
      && chains[h].buf != chains[k].buf && chains[h].id != chains[k].id
  }

  ghost predicate InChain(chains: map<nat, Chain>, d: nat) {
    exists h :: h in chains && d in Parts(h, chains[h])
  }

  /** Every descriptor is free or in a chain, and chains have three each. */
  ghost predicate AllocOk(free: seq<bool>, chains: map<nat, Chain>) {
    && |free| == NUM
    && (forall d :: 0 <= d < NUM && !free[d] ==> InChain(chains, d))
    && |Taken(free)| == 3 * |chains|
  }

  /** A ring seen from its consumer: q are the heads it has not taken yet, the first of them at the
      consumer's index; all of them are in stage on, and a producer's unpublished entry sits at the
      producer's index. */
  ghost predicate RingOk(chains: map<nat, Chain>, ring: seq<nat>, q: seq<nat>, n: nat, consumer: nat, producer: nat,
                         on: Stage, unpublished: Stage)
  {
    && |ring| == NUM && Distinct(q) && |q| <= |chains|
    && consumer == n % WRAP && producer == (n + |q|) % WRAP
    && (forall i :: 0 <= i < |q| ==> q[i] in chains && chains[q[i]].stage == on && ring[(n + i) % NUM] == q[i])
    && (forall h :: h in chains && chains[h].stage == on ==> h in q)
    && (forall h :: h in chains && chains[h].stage == unpublished ==> ring[(n + |q|) % NUM] == h)
  }

  /** Completed and marked requests: each at most once, marked only after completed. */
  ghost predicate IdsOk(chains: map<nat, Chain>, nextId: nat, completed: seq<nat>, marked: seq<nat>) {
    && Distinct(completed) && Distinct(marked)
    && (forall i :: i in marked ==> i in completed) && (forall i :: i in completed ==> i < nextId)
    && (forall h :: h in chains ==>
          && chains[h].id < nextId
          && (chains[h].id in completed <==> chains[h].stage.Staged? || chains[h].stage.Used? || chains[h].stage.Marked?)
          && (chains[h].id in marked <==> chains[h].stage.Marked?))
    // a request that is over was marked
    && (forall i :: 0 <= i < nextId && i !in marked ==> exists h :: h in chains && chains[h].id == i)
  }

  ghost predicate Inv(q: Vq) {
    && Shape(q)
    && ChainsOk(q.free, q.desc, q.ops, q.info, q.busy, q.chains)
    && Disjoint(q.chains) && AllocOk(q.free, q.chains)
    && RingOk(q.chains, q.availRing, q.availQ, q.devN, q.devIdx, q.availIdx, Queued, Filled)
    && RingOk(q.chains, q.usedRing, q.usedQ, q.seenN, q.seenIdx, q.usedIdx, Used, Staged)
    && IdsOk(q.chains, q.nextId, q.completed, q.marked)
  }

  // ----- Arithmetic of the ring -----

  lemma WrapsSlot(n: nat)
    ensures (n % WRAP) % NUM == n % NUM
  {
  }

  lemma WrapsNext(n: nat)
    ensures (n % WRAP + 1) % WRAP == (n + 1) % WRAP
  {
  }

  lemma Wraps(n: nat)
    ensures (n % WRAP) % NUM == n % NUM
    ensures (n % WRAP + 1) % WRAP == (n + 1) % WRAP
  {
    WrapsSlot(n);
    WrapsNext(n);
  }

  /** Entries less than NUM apart are in different slots. */
  lemma SlotsDiffer(n: nat, i: nat, j: nat)
    requires i < j < i + NUM
    ensures (n + i) % NUM != (n + j) % NUM
  {
  }

  /** Comparing 16-bit indices tells an empty ring from one with a few entries. */
  lemma IndexTest(n: nat, k: nat)
    requires k < WRAP
    ensures n % WRAP == (n + k) % WRAP <==> k == 0
  {
  }

  // ----- Counting descriptors -----

  lemma {:induction false} TakenAtMost(free: seq<bool>)
    ensures |Taken(free)| <= |free|
    decreases |free|
  {
    if free == [] {
      assert Taken(free) == {};
    } else {
      var k := |free| - 1;
      TakenAtMost(free[..k]);
      assert Taken(free) == Taken(free[..k]) + if free[k] then {} else {k};
    }
  }

  lemma AtMostTwo(free: seq<bool>, chains: map<nat, Chain>)
    requires AllocOk(free, chains)
    ensures |chains| <= 2
  {
    TakenAtMost(free);
  }

  lemma {:induction false} DistinctInSet(xs: seq<nat>, s: set<nat>)
    requires Distinct(xs) && forall i :: 0 <= i < |xs| ==> xs[i] in s
    ensures |xs| <= |s|
    decreases |xs|
  {
    if xs != [] {
      var k := |xs| - 1;
      DistinctInSet(xs[..k], s - {xs[k]});
    }
  }

  // ----- Each action keeps the invariant and nothing fails -----

  /** A ring is not affected by requests that are, before and after, in other stages. */
  lemma RingFrame(chains: map<nat, Chain>, chains': map<nat, Chain>, ring: seq<nat>, q: seq<nat>, n: nat,
                  consumer: nat, producer: nat, on: Stage, unp: Stage)
    requires RingOk(chains, ring, q, n, consumer, producer, on, unp)
    requires forall h :: h in chains && (chains[h].stage == on || chains[h].stage == unp) ==>
               h in chains' && chains'[h].stage == chains[h].stage
    requires forall h :: h in chains' && (chains'[h].stage == on || chains'[h].stage == unp) ==>
               h in chains && chains'[h].stage == chains[h].stage
    ensures RingOk(chains', ring, q, n, consumer, producer, on, unp)
  {
    DistinctInSet(q, chains'.Keys);
  }

  /** Writing the producer's slot disturbs no unconsumed entry. */
  lemma RingWrite(chains: map<nat, Chain>, chains': map<nat, Chain>, ring: seq<nat>, q: seq<nat>, n: nat,
                  consumer: nat, producer: nat, on: Stage, unp: Stage, h: nat)
    requires RingOk(chains, ring, q, n, consumer, producer, on, unp) && |chains| <= 2 && on != unp
    requires forall k :: k in chains ==> chains[k].stage != unp
    requires h in chains' && chains'[h].stage == unp && (h in chains ==> chains[h].stage != on)
    requires forall k :: k != h ==> (k in chains <==> k in chains')
    requires forall k :: k != h && k in chains ==> chains'[k] == chains[k]
    ensures RingOk(chains', ring[producer % NUM := h], q, n, consumer, producer, on, unp)
  {
    Wraps(n + |q|);
    forall i | 0 <= i < |q|
      ensures ring[producer % NUM := h][(n + i) % NUM] == q[i]
    {
      SlotsDiffer(n, i, |q|);
    }
    DistinctInSet(q, chains'.Keys);
  }

  /** Bumping the producer's index publishes the entry. */
  lemma RingPublish(chains: map<nat, Chain>, ring: seq<nat>, q: seq<nat>, n: nat, consumer: nat, producer: nat,
                    on: Stage, unp: Stage, h: nat, c: Chain)
    requires RingOk(chains, ring, q, n, consumer, producer, on, unp) && on != unp
    requires h in chains && chains[h].stage == unp && c.stage == on
    ensures RingOk(chains[h := c], ring, q + [h], n, consumer, (producer + 1) % WRAP, on, unp)
  {
    Wraps(n + |q|);
    DistinctInSet(q + [h], chains[h := c].Keys);
  }

  /** The consumer finds at its index exactly the oldest published entry. */
  lemma RingConsume(chains: map<nat, Chain>, ring: seq<nat>, q: seq<nat>, n: nat, consumer: nat, producer: nat,
                    on: Stage, unp: Stage, c: Chain)
    requires RingOk(chains, ring, q, n, consumer, producer, on, unp) && |chains| <= 2
    requires consumer != producer && c.stage != on && c.stage != unp && on != unp
    ensures q != [] && ring[consumer % NUM] == q[0] && q[0] in chains && chains[q[0]].stage == on
    ensures RingOk(chains[q[0] := c], ring, q[1..], n + 1, (consumer + 1) % WRAP, producer, on, unp)
  {
    IndexTest(n, |q|);
    Wraps(n);
    assert ring[(n + 0) % NUM] == q[0];
    var rest := q[1..];
    forall i | 0 <= i < |rest|
      ensures ring[(n + 1 + i) % NUM] == rest[i]
    {
      assert rest[i] == q[i + 1] && (n + (i + 1)) % NUM == (n + 1 + i) % NUM;
    }
    DistinctInSet(rest, chains[q[0] := c].Keys);
  }

  lemma ChainsFill(q: Vq, b: nat, req: Request, d0: nat, d1: nat, d2: nat)
    requires ChainsOk(q.free, q.desc, q.ops, q.info, q.busy, q.chains) && CanFill(q, b, d0, d1, d2)
    ensures var n := DoFill(q, b, req, d0, d1, d2);
            ChainsOk(n.free, n.desc, n.ops, n.info, n.busy, n.chains)
    ensures d0 !in q.chains
    ensures forall h :: h in q.chains ==> Parts(h, q.chains[h]) !! {d0, d1, d2}
  {
    var n := DoFill(q, b, req, d0, d1, d2);
    forall h | h in n.chains
      ensures ChainOk(n.free, n.desc, n.ops, n.info, n.busy, h, n.chains[h])
    {
      if h != d0 {
        assert ChainOk(q.free, q.desc, q.ops, q.info, q.busy, h, q.chains[h]);
      }
    }
    forall h | h in q.chains
      ensures Parts(h, q.chains[h]) !! {d0, d1, d2}
    {
      assert ChainOk(q.free, q.desc, q.ops, q.info, q.busy, h, q.chains[h]);
    }
  }

  lemma TakeOne(free: seq<bool>, d: nat)
    requires d < |free| && free[d]
    ensures |Taken(free[d := false])| == |Taken(free)| + 1
  {
    assert Taken(free[d := false]) == Taken(free) + {d};
  }

  lemma InChainMore(chains: map<nat, Chain>, chains': map<nat, Chain>, d: nat)
    requires InChain(chains, d)
    requires forall h :: h in chains ==> h in chains' && Parts(h, chains'[h]) == Parts(h, chains[h])
    ensures InChain(chains', d)
  {
  }

  lemma AllocFill(free: seq<bool>, chains: map<nat, Chain>, d0: nat, c: Chain)
    requires AllocOk(free, chains) && d0 !in chains
    requires d0 < NUM && c.d1 < NUM && c.d2 < NUM && d0 != c.d1 && d0 != c.d2 && c.d1 != c.d2
    requires free[d0] && free[c.d1] && free[c.d2]
    ensures AllocOk(free[d0 := false][c.d1 := false][c.d2 := false], chains[d0 := c])
  {
    hide InChain, Taken;
    var f, cs := free[d0 := false][c.d1 := false][c.d2 := false], chains[d0 := c];
    TakeOne(free, d0);
    TakeOne(free[d0 := false], c.d1);
    TakeOne(free[d0 := false][c.d1 := false], c.d2);
    forall d | 0 <= d < NUM && !f[d]
      ensures InChain(cs, d)
    {
      if d in Parts(d0, c) {
        InChainHere(cs, d0, d);
      } else {
        InChainMore(chains, cs, d);
      }
    }
  }

  lemma InChainHere(chains: map<nat, Chain>, h: nat, d: nat)
    requires h in chains && d in Parts(h, chains[h])
    ensures InChain(chains, d)
  {
  }

  lemma IdsFill(chains: map<nat, Chain>, nextId: nat, completed: seq<nat>, marked: seq<nat>, d0: nat, c: Chain)
    requires IdsOk(chains, nextId, completed, marked) && d0 !in chains && c.stage == Filled && c.id == nextId
    ensures IdsOk(chains[d0 := c], nextId + 1, completed, marked)
  {
    var cs := chains[d0 := c];
    forall i | 0 <= i < nextId + 1 && i !in marked
      ensures exists h :: h in cs && cs[h].id == i
    {
      if i == nextId {
        assert cs[d0].id == i;
      } else {
        var h :| h in chains && chains[h].id == i;
        assert h in cs && cs[h] == chains[h];
      }
    }
  }

  lemma DisjointFill(chains: map<nat, Chain>, d0: nat, c: Chain)
    requires Disjoint(chains) && d0 !in chains
    requires forall h :: h in chains ==>
               Parts(h, chains[h]) !! {d0, c.d1, c.d2} && chains[h].buf != c.buf && chains[h].id != c.id
    ensures Disjoint(chains[d0 := c])
  {
  }

  lemma KeepFill(q: Vq, b: nat, req: Request, d0: nat, d1: nat, d2: nat)
    requires Inv(q) && CanFill(q, b, d0, d1, d2)
    ensures Inv(DoFill(q, b, req, d0, d1, d2))
  {
    hide ChainsOk, AllocOk, RingOk, IdsOk, Disjoint;
    var n, c := DoFill(q, b, req, d0, d1, d2), Chain(d1, d2, b, q.nextId, Filled);
    ChainsFill(q, b, req, d0, d1, d2);
    AtMostTwo(q.free, q.chains);
    AllocFill(q.free, q.chains, d0, c);
    IdsFill(q.chains, q.nextId, q.completed, q.marked, d0, c);
    IdsBelow(q.chains, q.nextId, q.completed, q.marked);
    DisjointFill(q.chains, d0, c);
    RingWrite(q.chains, n.chains, q.availRing, q.availQ, q.devN, q.devIdx, q.availIdx, Queued, Filled, d0);
    RingFrame(q.chains, n.chains, q.usedRing, q.usedQ, q.seenN, q.seenIdx, q.usedIdx, Used, Staged);
  }

  lemma IdsBelow(chains: map<nat, Chain>, nextId: nat, completed: seq<nat>, marked: seq<nat>)
    requires IdsOk(chains, nextId, completed, marked)
    ensures forall h :: h in chains ==> chains[h].id < nextId
  {
  }

  /** A change of stage that needs no other change. */
  lemma ChainsStage(q: Vq, h: nat, stage: Stage)
    requires ChainsOk(q.free, q.desc, q.ops, q.info, q.busy, q.chains) && h in q.chains
    requires !q.chains[h].stage.Marked? && !stage.Marked?
    requires stage.Staged? || stage.Used? ==> h < |q.info| && q.info[h].status == 0
    ensures ChainsOk(q.free, q.desc, q.ops, q.info, q.busy, q.chains[h := q.chains[h].(stage := stage)])
  {
  }

  lemma StageFrame(free: seq<bool>, chains: map<nat, Chain>, h: nat, stage: Stage)
    requires AllocOk(free, chains) && Disjoint(chains) && h in chains
    ensures AllocOk(free, chains[h := chains[h].(stage := stage)])
    ensures Disjoint(chains[h := chains[h].(stage := stage)])
  {
    hide InChain, Taken, Disjoint;
    var cs := chains[h := chains[h].(stage := stage)];
    assert cs.Keys == chains.Keys && |cs| == |chains|;
    forall d | 0 <= d < NUM && !free[d]
      ensures InChain(cs, d)
    {
      InChainMore(chains, cs, d);
    }
    DisjointStage(chains, h, stage);
  }

  lemma DisjointStage(chains: map<nat, Chain>, h: nat, stage: Stage)
    requires Disjoint(chains) && h in chains
    ensures Disjoint(chains[h := chains[h].(stage := stage)])
  {
  }

  lemma DistinctMore(xs: seq<nat>, x: nat)
    requires Distinct(xs)
    ensures x !in xs ==> Distinct(xs + [x])
  {
  }

  lemma IdsStage(chains: map<nat, Chain>, nextId: nat, completed: seq<nat>, marked: seq<nat>, h: nat, stage: Stage)
    requires IdsOk(chains, nextId, completed, marked) && Disjoint(chains) && h in chains
    requires var from := chains[h].stage;
             || (from.Filled? && stage.Queued?) || (from.Queued? && stage.InFlight?)
             || (from.InFlight? && stage.Staged?) || (from.Staged? && stage.Used?) || (from.Used? && stage.Marked?)
    ensures IdsOk(chains[h := chains[h].(stage := stage)], nextId,
                  if stage.Staged? then completed + [chains[h].id] else completed,
                  if stage.Marked? then marked + [chains[h].id] else marked)
  {
    hide Distinct;
    var cs := chains[h := chains[h].(stage := stage)];
    var done := if stage.Marked? then marked + [chains[h].id] else marked;
    DistinctMore(completed, chains[h].id);
    DistinctMore(marked, chains[h].id);
    forall i | 0 <= i < nextId && i !in done
      ensures exists k :: k in cs && cs[k].id == i
    {
      assert i !in marked;
      var k :| k in chains && chains[k].id == i;
      assert k in cs && cs[k].id == i;
    }
  }

  lemma KeepPublish(q: Vq, d0: nat)
    requires Inv(q) && CanPublish(q, d0)
    ensures Inv(DoPublish(q, d0))
  {
    hide ChainsOk, AllocOk, RingOk, IdsOk, Disjoint;
    ChainsStage(q, d0, Queued);
    StageFrame(q.free, q.chains, d0, Queued);
    IdsStage(q.chains, q.nextId, q.completed, q.marked, d0, Queued);
    RingPublish(q.chains, q.availRing, q.availQ, q.devN, q.devIdx, q.availIdx, Queued, Filled, d0,
                q.chains[d0].(stage := Queued));
    RingFrame(q.chains, DoPublish(q, d0).chains, q.usedRing, q.usedQ, q.seenN, q.seenIdx, q.usedIdx, Used, Staged);
  }

  lemma KeepConsume(q: Vq)
    requires Inv(q) && CanConsume(q)
    ensures !ConsumeFails(q) && Inv(DoConsume(q))
  {
    hide ChainsOk, AllocOk, RingOk, IdsOk, Disjoint;
    AtMostTwo(q.free, q.chains);
    var any := Chain(0, 0, 0, 0, InFlight);
    RingConsume(q.chains, q.availRing, q.availQ, q.devN, q.devIdx, q.availIdx, Queued, Filled, any);
    var h := q.availQ[0];
    RingConsume(q.chains, q.availRing, q.availQ, q.devN, q.devIdx, q.availIdx, Queued, Filled,
                q.chains[h].(stage := InFlight));
    ChainsStage(q, h, InFlight);
    StageFrame(q.free, q.chains, h, InFlight);
    IdsStage(q.chains, q.nextId, q.completed, q.marked, h, InFlight);
    RingFrame(q.chains, DoConsume(q).chains, q.usedRing, q.usedQ, q.seenN, q.seenIdx, q.usedIdx, Used, Staged);
  }

  lemma ChainsComplete(q: Vq, h: nat)
    requires ChainsOk(q.free, q.desc, q.ops, q.info, q.busy, q.chains) && Disjoint(q.chains) && CanComplete(q, h)
    ensures !CompleteFails(q, h)
    ensures var n := DoComplete(q, h); ChainsOk(n.free, n.desc, n.ops, n.info, n.busy, n.chains)
  {
    assert ChainOk(q.free, q.desc, q.ops, q.info, q.busy, h, q.chains[h]);
    var n := DoComplete(q, h);
    forall k | k in n.chains
      ensures ChainOk(n.free, n.desc, n.ops, n.info, n.busy, k, n.chains[k])
    {
      assert ChainOk(q.free, q.desc, q.ops, q.info, q.busy, k, q.chains[k]);
    }
  }

  lemma KeepComplete(q: Vq, h: nat)
    requires Inv(q) && CanComplete(q, h)
    ensures !CompleteFails(q, h) && Inv(DoComplete(q, h))
  {
    hide ChainsOk, AllocOk, RingOk, IdsOk, Disjoint;
    ChainsComplete(q, h);
    AtMostTwo(q.free, q.chains);
    var n := DoComplete(q, h);
    StageFrame(q.free, q.chains, h, Staged);
    IdsStage(q.chains, q.nextId, q.completed, q.marked, h, Staged);
    RingFrame(q.chains, n.chains, q.availRing, q.availQ, q.devN, q.devIdx, q.availIdx, Queued, Filled);
    RingWrite(q.chains, n.chains, q.usedRing, q.usedQ, q.seenN, q.seenIdx, q.usedIdx, Used, Staged, h);
  }

  lemma StagedStatus(q: Vq, h: nat)
    requires ChainsOk(q.free, q.desc, q.ops, q.info, q.busy, q.chains) && h in q.chains && q.chains[h].stage.Staged?
    ensures h < |q.info| && q.info[h].status == 0
  {
  }

  lemma KeepPost(q: Vq, h: nat)
    requires Inv(q) && CanPost(q, h)
    ensures Inv(DoPost(q, h))
  {
    hide ChainsOk, AllocOk, RingOk, IdsOk, Disjoint;
    StagedStatus(q, h);
    ChainsStage(q, h, Used);
    StageFrame(q.free, q.chains, h, Used);
    IdsStage(q.chains, q.nextId, q.completed, q.marked, h, Used);
    RingFrame(q.chains, DoPost(q, h).chains, q.availRing, q.availQ, q.devN, q.devIdx, q.availIdx, Queued, Filled);
    RingPublish(q.chains, q.usedRing, q.usedQ, q.seenN, q.seenIdx, q.usedIdx, Used, Staged, h,
                q.chains[h].(stage := Used));
  }

  lemma ChainsMark(q: Vq, h: nat)
    requires ChainsOk(q.free, q.desc, q.ops, q.info, q.busy, q.chains) && Disjoint(q.chains)
    requires h in q.chains && q.chains[h].stage.Used?
    ensures h < NUM && |q.info| == NUM && q.info[h].status == 0 && q.info[h].b == Some(q.chains[h].buf)
    ensures ChainsOk(q.free, q.desc, q.ops, q.info, q.busy - {q.chains[h].buf},
                     q.chains[h := q.chains[h].(stage := Marked)])
  {
    assert ChainOk(q.free, q.desc, q.ops, q.info, q.busy, h, q.chains[h]);
    var cs := q.chains[h := q.chains[h].(stage := Marked)];
    forall k | k in cs
      ensures ChainOk(q.free, q.desc, q.ops, q.info, q.busy - {q.chains[h].buf}, k, cs[k])
    {
      assert ChainOk(q.free, q.desc, q.ops, q.info, q.busy, k, q.chains[k]);
    }
  }

  lemma KeepInterrupt(q: Vq)
    requires Inv(q) && CanInterrupt(q)
    ensures !InterruptFails(q) && Inv(DoInterrupt(q))
  {
    hide ChainsOk, AllocOk, RingOk, IdsOk, Disjoint;
    AtMostTwo(q.free, q.chains);
    RingConsume(q.chains, q.usedRing, q.usedQ, q.seenN, q.seenIdx, q.usedIdx, Used, Staged, Chain(0, 0, 0, 0, Marked));
    var h := q.usedQ[0];
    ChainsMark(q, h);
    RingConsume(q.chains, q.usedRing, q.usedQ, q.seenN, q.seenIdx, q.usedIdx, Used, Staged,
                q.chains[h].(stage := Marked));
    StageFrame(q.free, q.chains, h, Marked);
    IdsStage(q.chains, q.nextId, q.completed, q.marked, h, Marked);
    RingFrame(q.chains, DoInterrupt(q).chains, q.availRing, q.availQ, q.devN, q.devIdx, q.availIdx, Queued, Filled);
  }

  /** free_chain on a finished request: no panic, and exactly its three descriptors become free. */
  lemma FreeChainOk(q: Vq, h: nat, c: Chain)
    requires |q.free| == NUM && |q.desc| == NUM
    requires h < NUM && c.d1 < NUM && c.d2 < NUM && h != c.d1 && h != c.d2 && c.d1 != c.d2
    requires !q.free[h] && !q.free[c.d1] && !q.free[c.d2]
    requires q.desc[h].more && q.desc[h].next == c.d1 && q.desc[c.d1].more && q.desc[c.d1].next == c.d2
    requires !q.desc[c.d2].more
    ensures FreeChain(q, h) ==
            Some(q.(desc := q.desc[h := Cleared][c.d1 := Cleared][c.d2 := Cleared],
                    free := q.free[h := true][c.d1 := true][c.d2 := true]))
  {
    var q1 := FreeOne(q, h);
    var q2 := FreeOne(q1, c.d1);
    assert FreeChain(q2, c.d2) == Some(FreeOne(q2, c.d2));
    assert FreeChain(q1, c.d1) == FreeChain(q2, c.d2);
  }

  lemma ReleaseOne(free: seq<bool>, d: nat)
    requires d < |free| && !free[d]
    ensures |Taken(free[d := true])| == |Taken(free)| - 1
  {
    assert Taken(free[d := true]) == Taken(free) - {d};
  }

  lemma AllocFinish(free: seq<bool>, chains: map<nat, Chain>, h: nat)
    requires AllocOk(free, chains) && h in chains
    requires var c := chains[h];
             && h < NUM && c.d1 < NUM && c.d2 < NUM && h != c.d1 && h != c.d2 && c.d1 != c.d2
             && !free[h] && !free[c.d1] && !free[c.d2]
    ensures AllocOk(free[h := true][chains[h].d1 := true][chains[h].d2 := true], chains - {h})
  {
    hide Taken;
    var c := chains[h];
    var f, cs := free[h := true][c.d1 := true][c.d2 := true], chains - {h};
    ReleaseOne(free, h);
    ReleaseOne(free[h := true], c.d1);
    ReleaseOne(free[h := true][c.d1 := true], c.d2);
    forall d | 0 <= d < NUM && !f[d]
      ensures InChain(cs, d)
    {
      assert d !in Parts(h, c) && !free[d] && InChain(chains, d);
      var k :| k in chains && d in Parts(k, chains[k]);
      assert k in cs && d in Parts(k, cs[k]);
    }
  }

  /** Freeing request h leaves request k as it is. */
  lemma OtherChain(q: Vq, n: Vq, h: nat, k: nat)
    requires h in q.chains && k in q.chains
    requires |q.free| == NUM && |q.desc| == NUM && |q.info| == NUM
    requires ChainOk(q.free, q.desc, q.ops, q.info, q.busy, k, q.chains[k])
    requires {h, q.chains[h].d1, q.chains[h].d2} !! {k, q.chains[k].d1, q.chains[k].d2}
    requires h < NUM && q.chains[h].d1 < NUM && q.chains[h].d2 < NUM
    requires n == Freed(q, h)
    ensures ChainOk(n.free, n.desc, n.ops, n.info, n.busy, k, q.chains[k])
  {
  }

  /** The state once request h is over. */
  function Freed(q: Vq, h: nat): Vq
    requires h in q.chains && |q.free| == NUM && |q.desc| == NUM && |q.info| == NUM
    requires h < NUM && q.chains[h].d1 < NUM && q.chains[h].d2 < NUM
  {
    var c := q.chains[h];
    q.(info := q.info[h := q.info[h].(b := None)], chains := q.chains - {h},
       desc := q.desc[h := Cleared][c.d1 := Cleared][c.d2 := Cleared],
       free := q.free[h := true][c.d1 := true][c.d2 := true])
  }

  lemma ChainsFinish(q: Vq, h: nat)
    requires ChainsOk(q.free, q.desc, q.ops, q.info, q.busy, q.chains) && Disjoint(q.chains) && h in q.chains
    requires |q.free| == NUM && |q.desc| == NUM && |q.info| == NUM
    requires h < NUM && q.chains[h].d1 < NUM && q.chains[h].d2 < NUM
    ensures var n := Freed(q, h);
            ChainsOk(n.free, n.desc, n.ops, n.info, n.busy, n.chains) && Disjoint(n.chains)
  {
    hide ChainOk;
    var n := Freed(q, h);
    forall k | k in n.chains
      ensures ChainOk(n.free, n.desc, n.ops, n.info, n.busy, k, n.chains[k])
    {
      assert Parts(h, q.chains[h]) !! Parts(k, q.chains[k]);
      OtherChain(q, n, h, k);
    }
  }

  lemma IdsFinish(chains: map<nat, Chain>, nextId: nat, completed: seq<nat>, marked: seq<nat>, h: nat)
    requires IdsOk(chains, nextId, completed, marked) && h in chains && chains[h].stage.Marked?
    ensures IdsOk(chains - {h}, nextId, completed, marked)
  {
    var cs := chains - {h};
    forall i | 0 <= i < nextId && i !in marked
      ensures exists k :: k in cs && cs[k].id == i
    {
      var k :| k in chains && chains[k].id == i;
      assert k in cs && cs[k].id == i;
    }
  }

  lemma KeepFinish(q: Vq, h: nat)
    requires Inv(q) && CanFinish(q, h)
    ensures DoFinish(q, h).Some? && Inv(DoFinish(q, h).value)
    ensures q.chains[h].stage.Marked? && q.chains[h].id in q.marked && q.chains[h].id in q.completed
  {
    hide AllocOk, RingOk, IdsOk, Disjoint, Taken, FreeChain;
    var c := q.chains[h];
    assert ChainOk(q.free, q.desc, q.ops, q.info, q.busy, h, c);
    var q' := q.(info := q.info[h := q.info[h].(b := None)], chains := q.chains - {h});
    FreeChainOk(q', h, c);
    var n := DoFinish(q, h).value;
    assert n == Freed(q, h);
    ChainsFinish(q, h);
    AllocFinish(q.free, q.chains, h);
    IdsFinish(q.chains, q.nextId, q.completed, q.marked, h);
    MarkedIds(q.chains, q.nextId, q.completed, q.marked, h);
    RingFrame(q.chains, n.chains, q.availRing, q.availQ, q.devN, q.devIdx, q.availIdx, Queued, Filled);
    RingFrame(q.chains, n.chains, q.usedRing, q.usedQ, q.seenN, q.seenIdx, q.usedIdx, Used, Staged);
  }

  lemma MarkedIds(chains: map<nat, Chain>, nextId: nat, completed: seq<nat>, marked: seq<nat>, h: nat)
    requires IdsOk(chains, nextId, completed, marked) && h in chains && chains[h].stage.Marked?
    ensures chains[h].id in marked && chains[h].id in completed
  {
  }

  // ----- Whole runs -----

  /** virtio_disk_init. */
  ghost predicate Initial(q: Vq) {
    && Shape(q) && (forall d :: 0 <= d < NUM ==> q.free[d])
    && q.availIdx == 0 && q.devIdx == 0 && q.usedIdx == 0 && q.seenIdx == 0
    && q.busy == {} && q.chains == map[] && q.availQ == [] && q.usedQ == []
    && q.devN == 0 && q.seenN == 0 && q.nextId == 0 && q.completed == [] && q.marked == []
  }

  lemma InitialInv(q: Vq)
    requires Initial(q)
    ensures Inv(q)
  {
  }

  /** No enabled action of the driver or the device fails, and the invariant is kept. */
  lemma StepIsSafe(q: Vq, a: Action)
    requires Inv(q) && Enabled(q, a)
    ensures !Fails(q, a) && Inv(Next(q, a))
  {
    hide Inv;
    match a
    case Fill(b, req, d0, d1, d2) => KeepFill(q, b, req, d0, d1, d2);
    case Publish(d0) => KeepPublish(q, d0);
    case Consume => KeepConsume(q);
    case Complete(h) => KeepComplete(q, h);
    case Post(h) => KeepPost(q, h);
    case Interrupt => KeepInterrupt(q);
    case Finish(h) => KeepFinish(q, h);
  }

  ghost predicate Leads(q: Vq, acts: seq<Action>, r: Vq)
    decreases |acts|
  {
    if acts == [] then r == q
    else Enabled(q, acts[0]) && !Fails(q, acts[0]) && Leads(Next(q, acts[0]), acts[1..], r)
  }

  lemma {:induction false} RunsKeepInv(q: Vq, acts: seq<Action>, r: Vq)
    requires Inv(q) && Leads(q, acts, r)
    ensures Inv(r)
    decreases |acts|
  {
    hide Inv, Enabled, Fails, Next;
    if acts != [] {
      StepIsSafe(q, acts[0]);
      RunsKeepInv(Next(q, acts[0]), acts[1..], r);
    }
  }

  /** For every interleaving of callers, interrupts and device: nothing panics, the device reads only
      well-formed three-descriptor requests, each at most once.  The device of this model completes every request
      with status 0, so the panic on another status is not among the failures. */
  lemma NothingFails(q0: Vq, acts: seq<Action>, q: Vq, a: Action)
    requires Initial(q0) && Leads(q0, acts, q) && Enabled(q, a)
    ensures !Fails(q, a)
  {
    InitialInv(q0);
    RunsKeepInv(q0, acts, q);
    StepIsSafe(q, a);
  }

  /** The ring entry virtio_disk_rw writes was consumed by the device, whatever the index wrapped to. */
  lemma NoEntryOverwritten(q0: Vq, acts: seq<Action>, q: Vq, i: nat)
    requires Initial(q0) && Leads(q0, acts, q) && LockFree(q.chains)
    requires i < |q.availQ|
    ensures |q.availRing| == NUM && q.availRing[(q.devN + i) % NUM] == q.availQ[i]
    ensures (q.devN + i) % NUM != q.availIdx % NUM
  {
    hide Initial, Leads, Enabled, Fails, Next, ChainsOk, Disjoint, IdsOk, AllocOk, RingOk;
    InitialInv(q0);
    RunsKeepInv(q0, acts, q);
    AtMostTwo(q.free, q.chains);
    SlotKept(q.chains, q.availRing, q.availQ, q.devN, q.devIdx, q.availIdx, Queued, Filled, i);
  }

  lemma SlotKept(chains: map<nat, Chain>, ring: seq<nat>, q: seq<nat>, n: nat, consumer: nat, producer: nat,
                 on: Stage, unp: Stage, i: nat)
    requires RingOk(chains, ring, q, n, consumer, producer, on, unp) && |chains| <= 2 && i < |q|
    ensures |ring| == NUM && ring[(n + i) % NUM] == q[i] && (n + i) % NUM != producer % NUM
  {
    Wraps(n + |q|);
    SlotsDiffer(n, i, |q|);
  }

  /** A caller returns only after its own request was completed by the device and then marked once by
      the interrupt handler. */
  lemma CallersWait(q0: Vq, acts: seq<Action>, q: Vq, h: nat)
    requires Initial(q0) && Leads(q0, acts, q) && CanFinish(q, h)
    ensures q.chains[h].id in q.marked && q.chains[h].id in q.completed
    ensures Distinct(q.marked) && Distinct(q.completed)
  {
    InitialInv(q0);
    RunsKeepInv(q0, acts, q);
    KeepFinish(q, h);
  }
}
