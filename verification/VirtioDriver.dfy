/** The code of kernel/virtio_disk.c that works on the shared rings, method by method.  Each critical
    section is matched by actions of the step system in module Virtqueue. */
module VirtioDriver {
  import opened Prelude
  import opened Virtqueue

  /** Free descriptors are zeroed, as virtio_disk_init and free_desc leave them. */
  ghost predicate FreeCleared(free: seq<bool>, desc: seq<Desc>) {
    |free| == NUM && |desc| == NUM && forall d :: 0 <= d < NUM && free[d] ==> desc[d] == Cleared
  }

  lemma {:induction false} LeadsAppend(q: Vq, acts: seq<Action>, r: Vq, a: Action)
    requires Leads(q, acts, r) && Enabled(r, a) && !Fails(r, a)
    ensures Leads(q, acts + [a], Next(r, a))
    decreases |acts|
  {
    if acts == [] {
      assert [a][1..] == [] && acts + [a] == [a];
      assert Leads(Next(r, a), [], Next(r, a));
    } else {
      LeadsAppend(Next(q, acts[0]), acts[1..], r, a);
      assert (acts + [a])[1..] == acts[1..] + [a];
    }
  }

  /** Request req for buffer b is published under head h, and the other requests are as they were. */
  ghost predicate Submitted(q: Vq, r: Vq, h: nat, b: nat, req: Request) {
    && h !in q.chains && h in r.chains && r.chains == q.chains[h := r.chains[h]]
    && r.chains[h].buf == b && r.chains[h].stage == Queued && b in r.busy
    && h < |r.ops| && r.ops[h] == req
  }

  class Disk {
    // shared with the device
    var desc: seq<Desc>
    var ops: seq<Request>
    var info: seq<Info>
    var availRing: seq<nat>
    var availIdx: nat
    var usedRing: seq<nat>
    var usedIdx: nat
    // the driver's own
    var free: seq<bool>
    var seenIdx: nat
    var busy: set<nat>
    ghost var origin: Vq
    ghost var trace: seq<Action>
    ghost var q: Vq

    ghost predicate Running()
      reads this
    {
      Initial(origin) && Leads(origin, trace, q) && Inv(q)
    }

    ghost predicate Matches()
      reads this
    {
      Matched(q)
    }

    ghost predicate Matched(q: Vq)
      reads this
    {
      && q.free == free && q.desc == desc && q.ops == ops && q.info == info
      && q.availRing == availRing && q.availIdx == availIdx && q.usedRing == usedRing && q.usedIdx == usedIdx
      && q.seenIdx == seenIdx && q.busy == busy
    }

    ghost predicate Sizes()
      reads this
    {
      && |free| == NUM && |desc| == NUM && |ops| == NUM && |info| == NUM && |availRing| == NUM && |usedRing| == NUM
      && availIdx < WRAP && usedIdx < WRAP && seenIdx < WRAP
    }

    ghost predicate Valid()
      reads this
    {
      Sizes() && Running() && Matches() && FreeCleared(free, desc) && LockFree(q.chains)
    }

    /** virtio_disk_init, as far as memory is concerned. */
    constructor ()
      ensures Valid() && trace == []
    {
      desc, ops := seq(NUM, _ => Cleared), seq(NUM, _ => Request(false, 0));
      info := seq(NUM, _ => Info(None, 0));
      availRing, availIdx := seq(NUM, _ => 0), 0;
      usedRing, usedIdx := seq(NUM, _ => 0), 0;
      free, seenIdx, busy := seq(NUM, _ => true), 0, {};
      var start := Vq(seq(NUM, _ => true), seq(NUM, _ => Cleared), seq(NUM, _ => Request(false, 0)),
                      seq(NUM, _ => Info(None, 0)), seq(NUM, _ => 0), 0, 0, seq(NUM, _ => 0), 0, 0,
                      {}, map[], [], [], 0, 0, 0, [], []);
      origin, q, trace := start, start, [];
      new;
      InitialInv(start);
    }

    ghost method Act(a: Action)
      requires Running() && Enabled(q, a)
      modifies this`q, this`trace
      ensures Running() && !Fails(old(q), a) && q == Next(old(q), a) && trace == old(trace) + [a]
    {
      hide Inv, Initial, Leads, Enabled, Fails, Next;
      StepIsSafe(q, a);
      LeadsAppend(origin, trace, q, a);
      q, trace := Next(q, a), trace + [a];
    }

    /** alloc_desc: the lowest free descriptor, now taken; NUM when there is none. */
    method AllocDesc() returns (i: nat)
      requires |free| == NUM
      modifies this`free
      ensures i <= NUM
      ensures i < NUM ==> old(free)[i] && free == old(free)[i := false] && forall j :: 0 <= j < i ==> !old(free)[j]
      ensures i == NUM ==> free == old(free) && forall j :: 0 <= j < NUM ==> !free[j]
    {
      i := 0;
      while i < NUM
        invariant 0 <= i <= NUM && free == old(free) && forall j :: 0 <= j < i ==> !free[j]
      {
        if free[i] {
          free := free[i := false];
          return;
        }
        i := i + 1;
      }
    }

    /** free_desc; false is one of its panics. */
    method FreeDesc(i: nat) returns (ok: bool)
      requires |free| == NUM && |desc| == NUM
      modifies this`free, this`desc
      ensures ok <==> i < NUM && !old(free)[i]
      ensures ok ==> free == old(free)[i := true] && desc == old(desc)[i := Cleared]
      ensures !ok ==> free == old(free) && desc == old(desc)
    {
      if i >= NUM || free[i] {
        return false;
      }
      desc := desc[i := Cleared];
      free := free[i := true];
      ok := true;
    }

    /** alloc3_desc: three descriptors, or none at all when fewer are free. */
    method Alloc3Desc() returns (ok: bool, idx: seq<nat>)
      requires FreeCleared(free, desc)
      modifies this`free, this`desc
      ensures FreeCleared(free, desc) && desc == old(desc)
      ensures ok <==> |Taken(old(free))| + 3 <= NUM
      ensures !ok ==> free == old(free)
      ensures ok ==>
                && |idx| == 3 && idx[0] < NUM && idx[1] < NUM && idx[2] < NUM
                && idx[0] != idx[1] && idx[0] != idx[2] && idx[1] != idx[2]
                && old(free)[idx[0]] && old(free)[idx[1]] && old(free)[idx[2]]
                && free == old(free)[idx[0] := false][idx[1] := false][idx[2] := false]
    {
      idx := [];
      var i := 0;
      while i < 3
        invariant 0 <= i == |idx| <= 3 && FreeCleared(free, desc) && desc == old(desc)
        invariant Distinct(idx) && forall j :: 0 <= j < i ==> idx[j] < NUM && old(free)[idx[j]]
        invariant forall d :: 0 <= d < NUM ==> (free[d] <==> old(free)[d] && d !in idx)
      {
        var d := AllocDesc();
        if d == NUM {
          TakenCount(old(free), idx);
          GiveBack(idx, old(free));
          return false, idx;
        }
        idx := idx + [d];
        i := i + 1;
      }
      assert idx == [idx[0], idx[1], idx[2]];
      TakenCount(old(free), idx);
      ok := true;
    }

    /** The rollback loop of alloc3_desc. */
    method GiveBack(idx: seq<nat>, ghost was: seq<bool>)
      requires FreeCleared(free, desc) && |was| == NUM && Distinct(idx)
      requires forall j :: 0 <= j < |idx| ==> idx[j] < NUM && was[idx[j]] && desc[idx[j]] == Cleared
      requires forall d :: 0 <= d < NUM ==> (free[d] <==> was[d] && d !in idx)
      modifies this`free, this`desc
      ensures free == was && desc == old(desc)
    {
      var j := 0;
      while j < |idx|
        invariant 0 <= j <= |idx| && |free| == NUM && desc == old(desc)
        invariant forall d :: 0 <= d < NUM ==> (free[d] <==> was[d] && d !in idx[j..])
      {
        assert idx[j] in idx[j..];
        var ok := FreeDesc(idx[j]);
        assert idx[j..] == [idx[j]] + idx[j + 1..];
        assert desc == old(desc);
        j := j + 1;
      }
    }

    /** free_chain: stops by itself, because free_desc refuses a descriptor that is already free. */
    method FreeAll(h: nat, ghost v: Vq) returns (ok: bool)
      requires |free| == NUM && |desc| == NUM && v.free == free && v.desc == desc
      modifies this`free, this`desc
      ensures |free| == NUM && |desc| == NUM
      ensures ok <==> FreeChain(v, h).Some?
      ensures ok ==> FreeChain(v, h).value == v.(free := free, desc := desc)
    {
      var i: nat := h;
      ghost var w := v;
      while true
        invariant |free| == NUM && |desc| == NUM && w == v.(free := free, desc := desc)
        invariant FreeChain(v, h) == FreeChain(w, i)
        decreases Taken(free)
      {
        if i < NUM && !free[i] {
          assert i in Taken(free);
          var more, nxt := desc[i].more, desc[i].next;
          ok := FreeDesc(i);
          w := FreeOne(w, i);
          if !more {
            break;
          }
          i := nxt;
        } else {
          ok := FreeDesc(i);
          break;
        }
      }
    }

    /** Format the three descriptors, record the buffer and write the avail ring entry. */
    method Format(b: nat, req: Request, d0: nat, d1: nat, d2: nat)
      requires Sizes() && d0 < NUM && d1 < NUM && d2 < NUM && d0 != d1 && d0 != d2 && d1 != d2
      modifies this`ops, this`desc, this`busy, this`info, this`availRing
      ensures Sizes() && ops == old(ops)[d0 := req] && busy == old(busy) + {b}
      ensures desc == old(desc)[d0 := Desc(RequestOf(d0), true, false, d1)]
                               [d1 := Desc(DataOf(b), true, !req.write, d2)]
                               [d2 := Desc(StatusOf(d0), false, true, 0)]
      ensures info == old(info)[d0 := Info(Some(b), 0xff)] && availRing == old(availRing)[availIdx % NUM := d0]
    {
      ops := ops[d0 := req];
      desc := desc[d0 := Desc(RequestOf(d0), true, false, d1)];
      desc := desc[d1 := Desc(DataOf(b), true, !req.write, d2)];
      desc := desc[d2 := Desc(StatusOf(d0), false, true, 0)];
      info := info[d0 := info[d0].(status := 0xff)];
      busy := busy + {b};
      info := info[d0 := info[d0].(b := Some(b))];
      availRing := availRing[availIdx % NUM := d0];
    }

    /** virtio_disk_rw up to its wait: false means that it must sleep for descriptors first. */
    method Submit(b: nat, write: bool, blockno: nat) returns (ok: bool, h: nat)
      requires Valid() && forall k :: k in q.chains ==> q.chains[k].buf != b
      modifies this
      ensures Valid() && origin == old(origin) && old(trace) <= trace
      ensures ok <==> |old(q).chains| < 2
      ensures !ok ==> q == old(q)
      ensures ok ==> Submitted(old(q), q, h, b, Request(write, blockno * 2))
    {
      hide Inv, Initial, Leads, Taken, FreeCleared, LockFree, Submitted;
      var idx;
      ThreeEach(q);
      ok, idx := Alloc3Desc();
      h := 0;
      if ok {
        NewHead(q, idx[0]);
        Issue(b, Request(write, blockno * 2), idx[0], idx[1], idx[2]);
        h := idx[0];
      }
    }

    /** With its three descriptors: format them, write the ring entry and publish it. */
    method Issue(b: nat, req: Request, d0: nat, d1: nat, d2: nat)
      requires Sizes() && Running() && CanFill(q, b, d0, d1, d2) && FreeCleared(q.free, q.desc)
      requires var f := q.free[d0 := false][d1 := false][d2 := false]; free == f && Matched(q.(free := f))
      modifies this`ops, this`desc, this`busy, this`info, this`availRing, this`availIdx, this`q, this`trace
      ensures Valid() && old(trace) <= trace && Submitted(old(q), q, d0, b, req)
    {
      hide Inv, Initial, Leads, Fails, Taken, Enabled, Next, FreeCleared, LockFree, Submitted;
      NewHead(q, d0);
      SubmitSteps(q, b, req, d0, d1, d2);
      Format(b, req, d0, d1, d2);
      Act(Fill(b, req, d0, d1, d2));
      availIdx := (availIdx + 1) % WRAP;
      Act(Publish(d0));
    }

    /** The wait of virtio_disk_rw is over: it frees the chain, without a panic. */
    method Return(h: nat) returns (ok: bool)
      requires Valid() && h in q.chains && h < NUM && q.chains[h].buf !in busy
      modifies this
      ensures Valid() && origin == old(origin) && old(trace) <= trace && ok
      ensures q.chains == old(q).chains - {h}
      ensures old(q).chains[h].id in q.marked && old(q).chains[h].id in q.completed
    {
      hide Initial, Leads, Fails, Taken, FreeChain, ChainsOk, Disjoint, AllocOk, RingOk, IdsOk;
      KeepFinish(q, h);
      FinishShape(q, h);
      info := info[h := info[h].(b := None)];
      ok := FreeAll(h, q.(info := info, chains := q.chains - {h}));
      Act(Finish(h));
    }

    /** virtio_disk_intr: marks every completed request and meets no bad status. */
    method Interrupted() returns (ok: bool)
      requires Valid()
      modifies this`q, this`trace, this`busy, this`seenIdx
      ensures Valid() && old(trace) <= trace && ok && seenIdx == usedIdx
      ensures q.chains.Keys == old(q).chains.Keys && forall h :: h in q.chains ==> !q.chains[h].stage.Used?
    {
      hide Initial, Leads, ChainsOk, Disjoint, AllocOk, RingOk, IdsOk, FreeCleared;
      while seenIdx != usedIdx
        invariant Sizes() && Running() && Matches() && FreeCleared(free, desc) && LockFree(q.chains)
        invariant old(trace) <= trace && q.chains.Keys == old(q).chains.Keys
        decreases |q.usedQ|
      {
        KeepInterrupt(q);
        var id := usedRing[seenIdx % NUM];
        if info[id].status != 0 {
          assert false;
        }
        busy := busy - {info[id].b.value};
        Act(Interrupt);
        seenIdx := (seenIdx + 1) % WRAP;
      }
      AllSeen(q);
      ok := true;
    }

    /** What the device does to memory between the driver's sections. */
    method DeviceStep(a: Action)
      requires Valid() && Enabled(q, a) && (a.Consume? || a.Complete? || a.Post?)
      modifies this`q, this`trace, this`info, this`usedRing, this`usedIdx
      ensures Valid() && trace == old(trace) + [a]
    {
      hide Inv, Initial, Leads;
      Act(a);
      if a.Complete? {
        var s := desc[desc[desc[a.h].next].next].addr.i;
        info := info[s := info[s].(status := 0)];
        usedRing := usedRing[usedIdx % NUM := a.h];
      } else if a.Post? {
        usedIdx := (usedIdx + 1) % WRAP;
      }
    }
  }

  /** Free descriptors that were picked are not taken ones; when no other is free, that is all of them. */
  lemma TakenCount(free: seq<bool>, idx: seq<nat>)
    requires |free| == NUM && Distinct(idx) && forall j :: 0 <= j < |idx| ==> idx[j] < NUM && free[idx[j]]
    ensures |Taken(free)| + |idx| <= NUM
    ensures (forall d :: 0 <= d < NUM && free[d] ==> d in idx) ==> |Taken(free)| + |idx| == NUM
  {
    var all := Range(0, NUM);
    var picked := Elements(idx);
    DistinctSize(idx);
    assert Taken(free) !! picked && Taken(free) + picked <= all;
    SubsetSize(Taken(free) + picked, all);
    if forall d :: 0 <= d < NUM && free[d] ==> d in idx {
      SubsetSize(all, Taken(free) + picked);
    }
  }

  lemma ThreeEach(q: Vq)
    requires Inv(q)
    ensures |Taken(q.free)| == 3 * |q.chains|
  {
    hide ChainsOk, Disjoint, RingOk, IdsOk, Taken;
  }

  lemma NewHead(q: Vq, d: nat)
    requires Inv(q) && d < NUM && q.free[d]
    ensures d !in q.chains && Shape(q)
  {
    hide Disjoint, AllocOk, RingOk, IdsOk;
    assert d in q.chains ==> ChainOk(q.free, q.desc, q.ops, q.info, q.busy, d, q.chains[d]);
  }

  lemma FinishShape(q: Vq, h: nat)
    requires Inv(q) && CanFinish(q, h)
    requires FreeCleared(q.free, q.desc)
    ensures DoFinish(q, h).Some?
    ensures FreeCleared(DoFinish(q, h).value.free, DoFinish(q, h).value.desc)
    ensures DoFinish(q, h).value.chains == q.chains - {h}
    ensures DoFinish(q, h).value.marked == q.marked && DoFinish(q, h).value.completed == q.completed
  {
    hide FreeChain, Disjoint, AllocOk, RingOk, IdsOk;
    assert ChainOk(q.free, q.desc, q.ops, q.info, q.busy, h, q.chains[h]);
    FreeChainOk(q.(info := q.info[h := q.info[h].(b := None)], chains := q.chains - {h}), h, q.chains[h]);
  }

  lemma AllSeen(q: Vq)
    requires Inv(q) && q.seenIdx == q.usedIdx
    ensures forall h :: h in q.chains ==> !q.chains[h].stage.Used?
  {
    hide ChainsOk, Disjoint, AllocOk, IdsOk;
    AtMostTwo(q.free, q.chains);
    IndexTest(q.seenN, |q.usedQ|);
  }

  lemma SubmitSteps(q: Vq, b: nat, req: Request, d0: nat, d1: nat, d2: nat)
    requires CanFill(q, b, d0, d1, d2) && d0 !in q.chains && FreeCleared(q.free, q.desc)
    ensures var f := DoFill(q, b, req, d0, d1, d2);
            FreeCleared(f.free, f.desc) && LockFree(DoPublish(f, d0).chains) && Submitted(q, DoPublish(f, d0), d0, b, req)
    ensures var a := Fill(b, req, d0, d1, d2);
            && Enabled(q, a) && !Fails(q, a) && Next(q, a) == DoFill(q, b, req, d0, d1, d2)
            && var f := DoFill(q, b, req, d0, d1, d2);
            && Enabled(f, Publish(d0)) && !Fails(f, Publish(d0)) && CanPublish(f, d0)
            && Next(f, Publish(d0)) == DoPublish(f, d0)
  {
  }
}
