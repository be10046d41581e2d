/** kernel/log.c on top of the buffer cache class, method by method.  Every disk write and lock
    operation of the code is matched by an action of the step system in module CrashLog, so the
    object carries a run of that system that leads from power-on to its present state. */
module Log {
  import opened Prelude
  import G = GroupCommit
  import C = CrashLog
  import B = BufferCache

  function OnDisk(disk: map<nat, C.Block>): map<B.Key, C.Block> {
    map b | b in disk :: BlockKey(b) := disk[b]
  }

  function BlockKey(b: nat): B.Key { B.Key(B.ROOTDEV, b) }

  lemma OnDiskUpdate(disk: map<nat, C.Block>, b: nat, d: C.Block)
    ensures OnDisk(disk[b := d]) == OnDisk(disk)[BlockKey(b) := d]
  {
  }

  lemma ObserveUpdate(cache: map<nat, C.Line>, b: nat, l: C.Line)
    ensures B.Observe(cache[b := l]) == B.Observe(cache)[BlockKey(b) := B.Watched(l)]
  {
  }

  /** No thread is between bget and brelse on any buffer but these. */
  ghost predicate FreeBut(cache: map<nat, C.Line>, busy: set<nat>) {
    forall b :: b in cache && b !in busy ==> cache[b].refs == {}
  }

  /** The blocks whose buffers are referenced or pinned. */
  ghost function Held(cache: map<nat, C.Line>): set<nat> { set b | b in cache && cache[b].refcnt > 0 }

  /** The blocks whose log pin is still in place. */
  ghost function Pins(s: C.State): seq<nat> { C.Pinned(s.phase, s.g.blocks) }

  /** The same transaction, at another point of commit or recovery. */
  ghost predicate SameLog(a: C.State, b: C.State) {
    b == a.(disk := b.disk, cache := b.cache, phase := b.phase)
  }

  /** Reading b left the other buffers alone, apart from recycling unreferenced ones. */
  ghost predicate Kept(before: map<nat, C.Line>, after: map<nat, C.Line>, b: nat) {
    && (forall x :: x in after && x != b ==> x in before && after[x] == before[x])
    && (forall x :: x in before && x != b && before[x].refcnt > 0 ==> x in after)
  }

  lemma {:induction false} LeadsAppend(c: C.Config, s0: C.State, acts: seq<C.Action>, s: C.State, a: C.Action)
    requires C.Leads(c, s0, acts, s) && C.Enabled(c, s, a)
    ensures C.Leads(c, s0, acts + [a], C.Next(c, s, a))
  {
    var n := C.Next(c, s, a);
    assert C.Leads(c, s, [a], n) by {
      assert [a][1..] == [] && C.Leads(c, n, [], n);
    }
    C.LeadsTrans(c, s0, acts, s, [a], n);
  }

  /** What must be in place before write_head, for either of its two uses. */
  ghost predicate HeadReady(s: C.State, a: C.Action, block: seq<nat>, n: nat) {
    && |block| == G.LOGSIZE && n <= G.LOGSIZE
    && (a == C.WriteHead || a == C.EraseHead)
    && (a == C.WriteHead ==> s.phase == C.Copying(n) && block[..n] == s.g.blocks)
    && (a == C.EraseHead ==>
          (s.phase.Installing? || s.phase.Recovering?) && s.phase.tail == |s.g.blocks| && n == 0)
  }

  /** The header block now lists these blocks, and commit or recovery moved on. */
  ghost predicate HeadWritten(c: C.Config, before: C.State, after: C.State, a: C.Action, block: seq<nat>, n: nat) {
    && FreeBut(after.cache, {})
    && c.start in after.disk && n <= |block| && C.Header(after.disk[c.start]) == block[..n]
    && after.disk == before.disk[c.start := after.disk[c.start]]
    && after == before.(disk := after.disk, cache := after.cache, phase := after.phase, durable := after.durable, g := after.g)
    && (a == C.WriteHead ==> after.phase == C.Installing(0) && after.g == before.g)
    && (a == C.EraseHead ==>
          && after.phase == (if before.phase.Installing? then C.Finishing else C.Idle)
          && after.g == G.Group([], map[], before.phase.Installing?))
  }

  /** Recovery completed: the home blocks, and what the file system reads, are the committed contents. */
  ghost predicate Restored(c: C.Config, before: C.State, after: C.State) {
    && before.durable <= |before.updates| && C.Plain(after) == C.Committed(before)
    && forall b :: b in after.disk && C.Home(c, b) ==>
           b in C.Committed(before) && after.disk[b] == C.Committed(before)[b]
  }

  /** A commit completed: every update is durable and in its home block. */
  ghost predicate Installed(c: C.Config, before: C.State, after: C.State) {
    && after.updates == before.updates && after.durable == |after.updates| && C.Committed(after) == C.Plain(before)
    && forall b :: b in after.disk && C.Home(c, b) ==> b in C.Plain(before) && after.disk[b] == C.Plain(before)[b]
  }

  class LogDevice {
    const bc: B.BCache
    const start: nat
    const size: nat
    var n: nat
    var block: seq<nat>
    var outstanding: nat
    var committing: bool
    ghost var origin: C.State
    ghost var trace: seq<C.Action>
    ghost var s: C.State

    ghost function Cfg(): C.Config { C.Config(start, size) }

    /** The run so far is a run of the step system. */
    ghost predicate Running()
      reads this
    {
      C.Initial(Cfg(), origin) && C.Leads(Cfg(), origin, trace, s) && C.SysInv(Cfg(), s)
    }

    ghost predicate Matches()
      reads this, bc
    {
      && bc.Valid() && bc.lines == B.Observe(s.cache) && bc.disk == OnDisk(s.disk)
    }

    ghost predicate HeaderMatches()
      reads this
    {
      && |block| == G.LOGSIZE && n <= G.LOGSIZE && block[..n] == s.g.blocks
      && outstanding == |s.g.ops| && (committing <==> C.Committing(s.phase))
    }

    ghost predicate Valid()
      reads this, bc
    {
      Running() && Matches() && HeaderMatches()
    }

    /** Power-on with a file-system image whose log header is empty; thread is the first process. */
    constructor (image: map<nat, C.Block>, start: nat, size: nat, ghost thread: nat)
      requires 0 < size && forall b :: start <= b < start + size ==> b in image
      requires image[start][0] == 0
      ensures Valid() && fresh(bc) && s.phase == C.Boot && s.committer == thread && s.cache == map[] && s.started == {}
      ensures s.disk == image && this.start == start && this.size == size && trace == [] && outstanding == 0
    {
      hide C.SysInv, C.Leads, C.Initial, B.Ring, B.Unique, B.Shows, B.Observe, Held, OnDisk, C.Header;
      bc := new B.BCache(OnDisk(image));
      this.start, this.size := start, size;
      n, block, outstanding, committing := 0, seq(G.LOGSIZE, _ => 0), 0, false;
      origin := C.State(image, map[], G.Group([], map[], true), C.Boot, thread, image, [], 0, {}, {});
      s := C.State(image, map[], G.Group([], map[], true), C.Boot, thread, image, [], 0, {}, {});
      trace := [];
      new;
      PowerOn(Cfg(), s);
    }

    /** The machine stops at any point between two block writes and starts again with the disk it left. */
    constructor Reboot(dead: LogDevice, ghost next: nat)
      requires dead.Running() && dead.Matches()
      ensures Valid() && fresh(bc) && start == dead.start && size == dead.size && origin == dead.origin
      ensures dead.s.durable <= |dead.s.updates| && s == C.DoCrash(dead.s, next)
      ensures trace == dead.trace + [C.Crash(next)]
    {
      hide C.SysInv, C.Leads, C.Initial, B.Ring, B.Unique, B.Shows, B.Observe, Held, OnDisk;
      CrashStep(dead.Cfg(), dead.origin, dead.trace, dead.s, next);
      bc := new B.BCache(dead.bc.disk);
      start, size := dead.start, dead.size;
      n, block, outstanding, committing := 0, seq(G.LOGSIZE, _ => 0), 0, false;
      origin, trace, s := dead.origin, dead.trace + [C.Crash(next)], C.DoCrash(dead.s, next);
      new;
    }

    ghost method Act(a: C.Action)
      requires Running() && C.Enabled(Cfg(), s, a)
      modifies this`s, this`trace
      ensures Running() && s == C.Next(Cfg(), old(s), a) && trace == old(trace) + [a]
    {
      hide C.SysInv, C.Leads, C.Enabled, C.Initial;
      C.StepKeepsSysInv(Cfg(), s, a);
      LeadsAppend(Cfg(), origin, trace, s, a);
      s, trace := C.Next(Cfg(), s, a), trace + [a];
    }

    /** bread of a block nobody else is using; None is bget's panic. */
    method Read(ghost t: nat, b: nat) returns (r: Option<nat>)
      requires Running() && Matches() && C.CanGet(Cfg(), s, t, b, None) && (b in s.cache ==> s.cache[b].refs == {})
      modifies this`s, this`trace, bc
      ensures Running() && Matches() && old(trace) <= trace
      ensures r.None? <==> |Held(old(s).cache)| >= B.NBUF && b !in Held(old(s).cache)
      ensures r.None? ==> s == old(s)
      ensures r.Some? ==> Held(s.cache) == Held(old(s).cache) + {b}
      ensures r.Some? ==>
                && r.value < B.NBUF && B.KeyOf(bc.bufs[r.value]) == BlockKey(b)
                && s == old(s).(cache := s.cache) && C.Owns(s, t, b) && s.cache[b].refs == {t} && !s.cache[b].dirty
                && Kept(old(s).cache, s.cache, b)
                && forall j :: 0 <= j < B.NBUF && old(bc.bufs)[j].refcnt > 0 ==>
                       B.KeyOf(bc.bufs[j]) == B.KeyOf(old(bc.bufs)[j])
    {
      hide C.SysInv, C.Leads, C.Initial, B.Ring, B.Unique, B.Shows, B.Observe, Held, OnDisk;
      ReadReady(Cfg(), s, b);
      NoRoom(b);
      ghost var victim;
      r, victim := bc.Bread(BlockKey(b));
      if r.Some? {
        ghost var v := VictimBlock(s.cache, victim, b);
        ghost var stale: C.Block := seq(C.WORDS, _ => 0);
        ReadStep(Cfg(), s, t, b, v, stale);
        ReadObserved(s, t, b, v);
        Act(C.Get(t, b, v, stale));
        Act(C.Lock(t, b));
        FreeLine(Cfg(), s, b);
        HeldMore(old(s).cache, s.cache, b);
      }
    }

    /** bget finds no buffer for b exactly when NBUF other blocks are held. */
    lemma NoRoom(b: nat)
      requires Matches()
      ensures BlockKey(b) !in bc.lines && (forall i :: 0 <= i < B.NBUF ==> bc.bufs[i].refcnt > 0)
              <==> |Held(s.cache)| >= B.NBUF && b !in Held(s.cache)
    {
      hide B.Ring, B.Unique, B.Shows, B.Observe, B.Busy, Held, OnDisk;
      B.BusyCount(bc.bufs, bc.lines);
      HeldIsBusy(s.cache);
    }

    /** The buffer with b's key is b's line. */
    lemma Seen(i: nat, b: nat)
      requires Matches() && i < B.NBUF && B.KeyOf(bc.bufs[i]) == BlockKey(b)
      ensures b in s.cache && B.View(bc.bufs[i]) == B.Watched(s.cache[b])
      ensures bc.bufs[i].dev != 0 && BlockKey(b) in bc.lines && bc.lines[BlockKey(b)] == B.Watched(s.cache[b])
    {
    }

    /** An operation changes the data of a buffer it has locked. */
    method Modify(ghost t: nat, i: nat, d: C.Block)
      requires Valid() && i < B.NBUF && bc.bufs[i].dev == B.ROOTDEV
      requires var b := bc.bufs[i].blockno; C.Owns(s, t, b) && C.Home(Cfg(), b) && t in s.g.ops
      modifies this`s, this`trace, bc
      ensures Valid() && trace == old(trace) + [C.Modify(t, old(bc.bufs)[i].blockno, d)]
      ensures old(bc.bufs)[i].blockno in old(s).cache && s == C.DoModify(old(s), t, old(bc.bufs)[i].blockno, d)
      ensures forall j :: 0 <= j < B.NBUF ==> B.KeyOf(bc.bufs[j]) == old(B.KeyOf(bc.bufs[j]))
    {
      hide C.SysInv, C.Leads, C.Initial, B.Ring, B.Unique, B.Shows, B.Observe, Held, OnDisk;
      ghost var b := bc.bufs[i].blockno;
      Seen(i, b);
      FreeLine(Cfg(), s, b);
      bc.Change(i, bc.bufs[i].(data := d));
      ObserveUpdate(s.cache, b, s.cache[b].(data := d, dirty := true));
      Act(C.Modify(t, b, d));
    }

    /** brelse of a buffer whose changes, if any, were logged or written. */
    method Release(ghost t: nat, i: nat, ghost b: nat)
      requires Running() && Matches() && C.Owns(s, t, b) && !s.cache[b].dirty
      requires i < B.NBUF && B.KeyOf(bc.bufs[i]) == BlockKey(b)
      modifies this`s, this`trace, bc
      ensures Running() && Matches() && old(trace) <= trace
      ensures s == old(s).(cache := old(s).cache[b := C.Released(old(s).cache[b], t)])
      ensures forall j :: 0 <= j < B.NBUF ==> B.KeyOf(bc.bufs[j]) == old(B.KeyOf(bc.bufs[j]))
    {
      hide C.SysInv, C.Leads, C.Initial, B.Ring, B.Unique, B.Observe, Held, OnDisk, B.SameOrder;
      Seen(i, b);
      FreeLine(Cfg(), s, b);
      bc.Brelse(i);
      ObserveUpdate(s.cache, b, C.Released(s.cache[b], t));
      Act(C.Release(t, b));
    }

    /** Fill the locked buffer of b with d and bwrite it, dropping the pin if asked: one action a. */
    method Store(i: nat, b: nat, d: C.Block, unpin: bool, ghost t: nat, ghost a: C.Action)
      requires Running() && Matches() && C.Enabled(Cfg(), s, a) && C.Owns(s, t, b)
      requires i < B.NBUF && B.KeyOf(bc.bufs[i]) == BlockKey(b)
      requires unpin ==> s.cache[b].refcnt > 1
      requires var n := C.Next(Cfg(), s, a);
               && n.disk == s.disk[b := d]
               && n.cache == s.cache[b := s.cache[b].(data := d, refcnt := if unpin then s.cache[b].refcnt - 1 else s.cache[b].refcnt)]
      modifies this`s, this`trace, bc
      ensures Running() && Matches() && old(trace) <= trace && s == C.Next(Cfg(), old(s), a)
      ensures forall j :: 0 <= j < B.NBUF ==> B.KeyOf(bc.bufs[j]) == old(B.KeyOf(bc.bufs[j]))
    {
      hide C.SysInv, C.Leads, C.Initial, C.Enabled, C.Next, B.Ring, B.Unique, B.Shows, B.Observe, Held, OnDisk;
      Seen(i, b);
      FreeLine(Cfg(), s, b);
      bc.Overwrite(i, d, unpin);
      OnDiskUpdate(s.disk, b, d);
      ObserveUpdate(s.cache, b, C.Next(Cfg(), s, a).cache[b]);
      Act(a);
    }

    /** The pair of buffers an iteration of write_log or install_trans works on: the tail-th log slot
        and the home block it belongs to. */
    method ReadPair(ghost t: nat, tail: nat) returns (slot: Option<nat>, home: Option<nat>)
      requires Valid() && FreeBut(s.cache, {}) && s.committer == t && !s.phase.Idle? && tail < n
      requires Pins(s) == [] || block[tail] in Pins(s)
      modifies this`s, this`trace, bc
      ensures Valid() && old(trace) <= trace && s == old(s).(cache := s.cache)
      ensures slot.Some? && home.Some? <==> |Pins(s)| < B.NBUF
      ensures slot.Some? && home.Some? ==>
                && slot.value < B.NBUF && B.KeyOf(bc.bufs[slot.value]) == BlockKey(C.Slot(Cfg(), tail))
                && home.value < B.NBUF && B.KeyOf(bc.bufs[home.value]) == BlockKey(block[tail])
                && C.Owns(s, t, C.Slot(Cfg(), tail)) && C.Owns(s, t, block[tail])
                && FreeBut(s.cache, {C.Slot(Cfg(), tail), block[tail]})
                && s.cache[C.Slot(Cfg(), tail)].refs == {t} && s.cache[block[tail]].refs == {t}
                && !s.cache[C.Slot(Cfg(), tail)].dirty && !s.cache[block[tail]].dirty
                && C.Slot(Cfg(), tail) != block[tail]
    {
      hide C.Pinned, C.SysInv, C.Leads, C.Initial, C.Enabled, C.Next, B.Ring, B.Unique, B.Shows, B.Observe, Held,
          OnDisk;
      home := None;
      PairBlocks(Cfg(), s, block, n, tail);
      PairRoom(Cfg(), s, tail);
      slot := Read(t, start + tail + 1);
      if slot.Some? {
        ghost var mine := s.cache[C.Slot(Cfg(), tail)];
        FreeLine(Cfg(), s, C.Slot(Cfg(), tail));
        Seen(slot.value, C.Slot(Cfg(), tail));
        home := Read(t, block[tail]);
        if home.Some? {
          assert s.cache[C.Slot(Cfg(), tail)] == mine;
        }
      }
    }

    /** brelse of both buffers of an iteration. */
    method ReleasePair(ghost t: nat, i: nat, ghost b: nat, j: nat, ghost c: nat)
      requires Running() && Matches() && b != c && C.Owns(s, t, b) && C.Owns(s, t, c)
      requires s.cache[b].refs == {t} && s.cache[c].refs == {t} && !s.cache[b].dirty && !s.cache[c].dirty
      requires FreeBut(s.cache, {b, c})
      requires i < B.NBUF && B.KeyOf(bc.bufs[i]) == BlockKey(b) && j < B.NBUF && B.KeyOf(bc.bufs[j]) == BlockKey(c)
      modifies this`s, this`trace, bc
      ensures Running() && Matches() && old(trace) <= trace
      ensures s == old(s).(cache := s.cache) && FreeBut(s.cache, {})
    {
      hide C.SysInv, C.Leads, C.Initial, B.Ring, B.Unique, B.Shows, B.Observe, Held, OnDisk, C.Enabled, C.Next;
      Release(t, i, b);
      Release(t, j, c);
    }

    /** An iteration of write_log.  False is bget's panic. */
    method CopyOne(ghost t: nat, tail: nat) returns (ok: bool)
      requires Valid() && FreeBut(s.cache, {}) && s.committer == t && s.phase == C.Copying(tail) && tail < n
      modifies this`s, this`trace, bc
      ensures Running() && Matches() && HeaderMatches() && old(trace) <= trace && SameLog(old(s), s)
      ensures ok <==> n < B.NBUF
      ensures ok ==> FreeBut(s.cache, {}) && s.phase == C.Copying(tail + 1)
    {
      hide C.Pinned, C.SysInv, C.Leads, C.Initial, B.Ring, B.Unique, B.Shows, B.Observe, Held, OnDisk;
      PinsAt(s, tail);
      PairBlocks(Cfg(), s, block, n, tail);
      ghost var slot, home := C.Slot(Cfg(), tail), block[tail];
      var to, from := ReadPair(t, tail);
      if to.None? || from.None? {
        return false;
      }
      Seen(from.value, home);
      Store(to.value, start + tail + 1, bc.bufs[from.value].data, false, t, C.CopyBlock);
      ReleasePair(t, from.value, home, to.value, slot);
      ok := true;
    }

    /** Copy modified blocks from the cache to the log. */
    method WriteLog(ghost t: nat) returns (ok: bool)
      requires Valid() && FreeBut(s.cache, {}) && s.committer == t && s.phase == C.Copying(0)
      modifies this`s, this`trace, bc
      ensures Valid() && old(trace) <= trace && SameLog(old(s), s)
      ensures ok <==> n < B.NBUF
      ensures ok ==> FreeBut(s.cache, {}) && s.phase == C.Copying(n)
    {
      hide C.SysInv, C.Leads, C.Initial, B.Ring, B.Unique, B.Shows, B.Observe, Held, OnDisk;
      var tail := 0;
      while tail < n
        invariant 0 <= tail <= n && Running() && Matches() && HeaderMatches()
        invariant old(trace) <= trace && SameLog(old(s), s)
        invariant FreeBut(s.cache, {}) && s.phase == C.Copying(tail) && (tail > 0 ==> n < B.NBUF)
      {
        ok := CopyOne(t, tail);
        if !ok {
          return;
        }
        tail := tail + 1;
      }
      ok := true;
    }

    /** An iteration of install_trans. */
    method InstallOne(ghost t: nat, tail: nat, recovering: bool) returns (ok: bool)
      requires Valid() && FreeBut(s.cache, {}) && s.committer == t && tail < n
      requires s.phase == if recovering then C.Recovering(tail) else C.Installing(tail)
      modifies this`s, this`trace, bc
      ensures Running() && Matches() && HeaderMatches() && old(trace) <= trace && SameLog(old(s), s)
      ensures ok <==> recovering || n - tail < B.NBUF
      ensures ok ==>
              FreeBut(s.cache, {}) && s.phase == if recovering then C.Recovering(tail + 1) else C.Installing(tail + 1)
    {
      hide C.Enabled, C.Next, C.Pinned, C.SysInv, C.Leads, C.Initial, B.Ring, B.Unique, B.Shows, B.Observe, Held,
          OnDisk;
      PinsAt(s, tail);
      PairBlocks(Cfg(), s, block, n, tail);
      ghost var slot, home := C.Slot(Cfg(), tail), block[tail];
      var lbuf, dbuf := ReadPair(t, tail);
      if lbuf.None? || dbuf.None? {
        return false;
      }
      Seen(lbuf.value, slot);
      InstallStep(Cfg(), s, tail, t);
      Store(dbuf.value, block[tail], bc.bufs[lbuf.value].data, !recovering, t, C.InstallBlock);
      ReleasePair(t, lbuf.value, slot, dbuf.value, home);
      ok := true;
    }

    /** Copy logged blocks to their home locations. */
    method InstallTrans(ghost t: nat, recovering: bool) returns (ok: bool)
      requires Valid() && FreeBut(s.cache, {}) && s.committer == t
      requires s.phase == if recovering then C.Recovering(0) else C.Installing(0)
      modifies this`s, this`trace, bc
      ensures Valid() && old(trace) <= trace && SameLog(old(s), s)
      ensures ok <==> recovering || n < B.NBUF
      ensures ok ==> FreeBut(s.cache, {}) && s.phase == if recovering then C.Recovering(n) else C.Installing(n)
    {
      hide C.SysInv, C.Leads, C.Initial, B.Ring, B.Unique, B.Shows, B.Observe, Held, OnDisk;
      var tail := 0;
      while tail < n
        invariant 0 <= tail <= n && Running() && Matches() && HeaderMatches()
        invariant old(trace) <= trace && SameLog(old(s), s)
        invariant FreeBut(s.cache, {}) && s.phase == if recovering then C.Recovering(tail) else C.Installing(tail)
        invariant tail > 0 ==> recovering || n < B.NBUF
      {
        ok := InstallOne(t, tail, recovering);
        if !ok {
          return;
        }
        tail := tail + 1;
      }
      ok := true;
    }

    /** Write the in-memory header to disk: the commit point when the log was just copied, the erasure
        when lh.n was set to 0 after installing. */
    method WriteHead(ghost t: nat, ghost a: C.Action) returns (ok: bool)
      requires Running() && Matches() && FreeBut(s.cache, {}) && s.committer == t && !s.phase.Idle?
      requires HeadReady(s, a, block, n)
      modifies this`s, this`trace, bc
      ensures Running() && Matches() && old(trace) <= trace
      ensures ok <==> |Pins(old(s))| < B.NBUF
      ensures !ok ==> s == old(s)
      ensures ok ==> HeadWritten(Cfg(), old(s), s, a, block, n)
    {
      hide C.SysInv, C.Leads, C.Initial, B.Ring, B.Unique, B.Shows, B.Observe, Held, OnDisk, C.Enabled, C.Next,
          C.SetHeader, C.Header;
      StartBlock(Cfg(), s);
      HeldCount(Cfg(), s);
      StartFree(Cfg(), s);
      var r := Read(t, start);
      if r.None? {
        return false;
      }
      Seen(r.value, start);
      var d := FillHeader(bc.bufs[r.value].data);
      HeadStep(Cfg(), s, a, block, n, t);
      Store(r.value, start, d, false, t, a);
      Release(t, r.value, start);
      ok := true;
    }

    /** hb->n = log.lh.n and the loop over hb->block. */
    method FillHeader(hb: C.Block) returns (d: C.Block)
      requires |block| == G.LOGSIZE && n <= G.LOGSIZE
      ensures d == C.SetHeader(hb, block[..n])
    {
      var w: seq<nat> := hb[0 := n];
      var i := 0;
      while i < n
        invariant 0 <= i <= n && |w| == C.WORDS && w == [n] + block[..i] + hb[i + 1..]
      {
        w := w[i + 1 := block[i]];
        i := i + 1;
      }
      d := w;
    }

    /** Read the log header from disk into the in-memory header. */
    method ReadHead(ghost t: nat)
      requires Valid() && FreeBut(s.cache, {}) && s.committer == t && s.phase == C.Boot
      modifies this`s, this`trace, this`n, this`block, bc
      ensures Running() && Matches() && HeaderMatches() && old(trace) <= trace
      ensures s == old(s).(cache := s.cache, phase := s.phase, g := s.g)
      ensures FreeBut(s.cache, {}) && s.phase == C.Recovering(0)
    {
      hide C.SysInv, C.Leads, C.Initial, B.Ring, B.Unique, B.Shows, B.Observe, Held, OnDisk, C.Enabled, C.Next,
          C.Header;
      StartBlock(Cfg(), s);
      NoOps(Cfg(), s);
      HeldCount(Cfg(), s);
      var r := Read(t, start);
      assert r.Some?;
      Seen(r.value, start);
      var lh := bc.bufs[r.value].data;
      BootHeader(Cfg(), s, lh, t);
      LoadHeader(lh);
      ReadHeadStep(Cfg(), s, t);
      Act(C.ReadHead);
      Release(t, r.value, start);
    }

    /** log.lh.n = lh->n and the loop over lh->block. */
    method LoadHeader(lh: C.Block)
      requires lh[0] <= G.LOGSIZE && |block| == G.LOGSIZE
      modifies this`n, this`block
      ensures |block| == G.LOGSIZE && n <= G.LOGSIZE && block[..n] == C.Header(lh)
    {
      n := lh[0];
      var i := 0;
      while i < n
        invariant 0 <= i <= n == lh[0] && |block| == G.LOGSIZE && block[..i] == lh[1..i + 1]
      {
        block := block[i := lh[i + 1]];
        assert block[..i + 1] == block[..i] + [lh[i + 1]] && lh[1..i + 2] == lh[1..i + 1] + [lh[i + 1]];
        i := i + 1;
      }
    }

    /** Boot: after recovery every block outside the log holds what was last committed.  Nothing is pinned
        yet, so there is always a buffer. */
    method RecoverFromLog(ghost t: nat)
      requires Valid() && FreeBut(s.cache, {}) && s.committer == t && s.phase == C.Boot
      modifies this`s, this`trace, this`n, this`block, bc
      ensures old(trace) <= trace
      ensures Valid() && FreeBut(s.cache, {}) && s.phase == C.Idle && n == 0
      ensures Restored(Cfg(), old(s), s) && s.started == old(s).started && s.disk.Keys == old(s).disk.Keys
    {
      hide C.SysInv, C.Leads, C.Initial, B.Ring, B.Unique, B.Shows, B.Observe, Held, OnDisk, C.Apply;
      NoOps(Cfg(), s);
      DiskKeys(Cfg(), s);
      ReadHead(t);
      var ok := InstallTrans(t, true);
      assert ok;
      n := 0;
      ok := WriteHead(t, C.EraseHead);
      assert ok;
      RestoredBy(Cfg(), old(s), s);
      DiskKeys(Cfg(), s);
    }

    /** commit(): afterwards the whole transaction is durable and installed, and the log is empty.  False is
        bget's panic: every logged block pins a buffer, and writing the log takes one more. */
    method Commit(ghost t: nat) returns (ok: bool)
      requires Valid() && FreeBut(s.cache, {}) && s.committer == t
      requires s.phase == if n > 0 then C.Copying(0) else C.Finishing
      modifies this`s, this`trace, this`n, bc
      ensures Running() && Matches() && old(trace) <= trace
      ensures ok <==> old(n) < B.NBUF
      ensures ok ==> Valid() && FreeBut(s.cache, {}) && s.phase == C.Finishing && n == 0
      ensures ok ==> Installed(Cfg(), old(s), s)
    {
      hide C.SysInv, C.Leads, C.Initial, B.Ring, B.Unique, B.Shows, B.Observe, Held, OnDisk, C.Apply, C.Enabled, C.Next,
          C.Header, Installed;
      NoOps(Cfg(), s);
      ok := true;
      if n > 0 {
        ok := WriteLog(t);
        if !ok { return; }
        ok := WriteHead(t, C.WriteHead);
        assert ok;
        InstallAndErase(t);
      }
      InstalledBy(Cfg(), old(s), s);
    }

    method InstallAndErase(ghost t: nat)
      requires Valid() && FreeBut(s.cache, {}) && s.committer == t && s.phase == C.Installing(0) && n < B.NBUF
      modifies this`s, this`trace, this`n, bc
      ensures Valid() && old(trace) <= trace && FreeBut(s.cache, {}) && s.phase == C.Finishing && n == 0
      ensures s == old(s).(disk := s.disk, cache := s.cache, phase := s.phase, durable := s.durable, g := s.g)
    {
      hide C.SysInv, C.Leads, C.Initial, B.Ring, B.Unique, B.Shows, B.Observe, Held, OnDisk, C.Apply, C.Enabled, C.Next,
          C.Header;
      NoOps(Cfg(), s);
      var ok := InstallTrans(t, false);
      assert ok;
      n := 0;
      ok := WriteHead(t, C.EraseHead);
      assert ok;
    }

    /** begin_op: admitted unless a commit runs or this operation might exhaust the log; then it sleeps. */
    method BeginOp(ghost t: nat) returns (admitted: bool)
      requires Valid() && t !in s.started && !C.InBoot(s.phase)
      modifies this`s, this`trace, this`outstanding
      ensures Valid() && old(trace) <= trace
      ensures admitted <==> !committing && n + (old(outstanding) + 1) * MAXOPBLOCKS <= G.LOGSIZE
      ensures admitted ==> trace == old(trace) + [C.BeginOp(t)] && outstanding == old(outstanding) + 1
      ensures admitted ==> s == old(s).(g := G.Next(old(s).g, G.Begin(t)), started := old(s).started + {t})
      ensures !admitted ==> s == old(s) && outstanding == old(outstanding)
    {
      hide C.SysInv, C.Leads, C.Initial, B.Ring, B.Unique, B.Shows, B.Observe, Held, OnDisk;
      if committing || n + (outstanding + 1) * MAXOPBLOCKS > G.LOGSIZE {
        return false;
      }
      BeginFacts(Cfg(), s, t);
      assert |block[..n]| == n;
      Act(C.BeginOp(t));
      outstanding := outstanding + 1;
      admitted := true;
    }

    /** end_op: the last operation to end commits everything done so far.  Its "log.committing" panic
        cannot happen; false is the panic inside the commit. */
    method EndOp(ghost t: nat) returns (ok: bool)
      requires Valid() && t in s.g.ops && (outstanding == 1 ==> FreeBut(s.cache, {}))
      requires forall b :: b in s.cache && s.cache[b].dirty ==> s.cache[b].owner != Some(t)
      modifies this`s, this`trace, this`n, this`outstanding, this`committing, bc
      ensures Running() && Matches() && old(trace) <= trace
      ensures ok ==> Valid() && s.phase == C.Idle && outstanding == old(outstanding) - 1
      ensures ok <==> old(outstanding) > 1 || old(n) < B.NBUF
      ensures old(outstanding) > 1 ==> s == C.DoEnd(old(s), t)
      ensures ok && old(outstanding) == 1 ==> n == 0 && Installed(Cfg(), old(s), s)
    {
      hide C.SysInv, C.Leads, C.Initial, B.Ring, B.Unique, B.Shows, B.Observe, Held, OnDisk, C.Apply, C.Enabled, C.Next,
          Installed;
      EndStep(Cfg(), s, t);
      outstanding := outstanding - 1;
      assert !committing;
      Act(C.EndOp(t));
      if outstanding == 0 {
        committing := true;
        assert |block[..n]| == n;
        ghost var mid := s;
        ok := Commit(t);
        if !ok { return; }
        NoOps(Cfg(), s);
        FinishStep(Cfg(), s);
        ghost var done := s;
        Act(C.Finish);
        committing := false;
        InstalledFinish(Cfg(), old(s), mid, done, s);
      }
      ok := true;
    }

    /** log_write of the locked buffer i.  False is one of its two panics. */
    method LogWrite(ghost t: nat, i: nat) returns (ok: bool)
      requires Valid() && i < B.NBUF && bc.bufs[i].dev == B.ROOTDEV
      requires var b := bc.bufs[i].blockno;
               && C.Owns(s, t, b) && C.Home(Cfg(), b) && t in s.g.ops && |s.g.ops[t] + {b}| <= MAXOPBLOCKS
      modifies this`s, this`trace, this`n, this`block, bc
      ensures Valid() && old(trace) <= trace
      ensures ok <==> !G.Full(size, old(block)[..old(n)]) && outstanding >= 1
      ensures ok ==> trace == old(trace) + [C.LogWrite(t, bc.bufs[i].blockno)]
      ensures ok ==> bc.bufs[i].blockno in old(s).cache && s == C.DoLogWrite(old(s), t, bc.bufs[i].blockno)
      ensures forall j :: 0 <= j < B.NBUF ==> B.KeyOf(bc.bufs[j]) == old(B.KeyOf(bc.bufs[j]))
      ensures ok ==> block[..n] == G.Absorb(old(block)[..old(n)], bc.bufs[i].blockno)
      ensures !ok ==> s == old(s)
    {
      hide C.SysInv, C.Leads, C.Initial, B.Ring, B.Unique, B.Shows, B.Observe, Held, OnDisk;
      var b := bc.bufs[i].blockno;
      if n >= G.LOGSIZE || n >= size - 1 || outstanding < 1 {
        return false;
      }
      var k := Find(b);
      ghost var added := k == n;
      AbsorbAt(block, n, b, k);
      Seen(i, b);
      LogWriteStep(Cfg(), s, t, b);
      block := block[k := b];
      if k == n {
        bc.Bpin(i);
        n := n + 1;
      }
      ObserveUpdate(s.cache, b, C.Pin(s.cache[b], added));
      assert bc.lines == B.Observe(s.cache)[BlockKey(b) := B.Watched(C.Pin(s.cache[b], added))];
      Act(C.LogWrite(t, b));
      ok := true;
    }

    /** The typical use of log_write: read a block, change it, log it, release it.  False is bget's panic or
        that of log_write on a full log. */
    method LogBlock(ghost t: nat, b: nat, d: C.Block) returns (ok: bool)
      requires Valid() && FreeBut(s.cache, {}) && b in s.disk && C.Home(Cfg(), b)
      requires t in s.g.ops && |s.g.ops[t] + {b}| <= MAXOPBLOCKS
      modifies this`s, this`trace, this`n, this`block, bc
      ensures Running() && Matches() && old(trace) <= trace
      ensures ok <==> !G.Full(size, old(block)[..old(n)])
      ensures ok ==> Valid() && FreeBut(s.cache, {}) && block[..n] == G.Absorb(old(block)[..old(n)], b)
      ensures ok ==> s == old(s).(cache := s.cache, updates := old(s).updates + [C.Update(t, b, d)],
                                  g := G.Next(old(s).g, G.Log(t, b)))
    {
      hide C.SysInv, C.Leads, C.Initial, B.Ring, B.Unique, B.Shows, B.Observe, Held, OnDisk, C.Enabled, C.Next, FreeBut,
          Kept;
      OpRuns(Cfg(), s, t);
      HeldCount(Cfg(), s);
      NotHeld(s.cache, b);
      var r := Read(t, b);
      if r.None? {
        return false;
      }
      OthersFree(old(s).cache, s.cache, b);
      Seen(r.value, b);
      ok := LogLocked(t, r.value, b, d);
    }

    /** Change, log and release a locked buffer. */
    method LogLocked(ghost t: nat, i: nat, ghost b: nat, d: C.Block) returns (ok: bool)
      requires Valid() && i < B.NBUF && B.KeyOf(bc.bufs[i]) == BlockKey(b) && C.Owns(s, t, b) && C.Home(Cfg(), b)
      requires FreeBut(s.cache, {b}) && s.cache[b].refs == {t} && t in s.g.ops && |s.g.ops[t] + {b}| <= MAXOPBLOCKS
      modifies this`s, this`trace, this`n, this`block, bc
      ensures Valid() && old(trace) <= trace
      ensures ok <==> !G.Full(size, old(block)[..old(n)]) && outstanding >= 1
      ensures ok ==> FreeBut(s.cache, {}) && block[..n] == G.Absorb(old(block)[..old(n)], b)
      ensures ok ==> s == old(s).(cache := s.cache, updates := old(s).updates + [C.Update(t, b, d)],
                                  g := G.Next(old(s).g, G.Log(t, b)))
    {
      hide C.SysInv, C.Leads, C.Initial, B.Ring, B.Unique, B.Shows, B.Observe, Held, OnDisk, C.Enabled, C.Next, FreeBut;
      Modify(t, i, d);
      ok := LogWrite(t, i);
      if ok {
        Release(t, i, b);
        ReleasedFree(old(s).cache, s.cache, t, b);
      }
    }

    /** The absorption loop: the index of b in the header, or n. */
    method Find(b: nat) returns (i: nat)
      requires n <= |block|
      ensures i <= n && (i < n ==> block[i] == b) && (i == n ==> b !in block[..n])
    {
      i := 0;
      while i < n
        invariant 0 <= i <= n && b !in block[..i]
      {
        if block[i] == b {
          return;
        }
        i := i + 1;
      }
    }
  }

  /** begin_op admits this: three operations, each within MAXOPBLOCKS, together log as many blocks as there are
      buffers.  The commit of the last to end finds no buffer for the log. */
  method FullGroup(image: map<nat, C.Block>, start: nat, size: nat, base: nat, d: C.Block) returns (ok: bool)
    requires size > G.LOGSIZE && (forall b :: start <= b < start + size ==> b in image) && image[start][0] == 0
    requires forall b :: base <= b < base + B.NBUF ==> b in image && C.Home(C.Config(start, size), b)
    ensures !ok
  {
    hide C.SysInv, C.Leads, C.Initial, B.Ring, B.Unique, B.Shows, B.Observe, Held, OnDisk, C.Enabled, C.Next, Restored,
        Installed;
    var log := new LogDevice(image, start, size, 0);
    log.RecoverFromLog(0);
    BeginAll(log);
    LogAll(log, base, d);
    ok := EndAll(log);
  }

  method BeginAll(log: LogDevice)
    requires log.Valid() && log.s.phase == C.Idle && log.n == 0 && log.outstanding == 0 && log.s.started == {}
    modifies log`s, log`trace, log`outstanding
    ensures log.Valid() && log.outstanding == 3 && log.s.cache == old(log.s).cache && log.s.disk == old(log.s).disk
    ensures forall t: nat :: t < 3 ==> t in log.s.g.ops && log.s.g.ops[t] == {}
  {
    hide C.SysInv, C.Leads, C.Initial, B.Ring, B.Unique, B.Shows, B.Observe, Held, OnDisk, C.Enabled, C.Next;
    var i := 0;
    while i < 3
      invariant 0 <= i <= 3 && log.Valid() && log.s.phase == C.Idle && log.outstanding == i
      invariant log.s.cache == old(log.s).cache && log.s.disk == old(log.s).disk
      invariant forall t :: t in log.s.started ==> t < i
      invariant forall t: nat :: t < i ==> t in log.s.g.ops && log.s.g.ops[t] == {}
    {
      var admitted := log.BeginOp(i);
      assert admitted;
      i := i + 1;
    }
  }

  method LogAll(log: LogDevice, base: nat, d: C.Block)
    requires log.Valid() && FreeBut(log.s.cache, {}) && log.n == 0 && log.outstanding == 3 && log.size > G.LOGSIZE
    requires forall t: nat :: t < 3 ==> t in log.s.g.ops && log.s.g.ops[t] == {}
    requires forall b :: base <= b < base + B.NBUF ==> b in log.s.disk && C.Home(log.Cfg(), b)
    modifies log`s, log`trace, log`n, log`block, log.bc
    ensures log.Valid() && FreeBut(log.s.cache, {}) && log.n == B.NBUF
    ensures log.s.g.ops.Keys == old(log.s.g.ops.Keys)
  {
    hide C.SysInv, C.Leads, C.Initial, C.Enabled, C.Next, Logged, LogDevice.Running, LogDevice.Matches;
    var i := 0;
    while i < B.NBUF
      invariant 0 <= i <= B.NBUF && log.Valid() && FreeBut(log.s.cache, {}) && log.outstanding == 3
      invariant log.n == i && (forall j :: 0 <= j < i ==> log.block[j] == base + j)
      invariant log.s.disk == old(log.s).disk && log.s.g.ops.Keys == old(log.s.g.ops.Keys)
      invariant forall t: nat :: t < 3 ==> |log.s.g.ops[t]| <= Logged(i, t)
    {
      ghost var t := i / MAXOPBLOCKS;
      ghost var before := log.s.g;
      OpsGrow(before.ops, i, t, base + i);
      assert log.block[..log.n] == before.blocks && base + i !in log.block[..i];
      var ok := log.LogBlock(t, base + i, d);
      assert ok;
      i := i + 1;
    }
  }

  lemma OpsGrow(ops: map<nat, set<nat>>, i: nat, t: nat, b: nat)
    requires t == i / MAXOPBLOCKS < 3 && forall u: nat :: u < 3 ==> u in ops && |ops[u]| <= Logged(i, u)
    ensures |ops[t] + {b}| <= MAXOPBLOCKS
    ensures var m := ops[t := ops[t] + {b}]; forall u: nat :: u < 3 ==> |m[u]| <= Logged(i + 1, u)
  {
  }

  method EndAll(log: LogDevice) returns (ok: bool)
    requires log.Valid() && FreeBut(log.s.cache, {}) && log.n == B.NBUF && log.outstanding == 3
    requires forall t: nat :: t < 3 ==> t in log.s.g.ops
    modifies log`s, log`trace, log`n, log`outstanding, log`committing, log.bc
    ensures !ok
  {
    hide C.SysInv, C.Leads, C.Initial, B.Ring, B.Unique, B.Shows, B.Observe, Held, OnDisk, C.Enabled, C.Next, Installed,
        FreeBut;
    NoneDirty(log.Cfg(), log.s);
    ok := log.EndOp(0);
    ok := log.EndOp(1);
    ok := log.EndOp(2);
  }

  lemma NoneDirty(c: C.Config, s: C.State)
    requires C.SysInv(c, s) && FreeBut(s.cache, {})
    ensures forall b :: b in s.cache ==> !s.cache[b].dirty
  {
    hide C.SysInv;
    forall b | b in s.cache
      ensures !s.cache[b].dirty
    {
      FreeLine(c, s, b);
    }
  }

  /** How many of the first i blocks operation t logged. */
  ghost function Logged(i: nat, t: nat): nat {
    if i <= t * MAXOPBLOCKS then 0 else if i >= (t + 1) * MAXOPBLOCKS then MAXOPBLOCKS else i - t * MAXOPBLOCKS
  }

  lemma ReadReady(c: C.Config, s: C.State, b: nat)
    requires C.SysInv(c, s) && b in s.disk && (b in s.cache ==> s.cache[b].refs == {})
    ensures BlockKey(b) in OnDisk(s.disk)
    ensures BlockKey(b) in B.Observe(s.cache) ==> !B.Observe(s.cache)[BlockKey(b)].locked
  {
    FreeLine(c, s, b);
  }

  lemma HeldMore(before: map<nat, C.Line>, after: map<nat, C.Line>, b: nat)
    requires Kept(before, after, b) && b in after && after[b].refcnt > 0
    ensures Held(after) == Held(before) + {b}
  {
  }

  lemma {:induction false} KeyCount(bs: set<nat>)
    ensures |set b | b in bs :: BlockKey(b)| == |bs|
  {
    if bs != {} {
      var b :| b in bs;
      KeyCount(bs - {b});
      assert (set x | x in bs :: BlockKey(x)) == (set x | x in bs - {b} :: BlockKey(x)) + {BlockKey(b)};
    }
  }

  /** The cache class counts the same blocks. */
  lemma HeldIsBusy(cache: map<nat, C.Line>)
    ensures |B.Busy(B.Observe(cache))| == |Held(cache)|
    ensures forall b: nat :: BlockKey(b) in B.Busy(B.Observe(cache)) <==> b in Held(cache)
  {
    KeyCount(Held(cache));
    forall k: B.Key
      ensures k in B.Busy(B.Observe(cache)) <==> k == BlockKey(k.blockno) && k.blockno in Held(cache)
    {
    }
    assert B.Busy(B.Observe(cache)) == set b | b in Held(cache) :: BlockKey(b);
  }

  /** While no thread holds a buffer, exactly the logged blocks not yet installed keep theirs. */
  lemma HeldIsPinned(c: C.Config, s: C.State, b: nat)
    requires C.SysInv(c, s) && FreeBut(s.cache, {})
    ensures b in Held(s.cache) <==> b in Pins(s)
  {
    hide C.SysInv, C.Plain, C.Pinned;
    C.Facts(c, s);
    PinsCached(c, s);
    if b in s.cache {
      assert C.LineOk(c, s.disk, C.Plain(s), Pins(s), s.g.ops.Keys, C.InBoot(s.phase), b, s.cache[b]);
    }
  }

  lemma HeldCount(c: C.Config, s: C.State)
    requires C.SysInv(c, s) && FreeBut(s.cache, {})
    ensures |Held(s.cache)| == |Pins(s)|
  {
    hide C.SysInv, Pins, Held;
    PinsCached(c, s);
    DistinctSize(Pins(s));
    forall b: nat
      ensures b in Held(s.cache) <==> b in Pins(s)
    {
      HeldIsPinned(c, s, b);
    }
    assert Elements(Pins(s)) == Held(s.cache);
  }

  lemma PinsCached(c: C.Config, s: C.State)
    requires C.SysInv(c, s)
    ensures forall b :: b in Pins(s) ==> b in s.cache && C.Home(c, b)
    ensures Distinct(Pins(s))
  {
    C.Clauses(c, s);
    C.Facts(c, s);
  }

  lemma PinsAt(s: C.State, tail: nat)
    requires tail < |s.g.blocks|
    requires s.phase == C.Copying(tail) || s.phase == C.Installing(tail) || s.phase == C.Recovering(tail)
    ensures Pins(s) == [] || s.g.blocks[tail] in Pins(s)
    ensures |Pins(s)| == match s.phase
                         case Copying(_) => |s.g.blocks|
                         case Installing(_) => |s.g.blocks| - tail
                         case _ => 0
  {
    if s.phase.Installing? {
      assert Pins(s)[0] == s.g.blocks[tail];
    }
  }

  lemma SlotNotPinned(c: C.Config, s: C.State, tail: nat)
    requires C.SysInv(c, s) && tail < |s.g.blocks|
    ensures C.Slot(c, tail) !in Pins(s)
  {
    hide C.SysInv;
    C.Facts(c, s);
    PinsCached(c, s);
  }

  /** The first read of an iteration fails exactly with NBUF pins, the second never. */
  lemma PairRoom(c: C.Config, s: C.State, tail: nat)
    requires C.SysInv(c, s) && FreeBut(s.cache, {}) && tail < |s.g.blocks|
    requires Pins(s) == [] || s.g.blocks[tail] in Pins(s)
    ensures |Held(s.cache)| >= B.NBUF && C.Slot(c, tail) !in Held(s.cache) <==> |Pins(s)| >= B.NBUF
    ensures |Held(s.cache) + {C.Slot(c, tail)}| < B.NBUF || s.g.blocks[tail] in Held(s.cache)
  {
    hide C.SysInv, Held, Pins;
    HeldCount(c, s);
    HeldIsPinned(c, s, C.Slot(c, tail));
    HeldIsPinned(c, s, s.g.blocks[tail]);
    SlotNotPinned(c, s, tail);
  }

  lemma StartFree(c: C.Config, s: C.State)
    requires C.SysInv(c, s) && FreeBut(s.cache, {})
    ensures c.start !in Held(s.cache)
  {
    hide C.SysInv, Held, Pins;
    StartBlock(c, s);
    PinsCached(c, s);
    HeldIsPinned(c, s, c.start);
  }

  lemma VictimBlock(cache: map<nat, C.Line>, victim: Option<B.Key>, b: nat) returns (v: Option<nat>)
    requires victim.Some? ==> victim.value in B.Observe(cache) && B.Observe(cache)[victim.value].refcnt == 0
    ensures v.Some? <==> victim.Some?
    ensures v.Some? ==> victim.value == BlockKey(v.value) && v.value in cache && cache[v.value].refcnt == 0
    ensures BlockKey(b) in B.Observe(cache) <==> b in cache
  {
    v := if victim.Some? then Some(victim.value.blockno) else None;
  }

  /** The line of b once thread t, the only one interested, holds it. */
  ghost function Taken(s: C.State, t: nat, b: nat): C.Line
    requires b in s.disk
  {
    if b in s.cache then
      var l := s.cache[b];
      C.Line(l.refcnt + 1, {t}, Some(t), true, l.dirty, if l.valid then l.data else s.disk[b])
    else C.Line(1, {t}, Some(t), true, false, s.disk[b])
  }

  ghost function DropLine(cache: map<nat, C.Line>, v: Option<nat>): map<nat, C.Line> {
    if v.Some? then cache - {v.value} else cache
  }

  lemma ReadStep(c: C.Config, s: C.State, t: nat, b: nat, v: Option<nat>, stale: C.Block)
    requires C.SysInv(c, s) && C.CanGet(c, s, t, b, v) && (b in s.cache ==> s.cache[b].refs == {})
    ensures C.Enabled(c, s, C.Get(t, b, v, stale)) && !Taken(s, t, b).dirty
    ensures var s1 := C.Next(c, s, C.Get(t, b, v, stale));
            && C.Enabled(c, s1, C.Lock(t, b))
            && C.Next(c, s1, C.Lock(t, b)) == s.(cache := DropLine(s.cache, v)[b := Taken(s, t, b)])
  {
    hide C.SysInv;
    FreeLine(c, s, b);
    CacheTaken(s, t, b, v, stale);
  }

  lemma FreeLine(c: C.Config, s: C.State, b: nat)
    requires C.SysInv(c, s)
    ensures b in s.cache && s.cache[b].refs == {} ==> s.cache[b].owner == None && !s.cache[b].dirty
    ensures b in s.cache && s.cache[b].owner.Some? ==> s.cache[b].valid && s.cache[b].refcnt > 0
  {
    C.Facts(c, s);
  }

  lemma CacheTaken(s: C.State, t: nat, b: nat, v: Option<nat>, stale: C.Block)
    requires b in s.disk && (v.Some? ==> v.value != b)
    requires b in s.cache ==> s.cache[b].refs == {} && s.cache[b].owner == None && !s.cache[b].dirty
    ensures var s1 := s.(cache := C.Gotten(s.cache, t, b, v, stale));
            && C.CanLock(s1, t, b) && !Taken(s, t, b).dirty
            && s1.cache[b := C.Locked(s1, t, b)] == DropLine(s.cache, v)[b := Taken(s, t, b)]
  {
    var kept := DropLine(s.cache, v);
    assert b in kept <==> b in s.cache;
    var got := C.Gotten(s.cache, t, b, v, stale);
    assert got == kept[b := got[b]];
    assert got[b].refs == {t};
    assert C.Locked(s.(cache := got), t, b) == Taken(s, t, b);
  }

  lemma ReadObserved(s: C.State, t: nat, b: nat, v: Option<nat>)
    requires b in s.disk && (v.Some? ==> v.value in s.cache && s.cache[v.value].refcnt == 0)
    ensures Kept(s.cache, DropLine(s.cache, v)[b := Taken(s, t, b)], b)
    ensures B.Observe(DropLine(s.cache, v)[b := Taken(s, t, b)])
            == B.Drop(B.Observe(s.cache), if v.Some? then Some(BlockKey(v.value)) else None)[BlockKey(b) := B.Watched(Taken(s, t, b))]
    ensures BlockKey(b) in OnDisk(s.disk)
    ensures B.Watched(Taken(s, t, b)) == B.Fetched(B.Observe(s.cache), OnDisk(s.disk), BlockKey(b))
  {
    hide B.Observe, B.Fetched, B.Drop, OnDisk, Taken;
    ObserveDrop(s.cache, v);
    ObserveUpdate(DropLine(s.cache, v), b, Taken(s, t, b));
    FetchedIsTaken(s, t, b);
  }

  lemma ObserveDrop(cache: map<nat, C.Line>, v: Option<nat>)
    ensures B.Observe(DropLine(cache, v)) ==
            B.Drop(B.Observe(cache), if v.Some? then Some(BlockKey(v.value)) else None)
  {
  }

  lemma FetchedIsTaken(s: C.State, t: nat, b: nat)
    requires b in s.disk
    ensures BlockKey(b) in OnDisk(s.disk)
    ensures B.Watched(Taken(s, t, b)) == B.Fetched(B.Observe(s.cache), OnDisk(s.disk), BlockKey(b))
  {
  }

  lemma PairBlocks(c: C.Config, s: C.State, block: seq<nat>, n: nat, tail: nat)
    requires C.SysInv(c, s) && n <= |block| && block[..n] == s.g.blocks && tail < n && !s.phase.Idle?
    ensures block[tail] == s.g.blocks[tail]
    ensures C.Slot(c, tail) in s.disk && block[tail] in s.disk && C.Slot(c, tail) != block[tail]
    ensures C.Home(c, block[tail])
  {
    C.Facts(c, s);
    assert block[tail] == block[..n][tail];
  }

  lemma StartBlock(c: C.Config, s: C.State)
    requires C.SysInv(c, s)
    ensures c.start in s.disk && !C.Home(c, c.start)
  {
    C.Clauses(c, s);
  }

  /** A logged block being installed carries its pin besides the committer's reference. */
  lemma PinCount(c: C.Config, s: C.State, tail: nat, t: nat)
    requires C.SysInv(c, s) && (s.phase.Installing? || s.phase.Recovering?) && s.phase.tail == tail < |s.g.blocks|
    requires C.Owns(s, t, s.g.blocks[tail])
    ensures s.cache[s.g.blocks[tail]].refcnt > if s.phase.Installing? then 1 else 0
  {
    var b := s.g.blocks[tail];
    C.Facts(c, s);
    assert C.LineOk(c, s.disk, C.Plain(s), C.Pinned(s.phase, s.g.blocks), s.g.ops.Keys, C.InBoot(s.phase), b, s.cache[b]);
    assert s.phase.Installing? ==> s.g.blocks[tail..][0] == b;
    assert t in s.cache[b].refs;
  }

  lemma InstallStep(c: C.Config, s: C.State, tail: nat, t: nat)
    requires C.SysInv(c, s) && (s.phase.Installing? || s.phase.Recovering?) && s.phase.tail == tail < |s.g.blocks|
    requires s.committer == t && C.Owns(s, t, C.Slot(c, tail)) && C.Owns(s, t, s.g.blocks[tail])
    ensures C.Enabled(c, s, C.InstallBlock) && C.Next(c, s, C.InstallBlock) == C.DoInstall(c, s)
    ensures s.cache[s.g.blocks[tail]].refcnt > if s.phase.Installing? then 1 else 0
  {
    hide C.SysInv;
    PinCount(c, s, tail, t);
  }

  lemma HeadStep(c: C.Config, s: C.State, a: C.Action, block: seq<nat>, n: nat, t: nat)
    requires HeadReady(s, a, block, n) && s.committer == t && C.Owns(s, t, c.start)
    ensures C.Enabled(c, s, a)
    ensures var d := C.SetHeader(s.cache[c.start].data, block[..n]); var r := C.Next(c, s, a);
            && C.Header(d) == block[..n]
            && r.disk == s.disk[c.start := d] && r.cache == s.cache[c.start := s.cache[c.start].(data := d)]
            && r == s.(disk := r.disk, cache := r.cache, phase := r.phase, durable := r.durable, g := r.g)
            && (a == C.WriteHead ==> r.phase == C.Installing(0) && r.g == s.g)
            && (a == C.EraseHead ==>
                  && r.phase == (if s.phase.Installing? then C.Finishing else C.Idle)
                  && r.g == G.Group([], map[], s.phase.Installing?))
  {
  }

  lemma BootHeader(c: C.Config, s: C.State, lh: C.Block, t: nat)
    requires C.SysInv(c, s) && C.Owns(s, t, c.start) && s.cache[c.start].data == lh && s.phase == C.Boot
    ensures lh[0] <= G.LOGSIZE
  {
    C.Clauses(c, s);
  }

  lemma RestoredBy(c: C.Config, before: C.State, after: C.State)
    requires C.SysInv(c, before) && before.phase == C.Boot
    requires C.SysInv(c, after) && after.phase == C.Idle && after.g == G.Empty
    requires after.updates == before.updates && after.initial == before.initial
    ensures Restored(c, before, after)
  {
    C.Clauses(c, before);
    C.Clauses(c, after);
    assert before.updates[..|before.updates|] == before.updates;
    C.IdleDisk(c, after);
  }

  lemma InstalledBy(c: C.Config, before: C.State, after: C.State)
    requires C.SysInv(c, after) && after.phase == C.Finishing
    requires after.updates == before.updates && after.initial == before.initial
    ensures Installed(c, before, after)
  {
    C.Clauses(c, after);
    C.Facts(c, after);
  }

  lemma NoOps(c: C.Config, s: C.State)
    requires C.SysInv(c, s) && !s.phase.Idle?
    ensures s.g.ops == map[] && |s.g.ops| == 0
  {
    C.Clauses(c, s);
  }

  lemma PowerOn(c: C.Config, s: C.State)
    requires 0 < c.size && (forall b :: c.start <= b < c.start + c.size ==> b in s.disk)
    requires s.disk == s.initial && s.disk[c.start][0] == 0
    requires s.cache == map[] && s.g == G.Group([], map[], true) && s.phase == C.Boot
    requires s.updates == [] && s.durable == 0 && s.started == {} && s.finished == {}
    ensures C.Initial(c, s) && C.SysInv(c, s) && C.Leads(c, s, [], s) && B.Observe(s.cache) == map[]
  {
    C.InitialInv(c, s);
  }

  lemma CrashStep(c: C.Config, s0: C.State, acts: seq<C.Action>, s: C.State, next: nat)
    requires C.Leads(c, s0, acts, s) && C.SysInv(c, s)
    ensures s.durable <= |s.updates| && C.SysInv(c, C.DoCrash(s, next))
    ensures C.Leads(c, s0, acts + [C.Crash(next)], C.DoCrash(s, next))
    ensures B.Observe(map[]) == map[]
  {
    hide C.Leads, C.SysInv;
    C.Facts(c, s);
    C.StepKeepsSysInv(c, s, C.Crash(next));
    LeadsAppend(c, s0, acts, s, C.Crash(next));
  }

  lemma ReadHeadStep(c: C.Config, s: C.State, t: nat)
    requires s.phase == C.Boot && s.committer == t && C.Owns(s, t, c.start)
    ensures C.Enabled(c, s, C.ReadHead)
    ensures C.Next(c, s, C.ReadHead) ==
            s.(g := G.Group(C.Header(s.cache[c.start].data), map[], true), phase := C.Recovering(0))
  {
  }

  lemma BeginFacts(c: C.Config, s: C.State, t: nat)
    requires C.SysInv(c, s) && t !in s.started && !C.InBoot(s.phase) && !C.Committing(s.phase)
    ensures s.phase.Idle? && !s.g.committing && t !in s.g.ops
    ensures |s.g.ops[t := {}]| == |s.g.ops| + 1
  {
    C.Clauses(c, s);
  }

  lemma AbsorbAt(block: seq<nat>, n: nat, b: nat, k: nat)
    requires n < |block| && k <= n && (k < n ==> block[k] == b) && (k == n ==> b !in block[..n])
    ensures block[k := b][..if k == n then n + 1 else n] == G.Absorb(block[..n], b)
    ensures k == n <==> b !in block[..n]
  {
  }

  lemma LogWriteStep(c: C.Config, s: C.State, t: nat, b: nat)
    requires C.SysInv(c, s) && C.Owns(s, t, b) && C.Home(c, b) && t in s.g.ops && |s.g.ops[t] + {b}| <= MAXOPBLOCKS
    requires !G.Full(c.size, s.g.blocks) && |s.g.ops| >= 1
    ensures C.Enabled(c, s, C.LogWrite(t, b))
    ensures C.Next(c, s, C.LogWrite(t, b)) == C.DoLogWrite(s, t, b) && s.phase.Idle?
    ensures |C.DoLogWrite(s, t, b).g.ops| == |s.g.ops|
    ensures C.DoLogWrite(s, t, b).g.blocks == G.Absorb(s.g.blocks, b)
  {
    C.Facts(c, s);
    assert C.DoLogWrite(s, t, b).g.ops.Keys == s.g.ops.Keys;
  }

  lemma EndStep(c: C.Config, s: C.State, t: nat)
    requires C.SysInv(c, s) && t in s.g.ops
    requires forall b :: b in s.cache && s.cache[b].dirty ==> s.cache[b].owner != Some(t)
    ensures C.Enabled(c, s, C.EndOp(t)) && s.phase == C.Idle && |s.g.ops| > 0
    ensures var r := C.Next(c, s, C.EndOp(t));
            && r == s.(g := r.g, finished := r.finished, committer := r.committer, phase := r.phase)
            && r == C.DoEnd(s, t) && r.g.blocks == s.g.blocks && |r.g.ops| == |s.g.ops| - 1
            && (|s.g.ops| > 1 ==> r.phase == C.Idle)
            && (|s.g.ops| == 1 ==>
                   r.committer == t && r.phase == if s.g.blocks == [] then C.Finishing else C.Copying(0))
  {
    hide C.SysInv;
    C.Facts(c, s);
    assert (s.g.ops - {t}).Keys == s.g.ops.Keys - {t};
    NotCommitting(c, s);
  }

  lemma OpRuns(c: C.Config, s: C.State, t: nat)
    requires C.SysInv(c, s) && t in s.g.ops
    ensures s.phase == C.Idle && |s.g.ops| >= 1
  {
    C.Facts(c, s);
  }

  lemma NotHeld(cache: map<nat, C.Line>, b: nat)
    requires FreeBut(cache, {})
    ensures b in cache ==> cache[b].refs == {}
  {
  }

  lemma OthersFree(before: map<nat, C.Line>, after: map<nat, C.Line>, b: nat)
    requires FreeBut(before, {}) && Kept(before, after, b)
    ensures FreeBut(after, {b})
  {
  }

  lemma ReleasedFree(got: map<nat, C.Line>, cache: map<nat, C.Line>, t: nat, b: nat)
    requires FreeBut(got, {b}) && b in got && got[b].refs == {t}
    requires b in cache && cache == got[b := cache[b]] && cache[b].refs == got[b].refs - {t}
    ensures FreeBut(cache, {})
  {
  }

  lemma DiskKeys(c: C.Config, s: C.State)
    requires C.SysInv(c, s)
    ensures s.disk.Keys == s.initial.Keys
  {
    C.Facts(c, s);
  }

  lemma NotCommitting(c: C.Config, s: C.State)
    requires C.SysInv(c, s) && s.phase.Idle?
    ensures !s.g.committing
  {
    C.Clauses(c, s);
  }

  lemma FinishStep(c: C.Config, s: C.State)
    requires C.SysInv(c, s) && s.phase == C.Finishing && s.g.ops == map[]
    ensures C.Enabled(c, s, C.Finish)
    ensures C.Next(c, s, C.Finish) == s.(g := G.Empty, phase := C.Idle)
  {
  }

  lemma InstalledFinish(c: C.Config, before: C.State, mid: C.State, done: C.State, after: C.State)
    requires mid.updates == before.updates && mid.initial == before.initial
    requires Installed(c, mid, done) && after == done.(g := G.Empty, phase := C.Idle)
    ensures Installed(c, before, after)
  {
  }
}
