/** The redo log of kernel/log.c on top of the buffer cache of kernel/bio.c, as a step system.

    Every action is one atomic section of the code: a critical section, an acquired sleep lock
    together with the disk read that fills the buffer, or one block write to disk.  Threads are
    interleaved arbitrarily, also while a commit is running, and the machine may crash between
    any two actions, during recovery included.  Single-block writes are atomic. */
module CrashLog {
  import opened Prelude
  import G = GroupCommit

  /** A disk block seen as its BSIZE / sizeof(uint) words. */
  const WORDS: nat := 256
  type Block = b: seq<nat> | |b| == WORDS witness seq(WORDS, _ => 0)

  /** log.start and log.size. */
  datatype Config = Config(start: nat, size: nat)

  /** Blocks outside the log area. */
  predicate Home(c: Config, b: nat) {
    !(c.start <= b < c.start + c.size)
  }

  function Slot(c: Config, i: nat): nat {
    c.start + i + 1
  }

  // ----- The header block: word 0 is n, the next n words are the block numbers -----

  function Header(b: Block): seq<nat> {
    if b[0] <= G.LOGSIZE then b[1..b[0] + 1] else []
  }

  /** write_head overwrites n and the first n entries and keeps the rest of the buffer. */
  function SetHeader(b: Block, blocks: seq<nat>): (r: Block)
    requires |blocks| <= G.LOGSIZE
    ensures Header(r) == blocks && r[0] == |blocks|
  {
    var r := [|blocks|] + blocks + b[|blocks| + 1..];
    assert r[1..|blocks| + 1] == blocks;
    r
  }

  // ----- State -----

  /** A cached block.  refs are the threads between bget and brelse on it (holding or waiting),
      owner holds its sleep lock, dirty means modified and not yet passed to log_write. */
  datatype Line = Line(refcnt: nat, refs: set<nat>, owner: Option<nat>, valid: bool, dirty: bool, data: Block)

  datatype Phase =
    | Idle
    | Copying(tail: nat)      // write_log, then the header write when tail == n
    | Installing(tail: nat)   // install_trans(0), then the erasing header write
    | Finishing               // commit() returned, committing still set
    | Boot                    // after power-on, before read_head
    | Recovering(tail: nat)   // install_trans(1), then the erasing header write

  datatype Update = Update(t: nat, b: nat, data: Block)

  /** disk, cache and the in-memory log g are the system; the rest is history:
      updates lists every modification ever made that was not lost in a crash, the first durable
      of them are committed; finished and started are operation ids. */
  datatype State = State(
    disk: map<nat, Block>,
    cache: map<nat, Line>,
    g: G.Group,
    phase: Phase,
    committer: nat,
    initial: map<nat, Block>,
    updates: seq<Update>,
    durable: nat,
    started: set<nat>,
    finished: set<nat>)

  /** The blocks an immediately updated disk would hold. */
  function Apply(m: map<nat, Block>, us: seq<Update>): (r: map<nat, Block>)
    ensures m.Keys <= r.Keys
  {
    if us == [] then m else Apply(m, us[..|us| - 1])[us[|us| - 1].b := us[|us| - 1].data]
  }

  function Plain(s: State): map<nat, Block> { Apply(s.initial, s.updates) }

  function Committed(s: State): map<nat, Block>
    requires s.durable <= |s.updates|
  { Apply(s.initial, s.updates[..s.durable]) }

  predicate InBoot(p: Phase) { p.Boot? || p.Recovering? }

  /** Logged blocks whose home copy is not written yet; their buffers are pinned. */
  function Pinned(phase: Phase, blocks: seq<nat>): seq<nat> {
    match phase
    case Idle => blocks
    case Copying(_) => blocks
    case Installing(k) => if k <= |blocks| then blocks[k..] else []
    case _ => []
  }

  // ----- Actions -----

  datatype Action =
    | Get(t: nat, b: nat, victim: Option<nat>, stale: Block)  // bget up to releasing bcache.lock
    | Lock(t: nat, b: nat)                      // acquiresleep, and the disk read when not valid
    | Modify(t: nat, b: nat, data: Block)
    | LogWrite(t: nat, b: nat)
    | Release(t: nat, b: nat)                   // brelse
    | BeginOp(t: nat)
    | EndOp(t: nat)
    | CopyBlock                                 // write_log: memmove and bwrite(to)
    | WriteHead
    | InstallBlock                              // install_trans: memmove, bwrite(dbuf), bunpin
    | EraseHead
    | Finish
    | Crash(next: nat)
    | ReadHead

  predicate Owns(s: State, t: nat, b: nat) {
    b in s.cache && s.cache[b].owner == Some(t)
  }

  // Bread: bget under bcache.lock, then the sleep lock and the disk read if the buffer is not valid.

  predicate CanGet(c: Config, s: State, t: nat, b: nat, victim: Option<nat>) {
    && b in s.disk
    && (b in s.cache ==> t !in s.cache[b].refs)
    // only commit and recovery touch the log area, and nothing else runs before recovery is done
    && (!Home(c, b) || InBoot(s.phase) ==> t == s.committer && !s.phase.Idle?)
    && (victim.Some? ==> b !in s.cache && victim.value in s.cache && s.cache[victim.value].refcnt == 0)
  }

  /** The buffer is in the cache with one more reference, possibly after an unreferenced victim is dropped;
      a recycled buffer keeps its stale data but is not valid. */
  function Gotten(cache: map<nat, Line>, t: nat, b: nat, victim: Option<nat>, stale: Block): map<nat, Line> {
    var kept := if victim.Some? then cache - {victim.value} else cache;
    if b in kept then kept[b := kept[b].(refcnt := kept[b].refcnt + 1, refs := kept[b].refs + {t})]
    else kept[b := Line(1, {t}, None, false, false, stale)]
  }

  predicate CanLock(s: State, t: nat, b: nat) {
    b in s.cache && b in s.disk && t in s.cache[b].refs && s.cache[b].owner == None
  }

  function Locked(s: State, t: nat, b: nat): Line
    requires CanLock(s, t, b)
  {
    var l := s.cache[b];
    l.(owner := Some(t), valid := true, data := if l.valid then l.data else s.disk[b])
  }

  function Released(l: Line, t: nat): Line {
    l.(owner := None, refs := l.refs - {t}, refcnt := if l.refcnt > 0 then l.refcnt - 1 else 0)
  }

  function DoModify(s: State, t: nat, b: nat, data: Block): State
    requires b in s.cache
  {
    s.(cache := s.cache[b := s.cache[b].(data := data, dirty := true)], updates := s.updates + [Update(t, b, data)])
  }

  ghost predicate CanLogWrite(c: Config, s: State, t: nat, b: nat) {
    && Owns(s, t, b) && Home(c, b)
    && G.Allowed(s.g, G.Log(t, b)) && !G.Panics(c.size, s.g, G.Log(t, b))
  }

  function Pin(l: Line, added: bool): Line {
    l.(dirty := false, refcnt := if added then l.refcnt + 1 else l.refcnt)
  }

  function DoLogWrite(s: State, t: nat, b: nat): State
    requires b in s.cache
  {
    s.(cache := s.cache[b := Pin(s.cache[b], b !in s.g.blocks)], g := G.Next(s.g, G.Log(t, b)))
  }

  ghost predicate CanEnd(c: Config, s: State, t: nat) {
    && G.Allowed(s.g, G.End(t)) && !G.Panics(c.size, s.g, G.End(t))
    && forall b :: b in s.cache && s.cache[b].dirty ==> s.cache[b].owner != Some(t)
  }

  function DoEnd(s: State, t: nat): State {
    var g := G.Next(s.g, G.End(t));
    s.(g := g, finished := s.finished + {t},
       committer := if g.committing then t else s.committer,
       phase := if !g.committing then s.phase else if g.blocks == [] then Finishing else Copying(0))
  }

  /** One iteration of write_log: both buffers are locked by the committing thread. */
  predicate CanCopy(c: Config, s: State) {
    && s.phase.Copying? && s.phase.tail < |s.g.blocks|
    && Owns(s, s.committer, Slot(c, s.phase.tail)) && Owns(s, s.committer, s.g.blocks[s.phase.tail])
  }

  function DoCopy(c: Config, s: State): State
    requires CanCopy(c, s)
  {
    var slot, d := Slot(c, s.phase.tail), s.cache[s.g.blocks[s.phase.tail]].data;
    s.(disk := s.disk[slot := d], cache := s.cache[slot := s.cache[slot].(data := d)],
       phase := Copying(s.phase.tail + 1))
  }

  predicate CanWriteHead(c: Config, s: State) {
    s.phase.Copying? && s.phase.tail == |s.g.blocks| <= G.LOGSIZE && Owns(s, s.committer, c.start)
  }

  function DoWriteHead(c: Config, s: State): State
    requires CanWriteHead(c, s)
  {
    var d := SetHeader(s.cache[c.start].data, s.g.blocks);
    s.(disk := s.disk[c.start := d], cache := s.cache[c.start := s.cache[c.start].(data := d)],
       durable := |s.updates|, phase := Installing(0))
  }

  /** One iteration of install_trans, in a commit or in recovery. */
  predicate CanInstall(c: Config, s: State) {
    && (s.phase.Installing? || s.phase.Recovering?) && s.phase.tail < |s.g.blocks|
    && Owns(s, s.committer, Slot(c, s.phase.tail)) && Owns(s, s.committer, s.g.blocks[s.phase.tail])
    && s.cache[s.g.blocks[s.phase.tail]].refcnt > 0
  }

  function DoInstall(c: Config, s: State): State
    requires CanInstall(c, s)
  {
    var b, d := s.g.blocks[s.phase.tail], s.cache[Slot(c, s.phase.tail)].data;
    var l := s.cache[b];
    s.(disk := s.disk[b := d],
       cache := s.cache[b := l.(data := d, refcnt := if s.phase.Installing? then l.refcnt - 1 else l.refcnt)],
       phase := s.phase.(tail := s.phase.tail + 1))
  }

  predicate CanErase(c: Config, s: State) {
    && (s.phase.Installing? || s.phase.Recovering?) && s.phase.tail == |s.g.blocks|
    && Owns(s, s.committer, c.start)
  }

  function DoErase(c: Config, s: State): State
    requires CanErase(c, s)
  {
    var d := SetHeader(s.cache[c.start].data, []);
    s.(disk := s.disk[c.start := d], cache := s.cache[c.start := s.cache[c.start].(data := d)],
       phase := if s.phase.Installing? then Finishing else Idle,
       g := G.Group([], map[], s.phase.Installing?))
  }

  /** Memory is lost; operations in flight are gone and what they changed with them. */
  function DoCrash(s: State, next: nat): State
    requires s.durable <= |s.updates|
  {
    s.(cache := map[], g := G.Group([], map[], true), phase := Boot, committer := next,
       updates := s.updates[..s.durable])
  }

  function DoReadHead(c: Config, s: State): State
    requires Owns(s, s.committer, c.start)
  {
    s.(g := G.Group(Header(s.cache[c.start].data), map[], true), phase := Recovering(0))
  }

  ghost predicate Enabled(c: Config, s: State, a: Action) {
    match a
    case Get(t, b, victim, _) => CanGet(c, s, t, b, victim)
    case Lock(t, b) => CanLock(s, t, b)
    case Modify(t, b, _) => Owns(s, t, b) && t in s.g.ops && Home(c, b)
    case LogWrite(t, b) => CanLogWrite(c, s, t, b)
    case Release(t, b) => Owns(s, t, b) && !s.cache[b].dirty
    case BeginOp(t) => t !in s.started && s.phase.Idle? && G.Allowed(s.g, G.Begin(t))
    case EndOp(t) => CanEnd(c, s, t)
    case CopyBlock => CanCopy(c, s)
    case WriteHead => CanWriteHead(c, s)
    case InstallBlock => CanInstall(c, s)
    case EraseHead => CanErase(c, s)
    case Finish => s.phase.Finishing?
    case Crash(_) => s.durable <= |s.updates|
    case ReadHead => s.phase.Boot? && Owns(s, s.committer, c.start)
  }

  ghost function Next(c: Config, s: State, a: Action): State
    requires Enabled(c, s, a)
  {
    match a
    case Get(t, b, victim, stale) => s.(cache := Gotten(s.cache, t, b, victim, stale))
    case Lock(t, b) => s.(cache := s.cache[b := Locked(s, t, b)])
    case Modify(t, b, data) => DoModify(s, t, b, data)
    case LogWrite(t, b) => DoLogWrite(s, t, b)
    case Release(t, b) => s.(cache := s.cache[b := Released(s.cache[b], t)])
    case BeginOp(t) => s.(g := G.Next(s.g, G.Begin(t)), started := s.started + {t})
    case EndOp(t) => DoEnd(s, t)
    case CopyBlock => DoCopy(c, s)
    case WriteHead => DoWriteHead(c, s)
    case InstallBlock => DoInstall(c, s)
    case EraseHead => DoErase(c, s)
    case Finish => s.(g := G.Next(s.g, G.Committed), phase := Idle)
    case Crash(next) => DoCrash(s, next)
    case ReadHead => DoReadHead(c, s)
  }

  // ----- What recovery will produce -----

  ghost predicate HeaderOk(c: Config, disk: map<nat, Block>, blocks: seq<nat>) {
    && Distinct(blocks) && |blocks| <= G.LOGSIZE && (|blocks| == 0 || |blocks| < c.size)
    && (forall i :: 0 <= i < |blocks| ==> Home(c, blocks[i]) && blocks[i] in disk)
  }

  /** Installing the logged blocks of this disk image yields m on every home block. */
  ghost predicate RecoversTo(c: Config, disk: map<nat, Block>, m: map<nat, Block>) {
    && c.start in disk && disk[c.start][0] <= G.LOGSIZE
    && var h := Header(disk[c.start]);
    && HeaderOk(c, disk, h)
    && (forall i :: 0 <= i < |h| ==> h[i] in m && Slot(c, i) in disk && disk[Slot(c, i)] == m[h[i]])
    && (forall b :: b in disk && Home(c, b) && b !in h ==> b in m && disk[b] == m[b])
  }

  // ----- Invariant, one predicate per part of the state -----

  ghost predicate Shape(c: Config, disk: map<nat, Block>, initial: map<nat, Block>, updates: seq<Update>) {
    && 0 < c.size && (forall b :: c.start <= b < c.start + c.size ==> b in disk)
    && disk.Keys == initial.Keys
    && (forall i :: 0 <= i < |updates| ==> updates[i].b in disk && Home(c, updates[i].b))
  }

  ghost predicate GroupOk(c: Config, disk: map<nat, Block>, g: G.Group, idle: bool,
                          started: set<nat>, finished: set<nat>)
  {
    && (g.committing <==> !idle)
    && G.Inv(g) && HeaderOk(c, disk, g.blocks)
    && g.ops.Keys <= started && finished <= started && g.ops.Keys !! finished
  }

  /** Blocks modified in the cache and not yet logged. */
  function Dirty(cache: map<nat, Line>): set<nat> { set b | b in cache && cache[b].dirty }

  /** A buffer holds the logical block (plain), except in the log area and during recovery, where it
      mirrors the disk; only referenced and pinned buffers are counted in refcnt. */
  ghost predicate LineOk(c: Config, disk: map<nat, Block>, plain: map<nat, Block>, pinned: seq<nat>,
                         ops: set<nat>, boot: bool, b: nat, l: Line)
  {
    && b in disk && b in plain
    && l.refcnt == |l.refs| + (if b in pinned then 1 else 0)
    && (l.owner.Some? ==> l.owner.value in l.refs && l.valid)
    && (l.dirty ==> l.owner.Some? && l.owner.value in ops && Home(c, b))
    && (l.valid ==> l.data == if Home(c, b) && !boot then plain[b] else disk[b])
  }

  ghost predicate CacheOk(c: Config, disk: map<nat, Block>, plain: map<nat, Block>, pinned: seq<nat>,
                          ops: set<nat>, boot: bool, cache: map<nat, Line>)
  {
    && (forall b :: b in cache ==> LineOk(c, disk, plain, pinned, ops, boot, b, cache[b]))
    && (forall b :: b in pinned ==> b in cache && cache[b].valid)
  }

  /** The home copy of a block is current unless the block is logged or dirty. */
  ghost predicate HomeOk(c: Config, disk: map<nat, Block>, plain: map<nat, Block>, pinned: seq<nat>,
                         dirty: set<nat>)
  {
    forall b :: b in disk && Home(c, b) && b !in pinned && b !in dirty ==> b in plain && disk[b] == plain[b]
  }

  /** allDurable says that every update is durable. */
  ghost predicate PhaseOk(c: Config, disk: map<nat, Block>, plain: map<nat, Block>, g: G.Group, phase: Phase,
                          allDurable: bool)
  {
    && c.start in disk
    && match phase
       case Idle => Header(disk[c.start]) == [] && (g.ops == map[] ==> g.blocks == [] && allDurable)
       case Copying(k) =>
         Header(disk[c.start]) == [] && k <= |g.blocks| && Copied(c, disk, plain, g.blocks[..k])
       case Installing(k) => Header(disk[c.start]) == g.blocks && allDurable && k <= |g.blocks|
       case Finishing => Header(disk[c.start]) == [] && allDurable
       case Boot => allDurable
       case Recovering(k) =>
         && Header(disk[c.start]) == g.blocks && allDurable && k <= |g.blocks|
         && Installed(c, disk, g.blocks, k)
  }

  /** The home copies of the first k logged blocks equal their log copies. */
  ghost predicate Installed(c: Config, disk: map<nat, Block>, blocks: seq<nat>, k: nat) {
    && k <= |blocks|
    && forall i :: 0 <= i < k ==> blocks[i] in disk && Slot(c, i) in disk && disk[blocks[i]] == disk[Slot(c, i)]
  }

  /** The first log slots hold m's version of these blocks. */
  ghost predicate Copied(c: Config, disk: map<nat, Block>, m: map<nat, Block>, blocks: seq<nat>) {
    forall i :: 0 <= i < |blocks| ==> blocks[i] in m && Slot(c, i) in disk && disk[Slot(c, i)] == m[blocks[i]]
  }

  /** Updates not yet durable belong to logged or dirty blocks; durable ones to finished operations. */
  ghost predicate HistoryOk(updates: seq<Update>, durable: nat, blocks: seq<nat>, dirty: set<nat>,
                            ops: set<nat>, finished: set<nat>)
  {
    && durable <= |updates|
    && (forall i :: 0 <= i < durable ==> updates[i].t in finished)
    && (forall i :: durable <= i < |updates| ==>
          && (updates[i].b in blocks || updates[i].b in dirty)
          && (updates[i].t in finished || updates[i].t in ops))
  }

  datatype Clause = Shaped | Grouped | Buffered | AtHome | Phased | Remembered | Recoverable

  ghost predicate ClauseOk(c: Config, s: State, x: Clause)
    requires s.durable <= |s.updates|
  {
    match x
    case Shaped => Shape(c, s.disk, s.initial, s.updates)
    case Grouped => GroupOk(c, s.disk, s.g, s.phase.Idle?, s.started, s.finished)
    case Buffered => CacheOk(c, s.disk, Plain(s), Pinned(s.phase, s.g.blocks), s.g.ops.Keys, InBoot(s.phase), s.cache)
    case AtHome => !InBoot(s.phase) ==> HomeOk(c, s.disk, Plain(s), Pinned(s.phase, s.g.blocks), Dirty(s.cache))
    case Phased => PhaseOk(c, s.disk, Plain(s), s.g, s.phase, s.durable == |s.updates|)
    case Remembered => HistoryOk(s.updates, s.durable, s.g.blocks, Dirty(s.cache), s.g.ops.Keys, s.finished)
    case Recoverable => RecoversTo(c, s.disk, Committed(s))
  }

  ghost predicate SysInv(c: Config, s: State) { s.durable <= |s.updates| && forall x :: ClauseOk(c, s, x) }

  ghost predicate EachClause(c: Config, s: State) {
    && s.durable <= |s.updates|
    && Shape(c, s.disk, s.initial, s.updates)
    && GroupOk(c, s.disk, s.g, s.phase.Idle?, s.started, s.finished)
    && CacheOk(c, s.disk, Plain(s), Pinned(s.phase, s.g.blocks), s.g.ops.Keys, InBoot(s.phase), s.cache)
    && (!InBoot(s.phase) ==> HomeOk(c, s.disk, Plain(s), Pinned(s.phase, s.g.blocks), Dirty(s.cache)))
    && PhaseOk(c, s.disk, Plain(s), s.g, s.phase, s.durable == |s.updates|)
    && HistoryOk(s.updates, s.durable, s.g.blocks, Dirty(s.cache), s.g.ops.Keys, s.finished)
    && RecoversTo(c, s.disk, Committed(s))
  }

  lemma Clauses(c: Config, s: State)
    ensures SysInv(c, s) <==> EachClause(c, s)
  {
    hide Shape, GroupOk, CacheOk, HomeOk, PhaseOk, HistoryOk, RecoversTo;
    if SysInv(c, s) {
      assert ClauseOk(c, s, Shaped);
      assert ClauseOk(c, s, Grouped);
      assert ClauseOk(c, s, Buffered);
      assert ClauseOk(c, s, AtHome);
      assert ClauseOk(c, s, Phased);
      assert ClauseOk(c, s, Remembered);
      assert ClauseOk(c, s, Recoverable);
    }
  }

  // ----- Every action keeps the invariant -----

  lemma ApplyAppend(m: map<nat, Block>, us: seq<Update>, u: Update)
    ensures Apply(m, us + [u]) == Apply(m, us)[u.b := u.data]
  {
    assert (us + [u])[..|us|] == us;
  }

  /** Consequences of the invariant that the proofs below use without unfolding it. */
  lemma Facts(c: Config, s: State)
    requires SysInv(c, s)
    ensures s.g.ops != map[] ==> s.phase.Idle? && s.g.ops.Keys != {}
    ensures !s.phase.Idle? ==> s.g.ops == map[] && s.g.ops.Keys == {}
    ensures s.durable <= |s.updates| && s.finished <= s.started && s.disk.Keys == s.initial.Keys <= Plain(s).Keys
    ensures Distinct(s.g.blocks) && HeaderOk(c, s.disk, s.g.blocks)
    ensures c.start in s.disk && !Home(c, c.start)
    ensures forall i :: 0 <= i < |s.g.blocks| ==>
              && Home(c, s.g.blocks[i]) && s.g.blocks[i] in s.disk && s.g.blocks[i] in Plain(s)
              && c.start < Slot(c, i) < c.start + c.size && !Home(c, Slot(c, i)) && Slot(c, i) in s.disk
    ensures forall b :: b in s.cache ==>
              LineOk(c, s.disk, Plain(s), Pinned(s.phase, s.g.blocks), s.g.ops.Keys, InBoot(s.phase), b, s.cache[b])
    ensures s.updates[..|s.updates|] == s.updates && s.g.blocks[..|s.g.blocks|] == s.g.blocks
    ensures s.g.blocks[0..] == s.g.blocks && s.g.blocks[|s.g.blocks|..] == []
  {
    Clauses(c, s);
  }

  lemma GroupDisk(c: Config, disk: map<nat, Block>, disk': map<nat, Block>, g: G.Group, idle: bool,
                  started: set<nat>, finished: set<nat>)
    requires GroupOk(c, disk, g, idle, started, finished) && disk.Keys == disk'.Keys
    ensures GroupOk(c, disk', g, idle, started, finished)
  {
  }

  lemma CacheGet(c: Config, disk: map<nat, Block>, plain: map<nat, Block>, pinned: seq<nat>, ops: set<nat>,
                 boot: bool, cache: map<nat, Line>, t: nat, b: nat, victim: Option<nat>, stale: Block)
    requires CacheOk(c, disk, plain, pinned, ops, boot, cache)
    requires b in disk && b in plain && (b in cache ==> t !in cache[b].refs)
    requires victim.Some? ==> b !in cache && victim.value in cache && cache[victim.value].refcnt == 0
    ensures CacheOk(c, disk, plain, pinned, ops, boot, Gotten(cache, t, b, victim, stale))
    ensures Dirty(Gotten(cache, t, b, victim, stale)) == Dirty(cache)
  {
    if victim.Some? {
      assert LineOk(c, disk, plain, pinned, ops, boot, victim.value, cache[victim.value]);
    }
  }

  /** An action that only changes buffers, and none of their dirty bits. */
  lemma CacheOnly(c: Config, s: State, cache: map<nat, Line>)
    requires SysInv(c, s)
    requires CacheOk(c, s.disk, Plain(s), Pinned(s.phase, s.g.blocks), s.g.ops.Keys, InBoot(s.phase), cache)
    requires Dirty(cache) == Dirty(s.cache)
    ensures SysInv(c, s.(cache := cache))
  {
    Clauses(c, s);
  }

  lemma KeepGet(c: Config, s: State, t: nat, b: nat, victim: Option<nat>, stale: Block)
    requires SysInv(c, s) && CanGet(c, s, t, b, victim)
    ensures SysInv(c, s.(cache := Gotten(s.cache, t, b, victim, stale)))
  {
    Clauses(c, s);
    Clauses(c, s.(cache := Gotten(s.cache, t, b, victim, stale)));
    CacheGet(c, s.disk, Plain(s), Pinned(s.phase, s.g.blocks), s.g.ops.Keys, InBoot(s.phase), s.cache, t, b, victim,
             stale);
    CacheOnly(c, s, Gotten(s.cache, t, b, victim, stale));
  }

  lemma CacheLock(c: Config, disk: map<nat, Block>, plain: map<nat, Block>, pinned: seq<nat>, ops: set<nat>,
                  boot: bool, cache: map<nat, Line>, t: nat, b: nat, data: Block)
    requires CacheOk(c, disk, plain, pinned, ops, boot, cache)
    requires !boot ==> HomeOk(c, disk, plain, pinned, Dirty(cache))
    requires b in cache && t in cache[b].refs && cache[b].owner == None
    requires b in disk && data == if cache[b].valid then cache[b].data else disk[b]
    ensures CacheOk(c, disk, plain, pinned, ops, boot,
                    cache[b := cache[b].(owner := Some(t), valid := true, data := data)])
    ensures Dirty(cache[b := cache[b].(owner := Some(t), valid := true, data := data)]) == Dirty(cache)
    ensures Home(c, b) && !boot ==> b in plain && data == plain[b]
  {
    assert LineOk(c, disk, plain, pinned, ops, boot, b, cache[b]);
  }

  lemma KeepLock(c: Config, s: State, t: nat, b: nat)
    requires SysInv(c, s) && CanLock(s, t, b)
    ensures SysInv(c, s.(cache := s.cache[b := Locked(s, t, b)]))
    ensures Home(c, b) && !InBoot(s.phase) ==> b in Plain(s) && Locked(s, t, b).data == Plain(s)[b]
  {
    Clauses(c, s);
    Clauses(c, s.(cache := s.cache[b := Locked(s, t, b)]));
    CacheLock(c, s.disk, Plain(s), Pinned(s.phase, s.g.blocks), s.g.ops.Keys, InBoot(s.phase), s.cache,
              t, b, Locked(s, t, b).data);
    CacheOnly(c, s, s.cache[b := Locked(s, t, b)]);
  }

  lemma CacheRelease(c: Config, disk: map<nat, Block>, plain: map<nat, Block>, pinned: seq<nat>, ops: set<nat>,
                     boot: bool, cache: map<nat, Line>, t: nat, b: nat, l: Line)
    requires CacheOk(c, disk, plain, pinned, ops, boot, cache)
    requires b in cache && cache[b].owner == Some(t) && !cache[b].dirty
    requires l == Released(cache[b], t)
    ensures CacheOk(c, disk, plain, pinned, ops, boot, cache[b := l])
    ensures Dirty(cache[b := l]) == Dirty(cache)
  {
    assert LineOk(c, disk, plain, pinned, ops, boot, b, cache[b]);
  }

  lemma KeepRelease(c: Config, s: State, t: nat, b: nat)
    requires SysInv(c, s) && Owns(s, t, b) && !s.cache[b].dirty
    ensures SysInv(c, s.(cache := s.cache[b := Released(s.cache[b], t)]))
  {
    Clauses(c, s);
    Clauses(c, s.(cache := s.cache[b := Released(s.cache[b], t)]));
    var n := s.cache[b := Released(s.cache[b], t)];
    CacheRelease(c, s.disk, Plain(s), Pinned(s.phase, s.g.blocks), s.g.ops.Keys, InBoot(s.phase), s.cache,
                 t, b, n[b]);
    CacheOnly(c, s, n);
  }

  lemma CacheModify(c: Config, disk: map<nat, Block>, plain: map<nat, Block>, pinned: seq<nat>, ops: set<nat>,
                    cache: map<nat, Line>, t: nat, b: nat, data: Block)
    requires CacheOk(c, disk, plain, pinned, ops, false, cache) && HomeOk(c, disk, plain, pinned, Dirty(cache))
    requires b in cache && cache[b].owner == Some(t) && t in ops && Home(c, b)
    ensures var n := cache[b := cache[b].(data := data, dirty := true)];
            && CacheOk(c, disk, plain[b := data], pinned, ops, false, n)
            && HomeOk(c, disk, plain[b := data], pinned, Dirty(n))
            && Dirty(n) == Dirty(cache) + {b}
  {
    assert LineOk(c, disk, plain, pinned, ops, false, b, cache[b]);
  }

  lemma HistoryModify(updates: seq<Update>, durable: nat, blocks: seq<nat>, dirty: set<nat>, ops: set<nat>,
                      finished: set<nat>, u: Update)
    requires HistoryOk(updates, durable, blocks, dirty, ops, finished) && u.t in ops
    ensures HistoryOk(updates + [u], durable, blocks, dirty + {u.b}, ops, finished)
    ensures (updates + [u])[..durable] == updates[..durable]
  {
  }

  lemma ShapeModify(c: Config, disk: map<nat, Block>, initial: map<nat, Block>, updates: seq<Update>, u: Update)
    requires Shape(c, disk, initial, updates) && u.b in disk && Home(c, u.b)
    ensures Shape(c, disk, initial, updates + [u])
  {
  }

  lemma KeepModify(c: Config, s: State, t: nat, b: nat, data: Block)
    requires SysInv(c, s) && Owns(s, t, b) && t in s.g.ops && Home(c, b)
    ensures SysInv(c, DoModify(s, t, b, data))
  {
    hide G.Inv, Distinct, HeaderOk, RecoversTo, Shape, GroupOk, CacheOk, HomeOk, HistoryOk, Copied, Installed, Apply;
    Clauses(c, s);
    Clauses(c, DoModify(s, t, b, data));
    Facts(c, s);
    var n := DoModify(s, t, b, data);
    assert s.phase.Idle?;
    CacheModify(c, s.disk, Plain(s), Pinned(s.phase, s.g.blocks), s.g.ops.Keys, s.cache, t, b, data);
    ApplyAppend(s.initial, s.updates, Update(t, b, data));
    HistoryModify(s.updates, s.durable, s.g.blocks, Dirty(s.cache), s.g.ops.Keys, s.finished, Update(t, b, data));
    ShapeModify(c, s.disk, s.initial, s.updates, Update(t, b, data));
  }

  lemma CacheLogWrite(c: Config, disk: map<nat, Block>, plain: map<nat, Block>, blocks: seq<nat>, ops: set<nat>,
                      cache: map<nat, Line>, t: nat, b: nat, l: Line)
    requires CacheOk(c, disk, plain, blocks, ops, false, cache) && HomeOk(c, disk, plain, blocks, Dirty(cache))
    requires b in cache && cache[b].owner == Some(t)
    requires l == Pin(cache[b], b !in blocks)
    ensures var n := cache[b := l];
            && CacheOk(c, disk, plain, G.Absorb(blocks, b), ops, false, n)
            && HomeOk(c, disk, plain, G.Absorb(blocks, b), Dirty(n))
            && Dirty(n) == Dirty(cache) - {b}
  {
    assert LineOk(c, disk, plain, blocks, ops, false, b, cache[b]);
    assert forall x :: x in G.Absorb(blocks, b) <==> x in blocks || x == b;
  }

  lemma GroupLogWrite(c: Config, disk: map<nat, Block>, g: G.Group, started: set<nat>, finished: set<nat>,
                      t: nat, b: nat)
    requires GroupOk(c, disk, g, true, started, finished) && Home(c, b) && b in disk
    requires G.Allowed(g, G.Log(t, b)) && !G.Panics(c.size, g, G.Log(t, b))
    ensures GroupOk(c, disk, G.Next(g, G.Log(t, b)), true, started, finished)
    ensures G.Next(g, G.Log(t, b)).ops.Keys == g.ops.Keys
  {
    G.StepKeepsInv(c.size, g, G.Log(t, b));
  }

  lemma HistoryLogWrite(updates: seq<Update>, durable: nat, blocks: seq<nat>, dirty: set<nat>, ops: set<nat>,
                        finished: set<nat>, b: nat)
    requires HistoryOk(updates, durable, blocks, dirty, ops, finished)
    ensures HistoryOk(updates, durable, G.Absorb(blocks, b), dirty - {b}, ops, finished)
  {
  }

  lemma KeepLogWrite(c: Config, s: State, t: nat, b: nat)
    requires SysInv(c, s) && CanLogWrite(c, s, t, b)
    ensures SysInv(c, DoLogWrite(s, t, b))
  {
    hide G.Inv, Distinct, HeaderOk, RecoversTo, Shape, GroupOk, CacheOk, HomeOk, HistoryOk, Copied, Installed, Apply;
    Clauses(c, s);
    Clauses(c, DoLogWrite(s, t, b));
    Facts(c, s);
    var n := DoLogWrite(s, t, b);
    assert s.phase.Idle?;
    assert LineOk(c, s.disk, Plain(s), s.g.blocks, s.g.ops.Keys, false, b, s.cache[b]);
    GroupLogWrite(c, s.disk, s.g, s.started, s.finished, t, b);
    CacheLogWrite(c, s.disk, Plain(s), s.g.blocks, s.g.ops.Keys, s.cache, t, b, n.cache[b]);
    HistoryLogWrite(s.updates, s.durable, s.g.blocks, Dirty(s.cache), s.g.ops.Keys, s.finished, b);
  }

  /** Changing the set of running operations, when no dirty buffer loses its owner. */
  lemma CacheOps(c: Config, disk: map<nat, Block>, plain: map<nat, Block>, pinned: seq<nat>, ops: set<nat>,
                 ops': set<nat>, cache: map<nat, Line>)
    requires CacheOk(c, disk, plain, pinned, ops, false, cache)
    requires forall b, t :: b in cache && cache[b].dirty && cache[b].owner == Some(t) && t in ops ==> t in ops'
    ensures CacheOk(c, disk, plain, pinned, ops', false, cache)
    ensures ops' == {} ==> Dirty(cache) == {}
  {
    forall b | b in cache
      ensures LineOk(c, disk, plain, pinned, ops', false, b, cache[b])
    {
      assert LineOk(c, disk, plain, pinned, ops, false, b, cache[b]);
    }
  }

  lemma GroupBegin(c: Config, disk: map<nat, Block>, g: G.Group, started: set<nat>, finished: set<nat>, t: nat)
    requires GroupOk(c, disk, g, true, started, finished) && t !in started && G.Allowed(g, G.Begin(t))
    ensures GroupOk(c, disk, G.Next(g, G.Begin(t)), true, started + {t}, finished)
    ensures G.Next(g, G.Begin(t)).ops.Keys == g.ops.Keys + {t}
  {
    G.StepKeepsInv(c.size, g, G.Begin(t));
  }

  lemma HistoryOps(updates: seq<Update>, durable: nat, blocks: seq<nat>, dirty: set<nat>, ops: set<nat>,
                   finished: set<nat>, ops': set<nat>, finished': set<nat>)
    requires HistoryOk(updates, durable, blocks, dirty, ops, finished)
    requires finished <= finished' && ops <= ops' + finished'
    ensures HistoryOk(updates, durable, blocks, dirty, ops', finished')
    ensures blocks == [] && dirty == {} ==> durable == |updates|
  {
    if durable < |updates| {
      assert updates[durable].b in blocks || updates[durable].b in dirty;
    }
  }

  lemma KeepBegin(c: Config, s: State, t: nat)
    requires SysInv(c, s) && t !in s.started && s.phase.Idle? && G.Allowed(s.g, G.Begin(t))
    ensures SysInv(c, s.(g := G.Next(s.g, G.Begin(t)), started := s.started + {t}))
  {
    hide G.Inv, Distinct, HeaderOk, RecoversTo, Shape, GroupOk, CacheOk, HomeOk, HistoryOk, Copied, Installed, Apply;
    Clauses(c, s);
    Clauses(c, s.(g := G.Next(s.g, G.Begin(t)), started := s.started + {t}));
    Facts(c, s);
    var n := s.(g := G.Next(s.g, G.Begin(t)), started := s.started + {t});
    GroupBegin(c, s.disk, s.g, s.started, s.finished, t);
    CacheOps(c, s.disk, Plain(s), s.g.blocks, s.g.ops.Keys, n.g.ops.Keys, s.cache);
    HistoryOps(s.updates, s.durable, s.g.blocks, Dirty(s.cache), s.g.ops.Keys, s.finished,
               n.g.ops.Keys, n.finished);
    assert t in n.g.ops;
  }

  lemma GroupEnd(c: Config, disk: map<nat, Block>, g: G.Group, started: set<nat>, finished: set<nat>, t: nat)
    requires GroupOk(c, disk, g, true, started, finished) && t in g.ops
    ensures var n := G.Next(g, G.End(t));
            && GroupOk(c, disk, n, !n.committing, started, finished + {t})
            && n.ops.Keys == g.ops.Keys - {t} && n.blocks == g.blocks
            && (n.committing ==> n.ops.Keys == {}) && (!n.committing ==> n.ops != map[])
  {
    G.StepKeepsInv(c.size, g, G.End(t));
  }

  lemma KeepEnd(c: Config, s: State, t: nat)
    requires SysInv(c, s) && CanEnd(c, s, t)
    ensures SysInv(c, DoEnd(s, t))
  {
    hide G.Inv, Distinct, HeaderOk, RecoversTo, Shape, GroupOk, CacheOk, HomeOk, HistoryOk, Installed, Apply;
    Clauses(c, s);
    Clauses(c, DoEnd(s, t));
    Facts(c, s);
    var n := DoEnd(s, t);
    assert s.phase.Idle?;
    GroupEnd(c, s.disk, s.g, s.started, s.finished, t);
    CacheOps(c, s.disk, Plain(s), s.g.blocks, s.g.ops.Keys, n.g.ops.Keys, s.cache);
    HistoryOps(s.updates, s.durable, s.g.blocks, Dirty(s.cache), s.g.ops.Keys, s.finished,
               n.g.ops.Keys, n.finished);
    assert Pinned(n.phase, n.g.blocks) == s.g.blocks;
  }

  lemma CacheSlot(c: Config, disk: map<nat, Block>, plain: map<nat, Block>, pinned: seq<nat>, ops: set<nat>,
                  boot: bool, cache: map<nat, Line>, b: nat, d: Block)
    requires CacheOk(c, disk, plain, pinned, ops, boot, cache)
    requires b in cache && !Home(c, b) && cache[b].valid
    ensures CacheOk(c, disk[b := d], plain, pinned, ops, boot, cache[b := cache[b].(data := d)])
    ensures Dirty(cache[b := cache[b].(data := d)]) == Dirty(cache)
    ensures HomeOk(c, disk, plain, pinned, Dirty(cache)) ==> HomeOk(c, disk[b := d], plain, pinned, Dirty(cache))
  {
    forall x | x in cache
      ensures LineOk(c, disk[b := d], plain, pinned, ops, boot, x, cache[b := cache[b].(data := d)][x])
    {
      assert LineOk(c, disk, plain, pinned, ops, boot, x, cache[x]);
    }
  }

  /** A write inside the log area other than the header: recovery and the disk layout do not see it
      while the header is empty. */
  lemma DiskSlot(c: Config, disk: map<nat, Block>, initial: map<nat, Block>, updates: seq<Update>,
                 blocks: seq<nat>, m: map<nat, Block>, slot: nat, d: Block)
    requires Shape(c, disk, initial, updates) && HeaderOk(c, disk, blocks) && RecoversTo(c, disk, m)
    requires c.start < slot < c.start + c.size && Header(disk[c.start]) == []
    ensures Shape(c, disk[slot := d], initial, updates) && HeaderOk(c, disk[slot := d], blocks)
    ensures RecoversTo(c, disk[slot := d], m)
    ensures disk[slot := d].Keys == disk.Keys
  {
    assert disk[slot := d].Keys == disk.Keys;
  }

  lemma CopiedMore(c: Config, disk: map<nat, Block>, m: map<nat, Block>, blocks: seq<nat>, k: nat)
    requires k < |blocks| && Copied(c, disk, m, blocks[..k]) && blocks[k] in m
    ensures Copied(c, disk[Slot(c, k) := m[blocks[k]]], m, blocks[..k + 1])
  {
    forall i | 0 <= i < k
      ensures blocks[i] in m && Slot(c, i) in disk && disk[Slot(c, i)] == m[blocks[i]]
    {
      assert blocks[..k][i] == blocks[i];
    }
  }

  lemma KeepCopy(c: Config, s: State)
    requires SysInv(c, s) && CanCopy(c, s)
    ensures SysInv(c, DoCopy(c, s))
  {
    hide G.Inv, Distinct, HeaderOk, RecoversTo, Shape, GroupOk, CacheOk, HomeOk, HistoryOk, Copied, Installed, Apply;
    Clauses(c, s);
    Clauses(c, DoCopy(c, s));
    Facts(c, s);
    var k := s.phase.tail;
    var b, slot := s.g.blocks[k], Slot(c, k);
    var d := s.cache[b].data;
    assert Home(c, b) && b in s.disk;
    assert LineOk(c, s.disk, Plain(s), s.g.blocks, s.g.ops.Keys, false, b, s.cache[b]);
    assert LineOk(c, s.disk, Plain(s), s.g.blocks, s.g.ops.Keys, false, slot, s.cache[slot]);
    CacheSlot(c, s.disk, Plain(s), s.g.blocks, s.g.ops.Keys, false, s.cache, slot, d);
    DiskSlot(c, s.disk, s.initial, s.updates, s.g.blocks, Committed(s), slot, d);
    CopiedMore(c, s.disk, Plain(s), s.g.blocks, k);
    GroupDisk(c, s.disk, s.disk[slot := d], s.g, false, s.started, s.finished);
  }

  /** The committing write: the header now names blocks whose log copies are m's, and every other
      home block already is. */
  lemma DiskHead(c: Config, disk: map<nat, Block>, initial: map<nat, Block>, updates: seq<Update>,
                 blocks: seq<nat>, m: map<nat, Block>, d: Block)
    requires Shape(c, disk, initial, updates) && HeaderOk(c, disk, blocks)
    requires Copied(c, disk, m, blocks) && HomeOk(c, disk, m, blocks, {})
    requires Header(d) == blocks && d[0] <= G.LOGSIZE
    ensures Shape(c, disk[c.start := d], initial, updates) && HeaderOk(c, disk[c.start := d], blocks)
    ensures RecoversTo(c, disk[c.start := d], m)
    ensures disk[c.start := d].Keys == disk.Keys
  {
    assert disk[c.start := d].Keys == disk.Keys;
  }

  lemma HistoryCommit(updates: seq<Update>, durable: nat, blocks: seq<nat>, dirty: set<nat>, finished: set<nat>)
    requires HistoryOk(updates, durable, blocks, dirty, {}, finished)
    ensures forall blocks' :: HistoryOk(updates, |updates|, blocks', dirty, {}, finished)
    ensures updates[..|updates|] == updates
  {
  }

  lemma KeepWriteHead(c: Config, s: State)
    requires SysInv(c, s) && CanWriteHead(c, s)
    ensures SysInv(c, DoWriteHead(c, s))
  {
    hide G.Inv, Distinct, HeaderOk, RecoversTo, Shape, GroupOk, CacheOk, HomeOk, HistoryOk, Copied, Installed, Apply;
    Clauses(c, s);
    Clauses(c, DoWriteHead(c, s));
    Facts(c, s);
    var d := SetHeader(s.cache[c.start].data, s.g.blocks);
    assert s.g.blocks[0..] == s.g.blocks == s.g.blocks[..|s.g.blocks|];
    assert s.g.ops.Keys == {};
    assert LineOk(c, s.disk, Plain(s), s.g.blocks, s.g.ops.Keys, false, c.start, s.cache[c.start]);
    CacheSlot(c, s.disk, Plain(s), s.g.blocks, s.g.ops.Keys, false, s.cache, c.start, d);
    CacheOps(c, s.disk, Plain(s), s.g.blocks, s.g.ops.Keys, {}, s.cache);
    DiskHead(c, s.disk, s.initial, s.updates, s.g.blocks, Plain(s), d);
    GroupDisk(c, s.disk, s.disk[c.start := d], s.g, false, s.started, s.finished);
    HistoryCommit(s.updates, s.durable, s.g.blocks, Dirty(s.cache), s.finished);
  }

  /** Installing one logged block writes what recovery would have put there anyway. */
  lemma DiskInstall(c: Config, disk: map<nat, Block>, initial: map<nat, Block>, updates: seq<Update>,
                    blocks: seq<nat>, m: map<nat, Block>, b: nat, d: Block)
    requires Shape(c, disk, initial, updates) && RecoversTo(c, disk, m)
    requires Header(disk[c.start]) == blocks && b in blocks
    ensures Shape(c, disk[b := d], initial, updates) && RecoversTo(c, disk[b := d], m)
    ensures c.start in disk[b := d] && Header(disk[b := d][c.start]) == blocks && disk[b := d].Keys == disk.Keys
  {
    hide Header, Distinct;
    var disk' := disk[b := d];
    assert Home(c, b) && b in disk;
    assert disk'.Keys == disk.Keys && disk'[c.start] == disk[c.start];
    assert HeaderOk(c, disk', blocks);
    forall i | 0 <= i < |blocks|
      ensures blocks[i] in m && Slot(c, i) in disk' && disk'[Slot(c, i)] == m[blocks[i]]
    {
      assert disk[Slot(c, i)] == m[blocks[i]] && !Home(c, Slot(c, i));
    }
  }

  lemma SlotData(c: Config, disk: map<nat, Block>, blocks: seq<nat>, m: map<nat, Block>, k: nat)
    requires RecoversTo(c, disk, m) && Header(disk[c.start]) == blocks && k < |blocks|
    ensures Slot(c, k) in disk && blocks[k] in m && disk[Slot(c, k)] == m[blocks[k]]
  {
  }

  lemma InstalledMore(c: Config, disk: map<nat, Block>, blocks: seq<nat>, k: nat)
    requires HeaderOk(c, disk, blocks) && k < |blocks| && Slot(c, k) in disk && Installed(c, disk, blocks, k)
    ensures Installed(c, disk[blocks[k] := disk[Slot(c, k)]], blocks, k + 1)
  {
  }

  lemma DropFirst(blocks: seq<nat>, k: nat)
    requires k < |blocks| && Distinct(blocks)
    ensures forall x :: x in blocks[k..] <==> x == blocks[k] || x in blocks[k + 1..]
    ensures blocks[k] !in blocks[k + 1..]
  {
    assert blocks[k..] == [blocks[k]] + blocks[k + 1..];
  }

  lemma CacheInstall(c: Config, disk: map<nat, Block>, plain: map<nat, Block>, pinned: seq<nat>, pinned': seq<nat>,
                     ops: set<nat>, cache: map<nat, Line>, b: nat, d: Block, l: Line)
    requires (forall x :: x in pinned <==> x == b || x in pinned') && b !in pinned'
    requires CacheOk(c, disk, plain, pinned, ops, false, cache)
    requires HomeOk(c, disk, plain, pinned, Dirty(cache))
    requires Home(c, b) && b in plain && d == plain[b]
    requires b in cache && cache[b].refcnt > 0
    requires l == cache[b].(data := d, refcnt := cache[b].refcnt - 1)
    ensures CacheOk(c, disk[b := d], plain, pinned', ops, false, cache[b := l])
    ensures Dirty(cache[b := l]) == Dirty(cache)
    ensures HomeOk(c, disk[b := d], plain, pinned', Dirty(cache))
  {
    forall x | x in cache
      ensures LineOk(c, disk[b := d], plain, pinned', ops, false, x, cache[b := l][x])
    {
      assert LineOk(c, disk, plain, pinned, ops, false, x, cache[x]);
    }
  }

  lemma CacheRecover(c: Config, disk: map<nat, Block>, plain: map<nat, Block>, ops: set<nat>,
                     cache: map<nat, Line>, b: nat, d: Block)
    requires CacheOk(c, disk, plain, [], ops, true, cache) && b in cache
    ensures CacheOk(c, disk[b := d], plain, [], ops, true, cache[b := cache[b].(data := d)])
    ensures Dirty(cache[b := cache[b].(data := d)]) == Dirty(cache)
  {
    forall x | x in cache
      ensures LineOk(c, disk[b := d], plain, [], ops, true, x, cache[b := cache[b].(data := d)][x])
    {
      assert LineOk(c, disk, plain, [], ops, true, x, cache[x]);
    }
  }

  lemma KeepInstall(c: Config, s: State)
    requires SysInv(c, s) && CanInstall(c, s) && s.phase.Installing?
    ensures SysInv(c, DoInstall(c, s))
  {
    hide G.Inv, Distinct, HeaderOk, RecoversTo, Shape, GroupOk, CacheOk, HomeOk, HistoryOk, Copied, Installed, Apply,
        Header, Home, Slot, Dirty;
    Clauses(c, s);
    Clauses(c, DoInstall(c, s));
    Facts(c, s);
    var n, k := DoInstall(c, s), s.phase.tail;
    var b := s.g.blocks[k];
    var d := s.cache[Slot(c, k)].data;
    SlotData(c, s.disk, s.g.blocks, Plain(s), k);
    DiskInstall(c, s.disk, s.initial, s.updates, s.g.blocks, Plain(s), b, d);
    assert LineOk(c, s.disk, Plain(s), s.g.blocks[k..], s.g.ops.Keys, false, Slot(c, k), s.cache[Slot(c, k)]);
    assert LineOk(c, s.disk, Plain(s), s.g.blocks[k..], s.g.ops.Keys, false, b, s.cache[b]);
    DropFirst(s.g.blocks, k);
    CacheInstall(c, s.disk, Plain(s), s.g.blocks[k..], s.g.blocks[k + 1..], s.g.ops.Keys, s.cache, b, d, n.cache[b]);
    GroupDisk(c, s.disk, s.disk[b := d], s.g, false, s.started, s.finished);
  }

  lemma KeepReinstall(c: Config, s: State)
    requires SysInv(c, s) && CanInstall(c, s) && s.phase.Recovering?
    ensures SysInv(c, DoInstall(c, s))
  {
    hide G.Inv, Distinct, HeaderOk, RecoversTo, Shape, GroupOk, CacheOk, HomeOk, HistoryOk, Copied, Installed, Apply,
        Header, Home, Slot, Dirty;
    Clauses(c, s);
    Clauses(c, DoInstall(c, s));
    Facts(c, s);
    var n, k := DoInstall(c, s), s.phase.tail;
    var b := s.g.blocks[k];
    var d := s.cache[Slot(c, k)].data;
    DiskInstall(c, s.disk, s.initial, s.updates, s.g.blocks, Committed(s), b, d);
    assert LineOk(c, s.disk, Plain(s), [], s.g.ops.Keys, true, Slot(c, k), s.cache[Slot(c, k)]);
    CacheRecover(c, s.disk, Plain(s), s.g.ops.Keys, s.cache, b, d);
    GroupDisk(c, s.disk, s.disk[b := d], s.g, false, s.started, s.finished);
    InstalledMore(c, s.disk, s.g.blocks, k);
    assert s.cache[b].(data := d) == n.cache[b];
  }

  /** Erasing the header once every home block is m's. */
  lemma DiskErase(c: Config, disk: map<nat, Block>, initial: map<nat, Block>, updates: seq<Update>,
                  blocks: seq<nat>, m: map<nat, Block>, d: Block)
    requires Shape(c, disk, initial, updates) && HeaderOk(c, disk, blocks)
    requires HomeOk(c, disk, m, [], {})
    requires Header(d) == [] && d[0] <= G.LOGSIZE
    ensures Shape(c, disk[c.start := d], initial, updates) && HeaderOk(c, disk[c.start := d], blocks)
    ensures RecoversTo(c, disk[c.start := d], m)
    ensures HomeOk(c, disk[c.start := d], m, [], {})
    ensures disk[c.start := d].Keys == disk.Keys
  {
    assert disk[c.start := d].Keys == disk.Keys;
  }

  lemma KeepErase(c: Config, s: State)
    requires SysInv(c, s) && CanErase(c, s) && s.phase.Installing?
    ensures SysInv(c, DoErase(c, s))
  {
    hide G.Inv, Distinct, HeaderOk, RecoversTo, Shape, GroupOk, CacheOk, HomeOk, HistoryOk, Copied, Installed, Apply;
    Clauses(c, s);
    Clauses(c, DoErase(c, s));
    Facts(c, s);
    var d := SetHeader(s.cache[c.start].data, []);
    assert LineOk(c, s.disk, Plain(s), [], s.g.ops.Keys, false, c.start, s.cache[c.start]);
    CacheSlot(c, s.disk, Plain(s), [], s.g.ops.Keys, false, s.cache, c.start, d);
    CacheOps(c, s.disk, Plain(s), [], s.g.ops.Keys, {}, s.cache);
    DiskErase(c, s.disk, s.initial, s.updates, s.g.blocks, Plain(s), d);
    EmptyGroup(c, s.disk[c.start := d], false, s.started, s.finished);
    HistoryCommit(s.updates, s.durable, s.g.blocks, Dirty(s.cache), s.finished);
  }

  /** After the last block of recovery is installed the home blocks are what recovery promises. */
  lemma RecoveredHome(c: Config, disk: map<nat, Block>, m: map<nat, Block>)
    requires RecoversTo(c, disk, m)
    requires var h := Header(disk[c.start]); Installed(c, disk, h, |h|)
    ensures HomeOk(c, disk, m, [], {})
  {
    var h := Header(disk[c.start]);
    forall b | b in disk && Home(c, b)
      ensures b in m && disk[b] == m[b]
    {
      if b in h {
        var i :| 0 <= i < |h| && h[i] == b;
        assert disk[h[i]] == disk[Slot(c, i)];
      }
    }
  }

  lemma CacheRunning(c: Config, disk: map<nat, Block>, plain: map<nat, Block>, cache: map<nat, Line>)
    requires CacheOk(c, disk, plain, [], {}, true, cache)
    requires HomeOk(c, disk, plain, [], {})
    ensures CacheOk(c, disk, plain, [], {}, false, cache)
    ensures Dirty(cache) == {}
  {
    forall b | b in cache
      ensures LineOk(c, disk, plain, [], {}, false, b, cache[b])
    {
      assert LineOk(c, disk, plain, [], {}, true, b, cache[b]);
    }
  }

  lemma EmptyGroup(c: Config, disk: map<nat, Block>, idle: bool, started: set<nat>, finished: set<nat>)
    requires finished <= started
    ensures GroupOk(c, disk, G.Group([], map[], !idle), idle, started, finished)
  {
  }

  lemma KeepRecovered(c: Config, s: State)
    requires SysInv(c, s) && CanErase(c, s) && s.phase.Recovering?
    ensures SysInv(c, DoErase(c, s))
  {
    hide G.Inv, Distinct, HeaderOk, RecoversTo, Shape, GroupOk, CacheOk, HomeOk, HistoryOk, Copied, Installed, Apply;
    Clauses(c, s);
    Clauses(c, DoErase(c, s));
    Facts(c, s);
    var d := SetHeader(s.cache[c.start].data, []);
    assert s.updates[..|s.updates|] == s.updates;
    assert s.g.ops.Keys == {} && s.finished <= s.started;
    assert LineOk(c, s.disk, Plain(s), [], s.g.ops.Keys, true, c.start, s.cache[c.start]);
    RecoveredHome(c, s.disk, Plain(s));
    DiskErase(c, s.disk, s.initial, s.updates, s.g.blocks, Plain(s), d);
    CacheRecover(c, s.disk, Plain(s), {}, s.cache, c.start, d);
    CacheRunning(c, s.disk[c.start := d], Plain(s), s.cache[c.start := s.cache[c.start].(data := d)]);
    EmptyGroup(c, s.disk[c.start := d], true, s.started, s.finished);
    HistoryCommit(s.updates, s.durable, s.g.blocks, Dirty(s.cache), s.finished);
  }

  lemma KeepFinish(c: Config, s: State)
    requires SysInv(c, s) && s.phase.Finishing?
    ensures SysInv(c, s.(g := G.Next(s.g, G.Committed), phase := Idle))
  {
    hide G.Inv, Distinct, HeaderOk, RecoversTo, Shape, GroupOk, CacheOk, HomeOk, HistoryOk, Copied, Installed, Apply;
    Clauses(c, s);
    Clauses(c, s.(g := G.Next(s.g, G.Committed), phase := Idle));
    Facts(c, s);
    assert s.g.ops == map[] && s.finished <= s.started;
    EmptyGroup(c, s.disk, true, s.started, s.finished);
    HistoryCommit(s.updates, s.durable, s.g.blocks, Dirty(s.cache), s.finished);
  }

  lemma HistoryCrash(updates: seq<Update>, durable: nat, blocks: seq<nat>, dirty: set<nat>, ops: set<nat>,
                     finished: set<nat>)
    requires HistoryOk(updates, durable, blocks, dirty, ops, finished)
    ensures HistoryOk(updates[..durable], durable, [], {}, {}, finished)
    ensures updates[..durable][..durable] == updates[..durable]
  {
  }

  lemma ShapePrefix(c: Config, disk: map<nat, Block>, initial: map<nat, Block>, updates: seq<Update>, k: nat)
    requires Shape(c, disk, initial, updates) && k <= |updates|
    ensures Shape(c, disk, initial, updates[..k])
  {
  }

  lemma KeepCrash(c: Config, s: State, next: nat)
    requires SysInv(c, s)
    ensures SysInv(c, DoCrash(s, next))
  {
    hide G.Inv, Distinct, HeaderOk, RecoversTo, Shape, GroupOk, HomeOk, HistoryOk, Copied, Apply;
    Clauses(c, s);
    Clauses(c, DoCrash(s, next));
    Facts(c, s);
    var n := DoCrash(s, next);
    ShapePrefix(c, s.disk, s.initial, s.updates, s.durable);
    HistoryCrash(s.updates, s.durable, s.g.blocks, Dirty(s.cache), s.g.ops.Keys, s.finished);
    EmptyGroup(c, s.disk, false, s.started, s.finished);
    assert n.g.ops.Keys == {} && Dirty(n.cache) == {};
  }

  lemma GroupRead(c: Config, disk: map<nat, Block>, m: map<nat, Block>, started: set<nat>, finished: set<nat>)
    requires RecoversTo(c, disk, m) && finished <= started
    ensures GroupOk(c, disk, G.Group(Header(disk[c.start]), map[], true), false, started, finished)
  {
  }

  lemma KeepReadHead(c: Config, s: State)
    requires SysInv(c, s) && s.phase.Boot? && Owns(s, s.committer, c.start)
    ensures SysInv(c, DoReadHead(c, s))
  {
    hide G.Inv, Distinct, HeaderOk, RecoversTo, Shape, GroupOk, CacheOk, HomeOk, HistoryOk, Copied, Apply;
    Clauses(c, s);
    Clauses(c, DoReadHead(c, s));
    Facts(c, s);
    var n := DoReadHead(c, s);
    assert LineOk(c, s.disk, Plain(s), [], s.g.ops.Keys, true, c.start, s.cache[c.start]);
    GroupRead(c, s.disk, Committed(s), s.started, s.finished);
    assert n.g.ops.Keys == s.g.ops.Keys == {};
    HistoryCommit(s.updates, s.durable, s.g.blocks, Dirty(s.cache), s.finished);
  }

  lemma StepKeepsSysInv(c: Config, s: State, a: Action)
    requires SysInv(c, s) && Enabled(c, s, a)
    ensures SysInv(c, Next(c, s, a))
  {
    hide SysInv;
    match a
    case Get(t, b, victim, stale) => KeepGet(c, s, t, b, victim, stale);
    case Lock(t, b) => KeepLock(c, s, t, b);
    case Modify(t, b, data) => KeepModify(c, s, t, b, data);
    case LogWrite(t, b) => KeepLogWrite(c, s, t, b);
    case Release(t, b) => KeepRelease(c, s, t, b);
    case BeginOp(t) => KeepBegin(c, s, t);
    case EndOp(t) => KeepEnd(c, s, t);
    case CopyBlock => KeepCopy(c, s);
    case WriteHead => KeepWriteHead(c, s);
    case InstallBlock => if s.phase.Installing? { KeepInstall(c, s); } else { KeepReinstall(c, s); }
    case EraseHead => if s.phase.Installing? { KeepErase(c, s); } else { KeepRecovered(c, s); }
    case Finish => KeepFinish(c, s);
    case Crash(next) => KeepCrash(c, s, next);
    case ReadHead => KeepReadHead(c, s);
  }

  // ----- Whole runs -----

  /** Power-on with a fresh image: an empty log header, nothing cached. */
  ghost predicate Initial(c: Config, s: State) {
    && 0 < c.size && (forall b :: c.start <= b < c.start + c.size ==> b in s.disk)
    && s.disk == s.initial && s.disk[c.start][0] == 0
    && s.cache == map[] && s.g == G.Group([], map[], true) && s.phase == Boot
    && s.updates == [] && s.durable == 0 && s.started == {} && s.finished == {}
  }

  lemma InitialInv(c: Config, s: State)
    requires Initial(c, s)
    ensures SysInv(c, s)
  {
    EmptyGroup(c, s.disk, false, {}, {});
    assert c.start in s.disk;
  }

  /** s leads to r by the actions acts, each enabled where it happens. */
  ghost predicate Leads(c: Config, s: State, acts: seq<Action>, r: State)
    decreases |acts|
  {
    if acts == [] then r == s
    else Enabled(c, s, acts[0]) && Leads(c, Next(c, s, acts[0]), acts[1..], r)
  }

  /** The invariant holds after every run, over any interleaving and any number of crashes. */
  lemma {:induction false} RunsKeepInv(c: Config, s: State, acts: seq<Action>, r: State)
    requires SysInv(c, s) && Leads(c, s, acts, r)
    ensures SysInv(c, r)
    decreases |acts|
  {
    Clauses(c, s);
    if acts != [] {
      StepKeepsSysInv(c, s, acts[0]);
      RunsKeepInv(c, Next(c, s, acts[0]), acts[1..], r);
    }
  }

  /** Cache and log refine a plain disk: at any point of any run, a bread of a file-system block hands
      out what a disk updated in place by every modification so far would hold. */
  lemma ReadsSeePlainDisk(c: Config, s0: State, acts: seq<Action>, s: State, t: nat, b: nat)
    requires Initial(c, s0) && Leads(c, s0, acts, s)
    requires !InBoot(s.phase) && Home(c, b) && Enabled(c, s, Lock(t, b))
    ensures b in Plain(s) && Next(c, s, Lock(t, b)).cache[b].data == Plain(s)[b]
  {
    InitialInv(c, s0);
    RunsKeepInv(c, s0, acts, s);
    KeepLock(c, s, t, b);
  }

  /** A logged block keeps its buffer, valid and holding the modified data, until it is installed. */
  lemma LoggedStayCached(c: Config, s0: State, acts: seq<Action>, s: State, b: nat)
    requires Initial(c, s0) && Leads(c, s0, acts, s)
    requires b in Pinned(s.phase, s.g.blocks)
    ensures b in s.cache && s.cache[b].valid && s.cache[b].refcnt > 0
    ensures b in Plain(s) && s.cache[b].data == Plain(s)[b]
    ensures forall t, x :: !CanGet(c, s, t, x, Some(b))
  {
    InitialInv(c, s0);
    RunsKeepInv(c, s0, acts, s);
    Facts(c, s);
    PinnedLogged(c, s, b);
  }

  lemma PinnedLogged(c: Config, s: State, b: nat)
    requires SysInv(c, s) && b in Pinned(s.phase, s.g.blocks)
    ensures b in s.cache && s.cache[b].valid && s.cache[b].refcnt > 0 && !InBoot(s.phase)
    ensures b in Plain(s) && s.cache[b].data == Plain(s)[b]
  {
    Clauses(c, s);
    assert LineOk(c, s.disk, Plain(s), Pinned(s.phase, s.g.blocks), s.g.ops.Keys, InBoot(s.phase), b, s.cache[b]);
    assert b in s.g.blocks;
  }

  /** The only action that changes what recovery restores is the committing header write. */
  lemma OnlyHeaderCommits(c: Config, s: State, a: Action)
    requires SysInv(c, s) && Enabled(c, s, a)
    ensures Next(c, s, a).durable <= |Next(c, s, a).updates|
    ensures a != WriteHead ==> Committed(Next(c, s, a)) == Committed(s)
    ensures a == WriteHead ==> Committed(Next(c, s, a)) == Plain(s)
  {
    hide Apply, G.Inv, Shape, GroupOk, CacheOk, HomeOk, PhaseOk, RecoversTo;
    Clauses(c, s);
    assert s.updates[..|s.updates|] == s.updates;
    assert s.updates[..s.durable][..s.durable] == s.updates[..s.durable];
    if a.Modify? {
      assert (s.updates + [Update(a.t, a.b, a.data)])[..s.durable] == s.updates[..s.durable];
    }
  }

  /** Group commit: when the header is written no operation is running, every update made so far
      belongs to a finished operation, and all of them become durable together. */
  lemma CommitIsComplete(c: Config, s0: State, acts: seq<Action>, s: State)
    requires Initial(c, s0) && Leads(c, s0, acts, s)
    ensures forall i :: 0 <= i < s.durable <= |s.updates| ==> s.updates[i].t in s.finished && s.updates[i].t !in s.g.ops
    ensures Enabled(c, s, WriteHead) ==> s.g.ops == map[] && Committed(Next(c, s, WriteHead)) == Plain(s)
    ensures s.phase.Idle? && s.g.ops == map[] ==> s.durable == |s.updates|
  {
    InitialInv(c, s0);
    RunsKeepInv(c, s0, acts, s);
    Clauses(c, s);
    Facts(c, s);
    if Enabled(c, s, WriteHead) {
      OnlyHeaderCommits(c, s, WriteHead);
    }
  }

  /** Actions of a machine that crashes and recovers, any number of times. */
  predicate RecoveryAction(a: Action) {
    a.Crash? || a.ReadHead? || a.InstallBlock? || a.EraseHead? || a.Get? || a.Lock? || a.Release?
  }

  lemma Durable(c: Config, s: State)
    requires SysInv(c, s)
    ensures s.durable <= |s.updates|
  {
    Clauses(c, s);
  }

  lemma RecoveryKeepsDurable(c: Config, s: State, a: Action)
    requires SysInv(c, s) && Enabled(c, s, a) && RecoveryAction(a)
    ensures s.durable == |s.updates| || a.Crash? ==> Next(c, s, a).durable == |Next(c, s, a).updates|
  {
    Clauses(c, s);
  }

  lemma {:induction false} RecoveryKeepsCommitted(c: Config, s: State, acts: seq<Action>, r: State)
    requires SysInv(c, s) && Leads(c, s, acts, r)
    requires forall i :: 0 <= i < |acts| ==> RecoveryAction(acts[i])
    ensures SysInv(c, r) && Committed(r) == Committed(s)
    ensures s.durable == |s.updates| ==> r.durable == |r.updates|
    decreases |acts|
  {
    hide SysInv, Enabled, Next, Apply;
    Durable(c, s);
    if acts != [] {
      var n := Next(c, s, acts[0]);
      StepKeepsSysInv(c, s, acts[0]);
      OnlyHeaderCommits(c, s, acts[0]);
      RecoveryKeepsDurable(c, s, acts[0]);
      RecoveryKeepsCommitted(c, n, acts[1..], r);
    }
  }

  /** Crash atomicity: stop the machine anywhere in any run, crash again any number of times while
      recovering; once a recovery completes, every block outside the log holds exactly what was
      committed, and that is also what the file system reads. */
  lemma CrashAtomicity(c: Config, s0: State, acts: seq<Action>, s: State, recovery: seq<Action>, r: State)
    requires Initial(c, s0) && Leads(c, s0, acts, s)
    requires recovery != [] && recovery[0].Crash? && Leads(c, s, recovery, r)
    requires forall i :: 0 <= i < |recovery| ==> RecoveryAction(recovery[i])
    requires r.phase.Idle?
    ensures s.durable <= |s.updates|
    ensures forall b :: b in r.disk && Home(c, b) ==> b in Committed(s) && r.disk[b] == Committed(s)[b]
    ensures Plain(r) == Committed(s)
  {
    hide SysInv, Initial, Enabled, Next, Apply;
    InitialInv(c, s0);
    RunsKeepInv(c, s0, acts, s);
    Durable(c, s);
    StepKeepsSysInv(c, s, recovery[0]);
    OnlyHeaderCommits(c, s, recovery[0]);
    var n := Next(c, s, recovery[0]);
    RecoveryKeepsDurable(c, s, recovery[0]);
    RecoveryKeepsCommitted(c, n, recovery[1..], r);
    IdleDisk(c, r);
  }

  lemma IdleDisk(c: Config, s: State)
    requires SysInv(c, s) && s.phase.Idle? && s.durable == |s.updates|
    ensures Plain(s) == Committed(s)
    ensures forall b :: b in s.disk && Home(c, b) ==> b in Committed(s) && s.disk[b] == Committed(s)[b]
  {
    Clauses(c, s);
    assert s.updates[..|s.updates|] == s.updates;
    assert Header(s.disk[c.start]) == [];
  }

  /** All or nothing, for one commit: between end_op starting a commit and its completion, a crash
      recovers to the state before the transaction or to the state with all of it, and to the
      latter exactly when the header write has happened. */
  lemma CommitAllOrNothing(c: Config, s0: State, acts: seq<Action>, s: State, during: seq<Action>, m: State,
                           recovery: seq<Action>, r: State)
    requires Initial(c, s0) && Leads(c, s0, acts, s) && s.phase == Copying(0)
    requires Leads(c, s, during, m) && forall i :: 0 <= i < |during| ==> !during[i].Finish? && !during[i].Crash?
    requires recovery != [] && recovery[0].Crash? && Leads(c, m, recovery, r) && r.phase.Idle?
    requires forall i :: 0 <= i < |recovery| ==> RecoveryAction(recovery[i])
    ensures s.durable <= |s.updates|
    ensures var target := if WriteHead in during then Plain(s) else Committed(s);
            forall b :: b in r.disk && Home(c, b) ==> b in target && r.disk[b] == target[b]
  {
    InitialInv(c, s0);
    RunsKeepInv(c, s0, acts, s);
    DuringCommit(c, s, during, m);
    LeadsTrans(c, s0, acts, s, during, m);
    CrashAtomicity(c, s0, acts + during, m, recovery, r);
  }

  predicate Committing(p: Phase) { p.Copying? || p.Installing? || p.Finishing? }

  lemma {:induction false} DuringCommit(c: Config, s: State, acts: seq<Action>, r: State)
    requires SysInv(c, s) && Committing(s.phase) && Leads(c, s, acts, r)
    requires forall i :: 0 <= i < |acts| ==> !acts[i].Finish? && !acts[i].Crash?
    ensures SysInv(c, r) && Committing(r.phase) && r.updates == s.updates
    ensures Committed(r) == if WriteHead in acts then Plain(s) else Committed(s)
    decreases |acts|
  {
    hide SysInv, Enabled, Next, Apply;
    Durable(c, s);
    if acts != [] {
      var n := Next(c, s, acts[0]);
      StepKeepsSysInv(c, s, acts[0]);
      OnlyHeaderCommits(c, s, acts[0]);
      CommitStep(c, s, acts[0]);
      DuringCommit(c, n, acts[1..], r);
      assert acts == [acts[0]] + acts[1..];
    }
  }

  lemma CommitStep(c: Config, s: State, a: Action)
    requires SysInv(c, s) && Committing(s.phase) && Enabled(c, s, a) && !a.Finish? && !a.Crash?
    ensures Committing(Next(c, s, a).phase) && Next(c, s, a).updates == s.updates && Next(c, s, a).initial == s.initial
  {
    Clauses(c, s);
    Facts(c, s);
  }

  lemma {:induction false} LeadsTrans(c: Config, s: State, a: seq<Action>, m: State, b: seq<Action>, r: State)
    requires Leads(c, s, a, m) && Leads(c, m, b, r)
    ensures Leads(c, s, a + b, r)
    decreases |a|
  {
    if a == [] {
      assert a + b == b;
    } else {
      LeadsTrans(c, Next(c, s, a[0]), a[1..], m, b, r);
      assert (a + b)[1..] == a[1..] + b;
    }
  }
}
