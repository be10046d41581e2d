/** The table of in-memory inodes of kernel/fs.c under arbitrary interleaving: iget, idup, ilock, iupdate,
    iunlock, iput with its three-step freeing, and ialloc, which may reuse an inode number that iput is
    still freeing.  An actor is one reference to an inode: a process uses each of its references by itself.
    Steps are the sections under itable.lock and single accesses to an inode block or the sleep lock.  A lookup
    takes any number that was ever entered in a directory, also one that has been freed since: ".." of a removed
    directory keeps the number of its parent. */
module InodeTable {
  import opened Prelude

  const NINODE: nat := 50

  /** An inode's fields; gen counts how often the number was allocated and is not stored anywhere. */
  datatype Inode = Inode(kind: nat, nlink: nat, content: nat, gen: nat)

  datatype Entry = Entry(ref: nat, inum: nat, valid: bool, mem: Inode, lock: Option<nat>)

  datatype Pc =
    | Allocated   // ialloc has marked the inode; iget is still to come
    | Held        // a reference, the inode not locked by it
    | Acquired    // ilock: has the sleep lock, before the test of valid
    | Locked      // ilock has returned
    | Freeing     // iput: no links and no other reference; has the sleep lock, before itrunc
    | Truncated   // after itrunc
    | Erased      // after iupdate with type 0
    | Invalid     // after valid = 0
    | Leaving     // sleep lock released, before ref--

  /** A reference: which inode, which generation of it was meant, which entry (once there is one), where it is,
      and whether that generation was alive when ref counted the reference (history, not stored anywhere). */
  datatype Ref = Ref(inum: nat, gen: nat, entry: nat, pc: Pc, live: bool)

  /** entered holds the numbers written into directories, each with the generation it was written for. */
  datatype State = State(table: seq<Entry>, disk: map<nat, Inode>, refs: map<nat, Ref>, entered: set<(nat, nat)>)

  /** References that ref counts. */
  ghost function Uses(refs: map<nat, Ref>, e: nat): set<nat> {
    set k | k in refs && refs[k].pc != Allocated && refs[k].entry == e
  }

  predicate HasLock(pc: Pc) { pc.Acquired? || pc.Locked? || Clearing(pc) }

  predicate Clearing(pc: Pc) { pc.Freeing? || pc.Truncated? || pc.Erased? || pc.Invalid? }

  /** iput is about to mark the inode free. */
  predicate Ending(pc: Pc) { pc.Freeing? || pc.Truncated? }

  // ----- Actions -----

  datatype Action =
    | Enter(k: nat)                        // dirlink: the number goes into a directory
    | Lookup(k: nat, i: nat, gen: nat, e: nat)   // dirlookup: iget of a number found in a directory
    | Ialloc(k: nat, i: nat, kind: nat)
    | Iget(k: nat, e: nat)                 // the iget at the end of ialloc
    | Idup(k: nat, from: nat)
    | Acquire(k: nat) | Read(k: nat)       // ilock
    | Modify(k: nat, d: Inode) | Iupdate(k: nat) | Iunlock(k: nat)
    | Iput(k: nat)                         // drops the reference, or starts to free the inode
    | Itrunc(k: nat) | Erase(k: nat) | Invalidate(k: nat) | ReleaseLock(k: nat) | Drop(k: nat)

  predicate Shape(s: State) { |s.table| == NINODE }

  predicate In(s: State, k: nat, pc: Pc) {
    Shape(s) && k in s.refs && s.refs[k].pc == pc && s.refs[k].entry < NINODE && s.refs[k].inum in s.disk
  }

  function Move(s: State, k: nat, pc: Pc): map<nat, Ref>
    requires k in s.refs
  {
    s.refs[k := s.refs[k].(pc := pc)]
  }

  /** The slot iget(i) uses: the referenced entry of i if there is one, otherwise any unreferenced one. */
  predicate Slot(s: State, i: nat, e: nat) {
    && Shape(s) && e < NINODE
    && ((s.table[e].ref > 0 && s.table[e].inum == i)
        || (s.table[e].ref == 0 && forall x :: 0 <= x < NINODE && s.table[x].ref > 0 ==> s.table[x].inum != i))
  }

  function Got(t: Entry, i: nat): Entry {
    if t.ref > 0 then t.(ref := t.ref + 1) else t.(ref := 1, inum := i, valid := false)
  }

  /** The number still belongs to this generation of the inode, and iput is not about to free it. */
  ghost predicate Alive(disk: map<nat, Inode>, refs: map<nat, Ref>, i: nat, gen: nat) {
    i in disk && disk[i].kind != 0 && disk[i].gen == gen && forall x :: x in refs && Ending(refs[x].pc) ==>
        refs[x].inum != i
  }

  /** ilock reads a free inode: "ilock: no type". */
  predicate Panics(s: State, k: nat) {
    In(s, k, Acquired) && !s.table[s.refs[k].entry].valid && s.disk[s.refs[k].inum].kind == 0
  }

  ghost predicate Enabled(s: State, a: Action) {
    match a
    case Enter(k) => In(s, k, Held) || In(s, k, Locked)
    case Lookup(k, i, gen, e) => k !in s.refs && (i, gen) in s.entered && i in s.disk && Slot(s, i, e)
    case Ialloc(k, i, kind) => Shape(s) && k !in s.refs && i in s.disk && s.disk[i].kind == 0 && kind != 0
    case Iget(k, e) => Shape(s) && k in s.refs && s.refs[k].pc == Allocated && Slot(s, s.refs[k].inum, e)
    case Idup(k, from) => k !in s.refs && (In(s, from, Held) || In(s, from, Locked))
    case Acquire(k) => In(s, k, Held) && s.table[s.refs[k].entry].lock == None
    case Read(k) => In(s, k, Acquired) && !Panics(s, k)
    case Modify(k, d) =>
        In(s, k, Locked) && d.kind == s.table[s.refs[k].entry].mem.kind && d.gen == s.table[s.refs[k].entry].mem.gen
    case Iupdate(k) => In(s, k, Locked)
    case Iunlock(k) =>
        In(s, k, Locked) && (var t := s.table[s.refs[k].entry]; t.inum in s.disk && t.mem == s.disk[t.inum])
    case Iput(k) => In(s, k, Held)
    case Itrunc(k) => In(s, k, Freeing)
    case Erase(k) => In(s, k, Truncated)
    case Invalidate(k) => In(s, k, Erased)
    case ReleaseLock(k) => In(s, k, Invalid)
    case Drop(k) => In(s, k, Leaving) && s.table[s.refs[k].entry].ref > 0
  }

  function SetEntry(s: State, e: nat, t: Entry): State
    requires Shape(s) && e < NINODE
  {
    s.(table := s.table[e := t])
  }

  ghost function DoIget(s: State, k: nat, i: nat, gen: nat, e: nat): State
    requires Slot(s, i, e)
  {
    SetEntry(s, e, Got(s.table[e], i)).(refs := s.refs[k := Ref(i, gen, e, Held, Alive(s.disk, s.refs, i, gen))])
  }

  function DoRead(s: State, k: nat): State
    requires In(s, k, Acquired)
  {
    var e := s.refs[k].entry;
    var t := s.table[e];
    SetEntry(s, e, if t.valid || t.inum !in s.disk then t else t.(mem := s.disk[t.inum], valid := true)).(refs := Move(s, k, Locked))
  }

  /** The test under itable.lock; ref == 1 means that the sleep lock is free. */
  function DoIput(s: State, k: nat): State
    requires In(s, k, Held)
  {
    var e := s.refs[k].entry;
    var t := s.table[e];
    if t.ref == 1 && t.valid && t.mem.nlink == 0 then SetEntry(s, e, t.(lock := Some(k))).(refs := Move(s, k, Freeing))
    else SetEntry(s, e, t.(ref := if t.ref > 0 then t.ref - 1 else 0)).(refs := s.refs - {k})
  }

  ghost function Next(s: State, a: Action): State
    requires Enabled(s, a)
  {
    match a
    case Enter(k) => s.(entered := s.entered + {(s.refs[k].inum, s.disk[s.refs[k].inum].gen)})
    case Lookup(k, i, gen, e) => DoIget(s, k, i, gen, e)
    case Ialloc(k, i, kind) =>
      var g := s.disk[i].gen + 1;
      s.(disk := s.disk[i := Inode(kind, 0, 0, g)], refs := s.refs[k := Ref(i, g, 0, Allocated, false)])
    case Iget(k, e) => DoIget(s, k, s.refs[k].inum, s.refs[k].gen, e)
    case Idup(k, from) =>
      var e := s.refs[from].entry;
      SetEntry(s, e, s.table[e].(ref := s.table[e].ref + 1)).(refs := s.refs[k := s.refs[from].(pc := Held)])
    case Acquire(k) =>
      SetEntry(s, s.refs[k].entry, s.table[s.refs[k].entry].(lock := Some(k))).(refs := Move(s, k, Acquired))
    case Read(k) => DoRead(s, k)
    case Modify(k, d) => SetEntry(s, s.refs[k].entry, s.table[s.refs[k].entry].(mem := d))
    case Iupdate(k) => s.(disk := s.disk[s.table[s.refs[k].entry].inum := s.table[s.refs[k].entry].mem])
    case Iunlock(k) => SetEntry(s, s.refs[k].entry, s.table[s.refs[k].entry].(lock := None)).(refs := Move(s, k, Held))
    case Iput(k) => DoIput(s, k)
    case Itrunc(k) =>
      var e := s.refs[k].entry;
      var m := s.table[e].mem.(content := 0);
      SetEntry(s, e, s.table[e].(mem := m)).(disk := s.disk[s.table[e].inum := m], refs := Move(s, k, Truncated))
    case Erase(k) =>
      var e := s.refs[k].entry;
      var m := s.table[e].mem.(kind := 0);
      SetEntry(s, e, s.table[e].(mem := m)).(disk := s.disk[s.table[e].inum := m], refs := Move(s, k, Erased))
    case Invalidate(k) =>
        SetEntry(s, s.refs[k].entry, s.table[s.refs[k].entry].(valid := false)).(refs := Move(s, k, Invalid))
    case ReleaseLock(k) =>
        SetEntry(s, s.refs[k].entry, s.table[s.refs[k].entry].(lock := None)).(refs := Move(s, k, Leaving))
    case Drop(k) =>
      var e := s.refs[k].entry;
      SetEntry(s, e, s.table[e].(ref := s.table[e].ref - 1)).(refs := s.refs - {k})
  }

  // ----- Invariant -----

  /** Each counted reference has its entry; ref counts them. */
  ghost predicate RefsOk(table: seq<Entry>, disk: map<nat, Inode>, refs: map<nat, Ref>) {
    && |table| == NINODE
    && (forall k :: k in refs ==> refs[k].inum in disk)
    && (forall k :: k in refs && refs[k].pc != Allocated ==>
           refs[k].entry < NINODE && table[refs[k].entry].inum == refs[k].inum)
    && (forall e :: 0 <= e < NINODE ==> table[e].ref == |Uses(refs, e)|)
  }

  /** An inode has at most one referenced entry. */
  ghost predicate Unique(table: seq<Entry>) {
    forall e, x :: 0 <= e < |table| && 0 <= x < |table| && table[e].ref > 0 && table[x].ref > 0 && table[e].inum == table[x].inum ==> e == x
  }

  ghost predicate LocksOk(table: seq<Entry>, refs: map<nat, Ref>) {
    && |table| == NINODE
    && (forall k :: k in refs && HasLock(refs[k].pc) ==> refs[k].entry < NINODE && table[refs[k].entry].lock == Some(k))
    && (forall e :: 0 <= e < NINODE && table[e].lock.Some? ==>
          table[e].lock.value in refs && HasLock(refs[table[e].lock.value].pc) && refs[table[e].lock.value].entry == e)
  }

  /** The inode behind this reference is, or may be, already free on disk. */
  predicate Past(pc: Pc) { pc.Erased? || pc.Invalid? || pc.Leaving? }

  /** A counted reference whose iput has not freed anything. */
  predicate Active(r: Ref) { r.pc != Allocated && !Past(r.pc) }

  /** The generation that was meant is gone, or about to go. */
  ghost predicate Doomed(disk: map<nat, Inode>, refs: map<nat, Ref>, k: nat)
    requires k in refs && refs[k].inum in disk
  {
    || refs[k].gen < disk[refs[k].inum].gen || disk[refs[k].inum].kind == 0
    || exists x :: x in refs && x != k && Ending(refs[x].pc) && refs[x].inum == refs[k].inum
  }

  /** A reference taken alive finds that very inode on disk and nobody about to free it; any other never will. */
  ghost predicate GenOk(disk: map<nat, Inode>, refs: map<nat, Ref>, k: nat)
    requires k in refs && refs[k].inum in disk
  {
    var r, d := refs[k], disk[refs[k].inum];
    && r.gen <= d.gen
    && (Active(r) && r.live ==> r.gen == d.gen && d.kind != 0)
    && (Active(r) && r.live ==> forall x :: x in refs && x != k && Ending(refs[x].pc) ==> refs[x].inum != r.inum)
    && (Active(r) && !r.live ==> Doomed(disk, refs, k))
  }

  ghost predicate GensOk(disk: map<nat, Inode>, refs: map<nat, Ref>) {
    forall k :: k in refs && refs[k].inum in disk ==> GenOk(disk, refs, k)
  }

  ghost predicate EnteredOk(disk: map<nat, Inode>, entered: set<(nat, nat)>) {
    forall i, gen :: (i, gen) in entered && i in disk ==> gen <= disk[i].gen
  }

  /** How the copy in a table entry relates to the disk, by what the lock's holder is doing. */
  predicate CopyOk(t: Entry, d: Inode, pc: Option<Pc>) {
    match pc
    case None => t.valid ==> t.mem == d && d.kind != 0
    case Some(p) =>
      match p {
        case Acquired => t.valid ==> t.mem == d && d.kind != 0
        case Locked => t.valid && t.mem.kind == d.kind && t.mem.gen == d.gen && d.kind != 0
        case Freeing => t.valid && t.mem == d && d.nlink == 0 && d.kind != 0
        case Truncated => t.valid && t.mem == d && d.nlink == 0 && d.kind != 0
        case Erased => true
        case Invalid => !t.valid
        case _ => false
      }
  }

  function Holder(t: Entry, refs: map<nat, Ref>): Option<Pc> {
    if t.lock.Some? && t.lock.value in refs then Some(refs[t.lock.value].pc) else None
  }

  ghost predicate CopiesOk(table: seq<Entry>, disk: map<nat, Inode>, refs: map<nat, Ref>) {
    forall e :: 0 <= e < |table| && table[e].ref > 0 ==>
        table[e].inum in disk && CopyOk(table[e], disk[table[e].inum], Holder(table[e], refs))
  }

  datatype Clause = Refs | Entries | Locks | Gens | Copies | Entered

  ghost predicate ClauseOk(s: State, c: Clause)
    requires Shape(s)
  {
    match c
    case Refs => RefsOk(s.table, s.disk, s.refs)
    case Entries => Unique(s.table)
    case Locks => LocksOk(s.table, s.refs)
    case Gens => GensOk(s.disk, s.refs)
    case Copies => CopiesOk(s.table, s.disk, s.refs)
    case Entered => EnteredOk(s.disk, s.entered)
  }

  ghost predicate Inv(s: State) { Shape(s) && forall c :: ClauseOk(s, c) }

  ghost predicate EachClause(s: State) {
    && Shape(s)
    && RefsOk(s.table, s.disk, s.refs)
    && Unique(s.table)
    && LocksOk(s.table, s.refs)
    && GensOk(s.disk, s.refs)
    && CopiesOk(s.table, s.disk, s.refs)
    && EnteredOk(s.disk, s.entered)
  }

  lemma Clauses(s: State)
    ensures Inv(s) <==> EachClause(s)
  {
    hide RefsOk, Unique, LocksOk, GensOk, CopiesOk, EnteredOk;
    if Inv(s) {
      assert ClauseOk(s, Refs);
      assert ClauseOk(s, Entries);
      assert ClauseOk(s, Locks);
      assert ClauseOk(s, Gens);
      assert ClauseOk(s, Copies);
      assert ClauseOk(s, Entered);
    }
  }

  // ----- Counting references -----

  lemma UsesPut(refs: map<nat, Ref>, k: nat, r: Ref, e: nat)
    requires (k in refs ==> refs[k].pc == Allocated) && r.pc != Allocated
    ensures |Uses(refs[k := r], e)| == |Uses(refs, e)| + if r.entry == e then 1 else 0
  {
    assert Uses(refs[k := r], e) == Uses(refs, e) + if r.entry == e then {k} else {};
  }

  lemma UsesSame(refs: map<nat, Ref>, k: nat, pc: Pc, e: nat)
    requires k in refs && refs[k].pc != Allocated && pc != Allocated
    ensures Uses(refs[k := refs[k].(pc := pc)], e) == Uses(refs, e)
  {
  }

  lemma UsesAllocated(refs: map<nat, Ref>, k: nat, r: Ref, e: nat)
    requires k !in refs && r.pc == Allocated
    ensures Uses(refs[k := r], e) == Uses(refs, e)
  {
  }

  lemma UsesDrop(refs: map<nat, Ref>, k: nat, e: nat)
    requires k in refs && refs[k].pc != Allocated
    ensures |Uses(refs - {k}, e)| == |Uses(refs, e)| - if refs[k].entry == e then 1 else 0
  {
    assert Uses(refs, e) == Uses(refs - {k}, e) + if refs[k].entry == e then {k} else {};
  }

  /** A reference is counted; if the count is one, there is no other. */
  lemma Counted(table: seq<Entry>, disk: map<nat, Inode>, refs: map<nat, Ref>, k: nat)
    requires RefsOk(table, disk, refs) && k in refs && refs[k].pc != Allocated
    ensures table[refs[k].entry].ref > 0
    ensures table[refs[k].entry].ref == 1 ==>
            forall x :: x in refs && refs[x].pc != Allocated && refs[x].entry == refs[k].entry ==> x == k
  {
    var u := Uses(refs, refs[k].entry);
    assert k in u;
    if |u| == 1 {
      assert |u - {k}| == 0;
      forall x | x in refs && refs[x].pc != Allocated && refs[x].entry == refs[k].entry ensures x == k {
        assert x in u;
      }
    }
  }

  // ----- What a step at one entry by one reference keeps -----

  /** Tables that differ only in entry e, and there neither in inum nor in whether it is referenced. */
  predicate SameBut(table: seq<Entry>, table': seq<Entry>, e: nat) {
    |table| == |table'| == NINODE && e < NINODE && forall x :: 0 <= x < NINODE && x != e ==> table'[x] == table[x]
  }

  lemma UniqueKeep(table: seq<Entry>, table': seq<Entry>, e: nat)
    requires Unique(table) && SameBut(table, table', e) && table'[e].inum == table[e].inum
    requires (table'[e].ref > 0 ==> table[e].ref > 0)
    ensures Unique(table')
  {
  }

  lemma RefsMove(table: seq<Entry>, disk: map<nat, Inode>, refs: map<nat, Ref>, table': seq<Entry>,
                 disk': map<nat, Inode>, e: nat, k: nat, pc: Pc)
    requires RefsOk(table, disk, refs) && k in refs && refs[k].pc != Allocated && pc != Allocated
    requires SameBut(table, table', e) && table'[e].inum == table[e].inum && table'[e].ref == table[e].ref
    requires disk.Keys <= disk'.Keys
    ensures RefsOk(table', disk', refs[k := refs[k].(pc := pc)])
  {
    forall x | 0 <= x < NINODE ensures Uses(refs[k := refs[k].(pc := pc)], x) == Uses(refs, x) {
      UsesSame(refs, k, pc, x);
    }
  }

  /** The reference k takes, keeps or gives up the lock of entry e. */
  lemma LocksStep(table: seq<Entry>, refs: map<nat, Ref>, table': seq<Entry>, e: nat, k: nat, pc: Pc)
    requires LocksOk(table, refs) && k in refs && refs[k].entry == e && SameBut(table, table', e)
    requires table[e].lock == None || table[e].lock == Some(k)
    requires table'[e].lock == if HasLock(pc) then Some(k) else None
    ensures LocksOk(table', refs[k := refs[k].(pc := pc)])
  {
  }

  /** References without a lock come and go. */
  lemma LocksOther(table: seq<Entry>, refs: map<nat, Ref>, table': seq<Entry>, refs': map<nat, Ref>, e: nat, k: nat)
    requires LocksOk(table, refs) && SameBut(table, table', e) && table'[e].lock == table[e].lock
    requires refs' - {k} == refs - {k} && (k in refs ==> !HasLock(refs[k].pc)) && (k in refs' ==> !HasLock(refs'[k].pc))
    ensures LocksOk(table', refs')
  {
    forall x | x in refs && x != k ensures x in refs' && refs'[x] == refs[x] {
      assert x in refs - {k} && (refs - {k})[x] == refs[x];
      assert (refs' - {k})[x] == refs'[x];
    }
    forall x | x in refs' && x != k ensures x in refs {
      assert x in refs' - {k};
    }
  }

  lemma GensMove(disk: map<nat, Inode>, refs: map<nat, Ref>, k: nat, pc: Pc)
    requires GensOk(disk, refs) && k in refs && (Past(refs[k].pc) ==> Past(pc))
    requires refs[k].pc != Allocated && pc != Allocated && (Ending(refs[k].pc) <==> Ending(pc))
    ensures GensOk(disk, refs[k := refs[k].(pc := pc)])
  {
    hide Doomed;
    var refs' := refs[k := refs[k].(pc := pc)];
    forall y | y in refs' && refs'[y].inum in disk ensures GenOk(disk, refs', y) {
      assert GenOk(disk, refs, y);
      if Doomed(disk, refs, y) { DoomedKeep(disk, refs, refs', y); }
    }
  }

  /** What was meant stays gone while those about to free keep to it. */
  lemma DoomedKeep(disk: map<nat, Inode>, refs: map<nat, Ref>, refs': map<nat, Ref>, y: nat)
    requires y in refs && refs[y].inum in disk && Doomed(disk, refs, y)
    requires y in refs' && refs'[y].inum == refs[y].inum && refs'[y].gen == refs[y].gen
    requires forall x :: x in refs && Ending(refs[x].pc) ==>
             x in refs' && Ending(refs'[x].pc) && refs'[x].inum == refs[x].inum
    ensures Doomed(disk, refs', y)
  {
  }

  lemma CopiesAt(table: seq<Entry>, disk: map<nat, Inode>, refs: map<nat, Ref>, table': seq<Entry>,
                 disk': map<nat, Inode>, refs': map<nat, Ref>, e: nat, k: nat)
    requires CopiesOk(table, disk, refs) && Unique(table) && LocksOk(table, refs) && SameBut(table, table', e)
    requires refs' - {k} == refs - {k} && (k in refs && HasLock(refs[k].pc) ==> refs[k].entry == e)
    requires forall i :: i in disk && i != table'[e].inum ==> i in disk' && disk'[i] == disk[i]
    requires table'[e].ref > 0 ==>
             table'[e].inum in disk' && CopyOk(table'[e], disk'[table'[e].inum], Holder(table'[e], refs'))
    requires table[e].inum == table'[e].inum && (table[e].ref > 0 || disk' == disk)
    ensures CopiesOk(table', disk', refs')
  {
    forall x | 0 <= x < |table'| && table'[x].ref > 0 && x != e
      ensures table'[x].inum in disk' && CopyOk(table'[x], disk'[table'[x].inum], Holder(table'[x], refs'))
    {
      assert table'[x] == table[x];
      HolderSame(table[x], refs, refs', k);
    }
  }

  lemma HolderSame(t: Entry, refs: map<nat, Ref>, refs': map<nat, Ref>, k: nat)
    requires refs' - {k} == refs - {k} && t.lock != Some(k)
    ensures Holder(t, refs') == Holder(t, refs)
  {
    if t.lock.Some? {
      var x := t.lock.value;
      assert x in refs <==> x in refs - {k};
      assert x in refs' <==> x in refs' - {k};
      if x in refs {
        assert (refs - {k})[x] == refs[x] && (refs' - {k})[x] == refs'[x];
      }
    }
  }

  lemma AcquireKeeps(s: State, k: nat)
    requires Inv(s) && Enabled(s, Acquire(k))
    ensures Inv(Next(s, Acquire(k)))
  {
    hide RefsOk, Unique, LocksOk, GensOk, CopiesOk;
    Clauses(s);
    Clauses(Next(s, Acquire(k)));
    var e, n := s.refs[k].entry, Next(s, Acquire(k));
    RefsMove(s.table, s.disk, s.refs, n.table, n.disk, e, k, Acquired);
    UniqueKeep(s.table, n.table, e);
    LocksStep(s.table, s.refs, n.table, e, k, Acquired);
    GensMove(s.disk, s.refs, k, Acquired);
    Copy(s, e);
    CopiesAt(s.table, s.disk, s.refs, n.table, n.disk, n.refs, e, k);
  }

  lemma Copy(s: State, e: nat)
    requires Inv(s) && e < NINODE
    ensures s.table[e].ref > 0 ==>
            s.table[e].inum in s.disk && CopyOk(s.table[e], s.disk[s.table[e].inum], Holder(s.table[e], s.refs))
  {
    Clauses(s);
  }

  /** What the invariant says about a counted reference. */
  lemma RefFacts(s: State, k: nat)
    requires Inv(s) && k in s.refs && s.refs[k].pc != Allocated
    ensures var r := s.refs[k];
      && Shape(s) && r.entry < NINODE && s.table[r.entry].ref > 0 && s.table[r.entry].inum == r.inum && r.inum in s.disk
      && (HasLock(r.pc) ==> s.table[r.entry].lock == Some(k) && Holder(s.table[r.entry], s.refs) == Some(r.pc))
      && (!HasLock(r.pc) ==> s.table[r.entry].lock != Some(k))
      && (Active(r) && r.live ==> r.gen == s.disk[r.inum].gen && s.disk[r.inum].kind != 0)
      && (s.table[r.entry].ref == 1 ==>
             forall x :: x in s.refs && s.refs[x].pc != Allocated && s.refs[x].entry == r.entry ==> x == k)
  {
    Clauses(s);
    Counted(s.table, s.disk, s.refs, k);
  }

  lemma ReadKeeps(s: State, k: nat)
    requires Inv(s) && Enabled(s, Read(k))
    ensures Inv(Next(s, Read(k)))
  {
    hide RefsOk, Unique, LocksOk, GensOk, CopiesOk;
    Clauses(s);
    Clauses(Next(s, Read(k)));
    var e, n := s.refs[k].entry, Next(s, Read(k));
    RefFacts(s, k);
    RefsMove(s.table, s.disk, s.refs, n.table, n.disk, e, k, Locked);
    UniqueKeep(s.table, n.table, e);
    LocksStep(s.table, s.refs, n.table, e, k, Locked);
    GensMove(s.disk, s.refs, k, Locked);
    Copy(s, e);
    CopiesAt(s.table, s.disk, s.refs, n.table, n.disk, n.refs, e, k);
  }

  lemma ModifyKeeps(s: State, k: nat, d: Inode)
    requires Inv(s) && Enabled(s, Modify(k, d))
    ensures Inv(Next(s, Modify(k, d)))
  {
    hide RefsOk, Unique, LocksOk, GensOk, CopiesOk;
    Clauses(s);
    Clauses(Next(s, Modify(k, d)));
    var e, n := s.refs[k].entry, Next(s, Modify(k, d));
    RefFacts(s, k);
    assert s.refs[k := s.refs[k].(pc := Locked)] == s.refs;
    RefsMove(s.table, s.disk, s.refs, n.table, n.disk, e, k, Locked);
    UniqueKeep(s.table, n.table, e);
    LocksStep(s.table, s.refs, n.table, e, k, Locked);
    Copy(s, e);
    CopiesAt(s.table, s.disk, s.refs, n.table, n.disk, n.refs, e, k);
  }

  /** Writing an inode that keeps its generation and stays allocated. */
  lemma GensWrite(disk: map<nat, Inode>, refs: map<nat, Ref>, k: nat, i: nat, d: Inode)
    requires k in refs && refs[k].inum == i
    requires GensOk(disk, refs) && i in disk && d.gen == disk[i].gen && d.kind == disk[i].kind
    ensures GensOk(disk[i := d], refs)
  {
    forall y | y in refs && refs[y].inum in disk && Doomed(disk, refs, y) ensures Doomed(disk[i := d], refs, y) {
    }
  }

  lemma IupdateKeeps(s: State, k: nat)
    requires Inv(s) && Enabled(s, Iupdate(k))
    ensures Inv(Next(s, Iupdate(k)))
  {
    hide RefsOk, Unique, LocksOk, GensOk, CopiesOk;
    Clauses(s);
    Clauses(Next(s, Iupdate(k)));
    var e, n := s.refs[k].entry, Next(s, Iupdate(k));
    RefFacts(s, k);
    Copy(s, e);
    assert s.refs[k := s.refs[k].(pc := Locked)] == s.refs;
    RefsMove(s.table, s.disk, s.refs, n.table, n.disk, e, k, Locked);
    GensWrite(s.disk, s.refs, k, s.refs[k].inum, s.table[e].mem);
    CopiesAt(s.table, s.disk, s.refs, n.table, n.disk, n.refs, e, k);
  }

  lemma IunlockKeeps(s: State, k: nat)
    requires Inv(s) && Enabled(s, Iunlock(k))
    ensures Inv(Next(s, Iunlock(k)))
  {
    hide RefsOk, Unique, LocksOk, GensOk, CopiesOk;
    Clauses(s);
    Clauses(Next(s, Iunlock(k)));
    var e, n := s.refs[k].entry, Next(s, Iunlock(k));
    RefFacts(s, k);
    Copy(s, e);
    RefsMove(s.table, s.disk, s.refs, n.table, n.disk, e, k, Held);
    UniqueKeep(s.table, n.table, e);
    LocksStep(s.table, s.refs, n.table, e, k, Held);
    GensMove(s.disk, s.refs, k, Held);
    CopiesAt(s.table, s.disk, s.refs, n.table, n.disk, n.refs, e, k);
  }

  lemma RefsDrop(table: seq<Entry>, disk: map<nat, Inode>, refs: map<nat, Ref>, table': seq<Entry>, k: nat)
    requires RefsOk(table, disk, refs) && k in refs && refs[k].pc != Allocated && SameBut(table, table', refs[k].entry)
    requires table'[refs[k].entry].inum == table[refs[k].entry].inum
    requires table'[refs[k].entry].ref == table[refs[k].entry].ref - 1
    ensures RefsOk(table', disk, refs - {k})
  {
    forall x | 0 <= x < NINODE ensures |Uses(refs - {k}, x)| == |Uses(refs, x)| - if refs[k].entry == x then 1 else 0 {
      UsesDrop(refs, k, x);
    }
  }

  lemma GensDrop(disk: map<nat, Inode>, refs: map<nat, Ref>, k: nat)
    requires GensOk(disk, refs) && k in refs && !Ending(refs[k].pc)
    ensures GensOk(disk, refs - {k})
  {
    forall y | y in refs && y != k && refs[y].inum in disk && Doomed(disk, refs, y)
      ensures Doomed(disk, refs - {k}, y)
    {
      DoomedKeep(disk, refs, refs - {k}, y);
    }
  }

  /** ref-- without the lock. */
  lemma DropStep(s: State, k: nat, n: State)
    requires Inv(s) && k in s.refs && (s.refs[k].pc == Held || s.refs[k].pc == Leaving)
    requires var e := s.refs[k].entry; e < NINODE && n == SetEntry(s, e, s.table[e].(ref := if s.table[e].ref > 0 then s.table[e].ref - 1 else 0)).(refs := s.refs - {k})
    ensures Inv(n)
  {
    hide RefsOk, Unique, LocksOk, GensOk, CopiesOk;
    Clauses(s);
    Clauses(n);
    var e := s.refs[k].entry;
    RefFacts(s, k);
    Copy(s, e);
    RefsDrop(s.table, s.disk, s.refs, n.table, k);
    UniqueKeep(s.table, n.table, e);
    LocksOther(s.table, s.refs, n.table, n.refs, e, k);
    GensDrop(s.disk, s.refs, k);
    HolderSame(s.table[e], s.refs, n.refs, k);
    CopiesAt(s.table, s.disk, s.refs, n.table, n.disk, n.refs, e, k);
  }

  /** Starting to free makes the reference the only one to its inode. */
  lemma GensFree(s: State, k: nat)
    requires Inv(s) && In(s, k, Held) && s.table[s.refs[k].entry].ref == 1
    ensures GensOk(s.disk, s.refs[k := s.refs[k].(pc := Freeing)])
  {
    Clauses(s);
    RefFacts(s, k);
    forall x | x in s.refs && x != k && s.refs[x].pc != Allocated ensures s.refs[x].inum != s.refs[k].inum {
      RefFacts(s, x);
    }
    var refs' := s.refs[k := s.refs[k].(pc := Freeing)];
    forall y | y in s.refs && s.refs[y].inum in s.disk && Doomed(s.disk, s.refs, y) ensures Doomed(s.disk, refs', y) {
      DoomedKeep(s.disk, s.refs, refs', y);
    }
  }

  lemma IputKeeps(s: State, k: nat)
    requires Inv(s) && Enabled(s, Iput(k))
    ensures Inv(Next(s, Iput(k)))
  {
    hide RefsOk, Unique, LocksOk, GensOk, CopiesOk;
    Clauses(s);
    Clauses(Next(s, Iput(k)));
    var e, n := s.refs[k].entry, Next(s, Iput(k));
    var t := s.table[e];
    RefFacts(s, k);
    if t.ref == 1 && t.valid && t.mem.nlink == 0 {
      LockIsFree(s, k);
      Copy(s, e);
      RefsMove(s.table, s.disk, s.refs, n.table, n.disk, e, k, Freeing);
      UniqueKeep(s.table, n.table, e);
      LocksStep(s.table, s.refs, n.table, e, k, Freeing);
      GensFree(s, k);
      CopiesAt(s.table, s.disk, s.refs, n.table, n.disk, n.refs, e, k);
    } else {
      DropStep(s, k, n);
    }
  }

  lemma LockIsFree(s: State, k: nat)
    requires Inv(s) && In(s, k, Held) && s.table[s.refs[k].entry].ref == 1
    ensures s.table[s.refs[k].entry].lock == None
  {
    Clauses(s);
    RefFacts(s, k);
  }

  lemma ItruncKeeps(s: State, k: nat)
    requires Inv(s) && Enabled(s, Itrunc(k))
    ensures Inv(Next(s, Itrunc(k)))
  {
    hide RefsOk, Unique, LocksOk, GensOk, CopiesOk;
    Clauses(s);
    Clauses(Next(s, Itrunc(k)));
    var e, n := s.refs[k].entry, Next(s, Itrunc(k));
    RefFacts(s, k);
    Copy(s, e);
    RefsMove(s.table, s.disk, s.refs, n.table, n.disk, e, k, Truncated);
    UniqueKeep(s.table, n.table, e);
    LocksStep(s.table, s.refs, n.table, e, k, Truncated);
    GensMove(s.disk, s.refs, k, Truncated);
    GensWrite(s.disk, n.refs, k, s.refs[k].inum, s.table[e].mem.(content := 0));
    CopiesAt(s.table, s.disk, s.refs, n.table, n.disk, n.refs, e, k);
  }

  /** The inode goes; nobody else counts on it. */
  lemma GensErase(disk: map<nat, Inode>, refs: map<nat, Ref>, k: nat, d: Inode)
    requires GensOk(disk, refs) && k in refs && refs[k].pc == Truncated && refs[k].inum in disk
    requires d.kind == 0 && d.gen == disk[refs[k].inum].gen
    ensures GensOk(disk[refs[k].inum := d], refs[k := refs[k].(pc := Erased)])
  {
    var refs', disk' := refs[k := refs[k].(pc := Erased)], disk[refs[k].inum := d];
    forall y | y in refs && y != k && refs[y].inum in disk && Doomed(disk, refs, y) ensures Doomed(disk', refs', y) {
      if refs[y].inum != refs[k].inum {
        OtherDoomed(disk, refs, disk', refs', k, y);
      }
    }
  }

  lemma OtherDoomed(disk: map<nat, Inode>, refs: map<nat, Ref>, disk': map<nat, Inode>, refs': map<nat, Ref>, k: nat,
                    y: nat)
    requires y in refs && y != k && refs[y].inum in disk && Doomed(disk, refs, y)
    requires k in refs ==> refs[y].inum != refs[k].inum
    requires forall x :: x in refs && x != k ==> x in refs' && refs'[x] == refs[x]
    requires refs[y].inum in disk' && disk'[refs[y].inum] == disk[refs[y].inum]
    ensures Doomed(disk', refs', y)
  {
  }

  lemma EraseKeeps(s: State, k: nat)
    requires Inv(s) && Enabled(s, Erase(k))
    ensures Inv(Next(s, Erase(k)))
  {
    hide RefsOk, Unique, LocksOk, GensOk, CopiesOk;
    Clauses(s);
    Clauses(Next(s, Erase(k)));
    var e, n := s.refs[k].entry, Next(s, Erase(k));
    RefFacts(s, k);
    Copy(s, e);
    RefsMove(s.table, s.disk, s.refs, n.table, n.disk, e, k, Erased);
    UniqueKeep(s.table, n.table, e);
    LocksStep(s.table, s.refs, n.table, e, k, Erased);
    GensErase(s.disk, s.refs, k, s.table[e].mem.(kind := 0));
    CopiesAt(s.table, s.disk, s.refs, n.table, n.disk, n.refs, e, k);
  }

  lemma InvalidateKeeps(s: State, k: nat)
    requires Inv(s) && Enabled(s, Invalidate(k))
    ensures Inv(Next(s, Invalidate(k)))
  {
    hide RefsOk, Unique, LocksOk, GensOk, CopiesOk;
    Clauses(s);
    Clauses(Next(s, Invalidate(k)));
    var e, n := s.refs[k].entry, Next(s, Invalidate(k));
    RefFacts(s, k);
    Copy(s, e);
    RefsMove(s.table, s.disk, s.refs, n.table, n.disk, e, k, Invalid);
    UniqueKeep(s.table, n.table, e);
    LocksStep(s.table, s.refs, n.table, e, k, Invalid);
    GensMove(s.disk, s.refs, k, Invalid);
    CopiesAt(s.table, s.disk, s.refs, n.table, n.disk, n.refs, e, k);
  }

  lemma ReleaseLockKeeps(s: State, k: nat)
    requires Inv(s) && Enabled(s, ReleaseLock(k))
    ensures Inv(Next(s, ReleaseLock(k)))
  {
    hide RefsOk, Unique, LocksOk, GensOk, CopiesOk;
    Clauses(s);
    Clauses(Next(s, ReleaseLock(k)));
    var e, n := s.refs[k].entry, Next(s, ReleaseLock(k));
    RefFacts(s, k);
    Copy(s, e);
    RefsMove(s.table, s.disk, s.refs, n.table, n.disk, e, k, Leaving);
    UniqueKeep(s.table, n.table, e);
    LocksStep(s.table, s.refs, n.table, e, k, Leaving);
    GensMove(s.disk, s.refs, k, Leaving);
    CopiesAt(s.table, s.disk, s.refs, n.table, n.disk, n.refs, e, k);
  }

  // ----- New references -----

  lemma RefsPut(table: seq<Entry>, disk: map<nat, Inode>, refs: map<nat, Ref>, table': seq<Entry>, k: nat, r: Ref)
    requires RefsOk(table, disk, refs) && (k in refs ==> refs[k].pc == Allocated) && r.pc != Allocated && r.inum in disk
    requires r.entry < NINODE
    requires SameBut(table, table', r.entry) && table'[r.entry].inum == r.inum
    requires table'[r.entry].ref == table[r.entry].ref + 1
    requires table[r.entry].ref > 0 ==> table[r.entry].inum == r.inum
    ensures RefsOk(table', disk, refs[k := r])
  {
    forall x | 0 <= x < NINODE ensures |Uses(refs[k := r], x)| == |Uses(refs, x)| + if r.entry == x then 1 else 0 {
      UsesPut(refs, k, r, x);
    }
    forall x | x in refs && refs[x].pc != Allocated && refs[x].entry == r.entry ensures table[r.entry].ref > 0 {
      Counted(table, disk, refs, x);
    }
  }

  lemma UniqueGot(table: seq<Entry>, table': seq<Entry>, e: nat, i: nat)
    requires Unique(table) && SameBut(table, table', e) && table'[e].inum == i
    requires (table[e].ref > 0 && table[e].inum == i) || (forall x :: 0 <= x < NINODE && table[x].ref > 0 ==>
             table[x].inum != i)
    ensures Unique(table')
  {
  }

  lemma CopiesGot(s: State, n: State, e: nat, k: nat, i: nat)
    requires Inv(s) && e < NINODE && SameBut(s.table, n.table, e) && n.table[e] == Got(s.table[e], i)
    requires n.disk == s.disk && i in s.disk
    requires n.refs - {k} == s.refs - {k} && (k in s.refs ==> s.refs[k].pc == Allocated)
    requires (s.table[e].ref > 0 ==> s.table[e].inum == i)
    ensures CopiesOk(n.table, n.disk, n.refs)
  {
    hide Unique, GensOk, RefsOk;
    Clauses(s);
    LockOfUnused(s, e);
    forall x | 0 <= x < |n.table| && n.table[x].ref > 0
      ensures n.table[x].inum in n.disk && CopyOk(n.table[x], n.disk[n.table[x].inum], Holder(n.table[x], n.refs))
    {
      HolderSame(n.table[x], s.refs, n.refs, k);
      if x == e && s.table[e].ref > 0 {
        assert CopyOk(s.table[e], s.disk[i], Holder(s.table[e], s.refs));
      }
    }
  }

  /** An entry that nobody refers to is not locked. */
  lemma LockOfUnused(s: State, e: nat)
    requires Inv(s) && e < NINODE
    ensures s.table[e].ref == 0 ==> s.table[e].lock == None
  {
    Clauses(s);
    if s.table[e].lock.Some? {
      Counted(s.table, s.disk, s.refs, s.table[e].lock.value);
    }
  }

  lemma GotKeeps(s: State, k: nat, i: nat, gen: nat, e: nat)
    requires Inv(s) && Slot(s, i, e) && (k in s.refs ==> s.refs[k].pc == Allocated) && i in s.disk
    requires gen <= s.disk[i].gen
    ensures Inv(DoIget(s, k, i, gen, e))
  {
    hide RefsOk, Unique, LocksOk, GensOk, CopiesOk, Alive;
    Clauses(s);
    Clauses(DoIget(s, k, i, gen, e));
    var n := DoIget(s, k, i, gen, e);
    GensGot(s.disk, s.refs, k, i, gen, e);
    RefsPut(s.table, s.disk, s.refs, n.table, k, n.refs[k]);
    UniqueGot(s.table, n.table, e, i);
    assert n.refs - {k} == s.refs - {k};
    LocksOther(s.table, s.refs, n.table, n.refs, e, k);
    CopiesGot(s, n, e, k, i);
  }

  /** A new counted reference is alive or will never find what it means. */
  lemma GensGot(disk: map<nat, Inode>, refs: map<nat, Ref>, k: nat, i: nat, gen: nat, e: nat)
    requires GensOk(disk, refs) && (k in refs ==> refs[k].pc == Allocated) && i in disk && gen <= disk[i].gen
    ensures GensOk(disk, refs[k := Ref(i, gen, e, Held, Alive(disk, refs, i, gen))])
  {
    var refs' := refs[k := Ref(i, gen, e, Held, Alive(disk, refs, i, gen))];
    forall y | y in refs && y != k && refs[y].inum in disk && Doomed(disk, refs, y) ensures Doomed(disk, refs', y) {
      DoomedKeep(disk, refs, refs', y);
    }
    if !Alive(disk, refs, i, gen) && disk[i].kind != 0 && disk[i].gen == gen {
      var x :| x in refs && Ending(refs[x].pc) && refs[x].inum == i;
      assert x in refs' && Ending(refs'[x].pc) && refs'[x].inum == i;
    }
  }

  lemma LookupKeeps(s: State, k: nat, i: nat, gen: nat, e: nat)
    requires Inv(s) && Enabled(s, Lookup(k, i, gen, e))
    ensures Inv(Next(s, Lookup(k, i, gen, e)))
  {
    hide RefsOk, Unique, LocksOk, GensOk, CopiesOk;
    Clauses(s);
    GotKeeps(s, k, i, gen, e);
  }

  lemma IgetKeeps(s: State, k: nat, e: nat)
    requires Inv(s) && Enabled(s, Iget(k, e))
    ensures Inv(Next(s, Iget(k, e)))
  {
    hide Unique, LocksOk, CopiesOk;
    Clauses(s);
    GotKeeps(s, k, s.refs[k].inum, s.refs[k].gen, e);
  }

  lemma EnterKeeps(s: State, k: nat)
    requires Inv(s) && Enabled(s, Enter(k))
    ensures Inv(Next(s, Enter(k)))
  {
    hide RefsOk, Unique, LocksOk, GensOk, CopiesOk;
    Clauses(s);
  }

  /** A free inode gets a new generation: every reference to the number is past it. */
  lemma GensAlloc(disk: map<nat, Inode>, refs: map<nat, Ref>, k: nat, i: nat, kind: nat)
    requires GensOk(disk, refs) && k !in refs && i in disk && disk[i].kind == 0 && kind != 0
    ensures GensOk(disk[i := Inode(kind, 0, 0, disk[i].gen + 1)], refs[k := Ref(i, disk[i].gen + 1, 0, Allocated, false)])
  {
    var disk' := disk[i := Inode(kind, 0, 0, disk[i].gen + 1)];
    var refs' := refs[k := Ref(i, disk[i].gen + 1, 0, Allocated, false)];
    forall y | y in refs && refs[y].inum in disk && Doomed(disk, refs, y) ensures Doomed(disk', refs', y) {
      if refs[y].inum == i {
        assert refs[y].gen <= disk[i].gen;
      } else {
        OtherDoomed(disk, refs, disk', refs', k, y);
      }
    }
  }

  lemma RefsAlloc(table: seq<Entry>, disk: map<nat, Inode>, refs: map<nat, Ref>, disk': map<nat, Inode>, k: nat, r: Ref)
    requires RefsOk(table, disk, refs) && k !in refs && r.pc == Allocated && r.inum in disk' && disk.Keys <= disk'.Keys
    ensures RefsOk(table, disk', refs[k := r])
  {
    forall x | 0 <= x < NINODE ensures Uses(refs[k := r], x) == Uses(refs, x) {
      UsesAllocated(refs, k, r, x);
    }
  }

  lemma LocksAlloc(table: seq<Entry>, refs: map<nat, Ref>, k: nat, r: Ref)
    requires LocksOk(table, refs) && k !in refs && r.pc == Allocated
    ensures LocksOk(table, refs[k := r])
  {
  }

  /** Only an entry that is past its inode, and locked for it, can be left from the old one. */
  lemma CopiesAlloc(s: State, k: nat, i: nat, d: Inode, r: Ref)
    requires Inv(s) && k !in s.refs && i in s.disk && s.disk[i].kind == 0 && r.pc == Allocated
    ensures CopiesOk(s.table, s.disk[i := d], s.refs[k := r])
  {
    Clauses(s);
    forall e | 0 <= e < |s.table| && s.table[e].ref > 0
      ensures s.table[e].inum in s.disk
      ensures CopyOk(s.table[e], s.disk[i := d][s.table[e].inum], Holder(s.table[e], s.refs[k := r]))
    {
      Copy(s, e);
      assert s.table[e].lock != Some(k);
      if s.table[e].inum == i {
        SomeUse(s, e);
      }
    }
  }

  /** An entry of a free inode is either unread or still locked by the iput that freed it. */
  lemma SomeUse(s: State, e: nat)
    requires Inv(s) && e < NINODE && s.table[e].ref > 0 && s.table[e].inum in s.disk
    requires s.disk[s.table[e].inum].kind == 0
    ensures Holder(s.table[e], s.refs) == Some(Erased) || !s.table[e].valid
    ensures Holder(s.table[e], s.refs) in {None, Some(Acquired), Some(Erased), Some(Invalid)}
  {
    Clauses(s);
    if s.table[e].lock.Some? {
      RefFacts(s, s.table[e].lock.value);
    }
    Copy(s, e);
  }

  lemma IallocKeeps(s: State, k: nat, i: nat, kind: nat)
    requires Inv(s) && Enabled(s, Ialloc(k, i, kind))
    ensures Inv(Next(s, Ialloc(k, i, kind)))
  {
    hide RefsOk, Unique, LocksOk, GensOk, CopiesOk;
    Clauses(s);
    Clauses(Next(s, Ialloc(k, i, kind)));
    var g := s.disk[i].gen + 1;
    var d, r := Inode(kind, 0, 0, g), Ref(i, g, 0, Allocated, false);
    GensAlloc(s.disk, s.refs, k, i, kind);
    RefsAlloc(s.table, s.disk, s.refs, s.disk[i := d], k, r);
    LocksAlloc(s.table, s.refs, k, r);
    CopiesAlloc(s, k, i, d, r);
  }

  lemma GensDup(disk: map<nat, Inode>, refs: map<nat, Ref>, k: nat, from: nat)
    requires GensOk(disk, refs) && k !in refs && from in refs && (refs[from].pc == Held || refs[from].pc == Locked)
    ensures GensOk(disk, refs[k := refs[from].(pc := Held)])
  {
    hide Doomed;
    var refs' := refs[k := refs[from].(pc := Held)];
    forall y | y in refs' && refs'[y].inum in disk ensures GenOk(disk, refs', y) {
      assert y in refs ==> GenOk(disk, refs, y);
      if y in refs && Doomed(disk, refs, y) { DoomedKeep(disk, refs, refs', y); }
      if y == k {
        assert GenOk(disk, refs, from);
        if Doomed(disk, refs, from) { DoomedCopy(disk, refs, refs', k, from); }
      }
    }
  }

  lemma DoomedCopy(disk: map<nat, Inode>, refs: map<nat, Ref>, refs': map<nat, Ref>, k: nat, from: nat)
    requires from in refs && refs[from].inum in disk && Doomed(disk, refs, from) && k !in refs
    requires refs' == refs[k := refs[from].(pc := Held)]
    ensures Doomed(disk, refs', k)
  {
    if x :| x in refs && x != from && Ending(refs[x].pc) && refs[x].inum == refs[from].inum {
      assert x in refs' && x != k && Ending(refs'[x].pc) && refs'[x].inum == refs'[k].inum;
    }
  }

  lemma IdupKeeps(s: State, k: nat, from: nat)
    requires Inv(s) && Enabled(s, Idup(k, from))
    ensures Inv(Next(s, Idup(k, from)))
  {
    hide RefsOk, Unique, LocksOk, GensOk, CopiesOk;
    Clauses(s);
    Clauses(Next(s, Idup(k, from)));
    var e, n := s.refs[from].entry, Next(s, Idup(k, from));
    RefFacts(s, from);
    RefsPut(s.table, s.disk, s.refs, n.table, k, s.refs[from].(pc := Held));
    UniqueKeep(s.table, n.table, e);
    assert n.refs - {k} == s.refs - {k};
    LocksOther(s.table, s.refs, n.table, n.refs, e, k);
    GensDup(s.disk, s.refs, k, from);
    CopiesGot(s, n, e, k, s.refs[from].inum);
  }

  lemma StepKeepsInv(s: State, a: Action)
    requires Inv(s) && Enabled(s, a)
    ensures Inv(Next(s, a))
  {
    hide Inv;
    match a
    case Enter(k) => EnterKeeps(s, k);
    case Lookup(k, i, gen, e) => LookupKeeps(s, k, i, gen, e);
    case Ialloc(k, i, kind) => IallocKeeps(s, k, i, kind);
    case Iget(k, e) => IgetKeeps(s, k, e);
    case Idup(k, from) => IdupKeeps(s, k, from);
    case Acquire(k) => AcquireKeeps(s, k);
    case Read(k) => ReadKeeps(s, k);
    case Modify(k, d) => ModifyKeeps(s, k, d);
    case Iupdate(k) => IupdateKeeps(s, k);
    case Iunlock(k) => IunlockKeeps(s, k);
    case Iput(k) => IputKeeps(s, k);
    case Itrunc(k) => ItruncKeeps(s, k);
    case Erase(k) => EraseKeeps(s, k);
    case Invalidate(k) => InvalidateKeeps(s, k);
    case ReleaseLock(k) => ReleaseLockKeeps(s, k);
    case Drop(k) => DropStep(s, k, Next(s, a));
  }

  // ----- Runs -----

  /** iinit on a file system: no entry is referenced. */
  ghost predicate Initial(s: State) {
    && Shape(s) && s.refs == map[] && EnteredOk(s.disk, s.entered)
    && forall e :: 0 <= e < NINODE ==> s.table[e].ref == 0 && s.table[e].lock == None
  }

  ghost predicate Leads(s: State, acts: seq<Action>, r: State)
    decreases |acts|
  {
    if acts == [] then r == s else Enabled(s, acts[0]) && Leads(Next(s, acts[0]), acts[1..], r)
  }

  lemma {:induction false} RunsKeepInv(s: State, acts: seq<Action>, r: State)
    requires Inv(s) && Leads(s, acts, r)
    ensures Inv(r)
    decreases |acts|
  {
    hide Inv, Enabled, Next;
    if acts != [] {
      StepKeepsInv(s, acts[0]);
      RunsKeepInv(Next(s, acts[0]), acts[1..], r);
    }
  }

  lemma InitialOk(s: State)
    requires Initial(s)
    ensures Inv(s)
  {
    forall e | 0 <= e < NINODE ensures Uses(s.refs, e) == {} {
    }
  }

  ghost predicate Reachable(s: State) { exists s0, acts :: Initial(s0) && Leads(s0, acts, s) }

  lemma ReachableOk(s: State)
    requires Reachable(s)
    ensures Inv(s)
  {
    hide Inv, Enabled, Next, Initial;
    var s0, acts :| Initial(s0) && Leads(s0, acts, s);
    InitialOk(s0);
    RunsKeepInv(s0, acts, s);
  }

  // The theorems that follow are about every state of the invariant, so about every reachable one.

  /** At most one referenced entry per inode. */
  lemma OneEntryPerInode(s: State, e: nat, x: nat)
    requires Inv(s) && e < NINODE && x < NINODE && s.table[e].ref > 0 && s.table[x].ref > 0
    requires s.table[e].inum == s.table[x].inum
    ensures e == x
  {
    Clauses(s);
  }

  /** An entry that is valid and not locked agrees with the inode on disk. */
  lemma UnlockedAgrees(s: State, e: nat)
    requires Inv(s) && e < NINODE && s.table[e].ref > 0 && s.table[e].valid && s.table[e].lock == None
    ensures s.table[e].inum in s.disk && s.table[e].mem == s.disk[s.table[e].inum]
  {
    Copy(s, e);
  }

  /** What ilock shows is the inode that was meant: it does not panic, and the entry then holds the inode as it is
      on disk, allocated, of the generation that the reference was made for. */
  ghost predicate SeesOwnInode(s: State, k: nat)
    requires In(s, k, Acquired)
  {
    && !Panics(s, k)
    && var t := Next(s, Read(k)).table[s.refs[k].entry];
       && t.valid && t.inum == s.refs[k].inum && t.mem == s.disk[s.refs[k].inum]
       && t.mem.kind != 0 && t.mem.gen == s.refs[k].gen
  }

  /** ilock shows the inode that was meant exactly when that was alive at the moment the reference was taken, and
      otherwise panics or shows a later inode of the same number. */
  lemma IlockSeesOwnInode(s: State, k: nat)
    requires Inv(s) && In(s, k, Acquired)
    ensures SeesOwnInode(s, k) <==> s.refs[k].live
    ensures !s.refs[k].live && !Panics(s, k) ==> Next(s, Read(k)).table[s.refs[k].entry].mem.gen > s.refs[k].gen
  {
    Clauses(s);
    RefFacts(s, k);
    Copy(s, s.refs[k].entry);
    if !s.refs[k].live {
      LockerNotEnding(s, k);
    }
  }

  /** While k has the lock, nobody is about to free its inode. */
  lemma LockerNotEnding(s: State, k: nat)
    requires Inv(s) && In(s, k, Acquired)
    ensures forall x :: x in s.refs && x != k && Ending(s.refs[x].pc) ==> s.refs[x].inum != s.refs[k].inum
  {
    Clauses(s);
    RefFacts(s, k);
    forall x | x in s.refs && x != k && Ending(s.refs[x].pc) ensures s.refs[x].inum != s.refs[k].inum {
      RefFacts(s, x);
    }
  }

  /** A linked inode is alive: its links keep iput from freeing it. */
  lemma LinkedIsAlive(s: State, i: nat)
    requires Inv(s) && i in s.disk && s.disk[i].kind != 0 && s.disk[i].nlink > 0
    ensures Alive(s.disk, s.refs, i, s.disk[i].gen)
  {
    forall x | x in s.refs && Ending(s.refs[x].pc) ensures s.refs[x].inum != i {
      RefFacts(s, x);
      Copy(s, s.refs[x].entry);
    }
  }

  /** So is an inode that somebody has taken alive and still refers to. */
  lemma HeldIsAlive(s: State, k: nat)
    requires Inv(s) && k in s.refs && s.refs[k].live && (s.refs[k].pc.Held? || s.refs[k].pc.Locked?)
    ensures Alive(s.disk, s.refs, s.refs[k].inum, s.refs[k].gen)
  {
    Clauses(s);
    RefFacts(s, k);
  }

  /** When iput finds ref == 1 its acquiresleep does not block: nobody can have the inode locked. */
  lemma IputNeverBlocks(s: State, k: nat)
    requires Inv(s) && Enabled(s, Iput(k)) && s.table[s.refs[k].entry].ref == 1
    ensures s.table[s.refs[k].entry].lock == None
  {
    LockIsFree(s, k);
  }

  /** A process holding the lock works on the inode it referred to, until it unlocks. */
  lemma LockedIsOwn(s: State, k: nat)
    requires Inv(s) && In(s, k, Locked) && s.refs[k].live
    ensures var t := s.table[s.refs[k].entry];
      t.lock == Some(k) && t.valid && t.inum == s.refs[k].inum && t.mem.kind != 0 && t.mem.gen == s.refs[k].gen
  {
    RefFacts(s, k);
    Copy(s, s.refs[k].entry);
  }

  // ----- iput does not always free an unlinked inode -----

  lemma {:induction false} LeadsMore(s: State, acts: seq<Action>, r: State, a: Action)
    requires Leads(s, acts, r) && Enabled(r, a)
    ensures Leads(s, acts + [a], Next(r, a))
    decreases |acts|
  {
    hide Enabled, Next;
    if acts == [] {
      assert (acts + [a])[1..] == [];
    } else {
      LeadsMore(Next(s, acts[0]), acts[1..], r, a);
      assert (acts + [a])[1..] == acts[1..] + [a];
    }
  }

  lemma ReachMore(s: State, a: Action)
    requires Reachable(s) && Enabled(s, a)
    ensures Reachable(Next(s, a))
  {
    hide Enabled, Next, Initial;
    var s0, acts :| Initial(s0) && Leads(s0, acts, s);
    LeadsMore(s0, acts, s, a);
  }

  /** Entry 0 and the references, in the runs below; one number, entered in a directory for its generation 0. */
  predicate At(s: State, t: Entry, d: Inode, refs: map<nat, Ref>) {
    && Shape(s) && s.table[0] == t && s.disk == map[1 := d] && s.refs == refs && s.entered == {(1, 0)}
    && forall x :: 0 < x < NINODE ==> s.table[x].ref == 0
  }

  lemma Go(s: State, a: Action, t: Entry, d: Inode, refs: map<nat, Ref>) returns (n: State)
    requires Reachable(s) && Enabled(s, a) && At(Next(s, a), t, d, refs)
    ensures Reachable(n) && At(n, t, d, refs)
  {
    ReachMore(s, a);
    n := Next(s, a);
  }

  const LINKED := Inode(1, 1, 0, 0)
  const UNLINKED := Inode(1, 0, 0, 0)
  const FREE := Inode(0, 0, 0, 0)
  const REUSED := Inode(1, 0, 0, 1)

  function One(pc: Pc): map<nat, Ref> { map[0 := Ref(1, 0, 0, pc, true)] }

  function Two(pc: Pc): map<nat, Ref> { map[0 := Ref(1, 0, 0, Leaving, true), 1 := Ref(1, 1, 0, pc, pc != Allocated)] }

  lemma RunStart() returns (s: State)
    ensures Reachable(s) && At(s, Entry(0, 0, false, LINKED, None), LINKED, map[])
  {
    s := State(seq(NINODE, _ => Entry(0, 0, false, LINKED, None)), map[1 := LINKED], map[], {(1, 0)});
    assert Initial(s) && Leads(s, [], s);
  }

  /** The only reference to a linked inode locks it, */
  lemma RunReads(s0: State) returns (s: State)
    requires Reachable(s0) && At(s0, Entry(0, 0, false, LINKED, None), LINKED, map[])
    ensures Reachable(s) && At(s, Entry(1, 1, true, LINKED, Some(0)), LINKED, One(Locked))
  {
    hide Reachable;
    s := Go(s0, Lookup(0, 1, 0, 0), Entry(1, 1, false, LINKED, None), LINKED, One(Held));
    s := Go(s, Acquire(0), Entry(1, 1, false, LINKED, Some(0)), LINKED, One(Acquired));
    s := Go(s, Read(0), Entry(1, 1, true, LINKED, Some(0)), LINKED, One(Locked));
  }

  /** takes its last link away, */
  lemma RunUnlinks(s0: State) returns (s: State)
    requires Reachable(s0) && At(s0, Entry(1, 1, true, LINKED, Some(0)), LINKED, One(Locked))
    ensures Reachable(s) && At(s, Entry(1, 1, true, UNLINKED, None), UNLINKED, One(Held))
  {
    hide Reachable;
    s := Go(s0, Modify(0, UNLINKED), Entry(1, 1, true, UNLINKED, Some(0)), LINKED, One(Locked));
    s := Go(s, Iupdate(0), Entry(1, 1, true, UNLINKED, Some(0)), UNLINKED, One(Locked));
    s := Go(s, Iunlock(0), Entry(1, 1, true, UNLINKED, None), UNLINKED, One(Held));
  }

  /** and frees it with its iput, */
  lemma RunErases(s0: State) returns (s: State)
    requires Reachable(s0) && At(s0, Entry(1, 1, true, UNLINKED, None), UNLINKED, One(Held))
    ensures Reachable(s) && At(s, Entry(1, 1, true, FREE, Some(0)), FREE, One(Erased))
  {
    hide Reachable;
    s := Go(s0, Iput(0), Entry(1, 1, true, UNLINKED, Some(0)), UNLINKED, One(Freeing));
    s := Go(s, Itrunc(0), Entry(1, 1, true, UNLINKED, Some(0)), UNLINKED, One(Truncated));
    s := Go(s, Erase(0), Entry(1, 1, true, FREE, Some(0)), FREE, One(Erased));
  }

  /** up to the point before ref--. */
  lemma RunLeaves(s0: State) returns (s: State)
    requires Reachable(s0) && At(s0, Entry(1, 1, true, FREE, Some(0)), FREE, One(Erased))
    ensures Reachable(s) && At(s, Entry(1, 1, false, FREE, None), FREE, One(Leaving))
  {
    hide Reachable;
    s := Go(s0, Invalidate(0), Entry(1, 1, false, FREE, Some(0)), FREE, One(Invalid));
    s := Go(s, ReleaseLock(0), Entry(1, 1, false, FREE, None), FREE, One(Leaving));
  }

  lemma RunFreed() returns (s: State)
    ensures Reachable(s) && At(s, Entry(1, 1, false, FREE, None), FREE, One(Leaving))
  {
    hide Reachable, At;
    s := RunStart();
    s := RunReads(s);
    s := RunUnlinks(s);
    s := RunErases(s);
    s := RunLeaves(s);
  }

  /** The number is allocated again in that moment; */
  lemma RunReuses(s0: State) returns (s: State)
    requires Reachable(s0) && At(s0, Entry(1, 1, false, FREE, None), FREE, One(Leaving))
    ensures Reachable(s) && At(s, Entry(2, 1, false, FREE, None), REUSED, Two(Held))
  {
    hide Reachable;
    s := Go(s0, Ialloc(1, 1, 1), Entry(1, 1, false, FREE, None), REUSED, Two(Allocated));
    s := Go(s, Iget(1, 0), Entry(2, 1, false, FREE, None), REUSED, Two(Held));
  }

  /** the new inode is locked, */
  lemma RunLocks(s0: State) returns (s: State)
    requires Reachable(s0) && At(s0, Entry(2, 1, false, FREE, None), REUSED, Two(Held))
    ensures Reachable(s) && At(s, Entry(2, 1, true, REUSED, Some(1)), REUSED, Two(Locked))
  {
    hide Reachable;
    s := Go(s0, Acquire(1), Entry(2, 1, false, FREE, Some(1)), REUSED, Two(Acquired));
    s := Go(s, Read(1), Entry(2, 1, true, REUSED, Some(1)), REUSED, Two(Locked));
  }

  /** and given up without a link, as create does when it fails. */
  lemma RunGivesUp(s0: State) returns (s: State)
    requires Reachable(s0) && At(s0, Entry(2, 1, true, REUSED, Some(1)), REUSED, Two(Locked))
    ensures Reachable(s) && At(s, Entry(0, 1, true, REUSED, None), REUSED, map[])
  {
    hide Reachable;
    s := Go(s0, Iunlock(1), Entry(2, 1, true, REUSED, None), REUSED, Two(Held));
    s := Go(s, Iput(1), Entry(1, 1, true, REUSED, None), REUSED, One(Leaving));
    s := Go(s, Drop(0), Entry(0, 1, true, REUSED, None), REUSED, map[]);
  }

  /** The second iput finds ref == 2, so the new inode stays allocated with no link and no reference. */
  lemma UnlinkedCanStay() returns (s: State)
    ensures Reachable(s) && s.refs == map[] && s.disk == map[1 := Inode(1, 0, 0, 1)]
  {
    s := RunFreed();
    s := RunReuses(s);
    s := RunLocks(s);
    s := RunGivesUp(s);
  }

  // ----- Runs that only look up what is there -----

  /** A number just allocated is in no directory and belongs to its allocator alone; every reference is live. */
  ghost predicate FreshOk(disk: map<nat, Inode>, refs: map<nat, Ref>, entered: set<(nat, nat)>) {
    && (forall k :: k in refs && refs[k].pc.Allocated? && refs[k].inum in disk ==>
          Alive(disk, refs, refs[k].inum, refs[k].gen) && (refs[k].inum, refs[k].gen) !in entered)
    && (forall k, x :: k in refs && x in refs && k != x && refs[k].pc.Allocated? && refs[x].inum == refs[k].inum ==>
           Past(refs[x].pc))
    && (forall k :: k in refs && !refs[k].pc.Allocated? ==> refs[k].live)
  }

  /** Every lookup finds its inode alive. */
  ghost predicate LooksAlive(s: State, a: Action) { a.Lookup? ==> Alive(s.disk, s.refs, a.i, a.gen) }

  /** A counted reference moves, or goes; nobody else sees more of its inode than its type and generation. */
  lemma FreshMove(disk: map<nat, Inode>, refs: map<nat, Ref>, entered: set<(nat, nat)>, disk': map<nat, Inode>,
                  refs': map<nat, Ref>, k: nat)
    requires FreshOk(disk, refs, entered) && k in refs && refs[k].pc != Allocated && refs[k].inum in disk
    requires disk'.Keys == disk.Keys
    requires forall x :: x in refs && x != k ==> x in refs' && refs'[x] == refs[x]
    requires forall x :: x in refs' && x != k ==> x in refs
    requires k in refs' ==> refs'[k].pc != Allocated && refs'[k].live && refs'[k].inum == refs[k].inum && (Past(refs[k].pc) ==> Past(refs'[k].pc))
    requires forall i :: i in disk && i != refs[k].inum ==> disk'[i] == disk[i]
    requires Past(refs[k].pc) ==> disk' == disk
    ensures FreshOk(disk', refs', entered)
  {
    forall a | a in refs' && refs'[a].pc.Allocated? && refs'[a].inum in disk'
      ensures Alive(disk', refs', refs'[a].inum, refs'[a].gen)
    {
      assert Alive(disk, refs, refs[a].inum, refs[a].gen);
      assert refs[k].inum == refs[a].inum ==> Past(refs[k].pc);
    }
  }

  /** A new counted reference to an inode that nobody is just allocating, or the allocator's own. */
  lemma FreshGot(disk: map<nat, Inode>, refs: map<nat, Ref>, entered: set<(nat, nat)>, k: nat, r: Ref)
    requires FreshOk(disk, refs, entered) && (k in refs ==> refs[k].pc == Allocated) && r.pc.Held? && r.live
    requires forall x :: x in refs && x != k && refs[x].pc.Allocated? ==> refs[x].inum != r.inum
    ensures FreshOk(disk, refs[k := r], entered)
  {
  }

  lemma FreshEnter(s: State, k: nat)
    requires Inv(s) && FreshOk(s.disk, s.refs, s.entered) && Enabled(s, Enter(k))
    ensures var n := Next(s, Enter(k)); FreshOk(n.disk, n.refs, n.entered)
  {
    Clauses(s);
    var n := Next(s, Enter(k));
    forall x | x in s.refs && s.refs[x].pc.Allocated? ensures (s.refs[x].inum, s.refs[x].gen) !in n.entered {
      assert s.refs[x].inum != s.refs[k].inum;
    }
  }

  lemma FreshAlloc(s: State, k: nat, i: nat, kind: nat)
    requires Inv(s) && FreshOk(s.disk, s.refs, s.entered) && Enabled(s, Ialloc(k, i, kind))
    ensures var n := Next(s, Ialloc(k, i, kind)); FreshOk(n.disk, n.refs, n.entered)
  {
    Clauses(s);
    var n := Next(s, Ialloc(k, i, kind));
    forall x | x in s.refs && s.refs[x].inum == i ensures Past(s.refs[x].pc) && !Ending(s.refs[x].pc) {
      assert !s.refs[x].pc.Allocated?;
      RefFacts(s, x);
    }
    forall x | x in s.refs && s.refs[x].pc.Allocated? ensures Alive(n.disk, n.refs, s.refs[x].inum, s.refs[x].gen) {
      assert Alive(s.disk, s.refs, s.refs[x].inum, s.refs[x].gen);
    }
  }

  lemma FreshLookup(s: State, k: nat, i: nat, gen: nat, e: nat)
    requires Inv(s) && FreshOk(s.disk, s.refs, s.entered) && Enabled(s, Lookup(k, i, gen, e))
    requires Alive(s.disk, s.refs, i, gen)
    ensures var n := Next(s, Lookup(k, i, gen, e)); FreshOk(n.disk, n.refs, n.entered)
  {
    Clauses(s);
    FreshGot(s.disk, s.refs, s.entered, k, Ref(i, gen, e, Held, true));
  }

  lemma FreshIget(s: State, k: nat, e: nat)
    requires Inv(s) && FreshOk(s.disk, s.refs, s.entered) && Enabled(s, Iget(k, e))
    ensures var n := Next(s, Iget(k, e)); FreshOk(n.disk, n.refs, n.entered)
  {
    Clauses(s);
    FreshGot(s.disk, s.refs, s.entered, k, Ref(s.refs[k].inum, s.refs[k].gen, e, Held, true));
  }

  lemma FreshIdup(s: State, k: nat, from: nat)
    requires Inv(s) && FreshOk(s.disk, s.refs, s.entered) && Enabled(s, Idup(k, from))
    ensures var n := Next(s, Idup(k, from)); FreshOk(n.disk, n.refs, n.entered)
  {
    Clauses(s);
    FreshGot(s.disk, s.refs, s.entered, k, s.refs[from].(pc := Held));
  }

  predicate MovesOne(a: Action) { !a.Enter? && !a.Lookup? && !a.Ialloc? && !a.Iget? && !a.Idup? }

  lemma FreshOther(s: State, a: Action)
    requires Inv(s) && FreshOk(s.disk, s.refs, s.entered) && Enabled(s, a) && MovesOne(a)
    ensures var n := Next(s, a); FreshOk(n.disk, n.refs, n.entered)
  {
    hide FreshOk, Unique, LocksOk, GensOk, CopiesOk;
    Clauses(s);
    assert a.k in s.refs && s.refs[a.k].pc != Allocated;
    RefFacts(s, a.k);
    AllLive(s, a.k);
    FreshMove(s.disk, s.refs, s.entered, Next(s, a).disk, Next(s, a).refs, a.k);
  }

  lemma AllLive(s: State, k: nat)
    requires FreshOk(s.disk, s.refs, s.entered) && k in s.refs && !s.refs[k].pc.Allocated?
    ensures s.refs[k].live
  {
  }

  lemma StepKeepsFresh(s: State, a: Action)
    requires Inv(s) && FreshOk(s.disk, s.refs, s.entered) && Enabled(s, a) && LooksAlive(s, a)
    ensures var n := Next(s, a); FreshOk(n.disk, n.refs, n.entered)
  {
    hide Inv, FreshOk, Alive;
    match a
    case Enter(k) => FreshEnter(s, k);
    case Lookup(k, i, gen, e) => FreshLookup(s, k, i, gen, e);
    case Ialloc(k, i, kind) => FreshAlloc(s, k, i, kind);
    case Iget(k, e) => FreshIget(s, k, e);
    case Idup(k, from) => FreshIdup(s, k, from);
    case _ => FreshOther(s, a);
  }

  ghost predicate LeadsAlive(s: State, acts: seq<Action>, r: State)
    decreases |acts|
  {
    if acts == [] then r == s else Enabled(s, acts[0]) && LooksAlive(s, acts[0]) && LeadsAlive(Next(s, acts[0]), acts[1..], r)
  }

  lemma {:induction false} AliveRunsKeepFresh(s: State, acts: seq<Action>, r: State)
    requires Inv(s) && FreshOk(s.disk, s.refs, s.entered) && LeadsAlive(s, acts, r)
    ensures Inv(r) && FreshOk(r.disk, r.refs, r.entered)
    decreases |acts|
  {
    hide Inv, FreshOk, Enabled, Next, LooksAlive;
    if acts != [] {
      StepKeepsInv(s, acts[0]);
      StepKeepsFresh(s, acts[0]);
      AliveRunsKeepFresh(Next(s, acts[0]), acts[1..], r);
    }
  }

  /** In a run whose lookups all find their inodes alive, ilock always shows the inode that was meant, also when
      ialloc reuses a number that iput is still freeing. */
  lemma NoIlockPanics(s0: State, acts: seq<Action>, s: State, k: nat)
    requires Initial(s0) && LeadsAlive(s0, acts, s) && In(s, k, Acquired)
    ensures SeesOwnInode(s, k)
  {
    hide Inv, FreshOk, Enabled, Next, Initial, SeesOwnInode;
    InitialOk(s0);
    InitialFresh(s0);
    AliveRunsKeepFresh(s0, acts, s);
    AllLive(s, k);
    IlockSeesOwnInode(s, k);
  }

  lemma InitialFresh(s: State)
    requires Initial(s)
    ensures FreshOk(s.disk, s.refs, s.entered)
  {
  }

  // ----- A number whose inode is gone -----

  /** A lookup of the number after its inode was freed: ilock panics. */
  lemma StaleNumberPanics() returns (s: State)
    ensures Reachable(s) && In(s, 2, Acquired) && s.refs[2].gen == 0 && Panics(s, 2)
  {
    hide Reachable;
    s := RunFreed();
    s := Go(s, Drop(0), Entry(0, 1, false, FREE, None), FREE, map[]);
    s := Go(s, Lookup(2, 1, 0, 0), Entry(1, 1, false, FREE, None), FREE, map[2 := Ref(1, 0, 0, Held, false)]);
    s := Go(s, Acquire(2), Entry(1, 1, false, FREE, Some(2)), FREE, map[2 := Ref(1, 0, 0, Acquired, false)]);
  }

  /** A lookup after the number was allocated again: ilock shows the new inode. */
  lemma StaleNumberMisleads() returns (s: State)
    ensures Reachable(s) && In(s, 2, Acquired) && s.refs[2].gen == 0 && !Panics(s, 2)
    ensures Next(s, Read(2)).table[s.refs[2].entry].mem.gen == 1
  {
    hide Reachable;
    var r := Ref(1, 0, 0, Held, false);
    s := RunFreed();
    s := RunReuses(s);
    s := RunLocks(s);
    s := RunGivesUp(s);
    s := Go(s, Lookup(2, 1, 0, 0), Entry(1, 1, false, REUSED, None), REUSED, map[2 := r]);
    s := Go(s, Acquire(2), Entry(1, 1, false, REUSED, Some(2)), REUSED, map[2 := r.(pc := Acquired)]);
  }

  /** Exactly when iput of an unlinked inode frees it: no other reference to the entry exists, be it only one
      whose own iput has not yet got to ref--. */
  lemma IputFreesExactly(s: State, k: nat)
    requires Inv(s) && Enabled(s, Iput(k)) && s.table[s.refs[k].entry].valid
    requires s.table[s.refs[k].entry].mem.nlink == 0
    ensures (k in Next(s, Iput(k)).refs && Next(s, Iput(k)).refs[k].pc == Freeing) <==>
      forall x :: x in s.refs && s.refs[x].pc != Allocated && s.refs[x].entry == s.refs[k].entry ==> x == k
  {
    Clauses(s);
    RefFacts(s, k);
    var u := Uses(s.refs, s.refs[k].entry);
    if forall x :: x in s.refs && s.refs[x].pc != Allocated && s.refs[x].entry == s.refs[k].entry ==> x == k {
      assert u == {k};
    }
  }
}
