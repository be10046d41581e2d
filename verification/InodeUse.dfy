/** What ialloc, iget and iput of kernel/fs.c do to inode numbers and table slots, over the runs of module
    InodeTable. */
module InodeUse {
  import opened Prelude
  import opened InodeTable

  // ----- ialloc -----

  /** A new inode has the type asked for, no link and no content, and nobody has meant it before: every reference
      to its number and every directory entry with it is for an earlier inode.  Other inodes stay. */
  lemma IallocIsNew(s: State, k: nat, i: nat, kind: nat)
    requires Inv(s) && Enabled(s, Ialloc(k, i, kind))
    ensures var n := Next(s, Ialloc(k, i, kind));
      && i in n.disk && n.disk[i].kind == kind != 0 && n.disk[i].nlink == 0 && n.disk[i].content == 0
      && n.disk == s.disk[i := n.disk[i]] && n.table == s.table && n.entered == s.entered
      && k in n.refs && n.refs == s.refs[k := n.refs[k]] && n.refs[k].inum == i && n.refs[k].gen == n.disk[i].gen
      && (forall x :: x in s.refs && s.refs[x].inum == i ==> s.refs[x].gen < n.refs[k].gen)
      && forall g :: (i, g) in s.entered ==> g < n.refs[k].gen
  {
    hide RefsOk, Unique, LocksOk, CopiesOk;
    Clauses(s);
    forall x | x in s.refs && s.refs[x].inum == i
      ensures s.refs[x].gen <= s.disk[i].gen
    {
      assert GenOk(s.disk, s.refs, x);
    }
  }

  // ----- iget -----

  /** The inodes that references are held to. */
  ghost function InUse(refs: map<nat, Ref>): set<nat> { set k | k in refs && refs[k].pc != Allocated :: refs[k].inum }

  lemma SlotUsed(s: State, e: nat)
    requires Inv(s) && e < NINODE && s.table[e].ref > 0
    ensures s.table[e].inum in InUse(s.refs)
  {
    hide Unique, LocksOk, GensOk, CopiesOk, EnteredOk;
    Clauses(s);
    assert Uses(s.refs, e) != {};
    var k :| k in Uses(s.refs, e);
  }

  lemma UsedSlot(s: State, i: nat) returns (e: nat)
    requires Inv(s) && i in InUse(s.refs)
    ensures e < NINODE && s.table[e].ref > 0 && s.table[e].inum == i
  {
    hide Unique, LocksOk, GensOk, CopiesOk, EnteredOk;
    Clauses(s);
    var k :| k in s.refs && s.refs[k].pc != Allocated && s.refs[k].inum == i;
    e := s.refs[k].entry;
    Counted(s.table, s.disk, s.refs, k);
  }

  lemma SlotsDiffer(s: State)
    requires Inv(s) && forall e :: 0 <= e < NINODE ==> s.table[e].ref > 0
    ensures |InUse(s.refs)| >= NINODE
  {
    hide Inv;
    UniqueSlots(s);
    var nums: seq<nat> := seq(NINODE, e requires 0 <= e < NINODE => s.table[e].inum);
    DistinctSize(nums);
    forall i | i in nums
      ensures i in InUse(s.refs)
    {
      var e :| 0 <= e < NINODE && nums[e] == i;
      SlotUsed(s, e);
    }
    SubsetSize(Elements(nums), InUse(s.refs));
  }

  lemma UniqueSlots(s: State)
    requires Inv(s)
    ensures Shape(s) && Unique(s.table)
  {
    hide RefsOk, LocksOk, GensOk, CopiesOk, EnteredOk;
    Clauses(s);
  }

  lemma FewerInUse(s: State, e: nat)
    requires Inv(s) && e < NINODE && s.table[e].ref == 0
    ensures |InUse(s.refs)| < NINODE
  {
    hide Inv;
    UniqueSlots(s);
    var nums: seq<nat> := seq(NINODE - 1, x requires 0 <= x < NINODE - 1 => s.table[if x < e then x else x + 1].inum);
    forall i | i in InUse(s.refs)
      ensures i in nums
    {
      var x := UsedSlot(s, i);
      assert i == if x < e then nums[x] else nums[x - 1];
    }
    SetSize(nums);
    SubsetSize(InUse(s.refs), Elements(nums));
  }

  /** iget has a slot for inode i, and does not panic, exactly when i is in use or fewer than NINODE inodes are. */
  lemma IgetPanicsExactly(s: State, i: nat)
    requires Inv(s)
    ensures (exists e :: Slot(s, i, e)) <==> i in InUse(s.refs) || |InUse(s.refs)| < NINODE
  {
    hide Inv;
    UniqueSlots(s);
    if i in InUse(s.refs) {
      var e := UsedSlot(s, i);
      assert Slot(s, i, e);
    } else if e :| 0 <= e < NINODE && s.table[e].ref == 0 {
      FewerInUse(s, e);
      forall x | 0 <= x < NINODE && s.table[x].ref > 0
        ensures s.table[x].inum != i
      {
        SlotUsed(s, x);
      }
      assert Slot(s, i, e);
    } else {
      SlotsDiffer(s);
      if e :| Slot(s, i, e) {
        SlotUsed(s, e);
      }
    }
  }

  // ----- iput -----

  ghost predicate FreeEmpty(disk: map<nat, Inode>) {
    forall i :: i in disk && disk[i].kind == 0 ==> disk[i].content == 0 && disk[i].nlink == 0
  }

  /** After itrunc the copy has no content. */
  ghost predicate TruncatedOk(table: seq<Entry>, refs: map<nat, Ref>) {
    forall k :: k in refs && refs[k].pc == Truncated && refs[k].entry < |table| ==>
      table[refs[k].entry].mem.content == 0
  }

  ghost predicate EmptyOk(s: State) { FreeEmpty(s.disk) && TruncatedOk(s.table, s.refs) }

  /** The holder of an entry's lock is the only one past the lock. */
  lemma SoleHolder(s: State, k: nat)
    requires Inv(s) && k in s.refs && HasLock(s.refs[k].pc)
    ensures forall x :: x in s.refs && HasLock(s.refs[x].pc) && s.refs[x].entry == s.refs[k].entry ==> x == k
  {
    hide RefsOk, Unique, GensOk, CopiesOk, EnteredOk;
    Clauses(s);
  }

  lemma CopyAt(s: State, k: nat)
    requires Inv(s) && k in s.refs && HasLock(s.refs[k].pc) && s.refs[k].inum in s.disk
    ensures s.refs[k].entry < NINODE && s.table[s.refs[k].entry].inum == s.refs[k].inum
    ensures CopyOk(s.table[s.refs[k].entry], s.disk[s.refs[k].inum], Some(s.refs[k].pc))
  {
    hide Unique, GensOk, EnteredOk;
    Clauses(s);
    Counted(s.table, s.disk, s.refs, k);
  }

  /** A step that moves one reference and changes nothing about truncated inodes. */
  lemma EmptyMove(s: State, n: State, k: nat)
    requires EmptyOk(s) && Shape(s) && Shape(n) && n.disk == s.disk
    requires forall x :: x in n.refs && x != k ==> x in s.refs && n.refs[x] == s.refs[x]
    requires k in n.refs ==> n.refs[k].pc != Truncated || (k in s.refs && n.refs[k] == s.refs[k])
    requires forall x :: x in n.refs && n.refs[x].pc == Truncated && n.refs[x].entry < NINODE ==>
               n.table[n.refs[x].entry].mem == s.table[n.refs[x].entry].mem
    ensures EmptyOk(n)
  {
  }

  lemma ReadEmpty(s: State, k: nat)
    requires Inv(s) && EmptyOk(s) && In(s, k, Acquired) && !Panics(s, k)
    ensures EmptyOk(DoRead(s, k))
  {
    hide Inv;
    SoleHolder(s, k);
    EmptyMove(s, DoRead(s, k), k);
  }

  lemma ModifyEmpty(s: State, k: nat, d: Inode)
    requires Inv(s) && EmptyOk(s) && In(s, k, Locked) && Enabled(s, Modify(k, d))
    ensures EmptyOk(Next(s, Modify(k, d)))
  {
    hide Inv;
    SoleHolder(s, k);
    EmptyMove(s, Next(s, Modify(k, d)), k);
  }

  lemma IupdateEmpty(s: State, k: nat)
    requires Inv(s) && EmptyOk(s) && Enabled(s, Iupdate(k))
    ensures EmptyOk(Next(s, Iupdate(k)))
  {
    hide Inv;
    CopyAt(s, k);
  }

  lemma ItruncEmpty(s: State, k: nat)
    requires Inv(s) && EmptyOk(s) && Enabled(s, Itrunc(k))
    ensures EmptyOk(Next(s, Itrunc(k)))
  {
    hide Inv;
    CopyAt(s, k);
  }

  lemma EraseEmpty(s: State, k: nat)
    requires Inv(s) && EmptyOk(s) && Enabled(s, Erase(k))
    ensures EmptyOk(Next(s, Erase(k)))
  {
    hide Inv;
    CopyAt(s, k);
    SoleHolder(s, k);
  }

  lemma StepKeepsEmpty(s: State, a: Action)
    requires Inv(s) && EmptyOk(s) && Enabled(s, a)
    ensures EmptyOk(Next(s, a))
  {
    hide Inv, EmptyOk, Alive;
    match a {
      case Ialloc(k, i, kind) => IallocEmpty(s, k, i, kind);
      case Read(k) => ReadEmpty(s, k);
      case Modify(k, d) => ModifyEmpty(s, k, d);
      case Iupdate(k) => IupdateEmpty(s, k);
      case Itrunc(k) => ItruncEmpty(s, k);
      case Erase(k) => EraseEmpty(s, k);
      case _ =>
        UniqueSlots(s);
        EmptyMove(s, Next(s, a), a.k);
    }
  }

  lemma IallocEmpty(s: State, k: nat, i: nat, kind: nat)
    requires EmptyOk(s) && Enabled(s, Ialloc(k, i, kind))
    ensures EmptyOk(Next(s, Ialloc(k, i, kind)))
  {
  }

  lemma {:induction false} RunsKeepEmpty(s: State, acts: seq<Action>, r: State)
    requires Inv(s) && EmptyOk(s) && Leads(s, acts, r)
    ensures EmptyOk(r)
    decreases |acts|
  {
    hide Inv, EmptyOk, Enabled, Next;
    if acts != [] {
      StepKeepsInv(s, acts[0]);
      StepKeepsEmpty(s, acts[0]);
      RunsKeepEmpty(Next(s, acts[0]), acts[1..], r);
    }
  }

  /** iput gives an inode back only after its content and its last link are gone: in no run is there ever a free
      inode with content or links, if there was none at first. */
  lemma FreeInodesEmpty(s0: State, acts: seq<Action>, s: State)
    requires Initial(s0) && FreeEmpty(s0.disk) && Leads(s0, acts, s)
    ensures FreeEmpty(s.disk)
  {
    hide Inv, Leads;
    InitialOk(s0);
    RunsKeepEmpty(s0, acts, s);
  }
}
