/** The block and inode content layers of kernel/fs.c on top of a plain disk (what the log and the buffer
    cache present): the bitmap allocator, the direct and indirect block map, truncation, and reading and
    writing of byte ranges.  Inodes are kept as records; their byte layout is not modelled. */
module Fs {
  import opened Prelude
  import opened Blocks

  const NDIRECT: nat := 12
  const MAXFILE: nat := 268
  const IPB: nat := 16

  /** Slots of an inode: direct blocks, then the indirect block, then what it lists. */
  const IND: nat := 12
  const NREF: nat := 269

  datatype Sb = Sb(size: nat, datastart: nat, bmapstart: nat, inodestart: nat, ninodes: nat)

  function BBlock(sb: Sb, b: nat): nat { b / BPB + sb.bmapstart }

  function IBlock(sb: Sb, i: nat): nat { i / IPB + sb.inodestart }

  /** mkfs: inode blocks, bitmap blocks, data blocks. */
  predicate LayoutOk(sb: Sb) {
    && 0 < sb.datastart <= sb.size < 0x8000_0000 && sb.ninodes > 0
    && IBlock(sb, sb.ninodes - 1) < sb.bmapstart && BBlock(sb, sb.size - 1) < sb.datastart
  }

  datatype Inode = Inode(addrs: seq<nat>, size: nat)

  // ----- Who refers to which block -----

  function Ref(disk: seq<Block>, a: seq<nat>, k: nat): nat
    requires |a| == 13 && k < NREF
  {
    if k <= IND then a[k]
    else if a[IND] == 0 || a[IND] >= |disk| then 0
    else Word(disk[a[IND]], k - IND - 1)
  }

  function R(disk: seq<Block>, inodes: seq<Inode>, i: nat, k: nat): nat {
    if i < |inodes| && |inodes[i].addrs| == 13 && k < NREF then Ref(disk, inodes[i].addrs, k) else 0
  }

  predicate Used(sb: Sb, disk: seq<Block>, b: nat)
    requires LayoutOk(sb) && |disk| == sb.size && b < sb.size
  {
    Bit(disk[BBlock(sb, b)], b % BPB)
  }

  /** Entries of file ip's indirect block before this one are about to be dropped. */
  predicate Dropped(i: nat, k: nat, ip: nat, n: nat) { i == ip && IND < k <= IND + n }

  type Owners = map<nat, (nat, nat)>

  /** Every block in use outside the metadata has one owner, an inode's slot that refers to it; every
      reference is owned; bitmap bits are set for exactly metadata and owned blocks. */
  ghost predicate OwnedBut(sb: Sb, disk: seq<Block>, inodes: seq<Inode>, owner: Owners, ip: nat, n: nat) {
    && LayoutOk(sb) && |disk| == sb.size
    && (forall b :: b in owner ==>
          && sb.datastart <= b < sb.size && owner[b].0 < |inodes| && owner[b].1 < NREF
          && R(disk, inodes, owner[b].0, owner[b].1) == b && !Dropped(owner[b].0, owner[b].1, ip, n))
    && (forall i: nat, k: nat :: i < |inodes| && k < NREF && !Dropped(i, k, ip, n) && R(disk, inodes, i, k) != 0 ==>
          R(disk, inodes, i, k) in owner && owner[R(disk, inodes, i, k)] == (i, k))
    && (forall b :: 0 <= b < sb.size ==> (Used(sb, disk, b) <==> b < sb.datastart || b in owner))
  }

  ghost predicate Owned(sb: Sb, disk: seq<Block>, inodes: seq<Inode>, owner: Owners) {
    OwnedBut(sb, disk, inodes, owner, 0, 0)
  }

  // ----- File contents -----

  function Slot(n: nat): nat { if n < NDIRECT then n else n + 1 }

  /** The block holding byte off of inode i, and the byte: 0 where there is no block. */
  function DataRef(disk: seq<Block>, inodes: seq<Inode>, i: nat, off: nat): nat {
    R(disk, inodes, i, Slot(off / BSIZE))
  }

  function ByteAt(disk: seq<Block>, inodes: seq<Inode>, i: nat, off: nat): Byte {
    var b := DataRef(disk, inodes, i, off);
    if 0 < b < |disk| then disk[b][off % BSIZE] else 0
  }

  /** Blocks covering [0, size) are allocated. */
  ghost predicate InodesOk(sb: Sb, disk: seq<Block>, inodes: seq<Inode>) {
    && |inodes| == sb.ninodes
    && (forall i :: 0 <= i < |inodes| ==> |inodes[i].addrs| == 13 && inodes[i].size <= MAXFILE * BSIZE)
    && (forall i, n :: 0 <= i < |inodes| && 0 <= n < MAXFILE && n * BSIZE < inodes[i].size ==>
          R(disk, inodes, i, Slot(n)) != 0)
  }

  /** A file as a flat byte sequence. */
  function File(disk: seq<Block>, inodes: seq<Inode>, i: nat): (f: seq<Byte>)
    requires i < |inodes|
    ensures |f| == inodes[i].size && forall off :: 0 <= off < |f| ==> f[off] == ByteAt(disk, inodes, i, off)
  {
    seq(inodes[i].size, off requires off >= 0 => ByteAt(disk, inodes, i, off))
  }

  // ----- Marking, clearing and zeroing -----

  function Mark(sb: Sb, disk: seq<Block>, b: nat): (d: seq<Block>)
    requires LayoutOk(sb) && |disk| == sb.size && b < sb.size
    ensures |d| == sb.size
  {
    disk[BBlock(sb, b) := SetBit(disk[BBlock(sb, b)], b % BPB)]
  }

  function Unmark(sb: Sb, disk: seq<Block>, b: nat): (d: seq<Block>)
    requires LayoutOk(sb) && |disk| == sb.size && b < sb.size
    ensures |d| == sb.size
  {
    disk[BBlock(sb, b) := ClearBit(disk[BBlock(sb, b)], b % BPB)]
  }

  lemma BBlockOf(sb: Sb, b: nat)
    requires LayoutOk(sb) && b < sb.size
    ensures BBlock(sb, b) < sb.datastart <= sb.size && sb.bmapstart <= BBlock(sb, b)
  {
  }

  /** Two blocks have the same bit only if they are the same block. */
  lemma SameBit(b: nat, c: nat)
    requires b / BPB == c / BPB && b % BPB == c % BPB
    ensures b == c
  {
  }

  lemma UsedMark(sb: Sb, disk: seq<Block>, b: nat, c: nat)
    requires LayoutOk(sb) && |disk| == sb.size && b < sb.size && c < sb.size
    ensures Used(sb, Mark(sb, disk, b), c) <==> c == b || Used(sb, disk, c)
  {
    BBlockOf(sb, b);
    BBlockOf(sb, c);
    if BBlock(sb, b) == BBlock(sb, c) {
      BitOfSet(disk[BBlock(sb, b)], b % BPB, c % BPB);
      if b % BPB == c % BPB { SameBit(b, c); }
    }
  }

  lemma UsedUnmark(sb: Sb, disk: seq<Block>, b: nat, c: nat)
    requires LayoutOk(sb) && |disk| == sb.size && b < sb.size && c < sb.size
    ensures Used(sb, Unmark(sb, disk, b), c) <==> c != b && Used(sb, disk, c)
  {
    BBlockOf(sb, b);
    BBlockOf(sb, c);
    if BBlock(sb, b) == BBlock(sb, c) {
      BitOfClear(disk[BBlock(sb, b)], b % BPB, c % BPB);
      if b % BPB == c % BPB { SameBit(b, c); }
    }
  }

  /** A reference depends on the disk only through the inode's indirect block. */
  lemma RefSame(disk: seq<Block>, disk': seq<Block>, inodes: seq<Inode>, i: nat, k: nat)
    requires |disk| == |disk'|
    requires i < |inodes| && |inodes[i].addrs| == 13 && 0 < inodes[i].addrs[IND] < |disk| ==>
               disk'[inodes[i].addrs[IND]] == disk[inodes[i].addrs[IND]]
    ensures R(disk', inodes, i, k) == R(disk, inodes, i, k)
  {
  }

  /** The disk after balloc has taken b. */
  function Taken(sb: Sb, disk: seq<Block>, b: nat): (d: seq<Block>)
    requires LayoutOk(sb) && |disk| == sb.size && b < sb.size
    ensures |d| == sb.size
  {
    Mark(sb, disk, b)[b := Zero()]
  }

  /** Taking an unowned block changes no reference. */
  lemma TakenRefs(sb: Sb, disk: seq<Block>, inodes: seq<Inode>, owner: Owners, b: nat, i: nat, k: nat)
    requires Owned(sb, disk, inodes, owner) && sb.datastart <= b < sb.size && b !in owner
    ensures R(Taken(sb, disk, b), inodes, i, k) == R(disk, inodes, i, k)
  {
    BBlockOf(sb, b);
    if i < |inodes| && |inodes[i].addrs| == 13 {
      assert R(disk, inodes, i, IND) == inodes[i].addrs[IND];
      RefSame(disk, Taken(sb, disk, b), inodes, i, k);
    }
  }

  lemma TakenUsed(sb: Sb, disk: seq<Block>, b: nat, c: nat)
    requires LayoutOk(sb) && |disk| == sb.size && sb.datastart <= b < sb.size && c < sb.size
    ensures Used(sb, Taken(sb, disk, b), c) <==> c == b || Used(sb, disk, c)
  {
    BBlockOf(sb, c);
    UsedMark(sb, disk, b, c);
  }

  function SetSlot(inodes: seq<Inode>, i: nat, k: nat, b: nat): (r: seq<Inode>)
    requires i < |inodes| && |inodes[i].addrs| == 13 && k <= IND
    ensures |r| == |inodes|
  {
    inodes[i := inodes[i].(addrs := inodes[i].addrs[k := b])]
  }

  /** balloc for an empty direct slot, or for the missing indirect block. */
  lemma AssignDirectRefs(sb: Sb, disk: seq<Block>, inodes: seq<Inode>, owner: Owners, i: nat, k: nat, b: nat, j: nat,
                         m: nat)
    requires Owned(sb, disk, inodes, owner) && sb.datastart <= b < sb.size && b !in owner
    requires i < |inodes| && |inodes[i].addrs| == 13 && k <= IND && inodes[i].addrs[k] == 0
    ensures R(Taken(sb, disk, b), SetSlot(inodes, i, k, b), j, m) ==
            if j == i && m == k then b else R(disk, inodes, j, m)
  {
    TakenRefs(sb, disk, inodes, owner, b, j, m);
    if j == i && k == IND && IND < m < NREF {
      WordOfZero(m - IND - 1);
    }
  }

  lemma AssignDirect(sb: Sb, disk: seq<Block>, inodes: seq<Inode>, owner: Owners, i: nat, k: nat, b: nat)
    requires Owned(sb, disk, inodes, owner) && sb.datastart <= b < sb.size && b !in owner
    requires i < |inodes| && |inodes[i].addrs| == 13 && k <= IND && inodes[i].addrs[k] == 0
    ensures Owned(sb, Taken(sb, disk, b), SetSlot(inodes, i, k, b), owner[b := (i, k)])
  {
    var d, ns := Taken(sb, disk, b), SetSlot(inodes, i, k, b);
    forall j: nat, m: nat
      ensures R(d, ns, j, m) == if j == i && m == k then b else R(disk, inodes, j, m)
    {
      AssignDirectRefs(sb, disk, inodes, owner, i, k, b, j, m);
    }
    forall c | 0 <= c < sb.size ensures Used(sb, d, c) <==> c == b || Used(sb, disk, c) {
      TakenUsed(sb, disk, b, c);
    }
    assert R(disk, inodes, i, k) == 0;
  }

  function SetEntry(disk: seq<Block>, ind: nat, e: nat, b: nat): (d: seq<Block>)
    requires ind < |disk| && e < NINDIRECT && b < 0x1_0000_0000
    ensures |d| == |disk|
  {
    disk[ind := PutWord(disk[ind], e, b)]
  }

  /** balloc for an empty entry of the indirect block. */
  lemma AssignEntryRefs(sb: Sb, disk: seq<Block>, inodes: seq<Inode>, owner: Owners, i: nat, e: nat, b: nat, j: nat,
                        m: nat)
    requires Owned(sb, disk, inodes, owner) && sb.datastart <= b < sb.size && b !in owner
    requires i < |inodes| && |inodes[i].addrs| == 13 && e < NINDIRECT && 0 < inodes[i].addrs[IND] < sb.size
    ensures R(SetEntry(Taken(sb, disk, b), inodes[i].addrs[IND], e, b), inodes, j, m)
            == if j == i && m == IND + 1 + e then b else R(disk, inodes, j, m)
  {
    var ind := inodes[i].addrs[IND];
    var d := Taken(sb, disk, b);
    TakenRefs(sb, disk, inodes, owner, b, j, m);
    assert R(disk, inodes, i, IND) == ind;
    if j == i {
      if IND < m < NREF {
        WordOfPut(d[ind], e, b, m - IND - 1);
      }
    } else if j < |inodes| && |inodes[j].addrs| == 13 {
      assert R(disk, inodes, j, IND) == inodes[j].addrs[IND];
      RefSame(d, SetEntry(d, ind, e, b), inodes, j, m);
    }
  }

  lemma AssignEntry(sb: Sb, disk: seq<Block>, inodes: seq<Inode>, owner: Owners, i: nat, e: nat, b: nat)
    requires Owned(sb, disk, inodes, owner) && sb.datastart <= b < sb.size && b !in owner
    requires i < |inodes| && |inodes[i].addrs| == 13 && e < NINDIRECT && 0 < inodes[i].addrs[IND] < sb.size
    requires R(disk, inodes, i, IND + 1 + e) == 0
    ensures Owned(sb, SetEntry(Taken(sb, disk, b), inodes[i].addrs[IND], e, b), inodes, owner[b := (i, IND + 1 + e)])
  {
    hide R, SetEntry, Taken, Used;
    var ind := inodes[i].addrs[IND];
    var d := SetEntry(Taken(sb, disk, b), ind, e, b);
    forall j: nat, m: nat
      ensures R(d, inodes, j, m) == if j == i && m == IND + 1 + e then b else R(disk, inodes, j, m)
    {
      AssignEntryRefs(sb, disk, inodes, owner, i, e, b, j, m);
    }
    RefAt(disk, inodes, i, IND);
    forall c | 0 <= c < sb.size ensures Used(sb, d, c) <==> c == b || Used(sb, disk, c) {
      TakenUsed(sb, disk, b, c);
      EntryUsed(sb, Taken(sb, disk, b), ind, e, b, c);
    }
  }

  lemma RefAt(disk: seq<Block>, inodes: seq<Inode>, i: nat, k: nat)
    requires i < |inodes| && |inodes[i].addrs| == 13 && k <= IND
    ensures R(disk, inodes, i, k) == inodes[i].addrs[k]
  {
  }

  lemma EntryUsed(sb: Sb, disk: seq<Block>, ind: nat, e: nat, b: nat, c: nat)
    requires LayoutOk(sb) && |disk| == sb.size && sb.datastart <= ind < sb.size && e < NINDIRECT && b < sb.size
    requires c < sb.size
    ensures Used(sb, SetEntry(disk, ind, e, b), c) == Used(sb, disk, c)
  {
  }

  // ----- Releasing -----

  lemma UnmarkRefs(sb: Sb, disk: seq<Block>, inodes: seq<Inode>, owner: Owners, ip: nat, n: nat, b: nat, i: nat, k: nat)
    requires OwnedBut(sb, disk, inodes, owner, ip, n) && b < sb.size
    ensures R(Unmark(sb, disk, b), inodes, i, k) == R(disk, inodes, i, k)
  {
    BBlockOf(sb, b);
    if i < |inodes| && |inodes[i].addrs| == 13 {
      assert R(disk, inodes, i, IND) == inodes[i].addrs[IND];
      RefSame(disk, Unmark(sb, disk, b), inodes, i, k);
    }
  }

  lemma Unowned(sb: Sb, disk: seq<Block>, inodes: seq<Inode>, owner: Owners, ip: nat, n: nat, b: nat)
    requires OwnedBut(sb, disk, inodes, owner, ip, n) && b in owner
    ensures Used(sb, disk, b)
    ensures var d := Unmark(sb, disk, b);
      && (forall i: nat, k: nat :: R(d, inodes, i, k) == R(disk, inodes, i, k))
      && (forall c :: 0 <= c < sb.size ==> (Used(sb, d, c) <==> c < sb.datastart || c in owner - {b}))
  {
    var d := Unmark(sb, disk, b);
    forall i: nat, k: nat ensures R(d, inodes, i, k) == R(disk, inodes, i, k) {
      UnmarkRefs(sb, disk, inodes, owner, ip, n, b, i, k);
    }
    forall c | 0 <= c < sb.size ensures Used(sb, d, c) <==> c < sb.datastart || c in owner - {b} {
      UsedUnmark(sb, disk, b, c);
    }
  }

  /** itrunc on a direct slot. */
  lemma FreeDirect(sb: Sb, disk: seq<Block>, inodes: seq<Inode>, owner: Owners, i: nat, k: nat)
    requires Owned(sb, disk, inodes, owner) && i < |inodes| && |inodes[i].addrs| == 13 && k < IND
    requires inodes[i].addrs[k] != 0
    ensures var b := inodes[i].addrs[k];
      b in owner && Used(sb, disk, b) && Owned(sb, Unmark(sb, disk, b), SetSlot(inodes, i, k, 0), owner - {b})
  {
    hide Used, Unmark;
    var b := inodes[i].addrs[k];
    assert R(disk, inodes, i, k) == b;
    Unowned(sb, disk, inodes, owner, 0, 0, b);
    var d, ns := Unmark(sb, disk, b), SetSlot(inodes, i, k, 0);
    forall j: nat, m: nat ensures R(d, ns, j, m) == if j == i && m == k then 0 else R(disk, inodes, j, m) {
      assert R(d, inodes, j, m) == R(disk, inodes, j, m);
    }
  }

  /** itrunc on entry n of the indirect block, which is not rewritten. */
  lemma DropEntry(sb: Sb, disk: seq<Block>, inodes: seq<Inode>, owner: Owners, i: nat, n: nat)
    requires OwnedBut(sb, disk, inodes, owner, i, n) && i < |inodes| && |inodes[i].addrs| == 13 && n < NINDIRECT
    ensures var b := R(disk, inodes, i, IND + 1 + n);
      if b == 0 then OwnedBut(sb, disk, inodes, owner, i, n + 1)
      else b in owner && b != inodes[i].addrs[IND] && Used(sb, disk, b) && OwnedBut(sb, Unmark(sb, disk, b), inodes, owner - {b}, i, n + 1)
  {
    hide R, Used, Unmark;
    var b := R(disk, inodes, i, IND + 1 + n);
    RefAt(disk, inodes, i, IND);
    if b != 0 {
      Unowned(sb, disk, inodes, owner, i, n, b);
    }
  }

  /** itrunc on the indirect block itself, after all its entries. */
  lemma FreeIndirect(sb: Sb, disk: seq<Block>, inodes: seq<Inode>, owner: Owners, i: nat)
    requires OwnedBut(sb, disk, inodes, owner, i, NINDIRECT) && i < |inodes| && |inodes[i].addrs| == 13
    requires inodes[i].addrs[IND] != 0
    ensures var b := inodes[i].addrs[IND];
      b in owner && Used(sb, disk, b) && Owned(sb, Unmark(sb, disk, b), SetSlot(inodes, i, IND, 0), owner - {b})
  {
    hide R, Used, Unmark, SetSlot;
    var b := inodes[i].addrs[IND];
    RefAt(disk, inodes, i, IND);
    Unowned(sb, disk, inodes, owner, i, NINDIRECT, b);
    var d, ns := Unmark(sb, disk, b), SetSlot(inodes, i, IND, 0);
    forall j: nat, m: nat ensures R(d, ns, j, m) == if j == i && m >= IND then 0 else R(disk, inodes, j, m) {
      NoIndirect(d, inodes, i, j, m);
    }
  }

  lemma NoIndirect(disk: seq<Block>, inodes: seq<Inode>, i: nat, j: nat, m: nat)
    requires i < |inodes| && |inodes[i].addrs| == 13
    ensures R(disk, SetSlot(inodes, i, IND, 0), j, m) == if j == i && m >= IND then 0 else R(disk, inodes, j, m)
  {
  }

  // ----- What the steps do to file contents -----

  /** Same sizes, and every byte of every file the same. */
  ghost predicate SameFiles(disk: seq<Block>, inodes: seq<Inode>, disk': seq<Block>, inodes': seq<Inode>) {
    && |inodes'| == |inodes| && (forall j :: 0 <= j < |inodes| ==> inodes'[j].size == inodes[j].size)
    && forall j: nat, off: nat :: ByteAt(disk', inodes', j, off) == ByteAt(disk, inodes, j, off)
  }

  /** Every reference is kept, apart from empty slots of ip that are filled. */
  ghost predicate RefsGrow(disk: seq<Block>, inodes: seq<Inode>, disk': seq<Block>, inodes': seq<Inode>) {
    forall j: nat, m: nat :: R(disk, inodes, j, m) != 0 ==> R(disk', inodes', j, m) == R(disk, inodes, j, m)
  }

  lemma DataBlockByte(sb: Sb, disk: seq<Block>, inodes: seq<Inode>, owner: Owners, b: nat, j: nat, off: nat)
    requires Owned(sb, disk, inodes, owner) && sb.datastart <= b < sb.size && b !in owner
    ensures var c := DataRef(disk, inodes, j, off); 0 < c < sb.size ==> Taken(sb, disk, b)[c] == disk[c] && c != b
  {
  }

  lemma DirectBytes(sb: Sb, disk: seq<Block>, inodes: seq<Inode>, owner: Owners, i: nat, k: nat, b: nat)
    requires Owned(sb, disk, inodes, owner) && sb.datastart <= b < sb.size && b !in owner
    requires i < |inodes| && |inodes[i].addrs| == 13 && k <= IND && inodes[i].addrs[k] == 0
    ensures SameFiles(disk, inodes, Taken(sb, disk, b), SetSlot(inodes, i, k, b))
    ensures RefsGrow(disk, inodes, Taken(sb, disk, b), SetSlot(inodes, i, k, b))
  {
    var d, ns := Taken(sb, disk, b), SetSlot(inodes, i, k, b);
    forall j: nat, m: nat
      ensures R(d, ns, j, m) == if j == i && m == k then b else R(disk, inodes, j, m)
    {
      AssignDirectRefs(sb, disk, inodes, owner, i, k, b, j, m);
    }
    RefAt(disk, inodes, i, k);
    forall j: nat, off: nat ensures ByteAt(d, ns, j, off) == ByteAt(disk, inodes, j, off) {
      DataBlockByte(sb, disk, inodes, owner, b, j, off);
    }
  }

  lemma EntryBytes(sb: Sb, disk: seq<Block>, inodes: seq<Inode>, owner: Owners, i: nat, e: nat, b: nat)
    requires Owned(sb, disk, inodes, owner) && sb.datastart <= b < sb.size && b !in owner
    requires i < |inodes| && |inodes[i].addrs| == 13 && e < NINDIRECT && 0 < inodes[i].addrs[IND] < sb.size
    requires R(disk, inodes, i, IND + 1 + e) == 0
    ensures var d := SetEntry(Taken(sb, disk, b), inodes[i].addrs[IND], e, b);
      SameFiles(disk, inodes, d, inodes) && RefsGrow(disk, inodes, d, inodes)
  {
    var ind := inodes[i].addrs[IND];
    var d := SetEntry(Taken(sb, disk, b), ind, e, b);
    forall j: nat, m: nat
      ensures R(d, inodes, j, m) == if j == i && m == IND + 1 + e then b else R(disk, inodes, j, m)
    {
      AssignEntryRefs(sb, disk, inodes, owner, i, e, b, j, m);
    }
    RefAt(disk, inodes, i, IND);
    forall j: nat, off: nat ensures ByteAt(d, inodes, j, off) == ByteAt(disk, inodes, j, off) {
      DataBlockByte(sb, disk, inodes, owner, b, j, off);
      NotIndirect(sb, disk, inodes, owner, i, j, off);
    }
  }

  /** A data block is no inode's indirect block. */
  lemma NotIndirect(sb: Sb, disk: seq<Block>, inodes: seq<Inode>, owner: Owners, i: nat, j: nat, off: nat)
    requires Owned(sb, disk, inodes, owner) && i < |inodes| && |inodes[i].addrs| == 13 && inodes[i].addrs[IND] != 0
    ensures DataRef(disk, inodes, j, off) != inodes[i].addrs[IND]
  {
    RefAt(disk, inodes, i, IND);
    assert Slot(off / BSIZE) != IND;
    if DataRef(disk, inodes, j, off) != 0 {
      assert R(disk, inodes, j, Slot(off / BSIZE)) == DataRef(disk, inodes, j, off);
    }
  }

  /** Growing references keeps files covered. */
  lemma GrowKeepsInodes(sb: Sb, disk: seq<Block>, inodes: seq<Inode>, disk': seq<Block>, inodes': seq<Inode>)
    requires InodesOk(sb, disk, inodes) && RefsGrow(disk, inodes, disk', inodes') && |inodes'| == |inodes|
    requires forall j :: 0 <= j < |inodes| ==> inodes'[j].size == inodes[j].size && |inodes'[j].addrs| == 13
    ensures InodesOk(sb, disk', inodes')
  {
  }

  /** Storing into the data block of file block n of inode i. */
  lemma StoreRefs(sb: Sb, disk: seq<Block>, inodes: seq<Inode>, owner: Owners, i: nat, n: nat, blk: Block)
    requires Owned(sb, disk, inodes, owner) && i < |inodes| && n < MAXFILE && R(disk, inodes, i, Slot(n)) != 0
    ensures var b := R(disk, inodes, i, Slot(n));
      && sb.datastart <= b < sb.size
      && (forall j: nat, m: nat :: R(disk[b := blk], inodes, j, m) == R(disk, inodes, j, m))
      && Owned(sb, disk[b := blk], inodes, owner)
  {
    var b := R(disk, inodes, i, Slot(n));
    var d := disk[b := blk];
    forall j: nat, m: nat ensures R(d, inodes, j, m) == R(disk, inodes, j, m) {
      if j < |inodes| && |inodes[j].addrs| == 13 {
        RefAt(disk, inodes, j, IND);
        RefSame(disk, d, inodes, j, m);
      }
    }
    forall c | 0 <= c < sb.size ensures Used(sb, d, c) == Used(sb, disk, c) {
      BBlockOf(sb, c);
    }
  }

  lemma StoreBytes(sb: Sb, disk: seq<Block>, inodes: seq<Inode>, owner: Owners, i: nat, n: nat, blk: Block, j: nat,
                   off: nat)
    requires Owned(sb, disk, inodes, owner) && i < |inodes| && n < MAXFILE && R(disk, inodes, i, Slot(n)) != 0
    ensures var b := R(disk, inodes, i, Slot(n));
      && b < |disk|
      && ByteAt(disk[b := blk], inodes, j, off) ==
          if j == i && off / BSIZE == n then blk[off % BSIZE] else ByteAt(disk, inodes, j, off)
  {
    var b := R(disk, inodes, i, Slot(n));
    StoreRefs(sb, disk, inodes, owner, i, n, blk);
    var m := Slot(off / BSIZE);
    if R(disk, inodes, j, m) == b {
      assert owner[b] == (j, m) && owner[b] == (i, Slot(n));
    }
  }

  lemma BitOfBlock(b0: nat, bi: nat)
    requires b0 % BPB == 0 && bi < BPB
    ensures (b0 + bi) / BPB == b0 / BPB && (b0 + bi) % BPB == bi
  {
  }

  ghost predicate Full(sb: Sb, disk: seq<Block>)
    requires LayoutOk(sb) && |disk| == sb.size
  {
    forall c :: 0 <= c < sb.size ==> Used(sb, disk, c)
  }

  /** Blocks logged for a file's indirect block: the block and its bitmap block. */
  ghost function IndirectLog(sb: Sb, inodes: seq<Inode>, ip: nat): (s: set<nat>)
    requires ip < |inodes| && |inodes[ip].addrs| == 13
    ensures |s| <= 2
  {
    var ind := inodes[ip].addrs[IND];
    if ind == 0 then {} else {ind, BBlock(sb, ind)}
  }

  /** Blocks logged when file block bn is allocated at addr: the block, its bitmap block, the indirect
      block if it lists the block, and that one's bitmap block if it was missing too. */
  ghost function NewLog(sb: Sb, n0: seq<Inode>, inodes: seq<Inode>, ip: nat, bn: nat, addr: nat): set<nat>
    requires ip < |n0| && ip < |inodes| && |n0[ip].addrs| == |inodes[ip].addrs| == 13
  {
    var ind := inodes[ip].addrs[IND];
    {addr, BBlock(sb, addr)}
    + (if bn < NDIRECT then {} else {ind})
    + (if bn < NDIRECT || n0[ip].addrs[IND] != 0 then {} else {BBlock(sb, ind)})
  }

  /** No file block of ip other than bn is allocated. */
  ghost predicate RestSame(disk: seq<Block>, inodes: seq<Inode>, disk': seq<Block>, inodes': seq<Inode>, ip: nat,
                           bn: nat) {
    forall n: nat :: n != bn ==> R(disk', inodes', ip, Slot(n)) == R(disk, inodes, ip, Slot(n))
  }

  lemma RestOf(disk: seq<Block>, inodes: seq<Inode>, disk': seq<Block>, inodes': seq<Inode>, ip: nat, bn: nat)
    requires forall m: nat :: m != Slot(bn) && m != IND ==> R(disk', inodes', ip, m) == R(disk, inodes, ip, m)
    ensures RestSame(disk, inodes, disk', inodes', ip, bn)
  {
  }

  lemma NewLogFacts(sb: Sb, n0: seq<Inode>, inodes: seq<Inode>, ip: nat, bn: nat, addr: nat)
    requires ip < |n0| && ip < |inodes| && |n0[ip].addrs| == |inodes[ip].addrs| == 13
    requires bn >= NDIRECT ==> inodes[ip].addrs[IND] != 0
    ensures addr in NewLog(sb, n0, inodes, ip, bn, addr)
    ensures NewLog(sb, n0, inodes, ip, bn, addr) <= IndirectLog(sb, inodes, ip) + {addr, BBlock(sb, addr)}
  {
  }

  /** A listed block has an indirect block. */
  lemma EntryHasIndirect(disk: seq<Block>, inodes: seq<Inode>, i: nat, bn: nat)
    requires i < |inodes| && |inodes[i].addrs| == 13 && R(disk, inodes, i, Slot(bn)) != 0
    ensures bn >= NDIRECT ==> inodes[i].addrs[IND] != 0
  {
  }

  lemma SameRefl(disk: seq<Block>, inodes: seq<Inode>)
    ensures SameFiles(disk, inodes, disk, inodes) && RefsGrow(disk, inodes, disk, inodes)
  {
  }

  lemma SameTrans(d0: seq<Block>, n0: seq<Inode>, d1: seq<Block>, n1: seq<Inode>, d2: seq<Block>, n2: seq<Inode>)
    requires SameFiles(d0, n0, d1, n1) && SameFiles(d1, n1, d2, n2) && RefsGrow(d0, n0, d1, n1)
    requires RefsGrow(d1, n1, d2, n2)
    ensures SameFiles(d0, n0, d2, n2) && RefsGrow(d0, n0, d2, n2)
  {
  }

  lemma AddrsLen(sb: Sb, disk: seq<Block>, inodes: seq<Inode>, i: nat)
    requires InodesOk(sb, disk, inodes) && i < |inodes|
    ensures |inodes[i].addrs| == 13
  {
  }

  lemma NoEntries(disk: seq<Block>, inodes: seq<Inode>, i: nat, e: nat)
    requires i < |inodes| && |inodes[i].addrs| == 13 && inodes[i].addrs[IND] == 0
    ensures R(disk, inodes, i, IND + 1 + e) == 0
  {
  }

  // ----- itrunc -----

  /** Outside the metadata nothing is stored. */
  ghost predicate SameData(sb: Sb, disk: seq<Block>, disk': seq<Block>) {
    |disk'| == |disk| && forall c :: sb.datastart <= c < |disk| ==> disk'[c] == disk[c]
  }

  ghost predicate OthersKept(inodes: seq<Inode>, inodes': seq<Inode>, ip: nat) {
    |inodes'| == |inodes| && forall j :: 0 <= j < |inodes| && j != ip ==> inodes'[j] == inodes[j]
  }

  /** Of the old owners, those are left that are not slots of ip before slot n (direct first). */
  ghost predicate OwnersLeft(owner: Owners, owner': Owners, ip: nat, n: nat) {
    forall b :: (b in owner' <==> b in owner && !(owner[b].0 == ip && owner[b].1 < n)) && (b in owner' ==>
        owner'[b] == owner[b])
  }

  /** The same while the indirect block, slot IND, waits for its n entries. */
  ghost predicate EntriesLeft(owner: Owners, owner': Owners, ip: nat, n: nat) {
    forall b :: (b in owner' <==> b in owner && !(owner[b].0 == ip && (owner[b].1 < IND || IND < owner[b].1 <= IND + n)))
      && (b in owner' ==> owner'[b] == owner[b])
  }

  lemma UnmarkData(sb: Sb, disk: seq<Block>, b: nat)
    requires LayoutOk(sb) && |disk| == sb.size && b < sb.size
    ensures SameData(sb, disk, Unmark(sb, disk, b))
  {
  }

  /** Files other than ip read the same. */
  ghost predicate OtherFilesSame(disk: seq<Block>, inodes: seq<Inode>, disk': seq<Block>, inodes': seq<Inode>,
                                 ip: nat) {
    OthersKept(inodes, inodes', ip) && forall j: nat, off: nat :: j != ip ==>
        ByteAt(disk', inodes', j, off) == ByteAt(disk, inodes, j, off)
  }

  lemma SameDataRefs(sb: Sb, disk: seq<Block>, inodes: seq<Inode>, owner: Owners, disk': seq<Block>,
                     inodes': seq<Inode>, ip: nat, j: nat, m: nat)
    requires Owned(sb, disk, inodes, owner) && SameData(sb, disk, disk') && OthersKept(inodes, inodes', ip) && j != ip
    ensures R(disk', inodes', j, m) == R(disk, inodes, j, m)
  {
    if j < |inodes| && |inodes[j].addrs| == 13 {
      RefAt(disk, inodes, j, IND);
      RefSame(disk, disk', inodes, j, m);
    }
  }

  lemma SameDataBytes(sb: Sb, disk: seq<Block>, inodes: seq<Inode>, owner: Owners, disk': seq<Block>,
                      inodes': seq<Inode>, ip: nat)
    requires Owned(sb, disk, inodes, owner) && SameData(sb, disk, disk') && OthersKept(inodes, inodes', ip)
    ensures OtherFilesSame(disk, inodes, disk', inodes', ip)
  {
    forall j: nat, off: nat | j != ip ensures ByteAt(disk', inodes', j, off) == ByteAt(disk, inodes, j, off) {
      SameDataRefs(sb, disk, inodes, owner, disk', inodes', ip, j, Slot(off / BSIZE));
      var b := R(disk, inodes, j, Slot(off / BSIZE));
      if b != 0 {
        assert b in owner;
      }
    }
  }

  lemma TruncatedOk(sb: Sb, disk: seq<Block>, inodes: seq<Inode>, owner: Owners, disk': seq<Block>, inodes': seq<Inode>,
                    ip: nat)
    requires Owned(sb, disk, inodes, owner) && InodesOk(sb, disk, inodes) && SameData(sb, disk, disk')
    requires OthersKept(inodes, inodes', ip)
    requires ip < |inodes| && |inodes'[ip].addrs| == 13 && inodes'[ip].size == 0
    ensures InodesOk(sb, disk', inodes')
  {
    forall i: nat, n: nat | i < |inodes'| && n < MAXFILE && n * BSIZE < inodes'[i].size
      ensures R(disk', inodes', i, Slot(n)) != 0
    {
      SameDataRefs(sb, disk, inodes, owner, disk', inodes', ip, i, Slot(n));
    }
  }

  /** One direct slot of itrunc, seen from the start of the loop. */
  lemma DirectStep(sb: Sb, d0: seq<Block>, o0: Owners, disk: seq<Block>, inodes: seq<Inode>, owner: Owners, ip: nat,
                   k: nat)
    requires Owned(sb, disk, inodes, owner) && ip < |inodes| && |inodes[ip].addrs| == 13 && k < IND
    requires SameData(sb, d0, disk) && OwnersLeft(o0, owner, ip, k)
    ensures var b := inodes[ip].addrs[k];
      if b == 0 then OwnersLeft(o0, owner, ip, k + 1)
      else
        && b < sb.size && Used(sb, disk, b) && SameData(sb, d0, Unmark(sb, disk, b))
        && Owned(sb, Unmark(sb, disk, b), SetSlot(inodes, ip, k, 0), owner - {b})
        && OwnersLeft(o0, owner - {b}, ip, k + 1) && IsBitmap(sb, BBlock(sb, b))
  {
    hide Used, R, Unmark;
    var b := inodes[ip].addrs[k];
    RefAt(disk, inodes, ip, k);
    if b != 0 {
      FreeDirect(sb, disk, inodes, owner, ip, k);
      UnmarkData(sb, disk, b);
      BBlockOf(sb, b);
      assert owner[b] == (ip, k);
    } else {
      forall c | c in owner && owner[c].0 == ip ensures owner[c].1 != k {
        assert R(disk, inodes, owner[c].0, owner[c].1) == c;
      }
    }
  }

  /** One entry of the indirect block, seen from the start of itrunc. */
  lemma EntryStep(sb: Sb, d0: seq<Block>, o0: Owners, disk: seq<Block>, inodes: seq<Inode>, owner: Owners, ip: nat,
                  n: nat)
    requires OwnedBut(sb, disk, inodes, owner, ip, n) && ip < |inodes| && |inodes[ip].addrs| == 13 && n < NINDIRECT
    requires SameData(sb, d0, disk) && EntriesLeft(o0, owner, ip, n)
    ensures var b := R(disk, inodes, ip, IND + 1 + n);
      if b == 0 then OwnedBut(sb, disk, inodes, owner, ip, n + 1) && EntriesLeft(o0, owner, ip, n + 1)
      else
        && b < sb.size && Used(sb, disk, b) && SameData(sb, d0, Unmark(sb, disk, b))
        && OwnedBut(sb, Unmark(sb, disk, b), inodes, owner - {b}, ip, n + 1)
        && EntriesLeft(o0, owner - {b}, ip, n + 1) && IsBitmap(sb, BBlock(sb, b))
  {
    hide Used, R, Unmark;
    var b := R(disk, inodes, ip, IND + 1 + n);
    DropEntry(sb, disk, inodes, owner, ip, n);
    if b != 0 {
      UnmarkData(sb, disk, b);
      BBlockOf(sb, b);
      assert owner[b] == (ip, IND + 1 + n);
    } else {
      forall c | c in owner && owner[c].0 == ip ensures owner[c].1 != IND + 1 + n {
        assert R(disk, inodes, owner[c].0, owner[c].1) == c;
      }
    }
  }

  lemma StartEntries(sb: Sb, disk: seq<Block>, inodes: seq<Inode>, owner: Owners, o0: Owners, ip: nat)
    requires Owned(sb, disk, inodes, owner) && OwnersLeft(o0, owner, ip, IND)
    ensures OwnedBut(sb, disk, inodes, owner, ip, 0) && EntriesLeft(o0, owner, ip, 0)
  {
  }

  /** The indirect block after its last entry. */
  lemma IndirectStep(sb: Sb, d0: seq<Block>, o0: Owners, disk: seq<Block>, inodes: seq<Inode>, owner: Owners, ip: nat)
    requires OwnedBut(sb, disk, inodes, owner, ip, NINDIRECT) && ip < |inodes| && |inodes[ip].addrs| == 13
    requires inodes[ip].addrs[IND] != 0
    requires SameData(sb, d0, disk) && EntriesLeft(o0, owner, ip, NINDIRECT) && (forall b :: b in o0 ==> o0[b].1 < NREF)
    ensures var b := inodes[ip].addrs[IND];
      && b < sb.size && Used(sb, disk, b) && SameData(sb, d0, Unmark(sb, disk, b))
      && Owned(sb, Unmark(sb, disk, b), SetSlot(inodes, ip, IND, 0), owner - {b})
      && OwnersLeft(o0, owner - {b}, ip, NREF) && IsBitmap(sb, BBlock(sb, b))
  {
    hide Used, R, Unmark;
    var b := inodes[ip].addrs[IND];
    RefAt(disk, inodes, ip, IND);
    FreeIndirect(sb, disk, inodes, owner, ip);
    UnmarkData(sb, disk, b);
    BBlockOf(sb, b);
    assert owner[b] == (ip, IND);
    forall c | c in owner && owner[c].0 == ip ensures c == b {
      assert R(disk, inodes, owner[c].0, owner[c].1) == c;
    }
  }

  /** With no indirect block there is nothing more to free. */
  lemma NoIndirectStep(sb: Sb, o0: Owners, disk: seq<Block>, inodes: seq<Inode>, owner: Owners, ip: nat)
    requires Owned(sb, disk, inodes, owner) && ip < |inodes| && |inodes[ip].addrs| == 13 && inodes[ip].addrs[IND] == 0
    requires OwnersLeft(o0, owner, ip, IND) && (forall b :: b in o0 ==> o0[b].1 < NREF)
    ensures OwnersLeft(o0, owner, ip, NREF)
  {
  }

  lemma ButFacts(sb: Sb, disk: seq<Block>, inodes: seq<Inode>, owner: Owners, ip: nat)
    requires Owned(sb, disk, inodes, owner) && ip < |inodes| && |inodes[ip].addrs| == 13 && inodes[ip].addrs[IND] != 0
    ensures LayoutOk(sb) && |disk| == sb.size && sb.datastart <= inodes[ip].addrs[IND] < sb.size
  {
    RefAt(disk, inodes, ip, IND);
  }

  lemma UnmarkKeeps(sb: Sb, disk: seq<Block>, b: nat, c: nat)
    requires LayoutOk(sb) && |disk| == sb.size && b < sb.size && sb.datastart <= c < sb.size
    ensures Unmark(sb, disk, b)[c] == disk[c]
  {
  }

  /** References do not depend on sizes. */
  lemma SizeOnly(sb: Sb, disk: seq<Block>, inodes: seq<Inode>, owner: Owners, ip: nat, size: nat)
    requires Owned(sb, disk, inodes, owner) && ip < |inodes|
    ensures Owned(sb, disk, inodes[ip := inodes[ip].(size := size)], owner)
    ensures forall j: nat, m: nat :: R(disk, inodes[ip := inodes[ip].(size := size)], j, m) == R(disk, inodes, j, m)
  {
    var ns := inodes[ip := inodes[ip].(size := size)];
    assert forall j: nat, m: nat :: R(disk, ns, j, m) == R(disk, inodes, j, m);
  }

  lemma TruncatedUse(sb: Sb, d0: seq<Block>, n0: seq<Inode>, o0: Owners, disk: seq<Block>, inodes: seq<Inode>,
                     owner: Owners, ip: nat)
    requires Owned(sb, d0, n0, o0) && Owned(sb, disk, inodes, owner) && OwnersLeft(o0, owner, ip, NREF)
    ensures forall b :: 0 <= b < sb.size ==>
      (Used(sb, disk, b) <==> Used(sb, d0, b) && !(b in o0 && o0[b].0 == ip))
  {
  }

  lemma StartFree(sb: Sb, disk: seq<Block>, inodes: seq<Inode>, owner: Owners, ip: nat)
    requires Owned(sb, disk, inodes, owner) && InodesOk(sb, disk, inodes) && ip < |inodes|
    ensures LayoutOk(sb) && |disk| == sb.size && |inodes[ip].addrs| == 13
    ensures SameData(sb, disk, disk) && OwnersLeft(owner, owner, ip, 0)
  {
  }

  ghost predicate IsBitmap(sb: Sb, b: nat) { sb.bmapstart <= b < sb.datastart }

  // ----- readi -----

  /** How many bytes readi delivers. */
  function ReadCount(size: nat, off: nat, n: nat): nat {
    if off > size || off + n >= 0x1_0000_0000 then 0 else if off + n > size then size - off else n
  }

  function Part(f: seq<Byte>, off: nat, n: nat): seq<Byte> { if off + n <= |f| then f[off..off + n] else [] }

  lemma SameBlock(o: nat, y: nat)
    requires o <= y && o % BSIZE + (y - o) < BSIZE
    ensures y / BSIZE == o / BSIZE && y % BSIZE == o % BSIZE + (y - o)
  {
  }

  /** A piece of a file that lies in one block is a slice of that block. */
  lemma PieceOf(sb: Sb, disk: seq<Block>, inodes: seq<Inode>, owner: Owners, ip: nat, o: nat, m: nat)
    requires Owned(sb, disk, inodes, owner) && ip < |inodes| && o % BSIZE + m <= BSIZE && o + m <= inodes[ip].size
    requires R(disk, inodes, ip, Slot(o / BSIZE)) != 0
    ensures var b := R(disk, inodes, ip, Slot(o / BSIZE));
      b < |disk| && File(disk, inodes, ip)[o..o + m] == disk[b][o % BSIZE..o % BSIZE + m]
  {
    hide Owned, R, Slot;
    var b, k := R(disk, inodes, ip, Slot(o / BSIZE)), o % BSIZE;
    OwnedInRange(sb, disk, inodes, owner, ip, Slot(o / BSIZE));
    var f, g := File(disk, inodes, ip), disk[b];
    forall y | o <= y < o + m ensures f[y] == g[y - o + k] {
      SameBlock(o, y);
    }
    SlicesEqual(f, g, o, k, m);
  }

  lemma SlicesEqual(f: seq<Byte>, g: seq<Byte>, o: nat, k: nat, m: nat)
    requires o + m <= |f| && k + m <= |g| && forall y :: o <= y < o + m ==> f[y] == g[y - o + k]
    ensures f[o..o + m] == g[k..k + m]
  {
  }

  lemma OwnedInRange(sb: Sb, disk: seq<Block>, inodes: seq<Inode>, owner: Owners, i: nat, k: nat)
    requires Owned(sb, disk, inodes, owner) && R(disk, inodes, i, k) != 0
    ensures sb.datastart <= R(disk, inodes, i, k) < sb.size == |disk|
  {
  }

  lemma PartGrows(f: seq<Byte>, off: nat, tot: nat, m: nat)
    requires off + tot + m <= |f|
    ensures Part(f, off, tot) + f[off + tot..off + tot + m] == Part(f, off, tot + m)
  {
  }

  lemma Covered(sb: Sb, disk: seq<Block>, inodes: seq<Inode>, i: nat, o: nat)
    requires InodesOk(sb, disk, inodes) && i < |inodes| && o < inodes[i].size
    ensures o / BSIZE < MAXFILE && R(disk, inodes, i, Slot(o / BSIZE)) != 0
  {
  }

  // ----- writei -----

  /** Every byte of every file the same, except that file ip holds data from offset off on. */
  ghost predicate Written(disk: seq<Block>, inodes: seq<Inode>, disk': seq<Block>, inodes': seq<Inode>, ip: nat,
                          off: nat, data: seq<Byte>) {
    forall j: nat, x: nat ::
      ByteAt(disk', inodes', j, x) ==
          if j == ip && off <= x < off + |data| then data[x - off] else ByteAt(disk, inodes, j, x)
  }

  function Patched(blk: Block, k: nat, piece: seq<Byte>): (p: Block)
    requires k + |piece| <= BSIZE
    ensures forall y :: 0 <= y < BSIZE ==> p[y] == if k <= y < k + |piece| then piece[y - k] else blk[y]
  {
    blk[..k] + piece + blk[k + |piece|..]
  }

  /** What storing a piece into its block does. */
  lemma StorePiece(sb: Sb, disk: seq<Block>, inodes: seq<Inode>, owner: Owners, ip: nat, o: nat, piece: seq<Byte>)
    requires Owned(sb, disk, inodes, owner) && InodesOk(sb, disk, inodes) && ip < |inodes| && o / BSIZE < MAXFILE
    requires o % BSIZE + |piece| <= BSIZE && R(disk, inodes, ip, Slot(o / BSIZE)) != 0
    ensures var b := R(disk, inodes, ip, Slot(o / BSIZE));
      && b < |disk|
      && (var d := disk[b := Patched(disk[b], o % BSIZE, piece)];
          && Owned(sb, d, inodes, owner) && InodesOk(sb, d, inodes) && RefsGrow(disk, inodes, d, inodes)
          && (forall m: nat :: R(d, inodes, ip, m) == R(disk, inodes, ip, m))
          && Written(disk, inodes, d, inodes, ip, o, piece))
  {
    var b := R(disk, inodes, ip, Slot(o / BSIZE));
    OwnedInRange(sb, disk, inodes, owner, ip, Slot(o / BSIZE));
    var blk := Patched(disk[b], o % BSIZE, piece);
    StoreRefs(sb, disk, inodes, owner, ip, o / BSIZE, blk);
    var d := disk[b := blk];
    forall j: nat, x: nat
      ensures ByteAt(d, inodes, j, x) ==
              if j == ip && o <= x < o + |piece| then piece[x - o] else ByteAt(disk, inodes, j, x)
    {
      StoreBytes(sb, disk, inodes, owner, ip, o / BSIZE, blk, j, x);
      InPiece(o, |piece|, x);
    }
  }

  lemma InPiece(o: nat, m: nat, x: nat)
    requires o % BSIZE + m <= BSIZE
    ensures o <= x < o + m <==> x / BSIZE == o / BSIZE && o % BSIZE <= x % BSIZE < o % BSIZE + m
    ensures o <= x < o + m ==> x % BSIZE - o % BSIZE == x - o
  {
  }

  lemma GrowTrans(d0: seq<Block>, n0: seq<Inode>, d1: seq<Block>, n1: seq<Inode>, d2: seq<Block>, n2: seq<Inode>)
    requires RefsGrow(d0, n0, d1, n1) && RefsGrow(d1, n1, d2, n2)
    ensures RefsGrow(d0, n0, d2, n2)
  {
  }

  /** Exactly the blocks logged for writing into file block bn, from the state before to the state after. */
  ghost function BlockLog(sb: Sb, d0: seq<Block>, n0: seq<Inode>, disk: seq<Block>, inodes: seq<Inode>, ip: nat,
                          bn: nat): set<nat>
    requires ip < |n0| && ip < |inodes| && |n0[ip].addrs| == |inodes[ip].addrs| == 13
  {
    var a := R(disk, inodes, ip, Slot(bn));
    if R(d0, n0, ip, Slot(bn)) == 0 then NewLog(sb, n0, inodes, ip, bn, a) else {a}
  }

  /** Exactly the blocks logged for writing into the k file blocks from s on. */
  ghost function LogSet(sb: Sb, d0: seq<Block>, n0: seq<Inode>, disk: seq<Block>, inodes: seq<Inode>, ip: nat, s: nat,
                        k: nat): set<nat>
    requires ip < |n0| && ip < |inodes| && |n0[ip].addrs| == |inodes[ip].addrs| == 13
  {
    if k == 0 then {}
    else LogSet(sb, d0, n0, disk, inodes, ip, s, k - 1) + BlockLog(sb, d0, n0, disk, inodes, ip, s + k - 1)
  }

  ghost predicate ExactLog(sb: Sb, d0: seq<Block>, n0: seq<Inode>, l0: set<nat>, disk: seq<Block>, inodes: seq<Inode>,
                           logged: set<nat>,
                           ip: nat, s: nat, k: nat)
  {
    && ip < |n0| && ip < |inodes| && |n0[ip].addrs| == |inodes[ip].addrs| == 13
    && logged == l0 + LogSet(sb, d0, n0, disk, inodes, ip, s, k)
    && (forall n: nat :: n >= s + k ==> R(disk, inodes, ip, Slot(n)) == R(d0, n0, ip, Slot(n)))
    && (forall n: nat :: s <= n < s + k ==> R(disk, inodes, ip, Slot(n)) != 0)
    && (n0[ip].addrs[IND] != 0 ==> inodes[ip].addrs[IND] == n0[ip].addrs[IND])
    && (n0[ip].addrs[IND] == 0 && inodes[ip].addrs[IND] != 0 ==>
          BBlock(sb, inodes[ip].addrs[IND]) in LogSet(sb, d0, n0, disk, inodes, ip, s, k))
  }

  lemma {:induction false} LogSetStable(sb: Sb, d0: seq<Block>, n0: seq<Inode>, d1: seq<Block>, n1: seq<Inode>,
                                        d2: seq<Block>, n2: seq<Inode>,
                                        ip: nat, s: nat, k: nat)
    requires ip < |n0| && ip < |n1| && ip < |n2| && |n0[ip].addrs| == |n1[ip].addrs| == |n2[ip].addrs| == 13
    requires RefsGrow(d1, n1, d2, n2) && forall n: nat :: s <= n < s + k ==> R(d1, n1, ip, Slot(n)) != 0
    ensures LogSet(sb, d0, n0, d2, n2, ip, s, k) == LogSet(sb, d0, n0, d1, n1, ip, s, k)
    decreases k
  {
    if k > 0 {
      LogSetStable(sb, d0, n0, d1, n1, d2, n2, ip, s, k - 1);
      var bn := s + k - 1;
      assert R(d1, n1, ip, Slot(bn)) != 0;
      EntryHasIndirect(d1, n1, ip, bn);
      RefAt(d1, n1, ip, IND);
      RefAt(d2, n2, ip, IND);
    }
  }

  lemma ExactStep(sb: Sb, d0: seq<Block>, n0: seq<Inode>, l0: set<nat>, d1: seq<Block>, n1: seq<Inode>, l1: set<nat>,
                  d2: seq<Block>, n2: seq<Inode>, l2: set<nat>, ip: nat, s: nat, k: nat)
    requires ExactLog(sb, d0, n0, l0, d1, n1, l1, ip, s, k) && ip < |n2| && |n2[ip].addrs| == 13
    requires RefsGrow(d1, n1, d2, n2) && RestSame(d1, n1, d2, n2, ip, s + k) && R(d2, n2, ip, Slot(s + k)) != 0
    requires n2[ip].addrs[IND] != n1[ip].addrs[IND] ==> s + k >= NDIRECT && R(d1, n1, ip, Slot(s + k)) == 0
    requires l2 == l1 + BlockLog(sb, d1, n1, d2, n2, ip, s + k)
    ensures ExactLog(sb, d0, n0, l0, d2, n2, l2, ip, s, k + 1)
  {
    hide R, Slot;
    LogSetStable(sb, d0, n0, d1, n1, d2, n2, ip, s, k);
    RefAt(d1, n1, ip, IND);
    RefAt(d2, n2, ip, IND);
    assert R(d1, n1, ip, Slot(s + k)) == R(d0, n0, ip, Slot(s + k));
    var done := LogSet(sb, d0, n0, d2, n2, ip, s, k);
    assert LogSet(sb, d0, n0, d2, n2, ip, s, k + 1) == done + BlockLog(sb, d0, n0, d2, n2, ip, s + k);
    forall n: nat | n >= s + k + 1 ensures R(d2, n2, ip, Slot(n)) == R(d0, n0, ip, Slot(n)) {
      assert R(d1, n1, ip, Slot(n)) == R(d0, n0, ip, Slot(n));
    }
    forall n: nat | s <= n < s + k + 1 ensures R(d2, n2, ip, Slot(n)) != 0 {
      if n < s + k {
        assert R(d1, n1, ip, Slot(n)) != 0;
      }
    }
  }

  datatype Piece = NoBlock | NoCopy | Stored

  /** f with w written at off, extended if needed. */
  function Splice(f: seq<Byte>, off: nat, w: seq<Byte>): (r: seq<Byte>)
    requires off <= |f|
    ensures |r| == if off + |w| > |f| then off + |w| else |f|
  {
    f[..off] + w + if off + |w| < |f| then f[off + |w|..] else []
  }

  /** File blocks below byte end are allocated. */
  ghost predicate CoveredTo(disk: seq<Block>, inodes: seq<Inode>, ip: nat, end: nat) {
    forall m: nat :: m < MAXFILE && m * BSIZE < end ==> R(disk, inodes, ip, Slot(m)) != 0
  }

  /** The size update at the end of writei. */
  lemma FinishInodes(sb: Sb, disk: seq<Block>, inodes: seq<Inode>, owner: Owners, ip: nat, end: nat)
    requires Owned(sb, disk, inodes, owner) && InodesOk(sb, disk, inodes) && ip < |inodes| && end <= MAXFILE * BSIZE
    requires CoveredTo(disk, inodes, ip, end)
    ensures var ns := inodes[ip := inodes[ip].(size := end)];
      Owned(sb, disk, ns, owner) && InodesOk(sb, disk, ns) && forall j: nat, x: nat :: ByteAt(disk, ns, j, x) == ByteAt(disk, inodes, j, x)
  {
    SizeOnly(sb, disk, inodes, owner, ip, end);
    var ns := inodes[ip := inodes[ip].(size := end)];
    assert forall j: nat, m: nat :: R(disk, ns, j, m) == R(disk, inodes, j, m);
  }

  lemma FinishFile(d0: seq<Block>, n0: seq<Inode>, disk: seq<Block>, inodes: seq<Inode>, ip: nat, off: nat,
                   data: seq<Byte>)
    requires ip < |n0| == |inodes| && Written(d0, n0, disk, inodes, ip, off, data) && off <= n0[ip].size
    requires inodes[ip].size == if off + |data| > n0[ip].size then off + |data| else n0[ip].size
    ensures File(disk, inodes, ip) == Splice(File(d0, n0, ip), off, data)
  {
    var f, g := File(d0, n0, ip), File(disk, inodes, ip);
    var h := Splice(f, off, data);
    forall x | 0 <= x < |g| ensures g[x] == h[x] {
      assert ByteAt(disk, inodes, ip, x) == if off <= x < off + |data| then data[x - off] else ByteAt(d0, n0, ip, x);
    }
  }

  /** A piece at the end of what is written so far. */
  lemma WrittenMore(d0: seq<Block>, n0: seq<Inode>, d1: seq<Block>, n1: seq<Inode>, d2: seq<Block>, n2: seq<Inode>,
                    ip: nat, off: nat, src: seq<Byte>, tot: nat, m: nat)
    requires tot + m <= |src| && Written(d0, n0, d1, n1, ip, off, src[..tot])
    requires Written(d1, n1, d2, n2, ip, off + tot, src[tot..tot + m])
    ensures Written(d0, n0, d2, n2, ip, off, src[..tot + m])
  {
    hide ByteAt;
    var a, b, c := src[..tot], src[tot..tot + m], src[..tot + m];
    forall j: nat, x: nat
      ensures ByteAt(d2, n2, j, x) == if j == ip && off <= x < off + |c| then c[x - off] else ByteAt(d0, n0, j, x)
    {
      assert ByteAt(d1, n1, j, x) == if j == ip && off <= x < off + tot then a[x - off] else ByteAt(d0, n0, j, x);
      assert ByteAt(d2, n2, j, x) ==
             if j == ip && off + tot <= x < off + tot + m then b[x - off - tot] else ByteAt(d1, n1, j, x);
    }
  }

  lemma WrittenRefl(disk: seq<Block>, inodes: seq<Inode>, ip: nat, o: nat)
    ensures Written(disk, inodes, disk, inodes, ip, o, [])
  {
  }

  lemma SameWritten(d0: seq<Block>, n0: seq<Inode>, d1: seq<Block>, n1: seq<Inode>, ip: nat, o: nat)
    requires SameFiles(d0, n0, d1, n1)
    ensures Written(d0, n0, d1, n1, ip, o, [])
  {
  }

  lemma NoneWritten(d0: seq<Block>, n0: seq<Inode>, d1: seq<Block>, n1: seq<Inode>, d2: seq<Block>, n2: seq<Inode>,
                    ip: nat, o: nat, data: seq<Byte>)
    requires Written(d0, n0, d1, n1, ip, o, []) && Written(d1, n1, d2, n2, ip, o, data)
    ensures Written(d0, n0, d2, n2, ip, o, data)
  {
  }

  lemma WrittenNone(d0: seq<Block>, n0: seq<Inode>, d1: seq<Block>, n1: seq<Inode>, d2: seq<Block>, n2: seq<Inode>,
                    ip: nat, off: nat, data: seq<Byte>, o: nat)
    requires Written(d0, n0, d1, n1, ip, off, data) && Written(d1, n1, d2, n2, ip, o, [])
    ensures Written(d0, n0, d2, n2, ip, off, data)
  {
  }

  lemma CoveredMore(d0: seq<Block>, n0: seq<Inode>, d1: seq<Block>, n1: seq<Inode>, ip: nat, o: nat, m: nat)
    requires CoveredTo(d0, n0, ip, o) && RefsGrow(d0, n0, d1, n1) && o % BSIZE + m <= BSIZE
    requires m > 0 ==> R(d1, n1, ip, Slot(o / BSIZE)) != 0
    ensures CoveredTo(d1, n1, ip, o + m)
  {
  }

  // ----- How many blocks one write logs -----

  /** Blocks that the byte range [off, off + n) touches. */
  function Touched(off: nat, n: nat): nat { if n == 0 then 0 else (off + n - 1) / BSIZE - off / BSIZE + 1 }

  /** Each touched block and, unless it exists, its bitmap block; the indirect block and its bitmap block;
      the inode block.  The first block of an unaligned write exists. */
  function LogBound(off: nat, n: nat): nat {
    2 * Touched(off, n) + 3 - if off % BSIZE != 0 && n > 0 then 1 else 0
  }

  /** The blocks logged so far fit the bound after k blocks of the range. */
  ghost predicate LoggedOk(sb: Sb, l0: set<nat>, logged: set<nat>, inodes: seq<Inode>, ip: nat,
                           data: set<nat>, maps: set<nat>, k: nat, unaligned: bool)
  {
    && ip < |inodes| && |inodes[ip].addrs| == 13
    && logged <= l0 + IndirectLog(sb, inodes, ip) + data + maps
    && |data| <= k && |maps| <= k - if unaligned && k > 0 then 1 else 0
  }

  lemma UnionSize(a: set<nat>, b: set<nat>)
    ensures |a + b| <= |a| + |b|
    decreases |b|
  {
  }

  lemma LoggedSize(sb: Sb, l0: set<nat>, logged: set<nat>, inodes: seq<Inode>, ip: nat,
                   data: set<nat>, maps: set<nat>, k: nat, unaligned: bool)
    requires LoggedOk(sb, l0, logged, inodes, ip, data, maps, k, unaligned)
    ensures |logged + {IBlock(sb, ip)}| <= |l0| + 3 + 2 * k - if unaligned && k > 0 then 1 else 0
  {
    var ind := IndirectLog(sb, inodes, ip);
    var all := l0 + ind + data + maps;
    SubsetSize(logged, all);
    UnionSize(l0 + ind + data, maps);
    UnionSize(l0 + ind, data);
    UnionSize(l0, ind);
    UnionSize(logged, {IBlock(sb, ip)});
  }

  lemma LoggedMore(sb: Sb, l0: set<nat>, l1: set<nat>, l2: set<nat>, n1: seq<Inode>, n2: seq<Inode>, ip: nat,
                   data: set<nat>, maps: set<nat>, k: nat, unaligned: bool, addr: nat, new0: bool)
    requires LoggedOk(sb, l0, l1, n1, ip, data, maps, k, unaligned)
    requires ip < |n2| && |n2[ip].addrs| == 13 && (n1[ip].addrs[IND] != 0 ==> n2[ip].addrs[IND] == n1[ip].addrs[IND])
    requires l2 <= l1 + IndirectLog(sb, n2, ip) + {addr} + if new0 then {BBlock(sb, addr)} else {}
    requires unaligned && k == 0 ==> !new0
    ensures LoggedOk(sb, l0, l2, n2, ip, data + {addr}, maps + if new0 then {BBlock(sb, addr)} else {}, k + 1, unaligned)
  {
  }

  lemma GrowKeepsIndirect(disk: seq<Block>, inodes: seq<Inode>, disk': seq<Block>, inodes': seq<Inode>, ip: nat)
    requires RefsGrow(disk, inodes, disk', inodes') && ip < |inodes| == |inodes'|
    requires |inodes[ip].addrs| == |inodes'[ip].addrs| == 13
    ensures inodes[ip].addrs[IND] != 0 ==> inodes'[ip].addrs[IND] == inodes[ip].addrs[IND]
  {
    RefAt(disk, inodes, ip, IND);
    RefAt(disk', inodes', ip, IND);
  }

  /** Where the loop of writei stands: tot bytes done, k blocks touched. */
  predicate AtPiece(off: nat, n: nat, tot: nat, k: nat) {
    && tot <= n && (tot < n ==> (off + tot) / BSIZE == off / BSIZE + k && (tot == 0 || (off + tot) % BSIZE == 0))
    && (tot == n && n > 0 ==> k == Touched(off, n)) && (tot == 0 ==> k == 0)
  }

  lemma AllTouched(off: nat, n: nat, k: nat)
    requires AtPiece(off, n, n, k)
    ensures k == Touched(off, n)
  {
  }

  lemma NextPiece(off: nat, n: nat, tot: nat, k: nat)
    requires AtPiece(off, n, tot, k) && tot < n
    ensures var room := BSIZE - (off + tot) % BSIZE; var m := if n - tot < room then n - tot else room;
      m > 0 && AtPiece(off, n, tot + m, k + 1)
    ensures k < Touched(off, n) && (off + tot) / BSIZE <= (off + n - 1) / BSIZE
  {
  }

  /** After tot bytes, from state (d0, n0) and log l0: contents, allocation and logged blocks. */
  ghost predicate WriteState(sb: Sb, d0: seq<Block>, n0: seq<Inode>, l0: set<nat>, disk: seq<Block>, inodes: seq<Inode>,
                             logged: set<nat>,
                             ip: nat, off: nat, src: seq<Byte>, tot: nat, data: set<nat>, maps: set<nat>, k: nat)
  {
    && tot <= |src| && ip < |n0| && OthersKept(n0, inodes, ip) && inodes[ip].size == n0[ip].size
    && Written(d0, n0, disk, inodes, ip, off, src[..tot]) && CoveredTo(disk, inodes, ip, off + tot)
    && LoggedOk(sb, l0, logged, inodes, ip, data, maps, k, off % BSIZE != 0) && k <= Touched(off, |src|)
  }

  lemma StartWrite(sb: Sb, disk: seq<Block>, inodes: seq<Inode>, ip: nat, off: nat, src: seq<Byte>, logged: set<nat>)
    requires InodesOk(sb, disk, inodes) && ip < |inodes| && off <= inodes[ip].size
    ensures WriteState(sb, disk, inodes, logged, disk, inodes, logged, ip, off, src, 0, {}, {}, 0)
    ensures AtPiece(off, |src|, 0, 0)
    ensures ExactLog(sb, disk, inodes, logged, disk, inodes, logged, ip, off / BSIZE, 0)
  {
  }

  /** What one turn of the loop does, with the blocks it logs. */
  ghost predicate PieceDone(sb: Sb, d1: seq<Block>, n1: seq<Inode>, l1: set<nat>, d2: seq<Block>, n2: seq<Inode>,
                            l2: set<nat>,
                            ip: nat, o: nat, piece: seq<Byte>, st: Piece, addr: nat, new0: bool)
  {
    && ip < |n1| && OthersKept(n1, n2, ip) && n2[ip].size == n1[ip].size && |n1[ip].addrs| == |n2[ip].addrs| == 13
    && RefsGrow(d1, n1, d2, n2) && RestSame(d1, n1, d2, n2, ip, o / BSIZE)
    && Written(d1, n1, d2, n2, ip, o, if st == Stored then piece else [])
    && (st == Stored ==> R(d2, n2, ip, Slot(o / BSIZE)) != 0)
    && (new0 ==> R(d1, n1, ip, Slot(o / BSIZE)) == 0)
    && (n2[ip].addrs[IND] != n1[ip].addrs[IND] ==> o / BSIZE >= NDIRECT && R(d1, n1, ip, Slot(o / BSIZE)) == 0)
    && l2 <= l1 + IndirectLog(sb, n2, ip) + {addr} + (if new0 then {BBlock(sb, addr)} else {})
    && (st == Stored ==> l2 == l1 + BlockLog(sb, d1, n1, d2, n2, ip, o / BSIZE))
  }

  /** One turn of the loop. */
  lemma WriteStep(sb: Sb, d0: seq<Block>, n0: seq<Inode>, l0: set<nat>, d1: seq<Block>, n1: seq<Inode>, l1: set<nat>,
                  d2: seq<Block>, n2: seq<Inode>, l2: set<nat>, ip: nat, off: nat, src: seq<Byte>, tot: nat, m: nat,
                  data: set<nat>, maps: set<nat>, k: nat, addr: nat, new0: bool, st: Piece)
    requires WriteState(sb, d0, n0, l0, d1, n1, l1, ip, off, src, tot, data, maps, k)
    requires AtPiece(off, |src|, tot, k) && off + |src| <= MAXFILE * BSIZE && tot + m <= |src| && 0 < m
    requires (off + tot) % BSIZE + m <= BSIZE
    requires k < Touched(off, |src|) && InodesOk(sb, d1, n1) && InodesOk(sb, d2, n2)
    requires PieceDone(sb, d1, n1, l1, d2, n2, l2, ip, off + tot, src[tot..tot + m], st, addr, new0)
    requires ExactLog(sb, d0, n0, l0, d1, n1, l1, ip, off / BSIZE, k)
    ensures st == Stored ==> ExactLog(sb, d0, n0, l0, d2, n2, l2, ip, off / BSIZE, k + 1)
    ensures WriteState(sb, d0, n0, l0, d2, n2, l2, ip, off, src, if st == Stored then tot + m else tot,
                       data + {addr}, maps + if new0 then {BBlock(sb, addr)} else {}, k + 1)
  {
    hide Written, CoveredTo, LoggedOk, Touched, OthersKept, R, RefsGrow, IndirectLog, InodesOk, ExactLog, BlockLog,
        RestSame;
    FirstExists(sb, d1, n1, ip, off, tot, k, |src|);
    KeptTrans(n0, n1, n2, ip);
    Step(sb, d1, n1, d2, n2, ip);
    LoggedMore(sb, l0, l1, l2, n1, n2, ip, data, maps, k, off % BSIZE != 0, addr, new0);
    if st == Stored {
      WrittenMore(d0, n0, d1, n1, d2, n2, ip, off, src, tot, m);
      CoveredMore(d1, n1, d2, n2, ip, off + tot, m);
      ExactStep(sb, d0, n0, l0, d1, n1, l1, d2, n2, l2, ip, off / BSIZE, k);
    } else {
      WrittenNone(d0, n0, d1, n1, d2, n2, ip, off, src[..tot], off + tot);
      CoveredMore(d1, n1, d2, n2, ip, off + tot, 0);
    }
  }

  /** The first block of an unaligned write exists. */
  lemma FirstExists(sb: Sb, disk: seq<Block>, inodes: seq<Inode>, ip: nat, off: nat, tot: nat, k: nat, n: nat)
    requires CoveredTo(disk, inodes, ip, off + tot) && AtPiece(off, n, tot, k) && off + n <= MAXFILE * BSIZE && tot < n
    ensures off % BSIZE != 0 && k == 0 ==> R(disk, inodes, ip, Slot((off + tot) / BSIZE)) != 0
  {
  }

  lemma KeptTrans(n0: seq<Inode>, n1: seq<Inode>, n2: seq<Inode>, ip: nat)
    requires OthersKept(n0, n1, ip) && OthersKept(n1, n2, ip)
    ensures OthersKept(n0, n2, ip) && |n2| == |n1| == |n0|
  {
  }

  lemma Step(sb: Sb, d0: seq<Block>, n0: seq<Inode>, d1: seq<Block>, n1: seq<Inode>, ip: nat)
    requires InodesOk(sb, d0, n0) && InodesOk(sb, d1, n1) && RefsGrow(d0, n0, d1, n1) && ip < |n0|
    ensures ip < |n1| && |n1[ip].addrs| == 13 && |n0[ip].addrs| == 13
    ensures n0[ip].addrs[IND] != 0 ==> n1[ip].addrs[IND] == n0[ip].addrs[IND]
  {
    GrowKeepsIndirect(d0, n0, d1, n1, ip);
  }

  lemma FinishWritten(d0: seq<Block>, n0: seq<Inode>, disk: seq<Block>, n1: seq<Inode>, n2: seq<Inode>, ip: nat,
                      off: nat, data: seq<Byte>)
    requires OthersKept(n0, n1, ip) && OthersKept(n1, n2, ip) && Written(d0, n0, disk, n1, ip, off, data)
    requires forall j: nat, x: nat :: ByteAt(disk, n2, j, x) == ByteAt(disk, n1, j, x)
    ensures Written(d0, n0, disk, n2, ip, off, data) && OtherFilesSame(d0, n0, disk, n2, ip)
  {
  }

  /** Sizes do not matter for what was logged. */
  lemma FinishLog(sb: Sb, d0: seq<Block>, n0: seq<Inode>, l0: set<nat>, disk: seq<Block>, n1: seq<Inode>,
                  n2: seq<Inode>, logged: set<nat>,
                  ip: nat, s: nat, k: nat, all: bool)
    requires all ==> ExactLog(sb, d0, n0, l0, disk, n1, logged, ip, s, k)
    requires ip < |n0| && ip < |n1| && ip < |n2| && |n0[ip].addrs| == 13 && n2[ip].addrs == n1[ip].addrs
    requires |n1[ip].addrs| == 13
    requires forall j :: 0 <= j < |n2| && j != ip ==> j < |n1| && n2[j] == n1[j]
    ensures all ==> logged == l0 + LogSet(sb, d0, n0, disk, n2, ip, s, k)
  {
    if all {
      forall n: nat ensures R(disk, n2, ip, n) == R(disk, n1, ip, n) {
      }
      LogSetSame(sb, d0, n0, disk, n1, n2, ip, s, k);
    }
  }

  lemma {:induction false} LogSetSame(sb: Sb, d0: seq<Block>, n0: seq<Inode>, disk: seq<Block>, n1: seq<Inode>,
                                      n2: seq<Inode>, ip: nat, s: nat, k: nat)
    requires ip < |n0| && ip < |n1| && ip < |n2| && |n0[ip].addrs| == 13 && n2[ip].addrs == n1[ip].addrs
    requires |n1[ip].addrs| == 13
    ensures LogSet(sb, d0, n0, disk, n2, ip, s, k) == LogSet(sb, d0, n0, disk, n1, ip, s, k)
    decreases k
  {
    if k > 0 {
      LogSetSame(sb, d0, n0, disk, n1, n2, ip, s, k - 1);
    }
  }

  lemma LogFits(off: nat, n: nat, k: nat)
    requires k <= Touched(off, n)
    ensures 3 + 2 * k - (if off % BSIZE != 0 && k > 0 then 1 else 0) <= LogBound(off, n)
  {
  }

  // ----- filewrite -----

  /** ((MAXOPBLOCKS - 1 - 1 - 2) / 2) * BSIZE */
  const MAXCHUNK: nat := (MAXOPBLOCKS - 1 - 1 - 2) / 2 * BSIZE

  /** One chunk never logs more blocks than an operation reserves. */
  lemma ChunkFits(off: nat, n: nat)
    requires n <= MAXCHUNK
    ensures LogBound(off, n) <= MAXOPBLOCKS
  {
  }

  /** When the bound is reached: a chunk over four blocks, of which the last three and the indirect block are
      new, logs MAXOPBLOCKS blocks exactly when the four allocations fall into four bitmap blocks. */
  lemma BoundIsTight(sb: Sb, d0: seq<Block>, n0: seq<Inode>, disk: seq<Block>, inodes: seq<Inode>, owner: Owners,
                     ip: nat, s: nat)
    requires Owned(sb, disk, inodes, owner) && ip < |n0| && ip < |inodes| == sb.ninodes
    requires |n0[ip].addrs| == |inodes[ip].addrs| == 13
    requires NDIRECT <= s + 1 && s + 3 < MAXFILE && n0[ip].addrs[IND] == 0 && inodes[ip].addrs[IND] != 0
    requires R(d0, n0, ip, Slot(s)) != 0 && forall n :: s < n <= s + 3 ==> R(d0, n0, ip, Slot(n)) == 0
    requires forall n :: s <= n <= s + 3 ==> R(disk, inodes, ip, Slot(n)) != 0
    ensures |LogSet(sb, d0, n0, disk, inodes, ip, s, 4) + {IBlock(sb, ip)}| == MAXOPBLOCKS <==>
      var a, b, c, ind := R(disk, inodes, ip, Slot(s + 1)), R(disk, inodes, ip, Slot(s + 2)), R(disk, inodes, ip, Slot(s + 3)), inodes[ip].addrs[IND];
      |{BBlock(sb, a), BBlock(sb, b), BBlock(sb, c), BBlock(sb, ind)}| == 4
  {
    hide Owned, R, LogSet, Slot;
    var z, a, b, c :=
        R(disk, inodes, ip, Slot(s)), R(disk, inodes, ip, Slot(s + 1)),
        R(disk, inodes, ip, Slot(s + 2)), R(disk, inodes, ip, Slot(s + 3));
    var ind := inodes[ip].addrs[IND];
    FourBlocks(sb, d0, n0, disk, inodes, ip, s);
    FiveApart(sb, disk, inodes, owner, ip, s);
    BBlockOf(sb, a);
    BBlockOf(sb, b);
    BBlockOf(sb, c);
    BBlockOf(sb, ind);
    IBlockOf(sb, ip);
    CountBlocks(z, a, b, c, ind, {BBlock(sb, a), BBlock(sb, b), BBlock(sb, c), BBlock(sb, ind)}, IBlock(sb, ip));
  }

  /** If the first block were new as well, it would be one more than MAXOPBLOCKS, exactly when the five allocations
      fall into five bitmap blocks. */
  lemma FirstBlockNew(sb: Sb, d0: seq<Block>, n0: seq<Inode>, disk: seq<Block>, inodes: seq<Inode>, owner: Owners,
                      ip: nat, s: nat)
    requires Owned(sb, disk, inodes, owner) && ip < |n0| && ip < |inodes| == sb.ninodes
    requires |n0[ip].addrs| == |inodes[ip].addrs| == 13 && n0[ip].addrs[IND] == 0 && inodes[ip].addrs[IND] != 0
    requires NDIRECT <= s + 1 && s + 3 < MAXFILE && forall n :: s <= n <= s + 3 ==> R(d0, n0, ip, Slot(n)) == 0
    requires forall n :: s <= n <= s + 3 ==> R(disk, inodes, ip, Slot(n)) != 0
    ensures |LogSet(sb, d0, n0, disk, inodes, ip, s, 4) + {IBlock(sb, ip)}| == MAXOPBLOCKS + 1 <==>
            |MapsOf(sb, disk, inodes, ip, s) + {BBlock(sb, R(disk, inodes, ip, Slot(s)))}| == 5
  {
    hide Owned, R, LogSet, Slot, BBlock, IBlock, LayoutOk;
    var z, a, b, c :=
        R(disk, inodes, ip, Slot(s)), R(disk, inodes, ip, Slot(s + 1)),
        R(disk, inodes, ip, Slot(s + 2)), R(disk, inodes, ip, Slot(s + 3));
    var ind := inodes[ip].addrs[IND];
    var maps := MapsOf(sb, disk, inodes, ip, s) + {BBlock(sb, z)};
    FourNew(sb, d0, n0, disk, inodes, ip, s);
    FiveApart(sb, disk, inodes, owner, ip, s);
    BBlockOf(sb, z);
    BBlockOf(sb, a);
    BBlockOf(sb, b);
    BBlockOf(sb, c);
    BBlockOf(sb, ind);
    IBlockOf(sb, ip);
    CountBlocks(z, a, b, c, ind, maps, IBlock(sb, ip));
  }

  /** The bitmap blocks of the indirect block and of the three file blocks after s. */
  function MapsOf(sb: Sb, disk: seq<Block>, inodes: seq<Inode>, ip: nat, s: nat): set<nat>
    requires ip < |inodes| && |inodes[ip].addrs| == 13
  {
    {BBlock(sb, R(disk, inodes, ip, Slot(s + 1))), BBlock(sb, R(disk, inodes, ip, Slot(s + 2))),
     BBlock(sb, R(disk, inodes, ip, Slot(s + 3))), BBlock(sb, inodes[ip].addrs[IND])}
  }

  lemma FourNew(sb: Sb, d0: seq<Block>, n0: seq<Inode>, disk: seq<Block>, inodes: seq<Inode>, ip: nat, s: nat)
    requires ip < |n0| && ip < |inodes| && |n0[ip].addrs| == |inodes[ip].addrs| == 13
    requires NDIRECT <= s + 1 && n0[ip].addrs[IND] == 0 && forall n :: s <= n <= s + 3 ==> R(d0, n0, ip, Slot(n)) == 0
    ensures var z, a, b, c :=
            R(disk, inodes, ip, Slot(s)), R(disk, inodes, ip, Slot(s + 1)),
            R(disk, inodes, ip, Slot(s + 2)), R(disk, inodes, ip, Slot(s + 3));
      var ind := inodes[ip].addrs[IND];
      LogSet(sb, d0, n0, disk, inodes, ip, s, 4) == {z, a, b, c, ind} + (MapsOf(sb, disk, inodes, ip, s) + {BBlock(sb, z)})
  {
    hide R, Slot, BlockLog;
    LogSetStep(sb, d0, n0, disk, inodes, ip, s, 1);
    LogSetStep(sb, d0, n0, disk, inodes, ip, s, 2);
    LogSetStep(sb, d0, n0, disk, inodes, ip, s, 3);
    LogSetStep(sb, d0, n0, disk, inodes, ip, s, 4);
    FirstLog(sb, d0, n0, disk, inodes, ip, s);
    FreshLog(sb, d0, n0, disk, inodes, ip, s + 1);
    FreshLog(sb, d0, n0, disk, inodes, ip, s + 2);
    FreshLog(sb, d0, n0, disk, inodes, ip, s + 3);
  }

  lemma FirstLog(sb: Sb, d0: seq<Block>, n0: seq<Inode>, disk: seq<Block>, inodes: seq<Inode>, ip: nat, bn: nat)
    requires ip < |n0| && ip < |inodes| && |n0[ip].addrs| == |inodes[ip].addrs| == 13 && n0[ip].addrs[IND] == 0
    requires R(d0, n0, ip, Slot(bn)) == 0
    ensures var a, ind := R(disk, inodes, ip, Slot(bn)), inodes[ip].addrs[IND];
      var l := BlockLog(sb, d0, n0, disk, inodes, ip, bn);
      {a, BBlock(sb, a)} <= l <= {a, BBlock(sb, a), ind, BBlock(sb, ind)}
  {
  }

  lemma CountBlocks(z: nat, a: nat, b: nat, c: nat, d: nat, maps: set<nat>, i: nat)
    requires z != a && z != b && z != c && z != d && a != b && a != c && a != d && b != c && b != d && c != d
    requires {z, a, b, c, d} !! maps && i !in {z, a, b, c, d} && i !in maps
    ensures |{z, a, b, c, d} + maps + {i}| == 6 + |maps|
  {
  }

  lemma IBlockOf(sb: Sb, i: nat)
    requires LayoutOk(sb) && i < sb.ninodes
    ensures IBlock(sb, i) < sb.bmapstart
  {
  }

  lemma FourBlocks(sb: Sb, d0: seq<Block>, n0: seq<Inode>, disk: seq<Block>, inodes: seq<Inode>, ip: nat, s: nat)
    requires ip < |n0| && ip < |inodes| && |n0[ip].addrs| == |inodes[ip].addrs| == 13
    requires NDIRECT <= s + 1 && n0[ip].addrs[IND] == 0
    requires R(d0, n0, ip, Slot(s)) != 0 && forall n :: s < n <= s + 3 ==> R(d0, n0, ip, Slot(n)) == 0
    ensures var z, a, b, c :=
            R(disk, inodes, ip, Slot(s)), R(disk, inodes, ip, Slot(s + 1)),
            R(disk, inodes, ip, Slot(s + 2)), R(disk, inodes, ip, Slot(s + 3));
      var ind := inodes[ip].addrs[IND];
      LogSet(sb, d0, n0, disk, inodes, ip, s, 4)
      == {z, a, b, c, ind} + {BBlock(sb, a), BBlock(sb, b), BBlock(sb, c), BBlock(sb, ind)}
  {
    hide R, Slot, BlockLog;
    LogSetStep(sb, d0, n0, disk, inodes, ip, s, 1);
    LogSetStep(sb, d0, n0, disk, inodes, ip, s, 2);
    LogSetStep(sb, d0, n0, disk, inodes, ip, s, 3);
    LogSetStep(sb, d0, n0, disk, inodes, ip, s, 4);
    OldLog(sb, d0, n0, disk, inodes, ip, s);
    FreshLog(sb, d0, n0, disk, inodes, ip, s + 1);
    FreshLog(sb, d0, n0, disk, inodes, ip, s + 2);
    FreshLog(sb, d0, n0, disk, inodes, ip, s + 3);
  }

  lemma LogSetStep(sb: Sb, d0: seq<Block>, n0: seq<Inode>, disk: seq<Block>, inodes: seq<Inode>, ip: nat, s: nat,
                   k: nat)
    requires ip < |n0| && ip < |inodes| && |n0[ip].addrs| == |inodes[ip].addrs| == 13 && k > 0
    ensures LogSet(sb, d0, n0, disk, inodes, ip, s, k) == LogSet(sb, d0, n0, disk, inodes, ip, s, k - 1) + BlockLog(sb, d0, n0, disk, inodes, ip, s + k - 1)
    ensures LogSet(sb, d0, n0, disk, inodes, ip, s, 0) == {}
  {
  }

  lemma OldLog(sb: Sb, d0: seq<Block>, n0: seq<Inode>, disk: seq<Block>, inodes: seq<Inode>, ip: nat, bn: nat)
    requires ip < |n0| && ip < |inodes| && |n0[ip].addrs| == |inodes[ip].addrs| == 13 && R(d0, n0, ip, Slot(bn)) != 0
    ensures BlockLog(sb, d0, n0, disk, inodes, ip, bn) == {R(disk, inodes, ip, Slot(bn))}
  {
  }

  lemma FreshLog(sb: Sb, d0: seq<Block>, n0: seq<Inode>, disk: seq<Block>, inodes: seq<Inode>, ip: nat, bn: nat)
    requires ip < |n0| && ip < |inodes| && |n0[ip].addrs| == |inodes[ip].addrs| == 13 && bn >= NDIRECT
    requires n0[ip].addrs[IND] == 0
    requires R(d0, n0, ip, Slot(bn)) == 0
    ensures var a, ind := R(disk, inodes, ip, Slot(bn)), inodes[ip].addrs[IND];
      BlockLog(sb, d0, n0, disk, inodes, ip, bn) == {a, BBlock(sb, a), ind, BBlock(sb, ind)}
  {
  }

  /** Different slots, different blocks. */
  lemma FiveApart(sb: Sb, disk: seq<Block>, inodes: seq<Inode>, owner: Owners, ip: nat, s: nat)
    requires Owned(sb, disk, inodes, owner) && ip < |inodes| && |inodes[ip].addrs| == 13 && inodes[ip].addrs[IND] != 0
    requires s + 3 < MAXFILE
    requires forall n :: s <= n <= s + 3 ==> R(disk, inodes, ip, Slot(n)) != 0
    ensures LayoutOk(sb)
    ensures var z, a, b, c :=
            R(disk, inodes, ip, Slot(s)), R(disk, inodes, ip, Slot(s + 1)),
            R(disk, inodes, ip, Slot(s + 2)), R(disk, inodes, ip, Slot(s + 3));
      var ind := inodes[ip].addrs[IND];
      && z != a && z != b && z != c && z != ind && a != b && a != c && a != ind && b != c && b != ind && c != ind
      && sb.datastart <= z < sb.size && sb.datastart <= a < sb.size && sb.datastart <= b < sb.size && sb.datastart <= c < sb.size
      && sb.datastart <= ind < sb.size
  {
    RefAt(disk, inodes, ip, IND);
    hide R;
    forall n | s <= n <= s + 3
      ensures R(disk, inodes, ip, Slot(n)) in owner && owner[R(disk, inodes, ip, Slot(n))] == (ip, Slot(n))
    {
    }
  }

  /** Splice, or nothing when the offset is past the end. */
  function Overlay(f: seq<Byte>, off: nat, w: seq<Byte>): seq<Byte> { if off <= |f| then Splice(f, off, w) else f }

  lemma OverlayTwice(f: seq<Byte>, off: nat, src: seq<Byte>, i: nat, r: nat, piece: seq<Byte>)
    requires i + r <= |src| && r <= |piece| && piece[..r] == src[i..i + r] && (i > 0 ==> off <= |f|)
    ensures Overlay(Overlay(f, off, src[..i]), off + i, if r > 0 then piece[..r] else []) == Overlay(f, off, src[..i + r])
    ensures |Overlay(f, off, src[..i])| >= |f| && (off <= |f| ==> off + i <= |Overlay(f, off, src[..i])|)
  {
  }

  lemma SpliceNone(f: seq<Byte>, off: nat)
    requires off <= |f|
    ensures Splice(f, off, []) == f
  {
  }

  lemma FileStart(disk: seq<Block>, inodes: seq<Inode>, ip: nat, off: nat, src: seq<Byte>)
    requires ip < |inodes|
    ensures OtherFilesSame(disk, inodes, disk, inodes, ip)
    ensures File(disk, inodes, ip) == Overlay(File(disk, inodes, ip), off, src[..0])
  {
  }

  lemma KeepOthers(d0: seq<Block>, n0: seq<Inode>, d1: seq<Block>, n1: seq<Inode>, d2: seq<Block>, n2: seq<Inode>,
                   ip: nat)
    requires OtherFilesSame(d0, n0, d1, n1, ip) && OtherFilesSame(d1, n1, d2, n2, ip)
    ensures OtherFilesSame(d0, n0, d2, n2, ip)
  {
  }

  /** Blocks keep their owners, and every block that gets one is logged. */
  ghost predicate TakesLogged(o0: Owners, l0: set<nat>, owner: Owners, logged: set<nat>) {
    && l0 <= logged && (forall b :: b in o0 ==> b in owner && owner[b] == o0[b])
    && forall b :: b in owner ==> b in o0 || b in logged
  }

  lemma TakesNone(o0: Owners, l0: set<nat>)
    ensures TakesLogged(o0, l0, o0, l0)
  {
  }

  lemma TakesOne(o0: Owners, l0: set<nat>, b: nat, slot: (nat, nat), logged: set<nat>)
    requires b !in o0 && b in logged && l0 <= logged
    ensures TakesLogged(o0, l0, o0[b := slot], logged)
  {
  }

  /** Byte off of the file lies in a block it does not have, and no block is free. */
  ghost predicate NoSpace(sb: Sb, disk: seq<Block>, inodes: seq<Inode>, ip: nat, off: nat)
    requires LayoutOk(sb) && |disk| == sb.size
  {
    Full(sb, disk) && DataRef(disk, inodes, ip, off) == 0
  }

  lemma SameRef(disk: seq<Block>, n0: seq<Inode>, n1: seq<Inode>, ip: nat, off: nat)
    requires ip < |n0| == |n1| && n1[ip].addrs == n0[ip].addrs
    ensures DataRef(disk, n0, ip, off) == DataRef(disk, n1, ip, off)
  {
  }

  /** Of n bytes for offset off, where the piece that begins at byte tot ends: with its block or with the bytes. */
  function PieceEnd(off: nat, n: nat, tot: nat): nat {
    var m := BSIZE - (off + tot) % BSIZE;
    if n < tot + m then n else tot + m
  }

  /** A piece of a chunk ends no later than in the whole write. */
  lemma EndInside(off: nat, n: nat, i: nat, n1: nat, at: nat)
    requires i <= at && i + n1 <= n
    ensures i + PieceEnd(off + i, n1, at - i) <= PieceEnd(off, n, at)
  {
  }

  class FileSystem {

    const sb: Sb
    /** Block contents as bread returns them. */
    var disk: seq<Block>
    /** Inodes in memory, and in the inode blocks. */
    var inodes: seq<Inode>
    var ondisk: seq<Inode>
    ghost var owner: Owners
    /** Blocks logged since the current operation began. */
    ghost var logged: set<nat>

    ghost predicate Consistent()
      reads this
    {
      Owned(sb, disk, inodes, owner) && InodesOk(sb, disk, inodes)
    }

    ghost predicate Valid()
      reads this
    {
      Consistent() && ondisk == inodes
    }

    /** A consistent image, as mkfs writes it. */
    constructor (sb: Sb, disk: seq<Block>, inodes: seq<Inode>, ghost owner: Owners)
      requires Owned(sb, disk, inodes, owner) && InodesOk(sb, disk, inodes)
      ensures Valid() && this.sb == sb && this.disk == disk && this.inodes == inodes && logged == {}
    {
      this.sb, this.disk, this.inodes, this.ondisk := sb, disk, inodes, inodes;
      this.owner, logged := owner, {};
    }

    /** The first free block, marked and zeroed; 0 when every block is in use. */
    method Balloc() returns (b: nat)
      requires LayoutOk(sb) && |disk| == sb.size && Used(sb, disk, 0)
      modifies this`disk, this`logged
      ensures b == 0 ==> disk == old(disk) && logged == old(logged) && Full(sb, disk)
      ensures b != 0 ==> b < sb.size && !Used(sb, old(disk), b) && forall c :: 0 <= c < b ==> Used(sb, old(disk), c)
      ensures b != 0 ==> disk == Taken(sb, old(disk), b) && logged == old(logged) + {BBlock(sb, b), b}
    {
      var b0 := 0;
      while b0 < sb.size
        invariant 0 <= b0 && b0 % BPB == 0 && disk == old(disk) && logged == old(logged)
        invariant forall c :: 0 <= c < b0 && c < sb.size ==> Used(sb, disk, c)
      {
        var bp := BBlock(sb, b0);
        BBlockOf(sb, b0);
        var bi := 0;
        while bi < BPB && b0 + bi < sb.size
          invariant 0 <= bi <= BPB && disk == old(disk) && logged == old(logged)
          invariant forall c :: 0 <= c < b0 + bi && c < sb.size ==> Used(sb, disk, c)
        {
          BitOfBlock(b0, bi);
          if !Bit(disk[bp], bi) {
            disk := disk[bp := SetBit(disk[bp], bi)];
            logged := logged + {bp};
            disk := disk[b0 + bi := Zero()];
            logged := logged + {b0 + bi};
            return b0 + bi;
          }
          bi := bi + 1;
        }
        b0 := b0 + BPB;
      }
      b := 0;
    }

    /** Clears b's bit; false is the panic "freeing free block". */
    method Bfree(b: nat) returns (ok: bool)
      requires LayoutOk(sb) && |disk| == sb.size && b < sb.size
      modifies this`disk, this`logged
      ensures ok <==> Used(sb, old(disk), b)
      ensures ok ==> disk == Unmark(sb, old(disk), b) && logged == old(logged) + {BBlock(sb, b)}
      ensures !ok ==> disk == old(disk) && logged == old(logged)
    {
      var bp := BBlock(sb, b);
      BBlockOf(sb, b);
      var bi := b % BPB;
      if !Bit(disk[bp], bi) {
        return false;
      }
      disk := disk[bp := ClearBit(disk[bp], bi)];
      logged := logged + {bp};
      ok := true;
    }

    /** Allocates for an empty direct slot or the missing indirect block. */
    method FillDirect(ip: nat, k: nat) returns (addr: nat)
      requires Consistent() && ip < |inodes| && k <= IND && inodes[ip].addrs[k] == 0
      modifies this`disk, this`inodes, this`owner, this`logged
      ensures Consistent() && |inodes| == |old(inodes)|
      ensures SameFiles(old(disk), old(inodes), disk, inodes) && RefsGrow(old(disk), old(inodes), disk, inodes)
      ensures addr == 0 ==> disk == old(disk) && inodes == old(inodes) && logged == old(logged) && Full(sb, disk)
      ensures addr != 0 ==>
              inodes == SetSlot(old(inodes), ip, k, addr) && logged == old(logged) + {BBlock(sb, addr), addr}
      ensures addr != 0 ==> forall m: nat :: m != k ==> R(disk, inodes, ip, m) == R(old(disk), old(inodes), ip, m)
      ensures TakesLogged(old(owner), old(logged), owner, logged)
    {
      addr := Balloc();
      if addr != 0 {
        forall m: nat | m != k
          ensures R(disk, SetSlot(inodes, ip, k, addr), ip, m) == R(old(disk), inodes, ip, m)
        {
          AssignDirectRefs(sb, old(disk), inodes, owner, ip, k, addr, ip, m);
        }
        AssignDirect(sb, old(disk), inodes, owner, ip, k, addr);
        DirectBytes(sb, old(disk), inodes, owner, ip, k, addr);
        GrowKeepsInodes(sb, old(disk), inodes, disk, SetSlot(inodes, ip, k, addr));
        inodes := inodes[ip := inodes[ip].(addrs := inodes[ip].addrs[k := addr])];
        owner := owner[addr := (ip, k)];
      }
    }

    /** The block of file block bn, allocated if missing; 0 when the disk is full. */
    method Bmap(ip: nat, bn: nat) returns (addr: nat)
      requires Consistent() && ip < |inodes| && bn < MAXFILE
      modifies this`disk, this`inodes, this`owner, this`logged
      ensures Consistent() && |inodes| == |old(inodes)|
      ensures forall j :: 0 <= j < |inodes| && j != ip ==> inodes[j] == old(inodes)[j]
      ensures SameFiles(old(disk), old(inodes), disk, inodes) && RefsGrow(old(disk), old(inodes), disk, inodes)
      ensures addr == R(disk, inodes, ip, Slot(bn)) && (addr == 0 ==> Full(sb, disk))
      ensures RestSame(old(disk), old(inodes), disk, inodes, ip, bn)
      ensures TakesLogged(old(owner), old(logged), owner, logged)
      ensures inodes[ip].addrs[IND] != old(inodes)[ip].addrs[IND] ==>
              bn >= NDIRECT && R(old(disk), old(inodes), ip, Slot(bn)) == 0
      ensures var b := R(old(disk), old(inodes), ip, Slot(bn));
        && (b != 0 ==> disk == old(disk) && inodes == old(inodes) && owner == old(owner) && logged == old(logged))
        && (b == 0 && addr == 0 ==> logged <= old(logged) + IndirectLog(sb, inodes, ip))
        && (b == 0 && addr != 0 ==> logged == old(logged) + NewLog(sb, old(inodes), inodes, ip, bn, addr))
    {
      hide Owned, InodesOk, SameFiles, RefsGrow, R, Full;
      AddrsLen(sb, disk, inodes, ip);
      SameRefl(disk, inodes);
      if bn < NDIRECT {
        addr := inodes[ip].addrs[bn];
        RefAt(disk, inodes, ip, bn);
        if addr == 0 {
          addr := FillDirect(ip, bn);
          RefAt(disk, inodes, ip, bn);
        }
        RestOf(old(disk), old(inodes), disk, inodes, ip, bn);
        return;
      }
      var e := bn - NDIRECT;
      addr := inodes[ip].addrs[IND];
      if addr == 0 {
        NoEntries(disk, inodes, ip, e);
        addr := FillDirect(ip, IND);
        if addr == 0 {
          RestOf(old(disk), old(inodes), disk, inodes, ip, bn);
          return;
        }
      }
      label filled:
      addr := FillEntry(ip, e);
      SameTrans(old(disk), old(inodes), old@filled(disk), inodes, disk, inodes);
      RestOf(old(disk), old(inodes), disk, inodes, ip, bn);
    }

    /** Looks up, and fills if empty, entry e of the indirect block. */
    method FillEntry(ip: nat, e: nat) returns (addr: nat)
      requires Consistent() && ip < |inodes| && e < NINDIRECT && inodes[ip].addrs[IND] != 0
      modifies this`disk, this`owner, this`logged
      ensures Consistent() && SameFiles(old(disk), inodes, disk, inodes) && RefsGrow(old(disk), inodes, disk, inodes)
      ensures addr == R(disk, inodes, ip, IND + 1 + e) && (addr == 0 ==> Full(sb, disk))
      ensures var b := R(old(disk), inodes, ip, IND + 1 + e);
        && (b != 0 ==> disk == old(disk) && owner == old(owner) && logged == old(logged))
        && (b == 0 ==>
               logged == old(logged) + if addr == 0 then {} else {addr, BBlock(sb, addr), inodes[ip].addrs[IND]})
      ensures forall m: nat :: m != IND + 1 + e ==> R(disk, inodes, ip, m) == R(old(disk), inodes, ip, m)
      ensures TakesLogged(old(owner), old(logged), owner, logged)
    {
      hide TakesLogged;
      TakesNone(owner, logged);
      var ind := inodes[ip].addrs[IND];
      assert ind == R(disk, inodes, ip, IND);
      addr := Word(disk[ind], e);
      assert addr == R(disk, inodes, ip, IND + 1 + e);
      if addr == 0 {
        addr := Balloc();
        if addr != 0 {
          ghost var d := SetEntry(disk, ind, e, addr);
          AssignEntry(sb, old(disk), inodes, owner, ip, e, addr);
          EntryBytes(sb, old(disk), inodes, owner, ip, e, addr);
          GrowKeepsInodes(sb, old(disk), inodes, d, inodes);
          AssignEntryRefs(sb, old(disk), inodes, owner, ip, e, addr, ip, IND + 1 + e);
          forall m: nat | m != IND + 1 + e ensures R(d, inodes, ip, m) == R(old(disk), inodes, ip, m) {
            AssignEntryRefs(sb, old(disk), inodes, owner, ip, e, addr, ip, m);
          }
          disk := disk[ind := PutWord(disk[ind], e, addr)];
          logged := logged + {ind};
          TakesOne(owner, old(logged), addr, (ip, IND + 1 + e), logged);
          owner := owner[addr := (ip, IND + 1 + e)];
        }
      }
    }

    /** Copies the inode to its block. */
    method Iupdate(ip: nat)
      requires ip < |inodes| == |ondisk|
      modifies this`ondisk, this`logged
      ensures ondisk == old(ondisk)[ip := inodes[ip]] && logged == old(logged) + {IBlock(sb, ip)}
    {
      ondisk := ondisk[ip := inodes[ip]];
      logged := logged + {IBlock(sb, ip)};
    }

    /** The loop over the direct slots. */
    method FreeDirects(ip: nat) returns (ok: bool)
      requires Consistent() && ip < |inodes|
      modifies this`disk, this`inodes, this`owner, this`logged
      ensures ok && Owned(sb, disk, inodes, owner) && SameData(sb, old(disk), disk)
      ensures OthersKept(old(inodes), inodes, ip)
      ensures OwnersLeft(old(owner), owner, ip, IND)
      ensures |inodes[ip].addrs| == 13 && inodes[ip].addrs[IND] == old(inodes)[ip].addrs[IND]
      ensures forall k :: 0 <= k < IND ==> inodes[ip].addrs[k] == 0
      ensures forall b :: b in logged - old(logged) ==> IsBitmap(sb, b)
    {
      hide Owned, InodesOk, SameData, OwnersLeft, Used, Unmark;
      StartFree(sb, disk, inodes, owner, ip);
      var i := 0;
      while i < NDIRECT
        invariant 0 <= i <= NDIRECT && Owned(sb, disk, inodes, owner) && SameData(sb, old(disk), disk)
        invariant |disk| == sb.size
        invariant OthersKept(old(inodes), inodes, ip) && OwnersLeft(old(owner), owner, ip, i)
        invariant |inodes[ip].addrs| == 13 && inodes[ip].addrs[IND] == old(inodes)[ip].addrs[IND]
        invariant forall k :: 0 <= k < i ==> inodes[ip].addrs[k] == 0
        invariant forall b :: b in logged - old(logged) ==> IsBitmap(sb, b)
      {
        var b := inodes[ip].addrs[i];
        DirectStep(sb, old(disk), old(owner), disk, inodes, owner, ip, i);
        if b != 0 {
          ok := Bfree(b);
          if !ok {
            assert false;
          }
          inodes := inodes[ip := inodes[ip].(addrs := inodes[ip].addrs[i := 0])];
          owner := owner - {b};
        }
        i := i + 1;
      }
      ok := true;
    }

    /** The loop over the entries of the indirect block, and the block itself. */
    method FreeEntries(ip: nat, ghost d0: seq<Block>, ghost o0: Owners) returns (ok: bool)
      requires Owned(sb, disk, inodes, owner) && ip < |inodes| && |inodes[ip].addrs| == 13 && inodes[ip].addrs[IND] != 0
      requires SameData(sb, d0, disk) && OwnersLeft(o0, owner, ip, IND) && forall b :: b in o0 ==> o0[b].1 < NREF
      modifies this`disk, this`inodes, this`owner, this`logged
      ensures ok && Owned(sb, disk, inodes, owner) && SameData(sb, d0, disk) && OwnersLeft(o0, owner, ip, NREF)
      ensures inodes == SetSlot(old(inodes), ip, IND, 0)
      ensures forall b :: b in logged - old(logged) ==> IsBitmap(sb, b)
    {
      hide Owned, OwnedBut, SameData, OwnersLeft, EntriesLeft, Used, Unmark;
      ButFacts(sb, disk, inodes, owner, ip);
      StartEntries(sb, disk, inodes, owner, o0, ip);
      var ind := inodes[ip].addrs[IND];
      var a := disk[ind];
      var j := 0;
      while j < NINDIRECT
        invariant 0 <= j <= NINDIRECT && OwnedBut(sb, disk, inodes, owner, ip, j) && SameData(sb, d0, disk)
        invariant |disk| == sb.size
        invariant EntriesLeft(o0, owner, ip, j) && disk[ind] == a && inodes == old(inodes)
        invariant forall b :: b in logged - old(logged) ==> IsBitmap(sb, b)
      {
        EntryStep(sb, d0, o0, disk, inodes, owner, ip, j);
        var b := Word(a, j);
        assert b == R(disk, inodes, ip, IND + 1 + j);
        if b != 0 {
          UnmarkKeeps(sb, disk, b, ind);
          ok := Bfree(b);
          if !ok {
            assert false;
          }
          owner := owner - {b};
        }
        j := j + 1;
      }
      IndirectStep(sb, d0, o0, disk, inodes, owner, ip);
      ok := Bfree(ind);
      if !ok {
        assert false;
      }
      inodes := inodes[ip := inodes[ip].(addrs := inodes[ip].addrs[IND := 0])];
      owner := owner - {ind};
    }

    /** Discards a file's contents: frees exactly its blocks and never meets a free one. */
    method Itrunc(ip: nat) returns (ok: bool)
      requires Valid() && ip < |inodes|
      modifies this`disk, this`inodes, this`ondisk, this`owner, this`logged
      ensures ok && Valid() && |inodes| == |old(inodes)| && inodes[ip].size == 0
      ensures forall k :: 0 <= k <= IND ==> inodes[ip].addrs[k] == 0
      ensures OtherFilesSame(old(disk), old(inodes), disk, inodes, ip)
      ensures forall b :: 0 <= b < sb.size ==>
        (Used(sb, disk, b) <==> Used(sb, old(disk), b) && !(b in old(owner) && old(owner)[b].0 == ip))
      ensures forall b :: b in logged - old(logged) ==> IsBitmap(sb, b) || b == IBlock(sb, ip)
    {
      hide SameData, OwnersLeft, Used, R;
      ghost var d0, n0, o0 := disk, inodes, owner;
      ok := FreeDirects(ip);
      if inodes[ip].addrs[IND] != 0 {
        ok := FreeEntries(ip, d0, o0);
      } else {
        NoIndirectStep(sb, o0, disk, inodes, owner, ip);
      }
      ghost var n1 := inodes;
      inodes := inodes[ip := inodes[ip].(size := 0)];
      SizeOnly(sb, disk, n1, owner, ip, 0);
      SameDataBytes(sb, d0, n0, o0, disk, inodes, ip);
      TruncatedOk(sb, d0, n0, o0, disk, inodes, ip);
      TruncatedUse(sb, d0, n0, o0, disk, inodes, owner, ip);
      Iupdate(ip);
    }

    /** One turn of readi's loop: m bytes at offset o, all in one block. */
    method ReadPiece(ip: nat, o: nat, m: nat) returns (piece: seq<Byte>)
      requires Consistent() && ip < |inodes| && m > 0 && o % BSIZE + m <= BSIZE && o + m <= inodes[ip].size
      modifies this`disk, this`inodes, this`owner, this`logged
      ensures disk == old(disk) && inodes == old(inodes) && owner == old(owner) && logged == old(logged)
      ensures piece == File(disk, inodes, ip)[o..o + m]
    {
      hide Owned, InodesOk, R, Slot, Full, SameFiles, RefsGrow;
      Covered(sb, disk, inodes, ip, o);
      var addr := Bmap(ip, o / BSIZE);
      if addr == 0 {
        assert false;
      }
      PieceOf(sb, disk, inodes, owner, ip, o, m);
      piece := disk[addr][o % BSIZE..o % BSIZE + m];
    }

    /** Copies up to n bytes from offset off.  writable is how many bytes the destination accepts;
        the copy of each piece is all or nothing. */
    method Readi(ip: nat, off: nat, n: nat, writable: nat) returns (r: int, out: seq<Byte>)
      requires Valid() && ip < |inodes| && off < 0x1_0000_0000 && n < 0x1_0000_0000
      modifies this`disk, this`inodes, this`owner, this`logged
      ensures disk == old(disk) && inodes == old(inodes) && owner == old(owner) && logged == old(logged)
      ensures var count := ReadCount(inodes[ip].size, off, n);
        if count > writable then r == -1 else r == count && out == Part(File(disk, inodes, ip), off, count)
    {
      hide Owned, InodesOk, R;
      out := [];
      var size := inodes[ip].size;
      ghost var f := File(disk, inodes, ip);
      if off > size || (off + n) % 0x1_0000_0000 < off {
        return 0, [];
      }
      var n1 := if off + n > size then size - off else n;
      var tot := 0;
      while tot < n1
        invariant 0 <= tot <= n1 && out == Part(f, off, tot) && tot <= writable
        invariant disk == old(disk) && inodes == old(inodes) && owner == old(owner) && logged == old(logged)
      {
        var k := (off + tot) % BSIZE;
        var m := if n1 - tot < BSIZE - k then n1 - tot else BSIZE - k;
        if tot + m > writable {
          return -1, out;
        }
        var piece := ReadPiece(ip, off + tot, m);
        PartGrows(f, off, tot, m);
        out := out + piece;
        tot := tot + m;
      }
      r := tot;
    }

    /** One turn of writei's loop: the piece at offset o lies in one block.  readable says whether the
        copy from the source succeeds. */
    method WritePiece(ip: nat, o: nat, piece: seq<Byte>, readable: bool) returns (st: Piece, ghost addr: nat,
                      ghost new0: bool)
      requires Consistent() && ip < |inodes| && |piece| > 0 && o % BSIZE + |piece| <= BSIZE && o / BSIZE < MAXFILE
      modifies this`disk, this`inodes, this`owner, this`logged
      ensures Consistent() && |inodes| == |old(inodes)| && (st == Stored ==> readable) && (st == NoCopy ==> !readable)
      ensures st == NoBlock ==> NoSpace(sb, disk, inodes, ip, o)
      ensures PieceDone(sb, old(disk), old(inodes), old(logged), disk, inodes, logged, ip, o, piece, st, addr, new0)
      ensures TakesLogged(old(owner), old(logged), owner, logged)
    {
      hide Owned, InodesOk, R, Full, RefsGrow, IndirectLog, NewLog, Written, Slot;
      new0 := R(disk, inodes, ip, Slot(o / BSIZE)) == 0;
      AddrsLen(sb, disk, inodes, ip);
      WrittenRefl(disk, inodes, ip, o);
      var b := Bmap(ip, o / BSIZE);
      addr := b;
      AddrsLen(sb, disk, inodes, ip);
      label mapped:
      SameWritten(old(disk), old(inodes), disk, inodes, ip, o);
      if b == 0 {
        return NoBlock, 0, false;
      }
      EntryHasIndirect(disk, inodes, ip, o / BSIZE);
      NewLogFacts(sb, old(inodes), inodes, ip, o / BSIZE, addr);
      if !readable {
        return NoCopy, addr, new0;
      }
      StorePiece(sb, disk, inodes, owner, ip, o, piece);
      disk := disk[b := Patched(disk[b], o % BSIZE, piece)];
      logged := logged + {b};
      GrowTrans(old(disk), old(inodes), old@mapped(disk), inodes, disk, inodes);
      NoneWritten(old(disk), old(inodes), old@mapped(disk), inodes, disk, inodes, ip, o, piece);
      st := Stored;
    }

    /** writei's loop: writes what it can, piece by piece. */
    method WriteLoop(ip: nat, off: nat, src: seq<Byte>, readable: nat) returns (tot: nat, ghost data: set<nat>,
                     ghost maps: set<nat>, ghost k: nat)
      requires Consistent() && ip < |inodes| && off <= inodes[ip].size && off + |src| <= MAXFILE * BSIZE
      modifies this`disk, this`inodes, this`owner, this`logged
      ensures Consistent() && tot <= |src| && tot <= readable
      ensures tot < |src| ==> NoSpace(sb, disk, inodes, ip, off + tot) || readable < PieceEnd(off, |src|, tot)
      ensures WriteState(sb, old(disk), old(inodes), old(logged), disk, inodes, logged, ip, off, src, tot, data, maps, k)
      ensures tot == |src| ==> ExactLog(sb, old(disk), old(inodes), old(logged), disk, inodes, logged, ip, off / BSIZE, Touched(off, |src|))
      ensures TakesLogged(old(owner), old(logged), owner, logged)
    {
      hide Owned, InodesOk, NoSpace, Full, AtPiece, WriteState, ExactLog, PieceDone, Touched, R;
      tot, k, data, maps := 0, 0, {}, {};
      StartWrite(sb, disk, inodes, ip, off, src, logged);
      while tot < |src|
        invariant tot <= |src| && tot <= readable && Consistent() && ip < |inodes| && AtPiece(off, |src|, tot, k)
        invariant WriteState(sb, old(disk), old(inodes), old(logged), disk, inodes, logged, ip, off, src, tot, data, maps, k)
        invariant ExactLog(sb, old(disk), old(inodes), old(logged), disk, inodes, logged, ip, off / BSIZE, k)
        invariant TakesLogged(old(owner), old(logged), owner, logged)
      {
        var o := off + tot;
        var room := BSIZE - o % BSIZE;
        var m := if |src| - tot < room then |src| - tot else room;
        NextPiece(off, |src|, tot, k);
        label before:
        var st;
        ghost var addr, new0;
        st, addr, new0 := WritePiece(ip, o, src[tot..tot + m], tot + m <= readable);
        WriteStep(sb, old(disk), old(inodes), old(logged), old@before(disk), old@before(inodes), old@before(logged), disk, inodes, logged,
                  ip, off, src, tot, m, data, maps, k, addr, new0, st);
        k, data, maps := k + 1, data + {addr}, maps + if new0 then {BBlock(sb, addr)} else {};
        if st != Stored {
          return;
        }
        tot := tot + m;
      }
      AllTouched(off, |src|, k);
    }

    /** Writes src at offset off.  readable is how many bytes of the source can be copied; the copy of each
        piece is all or nothing.  Returns the number of bytes written, or -1. */
    method Writei(ip: nat, off: nat, src: seq<Byte>, readable: nat) returns (r: int)
      requires Valid() && ip < |inodes| && off < 0x1_0000_0000 && |src| < 0x1_0000_0000
      modifies this`disk, this`inodes, this`ondisk, this`owner, this`logged
      ensures Valid() && |inodes| == |old(inodes)|
      ensures r == -1 <==> off > old(inodes)[ip].size || off + |src| > MAXFILE * BSIZE
      ensures r == -1 ==> disk == old(disk) && inodes == old(inodes) && logged == old(logged)
      ensures r != -1 ==>
              0 <= r <= |src| && File(disk, inodes, ip) == Splice(File(old(disk), old(inodes), ip), off, src[..r])
      ensures r != -1 ==> off + r <= inodes[ip].size
      ensures OtherFilesSame(old(disk), old(inodes), disk, inodes, ip)
      ensures r <= readable
      ensures 0 <= r < |src| ==> NoSpace(sb, disk, inodes, ip, off + r) || readable < PieceEnd(off, |src|, r)
      // blocks logged: a bound in every case, and exactly which ones when all is written
      ensures |logged| <= |old(logged)| + LogBound(off, |src|) && TakesLogged(old(owner), old(logged), owner, logged)
      ensures r == |src| ==>
        logged == old(logged) + LogSet(sb, old(disk), old(inodes), disk, inodes, ip, off / BSIZE, Touched(off, |src|)) + {IBlock(sb, ip)}
    {
      hide Owned, InodesOk, R, DataRef, Full, RefsGrow, CoveredTo, LoggedOk, Touched, ByteAt, ExactLog, LogSet;
      AddrsLen(sb, disk, inodes, ip);
      var size := inodes[ip].size;
      if off > size || (off + |src|) % 0x1_0000_0000 < off {
        return -1;
      }
      if off + |src| > MAXFILE * BSIZE {
        return -1;
      }
      var tot;
      ghost var data, maps, k;
      tot, data, maps, k := WriteLoop(ip, off, src, readable);
      AddrsLen(sb, disk, inodes, ip);
      LoggedSize(sb, old(logged), logged, inodes, ip, data, maps, k, off % BSIZE != 0);
      LogFits(off, |src|, k);
      label looped:
      var end := off + tot;
      if end > inodes[ip].size {
        FinishInodes(sb, disk, inodes, owner, ip, end);
        inodes := inodes[ip := inodes[ip].(size := end)];
      }
      FinishLog(sb, old(disk), old(inodes), old(logged), disk, old@looped(inodes), inodes, logged, ip, off / BSIZE,
                Touched(off, |src|), tot == |src|);
      FinishWritten(old(disk), old(inodes), disk, old@looped(inodes), inodes, ip, off, src[..tot]);
      FinishFile(old(disk), old(inodes), disk, inodes, ip, off, src[..tot]);
      SameRef(disk, old@looped(inodes), inodes, ip, off + tot);
      Iupdate(ip);
      r := tot;
    }

    /** One transaction of filewrite: at most MAXCHUNK bytes, and at most MAXOPBLOCKS blocks logged. */
    method WriteChunk(ip: nat, off: nat, piece: seq<Byte>, readable: nat) returns (r: int)
      requires Valid() && ip < |inodes| && off < 0x1_0000_0000 && |piece| <= MAXCHUNK
      modifies this`disk, this`inodes, this`ondisk, this`owner, this`logged
      ensures Valid() && |inodes| == |old(inodes)| && OtherFilesSame(old(disk), old(inodes), disk, inodes, ip)
      ensures -1 <= r <= |piece| && (r == |piece| ==> off <= old(inodes)[ip].size && off + r <= MAXFILE * BSIZE)
      ensures File(disk, inodes, ip) == Overlay(File(old(disk), old(inodes), ip), off, if r > 0 then piece[..r] else [])
      ensures off > old(inodes)[ip].size ==> r == -1
      ensures |logged| <= MAXOPBLOCKS && TakesLogged(old(owner), {}, owner, logged)
      ensures r <= readable && (r != -1 ==> off + r <= inodes[ip].size)
      ensures 0 <= r < |piece| ==> NoSpace(sb, disk, inodes, ip, off + r) || readable < PieceEnd(off, |piece|, r)
      ensures r == -1 <==> off > old(inodes)[ip].size || off + |piece| > MAXFILE * BSIZE
      ensures r == |piece| ==>
        logged == LogSet(sb, old(disk), old(inodes), disk, inodes, ip, off / BSIZE, Touched(off, |piece|)) + {IBlock(sb, ip)}
    {
      hide Owned, InodesOk, R, NoSpace, Full, ByteAt;
      logged := {};
      r := Writei(ip, off, piece, readable);
      ChunkFits(off, |piece|);
      if off <= old(inodes)[ip].size {
        SpliceNone(File(old(disk), old(inodes), ip), off);
      }
    }

    /** filewrite on an inode: one transaction per chunk.  off is f->off, which is advanced; most is the
        largest number of blocks that one of the transactions logs. */
    method Filewrite(ip: nat, off0: nat, src: seq<Byte>, n: int, readable: nat) returns (ret: int, off: nat,
                     ghost most: nat)
      requires Valid() && ip < |inodes| && off0 < 0x1_0000_0000 && (n > 0 ==> |src| == n)
      modifies this`disk, this`inodes, this`ondisk, this`owner, this`logged
      ensures Valid() && |inodes| == |old(inodes)| && OtherFilesSame(old(disk), old(inodes), disk, inodes, ip)
      ensures off0 <= off && (n > 0 ==> off <= off0 + n) && (n <= 0 ==> off == off0)
      ensures n > 0 ==> File(disk, inodes, ip) == Overlay(File(old(disk), old(inodes), ip), off0, src[..off - off0])
      ensures n > 0 && off0 > old(inodes)[ip].size ==> off == off0
      ensures ret == (if n >= 0 && off == off0 + n then n else -1) && most <= MAXOPBLOCKS
      // it stops short only for one of four reasons
      ensures n > 0 && off < off0 + n ==>
                || NoSpace(sb, disk, inodes, ip, off)
                || readable < PieceEnd(off0, n, off - off0)
                || off0 > old(inodes)[ip].size
                || (off0 + n > MAXFILE * BSIZE && off + MAXCHUNK > MAXFILE * BSIZE)
      ensures n > 0 ==> off - off0 <= readable
      ensures n > 0 && ret == n ==> off0 <= old(inodes)[ip].size && off0 + n <= MAXFILE * BSIZE
    {
      hide Owned, InodesOk, R, NoSpace, PieceEnd, OtherFilesSame, TakesLogged, LogSet, Touched, Full, ByteAt, Overlay;
      var i: nat := 0;
      off, most := off0, 0;
      ghost var f0 := File(disk, inodes, ip);
      FileStart(disk, inodes, ip, off0, src);
      while i < n
        invariant Valid() && |inodes| == |old(inodes)| && OtherFilesSame(old(disk), old(inodes), disk, inodes, ip)
        invariant (n >= 0 ==> i <= n) && (n <= 0 ==> i == 0) && off == off0 + i
        invariant (i > 0 ==> off0 <= |f0| && off < 0x1_0000_0000)
        invariant n > 0 ==> File(disk, inodes, ip) == Overlay(f0, off0, src[..i])
        invariant most <= MAXOPBLOCKS && i <= readable && (i > 0 ==> off <= MAXFILE * BSIZE && off <= inodes[ip].size)
      {
        var n1 := if n - i > MAXCHUNK then MAXCHUNK else n - i;
        label before:
        var r := WriteChunk(ip, off, src[i..i + n1], if readable > i then readable - i else 0);
        most := if |logged| > most then |logged| else most;
        KeepOthers(old(disk), old(inodes), old@before(disk), old@before(inodes), disk, inodes, ip);
        OverlayTwice(f0, off0, src, i, if r > 0 then r else 0, src[i..i + n1]);
        if r > 0 {
          off := off + r;
        }
        if r != n1 {
          EndInside(off0, n, i, n1, off - off0);
          return -1, off, most;
        }
        i := i + r;
      }
      ret := if i == n then n else -1;
    }
  }
}
