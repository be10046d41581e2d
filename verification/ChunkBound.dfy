/** The bound of one filewrite chunk is reached, and rests on the first block of an unaligned write existing:
    file systems on which a chunk logs exactly MAXOPBLOCKS blocks, and would log one more without that block. */
module ChunkBound {
  import opened Prelude
  import opened Blocks
  import opened Fs

  /** What mkfs would write for 400 inodes and one block more than ten bitmap blocks cover. */
  const SB := Sb(10 * BPB + 1, 69, 58, 32, 400)

  /** Blocks left free: one for each bitmap block. */
  predicate Spare(b: nat) { b % BPB == BPB - 1 || b == 10 * BPB }

  const OFF: nat := 11 * BSIZE + 512

  // ----- A chunk that logs as much as it may -----

  ghost function FreeBlocks(sb: Sb, owner: Owners): set<nat> {
    set b | sb.datastart <= b < sb.size && b !in owner
  }

  /** File ip ends in its last direct block, it has no indirect block, and no two free blocks have their bits in
      the same bitmap block. */
  ghost predicate Tight(sb: Sb, inodes: seq<Inode>, owner: Owners, ip: nat) {
    && ip < |inodes| && |inodes[ip].addrs| == 13 && inodes[ip].size == OFF && inodes[ip].addrs[IND] == 0
    && |FreeBlocks(sb, owner)| > MAXOPBLOCKS
    && forall b, c :: b in FreeBlocks(sb, owner) && c in FreeBlocks(sb, owner) && b != c ==>
           BBlock(sb, b) != BBlock(sb, c)
  }

  /** Appending MAXCHUNK bytes then succeeds and logs MAXOPBLOCKS blocks. */
  method TightChunk(fs: FileSystem, ip: nat) returns (r: int)
    requires fs.Valid() && Tight(fs.sb, fs.inodes, fs.owner, ip)
    modifies fs
    ensures fs.Valid() && r == MAXCHUNK && |fs.logged| == MAXOPBLOCKS
  {
    hide Owned, InodesOk, R, Full, LogSet, TakesLogged, ByteAt, Overlay;
    ghost var d0, n0, o0 := fs.disk, fs.inodes, fs.owner;
    AddrsLen(fs.sb, d0, n0, ip);
    r := fs.WriteChunk(ip, OFF, seq(MAXCHUNK, _ => 0), MAXCHUNK);
    NotFull(fs.sb, fs.disk, fs.inodes, o0, fs.owner, fs.logged);
    assert r == MAXCHUNK;
    Appended(File(d0, n0, ip), OFF, seq(MAXCHUNK, _ => 0));
    assert |File(fs.disk, fs.inodes, ip)| == OFF + MAXCHUNK;
    assert Touched(OFF, MAXCHUNK) == 4 && OFF / BSIZE == 11;
    ReachesBound(fs.sb, d0, n0, o0, fs.disk, fs.inodes, fs.owner, fs.logged, ip);
  }

  lemma Appended(f: seq<Byte>, off: nat, w: seq<Byte>)
    requires |f| == off
    ensures |Overlay(f, off, w)| == off + |w| && w[..|w|] == w
  {
  }

  /** Ten logged blocks cannot have filled a disk with more free ones. */
  lemma NotFull(sb: Sb, disk: seq<Block>, inodes: seq<Inode>, o0: Owners, owner: Owners, logged: set<nat>)
    requires Owned(sb, disk, inodes, owner) && TakesLogged(o0, {}, owner, logged) && |logged| <= MAXOPBLOCKS
    requires |FreeBlocks(sb, o0)| > MAXOPBLOCKS
    ensures !Full(sb, disk)
  {
    if Full(sb, disk) {
      forall b | b in FreeBlocks(sb, o0) ensures b in logged { assert Used(sb, disk, b); }
      SubsetSize(FreeBlocks(sb, o0), logged);
    }
  }

  /** A slot that was empty refers to a block that was free. */
  lemma WasFree(sb: Sb, d0: seq<Block>, n0: seq<Inode>, o0: Owners, disk: seq<Block>, inodes: seq<Inode>, owner: Owners,
                logged: set<nat>,
                ip: nat, k: nat)
    requires Owned(sb, d0, n0, o0) && Owned(sb, disk, inodes, owner) && TakesLogged(o0, {}, owner, logged)
    requires ip < |inodes| && k < NREF && R(d0, n0, ip, k) == 0 && R(disk, inodes, ip, k) != 0
    ensures R(disk, inodes, ip, k) in FreeBlocks(sb, o0)
  {
    var b := R(disk, inodes, ip, k);
    assert b in owner && owner[b] == (ip, k);
  }

  lemma HasBlock(sb: Sb, disk: seq<Block>, inodes: seq<Inode>, ip: nat, n: nat)
    requires InodesOk(sb, disk, inodes) && ip < |inodes| && n < MAXFILE && n * BSIZE < inodes[ip].size
    ensures R(disk, inodes, ip, Slot(n)) != 0 && |inodes[ip].addrs| == 13 && |inodes| == sb.ninodes
  {
  }

  lemma NoBlock(disk: seq<Block>, inodes: seq<Inode>, ip: nat, n: nat)
    requires ip < |inodes| && |inodes[ip].addrs| == 13 && inodes[ip].addrs[IND] == 0 && 12 <= n < MAXFILE
    ensures R(disk, inodes, ip, Slot(n)) == 0
  {
  }

  lemma HasIndirect(disk: seq<Block>, inodes: seq<Inode>, ip: nat)
    requires ip < |inodes| && |inodes[ip].addrs| == 13 && R(disk, inodes, ip, Slot(12)) != 0
    ensures inodes[ip].addrs[IND] != 0 && R(disk, inodes, ip, IND) == inodes[ip].addrs[IND]
  {
  }

  lemma ReachesBound(sb: Sb, d0: seq<Block>, n0: seq<Inode>, o0: Owners, disk: seq<Block>, inodes: seq<Inode>,
                     owner: Owners,
                     logged: set<nat>, ip: nat)
    requires Owned(sb, d0, n0, o0) && InodesOk(sb, d0, n0) && Tight(sb, n0, o0, ip)
    requires Owned(sb, disk, inodes, owner) && InodesOk(sb, disk, inodes) && TakesLogged(o0, {}, owner, logged)
    requires ip < |inodes| && inodes[ip].size == OFF + MAXCHUNK
    ensures |inodes[ip].addrs| == 13 && |LogSet(sb, d0, n0, disk, inodes, ip, 11, 4) + {IBlock(sb, ip)}| == MAXOPBLOCKS
  {
    hide Owned, InodesOk, R, LogSet, TakesLogged, Slot;
    HasBlock(sb, d0, n0, ip, 11);
    forall n | 11 <= n <= 14 ensures R(disk, inodes, ip, Slot(n)) != 0 { HasBlock(sb, disk, inodes, ip, n); }
    forall n | 11 < n <= 14 ensures R(d0, n0, ip, Slot(n)) == 0 { NoBlock(d0, n0, ip, n); }
    HasBlock(sb, disk, inodes, ip, 12);
    HasIndirect(disk, inodes, ip);
    RefAt(d0, n0, ip, IND);
    WasFree(sb, d0, n0, o0, disk, inodes, owner, logged, ip, IND);
    forall n | 11 < n <= 14 ensures R(disk, inodes, ip, Slot(n)) in FreeBlocks(sb, o0) {
      SlotFits(n);
      WasFree(sb, d0, n0, o0, disk, inodes, owner, logged, ip, Slot(n));
    }
    FiveApart(sb, disk, inodes, owner, ip, 11);
    BoundIsTight(sb, d0, n0, disk, inodes, owner, ip, 11);
  }

  lemma SlotFits(n: nat)
    requires n < MAXFILE
    ensures Slot(n) < NREF
  {
  }

  // ----- Such a file system -----

  /** The m-th block in use belongs to this slot: file 1 has d direct blocks, the files after it all they can. */
  function Place(d: nat, m: nat): (nat, nat) { if m < d then (1, m) else (2 + (m - d) / NREF, (m - d) % NREF) }

  lemma PlaceOnce(d: nat, m: nat, n: nat)
    requires Place(d, m) == Place(d, n)
    ensures m == n
  {
  }

  /** Metadata marked, and nothing else. */
  lemma {:induction false} Marked(n: nat) returns (disk: seq<Block>)
    requires n <= SB.datastart
    ensures |disk| == SB.size && forall c :: 0 <= c < SB.size ==> (Used(SB, disk, c) <==> c < n)
  {
    if n == 0 {
      disk := seq(SB.size, _ => Zero());
      forall c | 0 <= c < SB.size ensures !Used(SB, disk, c) {
        NoBit(c % BPB);
        BBlockOf(SB, c);
      }
    } else {
      var d := Marked(n - 1);
      disk := Mark(SB, d, n - 1);
      forall c | 0 <= c < SB.size ensures Used(SB, disk, c) <==> c < n { UsedMark(SB, d, n - 1, c); }
    }
  }

  lemma NoBit(i: nat)
    requires i < BPB
    ensures !Bit(Zero(), i)
  {
    NotIn(0, i % 8);
  }

  lemma {:induction false} NotIn(x: nat, k: nat)
    requires x == 0
    ensures !Has(x, k)
  {
    if k > 0 { NotIn(x / 2, k - 1); }
  }

  const EMPTY := [0, 0, 0, 0, 0, 0, 0, 0, 0, 0, 0, 0, 0]

  function NewInodes(): seq<Inode> { seq(SB.ninodes, i => Inode(EMPTY, if i == 1 then OFF else 0)) }

  /** All blocks before b are in use but the spare ones. */
  ghost predicate Filled(d: nat, b: nat, disk: seq<Block>, inodes: seq<Inode>, owner: Owners, blocks: seq<nat>) {
    && Owned(SB, disk, inodes, owner) && SB.datastart <= b <= SB.size && |inodes| == SB.ninodes
    && (forall i :: 0 <= i < |inodes| ==> |inodes[i].addrs| == 13 && inodes[i].size == if i == 1 then OFF else 0)
    && (forall c :: c in owner <==> SB.datastart <= c < b && !Spare(c))
    && |blocks| <= b - SB.datastart && |blocks| >= (if b < BPB then b else BPB) - SB.datastart - 1
    && (b < BPB ==> |blocks| == b - SB.datastart)
    && (forall m :: 0 <= m < |blocks| ==> blocks[m] in owner && owner[blocks[m]] == Place(d, m))
    && forall c :: c in owner ==> c in blocks
  }

  lemma StartFilled(d: nat) returns (disk: seq<Block>)
    ensures Filled(d, SB.datastart, disk, NewInodes(), map[], [])
  {
    disk := Marked(SB.datastart);
    forall i: nat, k: nat ensures R(disk, NewInodes(), i, k) == 0 { }
  }

  /** The next slot is still empty. */
  lemma NextEmpty(d: nat, b: nat, disk: seq<Block>, inodes: seq<Inode>, owner: Owners, blocks: seq<nat>)
    requires d <= 12 && Filled(d, b, disk, inodes, owner, blocks) && b < SB.size
    ensures var (i, k) := Place(d, |blocks|); i < |inodes| && k < NREF && R(disk, inodes, i, k) == 0
  {
    var (i, k) := Place(d, |blocks|);
    if R(disk, inodes, i, k) != 0 {
      var c := R(disk, inodes, i, k);
      var m :| 0 <= m < |blocks| && blocks[m] == c;
      PlaceOnce(d, m, |blocks|);
    }
  }

  /** An entry comes after its indirect block. */
  lemma IndirectFirst(d: nat, b: nat, disk: seq<Block>, inodes: seq<Inode>, owner: Owners, blocks: seq<nat>)
    requires d <= 12 && Filled(d, b, disk, inodes, owner, blocks) && b < SB.size
    ensures var (i, k) := Place(d, |blocks|); k > IND ==> i < |inodes| && 0 < inodes[i].addrs[IND] < SB.size
  {
    hide Owned, R;
    OwnedSize(SB, disk, inodes, owner);
    var (i, k) := Place(d, |blocks|);
    if k > IND {
      var m := |blocks| - (k - IND);
      assert Place(d, m) == (i, IND);
      OwnerRefers(disk, inodes, owner, blocks[m]);
      RefAt(disk, inodes, i, IND);
    }
  }

  lemma FilledMore(d: nat, b: nat, disk: seq<Block>, inodes: seq<Inode>, owner: Owners, blocks: seq<nat>,
                   disk': seq<Block>, inodes': seq<Inode>)
    requires Filled(d, b, disk, inodes, owner, blocks) && b < SB.size && !Spare(b)
    requires Owned(SB, disk', inodes', owner[b := Place(d, |blocks|)]) && |inodes'| == |inodes|
    requires forall i :: 0 <= i < |inodes| ==> |inodes'[i].addrs| == 13 && inodes'[i].size == inodes[i].size
    ensures Filled(d, b + 1, disk', inodes', owner[b := Place(d, |blocks|)], blocks + [b])
  {
    hide Owned, R;
    var owner', blocks' := owner[b := Place(d, |blocks|)], blocks + [b];
    forall m | 0 <= m < |blocks'| ensures blocks'[m] in owner' && owner'[blocks'[m]] == Place(d, m) {
      if m < |blocks| { assert blocks[m] in owner && blocks[m] != b; }
    }
    forall c | c in owner' ensures c in blocks' {
      if c != b { assert c in blocks; }
    }
  }

  lemma OwnedSize(sb: Sb, disk: seq<Block>, inodes: seq<Inode>, owner: Owners)
    requires Owned(sb, disk, inodes, owner)
    ensures LayoutOk(sb) && |disk| == sb.size
  {
  }

  lemma FillOne(d: nat, b: nat, disk: seq<Block>, inodes: seq<Inode>, owner: Owners, blocks: seq<nat>)
    returns (disk': seq<Block>, inodes': seq<Inode>)
    requires d <= 12 && Filled(d, b, disk, inodes, owner, blocks) && b < SB.size && !Spare(b)
    ensures Filled(d, b + 1, disk', inodes', owner[b := Place(d, |blocks|)], blocks + [b])
  {
    hide Owned, R, Place, Spare, Taken, SetEntry;
    OwnedSize(SB, disk, inodes, owner);
    var (i, k) := Place(d, |blocks|);
    NextEmpty(d, b, disk, inodes, owner, blocks);
    IndirectFirst(d, b, disk, inodes, owner, blocks);
    if k <= IND {
      RefAt(disk, inodes, i, k);
      AssignDirect(SB, disk, inodes, owner, i, k, b);
      disk', inodes' := Taken(SB, disk, b), SetSlot(inodes, i, k, b);
    } else {
      AssignEntry(SB, disk, inodes, owner, i, k - IND - 1, b);
      disk', inodes' := SetEntry(Taken(SB, disk, b), inodes[i].addrs[IND], k - IND - 1, b), inodes;
    }
    FilledMore(d, b, disk, inodes, owner, blocks, disk', inodes');
  }

  lemma {:induction false} Fill(d: nat, b: nat) returns (disk: seq<Block>, inodes: seq<Inode>, owner: Owners,
                                blocks: seq<nat>)
    requires d <= 12 && SB.datastart <= b <= SB.size
    ensures Filled(d, b, disk, inodes, owner, blocks)
    decreases b
  {
    hide Filled;
    if b == SB.datastart {
      disk := StartFilled(d);
      inodes, owner, blocks := NewInodes(), map[], [];
    } else {
      disk, inodes, owner, blocks := Fill(d, b - 1);
      if Spare(b - 1) {
        SkipSpare(d, b - 1, disk, inodes, owner, blocks);
      } else {
        disk, inodes := FillOne(d, b - 1, disk, inodes, owner, blocks);
        owner, blocks := owner[b - 1 := Place(d, |blocks|)], blocks + [b - 1];
      }
    }
  }

  lemma SkipSpare(d: nat, b: nat, disk: seq<Block>, inodes: seq<Inode>, owner: Owners, blocks: seq<nat>)
    requires Filled(d, b, disk, inodes, owner, blocks) && b < SB.size && Spare(b)
    ensures Filled(d, b + 1, disk, inodes, owner, blocks)
  {
  }

  lemma SpareFree(d: nat, disk: seq<Block>, inodes: seq<Inode>, owner: Owners, blocks: seq<nat>, b: nat)
    requires Filled(d, SB.size, disk, inodes, owner, blocks)
    ensures b in FreeBlocks(SB, owner) <==> SB.datastart <= b < SB.size && Spare(b)
  {
  }

  lemma SpareMaps(b: nat, c: nat)
    requires b < SB.size && c < SB.size && Spare(b) && Spare(c) && b != c
    ensures BBlock(SB, b) != BBlock(SB, c)
  {
  }

  const SPARES := {BPB - 1, 2 * BPB - 1, 3 * BPB - 1, 4 * BPB - 1, 5 * BPB - 1, 6 * BPB - 1, 7 * BPB - 1, 8 * BPB - 1,
                   9 * BPB - 1, 10 * BPB - 1, 10 * BPB}

  lemma SparesSize()
    ensures |SPARES| == 11 && forall b :: b in SPARES ==> SB.datastart <= b < SB.size && Spare(b)
  {
  }

  lemma FilledTight(d: nat, disk: seq<Block>, inodes: seq<Inode>, owner: Owners, blocks: seq<nat>)
    requires Filled(d, SB.size, disk, inodes, owner, blocks)
    ensures |FreeBlocks(SB, owner)| > MAXOPBLOCKS
    ensures forall b, c :: b in FreeBlocks(SB, owner) && c in FreeBlocks(SB, owner) && b != c ==>
            BBlock(SB, b) != BBlock(SB, c)
  {
    hide Filled, Spare, BBlock, FreeBlocks;
    SparesSize();
    forall b | b in SPARES ensures b in FreeBlocks(SB, owner) { SpareFree(d, disk, inodes, owner, blocks, b); }
    SubsetSize(SPARES, FreeBlocks(SB, owner));
    forall b, c | b in FreeBlocks(SB, owner) && c in FreeBlocks(SB, owner) && b != c
      ensures BBlock(SB, b) != BBlock(SB, c)
    {
      SpareFree(d, disk, inodes, owner, blocks, b);
      SpareFree(d, disk, inodes, owner, blocks, c);
      SpareMaps(b, c);
    }
  }

  /** There is such a file system: the bound of one chunk is reached. */
  lemma TightExists() returns (disk: seq<Block>, inodes: seq<Inode>, owner: Owners)
    ensures Owned(SB, disk, inodes, owner) && InodesOk(SB, disk, inodes) && Tight(SB, inodes, owner, 1)
  {
    var blocks;
    disk, inodes, owner, blocks := Fill(12, SB.size);
    FilledTight(12, disk, inodes, owner, blocks);
    FilledInodes(disk, inodes, owner, blocks);
  }

  lemma FilledInodes(disk: seq<Block>, inodes: seq<Inode>, owner: Owners, blocks: seq<nat>)
    requires Filled(12, SB.size, disk, inodes, owner, blocks)
    ensures InodesOk(SB, disk, inodes) && inodes[1].addrs[IND] == 0
  {
    forall n | 0 <= n < 12 ensures R(disk, inodes, 1, Slot(n)) != 0 {
      assert owner[blocks[n]] == (1, n);
    }
    NoPlace(12, SB.size, disk, inodes, owner, blocks, IND);
    RefAt(disk, inodes, 1, IND);
  }

  /** File 1 has no more than its d direct blocks. */
  lemma NoPlace(d: nat, b: nat, disk: seq<Block>, inodes: seq<Inode>, owner: Owners, blocks: seq<nat>, k: nat)
    requires Filled(d, b, disk, inodes, owner, blocks) && d <= k < NREF
    ensures R(disk, inodes, 1, k) == 0
  {
  }

  // ----- Why the first block matters -----

  /** Blocks of the file are taken from the spare ones: block 11, the indirect block, blocks 12 to 14. */
  function P(n: nat): nat
    requires 1 <= n <= 5
  {
    n * BPB - 1
  }

  lemma Unowned(d: nat, disk: seq<Block>, inodes: seq<Inode>, owner: Owners, blocks: seq<nat>)
    requires Filled(d, SB.size, disk, inodes, owner, blocks)
    ensures forall n :: 1 <= n <= 5 ==> SB.datastart <= P(n) < SB.size && P(n) !in owner
  {
  }

  lemma TakeDirects(d0: seq<Block>, n0: seq<Inode>, o0: Owners) returns (disk: seq<Block>, inodes: seq<Inode>,
                    owner: Owners)
    requires Owned(SB, d0, n0, o0) && 1 < |n0| && |n0[1].addrs| == 13 && n0[1].addrs[11] == 0 && n0[1].addrs[IND] == 0
    requires forall n :: 1 <= n <= 5 ==> SB.datastart <= P(n) < SB.size && P(n) !in o0
    ensures Owned(SB, disk, inodes, owner) && |inodes| == |n0| && |inodes[1].addrs| == 13
    ensures inodes[1].addrs[IND] == P(2)
    ensures owner == o0[P(1) := (1, 11)][P(2) := (1, IND)]
    ensures forall k :: 13 <= k <= 15 ==> R(disk, inodes, 1, k) == 0
  {
    hide Owned, R, Taken;
    OwnedSize(SB, d0, n0, o0);
    var d1, n1 := Taken(SB, d0, P(1)), SetSlot(n0, 1, 11, P(1));
    AssignDirect(SB, d0, n0, o0, 1, 11, P(1));
    disk, inodes, owner := Taken(SB, d1, P(2)), SetSlot(n1, 1, IND, P(2)), o0[P(1) := (1, 11)][P(2) := (1, IND)];
    AssignDirect(SB, d1, n1, o0[P(1) := (1, 11)], 1, IND, P(2));
    forall k | 13 <= k <= 15 ensures R(disk, inodes, 1, k) == 0 {
      NoEntries(d0, n0, 1, k - 13);
      AssignDirectRefs(SB, d0, n0, o0, 1, 11, P(1), 1, k);
      AssignDirectRefs(SB, d1, n1, o0[P(1) := (1, 11)], 1, IND, P(2), 1, k);
    }
  }

  lemma TakeEntry(d0: seq<Block>, inodes: seq<Inode>, o0: Owners, e: nat) returns (disk: seq<Block>)
    requires Owned(SB, d0, inodes, o0) && 1 < |inodes| && |inodes[1].addrs| == 13 && inodes[1].addrs[IND] == P(2)
    requires e < 3 && SB.datastart <= P(3 + e) < SB.size && P(3 + e) !in o0
    requires forall k :: 13 + e <= k <= 15 ==> R(d0, inodes, 1, k) == 0
    ensures Owned(SB, disk, inodes, o0[P(3 + e) := (1, 13 + e)])
    ensures forall k :: 13 + e < k <= 15 ==> R(disk, inodes, 1, k) == 0
  {
    hide Owned, R, Taken, SetEntry;
    OwnedSize(SB, d0, inodes, o0);
    disk := SetEntry(Taken(SB, d0, P(3 + e)), P(2), e, P(3 + e));
    AssignEntry(SB, d0, inodes, o0, 1, e, P(3 + e));
    forall k | 13 + e < k <= 15 ensures R(disk, inodes, 1, k) == 0 {
      AssignEntryRefs(SB, d0, inodes, o0, 1, e, P(3 + e), 1, k);
    }
  }

  predicate TookFive(disk: seq<Block>, inodes: seq<Inode>) {
    && R(disk, inodes, 1, 11) == P(1) && R(disk, inodes, 1, 13) == P(3)
    && R(disk, inodes, 1, 14) == P(4) && R(disk, inodes, 1, 15) == P(5)
  }

  /** The state after bmap has found all blocks of the chunk. */
  lemma TakeFive(d0: seq<Block>, n0: seq<Inode>, o0: Owners) returns (disk: seq<Block>, inodes: seq<Inode>,
                 owner: Owners)
    requires Owned(SB, d0, n0, o0) && 1 < |n0| && |n0[1].addrs| == 13 && n0[1].addrs[11] == 0 && n0[1].addrs[IND] == 0
    requires forall n :: 1 <= n <= 5 ==> SB.datastart <= P(n) < SB.size && P(n) !in o0
    ensures Owned(SB, disk, inodes, owner) && |inodes| == |n0| && |inodes[1].addrs| == 13
    ensures inodes[1].addrs[IND] == P(2)
    ensures TookFive(disk, inodes)
  {
    hide Owned, R;
    disk, inodes, owner := TakeDirects(d0, n0, o0);
    disk := TakeEntry(disk, inodes, owner, 0);
    owner := owner[P(3) := (1, 13)];
    disk := TakeEntry(disk, inodes, owner, 1);
    owner := owner[P(4) := (1, 14)];
    disk := TakeEntry(disk, inodes, owner, 2);
    owner := owner[P(5) := (1, 15)];
    assert owner[P(1)] == (1, 11) && owner[P(3)] == (1, 13) && owner[P(4)] == (1, 14) && owner[P(5)] == (1, 15);
    OwnerRefers(disk, inodes, owner, P(1));
    OwnerRefers(disk, inodes, owner, P(3));
    OwnerRefers(disk, inodes, owner, P(4));
    OwnerRefers(disk, inodes, owner, P(5));
  }

  lemma OwnerRefers(disk: seq<Block>, inodes: seq<Inode>, owner: Owners, b: nat)
    requires Owned(SB, disk, inodes, owner) && b in owner
    ensures R(disk, inodes, owner[b].0, owner[b].1) == b
  {
  }

  /** A file that ends inside a block it does not have, which the invariant of inodes excludes: the same chunk over
      it would log one block more than an operation may. */
  lemma FirstBlockMatters() returns (d0: seq<Block>, n0: seq<Inode>, o0: Owners, disk: seq<Block>, inodes: seq<Inode>,
                          owner: Owners)
    ensures Owned(SB, d0, n0, o0) && 1 < |n0| && |n0[1].addrs| == 13 && n0[1].size == OFF && R(d0, n0, 1, Slot(11)) == 0
    ensures !InodesOk(SB, d0, n0)
    ensures Owned(SB, disk, inodes, owner) && 1 < |inodes| && |inodes[1].addrs| == 13
    ensures |LogSet(SB, d0, n0, disk, inodes, 1, 11, 4) + {IBlock(SB, 1)}| == MAXOPBLOCKS + 1
  {
    hide Owned, R, LogSet, Filled;
    var blocks;
    d0, n0, o0, blocks := Fill(11, SB.size);
    FilledFacts(11, d0, n0, o0, blocks);
    Unowned(11, d0, n0, o0, blocks);
    disk, inodes, owner := TakeFive(d0, n0, o0);
    forall n | 11 <= n <= 14 ensures R(d0, n0, 1, Slot(n)) == 0 { NoPlace(11, SB.size, d0, n0, o0, blocks, Slot(n)); }
    forall n | 11 <= n <= 14 ensures R(disk, inodes, 1, Slot(n)) != 0 { }
    FiveMaps(disk, inodes);
    FirstBlockNew(SB, d0, n0, disk, inodes, owner, 1, 11);
    MissingBlock(d0, n0);
  }

  lemma MissingBlock(disk: seq<Block>, inodes: seq<Inode>)
    requires 1 < |inodes| && inodes[1].size == OFF && R(disk, inodes, 1, Slot(11)) == 0
    ensures !InodesOk(SB, disk, inodes)
  {
    assert 11 * BSIZE < OFF;
  }

  lemma FilledFacts(d: nat, disk: seq<Block>, inodes: seq<Inode>, owner: Owners, blocks: seq<nat>)
    requires Filled(d, SB.size, disk, inodes, owner, blocks) && d <= 11
    ensures Owned(SB, disk, inodes, owner) && |inodes| == SB.ninodes && |inodes[1].addrs| == 13 && inodes[1].size == OFF
    ensures inodes[1].addrs[11] == 0 && inodes[1].addrs[IND] == 0
  {
    hide R, Owned;
    NoPlace(d, SB.size, disk, inodes, owner, blocks, 11);
    NoPlace(d, SB.size, disk, inodes, owner, blocks, IND);
    RefAt(disk, inodes, 1, 11);
    RefAt(disk, inodes, 1, IND);
  }

  lemma FiveMaps(disk: seq<Block>, inodes: seq<Inode>)
    requires 1 < |inodes| && |inodes[1].addrs| == 13 && inodes[1].addrs[IND] == P(2)
    requires TookFive(disk, inodes)
    ensures |MapsOf(SB, disk, inodes, 1, 11) + {BBlock(SB, R(disk, inodes, 1, Slot(11)))}| == 5
  {
    hide R;
    assert MapsOf(SB, disk, inodes, 1, 11) + {BBlock(SB, P(1))} == {58, 59, 60, 61, 62};
  }
}
