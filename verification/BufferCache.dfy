/** The buffer cache of kernel/bio.c: NBUF buffers on one doubly linked ring through the list head,
    ordered by how recently they were last released. */
module BufferCache {
  import opened Prelude
  import opened CrashLog

  const NBUF: nat := 30
  const HEAD: nat := NBUF

  datatype Key = Key(dev: nat, blockno: nat)

  datatype Buf = Buf(valid: bool, dev: nat, blockno: nat, refcnt: nat, locked: bool,
                     prev: nat, next: nat, data: Block)

  /** What the rest of the kernel can observe of a cached block. */
  datatype Cached = Cached(refcnt: nat, valid: bool, locked: bool, data: Block)

  function View(b: Buf): Cached { Cached(b.refcnt, b.valid, b.locked, b.data) }

  function KeyOf(b: Buf): Key { Key(b.dev, b.blockno) }

  // ----- The ring -----

  function Succ(n: nat, i: nat): nat { if i + 1 == n then 0 else i + 1 }

  /** Following next from the head visits ring[0] == HEAD, ring[1], ... and returns; prev goes back. */
  ghost predicate Ring(bufs: seq<Buf>, ring: seq<nat>) {
    && |bufs| == NBUF + 1 && |ring| > 0 && ring[0] == HEAD
    && (forall i :: 0 <= i < |ring| ==> ring[i] <= NBUF)
    && Distinct(ring)
    && (forall i :: 0 <= i < |ring| ==> Chained(bufs, ring[i], ring[Succ(|ring|, i)]))
  }

  predicate Chained(bufs: seq<Buf>, x: nat, y: nat) {
    x < |bufs| && y < |bufs| && bufs[x].next == y && bufs[y].prev == x
  }

  /** b->next->prev = b->prev; b->prev->next = b->next */
  function Unlink(bufs: seq<Buf>, b: nat): seq<Buf>
    requires b < |bufs| && bufs[b].next < |bufs| && bufs[b].prev < |bufs|
  {
    var s := bufs[bufs[b].next := bufs[bufs[b].next].(prev := bufs[b].prev)];
    s[s[b].prev := s[s[b].prev].(next := s[b].next)]
  }

  /** Insert b after the head. */
  function PushFront(bufs: seq<Buf>, b: nat): seq<Buf>
    requires |bufs| == NBUF + 1 && b < NBUF && bufs[HEAD].next <= NBUF
  {
    var s := bufs[b := bufs[b].(next := bufs[HEAD].next, prev := HEAD)];
    var u := s[s[HEAD].next := s[s[HEAD].next].(prev := b)];
    u[HEAD := u[HEAD].(next := b)]
  }

  function Without(ring: seq<nat>, p: nat): seq<nat>
    requires p < |ring|
  {
    ring[..p] + ring[p + 1..]
  }

  /** Apart from the links, two arrays hold the same buffers. */
  ghost predicate SameButLinks(s: seq<Buf>, t: seq<Buf>) {
    |s| == |t| && forall i :: 0 <= i < |s| ==> t[i] == s[i].(prev := t[i].prev, next := t[i].next)
  }

  lemma UnlinkRing(bufs: seq<Buf>, ring: seq<nat>, p: nat)
    requires Ring(bufs, ring) && 0 < p < |ring|
    ensures bufs[ring[p]].next <= NBUF && bufs[ring[p]].prev <= NBUF
    ensures Ring(Unlink(bufs, ring[p]), Without(ring, p))
    ensures SameButLinks(bufs, Unlink(bufs, ring[p]))
    ensures forall x :: x in Without(ring, p) <==> x in ring && x != ring[p]
  {
    var n, b, r := |ring|, ring[p], Without(ring, p);
    var a, c := ring[p - 1], ring[Succ(n, p)];
    assert Succ(n, p - 1) == p && Chained(bufs, a, b) && Chained(bufs, b, c);
    var t := Unlink(bufs, b);
    forall i | 0 <= i < |r|
      ensures Chained(t, r[i], r[Succ(|r|, i)])
    {
      var k := if i < p then i else i + 1;
      assert r[i] == ring[k] && Chained(bufs, ring[k], ring[Succ(n, k)]);
      if k != p - 1 {
        assert r[Succ(|r|, i)] == ring[Succ(n, k)];
      }
    }
  }

  lemma PushFrontRing(bufs: seq<Buf>, ring: seq<nat>, b: nat)
    requires Ring(bufs, ring) && b < NBUF && b !in ring
    ensures bufs[HEAD].next <= NBUF
    ensures Ring(PushFront(bufs, b), [HEAD, b] + ring[1..])
    ensures SameButLinks(bufs, PushFront(bufs, b))
    ensures forall x :: x in [HEAD, b] + ring[1..] <==> x == b || x in ring
  {
    assert ring == [HEAD] + ring[1..];
    var n, r := |ring|, [HEAD, b] + ring[1..];
    assert Chained(bufs, ring[0], ring[Succ(n, 0)]);
    var t := PushFront(bufs, b);
    forall i | 0 <= i < |r|
      ensures Chained(t, r[i], r[Succ(|r|, i)])
    {
      if i >= 2 {
        assert r[i] == ring[i - 1] && Chained(bufs, ring[i - 1], ring[Succ(n, i - 1)]);
        assert r[Succ(|r|, i)] == ring[Succ(n, i - 1)];
      }
    }
  }

  // ----- What the cache holds -----

  /** Assigned buffers have distinct blocks; a buffer never used yet reads device 0, block 0. */
  ghost predicate Unique(bufs: seq<Buf>)
    requires |bufs| == NBUF + 1
  {
    forall i, j :: 0 <= i < NBUF && 0 <= j < NBUF && i != j && bufs[i].dev != 0 ==> KeyOf(bufs[i]) != KeyOf(bufs[j])
  }

  ghost predicate Shows(bufs: seq<Buf>, lines: map<Key, Cached>)
    requires |bufs| == NBUF + 1
  {
    && (forall i :: 0 <= i < NBUF && bufs[i].dev != 0 ==>
          KeyOf(bufs[i]) in lines && lines[KeyOf(bufs[i])] == View(bufs[i]))
    && (forall k :: k in lines ==> exists i :: 0 <= i < NBUF && bufs[i].dev != 0 && KeyOf(bufs[i]) == k)
  }

  /** bget on the observable cache: one more reference to k's line, or a new unread line that may
      displace an unreferenced one. */
  function GetLine(lines: map<Key, Cached>, k: Key, victim: Option<Key>, stale: Block): map<Key, Cached> {
    var kept := if victim.Some? then lines - {victim.value} else lines;
    if k in kept then kept[k := kept[k].(refcnt := kept[k].refcnt + 1)]
    else kept[k := Cached(1, false, false, stale)]
  }

  /** Replacing a buffer by one with the same links keeps the ring. */
  lemma RingUpdate(bufs: seq<Buf>, ring: seq<nat>, b: nat, v: Buf)
    requires Ring(bufs, ring) && b <= NBUF && v.prev == bufs[b].prev && v.next == bufs[b].next
    ensures Ring(bufs[b := v], ring)
  {
  }

  /** Changing an assigned buffer in place, without giving it to another block. */
  lemma SameKeyUpdate(bufs: seq<Buf>, lines: map<Key, Cached>, b: nat, v: Buf)
    requires |bufs| == NBUF + 1 && Unique(bufs) && Shows(bufs, lines)
    requires b < NBUF && bufs[b].dev != 0 && KeyOf(v) == KeyOf(bufs[b])
    ensures Unique(bufs[b := v]) && Shows(bufs[b := v], lines[KeyOf(v) := View(v)])
  {
    var s, l := bufs[b := v], lines[KeyOf(v) := View(v)];
    forall k | k in l
      ensures exists i :: 0 <= i < NBUF && s[i].dev != 0 && KeyOf(s[i]) == k
    {
      if k == KeyOf(v) {
        assert KeyOf(s[b]) == k;
      } else {
        var i :| 0 <= i < NBUF && bufs[i].dev != 0 && KeyOf(bufs[i]) == k;
        assert s[i] == bufs[i];
      }
    }
  }

  /** Giving an unreferenced buffer to a block that has none. */
  lemma RecycleUpdate(bufs: seq<Buf>, lines: map<Key, Cached>, b: nat, v: Buf)
    requires |bufs| == NBUF + 1 && Unique(bufs) && Shows(bufs, lines)
    requires b < NBUF && v.dev != 0 && forall i :: 0 <= i < NBUF ==> KeyOf(bufs[i]) != KeyOf(v)
    requires v.refcnt == 1 && !v.valid && !v.locked
    ensures KeyOf(v) !in lines
    ensures Unique(bufs[b := v])
    ensures Shows(bufs[b := v], GetLine(lines, KeyOf(v), OldKey(bufs[b]), v.data))
  {
    var s, l := bufs[b := v], GetLine(lines, KeyOf(v), OldKey(bufs[b]), v.data);
    assert s[b] == v;
    forall k | k in l
      ensures exists i :: 0 <= i < NBUF && s[i].dev != 0 && KeyOf(s[i]) == k
    {
      if k == KeyOf(v) {
        assert KeyOf(s[b]) == k;
      } else {
        var i :| 0 <= i < NBUF && bufs[i].dev != 0 && KeyOf(bufs[i]) == k;
        assert i != b && s[i] == bufs[i];
      }
    }
  }

  function OldKey(was: Buf): Option<Key> { if was.dev == 0 then None else Some(KeyOf(was)) }

  function Drop(lines: map<Key, Cached>, victim: Option<Key>): map<Key, Cached> {
    if victim.Some? then lines - {victim.value} else lines
  }

  /** The locked, valid line bread hands out: the cached data if there is any, else the disk's. */
  function Fetched(lines: map<Key, Cached>, disk: map<Key, Block>, k: Key): Cached
    requires k in disk
  {
    if k in lines then Cached(lines[k].refcnt + 1, true, true, if lines[k].valid then lines[k].data else disk[k])
    else Cached(1, true, true, disk[k])
  }

  /** The blocks whose buffers are referenced. */
  ghost function Busy(lines: map<Key, Cached>): set<Key> { set k | k in lines && lines[k].refcnt > 0 }

  /** With an unreferenced buffer, fewer than NBUF blocks are referenced. */
  lemma SomeFree(bufs: seq<Buf>, lines: map<Key, Cached>, i: nat)
    requires |bufs| == NBUF + 1 && Shows(bufs, lines) && i < NBUF && bufs[i].refcnt == 0
    ensures |Busy(lines)| < NBUF
  {
    var others := seq(NBUF - 1, j requires 0 <= j < NBUF - 1 => KeyOf(bufs[if j < i then j else j + 1]));
    forall k | k in Busy(lines)
      ensures k in others
    {
      var j :| 0 <= j < NBUF && bufs[j].dev != 0 && KeyOf(bufs[j]) == k;
      assert k == if j < i then others[j] else others[j - 1];
    }
    SetSize(others);
    SubsetSize(Busy(lines), Elements(others));
  }

  /** All buffers are referenced exactly when NBUF blocks are. */
  lemma BusyCount(bufs: seq<Buf>, lines: map<Key, Cached>)
    requires |bufs| == NBUF + 1 && Unique(bufs) && Shows(bufs, lines)
    requires forall b :: 0 <= b < NBUF && bufs[b].refcnt > 0 ==> bufs[b].dev != 0
    ensures (forall i :: 0 <= i < NBUF ==> bufs[i].refcnt > 0) <==> |Busy(lines)| >= NBUF
    ensures |Busy(lines)| >= NBUF ==> Busy(lines) == lines.Keys
  {
    if i :| 0 <= i < NBUF && bufs[i].refcnt == 0 {
      SomeFree(bufs, lines, i);
    } else {
      var keys := seq(NBUF, i requires 0 <= i < NBUF => KeyOf(bufs[i]));
      DistinctSize(keys);
      SubsetSize(Elements(keys), Busy(lines));
    }
  }

  lemma NotHead(bufs: seq<Buf>, ring: seq<nat>, p: nat)
    requires Ring(bufs, ring) && 0 < p < |ring|
    ensures ring[p] < NBUF && Without(ring, p)[0] == HEAD
  {
  }

  class BCache {
    var bufs: seq<Buf>
    var disk: map<Key, Block>
    ghost var ring: seq<nat>
    ghost var lines: map<Key, Cached>

    ghost predicate Valid()
      reads this
    {
      && |bufs| == NBUF + 1 && Ring(bufs, ring)
      && (forall b :: 0 <= b < NBUF ==> b in ring)
      && Unique(bufs) && Shows(bufs, lines)
      && (forall b :: 0 <= b < NBUF && bufs[b].locked ==> bufs[b].refcnt > 0)
      && (forall b :: 0 <= b < NBUF && bufs[b].refcnt > 0 ==> bufs[b].dev != 0)
    }

    /** binit */
    constructor (image: map<Key, Block>)
      ensures Valid() && lines == map[] && disk == image
      ensures forall b :: 0 <= b < NBUF ==> !bufs[b].valid && bufs[b].refcnt == 0
    {
      var empty := Buf(false, 0, 0, 0, false, HEAD, HEAD, seq(WORDS, _ => 0));
      bufs := seq(NBUF + 1, _ => empty);
      disk := image;
      ring := [HEAD];
      lines := map[];
      new;
      var b := 0;
      while b < NBUF
        invariant 0 <= b <= NBUF
        invariant Ring(bufs, ring)
        invariant forall i :: 0 <= i < b ==> i in ring
        invariant forall i :: b <= i < NBUF ==> i !in ring
        invariant forall i :: 0 <= i <= NBUF ==> bufs[i] == empty.(prev := bufs[i].prev, next := bufs[i].next)
        invariant lines == map[] && disk == image
      {
        PushFrontRing(bufs, ring, b);
        bufs := PushFront(bufs, b);
        ring := [HEAD, b] + ring[1..];
        b := b + 1;
      }
    }

    /** The least recently used buffer nobody references: every node behind it on the ring is in use. */
    ghost predicate LruUnused(b: nat)
      requires Valid()
      reads this
    {
      && b < NBUF && bufs[b].refcnt == 0
      && exists p :: 0 < p < |ring| && ring[p] == b && forall j :: p < j < |ring| ==> bufs[ring[j]].refcnt > 0
    }

    /** First loop of bget: forward from the most recently used.  HEAD when the block is not cached. */
    method FindCached(k: Key) returns (b: nat)
      requires Valid() && k.dev != 0
      ensures b <= NBUF
      ensures b < NBUF ==> KeyOf(bufs[b]) == k && k in lines
      ensures b == HEAD ==> k !in lines && forall x :: 0 <= x < NBUF ==> KeyOf(bufs[x]) != k
    {
      ghost var i := 1;
      b := bufs[HEAD].next;
      assert Chained(bufs, ring[0], ring[Succ(|ring|, 0)]);
      while b != HEAD
        invariant 1 <= i <= |ring| && b == if i < |ring| then ring[i] else HEAD
        invariant forall j :: 1 <= j < i ==> KeyOf(bufs[ring[j]]) != k
        decreases |ring| - i
      {
        if bufs[b].dev == k.dev && bufs[b].blockno == k.blockno {
          return;
        }
        assert Chained(bufs, ring[i], ring[Succ(|ring|, i)]);
        b := bufs[b].next;
        i := i + 1;
      }
      forall x | 0 <= x < NBUF
        ensures KeyOf(bufs[x]) != k
      {
        assert x in ring;
        var j :| 0 <= j < |ring| && ring[j] == x;
      }
    }

    /** Second loop of bget: backward from the least recently used.  HEAD when all are referenced. */
    method FindUnused() returns (b: nat)
      requires Valid()
      ensures b <= NBUF
      ensures b < NBUF ==> LruUnused(b)
      ensures b == HEAD ==> forall i :: 0 <= i < NBUF ==> bufs[i].refcnt > 0
    {
      ghost var p := |ring| - 1;
      b := bufs[HEAD].prev;
      assert Chained(bufs, ring[p], ring[Succ(|ring|, p)]);
      while b != HEAD
        invariant 0 <= p < |ring| && b == ring[p]
        invariant forall j :: p < j < |ring| ==> bufs[ring[j]].refcnt > 0
        decreases p
      {
        if bufs[b].refcnt == 0 {
          return;
        }
        assert Chained(bufs, ring[p - 1], ring[Succ(|ring|, p - 1)]);
        b := bufs[b].prev;
        p := p - 1;
      }
      assert p == 0;
      forall x | 0 <= x < NBUF
        ensures bufs[x].refcnt > 0
      {
        assert x in ring;
        var j :| 0 <= j < |ring| && ring[j] == x;
      }
    }

    /** bget, up to releasing bcache.lock.  None is the "no buffers" panic.  ROOTDEV is the only
        device, and it is not 0. */
    method Bget(k: Key) returns (r: Option<nat>)
      requires Valid() && k.dev != 0
      modifies this
      ensures Valid() && ring == old(ring) && disk == old(disk)
      ensures r == None <==> k !in old(lines) && forall i :: 0 <= i < NBUF ==> old(bufs)[i].refcnt > 0
      ensures r == None ==> bufs == old(bufs) && lines == old(lines)
      ensures r.Some? ==> r.value < NBUF && KeyOf(bufs[r.value]) == k && bufs == old(bufs)[r.value := bufs[r.value]]
      ensures r.Some? && k in old(lines) ==>
                KeyOf(old(bufs)[r.value]) == k && lines == GetLine(old(lines), k, None, bufs[r.value].data)
      ensures r.Some? && k !in old(lines) ==>
                && old(LruUnused(r.value))
                && lines == GetLine(old(lines), k, OldKey(old(bufs)[r.value]), bufs[r.value].data)
    {
      hide Ring, Unique, Shows, GetLine, View;
      var b := FindCached(k);
      if b != HEAD {
        var v := bufs[b].(refcnt := bufs[b].refcnt + 1);
        Hit(k, b, v);
        bufs, lines := bufs[b := v], GetLine(lines, k, None, v.data);
        return Some(b);
      }
      b := FindUnused();
      if b != HEAD {
        var v := bufs[b].(dev := k.dev, blockno := k.blockno, valid := false, refcnt := 1);
        RingUpdate(bufs, ring, b, v);
        RecycleUpdate(bufs, lines, b, v);
        bufs, lines := bufs[b := v], GetLine(lines, k, OldKey(bufs[b]), v.data);
        return Some(b);
      }
      r := None;
    }

    lemma Hit(k: Key, b: nat, v: Buf)
      requires Valid() && k.dev != 0 && b < NBUF && KeyOf(bufs[b]) == k
      requires v == bufs[b].(refcnt := bufs[b].refcnt + 1)
      ensures Ring(bufs[b := v], ring) && Unique(bufs[b := v])
      ensures Shows(bufs[b := v], GetLine(lines, k, None, v.data))
    {
      RingUpdate(bufs, ring, b, v);
      SameKeyUpdate(bufs, lines, b, v);
      assert GetLine(lines, k, None, v.data) == lines[k := View(v)];
    }

    /** acquiresleep once the lock is free; waiting for it is up to the scheduler. */
    method AcquireSleep(b: nat)
      requires Valid() && b < NBUF && bufs[b].dev != 0 && bufs[b].refcnt > 0 && !bufs[b].locked
      modifies this
      ensures Valid() && ring == old(ring) && disk == old(disk)
      ensures bufs == old(bufs)[b := old(bufs)[b].(locked := true)]
      ensures lines == old(lines)[KeyOf(old(bufs)[b]) := View(bufs[b])]
    {
      Change(b, bufs[b].(locked := true));
    }

    /** An in-place change of an assigned buffer that keeps its block and its place on the ring. */
    method Change(b: nat, v: Buf)
      requires Valid() && b < NBUF && bufs[b].dev != 0
      requires KeyOf(v) == KeyOf(bufs[b]) && v.prev == bufs[b].prev && v.next == bufs[b].next
      requires v.locked ==> v.refcnt > 0
      modifies this
      ensures Valid() && ring == old(ring) && disk == old(disk)
      ensures bufs == old(bufs)[b := v] && lines == old(lines)[KeyOf(v) := View(v)]
    {
      hide Ring, Unique, Shows;
      RingUpdate(bufs, ring, b, v);
      SameKeyUpdate(bufs, lines, b, v);
      bufs, lines := bufs[b := v], lines[KeyOf(v) := View(v)];
    }

    /** bread when no one else holds the block: the locked buffer has the cached data if there is
        any, else the disk's, and only an unreferenced buffer was given up for it. */
    method Bread(k: Key) returns (r: Option<nat>, ghost victim: Option<Key>)
      requires Valid() && k.dev != 0 && k in disk
      requires k in lines ==> !lines[k].locked
      modifies this
      ensures Valid() && ring == old(ring) && disk == old(disk)
      ensures r == None <==> k !in old(lines) && forall i :: 0 <= i < NBUF ==> old(bufs)[i].refcnt > 0
      ensures r == None ==> bufs == old(bufs) && lines == old(lines)
      ensures r.Some? ==>
                && r.value < NBUF && KeyOf(bufs[r.value]) == k
                && (victim.Some? ==>
                       k !in old(lines) && victim.value in old(lines) && old(lines)[victim.value].refcnt == 0)
                && lines == Drop(old(lines), victim)[k := View(bufs[r.value])]
                && View(bufs[r.value]) == Fetched(old(lines), disk, k)
                && forall j :: 0 <= j < NBUF && old(bufs)[j].refcnt > 0 ==> KeyOf(bufs[j]) == KeyOf(old(bufs)[j])
    {
      hide Ring, Unique, Shows;
      victim := None;
      r := Bget(k);
      if r.Some? {
        victim := if k in old(lines) then None else OldKey(old(bufs)[r.value]);
        Settled(r.value, old(bufs), old(lines), k);
        AcquireSleep(r.value);
        if !bufs[r.value].valid {
          Change(r.value, bufs[r.value].(valid := true, data := disk[k]));
        }
      }
    }

    /** After bget: k's line, and what may be gone for it. */
    lemma Settled(b: nat, was: seq<Buf>, before: map<Key, Cached>, k: Key)
      requires Valid() && |was| == NBUF + 1 && b < NBUF && KeyOf(bufs[b]) == k && k.dev != 0
      requires Unique(was) && Shows(was, before) && bufs == was[b := bufs[b]]
      requires k in before ==> lines == GetLine(before, k, None, bufs[b].data)
      requires k !in before ==> lines == GetLine(before, k, OldKey(was[b]), bufs[b].data) && was[b].refcnt == 0
      ensures lines == Drop(before, if k in before then None else OldKey(was[b]))[k := View(bufs[b])]
      ensures k in before ==> View(bufs[b]) == before[k].(refcnt := before[k].refcnt + 1)
      ensures k !in before ==> bufs[b].refcnt == 1 && !bufs[b].valid && !bufs[b].locked
      ensures k !in before && was[b].dev != 0 ==> KeyOf(was[b]) in before && before[KeyOf(was[b])].refcnt == 0
    {
      if k !in before && was[b].dev != 0 {
        assert before[KeyOf(was[b])] == View(was[b]);
      }
      assert k in lines && lines[k] == View(bufs[b]);
    }

    method Bwrite(b: nat)
      requires Valid() && b < NBUF && bufs[b].locked
      modifies this`disk
      ensures disk == old(disk)[KeyOf(bufs[b]) := bufs[b].data]
      ensures Valid()
    {
      disk := disk[KeyOf(bufs[b]) := bufs[b].data];
    }

    /** brelse: the last reference moves the buffer to the most recently used end. */
    method Brelse(b: nat)
      requires Valid() && b < NBUF && bufs[b].locked && bufs[b].dev != 0
      modifies this
      ensures Valid() && disk == old(disk)
      ensures SameButLinks(old(bufs)[b := old(bufs)[b].(locked := false, refcnt := old(bufs)[b].refcnt - 1)], bufs)
      ensures lines == old(lines)[KeyOf(old(bufs)[b]) := old(View(bufs[b])).(locked := false, refcnt := old(bufs)[b].refcnt - 1)]
      ensures old(bufs)[b].refcnt > 1 ==> ring == old(ring)
      ensures old(bufs)[b].refcnt == 1 ==> |ring| > 1 && ring[1] == b && SameOrder(old(ring), ring, b)
    {
      hide Ring, Unique, Shows, SameOrder, Unlink, PushFront;
      Change(b, bufs[b].(locked := false, refcnt := bufs[b].refcnt - 1));
      if bufs[b].refcnt == 0 {
        MoveToFront(b);
      }
    }

    method MoveToFront(b: nat)
      requires Valid() && b < NBUF
      modifies this`bufs, this`ring
      ensures Valid() && SameButLinks(old(bufs), bufs)
      ensures |ring| > 1 && ring[1] == b && SameOrder(old(ring), ring, b)
    {
      hide Unique, Shows, SameOrder, Unlink, PushFront;
      ghost var p := Position(b);
      MoveOk(p);
      bufs := Unlink(bufs, b);
      bufs := PushFront(bufs, b);
      ring := [HEAD, b] + Without(ring, p)[1..];
    }

    lemma Position(b: nat) returns (p: nat)
      requires Valid() && b < NBUF
      ensures 0 < p < |ring| && ring[p] == b
    {
      assert b in ring;
      p :| 0 <= p < |ring| && ring[p] == b;
    }

    lemma MoveOk(p: nat)
      requires Valid() && 0 < p < |ring|
      ensures bufs[ring[p]].next <= NBUF && bufs[ring[p]].prev <= NBUF
      ensures var t := Unlink(bufs, ring[p]); var r := [HEAD, ring[p]] + Without(ring, p)[1..];
              && |t| == NBUF + 1 && t[HEAD].next <= NBUF
              && var s := PushFront(t, ring[p]);
              && Ring(s, r) && SameButLinks(bufs, s) && SameOrder(ring, r, ring[p])
              && (forall b :: 0 <= b < NBUF ==> b in r)
              && Unique(s) && Shows(s, lines)
    {
      hide Ring, Unlink, PushFront, Unique, Shows;
      NotHead(bufs, ring, p);
      UnlinkRing(bufs, ring, p);
      var t, r := Unlink(bufs, ring[p]), Without(ring, p);
      PushFrontRing(t, r, ring[p]);
      ShowsLinks(bufs, PushFront(t, ring[p]), lines);
      var r' := [HEAD, ring[p]] + r[1..];
      assert r'[1] == ring[p] && Without(r', 1) == r;
    }

    method Bpin(b: nat)
      requires Valid() && b < NBUF && bufs[b].dev != 0
      modifies this
      ensures Valid() && ring == old(ring) && disk == old(disk)
      ensures bufs == old(bufs)[b := old(bufs)[b].(refcnt := old(bufs)[b].refcnt + 1)]
      ensures lines == old(lines)[KeyOf(old(bufs)[b]) := View(bufs[b])]
    {
      Change(b, bufs[b].(refcnt := bufs[b].refcnt + 1));
    }

    /** bunpin undoes bpin; a locked buffer is still referenced by its holder. */
    method Bunpin(b: nat)
      requires Valid() && b < NBUF && bufs[b].dev != 0
      requires bufs[b].refcnt > if bufs[b].locked then 1 else 0
      modifies this
      ensures Valid() && ring == old(ring) && disk == old(disk)
      ensures bufs == old(bufs)[b := old(bufs)[b].(refcnt := old(bufs)[b].refcnt - 1)]
      ensures lines == old(lines)[KeyOf(old(bufs)[b]) := View(bufs[b])]
    {
      Change(b, bufs[b].(refcnt := bufs[b].refcnt - 1));
    }

    /** Overwrite a locked buffer, write it to disk and drop a pin if asked: install_trans and write_log. */
    method Overwrite(b: nat, d: Block, unpin: bool)
      requires Valid() && b < NBUF && bufs[b].locked && bufs[b].dev != 0
      requires unpin ==> bufs[b].refcnt > 1
      modifies this
      ensures Valid() && ring == old(ring)
      ensures disk == old(disk)[KeyOf(old(bufs)[b]) := d]
      ensures lines == old(lines)[KeyOf(old(bufs)[b]) := Overwritten(old(View(bufs[b])), d, unpin)]
      ensures forall j :: 0 <= j < NBUF ==> KeyOf(bufs[j]) == old(KeyOf(bufs[j]))
    {
      hide Ring, Unique, Shows;
      Change(b, bufs[b].(data := d));
      Bwrite(b);
      if unpin {
        Bunpin(b);
      }
    }
  }

  function Overwritten(l: Cached, d: Block, unpin: bool): Cached {
    l.(data := d, refcnt := if unpin && l.refcnt > 0 then l.refcnt - 1 else l.refcnt)
  }

  /** All nodes but b are visited in the same order as before. */
  ghost predicate SameOrder(before: seq<nat>, after: seq<nat>, b: nat) {
    exists p, q :: 0 <= p < |before| && before[p] == b && 0 <= q < |after| && after[q] == b
                   && Without(before, p) == Without(after, q)
  }

  lemma ShowsLinks(s: seq<Buf>, t: seq<Buf>, lines: map<Key, Cached>)
    requires |s| == NBUF + 1 && Unique(s) && Shows(s, lines) && SameButLinks(s, t)
    ensures Unique(t) && Shows(t, lines)
  {
  }

  // ----- The step system of module CrashLog uses the same cache -----

  const ROOTDEV: nat := 1

  function Watched(l: Line): Cached { Cached(l.refcnt, l.valid, l.owner.Some?, l.data) }

  function Observe(cache: map<nat, Line>): map<Key, Cached> {
    map b | b in cache :: Key(ROOTDEV, b) := Watched(cache[b])
  }

  /** Its Get action is bget on the observable cache. */
  lemma GetAgrees(cache: map<nat, Line>, t: nat, b: nat, victim: Option<nat>, stale: Block)
    requires victim.Some? ==> victim.value != b
    ensures Observe(Gotten(cache, t, b, victim, stale)) ==
            GetLine(Observe(cache), Key(ROOTDEV, b),
                    if victim.Some? then Some(Key(ROOTDEV, victim.value)) else None, stale)
  {
    var n := Gotten(cache, t, b, victim, stale);
    var m := GetLine(Observe(cache), Key(ROOTDEV, b),
                     if victim.Some? then Some(Key(ROOTDEV, victim.value)) else None, stale);
    forall k
      ensures k in Observe(n) <==> k in m
      ensures k in m ==> Observe(n)[k] == m[k]
    {
      assert k in m ==> k == Key(ROOTDEV, k.blockno);
    }
  }
}
