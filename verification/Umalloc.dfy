/** The user-level allocator of user/umalloc.c: a circular, address-ordered list of free blocks threaded
    through the headers in front of them.  Addresses are byte addresses; sizes count 16-byte headers. */
module Umalloc {

  const UNIT: nat := 16

  /** RAM available to processes (PHYSTOP - KERNBASE): no process is larger. */
  const TOP: nat := 0x8000000

  datatype Header = Header(ptr: nat, size: nat)

  /** A block: its address and its size in units, the header included. */
  datatype Block = Block(at: nat, size: nat)

  function End(b: Block): nat { b.at + UNIT * b.size }

  // ----- The free list as a sequence, base first -----

  /** Sorted by address and disjoint; a block may touch the next one only from lo up to hi; only base is empty. */
  ghost predicate Sorted(blocks: seq<Block>, lo: nat, hi: nat) {
    && |blocks| > 0 && blocks[0].size == 0
    && (forall i :: 0 < i < |blocks| ==> blocks[i].size > 0 && blocks[0].at + UNIT <= blocks[i].at)
    && (forall i, j :: 0 <= i < j < |blocks| ==>
          End(blocks[i]) <= blocks[j].at && (End(blocks[i]) == blocks[j].at ==> lo <= i < hi))
  }

  /** No two free blocks are adjacent. */
  ghost predicate Canonical(blocks: seq<Block>) { Sorted(blocks, 0, 0) }

  ghost predicate IsFree(blocks: seq<Block>, x: nat) {
    exists i :: 0 <= i < |blocks| && blocks[i].at <= x < End(blocks[i])
  }

  ghost function Units(blocks: seq<Block>): nat {
    if blocks == [] then 0 else blocks[0].size + Units(blocks[1..])
  }

  lemma {:induction false} UnitsConcat(a: seq<Block>, b: seq<Block>)
    ensures Units(a + b) == Units(a) + Units(b)
  {
    if a == [] {
      assert a + b == b;
    } else {
      UnitsConcat(a[1..], b);
      assert (a + b)[1..] == a[1..] + b;
    }
  }

  /** b fits between block k and the one after it. */
  ghost predicate Gap(blocks: seq<Block>, k: nat, b: Block) {
    && k < |blocks| && b.size > 0 && blocks[0].at + UNIT <= b.at && End(blocks[k]) <= b.at
    && (k + 1 < |blocks| ==> End(b) <= blocks[k + 1].at)
  }

  ghost function Insert(blocks: seq<Block>, k: nat, b: Block): seq<Block>
    requires k < |blocks|
  {
    blocks[..k + 1] + [b] + blocks[k + 1..]
  }

  ghost predicate Touches(blocks: seq<Block>, i: nat) {
    i + 1 < |blocks| && End(blocks[i]) == blocks[i + 1].at
  }

  ghost function Joined(blocks: seq<Block>, i: nat): seq<Block>
    requires i + 1 < |blocks|
  {
    blocks[..i] + [Block(blocks[i].at, blocks[i].size + blocks[i + 1].size)] + blocks[i + 2..]
  }

  /** Block i merged with the next one when they touch. */
  ghost function Join(blocks: seq<Block>, i: nat): seq<Block> {
    if Touches(blocks, i) then Joined(blocks, i) else blocks
  }

  /** The list with b put after block k and merged with its neighbours. */
  ghost function Put(blocks: seq<Block>, k: nat, b: Block): seq<Block>
    requires k < |blocks|
  {
    Join(Join(Insert(blocks, k, b), k + 1), k)
  }

  lemma Order(blocks: seq<Block>, i: nat, j: nat)
    requires Canonical(blocks) && i < j < |blocks|
    ensures End(blocks[i]) < blocks[j].at
  {
  }

  lemma InsertOrder(blocks: seq<Block>, k: nat, b: Block, i: nat, j: nat)
    requires Canonical(blocks) && Gap(blocks, k, b) && i < j <= |blocks|
    ensures var one := Insert(blocks, k, b);
      End(one[i]) <= one[j].at && (End(one[i]) == one[j].at ==> k <= i < k + 2)
  {
    hide Sorted;
    if j == k + 1 {
      if i < k { Order(blocks, i, k); }
    } else if i == k + 1 {
      if j > k + 2 { Order(blocks, k + 1, j - 1); }
    } else {
      Order(blocks, if i <= k then i else i - 1, if j <= k then j else j - 1);
    }
  }

  lemma InsertSorted(blocks: seq<Block>, k: nat, b: Block)
    requires Canonical(blocks) && Gap(blocks, k, b)
    ensures Sorted(Insert(blocks, k, b), k, k + 2)
  {
    var one := Insert(blocks, k, b);
    assert one[0] == blocks[0];
    forall i, j | 0 <= i < j < |one|
      ensures End(one[i]) <= one[j].at && (End(one[i]) == one[j].at ==> k <= i < k + 2)
    {
      InsertOrder(blocks, k, b, i, j);
    }
  }

  lemma JoinedSorted(blocks: seq<Block>, lo: nat, i: nat)
    requires Sorted(blocks, lo, i + 1) && lo <= i && 0 < i && Touches(blocks, i)
    ensures Sorted(Joined(blocks, i), lo, i)
  {
    var n := Joined(blocks, i);
    assert n[0] == blocks[0] && n[i].at == blocks[i].at && End(n[i]) == End(blocks[i + 1]);
    assert forall j :: 0 <= j < i ==> n[j] == blocks[j];
    assert forall j :: i < j < |n| ==> n[j] == blocks[j + 1];
    forall j, m | 0 <= j < m < |n|
      ensures End(n[j]) <= n[m].at && (End(n[j]) == n[m].at ==> lo <= j < i)
    {
      var a := if j < i then j else j + 1;
      var b := if m <= i then m else m + 1;
      assert End(n[j]) == End(blocks[a]) && n[m].at == blocks[b].at;
    }
  }

  lemma JoinSorted(blocks: seq<Block>, lo: nat, i: nat)
    requires Sorted(blocks, lo, i + 1) && lo <= i
    ensures Sorted(Join(blocks, i), lo, i)
  {
    if Touches(blocks, i) {
      JoinedSorted(blocks, lo, i);
    }
  }

  lemma PutCanonical(blocks: seq<Block>, k: nat, b: Block)
    requires Canonical(blocks) && Gap(blocks, k, b)
    ensures Canonical(Put(blocks, k, b))
  {
    hide Insert, Join, Sorted;
    InsertSorted(blocks, k, b);
    var one := Insert(blocks, k, b);
    JoinSorted(one, k, k + 1);
    JoinSorted(Join(one, k + 1), k, k);
    NoneLeft(Put(blocks, k, b), k);
  }

  lemma NoneLeft(blocks: seq<Block>, k: nat)
    requires Sorted(blocks, k, k)
    ensures Canonical(blocks)
  {
  }

  lemma InsertUnits(blocks: seq<Block>, k: nat, b: Block)
    requires k < |blocks|
    ensures Units(Insert(blocks, k, b)) == Units(blocks) + b.size
  {
    assert blocks == blocks[..k + 1] + blocks[k + 1..];
    assert Insert(blocks, k, b) == blocks[..k + 1] + ([b] + blocks[k + 1..]);
    UnitsConcat(blocks[..k + 1], blocks[k + 1..]);
    UnitsConcat(blocks[..k + 1], [b] + blocks[k + 1..]);
  }

  lemma UnitsMore(a: Block, rest: seq<Block>)
    ensures Units([a] + rest) == a.size + Units(rest)
  {
  }

  lemma JoinedUnits(blocks: seq<Block>, i: nat)
    requires i + 1 < |blocks|
    ensures Units(Joined(blocks, i)) == Units(blocks)
  {
    hide Units;
    var a, b := blocks[i], blocks[i + 1];
    var m := Block(a.at, a.size + b.size);
    var rest := blocks[i + 2..];
    assert Joined(blocks, i) == blocks[..i] + ([m] + rest);
    assert blocks == blocks[..i] + ([a] + ([b] + rest));
    UnitsConcat(blocks[..i], [m] + rest);
    UnitsConcat(blocks[..i], [a] + ([b] + rest));
    UnitsMore(m, rest);
    UnitsMore(a, [b] + rest);
    UnitsMore(b, rest);
  }

  lemma PutUnits(blocks: seq<Block>, k: nat, b: Block)
    requires k < |blocks|
    ensures Units(Put(blocks, k, b)) == Units(blocks) + b.size
  {
    hide Units, Insert, Joined, Touches;
    var one := Insert(blocks, k, b);
    InsertUnits(blocks, k, b);
    var two := Join(one, k + 1);
    if Touches(one, k + 1) { TouchesIn(one, k + 1); JoinedUnits(one, k + 1); }
    if Touches(two, k) { TouchesIn(two, k); JoinedUnits(two, k); }
  }

  lemma TouchesIn(blocks: seq<Block>, i: nat)
    requires Touches(blocks, i)
    ensures i + 1 < |blocks|
  {
  }

  lemma InsertFree(blocks: seq<Block>, k: nat, b: Block, x: nat)
    requires k < |blocks|
    ensures IsFree(Insert(blocks, k, b), x) <==> IsFree(blocks, x) || b.at <= x < End(b)
  {
    var n := Insert(blocks, k, b);
    assert n[k + 1] == b;
    assert forall i :: 0 <= i <= k ==> n[i] == blocks[i];
    assert forall i :: k < i < |blocks| ==> n[i + 1] == blocks[i];
  }

  lemma JoinFree(blocks: seq<Block>, i: nat, x: nat)
    ensures IsFree(Join(blocks, i), x) <==> IsFree(blocks, x)
  {
    if Touches(blocks, i) {
      var n := Joined(blocks, i);
      assert End(n[i]) == End(blocks[i + 1]);
      assert forall j :: 0 <= j < i ==> n[j] == blocks[j];
      assert forall j :: i + 1 < j < |blocks| ==> n[j - 1] == blocks[j];
      assert forall j :: i < j < |n| ==> n[j] == blocks[j + 1];
    }
  }

  /** Freeing b makes exactly its bytes free. */
  lemma PutFree(blocks: seq<Block>, k: nat, b: Block, x: nat)
    requires k < |blocks|
    ensures IsFree(Put(blocks, k, b), x) <==> IsFree(blocks, x) || b.at <= x < End(b)
  {
    hide IsFree, Insert, Join;
    InsertFree(blocks, k, b, x);
    JoinFree(Insert(blocks, k, b), k + 1, x);
    JoinFree(Join(Insert(blocks, k, b), k + 1), k, x);
  }

  /** n units taken from the end of block k. */
  ghost function Take(blocks: seq<Block>, k: nat, n: nat): seq<Block>
    requires k < |blocks| && n <= blocks[k].size
  {
    if blocks[k].size == n then blocks[..k] + blocks[k + 1..]
    else blocks[k := Block(blocks[k].at, blocks[k].size - n)]
  }

  ghost function Taken(blocks: seq<Block>, k: nat, n: nat): Block
    requires k < |blocks| && n <= blocks[k].size
  {
    Block(blocks[k].at + UNIT * (blocks[k].size - n), n)
  }

  lemma TakeCanonical(blocks: seq<Block>, k: nat, n: nat)
    requires Canonical(blocks) && 0 < k < |blocks| && 0 < n <= blocks[k].size
    ensures Canonical(Take(blocks, k, n))
  {
    var t := Take(blocks, k, n);
    if blocks[k].size == n {
      assert forall j :: 0 <= j < k ==> t[j] == blocks[j];
      assert forall j :: k <= j < |t| ==> t[j] == blocks[j + 1];
    }
  }

  lemma TakeUnits(blocks: seq<Block>, k: nat, n: nat)
    requires k < |blocks| && n <= blocks[k].size
    ensures Units(Take(blocks, k, n)) + n == Units(blocks)
  {
    hide Units;
    var rest := blocks[k + 1..];
    assert blocks == blocks[..k] + ([blocks[k]] + rest);
    UnitsConcat(blocks[..k], [blocks[k]] + rest);
    UnitsMore(blocks[k], rest);
    if blocks[k].size == n {
      UnitsConcat(blocks[..k], rest);
    } else {
      var m := Block(blocks[k].at, blocks[k].size - n);
      assert Take(blocks, k, n) == blocks[..k] + ([m] + rest);
      UnitsConcat(blocks[..k], [m] + rest);
      UnitsMore(m, rest);
    }
  }

  lemma GapNotFree(blocks: seq<Block>, k: nat, b: Block, x: nat)
    requires Canonical(blocks) && Gap(blocks, k, b) && b.at <= x < End(b)
    ensures !IsFree(blocks, x)
  {
  }

  /** Taking a block and putting it back are inverse. */
  lemma TakePut(blocks: seq<Block>, k: nat, n: nat)
    requires Canonical(blocks) && 0 < k < |blocks| && 0 < n <= blocks[k].size
    ensures var t, b := Take(blocks, k, n), Taken(blocks, k, n); var m := if blocks[k].size == n then k - 1 else k;
      m < |t| && Gap(t, m, b) && Put(t, m, b) == blocks
  {
    var t, b := Take(blocks, k, n), Taken(blocks, k, n);
    assert End(b) == End(blocks[k]);
    if blocks[k].size == n {
      assert Insert(t, k - 1, b) == blocks;
    } else {
      var one := Insert(t, k, b);
      assert !Touches(one, k + 1);
      assert Joined(one, k) == blocks;
    }
  }

  /** Allocating takes exactly the bytes of the block out of the free ones. */
  lemma TakeFree(blocks: seq<Block>, k: nat, n: nat, x: nat)
    requires Canonical(blocks) && 0 < k < |blocks| && 0 < n <= blocks[k].size
    ensures var b := Taken(blocks, k, n);
      IsFree(Take(blocks, k, n), x) <==> IsFree(blocks, x) && !(b.at <= x < End(b))
  {
    hide IsFree, Put, Sorted;
    var t, b := Take(blocks, k, n), Taken(blocks, k, n);
    TakePut(blocks, k, n);
    TakeCanonical(blocks, k, n);
    var m := if blocks[k].size == n then k - 1 else k;
    PutFree(t, m, b, x);
    if b.at <= x < End(b) {
      GapNotFree(t, m, b, x);
    }
  }

  // ----- Live blocks -----

  ghost function LiveUnits(live: map<nat, nat>): nat {
    if live == map[] then 0
    else
      var a :| a in live;
      live[a] + LiveUnits(live - {a})
  }

  lemma {:induction false} LiveRemove(live: map<nat, nat>, a: nat)
    requires a in live
    ensures LiveUnits(live) == live[a] + LiveUnits(live - {a})
    decreases |live|
  {
    var b :| b in live && LiveUnits(live) == live[b] + LiveUnits(live - {b});
    if b != a {
      LiveRemove(live - {b}, a);
      LiveRemove(live - {a}, b);
      assert (live - {b}) - {a} == (live - {a}) - {b};
    }
  }

  ghost predicate Disjoint(a: Block, b: Block) { End(a) <= b.at || End(b) <= a.at }

  /** Live blocks overlap neither each other nor a free block. */
  ghost predicate Apart(blocks: seq<Block>, live: map<nat, nat>) {
    && (forall a :: a in live ==> live[a] > 0)
    && (forall a, i :: a in live && 0 <= i < |blocks| ==>
          if i == 0 then blocks[0].at + UNIT <= a else Disjoint(Block(a, live[a]), blocks[i]))
    && (forall a, b :: a in live && b in live && a != b ==> Disjoint(Block(a, live[a]), Block(b, live[b])))
  }

  /** Everything lies below the break. */
  ghost predicate Below(blocks: seq<Block>, live: map<nat, nat>, brk: nat) {
    && (forall i :: 0 <= i < |blocks| ==> End(blocks[i]) <= brk)
    && (forall a :: a in live ==> End(Block(a, live[a])) <= brk)
  }

  // ----- Keeping live blocks apart -----

  lemma PutApart(blocks: seq<Block>, live: map<nat, nat>, k: nat, a: nat)
    requires Canonical(blocks) && Apart(blocks, live) && a in live && Gap(blocks, k, Block(a, live[a]))
    ensures Apart(Put(blocks, k, Block(a, live[a])), live - {a})
  {
    var b := Block(a, live[a]);
    var one := Insert(blocks, k, b);
    InsertApart(blocks, live, k, a);
    JoinApart(one, live - {a}, k + 1);
    JoinApart(Join(one, k + 1), live - {a}, k);
  }

  lemma InsertApart(blocks: seq<Block>, live: map<nat, nat>, k: nat, a: nat)
    requires Apart(blocks, live) && a in live && k < |blocks|
    ensures Apart(Insert(blocks, k, Block(a, live[a])), live - {a})
  {
    hide Disjoint;
    var one := Insert(blocks, k, Block(a, live[a]));
    assert one[0] == blocks[0];
    forall c, i | c in live - {a} && 0 < i < |one| ensures Disjoint(Block(c, live[c]), one[i]) {
      if i <= k {
        assert one[i] == blocks[i];
      } else if i > k + 1 {
        assert one[i] == blocks[i - 1];
      }
    }
  }

  lemma JoinApart(blocks: seq<Block>, live: map<nat, nat>, i: nat)
    requires Apart(blocks, live) && |blocks| > 0 && (i == 0 ==> !Touches(blocks, 0))
    requires i + 1 < |blocks| ==> blocks[i + 1].size > 0 && (i > 0 ==> blocks[i].size > 0)
    ensures Apart(Join(blocks, i), live)
  {
    if Touches(blocks, i) {
      var n := Joined(blocks, i);
      assert n[0] == blocks[0];
      forall c, j | c in live && 0 < j < |n| ensures Disjoint(Block(c, live[c]), n[j]) {
        if j < i {
          assert n[j] == blocks[j];
        } else if j == i {
          assert Disjoint(Block(c, live[c]), blocks[i]) && Disjoint(Block(c, live[c]), blocks[i + 1]);
        } else {
          assert n[j] == blocks[j + 1];
        }
      }
    }
  }

  lemma TakenInside(blocks: seq<Block>, k: nat, n: nat, i: nat)
    requires Canonical(blocks) && 0 < k < |blocks| && 0 < n <= blocks[k].size && 0 < i < |Take(blocks, k, n)|
    ensures var t := Take(blocks, k, n)[i]; Disjoint(Taken(blocks, k, n), t)
    ensures var t := Take(blocks, k, n)[i];
      exists j :: 0 < j < |blocks| && blocks[j].at <= t.at && End(t) <= End(blocks[j])
  {
    hide Sorted;
    var j := if blocks[k].size == n && i >= k then i + 1 else i;
    var t := Take(blocks, k, n)[i];
    assert blocks[j].at <= t.at && End(t) <= End(blocks[j]);
    if j < k {
      Order(blocks, j, k);
    } else if k < j {
      Order(blocks, k, j);
    }
  }

  lemma TakeApart(blocks: seq<Block>, live: map<nat, nat>, k: nat, n: nat)
    requires Canonical(blocks) && Apart(blocks, live) && 0 < k < |blocks| && 0 < n <= blocks[k].size
    ensures var b := Taken(blocks, k, n); b.at !in live && Apart(Take(blocks, k, n), live[b.at := n])
  {
    var t, b := Take(blocks, k, n), Taken(blocks, k, n);
    assert t[0] == blocks[0];
    forall a | a in live ensures a != b.at && Disjoint(Block(a, live[a]), b) {
      assert Disjoint(Block(a, live[a]), blocks[k]);
    }
    var more := live[b.at := n];
    forall a, i | a in more && 0 < i < |t| ensures Disjoint(Block(a, more[a]), t[i]) {
      TakenInside(blocks, k, n, i);
      if a != b.at {
        var j :| 0 < j < |blocks| && blocks[j].at <= t[i].at && End(t[i]) <= End(blocks[j]);
        assert Disjoint(Block(a, live[a]), blocks[j]);
      }
    }
  }

  // ----- The list in memory -----

  function Succ(n: nat, i: nat): nat { if i + 1 < n then i + 1 else 0 }

  /** Block i's header, apart from its link. */
  ghost predicate SizeAt(hdr: map<nat, Header>, b: Block) { b.at in hdr && hdr[b.at].size == b.size }

  ghost predicate LinkAt(hdr: map<nat, Header>, blocks: seq<Block>, i: nat)
    requires i < |blocks|
  {
    blocks[i].at in hdr && hdr[blocks[i].at].ptr == blocks[Succ(|blocks|, i)].at
  }

  /** The headers hold the list, except perhaps the link of block skip. */
  ghost predicate AgreeBut(hdr: map<nat, Header>, blocks: seq<Block>, skip: int) {
    forall i :: 0 <= i < |blocks| ==> SizeAt(hdr, blocks[i]) && (i != skip ==> LinkAt(hdr, blocks, i))
  }

  ghost predicate Agree(hdr: map<nat, Header>, blocks: seq<Block>) { AgreeBut(hdr, blocks, -1) }

  ghost predicate LiveAt(hdr: map<nat, Header>, live: map<nat, nat>) {
    forall a :: a in live ==> a in hdr && hdr[a].size == live[a]
  }

  ghost predicate Rising(blocks: seq<Block>) {
    forall i, j :: 0 <= i < j < |blocks| ==> blocks[i].at < blocks[j].at
  }

  lemma SortedRising(blocks: seq<Block>, lo: nat, hi: nat)
    requires Sorted(blocks, lo, hi)
    ensures Rising(blocks)
  {
  }

  lemma InsertNext(blocks: seq<Block>, k: nat, b: Block, i: nat)
    requires k < |blocks| && i <= |blocks| && i != k + 1
    ensures var one := Insert(blocks, k, b); var j := if i <= k then i else i - 1;
      |one| == |blocks| + 1 && one[i] == blocks[j] && (i != k ==> one[Succ(|one|, i)] == blocks[Succ(|blocks|, j)])
  {
  }

  lemma AgreeInsertAt(hdr: map<nat, Header>, blocks: seq<Block>, k: nat, b: Block, h: Header, i: nat)
    requires Agree(hdr, blocks) && k < |blocks| && Rising(Insert(blocks, k, b)) && i <= |blocks| && i != k + 1
    ensures var one, g := Insert(blocks, k, b), hdr[b.at := h];
      SizeAt(g, one[i]) && (i != k ==> LinkAt(g, one, i))
  {
    hide AgreeBut, Rising;
    var one := Insert(blocks, k, b);
    InsertNext(blocks, k, b, i);
    AgreeAt(hdr, blocks, -1, if i <= k then i else i - 1);
    RisingDiffer(one, i, k + 1);
  }

  lemma AgreeInsert(hdr: map<nat, Header>, blocks: seq<Block>, k: nat, b: Block)
    requires Agree(hdr, blocks) && k < |blocks| && Rising(Insert(blocks, k, b))
    ensures AgreeBut(hdr[b.at := Header(blocks[Succ(|blocks|, k)].at, b.size)], Insert(blocks, k, b), k)
  {
    hide Rising;
    var one, h := Insert(blocks, k, b), Header(blocks[Succ(|blocks|, k)].at, b.size);
    forall i | 0 <= i < |one| && i != k + 1
      ensures SizeAt(hdr[b.at := h], one[i]) && (i != k ==> LinkAt(hdr[b.at := h], one, i))
    {
      AgreeInsertAt(hdr, blocks, k, b, h, i);
    }
    assert SizeAt(hdr[b.at := h], one[k + 1]) && LinkAt(hdr[b.at := h], one, k + 1);
  }

  lemma JoinedNext(blocks: seq<Block>, i: nat, j: nat)
    requires i + 1 < |blocks| && j < |blocks| - 1
    ensures var n := Joined(blocks, i); var m := if j < i then j else j + 1;
      |n| == |blocks| - 1 && n[j].at == blocks[if j <= i then j else j + 1].at && (j != i ==>
          n[j] == blocks[m]) && n[Succ(|n|, j)].at == blocks[Succ(|blocks|, m)].at
  {
  }

  lemma AgreeJoinAt(hdr: map<nat, Header>, blocks: seq<Block>, i: nat, skip: int, h: Header, j: nat)
    requires AgreeBut(hdr, blocks, skip) && i + 1 < |blocks| && Rising(blocks) && skip <= i && j < |blocks| - 1
    requires j != i
    ensures var n, g := Joined(blocks, i), hdr[blocks[i].at := h];
      SizeAt(g, n[j]) && (j != skip ==> LinkAt(g, n, j))
  {
    hide AgreeBut, Rising;
    var m := if j < i then j else j + 1;
    JoinedNext(blocks, i, j);
    AgreeAt(hdr, blocks, skip, m);
    RisingDiffer(blocks, m, i);
  }

  /** Block i takes over the next one. */
  lemma AgreeJoin(hdr: map<nat, Header>, blocks: seq<Block>, i: nat, skip: int)
    requires AgreeBut(hdr, blocks, skip) && i + 1 < |blocks| && Rising(blocks) && skip <= i && blocks[i + 1].at in hdr
    ensures AgreeBut(hdr[blocks[i].at := Header(hdr[blocks[i + 1].at].ptr, blocks[i].size + blocks[i + 1].size)],
                     Joined(blocks, i), if skip == i then -1 else skip)
  {
    hide Rising;
    var n, h := Joined(blocks, i), Header(hdr[blocks[i + 1].at].ptr, blocks[i].size + blocks[i + 1].size);
    assert LinkAt(hdr, blocks, i + 1);
    JoinedNext(blocks, i, i);
    var g := hdr[blocks[i].at := h];
    assert SizeAt(g, n[i]) && LinkAt(g, n, i);
    forall j | 0 <= j < |n| && j != i ensures SizeAt(g, n[j]) && (j != skip ==> LinkAt(g, n, j)) {
      AgreeJoinAt(hdr, blocks, i, skip, h, j);
    }
  }

  lemma AgreeLink(hdr: map<nat, Header>, blocks: seq<Block>, k: nat)
    requires AgreeBut(hdr, blocks, k) && k < |blocks| && Rising(blocks)
    ensures Agree(hdr[blocks[k].at := Header(blocks[Succ(|blocks|, k)].at, blocks[k].size)], blocks)
  {
  }

  /** free, first half: bp takes over the block after it, or is linked to it. */
  function RightStep(hdr: map<nat, Header>, bp: nat, right: nat): map<nat, Header>
    requires bp in hdr && right in hdr
  {
    if bp + UNIT * hdr[bp].size == right then hdr[bp := Header(hdr[right].ptr, hdr[bp].size + hdr[right].size)]
    else hdr[bp := Header(right, hdr[bp].size)]
  }

  lemma AgreeRight(hdr: map<nat, Header>, blocks: seq<Block>, k: nat, b: Block, right: nat)
    requires Agree(hdr, blocks) && Gap(blocks, k, b) && Canonical(blocks) && right == blocks[Succ(|blocks|, k)].at
    requires SizeAt(hdr, b)
    ensures right in hdr
    ensures AgreeBut(RightStep(hdr, b.at, right), Join(Insert(blocks, k, b), k + 1), k)
  {
    hide AgreeBut;
    var one := Insert(blocks, k, b);
    InsertSorted(blocks, k, b);
    SortedRising(one, k, k + 2);
    AgreeInsert(hdr, blocks, k, b);
    AgreeAt(hdr, blocks, -1, Succ(|blocks|, k));
    var h := hdr[b.at := Header(right, b.size)];
    if Touches(one, k + 1) {
      assert one[k + 2] == blocks[k + 1];
      AgreeJoin(h, one, k + 1, k);
      assert h[b.at := Header(hdr[right].ptr, b.size + hdr[right].size)] == RightStep(hdr, b.at, right);
    }
  }

  lemma AgreeAt(hdr: map<nat, Header>, blocks: seq<Block>, skip: int, i: nat)
    requires AgreeBut(hdr, blocks, skip) && i < |blocks|
    ensures SizeAt(hdr, blocks[i]) && (i != skip ==> LinkAt(hdr, blocks, i))
  {
  }

  /** free, second half: p takes over bp, or is linked to it. */
  function LeftStep(hdr: map<nat, Header>, p: nat, bp: nat): map<nat, Header>
    requires p in hdr && bp in hdr
  {
    if p + UNIT * hdr[p].size == bp then hdr[p := Header(hdr[bp].ptr, hdr[p].size + hdr[bp].size)]
    else hdr[p := Header(bp, hdr[p].size)]
  }

  lemma AgreeLeft(hdr: map<nat, Header>, blocks: seq<Block>, k: nat)
    requires AgreeBut(hdr, blocks, k) && k + 1 < |blocks| && Sorted(blocks, k, k + 1)
    ensures blocks[k].at in hdr && blocks[k + 1].at in hdr
    ensures Agree(LeftStep(hdr, blocks[k].at, blocks[k + 1].at), Join(blocks, k))
  {
    hide AgreeBut, Sorted;
    SortedRising(blocks, k, k + 1);
    AgreeAt(hdr, blocks, k, k);
    AgreeAt(hdr, blocks, k, k + 1);
    if Touches(blocks, k) {
      AgreeJoin(hdr, blocks, k, k);
    } else {
      AgreeLink(hdr, blocks, k);
    }
  }

  lemma PutBelow(blocks: seq<Block>, live: map<nat, nat>, brk: nat, k: nat, a: nat)
    requires Below(blocks, live, brk) && a in live && k < |blocks|
    ensures Below(Put(blocks, k, Block(a, live[a])), live - {a}, brk)
  {
    var b := Block(a, live[a]);
    var one := Insert(blocks, k, b);
    assert forall i :: 0 <= i < |one| ==> i == k + 1 || one[i] == blocks[if i <= k then i else i - 1];
    JoinBelow(one, live - {a}, brk, k + 1);
    JoinBelow(Join(one, k + 1), live - {a}, brk, k);
  }

  lemma JoinBelow(blocks: seq<Block>, live: map<nat, nat>, brk: nat, i: nat)
    requires Below(blocks, live, brk)
    ensures Below(Join(blocks, i), live, brk)
  {
  }

  lemma TakeBelow(blocks: seq<Block>, live: map<nat, nat>, brk: nat, k: nat, n: nat)
    requires Below(blocks, live, brk) && k < |blocks| && n <= blocks[k].size
    ensures Below(Take(blocks, k, n), live[Taken(blocks, k, n).at := n], brk)
  {
  }

  /** Where a block that overlaps no free block belongs. */
  ghost predicate Here(blocks: seq<Block>, k: nat, at: nat) {
    k < |blocks| && blocks[k].at < at && (k + 1 < |blocks| ==> at < blocks[k + 1].at)
  }

  lemma HereGap(blocks: seq<Block>, live: map<nat, nat>, k: nat, a: nat)
    requires Canonical(blocks) && Apart(blocks, live) && a in live && Here(blocks, k, a)
    ensures Gap(blocks, k, Block(a, live[a]))
  {
  }

  ghost predicate OnList(blocks: seq<Block>, at: nat) { exists i :: 0 <= i < |blocks| && blocks[i].at == at }

  ghost predicate Consistent(hdr: map<nat, Header>, blocks: seq<Block>, live: map<nat, nat>, brk: nat, obtained: nat) {
    && Canonical(blocks) && Agree(hdr, blocks)
    && LiveAt(hdr, live) && Apart(blocks, live) && Below(blocks, live, brk)
    && Units(blocks) + LiveUnits(live) == obtained
  }

  // ----- What free and malloc store -----

  lemma InsertAt(blocks: seq<Block>, k: nat, b: Block)
    requires k < |blocks|
    ensures var one := Join(Insert(blocks, k, b), k + 1);
      k + 1 < |one| && one[0] == blocks[0] && one[k] == blocks[k] && one[k + 1].at == b.at
  {
  }

  lemma JoinAt(blocks: seq<Block>, k: nat)
    requires k + 1 < |blocks| && blocks[0].size == 0 && (k == 0 ==> blocks[0].at < blocks[1].at)
    ensures var n := Join(blocks, k); k < |n| && n[k].at == blocks[k].at && n[0] == blocks[0]
  {
  }

  /** The four stores of free leave the headers holding the list with the block put in. */
  lemma FreeStores(hdr: map<nat, Header>, blocks: seq<Block>, k: nat, b: Block)
    requires Agree(hdr, blocks) && Canonical(blocks) && Gap(blocks, k, b) && SizeAt(hdr, b)
    ensures var p := blocks[k].at;
      && p in hdr && hdr[p].ptr in hdr && hdr[p].ptr == blocks[Succ(|blocks|, k)].at
      && Agree(LeftStep(RightStep(hdr, b.at, hdr[p].ptr), p, b.at), Put(blocks, k, b))
    ensures var n := Put(blocks, k, b); k < |n| && n[k].at == blocks[k].at && n[0] == blocks[0]
  {
    hide AgreeBut, Insert, Join, Sorted, Touches, RightStep, LeftStep;
    var p, right := blocks[k].at, blocks[Succ(|blocks|, k)].at;
    SortedBase(blocks, 0, 0);
    AgreeAt(hdr, blocks, -1, k);
    AgreeRight(hdr, blocks, k, b, right);
    InsertSorted(blocks, k, b);
    JoinSorted(Insert(blocks, k, b), k, k + 1);
    var one := Join(Insert(blocks, k, b), k + 1);
    var h := RightStep(hdr, b.at, right);
    InsertAt(blocks, k, b);
    AgreeAt(h, one, k, k);
    AgreeAt(h, one, k, k + 1);
    AgreeLeft(h, one, k);
    SortedBase(one, k, k + 1);
    JoinAt(one, k);
  }

  lemma SortedBase(blocks: seq<Block>, lo: nat, hi: nat)
    requires Sorted(blocks, lo, hi)
    ensures |blocks| > 0 && blocks[0].size == 0 && (|blocks| > 1 ==> blocks[0].at < blocks[1].at)
  {
  }

  lemma LiveApartFromList(blocks: seq<Block>, live: map<nat, nat>, k: nat, a: nat)
    requires Apart(blocks, live) && a in live && k < |blocks| && (k == 0 || blocks[k].size > 0)
    ensures a != blocks[k].at
  {
  }

  lemma FreeEffect(hdr: map<nat, Header>, blocks: seq<Block>, live: map<nat, nat>, brk: nat, obtained: nat, k: nat,
                   a: nat)
    requires Consistent(hdr, blocks, live, brk, obtained) && a in live && Gap(blocks, k, Block(a, live[a]))
    ensures var p := blocks[k].at;
      && p in hdr && a in hdr && hdr[p].ptr in hdr && hdr[a].size == live[a]
      && Consistent(LeftStep(RightStep(hdr, a, hdr[p].ptr), p, a), Put(blocks, k, Block(a, live[a])), live - {a}, brk, obtained)
    ensures var n := Put(blocks, k, Block(a, live[a])); k < |n| && n[k].at == blocks[k].at && n[0] == blocks[0]
  {
    hide Agree, AgreeBut, Units, LiveUnits, Below, Put, Insert, Join;
    var b, p := Block(a, live[a]), blocks[k].at;
    FreeStores(hdr, blocks, k, b);
    PutCanonical(blocks, k, b);
    PutApart(blocks, live, k, a);
    PutBelow(blocks, live, brk, k, a);
    PutUnits(blocks, k, b);
    LiveRemove(live, a);
    forall c | c in live - {a} ensures c != p {
      LiveApartFromList(blocks, live, k, c);
    }
  }

  /** What malloc stores when it takes n units from the block at p, whose predecessor is prevp.
      The link of the new block is left as it is, which nobody reads. */
  function CarveStep(hdr: map<nat, Header>, prevp: nat, p: nat, n: nat): map<nat, Header>
    requires p in hdr && prevp in hdr && n <= hdr[p].size
  {
    if hdr[p].size == n then hdr[prevp := Header(hdr[p].ptr, hdr[prevp].size)]
    else hdr[p := Header(hdr[p].ptr, hdr[p].size - n)][p + UNIT * (hdr[p].size - n) := Header(0, n)]
  }

  lemma TailFresh(blocks: seq<Block>, k: nat, n: nat, i: nat)
    requires Canonical(blocks) && 0 < k < |blocks| && 0 < n < blocks[k].size && i < |blocks|
    ensures Taken(blocks, k, n).at != blocks[i].at
  {
  }

  lemma CarveTail(hdr: map<nat, Header>, blocks: seq<Block>, k: nat, size: nat, tail: nat, h: Header)
    requires Agree(hdr, blocks) && Rising(blocks) && k < |blocks| && blocks[k].at in hdr
    requires forall i :: 0 <= i < |blocks| ==> tail != blocks[i].at
    ensures Agree(hdr[blocks[k].at := Header(hdr[blocks[k].at].ptr, size)][tail := h], blocks[k := Block(blocks[k].at, size)])
  {
    var t := blocks[k := Block(blocks[k].at, size)];
    var g := hdr[blocks[k].at := Header(hdr[blocks[k].at].ptr, size)][tail := h];
    forall i | 0 <= i < |t| ensures SizeAt(g, t[i]) && LinkAt(g, t, i) {
      assert SizeAt(hdr, blocks[i]) && LinkAt(hdr, blocks, i);
      assert t[i].at == blocks[i].at && t[Succ(|t|, i)].at == blocks[Succ(|t|, i)].at;
    }
  }

  lemma CarveStores(hdr: map<nat, Header>, blocks: seq<Block>, k: nat, n: nat)
    requires Agree(hdr, blocks) && Canonical(blocks) && 0 < k < |blocks| && 0 < n <= blocks[k].size
    ensures var prevp, p := blocks[k - 1].at, blocks[k].at;
      && p in hdr && prevp in hdr && hdr[p].size == blocks[k].size
      && Agree(CarveStep(hdr, prevp, p, n), Take(blocks, k, n))
  {
    hide Sorted, AgreeBut;
    AgreeAt(hdr, blocks, -1, k);
    AgreeAt(hdr, blocks, -1, k - 1);
    SortedRising(blocks, 0, 0);
    if blocks[k].size == n {
      CarveExact(hdr, blocks, k);
    } else {
      var tail := Taken(blocks, k, n).at;
      forall i | 0 <= i < |blocks| ensures tail != blocks[i].at {
        TailFresh(blocks, k, n, i);
      }
      CarveTail(hdr, blocks, k, blocks[k].size - n, tail, Header(0, n));
    }
  }

  lemma RemovedNext(blocks: seq<Block>, k: nat, i: nat)
    requires 0 < k < |blocks| && i < |blocks| - 1
    ensures var t := blocks[..k] + blocks[k + 1..]; var j := if i < k then i else i + 1;
      |t| == |blocks| - 1 && t[i] == blocks[j] && t[Succ(|t|, i)] == blocks[Succ(|blocks|, if i == k - 1 then k else j)]
  {
  }

  lemma CarveExactAt(hdr: map<nat, Header>, blocks: seq<Block>, k: nat, i: nat)
    requires Agree(hdr, blocks) && Rising(blocks) && 0 < k < |blocks| && blocks[k - 1].at in hdr && blocks[k].at in hdr
    requires i < |blocks| - 1
    ensures var t := blocks[..k] + blocks[k + 1..];
      var h := hdr[blocks[k - 1].at := Header(hdr[blocks[k].at].ptr, hdr[blocks[k - 1].at].size)];
      SizeAt(h, t[i]) && LinkAt(h, t, i)
  {
    hide AgreeBut, Rising;
    RemovedNext(blocks, k, i);
    var j := if i < k then i else i + 1;
    AgreeAt(hdr, blocks, -1, j);
    AgreeAt(hdr, blocks, -1, k);
    if i != k - 1 {
      RisingDiffer(blocks, j, k - 1);
    }
  }

  lemma RisingDiffer(blocks: seq<Block>, i: nat, j: nat)
    requires Rising(blocks) && i < |blocks| && j < |blocks| && i != j
    ensures blocks[i].at != blocks[j].at
  {
  }

  lemma CarveExact(hdr: map<nat, Header>, blocks: seq<Block>, k: nat)
    requires Agree(hdr, blocks) && Rising(blocks) && 0 < k < |blocks| && blocks[k - 1].at in hdr && blocks[k].at in hdr
    ensures Agree(hdr[blocks[k - 1].at := Header(hdr[blocks[k].at].ptr, hdr[blocks[k - 1].at].size)], blocks[..k] + blocks[k + 1..])
  {
    hide SizeAt, LinkAt;
    var t := blocks[..k] + blocks[k + 1..];
    var h := hdr[blocks[k - 1].at := Header(hdr[blocks[k].at].ptr, hdr[blocks[k - 1].at].size)];
    forall i | 0 <= i < |t| ensures SizeAt(h, t[i]) && LinkAt(h, t, i) {
      CarveExactAt(hdr, blocks, k, i);
    }
  }

  lemma CarveEffect(hdr: map<nat, Header>, blocks: seq<Block>, live: map<nat, nat>, brk: nat, obtained: nat, k: nat,
                    n: nat)
    requires Consistent(hdr, blocks, live, brk, obtained) && 0 < k < |blocks| && 0 < n <= blocks[k].size
    ensures var prevp, p, a := blocks[k - 1].at, blocks[k].at, Taken(blocks, k, n).at;
      && p in hdr && prevp in hdr && hdr[p].size == blocks[k].size && a !in live
      && Consistent(CarveStep(hdr, prevp, p, n), Take(blocks, k, n), live[a := n], brk, obtained)
      && Take(blocks, k, n)[0] == blocks[0] && Take(blocks, k, n)[k - 1].at == prevp
  {
    hide Agree, AgreeBut, Units, LiveUnits, Below, Sorted, Apart;
    var prevp, p, b := blocks[k - 1].at, blocks[k].at, Taken(blocks, k, n);
    CarveStores(hdr, blocks, k, n);
    TakeCanonical(blocks, k, n);
    TakeApart(blocks, live, k, n);
    TakeBelow(blocks, live, brk, k, n);
    TakeUnits(blocks, k, n);
    var more := live[b.at := n];
    LiveRemove(more, b.at);
    assert more - {b.at} == live;
    SizesRise(blocks, k);
    forall c | c in live ensures c != p && c != prevp {
      LiveApartFromList(blocks, live, k, c);
      LiveApartFromList(blocks, live, k - 1, c);
    }
  }

  lemma SizesRise(blocks: seq<Block>, k: nat)
    requires Canonical(blocks) && 0 < k < |blocks|
    ensures blocks[k].size > 0 && (k > 1 ==> blocks[k - 1].size > 0)
  {
  }

  /** The freed block lies inside one block of the list. */
  lemma PutHolds(blocks: seq<Block>, k: nat, b: Block)
    requires k < |blocks|
    ensures Fits(Put(blocks, k, b), b.size)
  {
    var one := Insert(blocks, k, b);
    assert one[k + 1] == b;
    var two := Join(one, k + 1);
    assert two[k + 1].size >= b.size;
    var n := Join(two, k);
    if Touches(two, k) {
      assert n[k].size >= b.size;
    } else {
      assert n == two;
    }
    assert n == Put(blocks, k, b);
  }

  /** Memory fresh from sbrk overlaps nothing. */
  lemma FreshBlock(hdr: map<nat, Header>, blocks: seq<Block>, live: map<nat, nat>, brk: nat, obtained: nat, p: nat,
                   nu: nat)
    requires Consistent(hdr, blocks, live, brk, obtained) && p >= brk && nu > 0 && blocks[0].at + UNIT <= brk
    ensures p !in live
    ensures Consistent(hdr[p := Header(0, nu)], blocks, live[p := nu], p + UNIT * nu, obtained + nu)
  {
    hide Units, LiveUnits, Sorted, Agree;
    forall a | a in live ensures a != p {
      assert End(Block(a, live[a])) <= brk;
    }
    var more := live[p := nu];
    LiveRemove(more, p);
    assert more - {p} == live;
    SortedBase(blocks, 0, 0);
    FreshAgree(hdr, blocks, brk, p, Header(0, nu));
    FreshApart(blocks, live, brk, p, nu);
  }

  lemma FreshAgree(hdr: map<nat, Header>, blocks: seq<Block>, brk: nat, p: nat, h: Header)
    requires Agree(hdr, blocks) && Canonical(blocks) && p >= brk && blocks[0].at + UNIT <= brk
    requires forall i :: 0 <= i < |blocks| ==> End(blocks[i]) <= brk
    ensures Agree(hdr[p := h], blocks)
  {
    var g := hdr[p := h];
    forall i | 0 <= i < |blocks| ensures SizeAt(g, blocks[i]) && LinkAt(g, blocks, i) {
      assert SizeAt(hdr, blocks[i]) && LinkAt(hdr, blocks, i);
      assert blocks[i].at < p;
    }
  }

  lemma FreshApart(blocks: seq<Block>, live: map<nat, nat>, brk: nat, p: nat, nu: nat)
    requires Apart(blocks, live) && Below(blocks, live, brk) && p >= brk && nu > 0 && |blocks| > 0
    requires blocks[0].at + UNIT <= brk
    ensures Apart(blocks, live[p := nu])
  {
  }

  lemma PrevPositive(blocks: seq<Block>, k: nat)
    requires Canonical(blocks) && 0 < k < |blocks| && blocks[0].at > 0
    ensures blocks[k - 1].at > 0
  {
  }

  /** What the invariant says about reading block i's header. */
  lemma ListAt(hdr: map<nat, Header>, blocks: seq<Block>, live: map<nat, nat>, brk: nat, obtained: nat, i: nat)
    requires Consistent(hdr, blocks, live, brk, obtained) && i < |blocks|
    ensures blocks[i].at in hdr && hdr[blocks[i].at] == Header(blocks[Succ(|blocks|, i)].at, blocks[i].size)
    ensures (i == 0 <==> blocks[i].size == 0) && UNIT * blocks[i].size <= brk
    ensures forall j :: 0 <= j < |blocks| && blocks[j].at == blocks[i].at ==> j == i
  {
    AgreeAt(hdr, blocks, -1, i);
    SortedRising(blocks, 0, 0);
  }

  ghost predicate Fits(blocks: seq<Block>, n: nat) { exists i :: 0 <= i < |blocks| && blocks[i].size >= n }

  /** A whole turn without finding a block: none is large enough. */
  lemma ScannedAll(blocks: seq<Block>, f: nat, k: nat, n: nat)
    requires f < |blocks| && k < |blocks| && Scanned(blocks, f, k, n) && Succ(|blocks|, k) == f && blocks[f].size < n
    ensures !Fits(blocks, n)
  {
  }

  lemma ScannedMore(blocks: seq<Block>, f: nat, k: nat, n: nat)
    requires f < |blocks| && k < |blocks| && Scanned(blocks, f, k, n)
    requires var m := Succ(|blocks|, k); m != f && blocks[m].size < n
    ensures Scanned(blocks, f, Succ(|blocks|, k), n)
  {
  }

  lemma ScannedNone(blocks: seq<Block>, f: nat, n: nat)
    ensures Scanned(blocks, f, f, n)
  {
  }

  lemma EmptyNotFree(base: nat, x: nat)
    ensures !IsFree([], x) && !IsFree([Block(base, 0)], x)
  {
  }

  /** The value an int parameter receives. */
  function Int32(x: nat): int { (x + 0x8000_0000) % 0x1_0000_0000 - 0x8000_0000 }

  lemma Int32Exact(x: nat)
    ensures Int32(x) == x <==> x < 0x8000_0000
  {
  }

  datatype More = Grown | Refused | Misfired

  /** malloc's result: a pointer, NULL, or a call of sbrk whose argument is not the amount wanted. */
  datatype Outcome = Memory(ap: nat) | Null | Misfire

  function UnitsFor(nbytes: nat): nat { (nbytes + UNIT - 1) / UNIT + 1 }

  lemma UnitsForExact(nbytes: nat)
    ensures nbytes <= UNIT * (UnitsFor(nbytes) - 1) < nbytes + UNIT
    ensures UNIT * UnitsFor(nbytes) >= 0x8000_0000 <==> nbytes >= 0x7FFF_FFE1
  {
  }

  /** What happens past a misfire, when the kernel grants the amount it was asked for: sbrk shrinks the process, or
      returns the old break and adds nothing or one unit, and morecore then writes at p the header of a block that
      reaches past the new break, which no heap in order has. */
  lemma MisfireHeader(nbytes: nat, blocks: seq<Block>, live: map<nat, nat>, p: nat)
    requires 0x7FFF_FFE1 <= nbytes < 0x1_0000_0000
    ensures var nu := UnitsFor(nbytes);
            var arg := Int32(UNIT * nu);
            && (nbytes <= 0xFFFF_FFE0 ==> arg == UNIT * nu - 0x1_0000_0000 < 0)
            && (0xFFFF_FFE1 <= nbytes <= 0xFFFF_FFF0 ==> nu == 0x1000_0000 && arg == 0)
            && (0xFFFF_FFF1 <= nbytes ==> nu == 0x1000_0001 && arg == UNIT)
            && (p + arg >= 0 ==> !Below(blocks, live[p := nu], p + arg))
  {
    var nu := UnitsFor(nbytes);
    var now := live[p := nu];
    assert p in now && End(Block(p, now[p])) == p + UNIT * nu;
  }

  /** No block after freep, up to block k of the ring, is large enough. */
  ghost predicate Scanned(blocks: seq<Block>, f: nat, k: nat, n: nat) {
    forall i :: 0 <= i < |blocks| && (if f <= k then f < i <= k else f < i || i <= k) ==> blocks[i].size < n
  }

  /** sbrk has no room for what morecore asks. */
  predicate NoMemory(brk: nat, nu: nat, refuse: bool, gap: nat) {
    refuse || brk + gap + UNIT * (if nu < 4096 then 4096 else nu) > TOP
  }

  class Heap {

    /** The address of the static header. */
    const base: nat
    var freep: nat
    var hdr: map<nat, Header>
    /** The end of the process's memory, and how often it was moved from here. */
    var brk: nat
    var calls: nat

    ghost var blocks: seq<Block>
    /** Allocated blocks: address of the header to size. */
    ghost var live: map<nat, nat>
    ghost var obtained: nat

    ghost predicate Valid()
      reads this
    {
      && 0 < base && base + UNIT <= brk <= TOP
      && if freep == 0 then blocks == [] && live == map[] && obtained == 0
         else Consistent(hdr, blocks, live, brk, obtained) && blocks[0] == Block(base, 0) && OnList(blocks, freep)
    }

    constructor (base: nat, brk: nat)
      requires 0 < base && base + UNIT <= brk <= TOP
      ensures Valid() && freep == 0 && live == map[]
    {
      this.base, this.brk := base, brk;
      freep, calls, hdr := 0, 0, map[];
      blocks, live, obtained := [], map[], 0;
    }

    /** free's search around the ring for the two blocks that bp lies between. */
    method FindPlace(bp: nat) returns (p: nat, ghost k: nat)
      requires Valid() && bp in live
      ensures k < |blocks| && p == blocks[k].at && p >= base && Here(blocks, k, bp)
    {
      p := freep;
      k :| 0 <= k < |blocks| && blocks[k].at == freep;
      ghost var wrapped := false;
      while !(p < bp < hdr[p].ptr)
        invariant k < |blocks| && p == blocks[k].at && p in hdr && hdr[p].ptr == blocks[Succ(|blocks|, k)].at
        invariant wrapped ==> bp < blocks[|blocks| - 1].at && blocks[k].at < bp
        decreases !wrapped, |blocks| - k
      {
        if p >= hdr[p].ptr && (bp > p || bp < hdr[p].ptr) {
          break;
        }
        wrapped := wrapped || k + 1 == |blocks|;
        p := hdr[p].ptr;
        k := Succ(|blocks|, k);
      }
    }

    method Free(ap: nat)
      requires Valid() && ap >= UNIT && ap - UNIT in live
      modifies this`freep, this`hdr, this`blocks, this`live
      ensures Valid() && freep != 0 && live == old(live) - {ap - UNIT}
      ensures forall x: nat ::
        IsFree(blocks, x) <==> IsFree(old(blocks), x) || ap - UNIT <= x < ap - UNIT + UNIT * old(live)[ap - UNIT]
      ensures Fits(blocks, old(live)[ap - UNIT])
    {
      hide IsFree, Units, LiveUnits, Canonical, Apart, Below, Agree, Put, LiveAt;
      var bp := ap - UNIT;
      var p;
      ghost var k;
      p, k := FindPlace(bp);
      ghost var b := Block(bp, live[bp]);
      HereGap(blocks, live, k, bp);
      PutHolds(blocks, k, b);
      FreeEffect(hdr, blocks, live, brk, obtained, k, bp);
      var right := hdr[p].ptr;
      if bp + UNIT * hdr[bp].size == right {
        hdr := hdr[bp := Header(hdr[right].ptr, hdr[bp].size + hdr[right].size)];
      } else {
        hdr := hdr[bp := Header(right, hdr[bp].size)];
      }
      if p + UNIT * hdr[p].size == bp {
        hdr := hdr[p := Header(hdr[bp].ptr, hdr[p].size + hdr[bp].size)];
      } else {
        hdr := hdr[p := Header(bp, hdr[p].size)];
      }
      freep := p;
      blocks := Put(blocks, k, b);
      live := live - {bp};
      forall x: nat ensures IsFree(blocks, x) <==> IsFree(old(blocks), x) || b.at <= x < End(b) {
        PutFree(old(blocks), k, b, x);
      }
    }

    /** sbrk(nu) and a free of what it returns.  refuse says that the kernel has no memory; gap is what
        other code of the process has taken from sbrk meanwhile. */
    method Morecore(nu0: nat, refuse: bool, gap: nat) returns (r: More)
      requires Valid() && freep != 0
      modifies this
      ensures Valid() && freep != 0 && live == old(live) && calls == old(calls) + 1
      ensures r == Misfired <==> UNIT * nu0 >= 0x8000_0000
      ensures r == Refused <==> UNIT * nu0 < 0x8000_0000 && NoMemory(old(brk), nu0, refuse, gap)
      ensures r != Grown ==>
              blocks == old(blocks) && freep == old(freep) && obtained == old(obtained) && brk == old(brk)
      ensures r == Grown ==> old(brk) + gap <= brk && UNIT * (obtained - old(obtained)) == brk - (old(brk) + gap)
      ensures r == Grown ==> Fits(blocks, nu0)
      ensures r == Grown ==> forall x: nat :: IsFree(blocks, x) <==> IsFree(old(blocks), x) || old(brk) + gap <= x < brk
    {
      hide IsFree, Units, LiveUnits, Canonical, Apart, Below, Agree, LiveAt;
      var nu := if nu0 < 4096 then 4096 else nu0;
      calls := calls + 1;
      Int32Exact(UNIT * nu);
      if Int32(UNIT * nu) != UNIT * nu {
        return Misfired;
      }
      if refuse || brk + gap + UNIT * nu > TOP {
        return Refused;
      }
      var p := brk + gap;
      FreshBlock(hdr, blocks, live, brk, obtained, p, nu);
      brk := p + UNIT * nu;
      hdr := hdr[p := Header(0, nu)];
      live := live[p := nu];
      obtained := obtained + nu;
      Free(p + UNIT);
      assert live == old(live);
      r := Grown;
    }

    /** malloc's first call: the ring is the empty block base. */
    method Start()
      requires Valid() && freep == 0
      modifies this`freep, this`hdr, this`blocks
      ensures Valid() && freep == base && blocks == [Block(base, 0)]
    {
      freep := base;
      hdr := hdr[base := Header(base, 0)];
      blocks := [Block(base, 0)];
    }

    /** Takes n units from the end of block k, the one after prevp. */
    method Carve(prevp: nat, p: nat, n: nat, ghost k: nat) returns (ap: nat)
      requires Valid() && freep != 0 && 0 < k < |blocks| && prevp == blocks[k - 1].at && p == blocks[k].at
      requires 0 < n <= blocks[k].size
      modifies this`freep, this`hdr, this`blocks, this`live
      ensures Valid() && freep != 0 && ap >= UNIT && ap - UNIT !in old(live) && live == old(live)[ap - UNIT := n]
      ensures forall x: nat ::
        IsFree(blocks, x) <==> IsFree(old(blocks), x) && !(ap - UNIT <= x < ap - UNIT + UNIT * n)
    {
      hide IsFree, Units, LiveUnits, Sorted, Apart, Below, Agree, LiveAt;
      CarveEffect(hdr, blocks, live, brk, obtained, k, n);
      PrevPositive(blocks, k);
      ghost var b := Taken(blocks, k, n);
      var at := p;
      if hdr[p].size == n {
        hdr := hdr[prevp := Header(hdr[p].ptr, hdr[prevp].size)];
      } else {
        var left := hdr[p].size - n;
        hdr := hdr[p := Header(hdr[p].ptr, left)];
        at := p + UNIT * left;
        hdr := hdr[at := Header(0, n)];
      }
      freep := prevp;
      blocks := Take(blocks, k, n);
      live := live[at := n];
      ap := at + UNIT;
      forall x: nat ensures IsFree(blocks, x) <==> IsFree(old(blocks), x) && !(b.at <= x < End(b)) {
        TakeFree(old(blocks), k, n, x);
      }
    }

    /** malloc's loop: around the ring from freep, growing the heap when nothing fits. */
    method Search(nunits: nat, refuse: bool, gap: nat) returns (r: Outcome)
      requires Valid() && freep != 0 && nunits > 0
      modifies this
      ensures Valid() && freep != 0 && calls <= old(calls) + 1
      ensures calls == old(calls) <==> Fits(old(blocks), nunits)
      ensures r == Misfire <==> UNIT * nunits >= 0x8000_0000
      ensures r == Null <==>
              && !Fits(old(blocks), nunits) && UNIT * nunits < 0x8000_0000
              && NoMemory(old(brk), nunits, refuse, gap)
      ensures !r.Memory? ==> live == old(live) && brk == old(brk) && blocks == old(blocks)
      ensures r.Memory? ==> r.ap >= UNIT && r.ap - UNIT !in old(live) && live == old(live)[r.ap - UNIT := nunits]
      ensures r.Memory? ==> forall x: nat ::
        IsFree(blocks, x) <==> (IsFree(old(blocks), x) || (calls > old(calls) && old(brk) + gap <= x < brk))
                               && !(r.ap - UNIT <= x < r.ap - UNIT + UNIT * nunits)
    {
      hide IsFree, Consistent, Scanned;
      ghost var f: nat :| 0 <= f < |blocks| && blocks[f].at == freep;
      ghost var k: nat, grown := f, false;
      ListAt(hdr, blocks, live, brk, obtained, k);
      ScannedNone(blocks, f, nunits);
      var prevp := freep;
      var p := hdr[prevp].ptr;
      while true
        invariant Valid() && freep != 0 && f < |blocks| && k < |blocks| && freep == blocks[f].at
        invariant prevp == blocks[k].at && p == blocks[Succ(|blocks|, k)].at
        invariant Scanned(blocks, f, k, nunits) && live == old(live)
        invariant !grown ==> blocks == old(blocks) && brk == old(brk) && calls == old(calls)
        invariant grown ==> calls == old(calls) + 1 && Fits(blocks, nunits) && !Fits(old(blocks), nunits)
        invariant grown ==> !NoMemory(old(brk), nunits, refuse, gap)
        invariant grown ==> forall x: nat :: IsFree(blocks, x) <==> IsFree(old(blocks), x) || old(brk) + gap <= x < brk
        decreases !grown, if f <= k then |blocks| - (k - f) else f - k
      {
        ghost var m := Succ(|blocks|, k);
        ListAt(hdr, blocks, live, brk, obtained, m);
        if hdr[p].size >= nunits {
          var ap := Carve(prevp, p, nunits, m);
          return Memory(ap);
        }
        if p == freep {
          ScannedAll(blocks, f, k, nunits);
          if grown {
            assert false;
          }
          var more := Morecore(nunits, refuse, gap);
          if more != Grown {
            return if more == Refused then Null else Misfire;
          }
          p := freep;
          grown := true;
          f :| 0 <= f < |blocks| && blocks[f].at == freep;
          k := f;
          ListAt(hdr, blocks, live, brk, obtained, k);
          ScannedNone(blocks, f, nunits);
        } else {
          ScannedMore(blocks, f, k, nunits);
          k := m;
        }
        prevp := p;
        p := hdr[p].ptr;
      }
    }

    method Malloc(nbytes: nat, refuse: bool, gap: nat) returns (r: Outcome)
      requires Valid() && nbytes < 0x1_0000_0000
      modifies this
      ensures Valid() && freep != 0
      // one call of sbrk at most, and none when a free block is large enough
      ensures calls <= old(calls) + 1
      ensures calls == old(calls) <==> Fits(old(blocks), UnitsFor(nbytes))
      ensures r == Misfire <==> nbytes >= 0x7FFF_FFE1
      ensures r == Null <==>
              && !Fits(old(blocks), UnitsFor(nbytes)) && nbytes < 0x7FFF_FFE1
              && NoMemory(old(brk), UnitsFor(nbytes), refuse, gap)
      ensures !r.Memory? ==>
              live == old(live) && brk == old(brk) && forall x: nat :: IsFree(blocks, x) <==> IsFree(old(blocks), x)
      // a new block of exactly the needed size, with room for nbytes behind its header
      ensures r.Memory? ==>
              r.ap >= UNIT && r.ap - UNIT !in old(live) && live == old(live)[r.ap - UNIT := UnitsFor(nbytes)]
      ensures r.Memory? ==> r.ap + nbytes <= r.ap - UNIT + UNIT * UnitsFor(nbytes)
      // its bytes, and no others, leave the free list; sbrk's bytes, and no others, enter it
      ensures r.Memory? ==> forall x: nat ::
        IsFree(blocks, x) <==> (IsFree(old(blocks), x) || (calls > old(calls) && old(brk) + gap <= x < brk))
                               && !(r.ap - UNIT <= x < r.ap - UNIT + UNIT * UnitsFor(nbytes))
    {
      hide IsFree, Consistent;
      UnitsForExact(nbytes);
      var nunits := (nbytes + UNIT - 1) / UNIT + 1;
      if freep == 0 {
        Start();
        forall x: nat ensures IsFree(blocks, x) <==> IsFree(old(blocks), x) {
          EmptyNotFree(base, x);
        }
      }
      r := Search(nunits, refuse, gap);
    }
  }
}
