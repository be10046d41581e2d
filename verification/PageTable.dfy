/** Sv39 page tables as kernel/vm.c builds them: trees of three levels of 512-entry pages.  Pages are named
    by frame number, physical address / 4096.  A page is kept as a table or as bytes; the two readings
    never mix, because every page is overwritten as a whole when it is allocated. */
module PageTable {
  import opened Prelude

  const PGSIZE: nat := 4096

  /** MAXVA, TRAMPOLINE and TRAPFRAME as page numbers. */
  const MAXVPN: nat := 0x400_0000
  const TRAMPOLINE: nat := MAXVPN - 1
  const TRAPFRAME: nat := MAXVPN - 2

  type Table = t: seq<nat> | |t| == 512 witness Empty()
  type Page = p: seq<Byte> | |p| == PGSIZE witness seq(PGSIZE, _ => 0)

  function Empty(): seq<nat> { seq(512, _ => 0) }

  // ----- Page-table entries: PA2PTE(pa) | flags -----

  function Pte(frame: nat, flags: nat): nat { frame * 1024 + flags }

  function Frame(e: nat): nat { e / 1024 }

  function Flags(e: nat): nat { e % 1024 }

  /** Flag bits 0 to 4. */
  predicate V(e: nat) { e % 2 == 1 }
  predicate Rd(e: nat) { e / 2 % 2 == 1 }
  predicate Wr(e: nat) { e / 4 % 2 == 1 }
  predicate Ex(e: nat) { e / 8 % 2 == 1 }
  predicate U(e: nat) { e / 16 % 2 == 1 }

  /** A pointer to a lower-level table. */
  function Ptr(frame: nat): nat { Pte(frame, 1) }

  /** perm | PTE_V */
  function OrV(perm: nat): nat { if perm % 2 == 1 then perm else perm + 1 }

  /** e & ~PTE_U */
  function ClearU(e: nat): nat { if U(e) then e - 16 else e }

  lemma Halves(frame: nat, flags: nat)
    requires flags < 1024
    ensures Pte(frame, flags) / 2 == frame * 512 + flags / 2 && Pte(frame, flags) / 4 == frame * 256 + flags / 4
    ensures Pte(frame, flags) / 8 == frame * 128 + flags / 8 && Pte(frame, flags) / 16 == frame * 64 + flags / 16
    ensures Pte(frame, flags) / 1024 == frame && Pte(frame, flags) % 1024 == flags
  {
  }

  lemma EvenPlus(a: nat, x: nat)
    ensures (2 * a + x) % 2 == x % 2
  {
  }

  lemma PteParts(frame: nat, flags: nat)
    requires flags < 1024
    ensures Frame(Pte(frame, flags)) == frame && Flags(Pte(frame, flags)) == flags
    ensures V(Pte(frame, flags)) == V(flags) && Rd(Pte(frame, flags)) == Rd(flags) && Wr(Pte(frame, flags)) == Wr(flags)
    ensures Ex(Pte(frame, flags)) == Ex(flags) && U(Pte(frame, flags)) == U(flags)
  {
    Halves(frame, flags);
    EvenPlus(frame * 512, flags);
    EvenPlus(frame * 256, flags / 2);
    EvenPlus(frame * 128, flags / 4);
    EvenPlus(frame * 64, flags / 8);
    EvenPlus(frame * 32, flags / 16);
  }

  lemma ZeroInvalid()
    ensures !V(0)
  {
  }

  lemma PtrParts(frame: nat)
    ensures Frame(Ptr(frame)) == frame && V(Ptr(frame)) && !Rd(Ptr(frame)) && !Wr(Ptr(frame)) && !Ex(Ptr(frame))
  {
    PteParts(frame, 1);
  }

  lemma ClearUParts(e: nat)
    ensures Frame(ClearU(e)) == Frame(e) && V(ClearU(e)) == V(e) && Rd(ClearU(e)) == Rd(e) && Wr(ClearU(e)) == Wr(e)
    ensures Ex(ClearU(e)) == Ex(e) && !U(ClearU(e))
  {
    hide V, Rd, Wr, Ex, U, Frame, Flags, Pte;
    var f, x := Frame(e), Flags(e);
    PteOf(e);
    PteParts(f, x);
    if U(e) {
      ClearUFlags(x);
      PteOf16(f, x);
      PteParts(f, x - 16);
    }
  }

  lemma PteOf(e: nat)
    ensures e == Pte(Frame(e), Flags(e)) && Flags(e) < 1024
  {
  }

  lemma PteOf16(f: nat, x: nat)
    requires 16 <= x < 1024
    ensures Pte(f, x) - 16 == Pte(f, x - 16)
  {
  }

  lemma ClearUFlags(x: nat)
    requires x < 1024 && U(x)
    ensures x >= 16 && !U(x - 16)
    ensures V(x - 16) == V(x) && Rd(x - 16) == Rd(x) && Wr(x - 16) == Wr(x) && Ex(x - 16) == Ex(x)
  {
    var y := x - 16;
    EvenPlus(8, y);
    EvenPlus(4, y / 2);
    EvenPlus(2, y / 4);
    EvenPlus(1, y / 8);
    assert x / 2 == 8 + y / 2 && x / 4 == 4 + y / 4 && x / 8 == 2 + y / 8 && x / 16 == 1 + y / 16;
  }

  // ----- Trees -----

  type Tables = map<nat, Table>

  /** The frame that entry i of table t leads to; 0 when there is none. */
  function Step(tables: Tables, t: nat, i: nat): nat {
    if t in tables && i < 512 && V(tables[t][i]) then Frame(tables[t][i]) else 0
  }

  /** The level-0 table for page v. */
  function LastTable(tables: Tables, root: nat, v: nat): nat {
    Step(tables, Step(tables, root, v / 262144), v / 512 % 512)
  }

  /** The entry for page v: 0 when there is none. */
  function Leaf(tables: Tables, root: nat, v: nat): nat {
    var t := LastTable(tables, root, v);
    if t in tables then tables[t][v % 512] else 0
  }

  /** Where a table sits: its tree, level, and the page-number bits above it. */
  datatype Place = Place(root: nat, level: nat, prefix: nat)

  type Places = map<nat, Place>

  predicate IsRoot(place: Places, r: nat) { r in place && place[r] == Place(r, 2, 0) }

  ghost predicate PlacesOk(tables: Tables, place: Places) {
    && tables.Keys == place.Keys && 0 !in place
    && (forall f :: f in place ==> IsRoot(place, place[f].root) && place[f].level <= 2)
    && (forall f :: f in place && place[f].level == 2 ==> place[f] == Place(f, 2, 0))
    && (forall f :: f in place ==> place[f].prefix < Limit(place[f].level))
  }

  /** Only the lower half of the address space, below MAXVA, is used. */
  function Limit(level: nat): nat { if level == 0 then 131072 else if level == 1 then 256 else 1 }

  /** Entries of upper tables lead to tables in the right place, except those listed. */
  ghost predicate DownOk(tables: Tables, place: Places, holes: set<(nat, nat)>) {
    forall f, i :: f in place && f in tables && 0 <= i < 512 && place[f].level > 0 && V(tables[f][i]) && (f, i) !in holes ==>
      var g := Frame(tables[f][i]);
      tables[f][i] == Ptr(g) && g in place && place[g] == Place(place[f].root, place[f].level - 1, place[f].prefix * 512 + i)
  }

  /** The table above, for a table that is not a root. */
  function Parent(tables: Tables, p: Place): nat {
    if p.level == 1 then p.root else Step(tables, p.root, p.prefix / 512)
  }

  /** Every table that is not a root hangs from an entry of the one above. */
  ghost predicate UpOk(tables: Tables, place: Places) {
    forall f :: f in place && place[f].level < 2 ==>
      var p := place[f]; var g := Parent(tables, p);
      g in place && g in tables && place[g] == Place(p.root, p.level + 1, p.prefix / 512) && tables[g][p.prefix % 512] == Ptr(f)
  }

  /** Leaves are readable; invalid entries are 0. */
  predicate EntryOk(e: nat) { if V(e) then Rd(e) else e == 0 }

  ghost predicate LeavesOk(tables: Tables, place: Places) {
    forall f, i :: f in place && f in tables && 0 <= i < 512 && place[f].level == 0 ==> EntryOk(tables[f][i])
  }

  ghost predicate TreeBut(tables: Tables, place: Places, holes: set<(nat, nat)>) {
    PlacesOk(tables, place) && DownOk(tables, place, holes) && UpOk(tables, place) && LeavesOk(tables, place)
  }

  ghost predicate Tree(tables: Tables, place: Places) { TreeBut(tables, place, {}) }

  lemma Digits(v: nat)
    ensures v / 262144 * 512 + v / 512 % 512 == v / 512
    ensures v < MAXVPN ==> v / 262144 < 256 && v / 512 < 131072
  {
  }

  /** Walking down a tree leads to the table in the right place. */
  lemma LastTablePlace(tables: Tables, place: Places, r: nat, v: nat)
    requires Tree(tables, place) && IsRoot(place, r) && v < MAXVPN
    ensures var t := LastTable(tables, r, v); t != 0 ==> t in place && place[t] == Place(r, 0, v / 512)
    ensures var m := Step(tables, r, v / 262144); m != 0 ==> m in place && place[m] == Place(r, 1, v / 262144)
  {
    Digits(v);
  }

  // ----- Sv39 translation, section 4.3.2 of the RISC-V Privileged Architecture, version 20211203 -----

  datatype Translation = Fault | Mapped(entry: nat, level: nat)

  function Power512(n: nat): (r: nat)
    ensures r > 0
  {
    if n == 0 then 1 else 512 * Power512(n - 1)
  }

  /** The nine bits of the page number that index the table at this level. */
  function Vpn(v: nat, level: nat): nat { v / Power512(level) % 512 }

  /** Steps 2 to 5: an entry that is readable or executable is a leaf, at any level. */
  function Sv39(tables: Tables, a: nat, v: nat, level: nat): Translation
    decreases level
  {
    if a !in tables then Fault
    else
      var e := tables[a][Vpn(v, level)];
      if !V(e) || (!Rd(e) && Wr(e)) then Fault
      else if Rd(e) || Ex(e) then Mapped(e, level)
      else if level == 0 then Fault
      else Sv39(tables, Frame(e), v, level - 1)
  }

  /** walk finds the entry by which the hardware translates. */
  lemma {:induction false} WalkIsSv39(tables: Tables, place: Places, r: nat, v: nat)
    requires Tree(tables, place) && IsRoot(place, r) && v < MAXVPN
    ensures Sv39(tables, r, v, 2) == if V(Leaf(tables, r, v)) then Mapped(Leaf(tables, r, v), 0) else Fault
  {
    hide Vpn, V, Rd, Wr, Ex, Frame, Ptr, DownOk, LeavesOk, UpOk;
    ZeroInvalid();
    Indices(v);
    LastTablePlace(tables, place, r, v);
    var i2, i1 := v / 262144, v / 512 % 512;
    var e2 := tables[r][i2];
    DownAt(tables, place, r, i2);
    if V(e2) {
      var t1 := Frame(e2);
      PtrParts(t1);
      var e1 := tables[t1][i1];
      DownAt(tables, place, t1, i1);
      if V(e1) {
        var t0 := Frame(e1);
        PtrParts(t0);
        LeafAt(tables, place, t0, v % 512);
        assert Sv39(tables, t0, v, 0) == if V(tables[t0][v % 512]) then Mapped(tables[t0][v % 512], 0) else Fault;
        assert Sv39(tables, t1, v, 1) == Sv39(tables, t0, v, 0);
      }
    }
  }

  lemma DownAt(tables: Tables, place: Places, f: nat, i: nat)
    requires Tree(tables, place) && f in place && i < 512 && place[f].level > 0
    ensures f in tables
    ensures V(tables[f][i]) ==>
      var g := Frame(tables[f][i]);
      g != 0 && tables[f][i] == Ptr(g) && g in tables && g in place && place[g] == Place(place[f].root, place[f].level - 1, place[f].prefix * 512 + i)
  {
  }

  lemma LeafAt(tables: Tables, place: Places, f: nat, i: nat)
    requires Tree(tables, place) && f in place && i < 512 && place[f].level == 0
    ensures f in tables && EntryOk(tables[f][i])
  {
  }

  lemma Indices(v: nat)
    ensures Vpn(v, 0) == v % 512 && Vpn(v, 1) == v / 512 % 512
    ensures v < MAXVPN ==> Vpn(v, 2) == v / 262144 < 512
  {
  }

  // ----- Stores into tables -----

  function Store(tables: Tables, t: nat, i: nat, e: nat): Tables
    requires t in tables && i < 512
  {
    tables[t := tables[t][i := e]]
  }

  /** Storing into a level-0 table keeps the tree. */
  lemma StoreLeafTree(tables: Tables, place: Places, holes: set<(nat, nat)>, t: nat, i: nat, e: nat)
    requires TreeBut(tables, place, holes) && t in place && place[t].level == 0 && i < 512 && EntryOk(e)
    ensures t in tables && TreeBut(Store(tables, t, i, e), place, holes)
  {
    var n := Store(tables, t, i, e);
    forall f, k | f in place && place[f].level > 0 && 0 <= k < 512 ensures n[f][k] == tables[f][k] {
    }
    forall f | f in place && place[f].level < 2 ensures Parent(n, place[f]) == Parent(tables, place[f]) {
    }
  }

  lemma StoreLeafSteps(tables: Tables, place: Places, t: nat, i: nat, e: nat, r: nat, v: nat)
    requires Tree(tables, place) && t in place && place[t].level == 0 && i < 512 && IsRoot(place, r) && v < MAXVPN
    ensures t in tables && LastTable(Store(tables, t, i, e), r, v) == LastTable(tables, r, v)
  {
  }

  /** A store into the entry for page v of root r changes that leaf and no other. */
  lemma StoreLeaf(tables: Tables, place: Places, r: nat, v: nat, e: nat, r': nat, v': nat)
    requires Tree(tables, place) && IsRoot(place, r) && v < MAXVPN && LastTable(tables, r, v) != 0
    requires IsRoot(place, r') && v' < MAXVPN
    ensures LastTable(tables, r, v) in tables
    ensures Leaf(Store(tables, LastTable(tables, r, v), v % 512, e), r', v') ==
            if r' == r && v' == v then e else Leaf(tables, r', v')
  {
    var t := LastTable(tables, r, v);
    LastTablePlace(tables, place, r, v);
    LastTablePlace(tables, place, r', v');
    StoreLeafSteps(tables, place, t, v % 512, e, r', v');
  }

  /** A fresh table under entry i of table t. */
  function Hang(tables: Tables, t: nat, i: nat, g: nat): Tables
    requires t in tables && i < 512
  {
    Store(tables, t, i, Ptr(g))[g := Empty()]
  }

  function Below(p: Place, i: nat): Place
    requires p.level > 0
  {
    Place(p.root, p.level - 1, p.prefix * 512 + i)
  }

  lemma HangDown(tables: Tables, place: Places, t: nat, i: nat, g: nat)
    requires Tree(tables, place) && t in place && place[t].level > 0 && i < 512 && !V(tables[t][i]) && g !in place
    requires g != 0
    ensures DownOk(Hang(tables, t, i, g), place[g := Below(place[t], i)], {})
  {
    hide Ptr, Frame, V;
    PtrParts(g);
    ZeroInvalid();
    var n, q := Hang(tables, t, i, g), place[g := Below(place[t], i)];
    forall f, k | f in q && f in n && 0 <= k < 512 && q[f].level > 0 && V(n[f][k])
      ensures var h := Frame(n[f][k]);
        n[f][k] == Ptr(h) && h in q && q[h] == Place(q[f].root, q[f].level - 1, q[f].prefix * 512 + k)
    {
      if f != g && !(f == t && k == i) {
        assert n[f][k] == tables[f][k];
      }
    }
  }

  lemma ParentKept(tables: Tables, place: Places, t: nat, i: nat, g: nat, f: nat)
    requires Tree(tables, place) && t in place && place[t].level > 0 && i < 512 && !V(tables[t][i]) && g !in place
    requires g != 0
    requires f in place && place[f].level < 2
    ensures Parent(Hang(tables, t, i, g), place[f]) == Parent(tables, place[f])
  {
  }

  lemma ParentOfNew(tables: Tables, place: Places, t: nat, i: nat, g: nat)
    requires Tree(tables, place) && t in place && place[t].level > 0 && i < 512 && !V(tables[t][i]) && g !in place
    requires g != 0
    ensures Parent(Hang(tables, t, i, g), Below(place[t], i)) == t
    ensures Below(place[t], i).prefix / 512 == place[t].prefix && Below(place[t], i).prefix % 512 == i
  {
    hide DownOk, LeavesOk, UpOk, Ptr, Frame, V;
    MulDiv(place[t].prefix, i);
    if place[t].level == 1 {
      LevelOne(tables, place, t);
      PtrParts(t);
    }
  }

  lemma MulDiv(p: nat, i: nat)
    requires i < 512
    ensures (p * 512 + i) / 512 == p && (p * 512 + i) % 512 == i
  {
  }

  lemma LevelOne(tables: Tables, place: Places, t: nat)
    requires Tree(tables, place) && t in place && place[t].level == 1
    ensures place[t].prefix < 512 && place[t].root in tables && tables[place[t].root][place[t].prefix] == Ptr(t)
  {
    var p := place[t];
    assert Parent(tables, p) == p.root && place[p.root] == Place(p.root, 2, p.prefix / 512);
  }

  lemma HangUp(tables: Tables, place: Places, t: nat, i: nat, g: nat)
    requires Tree(tables, place) && t in place && place[t].level > 0 && i < 512 && !V(tables[t][i]) && g !in place
    requires g != 0
    ensures UpOk(Hang(tables, t, i, g), place[g := Below(place[t], i)])
  {
    hide Ptr, Frame, DownOk, LeavesOk;
    PtrParts(g);
    var n, q := Hang(tables, t, i, g), place[g := Below(place[t], i)];
    forall f | f in q && q[f].level < 2
      ensures var p := q[f]; var h := Parent(n, p);
        h in q && h in n && q[h] == Place(p.root, p.level + 1, p.prefix / 512) && n[h][p.prefix % 512] == Ptr(f)
    {
      if f != g {
        var h := Parent(tables, place[f]);
        PtrParts(f);
        assert tables[h][place[f].prefix % 512] == Ptr(f);
        ParentKept(tables, place, t, i, g, f);
      } else {
        ParentOfNew(tables, place, t, i, g);
      }
    }
  }

  lemma HangRest(tables: Tables, place: Places, t: nat, i: nat, g: nat)
    requires PlacesOk(tables, place) && LeavesOk(tables, place)
    requires t in place && place[t].level > 0 && i < 512 && g !in place && g != 0 && (place[t].level == 2 ==> i < 256)
    ensures PlacesOk(Hang(tables, t, i, g), place[g := Below(place[t], i)])
    ensures LeavesOk(Hang(tables, t, i, g), place[g := Below(place[t], i)])
  {
    hide Ptr, Rd;
    ZeroInvalid();
    var n, q := Hang(tables, t, i, g), place[g := Below(place[t], i)];
    forall f, k | f in q && f in n && 0 <= k < 512 && q[f].level == 0 ensures EntryOk(n[f][k]) {
      assert f != g ==> n[f][k] == tables[f][k];
    }
  }

  lemma HangTree(tables: Tables, place: Places, t: nat, i: nat, g: nat)
    requires Tree(tables, place) && t in place && place[t].level > 0 && i < 512 && !V(tables[t][i]) && g !in place
    requires g != 0
    requires place[t].level == 2 ==> i < 256
    ensures Tree(Hang(tables, t, i, g), place[g := Below(place[t], i)])
  {
    hide DownOk, UpOk, LeavesOk, PlacesOk, Hang, V;
    HangDown(tables, place, t, i, g);
    HangUp(tables, place, t, i, g);
    HangRest(tables, place, t, i, g);
  }

  /** A fresh table shows no new leaf. */
  lemma HangLeaf(tables: Tables, place: Places, t: nat, i: nat, g: nat, r: nat, v: nat)
    requires Tree(tables, place) && t in place && place[t].level > 0 && i < 512 && !V(tables[t][i]) && g !in place
    requires g != 0
    requires IsRoot(place, r) && v < MAXVPN
    ensures Leaf(Hang(tables, t, i, g), r, v) == Leaf(tables, r, v)
  {
    hide DownOk, LeavesOk, UpOk, Ptr, Frame, V;
    Digits(v);
    PtrParts(g);
    LastTablePlace(tables, place, r, v);
    var n := Hang(tables, t, i, g);
    var i2, i1 := v / 262144, v / 512 % 512;
    if t == r && i == i2 {
      assert Step(n, r, i2) == g && Step(tables, r, i2) == 0;
      StepEmpty(n, g, i1);
    } else {
      assert Step(n, r, i2) == Step(tables, r, i2);
      var m := Step(tables, r, i2);
      if m == t && i == i1 {
        assert Step(n, m, i1) == g && Step(tables, m, i1) == 0;
      }
    }
  }

  lemma StepEmpty(tables: Tables, g: nat, i: nat)
    requires g in tables && tables[g] == Empty() && i < 512
    ensures Step(tables, g, i) == 0
  {
  }

  lemma RootDown(tables: Tables, place: Places, g: nat)
    requires PlacesOk(tables, place) && DownOk(tables, place, {}) && LeavesOk(tables, place) && g !in place && g != 0
    ensures var n, q := tables[g := Empty()], place[g := Place(g, 2, 0)]; PlacesOk(n, q) && DownOk(n, q, {}) && LeavesOk(n, q)
  {
    hide Ptr, Frame, Rd;
    ZeroInvalid();
  }

  lemma RootUp(tables: Tables, place: Places, g: nat)
    requires PlacesOk(tables, place) && UpOk(tables, place) && g !in place && g != 0
    ensures UpOk(tables[g := Empty()], place[g := Place(g, 2, 0)])
  {
    hide Ptr, Frame;
    var n, q := tables[g := Empty()], place[g := Place(g, 2, 0)];
    forall f | f in q && q[f].level < 2 ensures Parent(n, q[f]) == Parent(tables, place[f]) {
      assert place[f].root != g;
    }
  }

  lemma RootTree(tables: Tables, place: Places, g: nat)
    requires Tree(tables, place) && g !in place && g != 0
    ensures Tree(tables[g := Empty()], place[g := Place(g, 2, 0)])
  {
    hide DownOk, UpOk, LeavesOk, PlacesOk;
    RootDown(tables, place, g);
    RootUp(tables, place, g);
  }

  lemma RootLeaf(tables: Tables, place: Places, g: nat, r: nat, v: nat)
    requires Tree(tables, place) && g !in place && g != 0 && v < MAXVPN && (r == g || IsRoot(place, r))
    ensures Leaf(tables[g := Empty()], r, v) == if r == g then 0 else Leaf(tables, r, v)
  {
    var n := tables[g := Empty()];
    Digits(v);
    if r == g {
      StepEmpty(n, g, v / 262144);
    } else {
      LastTablePlace(tables, place, r, v);
    }
  }

  // ----- Taking a tree apart -----

  /** The page-number bits above level l for a table at or below it. */
  function Anc(q: Place, l: nat): nat {
    if l <= q.level then q.prefix else if l == q.level + 1 then q.prefix / 512 else q.prefix / 262144
  }

  /** q is p or below it. */
  predicate Sub(q: Place, p: Place) { q.root == p.root && q.level <= p.level && Anc(q, p.level) == p.prefix }

  /** q is below p, under one of its first k entries. */
  predicate Cut(q: Place, p: Place, k: nat) {
    q.root == p.root && q.level < p.level && p.prefix * 512 <= Anc(q, p.level - 1) < p.prefix * 512 + k
  }

  lemma PlaceUniqueBut(tables: Tables, place: Places, holes: set<(nat, nat)>, f: nat, g: nat)
    requires TreeBut(tables, place, holes) && f in place && g in place && place[f] == place[g]
    ensures f == g
  {
    hide DownOk, LeavesOk;
    if place[f].level < 2 {
      PtrParts(f);
      PtrParts(g);
    }
  }

  /** An entry that is not valid has nothing below it. */
  lemma NothingBelow(tables: Tables, place: Places, holes: set<(nat, nat)>, t: nat, i: nat, f: nat)
    requires TreeBut(tables, place, holes) && t in place && place[t].level > 0 && i < 512 && !V(tables[t][i])
    requires f in place
    ensures !Sub(place[f], Below(place[t], i))
  {
    hide DownOk, LeavesOk, Ptr, V;
    var p, q := place[t], place[f];
    MulDiv(p.prefix, i);
    if q == Below(p, i) {
      HangsFrom(tables, place, holes, t, i, f);
    } else if p.level == 2 && q.level == 0 && Sub(q, Below(p, i)) {
      var g := Parent(tables, q);
      assert g in place && place[g] == Place(q.root, 1, q.prefix / 512);
      HangsFrom(tables, place, holes, t, i, g);
    }
  }

  /** The table in the place under entry i of t is what the entry leads to. */
  lemma HangsFrom(tables: Tables, place: Places, holes: set<(nat, nat)>, t: nat, i: nat, f: nat)
    requires TreeBut(tables, place, holes) && t in place && place[t].level > 0 && i < 512 && f in place
    requires place[f] == Below(place[t], i)
    ensures Parent(tables, place[f]) == t && tables[t][i] == Ptr(f) && V(tables[t][i])
  {
    hide DownOk, LeavesOk, Ptr, V;
    MulDiv(place[t].prefix, i);
    var g := Parent(tables, place[f]);
    assert g in place && place[g] == Place(place[t].root, place[t].level, place[t].prefix);
    PlaceUniqueBut(tables, place, holes, g, t);
    PtrParts(f);
  }

  lemma MoreHoles(tables: Tables, place: Places, holes: set<(nat, nat)>, h: (nat, nat))
    requires TreeBut(tables, place, holes)
    ensures TreeBut(tables, place, holes + {h})
  {
  }

  /** Clearing an entry under which nothing is left. */
  lemma ClearDown(tables: Tables, place: Places, holes: set<(nat, nat)>, t: nat, i: nat)
    requires TreeBut(tables, place, holes + {(t, i)}) && t in place && place[t].level > 0 && i < 512
    ensures PlacesOk(Store(tables, t, i, 0), place) && DownOk(Store(tables, t, i, 0), place, holes)
    ensures LeavesOk(Store(tables, t, i, 0), place)
  {
    hide UpOk, Ptr, Frame, V, EntryOk;
    ZeroInvalid();
    var n := Store(tables, t, i, 0);
    forall f, k | f in place && 0 <= k < 512 && !(f == t && k == i) ensures n[f][k] == tables[f][k] {
    }
  }

  lemma ClearUp(tables: Tables, place: Places, holes: set<(nat, nat)>, t: nat, i: nat)
    requires TreeBut(tables, place, holes) && t in place && place[t].level > 0 && i < 512
    requires forall f :: f in place ==> !Sub(place[f], Below(place[t], i))
    ensures UpOk(Store(tables, t, i, 0), place)
  {
    hide DownOk, LeavesOk, Ptr, Frame, V;
    var n := Store(tables, t, i, 0);
    forall f | f in place && place[f].level < 2
      ensures var p := place[f]; var g := Parent(n, p);
        g in place && g in n && place[g] == Place(p.root, p.level + 1, p.prefix / 512) && n[g][p.prefix % 512] == Ptr(f)
    {
      var p := place[f];
      var g := Parent(tables, p);
      assert g in place && place[g] == Place(p.root, p.level + 1, p.prefix / 512) && tables[g][p.prefix % 512] == Ptr(f);
      PtrParts(f);
      NotThere(place, t, i, f, g);
      if p.level == 0 {
        assert g != 0;
        StepOther(tables, t, i, p.root, p.prefix / 512);
      }
    }
  }

  /** A table that is left does not hang from the cleared entry, and neither does the one above it. */
  lemma NotThere(place: Places, t: nat, i: nat, f: nat, g: nat)
    requires t in place && 0 < place[t].level <= 2 && i < 512 && f in place && place[f].level < 2 && g in place
    requires place[g] == Place(place[f].root, place[f].level + 1, place[f].prefix / 512)
    requires !Sub(place[f], Below(place[t], i)) && (place[t].level == 2 ==> place[t].prefix == 0 && place[t].root == t)
    ensures !(g == t && place[f].prefix % 512 == i)
    ensures place[f].level == 0 ==> !(t == place[f].root && place[t].level == 2 && place[f].prefix / 512 == i)
  {
  }

  lemma StepOther(tables: Tables, t: nat, i: nat, r: nat, k: nat)
    requires t in tables && i < 512 && !(t == r && i == k)
    ensures Step(Store(tables, t, i, 0), r, k) == Step(tables, r, k)
  {
  }

  lemma ClearEntry(tables: Tables, place: Places, holes: set<(nat, nat)>, t: nat, i: nat)
    requires TreeBut(tables, place, holes + {(t, i)}) && t in place && place[t].level > 0 && i < 512
    requires forall f :: f in place ==> !Sub(place[f], Below(place[t], i))
    ensures t in tables && TreeBut(Store(tables, t, i, 0), place, holes)
  {
    hide DownOk, UpOk, LeavesOk;
    ClearDown(tables, place, holes, t, i);
    ClearUp(tables, place, holes + {(t, i)}, t, i);
  }

  /** A table with nothing below, whose own entry above is about to be cleared, can go. */
  ghost predicate Loose(tables: Tables, place: Places, holes: set<(nat, nat)>, t: nat) {
    t in place && (place[t].level < 2 ==> (Parent(tables, place[t]), place[t].prefix % 512) in holes)
  }

  lemma RemovePlaces(tables: Tables, place: Places, t: nat)
    requires PlacesOk(tables, place) && t in place && forall f :: f in place && f != t ==> !Sub(place[f], place[t])
    ensures PlacesOk(tables - {t}, place - {t}) && forall f :: f in place && f != t ==> place[f].root != t
  {
    hide Sub;
    forall f | f in place && f != t ensures place[f].root != t {
      RootBelow(place, f, t);
    }
  }

  lemma RemoveUpAt(tables: Tables, place: Places, holes: set<(nat, nat)>, t: nat, f: nat)
    requires TreeBut(tables, place, holes) && t in place && f in place && f != t && place[f].level < 2
    requires !Sub(place[f], place[t]) && place[f].root != t
    ensures var n, q, p := tables - {t}, place - {t}, place[f]; var g := Parent(n, p);
      g in q && g in n && q[g] == Place(p.root, p.level + 1, p.prefix / 512) && n[g][p.prefix % 512] == Ptr(f)
  {
    hide DownOk, LeavesOk, Ptr, Frame, V;
    var p := place[f];
    var g := Parent(tables, p);
    assert g in place && place[g] == Place(p.root, p.level + 1, p.prefix / 512) && tables[g][p.prefix % 512] == Ptr(f);
    assert g != t;
    assert Parent(tables - {t}, p) == g;
  }

  lemma RemoveUp(tables: Tables, place: Places, holes: set<(nat, nat)>, t: nat)
    requires TreeBut(tables, place, holes) && t in place
    requires forall f :: f in place && f != t ==> !Sub(place[f], place[t])
    ensures PlacesOk(tables - {t}, place - {t}) && UpOk(tables - {t}, place - {t})
  {
    hide DownOk, LeavesOk, Ptr, Sub, PlacesOk, Parent;
    RemovePlaces(tables, place, t);
    var n, q := tables - {t}, place - {t};
    forall f | f in q && q[f].level < 2
      ensures var p := q[f]; var g := Parent(n, p);
        g in q && g in n && q[g] == Place(p.root, p.level + 1, p.prefix / 512) && n[g][p.prefix % 512] == Ptr(f)
    {
      RemoveUpAt(tables, place, holes, t, f);
    }
  }

  lemma RootBelow(place: Places, f: nat, t: nat)
    requires f in place && t in place && place[f].level <= 2 && place[f].prefix < Limit(place[f].level)
    requires place[t].level == 2 ==> place[t] == Place(t, 2, 0)
    ensures place[f].root == t && place[t] == Place(t, 2, 0) ==> Sub(place[f], place[t])
  {
  }

  lemma RemoveDown(tables: Tables, place: Places, holes: set<(nat, nat)>, t: nat)
    requires TreeBut(tables, place, holes) && Loose(tables, place, holes, t)
    ensures DownOk(tables - {t}, place - {t}, holes) && LeavesOk(tables - {t}, place - {t})
  {
    hide Ptr, V, EntryOk;
    var n, q := tables - {t}, place - {t};
    forall f, i | f in q && f in n && 0 <= i < 512 && q[f].level > 0 && V(n[f][i]) && (f, i) !in holes
      ensures Frame(n[f][i]) != t
    {
      var g := Frame(tables[f][i]);
      assert g in place && place[g] == Place(place[f].root, place[f].level - 1, place[f].prefix * 512 + i);
      MulDiv(place[f].prefix, i);
      HangsFrom(tables, place, holes, f, i, g);
    }
  }

  lemma RemoveTable(tables: Tables, place: Places, holes: set<(nat, nat)>, t: nat)
    requires TreeBut(tables, place, holes) && Loose(tables, place, holes, t)
    requires forall f :: f in place && f != t ==> !Sub(place[f], place[t])
    ensures TreeBut(tables - {t}, place - {t}, holes)
  {
    hide DownOk, UpOk, LeavesOk, PlacesOk;
    RemoveUp(tables, place, holes, t);
    RemoveDown(tables, place, holes, t);
  }

  /** Entry i of a level-0 table is the leaf of its page. */
  lemma LeafIsEntry(tables: Tables, place: Places, f: nat, i: nat)
    requires Tree(tables, place) && f in place && place[f].level == 0 && i < 512
    ensures place[f].prefix * 512 + i < MAXVPN && f in tables
    ensures Leaf(tables, place[f].root, place[f].prefix * 512 + i) == tables[f][i]
  {
    hide DownOk, LeavesOk, Ptr, V, Frame;
    var p := place[f];
    var v := p.prefix * 512 + i;
    Digits(v);
    MulDiv(p.prefix, i);
    var g := Parent(tables, p);
    assert g in place && place[g] == Place(p.root, 1, p.prefix / 512) && tables[g][p.prefix % 512] == Ptr(f);
    PtrParts(f);
    assert v / 512 == p.prefix && v % 512 == i && v / 262144 == p.prefix / 512;
  }
}
