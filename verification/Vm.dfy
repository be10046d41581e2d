/** Physical page allocator (kernel/kalloc.c) and user address spaces (kernel/vm.c, and the page-table parts
    of kernel/proc.c). */
module Vm {
  import opened Prelude
  import opened PageTable

  /** PHYSTOP and KERNBASE as frame numbers. */
  const PHYSTOP: nat := 0x88000
  const KERNBASE: nat := 0x80000

  type Users = map<nat, (nat, nat)>

  /** Every page from lo on is on the free list, or a table, or a user page, or held by its allocator:
      exactly one of these. */
  ghost predicate Conserved(lo: nat, free: seq<nat>, place: Places, user: Users, held: set<nat>) {
    && KERNBASE <= lo <= PHYSTOP && Distinct(free)
    && (forall f :: f in free ==> lo <= f < PHYSTOP && f !in place && f !in user && f !in held)
    && (forall f :: f in place ==> lo <= f < PHYSTOP && f !in user && f !in held)
    && (forall f :: f in user ==> lo <= f < PHYSTOP && f !in held)
    && (forall f :: f in held ==> lo <= f < PHYSTOP)
    && (forall f :: lo <= f < PHYSTOP ==> f in free || f in place || f in user || f in held)
  }

  /** User pages are mapped by exactly one page of one address space; pages from TRAPFRAME up are not
      accessible to the user. */
  ghost predicate UserOk(tables: Tables, place: Places, user: Users) {
    && (forall f :: f in user ==>
          && IsRoot(place, user[f].0) && user[f].1 < TRAPFRAME
          && V(Leaf(tables, user[f].0, user[f].1)) && Frame(Leaf(tables, user[f].0, user[f].1)) == f)
    && (forall r: nat, v: nat :: IsRoot(place, r) && v < MAXVPN && V(Leaf(tables, r, v)) && (v < TRAPFRAME || U(Leaf(tables, r, v))) ==>
          Frame(Leaf(tables, r, v)) in user && user[Frame(Leaf(tables, r, v))] == (r, v))
  }

  // ----- Moving a page between owners -----

  lemma TakeFree(lo: nat, free: seq<nat>, place: Places, user: Users, held: set<nat>)
    requires Conserved(lo, free, place, user, held) && free != []
    ensures Conserved(lo, free[1..], place, user, held + {free[0]}) && free[0] !in held && free[0] !in place
    ensures free[0] !in user && free[0] > 0
  {
    forall f | f in free[1..] ensures f in free && f != free[0] {
      var i :| 0 <= i < |free| - 1 && free[1..][i] == f;
      assert free[i + 1] == f;
    }
    forall f | f in free && f != free[0] ensures f in free[1..] {
      var i :| 0 <= i < |free| && free[i] == f;
      assert free[1..][i - 1] == f;
    }
  }

  lemma GiveBack(lo: nat, free: seq<nat>, place: Places, user: Users, held: set<nat>, f: nat)
    requires Conserved(lo, free, place, user, held) && f in held
    ensures Conserved(lo, [f] + free, place, user, held - {f})
  {
  }

  lemma HeldToTable(lo: nat, free: seq<nat>, place: Places, user: Users, held: set<nat>, f: nat, p: Place)
    requires Conserved(lo, free, place, user, held) && f in held
    ensures Conserved(lo, free, place[f := p], user, held - {f})
  {
  }

  lemma TableToHeld(lo: nat, free: seq<nat>, place: Places, user: Users, held: set<nat>, f: nat)
    requires Conserved(lo, free, place, user, held) && f in place
    ensures Conserved(lo, free, place - {f}, user, held + {f})
  {
  }

  lemma HeldToUser(lo: nat, free: seq<nat>, place: Places, user: Users, held: set<nat>, f: nat, u: (nat, nat))
    requires Conserved(lo, free, place, user, held) && f in held
    ensures Conserved(lo, free, place, user[f := u], held - {f})
  {
  }

  lemma UserToHeld(lo: nat, free: seq<nat>, place: Places, user: Users, held: set<nat>, f: nat)
    requires Conserved(lo, free, place, user, held) && f in user
    ensures Conserved(lo, free, place, user - {f}, held + {f})
  {
  }

  // ----- What steps do to the leaves -----

  /** Pages v to v + n of root r read e(v), e(v + 1), ...; every other leaf of every old tree is the same.
      Tables may be added, roots not. */
  ghost predicate Leaves(tables0: Tables, place0: Places, tables: Tables, place: Places) {
    && (forall f :: f in place0 ==> f in place && place[f] == place0[f])
    && (forall f :: f in place && f !in place0 ==> place[f].level < 2)
    && (forall r: nat, v: nat :: IsRoot(place0, r) && v < MAXVPN ==> Leaf(tables, r, v) == Leaf(tables0, r, v))
  }

  lemma LeavesRefl(tables: Tables, place: Places)
    ensures Leaves(tables, place, tables, place)
  {
  }

  /** Unchanged leaves keep the user pages in order. */
  lemma LeavesUser(t0: Tables, p0: Places, t1: Tables, p1: Places, user: Users)
    requires UserOk(t0, p0, user) && Leaves(t0, p0, t1, p1)
    ensures UserOk(t1, p1, user)
  {
  }

  function Fill(c: Byte): Page { seq(PGSIZE, _ => c) }

  /** Contents of user and held pages are kept, apart from page f. */
  ghost predicate DataKept(data: map<nat, Page>, data': map<nat, Page>, pages: set<nat>) {
    forall f :: f in pages && f in data ==> f in data' && data'[f] == data[f]
  }

  lemma HangStep(lo: nat, free: seq<nat>, tables: Tables, place: Places, user: Users, held: set<nat>, t: nat, i: nat,
                 g: nat)
    requires Conserved(lo, free, place, user, held) && Tree(tables, place) && UserOk(tables, place, user)
    requires t in place && place[t].level > 0 && i < 512 && !V(tables[t][i]) && g in held
    requires (place[t].level == 2 ==> i < 256)
    ensures var q := place[g := Below(place[t], i)]; var n := Hang(tables, t, i, g);
      Conserved(lo, free, q, user, held - {g}) && Tree(n, q) && UserOk(n, q, user) && Leaves(tables, place, n, q)
  {
    hide DownOk, UpOk, LeavesOk, UserOk, Leaf, V;
    var q, n := place[g := Below(place[t], i)], Hang(tables, t, i, g);
    HeldToTable(lo, free, place, user, held, g, Below(place[t], i));
    HangTree(tables, place, t, i, g);
    forall r: nat, v: nat | IsRoot(place, r) && v < MAXVPN ensures Leaf(n, r, v) == Leaf(tables, r, v) {
      HangLeaf(tables, place, t, i, g, r, v);
    }
    LeavesUser(tables, place, n, q, user);
  }

  ghost predicate StepsKept(tables: Tables, tables': Tables) {
    forall t: nat, i: nat :: Step(tables, t, i) != 0 ==> Step(tables', t, i) == Step(tables, t, i)
  }

  /** What walk may do: add tables.  Pages in use keep their contents. */
  ghost predicate Grown(t0: Tables, p0: Places, d0: map<nat, Page>, t1: Tables, p1: Places, d1: map<nat, Page>,
                        pages: set<nat>) {
    Leaves(t0, p0, t1, p1) && StepsKept(t0, t1) && DataKept(d0, d1, pages)
  }

  lemma GrownRefl(t0: Tables, p0: Places, d0: map<nat, Page>, pages: set<nat>)
    ensures Grown(t0, p0, d0, t0, p0, d0, pages)
  {
  }

  lemma GrownTrans(t0: Tables, p0: Places, d0: map<nat, Page>, t1: Tables, p1: Places, d1: map<nat, Page>,
                   t2: Tables, p2: Places, d2: map<nat, Page>, pages: set<nat>)
    requires Grown(t0, p0, d0, t1, p1, d1, pages) && Grown(t1, p1, d1, t2, p2, d2, pages)
    ensures Grown(t0, p0, d0, t2, p2, d2, pages)
  {
  }

  lemma HangGrown(tables: Tables, place: Places, data: map<nat, Page>, t: nat, i: nat, g: nat, pages: set<nat>,
                  junk: Page)
    requires Tree(tables, place) && t in place && place[t].level > 0 && i < 512 && !V(tables[t][i]) && g !in place
    requires g !in pages
    requires Leaves(tables, place, Hang(tables, t, i, g), place[g := Below(place[t], i)])
    ensures Grown(tables, place, data, Hang(tables, t, i, g), place[g := Below(place[t], i)], data[g := junk], pages)
    ensures Step(Hang(tables, t, i, g), t, i) == g
  {
    hide Ptr, Frame, V, DownOk, UpOk, LeavesOk;
    PtrParts(g);
    ZeroInvalid();
  }

  lemma InRange(lo: nat, free: seq<nat>, place: Places, user: Users, held: set<nat>, f: nat)
    requires Conserved(lo, free, place, user, held) && f in held
    ensures lo <= f < PHYSTOP
  {
  }

  lemma InHand(lo: nat, free: seq<nat>, place: Places, user: Users, held: set<nat>, f: nat)
    requires Conserved(lo, free, place, user, held) && f in held
    ensures f > 0 && f !in place && f !in user
  {
  }

  lemma NoEntry(tables: Tables, place: Places, t: nat, i: nat)
    requires Tree(tables, place) && t in place && i < 512 && !V(tables[t][i])
    ensures t in tables && Step(tables, t, i) == 0 && tables.Keys == place.Keys
  {
  }

  lemma SetHang(tables: Tables, t: nat, i: nat, g: nat)
    requires t in tables && i < 512
    ensures tables[t := tables[t][i := Pte(g, 1)]][g := Empty()] == Hang(tables, t, i, g)
  {
  }

  lemma NoStep(tables: Tables, i: nat)
    requires 0 !in tables
    ensures Step(tables, 0, i) == 0
  {
  }

  lemma GrownSteps(t0: Tables, p0: Places, d0: map<nat, Page>, t1: Tables, p1: Places, d1: map<nat, Page>,
                   pages: set<nat>, t: nat, i: nat)
    requires Grown(t0, p0, d0, t1, p1, d1, pages) && Step(t0, t, i) != 0
    ensures Step(t1, t, i) == Step(t0, t, i)
  {
  }

  // ----- How much memory a mapping takes -----

  /** Entry i of table t may have been filled; no other upper entry changed. */
  ghost predicate StepsBut(t0: Tables, t1: Tables, t: nat, i: nat) {
    forall x: nat, j: nat :: x != t || j != i ==> Step(t1, x, j) == Step(t0, x, j)
  }

  /** The tables walk finds missing on its way to page v: each takes a frame. */
  ghost function Missing(tables: Tables, r: nat, v: nat): nat {
    (if Step(tables, r, v / 262144) == 0 then 1 else 0) + (if LastTable(tables, r, v) == 0 then 1 else 0)
  }

  /** Root r now has the tables it had and those for page v. */
  ghost predicate Built(t0: Tables, t1: Tables, r: nat, v: nat) {
    forall y: nat :: y < MAXVPN ==>
      && (Step(t1, r, y / 262144) != 0 <==> Step(t0, r, y / 262144) != 0 || y / 262144 == v / 262144)
      && (LastTable(t1, r, y) != 0 <==> LastTable(t0, r, y) != 0 || y / 512 == v / 512)
  }

  lemma HangSteps(tables: Tables, t: nat, i: nat, g: nat)
    requires t in tables && i < 512 && g !in tables && g != 0
    ensures StepsBut(tables, Hang(tables, t, i, g), t, i)
  {
    hide Ptr, Frame, V;
    ZeroInvalid();
  }

  /** After the first turn of walk, from the root to the middle table m. */
  ghost predicate AtMiddle(t0: Tables, free0: seq<nat>, t1: Tables, free1: seq<nat>, r: nat, v: nat, m: nat) {
    && StepsBut(t0, t1, r, v / 262144) && m == Step(t1, r, v / 262144) != 0
    && (if Step(t0, r, v / 262144) == 0 then m !in t0 else m == Step(t0, r, v / 262144))
    && |free1| == |free0| - if Step(t0, r, v / 262144) == 0 then 1 else 0
  }

  /** The second turn: if it finds no page there were too few, otherwise exactly the missing tables were taken. */
  lemma AtLast(t0: Tables, p0: Places, free0: seq<nat>, t1: Tables, p1: Places, free1: seq<nat>, t2: Tables,
               free2: seq<nat>, r: nat, v: nat, m: nat)
    requires Tree(t0, p0) && IsRoot(p0, r) && IsRoot(p1, r) && v < MAXVPN && AtMiddle(t0, free0, t1, free1, r, v, m)
    requires m in p1 && p1[m] == Place(r, 1, v / 262144) && (forall f :: f in p0 ==> f in p1 && p1[f] == p0[f])
    requires StepsBut(t1, t2, m, v / 512 % 512)
    requires Step(t1, m, v / 512 % 512) != 0 ==>
               Step(t2, m, v / 512 % 512) == Step(t1, m, v / 512 % 512) && free2 == free1
    requires Step(t1, m, v / 512 % 512) == 0 && Step(t2, m, v / 512 % 512) != 0 ==> |free2| == |free1| - 1
    requires Step(t2, m, v / 512 % 512) == 0 ==> free2 == [] == free1
    ensures Step(t2, m, v / 512 % 512) == 0 <==> |free0| < Missing(t0, r, v)
    ensures Step(t2, m, v / 512 % 512) != 0 ==>
              LastTable(t2, r, v) == Step(t2, m, v / 512 % 512) && Built(t0, t2, r, v)
              && |free2| == |free0| - Missing(t0, r, v)
  {
    hide DownOk, UpOk, LeavesOk, Frame, V, Step;
    var i2, i1 := v / 262144, v / 512 % 512;
    NoStep(t0, i1);
    NewEmpty(t0, m);
    assert r != m;
    assert Step(t1, m, i1) == Step(t0, m, i1);
    if Step(t2, m, i1) != 0 {
      forall y: nat | y < MAXVPN
        ensures Step(t2, r, y / 262144) != 0 <==> Step(t0, r, y / 262144) != 0 || y / 262144 == i2
        ensures LastTable(t2, r, y) != 0 <==> LastTable(t0, r, y) != 0 || y / 512 == v / 512
      {
        BuiltAt(t0, p0, t1, t2, r, v, m, y);
      }
    }
  }

  lemma MiddleFound(t0: Tables, free0: seq<nat>, t1: Tables, free1: seq<nat>, r: nat, v: nat, m: nat)
    requires StepsBut(t0, t1, r, v / 262144) && m == Step(t1, r, v / 262144) != 0
    requires Step(t0, r, v / 262144) != 0 ==> m == Step(t0, r, v / 262144) && free1 == free0
    requires Step(t0, r, v / 262144) == 0 ==> m !in t0 && |free1| == |free0| - 1
    ensures AtMiddle(t0, free0, t1, free1, r, v, m)
  {
  }

  lemma MissingOne(tables: Tables, place: Places, r: nat, v: nat)
    requires Tree(tables, place)
    ensures Step(tables, r, v / 262144) == 0 ==> Missing(tables, r, v) > 0
  {
  }

  lemma OnlyKeeps(p0: Places, p1: Places, r: nat)
    requires OnlyOf(p0, p1, r)
    ensures forall f :: f in p0 ==> f in p1 && p1[f] == p0[f]
  {
  }

  lemma NewEmpty(tables: Tables, m: nat)
    ensures m !in tables ==> forall j: nat :: Step(tables, m, j) == 0
  {
  }

  lemma BuiltAt(t0: Tables, p0: Places, t1: Tables, t2: Tables, r: nat, v: nat, m: nat, y: nat)
    requires Tree(t0, p0) && IsRoot(p0, r) && v < MAXVPN && y < MAXVPN && r != m && m != 0
    requires StepsBut(t0, t1, r, v / 262144) && StepsBut(t1, t2, m, v / 512 % 512)
    requires m == Step(t1, r, v / 262144) && Step(t2, m, v / 512 % 512) != 0
    requires if Step(t0, r, v / 262144) == 0 then m !in t0 else m == Step(t0, r, v / 262144)
    ensures Step(t2, r, y / 262144) != 0 <==> Step(t0, r, y / 262144) != 0 || y / 262144 == v / 262144
    ensures LastTable(t2, r, y) != 0 <==> LastTable(t0, r, y) != 0 || y / 512 == v / 512
  {
    hide DownOk, UpOk, LeavesOk, Frame, V, Step;
    Digits(v);
    Digits(y);
    LastTablePlace(t0, p0, r, v);
    LastTablePlace(t0, p0, r, y);
    NewEmpty(t0, m);
    var a, b := y / 262144, y / 512 % 512;
    NoStep(t0, b);
    assert Step(t2, r, a) == Step(t1, r, a);
    if a == v / 262144 {
      assert b != v / 512 % 512 ==> Step(t2, m, b) == Step(t1, m, b) == Step(t0, m, b);
    } else {
      var x := Step(t0, r, a);
      assert Step(t1, r, a) == x;
      assert x != m;
      assert Step(t2, x, b) == Step(t1, x, b) == Step(t0, x, b);
    }
  }

  /** Storing a leaf fills no upper entry. */
  lemma StoreBuilt(t0: Tables, t1: Tables, place: Places, r: nat, v: nat, t: nat, i: nat, e: nat)
    requires Tree(t1, place) && t in place && place[t].level == 0 && i < 512 && IsRoot(place, r)
    requires Built(t0, t1, r, v)
    ensures t in t1 && Built(t0, Store(t1, t, i, e), r, v)
  {
    hide DownOk, UpOk, LeavesOk, Frame, V, LastTable;
    var n := Store(t1, t, i, e);
    forall y: nat | y < MAXVPN
      ensures Step(n, r, y / 262144) == Step(t1, r, y / 262144) && LastTable(n, r, y) == LastTable(t1, r, y)
    {
      StoreLeafSteps(t1, place, t, i, e, r, y);
    }
  }

  /** The trapframe page lies in the table of the trampoline. */
  lemma SameTables(t0: Tables, t1: Tables, r: nat)
    requires Built(t0, t1, r, TRAMPOLINE)
    ensures Missing(t1, r, TRAPFRAME) == 0
  {
  }

  lemma EmptyMisses(tables: Tables, place: Places, r: nat)
    requires Tree(tables, place) && r in tables && tables[r] == Empty()
    ensures forall v: nat :: v < MAXVPN ==> Missing(tables, r, v) == 2
  {
    hide DownOk, UpOk, LeavesOk;
    ZeroInvalid();
    forall v: nat | v < MAXVPN
      ensures Missing(tables, r, v) == 2
    {
      NoStep(tables, v / 512 % 512);
    }
  }

  /** The tables that page v is the first to need when the pages from s on are mapped in order. */
  ghost function TablesFor(tables: Tables, r: nat, s: nat, v: nat): nat {
    (if Step(tables, r, v / 262144) == 0 && (v == s || v % 262144 == 0) then 1 else 0)
    + (if LastTable(tables, r, v) == 0 && (v == s || v % 512 == 0) then 1 else 0)
  }

  /** The frames it takes to give root r the pages s, s + 1, ..., v - 1: theirs and those of the missing tables. */
  ghost function Need(tables: Tables, r: nat, s: nat, v: nat): nat {
    if v <= s then 0 else Need(tables, r, s, v - 1) + 1 + TablesFor(tables, r, s, v - 1)
  }

  lemma {:induction false} NeedRises(tables: Tables, r: nat, s: nat, a: nat, b: nat)
    requires a <= b
    ensures Need(tables, r, s, a) <= Need(tables, r, s, b)
    decreases b
  {
    if a < b {
      NeedRises(tables, r, s, a, b - 1);
    }
  }

  /** Memory from 0 on takes no more than its pages, one table for every 512 of them and one for every 512 of those. */
  lemma {:induction false} NeedBound(tables: Tables, r: nat, n: nat)
    ensures Need(tables, r, 0, n) <= n + (n + 511) / 512 + (n + 262143) / 262144
  {
    hide Step, LastTable;
    if n > 0 {
      NeedBound(tables, r, n - 1);
      OneMore512(n - 1);
      OneMore262144(n - 1);
    }
  }

  lemma OneMore512(x: nat)
    ensures (x + 512) / 512 == (x + 511) / 512 + if x % 512 == 0 then 1 else 0
  {
  }

  lemma OneMore262144(x: nat)
    ensures (x + 262144) / 262144 == (x + 262143) / 262144 + if x % 262144 == 0 then 1 else 0
  {
  }

  /** The tables of root r are those it had and those for the pages from s up to a. */
  ghost predicate BuiltTo(t0: Tables, t1: Tables, r: nat, s: nat, a: nat) {
    forall y: nat :: y < MAXVPN ==>
      && (Step(t1, r, y / 262144) != 0 <==>
          Step(t0, r, y / 262144) != 0 || (s < a && s / 262144 <= y / 262144 <= (a - 1) / 262144))
      && (LastTable(t1, r, y) != 0 <==> LastTable(t0, r, y) != 0 || (s < a && s / 512 <= y / 512 <= (a - 1) / 512))
  }

  lemma BuiltNone(tables: Tables, r: nat, s: nat)
    ensures BuiltTo(tables, tables, r, s, s) && Need(tables, r, s, s) == 0
  {
  }

  lemma BuiltMore(t0: Tables, t1: Tables, t2: Tables, r: nat, s: nat, a: nat)
    requires BuiltTo(t0, t1, r, s, a) && Built(t1, t2, r, a) && s <= a < MAXVPN
    ensures BuiltTo(t0, t2, r, s, a + 1)
  {
    hide Step, LastTable;
    forall y: nat | y < MAXVPN
      ensures Step(t2, r, y / 262144) != 0 <==>
              Step(t0, r, y / 262144) != 0 || s / 262144 <= y / 262144 <= a / 262144
      ensures LastTable(t2, r, y) != 0 <==> LastTable(t0, r, y) != 0 || s / 512 <= y / 512 <= a / 512
    {
      Between(s, a, y, 262144);
      Between(s, a, y, 512);
    }
  }

  lemma Between(s: nat, a: nat, y: nat, d: nat)
    requires s <= a && (d == 512 || d == 262144)
    ensures s / d <= y / d <= a / d <==> (s < a && s / d <= y / d <= (a - 1) / d) || y / d == a / d
  {
  }

  /** What page a finds missing is what it is the first to need. */
  lemma MissingNow(t0: Tables, t1: Tables, r: nat, s: nat, a: nat)
    requires BuiltTo(t0, t1, r, s, a) && s <= a < MAXVPN
    ensures Missing(t1, r, a) == TablesFor(t0, r, s, a)
    ensures Need(t0, r, s, a + 1) == Need(t0, r, s, a) + 1 + Missing(t1, r, a)
  {
    hide Step, LastTable;
  }

  // ----- Changing leaves -----

  /** Pages v, v + 1, ... of root r have the entries es; every other leaf of every old tree is the same.
      Tables may be added, roots not. */
  ghost predicate Changed(t0: Tables, p0: Places, t1: Tables, p1: Places, r: nat, v: nat, es: seq<nat>) {
    && (forall f :: f in p0 ==> f in p1 && p1[f] == p0[f])
    && (forall f :: f in p1 && f !in p0 ==> p1[f].level < 2)
    && (forall r': nat, v': nat :: IsRoot(p0, r') && v' < MAXVPN ==>
          Leaf(t1, r', v') == if r' == r && v <= v' < v + |es| then es[v' - v] else Leaf(t0, r', v'))
  }

  lemma ChangedRoot(t0: Tables, p0: Places, t1: Tables, p1: Places, r: nat, v: nat, es: seq<nat>, r': nat)
    requires Changed(t0, p0, t1, p1, r, v, es)
    ensures IsRoot(p0, r') <==> IsRoot(p1, r')
  {
  }

  /** One more page after the ones already changed. */
  lemma ChangedMore(t0: Tables, p0: Places, t1: Tables, p1: Places, t2: Tables, p2: Places, r: nat, v: nat,
                    es: seq<nat>, e: nat)
    requires Changed(t0, p0, t1, p1, r, v, es) && Changed(t1, p1, t2, p2, r, v + |es|, [e])
    ensures Changed(t0, p0, t2, p2, r, v, es + [e])
  {
    hide Leaf;
    forall r': nat, v': nat | IsRoot(p0, r') && v' < MAXVPN
      ensures Leaf(t2, r', v') == if r' == r && v <= v' < v + |es| + 1 then (es + [e])[v' - v] else Leaf(t0, r', v')
    {
      assert IsRoot(p1, r');
      assert Leaf(t1, r', v') == if r' == r && v <= v' < v + |es| then es[v' - v] else Leaf(t0, r', v');
    }
  }

  lemma LeavesThen(t0: Tables, p0: Places, t1: Tables, p1: Places, t2: Tables, p2: Places, r: nat, v: nat, es: seq<nat>)
    requires Leaves(t0, p0, t1, p1) && Changed(t1, p1, t2, p2, r, v, es)
    ensures Changed(t0, p0, t2, p2, r, v, es)
  {
    hide Leaf;
    forall r': nat, v': nat | IsRoot(p0, r') && v' < MAXVPN
      ensures IsRoot(p1, r') && Leaf(t1, r', v') == Leaf(t0, r', v')
    {
    }
  }

  lemma ThenLeaves(t0: Tables, p0: Places, t1: Tables, p1: Places, t2: Tables, p2: Places, r: nat, v: nat, es: seq<nat>)
    requires Changed(t0, p0, t1, p1, r, v, es) && Leaves(t1, p1, t2, p2)
    ensures Changed(t0, p0, t2, p2, r, v, es)
  {
    hide Leaf;
    forall r': nat, v': nat | IsRoot(p0, r') && v' < MAXVPN
      ensures IsRoot(p1, r') && Leaf(t2, r', v') == Leaf(t1, r', v')
    {
    }
  }

  /** A store into the last table found by walk. */
  lemma StoreChanges(tables: Tables, place: Places, r: nat, v: nat, e: nat)
    requires Tree(tables, place) && IsRoot(place, r) && v < MAXVPN && LastTable(tables, r, v) != 0 && EntryOk(e)
    ensures LastTable(tables, r, v) in tables
    ensures var n := Store(tables, LastTable(tables, r, v), v % 512, e);
      Tree(n, place) && Changed(tables, place, n, place, r, v, [e])
  {
    hide DownOk, UpOk, LeavesOk, Leaf, LastTable, V, Rd;
    var t := LastTable(tables, r, v);
    LastTablePlace(tables, place, r, v);
    StoreLeafTree(tables, place, {}, t, v % 512, e);
    forall r': nat, v': nat | IsRoot(place, r') && v' < MAXVPN
      ensures Leaf(Store(tables, t, v % 512, e), r', v') ==
              if r' == r && v <= v' < v + 1 then e else Leaf(tables, r', v')
    {
      StoreLeaf(tables, place, r, v, e, r', v');
    }
  }

  /** A page gets mapped. */
  lemma UserPut(t0: Tables, p0: Places, t1: Tables, p1: Places, user: Users, r: nat, v: nat, e: nat)
    requires UserOk(t0, p0, user) && Changed(t0, p0, t1, p1, r, v, [e]) && IsRoot(p0, r) && v < MAXVPN
    requires !V(Leaf(t0, r, v))
    requires V(e) && (v < TRAPFRAME ==> Frame(e) !in user) && (v >= TRAPFRAME ==> !U(e))
    ensures UserOk(t1, p1, if v < TRAPFRAME then user[Frame(e) := (r, v)] else user)
  {
    hide Leaf, Frame, V, U;
    var n := if v < TRAPFRAME then user[Frame(e) := (r, v)] else user;
    forall f | f in n
      ensures IsRoot(p1, n[f].0) && n[f].1 < TRAPFRAME && V(Leaf(t1, n[f].0, n[f].1))
      ensures Frame(Leaf(t1, n[f].0, n[f].1)) == f
    {
      assert Leaf(t1, n[f].0, n[f].1) == if n[f] == (r, v) then e else Leaf(t0, n[f].0, n[f].1);
    }
    forall r': nat, v': nat | IsRoot(p1, r') && v' < MAXVPN && V(Leaf(t1, r', v')) && (v' < TRAPFRAME || U(Leaf(t1, r', v')))
      ensures Frame(Leaf(t1, r', v')) in n && n[Frame(Leaf(t1, r', v'))] == (r', v')
    {
      assert IsRoot(p0, r');
      assert Leaf(t1, r', v') == if r' == r && v' == v then e else Leaf(t0, r', v');
    }
  }

  /** A page gets unmapped. */
  lemma UserDrop(t0: Tables, p0: Places, t1: Tables, p1: Places, user: Users, r: nat, v: nat)
    requires UserOk(t0, p0, user) && Changed(t0, p0, t1, p1, r, v, [0]) && IsRoot(p0, r) && v < MAXVPN
    requires V(Leaf(t0, r, v))
    ensures v < TRAPFRAME ==> Frame(Leaf(t0, r, v)) in user
    ensures UserOk(t1, p1, if v < TRAPFRAME then user - {Frame(Leaf(t0, r, v))} else user)
  {
    hide Leaf, Frame, V, U;
    ZeroInvalid();
    var g := Frame(Leaf(t0, r, v));
    var n := if v < TRAPFRAME then user - {g} else user;
    forall f | f in n
      ensures IsRoot(p1, n[f].0) && n[f].1 < TRAPFRAME && V(Leaf(t1, n[f].0, n[f].1))
      ensures Frame(Leaf(t1, n[f].0, n[f].1)) == f
    {
      assert Leaf(t1, n[f].0, n[f].1) == if n[f] == (r, v) then 0 else Leaf(t0, n[f].0, n[f].1);
    }
    forall r': nat, v': nat | IsRoot(p1, r') && v' < MAXVPN && V(Leaf(t1, r', v')) && (v' < TRAPFRAME || U(Leaf(t1, r', v')))
      ensures Frame(Leaf(t1, r', v')) in n && n[Frame(Leaf(t1, r', v'))] == (r', v')
    {
      assert IsRoot(p0, r');
      assert Leaf(t1, r', v') == if r' == r && v' == v then 0 else Leaf(t0, r', v');
    }
  }

  datatype MapResult = Done | NoMemory | Remap

  /** What mappages' callers pass: flags that make a readable leaf, not for the user from TRAPFRAME up. */
  predicate PermOk(v: nat, perm: nat) { perm < 1024 && Rd(OrV(perm)) && (v >= TRAPFRAME ==> !U(OrV(perm))) }

  lemma OrVParts(perm: nat)
    requires perm < 1024
    ensures OrV(perm) < 1024 && V(OrV(perm))
  {
  }

  /** The store of mappages into an empty entry. */
  lemma MapStep(lo: nat, free: seq<nat>, tables: Tables, place: Places, user: Users, held: set<nat>, r: nat, v: nat,
                frame: nat, perm: nat)
    requires Conserved(lo, free, place, user, held) && Tree(tables, place) && UserOk(tables, place, user)
    requires IsRoot(place, r) && v < MAXVPN && LastTable(tables, r, v) != 0 && !V(Leaf(tables, r, v))
    requires PermOk(v, perm) && (v < TRAPFRAME ==> frame in held)
    ensures LastTable(tables, r, v) in tables
    ensures var e := Pte(frame, OrV(perm)); var n := Store(tables, LastTable(tables, r, v), v % 512, e);
      && Tree(n, place) && Changed(tables, place, n, place, r, v, [e])
      && (if v < TRAPFRAME then frame !in user && Conserved(lo, free, place, user[frame := (r, v)], held - {frame}) && UserOk(n, place, user[frame := (r, v)])
          else Conserved(lo, free, place, user, held) && UserOk(n, place, user))
  {
    hide Tree, UserOk, Leaf, LastTable, V, Rd, U, Frame, Pte, OrV, Conserved, Changed, Store;
    OrVParts(perm);
    PteParts(frame, OrV(perm));
    var e := Pte(frame, OrV(perm));
    StoreChanges(tables, place, r, v, e);
    if v < TRAPFRAME {
      InHand(lo, free, place, user, held, frame);
      HeldToUser(lo, free, place, user, held, frame, (r, v));
    }
    UserPut(tables, place, Store(tables, LastTable(tables, r, v), v % 512, e), place, user, r, v, e);
  }

  lemma GrownLeaves(t0: Tables, p0: Places, d0: map<nat, Page>, t1: Tables, p1: Places, d1: map<nat, Page>,
                    pages: set<nat>, r: nat, v: nat)
    requires Grown(t0, p0, d0, t1, p1, d1, pages) && IsRoot(p0, r) && v < MAXVPN
    ensures Leaves(t0, p0, t1, p1) && DataKept(d0, d1, pages) && IsRoot(p1, r) && Leaf(t1, r, v) == Leaf(t0, r, v)
  {
  }

  // ----- Runs of pages -----

  ghost function Entries(frame: nat, perm: nat, k: nat): (es: seq<nat>)
    ensures |es| == k && forall i :: 0 <= i < k ==> es[i] == Pte(frame + i, OrV(perm))
  {
    if k == 0 then [] else Entries(frame, perm, k - 1) + [Pte(frame + k - 1, OrV(perm))]
  }

  ghost function Zeros(k: nat): (es: seq<nat>)
    ensures |es| == k && forall i :: 0 <= i < k ==> es[i] == 0
  {
    if k == 0 then [] else Zeros(k - 1) + [0]
  }

  /** The frames frame, frame + 1, ... become pages v, v + 1, ... of r. */
  ghost predicate UsersAdded(user: Users, user': Users, r: nat, v: nat, frame: nat, k: nat) {
    forall f: nat ::
      && (f in user' <==> f in user || frame <= f < frame + k)
      && (f in user' ==> user'[f] == if frame <= f < frame + k then (r, v + (f - frame)) else user[f])
  }

  ghost predicate HeldLess(held: set<nat>, held': set<nat>, frame: nat, k: nat) {
    forall f: nat :: f in held' <==> f in held && !(frame <= f < frame + k)
  }

  lemma NoUserMore(user: Users, held: set<nat>, r: nat, v: nat, frame: nat)
    ensures UsersAdded(user, user, r, v, frame, 0) && HeldLess(held, held, frame, 0)
  {
  }

  lemma OneUserMore(u0: Users, u1: Users, h0: set<nat>, h1: set<nat>, r: nat, v: nat, frame: nat, k: nat)
    requires UsersAdded(u0, u1, r, v, frame, k) && HeldLess(h0, h1, frame, k)
    ensures UsersAdded(u0, u1[frame + k := (r, v + k)], r, v, frame, k + 1)
    ensures HeldLess(h0, h1 - {frame + k}, frame, k + 1)
  {
  }

  lemma NoneDropped(u0: Users, u1: Users, h0: set<nat>, h1: set<nat>, r: nat, v: nat, frame: nat, k: nat)
    requires UsersAdded(u0, u1, r, v, frame, k) && HeldLess(h0, h1, frame, k)
    ensures u0.Keys + h0 <= u1.Keys + h1
  {
  }

  /** The user pages v, v + 1, ... of r are gone. */
  ghost predicate UsersGone(user: Users, user': Users, r: nat, v: nat, k: nat) {
    forall f: nat ::
      && (f in user' <==> f in user && !(user[f].0 == r && v <= user[f].1 < v + k))
      && (f in user' ==> user'[f] == user[f])
  }

  ghost predicate AllMapped(tables: Tables, r: nat, v: nat, n: nat) {
    forall x: nat :: v <= x < v + n ==> V(Leaf(tables, r, x))
  }

  lemma EntriesMore(frame: nat, perm: nat, k: nat)
    ensures Entries(frame, perm, k) + [Pte(frame + k, OrV(perm))] == Entries(frame, perm, k + 1)
  {
  }

  lemma ZerosMore(k: nat)
    ensures Zeros(k) + [0] == Zeros(k + 1)
  {
  }

  lemma NoneChanged(tables: Tables, place: Places, r: nat, v: nat, data: map<nat, Page>, pages: set<nat>)
    ensures Changed(tables, place, tables, place, r, v, []) && DataKept(data, data, pages)
    ensures forall frame: nat, perm: nat :: Changed(tables, place, tables, place, r, v, Entries(frame, perm, 0))
    ensures Changed(tables, place, tables, place, r, v, Zeros(0))
  {
  }

  lemma PermAt(v: nat, w: nat, perm: nat)
    requires PermOk(v, perm) && v <= w && (v < TRAPFRAME ==> w < TRAPFRAME)
    ensures PermOk(w, perm)
  {
  }

  lemma KeptAgain(d0: map<nat, Page>, d1: map<nat, Page>, d2: map<nat, Page>, pages: set<nat>, pages1: set<nat>)
    requires DataKept(d0, d1, pages) && DataKept(d1, d2, pages1) && pages <= pages1
    ensures DataKept(d0, d2, pages)
  {
  }

  lemma LeafBefore(t0: Tables, p0: Places, t1: Tables, p1: Places, r: nat, v: nat, es: seq<nat>, w: nat)
    requires Changed(t0, p0, t1, p1, r, v, es) && IsRoot(p0, r) && w < MAXVPN && !(v <= w < v + |es|)
    ensures Leaf(t1, r, w) == Leaf(t0, r, w)
  {
  }

  /** The store of uvmunmap. */
  lemma UnmapStep(lo: nat, free: seq<nat>, tables: Tables, place: Places, user: Users, held: set<nat>, r: nat, v: nat)
    requires Conserved(lo, free, place, user, held) && Tree(tables, place) && UserOk(tables, place, user)
    requires IsRoot(place, r) && v < MAXVPN && V(Leaf(tables, r, v))
    ensures LastTable(tables, r, v) in tables && LastTable(tables, r, v) != 0
    ensures var f := Frame(Leaf(tables, r, v)); var n := Store(tables, LastTable(tables, r, v), v % 512, 0);
      && Tree(n, place) && Changed(tables, place, n, place, r, v, [0])
      && (if v < TRAPFRAME then f in user && user[f] == (r, v) && f !in held && lo <= f < PHYSTOP && Conserved(lo, free, place, user - {f}, held + {f}) && UserOk(n, place, user - {f})
          else UserOk(n, place, user))
  {
    hide DownOk, UpOk, LeavesOk, UserOk, LastTable, V, Rd, U, Frame, Conserved, Changed, Store;
    ZeroInvalid();
    StoreChanges(tables, place, r, v, 0);
    UserDrop(tables, place, Store(tables, LastTable(tables, r, v), v % 512, 0), place, user, r, v);
    if v < TRAPFRAME {
      UserAt(tables, place, user, r, v);
      UserFrame(lo, free, place, user, held, Frame(Leaf(tables, r, v)));
      UserToHeld(lo, free, place, user, held, Frame(Leaf(tables, r, v)));
    }
  }

  lemma UserAt(tables: Tables, place: Places, user: Users, r: nat, v: nat)
    requires UserOk(tables, place, user) && IsRoot(place, r) && v < TRAPFRAME && V(Leaf(tables, r, v))
    ensures Frame(Leaf(tables, r, v)) in user && user[Frame(Leaf(tables, r, v))] == (r, v)
  {
  }

  lemma UserFrame(lo: nat, free: seq<nat>, place: Places, user: Users, held: set<nat>, f: nat)
    requires Conserved(lo, free, place, user, held) && f in user
    ensures KERNBASE <= lo <= f < PHYSTOP && f !in held && f !in place
  {
  }

  lemma GoneMore(user: Users, u1: Users, r: nat, v: nat, k: nat, f: nat)
    requires UsersGone(user, u1, r, v, k) && f in u1 && u1[f] == (r, v + k) && UsersDistinct(user)
    ensures UsersGone(user, u1 - {f}, r, v, k + 1)
  {
  }

  /** One frame for each page. */
  ghost predicate UsersDistinct(user: Users) { forall f, g :: f in user && g in user && user[f] == user[g] ==> f == g }

  lemma DistinctUsers(tables: Tables, place: Places, user: Users)
    requires UserOk(tables, place, user)
    ensures UsersDistinct(user)
  {
  }

  lemma LeafFrom(tables: Tables, r: nat, v: nat)
    ensures var t := LastTable(tables, r, v); t in tables ==> Leaf(tables, r, v) == tables[t][v % 512]
  {
  }

  lemma KeptRefl(data: map<nat, Page>, pages: set<nat>)
    ensures DataKept(data, data, pages)
  {
  }

  lemma NoneGone(user: Users, r: nat, v: nat)
    ensures UsersGone(user, user, r, v, 0)
  {
  }

  lemma KeptLess(d0: map<nat, Page>, d1: map<nat, Page>, d2: map<nat, Page>, pages: set<nat>, pages1: set<nat>)
    requires DataKept(d0, d1, pages) && DataKept(d1, d2, pages1) && pages1 <= pages
    ensures DataKept(d0, d2, pages1)
  {
  }

  // ----- User memory as flat bytes -----

  predicate CanRead(tables: Tables, r: nat, va: nat) {
    va / PGSIZE < MAXVPN && V(Leaf(tables, r, va / PGSIZE)) && U(Leaf(tables, r, va / PGSIZE))
  }

  predicate CanWrite(tables: Tables, r: nat, va: nat) { CanRead(tables, r, va) && Wr(Leaf(tables, r, va / PGSIZE)) }

  function UserByte(tables: Tables, data: map<nat, Page>, r: nat, va: nat): Byte {
    var f := Frame(Leaf(tables, r, va / PGSIZE));
    if f in data then data[f][va % PGSIZE] else 0
  }

  function UserBytes(tables: Tables, data: map<nat, Page>, r: nat, va: nat, n: nat): (s: seq<Byte>)
    ensures |s| == n && forall i :: 0 <= i < n ==> s[i] == UserByte(tables, data, r, va + i)
  {
    if n == 0 then [] else UserBytes(tables, data, r, va, n - 1) + [UserByte(tables, data, r, va + n - 1)]
  }

  lemma SamePage(va: nat, x: nat)
    requires va <= x && va % PGSIZE + (x - va) < PGSIZE
    ensures x / PGSIZE == va / PGSIZE && x % PGSIZE == va % PGSIZE + (x - va)
  {
  }

  /** Bytes within one page are a slice of the frame. */
  lemma PageSlice(tables: Tables, data: map<nat, Page>, r: nat, va: nat, n: nat)
    requires va % PGSIZE + n <= PGSIZE && Frame(Leaf(tables, r, va / PGSIZE)) in data
    ensures var f := Frame(Leaf(tables, r, va / PGSIZE)); UserBytes(tables, data, r, va, n) == data[f][va % PGSIZE..va % PGSIZE + n]
  {
    var f, k := Frame(Leaf(tables, r, va / PGSIZE)), va % PGSIZE;
    var s, g := UserBytes(tables, data, r, va, n), data[f][k..k + n];
    forall i | 0 <= i < n ensures s[i] == g[i] {
      SamePage(va, va + i);
    }
  }

  lemma {:induction false} BytesConcat(tables: Tables, data: map<nat, Page>, r: nat, va: nat, m: nat, n: nat)
    ensures UserBytes(tables, data, r, va, m) + UserBytes(tables, data, r, va + m, n) == UserBytes(tables, data, r, va, m + n)
    decreases n
  {
  }

  ghost predicate AllReadable(tables: Tables, r: nat, va: nat, n: nat) {
    forall x: nat :: va <= x < va + n ==> CanRead(tables, r, x)
  }

  ghost predicate AllWritable(tables: Tables, r: nat, va: nat, n: nat) {
    forall x: nat :: va <= x < va + n ==> CanWrite(tables, r, x)
  }

  lemma ReadableMore(tables: Tables, r: nat, va: nat, m: nat, n: nat)
    requires AllReadable(tables, r, va, m) && (va + m) % PGSIZE + n <= PGSIZE && CanRead(tables, r, va + m)
    ensures AllReadable(tables, r, va, m + n)
  {
  }

  lemma WritableMore(tables: Tables, r: nat, va: nat, m: nat, n: nat)
    requires AllWritable(tables, r, va, m) && (va + m) % PGSIZE + n <= PGSIZE && CanWrite(tables, r, va + m)
    ensures AllWritable(tables, r, va, m + n)
  {
  }

  function Behind(p: Byte, rest: Option<seq<Byte>>): Option<seq<Byte>> {
    match rest
    case None => None
    case Some(s) => Some([p] + s)
  }

  /** The string at va, without its NUL, if it ends within max bytes. */
  function UserString(tables: Tables, data: map<nat, Page>, r: nat, va: nat, max: nat): Option<seq<Byte>>
    decreases max
  {
    if max == 0 || !CanRead(tables, r, va) then None
    else if UserByte(tables, data, r, va) == 0 then Some([])
    else Behind(UserByte(tables, data, r, va), UserString(tables, data, r, va + 1, max - 1))
  }

  /** Every readable byte of every address space is the same, except src at dstva in r. */
  ghost predicate Poked(tables: Tables, place: Places, data: map<nat, Page>, data': map<nat, Page>, r: nat, va: nat,
                        src: seq<Byte>) {
    forall r': nat, x: nat :: IsRoot(place, r') && CanRead(tables, r', x) ==>
      UserByte(tables, data', r', x) ==
          if r' == r && va <= x < va + |src| then src[x - va] else UserByte(tables, data, r', x)
  }

  /** The frame of a readable page has no other use. */
  lemma ReadableFrame(tables: Tables, place: Places, user: Users, r: nat, va: nat)
    requires UserOk(tables, place, user) && IsRoot(place, r) && CanRead(tables, r, va)
    ensures var f := Frame(Leaf(tables, r, va / PGSIZE)); f in user && user[f] == (r, va / PGSIZE)
  {
  }

  function Patch(p: Page, k: nat, piece: seq<Byte>): (q: Page)
    requires k + |piece| <= PGSIZE
    ensures forall y :: 0 <= y < PGSIZE ==> q[y] == if k <= y < k + |piece| then piece[y - k] else p[y]
  {
    p[..k] + piece + p[k + |piece|..]
  }

  lemma PokePage(tables: Tables, place: Places, user: Users, data: map<nat, Page>, r: nat, va: nat, piece: seq<Byte>)
    requires UserOk(tables, place, user) && IsRoot(place, r) && CanRead(tables, r, va)
    requires va % PGSIZE + |piece| <= PGSIZE
    requires forall f :: f in user ==> f in data
    ensures var f := Frame(Leaf(tables, r, va / PGSIZE));
      f in data && Poked(tables, place, data, data[f := Patch(data[f], va % PGSIZE, piece)], r, va, piece)
  {
    hide Leaf, Frame, V, U;
    ReadableFrame(tables, place, user, r, va);
    var f := Frame(Leaf(tables, r, va / PGSIZE));
    var d := data[f := Patch(data[f], va % PGSIZE, piece)];
    forall r': nat, x: nat | IsRoot(place, r') && CanRead(tables, r', x)
      ensures UserByte(tables, d, r', x) ==
              if r' == r && va <= x < va + |piece| then piece[x - va] else UserByte(tables, data, r', x)
    {
      ReadableFrame(tables, place, user, r', x);
      InPage(va, |piece|, x);
    }
  }

  lemma InPage(va: nat, m: nat, x: nat)
    requires va % PGSIZE + m <= PGSIZE
    ensures va <= x < va + m <==> x / PGSIZE == va / PGSIZE && va % PGSIZE <= x % PGSIZE < va % PGSIZE + m
    ensures va <= x < va + m ==> x % PGSIZE - va % PGSIZE == x - va
  {
  }

  lemma PokedMore(tables: Tables, place: Places, d0: map<nat, Page>, d1: map<nat, Page>, d2: map<nat, Page>, r: nat,
                  va: nat, src: seq<Byte>, m: nat, n: nat)
    requires m + n <= |src| && Poked(tables, place, d0, d1, r, va, src[..m])
    requires Poked(tables, place, d1, d2, r, va + m, src[m..m + n])
    ensures Poked(tables, place, d0, d2, r, va, src[..m + n])
  {
    hide UserByte, CanRead;
    var a, b, c := src[..m], src[m..m + n], src[..m + n];
    forall r': nat, x: nat | IsRoot(place, r') && CanRead(tables, r', x)
      ensures UserByte(tables, d2, r', x) ==
              if r' == r && va <= x < va + |c| then c[x - va] else UserByte(tables, d0, r', x)
    {
      assert UserByte(tables, d1, r', x) ==
             if r' == r && va <= x < va + m then a[x - va] else UserByte(tables, d0, r', x);
      assert UserByte(tables, d2, r', x) ==
             if r' == r && va + m <= x < va + m + n then b[x - va - m] else UserByte(tables, d1, r', x);
    }
  }

  ghost predicate StringFrom(whole: Option<seq<Byte>>, dst: seq<Byte>, rest: Option<seq<Byte>>) {
    whole == match rest { case None => None case Some(s) => Some(dst + s) }
  }

  lemma StringStart(whole: Option<seq<Byte>>)
    ensures StringFrom(whole, [], whole)
  {
    if whole.Some? {
      assert [] + whole.value == whole.value;
    }
  }

  lemma StringMore(whole: Option<seq<Byte>>, dst: seq<Byte>, p: Byte, rest: Option<seq<Byte>>)
    ensures StringFrom(whole, dst, Behind(p, rest)) <==> StringFrom(whole, dst + [p], rest)
  {
    if rest.Some? {
      assert dst + ([p] + rest.value) == dst + [p] + rest.value;
    }
  }

  lemma ClearZero()
    ensures ClearU(0) == 0
  {
  }

  lemma PokedNone(tables: Tables, place: Places, data: map<nat, Page>, r: nat, va: nat, src: seq<Byte>)
    ensures Poked(tables, place, data, data, r, va, src[..0])
  {
  }

  lemma NoTable(tables: Tables, place: Places, r: nat, v: nat)
    requires PlacesOk(tables, place) && LastTable(tables, r, v) == 0
    ensures !V(Leaf(tables, r, v))
  {
  }

  /** Changing flags of a leaf other than V keeps user pages in order. */
  lemma UserSame(tables: Tables, place: Places, tables': Tables, user: Users, r: nat, v: nat, e: nat)
    requires UserOk(tables, place, user) && Changed(tables, place, tables', place, r, v, [e]) && IsRoot(place, r)
    requires v < TRAPFRAME
    requires V(e) == V(Leaf(tables, r, v)) && Frame(e) == Frame(Leaf(tables, r, v))
    ensures UserOk(tables', place, user)
  {
    hide Leaf, Frame, V, U;
    forall r': nat, v': nat | IsRoot(place, r') && v' < MAXVPN
      ensures Leaf(tables', r', v') == if r' == r && v' == v then e else Leaf(tables, r', v')
    {
    }
  }

  // ----- Growing and shrinking -----

  /** PGROUNDUP(sz) / PGSIZE */
  function Pages(sz: nat): nat { (sz + PGSIZE - 1) / PGSIZE }

  /** User memory is exactly the pages below n. */
  ghost predicate Contiguous(tables: Tables, r: nat, n: nat) {
    forall v: nat :: v < TRAPFRAME ==> (V(Leaf(tables, r, v)) <==> v < n)
  }

  ghost function FramesOf(tables: Tables, r: nat, n: nat): set<nat> {
    if n == 0 then {} else FramesOf(tables, r, n - 1) + {Frame(Leaf(tables, r, n - 1))}
  }

  /** n mapped pages are in n different frames. */
  lemma {:induction false} FramesDiffer(lo: nat, free: seq<nat>, tables: Tables, place: Places, user: Users,
                                        held: set<nat>, r: nat, n: nat)
    requires Conserved(lo, free, place, user, held) && UserOk(tables, place, user) && IsRoot(place, r) && n <= TRAPFRAME
    requires AllMapped(tables, r, 0, n)
    ensures |FramesOf(tables, r, n)| == n
    ensures forall f :: f in FramesOf(tables, r, n) ==>
            f in user && user[f].0 == r && user[f].1 < n && KERNBASE <= f < PHYSTOP
    decreases n
  {
    hide UserOk, Leaf, V, Frame, Conserved;
    if n > 0 {
      FramesDiffer(lo, free, tables, place, user, held, r, n - 1);
      UserAt(tables, place, user, r, n - 1);
      UserFrame(lo, free, place, user, held, Frame(Leaf(tables, r, n - 1)));
    }
  }

  /** No address space holds more pages than there is memory, so none reaches TRAPFRAME. */
  lemma MemoryBound(lo: nat, free: seq<nat>, tables: Tables, place: Places, user: Users, held: set<nat>, r: nat, n: nat)
    requires Conserved(lo, free, place, user, held) && UserOk(tables, place, user) && IsRoot(place, r)
    requires Contiguous(tables, r, n)
    ensures n <= PHYSTOP - KERNBASE < TRAPFRAME
  {
    var m := PHYSTOP - KERNBASE + 1;
    if n >= m {
      FramesDiffer(lo, free, tables, place, user, held, r, m);
      SubsetSize(FramesOf(tables, r, m), Range(KERNBASE, m - 1));
      assert false;
    }
  }

  /** Entries for fresh zeroed user pages. */
  ghost predicate ZeroPages(es: seq<nat>, data: map<nat, Page>, user: Users, flags: nat) {
    forall i :: 0 <= i < |es| ==> es[i] == Pte(Frame(es[i]), flags) && Frame(es[i]) in user && Frame(es[i]) in data && data[Frame(es[i])] == Fill(0)
  }

  /** One more zeroed page after those already added. */
  lemma ZeroPagesMore(es: seq<nat>, data: map<nat, Page>, user: Users, data': map<nat, Page>, user': Users, flags: nat,
                      f: nat)
    requires ZeroPages(es, data, user, flags) && DataKept(data, data', user.Keys) && flags < 1024
    requires (forall g :: g in user ==> g in user') && f in user' && f in data' && data'[f] == Fill(0)
    ensures ZeroPages(es + [Pte(f, flags)], data', user', flags)
  {
  }

  /** Mapping the next page extends a contiguous space. */
  lemma ContiguousMore(t0: Tables, p0: Places, t1: Tables, p1: Places, r: nat, n: nat, e: nat)
    requires Contiguous(t0, r, n) && Changed(t0, p0, t1, p1, r, n, [e]) && V(e) && IsRoot(p0, r) && n < TRAPFRAME
    ensures Contiguous(t1, r, n + 1)
  {
    hide Leaf, V;
    forall v: nat | v < TRAPFRAME ensures Leaf(t1, r, v) == if v == n then e else Leaf(t0, r, v) {
    }
  }

  lemma ContiguousSame(t0: Tables, p0: Places, t1: Tables, p1: Places, r: nat, n: nat)
    requires Contiguous(t0, r, n) && Leaves(t0, p0, t1, p1) && IsRoot(p0, r)
    ensures Contiguous(t1, r, n)
  {
    hide V;
    forall v: nat | v < TRAPFRAME ensures Leaf(t1, r, v) == Leaf(t0, r, v) {
    }
  }

  /** Unmapping the top pages shrinks a contiguous space. */
  lemma ContiguousLess(t0: Tables, p0: Places, t1: Tables, p1: Places, r: nat, m: nat, n: nat)
    requires Contiguous(t0, r, n) && m <= n <= TRAPFRAME && Changed(t0, p0, t1, p1, r, m, Zeros(n - m)) && IsRoot(p0, r)
    ensures Contiguous(t1, r, m)
  {
    hide Leaf, V;
    ZeroInvalid();
    forall v: nat | v < TRAPFRAME ensures Leaf(t1, r, v) == if m <= v < n then 0 else Leaf(t0, r, v) {
    }
  }

  /** Adding pages where none were and taking them away again restores every leaf. */
  lemma Undone(t0: Tables, p0: Places, t1: Tables, p1: Places, t2: Tables, p2: Places, r: nat, v: nat, es: seq<nat>)
    requires Changed(t0, p0, t1, p1, r, v, es) && Changed(t1, p1, t2, p2, r, v, Zeros(|es|))
    requires forall x: nat :: v <= x < v + |es| ==> Leaf(t0, r, x) == 0
    ensures Leaves(t0, p0, t2, p2)
  {
    hide Leaf;
    forall r': nat, v': nat | IsRoot(p0, r') && v' < MAXVPN ensures Leaf(t2, r', v') == Leaf(t0, r', v') {
      assert IsRoot(p1, r');
      assert Leaf(t1, r', v') == if r' == r && v <= v' < v + |es| then es[v' - v] else Leaf(t0, r', v');
    }
  }

  /** Entries that are not valid are 0. */
  lemma InvalidIsZero(tables: Tables, place: Places, r: nat, v: nat)
    requires Tree(tables, place) && IsRoot(place, r) && v < MAXVPN && !V(Leaf(tables, r, v))
    ensures Leaf(tables, r, v) == 0
  {
    hide DownOk, UpOk, LeavesOk, V;
    LastTablePlace(tables, place, r, v);
    var t := LastTable(tables, r, v);
    if t in tables {
      LeafAt(tables, place, t, v % 512);
    }
  }

  /** The users that were added are gone again. */
  lemma UsersBack(u0: Users, u1: Users, u2: Users, r: nat, v: nat, n: nat)
    requires (forall f :: f in u0 ==> f in u1 && u1[f] == u0[f] && !(u0[f].0 == r && v <= u0[f].1 < v + n))
    requires (forall f :: f in u1 && f !in u0 ==> u1[f].0 == r && v <= u1[f].1 < v + n) && UsersGone(u1, u2, r, v, n)
    ensures u2 == u0
  {
  }

  lemma PagesRise(a: nat, b: nat)
    ensures a <= b ==> Pages(a) <= Pages(b)
  {
  }

  lemma MappedBelow(tables: Tables, r: nat, m: nat, n: nat)
    requires Contiguous(tables, r, n) && m <= n <= TRAPFRAME
    ensures AllMapped(tables, r, m, n - m)
  {
  }

  /** After n pages were added to r from page v on. */
  ghost predicate Added(t0: Tables, p0: Places, u0: Users, t1: Tables, p1: Places, u1: Users, r: nat, v: nat,
                        es: seq<nat>) {
    && Changed(t0, p0, t1, p1, r, v, es)
    && (forall f :: f in u0 ==> f in u1 && u1[f] == u0[f])
    && (forall f :: f in u1 && f !in u0 ==> u1[f].0 == r && v <= u1[f].1 < v + |es|)
  }

  lemma AddedNone(t0: Tables, p0: Places, u0: Users, r: nat, v: nat)
    ensures Added(t0, p0, u0, t0, p0, u0, r, v, [])
  {
  }

  lemma AddedMore(t0: Tables, p0: Places, u0: Users, t1: Tables, p1: Places, u1: Users, t2: Tables, p2: Places,
                  u2: Users,
                  r: nat, v: nat, es: seq<nat>, e: nat, f: nat)
    requires Added(t0, p0, u0, t1, p1, u1, r, v, es) && Changed(t1, p1, t2, p2, r, v + |es|, [e])
    requires f !in u1 && u2 == u1[f := (r, v + |es|)]
    ensures Added(t0, p0, u0, t2, p2, u2, r, v, es + [e])
  {
    hide Changed;
    ChangedMore(t0, p0, t1, p1, t2, p2, r, v, es, e);
  }

  lemma AddedThenLeaves(t0: Tables, p0: Places, u0: Users, t1: Tables, p1: Places, u1: Users, t2: Tables, p2: Places,
                        r: nat, v: nat, es: seq<nat>)
    requires Added(t0, p0, u0, t1, p1, u1, r, v, es) && Leaves(t1, p1, t2, p2)
    ensures Added(t0, p0, u0, t2, p2, u1, r, v, es)
  {
    hide Changed, Leaves;
    ThenLeaves(t0, p0, t1, p1, t2, p2, r, v, es);
  }

  /** The pages above a contiguous space were not mapped, and belong to nobody. */
  lemma AddedUndone(t0: Tables, p0: Places, u0: Users, t1: Tables, p1: Places, u1: Users, t2: Tables, u2: Users, r: nat,
                    v: nat, es: seq<nat>)
    requires Tree(t0, p0) && UserOk(t0, p0, u0) && IsRoot(p0, r) && v + |es| <= TRAPFRAME
    requires forall x: nat :: v <= x < v + |es| ==> !V(Leaf(t0, r, x))
    requires Added(t0, p0, u0, t1, p1, u1, r, v, es)
    requires Changed(t1, p1, t2, p1, r, v, Zeros(|es|)) && UsersGone(u1, u2, r, v, |es|)
    ensures Leaves(t0, p0, t2, p1) && u2 == u0
  {
    hide Tree, Leaf, V, Changed;
    forall x: nat | v <= x < v + |es| ensures Leaf(t0, r, x) == 0 {
      InvalidIsZero(t0, p0, r, x);
    }
    Undone(t0, p0, t1, p1, t2, p1, r, v, es);
    UsersBack(u0, u1, u2, r, v, |es|);
  }

  /** PTE_R | PTE_U | xperm, for xperm made of PTE_W and PTE_X. */
  predicate XpermOk(xperm: nat) { xperm == 0 || xperm == 4 || xperm == 8 || xperm == 12 }

  lemma GrowPerm(v: nat, xperm: nat)
    requires XpermOk(xperm) && v < TRAPFRAME
    ensures PermOk(v, 18 + xperm) && OrV(18 + xperm) == 19 + xperm && V(19 + xperm) && U(19 + xperm) && Rd(19 + xperm)
  {
  }

  lemma NoZeroPages(data: map<nat, Page>, user: Users, flags: nat)
    ensures ZeroPages([], data, user, flags)
  {
  }

  lemma NotMapped(tables: Tables, r: nat, n: nat)
    requires Contiguous(tables, r, n) && n < TRAPFRAME
    ensures !V(Leaf(tables, r, n))
  {
  }

  lemma NotMappedFrom(tables: Tables, r: nat, n: nat, k: nat)
    requires Contiguous(tables, r, n) && n + k <= TRAPFRAME
    ensures forall x: nat :: n <= x < n + k ==> !V(Leaf(tables, r, x))
  {
  }

  lemma PagesExact(a: nat)
    ensures Pages(a * PGSIZE) == a
  {
  }

  lemma UsersStay(t0: Tables, p0: Places, u0: Users, t1: Tables, p1: Places, u1: Users, r: nat, v: nat, es: seq<nat>)
    requires Added(t0, p0, u0, t1, p1, u1, r, v, es)
    ensures u0.Keys <= u1.Keys
  {
  }

  lemma KeptPart(d0: map<nat, Page>, d1: map<nat, Page>, pages: set<nat>, part: set<nat>)
    requires DataKept(d0, d1, pages) && part <= pages
    ensures DataKept(d0, d1, part)
  {
  }

  // ----- fork's copy -----

  /** Entry i of the copy has the flags of page i of r0 in (t0, d0), and a frame of its own with the same bytes. */
  ghost predicate Copied(t0: Tables, d0: map<nat, Page>, u0: Users, r0: nat, es: seq<nat>, data: map<nat, Page>,
                         user: Users) {
    forall i :: 0 <= i < |es| ==>
      var e, f := Leaf(t0, r0, i), Frame(es[i]);
      es[i] == Pte(f, Flags(e)) && f !in u0 && f in user && f in data && Frame(e) in d0 && data[f] == d0[Frame(e)]
  }

  lemma CopiedNone(t0: Tables, d0: map<nat, Page>, u0: Users, r0: nat, data: map<nat, Page>, user: Users)
    ensures Copied(t0, d0, u0, r0, [], data, user)
  {
  }

  lemma CopiedMore(t0: Tables, d0: map<nat, Page>, u0: Users, r0: nat, es: seq<nat>, d1: map<nat, Page>, u1: Users,
                   d2: map<nat, Page>, u2: Users, f: nat, pte: nat)
    requires Copied(t0, d0, u0, r0, es, d1, u1) && DataKept(d1, d2, u1.Keys) && u0.Keys <= u1.Keys
    requires (forall g :: g in u1 ==> g in u2) && f !in u1 && f in u2 && f in d2
    requires var e := Leaf(t0, r0, |es|); Frame(e) in d0 && d2[f] == d0[Frame(e)] && pte == Pte(f, Flags(e))
    requires Frame(pte) == f
    ensures Copied(t0, d0, u0, r0, es + [pte], d2, u2)
  {
    hide Leaf, Frame, Flags, Pte;
  }

  lemma FlagsFit(e: nat)
    ensures Flags(e) < 1024
  {
  }

  /** The flags of a mapped user page can be given to mappages again. */
  lemma CopyPerm(e: nat, v: nat)
    requires V(e) && Rd(e) && v < TRAPFRAME
    ensures PermOk(v, Flags(e)) && OrV(Flags(e)) == Flags(e)
  {
    hide Rd, U;
    PteOf(e);
    PteParts(Frame(e), Flags(e));
  }

  lemma MappedReadable(tables: Tables, place: Places, r: nat, v: nat)
    requires Tree(tables, place) && IsRoot(place, r) && v < MAXVPN && V(Leaf(tables, r, v))
    ensures Rd(Leaf(tables, r, v))
  {
    hide DownOk, UpOk, LeavesOk, V, Rd;
    ZeroInvalid();
    LastTablePlace(tables, place, r, v);
    LeafAt(tables, place, LastTable(tables, r, v), v % 512);
  }

  /** Changing one address space leaves the other alone. */
  lemma OtherRoot(t0: Tables, p0: Places, t1: Tables, p1: Places, r: nat, v: nat, es: seq<nat>, r': nat, v': nat)
    requires Changed(t0, p0, t1, p1, r, v, es) && IsRoot(p0, r') && r' != r && v' < MAXVPN
    ensures Leaf(t1, r', v') == Leaf(t0, r', v')
  {
  }

  lemma FlagsValid(e: nat)
    ensures V(Flags(e)) == V(e)
  {
    hide V;
    PteOf(e);
    PteParts(Frame(e), Flags(e));
  }

  lemma RootKept(t0: Tables, p0: Places, t1: Tables, p1: Places, r: nat)
    requires Leaves(t0, p0, t1, p1) && IsRoot(p0, r)
    ensures IsRoot(p1, r)
  {
  }

  /** Page i of the parent is still where it was when the copy reaches it. */
  lemma SourcePage(t0: Tables, p0: Places, u0: Users, d0: map<nat, Page>,
                   tables: Tables, place: Places, user: Users, data: map<nat, Page>, r0: nat, r1: nat, es: seq<nat>, i: nat)
    requires Tree(t0, p0) && UserOk(t0, p0, u0) && IsRoot(p0, r0) && i < TRAPFRAME && V(Leaf(t0, r0, i)) && r0 != r1
    requires Tree(tables, place) && IsRoot(place, r0) && Added(t0, p0, u0, tables, place, user, r1, 0, es)
    requires (forall f :: f in u0 ==> f in d0) && DataKept(d0, data, u0.Keys)
    ensures Leaf(tables, r0, i) == Leaf(t0, r0, i) && V(Leaf(tables, r0, i)) && Rd(Leaf(tables, r0, i))
    ensures LastTable(tables, r0, i) != 0
    ensures var f := Frame(Leaf(t0, r0, i)); f in d0 && f in data && data[f] == d0[f]
  {
    hide DownOk, UpOk, LeavesOk, Leaf, V, Rd, Frame, UserOk, Changed, LastTable;
    OtherRoot(t0, p0, tables, place, r1, 0, es, r0, i);
    MappedReadable(tables, place, r0, i);
    UserAt(t0, p0, u0, r0, i);
    TableThere(tables, place, r0, i);
  }

  lemma TableThere(tables: Tables, place: Places, r: nat, v: nat)
    requires PlacesOk(tables, place) && V(Leaf(tables, r, v))
    ensures LastTable(tables, r, v) != 0
  {
  }

  // ----- Freeing page tables -----

  /** No leaf is left at or below t. */
  ghost predicate NoLeaves(tables: Tables, place: Places, p: Place) {
    forall f, i :: f in place && f in tables && Sub(place[f], p) && place[f].level == 0 && 0 <= i < 512 ==>
        !V(tables[f][i])
  }

  /** The tables for which cut does not hold are left as they were. */
  ghost predicate Left(t0: Tables, p0: Places, tables: Tables, place: Places, p: Place, k: nat) {
    forall f :: (f in place <==> f in p0 && !Cut(p0[f], p, k))
      && (f in place ==> place[f] == p0[f] && f in t0 && f in tables && (p0[f] != p ==> tables[f] == t0[f]))
  }

  ghost predicate Freed(t0: Tables, p0: Places, tables: Tables, place: Places, p: Place) {
    forall f :: (f in place <==> f in p0 && !Sub(p0[f], p)) && (f in place ==>
        place[f] == p0[f] && f in t0 && f in tables && tables[f] == t0[f])
  }

  /** One child less. */
  lemma LeftMore(t0: Tables, p0: Places, t1: Tables, p1: Places, t2: Tables, p2: Places, p: Place, k: nat, t: nat)
    requires 0 < p.level <= 2 && k < 512 && t in p2 && t in p0 && p0[t] == p
    requires Left(t0, p0, t1, p1, p, k) && Freed(t1, p1, t2, p2, Below(p, k))
    ensures t in t2 && Left(t0, p0, Store(t2, t, k, 0), p2, p, k + 1)
  {
  }

  lemma LeftNone(t0: Tables, p0: Places, t1: Tables, p1: Places, p: Place, k: nat)
    requires Left(t0, p0, t1, p1, p, k) && 0 < p.level <= 2 && k < 512
    requires forall f :: f in p1 ==> !Sub(p1[f], Below(p, k))
    ensures Left(t0, p0, t1, p1, p, k + 1)
  {
  }

  lemma LeftEnd(t0: Tables, p0: Places, tables: Tables, place: Places, p: Place, t: nat)
    requires Left(t0, p0, tables, place, p, if p.level > 0 then 512 else 0) && p.level <= 2 && t in p0 && p0[t] == p
    requires forall f :: f in p0 && p0[f] == p ==> f == t
    ensures Freed(t0, p0, tables - {t}, place - {t}, p) && forall f :: f in place && f != t ==> !Sub(place[f], p)
  {
  }

  /** Entries being cleared lie above p. */
  ghost predicate HolesAbove(place: Places, holes: set<(nat, nat)>, p: Place) {
    forall h :: h in holes && h.0 in place ==> !Sub(place[h.0], p)
  }

  lemma SubTrans(a: Place, b: Place, c: Place)
    requires Sub(a, b) && Sub(b, c) && c.level <= 2
    ensures Sub(a, c)
  {
  }

  lemma SubBelow(p: Place, i: nat)
    requires 0 < p.level <= 2 && i < 512
    ensures Sub(Below(p, i), p) && !Sub(p, Below(p, i)) && Below(p, i).prefix % 512 == i
  {
  }

  lemma WalkStart(tables: Tables, place: Places, holes: set<(nat, nat)>, t: nat)
    requires TreeBut(tables, place, holes) && t in place
    ensures t in tables && place[t].level <= 2 && Left(tables, place, tables, place, place[t], 0)
    ensures forall f :: f in place && place[f] == place[t] ==> f == t
  {
  }

  /** What freewalk finds in an entry. */
  lemma EntryCase(tables: Tables, place: Places, holes: set<(nat, nat)>, t: nat, i: nat)
    requires TreeBut(tables, place, holes) && t in place && i < 512 && NoLeaves(tables, place, place[t])
    requires HolesAbove(place, holes, place[t])
    ensures t in tables && place[t].level <= 2
    ensures V(tables[t][i]) ==>
      var g := Frame(tables[t][i]);
      && place[t].level > 0 && !Rd(tables[t][i]) && !Wr(tables[t][i]) && !Ex(tables[t][i])
      && g in place && place[g] == Below(place[t], i)
      && TreeBut(tables, place, holes + {(t, i)}) && Loose(tables, place, holes + {(t, i)}, g)
      && NoLeaves(tables, place, place[g]) && HolesAbove(place, holes + {(t, i)}, place[g])
  {
    hide UpOk, LeavesOk, V, Rd, Wr, Ex, Frame, Ptr;
    assert Sub(place[t], place[t]);
    if V(tables[t][i]) {
      var g := Frame(tables[t][i]);
      assert place[t].level > 0;
      PtrParts(g);
      ChildFacts(tables, place, holes, t, i, g);
    }
  }

  lemma ChildFacts(tables: Tables, place: Places, holes: set<(nat, nat)>, t: nat, i: nat, g: nat)
    requires TreeBut(tables, place, holes) && t in place && i < 512 && place[t].level > 0
    requires NoLeaves(tables, place, place[t]) && HolesAbove(place, holes, place[t])
    requires g in place && place[g] == Below(place[t], i)
    ensures TreeBut(tables, place, holes + {(t, i)}) && Loose(tables, place, holes + {(t, i)}, g)
    ensures NoLeaves(tables, place, place[g]) && HolesAbove(place, holes + {(t, i)}, place[g])
  {
    hide DownOk, UpOk, LeavesOk, V, Sub, Ptr;
    MoreHoles(tables, place, holes, (t, i));
    SubBelow(place[t], i);
    HangsFrom(tables, place, holes, t, i, g);
    forall f | f in place && Sub(place[f], place[g]) ensures Sub(place[f], place[t]) {
      SubTrans(place[f], place[g], place[t]);
    }
  }

  /** After a child is freed and its entry cleared. */
  lemma ChildGone(t0: Tables, p0: Places, t1: Tables, p1: Places, t2: Tables, p2: Places, holes: set<(nat, nat)>,
                  p: Place, i: nat, t: nat)
    requires 0 < p.level <= 2 && i < 512 && t in p1 && p1[t] == p && t in p0 && p0[t] == p
    requires Left(t0, p0, t1, p1, p, i) && Freed(t1, p1, t2, p2, Below(p, i))
    requires TreeBut(t2, p2, holes + {(t, i)}) && Loose(t1, p1, holes, t) && NoLeaves(t1, p1, p)
    requires HolesAbove(p1, holes, p)
    ensures t in p2 && p2[t] == p && t in t2
    ensures var n := Store(t2, t, i, 0);
      && TreeBut(n, p2, holes) && Left(t0, p0, n, p2, p, i + 1) && Loose(n, p2, holes, t) && NoLeaves(n, p2, p) && HolesAbove(p2, holes, p)
  {
    hide TreeBut, Left, Sub, V;
    SubBelow(p, i);
    ClearEntry(t2, p2, holes, t, i);
    LeftMore(t0, p0, t1, p1, t2, p2, p, i, t);
  }

  lemma NoChild(t0: Tables, p0: Places, tables: Tables, place: Places, holes: set<(nat, nat)>, t: nat, i: nat)
    requires TreeBut(tables, place, holes) && t in place && 0 < place[t].level <= 2 && i < 512 && !V(tables[t][i])
    requires Left(t0, p0, tables, place, place[t], i)
    ensures Left(t0, p0, tables, place, place[t], i + 1)
  {
    hide TreeBut, Left, Sub, V;
    forall f | f in place ensures !Sub(place[f], Below(place[t], i)) {
      NothingBelow(tables, place, holes, t, i, f);
    }
    LeftNone(t0, p0, tables, place, place[t], i);
  }

  lemma WalkEnd(t0: Tables, p0: Places, tables: Tables, place: Places, holes: set<(nat, nat)>, t: nat)
    requires TreeBut(tables, place, holes) && t in place && t in p0 && p0[t] == place[t]
    requires Loose(tables, place, holes, t)
    requires Left(t0, p0, tables, place, place[t], if place[t].level > 0 then 512 else 0) && place[t].level <= 2
    requires forall f :: f in p0 && p0[f] == place[t] ==> f == t
    ensures TreeBut(tables - {t}, place - {t}, holes) && Freed(t0, p0, tables - {t}, place - {t}, place[t])
  {
    hide TreeBut, Left, Freed, Loose, Sub;
    LeftEnd(t0, p0, tables, place, place[t], t);
    RemoveTable(tables, place, holes, t);
  }

  lemma NotHeld(lo: nat, free: seq<nat>, place: Places, user: Users, held: set<nat>, t: nat)
    requires Conserved(lo, free, place, user, held) && t in place
    ensures t !in held && t !in user
  {
  }

  lemma KeptPut(d0: map<nat, Page>, d1: map<nat, Page>, f: nat, p: Page, pages: set<nat>)
    requires DataKept(d0, d1, pages) && f !in pages
    ensures DataKept(d0, d1[f := p], pages)
  {
  }

  // ----- Whole address spaces -----

  /** Every other address space is as it was. */
  ghost predicate OthersSame(t0: Tables, p0: Places, t1: Tables, p1: Places, r: nat) {
    && (forall r': nat :: IsRoot(p0, r') && r' != r ==> IsRoot(p1, r'))
    && (forall r': nat, v: nat :: IsRoot(p0, r') && r' != r && v < MAXVPN ==> Leaf(t1, r', v) == Leaf(t0, r', v))
  }

  /** Nothing of address space r is left, and nothing else is gone. */
  ghost predicate Gone(p0: Places, u0: Users, p1: Places, u1: Users, r: nat) {
    && (forall f :: (f in p1 <==> f in p0 && p0[f].root != r) && (f in p1 ==> p1[f] == p0[f]))
    && (forall f :: (f in u1 <==> f in u0 && u0[f].0 != r) && (f in u1 ==> u1[f] == u0[f]))
  }

  ghost predicate NothingMapped(tables: Tables, r: nat) { forall v: nat :: v < MAXVPN ==> !V(Leaf(tables, r, v)) }

  lemma EmptyTree(tables: Tables, place: Places, r: nat)
    requires Tree(tables, place) && IsRoot(place, r) && NothingMapped(tables, r)
    ensures TreeBut(tables, place, {}) && Loose(tables, place, {}, r) && NoLeaves(tables, place, place[r])
    ensures HolesAbove(place, {}, place[r])
  {
    hide DownOk, UpOk, LeavesOk, Leaf, V;
    forall f, i | f in place && f in tables && Sub(place[f], place[r]) && place[f].level == 0 && 0 <= i < 512
      ensures !V(tables[f][i])
    {
      LeafIsEntry(tables, place, f, i);
    }
  }

  /** Below a root are exactly the tables of its tree. */
  lemma SubRoot(tables: Tables, place: Places, f: nat, r: nat)
    requires PlacesOk(tables, place) && f in place
    ensures Sub(place[f], Place(r, 2, 0)) <==> place[f].root == r
  {
  }

  lemma FreedLeaf(t0: Tables, p0: Places, t1: Tables, p1: Places, r: nat, r': nat, v: nat)
    requires Tree(t0, p0) && Freed(t0, p0, t1, p1, Place(r, 2, 0)) && t1.Keys == p1.Keys && IsRoot(p0, r') && r' != r
    requires v < MAXVPN
    ensures IsRoot(p1, r') && Leaf(t1, r', v) == Leaf(t0, r', v)
  {
    hide DownOk, UpOk, LeavesOk, Sub, V, Frame;
    Digits(v);
    LastTablePlace(t0, p0, r', v);
    SubRoot(t0, p0, r', r);
    var m, t := Step(t0, r', v / 262144), LastTable(t0, r', v);
    if m != 0 {
      SubRoot(t0, p0, m, r);
    }
    if t != 0 {
      SubRoot(t0, p0, t, r);
    }
  }

  lemma FreedUsers(t0: Tables, p0: Places, user: Users, t1: Tables, p1: Places, r: nat)
    requires Tree(t0, p0) && UserOk(t0, p0, user) && Freed(t0, p0, t1, p1, Place(r, 2, 0)) && t1.Keys == p1.Keys
    requires forall f :: f in user ==> user[f].0 != r
    ensures UserOk(t1, p1, user) && OthersSame(t0, p0, t1, p1, r)
  {
    hide DownOk, UpOk, LeavesOk, Sub, V, U, Frame, Leaf;
    forall r': nat, v: nat | IsRoot(p0, r') && r' != r && v < MAXVPN ensures Leaf(t1, r', v) == Leaf(t0, r', v) {
      FreedLeaf(t0, p0, t1, p1, r, r', v);
    }
    forall r': nat | IsRoot(p0, r') && r' != r ensures IsRoot(p1, r') {
      FreedLeaf(t0, p0, t1, p1, r, r', 0);
    }
    forall r': nat | IsRoot(p1, r') ensures IsRoot(p0, r') && r' != r {
      SubRoot(t0, p0, r', r);
    }
  }

  /** After the user pages are unmapped, nobody of r is left among the users. */
  lemma UsersOfGone(t0: Tables, p0: Places, u0: Users, u1: Users, r: nat, n: nat)
    requires UserOk(t0, p0, u0) && Contiguous(t0, r, n) && UsersGone(u0, u1, r, 0, n)
    ensures forall f :: (f in u1 <==> f in u0 && u0[f].0 != r) && (f in u1 ==> u1[f] == u0[f])
  {
    hide Leaf, V, Frame, U;
  }

  lemma GoneAll(t0: Tables, p0: Places, u0: Users, t1: Tables, p1: Places, u1: Users, r: nat)
    requires PlacesOk(t0, p0) && Freed(t0, p0, t1, p1, Place(r, 2, 0))
    requires forall f :: (f in u1 <==> f in u0 && u0[f].0 != r) && (f in u1 ==> u1[f] == u0[f])
    ensures Gone(p0, u0, p1, u1, r)
  {
    hide Sub;
    forall f | f in p0 ensures Sub(p0[f], Place(r, 2, 0)) <==> p0[f].root == r {
      SubRoot(t0, p0, f, r);
    }
  }

  lemma ChangedOthers(t0: Tables, p0: Places, t1: Tables, p1: Places, r: nat, v: nat, es: seq<nat>)
    requires Changed(t0, p0, t1, p1, r, v, es)
    ensures OthersSame(t0, p0, t1, p1, r)
  {
    hide Leaf;
  }

  lemma OthersTrans(t0: Tables, p0: Places, t1: Tables, p1: Places, t2: Tables, p2: Places, r: nat)
    requires OthersSame(t0, p0, t1, p1, r) && OthersSame(t1, p1, t2, p2, r)
    ensures OthersSame(t0, p0, t2, p2, r)
  {
    hide Leaf;
    forall r': nat, v: nat | IsRoot(p0, r') && r' != r && v < MAXVPN ensures Leaf(t2, r', v) == Leaf(t0, r', v) {
      assert IsRoot(p1, r') && Leaf(t1, r', v) == Leaf(t0, r', v);
    }
  }

  lemma NothingLeft(t0: Tables, p0: Places, t1: Tables, p1: Places, r: nat, n: nat)
    requires Contiguous(t0, r, n) && n <= TRAPFRAME && Changed(t0, p0, t1, p1, r, 0, Zeros(n)) && IsRoot(p0, r)
    requires !V(Leaf(t0, r, TRAPFRAME)) && !V(Leaf(t0, r, TRAMPOLINE))
    ensures NothingMapped(t1, r)
  {
    hide Leaf, V;
    ZeroInvalid();
    forall v: nat | v < MAXVPN ensures !V(Leaf(t1, r, v)) {
      assert Leaf(t1, r, v) == if v < n then 0 else Leaf(t0, r, v);
      assert v >= TRAPFRAME ==> v == TRAPFRAME || v == TRAMPOLINE;
    }
  }

  lemma NewRoot(lo: nat, free: seq<nat>, tables: Tables, place: Places, user: Users, held: set<nat>, g: nat)
    requires Conserved(lo, free, place, user, held) && Tree(tables, place) && UserOk(tables, place, user) && g in held
    requires g !in place && g != 0
    ensures var n, q := tables[g := Empty()], place[g := Place(g, 2, 0)];
      && Conserved(lo, free, q, user, held - {g}) && Tree(n, q) && UserOk(n, q, user)
      && NothingMapped(n, g) && OthersSame(tables, place, n, q, g)
  {
    hide DownOk, UpOk, LeavesOk, Leaf, V, U, Frame;
    var n, q := tables[g := Empty()], place[g := Place(g, 2, 0)];
    HeldToTable(lo, free, place, user, held, g, Place(g, 2, 0));
    RootTree(tables, place, g);
    ZeroInvalid();
    forall r: nat, v: nat | IsRoot(q, r) && v < MAXVPN ensures Leaf(n, r, v) ==
        if r == g then 0 else Leaf(tables, r, v) {
      RootLeaf(tables, place, g, r, v);
    }
    forall v: nat | v < MAXVPN ensures !V(Leaf(n, g, v)) {
      assert IsRoot(q, g);
    }
  }

  /** A page table made and taken apart again leaves no trace. */
  lemma NoTrace(p0: Places, u0: Users, p1: Places, p2: Places, u2: Users, r: nat)
    requires r !in p0 && (forall f :: f in p0 ==> p0[f].root != r && f in p1 && p1[f] == p0[f])
    requires (forall f :: f in p1 && f !in p0 ==> p1[f].root == r) && (forall f :: f in u0 ==> u0[f].0 != r)
    requires Gone(p1, u0, p2, u2, r)
    ensures p2 == p0 && u2 == u0
  {
  }

  /** All tables that are in p1 and not in p0 belong to r. */
  ghost predicate OnlyOf(p0: Places, p1: Places, r: nat) {
    && (forall f :: f in p0 ==> f in p1 && p1[f] == p0[f])
    && (forall f :: f in p1 && f !in p0 ==> p1[f].root == r)
  }

  lemma OnlyRefl(place: Places, r: nat)
    ensures OnlyOf(place, place, r)
  {
  }

  lemma OnlyTrans(p0: Places, p1: Places, p2: Places, r: nat)
    requires OnlyOf(p0, p1, r) && OnlyOf(p1, p2, r)
    ensures OnlyOf(p0, p2, r)
  {
  }

  lemma OnlyNew(place: Places, r: nat)
    requires r !in place
    ensures OnlyOf(place, place[r := Place(r, 2, 0)], r)
  {
  }

  lemma NoRootLike(tables: Tables, place: Places, user: Users, r: nat)
    requires Tree(tables, place) && UserOk(tables, place, user) && r !in place
    ensures (forall f :: f in place ==> place[f].root != r) && (forall f :: f in user ==> user[f].0 != r)
  {
    hide DownOk, UpOk, LeavesOk, Leaf;
  }

  lemma OthersRefl(tables: Tables, place: Places, r: nat)
    ensures OthersSame(tables, place, tables, place, r)
  {
  }

  lemma OthersAll(t0: Tables, p0: Places, t1: Tables, p1: Places, r: nat)
    requires OthersSame(t0, p0, t1, p1, r) && r !in p0
    ensures OthersSame(t0, p0, t1, p1, 0)
  {
    hide Leaf;
  }

  lemma EmptyNow(tables: Tables, r: nat)
    requires NothingMapped(tables, r)
    ensures !V(Leaf(tables, r, TRAMPOLINE)) && !V(Leaf(tables, r, TRAPFRAME)) && Contiguous(tables, r, 0)
  {
  }

  lemma EmptySpace(tables: Tables, r: nat)
    requires NothingMapped(tables, r)
    ensures !V(Leaf(tables, r, TRAMPOLINE)) && !V(Leaf(tables, r, TRAPFRAME)) && Contiguous(tables, r, Pages(0))
  {
  }

  /** PTE_R | PTE_X and PTE_R | PTE_W */
  lemma SystemPerms()
    ensures PermOk(TRAMPOLINE, 10) && PermOk(TRAPFRAME, 6) && OrV(10) == 11 && OrV(6) == 7 && V(11) && V(7)
  {
  }

  lemma StillEmpty(t0: Tables, p0: Places, t1: Tables, p1: Places, r: nat, v: nat, es: seq<nat>)
    requires NothingMapped(t0, r) && IsRoot(p0, r) && Leaves(t0, p0, t1, p1)
    ensures NothingMapped(t1, r) && OthersSame(t0, p0, t1, p1, r)
  {
    hide V;
    forall x: nat | x < MAXVPN ensures Leaf(t1, r, x) == Leaf(t0, r, x) {
    }
  }

  lemma FirstMapped(t0: Tables, p0: Places, t1: Tables, p1: Places, r: nat, e: nat)
    requires NothingMapped(t0, r) && IsRoot(p0, r) && Changed(t0, p0, t1, p1, r, TRAMPOLINE, [e])
    ensures Leaf(t1, r, TRAMPOLINE) == e && (forall x: nat :: x < TRAMPOLINE ==> !V(Leaf(t1, r, x)))
    ensures OthersSame(t0, p0, t1, p1, r)
  {
    hide Leaf, V;
    ChangedOthers(t0, p0, t1, p1, r, TRAMPOLINE, [e]);
    forall x: nat | x < TRAMPOLINE ensures !V(Leaf(t1, r, x)) {
      assert Leaf(t1, r, x) == Leaf(t0, r, x);
    }
  }

  lemma SecondMapped(t0: Tables, p0: Places, t1: Tables, p1: Places, r: nat, e: nat, g: nat)
    requires Leaf(t0, r, TRAMPOLINE) == e && (forall x: nat :: x < TRAMPOLINE ==> !V(Leaf(t0, r, x))) && IsRoot(p0, r)
    requires Changed(t0, p0, t1, p1, r, TRAPFRAME, [g])
    ensures Leaf(t1, r, TRAMPOLINE) == e && Leaf(t1, r, TRAPFRAME) == g && Contiguous(t1, r, 0)
    ensures OthersSame(t0, p0, t1, p1, r)
  {
    hide Leaf, V;
    ChangedOthers(t0, p0, t1, p1, r, TRAPFRAME, [g]);
    forall x: nat | x < TRAPFRAME ensures !V(Leaf(t1, r, x)) {
      assert Leaf(t1, r, x) == Leaf(t0, r, x);
    }
  }

  lemma OneMapped(tables: Tables, r: nat, v: nat)
    requires V(Leaf(tables, r, v))
    ensures AllMapped(tables, r, v, 1)
  {
  }

  /** Unmapping a system page leaves the other one and user memory. */
  lemma OneGone(t0: Tables, p0: Places, t1: Tables, p1: Places, r: nat, v: nat, w: nat, n: nat)
    requires IsRoot(p0, r) && Changed(t0, p0, t1, p1, r, v, Zeros(1)) && TRAPFRAME <= v < MAXVPN
    requires TRAPFRAME <= w < MAXVPN && v != w && Contiguous(t0, r, n)
    ensures !V(Leaf(t1, r, v)) && Leaf(t1, r, w) == Leaf(t0, r, w) && Contiguous(t1, r, n)
    ensures OthersSame(t0, p0, t1, p1, r)
  {
    hide Leaf, V;
    ZeroInvalid();
    ChangedOthers(t0, p0, t1, p1, r, v, Zeros(1));
    forall x: nat | x < MAXVPN ensures Leaf(t1, r, x) == if x == v then 0 else Leaf(t0, r, x) {
    }
  }

  lemma GoneFewer(p0: Places, u0: Users, p1: Places, u1: Users, r: nat)
    requires Gone(p0, u0, p1, u1, r)
    ensures u1.Keys <= u0.Keys
  {
  }

  /** What no longer has an owner is free. */
  lemma Returned(lo: nat, free0: seq<nat>, p0: Places, u0: Users, free: seq<nat>, p1: Places, u1: Users, held: set<nat>,
                 r: nat)
    requires Conserved(lo, free0, p0, u0, held) && Conserved(lo, free, p1, u1, held) && Gone(p0, u0, p1, u1, r)
    ensures forall f :: (f in p0 && p0[f].root == r) || (f in u0 && u0[f].0 == r) ==> f in free
  {
  }

  /** The child reads what the parent read, from frames of its own. */
  lemma CopyReadsSame(t0: Tables, p0: Places, d0: map<nat, Page>, u0: Users, t1: Tables, p1: Places, d1: map<nat, Page>,
                      u1: Users,
                      r0: nat, r1: nat, es: seq<nat>, va: nat)
    requires Added(t0, p0, u0, t1, p1, u1, r1, 0, es) && Copied(t0, d0, u0, r0, es, d1, u1) && UserOk(t0, p0, u0)
    requires IsRoot(p0, r0) && IsRoot(p0, r1) && r0 != r1 && va / PGSIZE < |es| <= TRAPFRAME
    requires V(Leaf(t0, r0, va / PGSIZE))
    ensures UserByte(t1, d1, r1, va) == UserByte(t0, d0, r0, va)
    ensures CanRead(t1, r1, va) == CanRead(t0, r0, va) && CanWrite(t1, r1, va) == CanWrite(t0, r0, va)
    ensures Frame(Leaf(t1, r1, va / PGSIZE)) != Frame(Leaf(t1, r0, va / PGSIZE))
  {
    hide Leaf, V, U, Wr, Frame, Flags, Pte;
    var v := va / PGSIZE;
    var e, f := Leaf(t0, r0, v), Frame(es[v]);
    assert Leaf(t1, r1, v) == es[v] && Leaf(t1, r0, v) == e && es[v] == Pte(f, Flags(e));
    PteOf(e);
    PteParts(Frame(e), Flags(e));
    PteParts(f, Flags(e));
    UserAt(t0, p0, u0, r0, v);
  }

  lemma AllHeld(lo: nat)
    requires KERNBASE <= lo <= PHYSTOP
    ensures Conserved(lo, [], map[], map[], Range(lo, PHYSTOP - lo))
    ensures Tree(map[], map[]) && UserOk(map[], map[], map[])
  {
  }

  lemma AllFree(lo: nat, free: seq<nat>, place: Places, user: Users, held: set<nat>)
    requires Conserved(lo, free, place, user, held) && place == map[] && user == map[] && (forall f :: f !in held)
    ensures held == {} && forall f :: f in free <==> lo <= f < PHYSTOP
  {
  }

  // ----- What growproc does to the bytes -----

  /** Every byte a process can read is there as before, with the same rights, except in r from page n on. */
  ghost predicate SameMemory(t0: Tables, p0: Places, d0: map<nat, Page>, t1: Tables, d1: map<nat, Page>, r: nat,
                             n: nat) {
    forall r': nat, va: nat :: IsRoot(p0, r') && CanRead(t0, r', va) && (r' == r ==> va / PGSIZE < n) ==>
      && CanRead(t1, r', va) && (CanWrite(t1, r', va) <==> CanWrite(t0, r', va))
      && UserByte(t1, d1, r', va) == UserByte(t0, d0, r', va)
  }

  /** Pages m to n of r are writable and zero. */
  ghost predicate FreshMemory(tables: Tables, data: map<nat, Page>, r: nat, m: nat, n: nat) {
    forall va: nat :: m <= va / PGSIZE < n ==> CanWrite(tables, r, va) && UserByte(tables, data, r, va) == 0
  }

  /** Leaves and pages in use that stay keep the memory of their users. */
  lemma MemoryStays(t0: Tables, p0: Places, u0: Users, d0: map<nat, Page>, t1: Tables, d1: map<nat, Page>, r: nat,
                    n: nat, used: set<nat>)
    requires UserOk(t0, p0, u0) && (forall f :: f in u0 ==> f in d0) && DataKept(d0, d1, used)
    requires forall r': nat, v: nat :: IsRoot(p0, r') && v < MAXVPN && (r' == r ==> v < n) ==>
               Leaf(t1, r', v) == Leaf(t0, r', v)
    requires forall f :: f in u0 && (u0[f].0 == r ==> u0[f].1 < n) ==> f in used
    ensures SameMemory(t0, p0, d0, t1, d1, r, n)
  {
    hide Leaf, V, U, Wr, Frame;
  }

  lemma FreshPages(t0: Tables, p0: Places, t1: Tables, p1: Places, data: map<nat, Page>, user: Users, r: nat, m: nat,
                   es: seq<nat>)
    requires Changed(t0, p0, t1, p1, r, m, es) && IsRoot(p0, r) && ZeroPages(es, data, user, 23)
    requires m + |es| <= TRAPFRAME
    ensures FreshMemory(t1, data, r, m, m + |es|)
  {
    hide Leaf, V, U, Wr, Frame, Pte;
    forall va: nat | m <= va / PGSIZE < m + |es|
      ensures CanWrite(t1, r, va) && UserByte(t1, data, r, va) == 0
    {
      var e := es[va / PGSIZE - m];
      assert Leaf(t1, r, va / PGSIZE) == e == Pte(Frame(e), 23);
      WritableFlags(Frame(e));
    }
  }

  /** PTE_V | PTE_R | PTE_W | PTE_U */
  lemma WritableFlags(f: nat)
    ensures V(Pte(f, 23)) && U(Pte(f, 23)) && Wr(Pte(f, 23))
  {
    PteParts(f, 23);
  }

  lemma GrownMemory(t0: Tables, p0: Places, u0: Users, d0: map<nat, Page>, t1: Tables, p1: Places, u1: Users,
                    d1: map<nat, Page>, r: nat, m: nat, es: seq<nat>)
    requires UserOk(t0, p0, u0) && (forall f :: f in u0 ==> f in d0) && DataKept(d0, d1, u0.Keys) && IsRoot(p0, r)
    requires Added(t0, p0, u0, t1, p1, u1, r, m, es) && ZeroPages(es, d1, u1, 23) && m + |es| <= TRAPFRAME
    ensures SameMemory(t0, p0, d0, t1, d1, r, m) && FreshMemory(t1, d1, r, m, m + |es|)
  {
    hide Leaf, SameMemory, FreshMemory, ZeroPages, UserOk;
    FreshPages(t0, p0, t1, p1, d1, u1, r, m, es);
    MemoryStays(t0, p0, u0, d0, t1, d1, r, m, u0.Keys);
  }

  lemma ShrunkMemory(tables: Tables, place: Places, u0: Users, d0: map<nat, Page>, t1: Tables, u1: Users,
                     d1: map<nat, Page>, r: nat, m: nat, k: nat)
    requires UserOk(tables, place, u0) && (forall f :: f in u0 ==> f in d0) && DataKept(d0, d1, u1.Keys)
    requires Changed(tables, place, t1, place, r, m, Zeros(k)) && UsersGone(u0, u1, r, m, k)
    ensures SameMemory(tables, place, d0, t1, d1, r, m)
  {
    hide Leaf, SameMemory, UserOk;
    MemoryStays(tables, place, u0, d0, t1, d1, r, m, u1.Keys);
  }

  /** Nothing was mapped from page m on, so there was nothing to keep. */
  lemma FewerPages(t0: Tables, p0: Places, d0: map<nat, Page>, t1: Tables, d1: map<nat, Page>, r: nat, m: nat, n: nat)
    requires SameMemory(t0, p0, d0, t1, d1, r, m) && Contiguous(t0, r, m) && n <= TRAPFRAME
    ensures SameMemory(t0, p0, d0, t1, d1, r, n)
  {
    hide Leaf, V, U, Wr, Frame, UserByte;
  }

  lemma KeptMemory(t0: Tables, p0: Places, u0: Users, d0: map<nat, Page>, t1: Tables, p1: Places, d1: map<nat, Page>,
                   r: nat, m: nat)
    requires UserOk(t0, p0, u0) && (forall f :: f in u0 ==> f in d0) && DataKept(d0, d1, u0.Keys)
    requires Leaves(t0, p0, t1, p1)
    ensures SameMemory(t0, p0, d0, t1, d1, r, m)
  {
    hide Leaf, SameMemory, UserOk;
    MemoryStays(t0, p0, u0, d0, t1, d1, r, m, u0.Keys);
  }

  class Kernel {

    /** First page after the kernel image. */
    const lo: nat
    var free: seq<nat>
    var tables: Tables
    var data: map<nat, Page>
    ghost var place: Places
    ghost var user: Users
    ghost var held: set<nat>

    ghost predicate Valid()
      reads this
    {
      && Conserved(lo, free, place, user, held) && Tree(tables, place) && UserOk(tables, place, user)
      && (forall f :: f in user || f in held ==> f in data)
    }

    /** At boot no page is free yet, and nothing but the kernel image is in use. */
    constructor (lo: nat, ram: map<nat, Page>)
      requires KERNBASE <= lo <= PHYSTOP && forall f :: lo <= f < PHYSTOP ==> f in ram
      ensures Valid() && this.lo == lo && held == Range(lo, PHYSTOP - lo) && place == map[] && user == map[]
      ensures free == []
    {
      hide Conserved, Tree, UserOk;
      this.lo := lo;
      free, tables, data := [], map[], ram;
      place, user, held := map[], map[], Range(lo, PHYSTOP - lo);
      new;
      AllHeld(lo);
    }

    /** freerange(end, PHYSTOP): frees every page. */
    method Kinit()
      requires Valid() && held == Range(lo, PHYSTOP - lo) && place == map[] && user == map[]
      modifies this`free, this`data, this`held
      ensures Valid() && held == {} && forall f :: f in free <==> lo <= f < PHYSTOP
    {
      hide Conserved, Tree, UserOk;
      var p := lo;
      while p < PHYSTOP
        invariant lo <= p && (p <= PHYSTOP || held == {}) && Valid()
        invariant forall f :: f in held <==> p <= f < PHYSTOP
      {
        var _ := Kfree(p);
        p := p + 1;
      }
      AllFree(lo, free, place, user, held);
    }

    /** A page, filled with junk; 0 when there is none.  The caller holds it. */
    method Kalloc() returns (f: nat)
      requires Valid()
      modifies this`free, this`data, this`held
      ensures Valid() && (f == 0 <==> old(free) == [])
      ensures f == 0 ==> free == old(free) && data == old(data) && held == old(held)
      ensures f != 0 ==> f == old(free)[0] && free == old(free)[1..] && held == old(held) + {f} && f !in old(held)
      ensures f != 0 ==> data == old(data)[f := Fill(5)]
    {
      if free == [] {
        return 0;
      }
      TakeFree(lo, free, place, user, held);
      f := free[0];
      free := free[1..];
      held := held + {f};
      data := data[f := Fill(5)];
    }

    /** Gives a held page back; false is the panic for an address outside the allocator's range. */
    method Kfree(f: nat) returns (ok: bool)
      requires Valid() && (lo <= f < PHYSTOP ==> f in held)
      modifies this`free, this`data, this`held
      ensures Valid() && (ok <==> lo <= f < PHYSTOP)
      ensures ok ==> free == [f] + old(free) && held == old(held) - {f} && data == old(data)[f := Fill(1)]
      ensures !ok ==> free == old(free) && held == old(held) && data == old(data)
    {
      if f < lo || f >= PHYSTOP {
        return false;
      }
      GiveBack(lo, free, place, user, held, f);
      data := data[f := Fill(1)];
      free := [f] + free;
      held := held - {f};
      ok := true;
    }

    /** Allocates a table for the empty entry i of t; 0 when there is no page. */
    method NewTable(t: nat, i: nat) returns (g: nat)
      requires Valid() && t in place && place[t].level > 0 && i < 512 && !V(tables[t][i])
      requires (place[t].level == 2 ==> i < 256)
      modifies this`free, this`tables, this`data, this`place, this`held
      ensures Valid() && held == old(held)
      ensures Grown(old(tables), old(place), old(data), tables, place, data, user.Keys + held)
      ensures OnlyOf(old(place), place, old(place)[t].root)
      ensures g == Step(tables, t, i)
      ensures (g != 0 ==> g in place && place[g] == Below(old(place)[t], i) && place[t] == old(place)[t])
      ensures g == 0 ==> free == [] == old(free)
      ensures StepsBut(old(tables), tables, t, i)
      ensures g != 0 ==> g !in old(tables) && |free| == |old(free)| - 1
    {
      hide Conserved, Tree, UserOk, Leaf, Frame, V, Grown, Hang, Leaves, Step;
      NoEntry(tables, place, t, i);
      g := Kalloc();
      if g == 0 {
        GrownRefl(tables, place, data, user.Keys + held);
        return;
      }
      InHand(lo, free, place, user, held, g);
      HangStep(lo, free, tables, place, user, held, t, i, g);
      HangGrown(tables, place, old(data), t, i, g, user.Keys + old(held), Fill(5));
      HangSteps(tables, t, i, g);
      SetHang(tables, t, i, g);
      tables := tables[t := tables[t][i := Pte(g, 1)]][g := Empty()];
      place := place[g := Below(place[t], i)];
      held := held - {g};
      assert held == old(held);
    }

    /** One level of walk: the table that entry i of t leads to, allocated on demand. */
    method Descend(t: nat, i: nat, alloc: bool) returns (g: nat)
      requires Valid() && t in place && place[t].level > 0 && i < 512 && (place[t].level == 2 ==> i < 256)
      modifies this`free, this`tables, this`data, this`place, this`held
      ensures Valid() && held == old(held)
      ensures Grown(old(tables), old(place), old(data), tables, place, data, user.Keys + held)
      ensures OnlyOf(old(place), place, old(place)[t].root)
      ensures g == Step(tables, t, i)
      ensures (g != 0 ==> g in place && place[g] == Below(old(place)[t], i) && place[t] == old(place)[t])
      ensures !alloc ==> tables == old(tables) && place == old(place) && data == old(data) && free == old(free)
      ensures alloc && g == 0 ==> free == [] == old(free)
      ensures StepsBut(old(tables), tables, t, i)
      ensures Step(old(tables), t, i) != 0 ==> g == Step(old(tables), t, i) && free == old(free)
      ensures Step(old(tables), t, i) == 0 && g != 0 ==> g !in old(tables) && |free| == |old(free)| - 1
    {
      hide Conserved, DownOk, UpOk, LeavesOk, UserOk, Leaf, Frame, V, Grown;
      DownAt(tables, place, t, i);
      GrownRefl(tables, place, data, user.Keys + held);
      if V(tables[t][i]) {
        g := Frame(tables[t][i]);
      } else if !alloc {
        g := 0;
      } else {
        g := NewTable(t, i);
      }
    }

    /** The level-0 table for page v, or 0. */
    method Walk(r: nat, v: nat, alloc: bool) returns (t: nat)
      requires Valid() && IsRoot(place, r) && v < MAXVPN
      modifies this`free, this`tables, this`data, this`place, this`held
      ensures Valid() && held == old(held)
      ensures Grown(old(tables), old(place), old(data), tables, place, data, user.Keys + held)
      ensures OnlyOf(old(place), place, r)
      ensures t == LastTable(tables, r, v) && (t != 0 ==> t in tables && t in place && place[t].level == 0)
      ensures !alloc ==> tables == old(tables) && place == old(place) && data == old(data) && free == old(free)
      ensures alloc && t == 0 ==> free == []
      ensures alloc ==> (t == 0 <==> |old(free)| < Missing(old(tables), r, v))
      ensures alloc && t != 0 ==> Built(old(tables), tables, r, v) && |free| == |old(free)| - Missing(old(tables), r, v)
    {
      hide Conserved, DownOk, UpOk, LeavesOk, UserOk, Leaf, Grown, Step, OnlyOf, Built, Missing, StepsBut, AtMiddle;
      OnlyRefl(place, r);
      t := r;
      var level := 2;
      Digits(v);
      GrownRefl(tables, place, data, user.Keys + held);
      MissingOne(tables, place, r, v);
      while level > 0
        invariant Valid() && 0 <= level <= 2 && held == old(held)
        invariant Grown(old(tables), old(place), old(data), tables, place, data, user.Keys + held)
        invariant t in place && place[t].level == level && place[t].root == r && OnlyOf(old(place), place, r)
        invariant level == 2 ==> t == r
        invariant level == 1 ==> t == Step(tables, r, v / 262144) && t != 0
        invariant level == 0 ==> t == LastTable(tables, r, v)
        invariant !alloc ==> tables == old(tables) && place == old(place) && data == old(data) && free == old(free)
        invariant level == 2 ==> tables == old(tables) && place == old(place) && free == old(free)
        invariant level == 1 ==>
          AtMiddle(old(tables), old(free), tables, free, r, v, t) && place[t].prefix == v / 262144
        invariant alloc && level == 0 ==>
          && Built(old(tables), tables, r, v) && |old(free)| >= Missing(old(tables), r, v)
          && |free| == |old(free)| - Missing(old(tables), r, v)
      {
        label before:
        var g := Descend(t, if level == 2 then v / 262144 else v / 512 % 512, alloc);
        GrownTrans(old(tables), old(place), old(data), old@before(tables), old@before(place), old@before(data), tables,
                   place, data, user.Keys + held);
        OnlyTrans(old(place), old@before(place), place, r);
        if level == 2 {
          if g != 0 {
            MiddleFound(old(tables), old(free), tables, free, r, v, g);
          }
        } else if alloc {
          OnlyKeeps(old(place), old@before(place), r);
          AtLast(old(tables), old(place), old(free), old@before(tables), old@before(place), old@before(free), tables,
                 free, r, v, t);
        }
        if level == 1 {
          GrownSteps(old@before(tables), old@before(place), old@before(data), tables, place, data, user.Keys + held, r,
                     v / 262144);
        }
        if g == 0 {
          NoStep(tables, v / 512 % 512);
          return 0;
        }
        t := g;
        level := level - 1;
      }
    }

    /** walk with alloc == 0: changes nothing. */
    method Find(r: nat, v: nat) returns (t: nat)
      requires Valid() && IsRoot(place, r) && v < MAXVPN
      ensures t == LastTable(tables, r, v) && (t != 0 ==> t in tables && t in place && place[t].level == 0)
    {
      hide Conserved, UserOk;
      LastTablePlace(tables, place, r, v);
      Digits(v);
      t := r;
      var level := 2;
      while level > 0
        invariant 0 <= level <= 2 && t in place && t in tables
        invariant level == 2 ==> t == r
        invariant level == 1 ==> t == Step(tables, r, v / 262144)
        invariant level == 0 ==> t == LastTable(tables, r, v) && t != 0
      {
        var e := tables[t][if level == 2 then v / 262144 else v / 512 % 512];
        if !V(e) {
          return 0;
        }
        t := Frame(e);
        level := level - 1;
      }
    }

    /** One turn of mappages. */
    method MapPage(r: nat, v: nat, frame: nat, perm: nat) returns (res: MapResult)
      requires Valid() && IsRoot(place, r) && v < MAXVPN && PermOk(v, perm) && (v < TRAPFRAME ==> frame in held)
      modifies this`free, this`tables, this`data, this`place, this`user, this`held
      ensures Valid() && IsRoot(place, r) && DataKept(old(data), data, old(user).Keys + old(held))
      ensures OnlyOf(old(place), place, r)
      ensures (V(Leaf(old(tables), r, v)) ==> res != Done) && (res == Remap ==> V(Leaf(old(tables), r, v)))
      ensures res == NoMemory ==> free == [] && LastTable(tables, r, v) == 0
      ensures res == NoMemory <==> |old(free)| < Missing(old(tables), r, v)
      ensures res == Done ==> Built(old(tables), tables, r, v) && |free| == |old(free)| - Missing(old(tables), r, v)
      ensures res == Done ==> Changed(old(tables), old(place), tables, place, r, v, [Pte(frame, OrV(perm))])
      ensures res == Done && v < TRAPFRAME ==>
              user == old(user)[frame := (r, v)] && held == old(held) - {frame} && frame !in old(user)
      ensures res == Done && v >= TRAPFRAME ==> user == old(user) && held == old(held)
      ensures res != Done ==> Leaves(old(tables), old(place), tables, place) && user == old(user) && held == old(held)
    {
      hide Conserved, Tree, UserOk, LastTable, V, Rd, U, Frame, Pte, OrV, Changed, Grown, DataKept, Leaves, PermOk,
          Built, Missing;
      var t := Walk(r, v, true);
      GrownLeaves(old(tables), old(place), old(data), tables, place, data, user.Keys + held, r, v);
      if t == 0 {
        return NoMemory;
      }
      if V(tables[t][v % 512]) {
        return Remap;
      }
      label walked:
      MapStep(lo, free, tables, place, user, held, r, v, frame, perm);
      StoreBuilt(old(tables), tables, place, r, v, t, v % 512, Pte(frame, OrV(perm)));
      tables := tables[t := tables[t][v % 512 := Pte(frame, OrV(perm))]];
      LeavesThen(old(tables), old(place), old@walked(tables), place, tables, place, r, v, [Pte(frame, OrV(perm))]);
      if v < TRAPFRAME {
        user := user[frame := (r, v)];
        held := held - {frame};
      }
      res := Done;
    }

    /** Maps n pages from v on to the frames from frame on; k is how many are mapped when it stops. */
    method Mappages(r: nat, v: nat, n: nat, frame: nat, perm: nat) returns (res: MapResult, ghost k: nat)
      requires Valid() && IsRoot(place, r) && n > 0 && v + n <= MAXVPN && PermOk(v, perm)
      requires v < TRAPFRAME ==> v + n <= TRAPFRAME && forall f: nat :: frame <= f < frame + n ==> f in held
      modifies this`free, this`tables, this`data, this`place, this`user, this`held
      ensures Valid() && IsRoot(place, r) && DataKept(old(data), data, old(user).Keys + old(held))
      ensures Changed(old(tables), old(place), tables, place, r, v, Entries(frame, perm, k))
      ensures (res == Done <==> k == n) && k <= n
      ensures res == NoMemory ==> free == [] && LastTable(tables, r, v + k) == 0
      ensures (res == Remap ==> V(Leaf(old(tables), r, v + k)))
      ensures v < TRAPFRAME ==> UsersAdded(old(user), user, r, v, frame, k) && HeldLess(old(held), held, frame, k)
      ensures v >= TRAPFRAME ==> user == old(user) && held == old(held)
    {
      hide Conserved, Tree, UserOk, Leaf, V, Pte, OrV, Changed, DataKept, Leaves, IsRoot, Built, Missing,
          LastTable, OnlyOf, PermOk, UsersAdded, HeldLess;
      k := 0;
      var i := 0;
      NoneChanged(tables, place, r, v, data, user.Keys + held);
      NoUserMore(user, held, r, v, frame);
      while i < n
        invariant 0 <= i <= n && k == i && Valid() && IsRoot(place, r)
        invariant DataKept(old(data), data, old(user).Keys + old(held))
        invariant Changed(old(tables), old(place), tables, place, r, v, Entries(frame, perm, i))
        invariant v < TRAPFRAME ==> UsersAdded(old(user), user, r, v, frame, i) && HeldLess(old(held), held, frame, i)
        invariant v < TRAPFRAME ==> forall f: nat :: frame + i <= f < frame + n ==> f in held
        invariant v >= TRAPFRAME ==> user == old(user) && held == old(held)
      {
        PermAt(v, v + i, perm);
        if v < TRAPFRAME {
          NoneDropped(old(user), user, old(held), held, r, v, frame, i);
        }
        label before:
        res := MapPage(r, v + i, frame + i, perm);
        KeptAgain(old(data), old@before(data), data, old(user).Keys + old(held),
                  old@before(user).Keys + old@before(held));
        if res != Done {
          ThenLeaves(old(tables), old(place), old@before(tables), old@before(place), tables, place, r, v,
                     Entries(frame, perm, i));
          LeafBefore(old(tables), old(place), old@before(tables), old@before(place), r, v, Entries(frame, perm, i),
                     v + i);
          return;
        }
        ChangedMore(old(tables), old(place), old@before(tables), old@before(place), tables, place, r, v,
                    Entries(frame, perm, i), Pte(frame + i, OrV(perm)));
        EntriesMore(frame, perm, i);
        if v < TRAPFRAME {
          OneUserMore(old(user), old@before(user), old(held), old@before(held), r, v, frame, i);
        }
        i := i + 1;
        k := i;
      }
      res := Done;
    }

    /** One turn of uvmunmap. */
    method UnmapPage(r: nat, v: nat, doFree: bool)
      requires Valid() && IsRoot(place, r) && v < MAXVPN && V(Leaf(tables, r, v)) && (doFree <==> v < TRAPFRAME)
      modifies this`free, this`tables, this`data, this`user, this`held
      ensures Valid() && Changed(old(tables), place, tables, place, r, v, [0]) && held == old(held)
      ensures DataKept(old(data), data, user.Keys + held)
      ensures var f := Frame(Leaf(old(tables), r, v));
        if doFree then f in old(user) && old(user)[f] == (r, v) && user == old(user) - {f} && free == [f] + old(free) else user == old(user) && free == old(free)
    {
      hide Conserved, Tree, UserOk, LastTable, Leaf, V, Frame, Changed, DataKept, IsRoot;
      UnmapStep(lo, free, tables, place, user, held, r, v);
      var t := Find(r, v);
      LeafFrom(tables, r, v);
      var f := Frame(tables[t][v % 512]);
      // the entry is cleared before the page is freed here; nothing runs in between
      tables := tables[t := tables[t][v % 512 := 0]];
      KeptRefl(data, user.Keys + held);
      if doFree {
        FreeUser(f);
      }
    }

    /** kfree of a page that is no longer mapped. */
    method FreeUser(f: nat)
      requires f in user && lo <= f < PHYSTOP && f !in held && Conserved(lo, free, place, user - {f}, held + {f})
      requires Tree(tables, place) && UserOk(tables, place, user - {f})
      requires forall g :: g in user || g in held ==> g in data
      modifies this`free, this`data, this`user, this`held
      ensures Valid() && user == old(user) - {f} && held == old(held) && free == [f] + old(free)
      ensures DataKept(old(data), data, user.Keys + held)
    {
      hide Conserved, Tree, UserOk;
      user := user - {f};
      held := held + {f};
      var ok := Kfree(f);
      if !ok {
        assert false;
      }
      assert held == old(held);
    }

    /** Removes the mappings of n pages, which must exist, and frees the pages if asked to. */
    method Uvmunmap(r: nat, v: nat, n: nat, doFree: bool)
      requires Valid() && IsRoot(place, r) && v + n <= MAXVPN && AllMapped(tables, r, v, n)
      requires if doFree then v + n <= TRAPFRAME else v >= TRAPFRAME
      modifies this`free, this`tables, this`data, this`user, this`held
      ensures Valid() && Changed(old(tables), place, tables, place, r, v, Zeros(n)) && held == old(held)
      ensures DataKept(old(data), data, user.Keys + held)
      ensures if doFree then UsersGone(old(user), user, r, v, n) else user == old(user) && free == old(free)
    {
      hide Conserved, Tree, UserOk, Leaf, V, Changed, DataKept, IsRoot, UsersGone;
      var i := 0;
      NoneChanged(tables, place, r, v, data, user.Keys + held);
      NoneGone(user, r, v);
      while i < n
        invariant 0 <= i <= n && Valid() && Changed(old(tables), place, tables, place, r, v, Zeros(i))
        invariant held == old(held)
        invariant DataKept(old(data), data, user.Keys + held)
        invariant if doFree then UsersGone(old(user), user, r, v, i) else user == old(user) && free == old(free)
      {
        LeafBefore(old(tables), place, tables, place, r, v, Zeros(i), v + i);
        label before:
        UnmapPage(r, v + i, doFree);
        ChangedMore(old(tables), place, old@before(tables), place, tables, place, r, v, Zeros(i), 0);
        ZerosMore(i);
        KeptLess(old(data), old@before(data), data, old@before(user).Keys + held, user.Keys + held);
        if doFree {
          DistinctUsers(old(tables), place, old(user));
          GoneMore(old(user), old@before(user), r, v, i, Frame(Leaf(old@before(tables), r, v + i)));
        }
        i := i + 1;
      }
    }

    /** The frame that page v of the user's memory is in; 0 when the user may not access it. */
    method Walkaddr(r: nat, v: nat) returns (f: nat)
      requires Valid() && IsRoot(place, r)
      ensures var ok := v < MAXVPN && V(Leaf(tables, r, v)) && U(Leaf(tables, r, v));
        if ok then f == Frame(Leaf(tables, r, v)) && f in data && f > 0 else f == 0
    {
      hide DownOk, UpOk, LeavesOk;
      if v >= MAXVPN {
        return 0;
      }
      var t := Find(r, v);
      ZeroInvalid();
      if t == 0 {
        return 0;
      }
      var e := tables[t][v % 512];
      if !V(e) || !U(e) {
        return 0;
      }
      f := Frame(e);
      LeafFrom(tables, r, v);
      assert f in user && user[f] == (r, v);
    }

    /** len bytes from user address srcva: all of them, or false if one is not readable. */
    method Copyin(r: nat, srcva: nat, len: nat) returns (ok: bool, dst: seq<Byte>)
      requires Valid() && IsRoot(place, r)
      ensures ok <==> AllReadable(tables, r, srcva, len)
      ensures ok ==> dst == UserBytes(tables, data, r, srcva, len)
    {
      hide Conserved, Tree, UserOk, Leaf, V, U, Frame, UserByte;
      dst := [];
      var done := 0;
      while done < len
        invariant 0 <= done <= len && AllReadable(tables, r, srcva, done)
        invariant dst == UserBytes(tables, data, r, srcva, done)
      {
        var va := srcva + done;
        var f := Walkaddr(r, va / PGSIZE);
        if f == 0 {
          assert !CanRead(tables, r, va);
          return false, dst;
        }
        var room := PGSIZE - va % PGSIZE;
        var n := if len - done < room then len - done else room;
        PageSlice(tables, data, r, va, n);
        BytesConcat(tables, data, r, srcva, done, n);
        ReadableMore(tables, r, srcva, done, n);
        dst := dst + data[f][va % PGSIZE..va % PGSIZE + n];
        done := done + n;
      }
      ok := true;
    }

    /** The NUL-terminated string at srcva, if it ends within max bytes. */
    method Copyinstr(r: nat, srcva: nat, max: nat) returns (ok: bool, dst: seq<Byte>)
      requires Valid() && IsRoot(place, r)
      ensures var s := UserString(tables, data, r, srcva, max); (ok <==> s.Some?) && (ok ==> dst == s.value + [0])
    {
      hide Conserved, Tree, UserOk, Leaf, V, U, Frame;
      dst := [];
      ghost var whole := UserString(tables, data, r, srcva, max);
      StringStart(whole);
      var va: nat, left: nat := srcva, max;
      while left > 0
        invariant StringFrom(whole, dst, UserString(tables, data, r, va, left))
        decreases left
      {
        var page := va / PGSIZE;
        var f := Walkaddr(r, page);
        if f == 0 {
          assert !CanRead(tables, r, va);
          return false, dst;
        }
        var room := PGSIZE - va % PGSIZE;
        var n := if left < room then left else room;
        ghost var before := left;
        while n > 0
          invariant 0 <= n <= left && StringFrom(whole, dst, UserString(tables, data, r, va, left))
          invariant n > 0 ==> va / PGSIZE == page && va % PGSIZE + n <= PGSIZE
          invariant left <= before && (left < before || n > 0)
        {
          var p := data[f][va % PGSIZE];
          assert p == UserByte(tables, data, r, va) && CanRead(tables, r, va);
          if p == 0 {
            return true, dst + [0];
          }
          if n > 1 {
            SamePage(va, va + 1);
            assert (va + 1) / PGSIZE == page && (va + 1) % PGSIZE + (n - 1) <= PGSIZE;
          }
          StringMore(whole, dst, p, UserString(tables, data, r, va + 1, left - 1));
          dst := dst + [p];
          n, left, va := n - 1, left - 1, va + 1;
        }
      }
      ok := false;
    }

    /** Copies src to user address dstva: all of it, or only the first k bytes and false if the next one is
        not writable. */
    method Copyout(r: nat, dstva: nat, src: seq<Byte>) returns (ok: bool, ghost k: nat)
      requires Valid() && IsRoot(place, r)
      modifies this`data
      ensures Valid() && k <= |src| && Poked(tables, place, old(data), data, r, dstva, src[..k])
      ensures (ok <==> k == |src|) && AllWritable(tables, r, dstva, k) && (!ok ==> !CanWrite(tables, r, dstva + k))
    {
      hide Conserved, DownOk, UpOk, LeavesOk, UserOk, Leaf, LastTable, V, U, Wr, Frame, Poked, UserByte;
      var done := 0;
      k := 0;
      PokedNone(tables, place, data, r, dstva, src);
      while done < |src|
        invariant 0 <= done <= |src| && k == done && Valid() && AllWritable(tables, r, dstva, done)
        invariant Poked(tables, place, old(data), data, r, dstva, src[..done])
      {
        var va := dstva + done;
        if va / PGSIZE >= MAXVPN {
          return false, k;
        }
        var t := Find(r, va / PGSIZE);
        LeafFrom(tables, r, va / PGSIZE);
        if t == 0 {
          NoTable(tables, place, r, va / PGSIZE);
        }
        if t == 0 || !V(tables[t][va / PGSIZE % 512]) || !U(tables[t][va / PGSIZE % 512]) || !Wr(tables[t][va / PGSIZE % 512]) {
          return false, k;
        }
        var f := Frame(tables[t][va / PGSIZE % 512]);
        var room := PGSIZE - va % PGSIZE;
        var n := if |src| - done < room then |src| - done else room;
        PokePage(tables, place, user, data, r, va, src[done..done + n]);
        PokedMore(tables, place, old(data), data, data[f := Patch(data[f], va % PGSIZE, src[done..done + n])], r, dstva,
                  src, done, n);
        WritableMore(tables, r, dstva, done, n);
        data := data[f := Patch(data[f], va % PGSIZE, src[done..done + n])];
        done := done + n;
        k := done;
      }
      ok := true;
    }

    /** Takes a page away from the user without unmapping it. */
    method Uvmclear(r: nat, v: nat)
      requires Valid() && IsRoot(place, r) && v < TRAPFRAME && LastTable(tables, r, v) != 0
      modifies this`tables
      ensures Valid() && Changed(old(tables), place, tables, place, r, v, [ClearU(Leaf(old(tables), r, v))])
    {
      hide Conserved, DownOk, UpOk, LastTable, Changed, UserOk, Leaf, V, U, Rd, Frame, ClearU;
      var t := Find(r, v);
      LeafFrom(tables, r, v);
      var e := tables[t][v % 512];
      ClearUParts(e);
      ClearZero();
      LastTablePlace(tables, place, r, v);
      LeafAt(tables, place, t, v % 512);
      StoreChanges(tables, place, r, v, ClearU(e));
      UserSame(tables, place, Store(tables, t, v % 512, ClearU(e)), user, r, v, ClearU(e));
      tables := tables[t := tables[t][v % 512 := ClearU(e)]];
    }

    /** A fresh user page at page v, with the given contents. */
    method AddPage(r: nat, v: nat, perm: nat, contents: Page) returns (res: MapResult, ghost f: nat)
      requires Valid() && IsRoot(place, r) && v < TRAPFRAME && PermOk(v, perm) && !V(Leaf(tables, r, v))
      modifies this`free, this`tables, this`data, this`place, this`user, this`held
      ensures Valid() && IsRoot(place, r) && held == old(held) && DataKept(old(data), data, old(user).Keys + held)
      ensures res != Remap
      ensures res == Done ==> Changed(old(tables), old(place), tables, place, r, v, [Pte(f, OrV(perm))])
      ensures res == Done ==> f !in old(user) && user == old(user)[f := (r, v)] && f in data && data[f] == contents
      ensures res == NoMemory ==> Leaves(old(tables), old(place), tables, place) && user == old(user)
      ensures res == Done <==> |old(free)| > Missing(old(tables), r, v)
      ensures res == Done ==> Built(old(tables), tables, r, v) && |free| == |old(free)| - 1 - Missing(old(tables), r, v)
    {
      hide Conserved, Tree, UserOk, Leaf, V, Pte, OrV, Changed, Leaves, IsRoot, PermOk, Built, Missing;
      LeavesRefl(tables, place);
      var mem := Kalloc();
      f := mem;
      if mem == 0 {
        return NoMemory, 0;
      }
      InHand(lo, free, place, user, held, mem);
      data := data[mem := contents];
      res := MapPage(r, v, mem, perm);
      if res != Done {
        InHand(lo, free, place, user, held, mem);
        InRange(lo, free, place, user, held, mem);
        var ok := Kfree(mem);
        res := NoMemory;
      }
      assert held == old(held);
    }

    /** Brings the process from oldsz down to newsz. */
    method Uvmdealloc(r: nat, oldsz: nat, newsz: nat) returns (sz: nat)
      requires Valid() && IsRoot(place, r) && Contiguous(tables, r, Pages(oldsz))
      modifies this`free, this`tables, this`data, this`user, this`held
      ensures Valid() && held == old(held) && DataKept(old(data), data, user.Keys + held)
      ensures sz == if newsz < oldsz then newsz else oldsz
      ensures Contiguous(tables, r, Pages(sz)) && Pages(sz) <= Pages(oldsz)
      ensures Changed(old(tables), place, tables, place, r, Pages(sz), Zeros(Pages(oldsz) - Pages(sz)))
      ensures UsersGone(old(user), user, r, Pages(sz), Pages(oldsz) - Pages(sz))
    {
      hide Conserved, Tree, UserOk, Leaf, V, Changed, DataKept, IsRoot, UsersGone, Contiguous;
      MemoryBound(lo, free, tables, place, user, held, r, Pages(oldsz));
      PagesRise(newsz, oldsz);
      sz := if newsz < oldsz then newsz else oldsz;
      NoneChanged(tables, place, r, Pages(sz), data, user.Keys + held);
      NoneGone(user, r, Pages(sz));
      if newsz < oldsz && Pages(newsz) < Pages(oldsz) {
        MappedBelow(tables, r, Pages(newsz), Pages(oldsz));
        Uvmunmap(r, Pages(newsz), Pages(oldsz) - Pages(newsz), true);
        ContiguousLess(old(tables), place, tables, place, r, Pages(newsz), Pages(oldsz));
      }
    }

    /** Grows user memory from oldsz to newsz; 0 and no change to it when memory runs out.  For no requested
        size does it come to a mapped page or to TRAPFRAME. */
    method Uvmalloc(r: nat, oldsz: nat, newsz: nat, xperm: nat) returns (sz: nat, ghost es: seq<nat>)
      requires Valid() && IsRoot(place, r) && Contiguous(tables, r, Pages(oldsz)) && XpermOk(xperm)
      modifies this`free, this`tables, this`data, this`place, this`user, this`held
      ensures Valid() && IsRoot(place, r) && held == old(held) && DataKept(old(data), data, old(user).Keys + held)
      ensures newsz < oldsz ==> sz == oldsz && tables == old(tables) && user == old(user)
      ensures newsz >= oldsz ==> sz == newsz || sz == 0
      ensures newsz >= oldsz && sz == newsz && newsz > 0 ==>
        && Contiguous(tables, r, Pages(newsz)) && |es| == Pages(newsz) - Pages(oldsz)
        && Added(old(tables), old(place), old(user), tables, place, user, r, Pages(oldsz), es) && ZeroPages(es, data, user, 19 + xperm)
      ensures newsz >= oldsz && sz == 0 && newsz > 0 ==>
        Leaves(old(tables), old(place), tables, place) && user == old(user) && Contiguous(tables, r, Pages(oldsz))
      ensures newsz >= oldsz && newsz > 0 ==>
        (sz == newsz <==> |old(free)| >= Need(old(tables), r, Pages(oldsz), Pages(newsz)))
    {
      hide Conserved, Tree, UserOk, Leaf, V, U, Changed, DataKept, IsRoot, UsersGone, Contiguous, Added, ZeroPages,
          Leaves, PermOk, Built, BuiltTo, Missing, Need, XpermOk;
      es := [];
      KeptRefl(data, user.Keys + held);
      if newsz < oldsz {
        return oldsz, [];
      }
      var start := Pages(oldsz);
      var a := start;
      AddedNone(tables, place, user, r, start);
      NoZeroPages(data, user, 19 + xperm);
      BuiltNone(tables, r, start);
      PagesRise(oldsz, newsz);
      while a * PGSIZE < newsz
        invariant start <= a <= Pages(newsz) && |es| == a - start && Valid() && IsRoot(place, r) && held == old(held)
        invariant DataKept(old(data), data, old(user).Keys + held)
        invariant Contiguous(tables, r, a) && ZeroPages(es, data, user, 19 + xperm)
        invariant Added(old(tables), old(place), old(user), tables, place, user, r, start, es)
        invariant BuiltTo(old(tables), tables, r, start, a)
        invariant |free| == |old(free)| - Need(old(tables), r, start, a)
        decreases Pages(newsz) - a
      {
        MemoryBound(lo, free, tables, place, user, held, r, a);
        NotMapped(tables, r, a);
        GrowPerm(a, xperm);
        MissingNow(old(tables), tables, r, start, a);
        NeedRises(old(tables), r, start, a + 1, Pages(newsz));
        label before:
        var res;
        ghost var f;
        res, f := AddPage(r, a, 18 + xperm, Fill(0));
        UsersStay(old(tables), old(place), old(user), old@before(tables), old@before(place), old@before(user), r, start,
                  es);
        KeptAgain(old(data), old@before(data), data, old(user).Keys + held, old@before(user).Keys + held);
        if res != Done {
          sz := GiveUp(r, start, a, old(tables), old(place), old(user), old(data), es, old@before(tables), old@before(place));
          es := [];
          return;
        }
        KeptPart(old@before(data), data, old@before(user).Keys + held, old@before(user).Keys);
        ZeroPagesMore(es, old@before(data), old@before(user), data, user, 19 + xperm, f);
        AddedMore(old(tables), old(place), old(user), old@before(tables), old@before(place), old@before(user), tables, place, user,
                  r, start, es, Pte(f, 19 + xperm), f);
        PteParts(f, 19 + xperm);
        ContiguousMore(old@before(tables), old@before(place), tables, place, r, a, Pte(f, 19 + xperm));
        BuiltMore(old(tables), old@before(tables), tables, r, start, a);
        es := es + [Pte(f, 19 + xperm)];
        a := a + 1;
      }
      sz := newsz;
    }

    /** uvmalloc's way out: takes the pages added so far away again. */
    method GiveUp(r: nat, start: nat, a: nat, ghost t0: Tables, ghost p0: Places, ghost u0: Users,
                  ghost d0: map<nat, Page>, ghost es: seq<nat>,
                  ghost t1: Tables, ghost p1: Places) returns (sz: nat)
      requires Valid() && IsRoot(place, r) && start <= a <= TRAPFRAME && |es| == a - start
      requires Tree(t0, p0) && UserOk(t0, p0, u0) && IsRoot(p0, r) && Contiguous(t0, r, start) && Contiguous(t1, r, a)
      requires IsRoot(p1, r)
      requires Added(t0, p0, u0, t1, p1, user, r, start, es) && Leaves(t1, p1, tables, place)
      requires DataKept(d0, data, u0.Keys + held)
      modifies this`free, this`tables, this`data, this`user, this`held
      ensures Valid() && IsRoot(place, r) && held == old(held) && DataKept(d0, data, u0.Keys + held) && sz == 0
      ensures Leaves(t0, p0, tables, place) && user == u0 && Contiguous(tables, r, start)
    {
      hide Conserved, Tree, UserOk, Leaf, V, Changed, DataKept, UsersGone, Contiguous, Added, Leaves;
      AddedThenLeaves(t0, p0, u0, t1, p1, user, tables, place, r, start, es);
      ContiguousSame(t1, p1, tables, place, r, a);
      PagesExact(a);
      PagesExact(start);
      label before:
      var _ := Uvmdealloc(r, a * PGSIZE, start * PGSIZE);
      NotMappedFrom(t0, r, start, |es|);
      AddedUndone(t0, p0, u0, old@before(tables), place, old@before(user), tables, user, r, start, es);
      KeptAgain(d0, old@before(data), data, u0.Keys + held, user.Keys + held);
      sz := 0;
    }

    /** uvmcopy's way out. */
    method DropCopy(r: nat, n: nat, ghost t0: Tables, ghost p0: Places, ghost u0: Users, ghost d0: map<nat, Page>,
                    ghost es: seq<nat>,
                    ghost t1: Tables, ghost p1: Places)
      requires Valid() && IsRoot(place, r) && n <= TRAPFRAME && |es| == n
      requires Tree(t0, p0) && UserOk(t0, p0, u0) && IsRoot(p0, r) && Contiguous(t0, r, 0) && Contiguous(t1, r, n)
      requires IsRoot(p1, r)
      requires Added(t0, p0, u0, t1, p1, user, r, 0, es) && Leaves(t1, p1, tables, place)
      requires DataKept(d0, data, u0.Keys + held)
      modifies this`free, this`tables, this`data, this`user, this`held
      ensures Valid() && held == old(held) && DataKept(d0, data, u0.Keys + held)
      ensures Leaves(t0, p0, tables, place) && user == u0
    {
      hide Conserved, Tree, UserOk, Leaf, V, Changed, DataKept, UsersGone, Contiguous, Added, Leaves;
      AddedThenLeaves(t0, p0, u0, t1, p1, user, tables, place, r, 0, es);
      ContiguousSame(t1, p1, tables, place, r, n);
      MappedBelow(tables, r, 0, n);
      label before:
      Uvmunmap(r, 0, n, true);
      NotMappedFrom(t0, r, 0, |es|);
      AddedUndone(t0, p0, u0, old@before(tables), place, old@before(user), tables, user, r, 0, es);
      KeptAgain(d0, old@before(data), data, u0.Keys + held, user.Keys + held);
    }

    /** Copies user memory of r0, sz bytes from 0, into the empty address space r1: mappings with the same
        flags, in frames of their own with the same bytes; or nothing. */
    method Uvmcopy(r0: nat, r1: nat, sz: nat) returns (ok: bool, ghost es: seq<nat>)
      requires Valid() && IsRoot(place, r0) && IsRoot(place, r1) && r0 != r1 && Contiguous(tables, r0, Pages(sz))
      requires Contiguous(tables, r1, 0)
      modifies this`free, this`tables, this`data, this`place, this`user, this`held
      ensures Valid() && IsRoot(place, r0) && IsRoot(place, r1) && held == old(held)
      ensures DataKept(old(data), data, old(user).Keys + held)
      ensures ok ==> |es| == Pages(sz) && Contiguous(tables, r1, Pages(sz))
      ensures ok ==> Added(old(tables), old(place), old(user), tables, place, user, r1, 0, es)
      ensures ok ==> Copied(old(tables), old(data), old(user), r0, es, data, user)
      ensures !ok ==> Leaves(old(tables), old(place), tables, place) && user == old(user)
      ensures ok <==> |old(free)| >= Need(old(tables), r1, 0, Pages(sz))
    {
      hide Conserved, Tree, UserOk, Leaf, V, Rd, U, Frame, Flags, Changed, DataKept, IsRoot, UsersGone, Contiguous,
          Added, Copied, Leaves, PermOk, Built, BuiltTo, Missing;
      es := [];
      var i := 0;
      KeptRefl(data, user.Keys + held);
      AddedNone(tables, place, user, r1, 0);
      CopiedNone(tables, data, user, r0, data, user);
      BuiltNone(tables, r1, 0);
      MemoryBound(lo, free, tables, place, user, held, r0, Pages(sz));
      MappedBelow(tables, r0, 0, Pages(sz));
      while i * PGSIZE < sz
        invariant 0 <= i <= Pages(sz) && |es| == i && Valid() && IsRoot(place, r0) && IsRoot(place, r1)
        invariant held == old(held)
        invariant DataKept(old(data), data, old(user).Keys + held) && Contiguous(tables, r1, i)
        invariant Added(old(tables), old(place), old(user), tables, place, user, r1, 0, es)
        invariant Copied(old(tables), old(data), old(user), r0, es, data, user)
        invariant BuiltTo(old(tables), tables, r1, 0, i) && |free| == |old(free)| - Need(old(tables), r1, 0, i)
        decreases Pages(sz) - i
      {
        KeptPart(old(data), data, old(user).Keys + held, old(user).Keys);
        SourcePage(old(tables), old(place), old(user), old(data), tables, place, user, data, r0, r1, es, i);
        var t := Find(r0, i);
        LeafFrom(tables, r0, i);
        var e := tables[t][i % 512];
        CopyPerm(e, i);
        NotMapped(tables, r1, i);
        MissingNow(old(tables), tables, r1, 0, i);
        NeedRises(old(tables), r1, 0, i + 1, Pages(sz));
        label before:
        var res;
        ghost var f;
        res, f := AddPage(r1, i, Flags(e), data[Frame(e)]);
        UsersStay(old(tables), old(place), old(user), old@before(tables), old@before(place), old@before(user), r1, 0,
                  es);
        KeptAgain(old(data), old@before(data), data, old(user).Keys + held, old@before(user).Keys + held);
        if res != Done {
          RootKept(old@before(tables), old@before(place), tables, place, r0);
          DropCopy(r1, i, old(tables), old(place), old(user), old(data), es, old@before(tables), old@before(place));
          return false, [];
        }
        ChangedRoot(old@before(tables), old@before(place), tables, place, r1, i, [Pte(f, Flags(e))], r0);
        KeptPart(old@before(data), data, old@before(user).Keys + held, old@before(user).Keys);
        FlagsFit(e);
        FlagsValid(e);
        PteParts(f, Flags(e));
        CopiedMore(old(tables), old(data), old(user), r0, es, old@before(data), old@before(user), data, user, f,
                   Pte(f, Flags(e)));
        AddedMore(old(tables), old(place), old(user), old@before(tables), old@before(place), old@before(user), tables,
                  place, user, r1, 0, es, Pte(f, Flags(e)), f);
        ContiguousMore(old@before(tables), old@before(place), tables, place, r1, i, Pte(f, Flags(e)));
        BuiltMore(old(tables), old@before(tables), tables, r1, 0, i);
        es := es + [Pte(f, Flags(e))];
        i := i + 1;
      }
      ok := true;
    }

    /** Frees t and all tables below it; no leaf may be left.  holes are the entries above that still hold a
        pointer to a table being freed. */
    method Freewalk(t: nat, ghost holes: set<(nat, nat)>) returns (ok: bool)
      requires Conserved(lo, free, place, user, held) && TreeBut(tables, place, holes) && t in place
      requires Loose(tables, place, holes, t) && NoLeaves(tables, place, place[t])
      requires (forall f :: f in user || f in held ==> f in data) && HolesAbove(place, holes, place[t])
      modifies this`free, this`tables, this`data, this`place, this`held
      ensures ok && Conserved(lo, free, place, user, held) && TreeBut(tables, place, holes) && held == old(held)
      ensures Freed(old(tables), old(place), tables, place, old(place)[t])
      ensures (forall f :: f in user || f in held ==> f in data) && DataKept(old(data), data, user.Keys + held)
      decreases place[t].level
    {
      hide Conserved, TreeBut, Left, Freed, NoLeaves, Loose, HolesAbove, V, Rd, Wr, Ex, Frame, Ptr, Sub, DataKept;
      ghost var p := place[t];
      WalkStart(tables, place, holes, t);
      KeptRefl(data, user.Keys + held);
      var i := 0;
      while i < 512
        invariant 0 <= i <= 512 && t in place && t in tables && place[t] == p && held == old(held)
        invariant Conserved(lo, free, place, user, held) && TreeBut(tables, place, holes)
        invariant Left(old(tables), old(place), tables, place, p, if p.level > 0 then i else 0)
        invariant Loose(tables, place, holes, t) && NoLeaves(tables, place, p) && HolesAbove(place, holes, p)
        invariant (forall f :: f in user || f in held ==> f in data) && DataKept(old(data), data, user.Keys + held)
      {
        var pte := tables[t][i];
        EntryCase(tables, place, holes, t, i);
        if V(pte) && !Rd(pte) && !Wr(pte) && !Ex(pte) {
          var child := Frame(pte);
          label before:
          var _ := Freewalk(child, holes + {(t, i)});
          ChildGone(old(tables), old(place), old@before(tables), old@before(place), tables, place, holes, p, i, t);
          KeptAgain(old(data), old@before(data), data, user.Keys + held, user.Keys + held);
          tables := tables[t := tables[t][i := 0]];
        } else if V(pte) {
          assert false;
        } else if p.level > 0 {
          NoChild(old(tables), old(place), tables, place, holes, t, i);
        }
        i := i + 1;
      }
      WalkEnd(old(tables), old(place), tables, place, holes, t);
      label before:
      TableToHeld(lo, free, place, user, held, t);
      InHand(lo, free, place - {t}, user, held + {t}, t);
      InRange(lo, free, place - {t}, user, held + {t}, t);
      GiveBack(lo, free, place - {t}, user, held + {t}, t);
      place := place - {t};
      tables := tables - {t};
      data := data[t := Fill(1)];
      free := [t] + free;
      assert held + {t} - {t} == held by {
        NotHeld(lo, old@before(free), old@before(place), user, held, t);
      }
      KeptPut(old(data), old@before(data), t, Fill(1), user.Keys + held);
      ok := true;
    }

    /** An empty page table; 0 when there is no page. */
    method Uvmcreate() returns (r: nat)
      requires Valid()
      modifies this`free, this`tables, this`data, this`place, this`held
      ensures Valid() && held == old(held) && DataKept(old(data), data, user.Keys + held)
      ensures r == 0 <==> old(free) == []
      ensures r == 0 ==> place == old(place) && tables == old(tables)
      ensures r != 0 ==> |free| == |old(free)| - 1 && forall v: nat :: v < MAXVPN ==> Missing(tables, r, v) == 2
      ensures r != 0 ==> r !in old(place) && place == old(place)[r := Place(r, 2, 0)] && NothingMapped(tables, r) && OthersSame(old(tables), old(place), tables, place, r)
    {
      hide Conserved, Tree, UserOk, Leaf, V, OthersSame, NothingMapped;
      r := Kalloc();
      if r == 0 {
        return;
      }
      InHand(lo, free, place, user, held, r);
      NewRoot(lo, free, tables, place, user, held, r);
      EmptyMisses(tables[r := Empty()], place[r := Place(r, 2, 0)], r);
      tables := tables[r := Empty()];
      place := place[r := Place(r, 2, 0)];
      held := held - {r};
      assert held == old(held);
    }

    /** Frees user memory and the page table; only user pages may still be mapped. */
    method Uvmfree(r: nat, sz: nat)
      requires Valid() && IsRoot(place, r) && Contiguous(tables, r, Pages(sz)) && !V(Leaf(tables, r, TRAPFRAME))
      requires !V(Leaf(tables, r, TRAMPOLINE))
      modifies this`free, this`tables, this`data, this`place, this`user, this`held
      ensures Valid() && held == old(held) && DataKept(old(data), data, user.Keys + held)
      ensures Gone(old(place), old(user), place, user, r) && OthersSame(old(tables), old(place), tables, place, r)
    {
      hide Conserved, DownOk, UpOk, LeavesOk, UserOk, Leaf, V, OthersSame, NothingMapped, Contiguous, Changed,
          DataKept, UsersGone, Gone, Freed;
      ghost var n := Pages(sz);
      MemoryBound(lo, free, tables, place, user, held, r, n);
      MappedBelow(tables, r, 0, n);
      NoneChanged(tables, place, r, 0, data, user.Keys + held);
      NoneGone(user, r, 0);
      if sz > 0 {
        Uvmunmap(r, 0, Pages(sz), true);
      }
      NothingLeft(old(tables), place, tables, place, r, n);
      ChangedOthers(old(tables), place, tables, place, r, 0, Zeros(n));
      UsersOfGone(old(tables), old(place), old(user), user, r, n);
      EmptyTree(tables, place, r);
      label before:
      var _ := Freewalk(r, {});
      FreedUsers(old@before(tables), old@before(place), user, tables, place, r);
      OthersTrans(old(tables), old(place), old@before(tables), old@before(place), tables, place, r);
      GoneAll(old@before(tables), old(place), old(user), tables, place, user, r);
      KeptAgain(old(data), old@before(data), data, user.Keys + held, user.Keys + held);
    }

    /** A page table with the trampoline and the process's trapframe page, and no user memory; 0, and everything
        as before, when memory runs out. */
    method ProcPagetable(trapframe: nat, trampoline: nat) returns (r: nat)
      requires Valid()
      modifies this`free, this`tables, this`data, this`place, this`user, this`held
      ensures Valid() && held == old(held) && user == old(user) && DataKept(old(data), data, user.Keys + held)
      ensures OthersSame(old(tables), old(place), tables, place, r)
      ensures r == 0 ==> place == old(place)
      ensures r != 0 <==> |old(free)| >= 3
      ensures r != 0 ==>
              r !in old(place) && IsRoot(place, r) && OnlyOf(old(place), place, r) && Contiguous(tables, r, 0)
      ensures r != 0 ==>
              Leaf(tables, r, TRAMPOLINE) == Pte(trampoline, 11) && Leaf(tables, r, TRAPFRAME) == Pte(trapframe, 7)
    {
      hide Conserved, Tree, UserOk, Leaf, V, U, Rd, Pte, Changed, DataKept, OthersSame, NothingMapped, Contiguous,
          Leaves, Gone, PermOk, OnlyOf, AllMapped, OrV, Built, Missing;
      KeptRefl(data, user.Keys + held);
      OthersRefl(tables, place, 0);
      r := Uvmcreate();
      if r == 0 {
        return;
      }
      NoRootLike(old(tables), old(place), user, r);
      EmptyNow(tables, r);
      SystemPerms();
      OnlyNew(old(place), r);
      label created:
      var res := MapPage(r, TRAMPOLINE, trampoline, 10);
      OnlyTrans(old(place), old@created(place), place, r);
      KeptAgain(old(data), old@created(data), data, user.Keys + held, user.Keys + held);
      if res != Done {
        StillEmpty(old@created(tables), old@created(place), tables, place, r, 0, []);
        OthersTrans(old(tables), old(place), old@created(tables), old@created(place), tables, place, r);
        Discard(r, old(tables), old(place), old(data));
        r := 0;
        return;
      }
      label first:
      SameTables(old@created(tables), tables, r);
      FirstMapped(old@created(tables), old@created(place), tables, place, r, Pte(trampoline, 11));
      OthersTrans(old(tables), old(place), old@created(tables), old@created(place), tables, place, r);
      res := MapPage(r, TRAPFRAME, trapframe, 6);
      OnlyTrans(old(place), old@first(place), place, r);
      KeptAgain(old(data), old@first(data), data, user.Keys + held, user.Keys + held);
      if res != Done {
        // the table for this page is there already
        assert false;
      }
      SecondMapped(old@first(tables), old@first(place), tables, place, r, Pte(trampoline, 11), Pte(trapframe, 7));
      OthersTrans(old(tables), old(place), old@first(tables), old@first(place), tables, place, r);
    }

    /** uvmfree of a page table that never mapped user memory. */
    method Discard(r: nat, ghost t0: Tables, ghost p0: Places, ghost d0: map<nat, Page>)
      requires Valid() && IsRoot(place, r) && NothingMapped(tables, r)
      requires r !in p0 && OnlyOf(p0, place, r) && (forall f :: f in p0 ==> p0[f].root != r)
      requires (forall f :: f in user ==> user[f].0 != r)
      requires OthersSame(t0, p0, tables, place, r) && DataKept(d0, data, user.Keys + held)
      modifies this`free, this`tables, this`data, this`place, this`user, this`held
      ensures Valid() && held == old(held) && user == old(user) && place == p0
      ensures DataKept(d0, data, user.Keys + held) && OthersSame(t0, p0, tables, place, 0)
    {
      hide Conserved, Tree, UserOk, Leaf, V, DataKept, OthersSame, NothingMapped, Contiguous, Gone;
      EmptySpace(tables, r);
      label before:
      Uvmfree(r, 0);
      NoTrace(p0, old(user), old(place), place, user, r);
      KeptAgain(d0, old@before(data), data, user.Keys + held, user.Keys + held);
      OthersTrans(t0, p0, old@before(tables), old@before(place), tables, place, r);
      OthersAll(t0, p0, tables, place, r);
    }

    /** Frees a process's page table and user memory: every page of it is back on the free list. */
    method ProcFreepagetable(r: nat, sz: nat)
      requires Valid() && IsRoot(place, r) && Contiguous(tables, r, Pages(sz)) && V(Leaf(tables, r, TRAMPOLINE))
      requires V(Leaf(tables, r, TRAPFRAME))
      modifies this`free, this`tables, this`data, this`place, this`user, this`held
      ensures Valid() && held == old(held) && DataKept(old(data), data, user.Keys + held)
      ensures Gone(old(place), old(user), place, user, r) && OthersSame(old(tables), old(place), tables, place, r)
      ensures forall f :: (f in old(place) && old(place)[f].root == r) || (f in old(user) && old(user)[f].0 == r) ==>
              f in free
    {
      hide Conserved, Tree, UserOk, Leaf, V, Changed, DataKept, OthersSame, Contiguous, Gone;
      OneMapped(tables, r, TRAMPOLINE);
      Uvmunmap(r, TRAMPOLINE, 1, false);
      label first:
      OneGone(old(tables), place, tables, place, r, TRAMPOLINE, TRAPFRAME, Pages(sz));
      OneMapped(tables, r, TRAPFRAME);
      Uvmunmap(r, TRAPFRAME, 1, false);
      label second:
      OneGone(old@first(tables), place, tables, place, r, TRAPFRAME, TRAMPOLINE, Pages(sz));
      OthersTrans(old(tables), place, old@first(tables), place, tables, place, r);
      KeptAgain(old(data), old@first(data), data, user.Keys + held, user.Keys + held);
      Uvmfree(r, sz);
      OthersTrans(old(tables), old(place), old@second(tables), old(place), tables, place, r);
      KeptLess(old(data), old@second(data), data, old(user).Keys + held, user.Keys + held) by {
        GoneFewer(old(place), old(user), place, user, r);
      }
      Returned(lo, old(free), old(place), old(user), free, place, user, held, r);
    }

    /** growproc: n bytes more, or -n fewer; a request for less than nothing changes nothing. */
    method Growproc(r: nat, sz: nat, n: int) returns (ok: bool, sz': nat)
      requires Valid() && IsRoot(place, r) && Contiguous(tables, r, Pages(sz)) && -0x8000_0000 <= n < 0x8000_0000
      modifies this`free, this`tables, this`data, this`place, this`user, this`held
      ensures Valid() && IsRoot(place, r) && held == old(held) && Contiguous(tables, r, Pages(sz'))
      ensures sz' == (if ok && sz + n >= 0 then sz + n else sz) && (n <= 0 ==> ok)
      ensures !ok ==> Leaves(old(tables), old(place), tables, place) && user == old(user)
      ensures ok <==> n <= 0 || |old(free)| >= Need(old(tables), r, Pages(sz), Pages(sz + n))
      ensures SameMemory(old(tables), old(place), old(data), tables, data, r, Pages(sz'))
      ensures ok && n > 0 ==> FreshMemory(tables, data, r, Pages(sz), Pages(sz'))
    {
      hide Conserved, Tree, UserOk, Leaf, V, U, Changed, DataKept, UsersGone, Contiguous, Added, ZeroPages, Leaves,
          Need, SameMemory, FreshMemory;
      MemoryBound(lo, free, tables, place, user, held, r, Pages(sz));
      ghost var m := Pages(sz);
      sz' := sz;
      ok := true;
      LeavesRefl(tables, place);
      KeptRefl(data, user.Keys);
      KeptMemory(tables, place, user, data, tables, place, data, r, m);
      if n > 0 {
        var res;
        ghost var es;
        res, es := Uvmalloc(r, sz, sz + n, 4);
        KeptPart(old(data), data, old(user).Keys + held, old(user).Keys);
        ok := res != 0;
        sz' := if ok then res else sz;
        if ok {
          MemoryBound(lo, free, tables, place, user, held, r, Pages(sz'));
          GrownMemory(old(tables), old(place), old(user), old(data), tables, place, user, data, r, m, es);
          FewerPages(old(tables), old(place), old(data), tables, data, r, m, Pages(sz'));
        } else {
          KeptMemory(old(tables), old(place), old(user), old(data), tables, place, data, r, m);
        }
      } else if n < 0 {
        // sz + n in 64 bits
        sz' := Uvmdealloc(r, sz, (sz + n + 0x1_0000_0000_0000_0000) % 0x1_0000_0000_0000_0000);
        KeptPart(old(data), data, user.Keys + held, user.Keys);
        ShrunkMemory(old(tables), place, old(user), old(data), tables, user, data, r, Pages(sz'), m - Pages(sz'));
      }
    }
  }
}
