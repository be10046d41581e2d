/** Admission and log-space reservation: begin_op, end_op and log_write of kernel/log.c.

    Operations are interleaved arbitrarily; each event below is one critical section
    under log.lock.  The disk side of commit() is in module CrashLog, which reuses
    this machine for the in-memory log header. */
module GroupCommit {
  import opened Prelude

  const LOGSIZE: nat := 3 * MAXOPBLOCKS

  /** blocks is lh.block[0..lh.n]; ops maps every operation between begin_op and end_op
      to the distinct blocks it has logged, so log.outstanding is |ops|. */
  datatype Group = Group(blocks: seq<nat>, ops: map<nat, set<nat>>, committing: bool)

  const Empty := Group([], map[], false)

  datatype Event =
    | Begin(t: nat)
    | Log(t: nat, b: nat)
    | End(t: nat)
    | Committed

  /** The events the code lets happen: begin_op sleeps while a commit runs or space is short,
      and each operation keeps to MAXOPBLOCKS distinct blocks. */
  ghost predicate Allowed(g: Group, e: Event) {
    match e
    case Begin(t) => t !in g.ops && !g.committing && |g.blocks| + (|g.ops| + 1) * MAXOPBLOCKS <= LOGSIZE
    case Log(t, b) => t in g.ops && |g.ops[t] + {b}| <= MAXOPBLOCKS
    case End(t) => t in g.ops
    case Committed => g.committing
  }

  /** The test log_write makes first; size is log.size. */
  predicate Full(size: int, blocks: seq<nat>) {
    |blocks| >= LOGSIZE || |blocks| >= size - 1
  }

  ghost predicate Panics(size: int, g: Group, e: Event) {
    (e.Log? && (Full(size, g.blocks) || |g.ops| < 1)) || (e.End? && g.committing)
  }

  function Absorb(blocks: seq<nat>, b: nat): seq<nat> {
    if b in blocks then blocks else blocks + [b]
  }

  function Next(g: Group, e: Event): Group {
    match e
    case Begin(t) => g.(ops := g.ops[t := {}])
    case Log(t, b) =>
      if t in g.ops then g.(blocks := Absorb(g.blocks, b), ops := g.ops[t := g.ops[t] + {b}]) else g
    case End(t) =>
      var rest := g.ops - {t};
      g.(ops := rest, committing := rest == map[])
    case Committed => g.(blocks := [], committing := false)
  }

  function Run(g: Group, es: seq<Event>): Group {
    if es == [] then g else Next(Run(g, es[..|es| - 1]), es[|es| - 1])
  }

  /** Every event of the run is allowed where it happens and none panics. */
  ghost predicate Legal(size: int, g: Group, es: seq<Event>) {
    es == [] ||
    (var before, e := es[..|es| - 1], es[|es| - 1];
     && Legal(size, g, before)
     && Allowed(Run(g, before), e)
     && !Panics(size, Run(g, before), e))
  }

  // ----- Reserved but unspent space -----

  ghost function Unspent(ops: map<nat, set<nat>>): int
    decreases |ops|
  {
    if |ops| == 0 then 0
    else var t :| t in ops; MAXOPBLOCKS - |ops[t]| + Unspent(ops - {t})
  }

  lemma {:induction false} UnspentRemove(ops: map<nat, set<nat>>, t: nat)
    requires t in ops
    ensures Unspent(ops) == MAXOPBLOCKS - |ops[t]| + Unspent(ops - {t})
    decreases |ops|
  {
    var u :| u in ops && Unspent(ops) == MAXOPBLOCKS - |ops[u]| + Unspent(ops - {u});
    if u != t {
      UnspentRemove(ops - {u}, t);
      UnspentRemove(ops - {t}, u);
      assert ops - {u} - {t} == ops - {t} - {u};
    }
  }

  lemma {:induction false} UnspentBounds(ops: map<nat, set<nat>>)
    requires forall t :: t in ops ==> |ops[t]| <= MAXOPBLOCKS
    ensures 0 <= Unspent(ops) <= MAXOPBLOCKS * |ops|
    decreases |ops|
  {
    if |ops| > 0 {
      var t :| t in ops && Unspent(ops) == MAXOPBLOCKS - |ops[t]| + Unspent(ops - {t});
      UnspentBounds(ops - {t});
    }
  }

  lemma UnspentUpdate(ops: map<nat, set<nat>>, t: nat, s: set<nat>)
    ensures Unspent(ops[t := s]) == MAXOPBLOCKS - |s| + Unspent(ops - {t})
  {
    UnspentRemove(ops[t := s], t);
    assert ops[t := s] - {t} == ops - {t};
  }

  ghost predicate Inv(g: Group) {
    && Distinct(g.blocks)
    && (forall t, b :: t in g.ops && b in g.ops[t] ==> b in g.blocks)
    && (forall t :: t in g.ops ==> |g.ops[t]| <= MAXOPBLOCKS)
    && (g.committing ==> g.ops == map[])
    && |g.blocks| + Unspent(g.ops) <= LOGSIZE
  }

  lemma LogKeepsSpace(g: Group, t: nat, b: nat)
    requires Inv(g) && Allowed(g, Log(t, b))
    ensures |Next(g, Log(t, b)).blocks| + Unspent(Next(g, Log(t, b)).ops) <= LOGSIZE
  {
    UnspentUpdate(g.ops, t, g.ops[t] + {b});
    UnspentRemove(g.ops, t);
    if b in g.ops[t] {
      assert g.ops[t] + {b} == g.ops[t];
    }
  }

  lemma BeginKeepsSpace(g: Group, t: nat)
    requires Inv(g) && Allowed(g, Begin(t))
    ensures |g.blocks| + Unspent(g.ops[t := {}]) <= LOGSIZE
  {
    UnspentBounds(g.ops);
    UnspentUpdate(g.ops, t, {});
    assert g.ops - {t} == g.ops;
  }

  lemma EndKeepsSpace(g: Group, t: nat)
    requires Inv(g) && t in g.ops
    ensures |g.blocks| + Unspent(g.ops - {t}) <= LOGSIZE
  {
    UnspentRemove(g.ops, t);
  }

  /** One critical section keeps the reservation invariant. */
  lemma StepKeepsInv(size: int, g: Group, e: Event)
    requires Inv(g) && Allowed(g, e) && !Panics(size, g, e)
    ensures Inv(Next(g, e))
  {
    hide Unspent;
    match e
    case Begin(t) => BeginKeepsSpace(g, t);
    case Log(t, b) => LogKeepsSpace(g, t, b);
    case End(t) => EndKeepsSpace(g, t);
    case Committed =>
  }

  /** Over every interleaving, the blocks in the log plus all unspent reservations fit in LOGSIZE,
      and nothing is outstanding while a commit runs. */
  lemma {:induction false} RunsKeepReservation(size: int, es: seq<Event>)
    requires Legal(size, Empty, es)
    ensures Inv(Run(Empty, es))
    decreases |es|
  {
    if es != [] {
      RunsKeepReservation(size, es[..|es| - 1]);
      StepKeepsInv(size, Run(Empty, es[..|es| - 1]), es[|es| - 1]);
    }
  }

  /** end_op never finds a commit in progress and no log_write can happen during one. */
  lemma NoLogWhileCommitting(size: int, es: seq<Event>, t: nat)
    requires Legal(size, Empty, es)
    requires Run(Empty, es).committing
    ensures forall b :: !Allowed(Run(Empty, es), Log(t, b))
    ensures !Allowed(Run(Empty, es), End(t))
  {
  }

  // ----- When "too big a transaction" can be reached -----

  /** With more than LOGSIZE log blocks, an operation that still has unspent reservation
      never meets the full-log panic, in any interleaving. */
  lemma ReservedNeverPanics(size: int, es: seq<Event>, t: nat, b: nat)
    requires size > LOGSIZE
    requires Legal(size, Empty, es)
    requires t in Run(Empty, es).ops && |Run(Empty, es).ops[t]| < MAXOPBLOCKS
    ensures !Panics(size, Run(Empty, es), Log(t, b))
  {
    var g := Run(Empty, es);
    RunsKeepReservation(size, es);
    UnspentRemove(g.ops, t);
    UnspentBounds(g.ops - {t});
    assert t in g.ops.Keys && |g.ops.Keys| >= 1;
  }

  /** Three operations start, then blocks 0, 1, ..., k-1 are logged, ten by each in turn. */
  function Fill(k: nat): (es: seq<Event>)
    ensures |es| == k + 3
  {
    if k == 0 then [Begin(0), Begin(1), Begin(2)] else Fill(k - 1) + [Log((k - 1) / MAXOPBLOCKS, k - 1)]
  }

  /** The state Fill(k) leads to: blocks 0..k-1 are logged, block i by operation i / 10. */
  ghost predicate Filled(g: Group, k: nat) {
    && !g.committing
    && |g.blocks| == k && (forall i :: 0 <= i < k ==> g.blocks[i] == i)
    && g.ops.Keys == {0, 1, 2}
    && (forall t, i :: t in g.ops && i in g.ops[t] ==> i < k && i / MAXOPBLOCKS == t)
    && (forall t :: t in g.ops ==> |g.ops[t]| == Spent(t, k))
  }

  function Spent(t: nat, k: nat): nat {
    if k <= 10 * t then 0 else if k < 10 * t + 10 then k - 10 * t else 10
  }

  lemma RunAppend(size: int, g: Group, es: seq<Event>, e: Event)
    ensures Run(g, es + [e]) == Next(Run(g, es), e)
    ensures Legal(size, g, es + [e]) <==>
              Legal(size, g, es) && Allowed(Run(g, es), e) && !Panics(size, Run(g, es), e)
  {
  }

  lemma FillStart(size: int)
    ensures Legal(size, Empty, Fill(0)) && Filled(Run(Empty, Fill(0)), 0)
  {
    RunAppend(size, Empty, [], Begin(0));
    RunAppend(size, Empty, [Begin(0)], Begin(1));
    RunAppend(size, Empty, [Begin(0), Begin(1)], Begin(2));
    assert [] + [Begin(0)] == [Begin(0)];
    assert [Begin(0)] + [Begin(1)] == [Begin(0), Begin(1)];
    assert [Begin(0), Begin(1)] + [Begin(2)] == Fill(0);
  }

  /** The k-th logged block is charged to operation k / MAXOPBLOCKS and to no other. */
  lemma SpentStep(k: nat)
    requires k < LOGSIZE
    ensures k / MAXOPBLOCKS < 3 && Spent(k / MAXOPBLOCKS, k) < MAXOPBLOCKS
    ensures forall t: nat :: t < 3 ==> Spent(t, k + 1) == Spent(t, k) + if t == k / MAXOPBLOCKS then 1 else 0
  {
  }

  lemma FilledStep(g: Group, k: nat)
    requires k < LOGSIZE && Filled(g, k)
    ensures Allowed(g, Log(k / MAXOPBLOCKS, k)) && k !in g.blocks
    ensures Filled(Next(g, Log(k / MAXOPBLOCKS, k)), k + 1)
  {
    hide Spent;
    var t := k / MAXOPBLOCKS;
    SpentStep(k);
    assert t in g.ops && k !in g.ops[t] && |g.ops[t] + {k}| == |g.ops[t]| + 1;
  }

  lemma {:induction false} FillRuns(size: int, k: nat)
    requires k <= LOGSIZE && (k == 0 || k <= size - 1)
    ensures Legal(size, Empty, Fill(k)) && Filled(Run(Empty, Fill(k)), k)
    decreases k
  {
    if k == 0 {
      FillStart(size);
    } else {
      FillRuns(size, k - 1);
      FillMore(size, Fill(k - 1), k - 1);
    }
  }

  lemma FillMore(size: int, es: seq<Event>, k: nat)
    requires k < LOGSIZE && k < size - 1
    requires Legal(size, Empty, es) && Filled(Run(Empty, es), k)
    ensures Legal(size, Empty, es + [Log(k / MAXOPBLOCKS, k)])
    ensures Filled(Run(Empty, es + [Log(k / MAXOPBLOCKS, k)]), k + 1)
  {
    RunAppend(size, Empty, es, Log(k / MAXOPBLOCKS, k));
    FilledStep(Run(Empty, es), k);
    assert |Run(Empty, es).ops.Keys| == 3;
  }

  /** The bound on log.size is exact: with at most LOGSIZE log blocks (mkfs writes nlog == LOGSIZE)
      some interleaving makes an operation with unspent reservation panic. */
  lemma SmallLogPanics(size: int) returns (es: seq<Event>, t: nat, b: nat)
    requires size <= LOGSIZE
    ensures Legal(size, Empty, es)
    ensures Allowed(Run(Empty, es), Log(t, b))
    ensures |Run(Empty, es).ops[t]| < MAXOPBLOCKS && b !in Run(Empty, es).blocks
    ensures Panics(size, Run(Empty, es), Log(t, b))
  {
    var k := if size <= 1 then 0 else size - 1;
    es, t, b := Fill(k), k / MAXOPBLOCKS, k;
    FillRuns(size, k);
    FilledStep(Run(Empty, es), k);
  }

  lemma FullSet(s: set<nat>)
    requires |s| == 10 && forall i :: i in s ==> i < 10
    ensures 0 in s
  {
    if 0 !in s {
      var bound: set<nat> := {1, 2, 3, 4, 5, 6, 7, 8, 9};
      assert s <= bound;
      SubsetSize(s, bound);
    }
  }

  /** The panic is tested before absorption: however large the log, an operation that only rewrites
      a block it already logged can meet it, once every reservation is spent on distinct blocks. */
  lemma AbsorbedWriteCanPanic(size: int) returns (es: seq<Event>, t: nat, b: nat)
    requires size > LOGSIZE
    ensures Legal(size, Empty, es)
    ensures Allowed(Run(Empty, es), Log(t, b)) && b in Run(Empty, es).ops[t]
    ensures Panics(size, Run(Empty, es), Log(t, b))
  {
    es, t, b := Fill(LOGSIZE), 0, 0;
    FillRuns(size, LOGSIZE);
    var mine := Run(Empty, es).ops[0];
    FullSet(mine);
    assert mine + {0} == mine;
  }

  /** Exactly when it happens: with size > LOGSIZE an allowed log_write panics if and only if
      LOGSIZE distinct blocks are logged, and then nothing is left unspent by anybody. */
  lemma PanicExactly(size: int, es: seq<Event>, t: nat, b: nat)
    requires size > LOGSIZE
    requires Legal(size, Empty, es) && Allowed(Run(Empty, es), Log(t, b))
    ensures Panics(size, Run(Empty, es), Log(t, b)) <==> |Run(Empty, es).blocks| == LOGSIZE
    ensures Panics(size, Run(Empty, es), Log(t, b)) ==>
              forall u :: u in Run(Empty, es).ops ==> |Run(Empty, es).ops[u]| == MAXOPBLOCKS
  {
    var g := Run(Empty, es);
    RunsKeepReservation(size, es);
    UnspentBounds(g.ops);
    assert t in g.ops.Keys && |g.ops.Keys| >= 1;
    if Panics(size, g, Log(t, b)) {
      forall u | u in g.ops
        ensures |g.ops[u]| == MAXOPBLOCKS
      {
        UnspentRemove(g.ops, u);
        UnspentBounds(g.ops - {u});
      }
    }
  }
}
