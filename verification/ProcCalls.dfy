/** What wait(), kill() and wakeup() of kernel/proc.c promise their callers, over the runs of module Proc. */
module ProcCalls {
  import opened Prelude
  import opened Proc

  // ----- wait(): havekids -----

  /** Some slot before k belongs to a child of i. */
  predicate HasChild(parent: seq<Option<nat>>, i: nat, k: nat) {
    exists j :: 0 <= j < |parent| && j < k && parent[j] == Some(i)
  }

  /** While it holds wait_lock, wait's flag tells whether there is a child so far; and whoever goes to sleep, or
      sleeps, in wait has a child. */
  predicate FlagOk(pc: Pc, parent: seq<Option<nat>>, i: nat) {
    match pc
    case WaitScan(k, kids) => kids <==> HasChild(parent, i, k)
    case WaitDecide(kids) => kids <==> HasChild(parent, i, NPROC)
    case WaitStay => HasChild(parent, i, NPROC)
    case WaitLock => HasChild(parent, i, NPROC)
    case WaitSet => HasChild(parent, i, NPROC)
    case WaitSleep => HasChild(parent, i, NPROC)
    case _ => true
  }

  /** fork has not set the new process's parent yet. */
  predicate Unborn(pc: Pc, parent: seq<Option<nat>>) {
    (pc.Fork2? || pc.Fork3?) && pc.np < |parent| ==> parent[pc.np] == None
  }

  predicate PointOk(pc: Pc, parent: seq<Option<nat>>, i: nat) { FlagOk(pc, parent, i) && Unborn(pc, parent) }

  ghost predicate KidsOk(s: Sys) { Shape(s) && forall i :: 0 <= i < NPROC ==> PointOk(s.pc[i], s.parent, i) }

  /** A point that promises nothing about parents. */
  predicate Silent(pc: Pc) {
    !(pc.WaitScan? || pc.WaitDecide? || pc.WaitStay? || pc.WaitLock? || pc.WaitSet? || pc.WaitSleep?)
    && !pc.Fork2? && !pc.Fork3?
  }

  predicate Moves(s: Sys, n: Sys, i: nat) {
    && Shape(s) && Shape(n) && i < NPROC
    && forall x :: 0 <= x < NPROC && x != i ==> n.pc[x] == s.pc[x] || Silent(n.pc[x])
  }

  lemma KidsMove(s: Sys, n: Sys, i: nat)
    requires KidsOk(s) && Moves(s, n, i) && n.parent == s.parent && PointOk(n.pc[i], n.parent, i)
    ensures KidsOk(n)
  {
    hide FlagOk, Unborn;
    forall x | 0 <= x < NPROC
      ensures PointOk(n.pc[x], n.parent, x)
    {
      if x != i && n.pc[x] != s.pc[x] {
        SilentOk(n.pc[x], n.parent, x);
      }
    }
  }

  lemma SilentOk(pc: Pc, parent: seq<Option<nat>>, i: nat)
    requires Silent(pc)
    ensures PointOk(pc, parent, i)
  {
  }

  /** Under wait_lock, thread i changes the parent of a slot that has none or is its own child. */
  lemma KidsParent(s: Sys, n: Sys, i: nat, k: nat, v: Option<nat>)
    requires KidsOk(s) && Moves(s, n, i) && k < NPROC && n.parent == s.parent[k := v]
    requires s.parent[k] == None || s.parent[k] == Some(i)
    requires forall x :: 0 <= x < NPROC && HoldsWait(s.pc[x]) ==> x == i
    requires forall x :: 0 <= x < NPROC && x != i ==> Making(s.pc[x]) != Some(k)
    requires Silent(n.pc[i])
    ensures KidsOk(n)
  {
    hide FlagOk, Unborn;
    forall x | 0 <= x < NPROC
      ensures PointOk(n.pc[x], n.parent, x)
    {
      if x == i || n.pc[x] != s.pc[x] {
        SilentOk(n.pc[x], n.parent, x);
      } else {
        assert PointOk(s.pc[x], s.parent, x);
        OthersParent(s.pc[x], s.parent, x, i, k, v);
      }
    }
  }

  lemma OthersParent(pc: Pc, parent: seq<Option<nat>>, x: nat, i: nat, k: nat, v: Option<nat>)
    requires |parent| == NPROC && k < NPROC && x != i && (parent[k] == None || parent[k] == Some(i))
    requires PointOk(pc, parent, x) && !HoldsWait(pc) && Making(pc) != Some(k)
    ensures PointOk(pc, parent[k := v], x)
  {
    if HasChild(parent, x, NPROC) {
      var j :| 0 <= j < |parent| && j < NPROC && parent[j] == Some(x);
      assert parent[k := v][j] == Some(x);
    }
  }

  lemma ForkKids(s: Sys, i: nat, f: ForkStep)
    requires Inv(s) && KidsOk(s) && CanFork(s, i, f)
    ensures KidsOk(DoFork(s, i, f))
  {
    hide Inv, KidsOk, HasChild;
    var n := DoFork(s, i, f);
    PointAt(s, i);
    if Making(s.pc[i]).Some? {
      UnbornFacts(s, i);
    }
    if f == SetParent {
      SoleWaiter(s, i);
      KidsParent(s, n, i, s.pc[i].np, Some(i));
    } else {
      assert n.parent == s.parent;
      KidsMove(s, n, i);
    }
  }

  lemma PointAt(s: Sys, i: nat)
    requires KidsOk(s) && i < NPROC
    ensures Shape(s) && PointOk(s.pc[i], s.parent, i)
  {
  }

  lemma UnbornFacts(s: Sys, i: nat)
    requires Inv(s) && i < NPROC && Making(s.pc[i]).Some?
    ensures var np := Making(s.pc[i]).value;
      && np < NPROC && (s.pc[i].Fork1? ==> s.parent[np] == None)
      && forall x :: 0 <= x < NPROC && x != i ==> Making(s.pc[x]) != Some(np)
  {
    hide LocksOk, WaitLockOk, RunOk, StatesOk, WaitOk, IdsOk;
    Clauses(s);
  }

  lemma ExitKids(s: Sys, i: nat, e: ExitStep)
    requires Inv(s) && KidsOk(s) && CanExit(s, i, e)
    ensures KidsOk(DoExit(s, i, e))
  {
    hide Inv, KidsOk, HasChild;
    var n := DoExit(s, i, e);
    if e == ReparentOne && s.pc[i].k < NPROC && s.parent[s.pc[i].k] == Some(i) {
      SoleWaiter(s, i);
      ChildNotMade(s, i, s.pc[i].k);
      KidsParent(s, n, i, s.pc[i].k, Some(INIT));
    } else {
      KidsMove(s, n, i);
    }
  }

  /** A process with a parent is not being built by another thread. */
  lemma ChildNotMade(s: Sys, i: nat, k: nat)
    requires Inv(s) && KidsOk(s) && i < NPROC && k < NPROC && s.parent[k] == Some(i)
    ensures forall x :: 0 <= x < NPROC && x != i ==> Making(s.pc[x]) != Some(k)
  {
    hide Inv, KidsOk;
    PointAt(s, i);
    forall x | 0 <= x < NPROC && x != i
      ensures Making(s.pc[x]) != Some(k)
    {
      if Making(s.pc[x]) == Some(k) {
        PointAt(s, x);
        UnbornFacts(s, x);
        if s.pc[x].Fork4? {
          PublishedBy(s, x);
        }
      }
    }
  }

  lemma PublishedBy(s: Sys, x: nat)
    requires Inv(s) && x < NPROC && s.pc[x].Fork4? && s.pc[x].np < NPROC
    ensures s.parent[s.pc[x].np] == Some(x)
  {
    hide LocksOk, WaitLockOk, RunOk, StatesOk, MakersOk, WaitOk, IdsOk;
    Clauses(s);
  }

  lemma WaitKids(s: Sys, i: nat, t: WaitStep)
    requires Inv(s) && KidsOk(s) && CanWait(s, i, t)
    ensures KidsOk(DoWait(s, i, t))
  {
    hide Inv, KidsOk;
    PointAt(s, i);
    var n := DoWait(s, i, t);
    match t {
      case Look =>
        KidsLook(s, i);
      case Reap =>
        ReapFacts(s, i);
        ChildAt(s, i);
        KidsParent(s, n, i, s.pc[i].k, None);
      case NotYet =>
        ChildAt(s, i);
        assert HasChild(n.parent, i, s.pc[i].k + 1);
        KidsMove(s, n, i);
      case _ =>
        KidsMove(s, n, i);
    }
  }

  lemma KidsLook(s: Sys, i: nat)
    requires KidsOk(s) && CanLook(s, i)
    ensures KidsOk(DoLook(s, i))
  {
    hide KidsOk, HasChild;
    PointAt(s, i);
    var w, n := s.pc[i], DoLook(s, i);
    ChildMore(s.parent, i, w.k);
    KidsMove(s, n, i);
  }

  lemma ChildMore(parent: seq<Option<nat>>, i: nat, k: nat)
    requires |parent| == NPROC
    ensures k >= NPROC ==> (HasChild(parent, i, k) <==> HasChild(parent, i, NPROC))
    ensures k < NPROC && parent[k] != Some(i) ==> (HasChild(parent, i, k + 1) <==> HasChild(parent, i, k))
  {
  }

  lemma ChildAt(s: Sys, i: nat)
    requires Inv(s) && AtChild(s, i)
    ensures s.parent[s.pc[i].k] == Some(i)
  {
    hide LocksOk, WaitLockOk, RunOk, StatesOk, MakersOk, WaitOk, IdsOk;
    Clauses(s);
  }

  lemma OtherKids(s: Sys, a: Action)
    requires KidsOk(s) && Enabled(s, a) && !a.Forks? && !a.Exits? && !a.Waits?
    ensures KidsOk(Next(s, a))
  {
    hide KidsOk, HasChild;
    var i := if a.Switches? || a.Wakes? then a.i else 0;
    PointAt(s, i);
    KidsMove(s, Next(s, a), i);
  }

  lemma StepKeepsKids(s: Sys, a: Action)
    requires Inv(s) && KidsOk(s) && Enabled(s, a)
    ensures KidsOk(Next(s, a))
  {
    hide Inv, KidsOk;
    match a
    case Forks(i, f) => ForkKids(s, i, f);
    case Exits(i, e) => ExitKids(s, i, e);
    case Waits(i, t) => WaitKids(s, i, t);
    case _ => OtherKids(s, a);
  }

  lemma {:induction false} RunsKeepKids(s: Sys, acts: seq<Action>, r: Sys)
    requires Inv(s) && KidsOk(s) && Leads(s, acts, r)
    ensures Inv(r) && KidsOk(r)
    decreases |acts|
  {
    hide Inv, KidsOk, Enabled, Next;
    if acts != [] {
      StepKeepsInv(s, acts[0]);
      StepKeepsKids(s, acts[0]);
      RunsKeepKids(Next(s, acts[0]), acts[1..], r);
    }
  }

  lemma ReachableKids(s: Sys)
    requires Reachable(s)
    ensures KidsOk(s)
  {
    hide Inv, KidsOk, Enabled, Next, Booted;
    var acts :| Leads(Booted(), acts, s);
    BootedOk();
    BootedIs();
    BootedKids(Booted());
    RunsKeepKids(Booted(), acts, s);
  }

  lemma BootedKids(s: Sys)
    requires JustBooted(s)
    ensures KidsOk(s)
  {
    forall i | 0 <= i < NPROC
      ensures PointOk(s.pc[i], s.parent, i)
    {
      SilentOk(s.pc[i], s.parent, i);
    }
  }

  /** In every reachable state the havekids of a wait() in progress tells whether the caller has a child among the
      slots it has looked at, of all children once the scan is over; and no process sleeps in wait() without one. */
  lemma WaitKnowsChildren(s: Sys, i: nat)
    requires Reachable(s) && i < NPROC
    ensures Shape(s)
    ensures s.pc[i].WaitScan? ==>
              (s.pc[i].kids <==> exists j :: 0 <= j < NPROC && j < s.pc[i].k && s.parent[j] == Some(i))
    ensures s.pc[i].WaitDecide? ==> (s.pc[i].kids <==> exists j :: 0 <= j < NPROC && s.parent[j] == Some(i))
    ensures Asleep(s.pc[i], s.st[i]) ==> exists j :: 0 <= j < NPROC && s.parent[j] == Some(i)
  {
    hide Reachable;
    ReachableKids(s);
    PointAt(s, i);
  }

  /** Having scanned, wait() returns -1 exactly when the caller has no child or is killed, and otherwise goes on to
      sleep. */
  lemma WaitEndsExactly(s: Sys, i: nat)
    requires Reachable(s) && Running(s, i) && s.pc[i].WaitDecide? && s.lock[i] == Free
    ensures CanWaitEnd(s, i) <==> s.killed[i] || forall j :: 0 <= j < NPROC ==> s.parent[j] != Some(i)
    ensures CanStay(s, i) <==> !CanWaitEnd(s, i)
  {
    hide Reachable;
    WaitKnowsChildren(s, i);
  }

  // ----- A run in which init sleeps in wait -----

  /** init runs on CPU 0, holding no process lock; slot 1 may be its child, and there is no other. */
  ghost predicate Alone(s: Sys, pc: Pc, st: PState, child: bool, waiting: bool) {
    && Shape(s) && s.pc[0] == pc && s.sw[0] == On && s.on[0] == Some(0) && s.lock[0] == Free && s.lock[1] == Free
    && s.st[1] == st && !s.killed[0] && s.waitLock == (if waiting then Some(0) else None)
    && s.parent[1] == (if child then Some(0) else None)
    && forall j :: 0 <= j < NPROC && j != 1 ==> s.parent[j] == None
  }

  lemma InitUp() returns (s: Sys)
    ensures Reachable(s) && Alone(s, Run, UNUSED, false, false)
  {
    hide Reachable;
    BootedIs();
    BootedReachable();
    assert !Booted().killed[0];
    s := Go(Booted(), Schedules(0, Test(0)));
    s := Go(s, Schedules(0, Dispatch));
    s := Go(s, Switches(0, ReleaseSelf));
  }

  lemma InitForks() returns (s: Sys)
    ensures Reachable(s) && Alone(s, Run, RUNNABLE, true, false)
  {
    hide Reachable, Booted;
    s := InitUp();
    s := Go(s, Forks(0, Alloc(1)));
    s := Go(s, Forks(0, Build));
    s := Go(s, Forks(0, ForkLock));
    s := Go(s, Forks(0, SetParent));
    s := Go(s, Forks(0, Publish));
  }

  lemma {:induction false} ScanOn(s: Sys, k: nat) returns (n: Sys)
    requires Reachable(s) && 2 <= k <= NPROC && Alone(s, WaitScan(k, true), RUNNABLE, true, true)
    ensures Reachable(n) && Alone(n, WaitScan(NPROC, true), RUNNABLE, true, true)
    decreases NPROC - k
  {
    hide Reachable, Booted;
    n := s;
    if k < NPROC {
      n := Go(s, Waits(0, Look));
      n := ScanOn(n, k + 1);
    }
  }

  lemma InitScans() returns (s: Sys)
    ensures Reachable(s) && Alone(s, WaitDecide(true), RUNNABLE, true, true)
  {
    hide Reachable, Booted;
    s := InitForks();
    s := Go(s, Waits(0, WaitStart));
    s := Go(s, Waits(0, Look));
    s := Go(s, Waits(0, Look));
    s := Go(s, Waits(0, NotYet));
    s := ScanOn(s, 2);
    s := Go(s, Waits(0, Look));
  }

  /** init forks and calls wait(): it is asleep there while its child is still to run. */
  lemma InitSleepsInWait() returns (s: Sys)
    ensures Reachable(s) && Shape(s) && s.pc[0] == WaitSleep && s.st[0] == SLEEPING && s.sw[0] == Off
    ensures s.waitLock == None && s.parent[1] == Some(0) && s.st[1] == RUNNABLE
  {
    hide Reachable, Booted;
    s := InitScans();
    s := Go(s, Waits(0, Stay));
    s := Go(s, Waits(0, WaitStop));
    s := Go(s, Waits(0, WaitUnlock));
    s := Go(s, Waits(0, SetSleeping));
    s := Go(s, Switches(0, SwitchOut));
  }

  // ----- Threads inside kill() and wakeup() -----

  /** In one of the two loops over the table. */
  predicate InLoop(pc: Pc) { pc.Killing? || pc.Waking? }

  /** What a step that is not one of kill, wakeup or exit leaves alone: threads in one of the loops, exit statuses,
      and pids, which are never given out again. */
  predicate Framed(s: Sys, n: Sys) {
    && Shape(s) && Shape(n) && n.exited == s.exited && s.nextpid <= n.nextpid
    && forall x :: 0 <= x < NPROC ==>
         && (InLoop(n.pc[x]) ==> n.pc[x] == s.pc[x])
         && (n.pid[x] == s.pid[x] || n.pid[x] == 0 || n.pid[x] >= s.nextpid)
  }

  lemma SwitchFramed(s: Sys, i: nat, w: SwitchStep)
    requires CanSwitch(s, i, w)
    ensures Framed(s, DoSwitch(s, i, w))
  {
  }

  lemma ForkFramed(s: Sys, i: nat, f: ForkStep)
    requires CanFork(s, i, f)
    ensures Framed(s, DoFork(s, i, f))
  {
  }

  lemma WaitFramed(s: Sys, i: nat, t: WaitStep)
    requires CanWait(s, i, t)
    ensures Framed(s, DoWait(s, i, t))
  {
  }

  lemma StepFramed(s: Sys, a: Action)
    requires Enabled(s, a) && Shape(s) && !a.Wakes? && !a.Exits?
    ensures Framed(s, Next(s, a))
  {
    hide DoSwitch, DoFork, DoWait;
    match a
    case Switches(i, w) => SwitchFramed(s, i, w);
    case Forks(i, f) => ForkFramed(s, i, f);
    case Waits(i, t) => WaitFramed(s, i, t);
    case _ =>
  }

  // ----- kill() -----

  /** kill(pid) that comes to a slot with this pid marks the one process that has it, and lets it run if it
      sleeps; nothing else changes. */
  lemma KillMarksOne(s: Sys, i: nat)
    requires Inv(s) && CanKillOne(s, i) && s.pc[i].j < NPROC && s.pid[s.pc[i].j] == s.pc[i].pid != 0
    ensures var j := s.pc[i].j; var n := DoKillOne(s, i);
      && s.st[j] != UNUSED && (forall x :: 0 <= x < NPROC && s.pid[x] == s.pc[i].pid ==> x == j)
      && n.killed[j] && n.st[j] != SLEEPING && (s.st[j] == SLEEPING ==> n.st[j] == RUNNABLE)
      && n == s.(killed := s.killed[j := true], pc := s.pc[i := Run],
                 st := s.st[j := if s.st[j] == SLEEPING then RUNNABLE else s.st[j]])
  {
    hide LocksOk, WaitLockOk, RunOk, StatesOk, MakersOk, FamilyOk, WaitOk;
    Clauses(s);
  }

  predicate InKill(s: Sys, i: nat, pid: nat) { At(s, i) && s.pc[i].Killing? && s.pc[i].pid == pid }

  /** Thread i is in the same kill(pid) all along the run. */
  ghost predicate KillsAlong(s: Sys, acts: seq<Action>, i: nat, pid: nat)
    decreases |acts|
  {
    InKill(s, i, pid) && (acts != [] ==> Enabled(s, acts[0]) && KillsAlong(Next(s, acts[0]), acts[1..], i, pid))
  }

  /** The slots kill has passed do not have the pid. */
  ghost predicate Passed(s: Sys, i: nat, pid: nat) {
    InKill(s, i, pid) && pid < s.nextpid && forall x :: 0 <= x < NPROC && x < s.pc[i].j ==> s.pid[x] != pid
  }

  lemma StepKeepsPassed(s: Sys, a: Action, i: nat, pid: nat)
    requires Passed(s, i, pid) && pid != 0 && Enabled(s, a) && InKill(Next(s, a), i, pid)
    ensures Passed(Next(s, a), i, pid)
  {
    if !a.Wakes? && !a.Exits? {
      hide Enabled, Next;
      StepFramed(s, a);
    }
  }

  lemma {:induction false} RunsKeepPassed(s: Sys, acts: seq<Action>, r: Sys, i: nat, pid: nat)
    requires Passed(s, i, pid) && pid != 0 && Leads(s, acts, r) && KillsAlong(s, acts, i, pid)
    ensures Passed(r, i, pid)
    decreases |acts|
  {
    hide Passed, Enabled, Next, InKill;
    if acts != [] {
      StepKeepsPassed(s, acts[0], i, pid);
      RunsKeepPassed(Next(s, acts[0]), acts[1..], r, i, pid);
    }
  }

  /** kill(pid), from the call in s to the step in r by which it returns without having found the pid: then no
      process has it.  A pid not given out before the call may be missed. */
  lemma KillMissesNone(s: Sys, acts: seq<Action>, r: Sys, i: nat, pid: nat)
    requires Running(s, i) && s.pc[i] == Run && 0 < pid < s.nextpid
    requires var n := DoKillStart(s, i, pid); Leads(n, acts, r) && KillsAlong(n, acts, i, pid)
    requires CanKillOne(r, i) && DoKillOne(r, i).pc[i] == Run && !KillHits(r, Wakes(i, KillOne))
    ensures forall x :: 0 <= x < NPROC ==> r.pid[x] != pid
  {
    hide Leads, KillsAlong;
    RunsKeepPassed(DoKillStart(s, i, pid), acts, r, i, pid);
  }

  // ----- kill(0) -----

  /** kill has found a slot with the pid it looks for. */
  predicate KillHits(s: Sys, a: Action) {
    && a.Wakes? && a.k.KillOne? && CanKillOne(s, a.i) && s.pc[a.i].j < NPROC && s.pid[s.pc[a.i].j] == s.pc[a.i].pid
  }

  ghost predicate FreeUnkilled(s: Sys) { Shape(s) && forall j :: 0 <= j < NPROC && s.st[j] == UNUSED ==> !s.killed[j] }

  /** A free slot gets marked exactly by a kill that looks for pid 0 and has found one: free slots have that pid. */
  lemma KillMarksFreeExactly(s: Sys, a: Action)
    requires Inv(s) && Enabled(s, a) && FreeUnkilled(s)
    ensures FreeUnkilled(Next(s, a)) <==> !(KillHits(s, a) && s.pc[a.i].pid == 0)
  {
    hide LocksOk, WaitLockOk, RunOk, StatesOk, MakersOk, FamilyOk, WaitOk;
    if a.Wakes? && a.k.KillOne? {
      KillOneMarks(s, a.i);
    } else {
      OthersMark(s, a);
    }
  }

  lemma KillOneMarks(s: Sys, i: nat)
    requires Inv(s) && CanKillOne(s, i) && FreeUnkilled(s)
    ensures FreeUnkilled(DoKillOne(s, i)) <==> !(KillHits(s, Wakes(i, KillOne)) && s.pc[i].pid == 0)
  {
    hide LocksOk, WaitLockOk, RunOk, StatesOk, MakersOk, FamilyOk, WaitOk;
    Clauses(s);
    if KillHits(s, Wakes(i, KillOne)) {
      var j := s.pc[i].j;
      assert DoKillOne(s, i).killed[j];
    }
  }

  lemma OthersMark(s: Sys, a: Action)
    requires Inv(s) && Enabled(s, a) && FreeUnkilled(s) && !(a.Wakes? && a.k.KillOne?)
    ensures FreeUnkilled(Next(s, a))
  {
    hide LocksOk, WaitLockOk, RunOk, StatesOk, MakersOk, FamilyOk, WaitOk, IdsOk;
    Clauses(s);
  }

  /** Nobody is in kill(0), and no free slot is marked. */
  ghost predicate Unmarked(s: Sys) {
    FreeUnkilled(s) && forall i :: 0 <= i < NPROC && s.pc[i].Killing? ==> s.pc[i].pid != 0
  }

  predicate IsKillZero(a: Action) { a.Wakes? && a.k == KillStart(0) }

  /** Only KillStart brings a thread into kill, for the pid it is given. */
  lemma KillersKeep(s: Sys, a: Action)
    requires Shape(s) && Enabled(s, a) && !(a.Wakes? && a.k.KillStart?)
    ensures var n := Next(s, a);
      forall i :: 0 <= i < NPROC && n.pc[i].Killing? ==> s.pc[i].Killing? && n.pc[i].pid == s.pc[i].pid
  {
    if !a.Wakes? && !a.Exits? {
      hide Enabled, Next;
      StepFramed(s, a);
    }
  }

  lemma StepKeepsUnmarked(s: Sys, a: Action)
    requires Inv(s) && Enabled(s, a) && Unmarked(s) && !IsKillZero(a)
    ensures Unmarked(Next(s, a))
  {
    hide LocksOk, WaitLockOk, RunOk, StatesOk, MakersOk, FamilyOk, WaitOk, IdsOk, FreeUnkilled, Enabled, Next;
    Clauses(s);
    assert FreeUnkilled(Next(s, a)) by {
      if a.Wakes? && a.k.KillOne? {
        KillOneStep(s, a);
      } else {
        OthersMark(s, a);
      }
    }
    if a.Wakes? && a.k.KillStart? {
      KillStarts(s, a);
    } else {
      KillersKeep(s, a);
    }
  }

  lemma KillStarts(s: Sys, a: Action)
    requires Enabled(s, a) && a.Wakes? && a.k.KillStart?
    ensures Shape(s) && a.i < NPROC && Next(s, a).pc == s.pc[a.i := Killing(a.k.pid, 0)]
  {
  }

  lemma KillOneStep(s: Sys, a: Action)
    requires Inv(s) && Enabled(s, a) && a.Wakes? && a.k.KillOne? && Unmarked(s)
    ensures FreeUnkilled(Next(s, a))
  {
    hide LocksOk, WaitLockOk, RunOk, StatesOk, MakersOk, FamilyOk, WaitOk, IdsOk, FreeUnkilled;
    Clauses(s);
    KillOneMarks(s, a.i);
  }

  lemma {:induction false} RunsKeepUnmarked(s: Sys, acts: seq<Action>, r: Sys)
    requires Inv(s) && Unmarked(s) && Leads(s, acts, r) && forall a :: a in acts ==> !IsKillZero(a)
    ensures Inv(r) && Unmarked(r)
    decreases |acts|
  {
    hide Inv, Enabled, Next, Unmarked;
    if acts != [] {
      assert acts[0] in acts;
      StepKeepsInv(s, acts[0]);
      StepKeepsUnmarked(s, acts[0]);
      RunsKeepUnmarked(Next(s, acts[0]), acts[1..], r);
    }
  }

  /** Without a kill(0), a new process starts unkilled, although allocproc does not clear the mark. */
  lemma StartsUnkilled(acts: seq<Action>, s: Sys, i: nat, np: nat)
    requires Leads(Booted(), acts, s) && (forall a :: a in acts ==> !IsKillZero(a)) && CanAlloc(s, i, np)
    ensures DoAlloc(s, i, np).st[np] == USED && !DoAlloc(s, i, np).killed[np]
  {
    hide Inv, Booted;
    BootedOk();
    BootedUnmarked();
    RunsKeepUnmarked(Booted(), acts, s);
  }

  lemma BootedUnmarked()
    ensures Unmarked(Booted())
  {
  }

  /** Slots 0 and 1 in the run below. */
  predicate Begins(s: Sys, pc: Pc, sw: Switch) {
    && Shape(s) && s.pc[0] == pc && s.sw[0] == sw && s.lock[1] == Free && s.st[1] == UNUSED
    && s.pid[0] == 1 && s.pid[1] == 0 && s.lock[0] == if sw == Coming then ByThread(0) else Free
  }

  lemma InitRuns() returns (s: Sys)
    ensures Reachable(s) && Begins(s, Run, On)
  {
    hide Reachable;
    s := Booted();
    BootedReachable();
    s := Go(s, Schedules(0, Test(0)));
    s := Go(s, Schedules(0, Dispatch));
    s := Go(s, Switches(0, ReleaseSelf));
  }

  /** init calls kill(0) and forks: the child starts killed. */
  lemma KillZeroMarksNext() returns (s: Sys)
    ensures Reachable(s) && Shape(s) && s.st[1] == USED && s.killed[1] && s.maker[1] == Some(0)
  {
    hide Reachable;
    s := InitRuns();
    s := Go(s, Wakes(0, KillStart(0)));
    s := Go(s, Wakes(0, KillOne));
    s := Go(s, Wakes(0, KillOne));
    s := Go(s, Forks(0, Alloc(1)));
    ShapeOf(s);
  }

  // ----- wakeup() -----

  predicate InWakeup(s: Sys, i: nat, ch: Chan) { At(s, i) && s.pc[i].Waking? && s.pc[i].chan == ch }

  predicate SleepsOn(s: Sys, x: nat, ch: Chan) { At(s, x) && s.st[x] == SLEEPING && s.chan[x] == ch }

  /** Thread i is in the same wakeup(ch) all along the run. */
  ghost predicate WakesAlong(s: Sys, acts: seq<Action>, i: nat, ch: Chan)
    decreases |acts|
  {
    InWakeup(s, i, ch) && (acts != [] ==> Enabled(s, acts[0]) && WakesAlong(Next(s, acts[0]), acts[1..], i, ch))
  }

  ghost predicate SleepsAlong(s: Sys, acts: seq<Action>, x: nat, ch: Chan)
    decreases |acts|
  {
    SleepsOn(s, x, ch) && (acts != [] ==> Enabled(s, acts[0]) && SleepsAlong(Next(s, acts[0]), acts[1..], x, ch))
  }

  lemma StillToWake(s: Sys, a: Action, i: nat, x: nat, ch: Chan)
    requires Enabled(s, a) && x != i && InWakeup(s, i, ch) && InWakeup(Next(s, a), i, ch)
    requires SleepsOn(s, x, ch) && SleepsOn(Next(s, a), x, ch) && s.pc[i].j <= x
    ensures Next(s, a).pc[i].j <= x
  {
    if !a.Wakes? && !a.Exits? {
      hide Enabled, Next;
      StepFramed(s, a);
    }
  }

  lemma {:induction false} NotPassed(s: Sys, acts: seq<Action>, r: Sys, i: nat, x: nat, ch: Chan)
    requires x != i && Leads(s, acts, r) && WakesAlong(s, acts, i, ch) && SleepsAlong(s, acts, x, ch) && s.pc[i].j <= x
    ensures At(r, i) && r.pc[i].Waking? && r.pc[i].j <= x
    decreases |acts|
  {
    hide Enabled, Next;
    if acts != [] {
      StillToWake(s, acts[0], i, x, ch);
      NotPassed(Next(s, acts[0]), acts[1..], r, i, x, ch);
    }
  }

  /** wakeup, from the call in s to the step in r by which it returns, ends every sleep on its channel: no process,
      except the caller, sleeps there all the while. */
  lemma WakeupMissesNone(s: Sys, acts: seq<Action>, r: Sys, i: nat, x: nat, n: nat)
    requires Running(s, i) && s.pc[i] == Run && x < NPROC && x != i
    requires var s' := DoStartWakeup(s, i, n); Leads(s', acts, r) && WakesAlong(s', acts, i, Other(n))
    requires CanWakeOne(r, i) && DoWakeOne(r, i).pc[i] == Run
    ensures !SleepsAlong(DoStartWakeup(s, i, n), acts, x, Other(n))
  {
    hide Leads, WakesAlong, SleepsAlong;
    var s' := DoStartWakeup(s, i, n);
    if SleepsAlong(s', acts, x, Other(n)) {
      NotPassed(s', acts, r, i, x, Other(n));
    }
  }

  /** Who calls sleep sleeps on that channel, */
  lemma SleepsWhereAsked(s: Sys, i: nat, n: nat)
    requires CanSleepOn(s, i)
    ensures SleepsOn(DoSleepOn(s, i, n), i, Other(n))
  {
  }

  /** and goes on sleeping there until it is made RUNNABLE. */
  lemma SleepersOnlyWake(s: Sys, a: Action, x: nat, ch: Chan)
    requires Inv(s) && Enabled(s, a) && SleepsOn(s, x, ch)
    ensures var n := Next(s, a); At(n, x) && (n.st[x] == SLEEPING || n.st[x] == RUNNABLE) && n.chan[x] == ch
  {
    hide Inv;
    SleeperFacts(s, x);
    if a.Forks? && Making(s.pc[a.i]).Some? {
      MadeIsUsed(s, a.i);
    }
  }

  /** A sleeping thread is not on a CPU and not coming in. */
  lemma SleeperFacts(s: Sys, x: nat)
    requires Inv(s) && x < NPROC && s.st[x] == SLEEPING
    ensures s.sw[x] == Off || s.sw[x] == Leaving
  {
    hide LocksOk, WaitLockOk, RunOk, MakersOk, FamilyOk, WaitOk, IdsOk;
    Clauses(s);
  }

  lemma MadeIsUsed(s: Sys, i: nat)
    requires Inv(s) && i < NPROC && Making(s.pc[i]).Some?
    ensures Making(s.pc[i]).value < NPROC && s.st[Making(s.pc[i]).value] == USED
  {
    hide LocksOk, WaitLockOk, RunOk, StatesOk, FamilyOk, WaitOk, IdsOk;
    Clauses(s);
  }

  // ----- exit() and wait(): the status -----

  /** The pid and status of the process that a step lets exit. */
  function Given(s: Sys, a: Action): seq<(nat, int)>
    requires Enabled(s, a)
  {
    if a.Exits? && a.e.ExitLock? then [(s.pid[a.i], a.e.status)] else []
  }

  /** All calls of exit() along a run, as far as the state ZOMBIE. */
  ghost function ExitCalls(s: Sys, acts: seq<Action>, r: Sys): seq<(nat, int)>
    requires Leads(s, acts, r)
    decreases |acts|
  {
    if acts == [] then [] else Given(s, acts[0]) + ExitCalls(Next(s, acts[0]), acts[1..], r)
  }

  lemma ExitRecorded(s: Sys, a: Action, p: nat)
    requires Enabled(s, a) && p in Next(s, a).exited
    ensures (p in s.exited && s.exited[p] == Next(s, a).exited[p]) || (p, Next(s, a).exited[p]) in Given(s, a)
  {
    if !a.Wakes? && !a.Exits? {
      hide Enabled, Next;
      StepFramed(s, a);
    }
  }

  lemma {:induction false} ExitedWasGiven(s: Sys, acts: seq<Action>, r: Sys, p: nat)
    requires Leads(s, acts, r) && p in r.exited
    ensures (p in s.exited && s.exited[p] == r.exited[p]) || (p, r.exited[p]) in ExitCalls(s, acts, r)
    decreases |acts|
  {
    hide Enabled, Next, Given;
    if acts != [] {
      ExitedWasGiven(Next(s, acts[0]), acts[1..], r, p);
      if p in Next(s, acts[0]).exited {
        ExitRecorded(s, acts[0], p);
      }
    }
  }

  /** Since boot, wait() has returned each pid once, with the status that process passed to exit(). */
  lemma StatusComesBack(acts: seq<Action>, r: Sys)
    requires Leads(Booted(), acts, r)
    ensures forall x :: x in Returns(Booted(), acts, r) ==> x in ExitCalls(Booted(), acts, r)
    ensures DistinctPids(Returns(Booted(), acts, r))
  {
    hide Inv, Enabled, Next, Given, Handed;
    BootedOk();
    EachChildReapedOnce(Booted(), acts, r);
    forall x | x in Returns(Booted(), acts, r)
      ensures x in ExitCalls(Booted(), acts, r)
    {
      ExitedWasGiven(Booted(), acts, r, x.0);
    }
  }
}
