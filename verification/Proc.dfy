/** The process table of kernel/proc.c under arbitrary interleaving: fork with its unlocked publish,
    exit, wait, sleep, wakeup, kill and the per-CPU schedulers.  Each action is one atomic section:
    an acquire, a release, or the code between them when only lock holders can observe it.  swtch
    hands p->lock over between a scheduler and a process.  Memory is sequentially consistent. */
module Proc {
  import opened Prelude

  const NPROC: nat := 64
  const NCPU: nat := 8

  /** userinit runs allocproc first, so initproc is slot 0. */
  const INIT: nat := 0

  datatype PState = UNUSED | USED | SLEEPING | RUNNABLE | RUNNING | ZOMBIE

  /** wait() sleeps on the address of the waiting process; other sleeps use other channels. */
  datatype Chan = Nowhere | ProcChan(i: nat) | Other(n: nat)

  /** Where wakeup() returns to. */
  datatype After = ToRun | ToReparent(k: nat) | ToDie

  /** Control point of a process's kernel thread in the process-table code. */
  datatype Pc =
    | Absent                               // no thread: the slot is unused or not yet built
    | Run                                  // anywhere else, holding none of these locks
    | Fork1(np: nat)                       // allocproc done: np->lock held
    | Fork2(np: nat)                       // np built, np->lock released
    | Fork3(np: nat)                       // wait_lock held
    | Fork4(np: nat)                       // parent set, wait_lock released, before the unlocked store
    | Waking(chan: Chan, j: nat, after: After)  // wakeup(chan) about to look at slot j
    | ExitR(k: nat)                        // exit: wait_lock held, reparent about to look at slot k
    | ExitK                                // exit: parent woken, wait_lock held
    | ExitZ                                // exit: ZOMBIE, p->lock and wait_lock held
    | Dead                                 // exit: wait_lock released, in sched for good
    | WaitScan(k: nat, kids: bool)         // wait: wait_lock held, about to look at slot k
    | WaitChild(k: nat)                    // wait: wait_lock and the child's lock held
    | WaitDecide(kids: bool)               // wait: scan done
    | WaitStay                             // wait: killed(p) was 0, wait_lock held, calling sleep
    | WaitLock                             // sleep(p, &wait_lock): p->lock and wait_lock held
    | WaitSet                              // wait_lock released, p->lock held, not yet SLEEPING
    | WaitSleep                            // in sched, SLEEPING or woken
    | WaitAgain                            // p->lock released, before acquiring wait_lock again
    | Killing(pid: nat, j: nat)            // kill(pid) about to look at slot j

  /** Whether the thread executes: on a CPU; in sched with p->lock held; switched out (or not there);
      switched in by a scheduler and still holding p->lock. */
  datatype Switch = On | Leaving | Off | Coming

  datatype Holder = Free | ByThread(i: nat) | BySched(c: nat)

  /** A CPU's scheduler: between processes, testing slot j, having switched to process j, or just
      switched back from it. */
  datatype Sched = Idle | Testing(j: nat) | Ran(j: nat) | Returned(j: nat)

  /** procs[i] fields, locks, control points; then per CPU c->proc; then history: which CPU runs a
      process, which thread is building a USED slot, exit statuses by pid and pids reaped. */
  datatype Sys = Sys(
    st: seq<PState>, parent: seq<Option<nat>>, chan: seq<Chan>, killed: seq<bool>, xstate: seq<int>, pid: seq<nat>,
    built: seq<bool>, lock: seq<Holder>, pc: seq<Pc>, sw: seq<Switch>,
    waitLock: Option<nat>, nextpid: nat,
    sched: seq<Sched>, cpu: seq<Option<nat>>,
    on: seq<Option<nat>>, maker: seq<Option<nat>>, exited: map<nat, int>, reaped: set<nat>)

  predicate Shape(s: Sys) {
    && |s.st| == NPROC && |s.parent| == NPROC && |s.chan| == NPROC && |s.killed| == NPROC && |s.xstate| == NPROC
    && |s.pid| == NPROC && |s.built| == NPROC && |s.lock| == NPROC && |s.pc| == NPROC && |s.sw| == NPROC
    && |s.sched| == NCPU && |s.cpu| == NCPU && |s.on| == NPROC && |s.maker| == NPROC
  }

  // ----- Reading a control point -----

  /** Thread i at this point holds the lock of slot j. */
  predicate Holds(pc: Pc, sw: Switch, i: nat, j: nat) {
    || ((sw.Leaving? || sw.Coming? || pc.ExitZ? || pc.WaitLock? || pc.WaitSet?) && i == j)
    || pc == Fork1(j) || pc == WaitChild(j)
  }

  predicate HoldsWait(pc: Pc) {
    || pc.Fork3? || pc.ExitR? || pc.ExitK? || pc.ExitZ? || (pc.Waking? && !pc.after.ToRun?)
    || pc.WaitScan? || pc.WaitChild? || pc.WaitDecide? || pc.WaitStay? || pc.WaitLock?
  }

  /** No spinlock is held here, so a timer interrupt may call yield. */
  predicate Preemptible(pc: Pc) {
    pc.Run? || pc.Fork2? || pc.Fork4? || pc.WaitAgain? || pc.Killing? || (pc.Waking? && pc.after.ToRun?)
  }

  predicate SchedHolds(c: Sched, j: nat) { c == Testing(j) || c == Returned(j) }

  function Making(pc: Pc): Option<nat> {
    match pc
    case Fork1(np) => Some(np)
    case Fork2(np) => Some(np)
    case Fork3(np) => Some(np)
    case Fork4(np) => Some(np)
    case _ => None
  }

  /** What slot i's state and channel can be, given its thread. */
  predicate StateFits(pc: Pc, sw: Switch, st: PState, chan: Chan, i: nat) {
    match pc
    case Absent => sw.Off? && (st.UNUSED? || st.USED?)
    case ExitZ => sw.On? && st.ZOMBIE?
    case Dead => (sw.Leaving? || sw.Off?) && st.ZOMBIE?
    case WaitSleep =>
      match sw {
        case On => false
        case Leaving => st.SLEEPING? && chan == ProcChan(i)
        case Off => st.RUNNABLE? || (st.SLEEPING? && chan == ProcChan(i))
        case Coming => st.RUNNING?
      }
    case _ =>
      match sw {
        case On => st.RUNNING?
        case Leaving => Preemptible(pc) && (st.RUNNABLE? || st.SLEEPING?)
        case Off => Preemptible(pc) && (st.RUNNABLE? || st.SLEEPING? || (pc.Run? && st.USED?))
        case Coming => Preemptible(pc) && st.RUNNING?
      }
  }

  /** About to sleep, or asleep, in wait(). */
  predicate Asleep(pc: Pc, st: PState) {
    pc.WaitSet? || (pc.WaitSleep? && st.SLEEPING?)
  }

  /** The thread has given its children away, or is not there. */
  predicate Childless(pc: Pc) {
    || pc.Absent? || pc.ExitK? || pc.ExitZ? || pc.Dead?
    || (pc.Waking? && pc.after.ToDie?)
  }

  /** Slots reparent has already dealt with. */
  function Reparented(pc: Pc): nat {
    match pc
    case ExitR(k) => k
    case Waking(_, _, ToReparent(k)) => k + 1
    case _ => 0
  }

  // ----- Actions -----

  datatype SwitchStep = Yield | SleepOn(n: nat) | SwitchOut | ReleaseSelf
  datatype ForkStep = Alloc(np: nat) | AbandonFork | Build | ForkLock | SetParent | Publish
  datatype WakeStep = StartWakeup(n: nat) | WakeOne | KillStart(pid: nat) | KillOne
  datatype ExitStep = ExitStart | ReparentOne | ExitLock(status: int) | ExitUnlock
  datatype WaitStep =
    WaitStart | Look | Reap | ReapFails | NotYet | WaitEnd | Stay | WaitStop | WaitUnlock | SetSleeping
  datatype SchedStep = Test(j: nat) | Skip | Dispatch | Resume

  /** A step of process i's thread, of an interrupt handler, or of CPU c's scheduler. */
  datatype Action =
    | Switches(i: nat, w: SwitchStep) | Forks(i: nat, f: ForkStep) | Wakes(i: nat, k: WakeStep)
    | Exits(i: nat, e: ExitStep) | Waits(i: nat, t: WaitStep)
    | Interrupt(j: nat, n: nat) | Schedules(c: nat, d: SchedStep)

  predicate At(s: Sys, i: nat) { Shape(s) && i < NPROC }

  predicate Running(s: Sys, i: nat) { At(s, i) && s.sw[i] == On }

  /** freeproc, with p->lock held by the caller. */
  function FreeProc(s: Sys, k: nat): Sys
    requires At(s, k)
  {
    s.(built := s.built[k := false], pid := s.pid[k := 0], parent := s.parent[k := None], chan := s.chan[k := Nowhere],
       killed := s.killed[k := false], xstate := s.xstate[k := 0], st := s.st[k := UNUSED],
       lock := s.lock[k := Free])
  }

  function GoTo(s: Sys, i: nat, pc: Pc): Sys
    requires At(s, i)
  {
    s.(pc := s.pc[i := pc])
  }

  // yield(), and sleep() on channels other than wait()'s

  predicate CanYield(s: Sys, i: nat) { Running(s, i) && Preemptible(s.pc[i]) && s.lock[i] == Free }

  function DoYield(s: Sys, i: nat): Sys
    requires CanYield(s, i)
  {
    s.(lock := s.lock[i := ByThread(i)], st := s.st[i := RUNNABLE], sw := s.sw[i := Leaving])
  }

  predicate CanSleepOn(s: Sys, i: nat) { Running(s, i) && s.pc[i] == Run && s.lock[i] == Free }

  function DoSleepOn(s: Sys, i: nat, n: nat): Sys
    requires CanSleepOn(s, i)
  {
    s.(lock := s.lock[i := ByThread(i)], st := s.st[i := SLEEPING], chan := s.chan[i := Other(n)], sw := s.sw[i := Leaving])
  }

  /** sched(): swtch to the scheduler of the CPU this thread runs on. */
  predicate CanSwitchOut(s: Sys, i: nat) {
    At(s, i) && s.sw[i] == Leaving && s.on[i].Some? && s.on[i].value < NCPU
  }

  function DoSwitchOut(s: Sys, i: nat): Sys
    requires CanSwitchOut(s, i)
  {
    var c := s.on[i].value;
    s.(lock := s.lock[i := BySched(c)], sched := s.sched[c := Returned(i)], on := s.on[i := None], sw := s.sw[i := Off])
  }

  predicate CanReleaseSelf(s: Sys, i: nat) { At(s, i) && s.sw[i] == Coming }

  /** After swtch returns: sleep clears p->chan, which is already 0 in yield and forkret. */
  function DoReleaseSelf(s: Sys, i: nat): Sys
    requires CanReleaseSelf(s, i)
  {
    s.(lock := s.lock[i := Free], chan := s.chan[i := Nowhere], sw := s.sw[i := On],
       pc := s.pc[i := if s.pc[i] == WaitSleep then WaitAgain else s.pc[i]])
  }

  // fork()

  predicate CanAlloc(s: Sys, i: nat, np: nat) {
    Running(s, i) && np < NPROC && s.pc[i] == Run && s.lock[np] == Free && s.st[np] == UNUSED
  }

  function DoAlloc(s: Sys, i: nat, np: nat): Sys
    requires CanAlloc(s, i, np)
  {
    s.(lock := s.lock[np := ByThread(i)], pid := s.pid[np := s.nextpid], nextpid := s.nextpid + 1,
       st := s.st[np := USED], maker := s.maker[np := Some(i)], pc := s.pc[i := Fork1(np)])
  }

  predicate AtFork1(s: Sys, i: nat) { Running(s, i) && s.pc[i].Fork1? && s.pc[i].np < NPROC }

  /** allocproc or uvmcopy failed. */
  function DoAbandon(s: Sys, i: nat): Sys
    requires AtFork1(s, i)
  {
    var np := s.pc[i].np;
    FreeProc(s, np).(maker := s.maker[np := None], pc := s.pc[i := Run])
  }

  function DoBuild(s: Sys, i: nat): Sys
    requires AtFork1(s, i)
  {
    var np := s.pc[i].np;
    s.(built := s.built[np := true], lock := s.lock[np := Free], pc := s.pc[i := Fork2(np)][np := Run])
  }

  predicate CanForkLock(s: Sys, i: nat) { Running(s, i) && s.pc[i].Fork2? && s.waitLock == None }

  function DoForkLock(s: Sys, i: nat): Sys
    requires CanForkLock(s, i)
  {
    s.(waitLock := Some(i), pc := s.pc[i := Fork3(s.pc[i].np)])
  }

  predicate CanSetParent(s: Sys, i: nat) { Running(s, i) && s.pc[i].Fork3? && s.pc[i].np < NPROC }

  function DoSetParent(s: Sys, i: nat): Sys
    requires CanSetParent(s, i)
  {
    var np := s.pc[i].np;
    s.(parent := s.parent[np := Some(i)], waitLock := None, pc := s.pc[i := Fork4(np)])
  }

  predicate CanPublish(s: Sys, i: nat) { Running(s, i) && s.pc[i].Fork4? && s.pc[i].np < NPROC }

  /** np->state = RUNNABLE, without np->lock. */
  function DoPublish(s: Sys, i: nat): Sys
    requires CanPublish(s, i)
  {
    var np := s.pc[i].np;
    s.(st := s.st[np := RUNNABLE], maker := s.maker[np := None], pc := s.pc[i := Run])
  }

  // wakeup()

  predicate CanWakeOne(s: Sys, i: nat) {
    Running(s, i) && s.pc[i].Waking? && (s.pc[i].j < NPROC && s.pc[i].j != i ==> s.lock[s.pc[i].j] == Free)
  }

  function AfterWakeup(after: After): Pc {
    match after
    case ToRun => Run
    case ToReparent(k) => ExitR(k + 1)
    case ToDie => ExitK
  }

  function DoWakeOne(s: Sys, i: nat): Sys
    requires CanWakeOne(s, i)
  {
    var w := s.pc[i];
    if w.j >= NPROC then GoTo(s, i, AfterWakeup(w.after))
    else
      var n := GoTo(s, i, Waking(w.chan, w.j + 1, w.after));
      if w.j != i && s.st[w.j] == SLEEPING && s.chan[w.j] == w.chan then n.(st := s.st[w.j := RUNNABLE]) else n
  }

  function DoStartWakeup(s: Sys, i: nat, n: nat): Sys
    requires At(s, i)
  {
    GoTo(s, i, Waking(Other(n), 0, ToRun))
  }

  /** The same step made by an interrupt handler. */
  predicate CanInterruptWake(s: Sys, j: nat, n: nat) {
    At(s, j) && s.lock[j] == Free && s.st[j] == SLEEPING && s.chan[j] == Other(n)
  }

  function DoInterruptWake(s: Sys, j: nat): Sys
    requires At(s, j)
  {
    s.(st := s.st[j := RUNNABLE])
  }

  // exit()

  predicate CanExitStart(s: Sys, i: nat) { Running(s, i) && s.pc[i] == Run && i != INIT && s.waitLock == None }

  function DoExitStart(s: Sys, i: nat): Sys
    requires At(s, i)
  {
    GoTo(s, i, ExitR(0)).(waitLock := Some(i))
  }

  predicate AtExitR(s: Sys, i: nat) { Running(s, i) && s.pc[i].ExitR? && (s.pc[i].k >= NPROC ==> s.parent[i].Some?) }

  function DoReparentOne(s: Sys, i: nat): Sys
    requires AtExitR(s, i)
  {
    var k := s.pc[i].k;
    if k >= NPROC then GoTo(s, i, Waking(ProcChan(s.parent[i].value), 0, ToDie))
    else if s.parent[k] == Some(i) then
      GoTo(s, i, Waking(ProcChan(INIT), 0, ToReparent(k))).(parent := s.parent[k := Some(INIT)])
    else GoTo(s, i, ExitR(k + 1))
  }

  predicate CanExitLock(s: Sys, i: nat) { Running(s, i) && s.pc[i] == ExitK && s.lock[i] == Free }

  function DoExitLock(s: Sys, i: nat, status: int): Sys
    requires CanExitLock(s, i)
  {
    s.(lock := s.lock[i := ByThread(i)], xstate := s.xstate[i := status], st := s.st[i := ZOMBIE],
       exited := s.exited[s.pid[i] := status], pc := s.pc[i := ExitZ])
  }

  predicate CanExitUnlock(s: Sys, i: nat) { Running(s, i) && s.pc[i] == ExitZ }

  function DoExitUnlock(s: Sys, i: nat): Sys
    requires At(s, i)
  {
    GoTo(s, i, Dead).(waitLock := None, sw := s.sw[i := Leaving])
  }

  // wait()

  predicate CanWaitStart(s: Sys, i: nat) {
    Running(s, i) && (s.pc[i] == Run || s.pc[i] == WaitAgain) && s.waitLock == None
  }

  function DoWaitStart(s: Sys, i: nat): Sys
    requires At(s, i)
  {
    GoTo(s, i, WaitScan(0, false)).(waitLock := Some(i))
  }

  predicate CanLook(s: Sys, i: nat) {
    && Running(s, i) && s.pc[i].WaitScan?
    && (s.pc[i].k < NPROC && s.parent[s.pc[i].k] == Some(i) ==> s.lock[s.pc[i].k] == Free)
  }

  function DoLook(s: Sys, i: nat): Sys
    requires CanLook(s, i)
  {
    var w := s.pc[i];
    if w.k >= NPROC then GoTo(s, i, WaitDecide(w.kids))
    else if s.parent[w.k] == Some(i) then GoTo(s, i, WaitChild(w.k)).(lock := s.lock[w.k := ByThread(i)])
    else GoTo(s, i, WaitScan(w.k + 1, w.kids))
  }

  predicate AtChild(s: Sys, i: nat) { Running(s, i) && s.pc[i].WaitChild? && s.pc[i].k < NPROC }

  /** Found one: wait returns its pid and status. */
  function DoReap(s: Sys, i: nat): Sys
    requires AtChild(s, i) && s.st[s.pc[i].k] == ZOMBIE
  {
    var k := s.pc[i].k;
    FreeProc(s, k).(waitLock := None, pc := s.pc[i := Run][k := Absent], reaped := s.reaped + {s.pid[k]})
  }

  /** copyout of the status failed. */
  function DoReapFails(s: Sys, i: nat): Sys
    requires AtChild(s, i)
  {
    s.(lock := s.lock[s.pc[i].k := Free], waitLock := None, pc := s.pc[i := Run])
  }

  function DoNotYet(s: Sys, i: nat): Sys
    requires AtChild(s, i)
  {
    s.(lock := s.lock[s.pc[i].k := Free], pc := s.pc[i := WaitScan(s.pc[i].k + 1, true)])
  }

  predicate CanWaitEnd(s: Sys, i: nat) {
    Running(s, i) && s.pc[i].WaitDecide? && (!s.pc[i].kids || (s.lock[i] == Free && s.killed[i]))
  }

  function DoWaitEnd(s: Sys, i: nat): Sys
    requires At(s, i)
  {
    GoTo(s, i, Run).(waitLock := None)
  }

  /** killed(p) takes and gives back p->lock before sleep takes it again. */
  predicate CanStay(s: Sys, i: nat) {
    Running(s, i) && s.pc[i] == WaitDecide(true) && s.lock[i] == Free && !s.killed[i]
  }

  function DoStay(s: Sys, i: nat): Sys
    requires At(s, i)
  {
    GoTo(s, i, WaitStay)
  }

  predicate CanWaitStop(s: Sys, i: nat) { Running(s, i) && s.pc[i] == WaitStay && s.lock[i] == Free }

  function DoWaitStop(s: Sys, i: nat): Sys
    requires At(s, i)
  {
    GoTo(s, i, WaitLock).(lock := s.lock[i := ByThread(i)])
  }

  function DoWaitUnlock(s: Sys, i: nat): Sys
    requires At(s, i)
  {
    GoTo(s, i, WaitSet).(waitLock := None)
  }

  predicate CanSetSleeping(s: Sys, i: nat) { Running(s, i) && s.pc[i] == WaitSet }

  function DoSetSleeping(s: Sys, i: nat): Sys
    requires At(s, i)
  {
    GoTo(s, i, WaitSleep).(st := s.st[i := SLEEPING], chan := s.chan[i := ProcChan(i)], sw := s.sw[i := Leaving])
  }

  // kill()

  function DoKillStart(s: Sys, i: nat, pid: nat): Sys
    requires At(s, i)
  {
    GoTo(s, i, Killing(pid, 0))
  }

  predicate CanKillOne(s: Sys, i: nat) {
    Running(s, i) && s.pc[i].Killing? && (s.pc[i].j < NPROC ==> s.lock[s.pc[i].j] == Free)
  }

  function DoKillOne(s: Sys, i: nat): Sys
    requires CanKillOne(s, i)
  {
    var pid, j := s.pc[i].pid, s.pc[i].j;
    if j >= NPROC then GoTo(s, i, Run)
    else if s.pid[j] == pid then
      GoTo(s, i, Run).(killed := s.killed[j := true], st := if s.st[j] == SLEEPING then s.st[j := RUNNABLE] else s.st)
    else GoTo(s, i, Killing(pid, j + 1))
  }

  // scheduler()

  predicate OnCpu(s: Sys, c: nat) { Shape(s) && c < NCPU }

  predicate CanTest(s: Sys, c: nat, j: nat) { OnCpu(s, c) && j < NPROC && s.sched[c] == Idle && s.lock[j] == Free }

  function DoTest(s: Sys, c: nat, j: nat): Sys
    requires CanTest(s, c, j)
  {
    s.(lock := s.lock[j := BySched(c)], sched := s.sched[c := Testing(j)])
  }

  predicate IsTesting(s: Sys, c: nat) { OnCpu(s, c) && s.sched[c].Testing? && s.sched[c].j < NPROC }

  function DoSkip(s: Sys, c: nat): Sys
    requires IsTesting(s, c)
  {
    s.(lock := s.lock[s.sched[c].j := Free], sched := s.sched[c := Idle])
  }

  function DoDispatch(s: Sys, c: nat): Sys
    requires IsTesting(s, c)
  {
    var j := s.sched[c].j;
    s.(st := s.st[j := RUNNING], cpu := s.cpu[c := Some(j)], sched := s.sched[c := Ran(j)],
       lock := s.lock[j := ByThread(j)], on := s.on[j := Some(c)], sw := s.sw[j := Coming])
  }

  predicate CanResume(s: Sys, c: nat) { OnCpu(s, c) && s.sched[c].Returned? && s.sched[c].j < NPROC }

  function DoResume(s: Sys, c: nat): Sys
    requires CanResume(s, c)
  {
    s.(cpu := s.cpu[c := None], lock := s.lock[s.sched[c].j := Free], sched := s.sched[c := Idle])
  }

  predicate CanSwitch(s: Sys, i: nat, w: SwitchStep) {
    match w
    case Yield => CanYield(s, i)
    case SleepOn(_) => CanSleepOn(s, i)
    case SwitchOut => CanSwitchOut(s, i)
    case ReleaseSelf => CanReleaseSelf(s, i)
  }

  function DoSwitch(s: Sys, i: nat, w: SwitchStep): (n: Sys)
    requires CanSwitch(s, i, w)
    ensures Shape(n)
  {
    match w
    case Yield => DoYield(s, i)
    case SleepOn(n) => DoSleepOn(s, i, n)
    case SwitchOut => DoSwitchOut(s, i)
    case ReleaseSelf => DoReleaseSelf(s, i)
  }

  predicate CanFork(s: Sys, i: nat, f: ForkStep) {
    match f
    case Alloc(np) => CanAlloc(s, i, np)
    case AbandonFork => AtFork1(s, i)
    case Build => AtFork1(s, i)
    case ForkLock => CanForkLock(s, i)
    case SetParent => CanSetParent(s, i)
    case Publish => CanPublish(s, i)
  }

  function DoFork(s: Sys, i: nat, f: ForkStep): (n: Sys)
    requires CanFork(s, i, f)
    ensures Shape(n)
  {
    match f
    case Alloc(np) => DoAlloc(s, i, np)
    case AbandonFork => DoAbandon(s, i)
    case Build => DoBuild(s, i)
    case ForkLock => DoForkLock(s, i)
    case SetParent => DoSetParent(s, i)
    case Publish => DoPublish(s, i)
  }

  predicate CanWake(s: Sys, i: nat, k: WakeStep) {
    match k
    case StartWakeup(_) => Running(s, i) && s.pc[i] == Run
    case WakeOne => CanWakeOne(s, i)
    case KillStart(_) => Running(s, i) && s.pc[i] == Run
    case KillOne => CanKillOne(s, i)
  }

  function DoWake(s: Sys, i: nat, k: WakeStep): (n: Sys)
    requires CanWake(s, i, k)
    ensures Shape(n)
  {
    match k
    case StartWakeup(n) => DoStartWakeup(s, i, n)
    case WakeOne => DoWakeOne(s, i)
    case KillStart(pid) => DoKillStart(s, i, pid)
    case KillOne => DoKillOne(s, i)
  }

  predicate CanExit(s: Sys, i: nat, e: ExitStep) {
    match e
    case ExitStart => CanExitStart(s, i)
    case ReparentOne => AtExitR(s, i)
    case ExitLock(_) => CanExitLock(s, i)
    case ExitUnlock => CanExitUnlock(s, i)
  }

  function DoExit(s: Sys, i: nat, e: ExitStep): (n: Sys)
    requires CanExit(s, i, e)
    ensures Shape(n)
  {
    match e
    case ExitStart => DoExitStart(s, i)
    case ReparentOne => DoReparentOne(s, i)
    case ExitLock(status) => DoExitLock(s, i, status)
    case ExitUnlock => DoExitUnlock(s, i)
  }

  predicate CanWait(s: Sys, i: nat, t: WaitStep) {
    match t
    case WaitStart => CanWaitStart(s, i)
    case Look => CanLook(s, i)
    case Reap => AtChild(s, i) && s.st[s.pc[i].k] == ZOMBIE
    case ReapFails => AtChild(s, i) && s.st[s.pc[i].k] == ZOMBIE
    case NotYet => AtChild(s, i) && s.st[s.pc[i].k] != ZOMBIE
    case WaitEnd => CanWaitEnd(s, i)
    case Stay => CanStay(s, i)
    case WaitStop => CanWaitStop(s, i)
    case WaitUnlock => Running(s, i) && s.pc[i] == WaitLock
    case SetSleeping => CanSetSleeping(s, i)
  }

  function DoWait(s: Sys, i: nat, t: WaitStep): (n: Sys)
    requires CanWait(s, i, t)
    ensures Shape(n)
  {
    match t
    case WaitStart => DoWaitStart(s, i)
    case Look => DoLook(s, i)
    case Reap => DoReap(s, i)
    case ReapFails => DoReapFails(s, i)
    case NotYet => DoNotYet(s, i)
    case WaitEnd => DoWaitEnd(s, i)
    case Stay => DoStay(s, i)
    case WaitStop => DoWaitStop(s, i)
    case WaitUnlock => DoWaitUnlock(s, i)
    case SetSleeping => DoSetSleeping(s, i)
  }

  predicate CanSched(s: Sys, c: nat, d: SchedStep) {
    match d
    case Test(j) => CanTest(s, c, j)
    case Skip => IsTesting(s, c) && s.st[s.sched[c].j] != RUNNABLE
    case Dispatch => IsTesting(s, c) && s.st[s.sched[c].j] == RUNNABLE
    case Resume => CanResume(s, c)
  }

  function DoSched(s: Sys, c: nat, d: SchedStep): (n: Sys)
    requires CanSched(s, c, d)
    ensures Shape(n)
  {
    match d
    case Test(j) => DoTest(s, c, j)
    case Skip => DoSkip(s, c)
    case Dispatch => DoDispatch(s, c)
    case Resume => DoResume(s, c)
  }

  predicate Enabled(s: Sys, a: Action) {
    match a
    case Switches(i, w) => CanSwitch(s, i, w)
    case Forks(i, f) => CanFork(s, i, f)
    case Wakes(i, k) => CanWake(s, i, k)
    case Exits(i, e) => CanExit(s, i, e)
    case Waits(i, t) => CanWait(s, i, t)
    case Interrupt(j, n) => CanInterruptWake(s, j, n)
    case Schedules(c, d) => CanSched(s, c, d)
  }

  function Next(s: Sys, a: Action): (n: Sys)
    requires Enabled(s, a)
    ensures Shape(n)
  {
    match a
    case Switches(i, w) => DoSwitch(s, i, w)
    case Forks(i, f) => DoFork(s, i, f)
    case Wakes(i, k) => DoWake(s, i, k)
    case Exits(i, e) => DoExit(s, i, e)
    case Waits(i, t) => DoWait(s, i, t)
    case Interrupt(j, _) => DoInterruptWake(s, j)
    case Schedules(c, d) => DoSched(s, c, d)
  }

  // ----- Invariant -----

  /** A lock is held exactly by the thread or scheduler whose control point says so. */
  predicate LocksOk(pc: seq<Pc>, sw: seq<Switch>, lock: seq<Holder>, sched: seq<Sched>) {
    && |pc| == NPROC && |sw| == NPROC && |lock| == NPROC && |sched| == NCPU
    && (forall j :: 0 <= j < NPROC && lock[j].ByThread? ==>
          lock[j].i < NPROC && Holds(pc[lock[j].i], sw[lock[j].i], lock[j].i, j))
    && (forall i, j :: 0 <= i < NPROC && 0 <= j < NPROC && Holds(pc[i], sw[i], i, j) ==> lock[j] == ByThread(i))
    && (forall j :: 0 <= j < NPROC && lock[j].BySched? ==> lock[j].c < NCPU && SchedHolds(sched[lock[j].c], j))
    && (forall c, j :: 0 <= c < NCPU && 0 <= j < NPROC && SchedHolds(sched[c], j) ==> lock[j] == BySched(c))
  }

  predicate WaitLockOk(pc: seq<Pc>, waitLock: Option<nat>) {
    && |pc| == NPROC
    && (waitLock.Some? ==> waitLock.value < NPROC && HoldsWait(pc[waitLock.value]))
    && (forall i :: 0 <= i < NPROC && HoldsWait(pc[i]) ==> waitLock == Some(i))
  }

  /** Threads that execute are each on one CPU, which names them in c->proc. */
  predicate RunOk(sw: seq<Switch>, sched: seq<Sched>, cpu: seq<Option<nat>>, on: seq<Option<nat>>) {
    && |sw| == NPROC && |on| == NPROC && |sched| == NCPU && |cpu| == NCPU
    && (forall i :: 0 <= i < NPROC ==> (sw[i] == Off <==> on[i] == None))
    && (forall i :: 0 <= i < NPROC && on[i].Some? ==> on[i].value < NCPU && sched[on[i].value] == Ran(i))
    && (forall c :: 0 <= c < NCPU && sched[c].Ran? ==> sched[c].j < NPROC && on[sched[c].j] == Some(c))
    && (forall c :: 0 <= c < NCPU && !sched[c].Idle? ==> sched[c].j < NPROC)
    && (forall c :: 0 <= c < NCPU && sched[c].Returned? ==> sw[sched[c].j] == Off)
    && (forall c :: 0 <= c < NCPU ==>
          cpu[c] == if sched[c].Ran? || sched[c].Returned? then Some(sched[c].j) else None)
  }

  predicate StatesOk(pc: seq<Pc>, sw: seq<Switch>, st: seq<PState>, chan: seq<Chan>) {
    && |pc| == NPROC && |sw| == NPROC && |st| == NPROC && |chan| == NPROC
    && forall i :: 0 <= i < NPROC ==> StateFits(pc[i], sw[i], st[i], chan[i], i)
  }

  /** A slot is USED exactly while one thread is building it. */
  predicate MakersOk(pc: seq<Pc>, st: seq<PState>, maker: seq<Option<nat>>, built: seq<bool>) {
    && |pc| == NPROC && |st| == NPROC && |maker| == NPROC && |built| == NPROC
    && (forall j :: 0 <= j < NPROC ==> (st[j] == USED <==> maker[j].Some?))
    && (forall j :: 0 <= j < NPROC && maker[j].Some? ==>
          maker[j].value < NPROC && Making(pc[maker[j].value]) == Some(j))
    && (forall i :: 0 <= i < NPROC && Making(pc[i]).Some? ==>
          Making(pc[i]).value < NPROC && maker[Making(pc[i]).value] == Some(i))
    && (forall i :: 0 <= i < NPROC && Making(pc[i]).Some? ==>
          && (pc[i].Fork1? <==> pc[Making(pc[i]).value] == Absent)
          && (!pc[i].Fork1? ==> pc[Making(pc[i]).value] == Run && built[Making(pc[i]).value]))
    && (forall j :: 0 <= j < NPROC && st[j] != UNUSED && st[j] != USED ==> built[j])
  }

  /** Parents: set for every started process but init, never a dead, dying or unbuilt one. */
  predicate FamilyOk(pc: seq<Pc>, st: seq<PState>, parent: seq<Option<nat>>) {
    && |pc| == NPROC && |st| == NPROC && |parent| == NPROC
    && (forall j :: 0 <= j < NPROC && pc[j] == Absent ==> parent[j] == None)
    && (forall j :: 0 <= j < NPROC && j != INIT && st[j] != UNUSED && st[j] != USED ==> parent[j].Some?)
    && (forall i :: 0 <= i < NPROC && pc[i].Fork4? && pc[i].np < NPROC ==> parent[pc[i].np] == Some(i))
    && (forall j :: 0 <= j < NPROC && parent[j].Some? ==>
          && parent[j].value < NPROC && parent[j].value != j
          && !Childless(pc[parent[j].value]) && j >= Reparented(pc[parent[j].value]))
    && st[INIT] != UNUSED && st[INIT] != USED && parent[INIT] == None && pc[INIT] != Absent && !Exiting(pc[INIT])
    && (forall i :: 0 <= i < NPROC && pc[i].WaitChild? && pc[i].k < NPROC ==> parent[pc[i].k] == Some(i))
    && (forall i :: 0 <= i < NPROC && pc[i].Waking? && pc[i].after.ToDie? ==>
          parent[i].Some? && pc[i].chan == ProcChan(parent[i].value))
    && (forall i :: 0 <= i < NPROC && pc[i].Waking? && pc[i].after.ToReparent? ==> pc[i].chan == ProcChan(INIT))
  }

  predicate Exiting(pc: Pc) {
    || pc.ExitR? || pc.ExitK? || pc.ExitZ? || pc.Dead? || (pc.Waking? && !pc.after.ToRun?)
  }

  /** wait's scan has already passed slot z. */
  predicate Scanned(pc: Pc, z: nat) {
    (pc.WaitScan? && z < pc.k) || (pc.WaitChild? && z < pc.k) || pc.WaitDecide? || pc.WaitStay? || pc.WaitLock?
  }

  /** reparent has given a child to init and not yet come to init in its wakeup. */
  predicate WakingInit(pc: Pc) { pc.Waking? && pc.after.ToReparent? && pc.j <= INIT }

  /** exit has looked at the parent in its wakeup. */
  predicate Warned(pc: Pc, parent: Option<nat>) {
    parent.Some? && (pc.ExitK? || pc.ExitZ? || (pc.Waking? && pc.after.ToDie? && pc.j > parent.value))
  }

  predicate WaitOk(pc: seq<Pc>, st: seq<PState>, parent: seq<Option<nat>>, waitLock: Option<nat>) {
    && |pc| == NPROC && |st| == NPROC && |parent| == NPROC
    && (forall i, z :: 0 <= i < NPROC && 0 <= z < NPROC && Scanned(pc[i], z) ==>
           st[z] != ZOMBIE || parent[z] != Some(i))
    && (forall z :: 0 <= z < NPROC && st[z] == ZOMBIE && parent[z].Some? && parent[z].value < NPROC
                    && Asleep(pc[parent[z].value], st[parent[z].value]) ==>
          parent[z].value == INIT && waitLock.Some? && waitLock.value < NPROC && WakingInit(pc[waitLock.value]))
    && (forall e :: 0 <= e < NPROC && Warned(pc[e], parent[e]) && parent[e].value < NPROC ==>
          !Asleep(pc[parent[e].value], st[parent[e].value]))
  }

  /** Pids of slots in use are distinct, and each is recorded as exited exactly when its slot is ZOMBIE. */
  predicate IdsOk(st: seq<PState>, pid: seq<nat>, xstate: seq<int>, nextpid: nat, exited: map<nat, int>,
                  reaped: set<nat>) {
    && |st| == NPROC && |pid| == NPROC && |xstate| == NPROC
    && (forall j :: 0 <= j < NPROC && st[j] != UNUSED ==> 0 < pid[j] < nextpid && pid[j] !in reaped)
    && (forall j :: 0 <= j < NPROC && st[j] == UNUSED ==> pid[j] == 0)
    && (forall i, j :: 0 <= i < j < NPROC && st[i] != UNUSED && st[j] != UNUSED ==> pid[i] != pid[j])
    && (forall j :: 0 <= j < NPROC && st[j] != UNUSED ==> (st[j] == ZOMBIE <==> pid[j] in exited))
    && (forall j :: 0 <= j < NPROC && st[j] == ZOMBIE ==> pid[j] in exited && exited[pid[j]] == xstate[j])
    && nextpid > 0 && (forall p :: p in exited ==> p < nextpid)
    && (forall p :: p in reaped ==> p in exited)
  }

  datatype Clause = Locks | WaitLocks | Runs | States | Makers | Family | Waiting | Ids

  predicate ClauseOk(s: Sys, c: Clause)
    requires Shape(s)
  {
    match c
    case Locks => LocksOk(s.pc, s.sw, s.lock, s.sched)
    case WaitLocks => WaitLockOk(s.pc, s.waitLock)
    case Runs => RunOk(s.sw, s.sched, s.cpu, s.on)
    case States => StatesOk(s.pc, s.sw, s.st, s.chan)
    case Makers => MakersOk(s.pc, s.st, s.maker, s.built)
    case Family => FamilyOk(s.pc, s.st, s.parent)
    case Waiting => WaitOk(s.pc, s.st, s.parent, s.waitLock)
    case Ids => IdsOk(s.st, s.pid, s.xstate, s.nextpid, s.exited, s.reaped)
  }

  ghost predicate Inv(s: Sys) { Shape(s) && forall c :: ClauseOk(s, c) }

  ghost predicate EachClause(s: Sys) {
    && Shape(s)
    && LocksOk(s.pc, s.sw, s.lock, s.sched) && WaitLockOk(s.pc, s.waitLock) && RunOk(s.sw, s.sched, s.cpu, s.on)
    && StatesOk(s.pc, s.sw, s.st, s.chan) && MakersOk(s.pc, s.st, s.maker, s.built) && FamilyOk(s.pc, s.st, s.parent)
    && WaitOk(s.pc, s.st, s.parent, s.waitLock)
    && IdsOk(s.st, s.pid, s.xstate, s.nextpid, s.exited, s.reaped)
  }

  lemma Clauses(s: Sys)
    ensures Inv(s) <==> EachClause(s)
  {
    hide LocksOk, WaitLockOk, RunOk, StatesOk, MakersOk, FamilyOk, WaitOk, IdsOk;
    if Inv(s) {
      assert ClauseOk(s, Locks) && ClauseOk(s, WaitLocks) && ClauseOk(s, Runs) && ClauseOk(s, States);
      assert ClauseOk(s, Makers) && ClauseOk(s, Family) && ClauseOk(s, Waiting) && ClauseOk(s, Ids);
    }
  }

  // ----- What a change at one slot keeps -----

  predicate But<T(==)>(a: seq<T>, b: seq<T>, i: nat) {
    |a| == |b| && forall k :: 0 <= k < |a| && k != i ==> a[k] == b[k]
  }

  predicate SameHolds(p: Pc, w: Switch, q: Pc, v: Switch, i: nat) {
    forall k: nat :: k < NPROC ==> (Holds(q, v, i, k) <==> Holds(p, w, i, k))
  }

  lemma LocksMove(pc: seq<Pc>, sw: seq<Switch>, lock: seq<Holder>, sched: seq<Sched>, pc': seq<Pc>, sw': seq<Switch>,
                  i: nat)
    requires LocksOk(pc, sw, lock, sched)
    requires i < NPROC && But(pc, pc', i) && But(sw, sw', i) && SameHolds(pc[i], sw[i], pc'[i], sw'[i], i)
    ensures LocksOk(pc', sw', lock, sched)
  {
    hide Holds;
  }

  predicate Takes(p: Pc, w: Switch, q: Pc, v: Switch, i: nat, j: nat) {
    forall k: nat :: k < NPROC ==> (Holds(q, v, i, k) <==> Holds(p, w, i, k) || k == j)
  }

  lemma LocksTake(pc: seq<Pc>, sw: seq<Switch>, lock: seq<Holder>, sched: seq<Sched>, pc': seq<Pc>, sw': seq<Switch>,
                  i: nat, j: nat)
    requires LocksOk(pc, sw, lock, sched) && i < NPROC && j < NPROC && lock[j] == Free
    requires But(pc, pc', i) && But(sw, sw', i) && Takes(pc[i], sw[i], pc'[i], sw'[i], i, j)
    ensures LocksOk(pc', sw', lock[j := ByThread(i)], sched)
  {
    hide Holds;
  }

  lemma LocksDrop(pc: seq<Pc>, sw: seq<Switch>, lock: seq<Holder>, sched: seq<Sched>, pc': seq<Pc>, sw': seq<Switch>,
                  i: nat, j: nat)
    requires LocksOk(pc, sw, lock, sched) && i < NPROC && j < NPROC
    requires But(pc, pc', i) && But(sw, sw', i)
    requires !Holds(pc'[i], sw'[i], i, j) && Takes(pc'[i], sw'[i], pc[i], sw[i], i, j)
    ensures LocksOk(pc', sw', lock[j := Free], sched)
  {
    hide Holds;
    assert Holds(pc[i], sw[i], i, j);
    forall x | 0 <= x < NPROC && x != j && lock[x].ByThread?
      ensures Holds(pc'[lock[x].i], sw'[lock[x].i], lock[x].i, x)
    {
      assert Holds(pc[lock[x].i], sw[lock[x].i], lock[x].i, x);
    }
    forall a, x | 0 <= a < NPROC && 0 <= x < NPROC && Holds(pc'[a], sw'[a], a, x)
      ensures lock[x] == ByThread(a) && x != j
    {
      assert Holds(pc[a], sw[a], a, x);
    }
  }

  lemma LocksSwitchOut(pc: seq<Pc>, sw: seq<Switch>, lock: seq<Holder>, sched: seq<Sched>, i: nat, c: nat)
    requires LocksOk(pc, sw, lock, sched) && i < NPROC && c < NCPU && sched[c] == Ran(i)
    requires Takes(pc[i], Off, pc[i], sw[i], i, i) && !Holds(pc[i], Off, i, i)
    ensures LocksOk(pc, sw[i := Off], lock[i := BySched(c)], sched[c := Returned(i)])
  {
    hide Holds;
    assert Holds(pc[i], sw[i], i, i);
  }

  lemma LocksTest(pc: seq<Pc>, sw: seq<Switch>, lock: seq<Holder>, sched: seq<Sched>, c: nat, j: nat)
    requires LocksOk(pc, sw, lock, sched) && j < NPROC && c < NCPU && sched[c] == Idle && lock[j] == Free
    ensures LocksOk(pc, sw, lock[j := BySched(c)], sched[c := Testing(j)])
  {
  }

  lemma LocksIdle(pc: seq<Pc>, sw: seq<Switch>, lock: seq<Holder>, sched: seq<Sched>, c: nat, j: nat)
    requires LocksOk(pc, sw, lock, sched) && j < NPROC && c < NCPU && SchedHolds(sched[c], j)
    ensures LocksOk(pc, sw, lock[j := Free], sched[c := Idle])
  {
    assert lock[j] == BySched(c);
  }

  lemma LocksDispatch(pc: seq<Pc>, sw: seq<Switch>, lock: seq<Holder>, sched: seq<Sched>, c: nat, j: nat)
    requires LocksOk(pc, sw, lock, sched) && j < NPROC && c < NCPU && sched[c] == Testing(j)
    requires Takes(pc[j], sw[j], pc[j], Coming, j, j)
    ensures LocksOk(pc, sw[j := Coming], lock[j := ByThread(j)], sched[c := Ran(j)])
  {
    assert lock[j] == BySched(c);
    assert Holds(pc[j], Coming, j, j);
  }

  lemma WaitLockKeep(pc: seq<Pc>, waitLock: Option<nat>, pc': seq<Pc>, i: nat)
    requires WaitLockOk(pc, waitLock) && i < NPROC && But(pc, pc', i) && (HoldsWait(pc'[i]) <==> HoldsWait(pc[i]))
    ensures WaitLockOk(pc', waitLock)
  {
  }

  lemma WaitLockTake(pc: seq<Pc>, pc': seq<Pc>, i: nat)
    requires WaitLockOk(pc, None) && i < NPROC && But(pc, pc', i) && HoldsWait(pc'[i])
    ensures WaitLockOk(pc', Some(i))
  {
  }

  lemma WaitLockDrop(pc: seq<Pc>, waitLock: Option<nat>, pc': seq<Pc>, i: nat)
    requires WaitLockOk(pc, waitLock) && i < NPROC && But(pc, pc', i) && HoldsWait(pc[i]) && !HoldsWait(pc'[i])
    ensures WaitLockOk(pc', None)
  {
  }

  lemma RunKeep(sw: seq<Switch>, sched: seq<Sched>, cpu: seq<Option<nat>>, on: seq<Option<nat>>, sw': seq<Switch>,
                i: nat)
    requires RunOk(sw, sched, cpu, on) && i < NPROC && But(sw, sw', i) && sw[i] != Off && sw'[i] != Off
    ensures RunOk(sw', sched, cpu, on)
  {
  }

  lemma RunSwitchOut(sw: seq<Switch>, sched: seq<Sched>, cpu: seq<Option<nat>>, on: seq<Option<nat>>, i: nat, c: nat)
    requires RunOk(sw, sched, cpu, on) && i < NPROC && on[i] == Some(c) && c < NCPU
    ensures RunOk(sw[i := Off], sched[c := Returned(i)], cpu, on[i := None])
  {
  }

  lemma RunTest(sw: seq<Switch>, sched: seq<Sched>, cpu: seq<Option<nat>>, on: seq<Option<nat>>, c: nat, j: nat)
    requires RunOk(sw, sched, cpu, on) && c < NCPU && j < NPROC && sched[c] == Idle
    ensures RunOk(sw, sched[c := Testing(j)], cpu, on)
  {
  }

  lemma RunIdle(sw: seq<Switch>, sched: seq<Sched>, cpu: seq<Option<nat>>, on: seq<Option<nat>>, c: nat)
    requires RunOk(sw, sched, cpu, on) && c < NCPU && !sched[c].Ran?
    ensures RunOk(sw, sched[c := Idle], cpu[c := None], on)
  {
  }

  lemma RunDispatch(sw: seq<Switch>, sched: seq<Sched>, cpu: seq<Option<nat>>, on: seq<Option<nat>>, c: nat, j: nat)
    requires RunOk(sw, sched, cpu, on) && c < NCPU && sched[c] == Testing(j) && j < NPROC && sw[j] == Off
    requires forall d :: 0 <= d < NCPU ==> sched[d] != Returned(j)
    ensures RunOk(sw[j := Coming], sched[c := Ran(j)], cpu[c := Some(j)], on[j := Some(c)])
  {
  }

  lemma StatesStep(pc: seq<Pc>, sw: seq<Switch>, st: seq<PState>, chan: seq<Chan>,
                   pc': seq<Pc>, sw': seq<Switch>, st': seq<PState>, chan': seq<Chan>, i: nat)
    requires StatesOk(pc, sw, st, chan) && i < NPROC && But(pc, pc', i) && But(sw, sw', i) && But(st, st', i)
    requires But(chan, chan', i)
    requires StateFits(pc'[i], sw'[i], st'[i], chan'[i], i)
    ensures StatesOk(pc', sw', st', chan')
  {
    hide StateFits;
  }

  predicate SameUse(a: PState, b: PState) {
    (a.USED? <==> b.USED?) && (a.UNUSED? <==> b.UNUSED?) && (a.ZOMBIE? <==> b.ZOMBIE?)
  }

  predicate SameUses(a: seq<PState>, b: seq<PState>) {
    |a| == |b| && forall k :: 0 <= k < |a| ==> SameUse(a[k], b[k])
  }

  lemma MakersKeep(pc: seq<Pc>, st: seq<PState>, maker: seq<Option<nat>>, built: seq<bool>, pc': seq<Pc>,
                   st': seq<PState>, i: nat)
    requires MakersOk(pc, st, maker, built) && i < NPROC && maker[i] == None
    requires But(pc, pc', i) && Making(pc'[i]) == Making(pc[i]) && (pc'[i].Fork1? <==> pc[i].Fork1?)
    requires |st'| == NPROC
    requires forall k :: 0 <= k < NPROC ==> (st[k].USED? <==> st'[k].USED?) && (st[k].UNUSED? <==> st'[k].UNUSED?)
    ensures MakersOk(pc', st', maker, built)
  {
    hide Making;
  }

  lemma MakersAlloc(pc: seq<Pc>, st: seq<PState>, maker: seq<Option<nat>>, built: seq<bool>, i: nat, np: nat)
    requires MakersOk(pc, st, maker, built) && i < NPROC && np < NPROC && i != np
    requires maker[i] == None && Making(pc[i]) == None && st[np] == UNUSED && pc[np] == Absent
    ensures MakersOk(pc[i := Fork1(np)], st[np := USED], maker[np := Some(i)], built)
  {
  }

  lemma MakersAbandon(pc: seq<Pc>, st: seq<PState>, maker: seq<Option<nat>>, built: seq<bool>, i: nat, np: nat)
    requires MakersOk(pc, st, maker, built) && i < NPROC && np < NPROC && pc[i] == Fork1(np) && maker[i] == None
    ensures MakersOk(pc[i := Run], st[np := UNUSED], maker[np := None], built[np := false])
  {
    assert Making(pc[i]) == Some(np);
  }

  lemma MakersBuild(pc: seq<Pc>, st: seq<PState>, maker: seq<Option<nat>>, built: seq<bool>, i: nat, np: nat)
    requires MakersOk(pc, st, maker, built) && i < NPROC && np < NPROC && pc[i] == Fork1(np) && maker[i] == None
    ensures MakersOk(pc[i := Fork2(np)][np := Run], st, maker, built[np := true])
  {
    assert Making(pc[i]) == Some(np);
  }

  lemma MakersPublish(pc: seq<Pc>, st: seq<PState>, maker: seq<Option<nat>>, built: seq<bool>, i: nat, np: nat)
    requires MakersOk(pc, st, maker, built) && i < NPROC && np < NPROC && pc[i] == Fork4(np) && maker[i] == None
    ensures MakersOk(pc[i := Run], st[np := RUNNABLE], maker[np := None], built)
  {
    assert Making(pc[i]) == Some(np);
  }

  lemma MakersReap(pc: seq<Pc>, st: seq<PState>, maker: seq<Option<nat>>, built: seq<bool>, i: nat, k: nat)
    requires MakersOk(pc, st, maker, built) && i < NPROC && k < NPROC && i != k
    requires maker[i] == None && Making(pc[i]) == None && maker[k] == None && Making(pc[k]) == None && st[k] == ZOMBIE
    ensures MakersOk(pc[i := Run][k := Absent], st[k := UNUSED], maker, built[k := false])
  {
  }

  /** Moves of one thread that neither start a phase of exit nor set a child's parent. */
  predicate FamilyMove(p: Pc, q: Pc) {
    && (Childless(q) ==> Childless(p)) && Reparented(q) <= Reparented(p) && (q.Fork4? || q.WaitChild? ==> p == q)
    && (q.Waking? && !q.after.ToRun? ==> p.Waking? && p.after == q.after && p.chan == q.chan) && q != Absent
  }

  /** What the invariant asks of thread i at point q. */
  predicate FamilyAt(q: Pc, parent: seq<Option<nat>>, i: nat)
    requires |parent| == NPROC && i < NPROC
  {
    && q != Absent && (i == INIT ==> !Exiting(q))
    && (forall j :: 0 <= j < NPROC && parent[j] == Some(i) ==> !Childless(q) && j >= Reparented(q))
    && (q.Fork4? && q.np < NPROC ==> parent[q.np] == Some(i))
    && (q.WaitChild? && q.k < NPROC ==> parent[q.k] == Some(i))
    && (q.Waking? && q.after.ToDie? ==> parent[i].Some? && q.chan == ProcChan(parent[i].value))
    && (q.Waking? && q.after.ToReparent? ==> q.chan == ProcChan(INIT))
  }

  lemma FamilyStep(pc: seq<Pc>, st: seq<PState>, parent: seq<Option<nat>>, pc': seq<Pc>, i: nat)
    requires FamilyOk(pc, st, parent) && i < NPROC && But(pc, pc', i) && FamilyAt(pc'[i], parent, i)
    ensures FamilyOk(pc', st, parent)
  {
    hide Childless, Reparented, Exiting;
  }

  lemma FamilyStates(pc: seq<Pc>, st: seq<PState>, parent: seq<Option<nat>>, st': seq<PState>)
    requires FamilyOk(pc, st, parent) && SameUses(st, st')
    ensures FamilyOk(pc, st', parent)
  {
    hide Childless, Reparented, Exiting;
  }

  lemma FamilyKeep(pc: seq<Pc>, st: seq<PState>, parent: seq<Option<nat>>, pc': seq<Pc>, st': seq<PState>, i: nat)
    requires FamilyOk(pc, st, parent) && i < NPROC && But(pc, pc', i) && SameUses(st, st')
    requires FamilyMove(pc[i], pc'[i]) && (i == INIT ==> !Exiting(pc'[i]))
    ensures FamilyOk(pc', st', parent)
  {
    hide SameUses;
    assert FamilyAt(pc'[i], parent, i);
    FamilyStep(pc, st, parent, pc', i);
    FamilyStates(pc', st, parent, st');
  }

  lemma FamilyAlloc(pc: seq<Pc>, st: seq<PState>, parent: seq<Option<nat>>, i: nat, np: nat)
    requires FamilyOk(pc, st, parent) && i < NPROC && np < NPROC && pc[i] == Run && st[np] == UNUSED && pc[np] == Absent
    ensures FamilyOk(pc[i := Fork1(np)], st[np := USED], parent)
  {
  }

  lemma FamilyAbandon(pc: seq<Pc>, st: seq<PState>, parent: seq<Option<nat>>, i: nat, np: nat)
    requires FamilyOk(pc, st, parent) && i < NPROC && np < NPROC && pc[i] == Fork1(np) && pc[np] == Absent
    requires forall k :: 0 <= k < NPROC && k != i ==> pc[k] != Fork4(np)
    ensures FamilyOk(pc[i := Run], st[np := UNUSED], parent[np := None])
  {
  }

  lemma FamilyBuild(pc: seq<Pc>, st: seq<PState>, parent: seq<Option<nat>>, i: nat, np: nat)
    requires FamilyOk(pc, st, parent) && i < NPROC && np < NPROC && pc[i] == Fork1(np) && pc[np] == Absent
    ensures FamilyOk(pc[i := Fork2(np)][np := Run], st, parent)
  {
  }

  lemma FamilySetParent(pc: seq<Pc>, st: seq<PState>, parent: seq<Option<nat>>, i: nat, np: nat)
    requires FamilyOk(pc, st, parent) && i < NPROC && np < NPROC && np != i && pc[i] == Fork3(np)
    requires st[np] == USED && pc[np] == Run && np != INIT && forall e :: 0 <= e < NPROC && HoldsWait(pc[e]) ==> e == i
    requires forall k :: 0 <= k < NPROC && k != i ==> Making(pc[k]) != Some(np)
    ensures FamilyOk(pc[i := Fork4(np)], st, parent[np := Some(i)])
  {
    var pc', parent' := pc[i := Fork4(np)], parent[np := Some(i)];
    forall k | 0 <= k < NPROC && pc'[k].Fork4? && pc'[k].np < NPROC ensures parent'[pc'[k].np] == Some(k) {
      assert k == i || Making(pc[k]) == Some(pc[k].np);
    }
    forall j | 0 <= j < NPROC && parent'[j].Some?
      ensures parent'[j].value < NPROC && parent'[j].value != j
      ensures !Childless(pc'[parent'[j].value]) && j >= Reparented(pc'[parent'[j].value])
    {
    }
  }

  lemma FamilyPublish(pc: seq<Pc>, st: seq<PState>, parent: seq<Option<nat>>, i: nat, np: nat)
    requires FamilyOk(pc, st, parent) && i < NPROC && np < NPROC && pc[i] == Fork4(np)
    ensures FamilyOk(pc[i := Run], st[np := RUNNABLE], parent)
  {
  }

  lemma FamilyReparent(pc: seq<Pc>, st: seq<PState>, parent: seq<Option<nat>>, i: nat, k: nat)
    requires FamilyOk(pc, st, parent) && i < NPROC && k < NPROC && pc[i] == ExitR(k) && parent[k] == Some(i)
    requires i != INIT
    requires forall e :: 0 <= e < NPROC && HoldsWait(pc[e]) ==> e == i
    ensures FamilyOk(pc[i := Waking(ProcChan(INIT), 0, ToReparent(k))], st, parent[k := Some(INIT)])
  {
  }

  lemma FamilySkip(pc: seq<Pc>, st: seq<PState>, parent: seq<Option<nat>>, i: nat, k: nat)
    requires FamilyOk(pc, st, parent) && i < NPROC && k < NPROC && pc[i] == ExitR(k) && parent[k] != Some(i)
    ensures FamilyOk(pc[i := ExitR(k + 1)], st, parent)
  {
    assert FamilyAt(ExitR(k + 1), parent, i);
    FamilyStep(pc, st, parent, pc[i := ExitR(k + 1)], i);
  }

  lemma FamilyLook(pc: seq<Pc>, st: seq<PState>, parent: seq<Option<nat>>, i: nat, k: nat)
    requires FamilyOk(pc, st, parent) && i < NPROC && k < NPROC && pc[i].WaitScan? && parent[k] == Some(i)
    ensures FamilyOk(pc[i := WaitChild(k)], st, parent)
  {
    assert FamilyAt(WaitChild(k), parent, i);
    FamilyStep(pc, st, parent, pc[i := WaitChild(k)], i);
  }

  lemma FamilyDie(pc: seq<Pc>, st: seq<PState>, parent: seq<Option<nat>>, i: nat)
    requires FamilyOk(pc, st, parent) && i < NPROC && pc[i].ExitR? && pc[i].k >= NPROC && parent[i].Some?
    ensures FamilyOk(pc[i := Waking(ProcChan(parent[i].value), 0, ToDie)], st, parent)
  {
    assert FamilyAt(Waking(ProcChan(parent[i].value), 0, ToDie), parent, i);
    FamilyStep(pc, st, parent, pc[i := Waking(ProcChan(parent[i].value), 0, ToDie)], i);
  }

  lemma FamilyZombie(pc: seq<Pc>, st: seq<PState>, parent: seq<Option<nat>>, i: nat)
    requires FamilyOk(pc, st, parent) && i < NPROC && pc[i] == ExitK && st[i] == RUNNING
    ensures FamilyOk(pc[i := ExitZ], st[i := ZOMBIE], parent)
  {
  }

  lemma ReapParent(pc: seq<Pc>, st: seq<PState>, parent: seq<Option<nat>>, i: nat, k: nat, j: nat)
    requires FamilyOk(pc, st, parent) && i < NPROC && k < NPROC && pc[i] == WaitChild(k) && pc[k] == Dead
    requires j < NPROC && j != k && parent[j].Some?
    ensures var pc', p := pc[i := Run][k := Absent], parent[j].value;
            p < NPROC && p != j && !Childless(pc'[p]) && j >= Reparented(pc'[p])
  {
  }

  lemma NotWaiting(pc: Pc)
    requires !HoldsWait(pc)
    ensures !pc.WaitChild? && !(pc.Waking? && !pc.after.ToRun?)
  {
  }

  lemma ReapForks(pc: seq<Pc>, st: seq<PState>, parent: seq<Option<nat>>, i: nat, k: nat, m: nat)
    requires FamilyOk(pc, st, parent) && i < NPROC && k < NPROC && i != k
    requires m < NPROC && Making(pc[m]) != Some(k)
    ensures var pc', parent' := pc[i := Run][k := Absent], parent[k := None];
            pc'[m].Fork4? && pc'[m].np < NPROC ==> parent'[pc'[m].np] == Some(m)
  {
    if m != i && m != k && pc[m].Fork4? {
      assert Making(pc[m]) == Some(pc[m].np);
    }
  }

  lemma FamilyReap(pc: seq<Pc>, st: seq<PState>, parent: seq<Option<nat>>, i: nat, k: nat)
    requires FamilyOk(pc, st, parent) && i < NPROC && k < NPROC && i != k && pc[i] == WaitChild(k) && pc[k] == Dead
    requires forall m :: 0 <= m < NPROC ==> Making(pc[m]) != Some(k)
    requires forall m :: 0 <= m < NPROC && HoldsWait(pc[m]) ==> m == i
    ensures FamilyOk(pc[i := Run][k := Absent], st[k := UNUSED], parent[k := None])
  {
    hide Childless, Reparented, Making, HoldsWait;
    var pc', parent' := pc[i := Run][k := Absent], parent[k := None];
    forall m | 0 <= m < NPROC
      ensures pc'[m].Fork4? && pc'[m].np < NPROC ==> parent'[pc'[m].np] == Some(m)
      ensures !pc'[m].WaitChild? && !(pc'[m].Waking? && !pc'[m].after.ToRun?)
    {
      ReapForks(pc, st, parent, i, k, m);
      if m != i && m != k { NotWaiting(pc[m]); }
    }
    forall j | 0 <= j < NPROC && parent'[j].Some?
      ensures parent'[j].value < NPROC && parent'[j].value != j
      ensures !Childless(pc'[parent'[j].value]) && j >= Reparented(pc'[parent'[j].value])
    {
      ReapParent(pc, st, parent, i, k, j);
    }
  }

  // ----- wait -----

  /** Nobody becomes a zombie, falls asleep, finishes looking, or stops warning init. */
  predicate WaitMove(pc: seq<Pc>, st: seq<PState>, parent: seq<Option<nat>>, pc': seq<Pc>, st': seq<PState>,
                     parent': seq<Option<nat>>)
  {
    && |pc| == |pc'| == |st| == |st'| == |parent| == |parent'| == NPROC
    && (forall z :: 0 <= z < NPROC && st'[z].ZOMBIE? ==> st[z].ZOMBIE? && parent'[z] == parent[z])
    && (forall j :: 0 <= j < NPROC && Asleep(pc'[j], st'[j]) ==> Asleep(pc[j], st[j]))
    && (forall e :: 0 <= e < NPROC && Warned(pc'[e], parent'[e]) ==>
           Warned(pc[e], parent[e]) && parent'[e] == parent[e])
  }

  predicate ScanMove(p: Pc, q: Pc) { forall z: nat :: z < NPROC && Scanned(q, z) ==> Scanned(p, z) }

  lemma WaitKeep(pc: seq<Pc>, st: seq<PState>, parent: seq<Option<nat>>, waitLock: Option<nat>,
                 pc': seq<Pc>, st': seq<PState>, parent': seq<Option<nat>>, waitLock': Option<nat>)
    requires WaitOk(pc, st, parent, waitLock) && WaitMove(pc, st, parent, pc', st', parent')
    requires forall j :: 0 <= j < NPROC ==> ScanMove(pc[j], pc'[j])
    requires waitLock.Some? && waitLock.value < NPROC && WakingInit(pc[waitLock.value]) ==>
               waitLock' == waitLock && WakingInit(pc'[waitLock.value])
    ensures WaitOk(pc', st', parent', waitLock')
  {
    forall i, z | 0 <= i < NPROC && 0 <= z < NPROC && Scanned(pc'[i], z)
      ensures st'[z] != ZOMBIE || parent'[z] != Some(i)
    {
      assert ScanMove(pc[i], pc'[i]);
    }
  }

  lemma IdsKeep(st: seq<PState>, pid: seq<nat>, xstate: seq<int>, nextpid: nat, exited: map<nat, int>, reaped: set<nat>,
                st': seq<PState>)
    requires IdsOk(st, pid, xstate, nextpid, exited, reaped) && SameUses(st, st')
    ensures IdsOk(st', pid, xstate, nextpid, exited, reaped)
  {
  }

  lemma IdsAlloc(st: seq<PState>, pid: seq<nat>, xstate: seq<int>, nextpid: nat, exited: map<nat, int>,
                 reaped: set<nat>, np: nat)
    requires IdsOk(st, pid, xstate, nextpid, exited, reaped) && np < NPROC && st[np] == UNUSED
    ensures IdsOk(st[np := USED], pid[np := nextpid], xstate, nextpid + 1, exited, reaped)
  {
  }

  lemma IdsUse(st: seq<PState>, pid: seq<nat>, xstate: seq<int>, nextpid: nat, exited: map<nat, int>, reaped: set<nat>,
               np: nat, t: PState)
    requires IdsOk(st, pid, xstate, nextpid, exited, reaped) && np < NPROC && st[np] == USED && !t.UNUSED? && !t.ZOMBIE?
    ensures IdsOk(st[np := t], pid, xstate, nextpid, exited, reaped)
  {
  }

  lemma IdsAbandon(st: seq<PState>, pid: seq<nat>, xstate: seq<int>, nextpid: nat, exited: map<nat, int>,
                   reaped: set<nat>, np: nat)
    requires IdsOk(st, pid, xstate, nextpid, exited, reaped) && np < NPROC && st[np] == USED
    ensures IdsOk(st[np := UNUSED], pid[np := 0], xstate[np := 0], nextpid, exited, reaped)
  {
  }

  lemma IdsExit(st: seq<PState>, pid: seq<nat>, xstate: seq<int>, nextpid: nat, exited: map<nat, int>, reaped: set<nat>,
                i: nat, status: int)
    requires IdsOk(st, pid, xstate, nextpid, exited, reaped) && i < NPROC && st[i] == RUNNING
    ensures pid[i] !in exited
    ensures IdsOk(st[i := ZOMBIE], pid, xstate[i := status], nextpid, exited[pid[i] := status], reaped)
  {
  }

  lemma IdsReap(st: seq<PState>, pid: seq<nat>, xstate: seq<int>, nextpid: nat, exited: map<nat, int>, reaped: set<nat>,
                k: nat)
    requires IdsOk(st, pid, xstate, nextpid, exited, reaped) && k < NPROC && st[k] == ZOMBIE
    ensures IdsOk(st[k := UNUSED], pid[k := 0], xstate[k := 0], nextpid, exited, reaped + {pid[k]})
  {
  }

  lemma WaitAdvance(pc: seq<Pc>, st: seq<PState>, parent: seq<Option<nat>>, waitLock: Option<nat>, i: nat, q: Pc)
    requires WaitOk(pc, st, parent, waitLock) && i < NPROC && waitLock == Some(i)
    requires pc[i].WaitScan? || pc[i].WaitChild?
    requires q.WaitScan? || q.WaitChild? || q.WaitDecide?
    requires forall z :: 0 <= z < NPROC && Scanned(q, z) && !Scanned(pc[i], z) ==>
             st[z] != ZOMBIE || parent[z] != Some(i)
    ensures WaitOk(pc[i := q], st, parent, waitLock)
  {
  }

  lemma WaitFall(pc: seq<Pc>, st: seq<PState>, parent: seq<Option<nat>>, i: nat)
    requires WaitOk(pc, st, parent, Some(i)) && i < NPROC && pc[i] == WaitLock
    requires forall e :: 0 <= e < NPROC && HoldsWait(pc[e]) ==> e == i
    ensures WaitOk(pc[i := WaitSet], st, parent, None)
  {
    assert forall z :: 0 <= z < NPROC ==> Scanned(pc[i], z);
  }

  lemma WaitPass(pc: seq<Pc>, st: seq<PState>, parent: seq<Option<nat>>, waitLock: Option<nat>, st': seq<PState>,
                 i: nat)
    requires WaitOk(pc, st, parent, waitLock) && i < NPROC && pc[i].Waking? && pc[i].j < NPROC && !pc[i].after.ToRun?
    requires waitLock == Some(i)
    requires SameUses(st, st') && forall j :: 0 <= j < NPROC && st'[j].SLEEPING? ==> st[j].SLEEPING?
    requires pc[i].chan == ProcChan(pc[i].j) ==> !Asleep(pc[pc[i].j], st'[pc[i].j])
    requires pc[i].after.ToDie? ==> parent[i].Some? && pc[i].chan == ProcChan(parent[i].value)
    requires pc[i].after.ToReparent? ==> pc[i].chan == ProcChan(INIT)
    ensures WaitOk(pc[i := Waking(pc[i].chan, pc[i].j + 1, pc[i].after)], st', parent, waitLock)
  {
  }

  lemma WaitReparent(pc: seq<Pc>, st: seq<PState>, parent: seq<Option<nat>>, i: nat, k: nat)
    requires WaitOk(pc, st, parent, Some(i)) && i < NPROC && k < NPROC && pc[i] == ExitR(k)
    requires forall e :: 0 <= e < NPROC && HoldsWait(pc[e]) ==> e == i
    ensures WaitOk(pc[i := Waking(ProcChan(INIT), 0, ToReparent(k))], st, parent[k := Some(INIT)], Some(i))
  {
  }

  lemma WaitZombie(pc: seq<Pc>, st: seq<PState>, parent: seq<Option<nat>>, i: nat)
    requires WaitOk(pc, st, parent, Some(i)) && i < NPROC && pc[i] == ExitK && parent[i].Some?
    requires forall e :: 0 <= e < NPROC && HoldsWait(pc[e]) ==> e == i
    ensures WaitOk(pc[i := ExitZ], st[i := ZOMBIE], parent, Some(i))
  {
    assert Warned(pc[i], parent[i]);
  }

  lemma WaitReap(pc: seq<Pc>, st: seq<PState>, parent: seq<Option<nat>>, i: nat, k: nat)
    requires WaitOk(pc, st, parent, Some(i)) && i < NPROC && k < NPROC && i != k && pc[i] == WaitChild(k)
    requires pc[k] == Dead
    ensures WaitOk(pc[i := Run][k := Absent], st[k := UNUSED], parent[k := None], None)
  {
  }

  // ----- Every action keeps the invariant -----

  /** What the invariant says of one thread. */
  lemma ThreadFacts(s: Sys, i: nat)
    requires Inv(s) && i < NPROC
    ensures StateFits(s.pc[i], s.sw[i], s.st[i], s.chan[i], i)
    ensures s.st[i] == USED <==> s.maker[i].Some?
    ensures s.sw[i] == Off <==> s.on[i] == None
    ensures s.on[i].Some? ==> s.on[i].value < NCPU && s.sched[s.on[i].value] == Ran(i)
    ensures HoldsWait(s.pc[i]) ==> s.waitLock == Some(i)
    ensures s.parent[i].Some? ==> s.parent[i].value < NPROC && s.parent[i].value != i
    ensures i == INIT ==> !Exiting(s.pc[i]) && s.pc[i] != Absent && s.parent[i] == None
    ensures i != INIT && s.st[i] != UNUSED && s.st[i] != USED ==> s.parent[i].Some?
  {
    Clauses(s);
  }

  lemma LockFacts(s: Sys, i: nat, j: nat)
    requires Inv(s) && i < NPROC && j < NPROC
    ensures Holds(s.pc[i], s.sw[i], i, j) <==> s.lock[j] == ByThread(i)
  {
    Clauses(s);
  }

  /** At most one thread is past acquire(&wait_lock). */
  lemma SoleWaiter(s: Sys, i: nat)
    requires Inv(s) && i < NPROC && HoldsWait(s.pc[i])
    ensures s.waitLock == Some(i) && forall e :: 0 <= e < NPROC && HoldsWait(s.pc[e]) ==> e == i
  {
    Clauses(s);
  }

  /** The slot a fork is building: nobody else builds it, and its own thread has not started. */
  lemma MakerFacts(s: Sys, i: nat)
    requires Inv(s) && i < NPROC && Making(s.pc[i]).Some?
    ensures var np := Making(s.pc[i]).value;
      && np < NPROC && np != i && np != INIT && s.st[np] == USED && s.maker[np] == Some(i) && s.sw[np] == Off
      && (if s.pc[i].Fork1? then s.pc[np] == Absent else s.pc[np] == Run)
      && forall k :: 0 <= k < NPROC && k != i ==> Making(s.pc[k]) != Some(np)
  {
    hide LocksOk, WaitLockOk, RunOk, WaitOk, IdsOk;
    Clauses(s);
    var np := Making(s.pc[i]).value;
    assert s.maker[np] == Some(i);
    assert StateFits(s.pc[np], s.sw[np], s.st[np], s.chan[np], np);
    assert StateFits(s.pc[i], s.sw[i], s.st[i], s.chan[i], i);
  }

  /** wait holds the zombie's lock, so that process is out of exit() and off its CPU. */
  lemma ReapFacts(s: Sys, i: nat)
    requires Inv(s) && i < NPROC && s.pc[i].WaitChild? && s.pc[i].k < NPROC && s.st[s.pc[i].k] == ZOMBIE
    ensures var k := s.pc[i].k;
      && k != i && s.waitLock == Some(i) && s.pc[k] == Dead && s.sw[k] == Off
      && (forall m :: 0 <= m < NPROC ==> Making(s.pc[m]) != Some(k))
      && (forall m :: 0 <= m < NPROC && HoldsWait(s.pc[m]) ==> m == i)
  {
    hide RunOk, FamilyOk, WaitOk, IdsOk;
    Clauses(s);
    var k := s.pc[i].k;
    SoleWaiter(s, i);
    assert Holds(s.pc[i], s.sw[i], i, k);
    assert StateFits(s.pc[i], s.sw[i], s.st[i], s.chan[i], i);
    assert k != i;
    LockFacts(s, i, k);
    LockFacts(s, k, k);
    assert StateFits(s.pc[k], s.sw[k], s.st[k], s.chan[k], k);
    assert s.maker[k] == None;
  }

  /** A scheduler that holds a RUNNABLE slot's lock finds its thread switched out. */
  lemma TestedFacts(s: Sys, c: nat)
    requires Inv(s) && c < NCPU && s.sched[c].Testing?
    ensures var j := s.sched[c].j;
      && j < NPROC && s.cpu[c] == None && s.lock[j] == BySched(c) && s.sw[j] != Leaving && s.sw[j] != Coming
      && (s.st[j] == RUNNABLE ==> s.sw[j] == Off)
      && forall d :: 0 <= d < NCPU ==> s.sched[d] != Returned(j)
  {
    hide WaitLockOk, MakersOk, FamilyOk, WaitOk, IdsOk;
    Clauses(s);
    var j := s.sched[c].j;
    assert SchedHolds(s.sched[c], j);
    assert s.lock[j] == BySched(c);
    assert !Holds(s.pc[j], s.sw[j], j, j);
    assert StateFits(s.pc[j], s.sw[j], s.st[j], s.chan[j], j);
    assert forall d :: 0 <= d < NCPU && s.sched[d] == Returned(j) ==> SchedHolds(s.sched[d], j);
  }

  lemma YieldKeeps(s: Sys, i: nat)
    requires Inv(s) && CanYield(s, i)
    ensures Inv(DoYield(s, i))
  {
    hide LocksOk, WaitLockOk, RunOk, StatesOk, MakersOk, FamilyOk, WaitOk, IdsOk;
    Clauses(s);
    Clauses(DoYield(s, i));
    var n := DoYield(s, i);
    ThreadFacts(s, i);
    LocksTake(s.pc, s.sw, s.lock, s.sched, n.pc, n.sw, i, i);
    RunKeep(s.sw, s.sched, s.cpu, s.on, n.sw, i);
    StatesStep(s.pc, s.sw, s.st, s.chan, n.pc, n.sw, n.st, n.chan, i);
    MakersKeep(s.pc, s.st, s.maker, s.built, n.pc, n.st, i);
    FamilyKeep(s.pc, s.st, s.parent, n.pc, n.st, i);
    WaitKeep(s.pc, s.st, s.parent, s.waitLock, n.pc, n.st, n.parent, n.waitLock);
    IdsKeep(s.st, s.pid, s.xstate, s.nextpid, s.exited, s.reaped, n.st);
  }

  lemma SleepOnKeeps(s: Sys, i: nat, n0: nat)
    requires Inv(s) && CanSleepOn(s, i)
    ensures Inv(DoSleepOn(s, i, n0))
  {
    hide LocksOk, WaitLockOk, RunOk, StatesOk, MakersOk, FamilyOk, WaitOk, IdsOk;
    Clauses(s);
    Clauses(DoSleepOn(s, i, n0));
    var n := DoSleepOn(s, i, n0);
    ThreadFacts(s, i);
    LocksTake(s.pc, s.sw, s.lock, s.sched, n.pc, n.sw, i, i);
    RunKeep(s.sw, s.sched, s.cpu, s.on, n.sw, i);
    StatesStep(s.pc, s.sw, s.st, s.chan, n.pc, n.sw, n.st, n.chan, i);
    MakersKeep(s.pc, s.st, s.maker, s.built, n.pc, n.st, i);
    FamilyKeep(s.pc, s.st, s.parent, n.pc, n.st, i);
    WaitKeep(s.pc, s.st, s.parent, s.waitLock, n.pc, n.st, n.parent, n.waitLock);
    IdsKeep(s.st, s.pid, s.xstate, s.nextpid, s.exited, s.reaped, n.st);
  }

  lemma SwitchOutKeeps(s: Sys, i: nat)
    requires Inv(s) && CanSwitchOut(s, i)
    ensures Inv(DoSwitchOut(s, i))
  {
    hide LocksOk, WaitLockOk, RunOk, StatesOk, MakersOk, FamilyOk, WaitOk, IdsOk;
    Clauses(s);
    Clauses(DoSwitchOut(s, i));
    var n := DoSwitchOut(s, i);
    ThreadFacts(s, i);
    LocksSwitchOut(s.pc, s.sw, s.lock, s.sched, i, s.on[i].value);
    RunSwitchOut(s.sw, s.sched, s.cpu, s.on, i, s.on[i].value);
    StatesStep(s.pc, s.sw, s.st, s.chan, n.pc, n.sw, n.st, n.chan, i);
  }

  lemma ReleaseSelfKeeps(s: Sys, i: nat)
    requires Inv(s) && CanReleaseSelf(s, i)
    ensures Inv(DoReleaseSelf(s, i))
  {
    hide LocksOk, WaitLockOk, RunOk, StatesOk, MakersOk, FamilyOk, WaitOk, IdsOk;
    Clauses(s);
    Clauses(DoReleaseSelf(s, i));
    var n := DoReleaseSelf(s, i);
    ThreadFacts(s, i);
    LocksDrop(s.pc, s.sw, s.lock, s.sched, n.pc, n.sw, i, i);
    WaitLockKeep(s.pc, s.waitLock, n.pc, i);
    RunKeep(s.sw, s.sched, s.cpu, s.on, n.sw, i);
    StatesStep(s.pc, s.sw, s.st, s.chan, n.pc, n.sw, n.st, n.chan, i);
    MakersKeep(s.pc, s.st, s.maker, s.built, n.pc, n.st, i);
    FamilyKeep(s.pc, s.st, s.parent, n.pc, n.st, i);
    WaitKeep(s.pc, s.st, s.parent, s.waitLock, n.pc, n.st, n.parent, n.waitLock);
  }

  lemma AllocKeeps(s: Sys, i: nat, np: nat)
    requires Inv(s) && CanAlloc(s, i, np)
    ensures Inv(DoAlloc(s, i, np))
  {
    hide LocksOk, WaitLockOk, RunOk, StatesOk, MakersOk, FamilyOk, WaitOk, IdsOk;
    Clauses(s);
    Clauses(DoAlloc(s, i, np));
    var n := DoAlloc(s, i, np);
    ThreadFacts(s, i);
    ThreadFacts(s, np);
    LocksTake(s.pc, s.sw, s.lock, s.sched, n.pc, n.sw, i, np);
    WaitLockKeep(s.pc, s.waitLock, n.pc, i);
    var m := n.pc;
    StatesStep(s.pc, s.sw, s.st, s.chan, m, s.sw, s.st, s.chan, i);
    StatesStep(m, s.sw, s.st, s.chan, n.pc, n.sw, n.st, n.chan, np);
    MakersAlloc(s.pc, s.st, s.maker, s.built, i, np);
    FamilyAlloc(s.pc, s.st, s.parent, i, np);
    WaitKeep(s.pc, s.st, s.parent, s.waitLock, n.pc, n.st, n.parent, n.waitLock);
    IdsAlloc(s.st, s.pid, s.xstate, s.nextpid, s.exited, s.reaped, np);
  }

  lemma AbandonKeeps(s: Sys, i: nat)
    requires Inv(s) && AtFork1(s, i)
    ensures Inv(DoAbandon(s, i))
  {
    hide LocksOk, WaitLockOk, RunOk, StatesOk, MakersOk, FamilyOk, WaitOk, IdsOk;
    Clauses(s);
    Clauses(DoAbandon(s, i));
    var n := DoAbandon(s, i);
    ThreadFacts(s, i);
    MakerFacts(s, i);
    var np := s.pc[i].np;
    LocksDrop(s.pc, s.sw, s.lock, s.sched, n.pc, n.sw, i, np);
    WaitLockKeep(s.pc, s.waitLock, n.pc, i);
    var m := n.pc;
    StatesStep(s.pc, s.sw, s.st, s.chan, m, s.sw, s.st, s.chan, i);
    StatesStep(m, s.sw, s.st, s.chan, n.pc, n.sw, n.st, n.chan, np);
    MakersAbandon(s.pc, s.st, s.maker, s.built, i, np);
    FamilyAbandon(s.pc, s.st, s.parent, i, np);
    WaitKeep(s.pc, s.st, s.parent, s.waitLock, n.pc, n.st, n.parent, n.waitLock);
    IdsAbandon(s.st, s.pid, s.xstate, s.nextpid, s.exited, s.reaped, np);
  }

  lemma BuildKeeps(s: Sys, i: nat)
    requires Inv(s) && AtFork1(s, i)
    ensures Inv(DoBuild(s, i))
  {
    hide LocksOk, WaitLockOk, RunOk, StatesOk, MakersOk, FamilyOk, WaitOk, IdsOk;
    Clauses(s);
    Clauses(DoBuild(s, i));
    var n := DoBuild(s, i);
    ThreadFacts(s, i);
    MakerFacts(s, i);
    var np := s.pc[i].np;
    var m := s.pc[i := Fork2(np)];
    LocksDrop(s.pc, s.sw, s.lock, s.sched, m, s.sw, i, np);
    LocksMove(m, s.sw, n.lock, s.sched, n.pc, n.sw, np);
    WaitLockKeep(s.pc, s.waitLock, m, i);
    WaitLockKeep(m, s.waitLock, n.pc, np);
    StatesStep(s.pc, s.sw, s.st, s.chan, m, s.sw, s.st, s.chan, i);
    StatesStep(m, s.sw, s.st, s.chan, n.pc, s.sw, s.st, s.chan, np);
    MakersBuild(s.pc, s.st, s.maker, s.built, i, np);
    FamilyBuild(s.pc, s.st, s.parent, i, np);
    WaitKeep(s.pc, s.st, s.parent, s.waitLock, n.pc, n.st, n.parent, n.waitLock);
  }

  lemma ForkLockKeeps(s: Sys, i: nat)
    requires Inv(s) && CanForkLock(s, i)
    ensures Inv(DoForkLock(s, i))
  {
    hide LocksOk, WaitLockOk, RunOk, StatesOk, MakersOk, FamilyOk, WaitOk, IdsOk;
    Clauses(s);
    Clauses(DoForkLock(s, i));
    var n := DoForkLock(s, i);
    ThreadFacts(s, i);
    LocksMove(s.pc, s.sw, s.lock, s.sched, n.pc, n.sw, i);
    WaitLockTake(s.pc, n.pc, i);
    StatesStep(s.pc, s.sw, s.st, s.chan, n.pc, n.sw, n.st, n.chan, i);
    MakersKeep(s.pc, s.st, s.maker, s.built, n.pc, n.st, i);
    FamilyKeep(s.pc, s.st, s.parent, n.pc, n.st, i);
    WaitKeep(s.pc, s.st, s.parent, s.waitLock, n.pc, n.st, n.parent, n.waitLock);
  }

  lemma SetParentKeeps(s: Sys, i: nat)
    requires Inv(s) && CanSetParent(s, i)
    ensures Inv(DoSetParent(s, i))
  {
    hide LocksOk, WaitLockOk, RunOk, StatesOk, MakersOk, FamilyOk, WaitOk, IdsOk;
    Clauses(s);
    Clauses(DoSetParent(s, i));
    var n := DoSetParent(s, i);
    ThreadFacts(s, i);
    MakerFacts(s, i);
    SoleWaiter(s, i);
    var np := s.pc[i].np;
    LocksMove(s.pc, s.sw, s.lock, s.sched, n.pc, n.sw, i);
    WaitLockDrop(s.pc, s.waitLock, n.pc, i);
    StatesStep(s.pc, s.sw, s.st, s.chan, n.pc, n.sw, n.st, n.chan, i);
    MakersKeep(s.pc, s.st, s.maker, s.built, n.pc, n.st, i);
    FamilySetParent(s.pc, s.st, s.parent, i, np);
    WaitKeep(s.pc, s.st, s.parent, s.waitLock, n.pc, n.st, n.parent, n.waitLock);
  }

  lemma PublishKeeps(s: Sys, i: nat)
    requires Inv(s) && CanPublish(s, i)
    ensures Inv(DoPublish(s, i))
  {
    hide LocksOk, WaitLockOk, RunOk, StatesOk, MakersOk, FamilyOk, WaitOk, IdsOk;
    Clauses(s);
    Clauses(DoPublish(s, i));
    var n := DoPublish(s, i);
    ThreadFacts(s, i);
    MakerFacts(s, i);
    var np := s.pc[i].np;
    ThreadFacts(s, np);
    var m := s.pc[i := Run];
    LocksMove(s.pc, s.sw, s.lock, s.sched, n.pc, n.sw, i);
    WaitLockKeep(s.pc, s.waitLock, n.pc, i);
    StatesStep(s.pc, s.sw, s.st, s.chan, m, s.sw, s.st, s.chan, i);
    StatesStep(m, s.sw, s.st, s.chan, n.pc, s.sw, n.st, s.chan, np);
    MakersPublish(s.pc, s.st, s.maker, s.built, i, np);
    FamilyPublish(s.pc, s.st, s.parent, i, np);
    WaitKeep(s.pc, s.st, s.parent, s.waitLock, n.pc, n.st, n.parent, n.waitLock);
    IdsUse(s.st, s.pid, s.xstate, s.nextpid, s.exited, s.reaped, np, RUNNABLE);
  }

  lemma ExitStartKeeps(s: Sys, i: nat)
    requires Inv(s) && CanExitStart(s, i)
    ensures Inv(DoExitStart(s, i))
  {
    hide LocksOk, WaitLockOk, RunOk, StatesOk, MakersOk, FamilyOk, WaitOk, IdsOk;
    Clauses(s);
    Clauses(DoExitStart(s, i));
    var n := DoExitStart(s, i);
    ThreadFacts(s, i);
    LocksMove(s.pc, s.sw, s.lock, s.sched, n.pc, n.sw, i);
    WaitLockTake(s.pc, n.pc, i);
    StatesStep(s.pc, s.sw, s.st, s.chan, n.pc, n.sw, n.st, n.chan, i);
    MakersKeep(s.pc, s.st, s.maker, s.built, n.pc, n.st, i);
    FamilyKeep(s.pc, s.st, s.parent, n.pc, n.st, i);
    WaitKeep(s.pc, s.st, s.parent, s.waitLock, n.pc, n.st, n.parent, n.waitLock);
  }

  lemma ExitLockKeeps(s: Sys, i: nat, status: int)
    requires Inv(s) && CanExitLock(s, i)
    ensures Inv(DoExitLock(s, i, status))
  {
    hide LocksOk, WaitLockOk, RunOk, StatesOk, MakersOk, FamilyOk, WaitOk, IdsOk;
    Clauses(s);
    Clauses(DoExitLock(s, i, status));
    var n := DoExitLock(s, i, status);
    ThreadFacts(s, i);
    SoleWaiter(s, i);
    LocksTake(s.pc, s.sw, s.lock, s.sched, n.pc, n.sw, i, i);
    WaitLockKeep(s.pc, s.waitLock, n.pc, i);
    StatesStep(s.pc, s.sw, s.st, s.chan, n.pc, n.sw, n.st, n.chan, i);
    MakersKeep(s.pc, s.st, s.maker, s.built, n.pc, n.st, i);
    FamilyZombie(s.pc, s.st, s.parent, i);
    WaitZombie(s.pc, s.st, s.parent, i);
    IdsExit(s.st, s.pid, s.xstate, s.nextpid, s.exited, s.reaped, i, status);
  }

  lemma ExitUnlockKeeps(s: Sys, i: nat)
    requires Inv(s) && CanExitUnlock(s, i)
    ensures Inv(DoExitUnlock(s, i))
  {
    hide LocksOk, WaitLockOk, RunOk, StatesOk, MakersOk, FamilyOk, WaitOk, IdsOk;
    Clauses(s);
    Clauses(DoExitUnlock(s, i));
    var n := DoExitUnlock(s, i);
    ThreadFacts(s, i);
    LocksMove(s.pc, s.sw, s.lock, s.sched, n.pc, n.sw, i);
    WaitLockDrop(s.pc, s.waitLock, n.pc, i);
    RunKeep(s.sw, s.sched, s.cpu, s.on, n.sw, i);
    StatesStep(s.pc, s.sw, s.st, s.chan, n.pc, n.sw, n.st, n.chan, i);
    MakersKeep(s.pc, s.st, s.maker, s.built, n.pc, n.st, i);
    FamilyKeep(s.pc, s.st, s.parent, n.pc, n.st, i);
    WaitKeep(s.pc, s.st, s.parent, s.waitLock, n.pc, n.st, n.parent, n.waitLock);
  }

  lemma WaitStartKeeps(s: Sys, i: nat)
    requires Inv(s) && CanWaitStart(s, i)
    ensures Inv(DoWaitStart(s, i))
  {
    hide LocksOk, WaitLockOk, RunOk, StatesOk, MakersOk, FamilyOk, WaitOk, IdsOk;
    Clauses(s);
    Clauses(DoWaitStart(s, i));
    var n := DoWaitStart(s, i);
    ThreadFacts(s, i);
    LocksMove(s.pc, s.sw, s.lock, s.sched, n.pc, n.sw, i);
    WaitLockTake(s.pc, n.pc, i);
    StatesStep(s.pc, s.sw, s.st, s.chan, n.pc, n.sw, n.st, n.chan, i);
    MakersKeep(s.pc, s.st, s.maker, s.built, n.pc, n.st, i);
    FamilyKeep(s.pc, s.st, s.parent, n.pc, n.st, i);
    WaitKeep(s.pc, s.st, s.parent, s.waitLock, n.pc, n.st, n.parent, n.waitLock);
  }

  lemma ReapFailsKeeps(s: Sys, i: nat)
    requires Inv(s) && AtChild(s, i)
    ensures Inv(DoReapFails(s, i))
  {
    hide LocksOk, WaitLockOk, RunOk, StatesOk, MakersOk, FamilyOk, WaitOk, IdsOk;
    Clauses(s);
    Clauses(DoReapFails(s, i));
    var n := DoReapFails(s, i);
    ThreadFacts(s, i);
    LocksDrop(s.pc, s.sw, s.lock, s.sched, n.pc, n.sw, i, s.pc[i].k);
    WaitLockDrop(s.pc, s.waitLock, n.pc, i);
    StatesStep(s.pc, s.sw, s.st, s.chan, n.pc, n.sw, n.st, n.chan, i);
    MakersKeep(s.pc, s.st, s.maker, s.built, n.pc, n.st, i);
    FamilyKeep(s.pc, s.st, s.parent, n.pc, n.st, i);
    WaitKeep(s.pc, s.st, s.parent, s.waitLock, n.pc, n.st, n.parent, n.waitLock);
  }

  lemma NotYetKeeps(s: Sys, i: nat)
    requires Inv(s) && AtChild(s, i) && s.st[s.pc[i].k] != ZOMBIE
    ensures Inv(DoNotYet(s, i))
  {
    hide LocksOk, WaitLockOk, RunOk, StatesOk, MakersOk, FamilyOk, WaitOk, IdsOk;
    Clauses(s);
    Clauses(DoNotYet(s, i));
    var n := DoNotYet(s, i);
    ThreadFacts(s, i);
    LocksDrop(s.pc, s.sw, s.lock, s.sched, n.pc, n.sw, i, s.pc[i].k);
    WaitLockKeep(s.pc, s.waitLock, n.pc, i);
    StatesStep(s.pc, s.sw, s.st, s.chan, n.pc, n.sw, n.st, n.chan, i);
    MakersKeep(s.pc, s.st, s.maker, s.built, n.pc, n.st, i);
    FamilyKeep(s.pc, s.st, s.parent, n.pc, n.st, i);
    WaitAdvance(s.pc, s.st, s.parent, s.waitLock, i, n.pc[i]);
  }

  lemma WaitEndKeeps(s: Sys, i: nat)
    requires Inv(s) && CanWaitEnd(s, i)
    ensures Inv(DoWaitEnd(s, i))
  {
    hide LocksOk, WaitLockOk, RunOk, StatesOk, MakersOk, FamilyOk, WaitOk, IdsOk;
    Clauses(s);
    Clauses(DoWaitEnd(s, i));
    var n := DoWaitEnd(s, i);
    ThreadFacts(s, i);
    LocksMove(s.pc, s.sw, s.lock, s.sched, n.pc, n.sw, i);
    WaitLockDrop(s.pc, s.waitLock, n.pc, i);
    StatesStep(s.pc, s.sw, s.st, s.chan, n.pc, n.sw, n.st, n.chan, i);
    MakersKeep(s.pc, s.st, s.maker, s.built, n.pc, n.st, i);
    FamilyKeep(s.pc, s.st, s.parent, n.pc, n.st, i);
    WaitKeep(s.pc, s.st, s.parent, s.waitLock, n.pc, n.st, n.parent, n.waitLock);
  }

  lemma StayKeeps(s: Sys, i: nat)
    requires Inv(s) && CanStay(s, i)
    ensures Inv(DoStay(s, i))
  {
    hide LocksOk, WaitLockOk, RunOk, StatesOk, MakersOk, FamilyOk, WaitOk, IdsOk;
    Clauses(s);
    Clauses(DoStay(s, i));
    var n := DoStay(s, i);
    ThreadFacts(s, i);
    LocksMove(s.pc, s.sw, s.lock, s.sched, n.pc, n.sw, i);
    WaitLockKeep(s.pc, s.waitLock, n.pc, i);
    StatesStep(s.pc, s.sw, s.st, s.chan, n.pc, n.sw, n.st, n.chan, i);
    MakersKeep(s.pc, s.st, s.maker, s.built, n.pc, n.st, i);
    FamilyKeep(s.pc, s.st, s.parent, n.pc, n.st, i);
    WaitKeep(s.pc, s.st, s.parent, s.waitLock, n.pc, n.st, n.parent, n.waitLock);
  }

  lemma WaitStopKeeps(s: Sys, i: nat)
    requires Inv(s) && CanWaitStop(s, i)
    ensures Inv(DoWaitStop(s, i))
  {
    hide LocksOk, WaitLockOk, RunOk, StatesOk, MakersOk, FamilyOk, WaitOk, IdsOk;
    Clauses(s);
    Clauses(DoWaitStop(s, i));
    var n := DoWaitStop(s, i);
    ThreadFacts(s, i);
    LocksTake(s.pc, s.sw, s.lock, s.sched, n.pc, n.sw, i, i);
    WaitLockKeep(s.pc, s.waitLock, n.pc, i);
    StatesStep(s.pc, s.sw, s.st, s.chan, n.pc, n.sw, n.st, n.chan, i);
    MakersKeep(s.pc, s.st, s.maker, s.built, n.pc, n.st, i);
    FamilyKeep(s.pc, s.st, s.parent, n.pc, n.st, i);
    WaitKeep(s.pc, s.st, s.parent, s.waitLock, n.pc, n.st, n.parent, n.waitLock);
  }

  lemma WaitUnlockKeeps(s: Sys, i: nat)
    requires Inv(s) && Running(s, i) && s.pc[i] == WaitLock
    ensures Inv(DoWaitUnlock(s, i))
  {
    hide LocksOk, WaitLockOk, RunOk, StatesOk, MakersOk, FamilyOk, WaitOk, IdsOk;
    Clauses(s);
    Clauses(DoWaitUnlock(s, i));
    var n := DoWaitUnlock(s, i);
    ThreadFacts(s, i);
    SoleWaiter(s, i);
    LocksMove(s.pc, s.sw, s.lock, s.sched, n.pc, n.sw, i);
    WaitLockDrop(s.pc, s.waitLock, n.pc, i);
    StatesStep(s.pc, s.sw, s.st, s.chan, n.pc, n.sw, n.st, n.chan, i);
    MakersKeep(s.pc, s.st, s.maker, s.built, n.pc, n.st, i);
    FamilyKeep(s.pc, s.st, s.parent, n.pc, n.st, i);
    WaitFall(s.pc, s.st, s.parent, i);
  }

  lemma SetSleepingKeeps(s: Sys, i: nat)
    requires Inv(s) && CanSetSleeping(s, i)
    ensures Inv(DoSetSleeping(s, i))
  {
    hide LocksOk, WaitLockOk, RunOk, StatesOk, MakersOk, FamilyOk, WaitOk, IdsOk;
    Clauses(s);
    Clauses(DoSetSleeping(s, i));
    var n := DoSetSleeping(s, i);
    ThreadFacts(s, i);
    LocksMove(s.pc, s.sw, s.lock, s.sched, n.pc, n.sw, i);
    WaitLockKeep(s.pc, s.waitLock, n.pc, i);
    RunKeep(s.sw, s.sched, s.cpu, s.on, n.sw, i);
    StatesStep(s.pc, s.sw, s.st, s.chan, n.pc, n.sw, n.st, n.chan, i);
    MakersKeep(s.pc, s.st, s.maker, s.built, n.pc, n.st, i);
    FamilyKeep(s.pc, s.st, s.parent, n.pc, n.st, i);
    WaitKeep(s.pc, s.st, s.parent, s.waitLock, n.pc, n.st, n.parent, n.waitLock);
    IdsKeep(s.st, s.pid, s.xstate, s.nextpid, s.exited, s.reaped, n.st);
  }

  lemma TestKeeps(s: Sys, c: nat, j: nat)
    requires Inv(s) && CanTest(s, c, j)
    ensures Inv(DoTest(s, c, j))
  {
    hide LocksOk, WaitLockOk, RunOk, StatesOk, MakersOk, FamilyOk, WaitOk, IdsOk;
    Clauses(s);
    Clauses(DoTest(s, c, j));
    var n := DoTest(s, c, j);
    LocksTest(s.pc, s.sw, s.lock, s.sched, c, j);
    RunTest(s.sw, s.sched, s.cpu, s.on, c, j);
  }

  lemma SkipKeeps(s: Sys, c: nat)
    requires Inv(s) && IsTesting(s, c)
    ensures Inv(DoSkip(s, c))
  {
    hide LocksOk, WaitLockOk, RunOk, StatesOk, MakersOk, FamilyOk, WaitOk, IdsOk;
    Clauses(s);
    Clauses(DoSkip(s, c));
    var n := DoSkip(s, c);
    TestedFacts(s, c);
    assert s.cpu[c := None] == s.cpu;
    LocksIdle(s.pc, s.sw, s.lock, s.sched, c, s.sched[c].j);
    RunIdle(s.sw, s.sched, s.cpu, s.on, c);
  }

  lemma ResumeKeeps(s: Sys, c: nat)
    requires Inv(s) && CanResume(s, c)
    ensures Inv(DoResume(s, c))
  {
    hide LocksOk, WaitLockOk, RunOk, StatesOk, MakersOk, FamilyOk, WaitOk, IdsOk;
    Clauses(s);
    Clauses(DoResume(s, c));
    var n := DoResume(s, c);
    LocksIdle(s.pc, s.sw, s.lock, s.sched, c, s.sched[c].j);
    RunIdle(s.sw, s.sched, s.cpu, s.on, c);
  }

  lemma DispatchKeeps(s: Sys, c: nat)
    requires Inv(s) && IsTesting(s, c) && s.st[s.sched[c].j] == RUNNABLE
    ensures Inv(DoDispatch(s, c))
  {
    hide LocksOk, WaitLockOk, RunOk, StatesOk, MakersOk, FamilyOk, WaitOk, IdsOk;
    Clauses(s);
    Clauses(DoDispatch(s, c));
    var n := DoDispatch(s, c);
    var j := s.sched[c].j;
    TestedFacts(s, c);
    ThreadFacts(s, j);
    LocksDispatch(s.pc, s.sw, s.lock, s.sched, c, j);
    RunDispatch(s.sw, s.sched, s.cpu, s.on, c, j);
    StatesStep(s.pc, s.sw, s.st, s.chan, n.pc, n.sw, n.st, n.chan, j);
    MakersKeep(s.pc, s.st, s.maker, s.built, n.pc, n.st, j);
    FamilyKeep(s.pc, s.st, s.parent, n.pc, n.st, j);
    WaitKeep(s.pc, s.st, s.parent, s.waitLock, n.pc, n.st, n.parent, n.waitLock);
    IdsKeep(s.st, s.pid, s.xstate, s.nextpid, s.exited, s.reaped, n.st);
  }

  lemma WakingFacts(s: Sys, i: nat)
    requires Inv(s) && i < NPROC && s.pc[i].Waking?
    ensures s.pc[i].after.ToDie? ==> s.parent[i].Some? && s.pc[i].chan == ProcChan(s.parent[i].value)
    ensures s.pc[i].after.ToReparent? ==> s.pc[i].chan == ProcChan(INIT)
  {
    Clauses(s);
  }

  /** A process whose lock is free and that sleeps in wait() is SLEEPING on itself. */
  lemma UnlockedSleeper(s: Sys, j: nat)
    requires Inv(s) && j < NPROC && s.lock[j] == Free
    ensures s.pc[j] != WaitSet && (Asleep(s.pc[j], s.st[j]) ==> s.chan[j] == ProcChan(j))
  {
    Clauses(s);
    LockFacts(s, j, j);
    ThreadFacts(s, j);
  }

  /** Points of wakeup() and kill() outside exit(). */
  predicate Plain(pc: Pc) { pc.Run? || pc.Killing? || (pc.Waking? && pc.after.ToRun?) }

  lemma MoveKeeps(s: Sys, i: nat, q: Pc)
    requires Inv(s) && Running(s, i) && Plain(s.pc[i]) && Plain(q)
    ensures Inv(GoTo(s, i, q))
  {
    hide LocksOk, WaitLockOk, RunOk, StatesOk, MakersOk, FamilyOk, WaitOk, IdsOk;
    Clauses(s);
    Clauses(GoTo(s, i, q));
    var n := GoTo(s, i, q);
    ThreadFacts(s, i);
    LocksMove(s.pc, s.sw, s.lock, s.sched, n.pc, n.sw, i);
    WaitLockKeep(s.pc, s.waitLock, n.pc, i);
    StatesStep(s.pc, s.sw, s.st, s.chan, n.pc, n.sw, n.st, n.chan, i);
    MakersKeep(s.pc, s.st, s.maker, s.built, n.pc, n.st, i);
    FamilyKeep(s.pc, s.st, s.parent, n.pc, n.st, i);
    WaitKeep(s.pc, s.st, s.parent, s.waitLock, n.pc, n.st, n.parent, n.waitLock);
  }

  lemma RouseKeeps(s: Sys, j: nat)
    requires Inv(s) && At(s, j) && s.lock[j] == Free && s.st[j] == SLEEPING
    ensures Inv(DoInterruptWake(s, j))
  {
    hide LocksOk, WaitLockOk, RunOk, StatesOk, MakersOk, FamilyOk, WaitOk, IdsOk;
    Clauses(s);
    var n := DoInterruptWake(s, j);
    LockFacts(s, j, j);
    ThreadFacts(s, j);
    StatesStep(s.pc, s.sw, s.st, s.chan, n.pc, n.sw, n.st, n.chan, j);
    MakersKeep(s.pc, s.st, s.maker, s.built, n.pc, n.st, j);
    FamilyKeep(s.pc, s.st, s.parent, n.pc, n.st, j);
    WaitKeep(s.pc, s.st, s.parent, s.waitLock, n.pc, n.st, n.parent, n.waitLock);
    IdsKeep(s.st, s.pid, s.xstate, s.nextpid, s.exited, s.reaped, n.st);
  }

  lemma PassKeeps(s: Sys, i: nat)
    requires Inv(s) && Running(s, i) && s.pc[i].Waking? && s.pc[i].j < NPROC && !s.pc[i].after.ToRun?
    requires s.pc[i].chan == ProcChan(s.pc[i].j) ==> !Asleep(s.pc[s.pc[i].j], s.st[s.pc[i].j])
    ensures Inv(GoTo(s, i, Waking(s.pc[i].chan, s.pc[i].j + 1, s.pc[i].after)))
  {
    hide LocksOk, WaitLockOk, RunOk, StatesOk, MakersOk, FamilyOk, WaitOk, IdsOk;
    Clauses(s);
    Clauses(GoTo(s, i, Waking(s.pc[i].chan, s.pc[i].j + 1, s.pc[i].after)));
    var n := GoTo(s, i, Waking(s.pc[i].chan, s.pc[i].j + 1, s.pc[i].after));
    ThreadFacts(s, i);
    WakingFacts(s, i);
    LocksMove(s.pc, s.sw, s.lock, s.sched, n.pc, n.sw, i);
    WaitLockKeep(s.pc, s.waitLock, n.pc, i);
    StatesStep(s.pc, s.sw, s.st, s.chan, n.pc, n.sw, n.st, n.chan, i);
    MakersKeep(s.pc, s.st, s.maker, s.built, n.pc, n.st, i);
    FamilyKeep(s.pc, s.st, s.parent, n.pc, n.st, i);
    WaitPass(s.pc, s.st, s.parent, s.waitLock, s.st, i);
  }

  lemma WakeOneKeeps(s: Sys, i: nat)
    requires Inv(s) && CanWakeOne(s, i)
    ensures Inv(DoWakeOne(s, i))
  {
    hide LocksOk, WaitLockOk, RunOk, StatesOk, MakersOk, FamilyOk, WaitOk, IdsOk;
    Clauses(s);
    var w := s.pc[i];
    if w.j >= NPROC {
      WakeEndKeeps(s, i);
    } else {
      ThreadFacts(s, i);
      WakingFacts(s, i);
      var s1 := s;
      if w.j != i {
        UnlockedSleeper(s, w.j);
        if s.st[w.j] == SLEEPING && s.chan[w.j] == w.chan {
          RouseKeeps(s, w.j);
          s1 := DoInterruptWake(s, w.j);
        }
      }
      if w.after.ToRun? {
        MoveKeeps(s1, i, Waking(w.chan, w.j + 1, w.after));
      } else {
        PassKeeps(s1, i);
      }
    }
  }

  lemma KillOneKeeps(s: Sys, i: nat)
    requires Inv(s) && CanKillOne(s, i)
    ensures Inv(DoKillOne(s, i))
  {
    hide LocksOk, WaitLockOk, RunOk, StatesOk, MakersOk, FamilyOk, WaitOk, IdsOk;
    Clauses(s);
    var j := s.pc[i].j;
    if j < NPROC && s.pid[j] == s.pc[i].pid && s.st[j] == SLEEPING {
      RouseKeeps(s, j);
      MoveKeeps(DoInterruptWake(s, j), i, Run);
      Clauses(GoTo(DoInterruptWake(s, j), i, Run));
    } else {
      MoveKeeps(s, i, DoKillOne(s, i).pc[i]);
      Clauses(GoTo(s, i, DoKillOne(s, i).pc[i]));
    }
    Clauses(DoKillOne(s, i));
  }

  lemma WakeEndKeeps(s: Sys, i: nat)
    requires Inv(s) && CanWakeOne(s, i) && s.pc[i].j >= NPROC
    ensures Inv(DoWakeOne(s, i))
  {
    hide LocksOk, WaitLockOk, RunOk, StatesOk, MakersOk, FamilyOk, WaitOk, IdsOk;
    Clauses(s);
    Clauses(DoWakeOne(s, i));
    var n := DoWakeOne(s, i);
    ThreadFacts(s, i);
    LocksMove(s.pc, s.sw, s.lock, s.sched, n.pc, n.sw, i);
    WaitLockKeep(s.pc, s.waitLock, n.pc, i);
    StatesStep(s.pc, s.sw, s.st, s.chan, n.pc, n.sw, n.st, n.chan, i);
    MakersKeep(s.pc, s.st, s.maker, s.built, n.pc, n.st, i);
    FamilyKeep(s.pc, s.st, s.parent, n.pc, n.st, i);
    WaitKeep(s.pc, s.st, s.parent, s.waitLock, n.pc, n.st, n.parent, n.waitLock);
  }

  lemma ReparentKeeps(s: Sys, i: nat)
    requires Inv(s) && AtExitR(s, i)
    ensures Inv(DoReparentOne(s, i))
  {
    hide LocksOk, WaitLockOk, RunOk, StatesOk, MakersOk, FamilyOk, WaitOk, IdsOk;
    Clauses(s);
    Clauses(DoReparentOne(s, i));
    var n := DoReparentOne(s, i);
    ThreadFacts(s, i);
    SoleWaiter(s, i);
    var k := s.pc[i].k;
    LocksMove(s.pc, s.sw, s.lock, s.sched, n.pc, n.sw, i);
    WaitLockKeep(s.pc, s.waitLock, n.pc, i);
    StatesStep(s.pc, s.sw, s.st, s.chan, n.pc, n.sw, n.st, n.chan, i);
    MakersKeep(s.pc, s.st, s.maker, s.built, n.pc, n.st, i);
    if k >= NPROC {
      FamilyDie(s.pc, s.st, s.parent, i);
      WaitKeep(s.pc, s.st, s.parent, s.waitLock, n.pc, n.st, n.parent, n.waitLock);
    } else if s.parent[k] == Some(i) {
      FamilyReparent(s.pc, s.st, s.parent, i, k);
      WaitReparent(s.pc, s.st, s.parent, i, k);
    } else {
      FamilySkip(s.pc, s.st, s.parent, i, k);
      WaitKeep(s.pc, s.st, s.parent, s.waitLock, n.pc, n.st, n.parent, n.waitLock);
    }
  }

  lemma LookKeeps(s: Sys, i: nat)
    requires Inv(s) && CanLook(s, i)
    ensures Inv(DoLook(s, i))
  {
    hide LocksOk, WaitLockOk, RunOk, StatesOk, MakersOk, FamilyOk, WaitOk, IdsOk;
    Clauses(s);
    Clauses(DoLook(s, i));
    var n := DoLook(s, i);
    ThreadFacts(s, i);
    var k := s.pc[i].k;
    if k < NPROC && s.parent[k] == Some(i) {
      LocksTake(s.pc, s.sw, s.lock, s.sched, n.pc, n.sw, i, k);
      FamilyLook(s.pc, s.st, s.parent, i, k);
    } else {
      LocksMove(s.pc, s.sw, s.lock, s.sched, n.pc, n.sw, i);
      FamilyKeep(s.pc, s.st, s.parent, n.pc, n.st, i);
    }
    WaitLockKeep(s.pc, s.waitLock, n.pc, i);
    StatesStep(s.pc, s.sw, s.st, s.chan, n.pc, n.sw, n.st, n.chan, i);
    MakersKeep(s.pc, s.st, s.maker, s.built, n.pc, n.st, i);
    WaitAdvance(s.pc, s.st, s.parent, s.waitLock, i, n.pc[i]);
  }

  lemma ReapKeeps(s: Sys, i: nat)
    requires Inv(s) && AtChild(s, i) && s.st[s.pc[i].k] == ZOMBIE
    ensures Inv(DoReap(s, i))
  {
    hide LocksOk, WaitLockOk, RunOk, StatesOk, MakersOk, FamilyOk, WaitOk, IdsOk;
    Clauses(s);
    Clauses(DoReap(s, i));
    var n := DoReap(s, i);
    var k := s.pc[i].k;
    ReapFacts(s, i);
    ThreadFacts(s, i);
    ThreadFacts(s, k);
    var m := s.pc[i := Run];
    LocksDrop(s.pc, s.sw, s.lock, s.sched, m, s.sw, i, k);
    LocksMove(m, s.sw, n.lock, s.sched, n.pc, n.sw, k);
    WaitLockDrop(s.pc, s.waitLock, m, i);
    WaitLockKeep(m, None, n.pc, k);
    StatesStep(s.pc, s.sw, s.st, s.chan, m, s.sw, s.st, s.chan, i);
    StatesStep(m, s.sw, s.st, s.chan, n.pc, s.sw, n.st, n.chan, k);
    MakersReap(s.pc, s.st, s.maker, s.built, i, k);
    FamilyReap(s.pc, s.st, s.parent, i, k);
    WaitReap(s.pc, s.st, s.parent, i, k);
    IdsReap(s.st, s.pid, s.xstate, s.nextpid, s.exited, s.reaped, k);
  }

  lemma SwitchKeeps(s: Sys, i: nat, w: SwitchStep)
    requires Inv(s) && CanSwitch(s, i, w)
    ensures Inv(DoSwitch(s, i, w))
  {
    hide Inv;
    match w
    case Yield => YieldKeeps(s, i);
    case SleepOn(n) => SleepOnKeeps(s, i, n);
    case SwitchOut => SwitchOutKeeps(s, i);
    case ReleaseSelf => ReleaseSelfKeeps(s, i);
  }

  lemma ForkKeeps(s: Sys, i: nat, f: ForkStep)
    requires Inv(s) && CanFork(s, i, f)
    ensures Inv(DoFork(s, i, f))
  {
    hide Inv;
    match f
    case Alloc(np) => AllocKeeps(s, i, np);
    case AbandonFork => AbandonKeeps(s, i);
    case Build => BuildKeeps(s, i);
    case ForkLock => ForkLockKeeps(s, i);
    case SetParent => SetParentKeeps(s, i);
    case Publish => PublishKeeps(s, i);
  }

  lemma WakeKeeps(s: Sys, i: nat, k: WakeStep)
    requires Inv(s) && CanWake(s, i, k)
    ensures Inv(DoWake(s, i, k))
  {
    hide Inv;
    match k
    case StartWakeup(n) => MoveKeeps(s, i, Waking(Other(n), 0, ToRun));
    case WakeOne => WakeOneKeeps(s, i);
    case KillStart(pid) => MoveKeeps(s, i, Killing(pid, 0));
    case KillOne => KillOneKeeps(s, i);
  }

  lemma ExitKeeps(s: Sys, i: nat, e: ExitStep)
    requires Inv(s) && CanExit(s, i, e)
    ensures Inv(DoExit(s, i, e))
  {
    hide Inv;
    match e
    case ExitStart => ExitStartKeeps(s, i);
    case ReparentOne => ReparentKeeps(s, i);
    case ExitLock(status) => ExitLockKeeps(s, i, status);
    case ExitUnlock => ExitUnlockKeeps(s, i);
  }

  lemma WaitStepKeeps(s: Sys, i: nat, t: WaitStep)
    requires Inv(s) && CanWait(s, i, t)
    ensures Inv(DoWait(s, i, t))
  {
    hide Inv;
    match t
    case WaitStart => WaitStartKeeps(s, i);
    case Look => LookKeeps(s, i);
    case Reap => ReapKeeps(s, i);
    case ReapFails => ReapFailsKeeps(s, i);
    case NotYet => NotYetKeeps(s, i);
    case WaitEnd => WaitEndKeeps(s, i);
    case Stay => StayKeeps(s, i);
    case WaitStop => WaitStopKeeps(s, i);
    case WaitUnlock => WaitUnlockKeeps(s, i);
    case SetSleeping => SetSleepingKeeps(s, i);
  }

  lemma SchedKeeps(s: Sys, c: nat, d: SchedStep)
    requires Inv(s) && CanSched(s, c, d)
    ensures Inv(DoSched(s, c, d))
  {
    hide Inv;
    match d
    case Test(j) => TestKeeps(s, c, j);
    case Skip => SkipKeeps(s, c);
    case Dispatch => DispatchKeeps(s, c);
    case Resume => ResumeKeeps(s, c);
  }

  lemma StepKeepsInv(s: Sys, a: Action)
    requires Inv(s) && Enabled(s, a)
    ensures Inv(Next(s, a))
  {
    hide Inv;
    match a
    case Switches(i, w) => SwitchKeeps(s, i, w);
    case Forks(i, f) => ForkKeeps(s, i, f);
    case Wakes(i, k) => WakeKeeps(s, i, k);
    case Exits(i, e) => ExitKeeps(s, i, e);
    case Waits(i, t) => WaitStepKeeps(s, i, t);
    case Interrupt(j, n) => RouseKeeps(s, j);
    case Schedules(c, d) => SchedKeeps(s, c, d);
  }

  // ----- Runs -----

  /** After userinit: init is RUNNABLE in slot 0 with pid 1; every CPU is in scheduler(). */
  function Booted(): Sys {
    Sys(st := seq(NPROC, _ =>
        UNUSED)[INIT := RUNNABLE], parent := seq(NPROC, _ => None), chan := seq(NPROC, _ => Nowhere),
        killed := seq(NPROC, _ => false), xstate := seq(NPROC, _ => 0), pid := seq(NPROC, _ => 0)[INIT := 1],
        built := seq(NPROC, _ =>
            false)[INIT := true], lock := seq(NPROC, _ => Free), pc := seq(NPROC, _ => Absent)[INIT := Run],
        sw := seq(NPROC, _ => Off), waitLock := None, nextpid := 2,
        sched := seq(NCPU, _ => Idle), cpu := seq(NCPU, _ => None),
        on := seq(NPROC, _ => None), maker := seq(NPROC, _ => None), exited := map[], reaped := {})
  }

  predicate JustBooted(s: Sys) {
    && Shape(s) && s.waitLock == None && s.nextpid == 2 && s.exited == map[] && s.reaped == {}
    && (forall i :: 0 <= i < NPROC ==>
          s.parent[i] == None && s.lock[i] == Free && s.sw[i] == Off && s.on[i] == None && s.maker[i] == None)
    && (forall i :: 0 <= i < NPROC ==>
          if i == INIT then s.st[i] == RUNNABLE && s.pid[i] == 1 && s.built[i] && s.pc[i] == Run
          else s.st[i] == UNUSED && s.pid[i] == 0 && s.pc[i] == Absent)
    && (forall c :: 0 <= c < NCPU ==> s.sched[c] == Idle && s.cpu[c] == None)
  }

  lemma BootedSwitch(s: Sys)
    requires JustBooted(s)
    ensures LocksOk(s.pc, s.sw, s.lock, s.sched) && WaitLockOk(s.pc, s.waitLock) && RunOk(s.sw, s.sched, s.cpu, s.on)
    ensures StatesOk(s.pc, s.sw, s.st, s.chan)
  {
  }

  lemma BootedFamily(s: Sys)
    requires JustBooted(s)
    ensures MakersOk(s.pc, s.st, s.maker, s.built) && FamilyOk(s.pc, s.st, s.parent)
  {
  }

  lemma BootedWait(s: Sys)
    requires JustBooted(s)
    ensures WaitOk(s.pc, s.st, s.parent, s.waitLock)
    ensures IdsOk(s.st, s.pid, s.xstate, s.nextpid, s.exited, s.reaped)
  {
  }

  lemma BootedIs()
    ensures JustBooted(Booted())
  {
  }

  lemma BootedOk()
    ensures Inv(Booted())
  {
    hide Booted, LocksOk, WaitLockOk, RunOk, StatesOk, MakersOk, FamilyOk, WaitOk, IdsOk;
    Clauses(Booted());
    BootedIs();
    BootedSwitch(Booted());
    BootedFamily(Booted());
    BootedWait(Booted());
  }

  ghost predicate Leads(s: Sys, acts: seq<Action>, r: Sys)
    decreases |acts|
  {
    if acts == [] then r == s else Enabled(s, acts[0]) && Leads(Next(s, acts[0]), acts[1..], r)
  }

  lemma {:induction false} RunsKeepInv(s: Sys, acts: seq<Action>, r: Sys)
    requires Inv(s) && Leads(s, acts, r)
    ensures Inv(r)
    decreases |acts|
  {
    hide Inv, Enabled, Next;
    if acts != [] {
      StepKeepsInv(s, acts[0]);
      RunsKeepInv(Next(s, acts[0]), acts[1..], r);
    }
  }

  ghost predicate Reachable(s: Sys) { Shape(s) && exists acts :: Leads(Booted(), acts, s) }

  lemma ReachableOk(s: Sys)
    requires Reachable(s)
    ensures Inv(s)
  {
    hide Inv, Enabled, Next;
    var acts :| Leads(Booted(), acts, s);
    BootedOk();
    RunsKeepInv(Booted(), acts, s);
  }

  // The theorems that follow are about every state of the invariant, so about every reachable one.

  // ----- fork's unlocked publish -----

  lemma ForkLeavesUsed(s: Sys, i: nat, f: ForkStep, j: nat)
    requires Inv(s) && CanFork(s, i, f) && j < NPROC && s.st[j] == USED && DoFork(s, i, f).st[j] != USED
    ensures (f == AbandonFork || f == Publish) && s.maker[j] == Some(i)
  {
    hide Inv;
    if Making(s.pc[i]).Some? {
      MakerFacts(s, i);
    }
  }

  lemma OthersLeaveUsed(s: Sys, a: Action, j: nat)
    requires Inv(s) && Enabled(s, a) && !a.Forks? && j < NPROC && s.st[j] == USED
    ensures Next(s, a).st[j] == USED
  {
    hide Inv;
    ThreadFacts(s, j);
  }

  /** A USED slot changes state only through the thread that allocated it, by fork failing or publishing. */
  lemma OnlyMakerPublishes(s: Sys, a: Action, j: nat)
    requires Inv(s) && Enabled(s, a) && j < NPROC && s.st[j] == USED && Next(s, a).st[j] != USED
    ensures a.Forks? && (a.f == AbandonFork || a.f == Publish) && s.maker[j] == Some(a.i)
  {
    hide Inv, DoFork;
    if a.Forks? {
      ForkLeavesUsed(s, a.i, a.f, j);
    } else {
      OthersLeaveUsed(s, a, j);
    }
  }

  /** Whatever a scheduler may pick is fully built, has a parent unless it is init, and has a pid. */
  lemma RunnableIsComplete(s: Sys, j: nat)
    requires Inv(s) && j < NPROC && s.st[j] == RUNNABLE
    ensures s.built[j] && (j != INIT ==> s.parent[j].Some?) && s.pid[j] > 0
  {
    hide LocksOk, WaitLockOk, RunOk, StatesOk, WaitOk;
    Clauses(s);
  }

  /** When its lock is free, a process is RUNNING exactly when one CPU's c->proc names it. */
  lemma RunningOnOneCpu(s: Sys, j: nat)
    requires Inv(s) && j < NPROC
    ensures s.lock[j] == Free ==> (s.st[j] == RUNNING <==> exists c :: 0 <= c < NCPU && s.cpu[c] == Some(j))
    ensures forall c, d :: 0 <= c < NCPU && 0 <= d < NCPU && s.cpu[c] == Some(j) && s.cpu[d] == Some(j) ==> c == d
  {
    hide WaitLockOk, StatesOk, MakersOk, FamilyOk, WaitOk, IdsOk;
    Clauses(s);
    ThreadFacts(s, j);
    LockFacts(s, j, j);
    assert forall c :: 0 <= c < NCPU && s.sched[c] == Returned(j) ==>
        SchedHolds(s.sched[c], j) && s.lock[j] == BySched(c);
    if s.on[j].Some? {
      assert s.cpu[s.on[j].value] == Some(j);
    }
  }

  /** sched() never panics: p->lock is held, wait_lock and every other process's lock is not, and the
      state has been changed; and a dead thread is never switched in again. */
  lemma SchedNeverPanics(s: Sys, i: nat)
    requires Inv(s) && i < NPROC && s.sw[i] == Leaving
    ensures s.st[i] != RUNNING && s.waitLock != Some(i)
    ensures forall j :: 0 <= j < NPROC ==> (s.lock[j] == ByThread(i) <==> j == i)
  {
    hide LocksOk, RunOk, MakersOk, FamilyOk, WaitOk, IdsOk;
    Clauses(s);
    ThreadFacts(s, i);
    forall j | 0 <= j < NPROC ensures s.lock[j] == ByThread(i) <==> j == i {
      LockFacts(s, i, j);
    }
  }

  lemma ZombiesStayOut(s: Sys, i: nat)
    requires Inv(s) && i < NPROC && s.st[i] == ZOMBIE
    ensures s.sw[i] != Coming && (s.lock[i] == Free ==> s.pc[i] == Dead && s.sw[i] == Off)
  {
    ThreadFacts(s, i);
    LockFacts(s, i, i);
  }

  // ----- exit and wait -----

  /** Whenever wait_lock is free, no process asleep in wait(), or about to be, has a ZOMBIE child. */
  lemma NoLostExit(s: Sys, i: nat, z: nat)
    requires Inv(s) && s.waitLock == None && i < NPROC && z < NPROC && Asleep(s.pc[i], s.st[i])
    ensures !(s.st[z] == ZOMBIE && s.parent[z] == Some(i))
  {
    hide LocksOk, WaitLockOk, RunOk, StatesOk, MakersOk, FamilyOk, IdsOk;
    Clauses(s);
  }

  /** A successful wait() takes a child of the caller whose pid was never reaped before, and hands over
      the pid and the status which that process gave to exit(). */
  lemma ReapsOwnChildOnce(s: Sys, i: nat)
    requires Inv(s) && AtChild(s, i) && s.st[s.pc[i].k] == ZOMBIE
    ensures s.parent[s.pc[i].k] == Some(i)
    ensures s.pid[s.pc[i].k] !in s.reaped && DoReap(s, i).reaped == s.reaped + {s.pid[s.pc[i].k]}
    ensures s.pid[s.pc[i].k] in s.exited && s.xstate[s.pc[i].k] == s.exited[s.pid[s.pc[i].k]]
  {
    hide LocksOk, WaitLockOk, RunOk, StatesOk, MakersOk, WaitOk;
    Clauses(s);
  }

  /** A pid exits at most once, and neither its recorded status nor the record of its reaping is ever lost. */
  lemma HistoryKept(s: Sys, a: Action, p: nat)
    requires Inv(s) && Enabled(s, a)
    ensures p in s.exited ==> p in Next(s, a).exited && Next(s, a).exited[p] == s.exited[p]
    ensures p in s.reaped ==> p in Next(s, a).reaped
  {
    hide LocksOk, WaitLockOk, RunOk, StatesOk, MakersOk, FamilyOk, WaitOk, IdsOk;
    Clauses(s);
    if a.Exits? && a.e.ExitLock? {
      ThreadFacts(s, a.i);
      IdsExit(s.st, s.pid, s.xstate, s.nextpid, s.exited, s.reaped, a.i, a.e.status);
    }
  }

  lemma {:induction false} HistoryKeptByRuns(s: Sys, acts: seq<Action>, r: Sys, p: nat)
    requires Inv(s) && Leads(s, acts, r)
    ensures p in s.exited ==> p in r.exited && r.exited[p] == s.exited[p]
    ensures p in s.reaped ==> p in r.reaped
    decreases |acts|
  {
    hide Inv, Enabled, Next;
    if acts != [] {
      HistoryKept(s, acts[0], p);
      StepKeepsInv(s, acts[0]);
      HistoryKeptByRuns(Next(s, acts[0]), acts[1..], r, p);
    }
  }

  /** The pid and status that a step hands over, if it is a successful wait(). */
  function Handed(s: Sys, a: Action): seq<(nat, int)>
    requires Enabled(s, a)
  {
    if a.Waits? && a.t == Reap then [(s.pid[s.pc[a.i].k], s.xstate[s.pc[a.i].k])] else []
  }

  /** Everything that successful wait() calls return along a run. */
  ghost function Returns(s: Sys, acts: seq<Action>, r: Sys): seq<(nat, int)>
    requires Leads(s, acts, r)
    decreases |acts|
  {
    if acts == [] then [] else Handed(s, acts[0]) + Returns(Next(s, acts[0]), acts[1..], r)
  }

  lemma HandedFacts(s: Sys, a: Action)
    requires Inv(s) && Enabled(s, a) && Handed(s, a) != []
    ensures var (p, status) := Handed(s, a)[0];
      && |Handed(s, a)| == 1 && p !in s.reaped && p in Next(s, a).reaped && p in s.exited && s.exited[p] == status
  {
    hide Inv;
    ReapsOwnChildOnce(s, a.i);
  }

  predicate DistinctPids(w: seq<(nat, int)>) { forall m, n :: 0 <= m < n < |w| ==> w[m].0 != w[n].0 }

  lemma Prepend(h: seq<(nat, int)>, rest: seq<(nat, int)>, reaped: set<nat>)
    requires |h| <= 1 && DistinctPids(rest)
    requires (forall x :: x in h ==> x.0 in reaped) && (forall x :: x in rest ==> x.0 !in reaped)
    ensures DistinctPids(h + rest)
  {
    if |h| == 1 {
      assert h[0] in h;
      assert forall j :: 0 <= j < |rest| ==> rest[j] in rest;
    }
  }

  /** Over a whole run no pid is returned twice, and each comes with the status its process exited with. */
  lemma {:induction false} EachChildReapedOnce(s: Sys, acts: seq<Action>, r: Sys)
    requires Inv(s) && Leads(s, acts, r)
    ensures forall x :: x in Returns(s, acts, r) ==> x.0 !in s.reaped && x.0 in r.exited && r.exited[x.0] == x.1
    ensures DistinctPids(Returns(s, acts, r))
    decreases |acts|
  {
    hide Inv, Enabled, Next, Handed;
    if acts != [] {
      var n := Next(s, acts[0]);
      StepKeepsInv(s, acts[0]);
      EachChildReapedOnce(n, acts[1..], r);
      forall p: nat ensures p in s.reaped ==> p in n.reaped {
        HistoryKept(s, acts[0], p);
      }
      if Handed(s, acts[0]) != [] {
        HandedFacts(s, acts[0]);
        HistoryKeptByRuns(s, acts, r, Handed(s, acts[0])[0].0);
      }
      Prepend(Handed(s, acts[0]), Returns(n, acts[1..], r), n.reaped);
    }
  }

  // ----- Building runs -----

  lemma {:induction false} LeadsOn(s: Sys, acts: seq<Action>, r: Sys, a: Action)
    requires Leads(s, acts, r) && Enabled(r, a)
    ensures Leads(s, acts + [a], Next(r, a))
    decreases |acts|
  {
    hide Enabled, Next;
    if acts == [] {
      assert (acts + [a])[1..] == [];
    } else {
      LeadsOn(Next(s, acts[0]), acts[1..], r, a);
      assert (acts + [a])[1..] == acts[1..] + [a];
    }
  }

  lemma Go(s: Sys, a: Action) returns (n: Sys)
    requires Reachable(s) && Enabled(s, a)
    ensures Reachable(n) && n == Next(s, a)
  {
    hide Enabled, Next, Booted;
    var acts :| Leads(Booted(), acts, s);
    LeadsOn(Booted(), acts, s, a);
    n := Next(s, a);
  }

  lemma BootedReachable()
    ensures Reachable(Booted())
  {
    assert Leads(Booted(), [], Booted());
  }

  lemma ShapeOf(s: Sys)
    requires Reachable(s)
    ensures Shape(s)
  {
  }
}
