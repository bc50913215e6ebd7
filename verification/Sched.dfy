/** proc.c, with clockintr and sys_sleep, as steps of any number of CPUs over any number of
    process slots.  One step is what a CPU does from one lock operation to the next:
    acquiring a lock and releasing it again within a step stands for a critical section
    that takes no other lock, and a lock that is held across steps is in `held`. */
module Sched {
  import opened Types

  datatype State = UNUSED | USED | SLEEPING | RUNNABLE | RUNNING | ZOMBIE

  datatype Lock = WaitLock | TicksLock | PidLock | KmemLock | ProcLock(p: nat)

  datatype Chan = OfProc(p: nat) | OfTicks

  /** Who called sleep: wait, or sys_sleep with its ticks0 and n. */
  datatype Why = InWait | InSleep(t0: uint32, n: uint32)

  /** Where a process is in the kernel code of proc.c; `Run` is user space and all code
      that takes none of these locks. */
  datatype Pc =
    | Run
    | AllocScan(i: nat)                // fork, in allocproc's loop
    | AllocPid(i: nat)                 // slot i found, its lock held
    | AllocMem(i: nat)                 // pid assigned, before the page allocations
    | ForkLink(i: nat)                 // child i built and unlocked
    | ForkReady(i: nat)                // parent set
    | ExitStart
    | ExitScan(pp: nat)                // exit, in reparent's loop
    | ExitWakeInit(pp: nat, q: nat)    // reparent, in wakeup(initproc) for child pp
    | ExitWakeParent(par: nat, q: nat) // in wakeup(p->parent)
    | ExitZombie
    | Exited
    | WaitStart
    | WaitScan(i: nat, have: bool)
    | WaitFree(i: nat)                 // zombie child i found, its lock held
    | Sleep(why: Why)                  // at the start of sleep
    | Reacq(why: Why)                  // in sleep from sched on, up to acquire(lk)
    | TickStart(n: uint32)             // sys_sleep
    | TickLoop(t0: uint32, n: uint32)
    | KillScan(pid: nat, i: nat)

  /** A slot of proc[].  `inSched` means from before sched's swtch until p->lock is
      released after the switch back; a new process starts that way (forkret).  `on` is
      bookkeeping: the CPU whose swtch entered the process and has not left it. */
  datatype Proc = Proc(st: State, chan: Option<Chan>, killed: bool, parent: Option<nat>, pid: nat,
                       pc: Pc, inSched: bool, on: Option<nat>)

  /** Whose stack a CPU is on: the scheduler's, before slot i or back from process p, or a process's. */
  datatype Ctx = Idle(i: nat) | Back(p: nat) | On(p: nat)

  /** A clock interrupt: none, waiting for tickslock, or in wakeup's loop at slot q. */
  datatype Tick = NoTick | TickWait | TickScan(q: nat)

  /** `proc` is c->proc; `tick` is where the CPU is in clockintr. */
  datatype Cpu = Cpu(proc: Option<nat>, ctx: Ctx, tick: Tick)

  datatype Sys = Sys(procs: seq<Proc>, cpus: seq<Cpu>, held: map<Lock, nat>, ticks: uint32, nextpid: nat, init: nat)

  // ---- small changes

  predicate Free(s: Sys, l: Lock) { l !in s.held }

  function Acquire(s: Sys, c: nat, l: Lock): Sys { s.(held := s.held[l := c]) }

  function Release(s: Sys, l: Lock): Sys { s.(held := s.held - {l}) }

  function SetProc(s: Sys, p: nat, x: Proc): Sys
    requires p < |s.procs|
  {
    s.(procs := s.procs[p := x])
  }

  function SetCpu(s: Sys, c: nat, k: Cpu): Sys
    requires c < |s.cpus|
  {
    s.(cpus := s.cpus[c := k])
  }

  function Goto(s: Sys, p: nat, pc: Pc): Sys
    requires p < |s.procs|
  {
    SetProc(s, p, s.procs[p].(pc := pc))
  }

  function ChanOf(p: nat, why: Why): Chan { if why == InWait then OfProc(p) else OfTicks }

  function LockOf(why: Why): Lock { if why == InWait then WaitLock else TicksLock }

  /** ticks - ticks0 on unsigned 32-bit numbers. */
  function Elapsed(ticks: uint32, t0: uint32): uint32 { (ticks - t0) % 0x1_0000_0000 }

  /** The body of wakeup's loop, for slot q. */
  function Wake(s: Sys, q: nat, ch: Chan): Sys
    requires q < |s.procs|
  {
    var x := s.procs[q];
    if x.st == SLEEPING && x.chan == Some(ch) then SetProc(s, q, x.(st := RUNNABLE)) else s
  }

  /** freeproc, but for the memory. */
  function Freed(x: Proc): Proc {
    Proc(UNUSED, None, false, None, 0, Run, true, x.on)
  }

  // ---- the scheduler

  /** Process code of process p runs on CPU c: not the scheduler, not an interrupt handler. */
  predicate Executes(s: Sys, c: nat, p: nat) {
    && c < |s.cpus| && p < |s.procs|
    && s.cpus[c].ctx == On(p) && s.cpus[c].tick == NoTick && !s.procs[p].inSched
  }

  predicate Scheduling(s: Sys, c: nat) {
    c < |s.cpus| && s.cpus[c].ctx.Idle? && s.cpus[c].tick == NoTick
  }

  /** A slot that is not runnable is passed over. */
  function SchedSkip(s: Sys, c: nat): Option<Sys> {
    if !Scheduling(s, c) then None else
    var i := s.cpus[c].ctx.i;
    if i >= |s.procs| then Some(SetCpu(s, c, s.cpus[c].(ctx := Idle(0))))
    else if Free(s, ProcLock(i)) && s.procs[i].st != RUNNABLE then Some(SetCpu(s, c, s.cpus[c].(ctx := Idle(i + 1))))
    else None
  }

  /** A runnable one is switched to, with its lock held. */
  function SchedPick(s: Sys, c: nat): Option<Sys> {
    if !Scheduling(s, c) then None else
    var i := s.cpus[c].ctx.i;
    if i < |s.procs| && Free(s, ProcLock(i)) && s.procs[i].st == RUNNABLE then
      Some(SetProc(SetCpu(Acquire(s, c, ProcLock(i)), c, s.cpus[c].(proc := Some(i), ctx := On(i))),
                   i, s.procs[i].(st := RUNNING, on := Some(c))))
    else None
  }

  /** Back from swtch, in sched or forkret: the process releases the lock that the scheduler took. */
  function Resume(s: Sys, c: nat): Option<Sys> {
    if !(c < |s.cpus| && s.cpus[c].ctx.On? && s.cpus[c].tick == NoTick) then None else
    var p := s.cpus[c].ctx.p;
    if p < |s.procs| && s.procs[p].inSched && s.procs[p].st == RUNNING then
      var x := s.procs[p];
      Some(Release(SetProc(s, p, x.(inSched := false, chan := if x.pc.Reacq? then None else x.chan)), ProcLock(p)))
    else None
  }

  /** yield up to swtch; a timer interrupt can cause it wherever no lock is held. */
  function Yield(s: Sys, c: nat): Option<Sys> {
    if !(c < |s.cpus| && s.cpus[c].ctx.On?) then None else
    var p := s.cpus[c].ctx.p;
    if Executes(s, c, p) && Lockless(s.procs[p].pc) && Free(s, ProcLock(p)) then
      Some(SetProc(Acquire(s, c, ProcLock(p)), p, s.procs[p].(st := RUNNABLE, inSched := true)))
    else None
  }

  /** sched's swtch to the scheduler. */
  function Swtch(s: Sys, c: nat): Option<Sys> {
    if !(c < |s.cpus| && s.cpus[c].ctx.On? && s.cpus[c].tick == NoTick) then None else
    var p := s.cpus[c].ctx.p;
    if p < |s.procs| && s.procs[p].inSched && s.procs[p].st != RUNNING then
      Some(SetCpu(s, c, s.cpus[c].(ctx := Back(p))))
    else None
  }

  /** The scheduler releases the lock that the process took. */
  function SchedBack(s: Sys, c: nat): Option<Sys> {
    if !(c < |s.cpus| && s.cpus[c].ctx.Back? && s.cpus[c].tick == NoTick) then None else
    var p := s.cpus[c].ctx.p;
    if p >= |s.procs| then None else
    Some(Release(SetProc(SetCpu(s, c, s.cpus[c].(proc := None, ctx := Idle(p + 1))), p, s.procs[p].(on := None)),
                 ProcLock(p)))
  }

  // ---- clockintr, on CPU 0

  /** Interrupts are off while a lock is held. */
  predicate Interruptible(s: Sys, c: nat) {
    && c < |s.cpus| && s.cpus[c].tick == NoTick
    && match s.cpus[c].ctx
       case Idle(_) => true
       case Back(_) => false
       case On(p) => p < |s.procs| && !s.procs[p].inSched && Lockless(s.procs[p].pc)
  }

  /** The interrupt arrives; from here on the CPU does nothing else until clockintr is over. */
  function TickBegin(s: Sys, c: nat): Option<Sys> {
    if c == 0 && Interruptible(s, c) then Some(SetCpu(s, c, s.cpus[c].(tick := TickWait))) else None
  }

  /** acquire(&tickslock) and the increment. */
  function TickTake(s: Sys, c: nat): Option<Sys> {
    if c < |s.cpus| && s.cpus[c].tick == TickWait && Free(s, TicksLock) then
      Some(SetCpu(Acquire(s.(ticks := (s.ticks + 1) % 0x1_0000_0000), c, TicksLock), c,
                  s.cpus[c].(tick := TickScan(0))))
    else None
  }

  /** wakeup(&ticks), slot by slot, then release(&tickslock). */
  function TickNext(s: Sys, c: nat): Option<Sys> {
    if !(c < |s.cpus| && s.cpus[c].tick.TickScan?) then None else
    var q := s.cpus[c].tick.q;
    if q >= |s.procs| then Some(Release(SetCpu(s, c, s.cpus[c].(tick := NoTick)), TicksLock))
    else if s.cpus[c].proc == Some(q) then Some(SetCpu(s, c, s.cpus[c].(tick := TickScan(q + 1))))
    else if Free(s, ProcLock(q)) then Some(Wake(SetCpu(s, c, s.cpus[c].(tick := TickScan(q + 1))), q, OfTicks))
    else None
  }

  // ---- process code

  /** The locks that a process at pc holds. */
  predicate PcHolds(pc: Pc, l: Lock) {
    match pc
    case AllocPid(i) => l == ProcLock(i)
    case AllocMem(i) => l == ProcLock(i)
    case ExitScan(_) => l == WaitLock
    case ExitWakeInit(_, _) => l == WaitLock
    case ExitWakeParent(_, _) => l == WaitLock
    case ExitZombie => l == WaitLock
    case WaitScan(_, _) => l == WaitLock
    case WaitFree(i) => l == WaitLock || l == ProcLock(i)
    case Sleep(why) => l == LockOf(why)
    case TickLoop(_, _) => l == TicksLock
    case _ => false
  }

  predicate Lockless(pc: Pc) {
    !(pc.AllocPid? || pc.AllocMem? || pc.ExitScan? || pc.ExitWakeInit? || pc.ExitWakeParent? || pc.ExitZombie?
      || pc.WaitScan? || pc.WaitFree? || pc.Sleep? || pc.TickLoop?)
  }

  /** A system call, or a trap that ends in exit; initproc never exits. */
  function Call(s: Sys, c: nat, p: nat, entry: Pc): Option<Sys>
    requires Executes(s, c, p)
  {
    if s.procs[p].pc != Run then None else
    match entry
    case AllocScan(i) => if i == 0 then Some(Goto(s, p, entry)) else None
    case ExitStart => if p != s.init then Some(Goto(s, p, entry)) else None
    case WaitStart => Some(Goto(s, p, entry))
    case TickStart(_) => Some(Goto(s, p, entry))
    case KillScan(_, i) => if i == 0 then Some(Goto(s, p, entry)) else None
    case _ => None
  }

  function AllocLook(s: Sys, c: nat, p: nat, i: nat): Option<Sys>
    requires Executes(s, c, p)
  {
    if i >= |s.procs| then Some(Goto(s, p, Run))
    else if !Free(s, ProcLock(i)) then None
    else if s.procs[i].st == UNUSED then Some(Goto(Acquire(s, c, ProcLock(i)), p, AllocPid(i)))
    else Some(Goto(s, p, AllocScan(i + 1)))
  }

  function AllocSetPid(s: Sys, c: nat, p: nat, i: nat): Option<Sys>
    requires Executes(s, c, p)
  {
    if i >= |s.procs| || !Free(s, PidLock) then None else
    Some(Goto(SetProc(s.(nextpid := s.nextpid + 1), i, s.procs[i].(pid := s.nextpid, st := USED)), p, AllocMem(i)))
  }

  /** The page allocations of allocproc and fork succeed, or one fails and freeproc follows. */
  function AllocPages(s: Sys, c: nat, p: nat, i: nat, ok: bool): Option<Sys>
    requires Executes(s, c, p)
  {
    if i >= |s.procs| || !Free(s, KmemLock) then None
    else if ok then Some(Goto(Release(s, ProcLock(i)), p, ForkLink(i)))
    else Some(Goto(Release(SetProc(s, i, Freed(s.procs[i])), ProcLock(i)), p, Run))
  }

  function Link(s: Sys, c: nat, p: nat, i: nat): Option<Sys>
    requires Executes(s, c, p)
  {
    if i >= |s.procs| || !Free(s, WaitLock) then None else
    Some(Goto(SetProc(s, i, s.procs[i].(parent := Some(p))), p, ForkReady(i)))
  }

  function Ready(s: Sys, c: nat, p: nat, i: nat): Option<Sys>
    requires Executes(s, c, p)
  {
    if i >= |s.procs| || !Free(s, ProcLock(i)) then None else
    Some(Goto(SetProc(s, i, s.procs[i].(st := RUNNABLE)), p, Run))
  }

  /** Taking a lock that stays held. */
  function Take(s: Sys, c: nat, p: nat, l: Lock, pc: Pc): Option<Sys>
    requires Executes(s, c, p)
  {
    if Free(s, l) then Some(Goto(Acquire(s, c, l), p, pc)) else None
  }

  function Reparent(s: Sys, c: nat, p: nat, pp: nat): Option<Sys>
    requires Executes(s, c, p)
  {
    if pp >= |s.procs| then
      if s.procs[p].parent.Some? then Some(Goto(s, p, ExitWakeParent(s.procs[p].parent.value, 0))) else None
    else if s.procs[pp].parent == Some(p) then
      Some(Goto(SetProc(s, pp, s.procs[pp].(parent := Some(s.init))), p, ExitWakeInit(pp, 0)))
    else Some(Goto(s, p, ExitScan(pp + 1)))
  }

  /** One step of wakeup(ch) by process p, which is at slot q, with `more` and `done` the next places. */
  function WakeNext(s: Sys, c: nat, p: nat, q: nat, ch: Chan, more: Pc, done: Pc): Option<Sys>
    requires Executes(s, c, p)
  {
    if q >= |s.procs| then Some(Goto(s, p, done))
    else if q == p then Some(Goto(s, p, more))
    else if Free(s, ProcLock(q)) then Some(Goto(Wake(s, q, ch), p, more))
    else None
  }

  /** acquire(&p->lock), ZOMBIE, release(&wait_lock), into sched. */
  function Zombie(s: Sys, c: nat, p: nat): Option<Sys>
    requires Executes(s, c, p)
  {
    if !Free(s, ProcLock(p)) then None else
    Some(Release(SetProc(Acquire(s, c, ProcLock(p)), p, s.procs[p].(st := ZOMBIE, pc := Exited, inSched := true)),
                 WaitLock))
  }

  /** wait's loop; `copied` says whether copyout of the exit status works. */
  function WaitLook(s: Sys, c: nat, p: nat, i: nat, have: bool, copied: bool): Option<Sys>
    requires Executes(s, c, p)
  {
    if i >= |s.procs| then
      if !have || s.procs[p].killed then Some(Goto(Release(s, WaitLock), p, Run)) else Some(Goto(s, p, Sleep(InWait)))
    else if s.procs[i].parent != Some(p) then Some(Goto(s, p, WaitScan(i + 1, have)))
    else if !Free(s, ProcLock(i)) then None
    else if s.procs[i].st != ZOMBIE then Some(Goto(s, p, WaitScan(i + 1, true)))
    else if copied then Some(Goto(Acquire(s, c, ProcLock(i)), p, WaitFree(i)))
    else Some(Goto(Release(s, WaitLock), p, Run))
  }

  function WaitReap(s: Sys, c: nat, p: nat, i: nat): Option<Sys>
    requires Executes(s, c, p)
  {
    if i >= |s.procs| || !Free(s, KmemLock) then None else
    Some(Goto(Release(Release(SetProc(s, i, Freed(s.procs[i])), ProcLock(i)), WaitLock), p, Run))
  }

  /** sleep up to swtch. */
  function FallAsleep(s: Sys, c: nat, p: nat, why: Why): Option<Sys>
    requires Executes(s, c, p)
  {
    if !Free(s, ProcLock(p)) then None else
    Some(Release(SetProc(Acquire(s, c, ProcLock(p)), p,
                         s.procs[p].(chan := Some(ChanOf(p, why)), st := SLEEPING, pc := Reacq(why), inSched := true)),
                 LockOf(why)))
  }

  /** The loop test of sys_sleep. */
  function TickTest(s: Sys, c: nat, p: nat, t0: uint32, n: uint32): Option<Sys>
    requires Executes(s, c, p)
  {
    if Elapsed(s.ticks, t0) < n && !s.procs[p].killed then Some(Goto(s, p, Sleep(InSleep(t0, n))))
    else Some(Goto(Release(s, TicksLock), p, Run))
  }

  function KillLook(s: Sys, c: nat, p: nat, pid: nat, i: nat): Option<Sys>
    requires Executes(s, c, p)
  {
    if i >= |s.procs| then Some(Goto(s, p, Run))
    else if !Free(s, ProcLock(i)) then None
    else if s.procs[i].pid == pid then
      var x := s.procs[i];
      Some(Goto(SetProc(s, i, x.(killed := true, st := if x.st == SLEEPING then RUNNABLE else x.st)), p, Run))
    else Some(Goto(s, p, KillScan(pid, i + 1)))
  }

  /** The next step of the code at p's pc; `ok` decides allocations and copyout. */
  function Next(s: Sys, c: nat, p: nat, ok: bool): Option<Sys>
    requires Executes(s, c, p)
  {
    match s.procs[p].pc
    case Run => None
    case AllocScan(i) => AllocLook(s, c, p, i)
    case AllocPid(i) => AllocSetPid(s, c, p, i)
    case AllocMem(i) => AllocPages(s, c, p, i, ok)
    case ForkLink(i) => Link(s, c, p, i)
    case ForkReady(i) => Ready(s, c, p, i)
    case ExitStart => Take(s, c, p, WaitLock, ExitScan(0))
    case ExitScan(pp) => Reparent(s, c, p, pp)
    case ExitWakeInit(pp, q) => WakeNext(s, c, p, q, OfProc(s.init), ExitWakeInit(pp, q + 1), ExitScan(pp + 1))
    case ExitWakeParent(par, q) => WakeNext(s, c, p, q, OfProc(par), ExitWakeParent(par, q + 1), ExitZombie)
    case ExitZombie => Zombie(s, c, p)
    case Exited => None
    case WaitStart => Take(s, c, p, WaitLock, WaitScan(0, false))
    case WaitScan(i, have) => WaitLook(s, c, p, i, have, ok)
    case WaitFree(i) => WaitReap(s, c, p, i)
    case Sleep(why) => FallAsleep(s, c, p, why)
    case Reacq(InWait) => Take(s, c, p, WaitLock, WaitScan(0, false))
    case Reacq(InSleep(t0, n)) => Take(s, c, p, TicksLock, TickLoop(t0, n))
    case TickStart(n) => Take(s, c, p, TicksLock, TickLoop(s.ticks, n))
    case TickLoop(t0, n) => TickTest(s, c, p, t0, n)
    case KillScan(pid, i) => KillLook(s, c, p, pid, i)
  }

  // ---- runs

  datatype Act =
    | DoSchedSkip | DoSchedPick | DoResume | DoYield | DoSwtch | DoSchedBack
    | DoTickBegin | DoTickTake | DoTickNext
    | DoCall(p: nat, entry: Pc)
    | DoNext(p: nat, ok: bool)

  /** What CPU c does when it performs a; None if it cannot. */
  function Do(s: Sys, c: nat, a: Act): Option<Sys> {
    match a
    case DoSchedSkip => SchedSkip(s, c)
    case DoSchedPick => SchedPick(s, c)
    case DoResume => Resume(s, c)
    case DoYield => Yield(s, c)
    case DoSwtch => Swtch(s, c)
    case DoSchedBack => SchedBack(s, c)
    case DoTickBegin => TickBegin(s, c)
    case DoTickTake => TickTake(s, c)
    case DoTickNext => TickNext(s, c)
    case DoCall(p, entry) => if Executes(s, c, p) then Call(s, c, p, entry) else None
    case DoNext(p, ok) => if Executes(s, c, p) then Next(s, c, p, ok) else None
  }

  /** After userinit: initproc is runnable, every other slot unused, every CPU in the scheduler. */
  ghost predicate Initial(s: Sys) {
    && s.init < |s.procs| && s.held == map[] && s.nextpid == 2
    && (forall p :: 0 <= p < |s.procs| ==>
          s.procs[p] ==
          if p == s.init then Proc(RUNNABLE, None, false, None, 1, Run, true, None)
          else Proc(UNUSED, None, false, None, 0, Run, true, None))
    && (forall c :: 0 <= c < |s.cpus| ==> s.cpus[c] == Cpu(None, Idle(0), NoTick))
  }

  /** One step of one CPU. */
  ghost predicate Step(s: Sys, s': Sys) {
    exists c: nat, a :: Do(s, c, a) == Some(s')
  }

  /** A run: the states after the first, second, ... step of any interleaving. */
  ghost predicate IsRun(run: seq<Sys>) {
    && run != [] && Initial(run[0])
    && forall i :: 0 <= i < |run| - 1 ==> Step(run[i], run[i + 1])
  }
}
