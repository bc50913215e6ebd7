/** What holds between any two steps of any run of Sched, and the proof that every step keeps it. */
module SchedInv {
  import opened Types
  import opened Sched

  // ---- locks

  /** CPU c must be holding l: a consequence of where it is. */
  predicate Holding(s: Sys, c: nat, l: Lock)
    requires c < |s.cpus|
  {
    || (s.cpus[c].tick.TickScan? && l == TicksLock)
    || match s.cpus[c].ctx
       case Idle(_) => false
       case Back(p) => l == ProcLock(p)
       case On(p) => p < |s.procs| && if s.procs[p].inSched then l == ProcLock(p) else PcHolds(s.procs[p].pc, l)
  }

  /** A lock is held by one CPU, and exactly when that CPU's position in the code says so. */
  ghost predicate LocksOk(s: Sys) {
    && (forall l :: l in s.held ==> s.held[l] < |s.cpus| && Holding(s, s.held[l], l))
    && (forall c: nat, l :: c < |s.cpus| && Holding(s, c, l) ==> l in s.held && s.held[l] == c)
  }

  // ---- CPUs and slots

  ghost predicate CpuOk(s: Sys, c: nat)
    requires c < |s.cpus|
  {
    var k := s.cpus[c];
    && (k.tick != NoTick ==> c == 0) && (k.tick.TickScan? ==> k.tick.q <= |s.procs|)
    && match k.ctx
       case Idle(_) => k.proc == None
       case Back(p) => p < |s.procs| && k.proc == Some(p) && k.tick == NoTick && s.procs[p].on == Some(c)
                       && s.procs[p].inSched && s.procs[p].st in {SLEEPING, RUNNABLE, ZOMBIE}
       case On(p) => p < |s.procs| && k.proc == Some(p) && s.procs[p].on == Some(c)
                     && (k.tick != NoTick ==> !s.procs[p].inSched && Lockless(s.procs[p].pc))
  }

  ghost predicate ProcOk(s: Sys, p: nat)
    requires p < |s.procs|
  {
    var x := s.procs[p];
    && (x.on.Some? ==> x.on.value < |s.cpus| && (s.cpus[x.on.value].ctx == On(p) || s.cpus[x.on.value].ctx == Back(p)))
    && (!x.inSched ==> x.st == RUNNING)
    && (x.st == RUNNING ==> x.on.Some? && s.cpus[x.on.value].ctx == On(p))
    && (x.inSched ==> Lockless(x.pc))
    && (x.st == UNUSED ==> x.pid == 0 && x.parent == None && x.chan == None && x.pc == Run && x.on == None)
    && (x.st == USED ==> x.pc == Run && x.on == None && x.chan == None)
    && (x.st == SLEEPING ==> x.pc.Reacq? && x.chan == Some(ChanOf(p, x.pc.why)))
    && (x.chan.Some? ==> x.inSched && x.pc.Reacq? && x.chan == Some(ChanOf(p, x.pc.why)))
    && (x.st == ZOMBIE <==> x.pc == Exited)
    && (x.st != UNUSED ==> 0 < x.pid < s.nextpid)
    && (x.st != UNUSED && x.st != USED && p != s.init ==> x.parent.Some?)
    && (p == s.init ==> Alive(x) && x.parent == None && x.pid == 1)
  }

  /** Fully forked and not exited. */
  predicate Alive(x: Proc) { x.st == SLEEPING || x.st == RUNNABLE || x.st == RUNNING }

  /** Asleep inside wait. */
  predicate Waiting(x: Proc) { x.st == SLEEPING && x.pc == Reacq(InWait) }

  /** No process has p for a parent, as far as the first n slots go. */
  ghost predicate Childless(s: Sys, p: nat, n: nat) {
    forall j :: 0 <= j < n && j < |s.procs| ==> s.procs[j].parent != Some(p)
  }

  /** No child of p among the first n slots is a zombie. */
  ghost predicate NoZombies(s: Sys, p: nat, n: nat) {
    forall j :: 0 <= j < n && j < |s.procs| && s.procs[j].parent == Some(p) ==> s.procs[j].st != ZOMBIE
  }

  /** What process p relies on at its place in the code. */
  ghost predicate PcOk(s: Sys, p: nat)
    requires p < |s.procs|
  {
    match s.procs[p].pc
    case AllocPid(i) => i < |s.procs| && i != p && s.procs[i].st == UNUSED
    case AllocMem(i) =>
      i < |s.procs| && i != p && s.procs[i].st == USED && s.procs[i].parent == None && s.procs[p].pid < s.procs[i].pid
    case ForkLink(i) =>
      i < |s.procs| && i != p && s.procs[i].st == USED && s.procs[i].parent == None && s.procs[p].pid < s.procs[i].pid
    case ForkReady(i) => i < |s.procs| && i != p && s.procs[i].st == USED && s.procs[i].parent == Some(p)
    case ExitStart => p != s.init
    case ExitScan(pp) => p != s.init && Childless(s, p, pp)
    case ExitWakeInit(pp, q) => p != s.init && Childless(s, p, pp + 1)
    case ExitWakeParent(par, q) =>
      && p != s.init && Childless(s, p, |s.procs|) && s.procs[p].parent == Some(par)
      && (q > par && par < |s.procs| ==> !Waiting(s.procs[par]))
    case ExitZombie =>
      && p != s.init && Childless(s, p, |s.procs|)
      && (s.procs[p].parent.Some? && s.procs[p].parent.value < |s.procs| ==> !Waiting(s.procs[s.procs[p].parent.value]))
    case WaitScan(i, _) => NoZombies(s, p, i)
    case WaitFree(i) => i < |s.procs| && i != p && s.procs[i].st == ZOMBIE && s.procs[i].parent == Some(p)
    case Sleep(InWait) => NoZombies(s, p, |s.procs|)
    case Sleep(InSleep(t0, n)) => Elapsed(s.ticks, t0) < n
    case _ => true
  }

  // ---- relations between processes

  function Target(pc: Pc): Option<nat> {
    match pc
    case AllocPid(i) => Some(i)
    case AllocMem(i) => Some(i)
    case ForkLink(i) => Some(i)
    case ForkReady(i) => Some(i)
    case _ => None
  }

  /** No two processes are building the same child. */
  ghost predicate TargetsOk(s: Sys) {
    forall p, q :: 0 <= p < |s.procs| && 0 <= q < |s.procs| && p != q && Target(s.procs[p].pc).Some? ==>
      Target(s.procs[p].pc) != Target(s.procs[q].pc)
  }

  ghost predicate PidsOk(s: Sys) {
    forall p, q :: 0 <= p < q < |s.procs| && s.procs[p].st != UNUSED && s.procs[q].st != UNUSED ==>
      s.procs[p].pid != s.procs[q].pid
  }

  /** Some exiting process holds wait_lock and its wakeup(initproc) has not passed initproc yet. */
  predicate InitPending(s: Sys) {
    && WaitLock in s.held && s.held[WaitLock] < |s.cpus| && s.cpus[s.held[WaitLock]].ctx.On?
    && var e := s.cpus[s.held[WaitLock]].ctx.p;
       e < |s.procs| && s.procs[e].pc.ExitWakeInit? && s.procs[e].pc.q <= s.init
  }

  /** The parent of slot j lives, is older, and does not sleep through j's exit. */
  ghost predicate ChildOk(s: Sys, j: nat)
    requires j < |s.procs|
  {
    s.procs[j].parent.Some? ==>
      var x := s.procs[j].parent.value;
      && x < |s.procs| && x != j && Alive(s.procs[x])
      && s.procs[x].pid < s.procs[j].pid && s.procs[j].st != UNUSED
      && (s.procs[j].st == ZOMBIE && Waiting(s.procs[x]) ==> x == s.init && InitPending(s))
  }

  /** A process asleep in sys_sleep has ticks to go, or the clock interrupt is about to wake it. */
  ghost predicate TickOk(s: Sys, p: nat)
    requires p < |s.procs|
  {
    var x := s.procs[p];
    x.st == SLEEPING && x.pc.Reacq? && x.pc.why.InSleep? ==>
      || Elapsed(s.ticks, x.pc.why.t0) < x.pc.why.n
      || (|s.cpus| > 0 && s.cpus[0].tick.TickScan? && s.cpus[0].tick.q <= p)
  }

  ghost predicate AllCpus(s: Sys) { forall c :: 0 <= c < |s.cpus| ==> CpuOk(s, c) }
  ghost predicate AllProcs(s: Sys) { forall p :: 0 <= p < |s.procs| ==> ProcOk(s, p) }
  ghost predicate AllPcs(s: Sys) { forall p :: 0 <= p < |s.procs| ==> PcOk(s, p) }
  ghost predicate AllChildren(s: Sys) { forall p :: 0 <= p < |s.procs| ==> ChildOk(s, p) }
  ghost predicate AllTicks(s: Sys) { forall p :: 0 <= p < |s.procs| ==> TickOk(s, p) }

  ghost predicate Inv(s: Sys) {
    && s.init < |s.procs|
    && LocksOk(s) && AllCpus(s) && AllProcs(s) && AllPcs(s) && AllChildren(s) && AllTicks(s)
    && TargetsOk(s) && PidsOk(s)
  }

  lemma InitialInv(s: Sys)
    requires Initial(s)
    ensures Inv(s)
  {
  }
}
