/** What every step of every CPU does, told from outside: which step changes which field of which
    slot, under which lock, and how wait, sys_sleep, fork, exit and kill go on and end. */
module SchedLaws {
  import opened Types
  import opened Sched
  import opened SchedInv
  import opened SchedSteps
  import opened SchedSafety
  import opened SchedSlots
  import opened SchedKill

  /** The step is one of a process that is at pc. */
  predicate StepAt(s: Sys, a: Act, pc: Pc) { a.DoNext? && a.p < |s.procs| && s.procs[a.p].pc == pc }

  /** The step is x's own. */
  predicate StepOf(s: Sys, a: Act, x: nat) { a.DoNext? && a.p == x < |s.procs| }

  /** Slot x is freed: by fork when memory runs out, or by wait. */
  predicate Frees(s: Sys, a: Act, x: nat) { (StepAt(s, a, AllocMem(x)) && !a.ok) || StepAt(s, a, WaitFree(x)) }

  /** The lock is free or held by CPU c. */
  predicate Allowed(s: Sys, c: nat, l: Lock) { l in s.held ==> s.held[l] == c }

  // ---- the life of a slot

  /** The step wakes x up: a wakeup loop comes to x with the channel that x sleeps on, or kill with its pid. */
  predicate Rouses(s: Sys, c: nat, a: Act, x: nat) {
    && x < |s.procs| && c < |s.cpus| && s.procs[x].st == SLEEPING && s.procs[x].pc.Reacq?
    && match s.procs[x].pc.why
       case InWait => (x == s.init && StepsWaker(s, a, x)) || StepAt(s, a, ExitWakeParent(x, x)) || Strikes(s, a, x)
       case InSleep(_, _) => (a == DoTickNext && s.cpus[c].tick == TickScan(x)) || Strikes(s, a, x)
  }

  predicate StepsWaker(s: Sys, a: Act, x: nat) {
    a.DoNext? && a.p < |s.procs| && s.procs[a.p].pc.ExitWakeInit? && s.procs[a.p].pc.q == x
  }

  predicate Strikes(s: Sys, a: Act, x: nat) { x < |s.procs| && StepAt(s, a, KillScan(s.procs[x].pid, x)) }

  /** The value of every field of slot x but pc after a step, and the locks that the change needs. */
  ghost predicate Fields(s: Sys, c: nat, a: Act, s': Sys, x: nat)
    requires x < |s.procs| && c < |s.cpus|
  {
    && |s'.procs| == |s.procs| && |s'.cpus| == |s.cpus| && s'.init == s.init
    && var o, n := s.procs[x], s'.procs[x];
    && n.st == (if StepAt(s, a, AllocPid(x)) then USED
                else if StepAt(s, a, ForkReady(x)) then RUNNABLE
                else if Frees(s, a, x) then UNUSED
                else if a == DoSchedPick && s.cpus[c].ctx == Idle(x) then RUNNING
                else if a == DoYield && s.cpus[c].ctx == On(x) then RUNNABLE
                else if StepOf(s, a, x) && o.pc.Sleep? then SLEEPING
                else if StepOf(s, a, x) && o.pc == ExitZombie then ZOMBIE
                else if Rouses(s, c, a, x) then RUNNABLE
                else o.st)
    && n.parent == (if StepAt(s, a, ForkLink(x)) then Some(a.p)
                    else if StepAt(s, a, ExitScan(x)) && o.parent == Some(a.p) then Some(s.init)
                    else if Frees(s, a, x) then None
                    else o.parent)
    && n.killed == (!Frees(s, a, x) && (o.killed || Strikes(s, a, x)))
    && n.pid == (if StepAt(s, a, AllocPid(x)) then s.nextpid else if Frees(s, a, x) then 0 else o.pid)
    && n.chan == (if StepOf(s, a, x) && o.pc == Sleep(InWait) then Some(OfProc(x))
                  else if StepOf(s, a, x) && o.pc.Sleep? then Some(OfTicks)
                  else if Frees(s, a, x) || (a == DoResume && s.cpus[c].ctx == On(x) && o.pc.Reacq?) then None
                  else o.chan)
    && n.inSched == (if StepOf(s, a, x) && (o.pc.Sleep? || o.pc == ExitZombie) then true
                     else if a == DoYield && s.cpus[c].ctx == On(x) then true
                     else if a == DoResume && s.cpus[c].ctx == On(x) then false
                     else o.inSched)
    && n.on == (if a == DoSchedPick && s.cpus[c].ctx == Idle(x) then Some(c)
                else if a == DoSchedBack && s.cpus[c].ctx == Back(x) then None
                else o.on)
    && (n.st != o.st || n.killed != o.killed || n.pid != o.pid || n.chan != o.chan ==> Allowed(s, c, ProcLock(x)))
    && (n.parent != o.parent ==> Allowed(s, c, WaitLock))
  }

  lemma SlotFields(s: Sys, c: nat, a: Act, s': Sys, x: nat)
    requires Reachable(s) && Do(s, c, a) == Some(s') && x < |s.procs|
    ensures c < |s.cpus| && Fields(s, c, a, s', x)
  {
    Known(s, c, a, s', x);
    hide Inv, Reachable, Fields, Mine, ProcOk, PcOk, CpuOk, Executes;
    if a.DoNext? {
      NextFields(s, c, a.p, a.ok, s', x);
    } else if a.DoTickNext? {
      TickFields(s, c, s', x);
    } else if a.DoTickBegin? || a.DoTickTake? || a.DoCall? {
      CallFields(s, c, a, s', x);
    } else if a.DoSchedSkip? || a.DoSchedPick? || a.DoSchedBack? {
      SchedFields(s, c, a, s', x);
    } else {
      SwitchFields(s, c, a, s', x);
    }
  }

  lemma NextFields(s: Sys, c: nat, p: nat, ok: bool, s': Sys, x: nat)
    requires Executes(s, c, p) && Next(s, c, p, ok) == Some(s') && x < |s.procs|
    requires ProcOk(s, x) && ProcOk(s, p) && PcOk(s, p) && Mine(s, c)
    ensures Fields(s, c, DoNext(p, ok), s', x)
  {
    hide Fields, Mine, ProcOk, PcOk, AllocLook, AllocSetPid, AllocPages, Link, Ready, Take, Reparent, WakeNext, Zombie,
         WaitLook, WaitReap, FallAsleep, TickTest, KillLook;
    match s.procs[p].pc
    case AllocScan(i) => AllocLookFields(s, c, p, i, ok, s', x);
    case AllocPid(i) => AllocSetPidFields(s, c, p, i, ok, s', x);
    case AllocMem(i) => AllocPagesFields(s, c, p, i, ok, s', x);
    case ForkLink(i) => LinkFields(s, c, p, i, ok, s', x);
    case ForkReady(i) => ReadyFields(s, c, p, i, ok, s', x);
    case ExitScan(i) => ReparentFields(s, c, p, i, ok, s', x);
    case ExitZombie => ZombieFields(s, c, p, ok, s', x);
    case WaitScan(i, have) => WaitLookFields(s, c, p, i, have, ok, s', x);
    case WaitFree(i) => WaitReapFields(s, c, p, i, ok, s', x);
    case Sleep(why) => FallAsleepFields(s, c, p, why, ok, s', x);
    case TickLoop(t0, n) => TickTestFields(s, c, p, t0, n, ok, s', x);
    case KillScan(pid, i) => KillLookFields(s, c, p, pid, i, ok, s', x);
    case ExitWakeInit(pp, q) =>
      WakeFields(s, c, p, q, s.init, ExitWakeInit(pp, q + 1), ExitScan(pp + 1), ok, s', x);
    case ExitWakeParent(par, q) =>
      WakeFields(s, c, p, q, par, ExitWakeParent(par, q + 1), ExitZombie, ok, s', x);
    case ExitStart => TakeFields(s, c, p, WaitLock, ExitScan(0), ok, s', x);
    case WaitStart => TakeFields(s, c, p, WaitLock, WaitScan(0, false), ok, s', x);
    case Reacq(InWait) => TakeFields(s, c, p, WaitLock, WaitScan(0, false), ok, s', x);
    case Reacq(InSleep(t0, n)) => TakeFields(s, c, p, TicksLock, TickLoop(t0, n), ok, s', x);
    case TickStart(n) => TakeFields(s, c, p, TicksLock, TickLoop(s.ticks, n), ok, s', x);
    case _ =>
  }

  lemma AllocLookFields(s: Sys, c: nat, p: nat, i: nat, ok: bool, s': Sys, x: nat)
    requires Executes(s, c, p) && s.procs[p].pc == AllocScan(i) && AllocLook(s, c, p, i) == Some(s')
    requires x < |s.procs| && ProcOk(s, x) && ProcOk(s, p) && PcOk(s, p) && Mine(s, c)
    ensures Fields(s, c, DoNext(p, ok), s', x)
  {
    hide Childless, NoZombies;
    hide Fields, ProcOk;
    OnlyPcFields(s, c, p, ok, s', x);
  }

  lemma AllocSetPidFields(s: Sys, c: nat, p: nat, i: nat, ok: bool, s': Sys, x: nat)
    requires Executes(s, c, p) && s.procs[p].pc == AllocPid(i) && AllocSetPid(s, c, p, i) == Some(s')
    requires x < |s.procs| && ProcOk(s, x) && ProcOk(s, p) && PcOk(s, p) && Mine(s, c)
    ensures Fields(s, c, DoNext(p, ok), s', x)
  {
    hide Childless, NoZombies;
    if i == x { assert Holding(s, c, ProcLock(x)); }
  }

  lemma AllocPagesFields(s: Sys, c: nat, p: nat, i: nat, ok: bool, s': Sys, x: nat)
    requires Executes(s, c, p) && s.procs[p].pc == AllocMem(i) && AllocPages(s, c, p, i, ok) == Some(s')
    requires x < |s.procs| && ProcOk(s, x) && ProcOk(s, p) && PcOk(s, p) && Mine(s, c)
    ensures Fields(s, c, DoNext(p, ok), s', x)
  {
    hide Fields, Freed;
    FreedSlot(s, c, p, i);
    hide ProcOk, PcOk, Mine;
    if ok {
      OnlyPcFields(s, c, p, ok, s', x);
    } else {
      hide Executes;
      FailedFork(s, c, p, i, s', x);
      hide AllocPages;
      FreedFields(s, c, p, i, ok, s', x);
    }
  }

  lemma FailedFork(s: Sys, c: nat, p: nat, i: nat, s': Sys, x: nat)
    requires Executes(s, c, p) && AllocPages(s, c, p, i, false) == Some(s') && i < |s.procs| && i != p && x < |s.procs|
    ensures Becomes(s, s', x, if x == i then Freed(s.procs[x]) else s.procs[x])
  {
  }

  lemma LinkFields(s: Sys, c: nat, p: nat, i: nat, ok: bool, s': Sys, x: nat)
    requires Executes(s, c, p) && s.procs[p].pc == ForkLink(i) && Link(s, c, p, i) == Some(s')
    requires x < |s.procs| && ProcOk(s, x) && ProcOk(s, p) && PcOk(s, p) && Mine(s, c)
    ensures Fields(s, c, DoNext(p, ok), s', x)
  {
    hide Childless, NoZombies;
  }

  lemma ReadyFields(s: Sys, c: nat, p: nat, i: nat, ok: bool, s': Sys, x: nat)
    requires Executes(s, c, p) && s.procs[p].pc == ForkReady(i) && Ready(s, c, p, i) == Some(s')
    requires x < |s.procs| && ProcOk(s, x) && ProcOk(s, p) && PcOk(s, p) && Mine(s, c)
    ensures Fields(s, c, DoNext(p, ok), s', x)
  {
    hide Childless, NoZombies;
  }

  /** The CPUs are as before, and slot x, but for its place in the code, is now y. */
  predicate Becomes(s: Sys, s': Sys, x: nat, y: Proc) {
    && x < |s.procs| == |s'.procs| && s'.cpus == s.cpus && s'.init == s.init
    && s'.procs[x].(pc := y.pc) == y
  }

  lemma ReparentFields(s: Sys, c: nat, p: nat, i: nat, ok: bool, s': Sys, x: nat)
    requires Executes(s, c, p) && s.procs[p].pc == ExitScan(i) && Reparent(s, c, p, i) == Some(s')
    requires x < |s.procs| && ProcOk(s, x) && ProcOk(s, p) && PcOk(s, p) && Mine(s, c)
    ensures Fields(s, c, DoNext(p, ok), s', x)
  {
    assert Holding(s, c, WaitLock);
    hide PcOk, Holding, Mine, ProcOk;
    if i < |s.procs| && s.procs[i].parent == Some(p) {
      Adopted(s, c, p, i, s', x);
      hide Reparent;
    } else {
      hide Fields;
      OnlyPcFields(s, c, p, ok, s', x);
    }
  }

  lemma Adopted(s: Sys, c: nat, p: nat, i: nat, s': Sys, x: nat)
    requires Executes(s, c, p) && Reparent(s, c, p, i) == Some(s') && i < |s.procs| && s.procs[i].parent == Some(p)
    requires x < |s.procs|
    ensures Becomes(s, s', x, if x == i then s.procs[x].(parent := Some(s.init)) else s.procs[x])
  {
  }

  lemma ZombieFields(s: Sys, c: nat, p: nat, ok: bool, s': Sys, x: nat)
    requires Executes(s, c, p) && s.procs[p].pc == ExitZombie && Zombie(s, c, p) == Some(s')
    requires x < |s.procs| && ProcOk(s, x) && ProcOk(s, p) && PcOk(s, p) && Mine(s, c)
    ensures Fields(s, c, DoNext(p, ok), s', x)
  {
    hide Childless, NoZombies;
  }

  lemma WaitLookFields(s: Sys, c: nat, p: nat, i: nat, have: bool, ok: bool, s': Sys, x: nat)
    requires Executes(s, c, p) && s.procs[p].pc == WaitScan(i, have) && WaitLook(s, c, p, i, have, ok) == Some(s')
    requires x < |s.procs| && ProcOk(s, x) && ProcOk(s, p) && PcOk(s, p) && Mine(s, c)
    ensures Fields(s, c, DoNext(p, ok), s', x)
  {
    hide Childless, NoZombies;
    hide Fields, ProcOk;
    OnlyPcFields(s, c, p, ok, s', x);
  }

  lemma WaitReapFields(s: Sys, c: nat, p: nat, i: nat, ok: bool, s': Sys, x: nat)
    requires Executes(s, c, p) && s.procs[p].pc == WaitFree(i) && WaitReap(s, c, p, i) == Some(s')
    requires x < |s.procs| && ProcOk(s, x) && ProcOk(s, p) && PcOk(s, p) && Mine(s, c)
    ensures Fields(s, c, DoNext(p, ok), s', x)
  {
    hide Fields, WaitReap, Freed;
    FreedSlot(s, c, p, i);
    hide ProcOk, PcOk, Mine, Executes;
    Reaped(s, c, p, i, s', x);
    FreedFields(s, c, p, i, ok, s', x);
  }

  /** The slot that fork or wait is about to free, and the locks held for it. */
  lemma FreedSlot(s: Sys, c: nat, p: nat, i: nat)
    requires Executes(s, c, p) && PcOk(s, p) && Mine(s, c)
             && (s.procs[p].pc == WaitFree(i) || s.procs[p].pc == AllocMem(i))
    ensures i < |s.procs| && i != p && Allowed(s, c, ProcLock(i))
    ensures if s.procs[p].pc.WaitFree? then s.procs[i].st == ZOMBIE && Allowed(s, c, WaitLock)
            else s.procs[i].st == USED && s.procs[i].parent == None
  {
    assert Holding(s, c, ProcLock(i)) && (s.procs[p].pc.WaitFree? ==> Holding(s, c, WaitLock));
    hide Childless, NoZombies, Holding;
  }

  lemma FreedFields(s: Sys, c: nat, p: nat, i: nat, ok: bool, s': Sys, x: nat)
    requires Executes(s, c, p) && x < |s.procs| && ProcOk(s, x)
    requires i < |s.procs| && i != p && Allowed(s, c, ProcLock(i))
    requires (s.procs[p].pc == WaitFree(i) && s.procs[i].st == ZOMBIE && Allowed(s, c, WaitLock))
             || (s.procs[p].pc == AllocMem(i) && !ok && s.procs[i].st == USED && s.procs[i].parent == None)
    requires Becomes(s, s', x, if x == i then Freed(s.procs[x]) else s.procs[x])
    ensures Fields(s, c, DoNext(p, ok), s', x)
  {
    hide Allowed;
  }

  lemma Reaped(s: Sys, c: nat, p: nat, i: nat, s': Sys, x: nat)
    requires Executes(s, c, p) && WaitReap(s, c, p, i) == Some(s') && i < |s.procs| && i != p && x < |s.procs|
    ensures Becomes(s, s', x, if x == i then Freed(s.procs[x]) else s.procs[x])
  {
  }

  lemma FallAsleepFields(s: Sys, c: nat, p: nat, why: Why, ok: bool, s': Sys, x: nat)
    requires Executes(s, c, p) && s.procs[p].pc == Sleep(why) && FallAsleep(s, c, p, why) == Some(s')
    requires x < |s.procs| && ProcOk(s, x) && ProcOk(s, p) && PcOk(s, p) && Mine(s, c)
    ensures Fields(s, c, DoNext(p, ok), s', x)
  {
    hide Childless, NoZombies;
  }

  lemma TickTestFields(s: Sys, c: nat, p: nat, t0: uint32, n: uint32, ok: bool, s': Sys, x: nat)
    requires Executes(s, c, p) && s.procs[p].pc == TickLoop(t0, n) && TickTest(s, c, p, t0, n) == Some(s')
    requires x < |s.procs| && ProcOk(s, x) && ProcOk(s, p) && PcOk(s, p) && Mine(s, c)
    ensures Fields(s, c, DoNext(p, ok), s', x)
  {
    hide Childless, NoZombies;
    hide Fields, ProcOk;
    OnlyPcFields(s, c, p, ok, s', x);
  }

  lemma KillLookFields(s: Sys, c: nat, p: nat, pid: nat, i: nat, ok: bool, s': Sys, x: nat)
    requires Executes(s, c, p) && s.procs[p].pc == KillScan(pid, i) && KillLook(s, c, p, pid, i) == Some(s')
    requires x < |s.procs| && ProcOk(s, x) && ProcOk(s, p) && PcOk(s, p) && Mine(s, c)
    ensures Fields(s, c, DoNext(p, ok), s', x)
  {
    hide Fields, ProcOk, PcOk, Mine;
    if i < |s.procs| && s.procs[i].pid == pid {
      KillHit(s, c, p, pid, i, s', x);
      hide KillLook;
      KillFields(s, c, p, pid, i, ok, s', x);
    } else {
      OnlyPcFields(s, c, p, ok, s', x);
    }
  }

  lemma KillFields(s: Sys, c: nat, p: nat, pid: nat, i: nat, ok: bool, s': Sys, x: nat)
    requires Executes(s, c, p) && s.procs[p].pc == KillScan(pid, i) && i < |s.procs| && s.procs[i].pid == pid
    requires x < |s.procs| && ProcOk(s, x) && Sched.Free(s, ProcLock(i))
    requires var o := s.procs[x];
             Becomes(s, s', x, if x == i then o.(killed := true, st := if o.st == SLEEPING then RUNNABLE else o.st)
             else o)
    ensures Fields(s, c, DoNext(p, ok), s', x)
  {
    assert Rouses(s, c, DoNext(p, ok), x) <==> x == i && s.procs[x].st == SLEEPING;
    hide Rouses, ProcOk;
  }

  lemma KillHit(s: Sys, c: nat, p: nat, pid: nat, i: nat, s': Sys, x: nat)
    requires Executes(s, c, p) && KillLook(s, c, p, pid, i) == Some(s') && i < |s.procs| && s.procs[i].pid == pid
    requires x < |s.procs|
    ensures var o := s.procs[x];
            Becomes(s, s', x, if x == i then o.(killed := true, st := if o.st == SLEEPING then RUNNABLE else o.st)
            else o)
    ensures Sched.Free(s, ProcLock(i))
  {
  }

  /** A step that moves p on in the code and does nothing else to the slots. */
  lemma OnlyPcFields(s: Sys, c: nat, p: nat, ok: bool, s': Sys, x: nat)
    requires Executes(s, c, p) && x < |s.procs| == |s'.procs| && s'.cpus == s.cpus && s'.init == s.init
    requires s'.procs == s.procs[p := s.procs[p].(pc := s'.procs[p].pc)]
    requires var at := s.procs[p].pc;
             at.AllocScan? || at.WaitScan? || at.TickLoop? || at.ExitStart? || at.WaitStart? || at.Reacq?
             || at.TickStart? || (at.AllocMem? && ok)
             || (at.ExitScan? && !(at.pp < |s.procs| && s.procs[at.pp].parent == Some(p)))
             || (at.KillScan? && !(at.i < |s.procs| && s.procs[at.i].pid == at.pid))
    ensures Fields(s, c, DoNext(p, ok), s', x)
  {
  }

  lemma TakeFields(s: Sys, c: nat, p: nat, l: Lock, pc: Pc, ok: bool, s': Sys, x: nat)
    requires Executes(s, c, p) && Take(s, c, p, l, pc) == Some(s') && x < |s.procs|
    requires var at := s.procs[p].pc; at.ExitStart? || at.WaitStart? || at.Reacq? || at.TickStart?
    ensures Fields(s, c, DoNext(p, ok), s', x)
  {
    hide Fields;
    OnlyPcFields(s, c, p, ok, s', x);
  }

  lemma WakeFields(s: Sys, c: nat, p: nat, q: nat, par: nat, more: Pc, done: Pc, ok: bool, s': Sys, x: nat)
    requires Executes(s, c, p) && WakeNext(s, c, p, q, OfProc(par), more, done) == Some(s')
    requires Waker(s.procs[p].pc, par, q, s.init) && x < |s.procs| && ProcOk(s, x) && ProcOk(s, p)
    ensures Fields(s, c, DoNext(p, ok), s', x)
  {
    hide WakeNext, ProcOk, Rouses, Waker;
    WakesUp(s, c, p, q, OfProc(par), more, done, s', x);
    Roused(s, c, p, q, par, ok, x);
    WakerAt(s.procs[p].pc, par, q, s.init);
  }

  lemma WakesUp(s: Sys, c: nat, p: nat, q: nat, ch: Chan, more: Pc, done: Pc, s': Sys, x: nat)
    requires Executes(s, c, p) && WakeNext(s, c, p, q, ch, more, done) == Some(s') && x < |s.procs|
    ensures |s'.procs| == |s.procs| && s'.cpus == s.cpus && s'.init == s.init
    ensures var o, up := s.procs[x], x == q && p != q && s.procs[x].st == SLEEPING && s.procs[x].chan == Some(ch);
            s'.procs[x].(pc := o.pc) == (if up then o.(st := RUNNABLE) else o) && (up ==> Sched.Free(s, ProcLock(x)))
  {
    if q >= |s.procs| {
      assert s' == Goto(s, p, done);
    } else if q == p {
      assert s' == Goto(s, p, more);
    } else {
      assert s' == Goto(Wake(s, q, ch), p, more) && Sched.Free(s, ProcLock(q));
    }
    hide Executes, WakeNext;
  }

  /** At slot q of wakeup(par)'s loop. */
  predicate Waker(pc: Pc, par: nat, q: nat, init: nat) {
    match pc
    case ExitWakeInit(_, q1) => q1 == q && par == init
    case ExitWakeParent(x1, q1) => q1 == q && x1 == par
    case _ => false
  }

  lemma WakerAt(pc: Pc, par: nat, q: nat, init: nat)
    requires Waker(pc, par, q, init)
    ensures pc.ExitWakeInit? || pc.ExitWakeParent?
  {
  }

  lemma Roused(s: Sys, c: nat, p: nat, q: nat, par: nat, ok: bool, x: nat)
    requires Executes(s, c, p) && Waker(s.procs[p].pc, par, q, s.init) && x < |s.procs| && ProcOk(s, x) && ProcOk(s, p)
    ensures Rouses(s, c, DoNext(p, ok), x) <==>
              x == q && p != q && s.procs[x].st == SLEEPING && s.procs[x].chan == Some(OfProc(par))
  {
  }

  lemma TickFields(s: Sys, c: nat, s': Sys, x: nat)
    requires TickNext(s, c) == Some(s') && x < |s.procs| && c < |s.cpus| && CpuOk(s, c) && ProcOk(s, x)
    ensures Fields(s, c, DoTickNext, s', x)
  {
  }

  lemma CallFields(s: Sys, c: nat, a: Act, s': Sys, x: nat)
    requires Do(s, c, a) == Some(s') && x < |s.procs| && c < |s.cpus| && CpuOk(s, c) && ProcOk(s, x)
    requires a.DoTickBegin? || a.DoTickTake? || a.DoCall?
    ensures Fields(s, c, a, s', x)
  {
    hide Next, SchedSkip, SchedPick, Resume, Yield, Swtch, SchedBack, TickNext;
  }

  lemma SchedFields(s: Sys, c: nat, a: Act, s': Sys, x: nat)
    requires Do(s, c, a) == Some(s') && x < |s.procs| && c < |s.cpus| && CpuOk(s, c) && ProcOk(s, x)
    requires a.DoSchedSkip? || a.DoSchedPick? || a.DoSchedBack?
    ensures Fields(s, c, a, s', x)
  {
    hide Next, Call, TickBegin, TickTake, TickNext, Resume, Yield, Swtch;
  }

  lemma SwitchFields(s: Sys, c: nat, a: Act, s': Sys, x: nat)
    requires Do(s, c, a) == Some(s') && x < |s.procs| && c < |s.cpus| && CpuOk(s, c) && ProcOk(s, x) && Mine(s, c)
    requires a.DoResume? || a.DoYield? || a.DoSwtch?
    ensures Fields(s, c, a, s', x)
  {
    hide Next, Call, TickBegin, TickTake, TickNext, SchedSkip, SchedPick, SchedBack;
    if s.cpus[c].ctx == On(x) { assert s.procs[x].inSched ==> Holding(s, c, ProcLock(x)); }
  }

  /** Where a CPU must be holding a lock, it is. */
  ghost predicate Mine(s: Sys, c: nat)
    requires c < |s.cpus|
  {
    forall l :: Holding(s, c, l) ==> Allowed(s, c, l)
  }

  /** What the invariant says about the slot and the actor. */
  lemma Known(s: Sys, c: nat, a: Act, s': Sys, x: nat)
    requires Reachable(s) && Do(s, c, a) == Some(s') && x < |s.procs|
    ensures c < |s.cpus| && CpuOk(s, c) && ProcOk(s, x) && Inv(s) && Mine(s, c)
    ensures a.DoNext? ==> Executes(s, c, a.p) && Next(s, c, a.p, a.ok) == Some(s') && PcOk(s, a.p) && ProcOk(s, a.p)
  {
    ReachableInv(s);
    CpuThere(s, c, a, s');
    hide Do, Reachable, Next;
    Parts(s, c, x);
    if a.DoNext? { Parts(s, c, a.p); }
    hide Inv, Executes, Mine, ProcOk, PcOk, CpuOk;
  }

  lemma CpuThere(s: Sys, c: nat, a: Act, s': Sys)
    requires Do(s, c, a) == Some(s')
    ensures c < |s.cpus| && (a.DoNext? ==> Executes(s, c, a.p) && Next(s, c, a.p, a.ok) == Some(s'))
  {
    hide Next;
  }

  lemma Parts(s: Sys, c: nat, x: nat)
    requires Inv(s) && c < |s.cpus| && x < |s.procs|
    ensures CpuOk(s, c) && ProcOk(s, x) && PcOk(s, x) && Mine(s, c)
  {
    hide Holding, ProcOk, PcOk, CpuOk;
  }

  /** The life of a slot.  Each change of state has exactly one cause, and there are no other
      changes: fork takes a slot and readies or frees it, the scheduler and yield switch it, sleep
      and exit stop it, a wakeup on its channel or a kill of its pid wakes it, and wait frees it. */
  lemma LifeCycle(s: Sys, c: nat, a: Act, s': Sys, x: nat)
    requires Reachable(s) && Do(s, c, a) == Some(s') && x < |s.procs|
    ensures |s'.procs| == |s.procs| && c < |s.cpus|
    ensures var o, n := s.procs[x].st, s'.procs[x].st;
            && (o == UNUSED && n == USED <==> StepAt(s, a, AllocPid(x)))
            && (o == USED && n == RUNNABLE <==> StepAt(s, a, ForkReady(x)))
            && (o == USED && n == UNUSED <==> StepAt(s, a, AllocMem(x)) && !a.ok)
            && (o == RUNNABLE && n == RUNNING <==> a == DoSchedPick && s.cpus[c].ctx == Idle(x))
            && (o == RUNNING && n == RUNNABLE <==> a == DoYield && s.cpus[c].ctx == On(x))
            && (o == RUNNING && n == SLEEPING <==> StepOf(s, a, x) && s.procs[x].pc.Sleep?)
            && (o == RUNNING && n == ZOMBIE <==> StepOf(s, a, x) && s.procs[x].pc == ExitZombie)
            && (o == SLEEPING && n == RUNNABLE <==> Rouses(s, c, a, x))
            && (o == ZOMBIE && n == UNUSED <==> StepAt(s, a, WaitFree(x)))
            && (o != n ==>
                  || (o == UNUSED && n == USED) || (o == USED && n == RUNNABLE) || (o == USED && n == UNUSED)
                  || (o == RUNNABLE && n == RUNNING) || (o == RUNNING && n == RUNNABLE)
                  || (o == RUNNING && n == SLEEPING) || (o == RUNNING && n == ZOMBIE)
                  || (o == SLEEPING && n == RUNNABLE) || (o == ZOMBIE && n == UNUSED))
  {
    SlotFields(s, c, a, s', x);
    Known(s, c, a, s', x);
    Before(s, c, a, s', x);
    hide Inv, Reachable, Do, Next, Mine, CpuOk, ProcOk, PcOk, Executes;
  }

  /** The state that a change starts from. */
  lemma Before(s: Sys, c: nat, a: Act, s': Sys, x: nat)
    requires Do(s, c, a) == Some(s') && x < |s.procs| && c < |s.cpus| && ProcOk(s, x)
    requires a.DoNext? ==> Executes(s, c, a.p) && PcOk(s, a.p) && ProcOk(s, a.p)
    ensures StepAt(s, a, AllocPid(x)) ==> s.procs[x].st == UNUSED
    ensures StepAt(s, a, ForkReady(x)) || StepAt(s, a, AllocMem(x)) ==> s.procs[x].st == USED
    ensures StepAt(s, a, WaitFree(x)) ==> s.procs[x].st == ZOMBIE
    ensures a == DoSchedPick && s.cpus[c].ctx == Idle(x) ==> s.procs[x].st == RUNNABLE
    ensures a == DoYield && s.cpus[c].ctx == On(x) ==> s.procs[x].st == RUNNING
    ensures StepOf(s, a, x) ==> s.procs[x].st == RUNNING
  {
    hide Next, Childless, NoZombies, Resume, Swtch, SchedBack, TickNext, Call;
  }

  // ---- clocks, pids and CPUs

  /** The tick counter, the next pid and the CPUs after a step: only the clock interrupt counts, by
      one modulo 2^32 and only under tickslock, only allocproc gives a pid away, and a CPU is
      switched only by its own steps. */
  lemma Globals(s: Sys, c: nat, a: Act, s': Sys)
    requires Reachable(s) && Do(s, c, a) == Some(s')
    ensures c < |s.cpus| == |s'.cpus| && s'.init == s.init
    ensures s'.ticks == if a == DoTickTake then (s.ticks + 1) % 4294967296 else s.ticks
    ensures s'.ticks != s.ticks ==> TicksLock !in s.held
    ensures s'.nextpid == if a.DoNext? && a.p < |s.procs| && s.procs[a.p].pc.AllocPid? then s.nextpid + 1 else s.nextpid
    ensures forall d :: 0 <= d < |s.cpus| && d != c ==> s'.cpus[d] == s.cpus[d]
    ensures s'.cpus[c] == var k, n := s.cpus[c], |s.procs|;
              match a
              case DoSchedSkip => if k.ctx.Idle? then k.(ctx := Idle(if k.ctx.i < n then k.ctx.i + 1 else 0)) else k
              case DoSchedPick => if k.ctx.Idle? then k.(ctx := On(k.ctx.i), proc := Some(k.ctx.i)) else k
              case DoSwtch => if k.ctx.On? then k.(ctx := Back(k.ctx.p)) else k
              case DoSchedBack => if k.ctx.Back? then k.(ctx := Idle(k.ctx.p + 1), proc := None) else k
              case DoTickBegin => k.(tick := TickWait)
              case DoTickTake => k.(tick := TickScan(0))
              case DoTickNext =>
                k.(tick := if k.tick.TickScan? && k.tick.q < n then TickScan(k.tick.q + 1) else NoTick)
              case _ => k
  {
    hide Reachable;
    if a.DoNext? {
      hide Do;
      NextGlobals(s, c, a.p, a.ok, s');
    }
  }

  lemma NextGlobals(s: Sys, c: nat, p: nat, ok: bool, s': Sys)
    requires Do(s, c, DoNext(p, ok)) == Some(s')
    ensures c < |s.cpus| && p < |s.procs| && s'.cpus == s.cpus && s'.init == s.init && s'.ticks == s.ticks
    ensures s'.nextpid == if s.procs[p].pc.AllocPid? then s.nextpid + 1 else s.nextpid
  {
    var pc := s.procs[p].pc;
    if pc.AllocScan? || pc.AllocPid? || pc.AllocMem? || pc.ForkLink? || pc.ForkReady? || pc.KillScan? || pc.TickLoop? {
      hide WaitLook, WaitReap, WakeNext, Zombie, Reparent, FallAsleep, Take;
    } else {
      hide AllocLook, AllocSetPid, AllocPages, Link, Ready, KillLook, TickTest;
    }
  }

  /** Exactly when a CPU can do what the scheduler, sched and yield do: the scheduler passes over no
      runnable slot and runs no other one, and every lock it needs is free. */
  lemma CpuSteps(s: Sys, c: nat)
    requires Reachable(s) && c < |s.cpus|
    ensures var k, n := s.cpus[c], |s.procs|;
            && (Do(s, c, DoSchedSkip).Some? <==>
                  k.ctx.Idle? && k.tick == NoTick
                  && (k.ctx.i < n ==> ProcLock(k.ctx.i) !in s.held && s.procs[k.ctx.i].st != RUNNABLE))
            && (Do(s, c, DoSchedPick).Some? <==>
                  k.ctx.Idle? && k.tick == NoTick && k.ctx.i < n && ProcLock(k.ctx.i) !in s.held
                  && s.procs[k.ctx.i].st == RUNNABLE)
            && (Do(s, c, DoSchedBack).Some? <==> k.ctx.Back?)
            && (k.ctx.On? ==> k.ctx.p < n && (var x := s.procs[k.ctx.p];
                  && (Do(s, c, DoResume).Some? <==> x.inSched && x.st == RUNNING)
                  && (Do(s, c, DoSwtch).Some? <==> x.inSched && x.st != RUNNING)
                  && (Do(s, c, DoYield).Some? <==>
                       !x.inSched && k.tick == NoTick && ProcLock(k.ctx.p) !in s.held
                       && forall l :: l in s.held ==> s.held[l] != c)))
            && (!k.ctx.On? ==> Do(s, c, DoResume) == Do(s, c, DoSwtch) == Do(s, c, DoYield) == None)
  {
    ReachableInv(s);
    assert CpuOk(s, c);
    if s.cpus[c].tick == NoTick { NoLocks(s, c); }
    hide Reachable, Inv, Next, Call, PcHolds, Lockless, TickBegin, TickTake, TickNext;
  }

  /** And when it can do what the clock interrupt does: it arrives where the CPU holds no lock, and
      then waits for tickslock and for the lock of each process but its own. */
  lemma TickSteps(s: Sys, c: nat)
    requires Reachable(s) && c < |s.cpus|
    ensures var k, n := s.cpus[c], |s.procs|;
            && (Do(s, c, DoTickBegin).Some? <==>
                  c == 0 && k.tick == NoTick && !k.ctx.Back? && forall l :: l in s.held ==> s.held[l] != c)
            && (Do(s, c, DoTickTake).Some? <==> k.tick == TickWait && TicksLock !in s.held)
            && (Do(s, c, DoTickNext).Some? <==>
                  k.tick.TickScan? && (k.tick.q < n && k.proc != Some(k.tick.q) ==> ProcLock(k.tick.q) !in s.held))
  {
    ReachableInv(s);
    if s.cpus[c].tick == NoTick { NoLocks(s, c); }
    if Interruptible(s, c) { NotBack(s, c); }
    hide Reachable, Inv, Next, Call, Interruptible, SchedSkip, SchedPick, SchedBack, Resume, Yield, Swtch;
  }

  lemma NotBack(s: Sys, c: nat)
    requires Interruptible(s, c)
    ensures c < |s.cpus| && s.cpus[c].tick == NoTick && !s.cpus[c].ctx.Back?
  {
  }

  /** A CPU holds no lock exactly where an interrupt can arrive. */
  lemma NoLocks(s: Sys, c: nat)
    requires Inv(s) && c < |s.cpus| && s.cpus[c].tick == NoTick
    ensures (forall l :: l in s.held ==> s.held[l] != c) <==> Interruptible(s, c)
  {
    assert CpuOk(s, c);
    var ctx := s.cpus[c].ctx;
    if Interruptible(s, c) {
      forall l | l in s.held ensures s.held[l] != c { assert Holding(s, s.held[l], l); }
    } else if ctx.Back? || s.procs[ctx.p].inSched {
      assert Holding(s, c, ProcLock(ctx.p));
    } else {
      var pc := s.procs[ctx.p].pc;
      assert PcHolds(pc, WaitLock) || PcHolds(pc, TicksLock) || (pc.AllocPid? && PcHolds(pc, ProcLock(pc.i)))
             || (pc.AllocMem? && PcHolds(pc, ProcLock(pc.i)));
      if pc.AllocPid? || pc.AllocMem? { assert Holding(s, c, ProcLock(pc.i)); }
      assert Holding(s, c, WaitLock) || Holding(s, c, TicksLock) || pc.AllocPid? || pc.AllocMem?;
    }
  }

  /** Which locks a CPU holds, by where it is in the code; no other CPU numbers hold any. */
  lemma LockPlaces(s: Sys, c: nat, l: Lock)
    requires Reachable(s) && c < |s.cpus|
    ensures l in s.held ==> s.held[l] < |s.cpus|
    ensures var k := s.cpus[c];
            l in s.held && s.held[l] == c <==>
              match k.ctx
              case Idle(_) => l == TicksLock && k.tick.TickScan?
              case Back(p) => l == ProcLock(p)
              case On(p) =>
                p < |s.procs| && var pc := s.procs[p].pc;
                if s.procs[p].inSched then l == ProcLock(p) else
                match l
                case WaitLock =>
                  || pc.ExitScan? || pc.ExitWakeInit? || pc.ExitWakeParent? || pc == ExitZombie
                  || pc.WaitScan? || pc.WaitFree? || pc == Sleep(InWait)
                case TicksLock => k.tick.TickScan? || pc.TickLoop? || (pc.Sleep? && pc.why.InSleep?)
                case ProcLock(i) => pc == AllocPid(i) || pc == AllocMem(i) || pc == WaitFree(i)
                case _ => false
  {
    ReachableInv(s);
    assert CpuOk(s, c);
    var here := Holding(s, c, l);
    if l in s.held { assert Holding(s, s.held[l], l); }
    if s.cpus[c].ctx.On? { Places(s.procs[s.cpus[c].ctx.p].pc, l); }
    hide Reachable, Inv, PcHolds, Lockless;
  }

  lemma Places(pc: Pc, l: Lock)
    ensures PcHolds(pc, l) <==>
              match l
              case WaitLock =>
                || pc.ExitScan? || pc.ExitWakeInit? || pc.ExitWakeParent? || pc == ExitZombie
                || pc.WaitScan? || pc.WaitFree? || pc == Sleep(InWait)
              case TicksLock => pc.TickLoop? || (pc.Sleep? && pc.why.InSleep?)
              case ProcLock(i) => pc == AllocPid(i) || pc == AllocMem(i) || pc == WaitFree(i)
              case _ => false
  {
  }

  /** Exactly when a process can make its next step: it is executing outside sched, on a CPU that is
      not in the clock interrupt, and the lock that the step takes is free. */
  lemma ProcessSteps(s: Sys, c: nat, p: nat, ok: bool)
    requires Reachable(s) && c < |s.cpus| && p < |s.procs|
    ensures Do(s, c, DoNext(p, ok)).Some? <==>
              s.cpus[c].ctx == On(p) && s.cpus[c].tick == NoTick && !s.procs[p].inSched &&
              match s.procs[p].pc
              case AllocScan(i) => i < |s.procs| ==> ProcLock(i) !in s.held
              case AllocPid(_) => PidLock !in s.held
              case AllocMem(_) => KmemLock !in s.held
              case ForkLink(_) => WaitLock !in s.held
              case ForkReady(i) => ProcLock(i) !in s.held
              case ExitStart => WaitLock !in s.held
              case ExitScan(_) => true
              case ExitWakeInit(_, q) => q < |s.procs| && q != p ==> ProcLock(q) !in s.held
              case ExitWakeParent(_, q) => q < |s.procs| && q != p ==> ProcLock(q) !in s.held
              case ExitZombie => ProcLock(p) !in s.held
              case WaitStart => WaitLock !in s.held
              case WaitScan(i, _) => i < |s.procs| && s.procs[i].parent == Some(p) ==> ProcLock(i) !in s.held
              case WaitFree(_) => KmemLock !in s.held
              case Sleep(_) => ProcLock(p) !in s.held
              case Reacq(InWait) => WaitLock !in s.held
              case Reacq(InSleep(_, _)) => TicksLock !in s.held
              case TickStart(_) => TicksLock !in s.held
              case TickLoop(_, _) => true
              case KillScan(_, i) => i < |s.procs| ==> ProcLock(i) !in s.held
              case Run => false
              case Exited => false
  {
    ReachableInv(s);
    assert PcOk(s, p) && ProcOk(s, p);
    hide Reachable, Inv, Childless, NoZombies;
  }

  /** Exactly what user space can start: each system call from its beginning, exit only outside
      initproc; nothing else changes. */
  lemma Calls(s: Sys, c: nat, p: nat, e: Pc)
    requires p < |s.procs|
    ensures Do(s, c, DoCall(p, e)).Some? <==>
              && c < |s.cpus| && s.cpus[c].ctx == On(p) && s.cpus[c].tick == NoTick
              && !s.procs[p].inSched && s.procs[p].pc == Run
              && (e == AllocScan(0) || (e == ExitStart && p != s.init) || e == WaitStart || e.TickStart?
                 || (e.KillScan? && e.i == 0))
    ensures Do(s, c, DoCall(p, e)).Some? ==>
              Do(s, c, DoCall(p, e)).value == s.(procs := s.procs[p := s.procs[p].(pc := e)])
  {
  }

  // ---- how the system calls go on and end

  /** A process moves in the code by its own steps only; a slot that is freed starts afresh. */
  lemma Movers(s: Sys, c: nat, a: Act, s': Sys, x: nat)
    requires Reachable(s) && Do(s, c, a) == Some(s') && x < |s.procs| == |s'.procs|
    requires s'.procs[x].pc != s.procs[x].pc
    ensures ((a.DoNext? || a.DoCall?) && a.p == x) || (Frees(s, a, x) && s'.procs[x].pc == Run)
  {
    hide Next, Reachable;
    if a.DoNext? {
      NextShape(s, c, a.p, a.ok, s');
      hide Do;
      if a.p != x && s.procs[a.p].pc == AllocMem(x) { FreesUnlessOk(s, c, a.p, a.ok, s', x); }
    }
  }

  lemma FreesUnlessOk(s: Sys, c: nat, p: nat, ok: bool, s': Sys, x: nat)
    requires Executes(s, c, p) && Next(s, c, p, ok) == Some(s') && s.procs[p].pc == AllocMem(x) && x != p
    requires x < |s.procs| == |s'.procs| && s'.procs[x].pc != s.procs[x].pc
    ensures !ok
  {
  }

  /** fork takes the first slot that is unused when it looks, fails for want of slots only past the
      last one, and for want of memory only if an allocation failed. */
  lemma ForkGoesOn(s: Sys, c: nat, p: nat, ok: bool, s': Sys)
    requires Do(s, c, DoNext(p, ok)) == Some(s')
    ensures p < |s.procs| == |s'.procs|
    ensures var pc, y := s.procs[p].pc, s'.procs[p].pc;
            && (pc.AllocScan? ==>
                  && (y == Run <==> pc.i >= |s.procs|)
                  && (y == AllocPid(pc.i) <==> pc.i < |s.procs| && s.procs[pc.i].st == UNUSED)
                  && (y == AllocScan(pc.i + 1) <==> pc.i < |s.procs| && s.procs[pc.i].st != UNUSED))
            && (pc.AllocPid? ==> y == AllocMem(pc.i))
            && (pc.AllocMem? ==> y == if ok then ForkLink(pc.i) else Run)
            && (pc.ForkLink? ==> y == ForkReady(pc.i))
            && (pc.ForkReady? ==> y == Run)
  {
    DoSize(s, c, DoNext(p, ok), s');
    hide WaitLook, WaitReap, WakeNext, Zombie, Reparent, KillLook, FallAsleep, TickTest, Take;
  }

  /** exit looks at every slot for children, hands each over and wakes initproc for it, then wakes
      its own parent, looking at every slot, and only then becomes a zombie. */
  lemma ExitGoesOn(s: Sys, c: nat, p: nat, ok: bool, s': Sys)
    requires Do(s, c, DoNext(p, ok)) == Some(s')
    ensures p < |s.procs| == |s'.procs|
    ensures var pc, y, n := s.procs[p].pc, s'.procs[p].pc, |s.procs|;
            && (pc == ExitStart ==> y == ExitScan(0))
            && (pc.ExitScan? ==>
                  && (y == ExitWakeInit(pc.pp, 0) <==> pc.pp < n && s.procs[pc.pp].parent == Some(p))
                  && (y == ExitScan(pc.pp + 1) <==> pc.pp < n && s.procs[pc.pp].parent != Some(p))
                  && (y.ExitWakeParent? <==> pc.pp >= n)
                  && (y.ExitWakeParent? ==> s.procs[p].parent == Some(y.par) && y.q == 0))
            && (pc.ExitWakeInit? ==> y == if pc.q < n then ExitWakeInit(pc.pp, pc.q + 1) else ExitScan(pc.pp + 1))
            && (pc.ExitWakeParent? ==> y == if pc.q < n then ExitWakeParent(pc.par, pc.q + 1) else ExitZombie)
            && (pc == ExitZombie ==> y == Exited)
  {
    DoSize(s, c, DoNext(p, ok), s');
    hide WaitLook, WaitReap, KillLook, FallAsleep, TickTest, AllocLook, AllocSetPid, AllocPages, Link, Ready;
  }

  /** kill passes over exactly the slots with another pid, and stops at the first one with its pid. */
  lemma KillGoesOn(s: Sys, c: nat, p: nat, ok: bool, s': Sys)
    requires Do(s, c, DoNext(p, ok)) == Some(s') && p < |s.procs| == |s'.procs| && s.procs[p].pc.KillScan?
    ensures var pc, y := s.procs[p].pc, s'.procs[p].pc;
            && (y == Run <==> pc.i >= |s.procs| || s.procs[pc.i].pid == pc.pid)
            && (y == KillScan(pc.pid, pc.i + 1) <==> pc.i < |s.procs| && s.procs[pc.i].pid != pc.pid)
  {
    hide WaitLook, WaitReap, WakeNext, Zombie, Reparent, FallAsleep, TickTest, Take, AllocLook, AllocSetPid, AllocPages,
         Link, Ready;
  }

  /** sys_sleep(n) ends only when n ticks have gone by since it began, in 32-bit arithmetic, or it
      was killed, and otherwise sleeps on; waking up changes neither its start nor n. */
  lemma SleepGoesOn(s: Sys, c: nat, p: nat, ok: bool, s': Sys)
    requires Do(s, c, DoNext(p, ok)) == Some(s')
    ensures p < |s.procs| == |s'.procs|
    ensures var x, y := s.procs[p], s'.procs[p].pc;
            && (x.pc.TickStart? ==> y == TickLoop(s.ticks, x.pc.n))
            && (x.pc.TickLoop? ==>
                  && (y == Run <==> (s.ticks - x.pc.t0) % 4294967296 >= x.pc.n || x.killed)
                  && (y == Sleep(InSleep(x.pc.t0, x.pc.n)) <==>
                        (s.ticks - x.pc.t0) % 4294967296 < x.pc.n && !x.killed))
            && (x.pc.Sleep? ==> y == Reacq(x.pc.why))
            && (x.pc.Reacq? ==> match x.pc.why
                                case InSleep(t0, n) => y == TickLoop(t0, n)
                                case InWait => y == WaitScan(0, false))
  {
    DoSize(s, c, DoNext(p, ok), s');
    hide WaitLook, WaitReap, WakeNext, Zombie, Reparent, KillLook, AllocLook, AllocSetPid, AllocPages, Link, Ready;
  }

  // ---- wait

  /** While p scans in wait, its flag says whether a slot already passed has p for its parent. */
  ghost predicate HaveOk(s: Sys) {
    forall p :: 0 <= p < |s.procs| && s.procs[p].pc.WaitScan? ==>
      (s.procs[p].pc.have <==> !Childless(s, p, s.procs[p].pc.i))
  }

  lemma HaveStep(s: Sys, c: nat, a: Act, s': Sys)
    requires Reachable(s) && HaveOk(s) && Do(s, c, a) == Some(s')
    ensures HaveOk(s')
  {
    hide Do, Reachable, Fields;
    DoSize(s, c, a, s');
    forall p | 0 <= p < |s'.procs| && s'.procs[p].pc.WaitScan?
      ensures s'.procs[p].pc.have <==> !Childless(s', p, s'.procs[p].pc.i)
    {
      if StepOf(s, a, p) {
        ScanOn(s, c, p, a.ok, s');
      } else if s'.procs[p].pc != s.procs[p].pc {
        Movers(s, c, a, s', p);
        CallsOnly(s, c, a, s', p);
      }
      SameChildren(s, c, a, s', p);
    }
  }

  lemma CallsOnly(s: Sys, c: nat, a: Act, s': Sys, p: nat)
    requires Do(s, c, a) == Some(s') && a.DoCall? && a.p == p < |s.procs| == |s'.procs|
    ensures !s'.procs[p].pc.WaitScan?
  {
  }

  /** Nobody's children change while p scans: p holds wait_lock. */
  lemma SameChildren(s: Sys, c: nat, a: Act, s': Sys, p: nat)
    requires Reachable(s) && Do(s, c, a) == Some(s') && p < |s.procs| == |s'.procs|
    requires s'.procs[p].pc.WaitScan? && (s.procs[p].pc.WaitScan? || StepOf(s, a, p))
    ensures forall j :: 0 <= j < |s.procs| ==> s'.procs[j].parent == s.procs[j].parent
  {
    hide Reachable, Do, Inv, Executes;
    if s.procs[p].pc.WaitScan? {
      ReachableInv(s);
      Scanner(s, p);
    }
    if StepOf(s, a, p) { ScanOn(s, c, p, a.ok, s'); }
    forall j | 0 <= j < |s.procs| ensures s'.procs[j].parent == s.procs[j].parent {
      if s'.procs[j].parent != s.procs[j].parent { NewParent(s, c, a, s', j); }
    }
  }

  lemma Scanner(s: Sys, p: nat)
    requires Inv(s) && p < |s.procs| && s.procs[p].pc.WaitScan?
    ensures WaitLock in s.held && s.held[WaitLock] < |s.cpus| && s.cpus[s.held[WaitLock]].ctx == On(p)
  {
    Holder(s, p, WaitLock);
    hide Inv;
  }

  /** Who gives a slot another parent holds wait_lock, or it is free. */
  lemma NewParent(s: Sys, c: nat, a: Act, s': Sys, j: nat)
    requires Reachable(s) && Do(s, c, a) == Some(s') && j < |s.procs| == |s'.procs|
    requires s'.procs[j].parent != s.procs[j].parent
    ensures Allowed(s, c, WaitLock) && a.DoNext? && c < |s.cpus| && s.cpus[c].ctx == On(a.p) && a.p < |s.procs|
    ensures var pc := s.procs[a.p].pc; pc.ForkLink? || pc.ExitScan? || pc.AllocMem? || pc.WaitFree?
  {
    SlotFields(s, c, a, s', j);
    if a.DoNext? { Actor(s, c, a, s'); }
    hide Do, Reachable;
  }

  lemma Actor(s: Sys, c: nat, a: Act, s': Sys)
    requires Do(s, c, a) == Some(s') && a.DoNext?
    ensures c < |s.cpus| && s.cpus[c].ctx == On(a.p)
  {
    hide Next;
  }

  /** Where a step that leads into wait's loop comes from. */
  lemma ScanOn(s: Sys, c: nat, p: nat, ok: bool, s': Sys)
    requires Do(s, c, DoNext(p, ok)) == Some(s') && p < |s.procs| == |s'.procs| && s'.procs[p].pc.WaitScan?
    ensures var x, y := s.procs[p].pc, s'.procs[p].pc;
            if x.WaitScan? then x.i < |s.procs| && y == WaitScan(x.i + 1, x.have || s.procs[x.i].parent == Some(p))
            else (x.WaitStart? || x.Reacq?) && y == WaitScan(0, false)
  {
    WaitGoesOn(s, c, p, ok, s');
    ForkGoesOn(s, c, p, ok, s');
    ExitGoesOn(s, c, p, ok, s');
    SleepGoesOn(s, c, p, ok, s');
    if s.procs[p].pc.KillScan? { KillGoesOn(s, c, p, ok, s'); }
    if s.procs[p].pc == Run || s.procs[p].pc == Exited { AtRest(s, c, p, ok); }
    hide Do;
  }

  lemma AtRest(s: Sys, c: nat, p: nat, ok: bool)
    requires p < |s.procs| && (s.procs[p].pc == Run || s.procs[p].pc == Exited)
    ensures Do(s, c, DoNext(p, ok)) == None
  {
  }

  /** One step of wait, with the flag that its loop keeps. */
  lemma WaitGoesOn(s: Sys, c: nat, p: nat, ok: bool, s': Sys)
    requires Do(s, c, DoNext(p, ok)) == Some(s')
    ensures p < |s.procs| == |s'.procs|
    ensures var pc, y, n := s.procs[p].pc, s'.procs[p].pc, |s.procs|;
            && (pc.WaitStart? ==> y == WaitScan(0, false))
            && (pc.WaitFree? ==> y == Run)
            && (pc.WaitScan? ==>
                  var child := pc.i < n && s.procs[pc.i].parent == Some(p);
                  var found := child && s.procs[pc.i].st == ZOMBIE;
                  && (y == Run <==> (pc.i >= n && (!pc.have || s.procs[p].killed)) || (found && !ok))
                  && (y == Sleep(InWait) <==> pc.i >= n && pc.have && !s.procs[p].killed)
                  && (y == WaitFree(pc.i) <==> found && ok)
                  && (y == WaitScan(pc.i + 1, pc.have || child) <==> pc.i < n && !found))
  {
    DoSize(s, c, DoNext(p, ok), s');
    hide AllocLook, AllocSetPid, AllocPages, Link, Ready, Reparent, WakeNext, Zombie, FallAsleep, TickTest, KillLook;
  }

  lemma {:induction false} RunHave(run: seq<Sys>)
    requires IsRun(run)
    ensures HaveOk(run[|run| - 1])
  {
    hide Do, HaveOk, Initial;
    var n := |run| - 1;
    if n == 0 {
      NobodyScans(run[0]);
    } else {
      RunHave(run[..n]);
      assert Reachable(run[n - 1]) by { assert IsRun(run[..n]); }
      assert Step(run[n - 1], run[n]);
      var c: nat, a :| Do(run[n - 1], c, a) == Some(run[n]);
      HaveStep(run[n - 1], c, a, run[n]);
    }
  }

  lemma NobodyScans(s: Sys)
    requires Initial(s)
    ensures HaveOk(s)
  {
  }

  lemma ReachableHave(s: Sys)
    requires Reachable(s)
    ensures HaveOk(s)
  {
    hide IsRun, HaveOk;
    var run :| run != [] && IsRun(run) && run[|run| - 1] == s;
    RunHave(run);
  }

  /** How wait ends.  A scan that has come to slot i returns exactly if every slot has been passed and
      nobody at all has p for a parent, or p was killed, or i is a zombie child whose status cannot be
      copied out; it goes on to free the child exactly if i is a zombie child and the copy works; it
      sleeps exactly if every slot has been passed, p has a child and was not killed; and otherwise it
      looks at the next slot.  No slot that it passed is a zombie child. */
  lemma WaitEnds(s: Sys, c: nat, p: nat, i: nat, have: bool, ok: bool, s': Sys)
    requires Reachable(s) && Do(s, c, DoNext(p, ok)) == Some(s')
    requires p < |s.procs| == |s'.procs| && s.procs[p].pc == WaitScan(i, have)
    ensures var y, n := s'.procs[p].pc, |s.procs|;
            var child := exists j :: 0 <= j < n && s.procs[j].parent == Some(p);
            var found := i < n && s.procs[i].parent == Some(p) && s.procs[i].st == ZOMBIE;
            && (y == Run <==> (i >= n && (!child || s.procs[p].killed)) || (found && !ok))
            && (y == WaitFree(i) <==> found && ok)
            && (y == Sleep(InWait) <==> i >= n && child && !s.procs[p].killed)
            && (y.WaitScan? && y.i == i + 1 <==> i < n && !found)
    ensures forall j :: 0 <= j < i && j < |s.procs| && s.procs[j].parent == Some(p) ==> s.procs[j].st != ZOMBIE
  {
    ReachableInv(s);
    assert PcOk(s, p);
    ReachableHave(s);
    WaitGoesOn(s, c, p, ok, s');
    hide Inv, Reachable, Do;
  }

  /** wait does sleep: in a run, initproc forks, the child is not run, and initproc waits for it. */
  lemma WaitSleeps() returns (s: Sys)
    ensures Reachable(s) && |s.procs| == 2 && Waiting(s.procs[0]) && !s.procs[0].killed
    ensures s.procs[1].parent == Some(0) && s.procs[1].st == RUNNABLE
  {
    hide Reachable;
    InitRuns();
    ForkScans(false);
    ForkBuilds(false);
    ForkEnds(false);
    var x := Child(false);
    var s0, s1 := At(Run, x, IDLE, map[], 3), At(WaitStart, x, IDLE, map[], 3);
    Pair(s0.procs[0], x, s1.procs[0]);
    Advance(s0, 0, DoCall(0, WaitStart), s1);
    var held := map[WaitLock := 0];
    var s2, s3 := At(WaitScan(0, false), x, IDLE, held, 3), At(WaitScan(1, false), x, IDLE, held, 3);
    Pair(s1.procs[0], x, s2.procs[0]);
    Advance(s1, 0, DoNext(0, true), s2);
    Pair(s2.procs[0], x, s3.procs[0]);
    Advance(s2, 0, DoNext(0, true), s3);
    s := WaitSleepsEnd();
  }

  lemma WaitSleepsEnd() returns (s: Sys)
    requires Reachable(At(WaitScan(1, false), Child(false), IDLE, map[WaitLock := 0], 3))
    ensures Reachable(s) && |s.procs| == 2 && Waiting(s.procs[0]) && !s.procs[0].killed
    ensures s.procs[1].parent == Some(0) && s.procs[1].st == RUNNABLE
  {
    hide Reachable;
    var x, held := Child(false), map[WaitLock := 0];
    var s0, s1 := At(WaitScan(1, false), x, IDLE, held, 3), At(WaitScan(2, true), x, IDLE, held, 3);
    var s2 := At(Sleep(InWait), x, IDLE, held, 3);
    Pair(s0.procs[0], x, s1.procs[0]);
    Advance(s0, 0, DoNext(0, true), s1);
    Pair(s1.procs[0], x, s2.procs[0]);
    Advance(s1, 0, DoNext(0, true), s2);
    var z := s2.procs[0].(chan := Some(OfProc(0)), st := SLEEPING, pc := Reacq(InWait), inSched := true);
    s := Two(z, x, BUSY0, IDLE, map[ProcLock(0) := 0], 3);
    Pair(s2.procs[0], x, z);
    assert held[ProcLock(0) := 0] - {WaitLock} == map[ProcLock(0) := 0];
    Advance(s2, 0, DoNext(0, true), s);
  }
}
