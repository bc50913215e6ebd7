/** Every step of Sched keeps the invariant of SchedInv. */
module SchedSteps {
  import opened Types
  import opened Sched
  import opened SchedInv

  // ---- who holds a lock

  /** CPU c acquired `add` and released `rem`. */
  ghost predicate HeldStep(s: Sys, s': Sys, c: nat, add: set<Lock>, rem: set<Lock>) {
    && (forall l :: l in s'.held <==> (l in s.held && l !in rem) || l in add)
    && (forall l :: l in s'.held ==> s'.held[l] == if l in add then c else s.held[l])
    && (forall l :: l in add ==> l !in s.held)
  }

  lemma LocksStep(s: Sys, s': Sys, c: nat, add: set<Lock>, rem: set<Lock>)
    requires LocksOk(s) && c < |s.cpus| == |s'.cpus| && HeldStep(s, s', c, add, rem)
    requires forall l :: l in rem ==> Holding(s, c, l)
    requires forall l :: Holding(s', c, l) <==> (Holding(s, c, l) && l !in rem) || l in add
    requires forall d :: 0 <= d < |s.cpus| && d != c ==> SameHolding(s, s', d)
    ensures LocksOk(s')
  {
    hide Holding;
    forall l | l in s'.held ensures s'.held[l] < |s'.cpus| && Holding(s', s'.held[l], l) {
      if l !in add {
        assert l in s.held && Holding(s, s.held[l], l) && (s.held[l] != c ==> SameHolding(s, s', s.held[l]));
      }
    }
    forall d: nat, l | d < |s'.cpus| && Holding(s', d, l) ensures l in s'.held && s'.held[l] == d {
      if d != c { assert SameHolding(s, s', d); }
    }
  }

  ghost predicate SameHolding(s: Sys, s': Sys, d: nat)
    requires d < |s.cpus| == |s'.cpus|
  {
    forall l :: Holding(s', d, l) <==> Holding(s, d, l)
  }

  /** A process is on one CPU only. */
  lemma Alone(s: Sys, c: nat, p: nat)
    requires AllCpus(s) && c < |s.cpus| && (s.cpus[c].ctx == On(p) || s.cpus[c].ctx == Back(p))
    ensures p < |s.procs| && s.procs[p].on == Some(c)
    ensures forall d :: 0 <= d < |s.cpus| && d != c ==> s.cpus[d].ctx != On(p) && s.cpus[d].ctx != Back(p)
  {
    assert CpuOk(s, c);
    forall d | 0 <= d < |s.cpus| && d != c ensures s.cpus[d].ctx != On(p) && s.cpus[d].ctx != Back(p) {
      assert CpuOk(s, d);
    }
  }

  /** A process at a place where l is held executes on the CPU that holds l. */
  lemma Holder(s: Sys, x: nat, l: Lock)
    requires Inv(s) && x < |s.procs| && PcHolds(s.procs[x].pc, l)
    ensures s.procs[x].on.Some? && l in s.held && s.held[l] == s.procs[x].on.value
    ensures Executes(s, s.held[l], x)
  {
    assert ProcOk(s, x);
    var c := s.procs[x].on.value;
    assert CpuOk(s, c) && Holding(s, c, l);
  }

  /** At most one process is at a place where wait_lock is held. */
  lemma OnlyWaiter(s: Sys, c: nat, p: nat)
    requires Inv(s) && Executes(s, c, p) && PcHolds(s.procs[p].pc, WaitLock)
    ensures forall x :: 0 <= x < |s.procs| && x != p ==> !PcHolds(s.procs[x].pc, WaitLock)
    ensures InitPending(s) <==> s.procs[p].pc.ExitWakeInit? && s.procs[p].pc.q <= s.init
  {
    Holder(s, p, WaitLock);
    forall x | 0 <= x < |s.procs| && x != p ensures !PcHolds(s.procs[x].pc, WaitLock) {
      if PcHolds(s.procs[x].pc, WaitLock) { Holder(s, x, WaitLock); }
    }
  }

  lemma NobodyAt(s: Sys, l: Lock)
    requires Inv(s) && Sched.Free(s, l)
    ensures forall x :: 0 <= x < |s.procs| ==> !PcHolds(s.procs[x].pc, l)
  {
    forall x | 0 <= x < |s.procs| ensures !PcHolds(s.procs[x].pc, l) {
      if PcHolds(s.procs[x].pc, l) { Holder(s, x, l); }
    }
  }

  /** Who holds wait_lock: a process that is executing, at a place in exit, wait or sleep. */
  lemma WaitHolder(s: Sys)
    requires Inv(s) && WaitLock in s.held
    ensures var c := s.held[WaitLock];
            c < |s.cpus| && s.cpus[c].ctx.On? && Executes(s, c, s.cpus[c].ctx.p)
            && PcHolds(s.procs[s.cpus[c].ctx.p].pc, WaitLock)
  {
    var c := s.held[WaitLock];
    assert Holding(s, c, WaitLock) && CpuOk(s, c);
  }

  /** Nobody is in sched or coming back from it for a process whose lock is free. */
  lemma Unlocked(s: Sys, i: nat)
    requires Inv(s) && i < |s.procs| && Sched.Free(s, ProcLock(i))
    ensures s.procs[i].inSched ==> s.procs[i].on == None
  {
    assert ProcOk(s, i);
    if s.procs[i].inSched && s.procs[i].on.Some? {
      var here := Holding(s, s.procs[i].on.value, ProcLock(i));
      assert false;
    }
  }

  // ---- frames

  /** PcOk reads little: the parents and pids, who is unused, in use, a zombie or asleep in wait, the ticks. */
  lemma PcOkFrame(s: Sys, s': Sys, x: nat)
    requires x < |s.procs| == |s'.procs| && s'.init == s.init && PcOk(s, x) && s'.procs[x].pc == s.procs[x].pc
    requires s'.ticks == s.ticks || !(s.procs[x].pc.Sleep? && s.procs[x].pc.why.InSleep?)
    requires forall j :: 0 <= j < |s.procs| ==>
               s'.procs[j].parent == s.procs[j].parent && s'.procs[j].pid == s.procs[j].pid
               && SameShape(s.procs[j], s'.procs[j])
    ensures PcOk(s', x)
  {
  }

  ghost predicate SameShape(x: Proc, y: Proc) {
    && (y.st == UNUSED <==> x.st == UNUSED)
    && (y.st == USED <==> x.st == USED)
    && (y.st == ZOMBIE <==> x.st == ZOMBIE)
    && (Waiting(y) ==> Waiting(x))
  }

  ghost predicate SameRole(x: Proc, y: Proc) {
    y.pc == x.pc && y.parent == x.parent && y.pid == x.pid && SameShape(x, y)
  }

  /** Neither the family tree nor where processes are in the code changed, nor who holds wait_lock. */
  ghost predicate Gentle(s: Sys, s': Sys) {
    && |s'.procs| == |s.procs| && |s'.cpus| == |s.cpus| && s'.init == s.init && s'.nextpid == s.nextpid
    && (forall x :: 0 <= x < |s.procs| ==> SameRole(s.procs[x], s'.procs[x]))
    && (WaitLock in s.held ==> WaitLock in s'.held && s'.held[WaitLock] == s.held[WaitLock])
    && (WaitLock in s.held && s.held[WaitLock] < |s.cpus| ==>
         s'.cpus[s.held[WaitLock]].ctx == s.cpus[s.held[WaitLock]].ctx)
  }

  lemma GentleKeeps(s: Sys, s': Sys)
    requires Inv(s) && Gentle(s, s')
    requires s'.ticks == s.ticks || forall x :: 0 <= x < |s.procs| ==>
               !(s.procs[x].pc.Sleep? && s.procs[x].pc.why.InSleep?)
    requires LocksOk(s') && AllCpus(s') && AllProcs(s') && AllTicks(s')
    ensures Inv(s')
  {
    hide LocksOk, AllCpus, AllProcs, AllTicks;
    forall x | 0 <= x < |s'.procs| ensures PcOk(s', x) && ChildOk(s', x) {
      assert SameRole(s.procs[x], s'.procs[x]) && PcOk(s, x) && ChildOk(s, x);
      assert InitPending(s) ==> InitPending(s');
      assert PcOk(s', x) by { hide Inv, PcOk; PcOkFrame(s, s', x); }
    }
    assert TargetsOk(s') && PidsOk(s') by {
      assert forall x :: 0 <= x < |s.procs| ==> SameRole(s.procs[x], s'.procs[x]);
    }
  }

  /** Locks and CPUs after a step of process p on CPU c, which leaves the CPUs alone. */
  lemma ProcessCpus(s: Sys, s': Sys, c: nat, p: nat, add: set<Lock>, rem: set<Lock>)
    requires Inv(s) && Executes(s, c, p) && s'.cpus == s.cpus && |s'.procs| == |s.procs| && HeldStep(s, s', c, add, rem)
    requires s'.procs[p].on == s.procs[p].on
    requires forall x :: 0 <= x < |s.procs| && x != p ==> SamePlace(s.procs[x], s'.procs[x])
    requires forall l :: l in rem ==> PcHolds(s.procs[p].pc, l)
    requires forall l :: ProcHolds(s'.procs[p], p, l) <==> (PcHolds(s.procs[p].pc, l) && l !in rem) || l in add
    ensures LocksOk(s') && AllCpus(s')
  {
    Alone(s, c, p);
    forall d | 0 <= d < |s.cpus| ensures CpuOk(s', d) && (d != c ==> SameHolding(s, s', d)) {
      assert CpuOk(s, d);
      if d != c && s.cpus[d].ctx.On? { assert SamePlace(s.procs[s.cpus[d].ctx.p], s'.procs[s.cpus[d].ctx.p]); }
      if d != c && s.cpus[d].ctx.Back? { assert SamePlace(s.procs[s.cpus[d].ctx.p], s'.procs[s.cpus[d].ctx.p]); }
    }
    LocksStep(s, s', c, add, rem);
  }

  predicate ProcHolds(x: Proc, p: nat, l: Lock) { if x.inSched then l == ProcLock(p) else PcHolds(x.pc, l) }

  /** Neither on a CPU nor put on one, or else the same as far as the CPU goes. */
  ghost predicate SamePlace(x: Proc, y: Proc) {
    y.on == x.on
    && (x.on == None
       || (y.pc == x.pc && y.inSched == x.inSched && (y.st == x.st || (x.st == SLEEPING && y.st == RUNNABLE))))
  }

  /** The same for a change of slots that no CPU makes visible. */
  lemma SlotCpus(s: Sys, s': Sys)
    requires Inv(s) && s'.cpus == s.cpus && |s'.procs| == |s.procs| && s'.held == s.held
    requires forall x :: 0 <= x < |s.procs| ==> SamePlace(s.procs[x], s'.procs[x])
    ensures LocksOk(s') && AllCpus(s')
  {
    forall d | 0 <= d < |s.cpus| ensures CpuOk(s', d) && SameHolding(s, s', d) {
      assert CpuOk(s, d);
      if s.cpus[d].ctx.On? { assert SamePlace(s.procs[s.cpus[d].ctx.p], s'.procs[s.cpus[d].ctx.p]); }
      if s.cpus[d].ctx.Back? { assert SamePlace(s.procs[s.cpus[d].ctx.p], s'.procs[s.cpus[d].ctx.p]); }
    }
    if |s.cpus| > 0 {
      assert SameHolding(s, s', 0);
      LocksStep(s, s', 0, {}, {});
    }
  }

  /** Slots that did not change are still in order. */
  lemma TwoSlots(s: Sys, s': Sys, p: nat, i: nat)
    requires AllProcs(s) && AllTicks(s) && p < |s.procs| == |s'.procs| && i < |s.procs| && s'.cpus == s.cpus
    requires s'.init == s.init && s'.ticks == s.ticks && s'.nextpid >= s.nextpid
    requires forall x :: 0 <= x < |s.procs| && x != p && x != i ==> s'.procs[x] == s.procs[x]
    requires ProcOk(s', p) && ProcOk(s', i) && TickOk(s', p) && TickOk(s', i)
    ensures AllProcs(s') && AllTicks(s')
  {
    forall x | 0 <= x < |s.procs| ensures ProcOk(s', x) && TickOk(s', x) {
      assert ProcOk(s, x) && TickOk(s, x);
    }
  }

  // ---- a sleeper is woken, by wakeup or by kill

  ghost predicate Woken(s: Sys, s': Sys, q: nat)
    requires q < |s.procs|
  {
    var x := s.procs[q];
    || s' == s
    || s' == SetProc(s, q, x.(killed := true))
    || (x.st == SLEEPING && s' == SetProc(s, q, x.(st := RUNNABLE)))
    || (x.st == SLEEPING && s' == SetProc(s, q, x.(st := RUNNABLE, killed := true)))
  }

  lemma WokenKeeps(s: Sys, s': Sys, q: nat)
    requires Inv(s) && q < |s.procs| && Woken(s, s', q)
    ensures Inv(s')
  {
    assert ProcOk(s, q) && TickOk(s, q) && AllProcs(s) && AllTicks(s);
    hide Inv, AllProcs, AllTicks;
    SlotCpus(s, s');
    TwoSlots(s, s', q, q);
    GentleKeeps(s, s');
  }

  // ---- the scheduler and the clock: steps that concern CPU c and at most the process p on it

  lemma LocalKeeps(s: Sys, s': Sys, c: nat, p: nat, add: set<Lock>, rem: set<Lock>)
    requires Inv(s) && c < |s.cpus| == |s'.cpus| && p < |s.procs| == |s'.procs| && s'.init == s.init
             && s'.nextpid == s.nextpid
    requires s'.cpus == s.cpus[c := s'.cpus[c]] && s'.procs == s.procs[p := s'.procs[p]]
    requires SameRole(s.procs[p], s'.procs[p])
             && (s'.procs[p] == s.procs[p] || s.procs[p].on == None || s.procs[p].on == Some(c))
    requires s.cpus[c].ctx.Idle? || s.cpus[c].ctx == On(p) || s.cpus[c].ctx == Back(p)
             || s'.cpus[c].ctx == s.cpus[c].ctx
    requires s'.ticks == s.ticks || forall x :: 0 <= x < |s.procs| ==>
               !(s.procs[x].pc.Sleep? && s.procs[x].pc.why.InSleep?)
    requires HeldStep(s, s', c, add, rem)
    requires forall l :: l in rem ==> Holding(s, c, l)
    requires forall l :: Holding(s', c, l) <==> (Holding(s, c, l) && l !in rem) || l in add
    requires WaitLock !in rem && (Holding(s, c, WaitLock) ==> s'.cpus[c].ctx == s.cpus[c].ctx)
    requires CpuOk(s', c) && ProcOk(s', p) && AllTicks(s')
    ensures Inv(s')
  {
    LocalCpus(s, s', c, p, add, rem);
    if WaitLock in s.held { WaitHolder(s); assert Holding(s, s.held[WaitLock], WaitLock); }
    LocalProcs(s, s', c, p);
    hide Inv, AllProcs, AllCpus, AllTicks, LocksOk, ProcOk, CpuOk, HeldStep;
    GentleKeeps(s, s');
  }

  lemma LocalProcs(s: Sys, s': Sys, c: nat, p: nat)
    requires Inv(s) && c < |s.cpus| == |s'.cpus| && p < |s.procs| == |s'.procs| && s'.init == s.init
             && s'.nextpid == s.nextpid
    requires s'.cpus == s.cpus[c := s'.cpus[c]] && s'.procs == s.procs[p := s'.procs[p]] && ProcOk(s', p)
    requires s.cpus[c].ctx.Idle? || s.cpus[c].ctx == On(p) || s.cpus[c].ctx == Back(p)
             || s'.cpus[c].ctx == s.cpus[c].ctx
    ensures AllProcs(s')
  {
    forall x | 0 <= x < |s'.procs| ensures ProcOk(s', x) { assert ProcOk(s, x) && CpuOk(s, c); }
  }

  lemma LocalCpus(s: Sys, s': Sys, c: nat, p: nat, add: set<Lock>, rem: set<Lock>)
    requires Inv(s) && c < |s.cpus| == |s'.cpus| && p < |s.procs| == |s'.procs|
    requires s'.cpus == s.cpus[c := s'.cpus[c]] && s'.procs == s.procs[p := s'.procs[p]]
    requires s'.procs[p] == s.procs[p] || s.procs[p].on == None || s.procs[p].on == Some(c)
    requires HeldStep(s, s', c, add, rem)
    requires forall l :: l in rem ==> Holding(s, c, l)
    requires forall l :: Holding(s', c, l) <==> (Holding(s, c, l) && l !in rem) || l in add
    requires CpuOk(s', c)
    ensures LocksOk(s') && AllCpus(s')
  {
    forall d | 0 <= d < |s.cpus| ensures CpuOk(s', d) && (d != c ==> SameHolding(s, s', d)) {
      assert CpuOk(s, d);
    }
    LocksStep(s, s', c, add, rem);
  }

  /** Without a change of ticks, or of how far the clock interrupt is. */
  lemma SameTicks(s: Sys, s': Sys)
    requires Inv(s) && |s'.cpus| == |s.cpus| && |s'.procs| == |s.procs| && s'.ticks == s.ticks
    requires |s.cpus| > 0 && s.cpus[0].tick.TickScan? ==> s'.cpus[0].tick == s.cpus[0].tick
    requires forall x :: 0 <= x < |s.procs| ==>
               s'.procs[x].pc == s.procs[x].pc && (s'.procs[x].st == SLEEPING ==> s.procs[x].st == SLEEPING)
    ensures AllTicks(s')
  {
    forall x | 0 <= x < |s.procs| ensures TickOk(s', x) { assert TickOk(s, x); }
  }

  lemma SchedSkipKeeps(s: Sys, c: nat)
    requires Inv(s) && SchedSkip(s, c).Some?
    ensures Inv(SchedSkip(s, c).value)
  {
    var s' := SchedSkip(s, c).value;
    SameTicks(s, s');
    assert CpuOk(s, c) && ProcOk(s, s.init) && s.init < |s.procs|;
    hide Inv, AllTicks;
    LocalKeeps(s, s', c, s.init, {}, {});
  }

  lemma SchedPickKeeps(s: Sys, c: nat)
    requires Inv(s) && SchedPick(s, c).Some?
    ensures Inv(SchedPick(s, c).value)
  {
    var s', i := SchedPick(s, c).value, s.cpus[c].ctx.i;
    Unlocked(s, i);
    SameTicks(s, s');
    assert CpuOk(s, c) && ProcOk(s, i);
    hide Inv, AllTicks;
    LocalKeeps(s, s', c, i, {ProcLock(i)}, {});
  }

  lemma ResumeKeeps(s: Sys, c: nat)
    requires Inv(s) && Resume(s, c).Some?
    ensures Inv(Resume(s, c).value)
  {
    var s', p := Resume(s, c).value, s.cpus[c].ctx.p;
    SameTicks(s, s');
    assert CpuOk(s, c) && ProcOk(s, p);
    hide Inv, AllTicks;
    LocalKeeps(s, s', c, p, {}, {ProcLock(p)});
  }

  lemma YieldKeeps(s: Sys, c: nat)
    requires Inv(s) && Yield(s, c).Some?
    ensures Inv(Yield(s, c).value)
  {
    var s', p := Yield(s, c).value, s.cpus[c].ctx.p;
    SameTicks(s, s');
    assert CpuOk(s, c) && ProcOk(s, p);
    hide Inv, AllTicks;
    LocalKeeps(s, s', c, p, {ProcLock(p)}, {});
  }

  lemma SwtchKeeps(s: Sys, c: nat)
    requires Inv(s) && Swtch(s, c).Some?
    ensures Inv(Swtch(s, c).value)
  {
    var s', p := Swtch(s, c).value, s.cpus[c].ctx.p;
    SameTicks(s, s');
    assert CpuOk(s, c) && ProcOk(s, p);
    hide Inv, AllTicks;
    LocalKeeps(s, s', c, p, {}, {});
  }

  lemma SchedBackKeeps(s: Sys, c: nat)
    requires Inv(s) && SchedBack(s, c).Some?
    ensures Inv(SchedBack(s, c).value)
  {
    var s', p := SchedBack(s, c).value, s.cpus[c].ctx.p;
    SameTicks(s, s');
    assert CpuOk(s, c) && ProcOk(s, p);
    hide Inv, AllTicks;
    LocalKeeps(s, s', c, p, {}, {ProcLock(p)});
  }

  lemma TickBeginKeeps(s: Sys, c: nat)
    requires Inv(s) && TickBegin(s, c).Some?
    ensures Inv(TickBegin(s, c).value)
  {
    var s' := TickBegin(s, c).value;
    SameTicks(s, s');
    assert CpuOk(s, c) && ProcOk(s, s.init) && s.init < |s.procs|;
    hide Inv, AllTicks;
    LocalKeeps(s, s', c, s.init, {}, {});
  }

  lemma TickTakeKeeps(s: Sys, c: nat)
    requires Inv(s) && TickTake(s, c).Some?
    ensures Inv(TickTake(s, c).value)
  {
    var s' := TickTake(s, c).value;
    NobodyAt(s, TicksLock);
    assert CpuOk(s, c) && ProcOk(s, s.init) && s.init < |s.procs|;
    hide Inv;
    LocalKeeps(s, s', c, s.init, {TicksLock}, {});
  }

  /** wakeup(&ticks) skips the process it interrupted, which is running, not asleep. */
  lemma TickNextKeeps(s: Sys, c: nat)
    requires Inv(s) && TickNext(s, c).Some?
    ensures Inv(TickNext(s, c).value)
  {
    var s', q := TickNext(s, c).value, s.cpus[c].tick.q;
    assert CpuOk(s, c) && ProcOk(s, s.init) && s.init < |s.procs|;
    TickPassed(s, s', c, q);
    if q < |s.procs| {
      var s1 := if s.cpus[c].proc == Some(q) then s else Wake(s, q, OfTicks);
      WokenKeeps(s, s1, q);
      hide Inv, AllTicks;
      TickMovesOn(s1, s', c, q);
    } else {
      hide Inv, AllTicks;
      LocalKeeps(s, s', c, s.init, {}, {TicksLock});
    }
  }

  lemma TickMovesOn(s: Sys, s': Sys, c: nat, q: nat)
    requires Inv(s) && c < |s.cpus| && s.cpus[c].tick == TickScan(q) && q < |s.procs|
             && s' == SetCpu(s, c, s.cpus[c].(tick := TickScan(q + 1)))
    requires AllTicks(s')
    ensures Inv(s')
  {
    assert CpuOk(s, c) && ProcOk(s, s.init) && s.init < |s.procs|;
    hide Inv, AllTicks;
    LocalKeeps(s, s', c, s.init, {}, {});
  }

  lemma TickPassed(s: Sys, s': Sys, c: nat, q: nat)
    requires Inv(s) && TickNext(s, c) == Some(s') && s.cpus[c].tick == TickScan(q)
    ensures |s'.procs| == |s.procs| && AllTicks(s')
  {
    assert CpuOk(s, c);
    forall x | 0 <= x < |s.procs| ensures TickOk(s', x) { assert TickOk(s, x) && ProcOk(s, x); }
  }

  // ---- process code: steps that only move the pc and the locks

  /** Only the pc of p and the locks changed. */
  ghost predicate Moved(s: Sys, s': Sys, c: nat, p: nat, pc: Pc, add: set<Lock>, rem: set<Lock>)
    requires p < |s.procs|
  {
    s' == Goto(s, p, pc).(held := s'.held) && HeldStep(s, s', c, add, rem)
  }

  lemma MovedKeeps(s: Sys, s': Sys, c: nat, p: nat, pc: Pc, add: set<Lock>, rem: set<Lock>)
    requires Inv(s) && Executes(s, c, p) && Moved(s, s', c, p, pc, add, rem)
    requires forall l :: l in rem ==> PcHolds(s.procs[p].pc, l)
    requires forall l :: PcHolds(pc, l) <==> (PcHolds(s.procs[p].pc, l) && l !in rem) || l in add
    requires pc != Exited && PcOk(s', p)
    requires Target(pc).Some? ==> forall q :: 0 <= q < |s.procs| && q != p ==> Target(s.procs[q].pc) != Target(pc)
    requires InitPending(s) ==> InitPending(s') || !Waiting(s.procs[s.init])
    ensures Inv(s')
  {
    assert ProcOk(s, p) && AllProcs(s) && AllTicks(s);
    MovedPcs(s, s', p, pc);
    MovedRest(s, s', p, pc);
    hide Inv, AllProcs, AllTicks, AllPcs, AllChildren, TargetsOk, PidsOk, HeldStep;
    ProcessCpus(s, s', c, p, add, rem);
    TwoSlots(s, s', p, p);
    Together(s, s');
  }

  lemma Together(s: Sys, s': Sys)
    requires Inv(s) && s'.init == s.init && |s'.procs| == |s.procs|
    requires LocksOk(s') && AllCpus(s') && AllProcs(s') && AllPcs(s') && AllChildren(s') && AllTicks(s')
             && TargetsOk(s') && PidsOk(s')
    ensures Inv(s')
  {
  }

  lemma MovedPcs(s: Sys, s': Sys, p: nat, pc: Pc)
    requires Inv(s) && p < |s.procs| && s' == Goto(s, p, pc).(held := s'.held) && s.procs[p].st == RUNNING
             && PcOk(s', p)
    ensures AllPcs(s')
  {
    forall x | 0 <= x < |s'.procs| ensures PcOk(s', x) {
      assert PcOk(s, x);
      hide Inv, PcOk;
      if x != p { PcOkFrame(s, s', x); }
    }
  }

  lemma MovedRest(s: Sys, s': Sys, p: nat, pc: Pc)
    requires Inv(s) && p < |s.procs| && s' == Goto(s, p, pc).(held := s'.held) && s.procs[p].st == RUNNING
    requires Target(pc).Some? ==> forall q :: 0 <= q < |s.procs| && q != p ==> Target(s.procs[q].pc) != Target(pc)
    requires InitPending(s) ==> InitPending(s') || !Waiting(s.procs[s.init])
    ensures AllChildren(s') && TargetsOk(s') && PidsOk(s')
  {
    hide LocksOk, AllCpus, AllProcs, AllPcs, AllTicks;
    forall x | 0 <= x < |s'.procs| ensures ChildOk(s', x) { assert ChildOk(s, x); }
  }

  /** A move that leaves the locks alone. */
  lemma MoveOnKeeps(s: Sys, c: nat, p: nat, pc: Pc)
    requires Inv(s) && Executes(s, c, p) && PcOk(Goto(s, p, pc), p)
    requires forall l :: PcHolds(pc, l) <==> PcHolds(s.procs[p].pc, l)
    requires pc != Exited && Target(pc) == None
    requires InitPending(s) ==> InitPending(Goto(s, p, pc)) || !Waiting(s.procs[s.init])
    ensures Inv(Goto(s, p, pc))
  {
    hide Inv, PcOk;
    MovedKeeps(s, Goto(s, p, pc), c, p, pc, {}, {});
  }

  /** Only the process in wakeup(initproc) keeps it pending. */
  lemma NotPending(s: Sys, c: nat, p: nat)
    requires Inv(s) && Executes(s, c, p) && !s.procs[p].pc.ExitWakeInit?
    ensures forall pc :: !PcHolds(s.procs[p].pc, WaitLock) && InitPending(s) ==> InitPending(Goto(s, p, pc))
    ensures PcHolds(s.procs[p].pc, WaitLock) ==> !InitPending(s)
  {
    if PcHolds(s.procs[p].pc, WaitLock) { OnlyWaiter(s, c, p); }
    if InitPending(s) { WaitHolder(s); }
  }

  lemma CallKeeps(s: Sys, c: nat, p: nat, entry: Pc)
    requires Inv(s) && Executes(s, c, p) && Call(s, c, p, entry).Some?
    ensures Inv(Call(s, c, p, entry).value)
  {
    NotPending(s, c, p);
    hide Inv;
    MoveOnKeeps(s, c, p, entry);
  }

  /** A free slot is not being built by anyone: its builder would hold the lock. */
  lemma NoBuilder(s: Sys, i: nat)
    requires Inv(s) && i < |s.procs| && Sched.Free(s, ProcLock(i)) && s.procs[i].st == UNUSED
    ensures forall q :: 0 <= q < |s.procs| ==> Target(s.procs[q].pc) != Some(i)
  {
    NobodyAt(s, ProcLock(i));
    forall q | 0 <= q < |s.procs| ensures Target(s.procs[q].pc) != Some(i) { assert PcOk(s, q); }
  }

  lemma AllocLookKeeps(s: Sys, c: nat, p: nat, i: nat)
    requires Inv(s) && Executes(s, c, p) && s.procs[p].pc == AllocScan(i) && AllocLook(s, c, p, i).Some?
    ensures Inv(AllocLook(s, c, p, i).value)
  {
    var s' := AllocLook(s, c, p, i).value;
    NotPending(s, c, p);
    assert ProcOk(s, p);
    if i < |s.procs| && s.procs[i].st == UNUSED {
      NoBuilder(s, i);
      hide Inv;
      MovedKeeps(s, s', c, p, AllocPid(i), {ProcLock(i)}, {});
    } else {
      hide Inv;
      MoveOnKeeps(s, c, p, s'.procs[p].pc);
    }
  }

  lemma TakeKeeps(s: Sys, c: nat, p: nat, l: Lock, pc: Pc)
    requires Inv(s) && Executes(s, c, p) && Take(s, c, p, l, pc).Some?
    requires Lockless(s.procs[p].pc) && (l == WaitLock || l == TicksLock)
    requires || (pc == ExitScan(0) && l == WaitLock && s.procs[p].pc == ExitStart)
             || (pc == WaitScan(0, false) && l == WaitLock)
             || (pc.TickLoop? && l == TicksLock)
    ensures Inv(Take(s, c, p, l, pc).value)
  {
    hide Inv, PcOk;
    var s' := Take(s, c, p, l, pc).value;
    TakePc(s, c, p, l, pc);
    TakePending(s, s', p);
    MovedKeeps(s, s', c, p, pc, {l}, {});
  }

  lemma TakePc(s: Sys, c: nat, p: nat, l: Lock, pc: Pc)
    requires Inv(s) && Executes(s, c, p) && Take(s, c, p, l, pc).Some?
    requires (pc == ExitScan(0) && s.procs[p].pc == ExitStart) || pc == WaitScan(0, false) || pc.TickLoop?
    ensures PcOk(Take(s, c, p, l, pc).value, p)
  {
    assert PcOk(s, p);
    hide Inv;
  }

  lemma TakePending(s: Sys, s': Sys, p: nat)
    requires Inv(s) && p < |s.procs| && |s'.procs| == |s.procs| && s'.procs == s.procs[p := s'.procs[p]]
             && s'.cpus == s.cpus && s'.init == s.init
    requires Lockless(s.procs[p].pc) && forall l :: l in s.held ==> l in s'.held && s'.held[l] == s.held[l]
    ensures InitPending(s) ==> InitPending(s')
  {
    if InitPending(s) { WaitHolder(s); }
    hide Inv;
  }

  lemma WaitLookKeeps(s: Sys, c: nat, p: nat, i: nat, have: bool, copied: bool)
    requires Inv(s) && Executes(s, c, p) && s.procs[p].pc == WaitScan(i, have)
             && WaitLook(s, c, p, i, have, copied).Some?
    ensures Inv(WaitLook(s, c, p, i, have, copied).value)
  {
    var s' := WaitLook(s, c, p, i, have, copied).value;
    var pc := s'.procs[p].pc;
    assert PcOk(s, p) && (i < |s.procs| ==> ChildOk(s, i));
    NotPending(s, c, p);
    hide Inv;
    if pc == Run {
      LeaveKeeps(s, c, p, WaitLock);
    } else if pc.WaitFree? {
      FoundKeeps(s, c, p, i);
    } else {
      MoveOnKeeps(s, c, p, pc);
    }
  }

  lemma FoundKeeps(s: Sys, c: nat, p: nat, i: nat)
    requires Inv(s) && Executes(s, c, p) && s.procs[p].pc.WaitScan? && Sched.Free(s, ProcLock(i)) && !InitPending(s)
    requires i < |s.procs| && i != p && s.procs[i].st == ZOMBIE && s.procs[i].parent == Some(p)
    ensures Inv(Goto(Acquire(s, c, ProcLock(i)), p, WaitFree(i)))
  {
    hide Inv;
    MovedKeeps(s, Goto(Acquire(s, c, ProcLock(i)), p, WaitFree(i)), c, p, WaitFree(i), {ProcLock(i)}, {});
  }

  /** Releasing the only lock held and going back to where none is. */
  lemma LeaveKeeps(s: Sys, c: nat, p: nat, l: Lock)
    requires Inv(s) && Executes(s, c, p) && (forall k :: PcHolds(s.procs[p].pc, k) <==> k == l) && !InitPending(s)
    ensures Inv(Goto(Release(s, l), p, Run))
  {
    hide Inv;
    MovedKeeps(s, Goto(Release(s, l), p, Run), c, p, Run, {}, {l});
  }

  lemma TickTestKeeps(s: Sys, c: nat, p: nat, t0: uint32, n: uint32)
    requires Inv(s) && Executes(s, c, p) && s.procs[p].pc == TickLoop(t0, n) && TickTest(s, c, p, t0, n).Some?
    ensures Inv(TickTest(s, c, p, t0, n).value)
  {
    hide Inv, InitPending;
    NotPending(s, c, p);
    if Elapsed(s.ticks, t0) < n && !s.procs[p].killed {
      MoveOnKeeps(s, c, p, Sleep(InSleep(t0, n)));
    } else {
      var s' := Goto(Release(s, TicksLock), p, Run);
      ReleaseTicks(s, s', p);
      MovedKeeps(s, s', c, p, Run, {}, {TicksLock});
    }
  }

  lemma ReleaseTicks(s: Sys, s': Sys, p: nat)
    requires p < |s.procs| && s' == Goto(Release(s, TicksLock), p, Run)
    requires InitPending(s) ==> InitPending(Goto(s, p, Run))
    ensures InitPending(s) ==> InitPending(s')
  {
  }

  lemma KillLookKeeps(s: Sys, c: nat, p: nat, pid: nat, i: nat)
    requires Inv(s) && Executes(s, c, p) && s.procs[p].pc == KillScan(pid, i) && KillLook(s, c, p, pid, i).Some?
    ensures Inv(KillLook(s, c, p, pid, i).value)
  {
    var s' := KillLook(s, c, p, pid, i).value;
    NotPending(s, c, p);
    if i < |s.procs| && s.procs[i].pid == pid {
      var x := s.procs[i];
      var s1 := SetProc(s, i, x.(killed := true, st := if x.st == SLEEPING then RUNNABLE else x.st));
      assert ProcOk(s, p);
      WokenKeeps(s, s1, i);
      NotPending(s1, c, p);
      hide Inv;
      MoveOnKeeps(s1, c, p, Run);
    } else {
      hide Inv;
      MoveOnKeeps(s, c, p, s'.procs[p].pc);
    }
  }

  /** wakeup at slot q: the process running it is not the sleeper, and a sleeper in wait is woken. */
  lemma WakeFacts(s: Sys, c: nat, p: nat, q: nat)
    requires Inv(s) && Executes(s, c, p) && q < |s.procs|
    ensures var s1 := if q == p then s else Wake(s, q, OfProc(q));
            Inv(s1) && Executes(s1, c, p) && !Waiting(s1.procs[q])
  {
    assert ProcOk(s, p) && ProcOk(s, q);
    WokenKeeps(s, if q == p then s else Wake(s, q, OfProc(q)), q);
  }

  lemma WakeOther(s: Sys, c: nat, p: nat, q: nat, ch: Chan)
    requires Inv(s) && Executes(s, c, p) && q < |s.procs|
    ensures var s1 := if q == p then s else Wake(s, q, ch);
            && Inv(s1) && Executes(s1, c, p) && s1.procs[p] == s.procs[p] && |s1.procs| == |s.procs|
            && s1.init == s.init && s1.ticks == s.ticks
            && (PcOk(s, p) ==> PcOk(s1, p)) && (InitPending(s1) <==> InitPending(s))
            && (forall x :: 0 <= x < |s.procs| && Waiting(s1.procs[x]) ==> Waiting(s.procs[x]))
  {
    assert ProcOk(s, p);
    WokenKeeps(s, if q == p then s else Wake(s, q, ch), q);
  }

  /** wakeup(initproc) for child pp: when it ends, initproc does not sleep through any exit. */
  lemma WakeInitKeeps(s: Sys, c: nat, p: nat, pp: nat, q: nat)
    requires Inv(s) && Executes(s, c, p) && s.procs[p].pc == ExitWakeInit(pp, q)
    requires WakeNext(s, c, p, q, OfProc(s.init), ExitWakeInit(pp, q + 1), ExitScan(pp + 1)).Some?
    ensures Inv(WakeNext(s, c, p, q, OfProc(s.init), ExitWakeInit(pp, q + 1), ExitScan(pp + 1)).value)
  {
    assert PcOk(s, p) && s.init < |s.procs|;
    InitHolder(s, c, p);
    if q >= |s.procs| {
      WakeInitNext(s, p, pp, q);
      hide Inv, PcOk;
      MoveOnKeeps(s, c, p, ExitScan(pp + 1));
    } else {
      WakeOther(s, c, p, q, OfProc(s.init));
      if q == s.init { WakeFacts(s, c, p, q); }
      var s1 := if q == p then s else Wake(s, q, OfProc(s.init));
      InitHolder(s1, c, p);
      WakeInitNext(s1, p, pp, q);
      hide Inv, PcOk;
      MoveOnKeeps(s1, c, p, ExitWakeInit(pp, q + 1));
    }
  }

  lemma WakeInitNext(s: Sys, p: nat, pp: nat, q: nat)
    requires p < |s.procs| && s.procs[p].pc == ExitWakeInit(pp, q) && PcOk(s, p)
    ensures PcOk(Goto(s, p, ExitWakeInit(pp, q + 1)), p) && PcOk(Goto(s, p, ExitScan(pp + 1)), p)
  {
  }

  lemma InitHolder(s: Sys, c: nat, p: nat)
    requires Inv(s) && Executes(s, c, p) && s.procs[p].pc.ExitWakeInit?
    ensures InitPending(s) <==> s.procs[p].pc.q <= s.init
    ensures forall pc :: InitPending(Goto(s, p, pc)) <==> pc.ExitWakeInit? && pc.q <= s.init
  {
    Holder(s, p, WaitLock);
  }

  lemma WakeParentKeeps(s: Sys, c: nat, p: nat, par: nat, q: nat)
    requires Inv(s) && Executes(s, c, p) && s.procs[p].pc == ExitWakeParent(par, q)
    requires WakeNext(s, c, p, q, OfProc(par), ExitWakeParent(par, q + 1), ExitZombie).Some?
    ensures Inv(WakeNext(s, c, p, q, OfProc(par), ExitWakeParent(par, q + 1), ExitZombie).value)
  {
    assert PcOk(s, p) && ChildOk(s, p);
    NotPending(s, c, p);
    if q >= |s.procs| {
      hide Inv;
      MoveOnKeeps(s, c, p, ExitZombie);
    } else {
      WakeOther(s, c, p, q, OfProc(par));
      if q == par { WakeFacts(s, c, p, q); }
      hide Inv;
      MoveOnKeeps(if q == p then s else Wake(s, q, OfProc(par)), c, p, ExitWakeParent(par, q + 1));
    }
  }

  // ---- process code: steps that change slots

  /** A slot goes back to UNUSED: no process is in it and nobody counts on it. */
  lemma FreedKeeps(s: Sys, i: nat)
    requires Inv(s) && i < |s.procs| && (s.procs[i].st == USED || s.procs[i].st == ZOMBIE) && s.procs[i].on == None
             && i != s.init
    requires forall q :: 0 <= q < |s.procs| ==> Target(s.procs[q].pc) != Some(i) && s.procs[q].pc != WaitFree(i)
    ensures Inv(SetProc(s, i, Freed(s.procs[i])))
  {
    var s' := SetProc(s, i, Freed(s.procs[i]));
    assert ProcOk(s, i) && AllProcs(s) && AllTicks(s);
    FreedPcs(s, i);
    FreedRest(s, i);
    hide Inv, AllProcs, AllTicks, AllPcs, AllChildren, TargetsOk, PidsOk;
    SlotCpus(s, s');
    TwoSlots(s, s', i, i);
    Together(s, s');
  }

  lemma FreedPcs(s: Sys, i: nat)
    requires Inv(s) && i < |s.procs| && (s.procs[i].st == USED || s.procs[i].st == ZOMBIE)
    requires forall q :: 0 <= q < |s.procs| ==> Target(s.procs[q].pc) != Some(i) && s.procs[q].pc != WaitFree(i)
    ensures AllPcs(SetProc(s, i, Freed(s.procs[i])))
  {
    var s' := SetProc(s, i, Freed(s.procs[i]));
    forall x | 0 <= x < |s'.procs| ensures PcOk(s', x) {
      assert PcOk(s, x) && ChildOk(s, x);
      var at := s.procs[x].pc;
      assert at.ExitWakeParent? ==> at.par != i;
      hide Inv, ChildOk;
    }
  }

  lemma FreedRest(s: Sys, i: nat)
    requires Inv(s) && i < |s.procs| && (s.procs[i].st == USED || s.procs[i].st == ZOMBIE) && i != s.init
    requires forall q :: 0 <= q < |s.procs| ==> Target(s.procs[q].pc) != Some(i) && s.procs[q].pc != WaitFree(i)
    ensures var s' := SetProc(s, i, Freed(s.procs[i])); AllChildren(s') && TargetsOk(s') && PidsOk(s')
  {
    var s' := SetProc(s, i, Freed(s.procs[i]));
    assert ProcOk(s, i);
    if InitPending(s) { WaitHolder(s); }
    hide LocksOk, AllCpus, AllTicks, AllProcs, AllPcs, PcOk;
    forall x | 0 <= x < |s'.procs| ensures ChildOk(s', x) { assert ChildOk(s, x); }
  }

  lemma AllocPagesKeeps(s: Sys, c: nat, p: nat, i: nat, ok: bool)
    requires Inv(s) && Executes(s, c, p) && s.procs[p].pc == AllocMem(i) && AllocPages(s, c, p, i, ok).Some?
    ensures Inv(AllocPages(s, c, p, i, ok).value)
  {
    NotPending(s, c, p);
    assert PcOk(s, p);
    if ok {
      assert TargetsOk(s);
      hide Inv;
      MovedKeeps(s, Goto(Release(s, ProcLock(i)), p, ForkLink(i)), c, p, ForkLink(i), {}, {ProcLock(i)});
    } else {
      var s1 := Goto(Release(s, ProcLock(i)), p, Run);
      AllocFailMoves(s, s1, c, p, i);
      FreedKeeps(s1, i);
      assert SetProc(s1, i, Freed(s1.procs[i])).procs == AllocPages(s, c, p, i, ok).value.procs;
    }
  }

  lemma AllocFailMoves(s: Sys, s1: Sys, c: nat, p: nat, i: nat)
    requires Inv(s) && Executes(s, c, p) && s.procs[p].pc == AllocMem(i) && s1 == Goto(Release(s, ProcLock(i)), p, Run)
    ensures Inv(s1) && i < |s.procs| && s1.procs[i] == s.procs[i] && s.procs[i].st == USED && s.procs[i].on == None
            && i != s.init && i != p
    ensures forall q :: 0 <= q < |s1.procs| ==> Target(s1.procs[q].pc) != Some(i) && s1.procs[q].pc != WaitFree(i)
  {
    NotPending(s, c, p);
    assert PcOk(s, p) && ProcOk(s, i);
    forall q | 0 <= q < |s.procs| && q != p
      ensures Target(s.procs[q].pc) != Some(i) && s.procs[q].pc != WaitFree(i)
    {
      assert PcOk(s, q);
    }
    hide Inv;
    MovedKeeps(s, s1, c, p, Run, {}, {ProcLock(i)});
  }

  lemma WaitReapKeeps(s: Sys, c: nat, p: nat, i: nat)
    requires Inv(s) && Executes(s, c, p) && s.procs[p].pc == WaitFree(i) && WaitReap(s, c, p, i).Some?
    ensures Inv(WaitReap(s, c, p, i).value)
  {
    var s1 := Goto(Release(Release(s, ProcLock(i)), WaitLock), p, Run);
    ReapMoves(s, s1, c, p, i);
    FreedKeeps(s1, i);
    assert SetProc(s1, i, Freed(s1.procs[i])).procs == WaitReap(s, c, p, i).value.procs;
  }

  /** The zombie that wait frees is on no CPU: a CPU that still had it would hold its lock. */
  lemma ReapMoves(s: Sys, s1: Sys, c: nat, p: nat, i: nat)
    requires Inv(s) && Executes(s, c, p) && s.procs[p].pc == WaitFree(i)
             && s1 == Goto(Release(Release(s, ProcLock(i)), WaitLock), p, Run)
    ensures Inv(s1) && i < |s.procs| && s1.procs[i] == s.procs[i] && s.procs[i].st == ZOMBIE && s.procs[i].on == None
            && i != s.init && i != p
    ensures forall q :: 0 <= q < |s1.procs| ==> Target(s1.procs[q].pc) != Some(i) && s1.procs[q].pc != WaitFree(i)
  {
    NotPending(s, c, p);
    OnlyWaiter(s, c, p);
    assert PcOk(s, p) && ProcOk(s, i);
    OffCpu(s, c, p, i);
    forall q | 0 <= q < |s.procs| && q != p
      ensures Target(s.procs[q].pc) != Some(i) && s.procs[q].pc != WaitFree(i)
    {
      assert PcOk(s, q);
    }
    hide Inv;
    MovedKeeps(s, s1, c, p, Run, {}, {ProcLock(i), WaitLock});
  }

  lemma OffCpu(s: Sys, c: nat, p: nat, i: nat)
    requires Inv(s) && Executes(s, c, p) && PcHolds(s.procs[p].pc, ProcLock(i)) && i < |s.procs| && s.procs[i].inSched
             && i != p
    ensures s.procs[i].on == None
  {
    Holder(s, p, ProcLock(i));
    assert ProcOk(s, i);
    if s.procs[i].on.Some? {
      var here := Holding(s, s.procs[i].on.value, ProcLock(i));
      assert false;
    }
  }

  lemma ReadyKeeps(s: Sys, c: nat, p: nat, i: nat)
    requires Inv(s) && Executes(s, c, p) && s.procs[p].pc == ForkReady(i) && Ready(s, c, p, i).Some?
    ensures Inv(Ready(s, c, p, i).value)
  {
    NotPending(s, c, p);
    assert PcOk(s, p) && TargetsOk(s);
    var s1 := Goto(s, p, Run);
    assert Inv(s1) by {
      hide Inv;
      MoveOnKeeps(s, c, p, Run);
    }
    RunnableKeeps(s1, i);
    assert SetProc(s1, i, s1.procs[i].(st := RUNNABLE)).procs == Ready(s, c, p, i).value.procs;
  }

  lemma RunnableKeeps(s: Sys, i: nat)
    requires Inv(s) && i < |s.procs| && s.procs[i].st == USED && s.procs[i].parent.Some?
    requires forall q :: 0 <= q < |s.procs| ==> Target(s.procs[q].pc) != Some(i)
    ensures Inv(SetProc(s, i, s.procs[i].(st := RUNNABLE)))
  {
    var s' := SetProc(s, i, s.procs[i].(st := RUNNABLE));
    assert ProcOk(s, i) && TickOk(s, i) && AllProcs(s) && AllTicks(s);
    RunnableRest(s, i);
    hide Inv, AllProcs, AllTicks, AllPcs, AllChildren, TargetsOk, PidsOk;
    SlotCpus(s, s');
    TwoSlots(s, s', i, i);
    Together(s, s');
  }

  lemma RunnableRest(s: Sys, i: nat)
    requires Inv(s) && i < |s.procs| && s.procs[i].st == USED && forall q :: 0 <= q < |s.procs| ==>
               Target(s.procs[q].pc) != Some(i)
    ensures var s' := SetProc(s, i, s.procs[i].(st := RUNNABLE));
            AllPcs(s') && AllChildren(s') && TargetsOk(s') && PidsOk(s')
  {
    var s' := SetProc(s, i, s.procs[i].(st := RUNNABLE));
    if InitPending(s) { WaitHolder(s); }
    assert ProcOk(s, i);
    hide LocksOk, AllCpus, AllTicks, AllProcs;
    forall x | 0 <= x < |s'.procs| ensures PcOk(s', x) {
      assert PcOk(s, x);
      if x != i { PcOkSlot(s, s', x, i); }
    }
    hide PcOk;
    forall x | 0 <= x < |s'.procs| ensures ChildOk(s', x) { assert ChildOk(s, x); }
  }

  lemma AllocSetPidKeeps(s: Sys, c: nat, p: nat, i: nat)
    requires Inv(s) && Executes(s, c, p) && s.procs[p].pc == AllocPid(i) && AllocSetPid(s, c, p, i).Some?
    ensures Inv(AllocSetPid(s, c, p, i).value)
  {
    var s' := AllocSetPid(s, c, p, i).value;
    assert PcOk(s, p) && ProcOk(s, p) && ProcOk(s, i) && AllProcs(s) && AllTicks(s);
    AllocSetPidPcs(s, c, p, i);
    AllocSetPidRest(s, c, p, i);
    hide Inv, AllProcs, AllTicks, AllPcs, AllChildren, TargetsOk, PidsOk, PcOk;
    ProcessCpus(s, s', c, p, {}, {});
    TwoSlots(s, s', p, i);
    Together(s, s');
  }

  lemma AllocSetPidPcs(s: Sys, c: nat, p: nat, i: nat)
    requires Inv(s) && Executes(s, c, p) && s.procs[p].pc == AllocPid(i) && AllocSetPid(s, c, p, i).Some?
    ensures AllPcs(AllocSetPid(s, c, p, i).value)
  {
    var s' := AllocSetPid(s, c, p, i).value;
    assert PcOk(s, p) && ProcOk(s, p) && ProcOk(s, i);
    assert s.procs[i].pc == Run && s.procs[i].parent == None && s.procs[p].pid < s.nextpid;
    forall x | 0 <= x < |s'.procs| ensures PcOk(s', x) {
      if x != p && x != i {
        assert PcOk(s, x) && Target(s.procs[x].pc) != Some(i);
        PcOkSlot(s, s', x, i);
      }
    }
  }

  /** As PcOkFrame, but slot i, which x is not concerned with, may come into use or start to run. */
  lemma PcOkSlot(s: Sys, s': Sys, x: nat, i: nat)
    requires x < |s.procs| == |s'.procs| && i < |s.procs| && x != i && s'.init == s.init && s'.ticks == s.ticks
    requires PcOk(s, x) && s'.procs[x].pc == s.procs[x].pc && Target(s.procs[x].pc) != Some(i)
    requires forall j :: 0 <= j < |s.procs| && j != i ==>
               s'.procs[j].parent == s.procs[j].parent && s'.procs[j].pid == s.procs[j].pid
               && SameShape(s.procs[j], s'.procs[j])
    requires s'.procs[i].parent == s.procs[i].parent && s.procs[i].st != ZOMBIE && s'.procs[i].st != ZOMBIE
             && !Waiting(s'.procs[i])
    ensures PcOk(s', x)
  {
  }

  lemma AllocSetPidRest(s: Sys, c: nat, p: nat, i: nat)
    requires Inv(s) && Executes(s, c, p) && s.procs[p].pc == AllocPid(i) && AllocSetPid(s, c, p, i).Some?
    ensures var s' := AllocSetPid(s, c, p, i).value; AllChildren(s') && TargetsOk(s') && PidsOk(s')
  {
    var s' := AllocSetPid(s, c, p, i).value;
    assert PcOk(s, p) && ProcOk(s, p);
    if InitPending(s) { WaitHolder(s); }
    hide LocksOk, AllCpus, AllTicks, AllPcs;
    forall x | 0 <= x < |s'.procs|
      ensures s.procs[x].st != UNUSED ==> s.procs[x].pid < s.nextpid
    {
      assert ProcOk(s, x);
    }
    assert ProcOk(s, i) && i < |s.procs|;
    hide AllProcs, ProcOk, PcOk;
    forall x | 0 <= x < |s'.procs| ensures ChildOk(s', x) { assert ChildOk(s, x); }
  }

  lemma LinkKeeps(s: Sys, c: nat, p: nat, i: nat)
    requires Inv(s) && Executes(s, c, p) && s.procs[p].pc == ForkLink(i) && Link(s, c, p, i).Some?
    ensures Inv(Link(s, c, p, i).value)
  {
    var s' := Link(s, c, p, i).value;
    assert PcOk(s, p) && ProcOk(s, p) && ProcOk(s, i) && TickOk(s, i) && AllProcs(s) && AllTicks(s);
    LinkPcs(s, c, p, i);
    LinkRest(s, c, p, i);
    hide Inv, AllProcs, AllTicks, AllPcs, AllChildren, TargetsOk, PidsOk, PcOk;
    ProcessCpus(s, s', c, p, {}, {});
    TwoSlots(s, s', p, i);
    Together(s, s');
  }

  lemma LinkPcs(s: Sys, c: nat, p: nat, i: nat)
    requires Inv(s) && Executes(s, c, p) && s.procs[p].pc == ForkLink(i) && Link(s, c, p, i).Some?
    ensures AllPcs(Link(s, c, p, i).value)
  {
    var s' := Link(s, c, p, i).value;
    NobodyAt(s, WaitLock);
    assert PcOk(s, p) && ProcOk(s, p) && ProcOk(s, i);
    hide LocksOk, AllCpus, AllTicks, AllProcs;
    forall x | 0 <= x < |s'.procs| ensures PcOk(s', x) {
      assert PcOk(s, x) && !PcHolds(s.procs[x].pc, WaitLock);
      hide Inv;
    }
  }

  lemma LinkRest(s: Sys, c: nat, p: nat, i: nat)
    requires Inv(s) && Executes(s, c, p) && s.procs[p].pc == ForkLink(i) && Link(s, c, p, i).Some?
    ensures var s' := Link(s, c, p, i).value; AllChildren(s') && TargetsOk(s') && PidsOk(s')
  {
    var s' := Link(s, c, p, i).value;
    NobodyAt(s, WaitLock);
    assert PcOk(s, p) && ProcOk(s, p) && ProcOk(s, i);
    hide LocksOk, AllCpus, AllTicks, AllProcs, AllPcs, PcOk;
    forall x | 0 <= x < |s'.procs| ensures ChildOk(s', x) { assert ChildOk(s, x); }
  }

  lemma ReparentKeeps(s: Sys, c: nat, p: nat, pp: nat)
    requires Inv(s) && Executes(s, c, p) && s.procs[p].pc == ExitScan(pp) && Reparent(s, c, p, pp).Some?
    ensures Inv(Reparent(s, c, p, pp).value)
  {
    var s' := Reparent(s, c, p, pp).value;
    NotPending(s, c, p);
    assert PcOk(s, p);
    if pp < |s.procs| && s.procs[pp].parent == Some(p) {
      AdoptKeeps(s, c, p, pp);
    } else {
      hide Inv;
      MoveOnKeeps(s, c, p, s'.procs[p].pc);
    }
  }

  /** reparent gives child pp to initproc and is about to wake it. */
  lemma AdoptKeeps(s: Sys, c: nat, p: nat, pp: nat)
    requires Inv(s) && Executes(s, c, p) && s.procs[p].pc == ExitScan(pp) && pp < |s.procs|
             && s.procs[pp].parent == Some(p)
    ensures Inv(Reparent(s, c, p, pp).value)
  {
    var s' := Reparent(s, c, p, pp).value;
    assert ProcOk(s, p) && ProcOk(s, pp) && TickOk(s, pp) && ChildOk(s, pp) && AllProcs(s) && AllTicks(s);
    AdoptPcs(s, c, p, pp);
    AdoptRest(s, c, p, pp);
    hide Inv, AllProcs, AllTicks, AllPcs, AllChildren, TargetsOk, PidsOk, PcOk;
    ProcessCpus(s, s', c, p, {}, {});
    TwoSlots(s, s', p, pp);
    Together(s, s');
  }

  lemma AdoptPcs(s: Sys, c: nat, p: nat, pp: nat)
    requires Inv(s) && Executes(s, c, p) && s.procs[p].pc == ExitScan(pp) && pp < |s.procs|
             && s.procs[pp].parent == Some(p)
    ensures AllPcs(Reparent(s, c, p, pp).value)
  {
    var s' := Reparent(s, c, p, pp).value;
    OnlyWaiter(s, c, p);
    assert PcOk(s, p) && ChildOk(s, pp) && ProcOk(s, p);
    forall x | 0 <= x < |s'.procs| ensures PcOk(s', x) {
      assert PcOk(s, x) && (x != p ==> !PcHolds(s.procs[x].pc, WaitLock));
      hide Inv, ProcOk;
    }
  }

  lemma AdoptRest(s: Sys, c: nat, p: nat, pp: nat)
    requires Inv(s) && Executes(s, c, p) && s.procs[p].pc == ExitScan(pp) && pp < |s.procs|
             && s.procs[pp].parent == Some(p)
    ensures var s' := Reparent(s, c, p, pp).value; AllChildren(s') && TargetsOk(s') && PidsOk(s')
  {
    var s' := Reparent(s, c, p, pp).value;
    OnlyWaiter(s, c, p);
    Holder(s, p, WaitLock);
    assert PcOk(s, p) && ProcOk(s, p) && ProcOk(s, s.init) && ProcOk(s, pp) && ChildOk(s, pp);
    OlderThan(s, pp);
    assert s.init < |s.procs| && s.init != pp && s.procs[p].st == RUNNING && Alive(s.procs[s.init]);
    hide LocksOk, AllCpus, AllTicks, AllProcs, AllPcs, ProcOk, PcOk;
    AdoptPids(s, s', p, pp);
    hide TargetsOk, PidsOk;
    forall x | 0 <= x < |s'.procs| ensures ChildOk(s', x) { assert ChildOk(s, x); }
  }

  lemma AdoptPids(s: Sys, s': Sys, p: nat, pp: nat)
    requires p < |s.procs| && pp < |s.procs| && p != pp && TargetsOk(s) && PidsOk(s)
    requires s'.procs ==
               s.procs[pp := s.procs[pp].(parent := Some(s.init))][p := s.procs[p].(pc := ExitWakeInit(pp, 0))]
    ensures TargetsOk(s') && PidsOk(s')
  {
  }

  /** initproc is older than every other process. */
  lemma OlderThan(s: Sys, x: nat)
    requires Inv(s) && x < |s.procs| && x != s.init && s.procs[x].st != UNUSED
    ensures s.procs[s.init].pid < s.procs[x].pid
  {
    assert ProcOk(s, s.init) && ProcOk(s, x);
    assert if x < s.init then s.procs[x].pid != s.procs[s.init].pid else s.procs[s.init].pid != s.procs[x].pid;
  }

  lemma ZombieKeeps(s: Sys, c: nat, p: nat)
    requires Inv(s) && Executes(s, c, p) && s.procs[p].pc == ExitZombie && Zombie(s, c, p).Some?
    ensures Inv(Zombie(s, c, p).value)
  {
    var s' := Zombie(s, c, p).value;
    assert PcOk(s, p) && ProcOk(s, p) && AllProcs(s) && AllTicks(s);
    ZombieRest(s, c, p);
    hide Inv, AllProcs, AllTicks, AllPcs, AllChildren, TargetsOk, PidsOk, PcOk;
    ProcessCpus(s, s', c, p, {ProcLock(p)}, {WaitLock});
    TwoSlots(s, s', p, p);
    Together(s, s');
  }

  lemma ZombieRest(s: Sys, c: nat, p: nat)
    requires Inv(s) && Executes(s, c, p) && s.procs[p].pc == ExitZombie && Zombie(s, c, p).Some?
    ensures var s' := Zombie(s, c, p).value; AllPcs(s') && AllChildren(s') && TargetsOk(s') && PidsOk(s')
  {
    var s' := Zombie(s, c, p).value;
    OnlyWaiter(s, c, p);
    assert PcOk(s, p) && ProcOk(s, p);
    hide LocksOk, AllCpus, AllTicks, AllProcs;
    forall x | 0 <= x < |s'.procs|
      ensures PcOk(s', x)
    {
      assert PcOk(s, x) && (x != p ==> !PcHolds(s.procs[x].pc, WaitLock));
    }
    forall x | 0 <= x < |s'.procs| ensures ChildOk(s', x) { assert ChildOk(s, x); }
  }

  lemma FallAsleepKeeps(s: Sys, c: nat, p: nat, why: Why)
    requires Inv(s) && Executes(s, c, p) && s.procs[p].pc == Sleep(why) && FallAsleep(s, c, p, why).Some?
    ensures Inv(FallAsleep(s, c, p, why).value)
  {
    var s' := FallAsleep(s, c, p, why).value;
    assert PcOk(s, p) && ProcOk(s, p) && AllProcs(s) && AllTicks(s);
    FallAsleepPcs(s, c, p, why);
    FallAsleepRest(s, c, p, why);
    hide Inv, AllProcs, AllTicks, AllPcs, AllChildren, TargetsOk, PidsOk;
    ProcessCpus(s, s', c, p, {ProcLock(p)}, {LockOf(why)});
    TwoSlots(s, s', p, p);
    Together(s, s');
  }

  lemma FallAsleepPcs(s: Sys, c: nat, p: nat, why: Why)
    requires Inv(s) && Executes(s, c, p) && s.procs[p].pc == Sleep(why) && FallAsleep(s, c, p, why).Some?
    ensures AllPcs(FallAsleep(s, c, p, why).value)
  {
    var s' := FallAsleep(s, c, p, why).value;
    if why == InWait { OnlyWaiter(s, c, p); }
    assert ProcOk(s, p);
    forall x | 0 <= x < |s'.procs| ensures PcOk(s', x) {
      assert PcOk(s, x);
      if why.InSleep? {
        hide Inv, ProcOk, PcOk;
        if x != p { PcOkFrame(s, s', x); }
      } else {
        assert x != p ==> !PcHolds(s.procs[x].pc, WaitLock);
        hide Inv, ProcOk;
      }
    }
  }

  /** A process goes to sleep in wait only after it saw that no child is a zombie. */
  lemma FallAsleepRest(s: Sys, c: nat, p: nat, why: Why)
    requires Inv(s) && Executes(s, c, p) && s.procs[p].pc == Sleep(why) && FallAsleep(s, c, p, why).Some?
    ensures var s' := FallAsleep(s, c, p, why).value; AllChildren(s') && TargetsOk(s') && PidsOk(s')
  {
    var s' := FallAsleep(s, c, p, why).value;
    assert PcOk(s, p) && ProcOk(s, p);
    if why == InWait { OnlyWaiter(s, c, p); }
    if InitPending(s) { WaitHolder(s); }
    hide LocksOk, AllCpus, AllTicks, AllProcs, AllPcs;
    forall x | 0 <= x < |s'.procs| ensures ChildOk(s', x) { assert ChildOk(s, x); }
  }

  // ---- all of them

  lemma NextKeeps(s: Sys, c: nat, p: nat, ok: bool)
    requires Inv(s) && Executes(s, c, p) && Next(s, c, p, ok).Some?
    ensures Inv(Next(s, c, p, ok).value)
  {
    hide Inv, AllocLook, AllocSetPid, AllocPages, Link, Ready, Take, Reparent, WakeNext, Zombie, WaitLook, WaitReap,
         FallAsleep, TickTest, KillLook;
    match s.procs[p].pc
    case AllocScan(i) => AllocLookKeeps(s, c, p, i);
    case AllocPid(i) => AllocSetPidKeeps(s, c, p, i);
    case AllocMem(i) => AllocPagesKeeps(s, c, p, i, ok);
    case ForkLink(i) => LinkKeeps(s, c, p, i);
    case ForkReady(i) => ReadyKeeps(s, c, p, i);
    case ExitStart => TakeKeeps(s, c, p, WaitLock, ExitScan(0));
    case ExitScan(pp) => ReparentKeeps(s, c, p, pp);
    case ExitWakeInit(pp, q) => WakeInitKeeps(s, c, p, pp, q);
    case ExitWakeParent(par, q) => WakeParentKeeps(s, c, p, par, q);
    case ExitZombie => ZombieKeeps(s, c, p);
    case WaitStart => TakeKeeps(s, c, p, WaitLock, WaitScan(0, false));
    case WaitScan(i, have) => WaitLookKeeps(s, c, p, i, have, ok);
    case WaitFree(i) => WaitReapKeeps(s, c, p, i);
    case Sleep(why) => FallAsleepKeeps(s, c, p, why);
    case Reacq(InWait) => TakeKeeps(s, c, p, WaitLock, WaitScan(0, false));
    case Reacq(InSleep(t0, n)) => TakeKeeps(s, c, p, TicksLock, TickLoop(t0, n));
    case TickStart(n) => TakeKeeps(s, c, p, TicksLock, TickLoop(s.ticks, n));
    case TickLoop(t0, n) => TickTestKeeps(s, c, p, t0, n);
    case KillScan(pid, i) => KillLookKeeps(s, c, p, pid, i);
    case _ =>
  }

  lemma DoKeeps(s: Sys, c: nat, a: Act)
    requires Inv(s) && Do(s, c, a).Some?
    ensures Inv(Do(s, c, a).value)
  {
    hide Inv, SchedSkip, SchedPick, Resume, Yield, Swtch, SchedBack, TickBegin, TickTake, TickNext, Call, Next;
    match a
    case DoSchedSkip => SchedSkipKeeps(s, c);
    case DoSchedPick => SchedPickKeeps(s, c);
    case DoResume => ResumeKeeps(s, c);
    case DoYield => YieldKeeps(s, c);
    case DoSwtch => SwtchKeeps(s, c);
    case DoSchedBack => SchedBackKeeps(s, c);
    case DoTickBegin => TickBeginKeeps(s, c);
    case DoTickTake => TickTakeKeeps(s, c);
    case DoTickNext => TickNextKeeps(s, c);
    case DoCall(p, entry) => CallKeeps(s, c, p, entry);
    case DoNext(p, ok) => NextKeeps(s, c, p, ok);
  }

  lemma StepKeeps(s: Sys, s': Sys)
    requires Inv(s) && Step(s, s')
    ensures Inv(s')
  {
    hide Inv, Do;
    var c: nat, a :| Do(s, c, a) == Some(s');
    DoKeeps(s, c, a);
  }

  /** The invariant holds at the end of every run, whatever the interleaving. */
  lemma {:induction false} RunInv(run: seq<Sys>)
    requires IsRun(run)
    ensures Inv(run[|run| - 1])
  {
    hide Inv, Step, Initial;
    var n := |run| - 1;
    if n == 0 {
      InitialInv(run[0]);
    } else {
      RunInv(run[..n]);
      assert Step(run[n - 1], run[n]);
      StepKeeps(run[n - 1], run[n]);
    }
  }
}
