/** What the process table promises in every state that any run of Sched reaches. */
module SchedSafety {
  import opened Types
  import opened Sched
  import opened SchedInv
  import opened SchedSteps

  ghost predicate Reachable(s: Sys) {
    exists run :: run != [] && IsRun(run) && run[|run| - 1] == s
  }

  lemma ReachableInv(s: Sys)
    requires Reachable(s)
    ensures Inv(s)
  {
    hide Inv, IsRun;
    var run :| run != [] && IsRun(run) && run[|run| - 1] == s;
    RunInv(run);
  }

  // ---- wakeups

  /** No exit notification is lost: while wait_lock is free, nobody sleeps in wait who
      has a zombie child, its own or one that an exit handed to initproc. */
  lemma NoLostExit(s: Sys, p: nat, j: nat)
    requires Reachable(s) && Sched.Free(s, WaitLock)
    requires p < |s.procs| && j < |s.procs| && s.procs[j].parent == Some(p) && s.procs[j].st == ZOMBIE
    ensures !Waiting(s.procs[p])
  {
    ReachableInv(s);
    assert ChildOk(s, j);
  }

  /** No tick is lost: while tickslock is free, whoever sleeps in sys_sleep still has
      time to sleep, in 32-bit arithmetic. */
  lemma NoLostTick(s: Sys, p: nat, t0: uint32, n: uint32)
    requires Reachable(s) && Sched.Free(s, TicksLock)
    requires p < |s.procs| && s.procs[p].st == SLEEPING && s.procs[p].pc == Reacq(InSleep(t0, n))
    ensures Elapsed(s.ticks, t0) < n
  {
    ReachableInv(s);
    assert TickOk(s, p);
    if |s.cpus| > 0 && s.cpus[0].tick.TickScan? {
      var here := Holding(s, 0, TicksLock);
      assert false;
    }
  }

  /** The process that wakeup(&ticks) skips is running. */
  lemma SkippedRuns(s: Sys, q: nat)
    requires Reachable(s) && 0 < |s.cpus| && s.cpus[0].tick == TickScan(q) && q < |s.procs| && s.cpus[0].proc == Some(q)
    ensures s.procs[q].st == RUNNING
  {
    ReachableInv(s);
    assert CpuOk(s, 0) && ProcOk(s, q);
  }

  // ---- processes and CPUs

  /** A process is the current one of at most one CPU, and a running one of exactly one. */
  lemma OneCpu(s: Sys, p: nat)
    requires Reachable(s) && p < |s.procs|
    ensures s.procs[p].st == RUNNING ==> exists c :: 0 <= c < |s.cpus| && s.cpus[c].proc == Some(p)
    ensures forall c, d ::
              0 <= c < |s.cpus| && 0 <= d < |s.cpus| && s.cpus[c].proc == Some(p) && s.cpus[d].proc == Some(p) ==>
                c == d
  {
    ReachableInv(s);
    assert ProcOk(s, p);
    if s.procs[p].st == RUNNING { assert CpuOk(s, s.procs[p].on.value); }
    forall c | 0 <= c < |s.cpus| && s.cpus[c].proc == Some(p) ensures s.procs[p].on == Some(c) { assert CpuOk(s, c); }
  }

  /** Every step that enters sched passes its tests: p->lock is held and is the only
      lock that the CPU holds (so that interrupts are off), and p is not RUNNING. */
  lemma SchedTests(s: Sys, c: nat, a: Act, s': Sys, p: nat)
    requires Reachable(s) && Do(s, c, a) == Some(s') && p < |s.procs| == |s'.procs|
    requires !s.procs[p].inSched && s'.procs[p].inSched
    ensures s'.procs[p].st != RUNNING && c < |s'.cpus| && s'.cpus[c].ctx == On(p)
    ensures forall l :: l in s'.held && s'.held[l] == c <==> l == ProcLock(p)
  {
    ReachableInv(s);
    DoKeeps(s, c, a);
    assert ProcOk(s, p) && ProcOk(s', p);
    Enters(s, c, a, s', p);
    assert CpuOk(s', c);
    forall l ensures l in s'.held && s'.held[l] == c <==> l == ProcLock(p) {
      var here := Holding(s', c, l);
    }
  }

  /** Only the process's own CPU takes it into sched, in yield, exit or sleep. */
  lemma Enters(s: Sys, c: nat, a: Act, s': Sys, p: nat)
    requires Inv(s) && Do(s, c, a) == Some(s') && p < |s.procs| == |s'.procs|
    requires !s.procs[p].inSched && s'.procs[p].inSched
    ensures c < |s.cpus| && s'.cpus == s.cpus && s.cpus[c].ctx == On(p) && s'.procs[p].st != RUNNING
  {
    assert ProcOk(s, p);
    if a.DoNext? {
      Building(s, a.p);
      hide Inv, Next, ProcOk;
      EntersNext(s, c, a.p, a.ok, s', p);
    } else {
      hide Inv;
    }
  }

  lemma Building(s: Sys, q: nat)
    requires Inv(s) && q < |s.procs|
    ensures s.procs[q].pc.AllocMem? || s.procs[q].pc.WaitFree? ==>
              s.procs[q].pc.i < |s.procs| && s.procs[s.procs[q].pc.i].inSched
  {
    assert PcOk(s, q);
    if s.procs[q].pc.AllocMem? || s.procs[q].pc.WaitFree? { assert ProcOk(s, s.procs[q].pc.i); }
  }

  lemma EntersNext(s: Sys, c: nat, q: nat, ok: bool, s': Sys, p: nat)
    requires Executes(s, c, q) && Next(s, c, q, ok) == Some(s') && p < |s.procs| == |s'.procs|
    requires !s.procs[p].inSched && s'.procs[p].inSched
    requires s.procs[q].pc.AllocMem? || s.procs[q].pc.WaitFree? ==>
               s.procs[q].pc.i < |s.procs| && s.procs[s.procs[q].pc.i].inSched
    ensures p == q && s'.cpus == s.cpus && s'.procs[p].st != RUNNING
  {
    var pc := s.procs[q].pc;
    if pc.AllocMem? || pc.WaitFree? {
      FreedOutside(s, c, q, ok, s', p);
    } else if pc != ExitZombie && !pc.Sleep? {
      StaysOutside(s, c, q, ok, s', p);
    }
  }

  /** freeproc does not count: the slot was out of the schedulers' hands already. */
  lemma FreedOutside(s: Sys, c: nat, q: nat, ok: bool, s': Sys, p: nat)
    requires Executes(s, c, q) && Next(s, c, q, ok) == Some(s') && p < |s.procs| == |s'.procs| && !s.procs[p].inSched
    requires s.procs[q].pc.AllocMem? || s.procs[q].pc.WaitFree?
    requires s.procs[q].pc.i < |s.procs| && s.procs[s.procs[q].pc.i].inSched
    ensures !s'.procs[p].inSched
  {
  }

  /** No other step of process code takes anybody into sched. */
  lemma StaysOutside(s: Sys, c: nat, q: nat, ok: bool, s': Sys, p: nat)
    requires Executes(s, c, q) && Next(s, c, q, ok) == Some(s') && p < |s.procs| == |s'.procs| && !s.procs[p].inSched
    requires !(s.procs[q].pc.AllocMem? || s.procs[q].pc.WaitFree? || s.procs[q].pc == ExitZombie
             || s.procs[q].pc.Sleep?)
    ensures !s'.procs[p].inSched
  {
  }

  /** Through both swtches the lock of the process stays held by the same CPU; the
      scheduler releases what the process took and the process what the scheduler took. */
  lemma HandOff(s: Sys, c: nat, p: nat)
    requires Reachable(s) && c < |s.cpus| && p < |s.procs|
    requires s.cpus[c].ctx == Back(p) || (s.cpus[c].ctx == On(p) && s.procs[p].inSched)
    ensures ProcLock(p) in s.held && s.held[ProcLock(p)] == c
    ensures forall l :: l in s.held && s.held[l] == c ==> l == ProcLock(p)
  {
    ReachableInv(s);
    assert CpuOk(s, c) && Holding(s, c, ProcLock(p));
    forall l | l in s.held && s.held[l] == c ensures l == ProcLock(p) {
      assert Holding(s, c, l);
    }
  }

  /** wait frees only a child that no CPU is executing or leaving, and allocproc fills only such a slot. */
  lemma NobodyInside(s: Sys, p: nat, i: nat)
    requires Reachable(s) && p < |s.procs| && i < |s.procs|
    requires s.procs[p].pc == WaitFree(i) || s.procs[p].pc == AllocPid(i) || s.procs[p].pc == AllocMem(i)
    ensures forall c :: 0 <= c < |s.cpus| ==>
              s.cpus[c].ctx != On(i) && s.cpus[c].ctx != Back(i) && s.cpus[c].proc != Some(i)
    ensures s.procs[p].pc == WaitFree(i) ==> s.procs[i].st == ZOMBIE && s.procs[i].parent == Some(p)
  {
    ReachableInv(s);
    assert PcOk(s, p) && ProcOk(s, i);
    Holder(s, p, ProcLock(i));
    if s.procs[p].pc.WaitFree? { OffCpu(s, s.held[ProcLock(i)], p, i); }
    forall c | 0 <= c < |s.cpus|
      ensures s.cpus[c].ctx != On(i) && s.cpus[c].ctx != Back(i) && s.cpus[c].proc != Some(i)
    {
      assert CpuOk(s, c);
    }
  }

  // ---- the family tree

  /** Following parent from p leads, over living processes only, to initproc. */
  ghost predicate ReachesInit(s: Sys, p: nat)
    requires p < |s.procs|
    decreases s.procs[p].pid
  {
    if p == s.init then true
    else if s.procs[p].parent.None? then false
    else
      var x := s.procs[p].parent.value;
      x < |s.procs| && s.procs[x].pid < s.procs[p].pid && Alive(s.procs[x]) && ReachesInit(s, x)
  }

  /** Every process that fork has finished, zombies included, descends from initproc:
      in particular every zombie has a living parent that can reap it. */
  lemma Ancestors(s: Sys, p: nat)
    requires Reachable(s) && p < |s.procs| && s.procs[p].st != UNUSED && s.procs[p].st != USED
    ensures ReachesInit(s, p)
  {
    ReachableInv(s);
    AncestorsInv(s, p);
  }

  lemma {:induction false} AncestorsInv(s: Sys, p: nat)
    requires Inv(s) && p < |s.procs| && s.procs[p].st != UNUSED && s.procs[p].st != USED
    ensures ReachesInit(s, p)
    decreases s.procs[p].pid
  {
    assert ProcOk(s, p) && ChildOk(s, p);
    if p != s.init { AncestorsInv(s, s.procs[p].parent.value); }
  }

  lemma DistinctPids(s: Sys, p: nat, q: nat)
    requires Reachable(s) && p < |s.procs| && q < |s.procs| && p != q && s.procs[p].st != UNUSED
             && s.procs[q].st != UNUSED
    ensures s.procs[p].pid != s.procs[q].pid && 0 < s.procs[p].pid < s.nextpid
  {
    ReachableInv(s);
    assert ProcOk(s, p);
    assert if p < q then s.procs[p].pid != s.procs[q].pid else s.procs[q].pid != s.procs[p].pid;
  }

  // ---- lock order and deadlock

  /** The lock that CPU c acquires next: its program cannot go on without it. */
  function Wants(s: Sys, c: nat): Option<Lock>
    requires c < |s.cpus|
  {
    var k := s.cpus[c];
    match k.tick
    case TickWait => Some(TicksLock)
    case TickScan(q) => if q >= |s.procs| || k.proc == Some(q) then None else Some(ProcLock(q))
    case NoTick =>
      match k.ctx
      case Idle(i) => if i < |s.procs| then Some(ProcLock(i)) else None
      case Back(_) => None
      case On(p) => if p >= |s.procs| || s.procs[p].inSched then None else PcWants(s, p)
  }

  function PcWants(s: Sys, p: nat): Option<Lock>
    requires p < |s.procs|
  {
    match s.procs[p].pc
    case AllocScan(i) => if i < |s.procs| then Some(ProcLock(i)) else None
    case AllocPid(_) => Some(PidLock)
    case AllocMem(_) => Some(KmemLock)
    case ForkLink(_) => Some(WaitLock)
    case ForkReady(i) => Some(ProcLock(i))
    case ExitStart => Some(WaitLock)
    case ExitWakeInit(_, q) => if q < |s.procs| && q != p then Some(ProcLock(q)) else None
    case ExitWakeParent(_, q) => if q < |s.procs| && q != p then Some(ProcLock(q)) else None
    case ExitZombie => Some(ProcLock(p))
    case WaitStart => Some(WaitLock)
    case WaitScan(i, _) => if i < |s.procs| && s.procs[i].parent == Some(p) then Some(ProcLock(i)) else None
    case WaitFree(_) => Some(KmemLock)
    case Sleep(_) => Some(ProcLock(p))
    case Reacq(why) => Some(LockOf(why))
    case TickStart(_) => Some(TicksLock)
    case KillScan(_, i) => if i < |s.procs| then Some(ProcLock(i)) else None
    case _ => None
  }

  /** wait_lock and tickslock come before process locks, those before pid_lock and kmem.lock. */
  function Rank(l: Lock): nat {
    match l
    case WaitLock => 0
    case TicksLock => 0
    case ProcLock(_) => 1
    case PidLock => 2
    case KmemLock => 2
  }

  /** What a CPU holds ranks below what it acquires next. */
  lemma LockOrder(s: Sys, c: nat, k: Lock)
    requires Reachable(s) && c < |s.cpus| && k in s.held && s.held[k] == c && Wants(s, c).Some?
    ensures Rank(k) < Rank(Wants(s, c).value)
  {
    ReachableInv(s);
    assert Holding(s, c, k) && CpuOk(s, c);
    hide Inv, Reachable;
  }

  /** A CPU holds one process lock at most. */
  lemma OneProcLock(s: Sys, i: nat, j: nat)
    requires Reachable(s) && ProcLock(i) in s.held && ProcLock(j) in s.held
             && s.held[ProcLock(i)] == s.held[ProcLock(j)]
    ensures i == j
  {
    ReachableInv(s);
    var c := s.held[ProcLock(i)];
    assert Holding(s, c, ProcLock(i)) && Holding(s, c, ProcLock(j)) && CpuOk(s, c);
    hide Inv, Reachable;
  }

  /** Wants is right: the program of c is stuck while the lock it wants is held... */
  lemma Blocked(s: Sys, c: nat)
    requires Inv(s) && c < |s.cpus| && Wants(s, c).Some? && !Sched.Free(s, Wants(s, c).value)
    ensures SchedSkip(s, c) == None && SchedPick(s, c) == None && TickTake(s, c) == None && TickNext(s, c) == None
    ensures forall p, ok :: 0 <= p && Executes(s, c, p) ==> Next(s, c, p, ok) == None
  {
    assert CpuOk(s, c);
    forall p: nat, ok | Executes(s, c, p) ensures Next(s, c, p, ok) == None {
      hide Inv;
    }
  }

  /** CPU c can make the next step of its program: not only take an interrupt. */
  ghost predicate CanStep(s: Sys, c: nat) { exists a :: a != DoYield && a != DoTickBegin && Do(s, c, a).Some? }

  /** ... and can make a step when it is free, or when it wants none. */
  lemma Unblocked(s: Sys, c: nat)
    requires Inv(s) && c < |s.cpus| && (Wants(s, c).Some? ==> Sched.Free(s, Wants(s, c).value))
    ensures CanStep(s, c)
  {
    assert CpuOk(s, c);
    var k := s.cpus[c];
    if k.tick == TickWait {
      assert Do(s, c, DoTickTake).Some?;
    } else if k.tick.TickScan? {
      assert Do(s, c, DoTickNext).Some?;
    } else {
      match k.ctx
      case Idle(i) => assert Do(s, c, DoSchedSkip).Some? || Do(s, c, DoSchedPick).Some?;
      case Back(p) => assert Do(s, c, DoSchedBack).Some?;
      case On(p) =>
        if s.procs[p].inSched {
          assert Do(s, c, DoSwtch).Some? || Do(s, c, DoResume).Some?;
        } else {
          UnblockedProcess(s, c, p);
        }
    }
  }

  lemma UnblockedProcess(s: Sys, c: nat, p: nat)
    requires Inv(s) && Executes(s, c, p) && (PcWants(s, p).Some? ==> Sched.Free(s, PcWants(s, p).value))
    ensures CanStep(s, c)
  {
    assert PcOk(s, p) && ProcOk(s, p);
    if s.procs[p].pc == Run {
      assert Do(s, c, DoCall(p, AllocScan(0))).Some?;
    } else {
      assert s.procs[p].pc.AllocPid? || s.procs[p].pc.AllocMem? ==> s.procs[p].pc.i < |s.procs|;
      hide Inv;
      assert Next(s, c, p, true).Some?;
      assert Do(s, c, DoNext(p, true)).Some?;
    }
  }

  /** CPU c spins on a lock that CPU d holds. */
  ghost predicate WaitsFor(s: Sys, c: nat, d: nat)
    requires c < |s.cpus|
  {
    Wants(s, c).Some? && !Sched.Free(s, Wants(s, c).value) && s.held[Wants(s, c).value] == d
  }

  function Height(s: Sys, c: nat): nat
    requires c < |s.cpus|
  {
    if Wants(s, c).None? then 3 else Rank(Wants(s, c).value)
  }

  /** A chain of CPUs, each waiting for the next. */
  ghost predicate WaitChain(s: Sys, path: seq<nat>) {
    && (forall i :: 0 <= i < |path| ==> path[i] < |s.cpus|)
    && (forall i :: 0 <= i < |path| - 1 ==> WaitsFor(s, path[i], path[i + 1]))
  }

  /** Along a chain the locks that are waited for climb in rank: no chain is longer
      than four CPUs, and none comes back to where it began. */
  lemma {:induction false} NoCycle(s: Sys, path: seq<nat>)
    requires Reachable(s) && WaitChain(s, path) && |path| > 1
    ensures Height(s, path[0]) + |path| - 1 <= Height(s, path[|path| - 1])
    ensures path[0] != path[|path| - 1] && |path| <= 4
  {
    var n := |path| - 1;
    assert WaitsFor(s, path[n - 1], path[n]);
    if Wants(s, path[n]).Some? { LockOrder(s, path[n], Wants(s, path[n - 1]).value); }
    if n > 1 {
      assert forall i :: 0 <= i < n - 1 ==> WaitsFor(s, path[i], path[i + 1]);
      NoCycle(s, path[..n]);
    }
  }

  /** CPU c needs no lock for its next step, or one that is free. */
  predicate Unhindered(s: Sys, c: nat)
    requires c < |s.cpus|
  {
    Wants(s, c).None? || Sched.Free(s, Wants(s, c).value)
  }

  /** There is no deadlock: in every reachable state some CPU can make a step with the
      lock that its program wants, if it wants one, and every CPU that cannot waits,
      over at most three others, for one that can. */
  lemma NoDeadlock(s: Sys, c: nat) returns (path: seq<nat>)
    requires Reachable(s) && c < |s.cpus|
    ensures 0 < |path| <= 4 && path[0] == c && WaitChain(s, path)
    ensures var last := path[|path| - 1]; Unhindered(s, last) && CanStep(s, last)
  {
    ReachableInv(s);
    path := Follow(s, [c]);
  }

  lemma Follow(s: Sys, path: seq<nat>) returns (full: seq<nat>)
    requires Reachable(s) && Inv(s) && 0 < |path| && WaitChain(s, path)
    ensures 0 < |full| <= 4 && full[0] == path[0] && WaitChain(s, full)
    ensures var last := full[|full| - 1]; Unhindered(s, last) && CanStep(s, last)
    decreases 5 - |path|
  {
    hide Inv, Do;
    var c := path[|path| - 1];
    if |path| > 1 { NoCycle(s, path); }
    if Unhindered(s, c) {
      Unblocked(s, c);
      full := path;
    } else {
      HolderIsCpu(s, Wants(s, c).value);
      var d := s.held[Wants(s, c).value];
      assert WaitsFor(s, c, d);
      full := Follow(s, path + [d]);
    }
  }

  lemma HolderIsCpu(s: Sys, l: Lock)
    requires Inv(s) && l in s.held
    ensures s.held[l] < |s.cpus|
  {
  }
}
