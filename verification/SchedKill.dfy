/** What kill does to its victim, over every continuation of every run: when it prevents a
    sleep, and what becomes of the mark that kill(0) leaves on an unused slot. */
module SchedKill {
  import opened Types
  import opened Sched
  import opened SchedInv
  import opened SchedSafety
  import opened SchedSlots

  /** States that follow one another. */
  ghost predicate Path(later: seq<Sys>) {
    later != [] && forall i :: 0 <= i < |later| - 1 ==> Step(later[i], later[i + 1])
  }

  /** The kill loop of process q, on CPU c, comes to slot i with the pid it looks for: s' is the state after. */
  predicate Kills(s: Sys, c: nat, q: nat, i: nat, s': Sys) {
    && Executes(s, c, q) && i < |s.procs|
    && s.procs[q].pc.KillScan? && s.procs[q].pc.i == i && s.procs[q].pc.pid == s.procs[i].pid
    && Next(s, c, q, true) == Some(s')
  }

  // ---- runs grow step by step

  lemma ReachableStep(s: Sys, s': Sys)
    requires Reachable(s) && Step(s, s')
    ensures Reachable(s')
  {
    hide Step, Initial;
    var run :| run != [] && IsRun(run) && run[|run| - 1] == s;
    var longer := run + [s'];
    assert IsRun(longer) by {
      forall i | 0 <= i < |longer| - 1 ensures Step(longer[i], longer[i + 1]) {
        if i < |run| - 1 { assert Step(run[i], run[i + 1]); }
      }
    }
  }

  lemma Advance(s: Sys, c: nat, a: Act, s': Sys)
    requires Reachable(s) && Do(s, c, a) == Some(s')
    ensures Reachable(s')
  {
    hide Do;
    ReachableStep(s, s');
  }

  lemma {:induction false} PathReachable(later: seq<Sys>, k: nat)
    requires Path(later) && Reachable(later[0]) && k < |later|
    ensures Reachable(later[k]) && |later[k].procs| == |later[0].procs|
  {
    hide Reachable, Step;
    if k > 0 {
      PathReachable(later, k - 1);
      assert Step(later[k - 1], later[k]);
      ReachableStep(later[k - 1], later[k]);
      SameSize(later[k - 1], later[k]);
    }
  }

  lemma SameSize(s: Sys, s': Sys)
    requires Step(s, s')
    ensures |s'.procs| == |s.procs|
  {
    hide Do, Shape;
    var c: nat, a :| Do(s, c, a) == Some(s');
    DoSize(s, c, a, s');
  }

  lemma DoSize(s: Sys, c: nat, a: Act, s': Sys)
    requires Do(s, c, a) == Some(s')
    ensures |s'.procs| == |s.procs|
  {
    hide Next;
    if a.DoNext? { NextShape(s, c, a.p, a.ok, s'); }
  }

  // ---- the mark p->killed

  /** What a step may do to slot p once it is marked: the mark stays until the slot is
      freed, and a process that is not at the start of sleep gets neither there nor to
      SLEEPING. */
  ghost predicate Marked(x: Proc, y: Proc) {
    || y == Freed(x)
    || (&& y.killed
        && (x.st != SLEEPING && !x.pc.Sleep? ==> y.st != SLEEPING && !y.pc.Sleep?)
        && (x.pc.Sleep? ==> y.pc.Sleep? || y.st == SLEEPING)
        && (x.st == UNUSED ==> y.st == UNUSED || y.st == USED)
        && (x.st != UNUSED ==> y.st != UNUSED))
  }

  lemma MarkedOther(s: Sys, c: nat, a: Act, s': Sys, p: nat)
    requires !a.DoNext? && Do(s, c, a) == Some(s') && p < |s.procs| == |s'.procs| && s.procs[p].killed
    requires s.procs[p].st == UNUSED || s.procs[p].st == USED ==> s.procs[p].on == None
    requires forall d :: 0 <= d < |s.cpus| && s.cpus[d].ctx == On(p) ==> s.procs[p].on == Some(d)
    ensures Marked(s.procs[p], s'.procs[p]) && s'.procs[p].killed
  {
  }

  lemma MarkedNext(s: Sys, c: nat, q: nat, ok: bool, s': Sys, p: nat)
    requires Executes(s, c, q) && Next(s, c, q, ok) == Some(s') && p < |s.procs| == |s'.procs| && s.procs[p].killed
    requires s.procs[p].st == UNUSED ==> p != q && s.procs[q].pc != ForkReady(p)
    ensures Marked(s.procs[p], s'.procs[p])
    ensures s'.procs[p] == Freed(s.procs[p]) ==> s.procs[q].pc == AllocMem(p) || s.procs[q].pc == WaitFree(p)
  {
    hide Next, Marked;
    var pc := s.procs[q].pc;
    if pc.AllocScan? || pc.AllocPid? || pc.AllocMem? {
      MarkedAlloc(s, c, q, ok, s', p);
    } else if pc.ForkLink? || pc.ForkReady? {
      MarkedFork(s, c, q, ok, s', p);
    } else if pc.WaitStart? || pc.WaitScan? || pc.WaitFree? || pc.Sleep? || pc.Reacq? {
      MarkedWait(s, c, q, ok, s', p);
    } else if pc.ExitWakeInit? || pc.ExitWakeParent? {
      MarkedWake(s, c, q, ok, s', p);
    } else if pc.KillScan? {
      MarkedKill(s, c, q, ok, s', p);
    } else {
      MarkedRest(s, c, q, ok, s', p);
    }
  }

  lemma MarkedAlloc(s: Sys, c: nat, q: nat, ok: bool, s': Sys, p: nat)
    requires Executes(s, c, q) && Next(s, c, q, ok) == Some(s') && p < |s.procs| == |s'.procs| && s.procs[p].killed
    requires s.procs[p].st == UNUSED ==> p != q
    requires var pc := s.procs[q].pc; pc.AllocScan? || pc.AllocPid? || pc.AllocMem?
    ensures Marked(s.procs[p], s'.procs[p])
    ensures s'.procs[p] == Freed(s.procs[p]) ==> s.procs[q].pc == AllocMem(p)
  {
  }

  lemma MarkedFork(s: Sys, c: nat, q: nat, ok: bool, s': Sys, p: nat)
    requires Executes(s, c, q) && Next(s, c, q, ok) == Some(s') && p < |s.procs| == |s'.procs| && s.procs[p].killed
    requires s.procs[p].st == UNUSED ==> p != q && s.procs[q].pc != ForkReady(p)
    requires s.procs[q].pc.ForkLink? || s.procs[q].pc.ForkReady?
    ensures Marked(s.procs[p], s'.procs[p]) && s'.procs[p].killed
  {
  }

  lemma MarkedWait(s: Sys, c: nat, q: nat, ok: bool, s': Sys, p: nat)
    requires Executes(s, c, q) && Next(s, c, q, ok) == Some(s') && p < |s.procs| == |s'.procs| && s.procs[p].killed
    requires s.procs[p].st == UNUSED ==> p != q
    requires var pc := s.procs[q].pc; pc.WaitStart? || pc.WaitScan? || pc.WaitFree? || pc.Sleep? || pc.Reacq?
    ensures Marked(s.procs[p], s'.procs[p])
    ensures s'.procs[p] == Freed(s.procs[p]) ==> s.procs[q].pc == WaitFree(p)
  {
  }

  lemma MarkedWake(s: Sys, c: nat, q: nat, ok: bool, s': Sys, p: nat)
    requires Executes(s, c, q) && Next(s, c, q, ok) == Some(s') && p < |s.procs| == |s'.procs| && s.procs[p].killed
    requires s.procs[p].st == UNUSED ==> p != q
    requires s.procs[q].pc.ExitWakeInit? || s.procs[q].pc.ExitWakeParent?
    ensures Marked(s.procs[p], s'.procs[p]) && s'.procs[p].killed
  {
  }

  lemma MarkedKill(s: Sys, c: nat, q: nat, ok: bool, s': Sys, p: nat)
    requires Executes(s, c, q) && Next(s, c, q, ok) == Some(s') && p < |s.procs| == |s'.procs| && s.procs[p].killed
    requires (s.procs[p].st == UNUSED ==> p != q) && s.procs[q].pc.KillScan?
    ensures Marked(s.procs[p], s'.procs[p]) && s'.procs[p].killed
  {
  }

  lemma MarkedRest(s: Sys, c: nat, q: nat, ok: bool, s': Sys, p: nat)
    requires Executes(s, c, q) && Next(s, c, q, ok) == Some(s') && p < |s.procs| == |s'.procs| && s.procs[p].killed
    requires s.procs[p].st == UNUSED ==> p != q
    requires Target(s.procs[q].pc) == None && !s.procs[q].pc.AllocScan?
    requires var pc := s.procs[q].pc;
             && !(pc.WaitStart? || pc.WaitScan? || pc.WaitFree? || pc.Sleep? || pc.Reacq?)
             && !(pc.ExitWakeInit? || pc.ExitWakeParent? || pc.KillScan?)
    ensures Marked(s.procs[p], s'.procs[p]) && s'.procs[p].killed
  {
  }

  lemma MarkedStep(s: Sys, s': Sys, p: nat)
    requires Inv(s) && Step(s, s') && p < |s.procs| == |s'.procs| && s.procs[p].killed
    ensures Marked(s.procs[p], s'.procs[p])
    ensures s'.procs[p] == Freed(s.procs[p]) ==> s.procs[p].st == USED || s.procs[p].st == ZOMBIE
  {
    hide Do, Marked;
    var c: nat, a :| Do(s, c, a) == Some(s');
    assert ProcOk(s, p);
    if a.DoNext? {
      NextParts(s, c, a.p, p, a.ok, s');
      hide Inv, ProcOk;
      MarkedNext(s, c, a.p, a.ok, s', p);
    } else {
      forall d | 0 <= d < |s.cpus| && s.cpus[d].ctx == On(p) ensures s.procs[p].on == Some(d) { assert CpuOk(s, d); }
      hide Inv, ProcOk;
      MarkedOther(s, c, a, s', p);
      assert !Freed(s.procs[p]).killed;
    }
  }

  lemma NextParts(s: Sys, c: nat, q: nat, p: nat, ok: bool, s': Sys)
    requires Inv(s) && p < |s.procs| && Do(s, c, DoNext(q, ok)) == Some(s')
    ensures Executes(s, c, q) && Next(s, c, q, ok) == Some(s')
    ensures s.procs[p].st == UNUSED ==> p != q && s.procs[q].pc != ForkReady(p)
    ensures s.procs[q].pc == AllocMem(p) || s.procs[q].pc == WaitFree(p) ==>
              s.procs[p].st == USED || s.procs[p].st == ZOMBIE
  {
    assert ProcOk(s, q) && PcOk(s, q);
    hide Inv, Next;
  }

  // ---- when a kill prevents a sleep

  /** Right after the kill the victim is marked, not asleep, and where it was. */
  lemma RightAfter(s: Sys, c: nat, q: nat, p: nat, s': Sys)
    requires Reachable(s) && Kills(s, c, q, p, s')
    ensures Reachable(s') && p < |s'.procs| == |s.procs|
    ensures s'.procs[p].killed && s'.procs[p].st != SLEEPING
    ensures s'.procs[p].pc.Sleep? <==> s.procs[p].pc.Sleep?
    ensures s.procs[p].st == SLEEPING ==> s'.procs[p].st == RUNNABLE
    ensures s.procs[p].st == UNUSED <==> s.procs[q].pc.pid == 0
    ensures s'.procs[p].st == UNUSED <==> s.procs[p].st == UNUSED
  {
    hide Reachable, Next, Kills, Inv;
    KillMark(s, c, q, p, s');
    ReachableStep(s, s');
    UnusedPid(s, p);
  }

  /** What the kill step does. */
  lemma KillMark(s: Sys, c: nat, q: nat, p: nat, s': Sys)
    requires Kills(s, c, q, p, s')
    ensures Step(s, s') && p < |s'.procs| == |s.procs| && q < |s.procs| && s.procs[q].pc.KillScan?
            && s.procs[q].pc.pid == s.procs[p].pid
    ensures var x := s.procs[p];
            s'.procs[p] ==
              x.(killed := true, st := if x.st == SLEEPING then RUNNABLE else x.st, pc := if p == q then Run else x.pc)
  {
    assert KillLook(s, c, q, s.procs[p].pid, p) == Some(s');
    assert Do(s, c, DoNext(q, true)) == Some(s');
    hide Next;
  }

  lemma UnusedPid(s: Sys, p: nat)
    requires Reachable(s) && p < |s.procs|
    ensures s.procs[p].st == UNUSED <==> s.procs[p].pid == 0
  {
    ReachableInv(s);
    assert ProcOk(s, p);
    hide Inv;
  }

  /** A marked process that has not yet begun to sleep never does: as long as its slot is
      not freed it stays marked, is never SLEEPING and never at the start of sleep. */
  lemma {:induction false} StaysAwake(later: seq<Sys>, p: nat, k: nat)
    requires Path(later) && Reachable(later[0]) && k < |later| && p < |later[0].procs|
    requires var x := later[0].procs[p]; x.killed && x.st != SLEEPING && !x.pc.Sleep?
    requires forall j :: 0 <= j < k && p < |later[j].procs| == |later[j + 1].procs| ==>
               later[j + 1].procs[p] != Freed(later[j].procs[p])
    ensures p < |later[k].procs|
    ensures var y := later[k].procs[p]; y.killed && y.st != SLEEPING && !y.pc.Sleep?
  {
    hide Inv, Step, Reachable;
    PathReachable(later, k);
    if k > 0 {
      StaysAwake(later, p, k - 1);
      PathReachable(later, k - 1);
      ReachableInv(later[k - 1]);
      assert Step(later[k - 1], later[k]);
      hide Path;
      MarkedStep(later[k - 1], later[k], p);
    }
  }

  /** The exact condition.  After a kill of p, up to when p is next outside this code, p
      goes to sleep if and only if it was at the start of sleep when the kill hit it:
      past its test of p->killed and before sleep had taken p->lock. */
  lemma KillPreventsSleep(s: Sys, c: nat, q: nat, p: nat, later: seq<Sys>)
    requires Reachable(s) && Path(later) && Kills(s, c, q, p, later[0])
    requires var n := |later| - 1; p < |later[n].procs| && later[n].procs[p].pc == Run
    requires forall k :: 0 <= k < |later| - 1 && p < |later[k].procs| ==> later[k].procs[p].pc != Run
    ensures (exists k :: 0 <= k < |later| && p < |later[k].procs| && later[k].procs[p].st == SLEEPING) <==>
              s.procs[p].pc.Sleep?
  {
    RightAfter(s, c, q, p, later[0]);
    var n := |later| - 1;
    hide Inv, Step, Reachable, Kills;
    if s.procs[p].pc.Sleep? {
      FallsAsleep(later, p, n);
    } else {
      forall k | 0 <= k < |later| && p < |later[k].procs| ensures later[k].procs[p].st != SLEEPING {
        AwakeUntilRun(later, p, k);
      }
    }
  }

  lemma {:induction false} AwakeUntilRun(later: seq<Sys>, p: nat, k: nat)
    requires Path(later) && Reachable(later[0]) && k < |later| && p < |later[0].procs|
    requires var x := later[0].procs[p]; x.killed && x.st != SLEEPING && !x.pc.Sleep?
    requires forall j :: 0 <= j < |later| - 1 && p < |later[j].procs| ==> later[j].procs[p].pc != Run
    ensures p < |later[k].procs| && later[k].procs[p].st != SLEEPING
    ensures k < |later| - 1 ==> later[k].procs[p].killed && !later[k].procs[p].pc.Sleep?
  {
    hide Inv, Step, Reachable;
    PathReachable(later, k);
    if k > 0 {
      AwakeUntilRun(later, p, k - 1);
      PathReachable(later, k - 1);
      ReachableInv(later[k - 1]);
      assert Step(later[k - 1], later[k]);
      hide Path;
      MarkedStep(later[k - 1], later[k], p);
    }
  }

  lemma {:induction false} FallsAsleep(later: seq<Sys>, p: nat, n: nat)
    requires Path(later) && Reachable(later[0]) && n < |later| && p < |later[0].procs|
    requires later[0].procs[p].killed && later[0].procs[p].pc.Sleep?
    ensures p < |later[n].procs|
    ensures || (later[n].procs[p].killed && later[n].procs[p].pc.Sleep?)
            || exists k :: 0 <= k < |later| && p < |later[k].procs| && later[k].procs[p].st == SLEEPING
  {
    PathReachable(later, n);
    if n > 0 {
      FallsAsleep(later, p, n - 1);
      PathReachable(later, n - 1);
      ReachableInv(later[n - 1]);
      assert Step(later[n - 1], later[n]);
      if later[n - 1].procs[p].killed && later[n - 1].procs[p].pc.Sleep? {
        assert ProcOk(later[n - 1], p);
        hide Inv, Step, Reachable, Path;
        MarkedStep(later[n - 1], later[n], p);
      }
    }
  }

  // ---- the mark of kill(0)

  /** Slot i has not been freed between the first state and state k. */
  ghost predicate SameLife(later: seq<Sys>, i: nat, k: nat) {
    forall j :: 0 <= j < k && k < |later| && i < |later[j].procs| == |later[j + 1].procs| ==>
      later[j].procs[i].st == UNUSED || later[j + 1].procs[i].st != UNUSED
  }

  /** kill hits an unused slot exactly when it looks for pid 0; then the mark is never
      taken off an unused slot, and the next process in it is born with it and keeps it
      all its life, although nobody killed that process. */
  lemma KillZero(s: Sys, c: nat, q: nat, i: nat, later: seq<Sys>, k: nat)
    requires Reachable(s) && Path(later) && Kills(s, c, q, i, later[0]) && k < |later|
    ensures i < |s.procs| && i < |later[0].procs|
    ensures s.procs[i].st == UNUSED <==> s.procs[q].pc.pid == 0
    ensures later[0].procs[i].st == UNUSED <==> s.procs[i].st == UNUSED
    ensures i < |later[k].procs| && (SameLife(later, i, k) ==> later[k].procs[i].killed)
    ensures k > 0 && SameLife(later, i, k) && i < |later[k - 1].procs| && later[k - 1].procs[i].st == UNUSED ==>
              later[k].procs[i].st == UNUSED || later[k].procs[i].st == USED
  {
    hide Inv, Step, Reachable, Kills, Path, SameLife;
    KillsSlot(s, c, q, i, later[0]);
    RightAfter(s, c, q, i, later[0]);
    PathReachable(later, k);
    if SameLife(later, i, k) {
      KeepsMark(later, i, k);
      if k > 0 && i < |later[k - 1].procs| && later[k - 1].procs[i].st == UNUSED { Born(later, i, k); }
    }
  }

  lemma KillsSlot(s: Sys, c: nat, q: nat, i: nat, s': Sys)
    requires Kills(s, c, q, i, s')
    ensures i < |s.procs| && q < |s.procs| && s.procs[q].pc.KillScan?
  {
  }

  /** Only allocproc takes a marked slot into use. */
  lemma Born(later: seq<Sys>, i: nat, k: nat)
    requires Path(later) && Reachable(later[0]) && 0 < k < |later| && i < |later[0].procs| && later[0].procs[i].killed
             && SameLife(later, i, k)
    requires i < |later[k - 1].procs| && later[k - 1].procs[i].st == UNUSED
    ensures i < |later[k].procs| && (later[k].procs[i].st == UNUSED || later[k].procs[i].st == USED)
  {
    hide Inv, Reachable, Step;
    assert SameLife(later, i, k - 1);
    KeepsMark(later, i, k - 1);
    PathReachable(later, k);
    PathReachable(later, k - 1);
    ReachableInv(later[k - 1]);
    assert Step(later[k - 1], later[k]);
    MarkedStep(later[k - 1], later[k], i);
  }

  lemma {:induction false} KeepsMark(later: seq<Sys>, i: nat, k: nat)
    requires Path(later) && Reachable(later[0]) && k < |later| && i < |later[0].procs| && later[0].procs[i].killed
             && SameLife(later, i, k)
    ensures i < |later[k].procs| && later[k].procs[i].killed
  {
    hide Inv, Step, Reachable;
    PathReachable(later, k);
    if k > 0 {
      KeepsMark(later, i, k - 1);
      PathReachable(later, k - 1);
      ReachableInv(later[k - 1]);
      assert Step(later[k - 1], later[k]);
      hide Path;
      MarkedStep(later[k - 1], later[k], i);
    }
  }

  // ---- both things happen

  function Two(p0: Proc, p1: Proc, c0: Cpu, c1: Cpu, held: map<Lock, nat>, nextpid: nat): Sys {
    Sys([p0, p1], [c0, c1], held, 0, nextpid, 0)
  }

  const INIT := Proc(RUNNABLE, None, false, None, 1, Run, true, None)
  const NONE := Proc(UNUSED, None, false, None, 0, Run, true, None)
  const IDLE := Cpu(None, Idle(0), NoTick)
  const INIT0 := INIT.(st := RUNNING, inSched := false, on := Some(0))  // initproc, in user space on CPU 0
  const BUSY0 := Cpu(Some(0), On(0), NoTick)

  lemma Pair<T>(a: T, b: T, x: T)
    ensures [a, b][0 := x] == [x, b] && [a, b][1 := x] == [a, x]
  {
  }

  /** From start-up to initproc in user space. */
  lemma InitRuns()
    ensures Reachable(Two(INIT0, NONE, BUSY0, IDLE, map[], 2))
  {
    hide Reachable;
    InitPicked();
    var p0 := INIT0.(inSched := true);
    var s1 := Two(p0, NONE, BUSY0, IDLE, map[ProcLock(0) := 0], 2);
    var s2 := Two(INIT0, NONE, BUSY0, IDLE, map[], 2);
    Pair(p0, NONE, INIT0);
    assert s1.held - {ProcLock(0)} == map[];
    Advance(s1, 0, DoResume, s2);
  }

  lemma InitPicked()
    ensures Reachable(Two(INIT0.(inSched := true), NONE, BUSY0, IDLE, map[ProcLock(0) := 0], 2))
  {
    hide Reachable, IsRun;
    var s0 := Two(INIT, NONE, IDLE, IDLE, map[], 2);
    var s1 := Two(INIT0.(inSched := true), NONE, BUSY0, IDLE, map[ProcLock(0) := 0], 2);
    Start(s0);
    hide Initial;
    Pair(INIT, NONE, s1.procs[0]);
    Pair(IDLE, IDLE, BUSY0);
    Advance(s0, 0, DoSchedPick, s1);
  }

  lemma Start(s: Sys)
    requires Initial(s)
    ensures Reachable(s)
  {
    assert IsRun([s]);
  }

  /** initproc on CPU 0 at pc, the other slot as x, CPU 1 as k. */
  function At(pc: Pc, x: Proc, k: Cpu, held: map<Lock, nat>, nextpid: nat): Sys {
    Two(INIT0.(pc := pc), x, BUSY0, k, held, nextpid)
  }

  function Child(b: bool): Proc { Proc(RUNNABLE, None, b, Some(0), 2, Run, true, None) }

  /** A fork by initproc takes the mark over from the unused slot. */
  lemma ForkScans(b: bool)
    requires Reachable(At(Run, NONE.(killed := b), IDLE, map[], 2))
    ensures Reachable(At(AllocPid(1), NONE.(killed := b), IDLE, map[ProcLock(1) := 0], 2))
  {
    hide Reachable;
    var x := NONE.(killed := b);
    var s0, s1 := At(Run, x, IDLE, map[], 2), At(AllocScan(0), x, IDLE, map[], 2);
    var s2, s3 := At(AllocScan(1), x, IDLE, map[], 2), At(AllocPid(1), x, IDLE, map[ProcLock(1) := 0], 2);
    Pair(s0.procs[0], x, s1.procs[0]);
    Advance(s0, 0, DoCall(0, AllocScan(0)), s1);
    Pair(s1.procs[0], x, s2.procs[0]);
    Advance(s1, 0, DoNext(0, true), s2);
    Pair(s2.procs[0], x, s3.procs[0]);
    Advance(s2, 0, DoNext(0, true), s3);
  }

  lemma ForkBuilds(b: bool)
    requires Reachable(At(AllocPid(1), NONE.(killed := b), IDLE, map[ProcLock(1) := 0], 2))
    ensures Reachable(At(ForkLink(1), NONE.(killed := b, pid := 2, st := USED), IDLE, map[], 3))
  {
    hide Reachable;
    var x, y := NONE.(killed := b), NONE.(killed := b, pid := 2, st := USED);
    var s0, s1 := At(AllocPid(1), x, IDLE, map[ProcLock(1) := 0], 2),
                  At(AllocMem(1), y, IDLE, map[ProcLock(1) := 0], 3);
    var s2 := At(ForkLink(1), y, IDLE, map[], 3);
    Pair(s0.procs[0], x, y);
    Pair(s0.procs[0], y, s1.procs[0]);
    Advance(s0, 0, DoNext(0, true), s1);
    Pair(s1.procs[0], y, s2.procs[0]);
    assert s1.held - {ProcLock(1)} == map[];
    Advance(s1, 0, DoNext(0, true), s2);
  }

  lemma ForkEnds(b: bool)
    requires Reachable(At(ForkLink(1), NONE.(killed := b, pid := 2, st := USED), IDLE, map[], 3))
    ensures Reachable(At(Run, Child(b), IDLE, map[], 3))
  {
    hide Reachable;
    var y, z := NONE.(killed := b, pid := 2, st := USED), NONE.(killed := b, pid := 2, st := USED, parent := Some(0));
    var s0, s1, s2 := At(ForkLink(1), y, IDLE, map[], 3), At(ForkReady(1), z, IDLE, map[], 3),
                      At(Run, Child(b), IDLE, map[], 3);
    Pair(s0.procs[0], y, z);
    Pair(s0.procs[0], z, s1.procs[0]);
    Advance(s0, 0, DoNext(0, true), s1);
    Pair(s1.procs[0], z, Child(b));
    Pair(s1.procs[0], Child(b), s2.procs[0]);
    Advance(s1, 0, DoNext(0, true), s2);
  }

  /** kill(0) in a run: the unused slot 1 is marked, and the next fork's child is killed
      before it has run. */
  lemma KillZeroHappens() returns (s: Sys, s1: Sys, s2: Sys)
    ensures Reachable(s) && Kills(s, 0, 0, 1, s1) && s.procs[0].pc == KillScan(0, 1) && s.procs[1].st == UNUSED
    ensures Reachable(s2) && |s2.procs| == 2 && s2.procs[1].st == RUNNABLE && s2.procs[1].pid == 2 && s2.procs[1].killed
  {
    hide Reachable;
    InitRuns();
    var s0, t := At(Run, NONE, IDLE, map[], 2), At(KillScan(0, 0), NONE, IDLE, map[], 2);
    s, s1, s2 := At(KillScan(0, 1), NONE, IDLE, map[], 2), At(Run, NONE.(killed := true), IDLE, map[], 2),
                 At(Run, Child(true), IDLE, map[], 3);
    Pair(s0.procs[0], NONE, t.procs[0]);
    Advance(s0, 0, DoCall(0, KillScan(0, 0)), t);
    Pair(t.procs[0], NONE, s.procs[0]);
    Advance(t, 0, DoNext(0, true), s);
    Pair(s.procs[0], NONE, s1.procs[1]);
    Pair(s.procs[0], s1.procs[1], s1.procs[0]);
    Advance(s, 0, DoNext(0, true), s1);
    ForkScans(true);
    ForkBuilds(true);
    ForkEnds(true);
  }

  const CHILD1 := Child(false).(st := RUNNING, inSched := false, on := Some(1))  // the child, in user space on CPU 1
  const BUSY1 := Cpu(Some(1), On(1), NoTick)

  lemma ChildRuns()
    ensures Reachable(At(Run, CHILD1, BUSY1, map[], 3))
  {
    hide Reachable;
    InitRuns();
    ForkScans(false);
    ForkBuilds(false);
    ForkEnds(false);
    var x := CHILD1.(inSched := true);
    var s0, s1 := At(Run, Child(false), IDLE, map[], 3), At(Run, Child(false), IDLE.(ctx := Idle(1)), map[], 3);
    var s2, s3 := At(Run, x, BUSY1, map[ProcLock(1) := 1], 3), At(Run, CHILD1, BUSY1, map[], 3);
    Pair(BUSY0, IDLE, s1.cpus[1]);
    Advance(s0, 1, DoSchedSkip, s1);
    Pair(BUSY0, s1.cpus[1], BUSY1);
    Pair(INIT0, Child(false), x);
    Advance(s1, 1, DoSchedPick, s2);
    Pair(INIT0, x, CHILD1);
    assert s2.held - {ProcLock(1)} == map[];
    Advance(s2, 1, DoResume, s3);
  }

  /** initproc calls sys_sleep(5) and stops before sleep takes its lock, while the child has called kill(1). */
  lemma BothReady()
    ensures Reachable(At(Sleep(InSleep(0, 5)), CHILD1.(pc := KillScan(1, 0)), BUSY1, map[TicksLock := 0], 3))
  {
    hide Reachable;
    ChildRuns();
    var y := CHILD1.(pc := KillScan(1, 0));
    var s0, s1, s2 := At(Run, CHILD1, BUSY1, map[], 3), At(Run, y, BUSY1, map[], 3),
                      At(TickStart(5), y, BUSY1, map[], 3);
    var s3, s4 := At(TickLoop(0, 5), y, BUSY1, map[TicksLock := 0], 3),
                  At(Sleep(InSleep(0, 5)), y, BUSY1, map[TicksLock := 0], 3);
    Pair(INIT0, CHILD1, y);
    Advance(s0, 1, DoCall(1, KillScan(1, 0)), s1);
    Pair(s1.procs[0], y, s2.procs[0]);
    Advance(s1, 0, DoCall(0, TickStart(5)), s2);
    Pair(s2.procs[0], y, s3.procs[0]);
    Advance(s2, 0, DoNext(0, true), s3);
    Pair(s3.procs[0], y, s4.procs[0]);
    Advance(s3, 0, DoNext(0, true), s4);
  }

  /** A kill that is lost, in a run: it marks initproc between its test of p->killed and
      its going to sleep, and initproc then sleeps, killed. */
  lemma LateKillHappens() returns (s: Sys, s1: Sys, s2: Sys)
    ensures Reachable(s) && Kills(s, 1, 1, 0, s1) && s.procs[0].pc == Sleep(InSleep(0, 5)) && !s.procs[0].killed
    ensures Step(s1, s2) && Reachable(s2) && |s2.procs| == 2 && s2.procs[0].st == SLEEPING && s2.procs[0].killed
  {
    hide Reachable;
    BothReady();
    var y := CHILD1.(pc := KillScan(1, 0));
    var v := INIT0.(pc := Sleep(InSleep(0, 5)), killed := true);
    var z := v.(chan := Some(OfTicks), st := SLEEPING, pc := Reacq(InSleep(0, 5)), inSched := true);
    s := At(Sleep(InSleep(0, 5)), y, BUSY1, map[TicksLock := 0], 3);
    s1 := Two(v, CHILD1, BUSY0, BUSY1, map[TicksLock := 0], 3);
    s2 := Two(z, CHILD1, BUSY0, BUSY1, map[ProcLock(0) := 0], 3);
    Pair(s.procs[0], y, v);
    Pair(v, y, CHILD1);
    Advance(s, 1, DoNext(1, true), s1);
    Pair(v, CHILD1, z);
    assert s1.held[ProcLock(0) := 0] - {TicksLock} == map[ProcLock(0) := 0];
    assert Do(s1, 0, DoNext(0, true)) == Some(s2);
    Advance(s1, 0, DoNext(0, true), s2);
  }
}
