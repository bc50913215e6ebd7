/** Where process slots and pids go: no slot is ever lost, no pid used twice. */
module SchedSlots {
  import opened Types
  import opened Sched
  import opened SchedInv
  import opened SchedSteps
  import opened SchedSafety

  // ---- what a step of process code can do to the slots

  /** Only p changes its place in the code, except that a slot can be freed; a pid is kept,
      dropped, or new; and only allocproc brings a slot into use. */
  ghost predicate Shape(s: Sys, s': Sys, p: nat) {
    && |s'.procs| == |s.procs| && s.nextpid <= s'.nextpid
    && forall x :: 0 <= x < |s.procs| ==>
         && (x != p && s'.procs[x].pc != s.procs[x].pc ==>
               p < |s.procs| && (s.procs[p].pc == AllocMem(x) || s.procs[p].pc == WaitFree(x))
               && s'.procs[x] == Freed(s.procs[x]))
         && (s'.procs[x].pid == s.procs[x].pid || s'.procs[x].pid == 0
            || (s'.procs[x].pid == s.nextpid && s.nextpid < s'.nextpid))
         && (s'.procs[x].st == USED ==> s.procs[x].st == USED || (p < |s.procs| && s.procs[p].pc == AllocPid(x)))
  }

  lemma NextShape(s: Sys, c: nat, p: nat, ok: bool, s': Sys)
    requires Executes(s, c, p) && Next(s, c, p, ok) == Some(s')
    ensures Shape(s, s', p)
  {
    hide Next, Shape;
    var pc := s.procs[p].pc;
    if Target(pc).Some? || pc.AllocScan? {
      ForkShape(s, c, p, ok, s');
    } else if pc.WaitScan? || pc.WaitFree? {
      WaitShape(s, c, p, ok, s');
    } else if pc.WaitStart? || pc.Sleep? || pc.Reacq? {
      SleepShape(s, c, p, ok, s');
    } else if pc.ExitWakeInit? || pc.ExitWakeParent? {
      WakeShape(s, c, p, ok, s');
    } else if pc.KillScan? {
      KillShape(s, c, p, ok, s');
    } else {
      OtherShape(s, c, p, ok, s');
    }
  }

  lemma ForkShape(s: Sys, c: nat, p: nat, ok: bool, s': Sys)
    requires Executes(s, c, p) && Next(s, c, p, ok) == Some(s')
             && (Target(s.procs[p].pc).Some? || s.procs[p].pc.AllocScan?)
    ensures Shape(s, s', p)
  {
  }

  lemma WaitShape(s: Sys, c: nat, p: nat, ok: bool, s': Sys)
    requires Executes(s, c, p) && Next(s, c, p, ok) == Some(s')
    requires s.procs[p].pc.WaitScan? || s.procs[p].pc.WaitFree?
    ensures Shape(s, s', p)
  {
  }

  lemma SleepShape(s: Sys, c: nat, p: nat, ok: bool, s': Sys)
    requires Executes(s, c, p) && Next(s, c, p, ok) == Some(s')
    requires s.procs[p].pc.WaitStart? || s.procs[p].pc.Sleep? || s.procs[p].pc.Reacq?
    ensures Shape(s, s', p)
  {
  }

  lemma WakeShape(s: Sys, c: nat, p: nat, ok: bool, s': Sys)
    requires Executes(s, c, p) && Next(s, c, p, ok) == Some(s')
    requires s.procs[p].pc.ExitWakeInit? || s.procs[p].pc.ExitWakeParent?
    ensures Shape(s, s', p)
  {
  }

  lemma KillShape(s: Sys, c: nat, p: nat, ok: bool, s': Sys)
    requires Executes(s, c, p) && Next(s, c, p, ok) == Some(s') && s.procs[p].pc.KillScan?
    ensures Shape(s, s', p)
  {
  }

  lemma OtherShape(s: Sys, c: nat, p: nat, ok: bool, s': Sys)
    requires Executes(s, c, p) && Next(s, c, p, ok) == Some(s') && Target(s.procs[p].pc) == None
             && !s.procs[p].pc.AllocScan?
    requires var pc := s.procs[p].pc;
             && !(pc.WaitStart? || pc.WaitScan? || pc.WaitFree? || pc.Sleep? || pc.Reacq?)
             && !(pc.ExitWakeInit? || pc.ExitWakeParent? || pc.KillScan?)
    ensures Shape(s, s', p)
  {
  }

  // ---- slots

  /** Process p is between the two halves of fork for slot i. */
  predicate Builds(s: Sys, p: nat, i: nat)
    requires p < |s.procs|
  {
    Target(s.procs[p].pc) == Some(i) && !s.procs[p].pc.AllocPid?
  }

  /** Every slot in use has somebody who is building it. */
  ghost predicate BuildersOk(s: Sys) {
    forall i :: 0 <= i < |s.procs| && s.procs[i].st == USED ==> exists p :: 0 <= p < |s.procs| && Builds(s, p, i)
  }

  /** Steps that leave the builders where they are, and let no slot come into use. */
  ghost predicate SameBuilders(s: Sys, s': Sys) {
    && |s'.procs| == |s.procs|
    && (forall i :: 0 <= i < |s.procs| && s'.procs[i].st == USED ==> s.procs[i].st == USED)
    && (forall p, i: nat :: 0 <= p < |s.procs| && i < |s.procs| && s'.procs[i].st == USED && Builds(s, p, i) ==>
         Builds(s', p, i))
  }

  lemma SameKeeps(s: Sys, s': Sys)
    requires BuildersOk(s) && SameBuilders(s, s')
    ensures BuildersOk(s')
  {
    forall i | 0 <= i < |s'.procs| && s'.procs[i].st == USED
      ensures exists p :: 0 <= p < |s'.procs| && Builds(s', p, i)
    {
      var p :| 0 <= p < |s.procs| && Builds(s, p, i);
      assert Builds(s', p, i);
    }
  }

  lemma BuildersStep(s: Sys, c: nat, a: Act, s': Sys)
    requires Inv(s) && BuildersOk(s) && Do(s, c, a) == Some(s')
    ensures BuildersOk(s')
  {
    if a.DoNext? {
      hide Inv, BuildersOk, Next;
      BuildersNext(s, c, a.p, a.ok, s');
    } else {
      hide Inv, BuildersOk;
      SameKeeps(s, s');
    }
  }

  lemma BuildersNext(s: Sys, c: nat, p: nat, ok: bool, s': Sys)
    requires Inv(s) && BuildersOk(s) && Executes(s, c, p) && Next(s, c, p, ok) == Some(s')
    ensures BuildersOk(s')
  {
    assert PcOk(s, p);
    var pc := s.procs[p].pc;
    if Target(pc).Some? {
      BuildersFork(s, c, p, ok, s', Target(pc).value);
    } else {
      NextShape(s, c, p, ok, s');
      FreedIdle(s, s', p);
      hide Inv, BuildersOk, PcOk, Next, Shape;
      SameKeeps(s, s');
    }
  }

  /** A slot that is freed was not a builder. */
  lemma FreedIdle(s: Sys, s': Sys, p: nat)
    requires Inv(s) && p < |s.procs| && Shape(s, s', p) && Target(s.procs[p].pc) == None
    ensures SameBuilders(s, s')
  {
    forall q, i: nat | 0 <= q < |s.procs| && i < |s.procs| && s'.procs[i].st == USED && Builds(s, q, i)
      ensures Builds(s', q, i)
    {
      assert ProcOk(s, q) && PcOk(s, p);
    }
  }

  /** The steps of fork itself: its slot stays with it until it is runnable or free. */
  lemma BuildersFork(s: Sys, c: nat, p: nat, ok: bool, s': Sys, t: nat)
    requires Inv(s) && BuildersOk(s) && Executes(s, c, p) && Next(s, c, p, ok) == Some(s')
    requires Target(s.procs[p].pc) == Some(t)
    ensures BuildersOk(s')
  {
    assert PcOk(s, p) && ProcOk(s, p) && t < |s.procs| && t != p;
    assert ProcOk(s, t) && s.procs[t].pc == Run;
    hide Inv, ProcOk, PcOk, Next, Builds;
    ForkStep(s, c, p, ok, s', t);
    forall i | 0 <= i < |s'.procs| && s'.procs[i].st == USED
      ensures exists q :: 0 <= q < |s'.procs| && Builds(s', q, i)
    {
      if i == t {
        assert Builds(s', p, i);
      } else {
        var q :| 0 <= q < |s.procs| && Builds(s, q, i);
        assert Builds(s', q, i);
      }
    }
  }

  /** What a step of fork does to the builders: p still builds t if t is in use, others stay. */
  lemma ForkStep(s: Sys, c: nat, p: nat, ok: bool, s': Sys, t: nat)
    requires Executes(s, c, p) && Next(s, c, p, ok) == Some(s') && Target(s.procs[p].pc) == Some(t)
    requires t < |s.procs| && t != p && s.procs[t].pc == Run
    ensures |s'.procs| == |s.procs| && (s'.procs[t].st == USED ==> Builds(s', p, t))
    ensures forall i, q: nat :: 0 <= i < |s.procs| && i != t && q < |s.procs| ==>
              (s'.procs[i].st == USED ==> s.procs[i].st == USED) && (Builds(s, q, i) ==> Builds(s', q, i))
  {
  }

  lemma {:induction false} RunBuilders(run: seq<Sys>)
    requires IsRun(run)
    ensures BuildersOk(run[|run| - 1])
  {
    hide Inv, Do, BuildersOk;
    var n := |run| - 1;
    if n == 0 {
      NoneUsed(run[0]);
    } else {
      RunBuilders(run[..n]);
      RunInv(run[..n]);
      assert Step(run[n - 1], run[n]);
      var c: nat, a :| Do(run[n - 1], c, a) == Some(run[n]);
      BuildersStep(run[n - 1], c, a, run[n]);
    }
  }

  lemma NoneUsed(s: Sys)
    requires Initial(s)
    ensures BuildersOk(s)
  {
  }

  ghost predicate OnlyBuilder(s: Sys, p: nat, i: nat) {
    forall q :: 0 <= q < |s.procs| && Builds(s, q, i) ==> q == p
  }

  /** No slot is lost.  Each is free for the next fork, or being built by exactly one
      process, which is alive, or a living process, or a zombie with a living parent. */
  lemma NoSlotLost(s: Sys, i: nat)
    requires Reachable(s) && i < |s.procs|
    ensures s.procs[i].st == USED ==>
              exists p :: 0 <= p < |s.procs| && Builds(s, p, i) && Alive(s.procs[p]) && OnlyBuilder(s, p, i)
    ensures s.procs[i].st == ZOMBIE ==>
              s.procs[i].parent.Some? && s.procs[i].parent.value < |s.procs| && Alive(s.procs[s.procs[i].parent.value])
  {
    ReachableInv(s);
    assert ProcOk(s, i) && ChildOk(s, i);
    if s.procs[i].st == USED {
      BuildersReachable(s);
      var p :| 0 <= p < |s.procs| && Builds(s, p, i);
      assert ProcOk(s, p);
      assert forall q :: 0 <= q < |s.procs| && q != p ==> Target(s.procs[q].pc) != Some(i);
    }
  }

  lemma BuildersReachable(s: Sys)
    requires Reachable(s)
    ensures BuildersOk(s)
  {
    hide IsRun, BuildersOk;
    var run :| run != [] && IsRun(run) && run[|run| - 1] == s;
    RunBuilders(run);
  }

  // ---- pids

  /** Pid was given to some process, and no slot has it. */
  ghost predicate Retired(s: Sys, pid: nat) {
    0 < pid < s.nextpid && forall i :: 0 <= i < |s.procs| ==> s.procs[i].pid != pid
  }

  /** What wait frees is gone: no slot has that pid, whatever slot is used again. */
  lemma ReapRetires(s: Sys, c: nat, p: nat, i: nat, s': Sys)
    requires Reachable(s) && Executes(s, c, p) && s.procs[p].pc == WaitFree(i) && Next(s, c, p, true) == Some(s')
    ensures i < |s.procs| && s'.procs[i].st == UNUSED && Retired(s', s.procs[i].pid)
  {
    ReachableInv(s);
    assert PcOk(s, p) && ProcOk(s, i) && ProcOk(s, p);
    forall j | 0 <= j < |s'.procs| ensures s'.procs[j].pid != s.procs[i].pid {
      assert ProcOk(s, j);
      assert j < i && s.procs[j].st != UNUSED ==> s.procs[j].pid != s.procs[i].pid;
      assert j > i && s.procs[j].st != UNUSED ==> s.procs[i].pid != s.procs[j].pid;
    }
  }

  lemma RetiredStep(s: Sys, s': Sys, pid: nat)
    requires Step(s, s') && Retired(s, pid)
    ensures Retired(s', pid)
  {
    hide Do, Retired;
    var c: nat, a :| Do(s, c, a) == Some(s');
    RetiredDo(s, c, a, s', pid);
  }

  lemma RetiredDo(s: Sys, c: nat, a: Act, s': Sys, pid: nat)
    requires Do(s, c, a) == Some(s') && Retired(s, pid)
    ensures Retired(s', pid)
  {
    if a.DoNext? {
      hide Next;
      RetiredNext(s, c, a.p, a.ok, s', pid);
    }
  }

  lemma RetiredNext(s: Sys, c: nat, p: nat, ok: bool, s': Sys, pid: nat)
    requires Executes(s, c, p) && Next(s, c, p, ok) == Some(s') && Retired(s, pid)
    ensures Retired(s', pid)
  {
    NextShape(s, c, p, ok, s');
    hide Next;
  }

  /** A pid that is gone never comes back: wait reports each child once. */
  lemma {:induction false} NeverReused(later: seq<Sys>, pid: nat)
    requires later != [] && Retired(later[0], pid)
    requires forall i :: 0 <= i < |later| - 1 ==> Step(later[i], later[i + 1])
    ensures Retired(later[|later| - 1], pid)
  {
    hide Retired, Step;
    var n := |later| - 1;
    if n > 0 {
      NeverReused(later[..n], pid);
      assert Step(later[n - 1], later[n]);
      RetiredStep(later[n - 1], later[n], pid);
    }
  }
}
