/** The traps lab's sigalarm and sigreturn: the alarm part of usertrap, usertrapret's refill
    of the trapframe, the two system calls, and syscall's write of a0. */
module Alarm {
  import opened Types

  type int32 = x: int | -0x8000_0000 <= x < 0x8000_0000

  // positions of a0, a1 and a7 (x10, x11 and x17) among the registers x1 to x31
  const A0: int := 9
  const A1: int := 10
  const A7: int := 16

  const SYS_SIGALARM: int := 22
  const SYS_SIGRETURN: int := 23
  const NELEM: int := 24  // of the table syscalls[]

  type Regs = r: seq<uint64> | |r| == 31 witness seq(31, i => 0)

  /** struct trapframe. */
  datatype Trapframe = Trapframe(kernelSatp: uint64, kernelSp: uint64, kernelTrap: uint64, epc: uint64,
                                 kernelHartid: uint64, regs: Regs)

  /** What user code can see of the processor. */
  datatype User = User(pc: uint64, regs: Regs)

  /** What usertrapret reads: satp, the top of the kernel stack, the address of usertrap, tp. */
  datatype Hw = Hw(satp: uint64, kstackTop: uint64, usertrap: uint64, hart: uint64)

  /** The fields of struct proc that matter here. */
  datatype Task = Task(tf: Trapframe, orig: Trapframe, ticks: int32, remain: int32, handler: uint64)

  /** The low 32 bits of x as an int. */
  function Signed(x: int): int32 {
    var y := x % 0x1_0000_0000;
    if y >= 0x8000_0000 then y - 0x1_0000_0000 else y
  }

  // ---- one trap from user mode, step by step

  /** uservec saves the registers, and usertrap the pc. */
  function Saved(t: Task, u: User): Task {
    t.(tf := t.tf.(epc := u.pc, regs := u.regs))
  }

  /** The alarm part of usertrap, on a timer interrupt. */
  function Counted(t: Task): Task {
    if t.ticks == 0 then t
    else
      var t1 := if t.remain == 0 then t.(orig := t.tf, tf := t.tf.(epc := t.handler)) else t;
      t1.(remain := Signed(t1.remain - 1))
  }

  function Armed(t: Task): Task {
    t.(ticks := Signed(t.tf.regs[A0]), remain := Signed(t.tf.regs[A0]), handler := t.tf.regs[A1])
  }

  function Returned(t: Task): Task { t.(remain := t.ticks, tf := t.orig) }

  function WithA0(t: Task, x: uint64): Task { t.(tf := t.tf.(regs := t.tf.regs[A0 := x])) }

  /** syscall: `ret` is the result of a call other than the two modelled here, which is
      taken to write nothing but a0. */
  function Called(t: Task, ret: uint64): Task {
    var num := Signed(t.tf.regs[A7]);
    if num == SYS_SIGALARM then WithA0(Armed(t), 0)
    else if num == SYS_SIGRETURN then WithA0(Returned(t), 0)
    else if 0 < num < NELEM then WithA0(t, ret)
    else WithA0(t, 0xFFFF_FFFF_FFFF_FFFF)
  }

  /** usertrapret fills in what uservec will need. */
  function Refilled(t: Task, h: Hw): Task {
    t.(tf := t.tf.(kernelSatp := h.satp, kernelSp := h.kstackTop, kernelTrap := h.usertrap, kernelHartid := h.hart))
  }

  /** userret: the state in which user code goes on. */
  function Resumed(t: Task): User { User(t.tf.epc, t.tf.regs) }

  datatype Event = Timer(u: User, h: Hw) | Ecall(u: User, ret: uint64, h: Hw)

  /** A trap up to the call of usertrapret. */
  function Handled(t: Task, e: Event): Task {
    match e
    case Timer(u, _) => Counted(Saved(t, u))
    case Ecall(u, ret, _) =>
      var s := Saved(t, u);
      Called(s.(tf := s.tf.(epc := (u.pc + 4) % 0x1_0000_0000_0000_0000)), ret)
  }

  function Step(t: Task, e: Event): Task { Refilled(Handled(t, e), e.h) }

  /** The same traps as the code handles them, on the fields of one process. */
  class Proc {
    var tf: Trapframe
    var orig: Trapframe
    var alarmticks: int32
    var alarmremain: int32
    var alarmhandler: uint64

    function State(): Task
      reads this
    {
      Task(tf, orig, alarmticks, alarmremain, alarmhandler)
    }

    /** allocproc: the trapframe pages hold junk, no alarm is set. */
    constructor (tf: Trapframe, orig: Trapframe)
      ensures State() == Task(tf, orig, 0, 0, 0)
    {
      this.tf, this.orig := tf, orig;
      alarmticks, alarmremain, alarmhandler := 0, 0, 0;
    }

    method SysSigalarm() returns (r: uint64)
      modifies this
      ensures State() == Armed(old(State())) && r == 0
    {
      var ticks := Signed(tf.regs[A0]);
      var handler := tf.regs[A1];
      alarmticks := ticks;
      alarmremain := ticks;
      alarmhandler := handler;
      return 0;
    }

    method SysSigreturn() returns (r: uint64)
      modifies this
      ensures State() == Returned(old(State())) && r == 0
    {
      alarmremain := alarmticks;
      tf := orig;
      return 0;
    }

    method Syscall(ret: uint64)
      modifies this
      ensures State() == Called(old(State()), ret)
    {
      var num := Signed(tf.regs[A7]);
      var r := 0xFFFF_FFFF_FFFF_FFFF;
      if num == SYS_SIGALARM {
        r := SysSigalarm();
      } else if num == SYS_SIGRETURN {
        r := SysSigreturn();
      } else if 0 < num < NELEM {
        r := ret;
      }
      tf := tf.(regs := tf.regs[A0 := r]);
    }

    method Usertrapret(h: Hw) returns (u: User)
      modifies this`tf
      ensures State() == Refilled(old(State()), h) && u == Resumed(State())
    {
      tf := tf.(kernelSatp := h.satp, kernelSp := h.kstackTop, kernelTrap := h.usertrap, kernelHartid := h.hart);
      return User(tf.epc, tf.regs);
    }

    /** usertrap, entered with the user registers in the trapframe; `timer` is which_dev == 2. */
    method Usertrap(sepc: uint64, timer: bool, ret: uint64, h: Hw) returns (u: User)
      modifies this
      ensures var e := if timer then Timer(User(sepc, old(tf).regs), h) else Ecall(User(sepc, old(tf).regs), ret, h);
              State() == Step(old(State()), e) && u == Resumed(State())
      ensures timer ==>
                u ==
                  User(if old(alarmticks) != 0 && old(alarmremain) == 0 then old(alarmhandler) else sepc, old(tf).regs)
      ensures !timer ==>
                var regs, pc := old(tf).regs, (sepc + 4) % 0x1_0000_0000_0000_0000;
                var num := regs[16] % 0x1_0000_0000;
                u == if num == 23 then User(old(orig).epc, old(orig).regs[9 := 0])
                     else if num == 22 then User(pc, regs[9 := 0])
                     else if 1 <= num <= 21 then User(pc, regs[9 := ret])
                     else User(pc, regs[9 := 0xFFFF_FFFF_FFFF_FFFF])
    {
      UserGoesOn(State(), if timer then Timer(User(sepc, tf.regs), h) else Ecall(User(sepc, tf.regs), ret, h));
      tf := tf.(epc := sepc);
      if !timer {
        tf := tf.(epc := (tf.epc + 4) % 0x1_0000_0000_0000_0000);
        Syscall(ret);
      }
      if timer {
        if alarmticks != 0 {
          if alarmremain == 0 {
            orig := tf;
            tf := tf.(epc := alarmhandler);
          }
          alarmremain := Signed(alarmremain - 1);
        }
      }
      u := Usertrapret(h);
    }
  }

  // ---- one trap, as user code sees it

  /** Where user code goes on after any trap.  A timer trap resumes it where it was, or enters the
      handler with all registers as they were when an alarm is set and has run down.  A system call
      resumes it after its 4-byte instruction with nothing but a0 changed: to 0 by sigalarm (22), to
      the call's result by the other calls, 1 to 21, and to -1 by any other number, all in the low 32
      bits of a7.  sigreturn (23) resumes the saved state with 0 in a0. */
  lemma UserGoesOn(t: Task, e: Event)
    ensures Resumed(Step(t, e)) ==
            match e
            case Timer(u, _) => if t.ticks != 0 && t.remain == 0 then User(t.handler, u.regs) else u
            case Ecall(u, ret, _) =>
              var num, pc := u.regs[16] % 0x1_0000_0000, (u.pc + 4) % 0x1_0000_0000_0000_0000;
              if num == 23 then User(t.orig.epc, t.orig.regs[9 := 0])
              else if num == 22 then User(pc, u.regs[9 := 0])
              else if 1 <= num <= 21 then User(pc, u.regs[9 := ret])
              else User(pc, u.regs[9 := 0xFFFF_FFFF_FFFF_FFFF])
  {
    if e.Ecall? { SignedLow(e.u.regs[16]); }
  }

  /** A small number is its own low 32 bits, and no negative one is small. */
  lemma SignedLow(x: int)
    ensures (Signed(x) - x) % 0x1_0000_0000 == 0
    ensures 0 <= Signed(x) < 0x8000_0000 <==> x % 0x1_0000_0000 < 0x8000_0000
    ensures 0 <= Signed(x) ==> Signed(x) == x % 0x1_0000_0000
  {
  }

  /** What any trap does to the alarm.  A timer trap counts down by one modulo 2^32 while an alarm is
      set, and saves the interrupted pc and registers only when it enters the handler; sigalarm sets
      interval and countdown to the low 32 bits of a0 and the handler to a1; sigreturn sets the
      countdown back; no other call touches any of it. */
  lemma AlarmGoesOn(t: Task, e: Event)
    ensures var s := Step(t, e);
            match e
            case Timer(u, _) =>
              && s.ticks == t.ticks && s.handler == t.handler
              && (if t.ticks == 0 then s.remain == t.remain else (s.remain - t.remain + 1) % 0x1_0000_0000 == 0)
              && (if t.ticks != 0 && t.remain == 0 then s.orig.epc == u.pc && s.orig.regs == u.regs
                 else s.orig == t.orig)
            case Ecall(u, _, _) =>
              var num := u.regs[16] % 0x1_0000_0000;
              && s.orig == t.orig && s.handler == (if num == 22 then u.regs[10] else t.handler)
              && (if num == 22 then (s.ticks - u.regs[9]) % 0x1_0000_0000 == 0 else s.ticks == t.ticks)
              && s.remain == (if num == 22 || num == 23 then s.ticks else t.remain)
  {
    if e.Ecall? {
      SignedLow(e.u.regs[16]);
      SignedLow(e.u.regs[9]);
    }
  }

  // ---- runs

  /** The state after the events in order; what user code does between them is in the events. */
  function After(t: Task, es: seq<Event>): Task {
    if es == [] then t else Step(After(t, es[..|es| - 1]), es[|es| - 1])
  }

  /** Number of timer traps. */
  function Timers(es: seq<Event>): nat {
    if es == [] then 0 else Timers(es[..|es| - 1]) + if es[|es| - 1].Timer? then 1 else 0
  }

  predicate IsCall(e: Event, num: int) { e.Ecall? && Signed(e.u.regs[A7]) == num }

  /** No sigalarm and no sigreturn. */
  predicate Quiet(es: seq<Event>) {
    forall i :: 0 <= i < |es| ==> !IsCall(es[i], SYS_SIGALARM) && !IsCall(es[i], SYS_SIGRETURN)
  }

  /** The timer trap that finds the task in state t enters the handler. */
  predicate Fires(t: Task) { t.ticks != 0 && t.remain == 0 }

  lemma SignedStep(a: int)
    ensures Signed(Signed(a) - 1) == Signed(a - 1)
  {
  }

  lemma SignedZero(a: int)
    ensures Signed(a) == 0 <==> a % 0x1_0000_0000 == 0
  {
  }

  /** Between alarm calls every timer trap counts down by one, firing or not. */
  lemma {:induction false} Countdown(t: Task, es: seq<Event>)
    requires t.ticks != 0 && Quiet(es)
    ensures var s := After(t, es);
            s.ticks == t.ticks && s.handler == t.handler && s.remain == Signed(t.remain - Timers(es))
  {
    if es != [] {
      var n := |es| - 1;
      Countdown(t, es[..n]);
      SignedStep(t.remain - Timers(es[..n]));
      assert !IsCall(es[n], SYS_SIGALARM) && !IsCall(es[n], SYS_SIGRETURN);
    }
  }

  /** After sigalarm(n, handler) with n != 0, and likewise after a sigreturn, the timer
      trap that follows k others enters the handler exactly when k and n agree modulo
      2^32: first on trap n + 1 for n > 0, and then not on any of the next 2^32 - 1. */
  lemma FiresExactly(t: Task, es: seq<Event>)
    requires t.ticks != 0 && t.remain == t.ticks && Quiet(es)
    ensures Fires(After(t, es)) <==> (t.ticks - Timers(es)) % 0x1_0000_0000 == 0
  {
    Countdown(t, es);
    SignedZero(t.remain - Timers(es));
  }

  /** An alarm as user code sees it.  After sigalarm(n, handler) and any events but alarm
      calls, the next timer trap, whatever it interrupts, goes to the handler with all
      registers as they were exactly when n is not 0 and n traps, or n and a multiple of
      2^32, have been counted; any other timer trap goes back to where it came from. */
  lemma Rings(t: Task, call: Event, es: seq<Event>, u: User, h: Hw)
    requires IsCall(call, SYS_SIGALARM) && Quiet(es)
    ensures var n := Signed(call.u.regs[A0]);
            Resumed(Step(After(Step(t, call), es), Timer(u, h))) ==
            if n != 0 && (n - Timers(es)) % 0x1_0000_0000 == 0 then User(call.u.regs[A1], u.regs) else u
  {
    var t1 := Step(t, call);
    assert t1.ticks == t1.remain == Signed(call.u.regs[A0]) && t1.handler == call.u.regs[A1];
    if t1.ticks == 0 {
      Disarmed(t1, es);
    } else {
      Countdown(t1, es);
      FiresExactly(t1, es);
    }
  }

  lemma {:induction false} Disarmed(t: Task, es: seq<Event>)
    requires t.ticks == 0 && Quiet(es)
    ensures After(t, es).ticks == 0 && After(t, es).orig == t.orig && !Fires(After(t, es))
  {
    if es != [] {
      var n := |es| - 1;
      Disarmed(t, es[..n]);
      assert !IsCall(es[n], SYS_SIGALARM) && !IsCall(es[n], SYS_SIGRETURN);
    }
  }

  // ---- what sigreturn restores

  /** Some timer trap among the events enters the handler. */
  ghost predicate FiresIn(t: Task, es: seq<Event>) {
    exists i :: 0 <= i < |es| && FiresAt(t, es, i)
  }

  predicate FiresAt(t: Task, es: seq<Event>, i: nat)
    requires i < |es|
  {
    es[i].Timer? && Fires(After(t, es[..i]))
  }

  /** The trapframe that the last trap to enter the handler saved; `was` if there was none. */
  function LastSaved(t: Task, es: seq<Event>, was: Trapframe): Trapframe {
    if es == [] then was
    else
      var n := |es| - 1;
      if FiresAt(t, es, n) then Saved(After(t, es[..n]), es[n].u).tf else LastSaved(t, es[..n], was)
  }

  /** Whatever happens, alarm calls and returns included, what is saved is the last saved. */
  lemma {:induction false} SavedLast(t: Task, es: seq<Event>)
    ensures After(t, es).orig == LastSaved(t, es, t.orig)
  {
    if es != [] {
      SavedLast(t, es[..|es| - 1]);
    }
  }

  lemma {:induction false} NoneSaved(t: Task, es: seq<Event>, was: Trapframe)
    requires !FiresIn(t, es)
    ensures LastSaved(t, es, was) == was
  {
    if es != [] {
      var n := |es| - 1;
      assert !FiresAt(t, es, n);
      forall i | 0 <= i < n ensures !FiresAt(t, es[..n], i) {
        assert es[..n][..i] == es[..i] && !FiresAt(t, es, i);
      }
      NoneSaved(t, es[..n], was);
    }
  }

  /** The exact condition.  A timer trap interrupts user code in state u and enters the
      handler; then come any events and a sigreturn.  User code goes on at u, but with 0
      in a0, if and only if what was saved last agrees with u apart from a0; this is so
      when no trap since then entered the handler. */
  lemma SigreturnExact(t: Task, u: User, h: Hw, es: seq<Event>, back: Event)
    requires Fires(t) && IsCall(back, SYS_SIGRETURN)
    ensures var t1 := Step(t, Timer(u, h)); var w := LastSaved(t1, es, t1.orig);
            && Resumed(Step(After(t1, es), back)) == User(w.epc, w.regs[A0 := 0])
            && (Resumed(Step(After(t1, es), back)) == User(u.pc, u.regs[A0 := 0]) <==>
                 w.epc == u.pc && SameBut(w.regs, u.regs, A0))
            && (!FiresIn(t1, es) ==> w.epc == u.pc && w.regs == u.regs)
  {
    var t1 := Step(t, Timer(u, h));
    SavedLast(t1, es);
    var w := LastSaved(t1, es, t1.orig);
    SameButIs(w.regs, u.regs, A0);
    if !FiresIn(t1, es) { NoneSaved(t1, es, t1.orig); }
  }

  predicate SameBut(a: Regs, b: Regs, i: nat) { forall j :: 0 <= j < 31 && j != i ==> a[j] == b[j] }

  lemma SameButIs(a: Regs, b: Regs, i: nat)
    requires i < 31
    ensures a[i := 0] == b[i := 0] <==> SameBut(a, b, i)
  {
    if a[i := 0] == b[i := 0] {
      forall j | 0 <= j < 31 && j != i ensures a[j] == b[j] { assert a[i := 0][j] == b[i := 0][j]; }
    }
  }

  /** Without alarm calls the handler is entered again exactly when the counter has come
      round: on the trap 2^32 after the one that entered it. */
  lemma {:induction false} ReenteredExactly(t: Task, es: seq<Event>)
    requires t.ticks != 0 && t.remain == -1 && Quiet(es)
    ensures FiresIn(t, es) <==> Timers(es) >= 0x1_0000_0000
  {
    if es != [] {
      var n := |es| - 1;
      ReenteredExactly(t, es[..n]);
      Countdown(t, es[..n]);
      SignedZero(-1 - Timers(es[..n]));
      if FiresIn(t, es[..n]) {
        var i :| 0 <= i < n && FiresAt(t, es[..n], i);
        assert es[..n][..i] == es[..i] && FiresAt(t, es, i);
      } else {
        FirstFires(t, es);
      }
    }
  }

  lemma FirstFires(t: Task, es: seq<Event>)
    requires es != [] && !FiresIn(t, es[..|es| - 1])
    ensures FiresIn(t, es) <==> FiresAt(t, es, |es| - 1)
  {
    var n := |es| - 1;
    forall i | 0 <= i < n ensures !FiresAt(t, es, i) {
      assert es[..n][..i] == es[..i] && !FiresAt(t, es[..n], i);
    }
  }

  /** The whole cycle.  A timer trap interrupts user code in state u and enters the
      handler; after anything but an alarm call, and fewer than 2^32 more timer traps,
      the handler calls sigreturn: user code goes on exactly at u, but with 0 in a0, and
      the countdown starts again. */
  lemma SigreturnRestores(t: Task, u: User, h: Hw, es: seq<Event>, back: Event)
    requires Fires(t) && Quiet(es) && Timers(es) < 0x1_0000_0000 && IsCall(back, SYS_SIGRETURN)
    ensures var s := Step(After(Step(t, Timer(u, h)), es), back);
            && Resumed(s) == User(u.pc, u.regs[A0 := 0])
            && (Resumed(s) == u <==> u.regs[A0] == 0)
            && s.remain == s.ticks == t.ticks && s.handler == t.handler
  {
    var t1 := Step(t, Timer(u, h));
    ReenteredExactly(t1, es);
    SigreturnExact(t, u, h, es, back);
    Countdown(t1, es);
    assert u.regs[A0 := 0][A0] == 0;
    assert u.regs[A0] == 0 ==> u.regs[A0 := 0] == u.regs;
  }

  /** An input for which it fails: the handler sets a new alarm and is entered a second
      time, and the first interrupted state is lost. */
  lemma NestedAlarm(t: Task, u1: User, u2: User, h: Hw, call: Event, back: Event)
    requires Fires(t) && call.Ecall? && IsCall(call, SYS_SIGALARM) && Signed(call.u.regs[A0]) == 1
             && IsCall(back, SYS_SIGRETURN)
    ensures Resumed(After(t, [Timer(u1, h), call, Timer(u2, h), Timer(u2, h), back])) == User(u2.pc, u2.regs[A0 := 0])
  {
    var t1 := Step(t, Timer(u1, h));
    var t2 := Step(t1, call);
    var t3 := Step(t2, Timer(u2, h));
    var t4 := Step(t3, Timer(u2, h));
    var es := [Timer(u1, h), call, Timer(u2, h), Timer(u2, h), back];
    assert es[..4] == [Timer(u1, h), call, Timer(u2, h), Timer(u2, h)];
    assert es[..4][..3] == [Timer(u1, h), call, Timer(u2, h)];
    assert es[..4][..3][..2] == [Timer(u1, h), call];
    assert es[..4][..3][..2][..1] == [Timer(u1, h)];
    assert es[..4][..3][..2][..1][..0] == [];
    assert After(t, [Timer(u1, h)]) == t1;
    assert After(t, [Timer(u1, h), call]) == t2;
    assert t3.remain == 0 && t3.ticks == 1;
    assert After(t, es[..4]) == t4;
  }

  // ---- the kernel's own fields of the trapframe

  /** What uservec loads from the trapframe at the next trap. */
  function KernelOf(f: Trapframe): Hw { Hw(f.kernelSatp, f.kernelSp, f.kernelTrap, f.kernelHartid) }

  /** Over any events after a trap that entered the handler, up to and through a
      sigreturn: what sigreturn copies back are the kernel values that the trapframe had
      when the handler was last entered, perhaps on another CPU; but user code goes on
      with those of the sigreturn's own return, so every trap finds the values of the
      return just before it. */
  lemma KernelFieldsFresh(t: Task, fire: Event, es: seq<Event>, back: Event, i: nat)
    requires fire.Timer? && Fires(t) && IsCall(back, SYS_SIGRETURN) && i < |es|
    ensures var t1 := Step(t, fire);
            && KernelOf(After(t1, es[..i + 1]).tf) == es[i].h
            && KernelOf(Handled(After(t1, es), back).tf) == KernelOf(LastSaved(t1, es, t1.orig))
            && (!FiresIn(t1, es) ==> KernelOf(Handled(After(t1, es), back).tf) == KernelOf(t.tf))
            && KernelOf(Step(After(t1, es), back).tf) == back.h
  {
    var t1 := Step(t, fire);
    SavedLast(t1, es);
    if !FiresIn(t1, es) { NoneSaved(t1, es, t1.orig); }
    assert es[..i + 1][..i] == es[..i];
  }
}
