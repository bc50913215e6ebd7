/** Whole histories of memory: after start-up and any sequence of fork, sbrk, exec,
    exit-and-wait and writes to user memory, by any processes, every frame beyond the
    kernel is free or belongs to exactly one live process, each call has had exactly its
    effect, and the kernel is dead only if one of its defects was met on the way. */
module History {
  import opened Types
  import opened Riscv
  import opened Phys
  import opened PhysUpdate
  import opened Kalloc
  import opened Tables
  import opened Vm
  import opened UserVm
  import opened Freewalk
  import opened ProcMem
  import opened ProcAlloc
  import opened CopyUser
  import opened ExecImage
  import opened ExecArgs
  import opened Exec
  import opened Machine

  // ---- calls and their effects

  /** A system call of process p, or the end of process p: wait has found it a zombie. */
  datatype Call =
    | Forks(p: nat, child: nat, pid: nat)
    | Sbrk(p: nat, n: int)
    | Execs(p: nat, ip: Inode, argv: seq<seq<byte>>)
    | WritesUser(p: nat, dst: uint64, data: seq<byte>)
    | Reaped(p: nat)

  predicate Sensible(c: Call) {
    match c
    case Sbrk(_, n) => -0x8000_0000 <= n < 0x8000_0000
    case Execs(_, _, argv) => forall i :: 0 <= i < |argv| ==> |argv[i]| < 0x7FFF_FFFF
    case WritesUser(_, _, data) => |data| < 0x1_0000_0000
    case _ => true
  }

  ghost predicate ReadsBounded(c: Call) { c.Execs? ==> forall o, n :: |c.ip.readi(o, n)| <= n }

  /** The slot is in use. */
  predicate Live(slots: seq<Option<Memory>>, p: nat) { p < |slots| && slots[p].Some? }

  /** The slot is there and not in use. */
  predicate Vacant(slots: seq<Option<Memory>>, p: nat) { p < |slots| && slots[p].None? }

  /** The calls that run into a defect: in the page-table lab, a fork with four free frames
      and an exec with three write to address 0; in every lab, an exec whose 32 strings
      all fit overruns ustack. */
  ghost predicate Fatal(lab: Lab, s: Snap, slots: seq<Option<Memory>>, c: Call) {
    Live(slots, c.p) &&
    match c
    case Forks(_, child, _) => Vacant(slots, child) && lab.usys && |s.free| == ProcCost(lab) - 1
    case Execs(_, ip, argv) => ElfOk(ip) && ((lab.usys && |s.free| == 3) || ExecSmash(lab, s, ip, argv))
    case _ => false
  }

  ghost predicate ExecSmash(lab: Lab, s: Snap, ip: Inode, argv: seq<seq<byte>>)
    requires ElfOk(ip)
  {
    Loadable(ip, ip.elf.value.phnum) && Fits(lab, s, FinalSize(ip)) && ArgsSmash(argv, FinalSize(ip))
  }

  ghost predicate ExecWorks(lab: Lab, s: Snap, ip: Inode, argv: seq<seq<byte>>) {
    ElfOk(ip) && Loadable(ip, ip.elf.value.phnum) && Fits(lab, s, FinalSize(ip)) && ArgsFit(argv, FinalSize(ip))
  }

  /** The memory of child y is made of frames that were free and copies that of x. */
  ghost predicate Child(lab: Lab, s: Snap, s': Snap, x: Memory, y: Memory) {
    && y.sz == x.sz && NewProc(lab, s, s', y.orig, y.tf, y.pt, y.sz) && CopyOf(s, s', x.pt, y.pt, Pages(x.sz))
    && |s'.free| == |s.free| - ProcCost(lab) - TreeCost(Pages(x.sz))
    && y.tf < |s'.mem| && IsPage(s'.mem[y.tf]) && x.tf < |s.mem| && IsPage(s.mem[x.tf])
    && s'.mem[y.tf].bytes[..288] == s.mem[x.tf].bytes[..112] + Repeat<byte>(0, 8) + s.mem[x.tf].bytes[120..288]
  }

  ghost predicate Forked(lab: Lab, s: Snap, s': Snap, slots: seq<Option<Memory>>, slots': seq<Option<Memory>>,
                         x: Memory, child: nat)
    requires child < |slots|
  {
    if ProcCost(lab) + TreeCost(Pages(x.sz)) <= |s.free| then
      |slots'| == |slots| && slots'[child].Some? && slots' == slots[child := slots'[child]]
      && Child(lab, s, s', x, slots'[child].value)
    else slots' == slots && Conserved(s, s')
  }

  ghost predicate Grown(s: Snap, s': Snap, slots: seq<Option<Memory>>, slots': seq<Option<Memory>>, p: nat, x: Memory,
                        n: int)
    requires p < |slots|
  {
    if n > 0 && GrowthCost(s.mem, x.pt, x.sz, n) > |s.free| then slots' == slots && Grow(s, s', x.pt)
    else slots' == slots[p := Some(x.(sz := SzAfter(x.sz, n)))] && Resized(s, s', x.pt, x.sz, SzAfter(x.sz, n))
  }

  /** The memory of process x is replaced by y: a new tree with the image and the
      arguments, the same trapframe page with the new registers. */
  ghost predicate Replaced(lab: Lab, s: Snap, s': Snap, x: Memory, y: Memory, ip: Inode, argv: seq<seq<byte>>)
    requires ElfOk(ip)
  {
    && y.orig == x.orig && y.tf == x.tf && y.sz == FinalSize(ip)
    && Started(lab, s', y.pt, y.sz, ip, argv) && Swapped(s, s', x.pt, y.pt, x.tf)
    && x.tf < |s.mem| == |s'.mem| && IsPage(s.mem[x.tf])
    && s'.mem[x.tf] == ExecTrapframe(s.mem[x.tf], ip.elf.value.entry, VecTop(argv, y.sz))
    && Registers(s.mem[x.tf].bytes, s'.mem[x.tf].bytes, ip.elf.value.entry, VecTop(argv, y.sz))
  }

  ghost predicate Execed(lab: Lab, s: Snap, s': Snap, slots: seq<Option<Memory>>, slots': seq<Option<Memory>>, p: nat,
                         x: Memory, ip: Inode, argv: seq<seq<byte>>)
    requires p < |slots|
  {
    if ExecWorks(lab, s, ip, argv) then
      && |slots'| == |slots| && slots'[p].Some? && slots' == slots[p := slots'[p]]
      && Replaced(lab, s, s', x, slots'[p].value, ip, argv)
    else slots' == slots && Conserved(s, s')
  }

  /** The bytes up to the first inaccessible address were written. */
  ghost predicate WroteUpTo(s: Snap, s': Snap, r: nat, dst: nat, data: seq<byte>, done: nat) {
    && done <= |data| && Wrote(s, s', r, dst, data[..done])
    && (done < |data| ==> UByte(s.mem, r, dst + done) == None)
    && (forall a :: dst <= a < dst + done ==> UByte(s.mem, r, a).Some?)
  }

  /** User mode may write the byte at address a. */
  predicate MayWrite(m: seq<Frame>, r: nat, a: nat) {
    && a < MAXVA && Lookup(m, r, a / PGSIZE).Some?
    && Lookup(m, r, a / PGSIZE).value.flags.u && Lookup(m, r, a / PGSIZE).value.flags.w
  }

  /** copyout tests PTE_U and not PTE_W: it writes a byte that the process itself may not
      write exactly when the range written meets the system-call data page. */
  lemma WritesReadOnly(lab: Lab, s: Snap, s': Snap, tr: nat, slots: seq<Option<Memory>>, p: nat, dst: nat,
                       data: seq<byte>, done: nat)
    requires Complete(lab, s, tr, slots) && Live(slots, p) && WroteUpTo(s, s', slots[p].value.pt, dst, data, done)
    ensures (exists a :: dst <= a < dst + done && !MayWrite(s.mem, slots[p].value.pt, a)) <==>
              lab.usys && 0 < done && dst < USYSCALL + PGSIZE && USYSCALL < dst + done
  {
    hide Inv, Complete, Whole, SlotOk, ProcSpace, Wrote, UByte, MayWrite, MapOk;
    var r := slots[p].value.pt;
    SlotAt(lab, s, tr, slots, p);
    forall a | dst <= a < dst + done ensures MayWrite(s.mem, r, a) <==> !(USYSCALL <= a < USYSCALL + PGSIZE) {
      ReadOnlyPage(lab, s, r, Pages(slots[p].value.sz), tr, slots[p].value.tf, a);
    }
    if 0 < done && dst < USYSCALL + PGSIZE && USYSCALL < dst + done {
      var a := if dst < USYSCALL then USYSCALL else dst;
      assert !MayWrite(s.mem, r, a);
      ReadOnlyPage(lab, s, r, Pages(slots[p].value.sz), tr, slots[p].value.tf, a);
    }
    if a :| dst <= a < dst + done && !MayWrite(s.mem, r, a) {
      ReadOnlyPage(lab, s, r, Pages(slots[p].value.sz), tr, slots[p].value.tf, a);
    }
  }

  lemma ReadOnlyPage(lab: Lab, s: Snap, r: nat, n: nat, tr: nat, tf: nat, a: nat)
    requires Inv(s) && ProcSpace(lab, s, r, n) && MapOk(s.mem, r, tr, tf) && UByte(s.mem, r, a).Some?
    ensures MayWrite(s.mem, r, a) <==> !(USYSCALL <= a < USYSCALL + PGSIZE)
    ensures USYSCALL <= a < USYSCALL + PGSIZE ==> lab.usys
  {
    ProcSpaceFacts(lab, s, r, n);
    UByteSome(s, r, a);
    var v := a / PGSIZE;
    assert v < USYSVPN ==> Writable(s.mem, r, v);
    hide Inv, Lookup, ProcSpace, UByte, Borrowed;
  }

  /** What a call that is not fatal does.  A call by or for a slot in the wrong state is ignored. */
  ghost predicate Served(lab: Lab, s: Snap, s': Snap, slots: seq<Option<Memory>>, slots': seq<Option<Memory>>,
                         c: Call)
  {
    if !Live(slots, c.p) then s' == s && slots' == slots else
    var x := slots[c.p].value;
    match c
    case Forks(p, child, _) =>
      if Vacant(slots, child) then Forked(lab, s, s', slots, slots', x, child) else s' == s && slots' == slots
    case Sbrk(p, n) => Grown(s, s', slots, slots', p, x, n)
    case Execs(p, ip, argv) => Execed(lab, s, s', slots, slots', p, x, ip, argv)
    case WritesUser(p, dst, data) => slots' == slots && exists done: nat :: WroteUpTo(s, s', x.pt, dst, data, done)
    case Reaped(p) => slots' == slots[p := None] && SlotFreed(s, s', x.orig, x.tf, x.pt)
  }

  // ---- the process table

  function View(lab: Lab, p: Proc): Option<Memory>
    reads p
  {
    if p.trapframe == 0 then None else Some(Memory(OrigOf(lab, p), p.trapframe, p.pagetable, p.sz))
  }

  ghost function Views(lab: Lab, table: seq<Proc>): (v: seq<Option<Memory>>)
    reads table
    ensures |v| == |table| && forall i :: 0 <= i < |v| ==> v[i] == View(lab, table[i])
  {
    seq(|table|, i requires 0 <= i < |table| reads table => View(lab, table[i]))
  }

  /** proc[]: different slots are different objects, and an unused one has no memory. */
  ghost predicate TableOk(table: seq<Proc>)
    reads table
  {
    && (forall i, j :: 0 <= i < j < |table| ==> table[i] != table[j])
    && forall i :: 0 <= i < |table| && table[i].trapframe == 0 ==> table[i].pagetable == 0 && table[i].sz == 0
  }

  lemma OneSlot(was: seq<Option<Memory>>, now: seq<Option<Memory>>, i: nat)
    requires i < |was| == |now| && forall j :: 0 <= j < |was| && j != i ==> now[j] == was[j]
    ensures now == was[i := now[i]]
  {
  }

  lemma SlotAt(lab: Lab, s: Snap, tr: nat, slots: seq<Option<Memory>>, i: nat)
    requires Complete(lab, s, tr, slots) && Live(slots, i)
    ensures Inv(s) && |s.own| < POOL32 && Whole(lab, s, tr, slots[i]) && tr < |s.own| && s.own[tr] == Kernel
    ensures var x := slots[i].value;
            && SlotOk(lab, s, x.orig, x.tf, x.pt, x.sz) && ProcSpace(lab, s, x.pt, Pages(x.sz)) && x.tf < |s.own|
            && s.own[x.tf] == Held
            && MapOk(s.mem, x.pt, tr, x.tf) && IsRoot(s, x.pt)
  {
    ProcSpaceFacts(lab, s, slots[i].value.pt, Pages(slots[i].value.sz));
  }

  // ---- one call

  method ServeReap(lab: Lab, k: Kmem, table: seq<Proc>, ghost tr: nat, p: nat)
    requires Complete(lab, k.G(), tr, Views(lab, table)) && TableOk(table) && Live(Views(lab, table), p)
    modifies k, k.mem, table
    ensures Complete(lab, k.G(), tr, Views(lab, table)) && TableOk(table)
            && Views(lab, table) == old(Views(lab, table))[p := None]
    ensures var x := old(Views(lab, table)[p].value); SlotFreed(old(k.G()), k.G(), x.orig, x.tf, x.pt)
  {
    hide Inv, Complete, ProcSpace, Local, SlotFreed, SlotOk, Whole, MapOk;
    ghost var s, slots := k.G(), Views(lab, table);
    SlotAt(lab, s, tr, slots, p);
    Freeproc(lab, k, table[p]);
    FreedLocal(lab, s, k.G(), tr, slots[p].value);
    OneSlot(slots, Views(lab, table), p);
    LocalKeeps(lab, s, k.G(), tr, slots, p, None);
  }

  method ServeSbrk(lab: Lab, k: Kmem, table: seq<Proc>, ghost tr: nat, p: nat, n: int)
    requires Complete(lab, k.G(), tr, Views(lab, table)) && TableOk(table) && Live(Views(lab, table), p)
             && -0x8000_0000 <= n < 0x8000_0000
    modifies k, k.mem, table
    ensures Complete(lab, k.G(), tr, Views(lab, table)) && TableOk(table)
    ensures Grown(old(k.G()), k.G(), old(Views(lab, table)), Views(lab, table), p, old(Views(lab, table)[p].value), n)
  {
    hide Inv, Complete, ProcSpace, Local, SlotOk, Whole, Resized, Grow, Isolated, MapOk, SzAfter, GrowthCost;
    ghost var s, slots := k.G(), Views(lab, table);
    SlotAt(lab, s, tr, slots, p);
    var r := Growproc(lab, k, table[p], n);
    if r == 0 {
      ResizedIsolated(s, k.G(), slots[p].value.pt, slots[p].value.sz, table[p].sz);
    } else {
      GrownIsolated(s, k.G(), slots[p].value.pt);
    }
    IsolatedLocal(lab, s, k.G(), tr, slots[p].value, table[p].sz);
    OneSlot(slots, Views(lab, table), p);
    LocalKeeps(lab, s, k.G(), tr, slots, p, View(lab, table[p]));
  }

  lemma ResizedIsolated(s: Snap, s': Snap, r: nat, sz: nat, sz2: nat)
    requires Resized(s, s', r, sz, sz2)
    ensures Isolated(s, s', r)
  {
    hide Lookup, Owns;
    if sz2 > sz {
      AddedFacts(s, s', r, Pages(sz), Pages(sz2) - Pages(sz));
    } else {
      UnmapIsolated(s, s', r, Pages(sz2), Pages(sz) - Pages(sz2));
    }
  }

  lemma GrownIsolated(s: Snap, s': Snap, r: nat)
    requires Inv(s) && Grow(s, s', r)
    ensures Isolated(s, s', r)
  {
    GrowIsolated(s, s', r);
  }

  method ServeWrite(lab: Lab, k: Kmem, table: seq<Proc>, ghost tr: nat, p: nat, dst: uint64, data: seq<byte>)
    requires Complete(lab, k.G(), tr, Views(lab, table)) && TableOk(table) && Live(Views(lab, table), p)
             && |data| < 0x1_0000_0000
    modifies k, k.mem, table
    ensures Complete(lab, k.G(), tr, Views(lab, table)) && TableOk(table) && Views(lab, table) == old(Views(lab, table))
    ensures exists done: nat :: WroteUpTo(old(k.G()), k.G(), old(Views(lab, table)[p].value.pt), dst, data, done)
  {
    hide Inv, Complete, ProcSpace, Local, SlotOk, Whole, Wrote, UByte, Isolated, MapOk;
    ghost var s, slots, done := k.G(), Views(lab, table), 0;
    SlotAt(lab, s, tr, slots, p);
    var r: int;
    r, done := Copyout(k, table[p].pagetable, dst, data);
    WroteIsolated(lab, s, k.G(), slots[p].value.pt, dst, data[..done], Pages(slots[p].value.sz), tr, slots[p].value.tf);
    IsolatedLocal(lab, s, k.G(), tr, slots[p].value, slots[p].value.sz);
    OneSlot(slots, Views(lab, table), p);
    LocalKeeps(lab, s, k.G(), tr, slots, p, slots[p]);
    assert WroteUpTo(s, k.G(), slots[p].value.pt, dst, data, done);
  }

  lemma WroteIsolated(lab: Lab, s: Snap, s': Snap, r: nat, dst: nat, data: seq<byte>, n: nat, tr: nat, tf: nat)
    requires Inv(s) && ProcSpace(lab, s, r, n) && Wrote(s, s', r, dst, data) && MapOk(s.mem, r, tr, tf)
    ensures Isolated(s, s', r) && ProcSpace(lab, s', r, n) && MapOk(s'.mem, r, tr, tf)
  {
    hide UByte, Lookup;
    SameOwners(lab, s, s', r, n);
    ProcSpaceFacts(lab, s, r, n);
    MapSame(s.mem, s'.mem, r, tr, tf);
  }

  method ServeExec(lab: Lab, k: Kmem, table: seq<Proc>, tr: nat, p: nat, ip: Inode, argv: seq<seq<byte>>)
    returns (dead: bool)
    requires Complete(lab, k.G(), tr, Views(lab, table)) && TableOk(table) && Live(Views(lab, table), p)
    requires forall o, n :: |ip.readi(o, n)| <= n
    requires forall i :: 0 <= i < |argv| ==> |argv[i]| < 0x7FFF_FFFF
    modifies k, k.mem, table
    ensures dead <==> ElfOk(ip) && ((lab.usys && |old(k.free)| == 3) || ExecSmash(lab, old(k.G()), ip, argv))
    ensures !dead ==> Complete(lab, k.G(), tr, Views(lab, table)) && TableOk(table)
    ensures !dead ==>
              Execed(lab, old(k.G()), k.G(), old(Views(lab, table)), Views(lab, table), p,
                     old(Views(lab, table)[p].value), ip, argv)
  {
    hide Inv, Complete, ProcSpace, Local, SlotOk, Whole, Conserved, Started, Swapped, Loadable, Fits, ArgsFit,
         ArgsSmash, ExecTrapframe, Registers, FinalSize, MapOk;
    ghost var s, slots := k.G(), Views(lab, table);
    SlotAt(lab, s, tr, slots, p);
    var r := Exec.Exec(lab, k, table[p], ip, argv, tr);
    if r.Crash? || r.Smash? { return true; }
    if r.Bad? {
      ConservedLocal(lab, s, k.G(), tr, slots[p]);
    } else {
      StartedRoot(lab, k.G(), table[p].pagetable, table[p].sz, ip, argv);
      SwappedLocal(lab, s, k.G(), tr, slots[p].value, table[p].pagetable, table[p].sz);
    }
    OneSlot(slots, Views(lab, table), p);
    LocalKeeps(lab, s, k.G(), tr, slots, p, View(lab, table[p]));
    return false;
  }

  lemma StartedRoot(lab: Lab, s: Snap, r: nat, sz: nat, ip: Inode, argv: seq<seq<byte>>)
    requires Inv(s) && ElfOk(ip) && Started(lab, s, r, sz, ip, argv)
    ensures ProcSpace(lab, s, r, Pages(sz)) && r != 0
  {
    ProcSpaceFacts(lab, s, r, Pages(sz));
  }

  method ServeFork(lab: Lab, k: Kmem, table: seq<Proc>, tr: nat, p: nat, child: nat, pid: nat) returns (dead: bool)
    requires Complete(lab, k.G(), tr, Views(lab, table)) && TableOk(table) && Live(Views(lab, table), p)
             && Vacant(Views(lab, table), child)
    modifies k, k.mem, table
    ensures dead <==> lab.usys && |old(k.free)| == ProcCost(lab) - 1
    ensures !dead ==> Complete(lab, k.G(), tr, Views(lab, table)) && TableOk(table)
    ensures !dead ==>
              Forked(lab, old(k.G()), k.G(), old(Views(lab, table)), Views(lab, table), old(Views(lab, table)[p].value),
                     child)
  {
    hide Inv, Complete, ProcSpace, Local, SlotOk, Whole, Conserved, NewProc, CopyOf, MapOk, TreeCost;
    ghost var s, slots := k.G(), Views(lab, table);
    SlotAt(lab, s, tr, slots, p);
    var r := Fork(lab, k, table[p], table[child], tr, pid);
    if r.Crashed? { return true; }
    NoneWhole(lab, s, tr);
    if r.Failed? {
      ConservedLocal(lab, s, k.G(), tr, None);
    } else {
      var np := table[child];
      NewLocal(lab, s, k.G(), tr, OrigOf(lab, np), np.trapframe, np.pagetable, np.sz);
      NewNonzero(lab, s, k.G(), OrigOf(lab, np), np.trapframe, np.pagetable, np.sz);
    }
    OneSlot(slots, Views(lab, table), child);
    LocalKeeps(lab, s, k.G(), tr, slots, child, View(lab, table[child]));
    return false;
  }

  lemma NoneWhole(lab: Lab, s: Snap, tr: nat)
    ensures Whole(lab, s, tr, None)
  {
  }

  lemma NewNonzero(lab: Lab, s: Snap, s': Snap, orig: nat, tf: nat, pt: nat, sz: nat)
    requires NewProc(lab, s, s', orig, tf, pt, sz)
    ensures tf != 0
  {
  }

  /** One call.  The kernel dies exactly of the fatal ones; any other call has its effect
      and leaves frames and processes matched. */
  method Serve(lab: Lab, k: Kmem, table: seq<Proc>, tr: nat, c: Call) returns (dead: bool)
    requires Complete(lab, k.G(), tr, Views(lab, table)) && TableOk(table) && Sensible(c) && ReadsBounded(c)
    modifies k, k.mem, table
    ensures dead <==> Fatal(lab, old(k.G()), old(Views(lab, table)), c)
    ensures !dead ==> Complete(lab, k.G(), tr, Views(lab, table)) && TableOk(table)
    ensures !dead ==> Served(lab, old(k.G()), k.G(), old(Views(lab, table)), Views(lab, table), c)
  {
    hide Inv, Complete, Forked, Grown, Execed, WroteUpTo, SlotFreed, ExecSmash;
    if c.p >= |table| || table[c.p].trapframe == 0 { return false; }
    dead := false;
    match c
    case Forks(p, child, pid) =>
      if child < |table| && table[child].trapframe == 0 {
        dead := ServeFork(lab, k, table, tr, p, child, pid);
      }
    case Sbrk(p, n) => ServeSbrk(lab, k, table, tr, p, n);
    case Execs(p, ip, argv) => dead := ServeExec(lab, k, table, tr, p, ip, argv);
    case WritesUser(p, dst, data) => ServeWrite(lab, k, table, tr, p, dst, data);
    case Reaped(p) => ServeReap(lab, k, table, tr, p);
  }

  // ---- start-up

  const INITCODE: seq<byte> := [
    0x17, 0x05, 0x00, 0x00, 0x13, 0x05, 0x45, 0x02, 0x97, 0x05, 0x00, 0x00, 0x93, 0x85, 0x35, 0x02, 0x93, 0x08,
    0x70, 0x00, 0x73, 0x00, 0x00, 0x00, 0x93, 0x08, 0x20, 0x00, 0x73, 0x00, 0x00, 0x00, 0xef, 0xf0, 0x9f, 0xff,
    0x2f, 0x69, 0x6e, 0x69, 0x74, 0x00, 0x00, 0x24, 0x00, 0x00, 0x00, 0x00, 0x00, 0x00, 0x00, 0x00]

  /** How userinit ends: the first process is complete; or its page 0 was taken but not
      mapped, and is lost; or something was written to address 0; or allocproc's answer 0
      was used as a process. */
  datatype Booted = Up | Unmapped | ZeroWrite | NoProc

  /** What n free pages are enough for: three more than a process without user memory,
      for page 0 and its two page-table pages. */
  function BootOutcome(lab: Lab, n: nat): Booted {
    if n >= ProcCost(lab) + 3 then Up
    else if n > ProcCost(lab) then Unmapped
    else if n == ProcCost(lab) || (lab.usys && n == ProcCost(lab) - 1) then ZeroWrite
    else NoProc
  }

  /** User code finds the init code at address 0, may execute it, and finds zeros up to the end of the page. */
  ghost predicate StartsInit(m: seq<Frame>, r: nat) {
    && UserRwx(m, r, 0)
    && forall a: nat :: a < 4096 ==> UByte(m, r, a) == Some(if a < 52 then INITCODE[a] else 0)
  }

  /** epc is 0 and sp the top of page 0 in the bytes of a trapframe page. */
  predicate StartsAtZero(b: seq<byte>) { |b| == 4096 && Number(b[24..32]) == 0 && Number(b[48..56]) == 4096 }

  /** userinit's two writes to a trapframe page. */
  function InitTrapframe(x: Frame): (y: Frame)
    requires IsPage(x)
    ensures IsPage(y)
  {
    Page(Patched(Patched(x.bytes, 24, Le(0, 8)), 48, Le(PGSIZE, 8)))
  }

  lemma InitRegisters(x: Frame)
    requires IsPage(x)
    ensures StartsAtZero(InitTrapframe(x).bytes)
  {
    EightBytes();
    NumberLe(0, 8);
    NumberLe(4096, 8);
    var b := Patched(x.bytes, 24, Le(0, 8));
    var c := Patched(b, 48, Le(PGSIZE, 8));
    assert InitTrapframe(x) == Page(c);
    hide Le, Number, Pow256, InitTrapframe, Patched;
    assert c[48..56] == Le(4096, 8) && c[24..32] == b[24..32] == Le(0, 8);
  }

  /** userinit for an unused slot p: allocproc and uvminit, whose results it does not test. */
  method Userinit(lab: Lab, k: Kmem, p: Proc, tr: nat) returns (b: Booted)
    requires Inv(k.G()) && tr < |k.own| && k.own[tr] == Kernel && View(lab, p) == None && p.pagetable == 0 && p.sz == 0
    modifies k, k.mem, p
    ensures b == BootOutcome(lab, |old(k.free)|)
    ensures b.Up? ==> Local(lab, old(k.G()), k.G(), tr, None, View(lab, p)) && View(lab, p).Some?
    ensures b.Up? ==> |k.free| == |old(k.free)| - ProcCost(lab) - 3
    ensures b.Up? ==>
              p.pid == 1 && p.sz == PGSIZE && PageIs(k.G(), p.pagetable, 0, USERFLAGS.(v := true), InitPage(INITCODE))
    ensures b.Up? ==> StartsInit(k.mem[..], p.pagetable)
    ensures b.Up? ==> p.trapframe < |k.mem[..]| && k.mem[p.trapframe].Page? && StartsAtZero(k.mem[p.trapframe].bytes)
    ensures b.Unmapped? ==>
              && p.sz == PGSIZE && Lookup(k.mem[..], p.pagetable, 0) == None
              && exists f :: 0 <= f < |k.own| && k.own[f] == Held && !Belongs(k.G(), f, View(lab, p))
  {
    hide Inv, Local, NewProc, ProcSpace, MapOk, Tidy, Added, PageIs, Laid, SameMaps, Lookup, Missing, INITCODE,
         StartsInit, StartsAtZero, InitTrapframe;
    ghost var s0 := k.G();
    var r := Allocproc(lab, k, p, tr, 1);
    if r.Failed? { return NoProc; }
    if r.Crashed? { return ZeroWrite; }
    ghost var s1 := k.G();
    FirstTree(lab, s0, s1, OrigOf(lab, p), p.trapframe, p.pagetable);
    InitSize();
    var i, page := Uvminit(k, p.pagetable, INITCODE);
    p.sz := PGSIZE;
    if i.NullMem? { return ZeroWrite; }
    ghost var s2, tf := k.G(), p.trapframe;
    FirstHeld(lab, s0, s1, s2, OrigOf(lab, p), tf, p.pagetable);
    ghost var x := InitTrapframe(s2.mem[tf]);
    HeldKept(s2, tf, x, p.pagetable);
    InitRegisters(s2.mem[tf]);
    k.mem[p.trapframe] := InitTrapframe(k.mem[p.trapframe]);
    assert k.G() == WithFrame(s2, tf, x);
    if i.Lost? {
      PageLost(lab, s0, s1, s2, OrigOf(lab, p), tf, p.pagetable, page);
      assert !Belongs(k.G(), page, View(lab, p));
      return Unmapped;
    }
    FirstProcess(lab, s0, s1, s2, tr, OrigOf(lab, p), tf, p.pagetable);
    HeldLocal(lab, s0, s2, tr, View(lab, p).value, x);
    FirstPage(s2, tf, x, p.pagetable);
    FirstCode(k.G(), p.pagetable);
    return Up;
  }

  /** The trapframe page is there, with or without page 0. */
  lemma FirstHeld(lab: Lab, s0: Snap, s1: Snap, s2: Snap, orig: nat, tf: nat, pt: nat)
    requires NewProc(lab, s0, s1, orig, tf, pt, 0) && Inv(s2) && IsRoot(s1, pt)
    requires || Added(s1, s2, pt, 0, 1)
             || (SameMaps(s1, s2) && |s2.own| == |s1.own|
                && forall f :: 0 <= f < |s1.own| && (s1.own[f] == Held || s1.own[f].Tab?) ==> s2.own[f] == s1.own[f])
    ensures tf < |s2.own| == |s2.mem| && s2.own[tf] == Held && IsPage(s2.mem[tf]) && IsRoot(s2, pt)
  {
    hide Lookup, ProcSpace, EntryOk;
    assert s2.own[tf] == Held && s2.own[pt] == s1.own[pt];
    assert FrameOk(s2, tf);
  }

  /** Writing it changes no map. */
  lemma HeldKept(s: Snap, c: nat, x: Frame, r: nat)
    requires Inv(s) && c < |s.own| == |s.mem| && s.own[c] == Held && IsPage(x) && IsRoot(s, r)
    ensures var s' := WithFrame(s, c, x);
            Inv(s') && SameMaps(s, s') && IsRoot(s', r) && Lookup(s'.mem, r, 0) == Lookup(s.mem, r, 0)
  {
    WriteKeeps(s, c, x);
    hide Lookup, Inv;
  }

  lemma HeldLocal(lab: Lab, s0: Snap, s2: Snap, tr: nat, y: Memory, x: Frame)
    requires Local(lab, s0, s2, tr, None, Some(y)) && IsPage(x)
    requires y.tf < |s2.mem| && SameMaps(s2, WithFrame(s2, y.tf, x)) && Inv(WithFrame(s2, y.tf, x))
    ensures Local(lab, s0, WithFrame(s2, y.tf, x), tr, None, Some(y))
  {
    hide Inv, ProcSpace, MapOk, Lookup;
    ProcSpaceFacts(lab, s2, y.pt, Pages(y.sz));
    SameOwners(lab, s2, WithFrame(s2, y.tf, x), y.pt, Pages(y.sz));
    MapSame(s2.mem, WithFrame(s2, y.tf, x).mem, y.pt, tr, y.tf);
  }

  lemma FirstPage(s: Snap, c: nat, x: Frame, r: nat)
    requires Inv(s) && IsRoot(s, r) && c < |s.mem| == |s.own| && s.own[c] == Held && SameMaps(s, WithFrame(s, c, x))
    requires PageIs(s, r, 0, USERFLAGS.(v := true), InitPage(INITCODE))
    ensures PageIs(WithFrame(s, c, x), r, 0, USERFLAGS.(v := true), InitPage(INITCODE))
  {
    LookupOwner(s, r, 0);
    hide Inv, Lookup, InitPage, INITCODE;
    assert Lookup(WithFrame(s, c, x).mem, r, 0) == Lookup(s.mem, r, 0);
  }

  lemma InitSize()
    ensures |INITCODE| == 52
  {
  }

  /** kinit, an empty process table and userinit: in the traps and the page-table lab the
      first process needs eight pages beyond the kernel. */
  method Boot(lab: Lab, end: nat, pages: nat, tr: nat, nproc: nat) returns (k: Kmem, table: seq<Proc>, b: Booted)
    requires 0 < Pages(end) <= pages < POOL32 && tr < Pages(end) && 0 < nproc
    ensures fresh(k) && fresh(k.mem) && fresh(table) && |table| == nproc
    ensures b == BootOutcome(lab, pages - Pages(end))
    ensures var n := pages - Pages(end); lab == TRAPS_LAB ==>
              b == if n >= 8 then Up else if n >= 6 then Unmapped else if n == 5 then ZeroWrite else NoProc
    ensures var n := pages - Pages(end); lab == PGTBL_LAB ==>
              b == if n >= 8 then Up else if n >= 6 then Unmapped else if n >= 4 then ZeroWrite else NoProc
    ensures b.Up? ==> Complete(lab, k.G(), tr, Views(lab, table)) && TableOk(table)
    ensures b.Up? ==> |k.free| == pages - Pages(end) - ProcCost(lab) - 3
    ensures b.Up? ==>
              table[0].pid == 1 && table[0].sz == PGSIZE && forall i :: 0 <= i < nproc ==>
                (Live(Views(lab, table), i) <==> i == 0)
    ensures b.Up? ==>
              && StartsInit(k.mem[..], table[0].pagetable) && table[0].trapframe < |k.mem[..]|
              && k.mem[table[0].trapframe].Page? && StartsAtZero(k.mem[table[0].trapframe].bytes)
    ensures b.Up? ==> PageIs(k.G(), table[0].pagetable, 0, USERFLAGS.(v := true), InitPage(INITCODE))
    ensures b.Unmapped? ==>
              && table[0].sz == PGSIZE && Lookup(k.mem[..], table[0].pagetable, 0) == None
              && exists f :: 0 <= f < |k.own| && k.own[f] == Held && !Belongs(k.G(), f, View(lab, table[0]))
  {
    hide Inv, Local, Complete, Belongs, PageIs, Lookup, INITCODE, StartsInit, StartsAtZero, InitPage, FreeListOk,
         IsPage;
    k := Kinit(end, pages);
    table := Procinit(nproc);
    ghost var s0, slots := k.G(), Views(lab, table);
    Empty(lab, s0, tr, slots);
    b := Userinit(lab, k, table[0], tr);
    if b.Up? {
      OneSlot(slots, Views(lab, table), 0);
      LocalKeeps(lab, s0, k.G(), tr, slots, 0, View(lab, table[0]));
    }
  }

  lemma FirstTree(lab: Lab, s0: Snap, s1: Snap, orig: nat, tf: nat, pt: nat)
    requires NewProc(lab, s0, s1, orig, tf, pt, 0) && Tidy(s1.mem, pt, 0)
    ensures Inv(s1) && IsRoot(s1, pt) && Lookup(s1.mem, pt, 0) == None && Missing(s1.mem, pt, 0) == 2
  {
    ProcSpaceFacts(lab, s1, pt, 0);
    assert !Covers(0, 0, 0, 0) && !Covers(0, 0, 0, 1);
  }

  lemma PageLost(lab: Lab, s0: Snap, s1: Snap, s2: Snap, orig: nat, tf: nat, pt: nat, c: nat)
    requires NewProc(lab, s0, s1, orig, tf, pt, 0) && IsRoot(s1, pt) && SameMaps(s1, s2)
             && Lookup(s1.mem, pt, 0) == None
    requires c < |s1.own| == |s2.own| && s1.own[c] == Free && s2.own[c] == Held
    ensures Lookup(s2.mem, pt, 0) == None && !Slots(s2.own[c], c, orig, tf, pt)
  {
    hide Lookup, Inv, ProcSpace;
  }

  lemma FirstProcess(lab: Lab, s0: Snap, s1: Snap, s2: Snap, tr: nat, orig: nat, tf: nat, pt: nat)
    requires Inv(s0) && NewProc(lab, s0, s1, orig, tf, pt, 0) && Added(s1, s2, pt, 0, 1) && Inv(s2)
             && MapOk(s1.mem, pt, tr, tf)
    requires PageIs(s2, pt, 0, USERFLAGS.(v := true), InitPage(INITCODE))
    ensures Local(lab, s0, s2, tr, None, Some(Memory(orig, tf, pt, PGSIZE))) && tf != 0
  {
    hide Inv, ProcSpace, Lookup, MapOk, Added;
    NewProcFacts(lab, s0, s1, orig, tf, pt, 0);
    NewProcAdded(lab, s0, s1, s2, orig, tf, pt, 1, PGSIZE);
    FirstRights(s2, pt);
    MapAdds(s1, s2, pt, 0, 1, tr, tf);
    NewLocal(lab, s0, s2, tr, orig, tf, pt, PGSIZE);
  }

  lemma FirstCode(s: Snap, r: nat)
    requires Inv(s) && IsRoot(s, r) && PageIs(s, r, 0, USERFLAGS.(v := true), InitPage(INITCODE))
    ensures StartsInit(s.mem, r)
  {
    InitSize();
    hide Inv, PageIs, UByte, UserRwx, INITCODE;
    InitPageSeen(s, r, INITCODE);
  }

  lemma FirstRights(s: Snap, r: nat)
    requires PageIs(s, r, 0, USERFLAGS.(v := true), InitPage(INITCODE))
    ensures NewRights(s.mem, r, 0, 1)
  {
    hide Lookup, InitPage, INITCODE;
  }

  method Procinit(nproc: nat) returns (table: seq<Proc>)
    ensures fresh(table) && |table| == nproc && TableOk(table) && forall i :: 0 <= i < nproc ==> table[i].trapframe == 0
  {
    table := [];
    while |table| < nproc
      invariant |table| <= nproc && fresh(table) && TableOk(table)
      invariant forall i :: 0 <= i < |table| ==> table[i].trapframe == 0
    {
      var p := new Proc();
      table := table + [p];
    }
  }

  lemma Empty(lab: Lab, s: Snap, tr: nat, slots: seq<Option<Memory>>)
    requires Inv(s) && (forall f :: 0 <= f < |s.own| ==> s.own[f] == Kernel || s.own[f] == Free)
    requires |s.own| < POOL32 && tr < |s.own| && s.own[tr] == Kernel && forall i :: 0 <= i < |slots| ==>
               slots[i] == None
    ensures Complete(lab, s, tr, slots)
  {
  }

  // ---- all calls

  /** Memory and processes between two calls. */
  datatype State = State(s: Snap, slots: seq<Option<Memory>>)

  /** The states that a sequence of calls passes through, up to its end or its first fatal call. */
  ghost predicate Trace(lab: Lab, tr: nat, states: seq<State>, calls: seq<Call>) {
    && 0 < |states| <= |calls| + 1
    && (forall i :: 0 <= i < |states| ==> Complete(lab, states[i].s, tr, states[i].slots))
    && (forall i :: 0 <= i < |states| - 1 ==> CallStep(lab, states[i], states[i + 1], calls[i]))
  }

  ghost predicate CallStep(lab: Lab, a: State, b: State, c: Call) {
    !Fatal(lab, a.s, a.slots, c) && Served(lab, a.s, b.s, a.slots, b.slots, c)
  }

  /** Any history, from any state in which frames and processes match up: every call
      before the end had exactly its effect, and the kernel is dead exactly if the
      history came to a fatal call. */
  method History(lab: Lab, k: Kmem, table: seq<Proc>, tr: nat, calls: seq<Call>)
    returns (dead: bool, ghost states: seq<State>)
    requires Complete(lab, k.G(), tr, Views(lab, table)) && TableOk(table)
    requires forall i :: 0 <= i < |calls| ==> Sensible(calls[i]) && ReadsBounded(calls[i])
    modifies k, k.mem, table
    ensures Trace(lab, tr, states, calls) && states[0] == State(old(k.G()), old(Views(lab, table)))
    ensures dead <==> |states| <= |calls|
    ensures dead ==> var last := states[|states| - 1]; Fatal(lab, last.s, last.slots, calls[|states| - 1])
    ensures !dead ==> states[|calls|] == State(k.G(), Views(lab, table)) && TableOk(table)
  {
    hide Inv, Complete, Served, Fatal;
    dead, states := false, [State(k.G(), Views(lab, table))];
    for i := 0 to |calls|
      invariant Trace(lab, tr, states, calls) && states[0] == State(old(k.G()), old(Views(lab, table)))
      invariant !dead ==> |states| == i + 1 && states[i] == State(k.G(), Views(lab, table)) && TableOk(table)
      invariant dead ==> |states| <= i && var last := states[|states| - 1];
                Fatal(lab, last.s, last.slots, calls[|states| - 1])
    {
      if !dead {
        dead := Serve(lab, k, table, tr, calls[i]);
        if !dead { states := states + [State(k.G(), Views(lab, table))]; }
      }
    }
  }

  /** In every state of every history no frame is lost: once no process is left, all memory
      beyond the kernel is free. */
  lemma AllComesBack(lab: Lab, tr: nat, states: seq<State>, calls: seq<Call>, i: nat)
    requires Trace(lab, tr, states, calls) && i < |states| && forall p :: 0 <= p < |states[i].slots| ==>
               states[i].slots[p] == None
    ensures |states[i].s.free| == |states[i].s.own| - states[i].s.lo
  {
    NothingLost(lab, states[i].s, tr, states[i].slots);
  }
}
