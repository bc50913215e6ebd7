/** The pages of allocproc, freeproc and fork in each of the lab kernels: on every path
    out of memory all frames come back, and the traps lab's pointer originalTrapframe,
    which freeproc leaves dangling, is never freed twice. */
module ProcAlloc {
  import opened Types
  import opened Riscv
  import opened Phys
  import opened PhysUpdate
  import opened Kalloc
  import opened Tables
  import opened Vm
  import opened UserVm
  import opened Freewalk
  import opened CopyUser
  import opened ProcMem

  /** The second trapframe page, 0 in a kernel that has none. */
  function OrigOf(lab: Lab, p: Proc): nat
    reads p
  {
    if lab.orig then p.originalTrapframe else 0
  }

  /** What the fields of a slot may be when freeproc is called: each is 0 or a page
      that only this process holds. */
  ghost predicate SlotOk(lab: Lab, s: Snap, orig: nat, tf: nat, pt: nat, sz: nat) {
    && (orig != 0 ==> orig < |s.own| && s.own[orig] == Held)
    && (tf != 0 ==> tf < |s.own| && s.own[tf] == Held && tf != orig)
    && (pt != 0 ==> ProcSpace(lab, s, pt, Pages(sz)))
  }

  /** The frames of such a slot. */
  ghost predicate Slots(o: Owner, f: nat, orig: nat, tf: nat, pt: nat) {
    (orig != 0 && f == orig) || (tf != 0 && f == tf) || (pt != 0 && Of(o, pt))
  }

  /** Exactly the frames of the slot were freed; frames still in use kept their contents. */
  ghost predicate SlotFreed(s: Snap, s': Snap, orig: nat, tf: nat, pt: nat) {
    && |s'.own| == |s.own| == |s.mem| == |s'.mem| && s'.lo == s.lo
    && (forall f :: 0 <= f < |s.own| ==> s'.own[f] == if Slots(s.own[f], f, orig, tf, pt) then Free else s.own[f])
    && (forall f :: 0 <= f < |s.own| && s'.own[f] != Free ==> s'.mem[f] == s.mem[f])
  }

  /** kfree of a held page leaves address spaces alone. */
  lemma PushSpace(lab: Lab, s: Snap, c: nat, r: nat, n: nat)
    requires Inv(s) && c < |s.own| && s.own[c] == Held && ProcSpace(lab, s, r, n)
    ensures ProcSpace(lab, Pushed(s, c), r, n)
  {
    PushKeeps(s, c);
    OtherOwners(lab, s, Pushed(s, c), r, n);
  }

  /** An address space is the same when the maps are and no user frame changed owner. */
  lemma OtherOwners(lab: Lab, s: Snap, s': Snap, r: nat, n: nat)
    requires Inv(s) && ProcSpace(lab, s, r, n) && SameMaps(s, s') && |s'.own| == |s.own|
    requires forall f :: 0 <= f < |s.own| && (s.own[f].User? || s.own[f].Tab? || s'.own[f].User?) ==>
               s'.own[f] == s.own[f]
    ensures ProcSpace(lab, s', r, n)
  {
    hide Inv, ProcSpace, TableAt, Lookup;
    ProcSpaceFacts(lab, s, r, n);
    BorrowedKeeps(s, s', r, TRAMPVPN);
    BorrowedKeeps(s, s', r, TRAPVPN);
    forall v | 0 <= v < n ensures Owns(s', r, v) {
      assert Owns(s, r, v);
    }
    ProcSpaceIs(lab, s', r, n);
  }

  /** One of freeproc's `if(page) kfree(page)`, with the rest of the slot still in place. */
  method FreePage(lab: Lab, k: Kmem, page: nat, ghost pt: nat, ghost n: nat)
    requires Inv(k.G()) && (page != 0 ==> page < |k.own| && k.own[page] == Held)
             && (pt != 0 ==> ProcSpace(lab, k.G(), pt, n))
    modifies k, k.mem
    ensures Inv(k.G()) && (pt != 0 ==> ProcSpace(lab, k.G(), pt, n))
    ensures SlotFreed(old(k.G()), k.G(), page, 0, 0)
  {
    hide Inv, ProcSpace;
    ghost var s := k.G();
    InvSizes(s);
    if page != 0 {
      HeldInPool(s, page);
      PushKeeps(s, page);
      if pt != 0 { PushSpace(lab, s, page, pt, n); }
      k.Kfree(page);
    }
  }

  lemma InvSizes(s: Snap)
    requires Inv(s)
    ensures |s.own| == |s.mem|
  {
  }

  /** The kfrees and proc_freepagetable of freeproc, in the code's order. */
  method Freeproc(lab: Lab, k: Kmem, p: Proc)
    requires Inv(k.G()) && SlotOk(lab, k.G(), OrigOf(lab, p), p.trapframe, p.pagetable, p.sz)
    modifies k, k.mem, p
    ensures Inv(k.G())
    ensures SlotFreed(old(k.G()), k.G(), old(OrigOf(lab, p)), old(p.trapframe), old(p.pagetable))
    ensures p.originalTrapframe == old(p.originalTrapframe)  // left dangling
    ensures p.trapframe == 0 && p.pagetable == 0 && p.sz == 0 && p.pid == 0
  {
    hide Inv, ProcSpace, Gone, SlotFreed;
    ghost var s0, orig, tf := k.G(), OrigOf(lab, p), p.trapframe;
    NoneFreed(s0);
    if lab.orig {
      FreePage(lab, k, p.originalTrapframe, p.pagetable, Pages(p.sz));
    }
    ghost var s1 := k.G();
    StillHeld(s0, s1, orig, tf);
    FreePage(lab, k, p.trapframe, p.pagetable, Pages(p.sz));
    p.trapframe := 0;
    ghost var s2 := k.G();
    if p.pagetable != 0 {
      ProcFreepagetable(lab, k, p.pagetable, p.sz);
    }
    FreedAll(s0, s1, s2, k.G(), orig, tf, p.pagetable);
    p.pagetable := 0;
    p.sz := 0;
    p.pid := 0;
  }

  lemma NoneFreed(s: Snap)
    requires Inv(s)
    ensures SlotFreed(s, s, 0, 0, 0)
  {
  }

  lemma StillHeld(s: Snap, s1: Snap, orig: nat, tf: nat)
    requires SlotFreed(s, s1, orig, 0, 0) && (tf != 0 ==> tf < |s.own| && s.own[tf] == Held && tf != orig)
    ensures tf != 0 ==> tf < |s1.own| && s1.own[tf] == Held
  {
  }

  lemma HeldInPool(s: Snap, c: nat)
    requires Inv(s) && c < |s.own| && s.own[c] == Held
    ensures FreeListOk(s) && s.lo <= c < |s.mem|
  {
  }

  lemma FreedAll(s0: Snap, s1: Snap, s2: Snap, s3: Snap, orig: nat, tf: nat, pt: nat)
    requires SlotFreed(s0, s1, orig, 0, 0) && SlotFreed(s1, s2, tf, 0, 0)
    requires if pt != 0 then Gone(s2, s3, pt) else s3 == s2
    requires (orig != 0 ==> orig < |s0.own| && s0.own[orig] == Held)
             && (tf != 0 ==> tf < |s0.own| && s0.own[tf] == Held)
    ensures SlotFreed(s0, s3, orig, tf, pt)
  {
  }

  // ---- allocproc

  datatype Outcome = Done | Failed | Crashed

  /** Taking one page for a trapframe. */
  method TakePage(k: Kmem) returns (page: nat)
    requires Inv(k.G())
    modifies k, k.mem
    ensures Inv(k.G()) && |k.own| == |old(k.own)|
    ensures page == 0 <==> old(k.free) == []
    ensures page == 0 ==> k.G() == old(k.G())
    ensures page != 0 ==>
              && page < |k.own| && Taken(old(k.G()), k.G(), page) && |k.free| == |old(k.free)| - 1
  {
    ghost var s := k.G();
    page := k.Kalloc();
    if page != 0 {
      PopKeeps(s);
      assert page in s.free;
    }
  }

  /** A page taken and given back. */
  lemma TakenBack(s: Snap, s1: Snap, s2: Snap, c: nat)
    requires Taken(s, s1, c) && c != 0 && SlotFreed(s1, s2, c, 0, 0)
    ensures Conserved(s, s2)
  {
    assert s2.own == s.own;
  }

  /** The page c was taken, if it is one. */
  ghost predicate Took(s: Snap, s1: Snap, c: nat) { if c == 0 then s1 == s else Taken(s, s1, c) }

  lemma TookBack(s: Snap, s1: Snap, s2: Snap, c: nat)
    requires Inv(s) && Took(s, s1, c) && SlotFreed(s1, s2, c, 0, 0)
    ensures Conserved(s, s2)
  {
    hide Inv;
    InvSizes(s);
    if c == 0 { NothingFreed(s, s2); } else { TakenBack(s, s1, s2, c); }
  }

  lemma TookBackTwo(s: Snap, s1: Snap, s2: Snap, s3: Snap, s4: Snap, c: nat, d: nat)
    requires Took(s, s1, c) && Taken(s1, s2, d) && d != 0 && Conserved(s2, s3) && SlotFreed(s3, s4, c, d, 0)
    ensures Conserved(s, s4)
  {
    hide SameMaps;
    assert s4.own == s.own;
  }

  /** What a new process has: its trapframe pages and an address space without user
      memory, all made of frames that were free; nobody else's memory changed. */
  ghost predicate NewProc(lab: Lab, s: Snap, s': Snap, orig: nat, tf: nat, pt: nat, sz: nat) {
    && Inv(s') && SlotOk(lab, s', orig, tf, pt, sz) && (orig != 0 <==> lab.orig) && tf != 0 && pt != 0
    && |s'.own| == |s.own| == |s.mem| == |s'.mem| && s'.lo == s.lo
    && (forall f :: 0 <= f < |s.own| ==>
          if s.own[f] == Free then s'.own[f] == Free || Slots(s'.own[f], f, orig, tf, pt)
          else s'.own[f] == s.own[f] && s'.mem[f] == s.mem[f] && !Slots(s'.own[f], f, orig, tf, pt))
  }

  lemma NewProcIs(lab: Lab, s0: Snap, s1: Snap, s2: Snap, s3: Snap, orig: nat, tf: nat, pt: nat)
    requires Inv(s0) && Inv(s2) && Inv(s3) && Took(s0, s1, orig) && Taken(s1, s2, tf) && Isolated(s2, s3, pt)
             && ProcSpace(lab, s3, pt, 0)
    requires pt < |s2.own| && s2.own[pt] == Free && (orig != 0 <==> lab.orig) && tf != 0
    ensures NewProc(lab, s0, s3, orig, tf, pt, 0)
  {
    RootNotZero(lab, s3, pt);
    NobodyOf(s2, pt);
    InvSizes(s0);
    hide Inv, ProcSpace, SameMaps;
    TookTwo(s0, s1, s2, orig, tf);
    hide Taken;
    assert SlotOk(lab, s3, orig, tf, pt, 0);
  }

  lemma TookTwo(s0: Snap, s1: Snap, s2: Snap, orig: nat, tf: nat)
    requires |s0.own| == |s0.mem| && Took(s0, s1, orig) && Taken(s1, s2, tf) && tf != 0
    ensures |s2.own| == |s0.own| == |s0.mem| == |s2.mem| && s2.lo == s0.lo && tf < |s0.own| && orig != tf
    ensures (orig != 0 ==> orig < |s0.own| && s0.own[orig] == Free) && s0.own[tf] == Free
    ensures forall f :: 0 <= f < |s0.own| ==>
              s2.own[f] == if (orig != 0 && f == orig) || f == tf then Held else s0.own[f]
    ensures forall f :: 0 <= f < |s0.own| && !(orig != 0 && f == orig) && f != tf ==> s2.mem[f] == s0.mem[f]
  {
    hide SameMaps;
  }

  lemma RootNotZero(lab: Lab, s: Snap, r: nat)
    requires Inv(s) && ProcSpace(lab, s, r, 0)
    ensures r != 0 && IsRoot(s, r)
  {
    ProcSpaceFacts(lab, s, r, 0);
  }

  lemma NobodyOf(s: Snap, r: nat)
    requires Inv(s) && r < |s.own| && s.own[r] == Free
    ensures forall f :: 0 <= f < |s.own| ==> !Of(s.own[f], r)
  {
    forall f | 0 <= f < |s.own| ensures !Of(s.own[f], r) {
      if s.own[f].User? { UserIsMapped(s, f); }
      if s.own[f].Tab? { TabRoot(s, f); }
    }
  }

  /** The pages of allocproc: it succeeds exactly when those of a new process are free,
      and the page-table lab's crashes when one is missing.  The slot's originalTrapframe
      may be anything on entry, such as the page that the slot's last freeproc freed. */
  method Allocproc(lab: Lab, k: Kmem, p: Proc, trampoline: nat, pid: nat) returns (r: Outcome)
    requires Inv(k.G()) && trampoline < |k.own| && k.own[trampoline] == Kernel
    requires p.trapframe == 0 && p.pagetable == 0 && p.sz == 0
    modifies k, k.mem, p
    ensures Inv(k.G())
    ensures r.Done? <==> |old(k.free)| >= ProcCost(lab)
    ensures r.Crashed? <==> lab.usys && |old(k.free)| == ProcCost(lab) - 1
    ensures lab == TRAPS_LAB ==> !r.Crashed? && (r.Done? <==> |old(k.free)| >= 5)
    ensures lab == PGTBL_LAB ==> (r.Done? <==> |old(k.free)| >= 5) && (r.Crashed? <==> |old(k.free)| == 4)
    ensures r.Done? ==> p.sz == 0 && p.pid == pid
    ensures r.Done? ==> NewProc(lab, old(k.G()), k.G(), OrigOf(lab, p), p.trapframe, p.pagetable, 0)
    ensures r.Done? ==> MapOk(k.mem[..], p.pagetable, trampoline, p.trapframe)
    ensures r.Done? ==> |k.free| == |old(k.free)| - ProcCost(lab) && Tidy(k.mem[..], p.pagetable, 0)
    ensures r.Done? && lab.usys && pid < 0x1_0000_0000 ==> ShowsPid(k.mem[..], p.pagetable, pid)
    ensures r.Failed? ==>
              Conserved(old(k.G()), k.G()) && p.trapframe == 0 && p.pagetable == 0 && p.sz == 0 && p.pid == 0
  {
    hide ShowsPid, Inv, ProcSpace, Taken, Conserved, NewProc, Isolated, SlotFreed, PageIs, UsyscallPage, Tidy, MapOk;
    ghost var s0 := k.G();
    p.pid := pid;
    if lab.orig {
      p.originalTrapframe := TakePage(k);
      if p.originalTrapframe == 0 {
        Freeproc(lab, k, p);
        NothingFreed(s0, k.G());
        return Failed;
      }
    }
    ghost var s1, orig := k.G(), OrigOf(lab, p);
    TookHeld(s0, s1, orig);
    p.trapframe := TakePage(k);
    if p.trapframe == 0 {
      Freeproc(lab, k, p);
      TookBack(s0, s1, k.G(), orig);
      return Failed;
    }
    ghost var s2, tf := k.G(), p.trapframe;
    TookKernel(s0, s1, s2, orig, tf, trampoline);
    var b := ProcPagetable(lab, k, trampoline, p.trapframe, p.pid);
    if b.NullWrite? { return Crashed; }
    if b.NoMemory? {
      ghost var s3 := k.G();
      ConservedSlot(lab, s2, s3, orig, tf);
      Freeproc(lab, k, p);
      TookBackTwo(s0, s1, s2, s3, k.G(), orig, tf);
      return Failed;
    }
    p.pagetable := b.root;
    NewProcIs(lab, s0, s1, s2, k.G(), orig, tf, p.pagetable);
    return Done;
  }

  lemma NothingFreed(s: Snap, s': Snap)
    requires SlotFreed(s, s', 0, 0, 0)
    ensures Conserved(s, s')
  {
  }

  lemma TookHeld(s: Snap, s1: Snap, c: nat)
    requires Inv(s) && Took(s, s1, c)
    ensures |s1.own| == |s1.mem| && (c != 0 ==> c < |s1.own| && s1.own[c] == Held)
  {
    InvSizes(s);
    hide Inv, SameMaps;
  }

  lemma TookKernel(s0: Snap, s1: Snap, s2: Snap, c: nat, d: nat, t: nat)
    requires Inv(s0) && Took(s0, s1, c) && Taken(s1, s2, d) && d != 0 && t < |s0.own| && s0.own[t] == Kernel
    ensures t < |s2.own| == |s2.mem| && s2.own[t] == Kernel && d < |s2.own| && s2.own[d] == Held
    ensures c != d && (c != 0 ==> c < |s2.own| && s2.own[c] == Held)
  {
    InvSizes(s0);
    TookTwo(s0, s1, s2, c, d);
    hide Inv, SameMaps;
  }

  lemma ConservedSlot(lab: Lab, s: Snap, s': Snap, c: nat, d: nat)
    requires Conserved(s, s') && (c != 0 ==> c < |s.own| && s.own[c] == Held) && d < |s.own| && s.own[d] == Held
             && c != d
    ensures SlotOk(lab, s', c, d, 0, 0)
  {
  }

  // ---- fork

  /** *(np->trapframe) = *(p->trapframe); np->trapframe->a0 = 0: the 288 bytes of the
      structure, with zeros at the offset of a0. */
  function ChildTrapframe(parent: Frame, child: Frame): Frame
    requires IsPage(parent) && IsPage(child)
  {
    Page(parent.bytes[..112] + Repeat<byte>(0, 8) + parent.bytes[120..288] + child.bytes[288..])
  }

  /** Everything of the new process is still new after pages were added to its tree. */
  lemma NewProcAdded(lab: Lab, s0: Snap, s1: Snap, s2: Snap, orig: nat, tf: nat, pt: nat, n: nat, sz: nat)
    requires Inv(s0) && NewProc(lab, s0, s1, orig, tf, pt, 0) && Added(s1, s2, pt, 0, n) && Inv(s2)
             && n == Pages(sz) <= USYSVPN
    ensures NewProc(lab, s0, s2, orig, tf, pt, sz)
  {
    hide TableAt, Lookup;
    SpaceIsAdded(lab, s1, s2, pt, n);
    AddedFacts(s1, s2, pt, 0, n);
    hide AddedPages, Inv, ProcSpace;
    assert SlotOk(lab, s2, orig, tf, pt, sz);
    forall f | 0 <= f < |s0.own|
      ensures if s0.own[f] == Free then s2.own[f] == Free || Slots(s2.own[f], f, orig, tf, pt)
              else s2.own[f] == s0.own[f] && s2.mem[f] == s0.mem[f] && !Slots(s2.own[f], f, orig, tf, pt)
    {
      assert if s0.own[f] == Free then s1.own[f] == Free || Slots(s1.own[f], f, orig, tf, pt)
             else s1.own[f] == s0.own[f] && s1.mem[f] == s0.mem[f] && !Slots(s1.own[f], f, orig, tf, pt);
    }
  }

  lemma SpaceIsAdded(lab: Lab, s: Snap, s': Snap, r: nat, n: nat)
    requires Inv(s) && ProcSpace(lab, s, r, 0) && Added(s, s', r, 0, n) && n <= USYSVPN
    ensures ProcSpace(lab, s', r, n)
  {
    ProcSpaceFacts(lab, s, r, 0);
    AddedFacts(s, s', r, 0, n);
    AddedOwns(s, s', r, 0, n);
    hide TableAt, Lookup, Owns, ProcSpace;
    assert UserSpace(s', r, n);
    AddedSpace(lab, s, s', r, 0, 0, n);
  }

  /** The parent's pages in s0 are the source of the copy, although allocproc came first. */
  lemma CopyFromParent(lab: Lab, s0: Snap, s1: Snap, s2: Snap, src: nat, dst: nat, n: nat)
    requires Inv(s0) && ProcSpace(lab, s0, src, n) && CopyOf(s1, s2, src, dst, n)
    requires |s1.own| == |s0.own| == |s0.mem| == |s1.mem|
    requires forall f :: 0 <= f < |s0.own| && s0.own[f] != Free ==> s1.own[f] == s0.own[f] && s1.mem[f] == s0.mem[f]
    ensures CopyOf(s0, s2, src, dst, n)
  {
    ProcSpaceFacts(lab, s0, src, n);
    forall v | 0 <= v < n ensures Copied(s0, s2, src, dst, v) {
      assert Copied(s1, s2, src, dst, v) && Owns(s0, src, v);
      LookupFrame(s0, s1.mem, src, v);
    }
  }

  lemma ParentKept(lab: Lab, s0: Snap, s1: Snap, orig: nat, tf: nat, pt: nat, src: nat, n: nat)
    requires Inv(s0) && ProcSpace(lab, s0, src, n) && NewProc(lab, s0, s1, orig, tf, pt, 0)
    ensures IsRoot(s1, src) && src != pt
    ensures forall v :: 0 <= v < n ==> Owns(s1, src, v)
  {
    ProcSpaceFacts(lab, s0, src, n);
    assert s0.own[src] == Tab(src, 2, src, 0);
    assert !Slots(s1.own[src], src, orig, tf, pt);
    forall v | 0 <= v < n ensures Owns(s1, src, v) {
      assert Owns(s0, src, v);
      LookupFrame(s0, s1.mem, src, v);
    }
  }

  lemma NewProcFailed(lab: Lab, s0: Snap, s1: Snap, s2: Snap, s3: Snap, orig: nat, tf: nat, pt: nat)
    requires NewProc(lab, s0, s1, orig, tf, pt, 0) && Grow(s1, s2, pt) && SlotFreed(s2, s3, orig, tf, pt)
    ensures Conserved(s0, s3)
  {
    hide Inv, SameMaps;
    forall f | 0 <= f < |s0.own| ensures s3.own[f] == s0.own[f] && (s0.own[f] != Free ==> s3.mem[f] == s0.mem[f]) {
      assert if s0.own[f] == Free then s1.own[f] == Free || Slots(s1.own[f], f, orig, tf, pt)
             else s1.own[f] == s0.own[f] && s1.mem[f] == s0.mem[f] && !Slots(s1.own[f], f, orig, tf, pt);
    }
    assert s3.own == s0.own;
  }

  lemma NewProcGrown(lab: Lab, s0: Snap, s1: Snap, s2: Snap, orig: nat, tf: nat, pt: nat)
    requires NewProc(lab, s0, s1, orig, tf, pt, 0) && Grow(s1, s2, pt)
    ensures SlotOk(lab, s2, orig, tf, pt, 0)
  {
    GrowProcSpace(lab, s1, s2, pt, 0);
    hide Inv, SameMaps, ProcSpace;
  }

  /** Writing the child's trapframe page. */
  lemma NewProcTrapframe(lab: Lab, s0: Snap, s2: Snap, x: Frame, orig: nat, tf: nat, src: nat, pt: nat, sz: nat)
    requires NewProc(lab, s0, s2, orig, tf, pt, sz) && IsPage(x) && CopyOf(s0, s2, src, pt, Pages(sz))
    ensures tf < |s2.mem| && Inv(WithFrame(s2, tf, x))
    ensures NewProc(lab, s0, WithFrame(s2, tf, x), orig, tf, pt, sz)
            && CopyOf(s0, WithFrame(s2, tf, x), src, pt, Pages(sz))
    ensures IsRoot(s2, pt) && SameMaps(s2, WithFrame(s2, tf, x))
  {
    hide Inv, Lookup, TableAt, ProcSpace, CopyOf, FrameOk;
    var s3 := WithFrame(s2, tf, x);
    WriteKeeps(s2, tf, x);
    InvSizes(s2);
    assert s3.own == s2.own;
    OtherOwners(lab, s2, s3, pt, Pages(sz));
    CopyKept(lab, s0, s2, s3, src, pt, Pages(sz));
    SpaceOfRoot(lab, s2, pt, Pages(sz));
  }

  lemma SpaceOfRoot(lab: Lab, s: Snap, r: nat, n: nat)
    requires ProcSpace(lab, s, r, n)
    ensures IsRoot(s, r)
  {
  }

  lemma CopyKept(lab: Lab, s0: Snap, s2: Snap, s3: Snap, src: nat, pt: nat, n: nat)
    requires ProcSpace(lab, s2, pt, n) && CopyOf(s0, s2, src, pt, n) && SameMaps(s2, s3)
             && |s3.mem| == |s2.mem| == |s2.own|
    requires forall f :: 0 <= f < |s2.own| && s2.own[f].User? ==> s3.mem[f] == s2.mem[f]
    ensures CopyOf(s0, s3, src, pt, n)
  {
    hide Lookup, TableAt;
    ProcSpaceFacts(lab, s2, pt, n);
    forall v | 0 <= v < n ensures Copied(s0, s3, src, pt, v) {
      assert Copied(s0, s2, src, pt, v) && Owns(s2, pt, v);
      assert Lookup(s3.mem, pt, v) == Lookup(s2.mem, pt, v);
    }
  }

  lemma HeldPages(lab: Lab, s0: Snap, s: Snap, orig: nat, tf: nat, pt: nat, sz: nat, ptf: nat)
    requires Inv(s0) && NewProc(lab, s0, s, orig, tf, pt, sz) && ptf < |s0.own| && s0.own[ptf] == Held
    ensures ptf < |s.mem| && IsPage(s.mem[ptf]) && s.mem[ptf] == s0.mem[ptf] && tf < |s.mem| && IsPage(s.mem[tf])
  {
    assert FrameOk(s0, ptf) && FrameOk(s, tf);
  }

  /** The memory of fork.  When it succeeds the child has the parent's pages: the same
      page numbers, flags (guard pages too) and contents, on frames that were free.
      It succeeds exactly when the frames of a new process, those of the copy and their
      page-table pages are free; when it fails every frame is as before. */
  method Fork(lab: Lab, k: Kmem, p: Proc, np: Proc, trampoline: nat, pid: nat) returns (r: Outcome)
    requires Inv(k.G()) && p != np && ProcSpace(lab, k.G(), p.pagetable, Pages(p.sz))
    requires p.trapframe < |k.own| && k.own[p.trapframe] == Held
    requires trampoline < |k.own| && k.own[trampoline] == Kernel
    requires np.trapframe == 0 && np.pagetable == 0 && np.sz == 0
    modifies k, k.mem, np
    ensures Inv(k.G())
    ensures r.Crashed? <==> lab.usys && |old(k.free)| == ProcCost(lab) - 1
    ensures r.Failed? ==> Conserved(old(k.G()), k.G()) && np.trapframe == 0 && np.pagetable == 0 && np.sz == 0
    ensures r.Done? <==> ProcCost(lab) + TreeCost(Pages(p.sz)) <= |old(k.free)|
    ensures r.Done? ==> |k.free| == |old(k.free)| - ProcCost(lab) - TreeCost(Pages(p.sz))
    ensures r.Done? && Rights(old(k.mem[..]), p.pagetable) ==> MapOk(k.mem[..], np.pagetable, trampoline, np.trapframe)
    ensures r.Done? && lab.usys && pid < 0x1_0000_0000 ==> ShowsPid(k.mem[..], np.pagetable, pid)
    ensures r.Done? ==> forall a: nat :: a < Pages(p.sz) * 4096 ==>
              UByte(k.mem[..], np.pagetable, a) == UByte(old(k.mem[..]), p.pagetable, a)
    ensures r.Done? ==>
              && np.sz == p.sz && NewProc(lab, old(k.G()), k.G(), OrigOf(lab, np), np.trapframe, np.pagetable, p.sz)
              && CopyOf(old(k.G()), k.G(), p.pagetable, np.pagetable, Pages(p.sz))
              && np.trapframe < |k.mem[..]| && IsPage(k.mem[np.trapframe])
              && p.trapframe < |old(k.mem[..])| && IsPage(old(k.mem[..])[p.trapframe])
              && k.mem[np.trapframe].bytes[..288] ==
                 old(k.mem[..])[p.trapframe].bytes[..112] + Repeat<byte>(0, 8)
                 + old(k.mem[..])[p.trapframe].bytes[120..288]
  {
    hide ShowsPid, UByte, Inv, ProcSpace, Conserved, NewProc, Added, CopyOf, Grow, SlotFreed, Lookup, TableAt, Owns,
         SlotOk,
         TreeCost, Cost, Tidy, MapOk, Rights;
    ghost var s0, n := k.G(), Pages(p.sz);
    r := Allocproc(lab, k, np, trampoline, pid);
    if !r.Done? { return; }
    ghost var s1 := k.G();
    ghost var orig, tf, pt := OrigOf(lab, np), np.trapframe, np.pagetable;
    NewProcFacts(lab, s0, s1, orig, tf, pt, 0);
    SpaceBound(lab, s0, p.pagetable, n);
    ParentKept(lab, s0, s1, orig, tf, pt, p.pagetable, n);
    CopyCost(s1.mem, pt, n);
    var c := Uvmcopy(k, p.pagetable, np.pagetable, p.sz);
    ghost var s2 := k.G();
    if c < 0 {
      NewProcGrown(lab, s0, s1, s2, orig, tf, pt);
      Freeproc(lab, k, np);
      NewProcFailed(lab, s0, s1, s2, k.G(), orig, tf, pt);
      return Failed;
    }
    np.sz := p.sz;
    NewProcAdded(lab, s0, s1, s2, orig, tf, pt, n, p.sz);
    CopyFromParent(lab, s0, s1, s2, p.pagetable, pt, n);
    if Rights(s0.mem, p.pagetable) {
      CopyRights(s0, s2, p.pagetable, pt, n);
      MapAdds(s1, s2, pt, 0, n, trampoline, tf);
    }
    HeldPages(lab, s0, s2, orig, tf, pt, p.sz, p.trapframe);
    NewProcTrapframe(lab, s0, s2, ChildTrapframe(s2.mem[p.trapframe], s2.mem[tf]), orig, tf, p.pagetable, pt, p.sz);
    k.mem[np.trapframe] := ChildTrapframe(k.mem[p.trapframe], k.mem[np.trapframe]);
    assert k.G() == WithFrame(s2, tf, ChildTrapframe(s2.mem[p.trapframe], s2.mem[tf]));
    if MapOk(s2.mem, pt, trampoline, tf) { MapSame(s2.mem, k.mem[..], pt, trampoline, tf); }
    ChildSees(lab, s0, k.G(), orig, tf, p.pagetable, pt, n, p.sz);
    StillShown(lab, s0, s1, s2, orig, tf, pt, p.sz, ChildTrapframe(s2.mem[p.trapframe], s2.mem[tf]), pid);
    return Done;
  }

  lemma ChildSees(lab: Lab, s0: Snap, s3: Snap, orig: nat, tf: nat, src: nat, pt: nat, n: nat, sz: nat)
    requires Inv(s0) && ProcSpace(lab, s0, src, n) && n == Pages(sz)
    requires NewProc(lab, s0, s3, orig, tf, pt, sz) && CopyOf(s0, s3, src, pt, n)
    ensures forall a: nat :: a < n * 4096 ==> UByte(s3.mem, pt, a) == UByte(s0.mem, src, a)
  {
    hide Inv, ProcSpace, CopyOf, UByte;
    ProcSpaceFacts(lab, s0, src, n);
    NewProcFacts(lab, s0, s3, orig, tf, pt, sz);
    CopySeen(s0, s3, src, pt, n);
  }

  /** The child's own pid stays where allocproc put it. */
  lemma StillShown(lab: Lab, s0: Snap, s1: Snap, s2: Snap, orig: nat, tf: nat, pt: nat, sz: nat, x: Frame, pid: nat)
    requires Inv(s0) && NewProc(lab, s0, s1, orig, tf, pt, 0) && Added(s1, s2, pt, 0, Pages(sz)) && Pages(sz) <= USYSVPN
    requires NewProc(lab, s0, s2, orig, tf, pt, sz) && tf < |s2.mem| && SameMaps(s2, WithFrame(s2, tf, x))
    ensures ShowsPid(s1.mem, pt, pid) ==> ShowsPid(WithFrame(s2, tf, x).mem, pt, pid)
  {
    NewProcFacts(lab, s0, s1, orig, tf, pt, 0);
    NewProcFacts(lab, s0, s2, orig, tf, pt, sz);
    hide ShowsPid, Added, SameUsys, ProcSpace, SameMaps, Lookup;
    if ShowsPid(s1.mem, pt, pid) {
      AddedUsys(s1, s2, pt, 0, Pages(sz));
      ShowsKept(s1.mem, s2.mem, pt, pid);
      HeldUsys(s2, tf, x, pt);
      ShowsKept(s2.mem, WithFrame(s2, tf, x).mem, pt, pid);
    }
  }

  lemma CopyRights(s: Snap, s': Snap, src: nat, dst: nat, n: nat)
    requires CopyOf(s, s', src, dst, n) && Rights(s.mem, src) && n <= USYSVPN
    ensures NewRights(s'.mem, dst, 0, n)
  {
    hide Lookup;
    forall v | 0 <= v < n ensures Writable(s'.mem, dst, v) {
      assert Copied(s, s', src, dst, v) && Writable(s.mem, src, v);
    }
  }

  /** Filling a new tree with n pages takes TreeCost frames. */
  lemma CopyCost(m: seq<Frame>, r: nat, n: nat)
    requires Tidy(m, r, 0) && n <= LOWVPN
    ensures Cost(m, r, 0, n) == TreeCost(n) && TreeCost(0) == 0
  {
    CostTidy(m, r, 0, n);
  }

  lemma NewProcFacts(lab: Lab, s0: Snap, s1: Snap, orig: nat, tf: nat, pt: nat, sz: nat)
    requires Inv(s0) && NewProc(lab, s0, s1, orig, tf, pt, sz)
    ensures IsRoot(s1, pt) && Pages(sz) <= USYSVPN && |s1.own| == |s0.own| == |s0.mem| == |s1.mem|
    ensures forall v :: Pages(sz) <= v < USYSVPN ==> Lookup(s1.mem, pt, v) == None
    ensures forall f :: 0 <= f < |s0.own| && s0.own[f] != Free ==> s1.own[f] == s0.own[f] && s1.mem[f] == s0.mem[f]
  {
    ProcSpaceFacts(lab, s1, pt, Pages(sz));
  }
}
