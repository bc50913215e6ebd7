/** The memory side of proc.c: building and freeing a process's page table, growproc,
    and what allocproc, fork and freeproc do with pages. */
module ProcMem {
  import opened Types
  import opened Riscv
  import opened Phys
  import opened PhysUpdate
  import opened Kalloc
  import opened Tables
  import opened Vm
  import opened UserVm
  import opened Freewalk
  import opened CopyUser

  const TRAMPVPN: int := MAXVPN - 1
  const TRAPVPN: int := MAXVPN - 2

  /** Which kernel: with the second trapframe page of the traps lab, with the USYSCALL
      page of the page-table lab. */
  datatype Lab = Lab(orig: bool, usys: bool)

  const SYSCALL_LAB := Lab(false, false)
  const PGTBL_LAB := Lab(false, true)
  const TRAPS_LAB := Lab(true, false)

  /** The pages of an address space without user memory: the root, two lower page-table
      pages, and struct usyscall. */
  function TopCost(lab: Lab): nat { if lab.usys then 4 else 3 }

  /** The pages of a process without user memory. */
  function ProcCost(lab: Lab): nat { (if lab.orig then 2 else 1) + TopCost(lab) }

  /** The address space of a process with n user pages: those, the trampoline, the
      trapframe and in the page-table lab the system-call data page, and nothing else. */
  ghost predicate ProcSpace(lab: Lab, s: Snap, r: nat, n: nat) {
    && UserSpace(s, r, n)
    && Borrowed(s, r, TRAMPVPN) && Borrowed(s, r, TRAPVPN)
    && UsysOk(lab, s, r)
  }

  ghost predicate UsysOk(lab: Lab, s: Snap, r: nat) {
    if lab.usys then Owns(s, r, USYSVPN) else Lookup(s.mem, r, USYSVPN) == None
  }

  /** Page v is mapped to a frame that the tree does not own. */
  ghost predicate Borrowed(s: Snap, r: nat, v: nat) {
    Lookup(s.mem, r, v).Some? && !Owns(s, r, v)
  }

  // PTE_R | PTE_X, PTE_R | PTE_W and PTE_R | PTE_U
  const TRAMPFLAGS := NOFLAGS.(r := true, x := true)
  const TRAPFLAGS := NOFLAGS.(r := true, w := true)
  const USYSFLAGS := NOFLAGS.(r := true, u := true)

  /** The two borrowed pages of tree r: the trampoline code, and the frame tf that holds
      the trapframe of the tree's own process. */
  predicate TopMapped(m: seq<Frame>, r: nat, trampoline: nat, tf: nat) {
    && Lookup(m, r, TRAMPVPN) == Some(Pte(trampoline, TRAMPFLAGS.(v := true)))
    && Lookup(m, r, TRAPVPN) == Some(Pte(tf, TRAPFLAGS.(v := true)))
  }

  lemma TopSame(m: seq<Frame>, m': seq<Frame>, r: nat, trampoline: nat, tf: nat)
    requires TopMapped(m, r, trampoline, tf)
    requires Lookup(m', r, TRAMPVPN) == Lookup(m, r, TRAMPVPN) && Lookup(m', r, TRAPVPN) == Lookup(m, r, TRAPVPN)
    ensures TopMapped(m', r, trampoline, tf)
  {
    hide Lookup;
  }

  /** If page v of tree r is mapped and accessible from user mode, user mode may write it. */
  predicate Writable(m: seq<Frame>, r: nat, v: nat) {
    Lookup(m, r, v).Some? && Lookup(m, r, v).value.flags.u ==> Lookup(m, r, v).value.flags.w
  }

  ghost predicate NewRights(m: seq<Frame>, r: nat, v0: nat, n: nat) {
    forall v :: v0 <= v < v0 + n ==> Writable(m, r, v)
  }

  /** User mode may write whatever it may read of its own memory, and may only read the
      system-call data page. */
  ghost predicate Rights(m: seq<Frame>, r: nat) {
    && (forall v :: 0 <= v < USYSVPN ==> Writable(m, r, v))
    && (Lookup(m, r, USYSVPN).Some? ==>
          Lookup(m, r, USYSVPN).value.flags.u && !Lookup(m, r, USYSVPN).value.flags.w)
  }

  ghost predicate MapOk(m: seq<Frame>, r: nat, trampoline: nat, tf: nat) {
    TopMapped(m, r, trampoline, tf) && Rights(m, r)
  }

  lemma MapSame(m: seq<Frame>, m': seq<Frame>, r: nat, trampoline: nat, tf: nat)
    requires MapOk(m, r, trampoline, tf) && forall v :: 0 <= v < MAXVPN ==> Lookup(m', r, v) == Lookup(m, r, v)
    ensures MapOk(m', r, trampoline, tf)
  {
    hide Lookup;
    forall v | 0 <= v < USYSVPN ensures Writable(m', r, v) { assert Writable(m, r, v); }
  }

  /** A page that user mode cannot access any more. */
  lemma MapCleared(m: seq<Frame>, m': seq<Frame>, r: nat, trampoline: nat, tf: nat, v: nat)
    requires MapOk(m, r, trampoline, tf) && v < USYSVPN && Lookup(m', r, v).Some? && !Lookup(m', r, v).value.flags.u
    requires forall v2 :: 0 <= v2 < MAXVPN && v2 != v ==> Lookup(m', r, v2) == Lookup(m, r, v2)
    ensures MapOk(m', r, trampoline, tf)
  {
    hide Lookup;
    forall v2 | 0 <= v2 < USYSVPN ensures Writable(m', r, v2) { assert Writable(m, r, v2); }
  }

  /** A new tree has no user memory. */
  lemma RightsNew(lab: Lab, s: Snap, r: nat, pid: nat)
    requires ProcSpace(lab, s, r, 0)
    requires lab.usys ==> PageIs(s, r, USYSVPN, USYSFLAGS.(v := true), UsyscallPage(pid))
    ensures Rights(s.mem, r)
  {
    hide Lookup, UsyscallPage;
  }

  /** Every leaf of a process's tree leads to the trampoline, to its own trapframe or to
      a frame that the tree owns for that page: never to a free frame, a page-table
      page or a page of another process. */
  lemma LeafTargets(lab: Lab, s: Snap, r: nat, n: nat, trampoline: nat, tf: nat, v: nat)
    requires Inv(s) && ProcSpace(lab, s, r, n) && TopMapped(s.mem, r, trampoline, tf) && v < MAXVPN
    requires trampoline < |s.own| && s.own[trampoline] == Kernel && tf < |s.own| && s.own[tf] == Held
    requires Lookup(s.mem, r, v).Some?
    ensures var c := Lookup(s.mem, r, v).value.ppn;
            && c < |s.own| && c !in s.free && !s.own[c].Tab?
            && (c == trampoline || c == tf || (s.own[c].User? && s.own[c].space == r && s.own[c].vpn == v))
            && (c == trampoline <==> v == TRAMPVPN) && (c == tf <==> v == TRAPVPN)
  {
    hide Lookup, FrameOk, Borrowed;
    ProcSpaceFacts(lab, s, r, n);
    hide ProcSpace;
    assert v == TRAMPVPN || v == TRAPVPN || Owns(s, r, v);
    assert FreeListOk(s);
  }

  lemma ProcSpaceFacts(lab: Lab, s: Snap, r: nat, n: nat)
    requires ProcSpace(lab, s, r, n)
    ensures IsRoot(s, r) && n <= USYSVPN
    ensures Borrowed(s, r, TRAMPVPN) && Borrowed(s, r, TRAPVPN) && UsysOk(lab, s, r)
    ensures forall v :: 0 <= v < n ==> Owns(s, r, v)
    ensures forall v :: n <= v < USYSVPN ==> Lookup(s.mem, r, v) == None
  {
  }

  // ---- proc_freepagetable

  /** No frame changes hands and only page-table pages of r, and free frames, are written. */
  ghost predicate Untouched(s: Snap, s': Snap, r: nat) {
    && s'.own == s.own && |s'.mem| == |s.mem| == |s.own| && s'.lo == s.lo
    && forall f :: 0 <= f < |s.own| && s.own[f] != Free && !IsTab(s.own[f], r) ==> s'.mem[f] == s.mem[f]
  }

  /** Unmapping a borrowed page changes no owner and no contents. */
  lemma UnmapBorrowed(s: Snap, s': Snap, r: nat, v: nat)
    requires Inv(s) && Borrowed(s, r, v) && v < MAXVPN && IsRoot(s, r) && Unmapping(s, s', r, v, 1, false)
    ensures IsRoot(s', r) && Untouched(s, s', r)
    ensures forall v2 :: 0 <= v2 < MAXVPN && v2 != v ==> Lookup(s'.mem, r, v2) == Lookup(s.mem, r, v2)
    ensures Lookup(s'.mem, r, v) == None
    ensures forall v2 :: 0 <= v2 < MAXVPN && v2 != v ==> (Owns(s, r, v2) <==> Owns(s', r, v2))
  {
    forall f | 0 <= f < |s.own| ensures s'.own[f] == s.own[f] {
      if s.own[f].User? { UserIsMapped(s, f); }
    }
    hide Lookup, TableAt;
  }

  lemma BorrowedKept(s: Snap, s': Snap, r: nat, v: nat, v2: nat)
    requires Inv(s) && Borrowed(s, r, v) && v < MAXVPN && v2 < MAXVPN && v != v2 && IsRoot(s, r)
             && Unmapping(s, s', r, v, 1, false)
    ensures Borrowed(s, r, v2) ==> Borrowed(s', r, v2)
  {
    UnmapBorrowed(s, s', r, v);
  }

  /** The address space that proc_freepagetable of the system-call and traps labs expects. */
  ghost predicate PlainSpace(s: Snap, r: nat, n: nat) {
    && IsRoot(s, r) && n <= USYSVPN
    && (forall v :: 0 <= v < n ==> Owns(s, r, v))
    && (forall v :: n <= v < TRAPVPN ==> Lookup(s.mem, r, v) == None)
    && Borrowed(s, r, TRAMPVPN) && Borrowed(s, r, TRAPVPN)
  }

  /** proc_freepagetable without the USYSCALL page. */
  method FreePlain(k: Kmem, pagetable: nat, sz: uint64)
    requires Inv(k.G()) && PlainSpace(k.G(), pagetable, Pages(sz))
    modifies k, k.mem
    ensures Inv(k.G()) && Gone(old(k.G()), k.G(), pagetable)
  {
    hide Inv, Borrowed, Owns, Unmapping, Lookup, TableAt, Gone, Untouched;
    ghost var s0 := k.G();
    BorrowedMapped(s0, pagetable);
    Uvmunmap(k, pagetable, TRAMPOLINE, 1, false);
    ghost var s1 := k.G();
    UnmapBorrowed(s0, s1, pagetable, TRAMPVPN);
    BorrowedKept(s0, s1, pagetable, TRAMPVPN, TRAPVPN);
    BorrowedMapped(s1, pagetable);
    Uvmunmap(k, pagetable, TRAPFRAME, 1, false);
    ghost var s2 := k.G();
    UnmapBorrowed(s1, s2, pagetable, TRAPVPN);
    Uvmfree(k, pagetable, sz);
    PlainGone(s0, s1, s2, k.G(), pagetable);
  }

  lemma PlainGone(s0: Snap, s1: Snap, s2: Snap, s3: Snap, r: nat)
    requires Untouched(s0, s1, r) && Untouched(s1, s2, r) && Gone(s2, s3, r)
    ensures Gone(s0, s3, r)
  {
  }

  lemma PlainIs(lab: Lab, s: Snap, r: nat, n: nat)
    requires !lab.usys
    ensures ProcSpace(lab, s, r, n) <==> PlainSpace(s, r, n)
  {
    hide Lookup, Owns;
  }

  /** The pages at the top and then everything else: nothing is left of the tree. */
  method ProcFreepagetable(lab: Lab, k: Kmem, pagetable: nat, sz: uint64)
    requires Inv(k.G()) && ProcSpace(lab, k.G(), pagetable, Pages(sz))
    modifies k, k.mem
    ensures Inv(k.G()) && Gone(old(k.G()), k.G(), pagetable)
  {
    hide Inv, ProcSpace, PlainSpace, Borrowed, Owns, Unmapping, Lookup, TableAt, Gone, Untouched;
    ghost var s0 := k.G();
    if !lab.usys {
      PlainIs(lab, s0, pagetable, Pages(sz));
      FreePlain(k, pagetable, sz);
      return;
    }
    ProcSpaceFacts(lab, s0, pagetable, Pages(sz));
    BorrowedMapped(s0, pagetable);
    Uvmunmap(k, pagetable, TRAMPOLINE, 1, false);
    ghost var s1 := k.G();
    UnmapBorrowed(s0, s1, pagetable, TRAMPVPN);
    BorrowedKept(s0, s1, pagetable, TRAMPVPN, TRAPVPN);
    BorrowedMapped(s1, pagetable);
    Uvmunmap(k, pagetable, TRAPFRAME, 1, false);
    ghost var s2 := k.G();
    UnmapBorrowed(s1, s2, pagetable, TRAPVPN);
    BorrowedMapped(s2, pagetable);
    Uvmunmap(k, pagetable, USYSCALL, 1, true);
    ghost var s3 := k.G();
    UsyscallGone(s2, s3, pagetable, Pages(sz));
    Uvmfree(k, pagetable, sz);
    AllGone(s0, s1, s2, s3, k.G(), pagetable);
  }

  lemma BorrowedMapped(s: Snap, r: nat)
    ensures Borrowed(s, r, TRAMPVPN) ==> Lookup(s.mem, r, TRAMPVPN).Some?
    ensures Borrowed(s, r, TRAPVPN) ==> Lookup(s.mem, r, TRAPVPN).Some?
    ensures Owns(s, r, USYSVPN) ==> Lookup(s.mem, r, USYSVPN).Some?
  {
  }

  lemma UsyscallGone(s: Snap, s': Snap, r: nat, n: nat)
    requires IsRoot(s, r) && n <= USYSVPN && Unmapping(s, s', r, USYSVPN, 1, true)
    requires forall v :: 0 <= v < n ==> Owns(s, r, v)
    requires forall v :: n <= v < USYSVPN || USYSVPN < v < MAXVPN ==> Lookup(s.mem, r, v) == None
    ensures IsRoot(s', r)
    ensures forall v :: 0 <= v < n ==> Owns(s', r, v)
    ensures forall v :: n <= v < MAXVPN ==> Lookup(s'.mem, r, v) == None
  {
    UnmappingRoot(s, s', r, USYSVPN, 1, true);
    hide TableAt, Lookup;
    forall v | 0 <= v < n ensures Owns(s', r, v) {
      assert Owns(s, r, v);
    }
  }

  lemma AllGone(s0: Snap, s1: Snap, s2: Snap, s3: Snap, s4: Snap, r: nat)
    requires Untouched(s0, s1, r) && Untouched(s1, s2, r)
    requires Unmapping(s2, s3, r, USYSVPN, 1, true) && Gone(s3, s4, r)
    ensures Gone(s0, s4, r)
  {
    hide MapRemoved;
  }

  // ---- proc_pagetable

  /** struct usyscall at the start of a zeroed page. */
  function UsyscallPage(pid: nat): Frame { Page(Le(pid, 4) + Repeat<byte>(0, PGSIZE - 4)) }

  /** User code finds pid in struct usyscall at USYSCALL, and zeros in the rest of that page. */
  ghost predicate ShowsPid(m: seq<Frame>, r: nat, pid: nat) {
    && UNum(m, r, 0x3F_FFFF_D000, 4) == Some(pid)
    && forall a: nat :: 0x3F_FFFF_D004 <= a < 0x3F_FFFF_E000 ==> UByte(m, r, a) == Some(0)
  }

  /** The page at USYSCALL is for user code what it was. */
  ghost predicate SameUsys(m: seq<Frame>, m': seq<Frame>, r: nat) {
    forall a: nat :: 0x3F_FFFF_D000 <= a < 0x3F_FFFF_E000 ==> UByte(m', r, a) == UByte(m, r, a)
  }

  lemma PidShown(s: Snap, r: nat, pid: nat)
    requires Inv(s) && IsRoot(s, r) && pid < 0x1_0000_0000
    requires PageIs(s, r, USYSVPN, USYSFLAGS.(v := true), UsyscallPage(pid))
    ensures ShowsPid(s.mem, r, pid)
  {
    FourBytes();
    forall a: nat | 0x3F_FFFF_D000 <= a < 0x3F_FFFF_E000
      ensures UByte(s.mem, r, a) == Some(UsyscallPage(pid).bytes[a - 0x3F_FFFF_D000])
    {
      UsysByte(s, r, a);
      hide Inv, Le, UByte;
    }
    hide UByte, Inv, Le, Pow256, UNum;
    UNumIs(s.mem, r, 0x3F_FFFF_D000, 4, pid);
  }

  lemma UsysByte(s: Snap, r: nat, a: nat)
    requires Inv(s) && IsRoot(s, r) && 0x3F_FFFF_D000 <= a < 0x3F_FFFF_E000
    requires Lookup(s.mem, r, USYSVPN).Some? && Lookup(s.mem, r, USYSVPN).value.flags.u
    ensures var c := Lookup(s.mem, r, USYSVPN).value.ppn;
            c < |s.mem| && IsPage(s.mem[c]) && UByte(s.mem, r, a) == Some(s.mem[c].bytes[a - 0x3F_FFFF_D000])
  {
    var c := Lookup(s.mem, r, USYSVPN).value.ppn;
    LookupOwner(s, r, USYSVPN);
    NotKernel(s, c);
    assert a / PGSIZE == USYSVPN && a % PGSIZE == a - 0x3F_FFFF_D000;
    UserPageOwned(s, r, a);
    hide Inv, Lookup;
  }

  lemma ShowsKept(m: seq<Frame>, m': seq<Frame>, r: nat, pid: nat)
    requires ShowsPid(m, r, pid) && SameUsys(m, m', r)
    ensures ShowsPid(m', r, pid)
  {
    hide UByte;
    assert UNum(m', r, 0x3F_FFFF_D003, 1) == UNum(m, r, 0x3F_FFFF_D003, 1);
    assert UNum(m', r, 0x3F_FFFF_D002, 2) == UNum(m, r, 0x3F_FFFF_D002, 2);
    assert UNum(m', r, 0x3F_FFFF_D001, 3) == UNum(m, r, 0x3F_FFFF_D001, 3);
  }

  /** Adding pages below keeps it. */
  lemma AddedUsys(s: Snap, s': Snap, r: nat, v0: nat, n: nat)
    requires Inv(s) && IsRoot(s, r) && Added(s, s', r, v0, n) && v0 + n <= USYSVPN
    ensures SameUsys(s.mem, s'.mem, r)
  {
    AddedFacts(s, s', r, v0, n);
    forall a: nat | 0x3F_FFFF_D000 <= a < 0x3F_FFFF_E000 ensures UByte(s'.mem, r, a) == UByte(s.mem, r, a) {
      assert a / PGSIZE == USYSVPN;
      hide Lookup, Inv;
      if UserPage(s.mem, r, a) != 0 { UserPageOwned(s, r, a); }
    }
  }

  /** Writing a page that no tree maps for the user, such as a trapframe, keeps it. */
  lemma HeldUsys(s: Snap, c: nat, x: Frame, r: nat)
    requires Inv(s) && IsRoot(s, r) && c < |s.mem| == |s.own| && s.own[c] == Held
    requires SameMaps(s, WithFrame(s, c, x))
    ensures SameUsys(s.mem, WithFrame(s, c, x).mem, r)
  {
    forall a: nat | 0x3F_FFFF_D000 <= a < 0x3F_FFFF_E000
      ensures UByte(WithFrame(s, c, x).mem, r, a) == UByte(s.mem, r, a)
    {
      hide Lookup, Inv;
      if UserPage(s.mem, r, a) != 0 { UserPageOwned(s, r, a); }
    }
  }

  /** The three top pages as the hardware sees them: the trampoline may be executed and not written,
      the trapframe is data, and user code can touch neither; user code may read the page at USYSCALL,
      and not write or execute it. */
  lemma TopPagesSeen(s: Snap, r: nat, trampoline: nat, tf: nat)
    requires Inv(s) && IsRoot(s, r) && TopMapped(s.mem, r, trampoline, tf)
    ensures var w := Sv39(s.mem, r, 0x3FF_FFFF, 2);
            && w.Leaf? && w.level == 0 && w.pte.ppn == trampoline
            && w.pte.flags.r && w.pte.flags.x && !w.pte.flags.w && !w.pte.flags.u
    ensures var w := Sv39(s.mem, r, 0x3FF_FFFE, 2);
            && w.Leaf? && w.level == 0 && w.pte.ppn == tf
            && w.pte.flags.r && w.pte.flags.w && !w.pte.flags.x && !w.pte.flags.u
    ensures forall x :: PageIs(s, r, USYSVPN, USYSFLAGS.(v := true), x) ==>
              var w := Sv39(s.mem, r, 0x3FF_FFFD, 2);
              w.Leaf? && w.level == 0 && w.pte.flags.r && w.pte.flags.u && !w.pte.flags.w && !w.pte.flags.x
  {
    Sv39IsLookup(s, r, 0x3FF_FFFF);
    Sv39IsLookup(s, r, 0x3FF_FFFE);
    Sv39IsLookup(s, r, 0x3FF_FFFD);
    hide Inv, Lookup, Sv39;
  }

  /** What proc_pagetable does: it returns a page table, or 0, or, when the page for
      struct usyscall cannot be allocated, writes to physical address 0, because the
      failure path in Lab_page_tables/proc.c lacks a return. */
  datatype Built = Made(root: nat) | NoMemory | NullWrite

  /** Memory as it was: the same owner for every frame, and no frame in use changed. */
  ghost predicate Conserved(s: Snap, s': Snap) {
    && s'.own == s.own && |s'.mem| == |s.mem| == |s.own| && s'.lo == s.lo
    && forall f :: 0 <= f < |s.own| && s.own[f] != Free ==> s'.mem[f] == s.mem[f]
  }

  /** A tree that was started on a free frame and is completely freed leaves no trace. */
  lemma StartedAndGone(s: Snap, s1: Snap, s2: Snap, r: nat)
    requires Inv(s) && r < |s.own| && s.own[r] == Free && Isolated(s, s1, r) && Gone(s1, s2, r)
    ensures Conserved(s, s2)
  {
    forall f | 0 <= f < |s.own| ensures !Of(s.own[f], r) {
      assert FrameOk(s, f);
      if s.own[f].User? { UserIsMapped(s, f); }
      if s.own[f].Tab? { TabRoot(s, f); }
    }
  }

  lemma TabRoot(s: Snap, f: nat)
    requires Inv(s) && f < |s.own| && s.own[f].Tab?
    ensures IsRoot(s, s.own[f].root)
  {
    assert FrameOk(s, f);
    var Tab(r, l, p, q) := s.own[f];
    var v := if l == 0 then q * 512 else if l == 1 then q * 262144 else 0;
    OwnerTableAt(s, f, v);
  }

  lemma GrowIsolated(s: Snap, s': Snap, r: nat)
    requires Grow(s, s', r)
    ensures Isolated(s, s', r)
    requires |s.own| == |s.mem|
  {
  }

  /** mappages of one page that the tree borrows: the owners change as in growth. */
  lemma BorrowStep(s: Snap, s': Snap, r: nat, v: nat, ppn: nat, perm: Flags)
    requires Inv(s) && Inv(s') && IsRoot(s, r) && v < MAXVPN && Mapping(s, s', r, v, 1, ppn, perm, false)
    requires ppn < |s.own| && !s.own[ppn].User? && s.own[ppn] != Free
    ensures Isolated(s, s', r) && IsRoot(s', r) && s'.own[ppn] == s.own[ppn] && Borrowed(s', r, v)
    ensures Lookup(s'.mem, r, v) == Some(Pte(ppn, perm.(v := true)))
    ensures forall v2 :: 0 <= v2 < MAXVPN && v2 != v ==>
              Lookup(s'.mem, r, v2) == Lookup(s.mem, r, v2) && (Borrowed(s, r, v2) ==> Borrowed(s', r, v2))
    ensures TableAt(s'.mem, r, v, 0).Some?
  {
    MappingRoot(s, s', r, v, 1, ppn, perm, false);
    forall v2 | 0 <= v2 < MAXVPN && v2 != v
      ensures Lookup(s'.mem, r, v2) == Lookup(s.mem, r, v2) && (Borrowed(s, r, v2) ==> Borrowed(s', r, v2))
    {
      if Borrowed(s, r, v2) { StillBorrowed(s, s', r, v, ppn, perm, v2); }
    }
  }

  lemma StillBorrowed(s: Snap, s': Snap, r: nat, v: nat, ppn: nat, perm: Flags, v2: nat)
    requires Inv(s) && Inv(s') && IsRoot(s, r) && v < MAXVPN && v2 < MAXVPN && v2 != v
    requires Mapping(s, s', r, v, 1, ppn, perm, false) && Borrowed(s, r, v2)
    ensures Borrowed(s', r, v2)
  {
    LookupOwner(s, r, v2);
    var c := Lookup(s.mem, r, v2).value.ppn;
    assert Lookup(s'.mem, r, v2) == Lookup(s.mem, r, v2);
    assert s'.own[c] == s.own[c] || IsTab(s'.own[c], r);
  }

  /** Pages that share a level-0 page-table page: once one is mapped, mapping the
      other needs no memory. */
  lemma SharedTable(m: seq<Frame>, r: nat, v: nat, v2: nat)
    requires Prefix(0, v) == Prefix(0, v2)
    ensures TableAt(m, r, v, 0) == TableAt(m, r, v2, 0)
    ensures TableAt(m, r, v, 0).Some? ==> Missing(m, r, v2) == 0
  {
    SamePath(m, r, v, v2, 0);
  }

  /** The tree at r, started on a frame that was free in s0, so far maps exactly `top`. */
  ghost predicate Building(s0: Snap, s: Snap, r: nat, top: set<nat>) {
    && Isolated(s0, s, r) && r < |s0.own| && s0.own[r] == Free && IsRoot(s, r)
    && (forall v :: 0 <= v < MAXVPN && v !in top ==> Lookup(s.mem, r, v) == None)
    && (forall v :: 0 <= v < MAXVPN && v in top ==> Borrowed(s, r, v))
  }

  lemma BuildStart(s0: Snap, s: Snap, r: nat)
    requires r < |s0.own| && s0.own[r] == Free && Isolated(s0, s, r) && IsRoot(s, r)
    requires forall v :: 0 <= v < MAXVPN ==> Lookup(s.mem, r, v) == None
    ensures Building(s0, s, r, {})
  {
  }

  lemma BuildBorrow(s0: Snap, s: Snap, s': Snap, r: nat, top: set<nat>, v: nat, ppn: nat, perm: Flags)
    requires Building(s0, s, r, top) && Inv(s) && Inv(s') && v < MAXVPN && Mapping(s, s', r, v, 1, ppn, perm, false)
    requires ppn < |s0.own| && (s0.own[ppn] == Kernel || s0.own[ppn] == Held)
    ensures Building(s0, s', r, top + {v}) && TableAt(s'.mem, r, v, 0).Some?
  {
    BorrowStep(s, s', r, v, ppn, perm);
    IsolatedTrans(s0, s, s', r);
    hide Lookup, TableAt, Borrowed, Mapping;
  }

  lemma BuildFailed(s0: Snap, s: Snap, s': Snap, r: nat, v: nat, ppn: nat, perm: Flags)
    requires Building(s0, s, r, {}) && Inv(s) && Mapping(s, s', r, v, 0, ppn, perm, false)
    ensures Building(s0, s', r, {})
  {
    assert Isolated(s, s', r);
    IsolatedTrans(s0, s, s', r);
    hide Lookup, TableAt, Borrowed;
  }

  /** uvmunmap(pagetable, a, 1, 0) takes one borrowed page away again. */
  lemma BuildUnmap(s0: Snap, s: Snap, s': Snap, r: nat, top: set<nat>, v: nat)
    requires Building(s0, s, r, top) && v in top && v < MAXVPN && Inv(s) && Unmapping(s, s', r, v, 1, false)
    ensures Building(s0, s', r, top - {v})
  {
    UnmapBorrowed(s, s', r, v);
    assert Isolated(s, s', r);
    IsolatedTrans(s0, s, s', r);
    forall v2 | 0 <= v2 < MAXVPN && v2 in top - {v} ensures Borrowed(s', r, v2) {
      BorrowedKept(s, s', r, v, v2);
    }
  }

  lemma BuildFacts(s0: Snap, s: Snap, r: nat, top: set<nat>)
    requires Building(s0, s, r, top)
    ensures IsRoot(s, r) && |s.own| == |s0.own| && s.lo == s0.lo && s0.own[r] == Free
    ensures forall v :: 0 <= v < MAXVPN && v !in top ==> Lookup(s.mem, r, v) == None
    ensures forall v :: 0 <= v < MAXVPN && v in top ==> Lookup(s.mem, r, v).Some? && Borrowed(s, r, v)
    ensures Isolated(s0, s, r)
    ensures forall f :: 0 <= f < |s0.own| && (s0.own[f] == Kernel || s0.own[f] == Held) ==> s.own[f] == s0.own[f]
  {
    hide Lookup, TableAt, Owns;
  }

  lemma BuildGone(s0: Snap, s: Snap, s': Snap, r: nat)
    requires Inv(s0) && Building(s0, s, r, {}) && Gone(s, s', r)
    ensures Conserved(s0, s')
  {
    StartedAndGone(s0, s, s', r);
  }

  lemma BuildDone(lab: Lab, s0: Snap, s: Snap, s': Snap, r: nat)
    requires lab.usys && Inv(s) && Building(s0, s, r, {TRAMPVPN, TRAPVPN}) && Added(s, s', r, USYSVPN, 1)
    ensures ProcSpace(lab, s', r, 0) && Isolated(s0, s', r)
  {
    hide Isolated, Building, Added, Owns, Borrowed, Lookup, TableAt, Inv;
    BuildFacts(s0, s, r, {TRAMPVPN, TRAPVPN});
    AddedFacts(s, s', r, USYSVPN, 1);
    IsolatedTrans(s0, s, s', r);
    AddedOwns(s, s', r, USYSVPN, 1);
    BorrowedAdded(s, s', r, TRAMPVPN);
    BorrowedAdded(s, s', r, TRAPVPN);
    assert UserSpace(s', r, 0);
  }

  lemma BorrowedAdded(s: Snap, s': Snap, r: nat, v: nat)
    requires Inv(s) && IsRoot(s, r) && Added(s, s', r, USYSVPN, 1) && USYSVPN < v < MAXVPN && Borrowed(s, r, v)
    ensures Borrowed(s', r, v)
  {
    LookupOwner(s, r, v);
    var c := Lookup(s.mem, r, v).value.ppn;
    assert Lookup(s'.mem, r, v) == Lookup(s.mem, r, v);
    assert s'.own[c] == s.own[c] || IsTab(s'.own[c], r) || (s'.own[c].User? && s'.own[c].vpn == USYSVPN);
  }

  /** proc_pagetable without the USYSCALL page, as in the system-call lab, and the first
      half of the page-table lab's: it takes three pages, the root and the two lower
      page-table pages, or fails and leaves every frame as it was. */
  method MapTop(k: Kmem, trampoline: nat, trapframe: nat) returns (pagetable: nat)
    requires Inv(k.G()) && trampoline < |k.own| && k.own[trampoline] == Kernel
    requires trapframe < |k.own| && k.own[trapframe] == Held
    modifies k, k.mem
    ensures Inv(k.G())
    ensures pagetable == 0 <==> |old(k.free)| < 3
    ensures pagetable == 0 ==> Conserved(old(k.G()), k.G())
    ensures pagetable != 0 ==>
              |k.free| == |old(k.free)| - 3 && Building(old(k.G()), k.G(), pagetable, {TRAMPVPN, TRAPVPN})
    ensures pagetable != 0 ==> TableAt(k.mem[..], pagetable, TRAPVPN, 0).Some? && PlainSpace(k.G(), pagetable, 0)
    ensures pagetable != 0 ==> TopMapped(k.mem[..], pagetable, trampoline, trapframe) && Tidy(k.mem[..], pagetable, 0)
  {
    hide Tidy, Laid, Inv, Mapping, Unmapping, Building, Isolated, ProcSpace, PlainSpace, Gone, Conserved, Lookup,
         TableAt, Missing, Borrowed;
    ghost var s0 := k.G();
    ConservedRefl(s0);
    pagetable := Uvmcreate(k);
    if pagetable == 0 { return 0; }
    ghost var s1 := k.G();
    BuildStart(s0, s1, pagetable);
    BuildFacts(s0, s1, pagetable, {});
    EmptyTidy(s1.mem, pagetable);
    var ok := MapPage(k, pagetable, TRAMPOLINE, trampoline, TRAMPFLAGS, false);
    ghost var s2 := k.G();
    if !ok {
      BuildFailed(s0, s1, s2, pagetable, TRAMPVPN, trampoline, TRAMPFLAGS);
      BuildFacts(s0, s2, pagetable, {});
      Uvmfree(k, pagetable, 0);
      BuildGone(s0, s2, k.G(), pagetable);
      return 0;
    }
    BuildBorrow(s0, s1, s2, pagetable, {}, TRAMPVPN, trampoline, TRAMPFLAGS);
    BorrowStep(s1, s2, pagetable, TRAMPVPN, trampoline, TRAMPFLAGS);
    BuildFacts(s0, s2, pagetable, {} + {TRAMPVPN});
    SharedTable(s2.mem, pagetable, TRAMPVPN, TRAPVPN);
    TidyTop(s1.mem, s2.mem, pagetable, 0, TRAMPVPN);
    ok := MapPage(k, pagetable, TRAPFRAME, trapframe, TRAPFLAGS, false);
    if !ok { assert false; }  // the page-table page that this mapping needs exists already
    ghost var s3 := k.G();
    TidyTop(s2.mem, s3.mem, pagetable, 0, TRAPVPN);
    BuildBorrow(s0, s2, s3, pagetable, {} + {TRAMPVPN}, TRAPVPN, trapframe, TRAPFLAGS);
    BorrowStep(s2, s3, pagetable, TRAPVPN, trapframe, TRAPFLAGS);
    assert {} + {TRAMPVPN} + {TRAPVPN} == {TRAMPVPN, TRAPVPN};
    BuildPlain(s0, s3, pagetable);
  }

  lemma EmptyTidy(m: seq<Frame>, r: nat)
    requires forall v :: 0 <= v < MAXVPN ==> Missing(m, r, v) == 2
    ensures Tidy(m, r, 0)
  {
    forall v, l: nat | 0 <= v < LOWVPN && l <= 1 ensures TableAt(m, r, v, l).Some? <==> Covers(0, 0, v, l) {
      assert Missing(m, r, v) == 2;
    }
  }

  lemma BuildPlain(s0: Snap, s: Snap, r: nat)
    requires Building(s0, s, r, {TRAMPVPN, TRAPVPN})
    ensures PlainSpace(s, r, 0)
  {
    hide Lookup, Owns, Isolated;
  }

  /** proc_pagetable takes three pages, the root and two lower page-table pages, which the
      top pages share, and in the page-table lab a fourth for struct usyscall.  With fewer
      than three free it returns 0; the page-table lab's reaches the write to address 0
      with exactly three.  When it does not succeed every frame is as before. */
  method ProcPagetable(lab: Lab, k: Kmem, trampoline: nat, trapframe: nat, pid: nat) returns (b: Built)
    requires Inv(k.G()) && trampoline < |k.own| && k.own[trampoline] == Kernel
    requires trapframe < |k.own| && k.own[trapframe] == Held
    modifies k, k.mem
    ensures Inv(k.G())
    ensures b.NoMemory? <==> |old(k.free)| < 3
    ensures b.NullWrite? <==> lab.usys && |old(k.free)| == 3
    ensures !b.Made? ==> Conserved(old(k.G()), k.G())
    ensures b.Made? ==>
              && b.root < |old(k.own)| && old(k.own)[b.root] == Free && |k.free| == |old(k.free)| - TopCost(lab)
              && Isolated(old(k.G()), k.G(), b.root) && ProcSpace(lab, k.G(), b.root, 0)
              && (lab.usys ==> PageIs(k.G(), b.root, USYSVPN, USYSFLAGS.(v := true), UsyscallPage(pid)))
              && MapOk(k.mem[..], b.root, trampoline, trapframe) && Tidy(k.mem[..], b.root, 0)
    ensures b.Made? && lab.usys && pid < 0x1_0000_0000 ==> ShowsPid(k.mem[..], b.root, pid)
  {
    hide ShowsPid, Rights, Tidy, TopMapped, Inv, Building, Isolated, ProcSpace, PlainSpace, PageIs, Conserved, Lookup,
         TableAt,
         UsyscallPage;
    ghost var s0 := k.G();
    var pagetable := MapTop(k, trampoline, trapframe);
    if pagetable == 0 { return NoMemory; }
    BuildFacts(s0, k.G(), pagetable, {TRAMPVPN, TRAPVPN});
    if !lab.usys {
      PlainIs(lab, k.G(), pagetable, 0);
      RightsNew(lab, k.G(), pagetable, pid);
      return Made(pagetable);
    }
    b := MapUsyscall(lab, k, pagetable, pid, s0, trampoline, trapframe);
    if b.Made? {
      RightsNew(lab, k.G(), pagetable, pid);
      MadeRoot(lab, k.G(), pagetable);
      if pid < 0x1_0000_0000 { PidShown(k.G(), pagetable, pid); }
    }
  }

  lemma MadeRoot(lab: Lab, s: Snap, r: nat)
    requires ProcSpace(lab, s, r, 0)
    ensures IsRoot(s, r)
  {
  }

  lemma ConservedRefl(s: Snap)
    requires Inv(s)
    ensures Conserved(s, s)
  {
  }

  /** The page-table lab's addition to proc_pagetable, from the allocation of struct usyscall on. */
  method MapUsyscall(lab: Lab, k: Kmem, pagetable: nat, pid: nat, ghost s0: Snap, ghost trampoline: nat, ghost tf: nat)
    returns (b: Built)
    requires lab.usys && Inv(s0) && Inv(k.G()) && Building(s0, k.G(), pagetable, {TRAMPVPN, TRAPVPN})
    requires TableAt(k.mem[..], pagetable, TRAPVPN, 0).Some?
    requires TopMapped(k.mem[..], pagetable, trampoline, tf) && Tidy(k.mem[..], pagetable, 0)
    modifies k, k.mem
    ensures Inv(k.G())
    ensures if old(k.free) == [] then b == NullWrite else b == Made(pagetable)
    ensures b.NullWrite? ==> Conserved(s0, k.G())
    ensures b.Made? ==>
              && |k.free| == |old(k.free)| - 1 && Isolated(s0, k.G(), pagetable) && ProcSpace(lab, k.G(), pagetable, 0)
              && PageIs(k.G(), pagetable, USYSVPN, USYSFLAGS.(v := true), UsyscallPage(pid))
              && TopMapped(k.mem[..], pagetable, trampoline, tf) && Tidy(k.mem[..], pagetable, 0)
  {
    hide Tidy, Laid, SameTabs, TopMapped, Inv, Mapping, Unmapping, Building, Isolated, ProcSpace, Added, PageIs, Gone,
         Conserved, Taken, Lookup, TableAt, Missing, UsyscallPage, Popped;
    ghost var s3, x := k.G(), UsyscallPage(pid);
    BuildFacts(s0, s3, pagetable, {TRAMPVPN, TRAPVPN});
    UsyscallIsPage(pid);
    if s3.free != [] { FreshFrame(s3, pagetable, USYSVPN, x); }
    var pa := NewPage(k, UsyscallPage(pid));
    if pa == 0 {
      Uvmunmap(k, pagetable, TRAPFRAME, 1, false);
      ghost var s4 := k.G();
      BuildUnmap(s0, s3, s4, pagetable, {TRAMPVPN, TRAPVPN}, TRAPVPN);
      assert {TRAMPVPN, TRAPVPN} - {TRAPVPN} == {TRAMPVPN};
      BuildFacts(s0, s4, pagetable, {TRAMPVPN});
      Uvmunmap(k, pagetable, TRAMPOLINE, 1, false);
      ghost var s5 := k.G();
      BuildUnmap(s0, s4, s5, pagetable, {TRAMPVPN}, TRAMPVPN);
      assert {TRAMPVPN} - {TRAMPVPN} == {};
      BuildFacts(s0, s5, pagetable, {});
      Uvmfree(k, pagetable, 0);
      BuildGone(s0, s5, k.G(), pagetable);
      return NullWrite;
    }
    ghost var s4 := k.G();
    SharedTable(s3.mem, pagetable, TRAPVPN, USYSVPN);
    var ok := MapPage(k, pagetable, USYSCALL, pa, USYSFLAGS, true);
    if !ok { assert false; }  // the page-table page that this mapping needs exists already
    FreshMapped(s3, s4, k.G(), pagetable, USYSVPN, pa, USYSFLAGS);
    BuildDone(lab, s0, s3, k.G(), pagetable);
    TidySame(s3.mem, s4.mem, pagetable, 0);
    TidyTop(s4.mem, k.mem[..], pagetable, 0, USYSVPN);
    TopAdded(s3, k.G(), pagetable, USYSVPN, 1, trampoline, tf);
    return Made(pagetable);
  }

  lemma TopAdded(s: Snap, s': Snap, r: nat, v0: nat, n: nat, trampoline: nat, tf: nat)
    requires IsRoot(s, r) && Added(s, s', r, v0, n) && v0 + n <= TRAPVPN && TopMapped(s.mem, r, trampoline, tf)
    ensures TopMapped(s'.mem, r, trampoline, tf)
  {
    AddedFacts(s, s', r, v0, n);
    TopSame(s.mem, s'.mem, r, trampoline, tf);
  }

  lemma UsyscallIsPage(pid: nat)
    ensures IsPage(UsyscallPage(pid))
  {
  }

  // ---- growproc

  lemma BorrowedKeeps(s: Snap, s': Snap, r: nat, v: nat)
    requires Inv(s) && IsRoot(s, r) && v < MAXVPN && Borrowed(s, r, v) && |s'.own| == |s.own|
    requires Lookup(s'.mem, r, v) == Lookup(s.mem, r, v)
    requires forall f :: 0 <= f < |s.own| && s'.own[f].User? && s'.own[f].space == r && s'.own[f].vpn == v ==>
               s'.own[f] == s.own[f]
    ensures Borrowed(s', r, v)
  {
  }

  lemma AddedSpace(lab: Lab, s: Snap, s': Snap, r: nat, n: nat, v0: nat, m: nat)
    requires Inv(s) && ProcSpace(lab, s, r, n) && Added(s, s', r, v0, m) && v0 + m <= USYSVPN
             && UserSpace(s', r, v0 + m)
    ensures ProcSpace(lab, s', r, v0 + m)
  {
    AddedFacts(s, s', r, v0, m);
    hide TableAt, Lookup;
    BorrowedKeeps(s, s', r, TRAMPVPN);
    BorrowedKeeps(s, s', r, TRAPVPN);
    assert UsysOk(lab, s', r);
  }

  lemma GrowProcSpace(lab: Lab, s: Snap, s': Snap, r: nat, n: nat)
    requires Inv(s) && ProcSpace(lab, s, r, n) && Grow(s, s', r)
    ensures ProcSpace(lab, s', r, n)
  {
    GrowSpace(s, s', r, n);
    hide TableAt, Lookup;
    BorrowedKeeps(s, s', r, TRAMPVPN);
    BorrowedKeeps(s, s', r, TRAPVPN);
  }

  lemma UnmapSpace(lab: Lab, s: Snap, s': Snap, r: nat, n: nat, m: nat)
    requires Inv(s) && ProcSpace(lab, s, r, n) && m <= n && Unmapping(s, s', r, m, n - m, true)
    ensures ProcSpace(lab, s', r, m)
  {
    hide Inv, ProcSpace, UsysOk, Unmapping, Owns, Borrowed, Lookup, TableAt;
    UnmappingRoot(s, s', r, m, n - m, true);
    ProcSpaceFacts(lab, s, r, n);
    UnmapLookups(lab, s, s', r, n, m);
    UnmapOwners(s, s', r, m, n - m);
    BorrowedKeeps(s, s', r, TRAMPVPN);
    BorrowedKeeps(s, s', r, TRAPVPN);
    ProcSpaceIs(lab, s', r, m);
  }

  lemma UnmapOwners(s: Snap, s': Snap, r: nat, v0: nat, n: nat)
    requires Unmapping(s, s', r, v0, n, true)
    ensures |s'.own| == |s.own|
    ensures forall f :: 0 <= f < |s.own| && s'.own[f].User? ==> s'.own[f] == s.own[f]
  {
    hide MapRemoved;
  }

  lemma ProcSpaceIs(lab: Lab, s: Snap, r: nat, n: nat)
    requires IsRoot(s, r) && n <= USYSVPN
    requires Borrowed(s, r, TRAMPVPN) && Borrowed(s, r, TRAPVPN) && UsysOk(lab, s, r)
    requires forall v :: 0 <= v < n ==> Owns(s, r, v)
    requires forall v :: n <= v < USYSVPN ==> Lookup(s.mem, r, v) == None
    ensures ProcSpace(lab, s, r, n)
  {
    hide Owns, Borrowed, Lookup, UsysOk;
  }

  lemma UnmapLookups(lab: Lab, s: Snap, s': Snap, r: nat, n: nat, m: nat)
    requires ProcSpace(lab, s, r, n) && m <= n && Unmapping(s, s', r, m, n - m, true)
    ensures forall v :: USYSVPN <= v < MAXVPN ==> Lookup(s'.mem, r, v) == Lookup(s.mem, r, v)
    ensures UsysOk(lab, s', r)
    ensures forall v :: 0 <= v < m ==> Owns(s', r, v)
    ensures forall v :: m <= v < USYSVPN ==> Lookup(s'.mem, r, v) == None
  {
    hide TableAt, Lookup;
    forall v | 0 <= v < m ensures Owns(s', r, v) {
      assert Owns(s, r, v);
    }
  }

  class Proc {
    var pagetable: nat          // 0 for none
    var sz: uint64
    var trapframe: nat          // page of the trapframe, 0 for none
    var originalTrapframe: nat  // page of the saved trapframe; not cleared by freeproc
    var pid: nat

    constructor ()
      ensures pagetable == 0 && sz == 0 && trapframe == 0 && originalTrapframe == 0 && pid == 0
    {
      pagetable, sz, trapframe, originalTrapframe, pid := 0, 0, 0, 0, 0;
    }
  }

  /** 4 GB of memory: growproc and exec keep sizes in 32 bits. */
  const POOL32: int := 0x10_0000

  /** The size that growproc(n) asks for: sums are taken modulo 2^32, and uvmalloc and
      uvmdealloc ignore a change in the wrong direction. */
  function SzAfter(sz: nat, n: int): nat {
    var t := (sz + n) % 0x1_0000_0000;
    if n > 0 then (if t < sz then sz else t)
    else if n < 0 then (if t >= sz then sz else t)
    else sz
  }

  /** Tree r went from sz to sz2 bytes: either exactly the new pages were added, zeroed
      and user-accessible, or exactly the pages no longer needed were removed and freed. */
  ghost predicate Resized(s: Snap, s': Snap, r: nat, sz: nat, sz2: nat) {
    if sz2 > sz then
      && Added(s, s', r, Pages(sz), Pages(sz2) - Pages(sz))
      && ZeroPages(s', r, Pages(sz), Pages(sz2) - Pages(sz))
    else Unmapping(s, s', r, Pages(sz2), Pages(sz) - Pages(sz2), true)
  }

  /** The frames that growproc(n) takes for an n > 0. */
  function GrowthCost(m: seq<Frame>, r: nat, sz: nat, n: int): nat
    requires n > 0
  {
    Cost(m, r, Pages(sz), Pages(SzAfter(sz, n)) - Pages(sz))
  }

  /** growproc fails exactly when it asks for more frames than are free; then at most
      page-table pages have been added. */
  method Growproc(lab: Lab, k: Kmem, p: Proc, n: int) returns (r: int)
    requires Inv(k.G()) && ProcSpace(lab, k.G(), p.pagetable, Pages(p.sz)) && -0x8000_0000 <= n < 0x8000_0000
    requires |k.own| < POOL32
    modifies k, k.mem, p`sz
    ensures Inv(k.G()) && ProcSpace(lab, k.G(), p.pagetable, Pages(p.sz)) && (r == 0 || r == -1)
    ensures r == 0 ==> p.sz == SzAfter(old(p.sz), n) && Resized(old(k.G()), k.G(), p.pagetable, old(p.sz), p.sz)
    ensures r == -1 ==> n > 0 && p.sz == old(p.sz) && Grow(old(k.G()), k.G(), p.pagetable)
    ensures r == -1 <==> n > 0 && GrowthCost(old(k.mem[..]), p.pagetable, old(p.sz), n) > |old(k.free)|
    ensures n > 0 && r == 0 ==> |k.free| == |old(k.free)| - GrowthCost(old(k.mem[..]), p.pagetable, old(p.sz), n)
    ensures forall tr: nat, tf: nat :: MapOk(old(k.mem[..]), p.pagetable, tr, tf) ==>
              MapOk(k.mem[..], p.pagetable, tr, tf)
  {
    hide Cost, Laid, MapOk, Inv, ProcSpace, UserSpace, Added, Unmapping, Grow, ZeroPages, Lookup, TableAt, Owns;
    ghost var s0, n0 := k.G(), Pages(p.sz);
    SpaceBound(lab, s0, p.pagetable, n0);
    UnmapNone(s0, p.pagetable, n0, true);
    CostNone(s0.mem, p.pagetable, n0);
    var sz: uint32 := p.sz;
    if n > 0 {
      var newsz := (sz + n) % 0x1_0000_0000;
      sz := Uvmalloc(k, p.pagetable, sz, newsz);
      if newsz >= p.sz && sz == newsz {
        SpaceTop(k.G(), p.pagetable, Pages(newsz));
        AddedSpace(lab, s0, k.G(), p.pagetable, n0, n0, Pages(newsz) - n0);
        ZeroRights(k.G(), p.pagetable, n0, Pages(newsz) - n0);
        TopsAdded(s0, k.G(), p.pagetable, n0, Pages(newsz) - n0);
      } else if newsz >= p.sz {
        GrowProcSpace(lab, s0, k.G(), p.pagetable, n0);
        TopsGrown(s0, k.G(), p.pagetable);
      }
      if sz == 0 { return -1; }
    } else if n < 0 {
      var newsz := (sz + n) % 0x1_0000_0000;
      sz := Uvmdealloc(k, p.pagetable, sz, newsz);
      if newsz < p.sz {
        UnmapSpace(lab, s0, k.G(), p.pagetable, n0, Pages(newsz));
        TopsUnmapped(lab, s0, k.G(), p.pagetable, n0, Pages(newsz));
      }
    }
    p.sz := sz;
    return 0;
  }

  lemma ZeroRights(s: Snap, r: nat, v0: nat, n: nat)
    requires ZeroPages(s, r, v0, n)
    ensures NewRights(s.mem, r, v0, n)
  {
    hide Lookup, Filled;
    forall v | v0 <= v < v0 + n ensures Writable(s.mem, r, v) {
      assert PageIs(s, r, v, USERFLAGS.(v := true), Filled(0));
    }
  }

  /** Adding user pages that may be written. */
  lemma MapAdds(s: Snap, s': Snap, r: nat, v0: nat, n: nat, trampoline: nat, tf: nat)
    requires IsRoot(s, r) && Added(s, s', r, v0, n) && v0 + n <= USYSVPN && NewRights(s'.mem, r, v0, n)
    requires MapOk(s.mem, r, trampoline, tf)
    ensures MapOk(s'.mem, r, trampoline, tf)
  {
    AddedFacts(s, s', r, v0, n);
    hide Lookup, Added;
    forall v | 0 <= v < USYSVPN ensures Writable(s'.mem, r, v) { assert Writable(s.mem, r, v); }
  }

  lemma TopsAdded(s: Snap, s': Snap, r: nat, v0: nat, n: nat)
    requires IsRoot(s, r) && Added(s, s', r, v0, n) && v0 + n <= USYSVPN && NewRights(s'.mem, r, v0, n)
    ensures forall tr: nat, tf: nat :: MapOk(s.mem, r, tr, tf) ==> MapOk(s'.mem, r, tr, tf)
  {
    hide MapOk, Added, Lookup;
    forall tr: nat, tf: nat | MapOk(s.mem, r, tr, tf) ensures MapOk(s'.mem, r, tr, tf) {
      MapAdds(s, s', r, v0, n, tr, tf);
    }
  }

  lemma TopsGrown(s: Snap, s': Snap, r: nat)
    requires IsRoot(s, r) && Grow(s, s', r)
    ensures forall tr: nat, tf: nat :: MapOk(s.mem, r, tr, tf) ==> MapOk(s'.mem, r, tr, tf)
  {
    hide MapOk, Lookup;
    forall tr: nat, tf: nat | MapOk(s.mem, r, tr, tf) ensures MapOk(s'.mem, r, tr, tf) {
      MapSame(s.mem, s'.mem, r, tr, tf);
    }
  }

  lemma TopsUnmapped(lab: Lab, s: Snap, s': Snap, r: nat, n: nat, m: nat)
    requires ProcSpace(lab, s, r, n) && m <= n && Unmapping(s, s', r, m, n - m, true)
    ensures forall tr: nat, tf: nat :: MapOk(s.mem, r, tr, tf) ==> MapOk(s'.mem, r, tr, tf)
  {
    UnmapLookups(lab, s, s', r, n, m);
    forall v | 0 <= v < USYSVPN && Writable(s.mem, r, v) ensures Writable(s'.mem, r, v) {
      hide Lookup, TableAt;
    }
    hide Lookup, ProcSpace, Unmapping;
  }

  /** A process is smaller than memory. */
  lemma SpaceBound(lab: Lab, s: Snap, r: nat, n: nat)
    requires Inv(s) && ProcSpace(lab, s, r, n)
    ensures IsRoot(s, r) && UserSpace(s, r, n) && n <= |s.own| < LOWVPN && n <= USYSVPN
    ensures forall v :: 0 <= v < n ==> Owns(s, r, v)
  {
    OwnedBound(s, r, n);
  }

  lemma SpaceTop(s: Snap, r: nat, n: nat)
    requires UserSpace(s, r, n)
    ensures n <= USYSVPN
  {
  }

  /** What growproc does as user code sees it: what stays keeps its bytes, what is new is zero and has
      all rights, nothing is accessible from the new end up to the pages at the top, and those are as before. */
  lemma ResizedSeen(lab: Lab, s: Snap, s': Snap, r: nat, sz: nat, sz2: nat, a: nat)
    requires Inv(s) && Inv(s') && ProcSpace(lab, s, r, Pages(sz)) && ProcSpace(lab, s', r, Pages(sz2))
    requires Resized(s, s', r, sz, sz2)
    ensures UByte(s'.mem, r, a) ==
            if a >= 0x3F_FFFF_D000 then UByte(s.mem, r, a)
            else if a >= Pages(sz2) * 4096 then None
            else if a >= Pages(sz) * 4096 then Some(0)
            else UByte(s.mem, r, a)
    ensures Pages(sz) * 4096 <= a < Pages(sz2) * 4096 ==> UserRwx(s'.mem, r, a / 4096)
  {
    hide Inv, Added, Unmapping, UByte, UserRwx, Lookup, ProcSpace, ZeroPages, UserPage;
    ProcSpaceFacts(lab, s, r, Pages(sz));
    ProcSpaceFacts(lab, s', r, Pages(sz2));
    var v := a / 4096;
    if sz2 > sz { PagesOrder(sz, sz2); } else { PagesOrder(sz2, sz); }
    if a < 0x3F_FFFF_D000 && v >= Pages(sz2) {
      NotMapped(s', r, a);
    } else if v >= Pages(sz) && v < Pages(sz2) {
      ZeroPagesSeen(s', r, Pages(sz), Pages(sz2) - Pages(sz));
    } else if a < MAXVA {
      ResizedSame(s, s', r, sz, sz2, a);
    } else {
      BeyondTop(s, s', r, a);
    }
  }

  lemma PagesOrder(sz: nat, sz2: nat)
    requires sz <= sz2
    ensures Pages(sz) <= Pages(sz2)
  {
  }

  lemma BeyondTop(s: Snap, s': Snap, r: nat, a: nat)
    requires a >= MAXVA
    ensures UByte(s'.mem, r, a) == UByte(s.mem, r, a)
  {
  }

  lemma NotMapped(s: Snap, r: nat, a: nat)
    requires a < MAXVA && Lookup(s.mem, r, a / 4096) == None
    ensures UByte(s.mem, r, a) == None
  {
    hide Lookup;
  }

  /** A page outside the range that was added or removed. */
  lemma ResizedSame(s: Snap, s': Snap, r: nat, sz: nat, sz2: nat, a: nat)
    requires Inv(s) && IsRoot(s, r) && Resized(s, s', r, sz, sz2) && a < MAXVA
    requires a / 4096 >= Pages(sz) <==> a / 4096 >= Pages(sz2)
    ensures UByte(s'.mem, r, a) == UByte(s.mem, r, a)
  {
    hide Inv, Lookup, TableAt, ZeroPages;
    assert Lookup(s'.mem, r, a / 4096) == Lookup(s.mem, r, a / 4096);
    if UserPage(s.mem, r, a) != 0 { UserPageOwned(s, r, a); }
  }

  lemma SzBack(sz: nat, n: int)
    requires 0 <= n && sz + n < 0x1_0000_0000
    ensures SzAfter(sz, n) == sz + n && SzAfter(sz + n, -n) == sz
  {
  }

  /** A shrink by more than there is does nothing: the negative sum wraps to a large number. */
  lemma ShrinkTooFar(sz: nat, n: int)
    requires -0x8000_0000 <= n < 0 && sz < 0x1_0000_0000
    ensures SzAfter(sz, n) == if sz + n < 0 then sz else sz + n
  {
    if sz + n < 0 { assert (sz + n) % 0x1_0000_0000 == sz + n + 0x1_0000_0000; }
  }

  /** A growth whose end does not fit in 32 bits does nothing and succeeds. */
  lemma GrowTooFar(sz: nat, n: int)
    requires 0 < n < 0x8000_0000 && sz < 0x1_0000_0000
    ensures SzAfter(sz, n) == if sz + n < 0x1_0000_0000 then sz + n else sz
  {
    if sz + n >= 0x1_0000_0000 { assert (sz + n) % 0x1_0000_0000 == sz + n - 0x1_0000_0000; }
  }

  /** Growing by n and then shrinking by n gives back the size and the map, for any
      unaligned sizes whose sum does not wrap: at most page-table pages were added. */
  lemma GrowThenShrink(lab: Lab, s: Snap, s1: Snap, s2: Snap, r: nat, sz: nat, n: int, sz1: nat, sz2: nat)
    requires 0 <= n && Inv(s) && ProcSpace(lab, s, r, Pages(sz)) && sz + n < 0x1_0000_0000
    requires sz1 == SzAfter(sz, n) && sz2 == SzAfter(sz1, -n)
    requires Resized(s, s1, r, sz, sz1) && Resized(s1, s2, r, sz1, sz2)
    ensures sz2 == sz && Grow(s, s2, r)
  {
    hide Inv, ProcSpace, Added, Unmapping, Grow, ZeroPages, Lookup, TableAt, Owns, SzAfter;
    SzBack(sz, n);
    ProcSpaceFacts(lab, s, r, Pages(sz));
    if n == 0 {
      UnmappedNothing(s, s1, r, Pages(sz));
      UnmappedNothing(s1, s2, r, Pages(sz));
      GrowTrans(s, s1, s2, r);
    } else {
      GrowRefl(s1, r);
      AddedUndone(s, s1, s1, s2, r, Pages(sz), Pages(sz + n) - Pages(sz));
    }
  }

  lemma UnmappedNothing(s: Snap, s': Snap, r: nat, v0: nat)
    requires Unmapping(s, s', r, v0, 0, true)
    ensures Grow(s, s', r)
  {
    hide TableAt, Lookup;
  }
}
