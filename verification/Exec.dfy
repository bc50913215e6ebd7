/** exec.c: the new image is built beside the old one and swapped in at the very end, so
    exec either does everything or leaves the process and memory as they were. */
module Exec {
  import opened Types
  import opened Riscv
  import opened Phys
  import opened PhysUpdate
  import opened Kalloc
  import opened Tables
  import opened Vm
  import opened UserVm
  import opened Freewalk
  import opened ProcMem
  import opened CopyUser
  import opened ExecImage
  import opened ExecArgs

  /** What exec does: it succeeds, fails and returns -1, or hits one of two defects:
      proc_pagetable's write to address 0, the store past the end of ustack. */
  datatype Result = Argc(argc: nat) | Bad | Crash | Smash

  // ---- address spaces that an operation on another tree does not concern

  lemma OtherSpace(lab: Lab, s: Snap, s': Snap, r: nat, r2: nat, n: nat)
    requires Inv(s) && ProcSpace(lab, s, r2, n) && Isolated(s, s', r) && r2 != r
    ensures ProcSpace(lab, s', r2, n)
  {
    ProcSpaceFacts(lab, s, r2, n);
    forall v | 0 <= v < MAXVPN
      ensures Lookup(s'.mem, r2, v) == Lookup(s.mem, r2, v) && IsRoot(s', r2) && (Owns(s, r2, v) ==> Owns(s', r2, v))
    {
      OthersUnchanged(s, s', r, r2, v);
    }
    hide Inv, ProcSpace, TableAt, Lookup, Owns;
    BorrowedKeeps(s, s', r2, TRAMPVPN);
    BorrowedKeeps(s, s', r2, TRAPVPN);
    ProcSpaceIs(lab, s', r2, n);
  }

  lemma OtherBytes(s: Snap, s': Snap, r: nat, r2: nat, a: nat)
    requires Inv(s) && IsRoot(s, r2) && Isolated(s, s', r) && r2 != r
    ensures UByte(s'.mem, r2, a) == UByte(s.mem, r2, a)
    ensures UserPage(s'.mem, r2, a) == UserPage(s.mem, r2, a)
  {
    if a < MAXVA { OthersUnchanged(s, s', r, r2, a / PGSIZE); }
    if UserPage(s.mem, r2, a) != 0 { UserPageOwned(s, r2, a); }
  }

  lemma GoneIsolated(s: Snap, s': Snap, r: nat)
    requires Inv(s) && Gone(s, s', r)
    ensures Isolated(s, s', r)
  {
  }

  /** Writing a held page, such as a trapframe. */
  lemma HeldWrite(lab: Lab, s: Snap, tf: nat, x: Frame, r: nat, n: nat)
    requires Inv(s) && tf < |s.own| && s.own[tf] == Held && IsPage(x) && ProcSpace(lab, s, r, n)
    ensures tf < |s.mem|
    ensures var s' := WithFrame(s, tf, x);
            && Inv(s') && ProcSpace(lab, s', r, n) && s'.own == s.own && SameMaps(s, s')
            && forall a: nat ::
                 UByte(s'.mem, r, a) == UByte(s.mem, r, a) && UserPage(s'.mem, r, a) == UserPage(s.mem, r, a)
  {
    WriteKeeps(s, tf, x);
    var s' := WithFrame(s, tf, x);
    SameOwners(lab, s, s', r, n);
    ProcSpaceFacts(lab, s, r, n);
    forall a: nat ensures UByte(s'.mem, r, a) == UByte(s.mem, r, a) && UserPage(s'.mem, r, a) == UserPage(s.mem, r, a) {
      hide Inv, Lookup, ProcSpace;
      if UserPage(s.mem, r, a) != 0 { UserPageOwned(s, r, a); }
    }
  }

  // ---- the user stack

  lemma ImageReflagged(lab: Lab, s0: Snap, s: Snap, s': Snap, r: nat, sz: nat, v: nat, fl: Flags)
    requires Image(lab, s0, s, r, sz) && Inv(s') && Reflagged(s, s', r, v, fl) && v < Pages(sz)
    ensures Image(lab, s0, s', r, sz)
  {
    hide TableAt, Inv;
    ProcSpaceFacts(lab, s, r, Pages(sz));
    hide Lookup;
    assert Isolated(s, s', r);
    IsolatedTrans(s0, s, s', r);
    hide Isolated, ProcSpace;
    BorrowedKeeps(s, s', r, TRAMPVPN);
    BorrowedKeeps(s, s', r, TRAPVPN);
    forall u | 0 <= u < Pages(sz) ensures Owns(s', r, u) {
      assert Owns(s, r, u);
    }
    ProcSpaceIs(lab, s', r, Pages(sz));
  }

  lemma BytesReflagged(s: Snap, s': Snap, r: nat, v: nat, fl: Flags, a: nat)
    requires Inv(s) && IsRoot(s, r) && Reflagged(s, s', r, v, fl) && v < MAXVPN && !fl.u
    ensures a / PGSIZE == v ==> UserPage(s'.mem, r, a) == 0
    ensures a / PGSIZE != v ==>
              UByte(s'.mem, r, a) == UByte(s.mem, r, a) && UserPage(s'.mem, r, a) == UserPage(s.mem, r, a)
  {
    hide TableAt, Lookup;
    if UserPage(s.mem, r, a) != 0 { UserPageOwned(s, r, a); }
  }

  /** The stack is the last page, accessible, above an inaccessible guard page. */
  ghost predicate StackOk(s: Snap, r: nat, sz: nat) {
    && sz >= 2 * PGSIZE
    && (forall a :: sz - 2 * PGSIZE <= a < sz - PGSIZE ==> UserPage(s.mem, r, a) == 0)
    && (forall a :: sz - PGSIZE <= a < sz ==> UserPage(s.mem, r, a) != 0)
  }

  /** Two more pages at the next page boundary, the first of them made inaccessible. */
  method MakeStack(lab: Lab, k: Kmem, pagetable: nat, ip: Inode, phnum: nat, size: uint64,
                   ghost s0: Snap, ghost tr: nat, ghost tf: nat)
    returns (ok: bool, sz: uint64)
    requires Inv(s0) && Image(lab, s0, k.G(), pagetable, size) && AllUser(k.G(), pagetable, Pages(size))
    requires Loadable(ip, phnum) && size == ImageSize(ip, phnum)
             && Loaded(k.G(), pagetable, ip, phnum, Pages(size) * PGSIZE)
    requires Spent(lab, s0, k.G(), pagetable, size, tr, tf)
    modifies k, k.mem
    ensures Image(lab, s0, k.G(), pagetable, sz)
    ensures ok ==> sz == PgRoundUp(size) + 2 * PGSIZE && StackOk(k.G(), pagetable, sz)
    ensures ok ==> Loaded(k.G(), pagetable, ip, phnum, sz - 2 * PGSIZE)
    ensures ok <==> Fits(lab, s0, PgRoundUp(size) + 2 * PGSIZE)
    ensures ok ==> MapOk(k.mem[..], pagetable, tr, tf) && SameUsys(old(k.mem[..]), k.mem[..], pagetable)
  {
    hide SameUsys, Inv, Image, AllUser, Loaded, Fits, Spent, Cost, Laid, MapOk, UserSpace, Added, ZeroPages, Grow,
         Reflagged, StackOk, Lookup;
    ghost var s1 := k.G();
    ImageFacts(lab, s0, s1, pagetable, size);
    sz := PgRoundUp(size);
    assert Pages(sz) == Pages(size) && Pages(sz + 2 * PGSIZE) == Pages(size) + 2;
    ImageUp(lab, s0, s1, pagetable, size, sz, tr, tf);
    SpentRoom(lab, s0, s1, pagetable, sz, sz + 2 * PGSIZE, tr, tf);
    var sz1 := Uvmalloc(k, pagetable, sz, sz + 2 * PGSIZE);
    ghost var s2 := k.G();
    if sz1 == 0 {
      ImageGrown(lab, s0, s1, s2, pagetable, sz);
      return false, sz;
    }
    ImageAdded(lab, s0, s1, s2, pagetable, sz, sz1);
    LoadedAdded(s1, s2, pagetable, ip, phnum, sz1);
    SpentAdded(lab, s0, s1, s2, pagetable, sz, sz1, tr, tf);
    sz := sz1;
    GuardMapped(lab, s0, s2, pagetable, sz);
    Uvmclear(k, pagetable, sz - 2 * PGSIZE);
    ImageReflagged(lab, s0, s2, k.G(), pagetable, sz, sz / PGSIZE - 2,
                   Lookup(s2.mem, pagetable, sz / PGSIZE - 2).value.flags.(u := false));
    StackMade(lab, s0, s2, k.G(), pagetable, sz, ip, phnum);
    TopReflagged(lab, s0, s2, k.G(), pagetable, sz,
                 Lookup(s2.mem, pagetable, sz / PGSIZE - 2).value.flags.(u := false), tr, tf);
    StackUsys(lab, s0, s1, s2, k.G(), pagetable, sz,
              Lookup(s2.mem, pagetable, sz / PGSIZE - 2).value.flags.(u := false));
    return true, sz;
  }

  /** Neither the stack nor its guard page is at USYSCALL. */
  lemma StackUsys(lab: Lab, s0: Snap, s1: Snap, s2: Snap, s3: Snap, r: nat, sz: nat, fl: Flags)
    requires sz >= 2 * PGSIZE && Inv(s0) && Image(lab, s0, s1, r, sz - 2 * PGSIZE) && Image(lab, s0, s2, r, sz)
    requires sz % PGSIZE == 0 && Added(s1, s2, r, Pages(sz - 2 * PGSIZE), 2) && !fl.u
    requires Reflagged(s2, s3, r, sz / PGSIZE - 2, fl)
    ensures SameUsys(s1.mem, s3.mem, r)
  {
    hide Inv, Image, Added, Reflagged, UByte, UserPage, UserSpace;
    ImageFacts(lab, s0, s1, r, sz - 2 * PGSIZE);
    ImageFacts(lab, s0, s2, r, sz);
    assert Pages(sz - 2 * PGSIZE) + 2 == Pages(sz) == sz / PGSIZE;
    AddedUsys(s1, s2, r, Pages(sz - 2 * PGSIZE), 2);
    forall a: nat | 0x3F_FFFF_D000 <= a < 0x3F_FFFF_E000 ensures UByte(s3.mem, r, a) == UByte(s2.mem, r, a) {
      assert a / PGSIZE == USYSVPN;
      BytesReflagged(s2, s3, r, sz / PGSIZE - 2, fl, a);
    }
  }

  lemma ScribbleUsys(s: Snap, s': Snap, r: nat, lo: nat, hi: nat)
    requires Scribbled(s, s', r, lo, hi) && hi <= USYSVPN * PGSIZE
    ensures SameUsys(s.mem, s'.mem, r)
  {
    hide UByte, SameButPages;
  }

  lemma TopReflagged(lab: Lab, s0: Snap, s: Snap, s': Snap, r: nat, sz: nat, fl: Flags, tr: nat, tf: nat)
    requires Inv(s0) && Image(lab, s0, s, r, sz) && Spent(lab, s0, s, r, sz, tr, tf) && sz >= 2 * PGSIZE
             && sz / PGSIZE == Pages(sz)
    requires Reflagged(s, s', r, sz / PGSIZE - 2, fl) && !fl.u
    ensures MapOk(s'.mem, r, tr, tf)
  {
    hide Lookup, Inv, MapOk;
    ImageFacts(lab, s0, s, r, sz);
    MapCleared(s.mem, s'.mem, r, tr, tf, sz / PGSIZE - 2);
  }

  lemma ImageUp(lab: Lab, s0: Snap, s: Snap, r: nat, size: nat, sz: nat, tr: nat, tf: nat)
    requires Image(lab, s0, s, r, size) && AllUser(s, r, Pages(size)) && Pages(sz) == Pages(size)
             && Spent(lab, s0, s, r, size, tr, tf)
    ensures Image(lab, s0, s, r, sz) && AllUser(s, r, Pages(sz)) && Spent(lab, s0, s, r, sz, tr, tf)
  {
  }

  lemma GuardMapped(lab: Lab, s0: Snap, s: Snap, r: nat, sz: nat)
    requires Inv(s0) && Image(lab, s0, s, r, sz) && AllUser(s, r, Pages(sz)) && sz % PGSIZE == 0 && sz >= 2 * PGSIZE
    ensures Inv(s) && IsRoot(s, r) && sz < MAXVA && sz / PGSIZE == Pages(sz) && Lookup(s.mem, r, sz / PGSIZE - 2).Some?
    ensures (sz - 2 * PGSIZE) / PGSIZE == sz / PGSIZE - 2
  {
    ImageFacts(lab, s0, s, r, sz);
  }

  lemma StackMade(lab: Lab, s0: Snap, s: Snap, s': Snap, r: nat, sz: nat, ip: Inode, n: nat)
    requires Inv(s0) && Image(lab, s0, s, r, sz) && AllUser(s, r, Pages(sz)) && sz % PGSIZE == 0 && sz >= 2 * PGSIZE
    requires Loaded(s, r, ip, n, sz)
    requires Lookup(s.mem, r, sz / PGSIZE - 2).Some?
    requires Reflagged(s, s', r, sz / PGSIZE - 2, Lookup(s.mem, r, sz / PGSIZE - 2).value.flags.(u := false))
    ensures StackOk(s', r, sz) && Loaded(s', r, ip, n, sz - 2 * PGSIZE)
  {
    hide Inv, Lookup, Reflagged, UserSpace, AllUser, Image, UserPage, UByte, ImageByte;
    ImageFacts(lab, s0, s, r, sz);
    var v, fl := sz / PGSIZE - 2, Lookup(s.mem, r, sz / PGSIZE - 2).value.flags.(u := false);
    forall a | sz - 2 * PGSIZE <= a < sz - PGSIZE ensures UserPage(s'.mem, r, a) == 0 {
      BytesReflagged(s, s', r, v, fl, a);
    }
    forall a | sz - PGSIZE <= a < sz ensures UserPage(s'.mem, r, a) != 0 {
      BytesReflagged(s, s', r, v, fl, a);
      UserBelow(s, r, Pages(sz), a);
    }
    forall a | 0 <= a < sz - 2 * PGSIZE ensures UByte(s'.mem, r, a) == Some(ImageByte(ip, n, a)) {
      BytesReflagged(s, s', r, v, fl, a);
    }
  }

  lemma PushedOk(lab: Lab, s0: Snap, s: Snap, s': Snap, r: nat, sz: nat, ip: Inode, n: nat, tr: nat, tf: nat)
    requires Inv(s') && Image(lab, s0, s, r, sz) && StackOk(s, r, sz) && Loaded(s, r, ip, n, sz - 2 * PGSIZE)
             && MapOk(s.mem, r, tr, tf)
    requires Scribbled(s, s', r, sz - PGSIZE, sz)
    ensures Image(lab, s0, s', r, sz) && StackOk(s', r, sz) && Loaded(s', r, ip, n, sz - 2 * PGSIZE)
            && MapOk(s'.mem, r, tr, tf)
  {
    TopScribbled(lab, s0, s, s', r, sz, tr, tf);
    hide Inv, Image, UserPage, UByte, ImageByte, SameMaps, MapOk;
    ImageWrote(lab, s0, s, s', r, sz);
    ImageRoot(lab, s0, s, r, sz);
    ScribbleFacts(s, s', r, sz - PGSIZE, sz);
  }

  lemma TopScribbled(lab: Lab, s0: Snap, s: Snap, s': Snap, r: nat, sz: nat, tr: nat, tf: nat)
    requires Image(lab, s0, s, r, sz) && MapOk(s.mem, r, tr, tf) && SameButPages(s, s', r)
    ensures MapOk(s'.mem, r, tr, tf)
  {
    hide Inv, Lookup, MapOk;
    ImageRoot(lab, s0, s, r, sz);
    MapSame(s.mem, s'.mem, r, tr, tf);
  }

  lemma ImageRoot(lab: Lab, s0: Snap, s: Snap, r: nat, sz: nat)
    requires Image(lab, s0, s, r, sz)
    ensures Inv(s) && IsRoot(s, r) && ProcSpace(lab, s, r, Pages(sz)) && Isolated(s0, s, r) && r < |s0.own| == |s.own|
            && s0.own[r] == Free
  {
    ProcSpaceFacts(lab, s, r, Pages(sz));
  }

  // ---- the whole

  /** The trapframe page after exec: epc at offset 24, sp at 48 and a1 at 120. */
  function ExecTrapframe(x: Frame, entry: nat, sp: nat): (y: Frame)
    requires IsPage(x)
    ensures IsPage(y)
  {
    Page(Patched(Patched(Patched(x.bytes, 120, Le(sp, 8)), 24, Le(entry, 8)), 48, Le(sp, 8)))
  }

  /** The number that bytes stand for, lowest first. */
  function Number(b: seq<byte>): nat { if b == [] then 0 else b[0] + 256 * Number(b[1..]) }

  /** What exec does to the bytes of the trapframe page: the words epc, sp and a1 of struct trapframe
      are the entry, the stack pointer and the address of argv, and all other bytes are as before. */
  predicate Registers(was: seq<byte>, now: seq<byte>, entry: nat, sp: nat) {
    && |was| == |now| == 4096
    && Number(now[24..32]) == entry && Number(now[48..56]) == sp && Number(now[120..128]) == sp
    && now[..24] == was[..24] && now[32..48] == was[32..48] && now[56..120] == was[56..120] && now[128..] == was[128..]
  }

  lemma RegistersSet(x: Frame, entry: uint64, sp: uint64)
    requires IsPage(x)
    ensures Registers(x.bytes, ExecTrapframe(x, entry, sp).bytes, entry, sp)
  {
    EightBytes();
    NumberLe(entry, 8);
    NumberLe(sp, 8);
    var b0, b1 := x.bytes, Patched(x.bytes, 120, Le(sp, 8));
    var b2 := Patched(b1, 24, Le(entry, 8));
    var b3 := Patched(b2, 48, Le(sp, 8));
    assert ExecTrapframe(x, entry, sp) == Page(b3);
    hide Le, Number, Pow256, ExecTrapframe, Patched;
    assert b3[48..56] == Le(sp, 8) && b3[24..32] == b2[24..32] == Le(entry, 8);
    assert b3[120..128] == b2[120..128] == b1[120..128] == Le(sp, 8);
    assert b3[..24] == b0[..24] && b3[32..48] == b0[32..48];
    assert b3[56..120] == b0[56..120] && b3[128..] == b0[128..];
  }

  lemma {:induction false} NumberLe(x: nat, n: nat)
    requires x < Pow256(n)
    ensures Number(Le(x, n)) == x
    decreases n
  {
    if n > 0 {
      LeTail(x, n);
      NumberLe(x / 256, n - 1);
    }
  }

  predicate ElfOk(ip: Inode) { ip.elf.Some? && ip.elf.value.magic == ELF_MAGIC }

  /** The arguments stay on the stack page of an image of sz bytes. */
  predicate ArgsFit(argv: seq<seq<byte>>, sz: nat) { |argv| < MAXARG && VecTop(argv, sz) >= sz - PGSIZE }

  /** All 32 strings fit, so that the store of the null pointer goes past ustack. */
  predicate ArgsSmash(argv: seq<seq<byte>>, sz: nat) { |argv| == MAXARG && ArgTop(argv, sz, MAXARG) >= sz - PGSIZE }

  /** The conditions of exec in numbers: the image ends at the first page boundary at or above the end of
      its last segment, two pages of stack follow, and fewer than 32 strings must fit into the upper one. */
  lemma ExecLimits(ip: Inode, argv: seq<seq<byte>>, sz: nat)
    ensures ElfOk(ip) <==> ip.elf.Some? && ip.elf.value.magic == 0x464C_457F
    ensures ElfOk(ip) ==>
              var end := ImageSize(ip, ip.elf.value.phnum);
              FinalSize(ip) % 4096 == 0 && end + 8192 <= FinalSize(ip) < end + 8192 + 4096
    ensures ArgsFit(argv, sz) <==> |argv| <= 31 && VecTop(argv, sz) >= sz - 4096
    ensures ArgsSmash(argv, sz) <==> |argv| == 32 && ArgTop(argv, sz, 32) >= sz - 4096
  {
    hide ImageSize, VecTop, ArgTop;
  }

  /** The shortest case: 32 empty strings overrun ustack on any image that can be built. */
  lemma EmptyStringsSmash(ip: Inode)
    requires ElfOk(ip)
    ensures ArgsSmash(Repeat<seq<byte>>([], MAXARG), FinalSize(ip))
  {
    hide ImageSize, ArgTop, PgRoundUp;
    EmptyStrings(Repeat<seq<byte>>([], MAXARG), FinalSize(ip), MAXARG);
  }

  lemma {:induction false} EmptyStrings(argv: seq<seq<byte>>, sz: nat, n: nat)
    requires sz % 16 == 0 && n <= |argv| && forall i :: 0 <= i < |argv| ==> argv[i] == []
    ensures ArgTop(argv, sz, n) == sz - 16 * n
  {
    hide Down16;
    if n > 0 {
      EmptyStrings(argv, sz, n - 1);
      assert argv[n - 1] == [];
      DownOne(sz - 16 * (n - 1));
    }
  }

  lemma DownOne(x: int)
    requires x % 16 == 0
    ensures Down16(x - 1) == x - 16
  {
  }

  function FinalSize(ip: Inode): nat
    requires ElfOk(ip)
  {
    PgRoundUp(ImageSize(ip, ip.elf.value.phnum)) + 2 * PGSIZE
  }

  /** The frames of tree `was` and free frames are now free or frames of tree r; all
      other frames have the same owner and, but for tf, the same contents. */
  ghost predicate Swapped(s: Snap, s': Snap, was: nat, r: nat, tf: nat) {
    && |s'.own| == |s.own| == |s.mem| == |s'.mem| && s'.lo == s.lo
    && (forall f :: 0 <= f < |s.own| ==>
          if s.own[f] == Free || Of(s.own[f], was) then s'.own[f] == Free || Of(s'.own[f], r)
          else s'.own[f] == s.own[f] && (f != tf ==> s'.mem[f] == s.mem[f]))
  }

  lemma SwappedAll(s0: Snap, s1: Snap, s2: Snap, s3: Snap, was: nat, r: nat, tf: nat)
    requires Isolated(s0, s1, r) && Gone(s2, s3, was) && tf < |s1.mem| && tf < |s0.own| && s0.own[tf] == Held
    requires s2.own == s1.own && s2.lo == s1.lo && |s2.mem| == |s1.mem| && was != r
    requires forall f :: 0 <= f < |s1.mem| && f != tf ==> s2.mem[f] == s1.mem[f]
    requires forall f :: 0 <= f < |s0.own| ==> !Of(s0.own[f], r)
    ensures Swapped(s0, s3, was, r, tf)
    ensures s3.mem[tf] == s2.mem[tf]
  {
  }

  /** What user code finds when it starts. */
  ghost predicate Started(lab: Lab, s: Snap, r: nat, sz: nat, ip: Inode, argv: seq<seq<byte>>)
    requires ElfOk(ip)
  {
    && ProcSpace(lab, s, r, Pages(sz))
    && StackOk(s, r, sz) && ArgsFit(argv, sz)
    && Loaded(s, r, ip, ip.elf.value.phnum, sz - 2 * PGSIZE)
    && ArgvAt(s.mem, r, VecTop(argv, sz), argv)
  }

  /** Reading user memory is all that Started is about. */
  lemma StartedKept(lab: Lab, s: Snap, s': Snap, r: nat, sz: nat, ip: Inode, argv: seq<seq<byte>>)
    requires ElfOk(ip) && Started(lab, s, r, sz, ip, argv) && ProcSpace(lab, s', r, Pages(sz))
    requires forall a: nat ::
               UByte(s'.mem, r, a) == UByte(s.mem, r, a) && UserPage(s'.mem, r, a) == UserPage(s.mem, r, a)
    ensures Started(lab, s', r, sz, ip, argv)
  {
    hide ProcSpace, UByte, UserPage, ImageByte, UNum;
    forall i | 0 <= i <= |argv|
      ensures UNum(s'.mem, r, VecTop(argv, sz) + 8 * i, 8) == UNum(s.mem, r, VecTop(argv, sz) + 8 * i, 8)
    {
      UNumKept(s, s', r, VecTop(argv, sz) + 8 * i, 8);
    }
  }

  lemma {:induction false} UNumKept(s: Snap, s': Snap, r: nat, a: nat, n: nat)
    requires forall a: nat :: UByte(s'.mem, r, a) == UByte(s.mem, r, a)
    ensures UNum(s'.mem, r, a, n) == UNum(s.mem, r, a, n)
    decreases n
  {
    hide UByte;
    if n > 0 { UNumKept(s, s', r, a + 1, n - 1); }
  }

  lemma StartedOther(lab: Lab, s: Snap, s': Snap, r: nat, was: nat, sz: nat, ip: Inode, argv: seq<seq<byte>>)
    requires Inv(s) && ElfOk(ip) && Started(lab, s, r, sz, ip, argv) && Gone(s, s', was) && was != r
    ensures Started(lab, s', r, sz, ip, argv)
  {
    hide Inv, ProcSpace, Isolated, Gone, StackOk, Loaded, ArgvAt, ArgsFit, UserPage, UByte;
    GoneIsolated(s, s', was);
    OtherSpace(lab, s, s', was, r, Pages(sz));
    ProcSpaceFacts(lab, s, r, Pages(sz));
    forall a: nat ensures UByte(s'.mem, r, a) == UByte(s.mem, r, a) && UserPage(s'.mem, r, a) == UserPage(s.mem, r, a) {
      OtherBytes(s, s', was, r, a);
    }
    StartedKept(lab, s, s', r, sz, ip, argv);
  }

  lemma StartedHeld(lab: Lab, s: Snap, tf: nat, x: Frame, r: nat, sz: nat, ip: Inode, argv: seq<seq<byte>>)
    requires Inv(s) && ElfOk(ip) && Started(lab, s, r, sz, ip, argv) && tf < |s.own| && s.own[tf] == Held && IsPage(x)
    ensures tf < |s.mem| && Inv(WithFrame(s, tf, x)) && Started(lab, WithFrame(s, tf, x), r, sz, ip, argv)
  {
    hide Inv, ProcSpace, StackOk, Loaded, ArgvAt, ArgsFit, UserPage, UByte;
    HeldWrite(lab, s, tf, x, r, Pages(sz));
    StartedKept(lab, s, WithFrame(s, tf, x), r, sz, ip, argv);
  }

  /** The old address space, the trapframe and the new tree while both images exist. */
  lemma BothImages(lab: Lab, s0: Snap, s: Snap, r: nat, sz: nat, was: nat, n: nat, tf: nat)
    requires Inv(s0) && Image(lab, s0, s, r, sz) && ProcSpace(lab, s0, was, n) && tf < |s0.own| && s0.own[tf] == Held
    ensures was != r && ProcSpace(lab, s, was, n) && Isolated(s0, s, r)
    ensures tf < |s.own| == |s.mem| && s.own[tf] == Held && |s0.mem| == |s.mem| && s.mem[tf] == s0.mem[tf]
            && IsPage(s.mem[tf])
    ensures forall f :: 0 <= f < |s0.own| ==> !Of(s0.own[f], r)
  {
    ProcSpaceFacts(lab, s0, was, n);
    OtherSpace(lab, s0, s, r, was, n);
    assert FrameOk(s0, tf);
    forall f | 0 <= f < |s0.own| ensures !Of(s0.own[f], r) {
      if s0.own[f].User? { UserIsMapped(s0, f); }
      if s0.own[f].Tab? { TabRoot(s0, f); }
    }
  }

  /** The registers for the new program, the new page table and size, and the end of the old image. */
  method Commit(lab: Lab, k: Kmem, p: Proc, pagetable: nat, sz: uint64, sp: uint64, ip: Inode,
                ghost argv: seq<seq<byte>>, ghost s0: Snap)
    requires Inv(s0) && ProcSpace(lab, s0, p.pagetable, Pages(p.sz)) && p.trapframe < |s0.own|
             && s0.own[p.trapframe] == Held
    requires Image(lab, s0, k.G(), pagetable, sz) && ElfOk(ip) && Started(lab, k.G(), pagetable, sz, ip, argv)
    modifies k, k.mem, p
    ensures Inv(k.G()) && Started(lab, k.G(), pagetable, sz, ip, argv)
    ensures forall tr: nat :: MapOk(old(k.mem[..]), pagetable, tr, p.trapframe) ==>
              MapOk(k.mem[..], pagetable, tr, p.trapframe)
    ensures p.pagetable == pagetable && p.sz == sz && p.trapframe == old(p.trapframe)
    ensures p.originalTrapframe == old(p.originalTrapframe) && p.pid == old(p.pid)
    ensures Swapped(s0, k.G(), old(p.pagetable), pagetable, p.trapframe)
    ensures p.trapframe < |s0.mem| && p.trapframe < |k.mem[..]| && IsPage(s0.mem[p.trapframe])
    ensures k.mem[p.trapframe] == ExecTrapframe(s0.mem[p.trapframe], ip.elf.value.entry, sp)
    ensures Registers(s0.mem[p.trapframe].bytes, k.mem[p.trapframe].bytes, ip.elf.value.entry, sp)
    ensures SameUsys(old(k.mem[..]), k.mem[..], pagetable)
  {
    hide SameUsys, Registers, Inv, ProcSpace, Image, Started, Gone, Swapped, ExecTrapframe, Isolated, MapOk;
    ghost var s1, tf, was := k.G(), p.trapframe, p.pagetable;
    BothImages(lab, s0, s1, pagetable, sz, was, Pages(p.sz), tf);
    ImageRoot(lab, s0, s1, pagetable, sz);
    ghost var x := ExecTrapframe(s1.mem[tf], ip.elf.value.entry, sp);
    HeldWrite(lab, s1, tf, x, was, Pages(p.sz));
    StartedHeld(lab, s1, tf, x, pagetable, sz, ip, argv);
    var oldpagetable, oldsz := p.pagetable, p.sz;
    p.pagetable := pagetable;
    p.sz := sz;
    k.mem[p.trapframe] := ExecTrapframe(k.mem[p.trapframe], ip.elf.value.entry, sp);
    assert k.G() == WithFrame(s1, tf, x);
    ghost var s2 := k.G();
    ProcFreepagetable(lab, k, oldpagetable, oldsz);
    SwappedAll(s0, s1, s2, k.G(), was, pagetable, tf);
    StartedOther(lab, s2, k.G(), pagetable, was, sz, ip, argv);
    TopsOther(s1, s2, k.G(), pagetable, was, tf);
    RegistersSet(s0.mem[tf], ip.elf.value.entry, sp);
    UsysOther(s1, tf, x, k.G(), pagetable, was);
  }

  /** The trapframe write and the end of the old tree do not touch the new one's page at USYSCALL. */
  lemma UsysOther(s1: Snap, tf: nat, x: Frame, s3: Snap, r: nat, was: nat)
    requires Inv(s1) && IsRoot(s1, r) && tf < |s1.mem| == |s1.own| && s1.own[tf] == Held && was != r
    requires var s2 := WithFrame(s1, tf, x); Inv(s2) && SameMaps(s1, s2) && Gone(s2, s3, was)
    ensures SameUsys(s1.mem, s3.mem, r)
  {
    hide Inv, Gone, SameMaps, Isolated, UByte, UserPage;
    var s2 := WithFrame(s1, tf, x);
    HeldUsys(s1, tf, x, r);
    GoneIsolated(s2, s3, was);
    forall a: nat ensures UByte(s3.mem, r, a) == UByte(s2.mem, r, a) { OtherBytes(s2, s3, was, r, a); }
  }

  /** The trapframe write and the end of the old tree do not touch the new one's map. */
  lemma TopsOther(s1: Snap, s2: Snap, s3: Snap, r: nat, was: nat, tf: nat)
    requires Inv(s2) && SameMaps(s1, s2) && IsRoot(s1, r) && IsRoot(s2, r) && Gone(s2, s3, was) && was != r
    ensures forall tr: nat :: MapOk(s1.mem, r, tr, tf) ==> MapOk(s3.mem, r, tr, tf)
  {
    hide Inv, Gone, Lookup, Isolated, MapOk;
    GoneIsolated(s2, s3, was);
    forall v | 0 <= v < MAXVPN
      ensures Lookup(s3.mem, r, v) == Lookup(s1.mem, r, v)
    {
      OthersUnchanged(s2, s3, was, r, v);
    }
    forall tr: nat | MapOk(s1.mem, r, tr, tf) ensures MapOk(s3.mem, r, tr, tf) { MapSame(s1.mem, s3.mem, r, tr, tf); }
  }

  /** exec succeeds exactly when nothing is in the way: the file is well formed, the frames
      for the image and its page-table pages are free, and the arguments fit.  Otherwise,
      the two defects apart, neither the process nor any frame in use has changed. */
  method Exec(lab: Lab, k: Kmem, p: Proc, ip: Inode, argv: seq<seq<byte>>, trampoline: nat) returns (r: Result)
    requires Inv(k.G()) && ProcSpace(lab, k.G(), p.pagetable, Pages(p.sz))
    requires p.trapframe < |k.own| && k.own[p.trapframe] == Held && trampoline < |k.own| && k.own[trampoline] == Kernel
    requires |k.own| < POOL32 && forall o, n :: |ip.readi(o, n)| <= n
    requires forall i :: 0 <= i < |argv| ==> |argv[i]| < 0x7FFF_FFFF
    modifies k, k.mem, p
    ensures Inv(k.G())
    ensures r.Argc? <==>
              ElfOk(ip) && Loadable(ip, ip.elf.value.phnum) && Fits(lab, old(k.G()), FinalSize(ip))
              && ArgsFit(argv, FinalSize(ip))
    ensures r.Crash? <==> ElfOk(ip) && lab.usys && |old(k.free)| == 3
    ensures r.Smash? <==>
              ElfOk(ip) && Loadable(ip, ip.elf.value.phnum) && Fits(lab, old(k.G()), FinalSize(ip))
              && ArgsSmash(argv, FinalSize(ip))
    ensures r.Bad? ==> Conserved(old(k.G()), k.G()) && unchanged(p)
    ensures r.Argc? ==>
              && r.argc == |argv|
              && p.sz == FinalSize(ip) && p.pagetable < |old(k.own)| && old(k.own)[p.pagetable] == Free
              && Started(lab, k.G(), p.pagetable, p.sz, ip, argv)
              && Swapped(old(k.G()), k.G(), old(p.pagetable), p.pagetable, p.trapframe)
              && p.trapframe == old(p.trapframe) < |k.mem[..]| == |old(k.mem[..])|
              && p.originalTrapframe == old(p.originalTrapframe) && p.pid == old(p.pid)
              && IsPage(old(k.mem[..])[p.trapframe])
              && k.mem[p.trapframe] ==
                   ExecTrapframe(old(k.mem[..])[p.trapframe], ip.elf.value.entry, VecTop(argv, p.sz))
    ensures r.Argc? ==>
              Registers(old(k.mem[..])[p.trapframe].bytes, k.mem[p.trapframe].bytes, ip.elf.value.entry,
                        VecTop(argv, p.sz))
    ensures r.Argc? ==> MapOk(k.mem[..], p.pagetable, trampoline, p.trapframe)
    ensures r.Argc? && lab.usys && p.pid < 0x1_0000_0000 ==> ShowsPid(k.mem[..], p.pagetable, p.pid)
  {
    hide ShowsPid, SameUsys, Registers, Inv, ProcSpace, Image, Started, Swapped, Isolated, Conserved, Fits, Spent,
         MapOk, Tidy, Loaded, AllUser,
         StackOk, ArgvAt, Scribbled, PageIs, Loadable, ImageSize, VecTop, ArgTop, TreeCost;
    ghost var s0 := k.G();
    ConservedRefl(s0);
    if ip.elf.None? || ip.elf.value.magic != ELF_MAGIC { return Bad; }
    var phnum := ip.elf.value.phnum;
    if Fits(lab, s0, FinalSize(ip)) { FitsTop(lab, s0, FinalSize(ip)); }
    var b := ProcPagetable(lab, k, trampoline, p.trapframe, p.pid);
    if b.NoMemory? { return Bad; }
    if b.NullWrite? { return Crash; }
    var pagetable := b.root;
    ghost var m0 := k.mem[..];
    NewImage(lab, s0, k.G(), pagetable, trampoline, p.trapframe);
    if Fits(lab, s0, FinalSize(ip)) { FitsGrows(lab, s0, ImageSize(ip, phnum), FinalSize(ip)); }
    var ok, sz := LoadImage(lab, k, pagetable, ip, phnum, s0, trampoline, p.trapframe);
    ghost var m1 := k.mem[..];
    if ok {
      ok, sz := MakeStack(lab, k, pagetable, ip, phnum, sz, s0, trampoline, p.trapframe);
    }
    if !ok {
      Discard(lab, k, pagetable, sz, s0);
      return Bad;
    }
    ghost var s1 := k.G();
    StackFacts(lab, s0, s1, pagetable, sz);
    StackBelow(lab, s0, s1, pagetable, sz);
    var pushed := PushArgs(k, pagetable, argv, sz);
    if pushed.Overrun? { return Smash; }
    PushedOk(lab, s0, s1, k.G(), pagetable, sz, ip, phnum, trampoline, p.trapframe);
    if pushed.NoFit? {
      Discard(lab, k, pagetable, sz, s0);
      return Bad;
    }
    StartedIs(lab, s0, k.G(), pagetable, sz, ip, argv);
    ScribbleUsys(s1, k.G(), pagetable, sz - PGSIZE, sz);
    ghost var s2 := k.G();
    Commit(lab, k, p, pagetable, sz, pushed.sp, ip, argv, s0);
    UsysChain(m0, m1, s1.mem, s2.mem, k.mem[..], pagetable, p.pid);
    return Argc(|argv|);
  }

  lemma UsysChain(m0: seq<Frame>, m1: seq<Frame>, m2: seq<Frame>, m3: seq<Frame>, m4: seq<Frame>, r: nat, pid: nat)
    requires SameUsys(m0, m1, r) && SameUsys(m1, m2, r) && SameUsys(m2, m3, r) && SameUsys(m3, m4, r)
    ensures ShowsPid(m0, r, pid) ==> ShowsPid(m4, r, pid)
  {
    hide UByte;
    if ShowsPid(m0, r, pid) {
      assert SameUsys(m0, m4, r);
      ShowsKept(m0, m4, r, pid);
    }
  }

  lemma StackBelow(lab: Lab, s0: Snap, s: Snap, r: nat, sz: nat)
    requires Inv(s0) && Image(lab, s0, s, r, sz)
    ensures sz <= USYSVPN * PGSIZE
  {
    ImageFacts(lab, s0, s, r, sz);
  }

  lemma NewImage(lab: Lab, s0: Snap, s: Snap, r: nat, tr: nat, tf: nat)
    requires Inv(s) && Isolated(s0, s, r) && r < |s0.own| && s0.own[r] == Free && ProcSpace(lab, s, r, 0)
    requires |s.free| == |s0.free| - TopCost(lab) && Tidy(s.mem, r, 0) && MapOk(s.mem, r, tr, tf)
    ensures Image(lab, s0, s, r, 0) && Spent(lab, s0, s, r, 0, tr, tf)
  {
    hide Inv, Tidy, MapOk, ProcSpace, Isolated;
  }

  lemma FitsTop(lab: Lab, s0: Snap, sz: nat)
    requires Fits(lab, s0, sz)
    ensures |s0.free| >= TopCost(lab)
  {
  }

  lemma StackFacts(lab: Lab, s0: Snap, s: Snap, r: nat, sz: nat)
    requires Inv(s0) && Image(lab, s0, s, r, sz) && StackOk(s, r, sz)
    ensures Inv(s) && IsRoot(s, r) && 2 * PGSIZE <= sz < MAXVA
    ensures forall a :: sz - PGSIZE <= a < sz ==> UserPage(s.mem, r, a) != 0
  {
    ImageFacts(lab, s0, s, r, sz);
  }

  lemma StartedIs(lab: Lab, s0: Snap, s: Snap, r: nat, sz: nat, ip: Inode, argv: seq<seq<byte>>)
    requires Image(lab, s0, s, r, sz) && StackOk(s, r, sz) && ElfOk(ip)
             && Loaded(s, r, ip, ip.elf.value.phnum, sz - 2 * PGSIZE)
    requires ArgsFit(argv, sz) && ArgvAt(s.mem, r, VecTop(argv, sz), argv)
    ensures Started(lab, s, r, sz, ip, argv)
  {
    ImageRoot(lab, s0, s, r, sz);
  }
}
