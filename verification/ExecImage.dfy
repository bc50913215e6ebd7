/** The first half of exec.c: building a new user image beside the old one. */
module ExecImage {
  import opened Types
  import opened Riscv
  import opened Phys
  import opened PhysUpdate
  import opened Kalloc
  import opened Tables
  import opened Vm
  import opened UserVm
  import opened Freewalk
  import opened ProcMem
  import opened CopyUser

  // elf.h is not part of this model
  const ELF_MAGIC: uint32 := 0x464C_457F
  const ELF_PROG_LOAD: uint32 := 1

  datatype Elfhdr = Elfhdr(magic: uint32, entry: uint64, phnum: nat)
  datatype Proghdr = Proghdr(typ: uint32, off: uint64, vaddr: uint64, filesz: uint64, memsz: uint64)

  /** The file, as readi answers for it: each read may fail or come short. */
  datatype Inode = Inode(elf: Option<Elfhdr>, ph: nat -> Option<Proghdr>, readi: (nat, nat) -> seq<byte>)

  // ---- the image under construction

  /** A tree started on a frame that was free in s0, with sz bytes of user memory. */
  ghost predicate Image(lab: Lab, s0: Snap, s: Snap, r: nat, sz: nat) {
    && Inv(s) && Isolated(s0, s, r) && r < |s0.own| && s0.own[r] == Free && ProcSpace(lab, s, r, Pages(sz))
  }

  /** The pages below n are ordinary user pages. */
  ghost predicate AllUser(s: Snap, r: nat, n: nat) {
    forall v :: 0 <= v < n ==> Lookup(s.mem, r, v).Some? && Lookup(s.mem, r, v).value.flags == USERFLAGS.(v := true)
  }

  /** bad: the half-built image is taken apart and memory is as it was. */
  method Discard(lab: Lab, k: Kmem, pagetable: nat, sz: uint64, ghost s0: Snap)
    requires Inv(s0) && Image(lab, s0, k.G(), pagetable, sz)
    modifies k, k.mem
    ensures Inv(k.G()) && Conserved(s0, k.G())
  {
    ghost var s := k.G();
    hide Inv, ProcSpace, Isolated, Gone, Conserved;
    ProcFreepagetable(lab, k, pagetable, sz);
    StartedAndGone(s0, s, k.G(), pagetable);
  }

  lemma ImageAdded(lab: Lab, s0: Snap, s: Snap, s': Snap, r: nat, sz: nat, sz2: nat)
    requires Image(lab, s0, s, r, sz) && AllUser(s, r, Pages(sz)) && Pages(sz) <= Pages(sz2) && Inv(s')
             && UserSpace(s', r, Pages(sz2))
    requires Added(s, s', r, Pages(sz), Pages(sz2) - Pages(sz)) && ZeroPages(s', r, Pages(sz), Pages(sz2) - Pages(sz))
    ensures Image(lab, s0, s', r, sz2) && AllUser(s', r, Pages(sz2))
  {
    hide Inv, UserSpace, Added, Lookup, TableAt;
    SpaceTop(s', r, Pages(sz2));
    ProcSpaceFacts(lab, s, r, Pages(sz));
    AddedFacts(s, s', r, Pages(sz), Pages(sz2) - Pages(sz));
    AddedSpace(lab, s, s', r, Pages(sz), Pages(sz), Pages(sz2) - Pages(sz));
    IsolatedTrans(s0, s, s', r);
    hide Isolated, ProcSpace;
    forall v | 0 <= v < Pages(sz2)
      ensures Lookup(s'.mem, r, v).Some? && Lookup(s'.mem, r, v).value.flags == USERFLAGS.(v := true)
    {
      if v >= Pages(sz) { assert PageIs(s', r, v, USERFLAGS.(v := true), Filled(0)); }
    }
  }

  lemma ImageGrown(lab: Lab, s0: Snap, s: Snap, s': Snap, r: nat, sz: nat)
    requires Image(lab, s0, s, r, sz) && Inv(s') && Grow(s, s', r)
    ensures Image(lab, s0, s', r, sz)
  {
    hide Lookup, TableAt;
    GrowProcSpace(lab, s, s', r, Pages(sz));
    GrowIsolated(s, s', r);
    IsolatedTrans(s0, s, s', r);
  }

  lemma ImageWrote(lab: Lab, s0: Snap, s: Snap, s': Snap, r: nat, sz: nat)
    requires Image(lab, s0, s, r, sz) && Inv(s') && SameButPages(s, s', r)
    ensures Image(lab, s0, s', r, sz)
    ensures AllUser(s, r, Pages(sz)) ==> AllUser(s', r, Pages(sz))
  {
    hide Lookup, TableAt, UByte, Inv;
    ProcSpaceFacts(lab, s, r, Pages(sz));
    assert Isolated(s, s', r);
    IsolatedTrans(s0, s, s', r);
    SameOwners(lab, s, s', r, Pages(sz));
  }

  lemma SameOwners(lab: Lab, s: Snap, s': Snap, r: nat, n: nat)
    requires Inv(s) && ProcSpace(lab, s, r, n) && SameMaps(s, s') && s'.own == s.own
    ensures ProcSpace(lab, s', r, n)
  {
    hide Inv, ProcSpace, TableAt, Lookup;
    ProcSpaceFacts(lab, s, r, n);
    BorrowedKeeps(s, s', r, TRAMPVPN);
    BorrowedKeeps(s, s', r, TRAPVPN);
    forall v | 0 <= v < n ensures Owns(s', r, v) {
      assert Owns(s, r, v);
    }
    ProcSpaceIs(lab, s', r, n);
  }

  lemma ImageFacts(lab: Lab, s0: Snap, s: Snap, r: nat, sz: nat)
    requires Inv(s0) && Image(lab, s0, s, r, sz)
    ensures Inv(s) && IsRoot(s, r) && UserSpace(s, r, Pages(sz)) && Pages(sz) <= |s.own| < LOWVPN
            && Pages(sz) <= USYSVPN
    ensures r != 0 && |s.own| == |s0.own|
  {
    SpaceBound(lab, s, r, Pages(sz));
  }

  /** Every address below the end of an all-user image is accessible. */
  lemma UserBelow(s: Snap, r: nat, n: nat, a: nat)
    requires Inv(s) && UserSpace(s, r, n) && AllUser(s, r, n) && a < n * PGSIZE
    ensures UserPage(s.mem, r, a) != 0
  {
    var v := a / PGSIZE;
    assert Owns(s, r, v);
    LookupOwner(s, r, v);
    NotKernel(s, Lookup(s.mem, r, v).value.ppn);
  }

  // ---- loadseg

  function ReadLen(sz: nat, i: nat): nat
    requires i < sz
  {
    if sz - i < PGSIZE then sz - i else PGSIZE
  }

  /** What loadseg reads from byte i of the segment on: one readi a page. */
  function Segment(ip: Inode, offset: nat, sz: nat, i: nat): seq<byte>
    decreases if i < sz then sz - i else 0
  {
    if i >= sz then []
    else ip.readi((offset + i) % 0x1_0000_0000, ReadLen(sz, i)) + Segment(ip, offset, sz, i + PGSIZE)
  }

  lemma {:induction false} SegmentLength(ip: Inode, offset: nat, sz: nat, i: nat)
    requires forall o, n :: |ip.readi(o, n)| <= n
    ensures |Segment(ip, offset, sz, i)| <= if i < sz then sz - i else 0
    decreases if i < sz then sz - i else 0
  {
    if i < sz {
      SegmentLength(ip, offset, sz, i + PGSIZE);
    }
  }

  /** When readi answers from the bytes of a file, a segment is a slice of the file. */
  lemma {:induction false} SegmentIsSlice(ip: Inode, file: seq<byte>, offset: nat, sz: nat, i: nat)
    requires i <= sz + PGSIZE && offset + sz <= |file| <= 0x1_0000_0000 && ReadsFile(ip, file)
    ensures Segment(ip, offset, sz, i) == if i < sz then file[offset + i..offset + sz] else []
    decreases if i < sz then sz - i else 0
  {
    SegmentEnd(ip, offset, sz, i, []);
    if i < sz {
      SegmentStep(ip, offset, sz, i, []);
      hide ReadsFile, Segment, ReadLen;
      var at, n := offset + i, if sz - i < PGSIZE then sz - i else PGSIZE;
      SegmentIsSlice(ip, file, offset, sz, i + PGSIZE);
      ReadAt(ip, file, at, n);
      assert Segment(ip, offset, sz, i + PGSIZE) == file[at + n..offset + sz];
      assert file[at..offset + sz] == file[at..at + n] + file[at + n..offset + sz];
    }
  }

  ghost predicate ReadsFile(ip: Inode, file: seq<byte>) {
    forall o: nat, n: nat :: o + n <= |file| ==> ip.readi(o, n) == file[o..o + n]
  }

  lemma ReadAt(ip: Inode, file: seq<byte>, o: nat, n: nat)
    requires ReadsFile(ip, file) && o + n <= |file| <= 0x1_0000_0000 && n > 0
    ensures ip.readi(o % 0x1_0000_0000, n) == file[o..o + n]
  {
    assert o % 0x1_0000_0000 == o;
  }

  /** readi into the page at va. */
  method LoadPage(k: Kmem, pagetable: nat, va: uint64, got: seq<byte>)
    requires Inv(k.G()) && IsRoot(k.G(), pagetable) && va % PGSIZE == 0 && |got| <= PGSIZE
    requires UserPage(k.mem[..], pagetable, va) != 0  // panic("loadseg: address should exist")
    modifies k, k.mem
    ensures Inv(k.G()) && Wrote(old(k.G()), k.G(), pagetable, va, got)
  {
    hide Inv, Wrote, UserPage;
    ghost var s := k.G();
    var pa := Walkaddr(k, pagetable, va);
    WriteStep(s, pagetable, va, got);
    k.mem[pa] := Page(Patched(k.mem[pa].bytes, 0, got));
    assert k.G() == WithFrame(s, pa, Page(Patched(s.mem[pa].bytes, 0, got)));
  }

  method Loadseg(k: Kmem, pagetable: nat, va: uint64, ip: Inode, offset: uint32, sz: uint32)
    returns (r: int, ghost data: seq<byte>)
    requires Inv(k.G()) && IsRoot(k.G(), pagetable) && va % PGSIZE == 0 && sz <= 0xFFFF_F000
    requires forall o, n :: |ip.readi(o, n)| <= n
    // panic("loadseg: address should exist")
    requires forall a :: va <= a < va + sz ==> UserPage(k.mem[..], pagetable, a) != 0
    modifies k, k.mem
    ensures Inv(k.G()) && Wrote(old(k.G()), k.G(), pagetable, va, data)
    ensures r == if |Segment(ip, offset, sz, 0)| == sz then 0 else -1
    ensures r == 0 ==> data == Segment(ip, offset, sz, 0)
  {
    hide Inv, Wrote, UserPage, UByte, Segment, ReadLen, IsRoot;
    var i: uint32 := 0;
    data := [];
    ghost var s0 := k.G();
    WroteNone(s0, pagetable, va);
    while i < sz
      invariant i % PGSIZE == 0 && |data| == (if i < sz then i else sz)
      invariant data + Segment(ip, offset, sz, i) == Segment(ip, offset, sz, 0)
      invariant Inv(k.G()) && Wrote(s0, k.G(), pagetable, va, data)
    {
      ghost var s1, was := k.G(), data;
      WroteRoot(s0, s1, pagetable, va, was);
      AlignedSum(va, i);
      var n := if sz - i < PGSIZE then sz - i else PGSIZE;
      SegmentStep(ip, offset, sz, i, was);
      SamePages(s0, s1, pagetable, va, was, va + i);
      BelowTop(s0, pagetable, va + i);
      var got := ip.readi((offset + i) % 0x1_0000_0000, n);
      LoadPage(k, pagetable, va + i, got);
      WroteTrans(s0, s1, k.G(), pagetable, va, was, got);
      data := was + got;
      if |got| != n {
        SegmentLength(ip, offset, sz, i + PGSIZE);
        SegmentLength(ip, offset, sz, i);
        return -1, data;
      }
      i := i + PGSIZE;
    }
    SegmentEnd(ip, offset, sz, i, data);
    return 0, data;
  }

  lemma SegmentStep(ip: Inode, offset: nat, sz: nat, i: nat, was: seq<byte>)
    requires i < sz
    ensures ReadLen(sz, i) == if sz - i < PGSIZE then sz - i else PGSIZE
    ensures was + ip.readi((offset + i) % 0x1_0000_0000, ReadLen(sz, i)) + Segment(ip, offset, sz, i + PGSIZE) ==
            was + Segment(ip, offset, sz, i)
    ensures Segment(ip, offset, sz, i) ==
              ip.readi((offset + i) % 0x1_0000_0000, ReadLen(sz, i)) + Segment(ip, offset, sz, i + PGSIZE)
  {
  }

  lemma AlignedSum(a: nat, b: nat)
    requires a % PGSIZE == 0 && b % PGSIZE == 0
    ensures (a + b) % PGSIZE == 0
  {
  }

  lemma SegmentEnd(ip: Inode, offset: nat, sz: nat, i: nat, data: seq<byte>)
    ensures i >= sz ==> data + Segment(ip, offset, sz, i) == data
  {
  }

  /** Writing bytes does not change which pages are accessible. */
  lemma SamePages(s: Snap, s': Snap, r: nat, dst: nat, data: seq<byte>, a: nat)
    requires IsRoot(s, r) && Wrote(s, s', r, dst, data)
    ensures UserPage(s'.mem, r, a) == UserPage(s.mem, r, a)
  {
    hide Lookup, UByte;
  }

  // ---- the program headers

  /** The first n headers describe an image that can be built, given the memory: each
      can be read, and each to be loaded passes the checks and its bytes are in the file. */
  predicate Loadable(ip: Inode, n: nat) {
    n > 0 ==> Loadable(ip, n - 1) && ip.ph(n - 1).Some? && HeaderOk(ip, ip.ph(n - 1).value, ImageSize(ip, n - 1))
  }

  predicate HeaderOk(ip: Inode, h: Proghdr, sz: nat) {
    h.typ == ELF_PROG_LOAD ==>
      && h.filesz <= h.memsz
      && h.vaddr + h.memsz < 0x1_0000_0000_0000_0000
      && (h.vaddr + h.memsz > 0 || sz > 0)  // uvmalloc's answer 0 is taken for a failure
      && h.vaddr % PGSIZE == 0
      && |Content(ip, h)| == h.filesz % 0x1_0000_0000
  }

  function Content(ip: Inode, h: Proghdr): seq<byte> {
    Segment(ip, h.off % 0x1_0000_0000, h.filesz % 0x1_0000_0000, 0)
  }

  /** The end of the highest segment among the first n headers. */
  function ImageSize(ip: Inode, n: nat): nat {
    if n == 0 then 0 else
    var sz := ImageSize(ip, n - 1);
    match ip.ph(n - 1)
    case Some(h) => if h.typ == ELF_PROG_LOAD && h.vaddr + h.memsz > sz then h.vaddr + h.memsz else sz
    case None => sz
  }

  /** The byte at address a: from the last segment whose file content covers it, else 0. */
  function ImageByte(ip: Inode, n: nat, a: nat): byte {
    if n == 0 then 0 else
    match ip.ph(n - 1)
    case Some(h) =>
      if h.typ == ELF_PROG_LOAD && h.vaddr <= a < h.vaddr + |Content(ip, h)| then Content(ip, h)[a - h.vaddr]
      else ImageByte(ip, n - 1, a)
    case None => ImageByte(ip, n - 1, a)
  }

  lemma {:induction false} ZeroAbove(ip: Inode, n: nat, a: nat)
    requires Loadable(ip, n) && a >= ImageSize(ip, n)
    ensures ImageByte(ip, n, a) == 0
  {
    if n > 0 {
      ZeroAbove(ip, n - 1, a);
    }
  }

  /** Header i gives the byte at address a: it is to be loaded and its part of the file covers a. */
  predicate Covered(ip: Inode, i: nat, a: nat) {
    ip.ph(i).Some? && ip.ph(i).value.typ == 1
    && ip.ph(i).value.vaddr <= a < ip.ph(i).value.vaddr + ip.ph(i).value.filesz
  }

  /** Where the image comes from: byte a is the byte of the file at the same distance into the last
      segment that covers a as a is above that segment's address... */
  lemma {:induction false} ImageIsFile(ip: Inode, file: seq<byte>, n: nat, a: nat, i: nat)
    requires (forall o, m :: |ip.readi(o, m)| <= m) && ReadsFile(ip, file) && |file| < 0x1_0000_0000
    requires i < n && Covered(ip, i, a) && forall j :: i < j < n ==> !Covered(ip, j, a)
    requires ip.ph(i).value.off + ip.ph(i).value.filesz <= |file|
    ensures ImageByte(ip, n, a) == file[ip.ph(i).value.off + (a - ip.ph(i).value.vaddr)]
  {
    hide Content, ReadsFile;
    if i == n - 1 {
      ContentIs(ip, file, ip.ph(i).value);
    } else {
      NotCovered(ip, n - 1, a);
      ImageIsFile(ip, file, n - 1, a, i);
    }
  }

  /** ... and a byte that none covers is 0. */
  lemma {:induction false} ImageIsZero(ip: Inode, n: nat, a: nat)
    requires (forall o, m :: |ip.readi(o, m)| <= m) && forall j :: 0 <= j < n ==> !Covered(ip, j, a)
    ensures ImageByte(ip, n, a) == 0
  {
    hide Content;
    if n > 0 {
      NotCovered(ip, n - 1, a);
      ImageIsZero(ip, n - 1, a);
    }
  }

  lemma NotCovered(ip: Inode, i: nat, a: nat)
    requires (forall o, m :: |ip.readi(o, m)| <= m) && !Covered(ip, i, a)
    ensures ImageByte(ip, i + 1, a) == ImageByte(ip, i, a)
  {
    if ip.ph(i).Some? {
      SegmentLength(ip, ip.ph(i).value.off % 0x1_0000_0000, ip.ph(i).value.filesz % 0x1_0000_0000, 0);
    }
    hide Segment;
  }

  lemma ContentIs(ip: Inode, file: seq<byte>, h: Proghdr)
    requires ReadsFile(ip, file) && |file| < 0x1_0000_0000 && h.off + h.filesz <= |file|
    ensures Content(ip, h) == file[h.off..h.off + h.filesz]
  {
    hide ReadsFile, Segment;
    assert h.off % 0x1_0000_0000 == h.off && h.filesz % 0x1_0000_0000 == h.filesz;
    SegmentIsSlice(ip, file, h.off, h.filesz, 0);
  }

  /** Header i is to be loaded and its segment ends at `end`. */
  predicate EndsAt(ip: Inode, i: nat, end: nat) {
    ip.ph(i).Some? && ip.ph(i).value.typ == 1 && ip.ph(i).value.vaddr + ip.ph(i).value.memsz == end
  }

  /** The size of an image: the end of the segment that ends last, 0 if there is none. */
  lemma {:induction false} ImageSizeIs(ip: Inode, n: nat)
    ensures forall i, end: nat :: 0 <= i < n && EndsAt(ip, i, end) ==> end <= ImageSize(ip, n)
    ensures ImageSize(ip, n) == 0 || exists i :: 0 <= i < n && EndsAt(ip, i, ImageSize(ip, n))
  {
    if n > 0 {
      ImageSizeIs(ip, n - 1);
      assert ImageSize(ip, n) != ImageSize(ip, n - 1) ==> EndsAt(ip, n - 1, ImageSize(ip, n));
    }
  }

  lemma {:induction false} ImageMonotone(ip: Inode, i: nat, n: nat)
    requires i <= n
    ensures Loadable(ip, n) ==> Loadable(ip, i)
    ensures ImageSize(ip, i) <= ImageSize(ip, n)
  {
    if i < n {
      ImageMonotone(ip, i, n - 1);
    }
  }

  /** The first m bytes of tree r's memory are those of the first n headers. */
  ghost predicate Loaded(s: Snap, r: nat, ip: Inode, n: nat, m: nat) {
    forall a :: 0 <= a < m ==> UByte(s.mem, r, a) == Some(ImageByte(ip, n, a))
  }

  // ---- what the image costs

  /** From the free frames of s0, those of an empty process tree and those of the first
      sz bytes of a user image have been taken, and the top pages are in place. */
  ghost predicate Spent(lab: Lab, s0: Snap, s: Snap, r: nat, sz: nat, tr: nat, tf: nat) {
    && |s.free| == |s0.free| - TopCost(lab) - TreeCost(Pages(sz))
    && Tidy(s.mem, r, Pages(sz)) && MapOk(s.mem, r, tr, tf)
  }

  /** An image of sz bytes fits into the free frames of s0. */
  ghost predicate Fits(lab: Lab, s0: Snap, sz: nat) { TopCost(lab) + TreeCost(Pages(sz)) <= |s0.free| }

  lemma FitsGrows(lab: Lab, s0: Snap, sz: nat, sz2: nat)
    requires sz <= sz2 && Fits(lab, s0, sz2)
    ensures Fits(lab, s0, sz)
  {
    TreeCostGrows(Pages(sz), Pages(sz2) - Pages(sz));
  }

  lemma FreeBound(s: Snap)
    requires Inv(s)
    ensures |s.free| <= |s.own| < LOWVPN
  {
    ListBound(s.free, |s.own|);
  }

  /** uvmalloc's condition is that the larger image fits, whatever its size. */
  lemma SpentRoom(lab: Lab, s0: Snap, s: Snap, r: nat, sz: nat, sz2: nat, tr: nat, tf: nat)
    requires Inv(s0) && Image(lab, s0, s, r, sz) && Spent(lab, s0, s, r, sz, tr, tf) && Pages(sz) <= Pages(sz2)
    ensures Cost(s.mem, r, Pages(sz), Pages(sz2) - Pages(sz)) <= |s.free| <==> Fits(lab, s0, sz2)
  {
    hide Inv, Tidy, MapOk, Cost, ProcSpace, UserSpace, Isolated, Lookup;
    var v0, d := Pages(sz), Pages(sz2) - Pages(sz);
    FreeBound(s0);
    ImageFacts(lab, s0, s, r, sz);
    CostGrows(s.mem, r, v0, d, d);
    TreeCostGrows(v0, d);
    if v0 + d <= LOWVPN { CostTidy(s.mem, r, v0, d); }
  }

  lemma SpentAdded(lab: Lab, s0: Snap, s: Snap, s': Snap, r: nat, sz: nat, sz2: nat, tr: nat, tf: nat)
    requires Image(lab, s0, s, r, sz) && Spent(lab, s0, s, r, sz, tr, tf) && Pages(sz) <= Pages(sz2) && Inv(s')
             && UserSpace(s', r, Pages(sz2))
    requires var d := Pages(sz2) - Pages(sz);
             && Added(s, s', r, Pages(sz), d) && Laid(s.mem, s'.mem, r, Pages(sz), d)
             && |s'.free| == |s.free| - Cost(s.mem, r, Pages(sz), d) && ZeroPages(s', r, Pages(sz), d)
    ensures Spent(lab, s0, s', r, sz2, tr, tf)
  {
    hide Inv, Tidy, MapOk, Cost, ZeroPages, Added, Laid, TreeCost, ProcSpace, UserSpace, Isolated, Lookup;
    var v0, d := Pages(sz), Pages(sz2) - Pages(sz);
    SpaceRoot(lab, s, r, v0);
    SpacePages(s', r, Pages(sz2));
    TidyGrows(s.mem, s'.mem, r, v0, d);
    ZeroRights(s', r, v0, d);
    MapAdds(s, s', r, v0, d, tr, tf);
    CostTidy(s.mem, r, v0, d);
  }

  lemma SpaceRoot(lab: Lab, s: Snap, r: nat, n: nat)
    requires ProcSpace(lab, s, r, n)
    ensures IsRoot(s, r)
  {
  }

  lemma SpacePages(s: Snap, r: nat, n: nat)
    requires Inv(s) && UserSpace(s, r, n)
    ensures n <= |s.own| < LOWVPN
  {
    OwnedBound(s, r, n);
  }

  lemma SpentFits(lab: Lab, s0: Snap, s: Snap, r: nat, sz: nat, tr: nat, tf: nat)
    requires Spent(lab, s0, s, r, sz, tr, tf)
    ensures Fits(lab, s0, sz)
  {
  }

  /** Writing user bytes takes no frame and changes no page-table page. */
  lemma SpentWrote(lab: Lab, s0: Snap, s: Snap, s': Snap, r: nat, sz: nat, tr: nat, tf: nat)
    requires Image(lab, s0, s, r, sz) && Spent(lab, s0, s, r, sz, tr, tf) && SameButPages(s, s', r)
    ensures Spent(lab, s0, s', r, sz, tr, tf)
  {
    hide Inv, Tidy, Lookup, TreeCost, MapOk;
    SpaceRoot(lab, s, r, Pages(sz));
    Tables.SameShape(s, s'.mem, r);
    TidySame(s.mem, s'.mem, r, Pages(sz));
    MapSame(s.mem, s'.mem, r, tr, tf);
  }

  /** New pages read as zero, old pages as before. */
  lemma AddedBytes(s: Snap, s': Snap, r: nat, v0: nat, n: nat, a: nat)
    requires Inv(s) && Inv(s') && UserSpace(s, r, v0) && Added(s, s', r, v0, n) && ZeroPages(s', r, v0, n)
             && a < (v0 + n) * PGSIZE
    ensures UByte(s'.mem, r, a) == if a < v0 * PGSIZE then UByte(s.mem, r, a) else Some(0)
  {
    var v := a / PGSIZE;
    if v < v0 {
      assert Owns(s, r, v) && Lookup(s'.mem, r, v) == Lookup(s.mem, r, v);
    } else {
      assert PageIs(s', r, v, USERFLAGS.(v := true), Filled(0)) && Owns(s', r, v);
      UserIsMapped(s', Lookup(s'.mem, r, v).value.ppn);
      NotKernel(s', Lookup(s'.mem, r, v).value.ppn);
    }
  }

  lemma LoadedAdded(s: Snap, s': Snap, r: nat, ip: Inode, i: nat, sz2: nat)
    requires var sz := ImageSize(ip, i);
             && Inv(s) && Inv(s') && UserSpace(s, r, Pages(sz)) && Pages(sz) <= Pages(sz2)
             && Added(s, s', r, Pages(sz), Pages(sz2) - Pages(sz))
             && ZeroPages(s', r, Pages(sz), Pages(sz2) - Pages(sz))
             && Loadable(ip, i) && Loaded(s, r, ip, i, Pages(sz) * PGSIZE)
    ensures Loaded(s', r, ip, i, Pages(sz2) * PGSIZE)
  {
    hide Inv, UserSpace, Added, ZeroPages, UByte, ImageByte, Loadable, ImageSize;
    var sz := ImageSize(ip, i);
    forall a | 0 <= a < Pages(sz2) * PGSIZE ensures UByte(s'.mem, r, a) == Some(ImageByte(ip, i, a)) {
      AddedBytes(s, s', r, Pages(sz), Pages(sz2) - Pages(sz), a);
      if a >= sz { ZeroAbove(ip, i, a); }
    }
  }

  lemma WroteSame(s: Snap, s': Snap, r: nat, dst: nat, data: seq<byte>)
    requires Wrote(s, s', r, dst, data)
    ensures SameButPages(s, s', r)
  {
  }

  lemma LoadedWrote(s: Snap, s': Snap, r: nat, ip: Inode, i: nat, m: nat, h: Proghdr)
    requires Loaded(s, r, ip, i, m) && ip.ph(i) == Some(h) && h.typ == ELF_PROG_LOAD
    requires Wrote(s, s', r, h.vaddr, Content(ip, h))
    ensures Loaded(s', r, ip, i + 1, m)
  {
    hide UByte, Content, SameMaps;
  }

  /** One header to be loaded. */
  method LoadHeader(lab: Lab, k: Kmem, pagetable: nat, ip: Inode, ghost i: nat, h: Proghdr, sz0: uint64,
                    ghost s0: Snap, ghost tr: nat, ghost tf: nat)
    returns (ok: bool, sz: uint64)
    requires |s0.own| < POOL32 && Inv(s0) && Image(lab, s0, k.G(), pagetable, sz0)
             && AllUser(k.G(), pagetable, Pages(sz0))
    requires forall o, n :: |ip.readi(o, n)| <= n
    requires ip.ph(i) == Some(h) && h.typ == ELF_PROG_LOAD && sz0 == ImageSize(ip, i) && Loadable(ip, i)
    requires Loaded(k.G(), pagetable, ip, i, Pages(sz0) * PGSIZE) && Spent(lab, s0, k.G(), pagetable, sz0, tr, tf)
    modifies k, k.mem
    ensures Image(lab, s0, k.G(), pagetable, sz)
    ensures ok <==> Loadable(ip, i + 1) && Fits(lab, s0, ImageSize(ip, i + 1))
    ensures ok ==> sz == ImageSize(ip, i + 1) && AllUser(k.G(), pagetable, Pages(sz))
    ensures ok ==>
              Loaded(k.G(), pagetable, ip, i + 1, Pages(sz) * PGSIZE) && Spent(lab, s0, k.G(), pagetable, sz, tr, tf)
    ensures ok ==> SameUsys(old(k.mem[..]), k.mem[..], pagetable)
  {
    hide SameUsys, Inv, Image, AllUser, Loaded, Fits, Spent, Cost, Laid, UserSpace, Added, ZeroPages, Grow, Wrote,
         UserPage,
         Segment;
    if h.memsz < h.filesz { return false, sz0; }
    if (h.vaddr + h.memsz) % 0x1_0000_0000_0000_0000 < h.vaddr { return false, sz0; }
    ghost var s1, to := k.G(), h.vaddr + h.memsz;
    ImageFacts(lab, s0, s1, pagetable, sz0);
    if to >= sz0 {
      SpentRoom(lab, s0, s1, pagetable, sz0, to, tr, tf);
    } else {
      SpentFits(lab, s0, s1, pagetable, sz0, tr, tf);
    }
    var sz1 := Uvmalloc(k, pagetable, sz0, h.vaddr + h.memsz);
    if sz1 == 0 {
      if to >= sz0 && sz1 != to {
        ImageGrown(lab, s0, s1, k.G(), pagetable, sz0);
      } else if to >= sz0 {
        ImageAdded(lab, s0, s1, k.G(), pagetable, sz0, to);
      }
      return false, sz0;
    }
    sz := sz1;
    ghost var s2 := k.G();
    if to >= sz0 {
      ImageAdded(lab, s0, s1, s2, pagetable, sz0, to);
      LoadedAdded(s1, s2, pagetable, ip, i, to);
      SpentAdded(lab, s0, s1, s2, pagetable, sz0, to, tr, tf);
    }
    if h.vaddr % PGSIZE != 0 { return false, sz; }
    ImageFacts(lab, s0, s2, pagetable, sz);
    forall a | h.vaddr <= a < h.vaddr + h.filesz ensures UserPage(s2.mem, pagetable, a) != 0 {
      UserBelow(s2, pagetable, Pages(sz), a);
    }
    var r, data := Loadseg(k, pagetable, h.vaddr, ip, h.off % 0x1_0000_0000, h.filesz % 0x1_0000_0000);
    WroteSame(s2, k.G(), pagetable, h.vaddr, data);
    ImageWrote(lab, s0, s2, k.G(), pagetable, sz);
    SpentWrote(lab, s0, s2, k.G(), pagetable, sz, tr, tf);
    if r < 0 { return false, sz; }
    LoadedWrote(s2, k.G(), pagetable, ip, i, Pages(sz) * PGSIZE, h);
    LoadUsys(s1, s2, k.G(), pagetable, sz0, to, sz, h, data);
    return true, sz;
  }

  /** Neither the growth nor the segment reaches USYSCALL. */
  lemma LoadUsys(s1: Snap, s2: Snap, s3: Snap, r: nat, sz0: nat, to: nat, sz: nat, h: Proghdr, data: seq<byte>)
    requires Inv(s1) && IsRoot(s1, r) && Pages(sz) <= USYSVPN && sz >= h.vaddr + |data|
    requires if to >= sz0 then Added(s1, s2, r, Pages(sz0), Pages(to) - Pages(sz0)) && to == sz else s2 == s1
    requires Wrote(s2, s3, r, h.vaddr, data)
    ensures SameUsys(s1.mem, s3.mem, r)
  {
    hide Inv, Added, UByte, Wrote;
    if to >= sz0 {
      PagesUp(sz0, to);
      AddedUsys(s1, s2, r, Pages(sz0), Pages(to) - Pages(sz0));
    }
    WroteBelow(s2, s3, r, h.vaddr, data);
  }

  lemma PagesUp(a: nat, b: nat)
    requires a <= b
    ensures Pages(a) <= Pages(b)
  {
  }

  lemma WroteBelow(s: Snap, s': Snap, r: nat, dst: nat, data: seq<byte>)
    requires Wrote(s, s', r, dst, data) && dst + |data| <= USYSVPN * PGSIZE
    ensures SameUsys(s.mem, s'.mem, r)
  {
    hide UByte, SameButPages;
  }

  /** The loop over the program headers. */
  method LoadImage(lab: Lab, k: Kmem, pagetable: nat, ip: Inode, phnum: nat, ghost s0: Snap, ghost tr: nat,
                   ghost tf: nat)
    returns (ok: bool, sz: uint64)
    requires |s0.own| < POOL32 && Inv(s0) && Image(lab, s0, k.G(), pagetable, 0)
             && Spent(lab, s0, k.G(), pagetable, 0, tr, tf)
    requires forall o, n :: |ip.readi(o, n)| <= n
    modifies k, k.mem
    ensures Image(lab, s0, k.G(), pagetable, sz)
    ensures ok <==> Loadable(ip, phnum) && Fits(lab, s0, ImageSize(ip, phnum))
    ensures ok ==> sz == ImageSize(ip, phnum) && AllUser(k.G(), pagetable, Pages(sz))
    ensures ok ==>
              Loaded(k.G(), pagetable, ip, phnum, Pages(sz) * PGSIZE) && Spent(lab, s0, k.G(), pagetable, sz, tr, tf)
    ensures ok ==> SameUsys(old(k.mem[..]), k.mem[..], pagetable)
  {
    hide Inv, Image, Fits, Spent, UByte;
    SpentFits(lab, s0, k.G(), pagetable, 0, tr, tf);
    ok, sz := false, 0;
    var i := 0;
    while i < phnum
      invariant 0 <= i <= phnum && sz == ImageSize(ip, i) && Loadable(ip, i)
      invariant Image(lab, s0, k.G(), pagetable, sz) && AllUser(k.G(), pagetable, Pages(sz))
      invariant Loaded(k.G(), pagetable, ip, i, Pages(sz) * PGSIZE)
      invariant Spent(lab, s0, k.G(), pagetable, sz, tr, tf) && Fits(lab, s0, sz)
      invariant SameUsys(old(k.mem[..]), k.mem[..], pagetable)
    {
      ImageMonotone(ip, i + 1, phnum);
      match ip.ph(i)
      case None => return;
      case Some(h) =>
        if h.typ == ELF_PROG_LOAD {
          if Fits(lab, s0, ImageSize(ip, phnum)) { FitsGrows(lab, s0, ImageSize(ip, i + 1), ImageSize(ip, phnum)); }
          ok, sz := LoadHeader(lab, k, pagetable, ip, i, h, sz, s0, tr, tf);
          if !ok { return; }
          ok := false;
        } else {
          LoadedSkip(k.G(), pagetable, ip, i, Pages(sz) * PGSIZE, h);
        }
      i := i + 1;
    }
    ok := true;
  }

  lemma LoadedSkip(s: Snap, r: nat, ip: Inode, i: nat, m: nat, h: Proghdr)
    requires Loaded(s, r, ip, i, m) && ip.ph(i) == Some(h) && h.typ != ELF_PROG_LOAD
    ensures Loaded(s, r, ip, i + 1, m)
  {
  }
}
