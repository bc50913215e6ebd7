/** The part of vm.c that creates, grows, shrinks, copies and frees user address spaces. */
module UserVm {
  import opened Types
  import opened Riscv
  import opened Phys
  import opened PhysUpdate
  import opened Kalloc
  import opened Tables
  import opened Vm

  const USYSVPN: int := MAXVPN - 3  // USYSCALL / PGSIZE, the lowest page used at the top

  // PTE_W|PTE_X|PTE_R|PTE_U
  const USERFLAGS := NOFLAGS.(r := true, w := true, x := true, u := true)

  /** Tree r maps exactly the pages below n, and owns their frames, as far as
      the pages below USYSCALL go. */
  ghost predicate UserSpace(s: Snap, r: nat, n: nat) {
    && IsRoot(s, r) && n <= USYSVPN
    && (forall v :: 0 <= v < n ==> Owns(s, r, v))
    && (forall v :: n <= v < USYSVPN ==> Lookup(s.mem, r, v) == None)
  }

  /** Every page is eagerly backed by its own frame: a process is no bigger than memory. */
  lemma {:induction false} OwnedBound(s: Snap, r: nat, n: nat)
    requires forall v :: 0 <= v < n ==> Owns(s, r, v)
    ensures n <= |s.own|
  {
    var pages := OwnedFrames(s, r, n);
    SubsetSize(pages, Below(|s.own|));
  }

  ghost function OwnedFrames(s: Snap, r: nat, n: nat): (b: set<nat>)
    requires forall v :: 0 <= v < n ==> Owns(s, r, v)
    ensures |b| == n
    ensures forall c :: c in b ==> c < |s.own| && s.own[c].User? && s.own[c].vpn < n
  {
    if n == 0 then {} else
    assert Owns(s, r, n - 1);
    var c := Lookup(s.mem, r, n - 1).value.ppn;
    OwnedFrames(s, r, n - 1) + {c}
  }

  // ---- isolation

  /** Frames in use by others keep owner and contents, and no frame leaves the
      pool formed by the free frames and tree r's own: nothing leaks. */
  ghost predicate Isolated(s: Snap, s': Snap, r: nat) {
    && |s'.own| == |s.own| == |s.mem| == |s'.mem| && s'.lo == s.lo
    && (forall f :: 0 <= f < |s.own| ==>
          if s.own[f] == Free || Of(s.own[f], r) then s'.own[f] == Free || Of(s'.own[f], r)
          else s'.own[f] == s.own[f] && s'.mem[f] == s.mem[f])
  }

  lemma IsolatedTrans(s: Snap, s1: Snap, s2: Snap, r: nat)
    requires Isolated(s, s1, r) && Isolated(s1, s2, r)
    ensures Isolated(s, s2, r)
  {
    forall f | 0 <= f < |s.own| && !(s.own[f] == Free || Of(s.own[f], r))
      ensures s2.own[f] == s.own[f] && s2.mem[f] == s.mem[f]
    {
      assert !(s1.own[f] == Free || Of(s1.own[f], r));
    }
  }

  /** Another process notices nothing: its address map and the bytes of every page
      that it owns are the same. */
  lemma OthersUnchanged(s: Snap, s': Snap, r: nat, r2: nat, v: nat)
    requires Inv(s) && Isolated(s, s', r) && r2 != r && IsRoot(s, r2) && v < MAXVPN
    ensures IsRoot(s', r2) && Lookup(s'.mem, r2, v) == Lookup(s.mem, r2, v)
    ensures Owns(s, r2, v) ==>
              Owns(s', r2, v) && s'.mem[Lookup(s.mem, r2, v).value.ppn] == s.mem[Lookup(s.mem, r2, v).value.ppn]
  {
    LookupFrame(s, s'.mem, r2, v);
  }

  // ---- uvmcreate

  method Uvmcreate(k: Kmem) returns (pagetable: nat)
    requires Inv(k.G())
    modifies k, k.mem
    ensures Inv(k.G())
    ensures pagetable == 0 <==> old(k.free) == []
    ensures pagetable == 0 ==> k.G() == old(k.G())
    ensures pagetable != 0 ==>
              && pagetable < |k.own| == |old(k.own)| && old(k.own)[pagetable] == Free && IsRoot(k.G(), pagetable)
              && Isolated(old(k.G()), k.G(), pagetable)
              && k.own == old(k.own)[pagetable := Tab(pagetable, 2, pagetable, 0)] && |k.free| == |old(k.free)| - 1
              && forall v :: 0 <= v < MAXVPN ==>
                   Lookup(k.mem[..], pagetable, v) == None && Missing(k.mem[..], pagetable, v) == 2
  {
    ghost var s := k.G();
    pagetable := k.Kalloc();
    if pagetable != 0 {
      assert pagetable in s.free;
      PopKeeps(s);
      NewRootKeeps(Popped(s), pagetable);
      k.mem[pagetable] := ZeroTable();
      k.own := k.own[pagetable := Tab(pagetable, 2, pagetable, 0)];
      assert k.G() == NewRoot(Popped(s), pagetable);
    }
  }

  // ---- uvmdealloc

  method Uvmdealloc(k: Kmem, pagetable: nat, oldsz: uint64, newsz: uint64) returns (sz: uint64)
    requires Inv(k.G()) && IsRoot(k.G(), pagetable) && Pages(oldsz) <= USYSVPN
    requires forall v :: Pages(newsz) <= v < Pages(oldsz) ==> Owns(k.G(), pagetable, v)
    modifies k, k.mem
    ensures Inv(k.G())
    ensures sz == if newsz < oldsz then newsz else oldsz
    ensures newsz >= oldsz ==> k.G() == old(k.G())
    ensures var n := if newsz < oldsz then Pages(oldsz) - Pages(newsz) else 0;
            Unmapping(old(k.G()), k.G(), pagetable, Pages(newsz), n, true)
  {
    UnmapNone(k.G(), pagetable, Pages(newsz), true);
    if newsz >= oldsz { return oldsz; }
    if PgRoundUp(newsz) < PgRoundUp(oldsz) {
      var npages := (PgRoundUp(oldsz) - PgRoundUp(newsz)) / PGSIZE;
      assert PgRoundUp(newsz) / PGSIZE == Pages(newsz) && npages == Pages(oldsz) - Pages(newsz);
      forall v | Pages(newsz) <= v < Pages(oldsz) ensures Lookup(k.mem[..], pagetable, v).Some? {
        assert Owns(k.G(), pagetable, v);
      }
      Uvmunmap(k, pagetable, PgRoundUp(newsz), npages, true);
    }
    return newsz;
  }

  lemma UnmapIsolated(s: Snap, s': Snap, r: nat, v0: nat, n: nat)
    requires Unmapping(s, s', r, v0, n, true)
    ensures Isolated(s, s', r)
  {
  }

  // ---- adding pages

  /** From s to s' tree r gained exactly the n pages from v0 on, on frames that were
      free; free frames also became page-table pages of r; nothing else changed. */
  ghost predicate AddedFrames(s: Snap, s': Snap, r: nat, v0: nat, n: nat) {
    && |s'.own| == |s.own| == |s.mem| == |s'.mem| && s'.lo == s.lo
    && (forall f :: 0 <= f < |s.own| ==>
          || s'.own[f] == s.own[f]
          || (s.own[f] == Free && IsTab(s'.own[f], r))
          || (s.own[f] == Free && s'.own[f].User? && s'.own[f].space == r && v0 <= s'.own[f].vpn < v0 + n))
    && (forall f :: 0 <= f < |s.own| && s.own[f] != Free && !IsTab(s.own[f], r) ==> s'.mem[f] == s.mem[f])
  }

  ghost predicate AddedPages(s: Snap, s': Snap, r: nat, v0: nat, n: nat)
    requires |s'.own| == |s.own|
  {
    && (forall r2, v :: IsRoot(s, r2) && 0 <= v < MAXVPN && !(r2 == r && v0 <= v < v0 + n) ==>
          Lookup(s'.mem, r2, v) == Lookup(s.mem, r2, v))
    && (forall v :: v0 <= v < v0 + n ==> Owns(s', r, v) && s.own[Lookup(s'.mem, r, v).value.ppn] == Free)
  }

  ghost predicate Added(s: Snap, s': Snap, r: nat, v0: nat, n: nat) {
    |s'.own| == |s.own| && AddedFrames(s, s', r, v0, n) && AddedPages(s, s', r, v0, n)
  }

  /** Page v of tree r has flags fl and contents x. */
  ghost predicate PageIs(s: Snap, r: nat, v: nat, fl: Flags, x: Frame) {
    && Lookup(s.mem, r, v).Some?
    && Lookup(s.mem, r, v).value.flags == fl
    && Lookup(s.mem, r, v).value.ppn < |s.mem|
    && s.mem[Lookup(s.mem, r, v).value.ppn] == x
  }

  lemma AddedFacts(s: Snap, s': Snap, r: nat, v0: nat, n: nat)
    requires Added(s, s', r, v0, n)
    ensures Isolated(s, s', r)
    ensures forall r2 :: IsRoot(s, r2) ==> IsRoot(s', r2)
    ensures IsRoot(s, r) ==> forall v :: 0 <= v < MAXVPN && !(v0 <= v < v0 + n) ==>
              && Lookup(s'.mem, r, v) == Lookup(s.mem, r, v)
              && (Owns(s, r, v) ==> Owns(s', r, v))
  {
    hide TableAt, Lookup;
  }

  lemma AddedStep(s: Snap, s1: Snap, s2: Snap, r: nat, v0: nat, n: nat)
    requires Added(s, s1, r, v0, n) && Added(s1, s2, r, v0 + n, 1) && IsRoot(s, r) && v0 + n < MAXVPN
    ensures Added(s, s2, r, v0, n + 1)
  {
    AddedFacts(s, s1, r, v0, n);
    AddedFacts(s1, s2, r, v0 + n, 1);
    hide TableAt, Lookup;
    forall f | 0 <= f < |s.own| && s.own[f] != Free && !IsTab(s.own[f], r) ensures s2.mem[f] == s.mem[f] {
      assert s1.own[f] == s.own[f];
    }
    assert AddedFrames(s, s2, r, v0, n + 1);
    forall v | v0 <= v < v0 + n + 1
      ensures Owns(s2, r, v) && s.own[Lookup(s2.mem, r, v).value.ppn] == Free
    {
      if v < v0 + n {
        assert Owns(s1, r, v);
        assert Lookup(s2.mem, r, v) == Lookup(s1.mem, r, v);
      } else {
        assert Owns(s2, r, v);
      }
    }
    forall r2, v | IsRoot(s, r2) && 0 <= v < MAXVPN && !(r2 == r && v0 <= v < v0 + n + 1)
      ensures Lookup(s2.mem, r2, v) == Lookup(s.mem, r2, v)
    {
      assert IsRoot(s1, r2);
    }
  }

  /** Pages already there keep flags and contents. */
  lemma AddedKeeps(s: Snap, s': Snap, r: nat, v0: nat, n: nat, r2: nat, v: nat, fl: Flags, x: Frame)
    requires Added(s, s', r, v0, n) && IsRoot(s, r2) && v < MAXVPN && !(r2 == r && v0 <= v < v0 + n)
    requires PageIs(s, r2, v, fl, x) && Owns(s, r2, v)
    ensures PageIs(s', r2, v, fl, x) && Owns(s', r2, v)
  {
    hide TableAt;
    assert Lookup(s'.mem, r2, v) == Lookup(s.mem, r2, v);
  }

  /** Growing and then removing the added pages is growing. */
  lemma AddedUndone(s: Snap, s1: Snap, s2: Snap, s3: Snap, r: nat, v0: nat, n: nat)
    requires Inv(s) && IsRoot(s, r) && v0 + n <= MAXVPN
    requires forall v :: v0 <= v < v0 + n ==> Lookup(s.mem, r, v) == None
    requires Added(s, s1, r, v0, n) && Grow(s1, s2, r) && Unmapping(s2, s3, r, v0, n, true)
    ensures Grow(s, s3, r)
  {
    AddedFacts(s, s1, r, v0, n);
    forall r2, v | IsRoot(s, r2) && 0 <= v < MAXVPN ensures Lookup(s3.mem, r2, v) == Lookup(s.mem, r2, v) {
      hide AddedFrames, UnmapFrames, TableAt, Lookup;
      assert IsRoot(s1, r2) && IsRoot(s2, r2);
    }
    assert AddedFrames(s, s1, r, v0, n) && UnmapFrames(s2, s3, r, v0, n, true);
    AddedUndoneFrames(s, s1, s2, s3, r, v0, n);
  }

  lemma AddedUndoneFrames(s: Snap, s1: Snap, s2: Snap, s3: Snap, r: nat, v0: nat, n: nat)
    requires Inv(s) && IsRoot(s, r) && v0 + n <= MAXVPN
    requires forall v :: v0 <= v < v0 + n ==> Lookup(s.mem, r, v) == None
    requires AddedFrames(s, s1, r, v0, n) && Grow(s1, s2, r) && UnmapFrames(s2, s3, r, v0, n, true)
    ensures forall f :: 0 <= f < |s.own| ==> s3.own[f] == s.own[f] || (s.own[f] == Free && IsTab(s3.own[f], r))
    ensures forall f :: 0 <= f < |s.own| == |s.mem| && s.own[f] != Free && !IsTab(s.own[f], r) ==> s3.mem[f] == s.mem[f]
  {
    forall f | 0 <= f < |s.own| && s.own[f] != Free ensures s3.own[f] == s.own[f] {
      if s.own[f].User? {
        UserIsMapped(s, f);
      }
    }
  }

  // ---- one fresh page

  /** kalloc a page and fill it with x (memset or memmove). */
  method NewPage(k: Kmem, x: Frame) returns (page: nat)
    requires Inv(k.G())
    modifies k, k.mem
    ensures page == 0 <==> old(k.free) == []
    ensures page == 0 ==> k.G() == old(k.G())
    ensures page != 0 ==> page == old(k.free)[0] && page < |old(k.own)| == |old(k.mem[..])|
    ensures page != 0 ==> k.G() == WithFrame(Popped(old(k.G())), page, x)
  {
    ghost var s := k.G();
    page := k.Kalloc();
    if page != 0 {
      k.mem[page] := x;
      assert k.G() == WithFrame(Popped(s), page, x);
    }
  }

  /** mappages(pagetable, va, PGSIZE, pa, perm) for a page-aligned va. */
  method MapPage(k: Kmem, pagetable: nat, va: uint64, pa: nat, perm: Flags, ghost take: bool) returns (ok: bool)
    requires Inv(k.G()) && IsRoot(k.G(), pagetable) && LeafFlags(perm)
    requires va % PGSIZE == 0 && va < MAXVA && Lookup(k.mem[..], pagetable, va / PGSIZE) == None
    requires pa < |k.own| && if take then k.own[pa] == Held else !perm.u
    modifies k, k.mem
    ensures Inv(k.G())
    ensures Mapping(old(k.G()), k.G(), pagetable, va / PGSIZE, if ok then 1 else 0, pa, perm, take)
    ensures var need := Missing(old(k.mem[..]), pagetable, va / PGSIZE);
            (ok <==> need <= |old(k.free)|) && |k.free| == if ok then |old(k.free)| - need else 0
    ensures ok ==> Laid(old(k.mem[..]), k.mem[..], pagetable, va / PGSIZE, 1)
  {
    hide Inv, Mapping, Lookup, Missing, Laid, NewTables;
    OneNew(k.mem[..], pagetable, va / PGSIZE);
    assert (va + PGSIZE - 1) / PGSIZE == va / PGSIZE;
    var r, done := Mappages(k, pagetable, va, PGSIZE, pa, perm, take);
    ok := r == 0;
  }

  /** kalloc a page, fill it with x, map it at va; on failure give it back. */
  method MapFresh(k: Kmem, pagetable: nat, va: uint64, x: Frame, perm: Flags) returns (ok: bool)
    requires Inv(k.G()) && IsRoot(k.G(), pagetable) && IsPage(x) && LeafFlags(perm)
    requires va % PGSIZE == 0 && va < MAXVA && Lookup(k.mem[..], pagetable, va / PGSIZE) == None
    modifies k, k.mem
    ensures Inv(k.G())
    ensures ok ==> Added(old(k.G()), k.G(), pagetable, va / PGSIZE, 1)
    ensures ok ==> PageIs(k.G(), pagetable, va / PGSIZE, perm.(v := true), x)
    ensures !ok ==> Grow(old(k.G()), k.G(), pagetable)
    ensures var need := 1 + Missing(old(k.mem[..]), pagetable, va / PGSIZE);
            (ok <==> need <= |old(k.free)|) && (ok ==> |k.free| == |old(k.free)| - need)
    ensures ok ==> Laid(old(k.mem[..]), k.mem[..], pagetable, va / PGSIZE, 1)
  {
    ghost var s, v := k.G(), va / PGSIZE;
    GrowRefl(s, pagetable);
    if s.free != [] { FreshFrame(s, pagetable, v, x); }
    hide Laid, SameTabs, Inv, Mapping, Added, PageIs, Grow, TableAt, Lookup, Missing, Taken, FreeListOk, Popped, Pushed;
    var page := NewPage(k, x);
    if page == 0 {
      return false;
    }
    ghost var s1 := k.G();
    ok := MapPage(k, pagetable, va, page, perm, true);
    if !ok {
      FreshFails(s, s1, k.G(), pagetable, v, page, perm);
      k.Kfree(page);
      return false;
    }
    FreshMapped(s, s1, k.G(), pagetable, v, page, perm);
    SameTabsRefl(k.mem[..], pagetable);
    LaidSame(s.mem, s1.mem, k.mem[..], k.mem[..], pagetable, v, 1);
    return true;
  }

  /** The free frame c was taken off the list and filled. */
  ghost predicate Taken(s: Snap, s1: Snap, c: nat) {
    && |s1.own| == |s.own| == |s.mem| == |s1.mem| && s1.lo == s.lo
    && c < |s.own| && s.own[c] == Free && s1.own == s.own[c := Held]
    && (forall f :: 0 <= f < |s.mem| && f != c ==> s1.mem[f] == s.mem[f])
    && SameMaps(s, s1)
  }

  lemma FreshFrame(s: Snap, r: nat, v: nat, x: Frame)
    requires Inv(s) && IsRoot(s, r) && IsPage(x) && v < MAXVPN && s.free != []
    ensures s.free[0] < |s.own| && s.own[s.free[0]] == Free
    ensures var s1 := WithFrame(Popped(s), s.free[0], x);
            && Inv(s1) && IsRoot(s1, r) && Taken(s, s1, s.free[0]) && s1.mem[s.free[0]] == x
            && Missing(s1.mem, r, v) == Missing(s.mem, r, v) && Lookup(s1.mem, r, v) == Lookup(s.mem, r, v)
            && SameTabs(s.mem, s1.mem, r)
            && s.free[0] < |s1.own| && s1.own[s.free[0]] == Held && |s1.free| == |s.free| - 1
  {
    var c := s.free[0];
    assert c in s.free;
    PopKeeps(s);
    WriteKeeps(Popped(s), c, x);
    var s1 := WithFrame(Popped(s), c, x);
    assert SameMaps(s, s1) by {
      hide Lookup, Inv;
      SameMapsTrans(s, Popped(s), s1);
    }
    Tables.SameShape(s, s1.mem, r);
  }

  lemma FreshMapped(s: Snap, s1: Snap, s2: Snap, r: nat, v: nat, c: nat, perm: Flags)
    requires Inv(s) && IsRoot(s, r) && v < MAXVPN && Taken(s, s1, c) && c < |s1.mem|
    requires Mapping(s1, s2, r, v, 1, c, perm, true)
    ensures Added(s, s2, r, v, 1) && PageIs(s2, r, v, perm.(v := true), s1.mem[c])
  {
    hide TableAt, Lookup;
    forall r2, v2 | IsRoot(s, r2) && 0 <= v2 < MAXVPN && !(r2 == r && v == v2)
      ensures Lookup(s2.mem, r2, v2) == Lookup(s.mem, r2, v2)
    {
      assert IsRoot(s1, r2);
    }
    assert IsRoot(s1, r);
  }

  lemma FreshFails(s: Snap, s1: Snap, s2: Snap, r: nat, v: nat, c: nat, perm: Flags)
    requires Inv(s) && IsRoot(s, r) && v < MAXVPN && Taken(s, s1, c)
    requires Inv(s2) && Mapping(s1, s2, r, v, 0, c, perm, true)
    ensures FreeListOk(s2) && s2.lo <= c < |s2.mem| && s2.own[c] == Held
    ensures Inv(Pushed(s2, c)) && Grow(s, Pushed(s2, c), r)
  {
    MappingRoot(s1, s2, r, v, 0, c, perm, true);
    NotKernel(s2, c);
    PushKeeps(s2, c);
    hide Inv, TableAt, Lookup;
    var s3 := Pushed(s2, c);
    forall r2, v2 | IsRoot(s, r2) && 0 <= v2 < MAXVPN ensures Lookup(s3.mem, r2, v2) == Lookup(s.mem, r2, v2) {
      assert IsRoot(s1, r2) && IsRoot(s2, r2);
    }
  }

  // ---- uvminit

  /** Uvminit tests neither kalloc's answer nor mappages': the page is mapped, or it is
      lost without a mapping, or memset writes to address 0. */
  datatype Inited = Mapped | Lost | NullMem

  // the first |src| bytes of a zeroed page
  function InitPage(src: seq<byte>): (x: Frame)
    requires |src| < PGSIZE
    ensures IsPage(x)
  {
    Page(src + Repeat<byte>(0, PGSIZE - |src|))
  }

  /** Page 0 of the very first process. */
  method Uvminit(k: Kmem, pagetable: nat, src: seq<byte>) returns (r: Inited, ghost page: nat)
    requires Inv(k.G()) && IsRoot(k.G(), pagetable) && Lookup(k.mem[..], pagetable, 0) == None
    requires |src| < PGSIZE  // panic("inituvm: more than a page")
    modifies k, k.mem
    ensures Inv(k.G())
    ensures r.NullMem? <==> old(k.free) == []
    ensures r.Mapped? <==> |old(k.free)| >= 1 + Missing(old(k.mem[..]), pagetable, 0)
    ensures r.NullMem? ==> k.G() == old(k.G())
    ensures r.Lost? ==>
              && page < |old(k.own)| == |k.own| && old(k.own)[page] == Free && k.own[page] == Held && k.free == []
              && SameMaps(old(k.G()), k.G())
              && forall f :: 0 <= f < |old(k.own)| && (old(k.own)[f] == Held || old(k.own)[f].Tab?) ==>
                   k.own[f] == old(k.own)[f]
    ensures r.Mapped? ==>
              && Added(old(k.G()), k.G(), pagetable, 0, 1)
              && PageIs(k.G(), pagetable, 0, USERFLAGS.(v := true), InitPage(src))
              && |k.free| == |old(k.free)| - 1 - Missing(old(k.mem[..]), pagetable, 0)
              && Laid(old(k.mem[..]), k.mem[..], pagetable, 0, 1)
  {
    ghost var s := k.G();
    if s.free != [] { FreshFrame(s, pagetable, 0, Filled(0)); }
    hide Laid, SameTabs, Inv, Mapping, Added, PageIs, TableAt, Lookup, Missing, Taken, FreeListOk, Popped, InitPage;
    var mem := NewPage(k, Filled(0));
    page := mem;
    if mem == 0 {
      return NullMem, page;
    }
    ghost var s1 := k.G();
    var ok := MapPage(k, pagetable, 0, mem, USERFLAGS, true);
    ghost var s2 := k.G();
    if !ok {
      InitLost(s, s1, s2, pagetable, page);
      return Lost, page;
    }
    FreshMapped(s, s1, s2, pagetable, 0, page, USERFLAGS);
    InitWritten(s, s1, s2, pagetable, page, InitPage(src));
    k.mem[mem] := InitPage(src);
    assert k.G() == WithFrame(s2, page, InitPage(src));
    SameTabsRefl(s1.mem, pagetable);
    LaidSame(s.mem, s1.mem, s2.mem, k.mem[..], pagetable, 0, 1);
    return Mapped, page;
  }

  lemma InitLost(s: Snap, s1: Snap, s2: Snap, r: nat, c: nat)
    requires Taken(s, s1, c) && Mapping(s1, s2, r, 0, 0, c, USERFLAGS, true)
    ensures c < |s2.own| == |s.own| && s.own[c] == Free && s2.own[c] == Held && SameMaps(s, s2)
    ensures forall f :: 0 <= f < |s.own| && (s.own[f] == Held || s.own[f].Tab?) ==> s2.own[f] == s.own[f]
  {
    hide Lookup;
    forall r2, v | IsRoot(s, r2) && 0 <= v < MAXVPN ensures Lookup(s2.mem, r2, v) == Lookup(s.mem, r2, v) {
      assert IsRoot(s1, r2);
    }
  }

  /** memmove into the page just mapped. */
  lemma InitWritten(s: Snap, s1: Snap, s2: Snap, r: nat, c: nat, x: Frame)
    requires Inv(s2) && IsRoot(s, r) && Taken(s, s1, c) && Mapping(s1, s2, r, 0, 1, c, USERFLAGS, true)
             && Added(s, s2, r, 0, 1)
    requires c < |s1.mem| && PageIs(s2, r, 0, USERFLAGS.(v := true), s1.mem[c]) && IsPage(x)
    ensures c < |s2.mem|
    ensures var s3 := WithFrame(s2, c, x);
            Inv(s3) && Added(s, s3, r, 0, 1) && PageIs(s3, r, 0, USERFLAGS.(v := true), x)
            && SameTabs(s2.mem, s3.mem, r)
  {
    var s3 := WithFrame(s2, c, x);
    WriteKeeps(s2, c, x);
    AddedFacts(s, s2, r, 0, 1);
    Tables.SameShape(s2, s3.mem, r);
    hide Inv, Lookup, TableAt, SameTabs;
    forall r2, v | IsRoot(s, r2) && 0 <= v < MAXVPN && !(r2 == r && 0 <= v < 1)
      ensures Lookup(s3.mem, r2, v) == Lookup(s.mem, r2, v)
    {
      assert IsRoot(s2, r2);
    }
    assert Owns(s3, r, 0) && s.own[Lookup(s3.mem, r, 0).value.ppn] == Free by { assert Owns(s2, r, 0); }
  }

  // ---- uvmalloc

  /** The n pages from v0 on of tree r are readable, writable, executable and all zero. */
  ghost predicate ZeroPages(s: Snap, r: nat, v0: nat, n: nat) {
    forall v :: v0 <= v < v0 + n ==> PageIs(s, r, v, USERFLAGS.(v := true), Filled(0))
  }

  lemma GrowSpace(s: Snap, s': Snap, r: nat, n: nat)
    requires UserSpace(s, r, n) && Grow(s, s', r)
    ensures UserSpace(s', r, n)
  {
    hide TableAt, Lookup;
    assert IsRoot(s, r);
    forall v | 0 <= v < n ensures Owns(s', r, v) {
      assert Owns(s, r, v);
    }
  }

  lemma AllocStep(s: Snap, s1: Snap, s2: Snap, r: nat, v0: nat, n: nat)
    requires IsRoot(s, r) && Added(s, s1, r, v0, n) && ZeroPages(s1, r, v0, n) && UserSpace(s1, r, v0 + n)
    requires Added(s1, s2, r, v0 + n, 1) && PageIs(s2, r, v0 + n, USERFLAGS.(v := true), Filled(0)) && v0 + n < USYSVPN
    ensures Added(s, s2, r, v0, n + 1) && ZeroPages(s2, r, v0, n + 1) && UserSpace(s2, r, v0 + n + 1)
  {
    AddedStep(s, s1, s2, r, v0, n);
    AddedFacts(s1, s2, r, v0 + n, 1);
    ZeroStep(s1, s2, r, v0, n);
    hide TableAt, Lookup, AddedFrames, PageIs, ZeroPages, AddedPages;
    forall v | 0 <= v < v0 + n + 1 ensures Owns(s2, r, v) {
      if v < v0 + n { assert Owns(s1, r, v); }
    }
  }

  lemma ZeroStep(s1: Snap, s2: Snap, r: nat, v0: nat, n: nat)
    requires ZeroPages(s1, r, v0, n) && UserSpace(s1, r, v0 + n) && Added(s1, s2, r, v0 + n, 1)
    requires PageIs(s2, r, v0 + n, USERFLAGS.(v := true), Filled(0)) && v0 + n < USYSVPN
    ensures ZeroPages(s2, r, v0, n + 1)
  {
    hide PageIs, Added, Filled, Lookup, TableAt;
    forall v | v0 <= v < v0 + n + 1 ensures PageIs(s2, r, v, USERFLAGS.(v := true), Filled(0)) {
      if v < v0 + n {
        assert Owns(s1, r, v);
        AddedKeeps(s1, s2, r, v0 + n, 1, r, v, USERFLAGS.(v := true), Filled(0));
      }
    }
  }

  /** Grows the user part of tree r from oldsz to newsz bytes, for any two sizes.  It
      works exactly when the frames for the new pages, and for the page-table pages that
      their paths lack, are free. */
  method Uvmalloc(k: Kmem, pagetable: nat, oldsz: uint64, newsz: uint64) returns (sz: uint64)
    requires Inv(k.G()) && UserSpace(k.G(), pagetable, Pages(oldsz))
    modifies k, k.mem
    ensures Inv(k.G())
    ensures newsz < oldsz ==> sz == oldsz && k.G() == old(k.G())
    ensures newsz >= oldsz && sz == newsz ==>
              && UserSpace(k.G(), pagetable, Pages(newsz))
              && Added(old(k.G()), k.G(), pagetable, Pages(oldsz), Pages(newsz) - Pages(oldsz))
              && ZeroPages(k.G(), pagetable, Pages(oldsz), Pages(newsz) - Pages(oldsz))
    ensures newsz >= oldsz && sz != newsz ==>
              sz == 0 && Grow(old(k.G()), k.G(), pagetable) && UserSpace(k.G(), pagetable, Pages(oldsz))
    ensures newsz >= oldsz ==>
              var need := Cost(old(k.mem[..]), pagetable, Pages(oldsz), Pages(newsz) - Pages(oldsz));
              (sz == newsz <==> need <= |old(k.free)|) && (sz == newsz ==> |k.free| == |old(k.free)| - need)
    ensures newsz >= oldsz && sz == newsz ==>
              Laid(old(k.mem[..]), k.mem[..], pagetable, Pages(oldsz), Pages(newsz) - Pages(oldsz))
  {
    hide Cost, Laid, Inv, UserSpace, Added, ZeroPages, PageIs, Grow, Unmapping, Lookup, TableAt, Owns, Missing,
         Pages, PgRoundUp;
    if newsz < oldsz { return oldsz; }
    ghost var s0, v0, n := k.G(), Pages(oldsz), 0;
    RoundedUp(oldsz, newsz);
    AllocBase(s0, pagetable, v0);
    LaidNone(s0.mem, pagetable, v0);
    CostNone(s0.mem, pagetable, v0);
    var start: uint64 := PgRoundUp(oldsz);
    var a: uint64 := start;
    while a < newsz
      invariant a == (v0 + n) * PGSIZE && (n > 0 ==> a < newsz + PGSIZE)
      invariant Inv(k.G()) && IsRoot(k.G(), pagetable) && UserSpace(k.G(), pagetable, v0 + n)
      invariant Added(s0, k.G(), pagetable, v0, n) && ZeroPages(k.G(), pagetable, v0, n)
      invariant Laid(s0.mem, k.mem[..], pagetable, v0, n)
      invariant |k.free| == |s0.free| - Cost(s0.mem, pagetable, v0, n)
      decreases newsz - a
    {
      ghost var s1 := k.G();
      PageEnds(v0 + n, newsz);
      AllocRoom(s1, pagetable, v0 + n);
      NextCost(s0.mem, s1.mem, pagetable, v0, n);
      CostGrows(s0.mem, pagetable, v0, n + 1, Pages(newsz) - v0);
      var ok := MapFresh(k, pagetable, a, Filled(0), USERFLAGS);
      if !ok {
        AllocFails(s0, s1, k.G(), pagetable, v0, n);
        ghost var s2 := k.G();
        sz := Uvmdealloc(k, pagetable, a, start);
        AllocUndone(s0, s1, s2, k.G(), pagetable, v0, n);
        return 0;
      }
      AllocStep(s0, s1, k.G(), pagetable, v0, n);
      AllocRoot(k.G(), pagetable, v0 + n + 1);
      LaidStep(s0.mem, s1.mem, k.mem[..], pagetable, v0, n, 1);
      n := n + 1;
      a := a + PGSIZE;
    }
    PageEnds(v0 + n, newsz);
    return newsz;
  }

  /** Page v, and the pages of sz bytes. */
  lemma PageEnds(v: nat, sz: nat)
    ensures v * PGSIZE / PGSIZE == v && v * PGSIZE % PGSIZE == 0 && Pages(v * PGSIZE) == v
    ensures v * PGSIZE < sz <==> v < Pages(sz)
    ensures sz <= v * PGSIZE < sz + PGSIZE <==> Pages(sz) == v
  {
  }

  lemma RoundedUp(sz: nat, sz2: nat)
    requires sz <= sz2
    ensures PgRoundUp(sz) == Pages(sz) * PGSIZE && Pages(PgRoundUp(sz)) == Pages(sz) <= Pages(sz2)
    ensures PgRoundUp(sz) >= sz2 ==> Pages(sz2) == Pages(sz)
  {
  }

  lemma CostNone(m: seq<Frame>, r: nat, v0: nat)
    ensures Cost(m, r, v0, 0) == 0
  {
  }

  lemma AllocBase(s: Snap, r: nat, v0: nat)
    requires Inv(s) && UserSpace(s, r, v0)
    ensures IsRoot(s, r) && v0 <= USYSVPN && Added(s, s, r, v0, 0) && ZeroPages(s, r, v0, 0)
  {
  }

  lemma AllocRoot(s: Snap, r: nat, n: nat)
    requires UserSpace(s, r, n)
    ensures IsRoot(s, r)
  {
  }

  /** Memory runs out long before the address space does. */
  lemma AllocRoom(s: Snap, r: nat, n: nat)
    requires Inv(s) && UserSpace(s, r, n)
    ensures n <= |s.own| && n < USYSVPN && Lookup(s.mem, r, n) == None
  {
    OwnedBound(s, r, n);
  }

  lemma AllocFails(s: Snap, s1: Snap, s2: Snap, r: nat, v0: nat, n: nat)
    requires Inv(s) && IsRoot(s1, r) && UserSpace(s1, r, v0 + n) && Added(s, s1, r, v0, n) && Grow(s1, s2, r)
    ensures IsRoot(s2, r) && v0 + n <= USYSVPN && forall v :: v0 <= v < v0 + n ==> Owns(s2, r, v)
  {
    GrowSpace(s1, s2, r, v0 + n);
  }

  lemma AllocUndone(s: Snap, s1: Snap, s2: Snap, s3: Snap, r: nat, v0: nat, n: nat)
    requires Inv(s) && UserSpace(s, r, v0) && v0 + n <= USYSVPN
    requires Added(s, s1, r, v0, n) && Grow(s1, s2, r) && Unmapping(s2, s3, r, v0, n, true)
    ensures Grow(s, s3, r) && UserSpace(s3, r, v0)
  {
    AddedUndone(s, s1, s2, s3, r, v0, n);
    GrowSpace(s, s3, r, v0);
  }

  // ---- uvmcopy

  /** The first n pages of tree `dst` in s' have the flags and contents that those of `src` had in s. */
  ghost predicate CopyOf(s: Snap, s': Snap, src: nat, dst: nat, n: nat) {
    forall v :: 0 <= v < n ==> Copied(s, s', src, dst, v)
  }

  ghost predicate Copied(s: Snap, s': Snap, src: nat, dst: nat, v: nat) {
    && Lookup(s.mem, src, v).Some? && Lookup(s.mem, src, v).value.ppn < |s.mem|
    && PageIs(s', dst, v, Lookup(s.mem, src, v).value.flags, s.mem[Lookup(s.mem, src, v).value.ppn])
  }

  lemma CopyStep(s: Snap, s1: Snap, s2: Snap, src: nat, dst: nat, n: nat)
    requires IsRoot(s, dst) && src != dst && IsRoot(s, src) && Added(s, s1, dst, 0, n) && CopyOf(s, s1, src, dst, n)
             && n < USYSVPN
    requires Lookup(s.mem, src, n).Some? && Lookup(s.mem, src, n).value.ppn < |s.mem|
    requires Added(s1, s2, dst, n, 1)
    requires PageIs(s2, dst, n, Lookup(s.mem, src, n).value.flags, s.mem[Lookup(s.mem, src, n).value.ppn])
    ensures Added(s, s2, dst, 0, n + 1) && CopyOf(s, s2, src, dst, n + 1)
  {
    hide PageIs, AddedFrames, AddedPages, TableAt, Lookup;
    AddedStep(s, s1, s2, dst, 0, n);
    AddedFacts(s, s1, dst, 0, n);
    AddedOwns(s, s1, dst, 0, n);
    forall v | 0 <= v < n + 1 ensures Copied(s, s2, src, dst, v) {
      if v < n {
        assert Copied(s, s1, src, dst, v);
        AddedKeeps(s1, s2, dst, n, 1, dst, v, Lookup(s.mem, src, v).value.flags,
                   s.mem[Lookup(s.mem, src, v).value.ppn]);
      }
    }
  }

  lemma AddedOwns(s: Snap, s': Snap, r: nat, v0: nat, n: nat)
    requires Added(s, s', r, v0, n)
    ensures forall v :: v0 <= v < v0 + n ==> Owns(s', r, v)
  {
  }

  /** Page v of the source is, while the copy is being made, as it was. */
  lemma SourceKept(s: Snap, s1: Snap, src: nat, dst: nat, n: nat, v: nat)
    requires Inv(s) && src != dst && IsRoot(s, src) && IsRoot(s, dst) && Added(s, s1, dst, 0, n) && v < USYSVPN
             && Owns(s, src, v)
    requires n <= v && Lookup(s.mem, dst, v) == None
    ensures IsRoot(s1, src) && IsRoot(s1, dst) && Lookup(s1.mem, dst, v) == None
    ensures Lookup(s1.mem, src, v) == Lookup(s.mem, src, v)
    ensures var e := Lookup(s.mem, src, v).value;
            && e.ppn < |s.mem| && s1.mem[e.ppn] == s.mem[e.ppn] && IsPage(s.mem[e.ppn]) && LeafFlags(e.flags)
            && e.flags.v
  {
    AddedFacts(s, s1, dst, 0, n);
    LookupOwner(s, src, v);
    assert FrameOk(s, Lookup(s.mem, src, v).value.ppn);
  }

  /** fork's copy of the user memory: same pages, same flags, equal contents, on
      frames that were free; or, when memory runs out, no page at all. */
  method Uvmcopy(k: Kmem, src: nat, dst: nat, sz: uint64) returns (r: int)
    requires Inv(k.G()) && IsRoot(k.G(), src) && IsRoot(k.G(), dst) && src != dst && Pages(sz) <= USYSVPN
    // panic("uvmcopy: pte should exist"), panic("uvmcopy: page not present")
    requires forall v :: 0 <= v < Pages(sz) ==> Owns(k.G(), src, v)
    requires forall v :: 0 <= v < Pages(sz) ==> Lookup(k.mem[..], dst, v) == None
    modifies k, k.mem
    ensures Inv(k.G()) && (r == 0 || r == -1)
    ensures r == 0 ==> Added(old(k.G()), k.G(), dst, 0, Pages(sz)) && CopyOf(old(k.G()), k.G(), src, dst, Pages(sz))
    ensures r == -1 ==> Grow(old(k.G()), k.G(), dst)
    ensures r == 0 <==> Cost(old(k.mem[..]), dst, 0, Pages(sz)) <= |old(k.free)|
    ensures r == 0 ==> |k.free| == |old(k.free)| - Cost(old(k.mem[..]), dst, 0, Pages(sz))
  {
    hide Cost, Laid, Inv, Added, CopyOf, PageIs, Grow, Unmapping, TableAt, Lookup, Missing;
    var i: uint64 := 0;
    ghost var s0, n := k.G(), 0;
    LaidNone(s0.mem, dst, 0);
    CostNone(s0.mem, dst, 0);
    CopyBase(s0, src, dst);
    while i < sz
      invariant i == n * PGSIZE && n <= Pages(sz)
      invariant Inv(k.G()) && IsRoot(k.G(), src)
      invariant Added(s0, k.G(), dst, 0, n) && CopyOf(s0, k.G(), src, dst, n)
      invariant Laid(s0.mem, k.mem[..], dst, 0, n)
      invariant |k.free| == |s0.free| - Cost(s0.mem, dst, 0, n)
    {
      ghost var s1 := k.G();
      NextCost(s0.mem, s1.mem, dst, 0, n);
      CostGrows(s0.mem, dst, 0, n + 1, Pages(sz));
      SourceKept(s0, s1, src, dst, n, n);
      SomeTable(s1.mem, src, n);
      var pte := Walk(k, src, i, false);
      SlotEntry(s1, src, n, pte.t, pte.i);
      var e := k.mem[pte.t].ptes[pte.i];
      var ok := MapFresh(k, dst, i, k.mem[e.ppn], e.flags);
      if !ok {
        ghost var s2 := k.G();
        CopyFails(s0, s1, s2, dst, n);
        Uvmunmap(k, dst, 0, i / PGSIZE, true);
        AddedUndone(s0, s1, s2, k.G(), dst, 0, n);
        return -1;
      }
      assert e.flags.(v := true) == e.flags;
      CopyStep(s0, s1, k.G(), src, dst, n);
      AddedRoot(s0, k.G(), src, dst, n + 1);
      LaidStep(s0.mem, s1.mem, k.mem[..], dst, 0, n, 1);
      n := n + 1;
      i := i + PGSIZE;
    }
    return 0;
  }

  lemma AddedRoot(s: Snap, s1: Snap, src: nat, dst: nat, n: nat)
    requires Added(s, s1, dst, 0, n) && IsRoot(s, src)
    ensures IsRoot(s1, src)
  {
    AddedFacts(s, s1, dst, 0, n);
  }

  lemma CopyBase(s: Snap, src: nat, dst: nat)
    requires Inv(s)
    ensures Added(s, s, dst, 0, 0) && CopyOf(s, s, src, dst, 0)
  {
  }

  lemma CopyFails(s: Snap, s1: Snap, s2: Snap, dst: nat, n: nat)
    requires Inv(s) && IsRoot(s, dst) && Added(s, s1, dst, 0, n) && Grow(s1, s2, dst) && n <= USYSVPN
    ensures IsRoot(s2, dst)
    ensures forall v :: 0 <= v < n ==> Owns(s2, dst, v) && Lookup(s2.mem, dst, v).Some?
  {
    AddedFacts(s, s1, dst, 0, n);
    AddedOwns(s, s1, dst, 0, n);
    hide TableAt, Lookup, Added;
    forall v | 0 <= v < n ensures Owns(s2, dst, v) && Lookup(s2.mem, dst, v).Some? {
      assert Owns(s1, dst, v) && IsRoot(s1, dst);
    }
  }

  // ---- uvmclear

  lemma SlotEntry(s: Snap, r: nat, v: nat, t: nat, i: nat)
    requires Inv(s) && IsRoot(s, r) && v < MAXVPN && Lookup(s.mem, r, v).Some?
    requires TableAt(s.mem, r, v, 0) == Some(t) && i == Idx(0, v)
    ensures HasEntry(s, t, i) && s.mem[t].ptes[i] == Entry(s.mem, t, i) == Lookup(s.mem, r, v).value
    ensures t < |s.own| && IsTab(s.own[t], r) && s.own[t].level == 0 && s.own[t].prefix * 512 + i == v
            && s.own[t].prefix == v / 512
  {
    LookupOwner(s, r, v);
    TablePage(s, t);
    PrefixStep(0, v);
  }

  /** Only the flags of page v of tree r changed, to fl. */
  ghost predicate Reflagged(s: Snap, s': Snap, r: nat, v: nat, fl: Flags) {
    && s'.own == s.own && |s'.mem| == |s.mem| == |s.own| && s'.lo == s.lo && s'.free == s.free
    && (forall f :: 0 <= f < |s.own| && !IsTab(s.own[f], r) ==> s'.mem[f] == s.mem[f])
    && (forall r2, v2 :: IsRoot(s, r2) && 0 <= v2 < MAXVPN ==>
          if r2 == r && v2 == v then
            && Lookup(s.mem, r, v).Some?
            && Lookup(s'.mem, r, v) == Some(Lookup(s.mem, r, v).value.(flags := fl))
          else Lookup(s'.mem, r2, v2) == Lookup(s.mem, r2, v2))
  }

  lemma ReflagOne(s: Snap, r: nat, v: nat, t: nat, i: nat, fl: Flags)
    requires Inv(s) && IsRoot(s, r) && v < MAXVPN && Lookup(s.mem, r, v).Some?
    requires TableAt(s.mem, r, v, 0) == Some(t) && i == Idx(0, v)
    requires fl.v && LeafFlags(fl) && (fl.u ==> Lookup(s.mem, r, v).value.flags.u)
    ensures HasEntry(s, t, i)
    ensures var s' := WithEntry(s, t, i, s.mem[t].ptes[i].(flags := fl)); Inv(s') && Reflagged(s, s', r, v, fl)
  {
    SlotEntry(s, r, v, t, i);
    assert |s.own| == |s.mem|;
    ReflagKeeps(s, t, i, fl);
    LeafWrite(s, t, i, Entry(s.mem, t, i).(flags := fl));
    hide Inv, Lookup, TableAt;
  }

  /** Takes user access away from the page at va: the guard page below the stack. */
  method Uvmclear(k: Kmem, pagetable: nat, va: uint64)
    requires Inv(k.G()) && IsRoot(k.G(), pagetable) && va < MAXVA
    requires Lookup(k.mem[..], pagetable, va / PGSIZE).Some?  // panic("uvmclear")
    modifies k, k.mem
    ensures Inv(k.G())
    ensures Reflagged(old(k.G()), k.G(), pagetable, va / PGSIZE,
                      Lookup(old(k.mem[..]), pagetable, va / PGSIZE).value.flags.(u := false))
  {
    hide Inv, Reflagged, TableAt, Lookup;
    ghost var s, v := k.G(), va / PGSIZE;
    SomeTable(s.mem, pagetable, v);
    var pte := Walk(k, pagetable, va, false);
    SlotEntry(s, pagetable, v, pte.t, pte.i);
    LeafAt(s, pagetable, v);
    var e := k.mem[pte.t].ptes[pte.i];
    ReflagOne(s, pagetable, v, pte.t, pte.i, e.flags.(u := false));
    k.mem[pte.t] := Table(k.mem[pte.t].ptes[pte.i := e.(flags := e.flags.(u := false))]);
    assert k.G() == WithEntry(s, pte.t, pte.i, e.(flags := e.flags.(u := false)));
  }

  lemma LeafAt(s: Snap, r: nat, v: nat)
    requires Inv(s) && IsRoot(s, r) && v < MAXVPN && Lookup(s.mem, r, v).Some?
    ensures LeafFlags(Lookup(s.mem, r, v).value.flags) && Lookup(s.mem, r, v).value.flags.v
  {
    LookupOwner(s, r, v);
  }
}
